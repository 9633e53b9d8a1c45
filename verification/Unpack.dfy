/** `trip_unpack` of src/pack.c, and how it inverts `trip_pack`. */
module Unpack {
  import opened Options
  import opened Octets
  import opened Pack

  /** Outcome of one specifier: the octets accounted for, the read cursor, the values delivered. */
  datatype Read = Fail | Ok(len: nat, cur: nat, values: seq<Item>)

  /** Two's-complement sign restoration of a value read as unsigned, as `unpacki16/32/64` do it. */
  function Signed(u: nat, half: nat): int
    requires u < 2 * half
  {
    if u < half then u else -1 - (2 * half - 1 - u)
  }

  /** The octets that a specifier of fixed width takes. */
  function Width(ch: char): Option<nat> {
    match ch
    case 'o' => Some(SEAL) case 'O' => Some(0) case 'n' => Some(NONCE) case 'k' => Some(KEY)
    case 'c' => Some(1) case 'C' => Some(1) case 'h' => Some(2) case 'H' => Some(2)
    case 'i' => Some(4) case 'I' => Some(4) case 'q' => Some(8) case 'Q' => Some(8)
    case _ => None
  }

  /** What it makes of them. */
  function Value(ch: char, b: seq<Octet>): (vs: seq<Item>)
    ensures |vs| <= 1 && forall v :: v in vs ==> !v.Bin?
  {
    match ch
    case 'n' => [Nonce(Some(b))]
    case 'k' => [Key(Some(b))]
    case 'c' => [I8(Signed(FromBE(b) % 0x100, 0x80))]
    case 'C' => [U8(FromBE(b))]
    case 'h' => [I16(Signed(FromBE(b) % 0x1_0000, 0x8000))]
    case 'H' => [U16(FromBE(b))]
    case 'i' => [I32(Signed(FromBE(b) % TWO_32, 0x8000_0000))]
    case 'I' => [U32(FromBE(b))]
    case 'q' => [I64(Signed(FromBE(b) % (NPOS + 1), 0x8000_0000_0000_0000))]
    case 'Q' => [U64(FromBE(b))]
    case _ => []
  }

  function TakeFixed(ch: char, buf: seq<Octet>, len: nat, cur: nat): (r: Read)
    requires cur <= len <= |buf|
    ensures r.Ok? ==> r.len - r.cur == len - cur && r.len <= |buf| && |r.values| <= 1
    ensures r.Ok? ==> forall v :: v in r.values ==> !v.Bin?
  {
    match Width(ch)
    case None => Fail
    case Some(k) => if len + k > |buf| then Fail else Ok(len + k, cur + k, Value(ch, buf[cur..cur + k]))
  }

  /** The octets of all payloads among the values. */
  function Payloads(values: seq<Item>): nat {
    if values == [] then 0
    else (if values[0].Bin? then |values[0].payload| else 0) + Payloads(values[1..])
  }

  /** A variable-length integer of at most `max` octets: count, then high octet first. */
  function TakeVar(buf: seq<Octet>, len: nat, cur: nat, max: nat): (r: Option<(nat, nat)>)
    requires cur <= len <= |buf|
    ensures r.Some? ==> cur < |buf| && r.value.0 - 1 == buf[cur] && len + r.value.0 <= |buf|
  {
    if len + 1 > |buf| then None
    else
      var l: nat := buf[cur];
      if l > max || len + 1 + l > |buf| then None
      else Some((1 + l, FromBE(buf[cur + 1..cur + 1 + l])))
  }

  /** A length and the payload it announces; the cursor stays before the payload. */
  function TakeBin(buf: seq<Octet>, len: nat, cur: nat): (r: Read)
    requires cur <= len <= |buf|
    ensures r.Ok? ==> r.cur <= r.len <= |buf| && |r.values| == 1 && r.values[0].Bin?
    ensures r.Ok? ==> (r.len - r.cur) - (len - cur) == |r.values[0].payload|
  {
    match TakeVar(buf, len, cur, 4)
    case None => Fail
    case Some((k, n)) =>
      if len + k + n > |buf| then Fail
      else Ok(len + k + n, cur + k, [Bin(buf[cur + k..cur + k + n])])
  }

  /** V and W. */
  function TakeInt(ch: char, buf: seq<Octet>, len: nat, cur: nat): (r: Read)
    requires cur <= len <= |buf|
    ensures r.Ok? ==> r.len - r.cur == len - cur && r.len <= |buf| && |r.values| == 1 && !r.values[0].Bin?
  {
    match TakeVar(buf, len, cur, if ch == 'V' then 4 else 8)
    case None => Fail
    case Some((k, n)) => Ok(len + k, cur + k, [if ch == 'V' then Var32(n) else Var64(n)])
  }

  /** One turn of the loop over the format. Nothing at or past the end of `buf` is read, and the
      cursor falls behind the accounted length exactly by the payload of a `b`. */
  function UnpackOne(ch: char, buf: seq<Octet>, len: nat, cur: nat): (r: Read)
    requires cur <= len <= |buf|
    ensures r.Ok? ==> r.cur <= r.len <= |buf| && (r.len - r.cur) - (len - cur) == Payloads(r.values)
  {
    if ch == 'b' then TakeBin(buf, len, cur)
    else if ch == 'V' || ch == 'W' then TakeInt(ch, buf, len, cur)
    else TakeFixed(ch, buf, len, cur)
  }

  /** The whole format: `None` for NPOS, else the accounted length and the values. */
  function UnpackFrom(f: string, buf: seq<Octet>, len: nat, cur: nat): (r: Option<(nat, seq<Item>)>)
    requires cur <= len <= |buf|
    ensures r.Some? ==> len <= r.value.0 <= |buf|
    decreases |f|
  {
    if f == "" then Some((len, []))
    else
      match UnpackOne(f[0], buf, len, cur)
      case Fail => None
      case Ok(l, c, vs) =>
        match UnpackFrom(f[1..], buf, l, c)
        case None => None
        case Some((end, ws)) => Some((end, vs + ws))
  }

  /** `trip_unpack` on a buffer of `|buf|` octets. */
  function UnpackAll(f: string, buf: seq<Octet>): (r: Option<(nat, seq<Item>)>)
    ensures r.Some? ==> r.value.0 <= |buf|
  {
    UnpackFrom(f, buf, 0, 0)
  }

  /** The shift-and-add loop that reads a variable-length integer. */
  method ReadVar(buf: seq<Octet>, len: nat, cur: nat, max: nat) returns (r: Option<(nat, nat)>)
    requires cur <= len <= |buf|
    ensures r == TakeVar(buf, len, cur, max)
  {
    if len + 1 > |buf| { return None; }
    var l: nat := buf[cur];
    if l > max || len + 1 + l > |buf| { return None; }
    var n: nat := 0;
    for index := 0 to l
      invariant n == FromBE(buf[cur + 1..cur + 1 + index])
    {
      assert buf[cur + 1..cur + 1 + index + 1][..index] == buf[cur + 1..cur + 1 + index];
      var octet: nat := buf[cur + 1 + index];
      n := 256 * n + octet;
    }
    r := Some((1 + l, n));
  }

  /** The shift-and-or expressions of `unpacku16`, `unpacku32` and `unpacku64`. */
  function Word16(b: seq<Octet>): nat
    requires |b| == 2
  {
    var (h: nat, l: nat) := (b[0], b[1]);
    0x100 * h + l
  }

  function Word32(b: seq<Octet>): nat
    requires |b| == 4
  {
    var (w: nat, x: nat, y: nat, z: nat) := (b[0], b[1], b[2], b[3]);
    0x100_0000 * w + 0x1_0000 * x + 0x100 * y + z
  }

  function Word64(b: seq<Octet>): nat
    requires |b| == 8
  {
    TWO_32 * Word32(b[..4]) + Word32(b[4..])
  }

  lemma WordIsBE(b: seq<Octet>)
    ensures |b| == 1 ==> FromBE(b) == b[0]
    ensures |b| == 2 ==> FromBE(b) == Word16(b) < 0x1_0000
    ensures |b| == 4 ==> FromBE(b) == Word32(b) < TWO_32
  {
    if |b| == 1 {
      assert b[..0] == [];
    } else if |b| == 2 {
      assert b[..1] == [b[0]] && [b[0]][..0] == [];
    } else if |b| == 4 {
      assert b[..3][..2] == b[..2] && b[..2][..1] == [b[0]] && [b[0]][..0] == [];
    }
  }

  lemma LongIsBE(b: seq<Octet>)
    requires |b| == 8
    ensures FromBE(b) == Word64(b) <= NPOS
  {
    WordIsBE(b[..4]);
    WordIsBE(b[4..]);
    FromBESplit(b, 4);
    assert Pow256(4) == TWO_32;
  }

  lemma {:induction false} FromBESplit(b: seq<Octet>, i: nat)
    requires i <= |b|
    ensures FromBE(b) == FromBE(b[..i]) * Pow256(|b| - i) + FromBE(b[i..])
    decreases |b| - i
  {
    if i == |b| {
      assert b[..i] == b;
    } else {
      var front := b[..|b| - 1];
      FromBESplit(front, i);
      assert front[..i] == b[..i] && b[i..][..|b| - 1 - i] == front[i..];
      Scaled(FromBE(b[..i]), Pow256(|b| - 1 - i), FromBE(front[i..]));
      assert Pow256(|b| - i) == 256 * Pow256(|b| - 1 - i);
    }
  }

  lemma Scaled(x: nat, y: nat, z: nat)
    ensures 256 * (x * y + z) == x * (256 * y) + 256 * z
  { }

  /** The sign restoration of `unpacki16`, `unpacki32` and `unpacki64`. */
  method Restore(u: nat, half: nat) returns (v: int)
    requires u < 2 * half
    ensures 0 - half <= v < half && (v == u || v == u - 2 * half) && v == Signed(u, half)
  {
    if u <= half - 1 { v := u; } else { v := -1 - (2 * half - 1 - u); }
  }

  method ReadUnsigned(b: seq<Octet>) returns (u: nat)
    requires |b| == 1 || |b| == 2 || |b| == 4 || |b| == 8
    ensures u == FromBE(b) < Pow256(|b|)
  {
    FixedWidths();
    WordIsBE(b);
    hide FromBE, Word16, Word32, Word64, Pow256;
    if |b| == 1 {
      u := b[0];
    } else if |b| == 2 {
      u := Word16(b);
    } else if |b| == 4 {
      u := Word32(b);
    } else {
      LongIsBE(b);
      u := Word64(b);
    }
  }

  lemma WordValue(ch: char, b: seq<Octet>)
    requires ch in "cChHiIqQ" && Width(ch) == Some(|b|) && FromBE(b) < Pow256(|b|)
    ensures var u := FromBE(b);
            match ch
            case 'c' => u < 0x100 && Value(ch, b) == [I8(Signed(u, 0x80))]
            case 'C' => Value(ch, b) == [U8(u)]
            case 'h' => u < 0x1_0000 && Value(ch, b) == [I16(Signed(u, 0x8000))]
            case 'H' => Value(ch, b) == [U16(u)]
            case 'i' => u < TWO_32 && Value(ch, b) == [I32(Signed(u, 0x8000_0000))]
            case 'I' => Value(ch, b) == [U32(u)]
            case 'q' => u <= NPOS && Value(ch, b) == [I64(Signed(u, 0x8000_0000_0000_0000))]
            case _ => Value(ch, b) == [U64(u)]
  {
    FixedWidths();
    hide FromBE, Signed, Pow256;
    Reduced(FromBE(b), 0x100);
    Reduced(FromBE(b), 0x1_0000);
    Reduced(FromBE(b), TWO_32);
    Reduced(FromBE(b), NPOS + 1);
  }

  lemma Reduced(u: nat, m: nat)
    requires m > 0
    ensures u < m ==> u % m == u
  { }

  /** The value of a fixed-width integer from its octets. */
  method ReadWord(ch: char, b: seq<Octet>) returns (vs: seq<Item>)
    requires ch in "cChHiIqQ" && Width(ch) == Some(|b|)
    ensures vs == Value(ch, b)
  {
    FixedWidths();
    hide FromBE, Pow256;
    var u := ReadUnsigned(b);
    WordValue(ch, b);
    hide Value;
    var v: int := u;
    if ch in "chiq" {
      var half := if ch == 'c' then 0x80 else if ch == 'h' then 0x8000
                  else if ch == 'i' then 0x8000_0000 else 0x8000_0000_0000_0000;
      v := Restore(u, half);
    }
    hide Signed;
    match ch {
      case 'c' => vs := [I8(v)];
      case 'C' => vs := [U8(v)];
      case 'h' => vs := [I16(v)];
      case 'H' => vs := [U16(v)];
      case 'i' => vs := [I32(v)];
      case 'I' => vs := [U32(v)];
      case 'q' => vs := [I64(v)];
      case _ => vs := [U64(v)];
    }
  }

  /** The body of the loop over the format. */
  method ReadOne(ch: char, buf: seq<Octet>, len: nat, cur: nat) returns (step: Read)
    requires cur <= len <= |buf|
    ensures step == UnpackOne(ch, buf, len, cur)
  {
    hide FromBE;
    if ch == 'V' || ch == 'W' || ch == 'b' {
      var v := ReadVar(buf, len, cur, if ch == 'W' then 8 else 4);
      if v.None? { return Fail; }
      var (k, n) := v.value;
      if ch == 'V' { return Ok(len + k, cur + k, [Var32(n)]); }
      if ch == 'W' { return Ok(len + k, cur + k, [Var64(n)]); }
      if len + k + n > |buf| { return Fail; }
      return Ok(len + k + n, cur + k, [Bin(buf[cur + k..cur + k + n])]);
    }
    var w := Width(ch);
    if w.None? || len + w.value > |buf| { return Fail; }
    var k := w.value;
    var b, vs := buf[cur..cur + k], [];
    if ch in "cChHiIqQ" {
      vs := ReadWord(ch, b);
    } else if ch == 'n' {
      vs := [Nonce(Some(b))];
    } else if ch == 'k' {
      vs := [Key(Some(b))];
    }
    step := Ok(len + k, cur + k, vs);
  }

  lemma {:induction false} PayloadsConcat(a: seq<Item>, b: seq<Item>)
    ensures Payloads(a + b) == Payloads(a) + Payloads(b)
  {
    if a == [] {
      assert a + b == b;
    } else {
      PayloadsConcat(a[1..], b);
      assert (a + b)[1..] == a[1..] + b && (a + b)[0] == a[0];
    }
  }

  /** The loop over the format. Nothing past the end is accounted for, and at the end the cursor is behind
      the accounted length exactly by the payloads read. */
  method UnpackLoop(f: string, buf: seq<Octet>) returns (r: Option<(nat, seq<Item>)>, cur: nat)
    ensures r == UnpackAll(f, buf)
    ensures r.Some? ==> cur + Payloads(r.value.1) == r.value.0 <= |buf|
  {
    var len: nat := 0;
    cur := 0;
    var values: seq<Item> := [];
    PrefixedNone(UnpackFrom(f, buf, 0, 0));
    assert f[0..] == f;
    for i := 0 to |f|
      invariant cur <= len <= |buf| && len - cur == Payloads(values)
      invariant UnpackFrom(f, buf, 0, 0) == Prefixed(values, UnpackFrom(f[i..], buf, len, cur))
    {
      hide UnpackOne, Prefixed, Payloads;
      var step := ReadOne(f[i], buf, len, cur);
      UnpackNext(f[i..], buf, len, cur, values);
      assert f[i..][1..] == f[i + 1..];
      if step.Fail? { return None, cur; }
      PayloadsConcat(values, step.values);
      len, cur, values := step.len, step.cur, values + step.values;
    }
    assert values + [] == values;
    r := Some((len, values));
  }

  lemma UnpackNext(f: string, buf: seq<Octet>, len: nat, cur: nat, values: seq<Item>)
    requires cur <= len <= |buf| && f != ""
    ensures match UnpackOne(f[0], buf, len, cur)
            case Fail => Prefixed(values, UnpackFrom(f, buf, len, cur)) == None
            case Ok(l, c, vs) => Prefixed(values, UnpackFrom(f, buf, len, cur))
                                 == Prefixed(values + vs, UnpackFrom(f[1..], buf, l, c))
  {
    var step := UnpackOne(f[0], buf, len, cur);
    hide UnpackOne;
    if step.Ok? { PrefixedTwice(values, step.values, UnpackFrom(f[1..], buf, step.len, step.cur)); }
  }

  lemma PrefixedNone(r: Option<(nat, seq<Item>)>)
    ensures Prefixed([], r) == r
  {
    if r.Some? { assert [] + r.value.1 == r.value.1; }
  }

  function Prefixed(vs: seq<Item>, r: Option<(nat, seq<Item>)>): Option<(nat, seq<Item>)> {
    if r.None? then None else Some((r.value.0, vs + r.value.1))
  }

  lemma PrefixedTwice(vs: seq<Item>, ws: seq<Item>, r: Option<(nat, seq<Item>)>)
    ensures Prefixed(vs, Prefixed(ws, r)) == Prefixed(vs + ws, r)
  {
    if r.Some? { assert vs + (ws + r.value.1) == vs + ws + r.value.1; }
  }

  /** The value that unpacking delivers for a packed item: integers reduced to the width that was
      written, variable-length ones with their octets reversed, a NULL nonce or key as zeros. */
  function Canon(it: Item): seq<Item> {
    match it
    case I8(v) => [I8(Signed(v % 0x100, 0x80))]
    case U8(v) => [U8(v % 0x100)]
    case I16(v) => [I16(Signed(v % 0x1_0000, 0x8000))]
    case U16(v) => [U16(v % 0x1_0000)]
    case I32(v) => [I32(Signed(v % TWO_32, 0x8000_0000))]
    case U32(v) => [U32(v % TWO_32)]
    case I64(v) => [I64(Signed(v % (NPOS + 1), 0x8000_0000_0000_0000))]
    case U64(v) => [U64(v % (NPOS + 1))]
    case Var32(n) => [Var32(RevOctets(n))]
    case Var64(n) => [Var64(RevOctets(n))]
    case Nonce(b) => [Nonce(Some(OrZeros(b, NONCE)))]
    case Key(b) => [Key(Some(OrZeros(b, KEY)))]
    case Bin(b) => [it]
    case _ => []
  }

  /** Items whose packing `trip_unpack` can read: no e, E, s, S, and a `b` only with a length whose
      octets read the same both ways. */
  predicate Readable(it: Item) {
    && Typed(it) && !it.BoxOpen? && !it.BoxClose? && !it.SignOpen? && !it.SignClose? && !it.Unknown?
    && (it.Bin? ==> RevOctets(|it.payload|) == |it.payload|)
  }

  /** The argument survives the round trip unchanged. */
  predicate Survives(it: Item) {
    match it
    case I8(v) => -0x80 <= v < 0x80
    case U8(v) => 0 <= v < 0x100
    case I16(v) => -0x8000 <= v < 0x8000
    case U16(v) => 0 <= v < 0x1_0000
    case I32(v) => -0x8000_0000 <= v < 0x8000_0000
    case U32(v) => 0 <= v < TWO_32
    case I64(v) => -0x8000_0000_0000_0000 <= v < 0x8000_0000_0000_0000
    case U64(v) => 0 <= v <= NPOS
    case Var32(n) => BE(n, UvarLen(n)) == Reverse(BE(n, UvarLen(n)))
    case Var64(n) => BE(n, UvarLen(n)) == Reverse(BE(n, UvarLen(n)))
    case Nonce(b) => b.Some?
    case Key(b) => b.Some?
    case _ => true
  }

  /** A value survives exactly when its integer fits the width or its octets read both ways alike. */
  lemma CanonIdentity(it: Item)
    requires IsValue(it)
    ensures Canon(it) == [it] <==> Survives(it)
  {
    hide BE, UvarLen, Reverse, RevOctets;
    if it.Var32? || it.Var64? { VarIntLaw(it.n); }
  }

  /** The octets of `it`, found at `|a|` with the cursor there, are read back. */
  ghost predicate ReadsBack(it: Item, a: seq<Octet>, rest: seq<Octet>) {
    var n := |a| + |ItemOctets(it)|;
    UnpackOne(Specifier(it), a + ItemOctets(it) + rest, |a|, |a|)
    == Ok(n, if it.Bin? then n - |it.payload| else n, Canon(it))
  }

  lemma TakeVarBack(a: seq<Octet>, n: nat, rest: seq<Octet>, max: nat)
    requires UvarLen(n) <= max < 256
    ensures TakeVar(a + VarOctets(n) + rest, |a|, |a|, max) == Some((|VarOctets(n)|, RevOctets(n)))
  {
    var k := UvarLen(n);
    var buf := a + VarOctets(n) + rest;
    assert buf[|a|] == k;
    assert buf[|a| + 1..|a| + 1 + k] == LE(n, k);
  }

  lemma FixedWidths()
    ensures Pow256(1) == 0x100 && Pow256(2) == 0x1_0000 && Pow256(4) == TWO_32 && Pow256(8) == NPOS + 1
  { }

  predicate IsFixed(it: Item) {
    && !it.Bin? && !it.Var32? && !it.Var64? && !it.BoxOpen? && !it.BoxClose?
    && !it.SignOpen? && !it.SignClose? && !it.Unknown?
  }

  /** The law of `FixedValue` for one item. */
  ghost predicate ReadsOwn(it: Item) {
    Width(Specifier(it)) == Some(|ItemOctets(it)|) && Value(Specifier(it), ItemOctets(it)) == Canon(it)
  }

  /** Specifier by specifier: what is read from an item's own octets. */
  lemma FixedValue(it: Item)
    requires IsFixed(it) && Typed(it)
    ensures ReadsOwn(it)
  {
    hide ReadsOwn, Typed;
    match it
    case I8(v) => OwnOctet(v);
    case U8(v) => OwnOctet(v);
    case I16(v) => OwnShort(v);
    case U16(v) => OwnShort(v);
    case I32(v) => OwnWord(v);
    case U32(v) => OwnWord(v);
    case I64(v) => OwnLong(v);
    case U64(v) => OwnLong(v);
    case _ => OwnRaw(it);
  }

  lemma OwnOctet(v: int)
    ensures ReadsOwn(I8(v)) && ReadsOwn(U8(v))
  {
    FixedWidths();
    hide BE, FromBE, Pow256;
    FromBEofBE(v % 0x100, 1);
  }

  lemma OwnShort(v: int)
    ensures ReadsOwn(I16(v)) && ReadsOwn(U16(v))
  {
    FixedWidths();
    hide BE, FromBE, Pow256;
    FromBEofBE(v % 0x1_0000, 2);
  }

  lemma OwnWord(v: int)
    ensures ReadsOwn(I32(v)) && ReadsOwn(U32(v))
  {
    FixedWidths();
    hide BE, FromBE, Pow256;
    FromBEofBE(v % TWO_32, 4);
  }

  lemma OwnLong(v: int)
    ensures ReadsOwn(I64(v)) && ReadsOwn(U64(v))
  {
    FixedWidths();
    hide BE, FromBE, Pow256;
    FromBEofBE(v % (NPOS + 1), 8);
  }

  lemma OwnRaw(it: Item)
    requires Typed(it) && (it.Nonce? || it.Key? || it.SealOpen? || it.SealClose?)
    ensures ReadsOwn(it)
  {
    hide FromBE;
  }

  lemma ReadsFixed(it: Item, a: seq<Octet>, rest: seq<Octet>)
    requires IsFixed(it) && Typed(it)
    ensures ReadsBack(it, a, rest)
  {
    FixedValue(it);
    SpecifierKind(it);
    hide ItemOctets, Canon, Value, Width, Specifier, Typed, TakeInt, TakeBin;
    assert (a + ItemOctets(it) + rest)[|a|..|a| + |ItemOctets(it)|] == ItemOctets(it);
  }

  lemma SpecifierKind(it: Item)
    requires Typed(it)
    ensures Specifier(it) == 'b' <==> it.Bin?
    ensures Specifier(it) == 'V' <==> it.Var32?
    ensures Specifier(it) == 'W' <==> it.Var64?
  { }

  lemma ReadsVar(it: Item, a: seq<Octet>, rest: seq<Octet>)
    requires Typed(it) && (it.Var32? || it.Var64?)
    ensures ReadsBack(it, a, rest)
  {
    FixedWidths();
    UvarLenLeast(it.n, if it.Var32? then 4 else 8);
    assert ItemOctets(it) == VarOctets(it.n);
    TakeVarBack(a, it.n, rest, if it.Var32? then 4 else 8);
    hide VarOctets, RevOctets, UvarLen, Pow256, TakeVar, TakeFixed, TakeBin, ItemOctets;
  }

  /** A written `b`, whatever stands behind it: its length is read with the octets reversed, and the
      payload is as much of what follows, if there is as much. */
  lemma BinBack(a: seq<Octet>, b: seq<Octet>, more: seq<Octet>)
    requires |b| < TWO_32
    ensures var k, n := |a| + |VarOctets(|b|)|, RevOctets(|b|);
            TakeBin(a + VarOctets(|b|) + (b + more), |a|, |a|)
            == if n > |b + more| then Fail else Ok(k + n, k, [Bin((b + more)[..n])])
  {
    FixedWidths();
    UvarLenLeast(|b|, 4);
    hide VarOctets, RevOctets, UvarLen, Pow256, TakeVar;
    var k, n := |a| + |VarOctets(|b|)|, RevOctets(|b|);
    var buf := a + VarOctets(|b|) + (b + more);
    TakeVarBack(a, |b|, b + more, 4);
    if n <= |b + more| { assert buf[k..k + n] == (b + more)[..n]; }
  }

  lemma ReadsBin(it: Item, a: seq<Octet>, rest: seq<Octet>)
    requires Readable(it) && it.Bin?
    ensures ReadsBack(it, a, rest)
  {
    hide TakeFixed, TakeInt, TakeBin, VarOctets, RevOctets, Readable;
    var b := it.payload;
    BinLength(b);
    BinBack(a, b, rest);
    assert a + VarOctets(|b|) + (b + rest) == a + (VarOctets(|b|) + b) + rest;
    assert (b + rest)[..|b|] == b;
  }

  lemma ReadsItem(it: Item, a: seq<Octet>, rest: seq<Octet>)
    requires Readable(it)
    ensures ReadsBack(it, a, rest)
  {
    hide ReadsBack, RevOctets;
    if it.Bin? {
      ReadsBin(it, a, rest);
    } else if it.Var32? || it.Var64? {
      ReadsVar(it, a, rest);
    } else {
      ReadsFixed(it, a, rest);
    }
  }

  function Flat(items: seq<Item>): seq<Octet> {
    if items == [] then [] else ItemOctets(items[0]) + Flat(items[1..])
  }

  function CanonAll(items: seq<Item>): seq<Item> {
    if items == [] then [] else Canon(items[0]) + CanonAll(items[1..])
  }

  /** Every item readable, and a `b` with a payload only in last place, since reading one does not move
      the cursor past its payload. */
  predicate ReadableAll(items: seq<Item>) {
    && (forall it :: it in items ==> Readable(it))
    && (forall i :: 0 <= i < |items| - 1 && items[i].Bin? ==> items[i].payload == [])
  }

  /** The codec round trip, for every format, wherever the octets stand in a longer buffer. */
  lemma {:induction false} RoundTrip(items: seq<Item>, a: seq<Octet>, rest: seq<Octet>)
    requires ReadableAll(items)
    ensures UnpackFrom(Format(items), a + Flat(items) + rest, |a|, |a|)
            == Some((|a| + |Flat(items)|, CanonAll(items)))
  {
    hide UnpackOne, ItemOctets, Readable, Specifier, Canon;
    if items != [] {
      var it, tail := items[0], items[1..];
      var w := ItemOctets(it);
      var buf := a + Flat(items) + rest;
      ReadsItem(it, a, Flat(tail) + rest);
      assert a + w + (Flat(tail) + rest) == buf;
      if tail == [] {
        assert UnpackFrom("", buf, |a| + |w|, if it.Bin? then |a| + |w| - |it.payload| else |a| + |w|)
               == Some((|a| + |w|, []));
        assert CanonAll(tail) == [] && Format(items)[1..] == "";
      } else {
        RoundTrip(tail, a + w, rest);
        assert (a + w) + Flat(tail) + rest == buf;
        assert Format(items)[1..] == Format(tail);
      }
    }
  }

  /** The arguments of a format, without the brackets. */
  function Values(items: seq<Item>): seq<Item> {
    if items == [] then [] else (if IsValue(items[0]) then [items[0]] else []) + Values(items[1..])
  }

  /** The round trip returns the original arguments exactly when every one of them survives. */
  lemma {:induction false} RoundTripIdentity(items: seq<Item>)
    ensures |CanonAll(items)| == |Values(items)|
    ensures CanonAll(items) == Values(items) <==> forall it :: it in items && IsValue(it) ==> Survives(it)
  {
    if items != [] {
      var it, tail := items[0], items[1..];
      RoundTripIdentity(tail);
      assert forall x :: x in items <==> x == it || x in tail;
      if IsValue(it) {
        CanonIdentity(it);
        assert Canon(it) == [Canon(it)[0]];
        hide Canon, Survives;
        assert CanonAll(items)[0] == Canon(it)[0] && CanonAll(items)[1..] == CanonAll(tail);
        assert Values(items)[0] == it && Values(items)[1..] == Values(tail);
      } else {
        assert Canon(it) == [] && [] + CanonAll(tail) == CanonAll(tail) && [] + Values(tail) == Values(tail);
      }
    }
  }

  /** Unsigned items contribute their own octets, wherever they stand. */
  lemma {:induction false} EncodeFlat(pre: seq<Item>, items: seq<Item>, sign: Signer)
    requires forall it :: it in items ==> !it.SignOpen? && !it.SignClose?
    ensures Encode(pre + items, sign) == Encode(pre, sign).(octets := Encode(pre, sign).octets + Flat(items))
    decreases |items|
  {
    if items == [] {
      assert pre + items == pre;
      assert Encode(pre, sign).octets + [] == Encode(pre, sign).octets;
    } else {
      var it, tail := items[0], items[1..];
      hide ItemOctets;
      assert pre + items == (pre + [it]) + tail;
      EncodeFlat(pre + [it], tail, sign);
      assert (pre + [it])[..|pre|] == pre;
      assert Encode(pre, sign).octets + ItemOctets(it) + Flat(tail)
             == Encode(pre, sign).octets + (ItemOctets(it) + Flat(tail));
    }
  }

  /** `trip_unpack` inverts `trip_pack`: from what is packed for a readable format it accounts for every
      octet, delivers each argument as `Canon` says, and hence the arguments themselves exactly when
      all of them survive. */
  lemma {:induction false} UnpackInvertsPack(items: seq<Item>, sign: Signer)
    requires ReadableAll(items)
    ensures var octets := Encode(items, sign).octets;
            && UnpackAll(Format(items), octets) == Some((|octets|, CanonAll(items)))
            && (UnpackAll(Format(items), octets) == Some((|octets|, Values(items)))
                <==> forall it :: it in items && IsValue(it) ==> Survives(it))
  {
    hide ReadableAll, Survives, Flat, CanonAll, Values, UnpackFrom, Format, Encode;
    EncodeIsFlat(items, sign);
    RoundTrip(items, [], []);
    RoundTripIdentity(items);
    assert [] + Flat(items) + [] == Flat(items);
  }

  lemma {:induction false} EncodeIsFlat(items: seq<Item>, sign: Signer)
    requires ReadableAll(items)
    ensures Encode(items, sign).octets == Flat(items)
  {
    assert forall it :: it in items ==> Readable(it);
    EncodeFlat([], items, sign);
    hide Readable, Flat;
    assert [] + items == items && [] + Flat(items) == Flat(items);
    assert Encode([], sign).octets == [];
  }

  /** All specifiers have a fixed width, and what they take together. */
  predicate AllFixed(f: string) {
    forall i :: 0 <= i < |f| ==> f[i] != 'b' && f[i] != 'V' && f[i] != 'W' && Width(f[i]).Some?
  }

  function WidthAll(f: string): nat
    requires AllFixed(f)
  {
    if f == "" then 0 else Width(f[0]).value + WidthAll(f[1..])
  }

  /** Such a format is read exactly if there is room, and takes just that much. */
  lemma {:induction false} FixedFormat(f: string, buf: seq<Octet>, len: nat, cur: nat)
    requires AllFixed(f) && cur <= len <= |buf|
    ensures UnpackFrom(f, buf, len, cur).Some? <==> len + WidthAll(f) <= |buf|
    ensures UnpackFrom(f, buf, len, cur).Some? ==> UnpackFrom(f, buf, len, cur).value.0 == len + WidthAll(f)
    decreases |f|
  {
    hide UnpackFrom, Value, Width;
    if f == "" {
      UnpackNothing(buf, len, cur);
    } else {
      UnpackStep(f, buf, len, cur);
      var r := UnpackOne(f[0], buf, len, cur);
      if r.Ok? { FixedFormat(f[1..], buf, r.len, r.cur); }
    }
  }

  // ---- a `b` that is not last, or whose length does not survive ----

  function Moved(r: Read, k: nat): Read {
    if r.Fail? then Fail else Ok(r.len + k, r.cur + k, r.values)
  }

  lemma Slices(a: seq<Octet>, buf: seq<Octet>, i: nat, j: nat)
    requires i <= j <= |buf|
    ensures (a + buf)[|a| + i..|a| + j] == buf[i..j] && (i < |buf| ==> (a + buf)[|a| + i] == buf[i])
  { }

  lemma FixedMoved(ch: char, a: seq<Octet>, buf: seq<Octet>, len: nat, cur: nat)
    requires cur <= len <= |buf|
    ensures TakeFixed(ch, a + buf, |a| + len, |a| + cur) == Moved(TakeFixed(ch, buf, len, cur), |a|)
  {
    hide Value, Width;
    if Width(ch).Some? && len + Width(ch).value <= |buf| { Slices(a, buf, cur, cur + Width(ch).value); }
  }

  lemma VarMoved(a: seq<Octet>, buf: seq<Octet>, len: nat, cur: nat, max: nat)
    requires cur <= len <= |buf|
    ensures TakeVar(a + buf, |a| + len, |a| + cur, max) == TakeVar(buf, len, cur, max)
  {
    hide FromBE;
    Slices(a, buf, cur, cur);
    if len < |buf| && len + 1 + buf[cur] <= |buf| { Slices(a, buf, cur + 1, cur + 1 + buf[cur]); }
  }

  lemma BinMoved(a: seq<Octet>, buf: seq<Octet>, len: nat, cur: nat)
    requires cur <= len <= |buf|
    ensures TakeBin(a + buf, |a| + len, |a| + cur) == Moved(TakeBin(buf, len, cur), |a|)
  {
    VarMoved(a, buf, len, cur, 4);
    var v := TakeVar(buf, len, cur, 4);
    hide TakeVar;
    if v.Some? && len + v.value.0 + v.value.1 <= |buf| {
      Slices(a, buf, cur + v.value.0, cur + v.value.0 + v.value.1);
    }
  }

  /** Only the octets from the cursor on matter, and how far the cursor is behind. */
  lemma OneMoved(ch: char, a: seq<Octet>, buf: seq<Octet>, len: nat, cur: nat)
    requires cur <= len <= |buf|
    ensures UnpackOne(ch, a + buf, |a| + len, |a| + cur) == Moved(UnpackOne(ch, buf, len, cur), |a|)
  {
    hide TakeFixed, TakeBin, TakeVar;
    FixedMoved(ch, a, buf, len, cur);
    BinMoved(a, buf, len, cur);
    VarMoved(a, buf, len, cur, if ch == 'V' then 4 else 8);
  }

  function Later(k: nat, r: Option<(nat, seq<Item>)>): Option<(nat, seq<Item>)> {
    if r.None? then None else Some((k + r.value.0, r.value.1))
  }

  function Behind(k: nat, vs: seq<Item>, r: Option<(nat, seq<Item>)>): Option<(nat, seq<Item>)> {
    if r.None? then None else Some((k + r.value.0, vs + r.value.1))
  }

  lemma UnpackStep(f: string, buf: seq<Octet>, len: nat, cur: nat)
    requires cur <= len <= |buf| && f != ""
    ensures UnpackFrom(f, buf, len, cur) ==
            match UnpackOne(f[0], buf, len, cur)
            case Fail => None
            case Ok(l, c, vs) => Prefixed(vs, UnpackFrom(f[1..], buf, l, c))
  {
    hide UnpackOne;
  }

  lemma {:induction false} AllMoved(f: string, a: seq<Octet>, buf: seq<Octet>, len: nat, cur: nat)
    requires cur <= len <= |buf|
    ensures UnpackFrom(f, a + buf, |a| + len, |a| + cur) == Later(|a|, UnpackFrom(f, buf, len, cur))
    decreases |f|
  {
    hide UnpackOne, UnpackFrom;
    if f == "" {
      UnpackNothing(buf, len, cur);
      UnpackNothing(a + buf, |a| + len, |a| + cur);
    } else {
      OneMoved(f[0], a, buf, len, cur);
      UnpackStep(f, buf, len, cur);
      UnpackStep(f, a + buf, |a| + len, |a| + cur);
      var r := UnpackOne(f[0], buf, len, cur);
      if r.Ok? { AllMoved(f[1..], a, buf, r.len, r.cur); }
    }
  }

  lemma UnpackNothing(buf: seq<Octet>, len: nat, cur: nat)
    requires cur <= len <= |buf|
    ensures UnpackFrom("", buf, len, cur) == Some((len, []))
  { }

  /** What becomes of a written `b` and everything behind it, for every length, every rest of the format
      and all octets `more`: the payload is cut by the reversed length, and the rest of the format is
      read again from the first octet of the payload, while the payload counts as consumed. */
  lemma {:induction false} BinThen(b: seq<Octet>, f: string, more: seq<Octet>)
    requires |b| < TWO_32
    ensures var n := RevOctets(|b|);
            UnpackAll("b" + f, VarOctets(|b|) + (b + more))
            == if n > |b + more| then None
               else Behind(|VarOctets(|b|)|, [Bin((b + more)[..n])], UnpackFrom(f, b + more, n, 0))
  {
    hide VarOctets, RevOctets, UnpackFrom, TakeBin;
    var w, n, buf := VarOctets(|b|), RevOctets(|b|), VarOctets(|b|) + (b + more);
    BinBack([], b, more);
    assert [] + w + (b + more) == buf;
    BinFirst(f, buf);
    if n <= |b + more| { AllMoved(f, w, b + more, n, 0); }
  }

  lemma {:induction false} BinFirst(f: string, buf: seq<Octet>)
    ensures UnpackAll("b" + f, buf) ==
            match TakeBin(buf, 0, 0)
            case Fail => None
            case Ok(l, c, vs) => Behind(0, vs, UnpackFrom(f, buf, l, c))
  {
    hide TakeBin, TakeInt, TakeFixed;
    assert ("b" + f)[0] == 'b' && ("b" + f)[1..] == f;
  }

  /** A `b` in last place with any length: a length that does not survive gives a shorter payload, or
      failure where the reversed length is greater. */
  lemma {:induction false} BinLast(b: seq<Octet>)
    requires |b| < TWO_32
    ensures var n := RevOctets(|b|);
            UnpackAll("b", VarOctets(|b|) + b)
            == if n > |b| then None else Some((|VarOctets(|b|)| + n, [Bin(b[..n])]))
  {
    hide VarOctets, RevOctets;
    BinThen(b, "", []);
    var n := RevOctets(|b|);
    assert b + [] == b && "b" + "" == "b";
    if n <= |b| { assert UnpackFrom("", b, n, 0) == Some((n, [])) && [Bin(b[..n])] + [] == [Bin(b[..n])]; }
  }

  /** A `b` whose length survives, before the specifiers of any other items: they are read from the
      payload, not from behind it. */
  lemma {:induction false} BinNotLast(b: seq<Octet>, tail: seq<Item>, sign: Signer)
    requires Readable(Bin(b)) && forall it :: it in tail ==> !it.SignOpen? && !it.SignClose?
    ensures UnpackAll(Format([Bin(b)] + tail), Encode([Bin(b)] + tail, sign).octets)
            == Behind(|VarOctets(|b|)|, [Bin(b)], UnpackFrom(Format(tail), b + Flat(tail), |b|, 0))
  {
    hide VarOctets, UnpackFrom, UnpackAll, Encode, Flat, Format, Typed;
    assert RevOctets(|b|) == |b| && |b| < TWO_32 by { BinLength(b); }
    hide RevOctets;
    BinEncoded(b, tail, sign);
    BinThen(b, Format(tail), Flat(tail));
    assert (b + Flat(tail))[..|b|] == b;
  }

  lemma BinLength(b: seq<Octet>)
    requires Readable(Bin(b))
    ensures RevOctets(|b|) == |b| && |b| < TWO_32
  { }

  lemma {:induction false} BinEncoded(b: seq<Octet>, tail: seq<Item>, sign: Signer)
    requires forall it :: it in tail ==> !it.SignOpen? && !it.SignClose?
    ensures Format([Bin(b)] + tail) == "b" + Format(tail)
    ensures Encode([Bin(b)] + tail, sign).octets == VarOctets(|b|) + (b + Flat(tail))
  {
    hide VarOctets, Flat, Encode, Format;
    EncodeFlat([Bin(b)], tail, sign);
    BinAlone(b, sign);
    BinFormat(b, tail);
    assert VarOctets(|b|) + b + Flat(tail) == VarOctets(|b|) + (b + Flat(tail));
  }

  lemma BinFormat(b: seq<Octet>, tail: seq<Item>)
    ensures Format([Bin(b)] + tail) == "b" + Format(tail)
  {
    assert ([Bin(b)] + tail)[1..] == tail;
  }

  lemma BinAlone(b: seq<Octet>, sign: Signer)
    ensures Encode([Bin(b)], sign).octets == VarOctets(|b|) + b
  {
    hide VarOctets;
    assert [Bin(b)][..0] == [];
  }

  /** For example one octet, which is read right exactly if the payload is empty or begins with it. */
  lemma {:induction false} BinBeforeOctet(b: seq<Octet>, x: Octet, sign: Signer)
    requires Readable(Bin(b))
    ensures var octets := Encode([Bin(b)] + [U8(x)], sign).octets;
            UnpackAll("bC", octets) == Some((|octets|, [Bin(b), U8(if b == [] then x else b[0])]))
  {
    hide VarOctets, RevOctets, UnpackFrom, UnpackAll, Encode, Readable;
    OctetAlone(x);
    hide Flat, Format;
    BinNotLast(b, [U8(x)], sign);
    BinEncoded(b, [U8(x)], sign);
    OneOctet(b + [x], |b|, 0);
    assert "b" + "C" == "bC";
    assert [Bin(b)] + [U8((b + [x])[0])] == [Bin(b), U8((b + [x])[0])];
  }

  lemma OctetAlone(x: Octet)
    ensures Flat([U8(x)]) == [x] && Format([U8(x)]) == "C"
  {
    assert BE(x, 1) == [x];
  }

  /** One octet, wherever the cursor is. */
  lemma OneOctet(buf: seq<Octet>, len: nat, cur: nat)
    requires cur <= len < |buf|
    ensures UnpackFrom("C", buf, len, cur) == Some((len + 1, [U8(buf[cur])]))
  {
    hide TakeBin, TakeInt;
    assert buf[cur..cur + 1] == [buf[cur]] && [buf[cur]][..0] == [];
    assert FromBE([]) == 0 && FromBE([buf[cur]]) == buf[cur];
    assert "C"[1..] == "";
    assert UnpackOne('C', buf, len, cur) == Ok(len + 1, cur + 1, [U8(buf[cur])]);
    assert UnpackFrom("", buf, len + 1, cur + 1) == Some((len + 1, [])) && [U8(buf[cur])] + [] == [U8(buf[cur])];
  }
}
