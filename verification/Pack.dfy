/** `trip_pack` and `trip_pack_len` of src/pack.c. A format and its arguments form one list
    of items; `Encode` is the octet string the format denotes and `Pack` the in-place writer. */
module Pack {
  import opened Options
  import opened Octets

  const NPOS: nat := 0xFFFF_FFFF_FFFF_FFFF
  const TWO_32: nat := 0x1_0000_0000
  const SEAL: nat := 48   // crypto_box_SEALBYTES
  const SIGN: nat := 64   // crypto_sign_BYTES
  const NONCE: nat := 24  // crypto_box_NONCEBYTES
  const KEY: nat := 32    // crypto_box_PUBLICKEYBYTES
  const MAC: nat := 16    // crypto_box_MACBYTES

  /** A format specifier with its argument. A NULL nonce or key is `None`; `keyed` says
      whether a signing key was given. */
  datatype Item =
    | I8(v: int) | U8(v: int) | I16(v: int) | U16(v: int)
    | I32(v: int) | U32(v: int) | I64(v: int) | U64(v: int)
    | Var32(n: nat) | Var64(n: nat)
    | Nonce(octets: Option<seq<Octet>>) | Key(octets: Option<seq<Octet>>)
    | Bin(payload: seq<Octet>)
    | SealOpen | SealClose | BoxOpen | BoxClose | SignOpen | SignClose(keyed: bool)
    | Unknown(ch: char)

  /** The argument has the C type its specifier asks for. */
  predicate Typed(it: Item) {
    match it
    case Var32(n) => n < TWO_32
    case Var64(n) => n <= NPOS
    case Nonce(Some(b)) => |b| == NONCE
    case Key(Some(b)) => |b| == KEY
    case Bin(b) => |b| + 1 + UvarLen(|b|) < TWO_32
    case Unknown(ch) => ch !in "oOeEsSnkbcChHiIqQVW"
    case _ => true
  }

  function Specifier(it: Item): char {
    match it
    case I8(_) => 'c' case U8(_) => 'C' case I16(_) => 'h' case U16(_) => 'H'
    case I32(_) => 'i' case U32(_) => 'I' case I64(_) => 'q' case U64(_) => 'Q'
    case Var32(_) => 'V' case Var64(_) => 'W' case Nonce(_) => 'n' case Key(_) => 'k'
    case Bin(_) => 'b' case SealOpen => 'o' case SealClose => 'O' case BoxOpen => 'e'
    case BoxClose => 'E' case SignOpen => 's' case SignClose(_) => 'S' case Unknown(ch) => ch
  }

  function Format(items: seq<Item>): (f: string)
    ensures |f| == |items|
  {
    if items == [] then "" else [Specifier(items[0])] + Format(items[1..])
  }

  function Zeros(n: nat): seq<Octet> {
    seq(n, _ => 0)
  }

  function OrZeros(b: Option<seq<Octet>>, n: nat): seq<Octet> {
    if b.Some? then b.value else Zeros(n)
  }

  /** The writer's variable-length integer: octet count, then low octet first. */
  function VarOctets(n: nat): seq<Octet> {
    [UvarLen(n) % 256] + LE(n, UvarLen(n))
  }

  /** The octets of an item whose encoding does not depend on what precedes it. */
  function ItemOctets(it: Item): seq<Octet> {
    match it
    case I8(v) => BE(v % 0x100, 1)
    case U8(v) => BE(v % 0x100, 1)
    case I16(v) => BE(v % 0x1_0000, 2)
    case U16(v) => BE(v % 0x1_0000, 2)
    case I32(v) => BE(v % TWO_32, 4)
    case U32(v) => BE(v % TWO_32, 4)
    case I64(v) => BE(v % (NPOS + 1), 8)
    case U64(v) => BE(v % (NPOS + 1), 8)
    case Var32(n) => VarOctets(n)
    case Var64(n) => VarOctets(n)
    case Nonce(b) => OrZeros(b, NONCE)
    case Key(b) => OrZeros(b, KEY)
    case Bin(b) => VarOctets(|b|) + b
    case SealOpen => Zeros(SEAL)
    case _ => []
  }

  /** What is not there is written as zeros: a NULL nonce, a NULL key, the octets of a seal, and the
      signature without a key. */
  lemma NullsAreZeros(sign: Signer, o: Out)
    requires o.sig <= |o.octets|
    ensures |ItemOctets(Nonce(None))| == 24 && forall i :: 0 <= i < 24 ==> ItemOctets(Nonce(None))[i] == 0
    ensures |ItemOctets(Key(None))| == 32 && forall i :: 0 <= i < 32 ==> ItemOctets(Key(None))[i] == 0
    ensures |ItemOctets(SealOpen)| == 48 && forall i :: 0 <= i < 48 ==> ItemOctets(SealOpen)[i] == 0
    ensures var more := Append(o, SignClose(false), sign).octets[|o.octets|..];
            |more| == 64 && forall i :: 0 <= i < 64 ==> more[i] == 0
  { }

  /** Signing as the crypto library does it, for one fixed secret key. */
  type Signer = seq<Octet> -> seq<Octet>

  ghost predicate Signs(sign: Signer) {
    forall m :: |sign(m)| == SIGN
  }

  /** Octets so far, and where the octets that the next signature covers begin. */
  datatype Out = Out(octets: seq<Octet>, sig: nat)

  function Append(o: Out, it: Item, sign: Signer): (o': Out)
    requires o.sig <= |o.octets|
    ensures o'.sig <= |o'.octets| && |o.octets| <= |o'.octets|
    ensures o'.octets[..|o.octets|] == o.octets
  {
    match it
    case SignOpen => o.(sig := |o.octets|)
    case SignClose(keyed) =>
      o.(octets := o.octets + if keyed then sign(o.octets[o.sig..]) else Zeros(SIGN))
    case _ => o.(octets := o.octets + ItemOctets(it))
  }

  function Encode(items: seq<Item>, sign: Signer): (o: Out)
    ensures o.sig <= |o.octets|
  {
    if items == [] then Out([], 0)
    else Append(Encode(items[..|items| - 1], sign), items[|items| - 1], sign)
  }

  lemma EncodeNext(items: seq<Item>, i: nat, sign: Signer)
    requires i < |items|
    ensures Encode(items[..i + 1], sign) == Append(Encode(items[..i], sign), items[i], sign)
  {
    assert items[..i + 1][..i] == items[..i];
  }

  /** Encodings only grow, so one item that does not fit means that the whole does not. */
  lemma {:induction false} EncodeMono(items: seq<Item>, i: nat, sign: Signer)
    requires i <= |items|
    ensures |Encode(items[..i], sign).octets| <= |Encode(items, sign).octets|
    decreases |items| - i
  {
    if i < |items| {
      EncodeNext(items, i, sign);
      EncodeMono(items, i + 1, sign);
    } else {
      assert items[..i] == items;
    }
  }

  predicate IsOpen(items: seq<Item>) {
    items != [] &&
    match items[|items| - 1]
    case SealOpen => true
    case SealClose => false
    case _ => IsOpen(items[..|items| - 1])
  }

  /** `o` and `O` alternate, and neither `e` nor `S` stands between them. */
  predicate Bracketed(items: seq<Item>) {
    items != [] ==>
      var front := items[..|items| - 1];
      Bracketed(front) &&
      match items[|items| - 1]
      case SealOpen => !IsOpen(front)
      case BoxOpen => !IsOpen(front)
      case SignClose(_) => !IsOpen(front)
      case SealClose => IsOpen(front)
      case _ => true
  }

  lemma {:induction false} BracketedPrefix(items: seq<Item>, i: nat)
    requires Bracketed(items) && i <= |items|
    ensures Bracketed(items[..i])
  {
    if i < |items| {
      var front := items[..|items| - 1];
      BracketedPrefix(front, i);
      assert front[..i] == items[..i];
    } else {
      assert items[..i] == items;
    }
  }

  /** `buf` starts with `w`, except for an opened seal whose octets are still to be cleared. */
  ghost predicate Written(buf: seq<Octet>, w: seq<Octet>, open: bool, seal: nat) {
    && |w| <= |buf|
    && (forall j :: 0 <= j < |w| && !(open && seal <= j < seal + SEAL) ==> buf[j] == w[j])
    && (open ==> seal + SEAL <= |w| && forall j :: seal <= j < seal + SEAL ==> w[j] == 0)
  }

  ghost predicate SameFrom(a: seq<Octet>, b: seq<Octet>, pos: nat) {
    |a| == |b| && pos <= |a| && forall j :: pos <= j < |a| ==> a[j] == b[j]
  }

  function Splice(buf: seq<Octet>, pos: nat, w: seq<Octet>): seq<Octet>
    requires pos + |w| <= |buf|
  {
    buf[..pos] + w + buf[pos + |w|..]
  }

  lemma SpliceNext(buf: seq<Octet>, pos: nat, w: seq<Octet>, x: Octet)
    requires pos + |w| < |buf|
    ensures Splice(buf, pos, w)[pos + |w| := x] == Splice(buf, pos, w + [x])
  { }

  lemma SpliceSplice(buf: seq<Octet>, pos: nat, w: seq<Octet>, w': seq<Octet>)
    requires pos + |w| + |w'| <= |buf|
    ensures Splice(Splice(buf, pos, w), pos + |w|, w') == Splice(buf, pos, w + w')
  { }

  method Store(buf: array<Octet>, pos: nat, w: seq<Octet>)
    requires pos + |w| <= buf.Length
    modifies buf
    ensures buf[..] == Splice(old(buf[..]), pos, w)
  {
    for i := 0 to |w|
      invariant buf[..] == Splice(old(buf[..]), pos, w[..i])
    {
      hide Splice;
      SpliceNext(old(buf[..]), pos, w[..i], w[i]);
      ghost var now := buf[..];
      buf[pos + i] := w[i];
      assert buf[..] == now[pos + i := w[i]];
      assert w[..i + 1] == w[..i] + [w[i]];
    }
    assert w[..|w|] == w;
  }

  /** The store loop for V, W and the length of b: octet count, then low octet first. */
  method StoreVar(buf: array<Octet>, pos: nat, n: nat)
    requires pos + |VarOctets(n)| <= buf.Length && UvarLen(n) < 256
    modifies buf
    ensures buf[..] == Splice(old(buf[..]), pos, VarOctets(n))
  {
    VarHead(n);
    hide Splice, VarOctets, LE, UvarLen;
    var k, m, p := UvarLen(n), n, pos + 1;
    SpliceNone(buf[..], pos);
    SpliceNext(buf[..], pos, [], k);
    buf[pos] := k;
    ghost var done: seq<Octet> := [k];
    assert buf[..] == old(buf[..])[pos + 0 := k] && [] + [k] == done;
    while k > 0
      invariant k == UvarLen(m) && p == pos + |done| && p + k <= buf.Length
      invariant done + LE(m, k) == VarOctets(n) && |LE(m, k)| == k
      invariant buf[..] == Splice(old(buf[..]), pos, done)
    {
      VarStep(done, m);
      SpliceNext(old(buf[..]), pos, done, m % 256);
      ghost var now := buf[..];
      buf[p] := m % 256;
      assert buf[..] == now[p := m % 256];
      done := done + [m % 256];
      m := m / 256;
      k := k - 1;
      p := p + 1;
    }
    assert done + LE(m, 0) == done;
  }

  lemma SpliceNone(buf: seq<Octet>, pos: nat)
    requires pos <= |buf|
    ensures Splice(buf, pos, []) == buf
  { }

  lemma VarHead(n: nat)
    requires UvarLen(n) < 256
    ensures VarOctets(n) == [UvarLen(n)] + LE(n, UvarLen(n)) && |LE(n, UvarLen(n))| == UvarLen(n)
  { }

  lemma VarStep(done: seq<Octet>, m: nat)
    requires UvarLen(m) > 0
    ensures UvarLen(m) == UvarLen(m / 256) + 1 && |LE(m / 256, UvarLen(m / 256))| == UvarLen(m / 256)
    ensures done + LE(m, UvarLen(m)) == done + [m % 256] + LE(m / 256, UvarLen(m / 256))
  { }

  /** The length a format can need at most, in an `unsigned int`. */
  function SpecLen(ch: char): nat {
    match ch
    case 'o' => SEAL
    case 'e' => MAC
    case 's' => SIGN
    case 'n' => NONCE
    case 'k' => KEY
    case 'c' => 1 case 'C' => 1
    case 'h' => 2 case 'H' => 2
    case 'i' => 4 case 'I' => 4
    case 'q' => 8 case 'Q' => 8
    case 'V' => 5
    case 'W' => 9
    case _ => 0
  }

  function SumLen(f: string): nat {
    if f == "" then 0 else SumLen(f[..|f| - 1]) + SpecLen(f[|f| - 1])
  }

  method PackLen(f: string) returns (len: nat)
    ensures len == SumLen(f) % TWO_32
  {
    len := 0;
    for i := 0 to |f|
      invariant len == SumLen(f[..i]) % TWO_32
    {
      assert f[..i + 1][..i] == f[..i];
      len := (len + SpecLen(f[i])) % TWO_32;
    }
    assert f[..|f|] == f;
  }

  function Count(f: string, ch: char): nat {
    if f == "" then 0 else Count(f[..|f| - 1], ch) + if f[|f| - 1] == ch then 1 else 0
  }

  lemma {:induction false} FormatSnoc(items: seq<Item>)
    requires items != []
    ensures Format(items) == Format(items[..|items| - 1]) + [Specifier(items[|items| - 1])]
  {
    if |items| > 1 {
      FormatSnoc(items[1..]);
      assert items[1..][..|items| - 2] == items[..|items| - 1][1..];
    }
  }

  lemma ItemFits(it: Item)
    requires Typed(it) && !it.Bin?
    ensures |ItemOctets(it)| <= SpecLen(Specifier(it)) || it.SignClose?
  {
    match it
    case Var32(n) => assert Pow256(4) == TWO_32; UvarLenLeast(n, 4);
    case Var64(n) => assert Pow256(8) == NPOS + 1; UvarLenLeast(n, 8);
    case _ =>
  }

  lemma AppendFits(o: Out, it: Item, sign: Signer)
    requires Signs(sign) && Typed(it) && !it.Bin? && o.sig <= |o.octets|
    ensures var ch := Specifier(it);
            |Append(o, it, sign).octets| + (if ch == 's' then SIGN else 0)
              <= |o.octets| + SpecLen(ch) + (if ch == 'S' then SIGN else 0)
  {
    ItemFits(it);
  }

  /** Without `b`, an encoding exceeds `trip_pack_len` only by signatures never announced by `s`. */
  lemma {:induction false} EncodeFits(items: seq<Item>, sign: Signer)
    requires Signs(sign) && forall it :: it in items ==> Typed(it) && !it.Bin?
    ensures |Encode(items, sign).octets| + SIGN * Count(Format(items), 's')
              <= SumLen(Format(items)) + SIGN * Count(Format(items), 'S')
    ensures Count(Format(items), 'S') <= Count(Format(items), 's') ==>
              |Encode(items, sign).octets| <= SumLen(Format(items))
  {
    if items != [] {
      var front, last := items[..|items| - 1], items[|items| - 1];
      assert forall it :: it in front ==> it in items;
      EncodeFits(front, sign);
      FormatSnoc(items);
      assert Format(items)[..|items| - 1] == Format(front);
      AppendFits(Encode(front, sign), last, sign);
      hide Format, Append, SpecLen, Specifier, Typed;
    }
  }

  /** An item as long as its specifier allows. */
  predicate Longest(it: Item) {
    && Typed(it) && !it.Bin? && !it.Unknown?
    && (it.Var32? ==> UvarLen(it.n) == 4) && (it.Var64? ==> UvarLen(it.n) == 8)
  }

  /** The bound is reached: with variable-length integers of full length, the sum differs from the encoding
      only by 16 for each `e` and by 64 for each `s` without `S`. */
  lemma {:induction false} EncodeReaches(items: seq<Item>, sign: Signer)
    requires Signs(sign) && forall it :: it in items ==> Longest(it)
    ensures |Encode(items, sign).octets| + 64 * Count(Format(items), 's') + 16 * Count(Format(items), 'e')
              == SumLen(Format(items)) + 64 * Count(Format(items), 'S')
  {
    if items != [] {
      var front, last := items[..|items| - 1], items[|items| - 1];
      assert forall it :: it in front ==> it in items;
      EncodeReaches(front, sign);
      FormatSnoc(items);
      assert Format(items)[..|items| - 1] == Format(front);
      AppendReaches(Encode(front, sign), last, sign);
      hide Format, Append, SpecLen, Specifier, Longest;
    }
  }

  lemma AppendReaches(o: Out, it: Item, sign: Signer)
    requires Signs(sign) && Longest(it) && o.sig <= |o.octets|
    ensures var ch := Specifier(it);
            |Append(o, it, sign).octets| + (if ch == 's' then 64 else 0) + (if ch == 'e' then 16 else 0)
              == |o.octets| + SpecLen(ch) + (if ch == 'S' then 64 else 0)
  {
    hide BE, LE;
  }

  /** The state of the writer after some items: `o` is their encoding, `open` whether a seal
      is open, and nothing from `size` on has been changed. */
  ghost predicate At(buf: seq<Octet>, was: seq<Octet>, o: Out, open: bool, size: nat, sig: nat, crypt: nat) {
    && size == |o.octets| && sig == o.sig <= size
    && Written(buf, o.octets, open, crypt) && SameFrom(buf, was, size)
  }

  /** What one turn of the loop over the format does to the buffer and the cursors. */
  datatype Turn = Turn(ok: bool, buf: seq<Octet>, size: nat, sig: nat, crypt: nat)

  ghost function Written1(cap: nat, buf: seq<Octet>, w: seq<Octet>, size: nat, sig: nat, crypt: nat): Turn
    requires size <= cap <= |buf|
  {
    if size + |w| > cap then Turn(false, buf, size + |w|, sig, crypt)
    else Turn(true, Splice(buf, size, w), size + |w|, sig, crypt)
  }

  ghost function TurnOf(cap: nat, buf: seq<Octet>, it: Item, sign: Signer, size: nat, sig: nat, crypt: nat): Turn
    requires sig <= size <= cap <= |buf|
    requires it.SealClose? ==> crypt + SEAL <= |buf|
  {
    match it
    case SealOpen => if size + SEAL > cap then Turn(false, buf, size + SEAL, sig, crypt)
                     else Turn(true, buf, size + SEAL, sig, size)
    case SealClose => Turn(true, Splice(buf, crypt, Zeros(SEAL)), size, sig, crypt)
    case BoxOpen => Turn(true, buf, size, sig, size)
    case BoxClose => Turn(true, buf, size, sig, crypt)
    case SignOpen => Turn(true, buf, size, size, crypt)
    case SignClose(keyed) => Written1(cap, buf, if keyed then sign(buf[sig..size]) else Zeros(SIGN), size, sig, crypt)
    case Unknown(_) => Turn(false, buf, size, sig, crypt)
    case _ => Written1(cap, buf, ItemOctets(it), size, sig, crypt)
  }

  predicate AllKnown(items: seq<Item>) {
    forall it :: it in items ==> !it.Unknown?
  }

  lemma AllKnownNext(items: seq<Item>, i: nat)
    requires i < |items| && AllKnown(items[..i])
    ensures AllKnown(items[..i + 1]) <==> !items[i].Unknown?
    ensures items[i].Unknown? ==> !AllKnown(items)
  { }

  /** `trip_pack`: NPOS exactly when a specifier is unknown or the encoding exceeds `cap`;
      otherwise the encoding, and nothing after it is touched. */
  method Pack(cap: nat, buf: array<Octet>, items: seq<Item>, sign: Signer) returns (size: nat)
    requires cap <= buf.Length && cap < NPOS && Signs(sign)
    requires Bracketed(items) && !IsOpen(items)
    requires forall it :: it in items ==> Typed(it)
    modifies buf
    ensures size == if AllKnown(items) && |Encode(items, sign).octets| <= cap
                    then |Encode(items, sign).octets| else NPOS
    ensures size != NPOS ==> buf[..size] == Encode(items, sign).octets
    ensures SameFrom(buf[..], old(buf[..]), if size == NPOS then cap else size)
  {
    size := 0;
    var sig, crypt := 0, 0;
    for i := 0 to |items|
      invariant AllKnown(items[..i])
      invariant size <= cap
      invariant At(buf[..], old(buf[..]), Encode(items[..i], sign), IsOpen(items[..i]), size, sig, crypt)
    {
      hide Append, At, SameFrom, Signs, Written, TurnOf, IsOpen, Bracketed, AllKnown;
      AllKnownNext(items, i);
      StepBack(items, i, sign);
      TurnAt(cap, buf[..], old(buf[..]), Encode(items[..i], sign), IsOpen(items[..i]), items[i], sign, size, sig, crypt);
      assert Typed(items[i]);
      ghost var t := TurnOf(cap, buf[..], items[i], sign, size, sig, crypt);
      var ok: bool;
      size, sig, crypt, ok := PackItem(cap, buf, items[i], sign, size, sig, crypt);
      assert t == Turn(ok, buf[..], size, sig, crypt);
      if !ok { return NPOS; }
    }
    assert items[..|items|] == items;
  }

  lemma StepBack(items: seq<Item>, i: nat, sign: Signer)
    requires i < |items| && Bracketed(items)
    ensures var was, it := items[..i], items[i];
            && Encode(items[..i + 1], sign) == Append(Encode(was, sign), it, sign)
            && |Encode(items[..i + 1], sign).octets| <= |Encode(items, sign).octets|
            && (it.SealOpen? || it.BoxOpen? || it.SignClose? ==> !IsOpen(was))
            && (it.SealClose? ==> IsOpen(was))
            && IsOpen(items[..i + 1]) == (it.SealOpen? || (IsOpen(was) && !it.SealClose?))
  {
    EncodeNext(items, i, sign);
    EncodeMono(items, i + 1, sign);
    BracketedPrefix(items, i + 1);
    assert items[..i + 1][..i] == items[..i];
  }

  /** A turn does what it should: it succeeds exactly if the item is known and still fits, and then leads
      to the state for the encoding `o`. */
  ghost predicate Right(t: Turn, known: bool, cap: nat, was: seq<Octet>, o: Out, open: bool) {
    && (t.ok <==> known && |o.octets| <= cap)
    && (t.ok ==> t.size <= cap && At(t.buf, was, o, open, t.size, t.sig, t.crypt))
    && (!t.ok ==> SameFrom(t.buf, was, cap))
  }

  /** One turn appends the item's encoding. */
  lemma TurnAt(cap: nat, buf: seq<Octet>, was: seq<Octet>, o: Out, open: bool, it: Item, sign: Signer,
               size: nat, sig: nat, crypt: nat)
    requires size <= cap <= |buf| && Signs(sign) && o.sig <= |o.octets|
    requires At(buf, was, o, open, size, sig, crypt)
    requires it.SealOpen? || it.BoxOpen? || it.SignClose? ==> !open
    requires it.SealClose? ==> open
    ensures sig <= size && (it.SealClose? ==> crypt + SEAL <= |buf|)
    ensures Right(TurnOf(cap, buf, it, sign, size, sig, crypt), !it.Unknown?, cap, was, Append(o, it, sign),
                  it.SealOpen? || (open && !it.SealClose?))
  {
    hide At, Splice, ItemOctets, SameFrom, Right;
    AtFacts(buf, was, o, open, size, sig, crypt, cap);
    if IsValue(it) {
      WriteRight(cap, buf, was, o, open, size, sig, crypt, ItemOctets(it));
    } else if it.SignClose? {
      WriteRight(cap, buf, was, o, open, size, sig, crypt, if it.keyed then sign(o.octets[sig..]) else Zeros(SIGN));
    } else {
      OtherTurn(cap, buf, was, o, open, it, sign, size, sig, crypt);
    }
  }

  lemma WriteRight(cap: nat, buf: seq<Octet>, was: seq<Octet>, o: Out, open: bool, size: nat, sig: nat, crypt: nat,
                   w: seq<Octet>)
    requires size <= cap <= |buf| && At(buf, was, o, open, size, sig, crypt)
    ensures Right(Written1(cap, buf, w, size, sig, crypt), true, cap, was, o.(octets := o.octets + w), open)
  {
    hide At, Splice, SameFrom;
    AtFacts(buf, was, o, open, size, sig, crypt, cap);
    AtMore(buf, was, o, open, size, sig, crypt, w);
  }

  /** The specifiers that write nothing, or only reserve. */
  lemma OtherTurn(cap: nat, buf: seq<Octet>, was: seq<Octet>, o: Out, open: bool, it: Item, sign: Signer,
                  size: nat, sig: nat, crypt: nat)
    requires size <= cap <= |buf| && sig <= size && o.sig <= |o.octets| && !IsValue(it) && !it.SignClose?
    requires At(buf, was, o, open, size, sig, crypt)
    requires (it.SealOpen? || it.BoxOpen? ==> !open) && (it.SealClose? ==> open && crypt + SEAL <= |buf|)
    ensures Right(TurnOf(cap, buf, it, sign, size, sig, crypt), !it.Unknown?, cap, was, Append(o, it, sign),
                  it.SealOpen? || (open && !it.SealClose?))
  {
    SpecialOctets(it);
    hide At, Splice, ItemOctets, SameFrom;
    AtFacts(buf, was, o, open, size, sig, crypt, cap);
    if it.SealOpen? {
      AtSeal(buf, was, o, size, sig, crypt, cap);
    } else if it.SealClose? {
      SealCleared(buf, was, o, size, sig, crypt);
    }
  }

  lemma SpecialOctets(it: Item)
    ensures it.SealOpen? ==> ItemOctets(it) == Zeros(SEAL)
    ensures it.SealClose? || it.BoxOpen? || it.BoxClose? ==> ItemOctets(it) == []
  { }

  lemma AtFacts(buf: seq<Octet>, was: seq<Octet>, o: Out, open: bool, size: nat, sig: nat, crypt: nat, cap: nat)
    requires At(buf, was, o, open, size, sig, crypt) && size <= cap <= |buf|
    ensures SameFrom(buf, was, cap) && size == |o.octets| && sig == o.sig <= size
    ensures open ==> crypt + SEAL <= |buf|
    ensures !open ==> buf[sig..size] == o.octets[sig..] && At(buf, was, o, open, size, sig, size)
    ensures At(buf, was, o.(sig := size), open, size, size, crypt)
    ensures o.octets + [] == o.octets
  { }

  lemma AtSeal(buf: seq<Octet>, was: seq<Octet>, o: Out, size: nat, sig: nat, crypt: nat, cap: nat)
    requires At(buf, was, o, false, size, sig, crypt) && size <= cap <= |buf|
    ensures size + SEAL <= cap ==>
              At(buf, was, o.(octets := o.octets + Zeros(SEAL)), true, size + SEAL, sig, size)
  { }

  lemma AtMore(buf: seq<Octet>, was: seq<Octet>, o: Out, open: bool, size: nat, sig: nat, crypt: nat,
               w: seq<Octet>)
    requires At(buf, was, o, open, size, sig, crypt)
    ensures size + |w| <= |buf| ==>
              At(Splice(buf, size, w), was, o.(octets := o.octets + w), open, size + |w|, sig, crypt)
  { }

  lemma SealCleared(buf: seq<Octet>, was: seq<Octet>, o: Out, size: nat, sig: nat, crypt: nat)
    requires At(buf, was, o, true, size, sig, crypt)
    ensures crypt + SEAL <= |buf|
    ensures At(Splice(buf, crypt, Zeros(SEAL)), was, o, false, size, sig, crypt)
  { }

  /** The body of the loop over the format. */
  method PackItem(cap: nat, buf: array<Octet>, it: Item, sign: Signer, size: nat, sig: nat, crypt: nat)
    returns (size': nat, sig': nat, crypt': nat, ok: bool)
    requires cap <= buf.Length && sig <= size <= cap && Typed(it)
    requires it.SealClose? ==> crypt + SEAL <= buf.Length
    modifies buf
    ensures Turn(ok, buf[..], size', sig', crypt') == TurnOf(cap, old(buf[..]), it, sign, size, sig, crypt)
  {
    hide ItemOctets, Splice;
    size', sig', crypt', ok := size, sig, crypt, true;
    match it
    case SealOpen =>
      size' := size + SEAL;
      ok := size' <= cap;
      if ok { crypt' := size; }
    case SealClose =>
      Store(buf, crypt, Zeros(SEAL));
    case BoxOpen =>
      crypt' := size;
    case BoxClose =>
    case SignOpen =>
      sig' := size;
    case SignClose(keyed) =>
      assert buf[sig..size] == buf[..][sig..size];
      size', ok := Emit(cap, buf, if keyed then sign(buf[sig..size]) else Zeros(SIGN), size);
    case Unknown(_) =>
      ok := false;
    case _ =>
      size', ok := PackPlain(cap, buf, it, size);
  }

  /** An item that stands for an argument and stores only its own octets. */
  predicate IsValue(it: Item) {
    !(it.SealOpen? || it.SealClose? || it.BoxOpen? || it.BoxClose? || it.SignOpen? || it.SignClose? || it.Unknown?)
  }

  /** Store `w` if it still fits. */
  method Emit(cap: nat, buf: array<Octet>, w: seq<Octet>, size: nat) returns (size': nat, ok: bool)
    requires cap <= buf.Length && size <= cap
    modifies buf
    ensures size' == size + |w| && ok == (size' <= cap)
    ensures buf[..] == if ok then Splice(old(buf[..]), size, w) else old(buf[..])
  {
    size' := size + |w|;
    ok := size' <= cap;
    if ok { Store(buf, size, w); }
  }

  /** An item that only stores its own octets. */
  method PackPlain(cap: nat, buf: array<Octet>, it: Item, size: nat) returns (size': nat, ok: bool)
    requires cap <= buf.Length && size <= cap && Typed(it) && IsValue(it)
    modifies buf
    ensures size' == size + |ItemOctets(it)| && ok == (size' <= cap)
    ensures buf[..] == if ok then Splice(old(buf[..]), size, ItemOctets(it)) else old(buf[..])
  {
    hide VarOctets, BE, Splice;
    if it.Var32? || it.Var64? {
      size', ok := PackVar(cap, buf, it.n, size);
    } else if it.Bin? {
      size', ok := PackBin(cap, buf, it.payload, size);
    } else {
      size', ok := Emit(cap, buf, ItemOctets(it), size);
    }
  }

  /** `b`: the size is added in 32 bits, then length and payload are stored. */
  method PackBin(cap: nat, buf: array<Octet>, b: seq<Octet>, size: nat) returns (size': nat, ok: bool)
    requires cap <= buf.Length && size <= cap && |b| + 1 + UvarLen(|b|) < TWO_32
    modifies buf
    ensures size' == size + |VarOctets(|b|) + b| && ok == (size' <= cap)
    ensures buf[..] == if ok then Splice(old(buf[..]), size, VarOctets(|b|) + b) else old(buf[..])
  {
    hide UvarLen, LE, Splice;
    size' := size + (UvarLen(|b|) + 1 + |b|) % TWO_32;
    ok := size' <= cap;
    if ok {
      SpliceSplice(buf[..], size, VarOctets(|b|), b);
      var at, _ := PackVar(cap, buf, |b|, size);
      Store(buf, at, b);
    }
  }

  method PackVar(cap: nat, buf: array<Octet>, n: nat, size: nat) returns (size': nat, ok: bool)
    requires cap <= buf.Length && size <= cap && n <= NPOS
    modifies buf
    ensures size' == size + |VarOctets(n)| && ok == (size' <= cap)
    ensures buf[..] == if ok then Splice(old(buf[..]), size, VarOctets(n)) else old(buf[..])
  {
    assert Pow256(8) == NPOS + 1;
    UvarLenLeast(n, 8);
    size' := size + UvarLen(n) + 1;
    ok := size' <= cap;
    if ok { StoreVar(buf, size, n); }
  }
}
