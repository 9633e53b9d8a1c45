/** OPEN and CHALLENGE packets: written in one piece by src/conn.c, read in stages by
    `_trip_segment` of src/trip.c and the parsers of src/conn.c. */
module Segment {
  import opened Options
  import opened Octets
  import opened Pack
  import opened Unpack

  const OPEN: nat := 1 // _TRIP_CONTROL_OPEN
  const CHAL: nat := 2 // _TRIP_CONTROL_CHAL
  const CONTROL_MAX: nat := 5
  const EMASK: nat := 0x80
  const VERSION_MAJOR: nat := 0

  /** What OPEN and CHALLENGE carry inside the seal. */
  datatype Body = Body(id: int, nonce: seq<Octet>, key: seq<Octet>,
                       credit: int, streams: int, messageSize: int, messages: int)

  /** The sender's side of either packet. */
  datatype Sender = Sender(id: nat, seqno: nat, nonce: Option<seq<Octet>>, key: Option<seq<Octet>>,
                           encrypted: bool, signed: bool)

  predicate ValidSender(s: Sender) {
    && s.id <= NPOS && s.seqno <= NPOS
    && (s.nonce.Some? ==> |s.nonce.value| == NONCE) && (s.key.Some? ==> |s.key.value| == KEY)
  }

  function BodyItems(s: Sender): seq<Item> {
    [U64(s.id), Nonce(s.nonce), Key(s.key), U32(128000), U32(8), U32(65536), U32(128)]
  }

  function BodyOf(s: Sender): Body {
    Body(s.id, OrZeros(s.nonce, NONCE), OrZeros(s.key, KEY), 128000, 8, 65536, 128)
  }

  function PrefixItems(control: nat, id: nat, s: Sender): seq<Item> {
    [U8(control + if s.encrypted then EMASK else 0), U64(id), Var64(s.seqno)]
  }

  const ROUTE: seq<Item> := [U16(VERSION_MAJOR), Bin([])]

  /** The arguments of `trip_pack` in `_tripc_send_open`: format "sCQWHboQnkIIIIOS". */
  function OpenItems(s: Sender): seq<Item> {
    [SignOpen] + PrefixItems(OPEN, s.id, s) + ROUTE
    + [SealOpen] + BodyItems(s) + [SealClose, SignClose(s.signed)]
  }

  /** The arguments of `trip_pack` in `_tripc_send_chal`: format "sCQWoQnkIIIIOS". */
  function ChalItems(peer: nat, s: Sender): seq<Item> {
    [SignOpen] + PrefixItems(CHAL, peer, s) + [SealOpen] + BodyItems(s) + [SealClose, SignClose(s.signed)]
  }

  /** What the reader makes of a segment. `Wrap` stands for a length subtraction below zero, where
      the C code continues with a wrapped size; no packet of the two writers leads there. */
  datatype Parsed =
    | Reject(reason: nat)
    | Wrap
    | Opened(id: int, seqno: nat, encrypted: bool, route: seq<Octet>, body: Body)
    | Routed(control: int, id: int, seqno: nat, encrypted: bool, rest: seq<Octet>)

  function BodyFrom(v: seq<Item>): Option<Body> {
    if && |v| == 7 && v[0].U64? && v[1].Nonce? && v[1].octets.Some? && v[2].Key? && v[2].octets.Some?
       && v[3].U32? && v[4].U32? && v[5].U32? && v[6].U32?
    then Some(Body(v[0].v, v[1].octets.value, v[2].octets.value, v[3].v, v[4].v, v[5].v, v[6].v))
    else None
  }

  /** `_tripc_parse_open` with "QnkIIII" and `_tripc_parse_chal` with "oQnkIIIIO": the format must
      account for the whole remaining length. */
  function ParseBody(f: string, buf: seq<Octet>): Option<Body> {
    match UnpackAll(f, buf)
    case None => None
    case Some((len, values)) => if len != |buf| then None else BodyFrom(values)
  }

  /** `_trip_segment`, as far as it parses. The router's flags, the user's screening and the
      signature check can only turn `Opened` or `Routed` into a rejection. */
  function ParseSegment(buf: seq<Octet>): Parsed {
    if |buf| < 16 then Reject(0)
    else match UnpackAll("CQW", buf)
      case None => Reject(1)
      case Some((end, v)) =>
        if !(|v| == 3 && v[0].U8? && v[1].U64? && v[2].Var64?) then Reject(1)
        else if v[0].v % EMASK >= CONTROL_MAX then Reject(12)
        else if v[0].v % EMASK == OPEN then ParseOpen(buf, end, v[1].v, v[2].n, v[0].v >= EMASK)
        else if |buf| < SIGN + end then Wrap
        else Routed(v[0].v % EMASK, v[1].v, v[2].n, v[0].v >= EMASK, buf[end..|buf| - SIGN])
  }

  function ParseOpen(buf: seq<Octet>, end: nat, id: int, seqno: nat, encrypted: bool): Parsed
    requires end <= |buf|
  {
    match UnpackAll("Hb", buf[end..])
    case None => Reject(4)
    case Some((k, v)) =>
      if !(|v| == 2 && v[0].U16? && v[1].Bin?) then Reject(4)
      else if v[0].v != VERSION_MAJOR then Reject(5)
      else if |buf| < end + k + SIGN + SIGN then Wrap
      else ParseSealed(buf[end + k..|buf| - SIGN], id, seqno, encrypted, v[1].payload)
  }

  /** The rest of an OPEN without its signature. The seal is looked for in a window that is
      shorter by another signature length, as in the source. */
  function ParseSealed(buf: seq<Octet>, id: int, seqno: nat, encrypted: bool, route: seq<Octet>): Parsed
    requires SIGN <= |buf|
  {
    match UnpackAll("oO", buf[..|buf| - SIGN])
    case None => Reject(201)
    case Some((k, _)) =>
      match ParseBody("QnkIIII", buf[k..])
      case None => Reject(22)
      case Some(body) => Opened(id, seqno, encrypted, route, body)
  }

  /** Wherever it stands, `s` begins what the next `S` signs. */
  lemma EncodeSignedAt(pre: seq<Item>, items: seq<Item>, signed: bool, sign: Signer)
    requires forall it :: it in items ==> !it.SignOpen? && !it.SignClose?
    ensures Encode(pre + [SignOpen] + items + [SignClose(signed)], sign).octets
            == Encode(pre, sign).octets + Flat(items) + if signed then sign(Flat(items)) else Zeros(SIGN)
  {
    hide ItemOctets, Flat;
    var all := pre + [SignOpen] + items + [SignClose(signed)];
    EncodeFlat(pre + [SignOpen], items, sign);
    assert (pre + [SignOpen])[..|pre|] == pre;
    assert all[..|all| - 1] == pre + [SignOpen] + items;
    var o := Encode(pre, sign).octets;
    assert (o + Flat(items))[|o|..] == Flat(items);
  }

  /** A packet signed as a whole: its octets, then a signature over all of them. */
  lemma EncodeSigned(items: seq<Item>, signed: bool, sign: Signer)
    requires forall it :: it in items ==> !it.SignOpen? && !it.SignClose?
    ensures Encode([SignOpen] + items + [SignClose(signed)], sign).octets
            == Flat(items) + if signed then sign(Flat(items)) else Zeros(SIGN)
  {
    hide Flat;
    EncodeSignedAt([], items, signed, sign);
    assert [] + [SignOpen] == [SignOpen] && Encode([], sign).octets == [] && [] + Flat(items) == Flat(items);
  }

  lemma {:induction false} FlatConcat(a: seq<Item>, b: seq<Item>)
    ensures Flat(a + b) == Flat(a) + Flat(b)
  {
    hide ItemOctets;
    if a == [] {
      assert a + b == b;
    } else {
      FlatConcat(a[1..], b);
      assert (a + b)[1..] == a[1..] + b && (a + b)[0] == a[0];
    }
  }

  /** One stage: a format at the front of a buffer. */
  lemma {:induction false} Stage(items: seq<Item>, rest: seq<Octet>)
    requires ReadableAll(items)
    ensures UnpackAll(Format(items), Flat(items) + rest) == Some((|Flat(items)|, CanonAll(items)))
  {
    hide UnpackFrom, Flat, Format, CanonAll, ReadableAll;
    RoundTrip(items, [], rest);
    assert [] + Flat(items) + rest == Flat(items) + rest;
  }

  lemma FormatCons(it: Item, items: seq<Item>)
    ensures Format([it] + items) == [Specifier(it)] + Format(items)
    ensures CanonAll([it] + items) == Canon(it) + CanonAll(items)
    ensures Flat([it] + items) == ItemOctets(it) + Flat(items)
  { }

  lemma PrefixStage(control: nat, id: nat, s: Sender, rest: seq<Octet>)
    requires ValidSender(s) && id <= NPOS && control < CONTROL_MAX
    ensures var p := PrefixItems(control, id, s);
            var c := control + if s.encrypted then EMASK else 0;
            && |Flat(p)| == 10 + UvarLen(s.seqno)
            && UnpackAll("CQW", Flat(p) + rest)
               == Some((|Flat(p)|, [U8(c), U64(id), Var64(RevOctets(s.seqno))]))
  {
    hide UnpackAll, Format, Flat, CanonAll, ReadableAll, RevOctets, UvarLen;
    PrefixList(control, id, s);
    PrefixReadable(control, id, s);
    Stage(PrefixItems(control, id, s), rest);
  }

  lemma PrefixReadable(control: nat, id: nat, s: Sender)
    requires ValidSender(s) && id <= NPOS && control < CONTROL_MAX
    ensures ReadableAll(PrefixItems(control, id, s))
  { }

  lemma PrefixList(control: nat, id: nat, s: Sender)
    requires ValidSender(s) && id <= NPOS && control < CONTROL_MAX
    ensures var p := PrefixItems(control, id, s);
            && Format(p) == "CQW" && |Flat(p)| == 10 + UvarLen(s.seqno)
            && CanonAll(p) == [U8(control + if s.encrypted then EMASK else 0), U64(id), Var64(RevOctets(s.seqno))]
  {
    hide Format, Flat, CanonAll, UvarLen, BE, LE, RevOctets;
    var p := PrefixItems(control, id, s);
    EmptyLists();
    FormatCons(p[2], []);
    FormatCons(p[1], [p[2]]);
    FormatCons(p[0], [p[1], p[2]]);
    assert [p[1]] + [p[2]] == [p[1], p[2]] && [p[0]] + [p[1], p[2]] == p && [p[2]] + [] == [p[2]];
  }

  lemma RouteStage(rest: seq<Octet>)
    ensures |Flat(ROUTE)| == 3
    ensures UnpackAll("Hb", Flat(ROUTE) + rest) == Some((3, ROUTE))
  {
    var p := ROUTE;
    assert RevOctets(0) == 0 && UvarLen(0) == 0 && LE(0, 0) == [];
    FormatCons(p[1], []);
    FormatCons(p[0], [p[1]]);
    hide UnpackAll, RevOctets, BE, LE;
    assert [p[0]] + [p[1]] == p && [p[1]] + [] == [p[1]];
    assert Format(p) == "Hb" && CanonAll(p) == p;
    Stage(p, rest);
  }

  lemma SealStage(rest: seq<Octet>)
    ensures UnpackAll("oO", Zeros(SEAL) + rest) == Some((SEAL, []))
  {
    var p := [SealOpen, SealClose];
    hide UnpackAll;
    FormatCons(p[1], []);
    FormatCons(p[0], [p[1]]);
    assert [p[0]] + [p[1]] == p && [p[1]] + [] == [p[1]];
    assert Format(p) == "oO" && CanonAll(p) == [] && Flat(p) == Zeros(SEAL);
    Stage(p, rest);
  }

  lemma EmptyLists()
    ensures Format([]) == "" && Flat([]) == [] && CanonAll([]) == []
  { }

  lemma OrZerosLength(s: Sender)
    requires ValidSender(s)
    ensures |OrZeros(s.nonce, NONCE)| == NONCE && |OrZeros(s.key, KEY)| == KEY
  { }

  const LIMITS: seq<Item> := [U32(128000), U32(8), U32(65536), U32(128)]

  lemma LimitsList()
    ensures Format(LIMITS) == "IIII" && |Flat(LIMITS)| == 16 && CanonAll(LIMITS) == LIMITS
    ensures ReadableAll(LIMITS)
  { }

  lemma BodyList(s: Sender)
    requires ValidSender(s)
    ensures Format(BodyItems(s)) == "QnkIIII" && |Flat(BodyItems(s))| == 80
    ensures BodyFrom(CanonAll(BodyItems(s))) == Some(BodyOf(s))
  {
    hide BE, LE, FromBE, RevOctets, Format, Flat, CanonAll, UvarLen, OrZeros, VarOctets;
    var b := BodyItems(s);
    LimitsList();
    OrZerosLength(s);
    FormatCons(b[2], LIMITS);
    FormatCons(b[1], [b[2]] + LIMITS);
    FormatCons(b[0], [b[1]] + ([b[2]] + LIMITS));
    assert b == [b[0]] + ([b[1]] + ([b[2]] + LIMITS));
    assert CanonAll(b) == [b[0]] + ([Nonce(Some(OrZeros(s.nonce, NONCE)))]
                                    + ([Key(Some(OrZeros(s.key, KEY)))] + LIMITS));
  }

  lemma BodyReadable(s: Sender)
    requires ValidSender(s)
    ensures ReadableAll(BodyItems(s))
  { }

  /** `_tripc_parse_open` on what follows the seal of an OPEN. */
  lemma BodyStage(s: Sender)
    requires ValidSender(s)
    ensures ParseBody("QnkIIII", Flat(BodyItems(s))) == Some(BodyOf(s))
  {
    hide UnpackAll, Flat, Format, CanonAll, BodyFrom, BodyItems;
    BodyList(s);
    BodyReadable(s);
    Stage(BodyItems(s), []);
    assert Flat(BodyItems(s)) + [] == Flat(BodyItems(s));
  }

  /** `_tripc_parse_chal` on what follows the prefix of a CHALLENGE. */
  lemma {:induction false} ChalStage(s: Sender)
    requires ValidSender(s)
    ensures ParseBody("oQnkIIIIO", Zeros(SEAL) + Flat(BodyItems(s))) == Some(BodyOf(s))
  {
    hide UnpackAll, Flat, Format, CanonAll, BodyFrom, BodyItems, ReadableAll;
    var b := BodyItems(s);
    var p := [SealOpen] + (b + [SealClose]);
    BodyList(s);
    SealedReadable(s);
    EmptyLists();
    FormatConcat(b, [SealClose]);
    CanonConcat(b, [SealClose]);
    FlatConcat(b, [SealClose]);
    FormatCons(SealClose, []);
    FormatCons(SealOpen, b + [SealClose]);
    assert [SealClose] + [] == [SealClose];
    Stage(p, []);
    assert Flat(p) + [] == Flat(p) == Zeros(SEAL) + Flat(b);
    assert CanonAll(p) == CanonAll(b);
    assert Format(p) == "oQnkIIIIO";
  }

  lemma SealedReadable(s: Sender)
    requires ValidSender(s)
    ensures ReadableAll([SealOpen] + (BodyItems(s) + [SealClose]))
  {
    BodyReadable(s);
    assert Readable(SealOpen) && Readable(SealClose);
    hide Readable;
  }

  lemma {:induction false} FormatConcat(a: seq<Item>, b: seq<Item>)
    ensures Format(a + b) == Format(a) + Format(b)
  {
    hide Specifier;
    if a == [] {
      assert a + b == b;
    } else {
      FormatConcat(a[1..], b);
      assert (a + b)[1..] == a[1..] + b;
      var x, f, g := [Specifier(a[0])], Format(a[1..]), Format(b);
      hide Format;
      assert x + (f + g) == x + f + g;
    }
  }

  lemma {:induction false} CanonConcat(a: seq<Item>, b: seq<Item>)
    ensures CanonAll(a + b) == CanonAll(a) + CanonAll(b)
  {
    hide Canon;
    if a == [] {
      assert a + b == b;
    } else {
      CanonConcat(a[1..], b);
      assert (a + b)[1..] == a[1..] + b && (a + b)[0] == a[0];
    }
  }

  /** The octets of an OPEN packet. */
  function OpenOctets(s: Sender, sign: Signer): seq<Octet> {
    Encode(OpenItems(s), sign).octets
  }

  /** The octets of a CHALLENGE packet for the connection `peer`. */
  function ChalOctets(peer: nat, s: Sender, sign: Signer): seq<Octet> {
    Encode(ChalItems(peer, s), sign).octets
  }

  predicate Neutral(items: seq<Item>) {
    forall it :: it in items ==> !it.SealOpen? && !it.SealClose? && !it.BoxOpen? && !it.SignClose?
  }

  lemma {:induction false} NeutralBracketed(pre: seq<Item>, items: seq<Item>)
    requires Bracketed(pre) && Neutral(items)
    ensures Bracketed(pre + items) && IsOpen(pre + items) == IsOpen(pre)
    decreases |items|
  {
    if items == [] {
      assert pre + items == pre;
    } else {
      var front := items[..|items| - 1];
      NeutralBracketed(pre, front);
      assert (pre + items)[..|pre + items| - 1] == pre + front;
    }
  }

  lemma BracketSnoc(pre: seq<Item>, it: Item)
    requires Bracketed(pre)
    ensures it.SealOpen? && !IsOpen(pre) ==> Bracketed(pre + [it]) && IsOpen(pre + [it])
    ensures it.SealClose? && IsOpen(pre) ==> Bracketed(pre + [it]) && !IsOpen(pre + [it])
    ensures it.SignClose? && !IsOpen(pre) ==> Bracketed(pre + [it]) && !IsOpen(pre + [it])
  { }

  lemma SealedBracketed(pre: seq<Item>, s: Sender)
    requires Neutral(pre)
    ensures var all := pre + [SealOpen] + BodyItems(s) + [SealClose] + [SignClose(s.signed)];
            Bracketed(all) && !IsOpen(all)
  {
    hide Bracketed, IsOpen;
    assert Bracketed([]) && !IsOpen([]) by { EmptyBracketed(); }
    NeutralBracketed([], pre);
    assert [] + pre == pre;
    BracketSnoc(pre, SealOpen);
    NeutralBracketed(pre + [SealOpen], BodyItems(s));
    BracketSnoc(pre + [SealOpen] + BodyItems(s), SealClose);
    BracketSnoc(pre + [SealOpen] + BodyItems(s) + [SealClose], SignClose(s.signed));
  }

  lemma EmptyBracketed()
    ensures Bracketed([]) && !IsOpen([])
  { }

  lemma CloseFormat(signed: bool)
    ensures Format([SealClose, SignClose(signed)]) == "OS" && Format([SealOpen]) == "o"
  { }

  lemma SealedFormat(s: Sender)
    requires ValidSender(s)
    ensures Format([SealOpen] + BodyItems(s) + [SealClose, SignClose(s.signed)]) == "oQnkIIIIOS"
  {
    hide Format, BodyItems;
    assert Format(BodyItems(s)) == "QnkIIII" by { BodyList(s); }
    CloseFormat(s.signed);
    FormatConcat([SealOpen], BodyItems(s));
    FormatConcat([SealOpen] + BodyItems(s), [SealClose, SignClose(s.signed)]);
  }

  lemma PrefixFormat(control: nat, id: nat, s: Sender)
    ensures Format([SignOpen] + PrefixItems(control, id, s)) == "sCQW"
  {
    hide Format;
    var p := PrefixItems(control, id, s);
    var q := p[1..];
    EmptyLists();
    FormatCons(q[1], []);
    FormatCons(q[0], [q[1]]);
    FormatCons(p[0], q);
    FormatCons(SignOpen, p);
    assert [q[0]] + [q[1]] == q && [p[0]] + q == p && [q[1]] + [] == [q[1]];
  }

  /** OPEN is the well-bracketed format of the source, so `Pack` writes exactly its octets. */
  lemma OpenFormat(s: Sender)
    requires ValidSender(s)
    ensures Format(OpenItems(s)) == "sCQWHboQnkIIIIOS"
    ensures Bracketed(OpenItems(s)) && !IsOpen(OpenItems(s))
  {
    hide Format, Bracketed, IsOpen;
    var p := [SignOpen] + PrefixItems(OPEN, s.id, s);
    var tail := [SealOpen] + BodyItems(s) + [SealClose, SignClose(s.signed)];
    PrefixFormat(OPEN, s.id, s);
    SealedFormat(s);
    EmptyLists();
    FormatCons(ROUTE[1], []);
    FormatCons(ROUTE[0], [ROUTE[1]]);
    assert ROUTE == [ROUTE[0]] + [ROUTE[1]] && [ROUTE[1]] + [] == [ROUTE[1]];
    assert OpenItems(s) == p + ROUTE + tail;
    FormatConcat(p, ROUTE);
    FormatConcat(p + ROUTE, tail);
    SealedBracketed(p + ROUTE, s);
    assert OpenItems(s) == p + ROUTE + [SealOpen] + BodyItems(s) + [SealClose] + [SignClose(s.signed)];
  }

  lemma ChalFormat(peer: nat, s: Sender)
    requires ValidSender(s)
    ensures Format(ChalItems(peer, s)) == "sCQWoQnkIIIIOS"
    ensures Bracketed(ChalItems(peer, s)) && !IsOpen(ChalItems(peer, s))
  {
    hide Format, Bracketed, IsOpen;
    var p := [SignOpen] + PrefixItems(CHAL, peer, s);
    var tail := [SealOpen] + BodyItems(s) + [SealClose, SignClose(s.signed)];
    PrefixFormat(CHAL, peer, s);
    SealedFormat(s);
    assert ChalItems(peer, s) == p + tail;
    FormatConcat(p, tail);
    SealedBracketed(p, s);
    assert ChalItems(peer, s) == p + [SealOpen] + BodyItems(s) + [SealClose] + [SignClose(s.signed)];
  }

  lemma OpenLayout(s: Sender, sign: Signer)
    ensures var m := Flat(PrefixItems(OPEN, s.id, s)) + (Flat(ROUTE) + (Zeros(SEAL) + Flat(BodyItems(s))));
            OpenOctets(s, sign) == m + if s.signed then sign(m) else Zeros(SIGN)
  {
    var p, b := PrefixItems(OPEN, s.id, s), BodyItems(s);
    var mid := p + (ROUTE + ([SealOpen] + (b + [SealClose])));
    assert OpenItems(s) == [SignOpen] + mid + [SignClose(s.signed)];
    EncodeSigned(mid, s.signed, sign);
    SealFlat(b);
    hide Encode, Flat, ItemOctets;
    FlatConcat(p, ROUTE + ([SealOpen] + (b + [SealClose])));
    FlatConcat(ROUTE, [SealOpen] + (b + [SealClose]));
  }

  lemma ChalLayout(peer: nat, s: Sender, sign: Signer)
    ensures var m := Flat(PrefixItems(CHAL, peer, s)) + (Zeros(SEAL) + Flat(BodyItems(s)));
            ChalOctets(peer, s, sign) == m + if s.signed then sign(m) else Zeros(SIGN)
  {
    var p, b := PrefixItems(CHAL, peer, s), BodyItems(s);
    var mid := p + ([SealOpen] + (b + [SealClose]));
    assert ChalItems(peer, s) == [SignOpen] + mid + [SignClose(s.signed)];
    EncodeSigned(mid, s.signed, sign);
    SealFlat(b);
    hide Encode, Flat, ItemOctets;
    FlatConcat(p, [SealOpen] + (b + [SealClose]));
  }

  lemma SealFlat(b: seq<Item>)
    ensures Flat([SealOpen] + (b + [SealClose])) == Zeros(SEAL) + Flat(b)
  {
    EmptyLists();
    FormatCons(SealOpen, b + [SealClose]);
    FlatConcat(b, [SealClose]);
    FormatCons(SealClose, []);
    assert [SealClose] + [] == [SealClose];
  }

  /** The staged reader inverts the one-shot writer of OPEN: id, nonce, key and limits come back
      exactly, every stage consumes exactly its own octets, and the sequence number comes back with
      its octets reversed. */
  lemma {:induction false} OpenReadBack(s: Sender, sign: Signer)
    requires ValidSender(s) && Signs(sign)
    ensures ParseSegment(OpenOctets(s, sign)) == Opened(s.id, RevOctets(s.seqno), s.encrypted, [], BodyOf(s))
  {
    hide OpenOctets, ParseOpen, UnpackAll, Flat, BodyItems, PrefixItems, BodyOf, RevOctets;
    var p, r, z, b := Flat(PrefixItems(OPEN, s.id, s)), Flat(ROUTE), Zeros(SEAL), Flat(BodyItems(s));
    var m := p + (r + (z + b));
    OpenLayout(s, sign);
    var sig := if s.signed then sign(m) else Zeros(SIGN);
    var buf := m + sig;
    assert |b| == 80 by { BodyList(s); }
    PrefixStage(OPEN, s.id, s, r + (z + b) + sig);
    assert buf == p + (r + (z + b) + sig);
    OpenTail(s, p, r, z, b, sig, RevOctets(s.seqno));
  }

  lemma OpenTail(s: Sender, p: seq<Octet>, r: seq<Octet>, z: seq<Octet>, b: seq<Octet>, sig: seq<Octet>, seqno: nat)
    requires ValidSender(s) && |sig| == SIGN
    requires r == Flat(ROUTE) && z == Zeros(SEAL) && b == Flat(BodyItems(s))
    ensures ParseOpen(p + (r + (z + b) + sig), |p|, s.id, seqno, s.encrypted)
            == Opened(s.id, seqno, s.encrypted, [], BodyOf(s))
  {
    hide UnpackAll, Flat, BodyItems, BodyOf, ParseBody;
    var buf := p + (r + (z + b) + sig);
    assert |b| == 80 by { BodyList(s); }
    RouteStage(z + b + sig);
    assert buf[|p|..] == r + (z + b + sig);
    assert buf[|p| + 3..|buf| - SIGN] == z + b;
    SealStage(b[..|b| - SIGN]);
    assert (z + b)[..|z + b| - SIGN] == z + b[..|b| - SIGN];
    assert (z + b)[SEAL..] == b;
    BodyStage(s);
  }

  /** The same for CHALLENGE: it is routed by the peer's id, and its body comes back exactly. */
  lemma {:induction false} ChalReadBack(peer: nat, s: Sender, sign: Signer)
    requires ValidSender(s) && peer <= NPOS && Signs(sign)
    ensures var rest := Zeros(SEAL) + Flat(BodyItems(s));
            && ParseSegment(ChalOctets(peer, s, sign)) == Routed(CHAL, peer, RevOctets(s.seqno), s.encrypted, rest)
            && ParseBody("oQnkIIIIO", rest) == Some(BodyOf(s))
  {
    hide ChalOctets, ParseSegment, Flat, BodyItems, BodyOf, RevOctets, ParseBody;
    ChalHead(peer, s, sign);
    ChalStage(s);
  }

  lemma {:induction false} ChalHead(peer: nat, s: Sender, sign: Signer)
    requires ValidSender(s) && peer <= NPOS && Signs(sign)
    ensures ParseSegment(ChalOctets(peer, s, sign)) ==
            Routed(CHAL, peer, RevOctets(s.seqno), s.encrypted, Zeros(SEAL) + Flat(BodyItems(s)))
  {
    hide ChalOctets, ParseSegment, Flat, BodyItems, PrefixItems, RevOctets, Signs, UnpackAll;
    var p, rest := Flat(PrefixItems(CHAL, peer, s)), Zeros(SEAL) + Flat(BodyItems(s));
    var sig := if s.signed then sign(p + rest) else Zeros(SIGN);
    SignLength(sign, p + rest);
    ChalLayout(peer, s, sign);
    assert p + rest + sig == p + (rest + sig);
    PrefixStage(CHAL, peer, s, rest + sig);
    ChalRouted(peer, s, p, rest, sig);
  }

  lemma SignLength(sign: Signer, m: seq<Octet>)
    requires Signs(sign)
    ensures |sign(m)| == SIGN
  { }

  /** The prefix and the signature are cut off. */
  lemma {:induction false} ChalRouted(peer: nat, s: Sender, p: seq<Octet>, rest: seq<Octet>, sig: seq<Octet>)
    requires |sig| == SIGN && |rest| >= 16
    requires UnpackAll("CQW", p + (rest + sig)) ==
             Some((|p|, [U8(CHAL + if s.encrypted then EMASK else 0), U64(peer), Var64(RevOctets(s.seqno))]))
    ensures ParseSegment(p + (rest + sig)) == Routed(CHAL, peer, RevOctets(s.seqno), s.encrypted, rest)
  {
    hide UnpackAll, RevOctets;
    var buf := p + (rest + sig);
    assert buf[|p|..|buf| - SIGN] == rest;
  }

  // ---- what is accepted at all ----

  lemma WidthCons(ch: char, f: string)
    requires AllFixed(f) && Width(ch).Some? && ch != 'b' && ch != 'V' && ch != 'W'
    ensures AllFixed([ch] + f) && WidthAll([ch] + f) == Width(ch).value + WidthAll(f)
  {
    assert ([ch] + f)[1..] == f;
  }

  /** Nonce, key and limits, before anything else of fixed width. */
  lemma BodyWidth(f: string)
    requires AllFixed(f)
    ensures AllFixed("QnkIIII" + f) && WidthAll("QnkIIII" + f) == 80 + WidthAll(f)
  {
    hide AllFixed, WidthAll;
    WidthCons('I', f);
    WidthCons('I', "I" + f);
    WidthCons('I', "I" + ("I" + f));
    WidthCons('I', "I" + ("I" + ("I" + f)));
    var limits := "I" + ("I" + ("I" + ("I" + f)));
    WidthCons('k', limits);
    WidthCons('n', "k" + limits);
    WidthCons('Q', "n" + ("k" + limits));
    assert "Q" + ("n" + ("k" + limits)) == "QnkIIII" + f;
  }

  lemma EmptyWidth()
    ensures AllFixed("") && WidthAll("") == 0
  { }

  lemma SealWidth()
    ensures AllFixed("oO") && WidthAll("oO") == 48 && AllFixed("O") && WidthAll("O") == 0
  {
    hide AllFixed, WidthAll;
    EmptyWidth();
    WidthCons('O', "");
    assert "O" + "" == "O" && "o" + "O" == "oO";
    WidthCons('o', "O");
  }

  lemma OpenWidth()
    ensures AllFixed("QnkIIII") && WidthAll("QnkIIII") == 80
  {
    hide AllFixed, WidthAll;
    EmptyWidth();
    BodyWidth("");
    assert "QnkIIII" + "" == "QnkIIII";
  }

  lemma ChalWidth()
    ensures AllFixed("oQnkIIIIO") && WidthAll("oQnkIIIIO") == 128
  {
    hide AllFixed, WidthAll;
    SealWidth();
    BodyWidth("O");
    WidthCons('o', "QnkIIII" + "O");
    assert "o" + ("QnkIIII" + "O") == "oQnkIIIIO";
  }

  /** A body that parses has exactly the octets of its format. */
  lemma BodyExact(buf: seq<Octet>)
    ensures ParseBody("QnkIIII", buf).Some? ==> |buf| == 80
    ensures ParseBody("oQnkIIIIO", buf).Some? ==> |buf| == 128
  {
    OpenWidth();
    ChalWidth();
    FixedFormat("QnkIIII", buf, 0, 0);
    FixedFormat("oQnkIIIIO", buf, 0, 0);
    hide UnpackFrom, WidthAll, BodyFrom;
  }

  /** Nothing but an OPEN of this version and of exactly the right length is taken for one: behind the
      prefix of `end` octets and the route of `k` octets stand seal, body and signature, and no more. */
  lemma OpenExact(buf: seq<Octet>)
    requires ParseSegment(buf).Opened?
    ensures UnpackAll("CQW", buf).Some?
    ensures var (end, v) := UnpackAll("CQW", buf).value;
            && |v| == 3 && v[0].U8? && v[0].v % 128 == 1
            && end <= |buf| && UnpackAll("Hb", buf[end..]).Some?
            && var (k, w) := UnpackAll("Hb", buf[end..]).value;
               |w| == 2 && w[0] == U16(0) && |buf| == end + k + 48 + 80 + 64
  {
    hide UnpackAll, ParseBody;
    var (end, v) := UnpackAll("CQW", buf).value;
    var (k, w) := UnpackAll("Hb", buf[end..]).value;
    var inner := buf[end + k..|buf| - SIGN];
    SealExact(inner[..|inner| - SIGN]);
    BodyExact(inner[48..]);
  }

  lemma SealExact(buf: seq<Octet>)
    ensures UnpackAll("oO", buf).Some? ==> UnpackAll("oO", buf).value.0 == 48
  {
    SealWidth();
    FixedFormat("oO", buf, 0, 0);
    hide UnpackFrom, WidthAll;
  }

  /** What is turned away at once, and when a length would be taken below zero. */
  lemma TurnedAway(buf: seq<Octet>)
    ensures |buf| < 16 ==> ParseSegment(buf) == Reject(0)
    ensures |buf| >= 16 && UnpackAll("CQW", buf).None? ==> ParseSegment(buf) == Reject(1)
    ensures |buf| >= 16 && UnpackAll("CQW", buf).Some? ==>
              var (end, v) := UnpackAll("CQW", buf).value;
              && (|v| == 3 && v[0].U8? && v[1].U64? && v[2].Var64? && v[0].v % 128 >= 5 ==> ParseSegment(buf) == Reject(12))
              && (|v| == 3 && v[0].U8? && v[1].U64? && v[2].Var64? && v[0].v % 128 < 5 && v[0].v % 128 != 1 ==>
                    (ParseSegment(buf) == Wrap <==> |buf| < end + 64))
              && (|v| == 3 && v[0].U8? && v[0].v % 128 == 1 && ParseSegment(buf) == Wrap ==>
                    end <= |buf| && UnpackAll("Hb", buf[end..]).Some?
                    && |buf| < end + UnpackAll("Hb", buf[end..]).value.0 + 64 + 64)
  {
    hide UnpackAll, ParseSealed;
    if |buf| >= 16 && UnpackAll("CQW", buf).Some? {
      var (end, v) := UnpackAll("CQW", buf).value;
      if UnpackAll("Hb", buf[end..]).Some? {
        var k := UnpackAll("Hb", buf[end..]).value.0;
        if |buf| >= end + k + 128 { NoWrapSealed(buf[end + k..|buf| - 64], 0, 0, false, []); }
      }
    }
  }

  lemma NoWrapSealed(buf: seq<Octet>, id: int, seqno: nat, encrypted: bool, route: seq<Octet>)
    requires SIGN <= |buf|
    ensures forall i, n, e, r :: ParseSealed(buf, i, n, e, r) != Wrap
  {
    hide UnpackAll, ParseBody;
  }

  /** What is passed on to a connection has a known control and lies between prefix and signature. */
  lemma RoutedExact(buf: seq<Octet>)
    requires ParseSegment(buf).Routed?
    ensures var r := ParseSegment(buf);
            && r.control < 5 && r.control != 1 && UnpackAll("CQW", buf).Some?
            && var (end, v) := UnpackAll("CQW", buf).value;
               && |v| == 3 && v[0].U8? && v[1] == U64(r.id) && r.control == v[0].v % 128
               && (r.encrypted <==> v[0].v >= 128)
               && end + 64 <= |buf| && r.rest == buf[end..|buf| - 64]
  {
    hide UnpackAll;
  }

  /** The numbers: what OPEN and CHALLENGE carry, and how long they are. */
  lemma PacketNumbers(peer: nat, s: Sender, sign: Signer)
    requires ValidSender(s) && Signs(sign)
    ensures |OpenOctets(s, sign)| == 205 + UvarLen(s.seqno) && |ChalOctets(peer, s, sign)| == 202 + UvarLen(s.seqno)
    ensures var b := BodyOf(s);
            && b.id == s.id && b.credit == 128000 && b.streams == 8 && b.messageSize == 65536 && b.messages == 128
            && (if s.nonce.Some? then b.nonce == s.nonce.value else |b.nonce| == 24 && forall i :: 0 <= i < 24 ==> b.nonce[i] == 0)
            && (if s.key.Some? then b.key == s.key.value else |b.key| == 32 && forall i :: 0 <= i < 32 ==> b.key[i] == 0)
  {
    OpenLayout(s, sign);
    ChalLayout(peer, s, sign);
    PrefixLength(OPEN, s.id, s);
    PrefixLength(CHAL, peer, s);
    BodyList(s);
    RouteStage([]);
    hide OpenOctets, ChalOctets, Flat, Format, CanonAll, UvarLen, UnpackAll;
    SignLength(sign, Flat(PrefixItems(OPEN, s.id, s)) + (Flat(ROUTE) + (Zeros(SEAL) + Flat(BodyItems(s)))));
    SignLength(sign, Flat(PrefixItems(CHAL, peer, s)) + (Zeros(SEAL) + Flat(BodyItems(s))));
  }

  lemma PrefixLength(control: nat, id: nat, s: Sender)
    ensures |Flat(PrefixItems(control, id, s))| == 10 + UvarLen(s.seqno)
  {
    hide Format, Flat, CanonAll, UvarLen, BE, LE;
    var p := PrefixItems(control, id, s);
    EmptyLists();
    FormatCons(p[2], []);
    FormatCons(p[1], [p[2]]);
    FormatCons(p[0], [p[1], p[2]]);
    assert [p[1]] + [p[2]] == [p[1], p[2]] && [p[0]] + [p[1], p[2]] == p && [p[2]] + [] == [p[2]];
  }
}
