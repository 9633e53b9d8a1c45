/** The OPEN/CHALLENGE handshake of src/conn.c and src/trip.c between any number of routers, over a
    network that loses, duplicates and reorders what honest connections send. */
module Handshake {
  import opened Options
  import opened Connection
  import opened Segment
  import P = Pack
  import O = Octets

  const ID_MAX: nat := P.NPOS

  /** A router as far as the handshake needs it: the connection map, which refines a finite map, the
      resolve queue, whose pending keys form a finite map, and the keys given to the packet interface. */
  datatype Router = Router(conns: map<int, int>, resolving: map<int, Option<int>>, handed: set<int>)

  /** A packet on the network. Only `to`, `from` and the octets matter to a receiver; the other fields
      say where the packet came from. */
  datatype Packet = Packet(from: int, to: int, chal: bool, origin: int, peer: nat, sender: Sender, sign: P.Signer)

  function Wire(p: Packet): seq<O.Octet> {
    if p.chal then ChalOctets(p.peer, p.sender, p.sign) else OpenOctets(p.sender, p.sign)
  }

  /** `conns` keeps closed connections. `net` is all that was ever sent: a packet may be delivered any
      number of times, at any later time, or never. */
  datatype Sys = Sys(conns: map<int, Conn>, next: int, routers: map<int, Router>, net: seq<Packet>)

  datatype Control = DATA | PINGED | DISC

  datatype Step =
    | OpenConnection(r: int, id: nat, key: int)                 // trip_open_connection
    | Fire(c: int, t: int, late: bool, alloc: bool)             // the timer list reaches an entry
    | Resolved(r: int, key: int, src: int, err: bool, alloc: bool) // trip_resolve
    | Transmit(c: int, sender: Sender, sign: P.Signer, active: bool, stay: bool) // _tripc_send
    | Deliver(i: nat, accept: bool, id: nat, alloc: bool)       // trip_seg
    | Other(c: int, control: Control, ok: bool, alloc: bool)    // DATA, PING or DISC, parsed or not

  function WithConn(s: Sys, c: int, conn: Conn): Sys {
    s.(conns := s.conns[c := conn])
  }

  function WithRouter(s: Sys, r: int, rt: Router): Sys {
    s.(routers := s.routers[r := rt])
  }

  // ---- the steps ----

  /** A connection gets the id and the key that the containers assigned. */
  function DoOpen(s: Sys, r: int, id: nat, key: int): Sys {
    if r in s.routers && id <= ID_MAX && id !in s.routers[r].conns && key !in s.routers[r].resolving then
      var rt := s.routers[r];
      var conn := ArmAsync(NewConn(r, false, id, key, -1), OpenAsync);
      Sys(s.conns[s.next := conn], s.next + 1,
          s.routers[r := rt.(conns := rt.conns[id := s.next], resolving := rt.resolving[key := Some(s.next)])],
          s.net)
    else s
  }

  /** The callbacks. The second result says what becomes of the router. */
  function Callback(conn: Conn, rt: Router, kind: Kind, late: bool, alloc: bool): (Conn, Router) {
    match kind
    case OpenAsync =>
      (if conn.state == START then SetState(conn, RESOLVE, alloc) else SetError(conn),
       rt.(handed := rt.handed + {conn.key}))
    case ResolveTimeout =>
      (Close(SetError(conn.(statetimer := None))),
       rt.(conns := rt.conns - {conn.selfId},
           resolving := if conn.key in rt.resolving then rt.resolving[conn.key := None] else rt.resolving))
    case Resend =>
      (ResendCb(conn, late, alloc), if late then rt.(conns := rt.conns - {conn.selfId}) else rt)
    case ReadyPing => (SetState(conn, PING, alloc), rt)
    case DelaySuccess => (SetState(conn, OPEN, alloc), rt)
    case DelayFailure => (Close(conn), rt.(conns := rt.conns - {conn.selfId}))
  }

  function DoFire(s: Sys, c: int, t: int, late: bool, alloc: bool): Sys {
    if c in s.conns && t in s.conns[c].pending && s.conns[c].router in s.routers then
      var conn := s.conns[c];
      var p := conn.pending[t];
      if p.canceled then WithConn(s, c, Unlink(conn, t))
      else
        var (conn', rt) := Callback(Unlink(conn, t), s.routers[conn.router], p.kind, late, alloc);
        WithRouter(WithConn(s, c, conn'), conn.router, rt)
    else s
  }

  /** The packet interface answers for a key it was given. */
  function DoResolved(s: Sys, r: int, key: int, src: int, err: bool, alloc: bool): Sys {
    if r in s.routers && key in s.routers[r].handed then
      var rt := s.routers[r];
      var rt' := rt.(handed := rt.handed - {key}, resolving := rt.resolving - {key});
      if key in rt.resolving && rt.resolving[key].Some? && rt.resolving[key].value in s.conns then
        var c := rt.resolving[key].value;
        WithRouter(WithConn(s, c, Delay(s.conns[c], src, err, alloc)), r, rt')
      else WithRouter(s, r, rt')
    else s
  }

  /** A connection in the send queue is asked for a packet. `sender` and `sign` are what an OPEN or a
      CHALLENGE would carry; afterwards the connection is queued again or not. */
  function DoTransmit(s: Sys, c: int, sender: Sender, sign: P.Signer, active: bool, stay: bool): Sys {
    if c in s.conns && s.conns[c].queued && !s.conns[c].closed then
      var conn := s.conns[c];
      var s' := WithConn(s, c, Send(conn, active).(queued := stay));
      if conn.hassend && (conn.state == OPEN || conn.state == CHAL) then
        s'.(net := s.net + [Packet(conn.router, conn.src, conn.state == CHAL, c, conn.peerId, sender, sign)])
      else s'
    else s
  }

  /** `_tripc_read` for a segment that is not an OPEN. In OPEN the control is not looked at. */
  function Read(conn: Conn, rest: seq<O.Octet>, origin: int, alloc: bool): Conn {
    match conn.state
    case OPEN =>
      (match ParseBody("oQnkIIIIO", rest)
       case None => conn
       case Some(b) =>
         if b.id < 0 then conn
         else SetState(conn.(peerId := b.id, met := Some(origin)), PING, alloc))
    case RESOLVE => SetError(conn)
    case _ => conn
  }

  /** An OPEN that the user lets in always makes a new connection. */
  function Accepted(r: int, id: nat, src: int, peer: nat, alloc: bool): Conn {
    SetState(NewConn(r, true, id, -1, src), CHAL, alloc).(peerId := peer, hassend := true, queued := true)
  }

  function DoDeliver(s: Sys, i: nat, accept: bool, id: nat, alloc: bool): Sys {
    if i < |s.net| && s.net[i].to in s.routers then
      var p, r := s.net[i], s.net[i].to;
      var rt := s.routers[r];
      match ParseSegment(Wire(p))
      case Opened(_, _, _, _, body) =>
        if accept && id <= ID_MAX && id !in rt.conns && body.id >= 0 then
          Sys(s.conns[s.next := Accepted(r, id, p.from, body.id, alloc)], s.next + 1,
              s.routers[r := rt.(conns := rt.conns[id := s.next])], s.net)
        else s
      case Routed(_, to, _, _, rest) =>
        if to in rt.conns && rt.conns[to] in s.conns then
          WithConn(s, rt.conns[to], Read(s.conns[rt.conns[to]], rest, p.origin, alloc))
        else s
      case _ => s
    else s
  }

  /** DATA, PING and DISC, whose parsers are stubs: `ok` is what they answer. */
  function ReadOther(conn: Conn, control: Control, ok: bool, alloc: bool): Conn {
    match conn.state
    case RESOLVE => SetError(conn)
    case CHAL =>
      if ok && control == DATA then SetState(conn, READY, alloc)
      else if ok && control == PINGED then SetSend(conn)
      else conn
    case PING => if !ok then conn else ReadUp(conn, control, alloc)
    case READY => if !ok then conn else ReadUp(conn, control, alloc)
    case CLOSE => if ok && control == PINGED then SetState(conn, READY, alloc) else conn
    case _ => conn
  }

  function ReadUp(conn: Conn, control: Control, alloc: bool): Conn {
    match control
    case DATA => conn
    case PINGED => SetState(conn, READY, alloc)
    case DISC => SetState(conn, CLOSE, alloc)
  }

  function DoOther(s: Sys, c: int, control: Control, ok: bool, alloc: bool): Sys {
    if c in s.conns && !s.conns[c].closed then WithConn(s, c, ReadOther(s.conns[c], control, ok, alloc)) else s
  }

  function Next(s: Sys, step: Step): Sys {
    match step
    case OpenConnection(r, id, key) => DoOpen(s, r, id, key)
    case Fire(c, t, late, alloc) => DoFire(s, c, t, late, alloc)
    case Resolved(r, key, src, err, alloc) => DoResolved(s, r, key, src, err, alloc)
    case Transmit(c, sender, sign, active, stay) => DoTransmit(s, c, sender, sign, active, stay)
    case Deliver(i, accept, id, alloc) => DoDeliver(s, i, accept, id, alloc)
    case Other(c, control, ok, alloc) => DoOther(s, c, control, ok, alloc)
  }

  /** A connection sends what its fields say, with any nonce and key it has, and signs somehow. */
  ghost predicate Honest(s: Sys, step: Step) {
    step.Transmit? && step.c in s.conns ==>
      && ValidSender(step.sender) && P.Signs(step.sign)
      && step.sender.id == s.conns[step.c].selfId
      && step.sender.seqno == s.conns[step.c].sequence % (ID_MAX + 1)
  }

  function Start(routers: set<int>): Sys {
    Sys(map[], 0, map r | r in routers :: Router(map[], map[], {}), [])
  }

  /** The system after some steps, and whether all of them were honest. */
  ghost function Run(routers: set<int>, steps: seq<Step>): Sys {
    if steps == [] then Start(routers) else Next(Run(routers, steps[..|steps| - 1]), steps[|steps| - 1])
  }

  ghost predicate HonestRun(routers: set<int>, steps: seq<Step>) {
    steps != [] ==>
      var before := steps[..|steps| - 1];
      HonestRun(routers, before) && Honest(Run(routers, before), steps[|steps| - 1])
  }

  // ---- the invariant ----

  /** The incoming connection met is the one named by the peer id, and it names this one as its peer. */
  predicate Agreed(conns: map<int, Conn>, conn: Conn) {
    conn.met.Some? ==>
      && conn.met.value in conns
      && var d := conns[conn.met.value];
         d.incoming && d.selfId == conn.peerId && d.peerId == conn.selfId && d.src == conn.router
  }

  ghost predicate ConnInv(s: Sys, c: int)
    requires c in s.conns
  {
    var conn := s.conns[c];
    && 0 <= c < s.next && Local(conn) && conn.selfId <= ID_MAX && conn.peerId <= ID_MAX
    && conn.router in s.routers && Agreed(s.conns, conn)
    && (Registered(conn) ==>
          conn.key in s.routers[conn.router].resolving && s.routers[conn.router].resolving[conn.key] == Some(c))
  }

  ghost predicate Known(s: Sys, r: int, id: int)
    requires r in s.routers && id in s.routers[r].conns
  {
    var c := s.routers[r].conns[id];
    c in s.conns && s.conns[c].router == r && s.conns[c].selfId == id && !s.conns[c].closed
  }

  ghost predicate Queued(s: Sys, r: int, k: int)
    requires r in s.routers && k in s.routers[r].resolving
  {
    var o := s.routers[r].resolving[k];
    o.Some? ==>
      && o.value in s.conns && s.conns[o.value].router == r && s.conns[o.value].key == k
      && InResolve(s.conns[o.value]) && (k in s.routers[r].handed ==> Awaiting(s.conns[o.value]))
  }

  ghost predicate RouterInv(s: Sys, r: int)
    requires r in s.routers
  {
    && (forall id :: id in s.routers[r].conns ==> Known(s, r, id))
    && (forall k :: k in s.routers[r].resolving ==> Queued(s, r, k))
    && s.routers[r].handed <= s.routers[r].resolving.Keys
  }

  /** A packet is what its origin sends: an OPEN of an outgoing connection, or the CHALLENGE of an
      incoming one for its peer, addressed to where its OPEN came from. */
  ghost predicate PacketInv(conns: map<int, Conn>, p: Packet) {
    && ValidSender(p.sender) && P.Signs(p.sign) && p.peer <= ID_MAX && p.origin in conns
    && var d := conns[p.origin];
       && d.selfId == p.sender.id && d.router == p.from && d.incoming == p.chal
       && (p.chal ==> d.peerId == p.peer && d.src == p.to)
  }

  ghost predicate Inv(s: Sys) {
    && 0 <= s.next
    && (forall c :: c in s.conns ==> ConnInv(s, c))
    && (forall r :: r in s.routers ==> RouterInv(s, r))
    && (forall i :: 0 <= i < |s.net| ==> PacketInv(s.conns, s.net[i]))
  }

  /** Connections are only added, and keep what identifies them. */
  ghost predicate Extends(a: map<int, Conn>, b: map<int, Conn>) {
    forall c :: c in a ==> c in b && SameCard(a[c], b[c])
  }

  lemma PacketsStay(a: map<int, Conn>, b: map<int, Conn>, net: seq<Packet>)
    requires Extends(a, b) && forall i :: 0 <= i < |net| ==> PacketInv(a, net[i])
    ensures forall i :: 0 <= i < |net| ==> PacketInv(b, net[i])
  { }

  /** Entries of a router that do not concern connection `c` are untouched, those that do fit `conn`. */
  ghost predicate RouterMoves(rt: Router, rt': Router, c: int, conn: Conn) {
    && (forall id :: id in rt'.conns ==>
          id in rt.conns && rt'.conns[id] == rt.conns[id] && (conn.closed ==> rt'.conns[id] != c))
    && (forall k :: k in rt'.resolving ==>
          k in rt.resolving && (rt'.resolving[k] == rt.resolving[k] || rt'.resolving[k] == None))
    && (forall k :: k in rt.resolving && rt.resolving[k].Some? && rt.resolving[k].value != c ==>
          k in rt'.resolving && rt'.resolving[k] == rt.resolving[k] && (k in rt'.handed ==> k in rt.handed))
    && (forall k :: k in rt'.resolving && rt'.resolving[k] == Some(c) ==>
          InResolve(conn) && (k in rt'.handed ==> Awaiting(conn)))
    && rt'.handed <= rt'.resolving.Keys
    && (Registered(conn) ==> conn.key in rt'.resolving && rt'.resolving[conn.key] == Some(c))
  }

  /** One connection and its router change. */
  lemma MoveInv(s: Sys, c: int, conn: Conn, rt: Router)
    requires Inv(s) && c in s.conns && s.conns[c].router in s.routers
    requires SameCard(s.conns[c], conn) && Local(conn) && conn.peerId <= ID_MAX
    requires Agreed(s.conns, conn)
    requires RouterMoves(s.routers[conn.router], rt, c, conn)
    ensures Inv(WithRouter(WithConn(s, c, conn), conn.router, rt))
  {
    var s' := WithRouter(WithConn(s, c, conn), conn.router, rt);
    var r := conn.router;
    assert ConnInv(s, c) && RouterInv(s, r);
    assert Extends(s.conns, s'.conns);
    PacketsStay(s.conns, s'.conns, s.net);
    hide Local, SameCard, Registered, InResolve, Awaiting, PacketInv;
    forall x | x in s'.conns ensures ConnInv(s', x) {
      assert x in s.conns && ConnInv(s, x);
      MoveConn(s, c, conn, rt, x);
    }
    forall q | q in s'.routers ensures RouterInv(s', q) {
      assert RouterInv(s, q);
      MoveRouter(s, c, conn, rt, q);
    }
  }

  lemma AgreedStays(a: map<int, Conn>, b: map<int, Conn>, conn: Conn)
    requires Extends(a, b) && Agreed(a, conn)
    ensures Agreed(b, conn)
  {
    if conn.met.Some? {
      var m := conn.met.value;
      assert m in a;
      assert m in b;
      assert SameCard(a[m], b[m]);
    }
  }

  lemma MoveConn(s: Sys, c: int, conn: Conn, rt: Router, x: int)
    requires c in s.conns && conn.router in s.routers && x in s.conns
    requires ConnInv(s, c) && ConnInv(s, x) && SameCard(s.conns[c], conn) && Local(conn) && conn.peerId <= ID_MAX
    requires Agreed(s.conns, conn) && RouterMoves(s.routers[conn.router], rt, c, conn)
    ensures ConnInv(WithRouter(WithConn(s, c, conn), conn.router, rt), x)
  { }

  lemma MoveRouter(s: Sys, c: int, conn: Conn, rt: Router, q: int)
    requires c in s.conns && conn.router in s.routers && q in s.routers
    requires RouterInv(s, q) && SameCard(s.conns[c], conn)
    requires RouterMoves(s.routers[conn.router], rt, c, conn)
    ensures RouterInv(WithRouter(WithConn(s, c, conn), conn.router, rt), q)
  { }

  // ---- every step keeps it ----

  /** The router need not change for a connection that leaves no queue it is in. */
  lemma Unmoved(s: Sys, c: int, conn: Conn)
    requires Inv(s) && c in s.conns && s.conns[c].router in s.routers && SameCard(s.conns[c], conn)
    requires conn.closed ==> s.conns[c].closed
    requires Registered(conn) ==> Registered(s.conns[c])
    requires InResolve(s.conns[c]) ==> InResolve(conn)
    requires Awaiting(s.conns[c]) ==> Awaiting(conn)
    ensures RouterMoves(s.routers[conn.router], s.routers[conn.router], c, conn)
  { }

  /** A connection that closes leaves the connection map, and no queue names it. */
  lemma Removed(s: Sys, c: int, conn: Conn, rt: Router)
    requires Inv(s) && c in s.conns && s.conns[c].router in s.routers
    requires Closed(s.conns[c], conn) && conn.router == s.conns[c].router
    requires var rt0 := s.routers[conn.router];
             && rt.conns == rt0.conns - {conn.selfId} && rt.handed == rt0.handed
             && ((rt.resolving == rt0.resolving && !InResolve(s.conns[c]))
                 || (Registered(s.conns[c]) && conn.key in rt0.resolving
                     && rt.resolving == rt0.resolving[conn.key := None]))
    ensures RouterMoves(s.routers[conn.router], rt, c, conn)
  { }

  lemma {:induction false} FireInv(s: Sys, c: int, t: int, late: bool, alloc: bool)
    requires Inv(s)
    ensures Inv(DoFire(s, c, t, late, alloc))
  {
    if c in s.conns && t in s.conns[c].pending && s.conns[c].router in s.routers {
      assert ConnInv(s, c);
      var conn := s.conns[c];
      var rt := s.routers[conn.router];
      hide Inv;
      if conn.pending[t].canceled {
        UnlinkCanceledOk(conn, t);
        var d := Unlink(conn, t);
        Unmoved(s, c, d);
        assert Agreed(s.conns, d);
        MoveInv(s, c, d, rt);
        SameRouter(s, c, d);
      } else {
        assert Live(conn, t);
        FireLive(s, c, t, late, alloc);
      }
    }
  }

  lemma SameRouter(s: Sys, c: int, conn: Conn)
    requires conn.router in s.routers
    ensures WithRouter(WithConn(s, c, conn), conn.router, s.routers[conn.router]) == WithConn(s, c, conn)
  { }

  lemma FireLive(s: Sys, c: int, t: int, late: bool, alloc: bool)
    requires Inv(s) && c in s.conns && s.conns[c].router in s.routers && Live(s.conns[c], t)
    ensures Inv(DoFire(s, c, t, late, alloc))
  {
    assert ConnInv(s, c);
    var conn := s.conns[c];
    var rt := s.routers[conn.router];
    var k := conn.pending[t].kind;
    var (d, rt') := Callback(Unlink(conn, t), rt, k, late, alloc);
    if k == OpenAsync {
      FireOpenAsync(s, c, t, alloc);
    } else if k == ResolveTimeout || k == DelayFailure || (k == Resend && late) {
      FireClosing(s, c, t, late, alloc);
    } else {
      FireEntering(s, c, t, late, alloc);
    }
    hide Inv, RouterMoves, Local, Callback;
    MoveInv(s, c, d, rt');
  }

  lemma FireOpenAsync(s: Sys, c: int, t: int, alloc: bool)
    requires Inv(s) && c in s.conns && s.conns[c].router in s.routers && Live(s.conns[c], t)
    requires s.conns[c].pending[t].kind == OpenAsync
    ensures Moves(s, c, Callback(Unlink(s.conns[c], t), s.routers[s.conns[c].router], OpenAsync, false, alloc))
  {
    assert ConnInv(s, c);
    var conn := s.conns[c];
    OpenAsyncOk(conn, t, alloc);
    var d := SetState(Unlink(conn, t), RESOLVE, alloc);
    var rt := s.routers[conn.router];
    assert RouterInv(s, conn.router);
    hide Registered, Awaiting, Local;
    forall k | k in rt.resolving && rt.resolving[k] == Some(c) ensures InResolve(d) { assert Queued(s, conn.router, k); }
  }

  /** What `MoveInv` asks for. */
  ghost predicate Moves(s: Sys, c: int, m: (Conn, Router))
    requires c in s.conns
  {
    && SameCard(s.conns[c], m.0) && Local(m.0) && m.0.peerId <= ID_MAX && Agreed(s.conns, m.0)
    && m.0.router in s.routers && RouterMoves(s.routers[m.0.router], m.1, c, m.0)
  }

  lemma FireClosing(s: Sys, c: int, t: int, late: bool, alloc: bool)
    requires Inv(s) && c in s.conns && s.conns[c].router in s.routers && Live(s.conns[c], t)
    requires var k := s.conns[c].pending[t].kind; k == ResolveTimeout || k == DelayFailure || (k == Resend && late)
    ensures Moves(s, c, Callback(Unlink(s.conns[c], t), s.routers[s.conns[c].router],
                                 s.conns[c].pending[t].kind, late, alloc))
  {
    assert ConnInv(s, c);
    var conn := s.conns[c];
    ClosingOk(conn, t);
    var rt := s.routers[conn.router];
    if conn.pending[t].kind != ResolveTimeout { NotInResolve(conn, t); }
    var (d, rt') := Callback(Unlink(conn, t), rt, conn.pending[t].kind, late, alloc);
    assert Closed(conn, d);
    Removed(s, c, d, rt');
  }

  lemma FireEntering(s: Sys, c: int, t: int, late: bool, alloc: bool)
    requires Inv(s) && c in s.conns && s.conns[c].router in s.routers && Live(s.conns[c], t)
    requires var k := s.conns[c].pending[t].kind; k == ReadyPing || k == DelaySuccess || (k == Resend && !late)
    ensures Moves(s, c, Callback(Unlink(s.conns[c], t), s.routers[s.conns[c].router],
                                 s.conns[c].pending[t].kind, late, alloc))
  {
    assert ConnInv(s, c);
    var conn := s.conns[c];
    NotInResolve(conn, t);
    if conn.pending[t].kind == Resend { ResendOk(conn, t, alloc); } else { EnterOk(conn, t, alloc); }
    var (d, rt) := Callback(Unlink(conn, t), s.routers[conn.router], conn.pending[t].kind, late, alloc);
    Unmoved(s, c, d);
  }

  /** A connection and its router make room for a new connection, with an id that is free. */
  function Added(s: Sys, conn: Conn, rt: Router): Sys {
    Sys(s.conns[s.next := conn], s.next + 1, s.routers[conn.router := rt], s.net)
  }

  ghost predicate RouterAdmits(rt: Router, rt': Router, c: int, conn: Conn) {
    && conn.selfId !in rt.conns && rt'.conns == rt.conns[conn.selfId := c] && rt'.handed == rt.handed
    && ((rt'.resolving == rt.resolving && !Registered(conn))
        || (conn.key !in rt.resolving && rt'.resolving == rt.resolving[conn.key := Some(c)] && InResolve(conn)))
  }

  lemma AddInv(s: Sys, conn: Conn, rt: Router)
    requires Inv(s) && conn.router in s.routers && Local(conn) && !conn.closed && conn.met == None
    requires conn.selfId <= ID_MAX && conn.peerId <= ID_MAX
    requires RouterAdmits(s.routers[conn.router], rt, s.next, conn)
    ensures Inv(Added(s, conn, rt))
  {
    var s' := Added(s, conn, rt);
    var n, r := s.next, conn.router;
    assert n in s.conns ==> ConnInv(s, n);
    assert Extends(s.conns, s'.conns);
    PacketsStay(s.conns, s'.conns, s.net);
    assert RouterInv(s, r);
    hide Local, SameCard, Registered, InResolve, Awaiting, PacketInv;
    forall x | x in s'.conns ensures ConnInv(s', x) {
      if x != n {
        assert ConnInv(s, x);
        AgreedStays(s.conns, s'.conns, s.conns[x]);
      }
    }
    forall q | q in s'.routers ensures RouterInv(s', q) {
      assert RouterInv(s, q);
      AddRouter(s, conn, rt, q);
    }
  }

  lemma AddRouter(s: Sys, conn: Conn, rt: Router, q: int)
    requires conn.router in s.routers && q in s.routers && RouterInv(s, q) && !conn.closed && s.next !in s.conns
    requires RouterInv(s, conn.router) && RouterAdmits(s.routers[conn.router], rt, s.next, conn)
    ensures RouterInv(Added(s, conn, rt), q)
  { }

  lemma NewOutgoing(r: int, id: nat, key: int)
    ensures var conn := ArmAsync(NewConn(r, false, id, key, -1), OpenAsync); Local(conn) && InResolve(conn)
  { }

  lemma NewIncoming(r: int, id: nat, src: int, peer: nat, alloc: bool)
    ensures var conn := Accepted(r, id, src, peer, alloc);
            && Local(conn) && !Registered(conn) && conn.state == CHAL && conn.incoming && !conn.closed
            && conn.peerId == peer && conn.selfId == id && conn.src == src && conn.router == r && conn.met == None
            && conn.hassend && conn.queued && conn.sequence == 0
  { }

  lemma {:induction false} OpenInv(s: Sys, r: int, id: nat, key: int)
    requires Inv(s)
    ensures Inv(DoOpen(s, r, id, key))
  {
    if DoOpen(s, r, id, key) != s {
      var conn := ArmAsync(NewConn(r, false, id, key, -1), OpenAsync);
      NewOutgoing(r, id, key);
      hide Inv, Local, InResolve, Registered;
      var rt := s.routers[r];
      AddInv(s, conn, rt.(conns := rt.conns[id := s.next], resolving := rt.resolving[key := Some(s.next)]));
    }
  }

  lemma ResolvedInv(s: Sys, r: int, key: int, src: int, err: bool, alloc: bool)
    requires Inv(s)
    ensures Inv(DoResolved(s, r, key, src, err, alloc))
  {
    if r in s.routers && key in s.routers[r].handed {
      var rt := s.routers[r];
      var rt' := rt.(handed := rt.handed - {key}, resolving := rt.resolving - {key});
      assert RouterInv(s, r);
      assert Queued(s, r, key);
      if rt.resolving[key].Some? {
        var c := rt.resolving[key].value;
        assert ConnInv(s, c);
        DelayOk(s.conns[c], src, err, alloc);
        var d := Delay(s.conns[c], src, err, alloc);
        hide Registered, InResolve, Awaiting, Local;
        forall k | k in rt.resolving && rt.resolving[k] == Some(c) ensures k == key { assert Queued(s, r, k); }
        assert RouterMoves(rt, rt', c, d);
        hide Inv, RouterMoves;
        MoveInv(s, c, d, rt');
      } else {
        DropKey(s, r, key);
      }
    }
  }

  /** A key without connection can go. */
  lemma DropKey(s: Sys, r: int, key: int)
    requires Inv(s) && r in s.routers && key in s.routers[r].resolving && s.routers[r].resolving[key] == None
    ensures var rt := s.routers[r];
            Inv(WithRouter(s, r, rt.(handed := rt.handed - {key}, resolving := rt.resolving - {key})))
  { }

  /** A connection changes and its router does not. */
  lemma ConnOnly(s: Sys, c: int, conn: Conn)
    requires Inv(s) && c in s.conns && SameCard(s.conns[c], conn) && Local(conn) && conn.peerId <= ID_MAX
    requires Agreed(s.conns, conn) && (conn.closed ==> s.conns[c].closed)
    requires Registered(conn) ==> Registered(s.conns[c])
    requires InResolve(s.conns[c]) ==> InResolve(conn)
    requires Awaiting(s.conns[c]) ==> Awaiting(conn)
    ensures Inv(WithConn(s, c, conn))
  {
    assert ConnInv(s, c);
    hide Inv, Local, Registered, InResolve, Awaiting;
    Unmoved(s, c, conn);
    MoveInv(s, c, conn, s.routers[conn.router]);
    SameRouter(s, c, conn);
  }

  lemma InvConn(s: Sys, c: int)
    requires Inv(s) && c in s.conns
    ensures ConnInv(s, c)
  { }

  /** Whatever `_tripc_send` answers, the connection is as it should be. */
  lemma Asked(s: Sys, c: int, active: bool, stay: bool)
    requires Inv(s) && c in s.conns && s.conns[c].queued
    ensures Inv(WithConn(s, c, Send(s.conns[c], active).(queued := stay)))
  {
    hide Inv, Local, Registered, InResolve, Awaiting;
    InvConn(s, c);
    SendOk(s.conns[c], active, stay);
    hide Send;
    ConnOnly(s, c, Send(s.conns[c], active).(queued := stay));
  }

  /** An honest packet of a connection in OPEN or CHAL is what the network may hold. */
  lemma Transmitted(s: Sys, c: int, sender: Sender, sign: P.Signer, active: bool, stay: bool)
    requires Inv(s) && c in s.conns && Honest(s, Transmit(c, sender, sign, active, stay))
    requires s.conns[c].state == OPEN || s.conns[c].state == CHAL
    ensures var conn := s.conns[c];
            PacketInv(s.conns, Packet(conn.router, conn.src, conn.state == CHAL, c, conn.peerId, sender, sign))
  { }

  lemma TransmitInv(s: Sys, c: int, sender: Sender, sign: P.Signer, active: bool, stay: bool)
    requires Inv(s) && Honest(s, Transmit(c, sender, sign, active, stay))
    ensures Inv(DoTransmit(s, c, sender, sign, active, stay))
  {
    hide Inv, Honest;
    if c in s.conns && s.conns[c].queued {
      Asked(s, c, active, stay);
      var conn := s.conns[c];
      if conn.state == OPEN || conn.state == CHAL {
        Transmitted(s, c, sender, sign, active, stay);
        var d := Send(conn, active).(queued := stay);
        Sent(WithConn(s, c, d), Packet(conn.router, conn.src, conn.state == CHAL, c, conn.peerId, sender, sign));
      }
    }
  }

  lemma Sent(s: Sys, p: Packet)
    requires Inv(s) && PacketInv(s.conns, p)
    ensures Inv(s.(net := s.net + [p]))
  { }

  lemma OtherInv(s: Sys, c: int, control: Control, ok: bool, alloc: bool)
    requires Inv(s)
    ensures Inv(DoOther(s, c, control, ok, alloc))
  {
    hide Inv, Local, InResolve, Registered, SetState;
    if c in s.conns && !s.conns[c].closed {
      InvConn(s, c);
      var conn := s.conns[c];
      var d := ReadOther(conn, control, ok, alloc);
      if conn.state == CHAL { FieldsOk(conn, true, true, conn.sequence); }
      FieldsOk(conn, conn.hassend, false, conn.sequence);
      if conn.state == RESOLVE {
        ErrorInResolveOk(conn);
      } else if conn.state == CHAL || conn.state == PING || conn.state == READY || conn.state == CLOSE {
        LateStatesLoose(conn);
        UpOk(conn, READY, alloc);
        UpOk(conn, CLOSE, alloc);
      }
      ConnOnly(s, c, d);
    }
  }

  /** What a receiver makes of the octets of an honest packet. */
  lemma WireParses(p: Packet)
    requires ValidSender(p.sender) && P.Signs(p.sign) && p.peer <= ID_MAX
    ensures var parsed := ParseSegment(Wire(p));
            if p.chal then
              parsed.Routed? && parsed.id == p.peer && ParseBody("oQnkIIIIO", parsed.rest) == Some(BodyOf(p.sender))
            else
              parsed.Opened? && parsed.body == BodyOf(p.sender)
  {
    hide ParseSegment, ParseBody, OpenOctets, ChalOctets;
    if p.chal { ChalReadBack(p.peer, p.sender, p.sign); } else { OpenReadBack(p.sender, p.sign); }
  }

  ghost predicate Genuine(p: Packet) {
    ValidSender(p.sender) && P.Signs(p.sign) && p.peer <= ID_MAX
  }

  lemma InvPacket(s: Sys, i: nat)
    requires Inv(s) && i < |s.net|
    ensures PacketInv(s.conns, s.net[i]) && Genuine(s.net[i])
  { }

  /** Delivering an OPEN: a new incoming connection, if it is let in and an id is free. */
  lemma {:induction false} DeliverOpenEffect(s: Sys, i: nat, accept: bool, id: nat, alloc: bool)
    requires i < |s.net| && Genuine(s.net[i]) && !s.net[i].chal && s.net[i].to in s.routers
    ensures var p, rt := s.net[i], s.routers[s.net[i].to];
            DoDeliver(s, i, accept, id, alloc) ==
            if accept && id <= ID_MAX && id !in rt.conns then
              Added(s, Accepted(p.to, id, p.from, p.sender.id, alloc), rt.(conns := rt.conns[id := s.next]))
            else s
  {
    hide ParseSegment, Wire, Accepted;
    WireParses(s.net[i]);
    NewIncoming(s.net[i].to, id, s.net[i].from, s.net[i].sender.id, alloc);
  }

  /** Delivering a CHALLENGE: the connection it is for reads it. */
  lemma {:induction false} DeliverChalEffect(s: Sys, i: nat, accept: bool, id: nat, alloc: bool)
    requires i < |s.net| && Genuine(s.net[i]) && s.net[i].chal && s.net[i].to in s.routers
    ensures var p, rt := s.net[i], s.routers[s.net[i].to];
            DoDeliver(s, i, accept, id, alloc) ==
            if p.peer in rt.conns && rt.conns[p.peer] in s.conns then
              WithConn(s, rt.conns[p.peer], Challenged(s.conns[rt.conns[p.peer]], p.sender.id, p.origin, alloc))
            else s
  {
    hide ParseSegment, Wire, ParseBody, SetState, Read, Challenged;
    var p, rt := s.net[i], s.routers[s.net[i].to];
    WireParses(p);
    var rest := ParseSegment(Wire(p)).rest;
    if p.peer in rt.conns && rt.conns[p.peer] in s.conns {
      ReadsChallenge(s.conns[rt.conns[p.peer]], rest, p.sender, p.origin, alloc);
    }
  }

  lemma ReadsChallenge(conn: Conn, rest: seq<O.Octet>, sender: Sender, origin: int, alloc: bool)
    requires ParseBody("oQnkIIIIO", rest) == Some(BodyOf(sender))
    ensures Read(conn, rest, origin, alloc) == Challenged(conn, sender.id, origin, alloc)
  {
    hide ParseBody, SetState;
  }

  /** What a CHALLENGE does to the connection that reads it. */
  function Challenged(conn: Conn, peer: nat, origin: int, alloc: bool): Conn {
    match conn.state
    case OPEN => SetState(conn.(peerId := peer, met := Some(origin)), PING, alloc)
    case RESOLVE => SetError(conn)
    case _ => conn
  }

  lemma {:induction false} DeliverInv(s: Sys, i: nat, accept: bool, id: nat, alloc: bool)
    requires Inv(s)
    ensures Inv(DoDeliver(s, i, accept, id, alloc))
  {
    if i < |s.net| && s.net[i].to in s.routers {
      var p := s.net[i];
      assert PacketInv(s.conns, p);
      if p.chal {
        DeliverChalEffect(s, i, accept, id, alloc);
        DeliverChal(s, p, alloc);
      } else {
        DeliverOpenEffect(s, i, accept, id, alloc);
        NewIncoming(p.to, id, p.from, p.sender.id, alloc);
        var conn := Accepted(p.to, id, p.from, p.sender.id, alloc);
        var rt := s.routers[p.to];
        hide Inv, Local, Registered, InResolve, Accepted, DoDeliver;
        if accept && id <= ID_MAX && id !in rt.conns {
          AddInv(s, conn, rt.(conns := rt.conns[id := s.next]));
        }
      }
    }
  }

  /** A CHALLENGE reaches the connection it is for. */
  lemma {:induction false} DeliverChal(s: Sys, p: Packet, alloc: bool)
    requires Inv(s) && PacketInv(s.conns, p) && p.chal && p.to in s.routers
    ensures var rt := s.routers[p.to];
            p.peer in rt.conns ==>
              && rt.conns[p.peer] in s.conns
              && Inv(WithConn(s, rt.conns[p.peer],
                              Challenged(s.conns[rt.conns[p.peer]], p.sender.id, p.origin, alloc)))
  {
    var rt := s.routers[p.to];
    if p.peer in rt.conns {
      assert RouterInv(s, p.to);
      assert Known(s, p.to, p.peer);
      var c := rt.conns[p.peer];
      var conn := s.conns[c];
      assert ConnInv(s, c);
      var d := Challenged(conn, p.sender.id, p.origin, alloc);
      if conn.state == OPEN {
        MeetOk(conn, p.sender.id, p.origin, alloc);
        LateStatesLoose(conn);
      } else if conn.state == RESOLVE {
        ErrorInResolveOk(conn);
      }
      hide Inv, Local, Registered, InResolve, SetState;
      ConnOnly(s, c, d);
    }
  }

  /** Every honest step keeps the invariant. */
  lemma {:induction false} NextInv(s: Sys, step: Step)
    requires Inv(s) && Honest(s, step)
    ensures Inv(Next(s, step))
  {
    hide Inv;
    match step
    case OpenConnection(r, id, key) => OpenInv(s, r, id, key);
    case Fire(c, t, late, alloc) => FireInv(s, c, t, late, alloc);
    case Resolved(r, key, src, err, alloc) => ResolvedInv(s, r, key, src, err, alloc);
    case Transmit(c, sender, sign, active, stay) => TransmitInv(s, c, sender, sign, active, stay);
    case Deliver(i, accept, id, alloc) => DeliverInv(s, i, accept, id, alloc);
    case Other(c, control, ok, alloc) => OtherInv(s, c, control, ok, alloc);
  }

  lemma {:induction false} RunInv(routers: set<int>, steps: seq<Step>)
    requires HonestRun(routers, steps)
    ensures Inv(Run(routers, steps))
  {
    if steps != [] {
      hide Inv, Next, Honest;
      RunInv(routers, steps[..|steps| - 1]);
      NextInv(Run(routers, steps[..|steps| - 1]), steps[|steps| - 1]);
    }
  }

  // ---- what it means ----

  /** An outgoing connection that is past OPEN, or was when it closed. */
  predicate LeftOpen(conn: Conn) {
    && !conn.incoming
    && (conn.met.Some? || (!conn.closed && (conn.state == PING || conn.state == READY || conn.state == CLOSE)))
  }

  /** Handshake agreement: in every honest run, an outgoing connection that has left OPEN for PING has as
      its peer id the id of an incoming connection that was created, whose peer id in turn is its own id
      and which answers to its router. */
  lemma {:induction false} HandshakeAgreement(routers: set<int>, steps: seq<Step>, c: int)
    requires HonestRun(routers, steps) && c in Run(routers, steps).conns && LeftOpen(Run(routers, steps).conns[c])
    ensures var conns := Run(routers, steps).conns;
            exists d :: d in conns && conns[d].incoming && conns[d].selfId == conns[c].peerId
                        && conns[d].peerId == conns[c].selfId && conns[d].src == conns[c].router
  {
    hide Run, Inv;
    RunInv(routers, steps);
    var d := Partner(Run(routers, steps), c);
  }

  /** The incoming connection an outgoing one has met. */
  lemma Partner(s: Sys, c: int) returns (d: int)
    requires Inv(s) && c in s.conns && LeftOpen(s.conns[c])
    ensures d in s.conns && s.conns[d].incoming && s.conns[d].selfId == s.conns[c].peerId
    ensures s.conns[d].peerId == s.conns[c].selfId && s.conns[d].src == s.conns[c].router
  {
    hide TimersOk;
    assert ConnInv(s, c);
    d := s.conns[c].met.value;
  }

  /** Role separation, in every honest run. */
  lemma {:induction false} RolesStayApart(routers: set<int>, steps: seq<Step>, c: int)
    requires HonestRun(routers, steps) && c in Run(routers, steps).conns
    ensures var conn := Run(routers, steps).conns[c];
            if conn.incoming then conn.state != RESOLVE && conn.state != OPEN else conn.state != CHAL
  {
    hide Run, TimersOk;
    RunInv(routers, steps);
    assert ConnInv(Run(routers, steps), c);
  }

  /** One live state timer, in every honest run: at most one timer is live for a connection, none once it
      is closed, and a live state timer is the one the connection remembers. It was armed in another
      state than the present one if and only if that was RESOLVE or CLOSE and the present one is ERROR. */
  lemma {:induction false} OneStateTimer(routers: set<int>, steps: seq<Step>, c: int, t: int)
    requires HonestRun(routers, steps) && c in Run(routers, steps).conns && Live(Run(routers, steps).conns[c], t)
    ensures var conn := Run(routers, steps).conns[c];
            && !conn.closed && (forall u :: Live(conn, u) ==> u == t)
            && (IsStateKind(conn.pending[t].kind) ==>
                  && conn.statetimer == Some(t)
                  && (conn.pending[t].armedIn != conn.state <==>
                        conn.state == ERROR && (conn.pending[t].armedIn == RESOLVE || conn.pending[t].armedIn == CLOSE)))
  {
    hide Run;
    RunInv(routers, steps);
    assert ConnInv(Run(routers, steps), c);
    assert LiveOk(Run(routers, steps).conns[c], t);
  }

  // ---- ERROR is not final ----

  /** The timers that lead out of ERROR: an address found before the error was noticed, and the timer of
      CLOSE. */
  predicate LeadsOut(conn: Conn, t: int) {
    Live(conn, t) && (conn.pending[t].kind == DelaySuccess || conn.pending[t].kind == ReadyPing)
  }

  /** A step takes a connection out of ERROR if and only if it fires one of those timers. */
  lemma {:induction false} LeavesError(s: Sys, step: Step, c: int)
    requires Inv(s) && c in s.conns && s.conns[c].state == ERROR
    ensures c in Next(s, step).conns
    ensures Next(s, step).conns[c].state != ERROR <==>
              step.Fire? && step.c == c && LeadsOut(s.conns[c], step.t)
  {
    hide Inv, DoOpen, DoFire, DoResolved, DoTransmit, DoDeliver, DoOther;
    match step
    case OpenConnection(r, id, key) => OpenInError(s, r, id, key, c);
    case Fire(d, t, late, alloc) => FireAnyInError(s, d, t, late, alloc, c);
    case Resolved(r, key, src, err, alloc) => ResolvedInError(s, r, key, src, err, alloc, c);
    case Transmit(d, sender, sign, active, stay) => TransmitInError(s, d, sender, sign, active, stay, c);
    case Deliver(i, accept, id, alloc) => DeliverInError(s, i, accept, id, alloc, c);
    case Other(d, control, ok, alloc) => OtherInError(s, d, control, ok, alloc, c);
  }

  /** Connection `c` is there and in ERROR. */
  predicate InError(s: Sys, c: int) {
    c in s.conns && s.conns[c].state == ERROR
  }

  lemma OpenInError(s: Sys, r: int, id: nat, key: int, c: int)
    requires Inv(s) && InError(s, c)
    ensures InError(DoOpen(s, r, id, key), c)
  {
    InvConn(s, c);
  }

  lemma ResolvedInError(s: Sys, r: int, key: int, src: int, err: bool, alloc: bool, c: int)
    requires InError(s, c)
    ensures InError(DoResolved(s, r, key, src, err, alloc), c)
  { }

  lemma TransmitInError(s: Sys, d: int, sender: Sender, sign: P.Signer, active: bool, stay: bool, c: int)
    requires InError(s, c)
    ensures InError(DoTransmit(s, d, sender, sign, active, stay), c)
  { }

  lemma OtherInError(s: Sys, d: int, control: Control, ok: bool, alloc: bool, c: int)
    requires InError(s, c)
    ensures InError(DoOther(s, d, control, ok, alloc), c)
  { }

  lemma FireAnyInError(s: Sys, d: int, t: int, late: bool, alloc: bool, c: int)
    requires Inv(s) && InError(s, c)
    ensures c in DoFire(s, d, t, late, alloc).conns
    ensures InError(DoFire(s, d, t, late, alloc), c) <==> !(d == c && LeadsOut(s.conns[c], t))
  {
    InvConn(s, c);
    hide Inv, Callback;
    if d == c && Live(s.conns[c], t) { FireInError(s.conns[c], s.routers[s.conns[c].router], t, late, alloc); }
  }

  lemma FireInError(conn: Conn, rt: Router, t: int, late: bool, alloc: bool)
    requires Local(conn) && conn.state == ERROR && Live(conn, t)
    ensures Callback(Unlink(conn, t), rt, conn.pending[t].kind, late, alloc).0.state != ERROR <==> LeadsOut(conn, t)
  {
    assert LiveOk(conn, t);
  }

  lemma {:induction false} DeliverInError(s: Sys, i: nat, accept: bool, id: nat, alloc: bool, c: int)
    requires Inv(s) && InError(s, c)
    ensures InError(DoDeliver(s, i, accept, id, alloc), c)
  {
    if i < |s.net| && s.net[i].to in s.routers {
      assert PacketInv(s.conns, s.net[i]) && ConnInv(s, c);
      hide Inv, DoDeliver, SetState, Accepted, Local;
      if s.net[i].chal {
        DeliverChalEffect(s, i, accept, id, alloc);
      } else {
        DeliverOpenEffect(s, i, accept, id, alloc);
      }
    }
  }

  /** Out through RESOLVE: a packet arrives while the address is being looked for, which is an error; then
      the address is found and the connection opens after all. */
  lemma ErrorThenOpen(s: Sys, c: int, control: Control, src: int, late: bool, alloc: bool)
    requires Inv(s) && c in s.conns && s.conns[c].state == RESOLVE
    requires var conn := s.conns[c];
             && conn.router in s.routers && conn.key in s.routers[conn.router].handed
             && conn.key in s.routers[conn.router].resolving && s.routers[conn.router].resolving[conn.key] == Some(c)
    ensures var conn := s.conns[c];
            var s1 := Next(s, Other(c, control, true, true));
            var s2 := Next(s1, Resolved(conn.router, conn.key, src, false, true));
            var s3 := Next(s2, Fire(c, conn.next, late, alloc));
            && c in s1.conns && s1.conns[c].state == ERROR
            && c in s2.conns && s2.conns[c].state == ERROR && LeadsOut(s2.conns[c], conn.next)
            && c in s3.conns && s3.conns[c].state == OPEN
  {
    hide DoOther, DoResolved, DoTransmit, DoFire, Inv, LeadsOut;
    ResolvedLate(s, c, control, src, late, alloc);
  }

  lemma ResolvedLate(s: Sys, c: int, control: Control, src: int, late: bool, alloc: bool)
    requires Inv(s) && c in s.conns && s.conns[c].state == RESOLVE
    requires var conn := s.conns[c];
             && conn.router in s.routers && conn.key in s.routers[conn.router].handed
             && conn.key in s.routers[conn.router].resolving && s.routers[conn.router].resolving[conn.key] == Some(c)
    ensures var conn := s.conns[c];
            var s1 := DoOther(s, c, control, true, true);
            var s2 := DoResolved(s1, conn.router, conn.key, src, false, true);
            var s3 := DoFire(s2, c, conn.next, late, alloc);
            && c in s1.conns && s1.conns[c].state == ERROR
            && c in s2.conns && s2.conns[c].state == ERROR && LeadsOut(s2.conns[c], conn.next)
            && c in s3.conns && s3.conns[c].state == OPEN
  {
    var conn := s.conns[c];
    assert RouterInv(s, conn.router) && Queued(s, conn.router, conn.key);
    ResolvePath(conn, src, alloc);
    hide Inv, RouterInv, SetState, SetError, Delay, Unlink;
    var s1 := DoOther(s, c, control, true, true);
    assert s1.conns[c] == SetError(conn) && s1.routers == s.routers;
    var s2 := DoResolved(s1, conn.router, conn.key, src, false, true);
    assert s2.conns[c] == Delay(SetError(conn), src, false, true);
  }

  lemma ResolvePath(conn: Conn, src: int, alloc: bool)
    requires conn.state == RESOLVE
    ensures var t := conn.next;
            var a := SetError(conn);
            var b := Delay(a, src, false, true);
            && a.state == ERROR && b.state == ERROR && a.router == b.router == conn.router
            && t in b.pending && b.pending[t] == Pending(DelaySuccess, false, ERROR)
            && SetState(Unlink(b, t), OPEN, alloc).state == OPEN
  { }

  /** Out through CLOSE: the peer disconnects while a packet is still to be sent, which is an error then;
      the timer of CLOSE lives on, armed in another state than the present one, and leads to PING. */
  lemma ErrorThenPing(s: Sys, c: int, sender: Sender, sign: P.Signer, active: bool, stay: bool, late: bool, alloc: bool)
    requires Inv(s) && c in s.conns && s.conns[c].queued && (s.conns[c].state == PING || s.conns[c].state == READY)
    ensures var t := s.conns[c].next;
            var s1 := Next(s, Other(c, DISC, true, true));
            var s2 := Next(s1, Transmit(c, sender, sign, active, stay));
            var s3 := Next(s2, Fire(c, t, late, alloc));
            && c in s1.conns && s1.conns[c].state == CLOSE
            && c in s2.conns && s2.conns[c].state == ERROR && LeadsOut(s2.conns[c], t)
            && s2.conns[c].pending[t].armedIn == CLOSE
            && c in s3.conns && s3.conns[c].state == PING
  {
    hide DoOther, DoResolved, DoTransmit, DoFire, Inv, LeadsOut;
    DisconnectedThenSent(s, c, sender, sign, active, stay, late, alloc);
  }

  lemma DisconnectedThenSent(s: Sys, c: int, sender: Sender, sign: P.Signer, active: bool, stay: bool, late: bool, alloc: bool)
    requires Inv(s) && c in s.conns && s.conns[c].queued && (s.conns[c].state == PING || s.conns[c].state == READY)
    ensures var t := s.conns[c].next;
            var s1 := DoOther(s, c, DISC, true, true);
            var s2 := DoTransmit(s1, c, sender, sign, active, stay);
            var s3 := DoFire(s2, c, t, late, alloc);
            && c in s1.conns && s1.conns[c].state == CLOSE
            && c in s2.conns && s2.conns[c].state == ERROR && LeadsOut(s2.conns[c], t)
            && s2.conns[c].pending[t].armedIn == CLOSE
            && c in s3.conns && s3.conns[c].state == PING
  {
    var conn := s.conns[c];
    InvConn(s, c);
    NotWaiting(conn);
    ClosePath(conn, active, stay, alloc);
    hide Inv, SetState, Send, Unlink, Local;
    var a := SetState(conn, CLOSE, true);
    var s1 := DoOther(s, c, DISC, true, true);
    assert s1.conns[c] == a && s1.routers == s.routers;
    var s2 := DoTransmit(s1, c, sender, sign, active, stay);
    assert s2.conns[c] == Send(a, active).(queued := stay) && s2.routers == s.routers;
  }

  lemma ClosePath(conn: Conn, active: bool, stay: bool, alloc: bool)
    requires !conn.closed && conn.queued && (conn.state == PING || conn.state == READY)
    ensures var t := conn.next;
            var a := SetState(conn, CLOSE, true);
            var b := Send(a, active).(queued := stay);
            && a.state == CLOSE && a.queued && !a.closed && b.state == ERROR && b.router == conn.router
            && t in b.pending && b.pending[t] == Pending(ReadyPing, false, CLOSE)
            && SetState(Unlink(b, t), PING, alloc).state == PING
  { }

  /** Agreement is not one to one: the same OPEN delivered twice makes two incoming connections. */
  lemma {:induction false} DuplicateOpens(s: Sys, i: nat, id: nat, id': nat, alloc: bool)
    requires Inv(s) && i < |s.net| && !s.net[i].chal && s.net[i].to in s.routers
    requires id <= ID_MAX && id' <= ID_MAX && id != id'
    requires id !in s.routers[s.net[i].to].conns && id' !in s.routers[s.net[i].to].conns
    ensures var s2 := DoDeliver(DoDeliver(s, i, true, id, alloc), i, true, id', alloc);
            var (c, d) := (s.next, s.next + 1);
            && c in s2.conns && d in s2.conns && s2.conns[c].incoming && s2.conns[d].incoming
            && s2.conns[c].peerId == s2.conns[d].peerId == s.net[i].sender.id
            && s2.conns[c].selfId == id && s2.conns[d].selfId == id'
  {
    hide Inv, DoDeliver, Accepted, Local, Registered, Genuine;
    InvPacket(s, i);
    var p := s.net[i];
    NewIncoming(p.to, id, p.from, p.sender.id, alloc);
    NewIncoming(p.to, id', p.from, p.sender.id, alloc);
    DeliverOpenEffect(s, i, true, id, alloc);
    DeliverOpenEffect(DoDeliver(s, i, true, id, alloc), i, true, id', alloc);
  }

  // ---- and that it happens ----

  /** The states a new outgoing connection goes through when its timers fire and its address is found. */
  lemma OutgoingPath(r: int, id: nat, key: int, src: int)
    ensures var a := ArmAsync(NewConn(r, false, id, key, -1), OpenAsync);
            var b := SetState(Unlink(a, 0), RESOLVE, true);
            var c := Delay(b, src, false, true);
            var d := SetState(Unlink(c, 2), OPEN, true);
            && 0 in a.pending && a.pending[0] == Pending(OpenAsync, false, START) && a.state == START
            && 2 in c.pending && c.pending[2] == Pending(DelaySuccess, false, RESOLVE)
            && a.key == b.key == c.key == d.key == key && a.router == b.router == c.router == d.router == r
            && d.state == OPEN && d.hassend && d.queued && !d.closed && d.selfId == id && d.src == src && d.sequence == 0
  { }

  /** From any reachable state, a free id and a free key, a connection can be opened up to OPEN. */
  lemma ReachesOpen(s: Sys, r: int, id: nat, key: int, src: int)
    requires Inv(s) && r in s.routers && id <= ID_MAX
    requires id !in s.routers[r].conns && key !in s.routers[r].resolving
    ensures var c := s.next;
            var s1 := DoOpen(s, r, id, key);
            var s2 := DoFire(s1, c, 0, false, true);
            var s3 := DoResolved(s2, r, key, src, false, true);
            var s4 := DoFire(s3, c, 2, false, true);
            && c in s4.conns && s4.conns[c].state == OPEN && s4.conns[c].hassend && s4.conns[c].queued
            && !s4.conns[c].closed
            && s4.conns[c].selfId == id && s4.conns[c].src == src && s4.conns[c].router == r
            && s4.conns[c].sequence == 0
            && s4.net == s.net && s4.next == c + 1 && s4.routers.Keys == s.routers.Keys
            && (forall q :: q in s.routers ==>
                  s4.routers[q].conns == if q == r then s.routers[q].conns[id := c] else s.routers[q].conns)
  {
    var c, rt := s.next, s.routers[r];
    OutgoingPath(r, id, key, src);
    var a := ArmAsync(NewConn(r, false, id, key, -1), OpenAsync);
    var b := SetState(Unlink(a, 0), RESOLVE, true);
    var d := Delay(b, src, false, true);
    hide Inv, SetState, Unlink, Delay, ArmAsync, NewConn;
    var s1 := DoOpen(s, r, id, key);
    assert s1.conns[c] == a && s1.routers[r].conns == rt.conns[id := c];
    assert s1.routers[r].resolving == rt.resolving[key := Some(c)];
    var s2 := DoFire(s1, c, 0, false, true);
    assert s2.conns[c] == b && s2.routers[r] == s1.routers[r].(handed := s1.routers[r].handed + {key});
    var s3 := DoResolved(s2, r, key, src, false, true);
    assert s3.conns[c] == d && s3.routers[r].conns == rt.conns[id := c];
  }

  /** An OPEN and the CHALLENGE that answers it, both delivered. */
  function Exchange(s: Sys, c: int, id: nat, sender: Sender, answer: Sender, sign: P.Signer, alloc: bool): Sys {
    var s1 := DoDeliver(DoTransmit(s, c, sender, sign, false, false), |s.net|, true, id, alloc);
    DoDeliver(DoTransmit(s1, s.next, answer, sign, false, false), |s.net| + 1, true, 0, alloc)
  }

  /** A connection in OPEN that its router knows, for which the addressed router has an id left. */
  predicate CanExchange(s: Sys, c: int, id: nat) {
    && c in s.conns && id <= ID_MAX
    && var conn := s.conns[c];
       && conn.state == OPEN && conn.hassend && conn.queued && !conn.closed
       && conn.src in s.routers && id !in s.routers[conn.src].conns
       && conn.router in s.routers && conn.selfId in s.routers[conn.router].conns
       && s.routers[conn.router].conns[conn.selfId] == c
  }

  /** The first half: the OPEN is sent and delivered. */
  lemma {:induction false} OpenArrives(s: Sys, c: int, id: nat, sender: Sender, sign: P.Signer, alloc: bool)
    requires Inv(s) && CanExchange(s, c, id) && P.Signs(sign) && ValidSender(sender)
    ensures var s1 := DoDeliver(DoTransmit(s, c, sender, sign, false, false), |s.net|, true, id, alloc);
            var conn := s.conns[c];
            && c != s.next && c in s1.conns && s1.conns[c] == Counted(conn).(queued := false)
            && s.next in s1.conns && s1.conns[s.next] == Accepted(conn.src, id, conn.router, sender.id, alloc)
            && conn.router in s1.routers && conn.selfId in s1.routers[conn.router].conns
            && s1.routers[conn.router].conns[conn.selfId] == c && |s1.net| == |s.net| + 1
  {
    InvConn(s, c);
    hide Inv, Local, DoDeliver, Accepted;
    var conn := s.conns[c];
    NewIncoming(conn.src, id, conn.router, sender.id, alloc);
    var s1 := DoTransmit(s, c, sender, sign, false, false);
    assert s1.net[|s.net|] == Packet(conn.router, conn.src, false, c, conn.peerId, sender, sign);
    DeliverOpenEffect(s1, |s.net|, true, id, alloc);
  }

  /** The second half: the CHALLENGE is sent and delivered. */
  lemma {:induction false} ChallengeArrives(s: Sys, c: int, d: int, answer: Sender, sign: P.Signer, alloc: bool)
    requires P.Signs(sign) && ValidSender(answer) && c != d && c in s.conns && d in s.conns
    requires s.conns[d].state == CHAL && s.conns[d].hassend && s.conns[d].queued && !s.conns[d].closed
    requires s.conns[d].src in s.routers && s.conns[d].peerId <= ID_MAX && s.conns[c].state == OPEN
    requires var rt := s.routers[s.conns[d].src]; s.conns[d].peerId in rt.conns && rt.conns[s.conns[d].peerId] == c
    ensures var s1 := DoDeliver(DoTransmit(s, d, answer, sign, false, false), |s.net|, true, 0, alloc);
            && c in s1.conns && s1.conns[c] == Challenged(s.conns[c], answer.id, d, alloc)
            && d in s1.conns && s1.conns[d] == Counted(s.conns[d]).(queued := false)
  {
    hide DoDeliver, Challenged;
    var conn := s.conns[d];
    var s1 := DoTransmit(s, d, answer, sign, false, false);
    assert s1.net[|s.net|] == Packet(conn.router, conn.src, true, d, conn.peerId, answer, sign);
    DeliverChalEffect(s1, |s.net|, true, 0, alloc);
  }

  /** From any reachable state with a connection in OPEN, if its OPEN and the CHALLENGE to it are delivered
      and let in, both ends know each other. */
  lemma {:induction false} ExchangeCompletes(s: Sys, c: int, id: nat, sender: Sender, answer: Sender,
                                             sign: P.Signer, alloc: bool)
    requires Inv(s) && CanExchange(s, c, id) && P.Signs(sign) && ValidSender(sender) && ValidSender(answer)
    requires sender.id == s.conns[c].selfId && answer.id == id
    ensures var s', d := Exchange(s, c, id, sender, answer, sign, alloc), s.next;
            && c in s'.conns && d in s'.conns
            && s'.conns[c].state == PING && s'.conns[c].peerId == id == s'.conns[d].selfId
            && s'.conns[d].state == CHAL && s'.conns[d].peerId == s'.conns[c].selfId == s.conns[c].selfId
            && s'.conns[c].router == s.conns[c].router && s'.conns[d].router == s.conns[c].src
  {
    hide Inv, DoDeliver, DoTransmit, Local;
    var conn := s.conns[c];
    var s1 := DoDeliver(DoTransmit(s, c, sender, sign, false, false), |s.net|, true, id, alloc);
    NewIncoming(conn.src, id, conn.router, sender.id, alloc);
    OpenArrives(s, c, id, sender, sign, alloc);
    ChallengeArrives(s1, c, s.next, answer, sign, alloc);
    Meets(Counted(conn).(queued := false), id, s.next, alloc);
  }

  lemma Meets(conn: Conn, peer: nat, origin: int, alloc: bool)
    requires conn.state == OPEN
    ensures var d := Challenged(conn, peer, origin, alloc);
            d.state == PING && d.peerId == peer && d.selfId == conn.selfId && d.router == conn.router
  { }
}
