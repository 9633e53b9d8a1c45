/** What the steps of the handshake do, beyond keeping its invariant: that a resend sends, that a failed
    resolution fails, what every callback, every call for a packet and every segment leads to, and that a
    new connection can be brought through the whole handshake at the end of any run. */
module Effects {
  import opened Options
  import opened Connection
  import opened Segment
  import opened Handshake
  import P = Pack
  import O = Octets

  // ---- callbacks that go on ----

  /** A live timer of one connection. */
  ghost predicate Fires(s: Sys, c: int, t: int, k: Kind) {
    Inv(s) && c in s.conns && Live(s.conns[c], t) && s.conns[c].pending[t].kind == k
  }

  lemma FiresLocal(s: Sys, c: int, t: int, k: Kind)
    requires Fires(s, c, t, k)
    ensures s.conns[c].router in s.routers && Local(s.conns[c]) && LiveOk(s.conns[c], t)
    ensures t < s.conns[c].next && !s.conns[c].closed
  {
    assert ConnInv(s, c);
  }

  /** A resend in time has the connection sent again, in the same state, and comes again if there is memory. */
  lemma ResendQueues(s: Sys, c: int, t: int, alloc: bool)
    requires Fires(s, c, t, Resend)
    ensures var s1, conn := DoFire(s, c, t, false, alloc), s.conns[c];
            && c in s1.conns && s1.conns[c].hassend && s1.conns[c].queued
            && s1.conns[c].state == conn.state && s1.conns[c].sequence == conn.sequence
            && s1.conns[c].peerId == conn.peerId && s1.conns[c].src == conn.src && s1.conns[c].router == conn.router
            && s1.conns[c].selfId == conn.selfId && !s1.conns[c].closed && s1.net == s.net
            && (alloc ==> Live(s1.conns[c], conn.next) && s1.conns[c].pending[conn.next].kind == Resend)
  {
    FiresLocal(s, c, t, Resend);
    hide Inv, Local, LiveOk;
  }

  /** So an OPEN that was lost is sent again: the timer fires in time, and the next call for a packet puts
      the connection's OPEN on the network and counts it. */
  lemma ResendSends(s: Sys, c: int, t: int, alloc: bool, sender: Sender, sign: P.Signer, active: bool, stay: bool)
    requires Fires(s, c, t, Resend) && s.conns[c].state == OPEN
    ensures var conn := s.conns[c];
            var s2 := DoTransmit(DoFire(s, c, t, false, alloc), c, sender, sign, active, stay);
            && s2.net == s.net + [Packet(conn.router, conn.src, false, c, conn.peerId, sender, sign)]
            && c in s2.conns && s2.conns[c].state == OPEN && s2.conns[c].sequence == conn.sequence + 1
            && (alloc ==> Live(s2.conns[c], conn.next) && s2.conns[c].pending[conn.next].kind == Resend)
  {
    hide Fires, DoFire;
    ResendQueues(s, c, t, alloc);
  }

  /** The other callbacks that go on: resolving begins and the packet interface gets the key, a found
      address opens, a quiet connection pings. */
  lemma Proceeds(s: Sys, c: int, t: int, k: Kind, late: bool, alloc: bool)
    requires Fires(s, c, t, k) && (k == OpenAsync || k == DelaySuccess || k == ReadyPing)
    ensures var s1, conn := DoFire(s, c, t, late, alloc), s.conns[c];
            var to := if k == OpenAsync then RESOLVE else if k == DelaySuccess then OPEN else PING;
            var timer := if k == OpenAsync then ResolveTimeout else Resend;
            && c in s1.conns && conn.router in s1.routers && s1.conns[c].state == to && !s1.conns[c].closed
            && (to != RESOLVE ==> s1.conns[c].hassend && s1.conns[c].queued)
            && s1.conns[c].src == conn.src && s1.conns[c].peerId == conn.peerId
            && (alloc ==> Live(s1.conns[c], conn.next) && s1.conns[c].pending[conn.next] == Pending(timer, false, to))
            && s1.routers[conn.router] == s.routers[conn.router].(handed :=
                 s.routers[conn.router].handed + if k == OpenAsync then {conn.key} else {})
  {
    FiresLocal(s, c, t, k);
    var to := if k == OpenAsync then RESOLVE else if k == DelaySuccess then OPEN else PING;
    StateEntered(Unlink(s.conns[c], t), to, alloc);
    StateTimed(Unlink(s.conns[c], t), to, alloc, if k == OpenAsync then ResolveTimeout else Resend);
    hide Inv, Local, SetState, TimersOk;
  }

  /** Starting a connection that is past START is an error. */
  lemma StartsOnce(conn: Conn, rt: Router, late: bool, alloc: bool)
    requires conn.state != START
    ensures Callback(conn, rt, OpenAsync, late, alloc).0.state == ERROR
  { }

  /** An entry that was cancelled is dropped, and that is all. */
  lemma CancelledDropped(s: Sys, c: int, t: int, late: bool, alloc: bool)
    requires Inv(s) && c in s.conns && t in s.conns[c].pending && s.conns[c].pending[t].canceled
    ensures var s1 := DoFire(s, c, t, late, alloc);
            s1 == s.(conns := s.conns[c := s.conns[c].(pending := s.conns[c].pending - {t})])
  {
    assert ConnInv(s, c);
  }

  // ---- callbacks that give up ----

  /** The callbacks that end a connection. */
  predicate Ends(k: Kind, late: bool) {
    k == ResolveTimeout || k == DelayFailure || (k == Resend && late)
  }

  /** The connection is closed in ERROR with no timer and nothing to send, it and only it leaves the
      connection map of its router, and the key of one that was still being resolved keeps its place in
      the resolve queue but names nothing any more. */
  lemma GivesUp(s: Sys, c: int, t: int, k: Kind, late: bool, alloc: bool)
    requires Fires(s, c, t, k) && Ends(k, late)
    ensures var s1, conn := DoFire(s, c, t, late, alloc), s.conns[c];
            && c in s1.conns && s1.conns[c].closed && s1.conns[c].state == ERROR && !s1.conns[c].queued
            && (forall u :: !Live(s1.conns[c], u)) && s1.net == s.net
    ensures var s1, conn := DoFire(s, c, t, late, alloc), s.conns[c];
            && conn.router in s1.routers
            && s1.routers[conn.router].conns == s.routers[conn.router].conns - {conn.selfId}
            && s1.routers[conn.router].handed == s.routers[conn.router].handed
            && s1.routers[conn.router].resolving ==
               if k == ResolveTimeout then s.routers[conn.router].resolving[conn.key := None]
               else s.routers[conn.router].resolving
  {
    FiresLocal(s, c, t, k);
    var conn := s.conns[c];
    ClosingOk(conn, t);
    assert k == ResolveTimeout ==> conn.key in s.routers[conn.router].resolving by { assert ConnInv(s, c); }
    hide Inv, Local, Registered, TimersOk;
    assert k == DelayFailure ==> conn.state == ERROR;
  }

  // ---- resolution ----

  /** A connection whose key the packet interface has. */
  ghost predicate Awaited(s: Sys, c: int) {
    && Inv(s) && c in s.conns && s.conns[c].router in s.routers
    && var rt := s.routers[s.conns[c].router];
       s.conns[c].key in rt.handed && s.conns[c].key in rt.resolving && rt.resolving[s.conns[c].key] == Some(c)
  }

  /** The answer releases the key, and leaves the connection with one live timer, of the kind for the
      answer. */
  lemma Answered(s: Sys, c: int, src: int, err: bool)
    requires Awaited(s, c)
    ensures var conn := s.conns[c];
            var s1 := DoResolved(s, conn.router, conn.key, src, err, true);
            && c in s1.conns && s1.conns[c].src == src && s1.conns[c].selfId == conn.selfId
            && s1.conns[c].router == conn.router && (err ==> s1.conns[c].state == ERROR)
            && Fires(s1, c, conn.next, if err then DelayFailure else DelaySuccess)
            && (forall u :: Live(s1.conns[c], u) ==> u == conn.next)
            && conn.router in s1.routers
            && s1.routers[conn.router].conns == s.routers[conn.router].conns
            && conn.key !in s1.routers[conn.router].resolving && conn.key !in s1.routers[conn.router].handed
  {
    var conn := s.conns[c];
    ResolvedInv(s, conn.router, conn.key, src, err, true);
    assert ConnInv(s, c) && RouterInv(s, conn.router) && Queued(s, conn.router, conn.key);
    AwaitedTimers(conn, src, err);
    hide Inv, Delay, RouterInv;
  }

  lemma AwaitedTimers(conn: Conn, src: int, err: bool)
    requires Local(conn) && Awaiting(conn)
    ensures var d := Delay(conn, src, err, true);
            && d.src == src && d.selfId == conn.selfId && d.router == conn.router && (err ==> d.state == ERROR)
            && Live(d, conn.next) && d.pending[conn.next].kind == (if err then DelayFailure else DelaySuccess)
            && forall u :: Live(d, u) ==> u == conn.next
  {
    StateTimerLoose(conn);
    CancelLoose(conn);
    var d := Delay(conn, src, err, true);
    assert forall u :: Live(d, u) && u != conn.next ==> Live(Cancel(conn), u);
  }

  /** A failed resolution fails: once its timer fires the connection is closed in ERROR and no longer known
      to its router. A successful one opens. */
  lemma ResolutionEnds(s: Sys, c: int, src: int, err: bool, late: bool, alloc: bool)
    requires Awaited(s, c)
    ensures var conn := s.conns[c];
            var s2 := DoFire(DoResolved(s, conn.router, conn.key, src, err, true), c, conn.next, late, alloc);
            && c in s2.conns && conn.router in s2.routers
            && (err ==> s2.conns[c].closed && s2.conns[c].state == ERROR && conn.selfId !in s2.routers[conn.router].conns)
            && (!err ==> s2.conns[c].state == OPEN && !s2.conns[c].closed && s2.conns[c].hassend && s2.conns[c].queued
                         && s2.conns[c].src == src && s2.routers[conn.router].conns == s.routers[conn.router].conns)
  {
    hide Awaited, Fires, DoFire, DoResolved, Inv;
    AwaitedRouter(s, c);
    var conn := s.conns[c];
    Answered(s, c, src, err);
    var s1 := DoResolved(s, conn.router, conn.key, src, err, true);
    if err {
      GivesUp(s1, c, conn.next, DelayFailure, late, alloc);
    } else {
      Proceeds(s1, c, conn.next, DelaySuccess, late, alloc);
    }
  }

  lemma AwaitedRouter(s: Sys, c: int)
    requires Awaited(s, c)
    ensures c in s.conns && s.conns[c].router in s.routers
  { }

  // ---- sending and hearing ----

  /** Asking a queued connection for a packet: in OPEN and CHAL what was marked to be sent goes out and is
      unmarked and counted, in PING the ping does, in CLOSE it is an error, and nothing else changes but the
      place in the send queue. */
  lemma Asks(s: Sys, c: int, sender: Sender, sign: P.Signer, active: bool, stay: bool)
    requires Inv(s) && c in s.conns && s.conns[c].queued
    ensures var s1, conn := DoTransmit(s, c, sender, sign, active, stay), s.conns[c];
            var sends := conn.hassend && (conn.state == OPEN || conn.state == CHAL || (conn.state == PING && active));
            && c in s1.conns && s1.routers == s.routers && s1.conns[c].queued == stay
            && s1.conns[c].state == (if conn.state == CLOSE then ERROR else conn.state)
            && s1.conns[c].hassend == (conn.hassend && !sends)
            && s1.conns[c].sequence == conn.sequence + (if sends then 1 else 0)
            && s1.conns[c].pending == conn.pending && s1.conns[c].peerId == conn.peerId
            && s1.net == (if sends && conn.state != PING
                          then s.net + [Packet(conn.router, conn.src, conn.state == CHAL, c, conn.peerId, sender, sign)]
                          else s.net)
  {
    InvConn(s, c);
    NotWaiting(s.conns[c]);
    hide Inv, Local;
  }

  /** A parsed DATA, PING or DISC leads to these states. */
  lemma Hears(conn: Conn, control: Control, ok: bool, alloc: bool)
    ensures var d := ReadOther(conn, control, ok, alloc);
            && d.state == (match conn.state
                           case RESOLVE => ERROR
                           case CHAL => if ok && control == DATA then READY else CHAL
                           case PING => if !ok || control == DATA then PING else if control == PINGED then READY else CLOSE
                           case READY => if ok && control == DISC then CLOSE else READY
                           case CLOSE => if ok && control == PINGED then READY else CLOSE
                           case s => s)
            && d.peerId == conn.peerId && d.sequence == conn.sequence
            && (ok && conn.state == CHAL && control == PINGED ==> d.hassend && d.queued)
  {
    StateEntered(conn, READY, alloc);
    StateEntered(conn, CLOSE, alloc);
    StateEntered(conn, ERROR, true);
    hide SetState;
  }

  /** A PING or a DISC that changes or confirms the state starts its timer anew. */
  lemma HearsAnew(conn: Conn, control: Control)
    requires control != DATA && (conn.state == PING || conn.state == READY || (conn.state == CLOSE && control == PINGED))
    ensures var d := ReadOther(conn, control, true, true);
            d.statetimer == Some(conn.next) && Live(d, conn.next) && d.pending[conn.next] == Pending(ReadyPing, false, d.state)
  {
    var to := if control == PINGED then READY else CLOSE;
    StateEntered(conn, to, true);
    StateTimed(conn, to, true, ReadyPing);
    hide SetState, Live;
  }

  /** A CHALLENGE is for a connection in OPEN, which takes the peer id and pings; one that still looks for
      its address has an error, and no other takes notice. */
  lemma HearsChallenge(conn: Conn, peer: nat, origin: int, alloc: bool)
    ensures var d := Challenged(conn, peer, origin, alloc);
            && d.state == (if conn.state == OPEN then PING else if conn.state == RESOLVE then ERROR else conn.state)
            && (if conn.state == OPEN then d.peerId == peer && d.hassend && d.queued else d.peerId == conn.peerId)
            && (conn.state != OPEN && conn.state != RESOLVE ==> d == conn)
  {
    StateEntered(conn.(peerId := peer, met := Some(origin)), PING, alloc);
    StateEntered(conn, ERROR, true);
    hide SetState;
  }

  /** A segment that does not parse as a CHALLENGE is nothing to a connection in OPEN. */
  lemma HearsGarbage(conn: Conn, rest: seq<O.Octet>, origin: int, alloc: bool)
    requires ParseBody("oQnkIIIIO", rest) == None && conn.state != RESOLVE
    ensures Read(conn, rest, origin, alloc) == conn
  {
    hide ParseBody;
  }

  // ---- whole runs ----

  lemma RunNext(routers: set<int>, steps: seq<Step>, step: Step)
    requires HonestRun(routers, steps) && Honest(Run(routers, steps), step)
    ensures HonestRun(routers, steps + [step]) && Run(routers, steps + [step]) == Next(Run(routers, steps), step)
  {
    assert (steps + [step])[..|steps|] == steps;
    hide Honest;
  }

  /** What a new connection sends and what is answered, without encryption and signature. */
  function Plain(id: nat): Sender {
    Sender(id, 0, None, None, false, false)
  }

  /** The steps of a new connection of router `r` with router `src` up to where both ends know each other. */
  function Opening(s: Sys, r: int, id: nat, key: int, src: int): seq<Step> {
    [OpenConnection(r, id, key), Fire(s.next, 0, false, true),
     Resolved(r, key, src, false, true), Fire(s.next, 2, false, true)]
  }

  function Exchanging(s: Sys, id: nat, peer: nat, sign: P.Signer): seq<Step> {
    [Transmit(s.next, Plain(id), sign, false, false), Deliver(|s.net|, true, peer, true),
     Transmit(s.next + 1, Plain(peer), sign, false, false), Deliver(|s.net| + 1, true, 0, true)]
  }

  /** Every honest run can be continued to one that opens a connection. */
  lemma {:induction false} RunOpens(routers: set<int>, steps: seq<Step>, r: int, id: nat, key: int, src: int)
    requires HonestRun(routers, steps)
    requires var s := Run(routers, steps);
             && r in s.routers && id <= ID_MAX && id !in s.routers[r].conns && key !in s.routers[r].resolving
    ensures var s := Run(routers, steps);
            && HonestRun(routers, steps + Opening(s, r, id, key, src))
            && Run(routers, steps + Opening(s, r, id, key, src)) ==
               DoFire(DoResolved(DoFire(DoOpen(s, r, id, key), s.next, 0, false, true), r, key, src, false, true),
                      s.next, 2, false, true)
  {
    hide Run, HonestRun, DoOpen, DoFire, DoResolved;
    var s := Run(routers, steps);
    var o := Opening(s, r, id, key, src);
    RunNext(routers, steps, o[0]);
    RunNext(routers, steps + [o[0]], o[1]);
    RunNext(routers, steps + [o[0]] + [o[1]], o[2]);
    RunNext(routers, steps + [o[0]] + [o[1]] + [o[2]], o[3]);
    assert steps + [o[0]] + [o[1]] + [o[2]] + [o[3]] == steps + o;
  }

  /** From a run with a connection in OPEN, the exchange is honest and leads where `Exchange` says. */
  lemma {:induction false} RunExchanges(routers: set<int>, steps: seq<Step>, c: int, id: nat, peer: nat, sign: P.Signer)
    requires HonestRun(routers, steps) && P.Signs(sign) && id <= ID_MAX
    requires var s := Run(routers, steps); c == s.next - 1 && CanExchange(s, c, peer)
    requires Run(routers, steps).conns[c].selfId == id && Run(routers, steps).conns[c].sequence == 0
    ensures var s := Run(routers, steps);
            var x := Exchanging(s.(next := c), id, peer, sign);
            && HonestRun(routers, steps + x)
            && Run(routers, steps + x) == Exchange(s, c, peer, Plain(id), Plain(peer), sign, true)
  {
    hide Run, HonestRun, DoTransmit, DoDeliver, Inv, P.Signs;
    var s := Run(routers, steps);
    var x := Exchanging(s.(next := c), id, peer, sign);
    RunInv(routers, steps);
    RunNext(routers, steps, x[0]);
    RunNext(routers, steps + [x[0]], x[1]);
    OpenArrives(s, c, peer, Plain(id), sign, true);
    NewIncoming(s.conns[c].src, peer, s.conns[c].router, id, true);
    hide Accepted;
    RunNext(routers, steps + [x[0]] + [x[1]], x[2]);
    RunNext(routers, steps + [x[0]] + [x[1]] + [x[2]], x[3]);
    assert steps + [x[0]] + [x[1]] + [x[2]] + [x[3]] == steps + x;
  }

  /** The handshake can always be brought about: every honest run, whatever it has lost, duplicated or left
      half done, has an honest continuation in which a new connection of any router, under any free id and
      key, and a new one of any router with a free id know each other by their ids. */
  lemma {:induction false} CanConnect(routers: set<int>, steps: seq<Step>, r: int, id: nat, key: int, src: int,
                                      peer: nat, sign: P.Signer)
    requires HonestRun(routers, steps) && P.Signs(sign)
    requires var s := Run(routers, steps);
             && r in s.routers && id <= ID_MAX && id !in s.routers[r].conns && key !in s.routers[r].resolving
             && src in s.routers && peer <= ID_MAX && peer !in s.routers[src].conns && (src == r ==> peer != id)
    ensures var s := Run(routers, steps);
            var all := steps + Opening(s, r, id, key, src) + Exchanging(s, id, peer, sign);
            var (s', c, d) := (Run(routers, all), s.next, s.next + 1);
            && HonestRun(routers, all) && c in s'.conns && d in s'.conns
            && s'.conns[c].router == r && s'.conns[c].state == PING && s'.conns[c].selfId == id && s'.conns[c].peerId == peer
            && s'.conns[d].router == src && s'.conns[d].state == CHAL && s'.conns[d].selfId == peer && s'.conns[d].peerId == id
  {
    hide Run, HonestRun, DoOpen, DoFire, DoResolved, Exchange, Inv, P.Signs;
    var s := Run(routers, steps);
    RunInv(routers, steps);
    ReachesOpen(s, r, id, key, src);
    RunOpens(routers, steps, r, id, key, src);
    var half := steps + Opening(s, r, id, key, src);
    var s4 := Run(routers, half);
    RunExchanges(routers, half, s.next, id, peer, sign);
    assert s4.(next := s.next).net == s.net;
    assert Exchanging(s4.(next := s.next), id, peer, sign) == Exchanging(s, id, peer, sign);
    RunInv(routers, half);
    ExchangeCompletes(s4, s.next, peer, Plain(id), Plain(peer), sign, true);
    RunInv(routers, half + Exchanging(s, id, peer, sign));
  }
}
