/** One connection of src/conn.c: its states, its state timer and the timers that refer to it. */
module Connection {
  import opened Options

  datatype CState = START | RESOLVE | OPEN | CHAL | PING | READY | CLOSE | ERROR

  /** The callbacks that are ever armed with a connection as their data. The first three belong to the
      state timer; the others are armed by the router. */
  datatype Kind = ResolveTimeout | Resend | ReadyPing | OpenAsync | DelaySuccess | DelayFailure

  predicate IsStateKind(k: Kind) {
    k == ResolveTimeout || k == Resend || k == ReadyPing
  }

  datatype Pending = Pending(kind: Kind, canceled: bool, armedIn: CState)

  /** `queued` is whether it stands in the router's send queue. `pending` holds the entries of the timer
      list that refer to this connection, and `statetimer` names one of them. `met` names the incoming
      connection whose CHALLENGE made this one leave OPEN. */
  datatype Conn = Conn(
    router: int, incoming: bool, state: CState, selfId: nat, peerId: nat, src: int, key: int,
    hassend: bool, queued: bool, sequence: nat, statetimer: Option<int>, closed: bool,
    pending: map<int, Pending>, next: int, met: Option<int>)

  function NewConn(router: int, incoming: bool, id: nat, key: int, src: int): Conn {
    Conn(router, incoming, START, id, 0, src, key, false, false, 0, None, false, map[], 0, None)
  }

  /** `_tripc_cancel_timeout`. */
  function Cancel(c: Conn): Conn {
    if c.statetimer.None? then c
    else
      var t := c.statetimer.value;
      c.(statetimer := None,
         pending := if t in c.pending then c.pending[t := c.pending[t].(canceled := true)] else c.pending)
  }

  /** A timer that is not remembered in `statetimer`. */
  function ArmAsync(c: Conn, k: Kind): Conn {
    c.(pending := c.pending[c.next := Pending(k, false, c.state)], next := c.next + 1)
  }

  /** `_tripc_set_timeout`; without memory there is no timer. */
  function Arm(c: Conn, k: Kind, alloc: bool): Conn {
    if alloc then ArmAsync(c, k).(statetimer := Some(c.next)) else c.(statetimer := None)
  }

  /** `_tripc_set_send`. */
  function SetSend(c: Conn): Conn {
    c.(hassend := true, queued := true)
  }

  /** The second half of `_tripc_set_state`, on entering the state. */
  function Begin(c: Conn, alloc: bool): Conn {
    match c.state
    case RESOLVE => Arm(c, ResolveTimeout, alloc)
    case OPEN => Arm(SetSend(c), Resend, alloc)
    case PING => Arm(SetSend(c), Resend, alloc)
    case READY => Arm(c, ReadyPing, alloc)
    case CLOSE => Arm(c, ReadyPing, alloc)
    case _ => c
  }

  /** `_tripc_set_state`. It looks at the new state only, so ERROR can be left. */
  function SetState(c: Conn, to: CState, alloc: bool): Conn {
    Begin((if to == START || to == ERROR then c else Cancel(c)).(state := to), alloc)
  }

  /** `_tripc_set_error`. */
  function SetError(c: Conn): Conn {
    if c.state == ERROR then c else SetState(c, ERROR, true)
  }

  /** `_tripc_destroy` and the release of the memory. */
  function Close(c: Conn): Conn {
    Cancel(c).(closed := true, queued := false)
  }

  /** The list drops an entry that it is about to call. */
  function Unlink(c: Conn, t: int): Conn {
    c.(pending := c.pending - {t})
  }

  /** `_tripc_timeout_state_resend_cb`. */
  function ResendCb(c: Conn, late: bool, alloc: bool): Conn {
    if late then Close(SetError(c)) else Arm(SetSend(c), Resend, alloc)
  }

  function Counted(c: Conn): Conn {
    c.(hassend := false, sequence := c.sequence + 1)
  }

  /** What `_tripc_send` does to the connection; `active` is whether a ping is under way. It has no case
      for CLOSE, so sending there is an error. */
  function Send(c: Conn, active: bool): Conn {
    match c.state
    case START => SetError(c)
    case OPEN => if c.hassend then Counted(c) else c
    case CHAL => if c.hassend then Counted(c) else c
    case PING => if c.hassend && active then Counted(c) else c
    case CLOSE => SetError(c)
    case _ => c
  }

  // ---- what holds of every connection between two callbacks ----

  predicate Live(c: Conn, t: int) {
    t in c.pending && !c.pending[t].canceled
  }

  predicate KindFits(k: Kind, s: CState) {
    match k
    case ResolveTimeout => s == RESOLVE
    case Resend => s == OPEN || s == PING
    case ReadyPing => s == READY || s == CLOSE
    case _ => false
  }

  /** A live timer is where it may be: a state timer is the one `statetimer` names and was armed in the
      present state, except that those of RESOLVE and CLOSE outlive an error there, and a timer of the
      router stands alone. */
  predicate LiveOk(c: Conn, t: int)
    requires t in c.pending
  {
    var p := c.pending[t];
    && !c.closed
    && (IsStateKind(p.kind) ==>
          && c.statetimer == Some(t) && KindFits(p.kind, p.armedIn)
          && (c.state == p.armedIn || (c.state == ERROR && (p.armedIn == RESOLVE || p.armedIn == CLOSE))))
    && (p.kind == OpenAsync ==> !c.incoming && c.state == START && c.statetimer == None)
    && (p.kind == DelaySuccess || p.kind == DelayFailure ==>
          !c.incoming && (c.state == RESOLVE || c.state == ERROR) && c.statetimer == None)
    && (p.kind == DelayFailure ==> c.state == ERROR)
  }

  ghost predicate TimersOk(c: Conn) {
    && (forall t :: t in c.pending ==> t < c.next)
    && (forall t :: Live(c, t) ==> LiveOk(c, t))
    && (forall t, u :: Live(c, t) && Live(c, u) ==> t == u)
    && (c.statetimer.Some? ==> Live(c, c.statetimer.value) && IsStateKind(c.pending[c.statetimer.value].kind))
  }

  /** Role separation: an incoming connection is never in RESOLVE or OPEN, an outgoing one never in CHAL,
      and an outgoing one has met an incoming one when it is past OPEN, unless it is in ERROR. One that
      still waits for its address is not in the send queue. */
  predicate RoleOk(c: Conn) {
    && (c.incoming ==> c.state != START && c.state != RESOLVE && c.state != OPEN && c.met == None)
    && (!c.incoming ==> c.state != CHAL)
    && (!c.incoming && !c.closed && c.state != ERROR ==>
          (c.met.Some? <==> c.state == PING || c.state == READY || c.state == CLOSE))
    && (c.queued ==> !c.closed && c.state != START && c.state != RESOLVE)
  }

  /** In ERROR the live timer tells which state the connection was in before. */
  ghost predicate ErrorOk(c: Conn) {
    c.state == ERROR && !c.incoming ==>
      forall t :: Live(c, t) ==> if c.pending[t].kind == ReadyPing then c.met.Some? else c.met == None
  }

  ghost predicate Local(c: Conn) {
    TimersOk(c) && RoleOk(c) && ErrorOk(c)
  }

  /** No timer will fire for this connection. */
  ghost predicate Quiet(c: Conn) {
    forall t :: !Live(c, t)
  }

  /** What identifies a connection does not change any more. */
  predicate SameCard(a: Conn, b: Conn) {
    && b.router == a.router && b.incoming == a.incoming && b.selfId == a.selfId && b.key == a.key
    && (a.incoming ==> b.peerId == a.peerId && b.src == a.src)
    && (a.met.Some? ==> b.met == a.met && b.peerId == a.peerId)
  }

  ghost predicate OnlyStateTimer(c: Conn) {
    forall t :: Live(c, t) ==> IsStateKind(c.pending[t].kind)
  }

  /** At most the timer that `statetimer` names is live; it may name one that has just been unlinked. */
  ghost predicate Loose(c: Conn) {
    && (forall t :: t in c.pending ==> t < c.next)
    && (forall t :: Live(c, t) ==> c.statetimer == Some(t))
  }

  lemma CancelLoose(c: Conn)
    requires Loose(c)
    ensures Loose(Cancel(c)) && Quiet(Cancel(c)) && Cancel(c).statetimer == None
  { }

  lemma QuietOk(c: Conn)
    requires Loose(c) && Quiet(c) && c.statetimer == None
    ensures TimersOk(c)
  { }

  lemma ArmOk(c: Conn, k: Kind, alloc: bool)
    requires Loose(c) && Quiet(c) && !c.closed && KindFits(k, c.state) && IsStateKind(k)
    ensures TimersOk(Arm(c, k, alloc)) && OnlyStateTimer(Arm(c, k, alloc))
  {
    var d := Arm(c, k, alloc);
    assert forall t :: Live(d, t) ==> (alloc && t == c.next) || Live(c, t);
  }

  /** Entering a state leaves at most one live timer, armed for that state. */
  lemma SetStateOk(c: Conn, to: CState, alloc: bool)
    requires Loose(c) && !c.closed && to != START && to != ERROR
    ensures TimersOk(SetState(c, to, alloc)) && SameCard(c, SetState(c, to, alloc))
    ensures OnlyStateTimer(SetState(c, to, alloc))
  {
    CancelLoose(c);
    var c1 := Cancel(c).(state := to);
    var c2 := SetSend(c1);
    assert Loose(c1) && Quiet(c1) && Loose(c2) && Quiet(c2);
    assert OnlyStateTimer(c1);
    hide Loose, Quiet, TimersOk, OnlyStateTimer;
    match to
    case RESOLVE => ArmOk(c1, ResolveTimeout, alloc);
    case OPEN => ArmOk(c2, Resend, alloc);
    case PING => ArmOk(c2, Resend, alloc);
    case READY => ArmOk(c1, ReadyPing, alloc);
    case CLOSE => ArmOk(c1, ReadyPing, alloc);
    case CHAL => QuietOk(c1);
  }

  lemma EnteredOk(c: Conn, to: CState, alloc: bool)
    ensures Loose(c) && !c.closed && to != START && to != ERROR ==>
              TimersOk(SetState(c, to, alloc)) && OnlyStateTimer(SetState(c, to, alloc))
  {
    if Loose(c) && !c.closed && to != START && to != ERROR { SetStateOk(c, to, alloc); }
  }

  /** The states that are entered with a timer, and its kind. */
  predicate TimedBy(to: CState, k: Kind) {
    match k
    case ResolveTimeout => to == RESOLVE
    case Resend => to == OPEN || to == PING
    case ReadyPing => to == READY || to == CLOSE
    case _ => false
  }

  /** What entering a state changes: OPEN and PING have the connection queued for sending, the timed states
      leave a new timer of their kind if there is memory, no older timer becomes live, and the rest stays. */
  lemma StateEntered(c: Conn, to: CState, alloc: bool)
    ensures var d := SetState(c, to, alloc);
            && d.state == to
            && (if to == OPEN || to == PING then d.hassend && d.queued else d.hassend == c.hassend && d.queued == c.queued)
            && d.peerId == c.peerId && d.src == c.src && d.sequence == c.sequence && d.met == c.met && d.closed == c.closed
  {
    hide Begin, Cancel;
    CancelKeeps(c);
    BeginKeeps((if to == START || to == ERROR then c else Cancel(c)).(state := to), alloc);
  }

  lemma CancelKeeps(c: Conn)
    ensures var d := Cancel(c);
            && d.state == c.state && d.hassend == c.hassend && d.queued == c.queued && d.peerId == c.peerId
            && d.src == c.src && d.sequence == c.sequence && d.met == c.met && d.closed == c.closed
  { }

  lemma BeginKeeps(c: Conn, alloc: bool)
    ensures var d := Begin(c, alloc);
            && d.state == c.state
            && (if c.state == OPEN || c.state == PING then d.hassend && d.queued
                else d.hassend == c.hassend && d.queued == c.queued)
            && d.peerId == c.peerId && d.src == c.src && d.sequence == c.sequence && d.met == c.met && d.closed == c.closed
  { }

  lemma StateTimed(c: Conn, to: CState, alloc: bool, k: Kind)
    requires TimedBy(to, k)
    ensures var d := SetState(c, to, alloc);
            if alloc then d.statetimer == Some(c.next) && Live(d, c.next) && d.pending[c.next] == Pending(k, false, to)
            else d.statetimer == None
  { }

  lemma OldTimers(c: Conn, to: CState, alloc: bool, t: int)
    requires Live(SetState(c, to, alloc), t) && t != c.next
    ensures Live(c, t) && SetState(c, to, alloc).pending[t] == c.pending[t]
  { }

  lemma CloseOk(c: Conn)
    requires Loose(c)
    ensures TimersOk(Close(c)) && Quiet(Close(c)) && Close(c).closed
  {
    CancelLoose(c);
    assert forall t :: Live(Close(c), t) ==> Live(Cancel(c), t);
  }

  /** After a live timer has been unlinked no other is live. */
  lemma UnlinkLoose(c: Conn, t: int)
    requires TimersOk(c) && Live(c, t)
    ensures Loose(Unlink(c, t)) && Quiet(Unlink(c, t))
  {
    assert forall u :: Live(Unlink(c, t), u) ==> Live(c, u) && u != t;
  }

  lemma StateTimerLoose(c: Conn)
    requires TimersOk(c) && forall t :: Live(c, t) ==> IsStateKind(c.pending[t].kind)
    ensures Loose(c)
  { }

  lemma SetErrorOk(c: Conn)
    requires TimersOk(c) && (c.state == RESOLVE || c.state == ERROR)
    ensures TimersOk(SetError(c)) && SameCard(c, SetError(c))
  {
    assert forall t :: Live(SetError(c), t) ==> Live(c, t);
    assert forall t :: Live(c, t) ==> LiveOk(c, t);
  }

  /** A connection that is waiting in a resolve queue. */
  ghost predicate InResolve(conn: Conn) {
    && !conn.closed && !conn.incoming && (conn.state == START || conn.state == RESOLVE || conn.state == ERROR)
    && conn.met == None
    && forall t :: Live(conn, t) ==> conn.pending[t].kind == OpenAsync || conn.pending[t].kind == ResolveTimeout
  }

  /** One whose key the packet interface has. */
  ghost predicate Awaiting(conn: Conn) {
    && InResolve(conn) && conn.state != START
    && forall t :: Live(conn, t) ==> conn.pending[t].kind == ResolveTimeout
  }

  /** A live timer relies on the connection still being in the resolve queue under its key. */
  ghost predicate Registered(conn: Conn) {
    exists t :: Live(conn, t) && (conn.pending[t].kind == OpenAsync || conn.pending[t].kind == ResolveTimeout)
  }

  /** A connection as it is after the callback of a live timer, and what that means for the queues. */
  lemma OpenAsyncOk(c: Conn, t: int, alloc: bool)
    requires Local(c) && Live(c, t) && c.pending[t].kind == OpenAsync
    ensures c.state == START && !c.incoming && Registered(c)
    ensures var d := SetState(Unlink(c, t), RESOLVE, alloc);
            Local(d) && SameCard(c, d) && Awaiting(d) && d.met == None
  {
    assert LiveOk(c, t);
    UnlinkLoose(c, t);
    SetStateOk(Unlink(c, t), RESOLVE, alloc);
    var d := SetState(Unlink(c, t), RESOLVE, alloc);
    assert forall u :: Live(d, u) ==> LiveOk(d, u);
  }

  /** Giving a connection up after its last timer was unlinked, in ERROR or as it is. */
  lemma GivenUpOk(c: Conn, t: int, u: Conn)
    requires Local(c) && Live(c, t)
    requires u == Unlink(c, t) || u == Unlink(c, t).(statetimer := None)
    ensures Closed(c, Close(SetError(u))) && Closed(c, Close(u))
  {
    UnlinkLoose(c, t);
    assert forall x :: Live(u, x) ==> Live(Unlink(c, t), x);
    assert forall x :: Live(SetError(u), x) ==> Live(u, x);
    hide Local, Closed, Close;
    CloseQuiet(c, u);
    CloseQuiet(c, SetError(u));
  }

  lemma CloseQuiet(c: Conn, v: Conn)
    requires Local(c) && Loose(v) && Quiet(v) && (v.state == c.state || v.state == ERROR)
    requires SameCard(c, v) && v.met == c.met && v.peerId == c.peerId
    ensures Closed(c, Close(v))
  {
    CloseOk(v);
    hide TimersOk;
  }

  lemma ClosingOk(c: Conn, t: int)
    requires Local(c) && Live(c, t) && c.pending[t].kind != OpenAsync
    ensures var u := Unlink(c, t);
            && (c.pending[t].kind == ResolveTimeout ==>
                  Registered(c) && Closed(c, Close(SetError(u.(statetimer := None)))))
            && (c.pending[t].kind == Resend ==> Closed(c, Close(SetError(u))))
            && (c.pending[t].kind == DelayFailure ==> Closed(c, Close(u)))
  {
    hide Local, Closed, Close;
    GivenUpOk(c, t, Unlink(c, t));
    GivenUpOk(c, t, Unlink(c, t).(statetimer := None));
  }

  /** `d` is `c`, closed, with no timer left. */
  ghost predicate Closed(c: Conn, d: Conn) {
    Local(d) && SameCard(c, d) && d.closed && Quiet(d) && d.met == c.met && d.peerId == c.peerId
  }

  lemma ResendOk(c: Conn, t: int, alloc: bool)
    requires Local(c) && Live(c, t) && c.pending[t].kind == Resend
    ensures Entered(c, ResendCb(Unlink(c, t), false, alloc))
  {
    assert LiveOk(c, t);
    UnlinkLoose(c, t);
    var u := SetSend(Unlink(c, t));
    assert forall x :: Live(u, x) ==> Live(Unlink(c, t), x);
    ArmOk(u, Resend, alloc);
    var d := ResendCb(Unlink(c, t), false, alloc);
    assert forall x :: Live(d, x) ==> LiveOk(d, x);
  }

  lemma EnterOk(c: Conn, t: int, alloc: bool)
    requires Local(c) && Live(c, t)
    ensures c.pending[t].kind == ReadyPing ==> Entered(c, SetState(Unlink(c, t), PING, alloc))
    ensures c.pending[t].kind == DelaySuccess ==> Entered(c, SetState(Unlink(c, t), OPEN, alloc))
  {
    assert LiveOk(c, t);
    UnlinkLoose(c, t);
    var k := c.pending[t].kind;
    if k == ReadyPing || k == DelaySuccess {
      var to := if k == ReadyPing then PING else OPEN;
      var d := SetState(Unlink(c, t), to, alloc);
      SetStateOk(Unlink(c, t), to, alloc);
      assert forall x :: Live(d, x) ==> LiveOk(d, x);
    }
  }

  /** `d` is `c` in another state past START, still open. */
  ghost predicate Entered(c: Conn, d: Conn) {
    Local(d) && SameCard(c, d) && !Registered(d) && !d.closed && d.met == c.met && d.peerId == c.peerId
  }

  /** Only a connection with such a timer, or in such a state, is not in a resolve queue. */
  lemma NotInResolve(c: Conn, t: int)
    requires Local(c) && Live(c, t)
    requires c.pending[t].kind != OpenAsync && c.pending[t].kind != ResolveTimeout
    ensures !InResolve(c)
  { }

  lemma UnlinkCanceledOk(c: Conn, t: int)
    requires Local(c) && t in c.pending && c.pending[t].canceled
    ensures var d := Unlink(c, t);
            && Local(d) && SameCard(c, d) && d.closed == c.closed && d.met == c.met && d.peerId == c.peerId
            && (Registered(d) ==> Registered(c)) && (InResolve(c) ==> InResolve(d)) && (Awaiting(c) ==> Awaiting(d))
  {
    var d := Unlink(c, t);
    assert forall x :: Live(d, x) <==> Live(c, x);
    forall x | Live(d, x) ensures LiveOk(d, x) && d.pending[x] == c.pending[x] { assert LiveOk(c, x); }
    if Registered(d) {
      var x :| Live(d, x) && (d.pending[x].kind == OpenAsync || d.pending[x].kind == ResolveTimeout);
      assert Live(c, x);
    }
  }

  /** `trip_resolve` for a connection whose key the packet interface had. Without memory for the delay
      timer nothing more happens to it. */
  function Delay(c: Conn, src: int, err: bool, alloc: bool): Conn {
    var d := Cancel(c).(src := src);
    var e := if err then SetError(d) else d;
    if !alloc then e else ArmAsync(e, if err then DelayFailure else DelaySuccess)
  }

  /** A delay timer is the only one of a connection that had none. */
  lemma DelayTimerOk(c: Conn, k: Kind)
    requires Loose(c) && Quiet(c) && c.statetimer == None && !c.closed && !c.incoming && c.met == None
    requires (c.state == RESOLVE || c.state == ERROR) && (c.queued ==> c.state == ERROR)
    requires k == DelaySuccess || (k == DelayFailure && c.state == ERROR)
    ensures Local(ArmAsync(c, k)) && !Registered(ArmAsync(c, k))
  {
    assert forall t :: Live(ArmAsync(c, k), t) ==> t == c.next || Live(c, t);
  }

  lemma DelayOk(c: Conn, src: int, err: bool, alloc: bool)
    requires Local(c) && Awaiting(c)
    ensures Entered(c, Delay(c, src, err, alloc))
  {
    StateTimerLoose(c);
    CancelLoose(c);
    hide Local, Registered;
    AwaitingRole(c);
    var d := Cancel(c).(src := src);
    assert forall t :: Live(d, t) ==> Live(Cancel(c), t);
    var e := if err then SetError(d) else d;
    assert forall t :: Live(e, t) ==> Live(d, t);
    QuietLocal(e);
    DelayTimerOk(e, if err then DelayFailure else DelaySuccess);
  }

  lemma QuietLocal(c: Conn)
    requires Loose(c) && Quiet(c) && c.statetimer == None && !c.closed && !c.incoming && c.met == None
    requires (c.state == RESOLVE || c.state == ERROR) && (c.queued ==> c.state == ERROR)
    ensures Local(c) && !Registered(c)
  { }

  lemma AwaitingRole(c: Conn)
    requires Local(c) && Awaiting(c)
    ensures !c.closed && !c.incoming && c.met == None
    ensures (c.state == RESOLVE || c.state == ERROR) && (c.queued ==> c.state == ERROR)
  { }

  /** An error while waiting for the address does not disturb the timers. */
  lemma ErrorInResolveOk(c: Conn)
    requires Local(c) && c.state == RESOLVE && !c.closed
    ensures var d := SetError(c);
            && Local(d) && SameCard(c, d) && !d.closed && d.met == c.met && d.peerId == c.peerId
            && (Registered(d) ==> Registered(c)) && (InResolve(c) ==> InResolve(d)) && (Awaiting(c) ==> Awaiting(d))
  {
    SetErrorOk(c);
    var d := SetError(c);
    assert forall t :: Live(d, t) ==> Live(c, t) && d.pending[t] == c.pending[t];
    assert forall t :: Live(c, t) ==> LiveOk(c, t);
  }

  /** An error in CLOSE does not disturb them either. */
  lemma ErrorInCloseOk(c: Conn)
    requires Local(c) && c.state == CLOSE && !c.closed
    ensures Entered(c, SetError(c)) && !InResolve(c)
  {
    var d := SetError(c);
    assert forall t :: Live(d, t) ==> Live(c, t) && d.pending[t] == c.pending[t];
    assert forall t :: Live(c, t) ==> LiveOk(c, t);
  }

  /** Changes of fields that no timer looks at. */
  lemma FieldsOk(c: Conn, hassend: bool, queued: bool, sequence: nat)
    requires Local(c) && (queued ==> !c.closed && c.state != START && c.state != RESOLVE)
    ensures var d := c.(hassend := hassend, queued := queued, sequence := sequence);
            && Local(d) && SameCard(c, d) && d.met == c.met && d.peerId == c.peerId && d.closed == c.closed
            && (Registered(d) ==> Registered(c)) && (InResolve(c) ==> InResolve(d)) && (Awaiting(c) ==> Awaiting(d))
  {
    var d := c.(hassend := hassend, queued := queued, sequence := sequence);
    assert forall t :: Live(d, t) <==> Live(c, t);
    forall t | Live(d, t) ensures LiveOk(d, t) { assert LiveOk(c, t); }
    if Registered(d) {
      var t :| Live(d, t) && (d.pending[t].kind == OpenAsync || d.pending[t].kind == ResolveTimeout);
      assert Live(c, t);
    }
  }

  /** `_tripc_send` for a connection in the send queue, which afterwards stays there or not. */
  lemma SendOk(c: Conn, active: bool, stay: bool)
    requires Local(c) && c.queued
    ensures var d := Send(c, active).(queued := stay);
            && Local(d) && SameCard(c, d) && d.met == c.met && d.peerId == c.peerId && d.closed == c.closed
            && (Registered(d) ==> Registered(c)) && (InResolve(c) ==> InResolve(d)) && (Awaiting(c) ==> Awaiting(d))
  {
    if c.state == CLOSE {
      ErrorInCloseOk(c);
      var e := SetError(c);
      hide Local, SetError;
      FieldsOk(e, e.hassend, stay, e.sequence);
    } else {
      hide Local;
      NotWaiting(c);
      FieldsOk(c, c.hassend, stay, c.sequence);
      FieldsOk(c, false, stay, c.sequence + 1);
    }
  }

  lemma NotWaiting(c: Conn)
    requires Local(c) && c.queued
    ensures !c.closed && c.state != START && c.state != RESOLVE
  { }

  /** From OPEN on, only the state timer can be live, so a state change finds it and cancels it. */
  lemma LateStatesLoose(c: Conn)
    requires Local(c) && c.state != START && c.state != RESOLVE && c.state != ERROR
    ensures Loose(c) && !InResolve(c)
  { }

  /** The CHALLENGE arrives: the connection leaves OPEN knowing its peer. */
  lemma MeetOk(c: Conn, peer: nat, origin: int, alloc: bool)
    requires Local(c) && c.state == OPEN && !c.closed
    ensures var d := SetState(c.(peerId := peer, met := Some(origin)), PING, alloc);
            && Local(d) && SameCard(c, d) && !Registered(d) && !d.closed && !c.incoming
            && d.met == Some(origin) && d.peerId == peer && d.selfId == c.selfId && d.router == c.router
  {
    LateStatesLoose(c);
    var b := c.(peerId := peer, met := Some(origin));
    assert forall t :: Live(b, t) ==> Live(c, t);
    SetStateOk(b, PING, alloc);
  }

  /** A change of state after the handshake. */
  lemma UpOk(c: Conn, to: CState, alloc: bool)
    requires Local(c) && !c.closed && (to == READY || to == CLOSE)
    requires c.state == CHAL || c.state == PING || c.state == READY || c.state == CLOSE
    ensures Entered(c, SetState(c, to, alloc))
  {
    LateStatesLoose(c);
    SetStateOk(c, to, alloc);
  }

  /** The connection record as src/conn.c changes it. */
  class Endpoint {
    const router: int
    const incoming: bool
    const selfId: nat
    const key: int
    var state: CState
    var peerId: nat
    var src: int
    var hassend: bool
    var queued: bool
    var sequence: nat
    var statetimer: Option<int>
    var closed: bool
    var pending: map<int, Pending>
    var next: int
    ghost var met: Option<int>

    ghost function Value(): Conn
      reads this
    {
      Conn(router, incoming, state, selfId, peerId, src, key, hassend, queued, sequence, statetimer, closed,
           pending, next, met)
    }

    constructor (router: int, incoming: bool, id: nat, key: int, src: int)
      ensures Value() == NewConn(router, incoming, id, key, src) && Loose(Value())
    {
      this.router, this.incoming, this.selfId, this.key, this.src := router, incoming, id, key, src;
      state, peerId, hassend, queued, sequence, statetimer, closed := START, 0, false, false, 0, None, false;
      pending, next, met := map[], 0, None;
    }

    /** `_tripc_cancel_timeout`. */
    method CancelTimeout()
      modifies this`statetimer, this`pending
      ensures Value() == Cancel(old(Value()))
      ensures old(Loose(Value())) ==> Quiet(Value()) && statetimer == None
    {
      ghost var was := Value();
      if statetimer.Some? {
        var t := statetimer.value;
        if t in pending { pending := pending[t := pending[t].(canceled := true)]; }
        statetimer := None;
      }
      if Loose(was) { CancelLoose(was); }
    }

    /** `_tripc_set_timeout`. */
    method SetTimeout(k: Kind, alloc: bool)
      modifies this`statetimer, this`pending, this`next
      ensures Value() == Arm(old(Value()), k, alloc)
      ensures if alloc then statetimer == Some(old(next)) && pending == old(pending)[old(next) := Pending(k, false, state)]
              else statetimer == None && pending == old(pending)
    {
      if alloc {
        pending := pending[next := Pending(k, false, state)];
        statetimer := Some(next);
        next := next + 1;
      } else {
        statetimer := None;
      }
    }

    /** `_tripc_set_send`. */
    method SendSoon()
      modifies this`hassend, this`queued
      ensures Value() == SetSend(old(Value())) && hassend && queued
    {
      hassend, queued := true, true;
    }

    /** `_tripc_set_state`. From any state with at most the remembered timer live, whichever one, the new
        state is entered with at most one live timer, armed for that state and remembered. */
    method EnterState(to: CState, alloc: bool)
      modifies this`state, this`hassend, this`queued, this`statetimer, this`pending, this`next
      ensures Value() == SetState(old(Value()), to, alloc) && state == to
      ensures if to == OPEN || to == PING then hassend && queued else hassend == old(hassend) && queued == old(queued)
      ensures forall k :: TimedBy(to, k) ==>
                if alloc then statetimer == Some(old(next)) && old(next) in pending
                              && pending[old(next)] == Pending(k, false, to)
                else statetimer == None
      ensures old(Loose(Value())) && !closed && to != START && to != ERROR ==>
                TimersOk(Value()) && OnlyStateTimer(Value())
    {
      hide TimersOk, OnlyStateTimer, Loose, Quiet, Begin, Cancel, SameCard, TimedBy, Arm, Live;
      ghost var was := Value();
      EnteredOk(was, to, alloc);
      Leave(to);
      Entry(alloc);
    }

    /** The first half of `_tripc_set_state`. */
    method Leave(to: CState)
      modifies this`state, this`statetimer, this`pending
      ensures Value() == (if to == START || to == ERROR then old(Value()) else Cancel(old(Value()))).(state := to)
      ensures state == to
    {
      if to != START && to != ERROR { CancelTimeout(); }
      state := to;
    }

    method Entry(alloc: bool)
      modifies this`hassend, this`queued, this`statetimer, this`pending, this`next
      ensures Value() == Begin(old(Value()), alloc)
      ensures if state == OPEN || state == PING then hassend && queued else hassend == old(hassend) && queued == old(queued)
      ensures forall k :: TimedBy(state, k) ==>
                if alloc then statetimer == Some(old(next)) && old(next) in pending
                              && pending[old(next)] == Pending(k, false, state)
                else statetimer == None
    {
      match state {
        case RESOLVE => SetTimeout(ResolveTimeout, alloc);
        case OPEN =>
          SendSoon();
          SetTimeout(Resend, alloc);
        case PING =>
          SetTimeout(Resend, alloc);
          SendSoon();
        case READY => SetTimeout(ReadyPing, alloc);
        case CLOSE => SetTimeout(ReadyPing, alloc);
        case _ =>
      }
    }

    /** `_tripc_set_error`. */
    method Fail()
      modifies this`state, this`hassend, this`queued, this`statetimer, this`pending, this`next
      ensures Value() == SetError(old(Value())) && state == ERROR
    {
      if state != ERROR { EnterState(ERROR, true); }
    }

    /** `_tripc_send`, as far as it changes the connection. `packet` is whether a packet is made. */
    method Sending(active: bool) returns (packet: bool)
      modifies this`state, this`hassend, this`queued, this`sequence, this`statetimer, this`pending, this`next
      ensures Value() == Send(old(Value()), active)
      ensures packet <==> old(hassend) && (old(state) == OPEN || old(state) == CHAL || (old(state) == PING && active))
      ensures packet ==> sequence == old(sequence) + 1
    {
      packet := false;
      match state {
        case START => Fail();
        case CLOSE => Fail();
        case OPEN => packet := hassend;
        case CHAL => packet := hassend;
        case PING => packet := hassend && active;
        case _ =>
      }
      if packet { hassend, sequence := false, sequence + 1; }
    }

    /** `_tripc_destroy`. */
    method Destroy()
      modifies this`statetimer, this`pending, this`closed, this`queued
      ensures Value() == Close(old(Value())) && closed && !queued && statetimer == None
    {
      CancelTimeout();
      closed, queued := true, false;
    }

    /** The callback of a resend timer that the list has just dropped: the connection gives up and keeps
        no timer, or has one new timer. */
    method Resent(t: int, late: bool, alloc: bool)
      requires Local(Value()) && Live(Value(), t) && pending[t].kind == Resend
      modifies this
      ensures Value() == ResendCb(Unlink(old(Value()), t), late, alloc)
      ensures Local(Value()) && SameCard(old(Value()), Value()) && closed == late
      ensures late ==> Quiet(Value()) && state == ERROR && !queued
      ensures !late ==> hassend && queued && state == old(state)
      ensures !late && alloc ==>
                statetimer == Some(old(next)) && old(next) in pending && pending[old(next)] == Pending(Resend, false, state)
    {
      hide Local, Quiet, Loose, Registered, Close, Arm, SetError, SameCard;
      ghost var was := Value();
      ClosingOk(was, t);
      ResendOk(was, t, alloc);
      pending := pending - {t};
      if late {
        Fail();
        Destroy();
      } else {
        SendSoon();
        SetTimeout(Resend, alloc);
      }
    }
  }
}
