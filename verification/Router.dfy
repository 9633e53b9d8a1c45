/** The router's state machine, src/trip.c. Entering BIND, UNBIND or ERROR calls the packet interface,
    which may call back into the router before it returns. */
module Router {
  datatype State = START | BIND | LISTEN | CLOSE | UNBIND | END | ERROR

  /** A call that the packet interface, or the user, makes into the router. */
  datatype Call =
    | Ready                    // trip_ready
    | Unready(err: int)        // trip_unready
    | Fail(err: int)           // trip_error
    | Stop(alloc: bool, again: bool) // trip_stop; whether its timer, and then the CLOSE timer, could be allocated

  /** What happens during one call of the packet interface: whether the timer that is armed with it
      could be allocated, and the calls made back before it returns. */
  datatype Visit = Visit(alloc: bool, calls: seq<Call>)

  /** What the outside does to the router between its calls. `timeout` is whether an action comes from
      the timer, `setup` the result of filling in and verifying the settings, `late` whether the state's
      deadline has passed, `calls` the calls back made while reading and sending and `listen` their error,
      all zero or false for none. */
  datatype Event =
    | Outside(call: Call)
    | Start(setup: int)  // trip_start
    | Action(timeout: bool, setup: int, late: bool, calls: seq<Call>, listen: int, alloc: bool) // trip_action
    | SendTimer(calls: seq<Call>, listen: int) // _trip_send_immediately_cb
    | RouterTimer        // _trip_timeout_router_cb
    | StopTimer(alloc: bool) // _trip_stop_async_cb

  /** The timer allocations of a call, of a visit and of an event succeed. */
  predicate FedCall(c: Call) {
    c.Stop? ==> c.alloc
  }

  predicate Fed(v: Visit) {
    v.alloc && forall c :: c in v.calls ==> FedCall(c)
  }

  predicate FedEvent(e: Event) {
    && (e.Outside? ==> FedCall(e.call)) && (e.Action? || e.StopTimer? ==> e.alloc)
    && (e.Action? || e.SendTimer? ==> forall c :: c in e.calls ==> FedCall(c))
  }

  /** What the packet interface is called for. */
  datatype Ask = Bind | Unbind

  /** A change of state: whether the packet interface is bound then, and how often it has been called. */
  datatype Change = Change(from: State, to: State, bound: bool, asked: nat)

  const ETIME: int := 62
  const EINVAL: int := 22

  /** What the log of state changes may hold. */
  predicate Allowed(c: Change) {
    && (c.from == ERROR ==> c.to == ERROR)
    && (c.to == LISTEN ==> c.from == BIND)
    && (c.to == BIND ==> c.from == START)
  }

  /** The log is a path from `a` to `b` of allowed changes. */
  predicate Path(log: seq<Change>, a: State, b: State) {
    if log == [] then a == b
    else
      var last := log[|log| - 1];
      last.to == b && Allowed(last) && Path(log[..|log| - 1], a, last.from)
  }

  /** The call that a change demands: bind on BIND, unbind on UNBIND, and unbind on ERROR if there is
      something bound and the state was one between the two. */
  predicate Demands(c: Change, a: Ask) {
    match c.to
    case BIND => a == Bind
    case UNBIND => a == Unbind
    case ERROR => a == Unbind && c.bound && (c.from == BIND || c.from == LISTEN || c.from == CLOSE || c.from == UNBIND)
    case _ => false
  }

  /** The first call after a change is the one it demands. */
  ghost predicate Answered(log: seq<Change>, asked: seq<Ask>) {
    forall i, a {:trigger Demands(log[i], a)} :: 0 <= i < |log| && Demands(log[i], a) ==>
      log[i].asked < |asked| && asked[log[i].asked] == a
  }

  /** A new change is answered by a call for what it demands, or demands nothing. */
  lemma AnsweredNext(log: seq<Change>, asked: seq<Ask>, c: Change)
    requires Answered(log, asked) && c.asked == |asked|
    ensures forall a :: (forall b :: Demands(c, b) ==> b == a) ==> Answered(log + [c], asked + [a])
    ensures (forall b :: !Demands(c, b)) ==> Answered(log + [c], asked)
  {
    hide Demands;
    forall i | 0 <= i < |log| ensures (log + [c])[i] == log[i] { }
  }

  /** ERROR is absorbing along a path. */
  lemma {:induction false} ErrorAbsorbs(log: seq<Change>, a: State, b: State, i: nat)
    requires Path(log, a, b) && i < |log| && log[i].to == ERROR
    ensures b == ERROR && forall j :: i <= j < |log| ==> log[j].to == ERROR
  {
    if i < |log| - 1 {
      ErrorAbsorbs(log[..|log| - 1], a, log[|log| - 1].from, i);
    }
  }

  /** `calls` occur in `heard`, in this order, with others between them. */
  predicate Within(calls: seq<Call>, heard: seq<Call>)
    decreases |calls|
  {
    calls != [] ==>
      exists j :: 0 <= j < |heard| && heard[j] == calls[|calls| - 1] && Within(calls[..|calls| - 1], heard[..j])
  }

  lemma WithinNone()
    ensures Within([], [])
  { }

  lemma {:induction false} StillWithin(calls: seq<Call>, heard: seq<Call>, heard': seq<Call>)
    requires Within(calls, heard) && heard <= heard'
    ensures Within(calls, heard')
  {
    if calls != [] {
      var j :| 0 <= j < |heard| && heard[j] == calls[|calls| - 1] && Within(calls[..|calls| - 1], heard[..j]);
      assert heard'[j] == heard[j] && heard'[..j] == heard[..j];
    }
  }

  lemma WithinNext(calls: seq<Call>, heard: seq<Call>, c: Call, heard': seq<Call>)
    requires Within(calls, heard) && heard + [c] <= heard'
    ensures Within(calls + [c], heard')
  {
    var j := |heard|;
    assert heard'[j] == c && heard'[..j] == heard && (calls + [c])[..|calls|] == calls;
  }

  lemma PathSnoc(log: seq<Change>, a: State, b: State, c: Change)
    requires Path(log, a, b) && c.from == b && Allowed(c)
    ensures Path(log + [c], a, c.to)
  { }

  class Router {
    var state: State
    var error: int
    var timer: bool            // statetimer is not NULL
    var bound: bool            // packet->router is not NULL
    var script: seq<Visit>     // what the coming calls of the packet interface do

    ghost var log: seq<Change>
    ghost var asked: seq<Ask>  // calls of the packet interface so far
    ghost var heard: seq<Call> // calls made back, or from outside, so far
    ghost var done: seq<Event> // events so far
    ghost var depth: nat       // unbind calls issued by the ERROR entry and not yet returned
    ghost var deepest: nat     // the greatest `depth` so far
    ghost const mem: bool      // all timer allocations succeed

    /** All that holds even between the two halves of a change of state. */
    ghost predicate Sound()
      reads this
    {
      && Path(log, START, state)
      && (mem ==> forall v :: v in script ==> Fed(v))
      && (mem && depth > 0 ==> state == ERROR && timer)
      && (mem ==> deepest <= 1 && depth <= 1)
      && (state == LISTEN ==> !timer)
      && (state == BIND || state == LISTEN ==> bound)
    }

    ghost predicate Valid()
      reads this
    {
      Sound() && Answered(log, asked) && (error != 0 ==> state == ERROR)
    }

    /** With memory, a state that waits has its timer. */
    ghost predicate Armed()
      reads this
    {
      mem && (state == BIND || state == CLOSE || state == UNBIND) ==> timer
    }

    /** These calls have been made since. */
    twostate predicate Heard(calls: seq<Call>)
      reads this
    {
      old(heard) <= heard && Within(calls, heard[|old(heard)|..])
    }

    /** What any activity of the router keeps. */
    twostate predicate Kept()
      reads this
    {
      && (old(state) == ERROR ==> state == ERROR && error == old(error))
      && (old(error) != 0 ==> error == old(error)) && (old(bound) ==> bound) && (old(Armed()) ==> Armed())
      && old(log) <= log && old(asked) <= asked && old(heard) <= heard
      && depth == old(depth) && |script| <= |old(script)|
    }

    /** What calls of the packet interface cannot do: start, bind, or listen without having bound. */
    twostate predicate Called()
      reads this
    {
      && (state == START ==> old(state) == START) && (state == BIND ==> old(state) == BIND)
      && (state == LISTEN ==> old(state) == BIND || old(state) == LISTEN) && bound == old(bound)
    }

    /** The first thing that happened was the change to `to`, or to ERROR where that cannot be left. */
    twostate predicate Went(to: State)
      reads this
    {
      |old(log)| < |log| && log[|old(log)|] ==
        Change(old(state), if old(state) == ERROR then ERROR else to, log[|old(log)|].bound, |old(asked)|)
    }

    /** What an action comes to, by the state it finds. */
    twostate predicate Acted(timeout: bool, setup: int, late: bool, calls: seq<Call>, listen: int, alloc: bool)
      reads this
    {
      && (old(state) == LISTEN || (old(state) == CLOSE && !late) ==> Heard(calls))
      && (old(state) == START ==> Went(if timeout && setup == 0 then BIND else ERROR))
      && (old(state) == START && timeout && setup == 0 ==> bound && log[|old(log)|].bound)
      && (old(state) == START && !(timeout && setup == 0) ==> error == if timeout then setup else EINVAL)
      && (old(state) == BIND ==>
                  if timeout && !late then log == old(log) && state == BIND && timer == alloc
                  else Went(ERROR) && error == if timeout then ETIME else EINVAL)
      && ((old(state) == LISTEN || old(state) == CLOSE) && listen != 0 ==> state == ERROR)
      && (old(state) == LISTEN && calls == [] ==>
                  if listen == 0 then log == old(log) else Went(ERROR) && error == listen)
      && (old(state) == CLOSE && calls == [] ==>
                  if listen != 0 then Went(ERROR) && error == listen
                  else if late then Went(UNBIND) else log == old(log))
      && (old(state) == UNBIND ==> if late then Went(END) else log == old(log))
      && (old(state) == END || old(state) == ERROR ==> log == old(log) && state == old(state))
    }

    constructor (script: seq<Visit>, ghost mem: bool)
      requires mem ==> forall v :: v in script ==> Fed(v)
      ensures Valid() && Armed() && state == START && error == 0 && depth == 0 && this.script == script && this.mem == mem
      ensures log == [] && asked == [] && heard == [] && done == [] && !bound && !timer
    {
      state, error, timer, bound := START, 0, false, false;
      this.script := script;
      log, asked, heard, done, depth, deepest := [], [], [], [], 0, 0;
      this.mem := mem;
    }

    /** A call of the packet interface: the next visit of the script. */
    method NextVisit(ghost ask: Ask) returns (v: Visit)
      requires mem ==> forall v :: v in script ==> Fed(v)
      modifies this`script, this`asked
      ensures asked == old(asked) + [ask]
      ensures mem ==> Fed(v) && forall v :: v in script ==> Fed(v)
      ensures old(script) == [] ==> v == Visit(true, []) && script == []
      ensures old(script) != [] ==> v == old(script)[0] && script == old(script)[1..]
    {
      asked := asked + [ask];
      if script == [] {
        v := Visit(true, []);
      } else {
        v := script[0];
        script := script[1..];
      }
    }

    twostate lemma NoneHeard()
      requires heard == old(heard)
      ensures Heard([])
    {
      WithinNone();
    }

    method Run(calls: seq<Call>)
      requires Valid() && (mem ==> forall c :: c in calls ==> FedCall(c))
      modifies this
      ensures Valid() && Kept() && Called() && Heard(calls) && done == old(done)
      decreases |script|, 3
    {
      hide Path, Answered, Within, Demands;
      ghost var start := heard;
      WithinNone();
      assert calls[..0] == [] && heard[|start|..] == [];
      for i := 0 to |calls|
        invariant Valid() && Kept() && Called() && done == old(done)
        invariant start <= heard && Within(calls[..i], heard[|start|..])
      {
        ghost var before := heard;
        Handle(calls[i]);
        WithinNext(calls[..i], before[|start|..], calls[i], heard[|start|..]);
        assert calls[..i + 1] == calls[..i] + [calls[i]];
      }
      assert calls[..|calls|] == calls;
    }

    method Handle(call: Call)
      requires Valid() && (mem ==> FedCall(call))
      modifies this
      ensures Valid() && Kept() && Called()
      ensures old(heard) + [call] <= heard && done == old(done)
      ensures call.Ready? ==> Went(if old(state) == BIND then LISTEN else ERROR)
      ensures call == Unready(0) ==> Went(END)
      ensures call.Fail? || (call.Unready? && call.err != 0) ==>
                state == ERROR && (old(state) != ERROR ==> Went(ERROR) && error == call.err)
      ensures call.Stop? ==>
                if !call.alloc && (old(state) == START || old(state) == BIND || old(state) == LISTEN)
                then Went(CLOSE) else log == old(log) && state == old(state)
      decreases |script|, 2
    {
      heard := heard + [call];
      match call
      case Ready =>
        if state == BIND { SetState(LISTEN, true); } else { SetState(ERROR, true); }
      case Unready(err) =>
        if err != 0 { SetError(err); } else { SetState(END, true); }
      case Fail(err) =>
        SetError(err);
      case Stop(alloc, again) =>
        if (state == START || state == BIND || state == LISTEN) && !alloc { SetState(CLOSE, again); }
    }

    /** `_trip_set_error`. */
    method SetError(err: int)
      requires Valid()
      modifies this
      ensures Valid() && Kept() && Called() && state == ERROR && done == old(done)
      ensures old(state) == ERROR ==> log == old(log) && asked == old(asked)
      ensures old(state) != ERROR ==> Went(ERROR) && log[|old(log)|].bound == old(bound) && error == err
      decreases |script|, 1, 1
    {
      if state != ERROR {
        error := err;
        SetState(ERROR, true);
      }
    }

    /** `_trip_set_state`. `alloc` is whether the timer armed on entering CLOSE could be allocated. The call
        of the packet interface that the change demands is the first that follows it. */
    method SetState(target: State, alloc: bool)
      requires Sound() && Answered(log, asked) && (error != 0 ==> state == ERROR || target == ERROR)
      requires mem ==> alloc
      requires target == LISTEN ==> state == BIND
      requires target == BIND ==> state == START && bound
      modifies this
      ensures done == old(done)
      ensures Valid() && Kept() && Armed() && Went(target) && log[|old(log)|].bound == old(bound)
      ensures target != START && target != BIND ==> Called()
      ensures target == ERROR ==> state == ERROR && error == old(error)
      ensures target == CLOSE && old(state) != ERROR ==> timer == alloc && state == CLOSE && asked == old(asked)
      decreases |script|, 1, 0
    {
      hide Demands;
      ghost var change := Change(state, if state == ERROR then ERROR else target, bound, |asked|);
      if state == BIND || state == CLOSE || state == UNBIND { timer := false; }
      PathSnoc(log, START, state, change);
      state := if state == ERROR then ERROR else target;
      log := log + [change];
      hide Path, Fed;
      Enter(alloc, change);
    }

    /** The second half of `_trip_set_state`. */
    method Enter(alloc: bool, ghost c: Change)
      requires Sound() && (mem ==> alloc) && (error != 0 ==> state == ERROR)
      requires log != [] && c == log[|log| - 1] && Answered(log[..|log| - 1], asked)
      requires c.to == state && c.asked == |asked| && c.bound == bound
      requires (c.from == BIND || c.from == LISTEN || c.from == CLOSE || c.from == UNBIND) && state == ERROR ==> !timer
      modifies this
      ensures Valid() && Kept() && (old(state) == ERROR ==> error == old(error)) && done == old(done)
      ensures c.from != ERROR ==> Armed()
      ensures Called() || old(state) == START || old(state) == BIND
      ensures old(state) == CLOSE ==> timer == alloc && state == CLOSE && asked == old(asked)
      decreases |script|, 0, 1
    {
      AnsweredNext(log[..|log| - 1], asked, c);
      assert log == log[..|log| - 1] + [c];
      hide Path, Fed, Answered;
      match state {
        case BIND => EnterBind();
        case CLOSE => timer := alloc;
        case UNBIND => EnterUnbind();
        case ERROR => EnterError(c);
        case _ =>
      }
    }

    /** BIND: arm the timer, then bind. */
    method EnterBind()
      requires Sound() && state == BIND && error == 0 && Answered(log, asked + [Bind])
      modifies this
      ensures Valid() && Kept() && Armed() && old(asked) + [Bind] <= asked && done == old(done)
      ensures Heard(if old(script) == [] then [] else old(script)[0].calls)
      ensures old(script) == [] ==> timer && state == BIND && asked == old(asked) + [Bind]
      decreases |script|, 0, 0
    {
      hide Path, Answered;
      var v := NextVisit(Bind);
      timer := v.alloc;
      if v.calls != [] { Run(v.calls); } else { NoneHeard(); }
    }

    /** UNBIND: unbind, and arm the timer afterwards, whatever has happened meanwhile. */
    method EnterUnbind()
      requires Sound() && state == UNBIND && error == 0 && Answered(log, asked + [Unbind])
      modifies this
      ensures Valid() && Kept() && Called() && Armed() && old(asked) + [Unbind] <= asked && done == old(done)
      ensures Heard(if old(script) == [] then [] else old(script)[0].calls)
      ensures timer == if old(script) == [] then true else old(script)[0].alloc
      decreases |script|, 0, 0
    {
      hide Path, Answered;
      var v := NextVisit(Unbind);
      if v.calls != [] { Run(v.calls); } else { NoneHeard(); }
      timer := v.alloc;
    }

    /** ERROR: unbind if bound, unless a timer says that this is being done. */
    method EnterError(ghost c: Change)
      requires Sound() && state == ERROR
      requires if bound && !timer then Answered(log, asked + [Unbind]) else Answered(log, asked)
      modifies this
      ensures Valid() && Kept() && Called() && error == old(error) && done == old(done)
      ensures old(bound) && !old(timer) ==> Heard(if old(script) == [] then [] else old(script)[0].calls)
      ensures if old(bound) && !old(timer) then old(asked) + [Unbind] <= asked else asked == old(asked) && log == old(log)
      decreases |script|, 0, 0
    {
      hide Path, Answered;
      if bound && !timer {
        var v := NextVisit(Unbind);
        timer := v.alloc;
        depth := depth + 1;
        if depth > deepest { deepest := depth; }
        if v.calls != [] { Run(v.calls); } else { NoneHeard(); }
        depth := depth - 1;
      }
    }

    /** One event, with no call of the packet interface on the stack. */
    method Step(e: Event)
      requires Valid() && Armed() && depth == 0 && (mem ==> FedEvent(e))
      modifies this
      ensures Valid() && Armed() && Kept() && done == old(done) + [e]
      ensures e.Outside? ==> old(heard) + [e.call] <= heard
      ensures e.SendTimer? ==> Heard(e.calls) && (e.listen != 0 ==> state == ERROR)
      ensures e.Action? ==> Acted(e.timeout, e.setup, e.late, e.calls, e.listen, e.alloc)
      ensures e.RouterTimer? ==>
                if old(state) == ERROR then state == ERROR && !timer && asked == old(asked) else Went(ERROR) && error == ETIME
      ensures e.StopTimer? ==> Went(CLOSE)
      ensures e.Start? && old(state) == START ==> Went(if e.setup == 0 then BIND else ERROR)
      ensures e.Start? && old(state) == END ==>
                |old(log)| + 1 < |log| && log[|old(log)|].to == START
                && log[|old(log)| + 1].to == if e.setup == 0 then BIND else ERROR
      ensures e.Start? && old(state) != START && old(state) != END ==> log == old(log) && state == old(state)
    {
      hide Path, Answered, Within;
      done := done + [e];
      match e
      case Outside(call) => Handle(call);
      case Start(setup) =>
        if state == END { Restart(); }
        if state == START { Act(true, setup, false, [], 0, true); }
      case Action(timeout, setup, late, calls, listen, alloc) => Act(timeout, setup, late, calls, listen, alloc);
      case SendTimer(calls, listen) => Listen(calls, listen);
      case RouterTimer => Expire();
      case StopTimer(alloc) => SetState(CLOSE, alloc);
    }

    /** `trip_start` in END. */
    method Restart()
      requires Valid() && state == END && depth == 0
      modifies this`state, this`log
      ensures Valid() && Armed() && state == START
      ensures |log| == |old(log)| + 1 && old(log) <= log && log[|old(log)|].to == START
    {
      ghost var change := Change(END, START, bound, |asked|);
      PathSnoc(log, START, END, change);
      AnsweredNext(log, asked, change);
      log := log + [change];
      state := START;
    }

    /** `_trip_timeout_router_cb`. */
    method Expire()
      requires Valid() && depth == 0
      modifies this
      ensures Valid() && Kept() && Armed()
      ensures done == old(done)
      ensures if old(state) == ERROR then state == ERROR && !timer && asked == old(asked)
              else Went(ERROR) && error == ETIME
    {
      hide Path, Answered;
      timer := false;
      if state != ERROR { SetError(ETIME); }
    }

    /** `_trip_listen`, as far as it can change the state: the packet interface calls back while it reads
        and sends, and then there may be an error. */
    method Listen(calls: seq<Call>, err: int)
      requires Valid() && (mem ==> forall c :: c in calls ==> FedCall(c))
      modifies this
      ensures Valid() && Kept() && Called() && Heard(calls) && done == old(done)
      ensures err != 0 ==> state == ERROR
      ensures calls == [] ==>
                if err == 0 || old(state) == ERROR then log == old(log) && state == old(state) && asked == old(asked)
                else Went(ERROR) && error == err
    {
      hide Within, Path, Answered;
      ghost var start := heard;
      if calls != [] { Run(calls); } else { NoneHeard(); }
      ghost var middle := heard;
      if err != 0 { SetError(err); }
      StillWithin(calls, middle[|start|..], heard[|start|..]);
    }

    /** `trip_action`, after the timers have been walked. */
    method Act(timeout: bool, setup: int, late: bool, calls: seq<Call>, listen: int, alloc: bool)
      requires Valid() && depth == 0 && (mem ==> alloc && forall c :: c in calls ==> FedCall(c))
      modifies this
      ensures Valid() && Kept() && done == old(done)
      ensures Acted(timeout, setup, late, calls, listen, alloc)
    {
      hide Path, Answered, Within;
      match state
      case START =>
        if !timeout {
          SetError(EINVAL);
        } else if setup != 0 {
          SetError(setup);
        } else {
          bound := true;
          SetState(BIND, true);
        }
      case BIND =>
        if !timeout {
          SetError(EINVAL);
        } else if late {
          SetError(ETIME);
        } else {
          timer := alloc;
        }
      case LISTEN =>
        Listen(calls, listen);
      case CLOSE =>
        Listen(calls, listen);
        if late { SetState(UNBIND, true); }
      case UNBIND =>
        if late { SetState(END, true); }
      case _ =>
    }

    /** Every run. The log is a path of allowed changes, each change is followed by the call that it demands
        (so an error between bind and unbind has the packet interface unbind), an error once set stays,
        the states that wait have their timer, and the ERROR entry never has two of its unbind calls on the
        stack. */
    method RunAll(events: seq<Event>)
      requires Valid() && Armed() && depth == 0
      requires mem ==> forall e :: e in events ==> FedEvent(e)
      modifies this
      ensures Valid() && Armed() && Kept() && done == old(done) + events
      ensures forall i :: 0 <= i < |log| && log[i].to == ERROR && log[i].bound && log[i].from != ERROR
                          && log[i].from != START && log[i].from != END ==>
                log[i].asked < |asked| && asked[log[i].asked] == Unbind
      ensures forall i :: 0 <= i < |log| && (log[i].to == BIND || log[i].to == UNBIND) ==>
                log[i].asked < |asked| && asked[log[i].asked] == if log[i].to == BIND then Bind else Unbind
    {
      for i := 0 to |events|
        invariant Valid() && Armed() && Kept() && done == old(done) + events[..i]
      {
        hide Answered, Path;
        Step(events[i]);
        assert events[..i + 1] == events[..i] + [events[i]];
      }
      assert events[..|events|] == events;
      WhatIsDemanded(log, asked);
    }
  }

  lemma WhatIsDemanded(log: seq<Change>, asked: seq<Ask>)
    requires Answered(log, asked)
    ensures forall i :: 0 <= i < |log| && log[i].to == ERROR && log[i].bound && log[i].from != ERROR
                        && log[i].from != START && log[i].from != END ==>
              log[i].asked < |asked| && asked[log[i].asked] == Unbind
    ensures forall i :: 0 <= i < |log| && (log[i].to == BIND || log[i].to == UNBIND) ==>
              log[i].asked < |asked| && asked[log[i].asked] == if log[i].to == BIND then Bind else Unbind
  {
    forall i | 0 <= i < |log| ensures forall a :: Demands(log[i], a) ==> log[i].asked < |asked| && asked[log[i].asked] == a { }
    assert forall i :: 0 <= i < |log| && log[i].to == BIND ==> Demands(log[i], Bind);
    assert forall i :: 0 <= i < |log| && log[i].to == UNBIND ==> Demands(log[i], Unbind);
    forall i | 0 <= i < |log| && log[i].to == ERROR && log[i].bound && log[i].from != ERROR
               && log[i].from != START && log[i].from != END
      ensures Demands(log[i], Unbind)
    { }
  }
}
