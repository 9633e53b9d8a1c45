/** How long the event loop sleeps: `trip_timeout` of src/trip.c, and `next_timeout` and
    `_trip_timeout_cb` of src/trip_poll.c, with the clock standing still during the step. */
module Wait {
  import opened Options
  import opened Timers

  const TRIPTIME_END: int := 0xFFFF_FFFF_FFFF_FFFF
  const MAX_TIMEOUT: int := 1024

  function Min(a: int, b: int): int {
    if a < b then a else b
  }

  /** `ms` cut to the range that the loop may sleep. */
  function Clamp(ms: int): int {
    if ms < 0 then 0 else Min(ms, MAX_TIMEOUT)
  }

  function OrEnd(d: Option<int>): int {
    if d.None? then TRIPTIME_END else d.value
  }

  predicate NoAdds(script: seq<seq<Act>>) {
    forall i, j :: 0 <= i < |script| && 0 <= j < |script[i]| ==> script[i][j].Cancel?
  }

  lemma {:induction false} CancelsOnly(s: Walk, acts: seq<Act>)
    requires forall j :: 0 <= j < |acts| ==> acts[j].Cancel?
    ensures PerformAll(s, acts).late == s.late
    decreases |acts|
  {
    if acts != [] { CancelsOnly(Perform(s, acts[0]), acts[1..]); }
  }

  /** Without adds nothing is pushed behind the back of the walk. */
  lemma {:induction false} NoLatePush(now: int, s: Walk, script: seq<seq<Act>>)
    requires NoAdds(script)
    ensures Finish(now, s, script).late == s.late
    decreases |script|, |s.rest|
  {
    if s.rest != [] {
      QuietTurn(now, s);
      if Fires(s.rest[0], now) {
        CancelsOnly(Log(s.(rest := s.rest[1..]), Fired(s.rest[0].id, now)), Head(script));
        NoLatePush(now, Turn(now, s, Head(script)), Tail(script));
      } else {
        NoLatePush(now, Turn(now, s, []), script);
      }
    }
  }

  // ---- timers pushed after the first survivor ----

  function Deadlines(acts: seq<Act>): seq<int> {
    if acts == [] then []
    else (if acts[0].Add? then [acts[0].deadline] else []) + Deadlines(acts[1..])
  }

  /** The deadlines of the timers that callbacks add once the walk has passed a survivor. */
  function LateAdds(now: int, s: Walk, script: seq<seq<Act>>): seq<int>
    decreases |script|, |s.rest|
  {
    if s.rest == [] then []
    else if Fires(s.rest[0], now) then
      QuietTurn(now, s);
      (if s.front == [] then [] else Deadlines(Head(script)))
      + LateAdds(now, Turn(now, s, Head(script)), Tail(script))
    else LateAdds(now, Turn(now, s, []), script)
  }

  predicate NoneBefore(ds: seq<int>, b: int) {
    forall d :: d in ds ==> b <= d
  }

  /** None of these timers is due before `b`. */
  predicate Punctual(l: seq<Timer>, b: int) {
    forall i :: 0 <= i < |l| ==> b <= l[i].deadline
  }

  predicate LatePunctual(s: Walk, b: int) {
    forall i :: 0 <= i < s.late && i < |s.front| ==> b <= s.front[i].deadline
  }

  lemma {:induction false} LateActs(s: Walk, acts: seq<Act>, b: int)
    requires s.late <= |s.front|
    ensures var s' := PerformAll(s, acts);
            && s'.late <= |s'.front|
            && (LatePunctual(s', b) <==> LatePunctual(s, b) && (s.front == [] || NoneBefore(Deadlines(acts), b)))
    decreases |acts|
  {
    if acts != [] {
      LateAct(s, acts[0], b);
      LateActs(Perform(s, acts[0]), acts[1..], b);
      if acts[0].Add? { assert acts[0].deadline in [acts[0].deadline]; }
      NoneBeforeConcat(if acts[0].Add? then [acts[0].deadline] else [], Deadlines(acts[1..]), b);
    }
  }

  lemma LateAct(s: Walk, a: Act, b: int)
    requires s.late <= |s.front|
    ensures var s' := Perform(s, a);
            && s'.late <= |s'.front| && (s'.front == [] <==> s.front == [])
            && (LatePunctual(s', b) <==> LatePunctual(s, b) && (s.front == [] || a.Cancel? || b <= a.deadline))
  {
    var s' := Perform(s, a);
    if a.Cancel? {
      assert forall i :: 0 <= i < |s.front| ==> s'.front[i].deadline == s.front[i].deadline;
    } else if s.front != [] {
      assert s'.front[0].deadline == a.deadline;
      forall i | 0 < i < s'.late ensures s'.front[i] == s.front[i - 1] { }
      forall i | 0 <= i < s.late && LatePunctual(s', b) ensures b <= s.front[i].deadline {
        assert s'.front[i + 1] == s.front[i];
      }
    }
  }

  /** The late pushes that a walk leaves on the list are exactly the late adds of its callbacks. */
  lemma {:induction false} LateAddsLaw(now: int, s: Walk, script: seq<seq<Act>>, b: int)
    requires s.late <= |s.front|
    ensures LatePunctual(Finish(now, s, script), b) <==> LatePunctual(s, b) && NoneBefore(LateAdds(now, s, script), b)
    decreases |script|, |s.rest|
  {
    if s.rest != [] {
      QuietTurn(now, s);
      if Fires(s.rest[0], now) {
        var m := Turn(now, s, Head(script));
        LateActs(Log(s.(rest := s.rest[1..]), Fired(s.rest[0].id, now)), Head(script), b);
        LateAddsLaw(now, m, Tail(script), b);
        NoneBeforeConcat(if s.front == [] then [] else Deadlines(Head(script)), LateAdds(now, m, Tail(script)), b);
      } else {
        var m := Turn(now, s, []);
        assert m.late == s.late && forall i :: 0 <= i < |s.front| ==> m.front[i] == s.front[i];
        LateAddsLaw(now, m, script, b);
      }
    }
  }

  lemma NoneBeforeConcat(x: seq<int>, y: seq<int>, b: int)
    ensures NoneBefore(x + y, b) <==> NoneBefore(x, b) && NoneBefore(y, b)
  {
    assert forall d :: d in x + y <==> d in x || d in y;
  }

  /** All that callbacks add is due at `b` or later; a script that adds nothing is one of these. */
  predicate Careful(script: seq<seq<Act>>, b: int) {
    forall i, j :: 0 <= i < |script| && 0 <= j < |script[i]| && script[i][j].Add? ==> b <= script[i][j].deadline
  }

  lemma {:induction false} CarefulActs(acts: seq<Act>, b: int)
    requires forall j :: 0 <= j < |acts| && acts[j].Add? ==> b <= acts[j].deadline
    ensures NoneBefore(Deadlines(acts), b)
  {
    if acts != [] { CarefulActs(acts[1..], b); }
  }

  lemma {:induction false} CarefulAdds(now: int, s: Walk, script: seq<seq<Act>>, b: int)
    requires Careful(script, b)
    ensures NoneBefore(LateAdds(now, s, script), b)
    decreases |script|, |s.rest|
  {
    if s.rest != [] {
      QuietTurn(now, s);
      if Fires(s.rest[0], now) {
        CarefulActs(Head(script), b);
        var m := Turn(now, s, Head(script));
        CarefulAdds(now, m, Tail(script), b);
        NoneBeforeConcat(if s.front == [] then [] else Deadlines(Head(script)), LateAdds(now, m, Tail(script)), b);
      } else {
        CarefulAdds(now, Turn(now, s, []), script, b);
      }
    }
  }

  class Poll {
    var deadline: int

    constructor ()
      ensures deadline == TRIPTIME_END
    {
      deadline := TRIPTIME_END;
    }

    /** `next_timeout`; `user` is the deadline given by the caller of the loop. */
    method NextTimeout(user: int, now: int) returns (ms: int)
      modifies this
      ensures ms == Clamp(Min(user, old(deadline)) - now)
      ensures 0 <= ms <= 1024 && (user <= now || old(deadline) <= now ==> ms == 0)
      ensures user > now && old(deadline) > now ==>
                now + ms <= user && now + ms <= old(deadline) && (ms == 1024 || now + ms == user || now + ms == old(deadline))
      ensures deadline == if old(deadline) <= user && old(deadline) <= now then TRIPTIME_END else old(deadline)
    {
      if user < deadline {
        if user <= now {
          ms := 0;
        } else if user >= now + MAX_TIMEOUT {
          ms := MAX_TIMEOUT;
        } else {
          ms := user - now;
        }
      } else {
        if deadline <= now {
          deadline := TRIPTIME_END;
          ms := 0;
        } else if deadline >= now + MAX_TIMEOUT {
          ms := MAX_TIMEOUT;
        } else {
          ms := deadline - now;
        }
      }
    }
  }

  lemma EarliestKept(f: Walk)
    requires f.late <= |f.front|
    ensures Earliest(Kept(f)).None? <==> f.late == |f.front|
    ensures f.late < |f.front| ==> exists i :: f.late <= i < |f.front| && f.front[i].deadline == Earliest(Kept(f)).value
    ensures forall i :: f.late <= i < |f.front| ==> Earliest(Kept(f)).Some? && Earliest(Kept(f)).value <= f.front[i].deadline
  {
    EarliestLeast(Kept(f));
    hide Earliest;
    if f.late < |f.front| {
      var j :| 0 <= j < |Kept(f)| && Kept(f)[j].deadline == Earliest(Kept(f)).value;
      assert f.front[f.late + j].deadline == Earliest(Kept(f)).value;
    }
    forall i | f.late <= i < |f.front| ensures Earliest(Kept(f)).Some? && Earliest(Kept(f)).value <= f.front[i].deadline {
      assert Kept(f)[i - f.late] == f.front[i];
    }
  }

  /** `trip_timeout`: walk the list, then tell the loop the time to the earliest survivor. */
  method TripTimeout(w: TimerWheel, p: Poll, now: int, script: seq<seq<Act>>)
    requires w.Valid() && 0 <= now && now + MAX_TIMEOUT < TRIPTIME_END
    modifies w, p
    ensures var f := Finish(now, Idle(old(w.list), old(w.hist)), script);
            && w.list == f.front && w.hist == f.hist && w.Valid()
            && f.late <= |f.front| && (forall i :: f.late <= i < |f.front| ==> now < f.front[i].deadline)
            && p.deadline == Min(OrEnd(Earliest(Kept(f))), now + MAX_TIMEOUT)
    ensures var f := Finish(now, Idle(old(w.list), old(w.hist)), script);
            && now < p.deadline <= now + 1024 && f.late <= |f.front|
            && (forall i :: f.late <= i < |f.front| ==> p.deadline <= f.front[i].deadline)
            && (p.deadline == now + 1024 || exists i :: f.late <= i < |f.front| && p.deadline == f.front[i].deadline)
  {
    ghost var start := Idle(w.list, w.hist);
    WalkSound(now, start, script);
    ghost var f := Finish(now, start, script);
    hide Finish, Earliest, Survivors, Ids;
    EarliestKept(f);
    var e := w.WalkWith(now, script);
    var mindeadline := if e.None? then TRIPTIME_END else e.value;
    var ms := if mindeadline > now + MAX_TIMEOUT then MAX_TIMEOUT else mindeadline - now;
    p.deadline := now + ms;
  }

  /** What a walk `f` from `start` and the wait after it come to. */
  ghost predicate Outcome(now: int, start: Walk, script: seq<seq<Act>>, user: int, f: Walk, ms: int) {
    && f == Finish(now, start, script) && f.late <= |f.front|
    && ms == Clamp(Min(user, OrEnd(Earliest(Kept(f)))) - now) && Punctual(Kept(f), now + ms)
  }

  /** Of all linked timers, only late pushes can be due before the end of the wait. */
  lemma WaitPasses(now: int, start: Walk, script: seq<seq<Act>>, user: int, f: Walk, ms: int)
    requires start.front == [] && start.late == 0 && Outcome(now, start, script, user, f, ms)
    ensures Punctual(f.front, now + ms) <==> NoneBefore(LateAdds(now, start, script), now + ms)
  {
    LateAddsLaw(now, start, script, now + ms);
    hide Finish, LateAdds, NoneBefore, Earliest;
    assert forall i :: f.late <= i < |f.front| ==> f.front[i] == Kept(f)[i - f.late];
  }

  lemma WaitIsShort(now: int, l: seq<Timer>, user: int)
    requires forall i :: 0 <= i < |l| ==> now < l[i].deadline
    ensures Punctual(l, now + Clamp(Min(user, OrEnd(Earliest(l))) - now))
  {
    EarliestLeast(l);
  }

  /** `trip_timeout`, then `next_timeout`. */
  method WalkThenWait(w: TimerWheel, p: Poll, now: int, script: seq<seq<Act>>, user: int)
    returns (ms: int, ghost f: Walk)
    requires w.Valid() && 0 <= now && now + MAX_TIMEOUT < TRIPTIME_END
    modifies w, p
    ensures w.Valid() && w.list == f.front
    ensures Outcome(now, Idle(old(w.list), old(w.hist)), script, user, f, ms)
  {
    hide Finish, Earliest, Punctual, Inv;
    f := Finish(now, Idle(w.list, w.hist), script);
    TripTimeout(w, p, now, script);
    ms := p.NextTimeout(user, now);
    WaitIsShort(now, Kept(f), user);
  }

  /** No oversleep, exactly: for every script, the next wait is the time to the earlier of the user's
      deadline and the earliest survivor of the walk, cut to [0, 1024]. It passes no deadline on the list
      if and only if none of the timers that callbacks added after the first survivor is due before its
      end. It suffices that all they add is due no earlier than the wait could last for the user alone;
      if they add nothing, the earliest survivor is the earliest timer. */
  method TimeoutThenWait(w: TimerWheel, p: Poll, now: int, script: seq<seq<Act>>, user: int)
    returns (ms: int, ghost f: Walk)
    requires w.Valid() && 0 <= now && now + MAX_TIMEOUT < TRIPTIME_END
    modifies w, p
    ensures w.Valid() && w.list == f.front
    ensures Outcome(now, Idle(old(w.list), old(w.hist)), script, user, f, ms)
    ensures Punctual(w.list, now + ms) <==>
              NoneBefore(LateAdds(now, Idle(old(w.list), old(w.hist)), script), now + ms)
    ensures Careful(script, now + Clamp(user - now)) ==> Punctual(w.list, now + ms)
    ensures NoAdds(script) ==> ms == Clamp(Min(user, OrEnd(Earliest(w.list))) - now) && Punctual(w.list, now + ms)
  {
    hide Outcome, Earliest, LateAdds, NoneBefore, Careful, NoAdds, Punctual, Inv, Clamp, Min;
    ghost var start := Idle(w.list, w.hist);
    ms, f := WalkThenWait(w, p, now, script, user);
    WaitPasses(now, start, script, user, f, ms);
    Sufficient(now, start, script, user, f, ms);
  }

  lemma Sufficient(now: int, start: Walk, script: seq<seq<Act>>, user: int, f: Walk, ms: int)
    requires start.front == [] && start.late == 0 && Outcome(now, start, script, user, f, ms)
    ensures Careful(script, now + Clamp(user - now)) ==> NoneBefore(LateAdds(now, start, script), now + ms)
    ensures NoAdds(script) ==>
              && ms == Clamp(Min(user, OrEnd(Earliest(f.front))) - now)
              && NoneBefore(LateAdds(now, start, script), now + ms)
  {
    hide Finish, LateAdds, Earliest, Punctual;
    assert ms <= Clamp(user - now);
    if Careful(script, now + Clamp(user - now)) { CarefulAdds(now, start, script, now + Clamp(user - now)); }
    if NoAdds(script) {
      NoLatePush(now, start, script);
      assert Kept(f) == f.front;
      CarefulAdds(now, start, script, now + ms);
    }
  }

  /** The walk over a timer for `a` in front of a due one, whose callback adds one for `b`. */
  lemma LateWalk(now: int, a: int, b: int, h: History)
    requires now < a
    ensures var s := Idle([Timer(1, a, true, false), Timer(0, now, true, false)], h);
            var f := Finish(now, s, [[Add(b, true)]]);
            && f.late == 1 && |f.front| == 2 && f.front[0].deadline == b && !f.front[0].canceled
            && Earliest(Kept(f)) == Some(a)
  {
    var acts: seq<Act> := [Add(b, true)];
    var script: seq<seq<Act>> := [acts];
    var s := Idle([Timer(1, a, true, false), Timer(0, now, true, false)], h);
    var s1 := Turn(now, s, []);
    assert s1.front == [s.rest[0]] && s1.rest == [s.rest[1]] && s1.rest[1..] == [];
    assert acts[1..] == [] && script[1..] == [];
    var s2 := Turn(now, s1, acts);
    var m := Log(s1.(rest := []), Fired(0, now));
    assert s2 == Perform(m, acts[0]) by { assert PerformAll(m, acts) == PerformAll(Perform(m, acts[0]), []); }
    assert Finish(now, s, script) == Finish(now, s1, script) == Finish(now, s2, []) == s2;
    assert Kept(s2) == [s.rest[0]] && [s.rest[0]][..0] == [];
  }

  method TwoTimers(now: int, a: int) returns (w: TimerWheel)
    ensures fresh(w) && w.Valid() && w.list == [Timer(1, a, true, false), Timer(0, now, true, false)]
  {
    hide Inv, Perform;
    w := new TimerWheel();
    AddInv([], w.hist, now, true);
    var k, late := w.Add(now, true, 0, 0, None);
    AddInv(w.list, w.hist, a, true);
    k, late := w.Add(a, true, 0, 0, None);
  }

  /** The failing family: a timer for `a` survives, then a callback adds one for `b`, earlier than `a` and
      than the wait could end otherwise. The loop sleeps past it. */
  method LatePushOversleeps(now: int, a: int, b: int, user: int) returns (w: TimerWheel, ms: int)
    requires 0 <= now <= b < Min(user, Min(a, now + MAX_TIMEOUT)) && now + MAX_TIMEOUT < TRIPTIME_END
    ensures fresh(w) && w.Valid() && |w.list| > 0 && !w.list[0].canceled && w.list[0].deadline == b < now + ms
  {
    hide Finish, LateAdds, Inv, Careful, NoAdds, Earliest, NoneBefore, Punctual;
    ghost var f;
    w := TwoTimers(now, a);
    var p := new Poll();
    LateWalk(now, a, b, w.hist);
    ms, f := TimeoutThenWait(w, p, now, [[Add(b, true)]], user);
  }
}
