/** The timer list of src/timerwheel.c. A walk runs the callbacks of due timers, and a callback may
    add timers at the head of the list being walked, or cancel timers on it. */
module Timers {
  import opened Options

  datatype Timer = Timer(id: int, deadline: int, hasCb: bool, canceled: bool)

  /** What the code of a callback does to the list. */
  datatype Act = Add(deadline: int, hasCb: bool) | Cancel(id: int)

  /** How a timer left the list: its callback was called, or it was freed without that. */
  datatype Event = Fired(id: int, at: int) | Freed(id: int)

  datatype Birth = Birth(deadline: int, hasCb: bool)

  /** All timers ever added, indexed by id, those cancelled while linked, and all departures. */
  datatype History = History(born: seq<Birth>, dead: set<int>, log: seq<Event>)

  /** A walk in progress. `front` is the part of the list before the link that `prev` points to, so
      `prev` is the list head exactly when `front` is empty; `rest` begins with `curr`. `late` counts
      the timers pushed after the first survivor, which stand at the beginning of `front`. */
  datatype Walk = Walk(front: seq<Timer>, rest: seq<Timer>, hist: History, late: nat, min: Option<int>)

  function Mark(l: seq<Timer>, id: int): (m: seq<Timer>)
    ensures |m| == |l|
    ensures forall i {:trigger m[i]} :: 0 <= i < |l| ==> m[i] == if l[i].id == id then l[i].(canceled := true) else l[i]
  {
    seq(|l|, i requires 0 <= i < |l| => if l[i].id == id then l[i].(canceled := true) else l[i])
  }

  predicate Linked(l: seq<Timer>, id: int) {
    exists i :: 0 <= i < |l| && l[i].id == id
  }

  function Perform(s: Walk, a: Act): Walk {
    match a
    case Add(d, cb) =>
      var t := Timer(|s.hist.born|, d, cb, false);
      var hist := s.hist.(born := s.hist.born + [Birth(d, cb)]);
      if s.front == [] then s.(rest := [t] + s.rest, hist := hist)
      else s.(front := [t] + s.front, late := s.late + 1, hist := hist)
    case Cancel(id) =>
      var dead := if Linked(s.front, id) || Linked(s.rest, id) then s.hist.dead + {id} else s.hist.dead;
      s.(front := Mark(s.front, id), rest := Mark(s.rest, id), hist := s.hist.(dead := dead))
  }

  function PerformAll(s: Walk, acts: seq<Act>): Walk
    decreases |acts|
  {
    if acts == [] then s else PerformAll(Perform(s, acts[0]), acts[1..])
  }

  function Log(s: Walk, e: Event): Walk {
    s.(hist := s.hist.(log := s.hist.log + [e]))
  }

  function Lower(min: Option<int>, d: int): Option<int> {
    if min.None? || d < min.value then Some(d) else min
  }

  predicate Due(t: Timer, now: int) {
    now >= t.deadline || t.canceled
  }

  predicate Fires(t: Timer, now: int) {
    Due(t, now) && t.hasCb && !t.canceled
  }

  /** One turn of the walk's loop; `acts` is what the callback does, if one is called. */
  function Turn(now: int, s: Walk, acts: seq<Act>): Walk
    requires s.rest != []
  {
    var t, s1 := s.rest[0], s.(rest := s.rest[1..]);
    if Fires(t, now) then PerformAll(Log(s1, Fired(t.id, now)), acts)
    else if Due(t, now) then Log(s1, Freed(t.id))
    else s1.(front := s.front + [t], min := Lower(s.min, t.deadline))
  }

  function Head(script: seq<seq<Act>>): seq<Act> {
    if script == [] then [] else script[0]
  }

  function Tail(script: seq<seq<Act>>): seq<seq<Act>> {
    if script == [] then [] else script[1..]
  }

  lemma {:induction false} QuietTurn(now: int, s: Walk)
    requires s.rest != []
    ensures |Turn(now, s, []).rest| == |s.rest| - 1
  { }

  /** The rest of a walk. `script[k]` is what the k-th callback to be called does; callbacks past the
      end of the script do nothing. Every terminating walk is one of these. */
  function Finish(now: int, s: Walk, script: seq<seq<Act>>): Walk
    decreases |script|, |s.rest|
  {
    if s.rest == [] then s
    else if Fires(s.rest[0], now) then
      QuietTurn(now, s);
      Finish(now, Turn(now, s, Head(script)), Tail(script))
    else Finish(now, Turn(now, s, []), script)
  }

  // ---- conservation ----

  function Count(l: seq<Timer>, id: int): nat {
    if l == [] then 0 else (if l[0].id == id then 1 else 0) + Count(l[1..], id)
  }

  function CountLog(log: seq<Event>, id: int): nat {
    if log == [] then 0 else CountLog(log[..|log| - 1], id) + if log[|log| - 1].id == id then 1 else 0
  }

  lemma {:induction false} CountConcat(a: seq<Timer>, b: seq<Timer>, id: int)
    ensures Count(a + b, id) == Count(a, id) + Count(b, id)
  {
    if a == [] {
      assert a + b == b;
    } else {
      CountConcat(a[1..], b, id);
      assert (a + b)[1..] == a[1..] + b;
    }
  }

  lemma {:induction false} CountMark(l: seq<Timer>, x: int, id: int)
    ensures Count(Mark(l, x), id) == Count(l, id)
  {
    if l != [] {
      CountMark(l[1..], x, id);
      assert Mark(l, x)[1..] == Mark(l[1..], x);
    }
  }

  /** A timer on the list is as it was added, and marked exactly when it has been cancelled. */
  predicate Faithful(t: Timer, h: History) {
    && 0 <= t.id < |h.born| && h.born[t.id] == Birth(t.deadline, t.hasCb)
    && (t.canceled <==> t.id in h.dead)
  }

  /** A departure is right: a call at or after the deadline for a timer never cancelled, or a silent
      release of a cancelled timer or of one without callback. */
  predicate Rightful(e: Event, h: History) {
    && 0 <= e.id < |h.born|
    && (e.Fired? ==> e.at >= h.born[e.id].deadline && h.born[e.id].hasCb && e.id !in h.dead)
    && (e.Freed? ==> e.id in h.dead || !h.born[e.id].hasCb)
  }

  /** Each timer ever added is on the list once, or has departed once, and not both. */
  ghost predicate Conserved(l: seq<Timer>, h: History) {
    forall id :: 0 <= id < |h.born| ==> Count(l, id) + CountLog(h.log, id) == 1
  }

  ghost predicate Inv(l: seq<Timer>, h: History) {
    && (forall i :: 0 <= i < |l| ==> Faithful(l[i], h))
    && (forall i :: 0 <= i < |h.log| ==> Rightful(h.log[i], h))
    && Conserved(l, h)
    && (forall id :: id in h.dead ==> 0 <= id < |h.born|)
  }

  function All(s: Walk): seq<Timer> {
    s.front + s.rest
  }

  lemma {:induction false} CountZero(l: seq<Timer>, id: int)
    ensures Count(l, id) == 0 <==> !Linked(l, id)
  {
    if l != [] {
      CountZero(l[1..], id);
      if Linked(l[1..], id) {
        var i :| 0 <= i < |l[1..]| && l[1..][i].id == id;
        assert l[i + 1].id == id;
      }
      if Linked(l, id) && l[0].id != id {
        var i :| 0 <= i < |l| && l[i].id == id;
        assert l[1..][i - 1].id == id;
      }
    }
  }

  lemma {:induction false} CountLogZero(log: seq<Event>, id: int)
    requires forall i :: 0 <= i < |log| ==> log[i].id != id
    ensures CountLog(log, id) == 0
  {
    if log != [] { CountLogZero(log[..|log| - 1], id); }
  }

  lemma {:induction false} CountLogPositive(log: seq<Event>, i: nat)
    requires i < |log|
    ensures CountLog(log, log[i].id) >= 1
  {
    if i < |log| - 1 { CountLogPositive(log[..|log| - 1], i); }
  }

  lemma AddInv(l: seq<Timer>, h: History, d: int, cb: bool)
    requires Inv(l, h)
    ensures Inv([Timer(|h.born|, d, cb, false)] + l, h.(born := h.born + [Birth(d, cb)]))
  {
    var n := |h.born|;
    var t := Timer(n, d, cb, false);
    assert ([t] + l)[1..] == l;
    CountZero(l, n);
    CountLogZero(h.log, n);
    forall i | 0 <= i < |h.log| ensures Rightful(h.log[i], h.(born := h.born + [Birth(d, cb)])) {
      assert Rightful(h.log[i], h);
    }
  }

  lemma MarkConcat(a: seq<Timer>, b: seq<Timer>, id: int)
    ensures Mark(a + b, id) == Mark(a, id) + Mark(b, id)
    ensures Linked(a + b, id) <==> Linked(a, id) || Linked(b, id)
  {
    if Linked(a, id) {
      var i :| 0 <= i < |a| && a[i].id == id;
      assert (a + b)[i].id == id;
    }
    if Linked(b, id) {
      var i :| 0 <= i < |b| && b[i].id == id;
      assert (a + b)[|a| + i].id == id;
    }
  }

  lemma CancelInv(l: seq<Timer>, h: History, id: int)
    requires Inv(l, h)
    ensures Inv(Mark(l, id), h.(dead := if Linked(l, id) then h.dead + {id} else h.dead))
  {
    var h' := h.(dead := if Linked(l, id) then h.dead + {id} else h.dead);
    CountZero(l, id);
    if Linked(l, id) {
      var i :| 0 <= i < |l| && l[i].id == id;
      assert Faithful(l[i], h);
    }
    forall i | 0 <= i < |h.log| ensures Rightful(h.log[i], h') {
      assert Rightful(h.log[i], h);
      CountLogPositive(h.log, i);
    }
    forall x | 0 <= x < |h.born| ensures Count(Mark(l, id), x) + CountLog(h.log, x) == 1 {
      CountMark(l, id, x);
    }
    forall i | 0 <= i < |l| ensures Faithful(Mark(l, id)[i], h') {
      assert Faithful(l[i], h);
    }
  }

  /** A timer leaves the list and its departure is recorded. */
  lemma DepartInv(front: seq<Timer>, t: Timer, rest: seq<Timer>, h: History, e: Event)
    requires Inv(front + ([t] + rest), h) && e.id == t.id && Rightful(e, h)
    ensures Inv(front + rest, h.(log := h.log + [e]))
  {
    var h' := h.(log := h.log + [e]);
    var l, l' := front + ([t] + rest), front + rest;
    assert h'.log[..|h.log|] == h.log;
    forall id | 0 <= id < |h.born| ensures Count(l', id) + CountLog(h'.log, id) == 1 {
      CountConcat(front, [t] + rest, id);
      CountConcat(front, rest, id);
      assert ([t] + rest)[1..] == rest;
    }
    forall i | 0 <= i < |l'| ensures Faithful(l'[i], h') {
      assert Faithful(l[if i < |front| then i else i + 1], h);
    }
    forall i | 0 <= i < |h'.log| ensures Rightful(h'.log[i], h') {
      assert i < |h.log| ==> Rightful(h.log[i], h);
    }
  }

  lemma PerformInv(s: Walk, a: Act)
    requires Inv(All(s), s.hist)
    ensures Inv(All(Perform(s, a)), Perform(s, a).hist)
  {
    hide Inv;
    match a
    case Add(d, cb) =>
      AddInv(All(s), s.hist, d, cb);
      var t := Timer(|s.hist.born|, d, cb, false);
      assert [t] + (s.front + s.rest) == ([t] + s.front) + s.rest;
      if s.front == [] { assert [t] + (s.front + s.rest) == s.front + ([t] + s.rest); }
    case Cancel(id) =>
      MarkConcat(s.front, s.rest, id);
      CancelInv(All(s), s.hist, id);
  }

  lemma {:induction false} PerformAllInv(s: Walk, acts: seq<Act>)
    requires Inv(All(s), s.hist)
    ensures Inv(All(PerformAll(s, acts)), PerformAll(s, acts).hist)
    decreases |acts|
  {
    hide Inv, Perform;
    if acts != [] {
      PerformInv(s, acts[0]);
      PerformAllInv(Perform(s, acts[0]), acts[1..]);
    }
  }

  lemma TurnInv(now: int, s: Walk, acts: seq<Act>)
    requires s.rest != [] && Inv(All(s), s.hist)
    ensures Inv(All(Turn(now, s, acts)), Turn(now, s, acts).hist)
  {
    var t, rest := s.rest[0], s.rest[1..];
    assert s.rest == [t] + rest;
    assert Faithful(All(s)[|s.front|], s.hist);
    hide Inv, PerformAll;
    var s1 := s.(rest := rest);
    if Fires(t, now) {
      DepartInv(s.front, t, rest, s.hist, Fired(t.id, now));
      PerformAllInv(Log(s1, Fired(t.id, now)), acts);
    } else if Due(t, now) {
      DepartInv(s.front, t, rest, s.hist, Freed(t.id));
    } else {
      assert s.front + [t] + rest == s.front + ([t] + rest);
    }
  }

  /** Conservation across a whole walk, whatever its callbacks do. */
  lemma {:induction false} WalkInv(now: int, s: Walk, script: seq<seq<Act>>)
    requires Inv(All(s), s.hist)
    ensures Inv(All(Finish(now, s, script)), Finish(now, s, script).hist)
    ensures Finish(now, s, script).rest == []
    decreases |script|, |s.rest|
  {
    hide Inv;
    if s.rest != [] {
      QuietTurn(now, s);
      if Fires(s.rest[0], now) {
        TurnInv(now, s, Head(script));
        WalkInv(now, Turn(now, s, Head(script)), Tail(script));
      } else {
        TurnInv(now, s, []);
        WalkInv(now, Turn(now, s, []), script);
      }
    }
  }

  // ---- which timers one walk visits ----

  function Earliest(l: seq<Timer>): Option<int> {
    if l == [] then None else Lower(Earliest(l[..|l| - 1]), l[|l| - 1].deadline)
  }

  lemma {:induction false} EarliestMark(l: seq<Timer>, id: int)
    ensures Earliest(Mark(l, id)) == Earliest(l)
  {
    if l != [] {
      EarliestMark(l[..|l| - 1], id);
      assert Mark(l, id)[..|l| - 1] == Mark(l[..|l| - 1], id);
    }
  }

  /** `Earliest` is a lower bound of the deadlines and one of them. */
  lemma {:induction false} EarliestLeast(l: seq<Timer>)
    ensures Earliest(l).None? <==> l == []
    ensures l != [] ==> exists i :: 0 <= i < |l| && l[i].deadline == Earliest(l).value
    ensures forall i :: 0 <= i < |l| ==> Earliest(l).Some? && Earliest(l).value <= l[i].deadline
  {
    if l != [] {
      var m := l[..|l| - 1];
      EarliestLeast(m);
      if m != [] {
        var i :| 0 <= i < |m| && m[i].deadline == Earliest(m).value;
        assert l[i].deadline == m[i].deadline && l[|l| - 1].deadline == l[|l| - 1].deadline;
      } else {
        assert l[0].deadline == l[0].deadline;
      }
    }
  }

  /** The survivors visited so far: the front without the late pushes. */
  function Kept(s: Walk): seq<Timer>
    requires s.late <= |s.front|
  {
    s.front[s.late..]
  }

  /** The survivors are not due, and `min` is their earliest deadline. */
  ghost predicate Sound(now: int, s: Walk) {
    && s.late <= |s.front| && (s.front != [] ==> s.late < |s.front|)
    && (forall i :: s.late <= i < |s.front| ==> s.front[i].deadline > now)
    && s.min == Earliest(Kept(s))
  }

  /** From `s` to `f` the front only grows: new late pushes before it, new survivors behind it. */
  ghost predicate Grown(s: Walk, f: Walk) {
    && s.late <= f.late && |s.hist.born| <= |f.hist.born| && f.late - s.late + |s.front| <= |f.front|
    && (forall i :: 0 <= i < f.late - s.late ==> f.front[i].id >= |s.hist.born|)
    && (forall i {:trigger f.front[i]} :: f.late - s.late <= i < f.late - s.late + |s.front| ==>
          f.front[i].id == s.front[i - (f.late - s.late)].id)
  }

  lemma GrownTrans(s: Walk, m: Walk, f: Walk)
    requires Grown(s, m) && Grown(m, f)
    ensures Grown(s, f)
  {
    var d, e := m.late - s.late, f.late - m.late;
    forall i | 0 <= i < d + e ensures f.front[i].id >= |s.hist.born| {
      if i >= e { assert f.front[e + (i - e)].id == m.front[i - e].id; }
    }
    forall i | 0 <= i < |s.front| ensures f.front[d + e + i].id == s.front[i].id {
      assert f.front[e + (d + i)].id == m.front[d + i].id;
    }
  }

  lemma PerformSound(now: int, s: Walk, a: Act)
    requires Sound(now, s)
    ensures Sound(now, Perform(s, a)) && Grown(s, Perform(s, a))
  {
    match a
    case Add(d, cb) => AddSound(now, s, d, cb);
    case Cancel(id) => CancelSound(now, s, id);
  }

  lemma AddSound(now: int, s: Walk, d: int, cb: bool)
    requires Sound(now, s)
    ensures Sound(now, Perform(s, Add(d, cb))) && Grown(s, Perform(s, Add(d, cb)))
  {
    if s.front != [] { assert Kept(Perform(s, Add(d, cb))) == Kept(s); }
  }

  lemma CancelSound(now: int, s: Walk, id: int)
    requires Sound(now, s)
    ensures Sound(now, Perform(s, Cancel(id))) && Grown(s, Perform(s, Cancel(id)))
  {
    CancelGrown(s, id);
    hide Linked, Earliest, Grown;
    MarkDrop(s.front, s.late, id);
    EarliestMark(Kept(s), id);
  }

  lemma {:induction false} CancelGrown(s: Walk, id: int)
    ensures Grown(s, Perform(s, Cancel(id)))
  {
    hide Linked, Mark;
  }

  lemma MarkDrop(l: seq<Timer>, k: nat, id: int)
    requires k <= |l|
    ensures Mark(l, id)[k..] == Mark(l[k..], id)
  { }

  lemma GrownSelf(s: Walk)
    ensures Grown(s, s)
  { }

  lemma {:induction false} PerformAllSound(now: int, s: Walk, acts: seq<Act>)
    requires Sound(now, s)
    ensures Sound(now, PerformAll(s, acts)) && Grown(s, PerformAll(s, acts))
    decreases |acts|
  {
    hide Perform, Sound, Grown;
    GrownSelf(s);
    if acts != [] {
      PerformSound(now, s, acts[0]);
      PerformAllSound(now, Perform(s, acts[0]), acts[1..]);
      GrownTrans(s, Perform(s, acts[0]), PerformAll(s, acts));
    }
  }

  lemma {:induction false} TurnSound(now: int, s: Walk, acts: seq<Act>)
    requires s.rest != [] && Sound(now, s)
    ensures Sound(now, Turn(now, s, acts)) && Grown(s, Turn(now, s, acts))
  {
    hide Sound, Grown, PerformAll;
    var t := s.rest[0];
    if Fires(t, now) {
      var m := Log(s.(rest := s.rest[1..]), Fired(t.id, now));
      DropSound(now, s, Fired(t.id, now));
      PerformAllSound(now, m, acts);
      GrownTrans(s, m, Turn(now, s, acts));
    } else if Due(t, now) {
      DropSound(now, s, Freed(t.id));
    } else {
      PassSound(now, s, t);
    }
  }

  lemma {:induction false} DropSound(now: int, s: Walk, e: Event)
    requires s.rest != [] && Sound(now, s)
    ensures var m := Log(s.(rest := s.rest[1..]), e); Sound(now, m) && Grown(s, m)
  { }

  lemma {:induction false} PassSound(now: int, s: Walk, t: Timer)
    requires s.rest != [] && Sound(now, s) && t == s.rest[0] && t.deadline > now
    ensures var m := s.(front := s.front + [t], rest := s.rest[1..], min := Lower(s.min, t.deadline));
            Sound(now, m) && Grown(s, m)
  {
    PassGrown(s, t);
    hide Earliest, Grown;
    EarliestSnoc(Kept(s), t);
    assert (s.front + [t])[s.late..] == Kept(s) + [t];
  }

  lemma {:induction false} PassGrown(s: Walk, t: Timer)
    requires s.rest != []
    ensures Grown(s, s.(front := s.front + [t], rest := s.rest[1..], min := Lower(s.min, t.deadline)))
  { }

  lemma EarliestSnoc(l: seq<Timer>, t: Timer)
    ensures Earliest(l + [t]) == Lower(Earliest(l), t.deadline)
  {
    assert (l + [t])[..|l|] == l;
  }

  lemma {:induction false} WalkSound(now: int, s: Walk, script: seq<seq<Act>>)
    requires Sound(now, s)
    ensures Sound(now, Finish(now, s, script)) && Grown(s, Finish(now, s, script))
    decreases |script|, |s.rest|
  {
    hide Sound, Turn, Grown;
    GrownSelf(s);
    if s.rest != [] {
      QuietTurn(now, s);
      if Fires(s.rest[0], now) {
        var m := Turn(now, s, Head(script));
        TurnSound(now, s, Head(script));
        WalkSound(now, m, Tail(script));
        GrownTrans(s, m, Finish(now, s, script));
      } else {
        var m := Turn(now, s, []);
        TurnSound(now, s, []);
        WalkSound(now, m, script);
        GrownTrans(s, m, Finish(now, s, script));
      }
    }
  }

  lemma NotTwice(s: Walk, i: nat, j: nat)
    requires Inv(All(s), s.hist) && i < |s.rest| && j < |s.front|
    ensures s.rest[i].id != s.front[j].id
  {
    var id := s.rest[i].id;
    assert Faithful(All(s)[|s.front| + i], s.hist);
    CountConcat(s.front, s.rest, id);
    CountZero(s.front, id);
    CountZero(s.rest, id);
  }

  /** Every timer still to be visited is visited: it departs in this walk, or survives it because it
      is not due. Timers that a callback adds while there is no survivor are among those. */
  lemma {:induction false} RestIsVisited(now: int, s: Walk, script: seq<seq<Act>>, i: nat)
    requires Sound(now, s) && Inv(All(s), s.hist) && i < |s.rest|
    ensures var f, id := Finish(now, s, script), s.rest[i].id;
            f.late <= |f.front| && (CountLog(f.hist.log, id) == 1 || Linked(Kept(f), id))
  {
    hide Finish;
    var f, id := Finish(now, s, script), s.rest[i].id;
    WalkSound(now, s, script);
    WalkInv(now, s, script);
    assert Faithful(All(s)[|s.front| + i], s.hist);
    assert All(f) == f.front;
    CountZero(f.front, id);
    if Linked(f.front, id) {
      var j :| 0 <= j < |f.front| && f.front[j].id == id;
      var d := f.late - s.late;
      if j < f.late {
        // Not a new push, so it stood in the front already: the id would be linked twice.
        assert f.front[d + (j - d)].id == s.front[j - d].id;
        NotTwice(s, i, j - d);
      }
      assert Kept(f)[j - f.late].id == id;
    }
  }

  /** Every timer in front, late pushes included, is left alone by the rest of the walk. */
  lemma {:induction false} FrontIsKept(now: int, s: Walk, script: seq<seq<Act>>, i: nat)
    requires Sound(now, s) && Inv(All(s), s.hist) && i < |s.front|
    ensures Linked(Finish(now, s, script).front, s.front[i].id)
    ensures CountLog(Finish(now, s, script).hist.log, s.front[i].id) == 0
  {
    hide Finish;
    var f := Finish(now, s, script);
    WalkSound(now, s, script);
    WalkInv(now, s, script);
    assert Faithful(All(s)[i], s.hist);
    assert All(f) == f.front;
    LinkedNotLogged(f.front, f.hist, f.late - s.late + i);
  }

  lemma LinkedNotLogged(l: seq<Timer>, h: History, i: nat)
    requires Inv(l, h) && i < |l|
    ensures Linked(l, l[i].id) && CountLog(h.log, l[i].id) == 0
  {
    assert Faithful(l[i], h);
    CountZero(l, l[i].id);
  }

  // ---- which timers depart, which stay, and what the callbacks did ----

  function Births(acts: seq<Act>): seq<Birth> {
    if acts == [] then []
    else (if acts[0].Add? then [Birth(acts[0].deadline, acts[0].hasCb)] else []) + Births(acts[1..])
  }

  function Ids(l: seq<Timer>): seq<int> {
    seq(|l|, i requires 0 <= i < |l| => l[i].id)
  }

  lemma {:induction false} ActEffect(s: Walk, a: Act)
    requires s.late <= |s.front|
    ensures var m := Perform(s, a);
            && m.hist.log == s.hist.log && m.hist.born == s.hist.born + Births([a]) && s.hist.dead <= m.hist.dead
            && m.late <= |m.front| && Ids(Kept(m)) == Ids(Kept(s))
            && (forall id :: Linked(s.rest, id) ==> Linked(m.rest, id))
            && (a.Cancel? && (Linked(s.front, a.id) || Linked(s.rest, a.id)) ==> a.id in m.hist.dead)
  {
    ActHistory(s, a);
    ActKept(s, a);
    hide Perform, Linked, Births, Ids;
    forall id | Linked(s.rest, id) ensures Linked(Perform(s, a).rest, id) { ActLinks(s, a, id); }
  }

  lemma {:induction false} ActHistory(s: Walk, a: Act)
    ensures var m := Perform(s, a);
            && m.hist.log == s.hist.log && m.hist.born == s.hist.born + Births([a]) && s.hist.dead <= m.hist.dead
            && (a.Cancel? && (Linked(s.front, a.id) || Linked(s.rest, a.id)) ==> a.id in m.hist.dead)
  {
    hide Linked, Mark;
    assert [a][1..] == [];
  }

  lemma {:induction false} ActKept(s: Walk, a: Act)
    requires s.late <= |s.front|
    ensures var m := Perform(s, a); m.late <= |m.front| && Ids(Kept(m)) == Ids(Kept(s))
  {
    hide Linked, Mark, Ids;
    match a
    case Cancel(id) =>
      MarkDrop(s.front, s.late, id);
      MarkIds(Kept(s), id);
    case Add(d, cb) =>
      if s.front != [] { assert Kept(Perform(s, a)) == Kept(s); }
  }

  lemma MarkIds(l: seq<Timer>, id: int)
    ensures Ids(Mark(l, id)) == Ids(l)
  { }

  lemma ActLinks(s: Walk, a: Act, id: int)
    requires Linked(s.rest, id)
    ensures Linked(Perform(s, a).rest, id)
  {
    var i :| 0 <= i < |s.rest| && s.rest[i].id == id;
    assert Perform(s, a).rest[if a.Add? && s.front == [] then i + 1 else i].id == id;
  }

  lemma {:induction false} ActsEffect(s: Walk, acts: seq<Act>)
    requires s.late <= |s.front|
    ensures var m := PerformAll(s, acts);
            && m.hist.log == s.hist.log && m.hist.born == s.hist.born + Births(acts) && s.hist.dead <= m.hist.dead
            && m.late <= |m.front| && Ids(Kept(m)) == Ids(Kept(s))
            && (forall id :: Linked(s.rest, id) ==> Linked(m.rest, id))
    decreases |acts|
  {
    if acts != [] {
      ActEffect(s, acts[0]);
      ActsEffect(Perform(s, acts[0]), acts[1..]);
      BirthsCons(acts);
      hide Perform, Linked, Ids, Births;
      assert s.hist.born + Births([acts[0]]) + Births(acts[1..]) == s.hist.born + (Births([acts[0]]) + Births(acts[1..]));
    }
  }

  lemma BirthsCons(acts: seq<Act>)
    requires acts != []
    ensures Births(acts) == Births([acts[0]]) + Births(acts[1..])
  {
    assert [acts[0]][1..] == [];
  }

  /** The timers that the rest of a walk visits and leaves: those that are neither due nor cancelled at
      that moment. */
  function Survivors(now: int, s: Walk, script: seq<seq<Act>>): seq<int>
    decreases |script|, |s.rest|
  {
    if s.rest == [] then []
    else
      var t := s.rest[0];
      QuietTurn(now, s);
      if Fires(t, now) then Survivors(now, Turn(now, s, Head(script)), Tail(script))
      else (if t.deadline <= now || t.canceled then [] else [t.id]) + Survivors(now, Turn(now, s, []), script)
  }

  function CountFired(log: seq<Event>): nat {
    if log == [] then 0 else CountFired(log[..|log| - 1]) + if log[|log| - 1].Fired? then 1 else 0
  }

  /** What the first `k` callbacks of a script add. */
  function BirthsOf(script: seq<seq<Act>>, k: nat): seq<Birth> {
    if k == 0 || script == [] then [] else Births(script[0]) + BirthsOf(script[1..], k - 1)
  }

  lemma CountFiredSnoc(log: seq<Event>, e: Event)
    ensures CountFired(log + [e]) == CountFired(log) + if e.Fired? then 1 else 0
  {
    assert (log + [e])[..|log|] == log;
  }

  /** What one turn does to the kept timers and to the history. */
  lemma {:induction false} TurnEffect(now: int, s: Walk, acts: seq<Act>)
    requires s.rest != [] && s.late <= |s.front|
    ensures var t, m := s.rest[0], Turn(now, s, acts);
            && m.late <= |m.front| && s.hist.dead <= m.hist.dead && s.hist.log <= m.hist.log
            && Ids(Kept(m)) == Ids(Kept(s)) + (if t.deadline <= now || t.canceled then [] else [t.id])
            && m.hist.born == s.hist.born + (if Fires(t, now) then Births(acts) else [])
            && CountFired(m.hist.log) == CountFired(s.hist.log) + (if Fires(t, now) then 1 else 0)
  {
    var t, s1 := s.rest[0], s.(rest := s.rest[1..]);
    if Fires(t, now) {
      CountFiredSnoc(s.hist.log, Fired(t.id, now));
      ActsEffect(Log(s1, Fired(t.id, now)), acts);
      hide Births, PerformAll, CountFired, Ids;
    } else {
      CountFiredSnoc(s.hist.log, Freed(t.id));
      hide Births, CountFired;
      if !(t.deadline <= now || t.canceled) {
        assert (s.front + [t])[s.late..] == Kept(s) + [t];
        assert Ids(Kept(s) + [t]) == Ids(Kept(s)) + [t.id];
      }
    }
  }

  /** Whether a callback is called in this turn, and then what it does and what the script has left. */
  function ActsNow(now: int, s: Walk, script: seq<seq<Act>>): (seq<Act>, seq<seq<Act>>)
    requires s.rest != []
  {
    if Fires(s.rest[0], now) then (Head(script), Tail(script)) else ([], script)
  }

  lemma {:induction false} WalkStep(now: int, s: Walk, script: seq<seq<Act>>)
    requires s.rest != []
    ensures var (acts, more) := ActsNow(now, s, script);
            var m := Turn(now, s, acts);
            && (|more| < |script| || (|more| == |script| && |m.rest| < |s.rest|))
            && Finish(now, s, script) == Finish(now, m, more)
            && Survivors(now, s, script) ==
               (if s.rest[0].deadline <= now || s.rest[0].canceled then [] else [s.rest[0].id]) + Survivors(now, m, more)
  {
    QuietTurn(now, s);
    hide Turn;
  }

  /** What is on the list after a walk, behind the late pushes, is what was before the walk's position and
      then the survivors, in the order of the visits. */
  lemma {:induction false} KeptAreSurvivors(now: int, s: Walk, script: seq<seq<Act>>)
    requires s.late <= |s.front|
    ensures var f := Finish(now, s, script); f.late <= |f.front| && Ids(Kept(f)) == Ids(Kept(s)) + Survivors(now, s, script)
    decreases |script|, |s.rest|
  {
    hide Finish, Turn, Survivors, Ids, ActsNow;
    if s.rest == [] {
      WalkDone(now, s, script);
    } else {
      var (acts, more) := ActsNow(now, s, script);
      WalkStep(now, s, script);
      TurnEffect(now, s, acts);
      KeptAreSurvivors(now, Turn(now, s, acts), more);
    }
  }

  lemma WalkDone(now: int, s: Walk, script: seq<seq<Act>>)
    requires s.rest == []
    ensures Finish(now, s, script) == s && Survivors(now, s, script) == []
  { }

  /** The log only grows, and cancelled timers stay cancelled. */
  lemma {:induction false} WalkGrows(now: int, s: Walk, script: seq<seq<Act>>)
    requires s.late <= |s.front|
    ensures var f := Finish(now, s, script); s.hist.log <= f.hist.log && s.hist.dead <= f.hist.dead
    decreases |script|, |s.rest|
  {
    hide Finish, Turn, ActsNow;
    if s.rest == [] {
      WalkDone(now, s, script);
    } else {
      var (acts, more) := ActsNow(now, s, script);
      WalkStep(now, s, script);
      TurnEffect(now, s, acts);
      WalkGrows(now, Turn(now, s, acts), more);
    }
  }

  /** Every callback that was called did what it does: the timers added are exactly those that the called
      callbacks add, in order. */
  lemma {:induction false} CallbacksAct(now: int, s: Walk, script: seq<seq<Act>>)
    requires s.late <= |s.front|
    ensures var f := Finish(now, s, script);
            && CountFired(s.hist.log) <= CountFired(f.hist.log)
            && f.hist.born == s.hist.born + BirthsOf(script, CountFired(f.hist.log) - CountFired(s.hist.log))
    decreases |script|, |s.rest|
  {
    hide Finish, Turn, Births, CountFired, BirthsOf;
    if s.rest == [] {
      WalkDone(now, s, script);
      NoBirths(script);
    } else {
      var (acts, more) := ActsNow(now, s, script);
      WalkStep(now, s, script);
      TurnEffect(now, s, acts);
      var m, f := Turn(now, s, acts), Finish(now, s, script);
      CallbacksAct(now, m, more);
      BirthsAdd(s.hist.born, script, CountFired(f.hist.log) - CountFired(m.hist.log));
    }
  }

  lemma NoBirths(script: seq<seq<Act>>)
    ensures BirthsOf(script, 0) == []
  { }

  lemma BirthsAdd(born: seq<Birth>, script: seq<seq<Act>>, k: nat)
    ensures born + Births(Head(script)) + BirthsOf(Tail(script), k) == born + BirthsOf(script, k + 1)
  {
    if script == [] {
      assert Births([]) == [] && BirthsOf([], k) == [] && BirthsOf([], k + 1) == [];
    } else {
      hide Births;
      assert BirthsOf(script, k + 1) == Births(script[0]) + BirthsOf(script[1..], k);
      assert born + Births(script[0]) + BirthsOf(script[1..], k) == born + (Births(script[0]) + BirthsOf(script[1..], k));
    }
  }

  lemma {:induction false} CountLogMono(a: seq<Event>, b: seq<Event>, id: int)
    requires a <= b
    ensures CountLog(a, id) <= CountLog(b, id)
    decreases |b|
  {
    if |a| < |b| { CountLogMono(a, b[..|b| - 1], id); } else { assert a == b; }
  }

  /** A timer that was cancelled before the walk came to it departs in this walk, due or not. */
  lemma {:induction false} DeadLeaves(now: int, s: Walk, script: seq<seq<Act>>, id: int)
    requires s.late <= |s.front| && Inv(All(s), s.hist) && Linked(s.rest, id) && id in s.hist.dead
    ensures CountLog(Finish(now, s, script).hist.log, id) == 1
    decreases |script|, |s.rest|
  {
    QuietTurn(now, s);
    var t, s1 := s.rest[0], s.(rest := s.rest[1..]);
    var acts, more := if Fires(t, now) then Head(script) else [], if Fires(t, now) then Tail(script) else script;
    var m := Turn(now, s, acts);
    TurnInv(now, s, acts);
    HeadOrRest(s.rest, id);
    assert Faithful(All(s)[|s.front|], s.hist);
    if t.id == id {
      assert m == Log(s1, Freed(id));
      CountLogPositive(m.hist.log, |s.hist.log|);
      WalkGrows(now, m, more);
      CountLogMono(m.hist.log, Finish(now, m, more).hist.log, id);
      WalkInv(now, m, more);
    } else {
      ActsEffect(Log(s1, Fired(t.id, now)), acts);
      hide Inv, Linked;
      DeadLeaves(now, m, more, id);
    }
  }

  lemma HeadOrRest(l: seq<Timer>, id: int)
    requires Linked(l, id)
    ensures l != [] && (l[0].id == id || Linked(l[1..], id))
  {
    var i :| 0 <= i < |l| && l[i].id == id;
    if i > 0 { assert l[1..][i - 1].id == id; }
  }

  lemma CancelledLeaves(now: int, s: Walk, script: seq<seq<Act>>, i: nat)
    requires s.late <= |s.front| && Inv(All(s), s.hist) && i < |s.rest| && s.rest[i].canceled
    ensures CountLog(Finish(now, s, script).hist.log, s.rest[i].id) == 1
  {
    assert Faithful(All(s)[|s.front| + i], s.hist);
    DeadLeaves(now, s, script, s.rest[i].id);
  }

  /** What becomes of the timer that a walk comes to: its callback is called now if it is due, has one and
      is not cancelled; it is freed if it is cancelled or due without callback; else it stays. */
  lemma {:induction false} VisitDecides(now: int, s: Walk, script: seq<seq<Act>>)
    requires Sound(now, s) && Inv(All(s), s.hist) && s.rest != []
    ensures var f, t := Finish(now, s, script), s.rest[0];
            && |s.hist.log| <= |f.hist.log|
            && (t.deadline <= now && !t.canceled && t.hasCb ==>
                  |s.hist.log| < |f.hist.log| && f.hist.log[|s.hist.log|] == Fired(t.id, now))
            && (t.canceled || (t.deadline <= now && !t.hasCb) ==>
                  |s.hist.log| < |f.hist.log| && f.hist.log[|s.hist.log|] == Freed(t.id))
            && (t.deadline > now && !t.canceled ==> Linked(f.front, t.id) && CountLog(f.hist.log, t.id) == 0)
  {
    QuietTurn(now, s);
    var t, s1 := s.rest[0], s.(rest := s.rest[1..]);
    var acts, more := if Fires(t, now) then Head(script) else [], if Fires(t, now) then Tail(script) else script;
    var m := Turn(now, s, acts);
    TurnInv(now, s, acts);
    TurnSound(now, s, acts);
    ActsEffect(Log(s1, Fired(t.id, now)), acts);
    WalkGrows(now, m, more);
    hide Inv, Linked;
    if t.deadline > now && !t.canceled {
      assert m.front[|s.front|] == t;
      FrontIsKept(now, m, more, |s.front|);
    }
  }

  // ---- every run ----

  datatype Op = Do(act: Act) | WalkAt(now: int, script: seq<seq<Act>>)

  function Idle(l: seq<Timer>, h: History): Walk {
    Walk([], l, h, 0, None)
  }

  function Apply(l: seq<Timer>, h: History, op: Op): (seq<Timer>, History) {
    match op
    case Do(a) => var s := Perform(Idle(l, h), a); (s.rest, s.hist)
    case WalkAt(now, script) => var s := Finish(now, Idle(l, h), script); (s.front, s.hist)
  }

  function Run(ops: seq<Op>): (seq<Timer>, History) {
    if ops == [] then ([], History([], {}, []))
    else var (l, h) := Run(ops[..|ops| - 1]); Apply(l, h, ops[|ops| - 1])
  }

  /** In every run of adds, cancels and walks, each timer has fired once, at or after its deadline
      and uncancelled, or was freed once as cancelled or callback-less, or is linked once. */
  lemma {:induction false} EveryRunConserves(ops: seq<Op>)
    ensures Inv(Run(ops).0, Run(ops).1)
  {
    hide Inv, Apply;
    if ops == [] {
      NothingYet();
    } else {
      var (l, h) := Run(ops[..|ops| - 1]);
      EveryRunConserves(ops[..|ops| - 1]);
      ApplyInv(l, h, ops[|ops| - 1]);
    }
  }

  lemma NothingYet()
    ensures Inv([], History([], {}, []))
  { }

  lemma {:induction false} ApplyInv(l: seq<Timer>, h: History, op: Op)
    requires Inv(l, h)
    ensures Inv(Apply(l, h, op).0, Apply(l, h, op).1)
  {
    hide Inv, Apply;
    match op
    case Do(a) => ActInv(l, h, a);
    case WalkAt(now, script) => WalkAtInv(l, h, now, script);
  }

  lemma {:induction false} ActInv(l: seq<Timer>, h: History, a: Act)
    requires Inv(l, h)
    ensures var (l', h') := Apply(l, h, Do(a)); Inv(l', h')
  {
    hide Inv, Perform;
    var s := Perform(Idle(l, h), a);
    assert All(Idle(l, h)) == l;
    PerformInv(Idle(l, h), a);
    IdleFront(l, h, a);
    assert All(s) == s.rest;
  }

  lemma {:induction false} WalkAtInv(l: seq<Timer>, h: History, now: int, script: seq<seq<Act>>)
    requires Inv(l, h)
    ensures var (l', h') := Apply(l, h, WalkAt(now, script)); Inv(l', h')
  {
    hide Inv, Finish;
    assert All(Idle(l, h)) == l;
    WalkInv(now, Idle(l, h), script);
    var s := Finish(now, Idle(l, h), script);
    assert All(s) == s.front;
  }

  /** A timer that is cancelled while it is on the list never fires, whatever happens later. */
  lemma {:induction false} CancelledNeverFires(ops: seq<Op>, id: int, more: seq<Op>, at: int)
    requires Linked(Run(ops).0, id)
    ensures Fired(id, at) !in Run(ops + [Do(Cancel(id))] + more).1.log
  {
    var before := ops + [Do(Cancel(id))];
    assert before[..|ops|] == ops;
    ActEffect(Idle(Run(ops).0, Run(ops).1), Cancel(id));
    assert id in Run(before).1.dead;
    DeadForever(before, more, id);
    EveryRunConserves(before + more);
    hide Run;
    DeadNotFired(Run(before + more).0, Run(before + more).1, id, at);
  }

  lemma DeadNotFired(l: seq<Timer>, h: History, id: int, at: int)
    requires Inv(l, h) && id in h.dead
    ensures Fired(id, at) !in h.log
  {
    forall i | 0 <= i < |h.log| ensures h.log[i] != Fired(id, at) { assert Rightful(h.log[i], h); }
  }

  lemma {:induction false} DeadForever(ops: seq<Op>, more: seq<Op>, id: int)
    requires id in Run(ops).1.dead
    ensures id in Run(ops + more).1.dead
    decreases |more|
  {
    if more == [] {
      assert ops + more == ops;
    } else {
      var front := more[..|more| - 1];
      DeadForever(ops, front, id);
      assert (ops + more)[..|ops + more| - 1] == ops + front;
      var (l, h) := Run(ops + front);
      match more[|more| - 1]
      case Do(a) => ActEffect(Idle(l, h), a);
      case WalkAt(now, script) => WalkGrows(now, Idle(l, h), script);
    }
  }

  lemma IdleFront(l: seq<Timer>, h: History, a: Act)
    ensures Perform(Idle(l, h), a).front == []
  { }

  /** What a walk from the list head leaves. */
  lemma {:induction false} WalkLeaves(now: int, l: seq<Timer>, h: History, script: seq<seq<Act>>)
    requires Inv(l, h)
    ensures var f := Finish(now, Idle(l, h), script);
            && Inv(f.front, f.hist) && f.late <= |f.front|
            && Ids(f.front[f.late..]) == Survivors(now, Idle(l, h), script) && f.min == Earliest(f.front[f.late..])
  {
    hide Inv, Finish, Survivors;
    var start := Idle(l, h);
    assert All(start) == l;
    WalkInv(now, start, script);
    assert All(Finish(now, start, script)) == Finish(now, start, script).front;
    KeptAreSurvivors(now, start, script);
    WalkSound(now, start, script);
    assert Ids(Kept(start)) == [];
  }

  /** One turn, case by case. */
  lemma TurnCases(now: int, s: Walk, acts: seq<Act>)
    requires s.rest != []
    ensures var t, s1 := s.rest[0], s.(rest := s.rest[1..]);
            Turn(now, s, acts) ==
            if now >= t.deadline || t.canceled then
              if t.hasCb && !t.canceled then PerformAll(Log(s1, Fired(t.id, now)), acts) else Log(s1, Freed(t.id))
            else s1.(front := s.front + [t], min := Lower(s.min, t.deadline))
  {
    hide PerformAll;
  }

  /** The list as the C code edits it. `k` is the position of the link that `prev` points to, and
      0 is the list head itself; a push at the head therefore moves every other position. */
  class TimerWheel {
    var list: seq<Timer>
    var hist: History

    ghost predicate Valid()
      reads this
    {
      Inv(list, hist)
    }

    ghost function At(k: nat, late: nat, min: Option<int>): Walk
      reads this
      requires k <= |list|
    {
      Walk.Walk(list[..k], list[k..], hist, late, min)
    }

    constructor ()
      ensures Valid() && list == [] && hist == History([], {}, [])
    {
      list := [];
      hist := History([], {}, []);
    }

    /** `timerwheel_add`, called while a walk stands at position `k`. */
    method Add(deadline: int, hasCb: bool, k: nat, late: nat, ghost min: Option<int>) returns (k': nat, late': nat)
      requires k <= |list|
      modifies this
      ensures k' <= |list| && At(k', late', min) == Perform(old(At(k, late, min)), Act.Add(deadline, hasCb))
      ensures list == [Timer(|old(hist).born|, deadline, hasCb, false)] + old(list)
      ensures hist == old(hist).(born := old(hist).born + [Birth(deadline, hasCb)])
    {
      list := [Timer(|hist.born|, deadline, hasCb, false)] + list;
      hist := hist.(born := hist.born + [Birth(deadline, hasCb)]);
      k', late' := if k == 0 then 0 else k + 1, if k == 0 then late else late + 1;
      assert k > 0 ==> list[..k'] == [list[0]] + old(list[..k]) && list[k'..] == old(list[k..]);
      assert k == 0 ==> list[..0] == old(list[..0]) && list[0..] == [list[0]] + old(list[0..]);
    }

    /** `timerwheel_cancel`. */
    method Cancel(id: int, ghost k: nat, ghost late: nat, ghost min: Option<int>)
      requires k <= |list|
      modifies this
      ensures k <= |list| && At(k, late, min) == Perform(old(At(k, late, min)), Act.Cancel(id))
      ensures |list| == |old(list)| && forall i :: 0 <= i < |list| ==>
                list[i] == if old(list)[i].id == id then old(list)[i].(canceled := true) else old(list)[i]
    {
      MarkConcat(list[..k], list[k..], id);
      assert list[..k] + list[k..] == list;
      if Linked(list, id) { hist := hist.(dead := hist.dead + {id}); }
      list := Mark(list, id);
      assert list[..k] == Mark(old(list[..k]), id) && list[k..] == Mark(old(list[k..]), id);
    }

    method Callback(acts: seq<Act>, k: nat, late: nat, ghost min: Option<int>) returns (k': nat, late': nat)
      requires k <= |list|
      modifies this
      ensures k' <= |list| && At(k', late', min) == PerformAll(old(At(k, late, min)), acts)
    {
      k', late' := k, late;
      for i := 0 to |acts|
        invariant k' <= |list|
        invariant PerformAll(At(k', late', min), acts[i..]) == PerformAll(old(At(k, late, min)), acts)
      {
        hide Perform;
        assert acts[i..][1..] == acts[i + 1..];
        match acts[i]
        case Add(d, cb) => k', late' := Add(d, cb, k', late', min);
        case Cancel(id) => Cancel(id, k', late', min);
      }
    }

    /** `timerwheel_walk_with`; `script` says what the callbacks that get called do. */
    method WalkWith(now: int, script: seq<seq<Act>>) returns (min: Option<int>)
      requires Valid()
      modifies this
      ensures var f := Finish(now, Idle(old(list), old(hist)), script);
              && list == f.front && hist == f.hist && min == f.min
              && f.late <= |list| && Ids(list[f.late..]) == Survivors(now, Idle(old(list), old(hist)), script)
              && min == Earliest(list[f.late..])
      ensures Valid()
    {
      hide Inv, Finish, Survivors, Ids, Earliest;
      ghost var l, h := list, hist;
      min := Sweep(now, script);
      WalkLeaves(now, l, h, script);
    }

    /** The loop of the walk. */
    method Sweep(now: int, script: seq<seq<Act>>) returns (min: Option<int>)
      modifies this
      ensures var f := Finish(now, Idle(old(list), old(hist)), script);
              && list == f.front && hist == f.hist && min == f.min
    {
      hide Inv, PerformAll, Turn;
      ghost var start := Idle(list, hist);
      assert At(0, 0, None) == start;
      var k: nat, late: nat, todo := 0, 0, script;
      min := None;
      while k < |list|
        invariant k <= |list|
        invariant Finish(now, At(k, late, min), todo) == Finish(now, start, script)
        decreases |todo|, |list| - k
      {
        var curr := list[k];
        ghost var s := At(k, late, min);
        assert s.rest[0] == curr && s.rest[1..] == list[k + 1..];
        WalkStep(now, s, todo);
        TurnCases(now, s, ActsNow(now, s, todo).0);
        if now >= curr.deadline || curr.canceled {
          list := list[..k] + list[k + 1..];
          if curr.hasCb && !curr.canceled {
            hist := hist.(log := hist.log + [Fired(curr.id, now)]);
            assert At(k, late, min) == Log(s.(rest := s.rest[1..]), Fired(curr.id, now));
            k, late := Callback(Head(todo), k, late, min);
            todo := Tail(todo);
          } else {
            hist := hist.(log := hist.log + [Freed(curr.id)]);
            assert At(k, late, min) == Log(s.(rest := s.rest[1..]), Freed(curr.id));
          }
        } else {
          min := Lower(min, curr.deadline);
          k := k + 1;
          assert list[..k] == s.front + [curr];
        }
      }
      assert list[..k] == list && list[k..] == [];
    }
  }
}
