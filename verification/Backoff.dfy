/** Retransmission of OPEN: the growing interval and the deadline of src/conn.c. */
module Backoff {
  /** The next interval: half as long again, cut at `cap`. */
  function Grow(ms: int, cap: int): int {
    var g := ms + ms / 2;
    if g > cap then cap else g
  }

  /** The i-th interval after entering a state with first interval `s`. */
  function Interval(s: int, cap: int, i: nat): int {
    if i == 0 then s else Grow(Interval(s, cap, i - 1), cap)
  }

  /** Intervals stay between the first one and the cap and never shrink. They grow strictly until the cap
      exactly if the first one is at least 2: an interval of 1 stays 1. */
  lemma {:induction false} IntervalLaw(s: int, cap: int, i: nat)
    requires 0 < s <= cap
    ensures s <= Interval(s, cap, i) <= Interval(s, cap, i + 1) <= cap
    ensures s >= 2 && Interval(s, cap, i) < cap ==> Interval(s, cap, i) < Interval(s, cap, i + 1)
    ensures s == 1 ==> Interval(s, cap, i) == 1
  {
    if i > 0 { IntervalLaw(s, cap, i - 1); }
  }

  /** The time the first `n` intervals take together. */
  function Elapsed(s: int, cap: int, n: nat): int {
    if n == 0 then 0 else Elapsed(s, cap, n - 1) + Interval(s, cap, n - 1)
  }

  lemma {:induction false} ElapsedAtLeast(s: int, cap: int, n: nat)
    requires 0 < s <= cap
    ensures n * s <= Elapsed(s, cap, n)
  {
    if n > 0 {
      ElapsedAtLeast(s, cap, n - 1);
      IntervalLaw(s, cap, n - 1);
      assert n * s == (n - 1) * s + s;
    }
  }

  lemma {:induction false} ElapsedMono(s: int, cap: int, m: nat, n: nat)
    requires 0 < s <= cap && m <= n
    ensures Elapsed(s, cap, m) <= Elapsed(s, cap, n)
  {
    if m < n {
      ElapsedMono(s, cap, m, n - 1);
      IntervalLaw(s, cap, n - 1);
    }
  }

  /** With the defaults, 100 and 3000, seven intervals do not fit before the deadline and six do. */
  lemma DefaultIntervals()
    ensures Elapsed(100, 3000, 6) == 2074 && Elapsed(100, 3000, 7) == 3209
  {
    assert Interval(100, 3000, 1) == 150;
    assert Interval(100, 3000, 2) == 225;
    assert Interval(100, 3000, 3) == 337;
    assert Interval(100, 3000, 4) == 505;
    assert Interval(100, 3000, 5) == 757;
    assert Interval(100, 3000, 6) == 1135;
    assert Elapsed(100, 3000, 2) == 250;
    assert Elapsed(100, 3000, 4) == 812;
  }

  /** The timing fields of a connection in OPEN. */
  class Opening {
    const statems: int       // first interval
    const maxstatems: int    // cap, and time allowed for the state
    var growms: int
    var retry: int
    var statedeadline: int
    var armed: int           // deadline of the state timer
    var resends: nat
    var closed: bool

    ghost const entered: int

    ghost predicate Valid()
      reads this
    {
      && 0 < statems <= maxstatems
      && statedeadline == entered + maxstatems
      && growms == Interval(statems, maxstatems, resends + 1)
      && retry == resends + 1
      && (!closed ==> entered + Elapsed(statems, maxstatems, resends + 1) <= armed)
      && (resends > 0 ==> Elapsed(statems, maxstatems, resends) <= maxstatems)
    }

    /** Entering OPEN: the deadline, the first interval and the first timer. */
    constructor (now: int, statems: int, maxstatems: int)
      requires 0 < statems <= maxstatems
      ensures Valid() && !closed && resends == 0 && entered == now
      ensures this.statems == statems && this.maxstatems == maxstatems && armed == now + statems
    {
      this.statems, this.maxstatems := statems, maxstatems;
      statedeadline := now + maxstatems;
      entered := now;
      resends, closed := 0, false;
      // _tripc_set_growth, then _tripc_get_growth
      growms := Grow(statems, maxstatems);
      retry := 1;
      armed := now + statems;
      new;
      assert Elapsed(statems, maxstatems, 1) == Elapsed(statems, maxstatems, 0) + Interval(statems, maxstatems, 0);
    }

    /** `_tripc_get_growth`. */
    method GetGrowth() returns (ms: int)
      modifies this`growms, this`retry
      ensures ms == old(growms) && growms == Grow(old(growms), maxstatems) && retry == old(retry) + 1
    {
      ms := growms;
      growms := growms + growms / 2;
      if growms > maxstatems { growms := maxstatems; }
      retry := retry + 1;
    }

    /** `_tripc_timeout_state_resend_cb`, called by a walk at `now`. */
    method ResendCb(now: int)
      requires Valid() && !closed && armed <= now
      modifies this
      ensures Valid() && closed == (now > statedeadline) && statedeadline == old(statedeadline)
      ensures resends == old(resends) + if closed then 0 else 1
      ensures !closed ==> armed == now + old(growms) == now + Interval(statems, maxstatems, resends)
    {
      if now > statedeadline {
        closed := true;
      } else {
        resends := resends + 1;
        var ms := GetGrowth();
        armed := now + ms;
      }
    }

    /** The bound, in any reachable state: at most cap / first interval resends, six with the defaults. */
    lemma ResendBound()
      requires Valid()
      ensures resends <= maxstatems / statems
      ensures statems == 100 && maxstatems == 3000 ==> resends <= 6
    {
      if resends > 0 { ElapsedAtLeast(statems, maxstatems, resends); }
      AtMostQuotient(resends, statems, maxstatems);
      DefaultIntervals();
      if statems == 100 && maxstatems == 3000 && resends > 6 { ElapsedMono(statems, maxstatems, 7, resends); }
    }
  }

  lemma AtMostQuotient(n: nat, s: int, m: int)
    requires 0 < s && n * s <= m
    ensures n <= m / s
  {
    var q := m / s;
    assert n >= q + 1 ==> n * s >= (q + 1) * s;
  }

  /** Every run: whatever times the timers fire at, none before its deadline, a connection left in OPEN
      gives up, and has then resent at most cap / first interval times. */
  method Drive(now: int, statems: int, maxstatems: int, delays: seq<nat>) returns (resends: nat, closed: bool)
    requires 0 < statems <= maxstatems
    ensures resends <= maxstatems / statems
    ensures statems == 100 && maxstatems == 3000 ==> resends <= 6
    ensures |delays| > maxstatems / statems ==> closed
  {
    var c := new Opening(now, statems, maxstatems);
    var i := 0;
    while i < |delays| && !c.closed
      invariant 0 <= i <= |delays| && c.Valid() && (!c.closed ==> c.resends == i)
      invariant c.statems == statems && c.maxstatems == maxstatems
    {
      c.ResendCb(c.armed + delays[i]);
      i := i + 1;
    }
    c.ResendBound();
    resends, closed := c.resends, c.closed;
  }
}
