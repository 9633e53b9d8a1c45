/** The sending half of `_trip_listen`, src/trip.c: connections are served in queue order, each for a
    limited number of packets, until the pass has sent enough. The packet interface may queue
    connections while it sends. */
module Listen {
  import opened Core
  import opened SendQueue

  datatype WCode = Sent | WouldBlock | Failed

  /** What one call of `_tripc_send` leads to: nothing to send, an error, or a packet for which the
      packet interface answers `code` after having queued `queued`. */
  datatype Outcome = Nothing | Bad | Packet(code: WCode, queued: seq<Conn>)

  /** How a pass ended. */
  datatype End = Drained | Enough | Blocked | Error

  function Max(a: nat, b: nat): nat {
    if a > b then a else b
  }

  /** The order of service. `served` lists the connections taken from the queue and `behind[i]` the
      queue behind `served[i]` at that moment; `total` is the initial queue followed by all that was
      queued later, in order. */
  datatype Record = Record(served: seq<Conn>, behind: seq<seq<Conn>>, total: seq<Conn>)

  /** `b` is what follows place `i` in the order of queueing, and `c` is not among it. */
  ghost predicate Placed(c: Conn, i: int, b: seq<Conn>, total: seq<Conn>) {
    0 <= i && i + 1 + |b| <= |total| && b == total[i + 1..i + 1 + |b|] && c !in b
  }

  /** Served and still queued connections make up, in order, everything that ever was queued. */
  ghost predicate InOrder(r: Record, queue: seq<Conn>) {
    && r.served + queue == r.total && |r.behind| == |r.served|
    && (forall i :: 0 <= i < |r.served| ==> Placed(r.served[i], i, r.behind[i], r.total))
  }

  /** No connection is served again before all that were queued behind it have been served. */
  ghost predicate Fair(r: Record) {
    forall i, j, d :: 0 <= i < j < |r.served| && i < |r.behind| && r.served[i] == r.served[j] && d in r.behind[i] ==>
      exists n :: i < n < j && r.served[n] == d
  }

  lemma InOrderIsFair(r: Record, queue: seq<Conn>)
    requires InOrder(r, queue)
    ensures Fair(r)
  {
    forall i, j, d | 0 <= i < j < |r.served| && r.served[i] == r.served[j] && d in r.behind[i]
      ensures exists n :: i < n < j && r.served[n] == d
    {
      assert Placed(r.served[i], i, r.behind[i], r.total);
      var k :| 0 <= k < |r.behind[i]| && r.behind[i][k] == d;
      assert r.total[j] == r.served[j];
      assert forall y :: i < y < i + 1 + |r.behind[i]| ==> r.total[y] in r.behind[i];
      assert r.served[i + 1 + k] == r.total[i + 1 + k] == d;
    }
  }

  lemma Enqueued(r: Record, queue: seq<Conn>, c: Conn)
    requires InOrder(r, queue)
    ensures InOrder(r.(total := r.total + [c]), queue + [c])
  { }

  lemma Served(r: Record, queue: seq<Conn>)
    requires InOrder(r, queue) && queue != []
    requires forall j :: 0 < j < |queue| ==> queue[j] != queue[0]
    ensures InOrder(Record(r.served + [queue[0]], r.behind + [queue[1..]], r.total), queue[1..])
  { }

  function IsSent(o: Outcome): bool {
    o.Packet? && o.code == Sent
  }

  /** Packets sent by the first `n` calls of `_tripc_send`. */
  ghost function SentCount(env: nat -> Outcome, n: nat): nat {
    if n == 0 then 0 else SentCount(env, n - 1) + if IsSent(env(n - 1)) then 1 else 0
  }

  ghost function Sum(counts: seq<int>): int {
    if counts == [] then 0 else Sum(counts[..|counts| - 1]) + counts[|counts| - 1]
  }

  lemma SumNext(counts: seq<int>, k: int)
    ensures Sum(counts + [k]) == Sum(counts) + k
  {
    assert (counts + [k])[..|counts|] == counts;
  }

  /** `counts[i]` packets were sent for `served[i]`; one that used up its allowance was queued again. */
  ghost predicate Again(r: Record, counts: seq<int>, maxConn: nat) {
    && |counts| <= |r.served| <= |r.total|
    && (forall i :: 0 <= i < |counts| ==>
          0 <= counts[i] <= maxConn && (counts[i] == maxConn ==> r.served[i] in r.total[i + 1..]))
  }

  lemma AgainStays(r: Record, r': Record, counts: seq<int>, maxConn: nat)
    requires Again(r, counts, maxConn) && r.served <= r'.served && r.total <= r'.total && |r'.served| <= |r'.total|
    ensures Again(r', counts, maxConn)
  {
    forall i | 0 <= i < |counts| && counts[i] == maxConn ensures r'.served[i] in r'.total[i + 1..] {
      assert r.total[i + 1..] <= r'.total[i + 1..];
    }
  }

  lemma AgainNext(r: Record, counts: seq<int>, k: nat, maxConn: nat, queue: seq<Conn>)
    requires Again(r, counts, maxConn) && InOrder(r, queue) && |counts| + 1 == |r.served|
    requires k <= maxConn && (k == maxConn ==> r.served[|counts|] in queue)
    ensures Again(r, counts + [k], maxConn)
  {
    assert r.total[|counts| + 1..] == queue;
  }

  ghost predicate Ready(q: SendQ, r: Record)
    reads q, q.pool
  {
    q.Valid() && InOrder(r, q.chain)
  }

  /** `sendq_nq`, recorded. */
  method Enqueue(q: SendQ, c: Conn, ghost r: Record) returns (ghost r': Record)
    requires Ready(q, r) && c in q.pool
    modifies q, q.pool
    ensures Ready(q, r') && r'.served == r.served && r'.behind == r.behind && r.total <= r'.total
    ensures c in q.chain && old(q.chain) <= q.chain && (q.chain == old(q.chain) || q.chain == old(q.chain) + [c])
  {
    r' := r;
    Enqueued(r, q.chain, c);
    if !c.insend { r' := r.(total := r.total + [c]); }
    hide InOrder;
    q.Nq(c);
  }

  /** `sendq_dq`, recorded. */
  method Dequeue(q: SendQ, ghost r: Record) returns (c: Conn?, ghost r': Record)
    requires Ready(q, r)
    modifies q, q.pool
    ensures Ready(q, r') && r'.total == r.total
    ensures c == null <==> old(q.chain) == []
    ensures c == null ==> r' == r && q.chain == old(q.chain)
    ensures c != null ==> c in q.pool && |q.chain| == |old(q.chain)| - 1 && r.served + [c] == r'.served
  {
    r' := r;
    if q.chain != [] {
      Served(r, q.chain);
      r' := Record(r.served + [q.chain[0]], r.behind + [q.chain[1..]], r.total);
    }
    hide InOrder;
    c := q.Dq();
  }

  method EnqueueAll(q: SendQ, cs: seq<Conn>, ghost r: Record) returns (ghost r': Record)
    requires Ready(q, r) && forall c :: c in cs ==> c in q.pool
    modifies q, q.pool
    ensures Ready(q, r') && r'.served == r.served && r'.behind == r.behind && r.total <= r'.total
    ensures old(q.chain) <= q.chain && forall c :: c in cs ==> c in q.chain
  {
    r' := r;
    for i := 0 to |cs|
      invariant Ready(q, r') && r'.served == r.served && r'.behind == r.behind && r.total <= r'.total
      invariant old(q.chain) <= q.chain && forall c :: c in cs[..i] ==> c in q.chain
    {
      hide Ready;
      ghost var was := q.chain;
      r' := Enqueue(q, cs[i], r');
      assert cs[..i + 1] == cs[..i] + [cs[i]];
      assert forall c :: c in was ==> c in q.chain;
    }
  }

  /** Only connections of the router are queued by the packet interface. */
  ghost predicate Honest(env: nat -> Outcome, pool: set<Conn>) {
    forall k, c {:trigger c in env(k).queued} :: env(k).Packet? && c in env(k).queued ==> c in pool
  }

  /** Calls `n` to `n'` of `_tripc_send`: what they had queued is in `chain`. */
  ghost predicate Taken(env: nat -> Outcome, n: nat, n': nat, chain: seq<Conn>) {
    forall k, c {:trigger c in env(k).queued} :: n <= k < n' && env(k).Packet? && c in env(k).queued ==> c in chain
  }

  /** All of them were answered by nothing to send or by a packet sent. */
  ghost predicate Smooth(env: nat -> Outcome, n: nat, n': nat) {
    forall k {:trigger env(k)} :: n <= k < n' ==> env(k).Nothing? || IsSent(env(k))
  }

  /** How many of the first `n` calls were answered neither by nothing to send nor by a packet sent. */
  ghost function Troubles(env: nat -> Outcome, n: nat): nat {
    if n == 0 then 0 else Troubles(env, n - 1) + if env(n - 1).Nothing? || IsSent(env(n - 1)) then 0 else 1
  }

  /** Why the service of a connection ended early. */
  predicate Ended(o: Outcome, stop: bool, blocked: bool) {
    && (!stop <==> o.Nothing?) && !IsSent(o)
    && (stop ==> (blocked <==> o.Packet? && o.code == WouldBlock))
  }

  lemma NoCalls(env: nat -> Outcome, n: nat, chain: seq<Conn>)
    ensures Smooth(env, n, n) && Taken(env, n, n, chain)
  { }

  lemma QueuedInPool(env: nat -> Outcome, k: nat, pool: set<Conn>)
    requires Honest(env, pool) && env(k).Packet?
    ensures forall c :: c in env(k).queued ==> c in pool
  { }

  /** One more call, whose connections were queued. */
  lemma OneCall(env: nat -> Outcome, n: nat, n': nat, was: seq<Conn>, chain: seq<Conn>)
    requires n <= n' && Smooth(env, n, n') && Taken(env, n, n', was) && was <= chain
    requires env(n').Packet? ==> forall c :: c in env(n').queued ==> c in chain
    ensures Taken(env, n, n' + 1, chain) && SentCount(env, n' + 1) == SentCount(env, n') + if IsSent(env(n')) then 1 else 0
    ensures env(n').Nothing? || IsSent(env(n')) ==> Smooth(env, n, n' + 1)
  {
    assert forall c :: c in was ==> c in chain;
  }

  /** The inner loop: up to `maxConn` packets from one connection. `n` numbers the calls of
      `_tripc_send`, and `env(n)` is what the n-th one leads to. */
  method Serve(q: SendQ, maxConn: nat, env: nat -> Outcome, n: nat, ghost r: Record)
    returns (sent: nat, again: bool, stop: bool, blocked: bool, n': nat, ghost r': Record)
    requires Ready(q, r) && Honest(env, q.pool)
    modifies q, q.pool
    ensures Ready(q, r') && r'.served == r.served && r'.behind == r.behind && r.total <= r'.total
    ensures sent <= maxConn && (!stop && again <==> sent == maxConn)
    ensures n <= n' && sent == SentCount(env, n') - SentCount(env, n)
    ensures stop || !again ==> n < n' && Ended(env(n' - 1), stop, blocked)
    ensures sent == 0 && !stop ==> q.chain == old(q.chain)
    ensures Smooth(env, n, if stop then n' - 1 else n') && old(q.chain) <= q.chain && Taken(env, n, n', q.chain)
  {
    hide Ready, Smooth, Taken, SentCount, Honest;
    sent, again, stop, blocked, n', r' := 0, true, false, false, n, r;
    NoCalls(env, n, q.chain);
    while sent < maxConn
      invariant sent <= maxConn
      invariant Ready(q, r') && r'.served == r.served && r'.behind == r.behind && r.total <= r'.total
      invariant sent == 0 ==> q.chain == old(q.chain)
      invariant n <= n' && sent == SentCount(env, n') - SentCount(env, n)
      invariant Smooth(env, n, n') && old(q.chain) <= q.chain && Taken(env, n, n', q.chain)
    {
      var o := env(n');
      ghost var was := q.chain;
      if o.Packet? {
        QueuedInPool(env, n', q.pool);
        r' := EnqueueAll(q, o.queued, r');
      }
      OneCall(env, n, n', was, q.chain);
      n' := n' + 1;
      match o
      case Bad =>
        stop := true;
        return;
      case Nothing =>
        again := false;
        return;
      case Packet(code, queued) =>
        if code != Sent {
          stop, blocked := true, code == WouldBlock;
          return;
        }
        sent := sent + 1;
    }
  }

  /** A packet left over from an earlier pass is tried first; a blocked retry does not end the pass. */
  method Retry(q: SendQ, retry: Outcome) returns (sent: nat, failed: bool, ghost r: Record)
    requires q.Valid() && (retry.Packet? ==> forall c :: c in retry.queued ==> c in q.pool)
    modifies q, q.pool
    ensures Ready(q, r) && old(q.chain) <= r.total && r.served == []
    ensures retry.Packet? ==> forall c :: c in retry.queued ==> c in q.chain
    ensures failed <==> retry.Packet? && retry.code == Failed
    ensures sent == if retry.Packet? && retry.code == Sent then 1 else 0
  {
    sent, failed, r := 0, false, Record([], [], q.chain);
    assert [] + q.chain == q.chain;
    if retry.Packet? {
      hide Ready;
      r := EnqueueAll(q, retry.queued, r);
      failed := retry.code == Failed;
      if retry.code == Sent { sent := 1; }
    }
  }

  /** The last of `n` calls of `_tripc_send` ended the pass. */
  ghost predicate Stopped(env: nat -> Outcome, n: nat, blocked: bool) {
    n > 0 && Ended(env(n - 1), true, blocked)
  }

  /** The books of a pass: service in queue order, packets by connection, and their sum. */
  ghost predicate Books(q: SendQ, r: Record, counts: seq<int>, maxConn: nat, env: nat -> Outcome, n: nat)
    reads q, q.pool
  {
    Ready(q, r) && Again(r, counts, maxConn) && Sum(counts) == SentCount(env, n)
  }

  /** One turn of the outer loop: a connection is served, and queued again if it used up its allowance. */
  method ServeOne(q: SendQ, c: Conn, maxConn: nat, env: nat -> Outcome, n: nat, ghost r: Record, ghost counts: seq<int>)
    returns (sent: nat, stop: bool, blocked: bool, n': nat, ghost r': Record)
    requires Books(q, r, counts, maxConn, env, n) && Honest(env, q.pool) && 1 <= maxConn && c in q.pool
    requires |r.served| == |counts| + 1 && r.served[|counts|] == c
    modifies q, q.pool
    ensures Books(q, r', counts + [sent], maxConn, env, n') && r'.served == r.served && r.total <= r'.total
    ensures sent <= maxConn && n <= n' && sent == SentCount(env, n') - SentCount(env, n)
    ensures stop ==> n < n' && Stopped(env, n', blocked)
    ensures sent == 0 && !stop ==> q.chain == old(q.chain)
    ensures Smooth(env, n, if stop then n' - 1 else n') && Taken(env, n, n', r'.total)
  {
    hide Ready, Honest, SentCount, Ended, Again, Smooth, Taken;
    var again;
    sent, again, stop, blocked, n', r' := Serve(q, maxConn, env, n, r);
    TakenStays(q, r', env, n, n', q.chain);
    ghost var was := r'.total;
    if again && !stop { r' := Enqueue(q, c, r'); }
    TakenGrows(env, n, n', was, r'.total);
    GoesOn(q, r, r', counts, maxConn);
    Counted(q, r', counts, sent, maxConn);
  }

  lemma TakenStays(q: SendQ, r: Record, env: nat -> Outcome, n: nat, n': nat, chain: seq<Conn>)
    requires Ready(q, r) && chain == q.chain && Taken(env, n, n', chain)
    ensures Taken(env, n, n', r.total)
  {
    assert forall c :: c in chain ==> c in r.total by { assert r.served + chain == r.total; }
  }

  lemma TakenGrows(env: nat -> Outcome, n: nat, n': nat, total: seq<Conn>, total': seq<Conn>)
    requires total <= total' && Taken(env, n, n', total)
    ensures Taken(env, n, n', total')
  {
    assert forall c :: c in total ==> c in total';
  }

  lemma TakenMore(env: nat -> Outcome, m: nat, n: nat, n': nat, total: seq<Conn>, total': seq<Conn>)
    requires total <= total' && Taken(env, m, n, total) && Taken(env, n, n', total')
    ensures Taken(env, m, n', total')
  {
    assert forall c :: c in total ==> c in total';
  }

  lemma SmoothMore(env: nat -> Outcome, m: nat, n: nat, n': nat)
    requires Smooth(env, m, n) && Smooth(env, n, n')
    ensures Smooth(env, m, n')
  { }

  /** `sendq_dq` during a pass. */
  method Next(q: SendQ, ghost r: Record, ghost counts: seq<int>, maxConn: nat, ghost env: nat -> Outcome, ghost n: nat)
    returns (c: Conn?, ghost r': Record)
    requires Books(q, r, counts, maxConn, env, n) && |r.served| == |counts|
    modifies q, q.pool
    ensures Books(q, r', counts, maxConn, env, n) && r'.total == r.total
    ensures c == null ==> q.chain == old(q.chain) == [] && |r'.served| == |counts|
    ensures c != null ==> c in q.pool && |q.chain| == |old(q.chain)| - 1
    ensures c != null ==> |r'.served| == |counts| + 1 && r'.served[|counts|] == c
  {
    hide Ready, SentCount, Again;
    c, r' := Dequeue(q, r);
    GoesOn(q, r, r', counts, maxConn);
  }

  /** One TRIP_OUT pass. It ends whatever the packet interface queues meanwhile, sends a bounded number
      of packets, all of them counted, and serves fairly: in queue order, and with a connection that used
      up its allowance queued again. `retry` is the answer for a packet left over from an earlier pass,
      if there is one; `calls` is how often `_tripc_send` was called. */
  method Pass(q: SendQ, retry: Outcome, maxPacket: nat, maxConn: nat, env: nat -> Outcome)
    returns (sent: nat, end: End, calls: nat, ghost counts: seq<int>, ghost r: Record)
    requires q.Valid() && 1 <= maxConn && Honest(env, q.pool)
    requires retry.Packet? ==> forall c :: c in retry.queued ==> c in q.pool
    modifies q, q.pool
    ensures q.Valid() && sent <= Max(maxPacket, 1) + maxConn
    ensures sent == SentCount(env, calls) + if IsSent(retry) then 1 else 0
    ensures |counts| == |r.served| && Sum(counts) == SentCount(env, calls) && Again(r, counts, maxConn)
    ensures old(q.chain) <= r.total && r.served + q.chain == r.total && Fair(r)
    ensures end == Drained ==> q.chain == []
    ensures end == Enough ==> sent > maxPacket
    ensures Taken(env, 0, calls, r.total)
    ensures Troubles(env, calls) == if end == Blocked || (end == Error && calls > 0) then 1 else 0
    ensures calls > 0 ==> Troubles(env, calls - 1) == 0
    ensures end == Blocked <==> calls > 0 && WouldHaveBlocked(env, calls - 1)
    ensures end == Error <==> (retry.Packet? && retry.code == Failed) || (calls > 0 && WentWrong(env, calls - 1))
    ensures retry.Packet? && retry.code == Failed ==> calls == 0 && r.served == []
  {
    hide Books, Ready, Fair, Honest, Max, Again, SentCount, Stopped, Sum, Smooth, Taken, WouldHaveBlocked, WentWrong, Troubles;
    assert maxPacket <= Max(maxPacket, 1) && 1 <= Max(maxPacket, 1) by { MaxBounds(maxPacket, 1); }
    end, calls, counts := Drained, 0, [];
    var failed, c := false, null;
    sent, failed, r := Retry(q, retry);
    Opens(q, r, env, maxConn);
    if failed {
      end := Error;
      Closes(q, r, counts, maxConn, env, calls);
      return;
    }
    c, r := Next(q, r, counts, maxConn, env, calls);
    while c != null
      invariant Books(q, r, counts, maxConn, env, calls) && old(q.chain) <= r.total
      invariant |r.served| == |counts| + if c == null then 0 else 1
      invariant if c == null then q.chain == [] else c in q.pool && r.served[|counts|] == c
      invariant sent <= Max(maxPacket, 1) && sent == SentCount(env, calls) + if IsSent(retry) then 1 else 0
      invariant Smooth(env, 0, calls) && Taken(env, 0, calls, r.total) && end == Drained
      decreases Max(maxPacket, 1) - sent, |q.chain| + if c == null then 0 else 1
    {
      var k, stop, blocked;
      ghost var was, before := r.total, calls;
      k, stop, blocked, calls, r := ServeOne(q, c, maxConn, env, calls, r, counts);
      SmoothMore(env, 0, before, if stop then calls - 1 else calls);
      TakenMore(env, 0, before, calls, was, r.total);
      sent := sent + k;
      counts := counts + [k];
      if stop {
        end := if blocked then Blocked else Error;
        break;
      }
      if sent > maxPacket {
        end := Enough;
        break;
      }
      c, r := Next(q, r, counts, maxConn, env, calls);
    }
    HowItEnded(env, calls, end);
    Closes(q, r, counts, maxConn, env, calls);
  }

  /** The last call, after all others went smoothly, tells how the pass ended. */
  lemma HowItEnded(env: nat -> Outcome, calls: nat, end: End)
    requires if end == Drained || end == Enough then Smooth(env, 0, calls)
             else calls > 0 && Smooth(env, 0, calls - 1) && Stopped(env, calls, end == Blocked)
    ensures end == Blocked <==> calls > 0 && WouldHaveBlocked(env, calls - 1)
    ensures end == Error <==> calls > 0 && WentWrong(env, calls - 1)
    ensures Troubles(env, calls) == if end == Blocked || (end == Error && calls > 0) then 1 else 0
    ensures calls > 0 ==> Troubles(env, calls - 1) == 0
  {
    if calls > 0 {
      NoTroubles(env, calls - 1);
      var o := env(calls - 1);
    }
  }

  lemma {:induction false} NoTroubles(env: nat -> Outcome, n: nat)
    requires Smooth(env, 0, n)
    ensures Troubles(env, n) == 0
  {
    if n > 0 { NoTroubles(env, n - 1); }
  }

  ghost predicate WouldHaveBlocked(env: nat -> Outcome, k: nat) {
    env(k).Packet? && env(k).code == WouldBlock
  }

  ghost predicate WentWrong(env: nat -> Outcome, k: nat) {
    env(k).Bad? || (env(k).Packet? && env(k).code == Failed)
  }

  lemma {:induction false} Opens(q: SendQ, r: Record, env: nat -> Outcome, maxConn: nat)
    requires Ready(q, r) && r.served == []
    ensures Books(q, r, [], maxConn, env, 0) && SentCount(env, 0) == 0
    ensures Smooth(env, 0, 0) && Taken(env, 0, 0, r.total) && Troubles(env, 0) == 0
  {
    assert |r.served| <= |r.total|;
    hide Ready;
  }

  lemma GoesOn(q: SendQ, r: Record, r': Record, counts: seq<int>, maxConn: nat)
    requires Ready(q, r') && Again(r, counts, maxConn) && r.served <= r'.served && r.total <= r'.total
    ensures Again(r', counts, maxConn)
  {
    AgainStays(r, r', counts, maxConn);
  }

  lemma Counted(q: SendQ, r: Record, counts: seq<int>, k: nat, maxConn: nat)
    requires Ready(q, r) && Again(r, counts, maxConn) && |counts| + 1 == |r.served|
    requires k <= maxConn && (k == maxConn ==> r.served[|counts|] in q.chain)
    ensures Again(r, counts + [k], maxConn) && Sum(counts + [k]) == Sum(counts) + k
  {
    AgainNext(r, counts, k, maxConn, q.chain);
    SumNext(counts, k);
  }

  lemma Closes(q: SendQ, r: Record, counts: seq<int>, maxConn: nat, env: nat -> Outcome, n: nat)
    requires Books(q, r, counts, maxConn, env, n)
    ensures q.Valid() && r.served + q.chain == r.total && Fair(r)
    ensures Again(r, counts, maxConn) && Sum(counts) == SentCount(env, n)
  {
    InOrderIsFair(r, q.chain);
  }

  lemma MaxBounds(a: nat, b: nat)
    ensures a <= Max(a, b) && b <= Max(a, b)
  { }
}
