/** The two message queues of a connection and the choice between them, src/conn.c and src/messageq.h.
    Each is linked through the messages themselves, with a first and a last message remembered. */
module MessageQueue {
  import opened Bits

  const TWO_32: nat := 0x1_0000_0000
  const PRIORITY: int := 0
  const WHENEVER: int := 1

  class Message {
    const priority: int
    var next: Message?

    constructor (priority: int)
      ensures this.priority == priority && next == null
    {
      this.priority, next := priority, null;
    }
  }

  /** `(sendwhich + 1) & sendmask` in 32 bits. */
  function NextWhich(which: nat, mask: nat): nat {
    And((which + 1) % TWO_32, mask)
  }

  /** The indicator after `n` picks. */
  function WhichAfter(which: nat, mask: nat, n: nat): nat {
    if n == 0 then which else NextWhich(WhichAfter(which, mask, n - 1), mask)
  }

  /** One step of the counter, from any 32-bit value. */
  lemma {:induction false} WhichStep(which: nat, k: nat)
    requires k <= 32 && which < TWO_32
    ensures NextWhich(which, Pow2(k) - 1) == (which + 1) % Pow2(k) < TWO_32
  {
    hide And, Pow2;
    Pow2Of32();
    Pow2Mono(k, 32);
    WrapMod(which + 1, k);
    AndMask((which + 1) % TWO_32, k);
  }

  /** A counter that stands at a remainder moves to the next one. */
  lemma {:induction false} WhichNext(which: nat, k: nat, x: nat)
    requires k <= 32 && which < TWO_32 && (which == x || which == x % Pow2(k))
    ensures NextWhich(which, Pow2(k) - 1) == (x + 1) % Pow2(k) < TWO_32
  {
    hide NextWhich, Pow2;
    WhichStep(which, k);
    ModStep(x, Pow2(k));
  }

  lemma {:induction false} WhichIsModulo(which: nat, k: nat, n: nat)
    requires k <= 32 && which < TWO_32 && n > 0
    ensures WhichAfter(which, Pow2(k) - 1, n) == (which + n) % Pow2(k) < TWO_32
  {
    hide NextWhich, Pow2;
    var before := WhichAfter(which, Pow2(k) - 1, n - 1);
    if n > 1 { WhichIsModulo(which, k, n - 1); }
    WhichNext(before, k, which + (n - 1));
  }

  lemma Pow2Of32()
    ensures Pow2(32) == TWO_32
  {
    assert Pow2(8) == 0x100;
    assert Pow2(16) == 0x1_0000;
    assert Pow2(24) == 0x100_0000;
  }

  lemma ModStep(x: nat, p: nat)
    requires p > 0
    ensures (x % p + 1) % p == (x + 1) % p
  {
    var q := x / p;
    if x % p + 1 < p {
      ModUnique(x + 1, p, q, x % p + 1);
      ModUnique(x % p + 1, p, 0, x % p + 1);
    } else {
      assert x + 1 == p * q + p == p * (q + 1);
      ModUnique(x + 1, p, q + 1, 0);
      ModUnique(p, p, 1, 0);
    }
  }

  /** Wrapping at 32 bits does not disturb a remainder modulo a smaller power of two. */
  lemma WrapMod(x: nat, k: nat)
    requires k <= 32 && x <= TWO_32 == Pow2(32)
    ensures (x % TWO_32) % Pow2(k) == x % Pow2(k)
  {
    if x == TWO_32 {
      Pow2Divides(k, 32);
      ModUnique(0, Pow2(k), 0, 0);
    }
  }

  lemma {:induction false} Pow2Divides(k: nat, w: nat)
    requires k <= w
    ensures Pow2(w) % Pow2(k) == 0
  {
    if k < w {
      Pow2Divides(k, w - 1);
      var p, q := Pow2(k), Pow2(w - 1) / Pow2(k);
      assert Pow2(w) == p * (2 * q) by { assert Pow2(w - 1) == p * q; }
      ModUnique(Pow2(w), p, 2 * q, 0);
    } else {
      ModUnique(Pow2(k), Pow2(k), 1, 0);
    }
  }

  /** How many of `n` picks in a row, after the first `from`, prefer the whenever queue. */
  function WheneverTurns(which: nat, mask: nat, from: nat, n: nat): nat {
    if n == 0 then 0
    else WheneverTurns(which, mask, from, n - 1) + if WhichAfter(which, mask, from + n) == 0 then 1 else 0
  }

  /** How many of the numbers x + 1 to x + n are multiples of p. */
  function Multiples(x: nat, n: nat, p: nat): nat
    requires p > 0
  {
    if n == 0 then 0 else Multiples(x, n - 1, p) + if (x + n) % p == 0 then 1 else 0
  }

  /** Before the next multiple there is none; the next one is within p steps. */
  lemma {:induction false} MultiplesCount(x: nat, n: nat, p: nat)
    requires p > 0 && n <= p
    ensures Multiples(x, n, p) == if x % p + n >= p then 1 else 0
  {
    if n > 0 {
      MultiplesCount(x, n - 1, p);
      var q, r := x / p, x % p;
      if r + n < p {
        ModUnique(x + n, p, q, r + n);
      } else {
        assert x + n == p * (q + 1) + (r + n - p);
        ModUnique(x + n, p, q + 1, r + n - p);
      }
    }
  }

  lemma {:induction false} TurnsAreMultiples(which: nat, k: nat, from: nat, n: nat)
    requires k <= 32 && which < TWO_32
    ensures WheneverTurns(which, Pow2(k) - 1, from, n) == Multiples(which + from, n, Pow2(k))
  {
    if n > 0 {
      TurnsAreMultiples(which, k, from, n - 1);
      WhichIsModulo(which, k, from + n);
    }
  }

  /** No starvation: with mask 2^k - 1, every window of 2^k picks in a row prefers the whenever queue
      exactly once, and hence the priority queue 2^k - 1 times. */
  lemma OneWheneverPerWindow(which: nat, k: nat, from: nat)
    requires k <= 32 && which < TWO_32
    ensures WheneverTurns(which, Pow2(k) - 1, from, Pow2(k)) == 1
  {
    TurnsAreMultiples(which, k, from, Pow2(k));
    MultiplesCount(which + from, Pow2(k), Pow2(k));
  }

  /** The links lead from `beg` through `chain` to `end`. */
  ghost predicate Chain(beg: Message?, end: Message?, chain: seq<Message>)
    reads chain
  {
    if chain == [] then beg == null && end == null
    else
      && beg == chain[0] && end == chain[|chain| - 1] && chain[|chain| - 1].next == null
      && (forall i {:trigger chain[i].next} :: 0 <= i < |chain| - 1 ==> chain[i].next == chain[i + 1])
      && (forall i, j :: 0 <= i < j < |chain| ==> chain[i] != chain[j])
  }

  /** The queues of one connection. `chains` are the queues that the links stand for. */
  class MessageQ {
    var sendmask: nat
    var sendwhich: nat
    var sendbeg: seq<Message?>
    var sendend: seq<Message?>
    ghost var chains: seq<seq<Message>>
    ghost var members: set<Message> // all that was ever queued

    ghost predicate Valid()
      reads this, members
    {
      && sendwhich < TWO_32 && |sendbeg| == |sendend| == |chains| == 2
      && QueueValid(0) && QueueValid(1)
    }

    /** The links of queue `p` are in order, and it holds messages of that priority only. */
    ghost predicate QueueValid(p: int)
      requires 0 <= p < |sendbeg| && p < |sendend| && p < |chains|
      reads this, members
    {
      && (forall m :: m in chains[p] ==> m in members && m.priority == p)
      && Chain(sendbeg[p], sendend[p], chains[p])
    }

    constructor ()
      ensures Valid() && chains == [[], []] && sendwhich == 0 && sendmask == 0
    {
      sendmask, sendwhich, sendbeg, sendend := 0, 0, [null, null], [null, null];
      chains, members := [[], []], {};
    }

    /** The links of one queue, with `m` behind the others. */
    method Append(p: int, m: Message, ghost chain: seq<Message>)
      requires 0 <= p < |sendbeg| && p < |sendend| && Chain(sendbeg[p], sendend[p], chain) && m !in chain
      modifies this`sendbeg, this`sendend, sendend[p], m
      ensures sendbeg == old(sendbeg)[p := (chain + [m])[0]] && sendend == old(sendend)[p := m]
      ensures Chain((chain + [m])[0], m, chain + [m])
    {
      if sendend[p] != null {
        sendend[p].next := m;
        sendend := sendend[p := m];
      } else {
        sendbeg := sendbeg[p := m];
        sendend := sendend[p := m];
      }
      m.next := null;
    }

    /** `_tripc_send_add`: a message not in its queue becomes the last one there. */
    method Add(m: Message)
      requires Valid() && (m.priority == PRIORITY || m.priority == WHENEVER) && m !in chains[m.priority]
      modifies this`sendbeg, this`sendend, this`chains, this`members, members, m
      ensures Valid() && chains == old(chains)[m.priority := old(chains)[m.priority] + [m]]
    {
      var p := m.priority;
      assert sendend[p] != null ==> sendend[p] in chains[p];
      assert forall x :: x in chains[1 - p] ==> x.priority != p;
      hide Chain;
      Append(p, m, chains[p]);
      chains, members := chains[p := chains[p] + [m]], members + {m};
      assert QueueValid(p) && QueueValid(1 - p);
    }

    /** `_tripc_send_pick`: the head of the preferred queue, else of the other; nothing exactly when both
        are empty. */
    method Pick() returns (m: Message?)
      requires Valid() && sendmask < TWO_32
      modifies this`sendwhich
      ensures Valid() && sendwhich == NextWhich(old(sendwhich), sendmask)
      ensures m == null <==> chains[PRIORITY] == [] && chains[WHENEVER] == []
      ensures var which := if sendwhich != 0 then PRIORITY else WHENEVER;
              && (chains[which] != [] ==> m == chains[which][0])
              && (chains[which] == [] && chains[1 - which] != [] ==> m == chains[1 - which][0])
    {
      AndBelow((sendwhich + 1) % TWO_32, sendmask);
      sendwhich := NextWhich(sendwhich, sendmask);
      var which := if sendwhich != 0 then PRIORITY else WHENEVER;
      if sendbeg[which] != null {
        m := sendbeg[which];
      } else {
        which := (which + 1) % 2;
        m := sendbeg[which];
      }
    }

    /** `_tripc_send_clear`: a message at the front of its queue leaves it, and the end stays right; any
        other message stays. */
    method Clear(m: Message)
      requires Valid() && (m.priority == PRIORITY || m.priority == WHENEVER)
      modifies this`sendbeg, this`sendend, this`chains, m
      ensures Valid()
      ensures var was := old(chains)[m.priority];
              chains == if was != [] && was[0] == m then old(chains)[m.priority := was[1..]] else old(chains)
      ensures old(chains)[m.priority] != [] && old(chains)[m.priority][0] == m ==> m.next == null
    {
      var p := m.priority;
      if m == sendbeg[p] {
        if sendbeg[p] == sendend[p] {
          sendbeg := sendbeg[p := null];
          sendend := sendend[p := null];
        } else {
          sendbeg := sendbeg[p := m.next];
        }
        m.next := null;
        chains := chains[p := chains[p][1..]];
      }
    }

    /** `n` picks in a row when neither queue is empty. Of 2^k picks with mask 2^k - 1, starting anywhere,
        exactly one delivers the head of the whenever queue and the others that of the priority queue. */
    method PickMany(n: nat) returns (fromPriority: nat, fromWhenever: nat)
      requires Valid() && sendmask < TWO_32 && chains[PRIORITY] != [] && chains[WHENEVER] != []
      modifies this`sendwhich
      ensures Valid() && sendwhich == WhichAfter(old(sendwhich), sendmask, n)
      ensures fromWhenever == WheneverTurns(old(sendwhich), sendmask, 0, n) && fromPriority + fromWhenever == n
      ensures forall k :: 0 <= k <= 32 && sendmask == Pow2(k) - 1 && n == Pow2(k) ==> fromWhenever == 1
    {
      fromPriority, fromWhenever := 0, 0;
      for i := 0 to n
        invariant Valid() && sendwhich == WhichAfter(old(sendwhich), sendmask, i)
        invariant fromWhenever == WheneverTurns(old(sendwhich), sendmask, 0, i) && fromPriority + fromWhenever == i
      {
        var m := Pick();
        if m.priority == WHENEVER {
          fromWhenever := fromWhenever + 1;
        } else {
          fromPriority := fromPriority + 1;
        }
      }
      forall k | 0 <= k <= 32 && sendmask == Pow2(k) - 1 && n == Pow2(k) ensures fromWhenever == 1 {
        OneWheneverPerWindow(old(sendwhich), k, 0);
      }
    }
  }

  lemma {:induction false} AndBelow(a: nat, b: nat)
    ensures And(a, b) <= a && And(a, b) <= b
  {
    if a > 0 && b > 0 { AndBelow(a / 2, b / 2); }
  }
}
