/** The queue of connections with something to send, src/sendq.c: linked through the connections
    themselves, with a head and a tail pointer. */
module SendQueue {
  import opened Core

  /** `chain` is what the links reach from `head`. */
  ghost predicate Chain(head: Conn?, chain: seq<Conn>)
    reads chain
  {
    && (chain == [] ==> head == null)
    && (chain != [] ==> head == chain[0] && chain[|chain| - 1].next == null)
    && (forall i {:trigger chain[i].next} :: 0 <= i < |chain| - 1 ==> chain[i].next == chain[i + 1])
    && (forall i, j :: 0 <= i < j < |chain| ==> chain[i] != chain[j])
  }

  ghost predicate Distinct(s: seq<Conn>) {
    forall i, j :: 0 <= i < j < |s| ==> s[i] != s[j]
  }

  lemma ChainDistinct(head: Conn?, chain: seq<Conn>)
    requires Chain(head, chain)
    ensures Distinct(chain)
  { }

  /** The links of `s` with the one to place `i` led past it. */
  lemma LinksCut(head: Conn?, s: seq<Conn>, i: nat)
    requires i < |s| && Distinct(s) && s[i].next == Link(s, i + 1)
    requires forall j :: 0 <= j < |s| && j != i - 1 ==> s[j].next == Link(s, j + 1)
    requires i > 0 ==> s[i - 1].next == Link(s, i + 1)
    requires head == if i == 0 then Link(s, 1) else s[0]
    ensures Chain(head, s[..i] + s[i + 1..])
  {
    var cut := s[..i] + s[i + 1..];
    forall j | 0 <= j < |cut| ensures cut[j] == s[if j < i then j else j + 1] { }
    forall j | 0 <= j < |cut| - 1 ensures cut[j].next == cut[j + 1] { }
  }

  ghost function Link(s: seq<Conn>, j: int): Conn? {
    if 0 <= j < |s| then s[j] else null
  }

  predicate IsTail(tail: Conn?, chain: seq<Conn>) {
    tail == if chain == [] then null else chain[|chain| - 1]
  }

  class SendQ {
    var head: Conn?
    var tail: Conn?
    ghost var chain: seq<Conn>
    ghost const pool: set<Conn> // the connections that may be queued

    /** The links from the head are in order, and `insend` marks exactly the queued connections. */
    ghost predicate HeadValid()
      reads this, pool
    {
      && (forall i :: 0 <= i < |chain| ==> chain[i] in pool)
      && Chain(head, chain)
      && (forall c :: c in pool ==> (c.insend <==> c in chain))
      && (tail != null ==> tail in pool)
      && (chain != [] ==> tail != null)
    }

    /** The tail pointer names the last queued connection. */
    ghost predicate TailValid()
      reads this
    {
      IsTail(tail, chain)
    }

    ghost predicate Valid()
      reads this, pool
    {
      HeadValid() && TailValid()
    }

    constructor (ghost pool: set<Conn>)
      requires forall c :: c in pool ==> !c.insend
      ensures Valid() && chain == [] && this.pool == pool
    {
      head, tail, chain := null, null, [];
      this.pool := pool;
    }

    /** `sendq_dq`. Taking the last connection also repairs the tail. */
    method Dq() returns (c: Conn?)
      requires HeadValid()
      modifies this, pool
      ensures HeadValid()
      ensures old(chain) == [] ==> c == null && chain == []
      ensures old(chain) != [] ==> c == old(chain)[0] && chain == old(chain)[1..]
      ensures old(TailValid()) || |old(chain)| == 1 ==> TailValid()
      ensures c != null ==> c.next == null && !c.insend
    {
      c := head;
      if c != null {
        head := c.next;
        if head == null { tail := null; }
        c.next := null;
        c.insend := false;
        chain := chain[1..];
      }
    }

    /** `sendq_nq`. With a tail that names the last connection, `c` becomes the last; with a tail
        left behind by `sendq_del`, `c` is marked as queued but cannot be reached. */
    method Nq(c: Conn)
      requires HeadValid() && c in pool
      modifies this, pool
      ensures old(c.insend) ==> HeadValid() && chain == old(chain) && tail == old(tail)
      ensures !old(c.insend) && old(TailValid()) ==> Valid() && chain == old(chain) + [c]
      ensures !old(c.insend) && !old(TailValid()) && old(tail) !in old(chain) ==>
                Chain(head, chain) && chain == old(chain) && c.insend && c !in chain && tail == c
    {
      if c.insend { return; }
      if TailValid() { chain := chain + [c]; }
      if tail != null {
        tail.next := c;
        tail := c;
      } else {
        head := c;
        tail := c;
      }
      c.next := null;
      c.insend := true;
    }

    /** `sendq_del`: the other connections keep their order, whatever the tail is. A right tail stays right
        exactly when the last connection is not the one removed; a stale one stays stale. */
    method Del(c: Conn)
      requires HeadValid() && c in pool
      modifies this, pool
      ensures HeadValid() && chain == Without(old(chain), c) && !c.insend
      ensures tail == old(tail)
      ensures old(TailValid()) ==> (TailValid() <==> old(chain) == [] || old(chain)[|old(chain)| - 1] != c)
      ensures !old(TailValid()) && old(tail) !in old(chain) ==> !TailValid()
    {
      hide Without, Chain, Distinct, IsTail;
      ChainDistinct(head, chain);
      WithoutMembers(chain, c);
      WithoutTail(chain, c, tail);
      if c.insend {
        var p, i := Find(c);
        WithoutAt(chain, i);
        Unlink(c, p, i);
      } else {
        WithoutAbsent(chain, c);
      }
      c.insend := false;
      assert forall i :: 0 <= i < |chain| ==> chain[i] in pool;
      assert forall d :: d in pool ==> (d.insend <==> d in chain);
    }

    /** The unlink loop's search: `p` is the connection whose link names `c`, null for the head link. */
    method Find(c: Conn) returns (p: Conn?, ghost i: nat)
      requires HeadValid() && c in chain
      ensures i < |chain| && chain[i] == c && p == if i == 0 then null else chain[i - 1]
    {
      p, i := null, 0;
      var n := head;
      while n != null && n != c
        invariant 0 <= i <= |chain| && (n == if i < |chain| then chain[i] else null)
        invariant p == if i == 0 then null else chain[i - 1]
        invariant c !in chain[..i]
        decreases |chain| - i
      {
        p := n;
        n := n.next;
        i := i + 1;
      }
    }

    method Unlink(c: Conn, p: Conn?, ghost i: nat)
      requires HeadValid() && i < |chain| && chain[i] == c && p == if i == 0 then null else chain[i - 1]
      modifies this`head, this`chain, pool`next
      ensures chain == old(chain[..i] + chain[i + 1..]) && Chain(head, chain)
    {
      ghost var was := chain;
      if p == null { head := c.next; } else { p.next := c.next; }
      LinksCut(head, was, i);
      hide Chain;
      chain := chain[..i] + chain[i + 1..];
    }
  }

  /** `s` without `c`, in the same order. */
  function Without(s: seq<Conn>, c: Conn): seq<Conn> {
    if s == [] then [] else if s[0] == c then Without(s[1..], c) else [s[0]] + Without(s[1..], c)
  }

  lemma {:induction false} WithoutMembers(s: seq<Conn>, c: Conn)
    ensures forall x :: x in Without(s, c) <==> x in s && x != c
  {
    if s != [] { WithoutMembers(s[1..], c); }
  }

  lemma {:induction false} WithoutAbsent(s: seq<Conn>, c: Conn)
    requires c !in s
    ensures Without(s, c) == s
  {
    if s != [] { WithoutAbsent(s[1..], c); }
  }

  /** What removing `c` does to a remembered last connection. */
  lemma WithoutTail(s: seq<Conn>, c: Conn, tail: Conn?)
    requires Distinct(s)
    ensures IsTail(tail, s) ==> (IsTail(tail, Without(s, c)) <==> s == [] || s[|s| - 1] != c)
    ensures !IsTail(tail, s) && tail !in s && (s != [] ==> tail != null) ==> !IsTail(tail, Without(s, c))
  {
    WithoutMembers(s, c);
    if c in s {
      var i :| 0 <= i < |s| && s[i] == c;
      WithoutAt(s, i);
    } else {
      WithoutAbsent(s, c);
    }
    hide Without;
  }

  lemma {:induction false} WithoutAt(s: seq<Conn>, i: nat)
    requires i < |s| && Distinct(s)
    ensures Without(s, s[i]) == s[..i] + s[i + 1..]
  {
    if i == 0 {
      WithoutAbsent(s[1..], s[0]);
    } else {
      WithoutAt(s[1..], i - 1);
    }
  }
}
