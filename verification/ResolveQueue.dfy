/** The queue of connections waiting for their address, src/resolveq.c. Keys are positions in an array
    that grows with `realloc`, and the free list is made of pointers into that array: a pointer records
    which allocation it points into, and is good only while the array still is that allocation. */
module ResolveQueue {
  import opened Options

  datatype Ptr = Null | Ptr(alloc: int, index: int)
  datatype Slot<T> = InUse(data: Option<T>) | Vacant(next: Ptr)

  /** `resolveq_t`; `len` is the length of `slots`, `alloc` numbers the allocation they live in. */
  datatype Queue<T> = Queue(size: int, slots: seq<Slot<T>>, alloc: int, free: Ptr)

  /** The free list, through good pointers only, visits each position of `vacant` once. */
  ghost predicate Linked<T>(slots: seq<Slot<T>>, alloc: int, free: Ptr, vacant: set<int>)
    decreases vacant
  {
    if vacant == {} then free == Null
    else
      && free.Ptr? && free.alloc == alloc && free.index in vacant
      && 0 <= free.index < |slots| && slots[free.index].Vacant?
      && Linked(slots, alloc, slots[free.index].next, vacant - {free.index})
  }

  lemma {:induction false} LinkedFrame<T>(a: seq<Slot<T>>, b: seq<Slot<T>>, alloc: int, free: Ptr, vacant: set<int>)
    requires Linked(a, alloc, free, vacant) && |a| <= |b|
    requires forall x :: x in vacant && 0 <= x < |a| ==> b[x] == a[x]
    ensures Linked(b, alloc, free, vacant)
    decreases vacant
  {
    if vacant != {} { LinkedFrame(a, b, alloc, a[free.index].next, vacant - {free.index}); }
  }

  lemma {:induction false} LinkedAreVacant<T>(slots: seq<Slot<T>>, alloc: int, free: Ptr, vacant: set<int>)
    requires Linked(slots, alloc, free, vacant)
    ensures forall x :: x in vacant ==> 0 <= x < |slots| && slots[x].Vacant?
    decreases vacant
  {
    if vacant != {} {
      LinkedAreVacant(slots, alloc, slots[free.index].next, vacant - {free.index});
      assert vacant == vacant - {free.index} + {free.index};
    }
  }

  /** The slots in use hold exactly the pairs of `m`. */
  ghost predicate Holds<T>(slots: seq<Slot<T>>, vacant: set<int>, m: map<int, Option<T>>) {
    && (forall i :: 0 <= i < |slots| && slots[i].Vacant? ==> i in vacant)
    && (forall i :: 0 <= i < |slots| && slots[i].InUse? ==> i in m)
    && (forall k :: k in m ==> 0 <= k < |slots| && slots[k] == InUse(m[k]))
  }

  ghost predicate Shape<T>(q: Queue<T>, vacant: set<int>, m: map<int, Option<T>>) {
    && Linked(q.slots, q.alloc, q.free, vacant) && Holds(q.slots, vacant, m)
    && q.size == |m| && (q.size == 0 ==> q.slots == [])
  }

  // ---- what happened, and what keys mean ----

  datatype Event<T> = Put(data: T, key: int) | Pop(key: int, result: Option<T>) | Del(key: int)

  function Effect<T>(m: map<int, Option<T>>, e: Event<T>): map<int, Option<T>> {
    match e
    case Put(c, k) => m[k := Some(c)]
    case Pop(k, _) => m - {k}
    case Del(k) => if k in m then m[k := None] else m
  }

  /** The keys handed out and not yet popped, with the data a pop would deliver. */
  function After<T>(trace: seq<Event<T>>): map<int, Option<T>> {
    if trace == [] then map[]
    else Effect(After(trace[..|trace| - 1]), trace[|trace| - 1])
  }

  predicate Legal<T(==)>(m: map<int, Option<T>>, e: Event<T>) {
    match e
    case Put(_, k) => k !in m && 0 <= k
    case Pop(k, r) => r == if k in m then m[k] else None
    case Del(_) => true
  }

  /** Every event agrees with what went before it. */
  predicate LegalTrace<T(==)>(trace: seq<Event<T>>) {
    forall i :: 0 <= i < |trace| ==> Legal(After(trace[..i]), trace[i])
  }

  ghost predicate PoppedBetween<T(!new)>(trace: seq<Event<T>>, i: int, j: int, k: int) {
    exists n :: i < n < j && 0 <= n < |trace| && trace[n].Pop? && trace[n].key == k
  }

  ghost predicate DeletedBetween<T(!new)>(trace: seq<Event<T>>, i: int, j: int, k: int) {
    exists n :: i < n < j && 0 <= n < |trace| && trace[n].Del? && trace[n].key == k
  }

  lemma AfterNext<T>(trace: seq<Event<T>>, i: nat)
    requires i < |trace|
    ensures After(trace[..i + 1]) == Effect(After(trace[..i]), trace[i])
  {
    assert trace[..i + 1][..i] == trace[..i];
  }

  /** A key stays with its connection until it is popped, whatever is put and deleted meanwhile. */
  lemma {:induction false} KeyStable<T(!new)>(trace: seq<Event<T>>, i: nat, j: nat, k: int, c: T)
    requires LegalTrace(trace) && i < j <= |trace| && trace[i] == Put(c, k) && !PoppedBetween(trace, i, j, k)
    ensures k in After(trace[..j])
    ensures After(trace[..j])[k] == if DeletedBetween(trace, i, j, k) then None else Some(c)
    decreases j
  {
    hide After;
    AfterNext(trace, j - 1);
    var e := trace[j - 1];
    assert Legal(After(trace[..j - 1]), e);
    BetweenNext(trace, i, j, k);
    hide LegalTrace, PoppedBetween, DeletedBetween;
    if j > i + 1 { KeyStable(trace, i, j - 1, k, c); }
  }

  lemma BetweenNext<T(!new)>(trace: seq<Event<T>>, i: nat, j: nat, k: int)
    requires i < j <= |trace|
    ensures PoppedBetween(trace, i, j, k) <==>
              PoppedBetween(trace, i, j - 1, k) || (i < j - 1 && trace[j - 1].Pop? && trace[j - 1].key == k)
    ensures DeletedBetween(trace, i, j, k) <==>
              DeletedBetween(trace, i, j - 1, k) || (i < j - 1 && trace[j - 1].Del? && trace[j - 1].key == k)
  { }

  /** So no key is issued twice before it is popped, and a pop delivers exactly the connection put
      under the key, or nothing if that was deleted in between. */
  lemma PopDeliversPut<T(!new)>(trace: seq<Event<T>>, i: nat, j: nat, k: int, c: T)
    requires LegalTrace(trace) && i < j < |trace| && trace[i] == Put(c, k) && !PoppedBetween(trace, i, j, k)
    ensures !(trace[j].Put? && trace[j].key == k)
    ensures trace[j].Pop? && trace[j].key == k ==>
              trace[j].result == if DeletedBetween(trace, i, j, k) then None else Some(c)
  {
    KeyStable(trace, i, j, k, c);
    assert Legal(After(trace[..j]), trace[j]);
  }

  /** Only such keys are taken: each was put and has not been popped since. */
  lemma {:induction false} KeyTaken<T(!new)>(trace: seq<Event<T>>, j: nat, k: int)
    requires j <= |trace| && k in After(trace[..j])
    ensures exists i :: 0 <= i < j && trace[i].Put? && trace[i].key == k && !PoppedBetween(trace, i, j, k)
    decreases j
  {
    hide After;
    if j == 0 {
      AfterNothing(trace);
    } else {
      AfterNext(trace, j - 1);
      var e := trace[j - 1];
      if e.Put? && e.key == k {
        assert !PoppedBetween(trace, j - 1, j, k);
      } else {
        KeyTaken(trace, j - 1, k);
        var i :| 0 <= i < j - 1 && trace[i].Put? && trace[i].key == k && !PoppedBetween(trace, i, j - 1, k);
        BetweenNext(trace, i, j, k);
      }
    }
  }

  lemma AfterNothing<T>(trace: seq<Event<T>>)
    ensures After(trace[..0]) == map[]
  { }

  /** A key that was popped and not put again delivers nothing. */
  lemma {:induction false} PopOnce<T(!new)>(trace: seq<Event<T>>, i: nat, j: nat, k: int)
    requires LegalTrace(trace) && i < j < |trace|
    requires trace[i].Pop? && trace[i].key == k && trace[j].Pop? && trace[j].key == k
    requires forall n :: i < n < j && trace[n].Put? ==> trace[n].key != k
    ensures trace[j].result == None
  {
    hide After;
    assert Legal(After(trace[..j]), trace[j]);
    forall m | 0 <= m < j && trace[m].Put? && trace[m].key == k ensures PoppedBetween(trace, m, j, k) {
      assert m < i;
    }
    KeyFree(trace, j, k);
  }

  lemma {:induction false} KeyFree<T(!new)>(trace: seq<Event<T>>, j: nat, k: int)
    requires j <= |trace|
    requires forall i :: 0 <= i < j && trace[i].Put? && trace[i].key == k ==> PoppedBetween(trace, i, j, k)
    ensures k !in After(trace[..j])
  {
    if k in After(trace[..j]) { KeyTaken(trace, j, k); }
  }

  /** When every key that was put has been popped, none is taken. */
  lemma {:induction false} AllPopped<T(!new)>(trace: seq<Event<T>>)
    requires forall i :: 0 <= i < |trace| && trace[i].Put? ==> PoppedBetween(trace, i, |trace|, trace[i].key)
    ensures After(trace) == map[]
  {
    hide After, PoppedBetween;
    assert trace[..|trace|] == trace;
    forall k ensures k !in After(trace) { KeyFree(trace, |trace|, k); }
  }

  lemma LegalNext<T(!new)>(trace: seq<Event<T>>, e: Event<T>)
    requires LegalTrace(trace) && Legal(After(trace), e)
    ensures LegalTrace(trace + [e])
  {
    forall i | 0 <= i < |trace + [e]| ensures Legal(After((trace + [e])[..i]), (trace + [e])[i]) {
      if i < |trace| {
        assert (trace + [e])[..i] == trace[..i];
      } else {
        assert (trace + [e])[..i] == trace;
      }
    }
  }

  lemma AfterSnoc<T>(trace: seq<Event<T>>, e: Event<T>)
    ensures After(trace + [e]) == Effect(After(trace), e)
  { }

  lemma PutShape<T>(slots: seq<Slot<T>>, alloc: int, free: Ptr, vacant: set<int>, m: map<int, Option<T>>, c: T)
    requires Linked(slots, alloc, free, vacant) && Holds(slots, vacant, m) && vacant != {}
    ensures 0 <= free.index < |slots| && slots[free.index].Vacant? && free.index !in m
    ensures var k, s' := free.index, slots[free.index := InUse(Some(c))];
            && Linked(s', alloc, slots[k].next, vacant - {k})
            && Holds(s', vacant - {k}, m[k := Some(c)])
            && |m[k := Some(c)]| == |m| + 1
  {
    var k := free.index;
    LinkedFrame(slots, slots[k := InUse(Some(c))], alloc, slots[k].next, vacant - {k});
    hide Linked;
    assert m[k := Some(c)].Keys == m.Keys + {k};
  }

  lemma PopShape<T>(slots: seq<Slot<T>>, alloc: int, free: Ptr, vacant: set<int>, m: map<int, Option<T>>, k: int)
    requires Linked(slots, alloc, free, vacant) && Holds(slots, vacant, m) && k in m
    ensures 0 <= k < |slots|
    ensures var s' := slots[k := Vacant(free)];
            && Linked(s', alloc, Ptr(alloc, k), vacant + {k})
            && Holds(s', vacant + {k}, m - {k})
            && |m - {k}| == |m| - 1
  {
    LinkedAreVacant(slots, alloc, free, vacant);
    LinkedFrame(slots, slots[k := Vacant(free)], alloc, free, vacant);
    assert vacant + {k} - {k} == vacant;
    assert m.Keys == (m - {k}).Keys + {k};
  }

  lemma DelShape<T>(slots: seq<Slot<T>>, alloc: int, free: Ptr, vacant: set<int>, m: map<int, Option<T>>, k: int)
    requires Linked(slots, alloc, free, vacant) && Holds(slots, vacant, m) && k in m
    ensures 0 <= k < |slots|
    ensures var s' := slots[k := InUse(None)];
            && Linked(s', alloc, free, vacant) && Holds(s', vacant, m[k := None])
            && |m[k := None]| == |m|
  {
    LinkedAreVacant(slots, alloc, free, vacant);
    LinkedFrame(slots, slots[k := InUse(None)], alloc, free, vacant);
    hide Linked;
    assert m[k := None].Keys == m.Keys;
  }

  /** `_grow` and `_enqueue`: one more slot, possibly in another place. All pointers into the old array
      die, which is harmless because there are none. */
  lemma GrowShape<T>(slots: seq<Slot<T>>, alloc: int, alloc': int, free: Ptr, m: map<int, Option<T>>)
    requires Linked(slots, alloc, free, {}) && Holds(slots, {}, m)
    ensures Linked(slots + [Vacant(free)], alloc', Ptr(alloc', |slots|), {|slots|})
    ensures Holds(slots + [Vacant(free)], {|slots|}, m)
  { }

  class ResolveQ<T(!new,==)> {
    var q: Queue<T>
    ghost var vacant: set<int>
    ghost var trace: seq<Event<T>>

    ghost predicate Valid()
      reads this
    {
      Shape(q, vacant, After(trace)) && LegalTrace(trace)
    }

    constructor ()
      ensures Valid() && trace == []
    {
      q := Queue(0, [], 0, Null);
      vacant, trace := {}, [];
    }

    /** A queue whose keys are all popped has given its array back. */
    lemma Emptied()
      requires Valid() && forall i :: 0 <= i < |trace| && trace[i].Put? ==> PoppedBetween(trace, i, |trace|, trace[i].key)
      ensures q.size == 0 && q.slots == []
    {
      AllPopped(trace);
    }

    /** `resolveq_put`: -1 exactly when a slot is needed and memory is short. */
    method Put(c: T, alloc: bool) returns (key: int)
      requires Valid()
      modifies this
      ensures Valid()
      ensures key == -1 <==> old(vacant) == {} && !alloc
      ensures key == -1 ==> trace == old(trace)
      ensures key != -1 ==> trace == old(trace) + [Event.Put(c, key)]
    {
      hide After, LegalTrace;
      if q.free == Null {
        if !alloc { return -1; }
        GrowShape(q.slots, q.alloc, q.alloc + 1, q.free, After(trace));
        vacant := {|q.slots|};
        q := Queue(q.size, q.slots + [Vacant(q.free)], q.alloc + 1, Ptr(q.alloc + 1, |q.slots|));
      }
      hide Linked, Holds;
      key := q.free.index;
      PutShape(q.slots, q.alloc, q.free, vacant, After(trace), c);
      LegalNext(trace, Event.Put(c, key));
      AfterSnoc(trace, Event.Put(c, key));
      q := Queue(q.size + 1, q.slots[key := InUse(Some(c))], q.alloc, q.slots[key].next);
      vacant := vacant - {key};
      trace := trace + [Event.Put(c, key)];
    }

    /** `resolveq_pop`. A negative key, which only a failed put gives, is below every length: the code then
        looks before the array, which `wild` reports and the model does not follow further. */
    method Pop(key: int) returns (c: Option<T>, wild: bool)
      requires Valid()
      modifies this
      ensures Valid() && (wild <==> key < 0)
      ensures trace == if wild then old(trace) else old(trace) + [Event.Pop(key, c)]
    {
      hide After, LegalTrace;
      c, wild := None, key < |q.slots| && key < 0;
      if wild { return; }
      ghost var m := After(trace);
      assert key !in m ==> m - {key} == m;
      if key < |q.slots| {
        if q.slots[key].InUse? {
          c := q.slots[key].data;
          Release(key);
        } else {
          assert key !in m;
        }
        CheckSize(m - {key});
      }
      LegalNext(trace, Event.Pop(key, c));
      AfterSnoc(trace, Event.Pop(key, c));
      trace := trace + [Event.Pop(key, c)];
    }

    /** `_enqueue` of a slot in use, and the count going down. */
    method Release(key: int)
      requires Valid() && key in After(trace)
      modifies this`q, this`vacant
      ensures Linked(q.slots, q.alloc, q.free, vacant) && Holds(q.slots, vacant, After(trace) - {key})
      ensures q.size == |After(trace) - {key}|
    {
      hide After, LegalTrace, Linked;
      PopShape(q.slots, q.alloc, q.free, vacant, After(trace), key);
      vacant := vacant + {key};
      q := Queue(q.size - 1, q.slots[key := Vacant(q.free)], q.alloc, Ptr(q.alloc, key));
    }

    /** `_check_size`: an empty queue gives its array back. */
    method CheckSize(ghost m: map<int, Option<T>>)
      requires Linked(q.slots, q.alloc, q.free, vacant) && Holds(q.slots, vacant, m) && q.size == |m|
      modifies this`q, this`vacant
      ensures Shape(q, vacant, m)
    {
      if q.size == 0 {
        q := Queue(0, [], q.alloc, Null);
        vacant := {};
      }
    }

    /** `resolveq_del`: the key stays taken, its connection is forgotten. */
    method Del(key: int) returns (wild: bool)
      requires Valid()
      modifies this
      ensures Valid() && (wild <==> key < 0)
      ensures trace == if wild then old(trace) else old(trace) + [Event.Del(key)]
    {
      wild := key < |q.slots| && key < 0;
      if wild { return; }
      ghost var m := After(trace);
      if key < |q.slots| && q.slots[key].InUse? {
        DelShape(q.slots, q.alloc, q.free, vacant, m, key);
        q := q.(slots := q.slots[key := InUse(None)]);
      } else {
        assert key !in m;
      }
      hide LegalTrace, Linked, Holds;
      LegalNext(trace, Event.Del(key));
      AfterSnoc(trace, Event.Del(key));
      trace := trace + [Event.Del(key)];
    }
  }
}
