/** The connection id map of src/connmap.c: a slot array grown by doubling, whose free
    slots form an intrusive list, refining a finite map from 64-bit ids to connections. */
module ConnMap {
  import opened Bits
  import opened Core
  import Util

  const NPOS: nat := TWO_64 - 1
  const MAX_CONN: nat := 0x8000_0000

  datatype Entry = Full(c: Conn) | Free(next: nat)
  datatype Code = Ok | ENOSPC | ENOMEM

  /** The slot an id names. */
  function Slot(id: nat, mask: nat): nat {
    And(id, mask)
  }

  /** The part of an id above the slot index. */
  function Tag(id: nat, mask: nat): nat
    requires mask < TWO_64
  {
    And(id, TWO_64 - 1 - mask)
  }

  /** `index ^ (r & ~mask)`: slot index in the low bits, random tag above. */
  function MakeId(index: nat, r: nat, mask: nat): nat
    requires mask < TWO_64
  {
    Xor(index, Tag(r, mask))
  }

  /** A mask as `connmap_init` makes them: 2^k - 1 with k at most 31. */
  ghost predicate IsMask(mask: nat) {
    IsPow2(mask + 1) && mask < MAX_CONN
  }

  /** An id is its slot index plus a multiple of mask + 1. */
  lemma IdParts(id: nat, mask: nat)
    requires IsMask(mask) && id < TWO_64
    ensures Slot(id, mask) == id % (mask + 1) <= mask
    ensures Tag(id, mask) == id - id % (mask + 1)
  {
    var k := Exponent(mask + 1);
    AndMask(id, k);
    assert TWO_64 == Pow2(64) && MAX_CONN == Pow2(31) by { Util.Pow2Values(); }
    if k > 31 { Pow2Mono(31, k); assert false; }
    assert TWO_64 - 1 - mask == Pow2(64) - Pow2(k);
    AndNotMask(id, k, 64);
  }

  /** Index and tag can both be read back from an id, and the id fits in 64 bits. */
  lemma MakeIdSplits(index: nat, r: nat, mask: nat)
    requires IsMask(mask) && index <= mask && r < TWO_64
    ensures var id := MakeId(index, r, mask);
            0 <= id < TWO_64 && Slot(id, mask) == index && Tag(id, mask) == Tag(r, mask)
  {
    var p := mask + 1;
    var k := Exponent(p);
    assert TWO_64 == Pow2(64) && MAX_CONN == Pow2(31) by { Util.Pow2Values(); }
    if k > 31 { Pow2Mono(31, k); assert false; }
    IdParts(r, mask);
    HighBound(index, r, k, 64);
    TagAndIndex(index, r, p);
    XorDisjoint(index, r - r % p, k);
    IdParts(MakeId(index, r, mask), mask);
  }

  lemma TagAndIndex(index: nat, r: nat, p: nat)
    requires index < p
    ensures var high := r - r % p; high % p == 0 && (index + high) % p == index
  {
    var q := r / p;
    assert r - r % p == p * q;
    ModUnique(p * q, p, q, 0);
    ModUnique(p * q + index, p, q, index);
  }

  lemma {:induction false} HighBound(index: nat, r: nat, k: nat, w: nat)
    requires k <= w && index < Pow2(k) && r < Pow2(w)
    ensures index + (r - r % Pow2(k)) < Pow2(w)
  {
    if k > 0 {
      ModHalf(r, Pow2(k - 1));
      HighBound(index / 2, r / 2, k - 1, w - 1);
    }
  }

  /** Doubling a power of two that is below another one does not pass it. */
  lemma DoubleBelow(cap: nat, max: nat)
    requires IsPow2(cap) && IsPow2(max) && cap < max
    ensures IsPow2(2 * cap) && 2 * cap <= max
  {
    var j := Exponent(cap);
    var k := Exponent(max);
    assert 2 * cap == Pow2(j + 1) && 2 * cap / 2 == cap;
    if k <= j { Pow2Mono(k, j); }
    Pow2Mono(j + 1, k);
  }

  lemma RoundedMax(max: nat)
    requires 1 <= max <= MAX_CONN
    ensures max <= Util.CeilPow2(max) <= MAX_CONN && IsPow2(Util.CeilPow2(max))
  {
    Util.CeilPow2Least(max, 31);
    assert MAX_CONN == Pow2(31) by { Util.Pow2Values(); }
  }

  lemma {:induction false} CeilOfPow2(n: nat)
    requires IsPow2(n)
    ensures Util.CeilPow2(n) == n
  {
    var k := Exponent(n);
    if k > 0 { Pow2Mono(k - 1, k); }
    Util.CeilPow2Unique(n, k);
  }

  /** `free` heads an acyclic list, linked through `slots`, that visits each slot of `vacant` once. */
  ghost predicate Linked(slots: seq<Entry>, free: nat, vacant: set<int>)
    decreases vacant
  {
    if vacant == {} then free == NPOS
    else
      && free in vacant && free < |slots| && slots[free].Free?
      && Linked(slots, slots[free].next, vacant - {free})
  }

  /** A list is not disturbed by a change to, or an addition of, slots that are not on it. */
  lemma {:induction false} LinkedFrame(slots: seq<Entry>, slots': seq<Entry>, free: nat, vacant: set<int>)
    requires Linked(slots, free, vacant) && |slots| <= |slots'|
    requires forall x :: x in vacant && 0 <= x < |slots| ==> slots'[x] == slots[x]
    ensures Linked(slots', free, vacant)
    decreases vacant
  {
    if vacant != {} { LinkedFrame(slots, slots', slots[free].next, vacant - {free}); }
  }

  lemma {:induction false} LinkedAreFree(slots: seq<Entry>, free: nat, vacant: set<int>)
    requires Linked(slots, free, vacant)
    ensures forall x :: x in vacant ==> 0 <= x < |slots| && slots[x].Free?
    decreases vacant
  {
    if vacant != {} {
      LinkedAreFree(slots, slots[free].next, vacant - {free});
      assert vacant == vacant - {free} + {free};
    }
  }

  /** `connmap_t`; `cap` is the length of `slots`. */
  datatype Table = Table(mask: nat, size: nat, slots: seq<Entry>, free: nat)

  /** What a table stands for: its free slots, the id each full slot was filled under,
      and the finite map it refines. */
  datatype View = View(vacant: set<int>, ids: seq<int>, contents: map<int, Conn>)

  /** The free list holds exactly the slots that are not full. */
  ghost predicate FreeList(slots: seq<Entry>, free: nat, vacant: set<int>) {
    Linked(slots, free, vacant) && forall i :: 0 <= i < |slots| && slots[i].Free? ==> i in vacant
  }

  /** The full slots hold exactly the pairs of `m`, each at the slot its id names. */
  ghost predicate Holds(slots: seq<Entry>, mask: nat, ids: seq<int>, m: map<int, Conn>) {
    && |ids| == |slots|
    && (forall i :: 0 <= i < |slots| && slots[i].Full? ==>
          0 <= ids[i] && ids[i] in m && Slot(ids[i], mask) == i)
    && (forall id {:trigger m[id]} :: id in m ==>
          0 <= id < TWO_64 && Slot(id, mask) < |slots| &&
          slots[Slot(id, mask)] == Full(m[id]) && ids[Slot(id, mask)] == id)
  }

  ghost predicate Counted(t: Table, v: View) {
    && IsMask(t.mask) && |t.slots| <= t.mask + 1
    && t.size == |v.contents| && |t.slots| == |v.vacant| + t.size
  }

  ghost predicate Shape(t: Table, v: View) {
    && Counted(t, v) && FreeList(t.slots, t.free, v.vacant)
    && Holds(t.slots, t.mask, v.ids, v.contents)
  }

  function PushNew(t: Table): Table {
    t.(slots := t.slots + [Free(t.free)], free := |t.slots|)
  }

  function PopFill(t: Table, c: Conn): Table
    requires t.free < |t.slots| && t.slots[t.free].Free?
  {
    t.(slots := t.slots[t.free := Full(c)], free := t.slots[t.free].next, size := t.size + 1)
  }

  function Release(t: Table, index: nat): Table
    requires index < |t.slots| && t.size > 0
  {
    t.(slots := t.slots[index := Free(t.free)], free := index, size := t.size - 1)
  }

  lemma FreeListPushNew(slots: seq<Entry>, free: nat, vacant: set<int>)
    requires FreeList(slots, free, vacant)
    ensures FreeList(slots + [Free(free)], |slots|, vacant + {|slots|}) && |slots| !in vacant
  {
    LinkedAreFree(slots, free, vacant);
    LinkedFrame(slots, slots + [Free(free)], free, vacant);
    assert vacant + {|slots|} - {|slots|} == vacant;
  }

  lemma FreeListPushOld(slots: seq<Entry>, free: nat, vacant: set<int>, index: nat)
    requires FreeList(slots, free, vacant) && index < |slots| && slots[index].Full?
    ensures FreeList(slots[index := Free(free)], index, vacant + {index}) && index !in vacant
  {
    LinkedAreFree(slots, free, vacant);
    LinkedFrame(slots, slots[index := Free(free)], free, vacant);
    assert vacant + {index} - {index} == vacant;
  }

  lemma FreeListPop(slots: seq<Entry>, free: nat, vacant: set<int>, c: Conn)
    requires FreeList(slots, free, vacant) && vacant != {}
    ensures free < |slots| && slots[free].Free? && free in vacant
    ensures FreeList(slots[free := Full(c)], slots[free].next, vacant - {free})
  {
    LinkedFrame(slots, slots[free := Full(c)], slots[free].next, vacant - {free});
  }

  lemma HoldsFill(slots: seq<Entry>, mask: nat, ids: seq<int>, m: map<int, Conn>, id: nat, c: Conn)
    requires Holds(slots, mask, ids, m) && id < TWO_64
    requires Slot(id, mask) < |slots| && slots[Slot(id, mask)].Free?
    ensures id !in m
    ensures Holds(slots[Slot(id, mask) := Full(c)], mask, ids[Slot(id, mask) := id], m[id := c])
  { }

  lemma HoldsRelease(slots: seq<Entry>, mask: nat, ids: seq<int>, m: map<int, Conn>, id: nat, next: nat)
    requires Holds(slots, mask, ids, m) && id in m
    ensures Slot(id, mask) < |slots| && slots[Slot(id, mask)] == Full(m[id])
    ensures Holds(slots[Slot(id, mask) := Free(next)], mask, ids, m - {id})
  { }

  /** A new slot at the end of the array, pushed on the free list. */
  lemma PushNewShape(t: Table, v: View)
    requires Shape(t, v) && |t.slots| <= t.mask
    ensures Shape(PushNew(t), View(v.vacant + {|t.slots|}, v.ids + [0], v.contents))
  {
    hide Slot, Linked;
    FreeListPushNew(t.slots, t.free, v.vacant);
  }

  /** Taking the head of the free list for an id that names it. */
  lemma PopFillShape(t: Table, v: View, id: nat, c: Conn)
    requires Shape(t, v) && v.vacant != {} && id < TWO_64 && Slot(id, t.mask) == t.free
    ensures t.free < |t.slots| && t.slots[t.free].Free? && id !in v.contents && |v.ids| == |t.slots|
    ensures Shape(PopFill(t, c), View(v.vacant - {t.free}, v.ids[t.free := id], v.contents[id := c]))
  {
    hide Slot, Linked, IsMask;
    FreeListPop(t.slots, t.free, v.vacant, c);
    HoldsFill(t.slots, t.mask, v.ids, v.contents, id, c);
    assert v.contents[id := c].Keys == v.contents.Keys + {id};
  }

  /** Giving the slot of a live id back to the free list. */
  lemma ReleaseShape(t: Table, v: View, id: nat)
    requires Shape(t, v) && id in v.contents
    ensures var index := Slot(id, t.mask);
            && index < |t.slots| && t.size > 0
            && Shape(Release(t, index), View(v.vacant + {index}, v.ids, v.contents - {id}))
  {
    hide Slot, Linked, IsMask;
    HoldsRelease(t.slots, t.mask, v.ids, v.contents, id, t.free);
    FreeListPushOld(t.slots, t.free, v.vacant, Slot(id, t.mask));
    assert v.contents.Keys == (v.contents - {id}).Keys + {id};
  }

  class ConnMap {
    var t: Table
    ghost var v: View

    ghost predicate Valid()
      reads this, v.contents.Values
    {
      && Shape(t, v) && (t.slots == [] || IsPow2(|t.slots|))
      && (forall id :: id in v.contents ==> v.contents[id].id == id)
    }

    constructor (max: nat)
      requires max < TWO_64
      ensures Valid() && v.contents == map[]
      ensures t.mask + 1 == Util.CeilPow2(if max == 0 then 1 else if max > MAX_CONN then MAX_CONN else max)
    {
      new;
      Init(max);
    }

    method Init(max: nat)
      requires max < TWO_64
      modifies this
      ensures Valid() && v.contents == map[] && t.slots == []
      ensures t.mask + 1 == Util.CeilPow2(if max == 0 then 1 else if max > MAX_CONN then MAX_CONN else max)
    {
      hide Util.CeilPow2, IsPow2, Slot;
      var m := max;
      if m == 0 { m := 1; }
      if m > MAX_CONN { m := MAX_CONN; }
      var p := Util.NearPwr2_64(m);
      RoundedMax(m);
      t := Table(p - 1, 0, [], NPOS);
      v := View({}, [], map[]);
    }

    /** `connmap_clear`: back to the empty map with the same mask. */
    method Clear()
      requires IsMask(t.mask)
      modifies this
      ensures Valid() && v.contents == map[] && t.mask == old(t.mask) && t.slots == []
    {
      hide Util.CeilPow2, IsPow2, Slot;
      CeilOfPow2(t.mask + 1);
      Init(t.mask + 1);
    }

    /** Make room, doubling the array. `alloc` says whether the allocator delivers. */
    method Grow(alloc: bool) returns (ok: bool)
      requires Valid() && v.vacant == {} && t.size <= t.mask
      modifies this
      ensures Valid() && ok == alloc && t.mask == old(t.mask) && v.contents == old(v.contents)
      ensures ok ==> v.vacant != {} && |t.slots| == if old(t.slots) == [] then 1 else 2 * |old(t.slots)|
      ensures !ok ==> t == old(t)
    {
      hide Linked, Slot;
      if !alloc { return false; }
      ok := true;
      var i := |t.slots|;
      var len := if t.slots == [] then 1 else 2 * i;
      if t.slots != [] { DoubleBelow(i, t.mask + 1); }
      while i < len
        invariant |t.slots| == i <= len && Shape(t, v)
        invariant t.mask == old(t.mask) && t.size == old(t.size) && v.contents == old(v.contents)
      {
        hide Shape;
        PushNewShape(t, v);
        v := View(v.vacant + {i}, v.ids + [0], v.contents);
        t := PushNew(t);
        i := i + 1;
      }
    }

    /** `connmap_add`. `r` is the random word, `alloc` whether memory is available. */
    method Add(c: Conn, r: nat, alloc: bool) returns (code: Code)
      requires Valid() && c !in v.contents.Values && r < TWO_64
      modifies this, c`id
      ensures Valid() && t.mask == old(t.mask)
      ensures code == ENOSPC <==> old(t.size) == t.mask + 1
      ensures code == ENOMEM <==> old(t.size) == |old(t.slots)| <= t.mask && !alloc
      ensures code != Ok ==> v.contents == old(v.contents) && c.id == old(c.id)
      ensures code == Ok ==>
                && c.id !in old(v.contents) && v.contents == old(v.contents)[c.id := c]
                && c.id < TWO_64 && Tag(c.id, t.mask) == Tag(r, t.mask)
    {
      if t.free == NPOS {
        assert v.vacant == {};
        if t.size >= t.mask + 1 { return ENOSPC; }
        var ok := Grow(alloc);
        if !ok { return ENOMEM; }
      }
      Fill(c, r);
      code := Ok;
    }

    /** The second half of `connmap_add`: take the head of the free list. */
    method Fill(c: Conn, r: nat)
      requires Valid() && v.vacant != {} && c !in v.contents.Values && r < TWO_64
      modifies this, c`id
      ensures Valid() && t.mask == old(t.mask)
      ensures c.id !in old(v.contents) && v.contents == old(v.contents)[c.id := c]
      ensures c.id < TWO_64 && Tag(c.id, t.mask) == Tag(r, t.mask)
    {
      MakeIdSplits(t.free, r, t.mask);
      var id := MakeId(t.free, r, t.mask);
      PopFillShape(t, v, id, c);
      v := View(v.vacant - {t.free}, v.ids[t.free := id], v.contents[id := c]);
      t := PopFill(t, c);
      c.id := id;
    }

    method Get(id: nat) returns (c: Conn?)
      requires Valid() && id < TWO_64
      ensures c == if id in v.contents then v.contents[id] else null
    {
      var index := Slot(id, t.mask);
      if index < |t.slots| && t.slots[index].Full? && t.slots[index].c.id == id {
        c := t.slots[index].c;
      } else {
        c := null;
      }
    }

    /** `connmap_del`: remove the id if present; an emptied map gives its array back. */
    method Del(id: nat) returns (c: Conn?)
      requires Valid() && id < TWO_64
      modifies this
      ensures Valid() && t.mask == old(t.mask)
      ensures c == if id in old(v.contents) then old(v.contents)[id] else null
      ensures v.contents == old(v.contents) - {id}
      ensures c != null && v.contents == map[] ==> t.slots == []
    {
      c := Get(id);
      if c == null {
        assert v.contents == v.contents - {id};
      } else {
        hide Shape;
        Drop(id);
        if t.size == 0 { Clear(); }
      }
    }

    method Drop(id: nat)
      requires Valid() && id in v.contents
      modifies this
      ensures Valid() && t.mask == old(t.mask) && v.contents == old(v.contents) - {id}
      ensures IsMask(t.mask) && t.size == |v.contents|
    {
      hide Slot;
      var index := Slot(id, t.mask);
      ReleaseShape(t, v, id);
      v := View(v.vacant + {index}, v.ids, v.contents - {id});
      t := Release(t, index);
    }
  }
}
