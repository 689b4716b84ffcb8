/** The interpreter's two heaps of variables and the operations on them. */
module HeapVariables {
  import opened RefCounts

  /** Inserting never replaces a variable that is already there. */
  function Insert(h: Heap, id: nat, c: Cell): (r: Heap) { if id in h then h else h[id := c] }

  /** n new variables with the given value, numbered from first on. */
  function WithNew(h: Heap, first: nat, n: nat, value: seq<nat>): (r: Heap) {
    if n == 0 then h else Insert(WithNew(h, first, n - 1, value), first + n - 1, Cell(value, 1, true))
  }

  /** The variable is erased, then its value's references are released. */
  function Freed(h: Heap, id: nat): (r: Heap) {
    if id == 0 || id !in h then h else Release(h - {id}, h[id].refs)
  }

  function FreedAll(h: Heap, p: seq<nat>): (r: Heap)
    decreases |p|
  {
    if p == [] then h else FreedAll(Freed(h, p[0]), p[1..])
  }

  function Added(h: Heap, id: nat, add: nat): (r: Heap) {
    if id == 0 || id !in h then h else h[id := h[id].(count := h[id].count + add)]
  }

  function Collectable(h: Heap, id: nat, set_: bool): (r: Heap) {
    if id == 0 || id !in h then h else h[id := h[id].(gc := set_)]
  }

  /** id, n times. */
  function Times(id: nat, n: nat): (r: multiset<nat>) { multiset{}[id := n] }

  /** References added to a count are there to be given to someone. */
  lemma AddedCounted(h: Heap, id: nat, add: nat, roots: multiset<nat>)
    requires Counted(h, roots)
    ensures Counted(Added(h, id, add), roots + Times(id, add)) && Refs(Added(h, id, add)) == Refs(h)
  {
    var g := Added(h, id, add);
    assert g.Keys == h.Keys;
    RefsSame(h, g);
  }

  /** Erasing a variable leaves its value's references to whoever holds the value now. */
  lemma ErasedCounted(h: Heap, id: nat, roots: multiset<nat>)
    requires Counted(h, roots) && id in h
    ensures Counted(h - {id}, roots + multiset(h[id].refs))
  {
    RefsWithout(h, id);
  }

  lemma {:induction false} FreedAllAppend(h: Heap, p: seq<nat>, id: nat)
    ensures FreedAll(h, p + [id]) == Freed(FreedAll(h, p), id)
    decreases |p|
  {
    if p == [] {
      assert p + [id] == [id];
    } else {
      assert (p + [id])[1..] == p[1..] + [id];
      FreedAllAppend(Freed(h, p[0]), p[1..], id);
    }
  }

  function IdsOf(p: seq<nat>): (r: set<nat>) { set id | id in p }

  /** Freeing one variable keeps the counts right. */
  lemma FreedCounted(h: Heap, id: nat, roots: multiset<nat>)
    requires Counted(h, roots)
    ensures Counted(Freed(h, id), roots) && FreedTo(h, {id}, Freed(h, id))
    ensures NoneLost(h) ==> NoneLost(Freed(h, id))
  {
    if id == 0 || id !in h {
      FreedNone(h, {id});
    } else {
      ErasedCounted(h, id, roots);
      ReleaseCounted(h - {id}, h[id].refs, roots);
      FreedSingle(h, id, Freed(h, id));
    }
  }

  /** Freeing an array of variables takes away the least set that goes with them all, in whatever order they stand. */
  lemma {:induction false} FreedAllLeast(h: Heap, p: seq<nat>, roots: multiset<nat>)
    requires Counted(h, roots)
    ensures Counted(FreedAll(h, p), roots) && FreedTo(h, IdsOf(p), FreedAll(h, p))
    ensures NoneLost(h) ==> NoneLost(FreedAll(h, p))
    decreases |p|
  {
    if p == [] {
      FreedNone(h, IdsOf(p));
    } else {
      FreedCounted(h, p[0], roots);
      FreedAllLeast(Freed(h, p[0]), p[1..], roots);
      FreedThen(h, {p[0]}, Freed(h, p[0]), IdsOf(p[1..]), FreedAll(h, p));
      assert p == [p[0]] + p[1..];
      assert IdsOf(p) == {p[0]} + IdsOf(p[1..]);
    }
  }

  /** Freed variables are gone, whatever the counts are; the others keep their values and flags. */
  lemma {:induction false} FreedAllGone(h: Heap, p: seq<nat>)
    ensures FreedAll(h, p).Keys <= h.Keys
    ensures forall id :: id in p && id != 0 ==> id !in FreedAll(h, p)
    ensures forall x :: x in FreedAll(h, p) ==> FreedAll(h, p)[x].refs == h[x].refs && FreedAll(h, p)[x].gc == h[x].gc
    decreases |p|
  {
    if p != [] {
      FreedGone(h, p[0]);
      FreedAllGone(Freed(h, p[0]), p[1..]);
    }
  }

  lemma FreedGone(h: Heap, id: nat)
    ensures Freed(h, id).Keys <= h.Keys && (id != 0 ==> id !in Freed(h, id))
    ensures forall x :: x in Freed(h, id) ==> Freed(h, id)[x].refs == h[x].refs && Freed(h, id)[x].gc == h[x].gc
  {
    if id != 0 && id in h {
      ReleaseShrinks(h - {id}, h[id].refs);
    }
  }

  /** Without references in the values exactly the variables named go, and nothing else changes. */
  lemma {:induction false} FreedAllFlat(h: Heap, p: seq<nat>)
    requires forall k :: k in h ==> h[k].refs == []
    ensures FreedAll(h, p) == h - (set id | id in p && id != 0)
    decreases |p|
  {
    if p == [] {
      assert h - (set id | id in p && id != 0) == h;
    } else {
      FreedAllFlat(Freed(h, p[0]), p[1..]);
      SameHeap(FreedAll(h, p), h - (set id | id in p && id != 0));
    }
  }

  /** A variable that is not freed and that no freed variable refers to is not touched. */
  lemma {:induction false} FreedAllUntouched(h: Heap, p: seq<nat>, x: nat)
    requires x in h && x !in p && forall y :: y in h && y !in FreedAll(h, p) ==> x !in h[y].refs
    ensures x in FreedAll(h, p) && FreedAll(h, p)[x] == h[x]
    decreases |p|
  {
    if p != [] {
      var id, g := p[0], Freed(h, p[0]);
      FreedGone(h, id);
      FreedAllGone(g, p[1..]);
      if id != 0 && id in h {
        assert (h - {id}).Keys == h.Keys - {id};
        ReleaseUntouched(h - {id}, h[id].refs, x);
      }
      FreedAllUntouched(g, p[1..], x);
    }
  }

  // ----- garbage collection on and off -----

  /** A variable that is not collected survives every release, and is collected again once it is switched on. */
  lemma CollectionSwitched(h: Heap, id: nat, p: seq<nat>)
    requires id in h && id != 0
    ensures id in Release(Collectable(h, id, false), p)
    ensures 1 <= h[id].count <= multiset(p)[id] ==> id !in Release(Collectable(h, id, true), p)
  {
    NotCollected(Collectable(h, id, false), p, id);
    if 1 <= h[id].count <= multiset(p)[id] {
      ReleaseFrees(Collectable(h, id, true), p, id);
    }
  }

  lemma {:induction false} NotCollected(h: Heap, p: seq<nat>, x: nat)
    requires x in h && !h[x].gc
    ensures x in Release(h, p)
    decreases |h|, |p|
  {
    if p != [] {
      var id := p[0];
      if id == 0 || id !in h {
        NotCollected(h, p[1..], x);
      } else if Lowered(h[id].count) == 0 && h[id].gc {
        assert (h - {id}).Keys == h.Keys - {id};
        NotCollected(h - {id}, h[id].refs + p[1..], x);
      } else {
        var h2 := h[id := h[id].(count := Lowered(h[id].count))];
        assert h2.Keys == h.Keys;
        NotCollected(h2, p[1..], x);
      }
    }
  }

  /** The heap variables of the interpreter: pointers and objects, numbered by one counter. */
  class Heaps {
    var heap: Heap
    var objHeap: Heap
    var heapIx: nat

    constructor ()
      ensures heap == map[] && objHeap == map[] && heapIx == 1
    {
      heap, objHeap, heapIx := map[], map[], 1;
    }

    method NewHeap(n: nat, value: seq<nat>) returns (first: nat)
      modifies this`heap, this`heapIx
      ensures first == old(heapIx) && heapIx == old(heapIx) + n
      ensures heap == WithNew(old(heap), first, n, value)
    {
      first := heapIx;
      for i := 0 to n
        invariant heapIx == first + i && heap == WithNew(old(heap), first, i, value)
      {
        heap := Insert(heap, heapIx, Cell(value, 1, true));
        heapIx := heapIx + 1;
      }
    }

    method NewObjHeap(n: nat, value: seq<nat>) returns (first: nat)
      modifies this`objHeap, this`heapIx
      ensures first == old(heapIx) && heapIx == old(heapIx) + n
      ensures objHeap == WithNew(old(objHeap), first, n, value)
    {
      first := heapIx;
      for i := 0 to n
        invariant heapIx == first + i && objHeap == WithNew(old(objHeap), first, i, value)
      {
        objHeap := Insert(objHeap, heapIx, Cell(value, 1, true));
        heapIx := heapIx + 1;
      }
    }

    /** Erases the variable first, so its own references cannot lead back to it. */
    method FreeHeapDirect(id: nat)
      requires id in heap
      modifies this`heap
      ensures heap == Release(old(heap) - {id}, old(heap)[id].refs)
      decreases |heap|, 0
    {
      var del := heap[id].refs;
      assert (heap - {id}).Keys == heap.Keys - {id};
      heap := heap - {id};
      DecRefs(del);
    }

    method DecRef(id: nat)
      modifies this`heap
      ensures heap == Release(old(heap), [id])
      decreases |heap|, 1
    {
      if id != 0 && id in heap {
        var c := heap[id].(count := Lowered(heap[id].count));
        assert heap[id := c].Keys == heap.Keys;
        heap := heap[id := c];
        if c.count == 0 && c.gc {
          assert heap - {id} == old(heap) - {id} && c.refs + [] == c.refs;
          FreeHeapDirect(id);
        }
      }
    }

    /** The pointer array's destructor: one reference after the other. */
    method DecRefs(p: seq<nat>)
      modifies this`heap
      ensures heap == Release(old(heap), p)
      decreases |heap|, 2
    {
      for ix := 0 to |p|
        invariant heap == Release(old(heap), p[..ix]) && |heap| <= |old(heap)|
      {
        ReleaseShrinks(heap, [p[ix]]);
        assert p[..ix + 1] == p[..ix] + [p[ix]];
        ReleaseAppend(old(heap), p[..ix], [p[ix]]);
        DecRef(p[ix]);
      }
      assert p[..|p|] == p;
    }

    method IncRef(id: nat)
      modifies this`heap
      ensures heap == Retain(old(heap), [id])
    {
      if id != 0 && id in heap {
        heap := heap[id := heap[id].(count := heap[id].count + 1)];
      }
    }

    method IncRefs(p: seq<nat>)
      modifies this`heap
      ensures heap == Retain(old(heap), p)
    {
      for ix := 0 to |p|
        invariant heap == Retain(old(heap), p[..ix])
      {
        assert p[..ix + 1] == p[..ix] + [p[ix]];
        RetainAppend(old(heap), p[..ix], [p[ix]]);
        IncRef(p[ix]);
      }
      assert p[..|p|] == p;
    }

    method IncRefObjs(p: seq<nat>)
      modifies this`objHeap
      ensures objHeap == Retain(old(objHeap), p)
    {
      for ix := 0 to |p|
        invariant objHeap == Retain(old(objHeap), p[..ix])
      {
        assert p[..ix + 1] == p[..ix] + [p[ix]];
        RetainAppend(old(objHeap), p[..ix], [p[ix]]);
        if p[ix] != 0 && p[ix] in objHeap {
          objHeap := objHeap[p[ix] := objHeap[p[ix]].(count := objHeap[p[ix]].count + 1)];
        }
      }
      assert p[..|p|] == p;
    }

    method AddRef(id: nat, add: nat)
      modifies this`heap
      ensures heap == Added(old(heap), id, add)
      ensures forall roots :: Counted(old(heap), roots) ==> Counted(heap, roots + Times(id, add))
    {
      forall roots | Counted(heap, roots) ensures Counted(Added(heap, id, add), roots + Times(id, add)) {
        AddedCounted(heap, id, add, roots);
      }
      if id != 0 && id in heap {
        heap := heap[id := heap[id].(count := heap[id].count + add)];
      }
    }

    method AddRefObj(id: nat, add: nat)
      modifies this`objHeap
      ensures objHeap == Added(old(objHeap), id, add)
    {
      if id != 0 && id in objHeap {
        objHeap := objHeap[id := objHeap[id].(count := objHeap[id].count + add)];
      }
    }

    method FreeHeap(id: nat)
      modifies this`heap
      ensures heap == Freed(old(heap), id)
    {
      if id != 0 && id in heap {
        FreeHeapDirect(id);
      }
    }

    method FreeHeaps(p: seq<nat>)
      modifies this`heap
      ensures heap == FreedAll(old(heap), p)
      ensures p == [] ==> heap == old(heap)
      ensures forall id :: id in p && id != 0 ==> id !in heap
      ensures forall x :: x in heap
                ==> x in old(heap) && heap[x].refs == old(heap)[x].refs && heap[x].gc == old(heap)[x].gc
      ensures forall roots :: Counted(old(heap), roots) ==> Counted(heap, roots) && FreedTo(old(heap), IdsOf(p), heap)
    {
      ghost var h := heap;
      FreedAllGone(h, p);
      forall roots | Counted(h, roots) ensures Counted(FreedAll(h, p), roots) && FreedTo(h, IdsOf(p), FreedAll(h, p)) {
        FreedAllLeast(h, p, roots);
      }
      for ix := 0 to |p|
        invariant heap == FreedAll(old(heap), p[..ix])
      {
        assert p[..ix + 1] == p[..ix] + [p[ix]];
        FreedAllAppend(old(heap), p[..ix], p[ix]);
        FreeHeap(p[ix]);
      }
      assert p[..|p|] == p;
    }

    method FreeObjHeap(id: nat)
      modifies this`heap, this`objHeap
      ensures id == 0 || id !in old(objHeap) ==> heap == old(heap) && objHeap == old(objHeap)
      ensures id != 0 && id in old(objHeap) ==>
                objHeap == old(objHeap) - {id} && heap == Release(old(heap), old(objHeap)[id].refs)
    {
      if id != 0 && id in objHeap {
        var del := objHeap[id].refs;
        objHeap := objHeap - {id};
        DecRefs(del);
      }
    }

    /** Drops the variable without touching what its value refers to: the caller keeps the value, and with it the
        references, which stay counted. */
    method HeapErase(id: nat)
      modifies this`heap
      ensures heap == if id == 0 then old(heap) else old(heap) - {id}
      ensures forall roots :: Counted(old(heap), roots) ==>
                Counted(heap, if id in old(heap) then roots + multiset(old(heap)[id].refs) else roots)
    {
      forall roots | Counted(heap, roots)
        ensures Counted(heap - {id}, if id in heap then roots + multiset(heap[id].refs) else roots)
      {
        if id in heap {
          ErasedCounted(heap, id, roots);
        } else {
          assert heap - {id} == heap;
        }
      }
      if id != 0 {
        heap := heap - {id};
      }
    }

    method EnableGC(id: nat, set_: bool)
      modifies this`heap
      ensures heap == Collectable(old(heap), id, set_)
      ensures heap.Keys == old(heap).Keys
      ensures forall x :: x in heap
                ==> heap[x] == old(heap)[x].(gc := if x == id && id != 0 then set_ else old(heap)[x].gc)
    {
      if id != 0 && id in heap {
        heap := heap[id := heap[id].(gc := set_)];
      }
    }

    /** Stores pointer b in element ix of the pointer array that heap variable x holds:
        the new reference is counted before the old one is released. */
    method AssignAtIx(x: nat, ix: nat, b: nat, ghost roots: multiset<nat>)
      requires x in heap && ix < |heap[x].refs| && x in roots && Counted(heap, roots)
      modifies this`heap
      ensures heap == Assigned(old(heap), x, ix, b)
      ensures x in heap && heap[x].refs == old(heap)[x].refs[ix := b]
      ensures Counted(heap, roots)
    {
      var a := heap[x].refs[ix];
      AssignedCounted(heap, roots, x, ix, b);
      RetainAdds(heap, [b]);
      ReleaseShrinks(Retain(heap, [b]), [a]);
      IncRef(b);
      DecRef(a);
      heap := heap[x := heap[x].(refs := heap[x].refs[ix := b])];
    }
  }

  // ----- storing into a pointer array on the heap -----

  function Assigned(h: Heap, x: nat, ix: nat, b: nat): (r: Heap)
    requires x in h && ix < |h[x].refs|
  {
    var g := Release(Retain(h, [b]), [h[x].refs[ix]]);
    if x in g then
      RetainAdds(h, [b]);
      ReleaseShrinks(Retain(h, [b]), [h[x].refs[ix]]);
      g[x := g[x].(refs := g[x].refs[ix := b])]
    else g
  }

  /** As long as a variable is not freed, a release does not look at its value. */
  lemma {:induction false} ReleaseBlind(h: Heap, h': Heap, p: seq<nat>, x: nat, r: seq<nat>)
    requires x in h && h' == h[x := h[x].(refs := r)] && x in Release(h', p)
    ensures x in Release(h, p) && Release(h', p) == Release(h, p)[x := Release(h, p)[x].(refs := r)]
    decreases |h|, |p|
  {
    if p != [] {
      assert h'.Keys == h.Keys;
      var id := p[0];
      if id == 0 || id !in h {
        ReleaseBlind(h, h', p[1..], x, r);
      } else if Lowered(h[id].count) == 0 && h[id].gc {
        assert (h - {id}).Keys == h.Keys - {id};
        ReleaseShrinks(h' - {id}, h'[id].refs + p[1..]);
        SameHeap(h' - {id}, (h - {id})[x := h[x].(refs := r)]);
        ReleaseBlind(h - {id}, h' - {id}, h[id].refs + p[1..], x, r);
      } else {
        var g := h[id := h[id].(count := Lowered(h[id].count))];
        assert g.Keys == h.Keys;
        var g' := h'[id := h'[id].(count := Lowered(h'[id].count))];
        SameHeap(g', g[x := g[x].(refs := r)]);
        ReleaseBlind(g, g', p[1..], x, r);
      }
    }
  }

  lemma UpdatedBag(r: seq<nat>, ix: nat, b: nat)
    requires ix < |r|
    ensures multiset(r[ix := b]) + multiset{r[ix]} == multiset(r) + multiset{b}
  {
    assert r == r[..ix] + [r[ix]] + r[ix + 1..];
    assert r[ix := b] == r[..ix] + [b] + r[ix + 1..];
  }

  lemma SwapBags(a: multiset<nat>, a': multiset<nat>, rest: multiset<nat>, x: multiset<nat>, y: multiset<nat>)
    requires a' + x == a + y
    ensures (a' + rest) + x == (a + rest) + y
  {
    forall e ensures ((a' + rest) + x)[e] == ((a + rest) + y)[e] {
      assert (a' + x)[e] == (a + y)[e];
    }
  }

  lemma UpdatedRefs(h: Heap, x: nat, ix: nat, b: nat)
    requires x in h && ix < |h[x].refs|
    ensures Refs(h[x := h[x].(refs := h[x].refs[ix := b])]) + multiset{h[x].refs[ix]} == Refs(h) + multiset{b}
  {
    var r, h' := h[x].refs, h[x := h[x].(refs := h[x].refs[ix := b])];
    RefsWithout(h, x);
    RefsWithout(h', x);
    assert h' - {x} == h - {x};
    UpdatedBag(r, ix, b);
    SwapBags(multiset(r), multiset(r[ix := b]), Refs(h - {x}), multiset{r[ix]}, multiset{b});
  }

  /** g is h with one more reference to b, if b is there. */
  ghost predicate GainsOne(h: Heap, b: nat, g: Heap) {
    && g.Keys == h.Keys && Refs(g) == Refs(h)
    && forall y :: y in h ==> g[y] == h[y].(count := h[y].count + (if y == b && b != 0 then 1 else 0))
  }

  lemma RetainOne(h: Heap, b: nat)
    ensures GainsOne(h, b, Retain(h, [b]))
  {
    RetainAdds(h, [b]);
    RefsSame(h, Retain(h, [b]));
    assert forall y :: multiset([b])[y] == if y == b then 1 else 0;
  }

  /** The same store made before the old reference is released: as if the array's
      element had been handed to the program. */
  function StoredFirst(h: Heap, x: nat, ix: nat, b: nat): (r: Heap)
    requires x in h && ix < |h[x].refs|
  {
    RetainAdds(h, [b]);
    var h1 := Retain(h, [b]);
    h1[x := h1[x].(refs := h[x].refs[ix := b])]
  }

  lemma StoredFirstRefs(h: Heap, x: nat, ix: nat, b: nat)
    requires x in h && ix < |h[x].refs|
    ensures StoredFirst(h, x, ix, b).Keys == h.Keys
    ensures Refs(StoredFirst(h, x, ix, b)) + multiset{h[x].refs[ix]} == Refs(h) + multiset{b}
  {
    RetainOne(h, b);
    StoredUpdated(h, Retain(h, [b]), StoredFirst(h, x, ix, b), x, ix, b);
  }

  lemma StoredUpdated(h: Heap, h1: Heap, h2: Heap, x: nat, ix: nat, b: nat)
    requires x in h && ix < |h[x].refs| && GainsOne(h, b, h1) && h2 == h1[x := h1[x].(refs := h[x].refs[ix := b])]
    ensures h2.Keys == h.Keys && Refs(h2) + multiset{h[x].refs[ix]} == Refs(h) + multiset{b}
  {
    UpdatedRefs(h1, x, ix, b);
  }

  lemma StoredFirstCounted(h: Heap, roots: multiset<nat>, x: nat, ix: nat, b: nat)
    requires Counted(h, roots) && x in h && ix < |h[x].refs|
    ensures Counted(StoredFirst(h, x, ix, b), roots + multiset{h[x].refs[ix]})
    ensures NoneLost(h) ==> NoneLost(StoredFirst(h, x, ix, b))
  {
    RetainOne(h, b);
    StoredCounted(h, Retain(h, [b]), StoredFirst(h, x, ix, b), roots, x, ix, b);
  }

  /** The order of the two steps makes no difference to an array that is not freed. */
  lemma AssignedIsStored(h: Heap, x: nat, ix: nat, b: nat)
    requires x in h && ix < |h[x].refs| && x in Release(StoredFirst(h, x, ix, b), [h[x].refs[ix]])
    ensures Assigned(h, x, ix, b) == Release(StoredFirst(h, x, ix, b), [h[x].refs[ix]])
    ensures x in Release(Retain(h, [b]), [h[x].refs[ix]])
  {
    RetainAdds(h, [b]);
    ReleaseShrinks(Retain(h, [b]), [h[x].refs[ix]]);
    ReleaseBlind(Retain(h, [b]), StoredFirst(h, x, ix, b), [h[x].refs[ix]], x, h[x].refs[ix := b]);
  }

  lemma NoDanglingStored(h: Heap, g: Heap, roots: multiset<nat>, a: nat, b: nat)
    requires NoDangling(h, roots) && (b == 0 || b in h) && g.Keys == h.Keys && a in Refs(h)
    requires Refs(g) + multiset{a} == Refs(h) + multiset{b}
    ensures NoDangling(g, roots + multiset{a})
  {
    forall y | y != 0 && (y in roots + multiset{a} || y in Refs(g))
      ensures y in g
    {
      assert y in Refs(g) ==> y in Refs(g) + multiset{a};
    }
  }

  /** Releasing one reference. */
  lemma ReleaseOne(h: Heap, roots: multiset<nat>, a: nat)
    requires Counted(h, roots + multiset{a})
    ensures var g := Release(h, [a]);
            && Counted(g, roots) && g.Keys <= h.Keys && Refs(g) <= Refs(h)
            && (NoDangling(h, roots + multiset{a}) ==> NoDangling(g, roots)) && (NoneLost(h) ==> NoneLost(g))
            && forall x :: x in h && x in roots ==> x in g
  {
    var g := Release(h, [a]);
    assert multiset([a]) == multiset{a};
    ReleaseCounted(h, [a], roots);
    forall x | x in h && x in roots ensures x in g {
      ReferredStays(h, multiset{a}, roots, g, x);
    }
    ReleaseShrinks(h, [a]);
    RefsLeft(h, h.Keys - g.Keys, g);
  }

  lemma AssignedValues(h: Heap, x: nat, ix: nat, b: nat)
    requires x in h && ix < |h[x].refs| && x in Release(Retain(h, [b]), [h[x].refs[ix]])
    ensures forall y :: y in Assigned(h, x, ix, b) ==>
                          && y in h && Assigned(h, x, ix, b)[y].gc == h[y].gc
                          && Assigned(h, x, ix, b)[y].refs == if y == x then h[x].refs[ix := b] else h[y].refs
  {
    RetainAdds(h, [b]);
    ReleaseShrinks(Retain(h, [b]), [h[x].refs[ix]]);
  }

  /** Storing keeps the counts right, also when the old value was the last reference to
      something, or the array refers to itself; the array survives because the program
      reached it through a pointer it holds. */
  lemma AssignedCounted(h: Heap, roots: multiset<nat>, x: nat, ix: nat, b: nat)
    requires Counted(h, roots) && x in h && ix < |h[x].refs| && x in roots
    ensures x in Release(Retain(h, [b]), [h[x].refs[ix]])
    ensures x in Assigned(h, x, ix, b)
    ensures forall y :: y in Assigned(h, x, ix, b) ==>
                          && y in h && Assigned(h, x, ix, b)[y].gc == h[y].gc
                          && Assigned(h, x, ix, b)[y].refs == if y == x then h[x].refs[ix := b] else h[y].refs
    ensures Counted(Assigned(h, x, ix, b), roots)
    ensures Assigned(h, x, ix, b).Keys <= h.Keys
    ensures Refs(Assigned(h, x, ix, b)) <= Refs(h) + multiset{b}
    ensures NoDangling(h, roots) && (b == 0 || b in h) ==> NoDangling(Assigned(h, x, ix, b), roots)
    ensures NoneLost(h) ==> NoneLost(Assigned(h, x, ix, b))
  {
    var a, h2 := h[x].refs[ix], StoredFirst(h, x, ix, b);
    StoredFirstRefs(h, x, ix, b);
    StoredFirstCounted(h, roots, x, ix, b);
    ReleaseOne(h2, roots, a);
    AssignedIsStored(h, x, ix, b);
    AssignedValues(h, x, ix, b);
    assert Refs(h2) <= Refs(h) + multiset{b};
    if NoDangling(h, roots) && (b == 0 || b in h) {
      HeldRef(h, x, ix);
      NoDanglingStored(h, h2, roots, a, b);
    }
  }

  lemma HeldRef(h: Heap, x: nat, ix: nat)
    requires x in h && ix < |h[x].refs|
    ensures h[x].refs[ix] in Refs(h)
  {
    RefsWithout(h, x);
    assert h[x].refs[ix] in h[x].refs;
  }

  lemma StoredCounted(h: Heap, h1: Heap, h2: Heap, roots: multiset<nat>, x: nat, ix: nat, b: nat)
    requires Counted(h, roots) && x in h && ix < |h[x].refs|
    requires GainsOne(h, b, h1) && h2 == h1[x := h1[x].(refs := h[x].refs[ix := b])]
    ensures Counted(h2, roots + multiset{h[x].refs[ix]})
    ensures NoneLost(h) ==> NoneLost(h2)
  {
    var a := h[x].refs[ix];
    StoredUpdated(h, h1, h2, x, ix, b);
    StoredNoneLost(h, h1, h2, b);
    forall y | y in h2
      ensures h2[y].count == (roots + multiset{a})[y] + Refs(h2)[y]
    {
      StoredCountAt(h, h1, h2, roots, x, a, b, y);
    }
  }

  lemma StoredNoneLost(h: Heap, h1: Heap, h2: Heap, b: nat)
    requires GainsOne(h, b, h1) && h2.Keys == h.Keys
        && forall y :: y in h2 ==> h2[y].count == h1[y].count && h2[y].gc == h1[y].gc
    ensures NoneLost(h) ==> NoneLost(h2)
  {
  }

  lemma StoredCountAt(h: Heap, h1: Heap, h2: Heap, roots: multiset<nat>, x: nat, a: nat, b: nat, y: nat)
    requires Counted(h, roots) && GainsOne(h, b, h1) && y in h && y in h2 && h2[y].count == h1[y].count
    requires Refs(h2) + multiset{a} == Refs(h) + multiset{b}
    ensures h2[y].count == (roots + multiset{a})[y] + Refs(h2)[y]
  {
    assert (Refs(h2) + multiset{a})[y] == (Refs(h) + multiset{b})[y];
  }
}
