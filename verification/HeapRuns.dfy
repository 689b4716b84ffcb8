/** Whole runs of a program over the interpreter's heaps.

The world holds the two heaps and, beside them, the references the program's own
variables hold.  Every count stays the number of references, whatever the program
does, and ids are never handed out twice. */
module HeapRuns {
  import opened RefCounts
  import opened HeapVariables

  /** roots: the pointers in the program's variables and temporaries. */
  datatype World = World(heap: Heap, objHeap: Heap, heapIx: nat, roots: multiset<nat>)

  datatype Op =
    | NewPtrs(n: nat, value: seq<nat>)     // variables with this value, whose references they take over
    | NewObjs(n: nat, value: seq<nat>)
    | Copy(p: seq<nat>)                    // a pointer array is copied
    | CopyMany(id: nat, times: nat)        // a pointer is spread over many elements
    | Drop(p: seq<nat>)                    // a pointer array of the program is destroyed
    | Free(id: nat)                        // a heap variable is freed explicitly
    | FreePtrs(p: seq<nat>)                // the heap variables of a pointer array are freed
    | FreeObj(id: nat)
    | SetGC(id: nat, on: bool)
    | Store(x: nat, ix: nat, b: nat)       // a pointer is stored in an array on the heap

  function Ids(first: nat, n: nat): (s: seq<nat>)
    ensures |s| == n && forall i :: 0 <= i < n ==> s[i] == first + i
  {
    if n == 0 then [] else Ids(first, n - 1) + [first + n - 1]
  }

  /** What the program must have for the operation: it gives away only references it holds, and
      uses only ids that were handed out. */
  ghost predicate Allowed(w: World, op: Op) {
    match op
    case NewPtrs(n, value) => multiset(value) <= w.roots && (n != 1 ==> value == [])
    case NewObjs(n, value) => multiset(value) <= w.roots && (n != 1 ==> value == [])
    case Copy(p) => forall id :: id in p ==> id < w.heapIx
    case CopyMany(id, times) => id < w.heapIx
    case Drop(p) => multiset(p) <= w.roots
    case Store(x, ix, b) => x in w.roots && x in w.heap && ix < |w.heap[x].refs| && b < w.heapIx
    case _ => true
  }

  function Step(w: World, op: Op): (r: World) {
    match op
    case NewPtrs(n, value) =>
      w.(heap := WithNew(w.heap, w.heapIx, n, value), heapIx := w.heapIx + n,
         roots := w.roots - multiset(value) + multiset(Ids(w.heapIx, n)))
    case NewObjs(n, value) =>
      w.(objHeap := WithNew(w.objHeap, w.heapIx, n, value), heapIx := w.heapIx + n, roots := w.roots - multiset(value))
    case Copy(p) => w.(heap := Retain(w.heap, p), roots := w.roots + multiset(p))
    case CopyMany(id, times) => w.(heap := Added(w.heap, id, times), roots := w.roots + Times(id, times))
    case Drop(p) => w.(heap := Release(w.heap, p), roots := w.roots - multiset(p))
    case Free(id) => w.(heap := Freed(w.heap, id))
    case FreePtrs(p) => w.(heap := FreedAll(w.heap, p))
    case FreeObj(id) =>
      if id == 0 || id !in w.objHeap then w
      else w.(heap := Release(w.heap, w.objHeap[id].refs), objHeap := w.objHeap - {id})
    case SetGC(id, on) => w.(heap := Collectable(w.heap, id, on))
    case Store(x, ix, b) =>
      if x in w.heap && ix < |w.heap[x].refs| then w.(heap := Assigned(w.heap, x, ix, b)) else w
  }

  function Run(w: World, ops: seq<Op>): (r: World)
    decreases |ops|
  {
    if ops == [] then w else Run(Step(w, ops[0]), ops[1..])
  }

  ghost predicate AllowedRun(w: World, ops: seq<Op>)
    decreases |ops|
  {
    ops == [] || (Allowed(w, ops[0]) && AllowedRun(Step(w, ops[0]), ops[1..]))
  }

  const START := World(map[], map[], 1, multiset{})

  /** References from outside the pointer heap. */
  ghost function Outside(w: World): (r: multiset<nat>) { w.roots + Refs(w.objHeap) }

  ghost predicate Below(ids: multiset<nat>, bound: nat) { forall k :: k in ids ==> k < bound }

  /** Every id in use was handed out, and names a pointer or an object, not both. */
  ghost predicate Numbered(w: World) {
    && 1 <= w.heapIx && w.heap.Keys !! w.objHeap.Keys
    && (forall k :: k in w.heap || k in w.objHeap ==> 1 <= k < w.heapIx)
    && Below(w.roots, w.heapIx) && Below(Refs(w.objHeap), w.heapIx) && Below(Refs(w.heap), w.heapIx)
  }

  ghost predicate Sound(w: World) { Numbered(w) && Counted(w.heap, Outside(w)) }

  // ----- new variables -----

  lemma {:induction false} WithNewKeys(h: Heap, first: nat, n: nat, value: seq<nat>)
    requires forall k :: k in h ==> k < first
    ensures forall k :: k in WithNew(h, first, n, value) <==> k in h || first <= k < first + n
    ensures forall k :: k in WithNew(h, first, n, value) ==>
              WithNew(h, first, n, value)[k] == if k in h then h[k] else Cell(value, 1, true)
  {
    if n > 0 {
      WithNewKeys(h, first, n - 1, value);
    }
  }

  lemma {:induction false} WithNewRefs(h: Heap, first: nat, n: nat, value: seq<nat>)
    requires forall k :: k in h ==> k < first
    requires n != 1 ==> value == []
    ensures Refs(WithNew(h, first, n, value)) == Refs(h) + multiset(value)
  {
    if n > 0 {
      var g, g' := WithNew(h, first, n - 1, value), WithNew(h, first, n, value);
      WithNewKeys(h, first, n - 1, value);
      RefsWithout(g', first + n - 1);
      SameHeap(g' - {first + n - 1}, g);
      if n > 1 {
        WithNewRefs(h, first, n - 1, value);
      }
    }
  }

  lemma BagAppend(s: seq<nat>, k: nat, t: seq<nat>, x: nat)
    requires t == s + [k]
    ensures multiset(t)[x] == multiset(s)[x] + (if x == k then 1 else 0)
  {
  }

  lemma {:induction false} Consecutive(s: seq<nat>, first: nat, x: nat)
    requires forall i :: 0 <= i < |s| ==> s[i] == first + i
    ensures multiset(s)[x] == if first <= x < first + |s| then 1 else 0
    decreases |s|
  {
    if s != [] {
      var k := |s| - 1;
      assert s == s[..k] + [s[k]];
      Consecutive(s[..k], first, x);
      BagAppend(s[..k], s[k], s, x);
    }
  }

  lemma IdCount(first: nat, n: nat, x: nat)
    ensures multiset(Ids(first, n))[x] == if first <= x < first + n then 1 else 0
  {
    Consecutive(Ids(first, n), first, x);
  }

  /** The new ids count as references of the program, the value's references move into the heap. */
  lemma MovedIn(roots: multiset<nat>, value: multiset<nat>, first: nat, n: nat, x: nat)
    requires value <= roots
    ensures (roots - value + multiset(Ids(first, n)))[x] + value[x]
        == roots[x] + (if first <= x < first + n then 1 else 0)
  {
    IdCount(first, n, x);
    assert value[x] <= roots[x];
  }

  ghost predicate OneMoreFrom(h: Heap, g: Heap, first: nat, next: nat) {
    forall k :: k in g <==> k in h || first <= k < next
  }

  /** The references to x that count, beside those from objects. */
  ghost function PlainRefs(w: World, x: nat): (r: nat) { w.roots[x] + Refs(w.heap)[x] }

  lemma NewCounted(w: World, w': World, x: nat)
    requires Sound(w) && w'.objHeap == w.objHeap && x in w'.heap
    requires PlainRefs(w', x) == PlainRefs(w, x) + (if w.heapIx <= x < w'.heapIx then 1 else 0)
    requires if x in w.heap then w'.heap[x].count == w.heap[x].count
        else w.heapIx <= x < w'.heapIx && w'.heap[x].count == 1
    ensures w'.heap[x].count == Outside(w')[x] + Refs(w'.heap)[x]
  {
    if x !in w.heap {
      assert w.roots[x] == 0 && Refs(w.heap)[x] == 0 && Refs(w.objHeap)[x] == 0;
    } else {
      assert w.heap[x].count == Outside(w)[x] + Refs(w.heap)[x];
    }
  }

  lemma NewNumbered(w: World, w': World)
    requires Sound(w) && w'.objHeap == w.objHeap && w.heapIx <= w'.heapIx
        && OneMoreFrom(w.heap, w'.heap, w.heapIx, w'.heapIx)
    requires forall x: nat :: PlainRefs(w', x) == PlainRefs(w, x) + (if w.heapIx <= x < w'.heapIx then 1 else 0)
    ensures Numbered(w')
  {
    forall x | x in w'.roots || x in Refs(w'.heap) ensures x < w'.heapIx {
      assert PlainRefs(w', x) >= 1;
    }
  }

  /** New variables, each with the one reference the program gets. */
  lemma NewSound(w: World, w': World)
    requires Sound(w) && w'.objHeap == w.objHeap && w.heapIx <= w'.heapIx
        && OneMoreFrom(w.heap, w'.heap, w.heapIx, w'.heapIx)
    requires forall k :: k in w'.heap ==> w'.heap[k].count == if k in w.heap then w.heap[k].count else 1
    requires forall x: nat :: PlainRefs(w', x) == PlainRefs(w, x) + (if w.heapIx <= x < w'.heapIx then 1 else 0)
    ensures Sound(w')
  {
    NewNumbered(w, w');
    forall x | x in w'.heap
      ensures w'.heap[x].count == Outside(w')[x] + Refs(w'.heap)[x]
    {
      NewCounted(w, w', x);
    }
  }

  lemma NewPlainRefs(w: World, n: nat, value: seq<nat>)
    requires Sound(w) && Allowed(w, NewPtrs(n, value))
    ensures forall x: nat :: PlainRefs(Step(w, NewPtrs(n, value)), x)
              == PlainRefs(w, x) + (if w.heapIx <= x < w.heapIx + n then 1 else 0)
  {
    WithNewRefs(w.heap, w.heapIx, n, value);
    forall x: nat
      ensures PlainRefs(Step(w, NewPtrs(n, value)), x)
          == PlainRefs(w, x) + (if w.heapIx <= x < w.heapIx + n then 1 else 0)
    {
      MovedIn(w.roots, multiset(value), w.heapIx, n, x);
    }
  }

  lemma NewPtrsSound(w: World, n: nat, value: seq<nat>)
    requires Sound(w) && Allowed(w, NewPtrs(n, value))
    ensures Sound(Step(w, NewPtrs(n, value)))
  {
    WithNewKeys(w.heap, w.heapIx, n, value);
    NewPlainRefs(w, n, value);
    NewSound(w, Step(w, NewPtrs(n, value)));
  }

  /** References that move from the program into an object still come from outside the pointer heap. */
  lemma MovedToObject(w: World, w': World, value: multiset<nat>)
    requires Sound(w) && value <= w.roots && w'.heap == w.heap && w.heapIx <= w'.heapIx
    requires OneMoreFrom(w.objHeap, w'.objHeap, w.heapIx, w'.heapIx)
    requires w'.roots == w.roots - value && Refs(w'.objHeap) == Refs(w.objHeap) + value
    ensures Sound(w') && Outside(w') == Outside(w)
  {
    assert Outside(w') == Outside(w);
    Subbag(w.roots, value, w'.heapIx);
    Subbag(w.roots, w'.roots, w'.heapIx);
    assert Below(Refs(w'.objHeap), w'.heapIx);
  }

  lemma NewObjsSound(w: World, n: nat, value: seq<nat>)
    requires Sound(w) && Allowed(w, NewObjs(n, value))
    ensures Sound(Step(w, NewObjs(n, value))) && Outside(Step(w, NewObjs(n, value))) == Outside(w)
  {
    WithNewKeys(w.objHeap, w.heapIx, n, value);
    WithNewRefs(w.objHeap, w.heapIx, n, value);
    MovedToObject(w, Step(w, NewObjs(n, value)), multiset(value));
  }

  // ----- references taken and given back -----

  /** Only counts change, by the references added. */
  lemma CountsChange(w: World, w': World, extra: multiset<nat>)
    requires Sound(w) && w'.objHeap == w.objHeap && w'.heapIx == w.heapIx && w'.roots == w.roots + extra
        && Below(extra, w.heapIx)
    requires w'.heap.Keys == w.heap.Keys
    requires forall x :: x in w.heap
               ==> w'.heap[x].refs == w.heap[x].refs && w'.heap[x].count == w.heap[x].count + extra[x]
    ensures Sound(w') && Outside(w') == Outside(w) + extra && Refs(w'.heap) == Refs(w.heap)
  {
    RefsSame(w.heap, w'.heap);
    assert Outside(w') == Outside(w) + extra;
  }

  lemma CopySound(w: World, p: seq<nat>)
    requires Sound(w) && Allowed(w, Copy(p))
    ensures Sound(Step(w, Copy(p)))
    ensures Outside(Step(w, Copy(p))) == Outside(w) + multiset(p) && Refs(Step(w, Copy(p)).heap) == Refs(w.heap)
  {
    RetainAdds(w.heap, p);
    assert forall id :: id in multiset(p) ==> id in p;
    CountsChange(w, Step(w, Copy(p)), multiset(p));
  }

  lemma CopyManySound(w: World, id: nat, times: nat)
    requires Sound(w) && Allowed(w, CopyMany(id, times))
    ensures Sound(Step(w, CopyMany(id, times)))
    ensures Outside(Step(w, CopyMany(id, times))) == Outside(w) + Times(id, times)
    ensures Refs(Step(w, CopyMany(id, times)).heap) == Refs(w.heap)
  {
    var w' := Step(w, CopyMany(id, times));
    assert w'.heap.Keys == w.heap.Keys;
    CountsChange(w, w', Times(id, times));
  }

  /** A release, seen from the world: some references of the outside are given back. */
  lemma ReleaseNumbered(w: World, w': World, p: seq<nat>)
    requires Numbered(w) && Counted(w.heap, Outside(w') + multiset(p)) && w'.heap == Release(w.heap, p)
    requires w'.objHeap.Keys <= w.objHeap.Keys && w'.heapIx == w.heapIx
    requires w'.roots <= w.roots && Refs(w'.objHeap) <= Refs(w.objHeap)
    ensures Sound(w')
  {
    ReleaseCounted(w.heap, p, Outside(w'));
    ReleaseRefs(w.heap, p);
    Subbag(w.roots, w'.roots, w.heapIx);
    Subbag(Refs(w.objHeap), Refs(w'.objHeap), w.heapIx);
    Subbag(Refs(w.heap), Refs(w'.heap), w.heapIx);
  }

  lemma Subbag(a: multiset<nat>, b: multiset<nat>, bound: nat)
    requires Below(a, bound) && b <= a
    ensures Below(b, bound)
  {
  }

  lemma DropSound(w: World, p: seq<nat>)
    requires Sound(w) && Allowed(w, Drop(p))
    ensures Sound(Step(w, Drop(p)))
  {
    var w' := Step(w, Drop(p));
    assert Outside(w') + multiset(p) == Outside(w);
    ReleaseNumbered(w, w', p);
  }

  // ----- explicit freeing -----

  lemma FreeSound(w: World, id: nat)
    requires Sound(w)
    ensures Sound(Step(w, Free(id)))
  {
    if id != 0 && id in w.heap {
      ErasedCounted(w.heap, id, Outside(w));
      RefsWithout(w.heap, id);
      var w0 := w.(heap := w.heap - {id});
      Subbag(Refs(w.heap), Refs(w0.heap), w.heapIx);
      ReleaseNumbered(w0, Step(w, Free(id)), w.heap[id].refs);
    }
  }

  lemma {:induction false} FreePtrsSound(w: World, p: seq<nat>)
    requires Sound(w)
    ensures Sound(Step(w, FreePtrs(p)))
    decreases |p|
  {
    if p != [] {
      FreeSound(w, p[0]);
      FreePtrsSound(Step(w, Free(p[0])), p[1..]);
    }
  }

  lemma FreeObjSound(w: World, id: nat)
    requires Sound(w)
    ensures Sound(Step(w, FreeObj(id)))
  {
    if id != 0 && id in w.objHeap {
      var w' := Step(w, FreeObj(id));
      RefsWithout(w.objHeap, id);
      assert Outside(w') + multiset(w.objHeap[id].refs) == Outside(w);
      ReleaseNumbered(w, w', w.objHeap[id].refs);
    }
  }

  lemma SetGCSound(w: World, id: nat, on: bool)
    requires Sound(w)
    ensures Sound(Step(w, SetGC(id, on)))
    ensures Outside(Step(w, SetGC(id, on))) == Outside(w) && Refs(Step(w, SetGC(id, on)).heap) == Refs(w.heap)
  {
    var w' := Step(w, SetGC(id, on));
    assert w'.heap.Keys == w.heap.Keys;
    assert w.roots + multiset{} == w.roots;
    CountsChange(w, w', multiset{});
    assert Outside(w) + multiset{} == Outside(w);
  }

  lemma StoreSound(w: World, x: nat, ix: nat, b: nat)
    requires Sound(w) && Allowed(w, Store(x, ix, b))
    ensures Sound(Step(w, Store(x, ix, b)))
  {
    AssignedCounted(w.heap, Outside(w), x, ix, b);
    StoredSound(w, Assigned(w.heap, x, ix, b), b);
  }

  lemma StoredSound(w: World, g: Heap, b: nat)
    requires Sound(w) && b < w.heapIx && Counted(g, Outside(w)) && g.Keys <= w.heap.Keys
        && Refs(g) <= Refs(w.heap) + multiset{b}
    ensures Sound(w.(heap := g))
  {
    StoredBelow(Refs(w.heap), Refs(g), b, w.heapIx);
    FewerNumbered(w, g);
  }

  lemma FewerNumbered(w: World, g: Heap)
    requires Numbered(w) && g.Keys <= w.heap.Keys && Below(Refs(g), w.heapIx)
    ensures Numbered(w.(heap := g))
  {
  }

  lemma StoredBelow(a: multiset<nat>, c: multiset<nat>, b: nat, bound: nat)
    requires Below(a, bound) && c <= a + multiset{b} && b < bound
    ensures Below(c, bound)
  {
    assert Below(a + multiset{b}, bound);
  }

  /** Every operation keeps the counts right. */
  lemma StepSound(w: World, op: Op)
    requires Sound(w) && Allowed(w, op)
    ensures Sound(Step(w, op))
  {
    match op
    case NewPtrs(n, value) => NewPtrsSound(w, n, value);
    case NewObjs(n, value) => NewObjsSound(w, n, value);
    case Copy(p) => CopySound(w, p);
    case CopyMany(id, times) => CopyManySound(w, id, times);
    case Drop(p) => DropSound(w, p);
    case Free(id) => FreeSound(w, id);
    case FreePtrs(p) => FreePtrsSound(w, p);
    case FreeObj(id) => FreeObjSound(w, id);
    case SetGC(id, on) => SetGCSound(w, id, on);
    case Store(x, ix, b) => StoreSound(w, x, ix, b);
  }

  /** At every point of every run each variable's count is the number of references to
      it, and ids in use were handed out once, as a pointer or as an object. */
  lemma {:induction false} RunSound(w: World, ops: seq<Op>)
    requires Sound(w) && AllowedRun(w, ops)
    ensures Sound(Run(w, ops))
    decreases |ops|
  {
    if ops != [] {
      StepSound(w, ops[0]);
      RunSound(Step(w, ops[0]), ops[1..]);
    }
  }

  // ----- no dangling references -----

  /** The program makes pointers only to what is there, and frees only what nothing that stays refers to. */
  ghost predicate Careful(w: World, op: Op) {
    match op
    case Copy(p) => forall id :: id in p ==> id == 0 || id in w.heap
    case CopyMany(id, times) => times == 0 || id == 0 || id in w.heap
    case Store(x, ix, b) => b == 0 || b in w.heap
    case Free(id) => OnlyFromGone(w.heap, {id})
    case FreePtrs(p) => OnlyFromGone(w.heap, IdsOf(p))
    case _ => true
  }

  ghost predicate CarefulRun(w: World, ops: seq<Op>)
    decreases |ops|
  {
    ops == [] || (Allowed(w, ops[0]) && Careful(w, ops[0]) && CarefulRun(Step(w, ops[0]), ops[1..]))
  }

  ghost predicate Clean(w: World) { NoDangling(w.heap, Outside(w)) }

  /** Nothing dangles, now or at any later point of the run. */
  ghost predicate CleanRun(w: World, ops: seq<Op>)
    decreases |ops|
  {
    Clean(w) && (ops == [] || CleanRun(Step(w, ops[0]), ops[1..]))
  }

  // ----- when freeing is safe -----

  /** Freeing a variable leaves no dangling reference exactly when every reference to it comes from its own value or
      from variables that go with it. */
  lemma FreeExact(w: World, id: nat)
    requires Sound(w) && Clean(w)
    ensures Clean(Step(w, Free(id))) <==> OnlyFromGone(w.heap, {id})
  {
    FreedCounted(w.heap, id, Outside(w));
    FreedClean(w.heap, Outside(w), {id}, Freed(w.heap, id));
  }

  /** Freeing the variables of an array leaves no dangling reference exactly when every reference to one of them comes
      from variables that go with them all. */
  lemma FreePtrsExact(w: World, p: seq<nat>)
    requires Sound(w) && Clean(w)
    ensures Clean(Step(w, FreePtrs(p))) <==> OnlyFromGone(w.heap, IdsOf(p))
  {
    FreedAllLeast(w.heap, p, Outside(w));
    FreedClean(w.heap, Outside(w), IdsOf(p), FreedAll(w.heap, p));
  }

  /** A variable whose value refers to nothing is safe to free exactly when nothing refers to it. */
  lemma FreeFlatExact(w: World, id: nat)
    requires Sound(w) && Clean(w) && id != 0 && id in w.heap && w.heap[id].refs == []
    ensures Clean(Step(w, Free(id))) <==> w.heap[id].count == 0
  {
    var h := w.heap;
    FreeExact(w, id);
    FreedCounted(h, id, Outside(w));
    FreedLeast(h, {id}, Freed(h, id));
    assert Freed(h, id) == h - {id};
    assert GoingWith(h, {id}) == {id};
    RefsWithout(Restrict(h, {id}), id);
    assert Restrict(h, {id}) - {id} == map[];
  }

  /** Operations that only add references. */
  lemma CarefulAdds(w: World, w': World, extra: multiset<nat>)
    requires Clean(w) && w'.heap.Keys == w.heap.Keys
    requires Outside(w') == Outside(w) + extra && Refs(w'.heap) == Refs(w.heap)
    requires forall x :: x in extra ==> x == 0 || x in w.heap
    ensures Clean(w')
  {
  }

  lemma NewReferred(w: World, w': World, x: nat)
    requires Clean(w) && w'.objHeap == w.objHeap && OneMoreFrom(w.heap, w'.heap, w.heapIx, w'.heapIx)
    requires PlainRefs(w', x) == PlainRefs(w, x) + (if w.heapIx <= x < w'.heapIx then 1 else 0)
    requires x != 0 && (x in Outside(w') || x in Refs(w'.heap))
    ensures x in w'.heap
  {
    assert PlainRefs(w', x) == 0 ==> x in Refs(w.objHeap);
    assert PlainRefs(w, x) == 0 || x in w.roots || x in Refs(w.heap);
  }

  lemma CarefulNew(w: World, n: nat, value: seq<nat>)
    requires Sound(w) && Allowed(w, NewPtrs(n, value)) && Clean(w)
    ensures Clean(Step(w, NewPtrs(n, value)))
  {
    var w' := Step(w, NewPtrs(n, value));
    WithNewKeys(w.heap, w.heapIx, n, value);
    NewPlainRefs(w, n, value);
    forall x | x != 0 && (x in Outside(w') || x in Refs(w'.heap))
      ensures x in w'.heap
    {
      NewReferred(w, w', x);
    }
  }

  lemma CarefulRelease(w: World, w': World, p: seq<nat>)
    requires Sound(w) && Clean(w) && Outside(w') + multiset(p) == Outside(w) && w'.heap == Release(w.heap, p)
    ensures Clean(w')
  {
    ReleaseCounted(w.heap, p, Outside(w'));
  }

  lemma CopyExact(w: World, p: seq<nat>)
    requires Sound(w) && Allowed(w, Copy(p)) && Clean(w)
    ensures Clean(Step(w, Copy(p))) <==> Careful(w, Copy(p))
  {
    RetainAdds(w.heap, p);
    CopySound(w, p);
    if Careful(w, Copy(p)) {
      assert forall id :: id in multiset(p) ==> id in p;
      CarefulAdds(w, Step(w, Copy(p)), multiset(p));
    } else {
      var id :| id in p && id != 0 && id !in w.heap;
      assert id in multiset(p) && id in Outside(Step(w, Copy(p)));
    }
  }

  lemma CopyManyExact(w: World, id: nat, times: nat)
    requires Sound(w) && Allowed(w, CopyMany(id, times)) && Clean(w)
    ensures Clean(Step(w, CopyMany(id, times))) <==> Careful(w, CopyMany(id, times))
  {
    CopyManySound(w, id, times);
    if Careful(w, CopyMany(id, times)) {
      CarefulAdds(w, Step(w, CopyMany(id, times)), Times(id, times));
    } else {
      assert id in Times(id, times);
      assert id in Outside(Step(w, CopyMany(id, times)));
    }
  }

  lemma CarefulSetGC(w: World, id: nat, on: bool)
    requires Sound(w) && Clean(w)
    ensures Clean(Step(w, SetGC(id, on)))
  {
    SetGCSound(w, id, on);
    CarefulAdds(w, Step(w, SetGC(id, on)), multiset{});
  }

  lemma CarefulDrop(w: World, p: seq<nat>)
    requires Sound(w) && Allowed(w, Drop(p)) && Clean(w)
    ensures Clean(Step(w, Drop(p)))
  {
    assert Outside(Step(w, Drop(p))) + multiset(p) == Outside(w);
    CarefulRelease(w, Step(w, Drop(p)), p);
  }

  lemma CarefulFreeObj(w: World, id: nat)
    requires Sound(w) && Clean(w)
    ensures Clean(Step(w, FreeObj(id)))
  {
    if id != 0 && id in w.objHeap {
      RefsWithout(w.objHeap, id);
      assert Outside(Step(w, FreeObj(id))) + multiset(w.objHeap[id].refs) == Outside(w);
      CarefulRelease(w, Step(w, FreeObj(id)), w.objHeap[id].refs);
    }
  }

  lemma StoreExact(w: World, x: nat, ix: nat, b: nat)
    requires Sound(w) && Allowed(w, Store(x, ix, b)) && Clean(w)
    ensures Clean(Step(w, Store(x, ix, b))) <==> Careful(w, Store(x, ix, b))
  {
    var g := Assigned(w.heap, x, ix, b);
    AssignedCounted(w.heap, Outside(w), x, ix, b);
    if !(b == 0 || b in w.heap) {
      StoredRef(w.heap, x, ix, b);
    }
  }

  lemma StoredRef(h: Heap, x: nat, ix: nat, b: nat)
    requires x in h && ix < |h[x].refs| && x in Release(Retain(h, [b]), [h[x].refs[ix]])
    ensures b in Refs(Assigned(h, x, ix, b))
  {
    RetainAdds(h, [b]);
    ReleaseShrinks(Retain(h, [b]), [h[x].refs[ix]]);
    var g := Assigned(h, x, ix, b);
    assert g[x].refs == h[x].refs[ix := b];
    HeldRef(g, x, ix);
  }

  /** An operation leaves nothing dangling exactly when it is a careful one. */
  lemma CarefulExact(w: World, op: Op)
    requires Sound(w) && Allowed(w, op) && Clean(w)
    ensures Clean(Step(w, op)) <==> Careful(w, op)
  {
    match op
    case NewPtrs(n, value) => CarefulNew(w, n, value);
    case NewObjs(n, value) => NewObjsSound(w, n, value);
    case Store(x, ix, b) => StoreExact(w, x, ix, b);
    case Drop(p) => CarefulDrop(w, p);
    case FreeObj(id) => CarefulFreeObj(w, id);
    case Copy(p) => CopyExact(w, p);
    case CopyMany(id, times) => CopyManyExact(w, id, times);
    case SetGC(id, on) => CarefulSetGC(w, id, on);
    case Free(id) => FreeExact(w, id);
    case FreePtrs(p) => FreePtrsExact(w, p);
  }

  /** A run leaves nothing dangling at any point exactly when every operation in it is careful. */
  lemma {:induction false} NeverDangling(w: World, ops: seq<Op>)
    requires Sound(w) && AllowedRun(w, ops) && Clean(w)
    ensures CleanRun(w, ops) <==> CarefulRun(w, ops)
    decreases |ops|
  {
    if ops != [] {
      StepSound(w, ops[0]);
      CarefulExact(w, ops[0]);
      if Clean(Step(w, ops[0])) {
        NeverDangling(Step(w, ops[0]), ops[1..]);
      } else {
        assert !CleanRun(Step(w, ops[0]), ops[1..]);
      }
    }
  }

  /** With it, one does: the program keeps its pointer to the freed variable. */
  lemma FreeDangles()
    ensures var w := Run(START, [NewPtrs(1, []), Free(1)]);
            AllowedRun(START, [NewPtrs(1, []), Free(1)]) && !NoDangling(w.heap, Outside(w))
  {
    var w1 := Step(START, NewPtrs(1, []));
    assert Ids(1, 1) == [1] by { assert Ids(1, 0) == []; }
    assert WithNew(map[], 1, 1, []) == map[1 := Cell([], 1, true)] by { assert WithNew(map[], 1, 0, []) == map[]; }
    var w2 := Step(w1, Free(1));
    assert w2.heap == map[];
    assert [NewPtrs(1, []), Free(1)][1..] == [Free(1)];
    assert [Free(1)][1..] == [];
    assert Run(w1, [Free(1)]) == w2;
    assert 1 in Outside(w2);
  }

  // ----- nothing is forgotten -----

  /** Garbage collection is not switched on for a variable at count zero. */
  predicate KeepsTrack(w: World, op: Op) {
    op.SetGC? && op.on && op.id in w.heap && op.id != 0 ==> 1 <= w.heap[op.id].count
  }

  lemma ReleaseNoneLost(w: World, w': World, h: Heap, p: seq<nat>)
    requires Counted(h, Outside(w') + multiset(p)) && NoneLost(h) && w'.heap == Release(h, p)
    ensures NoneLost(w'.heap)
  {
    ReleaseCounted(h, p, Outside(w'));
  }

  lemma FreeObjNoneLost(w: World, id: nat)
    requires Sound(w) && NoneLost(w.heap)
    ensures NoneLost(Step(w, FreeObj(id)).heap)
  {
    if id != 0 && id in w.objHeap {
      RefsWithout(w.objHeap, id);
      assert Outside(Step(w, FreeObj(id))) + multiset(w.objHeap[id].refs) == Outside(w);
      ReleaseNoneLost(w, Step(w, FreeObj(id)), w.heap, w.objHeap[id].refs);
    }
  }

  lemma DropNoneLost(w: World, p: seq<nat>)
    requires Sound(w) && Allowed(w, Drop(p)) && NoneLost(w.heap)
    ensures NoneLost(Step(w, Drop(p)).heap)
  {
    assert Outside(Step(w, Drop(p))) + multiset(p) == Outside(w);
    ReleaseNoneLost(w, Step(w, Drop(p)), w.heap, p);
  }

  lemma StepNoneLost(w: World, op: Op)
    requires Sound(w) && Allowed(w, op) && KeepsTrack(w, op) && NoneLost(w.heap)
    ensures NoneLost(Step(w, op).heap)
  {
    match op
    case NewPtrs(n, value) => WithNewKeys(w.heap, w.heapIx, n, value);
    case Copy(p) => RetainAdds(w.heap, p);
    case Drop(p) => DropNoneLost(w, p);
    case Free(id) => FreedCounted(w.heap, id, Outside(w));
    case FreePtrs(p) => FreedAllLeast(w.heap, p, Outside(w));
    case FreeObj(id) => FreeObjNoneLost(w, id);
    case Store(x, ix, b) => AssignedCounted(w.heap, Outside(w), x, ix, b);
    case _ =>
  }

  ghost predicate TrackingRun(w: World, ops: seq<Op>)
    decreases |ops|
  {
    ops == [] || (Allowed(w, ops[0]) && KeepsTrack(w, ops[0]) && TrackingRun(Step(w, ops[0]), ops[1..]))
  }

  /** A collected variable nothing refers to is gone, at every point of every such run. */
  lemma {:induction false} NeverLost(w: World, ops: seq<Op>)
    requires Sound(w) && TrackingRun(w, ops) && NoneLost(w.heap)
    ensures forall x :: x in Run(w, ops).heap && Run(w, ops).heap[x].gc
                        ==> x in Outside(Run(w, ops)) || x in Refs(Run(w, ops).heap)
    decreases |ops|
  {
    if ops != [] {
      StepSound(w, ops[0]);
      StepNoneLost(w, ops[0]);
      NeverLost(Step(w, ops[0]), ops[1..]);
    } else {
      forall x | x in w.heap && w.heap[x].gc ensures x in Outside(w) || x in Refs(w.heap) {
        assert w.heap[x].count == Outside(w)[x] + Refs(w.heap)[x];
      }
    }
  }

  // ----- runs of an interpreter -----

  /** From the empty heaps on: counts and ids are right, nothing dangles at any point exactly when the program is
      careful, and nothing is lost if it keeps track. */
  lemma RunsFromStart(ops: seq<Op>)
    requires AllowedRun(START, ops)
    ensures Sound(Run(START, ops))
    ensures CleanRun(START, ops) <==> CarefulRun(START, ops)
    ensures TrackingRun(START, ops) ==> forall x :: x in Run(START, ops).heap && Run(START, ops).heap[x].gc
                                                 ==> x in Outside(Run(START, ops)) || x in Refs(Run(START, ops).heap)
    ensures Ascending(AllHandedOut(START, ops), 1, Run(START, ops).heapIx)
  {
    RunSound(START, ops);
    NeverDangling(START, ops);
    NeverReused(START, ops);
    if TrackingRun(START, ops) {
      NeverLost(START, ops);
    }
  }

  // ----- fresh ids -----

  /** The ids a step hands out. */
  function HandedOut(w: World, op: Op): (r: seq<nat>) {
    match op
    case NewPtrs(n, _) => Ids(w.heapIx, n)
    case NewObjs(n, _) => Ids(w.heapIx, n)
    case _ => []
  }

  function AllHandedOut(w: World, ops: seq<Op>): (r: seq<nat>)
    decreases |ops|
  {
    if ops == [] then [] else HandedOut(w, ops[0]) + AllHandedOut(Step(w, ops[0]), ops[1..])
  }

  /** Strictly ascending, from lo up to but not including hi. */
  predicate Ascending(s: seq<nat>, lo: nat, hi: nat) {
    lo <= hi && (forall i :: 0 <= i < |s| ==> lo <= s[i] < hi) && forall i, j :: 0 <= i < j < |s| ==> s[i] < s[j]
  }

  lemma AscendingJoin(s: seq<nat>, t: seq<nat>, lo: nat, mid: nat, hi: nat)
    requires Ascending(s, lo, mid) && Ascending(t, mid, hi)
    ensures Ascending(s + t, lo, hi)
  {
  }

  /** No id is handed out twice in a run, whatever is freed in between. */
  lemma {:induction false} NeverReused(w: World, ops: seq<Op>)
    ensures Ascending(AllHandedOut(w, ops), w.heapIx, Run(w, ops).heapIx)
    decreases |ops|
  {
    if ops != [] {
      var w' := Step(w, ops[0]);
      NeverReused(w', ops[1..]);
      AscendingJoin(HandedOut(w, ops[0]), AllHandedOut(w', ops[1..]), w.heapIx, w'.heapIx, Run(w, ops).heapIx);
    }
  }
}
