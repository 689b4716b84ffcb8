/** Reference counts on heap variables: what releasing references does to a heap.

A heap variable holds the ids its value refers to.  Releasing a reference to a
variable lowers its count; at zero the variable is erased first and then the
references in its value are released, which may go on for as long as variables
are left, around cycles as well. */
module RefCounts {
  /** One heap variable: the ids its value refers to, in the order its destructor
      releases them, the count, and whether it is garbage collected. */
  datatype Cell = Cell(refs: seq<nat>, count: nat, gc: bool)

  type Heap = map<nat, Cell>

  /** Counts are unsigned machine words. */
  const SIZE_MAX := 0xFFFF_FFFF_FFFF_FFFF

  /** An unsigned decrement; the program asserts that it never happens at zero. */
  function Lowered(count: nat): (r: nat) { if count == 0 then SIZE_MAX else count - 1 }

  /** Releases the references in p, front to back. */
  function Release(h: Heap, p: seq<nat>): (r: Heap)
    decreases |h|, |p|
  {
    if p == [] then h
    else if p[0] == 0 || p[0] !in h then Release(h, p[1..])
    else
      var c := h[p[0]];
      if Lowered(c.count) == 0 && c.gc then
        assert (h - {p[0]}).Keys == h.Keys - {p[0]};
        Release(h - {p[0]}, c.refs + p[1..])
      else
        assert h[p[0] := c.(count := Lowered(c.count))].Keys == h.Keys;
        Release(h[p[0] := c.(count := Lowered(c.count))], p[1..])
  }

  /** Takes a reference to each id in p. */
  function Retain(h: Heap, p: seq<nat>): (r: Heap)
    decreases |p|
  {
    if p == [] then h
    else if p[0] == 0 || p[0] !in h then Retain(h, p[1..])
    else Retain(h[p[0] := h[p[0]].(count := h[p[0]].count + 1)], p[1..])
  }

  /** All references held by the values of the heap variables. */
  ghost function Refs(h: Heap): (r: multiset<nat>)
    decreases |h|
  {
    if h == map[] then multiset{}
    else
      var k :| k in h;
      assert (h - {k}).Keys == h.Keys - {k};
      multiset(h[k].refs) + Refs(h - {k})
  }

  function Restrict(h: Heap, ks: set<nat>): (r: Heap) { map k | k in h && k in ks :: h[k] }

  lemma {:induction false} RefsWithout(h: Heap, k: nat)
    requires k in h
    ensures Refs(h) == multiset(h[k].refs) + Refs(h - {k})
    decreases |h|
  {
    var j :| j in h && Refs(h) == multiset(h[j].refs) + Refs(h - {j});
    if j != k {
      TwoFewer(h, j, k);
      RefsWithout(h - {j}, k);
      RefsWithout(h - {k}, j);
      Exchange(multiset(h[j].refs), multiset(h[k].refs), Refs(h - {j} - {k}));
    }
  }

  lemma TwoFewer(h: Heap, j: nat, k: nat)
    requires j in h && k in h && j != k
    ensures |h - {j}| < |h| && |h - {k}| < |h| && h - {j} - {k} == h - {k} - {j}
  {
    assert (h - {j}).Keys == h.Keys - {j} && (h - {k}).Keys == h.Keys - {k};
  }

  lemma Exchange(a: multiset<nat>, b: multiset<nat>, c: multiset<nat>)
    ensures a + (b + c) == b + (a + c)
  {
  }

  /** Only the values matter, not the counts. */
  lemma {:induction false} RefsSame(h: Heap, g: Heap)
    requires h.Keys == g.Keys && forall k :: k in h ==> h[k].refs == g[k].refs
    ensures Refs(h) == Refs(g)
    decreases |h|
  {
    if h == map[] {
      assert g == map[];
    } else {
      var k :| k in h;
      RefsWithout(h, k);
      RefsWithout(g, k);
      assert (h - {k}).Keys == h.Keys - {k} == (g - {k}).Keys;
      RefsSame(h - {k}, g - {k});
    }
  }

  lemma SameHeap(g: Heap, g': Heap)
    requires g.Keys == g'.Keys && forall x :: x in g ==> g[x] == g'[x]
    ensures g == g'
  {
  }

  lemma SumStep(a: multiset<nat>, b: multiset<nat>, c: multiset<nat>, d: multiset<nat>, e: multiset<nat>)
    requires a == b + c && d == b + (c + e)
    ensures d == a + e
  {
  }

  lemma PlusWithout(f: Heap, g: Heap, k: nat)
    requires f.Keys !! g.Keys && k in f
    ensures k in f + g && (f + g)[k] == f[k] && f + g - {k} == (f - {k}) + g
    ensures |f - {k}| < |f| && (f - {k}).Keys !! g.Keys
  {
    assert (f - {k}).Keys == f.Keys - {k};
    SameHeap(f + g - {k}, (f - {k}) + g);
  }

  lemma {:induction false} RefsPlus(f: Heap, g: Heap)
    requires f.Keys !! g.Keys
    ensures Refs(f + g) == Refs(f) + Refs(g)
    decreases |f|
  {
    if f == map[] {
      assert f + g == g;
    } else {
      var k :| k in f;
      PlusWithout(f, g, k);
      RefsWithout(f, k);
      RefsWithout(f + g, k);
      RefsPlus(f - {k}, g);
      SumStep(Refs(f), multiset(f[k].refs), Refs(f - {k}), Refs(f + g), Refs(g));
    }
  }

  lemma HeadAndTail(p: seq<nat>)
    requires p != []
    ensures multiset(p) == multiset{p[0]} + multiset(p[1..])
  {
    assert p == [p[0]] + p[1..];
  }

  // ----- what a release frees -----

  /** How many references to x go away when p is released and the variables in ks are freed. */
  ghost function Lost(h: Heap, p: multiset<nat>, ks: set<nat>, x: nat): (r: nat) {
    p[x] + Refs(Restrict(h, ks))[x]
  }

  /** Variable x must be freed once those in ks are: its count is used up. */
  ghost predicate Spent(h: Heap, p: multiset<nat>, ks: set<nat>, x: nat) {
    x in h && x != 0 && h[x].gc && 1 <= h[x].count <= Lost(h, p, ks, x)
  }

  ghost predicate Closed(h: Heap, p: multiset<nat>, ks: set<nat>) {
    forall x :: Spent(h, p, ks, x) ==> x in ks
  }

  /** The program's assertion that no count is lowered at zero is kept: a variable that is not
      freed at zero has a count for each reference that might be released. */
  ghost predicate Steady(h: Heap, p: multiset<nat>) {
    forall x :: x in h && x != 0 ==> (h[x].gc && 1 <= h[x].count) || p[x] + Refs(h)[x] <= h[x].count
  }

  /** A variable that stays has lost exactly the references that went away. */
  ghost predicate Survives(h: Heap, p: multiset<nat>, freed: set<nat>, g: Heap, x: nat)
    requires x in h && x in g
  {
    var lost := if x == 0 then 0 else Lost(h, p, freed, x);
    lost <= h[x].count && g[x] == h[x].(count := h[x].count - lost)
  }

  /** h released to g: the freed variables are the least set that holds every variable
      it uses up. */
  ghost predicate Released(h: Heap, p: multiset<nat>, g: Heap) {
    var freed := h.Keys - g.Keys;
    && g.Keys <= h.Keys
    && (forall x :: x in freed ==> Spent(h, p, freed, x))
    && Closed(h, p, freed)
    && (forall ks :: Closed(h, p, ks) ==> freed <= ks)
    && forall x :: x in g ==> Survives(h, p, freed, g, x)
  }

  /** The head of p is null or dangling. */
  lemma SkippedStep(h: Heap, p: multiset<nat>, id: nat, g: Heap)
    requires (id == 0 || id !in h) && Released(h, p, g)
    ensures Released(h, multiset{id} + p, g)
  {
    var p' := multiset{id} + p;
    forall ks, x | x in h && x != 0
      ensures Lost(h, p', ks, x) == Lost(h, p, ks, x)
    {
      assert p'[x] == p[x];
    }
    forall ks | Closed(h, p', ks) ensures Closed(h, p, ks) {
      forall x | Spent(h, p, ks, x) ensures x in ks {
        assert Spent(h, p', ks, x);
      }
    }
  }

  lemma SpentLowered(h: Heap, p: multiset<nat>, id: nat, h2: Heap, ks: set<nat>, x: nat)
    requires id in h && id != 0 && 1 <= h[id].count && !(h[id].count == 1 && h[id].gc)
    requires h2 == h[id := h[id].(count := h[id].count - 1)]
    ensures Lost(h, multiset{id} + p, ks, x) == Lost(h2, p, ks, x) + (if x == id then 1 else 0)
    ensures Spent(h, multiset{id} + p, ks, x) == Spent(h2, p, ks, x)
  {
    assert h2.Keys == h.Keys;
    RefsSame(Restrict(h, ks), Restrict(h2, ks));
    assert (multiset{id} + p)[x] == p[x] + (if x == id then 1 else 0);
  }

  /** The head's count is lowered, and it stays. */
  lemma LoweredStep(h: Heap, p: multiset<nat>, id: nat, h2: Heap, g: Heap)
    requires id in h && id != 0 && 1 <= h[id].count && !(h[id].count == 1 && h[id].gc)
    requires h2 == h[id := h[id].(count := h[id].count - 1)] && Released(h2, p, g)
    ensures Released(h, multiset{id} + p, g)
  {
    var p' := multiset{id} + p;
    assert h2.Keys == h.Keys;
    var freed := h.Keys - g.Keys;
    forall x ensures Spent(h, p', freed, x) == Spent(h2, p, freed, x) {
      SpentLowered(h, p, id, h2, freed, x);
    }
    forall ks | Closed(h, p', ks) ensures freed <= ks {
      forall x | Spent(h2, p, ks, x) ensures x in ks {
        SpentLowered(h, p, id, h2, ks, x);
      }
      assert Closed(h2, p, ks);
    }
    forall x | x in g ensures Survives(h, p', freed, g, x) {
      SpentLowered(h, p, id, h2, freed, x);
      assert Survives(h2, p, freed, g, x);
    }
  }

  lemma SpentFreed(h: Heap, p: multiset<nat>, id: nat, h2: Heap, p2: multiset<nat>, ks: set<nat>, x: nat)
    requires id in h && id in ks && x != id && h2 == h - {id} && p2 == multiset(h[id].refs) + p
    ensures Lost(h, multiset{id} + p, ks, x) == Lost(h2, p2, ks - {id}, x)
    ensures Spent(h, multiset{id} + p, ks, x) == Spent(h2, p2, ks - {id}, x)
  {
    RefsWithout(Restrict(h, ks), id);
    assert Restrict(h, ks) - {id} == Restrict(h2, ks - {id});
    assert (multiset{id} + p)[x] == p[x];
  }

  /** The head's count is used up: it is erased, and the references it held are released with the rest. */
  lemma FreedStep(h: Heap, p: multiset<nat>, id: nat, h2: Heap, p2: multiset<nat>, g: Heap)
    requires id in h && id != 0 && h[id].count == 1 && h[id].gc
    requires h2 == h - {id} && p2 == multiset(h[id].refs) + p && Released(h2, p2, g)
    ensures Released(h, multiset{id} + p, g)
  {
    var p' := multiset{id} + p;
    var freed, freed2 := h.Keys - g.Keys, h2.Keys - g.Keys;
    assert h2.Keys == h.Keys - {id} && freed == freed2 + {id} && freed - {id} == freed2;
    assert p'[id] >= 1;
    forall x | x != id ensures Spent(h, p', freed, x) == Spent(h2, p2, freed2, x) {
      SpentFreed(h, p, id, h2, p2, freed, x);
    }
    forall ks | Closed(h, p', ks) ensures freed <= ks {
      assert Spent(h, p', ks, id);
      forall x | Spent(h2, p2, ks - {id}, x) ensures x in ks - {id} {
        SpentFreed(h, p, id, h2, p2, ks, x);
      }
      assert Closed(h2, p2, ks - {id});
    }
    forall x | x in g ensures Survives(h, p', freed, g, x) {
      SpentFreed(h, p, id, h2, p2, freed, x);
      assert Survives(h2, p2, freed2, g, x);
    }
  }

  /** Steadiness goes along. */
  lemma SteadySteps(h: Heap, p: seq<nat>)
    requires p != [] && Steady(h, multiset(p))
    ensures p[0] == 0 || p[0] !in h ==> Steady(h, multiset(p[1..]))
    ensures p[0] != 0 && p[0] in h ==> 1 <= h[p[0]].count
    ensures p[0] != 0 && p[0] in h && h[p[0]].count == 1 && h[p[0]].gc
        ==> Steady(h - {p[0]}, multiset(h[p[0]].refs + p[1..]))
    ensures p[0] != 0 && p[0] in h && !(h[p[0]].count == 1 && h[p[0]].gc)
            ==> Steady(h[p[0] := h[p[0]].(count := Lowered(h[p[0]].count))], multiset(p[1..]))
  {
    HeadAndTail(p);
    var id, rest := p[0], multiset(p[1..]);
    if id != 0 && id in h {
      RefsWithout(h, id);
      RefsSame(h, h[id := h[id].(count := Lowered(h[id].count))]);
    }
  }

  lemma ReleasedNothing(h: Heap)
    ensures Released(h, multiset{}, h)
  {
    assert h.Keys - h.Keys == {};
    assert Restrict(h, {}) == map[];
  }

  /** A release frees the least set of variables whose counts the released references
      and the freed variables' own references use up. */
  lemma {:induction false} ReleaseLeast(h: Heap, p: seq<nat>)
    requires Steady(h, multiset(p))
    ensures Released(h, multiset(p), Release(h, p))
    decreases |h|, |p|
  {
    if p == [] {
      ReleasedNothing(h);
    } else {
      HeadAndTail(p);
      SteadySteps(h, p);
      ReleaseLeastStep(h, p, p[0], p[1..]);
    }
  }

  lemma ReleaseLeastStep(h: Heap, p: seq<nat>, id: nat, rest: seq<nat>)
    requires p != [] && id == p[0] && rest == p[1..] && multiset(p) == multiset{id} + multiset(rest)
    requires id == 0 || id !in h ==> Steady(h, multiset(rest))
    requires id != 0 && id in h ==> 1 <= h[id].count
    requires id != 0 && id in h && h[id].count == 1 && h[id].gc ==> Steady(h - {id}, multiset(h[id].refs + rest))
    requires id != 0 && id in h && !(h[id].count == 1 && h[id].gc)
        ==> Steady(h[id := h[id].(count := h[id].count - 1)], multiset(rest))
    ensures Released(h, multiset(p), Release(h, p))
    decreases |h|, |p|, 0
  {
    if id == 0 || id !in h {
      ReleaseLeast(h, rest);
      SkippedStep(h, multiset(rest), id, Release(h, rest));
    } else if h[id].count == 1 && h[id].gc {
      assert (h - {id}).Keys == h.Keys - {id};
      ReleaseLeast(h - {id}, h[id].refs + rest);
      FreedStep(h, multiset(rest), id, h - {id}, multiset(h[id].refs + rest), Release(h, p));
    } else {
      var h2 := h[id := h[id].(count := h[id].count - 1)];
      assert h2.Keys == h.Keys;
      ReleaseLeast(h2, rest);
      LoweredStep(h, multiset(rest), id, h2, Release(h, p));
    }
  }

  /** There is only one heap a release can lead to. */
  lemma ReleasedOnce(h: Heap, p: multiset<nat>, g: Heap, g': Heap)
    requires Released(h, p, g) && Released(h, p, g')
    ensures g == g'
  {
    var f, f' := h.Keys - g.Keys, h.Keys - g'.Keys;
    assert f <= f' && f' <= f;
    assert f == f';
    assert g.Keys == h.Keys - f && g'.Keys == h.Keys - f';
    forall x | x in g ensures g[x] == g'[x] {
      assert Survives(h, p, f, g, x) && Survives(h, p, f', g', x);
    }
  }

  /** The order in which references are released does not matter, on any graph. */
  lemma ReleaseOrder(h: Heap, p: seq<nat>, q: seq<nat>)
    requires Steady(h, multiset(p)) && multiset(p) == multiset(q)
    ensures Release(h, p) == Release(h, q)
  {
    ReleaseLeast(h, p);
    ReleaseLeast(h, q);
    ReleasedOnce(h, multiset(p), Release(h, p), Release(h, q));
  }

  /** What is left when each id gives up its multiplicity in p. */
  function Subtract(h: Heap, p: seq<nat>): (r: Heap) {
    map x | x in h && !(x != 0 && h[x].gc && 1 <= h[x].count <= multiset(p)[x])
          :: if x == 0 then h[x] else h[x].(count := Sub(h[x].count, multiset(p)[x]))
  }

  /** Variables whose values hold no references: a release subtracts multiplicities and
      frees exactly those that reach zero. */
  lemma ReleaseFlat(h: Heap, p: seq<nat>)
    requires Steady(h, multiset(p)) && forall k :: k in h ==> h[k].refs == []
    ensures Release(h, p) == Subtract(h, p)
  {
    ReleaseLeast(h, p);
    var g := Release(h, p);
    var freed := h.Keys - g.Keys;
    FlatRefs(Restrict(h, freed));
    forall x | x in h
      ensures x in g <==> x in Subtract(h, p)
      ensures x in g ==> g[x] == Subtract(h, p)[x]
    {
      assert x in freed <==> Spent(h, multiset(p), freed, x);
      assert x in g ==> Survives(h, multiset(p), freed, g, x);
    }
    assert Subtract(h, p).Keys <= h.Keys;
    SameHeap(g, Subtract(h, p));
  }

  function Sub(a: nat, b: nat): (r: nat) { if b <= a then a - b else 0 }

  lemma {:induction false} FlatRefs(h: Heap)
    requires forall k :: k in h ==> h[k].refs == []
    ensures Refs(h) == multiset{}
    decreases |h|
  {
    if h != map[] {
      var k :| k in h;
      assert (h - {k}).Keys == h.Keys - {k};
      RefsWithout(h, k);
      FlatRefs(h - {k});
    }
  }

  lemma {:induction false} ReleaseAppend(h: Heap, p: seq<nat>, q: seq<nat>)
    ensures Release(h, p + q) == Release(Release(h, p), q)
    decreases |h|, |p|
  {
    if p == [] {
      assert p + q == q;
    } else {
      assert (p + q)[1..] == p[1..] + q;
      var id := p[0];
      if id == 0 || id !in h {
        ReleaseAppend(h, p[1..], q);
      } else if Lowered(h[id].count) == 0 && h[id].gc {
        assert (h - {id}).Keys == h.Keys - {id};
        assert h[id].refs + (p[1..] + q) == (h[id].refs + p[1..]) + q;
        ReleaseAppend(h - {id}, h[id].refs + p[1..], q);
      } else {
        var h2 := h[id := h[id].(count := Lowered(h[id].count))];
        assert h2.Keys == h.Keys;
        ReleaseAppend(h2, p[1..], q);
      }
    }
  }

  lemma {:induction false} ReleaseShrinks(h: Heap, p: seq<nat>)
    ensures Release(h, p).Keys <= h.Keys && |Release(h, p)| <= |h|
    ensures forall x :: x in Release(h, p) ==> Release(h, p)[x].refs == h[x].refs && Release(h, p)[x].gc == h[x].gc
    decreases |h|, |p|
  {
    if p != [] {
      var id := p[0];
      if id == 0 || id !in h {
        ReleaseShrinks(h, p[1..]);
      } else if Lowered(h[id].count) == 0 && h[id].gc {
        assert (h - {id}).Keys == h.Keys - {id};
        ReleaseShrinks(h - {id}, h[id].refs + p[1..]);
      } else {
        var h2 := h[id := h[id].(count := Lowered(h[id].count))];
        assert h2.Keys == h.Keys;
        ReleaseShrinks(h2, p[1..]);
      }
    }
  }

  // ----- taking references -----

  lemma {:induction false} RetainAppend(h: Heap, p: seq<nat>, q: seq<nat>)
    ensures Retain(h, p + q) == Retain(Retain(h, p), q)
    decreases |p|
  {
    if p == [] {
      assert p + q == q;
    } else {
      assert (p + q)[1..] == p[1..] + q;
      if p[0] == 0 || p[0] !in h {
        RetainAppend(h, p[1..], q);
      } else {
        RetainAppend(h[p[0] := h[p[0]].(count := h[p[0]].count + 1)], p[1..], q);
      }
    }
  }

  /** Every live id in p gains its multiplicity. */
  lemma {:induction false} RetainAdds(h: Heap, p: seq<nat>)
    ensures Retain(h, p).Keys == h.Keys
    ensures forall x :: x in h
              ==> Retain(h, p)[x] == if x == 0 then h[x] else h[x].(count := h[x].count + multiset(p)[x])
    decreases |p|
  {
    if p != [] {
      HeadAndTail(p);
      if p[0] == 0 || p[0] !in h {
        RetainAdds(h, p[1..]);
      } else {
        RetainAdds(h[p[0] := h[p[0]].(count := h[p[0]].count + 1)], p[1..]);
      }
    }
  }

  /** Releasing what was just taken gives the heap back exactly when no garbage collected
      variable among them stood at count zero. */
  lemma {:induction false} ReleaseUndoesRetain(h: Heap, p: seq<nat>)
    ensures Release(Retain(h, p), p) == h
            <==> forall x :: x in p && x in h && x != 0 && h[x].gc ==> 1 <= h[x].count
  {
    var g := Retain(h, p);
    RetainAdds(h, p);
    if forall x :: x in p && x in h && x != 0 && h[x].gc ==> 1 <= h[x].count {
      ReleaseBack(h, p);
    } else {
      var x :| x in p && x in h && x != 0 && h[x].gc && h[x].count == 0;
      assert multiset(p)[x] >= 1;
      ReleaseFrees(g, p, x);
    }
  }

  lemma {:induction false} ReleaseBack(h: Heap, p: seq<nat>)
    requires forall x :: x in p && x in h && x != 0 && h[x].gc ==> 1 <= h[x].count
    ensures Release(Retain(h, p), p) == h
    decreases |p|
  {
    if p != [] {
      RetainAdds(h, p);
      ReleaseBack(h, p[1..]);
      RetainHead(h, p, Retain(h, p), Retain(h, p[1..]));
    }
  }

  /** What the first release undoes. */
  lemma RetainHead(h: Heap, p: seq<nat>, g: Heap, g': Heap)
    requires p != [] && g == Retain(h, p) && g' == Retain(h, p[1..])
    ensures p[0] == 0 || p[0] !in h ==> g == g'
    ensures p[0] != 0 && p[0] in h ==>
              p[0] in g && 1 + h[p[0]].count <= g[p[0]].count && g' == g[p[0] := g[p[0]].(count := g[p[0]].count - 1)]
  {
    if p[0] != 0 && p[0] in h {
      RetainLiveHead(h, p, g, g');
    }
  }

  function OneMore(h: Heap, id: nat): (r: Heap)
    requires id in h
  {
    h[id := h[id].(count := h[id].count + 1)]
  }

  /** Taking one more reference first or last makes no difference. */
  lemma {:induction false} RetainLater(h: Heap, rest: seq<nat>, id: nat)
    requires id in h
    ensures id in Retain(h, rest) && h[id].count <= Retain(h, rest)[id].count
    ensures Retain(OneMore(h, id), rest) == OneMore(Retain(h, rest), id)
    decreases |rest|
  {
    if rest != [] {
      var k := rest[0];
      if k == 0 || k !in h {
        RetainLater(h, rest[1..], id);
      } else {
        SameHeap(OneMore(OneMore(h, id), k), OneMore(OneMore(h, k), id));
        RetainLater(OneMore(h, k), rest[1..], id);
      }
    }
  }

  lemma RetainLiveHead(h: Heap, p: seq<nat>, g: Heap, g': Heap)
    requires p != [] && g == Retain(h, p) && g' == Retain(h, p[1..]) && p[0] != 0 && p[0] in h
    ensures p[0] in g && 1 + h[p[0]].count <= g[p[0]].count && g' == g[p[0] := g[p[0]].(count := g[p[0]].count - 1)]
  {
    RetainLater(h, p[1..], p[0]);
    assert g == OneMore(g', p[0]);
    SameHeap(g', g[p[0] := g[p[0]].(count := g[p[0]].count - 1)]);
  }

  /** A garbage collected variable released as often as its count is freed. */
  lemma {:induction false} ReleaseFrees(h: Heap, p: seq<nat>, x: nat)
    requires x in h && x != 0 && h[x].gc && 1 <= h[x].count <= multiset(p)[x]
    ensures x !in Release(h, p)
    decreases |h|, |p|
  {
    HeadAndTail(p);
    var id, rest := p[0], p[1..];
    if id == 0 || id !in h {
      ReleaseFrees(h, rest, x);
    } else if Lowered(h[id].count) == 0 && h[id].gc {
      assert (h - {id}).Keys == h.Keys - {id};
      if id == x {
        ReleaseShrinks(h - {id}, h[id].refs + rest);
      } else {
        ReleaseFrees(h - {id}, h[id].refs + rest, x);
      }
    } else {
      var h2 := h[id := h[id].(count := Lowered(h[id].count))];
      assert h2.Keys == h.Keys;
      ReleaseFrees(h2, rest, x);
    }
  }

  // ----- counts are references -----

  /** Every variable's count is the number of references to it, from outside and from values. */
  ghost predicate Counted(h: Heap, roots: multiset<nat>) {
    0 !in h && forall x :: x in h ==> h[x].count == roots[x] + Refs(h)[x]
  }

  /** Nothing refers to a variable that is not there. */
  ghost predicate NoDangling(h: Heap, roots: multiset<nat>) {
    forall x :: x != 0 && (x in roots || x in Refs(h)) ==> x in h
  }

  /** Every garbage collected variable is referred to. */
  ghost predicate NoneLost(h: Heap) {
    forall x :: x in h && h[x].gc ==> 1 <= h[x].count
  }

  /** After a release, the references left are those of the variables left. */
  lemma RefsLeft(h: Heap, freed: set<nat>, g: Heap)
    requires g.Keys == h.Keys - freed && freed <= h.Keys && forall x :: x in g ==> g[x].refs == h[x].refs
    ensures Refs(h) == Refs(Restrict(h, freed)) + Refs(g)
  {
    RefsPlus(Restrict(h, freed), Restrict(h, g.Keys));
    SameHeap(Restrict(h, freed) + Restrict(h, g.Keys), h);
    RefsSame(Restrict(h, g.Keys), g);
  }

  /** A release adds neither variables nor references. */
  lemma ReleaseRefs(h: Heap, p: seq<nat>)
    ensures Release(h, p).Keys <= h.Keys && Refs(Release(h, p)) <= Refs(h)
  {
    var g := Release(h, p);
    ReleaseShrinks(h, p);
    RefsLeft(h, h.Keys - g.Keys, g);
  }

  lemma CountedSteady(h: Heap, p: multiset<nat>, roots: multiset<nat>)
    requires Counted(h, roots + p)
    ensures Steady(h, p)
  {
  }

  /** A variable that is still referred to, from outside or from a value that stays, stays. */
  lemma ReferredStays(h: Heap, p: multiset<nat>, roots: multiset<nat>, g: Heap, x: nat)
    requires Counted(h, roots + p) && Released(h, p, g) && x in h && (x in roots || x in Refs(g))
    ensures x in g
  {
    var freed := h.Keys - g.Keys;
    RefsLeft(h, freed, g);
    assert !Spent(h, p, freed, x);
  }

  lemma ReleasedCounted(h: Heap, p: multiset<nat>, roots: multiset<nat>, g: Heap)
    requires Counted(h, roots + p) && Released(h, p, g)
    ensures Counted(g, roots)
  {
    var freed := h.Keys - g.Keys;
    RefsLeft(h, freed, g);
    forall x | x in g ensures g[x].count == roots[x] + Refs(g)[x] {
      assert Survives(h, p, freed, g, x);
      assert h[x].count == roots[x] + p[x] + Refs(h)[x];
    }
  }

  /** Releasing references keeps the counts right, leaves no reference to a freed variable,
      and leaves no collected variable without a reference. */
  lemma ReleaseCounted(h: Heap, p: seq<nat>, roots: multiset<nat>)
    requires Counted(h, roots + multiset(p))
    ensures Counted(Release(h, p), roots)
    ensures NoDangling(h, roots + multiset(p)) ==> NoDangling(Release(h, p), roots)
    ensures NoneLost(h) ==> NoneLost(Release(h, p))
    ensures Released(h, multiset(p), Release(h, p))
  {
    CountedSteady(h, multiset(p), roots);
    ReleaseLeast(h, p);
    var g := Release(h, p);
    var freed := h.Keys - g.Keys;
    ReleasedCounted(h, multiset(p), roots, g);
    RefsLeft(h, freed, g);
    if NoDangling(h, roots + multiset(p)) {
      forall x | x != 0 && (x in roots || x in Refs(g)) ensures x in g {
        assert x in roots + multiset(p) || x in Refs(h);
        ReferredStays(h, multiset(p), roots, g, x);
      }
    }
    if NoneLost(h) {
      forall x | x in g && g[x].gc ensures 1 <= g[x].count {
        assert !Spent(h, multiset(p), freed, x) && Survives(h, multiset(p), freed, g, x);
      }
    }
  }

  // ----- freeing variables -----

  /** With the variables in ids those in ks go: their values' references are used up. */
  ghost predicate Going(h: Heap, ids: set<nat>, ks: set<nat>) {
    (forall id :: id in ids && id != 0 && id in h ==> id in ks) && Closed(h, multiset{}, ks)
  }

  /** The least set that goes with ids. */
  ghost function GoingWith(h: Heap, ids: set<nat>): (r: set<nat>) {
    set x | x in h && forall ks: set<nat> :: Going(h, ids, ks) ==> x in ks
  }

  /** h after the variables in ids were freed is g: the least set that goes with them is gone, and what stays has lost
      the references from it. */
  ghost predicate FreedTo(h: Heap, ids: set<nat>, g: Heap) {
    var gone := h.Keys - g.Keys;
    && g.Keys <= h.Keys && Going(h, ids, gone)
    && (forall x :: x in gone ==> (x in ids && x != 0) || Spent(h, multiset{}, gone, x))
    && (forall ks :: Going(h, ids, ks) ==> gone <= ks)
    && forall x :: x in g ==> Survives(h, multiset{}, gone, g, x)
  }

  lemma FreedLeast(h: Heap, ids: set<nat>, g: Heap)
    requires FreedTo(h, ids, g)
    ensures h.Keys - g.Keys == GoingWith(h, ids)
  {
  }

  lemma FreedNone(h: Heap, ids: set<nat>)
    requires forall id :: id in ids ==> id == 0 || id !in h
    ensures FreedTo(h, ids, h)
  {
    assert h.Keys - h.Keys == {};
    assert Restrict(h, {}) == map[];
  }

  /** One variable is erased and its value's references are released. */
  lemma FreedSingle(h: Heap, id: nat, g: Heap)
    requires id in h && id != 0 && Released(h - {id}, multiset(h[id].refs), g)
    ensures FreedTo(h, {id}, g)
  {
    var h2, p2 := h - {id}, multiset(h[id].refs);
    var gone, gone2 := h.Keys - g.Keys, h2.Keys - g.Keys;
    assert h2.Keys == h.Keys - {id} && gone == gone2 + {id} && gone - {id} == gone2;
    forall x | x != id
      ensures Lost(h, multiset{}, gone, x) == Lost(h2, p2, gone2, x)
      ensures Spent(h, multiset{}, gone, x) == Spent(h2, p2, gone2, x)
    {
      ErasedSpent(h, id, h2, p2, gone, x);
    }
    forall ks | Going(h, {id}, ks) ensures gone <= ks {
      forall x | Spent(h2, p2, ks - {id}, x) ensures x in ks - {id} {
        ErasedSpent(h, id, h2, p2, ks, x);
      }
      assert Closed(h2, p2, ks - {id});
    }
    forall x | x in g ensures Survives(h, multiset{}, gone, g, x) {
      assert Survives(h2, p2, gone2, g, x);
    }
  }

  lemma ErasedSpent(h: Heap, id: nat, h2: Heap, p2: multiset<nat>, ks: set<nat>, x: nat)
    requires id in h && id in ks && x != id && h2 == h - {id} && p2 == multiset(h[id].refs)
    ensures Lost(h, multiset{}, ks, x) == Lost(h2, p2, ks - {id}, x)
    ensures Spent(h, multiset{}, ks, x) == Spent(h2, p2, ks - {id}, x)
  {
    RefsWithout(Restrict(h, ks), id);
    assert Restrict(h, ks) - {id} == Restrict(h2, ks - {id});
  }

  /** The references from a larger set are those from the part that is gone and from the rest. */
  lemma LostSplit(h: Heap, gone: set<nat>, g: Heap, ks: set<nat>)
    requires gone <= h.Keys && g.Keys == h.Keys - gone && gone <= ks && forall x :: x in g ==> g[x].refs == h[x].refs
    ensures Refs(Restrict(h, ks)) == Refs(Restrict(h, gone)) + Refs(Restrict(g, ks))
  {
    var rest := Restrict(h, ks - gone);
    RefsPlus(Restrict(h, gone), rest);
    SameHeap(Restrict(h, gone) + rest, Restrict(h, ks));
    RefsSame(rest, Restrict(g, ks));
  }

  lemma SpentLater(h: Heap, ids: set<nat>, g: Heap, ks: set<nat>, x: nat)
    requires FreedTo(h, ids, g) && h.Keys - g.Keys <= ks && x in g
    ensures Spent(h, multiset{}, ks, x) == Spent(g, multiset{}, ks, x)
  {
    var gone := h.Keys - g.Keys;
    assert forall y :: y in g ==> Survives(h, multiset{}, gone, g, y);
    LostSplit(h, gone, g, ks);
    assert !Spent(h, multiset{}, gone, x) && Survives(h, multiset{}, gone, g, x);
  }

  /** Freeing some variables and then others is freeing them all. */
  lemma FreedThen(h: Heap, a: set<nat>, g: Heap, b: set<nat>, u: Heap)
    requires FreedTo(h, a, g) && FreedTo(g, b, u)
    ensures FreedTo(h, a + b, u)
  {
    var gone, later, all := h.Keys - g.Keys, g.Keys - u.Keys, h.Keys - u.Keys;
    assert all == gone + later;
    assert forall y :: y in g ==> Survives(h, multiset{}, gone, g, y);
    LostSplit(h, gone, g, all);
    assert Restrict(g, all) == Restrict(g, later);
    FreedThenGone(h, a, g, b, u, gone, later, all);
    forall ks | Going(h, a + b, ks) ensures all <= ks {
      FreedThenLeast(h, a, g, b, u, ks);
    }
    forall x | x in u ensures Survives(h, multiset{}, all, u, x) {
      assert Survives(h, multiset{}, gone, g, x) && Survives(g, multiset{}, later, u, x);
    }
  }

  lemma FreedThenGone(h: Heap, a: set<nat>, g: Heap, b: set<nat>, u: Heap, gone: set<nat>, later: set<nat>,
                      all: set<nat>)
    requires FreedTo(h, a, g) && FreedTo(g, b, u)
    requires gone == h.Keys - g.Keys && later == g.Keys - u.Keys && all == h.Keys - u.Keys
    requires Refs(Restrict(h, all)) == Refs(Restrict(h, gone)) + Refs(Restrict(g, later))
        && Restrict(g, all) == Restrict(g, later)
    ensures Going(h, a + b, all)
    ensures forall x :: x in all ==> (x in a + b && x != 0) || Spent(h, multiset{}, all, x)
  {
    forall x | Spent(h, multiset{}, all, x) ensures x in all {
      if x in g {
        SpentLater(h, a, g, all, x);
        assert Spent(g, multiset{}, later, x);
      }
    }
    forall x | x in all ensures (x in a + b && x != 0) || Spent(h, multiset{}, all, x) {
      if x in g {
        SpentLater(h, a, g, all, x);
        assert x in later;
      } else {
        assert x in gone;
      }
    }
  }

  lemma FreedThenLeast(h: Heap, a: set<nat>, g: Heap, b: set<nat>, u: Heap, ks: set<nat>)
    requires FreedTo(h, a, g) && FreedTo(g, b, u) && Going(h, a + b, ks)
    ensures h.Keys - u.Keys <= ks
  {
    assert Going(h, a, ks);
    forall x | Spent(g, multiset{}, ks, x) ensures x in ks {
      SpentLater(h, a, g, ks, x);
    }
    assert Going(g, b, ks);
  }

  /** Every reference counted for one of ids comes from a variable that goes with them. */
  ghost predicate OnlyFromGone(h: Heap, ids: set<nat>) {
    forall id :: id in ids && id != 0 && id in h ==> h[id].count == Refs(Restrict(h, GoingWith(h, ids)))[id]
  }

  /** What still refers to a freed variable comes from what stays. */
  lemma StillReferred(h: Heap, roots: multiset<nat>, ids: set<nat>, g: Heap, x: nat)
    requires Counted(h, roots) && FreedTo(h, ids, g) && x in h && x !in g
    ensures var gone := h.Keys - g.Keys;
            && (x !in roots && x !in Refs(g) <==> h[x].count == Refs(Restrict(h, gone))[x])
            && (x !in ids ==> h[x].count == Refs(Restrict(h, gone))[x])
  {
    var gone := h.Keys - g.Keys;
    assert forall y :: y in g ==> Survives(h, multiset{}, gone, g, y);
    RefsLeft(h, gone, g);
    assert h[x].count == roots[x] + Refs(h)[x];
    assert x !in ids ==> Spent(h, multiset{}, gone, x);
  }

  /** Freeing leaves nothing dangling exactly when nothing that stays refers to what is freed. */
  lemma FreedClean(h: Heap, roots: multiset<nat>, ids: set<nat>, g: Heap)
    requires Counted(h, roots) && NoDangling(h, roots) && FreedTo(h, ids, g)
    ensures NoDangling(g, roots) <==> OnlyFromGone(h, ids)
  {
    var gone := h.Keys - g.Keys;
    FreedLeast(h, ids, g);
    if OnlyFromGone(h, ids) {
      FreedRefs(h, gone, g);
      forall x | x != 0 && (x in roots || x in Refs(g)) ensures x in g {
        assert x in h;
        if x !in g {
          StillReferred(h, roots, ids, g, x);
        }
      }
    } else {
      var id :| id in ids && id != 0 && id in h && h[id].count != Refs(Restrict(h, gone))[id];
      assert id in gone;
      StillReferred(h, roots, ids, g, id);
    }
  }

  lemma FreedRefs(h: Heap, gone: set<nat>, g: Heap)
    requires gone == h.Keys - g.Keys && g.Keys <= h.Keys && forall x :: x in g ==> Survives(h, multiset{}, gone, g, x)
    ensures Refs(g) <= Refs(h)
  {
    assert forall y :: y in g ==> Survives(h, multiset{}, gone, g, y);
    RefsLeft(h, gone, g);
  }

  // ----- what a release leaves alone -----

  /** A variable that is neither released nor referred to by one that is freed is not touched. */
  lemma {:induction false} ReleaseUntouched(h: Heap, p: seq<nat>, x: nat)
    requires x in h && x !in p && forall y :: y in h && y !in Release(h, p) ==> x !in h[y].refs
    ensures x in Release(h, p) && Release(h, p)[x] == h[x]
    decreases |h|, |p|
  {
    if p != [] {
      var id := p[0];
      if id == 0 || id !in h {
        ReleaseUntouched(h, p[1..], x);
      } else if Lowered(h[id].count) == 0 && h[id].gc {
        assert (h - {id}).Keys == h.Keys - {id};
        ReleaseShrinks(h - {id}, h[id].refs + p[1..]);
        ReleaseUntouched(h - {id}, h[id].refs + p[1..], x);
      } else {
        var h2 := h[id := h[id].(count := Lowered(h[id].count))];
        assert h2.Keys == h.Keys;
        ReleaseUntouched(h2, p[1..], x);
      }
    }
  }

  /** A count is lowered by one; at zero it becomes the largest machine word. */
  lemma LoweredWraps(count: nat)
    requires count <= SIZE_MAX
    ensures Lowered(count) <= SIZE_MAX && (Lowered(count) + 1) % (SIZE_MAX + 1) == count
  {
  }
}
