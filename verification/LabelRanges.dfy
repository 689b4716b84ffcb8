/** Labels and loops: the range a loop, case or switch carries says which labels are inside it. */
module LabelRanges {
  import opened SourceTree
  import opened LoweredTree
  import opened TreeLowering

  // ----- the labels of a tree, in order -----

  function LabelsIn(t: LStmt): (r: seq<string>)
    decreases t, 1
  {
    match t
    case IF(_, t1) => LabelsIn(t1)
    case IF_ELSE(_, t1, t2) => LabelsIn(t1) + LabelsIn(t2)
    case WHILE(_, _, _, t1) => LabelsIn(t1)
    case REPEAT(_, _, _, body) => LabelsInAll(body)
    case FOR(_, _, _, _, _, body) => LabelsInAll(body)
    case FOR_STEP(_, _, _, _, _, _, body) => LabelsInAll(body)
    case FOREACH(_, _, _, _, body) => LabelsInAll(body)
    case FOREACH_INDEX(_, _, _, _, _, body) => LabelsInAll(body)
    case CASE(_, _, _, branches) => LabelsInBranches(branches)
    case SWITCH(_, _, _, branches) => LabelsInBranches(branches)
    case BLOCK(body) => LabelsInAll(body)
    case LABEL(name) => [name]
    case _ => []
  }

  function LabelsInAll(ts: LStmts): (r: seq<string>)
    decreases ts, 1
  {
    if ts.LNil? then [] else LabelsIn(ts.s) + LabelsInAll(ts.rest)
  }

  function LabelsInBranches(bs: LBranches): (r: seq<string>)
    decreases bs, 1
  {
    if bs.LNoBranch? then [] else LabelsInAll(bs.body) + LabelsInBranches(bs.next)
  }

  predicate HasRange(t: LStmt) {
    t.WHILE? || t.REPEAT? || t.FOR? || t.FOR_STEP? || t.FOREACH? || t.FOREACH_INDEX? || t.CASE? || t.SWITCH?
  }

  /** Every range in t, whose first label has number n, covers the labels inside its node. */
  ghost predicate Ranged(t: LStmt, n: nat)
    decreases t, 1
  {
    && (HasRange(t) ==> t.lo == n && t.hi == n + |LabelsIn(t)|)
    && match t
       case IF(_, t1) => Ranged(t1, n)
       case IF_ELSE(_, t1, t2) => Ranged(t1, n) && Ranged(t2, n + |LabelsIn(t1)|)
       case WHILE(_, _, _, t1) => Ranged(t1, n)
       case REPEAT(_, _, _, body) => RangedAll(body, n)
       case FOR(_, _, _, _, _, body) => RangedAll(body, n)
       case FOR_STEP(_, _, _, _, _, _, body) => RangedAll(body, n)
       case FOREACH(_, _, _, _, body) => RangedAll(body, n)
       case FOREACH_INDEX(_, _, _, _, _, body) => RangedAll(body, n)
       case CASE(_, _, _, branches) => RangedBranches(branches, n)
       case SWITCH(_, _, _, branches) => RangedBranches(branches, n)
       case BLOCK(body) => RangedAll(body, n)
       case _ => true
  }

  ghost predicate RangedAll(ts: LStmts, n: nat)
    decreases ts, 1
  {
    ts.LCons? ==> Ranged(ts.s, n) && RangedAll(ts.rest, n + |LabelsIn(ts.s)|)
  }

  ghost predicate RangedBranches(bs: LBranches, n: nat)
    decreases bs, 1
  {
    !bs.LNoBranch? ==> RangedAll(bs.body, n) && RangedBranches(bs.next, n + |LabelsInAll(bs.body)|)
  }

  ghost predicate Distinct(names: seq<string>) { forall i, j :: 0 <= i < j < |names| ==> names[i] != names[j] }

  /** The labels after lowering are those before, followed by the tree's, none twice; every range fits. */
  ghost predicate Numbered(before: seq<string>, after: seq<string>, inside: seq<string>) {
    after == before + inside && (Distinct(before) ==> Distinct(after))
  }

  lemma NumberedThen(a: seq<string>, b: seq<string>, c: seq<string>, x: seq<string>, y: seq<string>)
    requires Numbered(a, b, x) && Numbered(b, c, y)
    ensures Numbered(a, c, x + y) && |b| == |a| + |x|
  {
  }

  lemma WrappedRanged(t: LStmt, n: nat)
    requires Ranged(t, n)
    ensures Ranged(Wrapped(t), n) && LabelsIn(Wrapped(t)) == LabelsIn(t)
  {
    if !t.BLOCK? {
      assert LabelsInAll(LCons(t, LNil)) == LabelsIn(t) + [] == LabelsIn(t);
    }
  }

  /** Lowering numbers the labels in order and gives every node the range of its own. */
  lemma {:induction false} LowerNumbers(sem: Sem, t: Stmt, labels: seq<string>)
    requires LowerStmt(sem, t, labels).Lowered?
    ensures Numbered(labels, LowerStmt(sem, t, labels).labels, LabelsIn(LowerStmt(sem, t, labels).tree))
    ensures Ranged(LowerStmt(sem, t, labels).tree, |labels|)
    decreases t, 1
  {
    if t.SIf? {
      LowerNumbers(sem, t.s, labels);
    } else if t.SIfElse? {
      IfElseNumbers(sem, t, labels);
    } else if t.SWhile? {
      LowerNumbers(sem, t.s, labels);
    } else if t.SRepeat? || t.SFor? || t.SForeach? || t.SBlock? {
      LowerAllNumbers(sem, t.body, labels);
    } else if t.SCase? || t.SSwitch? {
      LowerBranchNumbers(sem, t.branches, labels);
    } else {
      PlainNumbers(sem, t, labels);
    }
  }

  lemma PlainNumbers(sem: Sem, t: Stmt, labels: seq<string>)
    requires LowerStmt(sem, t, labels).Lowered?
    requires t.SAssign? || t.SOpAssign? || t.SInc? || t.SLabel? || t.SBreak? || t.SContinue?
    ensures Numbered(labels, LowerStmt(sem, t, labels).labels, LabelsIn(LowerStmt(sem, t, labels).tree))
    ensures Ranged(LowerStmt(sem, t, labels).tree, |labels|)
  {
    assert LabelsInAll(LNil) == [];
  }

  lemma IfElseRanged(c: LExpr, t: LStmt, u: LStmt, n: nat)
    requires Ranged(t, n) && Ranged(u, n + |LabelsIn(t)|)
    ensures Ranged(IF_ELSE(c, Wrapped(t), u), n) && LabelsIn(IF_ELSE(c, Wrapped(t), u)) == LabelsIn(t) + LabelsIn(u)
  {
    WrappedRanged(t, n);
  }

  lemma {:induction false} IfElseNumbers(sem: Sem, t: Stmt, labels: seq<string>)
    requires t.SIfElse? && LowerStmt(sem, t, labels).Lowered?
    ensures Numbered(labels, LowerStmt(sem, t, labels).labels, LabelsIn(LowerStmt(sem, t, labels).tree))
    ensures Ranged(LowerStmt(sem, t, labels).tree, |labels|)
    decreases t, 0
  {
    var r := LowerStmt(sem, t.s, labels);
    var r2 := LowerStmt(sem, t.t, r.labels);
    LowerNumbers(sem, t.s, labels);
    LowerNumbers(sem, t.t, r.labels);
    NumberedThen(labels, r.labels, r2.labels, LabelsIn(r.tree), LabelsIn(r2.tree));
    IfElseRanged(LowerExpr(sem, t.c).value, r.tree, r2.tree, |labels|);
  }

  lemma {:induction false} LowerAllNumbers(sem: Sem, ts: Stmts, labels: seq<string>)
    requires LowerStmts(sem, ts, labels).Lowered?
    ensures Numbered(labels, LowerStmts(sem, ts, labels).labels, LabelsInAll(LowerStmts(sem, ts, labels).tree))
    ensures RangedAll(LowerStmts(sem, ts, labels).tree, |labels|)
    decreases ts, 1
  {
    if ts.Cons? {
      var r := LowerStmt(sem, ts.s, labels);
      var r2 := LowerStmts(sem, ts.rest, r.labels);
      LowerNumbers(sem, ts.s, labels);
      LowerAllNumbers(sem, ts.rest, r.labels);
      NumberedThen(labels, r.labels, r2.labels, LabelsIn(r.tree), LabelsInAll(r2.tree));
    }
  }

  lemma {:induction false} LowerBranchNumbers(sem: Sem, bs: Branches, labels: seq<string>)
    requires LowerBranches(sem, bs, labels).Lowered?
    ensures Numbered(labels, LowerBranches(sem, bs, labels).labels,
                     LabelsInBranches(LowerBranches(sem, bs, labels).tree))
    ensures RangedBranches(LowerBranches(sem, bs, labels).tree, |labels|)
    decreases bs, 1
  {
    if !bs.NoBranch? {
      var r := LowerStmts(sem, bs.body, labels);
      var r2 := LowerBranches(sem, bs.next, r.labels);
      LowerAllNumbers(sem, bs.body, labels);
      LowerBranchNumbers(sem, bs.next, r.labels);
      NumberedThen(labels, r.labels, r2.labels, LabelsInAll(r.tree), LabelsInBranches(r2.tree));
    }
  }

  // ----- nodes in a tree -----

  /** u is t or a statement inside it. */
  predicate Occurs(u: LStmt, t: LStmt)
    decreases t, 1
  {
    u == t || match t
      case IF(_, t1) => Occurs(u, t1)
      case IF_ELSE(_, t1, t2) => Occurs(u, t1) || Occurs(u, t2)
      case WHILE(_, _, _, t1) => Occurs(u, t1)
      case REPEAT(_, _, _, body) => OccursIn(u, body)
      case FOR(_, _, _, _, _, body) => OccursIn(u, body)
      case FOR_STEP(_, _, _, _, _, _, body) => OccursIn(u, body)
      case FOREACH(_, _, _, _, body) => OccursIn(u, body)
      case FOREACH_INDEX(_, _, _, _, _, body) => OccursIn(u, body)
      case CASE(_, _, _, branches) => OccursInBranch(u, branches)
      case SWITCH(_, _, _, branches) => OccursInBranch(u, branches)
      case BLOCK(body) => OccursIn(u, body)
      case _ => false
  }

  predicate OccursIn(u: LStmt, ts: LStmts)
    decreases ts, 1
  {
    ts.LCons? && (Occurs(u, ts.s) || OccursIn(u, ts.rest))
  }

  predicate OccursInBranch(u: LStmt, bs: LBranches)
    decreases bs, 1
  {
    !bs.LNoBranch? && (OccursIn(u, bs.body) || OccursInBranch(u, bs.next))
  }

  /** Names from number k on are those of u. */
  ghost predicate Slice(all: seq<string>, k: nat, part: seq<string>) {
    k + |part| <= |all| && all[k..k + |part|] == part
  }

  lemma SliceLeft(a: seq<string>, b: seq<string>, k: nat, part: seq<string>)
    requires Slice(a, k, part)
    ensures Slice(a + b, k, part)
  {
    assert (a + b)[k..k + |part|] == a[k..k + |part|];
  }

  lemma SliceRight(a: seq<string>, b: seq<string>, k: nat, part: seq<string>)
    requires Slice(b, k, part)
    ensures Slice(a + b, |a| + k, part)
  {
    assert (a + b)[|a| + k..|a| + k + |part|] == b[k..k + |part|];
  }

  /** A node inside a well ranged tree: its labels are a piece of the tree's. */
  lemma {:induction false} OccursAt(u: LStmt, t: LStmt, n: nat) returns (k: nat)
    requires Occurs(u, t) && Ranged(t, n)
    ensures Ranged(u, n + k) && Slice(LabelsIn(t), k, LabelsIn(u))
    decreases t, 1
  {
    if u == t {
      k := 0;
    } else if t.IF? || t.WHILE? {
      k := OccursAt(u, t.s, n);
    } else if t.IF_ELSE? {
      k := OccursAtEither(u, t, n);
    } else if t.CASE? || t.SWITCH? {
      k := OccursAtBranch(u, t.branches, n);
    } else {
      k := OccursAtIn(u, t.body, n);
    }
  }

  lemma {:induction false} OccursAtEither(u: LStmt, t: LStmt, n: nat) returns (k: nat)
    requires t.IF_ELSE? && (Occurs(u, t.s) || Occurs(u, t.t)) && Ranged(t, n)
    ensures Ranged(u, n + k) && Slice(LabelsIn(t), k, LabelsIn(u))
    decreases t, 0
  {
    if Occurs(u, t.s) {
      k := OccursAt(u, t.s, n);
      SliceLeft(LabelsIn(t.s), LabelsIn(t.t), k, LabelsIn(u));
    } else {
      k := OccursAt(u, t.t, n + |LabelsIn(t.s)|);
      SliceRight(LabelsIn(t.s), LabelsIn(t.t), k, LabelsIn(u));
      k := |LabelsIn(t.s)| + k;
    }
  }

  lemma {:induction false} OccursAtIn(u: LStmt, ts: LStmts, n: nat) returns (k: nat)
    requires OccursIn(u, ts) && RangedAll(ts, n)
    ensures Ranged(u, n + k) && Slice(LabelsInAll(ts), k, LabelsIn(u))
    decreases ts, 1
  {
    if Occurs(u, ts.s) {
      k := OccursAt(u, ts.s, n);
      SliceLeft(LabelsIn(ts.s), LabelsInAll(ts.rest), k, LabelsIn(u));
    } else {
      k := OccursAtIn(u, ts.rest, n + |LabelsIn(ts.s)|);
      SliceRight(LabelsIn(ts.s), LabelsInAll(ts.rest), k, LabelsIn(u));
      k := |LabelsIn(ts.s)| + k;
    }
  }

  lemma {:induction false} OccursAtBranch(u: LStmt, bs: LBranches, n: nat) returns (k: nat)
    requires OccursInBranch(u, bs) && RangedBranches(bs, n)
    ensures Ranged(u, n + k) && Slice(LabelsInBranches(bs), k, LabelsIn(u))
    decreases bs, 1
  {
    if OccursIn(u, bs.body) {
      k := OccursAtIn(u, bs.body, n);
      SliceLeft(LabelsInAll(bs.body), LabelsInBranches(bs.next), k, LabelsIn(u));
    } else {
      k := OccursAtBranch(u, bs.next, n + |LabelsInAll(bs.body)|);
      SliceRight(LabelsInAll(bs.body), LabelsInBranches(bs.next), k, LabelsIn(u));
      k := |LabelsInAll(bs.body)| + k;
    }
  }

  /** Without repetitions, the names in a piece are those whose numbers are. */
  lemma SliceIndex(all: seq<string>, k: nat, part: seq<string>, ix: nat)
    requires Distinct(all) && Slice(all, k, part) && ix < |all|
    ensures all[ix] in part <==> k <= ix < k + |part|
  {
    if all[ix] in part {
      var j :| 0 <= j < |part| && part[j] == all[ix];
      assert all[k..k + |part|][j] == all[k + j];
    }
  }

  /** Label number ix is inside a loop, case or switch of a compiled routine exactly when its
      number is in the node's range. */
  lemma {:induction false} InsideIffInRange(sem: Sem, ts: Stmts, u: LStmt, ix: nat)
    requires LowerStmts(sem, ts, []).Lowered? && OccursIn(u, LowerStmts(sem, ts, []).tree) && HasRange(u)
    requires ix < |LowerStmts(sem, ts, []).labels|
    ensures LowerStmts(sem, ts, []).labels[ix] in LabelsIn(u) <==> u.lo <= ix < u.hi
  {
    var r := LowerStmts(sem, ts, []);
    LowerAllNumbers(sem, ts, []);
    assert [] + LabelsInAll(r.tree) == LabelsInAll(r.tree);
    assert Distinct(r.labels);
    var k := OccursAtIn(u, r.tree, 0);
    SliceIndex(r.labels, k, LabelsIn(u), ix);
  }

  // ----- nesting -----

  ghost predicate Within(u: LStmt, v: LStmt)
    requires HasRange(u) && HasRange(v)
  {
    v.lo <= u.lo && u.hi <= v.hi
  }

  ghost predicate Apart(u: LStmt, v: LStmt)
    requires HasRange(u) && HasRange(v)
  {
    u.hi <= v.lo || v.hi <= u.lo
  }

  /** A node's range lies in that of a node around it. */
  lemma {:induction false} InnerWithin(sem: Sem, ts: Stmts, u: LStmt, v: LStmt)
    requires LowerStmts(sem, ts, []).Lowered? && OccursIn(v, LowerStmts(sem, ts, []).tree) && Occurs(u, v)
        && HasRange(u) && HasRange(v)
    ensures Within(u, v)
  {
    LowerAllNumbers(sem, ts, []);
    var k := OccursAtIn(v, LowerStmts(sem, ts, []).tree, 0);
    var j := OccursAt(u, v, k);
  }

  lemma {:induction false} RangeIn(u: LStmt, t: LStmt, n: nat)
    requires Occurs(u, t) && HasRange(u) && Ranged(t, n)
    ensures n <= u.lo <= u.hi <= n + |LabelsIn(t)|
  {
    var k := OccursAt(u, t, n);
  }

  lemma {:induction false} RangeInAll(u: LStmt, ts: LStmts, n: nat)
    requires OccursIn(u, ts) && HasRange(u) && RangedAll(ts, n)
    ensures n <= u.lo <= u.hi <= n + |LabelsInAll(ts)|
  {
    var k := OccursAtIn(u, ts, n);
  }

  lemma {:induction false} RangeInBranches(u: LStmt, bs: LBranches, n: nat)
    requires OccursInBranch(u, bs) && HasRange(u) && RangedBranches(bs, n)
    ensures n <= u.lo <= u.hi <= n + |LabelsInBranches(bs)|
  {
    var k := OccursAtBranch(u, bs, n);
  }

  /** Two nodes of a tree, neither inside the other, have ranges without common labels. */
  lemma {:induction false} SiblingsApart(u: LStmt, v: LStmt, t: LStmt, n: nat)
    requires Occurs(u, t) && Occurs(v, t) && HasRange(u) && HasRange(v) && Ranged(t, n) && !Occurs(u, v)
        && !Occurs(v, u)
    ensures Apart(u, v)
    decreases t, 1
  {
    if t.IF? || t.WHILE? {
      SiblingsApart(u, v, t.s, n);
    } else if t.IF_ELSE? {
      BranchesApart(u, v, t, n);
    } else if t.CASE? || t.SWITCH? {
      SiblingsApartBranch(u, v, t.branches, n);
    } else {
      SiblingsApartIn(u, v, t.body, n);
    }
  }

  lemma {:induction false} BranchesApart(u: LStmt, v: LStmt, t: LStmt, n: nat)
    requires t.IF_ELSE? && (Occurs(u, t.s) || Occurs(u, t.t)) && (Occurs(v, t.s) || Occurs(v, t.t)) && HasRange(u)
        && HasRange(v)
    requires Ranged(t, n) && !Occurs(u, v) && !Occurs(v, u)
    ensures Apart(u, v)
    decreases t, 0
  {
    var m := n + |LabelsIn(t.s)|;
    if Occurs(u, t.s) && Occurs(v, t.s) {
      SiblingsApart(u, v, t.s, n);
    } else if Occurs(u, t.t) && Occurs(v, t.t) {
      SiblingsApart(u, v, t.t, m);
    } else if Occurs(u, t.s) {
      RangeIn(u, t.s, n);
      RangeIn(v, t.t, m);
    } else {
      RangeIn(v, t.s, n);
      RangeIn(u, t.t, m);
    }
  }

  lemma {:induction false} SiblingsApartIn(u: LStmt, v: LStmt, ts: LStmts, n: nat)
    requires OccursIn(u, ts) && OccursIn(v, ts) && HasRange(u) && HasRange(v) && RangedAll(ts, n) && !Occurs(u, v)
        && !Occurs(v, u)
    ensures Apart(u, v)
    decreases ts, 1
  {
    var m := n + |LabelsIn(ts.s)|;
    if Occurs(u, ts.s) && Occurs(v, ts.s) {
      SiblingsApart(u, v, ts.s, n);
    } else if OccursIn(u, ts.rest) && OccursIn(v, ts.rest) {
      SiblingsApartIn(u, v, ts.rest, m);
    } else if Occurs(u, ts.s) {
      RangeIn(u, ts.s, n);
      RangeInAll(v, ts.rest, m);
    } else {
      RangeIn(v, ts.s, n);
      RangeInAll(u, ts.rest, m);
    }
  }

  lemma {:induction false} SiblingsApartBranch(u: LStmt, v: LStmt, bs: LBranches, n: nat)
    requires OccursInBranch(u, bs) && OccursInBranch(v, bs) && HasRange(u) && HasRange(v) && RangedBranches(bs, n)
    requires !Occurs(u, v) && !Occurs(v, u)
    ensures Apart(u, v)
    decreases bs, 1
  {
    var m := n + |LabelsInAll(bs.body)|;
    if OccursIn(u, bs.body) && OccursIn(v, bs.body) {
      SiblingsApartIn(u, v, bs.body, n);
    } else if OccursInBranch(u, bs.next) && OccursInBranch(v, bs.next) {
      SiblingsApartBranch(u, v, bs.next, m);
    } else if OccursIn(u, bs.body) {
      RangeInAll(u, bs.body, n);
      RangeInBranches(v, bs.next, m);
    } else {
      RangeInAll(v, bs.body, n);
      RangeInBranches(u, bs.next, m);
    }
  }

  /** In a compiled routine the ranges of two nodes are nested when the nodes are, and else apart. */
  lemma RangesNest(sem: Sem, ts: Stmts, u: LStmt, v: LStmt)
    requires LowerStmts(sem, ts, []).Lowered? && HasRange(u) && HasRange(v)
    requires OccursIn(u, LowerStmts(sem, ts, []).tree) && OccursIn(v, LowerStmts(sem, ts, []).tree)
    ensures Occurs(u, v) ==> Within(u, v)
    ensures !Occurs(u, v) && !Occurs(v, u) ==> Apart(u, v)
  {
    LowerAllNumbers(sem, ts, []);
    if Occurs(u, v) {
      InnerWithin(sem, ts, u, v);
    } else if !Occurs(v, u) {
      SiblingsApartIn(u, v, LowerStmts(sem, ts, []).tree, 0);
    }
  }
}
