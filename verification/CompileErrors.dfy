/** Which source trees compile: those whose labels are all different and which assign into
no assignment into an element. */
module CompileErrors {
  import opened SourceTree
  import opened LoweredTree
  import opened TreeLowering
  import opened EvaluationOrder
  import opened LoweringMeaning
  import opened LabelRanges

  // ----- targets -----

  /** As a target e is a whole variable. */
  predicate NamesVariable(sem: Sem, e: Expr) {
    match e
    case Ref(_) => true
    case Paren(a) => NamesVariable(sem, a)
    case Assign(l, r) => IsSelf(sem, l, r)
    case _ => false
  }

  /** e is an assignment to something else than a variable. */
  predicate IntoElement(sem: Sem, e: Expr) {
    match e
    case Paren(a) => IntoElement(sem, a)
    case Assign(l, r) => !NamesVariable(sem, l)
    case OpAssign(_, l, r) => !NamesVariable(sem, l)
    case _ => false
  }

  /** No assignment in e assigns into an assignment to something else than a variable. */
  predicate Allowed(sem: Sem, e: Expr) {
    match e
    case Elem(_, index) => Allowed(sem, index)
    case Paren(a) => Allowed(sem, a)
    case Minus(a) => Allowed(sem, a)
    case Binary(_, a, b) => Allowed(sem, a) && Allowed(sem, b)
    case Cond(c, a, b) => Allowed(sem, c) && Allowed(sem, a) && Allowed(sem, b)
    case Assign(l, r) => Allowed(sem, l) && Allowed(sem, r) && !IntoElement(sem, l)
    case OpAssign(_, l, r) => Allowed(sem, l) && Allowed(sem, r) && !IntoElement(sem, l)
    case _ => true
  }

  lemma SelfTarget(sem: Sem, l: Expr, r: Expr)
    requires IsSelf(sem, l, r)
    ensures LowerExpr(sem, Assign(l, r)) == LowerTarget(sem, l) && LowerTarget(sem, l).value.LVar?
  {
  }

  lemma {:induction false} NamedVariable(sem: Sem, e: Expr)
    requires LowerTarget(sem, e).Some?
    ensures LowerTarget(sem, e).value.LVar? <==> NamesVariable(sem, e)
    decreases e
  {
    match e
    case Paren(a) =>
      PeeledTarget(sem, a);
      NamedVariable(sem, a);
    case Assign(l, r) =>
      if IsSelf(sem, l, r) {
        SelfTarget(sem, l, r);
      }
    case _ =>
  }

  lemma {:induction false} RefusedTarget(sem: Sem, e: Expr)
    requires LowerExpr(sem, e).Some?
    ensures LowerTarget(sem, e).None? <==> IntoElement(sem, e)
    decreases e
  {
    match e
    case Paren(a) =>
      PeeledTarget(sem, a);
      RefusedTarget(sem, a);
    case Assign(l, r) =>
      NamedVariable(sem, l);
      if IsSelf(sem, l, r) {
        SelfTarget(sem, l, r);
      }
    case OpAssign(_, l, r) => NamedVariable(sem, l);
    case _ =>
  }

  /** An expression compiles exactly when it assigns into no assignment to something else than a variable. */
  lemma {:induction false} ExprCompiles(sem: Sem, e: Expr)
    ensures LowerExpr(sem, e).Some? <==> Allowed(sem, e)
    decreases e, 1
  {
    match e
    case Elem(_, index) => ExprCompiles(sem, index);
    case Paren(a) => ExprCompiles(sem, a);
    case Minus(a) => ExprCompiles(sem, a);
    case Binary(_, a, b) =>
      ExprCompiles(sem, a);
      ExprCompiles(sem, b);
    case Cond(c, a, b) =>
      ExprCompiles(sem, c);
      ExprCompiles(sem, a);
      ExprCompiles(sem, b);
    case Assign(l, r) => SidesCompile(sem, e, l, r);
    case OpAssign(_, l, r) => SidesCompile(sem, e, l, r);
    case _ =>
  }

  lemma {:induction false} SidesCompile(sem: Sem, e: Expr, l: Expr, r: Expr)
    requires (e.Assign? || e.OpAssign?) && e.l == l && e.r == r
    ensures LowerTarget(sem, l).Some? && LowerExpr(sem, r).Some?
            <==> Allowed(sem, l) && Allowed(sem, r) && !IntoElement(sem, l)
    decreases e, 0
  {
    ExprCompiles(sem, l);
    ExprCompiles(sem, r);
    if LowerExpr(sem, l).Some? {
      RefusedTarget(sem, l);
    }
  }

  // ----- statements -----

  predicate AllowedStmt(sem: Sem, t: Stmt) {
    match t
    case SAssign(l, r) => Allowed(sem, Assign(l, r))
    case SOpAssign(op, l, r) => Allowed(sem, OpAssign(op, l, r))
    case SInc(e) => Allowed(sem, e)
    case SIf(c, t1) => Allowed(sem, c) && AllowedStmt(sem, t1)
    case SIfElse(c, t1, t2) => Allowed(sem, c) && AllowedStmt(sem, t1) && AllowedStmt(sem, t2)
    case SWhile(c, t1) => Allowed(sem, c) && AllowedStmt(sem, t1)
    case SRepeat(body, until) => AllowedStmts(sem, body) && Allowed(sem, until)
    case SFor(_, a, b, step, body) =>
      Allowed(sem, a) && Allowed(sem, b) && (step.Some? ==> Allowed(sem, step.value)) && AllowedStmts(sem, body)
    case SForeach(_, e, _, body) => Allowed(sem, e) && AllowedStmts(sem, body)
    case SCase(e, branches) => Allowed(sem, e) && AllowedBranches(sem, branches)
    case SSwitch(e, branches) => Allowed(sem, e) && AllowedBranches(sem, branches)
    case SBlock(body) => AllowedStmts(sem, body)
    case _ => true
  }

  predicate AllowedStmts(sem: Sem, ts: Stmts) { ts.Cons? ==> AllowedStmt(sem, ts.s) && AllowedStmts(sem, ts.rest) }

  predicate AllowedBranches(sem: Sem, bs: Branches) {
    !bs.NoBranch? ==>
      (bs.Branch? ==> Allowed(sem, bs.test)) && AllowedStmts(sem, bs.body) && AllowedBranches(sem, bs.next)
  }

  /** The labels a statement defines, in the order of the text. */
  function Defined(t: Stmt): (r: seq<string>) {
    match t
    case SIf(_, t1) => Defined(t1)
    case SIfElse(_, t1, t2) => Defined(t1) + Defined(t2)
    case SWhile(_, t1) => Defined(t1)
    case SRepeat(body, _) => DefinedAll(body)
    case SFor(_, _, _, _, body) => DefinedAll(body)
    case SForeach(_, _, _, body) => DefinedAll(body)
    case SCase(_, branches) => DefinedBranches(branches)
    case SSwitch(_, branches) => DefinedBranches(branches)
    case SBlock(body) => DefinedAll(body)
    case SLabel(name) => [name]
    case _ => []
  }

  function DefinedAll(ts: Stmts): (r: seq<string>) { if ts.Nil? then [] else Defined(ts.s) + DefinedAll(ts.rest) }

  function DefinedBranches(bs: Branches): (r: seq<string>) {
    if bs.NoBranch? then [] else DefinedAll(bs.body) + DefinedBranches(bs.next)
  }

  /** r is a compile error exactly if something is not allowed or a label is there twice; otherwise the
      labels found are added to those before. */
  ghost predicate CompilesTo<T>(r: Lowered<T>, allowed: bool, labels: seq<string>, found: seq<string>) {
    && (r.Lowered? <==> allowed && Distinct(labels + found))
    && (r.Lowered? ==> r.labels == labels + found)
  }

  lemma {:induction false} StmtCompiles(sem: Sem, t: Stmt, labels: seq<string>)
    requires Distinct(labels)
    ensures CompilesTo(LowerStmt(sem, t, labels), AllowedStmt(sem, t), labels, Defined(t))
    decreases t, 1
  {
    assert labels + [] == labels;
    if t.SFor? || t.SForeach? || t.SRepeat? || t.SBlock? {
      BodyCompiles(sem, t, labels);
    } else if t.SCase? || t.SSwitch? {
      ExprCompiles(sem, t.e);
      BranchesCompile(sem, t.branches, labels);
    } else if t.SIf? || t.SWhile? {
      ExprCompiles(sem, t.c);
      StmtCompiles(sem, t.s, labels);
    } else if t.SIfElse? {
      IfElseCompiles(sem, t.c, t.s, t.t, labels);
    } else if t.SAssign? || t.SOpAssign? {
      SidesCompile(sem, Assign(t.l, t.r), t.l, t.r);
    } else if t.SInc? {
      ExprCompiles(sem, t.e);
    } else if t.SLabel? {
      OneMoreLabel(labels, t.name);
    }
  }

  lemma OneMoreLabel(labels: seq<string>, name: string)
    requires Distinct(labels)
    ensures Distinct(labels + [name]) <==> name !in labels
  {
    if name in labels {
      var i :| 0 <= i < |labels| && labels[i] == name;
      assert (labels + [name])[i] == (labels + [name])[|labels|];
    }
  }

  lemma DistinctPrefix(a: seq<string>, b: seq<string>, c: seq<string>)
    ensures a + (b + c) == (a + b) + c
    ensures Distinct(a + (b + c)) ==> Distinct(a + b)
  {
    assert a + (b + c) == (a + b) + c;
    assert forall i :: 0 <= i < |a + b| ==> (a + b)[i] == ((a + b) + c)[i];
  }

  lemma {:induction false} IfElseCompiles(sem: Sem, c: Expr, t1: Stmt, t2: Stmt, labels: seq<string>)
    requires Distinct(labels)
    ensures CompilesTo(LowerStmt(sem, SIfElse(c, t1, t2), labels), AllowedStmt(sem, SIfElse(c, t1, t2)), labels,
                       Defined(t1) + Defined(t2))
    decreases SIfElse(c, t1, t2), 0
  {
    ExprCompiles(sem, c);
    StmtCompiles(sem, t1, labels);
    DistinctPrefix(labels, Defined(t1), Defined(t2));
    var r := LowerStmt(sem, t1, labels);
    if r.Lowered? {
      StmtCompiles(sem, t2, r.labels);
    }
  }

  lemma {:induction false} BodyCompiles(sem: Sem, t: Stmt, labels: seq<string>)
    requires t.SFor? || t.SForeach? || t.SRepeat? || t.SBlock?
    requires Distinct(labels)
    ensures CompilesTo(LowerStmt(sem, t, labels), AllowedStmt(sem, t), labels, Defined(t))
    decreases t, 0
  {
    StmtsCompile(sem, t.body, labels);
    match t
    case SFor(_, a, b, step, _) =>
      ExprCompiles(sem, a);
      ExprCompiles(sem, b);
      if step.Some? {
        ExprCompiles(sem, step.value);
      }
    case SForeach(_, e, _, _) => ExprCompiles(sem, e);
    case SRepeat(_, until) => ExprCompiles(sem, until);
    case SBlock(_) =>
  }

  /** Statements compile exactly when no target is refused and no label is there twice. */
  lemma {:induction false} StmtsCompile(sem: Sem, ts: Stmts, labels: seq<string>)
    requires Distinct(labels)
    ensures CompilesTo(LowerStmts(sem, ts, labels), AllowedStmts(sem, ts), labels, DefinedAll(ts))
    decreases ts, 1
  {
    if ts.Nil? {
      assert labels + [] == labels;
    } else {
      StmtCompiles(sem, ts.s, labels);
      DistinctPrefix(labels, Defined(ts.s), DefinedAll(ts.rest));
      var r := LowerStmt(sem, ts.s, labels);
      if r.Lowered? {
        StmtsCompile(sem, ts.rest, r.labels);
      }
    }
  }

  lemma {:induction false} BranchesCompile(sem: Sem, bs: Branches, labels: seq<string>)
    requires Distinct(labels)
    ensures CompilesTo(LowerBranches(sem, bs, labels), AllowedBranches(sem, bs), labels, DefinedBranches(bs))
    decreases bs, 1
  {
    if bs.NoBranch? {
      assert labels + [] == labels;
    } else {
      StmtsCompile(sem, bs.body, labels);
      DistinctPrefix(labels, DefinedAll(bs.body), DefinedBranches(bs.next));
      if bs.Branch? {
        ExprCompiles(sem, bs.test);
      }
      var r := LowerStmts(sem, bs.body, labels);
      if r.Lowered? {
        BranchesCompile(sem, bs.next, r.labels);
      }
    }
  }
}
