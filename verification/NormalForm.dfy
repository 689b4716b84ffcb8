/** The shape of lowered trees: what the interpreter relies on and what lowering has removed. */
module NormalForm {
  import opened SourceTree
  import opened LoweredTree
  import opened TreeLowering
  import opened EvaluationOrder
  import opened LoweringMeaning

  /** No minus before a constant, no double parentheses, no variable assigned to itself; only whole variables are
      replaced, and nothing else than a variable is stored into without replacing. */
  predicate Tidy(e: LExpr) {
    match e
    case LElem(_, index) => Tidy(index)
    case LParen(a) => !a.LParen? && Tidy(a)
    case LMinus(a) => !a.LConst? && Tidy(a)
    case LBinary(_, a, b) => Tidy(a) && Tidy(b)
    case LCond(c, a, b) => Tidy(c) && Tidy(a) && Tidy(b)
    case ASSIGN(r, l) => !l.LVar? && !l.LParen? && !l.ASSIGN? && Tidy(r) && Tidy(l)
    case ASSIGN_REPLACE(r, l) => l.LVar? && !(r.LVar? && r.x.place == l.x.place) && Tidy(r)
    case _ => true
  }

  predicate IsAssignment(e: LExpr) { e.ASSIGN? || e.ASSIGN_REPLACE? }

  /** The first branch of an if with else is a block: the interpreter goes on at its first statement. */
  predicate TidyStmt(t: LStmt) {
    match t
    case LExec(e) => IsAssignment(e) && Tidy(e)
    case LInc(e) => Tidy(e)
    case IF(c, t1) => Tidy(c) && TidyStmt(t1)
    case IF_ELSE(c, t1, t2) => t1.BLOCK? && Tidy(c) && TidyStmt(t1) && TidyStmt(t2)
    case WHILE(_, _, c, t1) => Tidy(c) && TidyStmt(t1)
    case REPEAT(_, _, until, body) => Tidy(until) && TidyStmts(body)
    case FOR(_, _, _, a, b, body) => Tidy(a) && Tidy(b) && TidyStmts(body)
    case FOR_STEP(_, _, _, a, b, step, body) => Tidy(a) && Tidy(b) && Tidy(step) && TidyStmts(body)
    case FOREACH(_, _, _, e, body) => Tidy(e) && TidyStmts(body)
    case FOREACH_INDEX(_, _, _, e, _, body) => Tidy(e) && TidyStmts(body)
    case CASE(_, _, e, branches) => Tidy(e) && TidyBranches(branches)
    case SWITCH(_, _, e, branches) => Tidy(e) && TidyBranches(branches)
    case BLOCK(body) => TidyStmts(body)
    case _ => true
  }

  predicate TidyStmts(ts: LStmts) { ts.LCons? ==> TidyStmt(ts.s) && TidyStmts(ts.rest) }

  predicate TidyBranches(bs: LBranches) {
    !bs.LNoBranch? ==> (bs.CSBLOCK? ==> Tidy(bs.test)) && TidyStmts(bs.body) && TidyBranches(bs.next)
  }

  // ----- expressions -----

  lemma {:induction false} UnbracedTidy(e: LExpr)
    requires Tidy(e)
    ensures Tidy(Unbraced(e)) && !Unbraced(e).LParen?
    decreases e
  {
    if e.LParen? {
      UnbracedTidy(e.e);
    }
  }

  lemma {:induction false} TargetTidy(sem: Sem, e: Expr)
    requires LowerTarget(sem, e).Some?
    ensures var l := LowerTarget(sem, e).value; Tidy(l) && !l.LParen? && !l.ASSIGN?
    decreases e, 1
  {
    ExprTidy(sem, e);
  }

  lemma AssignmentTidy(r: LExpr, l: LExpr)
    requires Tidy(r) && Tidy(l) && !l.LParen? && !l.ASSIGN? && !SelfAssignment(l, r)
    ensures Tidy(Assignment(r, l)) && IsAssignment(Assignment(r, l))
  {
  }

  /** Every lowered expression is tidy. */
  lemma {:induction false} ExprTidy(sem: Sem, e: Expr)
    requires LowerExpr(sem, e).Some?
    ensures Tidy(LowerExpr(sem, e).value)
    decreases e, 0
  {
    match e
    case Elem(_, index) => ExprTidy(sem, index);
    case Paren(a) =>
      ExprTidy(sem, a);
      UnbracedTidy(LowerExpr(sem, a).value);
    case Minus(a) => ExprTidy(sem, a);
    case Binary(_, a, b) =>
      ExprTidy(sem, a);
      ExprTidy(sem, b);
    case Cond(c, a, b) =>
      ExprTidy(sem, c);
      ExprTidy(sem, a);
      ExprTidy(sem, b);
    case Assign(l, r) =>
      TargetTidy(sem, l);
      ExprTidy(sem, r);
      if !IsSelf(sem, l, r) {
        AssignmentTidy(LowerExpr(sem, r).value, LowerTarget(sem, l).value);
      }
    case OpAssign(op, l, r) => OpTidy(sem, op, l, r);
    case _ =>
  }

  lemma {:induction false} OpTidy(sem: Sem, op: int, l: Expr, r: Expr)
    requires LowerExpr(sem, OpAssign(op, l, r)).Some?
    ensures Tidy(LowerExpr(sem, OpAssign(op, l, r)).value) && IsAssignment(LowerExpr(sem, OpAssign(op, l, r)).value)
    decreases OpAssign(op, l, r), -1
  {
    TargetTidy(sem, l);
    ExprTidy(sem, r);
    AssignmentTidy(LBinary(op, LowerTarget(sem, l).value, LowerExpr(sem, r).value), LowerTarget(sem, l).value);
  }

  // ----- statements -----

  lemma AssignStmtTidy(sem: Sem, l: Expr, r: Expr, labels: seq<string>)
    requires LowerStmt(sem, SAssign(l, r), labels).Lowered?
    ensures TidyStmt(LowerStmt(sem, SAssign(l, r), labels).tree)
  {
    TargetTidy(sem, l);
    ExprTidy(sem, r);
    if !IsSelf(sem, l, r) {
      AssignmentTidy(LowerExpr(sem, r).value, LowerTarget(sem, l).value);
    }
  }

  lemma WrappedTidy(t: LStmt)
    requires TidyStmt(t)
    ensures TidyStmt(Wrapped(t)) && Wrapped(t).BLOCK?
  {
    assert TidyStmts(LNil);
  }

  /** Every lowered statement is tidy. */
  lemma {:induction false} StmtTidy(sem: Sem, t: Stmt, labels: seq<string>)
    requires LowerStmt(sem, t, labels).Lowered?
    ensures TidyStmt(LowerStmt(sem, t, labels).tree)
    decreases t, 1
  {
    if t.SAssign? {
      AssignStmtTidy(sem, t.l, t.r, labels);
    } else if t.SOpAssign? {
      OpTidy(sem, t.op, t.l, t.r);
    } else if t.SInc? {
      ExprTidy(sem, t.e);
    } else if t.SIf? || t.SWhile? {
      ExprTidy(sem, t.c);
      StmtTidy(sem, t.s, labels);
    } else if t.SIfElse? {
      ExprTidy(sem, t.c);
      var r := LowerStmt(sem, t.s, labels);
      StmtTidy(sem, t.s, labels);
      StmtTidy(sem, t.t, r.labels);
      WrappedTidy(r.tree);
    } else if t.SCase? || t.SSwitch? {
      ExprTidy(sem, t.e);
      BranchesTidy(sem, t.branches, labels);
    } else if t.SFor? || t.SForeach? || t.SRepeat? || t.SBlock? {
      BodyTidy(sem, t, labels);
    }
  }

  lemma {:induction false} BodyTidy(sem: Sem, t: Stmt, labels: seq<string>)
    requires (t.SFor? || t.SForeach? || t.SRepeat? || t.SBlock?) && LowerStmt(sem, t, labels).Lowered?
    ensures TidyStmt(LowerStmt(sem, t, labels).tree)
    decreases t, 0
  {
    StmtsTidy(sem, t.body, labels);
    match t
    case SFor(_, a, b, step, _) =>
      ExprTidy(sem, a);
      ExprTidy(sem, b);
      if step.Some? {
        ExprTidy(sem, step.value);
      }
    case SForeach(_, e, _, _) => ExprTidy(sem, e);
    case SRepeat(_, until) => ExprTidy(sem, until);
    case SBlock(_) =>
  }

  lemma {:induction false} StmtsTidy(sem: Sem, ts: Stmts, labels: seq<string>)
    requires LowerStmts(sem, ts, labels).Lowered?
    ensures TidyStmts(LowerStmts(sem, ts, labels).tree)
    decreases ts, 1
  {
    if ts.Cons? {
      StmtTidy(sem, ts.s, labels);
      StmtsTidy(sem, ts.rest, LowerStmt(sem, ts.s, labels).labels);
    }
  }

  lemma {:induction false} BranchesTidy(sem: Sem, bs: Branches, labels: seq<string>)
    requires LowerBranches(sem, bs, labels).Lowered?
    ensures TidyBranches(LowerBranches(sem, bs, labels).tree)
    decreases bs, 1
  {
    if !bs.NoBranch? {
      if bs.Branch? {
        ExprTidy(sem, bs.test);
      }
      StmtsTidy(sem, bs.body, labels);
      BranchesTidy(sem, bs.next, LowerStmts(sem, bs.body, labels).labels);
    }
  }
}
