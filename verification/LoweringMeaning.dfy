/** The lowered tree does what the source tree means: for every evaluation and every run in
which no assignment depends on the order in which its sides are evaluated, and exactly then
for a single assignment. */
module LoweringMeaning {
  import opened SourceTree
  import opened LoweredTree
  import opened TreeLowering
  import opened EvaluationOrder

  // ----- targets -----

  lemma {:induction false} UnbracedOnce(e: LExpr)
    ensures !Unbraced(e).LParen?
    decreases e
  {
    if e.LParen? {
      UnbracedOnce(e.e);
    }
  }

  /** No lowered expression has two pairs of parentheses. */
  lemma BracedOnce(sem: Sem, e: Expr)
    requires LowerExpr(sem, e).Some? && LowerExpr(sem, e).value.LParen?
    ensures !LowerExpr(sem, e).value.e.LParen? && Unbraced(LowerExpr(sem, e).value) == LowerExpr(sem, e).value.e
  {
    match e
    case Paren(a) => UnbracedOnce(LowerExpr(sem, a).value);
    case _ =>
  }

  /** Parentheses around a target make no difference. */
  lemma PeeledTarget(sem: Sem, a: Expr)
    ensures LowerTarget(sem, Paren(a)) == LowerTarget(sem, a)
  {
    if LowerExpr(sem, a).Some? && LowerExpr(sem, a).value.LParen? {
      BracedOnce(sem, a);
    }
  }

  predicate IsTarget(l: LExpr) { l.LVar? || l.LElem? }

  lemma ElemMeaning(sem: Sem, x: Variable, index: Expr, s: Store)
    requires LowerExpr(sem, index).Some? && EvalL(sem, LowerExpr(sem, index).value, s) == Eval(sem, index, s)
    ensures var l := LElem(x, LowerExpr(sem, index).value);
            TargetL(sem, l, s) == Target(sem, Elem(x, index), s) && EvalL(sem, l, s) == Eval(sem, Elem(x, index), s)
  {
  }

  /** A target is the same place before and after lowering. */
  lemma {:induction false} TargetMeaning(sem: Sem, e: Expr, s: Store)
    requires TargetInOrder(sem, e, s) && LowerTarget(sem, e).Some?
    ensures TargetL(sem, LowerTarget(sem, e).value, s) == Target(sem, e, s)
    ensures Target(sem, e, s).Ok? ==> (LowerTarget(sem, e).value.LVar? <==> Target(sem, e, s).value.Whole?)
    decreases e, 0
  {
    match e
    case Elem(x, index) =>
      EvalMeaning(sem, index, s);
      ElemMeaning(sem, x, index, s);
    case Paren(a) =>
      PeeledTarget(sem, a);
      TargetMeaning(sem, a, s);
    case Assign(l, r) => NoTarget(sem, e);
    case Minus(_) => NoTarget(sem, e);
    case _ =>
  }

  /** Nothing but variables, elements and self-assignments is lowered to a target. */
  lemma NoTarget(sem: Sem, e: Expr)
    requires e.Minus? || (e.Assign? && !IsSelf(sem, e.l, e.r))
    requires LowerTarget(sem, e).Some?
    ensures !IsTarget(LowerTarget(sem, e).value)
  {
  }

  // ----- one assignment -----

  lemma SelfMeaning(sem: Sem, l: Expr, r: Expr, s: Store)
    requires IsSelf(sem, l, r) && PartsInOrder(sem, l, r, s) && LowerExpr(sem, Assign(l, r)).Some?
    requires EvalL(sem, LowerExpr(sem, r).value, s) == Eval(sem, r, s)
    requires Eval(sem, r, s).Ok? ==> TargetL(sem, LowerTarget(sem, l).value, s) == Target(sem, l, s)
    ensures EvalL(sem, LowerExpr(sem, Assign(l, r)).value, s) == AsStored(ValueFirst(sem, l, r, s))
  {
    var x := LowerTarget(sem, l).value.x;
    if x.place in s {
      assert s[x.place := s[x.place]] == s;
    }
  }

  /** What the interpreter does with an assignment. */
  lemma StoreMeaning(sem: Sem, l: LExpr, r: LExpr, s: Store, v: Result<Value>, t: Result<Location>)
    requires v == EvalL(sem, r, s) && (v.Ok? ==> t == TargetL(sem, l, v.s) && (t.Ok? ==> (l.LVar? <==> t.value.Whole?)))
    ensures EvalL(sem, Assignment(r, l), s)
         == if v.Err? || t.Err? then Err else Stored(t.value, v.value, t.s)
  {
    if l.LVar? {
      assert Assignment(r, l) == ASSIGN_REPLACE(r, l);
    } else {
      assert Assignment(r, l) == ASSIGN(r, l);
    }
  }

  /** Lowered, an assignment evaluates its value first. */
  lemma {:induction false} AssignLowered(sem: Sem, l: Expr, r: Expr, s: Store)
    requires PartsInOrder(sem, l, r, s) && LowerExpr(sem, Assign(l, r)).Some?
    ensures EvalL(sem, LowerExpr(sem, Assign(l, r)).value, s) == AsStored(ValueFirst(sem, l, r, s))
    decreases Assign(l, r), 0
  {
    var v := Eval(sem, r, s);
    EvalMeaning(sem, r, s);
    if v.Ok? {
      TargetMeaning(sem, l, v.s);
    }
    if IsSelf(sem, l, r) {
      SelfMeaning(sem, l, r, s);
    } else {
      var t := if v.Ok? then Target(sem, l, v.s) else Err;
      StoreMeaning(sem, LowerTarget(sem, l).value, LowerExpr(sem, r).value, s, v, t);
    }
  }

  /** A lowered assignment means the same exactly when the order of its sides does not matter. */
  lemma AssignExact(sem: Sem, l: Expr, r: Expr, s: Store)
    requires PartsInOrder(sem, l, r, s) && LowerExpr(sem, Assign(l, r)).Some?
    ensures EvalL(sem, LowerExpr(sem, Assign(l, r)).value, s) == Eval(sem, Assign(l, r), s)
            <==> SameStoring(TargetFirst(sem, l, r, s), ValueFirst(sem, l, r, s))
  {
    AssignLowered(sem, l, r, s);
    EvalAssign(sem, l, r, s);
    EitherOrder(sem, l, r, s);
  }

  /** Reading the location a lowered target names. */
  lemma TargetRead(sem: Sem, l: LExpr, s: Store)
    requires IsTarget(l)
    ensures var t := TargetL(sem, l, s);
            EvalL(sem, l, s) == if t.Ok? && Get(t.value, t.s).Some? then Ok(Get(t.value, t.s).value, t.s) else Err
  {
  }

  lemma {:induction false} OperandMeaning(sem: Sem, op: int, l: Expr, r: Expr, s: Store)
    requires OpPartsInOrder(sem, op, l, r, s) && LowerTarget(sem, l).Some? && LowerExpr(sem, r).Some?
    requires IsTarget(LowerTarget(sem, l).value)
    ensures var t := Target(sem, l, s);
            EvalL(sem, LBinary(op, LowerTarget(sem, l).value, LowerExpr(sem, r).value), s)
            == OpValue(sem, op, t, if t.Ok? then Eval(sem, r, t.s) else Err)
    decreases OpAssign(op, l, r), 0
  {
    var t := Target(sem, l, s);
    TargetMeaning(sem, l, s);
    TargetRead(sem, LowerTarget(sem, l).value, s);
    if t.Ok? {
      EvalMeaning(sem, r, t.s);
    }
  }

  lemma NowhereStored(sem: Sem, l: LExpr, r: LExpr, s: Store)
    requires !IsTarget(l)
    ensures EvalL(sem, Assignment(r, l), s).Err?
  {
  }

  /** Lowered, an op= evaluates its target twice. */
  lemma {:induction false} OpAssignLowered(sem: Sem, op: int, l: Expr, r: Expr, s: Store)
    requires OpPartsInOrder(sem, op, l, r, s) && LowerExpr(sem, OpAssign(op, l, r)).Some?
    ensures EvalL(sem, LowerExpr(sem, OpAssign(op, l, r)).value, s) == AsStored(TargetTwice(sem, op, l, r, s))
    decreases OpAssign(op, l, r), 1
  {
    var l', r' := LowerTarget(sem, l).value, LowerExpr(sem, r).value;
    var x := TargetOnce(sem, op, l, r, s);
    TargetMeaning(sem, l, s);
    if !IsTarget(l') {
      NowhereStored(sem, l', LBinary(op, l', r'), s);
    } else {
      OperandMeaning(sem, op, l, r, s);
      if x.Ok? {
        TargetMeaning(sem, l, x.s);
      }
      var t := if x.Ok? then Target(sem, l, x.s) else Err;
      StoreMeaning(sem, l', LBinary(op, l', r'), s, EvalL(sem, LBinary(op, l', r'), s), t);
    }
  }

  /** A lowered op= means the same exactly when evaluating its target twice does not matter. */
  lemma OpAssignExact(sem: Sem, op: int, l: Expr, r: Expr, s: Store)
    requires OpPartsInOrder(sem, op, l, r, s) && LowerExpr(sem, OpAssign(op, l, r)).Some?
    ensures EvalL(sem, LowerExpr(sem, OpAssign(op, l, r)).value, s) == Eval(sem, OpAssign(op, l, r), s)
            <==> SameStoring(TargetOnce(sem, op, l, r, s), TargetTwice(sem, op, l, r, s))
  {
    OpAssignLowered(sem, op, l, r, s);
    EvalOpAssign(sem, op, l, r, s);
    OnceOrTwice(sem, op, l, r, s);
  }

  // ----- expressions -----

  lemma MinusMeaning(sem: Sem, a: Expr, s: Store)
    requires LowerExpr(sem, a).Some? && EvalL(sem, LowerExpr(sem, a).value, s) == Eval(sem, a, s)
    ensures EvalL(sem, LowerExpr(sem, Minus(a)).value, s) == Eval(sem, Minus(a), s)
  {
  }

  lemma {:induction false} UnbracedMeaning(sem: Sem, e: LExpr, s: Store)
    ensures EvalL(sem, Unbraced(e), s) == EvalL(sem, e, s)
    decreases e
  {
    if e.LParen? {
      UnbracedMeaning(sem, e.e, s);
    }
  }

  /** If no assignment depends on the order, an expression gives the same value and store when lowered,
      and fails when the source does. */
  lemma {:induction false} EvalMeaning(sem: Sem, e: Expr, s: Store)
    requires InOrder(sem, e, s) && LowerExpr(sem, e).Some?
    ensures EvalL(sem, LowerExpr(sem, e).value, s) == Eval(sem, e, s)
    decreases e, 2
  {
    match e
    case Elem(x, index) =>
      EvalMeaning(sem, index, s);
      ElemMeaning(sem, x, index, s);
    case Paren(a) =>
      EvalMeaning(sem, a, s);
      UnbracedMeaning(sem, LowerExpr(sem, a).value, s);
    case Minus(a) =>
      EvalMeaning(sem, a, s);
      MinusMeaning(sem, a, s);
    case Binary(op, a, b) => BinaryMeaning(sem, op, a, b, s);
    case Cond(c, a, b) => CondMeaning(sem, c, a, b, s);
    case Assign(l, r) =>
      AssignLowered(sem, l, r, s);
      EvalAssign(sem, l, r, s);
      EitherOrder(sem, l, r, s);
    case OpAssign(op, l, r) =>
      OpAssignLowered(sem, op, l, r, s);
      EvalOpAssign(sem, op, l, r, s);
      OnceOrTwice(sem, op, l, r, s);
    case _ =>
  }

  lemma {:induction false} BinaryMeaning(sem: Sem, op: int, a: Expr, b: Expr, s: Store)
    requires InOrder(sem, Binary(op, a, b), s) && LowerExpr(sem, Binary(op, a, b)).Some?
    ensures EvalL(sem, LowerExpr(sem, Binary(op, a, b)).value, s) == Eval(sem, Binary(op, a, b), s)
    decreases Binary(op, a, b), 1
  {
    EvalMeaning(sem, a, s);
    if Eval(sem, a, s).Ok? {
      EvalMeaning(sem, b, Eval(sem, a, s).s);
    }
  }

  lemma {:induction false} CondMeaning(sem: Sem, c: Expr, a: Expr, b: Expr, s: Store)
    requires InOrder(sem, Cond(c, a, b), s) && LowerExpr(sem, Cond(c, a, b)).Some?
    ensures EvalL(sem, LowerExpr(sem, Cond(c, a, b)).value, s) == Eval(sem, Cond(c, a, b), s)
    decreases Cond(c, a, b), 1
  {
    var v := Eval(sem, c, s);
    EvalMeaning(sem, c, s);
    if Test(sem, v) == Some(true) {
      EvalMeaning(sem, a, v.s);
    } else if Test(sem, v) == Some(false) {
      EvalMeaning(sem, b, v.s);
    }
  }

  // ----- statements in whose run no order matters -----

  ghost predicate BoundsInOrder(sem: Sem, a: Expr, b: Expr, step: Option<Expr>, s: Store) {
    var v := Eval(sem, a, s);
    && InOrder(sem, a, s)
    && (Bound(v).Some? ==>
          var w := Eval(sem, b, v.s);
          && InOrder(sem, b, v.s)
          && (Bound(w).Some? && step.Some? ==> InOrder(sem, step.value, w.s)))
  }

  /** Every assignment made when t runs from s comes out the same in the interpreter's order, and
      no variable that is not defined is assigned to itself. */
  ghost predicate RunInOrder(sem: Sem, fuel: nat, t: Stmt, s: Store)
    decreases fuel, t, 1
  {
    match t
    case SAssign(l, r) => InOrder(sem, Assign(l, r), s)
        && (IsSelf(sem, l, r) ==> LowerTarget(sem, l).value.x.place in s)
    case SOpAssign(op, l, r) => InOrder(sem, OpAssign(op, l, r), s)
    case SInc(e) => InOrder(sem, e, s)
    case SIf(c, t1) =>
      var v := Eval(sem, c, s);
      InOrder(sem, c, s) && (Test(sem, v) == Some(true) ==> RunInOrder(sem, fuel, t1, v.s))
    case SIfElse(c, t1, t2) =>
      var v := Eval(sem, c, s);
      && InOrder(sem, c, s)
      && (Test(sem, v) == Some(true) ==> RunInOrder(sem, fuel, t1, v.s))
      && (Test(sem, v) == Some(false) ==> RunInOrder(sem, fuel, t2, v.s))
    case SWhile(c, t1) => WhileInOrder(sem, fuel, c, t1, s)
    case SRepeat(body, until) => RepeatInOrder(sem, fuel, body, until, s)
    case SFor(x, a, b, step, body) =>
      var r := Bounds(sem, a, b, step, s);
      && BoundsInOrder(sem, a, b, step, s)
      && (r.Some?
         ==> ForInOrder(sem, fuel, x.place, r.value.end, r.value.step, body, r.value.s[x.place := r.value.start]))
    case SForeach(x, e, ix, body) =>
      var v := Eval(sem, e, s);
      InOrder(sem, e, s) && (v.Ok? ==> ForeachInOrder(sem, fuel, x, ix, Elements(v.value), 0, body, v.s))
    case SCase(e, branches) =>
      var v := Eval(sem, e, s);
      InOrder(sem, e, s) && (v.Ok? ==> CaseInOrder(sem, fuel, v.value, branches, v.s))
    case SSwitch(e, branches) =>
      var v := Eval(sem, e, s);
      InOrder(sem, e, s) && (v.Ok? ==> SwitchInOrder(sem, fuel, v.value, branches, false, v.s))
    case SBlock(body) => AllInOrder(sem, fuel, body, s)
    case _ => true
  }

  ghost predicate AllInOrder(sem: Sem, fuel: nat, ts: Stmts, s: Store)
    decreases fuel, ts, 0
  {
    ts.Cons? ==>
      var r := Exec(sem, fuel, ts.s, s);
      RunInOrder(sem, fuel, ts.s, s) && (r.Done? && r.c.Normal? ==> AllInOrder(sem, fuel, ts.rest, r.s))
  }

  ghost predicate WhileInOrder(sem: Sem, fuel: nat, c: Expr, t: Stmt, s: Store)
    decreases fuel, t, 2
  {
    fuel > 0 ==>
      var v := Eval(sem, c, s);
      && InOrder(sem, c, s)
      && (Test(sem, v) == Some(true) ==>
            var r := Exec(sem, fuel - 1, t, v.s);
            && RunInOrder(sem, fuel - 1, t, v.s)
            && (r.Done? && !r.c.Break? ==> WhileInOrder(sem, fuel - 1, c, t, r.s)))
  }

  ghost predicate RepeatInOrder(sem: Sem, fuel: nat, body: Stmts, until: Expr, s: Store)
    decreases fuel, body, 1
  {
    fuel > 0 ==>
      var r := ExecAll(sem, fuel - 1, body, s);
      && AllInOrder(sem, fuel - 1, body, s)
      && (r.Done? && !r.c.Break? ==>
            var v := Eval(sem, until, r.s);
            && InOrder(sem, until, r.s)
            && (Test(sem, v) == Some(false) ==> RepeatInOrder(sem, fuel - 1, body, until, v.s)))
  }

  ghost predicate ForInOrder(sem: Sem, fuel: nat, p: Place, end: int, step: int, body: Stmts, s: Store)
    decreases fuel, body, 1
  {
    fuel > 0 && Goes(s, p, end, step) == Some(true) ==>
      var r := ExecAll(sem, fuel - 1, body, s);
      && AllInOrder(sem, fuel - 1, body, s)
      && (r.Done? && !r.c.Break? && Goes(r.s, p, end, step).Some? ==>
            ForInOrder(sem, fuel - 1, p, end, step, body, Stepped(r.s, p, step)))
  }

  ghost predicate ForeachInOrder(sem: Sem, fuel: nat, x: Variable, ix: Option<Variable>, xs: seq<int>, i: nat,
                                 body: Stmts, s: Store)
    decreases fuel, body, 1
  {
    fuel > 0 && i < |xs| ==>
      var s' := Entered(s, x, ix, xs, i);
      var r := ExecAll(sem, fuel - 1, body, s');
      && AllInOrder(sem, fuel - 1, body, s')
      && (r.Done? && !r.c.Break? ==> ForeachInOrder(sem, fuel - 1, x, ix, xs, i + 1, body, r.s))
  }

  ghost predicate CaseInOrder(sem: Sem, fuel: nat, v: Value, bs: Branches, s: Store)
    decreases fuel, bs, 1
  {
    match bs
    case NoBranch => true
    case Else(body, _) => AllInOrder(sem, fuel, body, s)
    case Branch(test, body, next) =>
      var w := Eval(sem, test, s);
      && InOrder(sem, test, s)
      && (w.Ok?
         ==> if sem.same(v, w.value) then AllInOrder(sem, fuel, body, w.s) else CaseInOrder(sem, fuel, v, next, w.s))
  }

  ghost predicate TakenInOrder(sem: Sem, fuel: nat, v: Value, bs: Branches, s: Store)
    requires !bs.NoBranch?
    decreases fuel, bs, 0
  {
    var r := ExecAll(sem, fuel, bs.body, s);
    && AllInOrder(sem, fuel, bs.body, s)
    && (r.Done? && r.c.Normal? ==> SwitchInOrder(sem, fuel, v, bs.next, true, r.s))
  }

  ghost predicate SwitchInOrder(sem: Sem, fuel: nat, v: Value, bs: Branches, hit: bool, s: Store)
    decreases fuel, bs, 1
  {
    if bs.NoBranch? then true
    else if hit || bs.Else? then TakenInOrder(sem, fuel, v, bs, s)
    else
      var w := Eval(sem, bs.test, s);
      && InOrder(sem, bs.test, s)
      && (w.Ok? ==> if sem.same(v, w.value) then TakenInOrder(sem, fuel, v, bs, w.s)
                    else SwitchInOrder(sem, fuel, v, bs.next, false, w.s))
  }

  // ----- statements keep their meaning -----

  /** Wrapping a branch in a block changes nothing. */
  lemma WrappedMeaning(sem: Sem, fuel: nat, t: LStmt, s: Store)
    ensures ExecL(sem, fuel, Wrapped(t), s) == ExecL(sem, fuel, t, s)
  {
    if !t.BLOCK? {
      assert ExecAllL(sem, fuel, LCons(t, LNil), s) == ExecL(sem, fuel, t, s);
    }
  }

  /** u does what t does in every run from s in which no order matters. */
  ghost predicate Lowers(sem: Sem, fuel: nat, t: Stmt, u: LStmt, s: Store) {
    ExecL(sem, fuel, u, s) == Exec(sem, fuel, t, s)
  }

  /** A variable assigned to itself is left out: the same exactly when it is defined. */
  lemma SelfAssignmentExact(sem: Sem, fuel: nat, l: Expr, r: Expr, s: Store, labels: seq<string>)
    requires IsSelf(sem, l, r) && InOrder(sem, Assign(l, r), s)
    ensures LowerStmt(sem, SAssign(l, r), labels).Lowered?
    ensures Lowers(sem, fuel, SAssign(l, r), LowerStmt(sem, SAssign(l, r), labels).tree, s)
            <==> LowerTarget(sem, l).value.x.place in s
  {
    assert LowerStmt(sem, SAssign(l, r), labels).tree == BLOCK(LNil);
    assert ExecAllL(sem, fuel, LNil, s) == Done(s, Normal);
    EvalMeaning(sem, Assign(l, r), s);
  }

  /** A value in parentheses keeps them, so its assignment is never left out. */
  lemma BracedValue(sem: Sem, l: Expr, r: Expr)
    ensures !IsSelf(sem, l, Paren(r))
  {
  }

  lemma {:induction false} AssignStmtMeaning(sem: Sem, fuel: nat, l: Expr, r: Expr, s: Store, labels: seq<string>)
    requires RunInOrder(sem, fuel, SAssign(l, r), s) && LowerStmt(sem, SAssign(l, r), labels).Lowered?
    ensures Lowers(sem, fuel, SAssign(l, r), LowerStmt(sem, SAssign(l, r), labels).tree, s)
  {
    EvalMeaning(sem, Assign(l, r), s);
    if IsSelf(sem, l, r) {
      SelfAssignmentExact(sem, fuel, l, r, s, labels);
    }
  }

  lemma {:induction false} IfMeaning(sem: Sem, fuel: nat, c: Expr, t1: Stmt, s: Store, labels: seq<string>)
    requires RunInOrder(sem, fuel, SIf(c, t1), s) && LowerExpr(sem, c).Some? && LowerStmt(sem, t1, labels).Lowered?
    ensures IfL(sem, fuel, LowerExpr(sem, c).value, LowerStmt(sem, t1, labels).tree, s) == If(sem, fuel, c, t1, s)
    decreases fuel, SIf(c, t1), -1
  {
    var v := Eval(sem, c, s);
    EvalMeaning(sem, c, s);
    if Test(sem, v) == Some(true) {
      ExecMeaning(sem, fuel, t1, v.s, labels);
    }
  }

  lemma {:induction false} IfElseMeaning(sem: Sem, fuel: nat, c: Expr, t1: Stmt, t2: Stmt, s: Store,
                                         labels: seq<string>, labels2: seq<string>)
    requires RunInOrder(sem, fuel, SIfElse(c, t1, t2), s)
    requires LowerExpr(sem, c).Some? && LowerStmt(sem, t1, labels).Lowered? && LowerStmt(sem, t2, labels2).Lowered?
    ensures IfElseL(sem, fuel, LowerExpr(sem, c).value, Wrapped(LowerStmt(sem, t1, labels).tree),
                    LowerStmt(sem, t2, labels2).tree, s)
         == IfElse(sem, fuel, c, t1, t2, s)
    decreases fuel, SIfElse(c, t1, t2), -1
  {
    var v := Eval(sem, c, s);
    EvalMeaning(sem, c, s);
    if Test(sem, v) == Some(true) {
      ExecMeaning(sem, fuel, t1, v.s, labels);
      WrappedMeaning(sem, fuel, LowerStmt(sem, t1, labels).tree, v.s);
    } else if Test(sem, v) == Some(false) {
      ExecMeaning(sem, fuel, t2, v.s, labels2);
    }
  }

  lemma {:induction false} WhileMeaning(sem: Sem, fuel: nat, t: Stmt, s: Store, labels: seq<string>)
    requires t.SWhile? && WhileInOrder(sem, fuel, t.c, t.s, s)
    requires LowerExpr(sem, t.c).Some? && LowerStmt(sem, t.s, labels).Lowered?
    ensures WhileL(sem, fuel, LowerExpr(sem, t.c).value, LowerStmt(sem, t.s, labels).tree, s)
        == While(sem, fuel, t.c, t.s, s)
    decreases fuel, t, -1
  {
    if fuel > 0 {
      var v := Eval(sem, t.c, s);
      EvalMeaning(sem, t.c, s);
      if Test(sem, v) == Some(true) {
        RoundMeaning(sem, fuel - 1, t, v.s, labels);
      }
    }
  }

  lemma {:induction false} RoundMeaning(sem: Sem, fuel: nat, t: Stmt, s: Store, labels: seq<string>)
    requires t.SWhile? && RunInOrder(sem, fuel, t.s, s)
    requires var r := Exec(sem, fuel, t.s, s); r.Done? && !r.c.Break? ==> WhileInOrder(sem, fuel, t.c, t.s, r.s)
    requires LowerExpr(sem, t.c).Some? && LowerStmt(sem, t.s, labels).Lowered?
    ensures var r, u := Exec(sem, fuel, t.s, s), LowerStmt(sem, t.s, labels).tree;
            && ExecL(sem, fuel, u, s) == r
            && (r.Done? && !r.c.Break?
               ==> WhileL(sem, fuel, LowerExpr(sem, t.c).value, u, r.s) == While(sem, fuel, t.c, t.s, r.s))
    decreases fuel, t, 0
  {
    var r := Exec(sem, fuel, t.s, s);
    ExecMeaning(sem, fuel, t.s, s, labels);
    if r.Done? && !r.c.Break? {
      WhileMeaning(sem, fuel, t, r.s, labels);
    }
  }

  lemma {:induction false} RepeatMeaning(sem: Sem, fuel: nat, body: Stmts, until: Expr, s: Store, labels: seq<string>)
    requires RepeatInOrder(sem, fuel, body, until, s) && LowerExpr(sem, until).Some?
        && LowerStmts(sem, body, labels).Lowered?
    ensures RepeatL(sem, fuel, LowerStmts(sem, body, labels).tree, LowerExpr(sem, until).value, s)
        == Repeat(sem, fuel, body, until, s)
    decreases fuel, body, 2
  {
    if fuel > 0 {
      var r := ExecAll(sem, fuel - 1, body, s);
      ExecAllMeaning(sem, fuel - 1, body, s, labels);
      if r.Done? && !r.c.Break? {
        var v := Eval(sem, until, r.s);
        EvalMeaning(sem, until, r.s);
        if Test(sem, v) == Some(false) {
          RepeatMeaning(sem, fuel - 1, body, until, v.s, labels);
        }
      }
    }
  }

  lemma {:induction false} StepMeaning(sem: Sem, start: Value, end: int, step: Option<Expr>, s: Store)
    requires step.Some? ==> InOrder(sem, step.value, s) && LowerExpr(sem, step.value).Some?
    ensures StepL(sem, start, end, LowerOption(sem, step), s) == Step(sem, start, end, step, s)
  {
    if step.Some? {
      EvalMeaning(sem, step.value, s);
    }
  }

  lemma {:induction false} BoundsMeaning(sem: Sem, a: Expr, b: Expr, step: Option<Expr>, s: Store)
    requires BoundsInOrder(sem, a, b, step, s)
    requires LowerExpr(sem, a).Some? && LowerExpr(sem, b).Some? && (step.Some? ==> LowerExpr(sem, step.value).Some?)
    ensures BoundsL(sem, LowerExpr(sem, a).value, LowerExpr(sem, b).value, LowerOption(sem, step), s)
        == Bounds(sem, a, b, step, s)
  {
    var v := Eval(sem, a, s);
    EvalMeaning(sem, a, s);
    if Bound(v).Some? {
      EndMeaning(sem, v.value, b, step, v.s);
    }
  }

  lemma {:induction false} EndMeaning(sem: Sem, start: Value, b: Expr, step: Option<Expr>, s: Store)
    requires InOrder(sem, b, s) && LowerExpr(sem, b).Some? && (step.Some? ==> LowerExpr(sem, step.value).Some?)
    requires Bound(Eval(sem, b, s)).Some? && step.Some? ==> InOrder(sem, step.value, Eval(sem, b, s).s)
    ensures EndL(sem, start, LowerExpr(sem, b).value, LowerOption(sem, step), s) == End(sem, start, b, step, s)
  {
    var w := Eval(sem, b, s);
    EvalMeaning(sem, b, s);
    if Bound(w).Some? {
      StepMeaning(sem, start, w.value.n, step, w.s);
    }
  }

  lemma {:induction false} ForHeadMeaning(sem: Sem, fuel: nat, x: Variable, a: Expr, b: Expr, step: Option<Expr>,
                                          body: Stmts, s: Store, labels: seq<string>)
    requires RunInOrder(sem, fuel, SFor(x, a, b, step, body), s) && LowerStmts(sem, body, labels).Lowered?
    requires LowerExpr(sem, a).Some? && LowerExpr(sem, b).Some? && (step.Some? ==> LowerExpr(sem, step.value).Some?)
    ensures ForHeadL(sem, fuel, x, LowerExpr(sem, a).value, LowerExpr(sem, b).value, LowerOption(sem, step),
                     LowerStmts(sem, body, labels).tree, s)
         == ForHead(sem, fuel, x, a, b, step, body, s)
    decreases fuel, body, 2
  {
    var r := Bounds(sem, a, b, step, s);
    BoundsMeaning(sem, a, b, step, s);
    if r.Some? {
      ForMeaning(sem, fuel, x.place, r.value.end, r.value.step, body, r.value.s[x.place := r.value.start], labels);
    }
  }

  lemma {:induction false} ForMeaning(sem: Sem, fuel: nat, p: Place, end: int, step: int, body: Stmts, s: Store,
                                      labels: seq<string>)
    requires ForInOrder(sem, fuel, p, end, step, body, s) && LowerStmts(sem, body, labels).Lowered?
    ensures ForL(sem, fuel, p, end, step, LowerStmts(sem, body, labels).tree, s)
        == For(sem, fuel, p, end, step, body, s)
    decreases fuel, body, 1
  {
    if fuel > 0 && Goes(s, p, end, step) == Some(true) {
      var r := ExecAll(sem, fuel - 1, body, s);
      ExecAllMeaning(sem, fuel - 1, body, s, labels);
      if r.Done? && !r.c.Break? && Goes(r.s, p, end, step).Some? {
        ForMeaning(sem, fuel - 1, p, end, step, body, Stepped(r.s, p, step), labels);
      }
    }
  }

  lemma {:induction false} ForeachHeadMeaning(sem: Sem, fuel: nat, x: Variable, e: Expr, ix: Option<Variable>,
                                              body: Stmts, s: Store, labels: seq<string>)
    requires RunInOrder(sem, fuel, SForeach(x, e, ix, body), s) && LowerExpr(sem, e).Some?
        && LowerStmts(sem, body, labels).Lowered?
    ensures ForeachHeadL(sem, fuel, x, LowerExpr(sem, e).value, ix, LowerStmts(sem, body, labels).tree, s)
         == ForeachHead(sem, fuel, x, e, ix, body, s)
    decreases fuel, body, 2
  {
    var v := Eval(sem, e, s);
    EvalMeaning(sem, e, s);
    if v.Ok? {
      ForeachMeaning(sem, fuel, x, ix, Elements(v.value), 0, body, v.s, labels);
    }
  }

  lemma {:induction false} ForeachMeaning(sem: Sem, fuel: nat, x: Variable, ix: Option<Variable>, xs: seq<int>, i: nat,
                                          body: Stmts, s: Store, labels: seq<string>)
    requires ForeachInOrder(sem, fuel, x, ix, xs, i, body, s) && LowerStmts(sem, body, labels).Lowered?
    ensures ForeachL(sem, fuel, x, ix, xs, i, LowerStmts(sem, body, labels).tree, s)
        == Foreach(sem, fuel, x, ix, xs, i, body, s)
    decreases fuel, body, 1
  {
    if fuel > 0 && i < |xs| {
      var s' := Entered(s, x, ix, xs, i);
      var r := ExecAll(sem, fuel - 1, body, s');
      ExecAllMeaning(sem, fuel - 1, body, s', labels);
      if r.Done? && !r.c.Break? {
        ForeachMeaning(sem, fuel - 1, x, ix, xs, i + 1, body, r.s, labels);
      }
    }
  }

  lemma {:induction false} CaseMeaning(sem: Sem, fuel: nat, v: Value, bs: Branches, s: Store, labels: seq<string>)
    requires CaseInOrder(sem, fuel, v, bs, s) && LowerBranches(sem, bs, labels).Lowered?
    ensures CaseL(sem, fuel, v, LowerBranches(sem, bs, labels).tree, s) == Case(sem, fuel, v, bs, s)
    decreases fuel, bs, 0
  {
    match bs
    case Else(body, _) => ExecAllMeaning(sem, fuel, body, s, labels);
    case Branch(test, body, next) =>
      EvalMeaning(sem, test, s);
      var w := Eval(sem, test, s);
      if w.Ok? {
        if sem.same(v, w.value) {
          ExecAllMeaning(sem, fuel, body, w.s, labels);
        } else {
          CaseMeaning(sem, fuel, v, next, w.s, LowerStmts(sem, body, labels).labels);
        }
      }
    case NoBranch =>
  }

  lemma {:induction false} CaseHeadMeaning(sem: Sem, fuel: nat, e: Expr, bs: Branches, s: Store, labels: seq<string>)
    requires RunInOrder(sem, fuel, SCase(e, bs), s) && LowerExpr(sem, e).Some?
        && LowerBranches(sem, bs, labels).Lowered?
    ensures CaseHeadL(sem, fuel, LowerExpr(sem, e).value, LowerBranches(sem, bs, labels).tree, s)
        == CaseHead(sem, fuel, e, bs, s)
    decreases fuel, bs, 2
  {
    EvalMeaning(sem, e, s);
    var v := Eval(sem, e, s);
    if v.Ok? {
      CaseMeaning(sem, fuel, v.value, bs, v.s, labels);
    }
  }

  lemma {:induction false} TakenMeaning(sem: Sem, fuel: nat, v: Value, bs: Branches, s: Store, labels: seq<string>)
    requires !bs.NoBranch? && TakenInOrder(sem, fuel, v, bs, s) && LowerBranches(sem, bs, labels).Lowered?
    ensures TakenL(sem, fuel, v, LowerBranches(sem, bs, labels).tree, s) == Taken(sem, fuel, v, bs, s)
    decreases fuel, bs, 0
  {
    var r := ExecAll(sem, fuel, bs.body, s);
    ExecAllMeaning(sem, fuel, bs.body, s, labels);
    if r.Done? && r.c.Normal? {
      SwitchMeaning(sem, fuel, v, bs.next, true, r.s, LowerStmts(sem, bs.body, labels).labels);
    }
  }

  lemma {:induction false} SwitchMeaning(sem: Sem, fuel: nat, v: Value, bs: Branches, hit: bool, s: Store,
                                         labels: seq<string>)
    requires SwitchInOrder(sem, fuel, v, bs, hit, s) && LowerBranches(sem, bs, labels).Lowered?
    ensures SwitchL(sem, fuel, v, LowerBranches(sem, bs, labels).tree, hit, s) == Switch(sem, fuel, v, bs, hit, s)
    decreases fuel, bs, 1
  {
    if bs.NoBranch? {
    } else if hit || bs.Else? {
      TakenMeaning(sem, fuel, v, bs, s, labels);
    } else {
      EvalMeaning(sem, bs.test, s);
      var w := Eval(sem, bs.test, s);
      if w.Ok? {
        if sem.same(v, w.value) {
          TakenMeaning(sem, fuel, v, bs, w.s, labels);
        } else {
          SwitchMeaning(sem, fuel, v, bs.next, false, w.s, LowerStmts(sem, bs.body, labels).labels);
        }
      }
    }
  }

  lemma {:induction false} SwitchHeadMeaning(sem: Sem, fuel: nat, e: Expr, bs: Branches, s: Store, labels: seq<string>)
    requires RunInOrder(sem, fuel, SSwitch(e, bs), s) && LowerExpr(sem, e).Some?
        && LowerBranches(sem, bs, labels).Lowered?
    ensures SwitchHeadL(sem, fuel, LowerExpr(sem, e).value, LowerBranches(sem, bs, labels).tree, s)
        == SwitchHead(sem, fuel, e, bs, s)
    decreases fuel, bs, 2
  {
    EvalMeaning(sem, e, s);
    var v := Eval(sem, e, s);
    if v.Ok? {
      SwitchMeaning(sem, fuel, v.value, bs, false, v.s, labels);
    }
  }

  lemma {:induction false} ExecAllMeaning(sem: Sem, fuel: nat, ts: Stmts, s: Store, labels: seq<string>)
    requires AllInOrder(sem, fuel, ts, s) && LowerStmts(sem, ts, labels).Lowered?
    ensures ExecAllL(sem, fuel, LowerStmts(sem, ts, labels).tree, s) == ExecAll(sem, fuel, ts, s)
    decreases fuel, ts, 0
  {
    if ts.Cons? {
      var r := Exec(sem, fuel, ts.s, s);
      ExecMeaning(sem, fuel, ts.s, s, labels);
      if r.Done? && r.c.Normal? {
        ExecAllMeaning(sem, fuel, ts.rest, r.s, LowerStmt(sem, ts.s, labels).labels);
      }
    }
  }

  /** A statement ends the same way when lowered, whether it ends normally, fails or needs more rounds, in every
      run in which no assignment depends on the order. */
  lemma {:induction false} ExecMeaning(sem: Sem, fuel: nat, t: Stmt, s: Store, labels: seq<string>)
    requires RunInOrder(sem, fuel, t, s) && LowerStmt(sem, t, labels).Lowered?
    ensures Lowers(sem, fuel, t, LowerStmt(sem, t, labels).tree, s)
    decreases fuel, t, 1
  {
    if t.SWhile? || t.SRepeat? {
      LoopMeaning(sem, fuel, t, s, labels);
    } else if t.SFor? || t.SForeach? {
      CountedMeaning(sem, fuel, t, s, labels);
    } else if t.SCase? || t.SSwitch? || t.SIf? || t.SIfElse? {
      ChoiceMeaning(sem, fuel, t, s, labels);
    } else if t.SBlock? {
      ExecAllMeaning(sem, fuel, t.body, s, labels);
    } else {
      SimpleMeaning(sem, fuel, t, s, labels);
    }
  }

  lemma {:induction false} SimpleMeaning(sem: Sem, fuel: nat, t: Stmt, s: Store, labels: seq<string>)
    requires t.SAssign? || t.SOpAssign? || t.SInc? || t.SLabel? || t.SBreak? || t.SContinue?
    requires RunInOrder(sem, fuel, t, s) && LowerStmt(sem, t, labels).Lowered?
    ensures Lowers(sem, fuel, t, LowerStmt(sem, t, labels).tree, s)
  {
    match t
    case SAssign(l, r) => AssignStmtMeaning(sem, fuel, l, r, s, labels);
    case SOpAssign(op, l, r) => EvalMeaning(sem, OpAssign(op, l, r), s);
    case SInc(e) => EvalMeaning(sem, e, s);
    case _ =>
  }

  lemma {:induction false} ChoiceMeaning(sem: Sem, fuel: nat, t: Stmt, s: Store, labels: seq<string>)
    requires t.SCase? || t.SSwitch? || t.SIf? || t.SIfElse?
    requires RunInOrder(sem, fuel, t, s) && LowerStmt(sem, t, labels).Lowered?
    ensures Lowers(sem, fuel, t, LowerStmt(sem, t, labels).tree, s)
    decreases fuel, t, 0
  {
    match t
    case SIf(c, t1) => IfMeaning(sem, fuel, c, t1, s, labels);
    case SIfElse(c, t1, t2) => IfElseMeaning(sem, fuel, c, t1, t2, s, labels, LowerStmt(sem, t1, labels).labels);
    case SCase(e, bs) => CaseHeadMeaning(sem, fuel, e, bs, s, labels);
    case SSwitch(e, bs) => SwitchHeadMeaning(sem, fuel, e, bs, s, labels);
  }

  lemma {:induction false} LoopMeaning(sem: Sem, fuel: nat, t: Stmt, s: Store, labels: seq<string>)
    requires t.SWhile? || t.SRepeat?
    requires RunInOrder(sem, fuel, t, s) && LowerStmt(sem, t, labels).Lowered?
    ensures Lowers(sem, fuel, t, LowerStmt(sem, t, labels).tree, s)
    decreases fuel, t, 0
  {
    match t
    case SWhile(_, _) => WhileMeaning(sem, fuel, t, s, labels);
    case SRepeat(body, until) => RepeatMeaning(sem, fuel, body, until, s, labels);
  }

  lemma {:induction false} CountedMeaning(sem: Sem, fuel: nat, t: Stmt, s: Store, labels: seq<string>)
    requires t.SFor? || t.SForeach?
    requires RunInOrder(sem, fuel, t, s) && LowerStmt(sem, t, labels).Lowered?
    ensures Lowers(sem, fuel, t, LowerStmt(sem, t, labels).tree, s)
    decreases fuel, t, 0
  {
    match t
    case SFor(x, a, b, step, body) => ForHeadMeaning(sem, fuel, x, a, b, step, body, s, labels);
    case SForeach(x, e, ix, body) => ForeachHeadMeaning(sem, fuel, x, e, ix, body, s, labels);
  }
}
