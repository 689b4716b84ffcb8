/** The tree parser: it walks a source tree, numbers labels, keeps the stack of loop
variables and builds the lowered tree. */
module TreeParser {
  import opened SourceTree
  import opened LoweredTree
  import opened TreeLowering
  import opened EvaluationOrder
  import opened LoweringMeaning
  import opened LabelRanges
  import opened CompileErrors
  import opened NormalForm
  import opened LoopWarnings

  // ----- what a compiled routine promises -----

  /** us does what ts does in every run in which no assignment depends on the order; its labels are those of ts, none is
      there twice, and every range in us covers exactly its node's labels; us has the shape the interpreter needs. */
  ghost predicate Compiled(sem: Sem, ts: Stmts, us: LStmts, labels: seq<string>) {
    && (forall fuel: nat, s: Store :: AllInOrder(sem, fuel, ts, s)
          ==> ExecAllL(sem, fuel, us, s) == ExecAll(sem, fuel, ts, s))
    && labels == DefinedAll(ts) == LabelsInAll(us) && Distinct(labels) && RangedAll(us, 0)
    && TidyStmts(us)
  }

  lemma RoutineCompiled(sem: Sem, ts: Stmts)
    ensures LowerStmts(sem, ts, []).Lowered? <==> AllowedStmts(sem, ts) && Distinct(DefinedAll(ts))
    ensures var r := LowerStmts(sem, ts, []); r.Lowered? ==> Compiled(sem, ts, r.tree, r.labels)
  {
    var r := LowerStmts(sem, ts, []);
    StmtsCompile(sem, ts, []);
    assert [] + DefinedAll(ts) == DefinedAll(ts);
    if r.Lowered? {
      LowerAllNumbers(sem, ts, []);
      StmtsTidy(sem, ts, []);
      assert [] + LabelsInAll(r.tree) == LabelsInAll(r.tree);
      forall fuel: nat, s: Store | AllInOrder(sem, fuel, ts, s)
        ensures ExecAllL(sem, fuel, r.tree, s) == ExecAll(sem, fuel, ts, s)
      {
        ExecAllMeaning(sem, fuel, ts, s, []);
      }
    }
  }

  /** All warnings due for ts, and no others, were added. */
  ghost predicate Warns(sem: Sem, ts: Stmts, loopVars: seq<string>, w: seq<Warning>, v: seq<Warning>) {
    forall n ::
      Warned(w, v, n, n in loopVars, AllAssign(sem, ts, n), AnyLoopAssigned(sem, ts, n), AnyRepeatsNothing(ts))
  }

  lemma RoutineWarned(sem: Sem, ts: Stmts, loopVars: seq<string>, w: seq<Warning>)
    ensures Warns(sem, ts, loopVars, w, AllWarnings(sem, ts, loopVars, w))
  {
    forall n ensures Warned(w, AllWarnings(sem, ts, loopVars, w), n, n in loopVars, AllAssign(sem, ts, n),
      AnyLoopAssigned(sem, ts, n),
                            AnyRepeatsNothing(ts))
    {
      AllWarned(sem, ts, loopVars, w, n);
    }
  }

  class GDLTreeParser {
    const sem: Sem
    var labelList: seq<string>
    var loopVarStack: seq<string>
    var warnings: seq<Warning>

    constructor (sem0: Sem)
      ensures sem == sem0 && labelList == [] && loopVarStack == [] && warnings == []
    {
      sem, labelList, loopVarStack, warnings := sem0, [], [], [];
    }

    /** An assignment node, with the warning if a loop variable is assigned. */
    method AssignReplace(r: LExpr, l: LExpr) returns (a: LExpr)
      modifies this`warnings
      ensures a == Assignment(r, l) && warnings == Assigned(l, loopVarStack, old(warnings))
    {
      if l.LVar? && l.x.name in loopVarStack {
        warnings := warnings + [LoopVariableAssigned(l.x.name)];
      }
      if l.LVar? {
        a := ASSIGN_REPLACE(r, l);
      } else {
        a := ASSIGN(r, l);
      }
    }

    method LassignExpr(e: Expr) returns (l: Option<LExpr>)
      modifies this`warnings
      ensures l == LowerTarget(sem, e) && (l.Some? ==> warnings == Warnings(sem, e, loopVarStack, old(warnings)))
      decreases e, 3
    {
      l := Expression(e);
      if l.Some? && l.value.LParen? {
        l := Some(l.value.e);
      }
      if l.Some? && l.value.ASSIGN? {
        l := None;
      }
    }

    /** Both sides of an assignment. */
    method Sides(l: Expr, r: Expr) returns (l': Option<LExpr>, r': Option<LExpr>)
      modifies this`warnings
      ensures l' == LowerTarget(sem, l) && r' == LowerExpr(sem, r)
      ensures l'.Some? && r'.Some?
          ==> warnings == Warnings(sem, r, loopVarStack, Warnings(sem, l, loopVarStack, old(warnings)))
      decreases Assign(l, r), 0
    {
      l' := LassignExpr(l);
      r' := Expression(r);
    }

    /** An assignment as an expression; one of a variable to itself is just the variable. */
    method AssignExpr(l: Expr, r: Expr) returns (a: Option<LExpr>)
      modifies this`warnings
      ensures a == LowerExpr(sem, Assign(l, r))
          && (a.Some? ==> warnings == AssignWarnings(sem, l, r, loopVarStack, old(warnings)))
      decreases Assign(l, r), 1
    {
      var l', r' := Sides(l, r);
      if l'.None? || r'.None? {
        a := None;
      } else if SelfAssignment(l'.value, r'.value) {
        a := l';
      } else {
        var n := AssignReplace(r'.value, l'.value);
        a := Some(n);
      }
    }

    /** An op= becomes an assignment of the operation to the same target. */
    method CompAssignExpr(op: int, l: Expr, r: Expr) returns (a: Option<LExpr>)
      modifies this`warnings
      ensures a == LowerExpr(sem, OpAssign(op, l, r))
      ensures a.Some? ==> warnings == Warnings(sem, OpAssign(op, l, r), loopVarStack, old(warnings))
      decreases OpAssign(op, l, r), -1
    {
      var l' := LassignExpr(l);
      var r' := Expression(r);
      if l'.None? || r'.None? {
        a := None;
      } else {
        var n := AssignReplace(LBinary(op, l'.value, r'.value), l'.value);
        a := Some(n);
      }
    }

    method BinaryExpr(op: int, a: Expr, b: Expr) returns (r: Option<LExpr>)
      modifies this`warnings
      ensures r == LowerExpr(sem, Binary(op, a, b))
      ensures r.Some? ==> warnings == Warnings(sem, Binary(op, a, b), loopVarStack, old(warnings))
      decreases Binary(op, a, b), -1
    {
      var a' := Expression(a);
      var b' := Expression(b);
      r := MakeBinary(op, a', b');
    }

    method CondExpr(c: Expr, a: Expr, b: Expr) returns (r: Option<LExpr>)
      modifies this`warnings
      ensures r == LowerExpr(sem, Cond(c, a, b))
      ensures r.Some? ==> warnings == Warnings(sem, Cond(c, a, b), loopVarStack, old(warnings))
      decreases Cond(c, a, b), -1
    {
      var c' := Expression(c);
      var a' := Expression(a);
      var b' := Expression(b);
      r := MakeCond(c', a', b');
    }

    method ElementExpr(x: Variable, index: Expr) returns (r: Option<LExpr>)
      modifies this`warnings
      ensures r == LowerExpr(sem, Elem(x, index))
          && (r.Some? ==> warnings == Warnings(sem, Elem(x, index), loopVarStack, old(warnings)))
      decreases Elem(x, index), -1
    {
      var i := Expression(index);
      r := MakeElem(x, i);
    }

    method Uminus(e: Expr) returns (r: Option<LExpr>)
      modifies this`warnings
      ensures r == LowerExpr(sem, Minus(e))
          && (r.Some? ==> warnings == Warnings(sem, Minus(e), loopVarStack, old(warnings)))
      decreases Minus(e), -1
    {
      r := Expression(e);
      r := MakeMinus(sem, r);
    }

    /** Nested parentheses are kept once. */
    method BraceExpr(e: Expr) returns (r: Option<LExpr>)
      modifies this`warnings
      ensures r == LowerExpr(sem, Paren(e))
          && (r.Some? ==> warnings == Warnings(sem, Paren(e), loopVarStack, old(warnings)))
      decreases Paren(e), -1
    {
      r := Expression(e);
      if r.Some? {
        var ex := r.value;
        while ex.LParen?
          invariant Unbraced(ex) == Unbraced(r.value)
          decreases ex
        {
          ex := ex.e;
        }
        r := Some(LParen(ex));
      }
    }

    method Expression(e: Expr) returns (r: Option<LExpr>)
      modifies this`warnings
      ensures r == LowerExpr(sem, e) && (r.Some? ==> warnings == Warnings(sem, e, loopVarStack, old(warnings)))
      decreases e, 2
    {
      match e
      case Const(v) => r := Some(LConst(v));
      case Ref(x) => r := Some(LVar(x));
      case Elem(x, index) => r := ElementExpr(x, index);
      case Paren(a) => r := BraceExpr(a);
      case Minus(a) => r := Uminus(a);
      case Binary(op, a, b) => r := BinaryExpr(op, a, b);
      case Cond(c, a, b) => r := CondExpr(c, a, b);
      case PostInc(x) => r := Some(LPostInc(x));
      case Assign(l, r1) => r := AssignExpr(l, r1);
      case OpAssign(op, l, r1) => r := CompAssignExpr(op, l, r1);
    }

    // ----- statements -----

    /** A statement assigning a variable to itself is an empty block. */
    method AssignExprStatement(l: Expr, r: Expr) returns (a: Option<LStmt>)
      modifies this
      ensures AsLowered(a, labelList) == LowerStmt(sem, SAssign(l, r), old(labelList))
          && loopVarStack == old(loopVarStack)
      ensures a.Some? ==> warnings == AssignWarnings(sem, l, r, loopVarStack, old(warnings))
    {
      var l', r' := Sides(l, r);
      a := None;
      if l'.Some? && r'.Some? {
        if SelfAssignment(l'.value, r'.value) {
          a := Some(BLOCK(LNil));
        } else {
          var n := AssignReplace(r'.value, l'.value);
          a := Some(LExec(n));
        }
      }
    }

    method Label(name: string) returns (r: Option<LStmt>)
      modifies this`labelList
      ensures AsLowered(r, labelList) == LowerStmt(sem, SLabel(name), old(labelList))
    {
      if name in labelList {
        return None;
      }
      labelList := labelList + [name];
      r := Some(LABEL(name));
    }

    method IfStatement(c: Expr, t1: Stmt) returns (r: Option<LStmt>)
      modifies this
      ensures AsLowered(r, labelList) == LowerStmt(sem, SIf(c, t1), old(labelList)) && loopVarStack == old(loopVarStack)
      ensures r.Some? ==> warnings == StmtWarnings(sem, SIf(c, t1), loopVarStack, old(warnings))
      decreases SIf(c, t1), -1
    {
      var c' := Expression(c);
      var s := Statement(t1);
      r := if c'.None? || s.None? then None else Some(IF(c'.value, s.value));
    }

    /** With an else, the first branch is wrapped in a block unless it is one. */
    method IfElseStatement(c: Expr, t1: Stmt, t2: Stmt) returns (r: Option<LStmt>)
      modifies this
      ensures AsLowered(r, labelList) == LowerStmt(sem, SIfElse(c, t1, t2), old(labelList))
          && loopVarStack == old(loopVarStack)
      ensures r.Some? ==> warnings == StmtWarnings(sem, SIfElse(c, t1, t2), loopVarStack, old(warnings))
      decreases SIfElse(c, t1, t2), -1
    {
      r := None;
      var c' := Expression(c);
      var s1 := Statement(t1);
      if c'.Some? && s1.Some? {
        var s2 := Statement(t2);
        if s2.Some? {
          r := Some(IF_ELSE(c'.value, Wrapped(s1.value), s2.value));
        }
      }
    }

    method WhileStatement(c: Expr, t1: Stmt) returns (r: Option<LStmt>)
      modifies this
      ensures AsLowered(r, labelList) == LowerStmt(sem, SWhile(c, t1), old(labelList))
          && loopVarStack == old(loopVarStack)
      ensures r.Some? ==> warnings == StmtWarnings(sem, SWhile(c, t1), loopVarStack, old(warnings))
      decreases SWhile(c, t1), -1
    {
      var labelStart := |labelList|;
      var c' := Expression(c);
      var s := Statement(t1);
      r := if c'.None? || s.None? then None else Some(WHILE(labelStart, |labelList|, c'.value, s.value));
    }

    /** The condition comes before the body in the lowered tree. */
    method RepeatStatement(body: Stmts, until: Expr) returns (r: Option<LStmt>)
      modifies this
      ensures AsLowered(r, labelList) == LowerStmt(sem, SRepeat(body, until), old(labelList))
          && loopVarStack == old(loopVarStack)
      ensures r.Some? ==> warnings == StmtWarnings(sem, SRepeat(body, until), loopVarStack, old(warnings))
      decreases SRepeat(body, until), -1
    {
      var labelStart := |labelList|;
      var b := StatementList(body);
      var e := Expression(until);
      if e.None? || b.None? {
        return None;
      }
      if b.value.LNil? {
        warnings := warnings + [EmptyRepeat];
      }
      r := Some(REPEAT(labelStart, |labelList|, e.value, b.value));
    }

    /** Start, end and step of a counting loop. */
    method ForBounds(a: Expr, b: Expr, step: Option<Expr>) returns (a': Option<LExpr>, b': Option<LExpr>,
                     z: Option<LExpr>)
      modifies this`warnings
      ensures a' == LowerExpr(sem, a) && b' == LowerExpr(sem, b) && z == if step.Some? then LowerExpr(sem, step.value)
          else None
      ensures a'.Some? && b'.Some? && (step.Some? ==> z.Some?)
          ==> warnings == BoundWarnings(sem, a, b, step, loopVarStack, old(warnings))
    {
      a' := Expression(a);
      b' := Expression(b);
      z := None;
      if step.Some? {
        z := Expression(step.value);
      }
    }

    /** The loop variable is known as such from its name on to the end of the statement. */
    method ForStatement(x: Variable, a: Expr, b: Expr, step: Option<Expr>, body: Stmts) returns (r: Option<LStmt>)
      modifies this
      ensures AsLowered(r, labelList) == LowerStmt(sem, SFor(x, a, b, step, body), old(labelList))
          && loopVarStack == old(loopVarStack)
      ensures r.Some? ==> warnings == StmtWarnings(sem, SFor(x, a, b, step, body), loopVarStack, old(warnings))
      ensures r.Some? ==>
                && (if step.Some? then r.value.FOR_STEP? else r.value.FOR?) && r.value.x == x
                && r.value.lo == |old(labelList)| && r.value.hi == |labelList|
      decreases SFor(x, a, b, step, body), -1
    {
      var guard := |loopVarStack|;
      var labelStart := |labelList|;
      loopVarStack := loopVarStack + [x.name];
      var a', b', z := ForBounds(a, b, step);
      var s := StatementList(body);
      loopVarStack := loopVarStack[..guard];
      r := None;
      if a'.Some? && b'.Some? && s.Some? && (step.Some? ==> z.Some?) {
        r := Some(if step.None? then FOR(labelStart, |labelList|, x, a'.value, b'.value, s.value)
                  else FOR_STEP(labelStart, |labelList|, x, a'.value, b'.value, z.value, s.value));
      }
    }

    method ForeachStatement(x: Variable, e: Expr, ix: Option<Variable>, body: Stmts) returns (r: Option<LStmt>)
      modifies this
      ensures AsLowered(r, labelList) == LowerStmt(sem, SForeach(x, e, ix, body), old(labelList))
          && loopVarStack == old(loopVarStack)
      ensures r.Some? ==> warnings == StmtWarnings(sem, SForeach(x, e, ix, body), loopVarStack, old(warnings))
      ensures r.Some? ==>
                && (if ix.Some? then r.value.FOREACH_INDEX? && r.value.ix == ix.value else r.value.FOREACH?)
                   && r.value.x == x
                && r.value.lo == |old(labelList)| && r.value.hi == |labelList|
      decreases SForeach(x, e, ix, body), -1
    {
      var guard := |loopVarStack|;
      var labelStart := |labelList|;
      loopVarStack := loopVarStack + [x.name];
      var e' := Expression(e);
      if ix.Some? {
        loopVarStack := loopVarStack + [ix.value.name];
      }
      var s := StatementList(body);
      loopVarStack := loopVarStack[..guard];
      if e'.None? || s.None? {
        return None;
      }
      if ix.None? {
        r := Some(FOREACH(labelStart, |labelList|, x, e'.value, s.value));
      } else {
        r := Some(FOREACH_INDEX(labelStart, |labelList|, x, e'.value, ix.value, s.value));
      }
    }

    method CaseOrSwitch(t: Stmt) returns (r: Option<LStmt>)
      requires t.SCase? || t.SSwitch?
      modifies this
      ensures AsLowered(r, labelList) == LowerStmt(sem, t, old(labelList)) && loopVarStack == old(loopVarStack)
      ensures r.Some? ==> warnings == StmtWarnings(sem, t, loopVarStack, old(warnings))
      decreases t, -1
    {
      var labelStart := |labelList|;
      var e := Expression(t.e);
      var bs := CaseSwitchBodies(t.branches);
      r := None;
      if e.Some? && bs.Some? {
        r := Some(if t.SCase? then CASE(labelStart, |labelList|, e.value, bs.value)
          else SWITCH(labelStart, |labelList|, e.value, bs.value));
      }
    }

    method CaseSwitchBodies(bs: Branches) returns (r: Option<LBranches>)
      modifies this
      ensures AsLowered(r, labelList) == LowerBranches(sem, bs, old(labelList)) && loopVarStack == old(loopVarStack)
      ensures r.Some? ==> warnings == BranchWarnings(sem, bs, loopVarStack, old(warnings))
      decreases bs, 0
    {
      if bs.NoBranch? {
        return Some(LNoBranch);
      }
      var e := None;
      if bs.Branch? {
        e := Expression(bs.test);
      }
      var s := StatementList(bs.body);
      if s.None? || (bs.Branch? && e.None?) {
        return None;
      }
      var next := CaseSwitchBodies(bs.next);
      if next.None? {
        return None;
      }
      r := Some(if bs.Branch? then CSBLOCK(e.value, s.value, next.value) else ELSEBLK(s.value, next.value));
    }

    method Statement(t: Stmt) returns (r: Option<LStmt>)
      modifies this
      ensures AsLowered(r, labelList) == LowerStmt(sem, t, old(labelList)) && loopVarStack == old(loopVarStack)
      ensures r.Some? ==> warnings == StmtWarnings(sem, t, loopVarStack, old(warnings))
      decreases t, 2
    {
      match t
      case SAssign(l, e) => r := AssignExprStatement(l, e);
      case SOpAssign(op, l, e) =>
        var a := Expression(OpAssign(op, l, e));
        r := if a.None? then None else Some(LExec(a.value));
      case SInc(e) =>
        var a := Expression(e);
        r := if a.None? then None else Some(LInc(a.value));
      case SIf(c, t1) => r := IfStatement(c, t1);
      case SIfElse(c, t1, t2) => r := IfElseStatement(c, t1, t2);
      case SWhile(c, t1) => r := WhileStatement(c, t1);
      case SRepeat(body, until) => r := RepeatStatement(body, until);
      case SFor(x, a, b, step, body) => r := ForStatement(x, a, b, step, body);
      case SForeach(x, e, ix, body) => r := ForeachStatement(x, e, ix, body);
      case SCase(_, _) => r := CaseOrSwitch(t);
      case SSwitch(_, _) => r := CaseOrSwitch(t);
      case SBlock(body) =>
        var s := StatementList(body);
        r := if s.None? then None else Some(BLOCK(s.value));
      case SLabel(name) => r := Label(name);
      case SBreak => r := Some(BREAK);
      case SContinue => r := Some(CONTINUE);
    }

    /** Statements one after the other, each added at the end of the list. */
    method StatementList(ts: Stmts) returns (r: Option<LStmts>)
      modifies this
      ensures AsLowered(r, labelList) == LowerStmts(sem, ts, old(labelList)) && loopVarStack == old(loopVarStack)
      ensures r.Some? ==> warnings == AllWarnings(sem, ts, loopVarStack, old(warnings))
      decreases ts, 0
    {
      var t := ts;
      var out: seq<LStmt> := [];
      while t.Cons?
        invariant t == ts || t < ts
        invariant loopVarStack == old(loopVarStack)
        invariant LowerStmts(sem, ts, old(labelList)) == Before(out, LowerStmts(sem, t, labelList))
        invariant AllWarnings(sem, ts, loopVarStack, old(warnings)) == AllWarnings(sem, t, loopVarStack, warnings)
        decreases t
      {
        ghost var labels := labelList;
        var s := Statement(t.s);
        if s.None? {
          return None;
        }
        BeforeOne(out, s.value, LowerStmts(sem, t.rest, labelList));
        out := out + [s.value];
        t := t.rest;
      }
      r := Some(ListOf(out, LNil));
    }

    /** A routine has labels of its own.  It compiles exactly if its labels are all different and no target is an
        assignment into an element; the tree does what the routine means. */
    method ProcedureDef(body: Stmts) returns (tree: Option<LStmts>)
      modifies this
      ensures tree.Some? <==> AllowedStmts(sem, body) && Distinct(DefinedAll(body))
      ensures tree.Some? ==> Compiled(sem, body, tree.value, labelList)
      ensures tree.Some? ==> Warns(sem, body, loopVarStack, old(warnings), warnings)
      ensures loopVarStack == old(loopVarStack)
    {
      labelList := [];
      RoutineCompiled(sem, body);
      RoutineWarned(sem, body, loopVarStack, warnings);
      tree := StatementList(body);
    }
  }

  function AsLowered<T>(r: Option<T>, labels: seq<string>): (res: Lowered<T>) {
    if r.None? then CompileError else Lowered(r.value, labels)
  }

  /** The statements of a sequence, with a list behind them. */
  function ListOf(out: seq<LStmt>, rest: LStmts): (r: LStmts)
    decreases |out|
  {
    if out == [] then rest else LCons(out[0], ListOf(out[1..], rest))
  }

  function Before(out: seq<LStmt>, r: Lowered<LStmts>): (res: Lowered<LStmts>) {
    if r.CompileError? then r else Lowered(ListOf(out, r.tree), r.labels)
  }

  lemma {:induction false} ListOfOne(out: seq<LStmt>, s: LStmt, rest: LStmts)
    ensures ListOf(out, LCons(s, rest)) == ListOf(out + [s], rest)
    decreases |out|
  {
    if out == [] {
      assert out + [s] == [s];
    } else {
      assert (out + [s])[1..] == out[1..] + [s];
      ListOfOne(out[1..], s, rest);
    }
  }

  lemma BeforeOne(out: seq<LStmt>, s: LStmt, r: Lowered<LStmts>)
    ensures Before(out, if r.CompileError? then r else Lowered(LCons(s, r.tree), r.labels)) == Before(out + [s], r)
  {
    if r.Lowered? {
      ListOfOne(out, s, r.tree);
    }
  }
}
