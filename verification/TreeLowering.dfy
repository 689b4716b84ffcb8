/** The compiler pass from source trees to the trees the interpreter runs. */
module TreeLowering {
  import opened SourceTree
  import opened LoweredTree

  // ----- expressions -----

  /** The assignment node for a target: a whole variable is replaced. */
  function Assignment(r: LExpr, l: LExpr): (res: LExpr) {
    if l.LVar? then ASSIGN_REPLACE(r, l) else ASSIGN(r, l)
  }

  predicate SelfAssignment(l: LExpr, r: LExpr) { l.LVar? && r.LVar? && l.x.place == r.x.place }

  function MakeElem(x: Variable, i: Option<LExpr>): (r: Option<LExpr>) {
    if i.None? then None else Some(LElem(x, i.value))
  }

  /** A minus before a constant is worked out. */
  function MakeMinus(sem: Sem, e: Option<LExpr>): (r: Option<LExpr>) {
    if e.None? then None else Some(if e.value.LConst? then LConst(sem.neg(e.value.v)) else LMinus(e.value))
  }

  function MakeBinary(op: int, a: Option<LExpr>, b: Option<LExpr>): (r: Option<LExpr>) {
    if a.None? || b.None? then None else Some(LBinary(op, a.value, b.value))
  }

  function MakeCond(c: Option<LExpr>, a: Option<LExpr>, b: Option<LExpr>): (r: Option<LExpr>) {
    if c.None? || a.None? || b.None? then None else Some(LCond(c.value, a.value, b.value))
  }

  /** A node in parentheses stays in one pair of them. */
  function Unbraced(e: LExpr): (r: LExpr) { if e.LParen? then Unbraced(e.e) else e }

  function MakeParen(e: Option<LExpr>): (r: Option<LExpr>) { if e.None? then None else Some(LParen(Unbraced(e.value))) }

  /** The last parentheses around a target go; it may not be an assignment into an element. */
  function MakeTarget(e: Option<LExpr>): (r: Option<LExpr>) {
    if e.None? then None
    else
      var l := if e.value.LParen? then e.value.e else e.value;
      if l.ASSIGN? then None else Some(l)
  }

  function MakeAssign(l: Option<LExpr>, r: Option<LExpr>): (res: Option<LExpr>) {
    if l.None? || r.None? then None
    else Some(if SelfAssignment(l.value, r.value) then l.value else Assignment(r.value, l.value))
  }

  function MakeOpAssign(op: int, l: Option<LExpr>, r: Option<LExpr>): (res: Option<LExpr>) {
    if l.None? || r.None? then None else Some(Assignment(LBinary(op, l.value, r.value), l.value))
  }

  function LowerTarget(sem: Sem, e: Expr): (r: Option<LExpr>)
    decreases e, 1
  {
    MakeTarget(LowerExpr(sem, e))
  }

  function LowerExpr(sem: Sem, e: Expr): (r: Option<LExpr>)
    decreases e, 0
  {
    match e
    case Const(v) => Some(LConst(v))
    case Ref(x) => Some(LVar(x))
    case Elem(x, index) => MakeElem(x, LowerExpr(sem, index))
    case Paren(e1) => MakeParen(LowerExpr(sem, e1))
    case Minus(e1) => MakeMinus(sem, LowerExpr(sem, e1))
    case Binary(op, a, b) => MakeBinary(op, LowerExpr(sem, a), LowerExpr(sem, b))
    case Cond(c, a, b) => MakeCond(LowerExpr(sem, c), LowerExpr(sem, a), LowerExpr(sem, b))
    case PostInc(x) => Some(LPostInc(x))
    case Assign(l, r) => MakeAssign(LowerTarget(sem, l), LowerExpr(sem, r))
    case OpAssign(op, l, r) => MakeOpAssign(op, LowerTarget(sem, l), LowerExpr(sem, r))
  }

  // ----- statements -----

  /** The tree and the labels defined so far; None is a compile error. */
  datatype Lowered<T> = Lowered(tree: T, labels: seq<string>) | CompileError

  function Wrapped(s: LStmt): (r: LStmt) { if s.BLOCK? then s else BLOCK(LCons(s, LNil)) }

  /** An assignment statement; one of a variable to itself is an empty block. */
  function MakeAssignStmt(l: Option<LExpr>, r: Option<LExpr>, labels: seq<string>): (res: Lowered<LStmt>) {
    if l.None? || r.None? then CompileError
    else Lowered(if SelfAssignment(l.value, r.value) then BLOCK(LNil) else LExec(Assignment(r.value, l.value)), labels)
  }

  function MakeIf(c: Option<LExpr>, r: Lowered<LStmt>): (res: Lowered<LStmt>) {
    if c.None? || r.CompileError? then CompileError else Lowered(IF(c.value, r.tree), r.labels)
  }

  function MakeIfElse(c: Option<LExpr>, r: Lowered<LStmt>, r2: Lowered<LStmt>): (res: Lowered<LStmt>) {
    if c.None? || r.CompileError? || r2.CompileError? then CompileError
    else Lowered(IF_ELSE(c.value, Wrapped(r.tree), r2.tree), r2.labels)
  }

  function MakeWhile(lo: nat, c: Option<LExpr>, r: Lowered<LStmt>): (res: Lowered<LStmt>) {
    if c.None? || r.CompileError? then CompileError else Lowered(WHILE(lo, |r.labels|, c.value, r.tree), r.labels)
  }

  function MakeRepeat(lo: nat, r: Lowered<LStmts>, until: Option<LExpr>): (res: Lowered<LStmt>) {
    if until.None? || r.CompileError? then CompileError
        else Lowered(REPEAT(lo, |r.labels|, until.value, r.tree), r.labels)
  }

  function LowerOption(sem: Sem, e: Option<Expr>): (r: Option<LExpr>) {
    if e.None? then None else LowerExpr(sem, e.value)
  }

  function MakeFor(lo: nat, x: Variable, a: Option<LExpr>, b: Option<LExpr>, stepped: bool, step: Option<LExpr>,
                   r: Lowered<LStmts>): (res: Lowered<LStmt>) {
    if a.None? || b.None? || r.CompileError? || (stepped && step.None?) then CompileError
    else Lowered(if stepped then FOR_STEP(lo, |r.labels|, x, a.value, b.value, step.value, r.tree)
                 else FOR(lo, |r.labels|, x, a.value, b.value, r.tree), r.labels)
  }

  function MakeForeach(lo: nat, x: Variable, e: Option<LExpr>, ix: Option<Variable>,
                       r: Lowered<LStmts>): (res: Lowered<LStmt>) {
    if e.None? || r.CompileError? then CompileError
    else Lowered(if ix.None? then FOREACH(lo, |r.labels|, x, e.value, r.tree)
                 else FOREACH_INDEX(lo, |r.labels|, x, e.value, ix.value, r.tree), r.labels)
  }

  function MakeCase(lo: nat, e: Option<LExpr>, r: Lowered<LBranches>): (res: Lowered<LStmt>) {
    if e.None? || r.CompileError? then CompileError else Lowered(CASE(lo, |r.labels|, e.value, r.tree), r.labels)
  }

  function MakeSwitch(lo: nat, e: Option<LExpr>, r: Lowered<LBranches>): (res: Lowered<LStmt>) {
    if e.None? || r.CompileError? then CompileError else Lowered(SWITCH(lo, |r.labels|, e.value, r.tree), r.labels)
  }

  function LowerStmt(sem: Sem, t: Stmt, labels: seq<string>): (r: Lowered<LStmt>)
    decreases t, 1
  {
    match t
    case SAssign(l, r) => MakeAssignStmt(LowerTarget(sem, l), LowerExpr(sem, r), labels)
    case SOpAssign(op, l, r) =>
      var e := LowerExpr(sem, OpAssign(op, l, r));
      if e.None? then CompileError else Lowered(LExec(e.value), labels)
    case SInc(e) =>
      var e' := LowerExpr(sem, e);
      if e'.None? then CompileError else Lowered(LInc(e'.value), labels)
    case SIf(c, t1) => MakeIf(LowerExpr(sem, c), LowerStmt(sem, t1, labels))
    case SIfElse(c, t1, t2) =>
      var r := LowerStmt(sem, t1, labels);
      if r.CompileError? then CompileError else MakeIfElse(LowerExpr(sem, c), r, LowerStmt(sem, t2, r.labels))
    case SWhile(c, t1) => MakeWhile(|labels|, LowerExpr(sem, c), LowerStmt(sem, t1, labels))
    case SRepeat(body, until) => MakeRepeat(|labels|, LowerStmts(sem, body, labels), LowerExpr(sem, until))
    case SFor(x, a, b, step, body) =>
      MakeFor(|labels|, x, LowerExpr(sem, a), LowerExpr(sem, b), step.Some?, LowerOption(sem, step),
              LowerStmts(sem, body, labels))
    case SForeach(x, e, ix, body) => MakeForeach(|labels|, x, LowerExpr(sem, e), ix, LowerStmts(sem, body, labels))
    case SCase(e, branches) => MakeCase(|labels|, LowerExpr(sem, e), LowerBranches(sem, branches, labels))
    case SSwitch(e, branches) => MakeSwitch(|labels|, LowerExpr(sem, e), LowerBranches(sem, branches, labels))
    case SBlock(body) =>
      var r := LowerStmts(sem, body, labels);
      if r.CompileError? then CompileError else Lowered(BLOCK(r.tree), r.labels)
    case SLabel(name) =>
      if name in labels then CompileError else Lowered(LABEL(name), labels + [name])
    case SBreak => Lowered(BREAK, labels)
    case SContinue => Lowered(CONTINUE, labels)
  }

  function MakeCons(r: Lowered<LStmt>, r2: Lowered<LStmts>): (res: Lowered<LStmts>) {
    if r.CompileError? || r2.CompileError? then CompileError else Lowered(LCons(r.tree, r2.tree), r2.labels)
  }

  function LowerStmts(sem: Sem, ts: Stmts, labels: seq<string>): (r: Lowered<LStmts>)
    decreases ts, 1
  {
    match ts
    case Nil => Lowered(LNil, labels)
    case Cons(t, rest) =>
      var r := LowerStmt(sem, t, labels);
      if r.CompileError? then CompileError else MakeCons(r, LowerStmts(sem, rest, r.labels))
  }

  function MakeBranch(test: Option<LExpr>, r: Lowered<LStmts>, r2: Lowered<LBranches>): (res: Lowered<LBranches>) {
    if test.None? || r.CompileError? || r2.CompileError? then CompileError
    else Lowered(CSBLOCK(test.value, r.tree, r2.tree), r2.labels)
  }

  function MakeElse(r: Lowered<LStmts>, r2: Lowered<LBranches>): (res: Lowered<LBranches>) {
    if r.CompileError? || r2.CompileError? then CompileError else Lowered(ELSEBLK(r.tree, r2.tree), r2.labels)
  }

  function LowerBranches(sem: Sem, bs: Branches, labels: seq<string>): (r: Lowered<LBranches>)
    decreases bs, 1
  {
    if bs.NoBranch? then Lowered(LNoBranch, labels)
    else
      var r := LowerStmts(sem, bs.body, labels);
      if r.CompileError? then CompileError
      else
        var r2 := LowerBranches(sem, bs.next, r.labels);
        if bs.Branch? then MakeBranch(LowerExpr(sem, bs.test), r, r2) else MakeElse(r, r2)
  }
}
