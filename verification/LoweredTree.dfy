/** The trees the interpreter runs, and what it does with them: the value of an
assignment is its first child and is evaluated first, the target is its second. */
module LoweredTree {
  import opened SourceTree

  datatype LExpr =
    | LConst(v: Value)
    | LVar(x: Variable)
    | LElem(x: Variable, index: LExpr)
    | LParen(e: LExpr)
    | LMinus(e: LExpr)
    | LBinary(op: int, a: LExpr, b: LExpr)
    | LCond(c: LExpr, a: LExpr, b: LExpr)
    | LPostInc(x: Variable)
    | ASSIGN(r: LExpr, l: LExpr)            // stores into what the target holds
    | ASSIGN_REPLACE(r: LExpr, l: LExpr)    // replaces a whole variable

  datatype LStmts = LNil | LCons(s: LStmt, rest: LStmts)

  datatype LBranches =
    | LNoBranch
    | CSBLOCK(test: LExpr, body: LStmts, next: LBranches)
    | ELSEBLK(body: LStmts, next: LBranches)

  /** Loops, case and switch carry the range of the labels inside them. */
  datatype LStmt =
    | LExec(e: LExpr)
    | LInc(e: LExpr)
    | IF(c: LExpr, s: LStmt)
    | IF_ELSE(c: LExpr, s: LStmt, t: LStmt)
    | WHILE(lo: nat, hi: nat, c: LExpr, s: LStmt)
    | REPEAT(lo: nat, hi: nat, until: LExpr, body: LStmts)
    | FOR(lo: nat, hi: nat, x: Variable, a: LExpr, b: LExpr, body: LStmts)
    | FOR_STEP(lo: nat, hi: nat, x: Variable, a: LExpr, b: LExpr, step: LExpr, body: LStmts)
    | FOREACH(lo: nat, hi: nat, x: Variable, e: LExpr, body: LStmts)
    | FOREACH_INDEX(lo: nat, hi: nat, x: Variable, e: LExpr, ix: Variable, body: LStmts)
    | CASE(lo: nat, hi: nat, e: LExpr, branches: LBranches)
    | SWITCH(lo: nat, hi: nat, e: LExpr, branches: LBranches)
    | BLOCK(body: LStmts)
    | LABEL(name: string)
    | BREAK
    | CONTINUE

  /** Storing into a variable that holds an array gives the value to all its elements. */
  function Filled(l: Location, v: Value, s: Store): (r: Result<Value>) {
    if l.Whole? && l.p in s && s[l.p].Arr? && v.Scalar? then
      Ok(v, s[l.p := Arr(seq(|s[l.p].xs|, i => v.n))])
    else Stored(l, v, s)
  }

  function EvalL(sem: Sem, e: LExpr, s: Store): (r: Result<Value>)
    decreases e, 1
  {
    match e
    case LConst(v) => Ok(v, s)
    case LVar(x) => if x.place in s then Ok(s[x.place], s) else Err
    case LElem(x, index) =>
      var l := TargetL(sem, e, s);
      if l.Err? then Err
      else
        var v := Get(l.value, l.s);
        if v.Some? then Ok(v.value, l.s) else Err
    case LParen(e1) => EvalL(sem, e1, s)
    case LMinus(e1) =>
      var v := EvalL(sem, e1, s);
      if v.Ok? then Ok(sem.neg(v.value), v.s) else Err
    case LBinary(op, a, b) =>
      var v := EvalL(sem, a, s);
      if v.Err? then Err
      else
        var w := EvalL(sem, b, v.s);
        if w.Err? then Err else Operate(sem, op, v.value, w.value, w.s)
    case LCond(c, a, b) =>
      var v := EvalL(sem, c, s);
      if v.Err? || sem.truth(v.value).None? then Err
      else if sem.truth(v.value).value then EvalL(sem, a, v.s) else EvalL(sem, b, v.s)
    case LPostInc(x) => Increment(x.place, s)
    case ASSIGN(r, l) =>
      var v := EvalL(sem, r, s);
      if v.Err? then Err
      else
        var t := TargetL(sem, l, v.s);
        if t.Err? then Err else Filled(t.value, v.value, t.s)
    case ASSIGN_REPLACE(r, l) =>
      var v := EvalL(sem, r, s);
      if v.Err? then Err
      else
        var t := TargetL(sem, l, v.s);
        if t.Err? || t.value.Part? then Err else Stored(t.value, v.value, t.s)
  }

  function TargetL(sem: Sem, e: LExpr, s: Store): (r: Result<Location>)
    decreases e, 0
  {
    match e
    case LVar(x) => Ok(Whole(x.place), s)
    case LElem(x, index) =>
      var v := EvalL(sem, index, s);
      if v.Ok? && v.value.Scalar? then Ok(Part(x.place, v.value.n), v.s) else Err
    case _ => Err
  }

  function StepL(sem: Sem, start: Value, end: int, step: Option<LExpr>, s: Store): (r: Option<Range>) {
    var z := if step.Some? then EvalL(sem, step.value, s) else Ok(Scalar(1), s);
    if Bound(z).None? then None else Some(Range(start, end, z.value.n, z.s))
  }

  function EndL(sem: Sem, start: Value, b: LExpr, step: Option<LExpr>, s: Store): (r: Option<Range>) {
    var w := EvalL(sem, b, s);
    if Bound(w).None? then None else StepL(sem, start, w.value.n, step, w.s)
  }

  function BoundsL(sem: Sem, a: LExpr, b: LExpr, step: Option<LExpr>, s: Store): (r: Option<Range>) {
    var v := EvalL(sem, a, s);
    if Bound(v).None? then None else EndL(sem, v.value, b, step, v.s)
  }

  function ExecL(sem: Sem, fuel: nat, t: LStmt, s: Store): (r: Outcome)
    decreases fuel, t, 1
  {
    match t
    case LExec(e) => AsDone(EvalL(sem, e, s))
    case LInc(e) => AsDone(EvalL(sem, e, s))
    case IF(c, t1) => IfL(sem, fuel, c, t1, s)
    case IF_ELSE(c, t1, t2) => IfElseL(sem, fuel, c, t1, t2, s)
    case WHILE(_, _, c, t1) => WhileL(sem, fuel, c, t1, s)
    case REPEAT(_, _, until, body) => RepeatL(sem, fuel, body, until, s)
    case FOR(_, _, x, a, b, body) => ForHeadL(sem, fuel, x, a, b, None, body, s)
    case FOR_STEP(_, _, x, a, b, step, body) => ForHeadL(sem, fuel, x, a, b, Some(step), body, s)
    case FOREACH(_, _, x, e, body) => ForeachHeadL(sem, fuel, x, e, None, body, s)
    case FOREACH_INDEX(_, _, x, e, ix, body) => ForeachHeadL(sem, fuel, x, e, Some(ix), body, s)
    case CASE(_, _, e, branches) => CaseHeadL(sem, fuel, e, branches, s)
    case SWITCH(_, _, e, branches) => SwitchHeadL(sem, fuel, e, branches, s)
    case BLOCK(body) => ExecAllL(sem, fuel, body, s)
    case LABEL(_) => Done(s, Normal)
    case BREAK => Done(s, Break)
    case CONTINUE => Done(s, Continue)
  }

  function IfL(sem: Sem, fuel: nat, c: LExpr, t1: LStmt, s: Store): (r: Outcome)
    decreases fuel, t1, 2
  {
    var v := EvalL(sem, c, s);
    var b := Test(sem, v);
    if b.None? then Failed else if b.value then ExecL(sem, fuel, t1, v.s) else Done(v.s, Normal)
  }

  function IfElseL(sem: Sem, fuel: nat, c: LExpr, t1: LStmt, t2: LStmt, s: Store): (r: Outcome)
    decreases fuel, IF_ELSE(c, t1, t2), 0
  {
    var v := EvalL(sem, c, s);
    var b := Test(sem, v);
    if b.None? then Failed else if b.value then ExecL(sem, fuel, t1, v.s) else ExecL(sem, fuel, t2, v.s)
  }

  function ForHeadL(sem: Sem, fuel: nat, x: Variable, a: LExpr, b: LExpr, step: Option<LExpr>, body: LStmts,
                    s: Store): (r: Outcome)
    decreases fuel, body, 2
  {
    var r := BoundsL(sem, a, b, step, s);
    if r.None? then Failed
    else ForL(sem, fuel, x.place, r.value.end, r.value.step, body, r.value.s[x.place := r.value.start])
  }

  function ForeachHeadL(sem: Sem, fuel: nat, x: Variable, e: LExpr, ix: Option<Variable>, body: LStmts,
                        s: Store): (r: Outcome)
    decreases fuel, body, 2
  {
    var v := EvalL(sem, e, s);
    if v.Err? then Failed else ForeachL(sem, fuel, x, ix, Elements(v.value), 0, body, v.s)
  }

  function CaseHeadL(sem: Sem, fuel: nat, e: LExpr, branches: LBranches, s: Store): (r: Outcome)
    decreases fuel, branches, 2
  {
    var v := EvalL(sem, e, s);
    if v.Err? then Failed else CaseL(sem, fuel, v.value, branches, v.s)
  }

  function SwitchHeadL(sem: Sem, fuel: nat, e: LExpr, branches: LBranches, s: Store): (r: Outcome)
    decreases fuel, branches, 2
  {
    var v := EvalL(sem, e, s);
    if v.Err? then Failed else SwitchL(sem, fuel, v.value, branches, false, v.s)
  }

  function ExecAllL(sem: Sem, fuel: nat, ts: LStmts, s: Store): (r: Outcome)
    decreases fuel, ts, 0
  {
    match ts
    case LNil => Done(s, Normal)
    case LCons(t, rest) =>
      var r := ExecL(sem, fuel, t, s);
      if r.Done? && r.c.Normal? then ExecAllL(sem, fuel, rest, r.s) else r
  }

  function WhileL(sem: Sem, fuel: nat, c: LExpr, t: LStmt, s: Store): (r: Outcome)
    decreases fuel, t, 2
  {
    if fuel == 0 then OutOfFuel
    else
      var v := EvalL(sem, c, s);
      var b := Test(sem, v);
      if b.None? then Failed
      else if !b.value then Done(v.s, Normal)
      else
        var r := ExecL(sem, fuel - 1, t, v.s);
        if !r.Done? then r else if r.c.Break? then Done(r.s, Normal) else WhileL(sem, fuel - 1, c, t, r.s)
  }

  function RepeatL(sem: Sem, fuel: nat, body: LStmts, until: LExpr, s: Store): (r: Outcome)
    decreases fuel, body, 1
  {
    if fuel == 0 then OutOfFuel
    else
      var r := ExecAllL(sem, fuel - 1, body, s);
      if !r.Done? then r
      else if r.c.Break? then Done(r.s, Normal)
      else
        var v := EvalL(sem, until, r.s);
        var b := Test(sem, v);
        if b.None? then Failed else if b.value then Done(v.s, Normal) else RepeatL(sem, fuel - 1, body, until, v.s)
  }

  function ForL(sem: Sem, fuel: nat, p: Place, end: int, step: int, body: LStmts, s: Store): (r: Outcome)
    decreases fuel, body, 1
  {
    if fuel == 0 then OutOfFuel
    else
      var b := Goes(s, p, end, step);
      if b.None? then Failed
      else if !b.value then Done(s, Normal)
      else
        var r := ExecAllL(sem, fuel - 1, body, s);
        if !r.Done? then r
        else if r.c.Break? then Done(r.s, Normal)
        else if Goes(r.s, p, end, step).None? then Failed
        else ForL(sem, fuel - 1, p, end, step, body, Stepped(r.s, p, step))
  }

  function ForeachL(sem: Sem, fuel: nat, x: Variable, ix: Option<Variable>, xs: seq<int>, i: nat, body: LStmts,
                    s: Store): (r: Outcome)
    decreases fuel, body, 1
  {
    if fuel == 0 then OutOfFuel
    else if i >= |xs| then Done(s, Normal)
    else
      var r := ExecAllL(sem, fuel - 1, body, Entered(s, x, ix, xs, i));
      if !r.Done? then r else if r.c.Break? then Done(r.s, Normal)
          else ForeachL(sem, fuel - 1, x, ix, xs, i + 1, body, r.s)
  }

  function CaseL(sem: Sem, fuel: nat, v: Value, bs: LBranches, s: Store): (r: Outcome)
    decreases fuel, bs, 1
  {
    match bs
    case LNoBranch => Failed
    case ELSEBLK(body, _) => Unbroken(ExecAllL(sem, fuel, body, s))
    case CSBLOCK(test, body, next) =>
      var w := EvalL(sem, test, s);
      if w.Err? then Failed
      else if sem.same(v, w.value) then Unbroken(ExecAllL(sem, fuel, body, w.s)) else CaseL(sem, fuel, v, next, w.s)
  }

  function TakenL(sem: Sem, fuel: nat, v: Value, bs: LBranches, s: Store): (r: Outcome)
    requires !bs.LNoBranch?
    decreases fuel, bs, 0
  {
    var r := ExecAllL(sem, fuel, bs.body, s);
    if r.Done? && r.c.Normal? then SwitchL(sem, fuel, v, bs.next, true, r.s) else Unbroken(r)
  }

  function SwitchL(sem: Sem, fuel: nat, v: Value, bs: LBranches, hit: bool, s: Store): (r: Outcome)
    decreases fuel, bs, 1
  {
    if bs.LNoBranch? then Done(s, Normal)
    else if hit || bs.ELSEBLK? then TakenL(sem, fuel, v, bs, s)
    else
      var w := EvalL(sem, bs.test, s);
      if w.Err? then Failed
      else if sem.same(v, w.value) then TakenL(sem, fuel, v, bs, w.s)
      else SwitchL(sem, fuel, v, bs.next, false, w.s)
  }
}
