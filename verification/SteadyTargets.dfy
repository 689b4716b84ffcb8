/** When no order can matter, told from the program's text: the index of a target has no side
effects and does not depend on what the right-hand side may change. */
module SteadyTargets {
  import opened SourceTree
  import opened LoweredTree
  import opened TreeLowering
  import opened EvaluationOrder
  import opened LoweringMeaning

  // ----- what an expression reads and writes -----

  predicate Pure(e: Expr) {
    match e
    case Const(_) => true
    case Ref(_) => true
    case Elem(_, index) => Pure(index)
    case Paren(a) => Pure(a)
    case Minus(a) => Pure(a)
    case Binary(_, a, b) => Pure(a) && Pure(b)
    case Cond(c, a, b) => Pure(c) && Pure(a) && Pure(b)
    case _ => false
  }

  function Reads(e: Expr): (r: set<Place>) {
    match e
    case Const(_) => {}
    case Ref(x) => {x.place}
    case Elem(x, index) => {x.place} + Reads(index)
    case Paren(a) => Reads(a)
    case Minus(a) => Reads(a)
    case Binary(_, a, b) => Reads(a) + Reads(b)
    case Cond(c, a, b) => Reads(c) + Reads(a) + Reads(b)
    case PostInc(x) => {x.place}
    case Assign(l, r) => Reads(l) + Reads(r)
    case OpAssign(_, l, r) => Reads(l) + Reads(r)
  }

  /** The places an assignment to e may change, with those its index may change. */
  function WritesTo(e: Expr): (r: set<Place>)
    decreases e, 0
  {
    match e
    case Ref(x) => {x.place}
    case Elem(x, index) => {x.place} + Writes(index)
    case Paren(a) => WritesTo(a)
    case _ => {}
  }

  function Writes(e: Expr): (r: set<Place>)
    decreases e, 1
  {
    match e
    case Const(_) => {}
    case Ref(x) => {}
    case Elem(x, index) => Writes(index)
    case Paren(a) => Writes(a)
    case Minus(a) => Writes(a)
    case Binary(_, a, b) => Writes(a) + Writes(b)
    case Cond(c, a, b) => Writes(c) + Writes(a) + Writes(b)
    case PostInc(x) => {x.place}
    case Assign(l, r) => WritesTo(l) + Writes(r)
    case OpAssign(_, l, r) => WritesTo(l) + Writes(r)
  }

  /** The target's index has no side effects, and is not changed by evaluating the value. */
  predicate Steady(sem: Sem, l: Expr, r: Expr) {
    match l
    case Elem(_, index) => Pure(index) && Reads(index) !! Writes(r)
    case Paren(a) => Steady(sem, a, r)
    case Assign(a, b) => !IsSelf(sem, a, b)
    case _ => true
  }

  /** All assignments in e have steady targets. */
  predicate Careful(sem: Sem, e: Expr) {
    match e
    case Elem(_, index) => Careful(sem, index)
    case Paren(a) => Careful(sem, a)
    case Minus(a) => Careful(sem, a)
    case Binary(_, a, b) => Careful(sem, a) && Careful(sem, b)
    case Cond(c, a, b) => Careful(sem, c) && Careful(sem, a) && Careful(sem, b)
    case Assign(l, r) => Careful(sem, r) && Steady(sem, l, r)
    case OpAssign(_, l, r) => Careful(sem, r) && Steady(sem, l, r)
    case _ => true
  }

  ghost predicate Agree(s: Store, t: Store, ps: set<Place>) {
    forall p :: p in ps ==> (p in s <==> p in t) && (p in s ==> s[p] == t[p])
  }

  ghost predicate OnlyIn(s: Store, t: Store, ps: set<Place>) {
    forall p :: p !in ps ==> (p in s <==> p in t) && (p in s ==> s[p] == t[p])
  }

  lemma PutOnly(l: Location, v: Value, s: Store)
    requires Put(l, v, s).Some?
    ensures OnlyIn(s, Put(l, v, s).value, {l.p})
  {
  }

  lemma OnlyThen(s: Store, t: Store, u: Store, ps: set<Place>, qs: set<Place>, rs: set<Place>)
    requires OnlyIn(s, t, ps) && OnlyIn(t, u, qs) && ps + qs <= rs
    ensures OnlyIn(s, u, rs)
  {
  }

  lemma {:induction false} TargetWrites(sem: Sem, e: Expr, s: Store)
    requires Target(sem, e, s).Ok?
    ensures OnlyIn(s, Target(sem, e, s).s, WritesTo(e)) && Target(sem, e, s).value.p in WritesTo(e)
    decreases e, 0
  {
    match e
    case Ref(x) =>
    case Elem(x, index) => EvalWrites(sem, index, s);
    case Paren(a) => TargetWrites(sem, a, s);
    case _ =>
  }

  lemma {:induction false} IndexWrites(sem: Sem, x: Variable, index: Expr, s: Store)
    requires Target(sem, Elem(x, index), s).Ok?
    ensures OnlyIn(s, Target(sem, Elem(x, index), s).s, Writes(index))
    decreases index, 2
  {
    EvalWrites(sem, index, s);
  }

  /** Evaluation changes no more than it may write. */
  lemma {:induction false} EvalWrites(sem: Sem, e: Expr, s: Store)
    requires Eval(sem, e, s).Ok?
    ensures OnlyIn(s, Eval(sem, e, s).s, Writes(e))
    decreases e, 1
  {
    match e
    case Elem(x, index) => IndexWrites(sem, x, index, s);
    case Paren(a) => EvalWrites(sem, a, s);
    case Minus(a) => EvalWrites(sem, a, s);
    case Binary(_, a, b) =>
      EvalWrites(sem, a, s);
      EvalWrites(sem, b, Eval(sem, a, s).s);
      OnlyThen(s, Eval(sem, a, s).s, Eval(sem, e, s).s, Writes(a), Writes(b), Writes(e));
    case Cond(c, a, b) =>
      var v := Eval(sem, c, s);
      EvalWrites(sem, c, s);
      if sem.truth(v.value).value {
        EvalWrites(sem, a, v.s);
        OnlyThen(s, v.s, Eval(sem, e, s).s, Writes(c), Writes(a), Writes(e));
      } else {
        EvalWrites(sem, b, v.s);
        OnlyThen(s, v.s, Eval(sem, e, s).s, Writes(c), Writes(b), Writes(e));
      }
    case Assign(l, r) => AssignWrites(sem, e, l, r, s);
    case OpAssign(_, l, r) => AssignWrites(sem, e, l, r, s);
    case _ =>
  }

  lemma AssignWrites(sem: Sem, e: Expr, l: Expr, r: Expr, s: Store)
    requires (e.Assign? || e.OpAssign?) && e.l == l && e.r == r && Eval(sem, e, s).Ok?
    ensures OnlyIn(s, Eval(sem, e, s).s, WritesTo(l) + Writes(r))
    decreases e, 0
  {
    var t := Target(sem, l, s);
    var v := Eval(sem, r, t.s);
    TargetWrites(sem, l, s);
    EvalWrites(sem, r, t.s);
    OnlyThen(s, t.s, v.s, WritesTo(l), Writes(r), WritesTo(l) + Writes(r));
    var w := if e.Assign? then v.value else Operate(sem, e.op, Get(t.value, t.s).value, v.value, v.s).value;
    PutOnly(t.value, w, v.s);
    OnlyThen(s, v.s, Eval(sem, e, s).s, WritesTo(l) + Writes(r), {t.value.p}, WritesTo(l) + Writes(r));
  }

  /** A pure expression changes nothing, and what it gives depends only on what it reads. */
  lemma {:induction false} PureEval(sem: Sem, e: Expr, s: Store, t: Store)
    requires Pure(e) && Agree(s, t, Reads(e))
    ensures Eval(sem, e, s).Ok? ==> Eval(sem, e, s).s == s && Eval(sem, e, t) == Ok(Eval(sem, e, s).value, t)
    ensures Eval(sem, e, s).Err? ==> Eval(sem, e, t).Err?
    decreases e
  {
    match e
    case Elem(x, index) =>
      PureEval(sem, index, s, t);
      PureElem(sem, x, index, s, t);
    case Paren(a) => PureEval(sem, a, s, t);
    case Minus(a) => PureEval(sem, a, s, t);
    case Binary(_, a, b) =>
      PureEval(sem, a, s, t);
      PureEval(sem, b, s, t);
    case Cond(c, a, b) =>
      PureEval(sem, c, s, t);
      PureEval(sem, a, s, t);
      PureEval(sem, b, s, t);
    case _ =>
  }

  lemma PureElem(sem: Sem, x: Variable, index: Expr, s: Store, t: Store)
    requires x.place in s <==> x.place in t
    requires x.place in s ==> s[x.place] == t[x.place]
    requires Eval(sem, index, s).Ok?
        ==> Eval(sem, index, s).s == s && Eval(sem, index, t) == Ok(Eval(sem, index, s).value, t)
    requires Eval(sem, index, s).Err? ==> Eval(sem, index, t).Err?
    ensures var e := Elem(x, index);
            && (Eval(sem, e, s).Ok? ==> Eval(sem, e, s).s == s && Eval(sem, e, t) == Ok(Eval(sem, e, s).value, t))
            && (Eval(sem, e, s).Err? ==> Eval(sem, e, t).Err?)
  {
    var e, v := Elem(x, index), Eval(sem, index, s);
    if v.Ok? && v.value.Scalar? {
      assert Target(sem, e, s) == Ok(Part(x.place, v.value.n), s);
      assert Target(sem, e, t) == Ok(Part(x.place, v.value.n), t);
    }
  }

  /** A steady target is the same location before and after the value is evaluated. */
  lemma {:induction false} SteadyTarget(sem: Sem, l: Expr, r: Expr, s: Store, t: Store)
    requires Steady(sem, l, r) && OnlyIn(s, t, Writes(r))
    ensures Target(sem, l, s).Ok? ==> Target(sem, l, s).s == s && Target(sem, l, t) == Ok(Target(sem, l, s).value, t)
    ensures Target(sem, l, s).Err? ==> Target(sem, l, t).Err?
    decreases l
  {
    match l
    case Elem(x, index) =>
      assert Agree(s, t, Reads(index));
      PureEval(sem, index, s, t);
    case Paren(a) => SteadyTarget(sem, a, r, s, t);
    case _ =>
  }

  // ----- with steady targets no order matters -----

  lemma {:induction false} PureInOrder(sem: Sem, e: Expr, s: Store)
    requires Pure(e)
    ensures InOrder(sem, e, s)
    decreases e
  {
    match e
    case Elem(_, index) => PureInOrder(sem, index, s);
    case Paren(a) => PureInOrder(sem, a, s);
    case Minus(a) => PureInOrder(sem, a, s);
    case Binary(_, a, b) =>
      PureInOrder(sem, a, s);
      if Eval(sem, a, s).Ok? {
        PureInOrder(sem, b, Eval(sem, a, s).s);
      }
    case Cond(c, a, b) =>
      PureInOrder(sem, c, s);
      if Eval(sem, c, s).Ok? {
        PureInOrder(sem, a, Eval(sem, c, s).s);
        PureInOrder(sem, b, Eval(sem, c, s).s);
      }
    case _ =>
  }

  lemma {:induction false} SteadyTargetInOrder(sem: Sem, l: Expr, r: Expr, s: Store)
    requires Steady(sem, l, r)
    ensures TargetInOrder(sem, l, s)
    decreases l
  {
    match l
    case Elem(_, index) => PureInOrder(sem, index, s);
    case Paren(a) => SteadyTargetInOrder(sem, a, r, s);
    case _ =>
  }

  lemma SteadyOrder(sem: Sem, l: Expr, r: Expr, s: Store)
    requires Steady(sem, l, r)
    ensures TargetFirst(sem, l, r, s) == ValueFirst(sem, l, r, s)
  {
    var v := Eval(sem, r, s);
    SteadyTarget(sem, l, r, s, s);
    if v.Ok? {
      EvalWrites(sem, r, s);
      SteadyTarget(sem, l, r, s, v.s);
    }
  }

  lemma SteadyTwice(sem: Sem, op: int, l: Expr, r: Expr, s: Store)
    requires Steady(sem, l, r)
    ensures TargetOnce(sem, op, l, r, s) == TargetTwice(sem, op, l, r, s)
    ensures Target(sem, l, s).Ok? ==> Target(sem, l, s).s == s
  {
    var x := TargetOnce(sem, op, l, r, s);
    SteadyTarget(sem, l, r, s, s);
    if x.Ok? {
      EvalWrites(sem, r, s);
      SteadyTarget(sem, l, r, s, x.s);
    }
  }

  /** With steady targets no order matters, in any store. */
  lemma {:induction false} CarefulInOrder(sem: Sem, e: Expr, s: Store)
    requires Careful(sem, e)
    ensures InOrder(sem, e, s)
    decreases e
  {
    match e
    case Elem(_, index) => CarefulInOrder(sem, index, s);
    case Paren(a) => CarefulInOrder(sem, a, s);
    case Minus(a) => CarefulInOrder(sem, a, s);
    case Binary(_, a, b) =>
      CarefulInOrder(sem, a, s);
      if Eval(sem, a, s).Ok? {
        CarefulInOrder(sem, b, Eval(sem, a, s).s);
      }
    case Cond(c, a, b) =>
      CarefulInOrder(sem, c, s);
      if Eval(sem, c, s).Ok? {
        CarefulInOrder(sem, a, Eval(sem, c, s).s);
        CarefulInOrder(sem, b, Eval(sem, c, s).s);
      }
    case Assign(l, r) =>
      CarefulInOrder(sem, r, s);
      SteadyTargetInOrder(sem, l, r, if Eval(sem, r, s).Ok? then Eval(sem, r, s).s else s);
      SteadyOrder(sem, l, r, s);
      AlwaysSame(TargetFirst(sem, l, r, s));
    case OpAssign(op, l, r) =>
      CarefulInOrder(sem, r, s);
      CarefulOpAssign(sem, op, l, r, s);
    case _ =>
  }

  lemma AlwaysSame(x: Storing)
    ensures SameStoring(x, x)
  {
  }

  lemma CarefulOpAssign(sem: Sem, op: int, l: Expr, r: Expr, s: Store)
    requires Steady(sem, l, r) && InOrder(sem, r, s)
    ensures InOrder(sem, OpAssign(op, l, r), s)
  {
    var x := TargetOnce(sem, op, l, r, s);
    SteadyTargetInOrder(sem, l, r, s);
    SteadyTargetInOrder(sem, l, r, if x.Ok? then x.s else s);
    SteadyTwice(sem, op, l, r, s);
    AlwaysSame(x);
  }

  // ----- statements -----

  /** All targets in t are steady; a strict one assigns no variable to itself. */
  predicate CarefulStmt(sem: Sem, strict: bool, t: Stmt) {
    match t
    case SAssign(l, r) => Careful(sem, Assign(l, r)) && (strict ==> !IsSelf(sem, l, r))
    case SOpAssign(op, l, r) => Careful(sem, OpAssign(op, l, r))
    case SInc(e) => Careful(sem, e)
    case SIf(c, t1) => Careful(sem, c) && CarefulStmt(sem, strict, t1)
    case SIfElse(c, t1, t2) => Careful(sem, c) && CarefulStmt(sem, strict, t1) && CarefulStmt(sem, strict, t2)
    case SWhile(c, t1) => Careful(sem, c) && CarefulStmt(sem, strict, t1)
    case SRepeat(body, until) => CarefulStmts(sem, strict, body) && Careful(sem, until)
    case SFor(_, a, b, step, body) =>
      Careful(sem, a) && Careful(sem, b) && (step.Some? ==> Careful(sem, step.value)) && CarefulStmts(sem, strict, body)
    case SForeach(_, e, _, body) => Careful(sem, e) && CarefulStmts(sem, strict, body)
    case SCase(e, branches) => Careful(sem, e) && CarefulBranches(sem, strict, branches)
    case SSwitch(e, branches) => Careful(sem, e) && CarefulBranches(sem, strict, branches)
    case SBlock(body) => CarefulStmts(sem, strict, body)
    case _ => true
  }

  predicate CarefulStmts(sem: Sem, strict: bool, ts: Stmts) {
    ts.Cons? ==> CarefulStmt(sem, strict, ts.s) && CarefulStmts(sem, strict, ts.rest)
  }

  predicate CarefulBranches(sem: Sem, strict: bool, bs: Branches) {
    !bs.NoBranch? ==>
      && (bs.Branch? ==> Careful(sem, bs.test))
      && CarefulStmts(sem, strict, bs.body) && CarefulBranches(sem, strict, bs.next)
  }

  lemma {:induction false} CarefulWhile(sem: Sem, strict: bool, fuel: nat, t: Stmt, s: Store)
    requires t.SWhile? && CarefulStmt(sem, strict, t) && (strict || !While(sem, fuel, t.c, t.s, s).Failed?)
    ensures WhileInOrder(sem, fuel, t.c, t.s, s)
    decreases fuel, t, 0
  {
    if fuel > 0 {
      var v := Eval(sem, t.c, s);
      CarefulInOrder(sem, t.c, s);
      if Test(sem, v) == Some(true) {
        var r := Exec(sem, fuel - 1, t.s, v.s);
        assert strict || !r.Failed?;
        CarefulRun(sem, strict, fuel - 1, t.s, v.s);
        if r.Done? && !r.c.Break? {
          assert While(sem, fuel, t.c, t.s, s) == While(sem, fuel - 1, t.c, t.s, r.s);
          CarefulWhile(sem, strict, fuel - 1, t, r.s);
        }
      }
    }
  }

  lemma {:induction false} CarefulRepeat(sem: Sem, strict: bool, fuel: nat, body: Stmts, until: Expr, s: Store)
    requires CarefulStmts(sem, strict, body) && Careful(sem, until)
        && (strict || !Repeat(sem, fuel, body, until, s).Failed?)
    ensures RepeatInOrder(sem, fuel, body, until, s)
    decreases fuel, body, 2
  {
    if fuel > 0 {
      var r := ExecAll(sem, fuel - 1, body, s);
      CarefulAll(sem, strict, fuel - 1, body, s);
      if r.Done? && !r.c.Break? {
        var v := Eval(sem, until, r.s);
        CarefulInOrder(sem, until, r.s);
        if Test(sem, v) == Some(false) {
          CarefulRepeat(sem, strict, fuel - 1, body, until, v.s);
        }
      }
    }
  }

  lemma {:induction false} CarefulFor(sem: Sem, strict: bool, fuel: nat, p: Place, end: int, step: int, body: Stmts,
                                      s: Store)
    requires CarefulStmts(sem, strict, body) && (strict || !For(sem, fuel, p, end, step, body, s).Failed?)
    ensures ForInOrder(sem, fuel, p, end, step, body, s)
    decreases fuel, body, 1
  {
    if fuel > 0 && Goes(s, p, end, step) == Some(true) {
      var r := ExecAll(sem, fuel - 1, body, s);
      CarefulAll(sem, strict, fuel - 1, body, s);
      if r.Done? && !r.c.Break? && Goes(r.s, p, end, step).Some? {
        CarefulFor(sem, strict, fuel - 1, p, end, step, body, Stepped(r.s, p, step));
      }
    }
  }

  lemma CarefulBounds(sem: Sem, a: Expr, b: Expr, step: Option<Expr>, s: Store)
    requires Careful(sem, a) && Careful(sem, b) && (step.Some? ==> Careful(sem, step.value))
    ensures BoundsInOrder(sem, a, b, step, s)
  {
    var v := Eval(sem, a, s);
    CarefulInOrder(sem, a, s);
    if Bound(v).Some? {
      var w := Eval(sem, b, v.s);
      CarefulInOrder(sem, b, v.s);
      if Bound(w).Some? && step.Some? {
        CarefulInOrder(sem, step.value, w.s);
      }
    }
  }

  lemma {:induction false} CarefulForeach(sem: Sem, strict: bool, fuel: nat, x: Variable, ix: Option<Variable>,
                                          xs: seq<int>, i: nat, body: Stmts, s: Store)
    requires CarefulStmts(sem, strict, body) && (strict || !Foreach(sem, fuel, x, ix, xs, i, body, s).Failed?)
    ensures ForeachInOrder(sem, fuel, x, ix, xs, i, body, s)
    decreases fuel, body, 1
  {
    if fuel > 0 && i < |xs| {
      var s' := Entered(s, x, ix, xs, i);
      var r := ExecAll(sem, fuel - 1, body, s');
      CarefulAll(sem, strict, fuel - 1, body, s');
      if r.Done? && !r.c.Break? {
        CarefulForeach(sem, strict, fuel - 1, x, ix, xs, i + 1, body, r.s);
      }
    }
  }

  lemma {:induction false} CarefulCase(sem: Sem, strict: bool, fuel: nat, v: Value, bs: Branches, s: Store)
    requires CarefulBranches(sem, strict, bs) && (strict || !Case(sem, fuel, v, bs, s).Failed?)
    ensures CaseInOrder(sem, fuel, v, bs, s)
    decreases fuel, bs, 0
  {
    match bs
    case Else(body, _) => CarefulAll(sem, strict, fuel, body, s);
    case Branch(test, body, next) =>
      CarefulInOrder(sem, test, s);
      var w := Eval(sem, test, s);
      if w.Ok? {
        if sem.same(v, w.value) {
          CarefulAll(sem, strict, fuel, body, w.s);
        } else {
          CarefulCase(sem, strict, fuel, v, next, w.s);
        }
      }
    case NoBranch =>
  }

  lemma {:induction false} CarefulTaken(sem: Sem, strict: bool, fuel: nat, v: Value, bs: Branches, s: Store)
    requires !bs.NoBranch? && CarefulBranches(sem, strict, bs) && (strict || !Taken(sem, fuel, v, bs, s).Failed?)
    ensures TakenInOrder(sem, fuel, v, bs, s)
    decreases fuel, bs, 0
  {
    var r := ExecAll(sem, fuel, bs.body, s);
    CarefulAll(sem, strict, fuel, bs.body, s);
    if r.Done? && r.c.Normal? {
      CarefulSwitch(sem, strict, fuel, v, bs.next, true, r.s);
    }
  }

  lemma {:induction false} CarefulSwitch(sem: Sem, strict: bool, fuel: nat, v: Value, bs: Branches, hit: bool, s: Store)
    requires CarefulBranches(sem, strict, bs) && (strict || !Switch(sem, fuel, v, bs, hit, s).Failed?)
    ensures SwitchInOrder(sem, fuel, v, bs, hit, s)
    decreases fuel, bs, 1
  {
    if bs.NoBranch? {
    } else if hit || bs.Else? {
      CarefulTaken(sem, strict, fuel, v, bs, s);
    } else {
      CarefulInOrder(sem, bs.test, s);
      var w := Eval(sem, bs.test, s);
      if w.Ok? {
        if sem.same(v, w.value) {
          CarefulTaken(sem, strict, fuel, v, bs, w.s);
        } else {
          CarefulSwitch(sem, strict, fuel, v, bs.next, false, w.s);
        }
      }
    }
  }

  lemma {:induction false} CarefulAll(sem: Sem, strict: bool, fuel: nat, ts: Stmts, s: Store)
    requires CarefulStmts(sem, strict, ts) && (strict || !ExecAll(sem, fuel, ts, s).Failed?)
    ensures AllInOrder(sem, fuel, ts, s)
    decreases fuel, ts, 0
  {
    if ts.Cons? {
      var r := Exec(sem, fuel, ts.s, s);
      CarefulRun(sem, strict, fuel, ts.s, s);
      if r.Done? && r.c.Normal? {
        CarefulAll(sem, strict, fuel, ts.rest, r.s);
      }
    }
  }

  lemma {:induction false} CarefulLoop(sem: Sem, strict: bool, fuel: nat, t: Stmt, s: Store)
    requires t.SWhile? || t.SRepeat? || t.SFor? || t.SForeach?
    requires CarefulStmt(sem, strict, t) && (strict || !Exec(sem, fuel, t, s).Failed?)
    ensures RunInOrder(sem, fuel, t, s)
    decreases fuel, t, 1
  {
    match t
    case SWhile(_, _) => CarefulWhile(sem, strict, fuel, t, s);
    case SRepeat(body, until) => CarefulRepeat(sem, strict, fuel, body, until, s);
    case SFor(x, a, b, step, body) =>
      var r := Bounds(sem, a, b, step, s);
      CarefulBounds(sem, a, b, step, s);
      if r.Some? {
        CarefulFor(sem, strict, fuel, x.place, r.value.end, r.value.step, body, r.value.s[x.place := r.value.start]);
      }
    case SForeach(x, e, ix, body) =>
      var v := Eval(sem, e, s);
      CarefulInOrder(sem, e, s);
      if v.Ok? {
        CarefulForeach(sem, strict, fuel, x, ix, Elements(v.value), 0, body, v.s);
      }
  }

  lemma {:induction false} CarefulChoice(sem: Sem, strict: bool, fuel: nat, t: Stmt, s: Store)
    requires t.SIf? || t.SIfElse? || t.SCase? || t.SSwitch?
    requires CarefulStmt(sem, strict, t) && (strict || !Exec(sem, fuel, t, s).Failed?)
    ensures RunInOrder(sem, fuel, t, s)
    decreases fuel, t, 0
  {
    var e := if t.SIf? || t.SIfElse? then t.c else t.e;
    var v := Eval(sem, e, s);
    CarefulInOrder(sem, e, s);
    if (t.SIf? || t.SIfElse?) && Test(sem, v) == Some(true) {
      CarefulRun(sem, strict, fuel, t.s, v.s);
    } else if t.SIfElse? && Test(sem, v) == Some(false) {
      CarefulRun(sem, strict, fuel, t.t, v.s);
    } else if t.SCase? && v.Ok? {
      CarefulCase(sem, strict, fuel, v.value, t.branches, v.s);
    } else if t.SSwitch? && v.Ok? {
      CarefulSwitch(sem, strict, fuel, v.value, t.branches, false, v.s);
    }
  }

  lemma {:induction false} CarefulSimple(sem: Sem, strict: bool, fuel: nat, t: Stmt, s: Store)
    requires t.SAssign? || t.SOpAssign? || t.SInc?
    requires CarefulStmt(sem, strict, t) && (strict || !Exec(sem, fuel, t, s).Failed?)
    ensures RunInOrder(sem, fuel, t, s)
  {
    var e := if t.SAssign? then Assign(t.l, t.r) else if t.SOpAssign? then OpAssign(t.op, t.l, t.r) else t.e;
    CarefulInOrder(sem, e, s);
    if t.SAssign? && IsSelf(sem, t.l, t.r) {
      EvalMeaning(sem, e, s);
    }
  }

  /** A run of a careful statement is one in which no order matters, if it does not fail or no variable
      is assigned to itself. */
  lemma {:induction false} CarefulRun(sem: Sem, strict: bool, fuel: nat, t: Stmt, s: Store)
    requires CarefulStmt(sem, strict, t) && (strict || !Exec(sem, fuel, t, s).Failed?)
    ensures RunInOrder(sem, fuel, t, s)
    decreases fuel, t, 2
  {
    if t.SWhile? || t.SRepeat? || t.SFor? || t.SForeach? {
      CarefulLoop(sem, strict, fuel, t, s);
    } else if t.SIf? || t.SIfElse? || t.SCase? || t.SSwitch? {
      CarefulChoice(sem, strict, fuel, t, s);
    } else if t.SBlock? {
      CarefulAll(sem, strict, fuel, t.body, s);
    } else if t.SAssign? || t.SOpAssign? || t.SInc? {
      CarefulSimple(sem, strict, fuel, t, s);
    }
  }

  /** Lowering a careful statement keeps its meaning. */
  lemma CarefulMeaning(sem: Sem, strict: bool, fuel: nat, t: Stmt, s: Store, labels: seq<string>)
    requires CarefulStmt(sem, strict, t) && (strict || !Exec(sem, fuel, t, s).Failed?)
    requires LowerStmt(sem, t, labels).Lowered?
    ensures ExecL(sem, fuel, LowerStmt(sem, t, labels).tree, s) == Exec(sem, fuel, t, s)
  {
    CarefulRun(sem, strict, fuel, t, s);
    ExecMeaning(sem, fuel, t, s, labels);
  }

  // ----- exactly when the order matters to an element -----

  lemma PureTarget(sem: Sem, x: Variable, index: Expr, s: Store)
    requires Pure(index)
    ensures Target(sem, Elem(x, index), s).Ok? ==> Target(sem, Elem(x, index), s).s == s
    ensures TargetInOrder(sem, Elem(x, index), s)
  {
    PureEval(sem, index, s, s);
    PureInOrder(sem, index, s);
  }

  /** An assignment to an element whose index has no side effects keeps its meaning exactly when the index still names
      this element once the value was evaluated, or both elements hold the value then. */
  lemma ElementAssignExact(sem: Sem, x: Variable, index: Expr, r: Expr, s: Store)
    requires Pure(index) && InOrder(sem, r, s) && LowerExpr(sem, Assign(Elem(x, index), r)).Some?
    requires Eval(sem, Assign(Elem(x, index), r), s).Ok?
    ensures var t, v := Target(sem, Elem(x, index), s), Eval(sem, r, s);
            && t.Ok? && v.Ok?
            && var k := Target(sem, Elem(x, index), v.s);
               EvalL(sem, LowerExpr(sem, Assign(Elem(x, index), r)).value, s) == Eval(sem, Assign(Elem(x, index), r), s)
               <==> k.Ok? && (k.value == t.value || Get(t.value, v.s) == Get(k.value, v.s) == Some(v.value))
  {
    var t, v := Target(sem, Elem(x, index), s), Eval(sem, r, s);
    PureTarget(sem, x, index, s);
    PureTarget(sem, x, index, v.s);
    AssignExact(sem, Elem(x, index), r, s);
    var k := Target(sem, Elem(x, index), v.s);
    if k.Ok? {
      SameInOneStore(v.value, t.value, k.value, v.s);
    }
  }

  /** An op= on an element whose index leaves the store as it is when evaluated again keeps its meaning exactly when
      it names the same element again, or both elements hold the result already. */
  lemma ElementOpAssignExact(sem: Sem, op: int, x: Variable, index: Expr, r: Expr, s: Store)
    requires var l, y := Elem(x, index), TargetOnce(sem, op, Elem(x, index), r, s);
             && OpPartsInOrder(sem, op, l, r, s) && LowerExpr(sem, OpAssign(op, l, r)).Some?
             && Eval(sem, OpAssign(op, l, r), s).Ok?
             && (y.Ok? && Target(sem, l, y.s).Ok? ==> Target(sem, l, y.s).s == y.s)
    ensures var l, y := Elem(x, index), TargetOnce(sem, op, Elem(x, index), r, s);
            && y.Ok?
            && var k := Target(sem, l, y.s);
               EvalL(sem, LowerExpr(sem, OpAssign(op, l, r)).value, s) == Eval(sem, OpAssign(op, l, r), s)
               <==> k.Ok? && (k.value == y.value.0 || Get(y.value.0, y.s) == Get(k.value, y.s) == Some(y.value.1))
  {
    var l, y := Elem(x, index), TargetOnce(sem, op, Elem(x, index), r, s);
    OpAssignExact(sem, op, l, r, s);
    EvalOpAssign(sem, op, l, r, s);
    var k := Target(sem, l, y.s);
    if k.Ok? {
      SameInOneStore(y.value.1, y.value.0, k.value, y.s);
    }
  }

  /** Side effects that come to the same when repeated do no harm: a[j = n] op= r, in any store. */
  lemma RepeatedIndex(sem: Sem, op: int, a: Variable, j: Variable, n: int, r: Expr, s: Store)
    requires Careful(sem, r) && j.place !in Writes(r)
    ensures InOrder(sem, OpAssign(op, Elem(a, Assign(Ref(j), Const(Scalar(n)))), r), s)
  {
    var l := Elem(a, Assign(Ref(j), Const(Scalar(n))));
    var s1 := s[j.place := Scalar(n)];
    SetIndex(sem, a, j, n, s);
    CarefulInOrder(sem, r, s1);
    var x := TargetOnce(sem, op, l, r, s);
    if x.Ok? {
      EvalWrites(sem, r, s1);
      SetIndex(sem, a, j, n, x.s);
      assert x.s[j.place := Scalar(n)] == x.s;
    }
    AlwaysSame(x);
  }

  lemma SetIndex(sem: Sem, a: Variable, j: Variable, n: int, s: Store)
    ensures Target(sem, Elem(a, Assign(Ref(j), Const(Scalar(n)))), s) == Ok(Part(a.place, n), s[j.place := Scalar(n)])
    ensures TargetInOrder(sem, Elem(a, Assign(Ref(j), Const(Scalar(n)))), s)
  {
    assert Careful(sem, Assign(Ref(j), Const(Scalar(n))));
    CarefulInOrder(sem, Assign(Ref(j), Const(Scalar(n))), s);
    assert Target(sem, Ref(j), s) == Ok(Whole(j.place), s);
  }

  const PLUS := 0

  function AddValues(op: int, a: Value, b: Value): (r: Option<Value>) {
    if a.Scalar? && b.Scalar? then Some(Scalar(a.n + b.n)) else None
  }

  const ADDITION := Sem(AddValues, v => v, v => Some(true), (v, w) => v == w)

  /** The stores of the example below: a holds xs and i holds n. */
  function Example(a: Variable, i: Variable, xs: seq<int>, n: int): (r: Store) {
    map[a.place := Arr(xs), i.place := Scalar(n)]
  }

  lemma ExampleIncrement(a: Variable, i: Variable, xs: seq<int>, n: int)
    requires a.place != i.place
    ensures Increment(i.place, Example(a, i, xs, n)) == Ok(Scalar(n), Example(a, i, xs, n + 1))
  {
    assert Example(a, i, xs, n)[i.place := Scalar(n + 1)] == Example(a, i, xs, n + 1);
  }

  lemma ExampleStore(a: Variable, i: Variable, xs: seq<int>, n: int, k: nat, v: int)
    requires a.place != i.place && k < |xs|
    ensures Stored(Part(a.place, k), Scalar(v), Example(a, i, xs, n)) == Ok(Scalar(v), Example(a, i, xs[k := v], n))
  {
    assert Example(a, i, xs, n)[a.place := Arr(xs[k := v])] == Example(a, i, xs[k := v], n);
  }

  lemma UnsteadySource(a: Variable, i: Variable)
    requires a.place != i.place
    ensures var e := OpAssign(PLUS, Elem(a, PostInc(i)), Const(Scalar(1)));
            Eval(ADDITION, e, Example(a, i, [5, 7, 9], 0)) == Ok(Scalar(6), Example(a, i, [6, 7, 9], 1))
  {
    var s1 := Example(a, i, [5, 7, 9], 1);
    ExampleIncrement(a, i, [5, 7, 9], 0);
    assert Target(ADDITION, Elem(a, PostInc(i)), Example(a, i, [5, 7, 9], 0)) == Ok(Part(a.place, 0), s1);
    ExampleStore(a, i, [5, 7, 9], 1, 0, 6);
    assert [5, 7, 9][0 := 6] == [6, 7, 9];
    assert Operate(ADDITION, PLUS, Scalar(5), Scalar(1), s1) == Ok(Scalar(6), s1);
  }

  lemma UnsteadyLowered(a: Variable, i: Variable)
    requires a.place != i.place
    ensures var l := LElem(a, LPostInc(i));
            EvalL(ADDITION, ASSIGN(LBinary(PLUS, l, LConst(Scalar(1))), l), Example(a, i, [5, 7, 9], 0))
            == Ok(Scalar(6), Example(a, i, [5, 6, 9], 2))
  {
    var l := LElem(a, LPostInc(i));
    var s0, s1 := Example(a, i, [5, 7, 9], 0), Example(a, i, [5, 7, 9], 1);
    ExampleIncrement(a, i, [5, 7, 9], 0);
    ExampleIncrement(a, i, [5, 7, 9], 1);
    assert TargetL(ADDITION, l, s0) == Ok(Part(a.place, 0), s1);
    assert EvalL(ADDITION, l, s0) == Ok(Scalar(5), s1);
    assert EvalL(ADDITION, LBinary(PLUS, l, LConst(Scalar(1))), s0)
        == Operate(ADDITION, PLUS, Scalar(5), Scalar(1), s1);
    assert TargetL(ADDITION, l, s1) == Ok(Part(a.place, 1), Example(a, i, [5, 7, 9], 2));
    ExampleStore(a, i, [5, 7, 9], 2, 1, 6);
    assert [5, 7, 9][1 := 6] == [5, 6, 9];
  }

  /** a[i++] += 1: the index is evaluated twice by the lowered tree, once by the source. */
  lemma UnsteadyTarget(a: Variable, i: Variable)
    requires a.place != i.place
    ensures var e := OpAssign(PLUS, Elem(a, PostInc(i)), Const(Scalar(1)));
            var s := Example(a, i, [5, 7, 9], 0);
            && LowerExpr(ADDITION, e).Some? && !InOrder(ADDITION, e, s)
            && Eval(ADDITION, e, s) == Ok(Scalar(6), Example(a, i, [6, 7, 9], 1))
            && EvalL(ADDITION, LowerExpr(ADDITION, e).value, s) == Ok(Scalar(6), Example(a, i, [5, 6, 9], 2))
  {
    var l := LElem(a, LPostInc(i));
    assert LowerExpr(ADDITION, PostInc(i)) == Some(LPostInc(i));
    assert LowerExpr(ADDITION, Elem(a, PostInc(i))) == Some(l);
    assert LowerTarget(ADDITION, Elem(a, PostInc(i))) == Some(l);
    UnsteadySource(a, i);
    UnsteadyLowered(a, i);
    var e, s := OpAssign(PLUS, Elem(a, PostInc(i)), Const(Scalar(1))), Example(a, i, [5, 7, 9], 0);
    assert Example(a, i, [6, 7, 9], 1)[i.place] != Example(a, i, [5, 6, 9], 2)[i.place];
    if InOrder(ADDITION, e, s) {
      EvalMeaning(ADDITION, e, s);
      assert false;
    }
  }
}
