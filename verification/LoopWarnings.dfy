/** The warnings the compiler pass gives, and what they mean. */
module LoopWarnings {
  import opened SourceTree
  import opened LoweredTree
  import opened TreeLowering
  import opened EvaluationOrder

  datatype Warning = LoopVariableAssigned(name: string) | EmptyRepeat

  // ----- the warnings a tree gives, after those in w -----

  /** Assigning to a variable of an enclosing loop. */
  function Assigned(l: LExpr, loopVars: seq<string>, w: seq<Warning>): (r: seq<Warning>) {
    if l.LVar? && l.x.name in loopVars then w + [LoopVariableAssigned(l.x.name)] else w
  }

  function AssignWarnings(sem: Sem, l: Expr, r: Expr, loopVars: seq<string>, w: seq<Warning>): (res: seq<Warning>)
    decreases Assign(l, r), 0
  {
    var l', r' := LowerTarget(sem, l), LowerExpr(sem, r);
    var w' := Warnings(sem, r, loopVars, Warnings(sem, l, loopVars, w));
    if l'.Some? && r'.Some? && !SelfAssignment(l'.value, r'.value) then Assigned(l'.value, loopVars, w') else w'
  }

  function Warnings(sem: Sem, e: Expr, loopVars: seq<string>, w: seq<Warning>): (r: seq<Warning>)
    decreases e, 1
  {
    match e
    case Elem(_, index) => Warnings(sem, index, loopVars, w)
    case Paren(a) => Warnings(sem, a, loopVars, w)
    case Minus(a) => Warnings(sem, a, loopVars, w)
    case Binary(_, a, b) => Warnings(sem, b, loopVars, Warnings(sem, a, loopVars, w))
    case Cond(c, a, b) => Warnings(sem, b, loopVars, Warnings(sem, a, loopVars, Warnings(sem, c, loopVars, w)))
    case Assign(l, r) => AssignWarnings(sem, l, r, loopVars, w)
    case OpAssign(_, l, r) =>
      var w' := Warnings(sem, r, loopVars, Warnings(sem, l, loopVars, w));
      var l' := LowerTarget(sem, l);
      if l'.Some? then Assigned(l'.value, loopVars, w') else w'
    case _ => w
  }

  function BoundWarnings(sem: Sem, a: Expr, b: Expr, step: Option<Expr>, loopVars: seq<string>,
                         w: seq<Warning>): (r: seq<Warning>) {
    var w' := Warnings(sem, b, loopVars, Warnings(sem, a, loopVars, w));
    if step.Some? then Warnings(sem, step.value, loopVars, w') else w'
  }

  function StmtWarnings(sem: Sem, t: Stmt, loopVars: seq<string>, w: seq<Warning>): (r: seq<Warning>)
    decreases t, 1
  {
    match t
    case SAssign(l, r) => AssignWarnings(sem, l, r, loopVars, w)
    case SOpAssign(op, l, r) => Warnings(sem, OpAssign(op, l, r), loopVars, w)
    case SInc(e) => Warnings(sem, e, loopVars, w)
    case SIf(c, t1) => StmtWarnings(sem, t1, loopVars, Warnings(sem, c, loopVars, w))
    case SIfElse(c, t1, t2) => StmtWarnings(sem, t2, loopVars,
                                            StmtWarnings(sem, t1, loopVars, Warnings(sem, c, loopVars, w)))
    case SWhile(c, t1) => StmtWarnings(sem, t1, loopVars, Warnings(sem, c, loopVars, w))
    case SRepeat(body, until) =>
      var w' := Warnings(sem, until, loopVars, AllWarnings(sem, body, loopVars, w));
      if body.Nil? then w' + [EmptyRepeat] else w'
    case SFor(x, a, b, step, body) =>
      AllWarnings(sem, body, loopVars + [x.name], BoundWarnings(sem, a, b, step, loopVars + [x.name], w))
    case SForeach(x, e, ix, body) =>
      var inner := loopVars + [x.name];
      AllWarnings(sem, body, if ix.Some? then inner + [ix.value.name] else inner, Warnings(sem, e, inner, w))
    case SCase(e, branches) => BranchWarnings(sem, branches, loopVars, Warnings(sem, e, loopVars, w))
    case SSwitch(e, branches) => BranchWarnings(sem, branches, loopVars, Warnings(sem, e, loopVars, w))
    case SBlock(body) => AllWarnings(sem, body, loopVars, w)
    case _ => w
  }

  function AllWarnings(sem: Sem, ts: Stmts, loopVars: seq<string>, w: seq<Warning>): (r: seq<Warning>)
    decreases ts, 1
  {
    if ts.Nil? then w else AllWarnings(sem, ts.rest, loopVars, StmtWarnings(sem, ts.s, loopVars, w))
  }

  function BranchWarnings(sem: Sem, bs: Branches, loopVars: seq<string>, w: seq<Warning>): (r: seq<Warning>)
    decreases bs, 1
  {
    match bs
    case NoBranch => w
    case Branch(test, body, next) => BranchWarnings(sem, next, loopVars,
                                                    AllWarnings(sem, body, loopVars, Warnings(sem, test, loopVars, w)))
    case Else(body, next) => BranchWarnings(sem, next, loopVars, AllWarnings(sem, body, loopVars, w))
  }

  // ----- what a warning means -----

  /** The target l is a variable named n. */
  predicate Targets(sem: Sem, l: Expr, n: string) {
    var l' := LowerTarget(sem, l);
    l'.Some? && l'.value.LVar? && l'.value.x.name == n
  }

  /** The assignment of r to l is kept, and assigns to a variable named n. */
  predicate AssignsTo(sem: Sem, l: Expr, r: Expr, n: string) {
    Targets(sem, l, n) && LowerExpr(sem, r).Some? && !IsSelf(sem, l, r)
  }

  function One(b: bool): (r: nat) { if b then 1 else 0 }

  /** How many assignments in e, kept, are to a variable named n. */
  function Assigns(sem: Sem, e: Expr, n: string): (r: nat) {
    match e
    case Elem(_, index) => Assigns(sem, index, n)
    case Paren(a) => Assigns(sem, a, n)
    case Minus(a) => Assigns(sem, a, n)
    case Binary(_, a, b) => Assigns(sem, a, n) + Assigns(sem, b, n)
    case Cond(c, a, b) => Assigns(sem, c, n) + Assigns(sem, a, n) + Assigns(sem, b, n)
    case Assign(l, r) => Assigns(sem, l, n) + Assigns(sem, r, n) + One(AssignsTo(sem, l, r, n))
    case OpAssign(_, l, r) => Assigns(sem, l, n) + Assigns(sem, r, n) + One(Targets(sem, l, n))
    case _ => 0
  }

  function BoundsAssign(sem: Sem, a: Expr, b: Expr, step: Option<Expr>, n: string): (r: nat) {
    Assigns(sem, a, n) + Assigns(sem, b, n) + if step.Some? then Assigns(sem, step.value, n) else 0
  }

  /** How many assignments in t are to a variable named n. */
  function StmtAssigns(sem: Sem, t: Stmt, n: string): (r: nat) {
    match t
    case SAssign(l, r) => Assigns(sem, Assign(l, r), n)
    case SOpAssign(op, l, r) => Assigns(sem, OpAssign(op, l, r), n)
    case SInc(e) => Assigns(sem, e, n)
    case SIf(c, t1) => Assigns(sem, c, n) + StmtAssigns(sem, t1, n)
    case SIfElse(c, t1, t2) => Assigns(sem, c, n) + StmtAssigns(sem, t1, n) + StmtAssigns(sem, t2, n)
    case SWhile(c, t1) => Assigns(sem, c, n) + StmtAssigns(sem, t1, n)
    case SRepeat(body, until) => AllAssign(sem, body, n) + Assigns(sem, until, n)
    case SFor(_, a, b, step, body) => BoundsAssign(sem, a, b, step, n) + AllAssign(sem, body, n)
    case SForeach(_, e, _, body) => Assigns(sem, e, n) + AllAssign(sem, body, n)
    case SCase(e, branches) => Assigns(sem, e, n) + BranchesAssign(sem, branches, n)
    case SSwitch(e, branches) => Assigns(sem, e, n) + BranchesAssign(sem, branches, n)
    case SBlock(body) => AllAssign(sem, body, n)
    case _ => 0
  }

  function AllAssign(sem: Sem, ts: Stmts, n: string): (r: nat) {
    if ts.Nil? then 0 else StmtAssigns(sem, ts.s, n) + AllAssign(sem, ts.rest, n)
  }

  function BranchesAssign(sem: Sem, bs: Branches, n: string): (r: nat) {
    if bs.NoBranch? then 0
    else
      var k := if bs.Branch? then Assigns(sem, bs.test, n) else 0;
      k + AllAssign(sem, bs.body, n) + BranchesAssign(sem, bs.next, n)
  }

  /** How many assignments in t are to a variable named n and inside a for or foreach over a variable of that name. */
  function LoopAssigned(sem: Sem, t: Stmt, n: string): (r: nat) {
    match t
    case SIf(_, t1) => LoopAssigned(sem, t1, n)
    case SIfElse(_, t1, t2) => LoopAssigned(sem, t1, n) + LoopAssigned(sem, t2, n)
    case SWhile(_, t1) => LoopAssigned(sem, t1, n)
    case SRepeat(body, _) => AnyLoopAssigned(sem, body, n)
    case SFor(x, a, b, step, body) =>
      if x.name == n then BoundsAssign(sem, a, b, step, n) + AllAssign(sem, body, n) else AnyLoopAssigned(sem, body, n)
    case SForeach(x, e, ix, body) =>
      if x.name == n then Assigns(sem, e, n) + AllAssign(sem, body, n)
      else if ix.Some? && ix.value.name == n then AllAssign(sem, body, n)
      else AnyLoopAssigned(sem, body, n)
    case SCase(_, branches) => BranchLoopAssigned(sem, branches, n)
    case SSwitch(_, branches) => BranchLoopAssigned(sem, branches, n)
    case SBlock(body) => AnyLoopAssigned(sem, body, n)
    case _ => 0
  }

  function AnyLoopAssigned(sem: Sem, ts: Stmts, n: string): (r: nat) {
    if ts.Nil? then 0 else LoopAssigned(sem, ts.s, n) + AnyLoopAssigned(sem, ts.rest, n)
  }

  function BranchLoopAssigned(sem: Sem, bs: Branches, n: string): (r: nat) {
    if bs.NoBranch? then 0 else AnyLoopAssigned(sem, bs.body, n) + BranchLoopAssigned(sem, bs.next, n)
  }

  /** How many repeats in t have an empty body. */
  function RepeatsNothing(t: Stmt): (r: nat) {
    match t
    case SIf(_, t1) => RepeatsNothing(t1)
    case SIfElse(_, t1, t2) => RepeatsNothing(t1) + RepeatsNothing(t2)
    case SWhile(_, t1) => RepeatsNothing(t1)
    case SRepeat(body, _) => if body.Nil? then 1 else AnyRepeatsNothing(body)
    case SFor(_, _, _, _, body) => AnyRepeatsNothing(body)
    case SForeach(_, _, _, body) => AnyRepeatsNothing(body)
    case SCase(_, branches) => BranchRepeatsNothing(branches)
    case SSwitch(_, branches) => BranchRepeatsNothing(branches)
    case SBlock(body) => AnyRepeatsNothing(body)
    case _ => 0
  }

  function AnyRepeatsNothing(ts: Stmts): (r: nat) {
    if ts.Nil? then 0 else RepeatsNothing(ts.s) + AnyRepeatsNothing(ts.rest)
  }

  function BranchRepeatsNothing(bs: Branches): (r: nat) {
    if bs.NoBranch? then 0 else AnyRepeatsNothing(bs.body) + BranchRepeatsNothing(bs.next)
  }

  /** How often w holds x. */
  function Times(w: seq<Warning>, x: Warning): (r: nat) {
    if w == [] then 0 else Times(w[..|w| - 1], x) + One(w[|w| - 1] == x)
  }

  /** From w to v one warning about n came up for each assignment to n if these are inside a loop over n, and for each
      found inside one; and one for each empty repeat. */
  predicate Warned(w: seq<Warning>, v: seq<Warning>, n: string, inside: bool, assigns: nat, found: nat, empty: nat) {
    && Times(v, LoopVariableAssigned(n)) == Times(w, LoopVariableAssigned(n)) + (if inside then assigns else found)
    && Times(v, EmptyRepeat) == Times(w, EmptyRepeat) + empty
  }

  lemma WarnedOnce(w: seq<Warning>, x: Warning, y: Warning)
    ensures Times(w + [x], y) == Times(w, y) + One(x == y)
  {
    assert (w + [x])[..|w|] == w;
  }

  lemma TargetWarned(l: LExpr, loopVars: seq<string>, w: seq<Warning>, n: string)
    ensures Warned(w, Assigned(l, loopVars, w), n, n in loopVars, One(l.LVar? && l.x.name == n), 0, 0)
  {
    if l.LVar? && l.x.name in loopVars {
      WarnedOnce(w, LoopVariableAssigned(l.x.name), LoopVariableAssigned(n));
      WarnedOnce(w, LoopVariableAssigned(l.x.name), EmptyRepeat);
    }
  }

  lemma {:induction false} ExprWarned(sem: Sem, e: Expr, loopVars: seq<string>, w: seq<Warning>, n: string)
    ensures Warned(w, Warnings(sem, e, loopVars, w), n, n in loopVars, Assigns(sem, e, n), 0, 0)
    decreases e, 1
  {
    match e
    case Elem(_, index) => ExprWarned(sem, index, loopVars, w, n);
    case Paren(a) => ExprWarned(sem, a, loopVars, w, n);
    case Minus(a) => ExprWarned(sem, a, loopVars, w, n);
    case Binary(_, a, b) =>
      ExprWarned(sem, a, loopVars, w, n);
      ExprWarned(sem, b, loopVars, Warnings(sem, a, loopVars, w), n);
    case Cond(c, a, b) =>
      var w1 := Warnings(sem, c, loopVars, w);
      ExprWarned(sem, c, loopVars, w, n);
      ExprWarned(sem, a, loopVars, w1, n);
      ExprWarned(sem, b, loopVars, Warnings(sem, a, loopVars, w1), n);
    case Assign(l, r) => AssignWarned(sem, l, r, loopVars, w, n);
    case OpAssign(op, l, r) =>
      SidesWarned(sem, e, l, r, loopVars, w, n);
      if LowerTarget(sem, l).Some? {
        TargetWarned(LowerTarget(sem, l).value, loopVars, Warnings(sem, r, loopVars, Warnings(sem, l, loopVars, w)), n);
      }
    case _ =>
  }

  /** What two parts warn of adds up. */
  lemma WarnedThen(w: seq<Warning>, u: seq<Warning>, v: seq<Warning>, n: string, inside: bool, a: nat, b: nat)
    requires Warned(w, u, n, inside, a, 0, 0) && Warned(u, v, n, inside, b, 0, 0)
    ensures Warned(w, v, n, inside, a + b, 0, 0)
  {
  }

  lemma {:induction false} SidesWarned(sem: Sem, e: Expr, l: Expr, r: Expr, loopVars: seq<string>, w: seq<Warning>,
                                       n: string)
    requires (e.Assign? || e.OpAssign?) && e.l == l && e.r == r
    ensures Warned(w, Warnings(sem, r, loopVars, Warnings(sem, l, loopVars, w)), n, n in loopVars,
                   Assigns(sem, l, n) + Assigns(sem, r, n), 0, 0)
    decreases e, -1
  {
    var w1 := Warnings(sem, l, loopVars, w);
    ExprWarned(sem, l, loopVars, w, n);
    ExprWarned(sem, r, loopVars, w1, n);
    WarnedThen(w, w1, Warnings(sem, r, loopVars, w1), n, n in loopVars, Assigns(sem, l, n), Assigns(sem, r, n));
  }

  lemma {:induction false} AssignWarned(sem: Sem, l: Expr, r: Expr, loopVars: seq<string>, w: seq<Warning>, n: string)
    ensures Warned(w, AssignWarnings(sem, l, r, loopVars, w), n, n in loopVars, Assigns(sem, Assign(l, r), n), 0, 0)
    decreases Assign(l, r), 0
  {
    var w2, k := Warnings(sem, r, loopVars, Warnings(sem, l, loopVars, w)), Assigns(sem, l, n) + Assigns(sem, r, n);
    SidesWarned(sem, Assign(l, r), l, r, loopVars, w, n);
    var l', r' := LowerTarget(sem, l), LowerExpr(sem, r);
    if l'.Some? && r'.Some? && !SelfAssignment(l'.value, r'.value) {
      TargetWarned(l'.value, loopVars, w2, n);
      WarnedThen(w, w2, Assigned(l'.value, loopVars, w2), n, n in loopVars, k, One(Targets(sem, l, n)));
    }
  }

  lemma BoundsWarned(sem: Sem, a: Expr, b: Expr, step: Option<Expr>, loopVars: seq<string>, w: seq<Warning>, n: string)
    ensures Warned(w, BoundWarnings(sem, a, b, step, loopVars, w), n, n in loopVars, BoundsAssign(sem, a, b, step, n),
                   0, 0)
  {
    var w1 := Warnings(sem, a, loopVars, w);
    ExprWarned(sem, a, loopVars, w, n);
    ExprWarned(sem, b, loopVars, w1, n);
    if step.Some? {
      ExprWarned(sem, step.value, loopVars, Warnings(sem, b, loopVars, w1), n);
    }
  }

  /** The compiler warns once of each assignment to a loop variable in a loop over it, and of each empty repeat, and of
      nothing else. */
  lemma {:induction false} StmtWarned(sem: Sem, t: Stmt, loopVars: seq<string>, w: seq<Warning>, n: string)
    ensures Warned(w, StmtWarnings(sem, t, loopVars, w), n, n in loopVars, StmtAssigns(sem, t, n),
                   LoopAssigned(sem, t, n), RepeatsNothing(t))
    decreases t, 1
  {
    match t
    case SAssign(l, r) => AssignWarned(sem, l, r, loopVars, w, n);
    case SOpAssign(op, l, r) => ExprWarned(sem, OpAssign(op, l, r), loopVars, w, n);
    case SInc(e) => ExprWarned(sem, e, loopVars, w, n);
    case SIf(c, t1) =>
      ExprWarned(sem, c, loopVars, w, n);
      StmtWarned(sem, t1, loopVars, Warnings(sem, c, loopVars, w), n);
    case SIfElse(c, t1, t2) =>
      var w1 := Warnings(sem, c, loopVars, w);
      ExprWarned(sem, c, loopVars, w, n);
      StmtWarned(sem, t1, loopVars, w1, n);
      StmtWarned(sem, t2, loopVars, StmtWarnings(sem, t1, loopVars, w1), n);
    case SWhile(c, t1) =>
      ExprWarned(sem, c, loopVars, w, n);
      StmtWarned(sem, t1, loopVars, Warnings(sem, c, loopVars, w), n);
    case SRepeat(_, _) => LoopWarned(sem, t, loopVars, w, n);
    case SFor(_, _, _, _, _) => LoopWarned(sem, t, loopVars, w, n);
    case SForeach(_, _, _, _) => LoopWarned(sem, t, loopVars, w, n);
    case SCase(e, branches) =>
      ExprWarned(sem, e, loopVars, w, n);
      BranchWarned(sem, branches, loopVars, Warnings(sem, e, loopVars, w), n);
    case SSwitch(e, branches) =>
      ExprWarned(sem, e, loopVars, w, n);
      BranchWarned(sem, branches, loopVars, Warnings(sem, e, loopVars, w), n);
    case SBlock(body) => AllWarned(sem, body, loopVars, w, n);
    case _ =>
  }

  lemma {:induction false} LoopWarned(sem: Sem, t: Stmt, loopVars: seq<string>, w: seq<Warning>, n: string)
    requires t.SRepeat? || t.SFor? || t.SForeach?
    ensures Warned(w, StmtWarnings(sem, t, loopVars, w), n, n in loopVars, StmtAssigns(sem, t, n),
                   LoopAssigned(sem, t, n), RepeatsNothing(t))
    decreases t, 0
  {
    match t
    case SRepeat(body, until) =>
      var w1 := AllWarnings(sem, body, loopVars, w);
      AllWarned(sem, body, loopVars, w, n);
      ExprWarned(sem, until, loopVars, w1, n);
      WarnedOnce(Warnings(sem, until, loopVars, w1), EmptyRepeat, LoopVariableAssigned(n));
      WarnedOnce(Warnings(sem, until, loopVars, w1), EmptyRepeat, EmptyRepeat);
    case SFor(x, a, b, step, body) =>
      BoundsWarned(sem, a, b, step, loopVars + [x.name], w, n);
      AllWarned(sem, body, loopVars + [x.name], BoundWarnings(sem, a, b, step, loopVars + [x.name], w), n);
    case SForeach(x, e, ix, body) =>
      var inner := loopVars + [x.name];
      ExprWarned(sem, e, inner, w, n);
      AllWarned(sem, body, if ix.Some? then inner + [ix.value.name] else inner, Warnings(sem, e, inner, w), n);
  }

  lemma {:induction false} AllWarned(sem: Sem, ts: Stmts, loopVars: seq<string>, w: seq<Warning>, n: string)
    ensures Warned(w, AllWarnings(sem, ts, loopVars, w), n, n in loopVars, AllAssign(sem, ts, n),
                   AnyLoopAssigned(sem, ts, n), AnyRepeatsNothing(ts))
    decreases ts, 1
  {
    if ts.Cons? {
      StmtWarned(sem, ts.s, loopVars, w, n);
      AllWarned(sem, ts.rest, loopVars, StmtWarnings(sem, ts.s, loopVars, w), n);
    }
  }

  lemma {:induction false} BranchWarned(sem: Sem, bs: Branches, loopVars: seq<string>, w: seq<Warning>, n: string)
    ensures Warned(w, BranchWarnings(sem, bs, loopVars, w), n, n in loopVars, BranchesAssign(sem, bs, n),
                   BranchLoopAssigned(sem, bs, n), BranchRepeatsNothing(bs))
    decreases bs, 1
  {
    if !bs.NoBranch? {
      var w1 := if bs.Branch? then Warnings(sem, bs.test, loopVars, w) else w;
      if bs.Branch? {
        ExprWarned(sem, bs.test, loopVars, w, n);
      }
      AllWarned(sem, bs.body, loopVars, w1, n);
      BranchWarned(sem, bs.next, loopVars, AllWarnings(sem, bs.body, loopVars, w1), n);
    }
  }
}
