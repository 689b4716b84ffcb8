/** What loops, case and switch do with the statements inside them, whatever these are. */
module LoopLaws {
  import opened SourceTree

  predicate IsLoop(t: Stmt) { t.SWhile? || t.SRepeat? || t.SFor? || t.SForeach? }

  lemma {:induction false} WhileEnds(sem: Sem, fuel: nat, c: Expr, t: Stmt, s: Store)
    requires While(sem, fuel, c, t, s).Done?
    ensures While(sem, fuel, c, t, s).c.Normal?
    decreases fuel
  {
    var v := Eval(sem, c, s);
    if Test(sem, v) == Some(true) {
      var r := Exec(sem, fuel - 1, t, v.s);
      if !r.c.Break? {
        WhileEnds(sem, fuel - 1, c, t, r.s);
      }
    }
  }

  lemma {:induction false} RepeatEnds(sem: Sem, fuel: nat, body: Stmts, until: Expr, s: Store)
    requires Repeat(sem, fuel, body, until, s).Done?
    ensures Repeat(sem, fuel, body, until, s).c.Normal?
    decreases fuel
  {
    var r := ExecAll(sem, fuel - 1, body, s);
    if !r.c.Break? {
      var v := Eval(sem, until, r.s);
      if Test(sem, v) == Some(false) {
        RepeatEnds(sem, fuel - 1, body, until, v.s);
      }
    }
  }

  lemma {:induction false} ForEnds(sem: Sem, fuel: nat, p: Place, end: int, step: int, body: Stmts, s: Store)
    requires For(sem, fuel, p, end, step, body, s).Done?
    ensures For(sem, fuel, p, end, step, body, s).c.Normal?
    decreases fuel
  {
    if Goes(s, p, end, step) == Some(true) {
      var r := ExecAll(sem, fuel - 1, body, s);
      if !r.c.Break? {
        ForEnds(sem, fuel - 1, p, end, step, body, Stepped(r.s, p, step));
      }
    }
  }

  lemma {:induction false} ForeachEnds(sem: Sem, fuel: nat, x: Variable, ix: Option<Variable>, xs: seq<int>, i: nat,
                                       body: Stmts, s: Store)
    requires Foreach(sem, fuel, x, ix, xs, i, body, s).Done?
    ensures Foreach(sem, fuel, x, ix, xs, i, body, s).c.Normal?
    decreases fuel
  {
    if i < |xs| {
      var r := ExecAll(sem, fuel - 1, body, Entered(s, x, ix, xs, i));
      if !r.c.Break? {
        ForeachEnds(sem, fuel - 1, x, ix, xs, i + 1, body, r.s);
      }
    }
  }

  lemma {:induction false} CaseEnds(sem: Sem, fuel: nat, v: Value, bs: Branches, s: Store)
    ensures !(Case(sem, fuel, v, bs, s).Done? && Case(sem, fuel, v, bs, s).c.Break?)
    decreases bs
  {
    if bs.Branch? {
      var w := Eval(sem, bs.test, s);
      if w.Ok? && !sem.same(v, w.value) {
        CaseEnds(sem, fuel, v, bs.next, w.s);
      }
    }
  }

  lemma {:induction false} SwitchEnds(sem: Sem, fuel: nat, v: Value, bs: Branches, hit: bool, s: Store)
    ensures !(Switch(sem, fuel, v, bs, hit, s).Done? && Switch(sem, fuel, v, bs, hit, s).c.Break?)
    decreases bs, 1
  {
    if !bs.NoBranch? {
      if hit || bs.Else? {
        TakenEnds(sem, fuel, v, bs, s);
      } else {
        var w := Eval(sem, bs.test, s);
        if w.Ok? {
          TakenEnds(sem, fuel, v, bs, w.s);
          SwitchEnds(sem, fuel, v, bs.next, false, w.s);
        }
      }
    }
  }

  lemma {:induction false} TakenEnds(sem: Sem, fuel: nat, v: Value, bs: Branches, s: Store)
    requires !bs.NoBranch?
    ensures !(Taken(sem, fuel, v, bs, s).Done? && Taken(sem, fuel, v, bs, s).c.Break?)
    decreases bs, 0
  {
    var r := ExecAll(sem, fuel, bs.body, s);
    if r.Done? && r.c.Normal? {
      SwitchEnds(sem, fuel, v, bs.next, true, r.s);
    }
  }

  /** Neither break nor continue gets out of a loop, and break does not get out of a case or switch. */
  lemma ControlEnds(sem: Sem, fuel: nat, t: Stmt, s: Store)
    requires Exec(sem, fuel, t, s).Done?
    ensures IsLoop(t) ==> Exec(sem, fuel, t, s).c.Normal?
    ensures t.SCase? || t.SSwitch? ==> !Exec(sem, fuel, t, s).c.Break?
  {
    match t
    case SWhile(c, t1) => WhileEnds(sem, fuel, c, t1, s);
    case SRepeat(body, until) => RepeatEnds(sem, fuel, body, until, s);
    case SFor(x, a, b, step, body) =>
      var r := Bounds(sem, a, b, step, s);
      ForEnds(sem, fuel, x.place, r.value.end, r.value.step, body, r.value.s[x.place := r.value.start]);
    case SForeach(x, e, ix, body) =>
      ForeachEnds(sem, fuel, x, ix, Elements(Eval(sem, e, s).value), 0, body, Eval(sem, e, s).s);
    case SCase(e, bs) => CaseEnds(sem, fuel, Eval(sem, e, s).value, bs, Eval(sem, e, s).s);
    case SSwitch(e, bs) => SwitchEnds(sem, fuel, Eval(sem, e, s).value, bs, false, Eval(sem, e, s).s);
    case _ =>
  }

  /** Up from n, a counting loop whose body leaves everything as it is goes through end - n + 1 values, or none, and
      leaves the next one in its variable. */
  lemma {:induction false} ForCounts(sem: Sem, fuel: nat, p: Place, n: int, end: int, s: Store)
    requires p in s && s[p] == Scalar(n) && (if n <= end then end - n + 1 else 0) < fuel
    ensures For(sem, fuel, p, end, 1, Nil, s) == Done(s[p := Scalar(if n <= end then end + 1 else n)], Normal)
    decreases fuel
  {
    if n <= end {
      assert ExecAll(sem, fuel - 1, Nil, s) == Done(s, Normal);
      var s' := Stepped(s, p, 1);
      ForCounts(sem, fuel - 1, p, n + 1, end, s');
      assert s'[p := Scalar(end + 1)] == s[p := Scalar(end + 1)];
    } else {
      assert s[p := Scalar(n)] == s;
    }
  }
}
