/** The statement trees the parser delivers, and what they mean as they are written. */
module SourceTree {
  datatype Option<T> = None | Some(value: T)

  datatype Value = Scalar(n: int) | Arr(xs: seq<int>)

  /** A variable of the routine, or one in a common block. */
  datatype Place = Local(ix: nat) | Common(ptr: nat)

  datatype Variable = Variable(name: string, place: Place)

  type Store = map<Place, Value>

  datatype Expr =
    | Const(v: Value)
    | Ref(x: Variable)
    | Elem(x: Variable, index: Expr)
    | Paren(e: Expr)
    | Minus(e: Expr)
    | Binary(op: int, a: Expr, b: Expr)
    | Cond(c: Expr, a: Expr, b: Expr)
    | PostInc(x: Variable)
    | Assign(l: Expr, r: Expr)
    | OpAssign(op: int, l: Expr, r: Expr)

  datatype Stmts = Nil | Cons(s: Stmt, rest: Stmts)

  datatype Branches = NoBranch | Branch(test: Expr, body: Stmts, next: Branches) | Else(body: Stmts, next: Branches)

  datatype Stmt =
    | SAssign(l: Expr, r: Expr)
    | SOpAssign(op: int, l: Expr, r: Expr)
    | SInc(e: Expr)
    | SIf(c: Expr, s: Stmt)
    | SIfElse(c: Expr, s: Stmt, t: Stmt)
    | SWhile(c: Expr, s: Stmt)
    | SRepeat(body: Stmts, until: Expr)
    | SFor(x: Variable, a: Expr, b: Expr, step: Option<Expr>, body: Stmts)
    | SForeach(x: Variable, e: Expr, ix: Option<Variable>, body: Stmts)
    | SCase(e: Expr, branches: Branches)
    | SSwitch(e: Expr, branches: Branches)
    | SBlock(body: Stmts)
    | SLabel(name: string)
    | SBreak
    | SContinue

  /** The operations on values; those that fail return None. */
  datatype Sem = Sem(bin: (int, Value, Value) -> Option<Value>, neg: Value -> Value, truth: Value -> Option<bool>,
                     same: (Value, Value) -> bool)

  // ----- places in the store -----

  datatype Location = Whole(p: Place) | Part(p: Place, i: int)

  function GetPart(v: Value, i: int): (r: Option<Value>) {
    match v
    case Scalar(n) => if i == 0 then Some(v) else None
    case Arr(xs) => if 0 <= i < |xs| then Some(Scalar(xs[i])) else None
  }

  function Get(l: Location, s: Store): (r: Option<Value>) {
    if l.p !in s then None else if l.Whole? then Some(s[l.p]) else GetPart(s[l.p], l.i)
  }

  /** The store after v is stored at l; a part takes a scalar and must be there. */
  function Put(l: Location, v: Value, s: Store): (r: Option<Store>) {
    if l.Whole? then Some(s[l.p := v])
    else if l.p !in s || GetPart(s[l.p], l.i).None? || v.Arr? then None
    else match s[l.p]
      case Scalar(_) => Some(s[l.p := v])
      case Arr(xs) => Some(s[l.p := Arr(xs[l.i := v.n])])
  }

  // ----- expressions -----

  datatype Result<T> = Ok(value: T, s: Store) | Err

  function Increment(p: Place, s: Store): (r: Result<Value>) {
    if p in s && s[p].Scalar? then Ok(s[p], s[p := Scalar(s[p].n + 1)]) else Err
  }

  function Operate(sem: Sem, op: int, a: Value, b: Value, s: Store): (r: Result<Value>) {
    var r := sem.bin(op, a, b);
    if r.Some? then Ok(r.value, s) else Err
  }

  function Stored(l: Location, v: Value, s: Store): (r: Result<Value>) {
    var s' := Put(l, v, s);
    if s'.Some? then Ok(v, s'.value) else Err
  }

  /** Everything is evaluated from left to right: an assignment's target before its value, and only once. */
  function Eval(sem: Sem, e: Expr, s: Store): (r: Result<Value>)
    decreases e, 1
  {
    match e
    case Const(v) => Ok(v, s)
    case Ref(x) => if x.place in s then Ok(s[x.place], s) else Err
    case Elem(x, index) =>
      var l := Target(sem, e, s);
      if l.Err? then Err
      else
        var v := Get(l.value, l.s);
        if v.Some? then Ok(v.value, l.s) else Err
    case Paren(e1) => Eval(sem, e1, s)
    case Minus(e1) =>
      var v := Eval(sem, e1, s);
      if v.Ok? then Ok(sem.neg(v.value), v.s) else Err
    case Binary(op, a, b) =>
      var v := Eval(sem, a, s);
      if v.Err? then Err
      else
        var w := Eval(sem, b, v.s);
        if w.Err? then Err else Operate(sem, op, v.value, w.value, w.s)
    case Cond(c, a, b) =>
      var v := Eval(sem, c, s);
      if v.Err? || sem.truth(v.value).None? then Err
      else if sem.truth(v.value).value then Eval(sem, a, v.s) else Eval(sem, b, v.s)
    case PostInc(x) => Increment(x.place, s)
    case Assign(l, r) =>
      var t := Target(sem, l, s);
      if t.Err? then Err
      else
        var v := Eval(sem, r, t.s);
        if v.Err? then Err else Stored(t.value, v.value, v.s)
    case OpAssign(op, l, r) =>
      var t := Target(sem, l, s);
      if t.Err? || Get(t.value, t.s).None? then Err
      else
        var v := Eval(sem, r, t.s);
        if v.Err? then Err
        else
          var w := Operate(sem, op, Get(t.value, t.s).value, v.value, v.s);
          if w.Err? then Err else Stored(t.value, w.value, w.s)
  }

  /** The location an assignment's target names. */
  function Target(sem: Sem, e: Expr, s: Store): (r: Result<Location>)
    decreases e, 0
  {
    match e
    case Ref(x) => Ok(Whole(x.place), s)
    case Elem(x, index) =>
      var v := Eval(sem, index, s);
      if v.Ok? && v.value.Scalar? then Ok(Part(x.place, v.value.n), v.s) else Err
    case Paren(e1) => Target(sem, e1, s)
    case _ => Err
  }

  // ----- statements -----

  datatype Control = Normal | Break | Continue

  /** How a statement ends; OutOfFuel if its loops need more rounds. */
  datatype Outcome = Done(s: Store, c: Control) | Failed | OutOfFuel

  function AsDone(r: Result<Value>): (res: Outcome) { if r.Ok? then Done(r.s, Normal) else Failed }

  /** A condition's truth. */
  function Test(sem: Sem, r: Result<Value>): (res: Option<bool>) { if r.Ok? then sem.truth(r.value) else None }

  /** A scalar bound of a counting loop. */
  function Bound(r: Result<Value>): (res: Option<int>) { if r.Ok? && r.value.Scalar? then Some(r.value.n) else None }

  /** Whether a counting loop goes on: up to the end, or down to it for a negative step. */
  function Goes(s: Store, p: Place, end: int, step: int): (r: Option<bool>) {
    if p in s && s[p].Scalar? then Some(if step < 0 then s[p].n >= end else s[p].n <= end) else None
  }

  function Stepped(s: Store, p: Place, step: int): (r: Store)
    requires p in s && s[p].Scalar?
  {
    s[p := Scalar(s[p].n + step)]
  }

  function Elements(v: Value): (r: seq<int>) { if v.Scalar? then [v.n] else v.xs }

  /** What a counting loop starts with: the loop variable's value, the end, the step, and the store. */
  datatype Range = Range(start: Value, end: int, step: int, s: Store)

  function Step(sem: Sem, start: Value, end: int, step: Option<Expr>, s: Store): (r: Option<Range>) {
    var z := if step.Some? then Eval(sem, step.value, s) else Ok(Scalar(1), s);
    if Bound(z).None? then None else Some(Range(start, end, z.value.n, z.s))
  }

  function End(sem: Sem, start: Value, b: Expr, step: Option<Expr>, s: Store): (r: Option<Range>) {
    var w := Eval(sem, b, s);
    if Bound(w).None? then None else Step(sem, start, w.value.n, step, w.s)
  }

  function Bounds(sem: Sem, a: Expr, b: Expr, step: Option<Expr>, s: Store): (r: Option<Range>) {
    var v := Eval(sem, a, s);
    if Bound(v).None? then None else End(sem, v.value, b, step, v.s)
  }

  function Exec(sem: Sem, fuel: nat, t: Stmt, s: Store): (r: Outcome)
    decreases fuel, t, 1
  {
    match t
    case SAssign(l, r) => AsDone(Eval(sem, Assign(l, r), s))
    case SOpAssign(op, l, r) => AsDone(Eval(sem, OpAssign(op, l, r), s))
    case SInc(e) => AsDone(Eval(sem, e, s))
    case SIf(c, t1) => If(sem, fuel, c, t1, s)
    case SIfElse(c, t1, t2) => IfElse(sem, fuel, c, t1, t2, s)
    case SWhile(c, t1) => While(sem, fuel, c, t1, s)
    case SRepeat(body, until) => Repeat(sem, fuel, body, until, s)
    case SFor(x, a, b, step, body) => ForHead(sem, fuel, x, a, b, step, body, s)
    case SForeach(x, e, ix, body) => ForeachHead(sem, fuel, x, e, ix, body, s)
    case SCase(e, branches) => CaseHead(sem, fuel, e, branches, s)
    case SSwitch(e, branches) => SwitchHead(sem, fuel, e, branches, s)
    case SBlock(body) => ExecAll(sem, fuel, body, s)
    case SLabel(_) => Done(s, Normal)
    case SBreak => Done(s, Break)
    case SContinue => Done(s, Continue)
  }

  function If(sem: Sem, fuel: nat, c: Expr, t1: Stmt, s: Store): (r: Outcome)
    decreases fuel, t1, 2
  {
    var v := Eval(sem, c, s);
    var b := Test(sem, v);
    if b.None? then Failed else if b.value then Exec(sem, fuel, t1, v.s) else Done(v.s, Normal)
  }

  function IfElse(sem: Sem, fuel: nat, c: Expr, t1: Stmt, t2: Stmt, s: Store): (r: Outcome)
    decreases fuel, SIfElse(c, t1, t2), 0
  {
    var v := Eval(sem, c, s);
    var b := Test(sem, v);
    if b.None? then Failed else if b.value then Exec(sem, fuel, t1, v.s) else Exec(sem, fuel, t2, v.s)
  }

  function ForHead(sem: Sem, fuel: nat, x: Variable, a: Expr, b: Expr, step: Option<Expr>, body: Stmts,
                   s: Store): (r: Outcome)
    decreases fuel, body, 2
  {
    var r := Bounds(sem, a, b, step, s);
    if r.None? then Failed
    else For(sem, fuel, x.place, r.value.end, r.value.step, body, r.value.s[x.place := r.value.start])
  }

  function ForeachHead(sem: Sem, fuel: nat, x: Variable, e: Expr, ix: Option<Variable>, body: Stmts,
                       s: Store): (r: Outcome)
    decreases fuel, body, 2
  {
    var v := Eval(sem, e, s);
    if v.Err? then Failed else Foreach(sem, fuel, x, ix, Elements(v.value), 0, body, v.s)
  }

  function CaseHead(sem: Sem, fuel: nat, e: Expr, branches: Branches, s: Store): (r: Outcome)
    decreases fuel, branches, 2
  {
    var v := Eval(sem, e, s);
    if v.Err? then Failed else Case(sem, fuel, v.value, branches, v.s)
  }

  function SwitchHead(sem: Sem, fuel: nat, e: Expr, branches: Branches, s: Store): (r: Outcome)
    decreases fuel, branches, 2
  {
    var v := Eval(sem, e, s);
    if v.Err? then Failed else Switch(sem, fuel, v.value, branches, false, v.s)
  }

  function ExecAll(sem: Sem, fuel: nat, ts: Stmts, s: Store): (r: Outcome)
    decreases fuel, ts, 0
  {
    match ts
    case Nil => Done(s, Normal)
    case Cons(t, rest) =>
      var r := Exec(sem, fuel, t, s);
      if r.Done? && r.c.Normal? then ExecAll(sem, fuel, rest, r.s) else r
  }

  function While(sem: Sem, fuel: nat, c: Expr, t: Stmt, s: Store): (r: Outcome)
    decreases fuel, t, 2
  {
    if fuel == 0 then OutOfFuel
    else
      var v := Eval(sem, c, s);
      var b := Test(sem, v);
      if b.None? then Failed
      else if !b.value then Done(v.s, Normal)
      else
        var r := Exec(sem, fuel - 1, t, v.s);
        if !r.Done? then r else if r.c.Break? then Done(r.s, Normal) else While(sem, fuel - 1, c, t, r.s)
  }

  function Repeat(sem: Sem, fuel: nat, body: Stmts, until: Expr, s: Store): (r: Outcome)
    decreases fuel, body, 1
  {
    if fuel == 0 then OutOfFuel
    else
      var r := ExecAll(sem, fuel - 1, body, s);
      if !r.Done? then r
      else if r.c.Break? then Done(r.s, Normal)
      else
        var v := Eval(sem, until, r.s);
        var b := Test(sem, v);
        if b.None? then Failed else if b.value then Done(v.s, Normal) else Repeat(sem, fuel - 1, body, until, v.s)
  }

  function For(sem: Sem, fuel: nat, p: Place, end: int, step: int, body: Stmts, s: Store): (r: Outcome)
    decreases fuel, body, 1
  {
    if fuel == 0 then OutOfFuel
    else
      var b := Goes(s, p, end, step);
      if b.None? then Failed
      else if !b.value then Done(s, Normal)
      else
        var r := ExecAll(sem, fuel - 1, body, s);
        if !r.Done? then r
        else if r.c.Break? then Done(r.s, Normal)
        else if Goes(r.s, p, end, step).None? then Failed
        else For(sem, fuel - 1, p, end, step, body, Stepped(r.s, p, step))
  }

  /** The store in which round i of a foreach begins. */
  function Entered(s: Store, x: Variable, ix: Option<Variable>, xs: seq<int>, i: nat): (r: Store)
    requires i < |xs|
  {
    var s1 := s[x.place := Scalar(xs[i])];
    if ix.Some? then s1[ix.value.place := Scalar(i)] else s1
  }

  function Foreach(sem: Sem, fuel: nat, x: Variable, ix: Option<Variable>, xs: seq<int>, i: nat, body: Stmts,
                   s: Store): (r: Outcome)
    decreases fuel, body, 1
  {
    if fuel == 0 then OutOfFuel
    else if i >= |xs| then Done(s, Normal)
    else
      var r := ExecAll(sem, fuel - 1, body, Entered(s, x, ix, xs, i));
      if !r.Done? then r else if r.c.Break? then Done(r.s, Normal)
          else Foreach(sem, fuel - 1, x, ix, xs, i + 1, body, r.s)
  }

  /** A break ends the whole case or switch. */
  function Unbroken(r: Outcome): (res: Outcome) { if r.Done? && r.c.Break? then Done(r.s, Normal) else r }

  /** The first branch that matches; none is an error. */
  function Case(sem: Sem, fuel: nat, v: Value, bs: Branches, s: Store): (r: Outcome)
    decreases fuel, bs, 1
  {
    match bs
    case NoBranch => Failed
    case Else(body, _) => Unbroken(ExecAll(sem, fuel, body, s))
    case Branch(test, body, next) =>
      var w := Eval(sem, test, s);
      if w.Err? then Failed
      else if sem.same(v, w.value) then Unbroken(ExecAll(sem, fuel, body, w.s)) else Case(sem, fuel, v, next, w.s)
  }

  /** A branch that is taken, and the branches behind it. */
  function Taken(sem: Sem, fuel: nat, v: Value, bs: Branches, s: Store): (r: Outcome)
    requires !bs.NoBranch?
    decreases fuel, bs, 0
  {
    var r := ExecAll(sem, fuel, bs.body, s);
    if r.Done? && r.c.Normal? then Switch(sem, fuel, v, bs.next, true, r.s) else Unbroken(r)
  }

  /** From the first branch that matches on to the end, or to a break. */
  function Switch(sem: Sem, fuel: nat, v: Value, bs: Branches, hit: bool, s: Store): (r: Outcome)
    decreases fuel, bs, 1
  {
    if bs.NoBranch? then Done(s, Normal)
    else if hit || bs.Else? then Taken(sem, fuel, v, bs, s)
    else
      var w := Eval(sem, bs.test, s);
      if w.Err? then Failed
      else if sem.same(v, w.value) then Taken(sem, fuel, v, bs, w.s)
      else Switch(sem, fuel, v, bs.next, false, w.s)
  }
}
