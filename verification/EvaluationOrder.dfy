/** When the order of evaluation makes no difference: the source evaluates an assignment's
target first and once, the interpreter evaluates the value first, and the target of an op= twice. */
module EvaluationOrder {
  import opened SourceTree
  import opened LoweredTree
  import opened TreeLowering

  // ----- storing at one place and at another -----

  ghost predicate SameShape(s: Store, t: Store) {
    s.Keys == t.Keys && forall p :: p in s ==> s[p].Scalar? == t[p].Scalar? && |Elements(s[p])| == |Elements(t[p])|
  }

  /** v can be stored at l: an element must be there, and takes a scalar. */
  predicate Takes(l: Location, v: Value, s: Store) { l.Whole? || (Get(l, s).Some? && v.Scalar?) }

  /** Storing v at l in s and at k in t leads to the same store: the stores agree on all other
      elements, and if the places differ each store already holds v at the other's place. */
  ghost predicate SameAfter(v: Value, l: Location, s: Store, k: Location, t: Store) {
    || (l == k && s == t)
    || (&& l.Part? && k.Part? && SameShape(s, t)
        && (forall m: Location :: m.Part? && m != l && m != k ==> Get(m, s) == Get(m, t))
        && (l != k ==> Get(k, s) == Some(v) && Get(l, t) == Some(v)))
  }

  lemma PutPart(l: Location, v: Value, s: Store, m: Location)
    requires l.Part? && Takes(l, v, s) && m.Part?
    ensures Put(l, v, s).Some? && SameShape(s, Put(l, v, s).value)
    ensures Get(m, Put(l, v, s).value) == if m == l then Some(v) else Get(m, s)
  {
  }

  /** Stores are known by their elements. */
  lemma ElementsDecide(s: Store, t: Store)
    requires SameShape(s, t) && forall m: Location :: m.Part? ==> Get(m, s) == Get(m, t)
    ensures s == t
  {
    forall p | p in s ensures s[p] == t[p] {
      assert Get(Part(p, 0), s) == Get(Part(p, 0), t);
      if s[p].Arr? {
        forall i | 0 <= i < |s[p].xs| ensures s[p].xs[i] == t[p].xs[i] {
          assert Get(Part(p, i), s) == Get(Part(p, i), t);
        }
        assert s[p].xs == t[p].xs;
      }
    }
  }

  lemma SamePutOnly(v: Value, l: Location, s: Store, k: Location, t: Store)
    requires l.Part? && k.Part? && Takes(l, v, s) && Takes(k, v, t) && Put(l, v, s) == Put(k, v, t)
    ensures SameAfter(v, l, s, k, t)
  {
    PutPart(l, v, s, l);
    PutPart(k, v, t, k);
    forall m: Location | m.Part?
      ensures m != l && m != k ==> Get(m, s) == Get(m, t)
      ensures l != k ==> (m == k ==> Get(m, s) == Some(v)) && (m == l ==> Get(m, t) == Some(v))
    {
      PutPart(l, v, s, m);
      PutPart(k, v, t, m);
    }
  }

  lemma SamePutIf(v: Value, l: Location, s: Store, k: Location, t: Store)
    requires l.Part? && k.Part? && Takes(l, v, s) && Takes(k, v, t) && SameAfter(v, l, s, k, t)
    ensures Put(l, v, s) == Put(k, v, t)
  {
    PutPart(l, v, s, l);
    PutPart(k, v, t, k);
    var s', t' := Put(l, v, s).value, Put(k, v, t).value;
    forall m: Location | m.Part? ensures Get(m, s') == Get(m, t') {
      PutPart(l, v, s, m);
      PutPart(k, v, t, m);
    }
    ElementsDecide(s', t');
  }

  /** SameAfter says what it should. */
  lemma SamePut(v: Value, l: Location, s: Store, k: Location, t: Store)
    requires l.Part? && k.Part? && Takes(l, v, s) && Takes(k, v, t)
    ensures Put(l, v, s) == Put(k, v, t) <==> SameAfter(v, l, s, k, t)
  {
    if Put(l, v, s) == Put(k, v, t) {
      SamePutOnly(v, l, s, k, t);
    } else if SameAfter(v, l, s, k, t) {
      SamePutIf(v, l, s, k, t);
    }
  }

  /** In one store: the same element, or two that both hold the value already. */
  lemma SameInOneStore(v: Value, l: Location, k: Location, s: Store)
    requires l.Part? && k.Part?
    ensures SameAfter(v, l, s, k, s) <==> l == k || Get(l, s) == Get(k, s) == Some(v)
  {
  }

  // ----- an assignment evaluated in either order -----

  /** A place and the value to be stored there, and the store behind the evaluation of both. */
  type Storing = Result<(Location, Value)>

  function AsStored(x: Storing): (r: Result<Value>) {
    if x.Err? then Err else Stored(x.value.0, x.value.1, x.s)
  }

  predicate CanStore(x: Storing) { x.Ok? && Takes(x.value.0, x.value.1, x.s) }

  /** Both come to a place that takes the value, or neither does; the values are the same, and
      so are the stores behind. */
  ghost predicate SameStoring(x: Storing, y: Storing) {
    && CanStore(x) == CanStore(y)
    && (CanStore(x) ==> x.value.1 == y.value.1 && SameAfter(x.value.1, x.value.0, x.s, y.value.0, y.s))
  }

  predicate OneKind(x: Storing, y: Storing) {
    x.Ok? && y.Ok? ==> (x.value.0.Part? && y.value.0.Part?) || (x.value.0 == y.value.0 && x.s == y.s)
  }

  lemma SameStoringExact(x: Storing, y: Storing)
    requires OneKind(x, y)
    ensures AsStored(x) == AsStored(y) <==> SameStoring(x, y)
  {
    if CanStore(x) && CanStore(y) && x.value.0.Part? && y.value.0.Part? {
      SamePut(x.value.1, x.value.0, x.s, y.value.0, y.s);
      PutPart(x.value.0, x.value.1, x.s, x.value.0);
      PutPart(y.value.0, y.value.1, y.s, y.value.0);
    }
  }

  /** The source's order: the target, then the value. */
  function TargetFirst(sem: Sem, l: Expr, r: Expr, s: Store): (res: Storing) {
    var t := Target(sem, l, s);
    if t.Err? then Err
    else
      var v := Eval(sem, r, t.s);
      if v.Err? then Err else Ok((t.value, v.value), v.s)
  }

  /** The interpreter's: the value, then the target. */
  function ValueFirst(sem: Sem, l: Expr, r: Expr, s: Store): (res: Storing) {
    var v := Eval(sem, r, s);
    if v.Err? then Err
    else
      var t := Target(sem, l, v.s);
      if t.Err? then Err else Ok((t.value, v.value), t.s)
  }

  /** What an op= computes from the old value and the right-hand side. */
  function OpValue(sem: Sem, op: int, t: Result<Location>, v: Result<Value>): (r: Result<Value>) {
    if t.Err? || Get(t.value, t.s).None? || v.Err? then Err
    else Operate(sem, op, Get(t.value, t.s).value, v.value, v.s)
  }

  /** An op= that evaluates its target once. */
  function TargetOnce(sem: Sem, op: int, l: Expr, r: Expr, s: Store): (res: Storing) {
    var t := Target(sem, l, s);
    if t.Err? then Err
    else
      var w := OpValue(sem, op, t, Eval(sem, r, t.s));
      if w.Err? then Err else Ok((t.value, w.value), w.s)
  }

  /** An op= that evaluates its target again before it stores. */
  function TargetTwice(sem: Sem, op: int, l: Expr, r: Expr, s: Store): (res: Storing) {
    var x := TargetOnce(sem, op, l, r, s);
    if x.Err? then Err
    else
      var t := Target(sem, l, x.s);
      if t.Err? then Err else Ok((t.value, x.value.1), t.s)
  }

  lemma EvalAssign(sem: Sem, l: Expr, r: Expr, s: Store)
    ensures Eval(sem, Assign(l, r), s) == AsStored(TargetFirst(sem, l, r, s))
  {
  }

  lemma EvalOpAssign(sem: Sem, op: int, l: Expr, r: Expr, s: Store)
    ensures Eval(sem, OpAssign(op, l, r), s) == AsStored(TargetOnce(sem, op, l, r, s))
  {
  }

  lemma {:induction false} TargetKind(sem: Sem, l: Expr, s: Store, t: Store)
    requires Target(sem, l, s).Ok? && Target(sem, l, t).Ok?
    ensures Target(sem, l, s).value.Part? == Target(sem, l, t).value.Part?
    ensures Target(sem, l, s).value.Whole?
        ==> Target(sem, l, s).s == s && Target(sem, l, t) == Ok(Target(sem, l, s).value, t)
    decreases l
  {
    match l
    case Paren(a) => TargetKind(sem, a, s, t);
    case _ =>
  }

  lemma EitherOrder(sem: Sem, l: Expr, r: Expr, s: Store)
    ensures AsStored(TargetFirst(sem, l, r, s)) == AsStored(ValueFirst(sem, l, r, s))
            <==> SameStoring(TargetFirst(sem, l, r, s), ValueFirst(sem, l, r, s))
  {
    var v := Eval(sem, r, s);
    if TargetFirst(sem, l, r, s).Ok? && ValueFirst(sem, l, r, s).Ok? {
      TargetKind(sem, l, s, v.s);
    }
    SameStoringExact(TargetFirst(sem, l, r, s), ValueFirst(sem, l, r, s));
  }

  lemma OnceOrTwice(sem: Sem, op: int, l: Expr, r: Expr, s: Store)
    ensures AsStored(TargetOnce(sem, op, l, r, s)) == AsStored(TargetTwice(sem, op, l, r, s))
            <==> SameStoring(TargetOnce(sem, op, l, r, s), TargetTwice(sem, op, l, r, s))
  {
    var x := TargetOnce(sem, op, l, r, s);
    if TargetTwice(sem, op, l, r, s).Ok? {
      TargetKind(sem, l, s, x.s);
    }
    SameStoringExact(x, TargetTwice(sem, op, l, r, s));
  }

  // ----- evaluations in which no order matters -----

  /** A variable assigned to itself, which is left out of the lowered tree. */
  predicate IsSelf(sem: Sem, l: Expr, r: Expr) {
    var l', r' := LowerTarget(sem, l), LowerExpr(sem, r);
    l'.Some? && r'.Some? && SelfAssignment(l'.value, r'.value)
  }

  /** Every assignment made when e is evaluated from s comes out the same in the interpreter's order. */
  ghost predicate InOrder(sem: Sem, e: Expr, s: Store)
    decreases e, 2
  {
    match e
    case Elem(_, index) => InOrder(sem, index, s)
    case Paren(a) => InOrder(sem, a, s)
    case Minus(a) => InOrder(sem, a, s)
    case Binary(_, a, b) => InOrder(sem, a, s) && (Eval(sem, a, s).Ok? ==> InOrder(sem, b, Eval(sem, a, s).s))
    case Cond(c, a, b) =>
      var v := Eval(sem, c, s);
      && InOrder(sem, c, s)
      && (Test(sem, v) == Some(true) ==> InOrder(sem, a, v.s))
      && (Test(sem, v) == Some(false) ==> InOrder(sem, b, v.s))
    case Assign(l, r) => AssignInOrder(sem, l, r, s)
    case OpAssign(op, l, r) => OpAssignInOrder(sem, op, l, r, s)
    case _ => true
  }

  ghost predicate AssignInOrder(sem: Sem, l: Expr, r: Expr, s: Store)
    decreases Assign(l, r), 1
  {
    PartsInOrder(sem, l, r, s) && SameStoring(TargetFirst(sem, l, r, s), ValueFirst(sem, l, r, s))
  }

  ghost predicate OpAssignInOrder(sem: Sem, op: int, l: Expr, r: Expr, s: Store)
    decreases OpAssign(op, l, r), 1
  {
    OpPartsInOrder(sem, op, l, r, s) && SameStoring(TargetOnce(sem, op, l, r, s), TargetTwice(sem, op, l, r, s))
  }

  /** The same for the evaluations of the two sides, in the interpreter's order. */
  ghost predicate PartsInOrder(sem: Sem, l: Expr, r: Expr, s: Store)
    decreases Assign(l, r), 0
  {
    InOrder(sem, r, s) && (Eval(sem, r, s).Ok? ==> TargetInOrder(sem, l, Eval(sem, r, s).s))
  }

  ghost predicate OpPartsInOrder(sem: Sem, op: int, l: Expr, r: Expr, s: Store)
    decreases OpAssign(op, l, r), 0
  {
    var t, x := Target(sem, l, s), TargetOnce(sem, op, l, r, s);
    && TargetInOrder(sem, l, s)
    && (t.Ok? ==> InOrder(sem, r, t.s))
    && (x.Ok? ==> TargetInOrder(sem, l, x.s))
  }

  /** A self-assignment in a target's place would be taken for its variable. */
  ghost predicate TargetInOrder(sem: Sem, e: Expr, s: Store)
    decreases e, 0
  {
    match e
    case Elem(_, index) => InOrder(sem, index, s)
    case Paren(a) => TargetInOrder(sem, a, s)
    case Assign(l, r) => !IsSelf(sem, l, r)
    case _ => true
  }
}
