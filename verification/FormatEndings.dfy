/** What a whole output is: the format and its reversions written out up to the last value, and
the little that is still printed behind that. */
module FormatEndings {
  import opened Formats
  import opened FormatScripts

  // ----- scripts and slots -----

  lemma {:induction false} RoomCycle(p: seq<Piece>, xs: seq<int>, n: nat)
    requires Room(p) == |xs|
    ensures Room(Cycle(p, n)) == |Cycle(xs, n)|
    decreases n
  {
    if n > 0 {
      RoomCycle(p, xs, n - 1);
      RoomAppend(p, Cycle(p, n - 1));
    }
  }

  lemma {:induction false} NoRoom(p: seq<Piece>)
    requires forall i :: 0 <= i < |p| ==> !p[i].Slot?
    ensures Room(p) == 0
    decreases |p|
  {
    if p != [] {
      NoRoom(p[1..]);
    }
  }

  lemma {:induction false} AllRoom(d: int, n: nat)
    ensures Room(Copies(Slot(d), n)) == n
    decreases n
  {
    if n > 0 {
      AllRoom(d, n - 1);
      RoomAppend(Copies(Slot(d), n - 1), [Slot(d)]);
      assert [Slot(d)][1..] == [];
    }
  }

  /** A node's script has room for a value in each of its slots. */
  lemma {:induction false} RoomSlots(t: Tree)
    ensures Room(Script(t)) == |Slots(t)|
    decreases t, 1
  {
    if t.Node? {
      match t.kind
      case FORMAT(rep) =>
        BodyRoom(t.down);
        RoomCycle(Body(t.down), AllSlots(After(t.down)), rep);
      case DATA(d, rep) => AllRoom(d, rep);
      case _ => NoRoom(Script(t));
    }
  }

  lemma {:induction false} RoomAllSlots(t: Tree)
    ensures Room(AllScript(t)) == |AllSlots(t)|
    decreases t, 2
  {
    if !(t.Null? || IsQ(t)) {
      RoomSlots(t);
      RoomAllSlots(After(t.next));
      NoRoom(QScript(t.next));
      RoomAppend(QScript(t.next), AllScript(After(t.next)));
      RoomAppend(Script(t), QScript(t.next) + AllScript(After(t.next)));
    }
  }

  /** One repetition of a group's items. */
  function Body(down: Tree): (r: seq<Piece>) { QScript(down) + AllScript(After(down)) }

  lemma {:induction false} BodyRoom(down: Tree)
    ensures Room(Body(down)) == |AllSlots(After(down))|
    decreases down, 3
  {
    NoRoom(QScript(down));
    RoomAllSlots(After(down));
    RoomAppend(QScript(down), AllScript(After(down)));
  }

  // ----- how many values are taken -----

  /** From s to t as many values were taken as there are slots, or all. */
  ghost predicate Takes(slots: seq<int>, s: State, t: State) {
    |t.left| == if |slots| < |s.left| then |s.left| - |slots| else 0
  }

  lemma FilledTakes(slots: seq<int>, s: State, t: State)
    requires Filled(slots, s, t)
    ensures Takes(slots, s, t)
  {
  }

  lemma {:induction false} OneTakes(t: Tree, s: State)
    requires t.Node?
    ensures Takes(Slots(t), s, One(t, s))
  {
    OneFilled(t, s);
    FilledTakes(Slots(t), s, One(t, s));
  }

  lemma {:induction false} ItemsTakes(t: Tree, s: State)
    ensures Takes(AllSlots(t), s, Items(t, s))
  {
    ItemsFilled(t, s);
    FilledTakes(AllSlots(t), s, Items(t, s));
  }

  lemma {:induction false} ReversionTakes(g: Tree, s: State)
    requires g.Node?
    ensures Takes(PassSlots(g), s, Reversion(g, s))
  {
    ReversionFilled(g, s);
    FilledTakes(PassSlots(g), s, Reversion(g, s));
  }

  // ----- up to a slot -----

  /** The script up to and with slot number n, counted from 1. */
  function UpTo(p: seq<Piece>, n: nat): (r: seq<Piece>)
    decreases |p|
  {
    if p == [] || n == 0 then [] else [p[0]] + UpTo(p[1..], if p[0].Slot? then n - 1 else n)
  }

  lemma {:induction false} UpToFirst(p: seq<Piece>, q: seq<Piece>, n: nat)
    requires n <= Room(p)
    ensures UpTo(p + q, n) == UpTo(p, n)
    decreases |p|
  {
    if p != [] && n > 0 {
      assert (p + q)[1..] == p[1..] + q;
      UpToFirst(p[1..], q, if p[0].Slot? then n - 1 else n);
    }
  }

  lemma {:induction false} UpToSecond(p: seq<Piece>, q: seq<Piece>, n: nat)
    requires Room(p) < n
    ensures UpTo(p + q, n) == p + UpTo(q, n - Room(p))
    decreases |p|
  {
    if p == [] {
      assert p + q == q;
    } else {
      assert (p + q)[1..] == p[1..] + q;
      UpToSecond(p[1..], q, if p[0].Slot? then n - 1 else n);
    }
  }

  lemma {:induction false} UpToCopies(d: int, n: nat, rep: nat)
    requires n <= rep
    ensures UpTo(Copies(Slot(d), rep), n) == Copies(Slot(d), n)
    decreases n
  {
    if n > 0 {
      assert Copies(Slot(d), rep)[1..] == Copies(Slot(d), rep - 1);
      UpToCopies(d, n - 1, rep - 1);
      assert [Slot(d)] + Copies(Slot(d), n - 1) == Copies(Slot(d), n);
    }
  }

  /** The script is written up to its slot number n, and p behind it. */
  ghost predicate WrittenUpTo(script: seq<Piece>, n: nat, p: seq<Piece>, s: State, t: State) {
    |s.left| == n && t.left == [] && t.term && Written(UpTo(script, n) + p, s, t)
  }

  lemma CutJoin(p: seq<Piece>, q: seq<Piece>, n: nat, e: seq<Piece>, s: State, t: State, u: State)
    requires Written(p, s, t) && |s.left| == Room(p) + n && n > 0 && WrittenUpTo(q, n, e, t, u)
    ensures WrittenUpTo(p + q, Room(p) + n, e, s, u)
  {
    UpToSecond(p, q, Room(p) + n);
    WrittenJoin(p, UpTo(q, n) + e, s, t, u);
    Regroup(p, UpTo(q, n), e);
  }

  lemma CutFirst(p: seq<Piece>, q: seq<Piece>, n: nat, e: seq<Piece>, f: seq<Piece>, s: State, t: State, u: State)
    requires n <= Room(p) && WrittenUpTo(p, n, e, s, t) && Written(f, t, u) && u.term
    ensures WrittenUpTo(p + q, n, e + f, s, u)
  {
    UpToFirst(p, q, n);
    WrittenJoin(UpTo(p, n) + e, f, s, t, u);
    Regroup(UpTo(p, n), e, f);
    PrintFill(f, t);
  }

  // ----- what is printed behind the last value -----

  /** The texts from t on with the slashes and dollar signs behind each, up to the first other item. */
  function Texts(t: Tree): (r: seq<Piece>)
    decreases t
  {
    if t.Null? || IsQ(t) || !t.kind.TEXT? then [] else [Fixed(Put(t.kind.s))] + (QScript(t.next) + Texts(After(t.next)))
  }

  /** Slot number n of a group with b slots a repetition, counted within its repetition. */
  function Within(n: nat, b: nat): (r: nat)
    requires b > 0
  {
    if n <= b then n else Within(n - b, b)
  }

  /** What node t prints behind its slot number n if no value follows that one. */
  function EndOne(t: Tree, n: nat): (r: seq<Piece>)
    decreases t, 1
  {
    if t.Null? || !t.kind.FORMAT? || AllSlots(After(t.down)) == [] then []
    else EndAll(After(t.down), Within(n, |AllSlots(After(t.down))|))
  }

  /** The same for the items from t on: behind the item with the slot the texts that follow it. */
  function EndAll(t: Tree, n: nat): (r: seq<Piece>)
    decreases t, 2
  {
    if t.Null? || IsQ(t) then []
    else if n <= |Slots(t)| then EndOne(t, n) + (QScript(t.next) + Texts(After(t.next)))
    else EndAll(After(t.next), n - |Slots(t)|)
  }

  lemma Exhausted(t: Tree, s: State)
    requires t.Node? && s.left == []
    ensures One(t, s).left == [] && (s.term ==> One(t, s).term)
    decreases t, 1, 0
  {
    OneFilled(t, s);
    if t.kind.FORMAT? {
      RepeatTerm(t.kind.rep, t.down, s.(anchor := t));
    }
  }

  lemma {:induction false} RepeatTerm(r: nat, down: Tree, s: State)
    requires s.left == []
    ensures Repeat(r, down, s).left == [] && (s.term ==> Repeat(r, down, s).term)
    decreases down, 3, r
  {
    if r > 0 {
      var s1 := Items(After(down), QState(down, s));
      ItemsTerm(After(down), QState(down, s));
      RepeatTerm(r - 1, down, s1);
    }
  }

  lemma {:induction false} ItemsTerm(t: Tree, s: State)
    requires s.left == []
    ensures Items(t, s).left == [] && (s.term ==> Items(t, s).term)
    decreases t, 2, 0
  {
    if !(t.Null? || IsQ(t)) {
      Exhausted(t, s);
      ItemsTerm(After(t.next), QState(t.next, One(t, s)));
    }
  }

  lemma ItemsStep(t: Tree, s: State)
    requires t.Node? && !IsQ(t) && (t.kind.TEXT? || s.left != [] || !s.term)
    ensures Items(t, s) == Items(After(t.next), QState(t.next, One(t, s)))
  {
  }

  /** When the values are out, a list of items prints its leading texts. */
  lemma {:induction false} ItemsTexts(t: Tree, s: State, u: State)
    requires s.left == [] && s.term && u == Items(t, s)
    ensures Written(Texts(t), s, u)
    decreases t
  {
    if t.Null? || IsQ(t) || !t.kind.TEXT? {
      NothingWritten(s, s);
    } else {
      ItemsStep(t, s);
      MoreTexts(t, s, s.(out := s.out + [Put(t.kind.s)]), u);
    }
  }

  lemma {:induction false} MoreTexts(t: Tree, s: State, s1: State, u: State)
    requires t.Node? && t.kind.TEXT? && s.left == [] && s.term && s1 == s.(out := s.out + [Put(t.kind.s)])
    requires u == Items(After(t.next), QState(t.next, s1))
    ensures Written([Fixed(Put(t.kind.s))] + (QScript(t.next) + Texts(After(t.next))), s, u)
    decreases t, 0
  {
    var s2 := QState(t.next, s1);
    ItemsTexts(After(t.next), s2, u);
    OneFixed(Put(t.kind.s), s, s1);
    QWritten(t.next, s1);
    WrittenJoin(QScript(t.next), Texts(After(t.next)), s1, s2, u);
    WrittenJoin([Fixed(Put(t.kind.s))], QScript(t.next) + Texts(After(t.next)), s, s1, u);
  }

  // ----- the pass in which the values run out -----

  lemma {:induction false} OneCut(t: Tree, s: State)
    requires t.Node? && s.left != [] && One(t, s).left == []
    ensures |s.left| <= |Slots(t)|
    ensures WrittenUpTo(Script(t), |s.left|, EndOne(t, |s.left|), s, One(t, s))
    decreases t, 1, 0
  {
    OneTakes(t, s);
    if t.kind.FORMAT? {
      RepeatCut(t.kind.rep, t.down, s.(anchor := t));
      WrittenFrom(UpTo(Script(t), |s.left|) + EndOne(t, |s.left|), s, t, One(t, s));
    } else {
      assert t.kind.DATA?;
      DataCut(t, s, t.kind.d, t.kind.rep);
    }
  }

  lemma DataCut(t: Tree, s: State, d: int, rep: nat)
    requires t.Node? && t.kind == DATA(d, rep) && s.left != [] && |s.left| <= rep
    ensures WrittenUpTo(Script(t), |s.left|, [], s, One(t, s))
  {
    var n := |s.left|;
    UpToCopies(d, n, rep);
    SlotsWritten(d, n, s, One(t, s));
    assert Copies(Slot(d), n) + [] == Copies(Slot(d), n);
  }

  lemma {:induction false} RepeatCut(r: nat, down: Tree, s: State)
    requires s.left != [] && Repeat(r, down, s).left == []
    ensures AllSlots(After(down)) != []
    ensures WrittenUpTo(Cycle(Body(down), r), |s.left|, EndAll(After(down), Within(|s.left|, |AllSlots(After(down))|)),
                        s, Repeat(r, down, s))
    decreases down, 3, r
  {
    var s1 := Items(After(down), QState(down, s));
    ItemsTakes(After(down), QState(down, s));
    if s1.left == [] {
      BodyCut(down, s, s1);
      BodyRoom(down);
      FirstCut(Body(down), Cycle(Body(down), r - 1), |s.left|, EndAll(After(down), |s.left|), s, s1);
    } else {
      RepetitionWritten(down, s, s1);
      RepeatCut(r - 1, down, s1);
      LaterCut(down, r - 1, s, s1, Repeat(r - 1, down, s1), |s.left|, |AllSlots(After(down))|);
    }
  }

  lemma LaterCut(down: Tree, r: nat, s: State, s1: State, u: State, n: nat, b: nat)
    requires b == |AllSlots(After(down))| && 0 < b < n && n == |s.left| && |s1.left| == n - b
        && Written(Body(down), s, s1)
    requires WrittenUpTo(Cycle(Body(down), r), n - b, EndAll(After(down), Within(n - b, b)), s1, u)
    ensures WrittenUpTo(Body(down) + Cycle(Body(down), r), n, EndAll(After(down), Within(n, b)), s, u)
  {
    BodyRoom(down);
    CutJoin(Body(down), Cycle(Body(down), r), n - b, EndAll(After(down), Within(n - b, b)), s, s1, u);
  }

  lemma FirstCut(p: seq<Piece>, q: seq<Piece>, n: nat, e: seq<Piece>, s: State, t: State)
    requires n <= Room(p) && WrittenUpTo(p, n, e, s, t)
    ensures WrittenUpTo(p + q, n, e, s, t)
  {
    UpToFirst(p, q, n);
  }

  lemma {:induction false} BodyCut(down: Tree, s: State, s1: State)
    requires s.left != [] && s1 == Items(After(down), QState(down, s)) && s1.left == []
    ensures |s.left| <= |AllSlots(After(down))|
    ensures WrittenUpTo(Body(down), |s.left|, EndAll(After(down), |s.left|), s, s1)
    decreases down, 2, 1
  {
    var s2, v := QState(down, s), After(down);
    assert s2.left == s.left;
    ItemsCut(v, s2);
    BegunCut(down, s, s2, s1, AllScript(v), |s.left|, EndAll(v, |s.left|));
  }

  lemma BegunCut(down: Tree, s: State, s2: State, s1: State, p: seq<Piece>, n: nat, e: seq<Piece>)
    requires s2 == QState(down, s) && n == |s.left| && n > 0 && WrittenUpTo(p, n, e, s2, s1)
    ensures WrittenUpTo(QScript(down) + p, n, e, s, s1)
  {
    QWritten(down, s);
    NoRoom(QScript(down));
    CutJoin(QScript(down), p, n, e, s, s2, s1);
  }

  lemma {:induction false} ItemsCut(t: Tree, s: State)
    requires s.left != [] && Items(t, s).left == []
    ensures |s.left| <= |AllSlots(t)|
    ensures WrittenUpTo(AllScript(t), |s.left|, EndAll(t, |s.left|), s, Items(t, s))
    decreases t, 2, 0
  {
    ItemsTakes(t, s);
    ItemsStep(t, s);
    RoomSlots(t);
    ItemCut(t, s, One(t, s), QState(t.next, One(t, s)), After(t.next), Items(t, s));
  }

  lemma {:induction false} ItemCut(t: Tree, s: State, s1: State, s2: State, v: Tree, u: State)
    requires t.Node? && !IsQ(t) && s.left != [] && s1 == One(t, s) && s2 == QState(t.next, s1) && v == After(t.next)
    requires u == Items(v, s2) && u.left == [] && Room(Script(t)) == |Slots(t)|
    ensures WrittenUpTo(Script(t) + (QScript(t.next) + AllScript(v)), |s.left|, EndAll(t, |s.left|), s, u)
    decreases t, 1, 1
  {
    OneTakes(t, s);
    if s1.left == [] {
      OneCut(t, s);
      LastCut(t, s, s1, s2, v, u);
    } else {
      OneWritten(t, s);
      ItemsCut(v, s2);
      NextCut(t, s, s1, s2, v, u, |s.left| - |Slots(t)|);
    }
  }

  lemma LastCut(t: Tree, s: State, s1: State, s2: State, v: Tree, u: State)
    requires t.Node? && !IsQ(t) && s2 == QState(t.next, s1) && v == After(t.next) && u == Items(v, s2)
    requires |s.left| <= |Slots(t)| == Room(Script(t)) && WrittenUpTo(Script(t), |s.left|, EndOne(t, |s.left|), s, s1)
    ensures WrittenUpTo(Script(t) + (QScript(t.next) + AllScript(v)), |s.left|, EndAll(t, |s.left|), s, u)
  {
    ItemsTexts(v, s2, u);
    ItemsTerm(v, s2);
    LastItem(Script(t), AllScript(v), t.next, |s.left|, EndOne(t, |s.left|), Texts(v), s, s1, s2, u);
  }

  lemma NextCut(t: Tree, s: State, s1: State, s2: State, v: Tree, u: State, n: nat)
    requires t.Node? && !IsQ(t) && s2 == QState(t.next, s1) && v == After(t.next) && n > 0
    requires |s.left| == |Slots(t)| + n && |Slots(t)| == Room(Script(t)) && Written(Script(t), s, s1)
    requires WrittenUpTo(AllScript(v), n, EndAll(v, n), s2, u)
    ensures WrittenUpTo(Script(t) + (QScript(t.next) + AllScript(v)), |s.left|, EndAll(t, |s.left|), s, u)
  {
    NextItem(Script(t), AllScript(v), t.next, n, EndAll(v, n), s, s1, s2, u);
  }

  /** The item that takes the last value, and what is printed behind it. */
  lemma LastItem(p: seq<Piece>, rest: seq<Piece>, next: Tree, n: nat, e: seq<Piece>, f: seq<Piece>, s: State, s1: State,
                 s2: State, u: State)
    requires s2 == QState(next, s1) && n <= Room(p) && WrittenUpTo(p, n, e, s, s1)
    requires Written(f, s2, u) && u.term
    ensures WrittenUpTo(p + (QScript(next) + rest), n, e + (QScript(next) + f), s, u)
  {
    QWritten(next, s1);
    WrittenJoin(QScript(next), f, s1, s2, u);
    CutFirst(p, QScript(next) + rest, n, e, QScript(next) + f, s, s1, u);
  }

  /** An item that the values outlast, and the rest. */
  lemma NextItem(p: seq<Piece>, rest: seq<Piece>, next: Tree, n: nat, e: seq<Piece>, s: State, s1: State, s2: State,
                 u: State)
    requires s2 == QState(next, s1) && |s.left| == Room(p) + n && n > 0 && Written(p, s, s1)
    requires WrittenUpTo(rest, n, e, s2, u)
    ensures WrittenUpTo(p + (QScript(next) + rest), Room(p) + n, e, s, u)
  {
    QWritten(next, s1);
    NoRoom(QScript(next));
    CutJoin(QScript(next), rest, n, e, s1, s2, u);
    CutJoin(p, QScript(next) + rest, n, e, s, s1, u);
  }

  // ----- the same for further passes -----

  /** What a node prints that is entered when the values are out. */
  function Lead(t: Tree): (r: seq<Piece>) {
    if t.Null? || IsQ(t) then []
    else match t.kind
      case FORMAT(rep) => if rep == 0 then [] else QScript(t.down) + Texts(After(t.down))
      case TEXT(x) => [Fixed(Put(x))]
      case BLANKS(w) => Copies(Fixed(Space), w)
      case _ => []
  }

  lemma LeadWritten(t: Tree, s: State)
    requires t.Node? && !IsQ(t) && s.left == [] && s.term
    ensures Written(Lead(t), s, One(t, s)) && One(t, s).left == [] && One(t, s).term
  {
    Exhausted(t, s);
    if t.kind.FORMAT? && t.kind.rep > 0 {
      ItemsTerm(After(t.down), QState(t.down, s.(anchor := t)));
      EnteredWritten(t.down, s.(anchor := t), One(t, s));
      WrittenFrom(Lead(t), s, t, One(t, s));
    } else if t.kind.TEXT? {
      OneFixed(Put(t.kind.s), s, One(t, s));
    } else if t.kind.BLANKS? {
      FixedWritten(Space, t.kind.w, s, One(t, s));
    } else {
      NothingWritten(s, One(t, s));
    }
  }

  lemma EnteredWritten(down: Tree, s: State, u: State)
    requires s.left == [] && s.term && u == Items(After(down), QState(down, s))
    ensures Written(QScript(down) + Texts(After(down)), s, u)
  {
    QWritten(down, s);
    ItemsTexts(After(down), QState(down, s), u);
    WrittenJoin(QScript(down), Texts(After(down)), s, QState(down, s), u);
  }

  /** One further pass from group g. */
  function PassScript(g: Tree): (r: seq<Piece>)
    requires g.Node?
  {
    Script(g) + (QScript(g.next) + AllScript(After(g.next)))
  }

  lemma PassRoom(g: Tree)
    requires g.Node?
    ensures Room(PassScript(g)) == |PassSlots(g)|
  {
    RoomSlots(g);
    BodyRoom(g.next);
    RoomAppend(Script(g), QScript(g.next) + AllScript(After(g.next)));
  }

  /** What the items behind the reversion group print behind slot number n if it takes the last value. */
  function EndTail(t: Tree, n: nat): (r: seq<Piece>)
    decreases t
  {
    if t.Null? || IsQ(t) then []
    else if n <= |Slots(t)| then EndOne(t, n)
    else EndTail(After(t.next), n - |Slots(t)|)
  }

  /** The same for the whole pass: behind the group itself comes one more item. */
  function EndPass(g: Tree, n: nat): (r: seq<Piece>)
    requires g.Node?
  {
    if n <= |Slots(g)| then EndOne(g, n) + (QScript(g.next) + Lead(After(g.next)))
    else EndTail(After(g.next), n - |Slots(g)|)
  }

  lemma {:induction false} TailCut(t: Tree, s: State)
    requires s.left != [] && Tail(t, s).left == []
    ensures WrittenUpTo(AllScript(t), |s.left|, EndTail(t, |s.left|), s, Tail(t, s))
    decreases t, 1
  {
    OneTakes(t, s);
    RoomSlots(t);
    TailItemCut(t, s, One(t, s), QState(t.next, One(t, s)), After(t.next), Tail(t, s));
  }

  lemma {:induction false} TailItemCut(t: Tree, s: State, s1: State, s2: State, v: Tree, u: State)
    requires t.Node? && !IsQ(t) && s.left != [] && s1 == One(t, s) && s2 == QState(t.next, s1) && v == After(t.next)
    requires u == (if s1.left == [] then s1 else Tail(v, s2)) && u.left == []
    requires Room(Script(t)) == |Slots(t)| && Takes(Slots(t), s, s1)
    ensures WrittenUpTo(Script(t) + (QScript(t.next) + AllScript(v)), |s.left|, EndTail(t, |s.left|), s, u)
    decreases t, 0
  {
    if s1.left == [] {
      OneCut(t, s);
      FirstCut(Script(t), QScript(t.next) + AllScript(v), |s.left|, EndOne(t, |s.left|), s, u);
    } else {
      OneWritten(t, s);
      TailCut(v, s2);
      LaterTailCut(t, s, s1, s2, v, u, |s.left| - |Slots(t)|);
    }
  }

  lemma LaterTailCut(t: Tree, s: State, s1: State, s2: State, v: Tree, u: State, n: nat)
    requires t.Node? && !IsQ(t) && s2 == QState(t.next, s1) && v == After(t.next) && n > 0
    requires |s.left| == |Slots(t)| + n && |Slots(t)| == Room(Script(t)) && Written(Script(t), s, s1)
    requires WrittenUpTo(AllScript(v), n, EndTail(v, n), s2, u)
    ensures WrittenUpTo(Script(t) + (QScript(t.next) + AllScript(v)), |s.left|, EndTail(t, |s.left|), s, u)
  {
    NextItem(Script(t), AllScript(v), t.next, n, EndTail(v, n), s, s1, s2, u);
  }

  /** The further pass in which the values run out. */
  lemma PassCut(g: Tree, s: State)
    requires g.Node? && s.left != [] && Reversion(g, s).left == []
    ensures |s.left| <= |PassSlots(g)|
    ensures WrittenUpTo(PassScript(g), |s.left|, EndPass(g, |s.left|), s, Reversion(g, s))
  {
    var s1 := One(g, s);
    ReversionTakes(g, s);
    OneTakes(g, s);
    RoomSlots(g);
    if s1.left == [] {
      OneCut(g, s);
      GroupCut(g, s, s1, QState(g.next, s1), After(g.next), Reversion(g, s));
    } else {
      OneWritten(g, s);
      BehindCut(g, s, s1, QState(g.next, s1), After(g.next), Reversion(g, s), |s.left| - |Slots(g)|);
    }
  }

  lemma GroupCut(g: Tree, s: State, s1: State, s2: State, v: Tree, u: State)
    requires g.Node? && s2 == QState(g.next, s1) && v == After(g.next) && u == Tail(v, s2)
    requires |s.left| <= |Slots(g)| == Room(Script(g)) && WrittenUpTo(Script(g), |s.left|, EndOne(g, |s.left|), s, s1)
    ensures WrittenUpTo(PassScript(g), |s.left|, EndPass(g, |s.left|), s, u)
  {
    AfterGroup(v, s2, u);
    LastItem(Script(g), AllScript(v), g.next, |s.left|, EndOne(g, |s.left|), Lead(v), s, s1, s2, u);
  }

  lemma BehindCut(g: Tree, s: State, s1: State, s2: State, v: Tree, u: State, n: nat)
    requires g.Node? && s2 == QState(g.next, s1) && v == After(g.next) && u == Tail(v, s2) && u.left == []
    requires n > 0 && |s.left| == |Slots(g)| + n && |s1.left| == n && |Slots(g)| == Room(Script(g))
        && Written(Script(g), s, s1)
    ensures WrittenUpTo(PassScript(g), |s.left|, EndPass(g, |s.left|), s, u)
  {
    TailCut(v, s2);
    NextItem(Script(g), AllScript(v), g.next, n, EndTail(v, n), s, s1, s2, u);
  }

  lemma AfterGroup(v: Tree, s: State, u: State)
    requires s.left == [] && s.term && u == Tail(v, s)
    ensures Written(Lead(v), s, u) && u.term
  {
    if v.Null? || IsQ(v) {
      NothingWritten(s, s);
    } else {
      LeadWritten(v, s);
    }
  }

  /** One further pass, on a new line. */
  function Line(g: Tree): (r: seq<Piece>)
    requires g.Node?
  {
    [Fixed(NewLine)] + PassScript(g)
  }

  lemma LineRoom(g: Tree)
    requires g.Node?
    ensures Room([Fixed(NewLine)]) == 0 && Room(Line(g)) == |PassSlots(g)|
  {
    PassRoom(g);
    NoRoom([Fixed(NewLine)]);
    RoomAppend([Fixed(NewLine)], PassScript(g));
  }

  lemma LineBegun(s: State)
    ensures Written([Fixed(NewLine)], s, s.(out := s.out + [NewLine]))
  {
    OneFixed(NewLine, s, s.(out := s.out + [NewLine]));
  }

  lemma {:induction false} RerunCut(g: Tree, r: nat, s: State)
    requires g.Node? && PassSlots(g) != [] && s.left != [] && |s.left| <= r
    ensures WrittenUpTo(Cycle(Line(g), r), |s.left|, EndPass(g, Within(|s.left|, |PassSlots(g)|)), s, Rerun(g, s))
    decreases r
  {
    var s1 := s.(out := s.out + [NewLine]);
    var t := Reversion(g, s1);
    LineBegun(s);
    ReversionTakes(g, s1);
    if t.left == [] {
      PassCut(g, s1);
      LastLine(g, r, s, s1, t, |s.left|);
    } else {
      ReversionWritten(g, s1);
      RerunCut(g, r - 1, t);
      NextLine(g, r, s, s1, t, Rerun(g, t), |s.left|, |PassSlots(g)|);
    }
  }

  lemma LastLine(g: Tree, r: nat, s: State, s1: State, t: State, n: nat)
    requires g.Node? && 0 < n <= |PassSlots(g)| && r > 0 && n == |s.left| && Written([Fixed(NewLine)], s, s1)
    requires WrittenUpTo(PassScript(g), n, EndPass(g, n), s1, t)
    ensures WrittenUpTo(Cycle(Line(g), r), n, EndPass(g, Within(n, |PassSlots(g)|)), s, t)
  {
    LineRoom(g);
    CutJoin([Fixed(NewLine)], PassScript(g), n, EndPass(g, n), s, s1, t);
    FirstCut(Line(g), Cycle(Line(g), r - 1), n, EndPass(g, n), s, t);
  }

  lemma NextLine(g: Tree, r: nat, s: State, s1: State, t: State, u: State, n: nat, p: nat)
    requires g.Node? && p == |PassSlots(g)| && 0 < p < n && r > 0 && n == |s.left| && |t.left| == n - p
    requires Written([Fixed(NewLine)], s, s1) && Written(PassScript(g), s1, t)
    requires WrittenUpTo(Cycle(Line(g), r - 1), n - p, EndPass(g, Within(n - p, p)), t, u)
    ensures WrittenUpTo(Cycle(Line(g), r), n, EndPass(g, Within(n, p)), s, u)
  {
    LineRoom(g);
    WrittenJoin([Fixed(NewLine)], PassScript(g), s, s1, t);
    CutJoin(Line(g), Cycle(Line(g), r - 1), n - p, EndPass(g, Within(n - p, p)), s, t, u);
  }

  // ----- a call without values -----

  /** A pass that meets a colon with no values left ends there. */
  predicate HasColon(t: Tree)
    decreases t, 1
  {
    t.Node? && (t.kind.TERM? || (t.kind.FORMAT? && t.kind.rep > 0 && AnyColon(After(t.down))))
  }

  predicate AnyColon(t: Tree)
    decreases t, 2
  {
    !(t.Null? || IsQ(t)) && (HasColon(t) || AnyColon(After(t.next)))
  }

  /** What is printed without values: everything but the values, up to a colon and the texts behind it. */
  function EmptyOne(t: Tree): (r: seq<Piece>)
    decreases t, 1
  {
    if t.Null? then []
    else match t.kind
      case FORMAT(rep) =>
        var body := QScript(t.down) + EmptyAll(After(t.down));
        Cycle(body, if HasColon(t) then 1 else rep)
      case TEXT(x) => [Fixed(Put(x))]
      case BLANKS(w) => Copies(Fixed(Space), w)
      case _ => []
  }

  function EmptyAll(t: Tree): (r: seq<Piece>)
    decreases t, 2
  {
    if t.Null? || IsQ(t) then []
    else EmptyOne(t) + (QScript(t.next) + if HasColon(t) then Texts(After(t.next)) else EmptyAll(After(t.next)))
  }

  lemma {:induction false} EmptyOneWritten(t: Tree, s: State)
    requires t.Node? && s.left == [] && !s.term
    ensures Written(EmptyOne(t), s, One(t, s)) && One(t, s).left == [] && (One(t, s).term <==> HasColon(t))
    decreases t, 1, 0
  {
    match t.kind
    case FORMAT(rep) =>
      EmptyRepeatWritten(rep, t.down, s.(anchor := t));
      WrittenFrom(EmptyOne(t), s, t, One(t, s));
    case TEXT(x) => OneFixed(Put(x), s, One(t, s));
    case BLANKS(w) => FixedWritten(Space, w, s, One(t, s));
    case _ => NothingWritten(s, One(t, s));
  }

  lemma {:induction false} EmptyRepeatWritten(r: nat, down: Tree, s: State)
    requires s.left == [] && !s.term
    ensures var body := QScript(down) + EmptyAll(After(down));
            Written(Cycle(body, if r > 0 && AnyColon(After(down)) then 1 else r), s, Repeat(r, down, s))
    ensures Repeat(r, down, s).left == [] && (Repeat(r, down, s).term <==> r > 0 && AnyColon(After(down)))
    decreases down, 3, r
  {
    if r == 0 {
      NothingWritten(s, s);
    } else {
      var s1, body := Items(After(down), QState(down, s)), QScript(down) + EmptyAll(After(down));
      EmptyBodyWritten(down, s, s1);
      if AnyColon(After(down)) {
        assert Cycle(body, 1) == body + Cycle(body, 0) == body;
      } else {
        EmptyRepeatWritten(r - 1, down, s1);
        WrittenJoin(body, Cycle(body, r - 1), s, s1, Repeat(r - 1, down, s1));
      }
    }
  }

  lemma {:induction false} EmptyBodyWritten(down: Tree, s: State, s1: State)
    requires s.left == [] && !s.term && s1 == Items(After(down), QState(down, s))
    ensures Written(QScript(down) + EmptyAll(After(down)), s, s1) && s1.left == []
        && (s1.term <==> AnyColon(After(down)))
    decreases down, 2, 1
  {
    QWritten(down, s);
    EmptyAllWritten(After(down), QState(down, s));
    WrittenJoin(QScript(down), EmptyAll(After(down)), s, QState(down, s), s1);
  }

  lemma {:induction false} EmptyAllWritten(t: Tree, s: State)
    requires s.left == [] && !s.term
    ensures Written(EmptyAll(t), s, Items(t, s)) && Items(t, s).left == [] && (Items(t, s).term <==> AnyColon(t))
    decreases t, 2, 0
  {
    if t.Null? || IsQ(t) {
      NothingWritten(s, s);
    } else {
      ItemsStep(t, s);
      EmptyItemWritten(t, s, One(t, s), QState(t.next, One(t, s)), After(t.next), Items(t, s));
    }
  }

  lemma {:induction false} EmptyItemWritten(t: Tree, s: State, s1: State, s2: State, v: Tree, u: State)
    requires t.Node? && !IsQ(t) && s.left == [] && !s.term
    requires s1 == One(t, s) && s2 == QState(t.next, s1) && v == After(t.next) && u == Items(v, s2)
    ensures Written(EmptyOne(t) + (QScript(t.next) + if HasColon(t) then Texts(v) else EmptyAll(v)), s, u)
    ensures u.left == [] && (u.term <==> HasColon(t) || AnyColon(v))
    decreases t, 1, 1
  {
    EmptyOneWritten(t, s);
    QWritten(t.next, s1);
    if HasColon(t) {
      ItemsTexts(v, s2, u);
      ItemsTerm(v, s2);
    } else {
      EmptyAllWritten(v, s2);
    }
    var p := if HasColon(t) then Texts(v) else EmptyAll(v);
    WrittenJoin(QScript(t.next), p, s1, s2, u);
    WrittenJoin(EmptyOne(t), QScript(t.next) + p, s, s1, u);
  }

  // ----- the whole output -----

  /** The format, and behind it n lines of reversion. */
  function WholeScript(fmt: Tree, n: nat): (r: seq<Piece>)
    requires RevertTo(fmt).Node?
  {
    Script(fmt) + Cycle(Line(RevertTo(fmt)), n)
  }

  /** What is printed behind value number n, the last. */
  function EndWhole(fmt: Tree, n: nat): (r: seq<Piece>)
    requires RevertTo(fmt).Node?
  {
    if n <= |Slots(fmt)| || PassSlots(RevertTo(fmt)) == [] then EndOne(fmt, n)
    else EndPass(RevertTo(fmt), Within(n - |Slots(fmt)|, |PassSlots(RevertTo(fmt))|))
  }

  /** All that n values print. */
  function Output(fmt: Tree, n: nat): (r: seq<Piece>)
    requires RevertTo(fmt).Node?
  {
    if n == 0 then EmptyOne(fmt) else UpTo(WholeScript(fmt, n), n) + EndWhole(fmt, n)
  }

  /** A format that does not fail prints itself and its reversions up to the last value, and then the texts behind that
      one;
      without values it prints itself up to a colon. */
  lemma WholeWritten(fmt: Tree, s: State)
    requires fmt.Node? && fmt.kind.FORMAT? && !s.term && Whole(fmt, s).Printed?
    ensures RevertTo(fmt).Node? && Written(Output(fmt, |s.left|), s, Whole(fmt, s).s)
  {
    LastNode(fmt, fmt);
    if s.left == [] {
      EmptyOneWritten(fmt, s);
    } else if One(fmt, s).left == [] {
      FirstPass(fmt, s);
    } else {
      AnchorIsRevertTo(fmt, s);
      FurtherPasses(fmt, s, One(fmt, s), RevertTo(fmt), |s.left|);
    }
  }

  /** The same, as the text that comes out: the values stand in the slots, in order, and a dollar sign among what is
      printed leaves out the last newline. */
  lemma WholePrinted(fmt: Tree, s: State)
    requires fmt.Node? && fmt.kind.FORMAT? && !s.term && Whole(fmt, s).Printed?
    ensures RevertTo(fmt).Node? && Room(Output(fmt, |s.left|)) <= |s.left|
    ensures Whole(fmt, s).s.out == s.out + Fill(Output(fmt, |s.left|), s.left)
    ensures Whole(fmt, s).s.nonl <==> s.nonl || Dollar in Output(fmt, |s.left|)
  {
    WholeWritten(fmt, s);
    PrintFill(Output(fmt, |s.left|), s);
  }

  lemma FirstPass(fmt: Tree, s: State)
    requires fmt.Node? && fmt.kind.FORMAT? && s.left != [] && One(fmt, s).left == [] && RevertTo(fmt).Node?
    ensures Written(Output(fmt, |s.left|), s, One(fmt, s))
  {
    OneCut(fmt, s);
    RoomSlots(fmt);
    FirstCut(Script(fmt), Cycle(Line(RevertTo(fmt)), |s.left|), |s.left|, EndOne(fmt, |s.left|), s, One(fmt, s));
  }

  lemma FurtherPasses(fmt: Tree, s: State, s1: State, g: Tree, n: nat)
    requires fmt.Node? && fmt.kind.FORMAT? && s1 == One(fmt, s) && s1.left != [] && n == |s.left|
    requires g == RevertTo(fmt) && g.Node? && PassSlots(g) != []
    ensures Written(Output(fmt, n), s, Rerun(g, s1))
  {
    OneTakes(fmt, s);
    OneWritten(fmt, s);
    RerunCut(g, n, s1);
    BothParts(fmt, s, s1, g, Rerun(g, s1), n, |s1.left|);
  }

  lemma BothParts(fmt: Tree, s: State, s1: State, g: Tree, u: State, n: nat, m: nat)
    requires fmt.Node? && n == |s.left| == |Slots(fmt)| + m && m > 0 && Written(Script(fmt), s, s1)
    requires g == RevertTo(fmt) && g.Node? && PassSlots(g) != []
    requires WrittenUpTo(Cycle(Line(g), n), m, EndPass(g, Within(m, |PassSlots(g)|)), s1, u)
    ensures Written(Output(fmt, n), s, u)
  {
    RoomSlots(fmt);
    CutJoin(Script(fmt), Cycle(Line(g), n), m, EndPass(g, Within(m, |PassSlots(g)|)), s, s1, u);
  }
}
