/** What a format does to a list of values: the meaning of the nested groups and of
format reversion. */
module Formats {
  /** A node of a format: first child and next sibling.  Data descriptors are told
      apart by d; their widths and flags do not matter here. */
  datatype Tree = Null | Node(kind: Kind, down: Tree, next: Tree)

  datatype Kind =
    | FORMAT(rep: nat)      // a group in parentheses, with its repeat count
    | DATA(d: int, rep: nat)
    | TEXT(s: string)
    | BLANKS(w: nat)        // nX and TRn
    | TERM                  // a colon
    | QUERY                 // Q, ignored on output
    | SLASH(rep: nat)
    | NONL                  // a dollar sign

  datatype Event = Put(s: string) | Space | NewLine | Value(d: int, x: int)

  /** What a walk over a format reads and changes: the values not sent yet, the two flags,
      the group to revert to, and the output. */
  datatype State = State(left: seq<int>, term: bool, nonl: bool, anchor: Tree, out: seq<Event>)

  predicate IsQ(t: Tree) { t.Node? && (t.kind.SLASH? || t.kind.NONL?) }

  function Copies<T>(x: T, n: nat): (s: seq<T>)
    ensures |s| == n && forall i :: 0 <= i < n ==> s[i] == x
  {
    if n == 0 then [] else Copies(x, n - 1) + [x]
  }

  function Min(x: nat, y: nat): (r: nat) { if x < y then x else y }

  function Values(d: int, xs: seq<int>): (s: seq<Event>)
    ensures |s| == |xs| && forall i :: 0 <= i < |s| ==> s[i] == Value(d, xs[i])
  {
    if xs == [] then [] else Values(d, xs[..|xs| - 1]) + [Value(d, xs[|xs| - 1])]
  }

  // ----- one pass -----

  /** The tree behind an optional slash or dollar sign. */
  function After(t: Tree): (r: Tree) { if IsQ(t) then t.next else t }

  function QState(t: Tree, s: State): (r: State) {
    if !IsQ(t) then s
    else if t.kind.NONL? then s.(nonl := true)
    else s.(out := s.out + Copies(NewLine, t.kind.rep))
  }

  /** A data descriptor sends as many values as its repeat count, while there are any. */
  function Send(d: int, rep: nat, s: State): (r: State) {
    var k := Min(rep, |s.left|);
    if s.left == [] then s
    else s.(left := s.left[k..], out := s.out + Values(d, s.left[..k]), term := s.term || k == |s.left|)
  }

  function One(t: Tree, s: State): (r: State)
    requires t.Node?
    decreases t, 1, 0
  {
    match t.kind
    case FORMAT(rep) => Repeat(rep, t.down, s.(anchor := t))
    case DATA(d, rep) => Send(d, rep, s)
    case TEXT(x) => s.(out := s.out + [Put(x)])
    case BLANKS(w) => s.(out := s.out + Copies(Space, w))
    case TERM => s.(term := true)
    case _ => s
  }

  /** The items of one repetition, from t on; two slashes or dollar signs in a row end it. */
  function Items(t: Tree, s: State): (r: State)
    decreases t, 2, 0
  {
    if t.Null? || IsQ(t) then s
    else if !t.kind.TEXT? && s.left == [] && s.term then s
    else
      var s1 := One(t, s);
      Items(After(t.next), QState(t.next, s1))
  }

  function Repeat(r: nat, down: Tree, s: State): (res: State)
    decreases down, 3, r
  {
    if r == 0 then s
    else
      var s1 := Items(After(down), QState(down, s));
      if s1.left == [] && s1.term then s1 else Repeat(r - 1, down, s1)
  }

  /** The items behind the reversion group; they end with the values. */
  function Tail(t: Tree, s: State): (r: State)
    decreases t
  {
    if t.Null? || IsQ(t) then s
    else
      var s1 := One(t, s);
      if s1.left == [] then s1 else Tail(After(t.next), QState(t.next, s1))
  }

  function Reversion(g: Tree, s: State): (r: State)
    requires g.Node?
  {
    var s1 := One(g, s);
    Tail(After(g.next), QState(g.next, s1))
  }

  // ----- the slots a format offers -----

  function Cycle<T>(xs: seq<T>, n: nat): (r: seq<T>) { if n == 0 then [] else xs + Cycle(xs, n - 1) }

  /** The data descriptors of a node with all repetitions written out. */
  function Slots(t: Tree): (r: seq<int>)
    decreases t, 1
  {
    if t.Null? then []
    else match t.kind
      case FORMAT(rep) => Cycle(AllSlots(After(t.down)), rep)
      case DATA(d, rep) => Copies(d, rep)
      case _ => []
  }

  function AllSlots(t: Tree): (r: seq<int>)
    decreases t, 2
  {
    if t.Null? || IsQ(t) then [] else Slots(t) + AllSlots(After(t.next))
  }

  /** The values sent, with the descriptor that formatted each. */
  function Sent(out: seq<Event>): (r: seq<(int, int)>) {
    if out == [] then []
    else
      var e := out[|out| - 1];
      Sent(out[..|out| - 1]) + (if e.Value? then [(e.d, e.x)] else [])
  }

  function Zip(ds: seq<int>, xs: seq<int>): (s: seq<(int, int)>)
    requires |ds| == |xs|
    ensures |s| == |ds| && forall i :: 0 <= i < |s| ==> s[i] == (ds[i], xs[i])
  {
    if ds == [] then [] else [(ds[0], xs[0])] + Zip(ds[1..], xs[1..])
  }

  /** From s to t the values went, one after the other, into the slots, as far as both reach. */
  ghost predicate Filled(slots: seq<int>, s: State, t: State) {
    var k := Min(|slots|, |s.left|);
    t.left == s.left[k..] && Sent(t.out) == Sent(s.out) + Zip(slots[..k], s.left[..k])
  }

  lemma {:induction false} SentAppend(a: seq<Event>, b: seq<Event>)
    ensures Sent(a + b) == Sent(a) + Sent(b)
    decreases |b|
  {
    if b == [] {
      assert a + b == a;
    } else {
      assert (a + b)[..|a + b| - 1] == a + b[..|b| - 1];
      SentAppend(a, b[..|b| - 1]);
    }
  }

  lemma {:induction false} NothingSent(b: seq<Event>)
    requires forall i :: 0 <= i < |b| ==> !b[i].Value?
    ensures Sent(b) == []
    decreases |b|
  {
    if b != [] {
      NothingSent(b[..|b| - 1]);
    }
  }

  lemma {:induction false} ValuesSent(d: int, xs: seq<int>)
    ensures Sent(Values(d, xs)) == Zip(Copies(d, |xs|), xs)
    decreases |xs|
  {
    if xs != [] {
      var n := |xs| - 1;
      ValuesSent(d, xs[..n]);
      assert Values(d, xs)[..n] == Values(d, xs[..n]);
    }
  }

  lemma SentNothing(a: seq<Event>, b: seq<Event>)
    requires forall i :: 0 <= i < |b| ==> !b[i].Value?
    ensures Sent(a + b) == Sent(a)
  {
    SentAppend(a, b);
    NothingSent(b);
  }

  lemma FilledNothing(s: State, t: State)
    requires t.left == s.left && Sent(t.out) == Sent(s.out)
    ensures Filled([], s, t)
  {
    assert s.left[0..] == s.left && s.left[..0] == [];
    assert Sent(s.out) + Zip([], []) == Sent(s.out);
  }

  lemma ZipAppend(ds: seq<int>, es: seq<int>, xs: seq<int>, ys: seq<int>)
    requires |ds| == |xs| && |es| == |ys|
    ensures Zip(ds + es, xs + ys) == Zip(ds, xs) + Zip(es, ys)
  {
  }

  lemma PrefixSplit(xs: seq<int>, k: nat, m: nat)
    requires k + m <= |xs|
    ensures xs[..k + m] == xs[..k] + xs[k..][..m] && xs[k..][m..] == xs[k + m..]
  {
  }

  lemma SlotPrefix(xs: seq<int>, ys: seq<int>, k: nat, m: nat)
    requires k <= |xs| && m <= |ys| && (k == |xs| || m == 0)
    ensures (xs + ys)[..k + m] == xs[..k] + ys[..m]
  {
  }

  lemma Regroup<T>(a: seq<T>, b: seq<T>, c: seq<T>)
    ensures (a + b) + c == a + (b + c)
  {
  }

  lemma SentJoin(xs: seq<int>, ys: seq<int>, k: nat, m: nat, l: seq<int>, a: seq<(int, int)>, b: seq<(int, int)>,
                 c: seq<(int, int)>)
    requires k <= |xs| && m <= |ys| && (k == |xs| || m == 0) && k + m <= |l|
    requires b == a + Zip(xs[..k], l[..k]) && c == b + Zip(ys[..m], l[k..][..m])
    ensures c == a + Zip((xs + ys)[..k + m], l[..k + m])
  {
    PrefixSplit(l, k, m);
    SlotPrefix(xs, ys, k, m);
    var d, e, f, g := xs[..k], ys[..m], l[..k], l[k..][..m];
    ZipAppend(d, e, f, g);
    Regroup(a, Zip(d, f), Zip(e, g));
  }

  lemma FilledJoin(xs: seq<int>, ys: seq<int>, s: State, t: State, u: State)
    requires Filled(xs, s, t) && Filled(ys, t, u)
    ensures Filled(xs + ys, s, u)
  {
    var k, m := Min(|xs|, |s.left|), Min(|ys|, |t.left|);
    PrefixSplit(s.left, k, m);
    SentJoin(xs, ys, k, m, s.left, Sent(s.out), Sent(t.out), Sent(u.out));
  }

  /** Without values nothing more is sent. */
  lemma FilledExhausted(xs: seq<int>, ys: seq<int>, s: State, t: State)
    requires Filled(xs, s, t) && t.left == []
    ensures Filled(xs + ys, s, t)
  {
    var k := Min(|xs|, |s.left|);
    assert k == |s.left|;
    assert (xs + ys)[..k] == xs[..k];
  }

  lemma QFilled(t: Tree, s: State)
    ensures Filled([], s, QState(t, s))
  {
    if IsQ(t) && t.kind.SLASH? {
      SentNothing(s.out, Copies(NewLine, t.kind.rep));
      FilledNothing(s, QState(t, s));
    } else {
      FilledNothing(s, QState(t, s));
    }
  }

  lemma SendFilled(d: int, rep: nat, s: State)
    ensures Filled(Copies(d, rep), s, Send(d, rep, s))
  {
    var k := Min(rep, |s.left|);
    if s.left != [] {
      SentAppend(s.out, Values(d, s.left[..k]));
      ValuesSent(d, s.left[..k]);
      CopiesPrefix(d, rep, k);
    } else {
      assert s.left[..k] == [] && Copies(d, rep)[..k] == [];
    }
  }

  lemma CopiesPrefix(d: int, n: nat, k: nat)
    requires k <= n
    ensures Copies(d, n)[..k] == Copies(d, k)
  {
  }

  lemma {:induction false} OneFilled(t: Tree, s: State)
    requires t.Node?
    ensures Filled(Slots(t), s, One(t, s))
    decreases t, 1, 0
  {
    match t.kind
    case FORMAT(rep) => RepeatFilled(rep, t.down, s.(anchor := t));
    case DATA(d, rep) => SendFilled(d, rep, s);
    case TEXT(x) =>
      SentNothing(s.out, [Put(x)]);
      FilledNothing(s, One(t, s));
    case BLANKS(w) =>
      SentNothing(s.out, Copies(Space, w));
      FilledNothing(s, One(t, s));
    case _ => FilledNothing(s, One(t, s));
  }

  lemma {:induction false} ItemsFilled(t: Tree, s: State)
    ensures Filled(AllSlots(t), s, Items(t, s))
    decreases t, 2, 0
  {
    if t.Null? || IsQ(t) {
      FilledNothing(s, s);
    } else if !t.kind.TEXT? && s.left == [] && s.term {
      FilledNothing(s, s);
      FilledExhausted([], AllSlots(t), s, s);
      assert [] + AllSlots(t) == AllSlots(t);
    } else {
      NextFilled(t, s, One(t, s), QState(t.next, One(t, s)), After(t.next));
    }
  }

  lemma NextFilled(t: Tree, s: State, s1: State, s2: State, u: Tree)
    requires t.Node? && s1 == One(t, s) && s2 == QState(t.next, s1) && u == After(t.next)
    ensures Filled(Slots(t) + AllSlots(u), s, Items(u, s2))
    decreases t, 1, 1
  {
    OneFilled(t, s);
    QFilled(t.next, s1);
    ItemsFilled(u, s2);
    ThenFilled(Slots(t), AllSlots(u), s, s1, s2, Items(u, s2));
  }

  lemma ThenFilled(xs: seq<int>, ys: seq<int>, s: State, t: State, t': State, u: State)
    requires Filled(xs, s, t) && Filled([], t, t') && Filled(ys, t', u)
    ensures Filled(xs + ys, s, u)
  {
    FilledJoin(xs, [], s, t, t');
    assert xs + [] == xs;
    FilledJoin(xs, ys, s, t', u);
  }

  lemma {:induction false} RepeatFilled(r: nat, down: Tree, s: State)
    ensures Filled(Cycle(AllSlots(After(down)), r), s, Repeat(r, down, s))
    decreases down, 3, r
  {
    if r == 0 {
      FilledNothing(s, s);
    } else {
      var s1 := Items(After(down), QState(down, s));
      RepetitionFilled(down, s, s1);
      RepeatFilled(r - 1, down, s1);
      CycleFilled(AllSlots(After(down)), r, s, s1, Repeat(r - 1, down, s1), Repeat(r, down, s));
    }
  }

  lemma CycleFilled(xs: seq<int>, r: nat, s: State, s1: State, s2: State, t: State)
    requires r > 0 && Filled(xs, s, s1) && Filled(Cycle(xs, r - 1), s1, s2)
    requires t == if s1.left == [] && s1.term then s1 else s2
    ensures Filled(Cycle(xs, r), s, t)
  {
    var ys := Cycle(xs, r - 1);
    if t == s1 && s1.left == [] {
      FilledExhausted(xs, ys, s, s1);
    } else {
      FilledJoin(xs, ys, s, s1, s2);
    }
  }

  lemma RepetitionFilled(down: Tree, s: State, s1: State)
    requires s1 == Items(After(down), QState(down, s))
    ensures Filled(AllSlots(After(down)), s, s1)
    decreases down, 2, 1
  {
    var xs := AllSlots(After(down));
    QFilled(down, s);
    ItemsFilled(After(down), QState(down, s));
    FilledJoin([], xs, s, QState(down, s), s1);
    assert [] + xs == xs;
  }

  lemma {:induction false} TailFilled(t: Tree, s: State)
    ensures Filled(AllSlots(t), s, Tail(t, s))
    decreases t
  {
    if t.Null? || IsQ(t) {
      FilledNothing(s, s);
    } else {
      OneFilled(t, s);
      if One(t, s).left == [] {
        FilledExhausted(Slots(t), AllSlots(After(t.next)), s, One(t, s));
      } else {
        QFilled(t.next, One(t, s));
        TailFilled(After(t.next), QState(t.next, One(t, s)));
        ThenFilled(Slots(t), AllSlots(After(t.next)), s, One(t, s), QState(t.next, One(t, s)), Tail(t, s));
      }
    }
  }

  /** The slots of one pass that starts at group g. */
  function PassSlots(g: Tree): (r: seq<int>) {
    if g.Null? then [] else Slots(g) + AllSlots(After(g.next))
  }

  lemma PassFilled(g: Tree, s: State, s1: State, s2: State, u: Tree)
    requires g.Node? && s1 == One(g, s) && s2 == QState(g.next, s1) && u == After(g.next)
    ensures Filled(Slots(g) + AllSlots(u), s, Tail(u, s2))
  {
    OneFilled(g, s);
    QFilled(g.next, s1);
    TailFilled(u, s2);
    ThenFilled(Slots(g), AllSlots(u), s, s1, s2, Tail(u, s2));
  }

  lemma {:induction false} ReversionFilled(g: Tree, s: State)
    requires g.Node?
    ensures Filled(PassSlots(g), s, Reversion(g, s))
  {
    var s1 := One(g, s);
    PassFilled(g, s, s1, QState(g.next, s1), After(g.next));
  }

  // ----- the group to revert to -----

  /** The last group entered by a pass over node t that the values outlast; g if there is none. */
  function LastOf(t: Tree, g: Tree): (r: Tree)
    decreases t, 1
  {
    if t.Null? || !t.kind.FORMAT? then g
    else if t.kind.rep == 0 then t
    else LastIn(After(t.down), t)
  }

  function LastIn(t: Tree, g: Tree): (r: Tree)
    decreases t, 2
  {
    if t.Null? || IsQ(t) then g else LastIn(After(t.next), LastOf(t, g))
  }

  lemma {:induction false} OneAnchor(t: Tree, s: State)
    requires t.Node? && One(t, s).left != []
    ensures One(t, s).anchor == LastOf(t, s.anchor) && s.left != []
    decreases t, 1, 0
  {
    OneFilled(t, s);
    if t.kind.FORMAT? {
      RepeatAnchor(t.kind.rep, t.down, s.(anchor := t));
    }
  }

  lemma {:induction false} ItemsAnchor(t: Tree, s: State)
    requires Items(t, s).left != []
    ensures Items(t, s).anchor == LastIn(t, s.anchor) && s.left != []
    decreases t, 2, 0
  {
    if !(t.Null? || IsQ(t)) {
      ItemsFilled(t, s);
      ItemsAnchor(After(t.next), QState(t.next, One(t, s)));
      OneAnchor(t, s);
    }
  }

  lemma {:induction false} RepeatAnchor(r: nat, down: Tree, s: State)
    requires Repeat(r, down, s).left != []
    ensures Repeat(r, down, s).anchor == (if r == 0 then s.anchor else LastIn(After(down), s.anchor)) && s.left != []
    decreases down, 3, r
  {
    if r > 0 {
      var s1 := Items(After(down), QState(down, s));
      if s1.left == [] {
        RepeatFilled(r - 1, down, s1);
      }
      ItemsAnchor(After(down), QState(down, s));
      RepeatAnchor(r - 1, down, s1);
      LastTwice(After(down), s.anchor, s1.anchor);
    }
  }

  /** A second walk ends at the same group as the first. */
  lemma {:induction false} LastTwice(t: Tree, g: Tree, g': Tree)
    requires g' == LastIn(t, g)
    ensures LastIn(t, g') == g'
    decreases t
  {
    LastEither(t, g, g');
  }

  /** Either a walk enters a group, and then where it started does not matter, or it enters none. */
  lemma {:induction false} LastEither(t: Tree, g: Tree, g': Tree)
    ensures LastIn(t, g) == LastIn(t, g') || (LastIn(t, g) == g && LastIn(t, g') == g')
    decreases t
  {
    if !(t.Null? || IsQ(t)) {
      LastEither(After(t.next), LastOf(t, g), LastOf(t, g'));
    }
  }

  /** Entering g, and going on behind it, leads to no other group. */
  ghost predicate Innermost(g: Tree) {
    g.Node? && LastOf(g, g) == g && forall x :: LastIn(After(g.next), x) == x
  }

  lemma {:induction false} LastInnermost(t: Tree, g: Tree)
    ensures (forall x :: LastIn(t, x) == x) || Innermost(LastIn(t, g))
    decreases t
  {
    if !(t.Null? || IsQ(t)) {
      var u := After(t.next);
      LastInnermost(u, LastOf(t, g));
      if forall x :: LastIn(u, x) == x {
        if t.kind.FORMAT? {
          GroupInnermost(t);
        }
      } else {
        var y :| LastIn(u, y) != y;
        LastEither(u, y, LastOf(t, g));
      }
    }
  }

  /** The last group of a group nothing is entered behind. */
  lemma {:induction false} GroupInnermost(t: Tree)
    requires t.Node? && t.kind.FORMAT? && forall x :: LastIn(After(t.next), x) == x
    ensures forall g :: Innermost(LastOf(t, g))
    decreases t, 0
  {
    if t.kind.rep != 0 {
      LastInnermost(After(t.down), t);
    }
    forall g ensures Innermost(LastOf(t, g)) {
    }
  }

  /** The group every further pass starts at. */
  function RevertTo(fmt: Tree): (r: Tree) { LastOf(fmt, fmt) }

  // ----- the group section 13.4 of ISO/IEC 1539-1:2018 reverts to -----

  /** Of the items from t on, the last that is a group; g if none is. */
  function LastGroup(t: Tree, g: Tree): (r: Tree)
    decreases t
  {
    if t.Null? || IsQ(t) then g else LastGroup(After(t.next), if t.kind.FORMAT? then t else g)
  }

  /** Fortran goes back to the group whose right parenthesis is the last but one, the last group directly inside the
      format, or to the whole format if there is none. */
  function FortranRevertTo(fmt: Tree): (r: Tree)
    requires fmt.Node?
  {
    LastGroup(After(fmt.down), fmt)
  }

  predicate AnyGroup(t: Tree)
    decreases t
  {
    !(t.Null? || IsQ(t)) && (t.kind.FORMAT? || AnyGroup(After(t.next)))
  }

  /** The group g has no group directly inside that a pass enters. */
  predicate Plain(g: Tree)
    requires g.Node? && g.kind.FORMAT?
  {
    g.kind.rep == 0 || !AnyGroup(After(g.down))
  }

  function Size(t: Tree): (r: nat) { if t.Null? then 0 else 1 + Size(t.down) + Size(t.next) }

  /** The last group entered is inside the last group of the list. */
  lemma {:induction false} LastInLast(t: Tree, g: Tree)
    requires g.Node? && g.kind.FORMAT?
    ensures var u := LastGroup(t, g);
            && u.Node? && u.kind.FORMAT?
            && (AnyGroup(t) ==> LastIn(t, g) == LastOf(u, u) && Size(u) <= Size(t))
            && (!AnyGroup(t) ==> LastIn(t, g) == g == u)
    decreases t
  {
    if !(t.Null? || IsQ(t)) {
      var v := After(t.next);
      if t.kind.FORMAT? {
        LastInLast(v, t);
        LastAny(t, g, t);
        LastGroupOnly(v, t, LastOf(t, g));
      } else {
        LastInLast(v, g);
      }
    }
  }

  /** Where a list has a group, what was entered before makes no difference. */
  lemma {:induction false} LastGroupOnly(t: Tree, g: Tree, g': Tree)
    ensures AnyGroup(t) ==> LastIn(t, g) == LastIn(t, g')
    ensures !AnyGroup(t) ==> LastIn(t, g) == g && LastIn(t, g') == g'
    decreases t
  {
    if !(t.Null? || IsQ(t)) {
      if t.kind.FORMAT? {
        LastAny(t, g, g');
      } else {
        LastGroupOnly(After(t.next), g, g');
      }
    }
  }

  lemma {:induction false} EnteredSmaller(g: Tree)
    requires g.Node? && g.kind.FORMAT?
    ensures Size(LastOf(g, g)) <= Size(g)
    ensures LastOf(g, g) == g <==> Plain(g)
    decreases Size(g)
  {
    var t := After(g.down);
    LastInLast(t, g);
    if g.kind.rep != 0 && AnyGroup(t) {
      assert Size(t) <= Size(g.down) < Size(g);
      EnteredSmaller(LastGroup(t, g));
    }
  }

  /** The program reverts to Fortran's group exactly when a pass enters no group inside that one. */
  lemma FortranExact(fmt: Tree)
    requires fmt.Node? && fmt.kind.FORMAT? && fmt.kind.rep != 0
    ensures var g := FortranRevertTo(fmt);
            && g.Node? && g.kind.FORMAT?
            && (RevertTo(fmt) == g <==> Plain(g))
  {
    var g := FortranRevertTo(fmt);
    LastInLast(After(fmt.down), fmt);
    EnteredSmaller(g);
  }

  /** The innermost group of (a, (b, (c))) where Fortran takes the one in the middle. */
  lemma FortranDiffers()
    ensures var c := Node(FORMAT(1), Node(DATA(3, 1), Null, Null), Null);
            var b := Node(FORMAT(1), Node(DATA(2, 1), Null, c), Null);
            var fmt := Node(FORMAT(1), Node(DATA(1, 1), Null, b), Null);
            RevertTo(fmt) == c && FortranRevertTo(fmt) == b && c != b
  {
    var c := Node(FORMAT(1), Node(DATA(3, 1), Null, Null), Null);
    var b := Node(FORMAT(1), Node(DATA(2, 1), Null, c), Null);
    var fmt := Node(FORMAT(1), Node(DATA(1, 1), Null, b), Null);
    assert LastIn(After(c.down), c) == c;
    assert LastIn(After(b.down), b) == LastIn(c, b) == c;
    assert LastIn(After(fmt.down), fmt) == LastIn(b, fmt) == LastOf(b, fmt);
    assert LastGroup(After(fmt.down), fmt) == LastGroup(b, fmt) == b;
  }

  // ----- all passes -----

  /** Pass after pass from group g, each on a new line, until the values are used up. */
  function Rerun(g: Tree, s: State): (r: State)
    requires PassSlots(g) != []
    decreases |s.left|
  {
    if s.left == [] then s
    else
      var s1 := s.(out := s.out + [NewLine]);
      ReversionFilled(g, s1);
      Rerun(g, Reversion(g, s1))
  }

  datatype Outcome = Printed(s: State) | Failed

  /** The format on all values: it fails when values are left and the reversion group takes none. */
  function Whole(fmt: Tree, s: State): (r: Outcome)
    requires fmt.Node?
  {
    var s1 := One(fmt, s);
    if s1.left == [] then Printed(s1)
    else if PassSlots(s1.anchor) == [] then Failed
    else Printed(Rerun(s1.anchor, s1))
  }

  /** Element i of endless copies of xs. */
  function Endless(xs: seq<int>, i: nat): (r: int)
    requires xs != []
    decreases i
  {
    if i < |xs| then xs[i] else Endless(xs, i - |xs|)
  }

  /** Slot number k of the format followed by endless copies of the reversion's slots. */
  function SlotAt(first: seq<int>, again: seq<int>, k: nat): (r: int)
    requires k < |first| || again != []
  {
    if k < |first| then first[k] else Endless(again, k - |first|)
  }

  ghost predicate Cycled(again: seq<int>, xs: seq<int>, r: seq<(int, int)>)
    requires again != []
  {
    |r| == |xs| && forall i :: 0 <= i < |xs| ==> r[i] == (Endless(again, i), xs[i])
  }

  lemma CycledMore(again: seq<int>, xs: seq<int>, k: nat, r1: seq<(int, int)>, r2: seq<(int, int)>)
    requires again != [] && k == Min(|again|, |xs|) && r1 == Zip(again[..k], xs[..k])
    requires Cycled(again, xs[k..], r2)
    ensures Cycled(again, xs, r1 + r2)
  {
    forall i | 0 <= i < |xs| ensures (r1 + r2)[i] == (Endless(again, i), xs[i]) {
      if k <= i {
        assert r2[i - k] == (Endless(again, i - k), xs[k..][i - k]);
      }
    }
  }

  /** One more pass. */
  lemma PassThenRest(g: Tree, s: State, s1: State, s2: State, r2: seq<(int, int)>, out: seq<(int, int)>)
    returns (r: seq<(int, int)>)
    requires PassSlots(g) != [] && s1.left == s.left && Sent(s1.out) == Sent(s.out) && Filled(PassSlots(g), s1, s2)
    requires Cycled(PassSlots(g), s2.left, r2) && out == Sent(s2.out) + r2
    ensures out == Sent(s.out) + r && Cycled(PassSlots(g), s.left, r)
  {
    var again := PassSlots(g);
    var k := Min(|again|, |s.left|);
    var r1 := Zip(again[..k], s.left[..k]);
    CycledMore(again, s.left, k, r1, r2);
    Regroup(Sent(s.out), r1, r2);
    r := r1 + r2;
  }

  /** The passes after the first send every value left once, in order, to the reversion's slots over and over. */
  lemma {:induction false} RerunStream(g: Tree, s: State) returns (r: seq<(int, int)>)
    requires PassSlots(g) != []
    ensures Rerun(g, s).left == []
    ensures Sent(Rerun(g, s).out) == Sent(s.out) + r && Cycled(PassSlots(g), s.left, r)
    decreases |s.left|
  {
    if s.left == [] {
      r := [];
    } else {
      var s1 := s.(out := s.out + [NewLine]);
      SentAppend(s.out, [NewLine]);
      NothingSent([NewLine]);
      ReversionFilled(g, s1);
      var r2 := RerunStream(g, Reversion(g, s1));
      r := PassThenRest(g, s, s1, Reversion(g, s1), r2, Sent(Rerun(g, s).out));
    }
  }

  /** Reversion always goes back to the same group. */
  lemma AnchorIsRevertTo(fmt: Tree, s: State)
    requires fmt.Node? && fmt.kind.FORMAT? && One(fmt, s).left != []
    ensures One(fmt, s).anchor == RevertTo(fmt) && RevertTo(fmt).Node?
  {
    OneAnchor(fmt, s);
    LastAny(fmt, s.anchor, fmt);
    LastNode(fmt, fmt);
  }

  lemma LastAny(t: Tree, g: Tree, g': Tree)
    requires t.Node? && t.kind.FORMAT?
    ensures LastOf(t, g) == LastOf(t, g')
  {
  }

  lemma {:induction false} LastNode(t: Tree, g: Tree)
    requires g.Node?
    ensures LastOf(t, g).Node?
    decreases t, 0
  {
    if t.Node? && t.kind.FORMAT? && t.kind.rep != 0 {
      LastInNode(After(t.down), t);
    }
  }

  lemma {:induction false} LastInNode(t: Tree, g: Tree)
    requires g.Node?
    ensures LastIn(t, g).Node?
    decreases t, 1
  {
    if !(t.Null? || IsQ(t)) {
      LastNode(t, g);
      LastInNode(After(t.next), LastOf(t, g));
    }
  }

  lemma {:induction false} RevertInnermost(fmt: Tree)
    requires fmt.Node? && fmt.kind.FORMAT? && fmt.next.Null?
    ensures Innermost(RevertTo(fmt))
  {
    assert After(fmt.next) == Null;
    GroupInnermost(fmt);
    assert Innermost(LastOf(fmt, fmt));
  }

  /** A pass that the values outlast ends with the group it started at to revert to. */
  lemma StableAnchor(g: Tree, s: State)
    requires Innermost(g) && g.kind.FORMAT? && Reversion(g, s).left != []
    ensures Reversion(g, s).anchor == g
  {
    var s1 := One(g, s);
    TailAnchor(After(g.next), QState(g.next, s1));
    OneAnchor(g, s);
    LastAny(g, s.anchor, g);
  }

  lemma {:induction false} TailAnchor(t: Tree, s: State)
    requires Tail(t, s).left != []
    ensures Tail(t, s).anchor == LastIn(t, s.anchor) && s.left != []
    decreases t
  {
    TailFilled(t, s);
    if !(t.Null? || IsQ(t)) {
      var s1 := One(t, s);
      TailAnchor(After(t.next), QState(t.next, s1));
      OneAnchor(t, s);
    }
  }

  /** Value number k went to slot number k. */
  ghost predicate Streamed(first: seq<int>, again: seq<int>, xs: seq<int>, r: seq<(int, int)>)
    requires again != [] || |xs| <= |first|
  {
    |r| == |xs| && forall i :: 0 <= i < |xs| ==> r[i] == (SlotAt(first, again, i), xs[i])
  }

  lemma StreamedThen(first: seq<int>, again: seq<int>, xs: seq<int>, r1: seq<(int, int)>, r: seq<(int, int)>)
    requires again != [] && |first| <= |xs| && r1 == Zip(first, xs[..|first|]) && Cycled(again, xs[|first|..], r)
    ensures Streamed(first, again, xs, r1 + r)
  {
    var n := |first|;
    forall i | 0 <= i < |xs| ensures (r1 + r)[i] == (SlotAt(first, again, i), xs[i]) {
      if n <= i {
        assert r[i - n] == (Endless(again, i - n), xs[n..][i - n]);
      }
    }
  }

  lemma StreamedFirst(first: seq<int>, again: seq<int>, xs: seq<int>)
    requires |xs| <= |first|
    ensures Streamed(first, again, xs, Zip(first[..|xs|], xs))
  {
  }

  /** The first pass takes all values. */
  lemma OnePassStream(fmt: Tree, s: State, again: seq<int>)
    requires fmt.Node? && One(fmt, s).left == [] && Sent(s.out) == []
    ensures |s.left| <= |Slots(fmt)| && Streamed(Slots(fmt), again, s.left, Sent(One(fmt, s).out))
  {
    OneFilled(fmt, s);
    StreamedFirst(Slots(fmt), again, s.left);
    assert s.left[..|s.left|] == s.left;
  }

  /** The first pass leaves values, and the reversion takes some. */
  lemma MorePassesStream(fmt: Tree, s: State, g: Tree, again: seq<int>)
    requires fmt.Node? && One(fmt, s).left != [] && Sent(s.out) == [] && again == PassSlots(g) && again != []
    ensures Rerun(g, One(fmt, s)).left == [] && Streamed(Slots(fmt), again, s.left, Sent(Rerun(g, One(fmt, s)).out))
  {
    var first := Slots(fmt);
    OneFilled(fmt, s);
    var r := RerunStream(g, One(fmt, s));
    var r1 := Zip(first, s.left[..|first|]);
    assert first[..|first|] == first && [] + r1 == r1;
    StreamedThen(first, again, s.left, r1, r);
  }

  /** The whole run: it fails exactly when values are left after the first pass and the
      reversion takes none; else value number k is formatted by slot number k of the format
      followed by endless copies of the reversion's slots, every value once and in order. */
  lemma StreamOrFailure(fmt: Tree, s: State)
    requires fmt.Node? && fmt.kind.FORMAT? && Sent(s.out) == []
    ensures Whole(fmt, s).Failed? <==> |Slots(fmt)| < |s.left| && PassSlots(RevertTo(fmt)) == []
    ensures Whole(fmt, s).Printed? ==>
              Whole(fmt, s).s.left == []
              && Streamed(Slots(fmt), PassSlots(RevertTo(fmt)), s.left, Sent(Whole(fmt, s).s.out))
  {
    var again := PassSlots(RevertTo(fmt));
    if One(fmt, s).left == [] {
      OnePassStream(fmt, s, again);
    } else {
      OneFilled(fmt, s);
      AnchorIsRevertTo(fmt, s);
      if again != [] {
        MorePassesStream(fmt, s, RevertTo(fmt), again);
      }
    }
  }
}
