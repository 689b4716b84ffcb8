/** A pass that the values outlast prints the format with all its groups written out. */
module FormatScripts {
  import opened Formats

  /** A piece of the written-out format: something to print, room for a value, or a dollar sign. */
  datatype Piece = Fixed(e: Event) | Slot(d: int) | Dollar

  function QScript(t: Tree): (r: seq<Piece>) {
    if !IsQ(t) then [] else if t.kind.SLASH? then Copies(Fixed(NewLine), t.kind.rep) else [Dollar]
  }

  function Script(t: Tree): (r: seq<Piece>)
    decreases t, 1
  {
    if t.Null? then []
    else match t.kind
      case FORMAT(rep) => Cycle(QScript(t.down) + AllScript(After(t.down)), rep)
      case DATA(d, rep) => Copies(Slot(d), rep)
      case TEXT(x) => [Fixed(Put(x))]
      case BLANKS(w) => Copies(Fixed(Space), w)
      case _ => []
  }

  function AllScript(t: Tree): (r: seq<Piece>)
    decreases t, 2
  {
    if t.Null? || IsQ(t) then [] else Script(t) + (QScript(t.next) + AllScript(After(t.next)))
  }

  function Room(p: seq<Piece>): (r: nat) {
    if p == [] then 0 else (if p[0].Slot? then 1 else 0) + Room(p[1..])
  }

  /** The script with the first values of xs in its slots. */
  function Fill(p: seq<Piece>, xs: seq<int>): (r: seq<Event>)
    requires Room(p) <= |xs|
    decreases |p|
  {
    if p == [] then []
    else match p[0]
      case Slot(d) => [Value(d, xs[0])] + Fill(p[1..], xs[1..])
      case Fixed(e) => [e] + Fill(p[1..], xs)
      case Dollar => Fill(p[1..], xs)
  }

  /** Printing a piece: a slot takes the next value, a dollar sign leaves out the last newline. */
  function PrintOne(x: Piece, s: State): (r: State) {
    match x
    case Fixed(e) => s.(out := s.out + [e])
    case Slot(d) => if s.left == [] then s else s.(left := s.left[1..], out := s.out + [Value(d, s.left[0])])
    case Dollar => s.(nonl := true)
  }

  function Print(p: seq<Piece>, s: State): (r: State)
    decreases |p|
  {
    if p == [] then s else Print(p[1..], PrintOne(p[0], s))
  }

  /** From s to t the script was printed, with values in all its slots. */
  ghost predicate Written(p: seq<Piece>, s: State, t: State) {
    Room(p) <= |s.left| && t == Print(p, s).(term := t.term, anchor := t.anchor)
  }

  lemma {:induction false} PrintAppend(p: seq<Piece>, q: seq<Piece>, s: State)
    ensures Print(p + q, s) == Print(q, Print(p, s))
    decreases |p|
  {
    if p == [] {
      assert p + q == q;
    } else {
      assert (p + q)[1..] == p[1..] + q;
      PrintAppend(p[1..], q, PrintOne(p[0], s));
    }
  }

  /** Printing does not look at the flag or the group to revert to. */
  lemma {:induction false} PrintBlind(p: seq<Piece>, s: State, term: bool, anchor: Tree)
    ensures Print(p, s.(term := term, anchor := anchor)) == Print(p, s).(term := term, anchor := anchor)
    decreases |p|
  {
    if p != [] {
      PrintBlind(p[1..], PrintOne(p[0], s), term, anchor);
    }
  }

  /** What a script prints: its pieces with the first values in its slots. */
  lemma {:induction false} PrintFill(p: seq<Piece>, s: State)
    requires Room(p) <= |s.left|
    ensures Print(p, s).left == s.left[Room(p)..] && Print(p, s).out == s.out + Fill(p, s.left)
    ensures Print(p, s).nonl <==> s.nonl || Dollar in p
    decreases |p|
  {
    if p != [] {
      var s1 := PrintOne(p[0], s);
      PrintFill(p[1..], s1);
      assert p == [p[0]] + p[1..];
      if p[0].Slot? {
        assert s1.left[Room(p[1..])..] == s.left[Room(p)..];
        Regroup(s.out, [Value(p[0].d, s.left[0])], Fill(p[1..], s1.left));
      } else if p[0].Fixed? {
        Regroup(s.out, [p[0].e], Fill(p[1..], s1.left));
      }
    }
  }

  lemma {:induction false} RoomAppend(p: seq<Piece>, q: seq<Piece>)
    ensures Room(p + q) == Room(p) + Room(q)
    decreases |p|
  {
    if p == [] {
      assert p + q == q;
    } else {
      assert (p + q)[1..] == p[1..] + q;
      RoomAppend(p[1..], q);
    }
  }

  lemma WrittenJoin(p: seq<Piece>, q: seq<Piece>, s: State, t: State, u: State)
    requires Written(p, s, t) && Written(q, t, u)
    ensures Written(p + q, s, u)
  {
    RoomAppend(p, q);
    PrintFill(p, s);
    PrintAppend(p, q, s);
    PrintBlind(q, Print(p, s), t.term, t.anchor);
  }

  lemma NothingWritten(s: State, t: State)
    requires t == s.(term := t.term, anchor := t.anchor)
    ensures Written([], s, t)
  {
  }

  lemma WrittenFrom(p: seq<Piece>, s: State, anchor: Tree, t: State)
    requires Written(p, s.(anchor := anchor), t)
    ensures Written(p, s, t)
  {
    PrintBlind(p, s, s.term, anchor);
  }

  lemma {:induction false} FixedWritten(e: Event, n: nat, s: State, t: State)
    requires t == s.(out := s.out + Copies(e, n), term := t.term, anchor := t.anchor)
    ensures Written(Copies(Fixed(e), n), s, t)
    decreases n
  {
    if n > 0 {
      var s1 := s.(out := s.out + Copies(e, n - 1));
      FixedWritten(e, n - 1, s, s1);
      OneFixed(e, s1, t);
      WrittenJoin(Copies(Fixed(e), n - 1), [Fixed(e)], s, s1, t);
    }
  }

  lemma OneFixed(e: Event, s: State, t: State)
    requires t == s.(out := s.out + [e], term := t.term, anchor := t.anchor)
    ensures Written([Fixed(e)], s, t)
  {
    assert [Fixed(e)][1..] == [];
  }

  lemma {:induction false} SlotsWritten(d: int, n: nat, s: State, t: State)
    requires n <= |s.left|
    requires t == s.(left := s.left[n..], out := s.out + Values(d, s.left[..n]), term := t.term, anchor := t.anchor)
    ensures Written(Copies(Slot(d), n), s, t)
    decreases n
  {
    if n > 0 {
      var s1 := s.(left := s.left[n - 1..], out := s.out + Values(d, s.left[..n - 1]));
      SlotsWritten(d, n - 1, s, s1);
      assert s.left[..n][..n - 1] == s.left[..n - 1];
      OneSlot(d, s1, t);
      WrittenJoin(Copies(Slot(d), n - 1), [Slot(d)], s, s1, t);
    }
  }

  lemma OneSlot(d: int, s: State, t: State)
    requires s.left != []
    requires t == s.(left := s.left[1..], out := s.out + [Value(d, s.left[0])], term := t.term, anchor := t.anchor)
    ensures Written([Slot(d)], s, t)
  {
    assert [Slot(d)][1..] == [];
  }

  lemma QWritten(t: Tree, s: State)
    ensures Written(QScript(t), s, QState(t, s))
  {
    if IsQ(t) && t.kind.SLASH? {
      FixedWritten(NewLine, t.kind.rep, s, QState(t, s));
    } else if IsQ(t) {
      assert [Dollar][1..] == [];
    } else {
      NothingWritten(s, QState(t, s));
    }
  }

  lemma {:induction false} OneWritten(t: Tree, s: State)
    requires t.Node? && One(t, s).left != []
    ensures Written(Script(t), s, One(t, s))
    decreases t, 1, 0
  {
    match t.kind
    case FORMAT(rep) =>
      RepeatWritten(rep, t.down, s.(anchor := t));
      WrittenFrom(Script(t), s, t, One(t, s));
    case DATA(d, rep) =>
      OneFilled(t, s);
      SlotsWritten(d, rep, s, One(t, s));
    case TEXT(x) => OneFixed(Put(x), s, One(t, s));
    case BLANKS(w) => FixedWritten(Space, w, s, One(t, s));
    case _ => NothingWritten(s, One(t, s));
  }

  lemma {:induction false} ItemsWritten(t: Tree, s: State)
    requires Items(t, s).left != []
    ensures Written(AllScript(t), s, Items(t, s))
    decreases t, 2, 0
  {
    if t.Null? || IsQ(t) {
      NothingWritten(s, s);
    } else {
      ItemsAnchor(t, s);
      ThenWritten(t, s, Items(After(t.next), QState(t.next, One(t, s))));
    }
  }

  lemma {:induction false} ThenWritten(t: Tree, s: State, u: State)
    requires t.Node? && u == Items(After(t.next), QState(t.next, One(t, s))) && u.left != []
    ensures Written(Script(t) + (QScript(t.next) + AllScript(After(t.next))), s, u)
    decreases t, 1, 1
  {
    var s1 := One(t, s);
    var s2 := QState(t.next, s1);
    ItemsAnchor(After(t.next), s2);
    OneWritten(t, s);
    QWritten(t.next, s1);
    ItemsWritten(After(t.next), s2);
    WrittenJoin(QScript(t.next), AllScript(After(t.next)), s1, s2, u);
    WrittenJoin(Script(t), QScript(t.next) + AllScript(After(t.next)), s, s1, u);
  }

  lemma {:induction false} RepeatWritten(r: nat, down: Tree, s: State)
    requires Repeat(r, down, s).left != []
    ensures Written(Cycle(QScript(down) + AllScript(After(down)), r), s, Repeat(r, down, s))
    decreases down, 3, r
  {
    if r == 0 {
      NothingWritten(s, s);
    } else {
      var s1 := Items(After(down), QState(down, s));
      if s1.left == [] {
        RepeatFilled(r - 1, down, s1);
      }
      RepetitionWritten(down, s, s1);
      RepeatWritten(r - 1, down, s1);
      var p := QScript(down) + AllScript(After(down));
      WrittenJoin(p, Cycle(p, r - 1), s, s1, Repeat(r - 1, down, s1));
    }
  }

  lemma RepetitionWritten(down: Tree, s: State, s1: State)
    requires s1 == Items(After(down), QState(down, s)) && s1.left != []
    ensures Written(QScript(down) + AllScript(After(down)), s, s1)
    decreases down, 2, 1
  {
    QWritten(down, s);
    ItemsWritten(After(down), QState(down, s));
    WrittenJoin(QScript(down), AllScript(After(down)), s, QState(down, s), s1);
  }

  lemma {:induction false} TailWritten(t: Tree, s: State)
    requires Tail(t, s).left != []
    ensures Written(AllScript(t), s, Tail(t, s))
    decreases t, 2, 0
  {
    if t.Null? || IsQ(t) {
      NothingWritten(s, s);
    } else {
      TailAnchor(t, s);
      TailThenWritten(t, s, Tail(After(t.next), QState(t.next, One(t, s))));
    }
  }

  lemma {:induction false} TailThenWritten(t: Tree, s: State, u: State)
    requires t.Node? && u == Tail(After(t.next), QState(t.next, One(t, s))) && u.left != []
    ensures Written(Script(t) + (QScript(t.next) + AllScript(After(t.next))), s, u)
    decreases t, 1, 1
  {
    var s1 := One(t, s);
    var s2 := QState(t.next, s1);
    TailAnchor(After(t.next), s2);
    OneWritten(t, s);
    QWritten(t.next, s1);
    TailWritten(After(t.next), s2);
    WrittenJoin(QScript(t.next), AllScript(After(t.next)), s1, s2, u);
    WrittenJoin(Script(t), QScript(t.next) + AllScript(After(t.next)), s, s1, u);
  }

  /** A further pass that the values outlast prints the reversion group and what follows it. */
  lemma ReversionWritten(g: Tree, s: State)
    requires g.Node? && Reversion(g, s).left != []
    ensures Written(Script(g) + (QScript(g.next) + AllScript(After(g.next))), s, Reversion(g, s))
  {
    TailThenWritten(g, s, Reversion(g, s));
  }
}
