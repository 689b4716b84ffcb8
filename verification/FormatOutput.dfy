/** The walker over formats: it moves along a tree, takes values from the arguments
one transfer at a time, and goes back to the last group it entered until the
arguments are used up. */
module FormatOutput {
  import opened Formats
  import opened FormatScripts
  import opened FormatEndings

  /** The values of the arguments from number par on, skipping the first val of that one. */
  function Rest(args: seq<seq<int>>, par: nat, val: nat): (r: seq<int>)
    requires par < |args| ==> val <= |args[par]|
    decreases |args| - par
  {
    if par >= |args| then [] else args[par][val..] + Rest(args, par + 1, 0)
  }

  /** Every argument has values. */
  ghost predicate Usable(args: seq<seq<int>>) { forall i :: 0 <= i < |args| ==> 0 < |args[i]| }

  ghost predicate Position(args: seq<seq<int>>, par: nat, val: nat) {
    if par < |args| then val < |args[par]| else par == |args| && val == 0
  }

  /** Fewer values left means further on. */
  lemma {:induction false} RestShrinks(args: seq<seq<int>>, par: nat, val: nat, par': nat, val': nat)
    requires Usable(args)
    requires Position(args, par, val) && Position(args, par', val')
    requires par < par' || (par == par' && val < val')
    ensures |Rest(args, par', val')| < |Rest(args, par, val)|
    decreases par' - par
  {
    if par < par' {
      if par + 1 < par' {
        RestShrinks(args, par + 1, 0, par', val');
      } else if par' < |args| {
        assert |args[par'][val'..]| <= |args[par'][0..]|;
      }
    }
  }

  /** A position is known by the number of values left. */
  lemma RestOnce(args: seq<seq<int>>, par: nat, val: nat, par': nat, val': nat)
    requires Usable(args)
    requires Position(args, par, val) && Position(args, par', val')
    requires |Rest(args, par, val)| == |Rest(args, par', val')|
    ensures par == par' && val == val'
  {
    if par < par' || (par == par' && val < val') {
      RestShrinks(args, par, val, par', val');
    } else if par' < par || val' < val {
      RestShrinks(args, par', val', par, val);
    }
  }

  /** One transfer of k values, and then the rest. */
  lemma SendSplit(d: int, rep: nat, s: State, k: nat, s1: State)
    requires s.left != [] && k <= rep && k <= |s.left|
    requires s1 == s.(left := s.left[k..], out := s.out + Values(d, s.left[..k]), term := s.term || k == |s.left|)
    ensures Send(d, rep, s) == Send(d, rep - k, s1)
  {
    if k == |s.left| {
      assert s1.left == [] && Min(rep, |s.left|) == k;
    } else {
      var m := Min(rep - k, |s1.left|);
      assert Min(rep, |s.left|) == k + m;
      SendMore(d, s, k, s1, m);
    }
  }

  lemma SendMore(d: int, s: State, k: nat, s1: State, m: nat)
    requires k < |s.left| && k + m <= |s.left|
    requires s1 == s.(left := s.left[k..], out := s.out + Values(d, s.left[..k]))
    ensures s1.left[m..] == s.left[k + m..]
    ensures s1.out + Values(d, s1.left[..m]) == s.out + Values(d, s.left[..k + m])
  {
    PrefixSplit(s.left, k, m);
    ValuesJoin(d, s.left[..k], s1.left[..m]);
    Regroup(s.out, Values(d, s.left[..k]), Values(d, s1.left[..m]));
  }

  lemma ValuesJoin(d: int, xs: seq<int>, ys: seq<int>)
    ensures Values(d, xs + ys) == Values(d, xs) + Values(d, ys)
  {
  }

  /** out is the format and its reversions with the values xs in the slots, up to the last value and the texts behind
      it,
      and a newline unless a dollar sign was passed. */
  ghost predicate PrintsAll(fmt: Tree, xs: seq<int>, nonl: bool, out: seq<Event>) {
    && RevertTo(fmt).Node? && Room(Output(fmt, |xs|)) <= |xs|
    && out == Fill(Output(fmt, |xs|), xs) + if nonl || Dollar in Output(fmt, |xs|) then [] else [NewLine]
  }

  /** The last newline. */
  ghost predicate Closed(u: State, out: seq<Event>) { out == u.out + if u.nonl then [] else [NewLine] }

  lemma AllSent(u: State, out: seq<Event>)
    requires Closed(u, out)
    ensures Sent(out) == Sent(u.out)
  {
    SentAppend(u.out, if u.nonl then [] else [NewLine]);
    NothingSent(if u.nonl then [] else [NewLine]);
  }

  lemma AllPrinted(fmt: Tree, s: State, u: State, out: seq<Event>)
    requires fmt.Node? && fmt.kind.FORMAT? && !s.term && s.out == [] && Whole(fmt, s) == Printed(u) && Closed(u, out)
    ensures PrintsAll(fmt, s.left, s.nonl, out)
  {
    WholePrinted(fmt, s);
    assert [] + Fill(Output(fmt, |s.left|), s.left) == Fill(Output(fmt, |s.left|), s.left);
  }

  class FMTOut {
    const args: seq<seq<int>>
    var os: seq<Event>
    var nextParIx: nat
    var valIx: nat
    var hasPar: bool
    var actPar: seq<int>
    var nElements: nat
    var termFlag: bool
    var nonlFlag: bool
    var reversionAnker: Tree

    ghost predicate Valid()
      reads this
    {
      && Usable(args) && 1 <= nextParIx && Position(args, nextParIx - 1, valIx)
      && hasPar == (nextParIx - 1 < |args|) && (hasPar ==> actPar == args[nextParIx - 1])
         && nElements == if hasPar then |actPar| else 0
    }

    ghost function Left(): (r: seq<int>)
      requires Valid()
      reads this
    {
      Rest(args, nextParIx - 1, valIx)
    }

    ghost function Now(): (r: State)
      requires Valid()
      reads this
    {
      State(Left(), termFlag, nonlFlag, reversionAnker, os)
    }

    constructor (a: seq<seq<int>>, parOffset: nat)
      requires parOffset <= |a| && Usable(a)
      ensures Valid() && args == a && Now() == State(Rest(a, parOffset, 0), false, false, Null, [])
    {
      args := a;
      os, valIx, termFlag, nonlFlag, reversionAnker := [], 0, false, false, Null;
      nextParIx := parOffset + 1;
      hasPar := parOffset < |a|;
      actPar := if parOffset < |a| then a[parOffset] else [];
      nElements := if parOffset < |a| then |a[parOffset]| else 0;
    }

    /** On to the next argument. */
    method NextPar()
      requires nextParIx <= |args| && Usable(args)
      modifies this`nextParIx, this`valIx, this`hasPar, this`actPar, this`nElements
      ensures nextParIx == old(nextParIx) + 1 && valIx == 0 && Valid()
    {
      valIx := 0;
      if nextParIx < |args| {
        hasPar, actPar, nElements := true, args[nextParIx], |args[nextParIx]|;
      } else {
        hasPar, nElements := false, 0;
      }
      nextParIx := nextParIx + 1;
    }

    /** n values of the current argument are used. */
    method NextVal(n: nat)
      requires Valid() && hasPar && valIx + n <= nElements
      modifies this`nextParIx, this`valIx, this`hasPar, this`actPar, this`nElements
      ensures Valid() && n <= |old(Left())| && Left() == old(Left())[n..]
    {
      ghost var par, l := nextParIx - 1, Left();
      assert l == args[par][valIx..] + Rest(args, par + 1, 0);
      valIx := valIx + n;
      if valIx >= nElements {
        NextPar();
      }
    }

    /** One call of an argument's formatting function: it formats some of the values asked for,
        at least one, and says how many. */
    method OFmt(d: int, r: nat) returns (tCount: nat)
      requires Valid() && hasPar
      modifies this`os
      ensures Min(1, r) <= tCount <= r && valIx + tCount <= nElements
      ensures tCount <= |Left()| && os == old(os) + Values(d, Left()[..tCount])
    {
      tCount :| Min(1, r) <= tCount <= r && valIx + tCount <= nElements;
      ghost var par := nextParIx - 1;
      assert Left() == args[par][valIx..] + Rest(args, par + 1, 0);
      assert actPar[valIx..valIx + tCount] == Left()[..tCount];
      os := os + Values(d, actPar[valIx..valIx + tCount]);
    }

    /** A data descriptor. */
    method Data(d: int, rep: nat)
      requires Valid()
      modifies this
      ensures Valid() && Now() == Send(d, rep, old(Now()))
    {
      if !hasPar {
        return;
      }
      var r: nat := rep;
      ghost var s0 := Now();
      var tCount := Transfer(d, r, s0);
      r := r - tCount;
      while hasPar && r > 0
        invariant Valid() && r <= rep && Send(d, rep, s0) == Send(d, r, Now())
      {
        tCount := Transfer(d, r, Now());
        r := r - tCount;
      }
    }

    /** One round of the transfer loop. */
    method Transfer(d: int, r: nat, ghost s: State) returns (tCount: nat)
      requires Valid() && hasPar && s == Now()
      modifies this
      ensures Valid() && Min(1, r) <= tCount <= r && Send(d, r - tCount, Now()) == Send(d, r, s)
    {
      tCount := OFmt(d, r);
      NextVal(tCount);
      if !hasPar {
        termFlag := true;
      }
      SendSplit(d, r, s, tCount, Now());
    }

    method Q(ast: Tree) returns (retTree: Tree)
      requires Valid()
      modifies this`os, this`nonlFlag
      ensures Valid() && retTree == After(ast) && Now() == QState(ast, old(Now()))
    {
      retTree := ast;
      if ast.Node? {
        if ast.kind.NONL? {
          nonlFlag := true;
          retTree := ast.next;
        } else if ast.kind.SLASH? {
          os := os + Copies(NewLine, ast.kind.rep);
          retTree := ast.next;
        }
      }
    }

    method F(ast: Tree) returns (retTree: Tree)
      requires Valid() && ast.Node? && !IsQ(ast)
      modifies this
      ensures Valid() && retTree == ast.next && Now() == One(ast, old(Now()))
      decreases Size(ast), 1
    {
      retTree := ast.next;
      match ast.kind
      case FORMAT(_) => retTree := Format(ast);
      case DATA(d, rep) => Data(d, rep);
      case TEXT(s) => os := os + [Put(s)];
      case BLANKS(w) => os := os + Copies(Space, w);
      case TERM => termFlag := true;
      case _ =>
    }

    /** A group: its items as often as its repeat count says, unless the values run out. */
    method Format(ast: Tree) returns (retTree: Tree)
      requires Valid() && ast.Node? && ast.kind.FORMAT?
      modifies this
      ensures Valid() && retTree == ast.next && Now() == One(ast, old(Now()))
      decreases Size(ast), 0
    {
      reversionAnker := ast;
      var r: nat := ast.kind.rep;
      ghost var s0 := Now();
      var done := false;
      while r > 0 && !done
        invariant Valid() && r <= ast.kind.rep
        invariant Repeat(ast.kind.rep, ast.down, s0) == if done then Now() else Repeat(r, ast.down, Now())
        decreases r, !done
      {
        Repetition(ast.down);
        if !hasPar && termFlag {
          done := true;
        } else {
          r := r - 1;
        }
      }
      retTree := ast.next;
    }

    /** One repetition of a group's items. */
    method Repetition(blk: Tree)
      requires Valid()
      modifies this
      ensures Valid() && Now() == Items(After(blk), QState(blk, old(Now())))
      decreases Size(blk), 2
    {
      var t := Q(blk);
      ghost var s, u := Now(), t;
      while t.Node? && !IsQ(t) && (t.kind.TEXT? || hasPar || !termFlag)
        invariant Valid() && Size(t) <= Size(blk)
        invariant Items(u, s) == Items(t, Now())
        decreases Size(t)
      {
        ghost var n := t;
        t := F(t);
        t := Q(t);
        assert t == After(n.next);
      }
    }

    /** The group to revert to, and the items behind it, up to the last value. */
    method FormatReversion(ast: Tree)
      requires Valid() && ast.Node? && ast.kind.FORMAT?
      modifies this
      ensures Valid() && Now() == Reversion(ast, old(Now()))
    {
      var t := Format(ast);
      t := Q(t);
      ghost var s, u := Now(), t;
      while t.Node? && !IsQ(t)
        invariant Valid()
        invariant Tail(u, s) == Tail(t, Now())
        decreases Size(t)
      {
        ghost var n := t;
        t := F(t);
        if !hasPar {
          return;
        }
        t := Q(t);
        assert t == After(n.next) && Size(t) < Size(n);
      }
    }

    /** The first pass, then passes from the reversion group. */
    method AllPasses(fmt: Tree) returns (ok: bool)
      requires Valid() && fmt.Node? && fmt.kind.FORMAT? && fmt.next.Null?
      modifies this
      ensures Valid() && ok == Whole(fmt, old(Now())).Printed?
      ensures ok ==> Now() == Whole(fmt, old(Now())).s.(anchor := reversionAnker)
    {
      ghost var s0 := Now();
      var _ := Format(fmt);
      ghost var s1, g := Now(), RevertTo(fmt);
      RevertIsGroup(fmt);
      RevertInnermost(fmt);
      if hasPar {
        AnchorIsRevertTo(fmt, s0);
      }
      ok := Passes(g);
    }

    /** A whole output: passes, each on a new line, until there are no values left.  One look at
        the position after the first pass is enough to catch a reversion that takes no
        values.  Value number k goes to slot number k of the format and the endlessly
        repeated reversion. */
    method Run(fmt: Tree) returns (ok: bool)
      requires Valid() && fmt.Node? && fmt.kind.FORMAT? && fmt.next.Null? && os == []
      modifies this
      ensures Valid() && ok == Whole(fmt, old(Now())).Printed?
      ensures ok <==> |old(Left())| <= |Slots(fmt)| || PassSlots(RevertTo(fmt)) != []
      ensures ok ==> os == Whole(fmt, old(Now())).s.out + if nonlFlag then [] else [NewLine]
      ensures ok && !old(termFlag) ==> PrintsAll(fmt, old(Left()), old(nonlFlag), os)
      ensures ok ==> Left() == [] && Streamed(Slots(fmt), PassSlots(RevertTo(fmt)), old(Left()), Sent(os))
    {
      ghost var s0 := Now();
      ok := AllPasses(fmt);
      if ok && !nonlFlag {
        os := os + [NewLine];
      }
      StreamOrFailure(fmt, s0);
      if ok {
        AllSent(Whole(fmt, s0).s, os);
        if !s0.term {
          AllPrinted(fmt, s0, Whole(fmt, s0).s, os);
        }
      }
    }

    /** The passes after the first. */
    method Passes(ghost g: Tree) returns (ok: bool)
      requires Valid() && g.Node? && g.kind.FORMAT? && Innermost(g) && (hasPar ==> reversionAnker == g)
      modifies this
      ensures Valid() && ok == (old(Left()) == [] || PassSlots(g) != [])
      ensures ok ==> !hasPar
      ensures ok && old(Left()) == [] ==> Now() == old(Now())
      ensures ok && old(Left()) != [] ==> Now() == Rerun(g, old(Now())).(anchor := reversionAnker)
    {
      var nextParIxComp, valIxComp := nextParIx, valIx;
      ghost var s1 := Now();
      NoneLeft();
      while hasPar
        invariant Valid() && (hasPar ==> reversionAnker == g)
        invariant |Left()| < |s1.left| || (Now() == s1 && nextParIx == nextParIxComp && valIx == valIxComp)
        invariant |Left()| < |s1.left|
            ==> PassSlots(g) != [] && Rerun(g, s1).(anchor := Null) == Rerun(g, Now()).(anchor := Null)
        decreases |Left()|
      {
        ghost var s := Now();
        NoneLeft();
        Pass(g);
        SamePlace(s1.left, nextParIxComp, valIxComp);
        if nextParIx == nextParIxComp && valIx == valIxComp {
          return false;
        }
      }
      NoneLeft();
      ok := true;
    }

    /** One more pass, on a new line. */
    method Pass(ghost g: Tree)
      requires Valid() && g.Node? && g.kind.FORMAT? && Innermost(g) && reversionAnker == g
      modifies this
      ensures Valid() && Now() == Reversion(g, old(Now()).(out := old(Now()).out + [NewLine]))
      ensures |Left()| == |old(Left())| - Min(|PassSlots(g)|, |old(Left())|)
      ensures hasPar ==> reversionAnker == g
    {
      os := os + [NewLine];
      ghost var s := Now();
      FormatReversion(reversionAnker);
      ReversionFilled(g, s);
      NoneLeft();
      if hasPar {
        StableAnchor(g, s);
      }
    }

    lemma NoneLeft()
      requires Valid()
      ensures hasPar <==> Left() != []
    {
    }

    lemma SamePlace(l: seq<int>, par: nat, val: nat)
      requires Valid() && 1 <= par && Position(args, par - 1, val) && l == Rest(args, par - 1, val)
      ensures |Left()| == |l| ==> nextParIx == par && valIx == val
    {
      if |Left()| == |l| {
        RestOnce(args, nextParIx - 1, valIx, par - 1, val);
      }
    }
  }

  lemma {:induction false} RevertIsGroup(fmt: Tree)
    requires fmt.Node? && fmt.kind.FORMAT?
    ensures RevertTo(fmt).Node? && RevertTo(fmt).kind.FORMAT?
  {
    LastIsGroup(fmt, fmt);
  }

  lemma {:induction false} LastIsGroup(t: Tree, g: Tree)
    requires g.Node? && g.kind.FORMAT?
    ensures LastOf(t, g).Node? && LastOf(t, g).kind.FORMAT?
    decreases t, 0
  {
    if t.Node? && t.kind.FORMAT? && t.kind.rep != 0 {
      LastInIsGroup(After(t.down), t);
    }
  }

  lemma {:induction false} LastInIsGroup(t: Tree, g: Tree)
    requires g.Node? && g.kind.FORMAT?
    ensures LastIn(t, g).Node? && LastIn(t, g).kind.FORMAT?
    decreases t, 1
  {
    if !(t.Null? || IsQ(t)) {
      LastIsGroup(t, g);
      LastInIsGroup(After(t.next), LastOf(t, g));
    }
  }
}
