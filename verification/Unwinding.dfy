/** Where a run goes on after an error: CATCH, ON_IOERROR and ON_ERROR over the call stack. */
module Unwinding {
  datatype OnError = NotSet | StopHere | ToMain | ToCaller | StopInRoutine   // -1, 0, 1, 2, 3

  /** A node of the program to jump to. */
  datatype Target = NoNode | Node(id: int)

  /** One frame of the call stack.  nested is the number of statements being executed in it,
      beyond the first, each of which handles errors; catchVar is the variable named by CATCH. */
  datatype Frame = Frame(onError: OnError, catchNode: Target, ioError: Target, catchVar: int, nested: nat)

  /** A frame of the stack, or none yet. */
  datatype Place = Nowhere | At(frame: nat)

  /** What became of an error: the frame and the node it continues at, or the frame it halts in. */
  datatype Outcome = Resumed(frame: nat, node: int) | Halted(frame: nat)

  // ----- the frame ON_ERROR chooses -----

  /** Frame i has ON_ERROR set and no frame above it has. */
  ghost predicate HighestSet(stack: seq<Frame>, i: nat) {
    i < |stack| && !stack[i].onError.NotSet? && forall k :: i < k < |stack| ==> stack[k].onError.NotSet?
  }

  /** j is the nearest frame below i that does not pass on to its caller, or the lowest frame. */
  ghost predicate NearestStop(stack: seq<Frame>, i: nat, j: nat)
    requires i < |stack|
  {
    && (j < i || (i == 0 && j == 0))
    && (forall k :: j < k < i ==> stack[k].onError.ToCaller?)
    && (j > 0 ==> !stack[j].onError.ToCaller?)
  }

  /** ON_ERROR as set in frame i stops errors in frame t. */
  ghost predicate SetStop(stack: seq<Frame>, i: nat, t: nat)
    requires i < |stack|
  {
    match stack[i].onError
    case ToMain => t == 0
    case ToCaller => NearestStop(stack, i, t)
    case StopInRoutine => t == i
    case _ => t == |stack| - 1
  }

  ghost predicate NoneSet(stack: seq<Frame>) { forall k :: 0 <= k < |stack| ==> stack[k].onError.NotSet? }

  /** Frame t is where errors raised on this stack stop if nothing catches them. */
  ghost predicate Stops(stack: seq<Frame>, t: nat) {
    && t < |stack|
    && if NoneSet(stack) then t == |stack| - 1 else exists i: nat :: HighestSet(stack, i) && SetStop(stack, i, t)
  }

  /** Whether the frame takes the error, and where to. */
  function Handler(f: Frame, isIO: bool): (r: Target) {
    if isIO && f.ioError.Node? then f.ioError else f.catchNode
  }

  /** A frame without CATCH passes an error on, unless it is an I/O error and ON_IOERROR is set. */
  ghost predicate PassesOn(f: Frame, isIO: bool) { f.catchNode == NoNode && !(isIO && f.ioError.Node?) }

  /** An error that stops at frame t comes out in the highest frame at or above t that takes
      it, and else halts in t. */
  ghost predicate ComesOut(stack: seq<Frame>, isIO: bool, t: nat, r: Outcome)
    requires t < |stack|
  {
    match r
    case Resumed(f, node) =>
      t <= f < |stack| && Handler(stack[f], isIO) == Node(node)
        && forall k :: f < k < |stack| ==> Handler(stack[k], isIO) == NoNode
    case Halted(f) =>
      f == t && forall k :: t <= k < |stack| ==> Handler(stack[k], isIO) == NoNode
  }

  lemma StopsOnce(stack: seq<Frame>, t: nat, t': nat)
    requires Stops(stack, t) && Stops(stack, t')
    ensures t == t'
  {
    if !NoneSet(stack) {
      var i: nat :| HighestSet(stack, i) && SetStop(stack, i, t);
      var i': nat :| HighestSet(stack, i') && SetStop(stack, i', t');
      assert i == i';
    }
  }

  /** There is one way out of an error. */
  lemma OneWayOut(stack: seq<Frame>, isIO: bool, t: nat, r: Outcome, r': Outcome)
    requires t < |stack| && ComesOut(stack, isIO, t, r) && ComesOut(stack, isIO, t, r')
    ensures r == r'
  {
  }

  /** ON_ERROR, 2 in a routine whose callers all pass errors on ends in the lowest frame. */
  lemma PassedToMain(stack: seq<Frame>, t: nat)
    requires Stops(stack, t) && forall k :: 0 < k < |stack| ==> stack[k].onError.ToCaller?
    requires |stack| > 1
    ensures t == 0
  {
    assert stack[|stack| - 1].onError.ToCaller?;
  }

  /** The error on its way: its code, whether it is an input or output error, and the frame chosen to stop at. */
  datatype GDLException = GDLException(code: int, isIO: bool, targetEnv: Place)

  class Interpreter {
    var callStack: seq<Frame>
    var errorState: int
    var retTree: Target

    constructor (stack: seq<Frame>)
      ensures callStack == stack
    {
      callStack, errorState, retTree := stack, 0, NoNode;
    }

    /** Looks for the highest frame with ON_ERROR set; nothing if there is none. */
    method FindTarget() returns (target: Place)
      requires callStack != []
      ensures target.Nowhere? <==> NoneSet(callStack)
      ensures target.At? ==> Stops(callStack, target.frame)
    {
      target := Nowhere;
      var ix := |callStack| - 1;
      while ix >= 0
        invariant -1 <= ix < |callStack|
        invariant forall k :: ix < k < |callStack| ==> callStack[k].onError.NotSet?
      {
        var oE := callStack[ix].onError;
        if oE != NotSet {
          assert HighestSet(callStack, ix);
          if oE.StopHere? {
            target := At(|callStack| - 1);
          } else if oE.ToMain? {
            target := At(0);
          } else if oE.ToCaller? {
            var j := CallerFrame(ix);
            target := At(j);
          } else {
            target := At(ix);
          }
          assert SetStop(callStack, ix, target.frame);
          return;
        }
        ix := ix - 1;
      }
    }

    /** Down from frame i over the frames that pass errors on. */
    method CallerFrame(i: nat) returns (j: nat)
      requires i < |callStack|
      ensures NearestStop(callStack, i, j)
    {
      j := i;
      while j > 0
        invariant j <= i && forall k :: j <= k < i ==> callStack[k].onError.ToCaller?
      {
        j := j - 1;
        if !callStack[j].onError.ToCaller? {
          return;
        }
      }
    }

    /** The handler of one statement of the top frame: the error is taken here, or it halts
        here, or it is thrown on with a frame to stop at. */
    method Handle(e: GDLException) returns (r: Outcome, rethrown: bool, e': GDLException)
      requires callStack != [] && (e.targetEnv.At? ==> e.targetEnv.frame < |callStack|)
      modifies this
      ensures |callStack| == |old(callStack)|
          && forall k :: 0 <= k < |callStack| - 1 ==> callStack[k] == old(callStack)[k]
      ensures e'.code == e.code && e'.isIO == e.isIO
      ensures e.targetEnv.Nowhere? ==> errorState == e.code
      ensures rethrown ==>
                && callStack == old(callStack) && Handler(callStack[|callStack| - 1], e.isIO) == NoNode
                && e'.targetEnv.At? && e'.targetEnv.frame < |callStack| - 1
                && (if e.targetEnv.At? then e' == e && errorState == old(errorState)
                   else Stops(callStack, e'.targetEnv.frame))
      ensures (rethrown || r.Halted?) <==> PassesOn(old(callStack)[|old(callStack)| - 1], e.isIO)
      ensures !rethrown && r.Resumed? ==>
                var f := old(callStack)[|old(callStack)| - 1];
                && (e.isIO && f.ioError.Node? ==> r.node == f.ioError.id)
                && (!(e.isIO && f.ioError.Node?) ==> f.catchNode.Node? && r.node == f.catchNode.id)
      ensures !rethrown && r.Resumed? ==>
                && r.frame == |callStack| - 1 && Handler(old(callStack)[r.frame], e.isIO) == Node(r.node) == retTree
                   && errorState == e.code
                && callStack[r.frame] == if e.isIO && old(callStack)[r.frame].ioError.Node? then old(callStack)[r.frame]
                                         else old(callStack)[r.frame].(catchVar := e.code)
      ensures !rethrown && r.Halted? ==>
                && callStack == old(callStack) && r.frame == |callStack| - 1
                   && Handler(callStack[r.frame], e.isIO) == NoNode
                && (if e.targetEnv.At? then r.frame == e.targetEnv.frame && errorState == old(errorState)
                   else Stops(callStack, r.frame))
    {
      var top := |callStack| - 1;
      e', rethrown, r := e, false, Halted(top);
      var back := callStack[top];
      if e.isIO && back.ioError.Node? {
        errorState := e.code;
        retTree := back.ioError;
        r := Resumed(top, back.ioError.id);
        return;
      }
      if back.catchNode.Node? {
        errorState := e.code;
        callStack := callStack[top := back.(catchVar := e.code)];
        retTree := back.catchNode;
        r := Resumed(top, back.catchNode.id);
        return;
      }
      var targetEnv := e.targetEnv;
      if targetEnv.Nowhere? {
        errorState := e.code;
        targetEnv := FindTarget();
        e' := e.(targetEnv := targetEnv);
      }
      rethrown := targetEnv.At? && targetEnv.frame != top;
    }

    /** An error on the whole stack: every statement of every frame gets it until one takes it
        or it halts; a frame whose statements all threw it on is removed. */
    method Unwind(code: int, isIO: bool) returns (r: Outcome, ghost stop: nat)
      requires callStack != []
      modifies this
      ensures Stops(old(callStack), stop) && ComesOut(old(callStack), isIO, stop, r)
      ensures r.Resumed? ==>
                var f := old(callStack)[r.frame];
                && (isIO && f.ioError.Node? ==> r.node == f.ioError.id)
                && (!(isIO && f.ioError.Node?) ==> f.catchNode.Node? && r.node == f.catchNode.id)
      ensures forall k :: r.frame < k < |old(callStack)| ==> PassesOn(old(callStack)[k], isIO)
      ensures r.Halted? ==> PassesOn(old(callStack)[r.frame], isIO)
      ensures |callStack| == r.frame + 1 && errorState == code
      ensures forall k :: 0 <= k < r.frame ==> callStack[k] == old(callStack)[k]
      ensures r.Resumed? ==> retTree == Node(r.node)
      ensures var f, f' := old(callStack)[r.frame], callStack[r.frame];
              f' == f.(nested := f'.nested,
                         catchVar := if r.Resumed? && !(isIO && f.ioError.Node?) then code else f.catchVar)
    {
      ghost var s := callStack;
      var e := GDLException(code, isIO, Nowhere);
      var rethrown;
      ghost var i :| Stops(s, i) by { SomeStop(s); }
      stop := i;
      r, rethrown, e := Handle(e);
      if !rethrown {
        StopsIfHalted(s, stop, r);
        return;
      }
      StopsOnce(s, stop, e.targetEnv.frame);
      while true
        invariant 0 < |callStack| <= |s| && stop < |callStack| - 1 && e == GDLException(code, isIO, At(stop))
            && errorState == code
        invariant forall k :: |callStack| - 1 <= k < |s| ==> Handler(s[k], isIO) == NoNode
        invariant forall k :: 0 <= k < |callStack| - 1 ==> callStack[k] == s[k]
        invariant callStack[|callStack| - 1] == s[|callStack| - 1].(nested := callStack[|callStack| - 1].nested)
        decreases |callStack|, callStack[|callStack| - 1].nested
      {
        var top := |callStack| - 1;
        if callStack[top].nested > 0 {
          callStack := callStack[top := callStack[top].(nested := callStack[top].nested - 1)];
        } else {
          callStack := callStack[..top];
        }
        r, rethrown, e := Handle(e);
        if !rethrown {
          return;
        }
      }
    }
  }

  /** A halt at once is a halt in the top frame, where the error stops. */
  lemma StopsIfHalted(stack: seq<Frame>, stop: nat, r: Outcome)
    requires Stops(stack, stop)
    ensures r.Halted? && Stops(stack, r.frame) ==> r.frame == stop
  {
    if r.Halted? && Stops(stack, r.frame) {
      StopsOnce(stack, stop, r.frame);
    }
  }

  /** The frame to stop at is always on the stack. */
  lemma {:induction false} SomeStop(stack: seq<Frame>)
    requires stack != []
    ensures exists t :: Stops(stack, t)
  {
    if NoneSet(stack) {
      assert Stops(stack, |stack| - 1);
    } else {
      var i := TopSet(stack, |stack|);
      var t: nat := |stack| - 1;
      match stack[i].onError {
        case ToMain => t := 0;
        case ToCaller => t := StopBelow(stack, i, i);
        case StopInRoutine => t := i;
        case _ =>
      }
      assert SetStop(stack, i, t);
      assert Stops(stack, t);
    }
  }

  lemma {:induction false} TopSet(stack: seq<Frame>, n: nat) returns (i: nat)
    requires n <= |stack| && (forall k :: n <= k < |stack| ==> stack[k].onError.NotSet?)
    requires !NoneSet(stack)
    ensures HighestSet(stack, i)
  {
    if n > 0 && stack[n - 1].onError.NotSet? {
      i := TopSet(stack, n - 1);
    } else {
      i := n - 1;
    }
  }

  lemma {:induction false} StopBelow(stack: seq<Frame>, i: nat, n: nat) returns (j: nat)
    requires n <= i < |stack| && forall k :: n <= k < i ==> stack[k].onError.ToCaller?
    ensures NearestStop(stack, i, j)
    decreases n
  {
    if n == 0 {
      j := 0;
    } else if stack[n - 1].onError.ToCaller? {
      j := StopBelow(stack, i, n - 1);
    } else {
      j := n - 1;
    }
  }
}
