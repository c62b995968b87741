/** The frame table of a sample log: an append-only array of frames with parent
indices, and the reverse table that makes every frame unique.

The reference against which the table is judged is a plain list of steps: the
user calls that a stack holds within the depth limit, ended by a truncation
marker when the stack was deeper. */
module Frames {
  import opened Text

  /** What the log remembers about one active user function. */
  datatype Call = Call(
    filename: string,
    lineno: uint32,
    closureLine: uint32,
    className: Option<string>,
    functionName: Option<string>)

  /** One link of the execute_data chain. A stack is a sequence of these, the
  running function first. */
  datatype VmFrame =
    | Internal
    | User(filename: string, lineno: uint32, scope: Option<string>,
           functionName: Option<string>, isClosure: bool, lineStart: uint32)

  function CallOf(f: VmFrame): Call
    requires f.User?
  {
    Call(f.filename, f.lineno, if f.isClosure then f.lineStart else 0, f.scope, f.functionName)
  }

  datatype Step = At(call: Call) | Truncated

  const MARKER_KEY: string := "excimer_truncated"
  const MARKER_CALL: Call := Call("excimer fake file", 1, 0, None, Some(MARKER_KEY))

  /** The call that stands for a step in reports. */
  function ShownCall(s: Step): Call {
    match s
    case At(call) => call
    case Truncated => MARKER_CALL
  }

  // --------------------------------------------------- the reference: kept steps

  function UserSteps(stack: seq<VmFrame>): seq<Step> {
    if stack == [] then []
    else if stack[0].User? then [At(CallOf(stack[0]))] + UserSteps(stack[1..])
    else UserSteps(stack[1..])
  }

  /** The number of VM frames looked at under a non-zero depth limit. */
  function Room(maxDepth: int): (r: nat)
    ensures r >= 1
  {
    if maxDepth > 0 then maxDepth + 1 else 1
  }

  function KeptWithin(stack: seq<VmFrame>, room: nat): seq<Step> {
    if |stack| <= room then UserSteps(stack) else UserSteps(stack[..room]) + [Truncated]
  }

  /** What a log with this depth limit is meant to keep of a stack. */
  function Kept(stack: seq<VmFrame>, maxDepth: int): seq<Step> {
    if maxDepth == 0 then UserSteps(stack) else KeptWithin(stack, Room(maxDepth))
  }

  /** What is left to keep of a stack whose first frame is at this depth. */
  function KeptFrom(stack: seq<VmFrame>, depth: nat, maxDepth: int): seq<Step>
    requires maxDepth != 0 ==> depth < Room(maxDepth)
  {
    if maxDepth == 0 then UserSteps(stack) else KeptWithin(stack, Room(maxDepth) - depth)
  }

  /** The part of the kept steps below the first frame. */
  function KeptBelow(stack: seq<VmFrame>, depth: nat, maxDepth: int): seq<Step>
    requires |stack| >= 1
    requires maxDepth != 0 ==> depth < Room(maxDepth)
  {
    if |stack| == 1 then []
    else if maxDepth != 0 && depth >= maxDepth then [Truncated]
    else KeptFrom(stack[1..], depth + 1, maxDepth)
  }

  /** The recursion of the frame search, seen on kept steps. */
  lemma KeptFromStep(stack: seq<VmFrame>, depth: nat, maxDepth: int)
    requires |stack| >= 1
    requires maxDepth != 0 ==> depth < Room(maxDepth)
    ensures KeptFrom(stack, depth, maxDepth)
         == (if stack[0].User? then [At(CallOf(stack[0]))] else [])
            + KeptBelow(stack, depth, maxDepth)
  {
    var first := if stack[0].User? then [At(CallOf(stack[0]))] else [];
    if |stack| == 1 {
      assert stack[1..] == [];
      assert UserSteps(stack) == first + [];
    } else if maxDepth == 0 {
      assert UserSteps(stack) == first + UserSteps(stack[1..]);
    } else {
      assert stack[..1] == [stack[0]];
      assert UserSteps(stack[..1]) == first;
      KeptWithinStep(stack, Room(maxDepth) - depth);
      assert stack[1..][..0] == [];
    }
  }

  lemma KeptWithinStep(stack: seq<VmFrame>, room: nat)
    requires |stack| >= 1 && room >= 1
    ensures KeptWithin(stack, room) == UserSteps(stack[..1]) + KeptWithin(stack[1..], room - 1)
  {
    if |stack| > room {
      assert stack[..room][1..] == stack[1..][..room - 1];
      assert stack[..1][1..] == [];
    } else {
      assert stack[..1][1..] == [];
    }
  }

  // ------------------------------------------------------ what the kept steps are

  /** The call has the fields of the VM frame. Only a closure has a closure line, the
  line where it begins. */
  predicate Describes(c: Call, f: VmFrame) {
    && f.User?
    && c.filename == f.filename && c.lineno == f.lineno
    && c.className == f.scope && c.functionName == f.functionName
    && (f.isClosure ==> c.closureLine == f.lineStart)
    && (!f.isClosure ==> c.closureLine == 0)
  }

  /** The stack is deeper than a log with this limit looks. */
  predicate Deeper(stack: seq<VmFrame>, maxDepth: int) {
    || (maxDepth > 0 && |stack| > maxDepth + 1)
    || (maxDepth < 0 && |stack| > 1)
  }

  /** How many VM frames of a stack are looked at. */
  function Seen(stack: seq<VmFrame>, maxDepth: int): (n: nat)
    ensures n <= |stack|
  {
    if !Deeper(stack, maxDepth) then |stack| else if maxDepth > 0 then maxDepth + 1 else 1
  }

  function UserCount(stack: seq<VmFrame>): nat {
    if stack == [] then 0
    else UserCount(stack[..|stack| - 1]) + if stack[|stack| - 1].User? then 1 else 0
  }

  lemma {:induction false} UserStepsSnoc(stack: seq<VmFrame>, f: VmFrame)
    ensures UserSteps(stack + [f]) == UserSteps(stack) + if f.User? then [At(CallOf(f))] else []
  {
    if stack == [] {
      assert (stack + [f])[1..] == [];
    } else {
      assert (stack + [f])[1..] == stack[1..] + [f];
      UserStepsSnoc(stack[1..], f);
    }
  }

  /** There is one step for each user frame, in the same order. */
  lemma {:induction false} UserStepsAre(stack: seq<VmFrame>)
    ensures |UserSteps(stack)| == UserCount(stack)
    ensures forall j | 0 <= j < |stack| && stack[j].User? ::
              var m := UserCount(stack[..j]);
              m < |UserSteps(stack)| && UserSteps(stack)[m].At? && Describes(UserSteps(stack)[m].call, stack[j])
    decreases |stack|
  {
    if stack != [] {
      var n := |stack| - 1;
      var front := stack[..n];
      assert stack == front + [stack[n]];
      UserStepsAre(front);
      UserStepsSnoc(front, stack[n]);
      forall j | 0 <= j < |stack| && stack[j].User?
        ensures var m := UserCount(stack[..j]);
                m < |UserSteps(stack)| && UserSteps(stack)[m].At? && Describes(UserSteps(stack)[m].call, stack[j])
      {
        if j < n {
          assert front[..j] == stack[..j] && front[j] == stack[j];
        }
      }
    }
  }

  lemma KeptParts(stack: seq<VmFrame>, maxDepth: int)
    ensures Kept(stack, maxDepth)
         == UserSteps(stack[..Seen(stack, maxDepth)]) + if Deeper(stack, maxDepth) then [Truncated] else []
  {
    if !Deeper(stack, maxDepth) {
      assert stack[..|stack|] == stack;
    }
  }

  /** What is kept of a stack: one step for every user frame among the frames that are
  looked at, with the fields of that frame and in the same order, and a truncation
  marker at the end exactly when the stack is deeper. */
  lemma KeptIs(stack: seq<VmFrame>, maxDepth: int)
    ensures var kept, n := Kept(stack, maxDepth), Seen(stack, maxDepth);
            && |kept| == UserCount(stack[..n]) + (if Deeper(stack, maxDepth) then 1 else 0)
            && (Deeper(stack, maxDepth) ==> kept[|kept| - 1] == Truncated)
            && (forall j | 0 <= j < n && stack[j].User? ::
                  var m := UserCount(stack[..j]);
                  m < |kept| && kept[m].At? && Describes(kept[m].call, stack[j]))
  {
    var n := Seen(stack, maxDepth);
    KeptParts(stack, maxDepth);
    UserStepsAre(stack[..n]);
    forall j | 0 <= j < n ensures stack[..n][..j] == stack[..j] && stack[..n][j] == stack[j] {
    }
  }

  /** Conversely, every kept call comes from a user frame that is looked at. */
  lemma {:induction false} StepHasFrame(stack: seq<VmFrame>, m: nat) returns (j: nat)
    requires m < |UserSteps(stack)|
    ensures j < |stack| && stack[j].User? && UserSteps(stack)[m].At? && Describes(UserSteps(stack)[m].call, stack[j])
    decreases |stack|
  {
    if stack[0].User? && m == 0 {
      j := 0;
    } else {
      j := StepHasFrame(stack[1..], if stack[0].User? then m - 1 else m);
      j := j + 1;
    }
  }

  lemma KeptHasFrame(stack: seq<VmFrame>, maxDepth: int, m: nat) returns (j: nat)
    requires m < |Kept(stack, maxDepth)| && Kept(stack, maxDepth)[m].At?
    ensures j < Seen(stack, maxDepth) && Describes(Kept(stack, maxDepth)[m].call, stack[j])
  {
    KeptParts(stack, maxDepth);
    j := StepHasFrame(stack[..Seen(stack, maxDepth)], m);
  }

  // -------------------------------------------------------------- the frame array

  datatype Frame = Frame(call: Call, prevIndex: uint32)

  const NULL_FRAME: Frame := Frame(Call("", 0, 0, None, None), 0)

  /** Every parent index is below its own index, so chains end at 0. */
  predicate Linked(frames: seq<Frame>) {
    |frames| >= 1 && forall i | 1 <= i < |frames| :: frames[i].prevIndex < i
  }

  /** The calls met on the chain from an index down to 0, running function first. */
  function Trace(frames: seq<Frame>, i: nat): seq<Call>
    requires Linked(frames) && i < |frames|
  {
    if i == 0 then [] else [frames[i].call] + Trace(frames, frames[i].prevIndex)
  }

  /** The same chain, with the marker frame recognised by its index. */
  function Steps(frames: seq<Frame>, marker: nat, i: nat): seq<Step>
    requires Linked(frames) && i < |frames|
  {
    if i == 0 then []
    else [if i == marker then Truncated else At(frames[i].call)]
         + Steps(frames, marker, frames[i].prevIndex)
  }

  // ------------------------------------------------------------- the reverse table

  /** The part of a step that the reverse table looks at. */
  datatype Spot = Spot(filename: string, lineno: uint32) | MarkerSpot

  function SpotOf(s: Step): Spot {
    match s
    case At(call) => Spot(call.filename, call.lineno)
    case Truncated => MarkerSpot
  }

  function Spots(steps: seq<Step>): (r: seq<Spot>)
    ensures |r| == |steps| && forall i | 0 <= i < |r| :: r[i] == SpotOf(steps[i])
  {
    if steps == [] then [] else [SpotOf(steps[0])] + Spots(steps[1..])
  }

  /** File name, line number and parent index, separated by NUL. */
  function FrameKey(filename: string, lineno: uint32, prevIndex: uint32): string {
    filename + [NUL] + Decimal32(lineno) + [NUL] + Decimal32(prevIndex)
  }

  /** The key determines all three fields, even when the file name itself
  contains NUL bytes or digits. */
  lemma FrameKeyInjective(f1: string, l1: uint32, p1: uint32, f2: string, l2: uint32, p2: uint32)
    ensures FrameKey(f1, l1, p1) == FrameKey(f2, l2, p2) <==> f1 == f2 && l1 == l2 && p1 == p2
  {
    if FrameKey(f1, l1, p1) == FrameKey(f2, l2, p2) {
      SplitAtLast(f1 + [NUL] + Decimal32(l1), Decimal32(p1), f2 + [NUL] + Decimal32(l2), Decimal32(p2), NUL);
      SplitAtLast(f1, Decimal32(l1), f2, Decimal32(l2), NUL);
      Decimal32Injective(l1, l2);
      Decimal32Injective(p1, p2);
    }
  }

  lemma FrameKeyNotMarker(filename: string, lineno: uint32, prevIndex: uint32)
    ensures FrameKey(filename, lineno, prevIndex) != MARKER_KEY
  {
    assert FrameKey(filename, lineno, prevIndex)[|filename|] == NUL;
    assert Lacks(MARKER_KEY, NUL);
  }

  function MarkerIndex(reverse: map<string, nat>): nat {
    if MARKER_KEY in reverse then reverse[MARKER_KEY] else 0
  }

  function KeyAt(frames: seq<Frame>, reverse: map<string, nat>, i: nat): string
    requires i < |frames|
  {
    if i == MarkerIndex(reverse) then MARKER_KEY
    else FrameKey(frames[i].call.filename, frames[i].call.lineno, frames[i].prevIndex)
  }

  /** The reverse table is an exact bijection between keys and the indices
  1..|frames|-1. */
  ghost predicate TableValid(frames: seq<Frame>, reverse: map<string, nat>) {
    && Linked(frames)
    && (forall k | k in reverse :: 1 <= reverse[k] < |frames| && KeyAt(frames, reverse, reverse[k]) == k)
    && (forall i | 1 <= i < |frames| ::
          KeyAt(frames, reverse, i) in reverse && reverse[KeyAt(frames, reverse, i)] == i)
    && (MARKER_KEY in reverse ==> frames[reverse[MARKER_KEY]] == Frame(MARKER_CALL, 0))
  }

  /** What an index means, as far as the reverse table can tell. */
  ghost function SpotTrace(frames: seq<Frame>, reverse: map<string, nat>, i: nat): seq<Spot>
    requires Linked(frames) && i < |frames|
  {
    Spots(Steps(frames, MarkerIndex(reverse), i))
  }

  /** Canonicity: indices are equal exactly when the traces they stand for have
  the same files, lines and marker. */
  lemma {:induction false} Canonical(frames: seq<Frame>, reverse: map<string, nat>, i: nat, j: nat)
    requires TableValid(frames, reverse) && i < |frames| && j < |frames|
    ensures SpotTrace(frames, reverse, i) == SpotTrace(frames, reverse, j) <==> i == j
    decreases i
  {
    if SpotTrace(frames, reverse, i) == SpotTrace(frames, reverse, j) && i != 0 && j != 0 {
      var p, q := frames[i].prevIndex, frames[j].prevIndex;
      SpotTraceUnfold(frames, reverse, i);
      SpotTraceUnfold(frames, reverse, j);
      assert SpotTrace(frames, reverse, i)[1..] == SpotTrace(frames, reverse, p);
      assert SpotTrace(frames, reverse, j)[1..] == SpotTrace(frames, reverse, q);
      Canonical(frames, reverse, p, q);
      assert SpotTrace(frames, reverse, i)[0] == SpotTrace(frames, reverse, j)[0];
      assert KeyAt(frames, reverse, i) == KeyAt(frames, reverse, j);
    } else if SpotTrace(frames, reverse, i) == SpotTrace(frames, reverse, j) {
      assert |SpotTrace(frames, reverse, i)| == |SpotTrace(frames, reverse, j)|;
    }
  }

  lemma SpotTraceUnfold(frames: seq<Frame>, reverse: map<string, nat>, i: nat)
    requires Linked(frames) && 1 <= i < |frames|
    ensures SpotTrace(frames, reverse, i)
         == [if i == MarkerIndex(reverse) then MarkerSpot
             else Spot(frames[i].call.filename, frames[i].call.lineno)]
            + SpotTrace(frames, reverse, frames[i].prevIndex)
  {
    var steps := Steps(frames, MarkerIndex(reverse), i);
    assert steps[1..] == Steps(frames, MarkerIndex(reverse), frames[i].prevIndex);
  }

  // ------------------------------------------------------------------ growing

  /** A later table: old frames and old keys are untouched. */
  ghost predicate Extends(frames: seq<Frame>, reverse: map<string, nat>,
                          frames': seq<Frame>, reverse': map<string, nat>)
  {
    && frames <= frames'
    && (forall k | k in reverse :: k in reverse' && reverse'[k] == reverse[k])
    && (MARKER_KEY !in reverse ==> MARKER_KEY in reverse' ==> reverse'[MARKER_KEY] >= |frames|)
  }

  lemma ExtendsTransitive(f0: seq<Frame>, r0: map<string, nat>, f1: seq<Frame>, r1: map<string, nat>,
                          f2: seq<Frame>, r2: map<string, nat>)
    requires Extends(f0, r0, f1, r1) && Extends(f1, r1, f2, r2)
    ensures Extends(f0, r0, f2, r2)
  {
  }

  /** Later growth never changes what an existing index stands for. */
  lemma {:induction false} ExtendsKeepsSteps(frames: seq<Frame>, reverse: map<string, nat>,
                                             frames': seq<Frame>, reverse': map<string, nat>, i: nat)
    requires Linked(frames) && Linked(frames') && Extends(frames, reverse, frames', reverse')
    requires i < |frames|
    ensures Steps(frames', MarkerIndex(reverse'), i) == Steps(frames, MarkerIndex(reverse), i)
    ensures Trace(frames', i) == Trace(frames, i)
    decreases i
  {
    if i != 0 {
      assert frames'[i] == frames[i];
      ExtendsKeepsSteps(frames, reverse, frames', reverse', frames[i].prevIndex);
    }
  }

  /** The marker frame is shown like a call in traces. */
  lemma {:induction false} TraceShowsSteps(frames: seq<Frame>, reverse: map<string, nat>, i: nat)
    requires TableValid(frames, reverse) && i < |frames|
    ensures |Trace(frames, i)| == |Steps(frames, MarkerIndex(reverse), i)|
    ensures forall k | 0 <= k < |Trace(frames, i)| ::
              Trace(frames, i)[k] == ShownCall(Steps(frames, MarkerIndex(reverse), i)[k])
    decreases i
  {
    if i != 0 {
      TraceShowsSteps(frames, reverse, frames[i].prevIndex);
    }
  }

  lemma AppendFrame(frames: seq<Frame>, reverse: map<string, nat>, f: Frame)
    requires TableValid(frames, reverse) && f.prevIndex < |frames|
    requires FrameKey(f.call.filename, f.call.lineno, f.prevIndex) !in reverse
    ensures var key := FrameKey(f.call.filename, f.call.lineno, f.prevIndex);
            && TableValid(frames + [f], reverse[key := |frames|])
            && Extends(frames, reverse, frames + [f], reverse[key := |frames|])
  {
    var key := FrameKey(f.call.filename, f.call.lineno, f.prevIndex);
    FrameKeyNotMarker(f.call.filename, f.call.lineno, f.prevIndex);
    var frames', reverse' := frames + [f], reverse[key := |frames|];
    assert MarkerIndex(reverse') == MarkerIndex(reverse);
    assert forall i | 0 <= i < |frames| :: KeyAt(frames', reverse', i) == KeyAt(frames, reverse, i);
    assert KeyAt(frames', reverse', |frames|) == key;
  }

  lemma AppendMarker(frames: seq<Frame>, reverse: map<string, nat>)
    requires TableValid(frames, reverse) && MARKER_KEY !in reverse
    ensures var frames', reverse' := frames + [Frame(MARKER_CALL, 0)], reverse[MARKER_KEY := |frames|];
            TableValid(frames', reverse') && Extends(frames, reverse, frames', reverse')
  {
    var frames', reverse' := frames + [Frame(MARKER_CALL, 0)], reverse[MARKER_KEY := |frames|];
    assert MarkerIndex(reverse) == 0 && MarkerIndex(reverse') == |frames|;
    assert forall i | 1 <= i < |frames| :: KeyAt(frames', reverse', i) == KeyAt(frames, reverse, i);
    assert KeyAt(frames', reverse', |frames|) == MARKER_KEY;
  }
}
