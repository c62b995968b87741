/** A profiler and the timers, running together.

A joint run interleaves the actions of the timer protocol with the steps of one
profiler. Dispatching the profiler's timer is ExcimerProfiler_event: it records
the dispatched count, and begins a flush when the log is full. The flush
callback is then the user code that the protocol runs inside the dispatch, where
nested drains, further flushes and new settings may follow. A flush whose
callback has become uncallable stops the timer. */
module JointRun {
  import opened Text
  import opened Frames
  import opened SampleLog
  import opened Rotation
  import T = TimerProtocol
  import Theorems = TimerTheorems

  // ----------------------------------------------------------------- profiler steps

  /** What a profiler does between two points where other code may run. */
  datatype Step =
    | EventStep(stack: seq<VmFrame>, count: nat, now: nat, callable: bool, stopped: bool)
    | FlushStep(callable: bool, stopped: bool)
    | SetStep(setting: Setting)

  function Stepped(v: View, st: Step): View {
    match st
    case EventStep(stack, count, now, callable, stopped) =>
      var w := Noted(v, stack, count, now);
      if Full(|w.current|, w.maxSamples) then FlushBegun(w, callable, stopped) else w
    case FlushStep(callable, stopped) => FlushBegun(v, callable, stopped)
    case SetStep(setting) => Configured(v, setting)
  }

  function SteppedAll(v: View, steps: seq<Step>): View
    decreases |steps|
  {
    if steps == [] then v else SteppedAll(Stepped(v, steps[0]), steps[1..])
  }

  lemma {:induction false} SteppedConcat(v: View, steps1: seq<Step>, steps2: seq<Step>)
    ensures SteppedAll(v, steps1 + steps2) == SteppedAll(SteppedAll(v, steps1), steps2)
    decreases |steps1|
  {
    if steps1 == [] {
      assert steps1 + steps2 == steps2;
    } else {
      assert (steps1 + steps2)[1..] == steps1[1..] + steps2;
      SteppedConcat(Stepped(v, steps1[0]), steps1[1..], steps2);
    }
  }

  // The same effect as that of nested callbacks, in the order in which things happen.

  function Unfolded(v: View, actions: seq<Action>): seq<Step>
    decreases actions
  {
    if actions == [] then []
    else UnfoldedOne(v, actions[0]) + Unfolded(After(v, actions[0]), actions[1..])
  }

  function UnfoldedReply(v: View, reply: Reply): seq<Step>
    decreases reply, 0
  {
    if v.hasCallback && reply.callable
    then Unfolded(FlushBegun(v, reply.callable, reply.stopped), reply.actions) else []
  }

  function UnfoldedOne(v: View, action: Action): seq<Step>
    decreases action
  {
    match action
    case TimerEvent(stack, count, now, reply) =>
      var w := Noted(v, stack, count, now);
      [EventStep(stack, count, now, reply.callable, reply.stopped)]
      + if Full(|w.current|, w.maxSamples) then UnfoldedReply(w, reply) else []
    case UserFlush(reply) => [FlushStep(reply.callable, reply.stopped)] + UnfoldedReply(v, reply)
    case Set(setting) => [SetStep(setting)]
  }

  /** Nested callbacks are nothing but steps in a row. */
  lemma {:induction false} UnfoldedIsPerformed(v: View, actions: seq<Action>)
    ensures SteppedAll(v, Unfolded(v, actions)) == Performed(v, actions)
    decreases actions
  {
    if actions != [] {
      var w := After(v, actions[0]);
      UnfoldedOneIsAfter(v, actions[0]);
      UnfoldedIsPerformed(w, actions[1..]);
      SteppedConcat(v, UnfoldedOne(v, actions[0]), Unfolded(w, actions[1..]));
    }
  }

  lemma {:induction false} UnfoldedReplyIsFlushed(v: View, reply: Reply)
    ensures SteppedAll(FlushBegun(v, reply.callable, reply.stopped), UnfoldedReply(v, reply)) == Flushed(v, reply)
    decreases reply, 0
  {
    if v.hasCallback && reply.callable {
      UnfoldedIsPerformed(FlushBegun(v, reply.callable, reply.stopped), reply.actions);
    }
  }

  lemma SteppedCons(v: View, st: Step, steps: seq<Step>)
    ensures SteppedAll(v, [st] + steps) == SteppedAll(Stepped(v, st), steps)
  {
    assert ([st] + steps)[1..] == steps;
  }

  lemma {:induction false} UnfoldedOneIsAfter(v: View, action: Action)
    ensures SteppedAll(v, UnfoldedOne(v, action)) == After(v, action)
    decreases action
  {
    var steps := UnfoldedOne(v, action);
    assert steps == [steps[0]] + steps[1..];
    SteppedCons(v, steps[0], steps[1..]);
    match action
    case TimerEvent(stack, count, now, reply) => UnfoldedReplyIsFlushed(Noted(v, stack, count, now), reply);
    case UserFlush(reply) => UnfoldedReplyIsFlushed(v, reply);
    case Set(_) =>
  }

  /** A step as an action whose callback does nothing itself. */
  function Quiet(st: Step): Action {
    match st
    case EventStep(stack, count, now, callable, stopped) =>
      TimerEvent(stack, count, now, Reply(callable, stopped, []))
    case FlushStep(callable, stopped) => UserFlush(Reply(callable, stopped, []))
    case SetStep(setting) => Set(setting)
  }

  function QuietAll(steps: seq<Step>): (r: seq<Action>)
    ensures |r| == |steps| && forall i | 0 <= i < |r| :: r[i] == Quiet(steps[i])
  {
    seq(|steps|, i requires 0 <= i < |steps| => Quiet(steps[i]))
  }

  lemma QuietFlush(v: View, callable: bool, stopped: bool)
    ensures Flushed(v, Reply(callable, stopped, [])) == FlushBegun(v, callable, stopped)
  {
    var w := FlushBegun(v, callable, stopped);
    assert Performed(w, []) == w;
  }

  lemma QuietIsStep(v: View, st: Step)
    ensures After(v, Quiet(st)) == Stepped(v, st)
  {
    match st
    case EventStep(stack, count, now, callable, stopped) =>
      QuietFlush(Noted(v, stack, count, now), callable, stopped);
    case FlushStep(callable, stopped) => QuietFlush(v, callable, stopped);
    case SetStep(_) =>
  }

  /** Conversely, steps in a row are a list of actions, so that every law of such lists
  is a law of steps. */
  lemma {:induction false} SteppedIsPerformed(v: View, steps: seq<Step>)
    ensures SteppedAll(v, steps) == Performed(v, QuietAll(steps))
    decreases |steps|
  {
    if steps != [] {
      QuietIsStep(v, steps[0]);
      SteppedIsPerformed(Stepped(v, steps[0]), steps[1..]);
      assert QuietAll(steps)[1..] == QuietAll(steps[1..]);
    }
  }

  /** The stack levels of the events among the steps. */
  function StepLevels(steps: seq<Step>): nat {
    if steps == [] then 0
    else (if steps[0].EventStep? then |steps[0].stack| else 0) + StepLevels(steps[1..])
  }

  // -------------------------------------------------------------- steps of the object

  method TakeStep(p: Profiler, st: Step) returns (ok: bool)
    requires p.Valid()
    modifies p, p.log
    ensures p.Continues()
    ensures ok ==> p.Valid() && p.AsView() == Stepped(old(p.AsView()), st)
    ensures p.FailsOnlyFull(ok, if st.EventStep? then |st.stack| else 0)
  {
    ok := true;
    p.CurrentEpoch();
    match st {
      case EventStep(stack, count, now, callable, stopped) =>
        ok := p.Record(stack, count, now);
        if ok {
          p.CurrentEpoch();
          if Full(|p.log.entries|, p.maxSamples) {
            var oldLog := p.BeginFlush(callable, stopped);
          }
        }
      case FlushStep(callable, stopped) =>
        var oldLog := p.BeginFlush(callable, stopped);
      case SetStep(setting) =>
        p.Configure(setting);
    }
  }

  /** A profiler object that takes these steps has their effect. The only failure is the
  32-bit error, and with room for the stack levels there is none. */
  method Follow(p: Profiler, steps: seq<Step>) returns (ok: bool)
    requires p.Valid()
    modifies p, p.log
    ensures p.Continues()
    ensures ok ==> p.Valid() && p.AsView() == SteppedAll(old(p.AsView()), steps)
    ensures p.FailsOnlyFull(ok, StepLevels(steps))
    ensures |old(p.log.frames)| + StepLevels(steps) <= UINT32_MODULUS ==> ok
    decreases |steps|
  {
    if steps == [] {
      return true;
    }
    ok := TakeStep(p, steps[0]);
    if ok {
      p.CurrentLog();
      ok := Follow(p, steps[1..]);
    }
  }

  // -------------------------------------------------------------------- joint runs

  datatype Joint =
    // an action of the protocol; the rest is used if it dispatches the profiler's timer
    | ByTimer(action: T.Action, stack: seq<VmFrame>, now: nat, callable: bool, stopped: bool)
    // user code flushes or configures the profiler
    | ByUser(step: Step)

  /** User code starts and stops the profiler through actions of the protocol. */
  predicate Can(s: T.State, j: Joint, t: T.TimerId) {
    && t in s.timers
    && match j
       case ByTimer(a, _, _, _, _) => T.Enabled(s, a)
       case ByUser(st) =>
         s.UserCode() && !st.EventStep? && (st.SetStep? ==> !st.setting.Start? && !st.setting.Stop?)
  }

  /** The profiler's part of a joint action: dispatching t passes the count that the
  protocol took from t, and starting or stopping t is seen in the running flag. */
  function StepsOf(s: T.State, j: Joint, t: T.TimerId): (r: seq<Step>)
    requires Can(s, j, t)
    ensures |r| <= 1
  {
    match j
    case ByTimer(a, stack, now, callable, stopped) =>
      if a.Dequeue? && s.queue[0] == t then [EventStep(stack, s.timers[t].eventCount, now, callable, stopped)]
      else if T.Apply(s, a).timers[t].running != s.timers[t].running
      then [SetStep(Start(T.Apply(s, a).timers[t].running))]
      else []
    case ByUser(st) => [st]
  }

  /** The step begins a flush whose callback is uncallable. */
  predicate Fails(v: View, st: Step) {
    match st
    case EventStep(stack, count, now, callable, _) =>
      v.hasCallback && !callable && Full(|v.current| + 1, v.maxSamples)
    case FlushStep(callable, _) => v.hasCallback && !callable
    case SetStep(_) => false
  }

  predicate StopsTimer(s: T.State, v: View, j: Joint, t: T.TimerId)
    requires Can(s, j, t)
  {
    StepsOf(s, j, t) != [] && Fails(v, StepsOf(s, j, t)[0])
  }

  /** The protocol's part of a joint action: a failed flush also stops the timer. */
  function ActionsOf(s: T.State, v: View, j: Joint, t: T.TimerId): seq<T.Action>
    requires Can(s, j, t)
  {
    (if j.ByTimer? then [j.action] else [])
    + if StopsTimer(s, v, j, t) then [T.Stop(t, StepsOf(s, j, t)[0].stopped)] else []
  }

  function Dispatched(s: T.State, j: Joint, t: T.TimerId): T.State
    requires Can(s, j, t)
  {
    if j.ByTimer? then T.Apply(s, j.action) else s
  }

  lemma StopEnabled(s: T.State, v: View, j: Joint, t: T.TimerId)
    requires Can(s, j, t)
    ensures t in Dispatched(s, j, t).timers
    ensures StopsTimer(s, v, j, t) ==> Dispatched(s, j, t).UserCode()
  {
  }

  function TimersAfter(s: T.State, v: View, j: Joint, t: T.TimerId): (r: T.State)
    requires Can(s, j, t)
    ensures t in r.timers
  {
    StopEnabled(s, v, j, t);
    if StopsTimer(s, v, j, t)
    then T.Apply(Dispatched(s, j, t), T.Stop(t, StepsOf(s, j, t)[0].stopped))
    else Dispatched(s, j, t)
  }

  function ViewAfter(s: T.State, v: View, j: Joint, t: T.TimerId): View
    requires Can(s, j, t)
  {
    SteppedAll(v, StepsOf(s, j, t))
  }

  ghost predicate Runs(s: T.State, v: View, run: seq<Joint>, s': T.State, v': View, t: T.TimerId)
    decreases |run|
  {
    if run == [] then s' == s && v' == v
    else Can(s, run[0], t)
         && Runs(TimersAfter(s, v, run[0], t), ViewAfter(s, v, run[0], t), run[1..], s', v', t)
  }

  /** The actions of the protocol in a joint run. */
  ghost function Timers(s: T.State, v: View, run: seq<Joint>, s': T.State, v': View, t: T.TimerId): seq<T.Action>
    requires Runs(s, v, run, s', v', t)
    decreases |run|
  {
    if run == [] then []
    else ActionsOf(s, v, run[0], t)
         + Timers(TimersAfter(s, v, run[0], t), ViewAfter(s, v, run[0], t), run[1..], s', v', t)
  }

  /** All profiler steps of a joint run. */
  ghost function AllSteps(s: T.State, v: View, run: seq<Joint>, s': T.State, v': View, t: T.TimerId): seq<Step>
    requires Runs(s, v, run, s', v', t)
    decreases |run|
  {
    if run == [] then []
    else StepsOf(s, run[0], t)
         + AllSteps(TimersAfter(s, v, run[0], t), ViewAfter(s, v, run[0], t), run[1..], s', v', t)
  }

  lemma {:induction false} RunSteps(s: T.State, v: View, run: seq<Joint>, s': T.State, v': View, t: T.TimerId)
    requires Runs(s, v, run, s', v', t)
    ensures v' == SteppedAll(v, AllSteps(s, v, run, s', v', t))
    decreases |run|
  {
    if run != [] {
      var s1, v1 := TimersAfter(s, v, run[0], t), ViewAfter(s, v, run[0], t);
      RunSteps(s1, v1, run[1..], s', v', t);
      SteppedConcat(v, StepsOf(s, run[0], t), AllSteps(s1, v1, run[1..], s', v', t));
    }
  }

  // ------------------------------------------------------------- the laws of rotation

  /** The list of actions that a joint run amounts to for the profiler. */
  ghost function Script(s: T.State, v: View, run: seq<Joint>, s': T.State, v': View, t: T.TimerId): seq<Action>
    requires Runs(s, v, run, s', v', t)
  {
    QuietAll(AllSteps(s, v, run, s', v', t))
  }

  /** Every joint run has, for the profiler, the effect of a list of actions. */
  lemma RunIsScript(s: T.State, v: View, run: seq<Joint>, s': T.State, v': View, t: T.TimerId)
    requires Runs(s, v, run, s', v', t)
    ensures v' == Performed(v, Script(s, v, run, s', v', t))
  {
    RunSteps(s, v, run, s', v', t);
    SteppedIsPerformed(v, AllSteps(s, v, run, s', v', t));
  }

  /** Nothing is lost, duplicated or reordered, and nothing is taken back. */
  lemma RunSound(s: T.State, v: View, run: seq<Joint>, s': T.State, v': View, t: T.TimerId)
    requires Runs(s, v, run, s', v', t)
    ensures Sound(v) ==> Sound(v')
    ensures Grows(v, v')
  {
    RunIsScript(s, v, run, s', v', t);
    if Sound(v) {
      PerformedSound(v, Script(s, v, run, s', v', t));
    }
    PerformedGrows(v, Script(s, v, run, s', v', t));
  }

  /** The flush callback stays callable and set. */
  predicate KeptBy(j: Joint) {
    match j
    case ByTimer(_, _, _, callable, _) => callable
    case ByUser(st) => KeepsIn(Quiet(st))
  }

  lemma {:induction false} ScriptKeeps(s: T.State, v: View, run: seq<Joint>, s': T.State, v': View, t: T.TimerId)
    requires Runs(s, v, run, s', v', t) && forall i | 0 <= i < |run| :: KeptBy(run[i])
    ensures forall i | 0 <= i < |Script(s, v, run, s', v', t)| :: KeepsIn(Script(s, v, run, s', v', t)[i])
    decreases |run|
  {
    if run != [] {
      var s1, v1, steps := TimersAfter(s, v, run[0], t), ViewAfter(s, v, run[0], t), StepsOf(s, run[0], t);
      ScriptKeeps(s1, v1, run[1..], s', v', t);
      assert steps != [] ==> KeepsIn(Quiet(steps[0]));
      ScriptUnfolds(s, v, run, s', v', t);
    }
  }

  lemma ScriptUnfolds(s: T.State, v: View, run: seq<Joint>, s': T.State, v': View, t: T.TimerId)
    requires Runs(s, v, run, s', v', t) && run != []
    ensures Script(s, v, run, s', v', t)
         == QuietAll(StepsOf(s, run[0], t))
            + Script(TimersAfter(s, v, run[0], t), ViewAfter(s, v, run[0], t), run[1..], s', v', t)
  {
  }

  /** As long as the callback is kept, every rotated log is passed to it. */
  lemma RunHanded(s: T.State, v: View, run: seq<Joint>, s': T.State, v': View, t: T.TimerId)
    requires Runs(s, v, run, s', v', t) && AllHanded(v) && forall i | 0 <= i < |run| :: KeptBy(run[i])
    ensures AllHanded(v')
  {
    RunIsScript(s, v, run, s', v', t);
    ScriptKeeps(s, v, run, s', v', t);
    PerformedHanded(v, Script(s, v, run, s', v', t));
  }

  predicate LimitKeptBy(j: Joint) {
    j.ByUser? ==> Unset(Quiet(j.step))
  }

  lemma {:induction false} ScriptUnset(s: T.State, v: View, run: seq<Joint>, s': T.State, v': View, t: T.TimerId)
    requires Runs(s, v, run, s', v', t) && forall i | 0 <= i < |run| :: LimitKeptBy(run[i])
    ensures forall i | 0 <= i < |Script(s, v, run, s', v', t)| :: Unset(Script(s, v, run, s', v', t)[i])
    decreases |run|
  {
    if run != [] {
      var s1, v1, steps := TimersAfter(s, v, run[0], t), ViewAfter(s, v, run[0], t), StepsOf(s, run[0], t);
      ScriptUnset(s1, v1, run[1..], s', v', t);
      assert steps != [] ==> Unset(Quiet(steps[0]));
      ScriptUnfolds(s, v, run, s', v', t);
    }
  }

  /** While the size limit stays at n, no log has more than n samples. */
  lemma RunCapped(s: T.State, v: View, run: seq<Joint>, s': T.State, v': View, t: T.TimerId, n: nat, k: nat)
    requires Runs(s, v, run, s', v', t) && Capped(v, n, k) && forall i | 0 <= i < |run| :: LimitKeptBy(run[i])
    ensures Capped(v', n, k)
  {
    RunIsScript(s, v, run, s', v', t);
    ScriptUnset(s, v, run, s', v', t);
    PerformedCapped(v, Script(s, v, run, s', v', t), n, k);
  }

  // ----------------------------------------------------------------- the running flag

  lemma OneStep(v: View, steps: seq<Step>)
    requires |steps| <= 1
    ensures SteppedAll(v, steps) == if steps == [] then v else Stepped(v, steps[0])
  {
    if steps != [] {
      assert steps[1..] == [];
    }
  }

  /** What a step does to the running flag. */
  lemma RunningAfter(v: View, st: Step)
    requires !(st.SetStep? && st.setting.Stop?)
    ensures Stepped(v, st).running
         == if st.SetStep? && st.setting.Start? then st.setting.running
            else v.running && !(Fails(v, st) && st.stopped)
  {
  }

  /** A stop that succeeds ends the running of a timer, and disarms it. */
  lemma StopEffect(s: T.State, t: T.TimerId, ok: bool)
    requires T.Inv(s) && T.Enabled(s, T.Stop(t, ok))
    ensures var tm, tm' := s.timers[t], T.Apply(s, T.Stop(t, ok)).timers[t];
            && tm'.running == (tm.running && !ok)
            && tm'.valid == tm.valid
            && (ok && tm.valid ==> !tm'.armed)
  {
    assert T.TimerOk(s.timers[t], t in s.queue, s.StageOf(t));
  }

  lemma DispatchRuns(s: T.State, j: Joint, t: T.TimerId)
    requires T.Inv(s) && Can(s, j, t)
    ensures T.Inv(Dispatched(s, j, t)) && t in Dispatched(s, j, t).timers
    ensures var steps := StepsOf(s, j, t);
            Dispatched(s, j, t).timers[t].running
            == if steps != [] && steps[0].SetStep? && steps[0].setting.Start? then steps[0].setting.running
               else s.timers[t].running
  {
    if j.ByTimer? {
      T.StepKeepsInv(s, j.action);
    }
  }

  /** The profiler's flag and the timer's is_running agree. */
  lemma TiedStep(s: T.State, v: View, j: Joint, t: T.TimerId)
    requires T.Inv(s) && Can(s, j, t) && v.running == s.timers[t].running
    ensures T.Inv(TimersAfter(s, v, j, t))
    ensures ViewAfter(s, v, j, t).running == TimersAfter(s, v, j, t).timers[t].running
  {
    var steps := StepsOf(s, j, t);
    OneStep(v, steps);
    DispatchRuns(s, j, t);
    StopEnabled(s, v, j, t);
    if steps != [] {
      RunningAfter(v, steps[0]);
      if Fails(v, steps[0]) {
        StopEffect(Dispatched(s, j, t), t, steps[0].stopped);
        T.StepKeepsInv(Dispatched(s, j, t), T.Stop(t, steps[0].stopped));
      }
    }
  }

  lemma {:induction false} RunTied(s: T.State, v: View, run: seq<Joint>, s': T.State, v': View, t: T.TimerId)
    requires T.Inv(s) && t in s.timers && Runs(s, v, run, s', v', t) && v.running == s.timers[t].running
    ensures T.Inv(s') && t in s'.timers && v'.running == s'.timers[t].running
    decreases |run|
  {
    if run != [] {
      TiedStep(s, v, run[0], t);
      RunTied(TimersAfter(s, v, run[0], t), ViewAfter(s, v, run[0], t), run[1..], s', v', t);
    }
  }

  /** A flush with an uncallable callback stops the profiler: unless the kernel refuses,
  its timer is no longer running, and is disarmed if it is still valid. */
  lemma FailedFlushStops(s: T.State, v: View, j: Joint, t: T.TimerId)
    requires T.Inv(s) && Can(s, j, t) && StopsTimer(s, v, j, t) && StepsOf(s, j, t)[0].stopped
    ensures var tm := TimersAfter(s, v, j, t).timers[t]; !tm.running && (tm.valid ==> !tm.armed)
  {
    DispatchRuns(s, j, t);
    StopEnabled(s, v, j, t);
    StopEffect(Dispatched(s, j, t), t, true);
  }

  // ------------------------------------------------------------ dispatched is recorded

  function Counts(samples: seq<Sample>): (r: seq<nat>)
    ensures |r| == |samples| && forall i | 0 <= i < |r| :: r[i] == samples[i].eventCount
  {
    seq(|samples|, i requires 0 <= i < |samples| => samples[i].eventCount)
  }

  /** What one joint action records. */
  lemma StepRecords(s: T.State, v: View, j: Joint, t: T.TimerId)
    requires Can(s, j, t)
    ensures Counts(ViewAfter(s, v, j, t).recorded)
         == Counts(v.recorded) + if j.ByTimer? then Theorems.DeliveredBy(s, j.action, t) else []
  {
    var steps := StepsOf(s, j, t);
    OneStep(v, steps);
    if j.ByTimer? && j.action.Dequeue? && s.queue[0] == t {
      var sample := Sample(j.stack, v.maxDepth, s.timers[t].eventCount, j.now);
      assert Stepped(v, steps[0]).recorded == v.recorded + [sample];
      assert Counts(v.recorded + [sample]) == Counts(v.recorded) + [sample.eventCount];
    }
  }

  lemma OneAction(s: T.State, a: T.Action, t: T.TimerId)
    requires T.Enabled(s, a)
    ensures Theorems.Runs(s, [a], T.Apply(s, a))
    ensures Theorems.Delivered(s, [a], T.Apply(s, a), t) == Theorems.DeliveredBy(s, a, t)
  {
    assert [a][1..] == [];
    assert Theorems.Runs(T.Apply(s, a), [a][1..], T.Apply(s, a));
  }

  lemma DispatchedRun(s: T.State, j: Joint, t: T.TimerId)
    requires Can(s, j, t)
    ensures var a := if j.ByTimer? then [j.action] else [];
            && Theorems.Runs(s, a, Dispatched(s, j, t))
            && Theorems.Delivered(s, a, Dispatched(s, j, t), t)
               == if j.ByTimer? then Theorems.DeliveredBy(s, j.action, t) else []
  {
    if j.ByTimer? {
      OneAction(s, j.action, t);
    }
  }

  /** What one joint action dispatches. */
  lemma StepDelivers(s: T.State, v: View, j: Joint, t: T.TimerId)
    requires Can(s, j, t)
    ensures Theorems.Runs(s, ActionsOf(s, v, j, t), TimersAfter(s, v, j, t))
    ensures Theorems.Delivered(s, ActionsOf(s, v, j, t), TimersAfter(s, v, j, t), t)
         == if j.ByTimer? then Theorems.DeliveredBy(s, j.action, t) else []
  {
    DispatchedRun(s, j, t);
    StopEnabled(s, v, j, t);
    var first, s1 := if j.ByTimer? then [j.action] else [], Dispatched(s, j, t);
    if StopsTimer(s, v, j, t) {
      var stop := T.Stop(t, StepsOf(s, j, t)[0].stopped);
      OneAction(s1, stop, t);
      Theorems.DeliveredConcat(s, first, s1, [stop], T.Apply(s1, stop), t);
    } else {
      assert first + [] == first;
    }
  }

  /** Under every interleaving, including drains nested in flush callbacks, the
  profiler records exactly the counts that the protocol dispatches, in order. */
  lemma {:induction false} RecordedIsDelivered(s: T.State, v: View, run: seq<Joint>, s': T.State, v': View,
                                               t: T.TimerId)
    requires Runs(s, v, run, s', v', t)
    ensures Theorems.Runs(s, Timers(s, v, run, s', v', t), s')
    ensures Counts(v'.recorded)
         == Counts(v.recorded) + Theorems.Delivered(s, Timers(s, v, run, s', v', t), s', t)
    decreases |run|
  {
    if run != [] {
      var s1, v1 := TimersAfter(s, v, run[0], t), ViewAfter(s, v, run[0], t);
      var first, rest := ActionsOf(s, v, run[0], t), Timers(s1, v1, run[1..], s', v', t);
      StepRecords(s, v, run[0], t);
      StepDelivers(s, v, run[0], t);
      RecordedIsDelivered(s1, v1, run[1..], s', v', t);
      Theorems.DeliveredConcat(s, first, s1, rest, s', t);
      Theorems.Associative(Counts(v.recorded),
                           Theorems.Delivered(s, first, s1, t), Theorems.Delivered(s1, rest, s', t));
    }
  }

  /** The sample that a joint action dispatches to the profiler: the stack and the time
  of the dispatch, and the count that the protocol took from the timer. */
  function DispatchOf(s: T.State, j: Joint, t: T.TimerId, depth: int): seq<Sample>
    requires Can(s, j, t)
  {
    if j.ByTimer? && j.action.Dequeue? && s.queue[0] == t
    then [Sample(j.stack, depth, s.timers[t].eventCount, j.now)] else []
  }

  /** The depth limit in force after a joint action. */
  function DepthAfter(j: Joint, depth: int): int {
    if j.ByUser? && j.step.SetStep? && j.step.setting.MaxDepth? then j.step.setting.depth else depth
  }

  ghost function Dispatches(s: T.State, v: View, run: seq<Joint>, s': T.State, v': View, t: T.TimerId, depth: int)
    : seq<Sample>
    requires Runs(s, v, run, s', v', t)
    decreases |run|
  {
    if run == [] then []
    else DispatchOf(s, run[0], t, depth)
         + Dispatches(TimersAfter(s, v, run[0], t), ViewAfter(s, v, run[0], t), run[1..], s', v', t,
                      DepthAfter(run[0], depth))
  }

  /** What a profiler step records, and the depth limit after it. */
  lemma SteppedSample(v: View, st: Step)
    ensures Stepped(v, st).recorded
         == v.recorded + if st.EventStep? then [Sample(st.stack, v.maxDepth, st.count, st.now)] else []
    ensures Stepped(v, st).maxDepth
         == if st.SetStep? && st.setting.MaxDepth? then st.setting.depth else v.maxDepth
  {
  }

  lemma StepsOfDispatch(s: T.State, j: Joint, t: T.TimerId, depth: int)
    requires Can(s, j, t)
    ensures var steps := StepsOf(s, j, t);
            && DispatchOf(s, j, t, depth)
               == (if steps != [] && steps[0].EventStep?
                   then [Sample(steps[0].stack, depth, steps[0].count, steps[0].now)] else [])
            && DepthAfter(j, depth)
               == (if steps != [] && steps[0].SetStep? && steps[0].setting.MaxDepth? then steps[0].setting.depth
                   else depth)
  {
  }

  lemma StepRecordsSample(s: T.State, v: View, j: Joint, t: T.TimerId)
    requires Can(s, j, t)
    ensures ViewAfter(s, v, j, t).recorded == v.recorded + DispatchOf(s, j, t, v.maxDepth)
    ensures ViewAfter(s, v, j, t).maxDepth == DepthAfter(j, v.maxDepth)
  {
    var steps := StepsOf(s, j, t);
    OneStep(v, steps);
    StepsOfDispatch(s, j, t, v.maxDepth);
    if steps != [] {
      SteppedSample(v, steps[0]);
    }
  }

  lemma AppendSamples(a: seq<Sample>, b: seq<Sample>, c: seq<Sample>)
    ensures (a + b) + c == a + (b + c)
  {
  }

  /** Under every interleaving, the profiler records exactly what is dispatched to it:
  every sample has the stack and the time of its dispatch, the count that the
  protocol took from the timer, and the depth limit last set. */
  lemma {:induction false} RecordedIsDispatched(s: T.State, v: View, run: seq<Joint>, s': T.State, v': View,
                                                t: T.TimerId)
    requires Runs(s, v, run, s', v', t)
    ensures v'.recorded == v.recorded + Dispatches(s, v, run, s', v', t, v.maxDepth)
    decreases |run|
  {
    if run != [] {
      var s1, v1 := TimersAfter(s, v, run[0], t), ViewAfter(s, v, run[0], t);
      StepRecordsSample(s, v, run[0], t);
      RecordedIsDispatched(s1, v1, run[1..], s', v', t);
      AppendSamples(v.recorded, DispatchOf(s, run[0], t, v.maxDepth),
                    Dispatches(s1, v1, run[1..], s', v', t, v1.maxDepth));
    }
  }
}
