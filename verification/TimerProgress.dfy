/** When a queued timer can be dispatched: from which states the VM thread can get
to the queue without any help from the outside. */
module TimerProgress {
  import opened TimerProtocol
  import opened TimerTheorems
  import opened TimerLifecycle

  /** No pthread call fails. */
  predicate Smooth(a: Action) {
    !(a.AwaitReady? && !a.ok) && !(a.SendSignal? && !a.ok) && !(a.JoinThread? && !a.ok)
  }

  /** Smooth, and nothing new is begun: no call of user code into a timer, no
  expiration or signal from the kernel, no interrupt raised by others. */
  predicate Finishing(a: Action) {
    && Smooth(a)
    && !a.Init? && !a.Start? && !a.Stop? && !a.Destroy?
    && !a.Expire? && !a.Stray? && !a.RaiseInterrupt?
  }

  predicate Ending(stage: Stage) {
    stage.Kill? || stage.Signal? || stage.Join?
  }

  predicate AllSmooth(run: seq<Action>) {
    run == [] || (Smooth(run[0]) && AllSmooth(run[1..]))
  }

  predicate AllFinishing(run: seq<Action>) {
    run == [] || (Finishing(run[0]) && AllFinishing(run[1..]))
  }

  /** The VM thread has begun to end a handler that waits for a ready_mutex which a
  failed pthread_cond_wait left locked. */
  predicate Hung(s: State) {
    && s.vm != [] && s.vm[|s.vm| - 1].Work? && Ending(s.vm[|s.vm| - 1].stage)
    && Current(s) in s.timers && s.timers[Current(s)].thread.held
  }

  // ------------------------------------------------------------- towards the queue

  /** An upper bound on the steps to the head of a drain. */
  function Distance(s: State): nat {
    if s.vm == [] then (if s.vmInterrupt then 1 else 2)
    else match s.vm[|s.vm| - 1]
      case Drain => 0
      case Callback(_) => 1
      case Work(t, stage) => WorkLeft(stage, if t in s.timers then s.timers[t].thread.pc else NoThread)
  }

  function WorkLeft(stage: Stage, pc: Pc): nat {
    match stage
    case WaitReady => 10 + if pc.Starting? then 2 else if pc.TidSet? then 1 else 0
    case Kill(_) => 13
    case Signal(_) => 12
    case Join(_) => 6 + Rank(pc)
    case Delete(_) => 5
    case Unlink => 4
    case MakeTimer => 3
    case Idle => 3
  }

  /** A step of the VM thread's current init or destroy, or of the handler it waits
  for. */
  function WorkAction(s: State): Action
    requires s.vm != [] && s.vm[|s.vm| - 1].Work? && Current(s) in s.timers
  {
    var th := s.timers[Current(s)].thread;
    var handler := Handler(Current(s), th.pendingExpiry, 0);
    match s.vm[|s.vm| - 1].stage
    case WaitReady => if th.ready then AwaitReady(true) else handler
    case MakeTimer => CreateTimer(true)
    case Kill(_) => SetKilled
    case Signal(_) => SendSignal(true, false)
    case Join(_) => if th.pc.Exited? then JoinThread(true) else handler
    case Delete(_) => DeleteTimer(true)
    case Unlink => UnlinkTimer
    case Idle => handler
  }

  /** The action finishes something and brings the VM thread closer to the queue. */
  predicate Nearer(s: State, a: Action) {
    && Enabled(s, a) && Finishing(a)
    && !Hung(Apply(s, a)) && Distance(Apply(s, a)) < Distance(s)
  }

  /** The VM thread is at this stage for a known timer, called from user code. */
  predicate At(s: State, stage: Stage) {
    && s.Working(stage) && Current(s) in s.timers
    && (|s.vm| == 1 || s.vm[|s.vm| - 2].Callback?)
  }

  lemma WorkIsAt(s: State)
    requires Inv(s) && s.vm != [] && s.vm[|s.vm| - 1].Work?
    ensures At(s, s.vm[|s.vm| - 1].stage) && !s.vm[|s.vm| - 1].stage.Idle?
    ensures TimerOk(s.timers[Current(s)], Current(s) in s.queue, s.vm[|s.vm| - 1].stage)
  {
    assert s.StageOf(Current(s)) == s.vm[|s.vm| - 1].stage;
    if |s.vm| > 1 {
      assert s.vm[|s.vm| - 2].Callback?;
    }
  }

  lemma WaitProgress(s: State, queued: bool)
    requires At(s, WaitReady) && TimerOk(s.timers[Current(s)], queued, WaitReady)
    ensures Nearer(s, WorkAction(s))
  {
  }

  lemma MakeProgress(s: State)
    requires At(s, MakeTimer)
    ensures Nearer(s, WorkAction(s))
  {
  }

  lemma KillProgress(s: State, forInit: bool)
    requires At(s, Kill(forInit)) && s.timers[Current(s)].threadValid && !s.timers[Current(s)].thread.held
    ensures Nearer(s, WorkAction(s))
  {
  }

  lemma SignalProgress(s: State, forInit: bool)
    requires At(s, Signal(forInit)) && !s.timers[Current(s)].thread.held
    ensures Nearer(s, WorkAction(s))
  {
  }

  lemma JoinProgress(s: State, forInit: bool)
    requires At(s, Join(forInit)) && s.timers[Current(s)].thread.pc.Exited?
    requires !s.timers[Current(s)].thread.held
    ensures Nearer(s, WorkAction(s))
  {
  }

  lemma ExitingProgress(s: State, forInit: bool)
    requires At(s, Join(forInit))
    requires var th := s.timers[Current(s)].thread;
             th.Alive() && th.killed && !th.held && (th.pc.Waiting? ==> th.Signalled())
    ensures Nearer(s, WorkAction(s))
  {
    var th := s.timers[Current(s)].thread;
    KilledThreadStep(th, th.pendingExpiry, 0);
    HandlerMoves(s, Current(s), th.pendingExpiry);
  }

  lemma HandlerMoves(s: State, t: TimerId, fromTimer: bool)
    requires Enabled(s, Handler(t, fromTimer, 0))
    ensures var s' := Apply(s, Handler(t, fromTimer, 0));
            && s'.vm == s.vm && t in s'.timers
            && s'.timers[t].thread == ThreadStep(s.timers[t].thread, fromTimer, 0)
  {
  }

  lemma DeleteProgress(s: State, forInit: bool)
    requires At(s, Delete(forInit))
    ensures Nearer(s, WorkAction(s))
  {
  }

  lemma UnlinkProgress(s: State)
    requires At(s, Unlink)
    ensures Nearer(s, WorkAction(s))
  {
  }

  lemma WorkProgress(s: State)
    requires Inv(s) && !Hung(s) && s.vm != [] && s.vm[|s.vm| - 1].Work?
    ensures Current(s) in s.timers && Nearer(s, WorkAction(s))
  {
    WorkIsAt(s);
    match s.vm[|s.vm| - 1].stage
    case WaitReady => WaitProgress(s, Current(s) in s.queue);
    case MakeTimer => MakeProgress(s);
    case Kill(forInit) => KillProgress(s, forInit);
    case Signal(forInit) => SignalProgress(s, forInit);
    case Join(forInit) =>
      if s.timers[Current(s)].thread.pc.Exited? {
        JoinProgress(s, forInit);
      } else {
        ExitingProgress(s, forInit);
      }
    case Delete(forInit) => DeleteProgress(s, forInit);
    case Unlink => UnlinkProgress(s);
  }

  /** From user code with a non-empty queue, the way to the queue is open. */
  lemma UserProgress(s: State) returns (a: Action)
    requires Inv(s) && s.UserCode() && s.queue != []
    ensures Nearer(s, a) && !a.Dequeue?
  {
    if s.vm != [] {
      a := CallbackReturn;
      assert s.vm[|s.vm| - 2].Drain?;
    } else if s.vmInterrupt {
      a := Interrupt;
    } else {
      var t :| t in s.timers && s.timers[t].thread.pc.Storing?;
      a := Handler(t, false, 0);
    }
  }

  /** An action that is not about t leaves it in the queue. */
  lemma StaysQueued(s: State, a: Action, t: TimerId)
    requires Inv(s) && Enabled(s, a) && t in s.queue && s.StageOf(t) == Idle && Finishing(a) && !a.Dequeue?
    ensures t in Apply(s, a).queue && Apply(s, a).StageOf(t) == Idle
  {
    QueueKept(s, a);
    StageKept(s, a, t);
  }

  lemma StepTowards(s: State, t: TimerId) returns (a: Action)
    requires Inv(s) && t in s.queue && s.StageOf(t) == Idle && !Hung(s) && !s.AtDrain()
    ensures Nearer(s, a) && !a.Dequeue?
    ensures Inv(Apply(s, a)) && t in Apply(s, a).queue && Apply(s, a).StageOf(t) == Idle
  {
    if s.UserCode() {
      a := UserProgress(s);
    } else {
      WorkProgress(s);
      a := WorkAction(s);
    }
    StaysQueued(s, a, t);
    StepKeepsInv(s, a);
  }

  lemma {:induction false} DispatchesFinish(run: seq<Action>)
    requires OnlyDispatches(run)
    ensures AllFinishing(run)
  {
    if run != [] {
      DispatchesFinish(run[1..]);
    }
  }

  lemma {:induction false} DispatchRun(s: State, t: TimerId) returns (run: seq<Action>, s': State)
    requires Inv(s) && t in s.queue && s.StageOf(t) == Idle && !Hung(s)
    ensures Runs(s, run, s') && t in Dispatched(s, run, s')
    ensures AllFinishing(run)
    decreases Distance(s)
  {
    if s.AtDrain() {
      run, s' := DrainEmpties(s);
      DispatchesFinish(run);
    } else {
      var a := StepTowards(s, t);
      run, s' := DispatchRun(Apply(s, a), t);
      DispatchedCons(s, a, run, s');
      assert ([a] + run)[1..] == run;
      run := [a] + run;
    }
  }

  // --------------------------------------------------------------------- the obstacles

  /** While it is hung, the VM thread can only go on to the join. */
  lemma HungMove(s: State, a: Action)
    requires Hung(s) && Enabled(s, a) && Smooth(a) && (Kills(s) ==> s.timers[Current(s)].threadValid)
    requires !s.timers[Current(s)].thread.pc.Exited?
    ensures !a.Dequeue? && !a.Init? && !a.AwaitReady?
    ensures MoveOf(s, a).Stay? || (MoveOf(s, a).Proceed? && Ending(MoveOf(s, a).stage))
  {
  }

  predicate Kills(s: State) {
    s.vm != [] && s.vm[|s.vm| - 1].Work? && s.vm[|s.vm| - 1].stage.Kill?
  }

  lemma HungFacts(s: State)
    requires Inv(s) && Hung(s)
    ensures !s.timers[Current(s)].thread.pc.Exited? && (Kills(s) ==> s.timers[Current(s)].threadValid)
  {
    assert TimerOk(s.timers[Current(s)], Current(s) in s.queue, s.StageOf(Current(s)));
  }

  lemma HungStep(s: State, a: Action)
    requires Inv(s) && Hung(s) && Enabled(s, a) && Smooth(a)
    ensures Hung(Apply(s, a)) && !a.Dequeue?
  {
    HungFacts(s);
    HungMove(s, a);
    HeldKept(s, a, Current(s));
  }

  /** A VM thread that is hung stays so and dispatches nothing. */
  lemma {:induction false} HungDispatchesNothing(s: State, run: seq<Action>, s': State)
    requires Inv(s) && Hung(s) && Runs(s, run, s') && AllSmooth(run)
    ensures Hung(s') && Dispatched(s, run, s') == []
    decreases |run|
  {
    if run != [] {
      HungStep(s, run[0]);
      StepKeepsInv(s, run[0]);
      HungDispatchesNothing(Apply(s, run[0]), run[1..], s');
    }
  }

  /** t is being destroyed without any failure so far, or is gone. */
  predicate Going(s: State, t: TimerId) {
    Leaving(s, t) || Quiet(s, t)
  }

  lemma GoingStep(s: State, a: Action, t: TimerId)
    requires Inv(s) && Going(s, t) && Enabled(s, a) && Smooth(a) && !(a.Init? && a.id == t)
    ensures Going(Apply(s, a), t)
    ensures a.Dequeue? ==> s.queue[0] != t
  {
    if Quiet(s, t) {
      QuietStep(s, a, t);
    } else {
      LeavingStep(s, a, t);
    }
  }

  /** The VM thread is destroying t. */
  predicate Leaving(s: State, t: TimerId) {
    t in s.timers && s.timers[t].valid && !s.timers[t].leaked && !s.StageOf(t).Idle?
  }

  lemma LeavingStep(s: State, a: Action, t: TimerId)
    requires Inv(s) && Enabled(s, a) && Smooth(a) && Leaving(s, t)
    ensures Going(Apply(s, a), t) && !a.Dequeue?
  {
    if a.UnlinkTimer? {
      LastStep(s, t);
    } else {
      MiddleStep(s, a, t);
    }
  }

  lemma MiddleStep(s: State, a: Action, t: TimerId)
    requires StackOk(s.vm, s.timers.Keys) && TimersOk(s)
    requires Enabled(s, a) && Smooth(a) && Leaving(s, t) && !a.UnlinkTimer?
    ensures Leaving(Apply(s, a), t)
  {
    StageKept(s, a, t);
    TimerKept(s, a, t);
    if Touches(a) && Touched(s, a) == t {
      TouchedLeaving(s, a);
    }
  }

  lemma TimerKept(s: State, a: Action, t: TimerId)
    requires Enabled(s, a) && t in s.timers
    ensures var tm := s.timers[t];
            Apply(s, a).timers[t] == if Touches(a) && Touched(s, a) == t then TimerAfter(tm, a) else tm
  {
  }

  lemma TouchedLeaving(s: State, a: Action)
    requires TimersOk(s) && Enabled(s, a) && Smooth(a) && !a.UnlinkTimer? && Touches(a) && Leaving(s, Touched(s, a))
    ensures var tm := TimerAfter(s.timers[Touched(s, a)], a);
            tm.valid && !tm.leaked && !StageAfter(s, a).Idle?
  {
    var t := Touched(s, a);
    assert TimerOk(s.timers[t], t in s.queue, s.StageOf(t));
    NotYetIdle(s, a, t);
    StillLeaving(s.timers[t], a);
  }

  lemma NotYetIdle(s: State, a: Action, t: TimerId)
    requires Enabled(s, a) && !a.UnlinkTimer? && Touches(a) && Touched(s, a) == t && t in s.timers
    requires var stage := s.StageOf(t);
             !stage.Idle? && !stage.WaitReady? && !stage.MakeTimer? && stage != Delete(true)
    ensures !StageAfter(s, a).Idle? && !a.Dequeue? && !a.Init?
  {
  }

  lemma StillLeaving(tm: Timer, a: Action)
    requires tm.valid && !tm.leaked && Smooth(a) && !a.Init? && !a.UnlinkTimer?
    requires a.JoinThread? ==> tm.thread.pc.Exited?
    ensures TimerAfter(tm, a).valid && !TimerAfter(tm, a).leaked
  {
  }

  lemma LastStep(s: State, t: TimerId)
    requires Inv(s) && Leaving(s, t) && Enabled(s, UnlinkTimer)
    ensures Quiet(Apply(s, UnlinkTimer), t)
  {
    assert TimerOk(s.timers[t], t in s.queue, s.StageOf(t));
    StageKept(s, UnlinkTimer, t);
    QueueKept(s, UnlinkTimer);
  }

  lemma {:induction false} GoingIsNotDispatched(s: State, run: seq<Action>, s': State, t: TimerId)
    requires Inv(s) && Going(s, t) && Runs(s, run, s') && NoInit(run, t) && AllSmooth(run)
    ensures t !in Dispatched(s, run, s')
    decreases |run|
  {
    if run != [] {
      GoingStep(s, run[0], t);
      StepKeepsInv(s, run[0]);
      GoingIsNotDispatched(Apply(s, run[0]), run[1..], s', t);
    }
  }

  // ----------------------------------------------------------------- the exact condition

  /** Some run without failing pthread calls dispatches t before it is initialised
  again. */
  ghost predicate CanBeDispatched(s: State, t: TimerId) {
    exists run, s' :: Runs(s, run, s') && NoInit(run, t) && AllSmooth(run) && t in Dispatched(s, run, s')
  }

  lemma {:induction false} FinishingIsSmooth(run: seq<Action>, t: TimerId)
    requires AllFinishing(run)
    ensures NoInit(run, t) && AllSmooth(run)
  {
    if run != [] {
      FinishingIsSmooth(run[1..], t);
    }
  }

  /** In every reachable state a queued timer can be dispatched, and needs no help from
  the outside for it, unless it is being destroyed or the VM thread is hung. In
  these two cases it cannot. */
  lemma DispatchableIff(s0: State, run0: seq<Action>, s: State, t: TimerId)
    requires Initial(s0) && Runs(s0, run0, s) && t in s.queue
    requires s.StageOf(t) == Idle || (t in s.timers && !s.timers[t].leaked)
    ensures CanBeDispatched(s, t) <==> s.StageOf(t) == Idle && !Hung(s)
  {
    ReachableInv(s0, run0, s);
    if s.StageOf(t) == Idle && !Hung(s) {
      var run, s' := DispatchRun(s, t);
      FinishingIsSmooth(run, t);
    } else {
      forall run, s' | Runs(s, run, s') && NoInit(run, t) && AllSmooth(run)
        ensures t !in Dispatched(s, run, s')
      {
        if Hung(s) {
          HungDispatchesNothing(s, run, s');
        } else {
          TimerFacts(s, t);
          GoingIsNotDispatched(s, run, s', t);
        }
      }
    }
  }
}
