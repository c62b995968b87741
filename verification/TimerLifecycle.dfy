/** The end of a timer: how its handler thread exits, and what destroying it
guarantees. */
module TimerLifecycle {
  import opened TimerProtocol
  import opened TimerTheorems

  // ------------------------------------------------------------------ destroy safety

  predicate NoInit(run: seq<Action>, t: TimerId) {
    run == [] || (!(run[0].Init? && run[0].id == t) && NoInit(run[1..], t))
  }

  /** Outside of init and destroy, t is not valid: it has been destroyed, or it was
  never successfully initialised. */
  predicate Down(s: State, t: TimerId) {
    t in s.timers && !s.timers[t].valid && s.StageOf(t) == Idle
  }

  /** A timer that is down, is not queued, and whose handler can no longer tell. */
  predicate Quiet(s: State, t: TimerId) {
    Down(s, t) && t !in s.queue && !s.timers[t].thread.pc.Notifying?
  }

  lemma DownFacts(s: State, t: TimerId)
    requires Inv(s) && Down(s, t)
    ensures var tm := s.timers[t];
            && !tm.running && !tm.timerValid
            && (tm.thread.Alive() ==> tm.leaked && tm.thread.killed)
            && (t in s.queue ==> tm.leaked)
  {
    assert TimerOk(s.timers[t], t in s.queue, s.StageOf(t));
  }

  /** Destroying leaves a timer quiet, unless a pthread call failed for it. */
  lemma DestroyedIsQuiet(s0: State, run: seq<Action>, s: State, t: TimerId)
    requires Initial(s0) && Runs(s0, run, s) && Down(s, t) && !s.timers[t].leaked
    ensures Quiet(s, t) && !s.timers[t].thread.Alive()
  {
    ReachableInv(s0, run, s);
    DownFacts(s, t);
  }

  lemma DownStep(s: State, a: Action, t: TimerId)
    requires Inv(s) && Enabled(s, a) && Down(s, t)
    requires !(a.Init? && a.id == t)
    ensures Down(Apply(s, a), t)
  {
    StageKept(s, a, t);
  }

  /** A killed handler does not start another notification. */
  lemma KilledThreadStep(th: Thread, fromTimer: bool, overrun: nat)
    requires th.killed
    ensures !ThreadStep(th, fromTimer, overrun).pc.Notifying?
    ensures th.Alive() ==> Rank(ThreadStep(th, fromTimer, overrun).pc) + 1 == Rank(th.pc)
  {
  }

  /** Nobody but its own handler starts a notification. */
  lemma QuietPc(s: State, a: Action, t: TimerId)
    requires Inv(s) && Enabled(s, a) && Quiet(s, t)
    requires !(a.Init? && a.id == t)
    ensures !Apply(s, a).timers[t].thread.pc.Notifying?
  {
    DownFacts(s, t);
    if a.Handler? && a.id == t {
      KilledThreadStep(s.timers[t].thread, a.fromTimer, a.overrun);
    } else {
      PcKept(s, a, t);
    }
  }

  lemma QuietStep(s: State, a: Action, t: TimerId)
    requires Inv(s) && Enabled(s, a) && Quiet(s, t)
    requires !(a.Init? && a.id == t)
    ensures Quiet(Apply(s, a), t)
    ensures FiredBy(s, a, t) == [] && DeliveredBy(s, a, t) == []
  {
    DownStep(s, a, t);
    QuietPc(s, a, t);
    StaysOut(s, a, t);
  }

  lemma StaysOut(s: State, a: Action, t: TimerId)
    requires Inv(s) && Enabled(s, a) && t in s.timers && t !in s.queue && !s.timers[t].thread.pc.Notifying?
    ensures t !in QueueAfter(s, a)
  {
    QueueKept(s, a);
  }

  /** A quiet timer stays quiet until it is initialised again: it is never queued,
  never counted and never dispatched, whatever the other threads and the
  callbacks do. */
  lemma {:induction false} QuietForever(s: State, run: seq<Action>, s': State, t: TimerId)
    requires Inv(s) && Runs(s, run, s') && Quiet(s, t) && NoInit(run, t)
    ensures Inv(s') && Quiet(s', t)
    ensures Fired(s, run, s', t) == [] && Delivered(s, run, s', t) == []
    decreases |run|
  {
    if run != [] {
      QuietStep(s, run[0], t);
      StepKeepsInv(s, run[0]);
      QuietForever(Apply(s, run[0]), run[1..], s', t);
    }
  }

  /** Destroy safety: a timer that is down and for which no pthread call failed is
  out of the queue, its thread is gone, and no later run dispatches it before it
  is initialised again. */
  lemma DestroySafety(s0: State, run: seq<Action>, s: State, later: seq<Action>, s': State, t: TimerId)
    requires Initial(s0) && Runs(s0, run, s) && Runs(s, later, s')
    requires Down(s, t) && !s.timers[t].leaked && NoInit(later, t)
    ensures t !in s.queue && !s.timers[t].thread.Alive()
    ensures t !in s'.queue && Delivered(s, later, s', t) == []
  {
    ReachableInv(s0, run, s);
    DestroyedIsQuiet(s0, run, s, t);
    QuietForever(s, later, s', t);
  }

  ghost predicate CanBeQueued(s: State, t: TimerId) {
    exists run, s' :: NoInit(run, t) && Runs(s, run, s') && t in s'.queue
  }

  /** Without the assumption on pthread calls, destroying is unsafe in exactly one
  case: the handler was already past its killed check when it was given up. */
  lemma RequeuedIff(s: State, t: TimerId)
    requires Inv(s) && Down(s, t) && t !in s.queue
    ensures CanBeQueued(s, t) <==> s.timers[t].thread.pc.Notifying?
  {
    if s.timers[t].thread.pc.Notifying? {
      var a := Handler(t, false, 0);
      var s' := Apply(s, a);
      assert [a][1..] == [];
      assert Runs(s', [a][1..], s');
      assert Runs(s, [a], s');
      QueueKept(s, a);
      assert NoInit([a], t) && t in s'.queue;
    }
    if CanBeQueued(s, t) && !s.timers[t].thread.pc.Notifying? {
      var run, s' :| NoInit(run, t) && Runs(s, run, s') && t in s'.queue;
      QuietForever(s, run, s', t);
    }
  }

  /** The handler of t is past its killed check, and the VM thread is at a stage of
  t's destruction, above the stack vm. */
  predicate Doomed(s: State, t: TimerId, vm: seq<Task>, st: Stage) {
    && t in s.timers
    && s.vm == vm + [Work(t, st)]
    && s.timers[t].thread.pc.Notifying?
  }

  lemma DoomedStart(s: State, t: TimerId)
    requires Inv(s) && s.UserCode() && t in s.timers && s.timers[t].valid
    requires s.timers[t].thread.pc.Notifying?
    ensures Enabled(s, Destroy(t, true))
    ensures Doomed(Apply(s, Destroy(t, true)), t, s.vm, Kill(false))
    ensures Apply(s, Destroy(t, true)).timers[t].threadValid
  {
    assert TimerOk(s.timers[t], t in s.queue, s.StageOf(t));
  }

  lemma DoomedKill(s: State, t: TimerId, vm: seq<Task>)
    requires Doomed(s, t, vm, Kill(false)) && s.timers[t].threadValid
    ensures Enabled(s, SetKilled) && Doomed(Apply(s, SetKilled), t, vm, Signal(false))
  {
    PcKept(s, SetKilled, t);
  }

  lemma DoomedSignal(s: State, t: TimerId, vm: seq<Task>)
    requires Doomed(s, t, vm, Signal(false))
    ensures Enabled(s, SendSignal(false, false))
    ensures Doomed(Apply(s, SendSignal(false, false)), t, vm, Delete(false))
  {
    PcKept(s, SendSignal(false, false), t);
  }

  lemma DoomedDelete(s: State, t: TimerId, vm: seq<Task>)
    requires Doomed(s, t, vm, Delete(false))
    ensures Enabled(s, DeleteTimer(true)) && Doomed(Apply(s, DeleteTimer(true)), t, vm, Unlink)
  {
    PcKept(s, DeleteTimer(true), t);
  }

  lemma DoomedUnlink(s: State, t: TimerId, vm: seq<Task>)
    requires Inv(s) && Doomed(s, t, vm, Unlink)
    ensures Enabled(s, UnlinkTimer) && Down(Apply(s, UnlinkTimer), t)
    ensures t !in Apply(s, UnlinkTimer).queue && Apply(s, UnlinkTimer).timers[t].thread.pc.Notifying?
  {
    PcKept(s, UnlinkTimer, t);
    QueueKept(s, UnlinkTimer);
    StageKept(s, UnlinkTimer, t);
  }

  /** The unsafe case occurs whenever pthread_kill fails for a handler that is past
  its killed check: the timer is destroyed all the same, and can still be queued. */
  lemma FailedKillIsUnsafe(s: State, t: TimerId) returns (run: seq<Action>, s': State)
    requires Inv(s) && s.UserCode() && t in s.timers && s.timers[t].valid
    requires s.timers[t].thread.pc.Notifying?
    ensures Runs(s, run, s') && Inv(s') && Down(s', t) && t !in s'.queue && CanBeQueued(s', t)
  {
    var a := Destroy(t, true);
    DoomedStart(s, t);
    StepKeepsInv(s, a);
    var s1 := Apply(s, a);
    var run1;
    run1, s' := FinishUnsafely(s1, t, s.vm, Kill(false));
    run := [a] + run1;
    RunsCons(s, a, run1, s');
    RequeuedIff(s', t);
  }

  lemma FinishUnsafely(s: State, t: TimerId, vm: seq<Task>, st: Stage) returns (run: seq<Action>, s': State)
    requires Inv(s) && Doomed(s, t, vm, st)
    requires st == Kill(false) || st == Signal(false) || st == Delete(false) || st == Unlink
    requires st.Kill? ==> s.timers[t].threadValid
    ensures Runs(s, run, s') && Inv(s') && Down(s', t) && t !in s'.queue
    ensures s'.timers[t].thread.pc.Notifying?
    decreases if st.Kill? then 3 else if st.Signal? then 2 else if st.Delete? then 1 else 0
  {
    var a, next;
    if st.Kill? {
      a, next := SetKilled, Signal(false);
      DoomedKill(s, t, vm);
    } else if st.Signal? {
      a, next := SendSignal(false, false), Delete(false);
      DoomedSignal(s, t, vm);
    } else if st.Delete? {
      a, next := DeleteTimer(true), Unlink;
      DoomedDelete(s, t, vm);
    } else {
      a, next := UnlinkTimer, Idle;
      DoomedUnlink(s, t, vm);
    }
    StepKeepsInv(s, a);
    var rest := [];
    s' := Apply(s, a);
    if !next.Idle? {
      rest, s' := FinishUnsafely(s', t, vm, next);
    }
    run := [a] + rest;
    RunsCons(s, a, rest, s');
  }

  /** The steps by which a timer comes to have a handler past its killed check. */
  function UpAction(t: TimerId, n: nat): Action {
    if n == 0 then Init(t, true)
    else if n == 3 then AwaitReady(true)
    else if n == 4 then CreateTimer(true)
    else if n == 5 then Start(t, true)
    else if n == 6 then Expire(t, true)
    else Handler(t, n == 7, 0)
  }

  function UpPc(n: nat): Pc {
    if n == 0 then NoThread
    else if n == 1 then Starting
    else if n == 2 then TidSet
    else if n <= 7 then Waiting
    else if n == 8 then Received(true, 0)
    else Notifying(0)
  }

  /** The first n of these steps have been taken in a fresh process. */
  predicate UpTo(s: State, t: TimerId, n: nat) {
    && t in s.timers
    && s.vm == (if 1 <= n <= 3 then [Work(t, WaitReady)] else if n == 4 then [Work(t, MakeTimer)] else [])
    && s.timers[t].thread == Thread(UpPc(n), n >= 2, n >= 3, false, false, n == 7, 0)
    && s.timers[t].valid == (n >= 5)
    && s.timers[t].timerValid == (n >= 5)
    && !s.timers[t].leaked
    && (n == 6 ==> s.timers[t].armed)
  }

  lemma UpStep(s: State, t: TimerId, n: nat)
    requires UpTo(s, t, n) && n <= 8
    ensures Enabled(s, UpAction(t, n)) && UpTo(Apply(s, UpAction(t, n)), t, n + 1)
  {
  }

  lemma {:induction false} UpRun(s: State, t: TimerId, n: nat, m: nat) returns (run: seq<Action>, s': State)
    requires UpTo(s, t, n) && n <= m <= 9
    ensures Runs(s, run, s') && UpTo(s', t, m)
    decreases m - n
  {
    run, s' := [], s;
    if n < m {
      var a := UpAction(t, n);
      UpStep(s, t, n);
      run, s' := UpRun(Apply(s, a), t, n + 1, m);
      RunsCons(s, a, run, s');
      run := [a] + run;
    }
  }

  /** The unsafe case is reachable, for every timer of every process. */
  lemma UnsafeIsReachable(s0: State, t: TimerId) returns (run: seq<Action>, s: State)
    requires Initial(s0) && t in s0.timers
    ensures Runs(s0, run, s) && Down(s, t) && t !in s.queue && CanBeQueued(s, t)
  {
    var run1, s1 := UpRun(s0, t, 0, 9);
    ReachableInv(s0, run1, s1);
    var run2;
    run2, s := FailedKillIsUnsafe(s1, t);
    RunsConcat(s0, run1, s1, run2, s);
    run := run1 + run2;
  }

  // ------------------------------------------------------------------- graceful exit

  /** How many steps a killed handler has left. */
  function Rank(pc: Pc): nat {
    match pc
    case Starting => 4
    case TidSet => 3
    case Notifying(_) => 4
    case Storing => 3
    case Waiting => 2
    case Received(_, _) => 1
    case Exited => 0
    case NoThread => 0
  }

  lemma PcKept(s: State, a: Action, t: TimerId)
    requires Enabled(s, a) && t in s.timers && !((a.Init? || a.Handler?) && a.id == t)
    ensures Apply(s, a).timers[t].thread.pc == s.timers[t].thread.pc
  {
  }

  predicate Joining(s: State, t: TimerId) {
    t in s.timers && s.StageOf(t).Join?
  }

  ghost predicate CanStep(s: State, t: TimerId) {
    exists fromTimer, overrun :: Enabled(s, Handler(t, fromTimer, overrun))
  }

  /** The VM thread waits in pthread_join, so the handler has been killed and
  signalled. It has exited or can take a step, except when it waits for the
  ready_mutex that a failed pthread_cond_wait left locked. */
  lemma ExitProgress(s: State, t: TimerId)
    requires Inv(s) && Joining(s, t)
    ensures !s.timers[t].thread.pc.NoThread? && s.timers[t].thread.killed
    ensures s.timers[t].thread.pc.Exited? <==> Rank(s.timers[t].thread.pc) == 0
    ensures s.timers[t].thread.pc.Exited? <==> Enabled(s, JoinThread(true))
    ensures s.timers[t].thread.pc.Exited? || CanStep(s, t) <==> !s.timers[t].thread.Blocked()
  {
    var th := s.timers[t].thread;
    assert TimerOk(s.timers[t], t in s.queue, s.StageOf(t));
    if !th.pc.Exited? && !th.Blocked() {
      assert Enabled(s, Handler(t, th.pendingExpiry, 0));
    }
  }

  /** Every step of the killed handler brings it closer to its exit, and nothing
  that other threads or the kernel do takes it further away. */
  lemma ExitStep(s: State, a: Action, t: TimerId)
    requires Inv(s) && Joining(s, t) && Enabled(s, a) && !a.JoinThread?
    ensures Joining(Apply(s, a), t)
    ensures Rank(Apply(s, a).timers[t].thread.pc) + (if a.Handler? && a.id == t then 1 else 0)
         == Rank(s.timers[t].thread.pc)
    ensures |FiredBy(s, a, t)| + (if Apply(s, a).timers[t].thread.pc.Notifying? then 1 else 0)
         <= if s.timers[t].thread.pc.Notifying? then 1 else 0
  {
    StageKept(s, a, t);
    ExitProgress(s, t);
    if a.Handler? && a.id == t {
      KilledThreadStep(s.timers[t].thread, a.fromTimer, a.overrun);
    } else {
      PcKept(s, a, t);
    }
  }

  /** Nobody locks ready_mutex during the join. */
  lemma StillUnheld(s: State, a: Action, t: TimerId)
    requires Joining(s, t) && Enabled(s, a)
    ensures Apply(s, a).timers[t].thread.held == s.timers[t].thread.held
  {
    if Touches(a) && Touched(s, a) == t {
      assert !a.Init? && !a.AwaitReady?;
    } else {
      assert Apply(s, a).timers[t] == s.timers[t];
    }
  }

  predicate NoJoin(run: seq<Action>) {
    run == [] || (!run[0].JoinThread? && NoJoin(run[1..]))
  }

  function HandlerSteps(run: seq<Action>, t: TimerId): nat {
    if run == [] then 0
    else (if run[0].Handler? && run[0].id == t then 1 else 0) + HandlerSteps(run[1..], t)
  }

  /** Graceful exit: during the join the handler takes at most as many steps as its
  rank, which is at most 4, and has exited when it has taken them. Of these, at
  most one is a notification, and only if the handler was past its killed check
  when the join began. Expirations and other signals cannot prolong it, and it is
  never stuck unless a pthread_cond_wait failed. */
  lemma {:induction false} GracefulExit(s: State, run: seq<Action>, s': State, t: TimerId)
    requires Inv(s) && Joining(s, t) && Runs(s, run, s')
    requires NoJoin(run)
    ensures Inv(s') && Joining(s', t)
    ensures HandlerSteps(run, t) + Rank(s'.timers[t].thread.pc) == Rank(s.timers[t].thread.pc) <= 4
    ensures s'.timers[t].thread.pc.Exited? <==> HandlerSteps(run, t) == Rank(s.timers[t].thread.pc)
    ensures !s.timers[t].thread.held ==> s'.timers[t].thread.pc.Exited? || CanStep(s', t)
    ensures |Fired(s, run, s', t)| <= if s.timers[t].thread.pc.Notifying? then 1 else 0
    decreases |run|
  {
    if run == [] {
      ExitProgress(s, t);
    } else {
      ExitStep(s, run[0], t);
      StepKeepsInv(s, run[0]);
      StillUnheld(s, run[0], t);
      GracefulExit(Apply(s, run[0]), run[1..], s', t);
    }
  }

  // -------------------------------------------------------------- when the join returns

  lemma HeldKept(s: State, a: Action, t: TimerId)
    requires Inv(s) && Enabled(s, a) && t in s.timers && s.timers[t].thread.held
    ensures Apply(s, a).timers[t].thread.held
  {
    assert TimerOk(s.timers[t], t in s.queue, s.StageOf(t));
  }

  /** A handler without ready_mutex never exits, and its join never returns, in any
  run whatsoever. */
  lemma {:induction false} HeldForever(s: State, run: seq<Action>, s': State, t: TimerId)
    requires Inv(s) && Runs(s, run, s') && t in s.timers && s.timers[t].thread.held
    ensures Inv(s') && t in s'.timers && s'.timers[t].thread.held && s'.timers[t].thread.Alive()
    ensures Joining(s', t) ==> !Enabled(s', JoinThread(true))
    decreases |run|
  {
    if run == [] {
      assert TimerOk(s.timers[t], t in s.queue, s.StageOf(t));
    } else {
      HeldKept(s, run[0], t);
      StepKeepsInv(s, run[0]);
      HeldForever(Apply(s, run[0]), run[1..], s', t);
    }
  }

  ghost predicate CanJoin(s: State, t: TimerId) {
    exists run, s' :: NoJoin(run) && Runs(s, run, s') && Joining(s', t) && Enabled(s', JoinThread(true))
  }

  lemma {:induction false} ExitRun(s: State, t: TimerId) returns (run: seq<Action>, s': State)
    requires Inv(s) && Joining(s, t) && !s.timers[t].thread.held
    ensures NoJoin(run) && Runs(s, run, s') && Joining(s', t) && Enabled(s', JoinThread(true))
    decreases Rank(s.timers[t].thread.pc)
  {
    ExitProgress(s, t);
    run, s' := [], s;
    if !s.timers[t].thread.pc.Exited? {
      var fromTimer, overrun :| Enabled(s, Handler(t, fromTimer, overrun));
      var a := Handler(t, fromTimer, overrun);
      ExitStep(s, a, t);
      StillUnheld(s, a, t);
      StepKeepsInv(s, a);
      run, s' := ExitRun(Apply(s, a), t);
      RunsCons(s, a, run, s');
      assert ([a] + run)[1..] == run;
      run := [a] + run;
    }
  }

  /** The join can return if and only if no pthread_cond_wait failed for the timer. */
  lemma JoinReturnsIff(s: State, t: TimerId)
    requires Inv(s) && Joining(s, t)
    ensures CanJoin(s, t) <==> !s.timers[t].thread.held
  {
    if s.timers[t].thread.held {
      forall run, s' | NoJoin(run) && Runs(s, run, s') && Joining(s', t)
        ensures !Enabled(s', JoinThread(true))
      {
        HeldForever(s, run, s', t);
      }
    } else {
      var run, s' := ExitRun(s, t);
    }
  }

  function HangAction(t: TimerId, n: nat): Action {
    if n == 0 then Init(t, true)
    else if n == 1 then AwaitReady(false)
    else if n == 2 then SetKilled
    else SendSignal(true, false)
  }

  function HangStage(n: nat): Stage {
    if n == 1 then WaitReady else if n == 2 then Kill(true) else if n == 3 then Signal(true) else Join(true)
  }

  /** An initialisation whose wait failed, after n steps. */
  predicate HangingUpTo(s: State, t: TimerId, n: nat) {
    && t in s.timers
    && s.vm == (if n == 0 then [] else [Work(t, HangStage(n))])
    && !s.timers[t].valid && !s.timers[t].leaked && !s.timers[t].thread.ready
    && s.timers[t].threadValid == (1 <= n <= 2)
    && s.timers[t].thread.held == (n >= 2)
  }

  lemma HangStep(s: State, t: TimerId, n: nat)
    requires HangingUpTo(s, t, n) && n <= 3
    ensures Enabled(s, HangAction(t, n)) && HangingUpTo(Apply(s, HangAction(t, n)), t, n + 1)
  {
  }

  lemma {:induction false} HangRun(s: State, t: TimerId, n: nat) returns (run: seq<Action>, s': State)
    requires HangingUpTo(s, t, n) && n <= 4
    ensures Runs(s, run, s') && HangingUpTo(s', t, 4)
    decreases 4 - n
  {
    run, s' := [], s;
    if n < 4 {
      var a := HangAction(t, n);
      HangStep(s, t, n);
      run, s' := HangRun(Apply(s, a), t, n + 1);
      RunsCons(s, a, run, s');
      run := [a] + run;
    }
  }

  /** A failed pthread_cond_wait hangs excimer_timer_init: from every initial state
  there is a run into a join that no later run completes. */
  lemma FailedWaitHangs(s0: State, t: TimerId) returns (run: seq<Action>, s: State)
    requires Initial(s0) && t in s0.timers
    ensures Runs(s0, run, s) && Joining(s, t) && !CanJoin(s, t)
    ensures forall later, s' | Runs(s, later, s') :: Joining(s', t) ==> !Enabled(s', JoinThread(true))
  {
    run, s := HangRun(s0, t, 0);
    ReachableInv(s0, run, s);
    JoinReturnsIff(s, t);
    forall later, s' | Runs(s, later, s') ensures Joining(s', t) ==> !Enabled(s', JoinThread(true)) {
      HeldForever(s, later, s', t);
    }
  }

  // ---------------------------------------------------------------------------- stop

  /** In every reachable state outside its init and destroy, a timer that is not
  running is disarmed in the kernel, unless it was destroyed. */
  lemma StoppedIsDisarmed(s0: State, run: seq<Action>, s: State, t: TimerId)
    requires Initial(s0) && Runs(s0, run, s) && t in s.timers
    requires s.StageOf(t) == Idle && !s.timers[t].running
    ensures s.timers[t].armed ==> Down(s, t)
  {
    ReachableInv(s0, run, s);
    assert TimerOk(s.timers[t], t in s.queue, s.StageOf(t));
  }

  /** The kernel timer is armed although the timer has given it up. */
  predicate Orphaned(tm: Timer) {
    tm.armed && !tm.timerValid
  }

  /** timer_delete fails for t, whose kernel timer is armed because it could not be
  stopped either. */
  predicate FailsToDelete(s: State, a: Action, t: TimerId)
    requires Enabled(s, a)
  {
    a == DeleteTimer(false) && Current(s) == t && t in s.timers && s.timers[t].armed
  }

  /** The action ends what is left of t's kernel timer: its last expiration, or a new
  initialisation. */
  predicate EndsOrphan(a: Action, t: TimerId) {
    a == Expire(t, false) || (a.Init? && a.id == t)
  }

  predicate NeverEnds(run: seq<Action>, t: TimerId) {
    run == [] || (!EndsOrphan(run[0], t) && NeverEnds(run[1..], t))
  }

  /** At some point of the run timer_delete failed for t while it was armed, and
  nothing after it ended the kernel timer. */
  ghost predicate LeftArmed(s: State, run: seq<Action>, s': State, t: TimerId)
    requires Runs(s, run, s')
    decreases |run|
  {
    run != []
    && ((FailsToDelete(s, run[0], t) && NeverEnds(run[1..], t)) || LeftArmed(Apply(s, run[0]), run[1..], s', t))
  }

  /** The action fits the stage of the timer it is about. */
  predicate Fits(tm: Timer, a: Action, stage: Stage) {
    && (a.CreateTimer? ==> stage.MakeTimer?)
    && (a.Start? || a.Stop? || a.Destroy? ==> stage.Idle?)
    && (a.DeleteTimer? ==> stage.Delete?)
    && (a.Expire? ==> tm.armed)
  }

  lemma EnabledFits(s: State, a: Action)
    requires Enabled(s, a) && Touches(a)
    ensures Fits(s.timers[Touched(s, a)], a, s.StageOf(Touched(s, a)))
  {
  }

  lemma OrphanTimer(tm: Timer, a: Action, queued: bool, stage: Stage)
    requires TimerOk(tm, queued, stage) && Fits(tm, a, stage)
    ensures Orphaned(TimerAfter(tm, a))
       <==> (Orphaned(tm) && !a.Init? && !(a.Expire? && !a.periodic)) || (a == DeleteTimer(false) && tm.armed)
  {
  }

  lemma OrphanStep(s: State, a: Action, t: TimerId)
    requires TimersOk(s) && Enabled(s, a) && t in s.timers
    ensures Orphaned(Apply(s, a).timers[t])
       <==> (Orphaned(s.timers[t]) && !EndsOrphan(a, t)) || FailsToDelete(s, a, t)
  {
    if Touches(a) && Touched(s, a) == t {
      OrphanTouched(s, a);
      assert Apply(s, a).timers[t] == TimerAfter(s.timers[t], a);
    } else {
      OrphanUntouched(s, a, t);
    }
  }

  lemma OrphanTouched(s: State, a: Action)
    requires TimersOk(s) && Enabled(s, a) && Touches(a)
    ensures var t := Touched(s, a);
            Orphaned(TimerAfter(s.timers[t], a))
            <==> (Orphaned(s.timers[t]) && !EndsOrphan(a, t)) || FailsToDelete(s, a, t)
  {
    var t := Touched(s, a);
    EnabledFits(s, a);
    OrphanTimer(s.timers[t], a, t in s.queue, s.StageOf(t));
  }

  lemma OrphanUntouched(s: State, a: Action, t: TimerId)
    requires Enabled(s, a) && t in s.timers && !(Touches(a) && Touched(s, a) == t)
    ensures Apply(s, a).timers[t] == s.timers[t]
    ensures !EndsOrphan(a, t) && !FailsToDelete(s, a, t)
  {
  }

  lemma {:induction false} OrphanRun(s: State, run: seq<Action>, s': State, t: TimerId)
    requires Inv(s) && Runs(s, run, s') && t in s.timers
    ensures t in s'.timers
    ensures Orphaned(s'.timers[t])
       <==> (Orphaned(s.timers[t]) && NeverEnds(run, t)) || LeftArmed(s, run, s', t)
    decreases |run|
  {
    if run != [] {
      OrphanStep(s, run[0], t);
      StepKeepsInv(s, run[0]);
      OrphanRun(Apply(s, run[0]), run[1..], s', t);
    }
  }

  /** The kernel timer of a destroyed timer is armed if and only if timer_delete failed
  for it while it was armed still, and nothing has ended it since. In particular,
  as long as timer_delete succeeds, a destroyed timer is disarmed. */
  lemma DestroyedIsArmedIff(s0: State, run: seq<Action>, s: State, t: TimerId)
    requires Initial(s0) && Runs(s0, run, s) && Down(s, t)
    ensures s.timers[t].armed <==> LeftArmed(s0, run, s, t)
    ensures NoFailedDelete(run) ==> !s.timers[t].armed
  {
    DownGivesUp(s0, run, s, t);
    OrphanFromStart(s0, run, s, t);
    if NoFailedDelete(run) {
      NoneLeftArmed(s0, run, s, t);
    }
  }

  lemma DownGivesUp(s0: State, run: seq<Action>, s: State, t: TimerId)
    requires Initial(s0) && Runs(s0, run, s) && Down(s, t)
    ensures t in s0.timers && !s.timers[t].timerValid
  {
    ReachableInv(s0, run, s);
    DownFacts(s, t);
  }

  lemma OrphanFromStart(s0: State, run: seq<Action>, s: State, t: TimerId)
    requires Initial(s0) && Runs(s0, run, s) && t in s0.timers
    ensures t in s.timers && (Orphaned(s.timers[t]) <==> LeftArmed(s0, run, s, t))
  {
    InitialInv(s0);
    assert s0.timers[t] == BLANK;
    OrphanFromDisarmed(s0, run, s, t);
  }

  lemma OrphanFromDisarmed(s: State, run: seq<Action>, s': State, t: TimerId)
    requires Inv(s) && Runs(s, run, s') && t in s.timers && !s.timers[t].armed
    ensures t in s'.timers && (Orphaned(s'.timers[t]) <==> LeftArmed(s, run, s', t))
  {
    OrphanRun(s, run, s', t);
  }

  predicate NoFailedDelete(run: seq<Action>) {
    run == [] || (run[0] != DeleteTimer(false) && NoFailedDelete(run[1..]))
  }

  lemma {:induction false} NoneLeftArmed(s: State, run: seq<Action>, s': State, t: TimerId)
    requires Runs(s, run, s') && NoFailedDelete(run)
    ensures !LeftArmed(s, run, s', t)
    decreases |run|
  {
    if run != [] {
      NoneLeftArmed(Apply(s, run[0]), run[1..], s', t);
    }
  }

  function LeaveAction(t: TimerId, n: nat): Action {
    if n == 0 then Destroy(t, false)
    else if n == 1 then SetKilled
    else if n == 2 then SendSignal(true, false)
    else if n <= 4 then Handler(t, false, 0)
    else if n == 5 then JoinThread(true)
    else if n == 6 then DeleteTimer(false)
    else UnlinkTimer
  }

  function LeaveStage(n: nat): Stage {
    if n == 1 then Kill(false)
    else if n == 2 then Signal(false)
    else if n <= 5 then Join(false)
    else if n == 6 then Delete(false)
    else Unlink
  }

  /** A destruction in which stopping and deleting fail, but no pthread call does,
  after n steps. */
  predicate LeavingUpTo(s: State, t: TimerId, n: nat) {
    && t in s.timers
    && s.vm == (if n == 0 || n == 8 then [] else [Work(t, LeaveStage(n))])
    && s.timers[t].armed && !s.timers[t].leaked
    && s.timers[t].valid == (n < 8)
    && s.timers[t].threadValid == (n < 2)
    && s.timers[t].thread.killed == (n >= 2)
    && s.timers[t].thread.pc == (if n <= 3 then Waiting else if n == 4 then Received(false, 0) else Exited)
    && (n == 3 ==> s.timers[t].thread.pendingOther > 0)
  }

  lemma LeaveEarlyStep(s: State, t: TimerId, n: nat)
    requires LeavingUpTo(s, t, n) && n <= 2
    ensures Enabled(s, LeaveAction(t, n)) && LeavingUpTo(Apply(s, LeaveAction(t, n)), t, n + 1)
  {
  }

  lemma LeaveLateStep(s: State, t: TimerId, n: nat)
    requires LeavingUpTo(s, t, n) && 3 <= n <= 7
    ensures Enabled(s, LeaveAction(t, n)) && LeavingUpTo(Apply(s, LeaveAction(t, n)), t, n + 1)
  {
  }

  lemma {:induction false} LeaveRun(s: State, t: TimerId, n: nat) returns (run: seq<Action>, s': State)
    requires LeavingUpTo(s, t, n) && n <= 8
    ensures Runs(s, run, s') && LeavingUpTo(s', t, 8)
    decreases 8 - n
  {
    run, s' := [], s;
    if n < 8 {
      var a := LeaveAction(t, n);
      if n <= 2 {
        LeaveEarlyStep(s, t, n);
      } else {
        LeaveLateStep(s, t, n);
      }
      run, s' := LeaveRun(Apply(s, a), t, n + 1);
      RunsCons(s, a, run, s');
      run := [a] + run;
    }
  }

  /** That case is reachable, for every timer of every process, also when every pthread
  call succeeds: the kernel refuses to stop the timer and then to delete it. */
  lemma ArmedIsReachable(s0: State, t: TimerId) returns (run: seq<Action>, s: State)
    requires Initial(s0) && t in s0.timers
    ensures Runs(s0, run, s) && Down(s, t) && !s.timers[t].leaked && s.timers[t].armed
  {
    var run1, s1 := UpRun(s0, t, 0, 6);
    ReachableInv(s0, run1, s1);
    assert TimerOk(s1.timers[t], t in s1.queue, s1.StageOf(t));
    var run2;
    run2, s := LeaveRun(s1, t, 0);
    RunsConcat(s0, run1, s1, run2, s);
    run := run1 + run2;
  }

  /** The notifications that are under way: a signal that is pending, and one that
  the handler has received. */
  function InFlight(th: Thread): nat {
    (if th.pendingExpiry then 1 else 0)
    + (if th.pc.Notifying? || (th.pc.Received? && th.pc.fromTimer) then 1 else 0)
  }

  predicate NoStart(run: seq<Action>, t: TimerId) {
    run == [] || (!(run[0].Start? && run[0].id == t) && NoStart(run[1..], t))
  }

  lemma HandlerSettles(th: Thread, fromTimer: bool, overrun: nat)
    requires th.pc.Waiting? && fromTimer ==> th.pendingExpiry
    ensures (if th.pc.Notifying? then 1 else 0) + InFlight(ThreadStep(th, fromTimer, overrun)) <= InFlight(th)
  {
  }

  lemma TimerSettles(tm: Timer, a: Action)
    requires !tm.armed && !a.Start? && !a.Expire?
    requires a.Handler? && tm.thread.pc.Waiting? && a.fromTimer ==> tm.thread.pendingExpiry
    ensures !TimerAfter(tm, a).armed
    ensures (if a.Handler? && tm.thread.pc.Notifying? then 1 else 0) + InFlight(TimerAfter(tm, a).thread)
         <= InFlight(tm.thread)
  {
    if a.Handler? {
      HandlerSettles(tm.thread, a.fromTimer, a.overrun);
    }
  }

  lemma SettleStep(s: State, a: Action, t: TimerId)
    requires Enabled(s, a) && t in s.timers && !s.timers[t].armed
    requires !(a.Start? && a.id == t)
    ensures !Apply(s, a).timers[t].armed
    ensures |FiredBy(s, a, t)| + InFlight(Apply(s, a).timers[t].thread) <= InFlight(s.timers[t].thread)
  {
    if Touches(a) && Touched(s, a) == t {
      TimerSettles(s.timers[t], a);
    } else {
      assert Apply(s, a).timers[t] == s.timers[t];
    }
  }

  /** Stopping does not cancel what is pending, but it does settle: until the timer
  is started again, at most two more notifications are counted, whatever else
  happens. */
  lemma {:induction false} StopSettles(s: State, run: seq<Action>, s': State, t: TimerId)
    requires Runs(s, run, s') && NoStart(run, t)
    requires t in s.timers && !s.timers[t].armed
    ensures t in s'.timers && !s'.timers[t].armed
    ensures |Fired(s, run, s', t)| + InFlight(s'.timers[t].thread) <= InFlight(s.timers[t].thread) <= 2
    decreases |run|
  {
    if run != [] {
      SettleStep(s, run[0], t);
      StopSettles(Apply(s, run[0]), run[1..], s', t);
    }
  }

  predicate Starts(s: State, a: Action, t: TimerId)
    requires Enabled(s, a)
  {
    a == Start(t, true) && s.timers[t].valid
  }

  /** The action ends the running of t: a stop that succeeds, a destruction or a new
  initialisation. */
  predicate Halts(a: Action, t: TimerId) {
    a == Stop(t, true) || ((a.Destroy? || a.Init?) && a.id == t)
  }

  predicate NeverHalts(run: seq<Action>, t: TimerId) {
    run == [] || (!Halts(run[0], t) && NeverHalts(run[1..], t))
  }

  /** At some point of the run t was started with success while it was valid, and
  nothing after it ended its running. */
  ghost predicate StartedLast(s: State, run: seq<Action>, s': State, t: TimerId)
    requires Runs(s, run, s')
    decreases |run|
  {
    run != []
    && ((Starts(s, run[0], t) && NeverHalts(run[1..], t)) || StartedLast(Apply(s, run[0]), run[1..], s', t))
  }

  lemma RunningTimer(tm: Timer, a: Action)
    requires tm.running ==> tm.valid && !a.CreateTimer?
    ensures TimerAfter(tm, a).running
       <==> (a.Start? && a.ok && tm.valid)
            || (tm.running && !(a.Stop? && a.ok) && !a.Destroy? && !a.Init?)
  {
    if a.Init? || a.AwaitReady? || a.CreateTimer? || a.Start? || a.Stop? {
      RunningSetUp(tm, a);
    } else if !a.Handler? && !a.Dequeue? && !a.Expire? && !a.Stray? {
      RunningTornDown(tm, a);
    }
  }

  lemma RunningSetUp(tm: Timer, a: Action)
    requires a.Init? || a.AwaitReady? || a.CreateTimer? || a.Start? || a.Stop?
    requires tm.running ==> tm.valid && !a.CreateTimer?
    ensures SetUp(tm, a).running
       <==> (a.Start? && a.ok && tm.valid) || (tm.running && !(a.Stop? && a.ok) && !a.Init?)
  {
  }

  lemma RunningTornDown(tm: Timer, a: Action)
    requires tm.running ==> tm.valid
    ensures TornDown(tm, a).running <==> tm.running && !a.Destroy?
  {
  }

  lemma RunningStep(s: State, a: Action, t: TimerId)
    requires TimersOk(s) && Enabled(s, a) && t in s.timers
    ensures Apply(s, a).timers[t].running <==> Starts(s, a, t) || (s.timers[t].running && !Halts(a, t))
  {
    if Touches(a) && Touched(s, a) == t {
      RunningTouched(s, a);
      assert Apply(s, a).timers[t] == TimerAfter(s.timers[t], a);
    } else {
      assert Apply(s, a).timers[t] == s.timers[t];
    }
  }

  lemma RunningTouched(s: State, a: Action)
    requires TimersOk(s) && Enabled(s, a) && Touches(a)
    ensures var t := Touched(s, a);
            TimerAfter(s.timers[t], a).running <==> Starts(s, a, t) || (s.timers[t].running && !Halts(a, t))
  {
    var t := Touched(s, a);
    assert TimerOk(s.timers[t], t in s.queue, s.StageOf(t));
    RunningTimer(s.timers[t], a);
  }

  lemma {:induction false} RunningRun(s: State, run: seq<Action>, s': State, t: TimerId)
    requires Inv(s) && Runs(s, run, s') && t in s.timers
    ensures t in s'.timers
    ensures s'.timers[t].running <==> (s.timers[t].running && NeverHalts(run, t)) || StartedLast(s, run, s', t)
    decreases |run|
  {
    if run != [] {
      RunningStep(s, run[0], t);
      StepKeepsInv(s, run[0]);
      RunningRun(Apply(s, run[0]), run[1..], s', t);
    }
  }

  /** After every run, is_running says that the timer was started with success while it
  was valid, and was neither stopped with success nor destroyed nor initialised
  again since. */
  lemma RunningIff(s0: State, run: seq<Action>, s: State, t: TimerId)
    requires Initial(s0) && Runs(s0, run, s) && t in s0.timers
    ensures t in s.timers && (s.timers[t].running <==> StartedLast(s0, run, s, t))
  {
    InitialInv(s0);
    InitialIdle(s0, t);
    RunningFromIdle(s0, run, s, t);
  }

  lemma RunningFromIdle(s: State, run: seq<Action>, s': State, t: TimerId)
    requires Inv(s) && Runs(s, run, s') && t in s.timers && !s.timers[t].running
    ensures t in s'.timers && (s'.timers[t].running <==> StartedLast(s, run, s', t))
  {
    RunningRun(s, run, s', t);
  }

  lemma InitialIdle(s0: State, t: TimerId)
    requires Initial(s0) && t in s0.timers
    ensures !s0.timers[t].running
  {
  }

  /** A successful stop disarms a running timer at once, before its handler is ended,
  and no expiration can follow until it is started again. */
  lemma DestroyStops(s: State, run: seq<Action>, s': State, t: TimerId, periodic: bool)
    requires Enabled(s, Destroy(t, true)) && s.timers[t].valid && s.timers[t].running
    requires Runs(Apply(s, Destroy(t, true)), run, s') && NoStart(run, t)
    ensures t in s'.timers && !Enabled(s', Expire(t, periodic))
  {
    var s1 := Apply(s, Destroy(t, true));
    assert !s1.timers[t].armed;
    StopSettles(s1, run, s', t);
  }

  // ------------------------------------------------------------------ init and shutdown

  /** The thread id handed to timer_create has been set by the thread itself. */
  lemma TidIsSet(s0: State, run: seq<Action>, s: State)
    requires Initial(s0) && Runs(s0, run, s) && s.Working(MakeTimer)
    ensures Current(s) in s.timers && s.timers[Current(s)].thread.tid && s.timers[Current(s)].thread.ready
  {
    ReachableInv(s0, run, s);
    assert s.vm[|s.vm| - 1].Work?;
    assert TimerOk(s.timers[Current(s)], Current(s) in s.queue, s.StageOf(Current(s)));
  }

  /** Between init and destroy calls, timers_active is the number of valid timers. */
  lemma ActiveIsValid(s0: State, run: seq<Action>, s: State)
    requires Initial(s0) && Runs(s0, run, s) && (s.UserCode() || s.AtDrain())
    ensures s.timersActive == |ValidTimers(s)|
  {
    ReachableInv(s0, run, s);
  }

  /** When thread shutdown finds no active timer and destroys the mutex, nobody is
  left to use it: no handler is alive and nothing is queued, unless a pthread
  call failed earlier. */
  lemma ShutdownSafe(s0: State, run: seq<Action>, s: State, t: TimerId)
    requires Initial(s0) && Runs(s0, run, s) && s.vm == [] && s.timersActive == 0
    requires t in s.timers && !s.timers[t].leaked
    ensures !s.timers[t].thread.Alive() && t !in s.queue
  {
    ReachableInv(s0, run, s);
    ActiveIsValid(s0, run, s);
    assert t !in ValidTimers(s);
    DownFacts(s, t);
  }
}
