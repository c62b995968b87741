/** What the timer protocol guarantees over whole runs, under every interleaving
of the VM thread, the handler threads and the kernel. */
module TimerTheorems {
  import opened Fifo
  import opened TimerProtocol

  /** The action sequence leads from s to s'. */
  ghost predicate Runs(s: State, run: seq<Action>, s': State)
    decreases |run|
  {
    if run == [] then s' == s
    else Enabled(s, run[0]) && Runs(Apply(s, run[0]), run[1..], s')
  }

  lemma RunsCons(s: State, a: Action, run: seq<Action>, s': State)
    requires Enabled(s, a) && Runs(Apply(s, a), run, s')
    ensures Runs(s, [a] + run, s')
  {
    assert ([a] + run)[1..] == run;
  }

  lemma {:induction false} RunsConcat(s: State, run1: seq<Action>, s1: State, run2: seq<Action>, s2: State)
    requires Runs(s, run1, s1) && Runs(s1, run2, s2)
    ensures Runs(s, run1 + run2, s2)
    decreases |run1|
  {
    if run1 == [] {
      assert run1 + run2 == run2;
    } else {
      RunsConcat(Apply(s, run1[0]), run1[1..], s1, run2, s2);
      assert (run1 + run2)[1..] == run1[1..] + run2;
    }
  }

  /** excimer_timer_thread_init: no timer exists yet. */
  predicate Initial(s: State) {
    && (forall t | t in s.timers :: s.timers[t] == BLANK)
    && s.queue == []
    && s.timersActive == 0
    && s.vm == []
  }

  lemma InitialInv(s: State)
    requires Initial(s)
    ensures Inv(s)
  {
    assert ValidTimers(s) == {};
  }

  lemma {:induction false} RunKeepsInv(s: State, run: seq<Action>, s': State)
    requires Inv(s) && Runs(s, run, s')
    ensures Inv(s') && s'.timers.Keys == s.timers.Keys
    decreases |run|
  {
    if run != [] {
      StepKeepsInv(s, run[0]);
      RunKeepsInv(Apply(s, run[0]), run[1..], s');
    }
  }

  lemma ReachableInv(s0: State, run: seq<Action>, s: State)
    requires Initial(s0) && Runs(s0, run, s)
    ensures Inv(s) && s.timers.Keys == s0.timers.Keys
  {
    InitialInv(s0);
    RunKeepsInv(s0, run, s);
  }

  /** The part of the invariant that speaks about counts and the queue. */
  lemma TimerFacts(s: State, t: TimerId)
    requires Inv(s) && t in s.timers
    ensures var tm := s.timers[t];
            && tm.books.fired == tm.books.delivered + tm.eventCount + tm.books.lost
            && (t in s.queue ==> tm.eventCount > 0 && (tm.valid || tm.leaked))
            && (tm.valid && tm.eventCount > 0 ==> t in s.queue)
  {
    assert TimerOk(s.timers[t], t in s.queue, s.StageOf(t));
  }

  // ----------------------------------------------------------------- no lost wakeup

  /** In every reachable state, pending timers will be noticed: the flag is up, a
  handler is about to raise it, or a drain has yet to find the queue empty. */
  lemma NoLostWakeup(s0: State, run: seq<Action>, s: State)
    requires Initial(s0) && Runs(s0, run, s) && s.queue != []
    ensures s.vmInterrupt || s.Draining() || exists t | t in s.timers :: s.timers[t].thread.pc.Storing?
  {
    ReachableInv(s0, run, s);
  }

  // ------------------------------------------------------------------- conservation

  function Sum(xs: seq<nat>): nat {
    if xs == [] then 0 else xs[0] + Sum(xs[1..])
  }

  lemma SumAppend(xs: seq<nat>, ys: seq<nat>)
    ensures Sum(xs + ys) == Sum(xs) + Sum(ys)
  {
    if xs == [] {
      assert xs + ys == ys;
    } else {
      assert (xs + ys)[1..] == xs[1..] + ys;
      SumAppend(xs[1..], ys);
    }
  }

  /** The sums overrun_count + 1 that one action adds, as a list. */
  function FiredBy(s: State, a: Action, t: TimerId): seq<nat>
    requires Enabled(s, a)
  {
    if a.Handler? && a.id == t && s.timers[t].thread.pc.Notifying?
    then [s.timers[t].thread.pc.overrun + 1] else []
  }

  /** The counts that one action passes to the callback of t. */
  function DeliveredBy(s: State, a: Action, t: TimerId): seq<nat>
    requires Enabled(s, a)
  {
    if a.Dequeue? && s.queue[0] == t then [s.timers[t].eventCount] else []
  }

  /** The counts that re-initialising t throws away. */
  function WipedBy(s: State, a: Action, t: TimerId): seq<nat>
    requires Enabled(s, a)
  {
    if a.Init? && a.id == t then [s.timers[t].eventCount] else []
  }

  ghost function Fired(s: State, run: seq<Action>, s': State, t: TimerId): seq<nat>
    requires Runs(s, run, s')
    decreases |run|
  {
    if run == [] then []
    else FiredBy(s, run[0], t) + Fired(Apply(s, run[0]), run[1..], s', t)
  }

  ghost function Delivered(s: State, run: seq<Action>, s': State, t: TimerId): seq<nat>
    requires Runs(s, run, s')
    decreases |run|
  {
    if run == [] then []
    else DeliveredBy(s, run[0], t) + Delivered(Apply(s, run[0]), run[1..], s', t)
  }

  ghost function WipedOut(s: State, run: seq<Action>, s': State, t: TimerId): seq<nat>
    requires Runs(s, run, s')
    decreases |run|
  {
    if run == [] then []
    else WipedBy(s, run[0], t) + WipedOut(Apply(s, run[0]), run[1..], s', t)
  }

  lemma DeliveredCons(s: State, a: Action, run: seq<Action>, s': State, t: TimerId)
    requires Enabled(s, a) && Runs(Apply(s, a), run, s')
    ensures Runs(s, [a] + run, s')
    ensures Delivered(s, [a] + run, s', t) == DeliveredBy(s, a, t) + Delivered(Apply(s, a), run, s', t)
  {
    assert ([a] + run)[1..] == run;
  }

  lemma Associative(a: seq<nat>, b: seq<nat>, c: seq<nat>)
    ensures (a + b) + c == a + (b + c)
  {
  }

  lemma {:induction false} DeliveredConcat(s: State, run1: seq<Action>, s1: State, run2: seq<Action>, s2: State,
                                           t: TimerId)
    requires Runs(s, run1, s1) && Runs(s1, run2, s2)
    ensures Runs(s, run1 + run2, s2)
    ensures Delivered(s, run1 + run2, s2, t) == Delivered(s, run1, s1, t) + Delivered(s1, run2, s2, t)
    decreases |run1|
  {
    if run1 == [] {
      assert run1 + run2 == run2;
    } else {
      var a, rest := run1[0], run1[1..];
      DeliveredConcat(Apply(s, a), rest, s1, run2, s2, t);
      ConcatParts(run1, run2);
      DeliveredConcatStep(s, a, rest, s1, run2, s2, t);
    }
  }

  lemma ConcatParts(run1: seq<Action>, run2: seq<Action>)
    requires run1 != []
    ensures run1 == [run1[0]] + run1[1..] && run1 + run2 == [run1[0]] + (run1[1..] + run2)
  {
  }

  lemma DeliveredConcatStep(s: State, a: Action, rest: seq<Action>, s1: State, run2: seq<Action>, s2: State,
                            t: TimerId)
    requires Enabled(s, a) && Runs(Apply(s, a), rest, s1) && Runs(s1, run2, s2)
    requires Runs(Apply(s, a), rest + run2, s2)
    requires Delivered(Apply(s, a), rest + run2, s2, t)
          == Delivered(Apply(s, a), rest, s1, t) + Delivered(s1, run2, s2, t)
    ensures Runs(s, [a] + rest, s1) && Runs(s, [a] + (rest + run2), s2)
    ensures Delivered(s, [a] + (rest + run2), s2, t)
         == Delivered(s, [a] + rest, s1, t) + Delivered(s1, run2, s2, t)
  {
    DeliveredCons(s, a, rest, s1, t);
    DeliveredCons(s, a, rest + run2, s2, t);
    Associative(DeliveredBy(s, a, t), Delivered(Apply(s, a), rest, s1, t), Delivered(s1, run2, s2, t));
  }

  lemma BooksStep(s: State, a: Action, t: TimerId)
    requires Enabled(s, a) && t in s.timers
    ensures var b, b' := s.timers[t].books, Apply(s, a).timers[t].books;
            && b'.fired == b.fired + Sum(FiredBy(s, a, t))
            && b'.delivered == b.delivered + Sum(DeliveredBy(s, a, t))
            && b'.lost == b.lost + Sum(WipedBy(s, a, t))
  {
    assert forall n: nat :: [n][1..] == [];
  }

  lemma {:induction false} BooksRun(s: State, run: seq<Action>, s': State, t: TimerId)
    requires Runs(s, run, s') && t in s.timers
    ensures t in s'.timers
    ensures var b, b' := s.timers[t].books, s'.timers[t].books;
            && b'.fired == b.fired + Sum(Fired(s, run, s', t))
            && b'.delivered == b.delivered + Sum(Delivered(s, run, s', t))
            && b'.lost == b.lost + Sum(WipedOut(s, run, s', t))
    decreases |run|
  {
    if run != [] {
      var s1 := Apply(s, run[0]);
      BooksStep(s, run[0], t);
      BooksRun(s1, run[1..], s', t);
      SumAppend(FiredBy(s, run[0], t), Fired(s1, run[1..], s', t));
      SumAppend(DeliveredBy(s, run[0], t), Delivered(s1, run[1..], s', t));
      SumAppend(WipedBy(s, run[0], t), WipedOut(s1, run[1..], s', t));
    }
  }

  /** The expirations that the kernel reports to the handler of t with one action: a
  signal of the timer stands for one expiration and its overruns. */
  function ReportedBy(s: State, a: Action, t: TimerId): seq<nat>
    requires Enabled(s, a)
  {
    if a.Handler? && a.id == t && a.fromTimer && s.timers[t].thread.pc.Waiting? then [a.overrun + 1] else []
  }

  /** The expirations that the killed check of t's handler throws away. */
  function DroppedBy(s: State, a: Action, t: TimerId): seq<nat>
    requires Enabled(s, a)
  {
    if a.Handler? && a.id == t && s.timers[t].thread.killed then Reading(s.timers[t].thread.pc) else []
  }

  /** The report that a handler has received and not yet checked. */
  function Reading(pc: Pc): seq<nat> {
    if pc.Received? && pc.fromTimer then [pc.overrun + 1] else []
  }

  /** The expirations that a handler has been told of and has not counted yet. */
  function InHand(pc: Pc): nat {
    match pc
    case Received(fromTimer, n) => if fromTimer then n + 1 else 0
    case Notifying(n) => n + 1
    case _ => 0
  }

  ghost function Reported(s: State, run: seq<Action>, s': State, t: TimerId): seq<nat>
    requires Runs(s, run, s')
    decreases |run|
  {
    if run == [] then []
    else ReportedBy(s, run[0], t) + Reported(Apply(s, run[0]), run[1..], s', t)
  }

  ghost function Dropped(s: State, run: seq<Action>, s': State, t: TimerId): seq<nat>
    requires Runs(s, run, s')
    decreases |run|
  {
    if run == [] then []
    else DroppedBy(s, run[0], t) + Dropped(Apply(s, run[0]), run[1..], s', t)
  }

  lemma HandlerReports(th: Thread, fromTimer: bool, overrun: nat)
    requires th.Alive()
    ensures InHand(th.pc) + (if fromTimer && th.pc.Waiting? then overrun + 1 else 0)
         == InHand(ThreadStep(th, fromTimer, overrun).pc)
            + (if th.pc.Notifying? then th.pc.overrun + 1 else 0)
            + (if th.killed && th.pc.Received? && th.pc.fromTimer then th.pc.overrun + 1 else 0)
  {
  }

  lemma SumOne(n: nat)
    ensures Sum([n]) == n && Sum([]) == 0
  {
    assert [n][1..] == [];
  }

  /** A timer is only initialised again when its handler has nothing in hand. */
  lemma NothingInHand(s: State, t: TimerId, created: bool)
    requires Inv(s) && Enabled(s, Init(t, created))
    ensures InHand(s.timers[t].thread.pc) == 0
  {
    assert TimerOk(s.timers[t], t in s.queue, s.StageOf(t));
  }

  lemma HandStep(s: State, a: Action, t: TimerId)
    requires Enabled(s, a) && t in s.timers
    requires a.Init? && a.id == t ==> InHand(s.timers[t].thread.pc) == 0
    ensures InHand(Apply(s, a).timers[t].thread.pc)
         == if a.Handler? && a.id == t then InHand(ThreadStep(s.timers[t].thread, a.fromTimer, a.overrun).pc)
            else InHand(s.timers[t].thread.pc)
  {
  }

  lemma ReportStep(s: State, a: Action, t: TimerId)
    requires Inv(s) && Enabled(s, a) && t in s.timers
    ensures InHand(s.timers[t].thread.pc) + Sum(ReportedBy(s, a, t))
         == InHand(Apply(s, a).timers[t].thread.pc) + Sum(FiredBy(s, a, t)) + Sum(DroppedBy(s, a, t))
  {
    if a.Init? && a.id == t {
      NothingInHand(s, t, a.created);
    }
    HandStep(s, a, t);
    if a.Handler? && a.id == t {
      var th := s.timers[t].thread;
      HandlerReports(th, a.fromTimer, a.overrun);
      SumOne(a.overrun + 1);
      SumOne(if th.pc.Notifying? || th.pc.Received? then th.pc.overrun + 1 else 0);
    }
  }

  /** What the kernel reports to a handler is counted, still in the handler's hands, or
  was thrown away by the killed check. */
  lemma {:induction false} ReportsRun(s: State, run: seq<Action>, s': State, t: TimerId)
    requires Inv(s) && Runs(s, run, s') && t in s.timers
    ensures t in s'.timers
    ensures InHand(s.timers[t].thread.pc) + Sum(Reported(s, run, s', t))
         == InHand(s'.timers[t].thread.pc) + Sum(Fired(s, run, s', t)) + Sum(Dropped(s, run, s', t))
    decreases |run|
  {
    if run != [] {
      var s1 := Apply(s, run[0]);
      ReportStep(s, run[0], t);
      StepKeepsInv(s, run[0]);
      ReportsRun(s1, run[1..], s', t);
      SumAppend(ReportedBy(s, run[0], t), Reported(s1, run[1..], s', t));
      SumAppend(FiredBy(s, run[0], t), Fired(s1, run[1..], s', t));
      SumAppend(DroppedBy(s, run[0], t), Dropped(s1, run[1..], s', t));
    }
  }

  lemma ReportsFromStart(s0: State, run: seq<Action>, s: State, t: TimerId)
    requires Initial(s0) && Runs(s0, run, s) && t in s0.timers
    ensures t in s.timers
    ensures Sum(Reported(s0, run, s, t))
         == InHand(s.timers[t].thread.pc) + Sum(Fired(s0, run, s, t)) + Sum(Dropped(s0, run, s, t))
  {
    InitialInv(s0);
    InitialThread(s0, t);
    ReportsFromNothing(s0, run, s, t);
  }

  lemma InitialThread(s0: State, t: TimerId)
    requires Initial(s0) && t in s0.timers
    ensures s0.timers[t].thread.pc.NoThread?
  {
  }

  lemma ReportsFromNothing(s: State, run: seq<Action>, s': State, t: TimerId)
    requires Inv(s) && Runs(s, run, s') && t in s.timers && s.timers[t].thread.pc.NoThread?
    ensures t in s'.timers
    ensures Sum(Reported(s, run, s', t))
         == InHand(s'.timers[t].thread.pc) + Sum(Fired(s, run, s', t)) + Sum(Dropped(s, run, s', t))
  {
    ReportsRun(s, run, s', t);
  }

  /** The expirations that a timer's handler counts are those passed to its callback,
  plus the count it holds now, plus what its re-initialisations threw away. For a
  destroyed timer the count it holds is what destroy discarded. */
  lemma CountConservation(s0: State, run: seq<Action>, s: State, t: TimerId)
    requires Initial(s0) && Runs(s0, run, s) && t in s0.timers
    ensures t in s.timers
    ensures Sum(Fired(s0, run, s, t))
         == Sum(Delivered(s0, run, s, t)) + s.timers[t].eventCount + Sum(WipedOut(s0, run, s, t))
  {
    ReachableInv(s0, run, s);
    BooksRun(s0, run, s, t);
    TimerFacts(s, t);
  }

  /** Nothing is lost and nothing invented, from the kernel to the callback: every
  expiration that the kernel reports, overruns included, was passed to the callback,
  or is in the timer's count, or in the handler's hands, or was thrown away by a
  re-initialisation or the killed check. */
  lemma Conservation(s0: State, run: seq<Action>, s: State, t: TimerId)
    requires Initial(s0) && Runs(s0, run, s) && t in s0.timers
    ensures t in s.timers
    ensures Sum(Fired(s0, run, s, t))
         == Sum(Delivered(s0, run, s, t)) + s.timers[t].eventCount + Sum(WipedOut(s0, run, s, t))
    ensures Sum(Reported(s0, run, s, t))
         == Sum(Delivered(s0, run, s, t)) + s.timers[t].eventCount + InHand(s.timers[t].thread.pc)
            + Sum(WipedOut(s0, run, s, t)) + Sum(Dropped(s0, run, s, t))
  {
    ReportsFromStart(s0, run, s, t);
    CountConservation(s0, run, s, t);
  }

  // ----------------------------------------------------------------------- wakeups

  function One(b: bool): nat {
    if b then 1 else 0
  }

  /** The handler of t receives a signal that is not an expiration. */
  predicate ReceivesOther(s: State, a: Action, t: TimerId)
    requires Enabled(s, a)
  {
    a.Handler? && a.id == t && !a.fromTimer && s.timers[t].thread.pc.Waiting?
  }

  /** Somebody sends a signal to the handler of t. */
  predicate Sends(s: State, a: Action, t: TimerId)
    requires Enabled(s, a)
  {
    a == Stray(t) || (a.SendSignal? && Current(s) == t)
  }

  /** The VM's interrupt flag is raised. */
  predicate Raises(s: State, a: Action)
    requires Enabled(s, a)
  {
    a.RaiseInterrupt? || (a.Handler? && s.timers[a.id].thread.pc.Storing?)
  }

  ghost function OthersReceived(s: State, run: seq<Action>, s': State, t: TimerId): nat
    requires Runs(s, run, s')
    decreases |run|
  {
    if run == [] then 0
    else One(ReceivesOther(s, run[0], t)) + OthersReceived(Apply(s, run[0]), run[1..], s', t)
  }

  ghost function Sent(s: State, run: seq<Action>, s': State, t: TimerId): nat
    requires Runs(s, run, s')
    decreases |run|
  {
    if run == [] then 0 else One(Sends(s, run[0], t)) + Sent(Apply(s, run[0]), run[1..], s', t)
  }

  ghost function Raised(s: State, run: seq<Action>, s': State): nat
    requires Runs(s, run, s')
    decreases |run|
  {
    if run == [] then 0 else One(Raises(s, run[0])) + Raised(Apply(s, run[0]), run[1..], s')
  }

  function Expirations(run: seq<Action>, t: TimerId): nat {
    if run == [] then 0 else One(run[0].Expire? && run[0].id == t) + Expirations(run[1..], t)
  }

  function Interrupts(run: seq<Action>): nat {
    if run == [] then 0 else One(run[0].Interrupt?) + Interrupts(run[1..])
  }

  lemma SignalStep(s: State, a: Action, t: TimerId)
    requires Enabled(s, a) && t in s.timers
    ensures var th, th' := s.timers[t].thread, Apply(s, a).timers[t].thread;
            && |ReportedBy(s, a, t)| + One(th'.pendingExpiry)
               <= One(th.pendingExpiry) + One(a.Expire? && a.id == t)
            && One(ReceivesOther(s, a, t)) + th'.pendingOther <= th.pendingOther + One(Sends(s, a, t))
  {
    if Touches(a) && Touched(s, a) == t {
      SignalTimer(s.timers[t], a);
      assert Apply(s, a).timers[t] == TimerAfter(s.timers[t], a);
    } else {
      assert Apply(s, a).timers[t] == s.timers[t];
    }
  }

  lemma SignalTimer(tm: Timer, a: Action)
    requires a.Handler? && tm.thread.pc.Waiting? ==>
               if a.fromTimer then tm.thread.pendingExpiry else tm.thread.pendingOther > 0
    ensures var th, th' := tm.thread, TimerAfter(tm, a).thread;
            && One(a.Handler? && a.fromTimer && th.pc.Waiting?) + One(th'.pendingExpiry)
               <= One(th.pendingExpiry) + One(a.Expire?)
            && One(a.Handler? && !a.fromTimer && th.pc.Waiting?) + th'.pendingOther
               <= th.pendingOther + One(a.Stray? || a.SendSignal?)
  {
    if a.Handler? {
      SignalHandler(tm.thread, a.fromTimer, a.overrun);
    } else if a.Init? || a.AwaitReady? || a.CreateTimer? || a.Start? || a.Stop? {
      SignalSetUp(tm, a);
    } else if a.Dequeue? || a.Expire? || a.Stray? {
      SignalServed(tm, a);
    } else {
      SignalTornDown(tm, a);
    }
  }

  lemma SignalHandler(th: Thread, fromTimer: bool, overrun: nat)
    requires th.pc.Waiting? ==> if fromTimer then th.pendingExpiry else th.pendingOther > 0
    ensures var th' := ThreadStep(th, fromTimer, overrun);
            && One(fromTimer && th.pc.Waiting?) + One(th'.pendingExpiry) == One(th.pendingExpiry)
            && One(!fromTimer && th.pc.Waiting?) + th'.pendingOther == th.pendingOther
  {
  }

  lemma SignalSetUp(tm: Timer, a: Action)
    ensures var th, th' := tm.thread, SetUp(tm, a).thread;
            One(th'.pendingExpiry) <= One(th.pendingExpiry) && th'.pendingOther <= th.pendingOther
  {
  }

  lemma SignalServed(tm: Timer, a: Action)
    ensures var th, th' := tm.thread, Served(tm, a).thread;
            && One(th'.pendingExpiry) <= One(th.pendingExpiry) + One(a.Expire?)
            && th'.pendingOther <= th.pendingOther + One(a.Stray?)
  {
  }

  lemma SignalTornDown(tm: Timer, a: Action)
    ensures var th, th' := tm.thread, TornDown(tm, a).thread;
            th'.pendingExpiry == th.pendingExpiry && th'.pendingOther <= th.pendingOther + One(a.SendSignal?)
  {
  }

  /** A handler is woken at most once for every expiration of its timer, and at most
  once for every other signal that is sent to it. */
  lemma {:induction false} WakeupsBounded(s: State, run: seq<Action>, s': State, t: TimerId)
    requires Runs(s, run, s') && t in s.timers
    ensures t in s'.timers
    ensures var th, th' := s.timers[t].thread, s'.timers[t].thread;
            && |Reported(s, run, s', t)| + One(th'.pendingExpiry) <= One(th.pendingExpiry) + Expirations(run, t)
            && OthersReceived(s, run, s', t) + th'.pendingOther <= th.pendingOther + Sent(s, run, s', t)
    decreases |run|
  {
    if run != [] {
      SignalStep(s, run[0], t);
      WakeupsBounded(Apply(s, run[0]), run[1..], s', t);
    }
  }

  /** The VM enters a drain at most once for every time its flag is raised. */
  lemma {:induction false} InterruptsBounded(s: State, run: seq<Action>, s': State)
    requires Runs(s, run, s')
    ensures Interrupts(run) + One(s'.vmInterrupt) <= One(s.vmInterrupt) + Raised(s, run, s')
    decreases |run|
  {
    if run != [] {
      InterruptsBounded(Apply(s, run[0]), run[1..], s');
    }
  }

  // ---------------------------------------------------------------------- dispatch

  /** Pending exactly when counted: a valid timer is queued if and only if it holds
  a positive count. */
  lemma PendingIffCounted(s0: State, run: seq<Action>, s: State, t: TimerId)
    requires Initial(s0) && Runs(s0, run, s) && t in s.timers && s.timers[t].valid
    ensures t in s.queue <==> s.timers[t].eventCount > 0
  {
    ReachableInv(s0, run, s);
    TimerFacts(s, t);
  }

  /** Every callback gets a count of at least one, and belongs to a timer that has
  not been destroyed, unless a pthread call failed for that timer. */
  lemma DispatchSound(s0: State, run: seq<Action>, s: State)
    requires Initial(s0) && Runs(s0, run, s) && Enabled(s, Dequeue)
    ensures s.timers[s.queue[0]].eventCount >= 1
    ensures s.timers[s.queue[0]].valid || s.timers[s.queue[0]].leaked
  {
    ReachableInv(s0, run, s);
    TimerFacts(s, s.queue[0]);
  }

  /** The timers dispatched in a run, in order. */
  ghost function Dispatched(s: State, run: seq<Action>, s': State): seq<TimerId>
    requires Runs(s, run, s')
    decreases |run|
  {
    if run == [] then []
    else (if run[0].Dequeue? then [s.queue[0]] else []) + Dispatched(Apply(s, run[0]), run[1..], s')
  }

  /** t is not dispatched and not destroyed along the run. */
  ghost predicate Waits(s: State, run: seq<Action>, s': State, t: TimerId)
    requires Runs(s, run, s')
    decreases |run|
  {
    t in s.queue && (run != [] ==> Waits(Apply(s, run[0]), run[1..], s', t))
  }

  lemma RemovedAround(ahead: seq<TimerId>, t: TimerId, behind: seq<TimerId>, u: TimerId)
    returns (ahead': seq<TimerId>, behind': seq<TimerId>)
    requires Distinct(ahead + ([t] + behind)) && u != t
    ensures Removed(ahead + ([t] + behind), u) == ahead' + ([t] + behind')
    ensures forall x | x in ahead' :: x in ahead
  {
    RemovedPrefix(ahead, [t] + behind, u);
    PartsDistinct(ahead, [t] + behind);
    RemovedPrefix([t], behind, u);
    if u in ahead {
      RemovedKeeps(ahead, u);
      ahead', behind' := Removed(ahead, u), behind;
    } else {
      ahead', behind' := ahead, Removed(behind, u);
    }
  }

  /** One action, seen from a timer that is in the queue before and after it. */
  lemma BypassStep(s: State, a: Action, ahead: seq<TimerId>, t: TimerId, behind: seq<TimerId>)
    returns (ahead': seq<TimerId>, behind': seq<TimerId>)
    requires QueueOk(s.queue, s.timers.Keys) && Enabled(s, a)
    requires s.queue == ahead + ([t] + behind)
    requires t in QueueAfter(s, a)
    ensures QueueAfter(s, a) == ahead' + ([t] + behind')
    ensures if a.Dequeue? then ahead == [s.queue[0]] + ahead' else forall u | u in ahead' :: u in ahead
  {
    QueueKept(s, a);
    if a.Dequeue? {
      ahead', behind' := ahead[1..], behind;
    } else if a.UnlinkTimer? {
      ahead', behind' := RemovedAround(ahead, t, behind, Current(s));
    } else {
      ahead', behind' := ahead, behind + QueueAfter(s, a)[|s.queue|..];
    }
  }

  /** Bounded bypass: while a timer waits in the queue, only timers that were
  already ahead of it are dispatched, each at most once. */
  lemma {:induction false} BoundedBypass(s: State, run: seq<Action>, s': State,
                                         ahead: seq<TimerId>, t: TimerId, behind: seq<TimerId>)
    requires Inv(s) && Runs(s, run, s') && Waits(s, run, s', t)
    requires s.queue == ahead + ([t] + behind)
    ensures Distinct(Dispatched(s, run, s'))
    ensures forall u | u in Dispatched(s, run, s') :: u in ahead
    decreases |run|
  {
    if run != [] {
      var s1 := Apply(s, run[0]);
      StepKeepsInv(s, run[0]);
      assert t in s1.queue;
      var ahead', behind' := BypassStep(s, run[0], ahead, t, behind);
      BoundedBypass(s1, run[1..], s', ahead', t, behind');
      if run[0].Dequeue? {
        HeadOnce(ahead, [t] + behind, Dispatched(s1, run[1..], s'));
      }
    }
  }

  /** A dispatched head does not come back while the timers behind it wait. */
  lemma HeadOnce(ahead: seq<TimerId>, rest: seq<TimerId>, later: seq<TimerId>)
    requires ahead != [] && Distinct(ahead + rest)
    requires Distinct(later) && forall u | u in later :: u in ahead[1..]
    ensures Distinct([ahead[0]] + later)
    ensures forall u | u in [ahead[0]] + later :: u in ahead
  {
    PartsDistinct(ahead, rest);
    assert ahead[0] !in ahead[1..];
  }

  lemma DeliveredByPositive(s: State, a: Action, t: TimerId)
    requires Inv(s) && Enabled(s, a)
    ensures forall n | n in DeliveredBy(s, a, t) :: n >= 1
  {
    if a.Dequeue? {
      TimerFacts(s, s.queue[0]);
    }
  }

  lemma {:induction false} DeliveredPositive(s: State, run: seq<Action>, s': State, t: TimerId)
    requires Inv(s) && Runs(s, run, s')
    ensures forall n | n in Delivered(s, run, s', t) :: n >= 1
    decreases |run|
  {
    if run != [] {
      DeliveredByPositive(s, run[0], t);
      StepKeepsInv(s, run[0]);
      DeliveredPositive(Apply(s, run[0]), run[1..], s', t);
    }
  }

  lemma AllDeliveredPositive(s0: State, run: seq<Action>, s: State, t: TimerId)
    requires Initial(s0) && Runs(s0, run, s)
    ensures forall n | n in Delivered(s0, run, s, t) :: n >= 1
  {
    InitialInv(s0);
    DeliveredPositive(s0, run, s, t);
  }

  lemma AfterDequeue(s: State)
    requires Inv(s) && s.AtDrain() && s.queue != []
    ensures Enabled(s, Dequeue)
    ensures Apply(s, Dequeue).vm == s.vm + [Callback(s.queue[0])]
    ensures Apply(s, Dequeue).queue == s.queue[1..]
  {
    assert s.queue[0] in s.timers;
  }

  lemma AfterReturn(s: State, vm: seq<Task>, t: TimerId)
    requires s.vm == vm + [Callback(t)]
    ensures Enabled(s, CallbackReturn)
    ensures Apply(s, CallbackReturn).vm == vm && Apply(s, CallbackReturn).queue == s.queue
  {
  }

  lemma DispatchOne(s: State) returns (s1: State, s2: State)
    requires Inv(s) && s.AtDrain() && s.queue != []
    ensures Enabled(s, Dequeue) && s1 == Apply(s, Dequeue)
    ensures Enabled(s1, CallbackReturn) && s2 == Apply(s1, CallbackReturn)
    ensures Inv(s2) && s2.AtDrain() && s2.queue == s.queue[1..]
  {
    AfterDequeue(s);
    StepKeepsInv(s, Dequeue);
    s1 := Apply(s, Dequeue);
    AfterReturn(s1, s.vm, s.queue[0]);
    StepKeepsInv(s1, CallbackReturn);
    s2 := Apply(s1, CallbackReturn);
  }

  lemma DispatchedCons(s: State, a: Action, run: seq<Action>, s': State)
    requires Enabled(s, a) && Runs(Apply(s, a), run, s')
    ensures Runs(s, [a] + run, s')
    ensures Dispatched(s, [a] + run, s')
            == (if a.Dequeue? then [s.queue[0]] else []) + Dispatched(Apply(s, a), run, s')
  {
    assert ([a] + run)[1..] == run;
  }

  lemma DispatchThen(s: State, s1: State, s2: State, rest: seq<Action>, s': State)
    requires Enabled(s, Dequeue) && s1 == Apply(s, Dequeue)
    requires Enabled(s1, CallbackReturn) && s2 == Apply(s1, CallbackReturn)
    requires Runs(s2, rest, s')
    ensures var run := [Dequeue] + ([CallbackReturn] + rest);
            Runs(s, run, s') && Dispatched(s, run, s') == [s.queue[0]] + Dispatched(s2, rest, s')
  {
    DispatchedCons(s1, CallbackReturn, rest, s');
    DispatchedCons(s, Dequeue, [CallbackReturn] + rest, s');
  }

  predicate OnlyDispatches(run: seq<Action>) {
    run == [] || ((run[0].Dequeue? || run[0].CallbackReturn?) && OnlyDispatches(run[1..]))
  }

  lemma OnlyDispatchesCons(rest: seq<Action>)
    requires OnlyDispatches(rest)
    ensures OnlyDispatches([Dequeue] + ([CallbackReturn] + rest))
  {
    var tail := [CallbackReturn] + rest;
    assert tail[1..] == rest;
    assert ([Dequeue] + tail)[1..] == tail;
  }

  /** A drain that is left alone dispatches the whole queue, first in first out. */
  lemma {:induction false} DrainEmpties(s: State) returns (run: seq<Action>, s': State)
    requires Inv(s) && s.AtDrain()
    ensures Runs(s, run, s') && s'.AtDrain() && s'.queue == []
    ensures Dispatched(s, run, s') == s.queue
    ensures OnlyDispatches(run)
    decreases |s.queue|
  {
    if s.queue == [] {
      run, s' := [], s;
    } else {
      assert s.queue == [s.queue[0]] + s.queue[1..];
      var s1, s2 := DispatchOne(s);
      var rest;
      rest, s' := DrainEmpties(s2);
      DispatchThen(s, s1, s2, rest, s');
      OnlyDispatchesCons(rest);
      run := [Dequeue] + ([CallbackReturn] + rest);
    }
  }
}
