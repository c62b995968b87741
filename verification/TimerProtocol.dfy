/** The timer threads, the pending queue and the VM thread, as one state machine.

Every timer has a handler thread. A handler waits for a signal, adds the
expirations to the timer's count and puts the timer on the shared queue, then
raises the VM's interrupt flag. The VM thread answers the flag by draining the
queue. Callbacks run on the VM thread: they may start, stop, create and destroy
timers, and may be interrupted by a nested drain. Each action below is one
critical section or one step between two of them. */
module TimerProtocol {
  import opened Fifo

  type TimerId = nat

  /** Where a handler thread is. */
  datatype Pc =
    | NoThread
    | Starting                                      // before timer->tid is set
    | TidSet                                        // before ready is announced
    | Waiting                                       // in sigwaitinfo
    | Received(fromTimer: bool, overrun: nat)       // before the killed check
    | Notifying(overrun: nat)                       // past the check, before the lock
    | Storing                                       // after the unlock, before the flag store
    | Exited

  /** A handler thread: its flags, and the signals the kernel holds for it. */
  datatype Thread = Thread(
    pc: Pc,
    tid: bool,
    ready: bool,
    killed: bool,
    held: bool,            // the VM thread gave up waiting and left ready_mutex locked
    pendingExpiry: bool,
    pendingOther: nat)
  {
    predicate Alive() {
      !pc.NoThread? && !pc.Exited?
    }

    /** An expiration is on its way to the queue or the flag. */
    predicate Telling() {
      pendingExpiry || pc.Notifying? || pc.Storing? || (pc.Received? && pc.fromTimer)
    }

    predicate Signalled() {
      pendingExpiry || pendingOther > 0
    }

    /** The thread waits for ready_mutex, which nobody will unlock. */
    predicate Blocked() {
      held && pc.TidSet?
    }
  }

  /** Expirations counted by the handler, passed to the callback, and wiped when
  the object is initialised again. */
  datatype Books = Books(fired: nat, delivered: nat, lost: nat)

  datatype Timer = Timer(
    valid: bool,
    running: bool,
    eventCount: nat,
    threadValid: bool,
    timerValid: bool,
    armed: bool,           // in the kernel
    leaked: bool,          // a pthread call failed and the thread was given up alive
    thread: Thread,
    books: Books)

  function NewThread(created: bool): Thread {
    Thread(if created then Starting else NoThread, false, false, false, false, false, 0)
  }

  const BLANK: Timer := Timer(false, false, 0, false, false, false, false, NewThread(false), Books(0, 0, 0))

  /** Where the VM thread is inside excimer_timer_init or excimer_timer_destroy.
  The stages from Kill to Delete are timerlib_timer_destroy, which a failed
  initialisation also runs. */
  datatype Stage =
    | Idle
    | WaitReady
    | MakeTimer
    | Kill(forInit: bool)
    | Signal(forInit: bool)
    | Join(forInit: bool)
    | Delete(forInit: bool)
    | Unlink

  /** The VM thread's call stack, as far as timers are concerned. */
  datatype Task =
    | Drain                        // excimer_timer_interrupt, at the head of its loop
    | Callback(id: TimerId)
    | Work(id: TimerId, stage: Stage)

  function TopStage(vm: seq<Task>, t: TimerId): Stage {
    if vm != [] && vm[|vm| - 1].Work? && vm[|vm| - 1].id == t then vm[|vm| - 1].stage else Idle
  }

  datatype State = State(
    timers: map<TimerId, Timer>,
    queue: seq<TimerId>,
    timersActive: int,
    vmInterrupt: bool,
    vm: seq<Task>)
  {
    /** PHP code is running: the main script or a callback. */
    predicate UserCode() {
      vm == [] || vm[|vm| - 1].Callback?
    }

    predicate Working(st: Stage) {
      vm != [] && vm[|vm| - 1].Work? && vm[|vm| - 1].stage == st
    }

    function StageOf(t: TimerId): Stage {
      TopStage(vm, t)
    }

    predicate Draining() {
      vm != [] && vm[0].Drain?
    }

    predicate AtDrain() {
      vm != [] && vm[|vm| - 1].Drain?
    }
  }

  datatype Action =
    // the VM thread
    | Init(id: TimerId, created: bool)
    | AwaitReady(ok: bool)
    | CreateTimer(ok: bool)
    | Start(id: TimerId, ok: bool)
    | Stop(id: TimerId, ok: bool)
    | Destroy(id: TimerId, stopped: bool)
    | SetKilled
    | SendSignal(ok: bool, coalesced: bool)
    | JoinThread(ok: bool)
    | DeleteTimer(ok: bool)
    | UnlinkTimer
    | Interrupt
    | Dequeue
    | DrainEnd
    | CallbackReturn
    // the handler thread of a timer
    | Handler(id: TimerId, fromTimer: bool, overrun: nat)
    // the kernel and the rest of the engine
    | Expire(id: TimerId, periodic: bool)
    | Stray(id: TimerId)
    | RaiseInterrupt

  /** The timer that the VM thread is initialising or destroying. */
  function Current(s: State): TimerId
    requires s.vm != [] && s.vm[|s.vm| - 1].Work?
  {
    s.vm[|s.vm| - 1].id
  }

  predicate Enabled(s: State, a: Action) {
    match a
    case Init(t, _) => s.UserCode() && t in s.timers && !s.timers[t].valid && !s.timers[t].leaked
    case AwaitReady(ok) => s.Working(WaitReady) && Current(s) in s.timers && s.timers[Current(s)].thread.ready == ok
    case CreateTimer(_) => s.Working(MakeTimer) && Current(s) in s.timers
    case Start(t, _) => s.UserCode() && t in s.timers
    case Stop(t, _) => s.UserCode() && t in s.timers
    case Destroy(t, _) => s.UserCode() && t in s.timers
    case SetKilled => (s.Working(Kill(true)) || s.Working(Kill(false))) && Current(s) in s.timers
    case SendSignal(_, _) => (s.Working(Signal(true)) || s.Working(Signal(false))) && Current(s) in s.timers
    case JoinThread(ok) =>
      && (s.Working(Join(true)) || s.Working(Join(false))) && Current(s) in s.timers
      && (ok ==> s.timers[Current(s)].thread.pc.Exited?)
    case DeleteTimer(_) => (s.Working(Delete(true)) || s.Working(Delete(false))) && Current(s) in s.timers
    case UnlinkTimer => s.Working(Unlink) && Current(s) in s.timers
    case Interrupt => s.UserCode() && s.vmInterrupt
    case Dequeue => s.AtDrain() && s.queue != [] && s.queue[0] in s.timers
    case DrainEnd => s.AtDrain() && s.queue == []
    case CallbackReturn => s.vm != [] && s.UserCode()
    case Handler(t, fromTimer, _) =>
      && t in s.timers
      && s.timers[t].thread.Alive()
      && !s.timers[t].thread.Blocked()
      && (s.timers[t].thread.pc.Waiting? ==>
            if fromTimer then s.timers[t].thread.pendingExpiry else s.timers[t].thread.pendingOther > 0)
    case Expire(t, _) => t in s.timers && s.timers[t].armed
    case Stray(t) => t in s.timers && s.timers[t].thread.Alive()
    case RaiseInterrupt => true
  }

  /** The next step of a handler thread. */
  function ThreadStep(th: Thread, fromTimer: bool, overrun: nat): (r: Thread)
    ensures r.held == th.held
  {
    match th.pc
    case Starting => th.(tid := true, pc := TidSet)
    case TidSet => th.(ready := true, pc := Waiting)
    case Waiting =>
      if fromTimer then th.(pendingExpiry := false, pc := Received(true, overrun))
      else th.(pendingOther := if th.pendingOther > 0 then th.pendingOther - 1 else 0, pc := Received(false, 0))
    case Received(timer, n) =>
      th.(pc := if th.killed then Exited else if timer then Notifying(n) else Waiting)
    case Notifying(n) => th.(pc := Storing)
    case Storing => th.(pc := Waiting)
    case _ => th
  }

  /** The expirations that a handler step adds to the timer's count. */
  function Counted(th: Thread): nat {
    if th.pc.Notifying? then th.pc.overrun + 1 else 0
  }

  function HandlerTimer(tm: Timer, fromTimer: bool, overrun: nat): Timer {
    tm.(thread := ThreadStep(tm.thread, fromTimer, overrun),
        eventCount := tm.eventCount + Counted(tm.thread),
        books := tm.books.(fired := tm.books.fired + Counted(tm.thread)))
  }

  /** excimer_timer_init wipes the object before anything else. */
  function Wiped(tm: Timer, created: bool): Timer {
    BLANK.(threadValid := created, thread := NewThread(created),
           books := tm.books.(lost := tm.books.lost + tm.eventCount))
  }

  /** pthread_kill: a signal that finds another one pending may be merged with it. */
  function Poked(th: Thread, coalesced: bool): Thread {
    if !th.Alive() || (coalesced && th.Signalled()) then th
    else th.(pendingOther := th.pendingOther + 1)
  }

  /** The timer that an action is about, if any. */
  predicate Touches(a: Action) {
    !a.Interrupt? && !a.DrainEnd? && !a.CallbackReturn? && !a.RaiseInterrupt?
  }

  function Touched(s: State, a: Action): (t: TimerId)
    requires Enabled(s, a)
    ensures Touches(a) ==> t in s.timers
  {
    if a.Init? || a.Start? || a.Stop? || a.Destroy? || a.Handler? || a.Expire? || a.Stray? then a.id
    else if a.Dequeue? then s.queue[0]
    else if Touches(a) then Current(s)
    else 0
  }

  /** Creating, starting and stopping. */
  function SetUp(tm: Timer, a: Action): (r: Timer)
    ensures !a.Init? ==> r.thread.pc == tm.thread.pc
    ensures !a.Init? && !a.AwaitReady? ==> r.thread.held == tm.thread.held
    ensures r.valid == if a.CreateTimer? && a.ok then true else if a.Init? then false else tm.valid
  {
    match a
    case Init(_, created) => Wiped(tm, created)
    case AwaitReady(ok) => if ok then tm else tm.(thread := tm.thread.(held := true))
    case CreateTimer(ok) => if ok then tm.(timerValid := true, valid := true, running := false) else tm
    case Start(_, ok) => if tm.valid && ok then tm.(running := true, armed := tm.timerValid) else tm
    case Stop(_, ok) => if tm.valid && tm.running && ok then tm.(running := false, armed := false) else tm
    case _ => tm
  }

  /** The steps of excimer_timer_destroy and timerlib_timer_destroy. */
  function TornDown(tm: Timer, a: Action): (r: Timer)
    ensures r.thread.pc == tm.thread.pc && r.thread.held == tm.thread.held
    ensures r.valid == if a.UnlinkTimer? then false else tm.valid
  {
    match a
    case Destroy(_, stopped) =>
      if tm.valid then tm.(running := false, armed := tm.armed && !(tm.running && stopped)) else tm
    case SetKilled => if tm.threadValid then tm.(threadValid := false, thread := tm.thread.(killed := true)) else tm
    case SendSignal(ok, coalesced) =>
      if ok then tm.(thread := Poked(tm.thread, coalesced)) else tm.(leaked := tm.thread.Alive())
    case JoinThread(_) => tm.(leaked := tm.thread.Alive())
    case DeleteTimer(ok) => if tm.timerValid then tm.(timerValid := false, armed := tm.armed && !ok) else tm
    case UnlinkTimer => tm.(valid := false)
    case _ => tm
  }

  /** Delivery to the callback, and what the kernel does. */
  function Served(tm: Timer, a: Action): (r: Timer)
    ensures r.thread.pc == tm.thread.pc && r.thread.held == tm.thread.held && r.valid == tm.valid
  {
    match a
    case Dequeue => tm.(eventCount := 0, books := tm.books.(delivered := tm.books.delivered + tm.eventCount))
    case Expire(_, periodic) => tm.(thread := tm.thread.(pendingExpiry := true), armed := periodic)
    case Stray(_) => tm.(thread := tm.thread.(pendingOther := tm.thread.pendingOther + 1))
    case _ => tm
  }

  /** What an action does to its timer. Only a handler step or a new
  initialisation moves the handler; only a failed wait leaves ready_mutex locked;
  only a finished initialisation or destruction changes validity. */
  function TimerAfter(tm: Timer, a: Action): (r: Timer)
    ensures !a.Init? && !a.Handler? ==> r.thread.pc == tm.thread.pc
    ensures !a.Init? && !a.AwaitReady? ==> r.thread.held == tm.thread.held
    ensures r.valid == if a.CreateTimer? && a.ok then true
                       else if a.UnlinkTimer? || a.Init? then false else tm.valid
  {
    if a.Handler? then HandlerTimer(tm, a.fromTimer, a.overrun)
    else if a.Init? || a.AwaitReady? || a.CreateTimer? || a.Start? || a.Stop? then SetUp(tm, a)
    else if a.Dequeue? || a.Expire? || a.Stray? then Served(tm, a)
    else TornDown(tm, a)
  }

  /** What an action does to the VM thread's stack. */
  datatype Move = Stay | Enter(task: Task) | Leave | Proceed(stage: Stage)

  function MoveOf(s: State, a: Action): Move
    requires Enabled(s, a)
  {
    match a
    case Init(t, created) => if created then Enter(Work(t, WaitReady)) else Stay
    case AwaitReady(ok) => Proceed(if ok then MakeTimer else Kill(true))
    case CreateTimer(ok) => if ok then Leave else Proceed(Kill(true))
    case Destroy(t, _) => if s.timers[t].valid then Enter(Work(t, Kill(false))) else Stay
    case SetKilled =>
      var forInit := s.Working(Kill(true));
      Proceed(if s.timers[Current(s)].threadValid then Signal(forInit) else Delete(forInit))
    case SendSignal(ok, _) =>
      var forInit := s.Working(Signal(true));
      Proceed(if ok then Join(forInit) else Delete(forInit))
    case JoinThread(_) => Proceed(Delete(s.Working(Join(true))))
    case DeleteTimer(_) => if s.Working(Delete(true)) then Leave else Proceed(Unlink)
    case UnlinkTimer => Leave
    case Interrupt => Enter(Drain)
    case Dequeue => Enter(Callback(s.queue[0]))
    case DrainEnd => Leave
    case CallbackReturn => Leave
    case _ => Stay
  }

  function Moved(vm: seq<Task>, move: Move): seq<Task>
    requires move.Leave? || move.Proceed? ==> vm != []
    requires move.Proceed? ==> vm[|vm| - 1].Work?
  {
    match move
    case Stay => vm
    case Enter(task) => vm + [task]
    case Leave => vm[..|vm| - 1]
    case Proceed(st) => vm[..|vm| - 1] + [Work(vm[|vm| - 1].id, st)]
  }

  function QueueAfter(s: State, a: Action): seq<TimerId>
    requires Enabled(s, a)
  {
    match a
    case Handler(t, _, _) => if s.timers[t].thread.pc.Notifying? then Enqueued(s.queue, t) else s.queue
    case Dequeue => s.queue[1..]
    case UnlinkTimer => Removed(s.queue, Current(s))
    case _ => s.queue
  }

  function FlagAfter(s: State, a: Action): bool
    requires Enabled(s, a)
  {
    match a
    case Handler(t, _, _) => s.vmInterrupt || s.timers[t].thread.pc.Storing?
    case RaiseInterrupt => true
    case Interrupt => false
    case _ => s.vmInterrupt
  }

  function ActiveAfter(s: State, a: Action): int
    requires Enabled(s, a)
  {
    match a
    case CreateTimer(ok) => if ok then s.timersActive + 1 else s.timersActive
    case DeleteTimer(_) => if s.Working(Delete(true)) then s.timersActive else s.timersActive - 1
    case _ => s.timersActive
  }

  function Apply(s: State, a: Action): State
    requires Enabled(s, a)
  {
    State(if Touches(a) then s.timers[Touched(s, a) := TimerAfter(s.timers[Touched(s, a)], a)] else s.timers,
          QueueAfter(s, a),
          ActiveAfter(s, a),
          FlagAfter(s, a),
          Moved(s.vm, MoveOf(s, a)))
  }

  // ---------------------------------------------------------------- the invariant

  predicate Unkilled(stage: Stage) {
    stage.WaitReady? || stage.MakeTimer? || stage.Kill?
  }

  /** What holds of a timer, given whether it is queued and what the VM thread is
  doing with it. */
  ghost predicate TimerOk(tm: Timer, queued: bool, stage: Stage) {
    // every expiration is delivered, pending or wiped
    && tm.books.fired == tm.books.delivered + tm.eventCount + tm.books.lost
    // pending exactly when counted
    && (queued ==> tm.eventCount > 0)
    && (tm.valid && tm.eventCount > 0 ==> queued)
    && (queued ==> tm.valid || tm.leaked)
    // the ready handshake
    && (tm.thread.ready ==> tm.thread.tid)
    && (tm.thread.pc.Starting? ==> !tm.thread.tid && !tm.thread.ready)
    && (tm.thread.pc.TidSet? ==> tm.thread.tid && !tm.thread.ready)
    && (tm.thread.Alive() && !tm.thread.pc.Starting? && !tm.thread.pc.TidSet? ==> tm.thread.ready)
    && (tm.valid || stage.MakeTimer? ==> tm.thread.ready)
    && (tm.thread.held ==> (tm.thread.pc.Starting? || tm.thread.pc.TidSet?) && !stage.WaitReady?)
    // the life of the thread
    && (tm.thread.Alive() ==> tm.valid || tm.leaked || (!stage.Idle? && !stage.Delete? && !stage.Unlink?))
    && (tm.thread.Alive() && (stage.Delete? || stage.Unlink?) ==> tm.leaked)
    && (tm.thread.Alive() && tm.thread.Telling() ==> tm.valid || tm.leaked)
    && (tm.thread.pc.Exited? || tm.leaked || stage.Signal? || stage.Join? ==> tm.thread.killed)
    && (tm.valid || Unkilled(stage) || stage.Signal? || stage.Join? ==> !tm.thread.pc.NoThread?)
    && (Unkilled(stage) || (tm.valid && stage.Idle?) ==> tm.threadValid && !tm.thread.killed)
    // a signal sent to a killed thread is not lost
    && (stage.Join? && tm.thread.Alive() && !tm.thread.pc.Received? ==> tm.thread.Signalled())
    // the kernel timer
    && (tm.running ==> tm.valid && stage.Idle?)
    && (tm.armed && tm.valid && stage.Idle? ==> tm.running)
    // it outlives a destroyed timer only if timer_delete fails
    && (tm.armed ==> tm.timerValid || stage.Unlink? || (stage.Idle? && !tm.valid))
    && (tm.timerValid ==> tm.valid)
    && (tm.valid && stage.Idle? ==> tm.timerValid)
    // stages
    && (stage.WaitReady? || stage.MakeTimer? ==> !tm.valid && tm.eventCount == 0)
    && (stage.Kill? || stage.Signal? || stage.Join? || stage.Delete? ==> tm.valid == !stage.forInit)
    && (stage.Unlink? ==> tm.valid && !tm.timerValid)
    && (tm.leaked ==> stage.Delete? || stage.Unlink? || (stage.Idle? && !tm.valid))
  }

  /** Drains, callbacks and timer work nest properly, and name known timers. */
  ghost predicate StackOk(vm: seq<Task>, ids: set<TimerId>) {
    && (forall i | 0 <= i < |vm| && vm[i].Work? :: i == |vm| - 1 && vm[i].id in ids && !vm[i].stage.Idle?)
    && (forall i | 0 <= i < |vm| :: vm[i].Callback? ==> i > 0 && vm[i - 1].Drain?)
    && (forall i | 0 < i < |vm| :: !vm[i].Callback? ==> vm[i - 1].Callback?)
  }

  ghost predicate QueueOk(queue: seq<TimerId>, ids: set<TimerId>) {
    Distinct(queue) && forall t | t in queue :: t in ids
  }

  /** No wakeup is lost: a non-empty queue means that the flag is up, or about to
  be, or that a drain is under way which has yet to find the queue empty. */
  ghost predicate WakeupOk(s: State) {
    s.queue != [] ==>
      || s.vmInterrupt
      || (exists t | t in s.timers :: s.timers[t].thread.pc.Storing?)
      || s.Draining()
  }

  ghost function ValidIn(timers: map<TimerId, Timer>): set<TimerId> {
    set t | t in timers && timers[t].valid
  }

  ghost function ValidTimers(s: State): set<TimerId> {
    ValidIn(s.timers)
  }

  ghost predicate ActiveOk(s: State) {
    s.timersActive + (if s.Working(Unlink) then 1 else 0) == |ValidTimers(s)|
  }

  ghost predicate TimersOk(s: State) {
    forall t | t in s.timers :: TimerOk(s.timers[t], t in s.queue, s.StageOf(t))
  }

  ghost predicate Inv(s: State) {
    && StackOk(s.vm, s.timers.Keys)
    && QueueOk(s.queue, s.timers.Keys)
    && TimersOk(s)
    && WakeupOk(s)
    && ActiveOk(s)
  }

  // ------------------------------------------------------ preservation, per timer

  /** The stage of the timer an action is about, after the action. */
  function StageAfter(s: State, a: Action): Stage
    requires Enabled(s, a) && Touches(a)
  {
    match MoveOf(s, a)
    case Stay => s.StageOf(Touched(s, a))
    case Enter(task) => if task.Work? then task.stage else Idle
    case Leave => Idle
    case Proceed(st) => st
  }

  lemma UserStepOk(s: State, a: Action, queued: bool)
    requires Enabled(s, a) && (a.Init? || a.Start? || a.Stop? || a.Destroy?)
    requires TimerOk(s.timers[a.id], queued, Idle)
    ensures s.StageOf(a.id) == Idle
    ensures TimerOk(TimerAfter(s.timers[a.id], a), queued, StageAfter(s, a))
  {
  }

  lemma InitStepOk(s: State, a: Action, queued: bool)
    requires Enabled(s, a) && (a.AwaitReady? || a.CreateTimer?)
    requires TimerOk(s.timers[Current(s)], queued, s.StageOf(Current(s)))
    ensures TimerOk(TimerAfter(s.timers[Current(s)], a), queued, StageAfter(s, a))
  {
  }

  lemma KillStepOk(s: State, queued: bool)
    requires Enabled(s, SetKilled)
    requires TimerOk(s.timers[Current(s)], queued, s.StageOf(Current(s)))
    ensures TimerOk(TimerAfter(s.timers[Current(s)], SetKilled), queued, StageAfter(s, SetKilled))
  {
  }

  lemma SignalStepOk(s: State, a: Action, queued: bool)
    requires Enabled(s, a) && a.SendSignal?
    requires TimerOk(s.timers[Current(s)], queued, s.StageOf(Current(s)))
    ensures TimerOk(TimerAfter(s.timers[Current(s)], a), queued, StageAfter(s, a))
  {
  }

  lemma JoinStepOk(s: State, a: Action, queued: bool)
    requires Enabled(s, a) && (a.JoinThread? || a.DeleteTimer?)
    requires TimerOk(s.timers[Current(s)], queued, s.StageOf(Current(s)))
    ensures TimerOk(TimerAfter(s.timers[Current(s)], a), queued, StageAfter(s, a))
  {
  }

  lemma UnlinkStepOk(tm: Timer, queued: bool)
    requires TimerOk(tm, queued, Unlink)
    ensures TimerOk(TimerAfter(tm, UnlinkTimer), false, Idle)
  {
  }

  lemma DequeueStepOk(tm: Timer)
    requires TimerOk(tm, true, Idle)
    ensures TimerOk(TimerAfter(tm, Dequeue), false, Idle)
  {
  }

  lemma KernelStepOk(tm: Timer, queued: bool, stage: Stage, a: Action)
    requires TimerOk(tm, queued, stage)
    requires a.Stray? || (a.Expire? && tm.armed)
    ensures TimerOk(TimerAfter(tm, a), queued, stage)
  {
  }

  lemma StartupOk(tm: Timer, queued: bool, stage: Stage, fromTimer: bool, overrun: nat)
    requires TimerOk(tm, queued, stage) && (tm.thread.pc.Starting? || tm.thread.pc.TidSet?) && !tm.thread.Blocked()
    ensures TimerOk(HandlerTimer(tm, fromTimer, overrun), queued, stage)
  {
  }

  lemma ReceiptOk(tm: Timer, queued: bool, stage: Stage, fromTimer: bool, overrun: nat)
    requires TimerOk(tm, queued, stage) && tm.thread.pc.Waiting?
    requires if fromTimer then tm.thread.pendingExpiry else tm.thread.pendingOther > 0
    ensures TimerOk(HandlerTimer(tm, fromTimer, overrun), queued, stage)
  {
  }

  lemma KilledCheckOk(tm: Timer, queued: bool, stage: Stage, fromTimer: bool, overrun: nat)
    requires TimerOk(tm, queued, stage) && tm.thread.pc.Received?
    ensures TimerOk(HandlerTimer(tm, fromTimer, overrun), queued, stage)
  {
  }

  lemma NotificationOk(tm: Timer, queued: bool, stage: Stage, fromTimer: bool, overrun: nat)
    requires TimerOk(tm, queued, stage) && (tm.thread.pc.Notifying? || tm.thread.pc.Storing?)
    ensures TimerOk(HandlerTimer(tm, fromTimer, overrun), queued || tm.thread.pc.Notifying?, stage)
  {
  }

  lemma HandlerStepOk(tm: Timer, queued: bool, stage: Stage, fromTimer: bool, overrun: nat)
    requires TimerOk(tm, queued, stage) && tm.thread.Alive() && !tm.thread.Blocked()
    requires tm.thread.pc.Waiting? ==> if fromTimer then tm.thread.pendingExpiry else tm.thread.pendingOther > 0
    ensures TimerOk(HandlerTimer(tm, fromTimer, overrun), queued || tm.thread.pc.Notifying?, stage)
  {
    if tm.thread.pc.Starting? || tm.thread.pc.TidSet? {
      StartupOk(tm, queued, stage, fromTimer, overrun);
    } else if tm.thread.pc.Waiting? {
      ReceiptOk(tm, queued, stage, fromTimer, overrun);
    } else if tm.thread.pc.Received? {
      KilledCheckOk(tm, queued, stage, fromTimer, overrun);
    } else {
      NotificationOk(tm, queued, stage, fromTimer, overrun);
    }
  }

  // --------------------------------------------------- preservation, whole states

  /** Membership in the queue after an action. */
  lemma QueueKept(s: State, a: Action)
    requires QueueOk(s.queue, s.timers.Keys) && Enabled(s, a)
    ensures QueueOk(QueueAfter(s, a), s.timers.Keys)
    ensures forall t | t != Touched(s, a) :: t in QueueAfter(s, a) <==> t in s.queue
    ensures Touches(a) ==>
              var t := Touched(s, a);
              t in QueueAfter(s, a) <==>
              if a.Dequeue? || a.UnlinkTimer? then false
              else t in s.queue || (a.Handler? && s.timers[t].thread.pc.Notifying?)
  {
    match a
    case Handler(t, _, _) => EnqueuedKeeps(s.queue, t);
    case UnlinkTimer => RemovedKeeps(s.queue, Current(s));
    case Dequeue => assert s.queue == [s.queue[0]] + s.queue[1..];
    case _ =>
  }

  lemma StackKept(vm: seq<Task>, ids: set<TimerId>, move: Move)
    requires StackOk(vm, ids)
    requires move.Leave? || move.Proceed? ==> vm != []
    requires move.Proceed? ==> vm[|vm| - 1].Work? && !move.stage.Idle?
    requires move.Enter? ==>
               && (move.task.Callback? ==> vm != [] && vm[|vm| - 1].Drain?)
               && (!move.task.Callback? ==> vm == [] || vm[|vm| - 1].Callback?)
               && (move.task.Work? ==> move.task.id in ids && !move.task.stage.Idle?)
    ensures StackOk(Moved(vm, move), ids)
  {
  }

  lemma StageMoved(vm: seq<Task>, ids: set<TimerId>, move: Move, t: TimerId)
    requires StackOk(vm, ids)
    requires move.Leave? || move.Proceed? ==> vm != []
    requires move.Proceed? ==> vm[|vm| - 1].Work?
    ensures TopStage(Moved(vm, move), t)
         == match move
            case Stay => TopStage(vm, t)
            case Enter(task) => if task.Work? && task.id == t then task.stage else Idle
            case Leave => Idle
            case Proceed(st) => if vm[|vm| - 1].id == t then st else Idle
  {
    if move.Leave? && |vm| > 1 {
      assert !vm[|vm| - 2].Work?;
    }
  }

  /** Stages after an action. */
  lemma StageKept(s: State, a: Action, t: TimerId)
    requires StackOk(s.vm, s.timers.Keys) && Enabled(s, a)
    ensures TopStage(Moved(s.vm, MoveOf(s, a)), t)
         == if Touches(a) && t == Touched(s, a) then StageAfter(s, a) else s.StageOf(t)
  {
    StageMoved(s.vm, s.timers.Keys, MoveOf(s, a), t);
  }

  lemma WorkTouchedOk(s: State, a: Action)
    requires Inv(s) && Enabled(s, a) && Touches(a)
    requires a.AwaitReady? || a.CreateTimer? || a.SetKilled? || a.SendSignal? || a.JoinThread? || a.DeleteTimer?
    ensures var t := Touched(s, a);
            TimerOk(TimerAfter(s.timers[t], a), t in s.queue, StageAfter(s, a))
  {
    var t := Touched(s, a);
    var queued := t in s.queue;
    assert TimerOk(s.timers[t], queued, s.StageOf(t));
    if a.AwaitReady? || a.CreateTimer? {
      InitStepOk(s, a, queued);
    } else if a.SetKilled? {
      KillStepOk(s, queued);
    } else if a.SendSignal? {
      SignalStepOk(s, a, queued);
    } else {
      JoinStepOk(s, a, queued);
    }
  }

  lemma OutsideTouchedOk(s: State, a: Action)
    requires Inv(s) && Enabled(s, a)
    requires a.Init? || a.Start? || a.Stop? || a.Destroy? || a.Expire? || a.Stray?
    ensures TimerOk(TimerAfter(s.timers[a.id], a), a.id in s.queue, StageAfter(s, a))
  {
    assert TimerOk(s.timers[a.id], a.id in s.queue, s.StageOf(a.id));
    if a.Expire? || a.Stray? {
      KernelStepOk(s.timers[a.id], a.id in s.queue, s.StageOf(a.id), a);
    } else {
      UserStepOk(s, a, a.id in s.queue);
    }
  }

  lemma UnlinkTouchedOk(s: State)
    requires Inv(s) && Enabled(s, UnlinkTimer)
    ensures var t := Current(s);
            TimerOk(TimerAfter(s.timers[t], UnlinkTimer), t in QueueAfter(s, UnlinkTimer), StageAfter(s, UnlinkTimer))
  {
    var t := Current(s);
    QueueKept(s, UnlinkTimer);
    UnlinkStepOk(s.timers[t], t in s.queue);
  }

  lemma DequeueTouchedOk(s: State)
    requires Inv(s) && Enabled(s, Dequeue)
    ensures var t := s.queue[0];
            TimerOk(TimerAfter(s.timers[t], Dequeue), t in QueueAfter(s, Dequeue), StageAfter(s, Dequeue))
  {
    QueueKept(s, Dequeue);
    assert s.queue[0] in s.queue;
    DequeueStepOk(s.timers[s.queue[0]]);
  }

  lemma HandlerTouchedOk(s: State, a: Action)
    requires Inv(s) && Enabled(s, a) && a.Handler?
    ensures TimerOk(TimerAfter(s.timers[a.id], a), a.id in QueueAfter(s, a), s.StageOf(a.id))
  {
    QueueKept(s, a);
    assert TimerOk(s.timers[a.id], a.id in s.queue, s.StageOf(a.id));
    HandlerStepOk(s.timers[a.id], a.id in s.queue, s.StageOf(a.id), a.fromTimer, a.overrun);
  }

  lemma TouchedOk(s: State, a: Action)
    requires Inv(s) && Enabled(s, a) && Touches(a)
    ensures var t := Touched(s, a);
            TimerOk(TimerAfter(s.timers[t], a), t in QueueAfter(s, a), StageAfter(s, a))
  {
    if a.UnlinkTimer? {
      UnlinkTouchedOk(s);
    } else if a.Dequeue? {
      DequeueTouchedOk(s);
    } else if a.Handler? {
      HandlerTouchedOk(s, a);
    } else if a.Init? || a.Start? || a.Stop? || a.Destroy? || a.Expire? || a.Stray? {
      OutsideTouchedOk(s, a);
    } else {
      WorkTouchedOk(s, a);
    }
  }

  lemma TimersKept(s: State, a: Action)
    requires Inv(s) && Enabled(s, a)
    ensures TimersOk(Apply(s, a))
  {
    var s' := Apply(s, a);
    QueueKept(s, a);
    if Touches(a) {
      TouchedOk(s, a);
    }
    forall t | t in s'.timers ensures TimerOk(s'.timers[t], t in s'.queue, s'.StageOf(t)) {
      StageKept(s, a, t);
      if !Touches(a) || t != Touched(s, a) {
        assert TimerOk(s.timers[t], t in s.queue, s.StageOf(t));
      }
    }
  }

  lemma WakeupKept(s: State, a: Action)
    requires Inv(s) && Enabled(s, a)
    ensures WakeupOk(Apply(s, a))
  {
    var s' := Apply(s, a);
    if s'.queue != [] && !s'.vmInterrupt && !s'.Draining() {
      if a.Handler? && s.timers[a.id].thread.pc.Notifying? {
        assert s'.timers[a.id].thread.pc.Storing?;
      } else {
        DrainingKept(s, a);
        var t :| t in s.timers && s.timers[t].thread.pc.Storing?;
        StorerKept(s, a, t);
      }
    }
  }

  lemma BottomMoved(vm: seq<Task>, ids: set<TimerId>, move: Move)
    requires StackOk(vm, ids)
    requires move.Leave? || move.Proceed? ==> vm != []
    requires move.Proceed? ==> vm[|vm| - 1].Work?
    requires vm != [] && vm[0].Drain? && (move.Leave? ==> |vm| > 1)
    ensures var vm' := Moved(vm, move); vm' != [] && vm'[0].Drain?
  {
  }

  /** A drain that is under way stays so until it finds the queue empty. */
  lemma DrainingKept(s: State, a: Action)
    requires Inv(s) && Enabled(s, a)
    ensures s.Draining() && s.queue != [] ==> Apply(s, a).Draining()
    ensures a.Interrupt? ==> Apply(s, a).Draining()
  {
    if s.Draining() && s.queue != [] {
      BottomMoved(s.vm, s.timers.Keys, MoveOf(s, a));
    }
  }

  /** A handler that is about to raise the flag stays there until it does. */
  lemma StorerKept(s: State, a: Action, t: TimerId)
    requires Inv(s) && Enabled(s, a) && t in s.timers && s.timers[t].thread.pc.Storing?
    ensures Apply(s, a).timers[t].thread.pc.Storing? || Apply(s, a).vmInterrupt
  {
    if Touches(a) && t == Touched(s, a) {
      assert TimerOk(s.timers[t], t in s.queue, s.StageOf(t));
    }
  }

  lemma ValidPut(timers: map<TimerId, Timer>, t: TimerId, tm: Timer)
    requires t in timers
    ensures ValidIn(timers[t := tm]) == if tm.valid then ValidIn(timers) + {t} else ValidIn(timers) - {t}
  {
  }

  /** Only a finished initialisation and a finished destruction change which
  timers are valid. */
  lemma ValidTimersStep(s: State, a: Action)
    requires Enabled(s, a)
    ensures ValidTimers(Apply(s, a))
         == if a.CreateTimer? && a.ok then ValidTimers(s) + {Current(s)}
            else if a.UnlinkTimer? then ValidTimers(s) - {Current(s)}
            else ValidTimers(s)
  {
    if Touches(a) {
      ValidPut(s.timers, Touched(s, a), TimerAfter(s.timers[Touched(s, a)], a));
    }
  }

  lemma UnlinkWorkStep(s: State, a: Action)
    requires StackOk(s.vm, s.timers.Keys) && Enabled(s, a)
    ensures Apply(s, a).Working(Unlink)
        <==> (s.Working(Unlink) && !a.UnlinkTimer?) || (a.DeleteTimer? && s.Working(Delete(false)))
  {
    var move := MoveOf(s, a);
    if move.Leave? && |s.vm| > 1 {
      assert !s.vm[|s.vm| - 2].Work?;
    }
  }

  lemma ActiveKept(s: State, a: Action)
    requires Inv(s) && Enabled(s, a)
    ensures ActiveOk(Apply(s, a))
  {
    ValidTimersStep(s, a);
    UnlinkWorkStep(s, a);
    if a.CreateTimer? || a.UnlinkTimer? {
      assert TimerOk(s.timers[Current(s)], Current(s) in s.queue, s.StageOf(Current(s)));
    }
  }

  lemma StackStep(s: State, a: Action)
    requires StackOk(s.vm, s.timers.Keys) && Enabled(s, a)
    ensures StackOk(Apply(s, a).vm, s.timers.Keys)
  {
    StackKept(s.vm, s.timers.Keys, MoveOf(s, a));
  }

  /** Every action of every thread keeps the invariant. */
  lemma StepKeepsInv(s: State, a: Action)
    requires Inv(s) && Enabled(s, a)
    ensures Inv(Apply(s, a)) && Apply(s, a).timers.Keys == s.timers.Keys
  {
    QueueKept(s, a);
    StackStep(s, a);
    TimersKept(s, a);
    WakeupKept(s, a);
    ActiveKept(s, a);
  }
}
