/** The profiler's log rotation.

Each timer event is recorded in the current log. A flush replaces the current
log by a fresh one and hands the old one to the flush callback. The callback is
PHP code: while it runs, timer events arrive, and it may itself flush or
reconfigure the profiler. What a callback does to its profiler is given as a
list of actions, which may contain further flushes with their own callbacks.

The effect of such lists is first described on values, where the laws are
proved. The profiler object is then proved to have that effect. */
module Rotation {
  import opened Text
  import opened Frames
  import opened SampleLog
  import opened Fifo

  /** What a program may do to its profiler, apart from flushing it. Starting and
  stopping depend on the timer, so their outcome is part of the setting. */
  datatype Setting =
    | MaxDepth(depth: int)
    | Period(period: nat)
    | FlushCallback(maxSamples: int)
    | NoFlushCallback
    | Start(running: bool)
    | Stop(ok: bool)

  datatype Action =
    | TimerEvent(stack: seq<VmFrame>, count: nat, now: nat, reply: Reply)
    | UserFlush(reply: Reply)
    | Set(setting: Setting)

  /** What happens if a flush calls back: whether the callback is still callable,
  whether the timer can be stopped if it is not, and what goes on while it runs. */
  datatype Reply = Reply(callable: bool, stopped: bool, actions: seq<Action>)

  /** The callback stays callable and set, also in the callbacks of nested flushes. */
  predicate Keeps(reply: Reply)
    decreases reply
  {
    reply.callable && forall i | 0 <= i < |reply.actions| :: KeepsIn(reply.actions[i])
  }

  predicate KeepsIn(action: Action)
    decreases action
  {
    match action
    case TimerEvent(_, _, _, reply) => Keeps(reply)
    case UserFlush(reply) => Keeps(reply)
    case Set(setting) => !setting.NoFlushCallback?
  }

  /** All stack levels of the events in a list of actions, nested replies included. */
  function Levels(actions: seq<Action>): nat
    decreases actions
  {
    if actions == [] then 0 else LevelsOne(actions[0]) + Levels(actions[1..])
  }

  function LevelsOne(action: Action): nat
    decreases action
  {
    match action
    case TimerEvent(stack, _, _, reply) => |stack| + Levels(reply.actions)
    case UserFlush(reply) => Levels(reply.actions)
    case Set(_) => 0
  }

  const SIZE_MODULUS: int := 0x1_0000_0000_0000_0000

  /** max_samples is signed and is compared with a size_t. */
  predicate Full(entries: nat, maxSamples: int) {
    maxSamples != 0 && entries >= maxSamples % SIZE_MODULUS
  }

  /** All samples of a list of logs, in order. */
  function Flat<T>(parts: seq<seq<T>>): seq<T> {
    if parts == [] then [] else Flat(parts[..|parts| - 1]) + parts[|parts| - 1]
  }

  lemma FlatSnoc<T>(parts: seq<seq<T>>, part: seq<T>)
    ensures Flat(parts + [part]) == Flat(parts) + part
  {
    assert (parts + [part])[..|parts|] == parts;
  }

  // ------------------------------------------------------------ the effect, on values

  /** What a profiler has recorded and how it is set up. */
  datatype View = View(
    closed: seq<seq<Sample>>,   // the rotated logs, in order of creation
    current: seq<Sample>,
    recorded: seq<Sample>,      // every event so far
    handed: seq<nat>,           // the rotated logs passed to the callback, in order of the calls
    maxDepth: int,
    period: nat,
    hasCallback: bool,
    maxSamples: int,
    running: bool)

  /** A profiler as created. */
  function Created(maxDepth: int, period: nat): View {
    View([], [], [], [], maxDepth, period, false, 0, false)
  }

  function Noted(v: View, stack: seq<VmFrame>, count: nat, now: nat): View {
    var s := Sample(stack, v.maxDepth, count, now);
    v.(current := v.current + [s], recorded := v.recorded + [s])
  }

  function Rotated(v: View, passed: bool): View {
    v.(closed := v.closed + [v.current], current := [],
       handed := v.handed + if passed then [|v.closed|] else [])
  }

  /** A flush up to the point where the callback starts to run. */
  function FlushBegun(v: View, callable: bool, stopped: bool): View {
    var w := Rotated(v, v.hasCallback && callable);
    if v.hasCallback && !callable then w.(running := v.running && !stopped) else w
  }

  function Flushed(v: View, reply: Reply): View
    decreases reply, 0
  {
    var w := FlushBegun(v, reply.callable, reply.stopped);
    if v.hasCallback && reply.callable then Performed(w, reply.actions) else w
  }

  function Performed(v: View, actions: seq<Action>): View
    decreases actions
  {
    if actions == [] then v else Performed(After(v, actions[0]), actions[1..])
  }

  function Evented(v: View, stack: seq<VmFrame>, count: nat, now: nat, reply: Reply): View
    decreases reply, 1
  {
    var w := Noted(v, stack, count, now);
    if Full(|w.current|, w.maxSamples) then Flushed(w, reply) else w
  }

  function Configured(v: View, setting: Setting): View {
    match setting
    case MaxDepth(depth) => v.(maxDepth := depth)
    case Period(period) => v.(period := period)
    case FlushCallback(n) => v.(hasCallback := true, maxSamples := n)
    case NoFlushCallback => v.(hasCallback := false, maxSamples := 0)
    case Start(running) => v.(running := running)
    case Stop(ok) => v.(running := v.running && !ok)
  }

  function After(v: View, action: Action): View
    decreases action
  {
    match action
    case TimerEvent(stack, count, now, reply) => Evented(v, stack, count, now, reply)
    case UserFlush(reply) => Flushed(v, reply)
    case Set(setting) => Configured(v, setting)
  }

  function Destructed(v: View, reply: Reply): View {
    if v.current == [] then v else Flushed(v, reply)
  }

  // --------------------------------------------------------------------- the laws

  ghost predicate Rising(handed: seq<nat>, n: nat) {
    && (forall i | 0 <= i < |handed| :: handed[i] < n)
    && (forall i, j | 0 <= i < j < |handed| :: handed[i] < handed[j])
  }

  /** The logs in order of creation hold exactly the recorded events, and the
  callback has seen each rotated log at most once, in that order. */
  ghost predicate Sound(v: View) {
    v.recorded == Flat(v.closed) + v.current && Rising(v.handed, |v.closed|)
  }

  lemma NotedSound(v: View, stack: seq<VmFrame>, count: nat, now: nat)
    requires Sound(v)
    ensures Sound(Noted(v, stack, count, now))
  {
  }

  lemma RotatedSound(v: View, passed: bool)
    requires Sound(v)
    ensures Sound(Rotated(v, passed))
  {
    FlatSnoc(v.closed, v.current);
  }

  lemma {:induction false} FlushedSound(v: View, reply: Reply)
    requires Sound(v)
    ensures Sound(Flushed(v, reply))
    decreases reply, 0
  {
    RotatedSound(v, v.hasCallback && reply.callable);
    if v.hasCallback && reply.callable {
      PerformedSound(FlushBegun(v, true, reply.stopped), reply.actions);
    }
  }

  /** Nothing is lost, duplicated or reordered by any list of actions, however
  deeply its flushes nest. */
  lemma {:induction false} PerformedSound(v: View, actions: seq<Action>)
    requires Sound(v)
    ensures Sound(Performed(v, actions))
    decreases actions
  {
    if actions != [] {
      AfterSound(v, actions[0]);
      PerformedSound(After(v, actions[0]), actions[1..]);
    }
  }

  lemma {:induction false} AfterSound(v: View, action: Action)
    requires Sound(v)
    ensures Sound(After(v, action))
    decreases action
  {
    match action
    case TimerEvent(stack, count, now, reply) =>
      NotedSound(v, stack, count, now);
      FlushedSound(Noted(v, stack, count, now), reply);
    case UserFlush(reply) => FlushedSound(v, reply);
    case _ =>
  }

  /** What has been recorded, closed or handed over stays so: the current log grows
  until it is closed. */
  ghost predicate Grows(v: View, w: View) {
    && v.closed <= w.closed && v.recorded <= w.recorded && v.handed <= w.handed
    && v.current <= (if |w.closed| == |v.closed| then w.current else w.closed[|v.closed|])
  }

  lemma GrowsTransitive(u: View, v: View, w: View)
    requires Grows(u, v) && Grows(v, w)
    ensures Grows(u, w)
  {
  }

  lemma {:induction false} FlushedGrows(v: View, reply: Reply)
    ensures Grows(v, Flushed(v, reply)) && v.closed + [v.current] <= Flushed(v, reply).closed
    decreases reply, 0
  {
    if v.hasCallback && reply.callable {
      PerformedGrows(FlushBegun(v, true, reply.stopped), reply.actions);
    }
  }

  lemma {:induction false} PerformedGrows(v: View, actions: seq<Action>)
    ensures Grows(v, Performed(v, actions))
    decreases actions
  {
    if actions != [] {
      AfterGrows(v, actions[0]);
      PerformedGrows(After(v, actions[0]), actions[1..]);
      GrowsTransitive(v, After(v, actions[0]), Performed(v, actions));
    }
  }

  lemma {:induction false} AfterGrows(v: View, action: Action)
    ensures Grows(v, After(v, action))
    decreases action
  {
    match action
    case TimerEvent(stack, count, now, reply) =>
      var w := Noted(v, stack, count, now);
      FlushedGrows(w, reply);
      GrowsTransitive(v, w, Flushed(w, reply));
    case UserFlush(reply) => FlushedGrows(v, reply);
    case _ =>
  }

  function UpTo(n: nat): (r: seq<nat>)
    ensures |r| == n && forall i | 0 <= i < n :: r[i] == i
  {
    seq(n, i => i)
  }

  /** A callback is set, and every rotated log has been passed to it. */
  predicate AllHanded(v: View) {
    v.hasCallback && v.handed == UpTo(|v.closed|)
  }

  lemma RotatedHanded(v: View)
    requires AllHanded(v)
    ensures AllHanded(Rotated(v, true))
  {
    assert UpTo(|v.closed| + 1) == UpTo(|v.closed|) + [|v.closed|];
  }

  lemma {:induction false} FlushedHanded(v: View, reply: Reply)
    requires AllHanded(v) && Keeps(reply)
    ensures AllHanded(Flushed(v, reply))
    decreases reply, 0
  {
    RotatedHanded(v);
    PerformedHanded(FlushBegun(v, true, reply.stopped), reply.actions);
  }

  /** As long as the callback is kept, every log that is rotated is passed to it. */
  lemma {:induction false} PerformedHanded(v: View, actions: seq<Action>)
    requires AllHanded(v) && forall i | 0 <= i < |actions| :: KeepsIn(actions[i])
    ensures AllHanded(Performed(v, actions))
    decreases actions
  {
    if actions != [] {
      AfterHanded(v, actions[0]);
      PerformedHanded(After(v, actions[0]), actions[1..]);
    }
  }

  lemma {:induction false} AfterHanded(v: View, action: Action)
    requires AllHanded(v) && KeepsIn(action)
    ensures AllHanded(After(v, action))
    decreases action
  {
    match action
    case TimerEvent(stack, count, now, reply) => FlushedHanded(Noted(v, stack, count, now), reply);
    case UserFlush(reply) => FlushedHanded(v, reply);
    case _ =>
  }

  /** With max_samples at n, the current log is below n, and no log that was closed
  from the k-th on has more than n samples. */
  ghost predicate Capped(v: View, n: nat, k: nat) {
    && v.maxSamples == n && |v.current| < n < SIZE_MODULUS
    && forall i | k <= i < |v.closed| :: |v.closed[i]| <= n
  }

  lemma {:induction false} FlushedCapped(v: View, reply: Reply, n: nat, k: nat)
    requires Capped(v.(current := []), n, k) && |v.current| <= n
    requires reply.callable ==> forall i | 0 <= i < |reply.actions| :: Unset(reply.actions[i])
    ensures Capped(Flushed(v, reply), n, k)
    decreases reply, 0
  {
    var w := FlushBegun(v, reply.callable, reply.stopped);
    assert Capped(w, n, k);
    if v.hasCallback && reply.callable {
      PerformedCapped(w, reply.actions, n, k);
    }
  }

  /** The limit is not changed, also not in the callbacks of nested flushes. */
  predicate Unset(action: Action)
    decreases action
  {
    match action
    case TimerEvent(_, _, _, reply) => forall i | 0 <= i < |reply.actions| :: Unset(reply.actions[i])
    case UserFlush(reply) => forall i | 0 <= i < |reply.actions| :: Unset(reply.actions[i])
    case Set(setting) => !setting.FlushCallback? && !setting.NoFlushCallback?
  }

  /** While the limit stays at n, no log ever has more than n samples. */
  lemma {:induction false} PerformedCapped(v: View, actions: seq<Action>, n: nat, k: nat)
    requires Capped(v, n, k) && forall i | 0 <= i < |actions| :: Unset(actions[i])
    ensures Capped(Performed(v, actions), n, k)
    decreases actions
  {
    if actions != [] {
      AfterCapped(v, actions[0], n, k);
      PerformedCapped(After(v, actions[0]), actions[1..], n, k);
    }
  }

  lemma {:induction false} AfterCapped(v: View, action: Action, n: nat, k: nat)
    requires Capped(v, n, k) && Unset(action)
    ensures Capped(After(v, action), n, k)
    decreases action
  {
    match action
    case TimerEvent(stack, count, now, reply) =>
      var w := Noted(v, stack, count, now);
      if Full(|w.current|, n) {
        FlushedCapped(w, reply, n, k);
      }
    case UserFlush(reply) => FlushedCapped(v, reply, n, k);
    case _ =>
  }

  // -------------------------------------------------------------------- lists of logs

  /** Every log of a list is valid, has the given epoch and holds the given samples. */
  ghost predicate LogsOk(ls: seq<Log>, parts: seq<seq<Sample>>, epoch: nat)
    reads ls
  {
    && |ls| == |parts|
    && (ls == [] ||
        var n := |ls| - 1;
        && LogsOk(ls[..n], parts[..n], epoch)
        && ls[n].Valid() && ls[n].epoch == epoch && ls[n].samples == parts[n])
  }

  lemma LogsOkSnoc(ls: seq<Log>, parts: seq<seq<Sample>>, epoch: nat, l: Log, part: seq<Sample>)
    ensures LogsOk(ls + [l], parts + [part], epoch)
       <==> LogsOk(ls, parts, epoch) && l.Valid() && l.epoch == epoch && l.samples == part
  {
    if |ls| == |parts| {
      assert (ls + [l])[..|ls|] == ls && (parts + [part])[..|parts|] == parts;
    }
  }

  lemma OneLogOk(l: Log)
    requires l.Valid()
    ensures LogsOk([l], [l.samples], l.epoch)
  {
    LogsOkSnoc([], [], l.epoch, l, l.samples);
    assert [] + [l] == [l] && [] + [l.samples] == [l.samples];
  }

  /** What the recursion says about each log. */
  lemma {:induction false} LogOkAt(ls: seq<Log>, parts: seq<seq<Sample>>, epoch: nat, i: nat)
    requires LogsOk(ls, parts, epoch) && i < |ls|
    ensures ls[i].Valid() && ls[i].epoch == epoch && ls[i].samples == parts[i]
    decreases |ls|
  {
    if i < |ls| - 1 {
      LogOkAt(ls[..|ls| - 1], parts[..|ls| - 1], epoch, i);
    }
  }

  method FreshLog(src: Log) returns (log: Log)
    ensures fresh(log) && log.Valid() && log.entries == [] && log.samples == [] && |log.frames| == 1
    ensures log.maxDepth == src.maxDepth && log.epoch == src.epoch && log.period == src.period
  {
    log := new Log();
    log.CopyOptions(src);
  }

  method FirstLog(now: nat, maxDepth: int, period: nat) returns (log: Log)
    ensures fresh(log) && log.Valid() && log.entries == [] && log.samples == [] && |log.frames| == 1
    ensures log.epoch == now && log.maxDepth == maxDepth && log.period == period
  {
    log := new Log();
    log.maxDepth, log.epoch, log.period := maxDepth, now, period;
  }

  method AddSample(log: Log, stack: seq<VmFrame>, count: nat, now: nat) returns (ok: bool)
    requires log.Valid()
    modifies log
    ensures |log.frames| <= |old(log.frames)| + |stack|
    ensures |old(log.frames)| + |stack| <= UINT32_MODULUS ==> ok
    ensures !ok ==> |log.frames| > UINT32_MODULUS
    ensures log.maxDepth == old(log.maxDepth) && log.epoch == old(log.epoch) && log.period == old(log.period)
    ensures ok ==>
              && log.Valid()
              && log.samples == old(log.samples) + [Sample(stack, log.maxDepth, count, now)]
              && |log.entries| == |old(log.entries)| + 1
              && log.LastIs(stack, log.maxDepth, count, now)
  {
    ok := log.Add(stack, count, now);
  }

  class Profiler {
    var log: Log
    var hasCallback: bool
    var maxSamples: int
    var running: bool

    ghost const epoch: nat
    /** Every log of this profiler in order of creation, the current one last. */
    ghost var logs: seq<Log>
    /** What the logs before the current one held when they were rotated. */
    ghost var closed: seq<seq<Sample>>
    ghost var recorded: seq<Sample>
    ghost var handed: seq<nat>

    ghost function AsView(): View
      reads this, log
    {
      View(closed, log.samples, recorded, handed, log.maxDepth, log.period,
                    hasCallback, maxSamples, running)
    }

    /** The log objects hold what the view says, and the view is sound. */
    ghost predicate Valid()
      reads this, log, logs
    {
      && logs != [] && log == logs[|logs| - 1]
      && Distinct(logs)
      && |closed| == |logs| - 1
      && LogsOk(logs, closed + [log.samples], epoch)
      && Sound(AsView())
    }

    constructor (now: nat, defaultMaxDepth: int, defaultPeriod: nat)
      ensures Valid() && fresh(logs) && epoch == now && log.epoch == now
      ensures AsView() == Created(defaultMaxDepth, defaultPeriod) && |log.frames| == 1
      ensures log.maxDepth == defaultMaxDepth && log.period == defaultPeriod
    {
      var first := FirstLog(now, defaultMaxDepth, defaultPeriod);
      log := first;
      hasCallback, maxSamples, running := false, 0, false;
      epoch := now;
      logs := [first];
      closed, recorded, handed := [], [], [];
      new;
      OneLogOk(first);
      assert closed + [log.samples] == [first.samples];
    }

    /** Earlier logs stay; later ones are new objects. */
    twostate predicate Continues()
      reads this
    {
      old(logs) <= logs && forall i | |old(logs)| <= i < |logs| :: fresh(logs[i])
    }

    /** The only failure is a frame index beyond 32 bits, and the current log grows by at
    most one frame per stack level. So with room for the levels nothing fails. */
    twostate predicate FailsOnlyFull(ok: bool, levels: nat)
      reads this, log
    {
      && (!ok ==> |log.frames| > UINT32_MODULUS)
      && |log.frames| <= |old(log.frames)| + levels
    }

    /** Replace the current log by a fresh one with the same options. The old log
    will or will not be passed to the callback. */
    method Rotate(ghost passed: bool) returns (oldLog: Log)
      requires Valid()
      modifies this`log, this`logs, this`closed, this`handed
      ensures Valid() && Continues() && AsView() == Rotated(old(AsView()), passed)
      ensures oldLog == old(log) && fresh(log) && log.entries == [] && |log.frames| == 1
    {
      oldLog := log;
      CurrentEpoch();
      var newLog := FreshLog(oldLog);
      LogsOkSnoc(logs, closed + [log.samples], epoch, newLog, []);
      Install(newLog, passed);
    }

    lemma CurrentEpoch()
      requires Valid()
      ensures log.Valid() && log.epoch == epoch && |log.entries| == |log.samples| && |log.frames| >= 1
    {
      LogOkAt(logs, closed + [log.samples], epoch, |closed|);
    }

    method Install(newLog: Log, ghost passed: bool)
      requires Valid() && newLog !in logs
      requires newLog.samples == [] && newLog.maxDepth == log.maxDepth && newLog.period == log.period
      requires LogsOk(logs + [newLog], closed + [log.samples] + [[]], epoch)
      modifies this`log, this`logs, this`closed, this`handed
      ensures Valid() && log == newLog && logs == old(logs) + [newLog]
      ensures AsView() == Rotated(old(AsView()), passed)
    {
      RotatedSound(AsView(), passed);
      handed := handed + (if passed then [|closed|] else []);
      closed := closed + [log.samples];
      logs := logs + [newLog];
      log := newLog;
    }

    /** The current log is the one from before, or a new one. */
    twostate lemma CurrentLog()
      requires old(Valid()) && Valid() && Continues()
      ensures log == old(log) || fresh(log)
    {
      if |logs| == |old(logs)| {
        assert logs == old(logs);
      }
    }

    /** ExcimerProfiler_stop, which may fail in the kernel. */
    method Halt(ok: bool)
      requires Valid()
      modifies this`running
      ensures Valid() && AsView() == Configured(old(AsView()), Stop(ok))
    {
      if running && ok {
        running := false;
      }
    }

    /** Rotate, and stop the timer if the callback has become uncallable. */
    method BeginFlush(callable: bool, stopped: bool) returns (oldLog: Log)
      requires Valid()
      modifies this
      ensures oldLog == old(log) && Continues() && fresh(log) && |log.frames| == 1
      ensures Valid() && AsView() == FlushBegun(old(AsView()), callable, stopped)
    {
      oldLog := Rotate(hasCallback && callable);
      if hasCallback && !callable {
        Halt(stopped);
      }
    }

    /** ExcimerProfiler_flush: rotate, then call the callback with the old log. */
    method Flush(reply: Reply) returns (ok: bool, oldLog: Log)
      requires Valid()
      modifies this
      ensures oldLog == old(log) && Continues()
      ensures ok ==> Valid() && AsView() == Flushed(old(AsView()), reply)
      ensures FailsOnlyFull(ok, Levels(reply.actions))
      ensures reply.actions == [] ==> ok
      decreases reply, 0
    {
      ok := true;
      CurrentEpoch();
      oldLog := BeginFlush(reply.callable, reply.stopped);
      if hasCallback && reply.callable {
        ok := Perform(reply.actions);
      }
    }

    /** Whatever happens while PHP code runs. */
    method Perform(actions: seq<Action>) returns (ok: bool)
      requires Valid()
      modifies this, log
      ensures Continues()
      ensures ok ==> Valid() && AsView() == Performed(old(AsView()), actions)
      ensures FailsOnlyFull(ok, Levels(actions))
      ensures actions == [] ==> ok
      decreases actions
    {
      if actions == [] {
        return true;
      }
      ok := PerformOne(actions[0]);
      if ok {
        CurrentLog();
        ok := Perform(actions[1..]);
      }
    }

    /** Changing only the current log keeps the list of logs in order. */
    twostate lemma LastChanged()
      requires old(Valid()) && logs == old(logs) && log == old(log) && closed == old(closed)
      requires log.Valid() && log.epoch == epoch
      requires forall i | 0 <= i < |closed| :: unchanged(logs[i])
      ensures LogsOk(logs, closed + [log.samples], epoch)
    {
      var n := |closed|;
      assert old(closed + [log.samples])[..n] == closed;
      assert old(LogsOk(logs[..n], closed, epoch));
      assert (closed + [log.samples])[..n] == closed;
    }

    /** Add one sample to the current log. */
    method Record(stack: seq<VmFrame>, count: nat, now: nat) returns (ok: bool)
      requires Valid()
      modifies this`recorded, log
      ensures ok ==> Valid() && AsView() == Noted(old(AsView()), stack, count, now)
      ensures ok ==> log == old(log) && log.LastIs(stack, old(log.maxDepth), count, now)
      ensures FailsOnlyFull(ok, |stack|)
    {
      CurrentEpoch();
      NotedSound(AsView(), stack, count, now);
      ok := AddSample(log, stack, count, now);
      if ok {
        LastChanged();
        recorded := recorded + [Sample(stack, log.maxDepth, count, now)];
      }
    }

    /** ExcimerProfiler_event: record the event, and flush when the log is full. */
    method Event(stack: seq<VmFrame>, count: nat, now: nat, reply: Reply) returns (ok: bool)
      requires Valid()
      modifies this, log
      ensures Continues()
      ensures ok ==> Valid() && AsView() == Evented(old(AsView()), stack, count, now, reply)
      ensures ok ==> old(log).LastIs(stack, old(log.maxDepth), count, now)
      ensures FailsOnlyFull(ok, |stack| + Levels(reply.actions))
      decreases reply, 1
    {
      ok := Record(stack, count, now);
      if ok {
        CurrentEpoch();
        if Full(|log.entries|, maxSamples) {
          ghost var oldLog;
          ok, oldLog := Flush(reply);
        }
      }
    }

    method PerformOne(action: Action) returns (ok: bool)
      requires Valid()
      modifies this, log
      ensures Continues()
      ensures ok ==> Valid() && AsView() == After(old(AsView()), action)
      ensures FailsOnlyFull(ok, LevelsOne(action))
      ensures action.Set? ==> ok
      decreases action
    {
      ok := true;
      match action {
        case TimerEvent(stack, count, now, reply) =>
          ok := Event(stack, count, now, reply);
        case UserFlush(reply) =>
          var oldLog;
          ok, oldLog := Flush(reply);
        case Set(setting) =>
          Configure(setting);
      }
    }

    /** The setters, start and stop. */
    method Configure(setting: Setting)
      requires Valid()
      modifies this, log
      ensures Valid() && AsView() == Configured(old(AsView()), setting) && logs == old(logs)
      ensures log.frames == old(log.frames)
    {
      match setting {
        case MaxDepth(depth) =>
          SetOptions(depth, log.period);
        case Period(period) =>
          SetOptions(log.maxDepth, period);
        case FlushCallback(n) =>
          SetFields(true, n, running);
        case NoFlushCallback =>
          SetFields(false, 0, running);
        case Start(result) =>
          SetFields(hasCallback, maxSamples, result);
        case Stop(ok) =>
          Halt(ok);
      }
    }

    method SetFields(callback: bool, n: int, run: bool)
      requires Valid()
      modifies this`hasCallback, this`maxSamples, this`running
      ensures Valid()
      ensures AsView() == old(AsView()).(hasCallback := callback, maxSamples := n, running := run)
    {
      hasCallback, maxSamples, running := callback, n, run;
    }

    /** setMaxDepth and setPeriod act on the current log. */
    method SetOptions(depth: int, period: nat)
      requires Valid()
      modifies log`maxDepth, log`period
      ensures Valid() && AsView() == old(AsView()).(maxDepth := depth, period := period)
    {
      CurrentEpoch();
      log.maxDepth := depth;
      log.period := period;
      LastChanged();
    }

    /** ExcimerProfiler_dtor: flush what is left. */
    method Destruct(reply: Reply) returns (ok: bool)
      requires Valid()
      modifies this
      ensures Continues()
      ensures ok ==> Valid() && AsView() == Destructed(old(AsView()), reply)
      ensures FailsOnlyFull(ok, Levels(reply.actions))
      ensures reply.actions == [] ==> ok
    {
      ok := true;
      CurrentEpoch();
      if |log.entries| != 0 {
        ghost var oldLog;
        ok, oldLog := Flush(reply);
      }
    }
  }
}
