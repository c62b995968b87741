/** From timer expirations to logs: where every expiration of a profiler's timer
ends up, and what the logs' time stamps allow. */
module EndToEnd {
  import opened Text
  import opened SampleLog
  import opened Speedscope
  import opened Rotation
  import opened Destruction
  import TimerProtocol
  import TimerTheorems
  import JointRun

  // ----------------------------------------------------------------- event counts

  lemma {:induction false} CountsTotal(samples: seq<Sample>)
    ensures TimerTheorems.Sum(JointRun.Counts(samples)) == SampleTotal(samples)
    decreases |samples|
  {
    if samples != [] {
      var n := |samples| - 1;
      CountsTotal(samples[..n]);
      assert JointRun.Counts(samples) == JointRun.Counts(samples[..n]) + [samples[n].eventCount];
      TimerTheorems.SumAppend(JointRun.Counts(samples[..n]), [samples[n].eventCount]);
      assert [samples[n].eventCount][1..] == [];
    }
  }

  lemma {:induction false} SampleTotalAppend(s1: seq<Sample>, s2: seq<Sample>)
    ensures SampleTotal(s1 + s2) == SampleTotal(s1) + SampleTotal(s2)
    decreases |s2|
  {
    if s2 == [] {
      assert s1 + s2 == s1;
    } else {
      var n := |s2| - 1;
      assert (s1 + s2)[..|s1| + n] == s1 + s2[..n];
      SampleTotalAppend(s1, s2[..n]);
    }
  }

  lemma {:induction false} StandingTotal(entries: seq<Entry>, samples: seq<Sample>)
    requires |entries| == |samples|
    requires forall i | 0 <= i < |entries| :: entries[i].eventCount == samples[i].eventCount
    ensures EntryTotal(entries) == SampleTotal(samples)
    decreases |entries|
  {
    if entries != [] {
      StandingTotal(entries[..|entries| - 1], samples[..|entries| - 1]);
    }
  }

  /** A log's event_count is the total of the samples it was given. */
  lemma LogTotal(log: Log)
    requires log.Valid()
    ensures log.eventCount == SampleTotal(log.samples)
  {
    forall i | 0 <= i < |log.entries| ensures log.entries[i].eventCount == log.samples[i].eventCount {
      assert EntryStandsFor(log.frames, log.reverse, log.entries[i], log.samples[i]);
    }
    StandingTotal(log.entries, log.samples);
  }

  ghost function EventTotal(logs: seq<Log>): nat
    reads logs
  {
    if logs == [] then 0 else EventTotal(logs[..|logs| - 1]) + logs[|logs| - 1].eventCount
  }

  lemma {:induction false} LogsTotal(logs: seq<Log>, parts: seq<seq<Sample>>, epoch: nat)
    requires LogsOk(logs, parts, epoch)
    ensures EventTotal(logs) == SampleTotal(Flat(parts))
    decreases |logs|
  {
    if logs != [] {
      var n := |logs| - 1;
      LogsTotal(logs[..n], parts[..n], epoch);
      LogTotal(logs[n]);
      SampleTotalAppend(Flat(parts[..n]), parts[n]);
    }
  }

  /** Nothing has happened yet. */
  predicate Fresh(v: View) {
    v.closed == [] && v.current == [] && v.recorded == [] && v.handed == []
  }

  /** Every expiration that the kernel reports for a profiler's timer, overruns included,
  is counted in one of the profiler's logs, or is still pending or in the handler's
  hands, or was discarded with a destroyed timer or a killed handler: for every
  joint run, and the log objects that result from it. */
  lemma ExpirationsReachLogs(s0: TimerProtocol.State, v0: View, run: seq<JointRun.Joint>,
                             s: TimerProtocol.State, v: View, t: TimerProtocol.TimerId, p: Profiler)
    requires TimerTheorems.Initial(s0) && t in s0.timers && Fresh(v0)
    requires JointRun.Runs(s0, v0, run, s, v, t)
    requires p.Valid() && p.AsView() == v
    ensures t in s.timers && TimerTheorems.Runs(s0, JointRun.Timers(s0, v0, run, s, v, t), s)
    ensures TimerTheorems.Sum(TimerTheorems.Fired(s0, JointRun.Timers(s0, v0, run, s, v, t), s, t))
         == EventTotal(p.logs) + s.timers[t].eventCount
            + TimerTheorems.Sum(TimerTheorems.WipedOut(s0, JointRun.Timers(s0, v0, run, s, v, t), s, t))
    ensures TimerTheorems.Sum(TimerTheorems.Reported(s0, JointRun.Timers(s0, v0, run, s, v, t), s, t))
         == EventTotal(p.logs) + s.timers[t].eventCount + TimerTheorems.InHand(s.timers[t].thread.pc)
            + TimerTheorems.Sum(TimerTheorems.WipedOut(s0, JointRun.Timers(s0, v0, run, s, v, t), s, t))
            + TimerTheorems.Sum(TimerTheorems.Dropped(s0, JointRun.Timers(s0, v0, run, s, v, t), s, t))
  {
    RecordedTotal(s0, v0, run, s, v, t);
    TimerTheorems.Conservation(s0, JointRun.Timers(s0, v0, run, s, v, t), s, t);
    LogsTotal(p.logs, p.closed + [p.log.samples], p.epoch);
    FlatSnoc(p.closed, p.log.samples);
  }

  lemma RecordedTotal(s0: TimerProtocol.State, v0: View, run: seq<JointRun.Joint>,
                      s: TimerProtocol.State, v: View, t: TimerProtocol.TimerId)
    requires Fresh(v0) && JointRun.Runs(s0, v0, run, s, v, t)
    ensures TimerTheorems.Runs(s0, JointRun.Timers(s0, v0, run, s, v, t), s)
    ensures JointRun.Counts(v.recorded) == TimerTheorems.Delivered(s0, JointRun.Timers(s0, v0, run, s, v, t), s, t)
    ensures SampleTotal(v.recorded)
         == TimerTheorems.Sum(TimerTheorems.Delivered(s0, JointRun.Timers(s0, v0, run, s, v, t), s, t))
  {
    JointRun.RecordedIsDelivered(s0, v0, run, s, v, t);
    assert JointRun.Counts(v0.recorded) == [];
    CountsTotal(v.recorded);
  }

  /** The log objects do result from it: a profiler object that takes the steps of a
  joint run has the view that the run ends with. */
  method Profile(now: nat, maxDepth: int, period: nat, steps: seq<JointRun.Step>,
                 ghost s0: TimerProtocol.State, ghost run: seq<JointRun.Joint>,
                 ghost s: TimerProtocol.State, ghost v: View, ghost t: TimerProtocol.TimerId)
    returns (ok: bool, p: Profiler)
    requires TimerTheorems.Initial(s0) && t in s0.timers
    requires JointRun.Runs(s0, Created(maxDepth, period), run, s, v, t)
    requires steps == JointRun.AllSteps(s0, Created(maxDepth, period), run, s, v, t)
    ensures ok ==> p.Valid() && p.AsView() == v
    ensures !ok ==> |p.log.frames| > UINT32_MODULUS
    ensures 1 + JointRun.StepLevels(steps) <= UINT32_MODULUS ==> ok
  {
    p := new Profiler(now, maxDepth, period);
    JointRun.RunSteps(s0, p.AsView(), run, s, v, t);
    ok := JointRun.Follow(p, steps);
  }

  lemma {:induction false} SizeAtMostTotal(samples: seq<Sample>)
    requires forall i | 0 <= i < |samples| :: samples[i].eventCount >= 1
    ensures |samples| <= SampleTotal(samples)
    decreases |samples|
  {
    if samples != [] {
      SizeAtMostTotal(samples[..|samples| - 1]);
    }
  }

  lemma {:induction false} PartOfFlat(parts: seq<seq<Sample>>, k: nat, i: nat)
    requires k < |parts| && i < |parts[k]|
    ensures parts[k][i] in Flat(parts)
    decreases |parts|
  {
    if k < |parts| - 1 {
      PartOfFlat(parts[..|parts| - 1], k, i);
    }
  }

  ghost predicate AllPositive(samples: seq<Sample>) {
    forall i | 0 <= i < |samples| :: samples[i].eventCount >= 1
  }

  lemma RecordedPositive(s0: TimerProtocol.State, v0: View, run: seq<JointRun.Joint>,
                         s: TimerProtocol.State, v: View, t: TimerProtocol.TimerId)
    requires TimerTheorems.Initial(s0) && Fresh(v0) && JointRun.Runs(s0, v0, run, s, v, t)
    ensures AllPositive(v.recorded)
  {
    RecordedTotal(s0, v0, run, s, v, t);
    TimerTheorems.AllDeliveredPositive(s0, JointRun.Timers(s0, v0, run, s, v, t), s, t);
    forall i | 0 <= i < |v.recorded| ensures v.recorded[i].eventCount >= 1 {
      assert JointRun.Counts(v.recorded)[i] in JointRun.Counts(v.recorded);
    }
  }

  lemma LogSizeAtMostEvents(p: Profiler, k: nat)
    requires p.Valid() && AllPositive(p.recorded) && k < |p.logs|
    ensures |p.logs[k].entries| <= p.logs[k].eventCount
  {
    var parts := p.closed + [p.log.samples];
    FlatSnoc(p.closed, p.log.samples);
    LogOkAt(p.logs, parts, p.epoch, k);
    forall i | 0 <= i < |parts[k]| ensures parts[k][i].eventCount >= 1 {
      PartOfFlat(parts, k, i);
    }
    SizeAtMostTotal(parts[k]);
    LogTotal(p.logs[k]);
  }

  /** In every log of the profiler, the number of entries is at most the event count,
  because no dispatch passes a count of zero. */
  lemma SizeAtMostEvents(s0: TimerProtocol.State, v0: View, run: seq<JointRun.Joint>,
                         s: TimerProtocol.State, v: View, t: TimerProtocol.TimerId, p: Profiler, k: nat)
    requires TimerTheorems.Initial(s0) && Fresh(v0) && JointRun.Runs(s0, v0, run, s, v, t)
    requires p.Valid() && p.AsView() == v && k < |p.logs|
    ensures |p.logs[k].entries| <= p.logs[k].eventCount
  {
    RecordedPositive(s0, v0, run, s, v, t);
    LogSizeAtMostEvents(p, k);
  }

  // ------------------------------------------------------------------ time stamps

  ghost predicate InOrder(samples: seq<Sample>, epoch: nat) {
    && (forall i | 0 <= i < |samples| :: epoch <= samples[i].timestamp)
    && (forall i, j | 0 <= i < j < |samples| :: samples[i].timestamp <= samples[j].timestamp)
  }

  lemma {:induction false} InOrderParts(parts: seq<seq<Sample>>, epoch: nat, k: nat)
    requires InOrder(Flat(parts), epoch) && k < |parts|
    ensures InOrder(parts[k], epoch)
    decreases |parts|
  {
    var n := |parts| - 1;
    var front, last := Flat(parts[..n]), parts[n];
    if k < n {
      assert forall i | 0 <= i < |front| :: front[i] == Flat(parts)[i];
      InOrderParts(parts[..n], epoch, k);
    } else {
      assert forall i | 0 <= i < |last| :: last[i] == Flat(parts)[|front| + i];
    }
  }

  /** uint64_t subtraction. */
  function Minus64(a: int, b: int): int {
    (a - b) % TWO_64
  }

  /** The subtraction behind getTimestamp is exact precisely when the clock has not
  run backwards past the profiler's creation. */
  lemma TimestampExactIff(timestamp: nat, epoch: nat)
    requires timestamp < TWO_64 && epoch < TWO_64
    ensures Minus64(timestamp, epoch) == timestamp - epoch <==> epoch <= timestamp
  {
  }

  /** The last reading of the clock after a list of actions, nested replies included. */
  function Clock(actions: seq<Action>, last: nat): nat
    decreases actions
  {
    if actions == [] then last else Clock(actions[1..], ClockOne(actions[0], last))
  }

  function ClockOne(action: Action, last: nat): nat
    decreases action
  {
    match action
    case TimerEvent(_, _, now, reply) => Clock(reply.actions, now)
    case UserFlush(reply) => Clock(reply.actions, last)
    case Set(_) => last
  }

  /** The clock does not run backwards over these actions. */
  predicate Ticking(actions: seq<Action>, last: nat)
    decreases actions
  {
    actions == [] || (TickingOne(actions[0], last) && Ticking(actions[1..], ClockOne(actions[0], last)))
  }

  predicate TickingOne(action: Action, last: nat)
    decreases action
  {
    match action
    case TimerEvent(_, _, now, reply) => last <= now && Ticking(reply.actions, now)
    case UserFlush(reply) => Ticking(reply.actions, last)
    case Set(_) => true
  }

  /** Everything recorded is in order, between the epoch and the last reading. */
  ghost predicate UpToNow(v: View, epoch: nat, last: nat) {
    && epoch <= last
    && InOrder(v.recorded, epoch)
    && forall i | 0 <= i < |v.recorded| :: v.recorded[i].timestamp <= last
  }

  lemma {:induction false} FlushedUpToNow(v: View, reply: Reply, epoch: nat, last: nat)
    requires UpToNow(v, epoch, last) && Ticking(reply.actions, last)
    ensures UpToNow(Flushed(v, reply), epoch, Clock(reply.actions, last)) && last <= Clock(reply.actions, last)
    decreases reply, 0
  {
    var w := FlushBegun(v, reply.callable, reply.stopped);
    PerformedUpToNow(w, reply.actions, epoch, last);
  }

  lemma {:induction false} PerformedUpToNow(v: View, actions: seq<Action>, epoch: nat, last: nat)
    requires UpToNow(v, epoch, last) && Ticking(actions, last)
    ensures UpToNow(Performed(v, actions), epoch, Clock(actions, last)) && last <= Clock(actions, last)
    decreases actions
  {
    if actions != [] {
      AfterUpToNow(v, actions[0], epoch, last);
      PerformedUpToNow(After(v, actions[0]), actions[1..], epoch, ClockOne(actions[0], last));
    }
  }

  lemma {:induction false} AfterUpToNow(v: View, action: Action, epoch: nat, last: nat)
    requires UpToNow(v, epoch, last) && TickingOne(action, last)
    ensures UpToNow(After(v, action), epoch, ClockOne(action, last)) && last <= ClockOne(action, last)
    decreases action
  {
    match action
    case TimerEvent(stack, count, now, reply) =>
      var w := Noted(v, stack, count, now);
      assert UpToNow(w, epoch, now);
      FlushedUpToNow(w, reply, epoch, now);
    case UserFlush(reply) => FlushedUpToNow(v, reply, epoch, last);
    case Set(_) =>
  }

  /** Recorded in order means in order in every log, current or rotated. */
  lemma EntriesInOrder(p: Profiler, k: nat)
    requires p.Valid() && InOrder(p.recorded, p.epoch) && k < |p.logs|
    ensures p.logs[k].Valid() && p.logs[k].epoch == p.epoch
    ensures var es := p.logs[k].entries;
            && (forall i | 0 <= i < |es| :: p.epoch <= es[i].timestamp)
            && (forall i, j | 0 <= i < j < |es| :: es[i].timestamp <= es[j].timestamp)
  {
    var parts := p.closed + [p.log.samples];
    FlatSnoc(p.closed, p.log.samples);
    InOrderParts(parts, p.epoch, k);
    LogOkAt(p.logs, parts, p.epoch, k);
    SameTimes(p.logs[k]);
  }

  /** The entries are in order of time. The 64-bit subtractions behind getTimestamp are
  exact, and so is the length of a Speedscope profile that lasts less than 2^63
  nanoseconds: no two entries are further apart, and the first and last are as far. */
  ghost predicate TimesExact(es: seq<Entry>, epoch: nat) {
    && (forall i, j | 0 <= i < j < |es| :: es[i].timestamp <= es[j].timestamp)
    && (forall i | 0 <= i < |es| && es[i].timestamp < TWO_64 ::
          Minus64(es[i].timestamp, epoch) == es[i].timestamp - epoch)
    && (Elapsed(es) < TWO_63 ==> AsLong(Elapsed(es)) == Elapsed(es) >= 0)
    && (forall i, j | 0 <= i < j < |es| :: es[j].timestamp - es[i].timestamp <= Elapsed(es))
    && (es != [] ==> Elapsed(es) == es[|es| - 1].timestamp - es[0].timestamp)
  }

  /** Under a clock that does not run backwards from the creation of the profiler on,
  this holds of every log, rotated or current. */
  lemma NoWrapInTimes(p: Profiler, v0: View, actions: seq<Action>, k: nat)
    requires p.Valid() && Fresh(v0) && p.AsView() == Performed(v0, actions) && Ticking(actions, p.epoch)
    requires k < |p.logs|
    ensures p.logs[k].Valid() && TimesExact(p.logs[k].entries, p.logs[k].epoch)
  {
    assert UpToNow(v0, p.epoch, p.epoch);
    PerformedUpToNow(v0, actions, p.epoch, p.epoch);
    EntriesInOrder(p, k);
    OrderedTimes(p.logs[k].entries, p.epoch);
  }

  lemma OrderedTimes(es: seq<Entry>, epoch: nat)
    requires forall i | 0 <= i < |es| :: epoch <= es[i].timestamp
    requires forall i, j | 0 <= i < j < |es| :: es[i].timestamp <= es[j].timestamp
    ensures TimesExact(es, epoch)
  {
    forall i | 0 <= i < |es| && es[i].timestamp < TWO_64
      ensures Minus64(es[i].timestamp, epoch) == es[i].timestamp - epoch
    {
      TimestampExactIff(es[i].timestamp, epoch);
    }
    ElapsedSpans(es);
    AsLongExactIff(Elapsed(es));
  }

  lemma ElapsedSpans(es: seq<Entry>)
    requires forall i, j | 0 <= i < j < |es| :: es[i].timestamp <= es[j].timestamp
    ensures Elapsed(es) >= 0
    ensures forall i, j | 0 <= i < j < |es| :: es[j].timestamp - es[i].timestamp <= Elapsed(es)
  {
    forall i, j | 0 <= i < j < |es| ensures es[j].timestamp - es[i].timestamp <= Elapsed(es) {
      assert es[0].timestamp <= es[i].timestamp;
      assert es[j].timestamp <= es[|es| - 1].timestamp;
    }
  }

  lemma SameTimes(log: Log)
    requires log.Valid()
    ensures |log.entries| == |log.samples|
    ensures forall i | 0 <= i < |log.entries| :: log.entries[i].timestamp == log.samples[i].timestamp
  {
    forall i | 0 <= i < |log.entries| ensures log.entries[i].timestamp == log.samples[i].timestamp {
      assert EntryStandsFor(log.frames, log.reverse, log.entries[i], log.samples[i]);
    }
  }

  // ---------------------------------------------------------------- in joint runs

  /** An earlier start does not make a clock run backwards. */
  lemma {:induction false} TickingEarlier(actions: seq<Action>, last: nat, earlier: nat)
    requires Ticking(actions, last) && earlier <= last
    ensures Ticking(actions, earlier) && Clock(actions, earlier) <= Clock(actions, last)
    decreases actions
  {
    if actions != [] {
      TickingOneEarlier(actions[0], last, earlier);
      TickingEarlier(actions[1..], ClockOne(actions[0], last), ClockOne(actions[0], earlier));
    }
  }

  lemma {:induction false} TickingOneEarlier(action: Action, last: nat, earlier: nat)
    requires TickingOne(action, last) && earlier <= last
    ensures TickingOne(action, earlier) && ClockOne(action, earlier) <= ClockOne(action, last)
    decreases action
  {
    if action.UserFlush? {
      TickingEarlier(action.reply.actions, last, earlier);
    }
  }

  /** The clock does not run backwards over a joint run. */
  predicate TickingRun(run: seq<JointRun.Joint>, last: nat) {
    run == []
    || if run[0].ByTimer? then last <= run[0].now && TickingRun(run[1..], run[0].now)
       else TickingRun(run[1..], last)
  }

  /** At most one action before a ticking list. */
  lemma TickingCons(steps: seq<JointRun.Step>, rest: seq<Action>, last: nat, now: nat)
    requires |steps| <= 1 && last <= now && Ticking(rest, now)
    requires steps != [] && steps[0].EventStep? ==> steps[0].now == now
    ensures Ticking(JointRun.QuietAll(steps) + rest, last)
  {
    var first := JointRun.QuietAll(steps);
    TickingEarlier(rest, now, last);
    if steps == [] {
      assert first + rest == rest;
    } else {
      assert (first + rest)[1..] == rest && (first + rest)[0] == JointRun.Quiet(steps[0]);
    }
  }

  lemma {:induction false} ScriptTicks(s: TimerProtocol.State, v: View, run: seq<JointRun.Joint>,
                                       s': TimerProtocol.State, v': View, t: TimerProtocol.TimerId, last: nat)
    requires JointRun.Runs(s, v, run, s', v', t) && TickingRun(run, last)
    ensures Ticking(JointRun.Script(s, v, run, s', v', t), last)
    decreases |run|
  {
    if run != [] {
      var s1, v1 := JointRun.TimersAfter(s, v, run[0], t), JointRun.ViewAfter(s, v, run[0], t);
      var now := if run[0].ByTimer? then run[0].now else last;
      ScriptTicks(s1, v1, run[1..], s', v', t, now);
      JointRun.ScriptUnfolds(s, v, run, s', v', t);
      TickingCons(JointRun.StepsOf(s, run[0], t), JointRun.Script(s1, v1, run[1..], s', v', t), last, now);
    }
  }

  /** The times are exact in every log that results from a joint run. */
  lemma RunTimes(s0: TimerProtocol.State, v0: View, run: seq<JointRun.Joint>, s: TimerProtocol.State, v: View,
                 t: TimerProtocol.TimerId, p: Profiler, k: nat)
    requires Fresh(v0) && JointRun.Runs(s0, v0, run, s, v, t) && p.Valid() && p.AsView() == v
    requires TickingRun(run, p.epoch) && k < |p.logs|
    ensures p.logs[k].Valid() && TimesExact(p.logs[k].entries, p.logs[k].epoch)
  {
    JointRun.RunIsScript(s0, v0, run, s, v, t);
    ScriptTicks(s0, v0, run, s, v, t, p.epoch);
    NoWrapInTimes(p, v0, JointRun.Script(s0, v0, run, s, v, t), k);
  }

  /** What a joint run leaves in the current log follows from its script. */
  lemma RunCarries(s: TimerProtocol.State, v: View, run: seq<JointRun.Joint>, s': TimerProtocol.State, v': View,
                   t: TimerProtocol.TimerId)
    requires JointRun.Runs(s, v, run, s', v', t) && v.hasCallback
    requires forall i | 0 <= i < |run| :: JointRun.KeptBy(run[i])
    ensures LoadOf(v') == Carried(LoadOf(v), JointRun.Script(s, v, run, s', v', t))
  {
    JointRun.RunIsScript(s, v, run, s', v', t);
    JointRun.ScriptKeeps(s, v, run, s', v', t);
    PerformedCarries(v, JointRun.Script(s, v, run, s', v', t));
  }
}
