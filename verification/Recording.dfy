/** What a profiler records, worked out from what happens to it.

The reference is a profiler without logs: it knows how many samples have come in
since the last rotation, and its settings. From these and a list of actions it
follows which events are recorded and under which settings. */
module Recording {
  import opened Frames
  import opened SampleLog
  import opened Rotation

  datatype Setup = Setup(size: nat, limit: int, depth: int, period: nat, callback: bool)

  function SetupOf(v: View): Setup {
    Setup(|v.current|, v.maxSamples, v.maxDepth, v.period, v.hasCallback)
  }

  /** The settings after a list of actions. */
  function SetupAfter(u: Setup, actions: seq<Action>): Setup
    decreases actions
  {
    if actions == [] then u else SetupAfter(SetupOne(u, actions[0]), actions[1..])
  }

  function SetupOne(u: Setup, action: Action): Setup
    decreases action
  {
    match action
    case TimerEvent(_, _, _, reply) =>
      if Full(u.size + 1, u.limit) then SetupReply(u, reply) else u.(size := u.size + 1)
    case UserFlush(reply) => SetupReply(u, reply)
    case Set(MaxDepth(depth)) => u.(depth := depth)
    case Set(Period(period)) => u.(period := period)
    case Set(FlushCallback(n)) => u.(callback := true, limit := n)
    case Set(NoFlushCallback) => u.(callback := false, limit := 0)
    case Set(_) => u
  }

  function SetupReply(u: Setup, reply: Reply): Setup
    decreases reply, 0
  {
    if u.callback && reply.callable then SetupAfter(u.(size := 0), reply.actions) else u.(size := 0)
  }

  /** The events that happen, nested ones included, in order of time and with the
  depth limit in force. */
  function Happened(u: Setup, actions: seq<Action>): seq<Sample>
    decreases actions
  {
    if actions == [] then [] else HappenedOne(u, actions[0]) + Happened(SetupOne(u, actions[0]), actions[1..])
  }

  function HappenedOne(u: Setup, action: Action): seq<Sample>
    decreases action
  {
    match action
    case TimerEvent(stack, count, now, reply) =>
      [Sample(stack, u.depth, count, now)] + if Full(u.size + 1, u.limit) then HappenedReply(u, reply) else []
    case UserFlush(reply) => HappenedReply(u, reply)
    case Set(_) => []
  }

  function HappenedReply(u: Setup, reply: Reply): seq<Sample>
    decreases reply, 0
  {
    if u.callback && reply.callable then Happened(u.(size := 0), reply.actions) else []
  }

  /** The profiler w has followed v: it has these settings, and has recorded these
  samples in addition. */
  ghost predicate Follows(v: View, w: View, u: Setup, samples: seq<Sample>) {
    SetupOf(w) == u && w.recorded == v.recorded + samples
  }

  lemma FollowsTransitive(v: View, w: View, x: View, u: Setup, s1: seq<Sample>, s2: seq<Sample>)
    requires w.recorded == v.recorded + s1 && Follows(w, x, u, s2)
    ensures Follows(v, x, u, s1 + s2)
  {
  }

  /** Exactly the events that happen are recorded, with their own stack, count and time
  and under the depth limit in force, whatever is flushed in between; and every
  setting is the one last made. */
  lemma {:induction false} PerformedRecords(v: View, actions: seq<Action>)
    ensures Follows(v, Performed(v, actions), SetupAfter(SetupOf(v), actions), Happened(SetupOf(v), actions))
    decreases actions
  {
    if actions != [] {
      var w := After(v, actions[0]);
      AfterRecords(v, actions[0]);
      PerformedRecords(w, actions[1..]);
      FollowsTransitive(v, w, Performed(v, actions), SetupAfter(SetupOf(v), actions),
                        HappenedOne(SetupOf(v), actions[0]), Happened(SetupOf(w), actions[1..]));
    }
  }

  lemma {:induction false} FlushedRecords(v: View, reply: Reply)
    ensures Follows(v, Flushed(v, reply), SetupReply(SetupOf(v), reply), HappenedReply(SetupOf(v), reply))
    decreases reply, 0
  {
    var w := FlushBegun(v, reply.callable, reply.stopped);
    assert SetupOf(w) == SetupOf(v).(size := 0);
    if v.hasCallback && reply.callable {
      PerformedRecords(w, reply.actions);
    }
  }

  lemma {:induction false} AfterRecords(v: View, action: Action)
    ensures Follows(v, After(v, action), SetupOne(SetupOf(v), action), HappenedOne(SetupOf(v), action))
    decreases action
  {
    match action
    case TimerEvent(stack, count, now, reply) =>
      var w := Noted(v, stack, count, now);
      assert SetupOf(w) == SetupOf(v).(size := |v.current| + 1);
      if Full(|w.current|, w.maxSamples) {
        FlushedRecords(w, reply);
        ReplySize(SetupOf(w), SetupOf(v), reply);
        FollowsTransitive(v, w, Flushed(w, reply), SetupReply(SetupOf(v), reply),
                          [Sample(stack, v.maxDepth, count, now)], HappenedReply(SetupOf(v), reply));
      }
    case UserFlush(reply) => FlushedRecords(v, reply);
    case Set(_) =>
  }

  /** A flush does not look at the size of the log it rotates. */
  lemma ReplySize(u: Setup, w: Setup, reply: Reply)
    requires u == w.(size := u.size)
    ensures SetupReply(u, reply) == SetupReply(w, reply) && HappenedReply(u, reply) == HappenedReply(w, reply)
  {
    assert u.(size := 0) == w.(size := 0);
  }

  // ------------------------------------------------------------------- the settings

  /** No flush is asked for, and no size limit is set. */
  predicate LeavesLog(action: Action) {
    match action
    case TimerEvent(_, _, _, _) => true
    case UserFlush(_) => false
    case Set(setting) => !setting.FlushCallback?
  }

  /** Once the callback is cleared, no event rotates the log until a limit is set again
  or a flush is asked for: everything goes on in the current log. */
  lemma {:induction false} ClearedNeverRotates(v: View, actions: seq<Action>)
    requires v.maxSamples == 0 && forall i | 0 <= i < |actions| :: LeavesLog(actions[i])
    ensures var w := Performed(v, actions);
            && w.maxSamples == 0 && w.closed == v.closed && w.handed == v.handed
            && v.current <= w.current && |w.current| - |v.current| == |w.recorded| - |v.recorded|
    decreases |actions|
  {
    if actions != [] {
      ClearedOne(v, actions[0]);
      ClearedNeverRotates(After(v, actions[0]), actions[1..]);
    }
  }

  lemma ClearedOne(v: View, action: Action)
    requires v.maxSamples == 0 && LeavesLog(action)
    ensures var w := After(v, action);
            && w.maxSamples == 0 && w.closed == v.closed && w.handed == v.handed
            && v.current <= w.current && |w.current| - |v.current| == |w.recorded| - |v.recorded|
  {
    match action
    case TimerEvent(stack, count, now, reply) =>
      assert After(v, action) == Evented(v, stack, count, now, reply) == Noted(v, stack, count, now);
    case Set(setting) => assert After(v, action) == Configured(v, setting);
  }

  lemma ClearingClears(v: View)
    ensures var w := After(v, Set(NoFlushCallback));
            !w.hasCallback && w.maxSamples == 0 && w.current == v.current && w.closed == v.closed
  {
  }

  /** Neither depth limit nor period is set, also not in callbacks. */
  predicate LeavesOptions(action: Action)
    decreases action
  {
    match action
    case TimerEvent(_, _, _, reply) => forall i | 0 <= i < |reply.actions| :: LeavesOptions(reply.actions[i])
    case UserFlush(reply) => forall i | 0 <= i < |reply.actions| :: LeavesOptions(reply.actions[i])
    case Set(setting) => !setting.MaxDepth? && !setting.Period?
  }

  ghost predicate AllUnder(samples: seq<Sample>, depth: int) {
    forall i | 0 <= i < |samples| :: samples[i].maxDepth == depth
  }

  lemma {:induction false} OptionsHold(u: Setup, actions: seq<Action>)
    requires forall i | 0 <= i < |actions| :: LeavesOptions(actions[i])
    ensures SetupAfter(u, actions).depth == u.depth && SetupAfter(u, actions).period == u.period
    ensures AllUnder(Happened(u, actions), u.depth)
    decreases actions
  {
    if actions != [] {
      OptionsHoldOne(u, actions[0]);
      OptionsHold(SetupOne(u, actions[0]), actions[1..]);
    }
  }

  lemma {:induction false} OptionsHoldOne(u: Setup, action: Action)
    requires LeavesOptions(action)
    ensures SetupOne(u, action).depth == u.depth && SetupOne(u, action).period == u.period
    ensures AllUnder(HappenedOne(u, action), u.depth)
    decreases action
  {
    if !action.Set? {
      OptionsHold(u.(size := 0), action.reply.actions);
    }
  }

  /** After setMaxDepth and setPeriod, every later sample is kept under that depth limit
  and every later log has that period, until they are set again. Rotation does not
  change them. */
  lemma OptionsLastSet(v: View, depth: int, period: nat, actions: seq<Action>)
    requires forall i | 0 <= i < |actions| :: LeavesOptions(actions[i])
    ensures var w := Performed(After(After(v, Set(MaxDepth(depth))), Set(Period(period))), actions);
            && w.maxDepth == depth && w.period == period && v.recorded <= w.recorded
            && AllUnder(w.recorded[|v.recorded|..], depth)
  {
    var v1 := After(After(v, Set(MaxDepth(depth))), Set(Period(period)));
    PerformedRecords(v1, actions);
    OptionsHold(SetupOf(v1), actions);
  }
}
