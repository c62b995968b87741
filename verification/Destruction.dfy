/** What is left when a profiler is destroyed.

The destructor flushes a non-empty log while the timer still runs. The timer is
only destroyed when the object is freed, and other PHP code may run in between.
Events that arrive during the destructor's callback or after it go into a log
that is freed without being passed to anybody, unless they are rotated out
before. This module says when that loses nothing. */
module Destruction {
  import opened Text
  import opened SampleLog
  import opened Rotation
  import opened Fifo

  /** The number of samples in the current log, and max_samples. */
  datatype Load = Load(size: nat, limit: int)

  /** How many samples a list of actions leaves in the current log, as long as the
  callback is kept: worked out from the actions and max_samples alone. */
  function Carried(load: Load, actions: seq<Action>): Load
    decreases actions
  {
    if actions == [] then load else Carried(CarriedOne(load, actions[0]), actions[1..])
  }

  function CarriedOne(load: Load, action: Action): Load
    decreases action
  {
    match action
    case TimerEvent(_, _, _, reply) =>
      if Full(load.size + 1, load.limit) then Carried(Load(0, load.limit), reply.actions)
      else load.(size := load.size + 1)
    case UserFlush(reply) => Carried(Load(0, load.limit), reply.actions)
    case Set(setting) => if setting.FlushCallback? then load.(limit := setting.maxSamples) else load
  }

  function LoadOf(v: View): Load {
    Load(|v.current|, v.maxSamples)
  }

  lemma {:induction false} FlushedCarries(v: View, reply: Reply)
    requires v.hasCallback && Keeps(reply)
    ensures var w := Flushed(v, reply);
            w.hasCallback && LoadOf(w) == Carried(Load(0, v.maxSamples), reply.actions)
    decreases reply, 0
  {
    PerformedCarries(FlushBegun(v, reply.callable, reply.stopped), reply.actions);
  }

  lemma {:induction false} PerformedCarries(v: View, actions: seq<Action>)
    requires v.hasCallback && forall i | 0 <= i < |actions| :: KeepsIn(actions[i])
    ensures var w := Performed(v, actions); w.hasCallback && LoadOf(w) == Carried(LoadOf(v), actions)
    decreases actions
  {
    if actions != [] {
      AfterCarries(v, actions[0]);
      PerformedCarries(After(v, actions[0]), actions[1..]);
    }
  }

  lemma {:induction false} AfterCarries(v: View, action: Action)
    requires v.hasCallback && KeepsIn(action)
    ensures var w := After(v, action); w.hasCallback && LoadOf(w) == CarriedOne(LoadOf(v), action)
    decreases action
  {
    match action
    case TimerEvent(stack, count, now, reply) => FlushedCarries(Noted(v, stack, count, now), reply);
    case UserFlush(reply) => FlushedCarries(v, reply);
    case Set(_) =>
  }

  /** A sound profiler has handed over everything exactly when its current log is
  empty. */
  lemma HandedIffEmpty(v: View)
    requires Sound(v) && AllHanded(v)
    ensures v.recorded == Flat(v.closed) <==> v.current == []
  {
  }

  /** Destroying a profiler whose callback is kept hands over every recorded event if
  and only if the last callback leaves no sample in the log that follows it. An
  empty log is not flushed, and then the callback does not run at all. */
  lemma DestructionIff(v: View, reply: Reply)
    requires Sound(v) && AllHanded(v) && Keeps(reply)
    ensures var w := Destructed(v, reply);
            && Sound(w) && AllHanded(w)
            && (w.recorded == Flat(w.closed)
                <==> v.current == [] || Carried(Load(0, v.maxSamples), reply.actions).size == 0)
  {
    var w := Destructed(v, reply);
    if v.current != [] {
      FlushedSound(v, reply);
      FlushedHanded(v, reply);
      FlushedCarries(v, reply);
    }
    HandedIffEmpty(w);
  }

  /** The destructor has run, and then whatever other code does until the object is
  freed. */
  function Freed(v: View, reply: Reply, late: seq<Action>): View {
    Performed(Destructed(v, reply), late)
  }

  /** What is in the current log when the object is freed, worked out from the load
  before the destructor. */
  function LoadAtFree(load: Load, reply: Reply, late: seq<Action>): Load {
    Carried(if load.size == 0 then load else Carried(Load(0, load.limit), reply.actions), late)
  }

  /** Freeing a profiler whose callback is kept loses nothing if and only if neither
  the destructor's callback nor what follows it leaves a sample behind. */
  lemma FreedIff(v: View, reply: Reply, late: seq<Action>)
    requires Sound(v) && AllHanded(v) && Keeps(reply) && forall i | 0 <= i < |late| :: KeepsIn(late[i])
    ensures var w := Freed(v, reply, late);
            && Sound(w) && AllHanded(w)
            && (w.recorded == Flat(w.closed) <==> LoadAtFree(LoadOf(v), reply, late).size == 0)
  {
    var w := Destructed(v, reply);
    DestructionIff(v, reply);
    if v.current != [] {
      FlushedCarries(v, reply);
    }
    PerformedSound(w, late);
    PerformedHanded(w, late);
    PerformedCarries(w, late);
    HandedIffEmpty(Freed(v, reply, late));
  }

  /** A single event after the destructor is lost, when no size limit is set, even if
  the destructor's callback is quiet. */
  lemma EventAfterDestructorIsLost(v: View, now: nat)
    requires Sound(v) && AllHanded(v) && v.current != [] && v.maxSamples == 0
    ensures var quiet := Reply(true, true, []);
            var w := Freed(v, quiet, [TimerEvent([], 1, now, quiet)]);
            && w.recorded == v.recorded + [Sample([], v.maxDepth, 1, now)]
            && Flat(w.closed) == v.recorded
  {
    var quiet := Reply(true, true, []);
    var late := [TimerEvent([], 1, now, quiet)];
    var w := Destructed(v, quiet);
    assert late[1..] == [];
    assert Performed(w, late) == After(w, late[0]);
    FlatSnoc(v.closed, v.current);
  }

  /** A single event during the destructor's callback is lost, when no size limit is set. */
  lemma LateEventIsLost(v: View, now: nat)
    requires Sound(v) && AllHanded(v) && v.current != [] && v.maxSamples == 0
    ensures var quiet := Reply(true, true, []);
            var reply := Reply(true, true, [TimerEvent([], 1, now, quiet)]);
            var w := Destructed(v, reply);
            && Keeps(reply)
            && w.recorded == v.recorded + [Sample([], v.maxDepth, 1, now)]
            && Flat(w.closed) == v.recorded
  {
    var quiet := Reply(true, true, []);
    var actions := [TimerEvent([], 1, now, quiet)];
    var w := FlushBegun(v, true, true);
    assert actions[1..] == [];
    assert Performed(w, actions) == After(w, actions[0]);
    FlatSnoc(v.closed, v.current);
  }

  // ------------------------------------------------------------- two simple limits

  /** Read in order, with the replies of flushes, the actions do not end with an
  event. */
  predicate EndsRotated(rotated: bool, actions: seq<Action>)
    decreases actions
  {
    if actions == [] then rotated else EndsRotated(RotatedBy(rotated, actions[0]), actions[1..])
  }

  predicate RotatedBy(rotated: bool, action: Action)
    decreases action
  {
    match action
    case TimerEvent(_, _, _, _) => false
    case UserFlush(reply) => EndsRotated(true, reply.actions)
    case Set(_) => rotated
  }

  /** Without a size limit, and if none is set, nothing is left exactly when the
  last of the events and flushes is a flush. */
  lemma {:induction false} UnlimitedIff(load: Load, actions: seq<Action>)
    requires load.limit == 0 && forall i | 0 <= i < |actions| :: Unset(actions[i])
    ensures Carried(load, actions).limit == 0
    ensures Carried(load, actions).size == 0 <==> EndsRotated(load.size == 0, actions)
    decreases actions
  {
    if actions != [] {
      UnlimitedOne(load, actions[0]);
      UnlimitedIff(CarriedOne(load, actions[0]), actions[1..]);
    }
  }

  lemma {:induction false} UnlimitedOne(load: Load, action: Action)
    requires load.limit == 0 && Unset(action)
    ensures CarriedOne(load, action).limit == 0
    ensures CarriedOne(load, action).size == 0 <==> RotatedBy(load.size == 0, action)
    decreases action
  {
    if action.UserFlush? {
      UnlimitedIff(Load(0, 0), action.reply.actions);
    }
  }

  /** With a size limit of one, every event is handed over at once. */
  lemma {:induction false} LimitOneLeavesNothing(actions: seq<Action>)
    requires forall i | 0 <= i < |actions| :: Unset(actions[i])
    ensures Carried(Load(0, 1), actions) == Load(0, 1)
    decreases actions
  {
    if actions != [] {
      LimitOne(actions[0]);
      LimitOneLeavesNothing(actions[1..]);
    }
  }

  lemma {:induction false} LimitOne(action: Action)
    requires Unset(action)
    ensures CarriedOne(Load(0, 1), action) == Load(0, 1)
    decreases action
  {
    if !action.Set? {
      LimitOneLeavesNothing(action.reply.actions);
    }
  }

  // --------------------------------------------------------------- any other limit

  /** How many events happen, nested replies that are run included. */
  function Arrivals(load: Load, actions: seq<Action>): nat
    decreases actions
  {
    if actions == [] then 0
    else ArrivalsOne(load, actions[0]) + Arrivals(CarriedOne(load, actions[0]), actions[1..])
  }

  function ArrivalsOne(load: Load, action: Action): nat
    decreases action
  {
    match action
    case TimerEvent(_, _, _, reply) =>
      1 + if Full(load.size + 1, load.limit) then Arrivals(Load(0, load.limit), reply.actions) else 0
    case UserFlush(reply) => Arrivals(Load(0, load.limit), reply.actions)
    case Set(_) => 0
  }

  predicate NoUserFlush(action: Action)
    decreases action
  {
    match action
    case TimerEvent(_, _, _, reply) => forall i | 0 <= i < |reply.actions| :: NoUserFlush(reply.actions[i])
    case UserFlush(_) => false
    case Set(_) => true
  }

  /** With a constant size limit n and no explicit flush, the arrivals divide into
  groups of n and what is left. */
  lemma {:induction false} FullLogs(load: Load, actions: seq<Action>) returns (q: nat)
    requires load.size < load.limit < SIZE_MODULUS
    requires forall i | 0 <= i < |actions| :: Unset(actions[i]) && NoUserFlush(actions[i])
    ensures Carried(load, actions).limit == load.limit && Carried(load, actions).size < load.limit
    ensures load.size + Arrivals(load, actions) == q * load.limit + Carried(load, actions).size
    decreases actions
  {
    q := 0;
    if actions != [] {
      var q1 := FullLogsOne(load, actions[0]);
      var q2 := FullLogs(CarriedOne(load, actions[0]), actions[1..]);
      q := q1 + q2;
      Distribute(q1, q2, load.limit);
    }
  }

  lemma {:induction false} FullLogsOne(load: Load, action: Action) returns (q: nat)
    requires load.size < load.limit < SIZE_MODULUS && Unset(action) && NoUserFlush(action)
    ensures CarriedOne(load, action).limit == load.limit && CarriedOne(load, action).size < load.limit
    ensures load.size + ArrivalsOne(load, action) == q * load.limit + CarriedOne(load, action).size
    decreases action
  {
    q := 0;
    if action.TimerEvent? && load.size + 1 == load.limit {
      FullAtLimit(load.limit);
      q := FullLogs(Load(0, load.limit), action.reply.actions);
      Distribute(q, 1, load.limit);
      q := q + 1;
    } else if action.TimerEvent? {
      NotFullBelow(load.size + 1, load.limit);
    }
  }

  lemma Distribute(a: nat, b: nat, n: int)
    ensures (a + b) * n == a * n + b * n
  {
  }

  lemma FullAtLimit(n: nat)
    requires 0 < n < SIZE_MODULUS
    ensures Full(n, n)
  {
  }

  lemma NotFullBelow(size: nat, n: nat)
    requires size < n < SIZE_MODULUS
    ensures !Full(size, n)
  {
  }

  lemma AtLeastOnce(d: int, n: nat)
    ensures d >= 1 ==> d * n >= n
    ensures d <= -1 ==> d * n + n <= 0
  {
  }

  lemma RemainderIs(x: nat, q: nat, n: nat, r: nat)
    requires x == q * n + r && r < n
    ensures x % n == r
  {
    var d := q - x / n;
    assert x == (x / n) * n + x % n;
    assert d * n == q * n - (x / n) * n;
    AtLeastOnce(d, n);
  }

  /** So what is left is the number of events modulo n. */
  lemma RestIsModulo(load: Load, actions: seq<Action>)
    requires load.size < load.limit < SIZE_MODULUS
    requires forall i | 0 <= i < |actions| :: Unset(actions[i]) && NoUserFlush(actions[i])
    ensures Carried(load, actions).size == (load.size + Arrivals(load, actions)) % load.limit
  {
    var q := FullLogs(load, actions);
    RemainderIs(load.size + Arrivals(load, actions), q, load.limit, Carried(load, actions).size);
  }

  /** The number of arrivals is the number of events that are recorded. */
  lemma {:induction false} PerformedArrivals(v: View, actions: seq<Action>)
    requires v.hasCallback && forall i | 0 <= i < |actions| :: KeepsIn(actions[i])
    ensures |Performed(v, actions).recorded| == |v.recorded| + Arrivals(LoadOf(v), actions)
    decreases actions
  {
    if actions != [] {
      AfterCarries(v, actions[0]);
      AfterArrivals(v, actions[0]);
      PerformedArrivals(After(v, actions[0]), actions[1..]);
    }
  }

  lemma {:induction false} AfterArrivals(v: View, action: Action)
    requires v.hasCallback && KeepsIn(action)
    ensures |After(v, action).recorded| == |v.recorded| + ArrivalsOne(LoadOf(v), action)
    decreases action
  {
    match action
    case TimerEvent(stack, count, now, reply) => FlushedArrivals(Noted(v, stack, count, now), reply);
    case UserFlush(reply) => FlushedArrivals(v, reply);
    case Set(_) =>
  }

  lemma {:induction false} FlushedArrivals(v: View, reply: Reply)
    requires v.hasCallback && Keeps(reply)
    ensures |Flushed(v, reply).recorded| == |v.recorded| + Arrivals(Load(0, v.maxSamples), reply.actions)
    decreases reply, 0
  {
    PerformedArrivals(FlushBegun(v, reply.callable, reply.stopped), reply.actions);
  }

  /** With max_samples at n, the current log is below n, and every log that was closed
  from the k-th on has exactly n samples. */
  ghost predicate Filled(v: View, n: nat, k: nat) {
    && v.maxSamples == n && |v.current| < n < SIZE_MODULUS
    && forall i | k <= i < |v.closed| :: |v.closed[i]| == n
  }

  lemma {:induction false} PerformedFilled(v: View, actions: seq<Action>, n: nat, k: nat)
    requires Filled(v, n, k) && forall i | 0 <= i < |actions| :: Unset(actions[i]) && NoUserFlush(actions[i])
    ensures Filled(Performed(v, actions), n, k)
    decreases actions
  {
    if actions != [] {
      AfterFilled(v, actions[0], n, k);
      PerformedFilled(After(v, actions[0]), actions[1..], n, k);
    }
  }

  lemma {:induction false} AfterFilled(v: View, action: Action, n: nat, k: nat)
    requires Filled(v, n, k) && Unset(action) && NoUserFlush(action)
    ensures Filled(After(v, action), n, k)
    decreases action
  {
    if action.TimerEvent? {
      var reply, w := action.reply, Noted(v, action.stack, action.count, action.now);
      if |w.current| == n {
        FullAtLimit(n);
        FlushedFilled(w, reply, n, k);
      } else {
        NotFullBelow(|w.current|, n);
      }
    }
  }

  lemma {:induction false} FlushedFilled(v: View, reply: Reply, n: nat, k: nat)
    requires v.maxSamples == n && |v.current| == n && 0 < n < SIZE_MODULUS
    requires forall i | k <= i < |v.closed| :: |v.closed[i]| == n
    requires forall i | 0 <= i < |reply.actions| :: Unset(reply.actions[i]) && NoUserFlush(reply.actions[i])
    ensures Filled(Flushed(v, reply), n, k)
    decreases reply, 0
  {
    var w := FlushBegun(v, reply.callable, reply.stopped);
    assert Filled(w, n, k);
    PerformedFilled(w, reply.actions, n, k);
  }

  lemma {:induction false} FlatLength<T>(parts: seq<seq<T>>, n: nat, k: nat)
    requires k <= |parts| && forall i | k <= i < |parts| :: |parts[i]| == n
    ensures |Flat(parts)| == |Flat(parts[..k])| + (|parts| - k) * n
    decreases |parts|
  {
    if k == |parts| {
      assert parts[..k] == parts;
    } else {
      var front := parts[..|parts| - 1];
      FlatLength(front, n, k);
      assert front[..k] == parts[..k];
      Distribute(|parts| - 1 - k, 1, n);
    }
  }

  /** With a constant size limit n and no explicit flush, every log that is closed has
  exactly n samples, and these logs and what is left account for every event. */
  lemma ClosedLogsAreFull(v: View, actions: seq<Action>, n: nat)
    requires Sound(v) && v.maxSamples == n && |v.current| < n < SIZE_MODULUS
    requires forall i | 0 <= i < |actions| :: Unset(actions[i]) && NoUserFlush(actions[i])
    ensures var w := Performed(v, actions);
            && |v.closed| <= |w.closed| && |v.recorded| <= |w.recorded| && |w.current| < n
            && (forall i | |v.closed| <= i < |w.closed| :: |w.closed[i]| == n)
            && |v.current| + (|w.recorded| - |v.recorded|) == (|w.closed| - |v.closed|) * n + |w.current|
  {
    var w, k := Performed(v, actions), |v.closed|;
    PerformedFilled(v, actions, n, k);
    PerformedGrows(v, actions);
    PerformedSound(v, actions);
    FlatLength(w.closed, n, k);
    assert w.closed[..k] == v.closed;
  }

  // ------------------------------------------------------------------- a whole life

  /** Nothing is left at the end of a life that starts with an empty log. */
  predicate LeavesNothing(maxSamples: int, actions: seq<Action>, last: Reply, late: seq<Action>) {
    LoadAtFree(Carried(Load(0, maxSamples), actions), last, late).size == 0
  }

  /** The life of a profiler that is given a flush callback, from its creation until
  it is freed. */
  function Life(maxDepth: int, period: nat, maxSamples: int,
                actions: seq<Action>, last: Reply, late: seq<Action>): View
  {
    Freed(Performed(Configured(Created(maxDepth, period), FlushCallback(maxSamples)), actions), last, late)
  }

  /** If the callback is kept, every rotated log has been passed to it, and every
  recorded event is in one of them if and only if nothing is left at the end. */
  lemma LifeIff(maxDepth: int, period: nat, maxSamples: int, actions: seq<Action>, last: Reply, late: seq<Action>)
    requires (forall i | 0 <= i < |actions| :: KeepsIn(actions[i])) && Keeps(last)
    requires forall i | 0 <= i < |late| :: KeepsIn(late[i])
    ensures var w := Life(maxDepth, period, maxSamples, actions, last, late);
            && AllHanded(w)
            && (w.recorded == Flat(w.closed) <==> LeavesNothing(maxSamples, actions, last, late))
  {
    var v := Configured(Created(maxDepth, period), FlushCallback(maxSamples));
    PerformedSound(v, actions);
    PerformedHanded(v, actions);
    PerformedCarries(v, actions);
    FreedIff(Performed(v, actions), last, late);
  }

  /** The profiler object lives that life, with any events, flushes and nested flushes,
  also in the destructor's callback and after it. The only failure is the 32-bit
  error, and with room for the stack levels there is none. */
  method Lifetime(now: nat, maxDepth: int, period: nat, maxSamples: int,
                  actions: seq<Action>, last: Reply, late: seq<Action>)
    returns (ok: bool, p: Profiler)
    requires (forall i | 0 <= i < |actions| :: KeepsIn(actions[i])) && Keeps(last)
    requires forall i | 0 <= i < |late| :: KeepsIn(late[i])
    ensures ok ==> p.Valid() && p.AsView() == Life(maxDepth, period, maxSamples, actions, last, late)
    ensures ok ==> AllHanded(p.AsView())
    ensures ok ==> (p.recorded == Flat(p.closed) <==> LeavesNothing(maxSamples, actions, last, late))
    ensures !ok ==> |p.log.frames| > UINT32_MODULUS
    ensures 1 + Levels(actions) + Levels(last.actions) + Levels(late) <= UINT32_MODULUS ==> ok
  {
    LifeIff(maxDepth, period, maxSamples, actions, last, late);
    ok, p := Live(now, maxDepth, period, maxSamples, actions, last, late);
  }

  method Live(now: nat, maxDepth: int, period: nat, maxSamples: int,
              actions: seq<Action>, last: Reply, late: seq<Action>)
    returns (ok: bool, p: Profiler)
    ensures ok ==> p.Valid() && p.AsView() == Life(maxDepth, period, maxSamples, actions, last, late)
    ensures !ok ==> |p.log.frames| > UINT32_MODULUS
    ensures 1 + Levels(actions) + Levels(last.actions) + Levels(late) <= UINT32_MODULUS ==> ok
  {
    p := new Profiler(now, maxDepth, period);
    p.Configure(FlushCallback(maxSamples));
    ok := p.Perform(actions);
    if ok {
      ok := Finish(p, last, late);
    }
  }

  /** From the destructor to the free. */
  method Finish(p: Profiler, last: Reply, late: seq<Action>) returns (ok: bool)
    requires p.Valid()
    modifies p, p.log
    ensures ok ==> p.Valid() && p.AsView() == Freed(old(p.AsView()), last, late)
    ensures p.FailsOnlyFull(ok, Levels(last.actions) + Levels(late))
  {
    ok := p.Destruct(last);
    if ok {
      p.CurrentLog();
      ok := p.Perform(late);
    }
  }

  /** Where every rotated log was passed to the callback, the calls got the logs in
  order of creation, each once, and their samples followed by those of the current
  log are exactly the recorded events. */
  lemma HandedOnce(p: Profiler)
    requires p.Valid() && AllHanded(p.AsView())
    ensures |p.handed| == |p.closed| == |p.logs| - 1 && Distinct(p.logs)
    ensures forall i | 0 <= i < |p.handed| ::
              p.handed[i] == i && p.logs[i].Valid() && p.logs[i].samples == p.closed[i]
    ensures p.recorded == Flat(p.closed) + p.log.samples
  {
    forall i | 0 <= i < |p.handed| ensures p.logs[i].Valid() && p.logs[i].samples == p.closed[i] {
      LogOkAt(p.logs, p.closed + [p.log.samples], p.epoch, i);
    }
  }
}
