/** The Speedscope export: shared frames without duplicates, and for every entry
the indices of its frames, outermost caller first. */
module Speedscope {
  import opened Text
  import opened Frames
  import opened SampleLog
  import opened Names
  import opened Collapsed

  datatype Shared = Shared(name: string, file: string)

  datatype Profile = Profile(
    frames: seq<Shared>,
    samples: seq<seq<nat>>,
    weights: seq<int>,
    endValue: int)

  function SharedOf(c: Call): Shared {
    Shared(FrameName(c), c.filename)
  }

  function SharedKey(f: Shared): string {
    f.name + [NUL] + f.file
  }

  /** Names contain no NUL, so the key determines both parts. */
  lemma SharedKeyInjective(f: Shared, g: Shared)
    requires Lacks(f.name, NUL) && Lacks(g.name, NUL)
    ensures SharedKey(f) == SharedKey(g) <==> f == g
  {
    if SharedKey(f) == SharedKey(g) {
      SplitAtFirst(f.name, f.file, g.name, g.file, NUL);
    }
  }

  // --------------------------------------------------------------- 64-bit arithmetic

  const TWO_64: int := 0x1_0000_0000_0000_0000
  const TWO_63: int := 0x8000_0000_0000_0000

  /** A uint64_t result stored in a zend_long. */
  function AsLong(n: int): int {
    var m := n % TWO_64;
    if m < TWO_63 then m else m - TWO_64
  }

  lemma AsLongExactIff(n: int)
    ensures AsLong(n) == n <==> -TWO_63 <= n < TWO_63
  {
    if -TWO_63 <= n < 0 {
      assert (n + TWO_64) % TWO_64 == n % TWO_64;
    }
  }

  function Weight(e: Entry, period: nat): int {
    AsLong(e.eventCount * period)
  }

  function Elapsed(entries: seq<Entry>): int {
    if entries == [] then 0 else entries[|entries| - 1].timestamp - entries[0].timestamp
  }

  // ------------------------------------------------------------------- shared frames

  ghost predicate NoDuplicates(shared: seq<Shared>) {
    forall i, j | 0 <= i < j < |shared| :: shared[i] != shared[j]
  }

  ghost predicate Used(indexes: seq<nat>, upTo: nat, k: nat)
    requires upTo <= |indexes|
  {
    exists i | 1 <= i < upTo :: indexes[i] == k
  }

  /** indexes sends every frame to its place among the shared frames. */
  ghost predicate Placed(frames: seq<Frame>, shared: seq<Shared>, indexes: seq<nat>, upTo: nat)
    requires upTo <= |frames| && upTo <= |indexes|
  {
    && (forall i | 1 <= i < upTo :: indexes[i] < |shared| && shared[indexes[i]] == SharedOf(frames[i].call))
    && (forall k | 0 <= k < |shared| :: Used(indexes, upTo, k))
  }

  /** The lookup table lists exactly the shared frames. */
  ghost predicate TableOf(shared: seq<Shared>, byKey: map<string, nat>) {
    && (forall k | 0 <= k < |shared| ::
          && Lacks(shared[k].name, NUL)
          && SharedKey(shared[k]) in byKey && byKey[SharedKey(shared[k])] == k)
    && (forall key | key in byKey :: byKey[key] < |shared| && SharedKey(shared[byKey[key]]) == key)
  }

  lemma TableAppend(shared: seq<Shared>, byKey: map<string, nat>, f: Shared)
    requires TableOf(shared, byKey) && Lacks(f.name, NUL) && SharedKey(f) !in byKey
    ensures TableOf(shared + [f], byKey[SharedKey(f) := |shared|])
  {
  }

  lemma TableNoDuplicates(shared: seq<Shared>, byKey: map<string, nat>)
    requires TableOf(shared, byKey)
    ensures NoDuplicates(shared)
  {
    forall i, j | 0 <= i < j < |shared| ensures shared[i] != shared[j] {
      assert byKey[SharedKey(shared[i])] == i && byKey[SharedKey(shared[j])] == j;
    }
  }

  lemma UsedStep(indexes: seq<nat>, indexes': seq<nat>, i: nat, k: nat)
    requires i < |indexes| == |indexes'| && indexes'[..i] == indexes[..i]
    requires Used(indexes, i, k)
    ensures Used(indexes', i + 1, k)
  {
    var j :| 1 <= j < i && indexes[j] == k;
    assert indexes'[..i][j] == indexes[..i][j];
  }

  lemma PlacedStep(frames: seq<Frame>, shared: seq<Shared>, indexes: seq<nat>,
                   shared': seq<Shared>, indexes': seq<nat>, i: nat)
    requires 1 <= i < |frames| && i < |indexes| && |indexes'| == |indexes|
    requires Placed(frames, shared, indexes, i)
    requires indexes'[..i] == indexes[..i]
    requires indexes'[i] < |shared'| && shared'[indexes'[i]] == SharedOf(frames[i].call)
    requires shared' == shared || (|shared'| == |shared| + 1 && shared <= shared' && indexes'[i] == |shared|)
    ensures Placed(frames, shared', indexes', i + 1)
  {
    var upTo := i + 1;
    forall k | 0 <= k < |shared'| ensures Used(indexes', upTo, k) {
      if k < |shared| {
        UsedStep(indexes, indexes', i, k);
      } else {
        assert indexes'[i] == k;
      }
    }
    forall j | 1 <= j < upTo
      ensures indexes'[j] < |shared'| && shared'[indexes'[j]] == SharedOf(frames[j].call)
    {
      if j < i {
        assert indexes'[..i][j] == indexes[..i][j];
        assert shared'[indexes[j]] == shared[indexes[j]];
      }
    }
  }

  method BuildShared(frames: seq<Frame>) returns (shared: seq<Shared>, indexes: seq<nat>)
    requires Linked(frames)
    ensures |indexes| == |frames|
    ensures NoDuplicates(shared)
    ensures Placed(frames, shared, indexes, |frames|)
  {
    var table := new nat[|frames|](_ => 0);
    var byKey: map<string, nat> := map[];
    shared := [];
    for i := 1 to |frames|
      invariant TableOf(shared, byKey)
      invariant Placed(frames, shared, table[..], i)
    {
      ghost var before := table[..];
      var frame := SharedOf(frames[i].call);
      FrameNameIsClean(frames[i].call);
      var key := SharedKey(frame);
      if key !in byKey {
        TableAppend(shared, byKey, frame);
        ghost var sharedBefore := shared;
        byKey := byKey[key := |shared|];
        shared := shared + [frame];
        table[i] := byKey[key];
        PlacedStep(frames, sharedBefore, before, shared, table[..], i);
      } else {
        SharedKeyInjective(frame, shared[byKey[key]]);
        table[i] := byKey[key];
        PlacedStep(frames, shared, before, shared, table[..], i);
      }
    }
    TableNoDuplicates(shared, byKey);
    indexes := table[..];
  }

  // --------------------------------------------------------------------- the samples

  /** The frame indices on a chain, running function first. */
  function Chain(frames: seq<Frame>, i: nat): seq<nat>
    requires Linked(frames) && i < |frames|
  {
    if i == 0 then [] else [i] + Chain(frames, frames[i].prevIndex)
  }

  lemma {:induction false} ChainIsTrace(frames: seq<Frame>, i: nat)
    requires Linked(frames) && i < |frames|
    ensures |Chain(frames, i)| == |Trace(frames, i)|
    ensures forall k | 0 <= k < |Chain(frames, i)| ::
              && 1 <= Chain(frames, i)[k] < |frames|
              && Trace(frames, i)[k] == frames[Chain(frames, i)[k]].call
    decreases i
  {
    if i != 0 {
      ChainIsTrace(frames, frames[i].prevIndex);
    }
  }

  method CountFrames(frames: seq<Frame>, frameIndex: nat) returns (n: nat)
    requires Linked(frames) && frameIndex < |frames|
    ensures n == |Chain(frames, frameIndex)|
  {
    n := 0;
    var i := frameIndex;
    while i != 0
      invariant 0 <= i < |frames|
      invariant n + |Chain(frames, i)| == |Chain(frames, frameIndex)|
      decreases i
    {
      n := n + 1;
      i := frames[i].prevIndex;
    }
  }

  /** Write the places of a chain's frames in reverse order. */
  method BuildSample(frames: seq<Frame>, indexes: seq<nat>, frameIndex: nat) returns (sample: seq<nat>)
    requires Linked(frames) && frameIndex < |frames| && |indexes| == |frames|
    ensures var chain := Chain(frames, frameIndex);
            && |sample| == |chain|
            && forall j | 0 <= j < |chain| ::
                 chain[|chain| - 1 - j] < |indexes| && sample[j] == indexes[chain[|chain| - 1 - j]]
  {
    ghost var chain := Chain(frames, frameIndex);
    ChainIsTrace(frames, frameIndex);
    var n := CountFrames(frames, frameIndex);
    var stack := new nat[n](_ => 0);
    var i := frameIndex;
    var j := n;
    while j > 0
      invariant 0 <= j <= n && 0 <= i < |frames|
      invariant Chain(frames, i) == chain[n - j..]
      invariant forall k | j <= k < n :: stack[k] == indexes[chain[n - 1 - k]]
    {
      j := j - 1;
      assert chain[n - 1 - j] == i;
      stack[j] := indexes[i];
      i := frames[i].prevIndex;
    }
    sample := stack[..];
  }

  /** Looking a sample up among the shared frames gives the name and file of every
  call of the trace, outermost caller first. */
  ghost predicate SampleShows(shared: seq<Shared>, sample: seq<nat>, trace: seq<Call>) {
    && |sample| == |trace|
    && forall j | 0 <= j < |sample| ::
         sample[j] < |shared| && shared[sample[j]] == SharedOf(trace[|trace| - 1 - j])
  }

  lemma SampleIsFaithful(frames: seq<Frame>, shared: seq<Shared>, indexes: seq<nat>,
                         frameIndex: nat, sample: seq<nat>)
    requires Linked(frames) && frameIndex < |frames| && |indexes| == |frames|
    requires Placed(frames, shared, indexes, |frames|)
    requires var chain := Chain(frames, frameIndex);
             && |sample| == |chain|
             && forall j | 0 <= j < |chain| ::
                  chain[|chain| - 1 - j] < |indexes| && sample[j] == indexes[chain[|chain| - 1 - j]]
    ensures SampleShows(shared, sample, Trace(frames, frameIndex))
  {
    ChainIsTrace(frames, frameIndex);
  }

  /** Sample k shows entry k's trace, and weight k is its share of time. */
  ghost predicate EntryShown(frames: seq<Frame>, period: nat, e: Entry,
                             shared: seq<Shared>, sample: seq<nat>, weight: int)
    requires Linked(frames)
  {
    && e.frameIndex < |frames|
    && SampleShows(shared, sample, Trace(frames, e.frameIndex))
    && weight == Weight(e, period)
  }

  ghost predicate AllShown(frames: seq<Frame>, period: nat, entries: seq<Entry>,
                           shared: seq<Shared>, samples: seq<seq<nat>>, weights: seq<int>)
    requires Linked(frames) && |samples| == |weights| == |entries|
  {
    forall i | 0 <= i < |entries| :: EntryShown(frames, period, entries[i], shared, samples[i], weights[i])
  }

  lemma AllShownSnoc(frames: seq<Frame>, period: nat, entries: seq<Entry>, e: Entry, shared: seq<Shared>,
                     samples: seq<seq<nat>>, sample: seq<nat>, weights: seq<int>, weight: int)
    requires Linked(frames) && |samples| == |weights| == |entries|
    requires AllShown(frames, period, entries, shared, samples, weights)
    requires EntryShown(frames, period, e, shared, sample, weight)
    ensures AllShown(frames, period, entries + [e], shared, samples + [sample], weights + [weight])
  {
  }

  /** Every shared frame comes from some frame of the log. */
  ghost predicate NoneInvented(frames: seq<Frame>, shared: seq<Shared>) {
    forall k | 0 <= k < |shared| :: FromLog(frames, shared[k])
  }

  ghost predicate FromLog(frames: seq<Frame>, f: Shared) {
    exists i | 1 <= i < |frames| :: SharedOf(frames[i].call) == f
  }

  lemma PlacedFromLog(frames: seq<Frame>, shared: seq<Shared>, indexes: seq<nat>)
    requires |indexes| == |frames| && Placed(frames, shared, indexes, |frames|)
    ensures NoneInvented(frames, shared)
  {
    forall k | 0 <= k < |shared| ensures FromLog(frames, shared[k]) {
      assert Used(indexes, |frames|, k);
      var i :| 1 <= i < |frames| && indexes[i] == k;
      assert SharedOf(frames[i].call) == shared[k];
    }
  }

  ghost predicate Exported(frames: seq<Frame>, entries: seq<Entry>, period: nat, p: Profile)
    requires Linked(frames)
  {
    && NoDuplicates(p.frames)
    && NoneInvented(frames, p.frames)
    && |p.samples| == |p.weights| == |entries|
    && AllShown(frames, period, entries, p.frames, p.samples, p.weights)
    && p.endValue == AsLong(Elapsed(entries))
  }

  /** Add one entry's sample and weight. */
  method ShowEntry(frames: seq<Frame>, period: nat, ghost done: seq<Entry>, e: Entry, shared: seq<Shared>,
                   indexes: seq<nat>, samples: seq<seq<nat>>, weights: seq<int>)
    returns (samples': seq<seq<nat>>, weights': seq<int>)
    requires Linked(frames) && e.frameIndex < |frames| && |indexes| == |frames|
    requires Placed(frames, shared, indexes, |frames|)
    requires |samples| == |weights| == |done| && AllShown(frames, period, done, shared, samples, weights)
    ensures |samples'| == |weights'| == |done| + 1
    ensures AllShown(frames, period, done + [e], shared, samples', weights')
  {
    var sample := BuildSample(frames, indexes, e.frameIndex);
    SampleIsFaithful(frames, shared, indexes, e.frameIndex, sample);
    AllShownSnoc(frames, period, done, e, shared, samples, sample, weights, Weight(e, period));
    samples' := samples + [sample];
    weights' := weights + [Weight(e, period)];
  }

  method BuildSamples(frames: seq<Frame>, entries: seq<Entry>, period: nat,
                      shared: seq<Shared>, indexes: seq<nat>)
    returns (samples: seq<seq<nat>>, weights: seq<int>, first: int, last: int)
    requires InRange(frames, entries) && |indexes| == |frames|
    requires Placed(frames, shared, indexes, |frames|)
    ensures |samples| == |weights| == |entries|
    ensures AllShown(frames, period, entries, shared, samples, weights)
    ensures last - first == Elapsed(entries)
  {
    samples, weights := [], [];
    first, last := 0, 0;
    for i := 0 to |entries|
      invariant |samples| == |weights| == i
      invariant i > 0 ==> first == entries[0].timestamp && last == entries[i - 1].timestamp
      invariant i == 0 ==> first == last == 0
      invariant AllShown(frames, period, entries[..i], shared, samples, weights)
    {
      var entry := entries[i];
      if i == 0 {
        first := entry.timestamp;
      }
      last := entry.timestamp;
      samples, weights := ShowEntry(frames, period, entries[..i], entry, shared, indexes, samples, weights);
      assert entries[..i + 1] == entries[..i] + [entry];
    }
    assert entries[..|entries|] == entries;
  }

  method GetSpeedscopeData(log: Log) returns (p: Profile)
    requires log.Valid()
    ensures Linked(log.frames)
    ensures Exported(log.frames, log.entries, log.period, p)
  {
    EntriesInRange(log.frames, log.reverse, log.origins, log.entries, log.samples);
    var shared, indexes := BuildShared(log.frames);
    PlacedFromLog(log.frames, shared, indexes);
    var samples, weights, first, last := BuildSamples(log.frames, log.entries, log.period, shared, indexes);
    p := Profile(shared, samples, weights, AsLong(last - first));
  }

  // ---------------------------------------------------------------------- what it says

  function SampleNames(shared: seq<Shared>, sample: seq<nat>): (r: seq<string>)
    requires forall j | 0 <= j < |sample| :: sample[j] < |shared|
    ensures |r| == |sample| && forall j | 0 <= j < |r| :: r[j] == shared[sample[j]].name
  {
    seq(|sample|, j requires 0 <= j < |sample| => shared[sample[j]].name)
  }

  lemma {:induction false} RootNamesAt(trace: seq<Call>, j: nat)
    requires j < |trace|
    ensures |RootNames(trace)| == |trace|
    ensures RootNames(trace)[j] == FrameName(trace[|trace| - 1 - j])
    decreases |trace|
  {
    RootNamesLength(trace);
    RootNamesLength(trace[1..]);
    if j < |trace| - 1 {
      RootNamesAt(trace[1..], j);
    }
  }

  /** The two reports agree: the names of a sample, joined by semicolons, are the
  entry's collapsed line. */
  lemma SampleJoinsToLine(shared: seq<Shared>, sample: seq<nat>, trace: seq<Call>)
    requires SampleShows(shared, sample, trace)
    ensures Joined(SampleNames(shared, sample)) == Line(trace)
  {
    RootNamesLength(trace);
    forall j | 0 <= j < |trace| ensures SampleNames(shared, sample)[j] == RootNames(trace)[j] {
      RootNamesAt(trace, j);
    }
    assert SampleNames(shared, sample) == RootNames(trace);
  }

  /** Every position of every exported sample names the right file: the file name of the
  call at that position, counted from the outermost caller. */
  lemma ExportedFiles(frames: seq<Frame>, entries: seq<Entry>, period: nat, p: Profile, k: nat, j: nat)
    requires Linked(frames) && Exported(frames, entries, period, p) && k < |entries| && j < |p.samples[k]|
    ensures entries[k].frameIndex < |frames|
    ensures var trace, sample := Trace(frames, entries[k].frameIndex), p.samples[k];
            && |sample| == |trace| && sample[j] < |p.frames|
            && p.frames[sample[j]].file == trace[|trace| - 1 - j].filename
            && p.frames[sample[j]].name == FrameName(trace[|trace| - 1 - j])
  {
    assert EntryShown(frames, period, entries[k], p.frames, p.samples[k], p.weights[k]);
  }

  function WeightSum(weights: seq<int>): int {
    if weights == [] then 0 else WeightSum(weights[..|weights| - 1]) + weights[|weights| - 1]
  }

  /** No entry's time overflows a zend_long. */
  ghost predicate WeightsFit(entries: seq<Entry>, period: nat) {
    forall i | 0 <= i < |entries| :: entries[i].eventCount * period < TWO_63
  }

  /** Storing a non-negative result never makes it larger. */
  lemma AsLongAtMost(n: nat)
    ensures AsLong(n) <= n && (AsLong(n) == n <==> n < TWO_63)
  {
    AsLongExactIff(n);
  }

  /** The weights never exceed the event count times the period, and they add up to it
  if and only if no single entry overflows. */
  lemma {:induction false} WeightsAddUpIff(entries: seq<Entry>, period: nat, weights: seq<int>)
    requires |weights| == |entries|
    requires forall i | 0 <= i < |entries| :: weights[i] == Weight(entries[i], period)
    ensures WeightSum(weights) <= EntryTotal(entries) * period
    ensures WeightSum(weights) == EntryTotal(entries) * period <==> WeightsFit(entries, period)
    decreases |entries|
  {
    if entries != [] {
      var n := |entries| - 1;
      var front, e := EntryTotal(entries[..n]), entries[n].eventCount;
      assert (front + e) * period == front * period + e * period;
      WeightsAddUpIff(entries[..n], period, weights[..n]);
      AsLongAtMost(e * period);
      assert WeightsFit(entries, period) <==> WeightsFit(entries[..n], period) && e * period < TWO_63;
    }
  }

  /** One event in a period of 2^63 nanoseconds is enough to overflow. */
  lemma OverflowingWeight()
    ensures Weight(Entry(0, 1, 0), TWO_63) == -TWO_63
  {
  }
}
