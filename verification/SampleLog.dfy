/** The sample log: entries that point into a shared frame table.

A log object carries, as ghost state, the plain list of samples it was given
and, for each frame, the kept steps that first created it. Validity says that
the compressed form stands for exactly that list. */
module SampleLog {
  import opened Text
  import opened Frames

  datatype Entry = Entry(frameIndex: uint32, eventCount: nat, timestamp: nat)

  /** One call of excimer_log_add, with the depth limit in force at that time. */
  datatype Sample = Sample(stack: seq<VmFrame>, maxDepth: int, eventCount: nat, timestamp: nat) {
    function Steps(): seq<Step> {
      Kept(stack, maxDepth)
    }
  }

  function EntryTotal(entries: seq<Entry>): nat {
    if entries == [] then 0 else EntryTotal(entries[..|entries| - 1]) + entries[|entries| - 1].eventCount
  }

  lemma EntryTotalAdd(entries: seq<Entry>, e: Entry)
    ensures EntryTotal(entries + [e]) == EntryTotal(entries) + e.eventCount
  {
    assert (entries + [e])[..|entries|] == entries;
  }

  function SampleTotal(samples: seq<Sample>): nat {
    if samples == [] then 0 else SampleTotal(samples[..|samples| - 1]) + samples[|samples| - 1].eventCount
  }

  // ------------------------------------------------------------- representation

  predicate IsSuffix<T(==)>(p: seq<T>, s: seq<T>) {
    |p| <= |s| && s[|s| - |p|..] == p
  }

  lemma SuffixesOfTail<T>(ps: seq<seq<T>>, from: nat, tail: seq<T>, whole: seq<T>)
    requires IsSuffix(tail, whole)
    requires forall i | from <= i < |ps| :: IsSuffix(ps[i], tail)
    ensures forall i | from <= i < |ps| :: IsSuffix(ps[i], whole)
  {
    forall i | from <= i < |ps| ensures IsSuffix(ps[i], whole) {
      assert whole[|whole| - |ps[i]|..] == tail[|tail| - |ps[i]|..];
    }
  }

  lemma SuffixOfItself<T>(ps: seq<seq<T>>, from: nat, whole: seq<T>)
    requires forall i | from <= i < |ps| :: ps[i] == whole
    ensures forall i | from <= i < |ps| :: IsSuffix(ps[i], whole)
  {
  }

  /** The steps p created frame i: p says the same as the frame's chain to the
  reverse table, and the frame holds the first call of p in full. */
  ghost predicate IsOrigin(frames: seq<Frame>, reverse: map<string, nat>, i: nat, p: seq<Step>)
    requires Linked(frames) && 1 <= i < |frames|
  {
    && p != []
    && Spots(p) == SpotTrace(frames, reverse, i)
    && frames[i].call == ShownCall(p[0])
  }

  ghost predicate OriginsValid(frames: seq<Frame>, reverse: map<string, nat>, origins: seq<seq<Step>>)
    requires Linked(frames)
  {
    && |origins| == |frames|
    && (forall i | 1 <= i < |frames| :: IsOrigin(frames, reverse, i, origins[i]))
  }

  ghost predicate EntryStandsFor(frames: seq<Frame>, reverse: map<string, nat>, e: Entry, s: Sample)
    requires Linked(frames)
  {
    && e.frameIndex < |frames|
    && SpotTrace(frames, reverse, e.frameIndex) == Spots(s.Steps())
    && e.eventCount == s.eventCount
    && e.timestamp == s.timestamp
  }

  ghost predicate Sampled(p: seq<Step>, samples: seq<Sample>) {
    exists k | 0 <= k < |samples| :: IsSuffix(p, samples[k].Steps())
  }

  /** The compressed log stands for the plain list of samples. */
  ghost predicate Represents(frames: seq<Frame>, reverse: map<string, nat>, origins: seq<seq<Step>>,
                             entries: seq<Entry>, samples: seq<Sample>)
  {
    && TableValid(frames, reverse)
    && OriginsValid(frames, reverse, origins)
    && (forall i | 1 <= i < |frames| :: Sampled(origins[i], samples))
    && |entries| == |samples|
    && (forall k | 0 <= k < |entries| :: EntryStandsFor(frames, reverse, entries[k], samples[k]))
  }

  lemma OriginsExtend(frames: seq<Frame>, reverse: map<string, nat>, origins: seq<seq<Step>>,
                      frames': seq<Frame>, reverse': map<string, nat>, p: seq<Step>)
    requires TableValid(frames, reverse) && TableValid(frames', reverse')
    requires Extends(frames, reverse, frames', reverse') && |frames'| == |frames| + 1
    requires OriginsValid(frames, reverse, origins)
    requires IsOrigin(frames', reverse', |frames|, p)
    ensures OriginsValid(frames', reverse', origins + [p])
  {
    forall i | 1 <= i < |frames'| ensures IsOrigin(frames', reverse', i, (origins + [p])[i]) {
      if i < |frames| {
        assert IsOrigin(frames, reverse, i, origins[i]);
        ExtendsKeepsSteps(frames, reverse, frames', reverse', i);
      }
    }
  }

  lemma EntriesExtend(frames: seq<Frame>, reverse: map<string, nat>,
                      frames': seq<Frame>, reverse': map<string, nat>,
                      entries: seq<Entry>, samples: seq<Sample>)
    requires Linked(frames) && Linked(frames') && Extends(frames, reverse, frames', reverse')
    requires |entries| == |samples|
    requires forall k | 0 <= k < |entries| :: EntryStandsFor(frames, reverse, entries[k], samples[k])
    ensures forall k | 0 <= k < |entries| :: EntryStandsFor(frames', reverse', entries[k], samples[k])
  {
    forall k | 0 <= k < |entries| ensures EntryStandsFor(frames', reverse', entries[k], samples[k]) {
      assert EntryStandsFor(frames, reverse, entries[k], samples[k]);
      ExtendsKeepsSteps(frames, reverse, frames', reverse', entries[k].frameIndex);
    }
  }

  lemma SampledMore(p: seq<Step>, samples: seq<Sample>, s: Sample)
    requires Sampled(p, samples) || IsSuffix(p, s.Steps())
    ensures Sampled(p, samples + [s])
  {
    var more := samples + [s];
    if Sampled(p, samples) {
      var k :| 0 <= k < |samples| && IsSuffix(p, samples[k].Steps());
      assert more[k] == samples[k];
    } else {
      assert more[|samples|] == s;
    }
  }

  /** Recording one more sample in a grown table. */
  lemma RepresentsAdd(frames: seq<Frame>, reverse: map<string, nat>, origins: seq<seq<Step>>,
                      frames': seq<Frame>, reverse': map<string, nat>, origins': seq<seq<Step>>,
                      entries: seq<Entry>, samples: seq<Sample>, e: Entry, s: Sample)
    requires Represents(frames, reverse, origins, entries, samples)
    requires TableValid(frames', reverse') && OriginsValid(frames', reverse', origins')
    requires Extends(frames, reverse, frames', reverse') && origins <= origins'
    requires forall i | |origins| <= i < |origins'| :: IsSuffix(origins'[i], s.Steps())
    requires EntryStandsFor(frames', reverse', e, s)
    ensures Represents(frames', reverse', origins', entries + [e], samples + [s])
  {
    EntriesExtend(frames, reverse, frames', reverse', entries, samples);
    forall i | 1 <= i < |frames'| ensures Sampled(origins'[i], samples + [s]) {
      if i < |frames| {
        assert Sampled(origins[i], samples);
        assert origins'[i] == origins[i];
      }
      SampledMore(origins'[i], samples, s);
    }
  }

  /** The frame is the marker, or has the fields of a VM frame of the stack that is
  looked at. */
  ghost predicate ComesFrom(frames: seq<Frame>, reverse: map<string, nat>, i: nat,
                            stack: seq<VmFrame>, maxDepth: int)
    requires i < |frames|
  {
    || (i == MarkerIndex(reverse) && frames[i].call == MARKER_CALL)
    || exists j | 0 <= j < Seen(stack, maxDepth) :: Describes(frames[i].call, stack[j])
  }

  lemma OriginComesFrom(frames: seq<Frame>, reverse: map<string, nat>, i: nat, p: seq<Step>,
                        stack: seq<VmFrame>, maxDepth: int)
    requires Linked(frames) && 1 <= i < |frames| && IsOrigin(frames, reverse, i, p)
    requires IsSuffix(p, Kept(stack, maxDepth))
    ensures ComesFrom(frames, reverse, i, stack, maxDepth)
  {
    var kept := Kept(stack, maxDepth);
    var m := |kept| - |p|;
    assert kept[m] == kept[m..][0] == p[0];
    if p[0].At? {
      var j := KeptHasFrame(stack, maxDepth, m);
    } else {
      SpotTraceUnfold(frames, reverse, i);
      assert Spots(p)[0] == MarkerSpot;
    }
  }

  /** Every frame of a log is the marker, or has the fields of a VM frame of a recorded
  stack. */
  lemma FramesComeFromStacks(frames: seq<Frame>, reverse: map<string, nat>, origins: seq<seq<Step>>,
                             entries: seq<Entry>, samples: seq<Sample>, i: nat) returns (k: nat)
    requires Represents(frames, reverse, origins, entries, samples) && 1 <= i < |frames|
    ensures k < |samples| && ComesFrom(frames, reverse, i, samples[k].stack, samples[k].maxDepth)
  {
    assert IsOrigin(frames, reverse, i, origins[i]) && Sampled(origins[i], samples);
    k :| 0 <= k < |samples| && IsSuffix(origins[i], samples[k].Steps());
    OriginComesFrom(frames, reverse, i, origins[i], samples[k].stack, samples[k].maxDepth);
  }

  // -------------------------------------------------------------------- the log

  class Log {
    var entries: seq<Entry>
    var frames: seq<Frame>
    var reverse: map<string, nat>
    var maxDepth: int
    var epoch: nat
    var period: nat
    var eventCount: nat

    ghost var samples: seq<Sample>
    ghost var origins: seq<seq<Step>>

    ghost predicate ValidTable()
      reads this
    {
      && TableValid(frames, reverse)
      && |frames| <= UINT32_MODULUS
      && OriginsValid(frames, reverse, origins)
    }

    ghost predicate Valid()
      reads this
    {
      && ValidTable()
      && Represents(frames, reverse, origins, entries, samples)
      && eventCount == EntryTotal(entries)
    }

    /** The last entry stands for this stack under this depth limit, with this count and
    time. */
    ghost predicate LastIs(stack: seq<VmFrame>, depth: int, count: nat, timestamp: nat)
      reads this
    {
      && entries != [] && Linked(frames)
      && EntryStandsFor(frames, reverse, entries[|entries| - 1], Sample(stack, depth, count, timestamp))
    }

    constructor ()
      ensures Valid()
      ensures entries == [] && samples == [] && |frames| == 1 && reverse == map[]
      ensures maxDepth == 0 && epoch == 0 && period == 0 && eventCount == 0
    {
      entries := [];
      frames := [NULL_FRAME];
      reverse := map[];
      maxDepth, epoch, period, eventCount := 0, 0, 0, 0;
      samples := [];
      origins := [[]];
    }

    method SetMaxDepth(depth: int)
      modifies this`maxDepth
      ensures maxDepth == depth
      ensures old(Valid()) ==> Valid()
    {
      maxDepth := depth;
    }

    method CopyOptions(src: Log)
      modifies this`maxDepth, this`epoch, this`period
      ensures maxDepth == old(src.maxDepth) && epoch == old(src.epoch) && period == old(src.period)
      ensures old(Valid()) ==> Valid()
    {
      maxDepth := src.maxDepth;
      epoch := src.epoch;
      period := src.period;
    }

    /** The index of the shared marker frame, which is created on first use.
    None is the fatal error of an index that does not fit in 32 bits. */
    method TruncationMarker() returns (index: Option<uint32>)
      requires ValidTable()
      modifies this`frames, this`reverse, this`origins
      ensures index.None? ==> |frames| > UINT32_MODULUS
      ensures index.Some? ==>
                && ValidTable()
                && Extends(old(frames), old(reverse), frames, reverse)
                && 1 <= index.value < |frames|
                && Steps(frames, MarkerIndex(reverse), index.value) == [Truncated]
      ensures |frames| <= |old(frames)| + 1
      ensures old(origins) <= origins
      ensures forall i | |old(origins)| <= i < |origins| :: origins[i] == [Truncated]
    {
      if MARKER_KEY in reverse {
        assert KeyAt(frames, reverse, reverse[MARKER_KEY]) == MARKER_KEY;
        return Some(reverse[MARKER_KEY]);
      }
      AppendMarker(frames, reverse);
      var newIndex := |frames|;
      ghost var oldFrames, oldReverse := frames, reverse;
      reverse := reverse[MARKER_KEY := newIndex];
      frames := frames + [Frame(MARKER_CALL, 0)];
      assert Steps(frames, MarkerIndex(reverse), newIndex) == [Truncated];
      OriginsExtend(oldFrames, oldReverse, origins, frames, reverse, [Truncated]);
      origins := origins + [[Truncated]];
      if newIndex >= UINT32_MODULUS {
        return None;
      }
      return Some(newIndex);
    }

    /** Find the frame for a call with a known parent, or add it. The kept steps
    below the call are passed along as a witness. */
    method Intern(call: Call, prevIndex: uint32, ghost below: seq<Step>) returns (index: Option<uint32>)
      requires ValidTable() && prevIndex < |frames|
      requires SpotTrace(frames, reverse, prevIndex) == Spots(below)
      modifies this`frames, this`reverse, this`origins
      ensures index.None? ==> |frames| > UINT32_MODULUS
      ensures index.Some? ==>
                && ValidTable()
                && Extends(old(frames), old(reverse), frames, reverse)
                && index.value < |frames|
                && SpotTrace(frames, reverse, index.value) == Spots([At(call)] + below)
      ensures |frames| <= |old(frames)| + 1
      ensures old(origins) <= origins
      ensures forall i | |old(origins)| <= i < |origins| :: origins[i] == [At(call)] + below
    {
      ghost var steps := [At(call)] + below;
      assert steps[1..] == below;
      var key := FrameKey(call.filename, call.lineno, prevIndex);
      FrameKeyNotMarker(call.filename, call.lineno, prevIndex);
      if key in reverse {
        var found := reverse[key];
        assert KeyAt(frames, reverse, found) == key;
        FrameKeyInjective(call.filename, call.lineno, prevIndex,
                          frames[found].call.filename, frames[found].call.lineno, frames[found].prevIndex);
        SpotTraceUnfold(frames, reverse, found);
        return Some(found);
      }
      var newIndex := |frames|;
      ghost var oldFrames, oldReverse := frames, reverse;
      AppendFrame(frames, reverse, Frame(call, prevIndex));
      reverse := reverse[key := newIndex];
      frames := frames + [Frame(call, prevIndex)];
      ExtendsKeepsSteps(oldFrames, oldReverse, frames, reverse, prevIndex);
      SpotTraceUnfold(frames, reverse, newIndex);
      OriginsExtend(oldFrames, oldReverse, origins, frames, reverse, steps);
      origins := origins + [steps];
      if newIndex >= UINT32_MODULUS {
        return None;
      }
      return Some(newIndex);
    }

    /** The marker, as what is kept below a frame at the depth limit. */
    method MarkerAsCaller() returns (index: Option<uint32>)
      requires ValidTable()
      modifies this`frames, this`reverse, this`origins
      ensures index.None? ==> |frames| > UINT32_MODULUS
      ensures index.Some? ==>
                && ValidTable()
                && Extends(old(frames), old(reverse), frames, reverse)
                && index.value < |frames|
                && SpotTrace(frames, reverse, index.value) == Spots([Truncated])
      ensures |frames| <= |old(frames)| + 1
      ensures old(origins) <= origins
      ensures forall i | |old(origins)| <= i < |origins| :: IsSuffix(origins[i], [Truncated])
    {
      index := TruncationMarker();
      SuffixOfItself(origins, |old(origins)|, [Truncated]);
    }

    /** The index of the caller of the first frame of a stack. */
    method FindOrAddCaller(stack: seq<VmFrame>, depth: nat) returns (index: Option<uint32>)
      requires ValidTable()
      requires |stack| >= 1
      requires maxDepth != 0 ==> depth < Room(maxDepth)
      modifies this`frames, this`reverse, this`origins
      ensures index.None? ==> |frames| > UINT32_MODULUS
      ensures index.Some? ==>
                && ValidTable()
                && Extends(old(frames), old(reverse), frames, reverse)
                && index.value < |frames|
                && SpotTrace(frames, reverse, index.value) == Spots(KeptBelow(stack, depth, maxDepth))
      ensures |frames| < |old(frames)| + |stack|
      ensures old(origins) <= origins
      ensures forall i | |old(origins)| <= i < |origins| ::
                IsSuffix(origins[i], KeptBelow(stack, depth, maxDepth))
      decreases |stack|, 0
    {
      if |stack| == 1 {
        return Some(0);
      } else if maxDepth != 0 && depth >= maxDepth {
        index := MarkerAsCaller();
      } else {
        index := FindOrAddFrame(stack[1..], depth + 1);
      }
    }

    /** The index that stands for what is kept of a stack, from its first frame on. */
    method FindOrAddFrame(stack: seq<VmFrame>, depth: nat) returns (index: Option<uint32>)
      requires ValidTable()
      requires maxDepth != 0 ==> depth < Room(maxDepth)
      modifies this`frames, this`reverse, this`origins
      ensures index.None? ==> |frames| > UINT32_MODULUS
      ensures index.Some? ==>
                && ValidTable()
                && Extends(old(frames), old(reverse), frames, reverse)
                && index.value < |frames|
                && SpotTrace(frames, reverse, index.value) == Spots(KeptFrom(stack, depth, maxDepth))
      ensures |frames| <= |old(frames)| + |stack|
      ensures old(origins) <= origins
      ensures forall i | |old(origins)| <= i < |origins| ::
                IsSuffix(origins[i], KeptFrom(stack, depth, maxDepth))
      decreases |stack|, 1
    {
      if |stack| == 0 {
        return Some(0);
      }
      ghost var below := KeptBelow(stack, depth, maxDepth);
      KeptFromStep(stack, depth, maxDepth);
      var prev := FindOrAddCaller(stack, depth);
      SuffixesOfTail(origins, |old(origins)|, below, KeptFrom(stack, depth, maxDepth));
      if prev.None? {
        return None;
      }
      if !stack[0].User? {
        return prev;
      }
      ghost var midFrames, midReverse := frames, reverse;
      index := Intern(CallOf(stack[0]), prev.value, below);
      if index.Some? {
        ExtendsTransitive(old(frames), old(reverse), midFrames, midReverse, frames, reverse);
      }
    }

    method AppendEntry(entry: Entry, ghost sample: Sample)
      requires ValidTable() && eventCount == EntryTotal(entries)
      requires Represents(frames, reverse, origins, entries + [entry], samples + [sample])
      modifies this`entries, this`eventCount, this`samples
      ensures Valid()
      ensures entries == old(entries) + [entry] && samples == old(samples) + [sample]
      ensures eventCount == old(eventCount) + entry.eventCount
    {
      EntryTotalAdd(entries, entry);
      entries := entries + [entry];
      eventCount := eventCount + entry.eventCount;
      samples := samples + [sample];
    }

    /** The frames that were added for a stack have the fields of its VM frames. */
    lemma NewFramesComeFrom(first: nat, stack: seq<VmFrame>, depth: int)
      requires ValidTable() && 1 <= first <= |frames|
      requires forall i | first <= i < |origins| :: IsSuffix(origins[i], Kept(stack, depth))
      ensures forall i | first <= i < |frames| :: ComesFrom(frames, reverse, i, stack, depth)
    {
      forall i | first <= i < |frames| ensures ComesFrom(frames, reverse, i, stack, depth) {
        OriginComesFrom(frames, reverse, i, origins[i], stack, depth);
      }
    }

    /** Record one sample. False is the fatal 32-bit error, which ends the request. It
    cannot happen as long as there is room for a frame per stack level. */
    method Add(stack: seq<VmFrame>, count: nat, timestamp: nat) returns (ok: bool)
      requires Valid()
      modifies this`entries, this`frames, this`reverse, this`eventCount, this`samples, this`origins
      ensures |frames| <= |old(frames)| + |stack|
      ensures |old(frames)| + |stack| <= UINT32_MODULUS ==> ok
      ensures !ok ==> |frames| > UINT32_MODULUS && entries == old(entries) && eventCount == old(eventCount)
      ensures ok ==>
                && Valid()
                && samples == old(samples) + [Sample(stack, maxDepth, count, timestamp)]
                && old(entries) <= entries && |entries| == |old(entries)| + 1
                && Extends(old(frames), old(reverse), frames, reverse)
                && eventCount == old(eventCount) + count
                && LastIs(stack, maxDepth, count, timestamp)
                && (forall i | |old(frames)| <= i < |frames| :: ComesFrom(frames, reverse, i, stack, maxDepth))
    {
      var index := FindOrAddFrame(stack, 0);
      if index.None? {
        return false;
      }
      var entry := Entry(index.value, count, timestamp);
      ghost var sample := Sample(stack, maxDepth, count, timestamp);
      assert sample.Steps() == KeptFrom(stack, 0, maxDepth);
      assert EntryStandsFor(frames, reverse, entry, sample);
      RepresentsAdd(old(frames), old(reverse), old(origins), frames, reverse, origins,
                    entries, samples, entry, sample);
      NewFramesComeFrom(|old(frames)|, stack, maxDepth);
      AppendEntry(entry, sample);
      return true;
    }

    /** The i-th entry is the one that stands for the i-th recorded sample. */
    method GetEntry(i: int) returns (r: Option<Entry>)
      requires Valid()
      ensures r.Some? <==> 0 <= i < |samples|
      ensures r.Some? ==> r.value == entries[i] && EntryStandsFor(frames, reverse, r.value, samples[i])
    {
      if i >= 0 && i < |entries| {
        return Some(entries[i]);
      }
      return None;
    }

    /** The backtrace of an entry, running function first. */
    method TraceToArray(frameIndex: uint32) returns (trace: seq<Call>)
      requires Valid() && frameIndex < |frames|
      ensures trace == Trace(frames, frameIndex)
    {
      trace := [];
      var i: nat := frameIndex;
      while i != 0
        invariant i < |frames|
        invariant trace + Trace(frames, i) == Trace(frames, frameIndex)
        decreases i
      {
        trace := trace + [frames[i].call];
        i := frames[i].prevIndex;
      }
    }
  }
}
