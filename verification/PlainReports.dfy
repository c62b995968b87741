/** The three reports against the plain list of samples.

The reference is a profiler without any frame table: it keeps every sample's
steps and works each report out from them. Each report uses only a part of a
call: its name, its name and file, or its unsanitised name. The reports of the
compressed log are those of the plain profiler when call sites agree on that
part, and for the parts themselves this is also necessary. */
module PlainReports {
  import opened Text
  import opened Frames
  import opened SampleLog
  import opened Fidelity
  import opened Collate
  import opened Names
  import opened Collapsed
  import opened Speedscope
  import opened Aggregate

  /** What is shown of a sample. */
  function Shown(s: Sample): (r: seq<Call>)
    ensures |r| == |s.Steps()| && forall i | 0 <= i < |r| :: r[i] == ShownCall(s.Steps()[i])
  {
    seq(|s.Steps()|, i requires 0 <= i < |s.Steps()| => ShownCall(s.Steps()[i]))
  }

  /** What g tells of the call that stands for a step. */
  function OnShown<X>(g: Call -> X): Step -> X {
    s => g(ShownCall(s))
  }

  ghost predicate SameCalls<X(!new)>(p: seq<Call>, q: seq<Call>, g: Call -> X) {
    |p| == |q| && forall i | 0 <= i < |p| :: g(p[i]) == g(q[i])
  }

  /** As far as g tells, every entry's chain shows what its sample shows. */
  ghost predicate SameTraces<X(!new)>(frames: seq<Frame>, entries: seq<Entry>, samples: seq<Sample>, g: Call -> X)
    requires InRange(frames, entries)
  {
    && |entries| == |samples|
    && (forall k | 0 <= k < |entries| :: entries[k].eventCount == samples[k].eventCount)
    && (forall k | 0 <= k < |entries| :: SameCalls(Trace(frames, entries[k].frameIndex), Shown(samples[k]), g))
  }

  lemma SameOnShown<X(!new)>(frames: seq<Frame>, reverse: map<string, nat>, i: nat, s: Sample, g: Call -> X)
    requires TableValid(frames, reverse) && i < |frames|
    ensures SameOn(Steps(frames, MarkerIndex(reverse), i), s.Steps(), OnShown(g))
       <==> SameCalls(Trace(frames, i), Shown(s), g)
  {
    TraceShowsSteps(frames, reverse, i);
    var steps, calls, f := Steps(frames, MarkerIndex(reverse), i), Trace(frames, i), OnShown(g);
    if |steps| == |s.Steps()| {
      forall k | 0 <= k < |steps|
        ensures f(steps[k]) == g(calls[k]) && f(s.Steps()[k]) == g(Shown(s)[k])
      {
      }
    }
  }

  /** The traces are those of the plain samples, as far as g tells, if and only if call
  sites agree on what g tells. */
  lemma TracesOfSamplesIff<X(!new)>(frames: seq<Frame>, reverse: map<string, nat>, origins: seq<seq<Step>>,
                                    entries: seq<Entry>, samples: seq<Sample>, g: Call -> X)
    requires Represents(frames, reverse, origins, entries, samples)
    ensures InRange(frames, entries)
    ensures SameTraces(frames, entries, samples, g) <==> CallSitesAgreeOn(samples, OnShown(g))
  {
    EntriesInRange(frames, reverse, origins, entries, samples);
    FaithfulOnIff(frames, reverse, origins, entries, samples, OnShown(g));
    forall k | 0 <= k < |entries|
      ensures entries[k].eventCount == samples[k].eventCount
      ensures SameOn(Steps(frames, MarkerIndex(reverse), entries[k].frameIndex), samples[k].Steps(), OnShown(g))
         <==> SameCalls(Trace(frames, entries[k].frameIndex), Shown(samples[k]), g)
    {
      assert EntryStandsFor(frames, reverse, entries[k], samples[k]);
      SameOnShown(frames, reverse, entries[k].frameIndex, samples[k], g);
    }
  }

  /** Agreement on whole calls is more than any report needs. */
  lemma WholeCallsSuffice<X(!new)>(samples: seq<Sample>, g: Call -> X)
    requires CallSitesAgree(samples)
    ensures CallSitesAgreeOn(samples, OnShown(g))
  {
    forall a: nat, k: nat, b: nat, l: nat |
      a < |samples| && k < |samples[a].Steps()| && b < |samples| && l < |samples[b].Steps()|
      && Spots(Tail(samples, a, k)) == Spots(Tail(samples, b, l))
      ensures OnShown(g)(Tail(samples, a, k)[0]) == OnShown(g)(Tail(samples, b, l)[0])
    {
      assert Whole()(Tail(samples, a, k)[0]) == Whole()(Tail(samples, b, l)[0]);
    }
  }

  // -------------------------------------------------------------------- collapsed

  function PlainPairs(samples: seq<Sample>): (r: seq<(string, nat)>)
    ensures |r| == |samples|
    ensures forall i | 0 <= i < |r| :: r[i] == (Line(Shown(samples[i])), samples[i].eventCount)
  {
    seq(|samples|, i requires 0 <= i < |samples| => (Line(Shown(samples[i])), samples[i].eventCount))
  }

  lemma {:induction false} SameLine(p: seq<Call>, q: seq<Call>)
    requires SameCalls(p, q, FrameName)
    ensures Line(p) == Line(q)
    decreases |p|
  {
    if p != [] {
      LineUnfold(p);
      LineUnfold(q);
      assert forall i | 0 <= i < |p[1..]| :: p[1..][i] == p[i + 1] && q[1..][i] == q[i + 1];
      SameLine(p[1..], q[1..]);
    }
  }

  /** When names agree, the collapsed text is the collated text of the plain samples. */
  lemma CollapsedOfSamples(frames: seq<Frame>, entries: seq<Entry>, samples: seq<Sample>)
    requires InRange(frames, entries) && SameTraces(frames, entries, samples, FrameName)
    ensures Lines(frames, entries) == Collated(PlainPairs(samples))
  {
    var ps := Rendered(frames, IndexPairs(entries));
    forall k | 0 <= k < |entries| ensures ps[k] == PlainPairs(samples)[k] {
      SameLine(Trace(frames, entries[k].frameIndex), Shown(samples[k]));
    }
    assert ps == PlainPairs(samples);
  }

  /** For whole lines the converse fails: a name may contain a semicolon, and then
  different names can join to one line. */
  lemma SemicolonsHideNames()
    ensures var p := [Call("c", 1, 0, None, None), Call("a;b", 1, 0, None, None)];
            var q := [Call("b;c", 1, 0, None, None), Call("a", 1, 0, None, None)];
            Line(p) == Line(q) && !SameCalls(p, q, FrameName)
  {
    var p := [Call("c", 1, 0, None, None), Call("a;b", 1, 0, None, None)];
    var q := [Call("b;c", 1, 0, None, None), Call("a", 1, 0, None, None)];
    LineUnfold(p);
    LineUnfold(q);
    LineUnfold(p[1..]);
    LineUnfold(q[1..]);
    assert FrameName(p[0]) == "c" && FrameName(p[1]) == "a;b";
    assert FrameName(q[0]) == "b;c" && FrameName(q[1]) == "a";
    assert "a;b" + ";" + "c" == "a" + ";" + "b;c";
    assert |FrameName(p[0])| != |FrameName(q[0])|;
  }

  // ------------------------------------------------------------------- Speedscope

  /** Every sample of the profile shows the plain sample. */
  ghost predicate AllSamplesShow(p: Profile, samples: seq<Sample>) {
    |p.samples| == |samples| && forall k | 0 <= k < |samples| :: SampleShows(p.frames, p.samples[k], Shown(samples[k]))
  }

  lemma ShowsBoth(shared: seq<Shared>, sample: seq<nat>, p: seq<Call>, q: seq<Call>)
    requires SampleShows(shared, sample, p)
    ensures SampleShows(shared, sample, q) <==> SameCalls(p, q, SharedOf)
  {
    if SampleShows(shared, sample, q) {
      forall i | 0 <= i < |p| ensures SharedOf(p[i]) == SharedOf(q[i]) {
        var j := |p| - 1 - i;
        assert shared[sample[j]] == SharedOf(p[|p| - 1 - j]) == SharedOf(q[|q| - 1 - j]);
      }
    }
  }

  /** The profile shows the plain samples if and only if call sites agree on name and
  file; the weights are those of the plain samples in any case. */
  lemma SpeedscopeOfSamplesIff(frames: seq<Frame>, reverse: map<string, nat>, origins: seq<seq<Step>>,
                               entries: seq<Entry>, samples: seq<Sample>, period: nat, p: Profile)
    requires Represents(frames, reverse, origins, entries, samples)
    requires Exported(frames, entries, period, p)
    ensures AllSamplesShow(p, samples) <==> CallSitesAgreeOn(samples, OnShown(SharedOf))
    ensures |p.weights| == |samples|
    ensures forall k | 0 <= k < |samples| :: p.weights[k] == AsLong(samples[k].eventCount * period)
  {
    TracesOfSamplesIff(frames, reverse, origins, entries, samples, SharedOf);
    forall k | 0 <= k < |samples|
      ensures p.weights[k] == AsLong(samples[k].eventCount * period)
      ensures entries[k].eventCount == samples[k].eventCount
      ensures SampleShows(p.frames, p.samples[k], Shown(samples[k]))
         <==> SameCalls(Trace(frames, entries[k].frameIndex), Shown(samples[k]), SharedOf)
    {
      assert EntryStandsFor(frames, reverse, entries[k], samples[k]);
      assert EntryShown(frames, period, entries[k], p.frames, p.samples[k], p.weights[k]);
      ShowsBoth(p.frames, p.samples[k], Trace(frames, entries[k].frameIndex), Shown(samples[k]));
    }
  }

  // ------------------------------------------------------------------- aggregation

  function PlainSelf(samples: seq<Sample>, name: string): nat {
    if samples == [] then 0 else
    var n := |samples| - 1;
    PlainSelf(samples[..n], name) + if OnTop(Shown(samples[n]), name) then samples[n].eventCount else 0
  }

  function PlainInclusive(samples: seq<Sample>, name: string): nat {
    if samples == [] then 0 else
    var n := |samples| - 1;
    PlainInclusive(samples[..n], name) + if Named(Shown(samples[n]), name) then samples[n].eventCount else 0
  }

  lemma SameTracesFront(frames: seq<Frame>, entries: seq<Entry>, samples: seq<Sample>)
    requires InRange(frames, entries) && SameTraces(frames, entries, samples, FuncName) && entries != []
    ensures var n := |entries| - 1;
            InRange(frames, entries[..n]) && SameTraces(frames, entries[..n], samples[..n], FuncName)
  {
    var n := |entries| - 1;
    forall k | 0 <= k < n
      ensures SameCalls(Trace(frames, entries[..n][k].frameIndex), Shown(samples[..n][k]), FuncName)
    {
      assert entries[..n][k] == entries[k] && samples[..n][k] == samples[k];
    }
  }

  lemma SameNames(p: seq<Call>, q: seq<Call>, name: string)
    requires SameCalls(p, q, FuncName)
    ensures OnTop(p, name) <==> OnTop(q, name)
    ensures Named(p, name) <==> Named(q, name)
  {
    if Named(p, name) {
      var k :| 0 <= k < |p| && FuncName(p[k]) == name;
      assert FuncName(q[k]) == name;
    }
    if Named(q, name) {
      var k :| 0 <= k < |q| && FuncName(q[k]) == name;
      assert FuncName(p[k]) == name;
    }
  }

  lemma {:induction false} TotalsOfSamples(frames: seq<Frame>, entries: seq<Entry>, samples: seq<Sample>, name: string)
    requires InRange(frames, entries) && SameTraces(frames, entries, samples, FuncName)
    ensures SelfTotal(frames, entries, name) == PlainSelf(samples, name)
    ensures InclusiveTotal(frames, entries, name) == PlainInclusive(samples, name)
    decreases |entries|
  {
    if entries != [] {
      var n := |entries| - 1;
      SameTracesFront(frames, entries, samples);
      TotalsOfSamples(frames, entries[..n], samples[..n], name);
      SameNames(Trace(frames, entries[n].frameIndex), Shown(samples[n]), name);
    }
  }

  ghost predicate ShownIn(samples: seq<Sample>, name: string) {
    exists k | 0 <= k < |samples| :: Named(Shown(samples[k]), name)
  }

  lemma NamedConcat(c1: seq<Call>, c2: seq<Call>, name: string)
    ensures Named(c1 + c2, name) <==> Named(c1, name) || Named(c2, name)
  {
    var c := c1 + c2;
    if Named(c1, name) {
      var k :| 0 <= k < |c1| && FuncName(c1[k]) == name;
      assert FuncName(c[k]) == name;
    }
    if Named(c2, name) {
      var k :| 0 <= k < |c2| && FuncName(c2[k]) == name;
      assert FuncName(c[|c1| + k]) == name;
    }
    if Named(c, name) {
      var k :| 0 <= k < |c| && FuncName(c[k]) == name;
      assert if k < |c1| then c[k] == c1[k] else c[k] == c2[k - |c1|];
    }
  }

  lemma ShownSnoc(samples: seq<Sample>, name: string)
    requires samples != []
    ensures var n := |samples| - 1;
            ShownIn(samples, name) <==> ShownIn(samples[..n], name) || Named(Shown(samples[n]), name)
  {
    var n := |samples| - 1;
    if ShownIn(samples[..n], name) {
      var k :| 0 <= k < n && Named(Shown(samples[..n][k]), name);
      assert Named(Shown(samples[k]), name);
    }
    if ShownIn(samples, name) && !Named(Shown(samples[n]), name) {
      var k :| 0 <= k < |samples| && Named(Shown(samples[k]), name);
      assert Named(Shown(samples[..n][k]), name);
    }
  }

  lemma {:induction false} NamesOfSamples(frames: seq<Frame>, entries: seq<Entry>, samples: seq<Sample>, name: string)
    requires InRange(frames, entries) && SameTraces(frames, entries, samples, FuncName)
    ensures Named(Calls(frames, entries), name) <==> ShownIn(samples, name)
    decreases |entries|
  {
    if entries != [] {
      var n := |entries| - 1;
      SameTracesFront(frames, entries, samples);
      NamesOfSamples(frames, entries[..n], samples[..n], name);
      SameNames(Trace(frames, entries[n].frameIndex), Shown(samples[n]), name);
      NamedConcat(Calls(frames, entries[..n]), Trace(frames, entries[n].frameIndex), name);
      ShownSnoc(samples, name);
    }
  }

  /** When names agree, the aggregated report lists exactly the functions of the plain
  samples, with the plain totals. */
  lemma AggregateOfSamples(frames: seq<Frame>, entries: seq<Entry>, samples: seq<Sample>, infos: seq<Info>)
    requires InRange(frames, entries) && SameTraces(frames, entries, samples, FuncName)
    requires Aggregated(frames, entries, infos)
    ensures forall name :: Listed(infos, name) <==> ShownIn(samples, name)
    ensures forall x | x in infos ::
              x.self == PlainSelf(samples, x.name) && x.inclusive == PlainInclusive(samples, x.name)
  {
    forall name ensures Listed(infos, name) <==> ShownIn(samples, name) {
      NamesOfSamples(frames, entries, samples, name);
    }
    forall x | x in infos
      ensures x.self == PlainSelf(samples, x.name) && x.inclusive == PlainInclusive(samples, x.name)
    {
      TotalsOfSamples(frames, entries, samples, x.name);
    }
  }
}
