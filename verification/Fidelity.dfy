/** When a log remembers full calls, and not only files and lines.

The reverse table does not look at the class, function or closure line of a
call, so two calls at the same file and line with the same callers share one
frame. This module says for which lists of samples that loses nothing. */
module Fidelity {
  import opened Text
  import opened Frames
  import opened SampleLog

  ghost function Tail(samples: seq<Sample>, a: nat, k: nat): seq<Step>
    requires a < |samples| && k <= |samples[a].Steps()|
  {
    samples[a].Steps()[k..]
  }

  /** Wherever two sampled stacks agree on files, lines and marker from some call
  down to the root, they agree on what f tells of that call. */
  ghost predicate CallSitesAgreeOn<X(!new)>(samples: seq<Sample>, f: Step -> X) {
    forall a: nat, k: nat, b: nat, l: nat ::
      a < |samples| && k < |samples[a].Steps()| && b < |samples| && l < |samples[b].Steps()|
      && Spots(Tail(samples, a, k)) == Spots(Tail(samples, b, l))
      ==> f(Tail(samples, a, k)[0]) == f(Tail(samples, b, l)[0])
  }

  /** The same for the whole call. */
  ghost predicate CallSitesAgree(samples: seq<Sample>) {
    CallSitesAgreeOn(samples, Whole())
  }

  function Whole(): Step -> Step {
    s => s
  }

  ghost predicate SameOn<X(!new)>(p: seq<Step>, q: seq<Step>, f: Step -> X) {
    |p| == |q| && forall i | 0 <= i < |p| :: f(p[i]) == f(q[i])
  }

  /** As far as f tells, every entry's chain spells out what was to be kept of its
  sample. */
  ghost predicate FaithfulOn<X(!new)>(frames: seq<Frame>, reverse: map<string, nat>,
                                      entries: seq<Entry>, samples: seq<Sample>, f: Step -> X)
    requires Linked(frames) && |entries| == |samples|
    requires forall k | 0 <= k < |entries| :: entries[k].frameIndex < |frames|
  {
    forall k | 0 <= k < |entries| ::
      SameOn(Steps(frames, MarkerIndex(reverse), entries[k].frameIndex), samples[k].Steps(), f)
  }

  /** Every entry's chain spells out exactly what was to be kept of its sample. */
  ghost predicate Faithful(frames: seq<Frame>, reverse: map<string, nat>,
                           entries: seq<Entry>, samples: seq<Sample>)
    requires Linked(frames) && |entries| == |samples|
    requires forall k | 0 <= k < |entries| :: entries[k].frameIndex < |frames|
  {
    forall k | 0 <= k < |entries| ::
      Steps(frames, MarkerIndex(reverse), entries[k].frameIndex) == samples[k].Steps()
  }

  /** The log is faithful, as far as f tells, exactly when call sites agree on what f
  tells. */
  lemma FaithfulOnIff<X(!new)>(frames: seq<Frame>, reverse: map<string, nat>, origins: seq<seq<Step>>,
                               entries: seq<Entry>, samples: seq<Sample>, f: Step -> X)
    requires Represents(frames, reverse, origins, entries, samples)
    ensures forall k | 0 <= k < |entries| :: entries[k].frameIndex < |frames|
    ensures FaithfulOn(frames, reverse, entries, samples, f) <==> CallSitesAgreeOn(samples, f)
  {
    forall k | 0 <= k < |entries| ensures entries[k].frameIndex < |frames| {
      assert EntryStandsFor(frames, reverse, entries[k], samples[k]);
    }
    if CallSitesAgreeOn(samples, f) {
      forall k | 0 <= k < |entries|
        ensures SameOn(Steps(frames, MarkerIndex(reverse), entries[k].frameIndex), samples[k].Steps(), f)
      {
        assert EntryStandsFor(frames, reverse, entries[k], samples[k]);
        assert Tail(samples, k, 0) == samples[k].Steps();
        StepsAgree(frames, reverse, origins, entries, samples, f, entries[k].frameIndex, k, 0);
      }
    }
    if FaithfulOn(frames, reverse, entries, samples, f) {
      forall a: nat, k: nat, b: nat, l: nat |
        a < |samples| && k < |samples[a].Steps()| && b < |samples| && l < |samples[b].Steps()|
        && Spots(Tail(samples, a, k)) == Spots(Tail(samples, b, l))
        ensures f(Tail(samples, a, k)[0]) == f(Tail(samples, b, l)[0])
      {
        var i := CallerOf(frames, reverse, origins, entries, samples, f, a, k);
        var j := CallerOf(frames, reverse, origins, entries, samples, f, b, l);
        Canonical(frames, reverse, i, j);
      }
    }
  }

  /** The log is faithful exactly when call sites agree. */
  lemma FaithfulIff(frames: seq<Frame>, reverse: map<string, nat>, origins: seq<seq<Step>>,
                    entries: seq<Entry>, samples: seq<Sample>)
    requires Represents(frames, reverse, origins, entries, samples)
    ensures forall k | 0 <= k < |entries| :: entries[k].frameIndex < |frames|
    ensures Faithful(frames, reverse, entries, samples) <==> CallSitesAgree(samples)
  {
    FaithfulOnIff(frames, reverse, origins, entries, samples, Whole());
    forall k | 0 <= k < |entries|
      ensures var steps := Steps(frames, MarkerIndex(reverse), entries[k].frameIndex);
              SameOn(steps, samples[k].Steps(), Whole()) <==> steps == samples[k].Steps()
    {
    }
  }

  /** The k-th caller on a chain. */
  ghost function Caller(frames: seq<Frame>, marker: nat, i: nat, k: nat): (j: nat)
    requires Linked(frames) && i < |frames| && k <= |Steps(frames, marker, i)|
    ensures j < |frames| && Steps(frames, marker, j) == Steps(frames, marker, i)[k..]
  {
    if k == 0 then i else Caller(frames, marker, frames[i].prevIndex, k - 1)
  }

  /** The frame of the k-th call of a sample, which tells the same of it. */
  lemma CallerOf<X(!new)>(frames: seq<Frame>, reverse: map<string, nat>, origins: seq<seq<Step>>,
                          entries: seq<Entry>, samples: seq<Sample>, f: Step -> X, a: nat, k: nat)
    returns (i: nat)
    requires Represents(frames, reverse, origins, entries, samples)
    requires a < |samples| && k < |samples[a].Steps()| && entries[a].frameIndex < |frames|
    requires SameOn(Steps(frames, MarkerIndex(reverse), entries[a].frameIndex), samples[a].Steps(), f)
    ensures i < |frames| && SpotTrace(frames, reverse, i) == Spots(Tail(samples, a, k))
    ensures Steps(frames, MarkerIndex(reverse), i) != []
    ensures f(Steps(frames, MarkerIndex(reverse), i)[0]) == f(Tail(samples, a, k)[0])
  {
    var m := MarkerIndex(reverse);
    assert EntryStandsFor(frames, reverse, entries[a], samples[a]);
    var steps := Steps(frames, m, entries[a].frameIndex);
    i := Caller(frames, m, entries[a].frameIndex, k);
    assert Steps(frames, m, i) == steps[k..];
    SpotsDrop(steps, k);
    SpotsDrop(samples[a].Steps(), k);
  }

  lemma SpotsDrop(steps: seq<Step>, k: nat)
    requires k <= |steps|
    ensures Spots(steps[k..]) == Spots(steps)[k..]
  {
  }

  lemma {:induction false} StepsAgree<X(!new)>(frames: seq<Frame>, reverse: map<string, nat>, origins: seq<seq<Step>>,
                                               entries: seq<Entry>, samples: seq<Sample>, f: Step -> X,
                                               i: nat, a: nat, k: nat)
    requires Represents(frames, reverse, origins, entries, samples)
    requires CallSitesAgreeOn(samples, f)
    requires i < |frames| && a < |samples| && k <= |samples[a].Steps()|
    requires SpotTrace(frames, reverse, i) == Spots(Tail(samples, a, k))
    ensures SameOn(Steps(frames, MarkerIndex(reverse), i), Tail(samples, a, k), f)
    decreases i
  {
    var m := MarkerIndex(reverse);
    assert |Steps(frames, m, i)| == |Tail(samples, a, k)|;
    if i != 0 {
      assert Tail(samples, a, k)[1..] == Tail(samples, a, k + 1);
      SpotTraceUnfold(frames, reverse, i);
      assert SpotTrace(frames, reverse, i)[1..] == SpotTrace(frames, reverse, frames[i].prevIndex);
      SpotsTail(Tail(samples, a, k));
      StepsAgree(frames, reverse, origins, entries, samples, f, frames[i].prevIndex, a, k + 1);
      HeadAgrees(frames, reverse, origins, entries, samples, f, i, a, k);
      SameOnCons(Steps(frames, m, i), Tail(samples, a, k), f);
    }
  }

  lemma SameOnCons<X(!new)>(p: seq<Step>, q: seq<Step>, f: Step -> X)
    requires p != [] && q != [] && f(p[0]) == f(q[0]) && SameOn(p[1..], q[1..], f)
    ensures SameOn(p, q, f)
  {
    assert forall i | 1 <= i < |p| :: p[i] == p[1..][i - 1] && q[i] == q[1..][i - 1];
  }

  lemma SpotsTail(steps: seq<Step>)
    requires steps != []
    ensures Spots(steps)[0] == SpotOf(steps[0])
    ensures Spots(steps)[1..] == Spots(steps[1..])
  {
  }

  lemma HeadAgrees<X(!new)>(frames: seq<Frame>, reverse: map<string, nat>, origins: seq<seq<Step>>,
                            entries: seq<Entry>, samples: seq<Sample>, f: Step -> X, i: nat, a: nat, k: nat)
    requires Represents(frames, reverse, origins, entries, samples)
    requires CallSitesAgreeOn(samples, f)
    requires 1 <= i < |frames| && a < |samples| && k < |samples[a].Steps()|
    requires SpotTrace(frames, reverse, i) == Spots(Tail(samples, a, k))
    ensures f(Steps(frames, MarkerIndex(reverse), i)[0]) == f(Tail(samples, a, k)[0])
  {
    var p := origins[i];
    assert IsOrigin(frames, reverse, i, p) && Sampled(p, samples);
    var b :| 0 <= b < |samples| && IsSuffix(p, samples[b].Steps());
    var l := |samples[b].Steps()| - |p|;
    assert Tail(samples, b, l) == p;
    assert f(Tail(samples, a, k)[0]) == f(Tail(samples, b, l)[0]);
    SpotTraceUnfold(frames, reverse, i);
    SpotsTail(p);
    assert Steps(frames, MarkerIndex(reverse), i)[0] == p[0];
  }

  /** Two functions written on one line of a file are enough to lose one of them:
  no log can stand for these two samples and show both. */
  lemma OneLineTwoFunctions()
    ensures var f := User("a.php", 1, None, Some("f"), false, 0);
            var g := User("a.php", 1, None, Some("g"), false, 0);
            var samples := [Sample([f], 0, 1, 0), Sample([g], 0, 1, 0)];
            && !CallSitesAgree(samples)
            && (forall frames, reverse, origins, entries ::
                  Represents(frames, reverse, origins, entries, samples)
                  ==> !Faithful(frames, reverse, entries, samples))
  {
    var f := User("a.php", 1, None, Some("f"), false, 0);
    var g := User("a.php", 1, None, Some("g"), false, 0);
    var samples := [Sample([f], 0, 1, 0), Sample([g], 0, 1, 0)];
    assert [f][1..] == [] && [g][1..] == [];
    assert UserSteps([f]) == [At(CallOf(f))] && UserSteps([g]) == [At(CallOf(g))];
    assert Tail(samples, 0, 0) == [At(CallOf(f))];
    assert Tail(samples, 1, 0) == [At(CallOf(g))];
    assert Spots(Tail(samples, 0, 0)) == [Spot("a.php", 1)] == Spots(Tail(samples, 1, 0));
    assert Tail(samples, 0, 0)[0].call.functionName == Some("f");
    assert Tail(samples, 1, 0)[0].call.functionName == Some("g");
    assert "f"[0] != "g"[0];
    assert Whole()(Tail(samples, 0, 0)[0]) != Whole()(Tail(samples, 1, 0)[0]);
    forall frames, reverse, origins, entries |
      Represents(frames, reverse, origins, entries, samples)
      ensures !Faithful(frames, reverse, entries, samples)
    {
      FaithfulIff(frames, reverse, origins, entries, samples);
    }
  }
}
