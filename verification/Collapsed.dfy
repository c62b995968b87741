/** The collapsed report: one line per distinct trace, with its total count.

The builder first sums the entries by frame index and then sums those sums by
rendered line. The reference sums the entries by rendered line at once. */
module Collapsed {
  import opened Text
  import opened Frames
  import opened SampleLog
  import opened Collate
  import opened Names

  ghost predicate InRange(frames: seq<Frame>, entries: seq<Entry>) {
    Linked(frames) && forall i | 0 <= i < |entries| :: entries[i].frameIndex < |frames|
  }

  lemma EntriesInRange(frames: seq<Frame>, reverse: map<string, nat>, origins: seq<seq<Step>>,
                       entries: seq<Entry>, samples: seq<Sample>)
    requires Represents(frames, reverse, origins, entries, samples)
    ensures InRange(frames, entries)
  {
    forall i | 0 <= i < |entries| ensures entries[i].frameIndex < |frames| {
      assert EntryStandsFor(frames, reverse, entries[i], samples[i]);
    }
  }

  function LineAt(frames: seq<Frame>, i: nat): string
    requires Linked(frames) && i < |frames|
  {
    Line(Trace(frames, i))
  }

  function IndexPairs(entries: seq<Entry>): (r: seq<(nat, nat)>)
    ensures |r| == |entries|
    ensures forall i | 0 <= i < |r| :: r[i] == (entries[i].frameIndex, entries[i].eventCount)
  {
    seq(|entries|, i requires 0 <= i < |entries| => (entries[i].frameIndex, entries[i].eventCount))
  }

  ghost predicate IndicesOk(frames: seq<Frame>, ps: seq<(nat, nat)>) {
    forall i | 0 <= i < |ps| :: ps[i].0 < |frames|
  }

  function Rendered(frames: seq<Frame>, ps: seq<(nat, nat)>): (r: seq<(string, nat)>)
    requires Linked(frames) && IndicesOk(frames, ps)
    ensures |r| == |ps|
    ensures forall i | 0 <= i < |r| :: r[i] == (LineAt(frames, ps[i].0), ps[i].1)
  {
    seq(|ps|, i requires 0 <= i < |ps| => (LineAt(frames, ps[i].0), ps[i].1))
  }

  /** The reference: each entry's line with its count, collated once. */
  function Lines(frames: seq<Frame>, entries: seq<Entry>): seq<(string, nat)>
    requires InRange(frames, entries)
  {
    Collated(Rendered(frames, IndexPairs(entries)))
  }

  // ------------------------------------------------------- two stages equal one stage

  lemma RenderedSnoc(frames: seq<Frame>, ps: seq<(nat, nat)>, p: (nat, nat))
    requires Linked(frames) && IndicesOk(frames, ps) && p.0 < |frames|
    ensures IndicesOk(frames, ps + [p])
    ensures Rendered(frames, ps + [p]) == Rendered(frames, ps) + [(LineAt(frames, p.0), p.1)]
    ensures Collated(Rendered(frames, ps + [p]))
         == Incr(Collated(Rendered(frames, ps)), LineAt(frames, p.0), p.1)
  {
    var r := Rendered(frames, ps + [p]);
    assert r == Rendered(frames, ps) + [(LineAt(frames, p.0), p.1)];
    assert r[..|r| - 1] == Rendered(frames, ps);
  }

  lemma {:induction false} IncrInRange(frames: seq<Frame>, ht: seq<(nat, nat)>, key: nat, term: nat)
    requires IndicesOk(frames, ht) && key < |frames|
    ensures IndicesOk(frames, Incr(ht, key, term))
  {
    if ht != [] && ht[0].0 != key {
      IncrInRange(frames, ht[1..], key, term);
    }
  }

  lemma RenderedHasKey(frames: seq<Frame>, ht: seq<(nat, nat)>, key: nat)
    requires Linked(frames) && IndicesOk(frames, ht) && key < |frames| && HasKey(ht, key)
    ensures HasKey(Collated(Rendered(frames, ht)), LineAt(frames, key))
  {
    CollatedTotals(Rendered(frames, ht));
    var i :| 0 <= i < |ht| && ht[i].0 == key;
    assert Rendered(frames, ht)[i].0 == LineAt(frames, key);
  }

  /** Incrementing by index and then rendering is rendering and then incrementing
  by line. */
  lemma {:induction false} RenderedIncr(frames: seq<Frame>, ht: seq<(nat, nat)>, key: nat, term: nat)
    requires Linked(frames) && IndicesOk(frames, ht) && key < |frames|
    ensures IndicesOk(frames, Incr(ht, key, term))
    ensures Collated(Rendered(frames, Incr(ht, key, term)))
         == Incr(Collated(Rendered(frames, ht)), LineAt(frames, key), term)
    decreases |ht|
  {
    IncrInRange(frames, ht, key, term);
    if ht == [] {
      RenderedSnoc(frames, [], (key, term));
      assert [] + [(key, term)] == [(key, term)];
    } else {
      var front, p := ht[..|ht| - 1], ht[|ht| - 1];
      assert ht == front + [p];
      var c := Collated(Rendered(frames, front));
      RenderedSnoc(frames, front, p);
      IncrSnoc(front, p, key, term);
      if HasKey(front, key) {
        RenderedIncr(frames, front, key, term);
        RenderedSnoc(frames, Incr(front, key, term), p);
        RenderedHasKey(frames, front, key);
        IncrCommute(c, LineAt(frames, key), term, LineAt(frames, p.0), p.1);
      } else if p.0 == key {
        RenderedSnoc(frames, front, (key, p.1 + term));
        IncrTwice(c, LineAt(frames, key), p.1, term);
      } else {
        RenderedSnoc(frames, ht, (key, term));
        assert front + [p, (key, term)] == ht + [(key, term)];
      }
    }
  }

  /** Summing by frame index first changes nothing, not even the order of lines. */
  lemma {:induction false} TwoStagesEqualOne(frames: seq<Frame>, ps: seq<(nat, nat)>)
    requires Linked(frames) && IndicesOk(frames, ps)
    ensures IndicesOk(frames, Collated(ps))
    ensures Collated(Rendered(frames, Collated(ps))) == Collated(Rendered(frames, ps))
    decreases |ps|
  {
    if ps != [] {
      var front, p := ps[..|ps| - 1], ps[|ps| - 1];
      assert ps == front + [p];
      TwoStagesEqualOne(frames, front);
      RenderedIncr(frames, Collated(front), p.0, p.1);
      RenderedSnoc(frames, front, p);
    }
  }

  // ------------------------------------------------------------------------ the text

  function Record(p: (string, nat)): string {
    p.0 + " " + Digits(p.1) + "\n"
  }

  function Report(lines: seq<(string, nat)>): string {
    if lines == [] then "" else Record(lines[0]) + Report(lines[1..])
  }

  method FrameCounts(log: Log) returns (counts: seq<(nat, nat)>)
    requires log.Valid()
    ensures counts == Collated(IndexPairs(log.entries))
  {
    counts := [];
    for i := 0 to |log.entries|
      invariant counts == Collated(IndexPairs(log.entries)[..i])
    {
      counts := Incr(counts, log.entries[i].frameIndex, log.entries[i].eventCount);
      var ps := IndexPairs(log.entries);
      assert ps[..i + 1][..i] == ps[..i];
    }
    assert IndexPairs(log.entries)[..|log.entries|] == IndexPairs(log.entries);
  }

  /** The frames of a chain, running function first. */
  method WalkChain(log: Log, frameIndex: nat) returns (chain: seq<Call>)
    requires Linked(log.frames) && frameIndex < |log.frames|
    ensures chain == Trace(log.frames, frameIndex)
  {
    chain := [];
    var current: nat := frameIndex;
    while current != 0
      invariant current < |log.frames|
      invariant chain + Trace(log.frames, current) == Trace(log.frames, frameIndex)
      decreases current
    {
      chain := chain + [log.frames[current].call];
      current := log.frames[current].prevIndex;
    }
  }

  /** Run through a chain in reverse. */
  method RenderLine(chain: seq<Call>) returns (line: string)
    ensures line == Line(chain)
  {
    line := "";
    var lineStart := true;
    var i := |chain| - 1;
    while i >= 0
      invariant -1 <= i < |chain|
      invariant lineStart <==> i == |chain| - 1
      invariant line == Line(chain[i + 1..])
    {
      LineUnfold(chain[i..]);
      assert chain[i..][1..] == chain[i + 1..];
      if lineStart {
        lineStart := false;
      } else {
        line := line + ";";
      }
      line := AppendFrameName(line, chain[i]);
      i := i - 1;
    }
    assert chain[0..] == chain;
  }

  method CollateLines(log: Log, counts: seq<(nat, nat)>) returns (lines: seq<(string, nat)>)
    requires Linked(log.frames) && IndicesOk(log.frames, counts)
    ensures lines == Collated(Rendered(log.frames, counts))
  {
    ghost var ps := Rendered(log.frames, counts);
    lines := [];
    for i := 0 to |counts|
      invariant lines == Collated(ps[..i])
    {
      var chain := WalkChain(log, counts[i].0);
      var line := RenderLine(chain);
      lines := Incr(lines, line, counts[i].1);
      assert ps[..i + 1][..i] == ps[..i];
    }
    assert ps[..|counts|] == ps;
  }

  method Concatenate(lines: seq<(string, nat)>) returns (out: string)
    ensures out == Report(lines)
  {
    out := "";
    for i := 0 to |lines|
      invariant out + Report(lines[i..]) == Report(lines)
    {
      var record := lines[i].0 + " " + Digits(lines[i].1) + "\n";
      assert lines[i..][1..] == lines[i + 1..];
      assert out + Report(lines[i..]) == (out + record) + Report(lines[i + 1..]);
      out := out + record;
    }
  }

  method FormatCollapsed(log: Log) returns (out: string)
    requires log.Valid()
    ensures InRange(log.frames, log.entries)
    ensures out == Report(Lines(log.frames, log.entries))
  {
    EntriesInRange(log.frames, log.reverse, log.origins, log.entries, log.samples);
    var counts := FrameCounts(log);
    TwoStagesEqualOne(log.frames, IndexPairs(log.entries));
    var lines := CollateLines(log, counts);
    out := Concatenate(lines);
  }

  // ----------------------------------------------------------------- what it says

  lemma {:induction false} TotalOfEntries(entries: seq<Entry>)
    ensures Total(IndexPairs(entries)) == EntryTotal(entries)
    decreases |entries|
  {
    if entries != [] {
      var front, e := entries[..|entries| - 1], entries[|entries| - 1];
      TotalOfEntries(front);
      assert IndexPairs(entries) == IndexPairs(front) + [(e.frameIndex, e.eventCount)];
      TotalsAppend(IndexPairs(front), (e.frameIndex, e.eventCount), 0);
    }
  }

  lemma {:induction false} RenderedTotal(frames: seq<Frame>, ps: seq<(nat, nat)>)
    requires Linked(frames) && IndicesOk(frames, ps)
    ensures Total(Rendered(frames, ps)) == Total(ps)
    decreases |ps|
  {
    if ps != [] {
      assert Rendered(frames, ps)[1..] == Rendered(frames, ps[1..]);
      RenderedTotal(frames, ps[1..]);
    }
  }

  /** The lines are distinct, each carries the total count of exactly the entries
  whose trace renders to it, and together they account for every event. */
  lemma LinesAreExact(frames: seq<Frame>, entries: seq<Entry>)
    requires InRange(frames, entries)
    ensures ExactTotals(Lines(frames, entries), Rendered(frames, IndexPairs(entries)))
    ensures Total(Lines(frames, entries)) == EntryTotal(entries)
  {
    CollatedIsExact(Rendered(frames, IndexPairs(entries)));
    RenderedTotal(frames, IndexPairs(entries));
    TotalOfEntries(entries);
  }
}
