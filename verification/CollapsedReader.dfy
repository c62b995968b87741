/** Reading the collapsed report back. */
module CollapsedReader {
  import opened Text
  import opened Frames
  import opened SampleLog
  import opened Collate
  import opened Names
  import opened Collapsed

  function FirstIndex(s: string, c: char): (r: nat)
    ensures r <= |s| && (r < |s| ==> s[r] == c)
    ensures forall k | 0 <= k < r :: s[k] != c
  {
    if s == "" || s[0] == c then 0 else 1 + FirstIndex(s[1..], c)
  }

  lemma FirstIndexIs(p: string, x: string, c: char)
    requires Lacks(p, c)
    ensures FirstIndex(p + [c] + x, c) == |p|
  {
    var s := p + [c] + x;
    assert s[|p|] == c;
    assert forall k | 0 <= k < |p| :: s[k] == p[k];
  }

  predicate AllDigits(s: string) {
    s != "" && forall i | 0 <= i < |s| :: IsDigit(s[i])
  }

  function Prepended(p: (string, nat), tail: Option<seq<(string, nat)>>): Option<seq<(string, nat)>> {
    if tail.None? then None else Some([p] + tail.value)
  }

  /** A reader that takes everything up to the first space as the line, and then
  the digits up to the line break. */
  function ReadReport(s: string): Option<seq<(string, nat)>>
    decreases |s|
  {
    if s == "" then Some([]) else
    var i := FirstIndex(s, ' ');
    if i == |s| then None else
    var rest := s[i + 1..];
    var j := FirstIndex(rest, '\n');
    if j == |rest| || !AllDigits(rest[..j]) then None else
    Prepended((s[..i], ParseDigits(rest[..j])), ReadReport(rest[j + 1..]))
  }

  /** A reader that first cuts the report at line breaks, and then each row at its
  first space. */
  function ReadRows(s: string): Option<seq<(string, nat)>>
    decreases |s|
  {
    if s == "" then Some([]) else
    var j := FirstIndex(s, '\n');
    if j == |s| then None else
    var row := s[..j];
    var i := FirstIndex(row, ' ');
    if i == |row| || !AllDigits(row[i + 1..]) then None else
    Prepended((row[..i], ParseDigits(row[i + 1..])), ReadRows(s[j + 1..]))
  }

  ghost predicate Spaceless(lines: seq<(string, nat)>) {
    forall i | 0 <= i < |lines| :: Lacks(lines[i].0, ' ')
  }

  /** The parts of a report. */
  lemma ReportParts(p: (string, nat), tail: string)
    ensures Record(p) + tail == p.0 + [' '] + (Digits(p.1) + ['\n'] + tail)
    ensures Record(p) + tail == (p.0 + [' '] + Digits(p.1)) + ['\n'] + tail
  {
  }

  lemma ReportHead(p: (string, nat), tail: string)
    requires Lacks(p.0, ' ')
    ensures ReadReport(Record(p) + tail) == Prepended(p, ReadReport(tail))
  {
    ReportParts(p, tail);
    var s, rest := Record(p) + tail, Digits(p.1) + ['\n'] + tail;
    FirstIndexIs(p.0, rest, ' ');
    assert s[..|p.0|] == p.0 && s[|p.0| + 1..] == rest;
    FirstIndexIs(Digits(p.1), tail, '\n');
    assert rest[..|Digits(p.1)|] == Digits(p.1) && rest[|Digits(p.1)| + 1..] == tail;
    DigitsParse(p.1);
  }

  /** Round trip: the reader recovers exactly the lines and counts. */
  lemma {:induction false} ReportRoundTrip(lines: seq<(string, nat)>)
    requires Spaceless(lines)
    ensures ReadReport(Report(lines)) == Some(lines)
  {
    if lines != [] {
      ReportHead(lines[0], Report(lines[1..]));
      ReportRoundTrip(lines[1..]);
      assert lines == [lines[0]] + lines[1..];
    }
  }

  lemma RowsHead(p: (string, nat), tail: string)
    requires Lacks(p.0, ' ')
    ensures ReadRows(Record(p) + tail) == if Lacks(p.0, '\n') then Prepended(p, ReadRows(tail)) else None
  {
    ReportParts(p, tail);
    var s, row := Record(p) + tail, p.0 + [' '] + Digits(p.1);
    if Lacks(p.0, '\n') {
      FirstIndexIs(row, tail, '\n');
      assert s[..|row|] == row && s[|row| + 1..] == tail;
      FirstIndexIs(p.0, Digits(p.1), ' ');
      assert row[..|p.0|] == p.0 && row[|p.0| + 1..] == Digits(p.1);
      DigitsParse(p.1);
    } else {
      BreakInLine(p, tail);
    }
  }

  lemma BreakInLine(p: (string, nat), tail: string)
    requires Lacks(p.0, ' ') && !Lacks(p.0, '\n')
    ensures ReadRows(Record(p) + tail) == None
  {
    var s := Record(p) + tail;
    var k :| 0 <= k < |p.0| && p.0[k] == '\n';
    assert s[k] == '\n';
    var j := FirstIndex(s, '\n');
    assert j <= k;
    var row := s[..j];
    assert forall i | 0 <= i < |row| :: row[i] == p.0[i];
    var i := FirstIndex(row, ' ');
    assert i == |row|;
  }

  ghost predicate Breakless(lines: seq<(string, nat)>) {
    forall i | 0 <= i < |lines| :: Lacks(lines[i].0, '\n')
  }

  lemma PrependedIs(tail: Option<seq<(string, nat)>>, lines: seq<(string, nat)>)
    requires lines != []
    ensures Prepended(lines[0], tail) == Some(lines) <==> tail == Some(lines[1..])
    ensures Breakless(lines) <==> Lacks(lines[0].0, '\n') && Breakless(lines[1..])
  {
    assert lines == [lines[0]] + lines[1..];
    if tail.Some? {
      assert ([lines[0]] + tail.value)[1..] == tail.value;
    }
    assert forall i | 0 < i < |lines| :: lines[i] == lines[1..][i - 1];
  }

  /** The row-by-row reader recovers the report exactly when no line contains a line
  break, which a file name may do. */
  lemma {:induction false} RowsRoundTripIff(lines: seq<(string, nat)>)
    requires Spaceless(lines)
    ensures ReadRows(Report(lines)) == Some(lines) <==> Breakless(lines)
  {
    if lines != [] {
      RowsHead(lines[0], Report(lines[1..]));
      RowsRoundTripIff(lines[1..]);
      PrependedIs(ReadRows(Report(lines[1..])), lines);
    }
  }

  lemma LinesAreSpaceless(frames: seq<Frame>, entries: seq<Entry>)
    requires InRange(frames, entries)
    ensures Spaceless(Lines(frames, entries))
  {
    var ps := Rendered(frames, IndexPairs(entries));
    CollatedTotals(ps);
    var lines := Lines(frames, entries);
    forall i | 0 <= i < |lines| ensures Lacks(lines[i].0, ' ') {
      assert HasKey(lines, lines[i].0);
      var k :| 0 <= k < |ps| && ps[k].0 == lines[i].0;
      LineIsClean(Trace(frames, entries[k].frameIndex));
    }
  }

  /** Whatever the profiled program calls its files, classes and functions, the
  report reads back as the exact lines and counts. */
  lemma CollapsedRoundTrip(frames: seq<Frame>, entries: seq<Entry>)
    requires InRange(frames, entries)
    ensures ReadReport(Report(Lines(frames, entries))) == Some(Lines(frames, entries))
  {
    LinesAreSpaceless(frames, entries);
    ReportRoundTrip(Lines(frames, entries));
  }

  // ------------------------------------------------------------- line breaks in names

  /** No part of the call that its name is made of contains a line break. */
  predicate BreakFree(c: Call) {
    if c.closureLine != 0 || c.functionName.None? then Lacks(c.filename, '\n')
    else Lacks(c.functionName.value, '\n') && (c.className.Some? ==> Lacks(c.className.value, '\n'))
  }

  lemma LacksConcat(a: string, b: string, c: char)
    ensures Lacks(a + b, c) <==> Lacks(a, c) && Lacks(b, c)
  {
    var s := a + b;
    if Lacks(s, c) {
      assert forall i | 0 <= i < |a| :: a[i] == s[i];
      assert forall i | 0 <= i < |b| :: b[i] == s[|a| + i];
    }
  }

  lemma LacksBracketed(a: string, b: string, c: string)
    ensures Lacks(Bracketed(a, b, c), '\n') <==> Lacks(a, '\n') && Lacks(b, '\n') && Lacks(c, '\n')
  {
    LacksConcat(a, b, '\n');
    LacksConcat(a + b, c, '\n');
  }

  lemma SanitisedBreaks(s: string)
    ensures Lacks(Sanitised(s), '\n') <==> Lacks(s, '\n')
  {
    if Lacks(Sanitised(s), '\n') {
      assert forall i | 0 <= i < |s| :: s[i] == '\n' ==> Sanitised(s)[i] == '\n';
    }
  }

  lemma FrameNameBreaks(c: Call)
    ensures Lacks(FrameName(c), '\n') <==> BreakFree(c)
  {
    SanitisedBreaks(c.filename);
    if c.closureLine != 0 {
      LacksBracketed("{closure:", Sanitised(c.filename), "(" + Decimal32(c.closureLine) + ")}");
    } else if c.functionName.Some? {
      SanitisedBreaks(c.functionName.value);
      if c.className.Some? {
        SanitisedBreaks(c.className.value);
        LacksBracketed(Sanitised(c.className.value), "::", Sanitised(c.functionName.value));
      }
    }
  }

  predicate AllBreakFree(trace: seq<Call>) {
    forall k | 0 <= k < |trace| :: BreakFree(trace[k])
  }

  lemma {:induction false} LineBreaks(trace: seq<Call>)
    ensures Lacks(Line(trace), '\n') <==> AllBreakFree(trace)
    decreases |trace|
  {
    if trace != [] {
      LineUnfold(trace);
      FrameNameBreaks(trace[0]);
      LineBreaks(trace[1..]);
      LacksConcat(Line(trace[1..]), ";", '\n');
      LacksConcat(Line(trace[1..]) + ";", FrameName(trace[0]), '\n');
      assert AllBreakFree(trace) <==> BreakFree(trace[0]) && AllBreakFree(trace[1..]);
    }
  }

  ghost predicate TracesBreakFree(frames: seq<Frame>, entries: seq<Entry>)
    requires InRange(frames, entries)
  {
    forall k | 0 <= k < |entries| :: AllBreakFree(Trace(frames, entries[k].frameIndex))
  }

  lemma BreaklessIff(frames: seq<Frame>, entries: seq<Entry>)
    requires InRange(frames, entries)
    ensures Breakless(Lines(frames, entries)) <==> TracesBreakFree(frames, entries)
  {
    var ps, lines := Rendered(frames, IndexPairs(entries)), Lines(frames, entries);
    CollatedTotals(ps);
    if Breakless(lines) {
      forall k | 0 <= k < |entries| ensures AllBreakFree(Trace(frames, entries[k].frameIndex)) {
        assert HasKey(ps, ps[k].0);
        var i :| 0 <= i < |lines| && lines[i].0 == ps[k].0;
        LineBreaks(Trace(frames, entries[k].frameIndex));
      }
    }
    if TracesBreakFree(frames, entries) {
      forall i | 0 <= i < |lines| ensures Lacks(lines[i].0, '\n') {
        assert HasKey(lines, lines[i].0);
        var k :| 0 <= k < |ps| && ps[k].0 == lines[i].0;
        LineBreaks(Trace(frames, entries[k].frameIndex));
      }
    }
  }

  /** A row-by-row reader recovers a log's report exactly when no call on any entry's
  trace has a line break in a name that the report uses. */
  lemma CollapsedRowsIff(frames: seq<Frame>, entries: seq<Entry>)
    requires InRange(frames, entries)
    ensures ReadRows(Report(Lines(frames, entries))) == Some(Lines(frames, entries))
       <==> TracesBreakFree(frames, entries)
  {
    LinesAreSpaceless(frames, entries);
    RowsRoundTripIff(Lines(frames, entries));
    BreaklessIff(frames, entries);
  }

  const BROKEN_FRAME: VmFrame := User("a\nb", 1, None, None, false, 0)

  lemma BrokenSteps()
    ensures Kept([BROKEN_FRAME], 0) == [At(CallOf(BROKEN_FRAME))]
    ensures !BreakFree(CallOf(BROKEN_FRAME))
  {
    var stack := [BROKEN_FRAME];
    assert stack[1..] == [];
    assert UserSteps(stack) == [At(CallOf(stack[0]))] + UserSteps(stack[1..]);
    assert BROKEN_FRAME.filename[1] == '\n';
  }

  /** One sample of file-scope code, in a file whose name has a line break, is enough:
  the row-by-row reader fails on the report of the valid log that records it. */
  method BrokenLog() returns (log: Log)
    ensures log.Valid() && log.samples == [Sample([BROKEN_FRAME], 0, 1, 0)]
    ensures InRange(log.frames, log.entries)
    ensures ReadRows(Report(Lines(log.frames, log.entries))) != Some(Lines(log.frames, log.entries))
  {
    log := new Log();
    var ok := log.Add([BROKEN_FRAME], 1, 0);
    EntriesInRange(log.frames, log.reverse, log.origins, log.entries, log.samples);
    BrokenTrace(log);
    CollapsedRowsIff(log.frames, log.entries);
  }

  lemma BrokenTrace(log: Log)
    requires log.Valid() && log.samples == [Sample([BROKEN_FRAME], 0, 1, 0)]
    requires InRange(log.frames, log.entries)
    ensures !TracesBreakFree(log.frames, log.entries)
  {
    BrokenSteps();
    var i := log.entries[0].frameIndex;
    assert EntryStandsFor(log.frames, log.reverse, log.entries[0], log.samples[0]);
    SpotTraceUnfold(log.frames, log.reverse, i);
    assert SpotTrace(log.frames, log.reverse, i)[0] == Spot("a\nb", 1);
    assert IsOrigin(log.frames, log.reverse, i, log.origins[i]) && Sampled(log.origins[i], log.samples);
    assert log.samples[0].Steps() == [At(CallOf(BROKEN_FRAME))];
    assert log.frames[i].call == CallOf(BROKEN_FRAME);
    assert Trace(log.frames, i)[0] == CallOf(BROKEN_FRAME);
  }
}
