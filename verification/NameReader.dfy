/** Reading names and lines back: what the name of a call says about the call, and
what a collapsed line says about a trace. */
module NameReader {
  import opened Text
  import opened Frames
  import opened SampleLog
  import opened Names
  import opened Collapsed
  import opened Speedscope
  import opened Aggregate

  predicate IsClosure(c: Call) {
    c.closureLine != 0
  }

  predicate IsMethod(c: Call) {
    c.closureLine == 0 && c.functionName.Some? && c.className.Some?
  }

  // -------------------------------------------------------------- the two kinds of names

  lemma SanitisedConcat(a: string, b: string)
    ensures Sanitised(a + b) == Sanitised(a) + Sanitised(b)
  {
    assert |Sanitised(a + b)| == |Sanitised(a) + Sanitised(b)|;
    forall i | 0 <= i < |a + b| ensures Sanitised(a + b)[i] == (Sanitised(a) + Sanitised(b))[i] {
    }
  }

  lemma SanitisedClean(s: string)
    requires Lacks(s, ' ') && Lacks(s, NUL)
    ensures Sanitised(s) == s
  {
  }

  lemma SanitisedBracketed(a: string, b: string, c: string)
    ensures Sanitised(a + b + c) == Bracketed(Sanitised(a), Sanitised(b), Sanitised(c))
  {
    SanitisedConcat(a + b, c);
    SanitisedConcat(a, b);
  }

  lemma SanitisedClosureName(file: string, line: string)
    requires Lacks(line, ' ') && Lacks(line, NUL)
    ensures Sanitised("{closure:" + file + "(" + line + ")}")
         == Bracketed("{closure:", Sanitised(file), "(" + line + ")}")
  {
    SanitisedMiddle("{closure:", file, "(", line, ")}");
  }

  lemma SanitisedMiddle(a: string, b: string, c: string, d: string, e: string)
    requires Lacks(a, ' ') && Lacks(a, NUL) && Lacks(c, ' ') && Lacks(c, NUL)
    requires Lacks(d, ' ') && Lacks(d, NUL) && Lacks(e, ' ') && Lacks(e, NUL)
    ensures Sanitised(a + b + c + d + e) == Bracketed(a, Sanitised(b), c + d + e)
  {
    Regrouped(a + b, c, d, e);
    SanitisedBracketed(a, b, c + d + e);
    SanitisedClean(a);
    SanitisedSuffix(c, d, e);
  }

  lemma Regrouped(p: string, c: string, d: string, e: string)
    ensures p + c + d + e == p + (c + d + e)
  {
  }

  lemma SanitisedSuffix(c: string, d: string, e: string)
    requires Lacks(c, ' ') && Lacks(c, NUL) && Lacks(d, ' ') && Lacks(d, NUL) && Lacks(e, ' ') && Lacks(e, NUL)
    ensures Sanitised(c + d + e) == c + d + e
  {
    SanitisedBracketed(c, d, e);
    SanitisedClean(c);
    SanitisedClean(d);
    SanitisedClean(e);
  }

  lemma SanitisedMethodName(owner: string, func: string)
    ensures Sanitised(owner + "::" + func) == Bracketed(Sanitised(owner), "::", Sanitised(func))
  {
    SanitisedBracketed(owner, "::", func);
    SanitisedClean("::");
  }

  /** A reported name is the sanitised key of the aggregated report. */
  lemma SanitisedFuncName(c: Call)
    ensures Sanitised(FuncName(c)) == FrameName(c)
  {
    if c.closureLine != 0 {
      SanitisedClosureName(c.filename, Decimal32(c.closureLine));
    } else if IsMethod(c) {
      SanitisedMethodName(c.className.value, c.functionName.value);
    }
  }

  /** File-scope code is named by its file, a function without a class by itself. */
  lemma PlainNames(c: Call)
    requires !IsClosure(c) && !IsMethod(c)
    ensures FuncName(c) == if c.functionName.None? then c.filename else c.functionName.value
    ensures FrameName(c) == Sanitised(if c.functionName.None? then c.filename else c.functionName.value)
  {
  }

  // ------------------------------------------------------------------------- methods

  /** The place of the first "::", or the length if there is none. */
  function FirstDouble(s: string): (r: nat)
    ensures r <= |s|
    ensures forall i | 0 <= i < r && i + 1 < |s| :: !(s[i] == ':' && s[i + 1] == ':')
    ensures r < |s| ==> r + 1 < |s| && s[r] == ':' && s[r + 1] == ':'
  {
    if |s| < 2 then |s|
    else if s[0] == ':' && s[1] == ':' then 0
    else
      var r := FirstDouble(s[1..]);
      r + 1
  }

  /** Class and function, cut at the first "::". */
  function ReadMethod(name: string): (string, string) {
    var i := FirstDouble(name);
    if i == |name| then (name, "") else (name[..i], name[i + 2..])
  }

  lemma DoubleIn(a: string, b: string)
    ensures FirstDouble(a + "::" + b) <= |a|
    ensures FirstDouble(a + "::" + b) == |a| <==> FirstDouble(a + ":") == |a + ":"|
  {
    var s, t := a + "::" + b, a + ":";
    assert s[|a|] == ':' && s[|a| + 1] == ':';
    assert forall i | 0 <= i < |t| :: s[i] == t[i];
    var i, j := FirstDouble(s), FirstDouble(t);
    if i < |a| {
      assert t[i] == ':' && t[i + 1] == ':';
    }
    if j < |t| {
      assert s[j] == ':' && s[j + 1] == ':';
    }
  }

  /** The reader recovers the two parts exactly when the first one does not contain
  "::" and does not end with a colon. */
  lemma MethodReadsIff(a: string, b: string)
    ensures ReadMethod(a + "::" + b) == (a, b) <==> FirstDouble(a + ":") == |a + ":"|
  {
    var name := a + "::" + b;
    DoubleIn(a, b);
    assert name[..|a|] == a && name[|a| + 2..] == b;
  }

  /** No "::" in the string, and no colon at its end. */
  predicate CutsAtDouble(s: string) {
    FirstDouble(s + ":") == |s + ":"|
  }

  /** A method's reported name is its class, "::" and its function, and can be read back
  from the first "::" on exactly when that does not come from the class. */
  lemma MethodFrameName(c: Call)
    requires IsMethod(c)
    ensures var owner, func := Sanitised(c.className.value), Sanitised(c.functionName.value);
            && FrameName(c) == owner + "::" + func
            && (ReadMethod(FrameName(c)) == (owner, func) <==> CutsAtDouble(owner))
  {
    MethodReadsIff(Sanitised(c.className.value), Sanitised(c.functionName.value));
  }

  lemma MethodFuncName(c: Call)
    requires IsMethod(c)
    ensures var name, owner, func := FuncName(c), c.className.value, c.functionName.value;
            && owner <= name && name[|owner|..] == "::" + func
            && (ReadMethod(name) == (owner, func) <==> CutsAtDouble(owner))
  {
    MethodReadsIff(c.className.value, c.functionName.value);
  }

  /** So two methods share a record of the aggregated report if and only if class and
  function are the same. */
  lemma MethodNamesIff(c: Call, d: Call)
    requires IsMethod(c) && IsMethod(d)
    requires CutsAtDouble(c.className.value) && CutsAtDouble(d.className.value)
    ensures FuncName(c) == FuncName(d) <==> c.className == d.className && c.functionName == d.functionName
  {
    MethodFuncName(c);
    MethodFuncName(d);
  }

  lemma NoColonCuts(s: string)
    requires Lacks(s, ':')
    ensures CutsAtDouble(s)
  {
    assert forall i | 0 <= i < |s| :: (s + ":")[i] == s[i];
  }

  // ------------------------------------------------------------------------ closures

  /** The place of the last c, or the length if there is none. */
  function LastIndex(s: string, c: char): (r: nat)
    ensures r <= |s| && (r < |s| ==> s[r] == c)
    ensures forall i | r < i < |s| :: s[i] != c
    ensures r == |s| ==> Lacks(s, c)
  {
    if s == "" then 0
    else if s[|s| - 1] == c then |s| - 1
    else
      var front := s[..|s| - 1];
      var r := LastIndex(front, c);
      if r == |front| then |s| else r
  }

  /** File and line, from between the prefix of a closure's name and the last bracket,
  and from between the brackets. */
  function ReadClosure(name: string): (string, string) {
    if |name| < 11 then (name, "") else
    var inner := name[9..|name| - 2];
    var i := LastIndex(inner, '(');
    if i == |inner| then (inner, "") else (inner[..i], inner[i + 1..])
  }

  function ClosureName(file: string, line: string): string {
    "{closure:" + file + ("(" + line + ")}")
  }

  lemma ClosureReads(file: string, line: string)
    requires Lacks(line, '(')
    ensures ReadClosure(ClosureName(file, line)) == (file, line)
  {
    var name, inner := ClosureName(file, line), file + "(" + line;
    assert |name| == 9 + |inner| + 2;
    assert name[9..|name| - 2] == inner;
    assert inner[|file|] == '(';
    assert forall i | |file| < i < |inner| :: inner[i] == line[i - |file| - 1];
    assert LastIndex(inner, '(') == |file|;
    assert inner[..|file|] == file && inner[|file| + 1..] == line;
  }

  /** A closure's name gives its file and the line where it is defined, whatever the
  file is called. */
  lemma ClosureNames(c: Call)
    requires IsClosure(c)
    ensures ReadClosure(FuncName(c)) == (c.filename, Decimal32(c.closureLine))
    ensures ReadClosure(FrameName(c)) == (Sanitised(c.filename), Decimal32(c.closureLine))
    ensures c.closureLine < 0x8000_0000 ==>
              Decimal32(c.closureLine) == Digits(c.closureLine)
              && ParseDigits(Digits(c.closureLine)) == c.closureLine
  {
    var line := Decimal32(c.closureLine);
    assert Lacks(line, '(');
    ClosureReads(c.filename, line);
    ClosureReads(Sanitised(c.filename), line);
    assert FuncName(c) == ClosureName(c.filename, line);
    assert FrameName(c) == ClosureName(Sanitised(c.filename), line);
    DigitsParse(c.closureLine);
  }

  /** Two closures share a record if and only if they are defined at the same place. */
  lemma ClosureNamesIff(c: Call, d: Call)
    requires IsClosure(c) && IsClosure(d)
    ensures FuncName(c) == FuncName(d) <==> c.filename == d.filename && c.closureLine == d.closureLine
  {
    ClosureNames(c);
    ClosureNames(d);
    if FuncName(c) == FuncName(d) {
      Decimal32Injective(c.closureLine, d.closureLine);
    }
  }

  // --------------------------------------------------------------------------- lines

  /** A string cut at every semicolon. */
  function Pieces(s: string): seq<string> {
    var i := LastIndex(s, ';');
    if i == |s| then [s] else Pieces(s[..i]) + [s[i + 1..]]
  }

  lemma PiecesSnoc(s: string, name: string)
    requires Lacks(name, ';')
    ensures Pieces(s + ";" + name) == Pieces(s) + [name]
  {
    var t := s + ";" + name;
    assert t[|s|] == ';';
    assert forall i | |s| < i < |t| :: t[i] == name[i - |s| - 1];
    assert LastIndex(t, ';') == |s|;
    assert t[..|s|] == s && t[|s| + 1..] == name;
  }

  lemma {:induction false} PiecesLack(s: string)
    ensures forall i | 0 <= i < |Pieces(s)| :: Lacks(Pieces(s)[i], ';')
    decreases |s|
  {
    var i := LastIndex(s, ';');
    if i < |s| {
      PiecesLack(s[..i]);
      var last := s[i + 1..];
      assert forall k | 0 <= k < |last| :: last[k] == s[i + 1 + k];
    }
  }

  /** A line gives the names of its trace back, outermost caller first, if and only if
  no name contains a semicolon. */
  lemma LineReadsIff(names: seq<string>)
    requires names != []
    ensures Pieces(Joined(names)) == names <==> forall i | 0 <= i < |names| :: Lacks(names[i], ';')
  {
    PiecesLack(Joined(names));
    if forall i | 0 <= i < |names| :: Lacks(names[i], ';') {
      LineReads(names);
    }
  }

  lemma {:induction false} LineReads(names: seq<string>)
    requires names != [] && forall i | 0 <= i < |names| :: Lacks(names[i], ';')
    ensures Pieces(Joined(names)) == names
    decreases |names|
  {
    var n := |names| - 1;
    if n > 0 {
      LineReads(names[..n]);
      PiecesSnoc(Joined(names[..n]), names[n]);
      assert names == names[..n] + [names[n]];
    }
  }

  lemma {:induction false} JoinedStarts(names: seq<string>)
    requires names != []
    ensures names[0] <= Joined(names)
    decreases |names|
  {
    if |names| > 1 {
      JoinedStarts(names[..|names| - 1]);
    }
  }

  lemma MarkerName()
    ensures FrameName(MARKER_CALL) == "excimer_truncated"
  {
    SanitisedClean(MARKER_KEY);
  }

  /** The line of a trace starts with the name of its outermost caller. */
  lemma LineStarts(trace: seq<Call>)
    requires trace != []
    ensures FrameName(trace[|trace| - 1]) <= Line(trace)
  {
    RootNamesAt(trace, 0);
    JoinedStarts(RootNames(trace));
  }

  /** The outermost step that is kept of a deeper stack is the marker. */
  lemma TruncatedRoot(log: Log, k: nat)
    requires log.Valid() && k < |log.samples| && Deeper(log.samples[k].stack, log.samples[k].maxDepth)
    ensures k < |log.entries| && log.entries[k].frameIndex < |log.frames|
    ensures var steps := Steps(log.frames, MarkerIndex(log.reverse), log.entries[k].frameIndex);
            steps != [] && steps[|steps| - 1] == Truncated
  {
    var sample, e := log.samples[k], log.entries[k];
    assert EntryStandsFor(log.frames, log.reverse, e, sample);
    KeptIs(sample.stack, sample.maxDepth);
    var steps, kept := Steps(log.frames, MarkerIndex(log.reverse), e.frameIndex), sample.Steps();
    var n := |kept| - 1;
    assert |steps| == |kept| && SpotOf(steps[n]) == Spots(steps)[n] == Spots(kept)[n] == MarkerSpot;
  }

  /** In every log, the line of a sample whose stack has more frames than the depth
  limit and one starts with the name of the truncation marker. */
  lemma TruncatedLine(log: Log, k: nat)
    requires log.Valid() && k < |log.samples| && Deeper(log.samples[k].stack, log.samples[k].maxDepth)
    ensures k < |log.entries| && log.entries[k].frameIndex < |log.frames|
    ensures "excimer_truncated" <= LineAt(log.frames, log.entries[k].frameIndex)
  {
    TruncatedRoot(log, k);
    var i := log.entries[k].frameIndex;
    TraceShowsSteps(log.frames, log.reverse, i);
    LineStarts(Trace(log.frames, i));
    MarkerName();
  }
}
