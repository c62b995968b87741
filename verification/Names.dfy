/** How calls are named in the collapsed and Speedscope reports. */
module Names {
  import opened Text
  import opened Frames

  /** Spaces and NULs become underscores. */
  function Sanitised(s: string): (r: string)
    ensures |r| == |s|
    ensures forall i | 0 <= i < |s| :: r[i] == if s[i] == ' ' || s[i] == NUL then '_' else s[i]
  {
    if s == [] then []
    else [if s[0] == ' ' || s[0] == NUL then '_' else s[0]] + Sanitised(s[1..])
  }

  function Bracketed(a: string, b: string, c: string): string {
    a + b + c
  }

  lemma AppendBracketed(dest: string, a: string, b: string, c: string)
    ensures ((dest + a) + b) + c == dest + Bracketed(a, b, c)
  {
  }

  /** The reported name of a call: a closure by its place of definition, file-scope
  code by its file, and anything else by class and function. */
  function FrameName(c: Call): string {
    if c.closureLine != 0 then Bracketed("{closure:", Sanitised(c.filename), "(" + Decimal32(c.closureLine) + ")}")
    else if c.functionName.None? then Sanitised(c.filename)
    else if c.className.None? then Sanitised(c.functionName.value)
    else Bracketed(Sanitised(c.className.value), "::", Sanitised(c.functionName.value))
  }

  /** No reported name contains a space or a NUL, whatever the program calls its
  files, classes and functions. */
  lemma FrameNameIsClean(c: Call)
    ensures Lacks(FrameName(c), ' ') && Lacks(FrameName(c), NUL)
  {
  }

  method AppendNoSpaces(dest: string, src: string) returns (r: string)
    ensures r == dest + Sanitised(src)
  {
    r := dest;
    for i := 0 to |src|
      invariant r == dest + Sanitised(src)[..i]
    {
      var c := src[i];
      if c == ' ' || c == NUL {
        c := '_';
      }
      r := r + [c];
    }
  }

  method AppendFrameName(dest: string, c: Call) returns (r: string)
    ensures r == dest + FrameName(c)
  {
    if c.closureLine != 0 {
      var prefix, suffix := "{closure:", "(" + Decimal32(c.closureLine) + ")}";
      r := AppendNoSpaces(dest + prefix, c.filename);
      r := r + suffix;
      AppendBracketed(dest, prefix, Sanitised(c.filename), suffix);
    } else if c.functionName.None? {
      r := AppendNoSpaces(dest, c.filename);
    } else {
      r := dest;
      if c.className.Some? {
        r := AppendNoSpaces(r, c.className.value);
        r := r + "::";
        AppendBracketed(dest, Sanitised(c.className.value), "::", Sanitised(c.functionName.value));
      }
      r := AppendNoSpaces(r, c.functionName.value);
    }
  }

  /** The names of a trace, outermost caller first. */
  function RootNames(trace: seq<Call>): seq<string> {
    if trace == [] then [] else RootNames(trace[1..]) + [FrameName(trace[0])]
  }

  function Joined(names: seq<string>): string {
    if names == [] then ""
    else if |names| == 1 then names[0]
    else Joined(names[..|names| - 1]) + ";" + names[|names| - 1]
  }

  /** The collapsed line of a trace. */
  function Line(trace: seq<Call>): string {
    Joined(RootNames(trace))
  }

  lemma LineUnfold(trace: seq<Call>)
    requires trace != []
    ensures Line(trace) == if |trace| == 1 then FrameName(trace[0])
                           else Line(trace[1..]) + ";" + FrameName(trace[0])
  {
    var tail := RootNames(trace[1..]);
    assert RootNames(trace)[..|tail|] == tail;
    RootNamesLength(trace[1..]);
  }

  lemma RootNamesLength(trace: seq<Call>)
    ensures |RootNames(trace)| == |trace|
  {
  }

  lemma {:induction false} LineIsClean(trace: seq<Call>)
    ensures Lacks(Line(trace), ' ') && Lacks(Line(trace), NUL)
    decreases |trace|
  {
    if trace != [] {
      LineUnfold(trace);
      FrameNameIsClean(trace[0]);
      LineIsClean(trace[1..]);
    }
  }
}
