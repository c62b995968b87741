/** Per-function totals: for every function, the events in which it was running
(self) and the events in which it was anywhere on the stack (inclusive). */
module Aggregate {
  import opened Text
  import opened Frames
  import opened SampleLog
  import opened Collate
  import opened Collapsed

  /** The key of a function in the result. Unlike a reported name, it is not
  sanitised. */
  function FuncName(c: Call): string {
    if c.closureLine != 0 then "{closure:" + c.filename + "(" + Decimal32(c.closureLine) + ")}"
    else if c.functionName.None? then c.filename
    else if c.className.None? then c.functionName.value
    else c.className.value + "::" + c.functionName.value
  }

  datatype Info = Info(name: string, call: Call, self: nat, inclusive: nat)

  // --------------------------------------------------------------------- reference

  predicate Named(trace: seq<Call>, name: string) {
    exists k | 0 <= k < |trace| :: FuncName(trace[k]) == name
  }

  predicate OnTop(trace: seq<Call>, name: string) {
    trace != [] && FuncName(trace[0]) == name
  }

  /** Every call on every entry's trace, in the order in which they are met. */
  function Calls(frames: seq<Frame>, entries: seq<Entry>): seq<Call>
    requires InRange(frames, entries)
    decreases |entries|
  {
    if entries == [] then [] else
    var n := |entries| - 1;
    Calls(frames, entries[..n]) + Trace(frames, entries[n].frameIndex)
  }

  /** This is the first of the calls that has this name. */
  ghost predicate FirstMention(calls: seq<Call>, name: string, call: Call) {
    exists k | 0 <= k < |calls| ::
      && calls[k] == call && FuncName(call) == name
      && forall m | 0 <= m < k :: FuncName(calls[m]) != name
  }

  function SelfTotal(frames: seq<Frame>, entries: seq<Entry>, name: string): nat
    requires InRange(frames, entries)
    decreases |entries|
  {
    if entries == [] then 0 else
    var n := |entries| - 1;
    SelfTotal(frames, entries[..n], name)
    + if OnTop(Trace(frames, entries[n].frameIndex), name) then entries[n].eventCount else 0
  }

  function InclusiveTotal(frames: seq<Frame>, entries: seq<Entry>, name: string): nat
    requires InRange(frames, entries)
    decreases |entries|
  {
    if entries == [] then 0 else
    var n := |entries| - 1;
    InclusiveTotal(frames, entries[..n], name)
    + if Named(Trace(frames, entries[n].frameIndex), name) then entries[n].eventCount else 0
  }

  /** The events of entries with a non-empty trace. */
  function TracedTotal(frames: seq<Frame>, entries: seq<Entry>): nat
    requires InRange(frames, entries)
    decreases |entries|
  {
    if entries == [] then 0 else
    var n := |entries| - 1;
    TracedTotal(frames, entries[..n])
    + if Trace(frames, entries[n].frameIndex) != [] then entries[n].eventCount else 0
  }

  lemma {:induction false} TotalsBounded(frames: seq<Frame>, entries: seq<Entry>, name: string)
    requires InRange(frames, entries)
    ensures SelfTotal(frames, entries, name) <= InclusiveTotal(frames, entries, name) <= EntryTotal(entries)
    decreases |entries|
  {
    if entries != [] {
      TotalsBounded(frames, entries[..|entries| - 1], name);
    }
  }

  // -------------------------------------------------------------------- the table

  /** What meeting a call on a chain adds to its function. */
  datatype Visit = Visit(call: Call, self: nat, inclusive: nat)

  /** Add to the function's record, which is created on first use. */
  function Noted(infos: seq<Info>, v: Visit): seq<Info> {
    if infos == [] then [Info(FuncName(v.call), v.call, v.self, v.inclusive)]
    else if infos[0].name == FuncName(v.call) then
      [infos[0].(self := infos[0].self + v.self, inclusive := infos[0].inclusive + v.inclusive)] + infos[1..]
    else [infos[0]] + Noted(infos[1..], v)
  }

  function Table(vs: seq<Visit>): seq<Info> {
    if vs == [] then [] else Noted(Table(vs[..|vs| - 1]), vs[|vs| - 1])
  }

  /** The visits of one entry: self counts at the top only, inclusive at the first
  meeting of each function only. */
  function EntryVisits(trace: seq<Call>, count: nat): (r: seq<Visit>)
    ensures |r| == |trace|
  {
    seq(|trace|, k requires 0 <= k < |trace| =>
      Visit(trace[k], if k == 0 then count else 0, if Named(trace[..k], FuncName(trace[k])) then 0 else count))
  }

  function Visits(frames: seq<Frame>, entries: seq<Entry>): seq<Visit>
    requires InRange(frames, entries)
    decreases |entries|
  {
    if entries == [] then [] else
    var n := |entries| - 1;
    Visits(frames, entries[..n]) + EntryVisits(Trace(frames, entries[n].frameIndex), entries[n].eventCount)
  }

  // ------------------------------------------------------- the table as two tallies

  function Selves(infos: seq<Info>): (r: seq<(string, nat)>)
    ensures |r| == |infos| && forall i | 0 <= i < |r| :: r[i] == (infos[i].name, infos[i].self)
  {
    if infos == [] then [] else [(infos[0].name, infos[0].self)] + Selves(infos[1..])
  }

  function Inclusives(infos: seq<Info>): (r: seq<(string, nat)>)
    ensures |r| == |infos| && forall i | 0 <= i < |r| :: r[i] == (infos[i].name, infos[i].inclusive)
  {
    if infos == [] then [] else [(infos[0].name, infos[0].inclusive)] + Inclusives(infos[1..])
  }

  function SelfPairs(vs: seq<Visit>): (r: seq<(string, nat)>)
    ensures |r| == |vs| && forall i | 0 <= i < |r| :: r[i] == (FuncName(vs[i].call), vs[i].self)
  {
    seq(|vs|, i requires 0 <= i < |vs| => (FuncName(vs[i].call), vs[i].self))
  }

  function InclusivePairs(vs: seq<Visit>): (r: seq<(string, nat)>)
    ensures |r| == |vs| && forall i | 0 <= i < |r| :: r[i] == (FuncName(vs[i].call), vs[i].inclusive)
  {
    seq(|vs|, i requires 0 <= i < |vs| => (FuncName(vs[i].call), vs[i].inclusive))
  }

  lemma {:induction false} NotedTallies(infos: seq<Info>, v: Visit)
    ensures Selves(Noted(infos, v)) == Incr(Selves(infos), FuncName(v.call), v.self)
    ensures Inclusives(Noted(infos, v)) == Incr(Inclusives(infos), FuncName(v.call), v.inclusive)
  {
    if infos == [] {
    } else if infos[0].name == FuncName(v.call) {
      assert Noted(infos, v)[1..] == infos[1..];
    } else {
      NotedTallies(infos[1..], v);
      assert Noted(infos, v)[1..] == Noted(infos[1..], v);
    }
  }

  lemma {:induction false} TableTallies(vs: seq<Visit>)
    ensures Selves(Table(vs)) == Collated(SelfPairs(vs))
    ensures Inclusives(Table(vs)) == Collated(InclusivePairs(vs))
    decreases |vs|
  {
    if vs != [] {
      var front, v := vs[..|vs| - 1], vs[|vs| - 1];
      TableTallies(front);
      NotedTallies(Table(front), v);
      assert SelfPairs(vs)[..|vs| - 1] == SelfPairs(front);
      assert InclusivePairs(vs)[..|vs| - 1] == InclusivePairs(front);
    }
  }

  lemma {:induction false} TotalOfConcat<K>(ps: seq<(K, nat)>, qs: seq<(K, nat)>, k: K)
    ensures TotalOf(ps + qs, k) == TotalOf(ps, k) + TotalOf(qs, k)
    ensures Total(ps + qs) == Total(ps) + Total(qs)
  {
    if ps == [] {
      assert ps + qs == qs;
    } else {
      assert (ps + qs)[1..] == ps[1..] + qs;
      TotalOfConcat(ps[1..], qs, k);
    }
  }

  lemma EntryVisitsSnoc(trace: seq<Call>, count: nat)
    requires trace != []
    ensures var n := |trace| - 1;
            var v := Visit(trace[n], if n == 0 then count else 0,
                           if Named(trace[..n], FuncName(trace[n])) then 0 else count);
            && EntryVisits(trace, count) == EntryVisits(trace[..n], count) + [v]
            && SelfPairs(EntryVisits(trace, count))
               == SelfPairs(EntryVisits(trace[..n], count)) + [(FuncName(trace[n]), v.self)]
            && InclusivePairs(EntryVisits(trace, count))
               == InclusivePairs(EntryVisits(trace[..n], count)) + [(FuncName(trace[n]), v.inclusive)]
  {
    var n := |trace| - 1;
    assert forall k | 0 <= k < n :: trace[..n][..k] == trace[..k];
    assert EntryVisits(trace, count)[..n] == EntryVisits(trace[..n], count);
  }

  lemma NamedSnoc(trace: seq<Call>, name: string)
    requires trace != []
    ensures Named(trace, name) <==> Named(trace[..|trace| - 1], name) || FuncName(trace[|trace| - 1]) == name
  {
    var front := trace[..|trace| - 1];
    if Named(front, name) {
      var k :| 0 <= k < |front| && FuncName(front[k]) == name;
      assert FuncName(trace[k]) == name;
    }
    if Named(trace, name) && FuncName(trace[|trace| - 1]) != name {
      var k :| 0 <= k < |trace| && FuncName(trace[k]) == name;
      assert FuncName(front[k]) == name;
    }
  }

  /** Within one entry, a function gets the count once, however often it recurs. */
  lemma {:induction false} EntryTotals(trace: seq<Call>, count: nat, name: string)
    ensures TotalOf(SelfPairs(EntryVisits(trace, count)), name) == if OnTop(trace, name) then count else 0
    ensures TotalOf(InclusivePairs(EntryVisits(trace, count)), name) == if Named(trace, name) then count else 0
    ensures Total(SelfPairs(EntryVisits(trace, count))) == if trace != [] then count else 0
    decreases |trace|
  {
    if trace != [] {
      var n := |trace| - 1;
      EntryTotals(trace[..n], count, name);
      EntryVisitsSnoc(trace, count);
      NamedSnoc(trace, name);
      var v := EntryVisits(trace, count)[n];
      TotalsAppend(SelfPairs(EntryVisits(trace[..n], count)), (FuncName(trace[n]), v.self), name);
      TotalsAppend(InclusivePairs(EntryVisits(trace[..n], count)), (FuncName(trace[n]), v.inclusive), name);
    }
  }

  lemma ConcatTotals(vs: seq<Visit>, ws: seq<Visit>, name: string)
    ensures TotalOf(SelfPairs(vs + ws), name) == TotalOf(SelfPairs(vs), name) + TotalOf(SelfPairs(ws), name)
    ensures TotalOf(InclusivePairs(vs + ws), name)
         == TotalOf(InclusivePairs(vs), name) + TotalOf(InclusivePairs(ws), name)
    ensures Total(SelfPairs(vs + ws)) == Total(SelfPairs(vs)) + Total(SelfPairs(ws))
  {
    assert SelfPairs(vs + ws) == SelfPairs(vs) + SelfPairs(ws);
    assert InclusivePairs(vs + ws) == InclusivePairs(vs) + InclusivePairs(ws);
    TotalOfConcat(SelfPairs(vs), SelfPairs(ws), name);
    TotalOfConcat(InclusivePairs(vs), InclusivePairs(ws), name);
  }

  /** Over all entries, the visits add up to the reference totals. */
  lemma {:induction false} VisitSelfTotals(frames: seq<Frame>, entries: seq<Entry>, name: string)
    requires InRange(frames, entries)
    ensures TotalOf(SelfPairs(Visits(frames, entries)), name) == SelfTotal(frames, entries, name)
    decreases |entries|
  {
    if entries != [] {
      var n := |entries| - 1;
      var trace, count := Trace(frames, entries[n].frameIndex), entries[n].eventCount;
      VisitSelfTotals(frames, entries[..n], name);
      EntryTotals(trace, count, name);
      ConcatTotals(Visits(frames, entries[..n]), EntryVisits(trace, count), name);
    }
  }

  lemma {:induction false} VisitInclusiveTotals(frames: seq<Frame>, entries: seq<Entry>, name: string)
    requires InRange(frames, entries)
    ensures TotalOf(InclusivePairs(Visits(frames, entries)), name) == InclusiveTotal(frames, entries, name)
    decreases |entries|
  {
    if entries != [] {
      var n := |entries| - 1;
      var trace, count := Trace(frames, entries[n].frameIndex), entries[n].eventCount;
      VisitInclusiveTotals(frames, entries[..n], name);
      EntryTotals(trace, count, name);
      ConcatTotals(Visits(frames, entries[..n]), EntryVisits(trace, count), name);
    }
  }

  lemma {:induction false} VisitTracedTotal(frames: seq<Frame>, entries: seq<Entry>)
    requires InRange(frames, entries)
    ensures Total(SelfPairs(Visits(frames, entries))) == TracedTotal(frames, entries)
    decreases |entries|
  {
    if entries != [] {
      var n := |entries| - 1;
      var trace, count := Trace(frames, entries[n].frameIndex), entries[n].eventCount;
      VisitTracedTotal(frames, entries[..n]);
      EntryTotals(trace, count, "");
      ConcatTotals(Visits(frames, entries[..n]), EntryVisits(trace, count), "");
    }
  }

  // ------------------------------------------------------------------- first mention

  function CallsOf(vs: seq<Visit>): (r: seq<Call>)
    ensures |r| == |vs| && forall k | 0 <= k < |r| :: r[k] == vs[k].call
  {
    seq(|vs|, k requires 0 <= k < |vs| => vs[k].call)
  }

  lemma {:induction false} VisitsMeetCalls(frames: seq<Frame>, entries: seq<Entry>)
    requires InRange(frames, entries)
    ensures CallsOf(Visits(frames, entries)) == Calls(frames, entries)
    decreases |entries|
  {
    if entries != [] {
      var n := |entries| - 1;
      VisitsMeetCalls(frames, entries[..n]);
      assert CallsOf(EntryVisits(Trace(frames, entries[n].frameIndex), entries[n].eventCount))
          == Trace(frames, entries[n].frameIndex);
    }
  }

  lemma FirstMentionGrows(calls: seq<Call>, c: Call, name: string, call: Call)
    requires FirstMention(calls, name, call)
    ensures FirstMention(calls + [c], name, call)
  {
    var k :| 0 <= k < |calls| && calls[k] == call && FuncName(call) == name
             && forall m | 0 <= m < k :: FuncName(calls[m]) != name;
    var more := calls + [c];
    assert more[k] == call;
    assert forall m | 0 <= m < k :: FuncName(more[m]) != name;
  }

  /** A noted visit keeps the calls of old records and adds at most one record. */
  lemma {:induction false} NotedCalls(infos: seq<Info>, v: Visit, i: nat)
    requires i < |Noted(infos, v)|
    ensures var r := Noted(infos, v);
            || (i < |infos| && r[i].name == infos[i].name && r[i].call == infos[i].call)
            || (i == |infos| && r[i].name == FuncName(v.call) && r[i].call == v.call
                && forall j | 0 <= j < |infos| :: infos[j].name != FuncName(v.call))
  {
    if infos != [] && infos[0].name != FuncName(v.call) && i > 0 {
      NotedCalls(infos[1..], v, i - 1);
    }
  }

  lemma {:induction false} TableMentions(vs: seq<Visit>)
    ensures forall i | 0 <= i < |Table(vs)| ::
              FirstMention(CallsOf(vs), Table(vs)[i].name, Table(vs)[i].call)
    decreases |vs|
  {
    if vs != [] {
      var n := |vs| - 1;
      var front, v := vs[..n], vs[n];
      TableMentions(front);
      var infos := Table(front);
      assert CallsOf(vs) == CallsOf(front) + [v.call];
      forall i | 0 <= i < |Table(vs)| ensures FirstMention(CallsOf(vs), Table(vs)[i].name, Table(vs)[i].call) {
        NotedCalls(infos, v, i);
        if i < |infos| {
          FirstMentionGrows(CallsOf(front), v.call, infos[i].name, infos[i].call);
        } else {
          NewMention(front, v);
        }
      }
    }
  }

  lemma NewMention(vs: seq<Visit>, v: Visit)
    requires forall j | 0 <= j < |Table(vs)| :: Table(vs)[j].name != FuncName(v.call)
    ensures FirstMention(CallsOf(vs) + [v.call], FuncName(v.call), v.call)
  {
    TableTallies(vs);
    CollatedTotals(SelfPairs(vs));
    var calls, infos := CallsOf(vs) + [v.call], Table(vs);
    assert !HasKey(Selves(infos), FuncName(v.call));
    forall m | 0 <= m < |vs| ensures FuncName(calls[m]) != FuncName(v.call) {
      assert SelfPairs(vs)[m].0 == FuncName(vs[m].call);
    }
    assert calls[|vs|] == v.call;
  }

  // -------------------------------------------------------------------- what it says

  ghost predicate DistinctNames(infos: seq<Info>) {
    forall i, j | 0 <= i < j < |infos| :: infos[i].name != infos[j].name
  }

  ghost predicate Listed(infos: seq<Info>, name: string) {
    exists x | x in infos :: x.name == name
  }

  function SelfSum(infos: seq<Info>): nat {
    if infos == [] then 0 else infos[0].self + SelfSum(infos[1..])
  }

  /** Every function on any trace is listed once, with its exact totals and the
  first call at which it was met. */
  ghost predicate Aggregated(frames: seq<Frame>, entries: seq<Entry>, infos: seq<Info>)
    requires InRange(frames, entries)
  {
    && DistinctNames(infos)
    && (forall name :: Listed(infos, name) <==> Named(Calls(frames, entries), name))
    && (forall x | x in infos ::
          && x.self == SelfTotal(frames, entries, x.name)
          && x.inclusive == InclusiveTotal(frames, entries, x.name)
          && FirstMention(Calls(frames, entries), x.name, x.call))
    && SelfSum(infos) == TracedTotal(frames, entries)
  }

  lemma {:induction false} SelfSumIsTotal(infos: seq<Info>)
    ensures SelfSum(infos) == Total(Selves(infos))
  {
    if infos != [] {
      SelfSumIsTotal(infos[1..]);
      assert Selves(infos)[1..] == Selves(infos[1..]);
    }
  }

  lemma ListedIffNamed(vs: seq<Visit>, name: string)
    ensures Listed(Table(vs), name) <==> Named(CallsOf(vs), name)
  {
    TableTallies(vs);
    CollatedTotals(SelfPairs(vs));
    var infos := Table(vs);
    assert HasKey(Selves(infos), name) <==> HasKey(SelfPairs(vs), name);
    if Listed(infos, name) {
      var x :| x in infos && x.name == name;
      var i :| 0 <= i < |infos| && infos[i] == x;
      assert Selves(infos)[i].0 == name;
      var k :| 0 <= k < |SelfPairs(vs)| && SelfPairs(vs)[k].0 == name;
      assert FuncName(CallsOf(vs)[k]) == name;
    }
    if Named(CallsOf(vs), name) {
      var k :| 0 <= k < |vs| && FuncName(CallsOf(vs)[k]) == name;
      assert SelfPairs(vs)[k].0 == name;
      var i :| 0 <= i < |Selves(infos)| && Selves(infos)[i].0 == name;
      assert infos[i] in infos && infos[i].name == name;
    }
  }

  lemma RecordIsExact(frames: seq<Frame>, entries: seq<Entry>, i: nat)
    requires InRange(frames, entries) && i < |Table(Visits(frames, entries))|
    ensures var x := Table(Visits(frames, entries))[i];
            && x.self == SelfTotal(frames, entries, x.name)
            && x.inclusive == InclusiveTotal(frames, entries, x.name)
  {
    var vs := Visits(frames, entries);
    var x := Table(vs)[i];
    TableTallies(vs);
    CollatedIsExact(SelfPairs(vs));
    CollatedIsExact(InclusivePairs(vs));
    assert Selves(Table(vs))[i] == (x.name, x.self);
    assert Inclusives(Table(vs))[i] == (x.name, x.inclusive);
    VisitSelfTotals(frames, entries, x.name);
    VisitInclusiveTotals(frames, entries, x.name);
  }

  lemma TableAggregates(frames: seq<Frame>, entries: seq<Entry>)
    requires InRange(frames, entries)
    ensures Aggregated(frames, entries, Table(Visits(frames, entries)))
  {
    var vs := Visits(frames, entries);
    var infos := Table(vs);
    TableTallies(vs);
    CollatedTotals(SelfPairs(vs));
    assert DistinctNames(infos) by {
      forall i, j | 0 <= i < j < |infos| ensures infos[i].name != infos[j].name {
        assert Selves(infos)[i].0 != Selves(infos)[j].0;
      }
    }
    VisitsMeetCalls(frames, entries);
    forall name ensures Listed(infos, name) <==> Named(CallsOf(vs), name) {
      ListedIffNamed(vs, name);
    }
    TableMentions(vs);
    forall x | x in infos
      ensures && x.self == SelfTotal(frames, entries, x.name)
              && x.inclusive == InclusiveTotal(frames, entries, x.name)
              && FirstMention(CallsOf(vs), x.name, x.call)
    {
      var i :| 0 <= i < |infos| && infos[i] == x;
      RecordIsExact(frames, entries, i);
    }
    SelfSumIsTotal(infos);
    VisitTracedTotal(frames, entries);
  }

  // ------------------------------------------------------------------------- sorting

  ghost predicate Descending(infos: seq<Info>) {
    forall i, j | 0 <= i < j < |infos| :: infos[i].inclusive >= infos[j].inclusive
  }

  function Inserted(x: Info, infos: seq<Info>): seq<Info> {
    if infos == [] || x.inclusive >= infos[0].inclusive then [x] + infos
    else [infos[0]] + Inserted(x, infos[1..])
  }

  /** zend_hash_sort by descending inclusive count. */
  function Sorted(infos: seq<Info>): seq<Info> {
    if infos == [] then [] else Inserted(infos[0], Sorted(infos[1..]))
  }

  lemma {:induction false} InsertedMembers(x: Info, infos: seq<Info>)
    ensures multiset(Inserted(x, infos)) == multiset{x} + multiset(infos)
    ensures forall y :: y in Inserted(x, infos) <==> y == x || y in infos
    ensures SelfSum(Inserted(x, infos)) == x.self + SelfSum(infos)
  {
    if infos == [] || x.inclusive >= infos[0].inclusive {
      assert Inserted(x, infos)[1..] == infos;
    } else {
      InsertedMembers(x, infos[1..]);
      assert infos == [infos[0]] + infos[1..];
      assert Inserted(x, infos)[1..] == Inserted(x, infos[1..]);
    }
  }

  /** A bound on all records holds after an insertion. */
  lemma {:induction false} InsertedBelow(x: Info, infos: seq<Info>, bound: nat)
    requires x.inclusive <= bound && forall i | 0 <= i < |infos| :: infos[i].inclusive <= bound
    ensures forall i | 0 <= i < |Inserted(x, infos)| :: Inserted(x, infos)[i].inclusive <= bound
  {
    if infos != [] && x.inclusive < infos[0].inclusive {
      InsertedBelow(x, infos[1..], bound);
    }
  }

  lemma DescendingCons(y: Info, infos: seq<Info>)
    requires Descending(infos) && forall i | 0 <= i < |infos| :: infos[i].inclusive <= y.inclusive
    ensures Descending([y] + infos)
  {
  }

  lemma {:induction false} InsertedDescending(x: Info, infos: seq<Info>)
    requires Descending(infos)
    ensures Descending(Inserted(x, infos))
  {
    if infos == [] || x.inclusive >= infos[0].inclusive {
      DescendingCons(x, infos);
    } else {
      InsertedDescending(x, infos[1..]);
      InsertedBelow(x, infos[1..], infos[0].inclusive);
      DescendingCons(infos[0], Inserted(x, infos[1..]));
    }
  }

  lemma {:induction false} InsertedAvoids(x: Info, infos: seq<Info>, name: string)
    requires x.name != name && forall i | 0 <= i < |infos| :: infos[i].name != name
    ensures forall i | 0 <= i < |Inserted(x, infos)| :: Inserted(x, infos)[i].name != name
  {
    if infos != [] && x.inclusive < infos[0].inclusive {
      InsertedAvoids(x, infos[1..], name);
    }
  }

  lemma DistinctCons(y: Info, infos: seq<Info>)
    requires DistinctNames(infos) && forall i | 0 <= i < |infos| :: infos[i].name != y.name
    ensures DistinctNames([y] + infos)
  {
  }

  lemma {:induction false} InsertedDistinct(x: Info, infos: seq<Info>)
    requires DistinctNames(infos) && forall i | 0 <= i < |infos| :: infos[i].name != x.name
    ensures DistinctNames(Inserted(x, infos))
  {
    if infos == [] || x.inclusive >= infos[0].inclusive {
      DistinctCons(x, infos);
    } else {
      InsertedDistinct(x, infos[1..]);
      InsertedAvoids(x, infos[1..], infos[0].name);
      DistinctCons(infos[0], Inserted(x, infos[1..]));
    }
  }

  lemma {:induction false} SortedMembers(infos: seq<Info>)
    ensures multiset(Sorted(infos)) == multiset(infos)
    ensures forall y :: y in Sorted(infos) <==> y in infos
    ensures SelfSum(Sorted(infos)) == SelfSum(infos)
  {
    if infos != [] {
      SortedMembers(infos[1..]);
      InsertedMembers(infos[0], Sorted(infos[1..]));
      assert infos == [infos[0]] + infos[1..];
    }
  }

  lemma {:induction false} SortedIsDescending(infos: seq<Info>)
    ensures Descending(Sorted(infos))
  {
    if infos != [] {
      SortedIsDescending(infos[1..]);
      InsertedDescending(infos[0], Sorted(infos[1..]));
    }
  }

  lemma {:induction false} SortedDistinct(infos: seq<Info>)
    requires DistinctNames(infos)
    ensures DistinctNames(Sorted(infos))
  {
    if infos != [] {
      SortedDistinct(infos[1..]);
      SortedMembers(infos[1..]);
      var r := Sorted(infos[1..]);
      forall i | 0 <= i < |r| ensures r[i].name != infos[0].name {
        assert r[i] in infos[1..];
      }
      InsertedDistinct(infos[0], r);
    }
  }

  lemma SortedAggregates(frames: seq<Frame>, entries: seq<Entry>, infos: seq<Info>)
    requires InRange(frames, entries) && Aggregated(frames, entries, infos)
    ensures Aggregated(frames, entries, Sorted(infos)) && Descending(Sorted(infos))
  {
    SortedMembers(infos);
    SortedIsDescending(infos);
    SortedDistinct(infos);
    forall name ensures Listed(Sorted(infos), name) <==> Named(Calls(frames, entries), name) {
      assert Listed(Sorted(infos), name) <==> Listed(infos, name);
    }
  }

  // ------------------------------------------------------------------------ the method

  /** Walk one entry's chain, noting every function on it. */
  method NoteEntry(frames: seq<Frame>, e: Entry, infos: seq<Info>, ghost before: seq<Visit>)
    returns (r: seq<Info>)
    requires Linked(frames) && e.frameIndex < |frames|
    requires infos == Table(before)
    ensures r == Table(before + EntryVisits(Trace(frames, e.frameIndex), e.eventCount))
  {
    ghost var trace := Trace(frames, e.frameIndex);
    ghost var visits := EntryVisits(trace, e.eventCount);
    r := infos;
    var unique: set<string> := {};
    var isTop := true;
    var i: nat := e.frameIndex;
    ghost var k := 0;
    assert before + visits[..0] == before;
    while i != 0
      invariant i < |frames| && 0 <= k <= |trace|
      invariant Trace(frames, i) == trace[k..]
      invariant isTop <==> k == 0
      invariant forall name :: name in unique <==> Named(trace[..k], name)
      invariant r == Table(before + visits[..k])
      decreases i
    {
      var call := frames[i].call;
      var name := FuncName(call);
      assert trace[k..][0] == call && trace[k..][1..] == trace[k + 1..];
      NamedNext(trace, k);
      TableNext(before, visits, k);
      var v := Visit(call, if isTop then e.eventCount else 0, if name in unique then 0 else e.eventCount);
      r := Noted(r, v);
      unique := unique + {name};
      isTop := false;
      i := frames[i].prevIndex;
      k := k + 1;
    }
    assert visits[..k] == visits;
  }

  lemma NamedNext(trace: seq<Call>, k: nat)
    requires k < |trace|
    ensures forall name :: Named(trace[..k + 1], name) <==> Named(trace[..k], name) || FuncName(trace[k]) == name
  {
    forall name ensures Named(trace[..k + 1], name) <==> Named(trace[..k], name) || FuncName(trace[k]) == name {
      NamedSnoc(trace[..k + 1], name);
      assert trace[..k + 1][..k] == trace[..k];
    }
  }

  lemma TableSnoc(vs: seq<Visit>, v: Visit)
    ensures Table(vs + [v]) == Noted(Table(vs), v)
  {
    assert (vs + [v])[..|vs|] == vs;
  }

  lemma TableNext(before: seq<Visit>, visits: seq<Visit>, k: nat)
    requires k < |visits|
    ensures Table(before + visits[..k + 1]) == Noted(Table(before + visits[..k]), visits[k])
  {
    assert visits[..k + 1] == visits[..k] + [visits[k]];
    TableSnoc(before + visits[..k], visits[k]);
    assert before + visits[..k] + [visits[k]] == before + visits[..k + 1];
  }

  method AggregateByFunction(log: Log) returns (infos: seq<Info>)
    requires log.Valid()
    ensures InRange(log.frames, log.entries)
    ensures Aggregated(log.frames, log.entries, infos)
    ensures Descending(infos)
  {
    EntriesInRange(log.frames, log.reverse, log.origins, log.entries, log.samples);
    infos := CollectByFunction(log.frames, log.entries);
    TableAggregates(log.frames, log.entries);
    SortedAggregates(log.frames, log.entries, infos);
    infos := Sorted(infos);
  }

  method CollectByFunction(frames: seq<Frame>, entries: seq<Entry>) returns (infos: seq<Info>)
    requires InRange(frames, entries)
    ensures infos == Table(Visits(frames, entries))
  {
    infos := [];
    for i := 0 to |entries|
      invariant infos == Table(Visits(frames, entries[..i]))
    {
      infos := NoteEntry(frames, entries[i], infos, Visits(frames, entries[..i]));
      assert entries[..i + 1][..i] == entries[..i];
    }
    assert entries[..|entries|] == entries;
  }
}
