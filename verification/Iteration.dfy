/** Iterating over a log that may grow in the meantime. The iterator creates the
entry object for its position on demand and keeps it until it moves. */
module Iteration {
  import opened Text
  import opened SampleLog

  class LogIterator {
    const log: Log
    var index: nat
    /** The index inside the cached entry object, if there is one. */
    var current: Option<nat>

    /** A cached entry is the one at the iterator's position, which is in range. The log
    has an entry for every sample. */
    ghost predicate Valid()
      reads this, log
    {
      && |log.entries| == |log.samples|
      && index <= |log.entries|
      && (current.Some? ==> current.value == index && index < |log.entries|)
    }

    constructor (log: Log)
      requires log.Valid()
      ensures Valid() && this.log == log && index == 0 && current == None
    {
      this.log := log;
      index := 0;
      current := None;
    }

    /** The log only ever grows, and growing it keeps the cache coherent. */
    twostate lemma SurvivesAppend()
      requires old(Valid()) && unchanged(this) && old(log.entries) <= log.entries && log.Valid()
      ensures Valid()
    {
    }

    /** False exactly when every recorded sample has been passed, and then nothing is
    cached. */
    method IsValid() returns (r: bool)
      requires Valid()
      ensures r ==> index < |log.samples|
      ensures !r ==> index == |log.samples| && current == None
    {
      r := index < |log.entries|;
    }

    /** The key goes with the cached entry, and there is none exactly when every sample
    has been passed. */
    method Key() returns (r: Option<nat>)
      requires Valid()
      ensures r.Some? ==> r.value == index < |log.samples|
      ensures r.None? ==> index == |log.samples|
      ensures current.Some? ==> r == current
    {
      r := if index < |log.entries| then Some(index) else None;
    }

    method Current() returns (r: Option<nat>)
      requires Valid()
      modifies this`current
      ensures Valid()
      ensures r == current == if index < |log.entries| then Some(index) else None
    {
      if current.None? && index < |log.entries| {
        current := Some(index);
      }
      r := current;
    }

    method Next()
      requires Valid()
      modifies this
      ensures Valid() && current == None
      ensures index == if old(index) < |log.entries| then old(index) + 1 else old(index)
    {
      current := None;
      if index < |log.entries| {
        index := index + 1;
      }
    }

    method Rewind()
      requires |log.entries| == |log.samples|
      modifies this
      ensures Valid() && index == 0 && current == None
    {
      current := None;
      index := 0;
    }

    /** A foreach loop over a log that is not growing sees every entry once, in
    order, under its own key. */
    method VisitAll() returns (keys: seq<nat>, entries: seq<Entry>)
      requires Valid()
      modifies this
      ensures Valid() && index == |log.entries|
      ensures keys == seq(|log.entries|, i => i)
      ensures entries == log.entries
    {
      Rewind();
      keys, entries := [], [];
      var more := IsValid();
      while more
        invariant Valid()
        invariant more <==> index < |log.entries|
        invariant keys == seq(index, i => i)
        invariant entries == log.entries[..index]
        decreases |log.entries| - index, more
      {
        var k := Key();
        var e := Current();
        keys := keys + [k.value];
        entries := entries + [log.entries[e.value]];
        Next();
        more := IsValid();
      }
    }
  }
}
