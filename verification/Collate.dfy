/** Insertion-ordered hashtables of counts, as lists of key and count. */
module Collate {

  /** ht[key] += term: an absent key is added at the end. */
  function Incr<K(==)>(ht: seq<(K, nat)>, key: K, term: nat): seq<(K, nat)> {
    if ht == [] then [(key, term)]
    else if ht[0].0 == key then [(key, ht[0].1 + term)] + ht[1..]
    else [ht[0]] + Incr(ht[1..], key, term)
  }

  /** The table that a list of increments builds up. */
  function Collated<K(==)>(ps: seq<(K, nat)>): seq<(K, nat)> {
    if ps == [] then [] else Incr(Collated(ps[..|ps| - 1]), ps[|ps| - 1].0, ps[|ps| - 1].1)
  }

  // ------------------------------------------------------------------- reference

  /** The sum of all terms listed for one key. */
  function TotalOf<K(==)>(ps: seq<(K, nat)>, key: K): nat {
    if ps == [] then 0 else (if ps[0].0 == key then ps[0].1 else 0) + TotalOf(ps[1..], key)
  }

  function Total<K>(ps: seq<(K, nat)>): nat {
    if ps == [] then 0 else ps[0].1 + Total(ps[1..])
  }

  ghost predicate HasKey<K>(ps: seq<(K, nat)>, key: K) {
    exists i | 0 <= i < |ps| :: ps[i].0 == key
  }

  ghost predicate DistinctKeys<K>(ps: seq<(K, nat)>) {
    forall i, j | 0 <= i < j < |ps| :: ps[i].0 != ps[j].0
  }

  /** A table lists every key of the increments once, with its exact total. */
  ghost predicate ExactTotals<K(!new)>(ht: seq<(K, nat)>, ps: seq<(K, nat)>) {
    && DistinctKeys(ht)
    && (forall k :: HasKey(ht, k) <==> HasKey(ps, k))
    && (forall i | 0 <= i < |ht| :: ht[i].1 == TotalOf(ps, ht[i].0))
    && Total(ht) == Total(ps)
  }

  lemma {:induction false} IncrKeys<K(!new)>(ht: seq<(K, nat)>, key: K, term: nat)
    ensures forall k :: HasKey(Incr(ht, key, term), k) <==> HasKey(ht, k) || k == key
  {
    var r := Incr(ht, key, term);
    if ht == [] {
      assert r[0].0 == key;
    } else {
      KeysUnfold(ht);
      KeysUnfold(r);
      if ht[0].0 == key {
        assert r[1..] == ht[1..];
      } else {
        IncrKeys(ht[1..], key, term);
        assert r[1..] == Incr(ht[1..], key, term);
      }
    }
  }

  lemma KeysUnfold<K(!new)>(ht: seq<(K, nat)>)
    requires ht != []
    ensures forall k :: HasKey(ht, k) <==> ht[0].0 == k || HasKey(ht[1..], k)
  {
    forall k ensures HasKey(ht, k) <==> ht[0].0 == k || HasKey(ht[1..], k) {
      if HasKey(ht[1..], k) {
        var i :| 0 <= i < |ht[1..]| && ht[1..][i].0 == k;
        assert ht[i + 1].0 == k;
      }
      if HasKey(ht, k) && ht[0].0 != k {
        var i :| 0 <= i < |ht| && ht[i].0 == k;
        assert ht[1..][i - 1].0 == k;
      }
    }
  }

  lemma {:induction false} IncrDistinct<K(!new)>(ht: seq<(K, nat)>, key: K, term: nat)
    requires DistinctKeys(ht)
    ensures DistinctKeys(Incr(ht, key, term))
  {
    if ht != [] {
      var r := Incr(ht, key, term);
      if ht[0].0 == key {
        assert forall i | 0 <= i < |r| :: r[i].0 == ht[i].0;
      } else {
        IncrDistinct(ht[1..], key, term);
        IncrKeys(ht[1..], key, term);
        var tail := Incr(ht[1..], key, term);
        assert !HasKey(tail, ht[0].0);
        assert forall j | 0 < j < |r| :: r[j] == tail[j - 1];
      }
    }
  }

  lemma {:induction false} IncrTotals<K>(ht: seq<(K, nat)>, key: K, term: nat, k: K)
    ensures TotalOf(Incr(ht, key, term), k) == TotalOf(ht, k) + (if k == key then term else 0)
    ensures Total(Incr(ht, key, term)) == Total(ht) + term
  {
    if ht != [] {
      var r := Incr(ht, key, term);
      if ht[0].0 == key {
        assert r[1..] == ht[1..];
      } else {
        IncrTotals(ht[1..], key, term, k);
        assert r[1..] == Incr(ht[1..], key, term);
      }
    }
  }

  lemma {:induction false} TotalsAppend<K>(ps: seq<(K, nat)>, p: (K, nat), k: K)
    ensures TotalOf(ps + [p], k) == TotalOf(ps, k) + (if p.0 == k then p.1 else 0)
    ensures Total(ps + [p]) == Total(ps) + p.1
  {
    if ps != [] {
      assert (ps + [p])[1..] == ps[1..] + [p];
      TotalsAppend(ps[1..], p, k);
    }
  }

  lemma KeysAppend<K(!new)>(ps: seq<(K, nat)>, p: (K, nat))
    ensures forall k :: HasKey(ps + [p], k) <==> HasKey(ps, k) || p.0 == k
  {
    forall k ensures HasKey(ps + [p], k) <==> HasKey(ps, k) || p.0 == k {
      if HasKey(ps, k) {
        var i :| 0 <= i < |ps| && ps[i].0 == k;
        assert (ps + [p])[i].0 == k;
      }
      if p.0 == k {
        assert (ps + [p])[|ps|].0 == k;
      }
    }
  }

  lemma {:induction false} EntryIsTotal<K>(ht: seq<(K, nat)>, i: nat)
    requires DistinctKeys(ht) && i < |ht|
    ensures TotalOf(ht, ht[i].0) == ht[i].1
  {
    if i == 0 {
      AbsentTotal(ht[1..], ht[0].0);
    } else {
      EntryIsTotal(ht[1..], i - 1);
    }
  }

  lemma {:induction false} AbsentTotal<K>(ht: seq<(K, nat)>, k: K)
    requires forall i | 0 <= i < |ht| :: ht[i].0 != k
    ensures TotalOf(ht, k) == 0
  {
    if ht != [] {
      AbsentTotal(ht[1..], k);
    }
  }

  lemma {:induction false} CollatedTotals<K(!new)>(ps: seq<(K, nat)>)
    ensures DistinctKeys(Collated(ps))
    ensures forall k :: HasKey(Collated(ps), k) <==> HasKey(ps, k)
    ensures forall k :: TotalOf(Collated(ps), k) == TotalOf(ps, k)
    ensures Total(Collated(ps)) == Total(ps)
  {
    if ps != [] {
      var front, p := ps[..|ps| - 1], ps[|ps| - 1];
      assert ps == front + [p];
      CollatedTotals(front);
      IncrDistinct(Collated(front), p.0, p.1);
      IncrKeys(Collated(front), p.0, p.1);
      KeysAppend(front, p);
      forall k ensures TotalOf(Collated(ps), k) == TotalOf(ps, k) && Total(Collated(ps)) == Total(ps) {
        IncrTotals(Collated(front), p.0, p.1, k);
        TotalsAppend(front, p, k);
      }
      IncrTotals(Collated(front), p.0, p.1, p.0);
      TotalsAppend(front, p, p.0);
    }
  }

  /** Collating is exact. */
  lemma CollatedIsExact<K(!new)>(ps: seq<(K, nat)>)
    ensures ExactTotals(Collated(ps), ps)
  {
    CollatedTotals(ps);
    var ht := Collated(ps);
    forall i | 0 <= i < |ht| ensures ht[i].1 == TotalOf(ps, ht[i].0) {
      EntryIsTotal(ht, i);
    }
  }

  // ------------------------------------------------------------- order of increments

  lemma {:induction false} IncrTwice<K>(ht: seq<(K, nat)>, key: K, m: nat, n: nat)
    ensures Incr(Incr(ht, key, m), key, n) == Incr(ht, key, m + n)
  {
    if ht != [] && ht[0].0 != key {
      IncrTwice(ht[1..], key, m, n);
      assert Incr(ht, key, m)[1..] == Incr(ht[1..], key, m);
    }
  }

  lemma IncrCons<K>(p: (K, nat), ht: seq<(K, nat)>, key: K, term: nat)
    ensures Incr([p] + ht, key, term)
         == if p.0 == key then [(key, p.1 + term)] + ht else [p] + Incr(ht, key, term)
  {
    assert ([p] + ht)[1..] == ht;
  }

  /** Increments commute as long as the first key keeps its place. */
  lemma {:induction false} IncrCommute<K(!new)>(ht: seq<(K, nat)>, a: K, m: nat, b: K, n: nat)
    requires HasKey(ht, a)
    ensures Incr(Incr(ht, a, m), b, n) == Incr(Incr(ht, b, n), a, m)
  {
    var p, tail := ht[0], ht[1..];
    if a == b {
      IncrTwice(ht, a, m, n);
      IncrTwice(ht, a, n, m);
    } else if p.0 == a {
      IncrCons((a, p.1 + m), tail, b, n);
      IncrCons(p, Incr(tail, b, n), a, m);
    } else if p.0 == b {
      IncrCons(p, Incr(tail, a, m), b, n);
      IncrCons((b, p.1 + n), tail, a, m);
    } else {
      KeysUnfold(ht);
      IncrCommute(tail, a, m, b, n);
      IncrCons(p, Incr(tail, a, m), b, n);
      IncrCons(p, Incr(tail, b, n), a, m);
    }
  }

  lemma {:induction false} IncrSnoc<K(!new)>(ht: seq<(K, nat)>, p: (K, nat), key: K, term: nat)
    ensures Incr(ht + [p], key, term)
         == if HasKey(ht, key) then Incr(ht, key, term) + [p]
            else if p.0 == key then ht + [(key, p.1 + term)]
            else ht + [p, (key, term)]
  {
    if ht == [] {
      assert (ht + [p])[1..] == [];
    } else {
      KeysUnfold(ht);
      assert (ht + [p])[1..] == ht[1..] + [p];
      if ht[0].0 != key {
        IncrSnoc(ht[1..], p, key, term);
      }
    }
  }
}
