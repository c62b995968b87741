/** A first-in first-out queue without duplicates, as a sequence. */
module Fifo {

  predicate Distinct<T(==)>(q: seq<T>) {
    forall i, j | 0 <= i < j < |q| :: q[i] != q[j]
  }

  function Enqueued<T(==)>(q: seq<T>, t: T): seq<T> {
    if t in q then q else q + [t]
  }

  function Removed<T(==)>(q: seq<T>, t: T): seq<T> {
    if q == [] then [] else if q[0] == t then q[1..] else [q[0]] + Removed(q[1..], t)
  }

  lemma EnqueuedKeeps<T>(q: seq<T>, t: T)
    requires Distinct(q)
    ensures Distinct(Enqueued(q, t)) && q <= Enqueued(q, t)
    ensures forall x :: x in Enqueued(q, t) <==> x in q || x == t
  {
  }

  /** Removing the element at k closes the gap and keeps the order. */
  lemma {:induction false} RemovedAt<T>(q: seq<T>, k: nat)
    requires Distinct(q) && k < |q|
    ensures Removed(q, q[k]) == q[..k] + q[k + 1..]
    decreases k
  {
    if k != 0 {
      RemovedAt(q[1..], k - 1);
      assert q[1..][..k - 1] == q[1..k];
      assert q[1..][k..] == q[k + 1..];
    }
  }

  lemma {:induction false} RemovedAbsent<T>(q: seq<T>, t: T)
    requires t !in q
    ensures Removed(q, t) == q
  {
    if q != [] {
      RemovedAbsent(q[1..], t);
    }
  }

  lemma RemovedKeeps<T>(q: seq<T>, t: T)
    requires Distinct(q)
    ensures Distinct(Removed(q, t))
    ensures forall x :: x in Removed(q, t) <==> x in q && x != t
  {
    if t in q {
      var k :| 0 <= k < |q| && q[k] == t;
      RemovedAt(q, k);
      assert q == q[..k] + [t] + q[k + 1..];
    } else {
      RemovedAbsent(q, t);
    }
  }

  /** Removing from a queue in two parts removes from the part that has it. */
  lemma {:induction false} RemovedPrefix<T>(p: seq<T>, s: seq<T>, t: T)
    ensures t in p ==> Removed(p + s, t) == Removed(p, t) + s
    ensures t !in p ==> Removed(p + s, t) == p + Removed(s, t)
  {
    if p == [] {
      assert p + s == s;
    } else {
      assert (p + s)[1..] == p[1..] + s;
      RemovedPrefix(p[1..], s, t);
    }
  }

  lemma PartsDistinct<T>(p: seq<T>, s: seq<T>)
    requires Distinct(p + s)
    ensures Distinct(p) && Distinct(s)
  {
    forall i, j | 0 <= i < j < |p| ensures p[i] != p[j] {
      assert (p + s)[i] != (p + s)[j];
    }
    forall i, j | 0 <= i < j < |s| ensures s[i] != s[j] {
      assert (p + s)[|p| + i] != (p + s)[|p| + j];
    }
  }
}
