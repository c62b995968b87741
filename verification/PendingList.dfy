/** The pending list on the heap: timers linked into a ring, which stands for a
first-in first-out queue without duplicates. These are the critical sections
that the timer protocol takes as atomic steps. */
module PendingList {
  import opened Fifo

  class Timer {
    var pendingNext: Timer?
    var pendingPrev: Timer?
    var eventCount: nat

    /** excimer_timer_init clears the whole structure. */
    constructor ()
      ensures pendingNext == null && pendingPrev == null && eventCount == 0
    {
      pendingNext, pendingPrev, eventCount := null, null, 0;
    }

    method TakeCount() returns (count: nat)
      modifies this`eventCount
      ensures count == old(eventCount) && eventCount == 0
    {
      count := eventCount;
      eventCount := 0;
    }
  }

  /** Take a timer out from between its neighbours. */
  method Splice(t: Timer)
    requires t.pendingNext != null && t.pendingNext != t && t.pendingPrev != null && t.pendingPrev != t
    modifies t`pendingNext, t`pendingPrev, t.pendingNext`pendingPrev, t.pendingPrev`pendingNext
    ensures t.pendingNext == null && t.pendingPrev == null
    ensures old(t.pendingNext).pendingPrev == old(t.pendingPrev)
    ensures old(t.pendingPrev).pendingNext == old(t.pendingNext)
  {
    t.pendingNext.pendingPrev := t.pendingPrev;
    t.pendingPrev.pendingNext := t.pendingNext;
    t.pendingNext := null;
    t.pendingPrev := null;
  }

  function After<T>(q: seq<T>, i: nat): T
    requires i < |q|
  {
    if i + 1 < |q| then q[i + 1] else q[0]
  }

  function Before<T>(q: seq<T>, i: nat): T
    requires i < |q|
  {
    if i > 0 then q[i - 1] else q[|q| - 1]
  }

  lemma Neighbours<T>(q: seq<T>, j: nat, k: nat)
    requires Distinct(q) && j < |q| && k < |q|
    ensures After(q, j) == q[k] <==> Before(q, k) == q[j]
  {
  }

  /** Closing the gap at k: the neighbours of k become neighbours. */
  lemma GapClosed<T>(q: seq<T>, k: nat, i: nat)
    requires Distinct(q) && k < |q| && |q| >= 2 && i < |q| - 1
    ensures var q', j := q[..k] + q[k + 1..], if i < k then i else i + 1;
            && q'[i] == q[j]
            && After(q', i) == (if After(q, j) == q[k] then After(q, k) else After(q, j))
            && Before(q', i) == (if Before(q, j) == q[k] then Before(q, k) else Before(q, j))
  {
    var q', j := q[..k] + q[k + 1..], if i < k then i else i + 1;
    assert q'[0] == if k == 0 then q[1] else q[0];
    assert q'[|q'| - 1] == if k == |q| - 1 then q[|q| - 2] else q[|q| - 1];
    assert After(q, j) == q[k] <==> (j + 1 == k || (j + 1 == |q| && k == 0));
    assert Before(q, j) == q[k] <==> (j == k + 1 || (j == 0 && k == |q| - 1));
  }

  /** Closing the ring over a new last element. */
  lemma RingExtended<T>(q: seq<T>, t: T, i: nat)
    requires q != [] && i <= |q|
    ensures var q' := q + [t];
            && After(q', i) == (if i == |q| then q[0] else if i == |q| - 1 then t else After(q, i))
            && Before(q', i) == (if i == |q| then q[|q| - 1] else if i == 0 then t else Before(q, i))
  {
  }

  class Pending {
    var head: Timer?

    ghost var queue: seq<Timer>
    ghost var timers: set<Timer>

    ghost predicate NextOk()
      reads this, queue`pendingNext
    {
      forall i | 0 <= i < |queue| :: queue[i].pendingNext == After(queue, i)
    }

    ghost predicate PrevOk()
      reads this, queue`pendingPrev
    {
      forall i | 0 <= i < |queue| :: queue[i].pendingPrev == Before(queue, i)
    }

    /** The ring visits the queue in order, both ways round; a timer's links are
    non-null exactly when it is queued. */
    ghost predicate Valid()
      reads this, timers`pendingNext, timers`pendingPrev
    {
      && Distinct(queue)
      && (forall t | t in queue :: t in timers)
      && head == (if queue == [] then null else queue[0])
      && NextOk()
      && PrevOk()
      && (forall t | t in timers && t !in queue :: t.pendingNext == null && t.pendingPrev == null)
    }

    twostate lemma SameLinks()
      requires old(Valid()) && head == old(head) && queue == old(queue) && timers == old(timers)
      requires unchanged(timers`pendingNext) && unchanged(timers`pendingPrev)
      ensures Valid()
    {
    }

    twostate lemma LinkedNext(t: Timer)
      requires old(Valid()) && old(queue) != [] && t !in old(queue)
      requires queue == old(queue) + [t] && timers == old(timers) && t in timers
      requires forall u | u in timers :: u.pendingNext ==
                 if u == t then old(queue)[0]
                 else if u == old(queue)[|old(queue)| - 1] then t else old(u.pendingNext)
      ensures NextOk()
    {
      var q := old(queue);
      forall i | 0 <= i < |queue| ensures queue[i].pendingNext == After(queue, i) {
        RingExtended(q, t, i);
        if i < |q| {
          assert q[i].pendingNext == if i == |q| - 1 then t else old(q[i].pendingNext);
        }
      }
    }

    twostate lemma LinkedPrev(t: Timer)
      requires old(Valid()) && old(queue) != [] && t !in old(queue)
      requires queue == old(queue) + [t] && timers == old(timers) && t in timers
      requires forall u | u in timers :: u.pendingPrev ==
                 if u == t then old(queue)[|old(queue)| - 1]
                 else if u == old(queue)[0] then t else old(u.pendingPrev)
      ensures PrevOk()
    {
      var q := old(queue);
      forall i | 0 <= i < |queue| ensures queue[i].pendingPrev == Before(queue, i) {
        RingExtended(q, t, i);
        if i < |q| {
          assert q[i].pendingPrev == if i == 0 then t else old(q[i].pendingPrev);
        }
      }
    }

    /** Taking the k-th timer out of the ring leaves a ring. */
    twostate lemma Unlinked(k: nat)
      requires old(Valid()) && k < |old(queue)| && |old(queue)| >= 2
      requires queue == old(queue)[..k] + old(queue)[k + 1..] && timers == old(timers)
      requires head == if k == 0 then old(queue)[1] else old(queue)[0]
      requires old(queue)[k].pendingNext == null && old(queue)[k].pendingPrev == null
      requires forall u | u in timers && u != old(queue)[k] ::
                 && u.pendingNext == (if u == Before(old(queue), k) then After(old(queue), k) else old(u.pendingNext))
                 && u.pendingPrev == (if u == After(old(queue), k) then Before(old(queue), k) else old(u.pendingPrev))
      ensures Valid()
    {
      var q := old(queue);
      assert Distinct(queue) && forall t :: t in queue <==> t in q && t != q[k] by {
        RemovedAt(q, k);
        RemovedKeeps(q, q[k]);
      }
      assert NextOk() by {
        UnlinkedNext(k);
      }
      assert PrevOk() by {
        UnlinkedPrev(k);
      }
      forall t | t in timers && t !in queue ensures t.pendingNext == null && t.pendingPrev == null {
        assert Before(q, k) in q && After(q, k) in q;
      }
    }

    twostate lemma UnlinkedNext(k: nat)
      requires old(Valid()) && k < |old(queue)| && |old(queue)| >= 2
      requires queue == old(queue)[..k] + old(queue)[k + 1..] && timers == old(timers)
      requires forall u | u in timers && u != old(queue)[k] :: u.pendingNext ==
                 if u == Before(old(queue), k) then After(old(queue), k) else old(u.pendingNext)
      ensures NextOk()
    {
      var q := old(queue);
      forall i | 0 <= i < |queue| ensures queue[i].pendingNext == After(queue, i) {
        var j := if i < k then i else i + 1;
        GapClosed(q, k, i);
        Neighbours(q, j, k);
        assert q[j] in timers && q[j] != q[k];
      }
    }

    twostate lemma UnlinkedPrev(k: nat)
      requires old(Valid()) && k < |old(queue)| && |old(queue)| >= 2
      requires queue == old(queue)[..k] + old(queue)[k + 1..] && timers == old(timers)
      requires forall u | u in timers && u != old(queue)[k] :: u.pendingPrev ==
                 if u == After(old(queue), k) then Before(old(queue), k) else old(u.pendingPrev)
      ensures PrevOk()
    {
      var q := old(queue);
      forall i | 0 <= i < |queue| ensures queue[i].pendingPrev == Before(queue, i) {
        var j := if i < k then i else i + 1;
        GapClosed(q, k, i);
        Neighbours(q, k, j);
        assert q[j] in timers && q[j] != q[k];
      }
    }

    constructor ()
      ensures Valid() && queue == [] && timers == {}
    {
      head := null;
      queue := [];
      timers := {};
    }

    /** Make a freshly initialised timer known. */
    ghost method Register(t: Timer)
      requires Valid() && t !in timers
      requires t.pendingNext == null && t.pendingPrev == null
      modifies this`timers
      ensures Valid() && timers == old(timers) + {t}
    {
      timers := timers + {t};
    }

    method Enqueue(t: Timer)
      requires Valid() && t in timers
      modifies this`head, this`queue, timers`pendingNext, timers`pendingPrev
      ensures Valid() && queue == Enqueued(old(queue), t)
    {
      if t.pendingNext == null {
        if head != null {
          LinkLast(t);
        } else {
          head := t;
          t.pendingNext := t;
          t.pendingPrev := t;
          queue := [t];
        }
      }
    }

    method LinkLast(t: Timer)
      requires Valid() && t in timers && t !in queue && queue != []
      modifies this`queue, timers`pendingNext, timers`pendingPrev
      ensures Valid() && queue == old(queue) + [t]
    {
      assert head == queue[0] && head.pendingPrev == queue[|queue| - 1];
      t.pendingNext := head;
      t.pendingPrev := head.pendingPrev;
      head.pendingPrev.pendingNext := t;
      head.pendingPrev := t;
      queue := queue + [t];
      LinkedNext(t);
      LinkedPrev(t);
    }

    method Dequeue() returns (timer: Timer?)
      requires Valid()
      modifies this`head, this`queue, timers`pendingNext, timers`pendingPrev
      ensures Valid()
      ensures old(queue) == [] ==> timer == null && queue == []
      ensures old(queue) != [] ==> timer == old(queue)[0] && queue == old(queue)[1..]
    {
      timer := head;
      if head != null {
        if timer.pendingNext == timer {
          head := null;
          timer.pendingNext := null;
          timer.pendingPrev := null;
          queue := [];
        } else {
          Unlink(timer, 0);
        }
      }
    }

    /** Unlink the k-th timer, which is not alone. */
    method Unlink(t: Timer, ghost k: nat)
      requires Valid() && k < |queue| && queue[k] == t && |queue| >= 2
      modifies this`head, this`queue, timers`pendingNext, timers`pendingPrev
      ensures Valid() && queue == old(queue)[..k] + old(queue)[k + 1..]
    {
      Neighbours(queue, k, k);
      if head == t {
        head := t.pendingNext;
      }
      assert t.pendingNext == After(queue, k) && t.pendingPrev == Before(queue, k);
      Splice(t);
      queue := queue[..k] + queue[k + 1..];
      Unlinked(k);
    }

    method Remove(t: Timer)
      requires Valid() && t in timers
      modifies this`head, this`queue, timers`pendingNext, timers`pendingPrev
      ensures Valid() && queue == Removed(old(queue), t)
    {
      ghost var q := queue;
      if t.pendingNext != null {
        ghost var k :| 0 <= k < |q| && q[k] == t;
        RemovedAt(q, k);
        if t.pendingNext == t {
          head := null;
          t.pendingNext := null;
          t.pendingPrev := null;
          queue := [];
        } else {
          Unlink(t, k);
        }
      } else {
        RemovedAbsent(q, t);
      }
    }

    /** excimer_timer_pending_dequeue: take the head and its count. */
    method PendingDequeue() returns (timer: Timer?, count: nat)
      requires Valid()
      modifies this`head, this`queue, timers
      ensures Valid()
      ensures old(queue) == [] ==> timer == null && queue == []
      ensures old(queue) != [] ==>
                && timer == old(queue)[0] && queue == old(queue)[1..]
                && count == old(queue[0].eventCount)
      ensures forall t | t in timers :: t.eventCount == if t == timer then 0 else old(t.eventCount)
    {
      timer := Dequeue();
      count := 0;
      if timer != null {
        label taken:
        count := timer.TakeCount();
        SameLinks@taken();
      }
    }

    /** The locked part of excimer_timer_handle. */
    method Handle(t: Timer, overrunCount: nat)
      requires Valid() && t in timers
      modifies this`head, this`queue, timers
      ensures Valid() && queue == Enqueued(old(queue), t)
      ensures t.eventCount == old(t.eventCount) + overrunCount + 1
      ensures forall u | u in timers && u != t :: u.eventCount == old(u.eventCount)
    {
      t.eventCount := t.eventCount + overrunCount + 1;
      Enqueue(t);
    }
  }
}
