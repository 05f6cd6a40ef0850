/**
 The timer queue of delayed deliveries (email/outbound/timer_queue.js): a list kept in the order of the
 fire times, first come first served among equal ones.
 */
module TimerQueue {
  import opened Numbers
  import opened Options

  /** `order` counts the calls of add. */
  datatype Timer = Timer(id: string, fireTime: Number, order: nat)

  /** The order timers are due in. */
  predicate Sooner(a: Timer, b: Timer) {
    Lt(a.fireTime, b.fireTime) || (a.fireTime == b.fireTime && !a.fireTime.NaN? && a.order < b.order)
  }

  predicate Ordered(q: seq<Timer>) {
    forall i, j :: 0 <= i < j < |q| ==> Sooner(q[i], q[j])
  }

  /** A timer without a time, which only an empty queue takes, and which then stays alone. */
  predicate Stuck(q: seq<Timer>) {
    |q| == 1 && q[0].fireTime.NaN?
  }

  predicate Numeric(q: seq<Timer>) {
    forall i :: 0 <= i < |q| ==> !q[i].fireTime.NaN?
  }

  /** Two queues of the same timers in the right order are the same: nothing is left open by it. */
  lemma {:induction false} OrderIsUnique(a: seq<Timer>, b: seq<Timer>)
    requires Ordered(a) && Ordered(b) && forall t :: t in a <==> t in b
    ensures a == b
    decreases |a|
  {
    assert b == [] || b[0] in b;
    if a == [] {
    } else {
      assert a[0] in a && a[0] in b;
      HeadIsSoonest(a, b[0]);
      HeadIsSoonest(b, a[0]);
      assert a[0] == b[0];
      forall t ensures t in a[1..] <==> t in b[1..] {
        TailWithoutHead(a, t);
        TailWithoutHead(b, t);
      }
      OrderIsUnique(a[1..], b[1..]);
      assert a == [a[0]] + a[1..] && b == [b[0]] + b[1..];
    }
  }

  lemma HeadIsSoonest(q: seq<Timer>, t: Timer)
    requires Ordered(q) && t in q
    ensures t == q[0] || Sooner(q[0], t)
  {
  }

  lemma TailWithoutHead(q: seq<Timer>, t: Timer)
    requires q != [] && Ordered(q)
    ensures t in q[1..] <==> t in q && t != q[0]
  {
    assert q == [q[0]] + q[1..];
    if t in q[1..] {
      var i :| 0 <= i < |q| - 1 && q[1..][i] == t;
      assert Sooner(q[0], q[i + 1]);
    }
  }

  lemma HeadMoves(ran: seq<Timer>, queue: seq<Timer>)
    requires queue != [] && Ordered(queue)
    ensures (ran + [queue[0]]) + queue[1..] == ran + queue && Ordered(queue[1..])
  {
    assert queue == [queue[0]] + queue[1..];
  }

  class TimerQueue {
    var queue: seq<Timer>
    var added: nat

    ghost predicate Valid()
      reads this
    {
      && (Stuck(queue) || (Numeric(queue) && Ordered(queue)))
      && forall i :: 0 <= i < |queue| ==> queue[i].order < added
    }

    constructor ()
      ensures Valid() && queue == []
    {
      queue, added := [], 0;
    }

    /** add; `thrown` when it throws. It does exactly when the queue has timers and either the new one or
        the one waiting has no number for a time. */
    method Add(id: string, fireTime: Number) returns (thrown: bool)
      requires Valid()
      modifies this
      ensures Valid() && added == old(added) + 1
      ensures thrown <==> old(queue) != [] && (fireTime.NaN? || old(queue)[0].fireTime.NaN?)
      ensures thrown ==> queue == old(queue)
      ensures !thrown ==> forall t :: t in queue <==> t in old(queue) || t == Timer(id, fireTime, old(added))
      ensures !thrown ==> |queue| == |old(queue)| + 1
    {
      var timer := Timer(id, fireTime, added);
      added := added + 1;
      if |queue| == 0 || Le(queue[|queue| - 1].fireTime, fireTime) {
        queue := queue + [timer];
        return false;
      }
      var i := 0;
      while i < |queue|
        invariant i <= |queue| && queue == old(queue) && added == old(added) + 1
        invariant forall k :: 0 <= k < i ==> !Lt(fireTime, queue[k].fireTime)
      {
        if Lt(fireTime, queue[i].fireTime) {
          InsertKeepsOrder(queue, i, timer);
          queue := queue[..i] + [timer] + queue[i..];
          return false;
        }
        i := i + 1;
      }
      assert !Lt(fireTime, queue[|queue| - 1].fireTime);
      return true;
    }

    /** discard; None when it throws. */
    method Discard(id: string) returns (found: Option<Timer>)
      requires Valid()
      modifies this`queue
      ensures Valid()
      ensures found.None? ==> queue == old(queue) && forall t :: t in queue ==> t.id != id
      ensures found.Some? ==>
                exists i :: 0 <= i < |old(queue)| && old(queue)[i] == found.value && found.value.id == id
                  && queue == old(queue)[..i] + old(queue)[i + 1..]
                  && forall k :: 0 <= k < i ==> old(queue)[k].id != id
    {
      var i := 0;
      while i < |queue|
        invariant i <= |queue| && queue == old(queue)
        invariant forall k :: 0 <= k < i ==> queue[k].id != id
      {
        if queue[i].id == id {
          found := Some(queue[i]);
          queue := queue[..i] + queue[i + 1..];
          return;
        }
        i := i + 1;
      }
      found := None;
    }

    /** fire, with callbacks that leave the queue alone: exactly the timers due run, soonest first. */
    method Fire(now: real) returns (ran: seq<Timer>)
      requires Valid()
      modifies this`queue
      ensures Valid() && ran + queue == old(queue)
      ensures forall t :: t in ran ==> Le(t.fireTime, Fin(now))
      ensures forall t :: t in queue ==> !Le(t.fireTime, Fin(now))
    {
      ran := [];
      while |queue| > 0 && Le(queue[0].fireTime, Fin(now))
        invariant Valid() && ran + queue == old(queue)
        invariant forall t :: t in ran ==> Le(t.fireTime, Fin(now))
        decreases |queue|
      {
        var toRun := queue[0];
        assert queue == [toRun] + queue[1..];
        queue := queue[1..];
        ran := ran + [toRun];
      }
      NoneDue(queue, now);
    }

    method Drain() returns (ran: seq<Timer>)
      requires Valid()
      modifies this`queue
      ensures Valid() && queue == [] && ran == old(queue)
    {
      ran := [];
      while |queue| > 0
        invariant Valid() && ran + queue == old(queue)
        decreases |queue|
      {
        HeadMoves(ran, queue);
        ran := ran + [queue[0]];
        queue := queue[1..];
      }
    }
  }

  lemma InsertKeepsOrder(q: seq<Timer>, i: nat, t: Timer)
    requires i < |q| && Numeric(q) && Ordered(q)
    requires forall k :: 0 <= k < |q| ==> q[k].order < t.order
    requires Lt(t.fireTime, q[i].fireTime) && forall k :: 0 <= k < i ==> !Lt(t.fireTime, q[k].fireTime)
    ensures Numeric(q[..i] + [t] + q[i..]) && Ordered(q[..i] + [t] + q[i..])
    ensures forall x :: x in q[..i] + [t] + q[i..] <==> x in q || x == t
  {
    var r := q[..i] + [t] + q[i..];
    forall a, b | 0 <= a < b < |r| ensures Sooner(r[a], r[b]) {
      if a < i && b == i {
        NotLater(q[a], t);
      } else if a == i {
        assert r[b] == q[b - 1];
        SoonerThanRest(q, i, t, b - 1);
      }
    }
    assert q == q[..i] + q[i..];
  }

  lemma NotLater(a: Timer, t: Timer)
    requires !a.fireTime.NaN? && !t.fireTime.NaN? && !Lt(t.fireTime, a.fireTime) && a.order < t.order
    ensures Sooner(a, t)
  {
  }

  lemma SoonerThanRest(q: seq<Timer>, i: nat, t: Timer, b: nat)
    requires i <= b < |q| && Ordered(q) && Lt(t.fireTime, q[i].fireTime)
    ensures Sooner(t, q[b])
  {
    if i < b {
      assert Sooner(q[i], q[b]);
    }
  }

  lemma NoneDue(q: seq<Timer>, now: real)
    requires Stuck(q) || (Numeric(q) && Ordered(q))
    requires q == [] || !Le(q[0].fireTime, Fin(now))
    ensures forall t :: t in q ==> !Le(t.fireTime, Fin(now))
  {
    forall t | t in q ensures !Le(t.fireTime, Fin(now)) {
      if Numeric(q) {
        HeadIsSoonest(q, t);
      }
    }
  }
}
