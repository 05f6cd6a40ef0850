/**
 The pool of backend hosts (email/host_pool.js): hosts are handed out in turn, those that failed are
 passed over, and when all have failed none is.
 */
module HostPool {

  type Host = string

  function Next(n: nat, i: nat): nat
    requires n > 0
  {
    if i + 1 >= n then 0 else i + 1
  }

  /** Of the `len` slots from `start` on, around the list, those that count as usable, in that order. */
  function Around(usable: seq<bool>, start: nat, len: nat): (slots: seq<nat>)
    requires start < |usable|
    ensures |slots| <= len && forall k :: 0 <= k < |slots| ==> slots[k] < |usable| && usable[slots[k]]
    decreases len
  {
    if len == 0 then []
    else (if usable[start] then [start] else []) + Around(usable, Next(|usable|, start), len - 1)
  }

  predicate SomeLive(hosts: seq<Host>, dead: set<Host>) {
    exists i :: 0 <= i < |hosts| && hosts[i] !in dead
  }

  /** A slot is usable when its host is not marked dead, or when all are. */
  ghost function Usable(hosts: seq<Host>, dead: set<Host>): (u: seq<bool>)
    ensures |u| == |hosts|
  {
    seq(|hosts|, i requires 0 <= i < |hosts| => hosts[i] !in dead || !SomeLive(hosts, dead))
  }

  /** The turn after slot `last`: the usable slots, starting behind it and going all the way around. */
  function Turn(usable: seq<bool>, last: nat): (slots: seq<nat>)
    requires last < |usable|
    ensures forall k :: 0 <= k < |slots| ==> slots[k] < |usable| && usable[slots[k]]
  {
    Around(usable, Next(|usable|, last), |usable|)
  }

  // ----- a turn -----

  function Step(n: nat, i: nat, k: nat): (j: nat)
    requires i < n && k <= n
    ensures j < n
  {
    if i + k >= n then i + k - n else i + k
  }

  lemma {:induction false} AroundSplit(usable: seq<bool>, start: nat, a: nat, b: nat)
    requires start < |usable| && a + b <= |usable|
    ensures Around(usable, start, a + b) == Around(usable, start, a) + Around(usable, Step(|usable|, start, a), b)
    decreases a
  {
    if a > 0 {
      var next := Next(|usable|, start);
      AroundSplit(usable, next, a - 1, b);
      assert Step(|usable|, next, a - 1) == Step(|usable|, start, a);
    }
  }

  lemma {:induction false} AroundDead(usable: seq<bool>, start: nat, len: nat)
    requires start < |usable| && len <= |usable|
    requires forall k :: 0 <= k < len ==> !usable[Step(|usable|, start, k)]
    ensures Around(usable, start, len) == []
    decreases len
  {
    if len > 0 {
      var next := Next(|usable|, start);
      assert !usable[Step(|usable|, start, 0)];
      forall k | 0 <= k < len - 1 ensures !usable[Step(|usable|, next, k)] {
        assert Step(|usable|, next, k) == Step(|usable|, start, k + 1);
      }
      AroundDead(usable, next, len - 1);
    }
  }

  /** If the first usable slot behind `last` is `k` steps on, it heads the turn, and the turn after it is
      the same with the head moved to the end. */
  lemma TurnMovesOn(usable: seq<bool>, last: nat, k: nat)
    requires last < |usable| && k < |usable|
    requires var first := Next(|usable|, last);
             && usable[Step(|usable|, first, k)]
             && forall i :: 0 <= i < k ==> !usable[Step(|usable|, first, i)]
    ensures var slot := Step(|usable|, Next(|usable|, last), k);
            && Turn(usable, last) != [] && Turn(usable, last)[0] == slot
            && Turn(usable, slot) == Turn(usable, last)[1..] + [slot]
  {
    var n := |usable|;
    var first := Next(n, last);
    AroundFirst(usable, first, k);
    var slot := Step(n, first, k);
    var rest := Around(usable, Next(n, slot), n - k - 1);
    AroundSplit(usable, Next(n, slot), n - k - 1, k + 1);
    assert Step(n, Next(n, slot), n - k - 1) == first;
    assert Turn(usable, last) == [slot] + rest;
  }

  /** Up to and with the first usable slot, and on from there. */
  lemma AroundFirst(usable: seq<bool>, first: nat, k: nat)
    requires first < |usable| && k < |usable|
    requires usable[Step(|usable|, first, k)] && forall i :: 0 <= i < k ==> !usable[Step(|usable|, first, i)]
    ensures var slot := Step(|usable|, first, k);
            && Around(usable, first, k + 1) == [slot]
            && Around(usable, first, |usable|) == [slot] + Around(usable, Next(|usable|, slot), |usable| - k - 1)
  {
    var n := |usable|;
    var slot := Step(n, first, k);
    AroundDead(usable, first, k);
    AroundSplit(usable, first, k, 1);
    assert Around(usable, slot, 1) == [slot] + Around(usable, Next(n, slot), 0) == [slot];
    AroundSplit(usable, first, k + 1, n - k - 1);
    if k + 1 < n {
      assert Step(n, first, k + 1) == Next(n, slot);
    }
  }

  /** A turn holds every usable slot once and no other. */
  lemma TurnHoldsAll(usable: seq<bool>, last: nat)
    requires last < |usable|
    ensures forall s :: 0 <= s < |usable| ==> (s in Turn(usable, last) <==> usable[s])
    ensures forall i, j :: 0 <= i < j < |Turn(usable, last)| ==> Turn(usable, last)[i] != Turn(usable, last)[j]
  {
    var n := |usable|;
    var first := Next(n, last);
    AroundHolds(usable, first, n);
    forall s | 0 <= s < n ensures s in Turn(usable, last) <==> usable[s] {
      var k := if s >= first then s - first else s + n - first;
      assert Step(n, first, k) == s;
    }
  }

  lemma {:induction false} AroundHolds(usable: seq<bool>, start: nat, len: nat)
    requires start < |usable| && len <= |usable|
    ensures forall k :: 0 <= k < len && usable[Step(|usable|, start, k)] ==>
              Step(|usable|, start, k) in Around(usable, start, len)
    ensures forall s :: s in Around(usable, start, len) ==> exists k :: 0 <= k < len && s == Step(|usable|, start, k)
    ensures forall i, j :: 0 <= i < j < |Around(usable, start, len)| ==>
              Around(usable, start, len)[i] != Around(usable, start, len)[j]
    decreases len
  {
    if len > 0 {
      var n := |usable|;
      var next := Next(n, start);
      var more := Around(usable, next, len - 1);
      AroundHolds(usable, next, len - 1);
      forall k | 0 <= k < len && usable[Step(n, start, k)] ensures Step(n, start, k) in Around(usable, start, len) {
        if k > 0 {
          assert Step(n, next, k - 1) == Step(n, start, k);
        }
      }
      forall s | s in Around(usable, start, len) ensures exists k :: 0 <= k < len && s == Step(n, start, k) {
        if s in more {
          var k :| 0 <= k < len - 1 && s == Step(n, next, k);
          assert s == Step(n, start, k + 1);
        } else {
          assert s == Step(n, start, 0);
        }
      }
      assert start !in more;
    }
  }

  /** The slots of `k` calls of get_host in a row. */
  function Calls(usable: seq<bool>, last: nat, k: nat): seq<nat>
    requires last < |usable| && exists s :: 0 <= s < |usable| && usable[s]
    decreases k
  {
    if k == 0 then []
    else
      TurnHoldsAll(usable, last);
      var slot := Turn(usable, last)[0];
      [slot] + Calls(usable, slot, k - 1)
  }

  /** As many calls in a row as there are usable slots give each of them once, in cyclic order. */
  lemma {:induction false} CallsAreATurn(usable: seq<bool>, last: nat, k: nat, turn: seq<nat>, done: seq<nat>)
    requires last < |usable| && exists s :: 0 <= s < |usable| && usable[s]
    requires |done| + k <= |turn| && done == turn[..|done|]
    requires Turn(usable, last) == turn[|done|..] + done
    ensures Calls(usable, last, k) == turn[|done|..|done| + k]
    decreases k
  {
    if k > 0 {
      var slot := turn[|done|];
      assert Turn(usable, last)[0] == slot;
      HeadIsFirst(usable, last);
      assert turn[|done|..][1..] == turn[|done| + 1..];
      assert Turn(usable, last)[1..] + [slot] == turn[|done| + 1..] + (done + [slot]);
      CallsAreATurn(usable, slot, k - 1, turn, done + [slot]);
    }
  }

  lemma OneRoundOfCalls(usable: seq<bool>, last: nat)
    requires last < |usable| && exists s :: 0 <= s < |usable| && usable[s]
    ensures Calls(usable, last, |Turn(usable, last)|) == Turn(usable, last)
  {
    var turn := Turn(usable, last);
    assert turn[0..] + [] == turn;
    CallsAreATurn(usable, last, |turn|, turn, []);
  }

  lemma HeadIsFirst(usable: seq<bool>, last: nat)
    requires last < |usable| && Turn(usable, last) != []
    ensures var slot := Turn(usable, last)[0]; Turn(usable, slot) == Turn(usable, last)[1..] + [slot]
  {
    var k := FirstUsable(usable, Next(|usable|, last), |usable|);
    TurnMovesOn(usable, last, k);
  }

  lemma {:induction false} FirstUsable(usable: seq<bool>, start: nat, len: nat) returns (k: nat)
    requires start < |usable| && len <= |usable| && Around(usable, start, len) != []
    ensures k < len && usable[Step(|usable|, start, k)]
    ensures forall i :: 0 <= i < k ==> !usable[Step(|usable|, start, i)]
    decreases len
  {
    if usable[start] {
      k := 0;
    } else {
      var next := Next(|usable|, start);
      var m := FirstUsable(usable, next, len - 1);
      k := m + 1;
      assert Step(|usable|, next, m) == Step(|usable|, start, k);
      forall i | 0 <= i < k ensures !usable[Step(|usable|, start, i)] {
        if i > 0 {
          assert Step(|usable|, next, i - 1) == Step(|usable|, start, i);
        }
      }
    }
  }

  // ----- the code -----

  class HostPool {
    const hosts: seq<Host>
    var deadHosts: set<Host>
    var lastI: nat

    ghost predicate Valid()
      reads this
    {
      lastI < |hosts|
    }

    constructor (hosts: seq<Host>)
      requires hosts != []
      ensures Valid() && this.hosts == hosts && deadHosts == {} && lastI == 0
    {
      this.hosts, deadHosts, lastI := hosts, {}, 0;
    }

    /** failed, and a probe that finds the host still dead. The turn passes the host over, as long as another
        is live. */
    method MarkDead(host: Host)
      requires Valid()
      modifies this`deadHosts
      ensures Valid() && deadHosts == old(deadHosts) + {host}
      ensures SomeLive(hosts, deadHosts) ==>
                forall s :: 0 <= s < |hosts| ==>
                  (s in Turn(Usable(hosts, deadHosts), lastI) <==> hosts[s] != host && hosts[s] !in old(deadHosts))
      ensures !SomeLive(hosts, deadHosts) ==>
                forall s :: 0 <= s < |hosts| ==> s in Turn(Usable(hosts, deadHosts), lastI)
    {
      deadHosts := deadHosts + {host};
      TurnHoldsAll(Usable(hosts, deadHosts), lastI);
    }

    /** A probe that finds the host back: its slots are in the turn again. */
    method MarkAlive(host: Host)
      requires Valid()
      modifies this`deadHosts
      ensures Valid() && deadHosts == old(deadHosts) - {host}
      ensures host in hosts ==>
                forall s :: 0 <= s < |hosts| ==>
                  (s in Turn(Usable(hosts, deadHosts), lastI) <==> hosts[s] == host || hosts[s] !in old(deadHosts))
    {
      deadHosts := deadHosts - {host};
      TurnHoldsAll(Usable(hosts, deadHosts), lastI);
      assert host in hosts ==> SomeLive(hosts, deadHosts);
    }

    /** get_host: the head of the turn, which then moves to its end. */
    method GetHost() returns (host: Host)
      requires Valid()
      modifies this`lastI
      ensures Valid()
      ensures var turn := Turn(Usable(hosts, deadHosts), old(lastI));
              && turn != [] && lastI == turn[0] && host == hosts[lastI]
              && Turn(Usable(hosts, deadHosts), lastI) == turn[1..] + [lastI]
    {
      ghost var usable := Usable(hosts, deadHosts);
      var firstI := lastI + 1;
      if firstI >= |hosts| {
        firstI := 0;
      }
      var i := 0;
      while i < |hosts|
        invariant i <= |hosts| && lastI == old(lastI)
        invariant forall k :: 0 <= k < i ==> hosts[Step(|hosts|, firstI, k)] in deadHosts
      {
        var j := i + firstI;
        if j >= |hosts| {
          j := j - |hosts|;
        }
        if hosts[j] !in deadHosts {
          TurnMovesOn(usable, lastI, i);
          lastI := j;
          return hosts[j];
        }
        i := i + 1;
      }
      NoneLive(hosts, deadHosts, firstI);
      TurnMovesOn(usable, lastI, 0);
      lastI := firstI;
      host := hosts[firstI];
    }
  }

  lemma NoneLive(hosts: seq<Host>, dead: set<Host>, first: nat)
    requires first < |hosts| && forall k :: 0 <= k < |hosts| ==> hosts[Step(|hosts|, first, k)] in dead
    ensures !SomeLive(hosts, dead)
  {
    forall s | 0 <= s < |hosts| ensures hosts[s] in dead {
      var k := if s >= first then s - first else s + |hosts| - first;
      assert Step(|hosts|, first, k) == s;
    }
  }
}
