/**
 The rolling restart of a cluster (email/server.js, _graceful): every worker is disconnected and replaced,
 no more than a limit of them at a time. With two or more workers one is always listening.
 */
module RollingRestart {

  /** Old: not yet asked to go. Replacing: gone or going, and its replacement not yet listening. */
  datatype Worker = Old | Replacing | New

  function Count(s: seq<Worker>, w: Worker): nat {
    if s == [] then 0 else Count(s[..|s| - 1], w) + if s[|s| - 1] == w then 1 else 0
  }

  /** Workers that take connections. */
  function Up(s: seq<Worker>): nat {
    Count(s, Old) + Count(s, New)
  }

  function Limit(workers: nat): nat {
    if workers - 1 < 2 then 1 else workers - 1
  }

  lemma {:induction false} CountSet(s: seq<Worker>, i: nat, w: Worker, x: Worker)
    requires i < |s|
    ensures Count(s[i := w], x) == Count(s, x) - (if s[i] == x then 1 else 0) + (if w == x then 1 else 0)
  {
    var n := |s| - 1;
    if i < n {
      CountSet(s[..n], i, w, x);
      assert s[i := w][..n] == s[..n][i := w];
    } else {
      assert s[i := w][..n] == s[..n];
    }
  }

  lemma {:induction false} CountAll(s: seq<Worker>)
    ensures Count(s, Old) + Count(s, Replacing) + Count(s, New) == |s|
    ensures forall w :: Count(s, w) > 0 <==> w in s
  {
    if s != [] {
      CountAll(s[..|s| - 1]);
      assert s == s[..|s| - 1] + [s[|s| - 1]];
    }
  }

  class Server {
    var inProgress: bool             // gracefull_in_progress
    var workers: seq<Worker>
    var next: nat                    // async.eachLimit has started this many
    var restarts: nat                // restarts completed

    ghost predicate Valid()
      reads this
    {
      && next <= |workers|
      && (forall i :: next <= i < |workers| ==> workers[i] == Old)
      && (forall i :: 0 <= i < next ==> workers[i] != Old)
      && Count(workers, Replacing) <= Limit(|workers|)
      && (!inProgress ==> next == 0)
    }

    constructor (n: nat)
      ensures Valid() && |workers| == n && !inProgress && restarts == 0
    {
      inProgress, workers, next, restarts := false, seq(n, i => Old), 0, 0;
      new;
      NoneReplacing(workers);
    }

    /** A request to restart; one that comes during a restart is ignored. A single worker leaves a gap. */
    method Graceful()
      requires Valid()
      modifies this
      ensures Valid() && |workers| == |old(workers)|
      ensures old(inProgress) ==> workers == old(workers) && next == old(next) && restarts == old(restarts)
      ensures !old(inProgress) && |workers| == 1 ==> Up(workers) == 0
    {
      if inProgress { return; }
      inProgress := true;
      NoneReplacing(workers);
      StartMore();
      CountAll(workers);
    }

    /** async.eachLimit: as many as the limit allows are under way. */
    method StartMore()
      requires Valid() && inProgress
      modifies this`workers, this`next, this`inProgress, this`restarts
      ensures Valid() && |workers| == |old(workers)|
      ensures old(next < |workers| && Count(workers, Replacing) < Limit(|workers|)) ==>
              inProgress && Count(workers, Replacing) > 0
      ensures inProgress ==> next == |workers| || Count(workers, Replacing) == Limit(|workers|)
      ensures !inProgress <==> forall i :: 0 <= i < |workers| ==> old(workers)[i] == New
      ensures restarts == old(restarts) + if inProgress then 0 else 1
    {
      while next < |workers| && Count(workers, Replacing) < Limit(|workers|)
        invariant Valid() && inProgress && |workers| == |old(workers)| && restarts == old(restarts)
        invariant next >= old(next)
        invariant if next == old(next) then workers == old(workers) else Count(workers, Replacing) > 0
        decreases |workers| - next
      {
        CountSet(workers, next, Replacing, Replacing);
        workers := workers[next := Replacing];
        next := next + 1;
      }
      CountAll(workers);
      if next == |workers| && Count(workers, Replacing) == 0 {
        // the final callback; the replacements are the workers of the next restart
        NoneReplacing(seq(|workers|, i => Old));
        workers, next := seq(|workers|, i => Old), 0;
        inProgress := false;
        restarts := restarts + 1;
      }
    }

    /** The replacement of worker k is listening. */
    method Listening(k: nat)
      requires Valid() && inProgress && k < |workers| && workers[k] == Replacing
      modifies this`workers, this`next, this`inProgress, this`restarts
      ensures Valid() && |workers| == |old(workers)|
      ensures !inProgress <==> forall i :: 0 <= i < |workers| && i != k ==> old(workers)[i] == New
      ensures restarts == old(restarts) + if inProgress then 0 else 1
    {
      CountSet(workers, k, New, Replacing);
      workers := workers[k := New];
      ghost var replaced := workers;
      StartMore();
      assert forall i :: 0 <= i < |replaced| && i != k ==> replaced[i] == old(workers)[i];
    }
  }

  lemma {:induction false} NoneReplacing(s: seq<Worker>)
    requires forall i :: 0 <= i < |s| ==> s[i] == Old
    ensures Count(s, Replacing) == 0
  {
    if s != [] {
      NoneReplacing(s[..|s| - 1]);
    }
  }

  /** In every state of a restart of two or more workers at least one is up. */
  lemma OneIsUp(s: Server)
    requires s.Valid() && |s.workers| >= 2
    ensures Up(s.workers) >= 1
  {
    CountAll(s.workers);
  }
}
