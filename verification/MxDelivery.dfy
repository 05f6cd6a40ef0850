/**
 Which hosts a delivery tries (email/outbound/hmail.js: sort_mx, try_deliver, try_deliver_host): the MX
 records by priority, equal ones in random order, and the addresses of each in turn, until a host takes the
 message or all have been tried.
 */
module MxDelivery {
  import Bytes

  /** A record with the address family to look up; with IPv6 found_mx lists each record twice. */
  datatype Mx = Mx(priority: int, exchange: string, family: string)

  // ----- sort_mx -----

  predicate Ascending(s: seq<Mx>) {
    forall i, j :: 0 <= i < j < |s| ==> s[i].priority <= s[j].priority
  }

  function Insert(m: Mx, s: seq<Mx>): seq<Mx> {
    if s == [] || s[|s| - 1].priority <= m.priority then s + [m]
    else Insert(m, s[..|s| - 1]) + [s[|s| - 1]]
  }

  /** Array.sort by priority, which is stable. */
  function ByPriority(s: seq<Mx>): seq<Mx> {
    if s == [] then [] else Insert(s[|s| - 1], ByPriority(s[..|s| - 1]))
  }

  lemma {:induction false} InsertKeeps(m: Mx, s: seq<Mx>)
    requires Ascending(s)
    ensures Ascending(Insert(m, s)) && multiset(Insert(m, s)) == multiset(s) + multiset{m}
    ensures |Insert(m, s)| == |s| + 1
    ensures forall x :: x in Insert(m, s) ==> x in s || x == m
  {
    if s == [] || s[|s| - 1].priority <= m.priority {
      AscendingSnoc(s, m);
    } else {
      var init, last := s[..|s| - 1], s[|s| - 1];
      Bytes.SplitLast(s);
      InsertKeeps(m, init);
      AscendingSnoc(Insert(m, init), last);
    }
  }

  lemma AscendingSnoc(s: seq<Mx>, last: Mx)
    requires Ascending(s) && forall x :: x in s ==> x.priority <= last.priority
    ensures Ascending(s + [last])
  {
  }

  lemma {:induction false} ByPriorityIs(s: seq<Mx>)
    ensures Ascending(ByPriority(s)) && multiset(ByPriority(s)) == multiset(s) && |ByPriority(s)| == |s|
  {
    hide Insert;
    if s != [] {
      var init := s[..|s| - 1];
      ByPriorityIs(init);
      InsertKeeps(s[|s| - 1], ByPriority(init));
      assert s == init + [s[|s| - 1]];
    }
  }

  function Swapped(s: seq<Mx>, i: nat): seq<Mx>
    requires i + 1 < |s|
  {
    s[i := s[i + 1]][i + 1 := s[i]]
  }

  lemma SwapKeeps(s: seq<Mx>, i: nat)
    requires i + 1 < |s| && Ascending(s) && s[i].priority == s[i + 1].priority
    ensures multiset(Swapped(s, i)) == multiset(s) && Ascending(Swapped(s, i))
  {
    var t := Swapped(s, i);
    assert forall k :: 0 <= k < |s| ==> t[k].priority == s[k].priority;
    SwapIsPermutation(s, i);
  }

  lemma SwapIsPermutation(s: seq<Mx>, i: nat)
    requires i + 1 < |s|
    ensures multiset(Swapped(s, i)) == multiset(s)
  {
    var a, b := s[..i], s[i + 2..];
    assert s == a + [s[i], s[i + 1]] + b;
    assert Swapped(s, i) == a + [s[i + 1], s[i]] + b;
  }

  /** Whatever the coins say, the records stay the same and in the order of their priorities. */
  method SortMx(mxList: seq<Mx>, coins: seq<bool>) returns (sorted: seq<Mx>)
    requires |coins| >= |mxList|
    ensures Ascending(sorted) && multiset(sorted) == multiset(mxList)
  {
    sorted := ByPriority(mxList);
    ByPriorityIs(mxList);
    var i := 0;
    while i < |sorted| - 1
      invariant 0 <= i
      invariant Ascending(sorted) && |sorted| == |mxList| && multiset(sorted) == multiset(mxList)
    {
      if sorted[i].priority == sorted[i + 1].priority {
        if coins[i] {
          SwapKeeps(sorted, i);
          var j := sorted[i];
          sorted := sorted[i := sorted[i + 1]];
          sorted := sorted[i + 1 := j];
        }
      }
      i := i + 1;
    }
  }

  // ----- the hosts tried -----

  type Address = string

  datatype Attempt = Attempt(mx: Mx, address: Address)

  function OnMx(mx: Mx, addresses: seq<Address>): seq<Attempt> {
    if addresses == [] then [] else [Attempt(mx, addresses[0])] + OnMx(mx, addresses[1..])
  }

  /** Every address of every MX, in order; one whose lookup fails or finds nothing has none. */
  function Plan(mxList: seq<Mx>, lookup: Mx -> seq<Address>): seq<Attempt> {
    if mxList == [] then [] else OnMx(mxList[0], lookup(mxList[0])) + Plan(mxList[1..], lookup)
  }

  /** Trying: a connection or a session with the newest attempt is under way. */
  datatype Stage = Trying | Taken | TempFailed

  class HMail {
    const lookup: Mx -> seq<Address>
    var mxList: seq<Mx>
    var hostList: seq<Address>
    var mx: Mx
    var stage: Stage
    var attempts: seq<Attempt>
    var tempFails: nat
    ghost const plan: seq<Attempt>

    /** What has been tried and what is left make the plan. */
    ghost predicate Valid()
      reads this
    {
      && plan == attempts + (OnMx(mx, hostList) + Plan(mxList, lookup))
      && (stage == Trying ==> attempts != [] && tempFails == 0)
      && (stage == TempFailed <==> tempFails == 1) && tempFails <= 1
      && (stage == TempFailed ==> attempts == plan)
    }

    constructor (mxList: seq<Mx>, lookup: Mx -> seq<Address>)
      ensures Valid() && plan == Plan(mxList, lookup)
      ensures stage == if plan == [] then TempFailed else Trying
    {
      this.mxList, this.lookup, plan := mxList, lookup, Plan(mxList, lookup);
      hostList, mx, stage, attempts, tempFails := [], Mx(0, "", ""), Trying, [], 0;
      new;
      Bytes.AppendAssoc(attempts, OnMx(mx, hostList), plan);
      TryDeliver();
    }

    /** try_deliver: the next MX that has an address, or no more. */
    method TryDeliver()
      requires hostList == [] && tempFails == 0
      requires plan == attempts + (OnMx(mx, hostList) + Plan(mxList, lookup))
      modifies this`mxList, this`hostList, this`mx, this`stage, this`attempts, this`tempFails
      ensures Valid()
      ensures if attempts == old(attempts) then stage == TempFailed
              else stage == Trying && |attempts| == |old(attempts)| + 1
      decreases |mxList|, 0
    {
      if |mxList| == 0 {
        stage, tempFails := TempFailed, tempFails + 1;
        return;
      }
      mx := mxList[0];
      mxList := mxList[1..];
      hostList := lookup(mx);
      Bytes.AppendAssoc(attempts, OnMx(mx, hostList), Plan(mxList, lookup));
      TryDeliverHost();
    }

    /** try_deliver_host. */
    method TryDeliverHost()
      requires tempFails == 0
      requires plan == attempts + (OnMx(mx, hostList) + Plan(mxList, lookup))
      modifies this`mxList, this`hostList, this`mx, this`stage, this`attempts, this`tempFails
      ensures Valid()
      ensures if attempts == old(attempts) then stage == TempFailed
              else stage == Trying && |attempts| == |old(attempts)| + 1
      decreases |mxList|, 1
    {
      if |hostList| == 0 {
        TryDeliver();
        return;
      }
      var host := hostList[0];
      hostList := hostList[1..];
      Bytes.AppendAssoc(attempts, [Attempt(mx, host)], OnMx(mx, hostList) + Plan(mxList, lookup));
      Bytes.AppendAssoc([Attempt(mx, host)], OnMx(mx, hostList), Plan(mxList, lookup));
      attempts := attempts + [Attempt(mx, host)];
      stage := Trying;
    }

    /** No connection, or a session that ends with the verdict to try the next host. */
    method NextHost()
      requires Valid() && stage == Trying
      modifies this`mxList, this`hostList, this`mx, this`stage, this`attempts, this`tempFails
      ensures Valid()
      ensures if old(attempts) == plan then attempts == plan && stage == TempFailed
              else stage == Trying && attempts == plan[..|old(attempts)| + 1]
    {
      TryDeliverHost();
      assert attempts == plan[..|attempts|];
    }

    method Take()
      requires Valid() && stage == Trying
      modifies this`stage
      ensures Valid() && stage == Taken
    {
      stage := Taken;
    }
  }

  /** In every state the hosts tried are the first of the plan, each once; the message is deferred for want
      of hosts exactly when all have been tried in vain, and then once. */
  lemma TriesInOrder(h: HMail)
    requires h.Valid()
    ensures h.attempts <= h.plan
    ensures h.stage == TempFailed ==> h.attempts == h.plan && h.tempFails == 1
    ensures h.stage != TempFailed ==> h.tempFails == 0
  {
  }
}
