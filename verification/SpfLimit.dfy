/**
 What the lookup limit of the SPF evaluator is worth. Section 10.1 of RFC 4408 lets one check make ten
 lookups; the code counts them in a number that every included object takes a copy of and never gives back.
 */
module SpfLimit {
  import opened Numbers
  import opened Spf

  // ----- what is counted, and where -----

  /** Between two states of one object: its own count tells the lookups, but for those counted inside. */
  predicate Accounted(s: State, t: State, included: bool) {
    t.spent.lookups - s.spent.lookups == t.spent.inner - s.spent.inner + if included then 0 else t.count - s.count
  }

  lemma {:induction false} HostAccounts(dns: Dns, domain: Domain, s: State, included: bool, depth: nat)
    ensures Accounted(s, Host(dns, domain, s, included, depth).state, included)
    decreases Room(s), 3, 0
  {
    var here := s.At(depth, domain);
    match dns(here.seen, included)
    case Record(mechs, mods) => MechsAccount(dns, mechs, mods, Step(None, here), included, depth);
    case _ =>
  }

  lemma {:induction false} MechsAccount(dns: Dns, mechs: seq<Mechanism>, mods: seq<Modifier>, r: Step, included: bool,
      depth: nat)
    ensures Accounted(r.state, Mechs(dns, mechs, mods, r, included, depth).state, included)
    decreases Room(r.state), 2, |mechs|
  {
    if r.state.count > LIMIT || r.result != None {
    } else if mechs == [] {
      ModsAccount(dns, mods, r, included, depth);
    } else {
      var m := mechs[0];
      if m.Include? && m.target !in r.state.beenThere {
        HostAccounts(dns, m.target, r.state.Visiting(m.target, included), true, depth + 1);
      }
      MechsAccount(dns, mechs[1..], mods, Mech(dns, m, r.state, included, depth), included, depth);
    }
  }

  lemma {:induction false} ModsAccount(dns: Dns, mods: seq<Modifier>, r: Step, included: bool, depth: nat)
    ensures Accounted(r.state, Mods(dns, mods, r, included, depth).state, included)
    decreases Room(r.state), 1, |mods|
  {
    if r.state.count > LIMIT || r.result != None || mods == [] {
    } else {
      var m := mods[0];
      if m.Redirect? && m.target !in r.state.beenThere {
        HostAccounts(dns, m.target, r.state.Visiting(m.target, included), included, depth + 1);
      }
      ModsAccount(dns, mods[1..], Mod(dns, m, r.state, included, depth), included, depth);
    }
  }

  lemma {:induction false} OverIsPermError(dns: Dns, mechs: seq<Mechanism>, mods: seq<Modifier>, r: Step,
      included: bool, depth: nat)
    ensures var r' := Mechs(dns, mechs, mods, r, included, depth);
            r'.state.count > LIMIT ==> r'.result == PermError
    decreases Room(r.state), |mechs|
  {
    if r.state.count > LIMIT || r.result != None {
    } else if mechs == [] {
      OverInMods(dns, mods, r, included, depth);
    } else {
      OverIsPermError(dns, mechs[1..], mods, Mech(dns, mechs[0], r.state, included, depth), included, depth);
    }
  }

  lemma {:induction false} OverInMods(dns: Dns, mods: seq<Modifier>, r: Step, included: bool, depth: nat)
    ensures var r' := Mods(dns, mods, r, included, depth);
            r'.state.count > LIMIT ==> r'.result == PermError
    decreases |mods|
  {
    if r.state.count > LIMIT || r.result != None || mods == [] {
    } else {
      OverInMods(dns, mods[1..], Mod(dns, mods[0], r.state, included, depth), included, depth);
    }
  }

  /** For every DNS: the limit sees the lookups counted outside the includes and no others. A check that goes
      over ten of those ends in PermError; it counts all lookups exactly when none is counted inside an
      include; and without PermError it goes over ten lookups exactly when those inside make up for what is
      left outside. That speaks of the run's own counts and is no condition on the zone: two such conditions are
      LimitHoldsForFlatIncludes and, for one family, MoreThanTenLookups. */
  lemma LimitSees(dns: Dns, domain: Domain)
    ensures var r := Check(dns, domain);
            && r.state.spent.lookups == r.state.count + r.state.spent.inner
            && (r.state.count == r.state.spent.lookups <==> r.state.spent.inner == 0)
            && (r.state.count > LIMIT ==> r.result == PermError)
            && (r.result != PermError ==>
                  (r.state.spent.lookups > LIMIT <==> r.state.spent.inner > LIMIT - r.state.count))
  {
    HostAccounts(dns, domain, FRESH, false, 0);
    var here := FRESH.At(0, domain);
    match dns(here.seen, false)
    case Record(mechs, mods) => OverIsPermError(dns, mechs, mods, Step(None, here), false, 0);
    case _ =>
  }

  // ----- zones for which ten is the limit -----

  /** A record that needs no lookup but its own. */
  predicate Flat(a: Answer) {
    a.Record? ==> (forall m :: m in a.mechs ==> m.All? || m.Ip?) && forall m :: m in a.mods ==> m.Exp?
  }

  ghost predicate FlatIncludes(dns: Dns) {
    forall seen :: Flat(dns(seen, true))
  }

  lemma {:induction false} FlatMechs(dns: Dns, mechs: seq<Mechanism>, mods: seq<Modifier>, r: Step, depth: nat)
    requires Flat(Record(mechs, mods))
    ensures Mechs(dns, mechs, mods, r, true, depth).state == r.state
    decreases |mechs|
  {
    if r.state.count > LIMIT || r.result != None {
    } else if mechs == [] {
      FlatMods(dns, mods, r, depth);
    } else {
      assert mechs[0] in mechs;
      FlatMechs(dns, mechs[1..], mods, Mech(dns, mechs[0], r.state, true, depth), depth);
    }
  }

  lemma {:induction false} FlatMods(dns: Dns, mods: seq<Modifier>, r: Step, depth: nat)
    requires forall m :: m in mods ==> m.Exp?
    ensures Mods(dns, mods, r, true, depth).state == r.state
    decreases |mods|
  {
    if r.state.count > LIMIT || r.result != None || mods == [] {
    } else {
      assert mods[0] in mods;
      FlatMods(dns, mods[1..], Mod(dns, mods[0], r.state, true, depth), depth);
    }
  }

  lemma {:induction false} FlatHost(dns: Dns, domain: Domain, s: State, included: bool, depth: nat)
    requires FlatIncludes(dns)
    ensures Host(dns, domain, s, included, depth).state.spent.inner == s.spent.inner
    decreases Room(s), 3, 0
  {
    var here := s.At(depth, domain);
    assert Flat(dns(here.seen, true));
    match dns(here.seen, included)
    case Record(mechs, mods) =>
      if included {
        FlatMechs(dns, mechs, mods, Step(None, here), depth);
      } else {
        OuterMechs(dns, mechs, mods, Step(None, here), depth);
      }
    case _ =>
  }

  lemma {:induction false} OuterMechs(dns: Dns, mechs: seq<Mechanism>, mods: seq<Modifier>, r: Step, depth: nat)
    requires FlatIncludes(dns)
    ensures Mechs(dns, mechs, mods, r, false, depth).state.spent.inner == r.state.spent.inner
    decreases Room(r.state), 2, |mechs|
  {
    if r.state.count > LIMIT || r.result != None {
    } else if mechs == [] {
      OuterMods(dns, mods, r, depth);
    } else {
      var m := mechs[0];
      if m.Include? && m.target !in r.state.beenThere {
        FlatHost(dns, m.target, r.state.Visiting(m.target, false), true, depth + 1);
      }
      OuterMechs(dns, mechs[1..], mods, Mech(dns, m, r.state, false, depth), depth);
    }
  }

  lemma {:induction false} OuterMods(dns: Dns, mods: seq<Modifier>, r: Step, depth: nat)
    requires FlatIncludes(dns)
    ensures Mods(dns, mods, r, false, depth).state.spent.inner == r.state.spent.inner
    decreases Room(r.state), 1, |mods|
  {
    if r.state.count > LIMIT || r.result != None || mods == [] {
    } else {
      var m := mods[0];
      if m.Redirect? && m.target !in r.state.beenThere {
        FlatHost(dns, m.target, r.state.Visiting(m.target, false), false, depth + 1);
      }
      OuterMods(dns, mods[1..], Mod(dns, m, r.state, false, depth), depth);
    }
  }

  /** Where the records included need no lookups, ten is the limit of the whole check. */
  lemma LimitHoldsForFlatIncludes(dns: Dns, domain: Domain)
    requires FlatIncludes(dns)
    ensures Check(dns, domain).state.spent.lookups > LIMIT ==> Check(dns, domain).result == PermError
  {
    FlatHost(dns, domain, FRESH, false, 0);
    LimitSees(dns, domain);
  }

  // ----- zones for which it is not -----

  function Plain(n: nat): seq<Mechanism> {
    if n == 0 then [] else [Lookup(None)] + Plain(n - 1)
  }

  function Looked(s: State, n: nat, included: bool): State {
    s.(count := s.count + n, spent := Spent(s.spent.lookups + n, s.spent.inner + if included then n else 0))
  }

  lemma {:induction false} PlainRun(dns: Dns, n: nat, s: State, included: bool, depth: nat)
    requires s.count <= LIMIT
    ensures var r := Mechs(dns, Plain(n), [], Step(None, s), included, depth);
            if s.count + n <= LIMIT then r == Step(Neutral, Looked(s, n, included)) else r.result == PermError
    decreases n
  {
    if n > 0 && s.count < LIMIT {
      assert Plain(n)[1..] == Plain(n - 1);
      PlainRun(dns, n - 1, s.Counted(included), included, depth);
    }
  }

  lemma IncludePlain(dns: Dns, q: Qualifier, target: Domain, n: nat, s: State)
    requires s.count < LIMIT && target !in s.beenThere
    requires dns(s.seen + [target], true) == Record(Plain(n), [])
    ensures var inner := s.Visiting(target, false).At(1, target);
            var m := Mech(dns, Include(q, target), s, false, 0);
            if inner.count + n <= LIMIT then m == Step(None, Looked(inner, n, true).(count := inner.count))
            else m.result == PermError
  {
    PlainRun(dns, n, s.Visiting(target, false).At(1, target), true, 1);
  }

  lemma FirstOf(dns: Dns, m: Mechanism, more: seq<Mechanism>, s: State, included: bool, depth: nat)
    requires s.count <= LIMIT
    ensures Mechs(dns, [m] + more, [], Step(None, s), included, depth) ==
            Mechs(dns, more, [], Mech(dns, m, s, included, depth), included, depth)
  {
    assert ([m] + more)[1..] == more;
  }

  lemma IncludeThenPlain(dns: Dns, q: Qualifier, target: Domain, j: nat, k: nat, s: State)
    requires s.count == 0 && target !in s.beenThere
    requires dns(s.seen + [target], true) == Record(Plain(k), [])
    ensures var r := Mechs(dns, [Include(q, target)] + Plain(j), [], Step(None, s), false, 0);
            if j <= 9 && k <= 9 then
              r.result == Neutral && r.state.spent == Spent(s.spent.lookups + 1 + j + k, s.spent.inner + k)
            else r.result == PermError
  {
    IncludePlain(dns, q, target, k, s);
    FirstOf(dns, Include(q, target), Plain(j), s, false, 0);
    if k <= 9 {
      PlainRun(dns, j, Mech(dns, Include(q, target), s, false, 0).state, false, 0);
    }
  }

  /** A family of zones: `a` includes `b`, which makes `k` lookups, and makes `j` more itself. It passes over
      more than ten lookups exactly when k and j are at most nine and their sum is more. */
  lemma MoreThanTenLookups(dns: Dns, a: Domain, q: Qualifier, b: Domain, j: nat, k: nat)
    requires dns([a], false) == Record([Include(q, b)] + Plain(j), [])
    requires dns([a, b], true) == Record(Plain(k), [])
    ensures var r := Check(dns, a);
            && (r.result == PermError <==> j > 9 || k > 9)
            && (r.result != PermError ==> r.result == Neutral && r.state.spent == Spent(1 + j + k, k))
            && (r.result != PermError && r.state.spent.lookups > LIMIT <==> j <= 9 && k <= 9 && j + k > 9)
  {
    var s := FRESH.At(0, a);
    assert s.seen == [a] && s.seen + [b] == [a, b];
    IncludeThenPlain(dns, q, b, j, k, s);
  }

  // ----- the most lookups there can be -----

  /** The lookups still to come are fewer than this for any result, and for one that is not PermError. */
  function Budget(count: nat): nat {
    if count > LIMIT + 1 then 1 else Pow2(LIMIT + 1 - count)
  }

  function PassBudget(count: nat): nat {
    if count > LIMIT then 1 else Pow2(LIMIT - count)
  }

  predicate WithinBudget(s: State, r: Step) {
    && r.state.count <= LIMIT + 1
    && r.state.spent.lookups + Budget(r.state.count) <= s.spent.lookups + Budget(s.count)
    && (r.result != PermError && r.state.count <= LIMIT ==>
          r.state.spent.lookups + PassBudget(r.state.count) <= s.spent.lookups + PassBudget(s.count))
  }

  lemma {:induction false} HostSpends(dns: Dns, domain: Domain, s: State, included: bool, depth: nat)
    requires s.count <= LIMIT + 1
    ensures var r := Host(dns, domain, s, included, depth);
            WithinBudget(s, r) && (r.result != PermError && s.count <= LIMIT ==> r.state.count <= LIMIT)
    decreases Room(s), 3, 0
  {
    var here := s.At(depth, domain);
    match dns(here.seen, included)
    case Record(mechs, mods) =>
      MechsSpend(dns, mechs, mods, Step(None, here), included, depth);
      OverIsPermError(dns, mechs, mods, Step(None, here), included, depth);
    case _ =>
  }

  lemma {:induction false} MechsSpend(dns: Dns, mechs: seq<Mechanism>, mods: seq<Modifier>, r: Step, included: bool,
      depth: nat)
    requires r.state.count <= LIMIT + 1
    ensures WithinBudget(r.state, Mechs(dns, mechs, mods, r, included, depth))
    decreases Room(r.state), 2, |mechs|
  {
    if r.state.count > LIMIT || r.result != None {
    } else if mechs == [] {
      ModsSpend(dns, mods, r, included, depth);
    } else {
      MechSpends(dns, mechs[0], r.state, included, depth);
      MechsSpend(dns, mechs[1..], mods, Mech(dns, mechs[0], r.state, included, depth), included, depth);
    }
  }

  lemma {:induction false} MechSpends(dns: Dns, m: Mechanism, s: State, included: bool, depth: nat)
    requires s.count <= LIMIT
    ensures WithinBudget(s, Mech(dns, m, s, included, depth))
    decreases Room(s), 0, 0
  {
    OneHalves(s.count);
    if m.Include? && m.target !in s.beenThere {
      HostSpends(dns, m.target, s.Visiting(m.target, included), true, depth + 1);
    }
  }

  /** A lookup halves what is left, because an included object counts on from a copy. */
  lemma OneHalves(count: nat)
    requires count <= LIMIT
    ensures Budget(count) == 2 * Budget(count + 1)
    ensures count < LIMIT ==> PassBudget(count) == 2 * PassBudget(count + 1)
  {
  }

  lemma {:induction false} ModsSpend(dns: Dns, mods: seq<Modifier>, r: Step, included: bool, depth: nat)
    requires r.state.count <= LIMIT + 1
    ensures WithinBudget(r.state, Mods(dns, mods, r, included, depth))
    decreases Room(r.state), 1, |mods|
  {
    if r.state.count > LIMIT || r.result != None || mods == [] {
    } else {
      ModSpends(dns, mods[0], r.state, included, depth);
      ModsSpend(dns, mods[1..], Mod(dns, mods[0], r.state, included, depth), included, depth);
    }
  }

  lemma {:induction false} ModSpends(dns: Dns, m: Modifier, s: State, included: bool, depth: nat)
    requires s.count <= LIMIT
    ensures WithinBudget(s, Mod(dns, m, s, included, depth))
    decreases Room(s), 0, 0
  {
    OneHalves(s.count);
    if m.Redirect? && m.target !in s.beenThere {
      HostSpends(dns, m.target, s.Visiting(m.target, included), included, depth + 1);
    }
  }

  /** For every DNS: a check counts fewer than 2^11 lookups, and fewer than 2^10 unless it ends in
      PermError. */
  lemma LookupsAreBounded(dns: Dns, domain: Domain)
    ensures Check(dns, domain).state.spent.lookups < Pow2(LIMIT + 1)
    ensures Check(dns, domain).result != PermError ==> Check(dns, domain).state.spent.lookups < Pow2(LIMIT)
  {
    HostSpends(dns, domain, FRESH, false, 0);
    LimitSees(dns, domain);
  }

  // ----- a zone that reaches the bound -----

  function Weight(c: char): nat {
    if 'a' <= c <= 'j' then c as int - 'a' as int + 1 else 0
  }

  function Letter(i: nat): (c: char)
    requires 1 <= i <= LIMIT
    ensures Weight(c) == i
  {
    ('a' as int + i - 1) as char
  }

  function Sum(d: Domain): nat {
    if d == "" then 0 else Sum(d[..|d| - 1]) + Weight(d[|d| - 1])
  }

  /** A record that includes the names of `d` with one letter more, up to the weight the limit leaves. */
  function Kids(d: Domain, i: nat): seq<Mechanism>
    requires i >= 1
    decreases LIMIT + 1 - i
  {
    if Sum(d) + i > LIMIT then [] else [Include(Plus, d + [Letter(i)])] + Kids(d, i + 1)
  }

  function Tree(seen: seq<Domain>, included: bool): Answer {
    if seen == [] then NoRecord else Record(Kids(seen[|seen| - 1], 1), [])
  }

  /** No name below `d` whose next letter weighs `i` or more has been visited. */
  predicate Fresh(visited: set<Domain>, d: Domain, i: nat) {
    forall t :: t in visited && d < t ==> Weight(t[|d|]) < i
  }

  /** What has been visited since lies below `d`, from the letter of weight `i` on. */
  predicate Below(visited: set<Domain>, visited': set<Domain>, d: Domain, i: nat) {
    forall t :: t in visited' && t !in visited ==> d < t && Weight(t[|d|]) >= i
  }

  predicate Grown(s: State, r: Step, d: Domain, i: nat) {
    && r.result == Neutral
    && r.state.spent.lookups + 1 == s.spent.lookups + PassBudget(s.count)
    && Below(s.beenThere, r.state.beenThere, d, i)
  }

  function Kid(d: Domain, i: nat): Domain
    requires 1 <= i <= LIMIT
  {
    d + [Letter(i)]
  }

  lemma KidBelow(d: Domain, i: nat, t: Domain)
    requires 1 <= i <= LIMIT && Kid(d, i) <= t
    ensures d < t && Weight(t[|d|]) == i
  {
    assert t[|d|] == Kid(d, i)[|d|];
  }

  lemma KidFresh(visited: set<Domain>, d: Domain, i: nat)
    requires 1 <= i <= LIMIT && Fresh(visited, d, i)
    ensures Kid(d, i) !in visited && Fresh(visited + {Kid(d, i)}, Kid(d, i), 1)
  {
    forall t | Kid(d, i) <= t ensures d < t && Weight(t[|d|]) == i {
      KidBelow(d, i, t);
    }
  }

  /** The names below one letter leave those from the next letter on unvisited. */
  lemma NextFresh(visited: set<Domain>, visited': set<Domain>, d: Domain, i: nat)
    requires 1 <= i <= LIMIT && Fresh(visited, d, i)
    requires Below(visited + {Kid(d, i)}, visited', Kid(d, i), 1)
    ensures Fresh(visited', d, i + 1) && Below(visited, visited', d, i)
  {
    forall t | t in visited' && t !in visited ensures d < t && Weight(t[|d|]) == i {
      KidBelow(d, i, t);
    }
  }

  lemma SumSnoc(d: Domain, c: char)
    ensures Sum(d + [c]) == Sum(d) + Weight(c)
  {
    assert (d + [c])[..|d|] == d;
  }

  lemma {:induction false} TreeHost(d: Domain, s: State, included: bool, depth: nat)
    requires s.count == Sum(d) <= LIMIT && Fresh(s.beenThere, d, 1)
    ensures Grown(s, Host(Tree, d, s, included, depth), d, 1)
    decreases LIMIT - Sum(d), LIMIT + 1
  {
    KidsRun(d, 1, s.At(depth, d), included, depth);
  }

  lemma {:induction false} KidsRun(d: Domain, i: nat, s: State, included: bool, depth: nat)
    requires i >= 1 && s.count + 1 == Sum(d) + i <= LIMIT + 1 && Fresh(s.beenThere, d, i)
    ensures Grown(s, Mechs(Tree, Kids(d, i), [], Step(None, s), included, depth), d, i)
    decreases LIMIT - Sum(d), LIMIT + 1 - i
  {
    if s.count < LIMIT {
      var m := KidRun(d, i, s, included, depth);
      KidsRun(d, i + 1, m, included, depth);
      assert Kids(d, i)[1..] == Kids(d, i + 1);
      OneHalves(s.count);
    }
  }

  lemma {:induction false} KidRun(d: Domain, i: nat, s: State, included: bool, depth: nat) returns (m: State)
    requires i >= 1 && s.count + 1 == Sum(d) + i <= LIMIT && Fresh(s.beenThere, d, i)
    ensures Mech(Tree, Include(Plus, Kid(d, i)), s, included, depth) == Step(None, m)
    ensures m.count == s.count + 1 && m.spent.lookups == s.spent.lookups + PassBudget(s.count + 1)
    ensures Fresh(m.beenThere, d, i + 1) && Below(s.beenThere, m.beenThere, d, i)
    decreases LIMIT - Sum(d), LIMIT + 1 - i, 0
  {
    SumSnoc(d, Letter(i));
    KidFresh(s.beenThere, d, i);
    TreeHost(Kid(d, i), s.Visiting(Kid(d, i), included), true, depth + 1);
    m := Mech(Tree, Include(Plus, Kid(d, i)), s, included, depth).state;
    NextFresh(s.beenThere, m.beenThere, d, i);
  }

  /** The bound is reached: a zone that gives Neutral after 2^10 - 1 lookups. */
  lemma MostLookups()
    ensures Check(Tree, "z").result == Neutral && Check(Tree, "z").state.spent.lookups == Pow2(LIMIT) - 1
  {
    SumSnoc("", 'z');
    assert "" + ['z'] == "z";
    TreeHost("z", FRESH, false, 0);
  }
}
