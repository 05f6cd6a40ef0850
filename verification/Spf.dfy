/**
 The SPF evaluator (email/spf.js). Records may include and redirect to one another in any way, so what
 ends an evaluation is a counter, copied into every object that `include` makes, and a set of targets
 already visited, shared by all of them.
 The DNS is arbitrary: an answer may depend on every record looked up before.
 */
module Spf {
  import opened Numbers

  type Domain = string

  datatype Result = None | Pass | Fail | SoftFail | Neutral | TempError | PermError

  datatype Qualifier = Plus | Minus | Tilde | Question

  function ReturnConst(q: Qualifier): Result {
    match q
    case Plus => Pass
    case Minus => Fail
    case Tilde => SoftFail
    case Question => Neutral
  }

  /** Lookup stands for a, mx, ptr and exists, Ip for ip4 and ip6, each with the result its own lookups
      and comparisons give. */
  datatype Mechanism =
    | All(q: Qualifier) | Include(q: Qualifier, target: Domain) | Lookup(found: Result) | Ip(found: Result)

  datatype Modifier = Redirect(target: Domain) | Exp

  datatype Answer =
    | NoRecord
    | LookupFailed
    | Refused                        // two SPF records, or one with a syntax error
    | Record(mechs: seq<Mechanism>, mods: seq<Modifier>)

  /** The answer to the last of the lookups made. `included` tells an object made by `include`, which does
      not know the HELO name that macros may ask for. */
  type Dns = (seq<Domain>, bool) -> Answer

  const LIMIT := 10

  datatype Spent = Spent(lookups: nat, inner: nat)

  /** `count` belongs to one object; the rest is shared. The last four record the run: the records looked
      up, the lookups that counted, those of them that counted in an object made by include, and the
      deepest nesting of include and redirect. */
  datatype State = State(count: nat, beenThere: set<Domain>, seen: seq<Domain>, spent: Spent, deepest: nat)
  {
    function Counted(included: bool): State {
      this.(count := count + 1, spent := Spent(spent.lookups + 1, spent.inner + One(included)))
    }

    function Visiting(target: Domain, included: bool): State {
      Counted(included).(beenThere := beenThere + {target})
    }

    function At(depth: nat, domain: Domain): State {
      this.(seen := seen + [domain], deepest := if depth > deepest then depth else deepest)
    }
  }

  datatype Step = Step(result: Result, state: State)

  /** What include makes of the result of the record included. Its qualifier plays no part. */
  function OfInclude(r: Result): Result {
    match r
    case Pass => Pass
    case Fail | SoftFail | Neutral => None
    case TempError => TempError
    case None | PermError => PermError
  }

  function Room(s: State): nat {
    if s.count > LIMIT then 0 else LIMIT + 1 - s.count
  }

  // ----- evaluation as a function -----

  /** check_host. */
  function Host(dns: Dns, domain: Domain, s: State, included: bool, depth: nat): (r: Step)
    ensures r.state.count >= s.count
    decreases Room(s), 3, 0
  {
    var here := s.At(depth, domain);
    match dns(here.seen, included)
    case NoRecord => Step(None, here)
    case LookupFailed => Step(TempError, here)
    case Refused => Step(PermError, here)
    case Record(mechs, mods) => Mechs(dns, mechs, mods, Step(None, here), included, depth)
  }

  /** mech_chain_caller, on the result of the mechanism before. */
  function Mechs(dns: Dns, mechs: seq<Mechanism>, mods: seq<Modifier>, r: Step, included: bool, depth: nat): (r': Step)
    ensures r'.state.count >= r.state.count
    decreases Room(r.state), 2, |mechs|
  {
    if r.state.count > LIMIT then Step(PermError, r.state)
    else if r.result != None then r
    else if mechs == [] then Mods(dns, mods, r, included, depth)
    else Mechs(dns, mechs[1..], mods, Mech(dns, mechs[0], r.state, included, depth), included, depth)
  }

  function Mech(dns: Dns, m: Mechanism, s: State, included: bool, depth: nat): (r: Step)
    requires s.count <= LIMIT
    ensures r.state.count >= s.count
    decreases Room(s), 0, 0
  {
    match m
    case All(q) => Step(ReturnConst(q), s)
    case Ip(found) => Step(found, s)
    case Lookup(found) => Step(found, s.Counted(included))
    case Include(_, target) =>
      if target in s.beenThere then Step(None, s)
      else
        var r := Host(dns, target, s.Visiting(target, included), true, depth + 1);
        Step(OfInclude(r.result), r.state.(count := s.count + 1))
  }

  /** mod_chain_caller. */
  function Mods(dns: Dns, mods: seq<Modifier>, r: Step, included: bool, depth: nat): (r': Step)
    ensures r'.state.count >= r.state.count
    decreases Room(r.state), 1, |mods|
  {
    if r.state.count > LIMIT then Step(PermError, r.state)
    else if r.result != None then r
    else if mods == [] then Step(Neutral, r.state)
    else Mods(dns, mods[1..], Mod(dns, mods[0], r.state, included, depth), included, depth)
  }

  function Mod(dns: Dns, m: Modifier, s: State, included: bool, depth: nat): (r: Step)
    requires s.count <= LIMIT
    ensures r.state.count >= s.count
    decreases Room(s), 0, 0
  {
    match m
    case Exp => Step(None, s)
    case Redirect(target) =>
      if target in s.beenThere then Step(None, s)
      else Host(dns, target, s.Visiting(target, included), included, depth + 1)
  }

  const FRESH := State(0, {}, [], Spent(0, 0), 0)

  /** A check from the start. */
  function Check(dns: Dns, domain: Domain): Step {
    Host(dns, domain, FRESH, false, 0)
  }

  // ----- the code -----

  /** The object all SPF objects of one check share; the ghost fields record the run. */
  class BeenThere {
    var domains: set<Domain>
    var seen: seq<Domain>            // the records asked for
    ghost var spent: Spent
    ghost var deepest: nat

    constructor ()
      ensures domains == {} && seen == [] && spent == Spent(0, 0) && deepest == 0
    {
      domains, seen, spent, deepest := {}, [], Spent(0, 0), 0;
    }
  }

  class SPF {
    const dns: Dns
    const included: bool
    var count: nat
    const beenThere: BeenThere

    constructor (dns: Dns, count: nat, beenThere: BeenThere, included: bool)
      ensures this.dns == dns && this.count == count && this.beenThere == beenThere && this.included == included
    {
      this.dns, this.count, this.beenThere, this.included := dns, count, beenThere, included;
    }

    ghost function Value(): State
      reads this`count, beenThere
    {
      State(count, beenThere.domains, beenThere.seen, beenThere.spent, beenThere.deepest)
    }

    method CheckHost(domain: Domain, ghost depth: nat) returns (result: Result)
      modifies this`count, beenThere
      ensures Step(result, Value()) == Host(dns, domain, old(Value()), included, depth)
      decreases Room(Value()), 3, 0
    {
      beenThere.seen := beenThere.seen + [domain];
      beenThere.deepest := if depth > beenThere.deepest then depth else beenThere.deepest;
      match dns(beenThere.seen, included) {
        case NoRecord => result := None;
        case LookupFailed => result := TempError;
        case Refused => result := PermError;
        case Record(mechs, mods) => result := MechChain(mechs, mods, None, depth);
      }
    }

    method MechChain(mechs: seq<Mechanism>, mods: seq<Modifier>, result: Result, ghost depth: nat)
      returns (final: Result)
      modifies this`count, beenThere
      ensures Step(final, Value()) == Mechs(dns, mechs, mods, Step(result, old(Value())), included, depth)
      decreases Room(Value()), 2, |mechs|
    {
      if count > LIMIT { return PermError; }
      if result != None { return result; }
      if mechs == [] {
        if mods != [] {
          final := ModChain(mods, result, depth);
        } else {
          final := Neutral;
        }
        return;
      }
      var next := RunMechanism(mechs[0], depth);
      final := MechChain(mechs[1..], mods, next, depth);
    }

    method RunMechanism(m: Mechanism, ghost depth: nat) returns (result: Result)
      requires count <= LIMIT
      modifies this`count, beenThere
      ensures Step(result, Value()) == Mech(dns, m, old(Value()), included, depth)
      decreases Room(Value()), 1, 0
    {
      match m {
        case All(q) => result := ReturnConst(q);
        case Ip(found) => result := found;
        case Lookup(found) =>
          Count();
          result := found;
        case Include(q, target) => result := MechInclude(target, depth);
      }
    }

    method Count()
      modifies this`count, beenThere`spent
      ensures Value() == old(Value()).Counted(included)
    {
      count := count + 1;
      beenThere.spent := Spent(beenThere.spent.lookups + 1, beenThere.spent.inner + One(included));
    }

    method MechInclude(target: Domain, ghost depth: nat) returns (result: Result)
      requires count <= LIMIT
      modifies this`count, beenThere
      ensures forall q :: Step(result, Value()) == Mech(dns, Include(q, target), old(Value()), included, depth)
      decreases Room(Value()), 0, 0
    {
      if target in beenThere.domains { return None; }
      Count();
      beenThere.domains := beenThere.domains + {target};
      var recurse := new SPF(dns, count, beenThere, true);
      var r := recurse.CheckHost(target, depth + 1);
      match r {
        case Pass => result := Pass;
        case Fail | SoftFail | Neutral => result := None;
        case TempError => result := TempError;
        case None | PermError => result := PermError;
      }
    }

    method ModChain(mods: seq<Modifier>, result: Result, ghost depth: nat) returns (final: Result)
      modifies this`count, beenThere
      ensures Step(final, Value()) == Mods(dns, mods, Step(result, old(Value())), included, depth)
      decreases Room(Value()), 1, |mods|
    {
      if count > LIMIT { return PermError; }
      if result != None { return result; }
      if mods == [] { return Neutral; }
      var next := RunModifier(mods[0], depth);
      final := ModChain(mods[1..], next, depth);
    }

    method RunModifier(m: Modifier, ghost depth: nat) returns (result: Result)
      requires count <= LIMIT
      modifies this`count, beenThere
      ensures Step(result, Value()) == Mod(dns, m, old(Value()), included, depth)
      decreases Room(Value()), 0, 0
    {
      match m {
        case Exp => result := None;
        case Redirect(target) =>
          if target in beenThere.domains { return None; }
          Count();
          beenThere.domains := beenThere.domains + {target};
          result := CheckHost(target, depth + 1);
      }
    }
  }

  // ----- what holds for every DNS -----

  /** How a run may change the state: the targets visited are new and all different, and nothing is
      forgotten. `targets` are the records looked up on the way. */
  predicate Went(s: State, s': State, targets: seq<Domain>) {
    && s'.seen == s.seen + targets
    && s'.beenThere == s.beenThere + (set t | t in targets)
    && (forall i :: 0 <= i < |targets| ==> targets[i] !in s.beenThere)
    && (forall i, j :: 0 <= i < j < |targets| ==> targets[i] != targets[j])
  }

  lemma WentNowhere(s: State, s': State)
    requires s'.seen == s.seen && s'.beenThere == s.beenThere
    ensures Went(s, s', [])
  {
  }

  lemma WentOn(s: State, s': State, s'': State, a: seq<Domain>, b: seq<Domain>)
    requires Went(s, s', a) && Went(s', s'', b)
    ensures Went(s, s'', a + b)
  {
    assert s.seen + a + b == s.seen + (a + b);
    assert (set t | t in a + b) == (set t | t in a) + (set t | t in b);
  }

  lemma WentInto(s: State, target: Domain, included: bool, depth: nat, s': State, more: seq<Domain>)
    requires target !in s.beenThere
    requires Went(s.Visiting(target, included).At(depth, target), s', more)
    ensures Went(s, s', [target] + more)
  {
    assert s.seen + [target] + more == s.seen + ([target] + more);
    assert (set t | t in [target] + more) == {target} + (set t | t in more);
  }

  lemma {:induction false} HostWent(dns: Dns, domain: Domain, s: State, included: bool, depth: nat)
      returns (targets: seq<Domain>)
    ensures Went(s.At(depth, domain), Host(dns, domain, s, included, depth).state, targets)
    decreases Room(s), 3, 0
  {
    var here := s.At(depth, domain);
    match dns(here.seen, included)
    case Record(mechs, mods) => targets := MechsWent(dns, mechs, mods, Step(None, here), included, depth);
    case _ =>
      WentNowhere(here, here);
      targets := [];
  }

  lemma {:induction false} MechsWent(dns: Dns, mechs: seq<Mechanism>, mods: seq<Modifier>, r: Step, included: bool,
      depth: nat)
    returns (targets: seq<Domain>)
    ensures Went(r.state, Mechs(dns, mechs, mods, r, included, depth).state, targets)
    decreases Room(r.state), 2, |mechs|
  {
    if r.state.count > LIMIT || r.result != None {
      WentNowhere(r.state, r.state);
      targets := [];
    } else if mechs == [] {
      targets := ModsWent(dns, mods, r, included, depth);
    } else {
      var next := Mech(dns, mechs[0], r.state, included, depth);
      var a := MechWent(dns, mechs[0], r.state, included, depth);
      var b := MechsWent(dns, mechs[1..], mods, next, included, depth);
      WentOn(r.state, next.state, Mechs(dns, mechs, mods, r, included, depth).state, a, b);
      targets := a + b;
    }
  }

  lemma {:induction false} MechWent(dns: Dns, m: Mechanism, s: State, included: bool, depth: nat)
      returns (targets: seq<Domain>)
    requires s.count <= LIMIT
    ensures Went(s, Mech(dns, m, s, included, depth).state, targets)
    decreases Room(s), 0, 0
  {
    if m.Include? && m.target !in s.beenThere {
      var inner := HostWent(dns, m.target, s.Visiting(m.target, included), true, depth + 1);
      WentInto(s, m.target, included, depth + 1, Mech(dns, m, s, included, depth).state, inner);
      targets := [m.target] + inner;
    } else {
      WentNowhere(s, Mech(dns, m, s, included, depth).state);
      targets := [];
    }
  }

  lemma {:induction false} ModsWent(dns: Dns, mods: seq<Modifier>, r: Step, included: bool, depth: nat)
    returns (targets: seq<Domain>)
    ensures Went(r.state, Mods(dns, mods, r, included, depth).state, targets)
    decreases Room(r.state), 1, |mods|
  {
    if r.state.count > LIMIT || r.result != None || mods == [] {
      WentNowhere(r.state, r.state);
      targets := [];
    } else {
      var next := Mod(dns, mods[0], r.state, included, depth);
      var a: seq<Domain> := [];
      if mods[0].Redirect? && mods[0].target !in r.state.beenThere {
        var target := mods[0].target;
        var inner := HostWent(dns, target, r.state.Visiting(target, included), included, depth + 1);
        WentInto(r.state, target, included, depth + 1, next.state, inner);
        a := [target] + inner;
      } else {
        WentNowhere(r.state, next.state);
      }
      var b := ModsWent(dns, mods[1..], next, included, depth);
      WentOn(r.state, next.state, Mods(dns, mods, r, included, depth).state, a, b);
      targets := a + b;
    }
  }

  /** No domain is the target of two includes or redirects, in whatever circles the records run: after the
      domain asked about, the records looked up are all different. */
  lemma NoTargetTwice(dns: Dns, domain: Domain)
    ensures var seen := Check(dns, domain).state.seen;
            && seen != [] && seen[0] == domain
            && forall i, j :: 1 <= i < j < |seen| ==> seen[i] != seen[j]
  {
    var targets := HostWent(dns, domain, FRESH, false, 0);
    assert Check(dns, domain).state.seen == [domain] + targets;
  }

  /** What the counter bounds: the nesting of include and redirect, and what one object counts. */
  predicate Shallow(s: State) {
    s.count <= LIMIT + 1 && s.deepest <= LIMIT + 1
  }

  lemma {:induction false} HostShallow(dns: Dns, domain: Domain, s: State, included: bool, depth: nat)
    requires Shallow(s) && depth <= s.count
    ensures Shallow(Host(dns, domain, s, included, depth).state)
    decreases Room(s), 3, 0
  {
    var here := s.At(depth, domain);
    match dns(here.seen, included)
    case Record(mechs, mods) => MechsShallow(dns, mechs, mods, Step(None, here), included, depth);
    case _ =>
  }

  lemma {:induction false} MechsShallow(dns: Dns, mechs: seq<Mechanism>, mods: seq<Modifier>, r: Step, included: bool,
      depth: nat)
    requires Shallow(r.state) && depth <= r.state.count
    ensures Shallow(Mechs(dns, mechs, mods, r, included, depth).state)
    decreases Room(r.state), 2, |mechs|
  {
    if r.state.count > LIMIT || r.result != None {
    } else if mechs == [] {
      ModsShallow(dns, mods, r, included, depth);
    } else {
      var m := mechs[0];
      if m.Include? && m.target !in r.state.beenThere {
        HostShallow(dns, m.target, r.state.Visiting(m.target, included), true, depth + 1);
      }
      MechsShallow(dns, mechs[1..], mods, Mech(dns, m, r.state, included, depth), included, depth);
    }
  }

  lemma {:induction false} ModsShallow(dns: Dns, mods: seq<Modifier>, r: Step, included: bool, depth: nat)
    requires Shallow(r.state) && depth <= r.state.count
    ensures Shallow(Mods(dns, mods, r, included, depth).state)
    decreases Room(r.state), 1, |mods|
  {
    if r.state.count > LIMIT || r.result != None || mods == [] {
    } else {
      var m := mods[0];
      if m.Redirect? && m.target !in r.state.beenThere {
        HostShallow(dns, m.target, r.state.Visiting(m.target, included), included, depth + 1);
      }
      ModsShallow(dns, mods[1..], Mod(dns, m, r.state, included, depth), included, depth);
    }
  }

  /** For every DNS, cyclic ones included, includes and redirects nest at most LIMIT + 1 deep. */
  lemma NestingIsBounded(dns: Dns, domain: Domain)
    ensures Check(dns, domain).state.deepest <= LIMIT + 1
  {
    HostShallow(dns, domain, FRESH, false, 0);
  }

  // ----- which result a record gives -----

  /** `states` are those in which the first mechanisms run, none of which gives a result. */
  predicate NoResultYet(dns: Dns, mechs: seq<Mechanism>, states: seq<State>, included: bool, depth: nat) {
    && 0 < |states| <= |mechs| + 1
    && forall i :: 0 <= i < |states| - 1 ==>
         states[i].count <= LIMIT && Mech(dns, mechs[i], states[i], included, depth) == Step(None, states[i + 1])
  }

  /** A record gives the first result of its mechanisms in the order written; without one, what its
      modifiers give; and PermError instead as soon as the count is over the limit. */
  lemma {:induction false} FirstResultWins(dns: Dns, mechs: seq<Mechanism>, mods: seq<Modifier>, states: seq<State>,
      included: bool, depth: nat)
    requires NoResultYet(dns, mechs, states, included, depth)
    ensures var n := |states| - 1;
            var r := Mechs(dns, mechs, mods, Step(None, states[0]), included, depth);
            if states[n].count > LIMIT then r == Step(PermError, states[n])
            else if n == |mechs| then r == Mods(dns, mods, Step(None, states[n]), included, depth)
            else
              var m := Mech(dns, mechs[n], states[n], included, depth);
              m.result != None ==> r == if m.state.count > LIMIT then Step(PermError, m.state) else m
    decreases |states|
  {
    if |states| > 1 {
      forall i | 0 <= i < |states[1..]| - 1
        ensures states[1..][i].count <= LIMIT
                && Mech(dns, mechs[1..][i], states[1..][i], included, depth) == Step(None, states[1..][i + 1])
      {
        assert states[1..][i] == states[i + 1] && mechs[1..][i] == mechs[i + 1];
      }
      FirstResultWins(dns, mechs[1..], mods, states[1..], included, depth);
      assert states[0].count <= LIMIT;
    }
  }

  // ----- the qualifier of an include -----

  /** Section 5.2 of RFC 4408: a record that passes makes the include match, and its qualifier decides. */
  function RfcInclude(q: Qualifier, r: Result): Result {
    if r == Pass then ReturnConst(q) else OfInclude(r)
  }

  /** The code leaves the qualifier out, which shows exactly when the record passes and it is not `+`. */
  lemma IncludeQualifier(dns: Dns, q: Qualifier, target: Domain, s: State, included: bool, depth: nat)
    requires s.count <= LIMIT && target !in s.beenThere
    ensures var r := Host(dns, target, s.Visiting(target, included), true, depth + 1).result;
            Mech(dns, Include(q, target), s, included, depth).result == RfcInclude(q, r) <==> q == Plus || r != Pass
  {
    var r := Host(dns, target, s.Visiting(target, included), true, depth + 1).result;
    assert ReturnConst(q) == Pass <==> q == Plus;
  }

  /** `a` has `-include:b` and `b` has `all`: a check of `a` is to fail, and passes. */
  lemma ExcludedPasses(dns: Dns, a: Domain, b: Domain)
    requires dns([a], false) == Record([Include(Minus, b)], [])
    requires dns([a, b], true) == Record([All(Plus)], [])
    ensures RfcInclude(Minus, Pass) == Fail && Check(dns, a).result == Pass
  {
    var s := FRESH.At(0, a);
    var inner := s.Visiting(b, false).At(1, b);
    assert s.seen == [a] && inner.seen == [a, b];
    GivesResult(dns, All(Plus), inner, true, 1);
    assert Host(dns, b, s.Visiting(b, false), true, 1) == Step(Pass, inner);
    GivesResult(dns, Include(Minus, b), s, false, 0);
  }

  lemma GivesResult(dns: Dns, m: Mechanism, s: State, included: bool, depth: nat)
    requires s.count < LIMIT && Mech(dns, m, s, included, depth).result != None
    requires Mech(dns, m, s, included, depth).state.count <= LIMIT
    ensures Mechs(dns, [m], [], Step(None, s), included, depth) == Mech(dns, m, s, included, depth)
  {
    var r := Mech(dns, m, s, included, depth);
    assert Mechs(dns, [m][1..], [], r, included, depth) == r;
  }
}
