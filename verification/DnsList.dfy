/**
 DNS block lists (email/plugins/dns_list_base.js): one address is looked up in many zones at once, the
 answers come in any order, and `first` reports one of them, once. Zones that misbehave are set aside and
 may come back; none is lost.
 */
module DnsList {

  import opened Options

  /** An answer of one zone: an error, or the records found, if any. */
  datatype Answer = Answer(zone: nat, error: bool, listed: bool)

  predicate Positive(a: Answer) { !a.error && a.listed }

  /** The first positive answer, in the order in which the answers came. */
  function FirstPositive(answers: seq<Answer>): Option<Answer> {
    if answers == [] then None
    else
      var earlier := FirstPositive(answers[..|answers| - 1]);
      if earlier.Some? then earlier
      else if Positive(answers[|answers| - 1]) then Some(answers[|answers| - 1])
      else None
  }

  /** A report of `first`: a zone's positive answer, or that there is none. */
  type Report = Option<Answer>

  function Below(n: nat): (s: set<nat>)
    ensures |s| == n && forall k: nat :: k in s <==> k < n
  {
    if n == 0 then {} else Below(n - 1) + {n - 1}
  }

  class Lookups {
    const zones: nat
    var pending: set<nat>            // the zones that have not answered, for async.each
    var ranCb: bool
    var reports: seq<Report>         // calls of the callback
    ghost var answers: seq<Answer>

    ghost predicate Valid()
      reads this
    {
      && (forall k :: k in pending ==> k < zones)
      && |answers| + |pending| == zones
      && ranCb == (reports != [])
      && reports ==
         if FirstPositive(answers).Some? then [FirstPositive(answers)]
         else if pending == {} then [None]
         else []
    }

    /** first, and multi under it. Without zones async.each is done at once. */
    constructor (zones: nat)
      ensures Valid() && this.zones == zones && answers == []
      ensures pending == Below(zones)
    {
      this.zones, pending, ranCb, reports, answers := zones, Below(zones), false, [], [];
      new;
      if pending == {} {
        Report(None, false);
      }
    }

    /** The callback first gives to multi. */
    method Report(a: Report, pendingQueries: bool)
      modifies this`ranCb, this`reports
      ensures ranCb == (old(ranCb) || !(pendingQueries && (a.None? || !Positive(a.value))))
      ensures reports == old(reports) + if ranCb && !old(ranCb) then [a] else []
    {
      if ranCb { return; }
      if pendingQueries && (a.None? || a.value.error || !a.value.listed) { return; }
      ranCb := true;
      reports := reports + [a];
    }

    /** zoneIter's lookup comes back: the callback, and then async.each, whose last `done` calls zonesDone. */
    method Answered(a: Answer)
      requires Valid() && a.zone in pending
      modifies this`pending, this`ranCb, this`reports, this`answers
      ensures Valid() && answers == old(answers) + [a] && pending == old(pending) - {a.zone}
    {
      hide FirstPositive;
      FirstPositiveSnoc(answers, a);
      answers := answers + [a];
      Report(Some(a), true);
      pending := pending - {a.zone};
      if pending == {} {
        Report(None, false);
      }
    }
  }

  lemma FirstPositiveSnoc(answers: seq<Answer>, a: Answer)
    ensures FirstPositive(answers + [a]) ==
            if FirstPositive(answers).None? && Positive(a) then Some(a) else FirstPositive(answers)
  {
    assert (answers + [a])[..|answers|] == answers;
  }

  lemma {:induction false} FirstPositiveIs(answers: seq<Answer>)
    ensures FirstPositive(answers).None? <==> forall i :: 0 <= i < |answers| ==> !Positive(answers[i])
    ensures FirstPositive(answers).Some? ==>
              exists i :: 0 <= i < |answers| && FirstPositive(answers).value == answers[i] && Positive(answers[i])
                && forall k :: 0 <= k < i ==> !Positive(answers[k])
  {
    if answers != [] {
      var init := answers[..|answers| - 1];
      FirstPositiveIs(init);
      assert forall i :: 0 <= i < |init| ==> init[i] == answers[i];
    }
  }

  /** In whatever order the zones answer, the callback runs at most once, exactly once when all have
      answered, and with the first positive answer if there is one. */
  lemma ReportsOnce(l: Lookups)
    requires l.Valid()
    ensures |l.reports| <= 1
    ensures l.pending == {} ==> |l.reports| == 1
    ensures l.reports != [] ==>
              if l.reports[0].None? then
                l.pending == {} && forall i :: 0 <= i < |l.answers| ==> !Positive(l.answers[i])
              else
                exists i :: 0 <= i < |l.answers| && l.reports[0].value == l.answers[i] && Positive(l.answers[i])
                  && forall k :: 0 <= k < i ==> !Positive(l.answers[k])
  {
    FirstPositiveIs(l.answers);
  }

  // ----- zones set aside -----

  class ZoneLists {
    var zones: seq<string>
    var disabledZones: seq<string>
    var disableAllowed: bool

    ghost function Known(): set<string>
      reads this
    {
      (set z | z in zones) + (set z | z in disabledZones)
    }

    predicate NoDuplicates(s: seq<string>) {
      forall i, j :: 0 <= i < j < |s| ==> s[i] != s[j]
    }

    ghost predicate Valid()
      reads this
    {
      NoDuplicates(zones) && NoDuplicates(disabledZones)
    }

    constructor (zones: seq<string>)
      requires forall i, j :: 0 <= i < j < |zones| ==> zones[i] != zones[j]
      ensures Valid() && this.zones == zones && disabledZones == []
    {
      this.zones, disabledZones, disableAllowed := zones, [], false;
    }

    /** disable_zone. */
    method DisableZone(zone: string) returns (done: bool)
      requires Valid()
      modifies this`zones, this`disabledZones
      ensures Valid() && Known() == old(Known())
      ensures done <==> zone != "" && zone in old(zones) && disableAllowed
      ensures done ==> zone !in zones && zone in disabledZones
      ensures done ==> forall z :: z != zone ==> (z in zones <==> z in old(zones))
      ensures !done ==> zones == old(zones) && disabledZones == old(disabledZones)
    {
      if zone == "" { return false; }
      if |zones| == 0 { return false; }
      if !disableAllowed { return false; }
      var idx := 0;
      while idx < |zones| && zones[idx] != zone
        invariant idx <= |zones| && forall k :: 0 <= k < idx ==> zones[k] != zone
      {
        idx := idx + 1;
      }
      if idx == |zones| { return false; }
      WithoutIndex(zones, idx);
      zones := zones[..idx] + zones[idx + 1..];
      if zone !in disabledZones {
        disabledZones := disabledZones + [zone];
      }
      done := true;
    }

    /** The end of check_zones: a zone that passed its test is enabled again. */
    method Passed(zone: string)
      requires Valid() && zone in Known()
      modifies this`zones
      ensures Valid() && Known() == old(Known()) && zone in zones
    {
      if zone !in zones {
        zones := zones + [zone];
      }
    }
  }

  lemma WithoutIndex(s: seq<string>, i: nat)
    requires i < |s| && forall a, b :: 0 <= a < b < |s| ==> s[a] != s[b]
    ensures forall z :: z in s[..i] + s[i + 1..] <==> z in s && z != s[i]
    ensures var r := s[..i] + s[i + 1..]; forall a, b :: 0 <= a < b < |r| ==> r[a] != r[b]
  {
    assert s == s[..i] + [s[i]] + s[i + 1..];
  }
}
