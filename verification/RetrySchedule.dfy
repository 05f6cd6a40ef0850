/**
 The retry schedule of outbound mail (email/outbound/config.js, set_temp_fail_intervals): a list such as
 `1m,5m*2,1h*3` becomes one delay in seconds for every retry, and whatever cannot be read becomes the
 doubling delays of old. Number(), the conversion JavaScript makes, is an arbitrary function.
 */
module RetrySchedule {
  import opened Numbers
  import opened Strings

  /** One element of the list: a delay, and how often it is repeated. */
  datatype Element = Bad | Good(delay: Number, times: int)

  function Unit(symbol: char): int {
    match symbol
    case 's' => 1
    case 'm' => 60
    case 'h' => 3600
    case 'd' => 86400
    case _ => 0
  }

  predicate IsInteger(n: Number) {
    n.Fin? && n.value == n.value.Floor as real
  }

  /** `span*times`, or `span` alone. */
  function ReadElement(part: string, number: string -> Number): Element {
    var pieces := Split(part, '*');
    if |pieces| > 2 then Bad
    else
      var times := if |pieces| == 1 then Fin(1.0) else number(pieces[1]);
      var span := pieces[0];
      if !IsInteger(times) || span == "" then Bad
      else
        var num := number(span[..|span| - 1]);
        var unit := Unit(span[|span| - 1]);
        if num.NaN? || unit == 0 then Bad
        else if Lt(Times(num, unit), Fin(5.0)) then Bad
        else Good(Times(num, unit), times.value.Floor)
  }

  function Repeat(delay: Number, times: int): (r: seq<Number>)
    ensures |r| == if times > 0 then times else 0
    ensures forall i :: 0 <= i < |r| ==> r[i] == delay
    decreases times
  {
    if times <= 0 then [] else Repeat(delay, times - 1) + [delay]
  }

  datatype Schedule = NoSchedule | Schedule(delays: seq<Number>)

  /** All elements, repeated; one bad element spoils the list. */
  function ReadAll(parts: seq<string>, number: string -> Number): Schedule {
    if parts == [] then Schedule([])
    else
      var init, last := ReadAll(parts[..|parts| - 1], number), ReadElement(parts[|parts| - 1], number);
      if init.NoSchedule? || last.Bad? then NoSchedule
      else Schedule(init.delays + Repeat(last.delay, last.times))
  }

  /** The delays of old for `maxTempFailures`. */
  function OldDefaults(max: int): seq<Number>
    decreases max
  {
    if max <= 1 then [] else OldDefaults(max - 1) + [Fin(Pow2((max - 1) + 5) as real)]
  }

  /** What the setting comes to. */
  function Intervals(setting: string, max: int, number: string -> Number): seq<Number> {
    var input := Lowered(Strip(setting));
    if input == "" then OldDefaults(max)
    else if input == "none" then []
    else
      var s := ReadAll(Split(input, ','), number);
      if s.NoSchedule? || s.delays == [] then OldDefaults(max) else s.delays
  }

  // ----- the code -----

  class OutboundConfig {
    var maxTempFailures: int
    var tempFailIntervals: seq<Number>

    constructor (max: int)
      ensures maxTempFailures == max
    {
      maxTempFailures, tempFailIntervals := max, [];
    }

    method SetOldDefaults()
      modifies this`tempFailIntervals
      ensures tempFailIntervals == OldDefaults(maxTempFailures)
    {
      tempFailIntervals := [];
      var i := 1;
      while i < maxTempFailures
        invariant 1 <= i && (i <= maxTempFailures || (i == 1 && maxTempFailures < 1))
        invariant tempFailIntervals == OldDefaults(i)
      {
        tempFailIntervals := tempFailIntervals + [Fin(Pow2(i + 5) as real)];
        i := i + 1;
      }
    }

    /** set_temp_fail_intervals. */
    method SetTempFailIntervals(setting: string, number: string -> Number)
      modifies this`tempFailIntervals
      ensures tempFailIntervals == Intervals(setting, maxTempFailures, number)
    {
      if setting == "" {
        SetOldDefaults();
        return;
      }
      var input := Lowered(Strip(setting));
      if |input| == 0 {
        SetOldDefaults();
        return;
      }
      if input == "none" {
        tempFailIntervals := [];
        return;
      }
      var parts := Split(input, ',');
      var times: seq<Number> := [];
      var i := 0;
      while i < |parts|
        invariant i <= |parts| && ReadAll(parts[..i], number) == Schedule(times)
        modifies this`tempFailIntervals
      {
        ReadAllSnoc(parts, i, number);
        var element := Expand(parts[i], number);
        if element.Bad? {
          BadSpoils(parts, i, number);
          SetOldDefaults();
          return;
        }
        var j := 0;
        ghost var before := times;
        while j < element.times
          invariant times == before + Repeat(element.delay, j) && 0 <= j && (j <= element.times || j == 0)
          modifies {}
        {
          AppendRepeat(before, element.delay, j);
          times := times + [element.delay];
          j := j + 1;
        }
        i := i + 1;
      }
      assert parts[..i] == parts;
      if |times| == 0 {
        SetOldDefaults();
        return;
      }
      tempFailIntervals := times;
    }

    /** The body of the loop over the elements, up to the repetition. A span of fewer than two characters
        is reported but read on, and refused further down all the same. */
    method Expand(part: string, number: string -> Number) returns (element: Element)
      modifies this`tempFailIntervals
      ensures element == ReadElement(part, number)
    {
      var delay := Split(part, '*');
      var multiplier: Number;
      if |delay| == 1 {
        multiplier := Fin(1.0);
      } else if |delay| == 2 {
        multiplier := number(delay[1]);
      } else {
        return Bad;
      }
      if !IsInteger(multiplier) { return Bad; }
      if |delay[0]| < 2 {
        SetOldDefaults();
      }
      var num := number(if delay[0] == "" then "" else delay[0][..|delay[0]| - 1]);
      if num.NaN? { return Bad; }
      if delay[0] == "" { return Bad; }
      match delay[0][|delay[0]| - 1] {
        case 's' => num := Times(num, 1);
        case 'm' => num := Times(num, 60);
        case 'h' => num := Times(num, 3600);
        case 'd' => num := Times(num, 86400);
        case _ => return Bad;
      }
      if Lt(num, Fin(5.0)) { return Bad; }
      element := Good(num, multiplier.value.Floor);
    }
  }

  /** The report on a short span lacks a return, and needs none: Number("") is 0, and so too small. */
  lemma ShortSpanIsBad(part: string, number: string -> Number)
    requires number("") == Fin(0.0) && |Split(part, '*')[0]| < 2
    ensures ReadElement(part, number).Bad?
  {
    var span := Split(part, '*')[0];
    if span != "" {
      assert span[..0] == "";
    }
  }

  lemma ReadAllSnoc(parts: seq<string>, i: nat, number: string -> Number)
    requires i < |parts|
    ensures ReadAll(parts[..i + 1], number) ==
            var init, last := ReadAll(parts[..i], number), ReadElement(parts[i], number);
            if init.NoSchedule? || last.Bad? then NoSchedule
            else Schedule(init.delays + Repeat(last.delay, last.times))
  {
    assert parts[..i + 1][..i] == parts[..i];
  }

  lemma {:induction false} BadSpoils(parts: seq<string>, i: nat, number: string -> Number)
    requires i < |parts| && ReadElement(parts[i], number).Bad?
    ensures ReadAll(parts, number) == NoSchedule
  {
    if i < |parts| - 1 {
      BadSpoils(parts[..|parts| - 1], i, number);
    }
  }

  lemma AppendRepeat(before: seq<Number>, delay: Number, j: int)
    requires j >= 0
    ensures before + Repeat(delay, j) + [delay] == before + Repeat(delay, j + 1)
  {
  }

  // ----- what the schedule is -----

  /** The repetitions of the elements, those of a multiplier below one left out. */
  function CountAll(parts: seq<string>, number: string -> Number): nat {
    if parts == [] then 0
    else
      var last := ReadElement(parts[|parts| - 1], number);
      CountAll(parts[..|parts| - 1], number) + if last.Good? && last.times > 0 then last.times else 0
  }

  predicate AllGood(parts: seq<string>, number: string -> Number) {
    forall i :: 0 <= i < |parts| ==> ReadElement(parts[i], number).Good?
  }

  lemma {:induction false} ReadAllIs(parts: seq<string>, number: string -> Number)
    ensures ReadAll(parts, number).Schedule? <==> AllGood(parts, number)
    ensures var s := ReadAll(parts, number);
            s.Schedule? ==>
              && |s.delays| == CountAll(parts, number)
              && forall i :: 0 <= i < |s.delays| ==> Le(Fin(5.0), s.delays[i])
  {
    if parts != [] {
      var init, last := parts[..|parts| - 1], ReadElement(parts[|parts| - 1], number);
      ReadAllIs(init, number);
      assert AllGood(parts, number) <==> AllGood(init, number) && last.Good? by {
        assert forall i :: 0 <= i < |init| ==> init[i] == parts[i];
      }
    }
  }

  /** Any setting gives one of three things: no retries for `none`; the delays of old when an element is
      bad, or nothing is left to repeat; else one delay of at least five seconds for each repetition. */
  lemma ScheduleOrDefaults(setting: string, max: int, number: string -> Number)
    ensures var input := Lowered(Strip(setting));
            var parts := Split(input, ',');
            var r := Intervals(setting, max, number);
            if input == "none" then r == []
            else if input == "" || !AllGood(parts, number) || CountAll(parts, number) == 0 then r == OldDefaults(max)
            else |r| == CountAll(parts, number) && forall i :: 0 <= i < |r| ==> Le(Fin(5.0), r[i])
  {
    ReadAllIs(Split(Lowered(Strip(setting)), ','), number);
  }

  function Sum(delays: seq<Number>): real {
    if delays == [] then 0.0
    else
      var last := delays[|delays| - 1];
      Sum(delays[..|delays| - 1]) + if last.Fin? then last.value else 0.0
  }

  /** The delays of old: `max` - 1 of them, 64 seconds and then twice as long each time. */
  lemma {:induction false} OldDefaultsAre(max: int)
    requires max >= 1
    ensures |OldDefaults(max)| == max - 1
    ensures forall i :: 0 <= i < max - 1 ==> OldDefaults(max)[i] == Fin(Pow2(i + 6) as real)
    ensures Sum(OldDefaults(max)) == (Pow2(max + 5) - 64) as real
    decreases max
  {
    if max == 1 {
      assert Pow2(6) == 64;
    } else {
      OldDefaultsAre(max - 1);
      var d := OldDefaults(max);
      assert d[..|d| - 1] == OldDefaults(max - 1);
      assert Pow2(max + 5) == 2 * Pow2(max + 4);
    }
  }
}
