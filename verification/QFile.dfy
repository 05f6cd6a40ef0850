/**
 Queue file names (email/outbound/qfile.js): seven fields joined by underscores. The only state a
 deferred message carries across a restart is in its name, so the name must read back.
 */
module QFile {
  import Bytes
  import opened Options
  import opened Strings

  // ----- counting a separator -----

  function Count(s: string, c: char): nat {
    if s == "" then 0 else (if s[0] == c then 1 else 0) + Count(s[1..], c)
  }

  lemma {:induction false} SplitCount(s: string, sep: char)
    ensures |Split(s, sep)| == Count(s, sep) + 1
  {
    if s != "" {
      SplitCount(s[1..], sep);
    }
  }

  lemma {:induction false} CountAppend(s: string, t: string, c: char)
    ensures Count(s + t, c) == Count(s, c) + Count(t, c)
  {
    if s == "" {
      assert s + t == t;
    } else {
      CountAppend(s[1..], t, c);
      assert (s + t)[1..] == s[1..] + t;
    }
  }

  lemma {:induction false} CountZero(s: string, c: char)
    ensures Count(s, c) == 0 <==> c !in s
  {
    if s != "" {
      CountZero(s[1..], c);
      assert s == [s[0]] + s[1..];
    }
  }

  lemma {:induction false} CountJoin(parts: seq<string>, k: nat, sep: char)
    requires k < |parts| && forall i :: 0 <= i < |parts| && i != k ==> sep !in parts[i]
    ensures Count(Join(parts, sep), sep) == |parts| - 1 + Count(parts[k], sep)
  {
    CountZero(parts[0], sep);
    if |parts| > 1 {
      var rest := Join(parts[1..], sep);
      CountAppend(parts[0] + [sep], rest, sep);
      CountAppend(parts[0], [sep], sep);
      assert [sep][1..] == "";
      if k > 0 {
        CountJoin(parts[1..], k - 1, sep);
      } else {
        SplitJoin(parts[1..], sep);
        SplitCount(rest, sep);
      }
    }
  }

  // ----- numbers -----

  predicate IsDigit(c: char) { '0' <= c <= '9' }

  function Digit(d: nat): (c: char)
    requires d < 10
    ensures IsDigit(c)
  {
    "0123456789"[d]
  }

  function Dec(n: nat): (s: string)
    ensures s != "" && forall i :: 0 <= i < |s| ==> IsDigit(s[i])
  {
    if n < 10 then [Digit(n)] else Dec(n / 10) + [Digit(n % 10)]
  }

  function Value(s: string): nat
    requires forall i :: 0 <= i < |s| ==> IsDigit(s[i])
  {
    if s == "" then 0
    else assert IsDigit(s[|s| - 1]); Value(s[..|s| - 1]) * 10 + (s[|s| - 1] as int - '0' as int)
  }

  function LeadingDigits(s: string): (n: nat)
    ensures n <= |s| && (forall i :: 0 <= i < n ==> IsDigit(s[i])) && (n < |s| ==> !IsDigit(s[n]))
  {
    if s == "" || !IsDigit(s[0]) then 0 else 1 + LeadingDigits(s[1..])
  }

  /** parseInt, on text that opens with neither white space, a sign nor "0x". None is NaN. */
  function ParseInt(s: string): Option<nat> {
    var n := LeadingDigits(s);
    if n == 0 then None else Some(Value(s[..n]))
  }

  lemma {:induction false} ValueDec(n: nat)
    ensures Value(Dec(n)) == n
  {
    if n < 10 {
      assert Dec(n)[..0] == "";
      DigitValue(n);
    } else {
      ValueDec(n / 10);
      DigitValue(n % 10);
      assert Dec(n)[..|Dec(n)| - 1] == Dec(n / 10);
    }
  }

  lemma DigitValue(d: nat)
    requires d < 10
    ensures Digit(d) as int - '0' as int == d
  {
  }

  lemma ParseDec(n: nat)
    ensures ParseInt(Dec(n)) == Some(n)
    ensures '_' !in Dec(n)
  {
    ValueDec(n);
    assert Dec(n)[..|Dec(n)|] == Dec(n);
  }

  // ----- the host field -----

  /** String.replace(/c/g, by). */
  function Replace(s: string, c: char, with: string): string {
    if s == "" then "" else (if s[0] == c then with else [s[0]]) + Replace(s[1..], c, with)
  }

  /** hostname: three replacements in a row. */
  function Hostname(host: string): string {
    Replace(Replace(Replace(host, '\\', "\\057"), ':', "\\072"), '_', "\\137")
  }

  predicate IsSpecial(c: char) { c == '\\' || c == ':' || c == '_' }

  function EscapeChar(c: char): string {
    if c == '\\' then "\\057" else if c == ':' then "\\072" else if c == '_' then "\\137" else [c]
  }

  /** One pass that escapes each character on its own. */
  function Escaped(host: string): string {
    if host == "" then "" else EscapeChar(host[0]) + Escaped(host[1..])
  }

  lemma {:induction false} ReplaceAppend(s: string, t: string, c: char, r: string)
    ensures Replace(s + t, c, r) == Replace(s, c, r) + Replace(t, c, r)
  {
    if s == "" {
      assert s + t == t;
    } else {
      ReplaceAppend(s[1..], t, c, r);
      assert (s + t)[1..] == s[1..] + t;
      Bytes.AppendAssoc(if s[0] == c then r else [s[0]], Replace(s[1..], c, r), Replace(t, c, r));
    }
  }

  lemma {:induction false} ReplaceNothing(s: string, c: char, r: string)
    requires c !in s
    ensures Replace(s, c, r) == s
  {
    if s != "" {
      ReplaceNothing(s[1..], c, r);
      assert s == [s[0]] + s[1..];
    }
  }

  lemma HostnameAppend(s: string, t: string)
    ensures Hostname(s + t) == Hostname(s) + Hostname(t)
  {
    var s1, t1 := Replace(s, '\\', "\\057"), Replace(t, '\\', "\\057");
    ReplaceAppend(s, t, '\\', "\\057");
    ReplaceAppend(s1, t1, ':', "\\072");
    ReplaceAppend(Replace(s1, ':', "\\072"), Replace(t1, ':', "\\072"), '_', "\\137");
  }

  lemma HostnameOne(c: char)
    ensures Hostname([c]) == EscapeChar(c)
  {
    ReplaceOne(c, '\\', "\\057");
    if c == '\\' {
      ReplaceNothing("\\057", ':', "\\072");
      ReplaceNothing("\\057", '_', "\\137");
    } else {
      ReplaceOne(c, ':', "\\072");
      if c == ':' {
        ReplaceNothing("\\072", '_', "\\137");
      } else {
        ReplaceOne(c, '_', "\\137");
      }
    }
  }

  lemma ReplaceOne(c: char, from: char, r: string)
    ensures Replace([c], from, r) == if c == from then r else [c]
  {
    assert [c][1..] == "";
  }

  /** Doing the backslash first makes the three passes equal to the single one: no escape is escaped again. */
  lemma {:induction false} HostnameIsEscaped(host: string)
    ensures Hostname(host) == Escaped(host)
  {
    if host != "" {
      HostnameIsEscaped(host[1..]);
      HostnameOne(host[0]);
      HostnameAppend([host[0]], host[1..]);
      assert host == [host[0]] + host[1..];
    }
  }

  function Unescaped(s: string): string
    decreases |s|
  {
    if s == "" then ""
    else if s[0] == '\\' && |s| >= 4 then
      [if s[1..4] == "057" then '\\' else if s[1..4] == "072" then ':' else '_'] + Unescaped(s[4..])
    else [s[0]] + Unescaped(s[1..])
  }

  lemma UnescapeOne(c: char, rest: string)
    ensures Unescaped(EscapeChar(c) + rest) == [c] + Unescaped(rest)
  {
    var s := EscapeChar(c) + rest;
    if IsSpecial(c) {
      assert s[1..4] == EscapeChar(c)[1..4];
      assert s[4..] == rest;
    } else {
      assert s[1..] == rest;
    }
  }

  lemma {:induction false} UnescapeEscaped(host: string)
    ensures Unescaped(Escaped(host)) == host
    ensures '_' !in Escaped(host) && ':' !in Escaped(host)
  {
    if host != "" {
      UnescapeEscaped(host[1..]);
      hide Unescaped;
      UnescapeOne(host[0], Escaped(host[1..]));
      NoSeparator(host[0]);
      hide EscapeChar;
      assert host == [host[0]] + host[1..];
    }
  }

  lemma NoSeparator(c: char)
    ensures '_' !in EscapeChar(c) && ':' !in EscapeChar(c)
  {
  }

  /** The escaping can be undone, so it is injective, and it leaves no ':' or '_' behind. */
  lemma EscapedRoundTrip(host: string)
    ensures Unescaped(Hostname(host)) == host
    ensures '_' !in Hostname(host) && ':' !in Hostname(host)
  {
    HostnameIsEscaped(host);
    UnescapeEscaped(host);
  }

  lemma HostnameInjective(a: string, b: string)
    requires Hostname(a) == Hostname(b)
    ensures a == b
  {
    EscapedRoundTrip(a);
    EscapedRoundTrip(b);
  }

  lemma {:induction false} EscapedLength(host: string)
    ensures |Escaped(host)| >= |host|
    ensures |Escaped(host)| == |host| <==> forall i :: 0 <= i < |host| ==> !IsSpecial(host[i])
    ensures (forall i :: 0 <= i < |host| ==> !IsSpecial(host[i])) ==> Escaped(host) == host
  {
    if host != "" {
      EscapedLength(host[1..]);
      assert host == [host[0]] + host[1..];
      assert forall i :: 0 <= i < |host[1..]| ==> host[1..][i] == host[i + 1];
    }
  }

  /** A deferral escapes the host field once more; that changes nothing exactly when the host holds
      none of the three special characters. */
  lemma EscapedTwiceIff(host: string)
    ensures Hostname(Hostname(host)) == Hostname(host) <==> forall i :: 0 <= i < |host| ==> !IsSpecial(host[i])
  {
    HostnameIsEscaped(host);
    HostnameIsEscaped(Escaped(host));
    EscapedLength(host);
    EscapedLength(Escaped(host));
    if exists i :: 0 <= i < |host| && IsSpecial(host[i]) {
      var i :| 0 <= i < |host| && IsSpecial(host[i]);
      var k := EscapedHasBackslash(host, i);
    }
  }

  lemma {:induction false} EscapedHasBackslash(host: string, i: nat) returns (k: nat)
    requires i < |host| && IsSpecial(host[i])
    ensures k < |Escaped(host)| && Escaped(host)[k] == '\\'
  {
    if i == 0 {
      k := 0;
    } else {
      k := EscapedHasBackslash(host[1..], i - 1);
      k := k + |EscapeChar(host[0])|;
    }
  }

  // ----- name and parts -----

  /** The overrides name() takes. None stands for undefined and for NaN. */
  datatype Overrides = Overrides(arrival: Option<nat>, nextAttempt: Option<nat>, attempts: Option<nat>,
                                 pid: Option<nat>, uid: Option<string>, host: Option<string>)

  /** What name() takes from its surroundings. */
  datatype Ambient = Ambient(time: nat, pid: nat, unique: string, counter: nat, hostname: string)

  datatype Parts = Parts(arrival: Option<nat>, nextAttempt: Option<nat>, attempts: Option<nat>, pid: Option<nat>,
                         uid: string, counter: Option<nat>, host: string, age: Option<int>)

  datatype Parsed = Throws | Unknown | Known(parts: Parts)

  /** `a || b` on numbers: 0, NaN and undefined are all passed over. */
  function Or(a: Option<nat>, b: nat): nat {
    if a.Some? && a.value != 0 then a.value else b
  }

  function OrText(a: Option<string>, b: string): string {
    if a.Some? && a.value != "" then a.value else b
  }

  function Fields(o: Overrides, amb: Ambient): seq<string> {
    [Dec(Or(o.arrival, amb.time)), Dec(Or(o.nextAttempt, amb.time)), Dec(Or(o.attempts, 0)), Dec(Or(o.pid, amb.pid)),
     OrText(o.uid, amb.unique), Dec(amb.counter), Hostname(OrText(o.host, amb.hostname))]
  }

  function Name(o: Overrides, amb: Ambient): string {
    Join(Fields(o, amb), '_')
  }

  function Age(time: nat, arrival: Option<nat>): Option<int> {
    if arrival.Some? then Some(time - arrival.value) else None
  }

  predicate AllDigits(s: string) { s != "" && forall i :: 0 <= i < |s| ==> IsDigit(s[i]) }

  /** The four-part names of old releases: $nextattempt_$attempts_$pid_$uniq.$host. */
  predicate IsOldName(p: seq<string>)
    requires |p| == 4
  {
    && AllDigits(p[0]) && AllDigits(p[1]) && AllDigits(p[2])
    && var n := LeadingDigits(p[3]);
    n > 0 && n < |p[3]| && p[3][n] == '.' && '\n' !in p[3] && '\r' !in p[3]
  }

  /** parts(). */
  function PartsOf(filename: string, amb: Ambient): Parsed {
    if filename == "" then Throws
    else
      var p := Split(filename, '_');
      if |p| == 7 then
        Known(Parts(ParseInt(p[0]), ParseInt(p[1]), ParseInt(p[2]), ParseInt(p[3]), p[4], ParseInt(p[5]), p[6],
                    Age(amb.time, ParseInt(p[0]))))
      else if |p| == 4 && IsOldName(p) then
        Known(Parts(Some(amb.time), ParseInt(p[0]), ParseInt(p[1]), ParseInt(p[2]), amb.unique, Some(amb.counter),
                    p[3][LeadingDigits(p[3]) + 1..], Age(amb.time, Some(amb.time))))
      else Unknown
  }

  /** A name reads back, field by field, exactly when its unique tag holds no underscore. */
  lemma PartsOfName(o: Overrides, amb: Ambient, later: Ambient)
    ensures var uid := OrText(o.uid, amb.unique);
            PartsOf(Name(o, amb), later) ==
            if '_' in uid then Unknown
            else Known(Parts(Some(Or(o.arrival, amb.time)), Some(Or(o.nextAttempt, amb.time)), Some(Or(o.attempts, 0)),
                             Some(Or(o.pid, amb.pid)), uid, Some(amb.counter), Hostname(OrText(o.host, amb.hostname)),
                             Some(later.time - Or(o.arrival, amb.time))))
  {
    hide ParseInt, Dec, Hostname, Split, Join;
    var f := Fields(o, amb);
    FieldsClean(o, amb);
    CountJoin(f, 4, '_');
    SplitCount(Name(o, amb), '_');
    CountZero(f[4], '_');
    if '_' !in f[4] {
      SplitJoin(f, '_');
    }
  }

  lemma FieldsClean(o: Overrides, amb: Ambient)
    ensures forall i :: 0 <= i < 7 && i != 4 ==> '_' !in Fields(o, amb)[i]
    ensures ParseInt(Fields(o, amb)[0]) == Some(Or(o.arrival, amb.time))
    ensures ParseInt(Fields(o, amb)[1]) == Some(Or(o.nextAttempt, amb.time))
    ensures ParseInt(Fields(o, amb)[2]) == Some(Or(o.attempts, 0))
    ensures ParseInt(Fields(o, amb)[3]) == Some(Or(o.pid, amb.pid))
    ensures ParseInt(Fields(o, amb)[5]) == Some(amb.counter)
  {
    hide ParseInt, Dec;
    ParseDec(Or(o.arrival, amb.time));
    ParseDec(Or(o.nextAttempt, amb.time));
    ParseDec(Or(o.attempts, 0));
    ParseDec(Or(o.pid, amb.pid));
    ParseDec(amb.counter);
    EscapedRoundTrip(OrText(o.host, amb.hostname));
  }

  lemma {:induction false} SplitPiecesClean(s: string, sep: char, i: nat)
    requires i < |Split(s, sep)|
    ensures sep !in Split(s, sep)[i]
  {
    if s != "" {
      if s[0] == sep {
        if i > 0 {
          SplitPiecesClean(s[1..], sep, i - 1);
        }
      } else {
        SplitPiecesClean(s[1..], sep, i);
      }
    }
  }

  /** What deferred_respond passes to name(): the parts of the old name, with two of them replaced. */
  function DeferralOverrides(parts: Parts, nextAttempt: Option<nat>, attempts: nat): Overrides {
    Overrides(parts.arrival, nextAttempt, Some(attempts), parts.pid, Some(parts.uid), Some(parts.host))
  }

  /** The name a deferral gives the file reads back with the number of attempts, whatever else is in it. */
  lemma DeferralNameKeepsAttempts(filename: string, amb: Ambient, later: Ambient, nextAttempt: Option<nat>,
      attempts: nat)
    requires PartsOf(filename, amb).Known? && '_' !in amb.unique
    ensures var name := Name(DeferralOverrides(PartsOf(filename, amb).parts, nextAttempt, attempts), amb);
            PartsOf(name, later).Known? && PartsOf(name, later).parts.attempts == Some(attempts)
  {
    var p := Split(filename, '_');
    if |p| == 7 {
      SplitPiecesClean(filename, '_', 4);
    }
    PartsOfName(DeferralOverrides(PartsOf(filename, amb).parts, nextAttempt, attempts), amb, later);
  }

  /** Attempts do not depend on when or where the name is read, so one reading is as good as another. */
  function StoredAttempts(filename: string): Option<nat> {
    var p := Split(filename, '_');
    if filename == "" then None
    else if |p| == 7 then ParseInt(p[2])
    else if |p| == 4 && IsOldName(p) then ParseInt(p[1])
    else None
  }

  lemma StoredAttemptsOf(filename: string, amb: Ambient)
    requires PartsOf(filename, amb).Known?
    ensures PartsOf(filename, amb).parts.attempts == StoredAttempts(filename)
  {
  }

  // ----- the counter and the file name of one process -----

  /** Module state of qfile.js. */
  class Counter {
    var value: nat

    constructor ()
      ensures value == 0
    {
      value := 0;
    }

    /** next_counter. */
    method Next() returns (r: nat)
      requires value <= 10000
      modifies this
      ensures r == value == (old(value) + 1) % 10001 && value <= 10000
    {
      value := if value < 10000 then value + 1 else 0;
      r := value;
    }
  }
}
