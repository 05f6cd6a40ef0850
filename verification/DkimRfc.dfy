/**
 What the DKIM verifier hashes of a body, compared with what sections 3.4.3 and 3.4.4 of RFC 6376 have it
 hash, for every list of CR LF-terminated lines.
 */
module DkimRfc {
  import opened Bytes
  import opened DkimBody
  import DkimCanon
  import Verifying = DkimVerify

  predicate CrlfLine(l: seq<byte>) {
    |l| >= 2 && l[|l| - 2..] == CRLF && LF !in l[..|l| - 2]
  }

  predicate AllCrlf(lines: seq<seq<byte>>) {
    forall l :: l in lines ==> CrlfLine(l)
  }

  function Content(line: seq<byte>): (content: seq<byte>)
    requires CrlfLine(line)
    ensures content + CRLF == line && LF !in content
  {
    line[..|line| - 2]
  }

  function Canonicalized(canon: Verifying.Canon, lines: seq<seq<byte>>): seq<seq<byte>> {
    if lines == [] then []
    else [if canon.Relaxed? then DkimCanon.Canonical(lines[0]) else lines[0]] + Canonicalized(canon, lines[1..])
  }

  /** What the verifier hashes of a body: each line through its own canonicalization, blank lines at the
      end left out. */
  function VerifierInput(canon: Verifying.Canon, body: seq<seq<byte>>): seq<byte> {
    Flatten(Trimmed(Canonicalized(canon, body)))
  }

  /** Section 3.4.4 of RFC 6376 on each line. */
  function RelaxedLines(lines: seq<seq<byte>>): seq<seq<byte>>
    requires AllCrlf(lines)
  {
    if lines == [] then []
    else [DkimCanon.RelaxedContent(Content(lines[0])) + CRLF] + RelaxedLines(lines[1..])
  }

  /** What RFC 6376 has hashed of a body: by section 3.4.3 the lines without the blank ones at the end, and
      one CR LF if that leaves none; by section 3.4.4 the relaxed lines without the blank ones at the end. */
  function RfcInput(canon: Verifying.Canon, body: seq<seq<byte>>): seq<byte>
    requires AllCrlf(body)
  {
    if canon.Relaxed? then Flatten(Trimmed(RelaxedLines(body)))
    else if Trimmed(body) == [] then CRLF
    else Flatten(Trimmed(body))
  }

  /** No line holds a CR before the one that ends it. */
  predicate NoInnerCr(lines: seq<seq<byte>>) {
    forall l :: l in lines ==> |l| >= 2 && CR !in l[..|l| - 2]
  }

  lemma {:induction false} CanonicalizedSimple(canon: Verifying.Canon, lines: seq<seq<byte>>)
    requires !canon.Relaxed?
    ensures Canonicalized(canon, lines) == lines
  {
    if lines != [] {
      CanonicalizedSimple(canon, lines[1..]);
    }
  }

  lemma {:induction false} RelaxedLinesAre(lines: seq<seq<byte>>)
    requires AllCrlf(lines)
    ensures AllCrlf(RelaxedLines(lines))
    ensures NoInnerCr(RelaxedLines(lines)) <==> NoInnerCr(lines)
  {
    if lines != [] {
      var content := Content(lines[0]);
      var relaxed := DkimCanon.RelaxedContent(content);
      KeepsBreaks(content);
      assert (relaxed + CRLF)[..|relaxed|] == relaxed;
      RelaxedLinesAre(lines[1..]);
      HeadAndTail(RelaxedLines(lines));
      HeadAndTail(lines);
    }
  }

  lemma HeadAndTail(lines: seq<seq<byte>>)
    requires lines != []
    ensures NoInnerCr(lines) <==> NoInnerCr([lines[0]]) && NoInnerCr(lines[1..])
    ensures AllCrlf(lines) <==> CrlfLine(lines[0]) && AllCrlf(lines[1..])
  {
    assert lines == [lines[0]] + lines[1..];
  }

  lemma KeepsBreaks(s: seq<byte>)
    ensures CR in DkimCanon.RelaxedContent(s) <==> CR in s
    ensures LF in DkimCanon.RelaxedContent(s) <==> LF in s
  {
    DkimCanon.TrimEndKeeps(s, CR);
    DkimCanon.TrimEndKeeps(s, LF);
    DkimCanon.CollapseKeeps(DkimCanon.TrimEnd(s), CR);
    DkimCanon.CollapseKeeps(DkimCanon.TrimEnd(s), LF);
  }

  /** The code's canonicalization leaves no inner CR, and is section 3.4.4 where there was none. */
  lemma {:induction false} CanonicalizedAre(lines: seq<seq<byte>>)
    requires AllCrlf(lines)
    ensures AllCrlf(Canonicalized(Verifying.Relaxed, lines)) && NoInnerCr(Canonicalized(Verifying.Relaxed, lines))
    ensures NoInnerCr(lines) ==> Canonicalized(Verifying.Relaxed, lines) == RelaxedLines(lines)
  {
    if lines != [] {
      HeadAndTail(lines);
      CanonicalLine(lines[0]);
      CanonicalizedAre(lines[1..]);
      HeadAndTail(Canonicalized(Verifying.Relaxed, lines));
    }
  }

  lemma CanonicalLine(line: seq<byte>)
    requires CrlfLine(line)
    ensures CrlfLine(DkimCanon.Canonical(line)) && NoInnerCr([DkimCanon.Canonical(line)])
    ensures NoInnerCr([line]) ==> DkimCanon.Canonical(line) == DkimCanon.RelaxedContent(Content(line)) + CRLF
  {
    var v := DkimCanon.Visible(line);
    var relaxed := DkimCanon.RelaxedContent(v);
    assert line[|Content(line)|] == CR;
    assert |v| < |line|;
    KeepsBreaks(v);
    assert (relaxed + CRLF)[..|relaxed|] == relaxed;
    DkimCanon.CanonicalIsRelaxed(Content(line));
  }

  function Count(s: seq<byte>, b: byte): (n: nat)
    ensures n == 0 <==> b !in s
  {
    if s == [] then 0 else Count(s[1..], b) + if s[0] == b then 1 else 0
  }

  lemma {:induction false} CountAppend(s: seq<byte>, t: seq<byte>, b: byte)
    ensures Count(s + t, b) == Count(s, b) + Count(t, b)
  {
    if s == [] {
      assert s + t == t;
    } else {
      CountAppend(s[1..], t, b);
      assert (s + t)[1..] == s[1..] + t;
    }
  }

  /** The breaks in the bytes tell how many lines there were, and whether one held a CR of its own. */
  lemma {:induction false} BreaksCount(lines: seq<seq<byte>>)
    requires AllCrlf(lines)
    ensures Count(Flatten(lines), LF) == |lines|
    ensures Count(Flatten(lines), CR) >= |lines|
    ensures Count(Flatten(lines), CR) == |lines| <==> NoInnerCr(lines)
  {
    if lines != [] {
      BreaksCount(lines[1..]);
      HeadAndTail(lines);
      BreaksOfLine(lines[0]);
      CountAppend(lines[0], Flatten(lines[1..]), LF);
      CountAppend(lines[0], Flatten(lines[1..]), CR);
    }
  }

  lemma BreaksOfLine(line: seq<byte>)
    requires CrlfLine(line)
    ensures Count(line, LF) == 1 && Count(line, CR) >= 1
    ensures Count(line, CR) == 1 <==> NoInnerCr([line])
  {
    hide Count;
    BreaksOfContent(Content(line));
    assert line in [line];
  }

  lemma BreaksOfContent(content: seq<byte>)
    requires LF !in content
    ensures Count(content + CRLF, LF) == 1
    ensures Count(content + CRLF, CR) == Count(content, CR) + 1
  {
    CountAppend(content, CRLF, LF);
    CountAppend(content, CRLF, CR);
    assert CRLF[1..] == [LF];
  }

  lemma {:induction false} TrimmedInner(lines: seq<seq<byte>>)
    requires AllCrlf(lines)
    ensures AllCrlf(Trimmed(lines))
    ensures NoInnerCr(Trimmed(lines)) <==> NoInnerCr(lines)
  {
    if lines != [] && lines[|lines| - 1] == CRLF {
      SplitLast(lines);
      TrimmedInner(lines[..|lines| - 1]);
    }
  }

  /** The whole relaxed body: the verifier hashes what section 3.4.4 of RFC 6376 has it hash exactly when no
      line holds a CR of its own. */
  lemma {:induction false} RelaxedInputIsRfc(body: seq<seq<byte>>)
    requires AllCrlf(body)
    ensures VerifierInput(Verifying.Relaxed, body) == RfcInput(Verifying.Relaxed, body) <==> NoInnerCr(body)
  {
    CanonicalizedAre(body);
    RelaxedLinesAre(body);
    TrimmedInner(RelaxedLines(body));
    SameBreaks(Canonicalized(Verifying.Relaxed, body), RelaxedLines(body));
  }

  lemma SameBreaks(code: seq<seq<byte>>, rfc: seq<seq<byte>>)
    requires AllCrlf(code) && NoInnerCr(code) && AllCrlf(rfc)
    ensures Flatten(Trimmed(code)) == Flatten(Trimmed(rfc)) ==> NoInnerCr(rfc)
  {
    TrimmedInner(code);
    TrimmedInner(rfc);
    if Flatten(Trimmed(code)) == Flatten(Trimmed(rfc)) {
      BreaksTell(Trimmed(code), Trimmed(rfc));
    }
  }

  lemma BreaksTell(a: seq<seq<byte>>, b: seq<seq<byte>>)
    requires AllCrlf(a) && NoInnerCr(a) && AllCrlf(b) && Flatten(a) == Flatten(b)
    ensures NoInnerCr(b)
  {
    BreaksCount(a);
    BreaksCount(b);
  }

  /** The simple body: exactly when some line is not blank, since the verifier hashes nothing of an empty
      body where section 3.4.3 of RFC 6376 wants one CR LF. */
  lemma SimpleInputIsRfc(canon: Verifying.Canon, body: seq<seq<byte>>)
    requires AllCrlf(body) && !canon.Relaxed?
    ensures VerifierInput(canon, body) == RfcInput(canon, body) <==> Trimmed(body) != []
  {
    CanonicalizedSimple(canon, body);
  }
}
