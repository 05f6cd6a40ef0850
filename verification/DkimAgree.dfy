/**
 The signer and the verifier are two programs; what they hash of one message is compared here, for every
 message and every pair of chunkings (DkimSign.Hashed and DkimVerify.Ended do not depend on the chunks).
 */
module DkimAgree {
  import opened Bytes
  import opened DkimBody
  import DkimCanon
  import opened DkimRfc
  import Signing = DkimSign
  import Verifying = DkimVerify

  /** Every LF of the message comes right after a CR. */
  predicate CrlfLines(message: seq<byte>) {
    forall i :: 0 <= i < |message| && message[i] == LF ==> i > 0 && message[i - 1] == CR
  }

  function NormalLines(lines: seq<seq<byte>>): seq<seq<byte>> {
    if lines == [] then [] else [Verifying.Normal(lines[0])] + NormalLines(lines[1..])
  }

  /** The lines of a message as the verifier sees them, the last one completed at the end of the stream. */
  function SeenLines(message: seq<byte>): seq<seq<byte>> {
    var rest := RestOf(message);
    NormalLines(LinesOf(message)) + if rest == [] then [] else [rest + CRLF]
  }

  /** The lines before the first blank one, and those behind it. */
  function HeaderOf(lines: seq<seq<byte>>): (h: seq<seq<byte>>)
    ensures CRLF !in h
  {
    if lines == [] || lines[0] == CRLF then [] else [lines[0]] + HeaderOf(lines[1..])
  }

  function BodyOf(lines: seq<seq<byte>>): seq<seq<byte>> {
    if lines == [] then [] else if lines[0] == CRLF then lines[1..] else BodyOf(lines[1..])
  }

  predicate AllBlank(lines: seq<seq<byte>>) {
    forall k :: 0 <= k < |lines| ==> lines[k] == CRLF
  }

  // ----- the verifier -----

  function SigLines(s: Verifying.Sig, lines: seq<seq<byte>>): Verifying.Sig
    decreases lines
  {
    if lines == [] then s else SigLines(s.Line(lines[0]), lines[1..])
  }

  lemma {:induction false} SigLinesFeed(s: Verifying.Sig, lines: seq<seq<byte>>)
    requires !s.canon.Settled? && AllCrlf(lines)
    ensures SigLines(s, lines) == Verifying.Sig(s.canon, FeedAll(s.body, Canonicalized(s.canon, lines)))
    decreases |lines|
  {
    if lines != [] {
      SigLinesFeed(s.Line(lines[0]), lines[1..]);
      assert Canonicalized(s.canon, lines)[1..] == Canonicalized(s.canon, lines[1..]);
      var l := if s.canon.Relaxed? then DkimCanon.Canonical(lines[0]) else lines[0];
      assert CrlfLine(lines[0]);
      assert l != [LF];
    }
  }

  /** A run of the verifier over lines that are normal already. */
  function VerifierLines(v: Verifying.Verifier, lines: seq<seq<byte>>,
      kind: seq<byte> -> Verifying.Field): Verifying.Verifier
    decreases lines
  {
    if lines == [] then v else VerifierLines(v.Line(lines[0], kind), lines[1..], kind)
  }

  lemma {:induction false} LinesAreVerifierLines(v: Verifying.Verifier, lines: seq<seq<byte>>,
      kind: seq<byte> -> Verifying.Field)
    ensures v.Lines(lines, kind) == VerifierLines(v, NormalLines(lines), kind)
    decreases |lines|
  {
    if lines != [] {
      LinesAreVerifierLines(v.Line(Verifying.Normal(lines[0]), kind), lines[1..], kind);
      assert NormalLines(lines)[1..] == NormalLines(lines[1..]);
    }
  }

  lemma {:induction false} VerifierSnoc(v: Verifying.Verifier, lines: seq<seq<byte>>, last: seq<byte>,
      kind: seq<byte> -> Verifying.Field)
    ensures VerifierLines(v, lines + [last], kind) == VerifierLines(v, lines, kind).Line(last, kind)
    decreases |lines|
  {
    if lines == [] {
      assert [last][1..] == [];
    } else {
      VerifierSnoc(v.Line(lines[0], kind), lines[1..], last, kind);
      assert (lines + [last])[1..] == lines[1..] + [last];
    }
  }

  lemma {:induction false} NormalAreCrlf(lines: seq<seq<byte>>)
    requires forall l :: l in lines ==> IsLine(l)
    ensures AllCrlf(NormalLines(lines))
  {
    if lines != [] {
      NormalAreCrlf(lines[1..]);
      NormalIsCrlf(lines[0]);
    }
  }

  lemma NormalIsCrlf(line: seq<byte>)
    requires IsLine(line)
    ensures CrlfLine(Verifying.Normal(line))
  {
    if |line| >= 2 && line[|line| - 2] == CR {
      assert line[..|line| - 1][..|line| - 2] == line[..|line| - 2];
    } else {
      assert (line[..|line| - 1] + CRLF)[..|line| - 1] == line[..|line| - 1];
    }
  }

  lemma {:induction false} BodyRun(sigs: seq<Verifying.Sig>, lines: seq<seq<byte>>, kind: seq<byte> -> Verifying.Field)
    ensures var v := VerifierLines(Verifying.InBody(sigs), lines, kind);
            && v.InBody? && |v.sigs| == |sigs|
            && forall k :: 0 <= k < |sigs| ==> v.sigs[k] == SigLines(sigs[k], lines)
    decreases |lines|
  {
    if lines != [] {
      BodyRun(Verifying.EachLine(sigs, lines[0]), lines[1..], kind);
    }
  }

  function UnfoldAll(fields: seq<seq<byte>>, lines: seq<seq<byte>>): seq<seq<byte>>
    decreases lines
  {
    if lines == [] then fields else UnfoldAll(Verifying.Unfold(fields, lines[0]), lines[1..])
  }

  /** The run over the header, and its end. */
  lemma {:induction false} HeaderRun(fields: seq<seq<byte>>, lines: seq<seq<byte>>, kind: seq<byte> -> Verifying.Field)
    ensures var all := UnfoldAll(fields, HeaderOf(lines));
            var sigs := Verifying.Signatures(all, kind);
            VerifierLines(Verifying.InHeader(fields), lines, kind) ==
            if CRLF !in lines then Verifying.InHeader(all)
            else
              VerifierLines(if sigs == [] then Verifying.NoSignatures else Verifying.InBody(sigs),
                            BodyOf(lines), kind)
    decreases |lines|
  {
    if lines != [] && lines[0] != CRLF {
      HeaderRun(Verifying.Unfold(fields, lines[0]), lines[1..], kind);
      assert HeaderOf(lines)[1..] == HeaderOf(lines[1..]);
    }
  }

  lemma {:induction false} HeaderAndBody(a: seq<seq<byte>>, b: seq<seq<byte>>)
    ensures CRLF in a ==> BodyOf(a + b) == BodyOf(a) + b && HeaderOf(a + b) == HeaderOf(a)
    ensures CRLF !in a ==> BodyOf(a) == [] && HeaderOf(a) == a
    ensures CRLF !in a ==> BodyOf(a + b) == BodyOf(b) && HeaderOf(a + b) == a + HeaderOf(b)
  {
    if a == [] {
      assert a + b == b;
    } else {
      assert (a + b)[0] == a[0] && (a + b)[1..] == a[1..] + b;
      assert a == [a[0]] + a[1..];
      if a[0] != CRLF {
        HeaderAndBody(a[1..], b);
        AppendAssoc([a[0]], a[1..], HeaderOf(b));
      }
    }
  }

  /** A run that has ended in the body has seen the end of the header. */
  lemma EndedUnfolds(message: seq<byte>, kind: seq<byte> -> Verifying.Field)
    ensures var v := VerifierLines(Verifying.START, NormalLines(LinesOf(message)), kind);
            && Verifying.Ended(message, kind) == v.End(RestOf(message), kind)
            && (!v.InHeader? ==> CRLF in NormalLines(LinesOf(message)))
  {
    LinesAreVerifierLines(Verifying.START, LinesOf(message), kind);
    if !VerifierLines(Verifying.START, NormalLines(LinesOf(message)), kind).InHeader? {
      InBodyHasEnd(NormalLines(LinesOf(message)), kind);
    }
  }

  /** The end of the stream adds no more than blank lines to those of the message. */
  lemma EndedRun(message: seq<byte>, kind: seq<byte> -> Verifying.Field) returns (blanks: seq<seq<byte>>)
    requires Verifying.Ended(message, kind).InBody?
    ensures AllBlank(blanks)
    ensures Verifying.Ended(message, kind) == VerifierLines(Verifying.START, SeenLines(message) + blanks, kind)
    ensures CRLF in SeenLines(message) || (blanks != [] && blanks[0] == CRLF)
  {
    EndedUnfolds(message, kind);
    var lines, rest := NormalLines(LinesOf(message)), RestOf(message);
    hide VerifierLines, NormalLines, LinesOf, RestOf, Verifying.After;
    if rest == [] {
      assert SeenLines(message) == lines;
      blanks := EndedAtLine(lines, kind);
    } else {
      assert SeenLines(message) == lines + [rest + CRLF];
      EndedInLine(lines, rest, kind);
      assert SeenLines(message) + [] == SeenLines(message);
      blanks := [];
    }
  }

  lemma EndedAtLine(lines: seq<seq<byte>>, kind: seq<byte> -> Verifying.Field) returns (blanks: seq<seq<byte>>)
    requires VerifierLines(Verifying.START, lines, kind).End([], kind).InBody?
    requires !VerifierLines(Verifying.START, lines, kind).InHeader? ==> CRLF in lines
    ensures AllBlank(blanks) && (CRLF in lines || (blanks != [] && blanks[0] == CRLF))
    ensures VerifierLines(Verifying.START, lines, kind).End([], kind)
            == VerifierLines(Verifying.START, lines + blanks, kind)
  {
    hide VerifierLines;
    VerifierSnoc(Verifying.START, lines, CRLF, kind);
    assert [] + CRLF == CRLF;
    if VerifierLines(Verifying.START, lines, kind).InHeader? {
      VerifierSnoc(Verifying.START, lines + [CRLF], CRLF, kind);
      assert lines + [CRLF] + [CRLF] == lines + [CRLF, CRLF];
      blanks := [CRLF, CRLF];
    } else {
      blanks := [CRLF];
    }
  }

  lemma EndedInLine(lines: seq<seq<byte>>, rest: seq<byte>, kind: seq<byte> -> Verifying.Field)
    requires rest != [] && VerifierLines(Verifying.START, lines, kind).End(rest, kind).InBody?
    requires !VerifierLines(Verifying.START, lines, kind).InHeader? ==> CRLF in lines
    ensures CRLF in lines + [rest + CRLF]
    ensures VerifierLines(Verifying.START, lines, kind).End(rest, kind)
            == VerifierLines(Verifying.START, lines + [rest + CRLF], kind)
  {
    hide VerifierLines;
    VerifierSnoc(Verifying.START, lines, rest + CRLF, kind);
    assert |rest + CRLF| != 2;
  }

  lemma InBodyHasEnd(lines: seq<seq<byte>>, kind: seq<byte> -> Verifying.Field)
    requires !VerifierLines(Verifying.START, lines, kind).InHeader?
    ensures CRLF in lines
  {
    HeaderRun([], lines, kind);
  }

  lemma SeenAreCrlf(message: seq<byte>)
    ensures AllCrlf(SeenLines(message))
  {
    LinesAreLines(message);
    NormalAreCrlf(LinesOf(message));
    var rest := RestOf(message);
    assert (rest + CRLF)[..|rest|] == rest;
  }

  lemma {:induction false} BodyAllCrlf(lines: seq<seq<byte>>)
    requires AllCrlf(lines)
    ensures AllCrlf(BodyOf(lines))
  {
    if lines != [] && lines[0] != CRLF {
      BodyAllCrlf(lines[1..]);
    }
  }

  lemma {:induction false} CanonicalizedAppend(canon: Verifying.Canon, a: seq<seq<byte>>, b: seq<seq<byte>>)
    ensures Canonicalized(canon, a + b) == Canonicalized(canon, a) + Canonicalized(canon, b)
  {
    hide DkimCanon.Canonical;
    if a == [] {
      assert a + b == b;
    } else {
      CanonicalizedAppend(canon, a[1..], b);
      assert (a + b)[0] == a[0] && (a + b)[1..] == a[1..] + b;
      AppendAssoc(Canonicalized(canon, a[..1]), Canonicalized(canon, a[1..]), Canonicalized(canon, b));
      assert Canonicalized(canon, a)[..1] == Canonicalized(canon, a[..1]);
    }
  }

  lemma CanonicalBlank()
    ensures DkimCanon.Canonical(CRLF) == CRLF
  {
    DkimCanon.VisibleOfContent([], CRLF);
    assert [] + CRLF == CRLF;
  }

  lemma {:induction false} CanonicalizedBlanks(canon: Verifying.Canon, blanks: seq<seq<byte>>)
    requires AllBlank(blanks)
    ensures Canonicalized(canon, blanks) == blanks
  {
    if blanks != [] {
      CanonicalizedBlanks(canon, blanks[1..]);
      CanonicalBlank();
      assert blanks == [CRLF] + blanks[1..];
    }
  }

  lemma {:induction false} TrimmedBlanks(lines: seq<seq<byte>>, blanks: seq<seq<byte>>)
    requires AllBlank(blanks)
    ensures Trimmed(lines + blanks) == Trimmed(lines)
  {
    if blanks == [] {
      assert lines + blanks == lines;
    } else {
      TrimmedBlanks(lines, blanks[..|blanks| - 1]);
      assert (lines + blanks)[..|lines + blanks| - 1] == lines + blanks[..|blanks| - 1];
    }
  }

  lemma {:induction false} SignaturesStart(fields: seq<seq<byte>>, kind: seq<byte> -> Verifying.Field)
    ensures forall s :: s in Verifying.Signatures(fields, kind) ==> s.body == EMPTY_BODY
  {
    if fields != [] {
      SignaturesStart(fields[..|fields| - 1], kind);
    }
  }

  lemma SigFed(s: Verifying.Sig, body: seq<seq<byte>>, blanks: seq<seq<byte>>)
    requires !s.canon.Settled? && s.body == EMPTY_BODY && AllCrlf(body)
    requires AllBlank(blanks)
    ensures SigLines(s, body + blanks).body.fed == VerifierInput(s.canon, body)
  {
    SigLinesFeed(s, body + blanks);
    CanonicalizedAppend(s.canon, body, blanks);
    CanonicalizedBlanks(s.canon, blanks);
    TrimmedBlanks(Canonicalized(s.canon, body), blanks);
    FedIsTrimmed(Canonicalized(s.canon, body) + blanks);
  }

  /** For every message and every chunking, every signature is fed the canonicalized lines behind the header
      without the blank ones at the end. */
  lemma {:induction false} VerifierHashes(message: seq<byte>, kind: seq<byte> -> Verifying.Field, k: nat)
    requires var v := Verifying.Ended(message, kind); v.InBody? && k < |v.sigs| && !v.sigs[k].canon.Settled?
    ensures var s := Verifying.Ended(message, kind).sigs[k];
            s.body.fed == VerifierInput(s.canon, BodyOf(SeenLines(message)))
  {
    var seen := SeenLines(message);
    var blanks := EndedRun(message, kind);
    SeenAreCrlf(message);
    LinesHash(seen, blanks, kind, k);
  }

  /** Against RFC 6376, for every message, every chunking and every signature: a simple body is hashed as the
      RFC has it exactly when some line behind the header is not blank, a relaxed one exactly when no line
      behind the header holds a CR of its own. */
  lemma {:induction false} VerifierFollowsRfc(message: seq<byte>, kind: seq<byte> -> Verifying.Field, k: nat)
    requires var v := Verifying.Ended(message, kind); v.InBody? && k < |v.sigs| && !v.sigs[k].canon.Settled?
    ensures AllCrlf(BodyOf(SeenLines(message)))
    ensures var s, body := Verifying.Ended(message, kind).sigs[k], BodyOf(SeenLines(message));
            s.body.fed == RfcInput(s.canon, body)
            <==> if s.canon.Relaxed? then NoInnerCr(body) else Trimmed(body) != []
  {
    var s, body := Verifying.Ended(message, kind).sigs[k], BodyOf(SeenLines(message));
    SeenAreCrlf(message);
    BodyAllCrlf(SeenLines(message));
    VerifierHashes(message, kind, k);
    if s.canon.Relaxed? {
      RelaxedInputIsRfc(body);
    } else {
      SimpleInputIsRfc(s.canon, body);
    }
  }

  lemma LinesHash(seen: seq<seq<byte>>, blanks: seq<seq<byte>>, kind: seq<byte> -> Verifying.Field, k: nat)
    requires AllCrlf(seen) && AllBlank(blanks)
    requires CRLF in seen || blanks != []
    requires var v := VerifierLines(Verifying.START, seen + blanks, kind);
             v.InBody? && k < |v.sigs| && !v.sigs[k].canon.Settled?
    ensures var s := VerifierLines(Verifying.START, seen + blanks, kind).sigs[k];
            s.body.fed == VerifierInput(s.canon, BodyOf(seen))
  {
    var more := BodyOfMore(seen, blanks);
    var fields := UnfoldAll([], HeaderOf(seen + blanks));
    var sigs := Verifying.Signatures(fields, kind);
    HeaderRun([], seen + blanks, kind);
    NoSignaturesRun(BodyOf(seen) + more, kind);
    SignaturesStart(fields, kind);
    BodyRun(sigs, BodyOf(seen) + more, kind);
    SigLinesCanon(sigs[k], BodyOf(seen) + more);
    BodyAllCrlf(seen);
    SigFed(sigs[k], BodyOf(seen), more);
  }

  lemma BodyOfMore(seen: seq<seq<byte>>, blanks: seq<seq<byte>>) returns (more: seq<seq<byte>>)
    requires AllBlank(blanks)
    requires CRLF in seen || blanks != []
    ensures AllBlank(more) && BodyOf(seen + blanks) == BodyOf(seen) + more
    ensures CRLF in seen + blanks
  {
    HeaderAndBody(seen, blanks);
    if CRLF in seen {
      more := blanks;
    } else {
      more := blanks[1..];
      assert [] + more == more;
      assert (seen + blanks)[|seen|] == CRLF;
    }
  }

  lemma {:induction false} SigLinesCanon(s: Verifying.Sig, lines: seq<seq<byte>>)
    ensures SigLines(s, lines).canon == s.canon
    decreases |lines|
  {
    if lines != [] {
      SigLinesCanon(s.Line(lines[0]), lines[1..]);
    }
  }

  lemma {:induction false} NoSignaturesRun(lines: seq<seq<byte>>, kind: seq<byte> -> Verifying.Field)
    ensures VerifierLines(Verifying.NoSignatures, lines, kind) == Verifying.NoSignatures
  {
    if lines != [] {
      NoSignaturesRun(lines[1..], kind);
    }
  }

  // ----- the signer -----

  lemma {:induction false} SignerBody(s: Signing.Signer, lines: seq<seq<byte>>)
    requires s.foundEoh
    ensures s.Lines(lines) ==
            Signing.Signer(true, s.bodyFound || Trimmed(lines) != [], FeedAll(s.body, lines))
    decreases |lines|
  {
    if lines != [] {
      SignerBody(s.Line(lines[0]), lines[1..]);
      TrimmedHead(lines);
    }
  }

  lemma {:induction false} TrimmedHead(lines: seq<seq<byte>>)
    requires lines != []
    ensures Trimmed(lines) != [] <==> lines[0] != CRLF || Trimmed(lines[1..]) != []
  {
    if lines[|lines| - 1] == CRLF && |lines| > 1 {
      TrimmedHead(lines[..|lines| - 1]);
      assert lines[..|lines| - 1][1..] == lines[1..][..|lines| - 2];
    }
  }

  lemma {:induction false} SignerRun(lines: seq<seq<byte>>)
    requires CRLF in lines
    ensures Signing.START.Lines(lines) ==
            Signing.Signer(true, Trimmed(BodyOf(lines)) != [], FeedAll(EMPTY_BODY, BodyOf(lines)))
    decreases |lines|
  {
    if lines[0] == CRLF {
      SignerBody(Signing.Signer(true, false, EMPTY_BODY), lines[1..]);
    } else {
      SignerRun(lines[1..]);
    }
  }

  lemma {:induction false} CrlfLinesAreNormal(message: seq<byte>)
    requires CrlfLines(message)
    ensures NormalLines(LinesOf(message)) == LinesOf(message)
    decreases |message|
  {
    var offset := IndexOf(message, LF, 0);
    if offset != -1 {
      var line, more := message[..offset + 1], message[offset + 1..];
      assert message[offset] == LF && message[offset - 1] == CR;
      forall i | 0 <= i < |more| && more[i] == LF ensures i > 0 && more[i - 1] == CR {
        assert message[offset + 1 + i] == LF;
      }
      CrlfLinesAreNormal(more);
      assert LinesOf(message)[1..] == LinesOf(more);
    }
  }

  lemma {:induction false} BlanksLength(blanks: seq<seq<byte>>)
    requires AllBlank(blanks)
    ensures |Flatten(blanks)| == 2 * |blanks|
    ensures blanks != [] ==> |Flatten(blanks)| >= 2 && Flatten(blanks)[1] == LF
  {
    if blanks != [] {
      BlanksLength(blanks[1..]);
    }
  }

  /** The signer hashes the body of a CR LF message with a header as section 3.4.3 of RFC 6376 has it exactly
      when the message ends in a line end, or in an unterminated line behind one that is not blank. */
  lemma {:induction false} SignerFollowsRfc(message: seq<byte>)
    requires CrlfLines(message) && CRLF in LinesOf(message)
    ensures AllCrlf(BodyOf(SeenLines(message)))
    ensures var body := BodyOf(LinesOf(message));
            Signing.Hashed(message) == RfcInput(Verifying.Simple, BodyOf(SeenLines(message)))
            <==> RestOf(message) == [] || (body != [] && body[|body| - 1] != CRLF)
  {
    hide BodyOf, HeaderOf, LinesOf, NormalLines;
    var lines, rest := LinesOf(message), RestOf(message);
    var body := BodyOf(lines);
    SeenAreCrlf(message);
    BodyAllCrlf(SeenLines(message));
    CrlfLinesAreNormal(message);
    SignerHashes(lines, rest);
    if rest == [] {
      assert lines + [] == lines;
    } else {
      SignerAgrees(message);
      CanonicalizedSimple(Verifying.Simple, BodyOf(SeenLines(message)));
      HeaderAndBody(lines, [rest + CRLF]);
    }
  }

  /** Signer and verifier hash the same bytes of a CR LF message with a header exactly when the body has a
      non-blank line and the message does not end in an unterminated line behind a blank one. */
  lemma {:induction false} SignerAgrees(message: seq<byte>)
    requires CrlfLines(message) && CRLF in LinesOf(message)
    ensures var body := BodyOf(LinesOf(message));
            Signing.Hashed(message) == VerifierInput(Verifying.Simple, BodyOf(SeenLines(message)))
            <==> Trimmed(body) != [] && (RestOf(message) == [] || body[|body| - 1] != CRLF)
  {
    var lines, rest := LinesOf(message), RestOf(message);
    var body := BodyOf(lines);
    CrlfLinesAreNormal(message);
    LinesAreLines(message);
    SignerHashes(lines, rest);
    CanonicalizedSimple(Verifying.Simple, BodyOf(SeenLines(message)));
    if rest == [] {
      assert lines + [] == lines;
    } else {
      HeaderAndBody(lines, [rest + CRLF]);
      TrimmedRest(body, rest);
      RestBehindBlanks(body, rest);
    }
  }

  lemma SignerHashes(lines: seq<seq<byte>>, rest: seq<byte>)
    requires CRLF in lines
    ensures var t := Trimmed(BodyOf(lines));
            Signing.START.Lines(lines).End(rest) ==
            Flatten(t) + (if rest != [] then rest + CRLF else []) + (if t != [] then [] else CRLF)
  {
    SignerRun(lines);
    FedIsTrimmed(BodyOf(lines));
  }

  lemma TrimmedRest(body: seq<seq<byte>>, rest: seq<byte>)
    requires rest != []
    ensures Flatten(Trimmed(body + [rest + CRLF])) == Flatten(body) + (rest + CRLF)
  {
    assert |rest + CRLF| > 2;
    FlattenSnoc(body, rest + CRLF);
  }

  lemma RestBehindBlanks(body: seq<seq<byte>>, rest: seq<byte>)
    requires rest != [] && LF !in rest
    ensures var t := Trimmed(body);
            Flatten(t) + (rest + CRLF) + (if t != [] then [] else CRLF) == Flatten(body) + (rest + CRLF)
            <==> t != [] && body[|body| - 1] != CRLF
  {
    hide Trimmed;
    var t := Trimmed(body);
    var blanks := body[|t|..];
    assert body == t + blanks;
    FlattenAppend(t, blanks);
    BlanksLength(blanks);
    hide Trimmed;
    if t == [] {
      RestAlone(blanks, rest);
      hide Flatten;
      NothingBefore(Flatten(t), Flatten(blanks), rest + CRLF, CRLF);
    } else {
      hide Flatten;
      Inserted(Flatten(t), Flatten(blanks), rest + CRLF);
    }
  }

  lemma NothingBefore(a: seq<byte>, b: seq<byte>, c: seq<byte>, d: seq<byte>)
    ensures a == [] ==> a + c + d == c + d && (a + b) + c == b + c
  {
    if a == [] {
      assert a + c == c && a + b == b;
    }
  }

  lemma Inserted(a: seq<byte>, b: seq<byte>, c: seq<byte>)
    ensures a + c + [] == a + b + c <==> b == []
  {
    if b == [] {
      assert a + b == a && a + c + [] == a + c;
    } else {
      assert |a + c + []| < |a + b + c|;
    }
  }

  lemma RestAlone(blanks: seq<seq<byte>>, rest: seq<byte>)
    requires rest != [] && LF !in rest && AllBlank(blanks)
    ensures rest + CRLF + CRLF != Flatten(blanks) + (rest + CRLF)
  {
    BlanksLength(blanks);
    var signed, verified := rest + CRLF + CRLF, Flatten(blanks) + (rest + CRLF);
    if blanks == [] {
      assert |signed| > |verified|;
    } else {
      assert verified[1] == LF;
      assert signed[1] == if |rest| > 1 then rest[1] else CR;
    }
  }

  /** The two programs on one message, for every signature with the simple body canonicalization. */
  lemma SignerAndVerifierAgree(message: seq<byte>, kind: seq<byte> -> Verifying.Field)
    requires CrlfLines(message) && CRLF in LinesOf(message)
    ensures var v, body := Verifying.Ended(message, kind), BodyOf(LinesOf(message));
            v.InBody? ==> forall k :: 0 <= k < |v.sigs| && v.sigs[k].canon.Simple? ==>
              (v.sigs[k].body.fed == Signing.Hashed(message)
               <==> Trimmed(body) != [] && (RestOf(message) == [] || body[|body| - 1] != CRLF))
  {
    var v, body := Verifying.Ended(message, kind), BodyOf(LinesOf(message));
    SignerAgrees(message);
    if v.InBody? {
      forall k | 0 <= k < |v.sigs| && v.sigs[k].canon.Simple?
        ensures v.sigs[k].body.fed == Signing.Hashed(message)
                <==> Trimmed(body) != [] && (RestOf(message) == [] || body[|body| - 1] != CRLF)
      {
        VerifierHashes(message, kind, k);
      }
    }
  }

  /** They agree exactly when both hash what section 3.4.3 of RFC 6376 has them hash. */
  lemma {:induction false} AgreeIffBothFollow(message: seq<byte>, kind: seq<byte> -> Verifying.Field, k: nat)
    requires CrlfLines(message) && CRLF in LinesOf(message)
    requires var v := Verifying.Ended(message, kind); v.InBody? && k < |v.sigs| && v.sigs[k].canon.Simple?
    ensures AllCrlf(BodyOf(SeenLines(message)))
    ensures var fed := Verifying.Ended(message, kind).sigs[k].body.fed;
            var rfc := RfcInput(Verifying.Simple, BodyOf(SeenLines(message)));
            fed == Signing.Hashed(message) <==> fed == rfc && Signing.Hashed(message) == rfc
  {
    SignerAndVerifierAgree(message, kind);
    SignerFollowsRfc(message);
    VerifierFollowsRfc(message, kind, k);
    BothConditions(message);
  }

  lemma BothConditions(message: seq<byte>)
    requires CrlfLines(message) && CRLF in LinesOf(message)
    ensures var body, rest := BodyOf(LinesOf(message)), RestOf(message);
            Trimmed(body) != [] && (rest == [] || body[|body| - 1] != CRLF)
            <==> Trimmed(BodyOf(SeenLines(message))) != [] && (rest == [] || (body != [] && body[|body| - 1] != CRLF))
  {
    var lines, rest := LinesOf(message), RestOf(message);
    CrlfLinesAreNormal(message);
    if rest == [] {
      assert lines + [] == lines;
    } else {
      HeaderAndBody(lines, [rest + CRLF]);
    }
  }
}
