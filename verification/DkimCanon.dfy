/**
 Relaxed body canonicalization of one line (email/dkim.js, DKIMObject.canonicalize), proved against
 section 3.4.4 of RFC 6376: white space runs become one SP, white space at the end of a line goes.
 */
module DkimCanon {
  import opened Bytes

  predicate Wsp(b: byte) {
    b == TAB || b == SP
  }

  /** Every run of white space becomes one SP. */
  function Collapse(s: seq<byte>): seq<byte> {
    if s == [] then []
    else
      var init, c := s[..|s| - 1], s[|s| - 1];
      if !Wsp(c) then Collapse(init) + [c]
      else if init != [] && Wsp(init[|init| - 1]) then Collapse(init)
      else Collapse(init) + [SP]
  }

  function TrimEnd(s: seq<byte>): seq<byte> {
    if s != [] && Wsp(s[|s| - 1]) then TrimEnd(s[..|s| - 1]) else s
  }

  /** Section 3.4.4 of RFC 6376 on what a line holds before its CR LF. */
  function RelaxedContent(content: seq<byte>): seq<byte> {
    Collapse(TrimEnd(content))
  }

  /** The part of a line the code looks at: up to the first CR or LF. */
  function Visible(line: seq<byte>): (v: seq<byte>)
    ensures CR !in v && LF !in v
    ensures |v| <= |line| && v == line[..|v|]
    ensures |v| < |line| ==> line[|v|] == CR || line[|v|] == LF
  {
    if line == [] || line[0] == CR || line[0] == LF then [] else [line[0]] + Visible(line[1..])
  }

  /** Where the last word of `s` starts, when white space comes before it; else 0. */
  function LastWord(s: seq<byte>): (w: nat)
    ensures w <= |s|
  {
    if s == [] then 0
    else
      var init := s[..|s| - 1];
      if !Wsp(s[|s| - 1]) && init != [] && Wsp(init[|init| - 1]) then |init| else LastWord(init)
  }

  /** What canonicalize answers. A line without CR or LF loses its last word. */
  function Canonical(line: seq<byte>): seq<byte> {
    var v := Visible(line);
    (if |v| < |line| then RelaxedContent(v) else Collapse(line[..LastWord(line)])) + CRLF
  }

  lemma {:induction false} CollapseSnoc(s: seq<byte>, c: byte)
    ensures Collapse(s + [c]) ==
            if !Wsp(c) then Collapse(s) + [c]
            else if s != [] && Wsp(s[|s| - 1]) then Collapse(s)
            else Collapse(s) + [SP]
  {
    var t := s + [c];
    assert t[..|t| - 1] == s && t[|t| - 1] == c;
  }

  lemma {:induction false} TrimEndSnoc(s: seq<byte>, c: byte)
    ensures TrimEnd(s + [c]) == if Wsp(c) then TrimEnd(s) else s + [c]
  {
    var t := s + [c];
    assert t[..|t| - 1] == s && t[|t| - 1] == c;
  }

  lemma {:induction false} LastWordSnoc(s: seq<byte>, c: byte)
    ensures LastWord(s + [c]) == if !Wsp(c) && s != [] && Wsp(s[|s| - 1]) then |s| else LastWord(s)
  {
    var t := s + [c];
    assert t[..|t| - 1] == s && t[|t| - 1] == c;
  }

  /** How far the loop of canonicalize has come: `out` is written, `bytes[chunk..]` is not. */
  ghost predicate Scanned(s: seq<byte>, out: seq<byte>, chunk: nat, inWsp: bool, wsp: nat) {
    && chunk == LastWord(s) && out == Collapse(s[..chunk])
    && (inWsp <==> s != [] && Wsp(s[|s| - 1]))
    && if inWsp then
         && chunk <= wsp < |s|
         && TrimEnd(s) == s[..wsp]
         && Collapse(s[..wsp]) == out + s[chunk..wsp]
         && Collapse(s) == out + s[chunk..wsp] + [SP]
       else TrimEnd(s) == s && Collapse(s) == out + s[chunk..]
  }

  lemma ScanWsp(s: seq<byte>, c: byte, out: seq<byte>, chunk: nat, inWsp: bool, wsp: nat)
    requires Wsp(c) && Scanned(s, out, chunk, inWsp, wsp)
    ensures Scanned(s + [c], out, chunk, true, if inWsp then wsp else |s|)
  {
    hide Collapse, TrimEnd, LastWord;
    CollapseSnoc(s, c);
    TrimEndSnoc(s, c);
    LastWordSnoc(s, c);
    assert (s + [c])[..chunk] == s[..chunk];
    if inWsp {
      assert (s + [c])[..wsp] == s[..wsp];
      assert (s + [c])[chunk..wsp] == s[chunk..wsp];
    } else {
      assert (s + [c])[..|s|] == s;
      assert (s + [c])[chunk..|s|] == s[chunk..];
    }
  }

  lemma ScanWord(s: seq<byte>, c: byte, out: seq<byte>, chunk: nat, wsp: nat)
    requires !Wsp(c) && Scanned(s, out, chunk, false, wsp)
    ensures Scanned(s + [c], out, chunk, false, wsp)
  {
    hide Collapse, TrimEnd, LastWord;
    CollapseSnoc(s, c);
    TrimEndSnoc(s, c);
    LastWordSnoc(s, c);
    assert (s + [c])[..chunk] == s[..chunk];
    assert (s + [c])[chunk..] == s[chunk..] + [c];
    AppendAssoc(out, s[chunk..], [c]);
  }

  lemma ScanNewWord(s: seq<byte>, c: byte, out: seq<byte>, chunk: nat, wsp: nat)
    requires !Wsp(c) && Scanned(s, out, chunk, true, wsp)
    ensures Scanned(s + [c], out + s[chunk..wsp] + [SP], |s|, false, wsp)
  {
    hide Collapse, TrimEnd, LastWord;
    CollapseSnoc(s, c);
    TrimEndSnoc(s, c);
    LastWordSnoc(s, c);
    assert (s + [c])[..|s|] == s;
    assert (s + [c])[|s|..] == [c];
  }

  /** One turn of the loop, at a byte that is neither CR nor LF. */
  lemma ScanStep(bytes: seq<byte>, idx: nat, out: seq<byte>, chunk: nat, inWsp: bool, wsp: nat)
    requires idx < |bytes| && Scanned(bytes[..idx], out, chunk, inWsp, wsp)
    ensures Wsp(bytes[idx]) ==> Scanned(bytes[..idx + 1], out, chunk, true, if inWsp then wsp else idx)
    ensures !Wsp(bytes[idx]) && inWsp ==> Scanned(bytes[..idx + 1], out + bytes[chunk..wsp] + [SP], idx, false, wsp)
    ensures !Wsp(bytes[idx]) && !inWsp ==> Scanned(bytes[..idx + 1], out, chunk, false, wsp)
  {
    var seen, b := bytes[..idx], bytes[idx];
    assert bytes[..idx + 1] == seen + [b];
    if Wsp(b) {
      ScanWsp(seen, b, out, chunk, inWsp, wsp);
    } else if inWsp {
      TakeSlice(bytes, idx, chunk, wsp);
      ScanNewWord(seen, b, out, chunk, wsp);
    } else {
      ScanWord(seen, b, out, chunk, wsp);
    }
  }

  lemma ScanStart(bytes: seq<byte>)
    ensures Scanned(bytes[..0], [], 0, false, 0)
  {
  }

  lemma ScanRelaxed(bytes: seq<byte>, idx: nat, out: seq<byte>, chunk: nat, inWsp: bool, wsp: nat)
    requires idx < |bytes| && Scanned(bytes[..idx], out, chunk, inWsp, wsp)
    ensures RelaxedContent(bytes[..idx]) == out + bytes[chunk..if inWsp then wsp else idx]
  {
    hide Collapse, TrimEnd, LastWord;
    var seen := bytes[..idx];
    if inWsp {
      TakeSlice(bytes, idx, chunk, wsp);
    } else {
      assert bytes[chunk..idx] == seen[chunk..];
    }
  }

  /** The end of the loop, at a CR or LF. */
  lemma ScanEnd(bytes: seq<byte>, idx: nat, out: seq<byte>, chunk: nat, inWsp: bool, wsp: nat)
    requires idx < |bytes| && Scanned(bytes[..idx], out, chunk, inWsp, wsp)
    requires Visible(bytes) == bytes[..idx]
    ensures Canonical(bytes) == out + bytes[chunk..if inWsp then wsp else idx] + CRLF
  {
    hide Visible, RelaxedContent, Collapse, TrimEnd, LastWord;
    ScanRelaxed(bytes, idx, out, chunk, inWsp, wsp);
  }

  /** The end of a line without CR or LF. */
  lemma ScanNoEnd(bytes: seq<byte>, out: seq<byte>, chunk: nat, inWsp: bool, wsp: nat)
    requires Scanned(bytes, out, chunk, inWsp, wsp) && |Visible(bytes)| == |bytes|
    ensures Canonical(bytes) == out + CRLF
  {
  }

  method Canonicalize(bytes: seq<byte>) returns (out: seq<byte>)
    ensures out == Canonical(bytes)
  {
    hide Canonical, Visible, Collapse, TrimEnd, LastWord;
    out := [];
    var lastChunkIdx, idxWsp, inWsp := 0, 0, false;
    var idx := 0;
    ScanStart(bytes);
    while idx < |bytes|
      invariant idx <= |Visible(bytes)| <= |bytes|
      invariant Scanned(bytes[..idx], out, lastChunkIdx, inWsp, idxWsp)
    {
      var b := bytes[idx];
      VisibleFrom(bytes, idx);
      if b == TAB || b == SP {
        ScanStep(bytes, idx, out, lastChunkIdx, inWsp, idxWsp);
        if !inWsp {
          inWsp, idxWsp := true, idx;
        }
      } else if b == CR || b == LF {
        ScanEnd(bytes, idx, out, lastChunkIdx, inWsp, idxWsp);
        if inWsp {
          out := out + bytes[lastChunkIdx..idxWsp];
        } else {
          out := out + bytes[lastChunkIdx..idx];
        }
        out := out + CRLF;
        return;
      } else {
        ScanStep(bytes, idx, out, lastChunkIdx, inWsp, idxWsp);
        if inWsp {
          inWsp := false;
          out := out + bytes[lastChunkIdx..idxWsp] + [SP];
          lastChunkIdx := idx;
        }
      }
      idx := idx + 1;
    }
    assert bytes[..idx] == bytes;
    ScanNoEnd(bytes, out, lastChunkIdx, inWsp, idxWsp);
    out := out + CRLF;
  }

  lemma VisibleFrom(bytes: seq<byte>, idx: nat)
    requires idx < |bytes| && |Visible(bytes)| >= idx
    ensures if bytes[idx] == CR || bytes[idx] == LF then Visible(bytes) == bytes[..idx] && |Visible(bytes)| < |bytes|
            else |Visible(bytes)| >= idx + 1
  {
    var v := Visible(bytes);
    if |v| > idx {
      assert v[idx] == bytes[idx];
    }
  }

  // ----- what it means -----

  lemma {:induction false} CollapseKeeps(s: seq<byte>, b: byte)
    requires !Wsp(b)
    ensures b in Collapse(s) <==> b in s
  {
    if s != [] {
      SplitLast(s);
      CollapseKeeps(s[..|s| - 1], b);
    }
  }

  lemma {:induction false} TrimEndKeeps(s: seq<byte>, b: byte)
    requires !Wsp(b)
    ensures b in TrimEnd(s) <==> b in s
  {
    if s != [] {
      SplitLast(s);
      if Wsp(s[|s| - 1]) {
        TrimEndKeeps(s[..|s| - 1], b);
      }
    }
  }

  lemma {:induction false} TrimEndTrims(s: seq<byte>)
    ensures TrimEnd(s) == [] || !Wsp(TrimEnd(s)[|TrimEnd(s)| - 1])
    ensures TrimEnd(TrimEnd(s)) == TrimEnd(s)
  {
    if s != [] && Wsp(s[|s| - 1]) {
      TrimEndTrims(s[..|s| - 1]);
    }
  }

  lemma {:induction false} VisibleOfContent(content: seq<byte>, end: seq<byte>)
    requires CR !in content && LF !in content
    requires end != [] && (end[0] == CR || end[0] == LF)
    ensures Visible(content + end) == content
  {
    if content == [] {
      assert content + end == end;
    } else {
      VisibleOfContent(content[1..], end);
      assert (content + end)[1..] == content[1..] + end;
    }
  }

  lemma CutCrlf(a: seq<byte>, b: seq<byte>)
    ensures a + CRLF == b + CRLF ==> a == b
  {
    if a + CRLF == b + CRLF {
      assert a == (a + CRLF)[..|a|];
      assert b == (b + CRLF)[..|b|];
    }
  }

  /** On a CR LF-terminated line the code does what section 3.4.4 of RFC 6376 asks exactly when the
      line holds no other CR or LF; at such a byte it cuts the line off. */
  lemma {:induction false} CanonicalIsRelaxed(content: seq<byte>)
    ensures Canonical(content + CRLF) == RelaxedContent(content) + CRLF <==> CR !in content && LF !in content
  {
    if CR !in content && LF !in content {
      VisibleOfContent(content, CRLF);
    } else {
      var b := if CR in content then CR else LF;
      var v := Visible(content + CRLF);
      assert (content + CRLF)[|content|] == CR;
      assert |v| <= |content|;
      TrimEndKeeps(v, b);
      CollapseKeeps(TrimEnd(v), b);
      TrimEndKeeps(content, b);
      CollapseKeeps(TrimEnd(content), b);
      CutCrlf(RelaxedContent(v), RelaxedContent(content));
    }
  }

  lemma {:induction false} CollapseTwice(s: seq<byte>)
    ensures Collapse(Collapse(s)) == Collapse(s)
    ensures s != [] ==> Collapse(s) != [] && (Wsp(Collapse(s)[|Collapse(s)| - 1]) <==> Wsp(s[|s| - 1]))
  {
    if s != [] {
      var init, c := s[..|s| - 1], s[|s| - 1];
      CollapseTwice(init);
      CollapseSnoc(Collapse(init), c);
      CollapseSnoc(Collapse(init), SP);
    }
  }

  /** Canonicalizing twice changes nothing exactly when the line has a CR or LF, or has no word with
      white space before it: an unterminated `a b` becomes `a` SP, then `a`. */
  lemma {:induction false} CanonicalTwice(line: seq<byte>)
    ensures Canonical(Canonical(line)) == Canonical(line) <==> |Visible(line)| < |line| || LastWord(line) == 0
  {
    var v := Visible(line);
    if |v| < |line| {
      var content := RelaxedContent(v);
      CanonicalContent(v);
      TrimEndTrims(v);
      CollapseTwice(TrimEnd(v));
      TrimEndIs(content);
    } else {
      assert line[..|v|] == line;
      var content := Collapse(line[..LastWord(line)]);
      LastWordIs(line);
      NoBreak(line[..LastWord(line)]);
      VisibleOfContent(content, CRLF);
      CollapseTwice(line[..LastWord(line)]);
      if LastWord(line) > 0 {
        TrimEndShorter(content);
        CollapseShorter(TrimEnd(content));
      }
    }
  }

  lemma CanonicalContent(v: seq<byte>)
    requires CR !in v && LF !in v
    ensures Visible(RelaxedContent(v) + CRLF) == RelaxedContent(v)
  {
    TrimEndKeeps(v, CR);
    TrimEndKeeps(v, LF);
    NoBreak(TrimEnd(v));
    VisibleOfContent(RelaxedContent(v), CRLF);
  }

  lemma NoBreak(s: seq<byte>)
    requires CR !in s && LF !in s
    ensures CR !in Collapse(s) && LF !in Collapse(s)
  {
    CollapseKeeps(s, CR);
    CollapseKeeps(s, LF);
  }

  lemma TrimEndIs(s: seq<byte>)
    requires s == [] || !Wsp(s[|s| - 1])
    ensures TrimEnd(s) == s
  {
  }

  lemma {:induction false} LastWordIs(s: seq<byte>)
    ensures LastWord(s) > 0 ==> Wsp(s[LastWord(s) - 1])
  {
    if s != [] {
      LastWordIs(s[..|s| - 1]);
    }
  }

  lemma {:induction false} TrimEndShorter(s: seq<byte>)
    ensures |TrimEnd(s)| <= |s|
    ensures s != [] && Wsp(s[|s| - 1]) ==> |TrimEnd(s)| < |s|
  {
    if s != [] && Wsp(s[|s| - 1]) {
      TrimEndShorter(s[..|s| - 1]);
    }
  }

  lemma {:induction false} CollapseShorter(s: seq<byte>)
    ensures |Collapse(s)| <= |s|
  {
    if s != [] {
      CollapseShorter(s[..|s| - 1]);
    }
  }
}
