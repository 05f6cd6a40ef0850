/**
 What the DKIM signer and the DKIM verifier share without sharing code: cutting a stream into lines, and
 feeding body lines to a hash while holding back blank ones. A hash stands for the bytes fed to it.
 */
module DkimBody {
  import opened Bytes

  /** The lines of `s`, each with its LF, and what follows the last LF. */
  function LinesOf(s: seq<byte>): seq<seq<byte>>
    decreases |s|
  {
    var offset := IndexOf(s, LF, 0);
    if offset == -1 then [] else [s[..offset + 1]] + LinesOf(s[offset + 1..])
  }

  function RestOf(s: seq<byte>): seq<byte>
    decreases |s|
  {
    var offset := IndexOf(s, LF, 0);
    if offset == -1 then s else RestOf(s[offset + 1..])
  }

  predicate IsLine(line: seq<byte>) {
    line != [] && line[|line| - 1] == LF && LF !in line[..|line| - 1]
  }

  lemma {:induction false} LinesAreLines(s: seq<byte>)
    ensures forall l :: l in LinesOf(s) ==> IsLine(l)
    ensures LF !in RestOf(s)
    decreases |s|
  {
    var offset := IndexOf(s, LF, 0);
    if offset != -1 {
      LinesAreLines(s[offset + 1..]);
      assert IsLine(s[..offset + 1]);
    }
  }

  lemma {:induction false} LinesOfLine(line: seq<byte>, more: seq<byte>)
    requires IsLine(line)
    ensures IndexOf(line + more, LF, 0) == |line| - 1
    ensures LinesOf(line + more) == [line] + LinesOf(more)
    ensures RestOf(line + more) == RestOf(more)
  {
    var s := line + more;
    assert s[|line| - 1] == LF;
    assert forall k :: 0 <= k < |line| - 1 ==> s[k] == line[..|line| - 1][k];
    assert s[..|line|] == line && s[|line|..] == more;
  }

  /** The lines and the rest are the bytes, in order. */
  lemma {:induction false} LinesAndRest(s: seq<byte>)
    ensures Flatten(LinesOf(s)) + RestOf(s) == s
    decreases |s|
  {
    var offset := IndexOf(s, LF, 0);
    if offset == -1 {
      assert [] + s == s;
    } else {
      var line, more := s[..offset + 1], s[offset + 1..];
      assert IsLine(line) && s == line + more;
      LinesAndRest(more);
      FlattenFirst(line, LinesOf(more));
      hide LinesOf, RestOf, IndexOf, Flatten;
      LinesOfLine(line, more);
      AppendAssoc(line, Flatten(LinesOf(more)), RestOf(more));
    }
  }

  lemma FlattenFirst(line: seq<byte>, lines: seq<seq<byte>>)
    ensures Flatten([line] + lines) == line + Flatten(lines)
  {
    assert ([line] + lines)[1..] == lines;
  }

  /** A second chunk goes on where the first left off, wherever the cut between them fell. */
  lemma {:induction false} LinesOfChunk(a: seq<byte>, b: seq<byte>)
    ensures LinesOf(a + b) == LinesOf(a) + LinesOf(RestOf(a) + b)
    ensures RestOf(a + b) == RestOf(RestOf(a) + b)
    decreases |a|
  {
    var offset := IndexOf(a, LF, 0);
    if offset != -1 {
      var line, more := a[..offset + 1], a[offset + 1..];
      assert IsLine(line);
      assert a == line + more && a + b == line + (more + b);
      LinesOfChunk(more, b);
      hide LinesOf, RestOf, IndexOf;
      LinesOfLine(line, more);
      LinesOfLine(line, more + b);
      AppendAssoc([line], LinesOf(more), LinesOf(RestOf(more) + b));
    }
  }

  // ----- feeding a hash -----

  /** Blank lines held back, and the bytes the hash has been fed. */
  datatype Body = Body(blanks: seq<byte>, fed: seq<byte>)

  const EMPTY_BODY := Body([], [])

  function Feed(b: Body, line: seq<byte>): Body {
    if line == CRLF then Body(b.blanks + line, b.fed) else Body([], b.fed + b.blanks + line)
  }

  function FeedAll(b: Body, lines: seq<seq<byte>>): Body
    decreases lines
  {
    if lines == [] then b else FeedAll(Feed(b, lines[0]), lines[1..])
  }

  lemma {:induction false} FeedAllSnoc(b: Body, lines: seq<seq<byte>>, last: seq<byte>)
    ensures FeedAll(b, lines + [last]) == Feed(FeedAll(b, lines), last)
    decreases lines
  {
    if lines == [] {
      assert [last][1..] == [];
    } else {
      FeedAllSnoc(Feed(b, lines[0]), lines[1..], last);
      assert (lines + [last])[1..] == lines[1..] + [last];
    }
  }

  /** The lines without the blank ones at the end (section 3.4.3 of RFC 6376). */
  function Trimmed(lines: seq<seq<byte>>): (t: seq<seq<byte>>)
    ensures t <= lines
    ensures t == [] || t[|t| - 1] != CRLF
    ensures forall k :: |t| <= k < |lines| ==> lines[k] == CRLF
  {
    if lines != [] && lines[|lines| - 1] == CRLF then Trimmed(lines[..|lines| - 1]) else lines
  }

  lemma HeldMore(init: seq<seq<byte>>, n: nat, last: seq<byte>)
    requires n <= |init|
    ensures Flatten((init + [last])[n..]) == Flatten(init[n..]) + last
  {
    assert (init + [last])[n..] == init[n..] + [last];
    FlattenSnoc(init[n..], last);
  }

  lemma HeldAndFed(lines: seq<seq<byte>>, n: nat)
    requires n <= |lines|
    ensures Flatten(lines[..n]) + Flatten(lines[n..]) == Flatten(lines)
  {
    FlattenAppend(lines[..n], lines[n..]);
    assert lines[..n] + lines[n..] == lines;
  }

  /** Holding blank lines back until another line follows comes to this: the hash gets the lines without
      the blank ones at the end, and those are what is held. */
  lemma {:induction false} FedIsTrimmed(lines: seq<seq<byte>>)
    ensures FeedAll(EMPTY_BODY, lines) == Body(Flatten(lines[|Trimmed(lines)|..]), Flatten(Trimmed(lines)))
  {
    if lines != [] {
      var init, last := lines[..|lines| - 1], lines[|lines| - 1];
      var t := Trimmed(init);
      SplitLast(lines);
      FedIsTrimmed(init);
      assert t == init[..|t|];
      assert Trimmed(lines) == if last == CRLF then t else lines;
      assert Flatten(lines[|lines|..]) == [];
      hide Flatten, FeedAll, Trimmed;
      FeedAllSnoc(EMPTY_BODY, init, last);
      if last == CRLF {
        HeldMore(init, |t|, last);
      } else {
        HeldAndFed(init, |t|);
        FlattenSnoc(init, last);
      }
    }
  }
}
