/**
 The DATA phase of an inbound session (email/connection.js): bytes arrive in arbitrary chunks, are cut
 into lines, and lines over the limit are folded by putting CR LF SP into the buffer.
 The class is proved equal to a function of all the bytes received, whatever the chunks were, and that
 function is proved to be plain line splitting followed by a folding of each line on its own.
 */
module DataPhase {
  import opened Bytes

  const FOLD: seq<byte> := [CR, LF, SP]

  /** `.` CR LF, and the bare-LF form that is refused; accumulate_data stops at either. */
  predicate IsEnd(line: seq<byte>) {
    line == [DOT, CR, LF] || line == [DOT, LF]
  }

  /** What has become of the bytes so far: lines handed on and a rest, or the end of the message, with
      the bytes that came after it. */
  datatype Received =
    | Open(lines: seq<seq<byte>>, rest: seq<byte>)
    | Ended(lines: seq<seq<byte>>, end: seq<byte>, tail: seq<byte>)
  {
    function After(earlier: seq<seq<byte>>): Received {
      match this
      case Open(ls, r) => Open(earlier + ls, r)
      case Ended(ls, e, t) => Ended(earlier + ls, e, t)
    }
  }

  function Folded(buf: seq<byte>, limit: nat): seq<byte>
    requires 3 < limit < |buf|
  {
    buf[..limit - 2] + FOLD + buf[limit - 2..]
  }

  /** What the code makes of a buffer. */
  function Receive(buf: seq<byte>, limit: nat): Received
    requires limit > 3
    decreases |buf|
  {
    var offset := IndexOfLF(buf, limit);
    if offset != -1 then
      var line := buf[..offset + 1];
      if IsEnd(line) then Ended([], line, buf[offset + 1..])
      else Receive(buf[offset + 1..], limit).After([line])
    else if |buf| > limit then
      // the fold, and the line it makes
      Receive([SP] + buf[limit - 2..], limit).After([buf[..limit - 2] + CRLF])
    else Open([], buf)
  }

  /** What stays in the buffer behind the end of the message: a long run without LF is still folded, once. */
  function Behind(tail: seq<byte>, limit: nat): seq<byte>
    requires limit > 3
  {
    if |tail| > limit && IndexOfLF(tail, limit) == -1 then Folded(tail, limit) else tail
  }

  // ----- the code -----

  datatype State = Data | PauseData

  class Session {
    const limit: nat                  // max_data_line_length
    var state: State
    var currentData: seq<byte>
    var lines: seq<seq<byte>>         // lines accumulate_data kept
    var end: seq<byte>                // the line that ended the message
    ghost var received: seq<byte>

    ghost predicate Valid()
      reads this
    {
      && limit > 3
      && Matches(Receive(received, limit))
    }

    ghost predicate Matches(r: Received)
      requires limit > 3
      reads this`state, this`currentData, this`lines, this`end
    {
      match r
      case Open(ls, rest) => state == Data && lines == ls && currentData == rest
      case Ended(ls, e, tail) => state == PauseData && lines == ls && end == e && currentData == Behind(tail, limit)
    }

    constructor (limit: nat)
      requires limit > 3
      ensures Valid() && received == [] && this.limit == limit
    {
      this.limit, state, currentData, lines, end, received := limit, Data, [], [], [], [];
    }

    /** process_data. */
    method ProcessData(data: seq<byte>)
      requires Valid()
      modifies this
      ensures Valid() && received == old(received) + data
    {
      ReceiveChunk(received, data, limit);
      if state == PauseData {
        BehindChunk(Receive(received, limit).tail, data, limit);
      }
      received := received + data;
      currentData := currentData + data;
      ProcessBuffer();
    }

    /** What the state stands for: the lines handed on, then what the buffer makes. */
    ghost function Standing(): Received
      requires limit > 3
      reads this`state, this`currentData, this`lines, this`end
    {
      if state == PauseData then Ended(lines, end, currentData) else Receive(currentData, limit).After(lines)
    }

    /** _process_data. */
    method ProcessBuffer()
      requires limit > 3
      modifies this`state, this`currentData, this`lines, this`end
      ensures Matches(old(Standing()))
      decreases |currentData| - if IndexOfLF(currentData, limit) == limit - 1 then 4 else 0
    {
      hide Receive, IndexOf;
      ghost var start := currentData;
      var offset := IndexOfLF(currentData, limit);
      while offset != -1
        invariant offset == IndexOfLF(currentData, limit)
        invariant currentData == start || |currentData| < |start| - IndexOfLF(start, limit)
        invariant Standing() == old(Standing())
        decreases |currentData|
      {
        if state == PauseData { return; }
        TakeLine(offset);
        offset := IndexOfLF(currentData, limit);
      }
      if |currentData| > limit {
        FoldedFirstLine(currentData, limit);
        currentData := currentData[..limit - 2] + FOLD + currentData[limit - 2..];
        ProcessBuffer();
      } else {
        NoLine(currentData, limit, lines);
      }
    }

    /** One line of the buffer, up to its LF. */
    method TakeLine(offset: nat)
      requires limit > 3 && state == Data && offset == IndexOfLF(currentData, limit)
      modifies this`state, this`currentData, this`lines, this`end
      ensures Standing() == old(Standing()) && |currentData| == |old(currentData)| - offset - 1
    {
      hide Receive, IndexOfLF;
      var thisLine := currentData[..offset + 1];
      FirstLine(currentData, limit, lines);
      currentData := currentData[offset + 1..];
      AccumulateData(thisLine);
    }

    /** accumulate_data, as far as it concerns the end of the message. data_done and the refusal of a
        bare LF both pause the session. */
    method AccumulateData(line: seq<byte>)
      requires state == Data
      modifies this`state, this`lines, this`end
      ensures IsEnd(line) ==> state == PauseData && end == line && lines == old(lines)
      ensures !IsEnd(line) ==> state == Data && lines == old(lines) + [line] && end == old(end)
    {
      if |line| == 3 && line[0] == DOT && line[1] == CR && line[2] == LF {
        state, end := PauseData, line;
        return;
      }
      if |line| == 2 && line[0] == DOT && line[1] == LF {
        state, end := PauseData, line;
        return;
      }
      lines := lines + [line];
    }
  }

  lemma AfterAfter(r: Received, a: seq<seq<byte>>, b: seq<seq<byte>>)
    ensures r.After(b).After(a) == r.After(a + b)
  {
    match r {
      case Open(ls, _) => AppendAssoc(a, b, ls);
      case Ended(ls, _, _) => AppendAssoc(a, b, ls);
    }
  }

  lemma AfterOpen(lines: seq<seq<byte>>)
    ensures lines + [] == lines
  {
  }

  lemma NoLine(buf: seq<byte>, limit: nat, earlier: seq<seq<byte>>)
    requires limit > 3 && IndexOfLF(buf, limit) == -1 && |buf| <= limit
    ensures Receive(buf, limit).After(earlier) == Open(earlier, buf)
  {
    AfterOpen(earlier);
  }

  lemma FirstLine(buf: seq<byte>, limit: nat, earlier: seq<seq<byte>>)
    requires limit > 3 && IndexOfLF(buf, limit) != -1
    ensures var offset := IndexOfLF(buf, limit);
            var line, more := buf[..offset + 1], buf[offset + 1..];
            Receive(buf, limit).After(earlier) ==
            if IsEnd(line) then Ended(earlier, line, more) else Receive(more, limit).After(earlier + [line])
  {
    var offset := IndexOfLF(buf, limit);
    AfterAfter(Receive(buf[offset + 1..], limit), earlier, [buf[..offset + 1]]);
    AfterOpen(earlier);
  }

  /** After a fold the first line found is the piece cut off, and it never is the end of the message. */
  lemma FoldedFirstLine(buf: seq<byte>, limit: nat)
    requires 3 < limit < |buf| && IndexOfLF(buf, limit) == -1
    ensures IndexOfLF(Folded(buf, limit), limit) == limit - 1
    ensures Folded(buf, limit)[..limit] == buf[..limit - 2] + CRLF && !IsEnd(buf[..limit - 2] + CRLF)
    ensures Folded(buf, limit)[limit..] == [SP] + buf[limit - 2..]
    ensures Receive(Folded(buf, limit), limit) == Receive(buf, limit)
    ensures Behind(Folded(buf, limit), limit) == Folded(buf, limit)
  {
    var f := Folded(buf, limit);
    assert forall k :: 0 <= k < limit - 2 ==> f[k] == buf[k];
    assert f[limit - 1] == LF && f[limit - 2] == CR;
    assert f[..limit] == buf[..limit - 2] + CRLF;
    assert f[limit..] == [SP] + buf[limit - 2..];
  }

  /** IndexOfLF finds an LF that is there. */
  lemma IndexOfLFIs(s: seq<byte>, limit: nat, i: nat)
    requires i < |s| && s[i] == LF && forall k :: 0 <= k < i ==> s[k] != LF
    ensures IndexOfLF(s, limit) == if i < limit then i else -1
  {
  }

  /** What later bytes make of what is received: they follow the rest, or the end of the message. */
  function Continued(r: Received, later: seq<byte>, limit: nat): Received
    requires limit > 3
  {
    match r
    case Open(ls, rest) => Receive(rest + later, limit).After(ls)
    case Ended(ls, e, tail) => Ended(ls, e, tail + later)
  }

  lemma ContinuedAfter(r: Received, later: seq<byte>, earlier: seq<seq<byte>>, limit: nat)
    requires limit > 3
    ensures Continued(r.After(earlier), later, limit) == Continued(r, later, limit).After(earlier)
  {
    if r.Open? {
      AfterAfter(Receive(r.rest + later, limit), earlier, r.lines);
    }
  }

  /** Bytes that arrive later do not change what was made of the bytes that came first: a second chunk
      continues the first, wherever the cut between them fell. */
  lemma {:induction false} ReceiveChunk(a: seq<byte>, b: seq<byte>, limit: nat)
    requires limit > 3
    ensures Receive(a + b, limit) == Continued(Receive(a, limit), b, limit)
    decreases |a|
  {
    var offset := IndexOfLF(a, limit);
    if offset != -1 {
      ChunkBehindLine(a, b, limit, offset);
      if !IsEnd(a[..offset + 1]) {
        ReceiveChunk(a[offset + 1..], b, limit);
        ContinuedAfter(Receive(a[offset + 1..], limit), b, [a[..offset + 1]], limit);
      }
    } else if |a| > limit {
      ChunkBehindFold(a, b, limit);
      ReceiveChunk([SP] + a[limit - 2..], b, limit);
      ContinuedAfter(Receive([SP] + a[limit - 2..], limit), b, [a[..limit - 2] + CRLF], limit);
    } else {
      AfterNothing(Receive(a + b, limit));
    }
  }

  lemma ChunkBehindLine(a: seq<byte>, b: seq<byte>, limit: nat, offset: nat)
    requires limit > 3 && offset == IndexOfLF(a, limit)
    ensures IndexOfLF(a + b, limit) == offset
    ensures (a + b)[..offset + 1] == a[..offset + 1] && (a + b)[offset + 1..] == a[offset + 1..] + b
  {
    assert forall k :: 0 <= k <= offset ==> (a + b)[k] == a[k];
    IndexOfLFIs(a + b, limit, offset);
  }

  lemma ChunkBehindFold(a: seq<byte>, b: seq<byte>, limit: nat)
    requires 3 < limit < |a| && IndexOfLF(a, limit) == -1
    ensures IndexOfLF(a + b, limit) == -1
    ensures (a + b)[..limit - 2] == a[..limit - 2]
    ensures [SP] + (a + b)[limit - 2..] == ([SP] + a[limit - 2..]) + b
  {
    assert forall k :: 0 <= k < limit ==> (a + b)[k] == a[k];
  }

  lemma AfterNothing(r: Received)
    ensures r.After([]) == r
  {
    match r {
      case Open(ls, _) => assert [] + ls == ls;
      case Ended(ls, _, _) => assert [] + ls == ls;
    }
  }

  lemma BehindChunk(tail: seq<byte>, b: seq<byte>, limit: nat)
    requires limit > 3
    ensures Behind(Behind(tail, limit) + b, limit) == Behind(tail + b, limit)
  {
    if |tail| > limit && IndexOfLF(tail, limit) == -1 {
      FoldedFirstLine(tail, limit);
      var f := Folded(tail, limit);
      IndexOfLFIs(f + b, limit, limit - 1);
      assert forall k :: 0 <= k < limit ==> (tail + b)[k] == tail[k];
      assert Folded(tail + b, limit) == f + b;
    }
  }

  // ----- what folding amounts to -----

  /** Plain line splitting: no limit, no folding. */
  function Split(buf: seq<byte>): Received
    decreases |buf|
  {
    var offset := IndexOf(buf, LF, 0);
    if offset == -1 then Open([], buf)
    else
      var line := buf[..offset + 1];
      if IsEnd(line) then Ended([], line, buf[offset + 1..])
      else Split(buf[offset + 1..]).After([line])
  }

  /** A line, or the start of one: LF at most as the last byte. */
  predicate OneLine(s: seq<byte>) {
    forall k :: 0 <= k < |s| - 1 ==> s[k] != LF
  }

  /** A line cut into pieces that fit the limit. */
  function Pieces(s: seq<byte>, limit: nat): (ps: seq<seq<byte>>)
    requires limit > 3
    ensures ps != []
    decreases |s|
  {
    if |s| > limit then [s[..limit - 2] + CRLF] + Pieces([SP] + s[limit - 2..], limit) else [s]
  }

  function PiecesOfAll(lines: seq<seq<byte>>, limit: nat): seq<seq<byte>>
    requires limit > 3
  {
    if lines == [] then [] else Pieces(lines[0], limit) + PiecesOfAll(lines[1..], limit)
  }

  /** Plain splitting first, then every line folded on its own. */
  function SplitThenFold(buf: seq<byte>, limit: nat): Received
    requires limit > 3
  {
    match Split(buf)
    case Open(ls, rest) =>
      var ps := Pieces(rest, limit);
      Open(PiecesOfAll(ls, limit) + ps[..|ps| - 1], ps[|ps| - 1])
    case Ended(ls, e, tail) => Ended(PiecesOfAll(ls, limit), e, tail)
  }

  /** The pieces put together again: the CR LF and the SP between two of them are taken out. */
  function Glue(ps: seq<seq<byte>>): seq<byte> {
    if ps == [] then []
    else if |ps| == 1 then ps[0]
    else
      var more := Glue(ps[1..]);
      ps[0][..if |ps[0]| < 2 then 0 else |ps[0]| - 2] + more[if more == [] then 0 else 1..]
  }

  /** `ps` folds `s`: every piece but the last is CR LF-terminated and exactly as long as the limit,
      every piece but the first starts with SP, and glueing the pieces gives `s`. */
  predicate Folds(ps: seq<seq<byte>>, s: seq<byte>, limit: nat)
    requires limit > 3
    decreases |ps|
  {
    && ps != []
    && Glue(ps) == s
    && if |ps| == 1 then |s| <= limit
       else
         && |ps[0]| == limit && ps[0][limit - 2..] == CRLF
         && ps[1] != [] && ps[1][0] == SP
         && |ps[|ps| - 1]| > 3
         && Folds(ps[1..], Glue(ps[1..]), limit)
  }

  /** The pieces the code cuts fold the line, and no other list of pieces does. */
  lemma {:induction false} PiecesFold(s: seq<byte>, ps: seq<seq<byte>>, limit: nat)
    requires limit > 3
    ensures Folds(ps, s, limit) <==> ps == Pieces(s, limit)
    decreases |ps| + |s|
  {
    if |s| > limit {
      var more := [SP] + s[limit - 2..];
      PiecesAreFolding(s, limit);
      if Folds(ps, s, limit) {
        assert |ps| > 1;
        FoldsGlue(ps[1..], limit);
        assert Glue(ps[1..]) == more;
        PiecesFold(more, ps[1..], limit);
        SplitFirst(ps, s, limit);
      }
    } else if Folds(ps, s, limit) {
      if |ps| > 1 {
        FoldsGlue(ps[1..], limit);
      }
      assert ps == [ps[0]];
    }
  }

  lemma {:induction false} PiecesAreFolding(s: seq<byte>, limit: nat)
    requires limit > 3
    ensures Folds(Pieces(s, limit), s, limit)
    ensures var ps := Pieces(s, limit); |s| > 3 ==> |ps[|ps| - 1]| > 3
    ensures var ps := Pieces(s, limit); s != [] ==> ps[0] != [] && ps[0][0] == s[0]
    decreases |s|
  {
    if |s| > limit {
      var more := [SP] + s[limit - 2..];
      PiecesAreFolding(more, limit);
      var ps := Pieces(s, limit);
      assert ps[1..] == Pieces(more, limit);
      assert s == s[..limit - 2] + more[1..];
    }
  }

  /** Glued pieces start as the first piece does, and are no shorter than the last. */
  lemma {:induction false} FoldsGlue(ps: seq<seq<byte>>, limit: nat)
    requires limit > 3 && Folds(ps, Glue(ps), limit) && |ps[|ps| - 1]| > 3
    ensures |Glue(ps)| > 3 && ps[0] != [] && Glue(ps)[0] == ps[0][0]
  {
    if |ps| > 1 {
      FoldsGlue(ps[1..], limit);
    }
  }

  lemma SplitFirst(ps: seq<seq<byte>>, s: seq<byte>, limit: nat)
    requires 3 < limit < |s| && Folds(ps, s, limit) && |ps| > 1
    ensures ps[0] == s[..limit - 2] + CRLF
  {
    assert ps[0] == ps[0][..limit - 2] + ps[0][limit - 2..];
  }

  /** The code's answer is plain splitting followed by folding each line: a fold neither makes nor hides
      the end of the message, and touches no other line. */
  lemma {:induction false} ReceiveIsSplitThenFold(buf: seq<byte>, limit: nat)
    requires limit > 3
    ensures Receive(buf, limit) == SplitThenFold(buf, limit)
    decreases |buf|
  {
    var offset := IndexOf(buf, LF, 0);
    if offset == -1 {
      ReceiveRest(buf, limit);
      SplitRest(buf, limit);
    } else {
      var line, more := buf[..offset + 1], buf[offset + 1..];
      assert buf == line + more;
      if IsEnd(line) {
        IndexOfLFIs(buf, limit, offset);
      } else {
        ReceiveLine(line, more, limit);
        ReceiveIsSplitThenFold(more, limit);
        SplitLine(buf, offset, limit);
      }
    }
  }

  lemma SplitRest(buf: seq<byte>, limit: nat)
    requires limit > 3 && IndexOf(buf, LF, 0) == -1
    ensures var ps := Pieces(buf, limit); SplitThenFold(buf, limit) == Open(ps[..|ps| - 1], ps[|ps| - 1])
  {
    var ps := Pieces(buf, limit);
    assert [] + ps[..|ps| - 1] == ps[..|ps| - 1];
  }

  lemma SplitLine(buf: seq<byte>, offset: nat, limit: nat)
    requires limit > 3 && offset == IndexOf(buf, LF, 0) && !IsEnd(buf[..offset + 1])
    ensures SplitThenFold(buf, limit) == SplitThenFold(buf[offset + 1..], limit).After(Pieces(buf[..offset + 1], limit))
  {
    var line, r := buf[..offset + 1], Split(buf[offset + 1..]);
    assert ([line] + r.lines)[1..] == r.lines;
    if r.Open? {
      var ps := Pieces(r.rest, limit);
      AppendAssoc(Pieces(line, limit), PiecesOfAll(r.lines, limit), ps[..|ps| - 1]);
    }
  }

  lemma {:induction false} ReceiveLine(line: seq<byte>, more: seq<byte>, limit: nat)
    requires limit > 3 && OneLine(line) && !IsEnd(line)
    requires line != [] && line[|line| - 1] == LF
    ensures Receive(line + more, limit) == Receive(more, limit).After(Pieces(line, limit))
    decreases |line|
  {
    if |line| > limit {
      var rest := [SP] + line[limit - 2..];
      ChunkBehindFold(line, more, limit);
      ReceiveLine(rest, more, limit);
      AfterAfter(Receive(more, limit), [line[..limit - 2] + CRLF], Pieces(rest, limit));
    } else {
      IndexOfLFIs(line, limit, |line| - 1);
      ChunkBehindLine(line, more, limit, |line| - 1);
      assert line[..|line|] == line && line[|line|..] + more == more;
    }
  }

  lemma {:induction false} ReceiveRest(rest: seq<byte>, limit: nat)
    requires limit > 3 && LF !in rest
    ensures var ps := Pieces(rest, limit);
            Receive(rest, limit) == Open(ps[..|ps| - 1], ps[|ps| - 1])
    decreases |rest|
  {
    if |rest| > limit {
      var more := [SP] + rest[limit - 2..];
      ReceiveRest(more, limit);
      var ps, qs := Pieces(rest, limit), Pieces(more, limit);
      assert ps == [rest[..limit - 2] + CRLF] + qs;
      assert ps[..|ps| - 1] == [rest[..limit - 2] + CRLF] + qs[..|qs| - 1];
    }
  }
}
