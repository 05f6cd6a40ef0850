/**
 The body hashes of the DKIM verifier (email/dkim.js: Buf, DKIMObject.add_body_line, DKIMVerifyStream), a
 stream that is written in arbitrary chunks and feeds one hash for every signature field, proved equal to
 a function of the whole message. Which header fields are signatures, and which canonicalization their
 tags ask for, is an arbitrary function of the field.
 */
module DkimVerify {
  import opened Bytes
  import opened DkimBody
  import DkimCanon

  /** Settled: the tags were refused, so the result is out and body lines are ignored. */
  datatype Canon = Simple | Relaxed | Settled

  datatype Field = Plain | Signature(canon: Canon)

  /** One signature under way. */
  datatype Sig = Sig(canon: Canon, body: Body)
  {
    function Line(line: seq<byte>): Sig {
      if canon.Settled? then this
      else
        var l := if canon.Relaxed? then DkimCanon.Canonical(line) else line;
        if l == CRLF || l == [LF] then Sig(canon, Body(body.blanks + l, body.fed))
        else Sig(canon, Body([], body.fed + body.blanks + l))
    }
  }

  function EachLine(sigs: seq<Sig>, line: seq<byte>): seq<Sig> {
    seq(|sigs|, i requires 0 <= i < |sigs| => sigs[i].Line(line))
  }

  /** A line with a bare LF gets a CR. */
  function Normal(line: seq<byte>): seq<byte> {
    if |line| >= 2 && line[|line| - 2] == CR then line
    else if line == [] then CRLF
    else line[..|line| - 1] + CRLF
  }

  /** A header line is a new field, or continues the last one; one with nothing to continue is lost. */
  function Unfold(fields: seq<seq<byte>>, line: seq<byte>): seq<seq<byte>> {
    if line != [] && (line[0] == SP || line[0] == TAB) then
      if fields == [] then [] else fields[..|fields| - 1] + [fields[|fields| - 1] + line]
    else fields + [line]
  }

  /** The signatures among the fields, in order, each at the start of the body. */
  function Signatures(fields: seq<seq<byte>>, kind: seq<byte> -> Field): seq<Sig> {
    if fields == [] then []
    else
      var init, last := fields[..|fields| - 1], kind(fields[|fields| - 1]);
      Signatures(init, kind) + if last.Signature? then [Sig(last.canon, EMPTY_BODY)] else []
  }

  datatype Verifier = InHeader(fields: seq<seq<byte>>) | NoSignatures | InBody(sigs: seq<Sig>)
  {
    /** One line, normalized. */
    function Line(line: seq<byte>, kind: seq<byte> -> Field): Verifier {
      match this
      case InHeader(fields) =>
        if line != CRLF then InHeader(Unfold(fields, line))
        else if Signatures(fields, kind) == [] then NoSignatures
        else InBody(Signatures(fields, kind))
      case NoSignatures => NoSignatures
      case InBody(sigs) => InBody(EachLine(sigs, line))
    }

    function Lines(lines: seq<seq<byte>>, kind: seq<byte> -> Field): Verifier
      decreases lines
    {
      if lines == [] then this else Line(Normal(lines[0]), kind).Lines(lines[1..], kind)
    }

    /** The end of the stream: CR LF CR LF goes behind the unterminated last line `rest`, and one line is
        taken; a second one if the first ended the header. */
    function End(rest: seq<byte>, kind: seq<byte> -> Field): Verifier {
      var v := Line(rest + CRLF, kind);
      if InHeader? && v.InBody? then v.Line(CRLF, kind) else v
    }
  }

  const START := InHeader([])

  lemma {:induction false} LinesAppend(v: Verifier, a: seq<seq<byte>>, b: seq<seq<byte>>, kind: seq<byte> -> Field)
    ensures v.Lines(a + b, kind) == v.Lines(a, kind).Lines(b, kind)
    decreases |a|
  {
    if a == [] {
      assert a + b == b;
    } else {
      var next := v.Line(Normal(a[0]), kind);
      assert a + b != [] && (a + b)[0] == a[0] && (a + b)[1..] == a[1..] + b;
      assert v.Lines(a, kind) == next.Lines(a[1..], kind);
      LinesAppend(next, a[1..], b, kind);
    }
  }

  lemma {:induction false} NoSignaturesStays(lines: seq<seq<byte>>, kind: seq<byte> -> Field)
    ensures NoSignatures.Lines(lines, kind) == NoSignatures
  {
    if lines != [] {
      NoSignaturesStays(lines[1..], kind);
    }
  }

  /** Where the verifier stands after a message, however it is chunked. */
  function After(message: seq<byte>, kind: seq<byte> -> Field): Verifier {
    START.Lines(LinesOf(message), kind)
  }

  /** Where it stands when the stream has ended. */
  function Ended(message: seq<byte>, kind: seq<byte> -> Field): Verifier {
    After(message, kind).End(RestOf(message), kind)
  }

  /** A second chunk goes on where the first left off. */
  lemma AfterChunk(a: seq<byte>, b: seq<byte>, kind: seq<byte> -> Field)
    ensures After(a + b, kind) == After(a, kind).Lines(LinesOf(RestOf(a) + b), kind)
    ensures RestOf(a + b) == RestOf(RestOf(a) + b)
    ensures After(a, kind).NoSignatures? ==> After(a + b, kind).NoSignatures?
  {
    LinesOfChunk(a, b);
    LinesAppend(START, LinesOf(a), LinesOf(RestOf(a) + b), kind);
    NoSignaturesStays(LinesOf(RestOf(a) + b), kind);
  }

  // ----- the code -----

  class DKIMObject {
    const canon: Canon
    var lineBuffer: seq<seq<byte>>
    var bh: seq<byte>                // the bytes bh.update was given

    ghost function Value(): Sig
      reads this
    {
      Sig(canon, Body(Flatten(lineBuffer), bh))
    }

    constructor (canon: Canon)
      ensures Value() == Sig(canon, EMPTY_BODY)
    {
      this.canon, lineBuffer, bh := canon, [], [];
    }

    method AddBodyLine(bytes: seq<byte>)
      modifies this
      ensures Value() == old(Value()).Line(bytes)
    {
      if canon == Settled { return; }
      var line := bytes;
      if canon == Relaxed {
        line := DkimCanon.Canonicalize(line);
      }
      var isCRLF := |line| == 2 && line[0] == CR && line[1] == LF;
      var isLF := |line| == 1 && line[0] == LF;
      if isCRLF || isLF {
        FlattenSnoc(lineBuffer, line);
        lineBuffer := lineBuffer + [line];
      } else {
        if |lineBuffer| > 0 {
          bh := bh + Flatten(lineBuffer);
          lineBuffer := [];
        }
        bh := bh + line;
      }
    }
  }

  ghost function Sigs(objects: seq<DKIMObject>): seq<Sig>
    reads objects
  {
    seq(|objects|, i requires 0 <= i < |objects| reads objects => objects[i].Value())
  }

  ghost predicate Distinct(objects: seq<DKIMObject>) {
    forall i, j :: 0 <= i < j < |objects| ==> objects[i] != objects[j]
  }

  /** The loop over the signatures for one body line. */
  method AddLineToAll(objects: seq<DKIMObject>, line: seq<byte>)
    requires Distinct(objects)
    modifies objects
    ensures Sigs(objects) == EachLine(old(Sigs(objects)), line)
  {
    var e := 0;
    while e < |objects|
      invariant e <= |objects|
      invariant forall i :: 0 <= i < e ==> objects[i].Value() == old(objects[i].Value()).Line(line)
      invariant forall i :: e <= i < |objects| ==> objects[i].Value() == old(objects[i].Value())
    {
      objects[e].AddBodyLine(line);
      e := e + 1;
    }
  }

  /** One object for every signature field. */
  method MakeObjects(fields: seq<seq<byte>>, kind: seq<byte> -> Field) returns (objects: seq<DKIMObject>)
    ensures forall o :: o in objects ==> fresh(o)
    ensures Distinct(objects) && Sigs(objects) == Signatures(fields, kind)
  {
    hide Flatten;
    objects := [];
    var h := 0;
    while h < |fields|
      invariant h <= |fields|
      invariant forall o :: o in objects ==> fresh(o)
      invariant Distinct(objects) && Sigs(objects) == Signatures(fields[..h], kind)
    {
      assert fields[..h + 1][..h] == fields[..h];
      var field := kind(fields[h]);
      if field.Signature? {
        var o := new DKIMObject(field.canon);
        ghost var before := Sigs(objects);
        objects := objects + [o];
        assert Sigs(objects) == before + [Sig(field.canon, EMPTY_BODY)];
      }
      h := h + 1;
    }
    assert fields[..h] == fields;
  }

  class DKIMVerifyStream {
    const kind: seq<byte> -> Field
    var inBody: bool
    var noSignaturesFound: bool
    var buffer: seq<byte>
    var headers: seq<seq<byte>>
    var objects: seq<DKIMObject>
    ghost var received: seq<byte>

    ghost function Value(): Verifier
      reads this`inBody, this`noSignaturesFound, this`headers, this`objects, objects
    {
      if !inBody then InHeader(headers) else if noSignaturesFound then NoSignatures else InBody(Sigs(objects))
    }

    ghost predicate Ok()
      reads this`inBody, this`noSignaturesFound, this`objects
    {
      Distinct(objects) && (noSignaturesFound ==> inBody)
    }

    ghost predicate Valid()
      reads this, objects
    {
      && Ok()
      && Value() == After(received, kind)
      && (!Value().NoSignatures? ==> buffer == RestOf(received))
    }

    constructor (kind: seq<byte> -> Field)
      ensures Valid() && received == [] && objects == [] && this.kind == kind
    {
      this.kind := kind;
      inBody, noSignaturesFound, buffer, headers, objects, received := false, false, [], [], [], [];
    }

    method Write(chunk: seq<byte>)
      requires Valid()
      modifies this, objects
      ensures Valid() && received == old(received) + chunk
      ensures objects == old(objects) || fresh(set o | o in objects)
    {
      hide LinesOf, RestOf, Normal, EachLine, Unfold, Signatures;
      AfterChunk(received, chunk, kind);
      received := received + chunk;
      HandleBuf(chunk);
    }

    /** handle_buf. Without signatures nothing more is looked at. */
    method HandleBuf(chunk: seq<byte>)
      requires Ok()
      modifies this`inBody, this`noSignaturesFound, this`headers, this`objects, this`buffer, objects
      ensures Ok()
      ensures old(Value()).NoSignatures? ==> Value().NoSignatures?
      ensures !old(Value()).NoSignatures? ==>
                && Value() == old(Value()).Lines(LinesOf(old(buffer) + chunk), kind)
                && (!Value().NoSignatures? ==> buffer == RestOf(old(buffer) + chunk))
      ensures objects == old(objects) || fresh(set o | o in objects)
    {
      if inBody && noSignaturesFound { return; }
      var buf := buffer + chunk;
      buffer := [];
      HandleLines(buf);
    }

    /** The loop of handle_buf. */
    method HandleLines(bytes: seq<byte>)
      requires Ok()
      requires !Value().NoSignatures?
      modifies this`inBody, this`noSignaturesFound, this`headers, this`objects, this`buffer, objects
      ensures Ok() && Value() == old(Value()).Lines(LinesOf(bytes), kind)
      ensures !Value().NoSignatures? ==> buffer == RestOf(bytes)
      ensures objects == old(objects) || fresh(set o | o in objects)
    {
      hide Normal, EachLine, Unfold, Signatures;
      var buf := bytes;
      var offset := IndexOf(buf, LF, 0);
      while offset != -1
        invariant offset == IndexOf(buf, LF, 0)
        invariant Ok() && !Value().NoSignatures?
        invariant Value().Lines(LinesOf(buf), kind) == old(Value()).Lines(LinesOf(bytes), kind)
        invariant RestOf(buf) == RestOf(bytes)
        invariant objects == old(objects) || fresh(set o | o in objects)
        decreases |buf|
      {
        var line := buf[..offset + 1];
        buf := buf[offset + 1..];
        HandleLine(line);
        if inBody && noSignaturesFound {
          NoSignaturesStays(LinesOf(buf), kind);
          return;
        }
        offset := IndexOf(buf, LF, 0);
      }
      buffer := buf;
    }

    /** The body of the loop. */
    method HandleLine(bytes: seq<byte>)
      requires Ok() && bytes != []
      requires !Value().NoSignatures?
      modifies this`inBody, this`noSignaturesFound, this`headers, this`objects, objects
      ensures Ok() && Value() == old(Value()).Line(Normal(bytes), kind)
      ensures objects == old(objects) || fresh(set o | o in objects)
    {
      hide LinesOf, RestOf, EachLine, Signatures;
      var line := bytes;
      if |line| < 2 || line[|line| - 2] != CR {
        line := line[..|line| - 1] + CRLF;
      }
      if |line| == 2 && line[0] == CR && line[1] == LF && !inBody {
        inBody := true;
        var found := MakeObjects(headers, kind);
        if found == [] {
          noSignaturesFound := true;
        } else {
          objects := found;
        }
        return;
      }
      if !inBody {
        if line[0] == SP || line[0] == TAB {
          if headers != [] {
            headers := headers[..|headers| - 1] + [headers[|headers| - 1] + line];
          }
        } else {
          headers := headers + [line];
        }
      } else {
        AddLineToAll(objects, line);
      }
    }

    /** end, and handle_buf with null: one line, or two when the first ends the header. */
    method End()
      requires Valid()
      modifies this, objects
      ensures Value() == Ended(received, kind) && received == old(received)
      ensures objects == old(objects) || fresh(set o | o in objects)
    {
      hide LinesOf, RestOf, Normal;
      if inBody && noSignaturesFound { return; }
      var wasInBody := inBody;
      LastIsNormal(buffer);
      HandleLine(buffer + CRLF);
      if !wasInBody && inBody && !noSignaturesFound {
        HandleLine(CRLF);
      }
    }
  }

  lemma LastIsNormal(rest: seq<byte>)
    ensures Normal(rest + CRLF) == rest + CRLF && Normal(CRLF) == CRLF
  {
  }
}
