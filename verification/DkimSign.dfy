/**
 The body hash of the DKIM signer (email/plugins/dkim_sign.js, DKIMSignStream), a stream that is written
 in arbitrary chunks, proved equal to a function of the whole message.
 */
module DkimSign {
  import opened Bytes
  import opened DkimBody

  /** Where the signer is: before the blank line that ends the header, or behind it. */
  datatype Signer = Signer(foundEoh: bool, bodyFound: bool, body: Body)
  {
    function Line(line: seq<byte>): Signer {
      if !foundEoh then Signer(line == CRLF, bodyFound, body)
      else Signer(true, bodyFound || line != CRLF, Feed(body, line))
    }

    function Lines(lines: seq<seq<byte>>): Signer
      decreases lines
    {
      if lines == [] then this else Line(lines[0]).Lines(lines[1..])
    }

    /** What the hash has been fed once `end` has seen `rest`, the unterminated last line. */
    function End(rest: seq<byte>): seq<byte> {
      body.fed + (if rest != [] then rest + CRLF else []) + (if bodyFound then [] else CRLF)
    }
  }

  const START := Signer(false, false, EMPTY_BODY)

  lemma {:induction false} LinesAppend(s: Signer, a: seq<seq<byte>>, b: seq<seq<byte>>)
    ensures s.Lines(a + b) == s.Lines(a).Lines(b)
    decreases |a|
  {
    if a == [] {
      assert a + b == b;
    } else {
      LinesAppend(s.Line(a[0]), a[1..], b);
      assert (a + b)[1..] == a[1..] + b;
    }
  }

  /** The bytes the signer hashes for a message, however it is chunked. */
  function Hashed(message: seq<byte>): seq<byte> {
    START.Lines(LinesOf(message)).End(RestOf(message))
  }

  class DKIMSignStream {
    var foundEoh: bool
    var buffer: seq<byte>
    var lineBuffer: seq<byte>
    var bodyFound: bool
    var hash: seq<byte>              // the bytes hash.update was given
    ghost var written: seq<byte>

    ghost function Value(): Signer
      reads this`foundEoh, this`lineBuffer, this`bodyFound, this`hash
    {
      Signer(foundEoh, bodyFound, Body(lineBuffer, hash))
    }

    ghost predicate Valid()
      reads this
    {
      Value() == START.Lines(LinesOf(written)) && buffer == RestOf(written)
    }

    constructor ()
      ensures Valid() && written == []
    {
      foundEoh, buffer, lineBuffer, bodyFound, hash, written := false, [], [], false, [], [];
    }

    method Write(chunk: seq<byte>)
      requires Valid()
      modifies this
      ensures Valid() && written == old(written) + chunk
    {
      LinesOfChunk(written, chunk);
      LinesAppend(START, LinesOf(written), LinesOf(buffer + chunk));
      written := written + chunk;
      var buf := buffer + chunk;
      ProcessLines(buf);
    }

    /** The loop of write. */
    method ProcessLines(bytes: seq<byte>)
      modifies this`foundEoh, this`buffer, this`lineBuffer, this`bodyFound, this`hash
      ensures Value() == old(Value()).Lines(LinesOf(bytes))
      ensures buffer == RestOf(bytes)
    {
      var buf := bytes;
      var offset := IndexOf(buf, LF, 0);
      while offset != -1
        invariant offset == IndexOf(buf, LF, 0)
        invariant Value().Lines(LinesOf(buf)) == old(Value()).Lines(LinesOf(bytes))
        invariant RestOf(buf) == RestOf(bytes)
        decreases |buf|
      {
        var line := buf[..offset + 1];
        buf := buf[offset + 1..];
        ProcessLine(line);
        offset := IndexOf(buf, LF, 0);
      }
      buffer := buf;
    }

    method ProcessLine(line: seq<byte>)
      modifies this`foundEoh, this`lineBuffer, this`bodyFound, this`hash
      ensures Value() == old(Value()).Line(line)
    {
      if |line| == 2 && line[0] == CR && line[1] == LF {
        if !foundEoh {
          foundEoh := true;
        } else {
          lineBuffer := lineBuffer + line;
        }
      } else if foundEoh {
        if lineBuffer != [] {
          hash := hash + lineBuffer;
          lineBuffer := [];
        }
        hash := hash + line;
        bodyFound := true;
      }
    }

    method End() returns (bodyHash: seq<byte>)
      requires Valid()
      modifies this
      ensures bodyHash == Hashed(written) && written == old(written)
    {
      if buffer != [] {
        hash := hash + (buffer + CRLF);
        buffer := [];
      }
      if !bodyFound {
        hash := hash + CRLF;
      }
      bodyHash := hash;
    }
  }
}
