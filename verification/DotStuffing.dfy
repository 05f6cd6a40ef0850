/**
 Dot-stuffing and newline repair of a message body (email/transaction.js).
 The buffer loop jumps from one '.' or LF to the next with two cursors; here it is proved equal to a
 byte-by-byte specification, whose meaning (section 4.5.2 of RFC 5321) is proved separately.
 */
module DotStuffing {
  import opened Bytes

  /** A byte following `before` opens a line. */
  predicate OpensLine(before: seq<byte>) {
    before == [] || before[|before| - 1] == LF
  }

  predicate AfterCr(before: seq<byte>) {
    before != [] && before[|before| - 1] == CR
  }

  // ----- specifications, one byte at a time -----

  function StuffByte(before: seq<byte>, b: byte): seq<byte> {
    if b == DOT && OpensLine(before) then [DOT, DOT]
    else if b == LF && !AfterCr(before) then CRLF
    else [b]
  }

  /** Every line-opening '.' doubled, every LF made part of a CRLF. */
  function Stuffed(data: seq<byte>): seq<byte> {
    if data == [] then []
    else var init := data[..|data| - 1]; Stuffed(init) + StuffByte(init, data[|data| - 1])
  }

  /** Only the newline repair: a CR is put before each LF that lacks one. */
  function CrlfNormalised(data: seq<byte>): seq<byte> {
    if data == [] then []
    else
      var init, b := data[..|data| - 1], data[|data| - 1];
      CrlfNormalised(init) + if b == LF && !AfterCr(init) then CRLF else [b]
  }

  /** What a receiver undoes (section 4.5.2 of RFC 5321): a '.' that opens a line is dropped. */
  function Unstuffed(data: seq<byte>): seq<byte> {
    if data == [] then []
    else
      var init, b := data[..|data| - 1], data[|data| - 1];
      Unstuffed(init) + if b == DOT && OpensLine(init) then [] else [b]
  }

  predicate EveryLfAfterCr(s: seq<byte>) {
    forall i :: 0 <= i < |s| && s[i] == LF ==> i > 0 && s[i - 1] == CR
  }

  predicate EveryOpeningDotDoubled(s: seq<byte>) {
    forall i :: 0 <= i < |s| && s[i] == DOT && OpensLine(s[..i]) ==> i + 1 < |s| && s[i + 1] == DOT
  }

  // ----- the buffer loop -----

  /** add_dot_stuffing_and_ensure_crlf_newlines. */
  method AddDotStuffingAndEnsureCrlf(data: seq<byte>) returns (result: seq<byte>)
    ensures result == Stuffed(data)
    ensures |data| <= |result| <= 2 * |data|
  {
    hide IndexOf, StuffByte;
    if |data| == 0 { return data; }
    var output := new byte[|data| * 2];
    var outputPos, inputPos := 0, 0;
    var nextDot := IndexOf(data, DOT, 0);
    var nextLf := IndexOf(data, LF, 0);
    while nextDot != -1 || nextLf != -1
      invariant 0 <= inputPos <= |data| && inputPos <= outputPos <= 2 * inputPos
      invariant nextDot == IndexOf(data, DOT, inputPos) && nextLf == IndexOf(data, LF, inputPos)
      invariant output[..outputPos] == Stuffed(data[..inputPos])
      decreases |data| - inputPos
    {
      var runEnd := if nextDot != -1 && (nextLf == -1 || nextDot < nextLf) then nextDot else nextLf;
      outputPos := EmitRun(output, outputPos, data, inputPos, runEnd);
      if runEnd == nextDot {
        IndexOfLater(data, LF, inputPos, runEnd + 1);
        nextDot := IndexOf(data, DOT, runEnd + 1);
      } else {
        IndexOfLater(data, DOT, inputPos, runEnd + 1);
        nextLf := IndexOf(data, LF, runEnd + 1);
      }
      inputPos := runEnd + 1;
    }
    outputPos := EmitRest(output, outputPos, data, inputPos);
    result := output[..outputPos];
  }

  /** What follows the last '.' or LF is copied as it is. */
  method EmitRest(output: array<byte>, at: nat, data: seq<byte>, from: nat) returns (end: nat)
    requires from <= |data| && at + (|data| - from) <= output.Length
    requires forall k :: from <= k < |data| ==> data[k] != DOT && data[k] != LF
    requires output[..at] == Stuffed(data[..from])
    modifies output
    ensures end == at + (|data| - from) && output[..end] == Stuffed(data)
  {
    end := at;
    PlainRun(data, from, |data|);
    assert data[..|data|] == data;
    if from < |data| {
      Copy(output, at, data, from, |data|);
      end := at + |data| - from;
    }
  }

  /** One turn of the loop: a run without '.' or LF is copied, then the '.' or LF that ended it is
      written, doubled or given its CR where it must be. */
  method EmitRun(output: array<byte>, at: nat, data: seq<byte>, from: nat, runEnd: nat) returns (end: nat)
    requires from <= runEnd < |data|
    requires forall k :: from <= k < runEnd ==> data[k] != DOT && data[k] != LF
    requires at + (runEnd - from) + 2 <= output.Length
    requires output[..at] == Stuffed(data[..from])
    modifies output
    ensures at + (runEnd - from) + 1 <= end <= at + (runEnd - from) + 2
    ensures output[..end] == Stuffed(data[..runEnd + 1])
  {
    Copy(output, at, data, from, runEnd);
    end := at + runEnd - from;
    RunThenByte(data, from, runEnd);
    end := EmitByte(output, end, data, runEnd);
  }

  method EmitByte(output: array<byte>, at: nat, data: seq<byte>, runEnd: nat) returns (end: nat)
    requires runEnd < |data| && at + 2 <= output.Length
    modifies output
    ensures at + 1 <= end <= at + 2
    ensures output[..end] == old(output[..at]) + StuffByte(data[..runEnd], data[runEnd])
  {
    end := at;
    if data[runEnd] == DOT && (runEnd == 0 || data[runEnd - 1] == LF) {
      output[end] := DOT;
      end := end + 1;
    } else if data[runEnd] == LF && (runEnd == 0 || data[runEnd - 1] != CR) {
      output[end] := CR;
      end := end + 1;
    }
    output[end] := data[runEnd];
    end := end + 1;
  }

  /** Buffer.copy(target, at, from, to). */
  method Copy(target: array<byte>, at: nat, source: seq<byte>, from: nat, to: nat)
    requires from <= to <= |source| && at + (to - from) <= target.Length
    modifies target
    ensures target[..at + (to - from)] == old(target[..at]) + source[from..to]
  {
    forall k | 0 <= k < to - from {
      target[at + k] := source[from + k];
    }
  }

  lemma StuffedSnoc(before: seq<byte>, b: byte)
    ensures Stuffed(before + [b]) == Stuffed(before) + StuffByte(before, b)
  {
    assert (before + [b])[..|before|] == before;
  }

  lemma {:induction false} PlainRun(data: seq<byte>, from: nat, end: nat)
    requires from <= end <= |data|
    requires forall k :: from <= k < end ==> data[k] != DOT && data[k] != LF
    ensures Stuffed(data[..end]) == Stuffed(data[..from]) + data[from..end]
    decreases end
  {
    if from < end {
      var b := data[end - 1];
      PlainRun(data, from, end - 1);
      SplitLast(data[..end]);
      assert data[..end][..end - 1] == data[..end - 1];
      AppendAssoc(Stuffed(data[..from]), data[from..end - 1], [b]);
      assert data[from..end] == data[from..end - 1] + [b];
    }
  }

  lemma RunThenByte(data: seq<byte>, from: nat, end: nat)
    requires from <= end < |data|
    requires forall k :: from <= k < end ==> data[k] != DOT && data[k] != LF
    ensures Stuffed(data[..end + 1])
            == Stuffed(data[..from]) + data[from..end] + StuffByte(data[..end], data[end])
  {
    PlainRun(data, from, end);
    assert data[..end + 1] == data[..end] + [data[end]];
    StuffedSnoc(data[..end], data[end]);
  }

  // ----- what the specification means -----

  lemma {:induction false} StuffedLines(data: seq<byte>)
    ensures EveryLfAfterCr(Stuffed(data))
    ensures data != [] ==> Stuffed(data) != [] && Stuffed(data)[|Stuffed(data)| - 1] == data[|data| - 1]
    ensures data == [] ==> Stuffed(data) == []
  {
    if data != [] {
      StuffedLines(data[..|data| - 1]);
    }
  }

  /** The stuffed text never holds a bare LF, and no line of it opens with a single '.'. */
  lemma {:induction false} StuffedIsSafe(data: seq<byte>)
    ensures EveryLfAfterCr(Stuffed(data))
    ensures EveryOpeningDotDoubled(Stuffed(data))
  {
    StuffedLines(data);
    if data != [] {
      var init, b := data[..|data| - 1], data[|data| - 1];
      StuffedLines(init);
      StuffedIsSafe(init);
      SplitLast(data);
      StuffedSnoc(init, b);
      hide Stuffed;
      DoubledAppend(Stuffed(init), StuffByte(init, b));
    }
  }

  lemma DoubledAppend(s: seq<byte>, t: seq<byte>)
    requires EveryOpeningDotDoubled(s)
    requires t == CRLF || t == [DOT, DOT] || (|t| == 1 && (t[0] == DOT ==> !OpensLine(s)))
    ensures EveryOpeningDotDoubled(s + t)
  {
    forall i | 0 <= i < |s + t| && (s + t)[i] == DOT && OpensLine((s + t)[..i])
      ensures i + 1 < |s + t| && (s + t)[i + 1] == DOT
    {
      if i < |s| {
        assert (s + t)[..i] == s[..i];
      } else if i == |s| {
        assert (s + t)[..i] == s;
      }
    }
  }

  /** Hence no prefix of the stuffed text ends in the end-of-data line `CRLF . CRLF`. */
  lemma StuffedHasNoTerminator(data: seq<byte>, i: nat)
    requires i + 2 < |Stuffed(data)| && OpensLine(Stuffed(data)[..i])
    ensures Stuffed(data)[i..i + 3] != [DOT, CR, LF]
  {
    StuffedIsSafe(data);
    assert Stuffed(data)[i..i + 3][0] == Stuffed(data)[i];
    assert Stuffed(data)[i..i + 3][1] == Stuffed(data)[i + 1];
  }

  /** A receiver's unstuffing gives back the input, up to the newline repair. */
  lemma {:induction false} UnstuffStuffed(data: seq<byte>)
    ensures Unstuffed(Stuffed(data)) == CrlfNormalised(data)
  {
    if data != [] {
      var init, b := data[..|data| - 1], data[|data| - 1];
      UnstuffStuffed(init);
      StuffedIsSafe(init);
      var s := Stuffed(init);
      if b == DOT && OpensLine(init) {
        UnstuffPair(s, DOT, DOT);
      } else if b == LF && !AfterCr(init) {
        UnstuffPair(s, CR, LF);
      } else {
        UnstuffSnoc(s, b);
      }
    }
  }

  /** Unstuffing one more byte depends on the text before it only through its last byte. */
  lemma UnstuffSnoc(s: seq<byte>, b: byte)
    ensures Unstuffed(s + [b]) == Unstuffed(s) + if b == DOT && OpensLine(s) then [] else [b]
  {
    assert (s + [b])[..|s|] == s;
  }

  lemma UnstuffPair(s: seq<byte>, b: byte, c: byte)
    requires b != LF && (b == DOT ==> OpensLine(s))
    ensures Unstuffed(s + [b, c]) == Unstuffed(s) + if b == DOT then [c] else [b, c]
  {
    UnstuffSnoc(s, b);
    UnstuffSnoc(s + [b], c);
    assert s + [b, c] == (s + [b]) + [c];
  }

  /** Stuffing line by line is stuffing the whole text: the cut may be anywhere just after an LF. */
  lemma {:induction false} StuffConcat(a: seq<byte>, b: seq<byte>)
    requires OpensLine(a)
    ensures Stuffed(a + b) == Stuffed(a) + Stuffed(b)
    decreases |b|
  {
    if b == [] {
      assert a + b == a;
    } else {
      var init, last := b[..|b| - 1], b[|b| - 1];
      StuffConcat(a, init);
      SplitLast(b);
      AppendAssoc(a, init, [last]);
      StuffConcatByte(a, init, last);
    }
  }

  lemma StuffConcatByte(a: seq<byte>, b: seq<byte>, last: byte)
    requires OpensLine(a) && Stuffed(a + b) == Stuffed(a) + Stuffed(b)
    ensures Stuffed((a + b) + [last]) == Stuffed(a) + Stuffed(b + [last])
  {
    StuffedSnoc(a + b, last);
    StuffedSnoc(b, last);
    assert StuffByte(a + b, last) == StuffByte(b, last);
    AppendAssoc(Stuffed(a), Stuffed(b), StuffByte(b, last));
  }

  // ----- one body line through add_data -----

  /** remove_final_cr. */
  function RemoveFinalCr(data: seq<byte>): seq<byte> {
    if |data| < 2 then data
    else if data[|data| - 2] == CR && data[|data| - 1] == LF then data[..|data| - 2] + [LF]
    else data
  }

  function WithoutDot(line: seq<byte>): seq<byte> {
    if |line| > 0 && line[0] == DOT then line[1..] else line
  }

  function Restuffed(line: seq<byte>): seq<byte> {
    Stuffed(RemoveFinalCr(WithoutDot(line)))
  }

  /** A single line: an LF at its end and nowhere else. */
  predicate IsLine(line: seq<byte>) {
    line != [] && line[|line| - 1] == LF && forall k :: 0 <= k < |line| - 1 ==> line[k] != LF
  }

  predicate WellFormedLine(line: seq<byte>) {
    && |line| >= 2 && line[|line| - 2] == CR
    && (|line| >= 3 ==> line[|line| - 3] != CR)
    && (line[0] == DOT ==> line[1] == DOT)
  }

  /** The body path of add_data, with body filters that change nothing. What it adds to the message is safe
      to send, and is the line received exactly when that was well formed. */
  method RestuffLine(line: seq<byte>) returns (result: seq<byte>)
    ensures EveryLfAfterCr(result) && EveryOpeningDotDoubled(result)
    ensures Unstuffed(result) == CrlfNormalised(RemoveFinalCr(WithoutDot(line)))
    ensures IsLine(line) ==> (result == line <==> WellFormedLine(line))
  {
    var newLine := line;
    if |newLine| > 0 && newLine[0] == DOT { newLine := newLine[1..]; }
    result := AddDotStuffingAndEnsureCrlf(RemoveFinalCr(newLine));
    StuffedIsSafe(RemoveFinalCr(newLine));
    UnstuffStuffed(RemoveFinalCr(newLine));
    if IsLine(line) {
      RestuffedUnchangedIff(line);
    }
  }

  /** A received line comes out of the body path unchanged exactly when it ends in one CR and an LF
      and a '.' at its start is doubled. */
  lemma RestuffedUnchangedIff(line: seq<byte>)
    requires IsLine(line)
    ensures Restuffed(line) == line <==> WellFormedLine(line)
  {
    if WellFormedLine(line) {
      WellFormedRestuffed(line);
    } else if |line| >= 2 && line[|line| - 2] == CR {
      CrLineChanges(line);
    } else {
      BareLineChanges(line);
    }
  }

  lemma CrLineChanges(line: seq<byte>)
    requires IsLine(line) && !WellFormedLine(line) && |line| >= 2 && line[|line| - 2] == CR
    ensures |Restuffed(line)| != |line|
  {
    hide Stuffed, StuffByte, Restuffed;
    var text, end := RestuffedShape(line);
    if line[0] == DOT {
      assert |text| == |line| - 3 && (text != [] ==> text[0] == line[1]);
    } else {
      assert |text| == |line| - 2 && (text != [] ==> text[0] == line[0]);
    }
    assert |Restuffed(line)| == |OpeningDot(text)| + |text| + |end|;
  }

  lemma BareLineChanges(line: seq<byte>)
    requires IsLine(line) && !(|line| >= 2 && line[|line| - 2] == CR)
    ensures Restuffed(line) != line
  {
    var text, end := RestuffedShape(line);
    assert end == CRLF;
    assert Restuffed(line)[|Restuffed(line)| - 2] == CR;
  }

  lemma WellFormedRestuffed(line: seq<byte>)
    requires IsLine(line) && WellFormedLine(line)
    ensures Restuffed(line) == line
  {
    hide Stuffed;
    var text := WellFormedShape(line);
    ContentWithoutCr(text + CRLF, text);
    StuffOneLine(text);
    StuffedSnoc(text, LF);
  }

  lemma WellFormedShape(line: seq<byte>) returns (text: seq<byte>)
    requires IsLine(line) && WellFormedLine(line)
    ensures WithoutDot(line) == text + CRLF && line == OpeningDot(text) + text + CRLF
    ensures !AfterCr(text) && forall k :: 0 <= k < |text| ==> text[k] != LF
  {
    var from := if line[0] == DOT then 1 else 0;
    text := line[from..|line| - 2];
    assert line[from..] == text + CRLF;
    assert line[..from] == OpeningDot(text);
    assert line == line[..from] + line[from..];
  }

  lemma RestuffedShape(line: seq<byte>) returns (text: seq<byte>, end: seq<byte>)
    requires IsLine(line)
    ensures var content := if line[0] == DOT then line[1..] else line;
            text == if |content| >= 2 && content[|content| - 2] == CR then content[..|content| - 2]
                else content[..|content| - 1]
    ensures end == if AfterCr(text) then [LF] else CRLF
    ensures Restuffed(line) == OpeningDot(text) + text + end
  {
    var content := if line[0] == DOT then line[1..] else line;
    var n := |content|;
    text := if n >= 2 && content[n - 2] == CR then content[..n - 2] else content[..n - 1];
    end := if AfterCr(text) then [LF] else CRLF;
    ContentWithoutCr(content, text);
    StuffOneLine(text);
    StuffedSnoc(text, LF);
  }

  lemma ContentWithoutCr(content: seq<byte>, text: seq<byte>)
    requires content != [] && content[|content| - 1] == LF
    requires var n := |content|; text == if n >= 2 && content[n - 2] == CR then content[..n - 2] else content[..n - 1]
    ensures RemoveFinalCr(content) == text + [LF]
  {
    SplitLast(content);
  }

  function OpeningDot(text: seq<byte>): seq<byte> {
    if text != [] && text[0] == DOT then [DOT] else []
  }

  lemma {:induction false} StuffOneLine(text: seq<byte>)
    requires forall k :: 0 <= k < |text| ==> text[k] != LF
    ensures Stuffed(text) == OpeningDot(text) + text
  {
    if |text| == 1 {
      assert text[..0] == [];
    } else if text != [] {
      var init, last := text[..|text| - 1], text[|text| - 1];
      StuffOneLine(init);
      SplitLast(text);
      StuffedSnoc(init, last);
      hide Stuffed;
      assert StuffByte(init, last) == [last] && OpeningDot(text) == OpeningDot(init);
      AppendAssoc(OpeningDot(text), init, [last]);
    }
  }
}
