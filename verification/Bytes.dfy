/** Bytes, the two searches the mail code makes in its buffers, and concatenation of chunks. */
module Bytes {

  type byte = x: int | 0 <= x < 256

  const TAB: byte := 9
  const LF: byte := 10
  const CR: byte := 13
  const SP: byte := 32
  const DOT: byte := 46
  const CRLF: seq<byte> := [CR, LF]

  /** Where a buffer search for `b`, starting at `from`, may stop: at the first hit, or at -1. */
  predicate FirstAt(s: seq<byte>, b: byte, from: nat, i: int) {
    if i == -1 then forall k :: from <= k < |s| ==> s[k] != b
    else from <= i < |s| && s[i] == b && forall k :: from <= k < i ==> s[k] != b
  }

  /** Buffer.indexOf(b, from). */
  function IndexOf(s: seq<byte>, b: byte, from: nat): (i: int)
    ensures FirstAt(s, b, from, i)
    decreases |s| - from
  {
    if from >= |s| then -1
    else if s[from] == b then from
    else IndexOf(s, b, from + 1)
  }

  /** A search that starts later finds the same, if it starts no later than the hit. */
  lemma {:induction false} IndexOfLater(s: seq<byte>, b: byte, from: nat, later: nat)
    requires from <= later && (IndexOf(s, b, from) == -1 || later <= IndexOf(s, b, from))
    ensures IndexOf(s, b, later) == IndexOf(s, b, from)
    decreases later - from
  {
    if from < later && from < |s| {
      IndexOfLater(s, b, from + 1, later);
    }
  }

  /** indexOfLF(buf, max): the first LF at an index below `max`, else -1. */
  function IndexOfLF(s: seq<byte>, max: nat): (i: int)
    ensures i == -1 ==> forall k :: 0 <= k < |s| && k < max ==> s[k] != LF
    ensures i != -1 ==> 0 <= i < |s| && i < max && s[i] == LF && forall k :: 0 <= k < i ==> s[k] != LF
  {
    var i := IndexOf(s, LF, 0);
    if i < max then i else -1
  }

  /** The bytes of a sequence of chunks, in order. */
  function Flatten<T>(parts: seq<seq<T>>): seq<T> {
    if parts == [] then [] else parts[0] + Flatten(parts[1..])
  }

  lemma {:induction false} FlattenSnoc<T>(parts: seq<seq<T>>, last: seq<T>)
    ensures Flatten(parts + [last]) == Flatten(parts) + last
  {
    if parts == [] {
      assert parts + [last] == [last];
    } else {
      FlattenSnoc(parts[1..], last);
      assert (parts + [last])[1..] == parts[1..] + [last];
    }
  }

  lemma {:induction false} FlattenAppend<T>(a: seq<seq<T>>, b: seq<seq<T>>)
    ensures Flatten(a + b) == Flatten(a) + Flatten(b)
  {
    if a == [] {
      assert a + b == b;
    } else {
      FlattenAppend(a[1..], b);
      assert (a + b)[0] == a[0] && (a + b)[1..] == a[1..] + b;
      AppendAssoc(a[0], Flatten(a[1..]), Flatten(b));
    }
  }

  lemma SplitLast<T>(s: seq<T>)
    requires s != []
    ensures s == s[..|s| - 1] + [s[|s| - 1]]
  {
  }

  lemma TakeSlice<T>(s: seq<T>, n: nat, from: nat, end: nat)
    requires from <= end <= n <= |s|
    ensures s[..n][from..end] == s[from..end]
  {
  }

  lemma AppendAssoc<T>(a: seq<T>, b: seq<T>, c: seq<T>)
    ensures a + (b + c) == (a + b) + c
  {
  }
}
