/**
 The DKIM-Signature field the signer prints (email/plugins/dkim_sign.js:121-128) and the tag parser the
 verifier runs on it (email/dkim.js, constructor of DKIMObject): what is printed reads back.
 */
module DkimHeader {
  import Bytes
  import opened Strings

  // ----- text -----

  lemma {:induction false} StripAppend(s: string, t: string)
    ensures Strip(s + t) == Strip(s) + Strip(t)
  {
    if s == "" {
      assert s + t == t;
    } else {
      StripAppend(s[1..], t);
      assert (s + t)[0] == s[0] && (s + t)[1..] == s[1..] + t;
      if !Space(s[0]) {
        Bytes.AppendAssoc([s[0]], Strip(s[1..]), Strip(t));
      }
    }
  }

  /** A tag value that can be printed: no white space and no `;`. */
  predicate Clean(s: string) {
    forall i :: 0 <= i < |s| ==> !Space(s[i]) && s[i] != ';'
  }

  lemma {:induction false} StripClean(s: string)
    requires Clean(s)
    ensures Strip(s) == s
  {
    if s != "" {
      StripClean(s[1..]);
      assert s == [s[0]] + s[1..];
    }
  }

  function EachLowered(names: seq<string>): seq<string> {
    if names == [] then [] else [Lowered(names[0])] + EachLowered(names[1..])
  }

  // ----- the printer -----

  datatype Values = Values(d: string, s: string, h: seq<string>, bh: string, b: string)

  /** headers.join(':'). */
  function Colons(names: seq<string>): string {
    if names == [] then "" else Join(names, ':')
  }

  const FWS := "\r\n\t"

  /** A tag, and the white space printed in front of it. */
  datatype Tag = Tag(space: string, name: string, value: string)
  {
    function Key(): string { name + "=" + value }
  }

  function Text(tags: seq<Tag>): string {
    if tags == [] then ""
    else if |tags| == 1 then tags[0].Key()
    else tags[0].Key() + (";" + tags[1].space) + Text(tags[1..])
  }

  function TagsBefore(v: Values): seq<Tag> {
    [Tag("", "v", "1"), Tag(" ", "a", "rsa-sha256"), Tag(" ", "c", "relaxed/simple"), Tag(FWS, "d", v.d),
     Tag(" ", "s", v.s), Tag(FWS, "h", Colons(v.h)), Tag(FWS, "bh", v.bh)]
  }

  /** The tags printed, in order; b comes last. */
  function TagsOf(v: Values): seq<Tag> {
    TagsBefore(v) + [Tag(FWS, "b", v.b)]
  }

  /** The signature on lines of at most 76 characters, the first one shorter by `b=`. */
  function Folded(signature: string, room: nat): string
    requires room > 0
    decreases |signature|
  {
    if |signature| <= room then signature else signature[..room] + FWS + Folded(signature[room..], 76)
  }

  function Printed(v: Values): string {
    Text(TagsBefore(v) + [Tag(FWS, "b", "")]) + Folded(v.b, 74)
  }

  /** String.substring with bounds in order. */
  function Substring(s: string, i: nat, j: nat): string
    requires i <= j
  {
    s[if i < |s| then i else |s|..if j < |s| then j else |s|]
  }

  /** The end of DKIMSignStream.end. */
  method PrintHeader(v: Values) returns (header: string)
    ensures header == Printed(v)
  {
    hide Text;
    header := Text(TagsBefore(v) + [Tag(FWS, "b", "")]);
    ghost var start := header;
    header := header + Substring(v.b, 0, 74);
    FirstLine(v.b);
    Bytes.AppendAssoc(start, Substring(v.b, 0, 74), Tail(v.b, 74));
    var i := 74;
    while i < |v.b|
      invariant 74 <= i
      invariant header + Tail(v.b, i) == Printed(v)
    {
      TailStep(v.b, i);
      Bytes.AppendAssoc(header, FWS + Substring(v.b, i, i + 76), Tail(v.b, i + 76));
      Bytes.AppendAssoc(header, FWS, Substring(v.b, i, i + 76));
      header := header + FWS + Substring(v.b, i, i + 76);
      i := i + 76;
    }
    assert header + "" == header;
  }

  /** What the loop has yet to print from `i` on. */
  function Tail(signature: string, i: nat): string {
    if i < |signature| then FWS + Folded(signature[i..], 76) else ""
  }

  lemma FirstLine(signature: string)
    ensures Folded(signature, 74) == Substring(signature, 0, 74) + Tail(signature, 74)
  {
    if |signature| > 74 {
      Bytes.AppendAssoc(signature[..74], FWS, Folded(signature[74..], 76));
    } else {
      assert signature[0..|signature|] == signature;
      assert signature + "" == signature;
    }
  }

  lemma TailStep(signature: string, i: nat)
    requires i < |signature|
    ensures Tail(signature, i) == FWS + Substring(signature, i, i + 76) + Tail(signature, i + 76)
  {
    if i + 76 < |signature| {
      assert signature[i..][..76] == Substring(signature, i, i + 76);
      assert signature[i..][76..] == signature[i + 76..];
      Bytes.AppendAssoc(Substring(signature, i, i + 76), FWS, Folded(signature[i + 76..], 76));
      Bytes.AppendAssoc(FWS, Substring(signature, i, i + 76), Tail(signature, i + 76));
    } else {
      assert signature[i..] == Substring(signature, i, i + 76);
      Bytes.AppendAssoc(FWS, Substring(signature, i, i + 76), "");
    }
  }

  /** Text appended to the value of the last tag is appended to the whole. */
  lemma {:induction false} TextLast(before: seq<Tag>, last: Tag, more: string)
    ensures Text(before + [last.(value := last.value + more)]) == Text(before + [last]) + more
  {
    var tags, changed := before + [last], before + [last.(value := last.value + more)];
    if before == [] {
      Bytes.AppendAssoc(last.name + "=", last.value, more);
    } else {
      TextLast(before[1..], last, more);
      assert tags[1..] == before[1..] + [last];
      assert changed[1..] == before[1..] + [last.(value := last.value + more)];
      Bytes.AppendAssoc(tags[0].Key() + (";" + tags[1].space), Text(tags[1..]), more);
    }
  }

  // ----- the parser -----

  datatype Tags = BadTag | Tags(fields: map<string, string>)

  /** /^([^= ]+)=(...)+$/: where the `=` is that ends the name; -1 when the tag does not match. */
  function NameEnd(key: string): (i: int)
    ensures i == -1 || (0 < i < |key| - 1 && key[i] == '=')
  {
    var i := Find(key, 0);
    if 0 < i < |key| - 1 && key[i] == '=' then i else -1
  }

  /** The first `=` or SP at or after `from`, else the length. */
  function Find(key: string, from: nat): (i: nat)
    requires from <= |key|
    ensures from <= i <= |key|
    ensures forall k :: from <= k < i ==> key[k] != '=' && key[k] != ' '
    ensures i < |key| ==> key[i] == '=' || key[i] == ' '
    decreases |key| - from
  {
    if from == |key| || key[from] == '=' || key[from] == ' ' then from else Find(key, from + 1)
  }

  /** The fields after reading `keys`, in order; a later tag of the same name wins. */
  function ReadTags(fields: map<string, string>, keys: seq<string>): Tags
    decreases keys
  {
    if keys == [] then Tags(fields)
    else if keys[0] == "" then ReadTags(fields, keys[1..])
    else
      var e := NameEnd(keys[0]);
      if e == -1 then BadTag else ReadTags(fields[keys[0][..e] := keys[0][e + 1..]], keys[1..])
  }

  method ParseTags(keys: seq<string>) returns (tags: Tags)
    ensures tags == ReadTags(map[], keys)
  {
    var fields: map<string, string> := map[];
    var k := 0;
    while k < |keys|
      invariant k <= |keys|
      invariant ReadTags(fields, keys[k..]) == ReadTags(map[], keys)
    {
      var key := keys[k];
      assert keys[k..][1..] == keys[k + 1..];
      if key != "" {
        var e := NameEnd(key);
        if e == -1 { return BadTag; }
        fields := fields[key[..e] := key[e + 1..]];
      }
      k := k + 1;
    }
    tags := Tags(fields);
  }

  datatype Parsed =
    | Refused(error: string, result: string)
    | Ready(fields: map<string, string>, headercanon: string, bodycanon: string,
            signedHeaders: seq<string>, identity: string)

  predicate EndsWith(s: string, end: string) {
    |end| <= |s| && Lowered(s[|s| - |end|..]) == Lowered(end)
  }

  function Part(parts: seq<string>, i: nat): string {
    if i < |parts| && parts[i] != "" then parts[i] else "simple"
  }

  /** A missing field reads as "". */
  function Get(fields: map<string, string>, name: string): string {
    if name in fields then fields[name] else ""
  }

  /** The checks of the constructor, in order. */
  function Checked(fields: map<string, string>): Parsed {
    var signed := EachLowered(Split(Get(fields, "h"), ':'));
    var canon := if Get(fields, "c") == "" then [] else Split(Get(fields, "c"), '/');
    if Get(fields, "v") == "" then Refused("missing version", "invalid")
    else if Get(fields, "v") != "1" then Refused("incompatible version", "invalid")
    else if Get(fields, "l") != "" then Refused("length tag is unsupported", "none")
    else if Get(fields, "a") == "" then Refused("missing algorithm", "invalid")
    else if Get(fields, "a") != "rsa-sha1" && Get(fields, "a") != "rsa-sha256" then
      Refused("invalid algorithm", "invalid")
    else if Get(fields, "b") == "" then Refused("signature missing", "invalid")
    else if Get(fields, "bh") == "" then Refused("body hash missing", "invalid")
    else if Get(fields, "d") == "" then Refused("domain missing", "invalid")
    else if Get(fields, "h") == "" then Refused("signed headers missing", "invalid")
    else if "from" !in signed then Refused("from field not signed", "invalid")
    else if Get(fields, "i") != "" && !EndsWith(Get(fields, "i"), Get(fields, "d")) then
      Refused("i/d selector domain mismatch", "invalid")
    else if Get(fields, "q") != "" && Get(fields, "q") != "dns/txt" then Refused("unknown query method", "invalid")
    else
      Ready(fields, Part(canon, 0), Part(canon, 1), signed,
            if Get(fields, "i") == "" then "@" + Get(fields, "d") else Get(fields, "i"))
  }

  /** The constructor, on what follows the colon of the header field. */
  function Parse(value: string): Parsed {
    match ReadTags(map[], Split(Strip(value), ';'))
    case BadTag => Refused("header parse error", "invalid")
    case Tags(fields) => Checked(fields)
  }

  // ----- what is printed reads back -----

  /** One line of a folded signature strips to itself. */
  lemma StripLine(line: string, more: string)
    requires Clean(line)
    ensures Strip((line + FWS) + more) == line + Strip(more)
  {
    hide Space, Strip;
    StripFws();
    StripAppend(line + FWS, more);
    StripAppend(line, FWS);
    StripClean(line);
    assert line + "" == line;
  }

  lemma StripFws()
    ensures Strip(FWS) == ""
  {
  }

  lemma {:induction false} StripFolded(signature: string, room: nat)
    requires room > 0 && Clean(signature)
    ensures Strip(Folded(signature, room)) == signature
    decreases |signature|
  {
    hide Space, Strip;
    StripClean(signature);
    if |signature| > room {
      var line, more := signature[..room], signature[room..];
      StripFolded(more, 76);
      StripLine(line, Folded(more, 76));
      assert signature == line + more;
    }
  }

  function Keys(tags: seq<Tag>): seq<string> {
    if tags == [] then [] else [tags[0].Key()] + Keys(tags[1..])
  }

  predicate IsName(name: string) {
    name != "" && forall i :: 0 <= i < |name| ==> name[i] != '=' && name[i] != ' '
  }

  lemma NameEndOfKey(t: Tag)
    requires IsName(t.name)
    ensures NameEnd(t.Key()) == if t.value == "" then -1 else |t.name|
    ensures t.Key()[..|t.name|] == t.name && t.Key()[|t.name| + 1..] == t.value
  {
    var key := t.Key();
    var i := Find(key, 0);
    assert key[|t.name|] == '=';
    assert forall k :: 0 <= k < |t.name| ==> key[k] == t.name[k];
    assert i == |t.name|;
  }

  function FieldsOf(fields: map<string, string>, tags: seq<Tag>): map<string, string>
    decreases tags
  {
    if tags == [] then fields else FieldsOf(fields[tags[0].name := tags[0].value], tags[1..])
  }

  predicate CleanTag(t: Tag) {
    IsName(t.name) && Clean(t.name) && Clean(t.value) && Strip(t.space) == ""
  }

  predicate CleanTags(tags: seq<Tag>) {
    forall i :: 0 <= i < |tags| ==> CleanTag(tags[i])
  }

  predicate NoEmptyValue(tags: seq<Tag>) {
    forall i :: 0 <= i < |tags| ==> tags[i].value != ""
  }

  lemma {:induction false} ReadKeys(fields: map<string, string>, tags: seq<Tag>)
    requires CleanTags(tags)
    ensures ReadTags(fields, Keys(tags)) == if NoEmptyValue(tags) then Tags(FieldsOf(fields, tags)) else BadTag
    decreases |tags|
  {
    if tags != [] {
      var t := tags[0];
      assert CleanTag(t);
      NameEndOfKey(t);
      assert t.Key() != "";
      assert Keys(tags)[1..] == Keys(tags[1..]);
      ReadKeys(fields[t.name := t.value], tags[1..]);
      assert NoEmptyValue(tags) <==> t.value != "" && NoEmptyValue(tags[1..]) by {
        assert tags == [t] + tags[1..];
      }
    }
  }

  lemma StripKey(t: Tag)
    requires CleanTag(t)
    ensures Strip(t.Key()) == t.Key()
  {
    StripAppend(t.name + "=", t.value);
    StripAppend(t.name, "=");
    StripClean(t.name);
    StripClean("=");
    StripClean(t.value);
  }

  /** Without its white space the text is the tags joined by `;`. */
  lemma {:induction false} StripText(tags: seq<Tag>)
    requires tags != [] && CleanTags(tags)
    ensures Keys(tags) != []
    ensures Strip(Text(tags)) == Join(Keys(tags), ';')
  {
    assert CleanTag(tags[0]);
    StripKey(tags[0]);
    if |tags| > 1 {
      StripText(tags[1..]);
      StripBetween(tags[0].Key(), tags[1], Text(tags[1..]));
    }
  }

  lemma StripBetween(key: string, next: Tag, more: string)
    requires Strip(key) == key && CleanTag(next)
    ensures Strip(key + (";" + next.space) + more) == key + [';'] + Strip(more)
  {
    StripAppend(key + (";" + next.space), more);
    StripAppend(key, ";" + next.space);
    StripAppend(";", next.space);
    assert Strip(";") == [';'] + Strip("");
    assert [';'] + "" == [';'];
  }

  lemma {:induction false} SplitKeys(tags: seq<Tag>)
    requires tags != [] && CleanTags(tags)
    ensures Keys(tags) != [] && Split(Join(Keys(tags), ';'), ';') == Keys(tags)
  {
    KeysAt(tags);
    assert forall i :: 0 <= i < |tags| ==> CleanTag(tags[i]);
    SplitJoin(Keys(tags), ';');
  }

  lemma {:induction false} KeysAt(tags: seq<Tag>)
    ensures |Keys(tags)| == |tags|
    ensures forall i :: 0 <= i < |tags| ==> Keys(tags)[i] == tags[i].Key()
  {
    if tags != [] {
      KeysAt(tags[1..]);
    }
  }

  lemma {:induction false} FieldsAt(fields: map<string, string>, tags: seq<Tag>, i: nat)
    requires i < |tags| && forall j :: i < j < |tags| ==> tags[j].name != tags[i].name
    ensures tags[i].name in FieldsOf(fields, tags) && FieldsOf(fields, tags)[tags[i].name] == tags[i].value
    decreases |tags|
  {
    if i > 0 {
      FieldsAt(fields[tags[0].name := tags[0].value], tags[1..], i - 1);
    } else {
      FieldsStay(fields[tags[0].name := tags[0].value], tags[1..], tags[0].name);
    }
  }

  lemma {:induction false} FieldsStay(fields: map<string, string>, tags: seq<Tag>, name: string)
    requires name in fields && forall j :: 0 <= j < |tags| ==> tags[j].name != name
    ensures name in FieldsOf(fields, tags) && FieldsOf(fields, tags)[name] == fields[name]
    decreases |tags|
  {
    if tags != [] {
      FieldsStay(fields[tags[0].name := tags[0].value], tags[1..], name);
    }
  }

  lemma {:induction false} FieldsKeys(fields: map<string, string>, tags: seq<Tag>)
    ensures FieldsOf(fields, tags).Keys == fields.Keys + set t | t in tags :: t.name
    decreases |tags|
  {
    if tags != [] {
      FieldsKeys(fields[tags[0].name := tags[0].value], tags[1..]);
      assert tags == [tags[0]] + tags[1..];
    }
  }

  /** What can be printed: no value holds white space or `;`. */
  predicate CleanValues(v: Values) {
    && Clean(v.d) && Clean(v.s) && Clean(v.bh) && Clean(v.b)
    && forall i :: 0 <= i < |v.h| ==> Clean(v.h[i])
  }

  lemma {:induction false} ColonsClean(names: seq<string>)
    requires forall i :: 0 <= i < |names| ==> Clean(names[i])
    ensures Clean(Colons(names))
  {
    if |names| > 1 {
      ColonsClean(names[1..]);
    }
  }

  lemma FixedTags()
    ensures CleanTag(Tag("", "v", "1")) && CleanTag(Tag(" ", "a", "rsa-sha256"))
            && CleanTag(Tag(" ", "c", "relaxed/simple"))
  {
    hide CleanTag;
    VersionTag();
    AlgorithmTag();
    CanonTag();
  }

  lemma VersionTag()
    ensures CleanTag(Tag("", "v", "1"))
  {
    assert Strip("") == "";
  }

  lemma AlgorithmTag()
    ensures CleanTag(Tag(" ", "a", "rsa-sha256"))
  {
    assert Strip(" ") == "";
  }

  lemma CanonTag()
    ensures CleanTag(Tag(" ", "c", "relaxed/simple"))
  {
    assert Strip(" ") == "";
  }

  lemma ValueTags(value: string)
    requires Clean(value)
    ensures CleanTag(Tag(FWS, "d", value)) && CleanTag(Tag(" ", "s", value)) && CleanTag(Tag(FWS, "h", value))
    ensures CleanTag(Tag(FWS, "bh", value)) && CleanTag(Tag(FWS, "b", value))
  {
    assert Strip(FWS) == "" && Strip(" ") == "";
  }

  lemma TagsAreClean(v: Values)
    requires CleanValues(v)
    ensures CleanTags(TagsOf(v))
  {
    hide Strip, Colons;
    ColonsClean(v.h);
    FixedTags();
    ValueTags(v.d);
    ValueTags(v.s);
    ValueTags(Colons(v.h));
    ValueTags(v.bh);
    ValueTags(v.b);
  }

  /** Folding the signature adds nothing but white space. */
  lemma StripPrinted(v: Values)
    requires CleanValues(v)
    ensures Strip(Printed(v)) == Strip(Text(TagsOf(v)))
  {
    var last := Tag(FWS, "b", "");
    var front := Text(TagsBefore(v) + [last]);
    StripAppend(front, Folded(v.b, 74));
    StripFolded(v.b, 74);
    StripAppend(front, v.b);
    StripClean(v.b);
    TextLast(TagsBefore(v), last, v.b);
    assert "" + v.b == v.b;
  }

  /** The tags read from the printed field are the tags printed. */
  lemma PrintedTags(v: Values)
    requires CleanValues(v)
    ensures ReadTags(map[], Split(Strip(" " + Printed(v) + "\r\n"), ';')) == ReadTags(map[], Keys(TagsOf(v)))
  {
    var tags := TagsOf(v);
    StripAround(Printed(v));
    StripPrinted(v);
    TagsAreClean(v);
    StripText(tags);
    SplitKeys(tags);
  }

  lemma StripAround(s: string)
    ensures Strip(" " + s + "\r\n") == Strip(s)
  {
    StripAppend(" " + s, "\r\n");
    StripAppend(" ", s);
    assert Strip(" ") == "" && Strip("\r\n") == "";
  }

  predicate SomeEmpty(v: Values) {
    v.d == "" || v.s == "" || Colons(v.h) == "" || v.bh == "" || v.b == ""
  }

  /** The eight tags printed, and nothing else. */
  predicate Carries(fields: map<string, string>, v: Values) {
    && fields.Keys == {"v", "a", "c", "d", "s", "h", "bh", "b"}
    && fields["v"] == "1" && fields["a"] == "rsa-sha256" && fields["c"] == "relaxed/simple"
    && fields["d"] == v.d && fields["s"] == v.s && fields["h"] == Colons(v.h) && fields["bh"] == v.bh
    && fields["b"] == v.b
  }

  lemma PrintedFields(v: Values)
    ensures Carries(FieldsOf(map[], TagsOf(v)), v)
  {
    var tags := TagsOf(v);
    NamesPrinted(v);
    FieldsAt(map[], tags, 0);
    FieldsAt(map[], tags, 1);
    FieldsAt(map[], tags, 2);
    FieldsAt(map[], tags, 3);
    FieldsAt(map[], tags, 4);
    FieldsAt(map[], tags, 5);
    FieldsAt(map[], tags, 6);
    FieldsAt(map[], tags, 7);
    FieldsKeys(map[], tags);
    NameSet(tags);
  }

  lemma NameSet(t: seq<Tag>)
    requires |t| == 8
    ensures (set x | x in t :: x.name) ==
            {t[0].name, t[1].name, t[2].name, t[3].name, t[4].name, t[5].name, t[6].name, t[7].name}
  {
    assert t == [t[0], t[1], t[2], t[3], t[4], t[5], t[6], t[7]];
  }

  lemma NamesPrinted(v: Values)
    ensures var t := TagsOf(v);
            && |t| == 8 && t[0].name == "v" && t[1].name == "a" && t[2].name == "c" && t[3].name == "d"
            && t[4].name == "s" && t[5].name == "h" && t[6].name == "bh" && t[7].name == "b"
    ensures forall i, j :: 0 <= i < j < |TagsOf(v)| ==> TagsOf(v)[j].name != TagsOf(v)[i].name
  {
  }

  lemma NoEmptyIff(v: Values)
    ensures NoEmptyValue(TagsOf(v)) <==> !SomeEmpty(v)
  {
    var tags := TagsOf(v);
    assert tags[3].value == v.d && tags[4].value == v.s && tags[5].value == Colons(v.h);
    assert tags[6].value == v.bh && tags[7].value == v.b;
  }

  lemma CheckedPrinted(fields: map<string, string>, v: Values)
    requires !SomeEmpty(v) && Carries(fields, v)
    ensures var signed := EachLowered(Split(Colons(v.h), ':'));
            Checked(fields) ==
            if "from" !in signed then Refused("from field not signed", "invalid")
            else Ready(fields, "relaxed", "simple", signed, "@" + v.d)
  {
    NotPrinted(fields, v);
    CanonPrinted();
  }

  lemma CanonPrinted()
    ensures Split("relaxed/simple", '/') == ["relaxed", "simple"]
  {
    hide Split;
    SplitAt("relaxed", "simple", '/');
    SplitNone("simple", '/');
    assert "relaxed" + ['/'] + "simple" == "relaxed/simple";
  }

  lemma NotPrinted(fields: map<string, string>, v: Values)
    requires Carries(fields, v)
    ensures "l" !in fields && "i" !in fields && "q" !in fields
  {
    assert "l" !in fields.Keys && "i" !in fields.Keys && "q" !in fields.Keys;
  }

  /** The field the signer prints reads back to exactly the values printed, for all values free of white
      space and `;`. It is refused exactly when a value is empty or `from` is not among the names signed. */
  lemma PrintedParses(v: Values)
    requires CleanValues(v)
    ensures var parsed := Parse(" " + Printed(v) + "\r\n");
            var signed := EachLowered(Split(Colons(v.h), ':'));
            if SomeEmpty(v) then parsed == Refused("header parse error", "invalid")
            else if "from" !in signed then parsed == Refused("from field not signed", "invalid")
            else
              && parsed.Ready? && Carries(parsed.fields, v)
              && parsed == Ready(parsed.fields, "relaxed", "simple", signed, "@" + v.d)
  {
    PrintedTags(v);
    TagsAreClean(v);
    ReadKeys(map[], TagsOf(v));
    NoEmptyIff(v);
    PrintedFields(v);
    if !SomeEmpty(v) {
      CheckedPrinted(FieldsOf(map[], TagsOf(v)), v);
    }
  }

  /** The names signed come back in order, in lower case. */
  lemma SignedNamesReadBack(names: seq<string>)
    requires names != [] && forall i :: 0 <= i < |names| ==> ':' !in names[i]
    ensures Split(Colons(names), ':') == names
  {
    SplitJoin(names, ':');
  }
}
