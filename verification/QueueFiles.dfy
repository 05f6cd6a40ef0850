/**
 Queueing a message (email/outbound/index.js): one file for every delivery, written under a temporary
 name, synced, and renamed. What a crash leaves is what the directory holds after some file operation;
 so the directory judges itself after each one.
 */
module QueueFiles {
  import opened Bytes

  // ----- the format of a queue file -----

  predicate Space(b: byte) { 9 <= b <= 13 || b == 32 }

  function TrimStart(s: seq<byte>): seq<byte> {
    if s != [] && Space(s[0]) then TrimStart(s[1..]) else s
  }

  function TrimEnd(s: seq<byte>): seq<byte> {
    if s != [] && Space(s[|s| - 1]) then TrimEnd(s[..|s| - 1]) else s
  }

  const BRACE: byte := 125

  /** A header as JSON.stringify prints one. */
  predicate IsJson(json: seq<byte>) {
    |json| >= 2 && !Space(json[0]) && json[|json| - 1] == BRACE
  }

  const TWO_32 := 0x1_0000_0000

  /** writeUInt32BE. */
  function U32(n: nat): (s: seq<byte>)
    requires n < TWO_32
    ensures |s| == 4
  {
    [n / 0x100_0000, n / 0x1_0000 % 256, n / 256 % 256, n % 256]
  }

  /** readUInt32BE. */
  function FromU32(s: seq<byte>): nat
    requires |s| == 4
  {
    (s[0] as int) * 0x100_0000 + (s[1] as int) * 0x1_0000 + (s[2] as int) * 256 + s[3] as int
  }

  lemma U32RoundTrip(n: nat)
    requires n < TWO_32
    ensures FromU32(U32(n)) == n
  {
    var q, r := n / 256, n % 256;
    var q2 := q / 256;
    assert n / 0x1_0000 == q2;
    assert n / 0x100_0000 == q2 / 256;
    assert n == 256 * q + r && q == 256 * q2 + q % 256 && q2 == 256 * (q2 / 256) + q2 % 256;
  }

  datatype Message = Message(json: seq<byte>, body: seq<byte>)
  {
    /** The header as written, between line feeds. */
    function Todo(): seq<byte> { [LF] + json + [LF] }

    predicate Writable() { IsJson(json) && |Todo()| < TWO_32 }

    function Head(): seq<byte>
      requires Writable()
    {
      U32(|Todo()|) + Todo()
    }

    /** build_todo, and the message behind it. */
    function File(): seq<byte>
      requires Writable()
    {
      Head() + body
    }
  }

  datatype Read = TooShort | WrongLength | BadEnd | Ready(json: seq<byte>, body: seq<byte>)

  /** read_todo, and data_stream behind the header. */
  function ReadTodo(file: seq<byte>): Read {
    if |file| < 4 then TooShort
    else
      var len := FromU32(file[..4]);
      if |file| < 4 + len then WrongLength
      else
        var json := TrimEnd(TrimStart(file[4..4 + len]));
        if json == [] || json[|json| - 1] != BRACE then BadEnd
        else Ready(json, file[4 + len..])
  }

  lemma TrimTodo(json: seq<byte>)
    requires IsJson(json)
    ensures TrimEnd(TrimStart([LF] + json + [LF])) == json
  {
    var s := [LF] + json + [LF];
    assert s[1..] == json + [LF];
    assert TrimStart(json + [LF]) == json + [LF];
    assert (json + [LF])[..|json|] == json;
  }

  /** What is written reads back, header and body, byte for byte. */
  lemma WrittenReadsBack(m: Message)
    requires m.Writable()
    ensures ReadTodo(m.File()) == Ready(m.json, m.body)
  {
    var file, len := m.File(), |m.Todo()|;
    assert file == U32(len) + (m.Todo() + m.body);
    assert file[..4] == U32(len);
    U32RoundTrip(len);
    assert file[4..4 + len] == m.Todo();
    assert file[4 + len..] == m.body;
    TrimTodo(m.json);
  }

  /** A file cut off anywhere: one cut inside its header is never taken for a message, and one cut behind it
      always is, for the same header with a shorter body. */
  lemma CutOffReads(m: Message, k: nat)
    requires m.Writable() && k <= |m.File()|
    ensures ReadTodo(m.File()[..k]) == if k < 4 then TooShort
                                       else if k < |m.Head()| then WrongLength
                                       else Ready(m.json, m.body[..k - |m.Head()|])
  {
    var file, len := m.File(), |m.Todo()|;
    if k >= 4 {
      assert file == U32(len) + (m.Todo() + m.body);
      assert file[..k][..4] == U32(len);
      U32RoundTrip(len);
      if k >= |m.Head()| {
        CutInBody(m, k);
      }
    }
  }

  lemma CutInBody(m: Message, k: nat)
    requires m.Writable() && |m.Head()| <= k <= |m.File()|
    ensures m.File()[..k] == Message(m.json, m.body[..k - |m.Head()|]).File()
    ensures ReadTodo(m.File()[..k]) == Ready(m.json, m.body[..k - |m.Head()|])
  {
    WrittenReadsBack(Message(m.json, m.body[..k - |m.Head()|]));
  }

  // ----- the directory -----

  type Name = string

  const PLATFORM_DOT := "__tmp__."

  /** file.indexOf(platformDOT) === 0. */
  predicate IsTemp(name: Name) { PLATFORM_DOT <= name }

  type Files = map<Name, seq<byte>>

  /** Every file that is not temporary holds a whole message, and the one it was meant to. */
  ghost predicate Sound(files: Files, meant: map<Name, Message>) {
    forall n :: n in files && !IsTemp(n) ==> n in meant && meant[n].Writable() && files[n] == meant[n].File()
  }

  class QueueDir {
    var files: Files
    ghost var meant: map<Name, Message>
    ghost var alwaysSound: bool        // after every operation so far

    ghost predicate Valid()
      reads this
    {
      alwaysSound && Sound(files, meant)
    }

    /** The record is right: once a file that is not whole has stood there, it says so for good. */
    ghost predicate Recorded()
      reads this
    {
      alwaysSound ==> Sound(files, meant)
    }

    constructor (files: Files, ghost meant: map<Name, Message>)
      requires Sound(files, meant)
      ensures Valid() && this.files == files && this.meant == meant
    {
      this.files, this.meant, alwaysSound := files, meant, true;
    }

    method Write(name: Name, contents: seq<byte>)
      modifies this`files, this`alwaysSound
      ensures files == old(files)[name := contents]
      ensures alwaysSound == (old(alwaysSound) && Sound(files, meant))
    {
      files := files[name := contents];
      alwaysSound := alwaysSound && Sound(files, meant);
    }

    method Rename(name: Name, dest: Name)
      requires name in files
      modifies this`files, this`alwaysSound
      ensures files == (old(files) - {name})[dest := old(files)[name]]
      ensures alwaysSound == (old(alwaysSound) && Sound(files, meant))
    {
      files := (files - {name})[dest := files[name]];
      alwaysSound := alwaysSound && Sound(files, meant);
    }

    method Unlink(name: Name)
      modifies this`files, this`alwaysSound
      ensures files == old(files) - {name}
      ensures alwaysSound == (old(alwaysSound) && Sound(files, meant))
    {
      files := files - {name};
      alwaysSound := alwaysSound && Sound(files, meant);
    }

    /** delete_dot_files, at start-up. */
    method DeleteDotFiles(listing: seq<Name>)
      requires Valid() && forall n :: n in files <==> n in listing
      modifies this`files, this`alwaysSound
      ensures Valid()
      ensures forall n :: n in files <==> n in old(files) && !IsTemp(n)
      ensures forall n :: n in files ==> files[n] == old(files)[n]
    {
      var i := 0;
      while i < |listing|
        invariant i <= |listing| && Valid()
        invariant forall n :: n in files <==> n in old(files) && !(IsTemp(n) && n in listing[..i])
        invariant forall n :: n in files ==> files[n] == old(files)[n]
      {
        assert listing[..i + 1] == listing[..i] + [listing[i]];
        if IsTemp(listing[i]) {
          Unlink(listing[i]);
        }
        i := i + 1;
      }
      assert listing[..i] == listing;
    }
  }

  // ----- writing one file -----

  /** The error handler destroys the stream, and the stream may emit its close event for that. The rename the
      close handler asks for then races with the unlink the error handler has asked for. */
  datatype Close = NoClose | RenameLoses | RenameWins

  /** Where a delivery fails: opening, writing, after `at` bytes of the file, syncing, or renaming. */
  datatype Fault =
    | NoFault
    | OpenFails(close: Close)
    | WriteFails(at: nat, close: Close)
    | SyncFails(close: Close)
    | RenameFails
  {
    /** The fault does happen when a file of this length is written. */
    predicate Hits(size: nat) {
      !NoFault? && (WriteFails? ==> at < size)
    }

    /** The error handler has run, and the close handler runs too: the second call of the callback throws. */
    predicate CallsTwice(size: nat) {
      Hits(size) && !RenameFails? && !close.NoClose?
    }

    /** The rename behind the error takes effect. */
    predicate Leaves(size: nat) {
      Hits(size) && (WriteFails? || SyncFails?) && close.RenameWins?
    }

    function Written(file: seq<byte>): (s: seq<byte>)
      ensures s <= file
    {
      if WriteFails? && at < |file| then file[..at] else file
    }
  }

  lemma TempKeepsSound(files: Files, meant: map<Name, Message>, tmp: Name, contents: seq<byte>)
    requires Sound(files, meant) && IsTemp(tmp)
    ensures Sound(files[tmp := contents], meant) && Sound(files - {tmp}, meant)
  {
  }

  lemma MeantGrows(files: Files, meant: map<Name, Message>, name: Name, m: Message)
    requires Sound(files, meant) && name !in files
    ensures Sound(files, meant[name := m])
  {
  }

  /** process_delivery. `ok` is what the first call of the callback says, and `twice` that there was a second.
      The file stands under its own name exactly when it was queued, unless the rename behind an error wins;
      and what then stands there is whole exactly when the writing was. */
  method ProcessDelivery(dir: QueueDir, fname: Name, json: seq<byte>, chunks: seq<seq<byte>>, fault: Fault)
    returns (ok: bool, twice: bool)
    requires dir.Valid() && Message(json, Flatten(chunks)).Writable()
    requires !IsTemp(fname) && fname !in dir.files && PLATFORM_DOT + fname !in dir.files
    modifies dir
    ensures dir.meant == old(dir.meant)[fname := Message(json, Flatten(chunks))]
    ensures var file := Message(json, Flatten(chunks)).File();
            && ok == !fault.Hits(|file|)
            && twice == fault.CallsTwice(|file|)
            && dir.files == (if ok then old(dir.files)[fname := file]
                             else if fault.Leaves(|file|) then old(dir.files)[fname := fault.Written(file)]
                             else old(dir.files))
            && dir.Recorded()
            && dir.alwaysSound == !(fault.WriteFails? && fault.Leaves(|file|))
  {
    var m := Message(json, Flatten(chunks));
    var tmp := PLATFORM_DOT + fname;
    dir.meant := dir.meant[fname := m];
    MeantGrows(dir.files, old(dir.meant), fname, m);
    if fault.OpenFails? { return false, !fault.close.NoClose?; }
    ok := WriteAll(dir, tmp, m, chunks, fault);
    assert dir.files - {tmp} == old(dir.files);
    if !ok || fault.SyncFails? {
      twice := FailDelivery(dir, fname, tmp, m, fault.close);
      return false, twice;
    }
    twice := false;
    if fault.RenameFails? {
      UnlinkTemp(dir, tmp);
      return false, twice;
    }
    dir.Rename(tmp, fname);
  }

  /** The error handler, and the close handler behind it. */
  method FailDelivery(dir: QueueDir, fname: Name, tmp: Name, ghost m: Message, close: Close) returns (twice: bool)
    requires dir.Valid() && IsTemp(tmp) && tmp in dir.files && !IsTemp(fname) && fname !in dir.files
    requires fname in dir.meant && dir.meant[fname] == m && m.Writable()
    modifies dir`files, dir`alwaysSound
    ensures twice == !close.NoClose?
    ensures dir.files == if close.RenameWins? then (old(dir.files) - {tmp})[fname := old(dir.files)[tmp]]
                         else old(dir.files) - {tmp}
    ensures dir.Recorded()
    ensures dir.alwaysSound == (close.RenameWins? ==> old(dir.files)[tmp] == m.File())
  {
    twice := close != NoClose;
    if close == RenameWins {
      dir.Rename(tmp, fname);
      OnlySoundWhole(old(dir.files), dir.meant, tmp, fname);
    } else {
      UnlinkTemp(dir, tmp);
    }
  }

  lemma OnlySoundWhole(files: Files, meant: map<Name, Message>, tmp: Name, fname: Name)
    requires Sound(files, meant) && tmp in files && IsTemp(tmp) && !IsTemp(fname)
    requires fname in meant && meant[fname].Writable()
    ensures Sound((files - {tmp})[fname := files[tmp]], meant) <==> files[tmp] == meant[fname].File()
  {
    var files' := (files - {tmp})[fname := files[tmp]];
    assert fname in files' && files'[fname] == files[tmp];
  }

  lemma {:induction false} FlattenPrefix(pieces: seq<seq<byte>>, i: nat)
    requires i <= |pieces|
    ensures Flatten(pieces[..i]) <= Flatten(pieces)
  {
    FlattenAppend(pieces[..i], pieces[i..]);
    assert pieces[..i] + pieces[i..] == pieces;
  }

  /** The header, then the message in chunks; all of it goes to the temporary file. */
  method WriteAll(dir: QueueDir, tmp: Name, m: Message, chunks: seq<seq<byte>>, fault: Fault) returns (ok: bool)
    requires dir.Valid() && IsTemp(tmp) && m.Writable() && m.body == Flatten(chunks)
    modifies dir`files, dir`alwaysSound
    ensures dir.Valid()
    ensures tmp in dir.files && dir.files - {tmp} == old(dir.files) - {tmp}
    ensures ok <==> !(fault.WriteFails? && fault.Hits(|m.File()|))
    ensures dir.files[tmp] == fault.Written(m.File())
  {
    hide Sound, U32, IsJson;
    var pieces := [m.Head()] + chunks;
    assert pieces[1..] == chunks;
    var contents: seq<byte> := [];
    var i := 0;
    TempKeepsSound(dir.files, dir.meant, tmp, []);
    dir.Write(tmp, []);
    while i < |pieces|
      invariant i <= |pieces| && dir.Valid()
      invariant contents == Flatten(pieces[..i]) && (fault.WriteFails? ==> |contents| <= fault.at)
      invariant tmp in dir.files && dir.files[tmp] == contents && dir.files - {tmp} == old(dir.files) - {tmp}
    {
      NextPiece(pieces, i);
      ok := WritePiece(dir, tmp, contents, pieces[i], fault);
      if !ok { return; }
      contents := contents + pieces[i];
      i := i + 1;
    }
    assert pieces[..i] == pieces;
    ok := true;
  }

  lemma NextPiece(pieces: seq<seq<byte>>, i: nat)
    requires i < |pieces|
    ensures Flatten(pieces[..i + 1]) == Flatten(pieces[..i]) + pieces[i]
    ensures Flatten(pieces[..i]) + pieces[i] <= Flatten(pieces)
  {
    FlattenPrefix(pieces, i + 1);
    FlattenNext(pieces, i);
  }

  lemma FlattenNext(pieces: seq<seq<byte>>, i: nat)
    requires i < |pieces|
    ensures Flatten(pieces[..i + 1]) == Flatten(pieces[..i]) + pieces[i]
  {
    assert pieces[..i + 1] == pieces[..i] + [pieces[i]];
    FlattenSnoc(pieces[..i], pieces[i]);
  }

  /** One write, which may stop short. */
  method WritePiece(dir: QueueDir, tmp: Name, contents: seq<byte>, piece: seq<byte>, fault: Fault) returns (ok: bool)
    requires dir.Valid() && IsTemp(tmp) && (fault.WriteFails? ==> |contents| <= fault.at)
    modifies dir`files, dir`alwaysSound
    ensures dir.Valid()
    ensures ok <==> !(fault.WriteFails? && fault.at < |contents + piece|)
    ensures dir.files == old(dir.files)[tmp := if ok then contents + piece else (contents + piece)[..fault.at]]
  {
    var all := contents + piece;
    ok := !(fault.WriteFails? && fault.at < |all|);
    var written := if ok then all else all[..fault.at];
    TempKeepsSound(dir.files, dir.meant, tmp, written);
    dir.Write(tmp, written);
  }

  method UnlinkTemp(dir: QueueDir, tmp: Name)
    requires dir.Valid() && IsTemp(tmp)
    modifies dir`files, dir`alwaysSound
    ensures dir.Valid() && dir.files == old(dir.files) - {tmp}
  {
    TempKeepsSound(dir.files, dir.meant, tmp, []);
    dir.Unlink(tmp);
  }

  // ----- all deliveries of a message -----

  datatype Todo = Todo(fname: Name, json: seq<byte>, chunks: seq<seq<byte>>)
  {
    function Meant(): Message { Message(json, Flatten(chunks)) }

    function Size(): nat
      requires Meant().Writable()
    {
      |Meant().File()|
    }

    predicate Ok(files: Files) {
      Meant().Writable() && !IsTemp(fname) && fname !in files && PLATFORM_DOT + fname !in files
    }
  }

  predicate AllWritable(todos: seq<Todo>) {
    forall i :: 0 <= i < |todos| ==> todos[i].Meant().Writable()
  }

  /** New names, all different. */
  predicate Fresh(todos: seq<Todo>, files: Files) {
    && (forall i :: 0 <= i < |todos| ==> todos[i].Ok(files))
    && (forall i, j :: 0 <= i < j < |todos| ==> todos[i].fname != todos[j].fname)
  }

  function Names(todos: seq<Todo>): seq<Name> {
    if todos == [] then [] else Names(todos[..|todos| - 1]) + [todos[|todos| - 1].fname]
  }

  /** The directory with every delivery in it. */
  function Queued(files: Files, todos: seq<Todo>): Files
    requires AllWritable(todos)
  {
    if todos == [] then files
    else
      var last := todos[|todos| - 1];
      Queued(files, todos[..|todos| - 1])[last.fname := last.Meant().File()]
  }

  lemma QueuedSnoc(files: Files, todos: seq<Todo>, i: nat)
    requires i < |todos| && AllWritable(todos[..i + 1])
    ensures AllWritable(todos[..i])
    ensures Queued(files, todos[..i + 1]) == Queued(files, todos[..i])[todos[i].fname := todos[i].Meant().File()]
    ensures Names(todos[..i + 1]) == Names(todos[..i]) + [todos[i].fname]
  {
    assert todos[..i + 1][..i] == todos[..i];
  }

  lemma {:induction false} QueuedAt(files: Files, todos: seq<Todo>, n: Name)
    requires AllWritable(todos)
    ensures n in Queued(files, todos) <==> n in files || n in Names(todos)
    ensures n in files && n !in Names(todos) ==> n in Queued(files, todos) && Queued(files, todos)[n] == files[n]
    decreases |todos|
  {
    if todos != [] {
      QueuedAt(files, todos[..|todos| - 1], n);
    }
  }

  lemma {:induction false} NamesAre(todos: seq<Todo>, n: Name)
    ensures n in Names(todos) <==> exists i :: 0 <= i < |todos| && todos[i].fname == n
    decreases |todos|
  {
    if todos != [] {
      NamesAre(todos[..|todos| - 1], n);
    }
  }

  lemma NextIsFresh(files: Files, todos: seq<Todo>, i: nat)
    requires i < |todos| && Fresh(todos, files)
    ensures AllWritable(todos[..i + 1]) && AllWritable(todos[..i])
    ensures todos[i].Ok(Queued(files, todos[..i]))
  {
    forall k | 0 <= k < |todos| ensures todos[k].Ok(files) && todos[k].Meant().Writable() {
    }
    NotQueued(files, todos, i, todos[i].fname);
    NotQueued(files, todos, i, PLATFORM_DOT + todos[i].fname);
  }

  lemma NotQueued(files: Files, todos: seq<Todo>, i: nat, n: Name)
    requires i <= |todos| && AllWritable(todos[..i]) && n !in files
    requires forall k :: 0 <= k < i ==> todos[k].fname != n
    ensures n !in Queued(files, todos[..i])
  {
    QueuedAt(files, todos[..i], n);
    NamesAre(todos[..i], n);
  }

  /** The first delivery whose fault happens, or the number of deliveries. */
  function FirstFault(todos: seq<Todo>, faults: seq<Fault>, i: nat): (k: nat)
    requires i <= |todos| == |faults| && AllWritable(todos)
    ensures i <= k <= |todos|
    ensures forall n :: i <= n < k ==> !faults[n].Hits(todos[n].Size())
    ensures k < |todos| ==> faults[k].Hits(todos[k].Size())
    decreases |todos| - i
  {
    if i == |todos| || faults[i].Hits(todos[i].Size()) then i else FirstFault(todos, faults, i + 1)
  }

  /** What is left when the delivery `t` fails: nothing, but for a rename behind the error. */
  function AfterFault(files: Files, t: Todo, fault: Fault): Files
    requires t.Meant().Writable()
  {
    if fault.Leaves(t.Size()) then files[t.fname := fault.Written(t.Meant().File())] else files
  }

  /** send_trans_email, behind the hook: deliveries are queued one after the other, and pushed when all are;
      one failure takes every earlier file back. With `k` the first delivery that fails:
      - nothing but the whole of it is queued, unless the rename behind its error wins, which leaves its file;
      - wherever a crash falls between two file operations, only whole messages stand under names that are
        not temporary, unless that file is one whose writing failed;
      - the process ends by itself, for a callback called twice, exactly when the close event came at all. */
  method SendTransEmail(dir: QueueDir, todos: seq<Todo>, faults: seq<Fault>)
    returns (queued: bool, pushed: seq<Name>, throws: bool)
    requires dir.Valid() && Fresh(todos, dir.files) && |faults| == |todos|
    modifies dir
    ensures AllWritable(todos) && dir.Recorded()
    ensures var k := FirstFault(todos, faults, 0);
            && (queued <==> k == |todos|)
            && (queued ==> dir.Valid() && !throws && pushed == Names(todos))
            && (queued ==> dir.files == Queued(old(dir.files), todos))
            && (!queued ==>
                  && pushed == []
                  && dir.files == AfterFault(old(dir.files), todos[k], faults[k])
                  && dir.alwaysSound == !(faults[k].WriteFails? && faults[k].Leaves(todos[k].Size()))
                  && throws == faults[k].CallsTwice(todos[k].Size()))
  {
    pushed, throws := [], false;
    var i := 0;
    ghost var before := dir.files;
    TodosWritable(todos, before);
    while i < |todos|
      invariant i <= |todos| && dir.Valid() && AllWritable(todos[..i])
      invariant pushed == Names(todos[..i]) && dir.files == Queued(before, todos[..i])
      invariant FirstFault(todos, faults, i) == FirstFault(todos, faults, 0) && !throws
    {
      NextIsFresh(before, todos, i);
      QueuedSnoc(before, todos, i);
      queued, throws := ProcessDelivery(dir, todos[i].fname, todos[i].json, todos[i].chunks, faults[i]);
      if !queued {
        NamesAreNew(before, todos, i);
        TakeBack(dir, pushed);
        BackToBefore(before, todos, faults[i], i);
        return false, [], throws;
      }
      pushed := pushed + [todos[i].fname];
      i := i + 1;
    }
    assert todos[..i] == todos;
    queued := true;
  }

  lemma TodosWritable(todos: seq<Todo>, files: Files)
    requires Fresh(todos, files)
    ensures AllWritable(todos)
  {
    forall i | 0 <= i < |todos| ensures todos[i].Meant().Writable() {
      assert todos[i].Ok(files);
    }
  }

  lemma NamesAreNew(files: Files, todos: seq<Todo>, i: nat)
    requires i <= |todos| && Fresh(todos, files)
    ensures forall n :: n in Names(todos[..i]) ==> n !in files
    ensures i < |todos| ==> todos[i].fname !in Names(todos[..i])
  {
    if i < |todos| {
      NamesAre(todos[..i], todos[i].fname);
    }
    forall n | n in Names(todos[..i]) ensures n !in files {
      NamesAre(todos[..i], n);
      var k :| 0 <= k < i && todos[..i][k].fname == n;
      assert todos[k].Ok(files);
    }
  }

  function SetOf(names: seq<Name>): set<Name> {
    set n | n in names
  }

  /** Taking the names back leaves what there was before, and what the fault left. */
  lemma BackToBefore(before: Files, todos: seq<Todo>, fault: Fault, i: nat)
    requires i < |todos| && Fresh(todos, before) && AllWritable(todos) && AllWritable(todos[..i])
    ensures AfterFault(Queued(before, todos[..i]), todos[i], fault) - SetOf(Names(todos[..i]))
            == AfterFault(before, todos[i], fault)
  {
    hide Queued, Names;
    var names := Names(todos[..i]);
    NamesAreNew(before, todos, i);
    assert Queued(before, todos[..i]) - SetOf(names) == before by {
      forall n ensures n in Queued(before, todos[..i]) <==> n in before || n in names
        ensures n in before && n !in names ==> Queued(before, todos[..i])[n] == before[n]
      {
        QueuedAt(before, todos[..i], n);
      }
    }
  }

  /** The unlinking after a failure. */
  method TakeBack(dir: QueueDir, okPaths: seq<Name>)
    requires dir.Recorded()
    modifies dir`files, dir`alwaysSound
    ensures dir.files == old(dir.files) - SetOf(okPaths)
    ensures dir.Recorded() && dir.alwaysSound == old(dir.alwaysSound)
  {
    var i := 0;
    while i < |okPaths|
      invariant i <= |okPaths| && dir.Recorded() && dir.alwaysSound == old(dir.alwaysSound)
      invariant dir.files == old(dir.files) - SetOf(okPaths[..i])
    {
      assert okPaths[..i + 1] == okPaths[..i] + [okPaths[i]];
      dir.Unlink(okPaths[i]);
      i := i + 1;
    }
    assert okPaths[..i] == okPaths;
  }

  // ----- which deliveries -----

  datatype Rcpt = Rcpt(user: string, host: string)

  datatype Delivery = Delivery(domain: string, rcpts: seq<Rcpt>)

  /** The recipients of one domain, in order. */
  function OfDomain(rcpts: seq<Rcpt>, domain: string): seq<Rcpt> {
    if rcpts == [] then []
    else
      OfDomain(rcpts[..|rcpts| - 1], domain)
      + if rcpts[|rcpts| - 1].host == domain then [rcpts[|rcpts| - 1]] else []
  }

  predicate Holds(ds: seq<Delivery>, rcpts: seq<Rcpt>) {
    forall i :: 0 <= i < |ds| ==> ds[i].rcpts == OfDomain(rcpts, ds[i].domain) && ds[i].rcpts != []
  }

  predicate Distinct(ds: seq<Delivery>) {
    forall i, j :: 0 <= i < j < |ds| ==> ds[i].domain != ds[j].domain
  }

  predicate Covers(ds: seq<Delivery>, rcpts: seq<Rcpt>) {
    forall k :: 0 <= k < |rcpts| ==> HasDomain(ds, rcpts[k].host)
  }

  predicate HasDomain(ds: seq<Delivery>, domain: string) {
    exists i :: 0 <= i < |ds| && ds[i].domain == domain
  }

  /** One delivery for every domain, holding all its recipients in order. */
  predicate ByDomain(ds: seq<Delivery>, rcpts: seq<Rcpt>) {
    Holds(ds, rcpts) && Distinct(ds) && Covers(ds, rcpts)
  }

  /** A recipient more, for the delivery at `j` or, past the end, for a new one. */
  function Given(ds: seq<Delivery>, r: Rcpt, j: nat): seq<Delivery>
    requires j <= |ds|
  {
    if j == |ds| then ds + [Delivery(r.host, [r])] else ds[j := Delivery(r.host, ds[j].rcpts + [r])]
  }

  /** get_deliveries. With always_split every recipient gets a delivery; else every domain does. */
  method GetDeliveries(rcptTo: seq<Rcpt>, alwaysSplit: bool) returns (deliveries: seq<Delivery>)
    ensures alwaysSplit ==>
              |deliveries| == |rcptTo|
              && forall i :: 0 <= i < |rcptTo| ==> deliveries[i] == Delivery(rcptTo[i].host, [rcptTo[i]])
    ensures !alwaysSplit ==> ByDomain(deliveries, rcptTo)
  {
    deliveries := [];
    if !alwaysSplit {
      deliveries := GroupByDomain(rcptTo);
      return;
    }
    var i := 0;
    while i < |rcptTo|
      invariant i <= |rcptTo| && |deliveries| == i
      invariant forall k :: 0 <= k < i ==> deliveries[k] == Delivery(rcptTo[k].host, [rcptTo[k]])
    {
      deliveries := deliveries + [Delivery(rcptTo[i].host, [rcptTo[i]])];
      i := i + 1;
    }
  }

  method GroupByDomain(rcptTo: seq<Rcpt>) returns (deliveries: seq<Delivery>)
    ensures ByDomain(deliveries, rcptTo)
  {
    deliveries := [];
    var i := 0;
    while i < |rcptTo|
      invariant i <= |rcptTo| && ByDomain(deliveries, rcptTo[..i])
    {
      assert rcptTo[..i + 1] == rcptTo[..i] + [rcptTo[i]];
      deliveries := AddRcpt(deliveries, rcptTo[..i], rcptTo[i]);
      i := i + 1;
    }
    assert rcptTo[..i] == rcptTo;
  }

  /** One recipient: pushed to its domain's delivery, or to a new one. */
  method AddRcpt(ds: seq<Delivery>, ghost earlier: seq<Rcpt>, r: Rcpt) returns (deliveries: seq<Delivery>)
    requires ByDomain(ds, earlier)
    ensures ByDomain(deliveries, earlier + [r])
  {
    var j := 0;
    while j < |ds| && ds[j].domain != r.host
      invariant j <= |ds| && forall k :: 0 <= k < j ==> ds[k].domain != r.host
    {
      j := j + 1;
    }
    HoldsMore(ds, earlier, r, j);
    CoversMore(ds, earlier, r, j);
    DistinctMore(ds, r, j);
    if j == |ds| {
      deliveries := ds + [Delivery(r.host, [r])];
    } else {
      deliveries := ds[j := Delivery(r.host, ds[j].rcpts + [r])];
    }
  }

  lemma {:induction false} OfDomainSnoc(rcpts: seq<Rcpt>, r: Rcpt, domain: string)
    ensures OfDomain(rcpts + [r], domain) == OfDomain(rcpts, domain) + if r.host == domain then [r] else []
  {
    assert (rcpts + [r])[..|rcpts|] == rcpts;
  }

  lemma {:induction false} OfDomainNone(rcpts: seq<Rcpt>, domain: string)
    requires forall k :: 0 <= k < |rcpts| ==> rcpts[k].host != domain
    ensures OfDomain(rcpts, domain) == []
  {
    if rcpts != [] {
      OfDomainNone(rcpts[..|rcpts| - 1], domain);
    }
  }

  lemma HoldsMore(ds: seq<Delivery>, rcpts: seq<Rcpt>, r: Rcpt, j: nat)
    requires ByDomain(ds, rcpts) && j <= |ds|
    requires forall k :: 0 <= k < |ds| && k != j ==> ds[k].domain != r.host
    requires j < |ds| ==> ds[j].domain == r.host
    ensures Holds(Given(ds, r, j), rcpts + [r])
  {
    var ds' := Given(ds, r, j);
    forall k | 0 <= k < |ds'| ensures ds'[k].rcpts == OfDomain(rcpts + [r], ds'[k].domain) && ds'[k].rcpts != [] {
      OfDomainSnoc(rcpts, r, ds'[k].domain);
      if k == |ds| {
        NewDomain(ds, rcpts, r.host);
      }
    }
  }

  lemma DistinctMore(ds: seq<Delivery>, r: Rcpt, j: nat)
    requires Distinct(ds) && j <= |ds|
    requires forall k :: 0 <= k < |ds| && k != j ==> ds[k].domain != r.host
    requires j < |ds| ==> ds[j].domain == r.host
    ensures Distinct(Given(ds, r, j))
  {
  }

  lemma NewDomain(ds: seq<Delivery>, rcpts: seq<Rcpt>, domain: string)
    requires Covers(ds, rcpts) && !HasDomain(ds, domain)
    ensures OfDomain(rcpts, domain) == []
  {
    forall k | 0 <= k < |rcpts| ensures rcpts[k].host != domain {
      assert HasDomain(ds, rcpts[k].host);
    }
    OfDomainNone(rcpts, domain);
  }

  lemma CoversMore(ds: seq<Delivery>, rcpts: seq<Rcpt>, r: Rcpt, j: nat)
    requires Covers(ds, rcpts) && j <= |ds|
    requires j < |ds| ==> ds[j].domain == r.host
    ensures Covers(Given(ds, r, j), rcpts + [r])
  {
    var ds' := Given(ds, r, j);
    forall k | 0 <= k < |rcpts + [r]| ensures HasDomain(ds', (rcpts + [r])[k].host) {
      if k < |rcpts| {
        assert HasDomain(ds, rcpts[k].host);
        var i :| 0 <= i < |ds| && ds[i].domain == rcpts[k].host;
        assert ds'[i].domain == rcpts[k].host;
      } else {
        assert ds'[j].domain == r.host;
      }
    }
  }
}
