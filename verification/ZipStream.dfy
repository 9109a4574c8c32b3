/** The streaming ZIP writer (src/zip_stream.erl): a state machine that emits
    records and file data, and remembers what the central directory needs. */
module ZipStream {
  import opened Bytes
  import opened Collections
  import opened Crc32
  import opened ZipFormat

  /** offset, files and what the sink has received. */
  datatype Zip = Zip(offset: nat, files: map<Name, Info>, out: Data)

  const INIT := Zip(0, map[], [])

  datatype Cmd =
    | Header(name: Name, time: nat, date: nat)
    | Append(name: Name, data: Data)
    | Descriptor(name: Name)
    | Directory(order: seq<Name>)

  /** {data, Bytes} */
  function Emit(z: Zip, bytes: Data): Zip {
    z.(out := z.out + bytes, offset := z.offset + |bytes|)
  }

  /** An order in which maps:to_list may list the files. */
  predicate Enumerates(order: seq<Name>, files: map<Name, Info>) {
    && (forall n :: n in order ==> n in files) && (forall n :: n in files ==> n in order)
    && (forall i, j :: 0 <= i < j < |order| ==> order[i] != order[j])
  }

  function CentralBytes(order: seq<Name>, files: map<Name, Info>): Data
    requires forall n :: n in order ==> n in files
  {
    if order == [] then []
    else CentralDirectoryRecord(order[0], files[order[0]]) + CentralBytes(order[1..], files)
  }

  /** cmd/2; None where a name is not in the table. */
  function Do(c: Cmd, z: Zip): Option<Zip> {
    match c
    case Header(n, time, date) =>
      Some(Emit(z.(files := z.files[n := Info(0, 0, z.offset)]), LocalFileHeader(n, time, date)))
    case Append(n, data) =>
      if n !in z.files then None
      else
        var info := z.files[n];
        Some(Emit(z.(files := z.files[n := info.(crc := Crc(info.crc, data), size := info.size + |data|)]), data))
    case Descriptor(n) =>
      if n !in z.files then None else Some(Emit(z, DataDescriptor(z.files[n])))
    case Directory(order) =>
      if !Enumerates(order, z.files) then None
      else
        var z1 := Emit(z, CentralBytes(order, z.files));
        Some(Emit(z1, EndOfCentralDirectory(|order|, z.offset, z1.offset - z.offset)))
  }

  /** cmds/2 */
  function Run(cs: seq<Cmd>, z: Zip): Option<Zip> {
    if cs == [] then Some(z)
    else
      var before := Run(cs[..|cs| - 1], z);
      if before.None? then None else Do(cs[|cs| - 1], before.value)
  }

  // ---- Every run, legal or not ----

  lemma DoEmits(c: Cmd, z: Zip)
    requires Do(c, z).Some?
    ensures var z' := Do(c, z).value; z.out <= z'.out && z'.offset - z.offset == |z'.out| - |z.out|
  {
    hide LocalFileHeader, DataDescriptor, EndOfCentralDirectory, CentralBytes, Enumerates, Crc;
  }

  /** The offset always equals the bytes emitted, and nothing emitted is taken back. */
  lemma {:induction false} OffsetIsEmitted(cs: seq<Cmd>)
    ensures var z := Run(cs, INIT); z.Some? ==>
              && z.value.offset == |z.value.out|
              && forall k :: 0 <= k <= |cs| ==> Run(cs[..k], INIT).Some? && Run(cs[..k], INIT).value.out <= z.value.out
  {
    hide Do;
    if cs == [] || Run(cs, INIT).None? {
      assert cs[..0] == [];
    } else {
      var front := cs[..|cs| - 1];
      OffsetIsEmitted(front);
      assert cs[..|cs|] == cs;
      DoEmits(cs[|cs| - 1], Run(front, INIT).value);
      forall k | 0 <= k <= |cs|
        ensures Run(cs[..k], INIT).Some? && Run(cs[..k], INIT).value.out <= Run(cs, INIT).value.out
      {
        if k < |cs| { assert front[..k] == cs[..k]; }
      }
    }
  }

  /** What was appended to a name since its last header. */
  function Appended(cs: seq<Cmd>, n: Name): Option<Data> {
    if cs == [] then None
    else
      var before := Appended(cs[..|cs| - 1], n);
      match cs[|cs| - 1]
      case Header(m, _, _) => if m == n then Some([]) else before
      case Append(m, data) => if m == n && before.Some? then Some(before.value + data) else before
      case _ => before
  }

  lemma CrcEmpty()
    ensures Crc(0, []) == 0
  {
    hide Inverted;
    TwiceInverted(0);
  }

  ghost predicate InfoIs(info: Option<Info>, data: Option<Data>) {
    && (info.Some? <==> data.Some?)
    && (info.Some? ==> info.value.crc == Crc(0, data.value) && info.value.size == |data.value|)
  }

  /** Recorded size and checksum are those of the concatenated pieces, however
      the appends to different files are cut and interleaved. */
  lemma {:induction false} InfoIsOfAppended(cs: seq<Cmd>, n: Name)
    ensures Run(cs, INIT).Some? ==> InfoIs(Lookup(Run(cs, INIT).value.files, n), Appended(cs, n))
  {
    hide Crc, LocalFileHeader, DataDescriptor, EndOfCentralDirectory, CentralBytes, Enumerates;
    if cs != [] && Run(cs, INIT).Some? {
      var front, last := cs[..|cs| - 1], cs[|cs| - 1];
      InfoIsOfAppended(front, n);
      CrcEmpty();
      if last.Append? && Appended(front, n).Some? { CrcConcat(0, Appended(front, n).value, last.data); }
    }
  }

  // ---- Legal command sequences ----

  /** Which file is being written, and the files so far. */
  datatype Script = Script(open: Option<Name>, files: map<Name, File>)

  /** A new name is opened, appended to, and closed, before the next one. */
  function Advance(s: Script, c: Cmd): Option<Script> {
    match c
    case Header(n, time, date) =>
      if s.open.None? && n !in s.files then Some(Script(Some(n), s.files[n := File(time, date, [])])) else None
    case Append(n, data) =>
      if s.open == Some(n) && n in s.files
      then Some(s.(files := s.files[n := s.files[n].(data := s.files[n].data + data)])) else None
    case Descriptor(n) =>
      if s.open == Some(n) then Some(s.(open := None)) else None
    case Directory(_) => None
  }

  function Follow(cs: seq<Cmd>): Option<Script> {
    if cs == [] then Some(Script(None, map[]))
    else
      var before := Follow(cs[..|cs| - 1]);
      if before.None? then None else Advance(before.value, cs[|cs| - 1])
  }

  /** The file whose data is still growing sits at the end of the output. */
  ghost predicate Growing(out: Data, n: Name, f: File, offset: nat) {
    var written := LocalFileHeader(n, f.time, f.date) + f.data;
    Holds(out, offset, written) && offset + |written| == |out|
  }

  ghost predicate FileAgrees(out: Data, n: Name, info: Info, f: File, open: bool) {
    && info == InfoOf(f, info.offset)
    && if open then Growing(out, n, f, info.offset) else Holds(out, info.offset, LocalBytes(n, f, info.offset))
  }

  ghost predicate Agrees(z: Zip, s: Script) {
    && z.offset == |z.out| && z.files.Keys == s.files.Keys
    && (s.open.Some? ==> s.open.value in s.files)
    && forall n :: n in s.files ==> FileAgrees(z.out, n, z.files[n], s.files[n], s.open == Some(n))
  }

  lemma ClosedStays(out: Data, more: Data, n: Name, info: Info, f: File)
    requires FileAgrees(out, n, info, f, false)
    ensures FileAgrees(out + more, n, info, f, false)
  {
    hide LocalBytes;
    HoldsMore(out, info.offset, LocalBytes(n, f, info.offset), more);
  }

  lemma Opens(out: Data, n: Name, time: nat, date: nat)
    ensures FileAgrees(out + LocalFileHeader(n, time, date), n, Info(0, 0, |out|), File(time, date, []), true)
  {
    hide LocalFileHeader, Crc;
    CrcEmpty();
    var h := LocalFileHeader(n, time, date);
    assert h + [] == h;
    assert (out + h)[|out|..] == h;
  }

  lemma Grows(out: Data, data: Data, n: Name, info: Info, f: File)
    requires FileAgrees(out, n, info, f, true)
    ensures FileAgrees(out + data, n, info.(crc := Crc(info.crc, data), size := info.size + |data|),
            f.(data := f.data + data), true)
  {
    hide LocalFileHeader, Crc;
    CrcConcat(0, f.data, data);
    var h := LocalFileHeader(n, f.time, f.date);
    assert h + (f.data + data) == (h + f.data) + data;
    assert (out + data)[info.offset..] == out[info.offset..] + data;
  }

  lemma Closes(out: Data, n: Name, info: Info, f: File)
    requires FileAgrees(out, n, info, f, true)
    ensures FileAgrees(out + DataDescriptor(info), n, info, f, false)
  {
    hide LocalFileHeader, Crc, DataDescriptor;
    assert (out + DataDescriptor(info))[info.offset..] == out[info.offset..] + DataDescriptor(info);
  }

  /** Legal commands never fail, and keep every file where its entry says. */
  lemma StepAgrees(z: Zip, s: Script, c: Cmd)
    requires Agrees(z, s) && Advance(s, c).Some?
    ensures Do(c, z).Some? && Agrees(Do(c, z).value, Advance(s, c).value)
  {
    hide FileAgrees, LocalFileHeader, DataDescriptor, Crc;
    var z', s' := Do(c, z).value, Advance(s, c).value;
    var more := z'.out[|z.out|..];
    assert z'.out == z.out + more;
    forall n | n in s'.files ensures FileAgrees(z'.out, n, z'.files[n], s'.files[n], s'.open == Some(n)) {
      if n != c.name {
        ClosedStays(z.out, more, n, z.files[n], s.files[n]);
      } else {
        match c
        case Header(_, time, date) => Opens(z.out, n, time, date);
        case Append(_, data) => Grows(z.out, data, n, z.files[n], s.files[n]);
        case Descriptor(_) => Closes(z.out, n, z.files[n], s.files[n]);
      }
    }
  }

  lemma {:induction false} RunAgrees(cs: seq<Cmd>)
    requires Follow(cs).Some?
    ensures Run(cs, INIT).Some? && Agrees(Run(cs, INIT).value, Follow(cs).value)
  {
    hide Do, Advance;
    if cs == [] {
      assert Agrees(INIT, Script(None, map[]));
    } else {
      RunAgrees(cs[..|cs| - 1]);
      StepAgrees(Run(cs[..|cs| - 1], INIT).value, Follow(cs[..|cs| - 1]).value, cs[|cs| - 1]);
    }
  }

  // ---- Reading back ----

  /** The files in directory order. */
  function Members(order: seq<Name>, files: map<Name, File>): (r: seq<Member>)
    requires forall n :: n in order ==> n in files
    ensures |r| == |order| && forall i :: 0 <= i < |r| ==> r[i] == Member(order[i], files[order[i]].data)
  {
    if order == [] then [] else [Member(order[0], files[order[0]].data)] + Members(order[1..], files)
  }

  /** A file in place, within the field limits. */
  ghost predicate Readable(bytes: Data, n: Name, info: Info, f: File) {
    && FileAgrees(bytes, n, info, f, false)
    && |n| < U16 && info.size < U32 && info.offset < U32
  }

  lemma {:induction false} MembersRead(bytes: Data, pos: nat, order: seq<Name>, infos: map<Name, Info>,
                                       files: map<Name, File>)
    requires forall n :: n in order ==> n in infos && n in files && Readable(bytes, n, infos[n], files[n])
    requires Holds(bytes, pos, CentralBytes(order, infos))
    ensures ReadMembers(bytes, pos, |order|, pos + |CentralBytes(order, infos)|) == Some(Members(order, files))
    decreases |order|
  {
    hide CentralDirectoryRecord, ReadCentral, ReadLocal, LocalBytes, Crc, Holds;
    assert order == [] ==> CentralBytes(order, infos) == [];
    if order == [] {
    } else {
      var n, rest := order[0], order[1..];
      var info, f := infos[n], files[n];
      HoldsParts(bytes, pos, CentralDirectoryRecord(n, info), CentralBytes(rest, infos));
      CentralSize(n, info);
      CentralReads(bytes, pos, n, info);
      LocalReads(bytes, info.offset, n, f, pos + 46 + |n|);
      MembersRead(bytes, pos + 46 + |n|, rest, infos, files);
    }
  }

  /** An end record at the very end, without comment, is where reading starts. */
  lemma EndReads(bytes: Data, entries: nat, offset: nat, size: nat)
    requires |bytes| >= 22 && Holds(bytes, |bytes| - 22, EndOfCentralDirectory(entries, offset, size))
    requires entries < U16 && offset < U32 && size < U32 && offset + size == |bytes| - 22
    ensures ReadZip(bytes) == ReadMembers(bytes, offset, entries, |bytes| - 22)
  {
    hide Concat, Split, LE16, LE32, FromLE16, FromLE32, ReadMembers;
    SplitConcat(bytes, |bytes| - 22, EndFields(entries, offset, size), END_WIDTHS);
    Round16(entries);
    Round16(0);
    Round32(size);
    Round32(offset);
  }

  /** The 16- and 32-bit limits of the format. */
  ghost predicate WithinLimits(z: Zip, order: seq<Name>)
    requires Enumerates(order, z.files)
  {
    && |order| < U16 && z.offset < U32 && |CentralBytes(order, z.files)| < U32
    && forall n :: n in z.files ==> |n| < U16
  }

  /** The output once the directory has been added in the given order. */
  ghost function Archive(z: Zip, order: seq<Name>): Data
    requires Enumerates(order, z.files)
  {
    var cd := CentralBytes(order, z.files);
    z.out + cd + EndOfCentralDirectory(|order|, z.offset, |cd|)
  }

  /** A reader gets exactly the files with their contents, in directory order. */
  ghost predicate ReadsAs(bytes: Data, order: seq<Name>, files: map<Name, File>) {
    (forall n :: n in order ==> n in files) && ReadZip(bytes) == Some(Members(order, files))
  }

  /** After any legal command sequence, whatever the chunking of the data and the
      order of the directory, the archive is read back exactly. */
  lemma {:induction false} ReadBack(cs: seq<Cmd>, order: seq<Name>)
    requires Follow(cs).Some? && Follow(cs).value.open.None?
    requires Run(cs, INIT).Some? ==>
             Enumerates(order, Run(cs, INIT).value.files) && WithinLimits(Run(cs, INIT).value, order)
    ensures Run(cs + [Directory(order)], INIT).Some?
    ensures ReadsAs(Run(cs + [Directory(order)], INIT).value.out, order, Follow(cs).value.files)
  {
    hide ReadsAs, CentralBytes, EndOfCentralDirectory, Follow;
    RunAgrees(cs);
    assert (cs + [Directory(order)])[..|cs|] == cs;
    DirectoryReads(Run(cs, INIT).value, Follow(cs).value, order);
  }

  /** Directory and end record in place behind the files. */
  ghost predicate InPlace(bytes: Data, at: nat, cd: Data, eocd: Data) {
    |bytes| == at + |cd| + |eocd| && Holds(bytes, at, cd) && Holds(bytes, at + |cd|, eocd)
  }

  lemma AppendedInPlace(out: Data, cd: Data, eocd: Data)
    ensures InPlace(out + cd + eocd, |out|, cd, eocd) && out + cd + eocd == out + (cd + eocd)
  {
    var bytes := out + cd + eocd;
    assert bytes[|out|..|out| + |cd|] == cd && bytes[|out| + |cd|..] == eocd;
  }

  lemma {:induction false} PlacedReads(bytes: Data, z: Zip, order: seq<Name>, files: map<Name, File>, cd: Data,
                                       eocd: Data)
    requires Enumerates(order, z.files) && WithinLimits(z, order)
    requires cd == CentralBytes(order, z.files) && eocd == EndOfCentralDirectory(|order|, z.offset, |cd|)
    requires InPlace(bytes, z.offset, cd, eocd)
    requires forall n :: n in order ==> n in files && Readable(bytes, n, z.files[n], files[n])
    ensures ReadsAs(bytes, order, files)
  {
    hide ReadZip, ReadMembers, Members, CentralBytes, EndOfCentralDirectory, Readable, Holds;
    EndSize(|order|, z.offset, |cd|);
    EndReads(bytes, |order|, z.offset, |cd|);
    MembersRead(bytes, z.offset, order, z.files, files);
  }

  lemma {:induction false} DirectoryReads(z: Zip, s: Script, order: seq<Name>)
    requires Agrees(z, s) && s.open.None? && Enumerates(order, z.files) && WithinLimits(z, order)
    ensures ReadsAs(Archive(z, order), order, s.files)
  {
    hide ReadsAs, CentralBytes, EndOfCentralDirectory, Readable, FileAgrees, InPlace;
    var cd := CentralBytes(order, z.files);
    var eocd := EndOfCentralDirectory(|order|, z.offset, |cd|);
    AppendedInPlace(z.out, cd, eocd);
    var bytes := Archive(z, order);
    forall n | n in order ensures n in s.files && Readable(bytes, n, z.files[n], s.files[n]) {
      FileReadable(z.out, cd + eocd, n, z.files[n], s.files[n]);
    }
    PlacedReads(bytes, z, order, s.files, cd, eocd);
  }

  lemma FileReadable(out: Data, more: Data, n: Name, info: Info, f: File)
    requires FileAgrees(out, n, info, f, false) && |n| < U16 && |out| < U32
    ensures Readable(out + more, n, info, f)
  {
    hide LocalFileHeader, Crc, DataDescriptor;
    ClosedStays(out, more, n, info, f);
  }

  // ---- The writer as it runs ----

  /** {file, Info} */
  function FileCommands(name: Name, time: nat, date: nat, data: Data): seq<Cmd> {
    [Header(name, time, date), Append(name, data), Descriptor(name)]
  }

  /** The composite command adds one whole file to a legal sequence. */
  lemma FileIsLegal(cs: seq<Cmd>, name: Name, time: nat, date: nat, data: Data)
    requires Follow(cs).Some? && Follow(cs).value.open.None? && name !in Follow(cs).value.files
    ensures Follow(cs + FileCommands(name, time, date, data)) ==
            Some(Script(None, Follow(cs).value.files[name := File(time, date, data)]))
  {
    hide Follow;
    var c1, c2, c3 := Header(name, time, date), Append(name, data), Descriptor(name);
    FollowMore(cs, c1);
    FollowMore(cs + [c1], c2);
    FollowMore(cs + [c1] + [c2], c3);
    assert cs + FileCommands(name, time, date, data) == cs + [c1] + [c2] + [c3];
    var before := Follow(cs).value.files;
    assert [] + data == data;
    assert before[name := File(time, date, [])][name := File(time, date, data)] ==
      before[name := File(time, date, data)];
  }

  lemma FollowMore(cs: seq<Cmd>, c: Cmd)
    ensures Follow(cs + [c]) == if Follow(cs).None? then None else Advance(Follow(cs).value, c)
  {
    assert (cs + [c])[..|cs|] == cs;
  }

  lemma CentralStep(order: seq<Name>, i: nat, files: map<Name, Info>)
    requires i < |order| && forall n :: n in order ==> n in files
    ensures CentralBytes(order[i..], files) ==
            CentralDirectoryRecord(order[i], files[order[i]]) + CentralBytes(order[i + 1..], files)
  {
    hide CentralDirectoryRecord;
    assert order[i..][1..] == order[i + 1..];
  }

  lemma CentralEnd(order: seq<Name>, files: map<Name, Info>)
    requires forall n :: n in order ==> n in files
    ensures CentralBytes(order[|order|..], files) == []
  {
    assert order[|order|..] == [];
  }

  /** The state record and its sink. */
  class Writer {
    var offset: nat
    var files: map<Name, Info>
    var sink: Data

    ghost function State(): Zip
      reads this
    {
      Zip(offset, files, sink)
    }

    constructor ()
      ensures State() == INIT
    {
      offset, files, sink := 0, map[], [];
    }

    method Push(bytes: Data)
      modifies this`offset, this`sink
      ensures State() == Emit(old(State()), bytes)
    {
      sink := sink + bytes;
      offset := offset + |bytes|;
    }

    method StartFile(name: Name, time: nat, date: nat)
      modifies this
      ensures Some(State()) == Do(Header(name, time, date), old(State()))
    {
      files := files[name := Info(0, 0, offset)];
      Push(LocalFileHeader(name, time, date));
    }

    method AppendData(name: Name, data: Data) returns (ok: bool)
      modifies this
      ensures ok == Do(Append(name, data), old(State())).Some?
      ensures State() == if ok then Do(Append(name, data), old(State())).value else old(State())
    {
      if name !in files { return false; }
      var info := files[name];
      files := files[name := info.(crc := Crc(info.crc, data), size := info.size + |data|)];
      Push(data);
      ok := true;
    }

    method EndFile(name: Name) returns (ok: bool)
      modifies this`offset, this`sink
      ensures ok == Do(Descriptor(name), old(State())).Some?
      ensures State() == if ok then Do(Descriptor(name), old(State())).value else old(State())
    {
      if name !in files { return false; }
      Push(DataDescriptor(files[name]));
      ok := true;
    }

    /** One record for each file, then the end record. */
    method CentralDirectory(order: seq<Name>)
      requires Enumerates(order, files)
      modifies this`offset, this`sink
      ensures Some(State()) == Do(Directory(order), old(State()))
    {
      hide CentralDirectoryRecord, EndOfCentralDirectory, CentralBytes;
      var start := offset;
      var i := 0;
      assert order[0..] == order;
      ghost var whole := CentralBytes(order, files);
      while i < |order|
        invariant i <= |order|
        invariant sink + CentralBytes(order[i..], files) == old(sink) + whole
        invariant offset + |CentralBytes(order[i..], files)| == old(offset) + |whole|
      {
        CentralStep(order, i, files);
        var record := CentralDirectoryRecord(order[i], files[order[i]]);
        ghost var rest := CentralBytes(order[i + 1..], files);
        assert sink + (record + rest) == (sink + record) + rest;
        Push(record);
        i := i + 1;
      }
      CentralEnd(order, files);
      assert sink + [] == sink;
      Push(EndOfCentralDirectory(|order|, start, offset - start));
    }
  }
}
