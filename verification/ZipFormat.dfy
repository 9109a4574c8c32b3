/** ZIP records as src/zip_stream.erl builds them, and a reader that follows
    PKWARE's APPNOTE: end record, central directory, local headers (sections
    4.3.7, 4.3.9, 4.3.12 and 4.3.16). */
module ZipFormat {
  import opened Bytes
  import opened Collections
  import opened Crc32

  type Name = Data

  // ---- Records are rows of fields ----

  function Sum(widths: seq<nat>): nat {
    if widths == [] then 0 else widths[0] + Sum(widths[1..])
  }

  /** Cut fields of the given widths out of the bytes at a position. */
  function Split(bytes: Data, pos: nat, widths: seq<nat>): Option<seq<Data>>
    decreases |widths|
  {
    if widths == [] then Some([])
    else
      var f, rest := ReadAt(bytes, pos, widths[0]), Split(bytes, pos + widths[0], widths[1..]);
      if f.None? || rest.None? then None else Some([f.value] + rest.value)
  }

  predicate HasWidths(fs: seq<Data>, widths: seq<nat>) {
    |fs| == |widths| && forall i :: 0 <= i < |fs| ==> |fs[i]| == widths[i]
  }

  lemma {:induction false} SplitHasWidths(bytes: Data, pos: nat, widths: seq<nat>)
    ensures Split(bytes, pos, widths).Some? ==> HasWidths(Split(bytes, pos, widths).value, widths)
    decreases |widths|
  {
    if widths == [] {
    } else {
      SplitHasWidths(bytes, pos + widths[0], widths[1..]);
    }
  }

  /** Splitting a record by its widths gives its fields back. */
  lemma {:induction false} SplitConcat(bytes: Data, pos: nat, fs: seq<Data>, widths: seq<nat>)
    requires HasWidths(fs, widths) && Holds(bytes, pos, Concat(fs))
    ensures Split(bytes, pos, widths) == Some(fs)
    decreases |widths|
  {
    if fs == [] {
    } else {
      HoldsParts(bytes, pos, fs[0], Concat(fs[1..]));
      assert fs == [fs[0]] + fs[1..];
      SplitConcat(bytes, pos + widths[0], fs[1..], widths[1..]);
    }
  }

  lemma {:induction false} ConcatSize(fs: seq<Data>, widths: seq<nat>)
    requires HasWidths(fs, widths)
    ensures |Concat(fs)| == Sum(widths)
  {
    if fs == [] {
    } else {
      ConcatSize(fs[1..], widths[1..]);
    }
  }

  /** The bytes hold a record at a position. */
  ghost predicate Holds(bytes: Data, pos: nat, record: Data) {
    pos + |record| <= |bytes| && bytes[pos..pos + |record|] == record
  }

  lemma HoldsParts(bytes: Data, pos: nat, a: Data, b: Data)
    requires Holds(bytes, pos, a + b)
    ensures Holds(bytes, pos, a) && Holds(bytes, pos + |a|, b)
  {
    var end := pos + |a + b|;
    SliceSlice(bytes, pos, end, 0, |a|);
    SliceSlice(bytes, pos, end, |a|, |a + b|);
    assert (a + b)[0..|a|] == a && (a + b)[|a|..|a + b|] == b;
  }

  lemma HoldsMore(bytes: Data, pos: nat, record: Data, more: Data)
    requires Holds(bytes, pos, record)
    ensures Holds(bytes + more, pos, record)
  {
    assert (bytes + more)[pos..pos + |record|] == bytes[pos..pos + |record|];
  }

  // ---- The four record builders ----

  const LOCAL_SIG: Data := [0x50, 0x4b, 0x03, 0x04]
  const CENTRAL_SIG: Data := [0x50, 0x4b, 0x01, 0x02]
  const END_SIG: Data := [0x50, 0x4b, 0x05, 0x06]
  const DESCRIPTOR_SIG: Data := [0x50, 0x4b, 0x07, 0x08]

  const LOCAL_WIDTHS: seq<nat> := [4, 2, 2, 2, 2, 2, 4, 4, 4, 2, 2]
  const CENTRAL_WIDTHS: seq<nat> := [4, 2, 2, 2, 2, 2, 2, 4, 4, 4, 2, 2, 2, 2, 2, 4, 4]
  const END_WIDTHS: seq<nat> := [4, 2, 2, 2, 2, 4, 4, 2]
  const DESCRIPTOR_WIDTHS: seq<nat> := [4, 4, 4, 4]

  /** What the writer remembers of a file. */
  datatype Info = Info(crc: bv32, size: nat, offset: nat)

  function LocalFields(name: Name, time: nat, date: nat): (fs: seq<Data>)
    ensures HasWidths(fs, LOCAL_WIDTHS)
  {
    [LOCAL_SIG, LE16(20), LE16(8), LE16(0), LE16(time), LE16(date), LE32(0), LE32(0), LE32(0), LE16(|name|), LE16(0)]
  }

  function LocalFileHeader(name: Name, time: nat, date: nat): Data {
    Concat(LocalFields(name, time, date)) + name
  }

  function CentralFields(name: Name, info: Info): (fs: seq<Data>)
    ensures HasWidths(fs, CENTRAL_WIDTHS)
  {
    [CENTRAL_SIG, LE16(20), LE16(20), LE16(8), LE16(0), LE16(0), LE16(0),
     LE32(Number(info.crc)), LE32(info.size), LE32(info.size),
     LE16(|name|), LE16(0), LE16(0), LE16(0), LE16(0), LE32(0), LE32(info.offset)]
  }

  function CentralDirectoryRecord(name: Name, info: Info): Data {
    Concat(CentralFields(name, info)) + name
  }

  function EndFields(entries: nat, offset: nat, size: nat): (fs: seq<Data>)
    ensures HasWidths(fs, END_WIDTHS)
  {
    [END_SIG, LE16(0), LE16(0), LE16(entries), LE16(entries), LE32(size), LE32(offset), LE16(0)]
  }

  function EndOfCentralDirectory(entries: nat, offset: nat, size: nat): Data {
    Concat(EndFields(entries, offset, size))
  }

  function DescriptorFields(info: Info): (fs: seq<Data>)
    ensures HasWidths(fs, DESCRIPTOR_WIDTHS)
  {
    [DESCRIPTOR_SIG, LE32(Number(info.crc)), LE32(info.size), LE32(info.size)]
  }

  function DataDescriptor(info: Info): Data {
    Concat(DescriptorFields(info))
  }

  // ---- A reader ----

  /** A central directory entry (section 4.3.12), and where the next one starts. */
  datatype Central = Central(name: Name, crc: nat, size: nat, offset: nat, next: nat)

  predicate Stored(flags: Data, compression: Data)
    requires |flags| == |compression| == 2
  {
    flags == LE16(8) && compression == LE16(0)
  }

  function ReadCentral(bytes: Data, pos: nat): Option<Central> {
    SplitHasWidths(bytes, pos, CENTRAL_WIDTHS);
    var fs := Split(bytes, pos, CENTRAL_WIDTHS);
    if fs.None? || fs.value[0] != CENTRAL_SIG || !Stored(fs.value[3], fs.value[4]) || fs.value[8] != fs.value[9]
    then None
    else
      var n := FromLE16(fs.value[10]);
      var name := ReadAt(bytes, pos + 46, n);
      if name.None? then None
      else
        Some(Central(name.value, FromLE32(fs.value[7]), FromLE32(fs.value[8]), FromLE32(fs.value[16]),
                     pos + 46 + n + FromLE16(fs.value[11]) + FromLE16(fs.value[12])))
  }

  /** Section 4.3.9: sizes and checksum again, after the data. */
  predicate DescriptorMatches(bytes: Data, pos: nat, c: Central) {
    SplitHasWidths(bytes, pos, DESCRIPTOR_WIDTHS);
    var fs := Split(bytes, pos, DESCRIPTOR_WIDTHS);
    fs.Some? && fs.value[0] == DESCRIPTOR_SIG && FromLE32(fs.value[1]) == c.crc
    && FromLE32(fs.value[2]) == FromLE32(fs.value[3]) == c.size
  }

  /** Follow an entry to its local header (section 4.3.7): same name, then the
      data with the recorded size and checksum, then the descriptor. */
  function ReadLocal(bytes: Data, c: Central): Option<Data> {
    SplitHasWidths(bytes, c.offset, LOCAL_WIDTHS);
    var fs := Split(bytes, c.offset, LOCAL_WIDTHS);
    if fs.None? || fs.value[0] != LOCAL_SIG || !Stored(fs.value[2], fs.value[3]) then None
    else
      var n := FromLE16(fs.value[9]);
      var start := c.offset + 30 + n + FromLE16(fs.value[10]);
      var data := ReadAt(bytes, start, c.size);
      if ReadAt(bytes, c.offset + 30, n) != Some(c.name) || data.None? then None
      else if Number(Crc(0, data.value)) != c.crc || !DescriptorMatches(bytes, start + c.size, c) then None
      else data
  }

  datatype Member = Member(name: Name, data: Data)

  /** Walk n central directory entries, which must end exactly at the given position. */
  function ReadMembers(bytes: Data, pos: nat, n: nat, end: nat): Option<seq<Member>>
    decreases n
  {
    if n == 0 then (if pos == end then Some([]) else None)
    else
      var c := ReadCentral(bytes, pos);
      if c.None? then None
      else
        var data, rest := ReadLocal(bytes, c.value), ReadMembers(bytes, c.value.next, n - 1, end);
        if data.None? || rest.None? then None else Some([Member(c.value.name, data.value)] + rest.value)
  }

  /** Search backwards for an end record whose comment runs to the end of the file. */
  function FindEnd(bytes: Data, pos: nat): Option<nat> {
    SplitHasWidths(bytes, pos, END_WIDTHS);
    var fs := Split(bytes, pos, END_WIDTHS);
    if fs.Some? && fs.value[0] == END_SIG && pos + 22 + FromLE16(fs.value[7]) == |bytes| then Some(pos)
    else if pos == 0 then None
    else FindEnd(bytes, pos - 1)
  }

  /** Read an archive from its end record (section 4.3.16). */
  function ReadZip(bytes: Data): Option<seq<Member>> {
    var end := if |bytes| < 22 then None else FindEnd(bytes, |bytes| - 22);
    if end.None? then None
    else
      SplitHasWidths(bytes, end.value, END_WIDTHS);
      var fs := Split(bytes, end.value, END_WIDTHS);
      if fs.None? || fs.value[1] != LE16(0) || fs.value[2] != LE16(0) || fs.value[3] != fs.value[4] then None
      else
        var size, offset := FromLE32(fs.value[5]), FromLE32(fs.value[6]);
        if offset + size != end.value then None
        else ReadMembers(bytes, offset, FromLE16(fs.value[4]), end.value)
  }

  // ---- Each record is read back ----

  /** A file of the archive as its commands describe it. */
  datatype File = File(time: nat, date: nat, data: Data)

  function InfoOf(f: File, offset: nat): Info {
    Info(Crc(0, f.data), |f.data|, offset)
  }

  /** A file in the archive: header, data, descriptor. */
  function LocalBytes(name: Name, f: File, offset: nat): Data {
    LocalFileHeader(name, f.time, f.date) + f.data + DataDescriptor(InfoOf(f, offset))
  }

  lemma WidthSums()
    ensures Sum(LOCAL_WIDTHS) == 30 && Sum(CENTRAL_WIDTHS) == 46 && Sum(END_WIDTHS) == 22
  {
    assert CENTRAL_WIDTHS[8..] == [4, 4, 2, 2, 2, 2, 2, 4, 4];
    assert Sum([4, 4, 2, 2, 2, 2, 2, 4, 4]) == 26;
  }

  lemma LocalSize(name: Name, time: nat, date: nat)
    ensures |LocalFileHeader(name, time, date)| == 30 + |name|
  {
    hide Concat, Sum, LocalFields, HasWidths;
    ConcatSize(LocalFields(name, time, date), LOCAL_WIDTHS);
    WidthSums();
  }

  lemma CentralSize(name: Name, info: Info)
    ensures |CentralDirectoryRecord(name, info)| == 46 + |name|
  {
    hide Concat, Sum, CentralFields, HasWidths;
    ConcatSize(CentralFields(name, info), CENTRAL_WIDTHS);
    WidthSums();
  }

  lemma EndSize(entries: nat, offset: nat, size: nat)
    ensures |EndOfCentralDirectory(entries, offset, size)| == 22
  {
    hide Concat, Sum, EndFields, HasWidths;
    ConcatSize(EndFields(entries, offset, size), END_WIDTHS);
    WidthSums();
  }

  /** What a central record within the field limits says of a file. */
  function CentralOf(name: Name, info: Info, next: nat): Central {
    Central(name, Number(info.crc), info.size, info.offset, next)
  }

  lemma CentralParsed(bytes: Data, pos: nat, fs: seq<Data>, name: Name, info: Info)
    requires Split(bytes, pos, CENTRAL_WIDTHS) == Some(fs) && HasWidths(fs, CENTRAL_WIDTHS)
    requires fs[0] == CENTRAL_SIG && Stored(fs[3], fs[4]) && fs[8] == fs[9]
    requires FromLE32(fs[7]) == Number(info.crc) && FromLE32(fs[8]) == info.size && FromLE32(fs[16]) == info.offset
    requires FromLE16(fs[10]) == |name| && FromLE16(fs[11]) == FromLE16(fs[12]) == 0
    requires Holds(bytes, pos + 46, name)
    ensures ReadCentral(bytes, pos) == Some(CentralOf(name, info, pos + 46 + |name|))
  {
    hide Split, Stored, FromLE16, FromLE32, Number;
  }

  lemma CentralReads(bytes: Data, pos: nat, name: Name, info: Info)
    requires Holds(bytes, pos, CentralDirectoryRecord(name, info))
    requires |name| < U16 && info.size < U32 && info.offset < U32
    ensures ReadCentral(bytes, pos) == Some(CentralOf(name, info, pos + 46 + |name|))
  {
    hide Concat, Split, LE16, LE32, FromLE16, FromLE32, Number, ReadCentral, Holds;
    var fs := CentralFields(name, info);
    CentralSize(name, info);
    HoldsParts(bytes, pos, Concat(fs), name);
    SplitConcat(bytes, pos, fs, CENTRAL_WIDTHS);
    Round32(Number(info.crc));
    Round32(info.size);
    Round32(info.offset);
    Round16(|name|);
    Round16(0);
    CentralParsed(bytes, pos, fs, name, info);
  }

  lemma DescriptorReads(bytes: Data, pos: nat, name: Name, info: Info, next: nat)
    requires Holds(bytes, pos, DataDescriptor(info)) && info.size < U32
    ensures DescriptorMatches(bytes, pos, CentralOf(name, info, next))
  {
    hide Concat, Split, LE32, FromLE32, Number;
    SplitConcat(bytes, pos, DescriptorFields(info), DESCRIPTOR_WIDTHS);
    Round32(Number(info.crc));
    Round32(info.size);
  }

  lemma LocalReads(bytes: Data, offset: nat, name: Name, f: File, next: nat)
    requires Holds(bytes, offset, LocalBytes(name, f, offset)) && |name| < U16 && |f.data| < U32
    ensures ReadLocal(bytes, CentralOf(name, InfoOf(f, offset), next)) == Some(f.data)
  {
    hide Concat, Split, LE16, LE32, FromLE16, FromLE32, Number, Crc, DataDescriptor, DescriptorMatches;
    var fs, header, info := LocalFields(name, f.time, f.date), LocalFileHeader(name, f.time, f.date), InfoOf(f, offset);
    LocalSize(name, f.time, f.date);
    HoldsParts(bytes, offset, header + f.data, DataDescriptor(info));
    HoldsParts(bytes, offset, header, f.data);
    HoldsParts(bytes, offset, Concat(fs), name);
    SplitConcat(bytes, offset, fs, LOCAL_WIDTHS);
    Round16(|name|);
    Round16(0);
    DescriptorReads(bytes, offset + 30 + |name| + |f.data|, name, info, next);
  }
}
