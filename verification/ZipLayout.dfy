/** Where each field of the ZIP records lies, byte by byte, as sections 4.3.7, 4.3.9,
    4.3.12 and 4.3.16 of PKWARE's APPNOTE number them (src/zip_stream.erl). */
module ZipLayout {
  import opened Bytes
  import opened Crc32
  import opened ZipFormat

  lemma WholeHolds(a: Data, b: Data)
    ensures Holds(a + b, 0, a) && Holds(a + b, |a|, b)
  {
    assert (a + b)[0..|a|] == a && (a + b)[|a|..|a| + |b|] == b;
  }

  /** Field i begins where the fields before it end. */
  lemma {:induction false} FieldAt(b: Data, pos: nat, fs: seq<Data>, widths: seq<nat>, i: nat)
    requires Holds(b, pos, Concat(fs)) && HasWidths(fs, widths) && i < |fs|
    ensures Holds(b, pos + Sum(widths[..i]), fs[i])
    decreases |fs|
  {
    HoldsParts(b, pos, fs[0], Concat(fs[1..]));
    if i == 0 {
      assert widths[..0] == [];
    } else {
      FieldAt(b, pos + |fs[0]|, fs[1..], widths[1..], i - 1);
      assert widths[..i][1..] == widths[1..][..i - 1];
    }
  }

  lemma {:induction false} Starts(widths: seq<nat>, i: nat)
    requires i < |widths|
    ensures Sum(widths[..i + 1]) == Sum(widths[..i]) + widths[i]
    ensures i == 0 ==> Sum(widths[..i]) == 0
    decreases |widths|
  {
    if i == 0 {
      assert widths[..0] == [] && widths[..1][1..] == [];
    } else {
      Starts(widths[1..], i - 1);
      assert widths[..i + 1][1..] == widths[1..][..i] && widths[..i][1..] == widths[1..][..i - 1];
    }
  }

  lemma DescriptorSum()
    ensures Sum(DESCRIPTOR_WIDTHS) == 16
  {
  }

  lemma Small()
    ensures LE16(20) == [20, 0] && LE16(8) == [8, 0] && LE16(0) == [0, 0] && LE32(0) == [0, 0, 0, 0]
  {
  }

  lemma LocalStarts()
    ensures var s := LOCAL_WIDTHS;
            && Sum(s[..0]) == 0 && Sum(s[..1]) == 4 && Sum(s[..2]) == 6 && Sum(s[..3]) == 8 && Sum(s[..4]) == 10
            && Sum(s[..5]) == 12 && Sum(s[..6]) == 14 && Sum(s[..7]) == 18 && Sum(s[..8]) == 22 && Sum(s[..9]) == 26
            && Sum(s[..10]) == 28
  {
    hide Sum;
    Starts(LOCAL_WIDTHS, 0);
    Starts(LOCAL_WIDTHS, 1);
    Starts(LOCAL_WIDTHS, 2);
    Starts(LOCAL_WIDTHS, 3);
    Starts(LOCAL_WIDTHS, 4);
    Starts(LOCAL_WIDTHS, 5);
    Starts(LOCAL_WIDTHS, 6);
    Starts(LOCAL_WIDTHS, 7);
    Starts(LOCAL_WIDTHS, 8);
    Starts(LOCAL_WIDTHS, 9);
  }

  /** Section 4.3.7: version 2.0, a descriptor after the data, no compression, time before date, no
      sizes yet. */
  function LocalRows(name: Name, time: nat, date: nat): seq<(nat, Data)> {
    [(0, [0x50, 0x4B, 3, 4]), (4, [20, 0]), (6, [8, 0]), (8, [0, 0]), (10, LE16(time)), (12, LE16(date)),
     (14, [0, 0, 0, 0]), (18, [0, 0, 0, 0]), (22, [0, 0, 0, 0]), (26, LE16(|name|)), (28, [0, 0])]
  }

  lemma LocalRowsAre(name: Name, time: nat, date: nat)
    ensures var rows, fs := LocalRows(name, time, date), LocalFields(name, time, date);
            && |rows| == |fs|
            && forall i :: 0 <= i < |rows| ==> rows[i].0 == Sum(LOCAL_WIDTHS[..i]) && rows[i].1 == fs[i]
  {
    Small();
    LocalStarts();
    hide Sum, LE16, LE32, Number;
  }

  lemma LocalLayout(name: Name, time: nat, date: nat)
    ensures var b, rows := LocalFileHeader(name, time, date), LocalRows(name, time, date);
            && (forall i :: 0 <= i < |rows| ==> Holds(b, rows[i].0, rows[i].1))
            && Holds(b, 30, name) && |b| == 30 + |name|
  {
    hide Holds, Concat, Sum, LE16, LE32, Number, LocalFields, LocalRows;
    var fs, b := LocalFields(name, time, date), LocalFileHeader(name, time, date);
    LocalRowsAre(name, time, date);
    LocalSize(name, time, date);
    WholeHolds(Concat(fs), name);
    ConcatSize(fs, LOCAL_WIDTHS);
    WidthSums();
    forall i | 0 <= i < |fs| ensures Holds(b, Sum(LOCAL_WIDTHS[..i]), fs[i]) { FieldAt(b, 0, fs, LOCAL_WIDTHS, i); }
  }

  lemma CentralStarts()
    ensures var s := CENTRAL_WIDTHS;
            && Sum(s[..0]) == 0 && Sum(s[..1]) == 4 && Sum(s[..2]) == 6 && Sum(s[..3]) == 8 && Sum(s[..4]) == 10
            && Sum(s[..5]) == 12 && Sum(s[..6]) == 14 && Sum(s[..7]) == 16 && Sum(s[..8]) == 20 && Sum(s[..9]) == 24
            && Sum(s[..10]) == 28 && Sum(s[..11]) == 30 && Sum(s[..12]) == 32 && Sum(s[..13]) == 34
            && Sum(s[..14]) == 36 && Sum(s[..15]) == 38 && Sum(s[..16]) == 42
  {
    hide Sum;
    Starts(CENTRAL_WIDTHS, 0);
    Starts(CENTRAL_WIDTHS, 1);
    Starts(CENTRAL_WIDTHS, 2);
    Starts(CENTRAL_WIDTHS, 3);
    Starts(CENTRAL_WIDTHS, 4);
    Starts(CENTRAL_WIDTHS, 5);
    Starts(CENTRAL_WIDTHS, 6);
    Starts(CENTRAL_WIDTHS, 7);
    Starts(CENTRAL_WIDTHS, 8);
    Starts(CENTRAL_WIDTHS, 9);
    Starts(CENTRAL_WIDTHS, 10);
    Starts(CENTRAL_WIDTHS, 11);
    Starts(CENTRAL_WIDTHS, 12);
    Starts(CENTRAL_WIDTHS, 13);
    Starts(CENTRAL_WIDTHS, 14);
    Starts(CENTRAL_WIDTHS, 15);
  }

  /** Section 4.3.12: checksum, both sizes, length of the name, offset of the local header, name. */
  function CentralRows(name: Name, info: Info): seq<(nat, Data)> {
    [(0, [0x50, 0x4B, 1, 2]), (4, [20, 0]), (6, [20, 0]), (8, [8, 0]), (10, [0, 0]), (12, [0, 0]), (14, [0, 0]),
     (16, LE32(Number(info.crc))), (20, LE32(info.size)), (24, LE32(info.size)), (28, LE16(|name|)), (30, [0, 0]),
     (32, [0, 0]), (34, [0, 0]), (36, [0, 0]), (38, [0, 0, 0, 0]), (42, LE32(info.offset))]
  }

  lemma CentralRowsAre(name: Name, info: Info)
    ensures var rows, fs := CentralRows(name, info), CentralFields(name, info);
            && |rows| == |fs|
            && forall i :: 0 <= i < |rows| ==> rows[i].0 == Sum(CENTRAL_WIDTHS[..i]) && rows[i].1 == fs[i]
  {
    Small();
    CentralStarts();
    hide Sum, LE16, LE32, Number;
  }

  lemma CentralLayout(name: Name, info: Info)
    ensures var b, rows := CentralDirectoryRecord(name, info), CentralRows(name, info);
            && (forall i :: 0 <= i < |rows| ==> Holds(b, rows[i].0, rows[i].1))
            && Holds(b, 46, name) && |b| == 46 + |name|
  {
    hide Holds, Concat, Sum, LE16, LE32, Number, CentralFields, CentralRows;
    var fs, b := CentralFields(name, info), CentralDirectoryRecord(name, info);
    CentralRowsAre(name, info);
    CentralSize(name, info);
    WholeHolds(Concat(fs), name);
    ConcatSize(fs, CENTRAL_WIDTHS);
    WidthSums();
    forall i | 0 <= i < |fs| ensures Holds(b, Sum(CENTRAL_WIDTHS[..i]), fs[i]) { FieldAt(b, 0, fs, CENTRAL_WIDTHS, i); }
  }

  lemma EndStarts()
    ensures var s := END_WIDTHS;
            && Sum(s[..0]) == 0 && Sum(s[..1]) == 4 && Sum(s[..2]) == 6 && Sum(s[..3]) == 8 && Sum(s[..4]) == 10
            && Sum(s[..5]) == 12 && Sum(s[..6]) == 16 && Sum(s[..7]) == 20
  {
    hide Sum;
    Starts(END_WIDTHS, 0);
    Starts(END_WIDTHS, 1);
    Starts(END_WIDTHS, 2);
    Starts(END_WIDTHS, 3);
    Starts(END_WIDTHS, 4);
    Starts(END_WIDTHS, 5);
    Starts(END_WIDTHS, 6);
  }

  /** Section 4.3.16: number of entries twice, size of the directory before its offset, no comment. */
  function EndRows(entries: nat, offset: nat, size: nat): seq<(nat, Data)> {
    [(0, [0x50, 0x4B, 5, 6]), (4, [0, 0]), (6, [0, 0]), (8, LE16(entries)), (10, LE16(entries)), (12, LE32(size)),
     (16, LE32(offset)), (20, [0, 0])]
  }

  lemma EndRowsAre(entries: nat, offset: nat, size: nat)
    ensures var rows, fs := EndRows(entries, offset, size), EndFields(entries, offset, size);
            && |rows| == |fs|
            && forall i :: 0 <= i < |rows| ==> rows[i].0 == Sum(END_WIDTHS[..i]) && rows[i].1 == fs[i]
  {
    Small();
    EndStarts();
    hide Sum, LE16, LE32, Number;
  }

  lemma EndLayout(entries: nat, offset: nat, size: nat)
    ensures var b, rows := EndOfCentralDirectory(entries, offset, size), EndRows(entries, offset, size);
            && (forall i :: 0 <= i < |rows| ==> Holds(b, rows[i].0, rows[i].1))
            && |b| == 22
  {
    hide Holds, Concat, Sum, LE16, LE32, Number, EndFields, EndRows;
    var fs, b := EndFields(entries, offset, size), EndOfCentralDirectory(entries, offset, size);
    EndRowsAre(entries, offset, size);
    EndSize(entries, offset, size);
    WholeHolds(Concat(fs), []);
    assert b + [] == b;
    forall i | 0 <= i < |fs| ensures Holds(b, Sum(END_WIDTHS[..i]), fs[i]) { FieldAt(b, 0, fs, END_WIDTHS, i); }
  }

  lemma DescriptorStarts()
    ensures var s := DESCRIPTOR_WIDTHS;
            && Sum(s[..0]) == 0 && Sum(s[..1]) == 4 && Sum(s[..2]) == 8 && Sum(s[..3]) == 12
  {
    hide Sum;
    Starts(DESCRIPTOR_WIDTHS, 0);
    Starts(DESCRIPTOR_WIDTHS, 1);
    Starts(DESCRIPTOR_WIDTHS, 2);
  }

  /** Section 4.3.9: checksum and both sizes. */
  function DescriptorRows(info: Info): seq<(nat, Data)> {
    [(0, [0x50, 0x4B, 7, 8]), (4, LE32(Number(info.crc))), (8, LE32(info.size)), (12, LE32(info.size))]
  }

  lemma DescriptorRowsAre(info: Info)
    ensures var rows, fs := DescriptorRows(info), DescriptorFields(info);
            && |rows| == |fs|
            && forall i :: 0 <= i < |rows| ==> rows[i].0 == Sum(DESCRIPTOR_WIDTHS[..i]) && rows[i].1 == fs[i]
  {
    Small();
    DescriptorStarts();
    hide Sum, LE16, LE32, Number;
  }

  lemma DescriptorLayout(info: Info)
    ensures var b, rows := DataDescriptor(info), DescriptorRows(info);
            && (forall i :: 0 <= i < |rows| ==> Holds(b, rows[i].0, rows[i].1))
            && |b| == 16
  {
    hide Holds, Concat, Sum, LE16, LE32, Number, DescriptorFields, DescriptorRows;
    var fs, b := DescriptorFields(info), DataDescriptor(info);
    DescriptorRowsAre(info);
    ConcatSize(fs, DESCRIPTOR_WIDTHS);
    DescriptorSum();
    WholeHolds(Concat(fs), []);
    assert b + [] == b;
    forall i | 0 <= i < |fs| ensures Holds(b, Sum(DESCRIPTOR_WIDTHS[..i]), fs[i]) {
      FieldAt(b, 0, fs, DESCRIPTOR_WIDTHS, i);
    }
  }
}
