/** Whole archives: the files that a list of composite commands writes are the files
    that a reader gets (src/zip_stream.erl). */
module ZipArchive {
  import opened Bytes
  import opened Collections
  import opened Crc32
  import opened ZipFormat
  import opened ZipLayout
  import opened ZipStream

  datatype Entry = Entry(name: Name, time: nat, date: nat, data: Data)

  /** {file, Info} for each entry. */
  function Commands(es: seq<Entry>): seq<Cmd> {
    if es == [] then []
    else
      var e := es[|es| - 1];
      Commands(es[..|es| - 1]) + FileCommands(e.name, e.time, e.date, e.data)
  }

  function Names(es: seq<Entry>): (r: seq<Name>)
    ensures |r| == |es| && forall i :: 0 <= i < |es| ==> r[i] == es[i].name
  {
    if es == [] then [] else Names(es[..|es| - 1]) + [es[|es| - 1].name]
  }

  function FilesOf(es: seq<Entry>): map<Name, File> {
    if es == [] then map[]
    else
      var e := es[|es| - 1];
      FilesOf(es[..|es| - 1])[e.name := File(e.time, e.date, e.data)]
  }

  predicate DistinctNames(es: seq<Entry>) {
    forall i, j :: 0 <= i < j < |es| ==> es[i].name != es[j].name
  }

  /** A file takes its data and its name, 30 bytes of header and 16 of descriptor. */
  function FileSpace(es: seq<Entry>): nat {
    if es == [] then 0
    else FileSpace(es[..|es| - 1]) + 46 + |es[|es| - 1].name| + |es[|es| - 1].data|
  }

  /** And its name and 46 bytes in the directory. */
  function DirectorySpace(es: seq<Entry>): nat {
    if es == [] then 0 else DirectorySpace(es[1..]) + 46 + |es[0].name|
  }

  lemma {:induction false} FilesHave(es: seq<Entry>, n: Name)
    requires DistinctNames(es)
    ensures n in FilesOf(es) <==> n in Names(es)
    ensures forall i :: 0 <= i < |es| && es[i].name == n ==> FilesOf(es)[n] == File(es[i].time, es[i].date, es[i].data)
  {
    if es != [] {
      FilesHave(es[..|es| - 1], n);
      forall i | 0 <= i < |es| ensures es[i].name in Names(es) { assert Names(es)[i] == es[i].name; }
    }
  }

  lemma {:induction false} CommandsAreLegal(es: seq<Entry>)
    requires DistinctNames(es)
    ensures Follow(Commands(es)) == Some(Script(None, FilesOf(es)))
  {
    if es == [] {
    } else {
      var front, e := es[..|es| - 1], es[|es| - 1];
      CommandsAreLegal(front);
      FilesHave(front, e.name);
      FileIsLegal(Commands(front), e.name, e.time, e.date, e.data);
    }
  }

  lemma RunMore(cs: seq<Cmd>, c: Cmd)
    ensures Run(cs + [c], INIT) == if Run(cs, INIT).None? then None else Do(c, Run(cs, INIT).value)
  {
    assert (cs + [c])[..|cs|] == cs;
  }

  /** One composite command, when it does not fail. */
  lemma FileTakes(cs: seq<Cmd>, e: Entry)
    requires Run(cs + FileCommands(e.name, e.time, e.date, e.data), INIT).Some?
    ensures Run(cs, INIT).Some?
    ensures Run(cs + FileCommands(e.name, e.time, e.date, e.data), INIT).value.offset ==
            Run(cs, INIT).value.offset + 46 + |e.name| + |e.data|
  {
    var c1, c2, c3 := Header(e.name, e.time, e.date), Append(e.name, e.data), Descriptor(e.name);
    assert cs + FileCommands(e.name, e.time, e.date, e.data) == cs + [c1] + [c2] + [c3];
    RunMore(cs, c1);
    RunMore(cs + [c1], c2);
    RunMore(cs + [c1] + [c2], c3);
    hide Run, LocalFileHeader, DataDescriptor, Crc;
    LocalSize(e.name, e.time, e.date);
    DescriptorLayout(Run(cs + [c1] + [c2], INIT).value.files[e.name]);
  }

  lemma {:induction false} CommandsTake(es: seq<Entry>)
    requires Run(Commands(es), INIT).Some?
    ensures Run(Commands(es), INIT).value.offset == FileSpace(es)
  {
    if es == [] {
    } else {
      var front, e := es[..|es| - 1], es[|es| - 1];
      FileTakes(Commands(front), e);
      CommandsTake(front);
    }
  }

  lemma {:induction false} DirectoryTakes(es: seq<Entry>, infos: map<Name, Info>)
    requires forall n :: n in Names(es) ==> n in infos
    ensures |CentralBytes(Names(es), infos)| == DirectorySpace(es)
  {
    if es == [] {
    } else {
      assert Names(es)[1..] == Names(es[1..]);
      assert Names(es)[0] in Names(es);
      CentralSize(es[0].name, infos[es[0].name]);
      DirectoryTakes(es[1..], infos);
    }
  }

  lemma NamesEnumerate(es: seq<Entry>, infos: map<Name, Info>)
    requires DistinctNames(es) && infos.Keys == FilesOf(es).Keys
    ensures Enumerates(Names(es), infos)
  {
    hide FilesOf, Names;
    forall n ensures n in infos <==> n in Names(es) { FilesHave(es, n); }
  }

  /** The entries as a reader gives them. */
  function AsMembers(es: seq<Entry>): seq<Member> {
    seq(|es|, i requires 0 <= i < |es| => Member(es[i].name, es[i].data))
  }

  lemma MembersAreEntries(es: seq<Entry>)
    requires DistinctNames(es) && forall n :: n in Names(es) ==> n in FilesOf(es)
    ensures Members(Names(es), FilesOf(es)) == AsMembers(es)
  {
    hide FilesOf, Names;
    forall i | 0 <= i < |es| ensures Members(Names(es), FilesOf(es))[i] == AsMembers(es)[i] {
      assert Names(es)[i] == es[i].name && Names(es)[i] in Names(es);
      FilesHave(es, es[i].name);
    }
  }

  /** The archive of any entries with distinct names that fit the limits of the format is
      written without failure, and read back as those entries in that order. */
  lemma {:induction false} ArchiveReads(es: seq<Entry>)
    requires DistinctNames(es) && |es| < U16 && forall i :: 0 <= i < |es| ==> |es[i].name| < U16
    requires FileSpace(es) < U32 && DirectorySpace(es) < U32
    ensures var z := Run(Commands(es) + [Directory(Names(es))], INIT);
            z.Some? && ReadZip(z.value.out) == Some(AsMembers(es))
  {
    hide Run, Follow, Commands, FilesOf, FileAgrees, CentralBytes, ReadZip, FileSpace, DirectorySpace, Enumerates;
    hide AsMembers;
    var cs, order := Commands(es), Names(es);
    CommandsAreLegal(es);
    RunAgrees(cs);
    var z := Run(cs, INIT).value;
    NamesEnumerate(es, z.files);
    Fits(es, z, order);
    ReadBack(cs, order);
    MembersAreEntries(es);
  }

  lemma Fits(es: seq<Entry>, z: Zip, order: seq<Name>)
    requires Run(Commands(es), INIT) == Some(z) && order == Names(es) && Enumerates(order, z.files)
    requires |es| < U16 && forall i :: 0 <= i < |es| ==> |es[i].name| < U16
    requires FileSpace(es) < U32 && DirectorySpace(es) < U32
    ensures WithinLimits(z, order)
  {
    hide Run, Commands, CentralBytes, FileSpace, DirectorySpace, Names;
    CommandsTake(es);
    DirectoryTakes(es, z.files);
    forall n | n in z.files ensures |n| < U16 {
      var i :| 0 <= i < |order| && order[i] == n;
      assert n == es[i].name;
    }
  }
}
