/** The recorder (src/recorder.erl): append a packet and its offset, roll over to
    a new chunk when the current one is full, prune the oldest chunks by size. */
module Recorder {
  import opened Bytes
  import opened LogFormat

  /** A numbered pair of files. */
  datatype Chunk = Chunk(num: nat, data: Data, index: Data)

  /** total_size: bytes of all data and index files. */
  function TotalSize(chunks: seq<Chunk>): nat {
    if chunks == [] then 0 else |chunks[0].data| + |chunks[0].index| + TotalSize(chunks[1..])
  }

  /** newfile with nb_bytes: delete the oldest chunk while the directory is too large. */
  function Pruned(chunks: seq<Chunk>, nbBytes: nat): (r: seq<Chunk>)
    ensures |r| <= |chunks| && r == chunks[|chunks| - |r|..]
  {
    if chunks != [] && TotalSize(chunks) > nbBytes then Pruned(chunks[1..], nbBytes) else chunks
  }

  /** Pruning keeps the longest run of newest chunks that fits. */
  lemma {:induction false} PrunedIsLongest(chunks: seq<Chunk>, nbBytes: nat, k: nat)
    requires k <= |chunks|
    ensures Pruned(chunks, nbBytes) == [] || TotalSize(Pruned(chunks, nbBytes)) <= nbBytes
    ensures TotalSize(chunks[k..]) <= nbBytes ==> |chunks| - k <= |Pruned(chunks, nbBytes)|
  {
    if chunks != [] && TotalSize(chunks) > nbBytes {
      PrunedIsLongest(chunks[1..], nbBytes, if k > 0 then k - 1 else 0);
      if k > 0 { assert chunks[1..][k - 1..] == chunks[k..]; } else { assert chunks[0..] == chunks; }
    }
  }

  /** new_chunk: one more than the newest number, or zero in an empty directory. */
  function NewNumber(chunks: seq<Chunk>): nat {
    if chunks == [] then 0 else chunks[|chunks| - 1].num + 1
  }

  function NewFile(chunks: seq<Chunk>, nbBytes: nat): seq<Chunk> {
    var kept := Pruned(chunks, nbBytes);
    kept + [Chunk(NewNumber(kept), [], [])]
  }

  function AppendTo(c: Chunk, m: Message): Chunk {
    c.(data := c.data + Packet(m), index := c.index + LE32(|c.data|))
  }

  /** Any other message gets logged: in the current chunk if it fits, else in a new one. */
  function RecordOne(chunks: seq<Chunk>, m: Message, chunkSize: nat, nbBytes: nat): (r: seq<Chunk>)
    requires chunks != []
    ensures r != []
  {
    var open := if |chunks[|chunks| - 1].data| + 8 + |m| > chunkSize then NewFile(chunks, nbBytes) else chunks;
    open[|open| - 1 := AppendTo(open[|open| - 1], m)]
  }

  /** A whole recording. */
  function RecordAll(chunks: seq<Chunk>, ms: seq<Message>, chunkSize: nat, nbBytes: nat): (r: seq<Chunk>)
    requires chunks != []
    ensures r != []
    decreases |ms|
  {
    if ms == [] then chunks
    else RecordOne(RecordAll(chunks, ms[..|ms| - 1], chunkSize, nbBytes), ms[|ms| - 1], chunkSize, nbBytes)
  }

  // ---- What the files hold ----

  /** Chunk i holds exactly the messages held[i], with a matching index, below the
      32-bit limit; chunks are in the order of their numbers, which may have gaps. */
  ghost predicate Holds(chunks: seq<Chunk>, held: seq<seq<Message>>) {
    && |held| == |chunks|
    && (forall i :: 0 <= i < |chunks| ==>
          chunks[i].data == DataOf(held[i]) && chunks[i].index == IndexOf(held[i]) && Small(held[i]))
    && (forall i, j :: 0 <= i < j < |chunks| ==> chunks[i].num < chunks[j].num)
  }

  /** All retained messages, oldest first. */
  function Retained(held: seq<seq<Message>>): seq<Message> {
    if held == [] then [] else held[0] + Retained(held[1..])
  }

  lemma {:induction false} RetainedConcat(a: seq<seq<Message>>, b: seq<seq<Message>>)
    ensures Retained(a + b) == Retained(a) + Retained(b)
  {
    if a == [] {
      assert a + b == b;
    } else {
      assert (a + b)[1..] == a[1..] + b;
      RetainedConcat(a[1..], b);
    }
  }

  lemma AppendHolds(ms: seq<Message>, m: Message)
    ensures DataOf(ms + [m]) == DataOf(ms) + Packet(m)
    ensures IndexOf(ms + [m]) == IndexOf(ms) + LE32(|DataOf(ms)|)
  {
    assert (ms + [m])[..|ms|] == ms;
  }

  /** What is retained is the end of what was recorded. */
  ghost predicate Kept(held: seq<seq<Message>>, all: seq<Message>) {
    |Retained(held)| <= |all| && all[|all| - |Retained(held)|..] == Retained(held)
  }

  lemma DropOldest(chunks: seq<Chunk>, held: seq<seq<Message>>, all: seq<Message>)
    requires Holds(chunks, held) && chunks != [] && Kept(held, all)
    ensures Holds(chunks[1..], held[1..]) && Kept(held[1..], all)
  {
    var tail := Retained(held[1..]);
    assert Retained(held) == held[0] + tail;
    assert all[|all| - |tail|..] == Retained(held)[|held[0]|..] == tail;
  }

  lemma HoldsLength(chunks: seq<Chunk>, held: seq<seq<Message>>)
    requires Holds(chunks, held)
    ensures |held| == |chunks|
  {
  }

  lemma AddEmpty(chunks: seq<Chunk>, held: seq<seq<Message>>, all: seq<Message>)
    requires Holds(chunks, held) && Kept(held, all)
    ensures Holds(chunks + [Chunk(NewNumber(chunks), [], [])], held + [[]]) && Kept(held + [[]], all)
  {
    RetainedConcat(held, [[]]);
    assert Retained([[]]) == [] + Retained([]) == [];
    assert Retained(held + [[]]) == Retained(held);
    assert DataOf([]) == [] && IndexOf([]) == [];
  }

  lemma RetainedLast(held: seq<seq<Message>>, ms: seq<Message>, m: Message)
    requires held != [] && held[|held| - 1] == ms
    ensures Retained(held[|held| - 1 := ms + [m]]) == Retained(held) + [m]
  {
    var front := held[..|held| - 1];
    assert held == front + [ms] && held[|held| - 1 := ms + [m]] == front + [ms + [m]];
    RetainedConcat(front, [ms]);
    RetainedConcat(front, [ms + [m]]);
    assert Retained([ms]) == ms + Retained([]) == ms;
    assert Retained([ms + [m]]) == (ms + [m]) + Retained([]) == ms + [m];
  }

  lemma AppendLast(chunks: seq<Chunk>, held: seq<seq<Message>>, all: seq<Message>, m: Message)
    requires Holds(chunks, held) && chunks != [] && Kept(held, all)
    requires |chunks[|chunks| - 1].data| + 8 + |m| < U32
    ensures var last := |chunks| - 1;
            && Holds(chunks[last := AppendTo(chunks[last], m)], held[last := held[last] + [m]])
            && Kept(held[last := held[last] + [m]], all + [m])
  {
    hide Retained, DataOf, IndexOf, Packet;
    var last := |chunks| - 1;
    AppendHolds(held[last], m);
    RetainedLast(held, held[last], m);
    EndWith(all, Retained(held), m);
  }

  lemma EndWith(all: seq<Message>, tail: seq<Message>, m: Message)
    requires |tail| <= |all| && all[|all| - |tail|..] == tail
    ensures (all + [m])[|all| - |tail|..] == tail + [m]
  {
  }

  lemma {:induction false} PruneKeeps(chunks: seq<Chunk>, held: seq<seq<Message>>, all: seq<Message>, nbBytes: nat)
    returns (held': seq<seq<Message>>)
    requires Holds(chunks, held) && Kept(held, all)
    ensures Holds(Pruned(chunks, nbBytes), held') && Kept(held', all)
  {
    hide Holds, Kept, TotalSize;
    if chunks != [] && TotalSize(chunks) > nbBytes {
      DropOldest(chunks, held, all);
      HoldsLength(chunks, held);
      held' := PruneKeeps(chunks[1..], held[1..], all, nbBytes);
    } else {
      held' := held;
    }
  }

  lemma {:induction false} RecordKeeps(chunks: seq<Chunk>, held: seq<seq<Message>>, all: seq<Message>, m: Message,
                                       chunkSize: nat, nbBytes: nat)
    returns (held': seq<seq<Message>>)
    requires Holds(chunks, held) && chunks != [] && Kept(held, all) && |m| + 8 < U32 && chunkSize < U32
    ensures Holds(RecordOne(chunks, m, chunkSize, nbBytes), held') && Kept(held', all + [m])
  {
    hide Holds, Kept, Pruned, AppendTo;
    var open, heldOpen := chunks, held;
    if |chunks[|chunks| - 1].data| + 8 + |m| > chunkSize {
      var kept := PruneKeeps(chunks, held, all, nbBytes);
      AddEmpty(Pruned(chunks, nbBytes), kept, all);
      open, heldOpen := NewFile(chunks, nbBytes), kept + [[]];
    }
    HoldsLength(open, heldOpen);
    AppendLast(open, heldOpen, all, m);
    held' := heldOpen[|open| - 1 := heldOpen[|open| - 1] + [m]];
  }

  /** After any recording, from any directory, the files hold the newest messages of
      everything ever recorded, with matching indices. */
  lemma {:induction false} RecordingHolds(chunks: seq<Chunk>, held: seq<seq<Message>>, all: seq<Message>,
                                          ms: seq<Message>, chunkSize: nat, nbBytes: nat)
    returns (held': seq<seq<Message>>)
    requires Holds(chunks, held) && chunks != [] && Kept(held, all) && chunkSize < U32
    requires forall i :: 0 <= i < |ms| ==> |ms[i]| + 8 < U32
    ensures Holds(RecordAll(chunks, ms, chunkSize, nbBytes), held') && Kept(held', all + ms)
    decreases |ms|
  {
    hide Holds, Kept, RecordOne;
    if ms == [] {
      held' := held;
      assert all + [] == all;
    } else {
      var front, last := ms[..|ms| - 1], ms[|ms| - 1];
      var before := RecordingHolds(chunks, held, all, front, chunkSize, nbBytes);
      held' := RecordKeeps(RecordAll(chunks, front, chunkSize, nbBytes), before, all + front, last, chunkSize, nbBytes);
      assert all + front + [last] == all + ms by { assert front + [last] == ms; }
    }
  }

  class RecorderObject {
    var chunks: seq<Chunk>
    const chunkSize: nat
    const nbBytes: nat

    /** The messages in each retained chunk, and all messages ever recorded. */
    ghost var held: seq<seq<Message>>
    ghost var all: seq<Message>

    ghost predicate Valid()
      reads this
    {
      chunkSize < U32 && chunks != [] && Holds(chunks, held) && Kept(held, all)
    }

    /** Start on a directory left by earlier recorders: always a new chunk. */
    constructor (dir: seq<Chunk>, ghost inDir: seq<seq<Message>>, chunkSize: nat, nbBytes: nat)
      requires chunkSize < U32 && Holds(dir, inDir)
      ensures Valid() && chunks == NewFile(dir, nbBytes)
      ensures this.chunkSize == chunkSize && this.nbBytes == nbBytes && all == Retained(inDir)
    {
      hide DataOf, IndexOf, Packet, Retained;
      this.chunkSize, this.nbBytes := chunkSize, nbBytes;
      chunks := dir;
      held := inDir;
      all := Retained(inDir);
      new;
      assert all[0..] == all;
      StartFile();
    }

    /** newfile, first half: delete the oldest chunk while the directory is too large. */
    method Prune()
      requires Holds(chunks, held) && Kept(held, all)
      modifies this`chunks, this`held
      ensures Holds(chunks, held) && Kept(held, all)
      ensures chunks == Pruned(old(chunks), nbBytes)
      ensures held == old(held)[|old(chunks)| - |chunks|..]
    {
      hide DataOf, IndexOf, Packet, Retained, Holds, Kept, TotalSize;
      ghost var k, before, inside := 0, chunks, held;
      HoldsLength(chunks, held);
      while chunks != [] && TotalSize(chunks) > nbBytes
        invariant k <= |before| == |inside| && chunks == before[k..] && held == inside[k..]
        invariant Pruned(chunks, nbBytes) == Pruned(before, nbBytes)
        invariant Holds(chunks, held) && Kept(held, all)
        decreases |chunks|
      {
        DropOldest(chunks, held, all);
        assert before[k..][1..] == before[k + 1..] && inside[k..][1..] == inside[k + 1..];
        chunks := chunks[1..];
        held := held[1..];
        k := k + 1;
      }
    }

    /** newfile: prune by size, then open the next chunk. */
    method StartFile()
      requires chunkSize < U32 && Holds(chunks, held) && Kept(held, all)
      modifies this`chunks, this`held
      ensures Valid() && chunks == NewFile(old(chunks), nbBytes)
      ensures held == old(held)[|old(chunks)| - |Pruned(old(chunks), nbBytes)|..] + [[]]
    {
      hide DataOf, IndexOf, Packet, Retained, Holds, Kept;
      Prune();
      AddEmpty(chunks, held, all);
      chunks := chunks + [Chunk(NewNumber(chunks), [], [])];
      held := held + [[]];
    }

    /** Write a packet and its offset to the current chunk. */
    method Append(m: Message)
      requires Valid() && |chunks[|chunks| - 1].data| + 8 + |m| < U32
      modifies this
      ensures Valid() && all == old(all) + [m]
      ensures var last := |old(chunks)| - 1; chunks == old(chunks)[last := AppendTo(old(chunks)[last], m)]
      ensures held == old(held)[|old(held)| - 1 := old(held)[|old(held)| - 1] + [m]]
    {
      var last := |chunks| - 1;
      AppendLast(chunks, held, all, m);
      chunks := chunks[last := AppendTo(chunks[last], m)];
      held := held[last := held[last] + [m]];
      all := all + [m];
    }

    method Record(m: Message)
      requires Valid() && |m| + 8 < U32
      modifies this
      ensures Valid() && all == old(all) + [m]
      ensures chunks == RecordOne(old(chunks), m, chunkSize, nbBytes)
      ensures held == HeldAfter(old(chunks), old(held), m, chunkSize, nbBytes)
    {
      hide DataOf, IndexOf, Packet, Retained, Holds, Kept, Pruned;
      HoldsLength(chunks, held);
      var pos := |chunks[|chunks| - 1].data|;
      if pos + 8 + |m| > chunkSize {
        StartFile();
        assert [] + [m] == [m];
        HoldsLength(chunks, held);
      }
      Append(m);
    }
  }

  /** Where a message goes: after the others of the current chunk while the chunk
      size allows, else alone into a new chunk, behind what pruning keeps. */
  ghost function HeldAfter(chunks: seq<Chunk>, held: seq<seq<Message>>, m: Message, chunkSize: nat,
                           nbBytes: nat): seq<seq<Message>>
    requires chunks != [] && |held| == |chunks|
  {
    var last := |chunks| - 1;
    if |chunks[last].data| + 8 + |m| <= chunkSize then held[last := held[last] + [m]]
    else held[|chunks| - |Pruned(chunks, nbBytes)|..] + [[m]]
  }
}
