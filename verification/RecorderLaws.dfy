/** The recorder's files seen as lists of messages: what counts against the two
    limits, which chunks pruning keeps, how they are numbered, and how messages are
    dealt out to chunks (src/recorder.erl). */
module RecorderLaws {
  import opened Bytes
  import opened LogFormat
  import opened Recorder

  // ---- Sizes ----

  /** A message takes its bytes, two size words in the data file, and a word in the index file. */
  function Weight(ms: seq<Message>): nat {
    if ms == [] then 0 else |ms[0]| + 12 + Weight(ms[1..])
  }

  /** In the data file alone. */
  function DataWeight(ms: seq<Message>): nat {
    if ms == [] then 0 else |ms[0]| + 8 + DataWeight(ms[1..])
  }

  lemma {:induction false} WeightConcat(a: seq<Message>, b: seq<Message>)
    ensures Weight(a + b) == Weight(a) + Weight(b) && DataWeight(a + b) == DataWeight(a) + DataWeight(b)
  {
    if a == [] {
      assert a + b == b;
    } else {
      assert (a + b)[1..] == a[1..] + b;
      WeightConcat(a[1..], b);
    }
  }

  lemma {:induction false} FilesWeigh(ms: seq<Message>)
    ensures |DataOf(ms)| == DataWeight(ms) && |DataOf(ms)| + |IndexOf(ms)| == Weight(ms)
  {
    if ms == [] {
    } else {
      var front, last := ms[..|ms| - 1], ms[|ms| - 1];
      FilesWeigh(front);
      WeightConcat(front, [last]);
      assert ms == front + [last];
    }
  }

  /** The directory's size, data and index files together, is what the retained messages weigh. */
  lemma {:induction false} TotalIsWeight(chunks: seq<Chunk>, held: seq<seq<Message>>)
    requires Holds(chunks, held)
    ensures TotalSize(chunks) == Weight(Retained(held))
  {
    if chunks == [] {
    } else {
      TotalIsWeight(chunks[1..], held[1..]);
      FilesWeigh(held[0]);
      WeightConcat(held[0], Retained(held[1..]));
    }
  }

  // ---- Pruning ----

  /** Pruning keeps the longest run of newest chunks whose messages weigh no more than allowed. */
  lemma {:induction false} PrunedByWeight(chunks: seq<Chunk>, held: seq<seq<Message>>, nbBytes: nat, k: nat)
    requires Holds(chunks, held) && k <= |held|
    ensures var n := |Pruned(chunks, nbBytes)|;
            && n <= |held| && (n == 0 || Weight(Retained(held[|held| - n..])) <= nbBytes)
            && (Weight(Retained(held[k..])) <= nbBytes ==> |held| - k <= n)
  {
    hide Holds, Retained, Weight, TotalSize, Pruned;
    HoldsLength(chunks, held);
    var n := |Pruned(chunks, nbBytes)|;
    PrunedIsLongest(chunks, nbBytes, k);
    SuffixHolds(chunks, held, |held| - n);
    SuffixHolds(chunks, held, k);
    TotalIsWeight(chunks[|held| - n..], held[|held| - n..]);
    TotalIsWeight(chunks[k..], held[k..]);
  }

  lemma SuffixHolds(chunks: seq<Chunk>, held: seq<seq<Message>>, k: nat)
    requires Holds(chunks, held) && k <= |held|
    ensures Holds(chunks[k..], held[k..])
  {
  }

  /** A new file is empty, has the number after the newest that was kept, or 0 if
      none was, and comes behind what pruning keeps. */
  lemma NewFileIsNext(chunks: seq<Chunk>, nbBytes: nat)
    ensures var files := NewFile(chunks, nbBytes);
            var n := |files| - 1;
            && n >= 0 && files[..n] == Pruned(chunks, nbBytes)
            && files[n] == Chunk(if n == 0 then 0 else files[n - 1].num + 1, [], [])
  {
  }

  /** Recording a message touches the newest file only, and never renumbers one. */
  lemma RecordTouchesLast(chunks: seq<Chunk>, m: Message, chunkSize: nat, nbBytes: nat)
    requires chunks != []
    ensures var r := RecordOne(chunks, m, chunkSize, nbBytes);
            var n := |r| - 1;
            if |chunks[|chunks| - 1].data| + 8 + |m| <= chunkSize
            then r[..n] == chunks[..|chunks| - 1] && r[n].num == chunks[|chunks| - 1].num
            else r[..n] == Pruned(chunks, nbBytes) && r[n].num == if n == 0 then 0 else r[n - 1].num + 1
  {
    hide Pruned;
  }

  // ---- The same on lists of messages ----

  function KeptOf(held: seq<seq<Message>>, nbBytes: nat): seq<seq<Message>> {
    if held != [] && Weight(Retained(held)) > nbBytes then KeptOf(held[1..], nbBytes) else held
  }

  /** A message goes behind the others of the newest chunk while the chunk size
      allows, else alone into a new one. */
  function Deal(held: seq<seq<Message>>, m: Message, chunkSize: nat, nbBytes: nat): (r: seq<seq<Message>>)
    requires held != []
    ensures r != [] && r[|r| - 1] != []
  {
    var last := held[|held| - 1];
    if DataWeight(last + [m]) <= chunkSize then held[|held| - 1 := last + [m]] else KeptOf(held, nbBytes) + [[m]]
  }

  function DealAll(held: seq<seq<Message>>, ms: seq<Message>, chunkSize: nat, nbBytes: nat): (r: seq<seq<Message>>)
    requires held != []
    ensures r != [] && (ms != [] ==> r[|r| - 1] != [])
    decreases |ms|
  {
    if ms == [] then held
    else Deal(DealAll(held, ms[..|ms| - 1], chunkSize, nbBytes), ms[|ms| - 1], chunkSize, nbBytes)
  }

  lemma {:induction false} PrunedHoldsKept(chunks: seq<Chunk>, held: seq<seq<Message>>, nbBytes: nat)
    requires Holds(chunks, held)
    ensures Holds(Pruned(chunks, nbBytes), KeptOf(held, nbBytes))
  {
    TotalIsWeight(chunks, held);
    if chunks == [] || TotalSize(chunks) <= nbBytes {
    } else {
      SuffixHolds(chunks, held, 1);
      PrunedHoldsKept(chunks[1..], held[1..], nbBytes);
    }
  }

  /** The files hold exactly what dealing out the messages says. */
  lemma RecordDeals(chunks: seq<Chunk>, held: seq<seq<Message>>, m: Message, chunkSize: nat, nbBytes: nat)
    requires Holds(chunks, held) && chunks != [] && |m| + 8 < U32 && chunkSize < U32
    ensures Holds(RecordOne(chunks, m, chunkSize, nbBytes), Deal(held, m, chunkSize, nbBytes))
  {
    hide Holds, Pruned, KeptOf, DataWeight, AppendTo, NewFile;
    HoldsLength(chunks, held);
    LastSize(chunks, held, m);
    if |chunks[|chunks| - 1].data| + 8 + |m| > chunkSize {
      NewChunkHolds(chunks, held, m, nbBytes);
    } else {
      AppendedHolds(chunks, held, m);
    }
  }

  lemma LastSize(chunks: seq<Chunk>, held: seq<seq<Message>>, m: Message)
    requires Holds(chunks, held) && chunks != []
    ensures DataWeight(held[|held| - 1] + [m]) == |chunks[|chunks| - 1].data| + 8 + |m|
  {
    var last := held[|held| - 1];
    FilesWeigh(last);
    WeightConcat(last, [m]);
    assert DataWeight([m]) == |m| + 8;
  }

  lemma NewChunkHolds(chunks: seq<Chunk>, held: seq<seq<Message>>, m: Message, nbBytes: nat)
    requires Holds(chunks, held) && |m| + 8 < U32
    ensures var files := NewFile(chunks, nbBytes);
            var n := |files| - 1;
            Holds(files[n := AppendTo(files[n], m)], KeptOf(held, nbBytes) + [[m]])
  {
    var files, kept := NewFile(chunks, nbBytes), KeptOf(held, nbBytes);
    PrunedHoldsKept(chunks, held, nbBytes);
    HoldsLength(Pruned(chunks, nbBytes), kept);
    OpenHolds(Pruned(chunks, nbBytes), kept);
    AppendedHolds(files, kept + [[]], m);
    hide Holds, Pruned, KeptOf, AppendTo;
    assert [] + [m] == [m];
    assert (kept + [[]])[|kept| := [] + [m]] == kept + [[m]];
  }

  lemma OpenHolds(chunks: seq<Chunk>, held: seq<seq<Message>>)
    requires Holds(chunks, held)
    ensures Holds(chunks + [Chunk(NewNumber(chunks), [], [])], held + [[]])
  {
    assert DataOf([]) == [] && IndexOf([]) == [];
  }

  lemma AppendedHolds(chunks: seq<Chunk>, held: seq<seq<Message>>, m: Message)
    requires Holds(chunks, held) && chunks != [] && |chunks[|chunks| - 1].data| + 8 + |m| < U32
    ensures var last := |chunks| - 1;
            Holds(chunks[last := AppendTo(chunks[last], m)], held[last := held[last] + [m]])
  {
    hide DataOf, IndexOf, Packet;
    AppendHolds(held[|chunks| - 1], m);
  }

  lemma {:induction false} RecordAllDeals(chunks: seq<Chunk>, held: seq<seq<Message>>, ms: seq<Message>, chunkSize: nat,
                                          nbBytes: nat)
    requires Holds(chunks, held) && chunks != [] && chunkSize < U32
    requires forall i :: 0 <= i < |ms| ==> |ms[i]| + 8 < U32
    ensures Holds(RecordAll(chunks, ms, chunkSize, nbBytes), DealAll(held, ms, chunkSize, nbBytes))
    decreases |ms|
  {
    hide Holds, RecordOne, Deal;
    assert chunks != [] ==> held != [] by { HoldsLength(chunks, held); }
    if ms == [] {
    } else {
      var front, last := ms[..|ms| - 1], ms[|ms| - 1];
      RecordAllDeals(chunks, held, front, chunkSize, nbBytes);
      RecordDeals(RecordAll(chunks, front, chunkSize, nbBytes), DealAll(held, front, chunkSize, nbBytes), last,
        chunkSize, nbBytes);
    }
  }

  // ---- How chunks are filled ----

  /** No chunk of several messages is over the chunk size, and each message that begins
      a chunk did not fit behind the one before. */
  ghost predicate Filled(held: seq<seq<Message>>, chunkSize: nat) {
    && (forall i :: 0 <= i < |held| && |held[i]| > 1 ==> DataWeight(held[i]) <= chunkSize)
    && (forall i :: 0 < i < |held| && held[i] != [] ==> DataWeight(held[i - 1] + [held[i][0]]) > chunkSize)
  }

  lemma {:induction false} KeptFilled(held: seq<seq<Message>>, chunkSize: nat, nbBytes: nat)
    requires Filled(held, chunkSize)
    ensures var r := KeptOf(held, nbBytes);
            && Filled(r, chunkSize) && |r| <= |held| && r == held[|held| - |r|..]
  {
    if held != [] && Weight(Retained(held)) > nbBytes {
      TailFilled(held, chunkSize);
      KeptFilled(held[1..], chunkSize, nbBytes);
    }
  }

  lemma TailFilled(held: seq<seq<Message>>, chunkSize: nat)
    requires Filled(held, chunkSize) && held != []
    ensures Filled(held[1..], chunkSize)
  {
    var r := held[1..];
    forall i | 0 < i < |r| && r[i] != [] ensures DataWeight(r[i - 1] + [r[i][0]]) > chunkSize {
      assert r[i] == held[i + 1] && r[i - 1] == held[i];
    }
  }

  lemma DealFills(held: seq<seq<Message>>, m: Message, chunkSize: nat, nbBytes: nat)
    requires held != [] && Filled(held, chunkSize) && (|held| == 1 || held[|held| - 1] != [])
    ensures Filled(Deal(held, m, chunkSize, nbBytes), chunkSize)
  {
    if DataWeight(held[|held| - 1] + [m]) <= chunkSize {
      MoreFills(held, m, chunkSize);
    } else {
      KeptFilled(held, chunkSize, nbBytes);
      NewFills(held, KeptOf(held, nbBytes), m, chunkSize);
    }
    hide DataWeight, Filled, KeptOf;
  }

  lemma MoreFills(held: seq<seq<Message>>, m: Message, chunkSize: nat)
    requires held != [] && Filled(held, chunkSize) && (|held| == 1 || held[|held| - 1] != [])
    requires DataWeight(held[|held| - 1] + [m]) <= chunkSize
    ensures Filled(held[|held| - 1 := held[|held| - 1] + [m]], chunkSize)
  {
    hide DataWeight;
    var r := held[|held| - 1 := held[|held| - 1] + [m]];
    forall i | 0 < i < |r| && r[i] != [] ensures DataWeight(r[i - 1] + [r[i][0]]) > chunkSize {
      assert r[i - 1] == held[i - 1] && held[i] != [] && r[i][0] == held[i][0];
    }
  }

  lemma NewFills(held: seq<seq<Message>>, kept: seq<seq<Message>>, m: Message, chunkSize: nat)
    requires held != [] && Filled(kept, chunkSize) && |kept| <= |held| && kept == held[|held| - |kept|..]
    requires DataWeight(held[|held| - 1] + [m]) > chunkSize
    ensures Filled(kept + [[m]], chunkSize)
  {
    hide DataWeight;
    var r := kept + [[m]];
    forall i | 0 < i < |r| && r[i] != [] ensures DataWeight(r[i - 1] + [r[i][0]]) > chunkSize {
      if i < |kept| {
        assert r[i] == kept[i] && r[i - 1] == kept[i - 1];
      } else {
        assert r[i - 1] == held[|held| - 1] && r[i] == [m];
      }
    }
  }

  /** Recording from an empty directory fills every chunk as far as it goes. */
  lemma {:induction false} RecordingFills(ms: seq<Message>, chunkSize: nat, nbBytes: nat)
    ensures var r := DealAll([[]], ms, chunkSize, nbBytes);
            Filled(r, chunkSize) && (|r| == 1 || r[|r| - 1] != [])
    decreases |ms|
  {
    if ms == [] {
    } else {
      var front, last := ms[..|ms| - 1], ms[|ms| - 1];
      RecordingFills(front, chunkSize, nbBytes);
      DealFills(DealAll([[]], front, chunkSize, nbBytes), last, chunkSize, nbBytes);
    }
  }
}
