/** The player (src/player.erl): flat references through the span tree and the
    chunk indices, the file cursor inside a chunk, and bisection on time stamps. */
module Player {
  import opened Bytes
  import opened Collections
  import opened LogFormat
  import opened Recorder

  // ---- spans, tree, lookup ----

  /** A chunk number with the flat numbers of its messages, start inclusive, end exclusive. */
  datatype Span = Span(chunk: nat, start: nat, endx: nat)

  /** spans/1: message counts come from the sizes of the index files. */
  function Spans(chunks: seq<Chunk>, start: nat): (r: seq<Span>)
    ensures |r| == |chunks|
  {
    if chunks == [] then []
    else
      var endx := start + |chunks[0].index| / 4;
      [Span(chunks[0].num, start, endx)] + Spans(chunks[1..], endx)
  }

  datatype Range = Range(start: nat, endx: nat)

  datatype Tree = Leaf(span: Span) | Fork(leftRange: Range, left: Tree, rightRange: Range, right: Tree)

  function RangeOf(s: seq<Span>): Range
    requires s != []
  {
    Range(s[0].start, s[|s| - 1].endx)
  }

  function MakeTree(s: seq<Span>): Tree
    requires s != []
    decreases |s|
  {
    if |s| == 1 then Leaf(s[0])
    else
      var a, b := s[..|s| / 2], s[|s| / 2..];
      Fork(RangeOf(a), MakeTree(a), RangeOf(b), MakeTree(b))
  }

  /** The left test runs up to where the right half starts; a leaf is not tested. */
  function Lookup(n: int, t: Tree): Option<Span> {
    match t
    case Leaf(s) => Some(s)
    case Fork(lr, l, rr, r) =>
      if lr.start <= n < rr.start then Lookup(n, l)
      else if rr.start <= n < rr.endx then Lookup(n, r)
      else None
  }

  function TreeSpan(t: Tree): Range {
    match t
    case Leaf(s) => Range(s.start, s.endx)
    case Fork(lr, _, rr, _) => Range(lr.start, rr.endx)
  }

  /** Each span starts where the one before ends; spans may be empty. */
  ghost predicate Contiguous(s: seq<Span>) {
    && (forall i :: 0 <= i < |s| ==> s[i].start <= s[i].endx)
    && (forall i :: 0 < i < |s| ==> s[i - 1].endx == s[i].start)
  }

  predicate InRange(n: int, r: Range) {
    r.start <= n < r.endx
  }

  /** The outcome of a lookup of n among contiguous spans: the span that contains n,
      which is s[k]; out of range it fails, unless there is only one span. */
  ghost predicate Finds(s: seq<Span>, n: int, r: Option<Span>, k: nat)
    requires s != []
  {
    && k < |s|
    && (InRange(n, RangeOf(s)) ==> r == Some(s[k]) && s[k].start <= n < s[k].endx)
    && (!InRange(n, RangeOf(s)) ==> r == if |s| == 1 then Some(s[0]) else None)
  }

  lemma ForkFinds(s: seq<Span>, h: nat, n: int, r: Option<Span>, i: nat, r': Option<Span>, j: nat)
    requires 0 < h < |s| && Contiguous(s) && Finds(s[..h], n, r, i) && Finds(s[h..], n, r', j)
    ensures Finds(s, n,
            if s[0].start <= n < s[h].start then r else if s[h].start <= n < s[|s| - 1].endx then r' else None,
                  if n < s[h].start then i else h + j)
  {
    Halves(s, h);
  }

  lemma {:induction false} LookupFinds(s: seq<Span>, n: int) returns (k: nat)
    requires s != [] && Contiguous(s)
    ensures Finds(s, n, Lookup(n, MakeTree(s)), k)
    decreases |s|
  {
    hide Contiguous, Finds;
    if |s| == 1 {
      k := 0;
      OnlyLeaf(s, n);
    } else {
      var h := |s| / 2;
      Halves(s, h);
      var i := LookupFinds(s[..h], n);
      var j := LookupFinds(s[h..], n);
      k := if n < s[h].start then i else h + j;
      ForkFinds(s, h, n, Lookup(n, MakeTree(s[..h])), i, Lookup(n, MakeTree(s[h..])), j);
    }
  }

  lemma OnlyLeaf(s: seq<Span>, n: int)
    requires |s| == 1
    ensures Finds(s, n, Some(s[0]), 0)
  {
  }

  lemma {:induction false} TreeSpanIsRange(s: seq<Span>)
    requires s != []
    ensures TreeSpan(MakeTree(s)) == RangeOf(s)
  {
  }

  lemma {:induction false} Rising(s: seq<Span>)
    requires s != [] && Contiguous(s)
    ensures s[0].start <= s[|s| - 1].endx
  {
    if |s| > 1 {
      Rising(s[1..]);
      assert s[1..][|s| - 2] == s[|s| - 1];
    }
  }

  lemma Halves(s: seq<Span>, h: nat)
    requires 0 < h < |s| && Contiguous(s)
    ensures Contiguous(s[..h]) && Contiguous(s[h..])
    ensures s[0].start <= s[h - 1].endx == s[h].start <= s[|s| - 1].endx
  {
    Rising(s[..h]);
    Rising(s[h..]);
  }

  // ---- The flat reference ----

  function ChunkNumbered(chunks: seq<Chunk>, num: nat): Option<Chunk> {
    if chunks == [] then None
    else if chunks[0].num == num then Some(chunks[0])
    else ChunkNumbered(chunks[1..], num)
  }

  /** {ref, N}: find the chunk in the span tree, then use its index. */
  function Ref(chunks: seq<Chunk>, n: int): Option<Message>
    requires chunks != []
  {
    var span := Lookup(n, MakeTree(Spans(chunks, 0)));
    if span.None? then None
    else
      var c := ChunkNumbered(chunks, span.value.chunk);
      var at := n - span.value.start;
      if c.None? || at < 0 then None else ReadIndexed(c.value.data, c.value.index, at)
  }

  /** Number of messages before chunk i. */
  function Before(held: seq<seq<Message>>, i: nat): nat
    requires i <= |held|
  {
    |Retained(held[..i])|
  }

  lemma BeforeNext(held: seq<seq<Message>>, i: nat)
    requires i < |held|
    ensures Before(held, i + 1) == Before(held, i) + |held[i]|
  {
    assert held[..i + 1] == held[..i] + [held[i]];
    RetainedConcat(held[..i], [held[i]]);
    assert Retained([held[i]]) == held[i] + Retained([]) == held[i];
  }

  lemma RetainedAt(held: seq<seq<Message>>, i: nat, j: nat)
    requires i < |held| && j < |held[i]|
    ensures Before(held, i) + j < |Retained(held)| && Retained(held)[Before(held, i) + j] == held[i][j]
  {
    var rest := held[i..];
    assert held == held[..i] + rest;
    RetainedConcat(held[..i], rest);
    assert Retained(rest) == held[i] + Retained(rest[1..]);
  }

  /** Chunk i's span. */
  predicate SpanIs(held: seq<seq<Message>>, from: nat, i: nat, num: nat, span: Span)
    requires i < |held|
  {
    span == Span(num, from + Before(held, i), from + Before(held, i + 1))
  }

  lemma BeforeNone(held: seq<seq<Message>>)
    ensures Before(held, 0) == 0
  {
    assert held[..0] == [];
  }

  lemma BeforeTail(held: seq<seq<Message>>, i: nat)
    requires 0 < i <= |held|
    ensures Before(held, i) == |held[0]| + Before(held[1..], i - 1)
  {
    assert held[..i][1..] == held[1..][..i - 1];
  }

  lemma {:induction false} SpansAre(chunks: seq<Chunk>, held: seq<seq<Message>>, from: nat)
    requires |held| == |chunks| && forall i :: 0 <= i < |chunks| ==> |chunks[i].index| == 4 * |held[i]|
    ensures forall i :: 0 <= i < |chunks| ==> SpanIs(held, from, i, chunks[i].num, Spans(chunks, from)[i])
  {
    hide Before;
    if chunks == [] {
    } else {
      BeforeNone(held);
      BeforeNone(held[1..]);
      var next := from + |held[0]|;
      SpansAre(chunks[1..], held[1..], next);
      forall i | 0 <= i < |chunks| ensures SpanIs(held, from, i, chunks[i].num, Spans(chunks, from)[i]) {
        BeforeTail(held, i + 1);
        if i > 0 {
          assert SpanIs(held[1..], next, i - 1, chunks[i].num, Spans(chunks[1..], next)[i - 1]);
          BeforeTail(held, i);
        }
      }
    }
  }

  lemma {:induction false} SpansContiguous(chunks: seq<Chunk>, held: seq<seq<Message>>)
    requires |held| == |chunks| && chunks != []
    requires forall i :: 0 <= i < |chunks| ==> SpanIs(held, 0, i, chunks[i].num, Spans(chunks, 0)[i])
    ensures Contiguous(Spans(chunks, 0)) && RangeOf(Spans(chunks, 0)) == Range(0, |Retained(held)|)
  {
    forall i | 0 <= i < |held| ensures Before(held, i) <= Before(held, i + 1) { BeforeNext(held, i); }
    assert held[..|held|] == held && held[..0] == [];
  }

  lemma {:induction false} ChunkFound(chunks: seq<Chunk>, i: nat)
    requires i < |chunks| && forall j, k :: 0 <= j < k < |chunks| ==> chunks[j].num < chunks[k].num
    ensures ChunkNumbered(chunks, chunks[i].num) == Some(chunks[i])
  {
    if i == 0 {
    } else {
      ChunkFound(chunks[1..], i - 1);
    }
  }

  lemma OneChunk(held: seq<seq<Message>>)
    requires |held| == 1
    ensures Retained(held) == held[0] && Before(held, 0) == 0
  {
    assert Retained(held) == held[0] + Retained([]) == held[0];
    assert held[..0] == [];
  }

  /** Once lookup has found chunk k, its index gives the message. */
  lemma {:induction false} RefInChunk(chunks: seq<Chunk>, held: seq<seq<Message>>, n: int, k: nat)
    requires chunks != [] && Holds(chunks, held) && k < |held|
    requires Lookup(n, MakeTree(Spans(chunks, 0))) == Some(Spans(chunks, 0)[k]) && n >= Before(held, k)
    requires SpanIs(held, 0, k, chunks[k].num, Spans(chunks, 0)[k])
    ensures n < Before(held, k + 1) ==> n < |Retained(held)| && Ref(chunks, n) == Some(Retained(held)[n])
    ensures n >= Before(held, k + 1) ==> Ref(chunks, n) == None
  {
    hide DataOf, IndexOf, ReadIndexed, Small, MakeTree, Spans, Lookup;
    BeforeNext(held, k);
    ChunkFound(chunks, k);
    var at := n - Before(held, k);
    IndexedIsNth(held[k], at);
    if at < |held[k]| { RetainedAt(held, k, at); }
  }

  /** Every flat reference, through spans, tree, lookup, index and read, gives
      exactly the N-th retained message, and fails for all other numbers. */
  lemma {:induction false} RefIsNth(chunks: seq<Chunk>, held: seq<seq<Message>>, n: int)
    requires chunks != [] && Holds(chunks, held)
    ensures Ref(chunks, n) == if 0 <= n < |Retained(held)| then Some(Retained(held)[n]) else None
  {
    hide DataOf, IndexOf, ReadIndexed, Small, MakeTree, Spans, Retained;
    var s := Spans(chunks, 0);
    SpansAre(chunks, held, 0);
    SpansContiguous(chunks, held);
    var k := LookupFinds(s, n);
    if InRange(n, RangeOf(s)) {
      RefInChunk(chunks, held, n, k);
    } else if |chunks| == 1 && n >= 0 {
      OneChunk(held);
      RefInChunk(chunks, held, n, 0);
    }
  }

  /** The span of the whole tree numbers all retained messages. */
  lemma {:induction false} SpanIsAll(chunks: seq<Chunk>, held: seq<seq<Message>>)
    requires chunks != [] && Holds(chunks, held)
    ensures TreeSpan(MakeTree(Spans(chunks, 0))) == Range(0, |Retained(held)|)
  {
    hide DataOf, IndexOf, Small, Spans, Retained, Contiguous;
    SpansAre(chunks, held, 0);
    SpansContiguous(chunks, held);
    TreeSpanIsRange(Spans(chunks, 0));
  }

  /** What is played is what was recorded: flat references number the newest
      messages of everything ever recorded, as many as pruning has kept. */
  lemma {:induction false} PlayedIsRecorded(chunks: seq<Chunk>, held: seq<seq<Message>>, all: seq<Message>, n: int)
    requires chunks != [] && Holds(chunks, held) && Kept(held, all)
    ensures var first := |all| - TreeSpan(MakeTree(Spans(chunks, 0))).endx;
            first >= 0 && Ref(chunks, n) == if 0 <= n < |all| - first then Some(all[first + n]) else None
  {
    hide DataOf, IndexOf, Small, Spans, Retained, MakeTree, Ref, Holds;
    SpanIsAll(chunks, held);
    RefIsNth(chunks, held, n);
    if 0 <= n < |Retained(held)| {
      assert all[|all| - |Retained(held)|..][n] == Retained(held)[n];
    }
  }

  /** Record any messages over any directory, then refer to them by number: each
      retained number gives its message, counted back from the last one recorded. */
  lemma {:induction false} RecordThenPlay(dir: seq<Chunk>, inDir: seq<seq<Message>>, ms: seq<Message>, chunkSize: nat,
                                          nbBytes: nat, n: int)
    requires Holds(dir, inDir) && chunkSize < U32 && forall i :: 0 <= i < |ms| ==> |ms[i]| + 8 < U32
    ensures var chunks := RecordAll(NewFile(dir, nbBytes), ms, chunkSize, nbBytes);
            var all := Retained(inDir) + ms;
            var first := |all| - TreeSpan(MakeTree(Spans(chunks, 0))).endx;
            first >= 0 && Ref(chunks, n) == if 0 <= n < |all| - first then Some(all[first + n]) else None
  {
    hide Holds, Ref, MakeTree, Spans, TreeSpan, RecordAll, Pruned, Retained;
    var all := Retained(inDir);
    assert Kept(inDir, all) by { assert all[0..] == all; }
    hide Kept;
    var kept := PruneKeeps(dir, inDir, all, nbBytes);
    AddEmpty(Pruned(dir, nbBytes), kept, all);
    var held := RecordingHolds(NewFile(dir, nbBytes), kept + [[]], all, ms, chunkSize, nbBytes);
    PlayedIsRecorded(RecordAll(NewFile(dir, nbBytes), ms, chunkSize, nbBytes), held, all + ms, n);
  }

  // ---- The file cursor inside a chunk ----

  /** take/2: the next n messages. */
  function Take(data: Data, pos: nat, n: nat): Option<seq<Message>>
    decreases n
  {
    if n == 0 then Some([])
    else
      var got := ReadNext(data, pos);
      if got.None? then None
      else
        var rest := Take(data, got.value.at, n - 1);
        if rest.None? then None else Some([got.value.m] + rest.value)
  }

  /** The previous n messages, newest first. */
  function TakeBack(data: Data, pos: nat, n: nat): Option<seq<Message>>
    decreases n
  {
    if n == 0 then Some([])
    else
      var got := ReadPrev(data, pos);
      if got.None? then None
      else
        var rest := TakeBack(data, got.value.at, n - 1);
        if rest.None? then None else Some([got.value.m] + rest.value)
  }

  function Reverse(ms: seq<Message>): (r: seq<Message>)
    ensures |r| == |ms|
  {
    if ms == [] then [] else [ms[|ms| - 1]] + Reverse(ms[..|ms| - 1])
  }

  lemma {:induction false} TakeIsSlice(ms: seq<Message>, i: nat, n: nat)
    requires i + n <= |ms| && Small(ms)
    ensures Take(DataOf(ms), Offset(ms, i), n) == Some(ms[i..i + n])
    decreases n
  {
    hide ReadNext, DataOf, Offset, Small;
    if n == 0 {
      assert ms[i..i + n] == [];
    } else {
      NextThenPrev(ms, i);
      TakeIsSlice(ms, i + 1, n - 1);
      assert ms[i..i + n] == [ms[i]] + ms[i + 1..i + n];
    }
  }

  /** Playing a stretch of a chunk backwards gives the same messages in reverse. */
  lemma {:induction false} BackIsReverse(ms: seq<Message>, i: nat, n: nat)
    requires i + n <= |ms| && Small(ms)
    ensures TakeBack(DataOf(ms), Offset(ms, i + n), n) == Some(Reverse(ms[i..i + n]))
    decreases n
  {
    hide ReadPrev, DataOf, Offset, Small;
    if n == 0 {
    } else {
      NextThenPrev(ms, i + n - 1);
      BackIsReverse(ms, i, n - 1);
      assert ms[i..i + n][..n - 1] == ms[i..i + n - 1];
    }
  }

  /** The open data file of a player, positioned between two messages. */
  class Cursor {
    const data: Data
    var pos: nat
    ghost const ms: seq<Message>

    ghost predicate Valid()
      reads this
    {
      data == DataOf(ms) && Small(ms)
    }

    ghost predicate AtMessage(i: nat)
      reads this
    {
      i <= |ms| && pos == Offset(ms, i)
    }

    constructor (data: Data, ghost ms: seq<Message>)
      requires data == DataOf(ms) && Small(ms)
      ensures Valid() && AtMessage(0) && this.ms == ms && this.data == data
    {
      this.data, this.pos, this.ms := data, 0, ms;
      assert ms[..0] == [];
    }

    /** next, up to the end of the chunk. */
    method Next(ghost i: nat) returns (r: Option<Message>)
      requires Valid() && AtMessage(i)
      modifies this`pos
      ensures Valid()
      ensures r == (if i < |ms| then Some(ms[i]) else None)
      ensures AtMessage(if i < |ms| then i + 1 else i)
    {
      var got := ReadNext(data, pos);
      if i < |ms| {
        NextThenPrev(ms, i);
      } else {
        assert ms[..i] == ms;
      }
      if got.None? { return None; }
      pos := got.value.at;
      r := Some(got.value.m);
    }

    /** prev, down to the beginning of the chunk. */
    method Prev(ghost i: nat) returns (r: Option<Message>)
      requires Valid() && AtMessage(i)
      modifies this`pos
      ensures Valid()
      ensures r == (if i > 0 then Some(ms[i - 1]) else None)
      ensures AtMessage(if i > 0 then i - 1 else i)
    {
      var got := ReadPrev(data, pos);
      if i > 0 {
        NextThenPrev(ms, i - 1);
      } else {
        assert ms[..0] == [];
      }
      if got.None? { return None; }
      pos := got.value.at;
      r := Some(got.value.m);
    }
  }

  // ---- Bisection on time stamps ----

  /** erlang:timestamp() */
  datatype Stamp = Stamp(mega: nat, sec: nat, micro: nat)

  function NowMs(t: Stamp): nat {
    (t.mega * 10000000 + t.sec) * 10000000 + t.micro
  }

  predicate Proper(t: Stamp) {
    t.sec < 1000000 && t.micro < 1000000
  }

  predicate Earlier(a: Stamp, b: Stamp) {
    a.mega < b.mega || (a.mega == b.mega && (a.sec < b.sec || (a.sec == b.sec && a.micro < b.micro)))
  }

  /** Though the factor is ten times the base of the parts, now_ms keeps their order.  Its
      value is not a time: a second counts ten million. */
  lemma NowMsKeepsOrder(a: Stamp, b: Stamp)
    requires Proper(a) && Proper(b)
    ensures NowMs(a) < NowMs(b) <==> Earlier(a, b)
    ensures NowMs(a) == 100_000_000_000_000 * a.mega + 10_000_000 * a.sec + a.micro
  {
  }

  /** bisect_ over the stamps of messages left..right. */
  function Bisect(t: Stamp, stamps: seq<Stamp>, left: nat, right: nat): (nat, nat)
    requires left <= right < |stamps|
    decreases right - left
  {
    if right - left < 2 then (left, right)
    else
      var mid := (left + right) / 2;
      if NowMs(t) < NowMs(stamps[mid]) then Bisect(t, stamps, left, mid) else Bisect(t, stamps, mid, right)
  }

  ghost predicate InOrder(stamps: seq<Stamp>) {
    && (forall i :: 0 <= i < |stamps| ==> Proper(stamps[i]))
    && (forall i, j :: 0 <= i < j < |stamps| ==> !Earlier(stamps[j], stamps[i]))
  }

  /** l and r are the same or neighbours, and between left and right exclusive
      everything up to l is not after t, everything from r on is after t. */
  ghost predicate Splits(t: Stamp, stamps: seq<Stamp>, left: nat, right: nat, l: nat, r: nat)
    requires right < |stamps|
  {
    && left <= l <= r <= right && r - l < 2
    && (forall i :: left < i <= l ==> !Earlier(t, stamps[i]))
    && (forall i :: r <= i < right ==> Earlier(t, stamps[i]))
  }

  lemma {:induction false} BisectSplits(t: Stamp, stamps: seq<Stamp>, left: nat, right: nat)
    requires left <= right < |stamps| && InOrder(stamps) && Proper(t)
    ensures var lr := Bisect(t, stamps, left, right); Splits(t, stamps, left, right, lr.0, lr.1)
    decreases right - left
  {
    if right - left >= 2 {
      var mid := (left + right) / 2;
      NowMsKeepsOrder(t, stamps[mid]);
      if NowMs(t) < NowMs(stamps[mid]) {
        BisectSplits(t, stamps, left, mid);
        forall i | mid <= i < right ensures Earlier(t, stamps[i]) {}
      } else {
        BisectSplits(t, stamps, mid, right);
        forall i | left < i <= mid ensures !Earlier(t, stamps[i]) {}
      }
    }
  }

  /** bisect_ as it runs: each stamp is fetched by a flat reference. */
  function BisectLog(t: Stamp, chunks: seq<Chunk>, stampOf: Message -> Stamp, left: nat, right: nat): Option<(nat, nat)>
    requires chunks != [] && left <= right
    decreases right - left
  {
    if right - left < 2 then Some((left, right))
    else
      var mid := (left + right) / 2;
      var m := Ref(chunks, mid);
      if m.None? then None
      else if NowMs(t) < NowMs(stampOf(m.value)) then BisectLog(t, chunks, stampOf, left, mid)
      else BisectLog(t, chunks, stampOf, mid, right)
  }

  /** Bisecting a recorded log whose stamps are in order splits it at the given time. */
  lemma {:induction false} BisectLogSplits(t: Stamp, chunks: seq<Chunk>, held: seq<seq<Message>>,
                                           stampOf: Message -> Stamp, stamps: seq<Stamp>, left: nat, right: nat)
    requires chunks != [] && Holds(chunks, held) && left <= right < |Retained(held)|
    requires |stamps| == |Retained(held)| && forall i :: 0 <= i < |stamps| ==> stamps[i] == stampOf(Retained(held)[i])
    requires InOrder(stamps) && Proper(t)
    ensures var lr := BisectLog(t, chunks, stampOf, left, right);
            lr.Some? && Splits(t, stamps, left, right, lr.value.0, lr.value.1)
    decreases right - left
  {
    hide Ref, Holds, Retained, NowMs, InOrder, Proper, Splits;
    BisectSplits(t, stamps, left, right);
    BisectReads(t, chunks, held, stampOf, stamps, left, right);
  }

  lemma {:induction false} BisectReads(t: Stamp, chunks: seq<Chunk>, held: seq<seq<Message>>, stampOf: Message -> Stamp,
                                       stamps: seq<Stamp>, left: nat, right: nat)
    requires chunks != [] && Holds(chunks, held) && left <= right < |Retained(held)|
    requires |stamps| == |Retained(held)| && forall i :: 0 <= i < |stamps| ==> stamps[i] == stampOf(Retained(held)[i])
    ensures BisectLog(t, chunks, stampOf, left, right) == Some(Bisect(t, stamps, left, right))
    decreases right - left
  {
    hide Ref, Holds, Retained, NowMs;
    if right - left >= 2 {
      var mid := (left + right) / 2;
      RefIsNth(chunks, held, mid);
      if NowMs(t) < NowMs(stamps[mid]) {
        BisectReads(t, chunks, held, stampOf, stamps, left, mid);
      } else {
        BisectReads(t, chunks, held, stampOf, stamps, mid, right);
      }
    }
  }
}
