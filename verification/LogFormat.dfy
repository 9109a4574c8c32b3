/** The record format of the message log: packets with their size before and
    after, and an index of packet offsets per chunk (src/recorder.erl). */
module LogFormat {
  import opened Bytes
  import opened Collections

  type Message = Data

  /** <<Size:32>>, Bin, <<Size:32>> */
  function Packet(m: Message): (p: Data)
    ensures |p| == |m| + 8
  {
    BE32(|m|) + m + BE32(|m|)
  }

  /** The data file after recording some messages. */
  function DataOf(ms: seq<Message>): Data {
    if ms == [] then [] else DataOf(ms[..|ms| - 1]) + Packet(ms[|ms| - 1])
  }

  /** Where message i starts. */
  function Offset(ms: seq<Message>, i: nat): nat
    requires i <= |ms|
  {
    |DataOf(ms[..i])|
  }

  /** The index file: the offset of each message, 32-bit little-endian. */
  function IndexOf(ms: seq<Message>): (ix: Data)
    ensures |ix| == 4 * |ms|
  {
    if ms == [] then [] else IndexOf(ms[..|ms| - 1]) + LE32(Offset(ms, |ms| - 1))
  }

  lemma {:induction false} DataSplit(ms: seq<Message>, i: nat)
    requires i < |ms|
    ensures Offset(ms, i) + |ms[i]| + 8 == Offset(ms, i + 1) <= |DataOf(ms)|
    ensures DataOf(ms)[Offset(ms, i)..Offset(ms, i + 1)] == Packet(ms[i])
  {
    var n := |ms|;
    assert ms[..n] == ms;
    assert ms[..i + 1][..i] == ms[..i];
    if i < n - 1 {
      var front := ms[..n - 1];
      DataSplit(front, i);
      assert front[..i] == ms[..i] && front[..i + 1] == ms[..i + 1] && front[i] == ms[i];
    }
  }

  lemma {:induction false} IndexAt(ms: seq<Message>, i: nat)
    requires i < |ms|
    ensures IndexOf(ms)[4 * i..4 * i + 4] == LE32(Offset(ms, i))
  {
    var n := |ms|;
    var front := ms[..n - 1];
    if i < n - 1 {
      IndexAt(front, i);
      assert front[..i] == ms[..i];
      assert IndexOf(ms)[4 * i..4 * i + 4] == IndexOf(front)[4 * i..4 * i + 4];
    }
  }

  // ---- Reading at a position: player.erl next and prev ----

  /** A message and the position where the cursor is left. */
  datatype Got = Got(m: Message, at: nat)

  /** Read one packet forwards. */
  function ReadNext(data: Data, pos: nat): Option<Got> {
    var head := ReadAt(data, pos, 4);
    if head.None? then None
    else
      var size := FromBE32(head.value);
      var bin, tail := ReadAt(data, pos + 4, size), ReadAt(data, pos + 4 + size, 4);
      if bin.None? || tail.None? || FromBE32(tail.value) != size then None
      else Some(Got(bin.value, pos + size + 8))
  }

  /** Read one packet backwards. */
  function ReadPrev(data: Data, pos: nat): Option<Got> {
    if pos < 4 || pos > |data| then None
    else
      var size := FromBE32(data[pos - 4..pos]);
      if pos < size + 8 then None
      else
        var bin := ReadAt(data, pos - 4 - size, size);
        if bin.None? then None else Some(Got(bin.value, pos - size - 8))
  }

  ghost predicate Small(ms: seq<Message>) {
    |DataOf(ms)| < U32
  }

  lemma Parts(data: Data, pos: nat, h: Data, m: Data, t: Data)
    requires pos + |h| + |m| + |t| <= |data| && data[pos..pos + |h| + |m| + |t|] == h + m + t
    ensures data[pos..pos + |h|] == h
    ensures data[pos + |h|..pos + |h| + |m|] == m
    ensures data[pos + |h| + |m|..pos + |h| + |m| + |t|] == t
  {
    var end := pos + |h| + |m| + |t|;
    var p := data[pos..end];
    assert p[0..|h|] == h && p[|h|..|h| + |m|] == m && p[|h| + |m|..|p|] == t;
    SliceSlice(data, pos, end, 0, |h|);
    SliceSlice(data, pos, end, |h|, |h| + |m|);
    SliceSlice(data, pos, end, |h| + |m|, |p|);
  }

  lemma PacketParts(data: Data, pos: nat, m: Message)
    requires pos + |m| + 8 <= |data| && data[pos..pos + |m| + 8] == Packet(m)
    ensures data[pos..pos + 4] == BE32(|m|) == data[pos + 4 + |m|..pos + 8 + |m|]
    ensures data[pos + 4..pos + 4 + |m|] == m
  {
    Parts(data, pos, BE32(|m|), m, BE32(|m|));
  }

  /** A message between two copies of its size is read whole, from either end. */
  lemma ReadSized(data: Data, pos: nat, m: Message, end: nat, size: Data)
    requires end == pos + |m| + 8 <= |data| && |size| == 4 && FromBE32(size) == |m|
    requires data[pos..pos + 4] == size == data[pos + 4 + |m|..pos + 8 + |m|] && data[pos + 4..pos + 4 + |m|] == m
    ensures ReadNext(data, pos) == Some(Got(m, end))
    ensures ReadPrev(data, end) == Some(Got(m, pos))
  {
    assert end - 4 == pos + 4 + |m|;
  }

  lemma ReadPacket(data: Data, pos: nat, m: Message, end: nat)
    requires end == pos + |m| + 8 <= |data| && data[pos..end] == Packet(m) && |m| < U32
    ensures ReadNext(data, pos) == Some(Got(m, end))
    ensures ReadPrev(data, end) == Some(Got(m, pos))
  {
    PacketParts(data, pos, m);
    Round32(|m|);
    ReadSized(data, pos, m, end, BE32(|m|));
  }

  /** Between two copies of its size, some bytes are a packet. */
  lemma SizedIsPacket(data: Data, pos: nat, m: Message, size: Data)
    requires pos + |m| + 8 <= |data| && size == BE32(|m|)
    requires data[pos..pos + 4] == size == data[pos + 4 + |m|..pos + 8 + |m|] && data[pos + 4..pos + 4 + |m|] == m
    ensures data[pos..pos + |m| + 8] == Packet(m)
  {
    hide BE32;
    var p := data[pos..pos + |m| + 8];
    SliceSlice(data, pos, pos + |m| + 8, 0, 4);
    SliceSlice(data, pos, pos + |m| + 8, 4, 4 + |m|);
    SliceSlice(data, pos, pos + |m| + 8, 4 + |m|, 8 + |m|);
    assert p == p[0..4] + p[4..4 + |m|] + p[4 + |m|..8 + |m|];
  }

  /** Reading forwards succeeds exactly where a packet is, and returns its message. */
  lemma NextIsExact(data: Data, pos: nat, m: Message, end: nat)
    ensures ReadNext(data, pos) == Some(Got(m, end)) <==>
            |m| < U32 && end == pos + |m| + 8 <= |data| && data[pos..end] == Packet(m)
  {
    hide BE32, FromBE32, Packet;
    if ReadNext(data, pos) == Some(Got(m, end)) {
      var head, tail := data[pos..pos + 4], data[pos + 4 + |m|..pos + 8 + |m|];
      Exact32(head);
      Exact32(tail);
      SizedIsPacket(data, pos, m, head);
    }
    if |m| < U32 && end == pos + |m| + 8 <= |data| && data[pos..end] == Packet(m) { ReadPacket(data, pos, m, end); }
  }

  /** Reading backwards looks at the size behind the message only. */
  lemma PrevIsExact(data: Data, pos: nat, m: Message, at: nat)
    ensures ReadPrev(data, pos) == Some(Got(m, at)) <==>
            && pos <= |data| && pos == at + |m| + 8 && |m| < U32
            && data[at + 4..at + 4 + |m|] == m && data[pos - 4..pos] == BE32(|m|)
  {
    hide BE32, FromBE32;
    if 4 <= pos <= |data| { Exact32(data[pos - 4..pos]); }
    Round32IfSmall(|m|);
  }

  lemma Round32IfSmall(n: nat)
    ensures n < U32 ==> FromBE32(BE32(n)) == n
  {
    if n < U32 { Round32(n); }
  }

  /** At the start of message i, next reads it and moves to the next one; from
      there, prev reads the same message and moves back. */
  lemma NextThenPrev(ms: seq<Message>, i: nat)
    requires i < |ms| && Small(ms)
    ensures ReadNext(DataOf(ms), Offset(ms, i)) == Some(Got(ms[i], Offset(ms, i + 1)))
    ensures ReadPrev(DataOf(ms), Offset(ms, i + 1)) == Some(Got(ms[i], Offset(ms, i)))
  {
    DataSplit(ms, i);
    ReadPacket(DataOf(ms), Offset(ms, i), ms[i], Offset(ms, i + 1));
  }

  /** Indexed reference inside a chunk: ref_current. */
  function ReadIndexed(data: Data, index: Data, n: nat): Option<Message> {
    var at := ReadAt(index, 4 * n, 4);
    if at.None? then None
    else
      var r := ReadNext(data, FromLE32(at.value));
      if r.None? then None else Some(r.value.m)
  }

  lemma ReadIndexedAt(data: Data, index: Data, n: nat, word: Data, got: Got)
    requires |word| == 4 && 4 * n + 4 <= |index| && index[4 * n..4 * n + 4] == word
    requires ReadNext(data, FromLE32(word)) == Some(got)
    ensures ReadIndexed(data, index, n) == Some(got.m)
  {
  }

  /** It is the n-th message of the chunk, and fails past the end. */
  lemma IndexedIsNth(ms: seq<Message>, n: nat)
    requires Small(ms)
    ensures ReadIndexed(DataOf(ms), IndexOf(ms), n) == if n < |ms| then Some(ms[n]) else None
  {
    if n < |ms| {
      assert Offset(ms, n) < U32 by { DataSplit(ms, n); }
      IndexAt(ms, n);
      Round32(Offset(ms, n));
      NextThenPrev(ms, n);
      ReadIndexedAt(DataOf(ms), IndexOf(ms), n, LE32(Offset(ms, n)), Got(ms[n], Offset(ms, n + 1)));
    }
  }

  // ---- rs/src/etflog.rs ----

  /** get_u32_be */
  function GetU32(data: Data, offset: nat): Option<nat> {
    var s := ReadAt(data, offset, 4);
    if s.None? then None else Some(FromBE32(s.value))
  }

  /** The offsets met from o on when each size word says where the next packet is;
      none if a size word is cut off.  Sizes are not checked against what follows. */
  function Walk(data: Data, o: nat): Option<seq<nat>>
    decreases |data| - o
  {
    if o >= |data| then Some([])
    else
      var size := GetU32(data, o);
      if size.None? then None else Before([o], Walk(data, o + size.value + 8))
  }

  function Before(offsets: seq<nat>, rest: Option<seq<nat>>): Option<seq<nat>> {
    if rest.None? then None else Some(offsets + rest.value)
  }

  /** A whole size word at an offset, and the packet it begins ends at the next
      offset, or for the last one at or past the end. */
  ghost predicate LinkOk(data: Data, offsets: seq<nat>, i: nat)
    requires i < |offsets|
  {
    && offsets[i] + 4 <= |data|
    && var end := offsets[i] + FromBE32(data[offsets[i]..offsets[i] + 4]) + 8;
       if i + 1 < |offsets| then end == offsets[i + 1] < |data| else end >= |data|
  }

  ghost predicate Chain(data: Data, o: nat, offsets: seq<nat>) {
    && (offsets == [] <==> o >= |data|) && (offsets != [] ==> offsets[0] == o)
    && forall i :: 0 <= i < |offsets| ==> LinkOk(data, offsets, i)
  }

  /** The walk gives such offsets, and fails exactly where there are none. */
  lemma {:induction false} WalkIsChain(data: Data, o: nat, offsets: seq<nat>)
    ensures Walk(data, o) == Some(offsets) <==> Chain(data, o, offsets)
    decreases |data| - o
  {
    hide FromBE32;
    if o >= |data| {
    } else if GetU32(data, o).None? || offsets == [] {
      assert offsets != [] && LinkOk(data, offsets, 0) ==> offsets[0] + 4 <= |data|;
    } else {
      var next := o + GetU32(data, o).value + 8;
      WalkIsChain(data, next, offsets[1..]);
      ChainMore(data, o, next, offsets);
      WalkMore(data, o, next, offsets);
    }
  }

  lemma WalkMore(data: Data, o: nat, next: nat, offsets: seq<nat>)
    requires o < |data| && offsets != [] && GetU32(data, o).Some? && next == o + GetU32(data, o).value + 8
    ensures Walk(data, o) == Some(offsets) <==> offsets[0] == o && Walk(data, next) == Some(offsets[1..])
  {
    hide GetU32;
    assert [offsets[0]] + offsets[1..] == offsets;
    var rest := Walk(data, next);
    if rest.Some? { assert ([o] + rest.value)[1..] == rest.value && ([o] + rest.value)[0] == o; }
  }

  lemma ChainMore(data: Data, o: nat, next: nat, offsets: seq<nat>)
    requires o < |data| && offsets != [] && o + 4 <= |data| && next == o + FromBE32(data[o..o + 4]) + 8
    ensures Chain(data, o, offsets) <==> offsets[0] == o && Chain(data, next, offsets[1..])
  {
    hide FromBE32;
    var rest := offsets[1..];
    forall i | 0 < i < |offsets| ensures LinkOk(data, offsets, i) <==> LinkOk(data, rest, i - 1) {
      assert rest[i - 1] == offsets[i];
      if i + 1 < |offsets| { assert rest[i] == offsets[i + 1]; }
    }
    if Chain(data, o, offsets) {
      assert LinkOk(data, offsets, 0);
      forall i | 0 <= i < |rest| ensures LinkOk(data, rest, i) { assert LinkOk(data, offsets, i + 1); }
    }
    if offsets[0] == o && Chain(data, next, rest) {
      forall i | 0 <= i < |offsets| ensures LinkOk(data, offsets, i) {
        if i > 0 { assert LinkOk(data, rest, i - 1); }
      }
    }
  }

  lemma BeforeNone(rest: Option<seq<nat>>)
    ensures Before([], rest) == rest
  {
    if rest.Some? { assert [] + rest.value == rest.value; }
  }

  lemma BeforeTwice(a: seq<nat>, b: seq<nat>, rest: Option<seq<nat>>)
    ensures Before(a, Before(b, rest)) == Before(a + b, rest)
  {
    if rest.Some? { assert a + (b + rest.value) == a + b + rest.value; }
  }

  function Low32(offsets: seq<nat>): seq<nat> {
    seq(|offsets|, i requires 0 <= i < |offsets| => offsets[i] % U32)
  }

  /** make_index_u32, on any bytes; None where the source panics. */
  method MakeIndex(data: Data) returns (r: Option<seq<nat>>)
    ensures r == match Walk(data, 0) case None => None case Some(offsets) => Some(Low32(offsets))
  {
    var vec := [];
    ghost var offsets: seq<nat> := [];
    var o := 0;
    BeforeNone(Walk(data, 0));
    while o < |data|
      invariant vec == Low32(offsets)
      invariant Walk(data, 0) == Before(offsets, Walk(data, o))
      decreases |data| - o
    {
      var size := GetU32(data, o);
      if size.None? {
        return None;
      }
      BeforeTwice(offsets, [o], Walk(data, o + size.value + 8));
      vec := vec + [o % U32];
      offsets := offsets + [o];
      o := o + size.value + 8;
    }
    assert Walk(data, o) == Some([]) && offsets + [] == offsets;
    return Some(vec);
  }

  function Offsets(ms: seq<Message>): seq<nat> {
    seq(|ms|, i requires 0 <= i < |ms| => Offset(ms, i))
  }

  /** Over whole packets the walk stops at each; what follows them decides the rest. */
  lemma {:induction false} WalkPasses(ms: seq<Message>, tail: Data, i: nat)
    requires i <= |ms| && Small(ms)
    ensures var data := DataOf(ms) + tail;
            Walk(data, Offset(ms, i)) == Before(Offsets(ms)[i..], Walk(data, |DataOf(ms)|))
    decreases |ms| - i
  {
    hide Walk, Before, GetU32, DataOf, Small;
    if i == |ms| {
      assert ms[..i] == ms && Offsets(ms)[i..] == [];
      BeforeNone(Walk(DataOf(ms) + tail, |DataOf(ms)|));
    } else {
      var data, end, o, next := DataOf(ms) + tail, |DataOf(ms)|, Offset(ms, i), Offset(ms, i + 1);
      WalkPasses(ms, tail, i + 1);
      SizeWord(ms, tail, i);
      WalkStep(data, o, next);
      BeforeTwice([o], Offsets(ms)[i + 1..], Walk(data, end));
      assert Offsets(ms)[i..] == [o] + Offsets(ms)[i + 1..];
    }
  }

  lemma WalkStep(data: Data, o: nat, next: nat)
    requires o < |data| && next >= o + 8 && GetU32(data, o) == Some(next - o - 8)
    ensures Walk(data, o) == Before([o], Walk(data, next))
  {
  }

  lemma SizeAt(data: Data, pos: nat, m: Message)
    requires pos + |m| + 8 <= |data| && data[pos..pos + |m| + 8] == Packet(m) && |m| < U32
    ensures GetU32(data, pos) == Some(|m|)
  {
    PacketParts(data, pos, m);
    Round32(|m|);
    hide BE32, FromBE32, Packet;
  }

  lemma SizeWord(ms: seq<Message>, tail: Data, i: nat)
    requires i < |ms| && Small(ms)
    ensures Offset(ms, i) < |DataOf(ms)| && Offset(ms, i + 1) >= Offset(ms, i) + 8
    ensures GetU32(DataOf(ms) + tail, Offset(ms, i)) == Some(Offset(ms, i + 1) - Offset(ms, i) - 8)
  {
    DataSplit(ms, i);
    hide DataOf, Offset, Packet, GetU32;
    var whole, o, next := DataOf(ms), Offset(ms, i), Offset(ms, i + 1);
    assert (whole + tail)[o..next] == whole[o..next];
    SizeAt(whole + tail, o, ms[i]);
  }

  /** On a recorded chunk the walk gives the offset of every message. */
  lemma WalkIsOffsets(ms: seq<Message>)
    requires Small(ms)
    ensures Walk(DataOf(ms), 0) == Some(Offsets(ms))
  {
    WholeWalk(ms, []);
    assert DataOf(ms) + [] == DataOf(ms);
    assert Walk(DataOf(ms), |DataOf(ms)|) == Some([]) && Offsets(ms) + [] == Offsets(ms);
  }

  lemma WholeWalk(ms: seq<Message>, tail: Data)
    requires Small(ms)
    ensures Walk(DataOf(ms) + tail, 0) == Before(Offsets(ms), Walk(DataOf(ms) + tail, |DataOf(ms)|))
  {
    WalkPasses(ms, tail, 0);
    assert ms[..0] == [] && Offsets(ms)[0..] == Offsets(ms);
  }

  /** On a chunk whose last packet is cut short, the walk also lists the incomplete
      packet if its first size word is there, and fails if that word is cut itself. */
  lemma TruncatedIsListed(ms: seq<Message>, m: Message, tail: Data)
    requires Small(ms) && |m| < U32 && 0 < |tail| < |m| + 8 && tail == Packet(m)[..|tail|]
    ensures Walk(DataOf(ms) + tail, 0) == if |tail| < 4 then None else Some(Offsets(ms) + [|DataOf(ms)|])
  {
    WholeWalk(ms, tail);
    WalkCut(DataOf(ms), m, tail);
  }

  lemma WalkCut(data: Data, m: Message, tail: Data)
    requires |m| < U32 && 0 < |tail| < |m| + 8 && tail == Packet(m)[..|tail|]
    ensures Walk(data + tail, |data|) == if |tail| < 4 then None else Some([|data|])
  {
    var o := |data|;
    if |tail| >= 4 {
      Round32(|m|);
      CutSize(data, m, tail);
      assert Walk(data + tail, o + |m| + 8) == Some([]);
      assert [o] + [] == [o];
    }
  }

  lemma CutSize(data: Data, m: Message, tail: Data)
    requires 4 <= |tail| <= |m| + 8 && tail == Packet(m)[..|tail|]
    ensures GetU32(data + tail, |data|) == Some(FromBE32(BE32(|m|)))
  {
    hide BE32, FromBE32;
    assert (data + tail)[|data|..|data| + 4] == tail[..4] == BE32(|m|);
  }

  /** save_index_u32: the offsets as 32-bit little-endian words. */
  function SaveIndex(offsets: seq<nat>): Data {
    if offsets == [] then [] else SaveIndex(offsets[..|offsets| - 1]) + LE32(offsets[|offsets| - 1])
  }

  /** The rebuilt index file is the one written while recording. */
  lemma RebuiltIndexIsRecorded(ms: seq<Message>)
    requires Small(ms)
    ensures Walk(DataOf(ms), 0).Some? && SaveIndex(Low32(Walk(DataOf(ms), 0).value)) == IndexOf(ms)
  {
    WalkIsOffsets(ms);
    OffsetsFit(ms);
    SavedOffsets(ms, Offsets(ms));
  }

  lemma OffsetsFit(ms: seq<Message>)
    requires Small(ms)
    ensures Low32(Offsets(ms)) == Offsets(ms)
  {
    forall i | 0 <= i < |ms| ensures Offset(ms, i) < U32 { DataSplit(ms, i); }
  }

  lemma {:induction false} SavedOffsets(ms: seq<Message>, offsets: seq<nat>)
    requires offsets == Offsets(ms)
    ensures SaveIndex(offsets) == IndexOf(ms)
  {
    if ms == [] {
    } else {
      var n := |ms|;
      var front := ms[..n - 1];
      assert offsets[..n - 1] == Offsets(front) by {
        forall i | 0 <= i < n - 1 ensures Offset(front, i) == Offset(ms, i) { assert front[..i] == ms[..i]; }
      }
      SavedOffsets(front, offsets[..n - 1]);
    }
  }

  /** verify_etf: sizes match, are not zero, and the term starts with 131. */
  function VerifyEtf(data: Data, offset: nat): Option<nat> {
    var size := GetU32(data, offset);
    if size.None? || offset + size.value + 8 > |data| then None
    else
      var size2 := GetU32(data, offset + 4 + size.value);
      if size2 != size || size.value == 0 || data[offset + 4] != 131 then None else size
  }

  /** scan_offset_etf finds the first offset in the range that verifies. */
  method ScanOffset(data: Data, offset: nat, endx: nat) returns (r: Option<nat>)
    ensures r.Some? ==> offset <= r.value < endx && VerifyEtf(data, r.value).Some?
    ensures r.Some? ==> forall o :: offset <= o < r.value ==> VerifyEtf(data, o).None?
    ensures r.None? ==> forall o :: offset <= o < endx ==> VerifyEtf(data, o).None?
  {
    var o := offset;
    while o < endx
      invariant offset <= o
      invariant forall k :: offset <= k < o && k < endx ==> VerifyEtf(data, k).None?
    {
      if VerifyEtf(data, o).Some? {
        return Some(o);
      }
      o := o + 1;
    }
    return None;
  }

  lemma VerifySized(data: Data, pos: nat, m: Message, size: Data)
    requires pos + |m| + 8 <= |data| && |size| == 4 && FromBE32(size) == |m| && m != [] && m[0] == 131
    requires data[pos..pos + 4] == size == data[pos + 4 + |m|..pos + 8 + |m|] && data[pos + 4] == m[0]
    ensures VerifyEtf(data, pos) == Some(|m|)
  {
  }

  /** What verifies lies inside the file, however large the size found there. */
  lemma VerifiedIsInside(data: Data, offset: nat)
    ensures VerifyEtf(data, offset).Some? ==> offset + VerifyEtf(data, offset).value + 8 <= |data|
  {
  }

  /** An offset verifies exactly if a packet with a non-empty term starts there. */
  lemma VerifiesExactly(data: Data, offset: nat, m: Message)
    requires offset + |m| + 8 <= |data| && m == data[offset + 4..offset + 4 + |m|]
    ensures VerifyEtf(data, offset) == Some(|m|) <==>
            |m| < U32 && m != [] && m[0] == 131 && data[offset..offset + |m| + 8] == Packet(m)
  {
    hide BE32, FromBE32, Packet;
    var head, tail := data[offset..offset + 4], data[offset + 4 + |m|..offset + 8 + |m|];
    if VerifyEtf(data, offset) == Some(|m|) {
      Exact32(head);
      Exact32(tail);
      SizedIsPacket(data, offset, m, head);
    }
    if |m| < U32 && m != [] && m[0] == 131 && data[offset..offset + |m| + 8] == Packet(m) {
      PacketParts(data, offset, m);
      Round32(|m|);
      VerifySized(data, offset, m, BE32(|m|));
    }
  }

  /** Every recorded term verifies at its offset, so a scan never passes a message. */
  lemma RecordedVerifies(ms: seq<Message>, i: nat)
    requires i < |ms| && Small(ms) && ms[i] != [] && ms[i][0] == 131
    ensures VerifyEtf(DataOf(ms), Offset(ms, i)) == Some(|ms[i]|)
  {
    var data, pos, m := DataOf(ms), Offset(ms, i), ms[i];
    DataSplit(ms, i);
    PacketParts(data, pos, m);
    Round32(|m|);
    assert data[pos + 4] == data[pos + 4..pos + 4 + |m|][0];
    VerifySized(data, pos, m, BE32(|m|));
  }
}
