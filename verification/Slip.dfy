/** SLIP framing over a raw port (src/gdbstub_hub.erl; section "PROTOCOL" of RFC
    1055): encoding, reception in arbitrary pieces, and the reply registry. */
module Slip {
  import opened Bytes
  import opened Collections

  const END: byte := 192
  const ESC: byte := 219
  const ESC_END: byte := 220
  const ESC_ESC: byte := 221

  function SlipBody(p: Data): Data {
    if p == [] then []
    else if p[0] == END then [ESC, ESC_END] + SlipBody(p[1..])
    else if p[0] == ESC then [ESC, ESC_ESC] + SlipBody(p[1..])
    else [p[0]] + SlipBody(p[1..])
  }

  function SlipEncode(p: Data): Data {
    [END] + SlipBody(p) + [END]
  }

  datatype Decoded = More | Packet(msg: Data, rest: Data)

  /** slip_decode/2.  An escape before anything else is dropped, and what follows
      it is looked at again. */
  function SlipDecode(bytes: Data, got: Data): (r: Decoded)
    ensures r.Packet? ==> |r.rest| < |bytes|
  {
    if bytes == [] then More
    else if bytes[0] == END then Packet(got, bytes[1..])
    else if bytes[0] != ESC then SlipDecode(bytes[1..], got + [bytes[0]])
    else if |bytes| == 1 then More
    else if bytes[1] == ESC_END then SlipDecode(bytes[2..], got + [END])
    else if bytes[1] == ESC_ESC then SlipDecode(bytes[2..], got + [ESC])
    else SlipDecode(bytes[1..], got)
  }

  /** What has been delivered, and what waits for more bytes. */
  datatype Received = Received(packets: seq<Data>, rest: Data)

  /** handle_packet: empty packets have no meaning. */
  function Delivered(msg: Data): seq<Data> {
    if msg == [] then [] else [msg]
  }

  /** decode_and_handle_packet: decode until more bytes are needed. */
  function Receive(bytes: Data): Received
    decreases |bytes|
  {
    match SlipDecode(bytes, [])
    case More => Received([], bytes)
    case Packet(msg, rest) =>
      var more := Receive(rest);
      Received(Delivered(msg) + more.packets, more.rest)
  }

  /** The state kept by the port's process, and the packets it has forwarded. */
  class Receiver {
    var rest: Data
    var forwarded: seq<Data>

    constructor ()
      ensures rest == [] && forwarded == []
    {
      rest, forwarded := [], [];
    }

    /** {Port, {data, Bin}} */
    method Data(bin: Data)
      modifies this
      ensures rest == Receive(old(rest) + bin).rest
      ensures forwarded == old(forwarded) + Receive(old(rest) + bin).packets
    {
      rest := rest + bin;
      ghost var all := Receive(rest);
      var r := SlipDecode(rest, []);
      while r.Packet?
        invariant r == SlipDecode(rest, []) && Receive(rest).rest == all.rest
        invariant forwarded + Receive(rest).packets == old(forwarded) + all.packets
        decreases |rest|
      {
        assert forwarded + (Delivered(r.msg) + Receive(r.rest).packets) ==
          forwarded + Delivered(r.msg) + Receive(r.rest).packets;
        if r.msg != [] {
          forwarded := forwarded + [r.msg];
        }
        rest := r.rest;
        r := SlipDecode(rest, []);
      }
    }
  }

  // ---- Reception does not depend on the pieces ----

  /** A decoded packet stays decoded when more bytes arrive. */
  lemma {:induction false} DecodeIsStable(bytes: Data, more: Data, got: Data)
    requires SlipDecode(bytes, got).Packet?
    ensures SlipDecode(bytes + more, got) == Packet(SlipDecode(bytes, got).msg, SlipDecode(bytes, got).rest + more)
  {
    var whole := bytes + more;
    assert whole[1..] == bytes[1..] + more;
    if bytes[0] == END {
    } else if bytes[0] != ESC {
      DecodeIsStable(bytes[1..], more, got + [bytes[0]]);
    } else {
      assert whole[2..] == bytes[2..] + more;
      if bytes[1] == ESC_END {
        DecodeIsStable(bytes[2..], more, got + [END]);
      } else if bytes[1] == ESC_ESC {
        DecodeIsStable(bytes[2..], more, got + [ESC]);
      } else {
        DecodeIsStable(bytes[1..], more, got);
      }
    }
  }

  /** Receiving in two pieces is receiving at once, well formed or not. */
  lemma {:induction false} ReceiveSplits(a: Data, b: Data)
    ensures Receive(a + b).packets == Receive(a).packets + Receive(Receive(a).rest + b).packets
    ensures Receive(a + b).rest == Receive(Receive(a).rest + b).rest
    decreases |a|
  {
    hide SlipDecode, Delivered;
    var d := SlipDecode(a, []);
    if d.Packet? {
      DecodeIsStable(a, b, []);
      ReceiveSplits(d.rest, b);
    }
  }

  /** Receiving piece after piece. */
  function ReceiveAll(pieces: seq<Data>, rest: Data): Received {
    if pieces == [] then Received([], rest)
    else
      var first := Receive(rest + pieces[0]);
      var more := ReceiveAll(pieces[1..], first.rest);
      Received(first.packets + more.packets, more.rest)
  }

  lemma {:induction false} PiecesFrom(pieces: seq<Data>, rest: Data)
    requires SlipDecode(rest, []).More?
    ensures ReceiveAll(pieces, rest) == Receive(rest + Concat(pieces))
  {
    hide SlipDecode, Delivered;
    if pieces == [] {
      assert rest + [] == rest;
    } else {
      var head, tail := rest + pieces[0], Concat(pieces[1..]);
      assert rest + Concat(pieces) == head + tail;
      ReceiveSplits(head, tail);
      RestNeedsMore(head);
      PiecesFrom(pieces[1..], Receive(head).rest);
    }
  }

  lemma {:induction false} RestNeedsMore(bytes: Data)
    ensures SlipDecode(Receive(bytes).rest, []).More?
    decreases |bytes|
  {
    var d := SlipDecode(bytes, []);
    if d.Packet? { RestNeedsMore(d.rest); }
  }

  /** However a byte stream is cut, the packets delivered and the remainder kept
      are those of receiving it in one piece. */
  lemma AnyPieces(pieces: seq<Data>)
    ensures ReceiveAll(pieces, []) == Receive(Concat(pieces))
  {
    PiecesFrom(pieces, []);
    assert [] + Concat(pieces) == Concat(pieces);
  }

  // ---- Encoded packets arrive ----

  lemma {:induction false} BodyDecodes(p: Data, rest: Data, got: Data)
    ensures SlipDecode(SlipBody(p) + [END] + rest, got) == Packet(got + p, rest)
  {
    var bytes := SlipBody(p) + [END] + rest;
    if p == [] {
      assert bytes[1..] == rest && got + p == got;
    } else {
      var tail := SlipBody(p[1..]) + [END] + rest;
      assert got + [p[0]] + p[1..] == got + p;
      if p[0] == END || p[0] == ESC { assert bytes[2..] == tail; } else { assert bytes[1..] == tail; }
      BodyDecodes(p[1..], rest, got + [p[0]]);
    }
  }

  /** After any noise, one END closes whatever was pending. */
  lemma {:induction false} EndCloses(noise: Data, rest: Data, got: Data)
    requires SlipDecode(noise, got).More?
    ensures var d := SlipDecode(noise + [END] + rest, got); d.Packet? && d.rest == rest
  {
    var bytes := noise + [END] + rest;
    if noise == [] {
      assert bytes[1..] == rest;
    } else {
      assert bytes[1..] == noise[1..] + [END] + rest;
      if noise[0] != ESC {
        EndCloses(noise[1..], rest, got + [noise[0]]);
      } else if |noise| == 1 {
        EndCloses([], rest, got);
      } else {
        assert bytes[2..] == noise[2..] + [END] + rest;
        if noise[1] == ESC_END {
          EndCloses(noise[2..], rest, got + [END]);
        } else if noise[1] == ESC_ESC {
          EndCloses(noise[2..], rest, got + [ESC]);
        } else {
          EndCloses(noise[1..], rest, got);
        }
      }
    }
  }

  /** Whatever is pending, an encoded packet is delivered behind at most one packet
      of leftovers, and nothing stays pending. */
  lemma Resynchronises(pending: Data, p: Data)
    requires SlipDecode(pending, []).More?
    ensures var r := Receive(pending + SlipEncode(p));
            r.rest == [] && exists junk :: r.packets == Delivered(junk) + Delivered(p)
  {
    var body := SlipBody(p) + [END];
    assert pending + SlipEncode(p) == pending + [END] + body;
    EndCloses(pending, body, []);
    BodyDecodes(p, [], []);
    assert body + [] == body && [] + p == p;
    assert Receive(body).packets == Delivered(p);
  }

  function Encodings(ps: seq<Data>): seq<Data> {
    if ps == [] then [] else [SlipEncode(ps[0])] + Encodings(ps[1..])
  }

  function NonEmpty(ps: seq<Data>): seq<Data> {
    if ps == [] then [] else Delivered(ps[0]) + NonEmpty(ps[1..])
  }

  lemma {:induction false} PacketsReceived(ps: seq<Data>)
    ensures Receive(Concat(Encodings(ps))) == Received(NonEmpty(ps), [])
  {
    if ps == [] {
    } else {
      PacketsReceived(ps[1..]);
      EncodedReceives(ps[0], Concat(Encodings(ps[1..])));
    }
  }

  lemma EncodedReceives(p: Data, rest: Data)
    ensures Receive(SlipEncode(p) + rest) == Received(Delivered(p) + Receive(rest).packets, Receive(rest).rest)
  {
    var tail := SlipBody(p) + [END] + rest;
    assert SlipEncode(p) + rest == [END] + tail && ([END] + tail)[1..] == tail;
    BodyDecodes(p, rest, []);
    assert [] + p == p;
    assert Receive([END] + tail) == Receive(tail);
  }

  /** Sending packets and cutting the stream anywhere delivers exactly the packets,
      in order; only empty ones vanish. */
  lemma SentIsReceived(ps: seq<Data>, pieces: seq<Data>)
    requires Concat(pieces) == Concat(Encodings(ps))
    ensures ReceiveAll(pieces, []) == Received(NonEmpty(ps), [])
    ensures (forall i :: 0 <= i < |ps| ==> ps[i] != []) ==> NonEmpty(ps) == ps
  {
    AnyPieces(pieces);
    PacketsReceived(ps);
    if forall i :: 0 <= i < |ps| ==> ps[i] != [] { NoneVanish(ps); }
  }

  lemma {:induction false} NoneVanish(ps: seq<Data>)
    requires forall i :: 0 <= i < |ps| ==> ps[i] != []
    ensures NonEmpty(ps) == ps
  {
    if ps == [] {
    } else {
      NoneVanish(ps[1..]);
      assert [ps[0]] + ps[1..] == ps;
    }
  }

  // ---- wait and unwait ----

  /** Terms waiting for a reply, by number. */
  type Waiting<T> = map<nat, T>

  ghost function TakenFrom<T>(w: Waiting<T>, n: nat): set<nat> {
    set i | i in w && i >= n
  }

  /** The first number from n that is free. */
  function FreeFrom<T>(w: Waiting<T>, n: nat): (k: nat)
    ensures k >= n && k !in w && forall i :: n <= i < k ==> i in w
    decreases TakenFrom(w, n)
  {
    if n in w then
      assert TakenFrom(w, n + 1) == TakenFrom(w, n) - {n};
      FreeFrom(w, n + 1)
    else n
  }

  function Wait<T>(w: Waiting<T>, term: T): (nat, Waiting<T>) {
    var n := FreeFrom(w, 0);
    (n, w[n := term])
  }

  /** A term is registered under the smallest number that is free, and nothing else changes. */
  lemma WaitIsLeast<T>(w: Waiting<T>, term: T)
    ensures var n := Wait(w, term).0;
            n !in w && (forall i: nat :: i < n ==> i in w) && Wait(w, term).1 == w[n := term]
  {
  }

  function Unwait<T>(w: Waiting<T>, n: nat): Option<(T, Waiting<T>)> {
    if n in w then Some((w[n], w - {n})) else None
  }

  datatype Use<T> = Register(term: T) | Reply(n: nat)

  /** Requests and replies in any order; a reply nobody waits for is an exception. */
  function UseAll<T>(w: Waiting<T>, uses: seq<Use<T>>): Option<Waiting<T>>
    decreases |uses|
  {
    if uses == [] then Some(w)
    else
      match uses[0]
      case Register(term) => UseAll(Wait(w, term).1, uses[1..])
      case Reply(n) =>
        var r := Unwait(w, n);
        if r.None? then None else UseAll(r.value.1, uses[1..])
  }

  ghost predicate Unanswered<T>(n: nat, uses: seq<Use<T>>) {
    forall i :: 0 <= i < |uses| ==> uses[i] != Reply(n)
  }

  /** A term waits under its number until the reply to it. */
  lemma {:induction false} StaysWaiting<T>(w: Waiting<T>, n: nat, uses: seq<Use<T>>)
    requires n in w && Unanswered(n, uses) && UseAll(w, uses).Some?
    ensures n in UseAll(w, uses).value && UseAll(w, uses).value[n] == w[n]
    decreases |uses|
  {
    if uses == [] {
    } else {
      assert uses[0] != Reply(n);
      assert Unanswered(n, uses[1..]) by {
        forall i | 0 <= i < |uses| - 1 ensures uses[1..][i] != Reply(n) { assert uses[1..][i] == uses[i + 1]; }
      }
      match uses[0]
      case Register(term) => StaysWaiting(Wait(w, term).1, n, uses[1..]);
      case Reply(m) => StaysWaiting(Unwait(w, m).value.1, n, uses[1..]);
    }
  }

  /** A reply gets the term that waited under its number and leaves every other
      pending request alone, whatever was registered and answered in between. */
  lemma UnwaitUndoesWait<T>(w: Waiting<T>, term: T, uses: seq<Use<T>>)
    requires var (n, w1) := Wait(w, term); Unanswered(n, uses) && UseAll(w1, uses).Some?
    ensures var (n, w1) := Wait(w, term);
            var w2 := UseAll(w1, uses).value;
            n !in w && Unwait(w2, n) == Some((term, w2 - {n})) && (uses == [] ==> w2 - {n} == w)
  {
    var (n, w1) := Wait(w, term);
    StaysWaiting(w1, n, uses);
    assert w1 - {n} == w;
  }
}
