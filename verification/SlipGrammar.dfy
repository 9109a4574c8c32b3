/** What SLIP bytes mean, unit by unit (section "PROTOCOL" of RFC 1055, with its four
    special characters as numbers), and the proof that the decoder follows it. */
module SlipGrammar {
  import opened Bytes
  import opened Slip

  /** Stray: an escape before anything but the two escaped characters. */
  datatype Unit = Plain(b: byte) | EscapedEnd | EscapedEsc | Stray

  function UnitBytes(u: Unit): (bs: Data)
    ensures bs != []
  {
    match u
    case Plain(b) => [b]
    case EscapedEnd => [219, 220]
    case EscapedEsc => [219, 221]
    case Stray => [219]
  }

  /** What a unit adds to the packet; a stray escape adds nothing. */
  function UnitMeans(u: Unit): Data {
    match u
    case Plain(b) => [b]
    case EscapedEnd => [192]
    case EscapedEsc => [219]
    case Stray => []
  }

  function AllBytes(us: seq<Unit>): Data {
    if us == [] then [] else UnitBytes(us[0]) + AllBytes(us[1..])
  }

  function AllMean(us: seq<Unit>): Data {
    if us == [] then [] else UnitMeans(us[0]) + AllMean(us[1..])
  }

  /** Plain units are not special, and what follows a stray escape is not one of the
      escaped characters; it is a unit of its own. */
  predicate Proper(us: seq<Unit>, tail: Data) {
    us != [] ==>
      && Proper(us[1..], tail)
      && var rest := AllBytes(us[1..]) + tail;
         match us[0]
         case Plain(b) => b != 192 && b != 219
         case Stray => rest != [] && rest[0] != 220 && rest[0] != 221
         case _ => true
  }

  /** The bytes are units, an END, and some rest. */
  ghost predicate Splits(bytes: Data, us: seq<Unit>, rest: Data) {
    bytes == AllBytes(us) + ([192] + rest) && Proper(us, [192] + rest)
  }

  lemma SplitsMore(bytes: Data, u: Unit, us: seq<Unit>, rest: Data)
    requires Splits(bytes, us, rest) && UnitBytes(u) + bytes != []
    requires match u
             case Plain(b) => b != 192 && b != 219
             case Stray => bytes != [] && bytes[0] != 220 && bytes[0] != 221
             case _ => true
    ensures Splits(UnitBytes(u) + bytes, [u] + us, rest) && AllMean([u] + us) == UnitMeans(u) + AllMean(us)
  {
    assert ([u] + us)[1..] == us;
    assert UnitBytes(u) + (AllBytes(us) + ([192] + rest)) == UnitBytes(u) + AllBytes(us) + ([192] + rest);
  }

  lemma {:induction false} DecodedSplits(bytes: Data, got: Data) returns (us: seq<Unit>)
    requires SlipDecode(bytes, got).Packet?
    ensures var d := SlipDecode(bytes, got); Splits(bytes, us, d.rest) && d.msg == got + AllMean(us)
    decreases |bytes|
  {
    var rest := SlipDecode(bytes, got).rest;
    if bytes[0] == 192 {
      us := [];
      assert bytes == [] + ([192] + rest) && got + [] == got;
    } else if bytes[0] != 219 {
      var more := DecodedSplits(bytes[1..], got + [bytes[0]]);
      us := Prepend(bytes, got, Plain(bytes[0]), bytes[1..], more, rest);
    } else if bytes[1] == 220 {
      var more := DecodedSplits(bytes[2..], got + [192]);
      us := Prepend(bytes, got, EscapedEnd, bytes[2..], more, rest);
    } else if bytes[1] == 221 {
      var more := DecodedSplits(bytes[2..], got + [219]);
      us := Prepend(bytes, got, EscapedEsc, bytes[2..], more, rest);
    } else {
      var more := DecodedSplits(bytes[1..], got);
      assert got + [] == got;
      us := Prepend(bytes, got, Stray, bytes[1..], more, rest);
    }
  }

  lemma Prepend(bytes: Data, got: Data, u: Unit, tail: Data, more: seq<Unit>, rest: Data) returns (us: seq<Unit>)
    requires bytes == UnitBytes(u) + tail && Splits(tail, more, rest)
    requires match u
             case Plain(b) => b != 192 && b != 219
             case Stray => tail != [] && tail[0] != 220 && tail[0] != 221
             case _ => true
    ensures Splits(bytes, us, rest) && got + AllMean(us) == got + UnitMeans(u) + AllMean(more)
  {
    us := [u] + more;
    SplitsMore(tail, u, more, rest);
    assert got + (UnitMeans(u) + AllMean(more)) == got + UnitMeans(u) + AllMean(more);
  }

  lemma {:induction false} SplitDecodes(bytes: Data, got: Data, us: seq<Unit>, rest: Data)
    requires Splits(bytes, us, rest)
    ensures SlipDecode(bytes, got) == Packet(got + AllMean(us), rest)
    decreases |us|
  {
    if us == [] {
      assert bytes == [192] + rest && bytes[1..] == rest && got + [] == got;
    } else {
      var u, tail := us[0], AllBytes(us[1..]) + ([192] + rest);
      assert bytes == UnitBytes(u) + tail;
      assert got + UnitMeans(u) + AllMean(us[1..]) == got + AllMean(us);
      match u
      case Plain(b) =>
        assert bytes[1..] == tail;
        SplitDecodes(tail, got + [b], us[1..], rest);
      case EscapedEnd =>
        assert bytes[2..] == tail;
        SplitDecodes(tail, got + [192], us[1..], rest);
      case EscapedEsc =>
        assert bytes[2..] == tail;
        SplitDecodes(tail, got + [219], us[1..], rest);
      case Stray =>
        assert bytes[1..] == tail && got + [] == got;
        SplitDecodes(tail, got, us[1..], rest);
    }
  }

  /** The decoder takes a packet exactly where units and an END are, and gives what
      the units mean; otherwise it waits for more. */
  lemma DecodeIsExact(bytes: Data, msg: Data, rest: Data)
    ensures SlipDecode(bytes, []) == Packet(msg, rest) <==> exists us :: Splits(bytes, us, rest) && msg == AllMean(us)
  {
    hide SlipDecode;
    if SlipDecode(bytes, []) == Packet(msg, rest) {
      var us := DecodedSplits(bytes, []);
      assert [] + AllMean(us) == AllMean(us);
    }
    if us :| Splits(bytes, us, rest) && msg == AllMean(us) {
      SplitDecodes(bytes, [], us, rest);
      assert [] + AllMean(us) == AllMean(us);
    }
  }

  /** The units of an encoded packet: an END and an escape are escaped, and only those. */
  function UnitsOf(p: Data): seq<Unit> {
    if p == [] then []
    else [if p[0] == 192 then EscapedEnd else if p[0] == 219 then EscapedEsc else Plain(p[0])] + UnitsOf(p[1..])
  }

  /** An encoded packet is its units between two ENDs. */
  lemma {:induction false} EncodesUnits(p: Data)
    ensures SlipBody(p) == AllBytes(UnitsOf(p)) && SlipEncode(p) == [192] + AllBytes(UnitsOf(p)) + [192]
    ensures AllMean(UnitsOf(p)) == p
  {
    if p == [] {
    } else {
      EncodesUnits(p[1..]);
      var us := UnitsOf(p);
      assert us[1..] == UnitsOf(p[1..]);
      assert [p[0]] + p[1..] == p;
    }
  }

  /** Reception takes packet after packet that way, drops empty ones, and keeps what
      does not end a packet. */
  lemma ReceiveIsExact(bytes: Data)
    ensures forall us, rest | Splits(bytes, us, rest) ::
              var more := Receive(rest);
              Receive(bytes) == Received((if AllMean(us) == [] then [] else [AllMean(us)]) + more.packets, more.rest)
    ensures (forall us, rest :: !Splits(bytes, us, rest)) ==> Receive(bytes) == Received([], bytes)
  {
    hide Splits, AllMean;
    forall us, rest | Splits(bytes, us, rest)
      ensures var more := Receive(rest);
              Receive(bytes) == Received((if AllMean(us) == [] then [] else [AllMean(us)]) + more.packets, more.rest)
    {
      SplitDecodes(bytes, [], us, rest);
      assert [] + AllMean(us) == AllMean(us);
    }
    if SlipDecode(bytes, []).Packet? {
      var us := DecodedSplits(bytes, []);
    }
  }
}
