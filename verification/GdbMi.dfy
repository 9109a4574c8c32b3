/** GDB/MI results (src/gdb.erl): the tokenizer's configuration and the stack
    parser, against printing. */
module GdbMi {
  import opened Collections
  import opened Tokenizer

  const MI := Config(
    map['\"' := Quote, '\\' := Escape,
        '{' := Token(Open), '}' := Token(Close), ',' := Token(Comma), '=' := Token(Equal)],
    ESCAPES)

  // ---- The parser ----

  /** What the parser builds: atoms, lists, {K,V} pairs, and {eq,K} holes. */
  datatype Item =
    | Str(text: string)
    | Lst(items: seq<Item>)
    | Pair(key: Item, value: Item)
    | Eq(key: Item)

  /** Put an item at the end of a queue; a hole at the end takes it as its value. */
  function Put(q: seq<Item>, x: Item): seq<Item> {
    if q != [] && q[|q| - 1].Eq? then q[..|q| - 1] + [Pair(q[|q| - 1].key, x)] else q + [x]
  }

  /** p/3.  Queues are in reading order, so closing one does not reverse it. */
  function P(toks: seq<Tok>, q: seq<Item>, stack: seq<seq<Item>>): Option<seq<Item>>
    decreases |toks|
  {
    if toks == [] then (if stack == [] then Some(q) else None)
    else
      var rest := toks[1..];
      match toks[0]
      case Atom(a) => if a == "" then P(rest, q, stack) else P(rest, Put(q, Str(a)), stack)
      case Ctl(Open) => P(rest, [], [q] + stack)
      case Ctl(Close) => if stack == [] then None else P(rest, Put(stack[0], Lst(q)), stack[1..])
      case Ctl(Equal) => if q == [] then None else P(rest, q[..|q| - 1] + [Eq(q[|q| - 1])], stack)
      case Ctl(Comma) => P(rest, q, stack)
      case _ => None
  }

  /** msg_parse/1 */
  function MsgParse(text: string): Option<seq<Item>> {
    var toks := Tokenize(MI, text);
    if toks.None? then None else P(toks.value, [], [])
  }

  // ---- Printing ----

  /** A value: a string, quoted or bare, or a list of results. */
  datatype Value = Text(text: string, quoted: bool) | Block(results: seq<Result>)

  /** A result: a value, with or without a key. */
  datatype Result = Single(value: Value) | Bind(key: string, value: Value)

  function ValueText(v: Value): string {
    match v
    case Text(s, quoted) => if quoted then QuotedText(s) else s
    case Block(rs) => "{" + ResultsText(rs) + "}"
  }

  function ResultText(r: Result): string {
    match r
    case Single(v) => ValueText(v)
    case Bind(k, v) => k + "=" + ValueText(v)
  }

  function ResultsText(rs: seq<Result>): string {
    if rs == [] then ""
    else if |rs| == 1 then ResultText(rs[0])
    else ResultText(rs[0]) + "," + ResultsText(rs[1..])
  }

  /** Keys and unquoted texts have no special characters. */
  predicate PrintableValue(v: Value) {
    match v
    case Text(s, quoted) => quoted || Plain(MI, s)
    case Block(rs) => forall i :: 0 <= i < |rs| ==> PrintableResult(rs[i])
  }

  predicate PrintableResult(r: Result) {
    PrintableValue(r.value) && (r.Bind? ==> Plain(MI, r.key))
  }

  predicate Printable(rs: seq<Result>) {
    forall i :: 0 <= i < |rs| ==> PrintableResult(rs[i])
  }

  /** The tree that the text stands for. */
  function ValueItem(v: Value): Item {
    match v
    case Text(s, _) => Str(s)
    case Block(rs) => Lst(ResultItems(rs))
  }

  function ResultItem(r: Result): Item {
    match r
    case Single(v) => ValueItem(v)
    case Bind(k, v) => Pair(Str(k), ValueItem(v))
  }

  function ResultItems(rs: seq<Result>): seq<Item> {
    if rs == [] then [] else [ResultItem(rs[0])] + ResultItems(rs[1..])
  }

  // ---- Tokens of a printed text ----

  /** Tokens emitted while reading a text, and the atom left pending. */
  datatype Emitted = Emitted(toks: seq<Tok>, atom: string)

  function Flushed(e: Emitted): seq<Tok> {
    e.toks + [Atom(e.atom)]
  }

  function EmitValue(v: Value): Emitted {
    match v
    case Text(s, _) => Emitted([], s)
    case Block(rs) => Emitted([Atom(""), Ctl(Open)] + Flushed(EmitResults(rs)) + [Ctl(Close)], "")
  }

  function EmitResult(r: Result): Emitted {
    match r
    case Single(v) => EmitValue(v)
    case Bind(k, v) => Emitted([Atom(k), Ctl(Equal)] + EmitValue(v).toks, EmitValue(v).atom)
  }

  function EmitResults(rs: seq<Result>): Emitted {
    if rs == [] then Emitted([], "")
    else if |rs| == 1 then EmitResult(rs[0])
    else
      var rest := EmitResults(rs[1..]);
      Emitted(Flushed(EmitResult(rs[0])) + [Ctl(Comma)] + rest.toks, rest.atom)
  }

  /** Reading a text from a fresh atom emits exactly these tokens. */
  ghost predicate Reads(text: string, e: Emitted) {
    forall rest, toks :: TokFld(MI, Normal, "", text + rest, toks) == TokFld(MI, Normal, e.atom, rest, toks + e.toks)
  }

  lemma ReadsThen(text: string, e: Emitted, ch: char, t: Control, rest: string, toks: seq<Tok>)
    requires Reads(text, e) && ch in MI.kinds && MI.kinds[ch] == Token(t)
    ensures TokFld(MI, Normal, "", text + [ch] + rest, toks) ==
            TokFld(MI, Normal, "", rest, toks + (Flushed(e) + [Ctl(t)]))
  {
    hide TokFld;
    assert text + [ch] + rest == text + ([ch] + rest);
    ControlReads(MI, ch, t, e.atom, rest, toks + e.toks);
    assert toks + e.toks + [Atom(e.atom), Ctl(t)] == toks + (Flushed(e) + [Ctl(t)]);
  }

  lemma {:induction false} ValueReads(v: Value)
    requires PrintableValue(v)
    ensures Reads(ValueText(v), EmitValue(v))
    decreases v
  {
    hide TokFld;
    match v
    case Text(s, quoted) =>
      forall rest, toks: seq<Tok>
        ensures TokFld(MI, Normal, "", ValueText(v) + rest, toks) == TokFld(MI, Normal, s, rest, toks + [])
      {
        assert toks + [] == toks && "" + s == s;
        if quoted { QuotedReads(MI, s, "", rest, toks); } else { PlainReads(MI, s, "", rest, toks); }
      }
    case Block(rs) =>
      ResultsRead(rs);
      var inner := ResultsText(rs);
      forall rest, toks: seq<Tok>
        ensures TokFld(MI, Normal, "", ValueText(v) + rest, toks) ==
                TokFld(MI, Normal, "", rest, toks + EmitValue(v).toks)
      {
        assert ValueText(v) + rest == "{" + (inner + "}" + rest);
        ControlReads(MI, '{', Open, "", inner + "}" + rest, toks);
        ReadsThen(inner, EmitResults(rs), '}', Close, rest, toks + [Atom(""), Ctl(Open)]);
        assert toks + [Atom(""), Ctl(Open)] + (Flushed(EmitResults(rs)) + [Ctl(Close)]) == toks + EmitValue(v).toks;
      }
  }

  lemma {:induction false} ResultReads(r: Result)
    requires PrintableResult(r)
    ensures Reads(ResultText(r), EmitResult(r))
    decreases r
  {
    hide TokFld;
    ValueReads(r.value);
    if r.Bind? {
      var k, v := r.key, r.value;
      forall rest, toks: seq<Tok>
        ensures TokFld(MI, Normal, "", ResultText(r) + rest, toks) ==
                TokFld(MI, Normal, EmitValue(v).atom, rest, toks + EmitResult(r).toks)
      {
        var tail := ValueText(v) + rest;
        assert ResultText(r) + rest == k + ("=" + tail) && "" + k == k;
        PlainReads(MI, k, "", "=" + tail, toks);
        ControlReads(MI, '=', Equal, k, tail, toks);
        assert toks + [Atom(k), Ctl(Equal)] + EmitValue(v).toks == toks + EmitResult(r).toks;
      }
    }
  }

  lemma {:induction false} ResultsRead(rs: seq<Result>)
    requires Printable(rs)
    ensures Reads(ResultsText(rs), EmitResults(rs))
    decreases rs
  {
    hide TokFld;
    if rs == [] {
      forall rest: string, toks: seq<Tok> ensures "" + rest == rest && toks + [] == toks {}
    } else {
      ResultReads(rs[0]);
      if |rs| > 1 {
        ResultsRead(rs[1..]);
        var e, e1 := EmitResult(rs[0]), EmitResults(rs[1..]);
        forall rest, toks: seq<Tok>
          ensures TokFld(MI, Normal, "", ResultsText(rs) + rest, toks) ==
                  TokFld(MI, Normal, e1.atom, rest, toks + EmitResults(rs).toks)
        {
          var tail := ResultsText(rs[1..]) + rest;
          assert ResultsText(rs) + rest == ResultText(rs[0]) + "," + tail;
          ReadsThen(ResultText(rs[0]), e, ',', Comma, tail, toks);
          assert toks + (Flushed(e) + [Ctl(Comma)]) + e1.toks == toks + EmitResults(rs).toks;
        }
      }
    }
  }

  /** A printed text is tokenized into its tokens. */
  lemma PrintedTokens(rs: seq<Result>)
    requires Printable(rs)
    ensures Tokenize(MI, ResultsText(rs)) == Some(Flushed(EmitResults(rs)))
  {
    ResultsRead(rs);
    assert ResultsText(rs) + "" == ResultsText(rs) && [] + EmitResults(rs).toks == EmitResults(rs).toks;
    assert TokFld(MI, Normal, "", ResultsText(rs) + "", []) ==
      TokFld(MI, Normal, EmitResults(rs).atom, "", [] + EmitResults(rs).toks);
  }

  // ---- Parsing them ----

  predicate NonEmptyValue(v: Value) {
    match v
    case Text(s, _) => s != ""
    case Block(rs) => forall i :: 0 <= i < |rs| ==> NonEmptyResult(rs[i])
  }

  predicate NonEmptyResult(r: Result) {
    NonEmptyValue(r.value) && (r.Bind? ==> r.key != "")
  }

  /** No string in the tree is empty. */
  predicate NonEmpty(rs: seq<Result>) {
    forall i :: 0 <= i < |rs| ==> NonEmptyResult(rs[i])
  }

  lemma {:induction false} ValueParses(v: Value, rest: seq<Tok>, q: seq<Item>, stack: seq<seq<Item>>)
    requires NonEmptyValue(v)
    ensures P(Flushed(EmitValue(v)) + rest, q, stack) == P(rest, Put(q, ValueItem(v)), stack)
    decreases v
  {
    var toks := Flushed(EmitValue(v)) + rest;
    match v
    case Text(s, _) =>
      assert toks == [Atom(s)] + rest && toks[1..] == rest;
    case Block(rs) =>
      var inner := Flushed(EmitResults(rs)) + ([Ctl(Close), Atom("")] + rest);
      assert toks == [Atom(""), Ctl(Open)] + inner;
      assert toks[1..] == [Ctl(Open)] + inner && ([Ctl(Open)] + inner)[1..] == inner;
      ResultsParse(rs, [Ctl(Close), Atom("")] + rest, [], [q] + stack);
      assert [] + ResultItems(rs) == ResultItems(rs);
      assert ([Ctl(Close), Atom("")] + rest)[1..] == [Atom("")] + rest && ([Atom("")] + rest)[1..] == rest;
      assert ([q] + stack)[1..] == stack;
  }

  lemma KeyParses(k: string, rest: seq<Tok>, q: seq<Item>, stack: seq<seq<Item>>)
    requires k != "" && (q == [] || !q[|q| - 1].Eq?)
    ensures P([Atom(k), Ctl(Equal)] + rest, q, stack) == P(rest, q + [Eq(Str(k))], stack)
  {
    var toks := [Atom(k), Ctl(Equal)] + rest;
    assert toks[1..] == [Ctl(Equal)] + rest && toks[1..][1..] == rest;
    assert (q + [Str(k)])[..|q|] == q;
  }

  lemma FillHole(q: seq<Item>, k: Item, x: Item)
    ensures Put(q + [Eq(k)], x) == q + [Pair(k, x)]
  {
    assert (q + [Eq(k)])[..|q|] == q;
  }

  lemma {:induction false} ResultParses(r: Result, rest: seq<Tok>, q: seq<Item>, stack: seq<seq<Item>>)
    requires NonEmptyResult(r) && (q == [] || !q[|q| - 1].Eq?)
    ensures P(Flushed(EmitResult(r)) + rest, q, stack) == P(rest, q + [ResultItem(r)], stack)
    decreases r
  {
    hide P;
    match r
    case Single(v) =>
      ValueParses(v, rest, q, stack);
    case Bind(k, v) =>
      var tail := Flushed(EmitValue(v)) + rest;
      assert Flushed(EmitResult(r)) + rest == [Atom(k), Ctl(Equal)] + tail;
      KeyParses(k, tail, q, stack);
      ValueParses(v, rest, q + [Eq(Str(k))], stack);
      FillHole(q, Str(k), ValueItem(v));
  }

  lemma {:induction false} ResultsParse(rs: seq<Result>, rest: seq<Tok>, q: seq<Item>, stack: seq<seq<Item>>)
    requires NonEmpty(rs) && (q == [] || !q[|q| - 1].Eq?)
    ensures P(Flushed(EmitResults(rs)) + rest, q, stack) == P(rest, q + ResultItems(rs), stack)
    decreases rs
  {
    if rs == [] {
      assert Flushed(EmitResults(rs)) + rest == [Atom("")] + rest && ([Atom("")] + rest)[1..] == rest;
      assert q + [] == q;
    } else {
      var x := ResultItem(rs[0]);
      NoHole(rs[0]);
      if |rs| == 1 {
        ResultParses(rs[0], rest, q, stack);
        assert ResultItems(rs) == [x];
      } else {
        var tail := Flushed(EmitResults(rs[1..])) + rest;
        assert Flushed(EmitResults(rs)) + rest == Flushed(EmitResult(rs[0])) + ([Ctl(Comma)] + tail);
        ResultParses(rs[0], [Ctl(Comma)] + tail, q, stack);
        assert ([Ctl(Comma)] + tail)[1..] == tail;
        ResultsParse(rs[1..], rest, q + [x], stack);
        assert q + [x] + ResultItems(rs[1..]) == q + ResultItems(rs);
      }
    }
  }

  lemma NoHole(r: Result)
    ensures !ResultItem(r).Eq?
  {
  }

  // ---- No string is lost or made up ----

  function Weight(x: Item): nat {
    match x
    case Str(_) => 1
    case Lst(items) => WeightAll(items)
    case Pair(k, v) => Weight(k) + Weight(v)
    case Eq(k) => Weight(k)
  }

  function WeightAll(xs: seq<Item>): nat {
    if xs == [] then 0 else Weight(xs[0]) + WeightAll(xs[1..])
  }

  function WeightStack(stack: seq<seq<Item>>): nat {
    if stack == [] then 0 else WeightAll(stack[0]) + WeightStack(stack[1..])
  }

  /** Non-empty atoms. */
  function Atoms(toks: seq<Tok>): nat {
    if toks == [] then 0
    else (if toks[0].Atom? && toks[0].text != "" then 1 else 0) + Atoms(toks[1..])
  }

  lemma {:induction false} WeightConcat(a: seq<Item>, b: seq<Item>)
    ensures WeightAll(a + b) == WeightAll(a) + WeightAll(b)
  {
    if a == [] {
      assert a + b == b;
    } else {
      assert (a + b)[1..] == a[1..] + b;
      WeightConcat(a[1..], b);
    }
  }

  lemma WeightLast(q: seq<Item>, x: Item)
    requires q != []
    ensures WeightAll(q) == WeightAll(q[..|q| - 1]) + Weight(q[|q| - 1])
    ensures WeightAll(q[..|q| - 1] + [x]) == WeightAll(q[..|q| - 1]) + Weight(x)
  {
    WeightConcat(q[..|q| - 1], [q[|q| - 1]]);
    WeightConcat(q[..|q| - 1], [x]);
    assert q == q[..|q| - 1] + [q[|q| - 1]];
    assert WeightAll([x]) == Weight(x) && WeightAll([q[|q| - 1]]) == Weight(q[|q| - 1]);
  }

  lemma WeightPut(q: seq<Item>, x: Item)
    ensures WeightAll(Put(q, x)) == WeightAll(q) + Weight(x)
  {
    if q != [] && q[|q| - 1].Eq? {
      WeightLast(q, Pair(q[|q| - 1].key, x));
    } else {
      WeightConcat(q, [x]);
      assert WeightAll([x]) == Weight(x);
    }
  }

  /** On any tokens at all, the parser's result holds exactly the non-empty atoms. */
  lemma {:induction false} ParserConserves(toks: seq<Tok>, q: seq<Item>, stack: seq<seq<Item>>)
    ensures var r := P(toks, q, stack);
            r.Some? ==> WeightAll(r.value) == Atoms(toks) + WeightAll(q) + WeightStack(stack)
    decreases |toks|
  {
    if toks != [] && P(toks, q, stack).Some? {
      var rest := toks[1..];
      match toks[0]
      case Atom(a) =>
        if a == "" {
          ParserConserves(rest, q, stack);
        } else {
          WeightPut(q, Str(a));
          ParserConserves(rest, Put(q, Str(a)), stack);
        }
      case Ctl(Open) =>
        assert ([q] + stack)[1..] == stack;
        ParserConserves(rest, [], [q] + stack);
      case Ctl(Close) =>
        WeightPut(stack[0], Lst(q));
        ParserConserves(rest, Put(stack[0], Lst(q)), stack[1..]);
      case Ctl(Equal) =>
        WeightLast(q, Eq(q[|q| - 1]));
        ParserConserves(rest, q[..|q| - 1] + [Eq(q[|q| - 1])], stack);
      case Ctl(Comma) =>
        ParserConserves(rest, q, stack);
    }
  }

  lemma {:induction false} AtomsConcat(a: seq<Tok>, b: seq<Tok>)
    ensures Atoms(a + b) == Atoms(a) + Atoms(b)
  {
    if a == [] {
      assert a + b == b;
    } else {
      assert (a + b)[1..] == a[1..] + b;
      AtomsConcat(a[1..], b);
    }
  }

  lemma {:induction false} ValueAtoms(v: Value)
    ensures Atoms(Flushed(EmitValue(v))) <= Weight(ValueItem(v))
    ensures Atoms(Flushed(EmitValue(v))) == Weight(ValueItem(v)) <==> NonEmptyValue(v)
    decreases v
  {
    match v
    case Text(s, _) =>
      assert Flushed(EmitValue(v)) == [Atom(s)] && Atoms([Atom(s)]) == if s != "" then 1 else 0;
    case Block(rs) =>
      var inner := Flushed(EmitResults(rs));
      ResultsAtoms(rs);
      assert Flushed(EmitValue(v)) == [Atom(""), Ctl(Open)] + (inner + [Ctl(Close), Atom("")]);
      AtomsConcat([Atom(""), Ctl(Open)], inner + [Ctl(Close), Atom("")]);
      AtomsConcat(inner, [Ctl(Close), Atom("")]);
      NoAtoms();
  }

  lemma NoAtoms()
    ensures Atoms([Atom(""), Ctl(Open)]) == 0 && Atoms([Ctl(Close), Atom("")]) == 0
    ensures Atoms([Ctl(Comma)]) == 0 && Atoms([Atom("")]) == 0
  {
    assert [Atom(""), Ctl(Open)][1..] == [Ctl(Open)] && [Ctl(Close), Atom("")][1..] == [Atom("")];
  }

  lemma {:induction false} ResultAtoms(r: Result)
    ensures Atoms(Flushed(EmitResult(r))) <= Weight(ResultItem(r))
    ensures Atoms(Flushed(EmitResult(r))) == Weight(ResultItem(r)) <==> NonEmptyResult(r)
    decreases r
  {
    ValueAtoms(r.value);
    if r.Bind? {
      var head := [Atom(r.key), Ctl(Equal)];
      assert Flushed(EmitResult(r)) == head + Flushed(EmitValue(r.value));
      AtomsConcat(head, Flushed(EmitValue(r.value)));
      assert head[1..] == [Ctl(Equal)] && Atoms(head) == if r.key != "" then 1 else 0;
    }
  }

  lemma {:induction false} ResultsAtoms(rs: seq<Result>)
    ensures Atoms(Flushed(EmitResults(rs))) <= WeightAll(ResultItems(rs))
    ensures Atoms(Flushed(EmitResults(rs))) == WeightAll(ResultItems(rs)) <==> NonEmpty(rs)
    decreases rs
  {
    NoAtoms();
    if rs == [] {
      assert Flushed(EmitResults(rs)) == [Atom("")];
    } else {
      ResultAtoms(rs[0]);
      ResultsAtoms(rs[1..]);
      assert NonEmpty(rs) <==> NonEmptyResult(rs[0]) && NonEmpty(rs[1..]) by {
        assert forall i :: 0 < i < |rs| ==> rs[i] == rs[1..][i - 1];
      }
      if |rs| > 1 {
        var tail := Flushed(EmitResults(rs[1..]));
        assert Flushed(EmitResults(rs)) == Flushed(EmitResult(rs[0])) + ([Ctl(Comma)] + tail);
        AtomsConcat(Flushed(EmitResult(rs[0])), [Ctl(Comma)] + tail);
        AtomsConcat([Ctl(Comma)], tail);
      } else {
        assert WeightAll(ResultItems(rs[1..])) == 0;
      }
    }
  }

  /** Printing, tokenizing and parsing gives the tree back exactly if none of its
      strings is empty: the parser drops empty atoms. */
  lemma PrintedParses(rs: seq<Result>)
    requires Printable(rs)
    ensures MsgParse(ResultsText(rs)) == Some(ResultItems(rs)) <==> NonEmpty(rs)
  {
    hide Tokenize, P, EmitResults, ResultItems, Atoms, WeightAll;
    PrintedTokens(rs);
    if NonEmpty(rs) {
      ResultsParse(rs, [], [], []);
      assert Flushed(EmitResults(rs)) + [] == Flushed(EmitResults(rs));
      assert [] + ResultItems(rs) == ResultItems(rs);
      assert P(Flushed(EmitResults(rs)), [], []) == Some(ResultItems(rs)) by { AtEnd(ResultItems(rs)); }
    } else {
      ResultsAtoms(rs);
      ParserConserves(Flushed(EmitResults(rs)), [], []);
      NothingYet();
    }
  }

  lemma AtEnd(q: seq<Item>)
    ensures P([], q, []) == Some(q)
  {
  }

  lemma NothingYet()
    ensures WeightAll([]) == 0 && WeightStack([]) == 0
  {
  }
}
