/** What the GDB/MI stack parser accepts, and the tree it gives: the parser is the exact
    inverse of writing a tree as tokens (src/gdb.erl). */
module MiGrammar {
  import opened Collections
  import opened Tokenizer
  import opened GdbMi

  // ---- Trees as tokens ----

  /** A tree as tokens.  What stands before `=` is any item, a pair or a hole included. */
  function Shown(x: Item): seq<Tok> {
    match x
    case Str(s) => [Atom(s)]
    case Lst(q) => [Ctl(Open)] + ShownAll(q) + [Ctl(Close)]
    case Pair(k, v) => Shown(k) + [Ctl(Equal)] + Shown(v)
    case Eq(k) => Shown(k) + [Ctl(Equal)]
  }

  function ShownAll(q: seq<Item>): seq<Tok> {
    if q == [] then [] else Shown(q[0]) + ShownAll(q[1..])
  }

  /** No string is empty, only strings and lists are values, and only the last item of
      a list may lack its value. */
  predicate Proper(x: Item) {
    match x
    case Str(s) => s != ""
    case Lst(q) => ProperAll(q)
    case Pair(k, v) => Proper(k) && Proper(v) && IsElement(v)
    case Eq(k) => Proper(k)
  }

  predicate ProperAll(q: seq<Item>) {
    && (forall i :: 0 <= i < |q| ==> Proper(q[i]))
    && (forall i :: 0 <= i < |q| - 1 ==> !q[i].Eq?)
  }

  predicate IsElement(x: Item) {
    x.Str? || x.Lst?
  }

  predicate Whole(q: seq<Item>) {
    q != [] ==> !q[|q| - 1].Eq?
  }

  /** Commas and empty atoms are passed over. */
  function Solid(toks: seq<Tok>): seq<Tok> {
    if toks == [] then []
    else if toks[0] in [Ctl(Comma), Atom("")] then Solid(toks[1..])
    else [toks[0]] + Solid(toks[1..])
  }

  // ---- One token ----

  lemma Step(t: Tok, rest: seq<Tok>, q: seq<Item>, stack: seq<seq<Item>>)
    ensures P([t] + rest, q, stack)
         == if t in [Ctl(Comma), Atom("")] then P(rest, q, stack)
            else if t.Atom? then P(rest, Put(q, Str(t.text)), stack)
            else if t.control == Open then P(rest, [], [q] + stack)
            else if t.control == Close && stack != [] then P(rest, Put(stack[0], Lst(q)), stack[1..])
            else if t.control == Equal && q != [] then P(rest, Front(q) + [Eq(Last(q))], stack)
            else None
  {
    assert ([t] + rest)[1..] == rest;
  }

  function Front<T>(q: seq<T>): seq<T>
    requires q != []
  {
    q[..|q| - 1]
  }

  function Last<T>(q: seq<T>): T
    requires q != []
  {
    q[|q| - 1]
  }

  lemma {:induction false} SolidParses(toks: seq<Tok>, q: seq<Item>, stack: seq<seq<Item>>)
    ensures P(toks, q, stack) == P(Solid(toks), q, stack)
    decreases |toks|
  {
    hide P;
    if toks != [] {
      var t, rest := toks[0], toks[1..];
      assert toks == [t] + rest;
      Step(t, rest, q, stack);
      Step(t, Solid(rest), q, stack);
      if t in [Ctl(Comma), Atom("")] {
        SolidParses(rest, q, stack);
      } else if t.Atom? {
        SolidParses(rest, Put(q, Str(t.text)), stack);
      } else if t.control == Open {
        SolidParses(rest, [], [q] + stack);
      } else if t.control == Close && stack != [] {
        SolidParses(rest, Put(stack[0], Lst(q)), stack[1..]);
      } else if t.control == Equal && q != [] {
        SolidParses(rest, Front(q) + [Eq(Last(q))], stack);
      }
    }
  }

  // ---- A written tree is read ----

  /** A string or a list in front: it fills the hole at the end of the queue, if any. */
  lemma {:induction false} ElementReads(x: Item, rest: seq<Tok>, q: seq<Item>, stack: seq<seq<Item>>)
    requires Proper(x) && IsElement(x)
    ensures P(Shown(x) + rest, q, stack) == P(rest, Put(q, x), stack)
    decreases x, 0
  {
    hide P;
    match x
    case Str(s) => Step(Atom(s), rest, q, stack);
    case Lst(inner) =>
      var behind := [Ctl(Close)] + rest;
      assert Shown(x) + rest == [Ctl(Open)] + (ShownAll(inner) + behind);
      Step(Ctl(Open), ShownAll(inner) + behind, q, stack);
      AllRead(inner, behind, [], [q] + stack);
      assert [] + inner == inner && ([q] + stack)[1..] == stack;
      Step(Ctl(Close), rest, inner, [q] + stack);
  }

  lemma EqualReads(rest: seq<Tok>, q: seq<Item>, k: Item, stack: seq<seq<Item>>)
    ensures P([Ctl(Equal)] + rest, q + [k], stack) == P(rest, q + [Eq(k)], stack)
  {
    hide P;
    Step(Ctl(Equal), rest, q + [k], stack);
    assert Front(q + [k]) == q && Last(q + [k]) == k;
  }

  lemma {:induction false} ItemReads(x: Item, rest: seq<Tok>, q: seq<Item>, stack: seq<seq<Item>>)
    requires Proper(x) && Whole(q)
    ensures P(Shown(x) + rest, q, stack) == P(rest, q + [x], stack)
    decreases x, 1
  {
    hide P;
    match x
    case Str(_) => ElementReads(x, rest, q, stack);
    case Lst(_) => ElementReads(x, rest, q, stack);
    case Eq(k) =>
      assert Shown(x) + rest == Shown(k) + ([Ctl(Equal)] + rest);
      ItemReads(k, [Ctl(Equal)] + rest, q, stack);
      EqualReads(rest, q, k, stack);
    case Pair(k, v) =>
      var behind := Shown(v) + rest;
      assert Shown(x) + rest == Shown(k) + ([Ctl(Equal)] + behind);
      ItemReads(k, [Ctl(Equal)] + behind, q, stack);
      EqualReads(behind, q, k, stack);
      ElementReads(v, rest, q + [Eq(k)], stack);
      FillHole(q, k, v);
  }

  lemma {:induction false} AllRead(xs: seq<Item>, rest: seq<Tok>, q: seq<Item>, stack: seq<seq<Item>>)
    requires ProperAll(xs) && Whole(q)
    ensures P(ShownAll(xs) + rest, q, stack) == P(rest, q + xs, stack)
    decreases xs
  {
    hide P;
    if xs == [] {
      assert ShownAll(xs) + rest == rest && q + xs == q;
    } else if |xs| == 1 {
      assert ShownAll(xs) == Shown(xs[0]) + [] == Shown(xs[0]) && xs == [xs[0]];
      ItemReads(xs[0], rest, q, stack);
    } else {
      assert ShownAll(xs) + rest == Shown(xs[0]) + (ShownAll(xs[1..]) + rest);
      ItemReads(xs[0], ShownAll(xs[1..]) + rest, q, stack);
      assert ProperAll(xs[1..]) && Last(q + [xs[0]]) == xs[0];
      AllRead(xs[1..], rest, q + [xs[0]], stack);
      assert q + [xs[0]] + xs[1..] == q + xs;
    }
  }

  // ---- What is read was written ----

  /** The tokens of the open lists, outermost first. */
  function ShownStack(stack: seq<seq<Item>>): seq<Tok> {
    if stack == [] then [] else ShownStack(stack[1..]) + ShownAll(stack[0]) + [Ctl(Open)]
  }

  predicate ProperStack(stack: seq<seq<Item>>) {
    forall i :: 0 <= i < |stack| ==> ProperAll(stack[i])
  }

  lemma {:induction false} ShownConcat(a: seq<Item>, b: seq<Item>)
    ensures ShownAll(a + b) == ShownAll(a) + ShownAll(b)
  {
    if a == [] {
      assert a + b == b;
    } else {
      assert (a + b)[1..] == a[1..] + b;
      ShownConcat(a[1..], b);
    }
  }

  /** Replacing the last item. */
  lemma ShownLast(q: seq<Item>, x: Item, more: seq<Tok>)
    requires q != [] && Shown(x) == Shown(Last(q)) + more
    ensures ShownAll(Front(q) + [x]) == ShownAll(q) + more
  {
    ShownConcat(Front(q), [x]);
    ShownConcat(Front(q), [Last(q)]);
    assert q == Front(q) + [Last(q)];
    ShownOne(x);
    ShownOne(Last(q));
  }

  lemma ShownOne(x: Item)
    ensures ShownAll([x]) == Shown(x)
  {
    assert Shown(x) + [] == Shown(x);
  }

  lemma PutIsShown(q: seq<Item>, x: Item)
    requires ProperAll(q) && Proper(x) && IsElement(x)
    ensures ProperAll(Put(q, x)) && ShownAll(Put(q, x)) == ShownAll(q) + Shown(x)
  {
    if q != [] && Last(q).Eq? {
      assert Proper(Last(q));
      ShownLast(q, Pair(Last(q).key, x), Shown(x));
    } else {
      ShownConcat(q, [x]);
      ShownOne(x);
    }
  }

  lemma {:induction false} ReadIsShown(toks: seq<Tok>, q: seq<Item>, stack: seq<seq<Item>>, result: seq<Item>)
    requires P(toks, q, stack) == Some(result) && ProperAll(q) && ProperStack(stack)
    ensures ProperAll(result) && ShownAll(result) == ShownStack(stack) + ShownAll(q) + Solid(toks)
    decreases |toks|
  {
    if toks == [] {
      assert [] + ShownAll(q) + [] == ShownAll(q);
    } else {
      hide P, Shown, ShownAll, Put, Proper;
      var t, rest := toks[0], toks[1..];
      assert toks == [t] + rest;
      Step(t, rest, q, stack);
      var before, here, after := ShownStack(stack), ShownAll(q), Solid(rest);
      if t in [Ctl(Comma), Atom("")] {
        ReadIsShown(rest, q, stack, result);
      } else if t.Atom? {
        AtomIsProper(t.text);
        PutIsShown(q, Str(t.text));
        ReadIsShown(rest, Put(q, Str(t.text)), stack, result);
        Shuffle(before, here, [t], after);
      } else if t.control == Open {
        NothingShown();
        assert ([q] + stack)[1..] == stack;
        ReadIsShown(rest, [], [q] + stack, result);
        Shuffle(before, here, [t], after);
        assert before + here + [t] + [] == before + here + [t];
      } else if t.control == Close {
        ListIsProper(q);
        PutIsShown(stack[0], Lst(q));
        ReadIsShown(rest, Put(stack[0], Lst(q)), stack[1..], result);
        Nested(ShownStack(stack[1..]), ShownAll(stack[0]), [Ctl(Open)], here, [t], after);
      } else {
        HoleIsProper(q);
        ReadIsShown(rest, Front(q) + [Eq(Last(q))], stack, result);
        Shuffle(before, here, [t], after);
      }
    }
  }

  lemma AtomIsProper(s: string)
    requires s != ""
    ensures Proper(Str(s)) && Shown(Str(s)) == [Atom(s)]
  {
  }

  lemma ListIsProper(q: seq<Item>)
    requires ProperAll(q)
    ensures Proper(Lst(q)) && Shown(Lst(q)) == [Ctl(Open)] + ShownAll(q) + [Ctl(Close)]
  {
  }

  lemma HoleIsProper(q: seq<Item>)
    requires ProperAll(q) && q != []
    ensures ProperAll(Front(q) + [Eq(Last(q))])
    ensures ShownAll(Front(q) + [Eq(Last(q))]) == ShownAll(q) + [Ctl(Equal)]
  {
    assert Proper(Last(q));
    ShownLast(q, Eq(Last(q)), [Ctl(Equal)]);
  }

  lemma NothingShown()
    ensures ShownAll([]) == [] && ShownStack([]) == []
  {
  }

  lemma Shuffle<T>(a: seq<T>, b: seq<T>, c: seq<T>, d: seq<T>)
    ensures a + (b + c) + d == a + b + (c + d) == a + b + c + d
  {
  }

  lemma Nested<T>(a: seq<T>, b: seq<T>, open: seq<T>, c: seq<T>, close: seq<T>, d: seq<T>)
    ensures a + (b + (open + c + close)) + d == (a + b + open) + c + (close + d)
  {
  }

  /** The parser succeeds exactly on the tokens of a proper list of items, with any commas
      and empty atoms between them, and gives that list. */
  lemma ParseIsExact(toks: seq<Tok>, q: seq<Item>)
    ensures P(toks, [], []) == Some(q) <==> ProperAll(q) && Solid(toks) == ShownAll(q)
  {
    hide P;
    NothingShown();
    if P(toks, [], []) == Some(q) {
      ReadIsShown(toks, [], [], q);
      assert [] + [] + Solid(toks) == Solid(toks);
    }
    if ProperAll(q) && Solid(toks) == ShownAll(q) {
      SolidParses(toks, [], []);
      AllRead(q, [], [], []);
      AtEnd(q);
      assert Solid(toks) + [] == Solid(toks) && [] + q == q;
    }
  }
}
