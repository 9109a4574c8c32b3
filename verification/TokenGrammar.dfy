/** What the quote/escape tokenizer accepts, lexeme by lexeme, and which token lists
    the CSV reader takes (src/parse.erl). */
module TokenGrammar {
  import opened Collections
  import opened Tokenizer

  // ---- Lexemes ----

  /** A character between quotes: as it is, or behind an escape character. */
  datatype Inner = Raw(ch: char) | Esc(mark: char, ch: char)

  datatype Lexeme =
    | Plain(ch: char)
    | Quotation(open: char, inside: seq<Inner>, close: char)
    | Separator(ch: char)

  predicate Is(c: Config, ch: char, kind: Kind) {
    ch in c.kinds && c.kinds[ch] == kind
  }

  predicate InnerOk(c: Config, i: Inner) {
    match i
    case Raw(ch) => !Is(c, ch, Quote) && !Is(c, ch, Escape)
    case Esc(mark, _) => Is(c, mark, Escape)
  }

  predicate InnersOk(c: Config, qs: seq<Inner>) {
    forall i :: 0 <= i < |qs| ==> InnerOk(c, qs[i])
  }

  predicate LexemeOk(c: Config, l: Lexeme) {
    match l
    case Plain(ch) => ch !in c.kinds
    case Quotation(open, inside, close) =>
      Is(c, open, Quote) && Is(c, close, Quote) && InnersOk(c, inside)
    case Separator(ch) => ch in c.kinds && c.kinds[ch].Token?
  }

  predicate AllOk(c: Config, ls: seq<Lexeme>) {
    forall i :: 0 <= i < |ls| ==> LexemeOk(c, ls[i])
  }

  function InnerChars(i: Inner): string {
    match i
    case Raw(ch) => [ch]
    case Esc(mark, ch) => [mark, ch]
  }

  function InnerText(qs: seq<Inner>): string {
    if qs == [] then "" else InnerChars(qs[0]) + InnerText(qs[1..])
  }

  /** An escape behind a mark stands for its entry, or for itself. */
  function Meant(c: Config, i: Inner): char {
    if i.Esc? && i.ch in c.escapes then c.escapes[i.ch] else i.ch
  }

  function InnerMeans(c: Config, qs: seq<Inner>): string {
    if qs == [] then "" else [Meant(c, qs[0])] + InnerMeans(c, qs[1..])
  }

  function LexemeText(l: Lexeme): string {
    match l
    case Plain(ch) => [ch]
    case Quotation(open, inside, close) => [open] + InnerText(inside) + [close]
    case Separator(ch) => [ch]
  }

  function Text(ls: seq<Lexeme>): string {
    if ls == [] then "" else LexemeText(ls[0]) + Text(ls[1..])
  }

  /** The tokens: an atom of everything between two separators, and the separators. */
  function Toks(c: Config, ls: seq<Lexeme>, atom: string): seq<Tok>
    requires AllOk(c, ls)
    decreases |ls|
  {
    if ls == [] then [Atom(atom)]
    else
      var l := ls[0];
      assert LexemeOk(c, l);
      match l
      case Plain(ch) => Toks(c, ls[1..], atom + [ch])
      case Quotation(_, inside, _) => Toks(c, ls[1..], atom + InnerMeans(c, inside))
      case Separator(ch) => [Atom(atom), Ctl(c.kinds[ch].control)] + Toks(c, ls[1..], "")
  }

  // ---- One character ----

  /** Outside quotes. */
  lemma NormalStep(c: Config, ch: char, rest: string, atom: string, toks: seq<Tok>)
    ensures TokFld(c, Normal, atom, [ch] + rest, toks)
         == if ch !in c.kinds then TokFld(c, Normal, atom + [ch], rest, toks)
            else if c.kinds[ch].Token? then
              TokFld(c, Normal, "", rest, toks + [Atom(atom), Ctl(c.kinds[ch].control)])
            else if c.kinds[ch].Quote? then TokFld(c, Quoted, atom, rest, toks)
            else None
  {
    assert ([ch] + rest)[1..] == rest;
  }

  /** Within quotes. */
  lemma QuotedStep(c: Config, ch: char, rest: string, atom: string, toks: seq<Tok>)
    requires !Is(c, ch, Escape)
    ensures TokFld(c, Quoted, atom, [ch] + rest, toks)
         == if Is(c, ch, Quote) then TokFld(c, Normal, atom, rest, toks)
            else TokFld(c, Quoted, atom + [ch], rest, toks)
  {
    assert ([ch] + rest)[1..] == rest;
  }

  lemma EscapeStep(c: Config, mark: char, ch: char, rest: string, atom: string, toks: seq<Tok>)
    requires Is(c, mark, Escape)
    ensures TokFld(c, Quoted, atom, [mark, ch] + rest, toks)
         == TokFld(c, Quoted, atom + [Meant(c, Esc(mark, ch))], rest, toks)
  {
    var text := [mark, ch] + rest;
    assert text[1..] == [ch] + rest && text[1..][1..] == rest;
  }

  lemma AtTheEnd(c: Config, mode: Mode, atom: string, toks: seq<Tok>, mark: char)
    ensures TokFld(c, mode, atom, "", toks) == if mode == Normal then Some(toks + [Atom(atom)]) else None
    ensures Is(c, mark, Escape) ==> TokFld(c, Quoted, atom, [mark], toks).None?
  {
    assert [mark][1..] == "";
  }

  lemma OneInner(c: Config, i: Inner, rest: string, atom: string, toks: seq<Tok>)
    requires InnerOk(c, i)
    ensures TokFld(c, Quoted, atom, InnerChars(i) + rest, toks) == TokFld(c, Quoted, atom + [Meant(c, i)], rest, toks)
  {
    hide TokFld;
    match i
    case Raw(ch) => QuotedStep(c, ch, rest, atom, toks);
    case Esc(mark, ch) => EscapeStep(c, mark, ch, rest, atom, toks);
  }

  // ---- Lexemes are tokenized ----

  lemma Regroup<T>(a: seq<T>, b: seq<T>, c: seq<T>)
    ensures a + b + c == a + (b + c)
  {
  }

  lemma {:induction false} InnerReads(c: Config, qs: seq<Inner>, close: char, rest: string, atom: string,
                                      toks: seq<Tok>)
    requires InnersOk(c, qs) && Is(c, close, Quote)
    ensures TokFld(c, Quoted, atom, InnerText(qs) + ([close] + rest), toks)
         == TokFld(c, Normal, atom + InnerMeans(c, qs), rest, toks)
    decreases |qs|
  {
    hide TokFld;
    var behind := [close] + rest;
    if qs == [] {
      QuotedStep(c, close, rest, atom, toks);
      assert InnerText(qs) + behind == behind && atom + InnerMeans(c, qs) == atom;
    } else {
      var i := qs[0];
      assert InnerOk(c, i);
      OneInner(c, i, InnerText(qs[1..]) + behind, atom, toks);
      InnerReads(c, qs[1..], close, rest, atom + [Meant(c, i)], toks);
      Regroup(InnerChars(i), InnerText(qs[1..]), behind);
      Regroup(atom, [Meant(c, i)], InnerMeans(c, qs[1..]));
    }
  }

  lemma {:induction false} LexemesRead(c: Config, ls: seq<Lexeme>, atom: string, toks: seq<Tok>)
    requires AllOk(c, ls)
    ensures TokFld(c, Normal, atom, Text(ls), toks) == Some(toks + Toks(c, ls, atom))
    decreases |ls|
  {
    hide TokFld;
    if ls == [] {
      AtTheEnd(c, Normal, atom, toks, ' ');
    } else {
      var l, rest := ls[0], Text(ls[1..]);
      assert LexemeOk(c, l);
      match l
      case Plain(ch) =>
        NormalStep(c, ch, rest, atom, toks);
        LexemesRead(c, ls[1..], atom + [ch], toks);
      case Separator(ch) =>
        NormalStep(c, ch, rest, atom, toks);
        var here := [Atom(atom), Ctl(c.kinds[ch].control)];
        LexemesRead(c, ls[1..], "", toks + here);
        Regroup(toks, here, Toks(c, ls[1..], ""));
      case Quotation(open, inside, close) =>
        var behind := InnerText(inside) + ([close] + rest);
        assert Text(ls) == [open] + behind;
        NormalStep(c, open, behind, atom, toks);
        InnerReads(c, inside, close, rest, atom, toks);
        LexemesRead(c, ls[1..], atom + InnerMeans(c, inside), toks);
    }
  }

  // ---- And nothing else is ----

  lemma OneMore(c: Config, l: Lexeme, ls: seq<Lexeme>, input: string)
    requires LexemeOk(c, l) && AllOk(c, ls) && input == LexemeText(l) + Text(ls)
    ensures AllOk(c, [l] + ls) && Text([l] + ls) == input
  {
    assert ([l] + ls)[1..] == ls;
  }

  lemma {:induction false} ReadIsLexemes(c: Config, atom: string, input: string, toks: seq<Tok>)
    returns (ls: seq<Lexeme>)
    requires TokFld(c, Normal, atom, input, toks).Some?
    ensures AllOk(c, ls) && Text(ls) == input
    decreases |input|
  {
    hide TokFld, Text, AllOk, InnerText, InnersOk;
    if input == "" {
      ls := [];
      NoLexemes(c);
    } else {
      var ch, rest := input[0], input[1..];
      assert input == [ch] + rest;
      NormalStep(c, ch, rest, atom, toks);
      if ch !in c.kinds {
        var more := ReadIsLexemes(c, atom + [ch], rest, toks);
        ls := [Plain(ch)] + more;
        OneMore(c, Plain(ch), more, input);
      } else if c.kinds[ch].Token? {
        var more := ReadIsLexemes(c, "", rest, toks + [Atom(atom), Ctl(c.kinds[ch].control)]);
        ls := [Separator(ch)] + more;
        OneMore(c, Separator(ch), more, input);
      } else {
        var inside, close, more := QuoteIsLexeme(c, atom, rest, toks);
        ls := [Quotation(ch, inside, close)] + more;
        Regroup([ch], InnerText(inside) + [close], Text(more));
        Regroup([ch], InnerText(inside), [close]);
        OneMore(c, Quotation(ch, inside, close), more, input);
      }
    }
  }

  lemma NoLexemes(c: Config)
    ensures AllOk(c, []) && Text([]) == ""
  {
  }

  lemma {:induction false} QuoteIsLexeme(c: Config, atom: string, input: string, toks: seq<Tok>)
    returns (inside: seq<Inner>, close: char, ls: seq<Lexeme>)
    requires TokFld(c, Quoted, atom, input, toks).Some?
    ensures InnersOk(c, inside) && Is(c, close, Quote) && AllOk(c, ls)
    ensures input == InnerText(inside) + [close] + Text(ls)
    decreases |input|
  {
    hide TokFld;
    AtTheEnd(c, Quoted, atom, toks, ' ');
    var ch, rest := input[0], input[1..];
    assert input == [ch] + rest;
    if Is(c, ch, Quote) {
      QuotedStep(c, ch, rest, atom, toks);
      inside, close := [], ch;
      ls := ReadIsLexemes(c, atom, rest, toks);
    } else {
      var i := InnerAt(c, atom, input, toks);
      var after := input[|InnerChars(i)|..];
      OneInner(c, i, after, atom, toks);
      var more;
      more, close, ls := QuoteIsLexeme(c, atom + [Meant(c, i)], after, toks);
      inside := [i] + more;
      assert inside[1..] == more;
      assert InnersOk(c, inside);
    }
  }

  lemma InnerAt(c: Config, atom: string, input: string, toks: seq<Tok>) returns (i: Inner)
    requires TokFld(c, Quoted, atom, input, toks).Some? && input != "" && !Is(c, input[0], Quote)
    ensures InnerOk(c, i) && InnerChars(i) <= input && input == InnerChars(i) + input[|InnerChars(i)|..]
  {
    hide TokFld;
    if Is(c, input[0], Escape) {
      AtTheEnd(c, Quoted, atom, toks, input[0]);
      var alone := [input[0]];
      assert |input| == 1 ==> input == alone;
      i := Esc(input[0], input[1]);
    } else {
      i := Raw(input[0]);
    }
  }

  /** The tokenizer succeeds exactly on texts made of lexemes, and gives their tokens:
      an escape outside quotes, an open quotation or an escape at the very end fail. */
  lemma TokenizeIsExact(c: Config, input: string, toks: seq<Tok>)
    ensures Tokenize(c, input) == Some(toks) <==>
            exists ls :: AllOk(c, ls) && Text(ls) == input && Toks(c, ls, "") == toks
  {
    hide TokFld;
    if Tokenize(c, input) == Some(toks) {
      var ls := ReadIsLexemes(c, "", input, []);
      LexemesRead(c, ls, "", []);
      assert [] + Toks(c, ls, "") == Toks(c, ls, "");
    }
    if ls :| AllOk(c, ls) && Text(ls) == input && Toks(c, ls, "") == toks {
      LexemesRead(c, ls, "", []);
      assert [] + toks == toks;
    }
  }

  // ---- The token lists that are tables ----

  /** Commas and carriage returns are passed over. */
  function Solid(toks: seq<Tok>): seq<Tok> {
    if toks == [] then []
    else if toks[0] in [Ctl(Comma), Ctl(Cr)] then Solid(toks[1..])
    else [toks[0]] + Solid(toks[1..])
  }

  function CellToks(cells: Row): seq<Tok> {
    if cells == [] then [] else [Atom(cells[0])] + CellToks(cells[1..])
  }

  /** The cells of each row, then a line feed. */
  function TableToks(rows: seq<Row>): seq<Tok> {
    if rows == [] then [] else CellToks(rows[0]) + [Ctl(Lf)] + TableToks(rows[1..])
  }

  const LAST := [Atom("")]

  lemma CsvStep(t: Tok, toks: seq<Tok>, cells: Row, rows: seq<Row>)
    requires toks != []
    ensures CsvP([t] + toks, cells, rows)
         == if t.Atom? then CsvP(toks, cells + [t.text], rows)
            else if t.control in [Comma, Cr] then CsvP(toks, cells, rows)
            else if t.control == Lf then CsvP(toks, [], rows + [cells])
            else None
  {
    assert ([t] + toks)[1..] == toks;
    assert |[t] + toks| > 1;
  }

  lemma {:induction false} SolidParses(toks: seq<Tok>, cells: Row, rows: seq<Row>)
    ensures CsvP(toks + LAST, cells, rows) == CsvP(Solid(toks) + LAST, cells, rows)
    decreases |toks|
  {
    hide CsvP;
    if toks != [] {
      var t, rest := toks[0], toks[1..];
      assert toks + LAST == [t] + (rest + LAST);
      CsvStep(t, rest + LAST, cells, rows);
      if t in [Ctl(Comma), Ctl(Cr)] {
        SolidParses(rest, cells, rows);
      } else {
        Regroup([t], Solid(rest), LAST);
        CsvStep(t, Solid(rest) + LAST, cells, rows);
        if t.Atom? {
          SolidParses(rest, cells + [t.text], rows);
        } else {
          SolidParses(rest, [], rows + [cells]);
        }
      }
    }
  }

  lemma {:induction false} CellsParse(row: Row, rest: seq<Tok>, cells: Row, rows: seq<Row>)
    requires rest != []
    ensures CsvP(CellToks(row) + rest, cells, rows) == CsvP(rest, cells + row, rows)
    decreases |row|
  {
    hide CsvP;
    if row == [] {
      assert CellToks(row) + rest == rest && cells + row == cells;
    } else {
      Regroup([Atom(row[0])], CellToks(row[1..]), rest);
      CsvStep(Atom(row[0]), CellToks(row[1..]) + rest, cells, rows);
      CellsParse(row[1..], rest, cells + [row[0]], rows);
      assert cells + [row[0]] + row[1..] == cells + row;
    }
  }

  lemma RowParses(row: Row, tail: seq<Tok>, rows: seq<Row>)
    requires tail != []
    ensures CsvP(CellToks(row) + [Ctl(Lf)] + tail, [], rows) == CsvP(tail, [], rows + [row])
  {
    hide CsvP, CellToks;
    Regroup(CellToks(row), [Ctl(Lf)], tail);
    CellsParse(row, [Ctl(Lf)] + tail, [], rows);
    assert [] + row == row;
    CsvStep(Ctl(Lf), tail, row, rows);
  }

  lemma {:induction false} TableParses(more: seq<Row>, rows: seq<Row>)
    ensures CsvP(TableToks(more) + LAST, [], rows) == Some(rows + more)
    decreases |more|
  {
    if more == [] {
      assert TableToks(more) + LAST == LAST && rows + more == rows;
    } else {
      var row, tail := more[0], TableToks(more[1..]);
      assert TableToks(more) == CellToks(row) + [Ctl(Lf)] + tail;
      hide CsvP, CellToks, TableToks;
      Regroup(CellToks(row) + [Ctl(Lf)], tail, LAST);
      RowParses(row, tail + LAST, rows);
      TableParses(more[1..], rows + [row]);
      assert rows + [row] + more[1..] == rows + more;
    }
  }

  lemma {:induction false} TableConcat(a: seq<Row>, row: Row)
    ensures TableToks(a + [row]) == TableToks(a) + CellToks(row) + [Ctl(Lf)]
  {
    if a == [] {
      assert (a + [row])[1..] == [];
    } else {
      assert (a + [row])[1..] == a[1..] + [row];
      TableConcat(a[1..], row);
      Regroup(CellToks(a[0]) + [Ctl(Lf)], TableToks(a[1..]), CellToks(row) + [Ctl(Lf)]);
      Regroup(TableToks(a[1..]), CellToks(row), [Ctl(Lf)]);
      Regroup(TableToks(a), CellToks(row), [Ctl(Lf)]);
    }
  }

  lemma {:induction false} CellConcat(a: Row, cell: string)
    ensures CellToks(a + [cell]) == CellToks(a) + [Atom(cell)]
  {
    if a != [] {
      assert (a + [cell])[1..] == a[1..] + [cell];
      CellConcat(a[1..], cell);
    }
  }

  /** What is left of the tokens but their last one. */
  function Body(toks: seq<Tok>): seq<Tok>
    requires toks != []
  {
    toks[..|toks| - 1]
  }

  lemma {:induction false} ParsedIsTable(toks: seq<Tok>, cells: Row, rows: seq<Row>, result: seq<Row>)
    requires CsvP(toks, cells, rows) == Some(result)
    ensures toks != [] && toks == Body(toks) + LAST
    ensures TableToks(result) == TableToks(rows) + CellToks(cells) + Solid(Body(toks))
    decreases |toks|
  {
    if toks == LAST && cells == [] {
      assert Body(toks) == [];
      assert TableToks(rows) + [] + [] == TableToks(rows);
    } else {
      var t, rest := toks[0], toks[1..];
      assert rest != [] by { NeverEmpty(cells, rows); NeverEmpty(cells + [""], rows); }
      assert toks == [t] + rest && Body(toks) == [t] + Body(rest);
      CsvStep(t, rest, cells, rows);
      hide CsvP;
      var before, after := TableToks(rows), Solid(Body(rest));
      if t.Atom? {
        ParsedIsTable(rest, cells + [t.text], rows, result);
        CellConcat(cells, t.text);
        Regroup(before, CellToks(cells), [t]);
        Regroup(before + CellToks(cells), [t], after);
      } else if t.control == Lf {
        ParsedIsTable(rest, [], rows + [cells], result);
        TableConcat(rows, cells);
        assert TableToks(rows + [cells]) + [] == TableToks(rows + [cells]);
        Regroup(before + CellToks(cells), [t], after);
      } else {
        ParsedIsTable(rest, cells, rows, result);
      }
    }
  }

  lemma NeverEmpty(cells: Row, rows: seq<Row>)
    ensures CsvP([], cells, rows).None?
  {
  }

  /** The reader takes exactly the token lists of tables, with any commas and carriage
      returns between them, that end behind a line feed; and gives the table. */
  lemma CsvIsExact(toks: seq<Tok>, rows: seq<Row>)
    ensures CsvP(toks, [], []) == Some(rows)
       <==> toks != [] && toks[|toks| - 1] == Atom("") && Solid(Body(toks)) == TableToks(rows)
  {
    hide CsvP;
    if CsvP(toks, [], []) == Some(rows) {
      ParsedIsTable(toks, [], [], rows);
      assert [] + [] + Solid(Body(toks)) == Solid(Body(toks));
    }
    if toks != [] && toks[|toks| - 1] == Atom("") && Solid(Body(toks)) == TableToks(rows) {
      assert toks == Body(toks) + LAST;
      SolidParses(Body(toks), [], []);
      TableParses(rows, []);
      assert [] + rows == rows;
    }
  }
}
