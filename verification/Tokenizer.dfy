/** The quote/escape tokenizer (src/parse.erl) and the CSV reader on top of it. */
module Tokenizer {
  import opened Collections

  datatype Control = Open | Close | Comma | Equal | Lf | Cr

  datatype Kind = Escape | Quote | Token(control: Control)

  /** What single characters mean, and what escaped characters stand for. */
  datatype Config = Config(kinds: map<char, Kind>, escapes: map<char, char>)

  datatype Tok = Atom(text: string) | Ctl(control: Control)

  datatype Mode = Normal | Quoted

  /** tok_fld/6 folding into a list; None for its errors.  The characters of the
      current atom are kept in reading order. */
  function TokFld(c: Config, mode: Mode, atom: string, input: string, toks: seq<Tok>): Option<seq<Tok>>
    decreases |input|
  {
    if input == "" then (if mode == Normal then Some(toks + [Atom(atom)]) else None)
    else
      var kind: Option<Kind> := Lookup(c.kinds, input[0]);
      var rest := input[1..];
      match mode
      case Normal =>
        (match kind
         case Some(Escape) => None
         case Some(Quote) => TokFld(c, Quoted, atom, rest, toks)
         case Some(Token(t)) => TokFld(c, Normal, "", rest, toks + [Atom(atom), Ctl(t)])
         case None => TokFld(c, Normal, atom + [input[0]], rest, toks))
      case Quoted =>
        match kind
        case Some(Escape) =>
          if rest == "" then None
          else
            var ch := if rest[0] in c.escapes then c.escapes[rest[0]] else rest[0];
            TokFld(c, Quoted, atom + [ch], rest[1..], toks)
        case Some(Quote) => TokFld(c, Normal, atom, rest, toks)
        case _ => TokFld(c, Quoted, atom + [input[0]], rest, toks)
  }

  function Tokenize(c: Config, input: string): Option<seq<Tok>> {
    TokFld(c, Normal, "", input, [])
  }

  // ---- Printing atoms ----

  function EscapedChar(ch: char): string {
    if ch == '\"' || ch == '\\' then ['\\', ch]
    else if ch == '\r' then "\\r"
    else if ch == '\n' then "\\n"
    else [ch]
  }

  function Escaped(s: string): string {
    if s == "" then "" else EscapedChar(s[0]) + Escaped(s[1..])
  }

  function QuotedText(s: string): string {
    "\"" + Escaped(s) + "\""
  }

  const ESCAPES: map<char, char> := map['r' := '\r', 'n' := '\n']

  /** Double quotes quote, a backslash escapes, r and n stand for the line ends. */
  predicate UsualQuoting(c: Config) {
    && '\"' in c.kinds && c.kinds['\"'] == Quote && '\\' in c.kinds && c.kinds['\\'] == Escape
    && (forall ch :: ch in c.kinds && c.kinds[ch] == Quote ==> ch == '\"')
    && (forall ch :: ch in c.kinds && c.kinds[ch] == Escape ==> ch == '\\')
    && c.escapes == ESCAPES
  }

  /** No character of s means anything special. */
  predicate Plain(c: Config, s: string) {
    forall i :: 0 <= i < |s| ==> s[i] !in c.kinds
  }

  lemma {:induction false} EscapedReads(c: Config, s: string, atom: string, rest: string, toks: seq<Tok>)
    requires UsualQuoting(c)
    ensures TokFld(c, Quoted, atom, Escaped(s) + "\"" + rest, toks) == TokFld(c, Normal, atom + s, rest, toks)
  {
    var text := Escaped(s) + "\"" + rest;
    if s == "" {
      assert text == "\"" + rest && text[1..] == rest && atom + s == atom;
    } else {
      var tail := Escaped(s[1..]) + "\"" + rest;
      assert text == EscapedChar(s[0]) + tail;
      assert atom + [s[0]] + s[1..] == atom + s;
      if |EscapedChar(s[0])| == 2 { assert text[1..][1..] == tail; } else { assert text[1..] == tail; }
      EscapedReads(c, s[1..], atom + [s[0]], rest, toks);
    }
  }

  /** A quoted text adds exactly its characters to the current atom. */
  lemma QuotedReads(c: Config, s: string, atom: string, rest: string, toks: seq<Tok>)
    requires UsualQuoting(c)
    ensures TokFld(c, Normal, atom, QuotedText(s) + rest, toks) == TokFld(c, Normal, atom + s, rest, toks)
  {
    var inside := Escaped(s) + "\"" + rest;
    assert QuotedText(s) + rest == "\"" + inside && ("\"" + inside)[1..] == inside;
    EscapedReads(c, s, atom, rest, toks);
  }

  lemma {:induction false} PlainReads(c: Config, s: string, atom: string, rest: string, toks: seq<Tok>)
    requires Plain(c, s)
    ensures TokFld(c, Normal, atom, s + rest, toks) == TokFld(c, Normal, atom + s, rest, toks)
  {
    if s == "" {
      assert s + rest == rest && atom + s == atom;
    } else {
      assert (s + rest)[1..] == s[1..] + rest;
      assert atom + [s[0]] + s[1..] == atom + s;
      PlainReads(c, s[1..], atom + [s[0]], rest, toks);
    }
  }

  lemma ControlReads(c: Config, ch: char, t: Control, atom: string, rest: string, toks: seq<Tok>)
    requires ch in c.kinds && c.kinds[ch] == Token(t)
    ensures TokFld(c, Normal, atom, [ch] + rest, toks) == TokFld(c, Normal, "", rest, toks + [Atom(atom), Ctl(t)])
  {
    assert ([ch] + rest)[1..] == rest;
  }

  // ---- CSV ----

  const CSV := Config(
    map['\"' := Quote, '\\' := Escape, ',' := Token(Comma), '\n' := Token(Lf), '\r' := Token(Cr)], ESCAPES)

  type Row = seq<string>

  /** csv_p/3 with cells and rows in reading order. */
  function CsvP(toks: seq<Tok>, cells: Row, rows: seq<Row>): Option<seq<Row>> {
    if toks == [] then None
    else if toks == [Atom("")] && cells == [] then Some(rows)
    else
      match toks[0]
      case Atom(a) => CsvP(toks[1..], cells + [a], rows)
      case Ctl(Comma) => CsvP(toks[1..], cells, rows)
      case Ctl(Cr) => CsvP(toks[1..], cells, rows)
      case Ctl(Lf) => CsvP(toks[1..], [], rows + [cells])
      case _ => None
  }

  function Csv(text: string): Option<seq<Row>> {
    var toks := Tokenize(CSV, text);
    if toks.None? then None else CsvP(toks.value, [], [])
  }

  /** Cells quoted, separated by commas, a line feed after each row. */
  function RowText(row: Row): string {
    if row == [] then "\n"
    else QuotedText(row[0]) + (if |row| == 1 then "\n" else "," + RowText(row[1..]))
  }

  function CsvText(rows: seq<Row>): string {
    if rows == [] then "" else RowText(rows[0]) + CsvText(rows[1..])
  }

  function RowToks(row: Row): seq<Tok> {
    if row == [] then [Atom(""), Ctl(Lf)]
    else [Atom(row[0])] + if |row| == 1 then [Ctl(Lf)] else [Ctl(Comma)] + RowToks(row[1..])
  }

  lemma CellReads(cell: string, ch: char, t: Control, tail: string, toks: seq<Tok>)
    requires ch in CSV.kinds && CSV.kinds[ch] == Token(t)
    ensures TokFld(CSV, Normal, "", QuotedText(cell) + [ch] + tail, toks)
         == TokFld(CSV, Normal, "", tail, toks + [Atom(cell), Ctl(t)])
  {
    hide TokFld, QuotedText;
    assert QuotedText(cell) + [ch] + tail == QuotedText(cell) + ([ch] + tail) && "" + cell == cell;
    QuotedReads(CSV, cell, "", [ch] + tail, toks);
    ControlReads(CSV, ch, t, cell, tail, toks);
  }

  lemma {:induction false} RowReads(row: Row, rest: string, toks: seq<Tok>)
    ensures TokFld(CSV, Normal, "", RowText(row) + rest, toks) == TokFld(CSV, Normal, "", rest, toks + RowToks(row))
  {
    hide TokFld, QuotedText;
    if row == [] {
      ControlReads(CSV, '\n', Lf, "", rest, toks);
    } else if |row| == 1 {
      CellReads(row[0], '\n', Lf, rest, toks);
      assert RowToks(row) == [Atom(row[0]), Ctl(Lf)];
    } else {
      FirstText(row, rest);
      FirstToks(row, toks);
      hide RowText, RowToks;
      CellReads(row[0], ',', Comma, RowText(row[1..]) + rest, toks);
      RowReads(row[1..], rest, toks + [Atom(row[0]), Ctl(Comma)]);
    }
  }

  lemma FirstText(row: Row, rest: string)
    requires |row| > 1
    ensures RowText(row) + rest == QuotedText(row[0]) + "," + (RowText(row[1..]) + rest)
  {
    InMiddle(QuotedText(row[0]), ",", RowText(row[1..]), rest);
  }

  lemma FirstToks(row: Row, toks: seq<Tok>)
    requires |row| > 1
    ensures toks + RowToks(row) == toks + [Atom(row[0]), Ctl(Comma)] + RowToks(row[1..])
  {
    TwoInFront(toks, Atom(row[0]), Ctl(Comma), RowToks(row[1..]));
  }

  lemma InMiddle<T>(a: seq<T>, b: seq<T>, c: seq<T>, d: seq<T>)
    ensures a + (b + c) + d == a + b + (c + d)
  {
  }

  lemma TwoInFront<T>(a: seq<T>, x: T, y: T, b: seq<T>)
    ensures a + ([x] + ([y] + b)) == a + [x, y] + b
  {
  }

  /** What a row reads as: one without cells prints like one with an empty cell. */
  function ReadAs(row: Row): Row {
    if row == [] then [""] else row
  }

  function AllReadAs(rows: seq<Row>): (r: seq<Row>)
    ensures |r| == |rows|
    ensures forall i :: 0 <= i < |rows| ==> r[i] == ReadAs(rows[i])
  {
    if rows == [] then [] else [ReadAs(rows[0])] + AllReadAs(rows[1..])
  }

  lemma CellParses(a: string, rest: seq<Tok>, cells: Row, rows: seq<Row>)
    requires rest != []
    ensures CsvP([Atom(a), Ctl(Comma)] + rest, cells, rows) == CsvP(rest, cells + [a], rows)
    ensures CsvP([Atom(a), Ctl(Lf)] + rest, cells, rows) == CsvP(rest, [], rows + [cells + [a]])
  {
    AfterTwo(Atom(a), Ctl(Comma), rest);
    AfterTwo(Atom(a), Ctl(Lf), rest);
  }

  lemma AfterTwo<T>(x: T, y: T, rest: seq<T>)
    ensures ([x, y] + rest)[1..] == [y] + rest && ([y] + rest)[1..] == rest
  {
  }

  lemma {:induction false} RowParses(row: Row, rest: seq<Tok>, cells: Row, rows: seq<Row>)
    requires rest != []
    ensures CsvP(RowToks(row) + rest, cells, rows) == CsvP(rest, [], rows + [cells + ReadAs(row)])
  {
    hide CsvP;
    if |row| <= 1 {
      var a := ReadAs(row)[0];
      assert RowToks(row) == [Atom(a), Ctl(Lf)] && ReadAs(row) == [a];
      CellParses(a, rest, cells, rows);
    } else {
      var a, more := row[0], RowToks(row[1..]);
      CellParses(a, more + rest, cells, rows);
      RowParses(row[1..], rest, cells + [a], rows);
      assert RowToks(row) + rest == [Atom(a), Ctl(Comma)] + (more + rest);
      assert cells + [a] + row[1..] == cells + row;
    }
  }

  lemma {:induction false} CsvReads(rows: seq<Row>, before: seq<Row>, toks: seq<Tok>)
    requires forall rest :: rest != [] ==> CsvP(toks + rest, [], []) == CsvP(rest, [], before)
    ensures var all := TokFld(CSV, Normal, "", CsvText(rows), toks);
            all.Some? && CsvP(all.value, [], []) == Some(before + AllReadAs(rows))
    decreases |rows|
  {
    if rows == [] {
      assert CsvP([Atom("")], [], before) == Some(before);
      assert before + [] == before;
    } else {
      hide TokFld, CsvP, RowText, RowToks;
      RowReads(rows[0], CsvText(rows[1..]), toks);
      var toks1, before1 := toks + RowToks(rows[0]), before + [ReadAs(rows[0])];
      forall rest | rest != [] ensures CsvP(toks1 + rest, [], []) == CsvP(rest, [], before1) {
        assert toks1 + rest == toks + (RowToks(rows[0]) + rest);
        RowParses(rows[0], rest, [], before);
        assert [] + ReadAs(rows[0]) == ReadAs(rows[0]);
      }
      CsvReads(rows[1..], before1, toks1);
      assert before1 + AllReadAs(rows[1..]) == before + AllReadAs(rows);
    }
  }

  lemma {:induction false} CsvReadsAs(rows: seq<Row>)
    ensures Csv(CsvText(rows)) == Some(AllReadAs(rows))
  {
    hide TokFld, CsvP, CsvText, AllReadAs;
    forall rest: seq<Tok> | rest != [] ensures CsvP([] + rest, [], []) == CsvP(rest, [], []) {
      assert [] + rest == rest;
    }
    CsvReads(rows, [], []);
    assert [] + AllReadAs(rows) == AllReadAs(rows);
  }

  /** Printing and reading CSV gives the same rows exactly if every row has a cell. */
  lemma {:induction false} CsvRoundTrip(rows: seq<Row>)
    ensures Csv(CsvText(rows)) == Some(rows) <==> forall i :: 0 <= i < |rows| ==> rows[i] != []
  {
    hide Csv, CsvText;
    CsvReadsAs(rows);
    if forall i :: 0 <= i < |rows| ==> rows[i] != [] {
      assert AllReadAs(rows) == rows;
    }
  }
}
