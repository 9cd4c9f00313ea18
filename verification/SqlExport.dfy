/** What the export writes is what the reader reads: the round trip of a whole dump. */
module SqlExport {
  import opened Options
  import opened SqlBackup
  import opened SqlReader

  // ------------------------------------------------------------ what a dump stands for

  /** NULL stands for null alone; a date or any other text is a literal. */
  function CellOf(v: Value): Cell {
    match v
    case Null => NullCell
    case Bare(text) => BareCell(text)
    case Timestamp(text) => TextCell(text)
    case Json(text) => JsonCell(text)
    case Text(text) => TextCell(text)
  }

  function RowOf(row: Row): seq<(string, Cell)> {
    seq(|row|, i requires 0 <= i < |row| => (row[i].name, CellOf(row[i].value)))
  }

  function RowsOf(table: string, rows: seq<Row>): seq<Statement> {
    seq(|rows|, i requires 0 <= i < |rows| => Insert(table, RowOf(rows[i])))
  }

  /** Every row of every table, in order. */
  function TablesOf(tables: seq<Table>): seq<Statement> {
    if tables == [] then [] else TablesOf(tables[..|tables| - 1]) + RowsOf(tables[|tables| - 1].name, tables[|tables| - 1].rows)
  }

  /** The three lines before the rows. */
  function HeaderOf(isoNow: string): seq<Statement> {
    [Line(Chars("-- LabourBaba Database Backup: " + isoNow)),
     Line(Chars("CREATE EXTENSION IF NOT EXISTS postgis;")),
     Line(Chars("SET session_replication_role = ") + [Literal("replica")] + Chars(";"))]
  }

  predicate ValidDump(isoNow: string, tables: seq<Table>) {
    Plain(isoNow) && '\n' !in isoNow && forall i :: 0 <= i < |tables| ==> ValidTable(tables[i])
  }

  // ------------------------------------------------------------ reading pieces

  lemma {:induction false} TokensAppend(a: seq<Piece>, b: seq<Piece>)
    ensures Tokens(a + b) == Tokens(a) + Tokens(b)
    decreases |a|
  {
    if a == [] {
      assert a + b == b;
    } else {
      TokensAppend(a[1..], b);
      assert (a + b)[1..] == a[1..] + b;
      assert TokensOf(a[0]) + (Tokens(a[1..]) + Tokens(b)) == TokensOf(a[0]) + Tokens(a[1..]) + Tokens(b);
    }
  }

  lemma Assoc3<T>(x: seq<T>, y: seq<T>, z: seq<T>)
    ensures x + y + z == x + (y + z)
  {
  }

  lemma JoinedTokens(a: seq<Piece>, b: seq<Piece>, rest: seq<Token>)
    ensures Tokens(a + b) + rest == Tokens(a) + (Tokens(b) + rest)
  {
    TokensAppend(a, b);
    Assoc3(Tokens(a), Tokens(b), rest);
  }

  lemma OneToken(p: Piece)
    ensures Tokens([p]) == TokensOf(p)
  {
    assert [p][1..] == [];
    assert TokensOf(p) + [] == TokensOf(p);
  }

  lemma SkipChars(text: string, rest: seq<Token>)
    ensures Skip(Chars(text) + rest, text) == Some(rest)
  {
    assert (Chars(text) + rest)[|text|..] == rest;
  }

  /** The tokens begin with one of the two characters that follow a name or a value. */
  predicate AtSeparator(ts: seq<Token>) {
    ts != [] && (ts[0] == Char(',') || ts[0] == Char(')'))
  }

  lemma SkipFails(ts: seq<Token>, text: string)
    requires text != "" && (ts == [] || ts[0] != Char(text[0]))
    ensures Skip(ts, text) == None
  {
  }

  function NamesOf(row: Row): seq<string> {
    seq(|row|, i requires 0 <= i < |row| => row[i].name)
  }

  function CellsOf(row: Row): seq<Cell> {
    seq(|row|, i requires 0 <= i < |row| => CellOf(row[i].value))
  }

  lemma {:induction false} NamesRead(row: Row, rest: seq<Token>)
    requires rest != [] && rest[0] == Char(')')
    ensures ReadNames(Tokens(NamePieces(row)) + rest) == (NamesOf(row), rest)
    decreases |row|
  {
    if row == [] {
      assert Tokens(NamePieces(row)) + rest == rest && NamesOf(row) == [];
    } else {
      var name := row[0].name;
      OneToken(Named(name));
      if |row| == 1 {
        LastNameRead(name, rest);
        assert NamesOf(row) == [name];
      } else {
        NamesRead(row[1..], rest);
        assert [Named(name), Raw(", ")] == [Named(name)] + [Raw(", ")];
        SeparatedTokens([Named(name)], NamePieces(row[1..]), rest);
        NameThenMore(name, Tokens(NamePieces(row[1..])) + rest);
        NamesOfCons(row);
      }
    }
  }

  lemma LastNameRead(name: string, rest: seq<Token>)
    requires rest != [] && rest[0] == Char(')')
    ensures ReadNames([Name(name)] + rest) == ([name], rest)
  {
    assert ([Name(name)] + rest)[1..] == rest;
    SkipFails(rest, ", ");
  }

  lemma NameThenMore(name: string, tail: seq<Token>)
    ensures ReadNames([Name(name)] + (Chars(", ") + tail)) == ([name] + ReadNames(tail).0, ReadNames(tail).1)
  {
    assert ([Name(name)] + (Chars(", ") + tail))[1..] == Chars(", ") + tail;
    SkipChars(", ", tail);
  }

  lemma NamesOfCons(row: Row)
    requires row != []
    ensures NamesOf(row) == [row[0].name] + NamesOf(row[1..])
  {
  }

  /** The tokens of a list element, a comma and the rest of the list. */
  lemma SeparatedTokens(first: seq<Piece>, others: seq<Piece>, rest: seq<Token>)
    ensures Tokens(first + [Raw(", ")] + others) + rest == Tokens(first) + (Chars(", ") + (Tokens(others) + rest))
  {
    JoinedTokens(first + [Raw(", ")], others, rest);
    JoinedTokens(first, [Raw(", ")], Tokens(others) + rest);
    OneToken(Raw(", "));
  }

  lemma {:induction false} WordRead(w: string, rest: seq<Token>)
    requires (forall i :: 0 <= i < |w| ==> WordChar(w[i])) && AtSeparator(rest)
    ensures TakeWord(Chars(w) + rest) == (w, rest)
    decreases |w|
  {
    var ts := Chars(w) + rest;
    if w == "" {
      assert ts == rest;
      NoWordRead(rest);
    } else {
      WordRead(w[1..], rest);
      assert ts[0] == Char(w[0]) && ts[1..] == Chars(w[1..]) + rest;
      assert [w[0]] + w[1..] == w;
    }
  }

  lemma NoWordRead(rest: seq<Token>)
    requires AtSeparator(rest)
    ensures TakeWord(rest) == ("", rest)
  {
    assert !WordChar(',') && !WordChar(')');
  }

  lemma WordCellRead(w: string, rest: seq<Token>)
    requires w != "" && (forall i :: 0 <= i < |w| ==> WordChar(w[i])) && AtSeparator(rest)
    ensures ReadCell(Chars(w) + rest) == Some((if w == "NULL" then NullCell else BareCell(w), rest))
  {
    WordRead(w, rest);
    assert (Chars(w) + rest)[0] == Char(w[0]);
  }

  lemma LiteralRead(text: string, rest: seq<Token>)
    requires AtSeparator(rest)
    ensures ReadCell([Literal(text)] + rest) == Some((TextCell(text), rest))
    ensures ReadCell([Literal(text)] + (Chars("::jsonb") + rest)) == Some((JsonCell(text), rest))
  {
    assert ([Literal(text)] + rest)[1..] == rest;
    SkipFails(rest, "::jsonb");
    assert ([Literal(text)] + (Chars("::jsonb") + rest))[1..] == Chars("::jsonb") + rest;
    SkipChars("::jsonb", rest);
  }

  lemma CellRead(v: Value, rest: seq<Token>)
    requires ValidValue(v) && AtSeparator(rest)
    ensures ReadCell(Tokens(ValuePieces(v)) + rest) == Some((CellOf(v), rest))
  {
    match v
    case Null =>
      OneToken(Raw("NULL"));
      WordCellRead("NULL", rest);
    case Bare(text) =>
      OneToken(Raw(text));
      WordCellRead(text, rest);
    case Timestamp(text) =>
      OneToken(Dated(text));
      LiteralRead(text, rest);
    case Text(text) =>
      OneToken(Quoted(text));
      LiteralRead(text, rest);
    case Json(text) =>
      LiteralRead(text, rest);
      JsonTokens(text, rest);
  }

  lemma JsonTokens(text: string, rest: seq<Token>)
    ensures Tokens(ValuePieces(Json(text))) + rest == [Literal(text)] + (Chars("::jsonb") + rest)
  {
    assert ValuePieces(Json(text)) == [Quoted(text)] + [Raw("::jsonb")];
    JoinedTokens([Quoted(text)], [Raw("::jsonb")], rest);
    OneToken(Raw("::jsonb"));
    OneToken(Quoted(text));
  }

  lemma {:induction false} CellsRead(row: Row, rest: seq<Token>)
    requires ValidRow(row) && rest != [] && rest[0] == Char(')')
    ensures ReadCells(Tokens(RowPieces(row)) + rest) == (CellsOf(row), rest)
    decreases |row|
  {
    if row == [] {
      assert Tokens(RowPieces(row)) + rest == rest && CellsOf(row) == [];
      NoWordRead(rest);
    } else if |row| == 1 {
      LastCellRead(row[0].value, rest);
      assert CellsOf(row) == [CellOf(row[0].value)];
    } else {
      CellsRead(row[1..], rest);
      SeparatedTokens(ValuePieces(row[0].value), RowPieces(row[1..]), rest);
      CellThenMore(row[0].value, Tokens(RowPieces(row[1..])) + rest);
      CellsOfCons(row);
    }
  }

  lemma LastCellRead(v: Value, rest: seq<Token>)
    requires ValidValue(v) && rest != [] && rest[0] == Char(')')
    ensures ReadCells(Tokens(ValuePieces(v)) + rest) == ([CellOf(v)], rest)
  {
    CellRead(v, rest);
    SkipFails(rest, ", ");
  }

  lemma CellThenMore(v: Value, tail: seq<Token>)
    requires ValidValue(v)
    ensures ReadCells(Tokens(ValuePieces(v)) + (Chars(", ") + tail)) == ([CellOf(v)] + ReadCells(tail).0, ReadCells(tail).1)
  {
    assert (Chars(", ") + tail)[0] == Char(',');
    CellRead(v, Chars(", ") + tail);
    CellsCons(Tokens(ValuePieces(v)) + (Chars(", ") + tail), CellOf(v), tail);
  }

  lemma CellsOfCons(row: Row)
    requires row != []
    ensures CellsOf(row) == [CellOf(row[0].value)] + CellsOf(row[1..])
  {
  }

  lemma CellsCons(ts: seq<Token>, cell: Cell, tail: seq<Token>)
    requires ReadCell(ts) == Some((cell, Chars(", ") + tail))
    ensures ReadCells(ts) == ([cell] + ReadCells(tail).0, ReadCells(tail).1)
  {
    SkipChars(", ", tail);
  }

  const INTO := "INSERT INTO "
  const OPENING := " ("
  const VALUES := ") VALUES ("
  const ENDING := ") ON CONFLICT DO NOTHING;\n"

  lemma InsertTokens(table: string, row: Row, rest: seq<Token>)
    ensures Tokens(InsertPieces(table, row)) + rest
            == Chars(INTO) + ([Name(table)] + (Chars(OPENING) + (Tokens(NamePieces(row))
               + (Chars(VALUES) + (Tokens(RowPieces(row)) + (Chars(ENDING) + rest))))))
  {
    var head := [Raw(INTO), Named(table), Raw(OPENING)];
    var names, values := NamePieces(row), RowPieces(row);
    assert InsertPieces(table, row) == head + names + [Raw(VALUES)] + values + [Raw(ENDING)];
    TokensAppend(head + names + [Raw(VALUES)] + values, [Raw(ENDING)]);
    TokensAppend(head + names + [Raw(VALUES)], values);
    TokensAppend(head + names, [Raw(VALUES)]);
    TokensAppend(head, names);
    HeadTokens(table);
    OneToken(Raw(VALUES));
    OneToken(Raw(ENDING));
    FlattenInsert(Chars(INTO), [Name(table)], Chars(OPENING), Tokens(names), Chars(VALUES), Tokens(values), Chars(ENDING), rest);
  }

  lemma HeadTokens(table: string)
    ensures Tokens([Raw(INTO), Named(table), Raw(OPENING)]) == Chars(INTO) + [Name(table)] + Chars(OPENING)
  {
    TokensAppend([Raw(INTO)] + [Named(table)], [Raw(OPENING)]);
    TokensAppend([Raw(INTO)], [Named(table)]);
    OneToken(Raw(INTO));
    OneToken(Named(table));
    OneToken(Raw(OPENING));
    assert [Raw(INTO), Named(table), Raw(OPENING)] == [Raw(INTO)] + [Named(table)] + [Raw(OPENING)];
  }

  lemma FlattenInsert<T>(a: seq<T>, b: seq<T>, c: seq<T>, d: seq<T>, e: seq<T>, f: seq<T>, g: seq<T>, h: seq<T>)
    ensures a + b + c + d + e + f + g + h == a + (b + (c + (d + (e + (f + (g + h))))))
  {
  }

  /** These statements, and then what the rest is read as. */
  function Then(first: seq<Statement>, rest: Option<seq<Statement>>): Option<seq<Statement>> {
    if rest.None? then None else Some(first + rest.value)
  }

  lemma ThenThen(a: seq<Statement>, b: seq<Statement>, rest: Option<seq<Statement>>)
    ensures Then(a, Then(b, rest)) == Then(a + b, rest) && Then([], rest) == rest
  {
    if rest.Some? {
      assert a + (b + rest.value) == a + b + rest.value;
      assert [] + rest.value == rest.value;
    }
  }

  /** One printed row is read back as its INSERT. */
  lemma InsertRead(table: string, row: Row, rest: seq<Token>)
    requires ValidRow(row)
    ensures ReadStatements(Tokens(InsertPieces(table, row)) + rest) == Then([Insert(table, RowOf(row))], ReadStatements(rest))
  {
    var cells := Tokens(RowPieces(row)) + (Chars(ENDING) + rest);
    var names := Tokens(NamePieces(row)) + (Chars(VALUES) + cells);
    var body := [Name(table)] + (Chars(OPENING) + names);
    InsertTokens(table, row, rest);
    InsertBodyRead(table, row, rest, cells, names);
    SkipChars(INTO, body);
  }

  lemma InsertBodyRead(table: string, row: Row, rest: seq<Token>, cells: seq<Token>, names: seq<Token>)
    requires ValidRow(row) && cells == Tokens(RowPieces(row)) + (Chars(ENDING) + rest)
    requires names == Tokens(NamePieces(row)) + (Chars(VALUES) + cells)
    ensures ReadInsert([Name(table)] + (Chars(OPENING) + names)) == Some((Insert(table, RowOf(row)), rest))
  {
    assert ([Name(table)] + (Chars(OPENING) + names))[1..] == Chars(OPENING) + names;
    SkipChars(OPENING, names);
    assert (Chars(VALUES) + cells)[0] == Char(')');
    NamesRead(row, Chars(VALUES) + cells);
    SkipChars(VALUES, cells);
    assert (Chars(ENDING) + rest)[0] == Char(')');
    CellsRead(row, Chars(ENDING) + rest);
    SkipChars(ENDING, rest);
    ZipIsRow(row);
  }

  lemma ZipIsRow(row: Row)
    ensures |NamesOf(row)| == |CellsOf(row)| && Zip(NamesOf(row), CellsOf(row)) == RowOf(row)
  {
  }

  lemma {:induction false} RowsRead(table: string, rows: seq<Row>, rest: seq<Token>)
    requires forall i :: 0 <= i < |rows| ==> ValidRow(rows[i])
    ensures ReadStatements(Tokens(RowsPieces(table, rows)) + rest) == Then(RowsOf(table, rows), ReadStatements(rest))
    decreases |rows|
  {
    if rows == [] {
      assert Tokens(RowsPieces(table, rows)) + rest == rest && RowsOf(table, rows) == [];
      ThenThen([], [], ReadStatements(rest));
    } else {
      var front, last := rows[..|rows| - 1], rows[|rows| - 1];
      var insert := InsertPieces(table, last);
      InsertRead(table, last, rest);
      RowsRead(table, front, Tokens(insert) + rest);
      JoinedTokens(RowsPieces(table, front), insert, rest);
      ThenThen(RowsOf(table, front), [Insert(table, RowOf(last))], ReadStatements(rest));
      RowsOfLast(table, rows);
    }
  }

  lemma RowsOfLast(table: string, rows: seq<Row>)
    requires rows != []
    ensures RowsOf(table, rows) == RowsOf(table, rows[..|rows| - 1]) + [Insert(table, RowOf(rows[|rows| - 1]))]
  {
  }

  lemma {:induction false} TablesRead(tables: seq<Table>, rest: seq<Token>)
    requires forall i :: 0 <= i < |tables| ==> ValidTable(tables[i])
    ensures ReadStatements(Tokens(TablesPieces(tables)) + rest) == Then(TablesOf(tables), ReadStatements(rest))
    decreases |tables|
  {
    if tables == [] {
      assert Tokens(TablesPieces(tables)) + rest == rest;
      ThenThen([], [], ReadStatements(rest));
    } else {
      var front, last := tables[..|tables| - 1], tables[|tables| - 1];
      var pieces := RowsPieces(last.name, last.rows);
      RowsRead(last.name, last.rows, rest);
      TablesRead(front, Tokens(pieces) + rest);
      JoinedTokens(TablesPieces(front), pieces, rest);
      ThenThen(TablesOf(front), RowsOf(last.name, last.rows), ReadStatements(rest));
    }
  }

  // ------------------------------------------------------------ the header

  lemma {:induction false} LineTaken(line: seq<Token>, rest: seq<Token>)
    requires Char('\n') !in line
    ensures TakeLine(line + (Chars("\n") + rest)) == (line, rest)
    decreases |line|
  {
    var ts := line + (Chars("\n") + rest);
    if line == [] {
      assert ts[0] == Char('\n') && ts[1..] == rest;
    } else {
      LineTaken(line[1..], rest);
      assert ts[0] == line[0] && ts[1..] == line[1..] + (Chars("\n") + rest);
      assert [line[0]] + line[1..] == line;
    }
  }

  /** A line that is not an INSERT. */
  predicate IsLine(line: seq<Token>) {
    Char('\n') !in line && line != [] && line[0] != Char('I')
  }

  lemma LineRead(line: seq<Token>, rest: seq<Token>)
    requires IsLine(line)
    ensures ReadStatements(line + (Chars("\n") + rest)) == Then([Line(line)], ReadStatements(rest))
  {
    LineTaken(line, rest);
    SkipFails(line + (Chars("\n") + rest), INTO);
  }

  lemma CharsAppend(a: string, b: string)
    ensures Chars(a) + Chars(b) == Chars(a + b)
  {
  }

  lemma CharsHaveNo(c: char, s: string)
    requires c !in s
    ensures Char(c) !in Chars(s)
  {
  }

  lemma BannerLine(isoNow: string)
    requires '\n' !in isoNow
    ensures var line := Chars("-- LabourBaba Database Backup: " + isoNow);
      IsLine(line) && Chars(BANNER) + Chars(isoNow) == line
  {
    assert '\n' !in BANNER;
    CharsHaveNo('\n', BANNER + isoNow);
    CharsAppend(BANNER, isoNow);
  }

  lemma ExtensionLine()
    ensures var line := Chars("CREATE EXTENSION IF NOT EXISTS postgis;");
      IsLine(line) && Chars(EXTENSION) == line
  {
    assert '\n' !in EXTENSION;
    CharsHaveNo('\n', EXTENSION);
  }

  lemma RoleLine()
    ensures var line := Chars("SET session_replication_role = ") + [Literal("replica")] + Chars(";");
      IsLine(line) && Chars(ROLE) + [Literal("replica")] + Chars(";") == line
  {
    assert '\n' !in ROLE;
    CharsHaveNo('\n', ROLE);
    CharsHaveNo('\n', ";");
  }

  lemma HeaderTokens(isoNow: string, rest: seq<Token>)
    ensures Tokens(HeaderPieces(isoNow)) + rest
            == Chars(BANNER) + Chars(isoNow) + (Chars("\n") + (Chars(EXTENSION) + (Chars("\n")
               + (Chars(ROLE) + [Literal("replica")] + Chars(";") + (Chars("\n") + rest)))))
  {
    var h := HeaderPieces(isoNow);
    assert h == [Raw(BANNER), Raw(isoNow)] + ([Raw("\n")] + ([Raw(EXTENSION)] + ([Raw("\n")] + ([Raw(ROLE), Quoted("replica"), Raw(";")] + [Raw("\n")]))));
    HeaderParts([Raw(BANNER), Raw(isoNow)], Raw("\n"), Raw(EXTENSION), [Raw(ROLE), Quoted("replica"), Raw(";")]);
    TwoTokens(Raw(BANNER), Raw(isoNow));
    ThreeTokens(Raw(ROLE), Quoted("replica"), Raw(";"));
    OneToken(Raw("\n"));
    OneToken(Raw(EXTENSION));
    FlattenHeader(Chars(BANNER) + Chars(isoNow), Chars("\n"), Chars(EXTENSION), Chars(ROLE) + [Literal("replica")] + Chars(";"), rest);
  }

  lemma HeaderParts(a: seq<Piece>, n: Piece, e: Piece, c: seq<Piece>)
    ensures Tokens(a + ([n] + ([e] + ([n] + (c + [n]))))) == Tokens(a) + (Tokens([n]) + (Tokens([e]) + (Tokens([n]) + (Tokens(c) + Tokens([n])))))
  {
    TokensAppend(a, [n] + ([e] + ([n] + (c + [n]))));
    TokensAppend([n], [e] + ([n] + (c + [n])));
    TokensAppend([e], [n] + (c + [n]));
    TokensAppend([n], c + [n]);
    TokensAppend(c, [n]);
  }

  lemma FlattenHeader<T>(a: seq<T>, n: seq<T>, e: seq<T>, c: seq<T>, rest: seq<T>)
    ensures a + (n + (e + (n + (c + n)))) + rest == a + (n + (e + (n + (c + (n + rest)))))
  {
  }

  lemma TwoTokens(p: Piece, q: Piece)
    ensures Tokens([p, q]) == TokensOf(p) + TokensOf(q)
  {
    assert [p, q] == [p] + [q];
    TokensAppend([p], [q]);
    OneToken(p);
    OneToken(q);
  }

  lemma ThreeTokens(p: Piece, q: Piece, o: Piece)
    ensures Tokens([p, q, o]) == TokensOf(p) + TokensOf(q) + TokensOf(o)
  {
    assert [p, q, o] == [p, q] + [o];
    TokensAppend([p, q], [o]);
    TwoTokens(p, q);
    OneToken(o);
  }

  lemma HeaderRead(isoNow: string, rest: seq<Token>)
    requires '\n' !in isoNow
    ensures ReadStatements(Tokens(HeaderPieces(isoNow)) + rest) == Then(HeaderOf(isoNow), ReadStatements(rest))
  {
    BannerLine(isoNow);
    ExtensionLine();
    RoleLine();
    HeaderTokens(isoNow, rest);
    var role := Chars(ROLE) + [Literal("replica")] + Chars(";");
    ThreeLinesRead(Chars(BANNER) + Chars(isoNow), Chars(EXTENSION), role, rest);
  }

  lemma ThreeLinesRead(a: seq<Token>, b: seq<Token>, c: seq<Token>, rest: seq<Token>)
    requires IsLine(a) && IsLine(b) && IsLine(c)
    ensures ReadStatements(a + (Chars("\n") + (b + (Chars("\n") + (c + (Chars("\n") + rest))))))
            == Then([Line(a), Line(b), Line(c)], ReadStatements(rest))
  {
    var third := c + (Chars("\n") + rest);
    var second := b + (Chars("\n") + third);
    LineRead(c, rest);
    LineRead(b, third);
    LineRead(a, second);
    ThenThen([Line(b)], [Line(c)], ReadStatements(rest));
    ThenThen([Line(a)], [Line(b)] + [Line(c)], ReadStatements(rest));
    assert [Line(a)] + ([Line(b)] + [Line(c)]) == [Line(a), Line(b), Line(c)];
  }

  /**
   Reading the dump back gives the three lines of the header and then, for every table and row in order, the
   table's name and each column's name with its value: NULL for null and for nothing else, a
   number or boolean as the word it prints, a date or text as a literal, an object as jsonb.
   */
  lemma DumpRoundTrip(isoNow: string, tables: seq<Table>)
    requires ValidDump(isoNow, tables)
    ensures ReadDump(Print(DumpPieces(isoNow, tables))) == Some(HeaderOf(isoNow) + TablesOf(tables))
  {
    DumpScans(isoNow, tables);
    TokensAppend(HeaderPieces(isoNow), TablesPieces(tables));
    TablesRead(tables, []);
    assert Tokens(TablesPieces(tables)) + [] == Tokens(TablesPieces(tables));
    assert TablesOf(tables) + [] == TablesOf(tables);
    HeaderRead(isoNow, Tokens(TablesPieces(tables)));
  }

  // ------------------------------------------------------------ the export loop

  function Concat(chunks: seq<string>): string {
    if chunks == [] then "" else Concat(chunks[..|chunks| - 1]) + chunks[|chunks| - 1]
  }

  lemma Assoc(x: string, y: string, z: string)
    ensures x + (y + z) == x + y + z
  {
  }

  lemma {:induction false} PrintAppend(a: seq<Piece>, b: seq<Piece>)
    ensures Print(a + b) == Print(a) + Print(b)
    decreases |a|
  {
    if a == [] {
      assert a + b == b;
    } else {
      var head := PrintPiece(a[0]);
      assert Print(a) == head + Print(a[1..]);
      assert a + b == [a[0]] + (a[1..] + b);
      PrintCons(a + b, a[0], a[1..] + b);
      PrintAppend(a[1..], b);
      Assoc(head, Print(a[1..]), Print(b));
    }
  }

  lemma PrintCons(ps: seq<Piece>, p: Piece, rest: seq<Piece>)
    requires ps == [p] + rest
    ensures Print(ps) == PrintPiece(p) + Print(rest)
  {
    assert ps[1..] == rest;
  }

  lemma ConcatPush(chunks: seq<string>, chunk: string)
    ensures Concat(chunks + [chunk]) == Concat(chunks) + chunk
  {
    assert (chunks + [chunk])[..|chunks|] == chunks;
  }

  /** The nested loops push one chunk per row; read back, the file is the header and every row of every table. */
  method Export(isoNow: string, tables: seq<Table>) returns (sqlChunks: seq<string>)
    ensures Concat(sqlChunks) == Print(DumpPieces(isoNow, tables))
    ensures ValidDump(isoNow, tables) ==> ReadDump(Concat(sqlChunks)) == Some(HeaderOf(isoNow) + TablesOf(tables))
  {
    sqlChunks := [Print(HeaderPieces(isoNow))];
    assert Concat(sqlChunks) == Print(HeaderPieces(isoNow)) by { ConcatPush([], sqlChunks[0]); }
    assert HeaderPieces(isoNow) + TablesPieces([]) == HeaderPieces(isoNow);
    for i := 0 to |tables|
      invariant Concat(sqlChunks) == Print(HeaderPieces(isoNow) + TablesPieces(tables[..i]))
    {
      var t := tables[i];
      ghost var before := HeaderPieces(isoNow) + TablesPieces(tables[..i]);
      assert before + RowsPieces(t.name, t.rows[..0]) == before;
      for j := 0 to |t.rows|
        invariant Concat(sqlChunks) == Print(before + RowsPieces(t.name, t.rows[..j]))
      {
        var chunk := Print(InsertPieces(t.name, t.rows[j]));
        ConcatPush(sqlChunks, chunk);
        RowPushed(before, t, j);
        sqlChunks := sqlChunks + [chunk];
      }
      TablePushed(HeaderPieces(isoNow), tables, i);
    }
    assert tables[..|tables|] == tables;
    if ValidDump(isoNow, tables) {
      DumpRoundTrip(isoNow, tables);
    }
  }

  lemma RowPushed(before: seq<Piece>, t: Table, j: nat)
    requires j < |t.rows|
    ensures Print(before + RowsPieces(t.name, t.rows[..j + 1]))
            == Print(before + RowsPieces(t.name, t.rows[..j])) + Print(InsertPieces(t.name, t.rows[j]))
  {
    var rows, insert := RowsPieces(t.name, t.rows[..j]), InsertPieces(t.name, t.rows[j]);
    assert t.rows[..j + 1][..j] == t.rows[..j];
    assert before + (rows + insert) == before + rows + insert;
    PrintAppend(before + rows, insert);
  }

  lemma TablePushed(before: seq<Piece>, tables: seq<Table>, i: nat)
    requires i < |tables|
    ensures before + TablesPieces(tables[..i + 1]) == before + TablesPieces(tables[..i]) + RowsPieces(tables[i].name, tables[i].rows[..|tables[i].rows|])
  {
    assert tables[..i + 1][..i] == tables[..i];
    assert tables[i].rows[..|tables[i].rows|] == tables[i].rows;
  }
}
