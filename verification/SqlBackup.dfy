/**
 The programmatic export of the backup script: the order of the tables, the
 printing of rows as INSERT statements, and a scanner that takes the dump apart
 by the rules of SQL (a quote inside a literal or a quoted name is doubled).
 */
module SqlBackup {
  import opened Options

  /** A driver value: null, a boolean or number, a date, an object, or anything else as text. */
  datatype Value = Null | Bare(text: string) | Timestamp(text: string) | Json(text: string) | Text(text: string)

  datatype Column = Column(name: string, value: Value)
  type Row = seq<Column>
  datatype Table = Table(name: string, rows: seq<Row>)

  const QUOTE: char := '\''
  const NAME_QUOTE: char := '"'

  predicate Plain(s: string) {
    QUOTE !in s && NAME_QUOTE !in s
  }

  /** What numbers and booleans are written with. */
  predicate WordChar(c: char) {
    'a' <= c <= 'z' || 'A' <= c <= 'Z' || '0' <= c <= '9' || c == '+' || c == '-' || c == '.'
  }

  /** The printed form of a number or a boolean. */
  predicate Word(text: string) {
    text != "" && text != "NULL" && forall i :: 0 <= i < |text| ==> WordChar(text[i])
  }

  /** Numbers and booleans print as words, dates hold no quote; column and table names hold no double quote. */
  predicate ValidValue(v: Value) {
    match v
    case Bare(text) => Word(text)
    case Timestamp(text) => QUOTE !in text
    case _ => true
  }

  predicate ValidRow(row: Row) {
    forall i :: 0 <= i < |row| ==> NAME_QUOTE !in row[i].name && ValidValue(row[i].value)
  }

  predicate ValidTable(t: Table) {
    NAME_QUOTE !in t.name && forall i :: 0 <= i < |t.rows| ==> ValidRow(t.rows[i])
  }

  // ------------------------------------------------------------ printing

  /** replace(/'/g, "''"), for any quote. */
  function Doubled(s: string, quote: char): string {
    if s == [] then [] else (if s[0] == quote then [quote, quote] else [s[0]]) + Doubled(s[1..], quote)
  }

  /**
   A template literal part: text without quotes; a value or a name between quotes, the former
   with its quotes doubled or, for a date, as it is.
   */
  datatype Piece = Raw(text: string) | Quoted(text: string) | Dated(text: string) | Named(text: string)

  function PrintPiece(p: Piece): string {
    match p
    case Raw(text) => text
    case Quoted(text) => [QUOTE] + (Doubled(text, QUOTE) + [QUOTE])
    case Dated(text) => [QUOTE] + (text + [QUOTE])
    case Named(text) => [NAME_QUOTE] + (text + [NAME_QUOTE])
  }

  function Print(ps: seq<Piece>): string {
    if ps == [] then "" else PrintPiece(ps[0]) + Print(ps[1..])
  }

  function ValuePieces(v: Value): seq<Piece> {
    match v
    case Null => [Raw("NULL")]
    case Bare(text) => [Raw(text)]
    case Timestamp(text) => [Dated(text)]
    case Json(text) => [Quoted(text), Raw("::jsonb")]
    case Text(text) => [Quoted(text)]
  }

  /** The quoted column names, joined by commas. */
  function NamePieces(row: Row): seq<Piece> {
    if row == [] then [] else if |row| == 1 then [Named(row[0].name)]
    else [Named(row[0].name), Raw(", ")] + NamePieces(row[1..])
  }

  /** The printed values, joined by commas. */
  function RowPieces(row: Row): seq<Piece> {
    if row == [] then [] else if |row| == 1 then ValuePieces(row[0].value)
    else ValuePieces(row[0].value) + [Raw(", ")] + RowPieces(row[1..])
  }

  function InsertPieces(table: string, row: Row): seq<Piece> {
    [Raw("INSERT INTO "), Named(table), Raw(" (")] + NamePieces(row) + [Raw(") VALUES (")] + RowPieces(row)
    + [Raw(") ON CONFLICT DO NOTHING;\n")]
  }

  function RowsPieces(table: string, rows: seq<Row>): seq<Piece> {
    if rows == [] then [] else RowsPieces(table, rows[..|rows| - 1]) + InsertPieces(table, rows[|rows| - 1])
  }

  function TablesPieces(tables: seq<Table>): seq<Piece> {
    if tables == [] then []
    else TablesPieces(tables[..|tables| - 1]) + RowsPieces(tables[|tables| - 1].name, tables[|tables| - 1].rows)
  }

  const BANNER := "-- LabourBaba Database Backup: "
  const EXTENSION := "CREATE EXTENSION IF NOT EXISTS postgis;"
  const ROLE := "SET session_replication_role = "

  function HeaderPieces(isoNow: string): seq<Piece> {
    [Raw(BANNER), Raw(isoNow), Raw("\n"), Raw(EXTENSION), Raw("\n"), Raw(ROLE), Quoted("replica"), Raw(";"), Raw("\n")]
  }

  function DumpPieces(isoNow: string, tables: seq<Table>): seq<Piece> {
    HeaderPieces(isoNow) + TablesPieces(tables)
  }

  // ------------------------------------------------------------ scanning

  datatype Token = Literal(text: string) | Name(text: string) | Char(c: char)

  /** The text up to the closing quote, and what follows it. */
  function Body(s: string, quote: char): (r: Option<(string, string)>)
    ensures r.Some? ==> |r.value.1| < |s|
  {
    if s == [] then None
    else if s[0] == quote then
      if |s| >= 2 && s[1] == quote then
        var rest := Body(s[2..], quote);
        if rest.None? then None else Some(([quote] + rest.value.0, rest.value.1))
      else Some(([], s[1..]))
    else
      var rest := Body(s[1..], quote);
      if rest.None? then None else Some(([s[0]] + rest.value.0, rest.value.1))
  }

  /** The tokens of a text, None if a quote is left open. */
  function Scan(s: string): Option<seq<Token>>
    decreases |s|
  {
    if s == [] then Some([])
    else if s[0] == QUOTE || s[0] == NAME_QUOTE then
      var body := Body(s[1..], s[0]);
      if body.None? then None
      else
        var rest := Scan(body.value.1);
        if rest.None? then None
        else Some([if s[0] == QUOTE then Literal(body.value.0) else Name(body.value.0)] + rest.value)
    else
      var rest := Scan(s[1..]);
      if rest.None? then None else Some([Char(s[0])] + rest.value)
  }

  function Chars(s: string): seq<Token> {
    seq(|s|, i requires 0 <= i < |s| => Char(s[i]))
  }

  // ------------------------------------------------------------ the round trip

  predicate StartsWith(s: string, c: char) {
    |s| > 0 && s[0] == c
  }

  /** A quoted text ends exactly where its own closing quote is, whatever it contains. */
  lemma {:induction false} BodyOfDoubled(s: string, rest: string, quote: char)
    requires !StartsWith(rest, quote)
    ensures Body(Doubled(s, quote) + [quote] + rest, quote) == Some((s, rest))
    decreases |s|
  {
    var text := Doubled(s, quote) + [quote] + rest;
    if s == [] {
      assert text == [quote] + rest;
      assert text[1..] == rest;
    } else {
      BodyOfDoubled(s[1..], rest, quote);
      var tail := Doubled(s[1..], quote) + [quote] + rest;
      if s[0] == quote {
        assert text == [quote, quote] + tail;
        assert text[2..] == tail;
      } else {
        assert text == [s[0]] + tail;
        assert text[1..] == tail;
      }
      assert [s[0]] + s[1..] == s;
    }
  }

  lemma {:induction false} DoubledPlain(s: string, quote: char)
    requires quote !in s
    ensures Doubled(s, quote) == s
    decreases |s|
  {
    if s != [] {
      DoubledPlain(s[1..], quote);
      assert [s[0]] + s[1..] == s;
    }
  }

  function TokensOf(p: Piece): seq<Token> {
    match p
    case Raw(text) => Chars(text)
    case Named(text) => [Name(text)]
    case _ => [Literal(p.text)]
  }

  function Tokens(ps: seq<Piece>): seq<Token> {
    if ps == [] then [] else TokensOf(ps[0]) + Tokens(ps[1..])
  }

  predicate ValidPiece(p: Piece) {
    match p
    case Raw(text) => Plain(text)
    case Quoted(_) => true
    case Dated(text) => QUOTE !in text
    case Named(text) => NAME_QUOTE !in text
  }

  /** Valid pieces in which nothing that opens with a quote follows a quoted piece. */
  ghost predicate Safe(ps: seq<Piece>) {
    && (forall i :: 0 <= i < |ps| ==> ValidPiece(ps[i]))
    && (forall i :: 0 <= i < |ps| - 1 && !ps[i].Raw? ==> ps[i + 1].Raw? && ps[i + 1].text != "")
  }

  lemma ScanOfQuote(quote: char, text: string, s: string, rest: string)
    requires (quote == QUOTE || quote == NAME_QUOTE) && Body(text, quote) == Some((s, rest)) && Scan(rest).Some?
    ensures Scan([quote] + text) == Some([if quote == QUOTE then Literal(s) else Name(s)] + Scan(rest).value)
  {
    assert ([quote] + text)[1..] == text;
  }

  lemma {:induction false} ScanOfPlain(s: string, rest: string)
    requires Plain(s) && Scan(rest).Some?
    ensures Scan(s + rest) == Some(Chars(s) + Scan(rest).value)
    decreases |s|
  {
    if s == [] {
      assert s + rest == rest && Chars(s) + Scan(rest).value == Scan(rest).value;
    } else {
      ScanOfPlain(s[1..], rest);
      assert (s + rest)[1..] == s[1..] + rest;
      assert Chars(s) + Scan(rest).value == [Char(s[0])] + (Chars(s[1..]) + Scan(rest).value);
    }
  }

  lemma ScanOfPiece(p: Piece, rest: string)
    requires ValidPiece(p) && Scan(rest).Some?
    requires !p.Raw? ==> !StartsWith(rest, QUOTE) && !StartsWith(rest, NAME_QUOTE)
    ensures Scan(PrintPiece(p) + rest) == Some(TokensOf(p) + Scan(rest).value)
  {
    match p
    case Raw(text) => ScanOfPlain(text, rest);
    case Quoted(text) => ScanOfQuoted(text, rest, QUOTE);
    case Dated(text) =>
      DoubledPlain(text, QUOTE);
      ScanOfQuoted(text, rest, QUOTE);
    case Named(text) =>
      DoubledPlain(text, NAME_QUOTE);
      ScanOfQuoted(text, rest, NAME_QUOTE);
  }

  lemma ScanOfQuoted(s: string, rest: string, quote: char)
    requires (quote == QUOTE || quote == NAME_QUOTE) && !StartsWith(rest, quote) && Scan(rest).Some?
    ensures Scan([quote] + (Doubled(s, quote) + [quote]) + rest)
            == Some([if quote == QUOTE then Literal(s) else Name(s)] + Scan(rest).value)
  {
    var text := Doubled(s, quote) + [quote] + rest;
    BodyOfDoubled(s, rest, quote);
    ScanOfQuote(quote, text, s, rest);
    assert [quote] + (Doubled(s, quote) + [quote]) + rest == [quote] + text;
  }

  /** Scanning a printed list of pieces gives back the pieces. */
  lemma {:induction false} ScanOfPrint(ps: seq<Piece>)
    requires Safe(ps)
    ensures Scan(Print(ps)) == Some(Tokens(ps))
    decreases |ps|
  {
    if ps != [] {
      ScanOfPrint(ps[1..]);
      if !ps[0].Raw? {
        RestIsPlain(ps);
      }
      ScanOfPiece(ps[0], Print(ps[1..]));
    }
  }

  lemma RestIsPlain(ps: seq<Piece>)
    requires Safe(ps) && ps != [] && !ps[0].Raw?
    ensures !StartsWith(Print(ps[1..]), QUOTE) && !StartsWith(Print(ps[1..]), NAME_QUOTE)
  {
    if |ps| > 1 {
      assert ps[1..][0] == ps[0 + 1] && ValidPiece(ps[1]);
      assert Print(ps[1..])[0] == ps[1].text[0];
    }
  }

  /** Pieces may be joined where one side of the joint is plain text. */
  lemma SafeAppend(a: seq<Piece>, b: seq<Piece>)
    requires Safe(a) && Safe(b)
    requires a == [] || b == [] || a[|a| - 1].Raw? || (b[0].Raw? && b[0].text != "")
    ensures Safe(a + b)
  {
  }

  lemma {:induction false} NamesAreSafe(row: Row)
    requires ValidRow(row)
    ensures Safe(NamePieces(row))
    decreases |row|
  {
    if |row| > 1 {
      NamesAreSafe(row[1..]);
      SafeAppend([Named(row[0].name), Raw(", ")], NamePieces(row[1..]));
    }
  }

  lemma {:induction false} RowIsSafe(row: Row)
    requires ValidRow(row)
    ensures Safe(RowPieces(row))
    decreases |row|
  {
    if |row| > 1 {
      RowIsSafe(row[1..]);
      SafeAppend(ValuePieces(row[0].value), [Raw(", ")]);
      SafeAppend(ValuePieces(row[0].value) + [Raw(", ")], RowPieces(row[1..]));
    }
  }

  ghost predicate EndsPlain(ps: seq<Piece>) {
    ps == [] || ps[|ps| - 1].Raw?
  }

  lemma RawIsSafe(text: string)
    requires Plain(text)
    ensures Safe([Raw(text)])
  {
  }

  lemma InsertHeadIsSafe(table: string)
    requires NAME_QUOTE !in table
    ensures Safe([Raw("INSERT INTO "), Named(table), Raw(" (")])
  {
    assert Plain("INSERT INTO ");
  }

  /** Three parts around the names and values, all plain where they meet them. */
  lemma JoinIsSafe(head: seq<Piece>, names: seq<Piece>, middle: string, values: seq<Piece>, tail: string)
    requires Safe(head) && head != [] && EndsPlain(head) && Safe(names) && Safe(values)
    requires Plain(middle) && middle != "" && Plain(tail) && tail != ""
    ensures Safe(head + names + [Raw(middle)] + values + [Raw(tail)])
  {
    RawIsSafe(middle);
    RawIsSafe(tail);
    SafeAppend(head, names);
    SafeAppend(head + names, [Raw(middle)]);
    SafeAppend(head + names + [Raw(middle)], values);
    SafeAppend(head + names + [Raw(middle)] + values, [Raw(tail)]);
  }

  lemma InsertIsSafe(table: string, row: Row)
    requires NAME_QUOTE !in table && ValidRow(row)
    ensures Safe(InsertPieces(table, row)) && EndsPlain(InsertPieces(table, row))
  {
    NamesAreSafe(row);
    RowIsSafe(row);
    InsertHeadIsSafe(table);
    JoinIsSafe([Raw("INSERT INTO "), Named(table), Raw(" (")], NamePieces(row), ") VALUES (", RowPieces(row), ") ON CONFLICT DO NOTHING;\n");
  }

  lemma BannerIsPlain()
    ensures Plain(BANNER)
  {
  }

  lemma ExtensionIsPlain()
    ensures Plain(EXTENSION)
  {
  }

  lemma RoleIsPlain()
    ensures Plain(ROLE)
  {
  }

  lemma HeaderIsSafe(isoNow: string)
    requires Plain(isoNow)
    ensures Safe(HeaderPieces(isoNow))
  {
    BannerIsPlain();
    ExtensionIsPlain();
    RoleIsPlain();
    HeaderShapeIsSafe(HeaderPieces(isoNow));
  }

  lemma HeaderShapeIsSafe(h: seq<Piece>)
    requires |h| == 9 && forall i :: 0 <= i < 9 ==> ValidPiece(h[i])
    requires forall i :: 0 <= i < 9 && i != 6 ==> h[i].Raw?
    requires h[7].text != ""
    ensures Safe(h)
  {
  }

  lemma {:induction false} RowsAreSafe(table: string, rows: seq<Row>)
    requires NAME_QUOTE !in table && forall i :: 0 <= i < |rows| ==> ValidRow(rows[i])
    ensures Safe(RowsPieces(table, rows)) && EndsPlain(RowsPieces(table, rows))
    decreases |rows|
  {
    if rows != [] {
      RowsAreSafe(table, rows[..|rows| - 1]);
      InsertIsSafe(table, rows[|rows| - 1]);
      SafeAppend(RowsPieces(table, rows[..|rows| - 1]), InsertPieces(table, rows[|rows| - 1]));
    }
  }

  lemma {:induction false} TablesAreSafe(tables: seq<Table>)
    requires forall i :: 0 <= i < |tables| ==> ValidTable(tables[i])
    ensures Safe(TablesPieces(tables)) && EndsPlain(TablesPieces(tables))
    decreases |tables|
  {
    if tables != [] {
      var front, last := tables[..|tables| - 1], tables[|tables| - 1];
      TablesAreSafe(front);
      RowsAreSafe(last.name, last.rows);
      SafeAppend(TablesPieces(front), RowsPieces(last.name, last.rows));
    }
  }

  /** Scanning the whole dump gives back its pieces: no content ends its literal early or swallows what follows. */
  lemma DumpScans(isoNow: string, tables: seq<Table>)
    requires Plain(isoNow) && forall i :: 0 <= i < |tables| ==> ValidTable(tables[i])
    ensures Scan(Print(DumpPieces(isoNow, tables))) == Some(Tokens(DumpPieces(isoNow, tables)))
  {
    HeaderIsSafe(isoNow);
    TablesAreSafe(tables);
    SafeAppend(HeaderPieces(isoNow), TablesPieces(tables));
    ScanOfPrint(DumpPieces(isoNow, tables));
  }

  // ------------------------------------------------------------ names are not doubled

  function Repeat(c: char, n: nat): string {
    seq(n, _ => c)
  }

  lemma BodyStart(s: string, quote: char)
    requires !StartsWith(s, quote)
    ensures Body(s, quote).Some? ==> Body(s, quote).value.0 != [] && Body(s, quote).value.0[0] == s[0]
  {
  }

  /** A doubled quote is never read back as one quote and nothing else. */
  lemma LoneQuote(m: nat, rest: string, quote: char)
    requires !StartsWith(rest, quote)
    ensures Body([quote, quote] + rest, quote) == None || Body([quote, quote] + rest, quote).value.0 != Repeat(quote, m) + [quote]
  {
    var x := [quote, quote] + rest;
    assert x[2..] == rest;
    BodyStart(rest, quote);
    if m > 0 {
      assert (Repeat(quote, m) + [quote])[1] == quote;
    }
  }

  /** No text that starts with more quotes than `y`, nor `y` itself if it has one, is read from `y` and its closing quote. */
  lemma {:induction false} UndoubledBody(y: string, m: nat, rest: string, quote: char)
    requires !StartsWith(rest, quote)
    requires Body(y + [quote] + rest, quote).Some? && Body(y + [quote] + rest, quote).value.0 == Repeat(quote, m) + y
    ensures m == 0 && quote !in y
    decreases |y|
  {
    var x := y + [quote] + rest;
    var content := Body(x, quote).value.0;
    if y == [] {
      assert x[1..] == rest;
      assert content == [];
    } else if y[0] != quote {
      assert content[0] == if m > 0 then quote else y[0];
      assert x[1..] == y[1..] + [quote] + rest;
      assert content[0] == y[0];
      assert content == y;
      assert content[1..] == Repeat(quote, 0) + y[1..];
      UndoubledBody(y[1..], 0, rest, quote);
    } else if y == [quote] {
      assert x == [quote, quote] + rest;
      LoneQuote(m, rest, quote);
      assert false;
    } else {
      assert x[1] == quote by {
        assert content != [];
      }
      var inner := Body(x[2..], quote).value.0;
      assert content == [quote] + inner;
      assert Repeat(quote, m) + y == [quote] + (Repeat(quote, m) + y[1..]);
      assert inner == content[1..] == Repeat(quote, m) + y[1..];
      assert x[2..] == y[2..] + [quote] + rest;
      assert y[1..] == [quote] + y[2..];
      assert inner == Repeat(quote, m + 1) + y[2..];
      UndoubledBody(y[2..], m + 1, rest, quote);
    }
  }

  /** Names are printed without doubling, so a name is read back if and only if it holds no double quote. */
  lemma NameRoundTripsIff(name: string, rest: string)
    requires !StartsWith(rest, NAME_QUOTE)
    ensures Body(name + [NAME_QUOTE] + rest, NAME_QUOTE) == Some((name, rest)) <==> NAME_QUOTE !in name
  {
    if NAME_QUOTE !in name {
      DoubledPlain(name, NAME_QUOTE);
      BodyOfDoubled(name, rest, NAME_QUOTE);
    } else if Body(name + [NAME_QUOTE] + rest, NAME_QUOTE) == Some((name, rest)) {
      assert Repeat(NAME_QUOTE, 0) + name == name;
      UndoubledBody(name, 0, rest, NAME_QUOTE);
      assert false;
    }
  }

  // ------------------------------------------------------------ the order of the tables

  function Keep(ts: seq<string>, which: set<string>): (r: seq<string>)
    ensures forall t :: t in r <==> t in ts && t in which
  {
    if ts == [] then [] else (if ts[0] in which then [ts[0]] else []) + Keep(ts[1..], which)
  }

  function Names(ts: seq<string>): set<string> {
    set t | t in ts
  }

  function SortedTables(preferred: seq<string>, available: seq<string>): seq<string> {
    Keep(preferred, Names(available)) + Keep(available, Names(available) - Names(preferred))
  }

  ghost predicate Distinct(ts: seq<string>) {
    forall i, j :: 0 <= i < j < |ts| ==> ts[i] != ts[j]
  }

  /** `a` stands before `b` in `ts`. */
  ghost predicate Before(ts: seq<string>, a: string, b: string) {
    exists i, j :: 0 <= i < j < |ts| && ts[i] == a && ts[j] == b
  }

  lemma {:induction false} KeepKeepsOrder(ts: seq<string>, which: set<string>)
    requires Distinct(ts)
    ensures Distinct(Keep(ts, which))
    ensures forall i, j :: 0 <= i < j < |Keep(ts, which)| ==> Before(ts, Keep(ts, which)[i], Keep(ts, which)[j])
    decreases |ts|
  {
    if ts != [] {
      var rest := Keep(ts[1..], which);
      KeepKeepsOrder(ts[1..], which);
      var kept := Keep(ts, which);
      var shift := |kept| - |rest|;
      forall i, j | 0 <= i < j < |kept| ensures kept[i] != kept[j] && Before(ts, kept[i], kept[j]) {
        assert kept[j] == rest[j - shift];
        assert kept[j] in ts[1..];
        if i < shift {
          var k :| 0 <= k < |ts[1..]| && ts[1..][k] == kept[j];
          assert ts[0] == kept[i] && ts[k + 1] == kept[j];
        } else {
          assert kept[i] == rest[i - shift];
          assert Before(ts[1..], rest[i - shift], rest[j - shift]);
          var a, b :| 0 <= a < b < |ts[1..]| && ts[1..][a] == kept[i] && ts[1..][b] == kept[j];
          assert ts[a + 1] == kept[i] && ts[b + 1] == kept[j];
        }
      }
    }
  }

  lemma {:induction false} DistinctMultiset(a: seq<string>, b: seq<string>)
    requires Distinct(a) && Distinct(b) && Names(a) == Names(b)
    ensures multiset(a) == multiset(b)
  {
    forall t ensures multiset(a)[t] == multiset(b)[t] {
      OccursOnce(a, t);
      OccursOnce(b, t);
      assert t in a <==> t in Names(a);
      assert t in b <==> t in Names(b);
    }
  }

  lemma {:induction false} OccursOnce(a: seq<string>, t: string)
    requires Distinct(a)
    ensures multiset(a)[t] == if t in a then 1 else 0
    decreases |a|
  {
    if a != [] {
      OccursOnce(a[1..], t);
      assert a == [a[0]] + a[1..];
    }
  }

  /**
   The export order is a permutation of the available tables; the preferred ones come first, in
   the preferred order.
   */
  lemma TableOrder(preferred: seq<string>, available: seq<string>)
    requires Distinct(preferred) && Distinct(available)
    ensures var sorted := SortedTables(preferred, available);
      && multiset(sorted) == multiset(available)
      && forall i, j :: 0 <= i < j < |sorted| && sorted[j] in preferred ==> Before(preferred, sorted[i], sorted[j])
  {
    var first := Keep(preferred, Names(available));
    var others := Keep(available, Names(available) - Names(preferred));
    KeepKeepsOrder(preferred, Names(available));
    KeepKeepsOrder(available, Names(available) - Names(preferred));
    var sorted := SortedTables(preferred, available);
    forall i, j | 0 <= i < j < |sorted| ensures sorted[i] != sorted[j] && (sorted[j] in preferred ==> Before(preferred, sorted[i], sorted[j])) {
      if j >= |first| {
        assert sorted[j] == others[j - |first|];
        assert sorted[j] in others;
        if i < |first| {
          assert sorted[i] in first;
        }
      }
    }
    assert Names(sorted) == Names(available);
    DistinctMultiset(sorted, available);
  }
}
