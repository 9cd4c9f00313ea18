/**
 A reader of dumps: from tokens to the lines and INSERT statements they stand
 for. It knows SQL and nothing of how the dump was printed.
 */
module SqlReader {
  import opened Options
  import opened SqlBackup

  /** A value as the database would take it. */
  datatype Cell = NullCell | BareCell(text: string) | TextCell(text: string) | JsonCell(text: string)

  /** An INSERT of one row, its cells under their column names, or any other line. */
  datatype Statement = Insert(table: string, row: seq<(string, Cell)>) | Line(tokens: seq<Token>)

  /** What follows the text, if the tokens begin with it. */
  function Skip(ts: seq<Token>, text: string): (rest: Option<seq<Token>>)
    ensures rest.Some? ==> |rest.value| == |ts| - |text|
  {
    if |text| <= |ts| && (forall i :: 0 <= i < |text| ==> ts[i] == Char(text[i])) then Some(ts[|text|..]) else None
  }

  function TakeWord(ts: seq<Token>): (r: (string, seq<Token>))
    ensures |r.1| <= |ts| && (r.0 != "" ==> |r.1| < |ts|)
  {
    if ts != [] && ts[0].Char? && WordChar(ts[0].c) then
      var (w, rest) := TakeWord(ts[1..]);
      ([ts[0].c] + w, rest)
    else ("", ts)
  }

  function TakeLine(ts: seq<Token>): (r: (seq<Token>, seq<Token>))
    ensures ts != [] ==> |r.1| < |ts|
  {
    if ts == [] then ([], [])
    else if ts[0] == Char('\n') then ([], ts[1..])
    else
      var (line, rest) := TakeLine(ts[1..]);
      ([ts[0]] + line, rest)
  }

  /** Quoted names, separated by commas. */
  function ReadNames(ts: seq<Token>): (r: (seq<string>, seq<Token>))
    ensures |r.1| <= |ts|
    decreases |ts|
  {
    if ts == [] || !ts[0].Name? then ([], ts)
    else
      var more := Skip(ts[1..], ", ");
      if more.None? then ([ts[0].text], ts[1..])
      else
        var (names, rest) := ReadNames(more.value);
        ([ts[0].text] + names, rest)
  }

  /** NULL, a number or boolean, a literal, or a literal cast to jsonb. */
  function ReadCell(ts: seq<Token>): (r: Option<(Cell, seq<Token>)>)
    ensures r.Some? ==> |r.value.1| < |ts|
  {
    if ts == [] then None
    else if ts[0].Literal? then
      var cast := Skip(ts[1..], "::jsonb");
      if cast.Some? then Some((JsonCell(ts[0].text), cast.value)) else Some((TextCell(ts[0].text), ts[1..]))
    else
      var (word, rest) := TakeWord(ts);
      if word == "" then None else Some((if word == "NULL" then NullCell else BareCell(word), rest))
  }

  /** Values, separated by commas. */
  function ReadCells(ts: seq<Token>): (r: (seq<Cell>, seq<Token>))
    ensures |r.1| <= |ts|
    decreases |ts|
  {
    var first := ReadCell(ts);
    if first.None? then ([], ts)
    else
      var more := Skip(first.value.1, ", ");
      if more.None? then ([first.value.0], first.value.1)
      else
        var (cells, rest) := ReadCells(more.value);
        ([first.value.0] + cells, rest)
  }

  function Zip(names: seq<string>, cells: seq<Cell>): seq<(string, Cell)>
    requires |names| == |cells|
  {
    seq(|names|, i requires 0 <= i < |names| => (names[i], cells[i]))
  }

  /** What follows INSERT INTO: the table, its columns, as many values, and the end of the statement. */
  function ReadInsert(ts: seq<Token>): (r: Option<(Statement, seq<Token>)>)
    ensures r.Some? ==> |r.value.1| < |ts|
  {
    if ts == [] || !ts[0].Name? then None
    else
      var opening := Skip(ts[1..], " (");
      if opening.None? then None
      else
        var (names, afterNames) := ReadNames(opening.value);
        var values := Skip(afterNames, ") VALUES (");
        if values.None? then None
        else
          var (cells, afterCells) := ReadCells(values.value);
          var end := Skip(afterCells, ") ON CONFLICT DO NOTHING;\n");
          if end.None? || |names| != |cells| then None else Some((Insert(ts[0].text, Zip(names, cells)), end.value))
  }

  function ReadStatements(ts: seq<Token>): Option<seq<Statement>>
    decreases |ts|
  {
    if ts == [] then Some([])
    else
      var insert := Skip(ts, "INSERT INTO ");
      if insert.Some? then
        var first := ReadInsert(insert.value);
        if first.None? then None
        else
          var rest := ReadStatements(first.value.1);
          if rest.None? then None else Some([first.value.0] + rest.value)
      else
        var (line, after) := TakeLine(ts);
        var rest := ReadStatements(after);
        if rest.None? then None else Some([Line(line)] + rest.value)
  }

  function ReadDump(s: string): Option<seq<Statement>> {
    var tokens := Scan(s);
    if tokens.None? then None else ReadStatements(tokens.value)
  }
}
