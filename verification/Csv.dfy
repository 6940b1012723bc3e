/**
 * Reading CSV (apps/web/lib/csv-parse.ts) and the writer it reads back
 * (packages/shared/src/csv.ts). A row is its fields; RFC 4180 section 2 is the format.
 */
module Csv {
  import opened Prelude

  type CsvRow = seq<string>

  const BOM: char := '\U{FEFF}'

  // ---- the character state machine ----

  datatype State = State(rows: seq<CsvRow>, row: CsvRow, field: string, quoted: bool, started: bool)

  /** A line that is entirely empty is not a record. */
  predicate IsRecord(row: CsvRow) {
    |row| > 1 || (|row| == 1 && row[0] != "")
  }

  function EndField(st: State): State {
    st.(row := st.row + [st.field], field := "", started := false)
  }

  function EndRow(st: State): State {
    var row := st.row + [st.field];
    st.(rows := if IsRecord(row) then st.rows + [row] else st.rows, row := [], field := "", started := false)
  }

  /** What one turn of the loop does at the front of the text that is left. */
  function Step(st: State, s: string): State
    requires s != ""
  {
    if st.quoted then
      if s[0] != '"' then st.(field := st.field + [s[0]])
      else if |s| > 1 && s[1] == '"' then st.(field := st.field + "\"")
      else st.(quoted := false)
    else if s[0] == '"' && !st.started then st.(quoted := true, started := true)
    else if s[0] == ',' then EndField(st)
    else if s[0] == '\r' || s[0] == '\n' then EndRow(st)
    else st.(field := st.field + [s[0]], started := true)
  }

  /** How many characters it takes: a doubled quote and a CRLF are two. */
  function Width(st: State, s: string): (n: nat)
    requires s != ""
    ensures 1 <= n <= |s|
  {
    if |s| > 1 && st.quoted && s[0] == '"' && s[1] == '"' then 2
    else if |s| > 1 && !st.quoted && s[0] == '\r' && s[1] == '\n' then 2
    else 1
  }

  /** The rows of the text `s` when it is met in state `st`. */
  function Scan(st: State, s: string): seq<CsvRow>
    decreases |s|
  {
    if s == "" then
      if st.field != "" || st.row != [] then EndRow(st).rows else st.rows
    else Scan(Step(st, s), s[Width(st, s)..])
  }

  function Start(): State {
    State([], [], "", false, false)
  }

  function WithoutBom(text: string): string {
    if text != "" && text[0] == BOM then text[1..] else text
  }

  /** The rows of a file. */
  function Rows(text: string): seq<CsvRow> {
    Scan(Start(), WithoutBom(text))
  }

  /** parseCsv: one pass over the text, with its row, field and two flags updated in place. */
  method ParseCsv(text: string) returns (rows: seq<CsvRow>)
    ensures rows == Rows(text)
  {
    rows := [];
    var row: CsvRow := [];
    var field := "";
    var quoted := false;
    var started := false;
    var src := if text != "" && text[0] == BOM then text[1..] else text;
    var i := 0;
    while i < |src|
      invariant 0 <= i <= |src|
      invariant Scan(State(rows, row, field, quoted, started), src[i..]) == Rows(text)
    {
      var ch := src[i];
      ghost var st, rest := State(rows, row, field, quoted, started), src[i..];
      assert rest[0] == ch && (|rest| > 1 <==> i + 1 < |src|) && (|rest| > 1 ==> rest[1] == src[i + 1]);
      if quoted {
        if ch == '"' {
          if i + 1 < |src| && src[i + 1] == '"' {
            field := field + "\"";
            i := i + 1;
          } else {
            quoted := false;
          }
        } else {
          field := field + [ch];
        }
      } else if ch == '"' && !started {
        quoted := true;
        started := true;
      } else if ch == ',' {
        row, field, started := row + [field], "", false;
      } else if ch == '\r' || ch == '\n' {
        if ch == '\r' && i + 1 < |src| && src[i + 1] == '\n' {
          i := i + 1;
        }
        row := row + [field];
        if |row| > 1 || row[0] != "" {
          rows := rows + [row];
        }
        row, field, started := [], "", false;
      } else {
        field := field + [ch];
        started := true;
      }
      i := i + 1;
      assert State(rows, row, field, quoted, started) == Step(st, rest);
      assert src[i..] == rest[Width(st, rest)..];
    }
    assert src[i..] == "";
    if field != "" || |row| > 0 {
      row := row + [field];
      if |row| > 1 || row[0] != "" {
        rows := rows + [row];
      }
    }
  }

  // ---- written text ----

  /** A field as it is written: in quotes, with the quotes inside it doubled, or as it stands. */
  datatype Cell = Cell(text: string, inQuotes: bool)

  datatype Ending = LF | CRLF

  datatype Line = Line(cells: seq<Cell>, ending: Ending)

  /** What a field may be to be written without quotes. */
  predicate IsPlain(text: string) {
    ',' !in text && '\r' !in text && '\n' !in text && (text == "" || text[0] != '"')
  }

  predicate CellOk(c: Cell) {
    c.inQuotes || IsPlain(c.text)
  }

  ghost predicate CellsOk(cells: seq<Cell>) {
    forall i :: 0 <= i < |cells| ==> CellOk(cells[i])
  }

  ghost predicate LinesOk(lines: seq<Line>) {
    forall i :: 0 <= i < |lines| ==> CellsOk(lines[i].cells)
  }

  function Doubled(text: string): string {
    if text == "" then ""
    else (if text[0] == '"' then "\"\"" else [text[0]]) + Doubled(text[1..])
  }

  function WriteCell(c: Cell): string {
    if c.inQuotes then "\"" + Doubled(c.text) + "\"" else c.text
  }

  function WriteCells(cells: seq<Cell>): string {
    if cells == [] then ""
    else if |cells| == 1 then WriteCell(cells[0])
    else WriteCell(cells[0]) + "," + WriteCells(cells[1..])
  }

  function WriteEnding(ending: Ending): string {
    match ending
    case LF => "\n"
    case CRLF => "\r\n"
  }

  function WriteLines(lines: seq<Line>): string {
    if lines == [] then "" else WriteCells(lines[0].cells) + WriteEnding(lines[0].ending) + WriteLines(lines[1..])
  }

  function Texts(cells: seq<Cell>): CsvRow {
    seq(|cells|, i requires 0 <= i < |cells| => cells[i].text)
  }

  function LineTexts(lines: seq<Line>): seq<CsvRow> {
    seq(|lines|, i requires 0 <= i < |lines| => Texts(lines[i].cells))
  }

  /** The rows that are records: all but the empty ones and those of one empty field. */
  function Records(rows: seq<CsvRow>): seq<CsvRow> {
    if rows == [] then []
    else (if IsRecord(rows[0]) then [rows[0]] else []) + Records(rows[1..])
  }

  // ---- reading back what was written ----

  /** What may follow a field. */
  predicate EndsField(rest: string) {
    rest == "" || rest[0] == ',' || rest[0] == '\r' || rest[0] == '\n'
  }

  /** Concatenation, regrouped. */
  lemma Regroup(a: string, b: string, c: string, d: string)
    ensures a + b + c + d == a + (b + (c + d)) && a + b + c + d == a + (b + c + d)
  {
  }

  /** Inside quotes, one written character is taken off the front. */
  lemma ScanOneQuoted(st: State, ch: char, rest: string)
    requires st.quoted
    ensures Scan(st, (if ch == '"' then "\"\"" else [ch]) + rest) == Scan(st.(field := st.field + [ch]), rest)
  {
    var s := (if ch == '"' then "\"\"" else [ch]) + rest;
    assert s[Width(st, s)..] == rest;
  }

  lemma ScanClose(st: State, rest: string)
    requires st.quoted && EndsField(rest)
    ensures Scan(st, "\"" + rest) == Scan(st.(quoted := false), rest)
  {
    var s := "\"" + rest;
    assert s[Width(st, s)..] == rest;
  }

  lemma DoubledFirst(text: string, rest: string)
    requires text != ""
    ensures Doubled(text) + "\"" + rest == (if text[0] == '"' then "\"\"" else [text[0]]) + (Doubled(text[1..]) + "\"" + rest)
  {
    Regroup(if text[0] == '"' then "\"\"" else [text[0]], Doubled(text[1..]), "\"", rest);
  }

  lemma ScanFirstDoubled(st: State, text: string, rest: string)
    requires st.quoted && text != ""
    ensures Scan(st, Doubled(text) + "\"" + rest) == Scan(st.(field := st.field + [text[0]]), Doubled(text[1..]) + "\"" + rest)
  {
    DoubledFirst(text, rest);
    ScanOneQuoted(st, text[0], Doubled(text[1..]) + "\"" + rest);
  }

  lemma FieldGrows(st: State, text: string)
    requires text != ""
    ensures var st' := st.(field := st.field + [text[0]]);
            st'.(field := st'.field + text[1..], quoted := false) == st.(field := st.field + text, quoted := false)
  {
    assert st.field + [text[0]] + text[1..] == st.field + text;
  }

  lemma {:induction false} ScanDoubled(st: State, text: string, rest: string)
    requires st.quoted && EndsField(rest)
    ensures Scan(st, Doubled(text) + "\"" + rest) == Scan(st.(field := st.field + text, quoted := false), rest)
    decreases |text|
  {
    if text == "" {
      ScanClose(st, rest);
      assert Doubled(text) + "\"" + rest == "\"" + rest && st.field + text == st.field;
    } else {
      ScanFirstDoubled(st, text, rest);
      ScanDoubled(st.(field := st.field + [text[0]]), text[1..], rest);
      FieldGrows(st, text);
    }
  }

  lemma {:induction false} ScanPlain(st: State, text: string, rest: string)
    requires !st.quoted && ',' !in text && '\r' !in text && '\n' !in text
    requires st.started || text == "" || text[0] != '"'
    ensures Scan(st, text + rest) == Scan(st.(field := st.field + text, started := st.started || text != ""), rest)
    decreases |text|
  {
    if text == "" {
      assert text + rest == rest && st.field + text == st.field;
    } else {
      var st' := st.(field := st.field + [text[0]], started := true);
      assert (text + rest)[0] == text[0] && (text + rest)[1..] == text[1..] + rest;
      ScanPlain(st', text[1..], rest);
      assert st'.field + text[1..] == st.field + text;
    }
  }

  /** At the start of a field. */
  predicate AtField(st: State) {
    !st.quoted && !st.started && st.field == ""
  }

  lemma ScanCell(st: State, c: Cell, rest: string) returns (st': State)
    requires AtField(st) && CellOk(c) && EndsField(rest)
    ensures Scan(st, WriteCell(c) + rest) == Scan(st', rest)
    ensures st'.rows == st.rows && st'.row == st.row && st'.field == c.text && !st'.quoted
  {
    if c.inQuotes {
      var begun := st.(quoted := true, started := true);
      var s := WriteCell(c) + rest;
      assert s[0] == '"' && s[1..] == Doubled(c.text) + "\"" + rest;
      ScanDoubled(begun, c.text, rest);
      st' := begun.(field := begun.field + c.text, quoted := false);
      assert begun.field + c.text == c.text;
    } else {
      ScanPlain(st, c.text, rest);
      st' := st.(field := st.field + c.text, started := st.started || c.text != "");
      assert st.field + c.text == c.text;
    }
  }

  /** What a line break or the end of the text follows. */
  predicate EndsLine(rest: string) {
    rest == "" || rest[0] == '\n' || (|rest| > 1 && rest[0] == '\r' && rest[1] == '\n')
  }

  lemma ScanComma(st: State, rest: string)
    requires !st.quoted
    ensures Scan(st, "," + rest) == Scan(EndField(st), rest)
  {
    assert ("," + rest)[1..] == rest;
  }

  /** A field and the comma after it. */
  lemma ScanCellAndComma(st: State, c: Cell, rest: string)
    requires AtField(st) && CellOk(c)
    ensures Scan(st, WriteCell(c) + ("," + rest)) == Scan(st.(row := st.row + [c.text]), rest)
  {
    var st1 := ScanCell(st, c, "," + rest);
    ScanComma(st1, rest);
    assert EndField(st1) == st.(row := st.row + [c.text]);
  }

  lemma WriteCellsSplits(cells: seq<Cell>, rest: string)
    requires |cells| > 1
    ensures WriteCells(cells) + rest == WriteCell(cells[0]) + ("," + (WriteCells(cells[1..]) + rest))
  {
    Regroup(WriteCell(cells[0]), ",", WriteCells(cells[1..]), rest);
  }

  lemma TextsSplits(cells: seq<Cell>)
    requires cells != []
    ensures Texts(cells) == [cells[0].text] + Texts(cells[1..])
  {
  }

  lemma {:induction false} ScanCells(st: State, cells: seq<Cell>, rest: string) returns (st': State)
    requires AtField(st) && CellsOk(cells) && EndsLine(rest)
    ensures Scan(st, WriteCells(cells) + rest) == Scan(st', rest)
    ensures st'.rows == st.rows && !st'.quoted
    ensures st'.row + [st'.field] == st.row + if cells == [] then [""] else Texts(cells)
    decreases |cells|
  {
    if |cells| <= 1 {
      st' := ScanLastCell(st, cells, rest);
    } else {
      WriteCellsSplits(cells, rest);
      TextsSplits(cells);
      ScanCellAndComma(st, cells[0], WriteCells(cells[1..]) + rest);
      st' := ScanCells(st.(row := st.row + [cells[0].text]), cells[1..], rest);
    }
  }

  lemma ScanLastCell(st: State, cells: seq<Cell>, rest: string) returns (st': State)
    requires AtField(st) && CellsOk(cells) && EndsLine(rest) && |cells| <= 1
    ensures Scan(st, WriteCells(cells) + rest) == Scan(st', rest)
    ensures st'.rows == st.rows && !st'.quoted
    ensures st'.row + [st'.field] == st.row + if cells == [] then [""] else Texts(cells)
  {
    if cells == [] {
      assert WriteCells(cells) + rest == rest;
      st' := st;
    } else {
      st' := ScanCell(st, cells[0], rest);
      assert Texts(cells) == [cells[0].text];
    }
  }

  lemma ScanEnding(st: State, ending: Ending, rest: string)
    requires !st.quoted
    ensures Scan(st, WriteEnding(ending) + rest) == Scan(EndRow(st), rest)
  {
    var s := WriteEnding(ending) + rest;
    match ending
    case LF => assert s[1..] == rest;
    case CRLF => assert s[0] == '\r' && s[1] == '\n' && s[2..] == rest;
  }

  lemma WriteLinesSplits(lines: seq<Line>, last: seq<Cell>)
    requires lines != []
    ensures WriteLines(lines) + WriteCells(last)
         == WriteCells(lines[0].cells) + (WriteEnding(lines[0].ending) + (WriteLines(lines[1..]) + WriteCells(last)))
  {
    Regroup(WriteCells(lines[0].cells), WriteEnding(lines[0].ending), WriteLines(lines[1..]), WriteCells(last));
  }

  lemma LineTextsSplits(lines: seq<Line>, last: CsvRow)
    requires lines != []
    ensures LineTexts(lines) + [last] == [Texts(lines[0].cells)] + (LineTexts(lines[1..]) + [last])
  {
  }

  lemma OneRow(row: CsvRow)
    ensures Records([row]) == if IsRecord(row) then [row] else []
  {
    assert [row][1..] == [];
  }

  /** A line and the break that ends it. */
  lemma ScanLine(st: State, line: Line, rest: string) returns (st': State)
    requires AtField(st) && st.row == [] && CellsOk(line.cells)
    ensures Scan(st, WriteCells(line.cells) + (WriteEnding(line.ending) + rest)) == Scan(st', rest)
    ensures AtField(st') && st'.row == [] && st'.rows == st.rows + Records([Texts(line.cells)])
  {
    var st1 := ScanCells(st, line.cells, WriteEnding(line.ending) + rest);
    ScanEnding(st1, line.ending, rest);
    st' := EndRow(st1);
    assert st1.row + [st1.field] == if line.cells == [] then [""] else Texts(line.cells);
    assert line.cells == [] ==> Texts(line.cells) == [];
    OneRow(Texts(line.cells));
  }

  lemma ScanLast(st: State, last: seq<Cell>)
    requires AtField(st) && st.row == [] && CellsOk(last)
    ensures Scan(st, WriteCells(last)) == st.rows + Records([Texts(last)])
  {
    var st' := ScanCells(st, last, "");
    assert WriteCells(last) + "" == WriteCells(last);
    assert st'.row + [st'.field] == if last == [] then [""] else Texts(last);
    assert last == [] ==> Texts(last) == [];
    OneRow(Texts(last));
  }

  /** From the start of any line, the text yields these rows. */
  ghost predicate Yields(text: string, rows: seq<CsvRow>) {
    forall st :: AtField(st) && st.row == [] ==> Scan(st, text) == st.rows + rows
  }

  lemma LineYields(line: Line, more: string, rows: seq<CsvRow>)
    requires CellsOk(line.cells) && Yields(more, rows)
    ensures Yields(WriteCells(line.cells) + (WriteEnding(line.ending) + more), Records([Texts(line.cells)]) + rows)
  {
    forall st | AtField(st) && st.row == []
      ensures Scan(st, WriteCells(line.cells) + (WriteEnding(line.ending) + more)) == st.rows + (Records([Texts(line.cells)]) + rows)
    {
      var st' := ScanLine(st, line, more);
      assert Scan(st', more) == st'.rows + rows;
      assert st.rows + Records([Texts(line.cells)]) + rows == st.rows + (Records([Texts(line.cells)]) + rows);
    }
  }

  lemma LastYields(last: seq<Cell>)
    requires CellsOk(last)
    ensures Yields(WriteCells(last), Records([Texts(last)]))
  {
    forall st | AtField(st) && st.row == []
      ensures Scan(st, WriteCells(last)) == st.rows + Records([Texts(last)])
    {
      ScanLast(st, last);
    }
  }

  lemma {:induction false} LinesYield(lines: seq<Line>, last: seq<Cell>)
    requires LinesOk(lines) && CellsOk(last)
    ensures Yields(WriteLines(lines) + WriteCells(last), Records(LineTexts(lines) + [Texts(last)]))
    decreases |lines|
  {
    if lines == [] {
      LastYields(last);
      assert WriteLines(lines) + WriteCells(last) == WriteCells(last);
      assert LineTexts(lines) + [Texts(last)] == [Texts(last)];
    } else {
      LinesYield(lines[1..], last);
      WriteLinesSplits(lines, last);
      LineTextsSplits(lines, Texts(last));
      RecordsSplits(Texts(lines[0].cells), LineTexts(lines[1..]) + [Texts(last)]);
      LineYields(lines[0], WriteLines(lines[1..]) + WriteCells(last), Records(LineTexts(lines[1..]) + [Texts(last)]));
    }
  }

  lemma RecordsSplits(row: CsvRow, rows: seq<CsvRow>)
    ensures Records([row] + rows) == Records([row]) + Records(rows)
  {
    assert ([row] + rows)[1..] == rows;
  }

  /**
   * The reader undoes the writing: whatever the fields are, in quotes or not, with either line
   * ending, with or without a last line break, and with a byte order mark or none, the rows come
   * back, all but those that are not records.
   */
  lemma ReadsBackWhatWasWritten(lines: seq<Line>, last: seq<Cell>, bom: bool)
    requires LinesOk(lines) && CellsOk(last)
    requires bom || WithoutBom(WriteLines(lines) + WriteCells(last)) == WriteLines(lines) + WriteCells(last)
    ensures Rows((if bom then [BOM] else "") + (WriteLines(lines) + WriteCells(last))) == Records(LineTexts(lines) + [Texts(last)])
  {
    var body := WriteLines(lines) + WriteCells(last);
    assert bom ==> ([BOM] + body)[1..] == body;
    assert !bom ==> "" + body == body;
    LinesYield(lines, last);
    assert Scan(Start(), body) == Records(LineTexts(lines) + [Texts(last)]);
  }

  lemma {:induction false} AllRecords(rows: seq<CsvRow>)
    ensures |Records(rows)| <= |rows|
    ensures |Records(rows)| == |rows| <==> forall i :: 0 <= i < |rows| ==> IsRecord(rows[i])
    ensures |Records(rows)| == |rows| ==> Records(rows) == rows
  {
    if rows != [] {
      AllRecords(rows[1..]);
      assert forall i :: 0 <= i < |rows[1..]| ==> rows[1..][i] == rows[i + 1];
      assert |Records(rows)| == |rows| ==> IsRecord(rows[0]) && rows == [rows[0]] + rows[1..];
    }
  }

  /** For a table of records, every field quoted: the table itself. */
  lemma QuotedTableRoundTrip(table: seq<CsvRow>, ending: Ending)
    requires forall i :: 0 <= i < |table| ==> IsRecord(table[i])
    ensures Rows(WriteLines(QuotedLines(table, ending))) == table
  {
    var lines := QuotedLines(table, ending);
    assert LineTexts(lines) == table by {
      assert forall i :: 0 <= i < |table| ==> LineTexts(lines)[i] == table[i];
    }
    var s := WriteLines(lines);
    assert s + WriteCells([]) == s;
    if lines != [] {
      assert WriteCells(lines[0].cells)[0] == '"';
    }
    ReadsBackWhatWasWritten(lines, [], false);
    assert "" + (s + WriteCells([])) == s;
    AllRecords(table);
    EndsWithNothing(table);
  }

  function QuotedLines(table: seq<CsvRow>, ending: Ending): seq<Line> {
    seq(|table|, i requires 0 <= i < |table| =>
      Line(seq(|table[i]|, j requires 0 <= j < |table[i]| => Cell(table[i][j], true)), ending))
  }

  lemma {:induction false} EndsWithNothing(rows: seq<CsvRow>)
    ensures Records(rows + [[]]) == Records(rows)
    ensures Texts([]) == []
  {
    if rows != [] {
      assert (rows + [[]])[1..] == rows[1..] + [[]];
      EndsWithNothing(rows[1..]);
    } else {
      assert rows + [[]] == [[]];
    }
  }

  // ---- the platform's own export ----

  predicate StartsFormula(text: string) {
    text != "" && (text[0] == '=' || text[0] == '+' || text[0] == '-' || text[0] == '@' || text[0] == '\t' || text[0] == '\r')
  }

  /** A cell a spreadsheet will not evaluate: an apostrophe in front of what would be a formula. */
  function Inert(text: string): string {
    if StartsFormula(text) then "'" + text else text
  }

  function CsvCell(text: string): Cell {
    var inert := Inert(text);
    Cell(inert, '"' in inert || ',' in inert || '\n' in inert || '\r' in inert)
  }

  function CsvCells(row: CsvRow): seq<Cell> {
    seq(|row|, i requires 0 <= i < |row| => CsvCell(row[i]))
  }

  function CsvLines(table: seq<CsvRow>): seq<Line> {
    seq(|table|, i requires 0 <= i < |table| => Line(CsvCells(table[i]), CRLF))
  }

  /** toCsv: a byte order mark, then the header and the rows, each ended by CRLF. */
  function ToCsv(headers: CsvRow, rows: seq<CsvRow>): string {
    [BOM] + (WriteLines(CsvLines([headers] + rows)) + WriteCells([]))
  }

  function InertRow(row: CsvRow): CsvRow {
    seq(|row|, i requires 0 <= i < |row| => Inert(row[i]))
  }

  function InertTable(table: seq<CsvRow>): (r: seq<CsvRow>) {
    seq(|table|, i requires 0 <= i < |table| => InertRow(table[i]))
  }

  /** What an export reads back as: every record, with its formulas made inert. */
  lemma ExportReadsBack(headers: CsvRow, rows: seq<CsvRow>)
    ensures Rows(ToCsv(headers, rows)) == Records(InertTable([headers] + rows))
  {
    var table := [headers] + rows;
    var lines := CsvLines(table);
    assert LinesOk(lines);
    forall i | 0 <= i < |table|
      ensures Texts(lines[i].cells) == InertRow(table[i])
    {
      assert |Texts(lines[i].cells)| == |InertRow(table[i])|;
    }
    assert LineTexts(lines) == InertTable(table);
    ReadsBackWhatWasWritten(lines, [], true);
    EndsWithNothing(InertTable(table));
  }

  predicate NoFormulas(row: CsvRow) {
    forall j :: 0 <= j < |row| ==> row[j] == "" || row[j][0] !in "=+-@\t\r"
  }

  /** How a cell of the export is written: inert, and in quotes exactly when it could be misread. */
  lemma CellIsWritten(text: string)
    ensures var inert := if text != "" && text[0] in "=+-@\t\r" then "'" + text else text;
            WriteCell(CsvCell(text)) ==
            if exists i :: 0 <= i < |inert| && inert[i] in "\",\n\r" then "\"" + Doubled(inert) + "\"" else inert
  {
  }

  /** The whole export: a byte order mark, then every row with commas between its cells and CRLF behind. */
  lemma ExportIsWritten(headers: CsvRow, rows: seq<CsvRow>)
    ensures ToCsv(headers, rows) == "\U{FEFF}" + WriteLines(seq(1 + |rows|, i requires 0 <= i < 1 + |rows| =>
                                       Line(CsvCells(if i == 0 then headers else rows[i - 1]), CRLF)))
  {
    var table := [headers] + rows;
    var lines := seq(1 + |rows|, i requires 0 <= i < 1 + |rows| => Line(CsvCells(if i == 0 then headers else rows[i - 1]), CRLF));
    assert CsvLines(table) == lines;
    assert WriteLines(lines) + WriteCells([]) == WriteLines(lines);
  }

  lemma InertChanges(text: string)
    ensures Inert(text) == text <==> !StartsFormula(text)
  {
    assert StartsFormula(text) ==> |Inert(text)| == |text| + 1;
  }

  lemma InertRowIsSame(row: CsvRow)
    ensures InertRow(row) == row <==> NoFormulas(row)
    ensures IsRecord(InertRow(row)) <==> IsRecord(row)
  {
    if InertRow(row) == row {
      forall j | 0 <= j < |row|
        ensures !StartsFormula(row[j])
      {
        assert InertRow(row)[j] == row[j];
        InertChanges(row[j]);
      }
    }
  }

  /**
   * An export reads back as the very table that was exported exactly when every row is a record
   * and no cell begins a formula.
   */
  lemma ExportRoundTripExactly(headers: CsvRow, rows: seq<CsvRow>)
    ensures Rows(ToCsv(headers, rows)) == [headers] + rows
       <==> forall i :: 0 <= i < |[headers] + rows| ==> IsRecord(([headers] + rows)[i]) && NoFormulas(([headers] + rows)[i])
  {
    var table := [headers] + rows;
    var inert := InertTable(table);
    ExportReadsBack(headers, rows);
    AllRecords(inert);
    forall i | 0 <= i < |table|
      ensures (inert[i] == table[i] <==> NoFormulas(table[i])) && (IsRecord(inert[i]) <==> IsRecord(table[i]))
    {
      InertRowIsSame(table[i]);
    }
    if Records(inert) == table {
      assert |Records(inert)| == |inert| && inert == table;
      assert forall i :: 0 <= i < |table| ==> inert[i] == table[i];
    }
    if forall i :: 0 <= i < |table| ==> IsRecord(table[i]) && NoFormulas(table[i]) {
      assert forall i :: 0 <= i < |table| ==> inert[i] == table[i];
      assert inert == table;
    }
  }

  // ---- text without quotes ----

  /** The lines of a text: split at every CRLF, CR and LF. */
  function SplitLines(s: string): (lines: seq<string>)
    ensures lines != []
    decreases |s|
  {
    if s == "" then [""]
    else if s[0] == '\r' || s[0] == '\n' then [""] + SplitLines(if s[0] == '\r' && |s| > 1 && s[1] == '\n' then s[2..] else s[1..])
    else
      var lines := SplitLines(s[1..]);
      [[s[0]] + lines[0]] + lines[1..]
  }

  function SplitCommas(line: string): (fields: CsvRow)
    ensures fields != []
  {
    if line == "" then [""]
    else
      var fields := SplitCommas(line[1..]);
      if line[0] == ',' then [""] + fields else [[line[0]] + fields[0]] + fields[1..]
  }

  function SplitAll(lines: seq<string>): seq<CsvRow> {
    seq(|lines|, i requires 0 <= i < |lines| => SplitCommas(lines[i]))
  }

  /** The fields of a line whose beginning, up to and including the unfinished field, has been read. */
  function Continued(row: CsvRow, field: string, line: string): CsvRow {
    row + [field + SplitCommas(line)[0]] + SplitCommas(line)[1..]
  }

  lemma {:induction false} QuoteFreeScan(st: State, s: string)
    requires !st.quoted && '"' !in s
    ensures Scan(st, s) == st.rows + Records([Continued(st.row, st.field, SplitLines(s)[0])] + SplitAll(SplitLines(s)[1..]))
    decreases |s|
  {
    var lines := SplitLines(s);
    if s == "" {
      ContinuedToEnd(st.row, st.field);
      assert [Continued(st.row, st.field, "")] + SplitAll(lines[1..]) == [st.row + [st.field]];
      OneRow(st.row + [st.field]);
    } else {
      var st', rest := Step(st, s), s[Width(st, s)..];
      QuoteFreeScan(st', rest);
      if s[0] == '\r' || s[0] == '\n' {
        QuoteFreeBreak(st, s, rest);
      } else {
        assert rest == s[1..];
        assert lines[0] == [s[0]] + SplitLines(rest)[0] && lines[1..] == SplitLines(rest)[1..];
        ContinuedByOne(st.row, st.field, s[0], SplitLines(rest)[0]);
      }
    }
  }

  lemma ContinuedByOne(row: CsvRow, field: string, ch: char, line: string)
    ensures Continued(row, field, [ch] + line)
         == if ch == ',' then Continued(row + [field], "", line) else Continued(row, field + [ch], line)
  {
    assert ([ch] + line)[1..] == line;
    var fields := SplitCommas(line);
    if ch == ',' {
      assert field + "" == field && "" + fields[0] == fields[0];
      assert [fields[0]] + fields[1..] == fields;
    } else {
      assert field + ([ch] + fields[0]) == field + [ch] + fields[0];
    }
  }

  lemma BreakSplits(row: CsvRow, field: string, s: string, rest: string)
    requires s != "" && (s[0] == '\r' || s[0] == '\n')
    requires rest == if s[0] == '\r' && |s| > 1 && s[1] == '\n' then s[2..] else s[1..]
    ensures [Continued(row, field, SplitLines(s)[0])] + SplitAll(SplitLines(s)[1..]) == [row + [field]] + SplitAll(SplitLines(rest))
  {
    assert SplitLines(s)[0] == "" && SplitLines(s)[1..] == SplitLines(rest);
    ContinuedToEnd(row, field);
  }

  lemma FirstLine(lines: seq<string>)
    requires lines != []
    ensures SplitAll(lines) == [Continued([], "", lines[0])] + SplitAll(lines[1..])
  {
    ContinuedFromNothing(lines[0]);
  }

  lemma QuoteFreeBreak(st: State, s: string, rest: string)
    requires !st.quoted && s != "" && (s[0] == '\r' || s[0] == '\n') && rest == s[Width(st, s)..]
    ensures st.rows + Records([Continued(st.row, st.field, SplitLines(s)[0])] + SplitAll(SplitLines(s)[1..]))
         == EndRow(st).rows + Records([Continued([], "", SplitLines(rest)[0])] + SplitAll(SplitLines(rest)[1..]))
  {
    BreakSplits(st.row, st.field, s, rest);
    FirstLine(SplitLines(rest));
    RecordsSplits(st.row + [st.field], SplitAll(SplitLines(rest)));
    OneRow(st.row + [st.field]);
  }

  lemma ContinuedToEnd(row: CsvRow, field: string)
    ensures Continued(row, field, "") == row + [field]
  {
    assert SplitCommas("") == [""];
    assert field + "" == field;
  }

  lemma ContinuedFromNothing(line: string)
    ensures Continued([], "", line) == SplitCommas(line)
  {
    var fields := SplitCommas(line);
    assert "" + fields[0] == fields[0] && [] + [fields[0]] + fields[1..] == fields;
  }

  /** Without a quote in it, a text is its lines split on commas, with the blank lines dropped. */
  lemma QuoteFreeIsNaiveSplit(text: string)
    requires '"' !in text
    ensures Rows(text) == Records(SplitAll(SplitLines(WithoutBom(text))))
  {
    var s := WithoutBom(text);
    QuoteFreeScan(Start(), s);
    ContinuedFromNothing(SplitLines(s)[0]);
    assert SplitAll(SplitLines(s)) == [SplitCommas(SplitLines(s)[0])] + SplitAll(SplitLines(s)[1..]);
  }

  /** The rows dropped there are the lines with nothing in them. */
  lemma BlankLineIsNoRecord(line: string)
    ensures IsRecord(SplitCommas(line)) <==> line != ""
  {
  }
}
