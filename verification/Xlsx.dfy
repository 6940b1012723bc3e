/**
 * Column names and the placing of addressed cells into a grid (apps/web/lib/xlsx-read.ts), from
 * the row and cell elements of a sheet on.
 */
module Xlsx {
  import opened Text

  // ---- column names ----

  predicate IsColumnName(s: string) {
    s != "" && forall i :: 0 <= i < |s| ==> 'A' <= s[i] <= 'Z'
  }

  /** `.replace(/\d+$/, "")` */
  function WithoutNumber(ref: string): string
    decreases |ref|
  {
    if ref != "" && IsDigit(ref[|ref| - 1]) then WithoutNumber(ref[..|ref| - 1]) else ref
  }

  function UpperChar(c: char): char {
    if 'a' <= c <= 'z' then 'A' + (c - 'a') else c
  }

  /** toUpperCase, on ASCII. */
  function Upper(s: string): (r: string)
    ensures |r| == |s| && forall i :: 0 <= i < |s| ==> r[i] == UpperChar(s[i])
  {
    seq(|s|, i requires 0 <= i < |s| => UpperChar(s[i]))
  }

  /** The letters as digits 1 to 26, most significant first. */
  function Value(letters: string): int
    decreases |letters|
  {
    if letters == "" then 0 else Value(letters[..|letters| - 1]) * 26 + (letters[|letters| - 1] as int - 64)
  }

  function ColumnOf(ref: string): int {
    Value(Upper(WithoutNumber(ref))) - 1
  }

  method ColumnIndex(ref: string) returns (column: int)
    ensures column == ColumnOf(ref)
  {
    var letters := Upper(WithoutNumber(ref));
    var n := 0;
    for i := 0 to |letters|
      invariant n == Value(letters[..i])
    {
      n := n * 26 + (letters[i] as int - 64);
      assert letters[..i + 1][..i] == letters[..i];
    }
    assert letters[..|letters|] == letters;
    return n - 1;
  }

  function Letter(d: nat): (c: char)
    requires d < 26
    ensures 'A' <= c <= 'Z' && c as int == 65 + d
  {
    'A' + (d as char)
  }

  /** How a column is named: A to Z, then AA to ZZ, and so on. */
  function ColumnName(n: nat): string {
    if n < 26 then [Letter(n)] else ColumnName(n / 26 - 1) + [Letter(n % 26)]
  }

  lemma ValueOfOneMore(s: string, c: char)
    ensures Value(s + [c]) == Value(s) * 26 + (c as int - 64)
  {
    assert (s + [c])[..|s|] == s;
  }

  lemma {:induction false} NameThenValue(n: nat)
    ensures IsColumnName(ColumnName(n)) && Value(ColumnName(n)) == n + 1
  {
    if n < 26 {
      ValueOfOneMore("", Letter(n));
      assert "" + [Letter(n)] == [Letter(n)];
    } else {
      NameThenValue(n / 26 - 1);
      ValueOfOneMore(ColumnName(n / 26 - 1), Letter(n % 26));
    }
  }

  lemma QuotientOf(q: nat, d: nat)
    requires d < 26
    ensures (26 * q + d) / 26 == q && (26 * q + d) % 26 == d
  {
  }

  lemma {:induction false} ValueThenName(s: string)
    requires IsColumnName(s)
    ensures Value(s) >= 1 && ColumnName(Value(s) - 1) == s
    decreases |s|
  {
    var front, last := s[..|s| - 1], s[|s| - 1];
    var d := last as int - 65;
    assert s == front + [last] && Letter(d) == last;
    if front != "" {
      ValueThenName(front);
      QuotientOf(Value(front), d);
    }
  }

  /** Column names and columns are in bijection: each is the other's inverse. */
  lemma ColumnNamesAreABijection(n: nat, s: string)
    ensures IsColumnName(ColumnName(n)) && Value(ColumnName(n)) - 1 == n
    ensures IsColumnName(s) ==> Value(s) - 1 >= 0 && ColumnName(Value(s) - 1) == s
  {
    NameThenValue(n);
    if IsColumnName(s) {
      ValueThenName(s);
    }
  }

  lemma {:induction false} NumberIsDropped(letters: string, number: string)
    requires AllDigits(number) && (letters == "" || !IsDigit(letters[|letters| - 1]))
    ensures WithoutNumber(letters + number) == letters
    decreases |number|
  {
    var ref := letters + number;
    if number == "" {
      assert ref == letters;
    } else {
      assert ref[..|ref| - 1] == letters + number[..|number| - 1];
      NumberIsDropped(letters, number[..|number| - 1]);
    }
  }

  /** An address, in either case and with any row number, is read as its column. */
  lemma AddressHasItsColumn(n: nat, letters: string, number: string)
    requires Upper(letters) == ColumnName(n) && AllDigits(number)
    ensures ColumnOf(letters + number) == n
  {
    NameThenValue(n);
    assert letters != "" && 'A' <= Upper(letters)[|letters| - 1] <= 'Z';
    NumberIsDropped(letters, number);
  }

  // ---- the sheet ----

  /** A cell element: its address, or none, and the text found for it. */
  datatype CellTag = CellTag(ref: string, text: string)

  /** A row element: its number, or 0 when it has none that can be read, and its cells. */
  datatype RowTag = RowTag(number: int, cells: seq<CellTag>)

  type Row = seq<string>

  function Max(a: int, b: int): int {
    if a < b then b else a
  }

  /** How long the row is after its first n cells. */
  function Width(tags: seq<CellTag>, n: nat): nat
    requires n <= |tags|
    decreases n, 0
  {
    if n == 0 then 0 else Max(Width(tags, n - 1), Column(tags, n - 1) + 1)
  }

  /** The column of cell i: where its address says, or after the cells before it. */
  function Column(tags: seq<CellTag>, i: nat): int
    requires i < |tags|
    decreases i, 1
  {
    if tags[i].ref != "" then ColumnOf(tags[i].ref) else Width(tags, i)
  }

  /** The last of the first n cells that is put into the column. */
  function LastText(tags: seq<CellTag>, n: nat, column: int): string
    requires n <= |tags|
  {
    if n == 0 then "" else if Column(tags, n - 1) == column then Trim(tags[n - 1].text) else LastText(tags, n - 1, column)
  }

  predicate HoldsLast(tags: seq<CellTag>, n: nat, cells: Row)
    requires n <= |tags|
  {
    |cells| == Width(tags, n) && forall c :: 0 <= c < |cells| ==> cells[c] == LastText(tags, n, c)
  }

  lemma {:induction false} NothingBeyond(tags: seq<CellTag>, n: nat, c: int)
    requires n <= |tags| && c >= Width(tags, n)
    ensures LastText(tags, n, c) == ""
  {
    if n > 0 {
      NothingBeyond(tags, n - 1, c);
    }
  }

  /** The loop over one row's cells: each pads the row up to its column and is put there. */
  method PlaceCells(tags: seq<CellTag>) returns (cells: Row)
    ensures HoldsLast(tags, |tags|, cells)
  {
    cells := [];
    for i := 0 to |tags|
      invariant HoldsLast(tags, i, cells)
    {
      var column := |cells|;
      if tags[i].ref != "" {
        column := ColumnIndex(tags[i].ref);
      }
      cells := PlaceCell(tags, i, cells, column);
    }
  }

  /** The body of that loop; a negative column is no element of the row. */
  method PlaceCell(tags: seq<CellTag>, i: nat, cells: Row, column: int) returns (cells': Row)
    requires i < |tags| && HoldsLast(tags, i, cells) && column == Column(tags, i)
    ensures HoldsLast(tags, i + 1, cells')
  {
    cells' := cells;
    while |cells'| < column
      invariant |cells'| == Max(|cells|, |cells'|) && |cells'| <= Max(|cells|, column)
      invariant cells <= cells'
      invariant forall c :: 0 <= c < |cells'| ==> cells'[c] == LastText(tags, i, c)
    {
      NothingBeyond(tags, i, |cells'|);
      cells' := cells' + [""];
    }
    if 0 <= column < |cells'| {
      cells' := cells'[column := Trim(tags[i].text)];
    } else if column == |cells'| {
      cells' := cells' + [Trim(tags[i].text)];
    }
  }

  /** The cells that one row element leaves. */
  function CellsOf(tags: seq<CellTag>): (cells: Row)
    ensures HoldsLast(tags, |tags|, cells)
  {
    seq(Width(tags, |tags|), c requires 0 <= c < Width(tags, |tags|) => LastText(tags, |tags|, c))
  }

  /** How many rows there are after the first n elements. */
  function Height(tags: seq<RowTag>, n: nat): nat
    requires n <= |tags|
    decreases n, 0
  {
    if n == 0 then 0 else Max(Height(tags, n - 1), RowNumber(tags, n - 1))
  }

  function RowNumber(tags: seq<RowTag>, i: nat): int
    requires i < |tags|
    decreases i, 1
  {
    if tags[i].number != 0 then tags[i].number else Height(tags, i) + 1
  }

  /** The last of the first n elements with that row number replaces all that was there. */
  function LastRow(tags: seq<RowTag>, n: nat, number: int): Row
    requires n <= |tags|
  {
    if n == 0 then [] else if RowNumber(tags, n - 1) == number then CellsOf(tags[n - 1].cells) else LastRow(tags, n - 1, number)
  }

  predicate HoldsLastRows(tags: seq<RowTag>, n: nat, rows: seq<Row>)
    requires n <= |tags|
  {
    |rows| == Height(tags, n) && forall r :: 0 <= r < |rows| ==> rows[r] == LastRow(tags, n, r + 1)
  }

  lemma {:induction false} NoRowBeyond(tags: seq<RowTag>, n: nat, number: int)
    requires n <= |tags| && number > Height(tags, n)
    ensures LastRow(tags, n, number) == []
  {
    if n > 0 {
      NoRowBeyond(tags, n - 1, number);
    }
  }

  method PlaceRow(tags: seq<RowTag>, i: nat, rows: seq<Row>, number: int, cells: Row) returns (rows': seq<Row>)
    requires i < |tags| && HoldsLastRows(tags, i, rows) && number == RowNumber(tags, i) && cells == CellsOf(tags[i].cells)
    ensures HoldsLastRows(tags, i + 1, rows')
  {
    rows' := rows;
    while |rows'| < number - 1
      invariant |rows'| == Max(|rows|, |rows'|) && |rows'| <= Max(|rows|, number - 1)
      invariant rows <= rows'
      invariant forall r :: 0 <= r < |rows'| ==> rows'[r] == LastRow(tags, i, r + 1)
    {
      NoRowBeyond(tags, i, |rows'| + 1);
      rows' := rows' + [[]];
    }
    if 1 <= number <= |rows'| {
      rows' := rows'[number - 1 := cells];
    } else if number == |rows'| + 1 {
      rows' := rows' + [cells];
    }
  }

  predicate IsEmptyRow(row: Row) {
    forall c :: 0 <= c < |row| ==> row[c] == ""
  }

  /** The text at a place of a grid; outside it there is none. */
  function CellAt(rows: seq<Row>, r: nat, c: nat): string {
    if r < |rows| && c < |rows[r]| then rows[r][c] else ""
  }

  /** The text that the last element for the row, and in it the last cell for the column, put there. */
  function LastWrite(tags: seq<RowTag>, n: nat, r: nat, c: nat): string
    requires n <= |tags|
  {
    if n == 0 then ""
    else if RowNumber(tags, n - 1) == r + 1 then LastText(tags[n - 1].cells, |tags[n - 1].cells|, c)
    else LastWrite(tags, n - 1, r, c)
  }

  ghost predicate HasText(row: Row) {
    exists c :: 0 <= c < |row| && row[c] != ""
  }

  ghost predicate IsTheSheet(tags: seq<RowTag>, rows: seq<Row>) {
    && (forall r: nat, c: nat :: CellAt(rows, r, c) == LastWrite(tags, |tags|, r, c))
    && (forall r :: 0 <= r < |rows| ==> rows[r] == LastRow(tags, |tags|, r + 1))
    && (rows == [] || HasText(rows[|rows| - 1]))
  }

  lemma {:induction false} LastRowHoldsLastWrite(tags: seq<RowTag>, n: nat, r: nat, c: nat)
    requires n <= |tags|
    ensures LastWrite(tags, n, r, c) == var row := LastRow(tags, n, r + 1); if c < |row| then row[c] else ""
  {
    if n > 0 {
      LastRowHoldsLastWrite(tags, n - 1, r, c);
      var cells := tags[n - 1].cells;
      if c >= Width(cells, |cells|) {
        NothingBeyond(cells, |cells|, c);
      }
    }
  }

  lemma PlacedIsLastWrite(tags: seq<RowTag>, rows: seq<Row>, r: nat, c: nat)
    requires HoldsLastRows(tags, |tags|, rows)
    ensures CellAt(rows, r, c) == LastWrite(tags, |tags|, r, c)
  {
    LastRowHoldsLastWrite(tags, |tags|, r, c);
    if r >= |rows| {
      NoRowBeyond(tags, |tags|, r + 1);
    }
  }

  lemma CellsAreCellsOf(tags: seq<CellTag>, cells: Row)
    requires HoldsLast(tags, |tags|, cells)
    ensures cells == CellsOf(tags)
  {
    var cells' := CellsOf(tags);
    assert forall c :: 0 <= c < |cells| ==> cells[c] == cells'[c];
  }

  /**
   * The rows of a sheet: a grid without holes that has at every place what was last put there,
   * and "" where nothing was, with no empty row at its end.
   */
  method ReadRows(tags: seq<RowTag>) returns (rows: seq<Row>)
    ensures IsTheSheet(tags, rows)
  {
    rows := [];
    for i := 0 to |tags|
      invariant HoldsLastRows(tags, i, rows)
    {
      var number := if tags[i].number != 0 then tags[i].number else |rows| + 1;
      var cells := PlaceCells(tags[i].cells);
      CellsAreCellsOf(tags[i].cells, cells);
      rows := PlaceRow(tags, i, rows, number, cells);
    }
    forall r: nat, c: nat
      ensures CellAt(rows, r, c) == LastWrite(tags, |tags|, r, c)
    {
      PlacedIsLastWrite(tags, rows, r, c);
    }
    while rows != [] && IsEmptyRow(rows[|rows| - 1])
      invariant forall r: nat, c: nat :: CellAt(rows, r, c) == LastWrite(tags, |tags|, r, c)
      invariant forall r :: 0 <= r < |rows| ==> rows[r] == LastRow(tags, |tags|, r + 1)
      decreases |rows|
    {
      var rest := rows[..|rows| - 1];
      forall r: nat, c: nat
        ensures CellAt(rest, r, c) == CellAt(rows, r, c)
      {
      }
      rows := rest;
    }
  }

  // ---- what a sheet that says where its cells are is read as ----

  /** No later element has the row number, and no later cell of it the column. */
  predicate LastThere(tags: seq<RowTag>, i: nat, j: nat)
    requires i < |tags| && j < |tags[i].cells|
  {
    && (forall k :: i < k < |tags| ==> RowNumber(tags, k) != RowNumber(tags, i))
    && (forall k :: j < k < |tags[i].cells| ==> Column(tags[i].cells, k) != Column(tags[i].cells, j))
  }

  /** A cell without an address goes right behind the furthest cell before it. */
  lemma {:induction false} NextColumn(tags: seq<CellTag>, n: nat)
    requires n <= |tags|
    ensures forall k :: 0 <= k < n ==> Column(tags, k) < Width(tags, n)
    ensures Width(tags, n) == 0 || exists k :: 0 <= k < n && Column(tags, k) == Width(tags, n) - 1
  {
    if n > 0 {
      NextColumn(tags, n - 1);
      if Width(tags, n) == Width(tags, n - 1) && Width(tags, n) != 0 {
        var k :| 0 <= k < n - 1 && Column(tags, k) == Width(tags, n - 1) - 1;
        assert 0 <= k < n && Column(tags, k) == Width(tags, n) - 1;
      } else if Width(tags, n) != 0 {
        var k := n - 1;
        assert 0 <= k < n && Column(tags, k) == Width(tags, n) - 1;
      }
    }
  }

  lemma UnaddressedGoesNext(tags: seq<CellTag>, i: nat)
    requires i < |tags| && tags[i].ref == ""
    ensures forall k :: 0 <= k < i ==> Column(tags, k) < Column(tags, i)
    ensures Column(tags, i) == 0 || exists k :: 0 <= k < i && Column(tags, k) == Column(tags, i) - 1
  {
    NextColumn(tags, i);
  }

  /** And a row without a number goes below the lowest row before it. */
  lemma {:induction false} NextNumber(tags: seq<RowTag>, n: nat)
    requires n <= |tags|
    ensures forall k :: 0 <= k < n ==> RowNumber(tags, k) <= Height(tags, n)
    ensures Height(tags, n) == 0 || exists k :: 0 <= k < n && RowNumber(tags, k) == Height(tags, n)
  {
    if n > 0 {
      var last := n - 1;
      NextNumber(tags, last);
      assert Height(tags, n) == Max(Height(tags, last), RowNumber(tags, last));
      if Height(tags, n) == RowNumber(tags, last) {
        assert 0 <= last < n;
      } else if Height(tags, last) != 0 {
        var k :| 0 <= k < last && RowNumber(tags, k) == Height(tags, last);
        assert 0 <= k < n && RowNumber(tags, k) == Height(tags, n);
      }
    }
  }

  lemma UnnumberedGoesNext(tags: seq<RowTag>, i: nat)
    requires i < |tags| && tags[i].number == 0
    ensures forall k :: 0 <= k < i ==> RowNumber(tags, k) < RowNumber(tags, i)
    ensures RowNumber(tags, i) == 1 || exists k :: 0 <= k < i && RowNumber(tags, k) == RowNumber(tags, i) - 1
  {
    NextNumber(tags, i);
  }

  lemma {:induction false} OnlyTextThere(tags: seq<CellTag>, n: nat, j: nat)
    requires j < n <= |tags| && forall k :: j < k < |tags| ==> Column(tags, k) != Column(tags, j)
    ensures LastText(tags, n, Column(tags, j)) == Trim(tags[j].text)
  {
    if n - 1 != j {
      OnlyTextThere(tags, n - 1, j);
    }
  }

  lemma {:induction false} OnlyRowThere(tags: seq<RowTag>, n: nat, i: nat, r: nat, c: nat)
    requires i < n <= |tags| && RowNumber(tags, i) == r + 1
    requires forall k :: i < k < |tags| ==> RowNumber(tags, k) != RowNumber(tags, i)
    ensures LastWrite(tags, n, r, c) == LastText(tags[i].cells, |tags[i].cells|, c)
  {
    if n - 1 != i {
      OnlyRowThere(tags, n - 1, i, r, c);
    }
  }

  /** The text last put at a place is found there, with the white space around it gone. */
  lemma CellIsAtItsPlace(tags: seq<RowTag>, rows: seq<Row>, i: nat, j: nat, r: nat, c: nat)
    requires IsTheSheet(tags, rows) && i < |tags| && j < |tags[i].cells| && LastThere(tags, i, j)
    requires RowNumber(tags, i) == r + 1 && Column(tags[i].cells, j) == c
    ensures CellAt(rows, r, c) == Trim(tags[i].cells[j].text)
  {
    OnlyRowThere(tags, |tags|, i, r, c);
    OnlyTextThere(tags[i].cells, |tags[i].cells|, j);
  }

  /** A cell that is the last with its address is found at that place of the grid. */
  lemma AddressedCellIsThere(tags: seq<RowTag>, i: nat, j: nat, r: nat, c: nat, letters: string, number: string)
    requires i < |tags| && j < |tags[i].cells| && LastThere(tags, i, j)
    requires tags[i].number == r + 1 && tags[i].cells[j].ref == letters + number
    requires Upper(letters) == ColumnName(c) && AllDigits(number)
    ensures LastWrite(tags, |tags|, r, c) == Trim(tags[i].cells[j].text)
  {
    NameThenValue(c);
    AddressHasItsColumn(c, letters, number);
    OnlyRowThere(tags, |tags|, i, r, c);
    OnlyTextThere(tags[i].cells, |tags[i].cells|, j);
  }
}
