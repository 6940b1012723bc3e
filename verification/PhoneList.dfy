/**
 * A pasted list of phone numbers, each with what became of it (apps/web/lib/phone-list.ts). What
 * picks the numbers out of a line is a field of the reader; PhoneItems.ItemsOf is the source's way.
 */
module PhoneList {
  import opened Prelude
  import opened Text
  import opened PhoneItems
  import opened PhoneNumber

  datatype Outcome = Ready | Corrected | Known | Duplicate | Refused

  datatype Note =
    | NoNote
    | NoNumberOnLine
    | Because(why: Refusal)
    | AlreadyInList
    | AlreadyCustomer
    | Correction(raw: string, printed: string)

  datatype PhoneRow = PhoneRow(line: nat, raw: string, name: Option<string>, waId: Option<string>, outcome: Outcome, note: Note)

  /** The table of countries, the one chosen, and what picks the numbers out of a line. */
  datatype Reader = Reader(table: seq<DialCountry>, country: DialCountry, itemsOf: string -> seq<Item>)

  /** The reader of the source. */
  function SourceReader(table: seq<DialCountry>, country: DialCountry): Reader {
    Reader(table, country, (line: string) => ItemsOf(line))
  }

  /** `.split(/\r?\n/)` */
  function SplitLines(s: string): (lines: seq<string>)
    ensures lines != []
    decreases |s|
  {
    if s == "" then [""]
    else if s[0] == '\n' then [""] + SplitLines(s[1..])
    else if s[0] == '\r' && |s| > 1 && s[1] == '\n' then [""] + SplitLines(s[2..])
    else
      var lines := SplitLines(s[1..]);
      [[s[0]] + lines[0]] + lines[1..]
  }

  predicate Blank(line: string) {
    Trim(line) == ""
  }

  // ---- what a line holds ----

  /** What one row is about: a number found on a line, or a line where none was. */
  datatype Entry = Found(line: nat, item: Item) | Nothing(line: nat, text: string)

  /** No earlier line holds anything. */
  predicate IsFirst(lines: seq<string>, k: nat)
    requires k <= |lines|
  {
    forall j :: 0 <= j < k ==> Blank(lines[j])
  }

  function FoundOn(line: nat, items: seq<Item>): (r: seq<Entry>)
    ensures |r| == |items| && forall i :: 0 <= i < |r| ==> r[i] == Found(line, items[i])
  {
    seq(|items|, i requires 0 <= i < |items| => Found(line, items[i]))
  }

  function LineEntries(reader: Reader, text: string, line: nat, isFirst: bool): seq<Entry> {
    if Blank(text) then []
    else if !HasDigit(text) then if isFirst then [] else [Nothing(line, Trim(text))]
    else if reader.itemsOf(text) == [] then [Nothing(line, Trim(text))]
    else FoundOn(line, reader.itemsOf(text))
  }

  /** What the first n lines hold, in order. */
  function Entries(reader: Reader, lines: seq<string>, n: nat): seq<Entry>
    requires n <= |lines|
  {
    if n == 0 then []
    else Entries(reader, lines, n - 1) + LineEntries(reader, lines[n - 1], n, IsFirst(lines, n - 1))
  }

  function ReadEntry(reader: Reader, e: Entry): Result<Reading, Note> {
    match e
    case Nothing(_, _) => Err(NoNumberOnLine)
    case Found(_, item) =>
      if item.excel then Err(Because(ExcelShortened))
      else
        match ReadPhoneNumber(reader.table, item.raw, reader.country)
        case Ok(reading) => Ok(reading)
        case Err(why) => Err(Because(why))
  }

  // ---- what becomes of it ----

  function RawOf(e: Entry): string {
    match e
    case Found(_, item) => item.raw
    case Nothing(_, text) => text
  }

  function NameOf(e: Entry): Option<string> {
    match e
    case Found(_, item) => item.name
    case Nothing(_, _) => None
  }

  predicate Takes(reader: Reader, e: Entry, waId: string) {
    ReadEntry(reader, e).Ok? && ReadEntry(reader, e).value.waId == waId
  }

  predicate TakenIn(reader: Reader, earlier: seq<Entry>, waId: string) {
    exists i | 0 <= i < |earlier| :: Takes(reader, earlier[i], waId)
  }

  /** The row of an entry, by what the entries before it already took. */
  function RowFor(reader: Reader, earlier: seq<Entry>, e: Entry, known: set<string>): PhoneRow {
    match ReadEntry(reader, e)
    case Err(note) => PhoneRow(e.line, RawOf(e), NameOf(e), None, Refused, note)
    case Ok(r) =>
      if TakenIn(reader, earlier, r.waId) then PhoneRow(e.line, RawOf(e), NameOf(e), Some(r.waId), Duplicate, AlreadyInList)
      else if r.waId in known then PhoneRow(e.line, RawOf(e), NameOf(e), Some(r.waId), Known, AlreadyCustomer)
      else if r.corrected then
        PhoneRow(e.line, RawOf(e), NameOf(e), Some(r.waId), Corrected,
                 Correction(RawOf(e), FormatInternational(reader.table, r.waId)))
      else PhoneRow(e.line, RawOf(e), NameOf(e), Some(r.waId), Ready, NoNote)
  }

  predicate AreRows(reader: Reader, entries: seq<Entry>, known: set<string>, rows: seq<PhoneRow>) {
    |rows| == |entries| && forall i :: 0 <= i < |rows| ==> RowIs(reader, entries, known, rows, i)
  }

  /** Row i is that of entry i, by what the entries before it took. */
  predicate RowIs(reader: Reader, entries: seq<Entry>, known: set<string>, rows: seq<PhoneRow>, i: nat)
    requires |rows| == |entries| && i < |rows|
  {
    rows[i] == RowFor(reader, entries[..i], entries[i], known)
  }

  ghost predicate HasSeen(reader: Reader, entries: seq<Entry>, seen: set<string>) {
    forall w :: w in seen <==> TakenIn(reader, entries, w)
  }

  lemma OneMoreRow(reader: Reader, entries: seq<Entry>, known: set<string>, rows: seq<PhoneRow>, e: Entry, row: PhoneRow)
    requires AreRows(reader, entries, known, rows) && row == RowFor(reader, entries, e, known)
    ensures AreRows(reader, entries + [e], known, rows + [row])
  {
    var more, rows' := entries + [e], rows + [row];
    assert more[..|entries|] == entries;
    forall i | 0 <= i < |rows'|
      ensures RowIs(reader, more, known, rows', i)
    {
      if i < |rows| {
        assert RowIs(reader, entries, known, rows, i);
        assert more[..i] == entries[..i];
      }
    }
  }

  lemma OneMoreTaken(reader: Reader, entries: seq<Entry>, e: Entry, w: string)
    ensures TakenIn(reader, entries + [e], w) <==> TakenIn(reader, entries, w) || Takes(reader, e, w)
  {
    var more := entries + [e];
    assert more[|entries|] == e;
    if TakenIn(reader, entries, w) {
      var i :| 0 <= i < |entries| && Takes(reader, entries[i], w);
      assert more[i] == entries[i];
    }
  }

  lemma OneMoreSeen(reader: Reader, entries: seq<Entry>, seen: set<string>, e: Entry, seen': set<string>)
    requires HasSeen(reader, entries, seen)
    requires forall w :: w in seen' <==> w in seen || Takes(reader, e, w)
    ensures HasSeen(reader, entries + [e], seen')
  {
    forall w
      ensures w in seen' <==> TakenIn(reader, entries + [e], w)
    {
      OneMoreTaken(reader, entries, e, w);
    }
  }

  /** rows.push of a line without a number. */
  method RefuseLine(reader: Reader, ghost before: seq<Entry>, ghost known: set<string>, rows: seq<PhoneRow>, seen: set<string>,
                    line: nat, lineText: string) returns (rows': seq<PhoneRow>, seen': set<string>)
    requires AreRows(reader, before, known, rows) && HasSeen(reader, before, seen)
    ensures AreRows(reader, before + [Nothing(line, Trim(lineText))], known, rows')
    ensures HasSeen(reader, before + [Nothing(line, Trim(lineText))], seen')
  {
    ghost var e := Nothing(line, Trim(lineText));
    rows' := rows + [PhoneRow(line, Trim(lineText), None, None, Refused, NoNumberOnLine)];
    seen' := seen;
    OneMoreRow(reader, before, known, rows, e, rows'[|rows|]);
    OneMoreSeen(reader, before, seen, e, seen');
  }

  /** The loop over the numbers of one line. */
  method TakeItems(reader: Reader, ghost before: seq<Entry>, known: set<string>, rows: seq<PhoneRow>, seen: set<string>,
                   line: nat, found: seq<Item>) returns (rows': seq<PhoneRow>, seen': set<string>)
    requires AreRows(reader, before, known, rows) && HasSeen(reader, before, seen)
    ensures AreRows(reader, before + FoundOn(line, found), known, rows')
    ensures HasSeen(reader, before + FoundOn(line, found), seen')
  {
    rows', seen' := rows, seen;
    assert before + FoundOn(line, found)[..0] == before;
    for i := 0 to |found|
      invariant AreRows(reader, before + FoundOn(line, found)[..i], known, rows')
      invariant HasSeen(reader, before + FoundOn(line, found)[..i], seen')
    {
      ghost var done := before + FoundOn(line, found)[..i];
      rows', seen' := TakeItem(reader, done, known, rows', seen', line, found[i]);
      assert done + [Found(line, found[i])] == before + FoundOn(line, found)[..i + 1];
    }
    assert FoundOn(line, found)[..|found|] == FoundOn(line, found);
  }

  /** The body of that loop. */
  method TakeItem(reader: Reader, ghost done: seq<Entry>, known: set<string>, rows: seq<PhoneRow>, seen: set<string>,
                  line: nat, item: Item) returns (rows': seq<PhoneRow>, seen': set<string>)
    requires AreRows(reader, done, known, rows) && HasSeen(reader, done, seen)
    ensures AreRows(reader, done + [Found(line, item)], known, rows')
    ensures HasSeen(reader, done + [Found(line, item)], seen')
  {
    ghost var e := Found(line, item);
    var row: PhoneRow;
    seen' := seen;
    var read: Result<Reading, Refusal> :=
      if item.excel then Err(ExcelShortened) else ReadPhoneNumber(reader.table, item.raw, reader.country);
    match read {
      case Err(why) =>
        row := PhoneRow(line, item.raw, item.name, None, Refused, Because(why));
      case Ok(r) =>
        if r.waId in seen {
          row := PhoneRow(line, item.raw, item.name, Some(r.waId), Duplicate, AlreadyInList);
        } else {
          seen' := seen + {r.waId};
          if r.waId in known {
            row := PhoneRow(line, item.raw, item.name, Some(r.waId), Known, AlreadyCustomer);
          } else if r.corrected {
            row := PhoneRow(line, item.raw, item.name, Some(r.waId), Corrected,
                            Correction(item.raw, FormatInternational(reader.table, r.waId)));
          } else {
            row := PhoneRow(line, item.raw, item.name, Some(r.waId), Ready, NoNote);
          }
        }
    }
    rows' := rows + [row];
    OneMoreRow(reader, done, known, rows, e, row);
    OneMoreSeen(reader, done, seen, e, seen');
  }

  lemma NothingMore(before: seq<Entry>)
    ensures before + [] == before
  {
  }

  /** The callback of the loop over lines. */
  method ReadLine(reader: Reader, ghost before: seq<Entry>, known: set<string>, rows: seq<PhoneRow>, seen: set<string>, first: bool,
                  lineText: string, line: nat) returns (rows': seq<PhoneRow>, seen': set<string>, first': bool)
    requires AreRows(reader, before, known, rows) && HasSeen(reader, before, seen)
    ensures AreRows(reader, before + LineEntries(reader, lineText, line, first), known, rows')
    ensures HasSeen(reader, before + LineEntries(reader, lineText, line, first), seen')
    ensures first' <==> first && Blank(lineText)
  {
    rows', seen', first' := rows, seen, first;
    NothingMore(before);
    if Blank(lineText) {
      return;
    }
    first' := false;
    if !HasDigit(lineText) {
      if !first {
        rows', seen' := RefuseLine(reader, before, known, rows, seen, line, lineText);
      }
      return;
    }
    var found := reader.itemsOf(lineText);
    if found == [] {
      rows', seen' := RefuseLine(reader, before, known, rows, seen, line, lineText);
      return;
    }
    rows', seen' := TakeItems(reader, before, known, rows, seen, line, found);
  }

  /** How far the loop has got: the rows of the first n lines, and what they took. */
  ghost predicate ReadTo(reader: Reader, lines: seq<string>, n: nat, known: set<string>, rows: seq<PhoneRow>, seen: set<string>, first: bool)
    requires n <= |lines|
  {
    && AreRows(reader, Entries(reader, lines, n), known, rows) && HasSeen(reader, Entries(reader, lines, n), seen)
    && (first <==> IsFirst(lines, n))
  }

  lemma EntriesNext(reader: Reader, lines: seq<string>, n: nat)
    requires n < |lines|
    ensures Entries(reader, lines, n + 1) == Entries(reader, lines, n) + LineEntries(reader, lines[n], n + 1, IsFirst(lines, n))
    ensures IsFirst(lines, n + 1) <==> IsFirst(lines, n) && Blank(lines[n])
  {
  }

  lemma ReadToNext(reader: Reader, lines: seq<string>, n: nat, first: bool, known: set<string>,
                   rows: seq<PhoneRow>, seen: set<string>, first': bool)
    requires n < |lines| && (first <==> IsFirst(lines, n)) && (first' <==> first && Blank(lines[n]))
    requires AreRows(reader, Entries(reader, lines, n) + LineEntries(reader, lines[n], n + 1, first), known, rows)
    requires HasSeen(reader, Entries(reader, lines, n) + LineEntries(reader, lines[n], n + 1, first), seen)
    ensures ReadTo(reader, lines, n + 1, known, rows, seen, first')
  {
    assert first == IsFirst(lines, n);
    EntriesNext(reader, lines, n);
  }

  method ReadNext(reader: Reader, lines: seq<string>, n: nat, known: set<string>, rows: seq<PhoneRow>, seen: set<string>, first: bool)
    returns (rows': seq<PhoneRow>, seen': set<string>, first': bool)
    requires n < |lines| && ReadTo(reader, lines, n, known, rows, seen, first)
    ensures ReadTo(reader, lines, n + 1, known, rows', seen', first')
  {
    rows', seen', first' := ReadLine(reader, Entries(reader, lines, n), known, rows, seen, first, lines[n], n + 1);
    ReadToNext(reader, lines, n, first, known, rows', seen', first');
  }

  lemma NothingRead(reader: Reader, lines: seq<string>, known: set<string>)
    ensures ReadTo(reader, lines, 0, known, [], {}, true)
  {
  }

  lemma AllRead(reader: Reader, lines: seq<string>, n: nat, known: set<string>, rows: seq<PhoneRow>, seen: set<string>, first: bool)
    requires n == |lines| && ReadTo(reader, lines, n, known, rows, seen, first)
    ensures AreRows(reader, Entries(reader, lines, |lines|), known, rows)
  {
  }

  /** One row for every entry of the lines, decided by what the rows before it took. */
  method ReadLines(reader: Reader, lines: seq<string>, known: set<string>) returns (rows: seq<PhoneRow>)
    ensures AreRows(reader, Entries(reader, lines, |lines|), known, rows)
  {
    var seen: set<string>;
    var first := true;
    var index := 0;
    rows, seen := [], {};
    NothingRead(reader, lines, known);
    while index < |lines|
      invariant 0 <= index <= |lines| && ReadTo(reader, lines, index, known, rows, seen, first)
    {
      rows, seen, first := ReadNext(reader, lines, index, known, rows, seen, first);
      index := index + 1;
    }
    AllRead(reader, lines, index, known, rows, seen, first);
  }

  function LinesOf(text: string): seq<string> {
    SplitLines(WesternDigits(text))
  }

  /** Every number in a pasted list, each with what became of it. */
  method ReadPhoneList(reader: Reader, text: string, known: set<string>) returns (rows: seq<PhoneRow>)
    ensures AreRows(reader, Entries(reader, LinesOf(text), |LinesOf(text)|), known, rows)
  {
    rows := ReadLines(reader, LinesOf(text), known);
  }

  // ---- what is promised of the rows ----

  predicate TakenByRow(rows: seq<PhoneRow>, n: nat, waId: string)
    requires n <= |rows|
  {
    exists j | 0 <= j < n :: rows[j].waId == Some(waId)
  }

  lemma RowTakes(reader: Reader, earlier: seq<Entry>, e: Entry, known: set<string>, waId: string)
    ensures RowFor(reader, earlier, e, known).waId == Some(waId) <==> Takes(reader, e, waId)
  {
  }

  lemma RowsTake(reader: Reader, entries: seq<Entry>, known: set<string>, rows: seq<PhoneRow>, n: nat, waId: string)
    requires AreRows(reader, entries, known, rows) && n <= |rows|
    ensures TakenByRow(rows, n, waId) <==> TakenIn(reader, entries[..n], waId)
  {
    forall j | 0 <= j < n
      ensures rows[j].waId == Some(waId) <==> Takes(reader, entries[..n][j], waId)
    {
      assert RowIs(reader, entries, known, rows, j);
      RowTakes(reader, entries[..j], entries[j], known, waId);
    }
  }

  /**
   * A row is a duplicate exactly when an earlier row took its number, and known exactly when it is
   * the first with a number of the known set; a refused row has no number, and only such a row.
   */
  lemma OutcomesAreDecided(reader: Reader, entries: seq<Entry>, known: set<string>, rows: seq<PhoneRow>, i: nat)
    requires AreRows(reader, entries, known, rows) && i < |rows|
    ensures rows[i].outcome == Refused <==> rows[i].waId.None?
    ensures rows[i].outcome == Duplicate <==> rows[i].waId.Some? && TakenByRow(rows, i, rows[i].waId.value)
    ensures rows[i].outcome == Known <==>
            rows[i].waId.Some? && !TakenByRow(rows, i, rows[i].waId.value) && rows[i].waId.value in known
  {
    assert RowIs(reader, entries, known, rows, i);
    if rows[i].waId.Some? {
      RowsTake(reader, entries, known, rows, i, rows[i].waId.value);
    }
  }

  predicate Accepted(row: PhoneRow) {
    row.outcome == Ready || row.outcome == Corrected || row.outcome == Known
  }

  /** No number is accepted on two rows. */
  lemma EachNumberOnce(reader: Reader, entries: seq<Entry>, known: set<string>, rows: seq<PhoneRow>, i: nat, j: nat)
    requires AreRows(reader, entries, known, rows) && i < j < |rows| && Accepted(rows[i]) && Accepted(rows[j])
    ensures rows[i].waId.Some? && rows[j].waId.Some? && rows[i].waId != rows[j].waId
  {
    OutcomesAreDecided(reader, entries, known, rows, i);
    OutcomesAreDecided(reader, entries, known, rows, j);
  }

  /** A number that any row carries is accepted on one of them. */
  lemma {:induction false} EachNumberSomewhere(
      reader: Reader, entries: seq<Entry>, known: set<string>, rows: seq<PhoneRow>, i: nat)
    requires AreRows(reader, entries, known, rows) && i < |rows| && rows[i].waId.Some?
    ensures exists j :: 0 <= j <= i && Accepted(rows[j]) && rows[j].waId == rows[i].waId
  {
    OutcomesAreDecided(reader, entries, known, rows, i);
    if rows[i].outcome == Duplicate {
      var j :| 0 <= j < i && rows[j].waId == Some(rows[i].waId.value);
      EachNumberSomewhere(reader, entries, known, rows, j);
    } else {
      assert Accepted(rows[i]);
    }
  }

  /** Whatever a row carries is a well-formed international number. */
  lemma RowsAreWellFormed(reader: Reader, entries: seq<Entry>, known: set<string>, rows: seq<PhoneRow>, i: nat)
    requires AreRows(reader, entries, known, rows) && i < |rows| && rows[i].waId.Some?
    requires GoodTable(reader.table) && reader.country in reader.table
    ensures WellFormed(reader.table, rows[i].waId.value)
  {
    var e := entries[i];
    assert RowIs(reader, entries, known, rows, i);
    match e
    case Found(_, item) => AcceptedIsWellFormed(reader.table, item.raw, reader.country);
    case Nothing(_, _) =>
  }

  /** A line that yields rows: it is not blank, and not a header. */
  predicate Yields(lines: seq<string>, k: nat)
    requires k < |lines|
  {
    TextYields(lines[k], IsFirst(lines, k))
  }

  predicate TextYields(text: string, isFirst: bool) {
    !Blank(text) && (HasDigit(text) || !isFirst)
  }

  lemma LineEntriesAre(reader: Reader, text: string, line: nat, isFirst: bool)
    ensures LineEntries(reader, text, line, isFirst) != [] <==> !Blank(text) && (HasDigit(text) || !isFirst)
    ensures forall e :: e in LineEntries(reader, text, line, isFirst) ==> e.line == line
  {
  }

  predicate FromLine(entries: seq<Entry>, line: nat) {
    exists i | 0 <= i < |entries| :: entries[i].line == line
  }

  predicate InOrder(entries: seq<Entry>, last: nat) {
    && (forall i :: 0 <= i < |entries| ==> 1 <= entries[i].line <= last)
    && (forall i, j :: 0 <= i < j < |entries| ==> entries[i].line <= entries[j].line)
  }

  lemma OrderedBefore(a: seq<Entry>, b: seq<Entry>, n: nat)
    requires InOrder(a, n) && forall e :: e in b ==> e.line == n + 1
    ensures InOrder(a + b, n + 1)
  {
    forall i | 0 <= i < |b|
      ensures b[i].line == n + 1
    {
      assert b[i] in b;
    }
  }

  lemma InOrderWithLine(reader: Reader, entries: seq<Entry>, text: string, line: nat, isFirst: bool)
    requires line > 0 && InOrder(entries, line - 1)
    ensures InOrder(entries + LineEntries(reader, text, line, isFirst), line)
  {
    LineEntriesAre(reader, text, line, isFirst);
    OrderedBefore(entries, LineEntries(reader, text, line, isFirst), line - 1);
  }

  lemma EntriesUpTo(reader: Reader, lines: seq<string>, n: nat, line: nat)
    requires n < |lines| && line == n + 1
    ensures Entries(reader, lines, line) == Entries(reader, lines, n) + LineEntries(reader, lines[n], line, IsFirst(lines, n))
  {
  }

  lemma InOrderNext(reader: Reader, lines: seq<string>, m: nat)
    requires m < |lines| && InOrder(Entries(reader, lines, m), m)
    ensures InOrder(Entries(reader, lines, m + 1), m + 1)
  {
    var line := m + 1;
    EntriesUpTo(reader, lines, m, line);
    InOrderWithLine(reader, Entries(reader, lines, m), lines[m], line, IsFirst(lines, m));
  }

  lemma EntriesAreInOrder(reader: Reader, lines: seq<string>)
    ensures InOrder(Entries(reader, lines, |lines|), |lines|)
  {
    for m := 0 to |lines|
      invariant InOrder(Entries(reader, lines, m), m)
    {
      InOrderNext(reader, lines, m);
    }
  }

  lemma FromEither(a: seq<Entry>, b: seq<Entry>, line: nat)
    ensures FromLine(a + b, line) <==> FromLine(a, line) || FromLine(b, line)
  {
    if FromLine(a, line) {
      var i :| 0 <= i < |a| && a[i].line == line;
      assert (a + b)[i] == a[i];
    }
    if FromLine(b, line) {
      var i :| 0 <= i < |b| && b[i].line == line;
      assert (a + b)[|a| + i] == b[i];
    }
  }

  lemma LineIsFromItself(reader: Reader, text: string, line: nat, isFirst: bool, other: nat)
    ensures FromLine(LineEntries(reader, text, line, isFirst), other) <==>
            other == line && TextYields(text, isFirst)
  {
    var here := LineEntries(reader, text, line, isFirst);
    LineEntriesAre(reader, text, line, isFirst);
    assert forall i :: 0 <= i < |here| ==> here[i] in here;
    if here != [] {
      assert here[0].line == line;
    }
  }

  lemma FromOneMoreLine(reader: Reader, before: seq<Entry>, text: string, line: nat, isFirst: bool, other: nat)
    ensures FromLine(before + LineEntries(reader, text, line, isFirst), other) <==>
            FromLine(before, other) || (other == line && TextYields(text, isFirst))
  {
    LineIsFromItself(reader, text, line, isFirst, other);
    FromEither(before, LineEntries(reader, text, line, isFirst), other);
  }

  lemma OneMoreFromLines(reader: Reader, lines: seq<string>, m: nat, k: nat)
    requires m < |lines| && k < |lines|
    ensures FromLine(Entries(reader, lines, m + 1), k + 1) <==>
            FromLine(Entries(reader, lines, m), k + 1) || (k == m && Yields(lines, k))
  {
    var line, other := m + 1, k + 1;
    EntriesUpTo(reader, lines, m, line);
    FromOneMoreLine(reader, Entries(reader, lines, m), lines[m], line, IsFirst(lines, m), other);
    if k != m {
      assert other != line;
    }
  }

  /** Line k is among those of the first n lines' entries exactly when it is one of them and yields any. */
  ghost predicate Reported(reader: Reader, lines: seq<string>, n: nat, k: nat)
    requires n <= |lines| && k < |lines|
  {
    FromLine(Entries(reader, lines, n), k + 1) <==> k < n && Yields(lines, k)
  }

  lemma ReportedNext(reader: Reader, lines: seq<string>, m: nat, next: nat, k: nat)
    requires m < |lines| && next == m + 1 && k < |lines| && Reported(reader, lines, m, k)
    ensures Reported(reader, lines, next, k)
  {
    OneMoreFromLines(reader, lines, m, k);
  }

  lemma EntriesAreFromLines(reader: Reader, lines: seq<string>, k: nat)
    requires k < |lines|
    ensures Reported(reader, lines, |lines|, k)
  {
    ReportedUpTo(reader, lines, |lines|, k);
  }

  lemma NothingReported(reader: Reader, lines: seq<string>, k: nat)
    requires k < |lines|
    ensures Reported(reader, lines, 0, k)
  {
    assert Entries(reader, lines, 0) == [];
  }

  lemma {:induction false} ReportedUpTo(reader: Reader, lines: seq<string>, n: nat, k: nat)
    requires n <= |lines| && k < |lines|
    ensures Reported(reader, lines, n, k)
  {
    if n == 0 {
      NothingReported(reader, lines, k);
    } else {
      var m := n - 1;
      ReportedUpTo(reader, lines, m, k);
      ReportedNext(reader, lines, m, n, k);
    }
  }

  /** Line numbers never decrease, and are those of lines of the text. */
  lemma LinesNeverDecrease(reader: Reader, lines: seq<string>, known: set<string>, rows: seq<PhoneRow>, i: nat, j: nat)
    requires AreRows(reader, Entries(reader, lines, |lines|), known, rows) && i <= j < |rows|
    ensures 1 <= rows[i].line <= rows[j].line <= |lines|
  {
    var entries := Entries(reader, lines, |lines|);
    EntriesAreInOrder(reader, lines);
    RowHasLine(reader, entries, known, rows, i);
    RowHasLine(reader, entries, known, rows, j);
  }

  lemma RowHasLine(reader: Reader, entries: seq<Entry>, known: set<string>, rows: seq<PhoneRow>, i: nat)
    requires AreRows(reader, entries, known, rows) && i < |rows|
    ensures rows[i].line == entries[i].line
  {
    assert RowIs(reader, entries, known, rows, i);
  }

  lemma RowsAreFromLines(reader: Reader, entries: seq<Entry>, known: set<string>, rows: seq<PhoneRow>, line: nat)
    requires AreRows(reader, entries, known, rows)
    ensures (exists i :: 0 <= i < |rows| && rows[i].line == line) <==> FromLine(entries, line)
  {
    forall i | 0 <= i < |rows|
      ensures rows[i].line == entries[i].line
    {
      RowHasLine(reader, entries, known, rows, i);
    }
    if FromLine(entries, line) {
      var i :| 0 <= i < |entries| && entries[i].line == line;
      assert rows[i].line == line;
    }
  }

  /**
   * A line has a row exactly when it is not blank and not a first line without a digit: nothing
   * else is left out.
   */
  lemma EveryLineIsReported(reader: Reader, lines: seq<string>, known: set<string>, rows: seq<PhoneRow>, k: nat)
    requires AreRows(reader, Entries(reader, lines, |lines|), known, rows) && k < |lines|
    ensures (exists i :: 0 <= i < |rows| && rows[i].line == k + 1) <==> Yields(lines, k)
  {
    EntriesAreFromLines(reader, lines, k);
    RowsAreFromLines(reader, Entries(reader, lines, |lines|), known, rows, k + 1);
  }

  /** A line holds white space alone. */
  ghost predicate HoldsNothing(line: string) {
    forall i :: 0 <= i < |line| ==> IsSpace(line[i])
  }

  /** By the characters: a line has a row exactly when it holds something, and a digit unless something stands on a line before. */
  lemma YieldsMeans(lines: seq<string>, k: nat)
    requires k < |lines|
    ensures Yields(lines, k) <==>
            && !HoldsNothing(lines[k])
            && (HasCharBetween(lines[k], '0', '9') || exists j :: 0 <= j < k && !HoldsNothing(lines[j]))
  {
    CharsAre(lines[k]);
    forall j | 0 <= j <= k
      ensures Blank(lines[j]) <==> HoldsNothing(lines[j])
    {
      TrimMeans(lines[j]);
    }
  }

  // ---- a printed list pasted back ----

  function JoinLines(lines: seq<string>): string {
    if lines == [] then "" else if |lines| == 1 then lines[0] else lines[0] + "\n" + JoinLines(lines[1..])
  }

  predicate OneLine(s: string) {
    '\n' !in s && '\r' !in s
  }

  lemma {:induction false} SplitsAtBreak(s: string, rest: string)
    requires OneLine(s)
    ensures SplitLines(s + "\n" + rest) == [s] + SplitLines(rest)
    ensures SplitLines(s) == [s]
  {
    var text := s + "\n" + rest;
    if s == "" {
      assert text[1..] == rest;
    } else {
      SplitsAtBreak(s[1..], rest);
      assert s[0] in s;
      assert text[0] == s[0] && text[1..] == s[1..] + "\n" + rest;
      assert [s[0]] + s[1..] == s;
    }
  }

  lemma {:induction false} JoinedSplits(lines: seq<string>)
    requires lines != [] && forall i :: 0 <= i < |lines| ==> OneLine(lines[i])
    ensures SplitLines(JoinLines(lines)) == lines
    decreases |lines|
  {
    if |lines| == 1 {
      SplitsAtBreak(lines[0], "");
    } else {
      SplitsAtBreak(lines[0], JoinLines(lines[1..]));
      JoinedSplits(lines[1..]);
      assert lines == [lines[0]] + lines[1..];
    }
  }

  /** The line is a print of the number, which is well formed with no 0 after its code. */
  predicate IsPrintOf(table: seq<DialCountry>, line: string, w: string) {
    line == FormatInternational(table, w) && WellFormed(table, w) && !ZeroAfterCode(table, w)
  }

  predicate ArePrintsOf(table: seq<DialCountry>, lines: seq<string>, ws: seq<string>) {
    |lines| == |ws| && forall i :: 0 <= i < |ws| ==> IsPrintOf(table, lines[i], ws[i])
  }

  ghost predicate UsesItemsOf(reader: Reader) {
    forall line :: reader.itemsOf(line) == ItemsOf(line)
  }

  lemma PrintYieldsItself(reader: Reader, line: string, w: string, number: nat, isFirst: bool)
    requires GoodTable(reader.table) && IsPrintOf(reader.table, line, w) && UsesItemsOf(reader)
    ensures LineEntries(reader, line, number, isFirst) == [Found(number, Item(line, None, false))]
    ensures ReadEntry(reader, Found(number, Item(line, None, false))) == Ok(Reading(w, false))
    ensures OneLine(line)
  {
    PrintedNumberIsOneItem(reader.table, w);
    PrintedReadsBackExactly(reader.table, w, reader.country);
  }

  predicate EntryIs(reader: Reader, e: Entry, line: nat, w: string) {
    e.line == line && ReadEntry(reader, e) == Ok(Reading(w, false))
  }

  /** The entries are of the first numbers, one a line. */
  predicate EntriesAre(reader: Reader, entries: seq<Entry>, ws: seq<string>) {
    |entries| <= |ws| && forall i :: 0 <= i < |entries| ==> EntryIs(reader, entries[i], i + 1, ws[i])
  }

  lemma OneMoreEntry(reader: Reader, entries: seq<Entry>, ws: seq<string>, e: Entry)
    requires EntriesAre(reader, entries, ws) && |entries| < |ws| && EntryIs(reader, e, |entries| + 1, ws[|entries|])
    ensures EntriesAre(reader, entries + [e], ws)
  {
    var more := entries + [e];
    forall i | 0 <= i < |more|
      ensures EntryIs(reader, more[i], i + 1, ws[i])
    {
      if i < |entries| {
        assert EntryIs(reader, entries[i], i + 1, ws[i]);
      }
    }
  }

  ghost predicate PrintedTo(reader: Reader, lines: seq<string>, ws: seq<string>, n: nat)
    requires n <= |lines|
  {
    |Entries(reader, lines, n)| == n && EntriesAre(reader, Entries(reader, lines, n), ws)
  }

  lemma PrintedNext(reader: Reader, lines: seq<string>, ws: seq<string>, m: nat)
    requires GoodTable(reader.table) && UsesItemsOf(reader) && ArePrintsOf(reader.table, lines, ws) && m < |lines| && PrintedTo(reader, lines, ws, m)
    ensures PrintedTo(reader, lines, ws, m + 1)
  {
    var e := Found(m + 1, Item(lines[m], None, false));
    assert IsPrintOf(reader.table, lines[m], ws[m]);
    PrintYieldsItself(reader, lines[m], ws[m], m + 1, IsFirst(lines, m));
    EntriesNext(reader, lines, m);
    OneMoreEntry(reader, Entries(reader, lines, m), ws, e);
  }

  lemma PrintedEntries(reader: Reader, lines: seq<string>, ws: seq<string>)
    requires GoodTable(reader.table) && UsesItemsOf(reader) && ArePrintsOf(reader.table, lines, ws)
    ensures PrintedTo(reader, lines, ws, |lines|)
  {
    for m := 0 to |lines|
      invariant PrintedTo(reader, lines, ws, m)
    {
      PrintedNext(reader, lines, ws, m);
    }
  }

  lemma RowOfPrint(reader: Reader, entries: seq<Entry>, ws: seq<string>, known: set<string>, rows: seq<PhoneRow>, i: nat)
    requires AreRows(reader, entries, known, rows) && EntriesAre(reader, entries, ws) && i < |entries|
    ensures rows[i].line == i + 1 && rows[i].waId == Some(ws[i]) && rows[i].outcome != Refused && rows[i].outcome != Corrected
  {
    assert EntryIs(reader, entries[i], i + 1, ws[i]);
    assert RowIs(reader, entries, known, rows, i);
  }

  /**
   * A printed list pasted back, under any country: a row for each number, on its line, holding that
   * very number, and none refused or corrected.
   */
  lemma PrintedListReadsBack(
      table: seq<DialCountry>, country: DialCountry, lines: seq<string>, ws: seq<string>, known: set<string>, rows: seq<PhoneRow>, i: nat)
    requires GoodTable(table) && ArePrintsOf(table, lines, ws) && i < |ws|
    requires var pasted := LinesOf(JoinLines(lines)); var reader := SourceReader(table, country);
             AreRows(reader, Entries(reader, pasted, |pasted|), known, rows)
    ensures |rows| == |ws| && rows[i].line == i + 1 && rows[i].waId == Some(ws[i])
    ensures rows[i].outcome != Refused && rows[i].outcome != Corrected
  {
    var reader := SourceReader(table, country);
    PrintsSplit(reader, lines, ws);
    PrintedEntries(reader, lines, ws);
    RowOfPrint(reader, Entries(reader, lines, |lines|), ws, known, rows, i);
  }

  lemma PrintsSplit(reader: Reader, lines: seq<string>, ws: seq<string>)
    requires GoodTable(reader.table) && UsesItemsOf(reader) && ArePrintsOf(reader.table, lines, ws) && lines != []
    ensures LinesOf(JoinLines(lines)) == lines
  {
    forall i | 0 <= i < |lines|
      ensures OneLine(lines[i]) && WesternDigits(lines[i]) == lines[i]
    {
      assert IsPrintOf(reader.table, lines[i], ws[i]);
      PrintYieldsItself(reader, lines[i], ws[i], 1, true);
      PrintIsPlain(reader.table, ws[i]);
      PrintedHasNoLetter(lines[i]);
    }
    JoinedIsWestern(lines);
    JoinedSplits(lines);
  }

  lemma {:induction false} JoinedIsWestern(lines: seq<string>)
    requires forall i :: 0 <= i < |lines| ==> WesternDigits(lines[i]) == lines[i]
    ensures WesternDigits(JoinLines(lines)) == JoinLines(lines)
    decreases |lines|
  {
    if |lines| > 1 {
      JoinedIsWestern(lines[1..]);
      WesternSplits(lines[0] + "\n", JoinLines(lines[1..]));
      WesternSplits(lines[0], "\n");
    }
  }

  lemma WesternSplits(a: string, b: string)
    ensures WesternDigits(a + b) == WesternDigits(a) + WesternDigits(b)
    ensures WesternDigits("\n") == "\n"
  {
  }

  // ---- the totals ----

  datatype Counts = Counts(ready: nat, corrected: nat, known: nat, duplicate: nat, refused: nat)

  function NumberWith(rows: seq<PhoneRow>, outcome: Outcome): nat {
    if rows == [] then 0
    else (if rows[|rows| - 1].outcome == outcome then 1 else 0) + NumberWith(rows[..|rows| - 1], outcome)
  }

  method CountOutcomes(rows: seq<PhoneRow>) returns (counts: Counts)
    ensures counts.ready == NumberWith(rows, Ready) && counts.corrected == NumberWith(rows, Corrected)
    ensures counts.known == NumberWith(rows, Known) && counts.duplicate == NumberWith(rows, Duplicate)
    ensures counts.refused == NumberWith(rows, Refused)
    ensures counts.ready + counts.corrected + counts.known + counts.duplicate + counts.refused == |rows|
  {
    counts := Counts(0, 0, 0, 0, 0);
    for i := 0 to |rows|
      invariant counts.ready == NumberWith(rows[..i], Ready) && counts.corrected == NumberWith(rows[..i], Corrected)
      invariant counts.known == NumberWith(rows[..i], Known) && counts.duplicate == NumberWith(rows[..i], Duplicate)
      invariant counts.refused == NumberWith(rows[..i], Refused)
      invariant counts.ready + counts.corrected + counts.known + counts.duplicate + counts.refused == i
    {
      assert rows[..i + 1][..i] == rows[..i];
      match rows[i].outcome {
        case Ready => counts := counts.(ready := counts.ready + 1);
        case Corrected => counts := counts.(corrected := counts.corrected + 1);
        case Known => counts := counts.(known := counts.known + 1);
        case Duplicate => counts := counts.(duplicate := counts.duplicate + 1);
        case Refused => counts := counts.(refused := counts.refused + 1);
      }
    }
    assert rows[..|rows|] == rows;
  }

  // ---- what a row says, by what was typed ----

  /** A row is of its line, with the number as it was picked out and the name beside it, or with the whole line where there was none. */
  lemma RowSaysWhatWasTyped(reader: Reader, entries: seq<Entry>, known: set<string>, rows: seq<PhoneRow>, i: nat)
    requires AreRows(reader, entries, known, rows) && i < |rows|
    ensures match entries[i]
            case Found(line, item) => rows[i].line == line && rows[i].raw == item.raw && rows[i].name == item.name
            case Nothing(line, text) =>
              rows[i] == PhoneRow(line, text, None, None, Refused, NoNumberOnLine)
  {
    assert RowIs(reader, entries, known, rows, i);
  }

  /** Why a row is not simply taken, as its note says. */
  lemma NotesSayWhy(reader: Reader, entries: seq<Entry>, known: set<string>, rows: seq<PhoneRow>, i: nat)
    requires AreRows(reader, entries, known, rows) && i < |rows|
    ensures rows[i].outcome == Duplicate ==> rows[i].note == AlreadyInList
    ensures rows[i].outcome == Known ==> rows[i].note == AlreadyCustomer
    ensures rows[i].outcome == Ready ==> rows[i].note == NoNote
    ensures entries[i].Found? && entries[i].item.excel ==> rows[i].outcome == Refused && rows[i].note == Because(ExcelShortened)
    ensures entries[i].Found? && !entries[i].item.excel ==>
              match ReadPhoneNumber(reader.table, entries[i].item.raw, reader.country)
              case Err(why) => rows[i].outcome == Refused && rows[i].note == Because(why)
              case Ok(reading) => rows[i].outcome != Refused && rows[i].waId == Some(reading.waId)
  {
    assert RowIs(reader, entries, known, rows, i);
  }

  /** The digits that were typed, without the "00" that stands for a "+". */
  function TypedDigits(raw: string): string {
    var digits := DigitsOf(Trim(WesternDigits(raw)));
    if "00" <= digits then digits[2..] else digits
  }

  /**
   * A number taken for the first time, of nobody known, is marked as corrected exactly when it is
   * not the digits that were typed; the note then prints what was typed and what is taken instead.
   */
  lemma CorrectedWhenNotAsTyped(reader: Reader, entries: seq<Entry>, known: set<string>, rows: seq<PhoneRow>, i: nat)
    requires GoodTable(reader.table) && reader.country in reader.table
    requires AreRows(reader, entries, known, rows) && i < |rows| && entries[i].Found? && rows[i].waId.Some?
    requires !TakenByRow(rows, i, rows[i].waId.value) && rows[i].waId.value !in known
    ensures var waId, raw := rows[i].waId.value, entries[i].item.raw;
            if waId != TypedDigits(raw)
            then rows[i].outcome == Corrected && rows[i].note == Correction(raw, FormatInternational(reader.table, waId))
            else rows[i].outcome == Ready
  {
    assert RowIs(reader, entries, known, rows, i);
    RowsTake(reader, entries, known, rows, i, rows[i].waId.value);
    var text := Trim(WesternDigits(entries[i].item.raw));
    CorrectedMeans(reader.table, StartsWith(text, "+"), DigitsOf(text), reader.country);
  }

  // ---- lines ----

  /** The lines, each with the break behind it: "\r\n" where it is marked so, and "\n" elsewhere. */
  function WithBreaks(lines: seq<string>, crlf: seq<bool>, last: string): string
    requires |lines| == |crlf|
  {
    if lines == [] then last else lines[0] + (if crlf[0] then "\r\n" else "\n") + WithBreaks(lines[1..], crlf[1..], last)
  }

  /** The text is in one line, and its end is not taken for part of the break. */
  predicate StandsAlone(line: string) {
    '\n' !in line && (line == "" || line[|line| - 1] != '\r')
  }

  lemma {:induction false} SplitsBehind(line: string, crlf: bool, rest: string)
    requires StandsAlone(line)
    ensures SplitLines(line + (if crlf then "\r\n" else "\n") + rest) == [line] + SplitLines(rest)
  {
    var end := if crlf then "\r\n" else "\n";
    var text := line + end + rest;
    if line == "" {
      assert text[|end|..] == rest;
    } else {
      assert line[0] in line && (|line| > 1 ==> line[1] in line && text[1] == line[1]);
      assert forall c :: c in line[1..] ==> c in line;
      SplitsBehind(line[1..], crlf, rest);
      assert text[0] == line[0] && text[1..] == line[1..] + end + rest;
      assert [line[0]] + line[1..] == line;
    }
  }

  lemma {:induction false} SplitsLast(line: string)
    requires '\n' !in line
    ensures SplitLines(line) == [line]
  {
    if line != "" {
      assert line[0] in line && (|line| > 1 ==> line[1] in line);
      assert forall c :: c in line[1..] ==> c in line;
      SplitsLast(line[1..]);
      assert [line[0]] + line[1..] == line;
    }
  }

  /** Lines with either break behind them are read as the lines, in eastern or western digits alike. */
  lemma {:induction false} LinesAreReadBack(lines: seq<string>, crlf: seq<bool>, last: string)
    requires |lines| == |crlf| && '\n' !in last && forall i :: 0 <= i < |lines| ==> StandsAlone(lines[i])
    ensures SplitLines(WithBreaks(lines, crlf, last)) == lines + [last]
  {
    if lines == [] {
      SplitsLast(last);
    } else {
      LinesAreReadBack(lines[1..], crlf[1..], last);
      SplitsBehind(lines[0], crlf[0], WithBreaks(lines[1..], crlf[1..], last));
      assert [lines[0]] + (lines[1..] + [last]) == lines + [last];
    }
  }

  /** A list typed in eastern digits is the same list. */
  lemma EasternDigitsAreTheSame(text: string)
    ensures LinesOf(WesternDigits(text)) == LinesOf(text)
  {
    assert WesternDigits(WesternDigits(text)) == WesternDigits(text);
  }
}
