/** Picking the numbers, and the names beside them, out of one line of a pasted list (apps/web/lib/phone-list.ts). */
module PhoneItems {
  import opened Prelude
  import opened Text
  import opened PhoneNumber

  /** A number found in a line, with the words beside it. */
  datatype Item = Item(raw: string, name: Option<string>, excel: bool)

  // ---- the number pattern ----

  /** `[\d\s().\-]` */
  predicate InRun(c: char) {
    IsDigit(c) || IsSpace(c) || c == '(' || c == ')' || c == '.' || c == '-'
  }

  /** How many such characters the text begins with. */
  function RunLength(s: string): (n: nat)
    ensures n <= |s| && forall i :: 0 <= i < n ==> InRun(s[i])
    ensures n < |s| ==> !InRun(s[n])
  {
    if s == "" || !InRun(s[0]) then 0 else 1 + RunLength(s[1..])
  }

  /** The last digit before place n, or -1. */
  function LastDigit(s: string, n: nat): (q: int)
    requires n <= |s|
    ensures -1 <= q < n && (q >= 0 ==> IsDigit(s[q]))
    ensures forall i :: q < i < n ==> !IsDigit(s[i])
  {
    if n == 0 then -1 else if IsDigit(s[n - 1]) then n - 1 else LastDigit(s, n - 1)
  }

  /** Where `\d[\d\s().\-]{6,}\d` ends when it is met at place p: at the last digit of the run, eight characters on or more. */
  function CoreEnd(s: string, p: nat): (end: Option<nat>)
    ensures end.Some? ==> p + 8 <= end.value <= |s| && IsDigit(s[p]) && IsDigit(s[end.value - 1])
    ensures end.Some? ==> forall i :: p <= i < end.value ==> InRun(s[i])
  {
    if p >= |s| || !IsDigit(s[p]) then None
    else
      var q := LastDigit(s, p + 1 + RunLength(s[p + 1..]));
      if q >= p + 7 then Some(q + 1) else None
  }

  /** Where a whole number ends: `(?:\+|00)?` is tried first, and without it then. */
  function NumberEnd(s: string, i: nat): (end: Option<nat>)
    requires i < |s|
    ensures end.Some? ==> i + 8 <= end.value <= |s| && (s[i] == '+' || IsDigit(s[i])) && IsDigit(s[end.value - 1])
    ensures end.Some? ==> forall k :: i < k < end.value ==> InRun(s[k])
  {
    if s[i] == '+' && CoreEnd(s, i + 1).Some? then CoreEnd(s, i + 1)
    else if i + 1 < |s| && s[i] == '0' && s[i + 1] == '0' && CoreEnd(s, i + 2).Some? then CoreEnd(s, i + 2)
    else CoreEnd(s, i)
  }

  /** `segment.match(NUMBER_RUN)`: leftmost first, each from where the last one ended. */
  function NumberRuns(s: string, i: nat): seq<string>
    decreases |s| - i
  {
    if i >= |s| then []
    else
      match NumberEnd(s, i)
      case Some(end) => [s[i..end]] + NumberRuns(s, end)
      case None => NumberRuns(s, i + 1)
  }

  // ---- the words beside them ----

  /** `rest.replace(run, " ")`: the first occurrence. */
  function ReplaceFirst(s: string, run: string): string {
    if run <= s then " " + s[|run|..]
    else if s == "" then ""
    else [s[0]] + ReplaceFirst(s[1..], run)
  }

  function ReplaceAll(s: string, runs: seq<string>): string
    decreases |runs|
  {
    if runs == [] then s else ReplaceAll(ReplaceFirst(s, runs[0]), runs[1..])
  }

  function NotSpace(): char -> bool {
    (c: char) => !IsSpace(c)
  }

  /** `.replace(/\s+/g, " ").trim()` */
  function Squeeze(s: string): string {
    Trim(SpaceOut(NotSpace(), s, false))
  }

  function NameBeside(segment: string, runs: seq<string>): Option<string> {
    var words := Squeeze(ReplaceAll(segment, runs));
    if words == "" then None else Some(words)
  }

  // ---- the line ----

  /** `lineText.split(/[,;\t]/)` */
  function Segments(line: string): (r: seq<string>)
    ensures r != []
  {
    if line == "" then [""]
    else if line[0] == ',' || line[0] == ';' || line[0] == '\t' then [""] + Segments(line[1..])
    else
      var rest := Segments(line[1..]);
      [[line[0]] + rest[0]] + rest[1..]
  }

  function RunItems(runs: seq<string>, name: Option<string>): (r: seq<Item>)
    ensures |r| == |runs| && forall i :: 0 <= i < |r| ==> r[i] == Item(Trim(runs[i]), name, false)
  {
    seq(|runs|, i requires 0 <= i < |runs| => Item(Trim(runs[i]), name, false))
  }

  function SegmentItems(segment: string): seq<Item> {
    if IsExcelRun(segment) then [Item(Trim(segment), None, true)]
    else
      var runs := NumberRuns(segment, 0);
      RunItems(runs, NameBeside(segment, runs))
  }

  function AllItems(segments: seq<string>): seq<Item> {
    if segments == [] then [] else SegmentItems(segments[0]) + AllItems(segments[1..])
  }

  function IsLabel(): string -> bool {
    (segment: string) => Trim(segment) != "" && !HasDigit(segment)
  }

  /** A number alone on its line takes the line's first wordy piece as its name. */
  function Labelled(found: seq<Item>, segments: seq<string>): seq<Item> {
    if |found| == 1 && found[0].name.None? then
      match FindFirst(segments, IsLabel())
      case Some(wordy) => [found[0].(name := Some(Trim(wordy)))]
      case None => found
    else found
  }

  function ItemsOf(line: string): seq<Item> {
    Labelled(AllItems(Segments(line)), Segments(line))
  }

  /** The inner loop: one item for each run. */
  method PushRuns(found: seq<Item>, runs: seq<string>, name: Option<string>) returns (found': seq<Item>)
    ensures found' == found + RunItems(runs, name)
  {
    found' := found;
    for i := 0 to |runs|
      invariant found' == found + RunItems(runs, name)[..i]
    {
      found' := found' + [Item(Trim(runs[i]), name, false)];
    }
  }

  /** The items so far, and those of the pieces from k on. */
  ghost predicate Collected(segments: seq<string>, k: nat, found: seq<Item>)
    requires k <= |segments|
  {
    AllItems(segments) == found + AllItems(segments[k..])
  }

  lemma CollectsSegment(segments: seq<string>, k: nat, found: seq<Item>)
    requires k < |segments| && Collected(segments, k, found)
    ensures Collected(segments, k + 1, found + SegmentItems(segments[k]))
  {
    var here, rest := SegmentItems(segments[k]), AllItems(segments[k + 1..]);
    assert segments[k..][1..] == segments[k + 1..];
    assert found + (here + rest) == (found + here) + rest;
  }

  lemma CollectedAll(segments: seq<string>, found: seq<Item>)
    ensures Collected(segments, 0, [])
    ensures Collected(segments, |segments|, found) ==> found == AllItems(segments)
  {
    assert segments[0..] == segments;
  }

  /** The loop over the pieces of a line, and the name a lone number takes. */
  method FindItems(line: string) returns (found: seq<Item>)
    ensures found == ItemsOf(line)
  {
    var segments := Segments(line);
    found := [];
    CollectedAll(segments, found);
    for k := 0 to |segments|
      invariant Collected(segments, k, found)
    {
      CollectsSegment(segments, k, found);
      if IsExcelRun(segments[k]) {
        found := found + [Item(Trim(segments[k]), None, true)];
      } else {
        var runs := NumberRuns(segments[k], 0);
        found := PushRuns(found, runs, NameBeside(segments[k], runs));
      }
    }
    CollectedAll(segments, found);
    return Labelled(found, segments);
  }

  // ---- what is found is a number ----

  /** Digits and separators, with a "+" at most in front, at least eight characters, ending in a digit. */
  predicate IsRun(r: string) {
    && |r| >= 8 && (r[0] == '+' || IsDigit(r[0])) && IsDigit(r[|r| - 1])
    && forall k :: 0 < k < |r| ==> IsDigit(r[k]) || IsSpace(r[k]) || r[k] in "().-"
  }

  lemma FoundIsRun(s: string, i: nat, end: nat)
    requires i < |s| && NumberEnd(s, i) == Some(end)
    ensures IsRun(s[i..end])
  {
  }

  lemma {:induction false} RunsAreRuns(s: string, i: nat)
    ensures forall r :: r in NumberRuns(s, i) ==> IsRun(r)
    decreases |s| - i
  {
    if i < |s| {
      match NumberEnd(s, i)
      case Some(end) =>
        RunsAreRuns(s, end);
        FoundIsRun(s, i, end);
      case None => RunsAreRuns(s, i + 1);
    }
  }

  lemma RunHasNoLetter(r: string)
    requires IsRun(r)
    ensures WesternDigits(r) == r && !HasLetter(r)
  {
  }

  lemma RunHasDigitsOnly(r: string)
    requires IsRun(r)
    ensures WesternDigits(r) == r && !HasLetter(r) && HasDigit(r) && Trim(r) == r
  {
    RunHasNoLetter(r);
    assert IsDigit(r[|r| - 1]) && !IsSpace(r[|r| - 1]) && !IsSpace(r[0]);
    TrimKeeps(r);
  }

  /** A number found by the pattern is never refused as not being one. */
  lemma RunIsReadAsNumber(table: seq<DialCountry>, r: string, country: DialCountry)
    requires IsRun(r)
    ensures ReadPhoneNumber(table, Trim(r), country) == ReadDigits(table, StartsWith(r, "+"), DigitsOf(r), country)
    ensures DigitsOf(r) != ""
  {
    RunHasDigitsOnly(r);
    OnlyDigitsCount(table, r, country);
    DigitsOfNone(r);
  }

  lemma SegmentItemsAreRuns(segment: string, item: Item)
    requires item in SegmentItems(segment) && !item.excel
    ensures IsRun(item.raw)
  {
    var runs := NumberRuns(segment, 0);
    RunsAreRuns(segment, 0);
    var k :| 0 <= k < |runs| && item.raw == Trim(runs[k]);
    assert runs[k] in runs;
    RunHasDigitsOnly(runs[k]);
  }

  lemma {:induction false} AllItemsAreRuns(segments: seq<string>, item: Item)
    requires item in AllItems(segments) && !item.excel
    ensures IsRun(item.raw)
  {
    if item in SegmentItems(segments[0]) {
      SegmentItemsAreRuns(segments[0], item);
    } else {
      AllItemsAreRuns(segments[1..], item);
    }
  }

  /** Whatever is picked out of a line is digits and separators, unless Excel shortened it. */
  lemma ItemsAreRuns(line: string, item: Item)
    requires item in ItemsOf(line) && !item.excel
    ensures IsRun(item.raw)
  {
    var found := AllItems(Segments(line));
    if item !in found {
      assert |found| == 1 && item.raw == found[0].raw && item.excel == found[0].excel;
      AllItemsAreRuns(Segments(line), found[0]);
    } else {
      AllItemsAreRuns(Segments(line), item);
    }
  }

  // ---- a printed number on its own line ----

  lemma {:induction false} RunIsWhole(s: string, n: nat)
    requires n <= |s| && forall k :: n <= k < |s| ==> InRun(s[k])
    ensures RunLength(s[n..]) == |s| - n
    decreases |s| - n
  {
    if n < |s| {
      RunIsWhole(s, n + 1);
      assert s[n..][1..] == s[n + 1..];
    }
  }

  lemma CoreIsWhole(s: string, p: nat)
    requires p + 8 <= |s| && IsDigit(s[p]) && IsDigit(s[|s| - 1]) && forall k :: p <= k < |s| ==> InRun(s[k])
    ensures CoreEnd(s, p) == Some(|s|)
  {
    RunIsWhole(s, p + 1);
  }

  lemma {:induction false} NoSeparatorsOneSegment(line: string)
    requires ',' !in line && ';' !in line && '\t' !in line
    ensures Segments(line) == [line]
  {
    if line != "" {
      assert line[0] in line && [line[0]] + line[1..] == line;
      NoSeparatorsOneSegment(line[1..]);
    }
  }

  /** A "+" and at least eight characters from a digit to a digit, with only digits and spaces between. */
  predicate IsPlainPrint(s: string) {
    IsPrinted(s) && |s| >= 9 && IsDigit(s[1]) && IsDigit(s[|s| - 1])
  }

  lemma PrintIsOneRun(s: string)
    requires IsPlainPrint(s)
    ensures NumberRuns(s, 0) == [s]
  {
    assert s[0] == '+';
    CoreIsWhole(s, 1);
    assert NumberEnd(s, 0) == Some(|s|);
    assert NumberRuns(s, |s|) == [];
    assert s[0..|s|] == s;
  }

  lemma PrintHasNoName(s: string)
    requires s != ""
    ensures NameBeside(s, [s]) == None
  {
    assert s[|s|..] == "" && " " + "" == " ";
    assert ReplaceFirst(s, s) == " ";
    assert ReplaceAll(s, [s]) == " ";
    assert SpaceOut(NotSpace(), " ", false) == " ";
    TrimKeeps("");
    assert "" + " " == " ";
  }

  lemma PrintIsWhatItsSegmentHolds(s: string)
    requires IsPlainPrint(s)
    ensures SegmentItems(s) == [Item(s, None, false)]
  {
    assert s[0] == '+';
    PrintedHasNoLetter(s);
    NoLetterNoExcelRun(s);
    PrintIsOneRun(s);
    PrintHasNoName(s);
    TrimKeeps(s);
  }

  lemma NoWordyPiece(item: Item, s: string)
    requires HasDigit(s)
    ensures Labelled([item], [s]) == [item]
  {
    assert !IsLabel()(s);
  }

  lemma OneSegmentItems(s: string)
    ensures AllItems([s]) == SegmentItems(s)
  {
    assert AllItems([s]) == SegmentItems(s) + AllItems([]);
  }

  /** Such a print, alone on its line, is picked out whole and without a name. */
  lemma PrintIsOneItem(s: string)
    requires IsPlainPrint(s)
    ensures ItemsOf(s) == [Item(s, None, false)]
  {
    assert s[0] == '+' && IsDigit(s[1]);
    NoSeparatorsOneSegment(s);
    PrintIsWhatItsSegmentHolds(s);
    OneSegmentItems(s);
    NoWordyPiece(Item(s, None, false), s);
  }

  lemma {:induction false} NoMoreDigitsThanText(s: string)
    ensures |DigitsOf(s)| <= |s|
  {
    if s != "" {
      NoMoreDigitsThanText(s[1..]);
    }
  }

  lemma PrintedEnds(c: DialCountry, rest: string)
    requires GoodCountry(c) && AllDigits(rest) && rest != ""
    ensures var s := FormatAfter(c, rest); |s| >= 2 && IsDigit(s[1]) && IsDigit(s[|s| - 1])
  {
    var s := FormatAfter(c, rest);
    if c.code == "AE" && (|rest| == 9 || |rest| == 8) {
      assert s[1] == '9';
      assert s[|s| - 1] == rest[|rest| - 1];
    } else {
      assert s == ("+" + c.dial + " ") + rest;
      assert s[1] == c.dial[0] && s[|s| - 1] == rest[|rest| - 1];
    }
  }

  lemma PrintIsLong(s: string)
    requires IsPrinted(s) && |DigitsOf(s)| >= 8
    ensures |s| >= 9
  {
    assert s[0] == '+' && DigitsOf(s) == DigitsOf(s[1..]);
    NoMoreDigitsThanText(s[1..]);
  }

  lemma PrintEnds(table: seq<DialCountry>, w: string)
    requires GoodTable(table) && WellFormed(table, w)
    ensures var s := FormatInternational(table, w); |s| >= 2 && IsDigit(s[1]) && IsDigit(s[|s| - 1])
  {
    match CountryOf(table, w)
    case None => FormatWithoutCode(table, w);
    case Some(c) =>
      var rest := w[|c.dial|..];
      assert GoodCountry(c);
      assert w == c.dial + rest;
      FormatIs(table, c, rest);
      PrintedEnds(c, rest);
  }

  lemma PrintIsPlain(table: seq<DialCountry>, w: string)
    requires GoodTable(table) && WellFormed(table, w)
    ensures IsPlainPrint(FormatInternational(table, w))
  {
    PrintedDigits(table, w);
    PrintIsLong(FormatInternational(table, w));
    PrintEnds(table, w);
  }

  /** A well-formed number printed alone on a line is picked out whole. */
  lemma PrintedNumberIsOneItem(table: seq<DialCountry>, w: string)
    requires GoodTable(table) && WellFormed(table, w)
    ensures var s := FormatInternational(table, w); ItemsOf(s) == [Item(s, None, false)] && HasDigit(s) && Trim(s) == s && '\n' !in s && '\r' !in s
  {
    var s := FormatInternational(table, w);
    PrintIsPlain(table, w);
    PrintIsOneItem(s);
    PrintIsALine(s);
  }

  lemma PrintIsALine(s: string)
    requires IsPlainPrint(s)
    ensures HasDigit(s) && Trim(s) == s && '\n' !in s && '\r' !in s
  {
    assert s[0] == '+' && IsDigit(s[1]);
    TrimKeeps(s);
  }

  // ---- numbers among words ----

  /** No digit, and no "+" that a number behind it would take up. */
  predicate IsWording(text: string) {
    (forall i :: 0 <= i < |text| ==> !IsDigit(text[i])) && (text == "" || text[|text| - 1] != '+')
  }

  /** A number in one of its forms: at least eight characters from a digit to a digit, perhaps behind a "+". */
  predicate IsNumber(run: string) {
    IsRun(run) && (run[0] == '+' ==> |run| >= 9 && IsDigit(run[1]))
  }

  /** Words and numbers in turn. */
  function Spell(texts: seq<string>, runs: seq<string>): string
    requires |texts| == |runs| + 1
    decreases |runs|
  {
    if runs == [] then texts[0] else texts[0] + (runs[0] + Spell(texts[1..], runs[1..]))
  }

  predicate AreInTurn(texts: seq<string>, runs: seq<string>) {
    && |texts| == |runs| + 1
    && (forall i :: 0 <= i < |texts| ==> IsWording(texts[i]))
    && (forall i :: 0 <= i < |runs| ==> IsNumber(runs[i]))
  }

  /** Something that no number holds. */
  predicate Separates(text: string) {
    exists k :: 0 <= k < |text| && !(IsSpace(text[k]) || text[k] in "().-")
  }

  /** Between any two numbers there is such a thing. */
  predicate AreSeparated(texts: seq<string>, runs: seq<string>)
    requires |texts| == |runs| + 1
  {
    forall i :: 0 < i < |runs| ==> Separates(texts[i])
  }

  /** No digit is there, nor a "+" in front of one. */
  predicate NothingStarts(s: string, k: nat)
    requires k < |s|
  {
    !IsDigit(s[k]) && (s[k] == '+' && k + 1 < |s| ==> !IsDigit(s[k + 1]))
  }

  /** Nothing is found where no number can start. */
  lemma SkipsTo(s: string, i: nat, j: nat)
    requires i <= j <= |s|
    requires forall k :: i <= k < j ==> NothingStarts(s, k)
    ensures SameRuns(s, i, j)
  {
    for k := i to j
      invariant SameRuns(s, i, k)
    {
      assert NothingStarts(s, k);
      OneIsSkipped(s, i, k, k + 1);
    }
  }

  predicate SameRuns(s: string, i: nat, j: nat) {
    NumberRuns(s, i) == NumberRuns(s, j)
  }

  lemma OneIsSkipped(s: string, i: nat, k: nat, next: nat)
    requires k < |s| && next == k + 1 && NothingStarts(s, k) && SameRuns(s, i, k)
    ensures SameRuns(s, i, next)
  {
    NoNumberHere(s, k);
  }

  lemma NoNumberHere(s: string, i: nat)
    requires i < |s| && NothingStarts(s, i)
    ensures NumberEnd(s, i).None?
  {
  }

  lemma {:induction false} RunReaches(s: string, n: nat, m: nat)
    requires n <= m <= |s| && (forall k :: n <= k < m ==> InRun(s[k])) && (m == |s| || !InRun(s[m]))
    ensures RunLength(s[n..]) == m - n
    decreases m - n
  {
    if n < m {
      RunReaches(s, n + 1, m);
      assert s[n..][1..] == s[n + 1..];
    }
  }

  lemma {:induction false} LastDigitIs(s: string, end: nat, m: nat)
    requires 0 < end <= m <= |s| && IsDigit(s[end - 1]) && forall k :: end <= k < m ==> !IsDigit(s[k])
    ensures LastDigit(s, m) == end - 1
    decreases m
  {
    if m > end {
      LastDigitIs(s, end, m - 1);
    }
  }

  /** Where the core ends that begins at p, when the characters of a run go on to m and the last digit of them is before `end`. */
  lemma CoreEndIs(s: string, p: nat, end: nat, m: nat)
    requires p < end <= m <= |s| && IsDigit(s[p]) && IsDigit(s[end - 1])
    requires (forall k :: p <= k < m ==> InRun(s[k])) && (m == |s| || !InRun(s[m])) && forall k :: end <= k < m ==> !IsDigit(s[k])
    ensures CoreEnd(s, p) == if end >= p + 8 then Some(end) else None
  {
    CoreLengthIs(s, p, m);
    LastDigitIs(s, end, m);
  }

  lemma CoreLengthIs(s: string, p: nat, m: nat)
    requires p < m <= |s| && (forall k :: p <= k < m ==> InRun(s[k])) && (m == |s| || !InRun(s[m]))
    ensures p + 1 + RunLength(s[p + 1..]) == m
  {
    RunReaches(s, p + 1, m);
  }

  /** A number is taken whole. */
  lemma NumberIsTaken(s: string, i: nat, end: nat, m: nat)
    requires i < end <= m <= |s| && IsNumber(s[i..end])
    requires (forall k :: end <= k < m ==> InRun(s[k]) && !IsDigit(s[k])) && (m == |s| || !InRun(s[m]))
    ensures NumberEnd(s, i) == Some(end)
  {
    var run := s[i..end];
    forall k | i < k < end
      ensures InRun(s[k])
    {
      assert s[k] == run[k - i];
    }
    assert run[0] == s[i] && run[1] == s[i + 1] && run[|run| - 1] == s[end - 1];
    if s[i] == '+' {
      CoreEndIs(s, i + 1, end, m);
    } else {
      CoreEndIs(s, i, end, m);
      if IsDigit(s[i + 2]) {
        CoreEndIs(s, i + 2, end, m);
      }
    }
  }

  /** How far a text goes on as a run would. */
  lemma {:induction false} Outside(text: string) returns (m: nat)
    ensures m <= |text| && (forall k :: 0 <= k < m ==> InRun(text[k])) && (m < |text| ==> !InRun(text[m]))
    decreases |text|
  {
    m := RunLength(text);
  }

  /** The numbers of a piece are found, in their order. */
  lemma {:induction false} NumbersAreFound(s: string, i: nat, texts: seq<string>, runs: seq<string>)
    requires AreInTurn(texts, runs) && AreSeparated(texts, runs) && i <= |s| && s[i..] == Spell(texts, runs)
    ensures NumberRuns(s, i) == runs
    decreases |runs|
  {
    if runs == [] {
      assert IsWording(texts[0]) && texts[0] + "" == texts[0];
      WordingIsSkipped(s, i, texts[0], "", |s|);
    } else {
      var texts', runs' := texts[1..], runs[1..];
      var end := FirstIsFound(s, i, texts, runs, texts', runs');
      NumbersAreFound(s, end, texts', runs');
      FirstAndRest(runs, NumberRuns(s, end));
    }
  }

  lemma FirstAndRest(runs: seq<string>, rest: seq<string>)
    requires runs != [] && rest == runs[1..]
    ensures [runs[0]] + rest == runs
  {
  }

  lemma FirstIsFound(s: string, i: nat, texts: seq<string>, runs: seq<string>, texts': seq<string>, runs': seq<string>)
      returns (end: nat)
    requires AreInTurn(texts, runs) && AreSeparated(texts, runs) && i <= |s| && s[i..] == Spell(texts, runs)
    requires runs != [] && texts' == texts[1..] && runs' == runs[1..]
    ensures AreInTurn(texts', runs') && AreSeparated(texts', runs') && end <= |s| && s[end..] == Spell(texts', runs')
    ensures NumberRuns(s, i) == [runs[0]] + NumberRuns(s, end)
  {
    var start: nat;
    var text, run, rest := texts[0], runs[0], Spell(texts', runs');
    assert IsWording(text);
    InTurnBehind(texts, runs);
    SpelledInFront(texts, runs, text, run, rest);
    start, end := FirstIs(s, i, text, run, rest);
    WordingIsSkipped(s, i, text, run + rest, start);
    RestIs(s, start, end, texts, runs);
    TakenBehind(s, i, start, end, run);
  }

  lemma TakenBehind(s: string, i: nat, start: nat, end: nat, run: string)
    requires SameRuns(s, i, start) && NumberRuns(s, start) == [run] + NumberRuns(s, end)
    ensures NumberRuns(s, i) == [run] + NumberRuns(s, end)
  {
  }

  lemma SpelledInFront(texts: seq<string>, runs: seq<string>, text: string, run: string, rest: string)
    requires |texts| == |runs| + 1 && runs != [] && text == texts[0] && run == runs[0] && rest == Spell(texts[1..], runs[1..])
    ensures Spell(texts, runs) == text + (run + rest)
  {
  }

  /** The text in front of a piece is skipped. */
  lemma WordingIsSkipped(s: string, i: nat, text: string, rest: string, j: nat)
    requires IsWording(text) && i <= |s| && s[i..] == text + rest && j == i + |text|
    ensures j <= |s| && SameRuns(s, i, j)
  {
    forall k | i <= k < j
      ensures NothingStarts(s, k)
    {
      assert s[i..][k - i] == s[k];
      assert k + 1 < j ==> s[i..][k + 1 - i] == s[k + 1];
    }
    SkipsTo(s, i, j);
  }

  lemma FirstIs(s: string, i: nat, text: string, run: string, rest: string) returns (start: nat, end: nat)
    requires i <= |s| && s[i..] == text + (run + rest)
    ensures start == i + |text| && start + |run| == end <= |s| && s[start..end] == run && s[end..] == rest
  {
    start := i + |text|;
    end := start + |run|;
    var tail := s[i..];
    assert tail[|text|..] == run + rest && tail[|text|..] == s[start..];
    assert s[start..][..|run|] == s[start..end] && s[start..][|run|..] == s[end..];
  }

  /** Behind the first number, what goes on as a run has no digit in it, so the number is taken whole. */
  lemma RestIs(s: string, start: nat, end: nat, texts: seq<string>, runs: seq<string>)
    requires AreInTurn(texts, runs) && AreSeparated(texts, runs) && runs != []
    requires start + |runs[0]| == end <= |s| && s[start..end] == runs[0] && s[end..] == Spell(texts[1..], runs[1..])
    ensures NumberRuns(s, start) == [runs[0]] + NumberRuns(s, end)
    ensures AreInTurn(texts[1..], runs[1..]) && AreSeparated(texts[1..], runs[1..])
  {
    var m := RunEndsBehind(s, end, texts, runs);
    assert IsNumber(runs[0]);
    NumberIsTaken(s, start, end, m);
    InTurnBehind(texts, runs);
  }

  lemma RunEndsBehind(s: string, end: nat, texts: seq<string>, runs: seq<string>) returns (m: nat)
    requires AreInTurn(texts, runs) && AreSeparated(texts, runs) && runs != []
    requires end <= |s| && s[end..] == Spell(texts[1..], runs[1..])
    ensures end <= m <= |s| && (forall k :: end <= k < m ==> InRun(s[k]) && !IsDigit(s[k])) && (m == |s| || !InRun(s[m]))
  {
    var next := texts[1];
    assert IsWording(next);
    var n := Outside(next);
    m := end + n;
    forall k | end <= k < end + |next|
      ensures k < |s| && s[k] == next[k - end]
    {
      assert s[end..][k - end] == s[k];
    }
    if |runs| > 1 {
      assert Separates(texts[1]);
    } else {
      assert s[end..] == next;
    }
  }

  lemma InTurnBehind(texts: seq<string>, runs: seq<string>)
    requires AreInTurn(texts, runs) && AreSeparated(texts, runs) && runs != []
    ensures AreInTurn(texts[1..], runs[1..]) && AreSeparated(texts[1..], runs[1..])
  {
    forall i | 0 < i < |runs[1..]|
      ensures Separates(texts[1..][i])
    {
      assert Separates(texts[i + 1]);
    }
  }

  // ---- the words that are left ----

  /** The texts with a space for each number that was between them. */
  function Blanked(texts: seq<string>): string {
    if texts == [] then "" else if |texts| == 1 then texts[0] else texts[0] + " " + Blanked(texts[1..])
  }

  lemma {:induction false} NumberIsBlanked(text: string, run: string, rest: string)
    requires IsWording(text) && IsNumber(run)
    ensures ReplaceFirst(text + (run + rest), run) == text + (" " + rest)
  {
    var s := text + (run + rest);
    if text == "" {
      assert s == run + rest && s[|run|..] == rest;
    } else {
      NotInFront(text, run, rest);
      NumberIsBlanked(text[1..], run, rest);
      PutBack(text, " " + rest);
    }
  }

  lemma PutBack(text: string, rest: string)
    requires text != ""
    ensures [text[0]] + (text[1..] + rest) == text + rest
  {
  }

  lemma NotInFront(text: string, run: string, rest: string)
    requires IsWording(text) && IsNumber(run) && text != ""
    ensures var s := text + (run + rest);
            !(run <= s) && s != "" && s[0] == text[0] && s[1..] == text[1..] + (run + rest)
    ensures IsWording(text[1..])
  {
    var s := text + (run + rest);
    assert |text| > 1 ==> s[1] == text[1];
  }

  lemma Merged(texts: seq<string>, runs: seq<string>) returns (merged: seq<string>)
    requires AreInTurn(texts, runs) && runs != []
    ensures AreInTurn(merged, runs[1..]) && Blanked(merged) == Blanked(texts)
    ensures Spell(merged, runs[1..]) == texts[0] + (" " + Spell(texts[1..], runs[1..]))
  {
    var a, b := texts[0], texts[1];
    var ab := a + (" " + b);
    merged := [ab] + texts[2..];
    assert merged[1..] == texts[2..] && texts[1..][1..] == texts[2..] && texts[1..][0] == b;
    assert IsWording(ab) by {
      assert ab[|ab| - 1] == if b == "" then ' ' else b[|b| - 1];
      assert forall i :: 0 <= i < |ab| ==> ab[i] == if i < |a| then a[i] else if i == |a| then ' ' else b[i - |a| - 1];
    }
    if |runs| == 1 {
      assert texts[1..] == [b];
    } else {
      var tail := runs[1..][0] + Spell(texts[2..], runs[1..][1..]);
      assert a + (" " + (b + tail)) == ab + tail;
      assert a + " " + (b + " " + Blanked(texts[2..])) == ab + " " + Blanked(texts[2..]);
    }
  }

  lemma {:induction false} NumbersAreBlanked(texts: seq<string>, runs: seq<string>)
    requires AreInTurn(texts, runs)
    ensures ReplaceAll(Spell(texts, runs), runs) == Blanked(texts)
    decreases |runs|
  {
    if runs != [] {
      NumberIsBlanked(texts[0], runs[0], Spell(texts[1..], runs[1..]));
      var merged := Merged(texts, runs);
      NumbersAreBlanked(merged, runs[1..]);
    }
  }

  /** The words of a text, a space between each two. */
  function WordsTogether(text: string): Option<string> {
    var words := Words((c: char) => !IsSpace(c), text);
    if words == [] then None else Some(Joined(words))
  }

  lemma NameIsTheWords(segment: string, runs: seq<string>)
    ensures NameBeside(segment, runs) == WordsTogether(ReplaceAll(segment, runs))
  {
    var text := ReplaceAll(segment, runs);
    SpacedAndTrimmed(NotSpace(), text);
    WordsAreWords(NotSpace(), text);
    JoinedPads(NotSpace(), Words(NotSpace(), text));
    SameTestSameWords(NotSpace(), (c: char) => !IsSpace(c), text);
  }

  lemma {:induction false} SameTestSameWords(p: char -> bool, q: char -> bool, s: string)
    requires forall c :: p(c) <==> q(c)
    ensures Words(p, s) == Words(q, s)
  {
    if s != "" {
      SameTestSameWords(p, q, s[1..]);
    }
  }

  lemma {:induction false} SpelledHasDigit(texts: seq<string>, runs: seq<string>)
    requires AreInTurn(texts, runs) && runs != []
    ensures HasDigit(Spell(texts, runs))
  {
    var s, run := Spell(texts, runs), runs[0];
    var k := |texts[0]| + |run| - 1;
    assert s[k] == run[|run| - 1] && IsDigit(s[k]);
  }

  /**
   * Words and numbers in turn in one piece: an item for each number, in order and whole, and the
   * words beside them, without the numbers, for the name of each.
   */
  lemma NumbersAmongWords(texts: seq<string>, runs: seq<string>)
    requires AreInTurn(texts, runs) && AreSeparated(texts, runs) && runs != []
    requires var line := Spell(texts, runs); !HoldsExcelNumber(line) && ',' !in line && ';' !in line && '\t' !in line
    ensures var items := ItemsOf(Spell(texts, runs));
            |items| == |runs| && forall i :: 0 <= i < |runs| ==> items[i] == Item(runs[i], WordsTogether(Blanked(texts)), false)
  {
    var line := Spell(texts, runs);
    ExcelRunMeans(line);
    NoSeparatorsOneSegment(line);
    NumbersOfPiece(texts, runs);
    OneSegmentItems(line);
    SpelledHasDigit(texts, runs);
    NothingToName(SegmentItems(line), line);
  }

  lemma NumbersOfPiece(texts: seq<string>, runs: seq<string>)
    requires AreInTurn(texts, runs) && AreSeparated(texts, runs) && !IsExcelRun(Spell(texts, runs))
    ensures SegmentItems(Spell(texts, runs)) == RunItems(runs, WordsTogether(Blanked(texts)))
    ensures forall i :: 0 <= i < |runs| ==> Trim(runs[i]) == runs[i]
  {
    var s := Spell(texts, runs);
    assert s[0..] == s;
    NumbersAreFound(s, 0, texts, runs);
    NumbersAreBlanked(texts, runs);
    NameIsTheWords(s, runs);
    forall i | 0 <= i < |runs|
      ensures Trim(runs[i]) == runs[i]
    {
      assert IsNumber(runs[i]);
      RunHasDigitsOnly(runs[i]);
    }
  }

  /** A piece with a digit gives no name to a lone number. */
  lemma NothingToName(found: seq<Item>, s: string)
    requires HasDigit(s)
    ensures Labelled(found, [s]) == found
  {
    assert !IsLabel()(s);
  }

  /** A number alone in its piece takes the name from the piece in front, whatever parts the two. */
  lemma NumberIsNamedByItsNeighbour(title: string, part: char, run: string)
    requires part in ",;\t" && IsWording(title) && Trim(title) != "" && IsNumber(run)
    requires forall c :: c in ",;\t" ==> c !in title && c !in run
    ensures ItemsOf(title + [part] + run) == [Item(run, Some(Trim(title)), false)]
  {
    TwoPieces(title, part, run);
    WordsHoldNoItem(title);
    NumberIsOneItem(run);
    ItemsOfTwo(title, run);
    NamedByFirst(Item(run, None, false), title, run);
  }

  lemma ItemsOfTwo(a: string, b: string)
    ensures AllItems([a, b]) == SegmentItems(a) + SegmentItems(b)
  {
    assert [a, b][1..] == [b] && [b][1..] == [];
    assert AllItems([b]) == SegmentItems(b) + [];
  }

  lemma NamedByFirst(item: Item, title: string, other: string)
    requires item.name.None? && IsWording(title) && Trim(title) != ""
    ensures Labelled([item], [title, other]) == [item.(name := Some(Trim(title)))]
  {
    assert IsLabel()([title, other][0]);
  }

  lemma {:induction false} TwoPieces(title: string, part: char, rest: string)
    requires part in ",;\t" && forall c :: c in ",;\t" ==> c !in title && c !in rest
    ensures Segments(title + [part] + rest) == [title, rest]
  {
    var line := title + [part] + rest;
    assert ',' in ",;\t" && ';' in ",;\t" && '\t' in ",;\t";
    if title == "" {
      assert line[0] == part && line[1..] == rest;
      NoSeparatorsOneSegment(rest);
    } else {
      assert line[0] == title[0] && line[1..] == title[1..] + [part] + rest && title[0] in title;
      assert forall c :: c in title[1..] ==> c in title;
      TwoPieces(title[1..], part, rest);
      assert [title[0]] + title[1..] == title;
    }
  }

  lemma WordsHoldNoItem(title: string)
    requires IsWording(title)
    ensures SegmentItems(title) == []
  {
    assert !IsExcelRun(title);
    assert AreInTurn([title], []) && Spell([title], []) == title;
    NumbersOfPiece([title], []);
  }

  lemma NumberIsOneItem(run: string)
    requires IsNumber(run)
    ensures SegmentItems(run) == [Item(run, None, false)]
  {
    RunHasDigitsOnly(run);
    NoLetterNoExcelRun(run);
    AloneIsItems(["", ""], [run], run);
    OneRunItem(run);
  }

  lemma AloneIsItems(texts: seq<string>, runs: seq<string>, run: string)
    requires IsNumber(run) && !IsExcelRun(run) && texts == ["", ""] && runs == [run]
    ensures SegmentItems(run) == RunItems(runs, None)
  {
    AloneIsInTurn(run);
    NumbersOfPiece(texts, runs);
    NoWords();
  }

  lemma OneRunItem(run: string)
    requires Trim(run) == run
    ensures RunItems([run], None) == [Item(run, None, false)]
  {
    var items := RunItems([run], None);
    assert items[0] == Item(Trim([run][0]), None, false);
  }

  lemma AloneIsInTurn(run: string)
    requires IsNumber(run)
    ensures AreInTurn(["", ""], [run]) && AreSeparated(["", ""], [run])
    ensures Spell(["", ""], [run]) == run && Blanked(["", ""]) == " "
  {
    assert ["", ""][1..] == [""] && [run][1..] == [];
    assert Spell([""], []) == "";
    assert Spell(["", ""], [run]) == "" + (run + "");
    assert Blanked(["", ""]) == "" + " " + Blanked([""]);
  }

  lemma NoWords()
    ensures WordsTogether(" ") == None
  {
    assert " "[1..] == "";
  }

  /** What Excel shortened is reported as that, whole. */
  lemma ExcelNumberIsReported(line: string)
    requires HoldsExcelNumber(line) && ',' !in line && ';' !in line && '\t' !in line
    ensures ItemsOf(line) == [Item(Trim(line), None, true)]
  {
    ExcelRunMeans(line);
    NoSeparatorsOneSegment(line);
    OneSegmentItems(line);
    var i, j :| 0 <= i < j <= |line| && IsDigit(line[i]) && Fraction(line, i + 1, j) && Exponent(line, j);
    assert HasDigit(line);
    NothingToName(SegmentItems(line), line);
  }
}
