/** One phone number, as people write it, read into its international digits (apps/web/lib/phone-list.ts). */
module PhoneNumber {
  import opened Prelude
  import opened Sorting
  import opened Text

  datatype DialCountry = DialCountry(code: string, dial: string, lengths: seq<nat>)

  const COUNTRIES: seq<DialCountry> := [
    DialCountry("AE", "971", [8, 9]),
    DialCountry("SA", "966", [9]),
    DialCountry("OM", "968", [8]),
    DialCountry("QA", "974", [8]),
    DialCountry("BH", "973", [8]),
    DialCountry("KW", "965", [8]),
    DialCountry("IN", "91", [10]),
    DialCountry("PK", "92", [9, 10]),
    DialCountry("PH", "63", [9, 10]),
    DialCountry("GB", "44", [9, 10])
  ]

  /** Why a number is refused; the last two name the country. */
  datatype Refusal =
    | ExcelShortened
    | NotAPhoneNumber
    | TooShort
    | TooLong
    | ZeroAfterPlus
    | CheckDigitsAfterCode(country: DialCountry)
    | WriteWithCountryCode(country: DialCountry)

  datatype Reading = Reading(waId: string, corrected: bool)

  // ---- the text of a number ----

  function WesternDigit(c: char): char {
    if '\U{0660}' <= c <= '\U{0669}' then '0' + (c - '\U{0660}')
    else if '\U{06F0}' <= c <= '\U{06F9}' then '0' + (c - '\U{06F0}')
    else c
  }

  function WesternDigits(text: string): (r: string)
    ensures |r| == |text| && forall i :: 0 <= i < |r| ==> r[i] == WesternDigit(text[i])
  {
    seq(|text|, i requires 0 <= i < |text| => WesternDigit(text[i]))
  }

  /** `.replace(/\D/g, "")` */
  function DigitsOf(text: string): (r: string)
    ensures AllDigits(r)
  {
    if text == "" then ""
    else if IsDigit(text[0]) then [text[0]] + DigitsOf(text[1..])
    else DigitsOf(text[1..])
  }

  predicate HasDigit(text: string) {
    exists i | 0 <= i < |text| :: IsDigit(text[i])
  }

  predicate HasLetter(text: string) {
    exists i | 0 <= i < |text| :: IsAsciiLetter(text[i])
  }

  /** `(?:[.,]\d+)?` between two places of the text. */
  predicate Fraction(s: string, i: nat, j: nat) {
    || i == j
    || (i + 2 <= j <= |s| && (s[i] == '.' || s[i] == ',') && AllDigits(s[i + 1..j]))
  }

  /** `e\+\d` at a place of the text; more digits after it make no difference to the test. */
  predicate Exponent(s: string, j: nat) {
    j + 3 <= |s| && (s[j] == 'e' || s[j] == 'E') && s[j + 1] == '+' && IsDigit(s[j + 2])
  }

  /** `/\d(?:[.,]\d+)?e\+\d+/i.test(text)` */
  predicate IsExcelRun(s: string) {
    exists i, j | 0 <= i < j <= |s| :: IsDigit(s[i]) && Fraction(s, i + 1, j) && Exponent(s, j)
  }

  // ---- reading ----

  predicate StartsWith(s: string, prefix: string) {
    prefix <= s
  }

  function DialsWith(digits: string): DialCountry -> bool {
    (c: DialCountry) => StartsWith(digits, c.dial)
  }

  function CountryOf(table: seq<DialCountry>, digits: string): (r: Option<DialCountry>)
    ensures r.Some? ==> r.value in table && StartsWith(digits, r.value.dial)
  {
    FindFirst(table, DialsWith(digits))
  }

  function LengthProblem(waId: string): Option<Refusal> {
    if |waId| < 8 then Some(TooShort)
    else if |waId| > 15 then Some(TooLong)
    else if waId[0] == '0' then Some(ZeroAfterPlus)
    else None
  }

  /** `.replace(/^0/, "")` */
  function WithoutZero(digits: string): string {
    if digits != "" && digits[0] == '0' then digits[1..] else digits
  }

  /** `.replace(/^00/, "")` */
  function WithoutZeros(digits: string): string {
    if StartsWith(digits, "00") then digits[2..] else digits
  }

  function AfterCountryCode(digits: string, country: DialCountry): Result<Reading, Refusal>
    requires StartsWith(digits, country.dial)
  {
    var rest := digits[|country.dial|..];
    if rest != "" && rest[0] == '0' then
      if |rest| - 1 in country.lengths then Ok(Reading(country.dial + rest[1..], true))
      else Err(CheckDigitsAfterCode(country))
    else if |rest| in country.lengths then Ok(Reading(digits, false))
    else Err(CheckDigitsAfterCode(country))
  }

  /** Digits written with "+" or "00" in front. */
  function ReadInternational(table: seq<DialCountry>, waId: string): Result<Reading, Refusal> {
    match LengthProblem(waId)
    case Some(problem) => Err(problem)
    case None =>
      match CountryOf(table, waId)
      case Some(known) => AfterCountryCode(waId, known)
      case None => Ok(Reading(waId, false))
  }

  /** Digits with neither. */
  function ReadLocal(digits: string, country: DialCountry): Result<Reading, Refusal> {
    if StartsWith(digits, country.dial) && AfterCountryCode(digits, country).Ok? then AfterCountryCode(digits, country)
    else
      var national := WithoutZero(digits);
      if |national| in country.lengths then Ok(Reading(country.dial + national, true))
      else if |digits| < 8 then Err(TooShort)
      else Err(WriteWithCountryCode(country))
  }

  function ReadDigits(table: seq<DialCountry>, plus: bool, digits: string, country: DialCountry): Result<Reading, Refusal> {
    if plus || StartsWith(digits, "00") then ReadInternational(table, WithoutZeros(digits)) else ReadLocal(digits, country)
  }

  function ReadPhoneNumber(table: seq<DialCountry>, raw: string, country: DialCountry): Result<Reading, Refusal> {
    var text := Trim(WesternDigits(raw));
    if IsExcelRun(text) then Err(ExcelShortened)
    else if HasLetter(text) || !HasDigit(text) then Err(NotAPhoneNumber)
    else ReadDigits(table, StartsWith(text, "+"), DigitsOf(text), country)
  }

  // ---- printing ----

  function DialLength(): DialCountry -> nat {
    (c: DialCountry) => |c.dial|
  }

  /** The country looked for longest code first. */
  function LongestCode(table: seq<DialCountry>, waId: string): (r: Option<DialCountry>)
    ensures r.Some? ==> StartsWith(waId, r.value.dial)
  {
    FindFirst(Sort(DialLength(), table), DialsWith(waId))
  }

  function FormatAfter(c: DialCountry, rest: string): string {
    if c.code == "AE" && |rest| == 9 then "+971 " + rest[..2] + " " + rest[2..5] + " " + rest[5..]
    else if c.code == "AE" && |rest| == 8 then "+971 " + rest[..1] + " " + rest[1..4] + " " + rest[4..]
    else "+" + c.dial + " " + rest
  }

  function FormatInternational(table: seq<DialCountry>, waId: string): string {
    match LongestCode(table, waId)
    case None => "+" + waId
    case Some(c) => FormatAfter(c, waId[|c.dial|..])
  }

  // ---- what reading needs of the table ----

  /**
   * The code is digits and does not start with 0, the whole number has 8 to 15 digits, and no
   * number of the country, less its code, has again as many digits as the country uses.
   */
  ghost predicate GoodCountry(c: DialCountry) {
    && c.dial != "" && AllDigits(c.dial) && c.dial[0] != '0'
    && (forall n :: n in c.lengths ==> 0 < n && 8 <= |c.dial| + n <= 14)
    && (forall n, m :: n in c.lengths && m in c.lengths ==> n < m + |c.dial|)
    && (c.code == "AE" ==> c.dial == "971")
  }

  /** Calling codes never prefix one another. */
  ghost predicate PrefixFree(table: seq<DialCountry>) {
    forall c, c' :: c in table && c' in table && StartsWith(c.dial, c'.dial) ==> c == c'
  }

  ghost predicate GoodTable(table: seq<DialCountry>) {
    PrefixFree(table) && forall c :: c in table ==> GoodCountry(c)
  }

  lemma ListedIsGood(c: DialCountry)
    requires c in COUNTRIES
    ensures GoodCountry(c)
  {
    ListedCodes(c);
    ListedLengths(c);
  }

  lemma ListedCodes(c: DialCountry)
    requires c in COUNTRIES
    ensures c.dial != "" && AllDigits(c.dial) && c.dial[0] != '0' && (c.code == "AE" ==> c.dial == "971")
  {
  }

  lemma ListedLengths(c: DialCountry)
    requires c in COUNTRIES
    ensures forall n :: n in c.lengths ==> 0 < n && 8 <= |c.dial| + n <= 14
    ensures forall n, m :: n in c.lengths && m in c.lengths ==> n < m + |c.dial|
  {
  }

  /** The place in the table that the first digits lead to. */
  function PlaceOf(digits: string): nat
    requires |digits| >= 2
  {
    if digits[0] == '6' then 8
    else if digits[0] == '4' then 9
    else if digits[1] == '1' then 6
    else if digits[1] == '2' then 7
    else if |digits| == 2 then 0
    else if digits[1] == '7' then if digits[2] == '1' then 0 else if digits[2] == '4' then 3 else 4
    else if digits[2] == '6' then 1 else if digits[2] == '8' then 2 else 5
  }

  lemma DialLeadsToPlace(c: DialCountry)
    requires c in COUNTRIES
    ensures |c.dial| >= 2 && c == COUNTRIES[PlaceOf(c.dial)]
    ensures |c.dial| == 3 || c.dial[0] == '6' || c.dial[0] == '4' || c.dial[1] == '1' || c.dial[1] == '2'
  {
  }

  /** The table meets all of it. */
  lemma TheTableIsGood()
    ensures GoodTable(COUNTRIES)
  {
    forall c, c' | c in COUNTRIES && c' in COUNTRIES && StartsWith(c.dial, c'.dial)
      ensures c == c'
    {
      DialLeadsToPlace(c);
      DialLeadsToPlace(c');
      assert PlaceOf(c.dial) == PlaceOf(c'.dial);
    }
    forall c | c in COUNTRIES
      ensures GoodCountry(c)
    {
      ListedIsGood(c);
    }
  }

  lemma FindsMember<T>(xs: seq<T>, p: T -> bool, x: T)
    requires x in xs && p(x)
    ensures FindFirst(xs, p).Some?
  {
  }

  lemma CountryOfIs(table: seq<DialCountry>, digits: string, c: DialCountry)
    requires PrefixFree(table) && c in table
    ensures CountryOf(table, digits) == Some(c) <==> StartsWith(digits, c.dial)
  {
    if StartsWith(digits, c.dial) {
      FindsMember(table, DialsWith(digits), c);
      var c' := CountryOf(table, digits).value;
      assert StartsWith(c.dial, c'.dial) || StartsWith(c'.dial, c.dial);
    }
  }

  lemma SortedMembers(table: seq<DialCountry>, c: DialCountry)
    ensures c in Sort(DialLength(), table) <==> c in table
  {
    SortKeepsAll(DialLength(), table);
    SameMembers(table, Sort(DialLength(), table), c);
  }

  /** Looking for the longest code first, as printing does, finds the same country. */
  lemma LongestCodeIsCountryOf(table: seq<DialCountry>, waId: string)
    requires PrefixFree(table)
    ensures LongestCode(table, waId) == CountryOf(table, waId)
  {
    if CountryOf(table, waId).Some? {
      SortedMembers(table, CountryOf(table, waId).value);
      FindsMember(Sort(DialLength(), table), DialsWith(waId), CountryOf(table, waId).value);
    }
    if LongestCode(table, waId).Some? {
      SortedMembers(table, LongestCode(table, waId).value);
      CountryOfIs(table, waId, LongestCode(table, waId).value);
    }
  }

  // ---- what is accepted ----

  /** 8 to 15 digits, not starting with 0, and after a listed code as many as that country uses. */
  predicate WellFormed(table: seq<DialCountry>, waId: string) {
    && AllDigits(waId) && 8 <= |waId| <= 15 && waId[0] != '0'
    && match CountryOf(table, waId)
       case Some(c) => |waId| - |c.dial| in c.lengths
       case None => true
  }

  /** The digits after a listed code start with 0. */
  predicate ZeroAfterCode(table: seq<DialCountry>, waId: string) {
    match CountryOf(table, waId)
    case Some(c) => |waId| > |c.dial| && waId[|c.dial|] == '0'
    case None => false
  }

  lemma WrittenInFull(table: seq<DialCountry>, c: DialCountry, rest: string)
    requires GoodTable(table) && c in table
    ensures StartsWith(c.dial + rest, c.dial) && (c.dial + rest)[|c.dial|..] == rest
    ensures CountryOf(table, c.dial + rest) == Some(c)
    ensures (c.dial + rest)[0] != '0' && !StartsWith(c.dial + rest, "00")
  {
    assert GoodCountry(c);
    assert (c.dial + rest)[0] == c.dial[0];
    CountryOfIs(table, c.dial + rest, c);
  }

  lemma CompletedIsWellFormed(table: seq<DialCountry>, c: DialCountry, national: string)
    requires GoodTable(table) && c in table && AllDigits(national) && |national| in c.lengths
    ensures WellFormed(table, c.dial + national)
  {
    assert GoodCountry(c);
    WrittenInFull(table, c, national);
  }

  lemma AfterItsCode(c: DialCountry, rest: string)
    ensures AfterCountryCode(c.dial + rest, c) ==
            if rest != "" && rest[0] == '0' then
              if |rest| - 1 in c.lengths then Ok(Reading(c.dial + rest[1..], true)) else Err(CheckDigitsAfterCode(c))
            else if |rest| in c.lengths then Ok(Reading(c.dial + rest, false))
            else Err(CheckDigitsAfterCode(c))
  {
    assert (c.dial + rest)[|c.dial|..] == rest;
  }

  lemma AfterCodeIsWellFormed(table: seq<DialCountry>, digits: string, c: DialCountry)
    requires GoodTable(table) && c in table && AllDigits(digits) && StartsWith(digits, c.dial)
    ensures AfterCountryCode(digits, c).Ok? ==> WellFormed(table, AfterCountryCode(digits, c).value.waId)
  {
    var rest := digits[|c.dial|..];
    assert digits == c.dial + rest;
    AfterItsCode(c, rest);
    if rest != "" && rest[0] == '0' && |rest| - 1 in c.lengths {
      CompletedIsWellFormed(table, c, rest[1..]);
    } else if |rest| in c.lengths {
      CompletedIsWellFormed(table, c, rest);
    }
  }

  lemma InternationalIsWellFormed(table: seq<DialCountry>, waId: string)
    requires GoodTable(table) && AllDigits(waId)
    ensures ReadInternational(table, waId).Ok? ==> WellFormed(table, ReadInternational(table, waId).value.waId)
  {
    if CountryOf(table, waId).Some? {
      AfterCodeIsWellFormed(table, waId, CountryOf(table, waId).value);
    }
  }

  lemma LocalIsWellFormed(table: seq<DialCountry>, digits: string, country: DialCountry)
    requires GoodTable(table) && country in table && AllDigits(digits)
    ensures ReadLocal(digits, country).Ok? ==> WellFormed(table, ReadLocal(digits, country).value.waId)
  {
    if StartsWith(digits, country.dial) {
      AfterCodeIsWellFormed(table, digits, country);
    }
    if |WithoutZero(digits)| in country.lengths {
      CompletedIsWellFormed(table, country, WithoutZero(digits));
    }
  }

  /** Whatever is typed, only a well-formed international number is accepted. */
  lemma AcceptedIsWellFormed(table: seq<DialCountry>, raw: string, country: DialCountry)
    requires GoodTable(table) && country in table
    ensures var r := ReadPhoneNumber(table, raw, country); r.Ok? ==> WellFormed(table, r.value.waId)
  {
    var text := Trim(WesternDigits(raw));
    DigitsAreWellFormed(table, StartsWith(text, "+"), DigitsOf(text), country);
  }

  lemma DigitsAreWellFormed(table: seq<DialCountry>, plus: bool, digits: string, country: DialCountry)
    requires GoodTable(table) && country in table && AllDigits(digits)
    ensures var r := ReadDigits(table, plus, digits, country); r.Ok? ==> WellFormed(table, r.value.waId)
  {
    if plus || StartsWith(digits, "00") {
      WithoutZerosIsDigits(digits);
      InternationalIsWellFormed(table, WithoutZeros(digits));
    } else {
      LocalIsWellFormed(table, digits, country);
    }
  }

  lemma WithoutZerosIsDigits(digits: string)
    requires AllDigits(digits)
    ensures AllDigits(WithoutZeros(digits))
  {
  }

  // ---- only the digits count ----

  lemma {:induction false} DigitsOfSplits(a: string, b: string)
    ensures DigitsOf(a + b) == DigitsOf(a) + DigitsOf(b)
  {
    if a == "" {
      assert a + b == b;
    } else {
      assert (a + b)[1..] == a[1..] + b;
      DigitsOfSplits(a[1..], b);
    }
  }

  lemma {:induction false} DigitsOfDigits(w: string)
    requires AllDigits(w)
    ensures DigitsOf(w) == w
  {
    if w != "" {
      DigitsOfDigits(w[1..]);
    }
  }

  lemma {:induction false} DigitsOfNone(s: string)
    ensures DigitsOf(s) == "" <==> !HasDigit(s)
  {
    if s != "" {
      DigitsOfNone(s[1..]);
      if HasDigit(s) && !IsDigit(s[0]) {
        var i :| 0 <= i < |s| && IsDigit(s[i]);
        assert IsDigit(s[1..][i - 1]);
      }
      if HasDigit(s[1..]) {
        var i :| 0 <= i < |s[1..]| && IsDigit(s[1..][i]);
        assert IsDigit(s[i + 1]);
      }
    }
  }

  lemma {:induction false} TrimLeftKeepsDigits(s: string)
    ensures DigitsOf(TrimLeft(s)) == DigitsOf(s)
    ensures forall c :: c in TrimLeft(s) ==> c in s
  {
    if s != "" && IsSpace(s[0]) {
      TrimLeftKeepsDigits(s[1..]);
    }
  }

  lemma {:induction false} TrimRightKeepsDigits(s: string)
    ensures DigitsOf(TrimRight(s)) == DigitsOf(s)
    ensures forall c :: c in TrimRight(s) ==> c in s
    ensures s != "" && !IsSpace(s[0]) ==> TrimRight(s) != "" && TrimRight(s)[0] == s[0]
    decreases |s|
  {
    if s != "" && IsSpace(s[|s| - 1]) {
      var front, last := s[..|s| - 1], [s[|s| - 1]];
      TrimRightKeepsDigits(front);
      DigitsOfSplits(front, last);
      assert s == front + last && DigitsOf(last) == "";
    }
  }

  lemma TrimKeepsDigits(s: string)
    ensures DigitsOf(Trim(s)) == DigitsOf(s)
    ensures HasLetter(Trim(s)) ==> HasLetter(s)
    ensures StartsWith(s, "+") ==> StartsWith(Trim(s), "+")
  {
    TrimLeftKeepsDigits(s);
    TrimRightKeepsDigits(TrimLeft(s));
    if HasLetter(Trim(s)) {
      var i :| 0 <= i < |Trim(s)| && IsAsciiLetter(Trim(s)[i]);
      assert Trim(s)[i] in TrimLeft(s) && Trim(s)[i] in s;
      var j :| 0 <= j < |s| && s[j] == Trim(s)[i];
    }
    if StartsWith(s, "+") {
      assert s[0] == '+' && TrimLeft(s) == s;
    }
  }

  lemma NoLetterNoExcelRun(s: string)
    requires !HasLetter(s)
    ensures !IsExcelRun(s)
  {
  }

  /** Spaces, dashes and other separators make no difference: only the digits and a leading "+" do. */
  lemma OnlyDigitsCount(table: seq<DialCountry>, raw: string, country: DialCountry)
    requires !HasLetter(WesternDigits(raw))
    ensures var s := WesternDigits(raw);
            ReadPhoneNumber(table, raw, country) ==
            if DigitsOf(s) == "" then Err(NotAPhoneNumber)
            else ReadDigits(table, StartsWith(Trim(s), "+"), DigitsOf(s), country)
  {
    var s := WesternDigits(raw);
    TrimKeepsDigits(s);
    DigitsOfNone(Trim(s));
    NoLetterNoExcelRun(Trim(s));
  }

  lemma NationalIsCompleted(c: DialCountry, rest: string)
    requires GoodCountry(c) && |rest| in c.lengths && rest[0] != '0'
    ensures ReadLocal(rest, c) == Ok(Reading(c.dial + rest, true))
    ensures ReadLocal("0" + rest, c) == Ok(Reading(c.dial + rest, true))
    ensures !StartsWith(rest, "00") && !StartsWith("0" + rest, "00")
  {
    assert ("0" + rest)[1] == rest[0] && ("0" + rest)[1..] == rest;
    assert !StartsWith("0" + rest, c.dial);
    assert |rest| - |c.dial| !in c.lengths && |rest| - |c.dial| - 1 !in c.lengths;
  }

  /** Written in full, a number is read as what follows its code says. */
  lemma FullIsReadAfterCode(table: seq<DialCountry>, c: DialCountry, rest: string, other: DialCountry)
    requires GoodTable(table) && c in table && 8 <= |c.dial + rest| <= 15
    ensures ReadDigits(table, true, c.dial + rest, other) == AfterCountryCode(c.dial + rest, c)
    ensures ReadDigits(table, false, "00" + (c.dial + rest), other) == AfterCountryCode(c.dial + rest, c)
    ensures AfterCountryCode(c.dial + rest, c).Ok? ==>
              ReadDigits(table, false, c.dial + rest, c) == AfterCountryCode(c.dial + rest, c)
  {
    WrittenInFull(table, c, rest);
    assert ("00" + (c.dial + rest))[2..] == c.dial + rest;
  }

  lemma NationalIsRead(table: seq<DialCountry>, c: DialCountry, rest: string)
    requires GoodCountry(c) && |rest| in c.lengths && rest[0] != '0'
    ensures ReadDigits(table, false, rest, c) == Ok(Reading(c.dial + rest, true))
    ensures ReadDigits(table, false, "0" + rest, c) == Ok(Reading(c.dial + rest, true))
  {
    NationalIsCompleted(c, rest);
  }

  lemma WithItsCodeIsRead(table: seq<DialCountry>, c: DialCountry, rest: string, other: DialCountry)
    requires GoodTable(table) && c in table && |rest| in c.lengths && rest[0] != '0'
    ensures ReadDigits(table, false, c.dial + rest, c) == Ok(Reading(c.dial + rest, false))
    ensures ReadDigits(table, true, c.dial + rest, other) == Ok(Reading(c.dial + rest, false))
    ensures ReadDigits(table, false, "00" + (c.dial + rest), other) == Ok(Reading(c.dial + rest, false))
  {
    assert GoodCountry(c);
    AfterItsCode(c, rest);
    FullIsReadAfterCode(table, c, rest, other);
  }

  lemma DropsZero(c: DialCountry, rest: string)
    requires |rest| in c.lengths
    ensures AfterCountryCode(c.dial + ("0" + rest), c) == Ok(Reading(c.dial + rest, true))
  {
    var zero := "0" + rest;
    assert zero[1..] == rest;
    AfterItsCode(c, zero);
  }

  lemma OneLonger(c: DialCountry, rest: string)
    requires GoodCountry(c) && |rest| in c.lengths
    ensures 8 <= |c.dial + ("0" + rest)| <= 15
  {
  }

  lemma ZeroAfterCodeIsDropped(table: seq<DialCountry>, c: DialCountry, rest: string, other: DialCountry)
    requires GoodTable(table) && c in table && |rest| in c.lengths
    ensures ReadDigits(table, true, c.dial + ("0" + rest), other) == Ok(Reading(c.dial + rest, true))
  {
    assert GoodCountry(c);
    OneLonger(c, rest);
    DropsZero(c, rest);
    FullIsReadAfterCode(table, c, "0" + rest, other);
  }

  /**
   * However a number is written, it is read as the same one: nationally with or without its 0,
   * with its code typed plainly, with "+" or "00" under any country, or with a 0 kept after the code.
   */
  lemma EveryWayOfWriting(table: seq<DialCountry>, c: DialCountry, rest: string, other: DialCountry)
    requires GoodTable(table) && c in table && AllDigits(rest) && |rest| in c.lengths && rest[0] != '0'
    ensures ReadDigits(table, false, rest, c) == ReadDigits(table, false, "0" + rest, c) == Ok(Reading(c.dial + rest, true))
    ensures ReadDigits(table, false, c.dial + rest, c) == Ok(Reading(c.dial + rest, false))
    ensures ReadDigits(table, true, c.dial + rest, other) == Ok(Reading(c.dial + rest, false))
    ensures ReadDigits(table, false, "00" + (c.dial + rest), other) == Ok(Reading(c.dial + rest, false))
    ensures ReadDigits(table, true, c.dial + ("0" + rest), other) == Ok(Reading(c.dial + rest, true))
  {
    NationalIsRead(table, c, rest);
    WithItsCodeIsRead(table, c, rest, other);
    ZeroAfterCodeIsDropped(table, c, rest, other);
  }

  /** What completing may have done: dropped one 0 after the code, or put the chosen country's code in front. */
  predicate CompletedFrom(international: bool, typed: string, country: DialCountry, d: DialCountry, rest: string) {
    || typed == d.dial + ("0" + rest)
    || (!international && d == country && (typed == rest || typed == "0" + rest))
  }

  lemma AfterCodeWasTyped(digits: string, c: DialCountry) returns (rest: string)
    requires StartsWith(digits, c.dial) && AfterCountryCode(digits, c).Ok?
    ensures var r := AfterCountryCode(digits, c).value;
            if r.corrected then r.waId == c.dial + rest && digits == c.dial + ("0" + rest) else r.waId == digits
  {
    rest := digits[|c.dial|..];
    if rest != "" && rest[0] == '0' {
      assert digits == c.dial + rest && rest == "0" + rest[1..];
      rest := rest[1..];
    }
  }

  lemma LocalWasTyped(digits: string, c: DialCountry) returns (rest: string)
    requires ReadLocal(digits, c).Ok?
    ensures var r := ReadLocal(digits, c).value;
            if r.corrected then r.waId == c.dial + rest && CompletedFrom(false, digits, c, c, rest) else r.waId == digits
  {
    if StartsWith(digits, c.dial) && AfterCountryCode(digits, c).Ok? {
      rest := AfterCodeWasTyped(digits, c);
    } else {
      rest := WithoutZero(digits);
      assert digits == rest || digits == "0" + rest;
    }
  }

  /**
   * Nothing is invented: an uncorrected number is the digits that were typed, and a corrected one
   * differs from them only by one 0 left out or the chosen country's code put in front.
   */
  lemma AcceptedWasTyped(table: seq<DialCountry>, plus: bool, digits: string, country: DialCountry) returns (d: DialCountry, rest: string)
    requires country in table && ReadDigits(table, plus, digits, country).Ok?
    ensures var r := ReadDigits(table, plus, digits, country).value;
            var international := plus || StartsWith(digits, "00");
            var typed := if international then WithoutZeros(digits) else digits;
            if r.corrected then d in table && r.waId == d.dial + rest && CompletedFrom(international, typed, country, d, rest)
            else r.waId == typed
  {
    d, rest := country, "";
    if plus || StartsWith(digits, "00") {
      var typed := WithoutZeros(digits);
      if CountryOf(table, typed).Some? {
        d := CountryOf(table, typed).value;
        rest := AfterCodeWasTyped(typed, d);
      }
    } else {
      rest := LocalWasTyped(digits, country);
    }
  }

  // ---- printing and reading again ----

  lemma DigitsOfSpaced(a: string, b: string)
    ensures DigitsOf(a + " " + b) == DigitsOf(a) + DigitsOf(b)
  {
    DigitsOfSplits(a + " ", b);
    DigitsOfSplits(a, " ");
    assert DigitsOf(" ") == "";
  }

  predicate IsPrinted(s: string) {
    StartsWith(s, "+") && forall i :: 1 <= i < |s| ==> IsDigit(s[i]) || s[i] == ' '
  }

  lemma PrintMore(s: string, w: string)
    requires IsPrinted(s) && AllDigits(w)
    ensures IsPrinted(s + w) && IsPrinted(s + " " + w)
    ensures DigitsOf(s + w) == DigitsOf(s) + w == DigitsOf(s + " " + w)
  {
    assert s[0] == '+';
    DigitsOfDigits(w);
    DigitsOfSplits(s, w);
    DigitsOfSpaced(s, w);
  }

  lemma PrintedCode(dial: string)
    requires AllDigits(dial)
    ensures IsPrinted("+" + dial) && DigitsOf("+" + dial) == dial
    ensures IsPrinted("+" + dial + " ") && DigitsOf("+" + dial + " ") == dial
  {
    assert DigitsOf("+") == "";
    PrintMore("+", dial);
    PrintMore("+" + dial, "");
    assert "+" + dial + " " + "" == "+" + dial + " ";
  }

  lemma InThree(rest: string, i: nat, j: nat)
    requires i <= j <= |rest|
    ensures rest[..i] + rest[i..j] + rest[j..] == rest
  {
  }

  lemma ThreeGroups(dial: string, rest: string, i: nat, j: nat)
    requires AllDigits(dial) && AllDigits(rest) && i <= j <= |rest|
    ensures var s := "+" + dial + " " + rest[..i] + " " + rest[i..j] + " " + rest[j..]; IsPrinted(s) && DigitsOf(s) == dial + rest
  {
    var a, b, c := rest[..i], rest[i..j], rest[j..];
    PrintedCode(dial);
    PrintMore("+" + dial + " ", a);
    PrintMore("+" + dial + " " + a, b);
    PrintMore("+" + dial + " " + a + " " + b, c);
    InThree(rest, i, j);
    assert dial + a + b + c == dial + (a + b + c);
  }

  lemma PrintedAfterCode(c: DialCountry, rest: string)
    requires GoodCountry(c) && AllDigits(rest)
    ensures IsPrinted(FormatAfter(c, rest)) && DigitsOf(FormatAfter(c, rest)) == c.dial + rest
  {
    assert "+" + "971" + " " == "+971 ";
    if c.code == "AE" && |rest| == 9 {
      ThreeGroups("971", rest, 2, 5);
    } else if c.code == "AE" && |rest| == 8 {
      ThreeGroups("971", rest, 1, 4);
    } else {
      PrintedCode(c.dial);
      PrintMore("+" + c.dial, rest);
    }
  }

  lemma FormatIs(table: seq<DialCountry>, c: DialCountry, rest: string)
    requires GoodTable(table) && c in table
    ensures FormatInternational(table, c.dial + rest) == FormatAfter(c, rest)
  {
    WrittenInFull(table, c, rest);
    LongestCodeIsCountryOf(table, c.dial + rest);
  }

  lemma FormatWithoutCode(table: seq<DialCountry>, w: string)
    requires GoodTable(table) && CountryOf(table, w).None?
    ensures FormatInternational(table, w) == "+" + w
  {
    LongestCodeIsCountryOf(table, w);
  }

  /** What is printed is a "+", the digits themselves, and spaces among them. */
  lemma PrintedDigits(table: seq<DialCountry>, w: string)
    requires GoodTable(table) && AllDigits(w)
    ensures IsPrinted(FormatInternational(table, w)) && DigitsOf(FormatInternational(table, w)) == w
  {
    match CountryOf(table, w)
    case None =>
      FormatWithoutCode(table, w);
      PrintedCode(w);
    case Some(c) =>
      var rest := w[|c.dial|..];
      assert w == c.dial + rest;
      FormatIs(table, c, rest);
      PrintedAfterCode(c, rest);
  }

  lemma PrintedHasNoLetter(s: string)
    requires IsPrinted(s)
    ensures WesternDigits(s) == s && !HasLetter(s)
  {
    assert s[0] == '+';
  }

  lemma PrintedIsRead(table: seq<DialCountry>, s: string, country: DialCountry)
    requires IsPrinted(s)
    ensures ReadPhoneNumber(table, s, country) ==
            if DigitsOf(s) == "" then Err(NotAPhoneNumber) else ReadDigits(table, true, DigitsOf(s), country)
  {
    PrintedHasNoLetter(s);
    OnlyDigitsCount(table, s, country);
    TrimKeepsDigits(s);
  }

  /** Written with "+", digits are taken as they are exactly when they are well formed with no 0 after the code. */
  lemma ReadAsTheyAre(table: seq<DialCountry>, w: string)
    requires AllDigits(w)
    ensures ReadInternational(table, w) == Ok(Reading(w, false)) <==> WellFormed(table, w) && !ZeroAfterCode(table, w)
  {
    if CountryOf(table, w).Some? {
      var c := CountryOf(table, w).value;
      assert |w| > |c.dial| ==> w[|c.dial|..][0] == w[|c.dial|];
    }
  }

  lemma ReadsNoLonger(table: seq<DialCountry>, w: string)
    ensures ReadInternational(table, w).Ok? ==> |ReadInternational(table, w).value.waId| <= |w|
  {
  }

  lemma ReadWithPlus(table: seq<DialCountry>, w: string, country: DialCountry)
    requires AllDigits(w)
    ensures ReadDigits(table, true, w, country) == Ok(Reading(w, false)) <==> WellFormed(table, w) && !ZeroAfterCode(table, w)
  {
    ReadsNoLonger(table, WithoutZeros(w));
    ReadAsTheyAre(table, w);
  }

  /**
   * Printing digits and reading them again, under any country, gives them back uncorrected exactly
   * when they are a well-formed number whose digits after a listed code do not start with 0.
   */
  lemma PrintedReadsBackExactly(table: seq<DialCountry>, w: string, country: DialCountry)
    requires GoodTable(table) && AllDigits(w)
    ensures ReadPhoneNumber(table, FormatInternational(table, w), country) == Ok(Reading(w, false)) <==>
            WellFormed(table, w) && !ZeroAfterCode(table, w)
  {
    PrintedDigits(table, w);
    PrintedIsRead(table, FormatInternational(table, w), country);
    ReadWithPlus(table, w, country);
  }

  /** An accepted number is read back from its print exactly when no 0 is left after its code. */
  lemma AcceptedReadsBackExactly(table: seq<DialCountry>, raw: string, typedUnder: DialCountry, country: DialCountry)
    requires GoodTable(table) && typedUnder in table && ReadPhoneNumber(table, raw, typedUnder).Ok?
    ensures var w := ReadPhoneNumber(table, raw, typedUnder).value.waId;
            ReadPhoneNumber(table, FormatInternational(table, w), country) == Ok(Reading(w, false)) <==> !ZeroAfterCode(table, w)
  {
    AcceptedIsWellFormed(table, raw, typedUnder);
    PrintedReadsBackExactly(table, ReadPhoneNumber(table, raw, typedUnder).value.waId, country);
  }

  lemma ZeroComesAfterCode(table: seq<DialCountry>, c: DialCountry, rest: string)
    requires GoodTable(table) && c in table
    ensures ZeroAfterCode(table, c.dial + ("0" + rest))
  {
    WrittenInFull(table, c, "0" + rest);
    assert (c.dial + ("0" + rest))[|c.dial|] == '0';
  }

  lemma PrintWithZeroIsChanged(table: seq<DialCountry>, c: DialCountry, rest: string, other: DialCountry)
    requires GoodTable(table) && c in table && AllDigits(rest)
    ensures ReadPhoneNumber(table, FormatInternational(table, c.dial + ("0" + rest)), other) != Ok(Reading(c.dial + ("0" + rest), false))
  {
    assert GoodCountry(c);
    ZeroComesAfterCode(table, c, rest);
    PrintedReadsBackExactly(table, c.dial + ("0" + rest), other);
  }

  /**
   * With two zeros after the code only one is dropped: the number accepted still has the other, and
   * its own print, read again under any country, does not give it back.
   */
  lemma TwoZerosLoseOne(table: seq<DialCountry>, c: DialCountry, rest: string, other: DialCountry)
    requires GoodTable(table) && c in table && |rest| + 1 in c.lengths
    ensures ReadDigits(table, true, c.dial + ("0" + ("0" + rest)), other) == Ok(Reading(c.dial + ("0" + rest), true))
    ensures AllDigits(rest) ==>
              ReadPhoneNumber(table, FormatInternational(table, c.dial + ("0" + rest)), other) != Ok(Reading(c.dial + ("0" + rest), false))
  {
    ZeroAfterCodeIsDropped(table, c, "0" + rest, other);
    if AllDigits(rest) {
      PrintWithZeroIsChanged(table, c, rest, other);
    }
  }

  // ---- reading and printing, by the characters alone ----

  /** Arabic-Indic and Persian digits are read as the western ones; nothing else changes. */
  lemma WesternDigitsAre(c: char)
    ensures WesternDigit(c) as int ==
            if 1632 <= c as int <= 1641 then c as int - 1632 + 48
            else if 1776 <= c as int <= 1785 then c as int - 1776 + 48
            else c as int
  {
  }

  /** The digits of a text are its characters 0 to 9, in their order. */
  lemma {:induction false} DigitsOfAre(s: string)
    ensures DigitsOf(s) == Filter(s, (c: char) => '0' <= c <= '9')
    ensures IsPart(DigitsOf(s), s)
  {
    if s != "" {
      DigitsOfAre(s[1..]);
    }
  }

  /** What Excel leaves of a long number: a digit, perhaps a fraction, "e+" in either case, and a digit. */
  ghost predicate HoldsExcelNumber(s: string) {
    exists before, fraction, after :: IsExcelNumber(s, before, fraction, after)
  }

  predicate IsExcelNumber(s: string, before: string, fraction: string, after: string) {
    && |before| >= 1 && '0' <= before[|before| - 1] <= '9'
    && (fraction == "" ||
        (|fraction| >= 2 && fraction[0] in ".," && forall i :: 1 <= i < |fraction| ==> '0' <= fraction[i] <= '9'))
    && |after| >= 3 && after[0] in "eE" && after[1] == '+' && '0' <= after[2] <= '9'
    && s == before + fraction + after
  }

  lemma ExcelRunIs(s: string, i: nat, j: nat)
    requires i < j <= |s|
    ensures IsDigit(s[i]) && Fraction(s, i + 1, j) && Exponent(s, j) <==> IsExcelNumber(s, s[..i + 1], s[i + 1..j], s[j..])
  {
    assert s == s[..i + 1] + s[i + 1..j] + s[j..];
  }

  lemma ExcelRunMeans(s: string)
    ensures IsExcelRun(s) <==> HoldsExcelNumber(s)
  {
    if IsExcelRun(s) {
      var i, j :| 0 <= i < j <= |s| && IsDigit(s[i]) && Fraction(s, i + 1, j) && Exponent(s, j);
      ExcelRunIs(s, i, j);
    }
    forall before, fraction, after | IsExcelNumber(s, before, fraction, after)
      ensures IsExcelRun(s)
    {
      NumberIsExcelRun(s, before, fraction, after);
    }
  }

  lemma NumberIsExcelRun(s: string, before: string, fraction: string, after: string)
    requires IsExcelNumber(s, before, fraction, after)
    ensures IsExcelRun(s)
  {
    var i, j := |before| - 1, |before| + |fraction|;
    PiecesAre(before, fraction, after);
    ExcelRunIs(s, i, j);
  }

  ghost predicate HasCharBetween(s: string, low: char, high: char) {
    exists i :: 0 <= i < |s| && low <= s[i] <= high
  }

  /** What is no number at all: what Excel shortened, and otherwise a text with a letter or without a digit. */
  lemma NoNumberMeans(table: seq<DialCountry>, raw: string, country: DialCountry)
    ensures var text, r := Trim(WesternDigits(raw)), ReadPhoneNumber(table, raw, country);
            && (r == Err(ExcelShortened) <==> HoldsExcelNumber(text))
            && (r == Err(NotAPhoneNumber) <==>
                  && !HoldsExcelNumber(text)
                  && (HasCharBetween(text, 'a', 'z') || HasCharBetween(text, 'A', 'Z') || !HasCharBetween(text, '0', '9')))
            && (r != Err(ExcelShortened) && r != Err(NotAPhoneNumber) ==>
                  r == ReadDigits(table, text != "" && text[0] == '+', DigitsOf(text), country))
  {
    var text := Trim(WesternDigits(raw));
    ExcelRunMeans(text);
    CharsAre(text);
  }

  lemma CharsAre(text: string)
    ensures HasLetter(text) <==> HasCharBetween(text, 'a', 'z') || HasCharBetween(text, 'A', 'Z')
    ensures HasDigit(text) <==> HasCharBetween(text, '0', '9')
  {
  }

  /** The digits are a number of a country with such lengths, or one with a 0 in front. */
  predicate Fits(digits: string, lengths: seq<nat>) {
    if digits != "" && digits[0] == '0' then |digits| - 1 in lengths else |digits| in lengths
  }

  /** Digits written with "+" or "00" are accepted exactly when there are 8 to 15, they do not start with 0, and those after a listed code fit. */
  lemma InternationalIsAcceptedExactly(table: seq<DialCountry>, typed: string)
    requires GoodTable(table)
    ensures var r := ReadInternational(table, typed);
            && (r.Ok? <==> && 8 <= |typed| <= 15 && typed[0] != '0'
                           && forall c :: c in table && c.dial <= typed ==> Fits(typed[|c.dial|..], c.lengths))
            && (|typed| < 8 ==> r == Err(TooShort)) && (|typed| > 15 ==> r == Err(TooLong))
            && (8 <= |typed| <= 15 && typed[0] == '0' ==> r == Err(ZeroAfterPlus))
            && (forall c :: c in table && c.dial <= typed && 8 <= |typed| <= 15 && !Fits(typed[|c.dial|..], c.lengths)
                  ==> r == Err(CheckDigitsAfterCode(c)))
  {
    forall c | c in table && c.dial <= typed
      ensures CountryOf(table, typed) == Some(c) && GoodCountry(c) && typed[0] == c.dial[0]
      ensures Fits(typed[|c.dial|..], c.lengths) <==> AfterCountryCode(typed, c).Ok?
    {
      assert GoodCountry(c);
      CountryOfIs(table, typed, c);
    }
  }

  /** Other digits are accepted exactly when they fit the chosen country, or fit it behind its code. */
  lemma LocalIsAcceptedExactly(digits: string, c: DialCountry)
    requires GoodCountry(c)
    ensures var r := ReadLocal(digits, c);
            && (r.Ok? <==> Fits(digits, c.lengths) || (c.dial <= digits && Fits(digits[|c.dial|..], c.lengths)))
            && (r.Err? ==> r == if |digits| < 8 then Err(TooShort) else Err(WriteWithCountryCode(c)))
  {
    assert 0 !in c.lengths;
  }

  /** A number is marked as corrected exactly when it is not what was typed, "00" in front aside. */
  lemma CorrectedMeans(table: seq<DialCountry>, plus: bool, digits: string, country: DialCountry)
    requires GoodTable(table) && country in table && ReadDigits(table, plus, digits, country).Ok?
    ensures var r := ReadDigits(table, plus, digits, country).value;
            r.corrected <==> r.waId != if "00" <= digits then digits[2..] else digits
  {
    var d, rest := AcceptedWasTyped(table, plus, digits, country);
    assert GoodCountry(country);
    if ReadDigits(table, plus, digits, country).value.corrected {
      assert GoodCountry(d) && |d.dial + rest| == |d.dial| + |rest| && (d.dial + rest)[0] == d.dial[0];
      assert |d.dial + ("0" + rest)| == |d.dial| + 1 + |rest| && ("0" + rest)[0] == '0';
    }
  }

  /** The countries listed, by the lengths of their numbers. */
  lemma ListedLengthsAre(c: DialCountry)
    requires c in COUNTRIES
    ensures c.lengths == if c.code in {"SA"} then [9] else if c.code in {"OM", "QA", "BH", "KW"} then [8]
                         else if c.code in {"IN"} then [10] else if c.code in {"AE"} then [8, 9] else [9, 10]
  {
  }

  lemma PiecesAre(a: string, b: string, rest: string)
    ensures var all := a + b + rest;
            all[..|a|] == a && all[|a|..|a| + |b|] == b && all[|a| + |b|..] == rest && |all| == |a| + |b| + |rest|
  {
  }

  lemma GroupsAre(c: DialCountry, all: string, a: string, b: string, rest: string)
    requires c.code == "AE" && 1 <= |a| <= 2 && |b| == 3 && |rest| == 4 && |all| == |a| + 7
    requires all[..|a|] == a && all[|a|..|a| + |b|] == b && all[|a| + |b|..] == rest
    ensures FormatAfter(c, all) == "+971 " + a + " " + b + " " + rest
  {
  }

  /** Numbers of the Emirates are printed in groups, with two digits first or one. */
  lemma PrintIsGrouped(table: seq<DialCountry>, c: DialCountry, a: string, b: string, rest: string)
    requires GoodTable(table) && c in table && c.code == "AE" && 1 <= |a| <= 2 && |b| == 3 && |rest| == 4
    ensures FormatInternational(table, c.dial + (a + b + rest)) == "+971 " + a + " " + b + " " + rest
  {
    FormatIs(table, c, a + b + rest);
    PiecesAre(a, b, rest);
    GroupsAre(c, a + b + rest, a, b, rest);
  }

  /** Others as the code and the rest, or whole when no code is listed. */
  lemma OtherPrintsAre(table: seq<DialCountry>, c: DialCountry, w: string, rest: string)
    requires GoodTable(table)
    ensures c in table && c.code != "AE" ==> FormatInternational(table, c.dial + rest) == "+" + c.dial + " " + rest
    ensures (forall o :: o in table ==> !(o.dial <= w)) ==> FormatInternational(table, w) == "+" + w
  {
    if c in table {
      FormatIs(table, c, rest);
    }
    if forall o :: o in table ==> !(o.dial <= w) {
      FormatWithoutCode(table, w);
    }
  }
}
