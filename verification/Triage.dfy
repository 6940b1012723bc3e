/** The menu sent when routing cannot be decided, and how a reply to it is read (packages/agents/src/business-router.ts). */
module Triage {
  import opened Prelude
  import opened Sorting
  import opened Text
  import opened BusinessRouter

  // ---- the numbers of the menu ----

  /** `numberedFrom.findIndex((candidate) => candidate.id === b.id)`, or -1. */
  function PlaceOf(id: Id, numberedFrom: seq<RoutableBusiness>): (place: int)
    ensures -1 <= place < |numberedFrom|
    ensures place >= 0 ==> numberedFrom[place].id == id && forall j :: 0 <= j < place ==> numberedFrom[j].id != id
    ensures place == -1 ==> forall j :: 0 <= j < |numberedFrom| ==> numberedFrom[j].id != id
  {
    if numberedFrom == [] then -1
    else if numberedFrom[0].id == id then 0
    else
      var place := PlaceOf(id, numberedFrom[1..]);
      assert forall j :: 1 <= j < |numberedFrom| ==> numberedFrom[j] == numberedFrom[1..][j - 1];
      if place >= 0 then place + 1 else -1
  }

  /** The number in front of option i of the menu. */
  function MenuNumber(b: RoutableBusiness, i: nat, numberedFrom: seq<RoutableBusiness>): nat {
    var place := PlaceOf(b.id, numberedFrom);
    (if place >= 0 then place else i) + 1
  }

  ghost predicate DistinctIds(bs: seq<RoutableBusiness>) {
    forall i, j :: 0 <= i < |bs| && 0 <= j < |bs| && bs[i].id == bs[j].id ==> i == j
  }

  function DigitChar(d: nat): char
    requires d < 10
  {
    '0' + (d as char)
  }

  function DigitValue(c: char): nat
    requires IsDigit(c)
  {
    (c - '0') as nat
  }

  /** A number as a template literal writes it. */
  function Decimal(n: nat): string {
    if n < 10 then [DigitChar(n)] else Decimal(n / 10) + [DigitChar(n % 10)]
  }

  lemma {:induction false} DecimalDigits(n: nat)
    ensures |Decimal(n)| >= 1 && forall i :: 0 <= i < |Decimal(n)| ==> IsDigit(Decimal(n)[i])
    ensures |Decimal(n)| == 1 <==> n < 10
    ensures |Decimal(n)| <= 2 <==> n < 100
  {
    if n >= 10 {
      DecimalDigits(n / 10);
    }
  }

  // ---- reading the reply ----

  /** `\b` after a digit: the text ends there, or goes on with something other than `[A-Za-z0-9_]`. */
  predicate EndsWord(s: string, i: nat) {
    i >= |s| || !(IsAlnum(s[i]) || s[i] == '_')
  }

  /** `/^(\d{1,2})\b/`: two digits when a word ends after them, else one. */
  function Ordinal(answer: string): Option<nat> {
    if |answer| >= 2 && IsDigit(answer[0]) && IsDigit(answer[1]) && EndsWord(answer, 2) then
      Some(10 * DigitValue(answer[0]) + DigitValue(answer[1]))
    else if |answer| >= 1 && IsDigit(answer[0]) && EndsWord(answer, 1) then Some(DigitValue(answer[0]))
    else None
  }

  function NameLength(): RoutableBusiness -> nat {
    (b: RoutableBusiness) => |b.name|
  }

  /** The business's name, as it is compared, is somewhere in the answer. */
  predicate NameIsIn(script: Script, answer: string, b: RoutableBusiness) {
    Includes(answer, script.normalize(b.name))
  }

  function Named(script: Script, answer: string): RoutableBusiness -> bool {
    (b: RoutableBusiness) => NameIsIn(script, answer, b)
  }

  /** The first match, longest name first. */
  function ByName(script: Script, answer: string, bs: seq<RoutableBusiness>): Option<RoutableBusiness> {
    FindFirst(Sort(NameLength(), bs), Named(script, answer))
  }

  function ResolveTriageReply(script: Script, text: string, bs: seq<RoutableBusiness>): Option<RoutableBusiness> {
    var answer := Trim(script.normalize(text));
    if answer == "" then None
    else
      match Ordinal(answer)
      case Some(n) => if 1 <= n <= |bs| then Some(bs[n - 1]) else ByName(script, answer, bs)
      case None => ByName(script, answer, bs)
  }

  // ---- what is promised ----

  lemma OneDigitIsRead(d: string, tail: string)
    requires |d| == 1 && IsDigit(d[0]) && EndsWord(tail, 0)
    ensures Ordinal(d + tail) == Some(DigitValue(d[0]))
  {
    assert tail != "" ==> (d + tail)[1] == tail[0];
  }

  lemma TwoDigitsAreRead(d: string, tail: string)
    requires |d| == 2 && IsDigit(d[0]) && IsDigit(d[1]) && EndsWord(tail, 0)
    ensures Ordinal(d + tail) == Some(10 * DigitValue(d[0]) + DigitValue(d[1]))
  {
    assert tail != "" ==> (d + tail)[2] == tail[0];
  }

  lemma MoreDigitsAreNotRead(d: string, tail: string)
    requires |d| >= 3 && forall i :: 0 <= i < |d| ==> IsDigit(d[i])
    ensures Ordinal(d + tail) == None
  {
    assert forall i :: 0 <= i < |d| ==> (d + tail)[i] == d[i];
  }

  lemma DecimalOf(n: nat)
    requires n <= 99
    ensures Decimal(n) == if n < 10 then [DigitChar(n)] else [DigitChar(n / 10), DigitChar(n % 10)]
  {
    if n >= 10 {
      assert Decimal(n / 10) == [DigitChar(n / 10)];
    }
  }

  /** A printed number is read back when it has at most two digits, and not read as a number otherwise. */
  lemma OrdinalReadsDecimal(n: nat, tail: string)
    requires EndsWord(tail, 0)
    ensures Ordinal(Decimal(n) + tail) == if n <= 99 then Some(n) else None
  {
    DecimalDigits(n);
    if n < 10 {
      DecimalOf(n);
      OneDigitIsRead(Decimal(n), tail);
    } else if n <= 99 {
      DecimalOf(n);
      TwoDigitsAreRead(Decimal(n), tail);
    } else {
      MoreDigitsAreNotRead(Decimal(n), tail);
    }
  }

  lemma MenuNumberIsPlace(b: RoutableBusiness, i: nat, bs: seq<RoutableBusiness>)
    requires b in bs && DistinctIds(bs)
    ensures 1 <= MenuNumber(b, i, bs) <= |bs| && bs[MenuNumber(b, i, bs) - 1] == b
  {
    var k :| 0 <= k < |bs| && bs[k] == b;
  }

  /** Whatever part of the list a menu shows, two of its options never carry the same number. */
  lemma OptionsHaveDistinctNumbers(b: RoutableBusiness, i: nat, b': RoutableBusiness, i': nat, bs: seq<RoutableBusiness>)
    requires b in bs && b' in bs && DistinctIds(bs)
    ensures MenuNumber(b, i, bs) == MenuNumber(b', i', bs) <==> b == b'
  {
    MenuNumberIsPlace(b, i, bs);
    MenuNumberIsPlace(b', i', bs);
  }

  /**
   * The number shown beside an option, alone or followed by more words, picks that option from the
   * full list; a number of three digits is not read as one, and only a name can then be found.
   */
  lemma MenuNumberPicksItsOption(
      script: Script, text: string, tail: string, b: RoutableBusiness, i: nat, bs: seq<RoutableBusiness>)
    requires b in bs && DistinctIds(bs) && EndsWord(tail, 0)
    requires Trim(script.normalize(text)) == Decimal(MenuNumber(b, i, bs)) + tail
    ensures MenuNumber(b, i, bs) <= 99 ==> ResolveTriageReply(script, text, bs) == Some(b)
    ensures MenuNumber(b, i, bs) > 99 ==>
              ResolveTriageReply(script, text, bs) == ByName(script, Trim(script.normalize(text)), bs)
  {
    MenuNumberIsPlace(b, i, bs);
    OrdinalReadsDecimal(MenuNumber(b, i, bs), tail);
    DecimalDigits(MenuNumber(b, i, bs));
  }

  /** The name, as it is compared, is a part of the answer. */
  ghost predicate SaysName(script: Script, answer: string, b: RoutableBusiness) {
    exists before, after :: answer == before + script.normalize(b.name) + after
  }

  lemma NameIsInMeans(script: Script, answer: string, b: RoutableBusiness)
    ensures NameIsIn(script, answer, b) <==> SaysName(script, answer, b)
  {
    var name := script.normalize(b.name);
    if NameIsIn(script, answer, b) {
      var p :| 0 <= p <= |answer| && OccursAt(answer, name, p);
      assert answer == answer[..p] + name + answer[p + |name|..];
    }
    forall before, after | answer == before + name + after
      ensures NameIsIn(script, answer, b)
    {
      assert answer[|before|..|before| + |name|] == name;
      assert OccursAt(answer, name, |before|);
    }
  }

  /** The answer does not begin with a number of the list: it begins with no digit, or with a number past its end. */
  predicate NamesNoOption(answer: string, n: nat, tail: string, bs: seq<RoutableBusiness>) {
    || (answer != "" && !('0' <= answer[0] <= '9'))
    || (answer == Decimal(n) + tail && EndsWord(tail, 0) && (n == 0 || n > |bs|))
  }

  /** Then the business with the longest name that is in the answer is picked, and nobody when none is. */
  lemma OtherAnswersPickByName(script: Script, text: string, n: nat, tail: string, bs: seq<RoutableBusiness>)
    requires NamesNoOption(Trim(script.normalize(text)), n, tail, bs)
    ensures var answer, r := Trim(script.normalize(text)), ResolveTriageReply(script, text, bs);
            && (r == None <==> forall b :: b in bs ==> !SaysName(script, answer, b))
            && (r.Some? ==> && r.value in bs && SaysName(script, answer, r.value)
                            && forall b :: b in bs && SaysName(script, answer, b) ==> |b.name| <= |r.value.name|)
  {
    var answer := Trim(script.normalize(text));
    if answer == Decimal(n) + tail && EndsWord(tail, 0) {
      OrdinalReadsDecimal(n, tail);
      DecimalDigits(n);
    }
    assert ResolveTriageReply(script, text, bs) == ByName(script, answer, bs);
    forall b | b in bs
      ensures NameIsIn(script, answer, b) <==> SaysName(script, answer, b)
      ensures NameIsIn(script, answer, b) ==> ByName(script, answer, bs).Some? && |b.name| <= |ByName(script, answer, bs).value.name|
      ensures ByName(script, answer, bs).Some? ==>
                ByName(script, answer, bs).value in bs && NameIsIn(script, answer, ByName(script, answer, bs).value)
    {
      NameIsInMeans(script, answer, b);
      LongestNameWins(script, answer, bs, b);
    }
    if ByName(script, answer, bs).Some? {
      FoundIsListed(script, answer, bs);
    }
  }

  lemma FoundIsListed(script: Script, answer: string, bs: seq<RoutableBusiness>)
    requires ByName(script, answer, bs).Some?
    ensures ByName(script, answer, bs).value in bs
  {
    SortSorts(NameLength(), bs);
    FirstNamedIsNamed(script, answer, Sort(NameLength(), bs));
    SameMembers(Sort(NameLength(), bs), bs, ByName(script, answer, bs).value);
  }

  /** An empty answer picks nobody. */
  lemma NoAnswerPicksNobody(script: Script, text: string, bs: seq<RoutableBusiness>)
    requires forall i :: 0 <= i < |script.normalize(text)| ==> IsSpace(script.normalize(text)[i])
    ensures ResolveTriageReply(script, text, bs) == None
  {
    TrimMeans(script.normalize(text));
  }

  /** Finding stops no later than at an element that satisfies the test. */
  lemma FoundNoLater<T>(xs: seq<T>, p: T -> bool, k: nat) returns (i: nat)
    requires k < |xs| && p(xs[k])
    ensures i <= k && FindFirst(xs, p) == Some(xs[i])
  {
    i :| 0 <= i < |xs| && FindFirst(xs, p) == Some(xs[i]) && p(xs[i]) && forall j :: 0 <= j < i ==> !p(xs[j]);
  }

  lemma EarlierIsLonger(sorted: seq<RoutableBusiness>, i: nat, k: nat)
    requires Descending(NameLength(), sorted) && i <= k < |sorted|
    ensures |sorted[k].name| <= |sorted[i].name|
  {
    assert i < k ==> NameLength()(sorted[i]) >= NameLength()(sorted[k]);
  }

  lemma FirstIsLongest(script: Script, answer: string, sorted: seq<RoutableBusiness>, b: RoutableBusiness)
    requires Descending(NameLength(), sorted) && b in sorted && NameIsIn(script, answer, b)
    ensures FindFirst(sorted, Named(script, answer)).Some?
    ensures |b.name| <= |FindFirst(sorted, Named(script, answer)).value.name|
  {
    var k: nat :| k < |sorted| && sorted[k] == b;
    var i := FoundNoLater(sorted, Named(script, answer), k);
    EarlierIsLonger(sorted, i, k);
  }

  lemma FirstNamedIsNamed(script: Script, answer: string, sorted: seq<RoutableBusiness>)
    ensures var r := FindFirst(sorted, Named(script, answer)); r.Some? ==> r.value in sorted && NameIsIn(script, answer, r.value)
  {
  }

  /** A name is found exactly when one is there, and then no longer one is there as well. */
  lemma LongestNameWins(script: Script, answer: string, bs: seq<RoutableBusiness>, b: RoutableBusiness)
    requires b in bs
    ensures var r := ByName(script, answer, bs); r.Some? ==> r.value in bs && NameIsIn(script, answer, r.value)
    ensures NameIsIn(script, answer, b) ==>
              ByName(script, answer, bs).Some? && |b.name| <= |ByName(script, answer, bs).value.name|
  {
    var sorted := Sort(NameLength(), bs);
    SortSorts(NameLength(), bs);
    SameMembers(bs, sorted, b);
    FirstNamedIsNamed(script, answer, sorted);
    if NameIsIn(script, answer, b) {
      FirstIsLongest(script, answer, sorted, b);
    }
    var r := ByName(script, answer, bs);
    if r.Some? {
      SameMembers(sorted, bs, r.value);
    }
  }
}
