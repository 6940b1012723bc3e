/** The staff member's tag inside a prefilled message (packages/agents/src/referral.ts). */
module Referral {
  import opened Prelude
  import opened Text
  import opened BusinessRouter

  /** `#via-([a-z0-9][a-z0-9-]{0,40})` at the front of the text, in any case. */
  function ViaTag(s: string): Option<string> {
    if |s| >= 5 && Lower(s[..5]) == "#via-" then TagAt(s[5..], 0) else None
  }

  /** The leftmost match of `(?:^|\s)#via-...`; at each place the start of the text is tried before white space. */
  function Search(s: string, atStart: bool): Option<string> {
    if atStart && ViaTag(s).Some? then ViaTag(s)
    else if s == "" then None
    else if IsSpace(s[0]) && ViaTag(s[1..]).Some? then ViaTag(s[1..])
    else Search(s[1..], false)
  }

  function FindStaffTag(text: string): Option<string> {
    match Search(text, true)
    case Some(code) => Some(Lower(code))
    case None => None
  }

  /** What buildStaffDeepLink makes the customer send, before it is URI encoded. */
  function StaffLinkText(b: RoutableBusiness, code: string, firstName: string): string {
    "#" + b.slug + (" #via-" + code + (" Hello " + b.name + ", I found you through " + firstName + " and would like to ask about"))
  }

  /** The business tag itself reads as a staff tag: the slug is "via-" and a letter or digit after it. */
  predicate ReadsAsStaffTag(slug: string) {
    |slug| >= 5 && Lower(slug[..4]) == "via-" && IsAlnum(slug[4])
  }

  lemma LowerCharInjectsTags(c: char, d: char)
    requires LowerChar(c) == LowerChar(d)
    ensures IsAlnum(c) <==> IsAlnum(d)
    ensures IsTagChar(c) <==> IsTagChar(d)
  {
  }

  /** Being a tag does not depend on case. */
  lemma TagInAnyCase(s: string, t: string)
    requires Lower(s) == Lower(t) && IsTag(s, 0)
    ensures IsTag(t, 0)
  {
    assert |Lower(s)| == |s| == |t|;
    forall i | 0 <= i < |t|
      ensures IsTagChar(t[i]) && (i == 0 ==> IsAlnum(t[i]))
    {
      assert Lower(s)[i] == Lower(t)[i];
      LowerCharInjectsTags(s[i], t[i]);
    }
  }

  lemma TagAtIsTag(s: string)
    ensures TagAt(s, 0).Some? ==> IsTag(TagAt(s, 0).value, 0)
  {
    if TagAt(s, 0).Some? {
      var n := TagRun(s[1..], 40);
      assert forall i :: 0 <= i < n ==> s[..1 + n][i + 1] == s[1..][i];
    }
  }

  /** Whatever is found is a code in the tag grammar, lower-cased. */
  lemma {:induction false} FoundIsTag(s: string, atStart: bool)
    ensures Search(s, atStart).Some? ==> IsTag(Search(s, atStart).value, 0)
  {
    if |s| >= 5 {
      TagAtIsTag(s[5..]);
    }
    if |s| >= 6 {
      TagAtIsTag(s[1..][5..]);
    }
    if s != "" {
      FoundIsTag(s[1..], false);
    }
  }

  /** Nothing is found inside a run of characters without white space. */
  lemma {:induction false} SearchSkips(run: string, rest: string)
    requires forall i :: 0 <= i < |run| ==> !IsSpace(run[i])
    ensures Search(run + rest, false) == Search(rest, false)
  {
    if run == "" {
      assert run + rest == rest;
    } else {
      assert (run + rest)[1..] == run[1..] + rest;
      SearchSkips(run[1..], rest);
    }
  }

  /** After "#via-", the tag is what the code begins with. */
  lemma ViaTagOfCode(code: string, tail: string)
    ensures ViaTag("#via-" + code + tail) == TagAt(code + tail, 0)
  {
    var s := "#via-" + code + tail;
    assert s[..5] == "#via-" && s[5..] == code + tail;
    assert Lower("#via-") == "#via-";
  }

  lemma LowerAfterHash(via: string)
    requires |via| == 4
    ensures Lower("#" + via) == "#via-" <==> Lower(via) == "via-"
  {
    assert Lower("#" + via) == "#" + Lower(via);
    assert ("#" + Lower(via))[1..] == Lower(via) && "#via-"[1..] == "via-";
  }

  /** The business tag is taken for a staff tag exactly when its slug reads as one. */
  lemma BusinessTagAsStaffTag(slug: string, rest: string)
    requires IsTag(slug, 1) && rest != "" && rest[0] == ' '
    ensures ViaTag("#" + slug + rest) == if ReadsAsStaffTag(slug) then Some(slug[4..]) else None
  {
    var s := "#" + slug + rest;
    assert forall i :: 0 <= i < |slug| ==> s[i + 1] == slug[i];
    assert s[|slug| + 1] == ' ';
    if |slug| >= 4 {
      var via := slug[..4];
      assert s[..5] == "#" + via && s[5..] == slug[4..] + rest;
      LowerAfterHash(via);
      TagEnds(slug[4..], rest, 0);
    } else if |s| >= 5 {
      assert Lower(s[..5])[|slug| + 1] == ' ' && ' ' !in "#via-";
    }
  }

  /** Past the business tag, the first thing that can be read is the staff tag. */
  lemma SearchFromSpace(code: string, tail: string)
    requires IsTag(code, 0) && tail != "" && tail[0] == ' '
    ensures Search(" #via-" + code + tail, false) == Some(code)
  {
    var rest := " #via-" + code + tail;
    assert rest[0] == ' ' && rest[1..] == "#via-" + code + tail;
    ViaTagOfCode(code, tail);
    TagEnds(code, tail, 0);
  }

  lemma CodeIsFound(slug: string, code: string, tail: string)
    requires IsTag(slug, 1) && !ReadsAsStaffTag(slug) && IsTag(code, 0) && tail != "" && tail[0] == ' '
    ensures Search("#" + slug + (" #via-" + code + tail), true) == Some(code)
  {
    var rest := " #via-" + code + tail;
    BusinessTagAsStaffTag(slug, rest);
    SearchSkips(slug, rest);
    SearchFromSpace(code, tail);
    PastTheHash(slug, rest);
  }

  /** When the front of the text is no staff tag, the search goes on behind its first character. */
  lemma PastTheHash(slug: string, rest: string)
    requires ViaTag("#" + slug + rest).None?
    ensures Search("#" + slug + rest, true) == Search(slug + rest, false)
  {
    var text := "#" + slug + rest;
    assert text[0] == '#' && text[1..] == slug + rest;
  }

  /**
   * What the text inside a staff link is read as: the staff member's code, unless the business's
   * own slug reads as a staff tag, which comes first.
   */
  lemma StaffLinkTagIs(b: RoutableBusiness, code: string, firstName: string)
    requires IsTag(b.slug, 1)
    ensures ReadsAsStaffTag(b.slug) ==> FindStaffTag(StaffLinkText(b, code, firstName)) == Some(Lower(b.slug[4..]))
    ensures !ReadsAsStaffTag(b.slug) && IsTag(code, 0) ==> FindStaffTag(StaffLinkText(b, code, firstName)) == Some(Lower(code))
  {
    var tail := " Hello " + b.name + ", I found you through " + firstName + " and would like to ask about";
    BusinessTagAsStaffTag(b.slug, " #via-" + code + tail);
    if !ReadsAsStaffTag(b.slug) && IsTag(code, 0) {
      CodeIsFound(b.slug, code, tail);
    }
  }

  /**
   * A staff link is attributed to its staff member exactly when the code is in the tag grammar
   * and the slug does not read as another staff tag.
   */
  lemma StaffLinkNamesItsStaffMember(b: RoutableBusiness, code: string, firstName: string)
    requires IsTag(b.slug, 1)
    ensures FindStaffTag(StaffLinkText(b, code, firstName)) == Some(Lower(code)) <==>
            if ReadsAsStaffTag(b.slug) then Lower(b.slug[4..]) == Lower(code) else IsTag(code, 0)
  {
    var text := StaffLinkText(b, code, firstName);
    StaffLinkTagIs(b, code, firstName);
    FoundIsTag(text, true);
    if FindStaffTag(text) == Some(Lower(code)) {
      TagInAnyCase(Search(text, true).value, code);
    }
  }

  /** The same text reaches its business, whatever keywords it contains. */
  lemma StaffLinkRoutesToItsBusiness(
      script: Script, b: RoutableBusiness, code: string, firstName: string, bs: seq<RoutableBusiness>)
    requires b in bs && DistinctSlugs(bs) && IsTag(b.slug, 1)
    ensures ClassifyBusiness(script, StaffLinkText(b, code, firstName), bs) == Routed(b, ["#" + b.slug])
  {
    var rest := " #via-" + code + (" Hello " + b.name + ", I found you through " + firstName + " and would like to ask about");
    assert rest[0] == ' ';
    LinkRoutesToItsBusiness(script, b, rest, bs);
  }
}
