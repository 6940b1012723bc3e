/**
 * Which business a message on a shared number is for (packages/agents/src/business-router.ts):
 * the published link's tag, whole-word keywords with a decisive margin, and the triage menu.
 */
module BusinessRouter {
  import opened Prelude
  import opened Sorting
  import opened Text

  type Id = int

  datatype RoutableBusiness = RoutableBusiness(id: Id, slug: string, name: string, routingKeywords: seq<string>)

  datatype RoutingOutcome =
    | Routed(business: RoutableBusiness, matched: seq<string>)
    | Ambiguous(candidates: seq<RoutableBusiness>)
    | Unknown

  /** normalizeForMatch, and which characters are letters or numbers. */
  datatype Script = Script(normalize: string -> string, isWord: char -> bool)

  function ToWordBag(script: Script, text: string): string {
    " " + Trim(SpaceOut(script.isWord, script.normalize(text), false)) + " "
  }

  function WordsOf(script: Script, text: string): seq<string> {
    Words(script.isWord, script.normalize(text))
  }

  // ---- keywords ----

  /** The source's test: the trimmed bag of the keyword, padded again, inside the bag of the message. */
  predicate KeywordHits(script: Script, haystack: string, keyword: string) {
    var needle := Trim(ToWordBag(script, keyword));
    needle != "" && Includes(haystack, " " + needle + " ")
  }

  lemma WordBag(script: Script, text: string)
    requires Spaceless(script.isWord)
    ensures var ws := WordsOf(script, text);
            && AreWords(script.isWord, ws)
            && Trim(ToWordBag(script, text)) == Joined(ws)
            && ToWordBag(script, text) == if ws == [] then "  " else Pad(ws)
  {
    var ws := WordsOf(script, text);
    WordsAreWords(script.isWord, script.normalize(text));
    SpacedAndTrimmed(script.isWord, script.normalize(text));
    JoinedPads(script.isWord, ws);
    TrimKeeps(Joined(ws));
  }

  /**
   * A keyword matches exactly when its words occur one after another as whole words of the
   * message; a keyword without a word in it never does.
   */
  lemma KeywordIsWholeWords(script: Script, text: string, keyword: string)
    requires Spaceless(script.isWord) && WordsOf(script, text) != []
    ensures KeywordHits(script, ToWordBag(script, text), keyword)
       <==> WordsOf(script, keyword) != [] && Consecutive(WordsOf(script, keyword), WordsOf(script, text))
  {
    var ks, ws := WordsOf(script, keyword), WordsOf(script, text);
    WordBag(script, text);
    WordBag(script, keyword);
    JoinedPads(script.isWord, ks);
    if ks != [] {
      assert " " + Joined(ks) + " " == Pad(ks);
      PaddedSearchIsWordSearch(script.isWord, ks, ws);
    }
  }

  // ---- the link's tag ----

  predicate IsAlnum(c: char) {
    IsDigit(c) || IsAsciiLetter(c)
  }

  predicate IsTagChar(c: char) {
    IsAlnum(c) || c == '-'
  }

  /** How many characters of `[a-z0-9-]` the text begins with, up to `most`. */
  function TagRun(s: string, most: nat): (n: nat)
    ensures n <= most && n <= |s|
    ensures forall i :: 0 <= i < n ==> IsTagChar(s[i])
    ensures n < most && n < |s| ==> !IsTagChar(s[n])
  {
    if most == 0 || s == "" || !IsTagChar(s[0]) then 0 else 1 + TagRun(s[1..], most - 1)
  }

  /** `[a-z0-9][a-z0-9-]{least,40}` at the front of the text. */
  function TagAt(s: string, least: nat): Option<string>
    requires least <= 40
  {
    if s == "" || !IsAlnum(s[0]) then None
    else
      var n := TagRun(s[1..], 40);
      if n < least then None else Some(s[..1 + n])
  }

  /** `/^\s*#([a-z0-9][a-z0-9-]{1,40})/i` */
  function DeepLinkTag(text: string): Option<string> {
    var s := TrimLeft(text);
    if s == "" || s[0] != '#' then None else TagAt(s[1..], 1)
  }

  function FindDeepLinkTag(text: string, businesses: seq<RoutableBusiness>): Option<RoutableBusiness> {
    match DeepLinkTag(text)
    case None => None
    case Some(tag) => FindFirst(businesses, (b: RoutableBusiness) => Lower(b.slug) == Lower(tag))
  }

  // ---- classifying ----

  datatype Hit = Hit(business: RoutableBusiness, matched: seq<string>)

  function HitOf(script: Script, haystack: string, b: RoutableBusiness): Hit {
    Hit(b, Filter(b.routingKeywords, (k: string) => KeywordHits(script, haystack, k)))
  }

  function Hits(script: Script, haystack: string, businesses: seq<RoutableBusiness>): seq<Hit> {
    if businesses == [] then []
    else
      var h := HitOf(script, haystack, businesses[0]);
      (if h.matched != [] then [h] else []) + Hits(script, haystack, businesses[1..])
  }

  /** What hits.sort compares: the number of keywords, most first. */
  function KeywordCount(): Hit -> nat {
    (h: Hit) => |h.matched|
  }

  function SortHits(hits: seq<Hit>): (r: seq<Hit>)
    ensures |r| == |hits|
  {
    Sort(KeywordCount(), hits)
  }

  function BusinessesOf(hits: seq<Hit>): seq<RoutableBusiness> {
    seq(|hits|, i requires 0 <= i < |hits| => hits[i].business)
  }

  function Decide(hits: seq<Hit>): RoutingOutcome {
    if hits == [] then Unknown
    else if |hits| == 1 then Routed(hits[0].business, hits[0].matched)
    else
      var sorted := SortHits(hits);
      if |sorted| > 1 && |sorted[0].matched| >= |sorted[1].matched| + 2 then Routed(sorted[0].business, sorted[0].matched)
      else Ambiguous(BusinessesOf(sorted))
  }

  function ClassifyBusiness(script: Script, text: string, businesses: seq<RoutableBusiness>): RoutingOutcome {
    match FindDeepLinkTag(text, businesses)
    case Some(tagged) => Routed(tagged, ["#" + tagged.slug])
    case None =>
      var haystack := ToWordBag(script, text);
      if Trim(haystack) == "" then Unknown else Decide(Hits(script, haystack, businesses))
  }

  ghost predicate ByCount(hits: seq<Hit>) {
    forall i, j :: 0 <= i < j < |hits| ==> |hits[i].matched| >= |hits[j].matched|
  }

  lemma SortedHits(hits: seq<Hit>)
    ensures ByCount(SortHits(hits)) && multiset(SortHits(hits)) == multiset(hits)
  {
    SortSorts(KeywordCount(), hits);
    var sorted := SortHits(hits);
    forall i, j | 0 <= i < j < |sorted|
      ensures |sorted[i].matched| >= |sorted[j].matched|
    {
      assert KeywordCount()(sorted[i]) >= KeywordCount()(sorted[j]);
    }
  }

  /** The hit leads every other by two keywords or more. */
  ghost predicate LeadsBy2(hits: multiset<Hit>, h: Hit) {
    hits[h] == 1 && forall o :: o in hits && o != h ==> |h.matched| >= |o.matched| + 2
  }

  lemma CountFirst<T>(x: T, xs: seq<T>, y: T)
    ensures multiset([x] + xs)[y] == (if x == y then 1 else 0) + multiset(xs)[y]
  {
  }

  lemma FirstLeads(sorted: seq<Hit>)
    requires ByCount(sorted) && |sorted| > 1 && |sorted[0].matched| >= |sorted[1].matched| + 2
    ensures LeadsBy2(multiset(sorted), sorted[0])
  {
    var top, rest := sorted[0], sorted[1..];
    forall o: Hit | o in rest
      ensures |top.matched| >= |o.matched| + 2
    {
      var j :| 0 <= j < |rest| && rest[j] == o;
      assert sorted[j + 1] == o;
    }
    assert sorted == [top] + rest;
    CountFirst(top, rest, top);
    assert top !in multiset(rest);
  }

  ghost predicate AreTheBusinessesOf(bs: seq<RoutableBusiness>, hits: seq<Hit>) {
    && (forall i :: 0 <= i < |hits| ==> hits[i].business in bs)
    && (forall b :: b in bs ==> exists i :: 0 <= i < |hits| && hits[i].business == b)
  }

  lemma SortedBusinesses(hits: seq<Hit>)
    ensures AreTheBusinessesOf(BusinessesOf(SortHits(hits)), hits)
  {
    var sorted := SortHits(hits);
    SortedHits(hits);
    forall i | 0 <= i < |hits|
      ensures hits[i].business in BusinessesOf(sorted)
    {
      assert hits[i] in multiset(sorted);
      var j :| 0 <= j < |sorted| && sorted[j] == hits[i];
      assert BusinessesOf(sorted)[j] == hits[i].business;
    }
    forall b | b in BusinessesOf(sorted)
      ensures exists i :: 0 <= i < |hits| && hits[i].business == b
    {
      var j :| 0 <= j < |sorted| && BusinessesOf(sorted)[j] == b;
      assert sorted[j] in multiset(hits);
      var i :| 0 <= i < |hits| && hits[i] == sorted[j];
      assert hits[i].business == b;
    }
  }

  /**
   * A hit is routed to exactly when it is the only one or leads all the others by two keywords;
   * when none does, all of them are candidates, and without any the business is unknown.
   */
  lemma DecideIsDecisive(hits: seq<Hit>, h: Hit)
    ensures Decide(hits) == Routed(h.business, h.matched) <==> LeadsBy2(multiset(hits), h)
    ensures Decide(hits).Ambiguous? ==> |Decide(hits).candidates| == |hits| && AreTheBusinessesOf(Decide(hits).candidates, hits)
    ensures Decide(hits) == Unknown <==> hits == []
  {
    if |hits| == 1 {
      assert multiset(hits) == multiset{hits[0]};
    } else if |hits| > 1 {
      var sorted := SortHits(hits);
      SortedHits(hits);
      if |sorted[0].matched| >= |sorted[1].matched| + 2 {
        FirstLeads(sorted);
      }
      if LeadsBy2(multiset(hits), h) {
        LeaderIsFirst(sorted, h);
      }
      SortedBusinesses(hits);
    }
  }

  lemma LeaderIsFirst(sorted: seq<Hit>, h: Hit)
    requires ByCount(sorted) && |sorted| > 1 && LeadsBy2(multiset(sorted), h)
    ensures h == sorted[0] && |sorted[0].matched| >= |sorted[1].matched| + 2
  {
    var top, rest := sorted[0], sorted[1..];
    assert h in sorted && top in sorted;
    var j :| 0 <= j < |sorted| && sorted[j] == h;
    assert |top.matched| >= |h.matched|;
    assert sorted == [top] + rest && rest[0] == sorted[1];
    CountFirst(top, rest, h);
    assert rest[0] in multiset(rest) && rest[0] in multiset(sorted);
  }

  // ---- the order of the list ----

  /** How often a hit is there: as often as its business is listed, if it has any keywords. */
  lemma {:induction false} HitCount(script: Script, haystack: string, bs: seq<RoutableBusiness>, h: Hit)
    ensures multiset(Hits(script, haystack, bs))[h]
         == if h.matched != [] && h == HitOf(script, haystack, h.business) then multiset(bs)[h.business] else 0
  {
    if bs != [] {
      HitCount(script, haystack, bs[1..], h);
      assert bs == [bs[0]] + bs[1..];
    }
  }

  lemma HitsOfPermutation(script: Script, haystack: string, bs: seq<RoutableBusiness>, bs': seq<RoutableBusiness>)
    requires multiset(bs) == multiset(bs')
    ensures multiset(Hits(script, haystack, bs)) == multiset(Hits(script, haystack, bs'))
  {
    forall h
      ensures multiset(Hits(script, haystack, bs))[h] == multiset(Hits(script, haystack, bs'))[h]
    {
      HitCount(script, haystack, bs, h);
      HitCount(script, haystack, bs', h);
    }
  }

  /** The same outcome, with candidates in whatever order. */
  predicate SameOutcome(o: RoutingOutcome, o': RoutingOutcome) {
    match (o, o')
    case (Ambiguous(c), Ambiguous(c')) => multiset(c) == multiset(c')
    case _ => o == o'
  }

  /** Each hit is what the message says of its business. */
  predicate AreHits(script: Script, haystack: string, hits: seq<Hit>) {
    forall i :: 0 <= i < |hits| ==> hits[i] == HitOf(script, haystack, hits[i].business)
  }

  /** When one hit is the business's and no other is, the two are there equally often. */
  lemma {:induction false} HitAndBusinessCount(hits: seq<Hit>, h: Hit, b: RoutableBusiness)
    requires forall i :: 0 <= i < |hits| ==> (hits[i] == h <==> hits[i].business == b)
    ensures multiset(BusinessesOf(hits))[b] == multiset(hits)[h]
  {
    if hits != [] {
      var first, rest := hits[0], hits[1..];
      HitAndBusinessCount(rest, h, b);
      assert hits == [first] + rest;
      assert BusinessesOf(hits) == [first.business] + BusinessesOf(rest);
      CountFirst(first, rest, h);
      CountFirst(first.business, BusinessesOf(rest), b);
    }
  }

  lemma BusinessCount(script: Script, haystack: string, hits: seq<Hit>, b: RoutableBusiness)
    requires AreHits(script, haystack, hits)
    ensures multiset(BusinessesOf(hits))[b] == multiset(hits)[HitOf(script, haystack, b)]
  {
    var h := HitOf(script, haystack, b);
    assert h.business == b;
    forall i | 0 <= i < |hits|
      ensures hits[i] == h <==> hits[i].business == b
    {
      assert hits[i] == HitOf(script, haystack, hits[i].business);
    }
    HitAndBusinessCount(hits, h, b);
  }

  lemma SameBusinesses(script: Script, haystack: string, a: seq<Hit>, b: seq<Hit>)
    requires multiset(a) == multiset(b) && AreHits(script, haystack, a) && AreHits(script, haystack, b)
    ensures multiset(BusinessesOf(a)) == multiset(BusinessesOf(b))
  {
    forall x
      ensures multiset(BusinessesOf(a))[x] == multiset(BusinessesOf(b))[x]
    {
      BusinessCount(script, haystack, a, x);
      BusinessCount(script, haystack, b, x);
    }
  }

  lemma {:induction false} HitsAreHits(script: Script, haystack: string, bs: seq<RoutableBusiness>)
    ensures AreHits(script, haystack, Hits(script, haystack, bs))
  {
    if bs != [] {
      HitsAreHits(script, haystack, bs[1..]);
    }
  }

  lemma SortedAreHits(script: Script, haystack: string, hits: seq<Hit>)
    requires AreHits(script, haystack, hits)
    ensures AreHits(script, haystack, SortHits(hits))
  {
    var sorted := SortHits(hits);
    SortedHits(hits);
    forall i | 0 <= i < |sorted|
      ensures sorted[i] == HitOf(script, haystack, sorted[i].business)
    {
      assert sorted[i] in multiset(hits);
    }
  }

  lemma DecideOnPermutation(script: Script, haystack: string, hits: seq<Hit>, hits': seq<Hit>)
    requires multiset(hits) == multiset(hits') && AreHits(script, haystack, hits) && AreHits(script, haystack, hits')
    ensures SameOutcome(Decide(hits), Decide(hits'))
  {
    assert |hits| == |multiset(hits)| == |multiset(hits')| == |hits'|;
    if |hits| == 1 {
      assert hits[0] in multiset(hits');
    } else if |hits| > 1 {
      var h, h' := SortHits(hits)[0], SortHits(hits')[0];
      DecideIsDecisive(hits, h);
      DecideIsDecisive(hits', h);
      DecideIsDecisive(hits, h');
      DecideIsDecisive(hits', h');
      SortedHits(hits);
      SortedHits(hits');
      SortedAreHits(script, haystack, hits);
      SortedAreHits(script, haystack, hits');
      SameBusinesses(script, haystack, SortHits(hits), SortHits(hits'));
    }
  }

  /** No two businesses share a slug, whatever its case. */
  ghost predicate DistinctSlugs(bs: seq<RoutableBusiness>) {
    forall b, b' :: b in bs && b' in bs && Lower(b.slug) == Lower(b'.slug) ==> b == b'
  }

  lemma TaggedIsListed(text: string, bs: seq<RoutableBusiness>)
    ensures FindDeepLinkTag(text, bs).Some? ==>
              var b := FindDeepLinkTag(text, bs).value;
              b in bs && DeepLinkTag(text).Some? && Lower(b.slug) == Lower(DeepLinkTag(text).value)
    ensures FindDeepLinkTag(text, bs).None? && DeepLinkTag(text).Some? ==>
              forall b :: b in bs ==> Lower(b.slug) != Lower(DeepLinkTag(text).value)
  {
  }

  lemma TagFoundInAnyOrder(text: string, bs: seq<RoutableBusiness>, bs': seq<RoutableBusiness>)
    requires multiset(bs) == multiset(bs') && (FindDeepLinkTag(text, bs).None? || DistinctSlugs(bs))
    ensures FindDeepLinkTag(text, bs') == FindDeepLinkTag(text, bs)
  {
    var found, found' := FindDeepLinkTag(text, bs), FindDeepLinkTag(text, bs');
    TaggedIsListed(text, bs);
    TaggedIsListed(text, bs');
    if found.Some? {
      SameMembers(bs, bs', found.value);
    }
    if found'.Some? {
      SameMembers(bs, bs', found'.value);
    }
  }

  /**
   * Whom a message is routed to, or who is asked about, does not depend on the order in which
   * the businesses are listed. Only two businesses with the slug of its tag could make it.
   */
  lemma OrderDoesNotMatter(script: Script, text: string, bs: seq<RoutableBusiness>, bs': seq<RoutableBusiness>)
    requires multiset(bs) == multiset(bs') && (FindDeepLinkTag(text, bs).None? || DistinctSlugs(bs))
    ensures SameOutcome(ClassifyBusiness(script, text, bs), ClassifyBusiness(script, text, bs'))
  {
    var haystack := ToWordBag(script, text);
    TagFoundInAnyOrder(text, bs, bs');
    HitsOfPermutation(script, haystack, bs, bs');
    HitsAreHits(script, haystack, bs);
    HitsAreHits(script, haystack, bs');
    DecideOnPermutation(script, haystack, Hits(script, haystack, bs), Hits(script, haystack, bs'));
  }

  /** The keywords of a business that occur as whole words, and the businesses that have any. */
  lemma {:induction false} HitsAreWholeWords(script: Script, text: string, bs: seq<RoutableBusiness>, h: Hit)
    requires Spaceless(script.isWord) && WordsOf(script, text) != []
    ensures h in Hits(script, ToWordBag(script, text), bs) ==>
              h.business in bs && h.matched != [] && forall k :: k in h.matched <==>
                k in h.business.routingKeywords && WordsOf(script, k) != [] && Consecutive(WordsOf(script, k), WordsOf(script, text))
    ensures forall b, k :: b in bs && k in b.routingKeywords && WordsOf(script, k) != []
                           && Consecutive(WordsOf(script, k), WordsOf(script, text))
              ==> HitOf(script, ToWordBag(script, text), b) in Hits(script, ToWordBag(script, text), bs)
    decreases |bs|
  {
    if bs != [] {
      var haystack := ToWordBag(script, text);
      HitsAreWholeWords(script, text, bs[1..], h);
      forall k
        ensures KeywordHits(script, haystack, k)
           <==> WordsOf(script, k) != [] && Consecutive(WordsOf(script, k), WordsOf(script, text))
      {
        KeywordIsWholeWords(script, text, k);
      }
    }
  }

  // ---- the whole of it, by the words alone ----

  /** The keyword has words, and they occur one after another in the message. */
  predicate IsInText(script: Script, text: string, keyword: string) {
    WordsOf(script, keyword) != [] && Consecutive(WordsOf(script, keyword), WordsOf(script, text))
  }

  /** The business's keywords that are in the message, in the order it lists them. */
  function KeywordsIn(script: Script, text: string, b: RoutableBusiness): (r: seq<string>) {
    Filter(b.routingKeywords, (k: string) => IsInText(script, text, k))
  }

  lemma KeywordsInAre(script: Script, text: string, b: RoutableBusiness, k: string)
    ensures k in KeywordsIn(script, text, b) <==> k in b.routingKeywords && IsInText(script, text, k)
    ensures IsPart(KeywordsIn(script, text, b), b.routingKeywords)
    ensures IsInText(script, text, k) ==> multiset(KeywordsIn(script, text, b))[k] == multiset(b.routingKeywords)[k]
  {
    FilterIsPart(b.routingKeywords, (k: string) => IsInText(script, text, k));
    FilterCounts(b.routingKeywords, (k: string) => IsInText(script, text, k), k);
  }

  lemma MatchedAreKeywordsIn(script: Script, text: string, b: RoutableBusiness)
    requires Spaceless(script.isWord) && WordsOf(script, text) != []
    ensures HitOf(script, ToWordBag(script, text), b) == Hit(b, KeywordsIn(script, text, b))
  {
    var haystack := ToWordBag(script, text);
    forall k
      ensures KeywordHits(script, haystack, k) <==> IsInText(script, text, k)
    {
      KeywordIsWholeWords(script, text, k);
    }
    FilterAgrees(b.routingKeywords, (k: string) => KeywordHits(script, haystack, k), (k: string) => IsInText(script, text, k));
  }

  /** A text with no word in it has no keyword, and its bag is blank. */
  lemma NoWordsNoKeywords(script: Script, text: string, b: RoutableBusiness)
    requires Spaceless(script.isWord)
    ensures Trim(ToWordBag(script, text)) == "" <==> WordsOf(script, text) == []
    ensures WordsOf(script, text) == [] ==> KeywordsIn(script, text, b) == []
  {
    WordBag(script, text);
    JoinedPads(script.isWord, WordsOf(script, text));
    if WordsOf(script, text) == [] {
      FilterNone(b.routingKeywords, (k: string) => IsInText(script, text, k));
    }
  }

  /** How often a hit is found: as often as its business is listed, when it holds the business's keywords and there are any. */
  lemma HitsAreListed(script: Script, text: string, bs: seq<RoutableBusiness>, h: Hit)
    requires Spaceless(script.isWord) && WordsOf(script, text) != []
    ensures multiset(Hits(script, ToWordBag(script, text), bs))[h]
         == if h.matched != [] && h.matched == KeywordsIn(script, text, h.business) then multiset(bs)[h.business] else 0
  {
    HitCount(script, ToWordBag(script, text), bs, h);
    MatchedAreKeywordsIn(script, text, h.business);
  }

  /** The business has keywords in the message, is listed once, and has two more of them than any other that has some. */
  ghost predicate Leads(script: Script, text: string, bs: seq<RoutableBusiness>, b: RoutableBusiness) {
    && KeywordsIn(script, text, b) != [] && multiset(bs)[b] == 1
    && forall o :: o in bs && o != b && KeywordsIn(script, text, o) != [] ==>
         |KeywordsIn(script, text, b)| >= |KeywordsIn(script, text, o)| + 2
  }

  lemma LeadingIsLeadingBy2(script: Script, text: string, bs: seq<RoutableBusiness>, h: Hit)
    requires Spaceless(script.isWord) && WordsOf(script, text) != []
    ensures LeadsBy2(multiset(Hits(script, ToWordBag(script, text), bs)), h)
       <==> h.matched == KeywordsIn(script, text, h.business) && Leads(script, text, bs, h.business)
  {
    HitsAreListed(script, text, bs, h);
    if LeadsBy2(multiset(Hits(script, ToWordBag(script, text), bs)), h) {
      LeaderLeads(script, text, bs, h);
    }
    if h.matched == KeywordsIn(script, text, h.business) && Leads(script, text, bs, h.business) {
      LeadsAsHit(script, text, bs, h);
    }
  }

  lemma LeaderLeads(script: Script, text: string, bs: seq<RoutableBusiness>, h: Hit)
    requires Spaceless(script.isWord) && WordsOf(script, text) != []
    requires LeadsBy2(multiset(Hits(script, ToWordBag(script, text), bs)), h)
    ensures h.matched == KeywordsIn(script, text, h.business) && Leads(script, text, bs, h.business)
  {
    var hits := multiset(Hits(script, ToWordBag(script, text), bs));
    HitsAreListed(script, text, bs, h);
    forall o | o in bs && o != h.business && KeywordsIn(script, text, o) != []
      ensures |h.matched| >= |KeywordsIn(script, text, o)| + 2
    {
      var other := Hit(o, KeywordsIn(script, text, o));
      HitsAreListed(script, text, bs, other);
      assert other in hits;
    }
  }

  lemma LeadsAsHit(script: Script, text: string, bs: seq<RoutableBusiness>, h: Hit)
    requires Spaceless(script.isWord) && WordsOf(script, text) != []
    requires h.matched == KeywordsIn(script, text, h.business) && Leads(script, text, bs, h.business)
    ensures LeadsBy2(multiset(Hits(script, ToWordBag(script, text), bs)), h)
  {
    var hits := multiset(Hits(script, ToWordBag(script, text), bs));
    HitsAreListed(script, text, bs, h);
    forall o: Hit | o in hits && o != h
      ensures |h.matched| >= |o.matched| + 2
    {
      HitsAreListed(script, text, bs, o);
      assert o.business in multiset(bs);
    }
  }

  /** The candidates are the businesses with keywords in the message, as often as they are listed. */
  lemma CandidatesAre(script: Script, text: string, bs: seq<RoutableBusiness>, b: RoutableBusiness)
    requires Spaceless(script.isWord) && WordsOf(script, text) != []
    ensures multiset(BusinessesOf(SortHits(Hits(script, ToWordBag(script, text), bs))))[b]
         == if KeywordsIn(script, text, b) != [] then multiset(bs)[b] else 0
  {
    var haystack := ToWordBag(script, text);
    var hits := Hits(script, haystack, bs);
    HitsAreHits(script, haystack, bs);
    SortedAreHits(script, haystack, hits);
    SortedHits(hits);
    BusinessCount(script, haystack, SortHits(hits), b);
    MatchedAreKeywordsIn(script, text, b);
    HitsAreListed(script, text, bs, Hit(b, KeywordsIn(script, text, b)));
  }

  lemma NoHitsNoKeywords(script: Script, text: string, bs: seq<RoutableBusiness>)
    requires Spaceless(script.isWord) && WordsOf(script, text) != []
    ensures Hits(script, ToWordBag(script, text), bs) == [] <==> forall b :: b in bs ==> KeywordsIn(script, text, b) == []
  {
    var hits := Hits(script, ToWordBag(script, text), bs);
    forall b | b in bs && KeywordsIn(script, text, b) != []
      ensures hits != []
    {
      HitsAreListed(script, text, bs, Hit(b, KeywordsIn(script, text, b)));
      assert Hit(b, KeywordsIn(script, text, b)) in multiset(hits);
    }
    if hits != [] {
      HitsAreListed(script, text, bs, hits[0]);
      assert hits[0] in multiset(hits) && hits[0].business in multiset(bs);
    }
  }

  /**
   * The answer to a message without a listed tag, by its words. It goes to a business exactly when
   * that business leads, with all of its keywords in the message; it is unknown exactly when nobody
   * has any; and otherwise everybody who has some is a candidate.
   */
  lemma ClassifyMeans(script: Script, text: string, bs: seq<RoutableBusiness>, b: RoutableBusiness, matched: seq<string>)
    requires Spaceless(script.isWord) && FindDeepLinkTag(text, bs).None?
    ensures var r := ClassifyBusiness(script, text, bs);
            && (r == Routed(b, matched) <==> matched == KeywordsIn(script, text, b) && Leads(script, text, bs, b))
            && (r == Unknown <==> forall o :: o in bs ==> KeywordsIn(script, text, o) == [])
            && (r.Ambiguous? ==> multiset(r.candidates)[b] == if KeywordsIn(script, text, b) != [] then multiset(bs)[b] else 0)
  {
    NoWordsNoKeywords(script, text, b);
    if WordsOf(script, text) == [] {
      forall o: RoutableBusiness
        ensures KeywordsIn(script, text, o) == []
      {
        NoWordsNoKeywords(script, text, o);
      }
    } else {
      var hits := Hits(script, ToWordBag(script, text), bs);
      DecideIsDecisive(hits, Hit(b, matched));
      LeadingIsLeadingBy2(script, text, bs, Hit(b, matched));
      NoHitsNoKeywords(script, text, bs);
      CandidatesAre(script, text, bs, b);
    }
  }

  // ---- the published link ----

  /** `[a-z0-9][a-z0-9-]{least,40}`, the whole text. */
  predicate IsTag(s: string, least: nat) {
    && 1 + least <= |s| <= 41 && s[0] != '-'
    && forall i :: 0 <= i < |s| ==> '0' <= s[i] <= '9' || 'a' <= s[i] <= 'z' || 'A' <= s[i] <= 'Z' || s[i] == '-'
  }

  /** What buildDeepLink makes the customer send, before it is URI encoded. */
  function LinkText(b: RoutableBusiness): string {
    "#" + b.slug + (" Hello " + b.name + ", I would like to ask about")
  }

  /** What follows a tag: nothing, or a character that no tag contains. */
  predicate NoTagGoesOn(rest: string) {
    rest == "" || !('0' <= rest[0] <= '9' || 'a' <= rest[0] <= 'z' || 'A' <= rest[0] <= 'Z' || rest[0] == '-')
  }

  /** A text read up to where no tag goes on is a tag exactly when it is in the grammar. */
  lemma TagEnds(t: string, rest: string, least: nat)
    requires least <= 40 && NoTagGoesOn(rest)
    ensures TagAt(t + rest, least) == Some(t) <==> IsTag(t, least)
    ensures TagAt(t + rest, least).Some? ==> TagAt(t + rest, least).value <= t
  {
    var s := t + rest;
    if t != "" {
      var n := TagRun(s[1..], 40);
      assert forall i :: 0 <= i < |t| ==> s[i] == t[i];
      assert rest != "" ==> s[|t|] == rest[0] && s[1..][|t| - 1] == rest[0];
      assert forall i :: 0 <= i < |s| - 1 ==> s[1..][i] == s[i + 1];
      assert s[..1 + n] <= t;
    }
  }

  /**
   * A message opening with a business's own tag, alone or before anything that does not lengthen
   * it, is read as that business's exactly when the slug
   * is in the tag grammar, of 2 to 41 characters.
   */
  lemma TagNamesItsBusiness(b: RoutableBusiness, rest: string, bs: seq<RoutableBusiness>)
    requires b in bs && DistinctSlugs(bs) && NoTagGoesOn(rest)
    ensures FindDeepLinkTag("#" + b.slug + rest, bs) == Some(b) <==> IsTag(b.slug, 1)
  {
    var text := "#" + b.slug + rest;
    assert TrimLeft(text) == text && text[1..] == b.slug + rest;
    TagEnds(b.slug, rest, 1);
    var tag := DeepLinkTag(text);
    assert tag == TagAt(b.slug + rest, 1);
    if tag.Some? && |tag.value| == |b.slug| {
      assert tag.value == b.slug;
    }
  }

  lemma {:induction false} SpacesInFront(before: string, rest: string)
    requires forall i :: 0 <= i < |before| ==> IsSpace(before[i])
    ensures TrimLeft(before + rest) == TrimLeft(rest)
  {
    if before == "" {
      assert before + rest == rest;
    } else {
      assert (before + rest)[1..] == before[1..] + rest;
      SpacesInFront(before[1..], rest);
    }
  }

  /** The tag is read after white space and in any case; one that is nobody's slug is no tag. */
  lemma TagIsReadInAnyCase(before: string, tag: string, rest: string, bs: seq<RoutableBusiness>, b: RoutableBusiness)
    requires (forall i :: 0 <= i < |before| ==> before[i] in " \t\n\r") && IsTag(tag, 1) && NoTagGoesOn(rest)
    ensures var text := before + ("#" + tag + rest);
            && (b in bs && DistinctSlugs(bs) && Lower(b.slug) == Lower(tag) ==> FindDeepLinkTag(text, bs) == Some(b))
            && ((forall o :: o in bs ==> Lower(o.slug) != Lower(tag)) ==> FindDeepLinkTag(text, bs) == None)
  {
    TagIsFound(before, tag, rest);
    TaggedIsListed(before + ("#" + tag + rest), bs);
  }

  lemma TagIsFound(before: string, tag: string, rest: string)
    requires (forall i :: 0 <= i < |before| ==> before[i] in " \t\n\r") && IsTag(tag, 1) && NoTagGoesOn(rest)
    ensures DeepLinkTag(before + ("#" + tag + rest)) == Some(tag)
  {
    var text := "#" + tag + rest;
    SpacesInFront(before, text);
    assert TrimLeft(text) == text && text[1..] == tag + rest;
    TagEnds(tag, rest, 1);
  }

  /** A message that does not begin with "#", white space aside, has no tag. */
  lemma NoHashNoTag(before: string, rest: string, bs: seq<RoutableBusiness>)
    requires forall i :: 0 <= i < |before| ==> before[i] in " \t\n\r"
    requires rest == "" || (rest[0] != '#' && !IsSpace(rest[0]))
    ensures FindDeepLinkTag(before + rest, bs) == None
  {
    SpacesInFront(before, rest);
  }

  /** A published link reaches its business whatever else the message says. */
  lemma LinkRoutesToItsBusiness(script: Script, b: RoutableBusiness, rest: string, bs: seq<RoutableBusiness>)
    requires b in bs && DistinctSlugs(bs) && NoTagGoesOn(rest) && IsTag(b.slug, 1)
    ensures ClassifyBusiness(script, "#" + b.slug + rest, bs) == Routed(b, ["#" + b.slug])
    ensures ClassifyBusiness(script, LinkText(b), bs) == Routed(b, ["#" + b.slug])
  {
    TagNamesItsBusiness(b, rest, bs);
    TagNamesItsBusiness(b, " Hello " + b.name + ", I would like to ask about", bs);
  }
}
