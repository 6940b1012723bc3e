/** JavaScript string operations that several files use, and what whole words are. */
module Text {
  import opened Prelude

  /** `\s`, and what trim() takes away. */
  predicate IsSpace(c: char) {
    || '\t' <= c <= '\r' || c == ' ' || c == '\U{00A0}' || c == '\U{1680}' || '\U{2000}' <= c <= '\U{200A}'
    || c == '\U{2028}' || c == '\U{2029}' || c == '\U{202F}' || c == '\U{205F}' || c == '\U{3000}' || c == '\U{FEFF}'
  }

  predicate IsDigit(c: char) {
    '0' <= c <= '9'
  }

  predicate AllDigits(s: string) {
    forall i :: 0 <= i < |s| ==> IsDigit(s[i])
  }

  predicate IsAsciiLetter(c: char) {
    'a' <= c <= 'z' || 'A' <= c <= 'Z'
  }

  function LowerChar(c: char): char {
    if 'A' <= c <= 'Z' then 'a' + (c - 'A') else c
  }

  /** toLowerCase, on ASCII. */
  function Lower(s: string): (r: string)
    ensures |r| == |s| && forall i :: 0 <= i < |s| ==> r[i] == LowerChar(s[i])
  {
    seq(|s|, i requires 0 <= i < |s| => LowerChar(s[i]))
  }

  function TrimLeft(s: string): string {
    if s != "" && IsSpace(s[0]) then TrimLeft(s[1..]) else s
  }

  function TrimRight(s: string): string
    decreases |s|
  {
    if s != "" && IsSpace(s[|s| - 1]) then TrimRight(s[..|s| - 1]) else s
  }

  function Trim(s: string): string {
    TrimRight(TrimLeft(s))
  }

  /** The white space of ECMAScript: `\s`, and what trim takes off. */
  lemma SpacesAre(c: char)
    ensures IsSpace(c) <==> c as int in {9, 10, 11, 12, 13, 32, 160, 5760, 8192, 8193, 8194, 8195, 8196, 8197, 8198, 8199, 8200,
                                         8201, 8202, 8232, 8233, 8239, 8287, 12288, 65279}
  {
  }

  /** Texts fold to the same when they differ in the case of their ASCII letters alone. */
  lemma LowerMeans(s: string, t: string)
    ensures Lower(s) == Lower(t) <==>
            && |s| == |t|
            && forall i :: 0 <= i < |s| ==>
                 || s[i] == t[i]
                 || ('A' <= s[i] <= 'Z' && t[i] as int == s[i] as int + 32)
                 || ('A' <= t[i] <= 'Z' && s[i] as int == t[i] as int + 32)
  {
    if Lower(s) == Lower(t) {
      forall i | 0 <= i < |s|
        ensures LowerChar(s[i]) == LowerChar(t[i])
      {
        assert Lower(s)[i] == Lower(t)[i];
      }
    }
  }

  /** Trimming takes white space off both ends and nothing else. */
  lemma {:induction false} TrimMeans(s: string)
    ensures Trim(s) == "" <==> forall i :: 0 <= i < |s| ==> IsSpace(s[i])
    ensures Trim(s) != "" ==> !IsSpace(Trim(s)[0]) && !IsSpace(Trim(s)[|Trim(s)| - 1])
    ensures exists a, b :: 0 <= a <= b <= |s| && Trim(s) == s[a..b]
                           && (forall i :: 0 <= i < a || b <= i < |s| ==> IsSpace(s[i]))
  {
    var a := TrimsLeft(s);
    var b := TrimsRight(s[a..]);
    assert s[a..][..b] == s[a..a + b];
    assert forall i :: 0 <= i < |s[a..]| ==> s[a..][i] == s[a + i];
    assert Trim(s) == s[a..a + b] && 0 <= a <= a + b <= |s|;
    forall i | 0 <= i < a || a + b <= i < |s|
      ensures IsSpace(s[i])
    {
      if a + b <= i {
        assert s[i] == s[a..][i - a];
      }
    }
  }

  lemma {:induction false} TrimsLeft(s: string) returns (a: nat)
    ensures a <= |s| && TrimLeft(s) == s[a..] && (forall i :: 0 <= i < a ==> IsSpace(s[i])) && (a < |s| ==> !IsSpace(s[a]))
  {
    a := 0;
    if s != "" && IsSpace(s[0]) {
      var rest := TrimsLeft(s[1..]);
      a := rest + 1;
      assert s[1..][rest..] == s[a..];
      assert forall i :: 0 <= i < rest ==> s[1..][i] == s[i + 1];
    }
  }

  lemma {:induction false} TrimsRight(s: string) returns (b: nat)
    ensures b <= |s| && TrimRight(s) == s[..b] && (forall i :: b <= i < |s| ==> IsSpace(s[i])) && (b > 0 ==> !IsSpace(s[b - 1]))
    decreases |s|
  {
    b := |s|;
    if s != "" && IsSpace(s[|s| - 1]) {
      b := TrimsRight(s[..|s| - 1]);
    }
  }

  predicate OccursAt(haystack: string, needle: string, p: nat) {
    p + |needle| <= |haystack| && haystack[p..p + |needle|] == needle
  }

  /** `includes` */
  predicate Includes(haystack: string, needle: string) {
    exists p | 0 <= p <= |haystack| :: OccursAt(haystack, needle, p)
  }

  // ---- words ----

  /** The maximal runs of word characters. */
  function Words(isWord: char -> bool, s: string): (ws: seq<string>)
    ensures s != "" && isWord(s[0]) ==> ws != []
  {
    if s == "" then []
    else
      var rest := Words(isWord, s[1..]);
      if !isWord(s[0]) then rest
      else if |s| > 1 && isWord(s[1]) then [[s[0]] + rest[0]] + rest[1..]
      else [[s[0]]] + rest
  }

  /** `.replace(/[^\p{L}\p{N}]+/gu, " ")`: each maximal run of other characters becomes one space. */
  function SpaceOut(isWord: char -> bool, s: string, inGap: bool): string {
    if s == "" then ""
    else if isWord(s[0]) then [s[0]] + SpaceOut(isWord, s[1..], false)
    else (if inGap then "" else " ") + SpaceOut(isWord, s[1..], true)
  }

  /** Each word with a space after it. */
  function Flat(ws: seq<string>): string {
    if ws == [] then "" else ws[0] + " " + Flat(ws[1..])
  }

  /** Words with one space between them and one at each end. */
  function Pad(ws: seq<string>): string {
    " " + Flat(ws)
  }

  /** No word character is white space. */
  ghost predicate Spaceless(isWord: char -> bool) {
    forall c :: isWord(c) ==> !IsSpace(c)
  }

  predicate IsAWord(isWord: char -> bool, w: string) {
    w != "" && forall i :: 0 <= i < |w| ==> isWord(w[i])
  }

  predicate AreWords(isWord: char -> bool, ws: seq<string>) {
    forall i :: 0 <= i < |ws| ==> IsAWord(isWord, ws[i])
  }

  lemma {:induction false} WordsAreWords(isWord: char -> bool, s: string)
    ensures AreWords(isWord, Words(isWord, s))
  {
    if s != "" {
      WordsAreWords(isWord, s[1..]);
      var rest := Words(isWord, s[1..]);
      if isWord(s[0]) && |s| > 1 && isWord(s[1]) {
        assert IsAWord(isWord, rest[0]);
        assert IsAWord(isWord, [s[0]] + rest[0]);
      }
    }
  }

  predicate EndsInWord(isWord: char -> bool, s: string) {
    s != "" && isWord(s[|s| - 1])
  }

  /** The space a word at the very end of the text is still owed. */
  function Owed(isWord: char -> bool, s: string): string {
    if EndsInWord(isWord, s) then " " else ""
  }

  lemma FlatOneLonger(c: char, ws: seq<string>)
    requires ws != []
    ensures Flat([[c] + ws[0]] + ws[1..]) == [c] + Flat(ws)
  {
    assert ([[c] + ws[0]] + ws[1..])[1..] == ws[1..];
    assert ([c] + ws[0]) + " " + Flat(ws[1..]) == [c] + (ws[0] + " " + Flat(ws[1..]));
  }

  lemma FlatOneMore(w: string, ws: seq<string>)
    ensures Flat([w] + ws) == w + " " + Flat(ws)
  {
    assert ([w] + ws)[1..] == ws;
  }

  lemma Associates(a: string, b: string, c: string)
    ensures a + b + c == a + (b + c)
  {
  }

  /** Spacing out leaves the words, each followed by a space, but for a word at the very end. */
  lemma {:induction false} SpacedOutIsFlat(isWord: char -> bool, s: string)
    ensures SpaceOut(isWord, s, true) + Owed(isWord, s) == Flat(Words(isWord, s))
  {
    if s != "" {
      var tail := s[1..];
      SpacedOutIsFlat(isWord, tail);
      if tail == "" {
        assert isWord(s[0]) ==> Words(isWord, s) == [[s[0]]];
        FlatOneMore([s[0]], []);
      } else {
        assert Owed(isWord, tail) == Owed(isWord, s);
        SpacedOutOneMore(isWord, s);
      }
    }
  }

  lemma SpacedOutOneMore(isWord: char -> bool, s: string)
    requires |s| > 1 && SpaceOut(isWord, s[1..], true) + Owed(isWord, s) == Flat(Words(isWord, s[1..]))
    ensures SpaceOut(isWord, s, true) + Owed(isWord, s) == Flat(Words(isWord, s))
  {
    var tail := SpaceOut(isWord, s[1..], true);
    var rest := Words(isWord, s[1..]);
    if !isWord(s[0]) {
      assert "" + tail == tail;
    } else if isWord(s[1]) {
      FlatOneLonger(s[0], rest);
      Associates([s[0]], tail, Owed(isWord, s));
    } else {
      WordEnds(isWord, s);
      FlatOneMore([s[0]], rest);
      Regroup([s[0]], tail, Owed(isWord, s));
    }
  }

  lemma WordEnds(isWord: char -> bool, s: string)
    requires |s| > 1 && isWord(s[0]) && !isWord(s[1])
    ensures SpaceOut(isWord, s, true) == [s[0]] + (" " + SpaceOut(isWord, s[1..], true))
    ensures Words(isWord, s) == [[s[0]]] + Words(isWord, s[1..])
  {
  }

  lemma Regroup(w: string, tail: string, owed: string)
    ensures (w + (" " + tail)) + owed == w + " " + (tail + owed)
  {
  }

  lemma TrimKeeps(s: string)
    requires s == "" || (!IsSpace(s[0]) && !IsSpace(s[|s| - 1]))
    ensures Trim(s) == s && Trim(" " + s) == s && Trim(s + " ") == s && Trim(" " + s + " ") == s
  {
    assert (" " + s)[1..] == s && (" " + s + " ")[1..] == s + " ";
    assert (s + " ")[..|s|] == s;
    if s == "" {
      assert TrimLeft(s + " ") == TrimLeft((s + " ")[1..]);
    } else {
      assert TrimLeft(s + " ") == s + " ";
    }
  }

  lemma FlatEnds(isWord: char -> bool, ws: seq<string>)
    requires AreWords(isWord, ws) && Spaceless(isWord) && ws != []
    ensures |Flat(ws)| >= 2 && Flat(ws)[|Flat(ws)| - 1] == ' '
    ensures !IsSpace(Flat(ws)[0]) && !IsSpace(Flat(ws)[|Flat(ws)| - 2])
    decreases |ws|
  {
    assert IsAWord(isWord, ws[0]);
    if |ws| > 1 {
      assert AreWords(isWord, ws[1..]) by {
        forall i | 0 <= i < |ws[1..]|
          ensures IsAWord(isWord, ws[1..][i])
        {
          assert ws[1..][i] == ws[i + 1];
        }
      }
      FlatEnds(isWord, ws[1..]);
    } else {
      assert Flat(ws[1..]) == "";
    }
  }

  /** The words of a text, joined by single spaces, with none at the ends. */
  function Joined(ws: seq<string>): string {
    if ws == [] then "" else Flat(ws)[..|Flat(ws)| - 1]
  }

  lemma JoinedPads(isWord: char -> bool, ws: seq<string>)
    requires AreWords(isWord, ws) && Spaceless(isWord)
    ensures ws != [] ==> Joined(ws) + " " == Flat(ws) && Joined(ws) != ""
    ensures Joined(ws) == "" || (!IsSpace(Joined(ws)[0]) && !IsSpace(Joined(ws)[|Joined(ws)| - 1]))
  {
    if ws != [] {
      FlatEnds(isWord, ws);
    }
  }

  lemma SameBeforeSpace(a: string, b: string)
    requires a + " " == b + " "
    ensures a == b
  {
    assert a == (a + " ")[..|a|] && b == (b + " ")[..|b|];
  }

  lemma SpacedIsJoined(isWord: char -> bool, s: string)
    requires Spaceless(isWord)
    ensures var r, joined := SpaceOut(isWord, s, true), Joined(Words(isWord, s)); r == joined || r == joined + " "
  {
    var ws, r := Words(isWord, s), SpaceOut(isWord, s, true);
    WordsAreWords(isWord, s);
    JoinedPads(isWord, ws);
    SpacedOutIsFlat(isWord, s);
    if ws == [] {
      assert r == "";
    } else if EndsInWord(isWord, s) {
      SameBeforeSpace(r, Joined(ws));
    } else {
      assert r + "" == r;
    }
  }

  /** A space in front is all that beginning in a gap can leave out. */
  lemma GapInFront(isWord: char -> bool, s: string)
    ensures var r := SpaceOut(isWord, s, true); SpaceOut(isWord, s, false) == r || SpaceOut(isWord, s, false) == " " + r
  {
    if s != "" && !isWord(s[0]) {
      assert "" + SpaceOut(isWord, s[1..], true) == SpaceOut(isWord, s[1..], true);
    }
  }

  lemma TrimsBack(text: string, r: string, joined: string)
    requires joined == "" || (!IsSpace(joined[0]) && !IsSpace(joined[|joined| - 1]))
    requires r == joined || r == joined + " "
    requires text == r || text == " " + r
    ensures Trim(text) == joined
  {
    TrimKeeps(joined);
    SpaceStays(joined, " ");
  }

  /** Spacing out and trimming a text joins its words. */
  lemma SpacedAndTrimmed(isWord: char -> bool, s: string)
    requires Spaceless(isWord)
    ensures Trim(SpaceOut(isWord, s, false)) == Joined(Words(isWord, s))
  {
    WordsAreWords(isWord, s);
    JoinedPads(isWord, Words(isWord, s));
    SpacedIsJoined(isWord, s);
    GapInFront(isWord, s);
    TrimsBack(SpaceOut(isWord, s, false), SpaceOut(isWord, s, true), Joined(Words(isWord, s)));
  }

  // ---- one run of words inside another ----

  predicate ConsecutiveAt(ks: seq<string>, ws: seq<string>, i: nat) {
    i + |ks| <= |ws| && ws[i..i + |ks|] == ks
  }

  predicate Consecutive(ks: seq<string>, ws: seq<string>) {
    exists i | 0 <= i <= |ws| :: ConsecutiveAt(ks, ws, i)
  }

  lemma {:induction false} FlatSplits(a: seq<string>, b: seq<string>)
    ensures Flat(a + b) == Flat(a) + Flat(b)
  {
    if a == [] {
      assert a + b == b;
    } else {
      assert (a + b)[1..] == a[1..] + b;
      FlatSplits(a[1..], b);
    }
  }

  lemma FirstSpace(isWord: char -> bool, w: string, y: string)
    requires IsAWord(isWord, w) && Spaceless(isWord)
    ensures (w + " " + y)[|w|] == ' ' && forall i :: 0 <= i < |w| ==> (w + " " + y)[i] != ' '
  {
    forall i | 0 <= i < |w|
      ensures (w + " " + y)[i] != ' '
    {
      assert (w + " " + y)[i] == w[i] && IsSpace(' ');
    }
  }

  /** A word and a space at the front of a text can only be its first word. */
  lemma FirstWordOnly(isWord: char -> bool, k: string, w: string, x: string, y: string)
    requires IsAWord(isWord, k) && IsAWord(isWord, w) && Spaceless(isWord)
    requires k + " " + x <= w + " " + y
    ensures k == w && x <= y
  {
    var a, b := k + " " + x, w + " " + y;
    FirstSpace(isWord, k, x);
    FirstSpace(isWord, w, y);
    assert forall j :: 0 <= j < |a| ==> a[j] == b[j];
    assert |k| == |w|;
    assert k == a[..|k|] == b[..|k|] == w;
    assert x == a[|k| + 1..] && y == b[|k| + 1..];
  }

  lemma {:induction false} FlatPrefix(isWord: char -> bool, ks: seq<string>, ws: seq<string>)
    requires AreWords(isWord, ks) && AreWords(isWord, ws) && Spaceless(isWord)
    requires Flat(ks) <= Flat(ws)
    ensures ks <= ws
    decreases |ks|
  {
    if ks != [] {
      FlatEnds(isWord, ks);
      assert ws != [];
      FirstWordOnly(isWord, ks[0], ws[0], Flat(ks[1..]), Flat(ws[1..]));
      FlatPrefix(isWord, ks[1..], ws[1..]);
      assert ks == [ks[0]] + ks[1..] && ws == [ws[0]] + ws[1..];
    }
  }

  /** A padded run of words found in a padded text lies on word boundaries. */
  lemma {:induction false} OccurrenceIsConsecutive(isWord: char -> bool, ks: seq<string>, ws: seq<string>, p: nat)
    requires AreWords(isWord, ks) && AreWords(isWord, ws) && Spaceless(isWord) && ks != []
    requires OccursAt(Pad(ws), Pad(ks), p)
    ensures Consecutive(ks, ws)
    decreases |ws|
  {
    FlatEnds(isWord, ks);
    if p == 0 {
      assert Flat(ks) == Pad(ks)[1..] == Pad(ws)[1..|Pad(ks)|];
      assert Flat(ks) == Flat(ws)[..|Flat(ks)|];
      FlatPrefix(isWord, ks, ws);
      assert ConsecutiveAt(ks, ws, 0);
    } else {
      LaterOccurrence(isWord, ks, ws, p);
      OccurrenceIsConsecutive(isWord, ks, ws[1..], p - (|ws[0]| + 1));
      var i :| 0 <= i <= |ws[1..]| && ConsecutiveAt(ks, ws[1..], i);
      assert ws[i + 1..i + 1 + |ks|] == ws[1..][i..i + |ks|];
      assert ConsecutiveAt(ks, ws, i + 1);
    }
  }

  /** An occurrence after the start is one in the text without its first word. */
  lemma LaterOccurrence(isWord: char -> bool, ks: seq<string>, ws: seq<string>, p: nat)
    requires AreWords(isWord, ws) && Spaceless(isWord) && p > 0
    requires OccursAt(Pad(ws), Pad(ks), p)
    ensures ws != [] && p > |ws[0]| && AreWords(isWord, ws[1..])
    ensures OccursAt(Pad(ws[1..]), Pad(ks), p - (|ws[0]| + 1))
  {
    var h, n := Pad(ws), Pad(ks);
    assert h[p..p + |n|][0] == n[0] == ' ';
    var w, rest := ws[0], Pad(ws[1..]);
    assert IsAWord(isWord, w);
    FirstSpace(isWord, w, Flat(ws[1..]));
    assert h == " " + Flat(ws);
    assert h[p] == Flat(ws)[p - 1];
    assert p > |w|;
    assert h == (" " + w) + rest;
    OccursBehind(" " + w, rest, n, p);
    LaterWords(isWord, ws);
  }

  lemma OccursBehind(front: string, rest: string, needle: string, p: nat)
    requires p >= |front| && OccursAt(front + rest, needle, p)
    ensures OccursAt(rest, needle, p - |front|)
  {
    var p' := p - |front|;
    assert (front + rest)[p..p + |needle|] == rest[p'..p' + |needle|];
  }

  lemma LaterWords(isWord: char -> bool, ws: seq<string>)
    requires AreWords(isWord, ws) && ws != []
    ensures AreWords(isWord, ws[1..])
  {
    forall i | 0 <= i < |ws[1..]|
      ensures IsAWord(isWord, ws[1..][i])
    {
      assert ws[1..][i] == ws[i + 1];
    }
  }

  /** What comes before a word ends in a space. */
  lemma FlatEndsInSpace(a: seq<string>)
    requires a != []
    ensures Flat(a) == Flat(a)[..|Flat(a)| - 1] + " "
  {
    var last := |a| - 1;
    assert a == a[..last] + [a[last]];
    FlatSplits(a[..last], [a[last]]);
    FlatOneMore(a[last], []);
    assert Flat(a) == Flat(a[..last]) + (a[last] + " ");
  }

  lemma ConsecutiveOccurs(ks: seq<string>, ws: seq<string>, i: nat)
    requires ConsecutiveAt(ks, ws, i)
    ensures Includes(Pad(ws), Pad(ks))
  {
    var a, b := ws[..i], ws[i + |ks|..];
    assert ws == a + (ks + b);
    if i == 0 {
      assert ws == ks + b;
      OccursInFront(ks, b);
    } else {
      OccursAfter(a, ks, b);
    }
  }

  lemma OccursInFront(ks: seq<string>, b: seq<string>)
    ensures Includes(Pad(ks + b), Pad(ks))
  {
    FlatSplits(ks, b);
    SpaceStays(Flat(ks), Flat(b));
    FoundInFront(Pad(ks), Flat(b));
  }

  lemma OccursAfter(a: seq<string>, ks: seq<string>, b: seq<string>)
    requires a != []
    ensures Includes(Pad(a + (ks + b)), Pad(ks))
  {
    FlatSplits(a, ks + b);
    FlatSplits(ks, b);
    FlatEndsInSpace(a);
    var most := Flat(a)[..|Flat(a)| - 1];
    FoundAfter(" " + most, Pad(ks), Flat(b));
    SpaceMoves(most, Flat(ks), Flat(b));
  }

  lemma SpaceMoves(a: string, b: string, c: string)
    ensures " " + ((a + " ") + (b + c)) == (" " + a) + (" " + b) + c
  {
  }

  lemma SpaceStays(b: string, c: string)
    ensures " " + (b + c) == (" " + b) + c
  {
  }

  lemma FoundInFront(needle: string, after: string)
    ensures Includes(needle + after, needle)
  {
    assert OccursAt(needle + after, needle, 0);
  }

  lemma FoundAfter(before: string, needle: string, after: string)
    ensures Includes(before + needle + after, needle)
  {
    assert OccursAt(before + needle + after, needle, |before|);
  }

  /** The padded-substring test is exact for whole words. */
  lemma PaddedSearchIsWordSearch(isWord: char -> bool, ks: seq<string>, ws: seq<string>)
    requires AreWords(isWord, ks) && AreWords(isWord, ws) && Spaceless(isWord) && ks != []
    ensures Includes(Pad(ws), Pad(ks)) <==> Consecutive(ks, ws)
  {
    if Includes(Pad(ws), Pad(ks)) {
      var p :| 0 <= p <= |Pad(ws)| && OccursAt(Pad(ws), Pad(ks), p);
      OccurrenceIsConsecutive(isWord, ks, ws, p);
    }
    if Consecutive(ks, ws) {
      var i :| 0 <= i <= |ws| && ConsecutiveAt(ks, ws, i);
      ConsecutiveOccurs(ks, ws, i);
    }
  }
}
