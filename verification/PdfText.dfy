/** The string operands of a PDF content stream (packages/agents/src/pdf-text.ts; ISO 32000-1 section 7.3.4.2). */
module PdfText {

  /** How many parentheses are open after a character that is not escaped. */
  function Deeper(c: char, depth: nat): nat {
    if c == '(' then depth + 1 else if c == ')' && depth > 0 then depth - 1 else depth
  }

  /** What a string reads as from a place inside it at some depth, and how far on it ends. */
  function Inside(s: string, depth: nat): (r: (string, nat))
    requires depth > 0
    ensures r.1 <= |s|
    ensures r.1 < |s| ==> s[r.1] == ')'
    decreases |s|
  {
    if s == "" then ("", 0)
    else if s[0] == '\\' && |s| > 1 then
      var (text, n) := Inside(s[2..], depth);
      ([s[1]] + text, 2 + n)
    else if s[0] == ')' && depth == 1 then ("", 0)
    else
      var (text, n) := Inside(s[1..], Deeper(s[0], depth));
      ([s[0]] + text, 1 + n)
  }

  /** Every string, in order; one that is never closed reaches to the end. */
  function Strings(s: string): seq<string>
    decreases |s|, 1
  {
    if s == "" then []
    else if s[0] != '(' then Strings(s[1..])
    else
      var (text, n) := Inside(s[1..], 1);
      [text] + StringsAfter(s, n + 2)
  }

  /** The strings from a place after the first character on. */
  function StringsAfter(s: string, place: nat): seq<string>
    requires s != "" && place > 0
    decreases |s|, 0
  {
    if place <= |s| then Strings(s[place..]) else []
  }

  lemma StringsSkip(here: string)
    requires here != "" && here[0] != '('
    ensures Strings(here) == Strings(here[1..])
  {
  }

  lemma StringsTake(here: string)
    requires here != "" && here[0] == '('
    ensures var r := Inside(here[1..], 1); Strings(here) == [r.0] + StringsAfter(here, r.1 + 2)
  {
  }

  /** The strings from a place on. */
  function Remaining(s: string, i: nat): seq<string> {
    if i <= |s| then Strings(s[i..]) else []
  }

  lemma StringsSkipHere(s: string, i: nat)
    requires i < |s| && s[i] != '('
    ensures Remaining(s, i) == Remaining(s, i + 1)
  {
    FromHere(s, i, 1, i + 1);
    StringsSkip(s[i..]);
  }

  lemma StringsTakeHere(s: string, i: nat, start: nat, text: string, j: nat, next: nat)
    requires start == i + 1 && start <= j <= |s| && next == j + 1 && s[i] == '(' && Inside(s[start..], 1) == (text, j - start)
    ensures Remaining(s, i) == [text] + Remaining(s, next)
  {
    var here, n := s[i..], j - start;
    FromHere(s, i, 1, start);
    StringsTake(here);
    if next <= |s| {
      FromHere(s, i, n + 2, next);
    }
  }

  lemma FromHere(s: string, i: nat, k: nat, to: nat)
    requires i + k == to <= |s|
    ensures s[i..][k..] == s[to..]
  {
  }

  lemma InsideHere(s: string, j: nat, depth: nat)
    requires j < |s| && depth > 0
    ensures s[j] == '\\' && j + 1 < |s| ==>
              var r := Inside(s[j + 2..], depth); Inside(s[j..], depth) == ([s[j + 1]] + r.0, 2 + r.1)
    ensures !(s[j] == '\\' && j + 1 < |s|) ==>
              if s[j] == ')' && depth == 1 then Inside(s[j..], depth) == ("", 0)
              else
                var r := Inside(s[j + 1..], Deeper(s[j], depth));
                Inside(s[j..], depth) == ([s[j]] + r.0, 1 + r.1)
  {
    assert s[j..][1..] == s[j + 1..];
    if j + 1 < |s| {
      assert s[j..][2..] == s[j + 2..];
    }
  }

  lemma Append(a: string, c: char, b: string)
    ensures a + [c] + b == a + ([c] + b)
  {
  }

  /** What is read from the start is the buffer, and what the rest still reads as. */
  ghost predicate SoFar(all: (string, nat), blob: string, start: nat, buf: string, j: nat, depth: nat) {
    && start <= j <= |blob|
    && all ==
       if depth == 0 then (buf, j - start)
       else (buf + Inside(blob[j..], depth).0, j - start + Inside(blob[j..], depth).1)
  }

  lemma TakenNone(blob: string, start: nat) returns (all: (string, nat))
    requires start <= |blob|
    ensures all == Inside(blob[start..], 1) && SoFar(all, blob, start, "", start, 1)
  {
    all := Inside(blob[start..], 1);
    assert "" + all.0 == all.0;
  }

  lemma TakesEscaped(all: (string, nat), blob: string, start: nat, buf: string, j: nat, depth: nat)
    requires SoFar(all, blob, start, buf, j, depth) && depth > 0 && j + 1 < |blob| && blob[j] == '\\'
    ensures SoFar(all, blob, start, buf + [blob[j + 1]], j + 2, depth)
  {
    InsideHere(blob, j, depth);
    Append(buf, blob[j + 1], Inside(blob[j + 2..], depth).0);
  }

  lemma TakesClosing(all: (string, nat), blob: string, start: nat, buf: string, j: nat)
    requires SoFar(all, blob, start, buf, j, 1) && j < |blob| && blob[j] == ')'
    ensures SoFar(all, blob, start, buf, j, 0)
  {
    InsideHere(blob, j, 1);
    assert buf + "" == buf;
  }

  lemma TakesPlain(all: (string, nat), blob: string, start: nat, buf: string, j: nat, depth: nat, depth': nat)
    requires SoFar(all, blob, start, buf, j, depth) && depth > 0 && j < |blob| && !(blob[j] == '\\' && j + 1 < |blob|)
    requires depth' == Deeper(blob[j], depth) > 0
    ensures SoFar(all, blob, start, buf + [blob[j]], j + 1, depth')
  {
    InsideHere(blob, j, depth);
    Append(buf, blob[j], Inside(blob[j + 1..], depth').0);
  }

  lemma TakesAll(all: (string, nat), blob: string, start: nat, buf: string, depth: nat)
    requires SoFar(all, blob, start, buf, |blob|, depth)
    ensures SoFar(all, blob, start, buf, |blob|, 0)
  {
    assert buf + "" == buf;
  }

  /** What the inner loop does with a character that is not escaped: at the closing parenthesis it stops there. */
  method TakeChar(ghost all: (string, nat), blob: string, ghost start: nat, buf: string, j: nat, depth: nat)
    returns (buf': string, j': nat, depth': nat)
    requires SoFar(all, blob, start, buf, j, depth) && depth > 0 && j < |blob| && !(blob[j] == '\\' && j + 1 < |blob|)
    ensures SoFar(all, blob, start, buf', j', depth') && j' == if depth' == 0 then j else j + 1
  {
    depth' := depth;
    if blob[j] == '(' {
      depth' := depth + 1;
    } else if blob[j] == ')' {
      depth' := depth - 1;
      if depth' == 0 {
        TakesClosing(all, blob, start, buf, j);
        return buf, j, depth';
      }
    }
    TakesPlain(all, blob, start, buf, j, depth, depth');
    return buf + [blob[j]], j + 1, depth';
  }

  /** The inner loop: from just after the open parenthesis to the one that closes it, or the end. */
  method ReadString(blob: string, start: nat) returns (buf: string, j: nat)
    requires start <= |blob|
    ensures start <= j <= |blob|
    ensures Inside(blob[start..], 1) == (buf, j - start)
  {
    var depth := 1;
    j := start;
    buf := "";
    ghost var all := TakenNone(blob, start);
    while j < |blob| && depth > 0
      invariant SoFar(all, blob, start, buf, j, depth)
      decreases |blob| - j, depth
    {
      if blob[j] == '\\' && j + 1 < |blob| {
        TakesEscaped(all, blob, start, buf, j, depth);
        buf := buf + [blob[j + 1]];
        j := j + 2;
      } else {
        buf, j, depth := TakeChar(all, blob, start, buf, j, depth);
      }
    }
    if j == |blob| {
      TakesAll(all, blob, start, buf, depth);
    }
  }

  /** What has been read and what is still there are all the strings. */
  ghost predicate Collected(all: seq<string>, blob: string, out: seq<string>, i: nat) {
    all == out + Remaining(blob, i)
  }

  lemma CollectsString(
      all: seq<string>, blob: string, out: seq<string>, i: nat, start: nat, buf: string, j: nat, out': seq<string>, i': nat)
    requires start == i + 1 && start <= j <= |blob| && i' == j + 1 && blob[i] == '(' && Collected(all, blob, out, i)
    requires Inside(blob[start..], 1) == (buf, j - start) && out' == out + [buf]
    ensures Collected(all, blob, out', i')
  {
    StringsTakeHere(blob, i, start, buf, j, i');
    OneAtATime(all, out, buf, Remaining(blob, i), Remaining(blob, i'), out');
  }

  lemma OneAtATime(all: seq<string>, out: seq<string>, buf: string, rest: seq<string>, rest': seq<string>, out': seq<string>)
    requires all == out + rest && rest == [buf] + rest' && out' == out + [buf]
    ensures all == out' + rest'
  {
  }

  lemma CollectsNothing(all: seq<string>, blob: string, out: seq<string>, i: nat)
    requires i < |blob| && blob[i] != '(' && Collected(all, blob, out, i)
    ensures Collected(all, blob, out, i + 1)
  {
    StringsSkipHere(blob, i);
  }

  lemma CollectedNone(blob: string) returns (all: seq<string>)
    ensures all == Strings(blob) && Collected(all, blob, [], 0)
  {
    all := Strings(blob);
    assert blob[0..] == blob && [] + Remaining(blob, 0) == Strings(blob);
  }

  lemma CollectedAll(all: seq<string>, blob: string, out: seq<string>, i: nat)
    requires Collected(all, blob, out, i) && i >= |blob|
    ensures out == all
  {
    assert Remaining(blob, i) == [] && out + [] == out;
  }

  /** One string, or one character outside any. */
  method ReadNext(ghost all: seq<string>, blob: string, out: seq<string>, i: nat) returns (out': seq<string>, i': nat)
    requires i < |blob| && Collected(all, blob, out, i)
    ensures i < i' && Collected(all, blob, out', i')
  {
    if blob[i] != '(' {
      CollectsNothing(all, blob, out, i);
      return out, i + 1;
    }
    var start := i + 1;
    var buf, j := ReadString(blob, start);
    out', i' := out + [buf], j + 1;
    CollectsString(all, blob, out, i, start, buf, j, out', i');
  }

  /** `parenthesised` */
  method Parenthesised(blob: string) returns (out: seq<string>)
    ensures out == Strings(blob)
  {
    out := [];
    var i: nat := 0;
    ghost var all := CollectedNone(blob);
    while i < |blob|
      invariant Collected(all, blob, out, i)
      decreases |blob| - i
    {
      out, i := ReadNext(all, blob, out, i);
    }
    CollectedAll(all, blob, out, i);
  }

  // ---- how strings are written ----

  /** A character written with a backslash before it, or as it stands. */
  datatype Token = Escaped(c: char) | Plain(c: char)

  function Write(tokens: seq<Token>): string {
    if tokens == [] then ""
    else Spelled(tokens[0]) + Write(tokens[1..])
  }

  function Chars(tokens: seq<Token>): string {
    if tokens == [] then "" else [tokens[0].c] + Chars(tokens[1..])
  }

  /** Backslashes are escaped, and the parentheses that are not close all `depth` that are open but the string's own. */
  predicate Closes(tokens: seq<Token>, depth: nat)
    requires depth > 0
  {
    if tokens == [] then depth == 1
    else
      match tokens[0]
      case Escaped(_) => Closes(tokens[1..], depth)
      case Plain(c) => c != '\\' && !(c == ')' && depth == 1) && Closes(tokens[1..], Deeper(c, depth))
  }

  /** A token as it is written. */
  function Spelled(t: Token): string {
    if t.Escaped? then ['\\', t.c] else [t.c]
  }

  lemma WriteSplits(tokens: seq<Token>, rest: string) returns (s: string, tail: string)
    requires tokens != []
    ensures s == Write(tokens) + ")" + rest && tail == Write(tokens[1..]) + ")" + rest
    ensures s == Spelled(tokens[0]) + tail
  {
    s, tail := Write(tokens) + ")" + rest, Write(tokens[1..]) + ")" + rest;
  }

  lemma InsideEscaped(c: char, s: string, tail: string, depth: nat, text: string, n: nat)
    requires depth > 0 && s == Spelled(Escaped(c)) + tail && Inside(tail, depth) == (text, n)
    ensures Inside(s, depth) == ([c] + text, 2 + n)
  {
    assert s[2..] == tail;
  }

  lemma PlainInFront(c: char, s: string, tail: string)
    requires s == Spelled(Plain(c)) + tail
    ensures s != "" && s[0] == c && s[1..] == tail
  {
  }

  lemma InsideStep(s: string, depth: nat, text: string, n: nat)
    requires depth > 0 && s != "" && s[0] != '\\' && !(s[0] == ')' && depth == 1)
    requires Inside(s[1..], Deeper(s[0], depth)) == (text, n)
    ensures Inside(s, depth) == ([s[0]] + text, 1 + n)
  {
  }

  lemma InsidePlain(c: char, s: string, tail: string, depth: nat, depth': nat, text: string, n: nat)
    requires depth > 0 && c != '\\' && !(c == ')' && depth == 1) && s == Spelled(Plain(c)) + tail
    requires depth' == Deeper(c, depth) && Inside(tail, depth') == (text, n)
    ensures Inside(s, depth) == ([c] + text, 1 + n)
  {
    PlainInFront(c, s, tail);
    InsideStep(s, depth, text, n);
  }

  lemma CountOneMore(tokens: seq<Token>)
    requires tokens != []
    ensures Chars(tokens) == [tokens[0].c] + Chars(tokens[1..]) && |Write(tokens)| == |Spelled(tokens[0])| + |Write(tokens[1..])|
  {
  }

  /** What is written so and closed is read back, and ends where it was closed. */
  lemma {:induction false} WrittenIsRead(tokens: seq<Token>, depth: nat, rest: string)
    requires depth > 0 && Closes(tokens, depth)
    ensures Inside(Write(tokens) + ")" + rest, depth) == (Chars(tokens), |Write(tokens)|)
    decreases |tokens|
  {
    if tokens == [] {
      assert (Write(tokens) + ")" + rest)[0] == ')';
    } else {
      var t, others := tokens[0], tokens[1..];
      var s, tail := WriteSplits(tokens, rest);
      CountOneMore(tokens);
      if t.Escaped? {
        WrittenIsRead(others, depth, rest);
        InsideEscaped(t.c, s, tail, depth, Chars(others), |Write(others)|);
      } else {
        WrittenIsRead(others, Deeper(t.c, depth), rest);
        InsidePlain(t.c, s, tail, depth, Deeper(t.c, depth), Chars(others), |Write(others)|);
      }
    }
  }

  lemma TakeMore(a: string, s: string, n: nat)
    requires n <= |s|
    ensures (a + s)[..|a| + n] == a + s[..n]
  {
  }

  ghost predicate ReadsTokens(s: string, depth: nat, tokens: seq<Token>)
    requires depth > 0
  {
    Closes(tokens, depth) && Write(tokens) == s[..Inside(s, depth).1] && Chars(tokens) == Inside(s, depth).0
  }

  lemma ReadsEscaped(s: string, depth: nat, tail: seq<Token>)
    requires depth > 0 && |s| > 1 && s[0] == '\\' && ReadsTokens(s[2..], depth, tail)
    ensures ReadsTokens(s, depth, [Escaped(s[1])] + tail)
  {
    WriteOneMore(Escaped(s[1]), tail);
    assert s == ['\\', s[1]] + s[2..];
    TakeMore(['\\', s[1]], s[2..], |Write(tail)|);
  }

  lemma ReadsPlain(s: string, depth: nat, tail: seq<Token>)
    requires depth > 0 && s != "" && s[0] != '\\' && !(s[0] == ')' && depth == 1)
    requires ReadsTokens(s[1..], Deeper(s[0], depth), tail)
    ensures ReadsTokens(s, depth, [Plain(s[0])] + tail)
  {
    WriteOneMore(Plain(s[0]), tail);
    assert s == [s[0]] + s[1..];
    TakeMore([s[0]], s[1..], |Write(tail)|);
  }

  /** And everything that is read up to a closing parenthesis was written so. */
  lemma {:induction false} ReadWasWritten(s: string, depth: nat) returns (tokens: seq<Token>)
    requires depth > 0 && Inside(s, depth).1 < |s|
    ensures Closes(tokens, depth)
    ensures Write(tokens) == s[..Inside(s, depth).1] && Chars(tokens) == Inside(s, depth).0
    decreases |s|
  {
    if s[0] == '\\' && |s| > 1 {
      var tail := ReadWasWritten(s[2..], depth);
      ReadsEscaped(s, depth, tail);
      tokens := [Escaped(s[1])] + tail;
    } else if s[0] == ')' && depth == 1 {
      tokens := [];
    } else {
      var tail := ReadWasWritten(s[1..], Deeper(s[0], depth));
      ReadsPlain(s, depth, tail);
      tokens := [Plain(s[0])] + tail;
    }
  }

  lemma WriteOneMore(t: Token, tail: seq<Token>)
    ensures Write([t] + tail) == Spelled(t) + Write(tail)
    ensures Chars([t] + tail) == [t.c] + Chars(tail)
    ensures ([t] + tail)[0] == t && ([t] + tail)[1..] == tail
  {
  }

  // ---- a stream of strings ----

  /** A string, and the text in front of it. */
  datatype Piece = Piece(before: string, content: seq<Token>)

  predicate NoOpen(s: string) {
    forall i :: 0 <= i < |s| ==> s[i] != '('
  }

  predicate PieceOk(p: Piece) {
    NoOpen(p.before) && Closes(p.content, 1)
  }

  function WriteStream(pieces: seq<Piece>, tail: string): string {
    if pieces == [] then tail
    else pieces[0].before + ("(" + (Write(pieces[0].content) + ")" + WriteStream(pieces[1..], tail)))
  }

  function Contents(pieces: seq<Piece>): seq<string> {
    if pieces == [] then [] else [Chars(pieces[0].content)] + Contents(pieces[1..])
  }

  lemma {:induction false} SkipsText(before: string, rest: string)
    requires NoOpen(before)
    ensures Strings(before + rest) == Strings(rest)
  {
    if before == "" {
      assert before + rest == rest;
    } else {
      assert (before + rest)[1..] == before[1..] + rest;
      SkipsText(before[1..], rest);
    }
  }

  lemma StringsOf(s: string, inner: string, text: string, n: nat, rest: string)
    requires s != "" && s[0] == '(' && s[1..] == inner && Inside(inner, 1) == (text, n)
    requires n + 2 <= |s| && s[n + 2..] == rest
    ensures Strings(s) == [text] + Strings(rest)
  {
  }

  lemma AfterClosing(written: string, rest: string) returns (s: string, inner: string)
    ensures s == "(" + (written + (")" + rest)) && inner == written + ")" + rest && s != "" && s[0] == '(' && s[1..] == inner
    ensures |written| + 2 <= |s| && s[|written| + 2..] == rest
  {
    inner := written + ")" + rest;
    s := "(" + (written + (")" + rest));
  }

  lemma OneString(content: seq<Token>, rest: string)
    requires Closes(content, 1)
    ensures Strings("(" + (Write(content) + ")" + rest)) == [Chars(content)] + Strings(rest)
  {
    var s, inner := AfterClosing(Write(content), rest);
    WrittenIsRead(content, 1, rest);
    StringsOf(s, inner, Chars(content), |Write(content)|, rest);
  }

  /** Exactly the strings that were written are read, whatever stands between them. */
  lemma {:induction false} StreamReadsBack(pieces: seq<Piece>, tail: string)
    requires NoOpen(tail) && forall i :: 0 <= i < |pieces| ==> PieceOk(pieces[i])
    ensures Strings(WriteStream(pieces, tail)) == Contents(pieces)
  {
    if pieces == [] {
      SkipsText(tail, "");
      assert tail + "" == tail;
    } else {
      var p := pieces[0];
      assert PieceOk(p);
      var rest := WriteStream(pieces[1..], tail);
      StreamReadsBack(pieces[1..], tail);
      SkipsText(p.before, "(" + (Write(p.content) + ")" + rest));
      OneString(p.content, rest);
    }
  }

  // ---- the two ways of writing parentheses ----

  /** Backslash and both parentheses escaped, everything else as it stands. */
  function EscapeAll(text: string): seq<Token> {
    if text == "" then []
    else [if text[0] in "\\()" then Escaped(text[0]) else Plain(text[0])] + EscapeAll(text[1..])
  }

  function AsItStands(text: string): seq<Token> {
    if text == "" then [] else [Plain(text[0])] + AsItStands(text[1..])
  }

  /** No backslash, and parentheses that match. */
  predicate Balanced(text: string, depth: nat)
    requires depth > 0
  {
    if text == "" then depth == 1
    else text[0] != '\\' && !(text[0] == ')' && depth == 1) && Balanced(text[1..], Deeper(text[0], depth))
  }

  lemma {:induction false} EscapedCloses(text: string)
    ensures Closes(EscapeAll(text), 1) && Chars(EscapeAll(text)) == text
  {
    if text != "" {
      EscapedCloses(text[1..]);
      var t := if text[0] in "\\()" then Escaped(text[0]) else Plain(text[0]);
      WriteOneMore(t, EscapeAll(text[1..]));
    }
  }

  lemma {:induction false} BalancedCloses(text: string, depth: nat)
    requires depth > 0
    ensures Closes(AsItStands(text), depth) <==> Balanced(text, depth)
  {
    if text != "" {
      var tokens := AsItStands(text);
      assert tokens[0] == Plain(text[0]) && tokens[1..] == AsItStands(text[1..]);
      var depth' := Deeper(text[0], depth);
      if depth' > 0 {
        BalancedCloses(text[1..], depth');
      }
    }
  }

  lemma {:induction false} WrittenAsItStands(text: string)
    ensures Write(AsItStands(text)) == text == Chars(AsItStands(text))
  {
    if text != "" {
      WrittenAsItStands(text[1..]);
      WriteOneMore(Plain(text[0]), AsItStands(text[1..]));
    }
  }

  /** Each text escaped, with its own text in front. */
  function EscapedPieces(texts: seq<string>, before: seq<string>): (r: seq<Piece>)
    requires |texts| == |before|
    ensures |r| == |texts| && forall i :: 0 <= i < |r| ==> r[i] == Piece(before[i], EscapeAll(texts[i]))
  {
    seq(|texts|, i requires 0 <= i < |texts| => Piece(before[i], EscapeAll(texts[i])))
  }

  lemma {:induction false} ContentsAre(pieces: seq<Piece>, texts: seq<string>)
    requires |pieces| == |texts| && forall i :: 0 <= i < |pieces| ==> Chars(pieces[i].content) == texts[i]
    ensures Contents(pieces) == texts
  {
    if pieces != [] {
      ContentsAre(pieces[1..], texts[1..]);
      assert texts == [texts[0]] + texts[1..];
    }
  }

  /** Any texts, escaped, are read back, whatever text without an open parenthesis stands around them. */
  lemma EscapingIsUndone(texts: seq<string>, before: seq<string>, tail: string)
    requires |texts| == |before| && NoOpen(tail) && forall i :: 0 <= i < |before| ==> NoOpen(before[i])
    ensures Strings(WriteStream(EscapedPieces(texts, before), tail)) == texts
  {
    var pieces := EscapedPieces(texts, before);
    forall i | 0 <= i < |pieces|
      ensures PieceOk(pieces[i]) && Chars(pieces[i].content) == texts[i]
    {
      EscapedCloses(texts[i]);
    }
    StreamReadsBack(pieces, tail);
    ContentsAre(pieces, texts);
  }

  /** Matching parentheses need no escape: they are kept as they stand. */
  lemma NestingIsKept(before: string, text: string, tail: string)
    requires NoOpen(before) && NoOpen(tail) && Balanced(text, 1)
    ensures Strings(before + ("(" + (text + ")" + tail))) == [text]
  {
    BalancedCloses(text, 1);
    WrittenAsItStands(text);
    SkipsText(before, "(" + (text + ")" + tail));
    OneString(AsItStands(text), tail);
    SkipsText(tail, "");
    assert tail + "" == tail;
  }
}
