/**
 * The token text of apps/web/lib/auth.ts: base64url without padding (section 5 of RFC 4648),
 * made from btoa and read with atob.
 */
module Base64Url {
  import opened Prelude

  type Byte = b: int | 0 <= b < 256

  type Sextet = k: int | 0 <= k < 64

  // ---- the alphabet ----

  /** The standard alphabet (table 1 of RFC 4648). */
  function CharOf(k: Sextet): char {
    if k < 26 then 'A' + (k as char)
    else if k < 52 then 'a' + ((k - 26) as char)
    else if k < 62 then '0' + ((k - 52) as char)
    else if k == 62 then '+' else '/'
  }

  predicate InAlphabet(c: char) {
    'A' <= c <= 'Z' || 'a' <= c <= 'z' || '0' <= c <= '9' || c == '+' || c == '/'
  }

  function ValueOf(c: char): Sextet
    requires InAlphabet(c)
  {
    if 'A' <= c <= 'Z' then (c - 'A') as int
    else if 'a' <= c <= 'z' then (c - 'a') as int + 26
    else if '0' <= c <= '9' then (c - '0') as int + 52
    else if c == '+' then 62 else 63
  }

  function ToUrl(c: char): char {
    if c == '+' then '-' else if c == '/' then '_' else c
  }

  function FromUrl(c: char): char {
    if c == '-' then '+' else if c == '_' then '/' else c
  }

  function MapText(s: string, f: char -> char): (r: string)
    ensures |r| == |s| && forall i :: 0 <= i < |s| ==> r[i] == f(s[i])
  {
    seq(|s|, i requires 0 <= i < |s| => f(s[i]))
  }

  // ---- bytes and sextets ----

  // The four sextets of three bytes, and the three bytes of four sextets.

  function Sextet0(a: Byte): Sextet {
    var n: int := a;
    n / 4
  }

  function Sextet1(a: Byte, b: Byte): Sextet {
    var m: int, n: int := a, b;
    (m % 4) * 16 + n / 16
  }

  function Sextet2(b: Byte, c: Byte): Sextet {
    var m: int, n: int := b, c;
    (m % 16) * 4 + n / 64
  }

  function Sextet3(c: Byte): Sextet {
    var n: int := c;
    n % 64
  }

  function Byte0(j: Sextet, k: Sextet): Byte {
    var m: int, n: int := j, k;
    m * 4 + n / 16
  }

  function Byte1(j: Sextet, k: Sextet): Byte {
    var m: int, n: int := j, k;
    (m % 16) * 16 + n / 4
  }

  function Byte2(j: Sextet, k: Sextet): Byte {
    var m: int, n: int := j, k;
    (m % 4) * 64 + n
  }

  function ToSextets(bytes: seq<Byte>): seq<Sextet> {
    if bytes == [] then []
    else if |bytes| == 1 then [Sextet0(bytes[0]), Sextet1(bytes[0], 0)]
    else if |bytes| == 2 then [Sextet0(bytes[0]), Sextet1(bytes[0], bytes[1]), Sextet2(bytes[1], 0)]
    else
      [Sextet0(bytes[0]), Sextet1(bytes[0], bytes[1]), Sextet2(bytes[1], bytes[2]), Sextet3(bytes[2])] + ToSextets(bytes[3..])
  }

  /** Leftover bits that do not make a byte are dropped. */
  function FromSextets(ks: seq<Sextet>): seq<Byte> {
    if |ks| < 2 then []
    else if |ks| == 2 then [Byte0(ks[0], ks[1])]
    else if |ks| == 3 then [Byte0(ks[0], ks[1]), Byte1(ks[1], ks[2])]
    else [Byte0(ks[0], ks[1]), Byte1(ks[1], ks[2]), Byte2(ks[2], ks[3])] + FromSextets(ks[4..])
  }

  lemma GroupRoundTrip(a: Byte, b: Byte, c: Byte)
    ensures Byte0(Sextet0(a), Sextet1(a, b)) == a
    ensures Byte1(Sextet1(a, b), Sextet2(b, c)) == b
    ensures Byte2(Sextet2(b, c), Sextet3(c)) == c
  {
  }

  lemma {:induction false} SextetsRoundTrip(bytes: seq<Byte>)
    ensures FromSextets(ToSextets(bytes)) == bytes
  {
    if |bytes| == 1 {
      GroupRoundTrip(bytes[0], 0, 0);
    } else if |bytes| == 2 {
      GroupRoundTrip(bytes[0], bytes[1], 0);
    } else if |bytes| >= 3 {
      var a, b, c, rest := bytes[0], bytes[1], bytes[2], bytes[3..];
      SextetsRoundTrip(rest);
      GroupRoundTrip(a, b, c);
      assert ToSextets(bytes)[4..] == ToSextets(rest);
      assert bytes == [a, b, c] + rest;
    }
  }

  lemma {:induction false} SextetCount(bytes: seq<Byte>)
    ensures |ToSextets(bytes)| % 4 == if |bytes| % 3 == 0 then 0 else |bytes| % 3 + 1
    ensures |ToSextets(bytes)| % 4 != 1
  {
    if |bytes| >= 3 {
      var rest := bytes[3..];
      SextetCount(rest);
      FourMoreForThree(|rest|, |ToSextets(rest)|, |bytes|, |ToSextets(bytes)|);
    }
  }

  lemma FourMoreForThree(n: nat, m: nat, n': nat, m': nat)
    requires m % 4 == (if n % 3 == 0 then 0 else n % 3 + 1) && n' == n + 3 && m' == m + 4
    ensures m' % 4 == if n' % 3 == 0 then 0 else n' % 3 + 1
    ensures m' % 4 != 1
  {
  }

  /** What so many digits make, in some base. */
  function Number(digits: seq<int>, base: int): int
    decreases |digits|
  {
    if digits == [] then 0 else Number(digits[..|digits| - 1], base) * base + digits[|digits| - 1]
  }

  lemma NumberOfTwo(a: int, b: int, base: int)
    ensures Number([a, b], base) == a * base + b
  {
    assert [a, b][..1] == [a] && [a][..0] == [];
    assert Number([a], base) == Number([], base) * base + a;
  }

  lemma NumberOfThree(a: int, b: int, c: int, base: int)
    ensures Number([a, b, c], base) == (a * base + b) * base + c
  {
    NumberOfTwo(a, b, base);
    assert [a, b, c][..2] == [a, b];
  }

  lemma NumberOfFour(a: int, b: int, c: int, d: int, base: int)
    ensures Number([a, b, c, d], base) == ((a * base + b) * base + c) * base + d
  {
    NumberOfThree(a, b, c, base);
    assert [a, b, c, d][..3] == [a, b, c];
  }

  /** Three bytes and four sextets are the same number; so are the shorter ends, filled up with zero bits. */
  lemma GroupIsTheNumber(a: Byte, b: Byte, c: Byte)
    ensures Number(ToSextets([a, b, c]), 64) == Number([a, b, c], 256) && |ToSextets([a, b, c])| == 4
    ensures Number(ToSextets([a, b]), 64) == Number([a, b], 256) * 4 && |ToSextets([a, b])| == 3
    ensures Number(ToSextets([a]), 64) == a as int * 16 && |ToSextets([a])| == 2
  {
    assert ToSextets([a, b, c]) == [Sextet0(a), Sextet1(a, b), Sextet2(b, c), Sextet3(c)] + ToSextets([]);
    assert ToSextets([a, b, c]) == [Sextet0(a), Sextet1(a, b), Sextet2(b, c), Sextet3(c)];
    SextetsAre(a, b, c);
    SextetsAre(a, b, 0);
    SextetsAre(a, 0, 0);
    NumberOfTwo(a, b, 256);
    NumberOfThree(a, b, c, 256);
    NumberOfFour(Sextet0(a), Sextet1(a, b), Sextet2(b, c), Sextet3(c), 64);
    NumberOfThree(Sextet0(a), Sextet1(a, b), Sextet2(b, 0), 64);
    NumberOfTwo(Sextet0(a), Sextet1(a, 0), 64);
  }

  lemma SextetsAre(a: Byte, b: Byte, c: Byte)
    ensures var j: int, k: int, l: int, m: int := Sextet0(a), Sextet1(a, b), Sextet2(b, c), Sextet3(c);
            var x: int, y: int, z: int := a, b, c;
            && ((j * 64 + k) * 64 + l) * 64 + m == (x * 256 + y) * 256 + z
            && (c == 0 ==> m == 0) && (b == 0 && c == 0 ==> l == 0)
  {
    var x: int, y: int, z: int := a, b, c;
    assert x == 4 * (x / 4) + x % 4 && y == 16 * (y / 16) + y % 16 && z == 64 * (z / 64) + z % 64;
  }

  /** The two alphabets, tables 1 and 2 of RFC 4648: capitals, small letters, digits, and two more. */
  lemma AlphabetsAre(k: Sextet)
    ensures CharOf(0) == 'A' && CharOf(26) == 'a' && CharOf(52) == '0' && CharOf(62) == '+' && CharOf(63) == '/'
    ensures k < 62 && k != 25 && k != 51 && k != 61 ==> CharOf(k + 1) as int == CharOf(k) as int + 1
    ensures ToUrl(CharOf(k)) == if k == 62 then '-' else if k == 63 then '_' else CharOf(k)
  {
  }

  // ---- btoa and atob ----

  function Chars(ks: seq<Sextet>): (s: string)
    ensures |s| == |ks| && forall i :: 0 <= i < |ks| ==> s[i] == CharOf(ks[i])
  {
    seq(|ks|, i requires 0 <= i < |ks| => CharOf(ks[i]))
  }

  function Padding(n: nat): string {
    if n == 0 then "" else "=" + Padding(n - 1)
  }

  /** btoa: groups of four, the last one filled up with "=". */
  function Btoa(bytes: seq<Byte>): string {
    Chars(ToSextets(bytes)) + Padding(if |bytes| % 3 == 0 then 0 else 3 - |bytes| % 3)
  }

  predicate IsAsciiSpace(c: char) {
    c == ' ' || c == '\t' || c == '\n' || c == '\U{000C}' || c == '\r'
  }

  function WithoutSpaces(s: string): string {
    Filter(s, (c: char) => !IsAsciiSpace(c))
  }

  predicate EndsWithPad(s: string) {
    s != "" && s[|s| - 1] == '='
  }

  function DropLast(s: string): string
    requires s != ""
  {
    s[..|s| - 1]
  }

  /** At most two, and only from a text whose length is a multiple of four. */
  function Unpadded(s: string): string {
    if |s| % 4 == 0 && EndsWithPad(s) then
      var s' := DropLast(s);
      if EndsWithPad(s') then DropLast(s') else s'
    else s
  }

  predicate AllInAlphabet(s: string) {
    forall i :: 0 <= i < |s| ==> InAlphabet(s[i])
  }

  function Values(s: string): (ks: seq<Sextet>)
    requires AllInAlphabet(s)
    ensures |ks| == |s| && forall i :: 0 <= i < |s| ==> ks[i] == ValueOf(s[i])
  {
    seq(|s|, i requires 0 <= i < |s| => ValueOf(s[i]))
  }

  /** atob: None where it throws. */
  function Atob(data: string): Option<seq<Byte>> {
    var s := Unpadded(WithoutSpaces(data));
    if |s| % 4 == 1 || !AllInAlphabet(s) then None else Some(FromSextets(Values(s)))
  }

  /** What atob reads of a text without white space and padding: characters of its alphabet, with no lone one left over. */
  lemma AtobReadsExactly(data: string)
    requires forall i :: 0 <= i < |data| ==> data[i] !in " \t\n\r\U{000C}="
    ensures Atob(data).Some? <==> |data| % 4 != 1 && AllInAlphabet(data)
  {
    NothingToDrop(data);
  }

  /** atob does not see ASCII white space. */
  lemma AtobSkipsSpaces(a: string, b: string, c: char)
    requires c in " \t\n\r\U{000C}"
    ensures Atob(a + [c] + b) == Atob(a + b)
  {
    var keep := (c: char) => !IsAsciiSpace(c);
    FilterSplits(a + [c], b, keep);
    FilterSplits(a, [c], keep);
    FilterSplits(a, b, keep);
    assert Filter([c], keep) == [];
    assert Filter(a, keep) + [] == Filter(a, keep);
  }

  lemma {:induction false} FilterSplits(a: string, b: string, keep: char -> bool)
    ensures Filter(a + b, keep) == Filter(a, keep) + Filter(b, keep)
  {
    if a == "" {
      assert a + b == b;
    } else {
      assert (a + b)[1..] == a[1..] + b;
      FilterSplits(a[1..], b, keep);
    }
  }

  // ---- b64url and fromB64url ----

  /** `.replace(/=+$/, "")` */
  function StripPads(s: string): string
    decreases |s|
  {
    if EndsWithPad(s) then StripPads(DropLast(s)) else s
  }

  /** What b64url gives, said directly: one character of the url alphabet a sextet, and no padding. */
  function UrlText(bytes: seq<Byte>): string {
    MapText(Chars(ToSextets(bytes)), ToUrl)
  }

  function PadsFor(length: nat): nat {
    if length % 4 == 0 then 0 else 4 - length % 4
  }

  /** So many pads, and no fewer, make the length a multiple of four. */
  lemma PadsToFour(length: nat, k: nat)
    requires k <= PadsFor(length)
    ensures (length + k) % 4 == 0 <==> k == PadsFor(length)
  {
  }

  function Padded(s: string): string {
    s + Padding(PadsFor(|s|))
  }

  function ReadUrlText(s: string): Option<seq<Byte>> {
    Atob(Padded(MapText(s, FromUrl)))
  }

  method B64Url(bytes: seq<Byte>) returns (s: string)
    ensures s == UrlText(bytes)
  {
    var binary: seq<Byte> := [];
    for i := 0 to |bytes|
      invariant binary == bytes[..i]
    {
      binary := binary + [bytes[i]];
    }
    assert binary == bytes;
    s := StripPads(MapText(Btoa(binary), ToUrl));
    StrippedBtoa(bytes);
  }

  /** `while (s.length % 4) s += "="` */
  method PadToFour(start: string) returns (s: string)
    ensures s == Padded(start)
  {
    s := start;
    ghost var k := 0;
    PadsToFour(|start|, k);
    assert start + Padding(0) == start;
    while |s| % 4 != 0
      invariant 0 <= k <= PadsFor(|start|) && s == start + Padding(k) && |s| == |start| + k
      decreases PadsFor(|start|) - k
    {
      PadsToFour(|start|, k);
      PaddingGrows(k);
      Grow(start, k);
      s, k := s + "=", k + 1;
    }
    PadsToFour(|start|, k);
  }

  lemma Grow(start: string, k: nat)
    requires Padding(k) + "=" == Padding(k + 1)
    ensures start + Padding(k) + "=" == start + Padding(k + 1)
  {
  }

  method FromB64Url(text: string) returns (out: Option<seq<Byte>>)
    ensures out == ReadUrlText(text)
  {
    var s := PadToFour(MapText(text, FromUrl));
    var bin := Atob(s);
    if bin.None? {
      return None;
    }
    var bytes := CharCodes(bin.value);
    return Some(bytes[..]);
  }

  /** Filling the byte array from the binary string. */
  method CharCodes(bin: seq<Byte>) returns (bytes: array<Byte>)
    ensures fresh(bytes) && bytes[..] == bin
  {
    bytes := new Byte[|bin|];
    for i := 0 to |bin|
      invariant bytes[..i] == bin[..i]
    {
      bytes[i] := bin[i];
    }
  }

  lemma {:induction false} PaddingGrows(n: nat)
    ensures Padding(n) + "=" == Padding(n + 1)
  {
    if n > 0 {
      PaddingGrows(n - 1);
      assert Padding(n) + "=" == "=" + (Padding(n - 1) + "=");
    }
  }

  lemma {:induction false} PaddingIsPads(n: nat)
    ensures |Padding(n)| == n && forall i :: 0 <= i < n ==> Padding(n)[i] == '='
  {
    if n > 0 {
      PaddingIsPads(n - 1);
    }
  }

  lemma {:induction false} StripOnlyPads(s: string, n: nat)
    requires !EndsWithPad(s)
    ensures StripPads(s + Padding(n)) == s
  {
    if n == 0 {
      assert s + Padding(0) == s;
    } else {
      PaddingGrows(n - 1);
      StripOnlyPads(s, n - 1);
      assert DropLast(s + Padding(n)) == s + Padding(n - 1);
    }
  }

  lemma CharsAreInAlphabet(k: Sextet)
    ensures InAlphabet(CharOf(k)) && ValueOf(CharOf(k)) == k
    ensures FromUrl(ToUrl(CharOf(k))) == CharOf(k)
    ensures ToUrl(CharOf(k)) != '=' && ToUrl(CharOf(k)) != '.'
  {
  }

  lemma UrlTextIsClean(bytes: seq<Byte>)
    ensures AllInAlphabet(Chars(ToSextets(bytes)))
    ensures forall i :: 0 <= i < |UrlText(bytes)| ==> UrlText(bytes)[i] != '=' && UrlText(bytes)[i] != '.'
    ensures MapText(UrlText(bytes), FromUrl) == Chars(ToSextets(bytes))
  {
    var ks := ToSextets(bytes);
    forall i | 0 <= i < |ks|
      ensures InAlphabet(Chars(ks)[i]) && UrlText(bytes)[i] != '=' && UrlText(bytes)[i] != '.'
      ensures FromUrl(UrlText(bytes)[i]) == Chars(ks)[i]
    {
      CharsAreInAlphabet(ks[i]);
    }
  }

  /** Encoding, replacing and stripping leave one url character a sextet. */
  lemma StrippedBtoa(bytes: seq<Byte>)
    ensures StripPads(MapText(Btoa(bytes), ToUrl)) == UrlText(bytes)
  {
    var n := if |bytes| % 3 == 0 then 0 else 3 - |bytes| % 3;
    UrlTextIsClean(bytes);
    PaddingIsPads(n);
    assert MapText(Btoa(bytes), ToUrl) == UrlText(bytes) + Padding(n);
    StripOnlyPads(UrlText(bytes), n);
  }

  lemma {:induction false} NothingToDrop(s: string)
    requires forall i :: 0 <= i < |s| ==> !IsAsciiSpace(s[i])
    ensures WithoutSpaces(s) == s
  {
    if s != "" {
      NothingToDrop(s[1..]);
      assert s == [s[0]] + s[1..];
    }
  }

  lemma UnpaddingUndoesPadding(s: string)
    requires AllInAlphabet(s) && |s| % 4 != 1
    ensures Unpadded(Padded(s)) == s && WithoutSpaces(Padded(s)) == Padded(s)
  {
    var n := PadsFor(|s|);
    PaddingIsPads(n);
    PadsToFour(|s|, PadsFor(|s|));
    NothingToDrop(Padded(s));
    UnpadPads(s, n);
  }

  lemma UnpadPads(s: string, n: nat)
    requires !EndsWithPad(s) && n <= 2 && (|s| + n) % 4 == 0
    ensures Unpadded(s + Padding(n)) == s
  {
    PaddingIsPads(n);
    var p := s + Padding(n);
    assert |p| == |s| + n;
    assert p[..|s|] == s;
    UnpadsTo(p, s);
  }

  lemma UnpadsTo(p: string, s: string)
    requires |p| % 4 == 0 && |s| <= |p| <= |s| + 2 && p[..|s|] == s && !EndsWithPad(s)
    requires forall i :: |s| <= i < |p| ==> p[i] == '='
    ensures Unpadded(p) == s
  {
    if |p| == |s| {
      assert p == s;
    } else if |p| == |s| + 1 {
      assert DropLast(p) == s;
    } else {
      assert DropLast(DropLast(p)) == s;
    }
  }

  /** A text without "=" and white space is read exactly when its characters are of either alphabet and no lone one is left over. */
  lemma TextIsReadExactly(text: string)
    requires forall i :: 0 <= i < |text| ==> text[i] !in " \t\n\r\U{000C}="
    ensures ReadUrlText(text).Some? <==>
            && |text| % 4 != 1
            && forall i :: 0 <= i < |text| ==>
                 || 'A' <= text[i] <= 'Z' || 'a' <= text[i] <= 'z' || '0' <= text[i] <= '9' || text[i] in "+/-_"
  {
    var s := MapText(text, FromUrl);
    var n := PadsFor(|s|);
    PaddingIsPads(n);
    PadsToFour(|s|, n);
    forall i | 0 <= i < |text|
      ensures s[i] != '=' && !IsAsciiSpace(s[i])
      ensures InAlphabet(s[i]) <==>
              || 'A' <= text[i] <= 'Z' || 'a' <= text[i] <= 'z' || '0' <= text[i] <= '9' || text[i] in "+/-_"
    {
    }
    NothingToDrop(Padded(s));
    if |s| % 4 != 1 {
      UnpadPads(s, n);
    } else {
      LoneOneStays(s);
    }
  }

  /** With one character over, three pads are put behind and two taken off: one is left, which is in no alphabet. */
  lemma LoneOneStays(s: string)
    requires |s| % 4 == 1 && !EndsWithPad(s)
    ensures !AllInAlphabet(Unpadded(Padded(s)))
  {
    PaddingIsPads(3);
    var p := s + Padding(3);
    assert DropLast(DropLast(p)) == s + "=";
    assert (s + "=")[|s|] == '=' && !InAlphabet('=');
  }

  /** fromB64url undoes b64url, for every byte sequence. */
  lemma Base64UrlRoundTrip(bytes: seq<Byte>)
    ensures ReadUrlText(UrlText(bytes)) == Some(bytes)
  {
    var ks := ToSextets(bytes);
    UrlTextIsClean(bytes);
    SextetsRoundTrip(bytes);
    SextetCount(bytes);
    ValuesOfChars(ks);
    AtobOfPadded(Chars(ks));
    assert MapText(UrlText(bytes), FromUrl) == Chars(ks);
  }

  lemma AtobOfPadded(s: string)
    requires AllInAlphabet(s) && |s| % 4 != 1
    ensures Atob(Padded(s)) == Some(FromSextets(Values(s)))
  {
    UnpaddingUndoesPadding(s);
  }

  lemma ValuesOfChars(ks: seq<Sextet>)
    requires AllInAlphabet(Chars(ks))
    ensures Values(Chars(ks)) == ks
  {
    forall i | 0 <= i < |ks|
      ensures Values(Chars(ks))[i] == ks[i]
    {
      CharsAreInAlphabet(ks[i]);
    }
    assert Values(Chars(ks)) == ks;
  }
}
