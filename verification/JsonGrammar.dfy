/** The grammar of RFC 8259 as a relation between texts and values, and the proof that the parser decides it. */
module JsonGrammar {
  import opened Wrappers
  import opened Json

  // ---------------------------------------------------------------- the grammar

  /** Section 2: insignificant whitespace. */
  predicate Spaces(t: string) {
    forall i | 0 <= i < |t| :: t[i] in {' ', '\t', '\n', '\r'}
  }

  /** A hexadecimal digit in either case and its value. */
  predicate HexDigitOf(d: char, n: nat) {
    || (n < 10 && d as int == '0' as int + n)
    || (10 <= n < 16 && (d as int == 'a' as int + (n - 10) || d as int == 'A' as int + (n - 10)))
  }

  /** Four hexadecimal digits, the highest first, and their value. */
  predicate HexQuad(t: string, n: nat) {
    && |t| == 4
    && HexDigitOf(t[0], n / 4096) && HexDigitOf(t[1], n / 256 % 16)
    && HexDigitOf(t[2], n / 16 % 16) && HexDigitOf(t[3], n % 16)
  }

  /** Section 7: the two-character escapes. */
  predicate ShortEscape(e: char, c: char) {
    || (e == '"' && c == '"') || (e == '\\' && c == '\\') || (e == '/' && c == '/')
    || (e == 'b' && c as int == 8) || (e == 'f' && c as int == 12)
    || (e == 'n' && c as int == 10) || (e == 'r' && c as int == 13) || (e == 't' && c as int == 9)
  }

  ghost predicate QuadText(t: string, n: nat) {
    exists q :: t == "\\u" + q && HexQuad(q, n)
  }

  /** Section 7: the spellings of a character in a string: itself, a short escape, four hexadecimal digits, or the
      surrogate pair of a character beyond the basic plane. */
  ghost predicate CharText(t: string, c: char) {
    || (t == [c] && c != '"' && c != '\\' && c as int >= 0x20)
    || (|t| == 2 && t[0] == '\\' && ShortEscape(t[1], c))
    || QuadText(t, c as int)
    || (c as int >= 0x1_0000
        && exists high, low :: t == high + low && QuadText(high, 0xD800 + (c as int - 0x1_0000) / 0x400)
                               && QuadText(low, 0xDC00 + (c as int - 0x1_0000) % 0x400))
  }

  ghost predicate CharsText(t: string, s: string)
    decreases |s|
  {
    if s == "" then t == ""
    else exists a, b :: t == a + b && CharText(a, s[0]) && CharsText(b, s[1..])
  }

  ghost predicate StringText(t: string, s: string) {
    exists u :: t == "\"" + u + "\"" && CharsText(u, s)
  }

  predicate Digits(t: string) {
    t != "" && forall i | 0 <= i < |t| :: '0' <= t[i] <= '9'
  }

  /** Section 6: no leading zeros. */
  predicate IntText(t: string) {
    Digits(t) && (t[0] == '0' ==> |t| == 1)
  }

  predicate FracText(t: string) {
    t == "" || (t[0] == '.' && Digits(t[1..]))
  }

  predicate ExpText(t: string) {
    t == "" || ((t[0] == 'e' || t[0] == 'E')
                && (Digits(t[1..]) || (|t| > 1 && (t[1] == '+' || t[1] == '-') && Digits(t[2..]))))
  }

  /** What a number token stands for: an integer if it has neither fraction nor exponent and fits 64 bits, signed or
      unsigned, and is not minus zero. */
  predicate NumberMeans(negative: bool, digits: string, whole: bool, v: Json)
    requires Digits(digits)
  {
    var n: int := NatOf(digits);
    if whole && !negative && n <= 0xFFFF_FFFF_FFFF_FFFF then v == Integer(n)
    else if whole && negative && 0 < n <= 0x8000_0000_0000_0000 then v == Integer(-n)
    else v == Decimal
  }

  ghost predicate UnsignedText(negative: bool, t: string, v: Json) {
    exists i, f, e :: t == i + f + e && IntText(i) && FracText(f) && ExpText(e)
                      && NumberMeans(negative, i, f == "" && e == "", v)
  }

  ghost predicate NumberText(t: string, v: Json) {
    UnsignedText(false, t, v) || (t != "" && t[0] == '-' && UnsignedText(true, t[1..], v))
  }

  /** Sections 3 to 7: a value without space around it. */
  ghost predicate ValueText(t: string, v: Json)
    decreases |t|, 0
  {
    match v
    case Null => t == "null"
    case Bool(b) => t == if b then "true" else "false"
    case Integer(_) => NumberText(t, v)
    case Decimal => NumberText(t, v)
    case Str(s) => StringText(t, s)
    case Array(items) =>
      exists u :: t == "[" + u + "]" && if items == [] then Spaces(u) else ItemsText(u, items)
    case Object(members) =>
      exists u :: t == "{" + u + "}" && if members == [] then Spaces(u) else MembersText(u, members)
  }

  /** Section 2: a value with space around it. */
  ghost predicate PaddedText(t: string, v: Json)
    decreases |t|, 1
  {
    exists a, b, c :: t == a + b + c && Spaces(a) && Spaces(c) && ValueText(b, v)
  }

  ghost predicate ItemsText(t: string, items: seq<Json>)
    decreases |t|, 2
  {
    && items != []
    && if |items| == 1 then PaddedText(t, items[0])
       else exists a, b :: t == a + "," + b && PaddedText(a, items[0]) && ItemsText(b, items[1..])
  }

  ghost predicate MemberText(t: string, m: Member)
    decreases |t|, 2
  {
    exists a, k, c, b ::
      t == a + k + c + ":" + b && Spaces(a) && Spaces(c) && StringText(k, m.key) && PaddedText(b, m.value)
  }

  ghost predicate MembersText(t: string, members: seq<Member>)
    decreases |t|, 3
  {
    && members != []
    && if |members| == 1 then MemberText(t, members[0])
       else exists a, b :: t == a + "," + b && MemberText(a, members[0]) && MembersText(b, members[1..])
  }

  // ---------------------------------------------------------------- what the parser takes is in the grammar

  lemma {:induction false} SkipSpaceSplits(t: string) returns (a: string)
    ensures t == a + SkipSpace(t) && Spaces(a)
    ensures SkipSpace(t) == "" || !IsSpace(SkipSpace(t)[0])
  {
    if t != "" && IsSpace(t[0]) {
      var rest := SkipSpaceSplits(t[1..]);
      a := [t[0]] + rest;
      assert t == [t[0]] + t[1..];
    } else {
      a := "";
    }
  }

  lemma HexValueOf(d: char)
    ensures HexValue(d).Some? ==> HexDigitOf(d, HexValue(d).value)
  {
  }

  lemma QuadDigits(a: nat, b: nat, c: nat, d: nat)
    requires a < 16 && b < 16 && c < 16 && d < 16
    ensures var n := a * 4096 + b * 256 + c * 16 + d;
            n / 4096 == a && n / 256 % 16 == b && n / 16 % 16 == c && n % 16 == d
  {
    var n := a * 4096 + b * 256 + c * 16 + d;
    assert n / 256 == a * 16 + b && n / 16 == a * 256 + b * 16 + c;
  }

  lemma Hex4Quad(t: string)
    requires Hex4(t).Some?
    ensures HexQuad(t[..4], Hex4(t).value)
  {
    HexValueOf(t[0]);
    HexValueOf(t[1]);
    HexValueOf(t[2]);
    HexValueOf(t[3]);
    QuadDigits(HexValue(t[0]).value, HexValue(t[1]).value, HexValue(t[2]).value, HexValue(t[3]).value);
  }

  lemma SurrogatePair(high: nat, low: nat)
    requires 0xD800 <= high < 0xDC00 && 0xDC00 <= low < 0xE000
    ensures var n := 0x1_0000 + (high - 0xD800) * 0x400 + (low - 0xDC00);
            && 0x1_0000 <= n < 0x11_0000
            && high == 0xD800 + (n - 0x1_0000) / 0x400 && low == 0xDC00 + (n - 0x1_0000) % 0x400
  {
  }

  lemma QuadFrom(q: string, n: nat)
    requires HexQuad(q, n)
    ensures QuadText("\\u" + q, n)
  {
  }

  lemma PairChar(high: string, low: string, c: char)
    requires c as int >= 0x1_0000
    requires QuadText(high, 0xD800 + (c as int - 0x1_0000) / 0x400)
    requires QuadText(low, 0xDC00 + (c as int - 0x1_0000) % 0x400)
    ensures CharText(high + low, c)
  {
  }

  /** What an escape that opens with a surrogate was read from. */
  lemma PairReads(t: string)
    requires ParseUnicodeEscape(t).Some? && 0xD800 <= Hex4(t).value < 0xE000
    ensures |t| >= 10 && t[4] == '\\' && t[5] == 'u' && Hex4(t).value < 0xDC00
    ensures Hex4(t[6..]).Some? && 0xDC00 <= Hex4(t[6..]).value < 0xE000
    ensures ParseUnicodeEscape(t).value.1 == t[10..]
    ensures ParseUnicodeEscape(t).value.0 as int
            == 0x1_0000 + (Hex4(t).value - 0xD800) * 0x400 + (Hex4(t[6..]).value - 0xDC00)
  {
  }

  lemma ParsePairSound(t: string) returns (a: string)
    requires ParseUnicodeEscape(t).Some? && 0xD800 <= Hex4(t).value < 0xE000
    ensures t == a + ParseUnicodeEscape(t).value.1 && CharText("\\u" + a, ParseUnicodeEscape(t).value.0)
  {
    PairReads(t);
    Hex4Quad(t);
    Hex4Quad(t[6..]);
    SurrogatePair(Hex4(t).value, Hex4(t[6..]).value);
    QuadFrom(t[..4], Hex4(t).value);
    QuadFrom(t[6..][..4], Hex4(t[6..]).value);
    var low := "\\u" + t[6..][..4];
    PairChar("\\u" + t[..4], low, ParseUnicodeEscape(t).value.0);
    PairSplits(t);
    Assoc("\\u", t[..4], low);
    a := t[..4] + low;
  }

  lemma ParseQuadSound(t: string) returns (a: string)
    requires ParseUnicodeEscape(t).Some? && !(0xD800 <= Hex4(t).value < 0xE000)
    ensures t == a + ParseUnicodeEscape(t).value.1 && CharText("\\u" + a, ParseUnicodeEscape(t).value.0)
  {
    a := t[..4];
    Hex4Quad(t);
    QuadFrom(a, Hex4(t).value);
  }

  lemma ParseUnicodeSound(t: string) returns (a: string)
    requires ParseUnicodeEscape(t).Some?
    ensures t == a + ParseUnicodeEscape(t).value.1 && CharText("\\u" + a, ParseUnicodeEscape(t).value.0)
  {
    if 0xD800 <= Hex4(t).value < 0xE000 {
      a := ParsePairSound(t);
    } else {
      a := ParseQuadSound(t);
    }
  }

  lemma PairSplits(t: string)
    requires |t| >= 10 && t[4] == '\\' && t[5] == 'u'
    ensures t == t[..4] + ("\\u" + t[6..][..4]) + t[10..]
  {
    assert t[4..6] == "\\u" && t[6..][..4] == t[6..10];
    assert t == t[..4] + t[4..6] + t[6..10] + t[10..];
  }

  lemma ShortChar(t: string, c: char)
    requires |t| == 2 && t[0] == '\\' && ShortEscape(t[1], c)
    ensures CharText(t, c)
  {
  }

  lemma ParseShortSound(t: string)
    requires ParseChar(t).Some? && t[0] == '\\' && t[1] != 'u'
    ensures ParseChar(t).value.1 == t[2..] && ShortEscape(t[1], ParseChar(t).value.0)
  {
  }

  lemma ParseCharSound(t: string) returns (a: string)
    requires ParseChar(t).Some?
    ensures t == a + ParseChar(t).value.1 && CharText(a, ParseChar(t).value.0)
  {
    if t[0] != '\\' {
      a := [t[0]];
    } else if t[1] == 'u' {
      var digits := ParseUnicodeSound(t[2..]);
      a := "\\u" + digits;
      Cat2(t, "\\u", t[2..], digits, ParseChar(t).value.1);
    } else {
      a := t[..2];
      ParseShortSound(t);
      ShortChar(a, ParseChar(t).value.0);
    }
  }

  lemma Cat2(t: string, a: string, x: string, b: string, y: string)
    requires t == a + x && x == b + y
    ensures t == (a + b) + y
  {
  }

  lemma Cat3(t: string, a: string, x: string, b: string, y: string, c: string, z: string)
    requires t == a + x && x == b + y && y == c + z
    ensures t == (a + b + c) + z
  {
  }

  /** The pieces of a text taken apart at its first character and around brackets. */
  lemma Headed(t: string)
    requires t != ""
    ensures t == [t[0]] + t[1..]
  {
  }

  lemma CharsFrom(a: string, c: char, b: string, s: string)
    requires CharText(a, c) && CharsText(b, s)
    ensures CharsText(a + b, [c] + s)
  {
    assert ([c] + s)[0] == c && ([c] + s)[1..] == s;
  }

  lemma {:induction false} ParseCharsSound(t: string) returns (a: string)
    requires ParseChars(t).Some?
    ensures t == a + ("\"" + ParseChars(t).value.1) && CharsText(a, ParseChars(t).value.0)
    decreases |t|
  {
    if t[0] == '"' {
      a := "";
      Headed(t);
    } else {
      var first := ParseCharSound(t);
      var (c, more) := ParseChar(t).value;
      var rest := ParseCharsSound(more);
      a := first + rest;
      CharsFrom(first, c, rest, ParseChars(more).value.0);
      Cat2(t, first, more, rest, "\"" + ParseChars(t).value.1);
    }
  }

  lemma SkipFractionSound(t: string) returns (f: string)
    requires SkipFraction(t).Some?
    ensures t == f + SkipFraction(t).value && FracText(f)
  {
    if t == "" || t[0] != '.' {
      f := "";
    } else {
      f := "." + t[1..][..DigitRun(t[1..])];
      assert f[1..] == t[1..][..DigitRun(t[1..])];
    }
  }

  lemma ExponentFrom(head: string, digits: string)
    requires head != "" && (head[0] == 'e' || head[0] == 'E')
    requires |head| == 1 || (|head| == 2 && (head[1] == '+' || head[1] == '-'))
    requires Digits(digits)
    ensures ExpText(head + digits)
  {
    assert (head + digits)[|head|..] == digits;
    assert (head + digits)[..|head|] == head;
  }

  /** A text after its first k characters and the digits that follow them. */
  lemma AfterDigits(t: string, k: nat)
    requires k <= |t|
    ensures t == (t[..k] + t[k..][..DigitRun(t[k..])]) + t[k..][DigitRun(t[k..])..]
  {
  }

  lemma SkipExponentSound(t: string) returns (e: string)
    requires SkipExponent(t).Some?
    ensures t == e + SkipExponent(t).value && ExpText(e)
  {
    if t == "" || (t[0] != 'e' && t[0] != 'E') {
      e := "";
    } else {
      var k := if |t| > 1 && (t[1] == '+' || t[1] == '-') then 2 else 1;
      var digits := t[k..][..DigitRun(t[k..])];
      e := t[..k] + digits;
      AfterDigits(t, k);
      ExponentFrom(t[..k], digits);
    }
  }

  lemma UnsignedFrom(negative: bool, i: string, f: string, e: string, v: Json)
    requires IntText(i) && FracText(f) && ExpText(e) && NumberMeans(negative, i, f == "" && e == "", v)
    ensures UnsignedText(negative, i + f + e, v)
    ensures i + f + e != "" && IsDigit((i + f + e)[0])
  {
    assert (i + f + e)[0] == i[0];
  }

  /** What an accepted number token was read from. */
  lemma UnsignedReads(negative: bool, u: string)
    requires ParseUnsigned(negative, u).Some?
    ensures var k := DigitRun(u);
            && IntText(u[..k])
            && SkipFraction(u[k..]).Some? && SkipExponent(SkipFraction(u[k..]).value).Some?
            && SkipExponent(SkipFraction(u[k..]).value).value == ParseUnsigned(negative, u).value.1
            && NumberMeans(negative, u[..k], ParseUnsigned(negative, u).value.1 == u[k..],
                           ParseUnsigned(negative, u).value.0)
  {
  }

  /** Nothing was skipped exactly when neither part is there. */
  lemma SkippedNothing(x: string, f: string, e: string, z: string)
    requires x == f + e + z
    ensures z == x <==> f == "" && e == ""
  {
    assert |x| == |f| + |e| + |z|;
  }

  lemma ParseUnsignedSound(negative: bool, u: string) returns (a: string)
    requires ParseUnsigned(negative, u).Some?
    ensures u == a + ParseUnsigned(negative, u).value.1 && UnsignedText(negative, a, ParseUnsigned(negative, u).value.0)
    ensures a != "" && IsDigit(a[0])
    ensures ParseUnsigned(negative, u).value.0.Integer? || ParseUnsigned(negative, u).value.0.Decimal?
  {
    UnsignedReads(negative, u);
    var (v, z) := ParseUnsigned(negative, u).value;
    var k := DigitRun(u);
    a := UnsignedPieces(negative, u[..k], u[k..], z, v);
    assert u == u[..k] + u[k..];
  }

  lemma UnsignedPieces(negative: bool, i: string, x: string, z: string, v: Json) returns (a: string)
    requires IntText(i) && SkipFraction(x).Some? && SkipExponent(SkipFraction(x).value) == Some(z)
    requires NumberMeans(negative, i, z == x, v)
    ensures i + x == a + z && UnsignedText(negative, a, v) && a != "" && IsDigit(a[0])
  {
    var f := SkipFractionSound(x);
    var y := SkipFraction(x).value;
    var e := SkipExponentSound(y);
    Cat2(x, f, y, e, z);
    SkippedNothing(x, f, e, z);
    a := i + f + e;
    Cat3(i + x, i, x, f, y, e, z);
    UnsignedFrom(negative, i, f, e, v);
  }

  lemma ParseNumberSound(t: string) returns (a: string)
    requires ParseNumber(t).Some?
    ensures t == a + ParseNumber(t).value.1 && ValueText(a, ParseNumber(t).value.0)
  {
    if t != "" && t[0] == '-' {
      var u := ParseUnsignedSound(true, t[1..]);
      a := "-" + u;
      NegativeFrom(u, ParseNumber(t).value.0);
      Headed(t);
      Cat2(t, "-", t[1..], u, ParseNumber(t).value.1);
    } else {
      a := ParseUnsignedSound(false, t);
    }
  }

  lemma NegativeFrom(u: string, v: Json)
    requires UnsignedText(true, u, v)
    ensures NumberText("-" + u, v)
  {
    assert ("-" + u)[1..] == u;
  }

  lemma ParseWordSound(t: string) returns (a: string)
    requires ParseWord(t).Some?
    ensures t == a + ParseWord(t).value.1 && ValueText(a, ParseWord(t).value.0)
  {
    a := if "null" <= t then "null" else if "true" <= t then "true" else "false";
    assert t[..|a|] == a;
  }

  lemma PaddedFrom(a: string, b: string, c: string, v: Json)
    requires Spaces(a) && Spaces(c) && ValueText(b, v)
    ensures PaddedText(a + b + c, v)
  {
  }

  lemma StringFrom(u: string, s: string)
    requires CharsText(u, s)
    ensures StringText("\"" + u + "\"", s) && ValueText("\"" + u + "\"", Str(s))
  {
  }

  lemma ArrayFrom(u: string, items: seq<Json>)
    requires if items == [] then Spaces(u) else ItemsText(u, items)
    ensures ValueText("[" + u + "]", Array(items))
  {
  }

  lemma ObjectFrom(u: string, members: seq<Member>)
    requires if members == [] then Spaces(u) else MembersText(u, members)
    ensures ValueText("{" + u + "}", Object(members))
  {
  }

  lemma MemberFrom(a: string, k: string, c: string, b: string, m: Member)
    requires Spaces(a) && Spaces(c) && StringText(k, m.key) && PaddedText(b, m.value)
    ensures MemberText(a + k + c + ":" + b, m)
  {
  }

  lemma ItemsFrom(t: string, v: Json, rest: string, items: seq<Json>)
    requires PaddedText(t, v)
    ensures ItemsText(t, [v])
    ensures ItemsText(rest, items) ==> ItemsText(t + "," + rest, [v] + items)
  {
    assert ([v] + items)[1..] == items && ([v] + items)[0] == v;
  }

  lemma MembersFrom(t: string, m: Member, rest: string, members: seq<Member>)
    requires MemberText(t, m)
    ensures MembersText(t, [m])
    ensures MembersText(rest, members) ==> MembersText(t + "," + rest, [m] + members)
  {
    assert ([m] + members)[1..] == members && ([m] + members)[0] == m;
  }

  /** A text between two marks, as the parser leaves it. */
  lemma Bracketed(t: string, open: char, inner: string, close: char, rest: string)
    requires t != "" && t[0] == open && t[1..] == inner + ([close] + rest)
    ensures t == ([open] + inner + [close]) + rest
  {
    Headed(t);
  }

  lemma {:induction false} SkipSpaceAgain(t: string)
    ensures SkipSpace(SkipSpace(t)) == SkipSpace(t) && ParseValue(SkipSpace(t)) == ParseValue(t)
  {
    if t != "" && IsSpace(t[0]) {
      SkipSpaceAgain(t[1..]);
    }
  }

  lemma {:induction false} ParseValueSound(text: string) returns (a: string, b: string)
    requires ParseValue(text).Some?
    ensures text == a + (b + ParseValue(text).value.1) && Spaces(a) && ValueText(b, ParseValue(text).value.0)
    decreases |text|, 4
  {
    a := SkipSpaceSplits(text);
    var t := SkipSpace(text);
    SkipSpaceAgain(text);
    b := ParseHeadSound(t);
  }

  lemma {:induction false} ParseHeadSound(t: string) returns (b: string)
    requires ParseValue(t).Some? && SkipSpace(t) == t
    ensures t == b + ParseValue(t).value.1 && ValueText(b, ParseValue(t).value.0)
    decreases |t|, 3
  {
    if t[0] == '"' {
      var u := ParseCharsSound(t[1..]);
      b := "\"" + u + "\"";
      Bracketed(t, '"', u, '"', ParseValue(t).value.1);
      StringFrom(u, ParseChars(t[1..]).value.0);
    } else if t[0] == '[' {
      b := ParseArraySound(t);
    } else if t[0] == '{' {
      b := ParseObjectSound(t);
    } else if t[0] == '-' || IsDigit(t[0]) {
      b := ParseNumberSound(t);
    } else {
      b := ParseWordSound(t);
    }
  }

  lemma {:induction false} ParseArraySound(t: string) returns (b: string)
    requires ParseValue(t).Some? && SkipSpace(t) == t && t[0] == '['
    ensures t == b + ParseValue(t).value.1 && ValueText(b, ParseValue(t).value.0)
    decreases |t|, 2
  {
    var u := SkipSpace(t[1..]);
    if u != "" && u[0] == ']' {
      var sp := SkipSpaceSplits(t[1..]);
      Headed(u);
      b := "[" + sp + "]";
      Bracketed(t, '[', sp, ']', u[1..]);
      ArrayFrom(sp, []);
    } else {
      var inner := ParseItemsSound(t[1..]);
      var (items, rest) := ParseItems(t[1..]).value;
      b := "[" + inner + "]";
      Bracketed(t, '[', inner, ']', rest);
      ArrayFrom(inner, items);
    }
  }

  lemma {:induction false} ParseObjectSound(t: string) returns (b: string)
    requires ParseValue(t).Some? && SkipSpace(t) == t && t[0] == '{'
    ensures t == b + ParseValue(t).value.1 && ValueText(b, ParseValue(t).value.0)
    decreases |t|, 2
  {
    var u := SkipSpace(t[1..]);
    if u != "" && u[0] == '}' {
      var sp := SkipSpaceSplits(t[1..]);
      Headed(u);
      b := "{" + sp + "}";
      Bracketed(t, '{', sp, '}', u[1..]);
      ObjectFrom(sp, []);
    } else {
      var inner := ParseMembersSound(t[1..]);
      var (members, rest) := ParseMembers(t[1..]).value;
      b := "{" + inner + "}";
      Bracketed(t, '{', inner, '}', rest);
      ObjectFrom(inner, members);
    }
  }

  /** A padded value at the head of a text, and what follows it. */
  lemma {:induction false} ParsePaddedSound(text: string) returns (t: string)
    requires ParseValue(text).Some?
    ensures var (v, after) := ParseValue(text).value;
            text == t + SkipSpace(after) && PaddedText(t, v)
    decreases |text|, 5
  {
    var a, b := ParseValueSound(text);
    var (v, after) := ParseValue(text).value;
    var c := SkipSpaceSplits(after);
    PaddedFrom(a, b, c, v);
    t := a + b + c;
    Cat3(text, a, b + after, b, after, c, SkipSpace(after));
  }

  lemma {:induction false} ParseItemsSound(text: string) returns (t: string)
    requires ParseItems(text).Some?
    ensures text == t + ("]" + ParseItems(text).value.1) && ItemsText(t, ParseItems(text).value.0)
    ensures ParseItems(text).value.0 != []
    decreases |text|, 6
  {
    var first := ParsePaddedSound(text);
    var (v, after) := ParseValue(text).value;
    var u := SkipSpace(after);
    Headed(u);
    if u[0] == ']' {
      t := first;
      ItemsFrom(first, v, "", []);
    } else {
      var rest := ParseItemsSound(u[1..]);
      t := first + "," + rest;
      ItemsFrom(first, v, rest, ParseItems(u[1..]).value.0);
      Cat3(text, first, u, ",", u[1..], rest, "]" + ParseItems(text).value.1);
    }
  }

  lemma {:induction false} ParseMemberSound(text: string) returns (t: string, m: Member, end: string)
    requires ParseMembers(text).Some?
    ensures text == t + end && MemberText(t, m) && end != "" && |end| < |text|
    ensures end[0] == '}' ==> ParseMembers(text).value == ([m], end[1..])
    ensures end[0] != '}' ==>
              && end[0] == ',' && ParseMembers(end[1..]).Some?
              && ParseMembers(text).value == ([m] + ParseMembers(end[1..]).value.0, ParseMembers(end[1..]).value.1)
    decreases |text|, 6
  {
    var sp := SkipSpaceSplits(text);
    var head := SkipSpace(text);
    var u := ParseCharsSound(head[1..]);
    var (key, afterKey) := ParseChars(head[1..]).value;
    var k := "\"" + u + "\"";
    Bracketed(head, '"', u, '"', afterKey);
    StringFrom(u, key);
    var c := SkipSpaceSplits(afterKey);
    var colon := SkipSpace(afterKey);
    Headed(colon);
    var b := ParsePaddedSound(colon[1..]);
    var (v, after) := ParseValue(colon[1..]).value;
    end := SkipSpace(after);
    m := Member(key, v);
    MemberFrom(sp, k, c, b, m);
    Cat3(text, sp, head, k, afterKey, c, colon);
    Cat3(text, sp + k + c, colon, ":", colon[1..], b, end);
    t := sp + k + c + ":" + b;
  }

  lemma {:induction false} ParseMembersSound(text: string) returns (t: string)
    requires ParseMembers(text).Some?
    ensures text == t + ("}" + ParseMembers(text).value.1) && MembersText(t, ParseMembers(text).value.0)
    ensures ParseMembers(text).value.0 != []
    decreases |text|, 7
  {
    var first, m, end := ParseMemberSound(text);
    Headed(end);
    if end[0] == '}' {
      t := first;
      MembersFrom(first, m, "", []);
    } else {
      var rest := ParseMembersSound(end[1..]);
      t := first + "," + rest;
      MembersFrom(first, m, rest, ParseMembers(end[1..]).value.0);
      Cat3(text, first, end, ",", end[1..], rest, "}" + ParseMembers(text).value.1);
    }
  }

  // ---------------------------------------------------------------- what is in the grammar the parser takes

  lemma {:induction false} SkipSpacePast(a: string, r: string)
    requires Spaces(a) && (r == "" || !IsSpace(r[0]))
    ensures SkipSpace(a + r) == r
  {
    if a != "" {
      SkipSpacePast(a[1..], r);
      assert (a + r)[1..] == a[1..] + r;
    } else {
      assert a + r == r;
    }
  }

  lemma HexValueExact(d: char, n: nat)
    requires HexDigitOf(d, n)
    ensures HexValue(d) == Some(n)
  {
  }

  lemma Hex4Of(t: string, a: nat, b: nat, c: nat, d: nat)
    requires |t| >= 4
    requires HexValue(t[0]) == Some(a) && HexValue(t[1]) == Some(b)
    requires HexValue(t[2]) == Some(c) && HexValue(t[3]) == Some(d)
    ensures Hex4(t) == Some(a * 4096 + b * 256 + c * 16 + d)
  {
  }

  lemma QuadSum(n: nat)
    requires n / 4096 < 16
    ensures n == n / 4096 * 4096 + n / 256 % 16 * 256 + n / 16 % 16 * 16 + n % 16
  {
    assert n / 256 == n / 4096 * 16 + n / 256 % 16 && n / 16 == n / 256 * 16 + n / 16 % 16;
  }

  lemma Hex4Exact(t: string, n: nat)
    requires |t| >= 4 && HexQuad(t[..4], n)
    ensures Hex4(t) == Some(n)
  {
    HexValueExact(t[0], n / 4096);
    HexValueExact(t[1], n / 256 % 16);
    HexValueExact(t[2], n / 16 % 16);
    HexValueExact(t[3], n % 16);
    Hex4Of(t, n / 4096, n / 256 % 16, n / 16 % 16, n % 16);
    QuadSum(n);
  }

  /** The two parts of a concatenation. */
  lemma Parts(a: string, r: string)
    ensures (a + r)[..|a|] == a && (a + r)[|a|..] == r
    ensures a != "" ==> (a + r)[0] == a[0]
  {
  }

  lemma QuadReads(t: string, n: nat, r: string)
    requires QuadText(t, n)
    ensures |t| == 6 && t[0] == '\\' && t[1] == 'u'
    ensures (t + r)[0] == '\\' && (t + r)[1] == 'u'
    ensures Hex4((t + r)[2..]) == Some(n) && (t + r)[2..][4..] == r
  {
    var q :| t == "\\u" + q && HexQuad(q, n);
    Behind("\\u", q, r);
    Parts(q, r);
    Hex4Exact(q + r, n);
  }

  lemma Behind(mark: string, q: string, r: string)
    requires |mark| == 2
    ensures |mark + q| == 2 + |q| && (mark + q + r)[2..] == q + r
    ensures (mark + q)[0] == mark[0] && (mark + q)[1] == mark[1]
    ensures (mark + q + r)[0] == mark[0] && (mark + q + r)[1] == mark[1]
  {
  }

  lemma SurrogatesOf(n: nat)
    requires 0x1_0000 <= n < 0x11_0000
    ensures var high, low := 0xD800 + (n - 0x1_0000) / 0x400, 0xDC00 + (n - 0x1_0000) % 0x400;
            && 0xD800 <= high < 0xDC00 && 0xDC00 <= low < 0xE000
            && n == 0x1_0000 + (high - 0xD800) * 0x400 + (low - 0xDC00)
  {
  }

  /** An escaped pair of surrogates, from the readings of its halves. */
  lemma PairParses(t: string, u: string, c: char, r: string)
    requires |t| >= 6 && t[0] == '\\' && t[1] == 'u' && t[2..][4..] == u
    requires |u| >= 6 && u[0] == '\\' && u[1] == 'u' && u[2..][4..] == r
    requires c as int >= 0x1_0000
    requires Hex4(t[2..]) == Some(0xD800 + (c as int - 0x1_0000) / 0x400)
    requires Hex4(u[2..]) == Some(0xDC00 + (c as int - 0x1_0000) % 0x400)
    ensures ParseChar(t) == Some((c, r))
  {
    SurrogatesOf(c as int);
    var x := t[2..];
    assert x[4] == u[0] && x[5] == u[1];
    assert x[6..] == u[2..];
    assert x[10..] == u[2..][4..];
  }

  lemma PairComplete(high: string, low: string, c: char, r: string)
    requires c as int >= 0x1_0000
    requires QuadText(high, 0xD800 + (c as int - 0x1_0000) / 0x400)
    requires QuadText(low, 0xDC00 + (c as int - 0x1_0000) % 0x400)
    ensures ParseChar(high + (low + r)) == Some((c, r)) && high != "" && high[0] == '\\'
  {
    QuadReads(high, 0xD800 + (c as int - 0x1_0000) / 0x400, low + r);
    QuadReads(low, 0xDC00 + (c as int - 0x1_0000) % 0x400, r);
    PairParses(high + (low + r), low + r, c, r);
  }

  lemma QuadComplete(t: string, c: char, r: string)
    requires QuadText(t, c as int)
    ensures ParseChar(t + r) == Some((c, r)) && t[0] == '\\'
  {
    QuadReads(t, c as int, r);
  }

  lemma ShortComplete(t: string, c: char, r: string)
    requires |t| == 2 && t[0] == '\\' && ShortEscape(t[1], c)
    ensures ParseChar(t + r) == Some((c, r))
  {
    assert (t + r)[2..] == r;
  }

  lemma ParseCharComplete(t: string, c: char, r: string)
    requires CharText(t, c)
    ensures ParseChar(t + r) == Some((c, r)) && t != "" && t[0] != '"'
  {
    if t == [c] && c != '"' && c != '\\' && c as int >= 0x20 {
      Parts(t, r);
    } else if |t| == 2 && t[0] == '\\' && ShortEscape(t[1], c) {
      ShortComplete(t, c, r);
    } else if QuadText(t, c as int) {
      QuadComplete(t, c, r);
    } else {
      var high, low :| t == high + low && QuadText(high, 0xD800 + (c as int - 0x1_0000) / 0x400)
        && QuadText(low, 0xDC00 + (c as int - 0x1_0000) % 0x400);
      PairComplete(high, low, c, r);
      Assoc(high, low, r);
      FirstOf(high, low);
    }
  }

  /** The characters of s, then whatever closes the string. */
  lemma {:induction false} ParseCharsComplete(t: string, s: string, end: string)
    requires CharsText(t, s) && end != "" && end[0] == '"'
    ensures ParseChars(t + end) == Some((s, end[1..]))
    decreases |s|
  {
    if s == "" {
      assert t + end == end;
    } else {
      var a, b :| t == a + b && CharText(a, s[0]) && CharsText(b, s[1..]);
      ParseCharsComplete(b, s[1..], end);
      ParseCharComplete(a, s[0], b + end);
      Assoc(a, b, end);
      Parts(a, b + end);
      assert s == [s[0]] + s[1..];
    }
  }

  lemma StringComplete(t: string, s: string, r: string)
    requires StringText(t, s)
    ensures t != "" && t[0] == '"' && ParseChars((t + r)[1..]) == Some((s, r))
  {
    var u :| t == "\"" + u + "\"" && CharsText(u, s);
    var end := "\"" + r;
    ParseCharsComplete(u, s, end);
    Within('"', u, '"', r);
  }

  /** What stands between an opening and a closing mark. */
  lemma Within(open: char, u: string, close: char, r: string)
    ensures (([open] + u + [close]) + r)[1..] == u + ([close] + r)
    ensures ([open] + u + [close])[0] == open && ([close] + r)[1..] == r
  {
  }

  /** What may follow a number: nothing that continues it. */
  predicate Stops(r: string) {
    r == "" || (!IsDigit(r[0]) && r[0] !in {'.', 'e', 'E'})
  }

  lemma {:induction false} DigitRunOf(ds: string, r: string)
    requires (forall i | 0 <= i < |ds| :: '0' <= ds[i] <= '9') && (r == "" || !IsDigit(r[0]))
    ensures DigitRun(ds + r) == |ds| && (ds + r)[..|ds|] == ds && (ds + r)[|ds|..] == r
  {
    if ds != "" {
      DigitRunOf(ds[1..], r);
      assert (ds + r)[1..] == ds[1..] + r;
    } else {
      assert ds + r == r;
    }
  }

  lemma FractionComplete(f: string, r: string)
    requires FracText(f) && (r == "" || (!IsDigit(r[0]) && r[0] != '.'))
    ensures SkipFraction(f + r) == Some(r)
  {
    if f == "" {
      assert f + r == r;
    } else {
      DigitRunOf(f[1..], r);
      assert (f + r)[1..] == f[1..] + r;
    }
  }

  lemma ExponentComplete(e: string, r: string)
    requires ExpText(e) && Stops(r)
    ensures SkipExponent(e + r) == Some(r)
  {
    if e == "" {
      assert e + r == r;
    } else if Digits(e[1..]) {
      DigitRunOf(e[1..], r);
      assert (e + r)[1] == e[1];
      assert (e + r)[1..] == e[1..] + r;
    } else {
      DigitRunOf(e[2..], r);
      assert (e + r)[2..] == e[2..] + r;
    }
  }

  lemma MeansToken(negative: bool, i: string, whole: bool, v: Json)
    requires Digits(i) && NumberMeans(negative, i, whole, v)
    ensures v == if whole then IntegerToken(negative, NatOf(i)) else Decimal
  {
  }

  lemma PiecesParse(negative: bool, i: string, x: string, y: string, r: string, v: Json)
    requires IntText(i) && (x == "" || !IsDigit(x[0]))
    requires SkipFraction(x) == Some(y) && SkipExponent(y) == Some(r)
    requires NumberMeans(negative, i, x == r, v)
    ensures ParseUnsigned(negative, i + x) == Some((v, r))
  {
    DigitRunOf(i, x);
    MeansToken(negative, i, x == r, v);
    assert (i + x)[0] == i[0];
  }

  lemma ParseUnsignedComplete(negative: bool, t: string, v: Json, r: string)
    requires UnsignedText(negative, t, v) && Stops(r)
    ensures ParseUnsigned(negative, t + r) == Some((v, r)) && t != "" && IsDigit(t[0])
  {
    var i, f, e :| t == i + f + e && IntText(i) && FracText(f) && ExpText(e)
                   && NumberMeans(negative, i, f == "" && e == "", v);
    UnsignedComplete(negative, i, f, e, v, r);
    Assoc4(i, f, e, r);
    Parts(i, f + e);
    Assoc(i, f, e);
  }

  lemma Assoc4(a: string, b: string, c: string, r: string)
    ensures a + b + c + r == a + (b + (c + r))
  {
  }

  lemma FirstOf(a: string, r: string)
    ensures a == "" ==> a + r == r
    ensures a != "" ==> a + r != "" && (a + r)[0] == a[0]
  {
  }

  lemma UnsignedComplete(negative: bool, i: string, f: string, e: string, v: Json, r: string)
    requires IntText(i) && FracText(f) && ExpText(e) && Stops(r)
    requires NumberMeans(negative, i, f == "" && e == "", v)
    ensures ParseUnsigned(negative, i + (f + (e + r))) == Some((v, r))
  {
    var y := e + r;
    var x := f + y;
    FirstOf(e, r);
    FirstOf(f, y);
    ExponentComplete(e, r);
    FractionComplete(f, y);
    Assoc(f, e, r);
    SkippedNothing(x, f, e, r);
    PiecesParse(negative, i, x, y, r, v);
  }

  lemma ParseNumberComplete(t: string, v: Json, r: string)
    requires NumberText(t, v) && Stops(r)
    ensures ParseNumber(t + r) == Some((v, r)) && t != "" && (t[0] == '-' || IsDigit(t[0]))
  {
    if UnsignedText(false, t, v) {
      ParseUnsignedComplete(false, t, v, r);
      FirstOf(t, r);
    } else {
      ParseUnsignedComplete(true, t[1..], v, r);
      SliceCat(t, r);
    }
  }

  lemma SliceCat(t: string, r: string)
    requires t != ""
    ensures (t + r)[1..] == t[1..] + r && (t + r)[0] == t[0]
  {
  }

  lemma WordComplete(word: string, r: string)
    requires word in {"null", "true", "false"}
    ensures ParseWord(word + r)
            == Some((if word == "null" then Null else Bool(word == "true"), r))
  {
    var t := word + r;
    assert t[..|word|] == word && t[|word|..] == r;
    assert t[0] == word[0];
  }

  lemma SpacePrefix(a: string, x: string)
    requires Spaces(a) && x != "" && !IsSpace(x[0])
    ensures SkipSpace(a + x) == x && ParseValue(a + x) == ParseValue(x)
  {
    SkipSpacePast(a, x);
    SkipSpaceAgain(a + x);
  }

  /** What may follow a value with space around it. */
  predicate Ends(r: string) {
    r == "" || r[0] in {',', ']', '}'}
  }

  /** The first character of a value. */
  predicate Opens(t: string) {
    t != "" && !IsSpace(t[0]) && t[0] != ']'
  }

  lemma NoSpace(t: string)
    requires t == "" || !IsSpace(t[0])
    ensures SkipSpace(t) == t
  {
  }

  lemma {:induction false} ValueComplete(b: string, v: Json, r: string)
    requires ValueText(b, v) && Stops(r)
    ensures ParseValue(b + r) == Some((v, r)) && Opens(b)
    decreases |b|, 1
  {
    match v {
      case Null => WordValue(b, v, r);
      case Bool(_) => WordValue(b, v, r);
      case Integer(_) => NumberValue(b, v, r);
      case Decimal => NumberValue(b, v, r);
      case Str(s) => StringValue(b, s, r);
      case Array(items) => ArrayValue(b, items, r);
      case Object(members) => ObjectValue(b, members, r);
    }
  }

  lemma WordValue(b: string, v: Json, r: string)
    requires ValueText(b, v) && (v.Null? || v.Bool?)
    ensures ParseValue(b + r) == Some((v, r)) && Opens(b)
  {
    WordComplete(b, r);
    FirstOf(b, r);
    NoSpace(b + r);
  }

  lemma NumberBranch(t: string)
    requires t != "" && (t[0] == '-' || IsDigit(t[0]))
    ensures ParseValue(t) == ParseNumber(t)
  {
    NoSpace(t);
  }

  lemma NumberValue(b: string, v: Json, r: string)
    requires NumberText(b, v) && Stops(r)
    ensures ParseValue(b + r) == Some((v, r)) && Opens(b)
  {
    ParseNumberComplete(b, v, r);
    FirstOf(b, r);
    NumberBranch(b + r);
  }

  lemma StringValue(b: string, s: string, r: string)
    requires StringText(b, s)
    ensures ParseValue(b + r) == Some((Str(s), r)) && Opens(b)
  {
    StringComplete(b, s, r);
    FirstOf(b, r);
    NoSpace(b + r);
  }

  lemma {:induction false} ArrayValue(b: string, items: seq<Json>, r: string)
    requires ValueText(b, Array(items))
    ensures ParseValue(b + r) == Some((Array(items), r)) && Opens(b)
    decreases |b|, 0
  {
    var u :| b == "[" + u + "]" && if items == [] then Spaces(u) else ItemsText(u, items);
    Within('[', u, ']', r);
    var end := "]" + r;
    if items == [] {
      SkipSpacePast(u, end);
    } else {
      ItemsComplete(u, items, end);
    }
    FirstOf(b, r);
    NoSpace(b + r);
  }

  lemma {:induction false} ObjectValue(b: string, members: seq<Member>, r: string)
    requires ValueText(b, Object(members))
    ensures ParseValue(b + r) == Some((Object(members), r)) && Opens(b)
    decreases |b|, 0
  {
    var u :| b == "{" + u + "}" && if members == [] then Spaces(u) else MembersText(u, members);
    Within('{', u, '}', r);
    var end := "}" + r;
    if members == [] {
      SkipSpacePast(u, end);
    } else {
      MembersComplete(u, members, end);
    }
    FirstOf(b, r);
    NoSpace(b + r);
  }

  /** A padded value and what follows it: the parser stops before the closing space. */
  lemma {:induction false} PaddedComplete(t: string, v: Json, r: string)
    requires PaddedText(t, v) && Ends(r)
    ensures var p := ParseValue(t + r); p.Some? && p.value.0 == v && SkipSpace(p.value.1) == r
    ensures Opens(SkipSpace(t + r))
    decreases |t|, 2
  {
    var a, b, c :| t == a + b + c && Spaces(a) && Spaces(c) && ValueText(b, v);
    var after := c + r;
    FirstOf(c, r);
    ValueComplete(b, v, after);
    FirstOf(b, after);
    SpacePrefix(a, b + after);
    SkipSpacePast(c, r);
    Assoc4(a, b, c, r);
  }

  lemma {:induction false} ItemsComplete(t: string, items: seq<Json>, end: string)
    requires ItemsText(t, items) && end != "" && end[0] == ']'
    ensures ParseItems(t + end) == Some((items, end[1..])) && Opens(SkipSpace(t + end))
    decreases |t|, 3
  {
    if |items| == 1 {
      PaddedComplete(t, items[0], end);
      assert items == [items[0]];
    } else {
      var a, b :| t == a + "," + b && PaddedText(a, items[0]) && ItemsText(b, items[1..]);
      ItemsComplete(b, items[1..], end);
      var next := "," + (b + end);
      PaddedComplete(a, items[0], next);
      Assoc4(a, ",", b, end);
      Parts(",", b + end);
      assert items == [items[0]] + items[1..];
    }
  }

  /** A member and what follows it. */
  lemma {:induction false} MemberComplete(t: string, m: Member, r: string)
    requires MemberText(t, m) && r != "" && Ends(r)
    ensures var u := SkipSpace(t + r); u != "" && u[0] == '"'
    ensures r[0] == '}' ==> ParseMembers(t + r) == Some(([m], r[1..]))
    ensures r[0] == ',' && ParseMembers(r[1..]).Some? ==>
              ParseMembers(t + r)
              == Some(([m] + ParseMembers(r[1..]).value.0, ParseMembers(r[1..]).value.1))
    decreases |t|, 3
  {
    var a, k, c, b :| t == a + k + c + ":" + b && Spaces(a) && Spaces(c) && StringText(k, m.key)
                      && PaddedText(b, m.value);
    PaddedComplete(b, m.value, r);
    MemberPieces(a, k, c, b, r);
    var colon := ":" + (b + r);
    Parts(":", b + r);
    SkipSpacePast(c, colon);
    StringComplete(k, m.key, c + colon);
    FirstOf(k, c + colon);
    SkipSpacePast(a, k + (c + colon));
    MemberReads(t + r, m, r);
  }

  lemma MemberPieces(a: string, k: string, c: string, b: string, r: string)
    ensures a + k + c + ":" + b + r == a + (k + (c + (":" + (b + r))))
  {
    Assoc4(a + k, c, ":" + b, r);
    Assoc(c, ":", b);
  }

  /** The parser's reading of a member, from its parts. */
  lemma MemberReads(text: string, m: Member, r: string)
    requires var t := SkipSpace(text);
             && t != "" && t[0] == '"'
             && var key := ParseChars(t[1..]);
                && key.Some? && key.value.0 == m.key
                && var colon := SkipSpace(key.value.1);
                   && colon != "" && colon[0] == ':'
                   && var value := ParseValue(colon[1..]);
                      && value.Some? && value.value.0 == m.value && SkipSpace(value.value.1) == r
    requires r != ""
    ensures r[0] == '}' ==> ParseMembers(text) == Some(([m], r[1..]))
    ensures r[0] == ',' && ParseMembers(r[1..]).Some? ==>
              ParseMembers(text) == Some(([m] + ParseMembers(r[1..]).value.0, ParseMembers(r[1..]).value.1))
  {
  }

  lemma {:induction false} MembersComplete(t: string, members: seq<Member>, end: string)
    requires MembersText(t, members) && end != "" && end[0] == '}'
    ensures ParseMembers(t + end) == Some((members, end[1..]))
    ensures var u := SkipSpace(t + end); u != "" && u[0] == '"'
    decreases |t|, 4
  {
    if |members| == 1 {
      MemberComplete(t, members[0], end);
      assert members == [members[0]];
    } else {
      var a, b :| t == a + "," + b && MemberText(a, members[0]) && MembersText(b, members[1..]);
      MembersComplete(b, members[1..], end);
      Assoc4(a, ",", b, end);
      Parts(",", b + end);
      MemberComplete(a, members[0], "," + (b + end));
      assert members == [members[0]] + members[1..];
    }
  }

  /** The parser decides the grammar: it answers v exactly on the texts that spell v. */
  lemma ParsesExactlyTheGrammar(t: string, v: Json)
    ensures ParseDocument(t) == Some(v) <==> PaddedText(t, v)
  {
    if PaddedText(t, v) {
      PaddedComplete(t, v, "");
      assert t + "" == t;
    }
    if ParseDocument(t) == Some(v) {
      var u := ParsePaddedSound(t);
      assert u + "" == u;
    }
  }

  // ---------------------------------------------------------------- the printed text is the shortest spelling

  /** A number without leading zeros is the printed form of its value. */
  lemma {:induction false} DigitsOfNatOf(i: string)
    requires IntText(i)
    ensures DigitsOf(NatOf(i)) == i
  {
    var last := i[|i| - 1];
    var init := i[..|i| - 1];
    assert '0' <= last <= '9' && i == init + [last];
    if init != "" {
      assert init[0] == i[0] && i[0] != '0';
      DigitsOfNatOf(init);
      LeadingDigit(init);
    }
  }

  lemma {:induction false} LeadingDigit(i: string)
    requires Digits(i) && i[0] != '0'
    ensures NatOf(i) > 0
  {
    if |i| > 1 {
      assert i[..|i| - 1][0] == i[0];
      LeadingDigit(i[..|i| - 1]);
    }
  }

  lemma IntegerSpelledOnce(t: string, n: int)
    requires NumberText(t, Integer(n))
    ensures t == PrintInteger(n)
  {
    var negative := !UnsignedText(false, t, Integer(n));
    var u := if negative then t[1..] else t;
    var i, f, e :| u == i + f + e && IntText(i) && FracText(f) && ExpText(e)
                   && NumberMeans(negative, i, f == "" && e == "", Integer(n));
    assert u == i;
    DigitsOfNatOf(i);
    if negative {
      Headed(t);
    }
  }

  lemma CharShort(t: string, c: char)
    requires CharText(t, c)
    ensures |EscapeChar(c)| <= |t|
  {
    if QuadText(t, c as int) {
      QuadReads(t, c as int, "");
    } else if |t| != 2 && t != [c] {
      var high, low :| t == high + low && QuadText(high, 0xD800 + (c as int - 0x1_0000) / 0x400)
        && QuadText(low, 0xDC00 + (c as int - 0x1_0000) % 0x400);
      QuadReads(high, 0xD800 + (c as int - 0x1_0000) / 0x400, "");
    }
  }

  lemma {:induction false} CharsShort(t: string, s: string)
    requires CharsText(t, s)
    ensures |EscapeChars(s)| <= |t|
    decreases |s|
  {
    if s != "" {
      var a, b :| t == a + b && CharText(a, s[0]) && CharsText(b, s[1..]);
      CharShort(a, s[0]);
      CharsShort(b, s[1..]);
    }
  }

  lemma StringShort(t: string, s: string)
    requires StringText(t, s)
    ensures |PrintString(s)| <= |t|
  {
    var u :| t == "\"" + u + "\"" && CharsText(u, s);
    CharsShort(u, s);
  }

  lemma {:induction false} ValueShort(t: string, v: Json)
    requires ValueText(t, v) && Printable(v)
    ensures |Print(v)| <= |t|
    decreases |t|, 0
  {
    match v {
      case Null =>
      case Bool(_) =>
      case Integer(n) => IntegerSpelledOnce(t, n);
      case Str(s) => StringShort(t, s);
      case Array(items) =>
        var u :| t == "[" + u + "]" && if items == [] then Spaces(u) else ItemsText(u, items);
        if items != [] {
          ItemsShort(u, items);
        }
      case Object(members) =>
        var u :| t == "{" + u + "}" && if members == [] then Spaces(u) else MembersText(u, members);
        if members != [] {
          MembersShort(u, members);
        }
    }
  }

  lemma {:induction false} PaddedShort(t: string, v: Json)
    requires PaddedText(t, v) && Printable(v)
    ensures |Print(v)| <= |t|
    decreases |t|, 1
  {
    var a, b, c :| t == a + b + c && Spaces(a) && Spaces(c) && ValueText(b, v);
    ValueShort(b, v);
  }

  lemma {:induction false} ItemsShort(t: string, items: seq<Json>)
    requires ItemsText(t, items) && forall x | x in items :: Printable(x)
    ensures |PrintItems(items)| <= |t|
    decreases |t|, 2
  {
    if |items| == 1 {
      PaddedShort(t, items[0]);
    } else {
      var a, b :| t == a + "," + b && PaddedText(a, items[0]) && ItemsText(b, items[1..]);
      PaddedShort(a, items[0]);
      ItemsShort(b, items[1..]);
    }
  }

  lemma {:induction false} MemberShort(t: string, m: Member)
    requires MemberText(t, m) && Printable(m.value)
    ensures |PrintMember(m)| <= |t|
    decreases |t|, 2
  {
    var a, k, c, b :| t == a + k + c + ":" + b && Spaces(a) && Spaces(c) && StringText(k, m.key)
                      && PaddedText(b, m.value);
    StringShort(k, m.key);
    PaddedShort(b, m.value);
  }

  lemma {:induction false} MembersShort(t: string, members: seq<Member>)
    requires MembersText(t, members) && forall m | m in members :: Printable(m.value)
    ensures |PrintMembers(members)| <= |t|
    decreases |t|, 3
  {
    if |members| == 1 {
      MemberShort(t, members[0]);
    } else {
      var a, b :| t == a + "," + b && MemberText(a, members[0]) && MembersText(b, members[1..]);
      MemberShort(a, members[0]);
      MembersShort(b, members[1..]);
    }
  }

  /** No spelling of a value is shorter than the printed one. */
  lemma PrintedIsShortest(t: string, v: Json)
    requires Printable(v) && ParseDocument(t) == Some(v)
    ensures |Print(v)| <= |t|
  {
    ParsesExactlyTheGrammar(t, v);
    PaddedShort(t, v);
  }
}
