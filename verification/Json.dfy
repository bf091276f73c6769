/** JSON text: the grammar of RFC 8259 as a parser, the compact printer, and their round trip. */
module Json {
  import opened Wrappers

  /** A parsed value.  `Decimal` is any number token that is not delivered as a machine integer: one with a
      fraction or an exponent, minus zero, or one outside the 64-bit ranges. */
  datatype Json =
    | Null
    | Bool(b: bool)
    | Integer(n: int)
    | Decimal
    | Str(s: string)
    | Array(items: seq<Json>)
    | Object(members: seq<Member>)

  datatype Member = Member(key: string, value: Json)

  const U64_MAX := 0xFFFF_FFFF_FFFF_FFFF
  const I64_MIN := -0x8000_0000_0000_0000

  // ---------------------------------------------------------------- tokens

  predicate IsSpace(c: char) {
    c == ' ' || c == '\t' || c == '\n' || c == '\r'
  }

  function SkipSpace(t: string): (r: string)
    ensures |r| <= |t|
  {
    if t != [] && IsSpace(t[0]) then SkipSpace(t[1..]) else t
  }

  predicate IsDigit(c: char) {
    '0' <= c <= '9'
  }

  /** Length of the run of digits at the head of t. */
  function DigitRun(t: string): (k: nat)
    ensures k <= |t| && forall i | 0 <= i < k :: IsDigit(t[i])
  {
    if t != [] && IsDigit(t[0]) then 1 + DigitRun(t[1..]) else 0
  }

  function NatOf(ds: string): nat
    requires forall i | 0 <= i < |ds| :: IsDigit(ds[i])
  {
    if ds == [] then 0
    else
      assert IsDigit(ds[|ds| - 1]);
      NatOf(ds[..|ds| - 1]) * 10 + (ds[|ds| - 1] as int - '0' as int)
  }

  /** Skips an optional fraction; None if it is malformed. */
  function SkipFraction(t: string): (r: Option<string>)
    ensures r.Some? ==> |r.value| <= |t|
  {
    if t == [] || t[0] != '.' then Some(t)
    else if DigitRun(t[1..]) == 0 then None
    else Some(t[1..][DigitRun(t[1..])..])
  }

  function SkipExponent(t: string): (r: Option<string>)
    ensures r.Some? ==> |r.value| <= |t|
  {
    if t == [] || (t[0] != 'e' && t[0] != 'E') then Some(t)
    else
      var u := if |t| > 1 && (t[1] == '+' || t[1] == '-') then t[2..] else t[1..];
      if DigitRun(u) == 0 then None else Some(u[DigitRun(u)..])
  }

  function IntegerToken(negative: bool, n: nat): Json {
    if !negative then (if n <= U64_MAX then Integer(n) else Decimal)
    else if n == 0 || n > 0x8000_0000_0000_0000 then Decimal
    else Integer(0 - n)
  }

  /** A number after its sign: section 6 of RFC 8259. */
  function ParseUnsigned(negative: bool, u: string): (r: Option<(Json, string)>)
    ensures r.Some? ==> |r.value.1| < |u|
  {
    var k := DigitRun(u);
    if k == 0 || (u[0] == '0' && k > 1) then None
    else
      var fraction := SkipFraction(u[k..]);
      if fraction.None? then None
      else
        var exponent := SkipExponent(fraction.value);
        if exponent.None? then None
        else if exponent.value == u[k..] then Some((IntegerToken(negative, NatOf(u[..k])), u[k..]))
        else Some((Decimal, exponent.value))
  }

  function ParseNumber(t: string): (r: Option<(Json, string)>)
    ensures r.Some? ==> |r.value.1| < |t|
  {
    if t != [] && t[0] == '-' then ParseUnsigned(true, t[1..]) else ParseUnsigned(false, t)
  }

  function HexValue(c: char): Option<nat> {
    if IsDigit(c) then Some(c as int - '0' as int)
    else if 'a' <= c <= 'f' then Some(c as int - 'a' as int + 10)
    else if 'A' <= c <= 'F' then Some(c as int - 'A' as int + 10)
    else None
  }

  function Hex4(t: string): (r: Option<nat>)
    ensures r.Some? ==> |t| >= 4 && r.value < 0x1_0000
  {
    if |t| < 4 then None
    else
      var a, b, c, d := HexValue(t[0]), HexValue(t[1]), HexValue(t[2]), HexValue(t[3]);
      if a.None? || b.None? || c.None? || d.None? then None
      else Some(a.value * 4096 + b.value * 256 + c.value * 16 + d.value)
  }

  /** The character after a backslash-u; surrogates count only in pairs. */
  function ParseUnicodeEscape(t: string): (r: Option<(char, string)>)
    ensures r.Some? ==> |r.value.1| < |t|
  {
    var h := Hex4(t);
    if h.None? || 0xDC00 <= h.value < 0xE000 then None
    else if h.value < 0xD800 || 0xE000 <= h.value then Some((h.value as char, t[4..]))
    else if |t| < 6 || t[4] != '\\' || t[5] != 'u' then None
    else
      var low := Hex4(t[6..]);
      if low.None? || low.value < 0xDC00 || 0xE000 <= low.value then None
      else Some(((0x1_0000 + (h.value - 0xD800) * 0x400 + (low.value - 0xDC00)) as char, t[10..]))
  }

  const BACKSPACE := '\U{0008}'
  const FORM_FEED := '\U{000C}'

  /** One character of a string literal: section 7 of RFC 8259. */
  function ParseChar(t: string): (r: Option<(char, string)>)
    ensures r.Some? ==> |r.value.1| < |t|
  {
    if t == [] || t[0] == '"' || t[0] as int < 0x20 then None
    else if t[0] != '\\' then Some((t[0], t[1..]))
    else if |t| < 2 then None
    else match t[1]
      case '"' => Some(('"', t[2..]))
      case '\\' => Some(('\\', t[2..]))
      case '/' => Some(('/', t[2..]))
      case 'b' => Some((BACKSPACE, t[2..]))
      case 'f' => Some((FORM_FEED, t[2..]))
      case 'n' => Some(('\n', t[2..]))
      case 'r' => Some(('\r', t[2..]))
      case 't' => Some(('\t', t[2..]))
      case 'u' => ParseUnicodeEscape(t[2..])
      case _ => None
  }

  /** The characters up to and including the closing quote. */
  function ParseChars(t: string): (r: Option<(string, string)>)
    ensures r.Some? ==> |r.value.1| < |t|
    decreases |t|
  {
    if t != [] && t[0] == '"' then Some(("", t[1..]))
    else
      var c := ParseChar(t);
      if c.None? then None
      else
        var rest := ParseChars(c.value.1);
        if rest.None? then None else Some(([c.value.0] + rest.value.0, rest.value.1))
  }

  function ParseWord(t: string): (r: Option<(Json, string)>)
    ensures r.Some? ==> |r.value.1| < |t|
  {
    if "null" <= t then Some((Null, t[4..]))
    else if "true" <= t then Some((Bool(true), t[4..]))
    else if "false" <= t then Some((Bool(false), t[5..]))
    else None
  }

  // ---------------------------------------------------------------- values

  function ParseValue(text: string): (r: Option<(Json, string)>)
    ensures r.Some? ==> |r.value.1| < |text|
    decreases |text|, 0
  {
    var t := SkipSpace(text);
    if t == [] then None
    else if t[0] == '"' then
      var s := ParseChars(t[1..]);
      if s.None? then None else Some((Str(s.value.0), s.value.1))
    else if t[0] == '[' then
      var u := SkipSpace(t[1..]);
      if u != [] && u[0] == ']' then Some((Array([]), u[1..]))
      else
        var items := ParseItems(t[1..]);
        if items.None? then None else Some((Array(items.value.0), items.value.1))
    else if t[0] == '{' then
      var u := SkipSpace(t[1..]);
      if u != [] && u[0] == '}' then Some((Object([]), u[1..]))
      else
        var members := ParseMembers(t[1..]);
        if members.None? then None else Some((Object(members.value.0), members.value.1))
    else if t[0] == '-' || IsDigit(t[0]) then ParseNumber(t)
    else ParseWord(t)
  }

  /** One or more values separated by commas, and the closing bracket. */
  function ParseItems(text: string): (r: Option<(seq<Json>, string)>)
    ensures r.Some? ==> |r.value.1| < |text|
    decreases |text|, 1
  {
    var first := ParseValue(text);
    if first.None? then None
    else
      var u := SkipSpace(first.value.1);
      if u == [] then None
      else if u[0] == ']' then Some(([first.value.0], u[1..]))
      else if u[0] != ',' then None
      else
        var rest := ParseItems(u[1..]);
        if rest.None? then None else Some(([first.value.0] + rest.value.0, rest.value.1))
  }

  /** One or more key-value pairs separated by commas, and the closing brace. */
  function ParseMembers(text: string): (r: Option<(seq<Member>, string)>)
    ensures r.Some? ==> |r.value.1| < |text|
    decreases |text|, 1
  {
    var t := SkipSpace(text);
    if t == [] || t[0] != '"' then None
    else
      var key := ParseChars(t[1..]);
      if key.None? then None
      else
        var colon := SkipSpace(key.value.1);
        if colon == [] || colon[0] != ':' then None
        else
          var value := ParseValue(colon[1..]);
          if value.None? then None
          else
            var first := Member(key.value.0, value.value.0);
            var u := SkipSpace(value.value.1);
            if u == [] then None
            else if u[0] == '}' then Some(([first], u[1..]))
            else if u[0] != ',' then None
            else
              var rest := ParseMembers(u[1..]);
              if rest.None? then None else Some(([first] + rest.value.0, rest.value.1))
  }

  /** A whole document: one value with nothing but space around it. */
  function ParseDocument(text: string): Option<Json> {
    var r := ParseValue(text);
    if r.None? || SkipSpace(r.value.1) != [] then None else Some(r.value.0)
  }

  // ---------------------------------------------------------------- printing

  /** Values the printer accepts: machine integers and no decimals. */
  predicate Printable(v: Json) {
    match v
    case Null => true
    case Bool(_) => true
    case Integer(n) => I64_MIN <= n <= U64_MAX
    case Decimal => false
    case Str(_) => true
    case Array(items) => forall x | x in items :: Printable(x)
    case Object(members) => forall m | m in members :: Printable(m.value)
  }

  function Digit(n: nat): char
    requires n < 10
  {
    ('0' as int + n) as char
  }

  function DigitsOf(n: nat): string {
    if n < 10 then [Digit(n)] else DigitsOf(n / 10) + [Digit(n % 10)]
  }

  function PrintInteger(n: int): string {
    if n < 0 then "-" + DigitsOf(-n) else DigitsOf(n)
  }

  function HexDigit(n: nat): char
    requires n < 16
  {
    if n < 10 then Digit(n) else ('a' as int + (n - 10)) as char
  }

  function EscapeChar(c: char): string {
    match c
    case '"' => "\\\""
    case '\\' => "\\\\"
    case '\n' => "\\n"
    case '\r' => "\\r"
    case '\t' => "\\t"
    case _ =>
      if c == BACKSPACE then "\\b"
      else if c == FORM_FEED then "\\f"
      else if c as int < 0x20 then "\\u00" + [HexDigit(c as int / 16), HexDigit(c as int % 16)]
      else [c]
  }

  function EscapeChars(s: string): string {
    if s == [] then "" else EscapeChar(s[0]) + EscapeChars(s[1..])
  }

  function PrintString(s: string): string {
    "\"" + EscapeChars(s) + "\""
  }

  function Print(v: Json): string
    requires Printable(v)
    decreases v, 1
  {
    match v
    case Null => "null"
    case Bool(b) => if b then "true" else "false"
    case Integer(n) => PrintInteger(n)
    case Str(s) => PrintString(s)
    case Array(items) => "[" + PrintItems(items) + "]"
    case Object(members) => "{" + PrintMembers(members) + "}"
  }

  function PrintItems(items: seq<Json>): string
    requires forall x | x in items :: Printable(x)
    decreases items, 0
  {
    if items == [] then ""
    else if |items| == 1 then Print(items[0])
    else Print(items[0]) + "," + PrintItems(items[1..])
  }

  function PrintMember(m: Member): string
    requires Printable(m.value)
    decreases m, 2
  {
    PrintString(m.key) + ":" + Print(m.value)
  }

  function PrintMembers(members: seq<Member>): string
    requires forall m | m in members :: Printable(m.value)
    decreases members, 0
  {
    if members == [] then ""
    else if |members| == 1 then PrintMember(members[0])
    else PrintMember(members[0]) + "," + PrintMembers(members[1..])
  }

  lemma Assoc(a: string, b: string, c: string)
    ensures a + b + c == a + (b + c)
  {
  }

  /** `escape_string`: appends the quoted form to a buffer. */
  method EscapeString(s: string, buffer: string) returns (output: string)
    ensures output == buffer + PrintString(s)
  {
    output := buffer + "\"";
    var i := 0;
    while i < |s|
      invariant 0 <= i <= |s|
      invariant output + EscapeChars(s[i..]) == buffer + "\"" + EscapeChars(s)
    {
      assert s[i..][1..] == s[i + 1..];
      output := output + EscapeChar(s[i]);
      i := i + 1;
    }
    assert s[i..] == [];
    Assoc(buffer, "\"" + EscapeChars(s), "\"");
    Assoc(buffer, "\"", EscapeChars(s));
    output := output + "\"";
  }

  /** `serialize_into`: appends the printed value to a buffer. */
  method SerializeInto(v: Json, buffer: string) returns (output: string)
    requires Printable(v)
    ensures output == buffer + Print(v)
    decreases v, 1
  {
    match v {
      case Null => output := buffer + "null";
      case Bool(b) => output := buffer + if b then "true" else "false";
      case Integer(n) => output := buffer + PrintInteger(n);
      case Str(s) => output := EscapeString(s, buffer);
      case Array(items) =>
        output := SerializeItems(v, buffer + "[");
        output := output + "]";
      case Object(members) =>
        output := SerializeMembers(v, buffer + "{");
        output := output + "}";
    }
  }

  method SerializeItems(v: Json, buffer: string) returns (output: string)
    requires v.Array? && Printable(v)
    ensures output == buffer + PrintItems(v.items)
    decreases v, 0
  {
    var items := v.items;
    output := buffer;
    for i := 0 to |items|
      invariant output == buffer + PrintItems(items[..i])
    {
      PrintItemsSnoc(items[..i], items[i]);
      assert items[..i + 1] == items[..i] + [items[i]];
      Assoc(buffer, PrintItems(items[..i]), ",");
      Assoc(buffer, PrintItems(items[..i]) + ",", Print(items[i]));
      if i != 0 {
        output := output + ",";
      }
      output := SerializeInto(items[i], output);
    }
    assert items[..|items|] == items;
  }

  method SerializeMember(m: Member, buffer: string) returns (output: string)
    requires Printable(m.value)
    ensures output == buffer + PrintMember(m)
    decreases m, 2
  {
    output := EscapeString(m.key, buffer);
    output := output + ":";
    output := SerializeInto(m.value, output);
    Assoc(buffer, PrintString(m.key), ":");
    Assoc(buffer, PrintString(m.key) + ":", Print(m.value));
  }

  method SerializeMembers(v: Json, buffer: string) returns (output: string)
    requires v.Object? && Printable(v)
    ensures output == buffer + PrintMembers(v.members)
    decreases v, 0
  {
    var members := v.members;
    output := buffer;
    for i := 0 to |members|
      invariant output == buffer + PrintMembers(members[..i])
    {
      PrintMembersSnoc(members[..i], members[i]);
      assert members[..i + 1] == members[..i] + [members[i]];
      Assoc(buffer, PrintMembers(members[..i]), ",");
      Assoc(buffer, PrintMembers(members[..i]) + ",", PrintMember(members[i]));
      if i != 0 {
        output := output + ",";
      }
      output := SerializeMember(members[i], output);
    }
    assert members[..|members|] == members;
  }

  lemma {:induction false} PrintItemsSnoc(items: seq<Json>, last: Json)
    requires (forall x | x in items :: Printable(x)) && Printable(last)
    ensures PrintItems(items + [last]) == (if items == [] then "" else PrintItems(items) + ",") + Print(last)
  {
    if items == [] {
      assert items + [last] == [last];
    } else {
      assert (items + [last])[1..] == items[1..] + [last];
      PrintItemsSnoc(items[1..], last);
    }
  }

  lemma {:induction false} PrintMembersSnoc(members: seq<Member>, last: Member)
    requires (forall m | m in members :: Printable(m.value)) && Printable(last.value)
    ensures PrintMembers(members + [last])
            == (if members == [] then "" else PrintMembers(members) + ",") + PrintMember(last)
  {
    if members == [] {
      assert members + [last] == [last];
    } else {
      assert (members + [last])[1..] == members[1..] + [last];
      PrintMembersSnoc(members[1..], last);
    }
  }

  // ---------------------------------------------------------------- round trip

  lemma {:induction false} DigitRunOf(ds: string, rest: string)
    requires forall i | 0 <= i < |ds| :: IsDigit(ds[i])
    requires rest == [] || !IsDigit(rest[0])
    ensures DigitRun(ds + rest) == |ds|
  {
    if ds == [] {
      assert ds + rest == rest;
    } else {
      assert (ds + rest)[1..] == ds[1..] + rest;
      DigitRunOf(ds[1..], rest);
    }
  }

  /** Printed digits are digits, without a leading zero, and denote the number. */
  lemma {:induction false} DigitsDenote(n: nat)
    ensures |DigitsOf(n)| >= 1
    ensures forall i | 0 <= i < |DigitsOf(n)| :: IsDigit(DigitsOf(n)[i])
    ensures DigitsOf(n)[0] == '0' ==> |DigitsOf(n)| == 1
    ensures NatOf(DigitsOf(n)) == n
  {
    if n < 10 {
      assert DigitsOf(n)[..0] == [];
    } else {
      DigitsDenote(n / 10);
      assert DigitsOf(n)[..|DigitsOf(n)| - 1] == DigitsOf(n / 10);
    }
  }

  /** What may follow a value in printed text. */
  predicate Stops(rest: string) {
    rest == [] || rest[0] == ',' || rest[0] == ']' || rest[0] == '}'
  }

  lemma UnsignedRoundTrip(negative: bool, n: nat, rest: string)
    requires Stops(rest)
    ensures ParseUnsigned(negative, DigitsOf(n) + rest) == Some((IntegerToken(negative, n), rest))
  {
    var ds := DigitsOf(n);
    var u := ds + rest;
    DigitsDenote(n);
    DigitRunOf(ds, rest);
    assert u[..|ds|] == ds && u[|ds|..] == rest && u[0] == ds[0];
    assert SkipFraction(rest) == Some(rest) && SkipExponent(rest) == Some(rest);
  }

  lemma SignSplits(t: string, u: string)
    requires t == "-" + u
    ensures ParseNumber(t) == ParseUnsigned(true, u)
  {
  }

  lemma NumberRoundTrip(n: int, rest: string)
    requires I64_MIN <= n <= U64_MAX && Stops(rest)
    ensures ParseNumber(PrintInteger(n) + rest) == Some((Integer(n), rest))
  {
    var magnitude: nat := if n < 0 then -n else n;
    var u := DigitsOf(magnitude) + rest;
    UnsignedRoundTrip(n < 0, magnitude, rest);
    if n < 0 {
      Assoc("-", DigitsOf(magnitude), rest);
      SignSplits(PrintInteger(n) + rest, u);
    } else {
      DigitsDenote(magnitude);
      assert IsDigit(u[0]);
    }
  }

  lemma CharRoundTrip(c: char, rest: string)
    ensures ParseChar(EscapeChar(c) + rest) == Some((c, rest))
    ensures EscapeChar(c) != [] && EscapeChar(c)[0] != '"'
  {
  }

  lemma {:induction false} CharsRoundTrip(s: string, rest: string)
    ensures ParseChars(EscapeChars(s) + "\"" + rest) == Some((s, rest))
  {
    var t := EscapeChars(s) + "\"" + rest;
    if s == [] {
      assert t[0] == '"' && t[1..] == rest;
    } else {
      var tail := EscapeChars(s[1..]) + "\"" + rest;
      assert t == EscapeChar(s[0]) + tail;
      CharRoundTrip(s[0], tail);
      CharsRoundTrip(s[1..], rest);
      assert s == [s[0]] + s[1..];
    }
  }

  /** The first character of printed text tells the kind of value, and is never space or a closing bracket. */
  lemma PrintHead(v: Json)
    requires Printable(v)
    ensures |Print(v)| >= 1
    ensures var c := Print(v)[0];
            && !IsSpace(c) && c != ']' && c != '}' && c as int < 0x80
            && (v.Str? <==> c == '"') && (v.Array? <==> c == '[') && (v.Object? <==> c == '{')
            && (v.Integer? <==> c == '-' || IsDigit(c))
  {
    if v.Integer? {
      DigitsDenote(if v.n < 0 then -v.n else v.n);
    }
  }

  lemma WordRoundTrip(v: Json, rest: string)
    requires v.Null? || v.Bool?
    ensures ParseWord(Print(v) + rest) == Some((v, rest))
  {
    var w := Print(v);
    var t := w + rest;
    assert t[|w|..] == rest && t[0] == w[0];
  }

  lemma StringRoundTrip(s: string, rest: string)
    ensures ParseValue(PrintString(s) + rest) == Some((Str(s), rest))
  {
    var t := PrintString(s) + rest;
    assert t[0] == '"' && t[1..] == EscapeChars(s) + "\"" + rest;
    CharsRoundTrip(s, rest);
  }

  lemma {:induction false} ValueRoundTrip(v: Json, rest: string)
    requires Printable(v) && Stops(rest)
    ensures ParseValue(Print(v) + rest) == Some((v, rest))
    decreases v, 2
  {
    if v.Str? {
      StringRoundTrip(v.s, rest);
    } else if v.Array? {
      ArrayRoundTrip(v, rest);
    } else if v.Object? {
      ObjectRoundTrip(v, rest);
    } else {
      PrintHead(v);
      var t := Print(v) + rest;
      assert t[0] == Print(v)[0] && SkipSpace(t) == t;
      if v.Integer? {
        NumberRoundTrip(v.n, rest);
      } else {
        WordRoundTrip(v, rest);
      }
    }
  }

  lemma {:induction false} ArrayRoundTrip(v: Json, rest: string)
    requires v.Array? && Printable(v)
    ensures ParseValue(Print(v) + rest) == Some((v, rest))
    decreases v, 1
  {
    var t := Print(v) + rest;
    var u := PrintItems(v.items) + "]" + rest;
    assert t[0] == '[' && t[1..] == u;
    if v.items == [] {
      assert u[0] == ']' && u[1..] == rest && SkipSpace(u) == u;
    } else {
      ItemsRoundTrip(v.items, u, rest);
    }
  }

  lemma {:induction false} ObjectRoundTrip(v: Json, rest: string)
    requires v.Object? && Printable(v)
    ensures ParseValue(Print(v) + rest) == Some((v, rest))
    decreases v, 1
  {
    var t := Print(v) + rest;
    var u := PrintMembers(v.members) + "}" + rest;
    assert t[0] == '{' && t[1..] == u;
    if v.members == [] {
      assert u[0] == '}' && u[1..] == rest && SkipSpace(u) == u;
    } else {
      MembersRoundTrip(v.members, u, rest);
    }
  }

  /** The text of an item list, split where the parser splits it. */
  lemma ItemsText(items: seq<Json>, t: string, rest: string, tail: string, after: string)
    requires items != [] && forall x | x in items :: Printable(x)
    requires t == PrintItems(items) + "]" + rest && tail == PrintItems(items[1..]) + "]" + rest
    requires after == if |items| == 1 then "]" + rest else "," + tail
    ensures t == Print(items[0]) + after
    ensures t != [] && t[0] == Print(items[0])[0]
    ensures after[1..] == if |items| == 1 then rest else tail
  {
    var head := Print(items[0]);
    PrintHead(items[0]);
    if |items| == 1 {
      Assoc(head, "]", rest);
    } else {
      var more := PrintItems(items[1..]);
      Assoc(head, "," + more, "]" + rest);
      Assoc(head + "," + more, "]", rest);
      Assoc(head, ",", more);
      Assoc(",", more, "]" + rest);
      Assoc(more, "]", rest);
    }
  }

  lemma {:induction false} ItemsRoundTrip(items: seq<Json>, t: string, rest: string)
    requires items != [] && forall x | x in items :: Printable(x)
    requires t == PrintItems(items) + "]" + rest
    ensures ParseItems(t) == Some((items, rest))
    ensures t != [] && !IsSpace(t[0]) && t[0] != ']'
    decreases items, 0
  {
    var tail := PrintItems(items[1..]) + "]" + rest;
    var after := if |items| == 1 then "]" + rest else "," + tail;
    ItemsText(items, t, rest, tail, after);
    PrintHead(items[0]);
    ValueRoundTrip(items[0], after);
    assert SkipSpace(after) == after;
    if |items| > 1 {
      ItemsRoundTrip(items[1..], tail, rest);
      assert items == [items[0]] + items[1..];
    } else {
      assert items == [items[0]];
    }
  }

  /** The text of a member list, split where the parser splits it. */
  lemma MembersText(members: seq<Member>, t: string, rest: string, tail: string, after: string)
    requires members != [] && forall m | m in members :: Printable(m.value)
    requires t == PrintMembers(members) + "}" + rest && tail == PrintMembers(members[1..]) + "}" + rest
    requires after == if |members| == 1 then "}" + rest else "," + tail
    ensures t == PrintMember(members[0]) + after
    ensures after[1..] == if |members| == 1 then rest else tail
  {
    var head := PrintMember(members[0]);
    if |members| == 1 {
      Assoc(head, "}", rest);
    } else {
      var more := PrintMembers(members[1..]);
      Assoc(head, "," + more, "}" + rest);
      Assoc(head + "," + more, "}", rest);
      Assoc(head, ",", more);
      Assoc(",", more, "}" + rest);
      Assoc(more, "}", rest);
    }
  }

  lemma MemberText(m: Member, after: string)
    requires Printable(m.value)
    ensures var t := PrintMember(m) + after;
            && t != [] && t[0] == '"'
            && t[1..] == EscapeChars(m.key) + "\"" + (":" + (Print(m.value) + after))
  {
    var value := Print(m.value);
    Assoc(PrintString(m.key), ":", value);
    Assoc(PrintString(m.key), ":" + value, after);
    Assoc(":", value, after);
    assert PrintString(m.key) == "\"" + (EscapeChars(m.key) + "\"");
    Assoc("\"", EscapeChars(m.key) + "\"", ":" + (value + after));
  }

  /** What the parser does with one member, given what it finds in the text. */
  lemma MemberStep(t: string, m: Member, colon: string, after: string)
    requires t != [] && t[0] == '"' && ParseChars(t[1..]) == Some((m.key, colon))
    requires colon != [] && colon[0] == ':' && ParseValue(colon[1..]) == Some((m.value, after))
    requires after != [] && (after[0] == '}' || after[0] == ',')
    ensures after[0] == '}' ==> ParseMembers(t) == Some(([m], after[1..]))
    ensures after[0] == ',' && ParseMembers(after[1..]).Some? ==>
              ParseMembers(t) == Some(([m] + ParseMembers(after[1..]).value.0, ParseMembers(after[1..]).value.1))
  {
    assert SkipSpace(t) == t && SkipSpace(colon) == colon && SkipSpace(after) == after;
  }

  lemma {:induction false} MembersRoundTrip(members: seq<Member>, t: string, rest: string)
    requires members != [] && forall m | m in members :: Printable(m.value)
    requires t == PrintMembers(members) + "}" + rest
    ensures ParseMembers(t) == Some((members, rest))
    ensures t != [] && t[0] == '"'
    decreases members, 0
  {
    var m := members[0];
    var tail := PrintMembers(members[1..]) + "}" + rest;
    var after := if |members| == 1 then "}" + rest else "," + tail;
    MembersText(members, t, rest, tail, after);
    MemberText(m, after);
    var colon := ":" + (Print(m.value) + after);
    CharsRoundTrip(m.key, colon);
    assert colon[1..] == Print(m.value) + after;
    ValueRoundTrip(m.value, after);
    MemberStep(t, m, colon, after);
    if |members| > 1 {
      MembersRoundTrip(members[1..], tail, rest);
      assert members == [m] + members[1..];
    } else {
      assert members == [m];
    }
  }

  /** Parsing printed text gives back the value. */
  lemma PrintThenParse(v: Json)
    requires Printable(v)
    ensures ParseDocument(Print(v)) == Some(v)
  {
    ValueRoundTrip(v, "");
    assert Print(v) + "" == Print(v);
  }

  /** Distinct values print differently. */
  lemma PrintInjective(v: Json, w: Json)
    requires Printable(v) && Printable(w) && Print(v) == Print(w)
    ensures v == w
  {
    PrintThenParse(v);
    PrintThenParse(w);
  }
}
