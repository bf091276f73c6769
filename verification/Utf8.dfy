/** UTF-8 as RFC 3629 defines it, on strings of Unicode scalar values. */
module Utf8 {
  import opened Wrappers
  import Lex

  type byte = x: int | 0 <= x < 256

  predicate IsContinuation(b: byte) {
    0x80 <= b < 0xC0
  }

  function EncodeChar(c: char): (r: seq<byte>)
    ensures 1 <= |r| <= 4
  {
    var n := c as int;
    if n < 0x80 then [n]
    else if n < 0x800 then [0xC0 + n / 64, 0x80 + n % 64]
    else if n < 0x1_0000 then [0xE0 + n / 4096, 0x80 + n / 64 % 64, 0x80 + n % 64]
    else [0xF0 + n / 262_144, 0x80 + n / 4096 % 64, 0x80 + n / 64 % 64, 0x80 + n % 64]
  }

  function Encode(s: string): seq<byte> {
    if s == [] then [] else EncodeChar(s[0]) + Encode(s[1..])
  }

  predicate IsScalar(n: int) {
    0 <= n < 0xD800 || 0xE000 <= n < 0x11_0000
  }

  /** A byte less its marker bits. */
  function Low(b: byte, marker: int): int {
    b - marker
  }

  /** The character at the head of b and the number of bytes it takes; overlong forms and surrogates are refused. */
  function DecodeChar(b: seq<byte>): (r: Option<(char, nat)>)
    ensures r.Some? ==> 1 <= r.value.1 <= |b|
  {
    if b == [] then None
    else if b[0] < 0x80 then Some((b[0] as char, 1))
    else if 0xC2 <= b[0] < 0xE0 && |b| >= 2 && IsContinuation(b[1]) then
      Some(((Low(b[0], 0xC0) * 64 + Low(b[1], 0x80)) as char, 2))
    else if 0xE0 <= b[0] < 0xF0 && |b| >= 3 && IsContinuation(b[1]) && IsContinuation(b[2]) then
      var n := Low(b[0], 0xE0) * 4096 + Low(b[1], 0x80) * 64 + Low(b[2], 0x80);
      if n >= 0x800 && IsScalar(n) then Some((n as char, 3)) else None
    else if && 0xF0 <= b[0] < 0xF5 && |b| >= 4
            && IsContinuation(b[1]) && IsContinuation(b[2]) && IsContinuation(b[3]) then
      var n := Low(b[0], 0xF0) * 262_144 + Low(b[1], 0x80) * 4096 + Low(b[2], 0x80) * 64 + Low(b[3], 0x80);
      if n >= 0x1_0000 && IsScalar(n) then Some((n as char, 4)) else None
    else None
  }

  function Decode(b: seq<byte>): Option<string>
    decreases |b|
  {
    if b == [] then Some("")
    else
      var first := DecodeChar(b);
      if first.None? then None
      else
        var rest := Decode(b[first.value.1..]);
        if rest.None? then None else Some([first.value.0] + rest.value)
  }

  /** Base-64 digits of a code point. */
  lemma Digits(n: nat)
    ensures n == n / 64 * 64 + n % 64
    ensures n / 64 == n / 4096 * 64 + n / 64 % 64
    ensures n / 4096 == n / 262_144 * 64 + n / 4096 % 64
  {
  }

  lemma DigitsUnique(x: nat, y: nat)
    requires y < 64
    ensures (x * 64 + y) / 64 == x && (x * 64 + y) % 64 == y
  {
  }

  lemma DecodeEncodedChar(c: char, rest: seq<byte>)
    ensures DecodeChar(EncodeChar(c) + rest) == Some((c, |EncodeChar(c)|))
  {
    var e := EncodeChar(c);
    var b := e + rest;
    var n := c as int;
    Digits(n);
    assert b[0] == e[0];
    if n >= 0x80 { assert b[1] == e[1]; }
    if n >= 0x800 { assert b[2] == e[2]; }
    if n >= 0x1_0000 { assert b[3] == e[3]; }
  }

  /** Decoding inverts encoding. */
  lemma {:induction false} DecodeEncode(s: string)
    ensures Decode(Encode(s)) == Some(s)
  {
    if s != [] {
      DecodeEncodedChar(s[0], Encode(s[1..]));
      assert Encode(s)[|EncodeChar(s[0])|..] == Encode(s[1..]);
      DecodeEncode(s[1..]);
      assert s == [s[0]] + s[1..];
    }
  }

  lemma DecodedCharEncodes(b: seq<byte>)
    requires DecodeChar(b).Some?
    ensures EncodeChar(DecodeChar(b).value.0) == b[..DecodeChar(b).value.1]
  {
    var (c, width) := DecodeChar(b).value;
    var n := c as int;
    Digits(n);
    match width {
      case 2 =>
        DigitsUnique(Low(b[0], 0xC0), Low(b[1], 0x80));
      case 3 =>
        DigitsUnique(Low(b[0], 0xE0) * 64 + Low(b[1], 0x80), Low(b[2], 0x80));
        DigitsUnique(Low(b[0], 0xE0), Low(b[1], 0x80));
      case 4 =>
        DigitsUnique(Low(b[0], 0xF0) * 4096 + Low(b[1], 0x80) * 64 + Low(b[2], 0x80), Low(b[3], 0x80));
        DigitsUnique(Low(b[0], 0xF0) * 64 + Low(b[1], 0x80), Low(b[2], 0x80));
        DigitsUnique(Low(b[0], 0xF0), Low(b[1], 0x80));
      case _ =>
    }
  }

  /** Accepted bytes are the encoding of what they decode to, so no string has two accepted encodings. */
  lemma {:induction false} EncodeDecode(b: seq<byte>)
    requires Decode(b).Some?
    ensures Encode(Decode(b).value) == b
    decreases |b|
  {
    if b != [] {
      DecodedCharEncodes(b);
      var (c, width) := DecodeChar(b).value;
      var rest := b[width..];
      EncodeDecode(rest);
      var s := [c] + Decode(rest).value;
      assert Decode(b).value == s;
      assert s[0] == c && s[1..] == Decode(rest).value;
      calc {
        Encode(s);
        EncodeChar(c) + Encode(s[1..]);
        b[..width] + rest;
        b;
      }
    }
  }

  // ---------------------------------------------------------------- order

  lemma {:induction false} CommonPrefix(p: seq<int>, a: seq<int>, b: seq<int>)
    ensures Lex.Less(p + a, p + b) <==> Lex.Less(a, b)
  {
    if p == [] {
      assert p + a == a && p + b == b;
    } else {
      assert (p + a)[1..] == p[1..] + a && (p + b)[1..] == p[1..] + b;
      CommonPrefix(p[1..], a, b);
    }
  }

  lemma LastDigitOrder(n: nat, m: nat)
    requires n < m
    ensures n / 64 < m / 64 || (n / 64 == m / 64 && n % 64 < m % 64)
  {
  }

  /** Where two code points first differ among their base-64 digits. */
  lemma DigitOrder(n: nat, m: nat)
    requires n < m
    ensures || n / 262_144 < m / 262_144
            || (n / 262_144 == m / 262_144 && n / 4096 % 64 < m / 4096 % 64)
            || (n / 262_144 == m / 262_144 && n / 4096 == m / 4096 && n / 64 % 64 < m / 64 % 64)
            || (n / 262_144 == m / 262_144 && n / 4096 == m / 4096 && n / 64 == m / 64 && n % 64 < m % 64)
  {
    Digits(n);
    Digits(m);
    LastDigitOrder(n, m);
    if n / 64 < m / 64 {
      LastDigitOrder(n / 64, m / 64);
      assert n / 64 / 64 == n / 4096 && m / 64 / 64 == m / 4096;
      if n / 4096 < m / 4096 {
        LastDigitOrder(n / 4096, m / 4096);
      }
    }
  }

  /** The lead byte tells the width. */
  lemma LeadByte(c: char)
    ensures var e := EncodeChar(c);
            && (|e| == 1 <==> e[0] < 0x80) && (|e| == 2 <==> 0xC0 <= e[0] < 0xE0)
            && (|e| == 3 <==> 0xE0 <= e[0] < 0xF0) && (|e| == 4 <==> 0xF0 <= e[0])
  {
  }

  /** Two byte strings of one length, the first of them smaller at index k and equal to the other before. */
  predicate DifferAt(a: seq<byte>, b: seq<byte>, k: nat) {
    && k < |a| == |b| <= 4 && a[k] < b[k]
    && (k > 0 ==> a[0] == b[0]) && (k > 1 ==> a[1] == b[1]) && (k > 2 ==> a[2] == b[2])
  }

  lemma TwoBytesDiffer(c: char, d: char)
    requires c < d && |EncodeChar(c)| == |EncodeChar(d)| == 2
    ensures DifferAt(EncodeChar(c), EncodeChar(d), 0) || DifferAt(EncodeChar(c), EncodeChar(d), 1)
  {
  }

  lemma ThreeBytesDiffer(c: char, d: char)
    requires c < d && |EncodeChar(c)| == |EncodeChar(d)| == 3
    ensures var a, b := EncodeChar(c), EncodeChar(d); DifferAt(a, b, 0) || DifferAt(a, b, 1) || DifferAt(a, b, 2)
  {
    DigitOrder(c as int, d as int);
  }

  lemma FourBytes(c: char)
    requires |EncodeChar(c)| == 4
    ensures var (e, n) := (EncodeChar(c), c as int);
            && e[0] == 0xF0 + n / 262_144 && e[1] == 0x80 + n / 4096 % 64
            && e[2] == 0x80 + n / 64 % 64 && e[3] == 0x80 + n % 64
  {
  }

  lemma FourBytesDiffer(c: char, d: char)
    requires c < d && |EncodeChar(c)| == |EncodeChar(d)| == 4
    ensures var a, b := EncodeChar(c), EncodeChar(d);
            DifferAt(a, b, 0) || DifferAt(a, b, 1) || DifferAt(a, b, 2) || DifferAt(a, b, 3)
  {
    DigitOrder(c as int, d as int);
    FourBytes(c);
    FourBytes(d);
  }

  /** Index of the first byte at which the encodings of two characters differ. */
  lemma CharsDiffer(c: char, d: char) returns (k: nat)
    requires c < d
    ensures k < |EncodeChar(c)| && k < |EncodeChar(d)|
    ensures EncodeChar(c)[..k] == EncodeChar(d)[..k]
    ensures EncodeChar(c)[k] < EncodeChar(d)[k]
  {
    var a, b := EncodeChar(c), EncodeChar(d);
    if |a| != |b| || |a| == 1 {
      LeadByte(c);
      LeadByte(d);
      k := 0;
    } else {
      match |a| {
        case 2 => TwoBytesDiffer(c, d);
        case 3 => ThreeBytesDiffer(c, d);
        case _ => FourBytesDiffer(c, d);
      }
      k := FirstDifference(a, b);
    }
  }

  lemma FirstDifference(a: seq<byte>, b: seq<byte>) returns (k: nat)
    requires DifferAt(a, b, 0) || DifferAt(a, b, 1) || DifferAt(a, b, 2) || DifferAt(a, b, 3)
    ensures k < |a| && a[..k] == b[..k] && a[k] < b[k]
  {
    k := if DifferAt(a, b, 0) then 0 else if DifferAt(a, b, 1) then 1 else if DifferAt(a, b, 2) then 2 else 3;
  }

  /** The encoding of the smaller character comes first whatever follows the two. */
  lemma CharOrder(c: char, d: char, x: seq<int>, y: seq<int>)
    requires c < d
    ensures Lex.Less(EncodeChar(c) + x, EncodeChar(d) + y)
  {
    var k := CharsDiffer(c, d);
    var a, b := EncodeChar(c) + x, EncodeChar(d) + y;
    CommonPrefix(EncodeChar(c)[..k], a[k..], b[k..]);
    assert a == EncodeChar(c)[..k] + a[k..] && b == EncodeChar(d)[..k] + b[k..];
  }

  /** Byte order of encodings is code point order of strings (section 1 of RFC 3629). */
  lemma {:induction false} OrderPreserved(a: string, b: string)
    ensures Lex.Less(Encode(a), Encode(b)) <==> Lex.Before(a, b)
    decreases |a|
  {
    if a != [] && b != [] {
      var x, y := Encode(a[1..]), Encode(b[1..]);
      assert Lex.Codes(a)[1..] == Lex.Codes(a[1..]) && Lex.Codes(b)[1..] == Lex.Codes(b[1..]);
      if a[0] == b[0] {
        CommonPrefix(EncodeChar(a[0]), x, y);
        OrderPreserved(a[1..], b[1..]);
      } else if a[0] < b[0] {
        CharOrder(a[0], b[0], x, y);
      } else {
        CharOrder(b[0], a[0], y, x);
        if Lex.Less(Encode(a), Encode(b)) {
          Lex.LessTransitive(Encode(a), Encode(b), Encode(a));
          Lex.LessIrreflexive(Encode(a));
        }
      }
    }
  }
}
