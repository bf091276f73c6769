/** The bundle's hexadecimal embedding of byte strings (src/bundle.rs). */
module Hex {
  import opened Wrappers
  import Utf8
  import Wire

  const MAX_EMBEDDED_HEX_CHARS := 8_192

  type Bytes = seq<Utf8.byte>

  function Digit(n: int): (c: char)
    requires 0 <= n < 16
    ensures Wire.IsLowerHex(c) && Value(c) == n
  {
    if n < 10 then '0' + n as char else 'a' + (n - 10) as char
  }

  function Value(c: char): (n: int)
    requires Wire.IsLowerHex(c)
    ensures 0 <= n < 16
  {
    if c <= '9' then c as int - '0' as int else c as int - 'a' as int + 10
  }

  /** Two digits a byte, the high one first. */
  function Written(b: Bytes): string {
    if b == [] then "" else [Digit(b[0] / 16), Digit(b[0] % 16)] + Written(b[1..])
  }

  function Encode(b: Bytes): Option<string> {
    if 2 * |b| > MAX_EMBEDDED_HEX_CHARS then None else Some(Written(b))
  }

  predicate AllHex(s: string) {
    forall i | 0 <= i < |s| :: Wire.IsLowerHex(s[i])
  }

  predicate HexText(s: string) {
    |s| % 2 == 0 && AllHex(s)
  }

  function Pair(a: char, b: char): Utf8.byte
    requires Wire.IsLowerHex(a) && Wire.IsLowerHex(b)
  {
    Value(a) * 16 + Value(b)
  }

  function Read(s: string): Bytes
    requires HexText(s)
  {
    if s == "" then [] else [Pair(s[0], s[1])] + Read(s[2..])
  }

  function Decode(s: string): Option<Bytes> {
    if s == "" || |s| > MAX_EMBEDDED_HEX_CHARS || !HexText(s) then None else Some(Read(s))
  }

  lemma {:induction false} WrittenAppend(b: Bytes, x: Utf8.byte)
    ensures Written(b + [x]) == Written(b) + [Digit(x / 16), Digit(x % 16)]
  {
    if b == [] {
      assert [x][1..] == [];
    } else {
      assert (b + [x])[1..] == b[1..] + [x];
      WrittenAppend(b[1..], x);
    }
  }

  method EncodeHex(b: Bytes) returns (r: Option<string>)
    ensures r == Encode(b)
  {
    if 2 * |b| > MAX_EMBEDDED_HEX_CHARS {
      return None;
    }
    var value := "";
    for i := 0 to |b|
      invariant value == Written(b[..i])
    {
      assert b[..i + 1] == b[..i] + [b[i]];
      WrittenAppend(b[..i], b[i]);
      value := value + [Digit(b[i] / 16), Digit(b[i] % 16)];
    }
    assert b[..|b|] == b;
    r := Some(value);
  }

  lemma ReadStep(s: string, index: nat)
    requires HexText(s) && index < |s| && index % 2 == 0
    ensures index + 1 < |s| && HexText(s[index..]) && HexText(s[index + 2..])
    ensures Read(s[index..]) == [Pair(s[index], s[index + 1])] + Read(s[index + 2..])
  {
  }

  method DecodeHex(s: string) returns (r: Option<Bytes>)
    ensures r == Decode(s)
  {
    if s == "" || |s| > MAX_EMBEDDED_HEX_CHARS || !HexText(s) {
      return None;
    }
    var output: Bytes := [];
    var index := 0;
    assert s[0..] == s;
    while index < |s|
      invariant 0 <= index <= |s| && index % 2 == 0 && HexText(s[index..])
      invariant output + Read(s[index..]) == Read(s)
    {
      ReadStep(s, index);
      output := output + [Pair(s[index], s[index + 1])];
      index := index + 2;
    }
    assert s[index..] == "";
    assert output == output + [];
    r := Some(output);
  }

  lemma {:induction false} WrittenReads(b: Bytes)
    ensures |Written(b)| == 2 * |b| && HexText(Written(b)) && Read(Written(b)) == b
  {
    if b != [] {
      WrittenReads(b[1..]);
      var s := Written(b);
      assert s[2..] == Written(b[1..]);
      assert Pair(s[0], s[1]) == b[0];
      assert b == [b[0]] + b[1..];
    }
  }

  lemma PairDigits(a: char, b: char)
    requires Wire.IsLowerHex(a) && Wire.IsLowerHex(b)
    ensures Digit(Pair(a, b) / 16) == a && Digit(Pair(a, b) % 16) == b
  {
  }

  lemma {:induction false} ReadWrites(s: string)
    requires HexText(s)
    ensures Written(Read(s)) == s && 2 * |Read(s)| == |s|
  {
    if s != "" {
      var rest := s[2..];
      ReadWrites(rest);
      PairDigits(s[0], s[1]);
      assert Read(s) == [Pair(s[0], s[1])] + Read(rest);
      assert Read(s)[1..] == Read(rest);
      assert s == [s[0], s[1]] + rest;
    }
  }

  /** What encodes decodes back, the empty string alone excepted: it encodes to text that is refused. */
  lemma EncodedDecodes(b: Bytes)
    requires Encode(b).Some?
    ensures Decode(Encode(b).value) == if b == [] then None else Some(b)
  {
    WrittenReads(b);
  }

  /** Accepted text is the encoding of what it decodes to, so no bytes have two accepted spellings. */
  lemma DecodedEncodes(s: string)
    requires Decode(s).Some?
    ensures Decode(s).value != [] && Encode(Decode(s).value) == Some(s)
  {
    ReadWrites(s);
  }
}
