/** UTF-8 as `String::from_utf8` and `str::len` see it. */
module Utf8 {

  type Byte = b: int | 0 <= b < 256
  type Bytes = seq<Byte>

  // ---------------------------------------------------------------- decoding

  predicate Continuation(b: Byte) {
    0x80 <= b < 0xC0
  }

  /** Length of the well-formed UTF-8 sequence that `s` starts with, 0 if it starts with none. */
  function FirstScalar(s: Bytes): (n: nat)
    ensures n <= |s|
  {
    if s == [] then 0
    else if s[0] < 0x80 then 1
    else if 0xC2 <= s[0] < 0xE0 && |s| >= 2 && Continuation(s[1]) then 2
    else if 0xE0 <= s[0] < 0xF0 && |s| >= 3 && Continuation(s[1]) && Continuation(s[2])
            && (s[0] == 0xE0 ==> s[1] >= 0xA0) && (s[0] == 0xED ==> s[1] < 0xA0) then 3
    else if 0xF0 <= s[0] < 0xF5 && |s| >= 4 && Continuation(s[1]) && Continuation(s[2]) && Continuation(s[3])
            && (s[0] == 0xF0 ==> s[1] >= 0x90) && (s[0] == 0xF4 ==> s[1] < 0x90) then 4
    else 0
  }

  /** `String::from_utf8` succeeds. */
  predicate ValidUtf8(s: Bytes) {
    s == [] || (FirstScalar(s) > 0 && ValidUtf8(s[FirstScalar(s)..]))
  }

  // ---------------------------------------------------------------- encoding

  /** The bytes of one character (section 3 of RFC 3629). */
  function EncodeChar(c: char): (b: Bytes)
    ensures 1 <= |b| <= 4
  {
    var n := c as int;
    if n < 0x80 then [n]
    else if n < 0x800 then [0xC0 + n / 0x40, 0x80 + n % 0x40]
    else if n < 0x10000 then [0xE0 + n / 0x1000, 0x80 + n / 0x40 % 0x40, 0x80 + n % 0x40]
    else [0xF0 + n / 0x40000, 0x80 + n / 0x1000 % 0x40, 0x80 + n / 0x40 % 0x40, 0x80 + n % 0x40]
  }

  function EncodeText(s: string): Bytes {
    if s == "" then [] else EncodeChar(s[0]) + EncodeText(s[1..])
  }

  // --------------------------------------------- valid is what encodes a text

  /** The remainder and the quotients that a character is split into. */
  lemma Digits(n: nat, q: nat, r: nat)
    requires r < 0x40
    ensures n == q * 0x40 + r <==> n / 0x40 == q && n % 0x40 == r
  {
  }

  lemma EncodedIsScalar(c: char, rest: Bytes)
    ensures FirstScalar(EncodeChar(c) + rest) == |EncodeChar(c)|
  {
    var n := c as int;
    var q := n / 0x40;
    assert n / 0x1000 == q / 0x40 && n / 0x40000 == q / 0x40 / 0x40;
    var s := EncodeChar(c) + rest;
    if 0x800 <= n < 0x10000 {
      assert s[0] == 0xE0 + q / 0x40 && s[1] == 0x80 + q % 0x40;
    } else if 0x10000 <= n {
      assert s[0] == 0xF0 + q / 0x40 / 0x40 && s[1] == 0x80 + q / 0x40 % 0x40;
    }
  }

  function Bits(b: Byte, mark: int): int {
    b as int - mark
  }

  /** The number that the bytes of a well-formed sequence spell. */
  function Spelled(s: Bytes): nat
    requires FirstScalar(s) > 0
  {
    match FirstScalar(s)
    case 1 => s[0]
    case 2 => Bits(s[0], 0xC0) * 0x40 + Bits(s[1], 0x80)
    case 3 => (Bits(s[0], 0xE0) * 0x40 + Bits(s[1], 0x80)) * 0x40 + Bits(s[2], 0x80)
    case _ => ((Bits(s[0], 0xF0) * 0x40 + Bits(s[1], 0x80)) * 0x40 + Bits(s[2], 0x80)) * 0x40 + Bits(s[3], 0x80)
  }

  lemma SpelledIsScalar(s: Bytes)
    requires FirstScalar(s) > 0
    ensures Spelled(s) < 0xD800 || 0xE000 <= Spelled(s) < 0x110000
  {
  }

  lemma SpelledEncodes(s: Bytes)
    requires FirstScalar(s) > 0 && (Spelled(s) < 0xD800 || 0xE000 <= Spelled(s) < 0x110000)
    ensures EncodeChar(Spelled(s) as char) == s[..FirstScalar(s)]
  {
    var n := Spelled(s);
    match FirstScalar(s) {
      case 1 =>
      case 2 => Digits(n, Bits(s[0], 0xC0), Bits(s[1], 0x80));
      case 3 =>
        var q := Bits(s[0], 0xE0) * 0x40 + Bits(s[1], 0x80);
        Digits(n, q, Bits(s[2], 0x80));
        Digits(q, Bits(s[0], 0xE0), Bits(s[1], 0x80));
        assert n / 0x1000 == q / 0x40;
      case _ =>
        var p := Bits(s[0], 0xF0) * 0x40 + Bits(s[1], 0x80);
        var q := p * 0x40 + Bits(s[2], 0x80);
        Digits(n, q, Bits(s[3], 0x80));
        Digits(q, p, Bits(s[2], 0x80));
        Digits(p, Bits(s[0], 0xF0), Bits(s[1], 0x80));
        assert n / 0x1000 == q / 0x40 && n / 0x40000 == p / 0x40;
    }
  }

  lemma {:induction false} EncodedIsValid(text: string)
    ensures ValidUtf8(EncodeText(text))
  {
    if text != "" {
      EncodedIsValid(text[1..]);
      EncodedIsScalar(text[0], EncodeText(text[1..]));
      var s := EncodeText(text);
      assert s[|EncodeChar(text[0])|..] == EncodeText(text[1..]);
    }
  }

  lemma {:induction false} ValidIsEncoded(s: Bytes) returns (text: string)
    requires ValidUtf8(s)
    ensures EncodeText(text) == s
    decreases |s|
  {
    hide FirstScalar, Spelled, EncodeChar;
    if s == [] {
      text := "";
    } else {
      var k := FirstScalar(s);
      var rest := ValidIsEncoded(s[k..]);
      SpelledIsScalar(s);
      SpelledEncodes(s);
      text := [Spelled(s) as char] + rest;
      assert text[1..] == rest;
      assert s[..k] + s[k..] == s;
    }
  }

  ghost predicate IsText(s: Bytes) {
    exists text :: EncodeText(text) == s
  }

  /** Bytes are accepted as text exactly when they are the encoding of some text. */
  lemma ValidExactlyEncodings(s: Bytes)
    ensures ValidUtf8(s) <==> IsText(s)
  {
    if ValidUtf8(s) {
      var text := ValidIsEncoded(s);
    }
    forall text: string | EncodeText(text) == s ensures ValidUtf8(s) {
      EncodedIsValid(text);
    }
  }
}
