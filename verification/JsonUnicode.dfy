/** What the escapes of a JSON string stand for, in numbers: section 7 of RFC 8259 for the
    letters, and the table in section 3 of RFC 3629 for the bytes of a code point.
  */
module JsonUnicode {
  import opened Arithmetic
  import opened Bytes
  import opened Json
  import opened JsonGrammar

  // ----- Code points, decoded

  datatype Decoding = CodePoint(value: nat, length: nat) | Malformed

  /** The six bits a continuation byte carries. */
  function Six(b: Byte): nat {
    if 0x80 <= b <= 0xBF then b - 0x80 else 0
  }

  predicate Continues(s: Text, k: nat) {
    k <= |s| && forall i :: 1 <= i < k ==> 0x80 <= s[i] <= 0xBF
  }

  /** The first code point of a text: the lead byte says how many bytes there are, and every
      byte after it carries six bits. */
  function FirstCodePoint(s: Text): Decoding {
    if s == [] then Malformed
    else
      var lead: int := s[0];
      if lead <= 0x7F then CodePoint(lead, 1)
      else if 0xC2 <= lead <= 0xDF && Continues(s, 2) then CodePoint((lead - 0xC0) * 0x40 + Six(s[1]), 2)
      else if 0xE0 <= lead <= 0xEF && Continues(s, 3) then
        var u := ((lead - 0xE0) * 0x40 + Six(s[1])) * 0x40 + Six(s[2]);
        if u < 0x800 || Surrogate(u) then Malformed else CodePoint(u, 3)
      else if 0xF0 <= lead <= 0xF4 && Continues(s, 4) then
        var u := (((lead - 0xF0) * 0x40 + Six(s[1])) * 0x40 + Six(s[2])) * 0x40 + Six(s[3]);
        if u < 0x1_0000 || u > 0x10_FFFF then Malformed else CodePoint(u, 4)
      else Malformed
  }

  predicate Surrogate(u: nat) {
    0xD800 <= u < 0xE000
  }

  lemma TwoSixes(u: nat)
    ensures u == u / 0x40 * 0x40 + u % 0x40
  {
  }

  lemma {:induction false} ThreeSixes(u: nat)
    ensures u == (u / 0x1000 * 0x40 + u % 0x1000 / 0x40) * 0x40 + u % 0x40
  {
    var r := u % 0x1000;
    TwoSixes(r);
    DivModUnique(u, 0x40, u / 0x1000 * 0x40 + r / 0x40, r % 0x40);
  }

  lemma {:induction false} EncodedCodePoint(u: nat)
    requires u < 0x1_0000 && !Surrogate(u)
    ensures FirstCodePoint(Utf8(u)) == CodePoint(u, |Utf8(u)|)
  {
    TwoSixes(u);
    ThreeSixes(u);
  }

  lemma {:induction false} EncodedSurrogate(u: nat)
    requires Surrogate(u)
    ensures FirstCodePoint(Utf8(u)) == Malformed
    ensures var s := Utf8(u);
      && |s| == 4 && s[0] == 0xF0 && Continues(s, 4)
      && u == (Six(s[1]) * 0x40 + Six(s[2])) * 0x40 + Six(s[3])
  {
    ThreeSixes(u);
    assert u / 0x40000 == 0 && u % 0x40000 == u;
  }

  /** A code unit is encoded as the code point it is exactly when it is no surrogate; a
      surrogate gets four bytes with its value, which is not UTF-8. */
  lemma {:induction false} Utf8Decodes(u: nat)
    requires u < 0x1_0000
    ensures FirstCodePoint(Utf8(u)) == CodePoint(u, |Utf8(u)|) <==> !Surrogate(u)
    ensures Surrogate(u) ==>
      var s := Utf8(u);
      && FirstCodePoint(s) == Malformed
      && |s| == 4 && s[0] == 0xF0 && Continues(s, 4)
      && u == (Six(s[1]) * 0x40 + Six(s[2])) * 0x40 + Six(s[3])
  {
    hide FirstCodePoint, Utf8, Six, Continues;
    if Surrogate(u) { EncodedSurrogate(u); } else { EncodedCodePoint(u); }
  }

  /** What follows a whole code point does not change it. */
  lemma {:induction false} FirstStays(u: nat, s: Text, z: Text)
    requires FirstCodePoint(s) == CodePoint(u, |s|)
    ensures FirstCodePoint(s + z) == CodePoint(u, |s|)
  {
    assert forall i :: 0 <= i < |s| ==> (s + z)[i] == s[i];
  }

  // ----- Hexadecimal escapes

  const UPPER: Text :=
    [0x30, 0x31, 0x32, 0x33, 0x34, 0x35, 0x36, 0x37, 0x38, 0x39, 0x41, 0x42, 0x43, 0x44, 0x45, 0x46]
  const LOWER: Text :=
    [0x30, 0x31, 0x32, 0x33, 0x34, 0x35, 0x36, 0x37, 0x38, 0x39, 0x61, 0x62, 0x63, 0x64, 0x65, 0x66]

  predicate IsDigit(h: Byte, v: nat) {
    v < 16 && (h == UPPER[v] || h == LOWER[v])
  }

  lemma DigitValue(h: Byte, v: nat)
    requires IsDigit(h, v)
    ensures HexValue(h) == v
  {
  }

  /** Exactly the digits of the two tables are digits. */
  lemma OnlyDigits(h: Byte)
    ensures HexValue(h) >= 0 <==> h in UPPER || h in LOWER
  {
  }

  lemma {:induction false} FourDigits(u: nat, h: Text, z: Text)
    requires u < 0x1_0000 && |h| == 4
    requires IsDigit(h[0], u / 0x1000) && IsDigit(h[1], u / 0x100 % 0x10)
    requires IsDigit(h[2], u / 0x10 % 0x10) && IsDigit(h[3], u % 0x10)
    ensures FourHex(h + z) == Match(u, z)
  {
    hide IsDigit, HexValue;
    DigitValue(h[0], u / 0x1000);
    DigitValue(h[1], u / 0x100 % 0x10);
    DigitValue(h[2], u / 0x10 % 0x10);
    DigitValue(h[3], u % 0x10);
    assert (h + z)[4..] == z;
    Nibbles(u);
  }

  lemma {:induction false} Nibbles(u: nat)
    requires u < 0x1_0000
    ensures ((u / 0x1000 * 16 + u / 0x100 % 0x10) * 16 + u / 0x10 % 0x10) * 16 + u % 0x10 == u
  {
    var a, b := u / 0x10, u / 0x100;
    assert u == a * 16 + u % 16 && a / 16 == b && a == b * 16 + a % 16;
    assert b / 16 == u / 0x1000 && b == b / 16 * 16 + b % 16;
  }

  lemma {:induction false} UnicodeRead(u: nat, h: Text, z: Text)
    requires u < 0x1_0000 && |h| == 4
    requires IsDigit(h[0], u / 0x1000) && IsDigit(h[1], u / 0x100 % 0x10)
    requires IsDigit(h[2], u / 0x10 % 0x10) && IsDigit(h[3], u % 0x10)
    ensures Characters([0x5C, 0x75] + (h + z)) == Prepend(Utf8(u), Characters(z))
  {
    hide IsDigit, FourHex, Utf8, Prepend;
    var s := [0x5C, 0x75] + (h + z);
    FourDigits(u, h, z);
    assert s[1..] == [0x75] + (h + z) && s[1..][1..] == h + z;
  }

  /** A \u escape with four digits of either case contributes the code point they name,
      before whatever the rest of the string contributes. */
  lemma {:induction false} UnicodeEscape(u: nat, h: Text, z: Text)
    requires u < 0x1_0000 && |h| == 4
    requires IsDigit(h[0], u / 0x1000) && IsDigit(h[1], u / 0x100 % 0x10)
    requires IsDigit(h[2], u / 0x10 % 0x10) && IsDigit(h[3], u % 0x10)
    requires !Surrogate(u) && Characters(z).Match?
    ensures var whole, others := Characters([0x5C, 0x75] + (h + z)), Characters(z);
      && whole.Match? && whole.rest == others.rest
      && (var first := FirstCodePoint(whole.value);
          first.CodePoint? && first.value == u
          && first.length <= |whole.value| && whole.value[first.length..] == others.value)
  {
    hide IsDigit, Characters, Utf8, FirstCodePoint;
    UnicodeRead(u, h, z);
    Utf8Decodes(u);
    FirstStays(u, Utf8(u), Characters(z).value);
    assert (Utf8(u) + Characters(z).value)[|Utf8(u)|..] == Characters(z).value;
  }

  /** e with an acute accent: the bytes C3 A9. */
  lemma {:induction false} EAcute()
    ensures Characters([0x5C, 0x75, 0x30, 0x30, 0x65, 0x39, 0x22]) == Match([0xC3, 0xA9], [])
  {
    hide Characters;
    var h: Text := [0x30, 0x30, 0x65, 0x39];
    UnicodeRead(0xE9, h, [0x22]);
    assert [0x5C, 0x75, 0x30, 0x30, 0x65, 0x39, 0x22] == [0x5C, 0x75] + (h + [0x22]);
    ClosingQuote([]);
    assert [0x22] + [] == [0x22];
    assert [0xC3, 0xA9] + [] == [0xC3, 0xA9];
  }

  lemma {:induction false} ClosingQuote(z: Text)
    ensures Characters([0x22] + z) == Match([], z)
  {
    assert ([0x22] + z)[1..] == z;
  }

  // ----- Letter escapes

  /** Section 7 of RFC 8259: the eight letters and what they stand for. */
  lemma {:induction false} LetterEscape(b: Byte, c: Byte, z: Text)
    requires (b, c) in {(0x22, 0x22), (0x5C, 0x5C), (0x2F, 0x2F), (0x62, 0x08),
                        (0x66, 0x0C), (0x6E, 0x0A), (0x72, 0x0D), (0x74, 0x09)}
    ensures Characters([0x5C, b] + z) == Prepend([c], Characters(z))
  {
    hide Prepend;
    assert ([0x5C, b] + z)[1..] == [b] + z && ([b] + z)[1..] == z;
  }

  /** Any other escape is refused. */
  lemma {:induction false} OtherEscape(b: Byte, z: Text)
    requires b !in {0x22, 0x5C, 0x2F, 0x62, 0x66, 0x6E, 0x72, 0x74, 0x75}
    ensures Characters([0x5C, b] + z) == Throw && Characters([0x5C]) == Throw
  {
    assert ([0x5C, b] + z)[1..] == [b] + z;
  }

  /** Every other byte but the closing quote stands for itself, control characters too. */
  lemma {:induction false} PlainByte(b: Byte, z: Text)
    requires b != 0x22 && b != 0x5C
    ensures Characters([b] + z) == Prepend([b], Characters(z))
  {
    hide Prepend;
    assert ([b] + z)[1..] == z;
  }
}
