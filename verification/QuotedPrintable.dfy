/** quotedprintable.cpp and mimeqpformatter.cpp: the quoted-printable codec and the
    formatter that folds encoded text into lines (section 6.7 of RFC 2045).
  */
module QuotedPrintable {
  import opened Bytes

  const EQUALS: Byte := 61
  const LF: Byte := 10
  const CR: Byte := 13
  const SOFT_BREAK: seq<Byte> := [61, 13, 10]

  // ---- The codec ----

  predicate Plain(b: Byte) {
    b == 32 || (33 <= b <= 126 && b != 61)
  }

  /** An upper-case hexadecimal digit. */
  function Hex(n: nat): (h: Byte)
    requires n < 16
    ensures IsHex(h)
  {
    if n < 10 then 48 + n else 55 + n
  }

  predicate IsHex(c: Byte) {
    48 <= c <= 57 || 65 <= c <= 70
  }

  /** Digit values from '0' to 'F'; what lies between '9' and 'A' counts as 0. */
  function HexVal(c: Byte): (n: nat)
    requires InTable(c)
    ensures n < 16
  {
    if c <= 57 then c - 48 else if c < 65 then 0 else c - 55
  }

  predicate InTable(c: Byte) {
    48 <= c < 48 + 23
  }

  function EncodeByte(b: Byte): seq<Byte> {
    if Plain(b) then [b] else [EQUALS, Hex(b / 16), Hex(b % 16)]
  }

  function Encoded(x: seq<Byte>): seq<Byte> {
    if x == [] then [] else EncodeByte(x[0]) + Encoded(x[1..])
  }

  function DecodeEscape(x: Byte, y: Byte): seq<Byte> {
    if InTable(x) && InTable(y) then [HexVal(x) * 16 + HexVal(y)] else [EQUALS, x, y]
  }

  function Decoded(s: seq<Byte>): seq<Byte> {
    if |s| <= 2 then s
    else if s[0] == EQUALS then DecodeEscape(s[1], s[2]) + Decoded(s[3..])
    else [s[0]] + Decoded(s[1..])
  }

  lemma {:induction false} EncodedAppend(x: seq<Byte>, b: Byte)
    ensures Encoded(x + [b]) == Encoded(x) + EncodeByte(b)
  {
    hide EncodeByte;
    if x == [] {
      assert (x + [b])[1..] == [];
    } else {
      EncodedAppend(x[1..], b);
      assert (x + [b])[1..] == x[1..] + [b];
    }
  }

  method Encode(input: seq<Byte>) returns (output: seq<Byte>)
    ensures output == Encoded(input)
  {
    hide Encoded, Hex;
    EncodedNothing();
    output := [];
    assert input[..0] == [];
    for i := 0 to |input|
      invariant output == Encoded(input[..i])
    {
      var byte := input[i];
      EncodedAppend(input[..i], byte);
      assert input[..i + 1] == input[..i] + [byte];
      if byte == 0x20 || (byte >= 33 && byte <= 126 && byte != 61) {
        output := output + [byte];
      } else {
        output := output + [EQUALS, Hex(byte / 16), Hex(byte % 16)];
      }
    }
    assert input[..|input|] == input;
  }

  lemma EncodedNothing()
    ensures Encoded([]) == []
  {
  }

  method Decode(input: seq<Byte>) returns (output: seq<Byte>)
    ensures output == Decoded(input)
  {
    hide Decoded, InTable, HexVal;
    ghost var goal := Decoded(input);
    output := [];
    var i := 0;
    assert input[0..] == input && [] + goal == goal;
    while i < |input| - 2
      invariant 0 <= i <= |input|
      invariant goal == output + Decoded(input[i..])
    {
      DecodeStep(goal, output, input, i);
      if input[i] == EQUALS {
        var x, y := input[i + 1], input[i + 2];
        if InTable(x) && InTable(y) {
          output := output + [HexVal(x) * 16 + HexVal(y)];
        } else {
          output := output + [EQUALS, x, y];
        }
        i := i + 2;
      } else {
        output := output + [input[i]];
      }
      i := i + 1;
    }
    ShortTail(input[i..]);
    while i < |input|
      invariant 0 <= i <= |input|
      invariant goal == output + input[i..]
    {
      CopyStep(goal, output, input, i);
      output := output + [input[i]];
      i := i + 1;
    }
    assert output + input[|input|..] == output;
  }

  lemma {:induction false} DecodeStep(goal: seq<Byte>, output: seq<Byte>, s: seq<Byte>, i: nat)
    requires i + 2 < |s| && goal == output + Decoded(s[i..])
    ensures s[i] == EQUALS ==> goal == output + DecodeEscape(s[i + 1], s[i + 2]) + Decoded(s[i + 3..])
    ensures s[i] != EQUALS ==> goal == output + [s[i]] + Decoded(s[i + 1..])
  {
    hide DecodeEscape;
    var t := s[i..];
    assert t[0] == s[i] && t[1] == s[i + 1] && t[2] == s[i + 2] && t[3..] == s[i + 3..] && t[1..] == s[i + 1..];
    if s[i] == EQUALS {
      Regroup(output, DecodeEscape(s[i + 1], s[i + 2]), Decoded(s[i + 3..]));
    } else {
      Regroup(output, [s[i]], Decoded(s[i + 1..]));
    }
  }

  lemma Regroup(a: seq<Byte>, b: seq<Byte>, c: seq<Byte>)
    ensures a + (b + c) == a + b + c
  {
  }

  lemma CopyStep(goal: seq<Byte>, output: seq<Byte>, s: seq<Byte>, i: nat)
    requires i < |s| && goal == output + s[i..]
    ensures goal == output + [s[i]] + s[i + 1..]
  {
  }

  lemma ShortTail(s: seq<Byte>)
    requires |s| <= 2
    ensures Decoded(s) == s
  {
  }

  lemma {:induction false} ByteDecoded(b: Byte, rest: seq<Byte>)
    ensures !Plain(b) ==> Decoded(EncodeByte(b) + rest) == [b] + Decoded(rest)
  {
    if !Plain(b) {
      var s := EncodeByte(b) + rest;
      assert s[3..] == rest && s[1] == Hex(b / 16) && s[2] == Hex(b % 16);
      HexBack(b);
    }
  }

  lemma HexBack(b: Byte)
    ensures InTable(Hex(b / 16)) && InTable(Hex(b % 16))
    ensures HexVal(Hex(b / 16)) * 16 + HexVal(Hex(b % 16)) == b
  {
  }

  /** Encoding loses nothing, for every byte string. */
  lemma {:induction false} DecodeEncode(x: seq<Byte>)
    ensures Decoded(Encoded(x)) == x
  {
    if x != [] {
      DecodeEncode(x[1..]);
      ByteDecoded(x[0], Encoded(x[1..]));
      if Plain(x[0]) {
        PlainDecoded(x[0], Encoded(x[1..]));
      }
    }
  }

  lemma {:induction false} PlainDecoded(b: Byte, rest: seq<Byte>)
    requires b != EQUALS
    ensures Decoded([b] + rest) == [b] + Decoded(rest)
  {
    assert ([b] + rest)[1..] == rest;
    if |rest| <= 1 { ShortTail(rest); }
  }

  /** decode does not know soft line breaks: it copies them. */
  lemma {:induction false} SoftBreakKept(s: seq<Byte>)
    ensures Decoded(SOFT_BREAK + s) == SOFT_BREAK + Decoded(s)
  {
    assert (SOFT_BREAK + s)[3..] == s;
  }

  // ---- The codec in numbers ----

  /** What rules 1 and 2 of section 6.7 of RFC 2045 let stand for itself, with the space. */
  predicate Literal(b: Byte) {
    32 <= b <= 60 || 62 <= b <= 126
  }

  const DIGITS: seq<Byte> := [48, 49, 50, 51, 52, 53, 54, 55, 56, 57, 65, 66, 67, 68, 69, 70]

  /** Each byte is sent as itself or as '=' and two upper-case digits. */
  lemma {:induction false} ByteEncoded(b: Byte)
    ensures Encoded([b]) == if Literal(b) then [b] else [61, DIGITS[b / 16], DIGITS[b % 16]]
  {
    assert [b][1..] == [] && Encoded([]) == [];
    assert EncodeByte(b) + [] == EncodeByte(b);
  }

  lemma {:induction false} EncodedCons(b: Byte, x: seq<Byte>)
    ensures Encoded([b] + x) == Encoded([b]) + Encoded(x)
  {
    hide EncodeByte;
    assert ([b] + x)[1..] == x && [b][1..] == [] && Encoded([]) == [];
  }

  predicate Printable(s: seq<Byte>) {
    forall c :: c in s ==> 32 <= c <= 126
  }

  /** Encoded text is printable, whatever the bytes. */
  lemma {:induction false} EncodedIsPrintable(x: seq<Byte>)
    ensures Printable(Encoded(x))
  {
    if x != [] {
      EncodedIsPrintable(x[1..]);
      ByteEncoded(x[0]);
      EncodedCons(x[0], x[1..]);
      assert x == [x[0]] + x[1..];
    }
  }

  lemma {:induction false} EncodedSize(x: seq<Byte>)
    ensures |Encoded(x)| >= |x|
  {
    if x != [] { EncodedSize(x[1..]); }
  }

  /** Exactly text of printable bytes without '=' is sent as it is. */
  lemma {:induction false} EncodedIsItself(x: seq<Byte>)
    ensures Encoded(x) == x <==> forall b :: b in x ==> 32 <= b <= 60 || 62 <= b <= 126
  {
    hide Encoded;
    if x == [] {
      EncodedNothing();
    } else {
      var b, rest := x[0], x[1..];
      assert x == [b] + rest && b in x;
      assert forall c :: c in x <==> c == b || c in rest;
      EncodedIsItself(rest);
      EncodedSize(rest);
      ByteEncoded(b);
      EncodedCons(b, rest);
      assert ([b] + Encoded(rest))[1..] == Encoded(rest) && ([b] + rest)[1..] == rest;
    }
  }

  /** What decode makes of '=' and two upper-case digits. */
  lemma {:induction false} EscapeDecoded(d: nat, e: nat, s: seq<Byte>)
    requires d < 16 && e < 16
    ensures Decoded([61, DIGITS[d], DIGITS[e]] + s) == [16 * d + e] + Decoded(s)
  {
    assert ([61, DIGITS[d], DIGITS[e]] + s)[3..] == s;
    assert HexVal(DIGITS[d]) == d && HexVal(DIGITS[e]) == e;
  }

  /** With a character outside '0' to 'F' all three are kept, lower-case digits among them. */
  lemma {:induction false} NoEscape(x: Byte, y: Byte, s: seq<Byte>)
    requires x < 48 || x > 70 || y < 48 || y > 70
    ensures Decoded([61, x, y] + s) == [61, x, y] + Decoded(s)
  {
    assert ([61, x, y] + s)[3..] == s;
  }

  /** What lies between '9' and 'A' counts as the digit 0. */
  lemma {:induction false} GapDecoded(x: Byte, e: nat, s: seq<Byte>)
    requires 58 <= x <= 64 && e < 16
    ensures Decoded([61, x, DIGITS[e]] + s) == [e] + Decoded(s)
    ensures Decoded([61, DIGITS[e], x] + s) == [16 * e] + Decoded(s)
  {
    assert ([61, x, DIGITS[e]] + s)[3..] == s && ([61, DIGITS[e], x] + s)[3..] == s;
    assert HexVal(DIGITS[e]) == e;
  }

  /** e with an acute accent, in UTF-8. */
  lemma {:induction false} EAcute()
    ensures Encoded([0xC3, 0xA9]) == [61, 67, 51, 61, 65, 57]
  {
    EncodedCons(0xC3, [0xA9]);
    ByteEncoded(0xC3);
    ByteEncoded(0xA9);
    assert [0xC3] + [0xA9] == [0xC3, 0xA9];
  }
}
