/** Encoding, folding and the repository's own decode: what comes back. */
module QuotedPrintableRoundTrip {
  import opened Bytes
  import opened QuotedPrintable
  import opened QuotedPrintableBounds
  import opened QuotedPrintableLines
  import opened QuotedPrintableShape

  /** Whether folding breaks the line somewhere: the guards of the formatter's two breaks. */
  predicate Breaks(lineLength: int, chars: nat, data: seq<Byte>)
    decreases |data|
  {
    data != [] &&
    var c, k, rest := data[0], chars + 1, data[1..];
    if c == LF then Breaks(lineLength, 0, rest)
    else (k > lineLength - 3 && c == EQUALS) || k == lineLength - 1 || Breaks(lineLength, k, rest)
  }

  lemma BreaksStep(lineLength: int, k: nat, c: Byte, rest: seq<Byte>)
    requires c != LF
    ensures Breaks(lineLength, k, [c] + rest) <==>
      (k + 1 > lineLength - 3 && c == EQUALS) || k + 1 == lineLength - 1 || Breaks(lineLength, k + 1, rest)
  {
    assert ([c] + rest)[1..] == rest;
  }

  lemma NoBreak(lineLength: int, k: nat)
    ensures !Breaks(lineLength, k, [])
  {
  }

  /** What a caller can see of the encoded text: it is shorter than a line by two, and an
      escape starts early enough. */
  predicate FitsOneLine(lineLength: int, k: nat, data: seq<Byte>) {
    (lineLength >= 2 ==> k + |data| <= lineLength - 2) &&
    forall i :: 0 <= i < |data| && data[i] == EQUALS ==> k + i <= lineLength - 4
  }

  lemma {:induction false} FitsCons(lineLength: int, k: nat, c: Byte, rest: seq<Byte>)
    ensures FitsOneLine(lineLength, k, [c] + rest) <==>
      (c == EQUALS ==> k <= lineLength - 4) && (lineLength >= 2 ==> k + 1 <= lineLength - 2) &&
      FitsOneLine(lineLength, k + 1, rest)
  {
    var data := [c] + rest;
    if FitsOneLine(lineLength, k, data) {
      assert data[0] == c;
      forall i | 0 <= i < |rest| && rest[i] == EQUALS ensures k + 1 + i <= lineLength - 4 {
        assert data[i + 1] == rest[i];
      }
    }
  }

  lemma {:induction false} BreaksExactly(lineLength: int, k: nat, data: seq<Byte>)
    requires Counted(lineLength, k) && LF !in data
    ensures Breaks(lineLength, k, data) <==> !FitsOneLine(lineLength, k, data)
    decreases |data|
  {
    hide Breaks, FitsOneLine;
    if data == [] {
      NoBreak(lineLength, k);
      FitsNothing(lineLength, k);
    } else {
      var c, rest := data[0], data[1..];
      assert c in data && data == [c] + rest;
      BreaksStep(lineLength, k, c, rest);
      FitsCons(lineLength, k, c, rest);
      if Counted(lineLength, k + 1) { BreaksExactly(lineLength, k + 1, rest); }
    }
  }

  lemma FitsNothing(lineLength: int, k: nat)
    requires Counted(lineLength, k)
    ensures FitsOneLine(lineLength, k, [])
  {
  }

  lemma {:induction false} Unbroken(lineLength: int, k: nat, data: seq<Byte>)
    requires !Breaks(lineLength, k, data) && LF !in data
    ensures FoldFrom(lineLength, k, data) == data
    decreases |data|
  {
    hide FoldFrom, Breaks;
    if data == [] {
      FoldNothing(lineLength, k);
    } else {
      var c, rest := data[0], data[1..];
      assert c in data && data == [c] + rest;
      BreaksStep(lineLength, k, c, rest);
      if c == EQUALS { FoldEquals(lineLength, k, rest); } else { FoldChar(lineLength, k, c, rest); }
      Unbroken(lineLength, k + 1, rest);
    }
  }

  // ---- Breaks make the decoded text longer ----

  function BreakCost(broken: bool): nat {
    if broken then 3 else 0
  }

  lemma {:induction false} AfterLonger(lineLength: int, k: nat, x: seq<Byte>)
    requires lineLength != 2 && (lineLength >= 3 ==> k <= lineLength - 1)
    ensures |Decoded(After(lineLength, k, Encoded(x)))| >=
      |x| + BreakCost(k == lineLength - 1 || Breaks(lineLength, k, Encoded(x)))
    decreases |x|, 1
  {
    hide FoldFrom, Decoded, Breaks, Encoded;
    if k == lineLength - 1 {
      SoftBreakKept(FoldFrom(lineLength, 0, Encoded(x)));
      DecodedLonger(lineLength, 0, x);
    } else {
      DecodedLonger(lineLength, k, x);
    }
  }

  lemma {:induction false} EscapeBreaks(lineLength: int, k: nat, x: Byte, y: Byte, rest: seq<Byte>)
    requires IsHex(x) && IsHex(y) && lineLength != 2
    ensures Breaks(lineLength, k, [EQUALS, x, y] + rest) <==>
      k + 1 > lineLength - 3 || k + 3 == lineLength - 1 || Breaks(lineLength, k + 3, rest)
  {
    hide Breaks;
    Pieces(x, y, rest);
    BreaksStep(lineLength, k, EQUALS, [x] + ([y] + rest));
    BreaksStep(lineLength, k + 1, x, [y] + rest);
    BreaksStep(lineLength, k + 2, y, rest);
  }

  /** The decoded text is at least as long as the bytes, and longer by a break if there is one. */
  lemma {:induction false} DecodedLonger(lineLength: int, k: nat, x: seq<Byte>)
    requires lineLength != 2 && Counted(lineLength, k)
    ensures |Decoded(FoldFrom(lineLength, k, Encoded(x)))| >= |x| + BreakCost(Breaks(lineLength, k, Encoded(x)))
    decreases |x|, 0
  {
    hide FoldFrom, Decoded, Breaks, After;
    if x == [] {
      FoldNothing(lineLength, k);
      NoBreak(lineLength, k);
    } else {
      var b, rest := x[0], x[1..];
      var e := Encoded(rest);
      if Plain(b) {
        FoldChar(lineLength, k, b, e);
        PlainDecoded(b, After(lineLength, k + 1, e));
        BreaksStep(lineLength, k, b, e);
        AfterLonger(lineLength, k + 1, rest);
      } else {
        EscapeLonger(lineLength, k, b, rest);
      }
    }
  }

  lemma {:induction false} EscapeLonger(lineLength: int, k: nat, b: Byte, rest: seq<Byte>)
    requires lineLength != 2 && Counted(lineLength, k) && !Plain(b)
    ensures var data := EncodeByte(b) + Encoded(rest);
      |Decoded(FoldFrom(lineLength, k, data))| >= |rest| + 1 + BreakCost(Breaks(lineLength, k, data))
    decreases |rest|, 2
  {
    hide FoldFrom, Decoded, Breaks, After, Encoded, Plain, Hex;
    var e, n := Encoded(rest), EscapeCount(lineLength, k);
    var tail := After(lineLength, n, e);
    FoldEscape(lineLength, k, Hex(b / 16), Hex(b % 16), e);
    EscapeBreaks(lineLength, k, Hex(b / 16), Hex(b % 16), e);
    AfterLonger(lineLength, n, rest);
    ByteDecoded(b, tail);
    SoftBreakKept(EncodeByte(b) + tail);
    assert [] + (EncodeByte(b) + tail) == EncodeByte(b) + tail;
  }

  // ---- Line length 2, where escapes are torn ----

  lemma {:induction false} TornLonger(h: Byte, l: Byte, s: seq<Byte>)
    requires IsHex(h) && IsHex(l)
    ensures |Decoded([EQUALS] + ([h] + (SOFT_BREAK + ([l] + (SOFT_BREAK + s)))))| >= |Decoded(s)| + 1
  {
    hide Decoded, DecodeEscape;
    var t := [l] + (SOFT_BREAK + s);
    TornEscapeDecoded(h, t);
    PlainDecoded(CR, [LF] + t);
    PlainDecoded(LF, t);
    PlainDecoded(l, SOFT_BREAK + s);
    SoftBreakKept(s);
  }

  lemma {:induction false} TornEscapeDecoded(h: Byte, t: seq<Byte>)
    ensures Decoded([EQUALS] + ([h] + (SOFT_BREAK + t))) == DecodeEscape(h, EQUALS) + Decoded([CR] + ([LF] + t))
  {
    hide DecodeEscape;
    var s := [EQUALS] + ([h] + (SOFT_BREAK + t));
    assert s[1] == h && s[2] == EQUALS && s[3..] == [CR] + ([LF] + t);
  }

  lemma {:induction false} TornFold(h: Byte, l: Byte, e: seq<Byte>)
    requires IsHex(h) && IsHex(l)
    ensures FoldFrom(2, 0, [EQUALS, h, l] + e) ==
      SOFT_BREAK + ([EQUALS] + ([h] + (SOFT_BREAK + ([l] + (SOFT_BREAK + FoldFrom(2, 0, e))))))
  {
    hide FoldFrom;
    Pieces(h, l, e);
    FoldEquals(2, 0, [h] + ([l] + e));
    FoldChar(2, 0, h, [l] + e);
    FoldChar(2, 0, l, e);
  }

  lemma {:induction false} LongerAtTwo(x: seq<Byte>)
    ensures |Decoded(FoldFrom(2, 0, Encoded(x)))| >= |x| + BreakCost(x != [])
  {
    hide FoldFrom, Decoded;
    if x == [] {
    } else {
      var b, rest := x[0], x[1..];
      var e := Encoded(rest);
      var f := FoldFrom(2, 0, e);
      LongerAtTwo(rest);
      if Plain(b) {
        FoldChar(2, 0, b, e);
        PlainDecoded(b, SOFT_BREAK + f);
        SoftBreakKept(f);
      } else {
        var h, l := Hex(b / 16), Hex(b % 16);
        TornFold(h, l, e);
        TornLonger(h, l, f);
        SoftBreakKept([EQUALS] + ([h] + (SOFT_BREAK + ([l] + (SOFT_BREAK + f)))));
      }
    }
  }

  // ---- The round trip ----

  /** Decoding what was encoded and folded gives the bytes back exactly when no break was put
      in: when the encoded text leaves two characters of the line and no escape starts in the
      last three. */
  lemma {:induction false} DecodeFoldExactly(lineLength: int, x: seq<Byte>)
    ensures Decoded(Folded(lineLength, Encoded(x))) == x <==> FitsOneLine(lineLength, 0, Encoded(x))
  {
    hide FoldFrom, Decoded, Breaks, Encoded;
    EncodedHasNoBreaks(x);
    BreaksExactly(lineLength, 0, Encoded(x));
    if !Breaks(lineLength, 0, Encoded(x)) {
      Unbroken(lineLength, 0, Encoded(x));
      DecodeEncode(x);
    } else if lineLength != 2 {
      DecodedLonger(lineLength, 0, x);
    } else {
      LongerAtTwo(x);
      if x == [] {
        EncodedNothing();
        NoBreak(2, 0);
      }
    }
  }

  lemma {:induction false} RunDecoded(n: nat, s: seq<Byte>)
    ensures Decoded(Run(n) + s) == Run(n) + Decoded(s)
  {
    hide Decoded;
    if n == 0 {
      assert Run(n) + s == s && Run(n) + Decoded(s) == Decoded(s);
    } else {
      assert Run(n) + s == [65] + (Run(n - 1) + s);
      RunDecoded(n - 1, s);
      PlainDecoded(65, Run(n - 1) + s);
      assert [65] + (Run(n - 1) + Decoded(s)) == Run(n) + Decoded(s);
    }
  }

  /** A line of 75 letters at the default length of 76 comes back with a "=CRLF" behind it. */
  lemma {:induction false} BreakComesBack(lineLength: nat)
    requires lineLength >= 2
    ensures Decoded(Folded(lineLength, Encoded(Run(lineLength - 1)))) == Run(lineLength - 1) + SOFT_BREAK
  {
    hide FoldFrom, Decoded, Encoded;
    var n := lineLength - 2;
    RunEnds(n);
    EncodedRun(n + 1, []);
    EncodedNothing();
    assert Run(n + 1) + [] == Run(n + 1);
    FoldRun(lineLength, 0, n, [65]);
    FoldChar(lineLength, n, 65, []);
    FoldNothing(lineLength, 0);
    assert [65] + [] == [65];
    assert Run(n) + ([65] + (SOFT_BREAK + [])) == Run(n + 1) + (SOFT_BREAK + []);
    RunDecoded(n + 1, SOFT_BREAK + []);
    SoftBreakKept([]);
    ShortTail([]);
    assert SOFT_BREAK + [] == SOFT_BREAK;
  }
}
