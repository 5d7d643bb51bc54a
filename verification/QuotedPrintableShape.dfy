/** What folding does to an escape: it stays whole unless the line length is 2. */
module QuotedPrintableShape {
  import opened Bytes
  import opened QuotedPrintable
  import opened QuotedPrintableLines

  /** Plain characters, whole escapes and soft breaks, and nothing else after a '='. */
  predicate Whole(s: seq<Byte>)
    decreases |s|
  {
    s == [] ||
    if s[0] == EQUALS then
      |s| >= 3 && (s[..3] == SOFT_BREAK || (IsHex(s[1]) && IsHex(s[2]))) && Whole(s[3..])
    else Whole(s[1..])
  }

  lemma WholeBreak(s: seq<Byte>)
    ensures Whole(SOFT_BREAK + s) == Whole(s)
  {
    assert (SOFT_BREAK + s)[..3] == SOFT_BREAK && (SOFT_BREAK + s)[3..] == s;
  }

  lemma WholeEscape(x: Byte, y: Byte, s: seq<Byte>)
    requires IsHex(x) && IsHex(y)
    ensures Whole([EQUALS, x, y] + s) == Whole(s)
  {
    assert ([EQUALS, x, y] + s)[3..] == s;
  }

  lemma WholeChar(c: Byte, s: seq<Byte>)
    requires c != EQUALS
    ensures Whole([c] + s) == Whole(s)
  {
    assert ([c] + s)[1..] == s;
  }

  /** The rest of the output after a character that brought the count to k. */
  function After(lineLength: int, k: nat, rest: seq<Byte>): seq<Byte> {
    if k == lineLength - 1 then SOFT_BREAK + FoldFrom(lineLength, 0, rest) else FoldFrom(lineLength, k, rest)
  }

  lemma FoldChar(lineLength: int, k: nat, c: Byte, rest: seq<Byte>)
    requires c != LF && c != EQUALS
    ensures FoldFrom(lineLength, k, [c] + rest) == [c] + After(lineLength, k + 1, rest)
  {
    assert ([c] + rest)[1..] == rest;
    assert [c] + SOFT_BREAK + FoldFrom(lineLength, 0, rest) == [c] + (SOFT_BREAK + FoldFrom(lineLength, 0, rest));
  }

  lemma FoldEquals(lineLength: int, k: nat, rest: seq<Byte>)
    ensures FoldFrom(lineLength, k, [EQUALS] + rest) ==
      if k + 1 > lineLength - 3 then SOFT_BREAK + ([EQUALS] + FoldFrom(lineLength, 0, rest))
      else [EQUALS] + FoldFrom(lineLength, k + 1, rest)
  {
    assert ([EQUALS] + rest)[1..] == rest;
    assert SOFT_BREAK + [EQUALS] + FoldFrom(lineLength, 0, rest) == SOFT_BREAK + ([EQUALS] + FoldFrom(lineLength, 0, rest));
  }

  /** The count after an escape: a carried '=' is not counted. */
  function EscapeCount(lineLength: int, k: nat): nat {
    if k + 1 > lineLength - 3 then 2 else k + 3
  }

  lemma {:induction false} FoldPair(lineLength: int, k: nat, x: Byte, y: Byte, rest: seq<Byte>)
    requires IsHex(x) && IsHex(y) && k + 1 != lineLength - 1
    ensures FoldFrom(lineLength, k, [x] + ([y] + rest)) == [x] + ([y] + After(lineLength, k + 2, rest))
  {
    hide FoldFrom;
    FoldChar(lineLength, k, x, [y] + rest);
    FoldChar(lineLength, k + 1, y, rest);
  }

  lemma Pieces(x: Byte, y: Byte, s: seq<Byte>)
    ensures [EQUALS] + ([x] + ([y] + s)) == [EQUALS, x, y] + s
    ensures [] + ([EQUALS, x, y] + s) == [EQUALS, x, y] + s
  {
  }

  /** An escape stays in one piece, on this line or the next, unless the line length is 2. */
  lemma {:induction false} FoldEscape(lineLength: int, k: nat, x: Byte, y: Byte, rest: seq<Byte>)
    requires IsHex(x) && IsHex(y) && lineLength != 2
    ensures FoldFrom(lineLength, k, [EQUALS, x, y] + rest) ==
      (if k + 1 > lineLength - 3 then SOFT_BREAK else []) +
      ([EQUALS, x, y] + After(lineLength, EscapeCount(lineLength, k), rest))
  {
    hide FoldFrom, After, IsHex;
    Pieces(x, y, rest);
    Pieces(x, y, After(lineLength, EscapeCount(lineLength, k), rest));
    FoldEquals(lineLength, k, [x] + ([y] + rest));
    FoldPair(lineLength, if k + 1 > lineLength - 3 then 0 else k + 1, x, y, rest);
  }

  /** The count between two bytes, as the formatter keeps it. */
  predicate Counted(lineLength: int, k: nat) {
    lineLength >= 2 ==> k <= lineLength - 2
  }

  lemma {:induction false} AfterWhole(lineLength: int, k: nat, x: seq<Byte>)
    requires lineLength != 2 && (lineLength >= 3 ==> k <= lineLength - 1)
    ensures Whole(After(lineLength, k, Encoded(x)))
    decreases |x|, 1
  {
    hide FoldFrom, Whole;
    if k == lineLength - 1 {
      WholeBreak(FoldFrom(lineLength, 0, Encoded(x)));
      EscapesWhole(lineLength, 0, x);
    } else {
      EscapesWhole(lineLength, k, x);
    }
  }

  lemma {:induction false} EscapesWhole(lineLength: int, k: nat, x: seq<Byte>)
    requires lineLength != 2 && Counted(lineLength, k)
    ensures Whole(FoldFrom(lineLength, k, Encoded(x)))
    decreases |x|, 0
  {
    hide FoldFrom, Whole, After;
    if x == [] {
      FoldNothing(lineLength, k);
      WholeNothing();
    } else {
      var b, rest := x[0], x[1..];
      var e := Encoded(rest);
      if Plain(b) {
        FoldChar(lineLength, k, b, e);
        AfterWhole(lineLength, k + 1, rest);
        WholeChar(b, After(lineLength, k + 1, e));
      } else {
        var n := EscapeCount(lineLength, k);
        FoldEscape(lineLength, k, Hex(b / 16), Hex(b % 16), e);
        AfterWhole(lineLength, n, rest);
        var s := [EQUALS, Hex(b / 16), Hex(b % 16)] + After(lineLength, n, e);
        WholeEscape(Hex(b / 16), Hex(b % 16), After(lineLength, n, e));
        WholeBreak(s);
        assert [] + s == s;
      }
    }
  }

  lemma WholeNothing()
    ensures Whole([])
  {
  }

  /** At line length 2 the first escape is torn apart. */
  lemma {:induction false} TornAtTwo(x: seq<Byte>)
    requires exists b :: b in x && !Plain(b)
    ensures !Whole(FoldFrom(2, 0, Encoded(x)))
  {
    hide FoldFrom, Whole;
    var b, rest := x[0], x[1..];
    var e := Encoded(rest);
    if Plain(b) {
      FoldChar(2, 0, b, e);
      WholeChar(b, SOFT_BREAK + FoldFrom(2, 0, e));
      WholeBreak(FoldFrom(2, 0, e));
      var c :| c in x && !Plain(c);
      assert c in rest;
      TornAtTwo(rest);
    } else {
      var h, l := Hex(b / 16), Hex(b % 16);
      assert [EQUALS, h, l] + e == [EQUALS] + ([h] + ([l] + e));
      FoldEquals(2, 0, [h] + ([l] + e));
      FoldChar(2, 0, h, [l] + e);
      var s := [EQUALS] + ([h] + (SOFT_BREAK + FoldFrom(2, 0, [l] + e)));
      WholeBreak(s);
      TornEscape(h, FoldFrom(2, 0, [l] + e));
    }
  }

  lemma TornEscape(h: Byte, s: seq<Byte>)
    requires IsHex(h)
    ensures !Whole([EQUALS] + ([h] + (SOFT_BREAK + s)))
  {
    var t := [EQUALS] + ([h] + (SOFT_BREAK + s));
    assert t[1] == h && t[2] == EQUALS && t[..3][1] == h && SOFT_BREAK[1] == CR;
  }

  lemma {:induction false} PlainAtTwo(x: seq<Byte>)
    requires forall b :: b in x ==> Plain(b)
    ensures Whole(FoldFrom(2, 0, Encoded(x)))
  {
    hide FoldFrom, Whole;
    if x == [] {
      FoldNothing(2, 0);
      WholeNothing();
    } else {
      var b, rest := x[0], x[1..];
      assert b in x;
      FoldChar(2, 0, b, Encoded(rest));
      WholeChar(b, SOFT_BREAK + FoldFrom(2, 0, Encoded(rest)));
      WholeBreak(FoldFrom(2, 0, Encoded(rest)));
      PlainAtTwo(rest);
    }
  }

  /** Exactly when no escape is split: the line length is not 2, or there is no escape. */
  lemma {:induction false} EscapesKeptWhole(lineLength: int, x: seq<Byte>)
    ensures Whole(Folded(lineLength, Encoded(x))) <==> (lineLength != 2 || forall b :: b in x ==> Plain(b))
  {
    hide FoldFrom, Whole, Encoded, Plain;
    if lineLength != 2 {
      EscapesWhole(lineLength, 0, x);
    } else if forall b :: b in x ==> Plain(b) {
      PlainAtTwo(x);
    } else {
      TornAtTwo(x);
    }
  }
}
