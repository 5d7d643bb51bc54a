/** How long the lines of folded quoted-printable text are. */
module QuotedPrintableBounds {
  import opened Bytes
  import opened QuotedPrintable
  import opened QuotedPrintableLines
  import opened QuotedPrintableShape

  // ---- Line lengths ----

  /** The text between CRLFs. */
  function Lines(s: seq<Byte>): (ls: seq<seq<Byte>>)
    ensures ls != []
    decreases |s|
  {
    if s == [] then [[]]
    else if |s| >= 2 && s[0] == CR && s[1] == LF then [[]] + Lines(s[2..])
    else
      var ls := Lines(s[1..]);
      [[s[0]] + ls[0]] + ls[1..]
  }

  predicate LineFits(lineLength: int, line: seq<Byte>) {
    |line| <= lineLength || (line != [] && |line| == lineLength + 1 && line[0] == EQUALS)
  }

  predicate LinesFit(lineLength: int, ls: seq<seq<Byte>>) {
    forall i :: 0 <= i < |ls| ==> LineFits(lineLength, ls[i])
  }

  lemma LinesChar(c: Byte, s: seq<Byte>)
    requires c != CR
    ensures Lines([c] + s) == [[c] + Lines(s)[0]] + Lines(s)[1..]
  {
    assert ([c] + s)[1..] == s;
  }

  lemma {:induction false} LinesBreak(s: seq<Byte>)
    ensures Lines(SOFT_BREAK + s) == [[EQUALS]] + Lines(s)
  {
    var t := [CR, LF] + s;
    assert SOFT_BREAK + s == [EQUALS] + t;
    LinesChar(EQUALS, t);
    LinesCrLf(s);
    assert [EQUALS] + Lines(t)[0] == [EQUALS];
  }

  lemma LinesCrLf(s: seq<Byte>)
    ensures Lines([CR, LF] + s)[0] == [] && Lines([CR, LF] + s)[1..] == Lines(s)
  {
    var t := [CR, LF] + s;
    assert t[2..] == s && t[0] == CR && t[1] == LF;
  }

  /** With k characters counted on it, the current line takes at most lineLength - k more. */
  predicate RestFits(lineLength: int, k: int, ls: seq<seq<Byte>>)
    requires ls != []
  {
    |ls[0]| <= lineLength - k && LinesFit(lineLength, ls[1..])
  }

  lemma {:induction false} FitAll(lineLength: int, k: nat, ls: seq<seq<Byte>>)
    requires ls != [] && RestFits(lineLength, k, ls)
    ensures LinesFit(lineLength, ls)
  {
    forall i | 0 <= i < |ls| ensures LineFits(lineLength, ls[i]) {
      if i > 0 { assert ls[i] == ls[1..][i - 1]; }
    }
  }

  lemma {:induction false} CharFits(lineLength: int, k: nat, c: Byte, s: seq<Byte>)
    requires c != CR && RestFits(lineLength, k + 1, Lines(s))
    ensures RestFits(lineLength, k, Lines([c] + s))
  {
    hide LinesFit, Lines;
    LinesChar(c, s);
    assert ([[c] + Lines(s)[0]] + Lines(s)[1..])[1..] == Lines(s)[1..];
  }

  lemma {:induction false} BreakFits(lineLength: int, k: nat, s: seq<Byte>)
    requires k <= lineLength - 1 && LinesFit(lineLength, Lines(s))
    ensures RestFits(lineLength, k, Lines(SOFT_BREAK + s))
  {
    hide LinesFit, Lines;
    LinesBreak(s);
    assert ([[EQUALS]] + Lines(s))[1..] == Lines(s);
  }

  /** A carried '=' may make its line one longer. */
  lemma {:induction false} CarriedFits(lineLength: int, s: seq<Byte>)
    requires RestFits(lineLength, 0, Lines(s))
    ensures LinesFit(lineLength, Lines([EQUALS] + s))
  {
    hide Lines;
    LinesChar(EQUALS, s);
    var ls := Lines([EQUALS] + s);
    forall i | 0 <= i < |ls| ensures LineFits(lineLength, ls[i]) {
      if i > 0 { assert ls[i] == Lines(s)[1..][i - 1]; }
    }
  }

  lemma {:induction false} FoldFits(lineLength: int, k: nat, data: seq<Byte>)
    requires lineLength >= 2 && k <= lineLength - 2 && CR !in data && LF !in data
    ensures RestFits(lineLength, k, Lines(FoldFrom(lineLength, k, data)))
    decreases |data|
  {
    hide FoldFrom, Lines, RestFits, LinesFit;
    if data == [] {
      FoldNothing(lineLength, k);
      NoLines(lineLength, k);
    } else {
      var c, rest := data[0], data[1..];
      assert c in data && data == [c] + rest;
      FoldFits(lineLength, 0, rest);
      var broken := FoldFrom(lineLength, 0, rest);
      if c == EQUALS {
        FoldEquals(lineLength, k, rest);
        if k + 1 > lineLength - 3 {
          CarriedFits(lineLength, broken);
          BreakFits(lineLength, k, [EQUALS] + broken);
        } else {
          FoldFits(lineLength, k + 1, rest);
          CharFits(lineLength, k, c, FoldFrom(lineLength, k + 1, rest));
        }
      } else {
        FoldChar(lineLength, k, c, rest);
        if k + 1 == lineLength - 1 {
          FitAll(lineLength, 0, Lines(broken));
          BreakFits(lineLength, k + 1, broken);
        } else {
          FoldFits(lineLength, k + 1, rest);
        }
        CharFits(lineLength, k, c, After(lineLength, k + 1, rest));
      }
    }
  }

  lemma NoLines(lineLength: int, k: nat)
    requires k <= lineLength
    ensures RestFits(lineLength, k, Lines([]))
  {
  }

  /** Every line of folded text is at most lineLength long, or one longer and starts with
      '='; rule 5 of section 6.7 of RFC 2045 asks for 76 at the default line length. */
  lemma {:induction false} LinesBounded(lineLength: int, x: seq<Byte>)
    requires lineLength >= 2
    ensures LinesFit(lineLength, Lines(Folded(lineLength, Encoded(x))))
  {
    hide FoldFrom, Lines, RestFits, LinesFit;
    EncodedHasNoBreaks(x);
    FoldFits(lineLength, 0, Encoded(x));
    FitAll(lineLength, 0, Lines(Folded(lineLength, Encoded(x))));
  }

  /** Below 2 the formatter never breaks plain text, so no bound holds. */
  lemma {:induction false} NoBreakBelowTwo(lineLength: int, k: nat, x: seq<Byte>)
    requires lineLength < 2 && forall b :: b in x ==> Plain(b)
    ensures FoldFrom(lineLength, k, Encoded(x)) == x
    decreases |x|
  {
    hide FoldFrom;
    if x == [] {
      FoldNothing(lineLength, k);
    } else {
      assert x[0] in x;
      FoldChar(lineLength, k, x[0], Encoded(x[1..]));
      NoBreakBelowTwo(lineLength, k + 1, x[1..]);
    }
  }

  // ---- The bound of RFC 2045 ----

  /** Whether the formatter completes a line that a carried '=' began: the walk keeps the
      formatter's count, and `carried` says that the current line holds one character more.
    */
  predicate Overruns(lineLength: int, carried: bool, chars: nat, data: seq<Byte>)
    decreases |data|
  {
    data != [] &&
    var c, k, rest := data[0], chars + 1, data[1..];
    if c == LF then Overruns(lineLength, false, 0, rest)
    else if k > lineLength - 3 && c == EQUALS then Overruns(lineLength, true, 0, rest)
    else if k == lineLength - 1 then carried || Overruns(lineLength, false, 0, rest)
    else Overruns(lineLength, carried, k, rest)
  }

  predicate Within(lineLength: int, ls: seq<seq<Byte>>) {
    forall i :: 0 <= i < |ls| ==> |ls[i]| <= lineLength
  }

  /** All lines are within the bound when the first one starts with k characters more. */
  predicate RestWithin(lineLength: int, k: int, ls: seq<seq<Byte>>)
    requires ls != []
  {
    |ls[0]| <= lineLength - k && Within(lineLength, ls[1..])
  }

  lemma {:induction false} WithinCons(lineLength: int, line: seq<Byte>, ls: seq<seq<Byte>>)
    ensures Within(lineLength, [line] + ls) <==> |line| <= lineLength && Within(lineLength, ls)
  {
    var all := [line] + ls;
    if Within(lineLength, all) {
      assert all[0] == line;
      forall i | 0 <= i < |ls| ensures |ls[i]| <= lineLength { assert ls[i] == all[i + 1]; }
    }
  }

  lemma {:induction false} WithinAll(lineLength: int, ls: seq<seq<Byte>>)
    requires ls != []
    ensures Within(lineLength, ls) <==> RestWithin(lineLength, 0, ls)
  {
    hide Within;
    assert ls == [ls[0]] + ls[1..];
    WithinCons(lineLength, ls[0], ls[1..]);
  }

  lemma {:induction false} CharWithin(lineLength: int, k: nat, c: Byte, s: seq<Byte>)
    requires c != CR
    ensures RestWithin(lineLength, k, Lines([c] + s)) <==> RestWithin(lineLength, k + 1, Lines(s))
  {
    hide Within, Lines;
    LinesChar(c, s);
    assert ([[c] + Lines(s)[0]] + Lines(s)[1..])[1..] == Lines(s)[1..];
  }

  lemma {:induction false} BreakWithin(lineLength: int, k: nat, s: seq<Byte>)
    ensures RestWithin(lineLength, k, Lines(SOFT_BREAK + s)) <==> k + 1 <= lineLength && Within(lineLength, Lines(s))
  {
    hide Within, Lines;
    LinesBreak(s);
    assert ([[EQUALS]] + Lines(s))[1..] == Lines(s);
  }

  lemma NothingWithin(lineLength: int, k: nat)
    ensures RestWithin(lineLength, k, Lines([])) <==> k <= lineLength
  {
  }

  function Extra(carried: bool): nat {
    if carried then 1 else 0
  }

  lemma {:induction false} CarriedWithin(lineLength: int, k: nat, s: seq<Byte>)
    ensures RestWithin(lineLength, k, Lines(SOFT_BREAK + ([EQUALS] + s))) <==>
      k + 1 <= lineLength && RestWithin(lineLength, 1, Lines(s))
  {
    hide Within, Lines, RestWithin;
    BreakWithin(lineLength, k, [EQUALS] + s);
    WithinAll(lineLength, Lines([EQUALS] + s));
    CharWithin(lineLength, 0, EQUALS, s);
  }

  lemma {:induction false} EndWithin(lineLength: int, k: nat, c: Byte, s: seq<Byte>)
    requires c != CR
    ensures RestWithin(lineLength, k, Lines([c] + (SOFT_BREAK + s))) <==>
      k + 2 <= lineLength && RestWithin(lineLength, 0, Lines(s))
  {
    hide Within, Lines, RestWithin;
    CharWithin(lineLength, k, c, SOFT_BREAK + s);
    BreakWithin(lineLength, k + 1, s);
    WithinAll(lineLength, Lines(s));
  }

  lemma OverrunsStep(lineLength: int, carried: bool, k: nat, c: Byte, rest: seq<Byte>)
    requires c != LF
    ensures Overruns(lineLength, carried, k, [c] + rest) <==>
      if k + 1 > lineLength - 3 && c == EQUALS then Overruns(lineLength, true, 0, rest)
      else if k + 1 == lineLength - 1 then carried || Overruns(lineLength, false, 0, rest)
      else Overruns(lineLength, carried, k + 1, rest)
  {
    assert ([c] + rest)[1..] == rest;
  }

  lemma {:induction false} FoldWithin(lineLength: int, carried: bool, k: nat, data: seq<Byte>)
    requires lineLength >= 2 && k <= lineLength - 2 && CR !in data && LF !in data
    ensures RestWithin(lineLength, k + Extra(carried), Lines(FoldFrom(lineLength, k, data))) <==>
      !Overruns(lineLength, carried, k, data)
    decreases |data|
  {
    hide FoldFrom, Lines, RestWithin, Overruns;
    var j := k + Extra(carried);
    if data == [] {
      FoldNothing(lineLength, k);
      NothingWithin(lineLength, j);
      NoOverrun(lineLength, carried, k);
    } else {
      var c, rest := data[0], data[1..];
      assert c in data && data == [c] + rest;
      OverrunsStep(lineLength, carried, k, c, rest);
      if c == EQUALS {
        FoldEquals(lineLength, k, rest);
      } else {
        FoldChar(lineLength, k, c, rest);
      }
      if c == EQUALS && k + 1 > lineLength - 3 {
        FoldWithin(lineLength, true, 0, rest);
        CarriedWithin(lineLength, j, FoldFrom(lineLength, 0, rest));
      } else if k + 1 == lineLength - 1 {
        FoldWithin(lineLength, false, 0, rest);
        EndWithin(lineLength, j, c, FoldFrom(lineLength, 0, rest));
      } else {
        FoldWithin(lineLength, carried, k + 1, rest);
        CharWithin(lineLength, j, c, FoldFrom(lineLength, k + 1, rest));
      }
    }
  }

  lemma NoOverrun(lineLength: int, carried: bool, k: nat)
    ensures !Overruns(lineLength, carried, k, [])
  {
  }

  /** Rule 5 of section 6.7 of RFC 2045 is met by exactly the texts whose encoding does not
      make the formatter complete a line begun by a carried '='. */
  lemma {:induction false} BoundMetExactly(lineLength: int, x: seq<Byte>)
    requires lineLength >= 2
    ensures Within(lineLength, Lines(Folded(lineLength, Encoded(x)))) <==> !Overruns(lineLength, false, 0, Encoded(x))
  {
    hide FoldFrom, Lines, RestWithin, Overruns, Encoded, Within;
    EncodedHasNoBreaks(x);
    FoldWithin(lineLength, false, 0, Encoded(x));
    WithinAll(lineLength, Lines(Folded(lineLength, Encoded(x))));
  }

  // ---- The extra character is needed ----

  function Run(n: nat): (r: seq<Byte>)
    ensures |r| == n
  {
    if n == 0 then [] else [65] + Run(n - 1)
  }

  lemma {:induction false} EncodedRun(n: nat, x: seq<Byte>)
    ensures Encoded(Run(n) + x) == Run(n) + Encoded(x)
  {
    hide Encoded;
    if n == 0 {
      assert Run(n) + x == x && Run(n) + Encoded(x) == Encoded(x);
    } else {
      EncodedRun(n - 1, x);
      EncodedA(Run(n - 1) + x);
      assert Run(n) + x == [65] + (Run(n - 1) + x);
      assert [65] + (Run(n - 1) + Encoded(x)) == Run(n) + Encoded(x);
    }
  }

  lemma EncodedA(x: seq<Byte>)
    ensures Encoded([65] + x) == [65] + Encoded(x)
  {
    assert ([65] + x)[1..] == x;
  }

  lemma {:induction false} FoldRun(lineLength: int, k: nat, n: nat, rest: seq<Byte>)
    requires k + n < lineLength - 1
    ensures FoldFrom(lineLength, k, Run(n) + rest) == Run(n) + FoldFrom(lineLength, k + n, rest)
    decreases n
  {
    hide FoldFrom;
    if n == 0 {
      assert Run(n) + rest == rest && Run(n) + FoldFrom(lineLength, k, rest) == FoldFrom(lineLength, k, rest);
    } else {
      assert Run(n) + rest == [65] + (Run(n - 1) + rest);
      FoldChar(lineLength, k, 65, Run(n - 1) + rest);
      FoldRun(lineLength, k + 1, n - 1, rest);
      assert [65] + (Run(n - 1) + FoldFrom(lineLength, k + n, rest)) == Run(n) + FoldFrom(lineLength, k + n, rest);
    }
  }

  lemma {:induction false} LinesRun(n: nat, s: seq<Byte>)
    ensures Lines(Run(n) + s) == [Run(n) + Lines(s)[0]] + Lines(s)[1..]
  {
    hide Lines;
    if n == 0 {
      assert Run(n) + s == s && Run(n) + Lines(s)[0] == Lines(s)[0];
    } else {
      assert Run(n) + s == [65] + (Run(n - 1) + s);
      LinesRun(n - 1, s);
      LinesChar(65, Run(n - 1) + s);
      assert Run(n) + Lines(s)[0] == [65] + (Run(n - 1) + Lines(s)[0]);
    }
  }

  /** Text whose second line, "=3D" and a run, is lineLength + 1 long: 77 by default. */
  function Overlong(lineLength: nat): seq<Byte>
    requires lineLength >= 4
  {
    Run(lineLength - 3) + ([EQUALS] + Run(lineLength - 3))
  }

  lemma {:induction false} OverlongFolded(lineLength: nat)
    requires lineLength >= 4
    ensures Folded(lineLength, Encoded(Overlong(lineLength))) ==
      Run(lineLength - 3) + (SOFT_BREAK + ([EQUALS, 51, 68] + (Run(lineLength - 3) + SOFT_BREAK)))
  {
    hide FoldFrom, Encoded;
    var n := lineLength - 3;
    RunEncoded(n);
    EncodedRun(n, [EQUALS] + Run(n));
    FoldRun(lineLength, 0, n, [EQUALS, 51, 68] + Run(n));
    FoldEscape(lineLength, n, 51, 68, Run(n));
    RunToBreak(lineLength);
  }

  lemma {:induction false} RunEncoded(n: nat)
    ensures Encoded([EQUALS] + Run(n)) == [EQUALS, 51, 68] + Run(n)
  {
    EncodedRun(n, []);
    assert Run(n) + [] == Run(n) && Run(n) + Encoded([]) == Run(n);
    assert ([EQUALS] + Run(n))[1..] == Run(n);
    assert Hex(61 / 16) == 51 && Hex(61 % 16) == 68;
  }

  lemma {:induction false} RunToBreak(lineLength: nat)
    requires lineLength >= 4
    ensures After(lineLength, 2, Run(lineLength - 3)) == Run(lineLength - 3) + SOFT_BREAK
  {
    hide FoldFrom;
    var n := lineLength - 4;
    RunEnds(n);
    FoldRun(lineLength, 2, n, [65]);
    FoldChar(lineLength, lineLength - 2, 65, []);
    FoldNothing(lineLength, 0);
    assert [65] + [] == [65];
    assert Run(n) + ([65] + SOFT_BREAK) == (Run(n) + [65]) + SOFT_BREAK;
  }

  lemma {:induction false} RunEnds(n: nat)
    ensures Run(n + 1) == Run(n) + [65]
  {
    if n > 0 { RunEnds(n - 1); }
  }

  /** The bound is tight: the formatter does not count the '=' it carries to a new line. */
  lemma {:induction false} BoundReached(lineLength: nat)
    requires lineLength >= 4
    ensures var ls := Lines(Folded(lineLength, Encoded(Overlong(lineLength))));
      |ls| > 1 && |ls[1]| == lineLength + 1
  {
    hide FoldFrom, Encoded, Lines, Overlong;
    var n := lineLength - 3;
    OverlongFolded(lineLength);
    var tail := Run(n) + SOFT_BREAK;
    LinesRun(n, SOFT_BREAK + ([EQUALS, 51, 68] + tail));
    LinesBreak([EQUALS, 51, 68] + tail);
    SecondLine(n);
    var ls := Lines(Folded(lineLength, Encoded(Overlong(lineLength))));
    assert ls[1] == Lines([EQUALS, 51, 68] + tail)[0];
  }

  lemma {:induction false} SecondLine(n: nat)
    ensures |Lines([EQUALS, 51, 68] + (Run(n) + SOFT_BREAK))[0]| == n + 4
  {
    hide Lines;
    var tail := Run(n) + SOFT_BREAK;
    assert [EQUALS, 51, 68] + tail == [EQUALS] + ([51] + ([68] + tail));
    LinesChar(EQUALS, [51] + ([68] + tail));
    LinesChar(51, [68] + tail);
    LinesChar(68, tail);
    LinesRun(n, SOFT_BREAK);
    LinesBreak([]);
    assert SOFT_BREAK + [] == SOFT_BREAK;
  }

  /** The bound holds for every text exactly when the line length is at least 2. */
  lemma {:induction false} BoundedExactly(lineLength: int)
    ensures lineLength >= 2 <==> forall x :: LinesFit(lineLength, Lines(Folded(lineLength, Encoded(x))))
  {
    hide FoldFrom, Encoded, Lines, Run;
    if lineLength >= 2 {
      forall x ensures LinesFit(lineLength, Lines(Folded(lineLength, Encoded(x)))) {
        LinesBounded(lineLength, x);
      }
    } else {
      ThreePlain();
      NoBreakBelowTwo(lineLength, 0, Run(3));
      LinesRun(3, []);
      assert Run(3) + [] == Run(3);
      assert !LineFits(lineLength, Lines(Run(3))[0]);
    }
  }

  lemma ThreePlain()
    ensures Run(3) == [65, 65, 65] && Lines([]) == [[]]
  {
    assert Run(2) == [65] + Run(1) && Run(1) == [65] + Run(0);
  }
}
