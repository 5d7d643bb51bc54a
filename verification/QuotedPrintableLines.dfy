/** mimeqpformatter.cpp: folding encoded text into lines with soft breaks. */
module QuotedPrintableLines {
  import opened Bytes
  import opened QuotedPrintable

  /** What the formatter still writes, with `chars` counted on the line it is on. */
  function FoldFrom(lineLength: int, chars: nat, data: seq<Byte>): seq<Byte>
    decreases |data|
  {
    if data == [] then []
    else
      var c, k, rest := data[0], chars + 1, data[1..];
      if c == LF then [c] + FoldFrom(lineLength, 0, rest)
      else if k > lineLength - 3 && c == EQUALS then SOFT_BREAK + [EQUALS] + FoldFrom(lineLength, 0, rest)
      else if k == lineLength - 1 then [c] + SOFT_BREAK + FoldFrom(lineLength, 0, rest)
      else [c] + FoldFrom(lineLength, k, rest)
  }

  function Folded(lineLength: int, data: seq<Byte>): seq<Byte> {
    FoldFrom(lineLength, 0, data)
  }

  method WriteData(lineLength: int, data: seq<Byte>) returns (output: seq<Byte>)
    ensures output == Folded(lineLength, data)
  {
    hide FoldFrom;
    ghost var goal := Folded(lineLength, data);
    output := [];
    var chars, start := 0, 0;
    assert data[0..] == data && data[0..0] == [];
    for i := 0 to |data|
      invariant 0 <= start && 0 <= chars && start + chars == i
      invariant goal == output + data[start..i] + FoldFrom(lineLength, chars, data[i..])
    {
      FoldStep(lineLength, chars, data, i);
      ghost var line, c := data[start..i], data[i];
      Longer(data, start, i);
      chars := chars + 1;
      if data[i] == LF {
        Sent(goal, output, line, [c], [], FoldFrom(lineLength, 0, data[i + 1..]));
        output := output + data[start..start + chars];
        start := start + chars;
        chars := 0;
      } else if chars > lineLength - 3 && data[i] == EQUALS {
        Sent(goal, output, line, [], SOFT_BREAK + [EQUALS], FoldFrom(lineLength, 0, data[i + 1..]));
        assert line + [] == line;
        output := output + data[start..start + chars - 1];
        output := output + (SOFT_BREAK + [EQUALS]);
        start := start + chars;
        chars := 0;
      } else if chars == lineLength - 1 {
        Sent(goal, output, line, [c], SOFT_BREAK, FoldFrom(lineLength, 0, data[i + 1..]));
        output := output + data[start..start + chars];
        output := output + SOFT_BREAK;
        start := start + chars;
        chars := 0;
      } else {
        Sent(goal, output, line, [c], [], FoldFrom(lineLength, chars, data[i + 1..]));
      }
    }
    FoldNothing(lineLength, chars);
    assert data[|data|..] == [];
    output := output + data[start..start + chars];
  }

  lemma Longer(data: seq<Byte>, start: nat, i: nat)
    requires start <= i < |data|
    ensures data[start..i + 1] == data[start..i] + [data[i]] && data[i + 1..i + 1] == []
  {
  }

  /** Line, character and break in turn are what the fold puts out next. */
  lemma Sent(goal: seq<Byte>, output: seq<Byte>, line: seq<Byte>, c: seq<Byte>, brk: seq<Byte>, rest: seq<Byte>)
    requires goal == output + line + (c + brk + rest) || (brk == [] && goal == output + line + (c + rest))
      || (c == [] && goal == output + line + (brk + rest))
    ensures goal == output + (line + c) + brk + [] + rest
    ensures brk == [] ==> goal == output + (line + c) + [] + rest && goal == output + (line + c) + rest
  {
    assert c + brk + rest == c + (brk + rest);
    if brk == [] { assert c + brk == c; }
    if c == [] { assert c + brk == brk; }
  }

  lemma FoldNothing(lineLength: int, chars: nat)
    ensures FoldFrom(lineLength, chars, []) == []
  {
  }

  lemma FoldStep(lineLength: int, chars: nat, data: seq<Byte>, i: nat)
    requires i < |data|
    ensures FoldFrom(lineLength, chars, data[i..]) ==
      var c, k, rest := data[i], chars + 1, data[i + 1..];
      if c == LF then [c] + FoldFrom(lineLength, 0, rest)
      else if k > lineLength - 3 && c == EQUALS then SOFT_BREAK + [EQUALS] + FoldFrom(lineLength, 0, rest)
      else if k == lineLength - 1 then [c] + SOFT_BREAK + FoldFrom(lineLength, 0, rest)
      else [c] + FoldFrom(lineLength, k, rest)
  {
    assert data[i..][1..] == data[i + 1..];
  }

  // ---- Unfolding ----

  /** Every soft line break deleted, as section 6.7 of RFC 2045 asks of a decoder. */
  function Unfolded(s: seq<Byte>): seq<Byte>
    decreases |s|
  {
    if s == [] then []
    else if |s| >= 3 && s[..3] == SOFT_BREAK then Unfolded(s[3..])
    else [s[0]] + Unfolded(s[1..])
  }

  lemma {:induction false} StartsWithoutCr(lineLength: int, chars: nat, data: seq<Byte>)
    requires CR !in data
    ensures FoldFrom(lineLength, chars, data) != [] ==> FoldFrom(lineLength, chars, data)[0] != CR
  {
    if data != [] { assert data[0] in data; }
  }

  lemma OneKept(c: Byte, s: seq<Byte>)
    requires c != EQUALS || s == [] || s[0] != CR
    ensures Unfolded([c] + s) == [c] + Unfolded(s)
  {
    assert ([c] + s)[1..] == s;
    if |s| >= 2 {
      assert ([c] + s)[..3][1] == s[0];
      assert SOFT_BREAK[1] == CR && SOFT_BREAK[0] == EQUALS;
    }
  }

  lemma BreakDropped(s: seq<Byte>)
    ensures Unfolded(SOFT_BREAK + s) == Unfolded(s)
  {
    assert (SOFT_BREAK + s)[3..] == s && (SOFT_BREAK + s)[..3] == SOFT_BREAK;
  }

  /** For every line length, deleting the soft breaks gives back text that has no CR of its own. */
  lemma {:induction false} UnfoldFold(lineLength: int, chars: nat, data: seq<Byte>)
    requires CR !in data
    ensures Unfolded(FoldFrom(lineLength, chars, data)) == data
    decreases |data|
  {
    hide Unfolded;
    if data == [] {
      UnfoldNothing();
    } else {
      var c, k, rest := data[0], chars + 1, data[1..];
      assert c in data && data == [c] + rest;
      UnfoldFold(lineLength, 0, rest);
      UnfoldFold(lineLength, k, rest);
      var broken, onward := FoldFrom(lineLength, 0, rest), FoldFrom(lineLength, k, rest);
      StartsWithoutCr(lineLength, 0, rest);
      StartsWithoutCr(lineLength, k, rest);
      OneKept(c, broken);
      OneKept(c, onward);
      BreakDropped([EQUALS] + broken);
      BreakDropped(broken);
      assert SOFT_BREAK + [EQUALS] + broken == SOFT_BREAK + ([EQUALS] + broken);
      assert [c] + SOFT_BREAK + broken == [c] + (SOFT_BREAK + broken);
      if c != EQUALS { OneKept(c, SOFT_BREAK + broken); }
    }
  }

  lemma UnfoldNothing()
    ensures Unfolded([]) == []
  {
  }

  lemma {:induction false} EncodedHasNoBreaks(x: seq<Byte>)
    ensures CR !in Encoded(x) && LF !in Encoded(x)
  {
    if x != [] { EncodedHasNoBreaks(x[1..]); }
  }

  /** Encoding, folding at any line length, deleting soft breaks and decoding is the identity. */
  lemma {:induction false} EndToEnd(lineLength: int, x: seq<Byte>)
    ensures Decoded(Unfolded(Folded(lineLength, Encoded(x)))) == x
  {
    EncodedHasNoBreaks(x);
    UnfoldFold(lineLength, 0, Encoded(x));
    DecodeEncode(x);
  }
}
