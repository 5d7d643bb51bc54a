/** Splitting what the multipart writer wrote. */
module MultipartRoundTrip {
  import opened Multipart

  /** As MimePart::writeContent leaves every part: at the start of a line. */
  predicate EndsLine(p: string) {
    p == "" || p[|p| - 1] == '\n'
  }

  /** The lines of a part that ends a line. */
  function PartLines(p: string): seq<string> {
    var ls := Lines(p);
    ls[..|ls| - 1]
  }

  /** Of how many of these lines the splitter would make a delimiter. */
  function Delimiters(ls: seq<string>, boundary: string): nat {
    if ls == [] then 0 else (if Delimits(ls[0], boundary) then 1 else 0) + Delimiters(ls[1..], boundary)
  }

  /** Section 5.1.1 of RFC 2046: the boundary delimiter must not appear inside a part. */
  predicate Clean(p: string, boundary: string) {
    forall line :: line in PartLines(p) ==> !Delimits(line, boundary)
  }

  /** No line feed, and nothing at the end that trimming a line would take away. */
  predicate UsableBoundary(b: string) {
    '\n' !in b && (b == "" || !IsSpace(b[|b| - 1]))
  }

  // ---- Lines of concatenations ----

  lemma LinesCons(c: char, s: string)
    ensures Lines([c] + s) == if c == '\n' then [""] + Lines(s) else [[c] + Lines(s)[0]] + Lines(s)[1..]
  {
    assert ([c] + s)[1..] == s;
  }

  function Prepend(c: char, ls: seq<string>): seq<string> {
    if ls == [] then [] else [[c] + ls[0]] + ls[1..]
  }

  lemma {:induction false} PartLinesCons(c: char, s: string)
    requires EndsLine(s) && (s == "" ==> c == '\n')
    ensures PartLines([c] + s) ==
      if c == '\n' then [""] + PartLines(s) else Prepend(c, PartLines(s))
  {
    hide Lines;
    LinesCons(c, s);
    if s != "" { HasLine(s); }
  }

  lemma {:induction false} HasLine(p: string)
    requires EndsLine(p) && p != ""
    ensures |Lines(p)| >= 2 && PartLines(p) != [] && Lines(p)[0] == PartLines(p)[0]
  {
    assert p == [p[0]] + p[1..];
    LinesCons(p[0], p[1..]);
    if |p| > 1 { HasLine(p[1..]); }
  }

  lemma {:induction false} LinesConcat(p: string, t: string)
    requires EndsLine(p)
    ensures Lines(p + t) == PartLines(p) + Lines(t) && Joined(PartLines(p)) == p
  {
    hide Lines, PartLines;
    if p == "" {
      LinesEmpty();
      NoLines();
      assert p + t == t && [] + Lines(t) == Lines(t);
    } else {
      var c, q := p[0], p[1..];
      LinesConcat(q, t);
      PartLinesCons(c, q);
      LinesCons(c, q + t);
      assert p + t == [c] + (q + t) && p == [c] + q;
      if c != '\n' {
        PartNotEmpty(q);
        JoinedCons(c, PartLines(q));
        Prepended(c, PartLines(q), Lines(t));
      } else {
        JoinedBlank(PartLines(q));
        assert [""] + (PartLines(q) + Lines(t)) == [""] + PartLines(q) + Lines(t);
      }
    }
  }

  lemma NoLines()
    ensures PartLines("") == []
  {
  }

  lemma Prepended(c: char, ls: seq<string>, ms: seq<string>)
    requires ls != []
    ensures [[c] + (ls + ms)[0]] + (ls + ms)[1..] == [[c] + ls[0]] + ls[1..] + ms
  {
  }

  lemma JoinedBlank(ls: seq<string>)
    ensures Joined([""] + ls) == ['\n'] + Joined(ls)
  {
    assert ([""] + ls)[1..] == ls;
    assert "" + "\n" + Joined(ls) == ['\n'] + Joined(ls);
  }

  lemma {:induction false} PartNotEmpty(p: string)
    requires EndsLine(p) && p != ""
    ensures PartLines(p) != []
  {
    HasLine(p);
  }

  lemma JoinedCons(c: char, ls: seq<string>)
    requires ls != []
    ensures Joined([[c] + ls[0]] + ls[1..]) == [c] + Joined(ls)
  {
    assert ([[c] + ls[0]] + ls[1..])[1..] == ls[1..];
    assert [c] + ls[0] + "\n" + Joined(ls[1..]) == [c] + (ls[0] + "\n" + Joined(ls[1..]));
  }

  lemma {:induction false} OneLine(s: string, t: string)
    requires '\n' !in s
    ensures Lines(s + "\n" + t) == [s] + Lines(t)
  {
    if s == "" {
      assert s + "\n" + t == ['\n'] + t;
      LinesCons('\n', t);
    } else {
      hide Lines;
      OneLine(s[1..], t);
      assert ([s[1..]] + Lines(t))[1..] == Lines(t) && [s[0]] + s[1..] == s;
      assert s + "\n" + t == [s[0]] + (s[1..] + "\n" + t);
      LinesCons(s[0], s[1..] + "\n" + t);
      assert s[0] in s;
    }
  }

  // ---- Delimiter lines ----

  lemma {:induction false} TrimDashes(s: string)
    requires s != "" && !IsSpace(s[|s| - 1])
    ensures Trim("-" + s + "\r") == "-" + s
  {
    var t := "-" + s + "\r";
    assert TrimLeft(t) == t;
    var u := "-" + s;
    assert t[|t| - 1] == '\r' && t[..|t| - 1] == u;
    assert TrimRight(t) == TrimRight(u);
    assert ("-" + s)[|"-" + s| - 1] == s[|s| - 1];
  }

  lemma {:induction false} DelimiterLines(b: string)
    requires UsableBoundary(b)
    ensures Trim("--" + b + "\r") == "--" + b && Trim("--" + b + "--\r") == "--" + b + "--"
    ensures Opens("--" + b + "\r", b) && Delimits("--" + b + "\r", b) && Delimits("--" + b + "--\r", b)
    ensures !Opens("--" + b + "--\r", b) && !Opens("", b) && !Delimits("", b)
  {
    hide Trim;
    assert "--" + b + "\r" == "-" + ("-" + b) + "\r" && "--" + b == "-" + ("-" + b);
    assert "--" + b + "--\r" == "-" + ("-" + b + "--") + "\r" && "--" + b + "--" == "-" + ("-" + b + "--");
    TrimDashes("-" + b);
    TrimDashes("-" + b + "--");
    TrimEmpty();
    assert |"--" + b + "--"| != |"--" + b|;
  }

  lemma TrimEmpty()
    ensures Trim("") == ""
  {
  }

  lemma {:induction false} WrittenLines(parts: seq<string>, b: string)
    requires UsableBoundary(b) && forall p :: p in parts ==> EndsLine(p)
    ensures parts == [] ==> Lines(Written(parts, b)) == ["--" + b + "--\r", ""]
    ensures parts != [] ==>
      Lines(Written(parts, b)) == ["--" + b + "\r"] + (PartLines(parts[0]) + Lines(Written(parts[1..], b)))
  {
    hide Lines, PartLines;
    if parts == [] {
      OneLine("--" + b + "--\r", "");
      assert "--" + b + "--\r" + "\n" + "" == "--" + b + "--\r\n";
      LinesEmpty();
    } else {
      var rest := Written(parts[1..], b);
      assert parts[0] in parts;
      OneLine("--" + b + "\r", parts[0] + rest);
      LinesConcat(parts[0], rest);
      assert "--" + b + "\r" + "\n" + (parts[0] + rest) == "--" + b + "\r\n" + parts[0] + rest;
    }
  }

  lemma LinesEmpty()
    ensures Lines("") == [""]
  {
  }

  // ---- Splitting ----

  /** Lines without a delimiter go to the part that is being read. */
  lemma {:induction false} CollectPart(ls: seq<string>, rest: seq<string>, part: string, b: string)
    requires forall line :: line in ls ==> !Delimits(line, b)
    ensures Collected(ls + rest, part, b) == Collected(rest, part + Joined(ls), b)
    decreases |ls|
  {
    hide Delimits;
    if ls == [] {
      assert ls + rest == rest && part + Joined(ls) == part;
    } else {
      assert ls[0] in ls && (ls + rest)[1..] == ls[1..] + rest;
      CollectPart(ls[1..], rest, part + (ls[0] + "\n"), b);
      assert part + (ls[0] + "\n") + Joined(ls[1..]) == part + Joined(ls);
    }
  }

  lemma {:induction false} CollectWritten(parts: seq<string>, part: string, b: string)
    requires UsableBoundary(b)
    requires forall p :: p in parts ==> EndsLine(p) && Clean(p, b)
    ensures Collected(Lines(Written(parts, b)), part, b) == [part] + parts
    decreases |parts|
  {
    hide Lines, Delimits, Collected, PartLines, Opens;
    WrittenLines(parts, b);
    DelimiterLines(b);
    var ls := Lines(Written(parts, b));
    CollectStep(ls, part, b);
    if parts == [] {
      assert ls[1..] == [""] && [""][1..] == [];
      CollectStep([""], "", b);
      CollectNothing("" + ("" + "\n"), b);
      assert [part] + Collected([""], "", b) == [part] + parts;
    } else {
      assert parts[0] in parts;
      var rest := Lines(Written(parts[1..], b));
      assert ls[1..] == PartLines(parts[0]) + rest;
      CollectPart(PartLines(parts[0]), rest, "", b);
      LinesConcat(parts[0], "");
      assert "" + parts[0] == parts[0];
      CollectWritten(parts[1..], parts[0], b);
      assert [parts[0]] + parts[1..] == parts;
    }
  }

  lemma {:induction false} SplitClean(parts: seq<string>, b: string)
    requires UsableBoundary(b)
    requires forall p :: p in parts ==> EndsLine(p) && Clean(p, b)
    ensures Split(Written(parts, b), b) == parts
  {
    hide Lines, Delimits, Collected, PartLines, Opens, SplitLines;
    WrittenLines(parts, b);
    DelimiterLines(b);
    var ls := Lines(Written(parts, b));
    SplitStep(ls, b);
    if parts == [] {
      assert ls[1..] == [""] && [""][1..] == [];
      SplitStep([""], b);
      SplitNothing(b);
    } else {
      assert parts[0] in parts;
      var rest := Lines(Written(parts[1..], b));
      assert ls[1..] == PartLines(parts[0]) + rest;
      CollectPart(PartLines(parts[0]), rest, "", b);
      LinesConcat(parts[0], "");
      assert "" + parts[0] == parts[0];
      CollectWritten(parts[1..], parts[0], b);
      assert [parts[0]] + parts[1..] == parts;
    }
  }

  // ---- How many parts come out ----

  lemma {:induction false} CollectCounts(ls: seq<string>, part: string, b: string)
    ensures |Collected(ls, part, b)| == Delimiters(ls, b)
    decreases |ls|
  {
    hide Delimits;
    if ls != [] {
      CollectCounts(ls[1..], "", b);
      CollectCounts(ls[1..], part + (ls[0] + "\n"), b);
    }
  }

  lemma {:induction false} DelimitersConcat(ls: seq<string>, rest: seq<string>, b: string)
    ensures Delimiters(ls + rest, b) == Delimiters(ls, b) + Delimiters(rest, b)
  {
    hide Delimits;
    if ls == [] {
      assert ls + rest == rest;
    } else {
      DelimitersConcat(ls[1..], rest, b);
      assert (ls + rest)[1..] == ls[1..] + rest;
    }
  }

  lemma {:induction false} CleanCounts(ls: seq<string>, b: string)
    ensures Delimiters(ls, b) == 0 <==> forall line :: line in ls ==> !Delimits(line, b)
  {
    hide Delimits;
    if ls != [] {
      CleanCounts(ls[1..], b);
      assert ls == [ls[0]] + ls[1..];
    }
  }

  /** One part for every part, and one more for every line that looks like a delimiter. */
  lemma {:induction false} WrittenCounts(parts: seq<string>, b: string)
    requires UsableBoundary(b) && forall p :: p in parts ==> EndsLine(p)
    ensures Delimiters(Lines(Written(parts, b)), b) >= |parts| + 1
    ensures (exists p :: p in parts && !Clean(p, b)) ==> Delimiters(Lines(Written(parts, b)), b) > |parts| + 1
  {
    hide Lines, Delimits, PartLines, Opens;
    WrittenLines(parts, b);
    DelimiterLines(b);
    var ls := Lines(Written(parts, b));
    if parts == [] {
      assert ls[1..] == [""] && [""][1..] == [];
    } else {
      var rest := Lines(Written(parts[1..], b));
      assert ls[1..] == PartLines(parts[0]) + rest;
      DelimitersConcat(PartLines(parts[0]), rest, b);
      CleanCounts(PartLines(parts[0]), b);
      WrittenCounts(parts[1..], b);
      assert parts == [parts[0]] + parts[1..];
    }
  }

  lemma {:induction false} SplitCounts(parts: seq<string>, b: string)
    requires UsableBoundary(b) && parts != [] && forall p :: p in parts ==> EndsLine(p)
    ensures |Split(Written(parts, b), b)| + 1 == Delimiters(Lines(Written(parts, b)), b)
  {
    hide Lines, Delimits, PartLines, Opens, Collected, SplitLines;
    WrittenLines(parts, b);
    DelimiterLines(b);
    var ls := Lines(Written(parts, b));
    SplitStep(ls, b);
    CollectCounts(ls[1..], "", b);
  }

  /** The splitter undoes the writer exactly when no line of a part looks like a delimiter. */
  lemma {:induction false} SplitUndoesWrite(parts: seq<string>, b: string)
    requires UsableBoundary(b) && forall p :: p in parts ==> EndsLine(p)
    ensures Split(Written(parts, b), b) == parts <==> forall p :: p in parts ==> Clean(p, b)
  {
    hide Lines, Split, Clean, Written;
    if forall p :: p in parts ==> Clean(p, b) {
      SplitClean(parts, b);
    } else {
      SplitCounts(parts, b);
      WrittenCounts(parts, b);
    }
  }

  /** A boundary that ends in white space is never found again, whatever the text. */
  lemma {:induction false} BlankBoundaryLost(ls: seq<string>, b: string)
    requires b != "" && IsSpace(b[|b| - 1])
    ensures SplitLines(ls, b) == []
  {
    hide TrimLeft, Collected;
    if ls != [] {
      TrimmedEnd(TrimLeft(ls[0]));
      BlankBoundaryLost(ls[1..], b);
    }
  }

  lemma {:induction false} TrimmedEnd(s: string)
    ensures TrimRight(s) == "" || !IsSpace(TrimRight(s)[|TrimRight(s)| - 1])
  {
    if s != "" && IsSpace(s[|s| - 1]) { TrimmedEnd(s[..|s| - 1]); }
  }

  // ---- What surrounds the parts ----

  predicate NoneOpens(ls: seq<string>, b: string) {
    forall line :: line in ls ==> !Opens(line, b)
  }

  predicate NoneDelimits(ls: seq<string>, b: string) {
    forall line :: line in ls ==> !Delimits(line, b)
  }

  /** Lines before the first delimiter are skipped. */
  lemma {:induction false} PreambleSkipped(pre: seq<string>, ls: seq<string>, b: string)
    requires NoneOpens(pre, b)
    ensures SplitLines(pre + ls, b) == SplitLines(ls, b)
  {
    hide Opens, Collected;
    if pre == [] {
      assert pre + ls == ls;
    } else {
      assert pre[0] in pre && (pre + ls)[1..] == pre[1..] + ls;
      PreambleSkipped(pre[1..], ls, b);
    }
  }

  lemma {:induction false} NothingCollected(ls: seq<string>, part: string, b: string)
    requires NoneDelimits(ls, b)
    ensures Collected(ls, part, b) == []
    decreases |ls|
  {
    hide Delimits;
    if ls != [] {
      assert ls[0] in ls;
      NothingCollected(ls[1..], part + (ls[0] + "\n"), b);
    }
  }

  lemma {:induction false} RestUncollected(ls: seq<string>, rest: seq<string>, part: string, b: string)
    requires NoneDelimits(rest, b)
    ensures Collected(ls + rest, part, b) == Collected(ls, part, b)
    decreases |ls|
  {
    hide Delimits, NoneDelimits;
    if ls == [] {
      assert ls + rest == rest;
      NothingCollected(rest, part, b);
    } else {
      assert (ls + rest)[1..] == ls[1..] + rest;
      RestUncollected(ls[1..], rest, "", b);
      RestUncollected(ls[1..], rest, part + (ls[0] + "\n"), b);
    }
  }

  /** Lines after the last delimiter are dropped. */
  lemma {:induction false} EpilogueDropped(ls: seq<string>, rest: seq<string>, b: string)
    requires NoneDelimits(rest, b)
    ensures SplitLines(ls + rest, b) == SplitLines(ls, b)
  {
    hide Trim, Collected;
    if ls == [] {
      assert ls + rest == rest && rest + [] == rest;
      PreambleSkipped(rest, [], b);
    } else {
      assert (ls + rest)[1..] == ls[1..] + rest;
      EpilogueDropped(ls[1..], rest, b);
      RestUncollected(ls[1..], rest, "", b);
    }
  }

  /** One part on the wire, character by character. */
  lemma {:induction false} OnePartWritten(part: string, b: string)
    ensures Written([part], b) == "--" + b + "\r\n" + part + "--" + b + "--\r\n"
  {
    assert [part][1..] == [];
    WrittenNone(b);
    var s := "--" + b + "--\r\n";
    assert "--" + b + "\r\n" + part + s == "--" + b + "\r\n" + part + "--" + b + "--\r\n";
  }

  lemma {:induction false} WrittenEnds(parts: seq<string>, b: string)
    ensures EndsLine(Written(parts, b)) && Written(parts, b) != ""
  {
    if parts == [] {
      assert Written([], b)[|Written([], b)| - 1] == '\n';
    } else {
      WrittenEnds(parts[1..], b);
      var w := Written(parts[1..], b);
      assert Written(parts, b)[|Written(parts, b)| - 1] == w[|w| - 1];
    }
  }

  /** Section 5.1.1 of RFC 2046: a preamble and an epilogue around what was written change
      nothing, as long as none of their lines looks like a delimiter. */
  lemma {:induction false} SurroundingsIgnored(pre: string, parts: seq<string>, epilogue: string, b: string)
    requires UsableBoundary(b) && EndsLine(pre)
    requires NoneOpens(PartLines(pre), b) && NoneDelimits(Lines(epilogue), b)
    ensures Split(pre + (Written(parts, b) + epilogue), b) == Split(Written(parts, b), b)
  {
    hide Lines, PartLines, Written, NoneOpens, NoneDelimits, SplitLines, UsableBoundary, Delimits;
    var w := Written(parts, b);
    WrittenEnds(parts, b);
    LinesConcat(pre, w + epilogue);
    LinesConcat(w, epilogue);
    LinesConcat(w, "");
    LinesEmpty();
    assert w + "" == w;
    BlankIsNoDelimiter(b);
    PreambleSkipped(PartLines(pre), Lines(w + epilogue), b);
    EpilogueDropped(PartLines(w), Lines(epilogue), b);
    EpilogueDropped(PartLines(w), [""], b);
  }

  lemma {:induction false} BlankIsNoDelimiter(b: string)
    requires UsableBoundary(b)
    ensures NoneDelimits([""], b)
  {
    hide Delimits;
    DelimiterLines(b);
  }

  /** White space is trimmed from a line: the space, and tab to carriage return. */
  lemma {:induction false} DelimiterWithSpace(b: string, c: char)
    requires b != "" && !IsSpace(b[|b| - 1])
    ensures Opens("--" + b + [c], b) <==> c in {' ', '\t', '\n', '\U{0B}', '\U{0C}', '\r'}
    ensures Opens([c] + "--" + b, b) <==> c in {' ', '\t', '\n', '\U{0B}', '\U{0C}', '\r'}
  {
    var d := "--" + b;
    assert d[|d| - 1] == b[|b| - 1];
    assert (d + [c])[..|d|] == d && ([c] + d)[1..] == d && [c] + "--" + b == [c] + d;
    assert |d + [c]| == |[c] + d| == |d| + 1;
    TrimmedFront(d);
    TrimmedFront(d + [c]);
  }

  lemma {:induction false} TrimmedFront(s: string)
    ensures s != "" && !IsSpace(s[0]) ==> TrimLeft(s) == s
    ensures s != "" && !IsSpace(s[|s| - 1]) ==> TrimRight(s) == s
  {
  }
}
