/** JSON text character by character: what the writer may emit, white space and comments,
    literals and numbers (sections 2, 3, 6 and 7 of RFC 8259), and one document in full.
  */
module JsonText {
  import opened Bytes
  import opened Json
  import opened JsonGrammar
  import opened JsonWriter
  import opened JsonRoundTrip

  // ----- What the writer emits

  const HEX: Text :=
    [0x30, 0x31, 0x32, 0x33, 0x34, 0x35, 0x36, 0x37, 0x38, 0x39, 0x41, 0x42, 0x43, 0x44, 0x45, 0x46]

  /** From the space on only the quote, the slash and the backslash are escaped. */
  lemma {:induction false} PrintableEscapes(b: Byte)
    ensures 0x20 <= b && b !in {0x22, 0x2F, 0x5C} <==> EscapeByte(b) == [b]
    ensures b in {0x22, 0x2F, 0x5C} ==> EscapeByte(b) == [0x5C, b]
  {
  }

  lemma LetterEscapes()
    ensures EscapeByte(0x08) == [0x5C, 0x62] && EscapeByte(0x0C) == [0x5C, 0x66]
    ensures EscapeByte(0x0A) == [0x5C, 0x6E] && EscapeByte(0x0D) == [0x5C, 0x72]
  {
  }

  lemma {:induction false} HexDigits(d: nat)
    requires d < 16
    ensures HexDigit(d) == HEX[d]
  {
  }

  /** Of the control characters four have a letter and the others get \u. */
  lemma {:induction false} ControlEscapes(b: Byte)
    requires b < 0x20 && b !in {0x08, 0x0A, 0x0C, 0x0D}
    ensures EscapeByte(b) == [0x5C, 0x75, 0x30, 0x30, HEX[b / 16], HEX[b % 16]]
  {
    hide HexDigit;
    HexDigits(0);
    HexDigits(b / 16);
    HexDigits(b % 16);
  }

  lemma {:induction false} NoControl(b: Byte)
    ensures forall c :: c in EscapeByte(b) ==> c >= 0x20
  {
    PrintableEscapes(b);
    LetterEscapes();
    if b < 0x20 && b !in {0x08, 0x0A, 0x0C, 0x0D} { ControlEscapes(b); }
    hide EscapeByte;
  }

  /** No control character is left in a string, as section 7 of RFC 8259 asks. */
  lemma {:induction false} NoControls(s: Text)
    ensures forall c :: c in Escaped(s) ==> c >= 0x20
  {
    if s != [] {
      NoControl(s[0]);
      hide EscapeByte;
      NoControls(s[1..]);
    }
  }

  // ----- White space and comments

  lemma {:induction false} SpaceSkipped(b: Byte, s: Text)
    ensures b in {0x20, 0x09, 0x0A, 0x0B, 0x0C, 0x0D} ==> Skip([b] + s) == Skip(s)
    ensures b !in {0x20, 0x09, 0x0A, 0x0B, 0x0C, 0x0D, 0x2F} ==> Skip([b] + s) == [b] + s
  {
    assert ([b] + s)[1..] == s;
  }

  lemma {:induction false} LineEnds(line: Text, s: Text)
    requires 0x0A !in line && 0x0D !in line
    ensures AfterLine(line + ([0x0A] + s)) == s
  {
    if line == [] {
      assert line + ([0x0A] + s) == [0x0A] + s && ([0x0A] + s)[1..] == s;
    } else {
      assert line[0] in line;
      assert (line + ([0x0A] + s))[1..] == line[1..] + ([0x0A] + s);
      LineEnds(line[1..], s);
    }
  }

  /** Two slashes up to the end of the line. */
  lemma {:induction false} LineCommentSkipped(line: Text, s: Text)
    requires 0x0A !in line && 0x0D !in line
    ensures Skip([0x2F, 0x2F] + (line + ([0x0A] + s))) == Skip(s)
  {
    hide AfterLine;
    LineEnds(line, s);
    assert ([0x2F, 0x2F] + (line + ([0x0A] + s)))[2..] == line + ([0x0A] + s);
  }

  predicate NoEnd(c: Text) {
    forall i :: 0 <= i < |c| - 1 ==> !(c[i] == 0x2A && c[i + 1] == 0x2F)
  }

  lemma {:induction false} BlockEnds(c: Text, s: Text)
    requires NoEnd(c)
    ensures AfterBlock(c + ([0x2A, 0x2F] + s)) == Match((), s)
  {
    var t := c + ([0x2A, 0x2F] + s);
    if c == [] {
      assert t == [0x2A, 0x2F] + s && t[2..] == s;
    } else {
      assert t[1..] == c[1..] + ([0x2A, 0x2F] + s);
      assert NoEnd(c[1..]) by {
        forall i | 0 <= i < |c| - 2 ensures !(c[1..][i] == 0x2A && c[1..][i + 1] == 0x2F) {
          assert c[1..][i] == c[i + 1] && c[1..][i + 1] == c[i + 2];
        }
      }
      BlockEnds(c[1..], s);
      if |c| == 1 {
        assert t[1] == 0x2A;
      } else {
        assert t[0] == c[0] && t[1] == c[1];
      }
    }
  }

  /** A slash and a star up to the next star and slash. */
  lemma {:induction false} BlockCommentSkipped(c: Text, s: Text)
    requires NoEnd(c)
    ensures Skip([0x2F, 0x2A] + (c + ([0x2A, 0x2F] + s))) == Skip(s)
  {
    hide AfterBlock;
    BlockEnds(c, s);
    assert ([0x2F, 0x2A] + (c + ([0x2A, 0x2F] + s)))[2..] == c + ([0x2A, 0x2F] + s);
  }

  // ----- Literals

  /** true, false and null are leaves with their own text. */
  lemma {:induction false} LiteralRead(w: Text, z: Text)
    requires w in {[0x74, 0x72, 0x75, 0x65], [0x66, 0x61, 0x6C, 0x73, 0x65], [0x6E, 0x75, 0x6C, 0x6C]}
    ensures Literal(w + z) == Match(w, z) && Value(w + z) == Match(Leaf(w), z)
  {
    hide Skip, Fraction, Exponent, Digits, SomeDigits;
    var s := w + z;
    assert s == [w[0]] + (w[1..] + z);
    SpaceSkipped(w[0], w[1..] + z);
    assert s[|w|..] == z && s[..|w|] == w;
    assert s[0] == w[0] && w <= s;
  }

  // ----- Numbers

  predicate AllDigits(d: Text) {
    forall c :: c in d ==> 0x30 <= c <= 0x39
  }

  /** int of section 6 of RFC 8259. */
  predicate Integer(d: Text) {
    d == [0x30] || (d != [] && 0x31 <= d[0] <= 0x39 && AllDigits(d[1..]))
  }

  predicate FractionPart(f: Text) {
    f == [] || (|f| > 1 && f[0] == 0x2E && AllDigits(f[1..]))
  }

  predicate ExponentPart(e: Text) {
    e == [] ||
    ((e[0] == 0x65 || e[0] == 0x45) &&
      ((|e| > 1 && AllDigits(e[1..])) || (|e| > 2 && (e[1] == 0x2B || e[1] == 0x2D) && AllDigits(e[2..]))))
  }

  /** What follows a number does not go on with it. */
  predicate EndsNumber(z: Text) {
    var s := Skip(z);
    s == [] || !(0x30 <= s[0] <= 0x39 || s[0] in {0x2E, 0x65, 0x45})
  }

  predicate NoDigit(z: Text) {
    var s := Skip(z);
    s == [] || !(0x30 <= s[0] <= 0x39)
  }

  lemma {:induction false} DigitRead(lo: Byte, c: Byte, z: Text)
    requires lo <= c <= 0x39 && 0x30 <= c
    ensures Digit(lo, [c] + z) == Match((), z)
  {
    hide Skip;
    SpaceSkipped(c, z);
    assert ([c] + z)[1..] == z;
  }

  lemma {:induction false} CharRead(c: Byte, z: Text)
    requires c !in {0x20, 0x09, 0x0A, 0x0B, 0x0C, 0x0D, 0x2F}
    ensures Char(c, [c] + z) == Match((), z)
    ensures forall b: Byte :: b != c ==> Char(b, [c] + z) == NoMatch
  {
    hide Skip;
    SpaceSkipped(c, z);
    assert ([c] + z)[1..] == z;
  }

  lemma {:induction false} DigitsRead(d: Text, z: Text)
    requires AllDigits(d) && NoDigit(z)
    ensures Digits(d + z) == z
    ensures d != [] ==> SomeDigits(d + z) == Match((), z)
  {
    hide Skip;
    if d == [] {
      assert d + z == z;
    } else {
      assert d[0] in d && d + z == [d[0]] + (d[1..] + z);
      DigitRead(0x30, d[0], d[1..] + z);
      assert forall c :: c in d[1..] ==> c in d;
      DigitsRead(d[1..], z);
    }
  }

  lemma {:induction false} NoFraction(z: Text)
    requires Skip(z) == [] || Skip(z)[0] != 0x2E
    ensures Fraction(z) == z
  {
    hide Skip;
  }

  lemma {:induction false} FractionRead(f: Text, z: Text)
    requires FractionPart(f) && NoDigit(z) && (f == [] ==> Skip(z) == [] || Skip(z)[0] != 0x2E)
    ensures Fraction(f + z) == z
  {
    hide Skip, SomeDigits, NoDigit, Char;
    if f == [] {
      assert f + z == z;
      NoFraction(z);
    } else {
      assert f + z == [0x2E] + (f[1..] + z);
      CharRead(0x2E, f[1..] + z);
      DigitsRead(f[1..], z);
    }
  }

  lemma {:induction false} NoExponent(z: Text)
    requires EndsNumber(z)
    ensures Exponent(z) == z
  {
    hide Skip;
  }

  lemma {:induction false} ExponentRead(e: Text, z: Text)
    requires ExponentPart(e) && EndsNumber(z)
    ensures Exponent(e + z) == z
  {
    hide Skip, SomeDigits, Char, EndsNumber, NoDigit;
    if e == [] {
      assert e + z == z;
      NoExponent(z);
    } else {
      EndsBoth(z);
      assert e + z == [e[0]] + (e[1..] + z);
      CharRead(e[0], e[1..] + z);
      assert e[1] in e[1..];
      if e[1] == 0x2B || e[1] == 0x2D {
        assert e[1..] + z == [e[1]] + (e[2..] + z);
        CharRead(e[1], e[2..] + z);
        DigitsRead(e[2..], z);
      } else {
        assert e[1..] + z == [e[1]] + (e[2..] + z);
        CharRead(e[1], e[2..] + z);
        DigitsRead(e[1..], z);
      }
    }
  }

  lemma EndsBoth(z: Text)
    requires EndsNumber(z)
    ensures NoDigit(z) && (Skip(z) == [] || Skip(z)[0] != 0x2E)
  {
  }

  lemma {:induction false} PartStarts(f: Text, e: Text, z: Text)
    requires FractionPart(f) && ExponentPart(e) && EndsNumber(z)
    ensures NoDigit(e + z) && (Skip(e + z) == [] || Skip(e + z)[0] != 0x2E)
    ensures NoDigit(f + (e + z))
  {
    hide Skip;
    if e == [] {
      assert e + z == z;
    } else {
      assert e + z == [e[0]] + (e[1..] + z);
      SpaceSkipped(e[0], e[1..] + z);
    }
    if f == [] {
      assert f + (e + z) == e + z;
    } else {
      assert f + (e + z) == [f[0]] + (f[1..] + (e + z));
      SpaceSkipped(f[0], f[1..] + (e + z));
    }
  }

  lemma {:induction false} UnsignedRead(d: Text, f: Text, e: Text, z: Text)
    requires Integer(d) && FractionPart(f) && ExponentPart(e) && EndsNumber(z)
    ensures Exponent(Fraction(f + (e + z))) == z
    ensures d == [0x30] ==> Char(0x30, d + (f + (e + z))) == Match((), f + (e + z))
    ensures d != [0x30] ==>
      && Char(0x30, d + (f + (e + z))) == NoMatch
      && (var digit := Digit(0x31, d + (f + (e + z))); digit.Match? && Digits(digit.rest) == f + (e + z))
  {
    hide Skip, Exponent, Fraction, Digits, Digit, Char, NoDigit, EndsNumber, ExponentPart;
    PartStarts(f, e, z);
    FractionRead(f, e + z);
    ExponentRead(e, z);
    var y := f + (e + z);
    assert d + y == [d[0]] + (d[1..] + y);
    CharRead(d[0], d[1..] + y);
    if d == [0x30] {
      assert d[1..] + y == y;
    } else {
      DigitRead(0x31, d[0], d[1..] + y);
      DigitsRead(d[1..], y);
    }
  }

  /** Every number of section 6 of RFC 8259 is read as a number, to its end. */
  lemma {:induction false} NumberRead(negative: bool, d: Text, f: Text, e: Text, z: Text)
    requires Integer(d) && FractionPart(f) && ExponentPart(e) && EndsNumber(z)
    ensures Number((if negative then [0x2D] else []) + (d + (f + (e + z)))) == Match((), z)
  {
    hide Skip, Exponent, Fraction, Digits, Digit, Char, Integer, EndsNumber, FractionPart, ExponentPart;
    var y := d + (f + (e + z));
    UnsignedRead(d, f, e, z);
    if negative {
      CharRead(0x2D, y);
    } else {
      assert [] + y == y;
      NoSign(d, f + (e + z));
    }
  }

  lemma {:induction false} NoSign(d: Text, y: Text)
    requires Integer(d)
    ensures Char(0x2D, d + y) == NoMatch
  {
    hide Char;
    assert d + y == [d[0]] + (d[1..] + y);
    CharRead(d[0], d[1..] + y);
  }

  /** And it is a leaf with its own text. */
  lemma {:induction false} NumberIsLeaf(negative: bool, d: Text, f: Text, e: Text, z: Text)
    requires Integer(d) && FractionPart(f) && ExponentPart(e) && EndsNumber(z)
    ensures var n := (if negative then [0x2D] else []) + (d + (f + e)); Value(n + z) == Match(Leaf(n), z)
  {
    hide Integer, FractionPart, ExponentPart, EndsNumber, Number, Skip;
    var sign: Text := if negative then [0x2D] else [];
    var n := sign + (d + (f + e));
    NumberRead(negative, d, f, e, z);
    assert n + z == sign + (d + (f + (e + z)));
    NumberStarts(negative, d, f + e);
    assert n + z == [n[0]] + (n[1..] + z);
    SpaceSkipped(n[0], n[1..] + z);
    assert (n + z)[..|n|] == n;
    hide Literal;
    LiteralOfNumber(n, z);
  }

  lemma {:induction false} LiteralOfNumber(n: Text, z: Text)
    requires n != [] && Skip(n + z) == n + z && Number(n + z) == Match((), z)
    ensures Literal(n + z) == Match(n, z)
  {
    hide Skip, Number;
    assert (n + z)[..|n|] == n;
  }

  lemma {:induction false} NumberStarts(negative: bool, d: Text, y: Text)
    requires Integer(d)
    ensures var n := (if negative then [0x2D] else []) + (d + y);
      n != [] && n[0] !in {0x20, 0x09, 0x0A, 0x0B, 0x0C, 0x0D, 0x2F, 0x22}
  {
  }

  // ----- Strings

  /** Quoted strings that follow one another are one string: the grammar repeats them. */
  lemma {:induction false} StringsJoined(a: Text, b: Text, z: Text)
    requires NoQuote(z)
    ensures Value(Quote(a) + (Quote(b) + z)) == Match(Leaf(a + b), z)
  {
    hide Skip, Characters, Escaped;
    QuotedFirst(a, Quote(b) + z);
    QuotedFirst(b, z);
    assert MoreStrings(z) == Match([], z);
    assert b + [] == b;
  }

  lemma {:induction false} QuotedFirst(a: Text, y: Text)
    ensures Quoted(Quote(a) + y) == Match(a, y)
  {
    hide Skip, Characters, Escaped;
    var rest := Escaped(a) + ([0x22] + y);
    assert Quote(a) + y == [0x22] + rest;
    SpaceSkipped(0x22, rest);
    assert ([0x22] + rest)[1..] == rest;
    CharactersRead(a, y);
  }

  // ----- Objects and arrays, written

  const SPACES4: Text := [0x20, 0x20, 0x20, 0x20]
  const SPACES8: Text := [0x20, 0x20, 0x20, 0x20, 0x20, 0x20, 0x20, 0x20]

  lemma {:induction false} Indented()
    ensures Spaces(4) == SPACES4 && Spaces(8) == SPACES8
  {
  }

  lemma {:induction false} LeafWritten(s: Text, indent: nat, pretty: bool)
    ensures indent > 0 ==> Render(Leaf(s), indent, pretty) == Quote(s) == [0x22] + Escaped(s) + [0x22]
  {
  }

  lemma {:induction false} LastMember(k: Text, child: Tree, pretty: bool)
    ensures Members(Cons(k, child, Nil), 0, pretty) ==
      KeyPart(Cons(k, child, Nil), 0, pretty) + Render(child, 1, pretty) + (if pretty then [0x0A] else [])
  {
    hide Render, KeyPart;
    assert Members(Nil, 0, pretty) == [];
    var m := Member(Cons(k, child, Nil), 0, pretty);
    assert m + [] == m;
    assert [] + [0x0A] == [0x0A];
  }

  /** A root with one string in it, in both forms. */
  lemma {:induction false} ObjectWritten(k: Text, s: Text)
    ensures Render(Tree([], Cons(k, Leaf(s), Nil)), 0, false) ==
      [0x7B] + (Quote(k) + [0x3A] + Quote(s)) + [0x7D]
    ensures Render(Tree([], Cons(k, Leaf(s), Nil)), 0, true) ==
      [0x7B, 0x0A] + (SPACES4 + Quote(k) + [0x3A] + [0x20] + Quote(s) + [0x0A]) + [0x7D]
  {
    hide Quote, Members, Spaces, Escaped;
    Indented();
    NoIndent();
    LastMember(k, Leaf(s), false);
    LastMember(k, Leaf(s), true);
    LeafWritten(s, 1, false);
    LeafWritten(s, 1, true);
    var q, v := Quote(k), Quote(s);
    assert [] + q + [0x3A] + [] + v + [] == q + [0x3A] + v;
    assert [0x7B] + [] + (q + [0x3A] + v) + [] + [0x7D] == [0x7B] + (q + [0x3A] + v) + [0x7D];
    var m := SPACES4 + q + [0x3A] + [0x20] + v + [0x0A];
    assert [0x7B] + [0x0A] + m + [] + [0x7D] == [0x7B, 0x0A] + m + [0x7D];
  }

  lemma NoIndent()
    ensures Spaces(0) == []
  {
  }

  /** A member whose value has children starts that value on a line of its own. */
  lemma {:induction false} NodeKey(k: Text, child: Tree)
    requires child.children.Cons?
    ensures KeyPart(Cons(k, child, Nil), 0, true) == SPACES4 + Quote(k) + [0x3A] + ([0x0A] + SPACES4)
  {
    hide Quote, Spaces;
    Indented();
  }

  lemma {:induction false} OneItem(s: Text, rest: Forest, pretty: bool)
    ensures Item(Cons([], Leaf(s), rest), 1, pretty) ==
      (if pretty then SPACES8 else []) + Quote(s) + ((if rest.Cons? then [0x2C] else []) + (if pretty then [0x0A] else []))
  {
    hide Quote, Spaces, Escaped;
    Indented();
    LeafWritten(s, 2, pretty);
  }

  /** An array of two strings below the root; in compact form too there are spaces before its
      closing bracket. */
  lemma {:induction false} ArrayWritten(s: Text, t: Text)
    ensures var node := Tree([], Cons([], Leaf(s), Cons([], Leaf(t), Nil)));
      && Render(node, 1, false) == [0x5B] + (Quote(s) + [0x2C] + Quote(t)) + SPACES4 + [0x5D]
      && Render(node, 1, true) ==
           [0x5B, 0x0A] + ((SPACES8 + Quote(s) + [0x2C, 0x0A]) + (SPACES8 + Quote(t) + [0x0A])) + SPACES4 + [0x5D]
  {
    var last := Cons([], Leaf(t), Nil);
    var both := Cons([], Leaf(s), last);
    assert both.Count([]) == 2 && both.Size() == 2 by {
      assert last.Count([]) == 1 && last.Size() == 1;
    }
    TwoItems(s, t);
    Indented();
    hide Quote, Items, Spaces, Forest.Count, Forest.Size, Escaped;
    var i, j := Items(both, 1, false), Items(both, 1, true);
    assert [0x5B] + [] + i + SPACES4 + [0x5D] == [0x5B] + i + SPACES4 + [0x5D];
    assert [0x5B] + [0x0A] + j + SPACES4 + [0x5D] == [0x5B, 0x0A] + j + SPACES4 + [0x5D];
  }

  lemma {:induction false} TwoItems(s: Text, t: Text)
    ensures var both := Cons([], Leaf(s), Cons([], Leaf(t), Nil));
      && Items(both, 1, false) == Quote(s) + [0x2C] + Quote(t)
      && Items(both, 1, true) == (SPACES8 + Quote(s) + [0x2C, 0x0A]) + (SPACES8 + Quote(t) + [0x0A])
  {
    hide Quote, Item, Spaces, Escaped;
    var last := Cons([], Leaf(t), Nil);
    OneItem(s, last, false);
    OneItem(s, last, true);
    OneItem(t, Nil, false);
    OneItem(t, Nil, true);
    assert Items(Nil, 1, false) == [] && Items(Nil, 1, true) == [];
    var q, r := Quote(s), Quote(t);
    assert Items(last, 1, false) == r && Items(last, 1, true) == SPACES8 + r + [0x0A] by {
      assert [] + r + ([] + []) + [] == r;
      assert SPACES8 + r + ([] + [0x0A]) + [] == SPACES8 + r + [0x0A];
    }
    assert [] + q + ([0x2C] + []) + r == q + [0x2C] + r;
    assert SPACES8 + q + ([0x2C] + [0x0A]) == SPACES8 + q + [0x2C, 0x0A];
  }
}
