/** What the reader refuses: for each `expect_` assertion of the grammar, and for the rules
    that do not match, the texts that run into it (sections 2, 4, 5 and 6 of RFC 8259).
  */
module JsonRefusals {
  import opened Bytes
  import opened Json
  import opened JsonGrammar
  import opened JsonWriter
  import opened JsonRoundTrip
  import opened JsonText

  /** Bytes that could be white space, begin a comment, or go on a string. */
  const SKIPPED := {0x20, 0x09, 0x0A, 0x0B, 0x0C, 0x0D, 0x2F}

  lemma {:induction false} Stays(b: Byte, z: Text)
    requires b !in SKIPPED
    ensures Skip([b] + z) == [b] + z && (b != 0x22 ==> NoQuote([b] + z))
    ensures forall c: Byte :: Char(c, [b] + z) == if b == c then Match((), z) else NoMatch
  {
    hide Skip;
    SpaceSkipped(b, z);
    assert ([b] + z)[1..] == z;
  }

  lemma {:induction false} QuoteRead(s: Text, z: Text)
    requires NoQuote(z)
    ensures Strings(Quote(s) + z) == Match(s, z) && Value(Quote(s) + z) == Match(Leaf(s), z)
  {
    hide Skip, Strings, NoQuote, Escaped;
    var rest := Escaped(s) + [0x22] + z;
    assert Quote(s) + z == [0x22] + rest;
    Stays(0x22, rest);
    StringsRead(s, Quote(s) + z, z);
  }

  /** A member with a string for a value; items have no name. */
  function Entry(named: bool, k: Text, s: Text): Text {
    (if named then Quote(k) + [0x3A] else []) + Quote(s)
  }

  lemma {:induction false} NameRead(named: bool, k: Text, v: Text)
    ensures Name(named, (if named then Quote(k) + [0x3A] else []) + v) == Match(if named then k else [], v)
  {
    hide Strings, Skip, NoQuote, Quote;
    if named {
      Stays(0x3A, v);
      QuoteRead(k, [0x3A] + v);
      assert Quote(k) + [0x3A] + v == Quote(k) + ([0x3A] + v);
    } else {
      assert [] + v == v;
    }
  }

  /** One entry and a byte after it: the list ends, goes on after a comma, or is refused. */
  lemma {:induction false} AfterEntry(named: bool, k: Text, s: Text, b: Byte, z: Text)
    requires b !in SKIPPED && b != 0x22
    ensures var list := List(named, Entry(named, k, s) + ([b] + z));
      && (b == 0x2C && List(named, z).Throw? ==> list == Throw)
      && (b == Closer(named) ==> list == Match(Cons(if named then k else [], Leaf(s), Nil), z))
      && (b != 0x2C && b != Closer(named) ==> list == Throw)
  {
    hide Strings, Skip, NoQuote, Quote, Value, Name, Char;
    Stays(b, z);
    QuoteRead(s, [b] + z);
    NameRead(named, k, Quote(s) + ([b] + z));
    assert Entry(named, k, s) + ([b] + z) ==
      (if named then Quote(k) + [0x3A] else []) + (Quote(s) + ([b] + z));
  }

  /** Neither a name nor a value begins with a closing bracket. */
  lemma {:induction false} NoEntry(named: bool, z: Text)
    ensures List(named, [Closer(named)] + z) == Throw
  {
    hide Skip, List;
    Stays(Closer(named), z);
    if named {
      NoName(0x7D, z);
    } else {
      NoValue(0x5D, z);
    }
  }

  lemma {:induction false} NoName(b: Byte, z: Text)
    requires b !in SKIPPED && b != 0x22
    ensures Strings([b] + z) == NoMatch && List(true, [b] + z) == Throw
  {
    hide Skip, Value, Characters;
    Stays(b, z);
  }

  /** The bytes a value begins with: a quote, a bracket, a brace, a minus, a digit, and t, f and n. */
  predicate BeginsValue(b: Byte) {
    b in {0x22, 0x5B, 0x7B, 0x2D, 0x74, 0x66, 0x6E} || 0x30 <= b <= 0x39
  }

  lemma {:induction false} NoValue(b: Byte, z: Text)
    requires b !in SKIPPED && !BeginsValue(b)
    ensures Value([b] + z) == NoMatch && List(false, [b] + z) == Throw
  {
    hide Skip, Value, Children, Strings, Literal;
    NoName(b, z);
    NoLiteral(b, z);
    NoBracket(b, z);
    NoAlternative([b] + z);
    NothingBefore([b] + z);
  }

  lemma {:induction false} NothingBefore(s: Text)
    requires Value(s) == NoMatch
    ensures List(false, s) == Throw
  {
    hide Value, Skip;
  }

  lemma {:induction false} NoAlternative(s: Text)
    requires Strings(s) == NoMatch && Literal(s) == NoMatch && ObjectOrArray(s) == NoMatch
    ensures Value(s) == NoMatch
  {
    hide Strings, Literal, ObjectOrArray;
  }

  lemma {:induction false} NoBracket(b: Byte, z: Text)
    requires b !in SKIPPED && b != 0x5B && b != 0x7B
    ensures ObjectOrArray([b] + z) == NoMatch
  {
    hide Skip, Children, Char;
    Stays(b, z);
  }

  lemma {:induction false} NoLiteral(b: Byte, z: Text)
    requires b !in SKIPPED && !BeginsValue(b)
    ensures Literal([b] + z) == NoMatch
  {
    hide Skip, Fraction, Exponent, Digits;
    Stays(b, z);
  }

  // ----- Whole texts

  lemma {:induction false} Opened(named: bool, y: Text)
    requires List(named, y) == Throw && Char(Closer(named), y) == NoMatch
    ensures Read([if named then 0x7B else 0x5B] + y) == Throw
  {
    hide Skip, List, Char;
    Bracketed(named, y);
  }

  lemma {:induction false} Bracketed(named: bool, y: Text)
    ensures ObjectOrArray([if named then 0x7B else 0x5B] + y) == Node(Children(named, y))
  {
    hide Skip, Children, Char, Node;
    var open := if named then 0x7B else 0x5B;
    Stays(open, y);
    assert Char(0x7B, [open] + y) == if named then Match((), y) else NoMatch;
    assert Char(0x5B, [open] + y) == if named then NoMatch else Match((), y);
  }

  lemma {:induction false} EntryStarts(named: bool, k: Text, s: Text, z: Text)
    ensures Char(Closer(named), Entry(named, k, s) + z) == NoMatch
  {
    hide Skip, Escaped, Char;
    var y := Entry(named, k, s) + z;
    assert y == [0x22] + y[1..];
    Stays(0x22, y[1..]);
  }

  /** A comma before the closing bracket is refused. */
  lemma {:induction false} TrailingComma(k: Text, s: Text, z: Text)
    ensures Read([0x7B] + ((Quote(k) + [0x3A] + Quote(s)) + ([0x2C] + ([0x7D] + z)))) == Throw
    ensures Read([0x5B] + (Quote(s) + ([0x2C] + ([0x5D] + z)))) == Throw
  {
    hide Read, List, Char, Quote;
    NoEntry(true, z);
    AfterEntry(true, k, s, 0x2C, [0x7D] + z);
    EntryStarts(true, k, s, [0x2C] + ([0x7D] + z));
    Opened(true, Entry(true, k, s) + ([0x2C] + ([0x7D] + z)));
    NoEntry(false, z);
    AfterEntry(false, k, s, 0x2C, [0x5D] + z);
    EntryStarts(false, k, s, [0x2C] + ([0x5D] + z));
    Opened(false, Entry(false, k, s) + ([0x2C] + ([0x5D] + z)));
    assert [] + Quote(s) == Quote(s);
  }

  /** What follows a value is a comma or the bracket that closes. */
  lemma {:induction false} MissingComma(k: Text, s: Text, b: Byte, z: Text)
    requires b !in SKIPPED && b != 0x22 && b != 0x2C
    ensures b != 0x7D ==> Read([0x7B] + ((Quote(k) + [0x3A] + Quote(s)) + ([b] + z))) == Throw
    ensures b != 0x5D ==> Read([0x5B] + (Quote(s) + ([b] + z))) == Throw
  {
    hide Read, List, Char, Quote;
    AfterEntry(true, k, s, b, z);
    EntryStarts(true, k, s, [b] + z);
    AfterEntry(false, k, s, b, z);
    EntryStarts(false, k, s, [b] + z);
    if b != 0x7D { Opened(true, Entry(true, k, s) + ([b] + z)); }
    if b != 0x5D { Opened(false, Entry(false, k, s) + ([b] + z)); }
    assert [] + Quote(s) == Quote(s);
  }

  /** A name is a quoted string, and a colon follows it. */
  lemma {:induction false} NameAndColon(k: Text, b: Byte, z: Text)
    requires b !in SKIPPED && b != 0x22
    ensures b != 0x7D ==> Read([0x7B] + ([b] + z)) == Throw
    ensures b != 0x3A ==> Read([0x7B] + (Quote(k) + ([b] + z))) == Throw
  {
    hide Read, List, Char, Strings;
    Stays(b, z);
    if b != 0x7D {
      NoName(b, z);
      Opened(true, [b] + z);
    }
    if b != 0x3A {
      NoColon(k, b, z);
      Opened(true, Quote(k) + ([b] + z));
    }
  }

  lemma {:induction false} NoColon(k: Text, b: Byte, z: Text)
    requires b !in SKIPPED && b != 0x22 && b != 0x3A
    ensures List(true, Quote(k) + ([b] + z)) == Throw && Char(0x7D, Quote(k) + ([b] + z)) == NoMatch
  {
    hide Skip, Strings, Value, Escaped, Char, NoQuote;
    Stays(b, z);
    QuoteRead(k, [b] + z);
    var y := Quote(k) + ([b] + z);
    assert y == [0x22] + y[1..];
    Stays(0x22, y[1..]);
  }

  /** A value begins with one of the bytes above. */
  lemma {:induction false} MissingValue(k: Text, b: Byte, z: Text)
    requires b !in SKIPPED && !BeginsValue(b)
    ensures Read([0x7B] + ((Quote(k) + [0x3A]) + ([b] + z))) == Throw
    ensures b != 0x5D ==> Read([0x5B] + ([b] + z)) == Throw
  {
    hide Read, List, Char, Quote, Value;
    NoValue(b, z);
    ValueMissing(k, [b] + z);
    Opened(true, (Quote(k) + [0x3A]) + ([b] + z));
    Stays(b, z);
    if b != 0x5D { Opened(false, [b] + z); }
  }

  lemma {:induction false} ValueMissing(k: Text, v: Text)
    requires Value(v) == NoMatch
    ensures List(true, (Quote(k) + [0x3A]) + v) == Throw && Char(0x7D, (Quote(k) + [0x3A]) + v) == NoMatch
  {
    hide Name, Value, Skip, Escaped, Char;
    NameRead(true, k, v);
    var y := (Quote(k) + [0x3A]) + v;
    assert y == [0x22] + y[1..];
    Stays(0x22, y[1..]);
  }

  /** The root is an object or an array. */
  lemma {:induction false} RootOnly(b: Byte, z: Text)
    requires b !in SKIPPED && b != 0x5B && b != 0x7B
    ensures Read([b] + z) == Throw && Read([]) == Throw
  {
    hide Skip, ObjectOrArray;
    NoBracket(b, z);
    NoText();
  }

  lemma {:induction false} NoText()
    ensures ObjectOrArray([]) == NoMatch
  {
    SkipEmpty();
  }

  /** Nothing but white space and comments follows it. */
  lemma {:induction false} TextAfterRoot(b: Byte, z: Text)
    requires b !in SKIPPED
    ensures Read([0x7B] + ([0x7D] + ([b] + z))) == Throw && Read([0x5B] + ([0x5D] + ([b] + z))) == Throw
    ensures Read([0x7B] + ([0x7D] + [])) == Read([0x5B] + ([0x5D] + [])) == Match(Tree([], Nil), [])
  {
    hide Read, Skip;
    Stays(b, z);
    SkipEmpty();
    Emptied(true, [b] + z);
    Emptied(false, [b] + z);
    Emptied(true, []);
    Emptied(false, []);
  }

  lemma {:induction false} Emptied(named: bool, y: Text)
    ensures Read([if named then 0x7B else 0x5B] + ([Closer(named)] + y)) ==
      if Skip(y) == [] then Match(Tree([], Nil), []) else Throw
  {
    hide Skip, List, Char;
    Bracketed(named, [Closer(named)] + y);
    Stays(Closer(named), y);
    assert Char(Closer(named), [Closer(named)] + y) == Match((), y);
  }

  /** A number has no leading zero. */
  lemma {:induction false} LeadingZero(k: Text, d: Byte, z: Text)
    requires 0x30 <= d <= 0x39
    ensures Read([0x7B] + ((Quote(k) + [0x3A]) + ([0x30] + ([d] + z)))) == Throw
  {
    hide Read, List, Char, Quote, Value;
    ZeroRead(d, z);
    ZeroEnds(k, d, z);
    Opened(true, (Quote(k) + [0x3A]) + ([0x30] + ([d] + z)));
  }

  lemma {:induction false} ZeroRead(d: Byte, z: Text)
    requires 0x30 <= d <= 0x39
    ensures Value([0x30] + ([d] + z)) == Match(Leaf([0x30]), [d] + z)
  {
    hide Value, Skip;
    Stays(0x30, [d] + z);
    Stays(d, z);
    NoName(0x30, [d] + z);
    hide Strings, Digits, SomeDigits;
    assert Number([0x30] + ([d] + z)) == Match((), [d] + z);
    hide Number;
    LiteralOfNumber([0x30], [d] + z);
    hide Literal;
    LiteralIsLeaf([0x30] + ([d] + z));
  }

  lemma {:induction false} LiteralIsLeaf(s: Text)
    requires Strings(s) == NoMatch && Literal(s).Match?
    ensures Value(s) == Match(Leaf(Literal(s).value), Literal(s).rest)
  {
    hide Strings, Literal, ObjectOrArray;
  }

  lemma {:induction false} ZeroEnds(k: Text, d: Byte, z: Text)
    requires 0x30 <= d <= 0x39 && Value([0x30] + ([d] + z)) == Match(Leaf([0x30]), [d] + z)
    ensures var y := (Quote(k) + [0x3A]) + ([0x30] + ([d] + z));
      List(true, y) == Throw && Char(0x7D, y) == NoMatch
  {
    hide Name, Value, Skip, Escaped, Char;
    NameRead(true, k, [0x30] + ([d] + z));
    Stays(d, z);
    var y := (Quote(k) + [0x3A]) + ([0x30] + ([d] + z));
    assert y == [0x22] + y[1..];
    Stays(0x22, y[1..]);
  }
}
