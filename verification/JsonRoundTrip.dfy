/** Reading what was written gives the tree back. */
module JsonRoundTrip {
  import opened Bytes
  import opened Json
  import opened JsonGrammar
  import opened JsonWriter

  // ----- Strings

  lemma {:induction false} EscapeReads(b: Byte, x: Text)
    ensures Characters(EscapeByte(b) + x) == Prepend([b], Characters(x))
  {
    var s := EscapeByte(b) + x;
    if Plain(b) {
      assert s[1..] == x;
    } else if b == BACKSPACE || b == FORM_FEED || b == NEWLINE || b == RETURN
           || b == SLASH || b == QUOTE || b == BACKSLASH {
      assert s[1..][1..] == x;
      assert EscapedChar(s[1]) == [b];
    } else {
      ControlReads(b, x);
    }
  }

  /** The remaining control characters are written as \u00XY. */
  lemma {:induction false} ControlReads(b: Byte, x: Text)
    requires b < 0x20 && EscapeByte(b) == [BACKSLASH, 0x75, 0x30, 0x30, HexDigit(b / 16), HexDigit(b % 16)]
    ensures Characters(EscapeByte(b) + x) == Prepend([b], Characters(x))
  {
    hide EscapeByte;
    var s := EscapeByte(b) + x;
    var h := s[2..];
    assert h == [0x30, 0x30, HexDigit(b / 16), HexDigit(b % 16)] + x;
    assert h[4..] == x;
    assert s[1..][1..] == h;
    assert FourHex(h) == Match(b, x);
  }

  lemma {:induction false} CharactersRead(s: Text, x: Text)
    ensures Characters(Escaped(s) + ([QUOTE] + x)) == Match(s, x)
  {
    hide EscapeByte;
    if s == [] {
      assert [] + ([QUOTE] + x) == [QUOTE] + x;
      assert ([QUOTE] + x)[1..] == x;
    } else {
      var y := Escaped(s[1..]) + ([QUOTE] + x);
      assert Escaped(s) + ([QUOTE] + x) == EscapeByte(s[0]) + y;
      EscapeReads(s[0], y);
      CharactersRead(s[1..], x);
      assert [s[0]] + s[1..] == s;
    }
  }

  /** No quoted string comes next, so `string` stops here. */
  predicate NoQuote(s: Text) {
    var s1 := Skip(s);
    s1 == [] || s1[0] != QUOTE
  }

  lemma {:induction false} StringsRead(str: Text, s: Text, x: Text)
    requires Skip(s) == Quote(str) + x && NoQuote(x)
    ensures Strings(s) == Match(str, x)
  {
    hide Skip, Escaped, Characters;
    assert Skip(s)[1..] == Escaped(str) + ([QUOTE] + x);
    CharactersRead(str, x);
    assert MoreStrings(x) == Match([], x);
    assert str + [] == str;
  }

  // ----- White space

  predicate Blank(s: Text) {
    forall b :: b in s ==> IsSpace(b)
  }

  lemma {:induction false} SkipBlank(w: Text, s: Text)
    requires Blank(w)
    ensures Skip(w + s) == Skip(s)
  {
    if w == [] {
      assert w + s == s;
    } else {
      assert (w + s)[1..] == w[1..] + s;
      assert IsSpace(w[0]);
      SkipBlank(w[1..], s);
    }
  }

  /** A byte that starts neither white space nor a comment. */
  predicate Solid(b: Byte) {
    !IsSpace(b) && b != SLASH
  }

  lemma {:induction false} SkipNothing(s: Text)
    requires s != [] && Solid(s[0])
    ensures Skip(s) == s
  {
  }

  lemma {:induction false} SkipTo(w: Text, b: Byte, s: Text)
    requires Blank(w) && Solid(b)
    ensures Skip(w + ([b] + s)) == [b] + s
  {
    SkipBlank(w, [b] + s);
    SkipNothing([b] + s);
  }

  // ----- Lists of children

  function Kids(named: bool, f: Forest, indent: nat, pretty: bool): Text {
    if named then Members(f, indent, pretty) else Items(f, indent, pretty)
  }

  predicate EmptyKeys(f: Forest) {
    f.Nil? || (f.key == [] && EmptyKeys(f.rest))
  }

  lemma {:induction false} ArrayKeys(f: Forest)
    ensures f.Count([]) <= f.Size() && (f.Count([]) == f.Size() <==> EmptyKeys(f))
  {
    if f.Cons? { ArrayKeys(f.rest); }
  }

  predicate Starts(b: Byte) {
    b == QUOTE || b == OPEN_BRACE || b == OPEN_BRACKET
  }

  lemma {:induction false} RenderStarts(t: Tree, indent: nat, pretty: bool)
    ensures Render(t, indent, pretty) != [] && Starts(Render(t, indent, pretty)[0])
  {
  }

  /** What follows a child is a comma or the closing bracket. */
  lemma {:induction false} AfterChild(named: bool, f: Forest, indent: nat, pretty: bool, w: Text, x: Text)
    requires Blank(w)
    ensures var y := Separator(f, pretty) + (Kids(named, f, indent, pretty) + (w + ([Closer(named)] + x)));
      && NoQuote(y)
      && (f.Nil? ==> Skip(y) == [Closer(named)] + x)
      && (f.Cons? ==> Skip(y) == [COMMA] + (If(pretty, [NEWLINE])
                                 + (Kids(named, f, indent, pretty) + (w + ([Closer(named)] + x)))))
  {
    hide Skip;
    var close := [Closer(named)] + x;
    if f.Nil? {
      var n := If(pretty, [NEWLINE]);
      assert Separator(f, pretty) + (Kids(named, f, indent, pretty) + (w + close)) == (n + w) + close;
      SkipTo(n + w, Closer(named), x);
    } else {
      var z := If(pretty, [NEWLINE]) + (Kids(named, f, indent, pretty) + (w + close));
      assert Separator(f, pretty) + (Kids(named, f, indent, pretty) + (w + close)) == [COMMA] + z;
      SkipNothing([COMMA] + z);
    }
  }

  lemma {:induction false} BlankParts(n: nat, child: Tree, indent: nat, pretty: bool)
    ensures Blank(Spaces(n)) && Blank(If(pretty, Spaces(n))) && Blank(If(pretty, [NEWLINE]))
    ensures Blank(If(pretty, AfterColon(child, indent)))
  {
  }

  /** The text in front of a child's value, up to and including the colon of a member. */
  function Front(named: bool, f: Forest, indent: nat, pretty: bool): Text
    requires f.Cons?
  {
    if named then KeyPart(f, indent, pretty) else If(pretty, Spaces(4 * (indent + 1)))
  }

  lemma {:induction false} KidsParts(named: bool, f: Forest, indent: nat, pretty: bool, z: Text)
    requires f.Cons?
    ensures Kids(named, f, indent, pretty) + z
         == Front(named, f, indent, pretty) + (Render(f.child, indent + 1, pretty)
            + (Separator(f.rest, pretty) + (Kids(named, f.rest, indent, pretty) + z)))
  {
    hide Render, KeyPart, Spaces, Separator;
    if named {
      assert Members(f, indent, pretty) == Member(f, indent, pretty) + Members(f.rest, indent, pretty);
    } else {
      assert Items(f, indent, pretty) == Item(f, indent, pretty) + Items(f.rest, indent, pretty);
    }
    Regroup(Front(named, f, indent, pretty), Render(f.child, indent + 1, pretty),
            Separator(f.rest, pretty), Kids(named, f.rest, indent, pretty), z);
  }

  lemma Regroup(a: Text, b: Text, c: Text, d: Text, e: Text)
    ensures a + b + c + d + e == a + (b + (c + (d + e)))
  {
  }

  lemma KidsNil(named: bool, indent: nat, pretty: bool, z: Text)
    ensures Kids(named, Nil, indent, pretty) + z == z
  {
  }

  lemma QuoteAndColon(key: Text, z: Text)
    ensures Quote(key) + ([COLON] + z) != [] && Solid((Quote(key) + ([COLON] + z))[0])
    ensures NoQuote([COLON] + z) && Char(COLON, [COLON] + z) == Match((), z)
  {
    hide Escaped;
    SkipNothing([COLON] + z);
    assert ([COLON] + z)[1..] == z;
  }

  /** A quoted key with white space before it, and what comes after its colon. */
  lemma {:induction false} KeyReads(key: Text, w: Text, a: Text, s: Text, v: Text)
    requires Blank(w) && Blank(a) && v != [] && Starts(v[0])
    requires Skip(s) == Skip(w + (Quote(key) + ([COLON] + (a + v))))
    ensures Name(true, s) == Match(key, a + v) && Skip(a + v) == v
  {
    hide Skip, Quote, Strings, Blank, Char, NoQuote;
    QuoteAndColon(key, a + v);
    SkipBlank(w, Quote(key) + ([COLON] + (a + v)));
    SkipNothing(Quote(key) + ([COLON] + (a + v)));
    StringsRead(key, s, [COLON] + (a + v));
    SkipBlank(a, v);
    SkipNothing(v);
  }

  /** The name of a child is read, and its value comes next. */
  lemma {:induction false} NameReads(named: bool, f: Forest, indent: nat, pretty: bool, s: Text, v: Text)
    requires f.Cons? && (!named ==> f.key == [])
    requires v != [] && Starts(v[0]) && Skip(s) == Skip(Front(named, f, indent, pretty) + v)
    ensures var name := Name(named, s); name.Match? && name.value == f.key && Skip(name.rest) == v
  {
    hide Skip, Spaces, Quote, Strings, AfterColon, Blank, Name, If;
    BlankParts(4 * (indent + 1), f.child, indent, pretty);
    var w := If(pretty, Spaces(4 * (indent + 1)));
    if named {
      var a := If(pretty, AfterColon(f.child, indent));
      Regroup(w, Quote(f.key), [COLON], a, v);
      KeyReads(f.key, w, a, s, v);
    } else {
      SkipBlank(w, v);
      SkipNothing(v);
      Unnamed(s);
    }
  }

  lemma Unnamed(s: Text)
    ensures Name(false, s) == Match([], s)
  {
  }

  lemma {:induction false} KidsStart(named: bool, f: Forest, indent: nat, pretty: bool, z: Text)
    requires f.Cons?
    ensures var s := Skip(Kids(named, f, indent, pretty) + z); s != [] && Starts(s[0])
  {
    hide Skip, Render, Spaces, Escaped, AfterColon, Separator, Kids;
    KidsParts(named, f, indent, pretty, z);
    var v := Render(f.child, indent + 1, pretty)
             + (Separator(f.rest, pretty) + (Kids(named, f.rest, indent, pretty) + z));
    RenderStarts(f.child, indent + 1, pretty);
    FrontStarts(named, f, indent, pretty, v);
  }

  lemma {:induction false} FrontStarts(named: bool, f: Forest, indent: nat, pretty: bool, v: Text)
    requires f.Cons? && v != [] && Starts(v[0])
    ensures var s := Skip(Front(named, f, indent, pretty) + v); s != [] && Starts(s[0])
  {
    hide Skip, Spaces, Escaped, AfterColon;
    BlankParts(4 * (indent + 1), f.child, indent, pretty);
    var w := If(pretty, Spaces(4 * (indent + 1)));
    if named {
      var q := Quote(f.key) + ([COLON] + (If(pretty, AfterColon(f.child, indent)) + v));
      assert Front(named, f, indent, pretty) + v == w + q;
      SkipBlank(w, q);
      SkipNothing(q);
    } else {
      SkipBlank(w, v);
      SkipNothing(v);
    }
  }

  lemma {:induction false} BracketIsNoLeaf(s: Text)
    requires Skip(s) != [] && (Skip(s)[0] == OPEN_BRACE || Skip(s)[0] == OPEN_BRACKET)
    ensures Strings(s).NoMatch? && Literal(s).NoMatch?
  {
    hide Skip;
    SkipNothing(Skip(s));
  }

  // ----- Values

  predicate IsNamed(t: Tree, indent: nat) {
    !(indent > 0 && IsArray(t))
  }

  lemma {:induction false} ArrayNames(t: Tree, indent: nat)
    ensures !IsNamed(t, indent) ==> EmptyKeys(t.children)
  {
    ArrayKeys(t.children);
  }

  function Opener(named: bool): Byte {
    if named then OPEN_BRACE else OPEN_BRACKET
  }

  /** The spaces before a closing bracket. */
  function Indentation(named: bool, indent: nat, pretty: bool): Text {
    if named then If(pretty, Spaces(4 * indent)) else Spaces(4 * indent)
  }

  lemma {:induction false} RenderParts(t: Tree, indent: nat, pretty: bool, x: Text)
    requires indent > 0 ==> t.children.Cons?
    ensures var named := IsNamed(t, indent);
      Render(t, indent, pretty) + x
      == [Opener(named)] + (If(pretty, [NEWLINE]) + (Kids(named, t.children, indent, pretty)
         + (Indentation(named, indent, pretty) + ([Closer(named)] + x))))
  {
    hide Items, Members, Spaces, IsArray;
    var named := IsNamed(t, indent);
    Regroup([Opener(named)], If(pretty, [NEWLINE]), Kids(named, t.children, indent, pretty),
            Indentation(named, indent, pretty), [Closer(named)] + x);
    assert Render(t, indent, pretty) + x
        == [Opener(named)] + If(pretty, [NEWLINE]) + Kids(named, t.children, indent, pretty)
           + Indentation(named, indent, pretty) + ([Closer(named)] + x);
  }

  lemma {:induction false} ValueReads(t: Tree, indent: nat, pretty: bool, s: Text, x: Text)
    requires indent > 0 && OneOrTheOther(t)
    requires Skip(s) == Render(t, indent, pretty) + x && NoQuote(x)
    ensures Value(s) == Match(t, x)
    decreases t, 2
  {
    hide Skip, Strings, Literal, NoQuote, ObjectOrArray;
    if t.children.Nil? {
      StringsRead(t.data, s, x);
    } else {
      BracketIsNoLeaf(s);
      ObjectReads(t, indent, pretty, s, x);
    }
  }

  lemma {:induction false} ObjectReads(t: Tree, indent: nat, pretty: bool, s: Text, x: Text)
    requires (indent > 0 ==> t.children.Cons?) && t.data == [] && AllOneOrTheOther(t.children)
    requires Skip(s) == Render(t, indent, pretty) + x
    ensures ObjectOrArray(s) == Match(t, x)
    decreases t, 1
  {
    hide Skip, List, Spaces, Items, Members, Render, IsArray;
    var named := IsNamed(t, indent);
    var w := Indentation(named, indent, pretty);
    var n := If(pretty, [NEWLINE]);
    var tail := w + ([Closer(named)] + x);
    var r := n + (Kids(named, t.children, indent, pretty) + tail);
    RenderParts(t, indent, pretty, x);
    assert Char(Opener(named), s) == Match((), r);
    BlankParts(4 * indent, t, indent, pretty);
    SkipBlank(n, Kids(named, t.children, indent, pretty) + tail);
    if t.children.Nil? {
      KidsNil(named, indent, pretty, tail);
      SkipTo(w, Closer(named), x);
      assert Children(named, r) == Match(Nil, x);
    } else {
      KidsStart(named, t.children, indent, pretty, tail);
      ArrayNames(t, indent);
      ListReads(named, t.children, indent, pretty, w, r, x);
      assert Children(named, r) == Match(t.children, x);
    }
  }

  lemma {:induction false} ListReads(named: bool, f: Forest, indent: nat, pretty: bool, w: Text, s: Text, x: Text)
    requires f.Cons? && AllOneOrTheOther(f) && (!named ==> EmptyKeys(f)) && Blank(w)
    requires Skip(s) == Skip(Kids(named, f, indent, pretty) + (w + ([Closer(named)] + x)))
    ensures List(named, s) == Match(f, x)
    decreases f, 3
  {
    hide Skip, Value, Name, Render, Kids, Separator, Front, NoQuote, Blank;
    var z := w + ([Closer(named)] + x);
    var y := Separator(f.rest, pretty) + (Kids(named, f.rest, indent, pretty) + z);
    KidsParts(named, f, indent, pretty, z);
    RenderStarts(f.child, indent + 1, pretty);
    NameReads(named, f, indent, pretty, s, Render(f.child, indent + 1, pretty) + y);
    AfterChild(named, f.rest, indent, pretty, w, x);
    ValueReads(f.child, indent + 1, pretty, Name(named, s).rest, y);
    if f.rest.Cons? {
      var t := If(pretty, [NEWLINE]) + (Kids(named, f.rest, indent, pretty) + z);
      assert Char(COMMA, y) == Match((), t);
      BlankParts(0, f.child, indent, pretty);
      SkipBlank(If(pretty, [NEWLINE]), Kids(named, f.rest, indent, pretty) + z);
      ListReads(named, f.rest, indent, pretty, w, t, x);
    } else {
      assert Char(COMMA, y).NoMatch? && Char(Closer(named), y) == Match((), x);
    }
  }

  /** Whatever can be written is read back unchanged, in pretty and in compact form. */
  lemma {:induction false} RoundTrip(t: Tree, pretty: bool)
    requires VerifyJson(t, 0)
    ensures Read(Render(t, 0, pretty) + [NEWLINE]) == Match(t, [])
  {
    hide Skip, Render, ObjectOrArray;
    VerifyMeans(t, 0);
    var s := Render(t, 0, pretty) + [NEWLINE];
    RenderStarts(t, 0, pretty);
    SkipNothing(s);
    ObjectReads(t, 0, pretty, s, [NEWLINE]);
    SkipBlank([NEWLINE], []);
    assert [NEWLINE] + [] == [NEWLINE];
    assert Skip([]) == [] by { SkipEmpty(); }
  }

  lemma SkipEmpty()
    ensures Skip([]) == []
  {
  }

  // ----- What is read can be written

  lemma {:induction false} ValueIsWritable(s: Text)
    ensures Value(s).Match? ==> OneOrTheOther(Value(s).value)
    decreases |s|, 2
  {
    hide Strings, Literal;
    if Strings(s).NoMatch? && Literal(s).NoMatch? {
      ObjectIsWritable(s);
    }
  }

  lemma {:induction false} ObjectIsWritable(s: Text)
    ensures ObjectOrArray(s).Match? ==> OneOrTheOther(ObjectOrArray(s).value) && ObjectOrArray(s).value.data == []
    decreases |s|, 1
  {
    hide Skip, List;
    var brace, bracket := Char(OPEN_BRACE, s), Char(OPEN_BRACKET, s);
    if brace.Match? {
      ListIsWritable(true, brace.rest);
    } else if bracket.Match? {
      ListIsWritable(false, bracket.rest);
    }
  }

  lemma {:induction false} ListIsWritable(named: bool, s: Text)
    ensures List(named, s).Match? ==> AllOneOrTheOther(List(named, s).value)
    decreases |s|, 3
  {
    hide Char, Value, Name;
    var name := Name(named, s);
    if name.Match? {
      ValueIsWritable(name.rest);
      var value := Value(name.rest);
      if value.Match? && Char(COMMA, value.rest).Match? {
        ListIsWritable(named, Char(COMMA, value.rest).rest);
      }
    }
  }

  /** Writing and reading back is the identity on exactly the trees that verify_json
      accepts. */
  lemma {:induction false} RoundTripExactly(t: Tree, pretty: bool)
    ensures Read(Render(t, 0, pretty) + [NEWLINE]) == Match(t, []) <==> VerifyJson(t, 0)
  {
    hide ObjectOrArray, Render;
    if VerifyJson(t, 0) {
      RoundTrip(t, pretty);
    } else {
      ObjectIsWritable(Render(t, 0, pretty) + [NEWLINE]);
      VerifyMeans(t, 0);
    }
  }

  /** Rewriting any accepted text gives a text with the same meaning. */
  lemma {:induction false} RewriteKeepsMeaning(text: Text, pretty: bool)
    requires Read(text).Match?
    ensures Read(Render(Read(text).value, 0, pretty) + [NEWLINE]) == Read(text)
  {
    hide ObjectOrArray, Render;
    ObjectIsWritable(text);
    VerifyMeans(Read(text).value, 0);
    RoundTrip(Read(text).value, pretty);
  }
}
