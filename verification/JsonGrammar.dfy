/** The grammar of json_parser_read.hpp as a reading of the remaining text.

    Each rule matches and leaves a rest, does not match, or throws (an `expect_`
    assertion of the grammar failed).  Rules other than those inside a quoted string
    first skip white space and comments.
  */
module JsonGrammar {
  import opened Bytes
  import opened Json

  datatype Outcome<+T> = Match(value: T, rest: Text) | NoMatch | Throw

  /** `rest` is strictly shorter than `s`, if there is one. */
  predicate Shorter<T>(o: Outcome<T>, s: Text) {
    o.Match? ==> |o.rest| < |s|
  }

  // ----- The skip parser: space_p | comment_p("//") | comment_p("/*", "*/")

  predicate IsSpace(b: Byte) {
    b == SPACE || 0x09 <= b <= 0x0D
  }

  function AfterLine(s: Text): (r: Text)
    ensures |r| <= |s|
  {
    if s == [] then []
    else if s[0] == RETURN then if |s| > 1 && s[1] == NEWLINE then s[2..] else s[1..]
    else if s[0] == NEWLINE then s[1..]
    else AfterLine(s[1..])
  }

  /** What follows the end of a block comment, if it is closed. */
  function AfterBlock(s: Text): (r: Outcome<()>)
    ensures Shorter(r, s) && !r.Throw?
  {
    if |s| < 2 then NoMatch
    else if s[0] == 0x2A && s[1] == SLASH then Match((), s[2..])
    else AfterBlock(s[1..])
  }

  function Skip(s: Text): (r: Text)
    ensures |r| <= |s|
    ensures r == [] || !IsSpace(r[0])
    decreases |s|
  {
    if s == [] then []
    else if IsSpace(s[0]) then Skip(s[1..])
    else if |s| >= 2 && s[0] == SLASH && s[1] == SLASH then Skip(AfterLine(s[2..]))
    else if |s| >= 2 && s[0] == SLASH && s[1] == 0x2A && AfterBlock(s[2..]).Match? then
      Skip(AfterBlock(s[2..]).rest)
    else s
  }

  /** ch_p. */
  function Char(c: Byte, s: Text): (r: Outcome<()>)
    ensures Shorter(r, s) && !r.Throw?
  {
    var s1 := Skip(s);
    if s1 != [] && s1[0] == c then Match((), s1[1..]) else NoMatch
  }

  // ----- Strings

  function HexValue(b: Byte): (v: int)
    ensures -1 <= v < 16
  {
    if 0x30 <= b <= 0x39 then b - 0x30
    else if 0x41 <= b <= 0x46 then b - 0x41 + 10
    else if 0x61 <= b <= 0x66 then b - 0x61 + 10
    else -1
  }

  /** a_unicode for one-byte characters.  Surrogates get a form of four bytes. */
  function Utf8(u: nat): Text
    requires u < 0x10000
  {
    if u < 0x80 then [u]
    else if u < 0x800 then [0xC0 + u / 0x40, 0x80 + u % 0x40]
    else if u < 0xD800 || u >= 0xE000 then [0xE0 + u / 0x1000, 0x80 + u % 0x1000 / 0x40, 0x80 + u % 0x40]
    else [0xF0 + u / 0x40000, 0x80 + u % 0x40000 / 0x1000, 0x80 + u % 0x1000 / 0x40, 0x80 + u % 0x40]
  }

  /** uint_parser<unsigned long, 16, 4, 4>: exactly four hexadecimal digits. */
  function FourHex(s: Text): (r: Outcome<nat>)
    ensures Shorter(r, s) && !r.Throw?
    ensures r.Match? ==> r.value < 0x10000
  {
    if |s| < 4 || HexValue(s[0]) < 0 || HexValue(s[1]) < 0 || HexValue(s[2]) < 0 || HexValue(s[3]) < 0 then
      NoMatch
    else
      Match(((HexValue(s[0]) * 16 + HexValue(s[1])) * 16 + HexValue(s[2])) * 16 + HexValue(s[3]), s[4..])
  }

  /** a_escape: the character that a one-letter escape stands for. */
  function EscapedChar(b: Byte): Text {
    if b == QUOTE || b == BACKSLASH || b == SLASH then [b]
    else if b == 0x62 then [BACKSPACE]
    else if b == 0x66 then [FORM_FEED]
    else if b == 0x6E then [NEWLINE]
    else if b == 0x72 then [RETURN]
    else if b == 0x74 then [0x09]
    else []
  }

  /** expect_escape(escape), after the backslash. */
  function Escape(s: Text): (r: Outcome<Text>)
    ensures Shorter(r, s) && !r.NoMatch?
  {
    if s == [] then Throw
    else if EscapedChar(s[0]) != [] then Match(EscapedChar(s[0]), s[1..])
    else if s[0] == 0x75 then
      match FourHex(s[1..])
      case Match(u, rest) => Match(Utf8(u), rest)
      case _ => Throw
    else Throw
  }

  /** *character >> '"', inside a lexeme. */
  function Characters(s: Text): (r: Outcome<Text>)
    ensures Shorter(r, s)
    decreases |s|
  {
    if s == [] then NoMatch
    else if s[0] == QUOTE then Match([], s[1..])
    else if s[0] == BACKSLASH then
      match Escape(s[1..])
      case Match(t, rest) => Prepend(t, Characters(rest))
      case _ => Throw
    else Prepend([s[0]], Characters(s[1..]))
  }

  function Prepend(t: Text, o: Outcome<Text>): Outcome<Text> {
    if o.Match? then Match(t + o.value, o.rest) else o
  }

  /** lexeme_d[confix_p('"', *character, '"')]. */
  function Quoted(s: Text): (r: Outcome<Text>)
    ensures Shorter(r, s)
  {
    var s1 := Skip(s);
    if s1 != [] && s1[0] == QUOTE then Characters(s1[1..]) else NoMatch
  }

  /** The rule `string` is one or more quoted strings, which are joined. */
  function Strings(s: Text): (r: Outcome<Text>)
    ensures Shorter(r, s)
  {
    match Quoted(s)
    case Match(t, rest) => Prepend(t, MoreStrings(rest))
    case NoMatch => NoMatch
    case Throw => Throw
  }

  function MoreStrings(s: Text): (r: Outcome<Text>)
    ensures !r.NoMatch? && (r.Match? ==> |r.rest| <= |s|)
    decreases |s|
  {
    match Quoted(s)
    case Match(t, rest) => Prepend(t, MoreStrings(rest))
    case NoMatch => Match([], s)
    case Throw => Throw
  }

  // ----- Numbers and literals.  White space may separate the parts of a number.

  /** One digit from lo to 9. */
  function Digit(lo: Byte, s: Text): (r: Outcome<()>)
    ensures Shorter(r, s) && !r.Throw?
  {
    var s1 := Skip(s);
    if s1 != [] && lo <= s1[0] <= 0x39 then Match((), s1[1..]) else NoMatch
  }

  function Digits(s: Text): (r: Text)
    ensures |r| <= |s|
    decreases |s|
  {
    var d := Digit(0x30, s);
    if d.Match? then Digits(d.rest) else s
  }

  function SomeDigits(s: Text): (r: Outcome<()>)
    ensures Shorter(r, s) && !r.Throw?
  {
    var d := Digit(0x30, s);
    if d.Match? then Match((), Digits(d.rest)) else NoMatch
  }

  function Optional(o: Outcome<()>, s: Text): Text {
    if o.Match? then o.rest else s
  }

  function Fraction(s: Text): (r: Text)
    ensures |r| <= |s|
  {
    var dot := Char(0x2E, s);
    if dot.Match? then Optional(SomeDigits(dot.rest), s) else s
  }

  function Exponent(s: Text): (r: Text)
    ensures |r| <= |s|
  {
    var s1 := Optional(Char(0x65, s), Optional(Char(0x45, s), s));
    if |s1| == |s| then s else
      var s2 := Optional(Char(0x2D, s1), Optional(Char(0x2B, s1), s1));
      Optional(SomeDigits(s2), s)
  }

  function Number(s: Text): (r: Outcome<()>)
    ensures Shorter(r, s) && !r.Throw?
  {
    var s1 := Optional(Char(0x2D, s), s);
    var zero, digit := Char(0x30, s1), Digit(0x31, s1);
    if zero.Match? then Match((), Exponent(Fraction(zero.rest)))
    else if digit.Match? then Match((), Exponent(Fraction(Digits(digit.rest))))
    else NoMatch
  }

  const TRUE_TEXT: Text := [0x74, 0x72, 0x75, 0x65]
  const FALSE_TEXT: Text := [0x66, 0x61, 0x6C, 0x73, 0x65]
  const NULL_TEXT: Text := [0x6E, 0x75, 0x6C, 0x6C]

  /** str_p. */
  function Word(w: Text, s: Text): (r: Outcome<()>)
    requires w != []
    ensures Shorter(r, s) && !r.Throw?
  {
    var s1 := Skip(s);
    if w <= s1 then Match((), s1[|w|..]) else NoMatch
  }

  /** number | "true" | "false" | "null", with the text it covers. */
  function Literal(s: Text): (r: Outcome<Text>)
    ensures Shorter(r, s) && !r.Throw?
  {
    var s1 := Skip(s);
    var o := if Number(s1).Match? then Number(s1)
             else if Word(TRUE_TEXT, s1).Match? then Word(TRUE_TEXT, s1)
             else if Word(FALSE_TEXT, s1).Match? then Word(FALSE_TEXT, s1)
             else Word(NULL_TEXT, s1);
    if o.Match? then Match(s1[..|s1| - |o.rest|], o.rest) else NoMatch
  }

  // ----- Values

  function Value(s: Text): (r: Outcome<Tree>)
    ensures Shorter(r, s)
    decreases |s|, 2
  {
    match Strings(s)
    case Throw => Throw
    case Match(t, rest) => Match(Leaf(t), rest)
    case NoMatch =>
      var literal := Literal(s);
      if literal.Match? then Match(Leaf(literal.value), literal.rest) else ObjectOrArray(s)
  }

  function ObjectOrArray(s: Text): (r: Outcome<Tree>)
    ensures Shorter(r, s)
    decreases |s|, 1
  {
    var brace, bracket := Char(OPEN_BRACE, s), Char(OPEN_BRACKET, s);
    if brace.Match? then Node(Children(true, brace.rest))
    else if bracket.Match? then Node(Children(false, bracket.rest))
    else NoMatch
  }

  function Node(o: Outcome<Forest>): Outcome<Tree> {
    match o
    case Match(f, rest) => Match(Tree([], f), rest)
    case NoMatch => NoMatch
    case Throw => Throw
  }

  function Closer(named: bool): Byte {
    if named then CLOSE_BRACE else CLOSE_BRACKET
  }

  /** What follows the opening bracket: members when `named`, items when not. */
  function Children(named: bool, s: Text): (r: Outcome<Forest>)
    ensures Shorter(r, s) && !r.NoMatch?
    decreases |s|, 4
  {
    var close := Char(Closer(named), s);
    if close.Match? then Match(Nil, close.rest) else List(named, s)
  }

  /** expect_name(string) >> expect_colon(':'), for members only. */
  function Name(named: bool, s: Text): (r: Outcome<Text>)
    ensures !r.NoMatch? && (r.Match? ==> |r.rest| <= |s|)
  {
    if !named then Match([], s) else
      var name := Strings(s);
      if !name.Match? then Throw else
        var colon := Char(COLON, name.rest);
        if colon.Match? then Match(name.value, colon.rest) else Throw
  }

  /** A list and its closing bracket. */
  function List(named: bool, s: Text): (r: Outcome<Forest>)
    ensures Shorter(r, s) && !r.NoMatch?
    decreases |s|, 3
  {
    var name := Name(named, s);
    if name.Throw? then Throw else
      var value := Value(name.rest);
      if !value.Match? then Throw else
        var comma, close := Char(COMMA, value.rest), Char(Closer(named), value.rest);
        if comma.Match? then
          var others := List(named, comma.rest);
          if others.Match? then Match(Cons(name.value, value.value, others.value), others.rest) else Throw
        else if close.Match? then Match(Cons(name.value, value.value, Nil), close.rest)
        else Throw
  }

  /** The root rule: an object or array, and nothing but white space after it. */
  function Read(text: Text): Outcome<Tree> {
    var root := ObjectOrArray(text);
    if root.Match? && Skip(root.rest) == [] then Match(root.value, []) else Throw
  }
}
