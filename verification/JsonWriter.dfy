/** json_parser_write.hpp, for byte characters. */
module JsonWriter {
  import opened Bytes
  import opened Json

  function HexDigit(d: nat): Byte
    requires d < 16
  {
    if d < 10 then 0x30 + d else 0x41 + (d - 10)
  }

  /** Whether create_escapes copies a byte as it is. */
  predicate Plain(b: Byte) {
    b == 0x20 || b == 0x21 || 0x23 <= b <= 0x2E || 0x30 <= b <= 0x5B || 0x5D <= b
  }

  /** One turn of the loop of create_escapes. */
  function EscapeByte(b: Byte): Text {
    if Plain(b) then [b]
    else if b == BACKSPACE then [BACKSLASH, 0x62]
    else if b == FORM_FEED then [BACKSLASH, 0x66]
    else if b == NEWLINE then [BACKSLASH, 0x6E]
    else if b == RETURN then [BACKSLASH, 0x72]
    else if b == SLASH then [BACKSLASH, SLASH]
    else if b == QUOTE then [BACKSLASH, QUOTE]
    else if b == BACKSLASH then [BACKSLASH, BACKSLASH]
    else
      var d1, u1 := b / 4096, b % 4096;
      var d2, u2 := u1 / 256, u1 % 256;
      var d3, d4 := u2 / 16, u2 % 16;
      [BACKSLASH, 0x75, HexDigit(d1), HexDigit(d2), HexDigit(d3), HexDigit(d4)]
  }

  function Escaped(s: Text): Text {
    if s == [] then [] else EscapeByte(s[0]) + Escaped(s[1..])
  }

  method CreateEscapes(s: Text) returns (result: Text)
    ensures result == Escaped(s)
  {
    hide EscapeByte;
    result := [];
    var i := 0;
    while i < |s|
      invariant 0 <= i <= |s| && Escaped(s) == result + Escaped(s[i..])
    {
      assert s[i..][1..] == s[i + 1..];
      assert result + (EscapeByte(s[i]) + Escaped(s[i + 1..]))
          == (result + EscapeByte(s[i])) + Escaped(s[i + 1..]);
      result := result + EscapeByte(s[i]);
      i := i + 1;
    }
  }

  function Spaces(n: nat): (s: Text)
    ensures |s| == n && forall i :: 0 <= i < n ==> s[i] == SPACE
  {
    seq(n, _ => SPACE)
  }

  function If(c: bool, s: Text): Text {
    if c then s else []
  }

  function Quote(s: Text): Text {
    [QUOTE] + Escaped(s) + [QUOTE]
  }

  /** What separates a key and its value in pretty output. */
  function AfterColon(child: Tree, indent: nat): Text {
    if child.children.Nil? then [SPACE] else [NEWLINE] + Spaces(4 * (indent + 1))
  }

  /** An array is a node whose children all have empty keys. */
  predicate IsArray(t: Tree) {
    t.children.Count([]) == t.children.Size()
  }

  /** The text of a node.  The root, at indent 0, is always an object.  The spaces before
      the closing bracket of an array are written in compact form too. */
  function Render(t: Tree, indent: nat, pretty: bool): Text
    decreases t, 1
  {
    if indent > 0 && t.children.Nil? then Quote(t.data)
    else if indent > 0 && IsArray(t) then
      [OPEN_BRACKET] + If(pretty, [NEWLINE]) + Items(t.children, indent, pretty)
      + Spaces(4 * indent) + [CLOSE_BRACKET]
    else
      [OPEN_BRACE] + If(pretty, [NEWLINE]) + Members(t.children, indent, pretty)
      + If(pretty, Spaces(4 * indent)) + [CLOSE_BRACE]
  }

  /** What follows a child before the children `rest`. */
  function Separator(rest: Forest, pretty: bool): Text {
    If(rest.Cons?, [COMMA]) + If(pretty, [NEWLINE])
  }

  /** The text of an item up to the next one. */
  function Item(f: Forest, indent: nat, pretty: bool): Text
    requires f.Cons?
    decreases f, 2
  {
    If(pretty, Spaces(4 * (indent + 1))) + Render(f.child, indent + 1, pretty)
    + Separator(f.rest, pretty)
  }

  function Items(f: Forest, indent: nat, pretty: bool): Text
    decreases f, 3
  {
    if f.Nil? then [] else Item(f, indent, pretty) + Items(f.rest, indent, pretty)
  }

  function KeyPart(f: Forest, indent: nat, pretty: bool): Text
    requires f.Cons?
  {
    If(pretty, Spaces(4 * (indent + 1))) + Quote(f.key) + [COLON] + If(pretty, AfterColon(f.child, indent))
  }

  function Member(f: Forest, indent: nat, pretty: bool): Text
    requires f.Cons?
    decreases f, 2
  {
    KeyPart(f, indent, pretty) + Render(f.child, indent + 1, pretty)
    + Separator(f.rest, pretty)
  }

  function Members(f: Forest, indent: nat, pretty: bool): Text
    decreases f, 3
  {
    if f.Nil? then [] else Member(f, indent, pretty) + Members(f.rest, indent, pretty)
  }

  lemma ConcatAssociative(r: Text, s: Text, t: Text)
    ensures r + (s + t) == (r + s) + t
  {
  }

  /** write_json_helper appends the text of a node to the stream. */
  method WriteJsonHelper(stream: Text, t: Tree, indent: nat, pretty: bool) returns (out: Text)
    ensures out == stream + Render(t, indent, pretty)
    decreases t, 1
  {
    hide Escaped, Items, Members, Spaces;
    if indent > 0 && t.children.Nil? {
      var data := CreateEscapes(t.data);
      out := stream + [QUOTE] + data + [QUOTE];
    } else if indent > 0 && t.children.Count([]) == t.children.Size() {
      out := stream + [OPEN_BRACKET];
      if pretty { out := out + [NEWLINE]; }
      out := WriteItems(out, t.children, indent, pretty);
      out := out + Spaces(4 * indent) + [CLOSE_BRACKET];
    } else {
      out := stream + [OPEN_BRACE];
      if pretty { out := out + [NEWLINE]; }
      out := WriteMembers(out, t.children, indent, pretty);
      if pretty { out := out + Spaces(4 * indent); }
      out := out + [CLOSE_BRACE];
    }
  }

  method WriteSeparator(stream: Text, rest: Forest, pretty: bool) returns (out: Text)
    ensures out == stream + Separator(rest, pretty)
  {
    out := stream;
    if rest.Cons? { out := out + [COMMA]; }
    if pretty { out := out + [NEWLINE]; }
  }

  /** The loop of the array branch. */
  method WriteItems(stream: Text, f: Forest, indent: nat, pretty: bool) returns (out: Text)
    ensures out == stream + Items(f, indent, pretty)
    decreases f, 2
  {
    hide Render, Spaces, Escaped, Separator;
    out := stream;
    var it := f;
    while it.Cons?
      invariant (it == f || it < f) && stream + Items(f, indent, pretty) == out + Items(it, indent, pretty)
      decreases it
    {
      ConcatAssociative(out, Item(it, indent, pretty), Items(it.rest, indent, pretty));
      ghost var start := out;
      if pretty { out := out + Spaces(4 * (indent + 1)); }
      out := WriteJsonHelper(out, it.child, indent + 1, pretty);
      out := WriteSeparator(out, it.rest, pretty);
      assert out == start + Item(it, indent, pretty);
      it := it.rest;
    }
  }

  /** The key of a member and what follows it. */
  method WriteKey(stream: Text, f: Forest, indent: nat, pretty: bool) returns (out: Text)
    requires f.Cons?
    ensures out == stream + KeyPart(f, indent, pretty)
  {
    hide Spaces, Escaped;
    out := stream;
    if pretty { out := out + Spaces(4 * (indent + 1)); }
    var key := CreateEscapes(f.key);
    out := out + [QUOTE] + key + [QUOTE] + [COLON];
    if pretty {
      if f.child.children.Nil? {
        out := out + [SPACE];
      } else {
        out := out + [NEWLINE] + Spaces(4 * (indent + 1));
      }
    }
  }

  /** The loop of the object branch. */
  method WriteMembers(stream: Text, f: Forest, indent: nat, pretty: bool) returns (out: Text)
    ensures out == stream + Members(f, indent, pretty)
    decreases f, 2
  {
    hide Render, Spaces, Escaped, KeyPart, Separator;
    out := stream;
    var it := f;
    while it.Cons?
      invariant (it == f || it < f) && stream + Members(f, indent, pretty) == out + Members(it, indent, pretty)
      decreases it
    {
      ConcatAssociative(out, Member(it, indent, pretty), Members(it.rest, indent, pretty));
      ghost var start := out;
      out := WriteKey(out, it, indent, pretty);
      out := WriteJsonHelper(out, it.child, indent + 1, pretty);
      out := WriteSeparator(out, it.rest, pretty);
      assert out == start + Member(it, indent, pretty);
      it := it.rest;
    }
  }

  /** verify_json, with its early returns. */
  predicate VerifyJson(t: Tree, depth: nat)
    decreases t, 1
  {
    if depth == 0 && t.data != [] then false
    else if t.data != [] && !t.children.Nil? then false
    else VerifyChildren(t.children, depth)
  }

  predicate VerifyChildren(f: Forest, depth: nat)
    decreases f, 0
  {
    f.Nil? || (VerifyJson(f.child, depth + 1) && VerifyChildren(f.rest, depth))
  }

  lemma {:induction false} VerifyMeans(t: Tree, depth: nat)
    ensures VerifyJson(t, depth) <==> OneOrTheOther(t) && (depth == 0 ==> t.data == [])
    decreases t, 1
  {
    VerifyChildrenMeans(t.children, depth);
  }

  lemma {:induction false} VerifyChildrenMeans(f: Forest, depth: nat)
    ensures VerifyChildren(f, depth) <==> AllOneOrTheOther(f)
    decreases f, 0
  {
    if f.Cons? {
      VerifyMeans(f.child, depth + 1);
      VerifyChildrenMeans(f.rest, depth);
    }
  }

  datatype Result = Ok(text: Text) | Unwritable

  /** write_json_internal; std::endl is the newline. */
  method WriteJson(t: Tree, pretty: bool) returns (r: Result)
    ensures r == if VerifyJson(t, 0) then Ok(Render(t, 0, pretty) + [NEWLINE]) else Unwritable
  {
    if !VerifyJson(t, 0) {
      return Unwritable;
    }
    var stream := WriteJsonHelper([], t, 0, pretty);
    return Ok(stream + [NEWLINE]);
  }
}
