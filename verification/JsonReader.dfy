/** json_parser_read.hpp: the semantic actions and the parse that drives them.

    The context owns the tree; the pointers of its stack are paths from the root.
    Children are only appended, so a path keeps naming the same node.
  */
module JsonReader {
  import opened Json
  import opened JsonGrammar

  type Path = seq<nat>

  function ChildAt(f: Forest, i: nat): Tree
    requires i < f.Size()
  {
    if i == 0 then f.child else ChildAt(f.rest, i - 1)
  }

  function SetChild(f: Forest, i: nat, t: Tree): (g: Forest)
    requires i < f.Size()
    ensures g.Size() == f.Size()
  {
    if i == 0 then Cons(f.key, t, f.rest) else Cons(f.key, f.child, SetChild(f.rest, i - 1, t))
  }

  predicate IsPath(t: Tree, p: Path)
    decreases |p|
  {
    p == [] || (p[0] < t.children.Size() && IsPath(ChildAt(t.children, p[0]), p[1..]))
  }

  function NodeAt(t: Tree, p: Path): Tree
    requires IsPath(t, p)
    decreases |p|
  {
    if p == [] then t else NodeAt(ChildAt(t.children, p[0]), p[1..])
  }

  /** push_back on the node that p points to. */
  function PushAt(t: Tree, p: Path, key: Text, child: Tree): Tree
    requires IsPath(t, p)
    decreases |p|
  {
    if p == [] then Tree(t.data, t.children.PushBack(key, child))
    else Tree(t.data, SetChild(t.children, p[0], PushAt(ChildAt(t.children, p[0]), p[1..], key, child)))
  }

  function Append(f: Forest, g: Forest): Forest
    decreases g
  {
    if g.Nil? then f else Append(f.PushBack(g.key, g.child), g.rest)
  }

  // ----- Facts about paths

  lemma {:induction false} PushBackAt(f: Forest, key: Text, t: Tree)
    ensures f.PushBack(key, t).Size() == f.Size() + 1
    ensures ChildAt(f.PushBack(key, t), f.Size()) == t
    ensures forall u :: SetChild(f.PushBack(key, t), f.Size(), u) == f.PushBack(key, u)
  {
    if f.Cons? { PushBackAt(f.rest, key, t); }
  }

  lemma {:induction false} PushBackKeeps(f: Forest, key: Text, t: Tree, i: nat)
    requires i < f.Size()
    ensures f.PushBack(key, t).Size() == f.Size() + 1
    ensures ChildAt(f.PushBack(key, t), i) == ChildAt(f, i)
  {
    if i > 0 { PushBackKeeps(f.rest, key, t, i - 1); }
    if f.rest.Nil? { } else { PushBackAt(f.rest, key, t); }
  }

  lemma {:induction false} SetThenGet(f: Forest, i: nat, t: Tree, u: Tree)
    requires i < f.Size()
    ensures ChildAt(SetChild(f, i, t), i) == t
    ensures SetChild(SetChild(f, i, t), i, u) == SetChild(f, i, u)
  {
    if i > 0 { SetThenGet(f.rest, i - 1, t, u); }
  }

  /** The node of a path that has just been pushed. */
  function NewPath(t: Tree, p: Path): Path
    requires IsPath(t, p)
  {
    p + [NodeAt(t, p).children.Size()]
  }

  /** A pointer to a pushed child is valid, and pushing through it changes that child. */
  lemma {:induction false} PushedChild(t: Tree, p: Path, key: Text, child: Tree, key': Text, child': Tree)
    requires IsPath(t, p)
    ensures var t1, q := PushAt(t, p, key, child), NewPath(t, p);
      && IsPath(t1, p) && IsPath(t1, q)
      && PushAt(t1, q, key', child')
         == PushAt(t, p, key, Tree(child.data, child.children.PushBack(key', child')))
    decreases |p|
  {
    var t1, q := PushAt(t, p, key, child), NewPath(t, p);
    if p == [] {
      PushBackAt(t.children, key, child);
      assert q[1..] == [];
    } else {
      var i := p[0];
      var sub := ChildAt(t.children, i);
      PushedChild(sub, p[1..], key, child, key', child');
      SetThenGet(t.children, i, PushAt(sub, p[1..], key, child),
                 PushAt(PushAt(sub, p[1..], key, child), NewPath(sub, p[1..]), key', child'));
      assert q[0] == i && q[1..] == NewPath(sub, p[1..]);
    }
  }

  lemma {:induction false} PathStays(t: Tree, p: Path, key: Text, child: Tree)
    requires IsPath(t, p)
    ensures IsPath(PushAt(t, p, key, child), p)
  {
    PushedChild(t, p, key, child, [], child);
  }

  /** push_back of several children, in order. */
  function PushAll(t: Tree, p: Path, f: Forest): Tree
    requires IsPath(t, p)
    decreases f
  {
    if f.Nil? then t else
      PathStays(t, p, f.key, f.child);
      PushAll(PushAt(t, p, f.key, f.child), p, f.rest)
  }

  lemma {:induction false} PushOne(t: Tree, p: Path, key: Text, child: Tree)
    requires IsPath(t, p)
    ensures PushAll(t, p, Cons(key, child, Nil)) == PushAt(t, p, key, child)
  {
    hide PushAt, IsPath;
    PathStays(t, p, key, child);
    assert PushAll(PushAt(t, p, key, child), p, Nil) == PushAt(t, p, key, child);
  }

  /** Filling a node after it was pushed is pushing the filled node. */
  lemma {:induction false} PushFilled(t: Tree, p: Path, key: Text, g: Forest, f: Forest)
    requires IsPath(t, p)
    ensures IsPath(PushAt(t, p, key, Tree([], g)), NewPath(t, p))
    ensures PushAll(PushAt(t, p, key, Tree([], g)), NewPath(t, p), f) == PushAt(t, p, key, Tree([], Append(g, f)))
    decreases f
  {
    hide IsPath, PushAt, NewPath;
    if f.Cons? {
      PushedChild(t, p, key, Tree([], g), f.key, f.child);
      PushFilled(t, p, key, g.PushBack(f.key, f.child), f.rest);
    } else {
      PushedChild(t, p, key, Tree([], g), [], Leaf([]));
    }
  }

  lemma {:induction false} PushRoot(g: Forest, f: Forest)
    ensures PushAll(Tree([], g), [], f) == Tree([], Append(g, f))
    decreases f
  {
    if f.Cons? { PushRoot(g.PushBack(f.key, f.child), f.rest); }
  }

  function Concat(f: Forest, g: Forest): Forest {
    if f.Nil? then g else Cons(f.key, f.child, Concat(f.rest, g))
  }

  lemma {:induction false} AppendIsConcat(f: Forest, g: Forest)
    ensures Append(f, g) == Concat(f, g)
    decreases g
  {
    if g.Nil? {
      ConcatNil(f);
    } else {
      AppendIsConcat(f.PushBack(g.key, g.child), g.rest);
      PushBackConcat(f, g.key, g.child, g.rest);
    }
  }

  lemma ConcatNil(f: Forest)
    ensures Concat(f, Nil) == f
  {
  }

  lemma {:induction false} PushBackConcat(f: Forest, key: Text, child: Tree, g: Forest)
    ensures Concat(f.PushBack(key, child), g) == Concat(f, Cons(key, child, g))
  {
    if f.Cons? { PushBackConcat(f.rest, key, child, g); }
  }

  // ----- Outcomes of the parse

  /** The parse and the rule agree on whether there is a match, and on the rest. */
  predicate Agree<T>(o: Outcome<()>, r: Outcome<T>) {
    match r
    case Match(_, rest) => o == Match((), rest)
    case NoMatch => o == NoMatch
    case Throw => o == Throw
  }

  /** A quoted string comes next. */
  predicate QuoteNext(s: Text) {
    var s1 := Skip(s);
    s1 != [] && s1[0] == QUOTE
  }

  lemma PrependTwice(t: Text, u: Text, o: Outcome<Text>)
    ensures Prepend(t, Prepend(u, o)) == Prepend(t + u, o)
    ensures Prepend([], o) == o
  {
    if o.Match? {
      assert t + (u + o.value) == t + u + o.value;
      assert [] + o.value == o.value;
    }
  }

  class Context {
    var str: Text
    var name: Text
    var root: Tree
    var stack: seq<Path>

    constructor ()
      ensures str == [] && name == [] && root == Tree([], Nil) && stack == []
    {
      str, name, root, stack := [], [], Tree([], Nil), [];
    }

    ghost predicate TopIsNode()
      reads this
    {
      stack != [] && IsPath(root, Top())
    }

    function Top(): Path
      reads this
      requires stack != []
    {
      stack[|stack| - 1]
    }

    // ----- The actions

    method ObjectStart()
      requires stack != [] ==> TopIsNode()
      modifies this
      ensures str == old(str)
      ensures old(stack) == [] ==> stack == [[]] && root == old(root) && name == old(name)
      ensures old(stack) != [] ==>
        && stack == old(stack) + [NewPath(old(root), old(Top()))]
        && root == PushAt(old(root), old(Top()), old(name), Tree([], Nil))
        && name == []
    {
      if stack == [] {
        stack := [[]];
      } else {
        var parent := Top();
        var child := NewPath(root, parent);
        root := PushAt(root, parent, name, Tree([], Nil));
        stack := stack + [child];
        name := [];
      }
    }

    method ObjectEnd()
      requires |stack| >= 1
      modifies this`stack
      ensures stack == old(stack)[..|old(stack)| - 1]
    {
      stack := stack[..|stack| - 1];
    }

    method NameEnd()
      modifies this`name, this`str
      ensures name == old(str) && str == []
    {
      name, str := str, name;
      str := [];
    }

    /** a_string_val and a_literal_val. */
    method LeafValue(data: Text)
      requires TopIsNode()
      modifies this
      ensures root == PushAt(old(root), old(Top()), old(name), Leaf(data))
      ensures name == [] && str == [] && stack == old(stack)
    {
      root := PushAt(root, Top(), name, Leaf(data));
      name := [];
      str := [];
    }

    method AddText(t: Text)
      modifies this`str
      ensures str == old(str) + t
    {
      str := str + t;
    }

    // ----- The rules

    /** The escape rule, whose two alternatives run a_escape or a_unicode. */
    method ParseEscape(s: Text) returns (o: Outcome<()>)
      modifies this`str
      ensures Agree(o, Escape(s))
      ensures o.Match? ==> str == old(str) + Escape(s).value
    {
      if s == [] {
        return Throw;
      }
      if EscapedChar(s[0]) != [] {
        AddText(EscapedChar(s[0]));
        return Match((), s[1..]);
      }
      if s[0] == 0x75 {
        var u := FourHex(s[1..]);
        if u.Match? {
          AddText(Utf8(u.value));
          return Match((), u.rest);
        }
      }
      return Throw;
    }

    method ParseQuoted(s: Text) returns (o: Outcome<()>)
      modifies this`str
      ensures Agree(o, Quoted(s))
      ensures o.Match? ==> str == old(str) + Quoted(s).value
      ensures o.NoMatch? && !QuoteNext(s) ==> str == old(str)
    {
      hide Skip, Escape;
      var s1 := Skip(s);
      if s1 == [] || s1[0] != QUOTE {
        return NoMatch;
      }
      var r := s1[1..];
      ghost var t: Text := [];
      PrependTwice([], [], Characters(r));
      while r != [] && r[0] != QUOTE
        invariant |r| < |s1| && str == old(str) + t
        invariant Characters(s1[1..]) == Prepend(t, Characters(r))
        decreases |r|
      {
        var r0 := r;
        ghost var before := str;
        if r[0] == BACKSLASH {
          var e := ParseEscape(r[1..]);
          if e.Throw? {
            return Throw;
          }
          r := e.rest;
        } else {
          AddText([r[0]]);
          r := r[1..];
        }
        ghost var u := str[|before|..];
        PrependTwice(t, u, Characters(r));
        t := t + u;
      }
      if r == [] {
        return NoMatch;
      }
      assert t + [] == t;
      return Match((), r[1..]);
    }

    /** One or more quoted strings.  A further one that is not closed leaves its characters
        in `str`; nothing but a quote can then come next, so that the parse fails. */
    method ParseStrings(s: Text) returns (o: Outcome<()>)
      modifies this`str
      ensures Agree(o, Strings(s))
      ensures o.Match? ==> QuoteNext(o.rest) || str == old(str) + Strings(s).value
      ensures o.NoMatch? && !QuoteNext(s) ==> str == old(str)
    {
      hide Skip, Quoted, QuoteNext;
      o := ParseQuoted(s);
      if !o.Match? {
        return;
      }
      var r := o.rest;
      ghost var t := Quoted(s).value;
      while true
        invariant str == old(str) + t && |r| < |s| && Quoted(s).Match?
        invariant Strings(s) == Prepend(t, MoreStrings(r))
        decreases |r|
      {
        var n := ParseQuoted(r);
        if n.Throw? {
          return Throw;
        }
        if n.NoMatch? {
          assert t + [] == t;
          return Match((), r);
        }
        ghost var u := Quoted(r).value;
        PrependTwice(t, u, MoreStrings(n.rest));
        assert old(str) + t + u == old(str) + (t + u);
        t := t + u;
        r := n.rest;
      }
    }

    /** The rule `value`: a leaf is pushed under the current name, an object or array is
        filled in place. */
    method ParseValue(s: Text) returns (o: Outcome<()>)
      requires TopIsNode() && str == []
      modifies this
      ensures Agree(o, Value(s))
      ensures o.Match? ==> stack == old(stack)
      ensures o.Match? && !QuoteNext(o.rest) ==>
        root == PushAt(old(root), old(Top()), old(name), Value(s).value) && name == [] && str == []
      decreases |s|, 2
    {
      hide Skip, Strings, Literal, PushAt, IsPath;
      o := ParseStrings(s);
      if o.Throw? {
        return;
      }
      if o.Match? {
        assert [] + Strings(s).value == Strings(s).value;
        LeafValue(str);
        return;
      }
      var literal := Literal(s);
      if literal.Match? {
        LeafValue(literal.value);
        return Match((), literal.rest);
      }
      o := ParseNode(s);
    }

    /** The rules `object` and `array`. */
    method ParseNode(s: Text) returns (o: Outcome<()>)
      requires QuoteNext(s) || str == []
      requires if stack == [] then root == Tree([], Nil) && name == [] else TopIsNode()
      modifies this
      ensures Agree(o, ObjectOrArray(s))
      ensures o.Match? ==> stack == old(stack) && name == [] && str == []
      ensures o.Match? ==> root == if old(stack) == [] then ObjectOrArray(s).value
        else PushAt(old(root), old(Top()), old(name), ObjectOrArray(s).value)
      decreases |s|, 1
    {
      hide Skip, PushAt, IsPath, PushAll, Children, NewPath, Append;
      var brace, bracket := Char(OPEN_BRACE, s), Char(OPEN_BRACKET, s);
      if !brace.Match? && !bracket.Match? {
        return NoMatch;
      }
      NotBoth(s);
      var named := brace.Match?;
      var inside := if named then brace.rest else bracket.rest;
      ghost var f := Children(named, inside);
      if f.Match? {
        if stack == [] {
          PushRoot(Nil, f.value);
        } else {
          PushFilled(root, Top(), name, Nil, f.value);
        }
        AppendIsConcat(Nil, f.value);
      }
      StartPath(root, stack, name);
      ObjectStart();
      o := ParseChildren(named, inside);
    }

    /** Up to and including the closing bracket, which pops the stack. */
    method ParseChildren(named: bool, s: Text) returns (o: Outcome<()>)
      requires TopIsNode() && str == [] && name == []
      modifies this
      ensures Agree(o, Children(named, s))
      ensures o.Match? ==> stack == old(stack)[..|old(stack)| - 1] && name == [] && str == []
      ensures o.Match? ==> root == PushAll(old(root), old(Top()), Children(named, s).value)
      decreases |s|, 4
    {
      hide Skip, PushAt, IsPath, List;
      var close := Char(Closer(named), s);
      if close.Match? {
        ObjectEnd();
        return Match((), close.rest);
      }
      o := ParseList(named, s);
    }

    method ParseList(named: bool, s: Text) returns (o: Outcome<()>)
      requires TopIsNode() && str == [] && name == []
      modifies this
      ensures Agree(o, List(named, s))
      ensures o.Match? ==> stack == old(stack)[..|old(stack)| - 1] && name == [] && str == []
      ensures o.Match? ==> root == PushAll(old(root), old(Top()), List(named, s).value)
      decreases |s|, 3
    {
      hide Skip, Strings, Value, PushAt, IsPath;
      ghost var top, before := Top(), root;
      var r := s;
      if named {
        o := ParseStrings(s);
        if !o.Match? {
          return Throw;
        }
        var colon := Char(COLON, o.rest);
        if !colon.Match? {
          return Throw;
        }
        assert [] + Strings(s).value == Strings(s).value;
        NameEnd();
        r := colon.rest;
      }
      ghost var key := name;
      o := ParseValue(r);
      if !o.Match? {
        return Throw;
      }
      ghost var t := Value(r).value;
      var comma, close := Char(COMMA, o.rest), Char(Closer(named), o.rest);
      if comma.Match? {
        PathStays(before, top, key, t);
        o := ParseList(named, comma.rest);
        if !o.Match? {
          return Throw;
        }
      } else if close.Match? {
        PushOne(before, top, key, t);
        ObjectEnd();
        return Match((), close.rest);
      } else {
        return Throw;
      }
    }

    /** The root rule. */
    method ParseRoot(text: Text) returns (ok: bool)
      requires str == [] && name == [] && root == Tree([], Nil) && stack == []
      modifies this
      ensures ok <==> Read(text).Match?
      ensures ok ==> root == Read(text).value && stack == []
    {
      hide Skip, ObjectOrArray;
      var o := ParseNode(text);
      return o.Match? && Skip(o.rest) == [];
    }
  }

  lemma {:induction false} NotBoth(s: Text)
    ensures !(Char(OPEN_BRACE, s).Match? && Char(OPEN_BRACKET, s).Match?)
    ensures Char(OPEN_BRACE, s).Match? || Char(OPEN_BRACKET, s).Match? ==> !QuoteNext(s)
  {
    hide Skip;
  }

  lemma {:induction false} StartPath(root: Tree, stack: seq<Path>, name: Text)
    requires stack != [] ==> IsPath(root, stack[|stack| - 1])
    ensures IsPath(root, [])
    ensures stack != [] ==>
      var p := stack[|stack| - 1];
      IsPath(PushAt(root, p, name, Tree([], Nil)), NewPath(root, p))
  {
    hide PushAt, NewPath;
    if stack != [] {
      PushFilled(root, stack[|stack| - 1], name, Nil, Nil);
    }
  }

  /** read_json_internal: the tree, or an error when the text is not accepted. */
  method ReadJson(text: Text) returns (ok: bool, pt: Tree)
    ensures ok <==> Read(text).Match?
    ensures ok ==> pt == Read(text).value
  {
    var c := new Context();
    ok := c.ParseRoot(text);
    pt := c.root;
  }
}
