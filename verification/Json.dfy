/** Property trees over byte strings. */
module Json {
  import opened Bytes

  type Text = seq<Byte>

  /** A node: its data and its children in order.  Keys may repeat. */
  datatype Tree = Tree(data: Text, children: Forest)
  datatype Forest = Nil | Cons(key: Text, child: Tree, rest: Forest)
  {
    function PushBack(key: Text, child: Tree): Forest {
      match this
      case Nil => Cons(key, child, Nil)
      case Cons(k, c, rest) => Cons(k, c, rest.PushBack(key, child))
    }

    function Size(): nat {
      if Nil? then 0 else 1 + rest.Size()
    }

    /** count: how many children have the given key. */
    function Count(key: Text): nat {
      if Nil? then 0 else (if this.key == key then 1 else 0) + rest.Count(key)
    }
  }

  function Leaf(data: Text): Tree {
    Tree(data, Nil)
  }

  /** What can be written: no node has both data and children. */
  predicate OneOrTheOther(t: Tree) {
    (t.data == [] || t.children.Nil?) && AllOneOrTheOther(t.children)
  }

  predicate AllOneOrTheOther(f: Forest) {
    f.Nil? || (OneOrTheOther(f.child) && AllOneOrTheOther(f.rest))
  }

  const QUOTE: Byte := 0x22
  const COMMA: Byte := 0x2C
  const SLASH: Byte := 0x2F
  const COLON: Byte := 0x3A
  const OPEN_BRACKET: Byte := 0x5B
  const BACKSLASH: Byte := 0x5C
  const CLOSE_BRACKET: Byte := 0x5D
  const OPEN_BRACE: Byte := 0x7B
  const CLOSE_BRACE: Byte := 0x7D
  const SPACE: Byte := 0x20
  const BACKSPACE: Byte := 0x08
  const NEWLINE: Byte := 0x0A
  const FORM_FEED: Byte := 0x0C
  const RETURN: Byte := 0x0D
}
