/** basic_functions.hpp for 32-bit words: rotations built from two shifts.

    The words the cyphers handle are boxed, so that reasoning about blocks, schedules
    and loops never has to look at bits: it uses the laws proved here.
  */
module BasicFunctions32 {
  /** The amounts the shifts are defined for: a shift by the full width is not. */
  type Amount = n: bv6 | 1 <= n < 32 witness 1

  datatype Word = Word(bits: bv32)

  function Plus(x: Word, y: Word): Word { Word(Add(x.bits, y.bits)) }

  function Minus(x: Word, y: Word): Word { Word(Sub(x.bits, y.bits)) }

  function Xor(x: Word, y: Word): Word { Word(Xor32(x.bits, y.bits)) }

  /** hh of MD4 and MD5, parity of SHA. */
  function Parity(x: Word, y: Word, z: Word): Word { Xor(Xor(x, y), z) }

  function Rotl(x: Word, n: Amount): Word { Word(Rotl32(x.bits, n)) }

  function Rotr(x: Word, n: Amount): Word { Word(Rotr32(x.bits, n)) }

  function And(x: Word, y: Word): Word { Word(x.bits & y.bits) }

  function Or(x: Word, y: Word): Word { Word(x.bits | y.bits) }

  function Not(x: Word): Word { Word(!x.bits) }

  function Shl(x: Word, n: Amount): Word { Word(x.bits << n) }

  function Shr(x: Word, n: Amount): Word { Word(Shr32(x.bits, n)) }

  function Add(x: bv32, y: bv32): bv32 { x + y }

  function Sub(x: bv32, y: bv32): bv32 { x - y }

  function Xor32(x: bv32, y: bv32): bv32 { x ^ y }

  function Shr32(x: bv32, n: Amount): bv32 { x >> n }

  function Rotl32(x: bv32, n: Amount): bv32 {
    (x << n) | (x >> (32 - n))
  }

  function Rotr32(x: bv32, n: Amount): bv32 {
    (x >> n) | (x << (32 - n))
  }

  lemma {:induction false} AddSub(x: Word, y: Word)
    ensures Minus(Plus(x, y), y) == x && Plus(Minus(x, y), y) == x
  {
    AddSub32(x.bits, y.bits);
    hide Add, Sub;
  }

  lemma {:induction false} XorLaws(x: Word, y: Word, z: Word)
    ensures Xor(x, y) == Xor(y, x)
    ensures Xor(Xor(x, y), y) == x
    ensures Xor(Xor(x, y), z) == Xor(Xor(x, z), y)
    ensures Xor(Word(0), y) == y
  {
    XorLaws32(x.bits, y.bits, z.bits);
    hide Xor32;
  }

  lemma {:induction false} RotateBack(x: Word, n: Amount)
    ensures Rotr(Rotl(x, n), n) == x && Rotl(Rotr(x, n), n) == x
  {
    RotrRotl(x.bits, n);
    RotlRotr(x.bits, n);
    hide Rotl32, Rotr32;
  }

  lemma {:induction false} PlusAssociates(x: Word, y: Word, z: Word)
    ensures Plus(Plus(x, y), z) == Plus(x, Plus(y, z))
  {
    Associates32(x.bits, y.bits, z.bits);
    hide Add;
  }

  lemma {:induction false} Associates32(x: bv32, y: bv32, z: bv32)
    ensures Add(Add(x, y), z) == Add(x, Add(y, z))
  {
    hide Add;
    AddIs32(x, y);
    AddIs32(y, z);
    SumRegrouped32(x, y, z);
  }

  lemma SumRegrouped32(x: bv32, y: bv32, z: bv32)
    ensures Add(x + y, z) == Add(x, y + z)
  {
  }

  /** Four summands taken away in the order they were added. */
  lemma {:induction false} TakenBack(a: Word, p: Word, q: Word, r: Word, s: Word)
    ensures Minus(Minus(Minus(Minus(Plus(Plus(Plus(Plus(a, p), q), r), s), p), q), r), s) == a
  {
    hide Plus, Minus;
    SubMoves(Plus(Plus(Plus(a, p), q), r), s, p);
    SubMoves(Plus(Plus(a, p), q), r, p);
    SubMoves(Plus(a, p), q, p);
    AddSub(a, p);
    SubMoves(Plus(Plus(a, q), r), s, q);
    SubMoves(Plus(a, q), r, q);
    AddSub(a, q);
    SubMoves(Plus(a, r), s, r);
    AddSub(a, r);
    AddSub(a, s);
  }

  lemma {:induction false} Restored(a: Word, p: Word, q: Word, r: Word, s: Word)
    ensures Plus(Plus(Plus(Plus(Minus(Minus(Minus(Minus(a, p), q), r), s), p), q), r), s) == a
  {
    hide Plus, Minus;
    SubMoves(Minus(Minus(Minus(a, p), q), r), p, s);
    SubMoves(Minus(Minus(a, p), q), p, r);
    SubMoves(Minus(a, p), p, q);
    AddSub(a, p);
    SubMoves(Minus(Minus(a, q), r), q, s);
    SubMoves(Minus(a, q), q, r);
    AddSub(a, q);
    SubMoves(Minus(a, r), r, s);
    AddSub(a, r);
    AddSub(a, s);
  }

  lemma PlusCommutes(x: Word, y: Word)
    ensures Plus(x, y) == Plus(y, x)
  {
  }

  lemma {:induction false} SubMoves(x: Word, y: Word, z: Word)
    ensures Minus(Plus(x, y), z) == Plus(Minus(x, z), y)
  {
    SubMoves32(x.bits, y.bits, z.bits);
    hide Add, Sub;
  }

  lemma {:induction false} SubMoves32(x: bv32, y: bv32, z: bv32)
    ensures Sub(Add(x, y), z) == Add(Sub(x, z), y)
  {
    hide Add, Sub;
    AddIs32(x, y);
    AddIs32(x, z);
    SumMoved32(x, y, z);
  }

  lemma SumMoved32(x: bv32, y: bv32, z: bv32)
    ensures Sub(x + y, z) == Add(x - z, y)
  {
  }

  // Written with the operators the solver simplifies these laws away; the functions follow
  // by substitution.

  lemma AddIs32(x: bv32, y: bv32)
    ensures Add(x, y) == x + y && Sub(x, y) == x - y
  {
  }

  lemma SubOfSum32(x: bv32, y: bv32)
    ensures Sub(x + y, y) == x
  {
  }

  lemma SumOfSub32(x: bv32, y: bv32)
    ensures Add(x - y, y) == x
  {
  }

  lemma {:induction false} AddSub32(x: bv32, y: bv32)
    ensures Sub(Add(x, y), y) == x && Add(Sub(x, y), y) == x
  {
    hide Add, Sub;
    AddIs32(x, y);
    SubOfSum32(x, y);
    SumOfSub32(x, y);
  }

  lemma XorLaws32(x: bv32, y: bv32, z: bv32)
    ensures Xor32(x, y) == Xor32(y, x)
    ensures Xor32(Xor32(x, y), y) == x
    ensures Xor32(Xor32(x, y), z) == Xor32(Xor32(x, z), y)
    ensures Xor32(0, y) == y
  {
  }

  lemma {:induction false} RotlRotr(x: bv32, n: Amount)
    ensures Rotl32(Rotr32(x, n), n) == x
  {
    Complement(x, n);
    Complement(Rotr32(x, n), n);
    hide Rotl32, Rotr32;
    RotrRotl(x, 32 - n);
  }

  lemma Complement(x: bv32, n: Amount)
    ensures Rotl32(x, n) == Rotr32(x, 32 - n) && Rotr32(x, n) == Rotl32(x, 32 - n)
  {
  }

  /** With the amount known, shifting there and back is evident; there are 31 amounts. */
  lemma {:induction false} RotrRotl(x: bv32, n: Amount)
    ensures Rotr32(Rotl32(x, n), n) == x
  {
    if
    case n == 1 => assert Rotr32((x << 1) | (x >> 31), 1) == x;
    case n == 2 => assert Rotr32((x << 2) | (x >> 30), 2) == x;
    case n == 3 => assert Rotr32((x << 3) | (x >> 29), 3) == x;
    case n == 4 => assert Rotr32((x << 4) | (x >> 28), 4) == x;
    case n == 5 => assert Rotr32((x << 5) | (x >> 27), 5) == x;
    case n == 6 => assert Rotr32((x << 6) | (x >> 26), 6) == x;
    case n == 7 => assert Rotr32((x << 7) | (x >> 25), 7) == x;
    case n == 8 => assert Rotr32((x << 8) | (x >> 24), 8) == x;
    case n == 9 => assert Rotr32((x << 9) | (x >> 23), 9) == x;
    case n == 10 => assert Rotr32((x << 10) | (x >> 22), 10) == x;
    case n == 11 => assert Rotr32((x << 11) | (x >> 21), 11) == x;
    case n == 12 => assert Rotr32((x << 12) | (x >> 20), 12) == x;
    case n == 13 => assert Rotr32((x << 13) | (x >> 19), 13) == x;
    case n == 14 => assert Rotr32((x << 14) | (x >> 18), 14) == x;
    case n == 15 => assert Rotr32((x << 15) | (x >> 17), 15) == x;
    case n == 16 => assert Rotr32((x << 16) | (x >> 16), 16) == x;
    case n == 17 => assert Rotr32((x << 17) | (x >> 15), 17) == x;
    case n == 18 => assert Rotr32((x << 18) | (x >> 14), 18) == x;
    case n == 19 => assert Rotr32((x << 19) | (x >> 13), 19) == x;
    case n == 20 => assert Rotr32((x << 20) | (x >> 12), 20) == x;
    case n == 21 => assert Rotr32((x << 21) | (x >> 11), 21) == x;
    case n == 22 => assert Rotr32((x << 22) | (x >> 10), 22) == x;
    case n == 23 => assert Rotr32((x << 23) | (x >> 9), 23) == x;
    case n == 24 => assert Rotr32((x << 24) | (x >> 8), 24) == x;
    case n == 25 => assert Rotr32((x << 25) | (x >> 7), 25) == x;
    case n == 26 => assert Rotr32((x << 26) | (x >> 6), 26) == x;
    case n == 27 => assert Rotr32((x << 27) | (x >> 5), 27) == x;
    case n == 28 => assert Rotr32((x << 28) | (x >> 4), 28) == x;
    case n == 29 => assert Rotr32((x << 29) | (x >> 3), 29) == x;
    case n == 30 => assert Rotr32((x << 30) | (x >> 2), 30) == x;
    case n == 31 => assert Rotr32((x << 31) | (x >> 1), 31) == x;
  }

  // ---- The operations on plain words ----

  lemma PlusBits(x: bv32, y: bv32)
    ensures Plus(Word(x), Word(y)) == Word(x + y)
  {
  }

  lemma MinusBits(x: bv32, y: bv32)
    ensures Minus(Word(x), Word(y)) == Word(x - y)
  {
  }

  lemma XorBits(x: bv32, y: bv32)
    ensures Xor(Word(x), Word(y)) == Word(x ^ y)
  {
  }

  lemma AndBits(x: bv32, y: bv32)
    ensures And(Word(x), Word(y)) == Word(x & y)
  {
  }

  lemma OrBits(x: bv32, y: bv32)
    ensures Or(Word(x), Word(y)) == Word(x | y)
  {
  }

  lemma NotBits(x: bv32)
    ensures Not(Word(x)) == Word(!x)
  {
  }

  lemma RotlBits(x: bv32, n: Amount)
    ensures Rotl(Word(x), n) == Word((x << n) | (x >> (32 - n)))
  {
  }

  lemma RotrBits(x: bv32, n: Amount)
    ensures Rotr(Word(x), n) == Word((x >> n) | (x << (32 - n)))
  {
  }

  lemma ShrBits(x: bv32, n: Amount)
    ensures Shr(Word(x), n) == Word(x >> n)
  {
  }
}
