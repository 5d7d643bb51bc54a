/** basic_functions.hpp for 64-bit words: rotations built from two shifts.

    The words the cyphers handle are boxed, so that reasoning about blocks, schedules
    and loops never has to look at bits: it uses the laws proved here.
  */
module BasicFunctions {
  /** The amounts the shifts are defined for: a shift by the full width is not. */
  type Amount = n: bv7 | 1 <= n < 64 witness 1

  datatype Word = Word(bits: bv64)

  function Plus(x: Word, y: Word): Word { Word(Add(x.bits, y.bits)) }

  function Minus(x: Word, y: Word): Word { Word(Sub(x.bits, y.bits)) }

  function Xor(x: Word, y: Word): Word { Word(Xor64(x.bits, y.bits)) }

  function Rotl(x: Word, n: Amount): Word { Word(Rotl64(x.bits, n)) }

  function Rotr(x: Word, n: Amount): Word { Word(Rotr64(x.bits, n)) }

  function And(x: Word, y: Word): Word { Word(x.bits & y.bits) }

  function Or(x: Word, y: Word): Word { Word(x.bits | y.bits) }

  function Not(x: Word): Word { Word(!x.bits) }

  function Shl(x: Word, n: Amount): Word { Word(x.bits << n) }

  function Shr(x: Word, n: Amount): Word { Word(Shr64(x.bits, n)) }

  function Add(x: bv64, y: bv64): bv64 { x + y }

  function Sub(x: bv64, y: bv64): bv64 { x - y }

  function Xor64(x: bv64, y: bv64): bv64 { x ^ y }

  function Shr64(x: bv64, n: Amount): bv64 { x >> n }

  function Rotl64(x: bv64, n: Amount): bv64 {
    (x << n) | (x >> (64 - n))
  }

  function Rotr64(x: bv64, n: Amount): bv64 {
    (x >> n) | (x << (64 - n))
  }

  lemma {:induction false} AddSub(x: Word, y: Word)
    ensures Minus(Plus(x, y), y) == x && Plus(Minus(x, y), y) == x
  {
    AddSub64(x.bits, y.bits);
    hide Add, Sub;
  }

  lemma {:induction false} XorLaws(x: Word, y: Word, z: Word)
    ensures Xor(x, y) == Xor(y, x)
    ensures Xor(Xor(x, y), y) == x
    ensures Xor(Xor(x, y), z) == Xor(Xor(x, z), y)
    ensures Xor(Word(0), y) == y
  {
    XorLaws64(x.bits, y.bits, z.bits);
    hide Xor64;
  }

  lemma {:induction false} RotateBack(x: Word, n: Amount)
    ensures Rotr(Rotl(x, n), n) == x && Rotl(Rotr(x, n), n) == x
  {
    RotrRotl(x.bits, n);
    RotlRotr(x.bits, n);
    hide Rotl64, Rotr64;
  }

  lemma {:induction false} SubMoves(x: Word, y: Word, z: Word)
    ensures Minus(Plus(x, y), z) == Plus(Minus(x, z), y)
  {
    SubMoves64(x.bits, y.bits, z.bits);
    hide Add, Sub;
  }

  lemma {:induction false} SubMoves64(x: bv64, y: bv64, z: bv64)
    ensures Sub(Add(x, y), z) == Add(Sub(x, z), y)
  {
    hide Add, Sub;
    AddIs64(x, y);
    AddIs64(x, z);
    SumMoved64(x, y, z);
  }

  lemma SumMoved64(x: bv64, y: bv64, z: bv64)
    ensures Sub(x + y, z) == Add(x - z, y)
  {
  }

  // Written with the operators the solver simplifies these laws away; the functions follow
  // by substitution.

  lemma AddIs64(x: bv64, y: bv64)
    ensures Add(x, y) == x + y && Sub(x, y) == x - y
  {
  }

  lemma SubOfSum64(x: bv64, y: bv64)
    ensures Sub(x + y, y) == x
  {
  }

  lemma SumOfSub64(x: bv64, y: bv64)
    ensures Add(x - y, y) == x
  {
  }

  lemma {:induction false} AddSub64(x: bv64, y: bv64)
    ensures Sub(Add(x, y), y) == x && Add(Sub(x, y), y) == x
  {
    hide Add, Sub;
    AddIs64(x, y);
    SubOfSum64(x, y);
    SumOfSub64(x, y);
  }

  lemma XorLaws64(x: bv64, y: bv64, z: bv64)
    ensures Xor64(x, y) == Xor64(y, x)
    ensures Xor64(Xor64(x, y), y) == x
    ensures Xor64(Xor64(x, y), z) == Xor64(Xor64(x, z), y)
    ensures Xor64(0, y) == y
  {
  }

  lemma {:induction false} RotlRotr(x: bv64, n: Amount)
    ensures Rotl64(Rotr64(x, n), n) == x
  {
    Complement(x, n);
    Complement(Rotr64(x, n), n);
    hide Rotl64, Rotr64;
    RotrRotl(x, 64 - n);
  }

  lemma Complement(x: bv64, n: Amount)
    ensures Rotl64(x, n) == Rotr64(x, 64 - n) && Rotr64(x, n) == Rotl64(x, 64 - n)
  {
  }

  /** With the amount known, shifting there and back is evident; there are 63 amounts. */
  lemma {:induction false} RotrRotl(x: bv64, n: Amount)
    ensures Rotr64(Rotl64(x, n), n) == x
  {
    if
    case n == 1 => assert Rotr64((x << 1) | (x >> 63), 1) == x;
    case n == 2 => assert Rotr64((x << 2) | (x >> 62), 2) == x;
    case n == 3 => assert Rotr64((x << 3) | (x >> 61), 3) == x;
    case n == 4 => assert Rotr64((x << 4) | (x >> 60), 4) == x;
    case n == 5 => assert Rotr64((x << 5) | (x >> 59), 5) == x;
    case n == 6 => assert Rotr64((x << 6) | (x >> 58), 6) == x;
    case n == 7 => assert Rotr64((x << 7) | (x >> 57), 7) == x;
    case n == 8 => assert Rotr64((x << 8) | (x >> 56), 8) == x;
    case n == 9 => assert Rotr64((x << 9) | (x >> 55), 9) == x;
    case n == 10 => assert Rotr64((x << 10) | (x >> 54), 10) == x;
    case n == 11 => assert Rotr64((x << 11) | (x >> 53), 11) == x;
    case n == 12 => assert Rotr64((x << 12) | (x >> 52), 12) == x;
    case n == 13 => assert Rotr64((x << 13) | (x >> 51), 13) == x;
    case n == 14 => assert Rotr64((x << 14) | (x >> 50), 14) == x;
    case n == 15 => assert Rotr64((x << 15) | (x >> 49), 15) == x;
    case n == 16 => assert Rotr64((x << 16) | (x >> 48), 16) == x;
    case n == 17 => assert Rotr64((x << 17) | (x >> 47), 17) == x;
    case n == 18 => assert Rotr64((x << 18) | (x >> 46), 18) == x;
    case n == 19 => assert Rotr64((x << 19) | (x >> 45), 19) == x;
    case n == 20 => assert Rotr64((x << 20) | (x >> 44), 20) == x;
    case n == 21 => assert Rotr64((x << 21) | (x >> 43), 21) == x;
    case n == 22 => assert Rotr64((x << 22) | (x >> 42), 22) == x;
    case n == 23 => assert Rotr64((x << 23) | (x >> 41), 23) == x;
    case n == 24 => assert Rotr64((x << 24) | (x >> 40), 24) == x;
    case n == 25 => assert Rotr64((x << 25) | (x >> 39), 25) == x;
    case n == 26 => assert Rotr64((x << 26) | (x >> 38), 26) == x;
    case n == 27 => assert Rotr64((x << 27) | (x >> 37), 27) == x;
    case n == 28 => assert Rotr64((x << 28) | (x >> 36), 28) == x;
    case n == 29 => assert Rotr64((x << 29) | (x >> 35), 29) == x;
    case n == 30 => assert Rotr64((x << 30) | (x >> 34), 30) == x;
    case n == 31 => assert Rotr64((x << 31) | (x >> 33), 31) == x;
    case n == 32 => assert Rotr64((x << 32) | (x >> 32), 32) == x;
    case n == 33 => assert Rotr64((x << 33) | (x >> 31), 33) == x;
    case n == 34 => assert Rotr64((x << 34) | (x >> 30), 34) == x;
    case n == 35 => assert Rotr64((x << 35) | (x >> 29), 35) == x;
    case n == 36 => assert Rotr64((x << 36) | (x >> 28), 36) == x;
    case n == 37 => assert Rotr64((x << 37) | (x >> 27), 37) == x;
    case n == 38 => assert Rotr64((x << 38) | (x >> 26), 38) == x;
    case n == 39 => assert Rotr64((x << 39) | (x >> 25), 39) == x;
    case n == 40 => assert Rotr64((x << 40) | (x >> 24), 40) == x;
    case n == 41 => assert Rotr64((x << 41) | (x >> 23), 41) == x;
    case n == 42 => assert Rotr64((x << 42) | (x >> 22), 42) == x;
    case n == 43 => assert Rotr64((x << 43) | (x >> 21), 43) == x;
    case n == 44 => assert Rotr64((x << 44) | (x >> 20), 44) == x;
    case n == 45 => assert Rotr64((x << 45) | (x >> 19), 45) == x;
    case n == 46 => assert Rotr64((x << 46) | (x >> 18), 46) == x;
    case n == 47 => assert Rotr64((x << 47) | (x >> 17), 47) == x;
    case n == 48 => assert Rotr64((x << 48) | (x >> 16), 48) == x;
    case n == 49 => assert Rotr64((x << 49) | (x >> 15), 49) == x;
    case n == 50 => assert Rotr64((x << 50) | (x >> 14), 50) == x;
    case n == 51 => assert Rotr64((x << 51) | (x >> 13), 51) == x;
    case n == 52 => assert Rotr64((x << 52) | (x >> 12), 52) == x;
    case n == 53 => assert Rotr64((x << 53) | (x >> 11), 53) == x;
    case n == 54 => assert Rotr64((x << 54) | (x >> 10), 54) == x;
    case n == 55 => assert Rotr64((x << 55) | (x >> 9), 55) == x;
    case n == 56 => assert Rotr64((x << 56) | (x >> 8), 56) == x;
    case n == 57 => assert Rotr64((x << 57) | (x >> 7), 57) == x;
    case n == 58 => assert Rotr64((x << 58) | (x >> 6), 58) == x;
    case n == 59 => assert Rotr64((x << 59) | (x >> 5), 59) == x;
    case n == 60 => assert Rotr64((x << 60) | (x >> 4), 60) == x;
    case n == 61 => assert Rotr64((x << 61) | (x >> 3), 61) == x;
    case n == 62 => assert Rotr64((x << 62) | (x >> 2), 62) == x;
    case n == 63 => assert Rotr64((x << 63) | (x >> 1), 63) == x;
  }

  // ---- The operations on plain words ----

  lemma PlusBits(x: bv64, y: bv64)
    ensures Plus(Word(x), Word(y)) == Word(x + y)
  {
  }

  lemma MinusBits(x: bv64, y: bv64)
    ensures Minus(Word(x), Word(y)) == Word(x - y)
  {
  }

  lemma XorBits(x: bv64, y: bv64)
    ensures Xor(Word(x), Word(y)) == Word(x ^ y)
  {
  }

  lemma AndBits(x: bv64, y: bv64)
    ensures And(Word(x), Word(y)) == Word(x & y)
  {
  }

  lemma OrBits(x: bv64, y: bv64)
    ensures Or(Word(x), Word(y)) == Word(x | y)
  {
  }

  lemma NotBits(x: bv64)
    ensures Not(Word(x)) == Word(!x)
  {
  }

  lemma RotlBits(x: bv64, n: Amount)
    ensures Rotl(Word(x), n) == Word((x << n) | (x >> (64 - n)))
  {
  }

  lemma RotrBits(x: bv64, n: Amount)
    ensures Rotr(Word(x), n) == Word((x >> n) | (x << (64 - n)))
  {
  }

  lemma ShrBits(x: bv64, n: Amount)
    ensures Shr(Word(x), n) == Word(x >> n)
  {
  }
}
