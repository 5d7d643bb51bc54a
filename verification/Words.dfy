/** Machine words as bit sequences, and the shifts of detail/unbounded_shift.hpp.

    A Word is an unsigned integer of |w| bits, least significant bit first.  The
    length is the width of the C++ type that stores the value, which may be larger
    (uint_least types) or smaller (the 64-bit cap on lengths) than the number of
    bits a packing step works with.
  */
module Words {
  type Word = seq<bool>

  /** Bit i of a word; a word is zero outside its storage. */
  function Bit(w: Word, i: int): bool {
    0 <= i < |w| && w[i]
  }

  function Zero(n: nat): Word {
    seq(n, _ => false)
  }

  function Not(w: Word): Word {
    seq(|w|, i requires 0 <= i < |w| => !w[i])
  }

  function And(v: Word, w: Word): Word
    requires |v| == |w|
  {
    seq(|v|, i requires 0 <= i < |v| => v[i] && w[i])
  }

  function Or(v: Word, w: Word): Word
    requires |v| == |w|
  {
    seq(|v|, i requires 0 <= i < |v| => v[i] || w[i])
  }

  /** Integer conversion to a type of n bits: truncates or zero-extends. */
  function Cast(n: nat, w: Word): Word {
    seq(n, i => Bit(w, i))
  }

  function Shl1(w: Word): Word {
    seq(|w|, i => Bit(w, i - 1))
  }

  function Shr1(w: Word): Word {
    seq(|w|, i => Bit(w, i + 1))
  }

  /** Shifting one place at a time never leaves the range of shift counts the
      language defines, so any count n is meaningful. */
  function UnboundedShl(n: nat, w: Word): (r: Word)
    ensures |r| == |w|
    ensures forall i :: 0 <= i < |w| ==> r[i] == Bit(w, i - n)
  {
    if n == 0 then w else UnboundedShl(n - 1, Shl1(w))
  }

  function UnboundedShr(n: nat, w: Word): (r: Word)
    ensures |r| == |w|
    ensures forall i :: 0 <= i < |w| ==> r[i] == Bit(w, i + n)
  {
    if n == 0 then w else UnboundedShr(n - 1, Shr1(w))
  }

  /** Masks off everything above the low n bits, for any n. */
  function LowBits(n: nat, w: Word): (r: Word)
    ensures |r| == |w|
    ensures forall i :: 0 <= i < |w| ==> r[i] == (i < n && w[i])
  {
    var highmask := UnboundedShl(n, Not(Zero(|w|)));
    And(w, Not(highmask))
  }

  /** b bits of x from bit `shift` on, stored in n bits. */
  function Extract(shift: nat, b: nat, n: nat, x: Word): (z: Word)
    requires b <= n
    ensures Canonical(b, n, z)
    ensures forall i :: 0 <= i < b ==> z[i] == Bit(x, shift + i)
  {
    var y := UnboundedShr(shift, x);
    Cast(n, LowBits(b, y))
  }

  /** x with the low b bits of z ORed in at bit `shift`. */
  function Deposit(shift: nat, b: nat, z: Word, x: Word): (y: Word)
    ensures |y| == |x|
    ensures forall i :: 0 <= i < |x| ==>
      y[i] == (x[i] || (shift <= i < shift + b && Bit(z, i - shift)))
  {
    var y := LowBits(b, Cast(|x|, z));
    Or(x, UnboundedShl(shift, y))
  }

  /** A value of b bits stored in n bits: nothing is set above bit b. */
  predicate Canonical(b: nat, n: nat, w: Word) {
    |w| == n && forall i :: b <= i < n ==> !w[i]
  }

  /** The low w bits of a number, least significant first. */
  function NatWord(n: nat, w: nat): Word {
    if w == 0 then [] else [n % 2 == 1] + NatWord(n / 2, w - 1)
  }

  /** The number a word stands for. */
  function WordNat(w: Word): nat {
    if w == [] then 0 else (if w[0] then 1 else 0) + 2 * WordNat(w[1..])
  }
}
