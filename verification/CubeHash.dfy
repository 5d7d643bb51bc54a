/** detail/cubehash_policy.hpp: the CubeHash round, its inverse, and its specification.

    A state is 32 words.  One round is two half rounds of the same shape: add the low
    half into the high half, rotate and exchange the low words, xor the high words into
    them, and exchange the high words.
  */
module CubeHash {
  import opened BasicFunctions32

  predicate Bit(b: nat) {
    b == 1 || b == 2 || b == 4 || b == 8
  }

  /** i with one bit flipped, for the four bits of an index below 16. */
  function Flip(i: nat, bit: nat): (j: nat)
    requires i < 16 && Bit(bit)
    ensures j < 16 && j != i
  {
    if i / bit % 2 == 0 then i + bit else i - bit
  }

  lemma FlipTwice(i: nat, bit: nat)
    requires i < 16 && Bit(bit)
    ensures Flip(Flip(i, bit), bit) == i
  {
  }

  function HighSum(s: seq<Word>, i: nat): Word
    requires |s| == 32 && i < 16
  {
    Plus(s[i + 16], s[i])
  }

  function Half(s: seq<Word>, low: nat, amount: Amount, high: nat): (t: seq<Word>)
    requires |s| == 32 && Bit(low) && Bit(high)
    ensures |t| == 32
  {
    seq(32, i requires 0 <= i < 32 =>
      if i < 16 then Xor(Rotl(s[Flip(i, low)], amount), HighSum(s, i))
      else HighSum(s, Flip(i - 16, high)))
  }

  function Unhalf(t: seq<Word>, low: nat, amount: Amount, high: nat): (s: seq<Word>)
    requires |t| == 32 && Bit(low) && Bit(high)
    ensures |s| == 32
  {
    seq(32, i requires 0 <= i < 32 => if i < 16 then LowBefore(t, low, amount, high, i) else
      Minus(t[Flip(i - 16, high) + 16], LowBefore(t, low, amount, high, i - 16)))
  }

  /** The low word i that a half round started from. */
  function LowBefore(t: seq<Word>, low: nat, amount: Amount, high: nat, i: nat): Word
    requires |t| == 32 && Bit(low) && Bit(high) && i < 16
  {
    var j := Flip(i, low);
    Rotr(Xor(t[j], t[Flip(j, high) + 16]), amount)
  }

  lemma HalfLow(s: seq<Word>, low: nat, amount: Amount, high: nat, i: nat)
    requires |s| == 32 && Bit(low) && Bit(high) && i < 16
    ensures Half(s, low, amount, high)[i] == Xor(Rotl(s[Flip(i, low)], amount), HighSum(s, i))
  {
    hide Xor, Rotl, HighSum, Flip;
  }

  lemma HalfHigh(s: seq<Word>, low: nat, amount: Amount, high: nat, i: nat)
    requires |s| == 32 && Bit(low) && Bit(high) && i < 16
    ensures Half(s, low, amount, high)[i + 16] == HighSum(s, Flip(i, high))
  {
    hide Xor, Rotl, HighSum, Flip;
  }

  lemma {:induction false} LowRecovered(s: seq<Word>, low: nat, amount: Amount, high: nat, i: nat)
    requires |s| == 32 && Bit(low) && Bit(high) && i < 16
    ensures LowBefore(Half(s, low, amount, high), low, amount, high, i) == s[i]
  {
    hide Xor, Rotl, Rotr, HighSum, Flip, Half, Bit;
    var j := Flip(i, low);
    FlipTwice(i, low);
    HalfLow(s, low, amount, high, j);
    HalfHigh(s, low, amount, high, Flip(j, high));
    FlipTwice(j, high);
    XorLaws(Rotl(s[i], amount), HighSum(s, j), HighSum(s, j));
    RotateBack(s[i], amount);
  }

  lemma {:induction false} UnhalfHalf(s: seq<Word>, low: nat, amount: Amount, high: nat)
    requires |s| == 32 && Bit(low) && Bit(high)
    ensures Unhalf(Half(s, low, amount, high), low, amount, high) == s
  {
    hide Plus, Minus, Flip, Half, Bit, LowBefore;
    var t := Half(s, low, amount, high);
    forall i | 0 <= i < 32 ensures Unhalf(t, low, amount, high)[i] == s[i] {
      var k := i % 16;
      LowRecovered(s, low, amount, high, k);
      HalfHigh(s, low, amount, high, Flip(k, high));
      FlipTwice(k, high);
      AddSub(s[k + 16], s[k]);
    }
  }

  lemma {:induction false} HalfUnhalf(t: seq<Word>, low: nat, amount: Amount, high: nat)
    requires |t| == 32 && Bit(low) && Bit(high)
    ensures Half(Unhalf(t, low, amount, high), low, amount, high) == t
  {
    hide Flip, Bit, HighSum, Half, Unhalf;
    var s := Unhalf(t, low, amount, high);
    forall i | 0 <= i < 32 ensures Half(s, low, amount, high)[i] == t[i] {
      var k := i % 16;
      if i < 16 {
        SumRecovered(t, low, amount, high, k);
        LowRebuilt(t, low, amount, high, k);
      } else {
        HalfHigh(s, low, amount, high, k);
        SumRecovered(t, low, amount, high, Flip(k, high));
        FlipTwice(k, high);
      }
    }
  }

  /** Adding the recovered halves gives the high word that was exchanged. */
  lemma {:induction false} SumRecovered(t: seq<Word>, low: nat, amount: Amount, high: nat, i: nat)
    requires |t| == 32 && Bit(low) && Bit(high) && i < 16
    ensures HighSum(Unhalf(t, low, amount, high), i) == t[Flip(i, high) + 16]
  {
    hide Flip, Bit, LowBefore, Plus, Minus;
    AddSub(t[Flip(i, high) + 16], LowBefore(t, low, amount, high, i));
  }

  lemma {:induction false} LowRebuilt(t: seq<Word>, low: nat, amount: Amount, high: nat, i: nat)
    requires |t| == 32 && Bit(low) && Bit(high) && i < 16
    requires HighSum(Unhalf(t, low, amount, high), i) == t[Flip(i, high) + 16]
    ensures Half(Unhalf(t, low, amount, high), low, amount, high)[i] == t[i]
  {
    hide Flip, Bit, HighSum, Xor, Rotl, Rotr, Half;
    HalfLow(Unhalf(t, low, amount, high), low, amount, high, i);
    FlipTwice(i, low);
    RotateBack(Xor(t[i], t[Flip(i, high) + 16]), amount);
    XorLaws(t[i], t[Flip(i, high) + 16], t[i]);
  }

  // ---- Rounds ----

  function Round(s: seq<Word>): (t: seq<Word>)
    requires |s| == 32
    ensures |t| == 32
  {
    Half(Half(s, 8, 7, 2), 4, 11, 1)
  }

  function Unround(t: seq<Word>): (s: seq<Word>)
    requires |t| == 32
    ensures |s| == 32
  {
    Unhalf(Unhalf(t, 4, 11, 1), 8, 7, 2)
  }

  function Transformed(s: seq<Word>, n: nat): (t: seq<Word>)
    requires |s| == 32
    ensures |t| == 32
  {
    if n == 0 then s else Round(Transformed(s, n - 1))
  }

  function Untransformed(t: seq<Word>, n: nat): (s: seq<Word>)
    requires |t| == 32
    ensures |s| == 32
    decreases n
  {
    if n == 0 then t else Untransformed(Unround(t), n - 1)
  }

  lemma TransformedNone(s: seq<Word>)
    requires |s| == 32
    ensures Transformed(s, 0) == s
  {
  }

  lemma TransformedNext(s: seq<Word>, n: nat)
    requires |s| == 32
    ensures Transformed(s, n + 1) == Half(Half(Transformed(s, n), 8, 7, 2), 4, 11, 1)
  {
    hide Half;
  }

  lemma {:induction false} RoundUndone(s: seq<Word>)
    requires |s| == 32
    ensures Unround(Round(s)) == s && Round(Unround(s)) == s
  {
    hide Half, Unhalf;
    UnhalfHalf(s, 8, 7, 2);
    UnhalfHalf(Half(s, 8, 7, 2), 4, 11, 1);
    HalfUnhalf(Unhalf(s, 4, 11, 1), 8, 7, 2);
    HalfUnhalf(s, 4, 11, 1);
  }

  /** The transform is a bijection on states, for every number of rounds. */
  lemma {:induction false} TransformBijective(s: seq<Word>, n: nat)
    requires |s| == 32
    ensures Untransformed(Transformed(s, n), n) == s
    ensures Transformed(Untransformed(s, n), n) == s
    decreases n
  {
    hide Round, Unround;
    if n > 0 {
      RoundUndone(Transformed(s, n - 1));
      TransformBijective(s, n - 1);
      TransformBijective(Unround(s), n - 1);
      RoundUndone(s);
    }
  }
}
