/** The reference CubeHash transform of detail/cubehash_policy.hpp: one loop for each
    step, over the state x and a scratch block y.
  */
module CubeHashReference {
  import opened BasicFunctions32
  import opened CubeHash

  method Transform(x: array<Word>, n: nat)
    requires x.Length == 32
    modifies x
    ensures x[..] == Transformed(old(x[..]), n)
  {
    hide Half, Transformed;
    ghost var s := x[..];
    var y := new Word[16];
    var m: nat := n;
    TransformedNone(s);
    while m != 0
      invariant m <= n && x[..] == Transformed(s, n - m)
    {
      TransformedNext(s, n - m);
      m := m - 1;
      HalfRound(x, y, 8, 7, 2);
      HalfRound(x, y, 4, 11, 1);
    }
  }

  /** Six of the twelve loops of a round; the other six have the other amounts. */
  method HalfRound(x: array<Word>, y: array<Word>, low: nat, amount: Amount, high: nat)
    requires x.Length == 32 && y.Length == 16 && x != y && Bit(low) && Bit(high)
    modifies x, y
    ensures x[..] == Half(old(x[..]), low, amount, high)
  {
    hide Plus, Xor, Rotl, Flip, Bit, Half;
    ghost var s := x[..];
    AddLow(x);
    FlipInto(x, y, 0, low);
    RotateFrom(y, x, amount);
    XorHigh(x);
    FlipInto(x, y, 16, high);
    StoreHigh(y, x);
    forall k | 0 <= k < 32 ensures x[k] == Half(s, low, amount, high)[k] {
      var i := k % 16;
      HalfLow(s, low, amount, high, i);
      HalfHigh(s, low, amount, high, i);
      FlipTwice(i, low);
      FlipTwice(i, high);
    }
  }

  method AddLow(x: array<Word>)
    requires x.Length == 32
    modifies x
    ensures forall k :: 0 <= k < 16 ==> x[k] == old(x[k])
    ensures forall k :: 16 <= k < 32 ==> x[k] == Plus(old(x[k]), old(x[k - 16]))
  {
    hide Plus;
    for i := 0 to 16
      invariant forall k :: 0 <= k < 16 ==> x[k] == old(x[k])
      invariant forall k :: 16 <= k < 32 ==> x[k] == if k - 16 < i then Plus(old(x[k]), old(x[k - 16])) else old(x[k])
    {
      x[i + 16] := Plus(x[i + 16], x[i]);
    }
  }

  /** y[i ^ bit] = x[base + i]. */
  method FlipInto(x: array<Word>, y: array<Word>, base: nat, bit: nat)
    requires x.Length == 32 && y.Length == 16 && x != y && (base == 0 || base == 16) && Bit(bit)
    modifies y
    ensures forall i :: 0 <= i < 16 ==> y[Flip(i, bit)] == x[base + i]
  {
    hide Flip, Bit;
    for i := 0 to 16
      invariant forall k :: 0 <= k < i ==> y[Flip(k, bit)] == x[base + k]
    {
      forall k | 0 <= k < i ensures Flip(k, bit) != Flip(i, bit) {
        FlipTwice(k, bit);
        FlipTwice(i, bit);
      }
      y[Flip(i, bit)] := x[base + i];
    }
  }

  method RotateFrom(y: array<Word>, x: array<Word>, amount: Amount)
    requires x.Length == 32 && y.Length == 16 && x != y
    modifies x
    ensures forall k :: 0 <= k < 16 ==> x[k] == Rotl(y[k], amount)
    ensures forall k :: 16 <= k < 32 ==> x[k] == old(x[k])
  {
    hide Rotl;
    for i := 0 to 16
      invariant forall k :: 0 <= k < i ==> x[k] == Rotl(y[k], amount)
      invariant forall k :: 16 <= k < 32 ==> x[k] == old(x[k])
    {
      x[i] := Rotl(y[i], amount);
    }
  }

  method XorHigh(x: array<Word>)
    requires x.Length == 32
    modifies x
    ensures forall k :: 0 <= k < 16 ==> x[k] == Xor(old(x[k]), old(x[k + 16]))
    ensures forall k :: 16 <= k < 32 ==> x[k] == old(x[k])
  {
    hide Xor;
    for i := 0 to 16
      invariant forall k :: 0 <= k < 16 ==> x[k] == if k < i then Xor(old(x[k]), old(x[k + 16])) else old(x[k])
      invariant forall k :: 16 <= k < 32 ==> x[k] == old(x[k])
    {
      x[i] := Xor(x[i], x[i + 16]);
    }
  }

  method StoreHigh(y: array<Word>, x: array<Word>)
    requires x.Length == 32 && y.Length == 16 && x != y
    modifies x
    ensures forall k :: 0 <= k < 16 ==> x[k] == old(x[k])
    ensures forall k :: 16 <= k < 32 ==> x[k] == y[k - 16]
  {
    for i := 0 to 16
      invariant forall k :: 16 <= k < 16 + i ==> x[k] == y[k - 16]
      invariant forall k :: 0 <= k < 16 ==> x[k] == old(x[k])
    {
      x[i + 16] := y[i];
    }
  }
}
