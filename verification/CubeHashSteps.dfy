/** The ten steps of a CubeHash round as the specification of CubeHash lists them, on the 32
    words x[0] to x[31], whose five index bits are j, k, l, m and, on top, the half.
  */
module CubeHashSteps {
  import opened BasicFunctions32
  import opened CubeHash

  type State = s: seq<Word> | |s| == 32 witness seq(32, _ => Word(0))

  /** Add x[i] into x[i + 16] for the low half. */
  function AddIntoHigh(s: State): State {
    seq(32, i requires 0 <= i < 32 => if i >= 16 then Plus(s[i], s[i - 16]) else s[i])
  }

  /** Xor x[i + 16] into x[i]. */
  function XorIntoLow(s: State): State {
    seq(32, i requires 0 <= i < 32 => if i < 16 then Xor(s[i], s[i + 16]) else s[i])
  }

  function RotateLow(s: State, n: Amount): State {
    seq(32, i requires 0 <= i < 32 => if i < 16 then Rotl(s[i], n) else s[i])
  }

  /** In the low half, words 0 to 7 change places with words 8 to 15. */
  function SwapEights(s: State): State {
    seq(32, i requires 0 <= i < 32 => if i < 8 then s[i + 8] else if i < 16 then s[i - 8] else s[i])
  }

  /** In the low half, fours of words with the fours after them. */
  function SwapFours(s: State): State {
    seq(32, i requires 0 <= i < 32 => if i >= 16 then s[i] else if i % 8 < 4 then s[i + 4] else s[i - 4])
  }

  /** In the high half, pairs of words with the pairs after them. */
  function SwapPairs(s: State): State {
    seq(32, i requires 0 <= i < 32 => if i < 16 then s[i] else if i % 4 < 2 then s[i + 2] else s[i - 2])
  }

  /** In the high half, every even word with the one after it. */
  function SwapNeighbours(s: State): State {
    seq(32, i requires 0 <= i < 32 => if i < 16 then s[i] else if i % 2 == 0 then s[i + 1] else s[i - 1])
  }

  lemma FlipsInNumbers(i: nat)
    requires i < 16
    ensures Flip(i, 8) == (if i < 8 then i + 8 else i - 8) && Flip(i, 4) == (if i % 8 < 4 then i + 4 else i - 4)
    ensures Flip(i, 2) == (if i % 4 < 2 then i + 2 else i - 2) && Flip(i, 1) == (if i % 2 == 0 then i + 1 else i - 1)
  {
  }

  lemma {:induction false} FirstLow(s: State, i: nat)
    requires i < 16
    ensures XorIntoLow(SwapEights(RotateLow(AddIntoHigh(s), 7)))[i] == Xor(Rotl(s[Flip(i, 8)], 7), Plus(s[i + 16], s[i]))
  {
    hide Plus, Xor, Rotl, Flip;
    FlipsInNumbers(i);
  }

  lemma {:induction false} FirstHigh(s: State, i: nat)
    requires i < 16
    ensures SwapPairs(XorIntoLow(SwapEights(RotateLow(AddIntoHigh(s), 7))))[i + 16] ==
      Plus(s[Flip(i, 2) + 16], s[Flip(i, 2)])
  {
    hide Plus, Xor, Rotl, Flip;
    FlipsInNumbers(i);
  }

  lemma {:induction false} FirstFive(s: State)
    ensures Half(s, 8, 7, 2) == SwapPairs(XorIntoLow(SwapEights(RotateLow(AddIntoHigh(s), 7))))
  {
    hide Plus, Xor, Rotl, Flip, Half, RotateLow, AddIntoHigh, SwapEights, XorIntoLow;
    var u := XorIntoLow(SwapEights(RotateLow(AddIntoHigh(s), 7)));
    forall i | 0 <= i < 32 ensures Half(s, 8, 7, 2)[i] == SwapPairs(u)[i] {
      if i < 16 {
        HalfLow(s, 8, 7, 2, i);
        FirstLow(s, i);
      } else {
        HalfHigh(s, 8, 7, 2, i - 16);
        FirstHigh(s, i - 16);
      }
    }
  }

  lemma {:induction false} LastLow(s: State, i: nat)
    requires i < 16
    ensures XorIntoLow(SwapFours(RotateLow(AddIntoHigh(s), 11)))[i] == Xor(Rotl(s[Flip(i, 4)], 11), Plus(s[i + 16], s[i]))
  {
    hide Plus, Xor, Rotl, Flip;
    FlipsInNumbers(i);
  }

  lemma {:induction false} LastHigh(s: State, i: nat)
    requires i < 16
    ensures SwapNeighbours(XorIntoLow(SwapFours(RotateLow(AddIntoHigh(s), 11))))[i + 16] ==
      Plus(s[Flip(i, 1) + 16], s[Flip(i, 1)])
  {
    hide Plus, Xor, Rotl, Flip;
    FlipsInNumbers(i);
  }

  lemma {:induction false} LastFive(s: State)
    ensures Half(s, 4, 11, 1) == SwapNeighbours(XorIntoLow(SwapFours(RotateLow(AddIntoHigh(s), 11))))
  {
    hide Plus, Xor, Rotl, Flip, Half, RotateLow, AddIntoHigh, SwapFours, XorIntoLow;
    var u := XorIntoLow(SwapFours(RotateLow(AddIntoHigh(s), 11)));
    forall i | 0 <= i < 32 ensures Half(s, 4, 11, 1)[i] == SwapNeighbours(u)[i] {
      if i < 16 {
        HalfLow(s, 4, 11, 1, i);
        LastLow(s, i);
      } else {
        HalfHigh(s, 4, 11, 1, i - 16);
        LastHigh(s, i - 16);
      }
    }
  }

  /** A round is the ten steps. */
  lemma {:induction false} TenSteps(s: State)
    ensures Round(s) ==
      SwapNeighbours(XorIntoLow(SwapFours(RotateLow(AddIntoHigh(
        SwapPairs(XorIntoLow(SwapEights(RotateLow(AddIntoHigh(s), 7))))), 11))))
  {
    hide Half, AddIntoHigh, XorIntoLow, RotateLow, SwapEights, SwapFours, SwapPairs, SwapNeighbours;
    FirstFive(s);
    LastFive(Half(s, 8, 7, 2));
  }
}
