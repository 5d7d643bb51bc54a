/** The SSE2 CubeHash transform of detail/cubehash_policy.hpp: eight vectors of four words.

    The low index bits select the lane, so that exchanges on them are shuffles; the
    others select the vector.
  */
module CubeHashSse {
  import opened BasicFunctions32
  import opened CubeHash
  import Unrolled = CubeHashUnrolled

  /** Four 32-bit lanes. */
  datatype Lanes = Lanes(a: Word, b: Word, c: Word, d: Word)

  function AddLanes(x: Lanes, y: Lanes): Lanes {
    Lanes(Plus(x.a, y.a), Plus(x.b, y.b), Plus(x.c, y.c), Plus(x.d, y.d))
  }

  function XorLanes(x: Lanes, y: Lanes): Lanes {
    Lanes(Xor(x.a, y.a), Xor(x.b, y.b), Xor(x.c, y.c), Xor(x.d, y.d))
  }

  /** _mm_slli_epi32 and _mm_srli_epi32. */
  function ShiftLeft(x: Lanes, n: Amount): Lanes {
    Lanes(Shl(x.a, n), Shl(x.b, n), Shl(x.c, n), Shl(x.d, n))
  }

  function ShiftRight(x: Lanes, n: Amount): Lanes {
    Lanes(Shr(x.a, n), Shr(x.b, n), Shr(x.c, n), Shr(x.d, n))
  }

  function RotlLanes(x: Lanes, n: Amount): Lanes {
    Lanes(Rotl(x.a, n), Rotl(x.b, n), Rotl(x.c, n), Rotl(x.d, n))
  }

  /** _mm_shuffle_epi32 with 0x4e: the lane index with bit 1 flipped. */
  function Shuffle4e(x: Lanes): Lanes {
    Lanes(x.c, x.d, x.a, x.b)
  }

  /** _mm_shuffle_epi32 with 0xb1: the lane index with bit 0 flipped. */
  function ShuffleB1(x: Lanes): Lanes {
    Lanes(x.b, x.a, x.d, x.c)
  }

  /** The two shifts set no common bit, so xor joins them as or does. */
  lemma RotateByXor7(x: Word)
    ensures Xor(Shl(x, 7), Shr(x, 25)) == Rotl(x, 7)
  {
  }

  lemma RotateByXor11(x: Word)
    ensures Xor(Shl(x, 11), Shr(x, 21)) == Rotl(x, 11)
  {
  }

  method Rotate7(x: Lanes) returns (y: Lanes)
    ensures y == RotlLanes(x, 7)
  {
    hide Xor, Rotl, Shl, Shr;
    y := XorLanes(ShiftLeft(x, 7), ShiftRight(x, 25));
    RotateByXor7(x.a);
    RotateByXor7(x.b);
    RotateByXor7(x.c);
    RotateByXor7(x.d);
  }

  method Rotate11(x: Lanes) returns (y: Lanes)
    ensures y == RotlLanes(x, 11)
  {
    hide Xor, Rotl, Shl, Shr;
    y := XorLanes(ShiftLeft(x, 11), ShiftRight(x, 21));
    RotateByXor11(x.a);
    RotateByXor11(x.b);
    RotateByXor11(x.c);
    RotateByXor11(x.d);
  }

  lemma AddCommutes(x: Lanes, y: Lanes)
    ensures AddLanes(x, y) == AddLanes(y, x)
  {
    hide Plus;
    PlusCommutes(x.a, y.a);
    PlusCommutes(x.b, y.b);
    PlusCommutes(x.c, y.c);
    PlusCommutes(x.d, y.d);
  }

  /** The words of s, four to a vector. */
  predicate Holds(s: seq<Word>, x0: Lanes, x1: Lanes, x2: Lanes, x3: Lanes, x4: Lanes, x5: Lanes, x6: Lanes, x7: Lanes) {
    Unrolled.Holds(s,
      x0.a, x0.b, x0.c, x0.d, x1.a, x1.b, x1.c, x1.d,
      x2.a, x2.b, x2.c, x2.d, x3.a, x3.b, x3.c, x3.d,
      x4.a, x4.b, x4.c, x4.d, x5.a, x5.b, x5.c, x5.d,
      x6.a, x6.b, x6.c, x6.d, x7.a, x7.b, x7.c, x7.d)
  }

  lemma {:induction false} FirstHalf(s: seq<Word>, x0: Lanes, x1: Lanes, x2: Lanes, x3: Lanes, x4: Lanes, x5: Lanes, x6: Lanes, x7: Lanes)
    requires Holds(s, x0, x1, x2, x3, x4, x5, x6, x7)
    ensures |s| == 32 && Holds(Half(s, 8, 7, 2),
      XorLanes(RotlLanes(x2, 7), AddLanes(x4, x0)), XorLanes(RotlLanes(x3, 7), AddLanes(x5, x1)),
      XorLanes(RotlLanes(x0, 7), AddLanes(x6, x2)), XorLanes(RotlLanes(x1, 7), AddLanes(x7, x3)),
      Shuffle4e(AddLanes(x4, x0)), Shuffle4e(AddLanes(x5, x1)),
      Shuffle4e(AddLanes(x6, x2)), Shuffle4e(AddLanes(x7, x3)))
  {
    assert |s| == 32;
    hide Xor, Rotl, Plus, Half, Unrolled.Holds;
    Unrolled.FirstHalf(s,
      x0.a, x0.b, x0.c, x0.d, x1.a, x1.b, x1.c, x1.d,
      x2.a, x2.b, x2.c, x2.d, x3.a, x3.b, x3.c, x3.d,
      x4.a, x4.b, x4.c, x4.d, x5.a, x5.b, x5.c, x5.d,
      x6.a, x6.b, x6.c, x6.d, x7.a, x7.b, x7.c, x7.d);
  }

  lemma {:induction false} SecondHalf(s: seq<Word>, x0: Lanes, x1: Lanes, x2: Lanes, x3: Lanes, x4: Lanes, x5: Lanes, x6: Lanes, x7: Lanes)
    requires Holds(s, x0, x1, x2, x3, x4, x5, x6, x7)
    ensures |s| == 32 && Holds(Half(s, 4, 11, 1),
      XorLanes(RotlLanes(x1, 11), AddLanes(x4, x0)), XorLanes(RotlLanes(x0, 11), AddLanes(x5, x1)),
      XorLanes(RotlLanes(x3, 11), AddLanes(x6, x2)), XorLanes(RotlLanes(x2, 11), AddLanes(x7, x3)),
      ShuffleB1(AddLanes(x4, x0)), ShuffleB1(AddLanes(x5, x1)),
      ShuffleB1(AddLanes(x6, x2)), ShuffleB1(AddLanes(x7, x3)))
  {
    assert |s| == 32;
    hide Xor, Rotl, Plus, Half, Unrolled.Holds;
    Unrolled.SecondHalf(s,
      x0.a, x0.b, x0.c, x0.d, x1.a, x1.b, x1.c, x1.d,
      x2.a, x2.b, x2.c, x2.d, x3.a, x3.b, x3.c, x3.d,
      x4.a, x4.b, x4.c, x4.d, x5.a, x5.b, x5.c, x5.d,
      x6.a, x6.b, x6.c, x6.d, x7.a, x7.b, x7.c, x7.d);
  }

  method Rounds(ghost s: seq<Word>, n: nat, y0: Lanes, y1: Lanes, y2: Lanes, y3: Lanes, y4: Lanes, y5: Lanes, y6: Lanes, y7: Lanes)
    returns (x0: Lanes, x1: Lanes, x2: Lanes, x3: Lanes, x4: Lanes, x5: Lanes, x6: Lanes, x7: Lanes)
    requires |s| == 32 && Holds(Transformed(s, 0), y0, y1, y2, y3, y4, y5, y6, y7)
    ensures Holds(Transformed(s, n), x0, x1, x2, x3, x4, x5, x6, x7)
  {
    hide AddLanes, XorLanes, RotlLanes, Shuffle4e, ShuffleB1, Half, Round, Transformed, Holds;
    x0, x1, x2, x3, x4, x5, x6, x7 := y0, y1, y2, y3, y4, y5, y6, y7;
    var m := n;
    while m != 0
      invariant 0 <= m <= n && Holds(Transformed(s, n - m), x0, x1, x2, x3, x4, x5, x6, x7)
    {
      ghost var t := Transformed(s, n - m);
      TransformedNext(s, n - m);
      m := m - 1;
      FirstHalf(t, x0, x1, x2, x3, x4, x5, x6, x7);
      AddCommutes(x0, x4); AddCommutes(x1, x5); AddCommutes(x2, x6); AddCommutes(x3, x7);
      x4 := AddLanes(x0, x4);
      x5 := AddLanes(x1, x5);
      x6 := AddLanes(x2, x6);
      x7 := AddLanes(x3, x7);
      x0, x2 := x2, x0;
      x1, x3 := x3, x1;
      x0 := Rotate7(x0);
      x1 := Rotate7(x1);
      x2 := Rotate7(x2);
      x3 := Rotate7(x3);
      x0 := XorLanes(x0, x4);
      x1 := XorLanes(x1, x5);
      x2 := XorLanes(x2, x6);
      x3 := XorLanes(x3, x7);
      x4 := Shuffle4e(x4);
      x5 := Shuffle4e(x5);
      x6 := Shuffle4e(x6);
      x7 := Shuffle4e(x7);
      SecondHalf(Half(t, 8, 7, 2), x0, x1, x2, x3, x4, x5, x6, x7);
      AddCommutes(x0, x4); AddCommutes(x1, x5); AddCommutes(x2, x6); AddCommutes(x3, x7);
      x4 := AddLanes(x0, x4);
      x5 := AddLanes(x1, x5);
      x6 := AddLanes(x2, x6);
      x7 := AddLanes(x3, x7);
      x0, x1 := x1, x0;
      x2, x3 := x3, x2;
      x0 := Rotate11(x0);
      x1 := Rotate11(x1);
      x2 := Rotate11(x2);
      x3 := Rotate11(x3);
      x0 := XorLanes(x0, x4);
      x1 := XorLanes(x1, x5);
      x2 := XorLanes(x2, x6);
      x3 := XorLanes(x3, x7);
      x4 := ShuffleB1(x4);
      x5 := ShuffleB1(x5);
      x6 := ShuffleB1(x6);
      x7 := ShuffleB1(x7);
    }
  }

  /** _mm_loadu_si128 and _mm_storeu_si128. */
  method Load(state: array<Word>, k: nat) returns (x: Lanes)
    requires k + 4 <= state.Length
    ensures x == Lanes(state[k], state[k + 1], state[k + 2], state[k + 3])
  {
    x := Lanes(state[k], state[k + 1], state[k + 2], state[k + 3]);
  }

  method Store(state: array<Word>, k: nat, x: Lanes)
    requires k + 4 <= state.Length
    modifies state
    ensures state[k] == x.a && state[k + 1] == x.b && state[k + 2] == x.c && state[k + 3] == x.d
    ensures forall i :: 0 <= i < state.Length && !(k <= i < k + 4) ==> state[i] == old(state[i])
  {
    state[k], state[k + 1], state[k + 2], state[k + 3] := x.a, x.b, x.c, x.d;
  }

  method Transform(state: array<Word>, n: nat)
    requires state.Length == 32
    modifies state
    ensures state[..] == Transformed(old(state[..]), n)
  {
    hide Half, Round, Transformed;
    ghost var s := state[..];
    var x0 := Load(state, 0);
    var x1 := Load(state, 4);
    var x2 := Load(state, 8);
    var x3 := Load(state, 12);
    var x4 := Load(state, 16);
    var x5 := Load(state, 20);
    var x6 := Load(state, 24);
    var x7 := Load(state, 28);
    TransformedNone(s);
    x0, x1, x2, x3, x4, x5, x6, x7 := Rounds(s, n, x0, x1, x2, x3, x4, x5, x6, x7);
    Store(state, 0, x0);
    Store(state, 4, x1);
    Store(state, 8, x2);
    Store(state, 12, x3);
    Store(state, 16, x4);
    Store(state, 20, x5);
    Store(state, 24, x6);
    Store(state, 28, x7);
    Unrolled.OneState(state[..], Transformed(s, n),
      x0.a, x0.b, x0.c, x0.d, x1.a, x1.b, x1.c, x1.d,
      x2.a, x2.b, x2.c, x2.d, x3.a, x3.b, x3.c, x3.d,
      x4.a, x4.b, x4.c, x4.d, x5.a, x5.b, x5.c, x5.d,
      x6.a, x6.b, x6.c, x6.d, x7.a, x7.b, x7.c, x7.d);
  }
}
