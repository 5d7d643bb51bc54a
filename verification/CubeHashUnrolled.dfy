/** The unrolled CubeHash transform of detail/cubehash_policy.hpp: 32 local words, and
    exchanges by assignment.
  */
module CubeHashUnrolled {
  import opened BasicFunctions32
  import opened CubeHash

  /** The words of s, each in its own variable. */
  predicate Holds(s: seq<Word>,
      x00000: Word, x00001: Word, x00010: Word, x00011: Word,
      x00100: Word, x00101: Word, x00110: Word, x00111: Word,
      x01000: Word, x01001: Word, x01010: Word, x01011: Word,
      x01100: Word, x01101: Word, x01110: Word, x01111: Word,
      x10000: Word, x10001: Word, x10010: Word, x10011: Word,
      x10100: Word, x10101: Word, x10110: Word, x10111: Word,
      x11000: Word, x11001: Word, x11010: Word, x11011: Word,
      x11100: Word, x11101: Word, x11110: Word, x11111: Word)
  {
    && |s| == 32
    && s[0] == x00000 && s[1] == x00001 && s[2] == x00010 && s[3] == x00011
    && s[4] == x00100 && s[5] == x00101 && s[6] == x00110 && s[7] == x00111
    && s[8] == x01000 && s[9] == x01001 && s[10] == x01010 && s[11] == x01011
    && s[12] == x01100 && s[13] == x01101 && s[14] == x01110 && s[15] == x01111
    && s[16] == x10000 && s[17] == x10001 && s[18] == x10010 && s[19] == x10011
    && s[20] == x10100 && s[21] == x10101 && s[22] == x10110 && s[23] == x10111
    && s[24] == x11000 && s[25] == x11001 && s[26] == x11010 && s[27] == x11011
    && s[28] == x11100 && s[29] == x11101 && s[30] == x11110 && s[31] == x11111
  }

  lemma Flips8()
    ensures Flip(0, 8) == 8 && Flip(1, 8) == 9 && Flip(2, 8) == 10 && Flip(3, 8) == 11 && Flip(4, 8) == 12 && Flip(5, 8) == 13 && Flip(6, 8) == 14 && Flip(7, 8) == 15
    ensures Flip(8, 8) == 0 && Flip(9, 8) == 1 && Flip(10, 8) == 2 && Flip(11, 8) == 3 && Flip(12, 8) == 4 && Flip(13, 8) == 5 && Flip(14, 8) == 6 && Flip(15, 8) == 7
  {
  }

  lemma Flips4()
    ensures Flip(0, 4) == 4 && Flip(1, 4) == 5 && Flip(2, 4) == 6 && Flip(3, 4) == 7 && Flip(4, 4) == 0 && Flip(5, 4) == 1 && Flip(6, 4) == 2 && Flip(7, 4) == 3
    ensures Flip(8, 4) == 12 && Flip(9, 4) == 13 && Flip(10, 4) == 14 && Flip(11, 4) == 15 && Flip(12, 4) == 8 && Flip(13, 4) == 9 && Flip(14, 4) == 10 && Flip(15, 4) == 11
  {
  }

  lemma Flips2()
    ensures Flip(0, 2) == 2 && Flip(1, 2) == 3 && Flip(2, 2) == 0 && Flip(3, 2) == 1 && Flip(4, 2) == 6 && Flip(5, 2) == 7 && Flip(6, 2) == 4 && Flip(7, 2) == 5
    ensures Flip(8, 2) == 10 && Flip(9, 2) == 11 && Flip(10, 2) == 8 && Flip(11, 2) == 9 && Flip(12, 2) == 14 && Flip(13, 2) == 15 && Flip(14, 2) == 12 && Flip(15, 2) == 13
  {
  }

  lemma Flips1()
    ensures Flip(0, 1) == 1 && Flip(1, 1) == 0 && Flip(2, 1) == 3 && Flip(3, 1) == 2 && Flip(4, 1) == 5 && Flip(5, 1) == 4 && Flip(6, 1) == 7 && Flip(7, 1) == 6
    ensures Flip(8, 1) == 9 && Flip(9, 1) == 8 && Flip(10, 1) == 11 && Flip(11, 1) == 10 && Flip(12, 1) == 13 && Flip(13, 1) == 12 && Flip(14, 1) == 15 && Flip(15, 1) == 14
  {
  }

  /** The first half round, with its flips carried out. */
  lemma {:induction false} FirstHalf(s: seq<Word>,
      x00000: Word, x00001: Word, x00010: Word, x00011: Word,
      x00100: Word, x00101: Word, x00110: Word, x00111: Word,
      x01000: Word, x01001: Word, x01010: Word, x01011: Word,
      x01100: Word, x01101: Word, x01110: Word, x01111: Word,
      x10000: Word, x10001: Word, x10010: Word, x10011: Word,
      x10100: Word, x10101: Word, x10110: Word, x10111: Word,
      x11000: Word, x11001: Word, x11010: Word, x11011: Word,
      x11100: Word, x11101: Word, x11110: Word, x11111: Word)
    requires Holds(s,
      x00000, x00001, x00010, x00011, x00100, x00101, x00110, x00111,
      x01000, x01001, x01010, x01011, x01100, x01101, x01110, x01111,
      x10000, x10001, x10010, x10011, x10100, x10101, x10110, x10111,
      x11000, x11001, x11010, x11011, x11100, x11101, x11110, x11111)
    ensures Holds(Half(s, 8, 7, 2),
      Xor(Rotl(x01000, 7), Plus(x10000, x00000)), Xor(Rotl(x01001, 7), Plus(x10001, x00001)),
      Xor(Rotl(x01010, 7), Plus(x10010, x00010)), Xor(Rotl(x01011, 7), Plus(x10011, x00011)),
      Xor(Rotl(x01100, 7), Plus(x10100, x00100)), Xor(Rotl(x01101, 7), Plus(x10101, x00101)),
      Xor(Rotl(x01110, 7), Plus(x10110, x00110)), Xor(Rotl(x01111, 7), Plus(x10111, x00111)),
      Xor(Rotl(x00000, 7), Plus(x11000, x01000)), Xor(Rotl(x00001, 7), Plus(x11001, x01001)),
      Xor(Rotl(x00010, 7), Plus(x11010, x01010)), Xor(Rotl(x00011, 7), Plus(x11011, x01011)),
      Xor(Rotl(x00100, 7), Plus(x11100, x01100)), Xor(Rotl(x00101, 7), Plus(x11101, x01101)),
      Xor(Rotl(x00110, 7), Plus(x11110, x01110)), Xor(Rotl(x00111, 7), Plus(x11111, x01111)),
      Plus(x10010, x00010), Plus(x10011, x00011), Plus(x10000, x00000), Plus(x10001, x00001),
      Plus(x10110, x00110), Plus(x10111, x00111), Plus(x10100, x00100), Plus(x10101, x00101),
      Plus(x11010, x01010), Plus(x11011, x01011), Plus(x11000, x01000), Plus(x11001, x01001),
      Plus(x11110, x01110), Plus(x11111, x01111), Plus(x11100, x01100), Plus(x11101, x01101))
  {
    hide Xor, Rotl, Plus, Flip, Half;
    Flips8();
    Flips2();
    HalfLow(s, 8, 7, 2, 0); HalfHigh(s, 8, 7, 2, 0);
    HalfLow(s, 8, 7, 2, 1); HalfHigh(s, 8, 7, 2, 1);
    HalfLow(s, 8, 7, 2, 2); HalfHigh(s, 8, 7, 2, 2);
    HalfLow(s, 8, 7, 2, 3); HalfHigh(s, 8, 7, 2, 3);
    HalfLow(s, 8, 7, 2, 4); HalfHigh(s, 8, 7, 2, 4);
    HalfLow(s, 8, 7, 2, 5); HalfHigh(s, 8, 7, 2, 5);
    HalfLow(s, 8, 7, 2, 6); HalfHigh(s, 8, 7, 2, 6);
    HalfLow(s, 8, 7, 2, 7); HalfHigh(s, 8, 7, 2, 7);
    HalfLow(s, 8, 7, 2, 8); HalfHigh(s, 8, 7, 2, 8);
    HalfLow(s, 8, 7, 2, 9); HalfHigh(s, 8, 7, 2, 9);
    HalfLow(s, 8, 7, 2, 10); HalfHigh(s, 8, 7, 2, 10);
    HalfLow(s, 8, 7, 2, 11); HalfHigh(s, 8, 7, 2, 11);
    HalfLow(s, 8, 7, 2, 12); HalfHigh(s, 8, 7, 2, 12);
    HalfLow(s, 8, 7, 2, 13); HalfHigh(s, 8, 7, 2, 13);
    HalfLow(s, 8, 7, 2, 14); HalfHigh(s, 8, 7, 2, 14);
    HalfLow(s, 8, 7, 2, 15); HalfHigh(s, 8, 7, 2, 15);
  }

  /** The second half round. */
  lemma {:induction false} SecondHalf(s: seq<Word>,
      x00000: Word, x00001: Word, x00010: Word, x00011: Word,
      x00100: Word, x00101: Word, x00110: Word, x00111: Word,
      x01000: Word, x01001: Word, x01010: Word, x01011: Word,
      x01100: Word, x01101: Word, x01110: Word, x01111: Word,
      x10000: Word, x10001: Word, x10010: Word, x10011: Word,
      x10100: Word, x10101: Word, x10110: Word, x10111: Word,
      x11000: Word, x11001: Word, x11010: Word, x11011: Word,
      x11100: Word, x11101: Word, x11110: Word, x11111: Word)
    requires Holds(s,
      x00000, x00001, x00010, x00011, x00100, x00101, x00110, x00111,
      x01000, x01001, x01010, x01011, x01100, x01101, x01110, x01111,
      x10000, x10001, x10010, x10011, x10100, x10101, x10110, x10111,
      x11000, x11001, x11010, x11011, x11100, x11101, x11110, x11111)
    ensures Holds(Half(s, 4, 11, 1),
      Xor(Rotl(x00100, 11), Plus(x10000, x00000)), Xor(Rotl(x00101, 11), Plus(x10001, x00001)),
      Xor(Rotl(x00110, 11), Plus(x10010, x00010)), Xor(Rotl(x00111, 11), Plus(x10011, x00011)),
      Xor(Rotl(x00000, 11), Plus(x10100, x00100)), Xor(Rotl(x00001, 11), Plus(x10101, x00101)),
      Xor(Rotl(x00010, 11), Plus(x10110, x00110)), Xor(Rotl(x00011, 11), Plus(x10111, x00111)),
      Xor(Rotl(x01100, 11), Plus(x11000, x01000)), Xor(Rotl(x01101, 11), Plus(x11001, x01001)),
      Xor(Rotl(x01110, 11), Plus(x11010, x01010)), Xor(Rotl(x01111, 11), Plus(x11011, x01011)),
      Xor(Rotl(x01000, 11), Plus(x11100, x01100)), Xor(Rotl(x01001, 11), Plus(x11101, x01101)),
      Xor(Rotl(x01010, 11), Plus(x11110, x01110)), Xor(Rotl(x01011, 11), Plus(x11111, x01111)),
      Plus(x10001, x00001), Plus(x10000, x00000), Plus(x10011, x00011), Plus(x10010, x00010),
      Plus(x10101, x00101), Plus(x10100, x00100), Plus(x10111, x00111), Plus(x10110, x00110),
      Plus(x11001, x01001), Plus(x11000, x01000), Plus(x11011, x01011), Plus(x11010, x01010),
      Plus(x11101, x01101), Plus(x11100, x01100), Plus(x11111, x01111), Plus(x11110, x01110))
  {
    hide Xor, Rotl, Plus, Flip, Half;
    Flips4();
    Flips1();
    HalfLow(s, 4, 11, 1, 0); HalfHigh(s, 4, 11, 1, 0);
    HalfLow(s, 4, 11, 1, 1); HalfHigh(s, 4, 11, 1, 1);
    HalfLow(s, 4, 11, 1, 2); HalfHigh(s, 4, 11, 1, 2);
    HalfLow(s, 4, 11, 1, 3); HalfHigh(s, 4, 11, 1, 3);
    HalfLow(s, 4, 11, 1, 4); HalfHigh(s, 4, 11, 1, 4);
    HalfLow(s, 4, 11, 1, 5); HalfHigh(s, 4, 11, 1, 5);
    HalfLow(s, 4, 11, 1, 6); HalfHigh(s, 4, 11, 1, 6);
    HalfLow(s, 4, 11, 1, 7); HalfHigh(s, 4, 11, 1, 7);
    HalfLow(s, 4, 11, 1, 8); HalfHigh(s, 4, 11, 1, 8);
    HalfLow(s, 4, 11, 1, 9); HalfHigh(s, 4, 11, 1, 9);
    HalfLow(s, 4, 11, 1, 10); HalfHigh(s, 4, 11, 1, 10);
    HalfLow(s, 4, 11, 1, 11); HalfHigh(s, 4, 11, 1, 11);
    HalfLow(s, 4, 11, 1, 12); HalfHigh(s, 4, 11, 1, 12);
    HalfLow(s, 4, 11, 1, 13); HalfHigh(s, 4, 11, 1, 13);
    HalfLow(s, 4, 11, 1, 14); HalfHigh(s, 4, 11, 1, 14);
    HalfLow(s, 4, 11, 1, 15); HalfHigh(s, 4, 11, 1, 15);
  }

  method Transform(state: array<Word>, n: nat)
    requires state.Length == 32
    modifies state
    ensures state[..] == Transformed(old(state[..]), n)
  {
    hide Xor, Rotl, Plus, Half, Round, Transformed;
    ghost var s := state[..];
    var x00000, x00001, x00010, x00011 := state[0], state[1], state[2], state[3];
    var x00100, x00101, x00110, x00111 := state[4], state[5], state[6], state[7];
    var x01000, x01001, x01010, x01011 := state[8], state[9], state[10], state[11];
    var x01100, x01101, x01110, x01111 := state[12], state[13], state[14], state[15];
    var x10000, x10001, x10010, x10011 := state[16], state[17], state[18], state[19];
    var x10100, x10101, x10110, x10111 := state[20], state[21], state[22], state[23];
    var x11000, x11001, x11010, x11011 := state[24], state[25], state[26], state[27];
    var x11100, x11101, x11110, x11111 := state[28], state[29], state[30], state[31];
    TransformedNone(s);
    assert Holds(Transformed(s, 0),
        x00000, x00001, x00010, x00011, x00100, x00101, x00110, x00111,
        x01000, x01001, x01010, x01011, x01100, x01101, x01110, x01111,
        x10000, x10001, x10010, x10011, x10100, x10101, x10110, x10111,
        x11000, x11001, x11010, x11011, x11100, x11101, x11110, x11111);
    x00000, x00001, x00010, x00011, x00100, x00101, x00110, x00111,
    x01000, x01001, x01010, x01011, x01100, x01101, x01110, x01111,
    x10000, x10001, x10010, x10011, x10100, x10101, x10110, x10111,
    x11000, x11001, x11010, x11011, x11100, x11101, x11110, x11111 := Rounds(s, n,
        x00000, x00001, x00010, x00011, x00100, x00101, x00110, x00111,
        x01000, x01001, x01010, x01011, x01100, x01101, x01110, x01111,
        x10000, x10001, x10010, x10011, x10100, x10101, x10110, x10111,
        x11000, x11001, x11010, x11011, x11100, x11101, x11110, x11111);
    Store(state, 0, x00000, x00001, x00010, x00011);
    Store(state, 4, x00100, x00101, x00110, x00111);
    Store(state, 8, x01000, x01001, x01010, x01011);
    Store(state, 12, x01100, x01101, x01110, x01111);
    Store(state, 16, x10000, x10001, x10010, x10011);
    Store(state, 20, x10100, x10101, x10110, x10111);
    Store(state, 24, x11000, x11001, x11010, x11011);
    Store(state, 28, x11100, x11101, x11110, x11111);
    OneState(state[..], Transformed(s, n),
        x00000, x00001, x00010, x00011, x00100, x00101, x00110, x00111,
        x01000, x01001, x01010, x01011, x01100, x01101, x01110, x01111,
        x10000, x10001, x10010, x10011, x10100, x10101, x10110, x10111,
        x11000, x11001, x11010, x11011, x11100, x11101, x11110, x11111);
  }

  /** The 32 variables determine the state. */
  lemma OneState(s: seq<Word>, t: seq<Word>,
      x00000: Word, x00001: Word, x00010: Word, x00011: Word,
      x00100: Word, x00101: Word, x00110: Word, x00111: Word,
      x01000: Word, x01001: Word, x01010: Word, x01011: Word,
      x01100: Word, x01101: Word, x01110: Word, x01111: Word,
      x10000: Word, x10001: Word, x10010: Word, x10011: Word,
      x10100: Word, x10101: Word, x10110: Word, x10111: Word,
      x11000: Word, x11001: Word, x11010: Word, x11011: Word,
      x11100: Word, x11101: Word, x11110: Word, x11111: Word)
    requires Holds(s,
      x00000, x00001, x00010, x00011, x00100, x00101, x00110, x00111,
      x01000, x01001, x01010, x01011, x01100, x01101, x01110, x01111,
      x10000, x10001, x10010, x10011, x10100, x10101, x10110, x10111,
      x11000, x11001, x11010, x11011, x11100, x11101, x11110, x11111)
    requires Holds(t,
      x00000, x00001, x00010, x00011, x00100, x00101, x00110, x00111,
      x01000, x01001, x01010, x01011, x01100, x01101, x01110, x01111,
      x10000, x10001, x10010, x10011, x10100, x10101, x10110, x10111,
      x11000, x11001, x11010, x11011, x11100, x11101, x11110, x11111)
    ensures s == t
  {
  }

  method Store(state: array<Word>, k: nat, a: Word, b: Word, c: Word, d: Word)
    requires k + 4 <= state.Length
    modifies state
    ensures state[k] == a && state[k + 1] == b && state[k + 2] == c && state[k + 3] == d
    ensures forall i :: 0 <= i < state.Length && !(k <= i < k + 4) ==> state[i] == old(state[i])
  {
    state[k], state[k + 1], state[k + 2], state[k + 3] := a, b, c, d;
  }

  method Rounds(ghost s: seq<Word>, n: nat,
      y00000: Word, y00001: Word, y00010: Word, y00011: Word,
      y00100: Word, y00101: Word, y00110: Word, y00111: Word,
      y01000: Word, y01001: Word, y01010: Word, y01011: Word,
      y01100: Word, y01101: Word, y01110: Word, y01111: Word,
      y10000: Word, y10001: Word, y10010: Word, y10011: Word,
      y10100: Word, y10101: Word, y10110: Word, y10111: Word,
      y11000: Word, y11001: Word, y11010: Word, y11011: Word,
      y11100: Word, y11101: Word, y11110: Word, y11111: Word)
    returns (
      x00000: Word, x00001: Word, x00010: Word, x00011: Word,
      x00100: Word, x00101: Word, x00110: Word, x00111: Word,
      x01000: Word, x01001: Word, x01010: Word, x01011: Word,
      x01100: Word, x01101: Word, x01110: Word, x01111: Word,
      x10000: Word, x10001: Word, x10010: Word, x10011: Word,
      x10100: Word, x10101: Word, x10110: Word, x10111: Word,
      x11000: Word, x11001: Word, x11010: Word, x11011: Word,
      x11100: Word, x11101: Word, x11110: Word, x11111: Word)
    requires |s| == 32
    requires Holds(Transformed(s, 0),
      y00000, y00001, y00010, y00011, y00100, y00101, y00110, y00111,
      y01000, y01001, y01010, y01011, y01100, y01101, y01110, y01111,
      y10000, y10001, y10010, y10011, y10100, y10101, y10110, y10111,
      y11000, y11001, y11010, y11011, y11100, y11101, y11110, y11111)
    ensures Holds(Transformed(s, n),
      x00000, x00001, x00010, x00011, x00100, x00101, x00110, x00111,
      x01000, x01001, x01010, x01011, x01100, x01101, x01110, x01111,
      x10000, x10001, x10010, x10011, x10100, x10101, x10110, x10111,
      x11000, x11001, x11010, x11011, x11100, x11101, x11110, x11111)
  {
    hide Xor, Rotl, Plus, Half, Round, Transformed, Holds;
    x00000, x00001, x00010, x00011 := y00000, y00001, y00010, y00011;
    x00100, x00101, x00110, x00111 := y00100, y00101, y00110, y00111;
    x01000, x01001, x01010, x01011 := y01000, y01001, y01010, y01011;
    x01100, x01101, x01110, x01111 := y01100, y01101, y01110, y01111;
    x10000, x10001, x10010, x10011 := y10000, y10001, y10010, y10011;
    x10100, x10101, x10110, x10111 := y10100, y10101, y10110, y10111;
    x11000, x11001, x11010, x11011 := y11000, y11001, y11010, y11011;
    x11100, x11101, x11110, x11111 := y11100, y11101, y11110, y11111;
    var m := n;
    while m != 0
      invariant 0 <= m <= n
      invariant Holds(Transformed(s, n - m),
        x00000, x00001, x00010, x00011, x00100, x00101, x00110, x00111,
        x01000, x01001, x01010, x01011, x01100, x01101, x01110, x01111,
        x10000, x10001, x10010, x10011, x10100, x10101, x10110, x10111,
        x11000, x11001, x11010, x11011, x11100, x11101, x11110, x11111)
    {
      ghost var t := Transformed(s, n - m);
      TransformedNext(s, n - m);
      m := m - 1;
      FirstHalf(t,
        x00000, x00001, x00010, x00011, x00100, x00101, x00110, x00111,
        x01000, x01001, x01010, x01011, x01100, x01101, x01110, x01111,
        x10000, x10001, x10010, x10011, x10100, x10101, x10110, x10111,
        x11000, x11001, x11010, x11011, x11100, x11101, x11110, x11111);
      // The upper words become the sums of the half round.
      x10000, x10001, x10010, x10011 := Plus(x10000, x00000), Plus(x10001, x00001), Plus(x10010, x00010), Plus(x10011, x00011);
      x10100, x10101, x10110, x10111 := Plus(x10100, x00100), Plus(x10101, x00101), Plus(x10110, x00110), Plus(x10111, x00111);
      x11000, x11001, x11010, x11011 := Plus(x11000, x01000), Plus(x11001, x01001), Plus(x11010, x01010), Plus(x11011, x01011);
      x11100, x11101, x11110, x11111 := Plus(x11100, x01100), Plus(x11101, x01101), Plus(x11110, x01110), Plus(x11111, x01111);
      // The lower words turn by 7.
      x00000, x00001, x00010, x00011 := Rotl(x00000, 7), Rotl(x00001, 7), Rotl(x00010, 7), Rotl(x00011, 7);
      x00100, x00101, x00110, x00111 := Rotl(x00100, 7), Rotl(x00101, 7), Rotl(x00110, 7), Rotl(x00111, 7);
      x01000, x01001, x01010, x01011 := Rotl(x01000, 7), Rotl(x01001, 7), Rotl(x01010, 7), Rotl(x01011, 7);
      x01100, x01101, x01110, x01111 := Rotl(x01100, 7), Rotl(x01101, 7), Rotl(x01110, 7), Rotl(x01111, 7);
      // Flip(i, 8): lower words eight apart trade places.
      x00000, x01000, x00001, x01001 := x01000, x00000, x01001, x00001;
      x00010, x01010, x00011, x01011 := x01010, x00010, x01011, x00011;
      x00100, x01100, x00101, x01101 := x01100, x00100, x01101, x00101;
      x00110, x01110, x00111, x01111 := x01110, x00110, x01111, x00111;
      // With the sums xored in, the lower words are those of FirstHalf.
      x00000, x00001, x00010, x00011 := Xor(x00000, x10000), Xor(x00001, x10001), Xor(x00010, x10010), Xor(x00011, x10011);
      x00100, x00101, x00110, x00111 := Xor(x00100, x10100), Xor(x00101, x10101), Xor(x00110, x10110), Xor(x00111, x10111);
      x01000, x01001, x01010, x01011 := Xor(x01000, x11000), Xor(x01001, x11001), Xor(x01010, x11010), Xor(x01011, x11011);
      x01100, x01101, x01110, x01111 := Xor(x01100, x11100), Xor(x01101, x11101), Xor(x01110, x11110), Xor(x01111, x11111);
      // Flip(i, 2): the sums move to the places FirstHalf gives them.
      x10000, x10010, x10001, x10011 := x10010, x10000, x10011, x10001;
      x10100, x10110, x10101, x10111 := x10110, x10100, x10111, x10101;
      x11000, x11010, x11001, x11011 := x11010, x11000, x11011, x11001;
      x11100, x11110, x11101, x11111 := x11110, x11100, x11111, x11101;
      SecondHalf(Half(t, 8, 7, 2),
        x00000, x00001, x00010, x00011, x00100, x00101, x00110, x00111,
        x01000, x01001, x01010, x01011, x01100, x01101, x01110, x01111,
        x10000, x10001, x10010, x10011, x10100, x10101, x10110, x10111,
        x11000, x11001, x11010, x11011, x11100, x11101, x11110, x11111);
      // The sums again, for the second half round.
      x10000, x10001, x10010, x10011 := Plus(x10000, x00000), Plus(x10001, x00001), Plus(x10010, x00010), Plus(x10011, x00011);
      x10100, x10101, x10110, x10111 := Plus(x10100, x00100), Plus(x10101, x00101), Plus(x10110, x00110), Plus(x10111, x00111);
      x11000, x11001, x11010, x11011 := Plus(x11000, x01000), Plus(x11001, x01001), Plus(x11010, x01010), Plus(x11011, x01011);
      x11100, x11101, x11110, x11111 := Plus(x11100, x01100), Plus(x11101, x01101), Plus(x11110, x01110), Plus(x11111, x01111);
      // The lower words turn by 11.
      x00000, x00001, x00010, x00011 := Rotl(x00000, 11), Rotl(x00001, 11), Rotl(x00010, 11), Rotl(x00011, 11);
      x00100, x00101, x00110, x00111 := Rotl(x00100, 11), Rotl(x00101, 11), Rotl(x00110, 11), Rotl(x00111, 11);
      x01000, x01001, x01010, x01011 := Rotl(x01000, 11), Rotl(x01001, 11), Rotl(x01010, 11), Rotl(x01011, 11);
      x01100, x01101, x01110, x01111 := Rotl(x01100, 11), Rotl(x01101, 11), Rotl(x01110, 11), Rotl(x01111, 11);
      // Flip(i, 4): lower words four apart trade places.
      x00000, x00100, x00001, x00101 := x00100, x00000, x00101, x00001;
      x00010, x00110, x00011, x00111 := x00110, x00010, x00111, x00011;
      x01000, x01100, x01001, x01101 := x01100, x01000, x01101, x01001;
      x01010, x01110, x01011, x01111 := x01110, x01010, x01111, x01011;
      // With these sums xored in, the lower words are those of SecondHalf.
      x00000, x00001, x00010, x00011 := Xor(x00000, x10000), Xor(x00001, x10001), Xor(x00010, x10010), Xor(x00011, x10011);
      x00100, x00101, x00110, x00111 := Xor(x00100, x10100), Xor(x00101, x10101), Xor(x00110, x10110), Xor(x00111, x10111);
      x01000, x01001, x01010, x01011 := Xor(x01000, x11000), Xor(x01001, x11001), Xor(x01010, x11010), Xor(x01011, x11011);
      x01100, x01101, x01110, x01111 := Xor(x01100, x11100), Xor(x01101, x11101), Xor(x01110, x11110), Xor(x01111, x11111);
      // Flip(i, 1): neighbouring sums trade places, as in SecondHalf.
      x10000, x10001, x10010, x10011 := x10001, x10000, x10011, x10010;
      x10100, x10101, x10110, x10111 := x10101, x10100, x10111, x10110;
      x11000, x11001, x11010, x11011 := x11001, x11000, x11011, x11010;
      x11100, x11101, x11110, x11111 := x11101, x11100, x11111, x11110;
    }
  }
}
