/** Laws of the key schedule and of a round of Threefish, after sections 3.3.1 and 3.3.2 of
    the Skein specification (version 1.2).
  */
module ThreefishSchedule {
  import opened BasicFunctions
  import opened Threefish

  // ---- The subkeys ----

  function Zeros(n: nat): Block {
    seq(n, _ => Word(0))
  }

  /** Subkey s: what is added to a block of zeros. */
  function Injected(p: Policy, k: Schedule, s: nat): (b: Block)
    requires p.Valid() && k.Fits(p) && s < 0x1_0000_0000
    ensures |b| == p.words
  {
    AddSubkey(p, k, s, Zeros(p.words))
  }

  lemma ZeroPlus(x: Word)
    ensures Plus(Word(0), x) == x && Plus(x, Word(0)) == x
  {
  }

  lemma {:induction false} InjectedWord(p: Policy, k: Schedule, s: nat, i: nat)
    requires p.Valid() && k.Fits(p) && s < 0x1_0000_0000 && i < p.words
    ensures Injected(p, k, s)[i] == Subkey(p, k, s, i)
  {
    hide Plus, Subkey;
    ZeroPlus(Subkey(p, k, s, i));
  }

  /** Adding a subkey to any block is adding that block of words. */
  lemma {:induction false} SubkeyIsAdded(p: Policy, k: Schedule, s: nat, v: Block, i: nat)
    requires p.Valid() && k.Fits(p) && s < 0x1_0000_0000 && |v| == p.words && i < p.words
    ensures AddSubkey(p, k, s, v)[i] == Plus(v[i], Injected(p, k, s)[i])
  {
    hide Plus, Subkey;
    InjectedWord(p, k, s, i);
  }

  /** The first words of the subkeys go round the extended key. */
  lemma {:induction false} FirstWord(p: Policy, k: Schedule, s: nat)
    requires p.Valid() && k.Fits(p) && s < 0x1_0000_0000
    ensures Injected(p, k, s)[0] == k.key[s % (p.words + 1)]
  {
    hide Plus, Injected;
    InjectedWord(p, k, s, 0);
  }

  /** Up to the tweak, word i of a subkey is the first word of the subkey i later. */
  lemma {:induction false} WordsSlide(p: Policy, k: Schedule, s: nat, i: nat)
    requires p.Valid() && k.Fits(p) && s + i + 1 < 0x1_0000_0000 && i < p.words - 3
    ensures Injected(p, k, s)[i] == Injected(p, k, s + i)[0]
    ensures i + 1 < p.words - 3 ==> Injected(p, k, s + 1)[i] == Injected(p, k, s)[i + 1]
  {
    hide Plus, Injected;
    InjectedWord(p, k, s, i);
    InjectedWord(p, k, s + i, 0);
    InjectedWord(p, k, s + 1, i);
    InjectedWord(p, k, s, i + 1);
    assert s + 1 + i == s + (i + 1);
  }

  /** The schedule with no tweak. */
  function Untweaked(k: Schedule): Schedule {
    Schedule(k.key, [Word(0), Word(0), Word(0)])
  }

  lemma {:induction false} TweakGone(x: Word, t: Word)
    ensures Minus(Plus(x, t), Plus(x, Word(0))) == t
  {
    hide Plus, Minus;
    ZeroPlus(x);
    PlusTurned(x, t);
    AddSub(t, x);
  }

  lemma PlusTurned(x: Word, y: Word)
    ensures Plus(x, y) == Plus(y, x)
  {
  }

  /** What the tweak adds: word s mod 3 of the extended tweak to the third word from the end
      and the one after it to the second, on top of key words that slide as the others do. */
  lemma {:induction false} TweakWords(p: Policy, k: Schedule, s: nat)
    requires p.Valid() && k.Fits(p) && s + p.words < 0x1_0000_0000
    ensures
      var w, b, b0 := p.words, Injected(p, k, s), Injected(p, Untweaked(k), s);
      && Minus(b[w - 3], b0[w - 3]) == k.tweak[s % 3]
      && Minus(b[w - 2], b0[w - 2]) == k.tweak[(s + 1) % 3]
      && b0[w - 3] == Injected(p, k, s + w - 3)[0] && b0[w - 2] == Injected(p, k, s + w - 2)[0]
      && (forall i :: 0 <= i < w - 3 || i == w - 1 ==> b[i] == b0[i])
  {
    hide Plus, Minus, Injected, Policy.Valid;
    var w := p.words;
    var k0 := Untweaked(k);
    Wide(p);
    InjectedWord(p, k, s, w - 3);
    InjectedWord(p, k, s, w - 2);
    InjectedWord(p, k0, s, w - 3);
    InjectedWord(p, k0, s, w - 2);
    InjectedWord(p, k, s + w - 3, 0);
    InjectedWord(p, k, s + w - 2, 0);
    TweakGone(k.key[(s + (w - 3)) % (w + 1)], k.tweak[s % 3]);
    TweakGone(k.key[(s + (w - 2)) % (w + 1)], k.tweak[(s + 1) % 3]);
    ZeroPlus(k.key[(s + (w - 3)) % (w + 1)]);
    ZeroPlus(k.key[(s + (w - 2)) % (w + 1)]);
    forall i | 0 <= i < w - 3 || i == w - 1
      ensures Injected(p, k, s)[i] == Injected(p, k0, s)[i]
    {
      InjectedWord(p, k, s, i);
      InjectedWord(p, k0, s, i);
    }
  }

  lemma Wide(p: Policy)
    requires p.Valid()
    ensures p.words >= 4
  {
  }

  /** The last word counts the subkeys, on top of a key word that slides as the others do. */
  lemma {:induction false} LastWord(p: Policy, k: Schedule, s: nat)
    requires p.Valid() && k.Fits(p) && s + p.words < 0x1_0000_0000
    ensures Minus(Injected(p, k, s)[p.words - 1], Word(s as bv64)) == Injected(p, k, s + p.words - 1)[0]
  {
    hide Plus, Minus, Injected;
    var w := p.words;
    InjectedWord(p, k, s, w - 1);
    InjectedWord(p, k, s + w - 1, 0);
    AddSub(k.key[(s + (w - 1)) % (w + 1)], Word(s as bv64));
  }

  // ---- A round ----

  /** Every word after a round: MIX of the block with its subkey, every fourth round, read
      through the permutation. */
  lemma {:induction false} RoundWords(p: Policy, k: Schedule, d: nat, v: Block, e: Block, j: nat, i: nat)
    requires p.Valid() && k.Fits(p) && d < 0x1_0000_0000 && |v| == |e| == p.words && j < p.words / 2 && i < p.words
    requires forall i :: 0 <= i < p.words ==>
      e[i] == if d % 4 == 0 then Plus(v[i], Injected(p, k, d / 4)[i]) else v[i]
    ensures Round(p, k, d, v)[i] == Mix(p, d, e)[p.permutation[i]]
    ensures Mix(p, d, e)[2 * j] == Plus(e[2 * j], e[2 * j + 1])
    ensures Mix(p, d, e)[2 * j + 1] == Xor(Rotl(e[2 * j + 1], p.rotation[d % 8][j]), Plus(e[2 * j], e[2 * j + 1]))
  {
    hide Plus, Xor, Rotl, Injected, Mix, AddSubkey;
    MixPair(p, d, e, j);
    if d % 4 == 0 {
      forall i | 0 <= i < p.words ensures AddSubkey(p, k, d / 4, v)[i] == e[i] {
        SubkeyIsAdded(p, k, d / 4, v, i);
      }
      assert AddSubkey(p, k, d / 4, v) == e;
    } else {
      assert v == e;
    }
  }

  /** After the last round one more subkey is added. */
  lemma {:induction false} EncypheredWords(p: Policy, k: Schedule, v: Block, i: nat)
    requires p.Valid() && k.Fits(p) && p.rounds < 0x1_0000_0000 && |v| == p.words && i < p.words
    ensures Encyphered(p, k, v)[i] == Plus(Rounds(p, k, p.rounds, v)[i], Injected(p, k, p.rounds / 4)[i])
    ensures Rounds(p, k, 0, v) == v
    ensures p.rounds > 0 ==> Rounds(p, k, p.rounds, v) == Round(p, k, p.rounds - 1, Rounds(p, k, p.rounds - 1, v))
  {
    hide Plus, Injected, AddSubkey, Round;
    SubkeyIsAdded(p, k, p.rounds / 4, Rounds(p, k, p.rounds, v), i);
  }

  // ---- The permutations ----

  lemma {:induction false} Permuted256(x0: Word, x1: Word, x2: Word, x3: Word)
    ensures Policy256().Valid()
    ensures Permute(Policy256(), [x0, x1, x2, x3]) ==
      [x0, x3, x2, x1]
  {
    Policy256Valid();
  }

  lemma {:induction false} Permuted512(x0: Word, x1: Word, x2: Word, x3: Word, x4: Word, x5: Word, x6: Word, x7: Word)
    ensures Policy512().Valid()
    ensures Permute(Policy512(), [x0, x1, x2, x3, x4, x5, x6, x7]) ==
      [x2, x1, x4, x7, x6, x5, x0, x3]
  {
    Policy512Valid();
  }

  lemma {:induction false} Permuted16(p: Policy, f: Block)
    requires p.Valid() && |f| == p.words == 16
    requires p.permutation[0] == 0 && p.permutation[1] == 9 && p.permutation[2] == 2 && p.permutation[3] == 13
    requires p.permutation[4] == 6 && p.permutation[5] == 11 && p.permutation[6] == 4 && p.permutation[7] == 15
    requires p.permutation[8] == 10 && p.permutation[9] == 7 && p.permutation[10] == 12 && p.permutation[11] == 3
    requires p.permutation[12] == 14 && p.permutation[13] == 5 && p.permutation[14] == 8 && p.permutation[15] == 1
    ensures Permute(p, f) ==
      [f[0], f[9], f[2], f[13], f[6], f[11], f[4], f[15], f[10], f[7], f[12], f[3], f[14], f[5], f[8], f[1]]
  {
    hide Policy.Valid;
    var v := Permute(p, f);
    assert v[0] == f[0] && v[1] == f[9] && v[2] == f[2] && v[3] == f[13] && v[4] == f[6]
        && v[5] == f[11] && v[6] == f[4] && v[7] == f[15];
    assert v[8] == f[10] && v[9] == f[7] && v[10] == f[12] && v[11] == f[3] && v[12] == f[14]
        && v[13] == f[5] && v[14] == f[8] && v[15] == f[1];
  }

  lemma {:induction false} Permuted1024(f: Block)
    requires |f| == 16
    ensures Policy1024().Valid()
    ensures Permute(Policy1024(), f) ==
      [f[0], f[9], f[2], f[13], f[6], f[11], f[4], f[15], f[10], f[7], f[12], f[3], f[14], f[5], f[8], f[1]]
  {
    hide Policy.Valid, Permute;
    Policy1024Valid();
    Permuted16(Policy1024(), f);
  }

  function Twice(p: Policy, f: Block): Block
    requires p.Valid() && |f| == p.words
  {
    Permute(p, Permute(p, f))
  }

  /** Two permutations of the smallest block, and four of the others, undo one another. */
  lemma {:induction false} Cycle256(f: Block)
    requires |f| == 4
    ensures Policy256().Valid() && Twice(Policy256(), f) == f
  {
    hide Permute, Policy.Valid;
    Policy256Valid();
    var f0: Block := [f[0], f[1], f[2], f[3]];
    assert f == f0;
    Permuted256(f[0], f[1], f[2], f[3]);
    Permuted256(f[0], f[3], f[2], f[1]);
  }

  lemma {:induction false} Cycle512(f: Block)
    requires |f| == 8
    ensures Policy512().Valid() && Twice(Policy512(), Twice(Policy512(), f)) == f
  {
    hide Permute, Policy.Valid;
    Policy512Valid();
    var f0: Block := [f[0], f[1], f[2], f[3], f[4], f[5], f[6], f[7]];
    assert f == f0;
    Permuted512(f[0], f[1], f[2], f[3], f[4], f[5], f[6], f[7]);
    Permuted512(f[2], f[1], f[4], f[7], f[6], f[5], f[0], f[3]);
    Permuted512(f[4], f[1], f[6], f[3], f[0], f[5], f[2], f[7]);
    Permuted512(f[6], f[1], f[0], f[7], f[2], f[5], f[4], f[3]);
  }

  lemma {:induction false} Cycle1024(f: Block)
    requires |f| == 16
    ensures Policy1024().Valid() && Twice(Policy1024(), Twice(Policy1024(), f)) == f
  {
    hide Permute, Policy.Valid, Policy1024;
    Permuted1024(f);
    var f1 := Permute(Policy1024(), f);
    Permuted1024(f1);
    var f2 := Permute(Policy1024(), f1);
    Permuted1024(f2);
    Permuted1024(Permute(Policy1024(), f2));
  }

  // ---- The tables, by columns ----

  lemma Columns256(d: nat)
    ensures Policy256().rotation[d % 8][0] == [14, 52, 23, 5, 25, 46, 58, 32][d % 8]
    ensures Policy256().rotation[d % 8][1] == [16, 57, 40, 37, 33, 12, 22, 32][d % 8]
  {
  }

  lemma Columns512(d: nat)
    ensures Policy512().rotation[d % 8][0] == [46, 33, 17, 44, 39, 13, 25, 8][d % 8]
    ensures Policy512().rotation[d % 8][1] == [36, 27, 49, 9, 30, 50, 29, 35][d % 8]
    ensures Policy512().rotation[d % 8][2] == [19, 14, 36, 54, 34, 10, 39, 56][d % 8]
    ensures Policy512().rotation[d % 8][3] == [37, 42, 39, 56, 24, 17, 43, 22][d % 8]
  {
  }

  lemma Columns1024(d: nat)
    ensures Policy1024().rotation[d % 8][0] == [24, 38, 33, 5, 41, 16, 31, 9][d % 8]
    ensures Policy1024().rotation[d % 8][1] == [13, 19, 4, 20, 9, 34, 44, 48][d % 8]
    ensures Policy1024().rotation[d % 8][2] == [8, 10, 51, 48, 37, 56, 47, 35][d % 8]
    ensures Policy1024().rotation[d % 8][3] == [47, 55, 13, 41, 31, 51, 46, 52][d % 8]
    ensures Policy1024().rotation[d % 8][4] == [8, 49, 34, 47, 12, 4, 19, 23][d % 8]
    ensures Policy1024().rotation[d % 8][5] == [17, 18, 41, 28, 47, 53, 42, 31][d % 8]
    ensures Policy1024().rotation[d % 8][6] == [22, 23, 59, 16, 44, 42, 44, 37][d % 8]
    ensures Policy1024().rotation[d % 8][7] == [37, 52, 17, 25, 30, 41, 25, 20][d % 8]
  {
  }
}
