/** block_cyphers/threefish.hpp with detail/threefish_policy.hpp.

    The cypher is specified one round at a time, as section 3.3 of the Skein
    specification (version 1.2) does, with an inverse written independently for each
    step.  The class keeps the C++ loops: four rounds to a subkey, a MIX into a second
    block, a permutation back.
  */
module Threefish {
  import opened BasicFunctions

  type Block = seq<Word>

  /** The constants of one version. */
  datatype Policy = Policy(words: nat, rounds: nat, permutation: seq<nat>, rotation: seq<seq<Amount>>) {
    predicate Valid() {
      && words >= 4 && words % 2 == 0
      && rounds % 4 == 0
      && |permutation| == words && Bijective(permutation)
      && |rotation| == 8
      && (forall d :: 0 <= d < 8 ==> |rotation[d]| == words / 2)
    }

    function Rot(d: nat, j: nat): Amount
      requires Valid() && j < words / 2
    {
      rotation[d % 8][j]
    }
  }

  /** Every index below |s| occurs in s exactly once. */
  predicate Bijective(s: seq<nat>) {
    && (forall i :: 0 <= i < |s| ==> s[i] < |s|)
    && (forall i, j :: 0 <= i < j < |s| ==> s[i] != s[j])
    && (forall i :: 0 <= i < |s| ==> i in s)
  }

  lemma Shape(p: Policy)
    requires p.Valid()
    ensures p.words == 2 * (p.words / 2) && p.rounds % 4 == 0
  {
    hide Bijective;
  }

  function Policy256(): Policy {
    Policy(4, 72, [0, 3, 2, 1],
      [[14, 16], [52, 57], [23, 40], [5, 37], [25, 33], [46, 12], [58, 22], [32, 32]])
  }

  function Policy512(): Policy {
    Policy(8, 72, [2, 1, 4, 7, 6, 5, 0, 3],
      [[46, 36, 19, 37], [33, 27, 14, 42], [17, 49, 36, 39], [44, 9, 54, 56],
       [39, 30, 34, 24], [13, 50, 10, 17], [25, 29, 39, 43], [8, 35, 56, 22]])
  }

  function Policy1024(): Policy {
    Policy(16, 80, [0, 9, 2, 13, 6, 11, 4, 15, 10, 7, 12, 3, 14, 5, 8, 1],
      [[24, 13, 8, 47, 8, 17, 22, 37], [38, 19, 10, 55, 49, 18, 23, 52],
       [33, 4, 51, 13, 34, 41, 59, 17], [5, 20, 48, 41, 47, 28, 16, 25],
       [41, 9, 37, 31, 12, 47, 44, 30], [16, 34, 56, 51, 4, 53, 42, 41],
       [31, 44, 47, 46, 19, 42, 44, 25], [9, 48, 35, 52, 23, 31, 37, 20]])
  }

  /** A permutation listed with its inverse. */
  predicate Inverse(p: seq<nat>, q: seq<nat>) {
    && |p| == |q|
    && forall i :: 0 <= i < |p| ==> p[i] < |q| && q[p[i]] == i && q[i] < |p| && p[q[i]] == i
  }

  lemma {:induction false} InverseBijective(p: seq<nat>, q: seq<nat>)
    requires Inverse(p, q)
    ensures Bijective(p)
  {
    forall i, j | 0 <= i < j < |p| ensures p[i] != p[j] {
      assert q[p[i]] == i && q[p[j]] == j;
    }
    forall i | 0 <= i < |p| ensures i in p {
      assert p[q[i]] == i;
    }
  }

  lemma Inverse256(p: seq<nat>, q: seq<nat>)
    requires |p| == |q| == 4
    requires p[0] == 0 && p[1] == 3 && p[2] == 2 && p[3] == 1
    requires q[0] == 0 && q[1] == 3 && q[2] == 2 && q[3] == 1
    ensures Inverse(p, q)
  {
  }

  lemma {:induction false} Policy256Valid()
    ensures Policy256().Valid()
  {
    hide Inverse, Bijective;
    var p := Policy256().permutation;
    var q := [0, 3, 2, 1];
    Inverse256(p, q);
    InverseBijective(p, q);
  }

  lemma Inverse512(p: seq<nat>, q: seq<nat>)
    requires |p| == |q| == 8
    requires p[0] == 2 && p[1] == 1 && p[2] == 4 && p[3] == 7 && p[4] == 6 && p[5] == 5 && p[6] == 0 && p[7] == 3
    requires q[0] == 6 && q[1] == 1 && q[2] == 0 && q[3] == 7 && q[4] == 2 && q[5] == 5 && q[6] == 4 && q[7] == 3
    ensures Inverse(p, q)
  {
  }

  lemma {:induction false} Policy512Valid()
    ensures Policy512().Valid()
  {
    hide Inverse, Bijective;
    var p := Policy512().permutation;
    var q := [6, 1, 0, 7, 2, 5, 4, 3];
    Inverse512(p, q);
    InverseBijective(p, q);
  }

  lemma Inverse1024(p: seq<nat>, q: seq<nat>)
    requires |p| == |q| == 16
    requires p[0] == 0 && p[1] == 9 && p[2] == 2 && p[3] == 13 && p[4] == 6 && p[5] == 11 && p[6] == 4 && p[7] == 15
    requires p[8] == 10 && p[9] == 7 && p[10] == 12 && p[11] == 3 && p[12] == 14 && p[13] == 5 && p[14] == 8 && p[15] == 1
    requires q[0] == 0 && q[1] == 15 && q[2] == 2 && q[3] == 11 && q[4] == 6 && q[5] == 13 && q[6] == 4 && q[7] == 9
    requires q[8] == 14 && q[9] == 1 && q[10] == 8 && q[11] == 5 && q[12] == 10 && q[13] == 3 && q[14] == 12 && q[15] == 7
    ensures Inverse(p, q)
  {
  }

  lemma {:induction false} Policy1024Valid()
    ensures Policy1024().Valid()
  {
    hide Inverse, Bijective;
    var p := Policy1024().permutation;
    var q := [0, 15, 2, 11, 6, 13, 4, 9, 14, 1, 8, 5, 10, 3, 12, 7];
    Inverse1024(p, q);
    InverseBijective(p, q);
  }

  // ---- Key material ----

  /** The schedules a cypher works from: one word more than the key and the tweak. */
  datatype Schedule = Schedule(key: seq<Word>, tweak: seq<Word>) {
    predicate Fits(p: Policy) {
      |key| == p.words + 1 && |tweak| == 3
    }
  }

  function XorAll(seed: Word, key: seq<Word>): Word {
    if key == [] then seed else Xor(XorAll(seed, key[..|key| - 1]), key[|key| - 1])
  }

  const PARITY: Word := Word(0x5555555555555555)

  function ExtendKey(key: seq<Word>): seq<Word> {
    key + [XorAll(PARITY, key)]
  }

  function ExtendTweak(tweak: seq<Word>): seq<Word>
    requires |tweak| == 2
  {
    [tweak[0], tweak[1], Xor(tweak[0], tweak[1])]
  }

  /** The words of an extended key always cancel to the same constant. */
  lemma {:induction false} ParityOfExtendedKey(key: seq<Word>)
    ensures |ExtendKey(key)| == |key| + 1 && ExtendKey(key)[..|key|] == key
    ensures XorAll(Word(0), ExtendKey(key)) == Word(0x5555_5555_5555_5555)
  {
    hide Xor;
    var all := ExtendKey(key);
    assert all[..|all| - 1] == key;
    XorFromSeed(PARITY, key);
    XorLaws(XorAll(Word(0), key), PARITY, PARITY);
    XorLaws(XorAll(Word(0), key), Xor(XorAll(Word(0), key), PARITY), PARITY);
    XorLaws(PARITY, XorAll(Word(0), key), PARITY);
  }

  lemma {:induction false} XorFromSeed(seed: Word, key: seq<Word>)
    ensures XorAll(seed, key) == Xor(XorAll(Word(0), key), seed)
  {
    hide Xor;
    XorLaws(Word(0), seed, seed);
    if key != [] {
      XorFromSeed(seed, key[..|key| - 1]);
      XorLaws(XorAll(Word(0), key[..|key| - 1]), key[|key| - 1], seed);
    }
  }

  function AsWord(s: nat): Word
    requires s < 0x1_0000_0000
  {
    Word(s as bv64)
  }

  /** Word i of subkey s. */
  function Subkey(p: Policy, k: Schedule, s: nat, i: nat): Word
    requires p.Valid() && k.Fits(p) && s < 0x1_0000_0000
  {
    var x := k.key[(s + i) % (p.words + 1)];
    if i == p.words - 3 then Plus(x, k.tweak[s % 3])
    else if i == p.words - 2 then Plus(x, k.tweak[(s + 1) % 3])
    else if i == p.words - 1 then Plus(x, AsWord(s))
    else x
  }

  // ---- One round and its inverse ----

  function AddSubkey(p: Policy, k: Schedule, s: nat, v: Block): (r: Block)
    requires p.Valid() && k.Fits(p) && s < 0x1_0000_0000 && |v| == p.words
    ensures |r| == p.words
  {
    seq(p.words, i requires 0 <= i < p.words => Plus(v[i], Subkey(p, k, s, i)))
  }

  function SubSubkey(p: Policy, k: Schedule, s: nat, v: Block): (r: Block)
    requires p.Valid() && k.Fits(p) && s < 0x1_0000_0000 && |v| == p.words
    ensures |r| == p.words
  {
    seq(p.words, i requires 0 <= i < p.words => Minus(v[i], Subkey(p, k, s, i)))
  }

  function Mix1(x0: Word, x1: Word, r: Amount): Word {
    Xor(Rotl(x1, r), Plus(x0, x1))
  }

  function Unmix1(y0: Word, y1: Word, r: Amount): Word {
    Rotr(Xor(y0, y1), r)
  }

  function Mix(p: Policy, d: nat, v: Block): (f: Block)
    requires p.Valid() && |v| == p.words
    ensures |f| == p.words
  {
    seq(p.words, i requires 0 <= i < p.words =>
      if i % 2 == 0 then Plus(v[i], v[i + 1]) else Mix1(v[i - 1], v[i], p.Rot(d, i / 2)))
  }

  function Unmix(p: Policy, d: nat, f: Block): (v: Block)
    requires p.Valid() && |f| == p.words
    ensures |v| == p.words
  {
    seq(p.words, i requires 0 <= i < p.words =>
      if i % 2 == 0 then Minus(f[i], Unmix1(f[i], f[i + 1], p.Rot(d, i / 2)))
      else Unmix1(f[i - 1], f[i], p.Rot(d, i / 2)))
  }

  function Permute(p: Policy, f: Block): (v: Block)
    requires p.Valid() && |f| == p.words
    ensures |v| == p.words
  {
    seq(p.words, i requires 0 <= i < p.words => f[p.permutation[i]])
  }

  function IndexOf(s: seq<nat>, x: nat): (i: nat)
    requires x in s
    ensures i < |s| && s[i] == x
  {
    if s[0] == x then 0 else 1 + IndexOf(s[1..], x)
  }

  function Unpermute(p: Policy, v: Block): (f: Block)
    requires p.Valid() && |v| == p.words
    ensures |f| == p.words
  {
    seq(p.words, i requires 0 <= i < p.words => v[IndexOf(p.permutation, i)])
  }

  /** Round d of section 3.3: a subkey every fourth round, then MIX and permute. */
  function Round(p: Policy, k: Schedule, d: nat, v: Block): (r: Block)
    requires p.Valid() && k.Fits(p) && d < 0x1_0000_0000 && |v| == p.words
    ensures |r| == p.words
  {
    Permute(p, Mix(p, d, if d % 4 == 0 then AddSubkey(p, k, d / 4, v) else v))
  }

  function Unround(p: Policy, k: Schedule, d: nat, v: Block): (r: Block)
    requires p.Valid() && k.Fits(p) && d < 0x1_0000_0000 && |v| == p.words
    ensures |r| == p.words
  {
    var e := Unmix(p, d, Unpermute(p, v));
    if d % 4 == 0 then SubSubkey(p, k, d / 4, e) else e
  }

  lemma {:induction false} AddedSubkeyGone(p: Policy, k: Schedule, s: nat, v: Block)
    requires p.Valid() && k.Fits(p) && s < 0x1_0000_0000 && |v| == p.words
    ensures SubSubkey(p, k, s, AddSubkey(p, k, s, v)) == v
    ensures AddSubkey(p, k, s, SubSubkey(p, k, s, v)) == v
  {
    hide Subkey, Plus, Minus;
    forall i | 0 <= i < p.words
      ensures SubSubkey(p, k, s, AddSubkey(p, k, s, v))[i] == v[i]
      ensures AddSubkey(p, k, s, SubSubkey(p, k, s, v))[i] == v[i]
    {
      AddSub(v[i], Subkey(p, k, s, i));
    }
  }

  lemma {:induction false} PairMixed(x0: Word, x1: Word, r: Amount)
    ensures Unmix1(Plus(x0, x1), Mix1(x0, x1, r), r) == x1
  {
    hide Rotl, Rotr, Xor, Plus, Minus;
    XorLaws(Rotl(x1, r), Plus(x0, x1), x0);
    XorLaws(Plus(x0, x1), Mix1(x0, x1, r), x0);
    RotateBack(x1, r);
  }

  lemma {:induction false} PairUnmixed(y0: Word, y1: Word, r: Amount)
    ensures Mix1(Minus(y0, Unmix1(y0, y1, r)), Unmix1(y0, y1, r), r) == y1
  {
    hide Rotl, Rotr, Xor, Plus, Minus;
    AddSub(y0, Unmix1(y0, y1, r));
    RotateBack(Xor(y0, y1), r);
    XorLaws(y0, y1, y0);
    XorLaws(y1, y0, y0);
  }

  /** Word pair j of MIX and of its inverse. */
  lemma MixPair(p: Policy, d: nat, v: Block, j: nat)
    requires p.Valid() && |v| == p.words && j < p.words / 2
    ensures Mix(p, d, v)[2 * j] == Plus(v[2 * j], v[2 * j + 1])
    ensures Mix(p, d, v)[2 * j + 1] == Mix1(v[2 * j], v[2 * j + 1], p.Rot(d, j))
  {
    hide Mix1, Plus, Policy.Rot, Policy.Valid;
    assert (2 * j) / 2 == j && (2 * j + 1) / 2 == j && (2 * j + 1) % 2 == 1;
  }

  lemma UnmixPair(p: Policy, d: nat, f: Block, j: nat)
    requires p.Valid() && |f| == p.words && j < p.words / 2
    ensures Unmix(p, d, f)[2 * j] == Minus(f[2 * j], Unmix1(f[2 * j], f[2 * j + 1], p.Rot(d, j)))
    ensures Unmix(p, d, f)[2 * j + 1] == Unmix1(f[2 * j], f[2 * j + 1], p.Rot(d, j))
  {
    hide Unmix1, Minus, Policy.Rot, Policy.Valid;
    assert (2 * j) / 2 == j && (2 * j + 1) / 2 == j && (2 * j + 1) % 2 == 1;
  }

  /** Blocks that agree pair by pair are equal. */
  lemma {:induction false} SamePairs(v: Block, w: Block, n: nat)
    requires |v| == |w| == 2 * n
    requires forall j :: 0 <= j < n ==> v[2 * j] == w[2 * j] && v[2 * j + 1] == w[2 * j + 1]
    ensures v == w
  {
    forall i | 0 <= i < |v| ensures v[i] == w[i] {
      var j := i / 2;
      assert v[2 * j] == w[2 * j] && v[2 * j + 1] == w[2 * j + 1];
    }
  }

  lemma {:induction false} UnmixMix(p: Policy, d: nat, v: Block)
    requires p.Valid() && |v| == p.words
    ensures Unmix(p, d, Mix(p, d, v)) == v
  {
    hide Mix1, Unmix1, Plus, Minus, Mix, Unmix, Policy.Rot;
    var f := Mix(p, d, v);
    var u := Unmix(p, d, f);
    hide Policy.Valid;
    Shape(p);
    var n := p.words / 2;
    forall j | 0 <= j < n ensures u[2 * j] == v[2 * j] && u[2 * j + 1] == v[2 * j + 1] {
      MixPair(p, d, v, j);
      UnmixPair(p, d, f, j);
      PairMixed(v[2 * j], v[2 * j + 1], p.Rot(d, j));
      AddSub(v[2 * j], v[2 * j + 1]);
    }
    SamePairs(u, v, n);
  }

  lemma {:induction false} MixUnmix(p: Policy, d: nat, f: Block)
    requires p.Valid() && |f| == p.words
    ensures Mix(p, d, Unmix(p, d, f)) == f
  {
    hide Mix1, Unmix1, Plus, Minus, Mix, Unmix, Policy.Rot;
    var v := Unmix(p, d, f);
    var m := Mix(p, d, v);
    hide Policy.Valid;
    Shape(p);
    var n := p.words / 2;
    forall j | 0 <= j < n ensures m[2 * j] == f[2 * j] && m[2 * j + 1] == f[2 * j + 1] {
      UnmixPair(p, d, f, j);
      MixPair(p, d, v, j);
      PairUnmixed(f[2 * j], f[2 * j + 1], p.Rot(d, j));
      AddSub(f[2 * j], Unmix1(f[2 * j], f[2 * j + 1], p.Rot(d, j)));
    }
    SamePairs(m, f, n);
  }

  lemma {:induction false} Unpermuted(p: Policy, v: Block)
    requires p.Valid() && |v| == p.words
    ensures Unpermute(p, Permute(p, v)) == v && Permute(p, Unpermute(p, v)) == v
  {
    hide IndexOf;
    forall i | 0 <= i < p.words
      ensures Unpermute(p, Permute(p, v))[i] == v[i] && Permute(p, Unpermute(p, v))[i] == v[i]
    {
      var here := IndexOf(p.permutation, p.permutation[i]);
      assert here == i;
    }
  }

  lemma {:induction false} RoundUndone(p: Policy, k: Schedule, d: nat, v: Block)
    requires p.Valid() && k.Fits(p) && d < 0x1_0000_0000 && |v| == p.words
    ensures Unround(p, k, d, Round(p, k, d, v)) == v
    ensures Round(p, k, d, Unround(p, k, d, v)) == v
  {
    hide Mix, Unmix, Permute, Unpermute, AddSubkey, SubSubkey, Policy.Valid;
    var e := if d % 4 == 0 then AddSubkey(p, k, d / 4, v) else v;
    Unpermuted(p, Mix(p, d, e));
    UnmixMix(p, d, e);
    AddedSubkeyGone(p, k, d / 4, v);
    var f := Unpermute(p, v);
    AddedSubkeyGone(p, k, d / 4, Unmix(p, d, f));
    MixUnmix(p, d, f);
    Unpermuted(p, v);
  }

  // ---- The whole cypher ----

  /** The first d rounds. */
  function Rounds(p: Policy, k: Schedule, d: nat, v: Block): (r: Block)
    requires p.Valid() && k.Fits(p) && d < 0x1_0000_0000 && |v| == p.words
    ensures |r| == p.words
  {
    if d == 0 then v else Round(p, k, d - 1, Rounds(p, k, d - 1, v))
  }

  /** Rounds d - 1 down to 0, undone in that order. */
  function Unrounds(p: Policy, k: Schedule, d: nat, v: Block): (r: Block)
    requires p.Valid() && k.Fits(p) && d < 0x1_0000_0000 && |v| == p.words
    ensures |r| == p.words
  {
    if d == 0 then v else Unrounds(p, k, d - 1, Unround(p, k, d - 1, v))
  }

  function Encyphered(p: Policy, k: Schedule, plain: Block): (c: Block)
    requires p.Valid() && k.Fits(p) && p.rounds < 0x1_0000_0000 && |plain| == p.words
    ensures |c| == p.words
  {
    AddSubkey(p, k, p.rounds / 4, Rounds(p, k, p.rounds, plain))
  }

  function Decyphered(p: Policy, k: Schedule, cypher: Block): (v: Block)
    requires p.Valid() && k.Fits(p) && p.rounds < 0x1_0000_0000 && |cypher| == p.words
    ensures |v| == p.words
  {
    Unrounds(p, k, p.rounds, SubSubkey(p, k, p.rounds / 4, cypher))
  }

  lemma {:induction false} RoundsUndone(p: Policy, k: Schedule, d: nat, v: Block)
    requires p.Valid() && k.Fits(p) && d < 0x1_0000_0000 && |v| == p.words
    ensures Unrounds(p, k, d, Rounds(p, k, d, v)) == v
    ensures Rounds(p, k, d, Unrounds(p, k, d, v)) == v
  {
    hide Round, Unround, Policy.Valid;
    if d > 0 {
      RoundUndone(p, k, d - 1, Rounds(p, k, d - 1, v));
      RoundsUndone(p, k, d - 1, v);
      var u := Unround(p, k, d - 1, v);
      RoundsUndone(p, k, d - 1, u);
      RoundUndone(p, k, d - 1, v);
    }
  }

  /** For every key, tweak and block, at every size: the two directions are inverse. */
  lemma {:induction false} DecypherInvertsEncypher(p: Policy, k: Schedule, v: Block)
    requires p.Valid() && k.Fits(p) && p.rounds < 0x1_0000_0000 && |v| == p.words
    ensures Decyphered(p, k, Encyphered(p, k, v)) == v
    ensures Encyphered(p, k, Decyphered(p, k, v)) == v
  {
    hide Rounds, Unrounds, AddSubkey, SubSubkey, Policy.Valid;
    AddedSubkeyGone(p, k, p.rounds / 4, Rounds(p, k, p.rounds, v));
    RoundsUndone(p, k, p.rounds, v);
    RoundsUndone(p, k, p.rounds, SubSubkey(p, k, p.rounds / 4, v));
    AddedSubkeyGone(p, k, p.rounds / 4, v);
  }
}
