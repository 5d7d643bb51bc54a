/** The classes of block_cyphers/md5.hpp and md4.hpp: registers kept in place and renamed,
    four steps to a turn, and decyphering loops that run an unsigned counter down to its
    wrap-around.
  */
module MdCyphers {
  import opened BasicFunctions32
  import opened MdSteps

  /** t -= 4 on a 32-bit unsigned. */
  function Minus4(t: nat): nat {
    if t >= 4 then t - 4 else t + 0x1_0000_0000 - 4
  }

  class MdCypher {
    const cy: Cypher

    constructor (cy: Cypher)
      requires cy.Valid()
      ensures this.cy == cy
    {
      this.cy := cy;
    }

    /** ENCYPHER_STEP, with the function and the shift the caller names. */
    method EncypherStep(aa: Word, bb: Word, fun: Word, t: nat, s: Amount, ghost cc: Word, ghost dd: Word)
      returns (r: Word)
      requires cy.Valid() && t < cy.Rounds()
      requires fun == Mixer(cy, t, bb, cc, dd) && s == Shift(cy, t)
      ensures r == Value(cy, t, aa, bb, cc, dd)
    {
      hide Plus, Rotl, Mixer, Shift, KeyIndex, Constant;
      var sum := Plus(Plus(Plus(aa, fun), cy.key[KeyIndex(cy, t)]), Constant(cy, t));
      if cy.Md5? {
        r := Plus(bb, Rotl(sum, s));
      } else {
        r := Rotl(sum, s);
      }
    }

    method DecypherStep(aa: Word, bb: Word, fun: Word, t: nat, s: Amount, ghost cc: Word, ghost dd: Word)
      returns (r: Word)
      requires cy.Valid() && t < cy.Rounds()
      requires fun == Mixer(cy, t, bb, cc, dd) && s == Shift(cy, t)
      ensures r == Unvalue(cy, t, aa, bb, cc, dd)
    {
      hide Minus, Rotr, Mixer, Shift, KeyIndex, Constant;
      var sum: Word;
      if cy.Md5? {
        sum := Rotr(Minus(aa, bb), s);
      } else {
        sum := Rotr(aa, s);
      }
      r := Minus(Minus(Minus(sum, fun), cy.key[KeyIndex(cy, t)]), Constant(cy, t));
    }

    /** The loop of one round: sixteen steps from `start` on, four to a turn. */
    method EncypherRound(start: nat, s0: Amount, s1: Amount, s2: Amount, s3: Amount, r: Regs, ghost plain: Regs)
      returns (q: Regs)
      requires cy.Valid() && start % 16 == 0 && start + 16 <= cy.Rounds()
      requires ShiftsAre(cy, start, s0, s1, s2, s3)
      requires r == Steps(cy, start, plain)
      ensures q == Steps(cy, start + 16, plain)
    {
      hide Mixer, Value, Steps, Shift, Aligned;
      Starts(start);
      var a, b, c, d := r.a, r.b, r.c, r.d;
      var t := start;
      while t < start + 16
        invariant Aligned(start, t) && start <= t <= start + 16
        invariant Regs(a, b, c, d) == Steps(cy, t, plain)
      {
        ShiftsRepeat(cy, start, t, s0, s1, s2, s3);
        a := EncypherStep(a, b, Mixer(cy, t, b, c, d), t, s0, c, d);
        d := EncypherStep(d, a, Mixer(cy, t + 1, a, b, c), t + 1, s1, b, c);
        c := EncypherStep(c, d, Mixer(cy, t + 2, d, a, b), t + 2, s2, a, b);
        b := EncypherStep(b, c, Mixer(cy, t + 3, c, d, a), t + 3, s3, d, a);
        FourSteps(cy, t, plain, a, b, c, d);
        t := t + 4;
      }
      q := Regs(a, b, c, d);
    }

    /** The same round backwards: `t >= start` ends the loop, or in the last round, where
        that always holds, the wrap-around does. */
    method DecypherRound(start: nat, s0: Amount, s1: Amount, s2: Amount, s3: Amount, r: Regs)
      returns (q: Regs)
      requires cy.Valid() && start % 16 == 0 && start + 16 <= cy.Rounds()
      requires ShiftsAre(cy, start, s0, s1, s2, s3)
      ensures Unsteps(cy, start, q) == Unsteps(cy, start + 16, r)
    {
      hide Mixer, Unvalue, Unsteps, Shift, Aligned;
      Starts(start);
      var a, b, c, d := r.a, r.b, r.c, r.d;
      var t: nat := Minus4(start + 16);
      while if start > 0 then t >= start else t < 16
        invariant t == Minus4(start) || (Aligned(start, t) && start <= t < start + 16)
        invariant Unsteps(cy, start + 16, r) == Unsteps(cy, if t == Minus4(start) then start else t + 4, Regs(a, b, c, d))
        decreases if t == Minus4(start) then 0 else t + 1
      {
        ShiftsRepeat(cy, start, t, s0, s1, s2, s3);
        ghost var p := Regs(a, b, c, d);
        b := DecypherStep(b, c, Mixer(cy, t + 3, c, d, a), t + 3, s3, d, a);
        c := DecypherStep(c, d, Mixer(cy, t + 2, d, a, b), t + 2, s2, a, b);
        d := DecypherStep(d, a, Mixer(cy, t + 1, a, b, c), t + 1, s1, b, c);
        a := DecypherStep(a, b, Mixer(cy, t, b, c, d), t, s0, c, d);
        FourUnsteps(cy, t, p, a, b, c, d);
        t := Minus4(t);
      }
      q := Regs(a, b, c, d);
    }

    method Encypher(plaintext: Regs) returns (cyphertext: Regs)
      requires cy.Valid()
      ensures cyphertext == Steps(cy, cy.Rounds(), plaintext)
    {
      hide Steps;
      Unstepped(cy, plaintext);
      AllShifts(cy);
      hide Shift;
      if cy.Md5? {
        var r1 := EncypherRound(0, 7, 12, 17, 22, plaintext, plaintext);
        var r2 := EncypherRound(16, 5, 9, 14, 20, r1, plaintext);
        var r3 := EncypherRound(32, 4, 11, 16, 23, r2, plaintext);
        cyphertext := EncypherRound(48, 6, 10, 15, 21, r3, plaintext);
      } else {
        var r1 := EncypherRound(0, 3, 7, 11, 19, plaintext, plaintext);
        var r2 := EncypherRound(16, 3, 5, 9, 13, r1, plaintext);
        cyphertext := EncypherRound(32, 3, 9, 11, 15, r2, plaintext);
      }
    }

    method Decypher(cyphertext: Regs) returns (plaintext: Regs)
      requires cy.Valid()
      ensures plaintext == Unsteps(cy, cy.Rounds(), cyphertext)
    {
      hide Unsteps;
      AllShifts(cy);
      hide Shift;
      if cy.Md5? {
        var r3 := DecypherRound(48, 6, 10, 15, 21, cyphertext);
        var r2 := DecypherRound(32, 4, 11, 16, 23, r3);
        var r1 := DecypherRound(16, 5, 9, 14, 20, r2);
        plaintext := DecypherRound(0, 7, 12, 17, 22, r1);
      } else {
        var r2 := DecypherRound(32, 3, 9, 11, 15, cyphertext);
        var r1 := DecypherRound(16, 3, 5, 9, 13, r2);
        plaintext := DecypherRound(0, 3, 7, 11, 19, r1);
      }
      Unstepped(cy, plaintext);
    }
  }

  predicate ShiftsAre(cy: Cypher, start: nat, s0: Amount, s1: Amount, s2: Amount, s3: Amount) {
    Shift(cy, start) == s0 && Shift(cy, start + 1) == s1 && Shift(cy, start + 2) == s2 && Shift(cy, start + 3) == s3
  }

  /** t is one of the turns of the round that begins at start, or its end. */
  predicate Aligned(start: nat, t: nat) {
    t == start || t == start + 4 || t == start + 8 || t == start + 12 || t == start + 16
  }

  lemma Starts(start: nat)
    ensures Aligned(start, start) && Aligned(start, start + 12)
  {
  }

  /** The four shifts of a round serve each of its turns. */
  lemma {:induction false} ShiftsRepeat(cy: Cypher, start: nat, t: nat, s0: Amount, s1: Amount, s2: Amount, s3: Amount)
    requires start % 16 == 0 && Aligned(start, t) && start <= t < start + 16
    requires ShiftsAre(cy, start, s0, s1, s2, s3)
    ensures ShiftsAre(cy, t, s0, s1, s2, s3)
    ensures t + 4 <= start + 16 && Aligned(start, t + 4)
    ensures t != start ==> start + 4 <= t && Aligned(start, t - 4)
  {
    hide Shift;
    SameShift(cy, start, t, 0);
    SameShift(cy, start, t, 1);
    SameShift(cy, start, t, 2);
    SameShift(cy, start, t, 3);
  }

  lemma InRound(q: nat, j: nat, i: nat)
    requires i < 4 && j < 4
    ensures (16 * q + 4 * j + i) / 16 == q && (16 * q + 4 * j + i) % 4 == i
  {
  }

  lemma {:induction false} SameShift(cy: Cypher, start: nat, t: nat, i: nat)
    requires start % 16 == 0 && Aligned(start, t) && start <= t < start + 16 && i < 4
    ensures Shift(cy, start + i) == Shift(cy, t + i)
  {
    InRound(start / 16, 0, i);
    InRound(start / 16, (t - start) / 4, i);
  }

  lemma AllShifts(cy: Cypher)
    ensures cy.Md5? ==> ShiftsAre(cy, 0, 7, 12, 17, 22) && ShiftsAre(cy, 16, 5, 9, 14, 20)
    ensures cy.Md5? ==> ShiftsAre(cy, 32, 4, 11, 16, 23) && ShiftsAre(cy, 48, 6, 10, 15, 21)
    ensures cy.Md4? ==> ShiftsAre(cy, 0, 3, 7, 11, 19) && ShiftsAre(cy, 16, 3, 5, 9, 13) && ShiftsAre(cy, 32, 3, 9, 11, 15)
  {
  }

  lemma Unstepped(cy: Cypher, r: Regs)
    requires cy.Valid()
    ensures Steps(cy, 0, r) == r && Unsteps(cy, 0, r) == r
  {
  }

  /** Encyphering is a bijection on blocks under every key. */
  lemma {:induction false} DecypherInvertsEncypher(cy: Cypher, r: Regs)
    requires cy.Valid()
    ensures Unsteps(cy, cy.Rounds(), Steps(cy, cy.Rounds(), r)) == r
    ensures Steps(cy, cy.Rounds(), Unsteps(cy, cy.Rounds(), r)) == r
  {
    hide Steps, Unsteps;
    StepsUndone(cy, cy.Rounds(), r);
  }
}
