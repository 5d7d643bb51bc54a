/** The steps of MD5 and MD4 as section 3.4 of RFC 1321 and section 3.4 of RFC 1320 list them:
    the functions of a round, the index k, the shift s, and the registers' change of places.
  */
module MdReference {
  import opened BasicFunctions32
  import opened MdSteps

  function F(x: Word, y: Word, z: Word): Word { Or(And(x, y), And(Not(x), z)) }

  function G(x: Word, y: Word, z: Word): Word { Or(And(x, z), And(y, Not(z))) }

  function H(x: Word, y: Word, z: Word): Word { Xor(Xor(x, y), z) }

  function I(x: Word, y: Word, z: Word): Word { Xor(y, Or(x, Not(z))) }

  function Majority(x: Word, y: Word, z: Word): Word { Or(Or(And(x, y), And(x, z)), And(y, z)) }

  // ----- The tables

  lemma FirstKeys(cy: Cypher, t: nat)
    requires t < 16
    ensures KeyIndex(cy, t) == t
  {
  }

  lemma SecondKeys5(cy: Cypher)
    requires cy.Md5?
    ensures KeyIndex(cy, 16) == 1 && KeyIndex(cy, 17) == 6 && KeyIndex(cy, 18) == 11 && KeyIndex(cy, 19) == 0
    ensures KeyIndex(cy, 20) == 5 && KeyIndex(cy, 21) == 10 && KeyIndex(cy, 22) == 15 && KeyIndex(cy, 23) == 4
    ensures KeyIndex(cy, 24) == 9 && KeyIndex(cy, 25) == 14 && KeyIndex(cy, 26) == 3 && KeyIndex(cy, 27) == 8
    ensures KeyIndex(cy, 28) == 13 && KeyIndex(cy, 29) == 2 && KeyIndex(cy, 30) == 7 && KeyIndex(cy, 31) == 12
  {
  }

  lemma ThirdKeys5(cy: Cypher)
    requires cy.Md5?
    ensures KeyIndex(cy, 32) == 5 && KeyIndex(cy, 33) == 8 && KeyIndex(cy, 34) == 11 && KeyIndex(cy, 35) == 14
    ensures KeyIndex(cy, 36) == 1 && KeyIndex(cy, 37) == 4 && KeyIndex(cy, 38) == 7 && KeyIndex(cy, 39) == 10
    ensures KeyIndex(cy, 40) == 13 && KeyIndex(cy, 41) == 0 && KeyIndex(cy, 42) == 3 && KeyIndex(cy, 43) == 6
    ensures KeyIndex(cy, 44) == 9 && KeyIndex(cy, 45) == 12 && KeyIndex(cy, 46) == 15 && KeyIndex(cy, 47) == 2
  {
  }

  lemma FourthKeys5(cy: Cypher)
    requires cy.Md5?
    ensures KeyIndex(cy, 48) == 0 && KeyIndex(cy, 49) == 7 && KeyIndex(cy, 50) == 14 && KeyIndex(cy, 51) == 5
    ensures KeyIndex(cy, 52) == 12 && KeyIndex(cy, 53) == 3 && KeyIndex(cy, 54) == 10 && KeyIndex(cy, 55) == 1
    ensures KeyIndex(cy, 56) == 8 && KeyIndex(cy, 57) == 15 && KeyIndex(cy, 58) == 6 && KeyIndex(cy, 59) == 13
    ensures KeyIndex(cy, 60) == 4 && KeyIndex(cy, 61) == 11 && KeyIndex(cy, 62) == 2 && KeyIndex(cy, 63) == 9
  {
  }

  lemma SecondKeys4(cy: Cypher)
    requires cy.Md4?
    ensures KeyIndex(cy, 16) == 0 && KeyIndex(cy, 17) == 4 && KeyIndex(cy, 18) == 8 && KeyIndex(cy, 19) == 12
    ensures KeyIndex(cy, 20) == 1 && KeyIndex(cy, 21) == 5 && KeyIndex(cy, 22) == 9 && KeyIndex(cy, 23) == 13
    ensures KeyIndex(cy, 24) == 2 && KeyIndex(cy, 25) == 6 && KeyIndex(cy, 26) == 10 && KeyIndex(cy, 27) == 14
    ensures KeyIndex(cy, 28) == 3 && KeyIndex(cy, 29) == 7 && KeyIndex(cy, 30) == 11 && KeyIndex(cy, 31) == 15
  {
  }

  lemma ThirdKeys4(cy: Cypher)
    requires cy.Md4?
    ensures KeyIndex(cy, 32) == 0 && KeyIndex(cy, 33) == 8 && KeyIndex(cy, 34) == 4 && KeyIndex(cy, 35) == 12
    ensures KeyIndex(cy, 36) == 2 && KeyIndex(cy, 37) == 10 && KeyIndex(cy, 38) == 6 && KeyIndex(cy, 39) == 14
    ensures KeyIndex(cy, 40) == 1 && KeyIndex(cy, 41) == 9 && KeyIndex(cy, 42) == 5 && KeyIndex(cy, 43) == 13
    ensures KeyIndex(cy, 44) == 3 && KeyIndex(cy, 45) == 11 && KeyIndex(cy, 46) == 7 && KeyIndex(cy, 47) == 15
  {
  }

  lemma {:induction false} ShiftTables(cy: Cypher, t: nat)
    requires t < cy.Rounds()
    ensures Shift(cy, t) ==
      if cy.Md5? then
        if t < 16 then [7, 12, 17, 22][t % 4] else if t < 32 then [5, 9, 14, 20][t % 4]
        else if t < 48 then [4, 11, 16, 23][t % 4] else [6, 10, 15, 21][t % 4]
      else
        if t < 16 then [3, 7, 11, 19][t % 4] else if t < 32 then [3, 5, 9, 13][t % 4]
        else [3, 9, 11, 15][t % 4]
  {
  }

  // ----- One step

  /** [abcd k s i] of RFC 1321: a = b + ((a + F(b, c, d) + X[k] + T[i]) <<< s). */
  lemma {:induction false} Md5Step(cy: Cypher, t: nat, r: Regs)
    requires cy.Md5? && cy.Valid() && t < 64
    ensures var f :=
        if t < 16 then F(r.b, r.c, r.d) else if t < 32 then G(r.b, r.c, r.d)
        else if t < 48 then H(r.b, r.c, r.d) else I(r.b, r.c, r.d);
      var sum := Plus(Plus(Plus(r.a, f), cy.key[KeyIndex(cy, t)]), cy.constants[t]);
      Step(cy, t, r) == Regs(r.d, Plus(r.b, Rotl(sum, Shift(cy, t))), r.b, r.c)
  {
    hide KeyIndex, Shift, Plus, Rotl, And, Or, Not, Xor;
  }

  /** [abcd k s] of RFC 1320: a = (a + F(b, c, d) + X[k] + constant) <<< s. */
  lemma {:induction false} Md4Step(cy: Cypher, t: nat, r: Regs)
    requires cy.Md4? && cy.Valid() && t < 48
    ensures var f :=
        if t < 16 then F(r.b, r.c, r.d) else if t < 32 then Majority(r.b, r.c, r.d) else H(r.b, r.c, r.d);
      var constant := if t < 16 then 0 else if t < 32 then 0x5A82_7999 else 0x6ED9_EBA1;
      var sum := Plus(Plus(Plus(r.a, f), cy.key[KeyIndex(cy, t)]), Word(constant));
      Step(cy, t, r) == Regs(r.d, Rotl(sum, Shift(cy, t)), r.b, r.c)
  {
    hide KeyIndex, Shift, Plus, Rotl, And, Or, Not, Xor;
  }
}
