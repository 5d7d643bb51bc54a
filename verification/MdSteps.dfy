/** The steps of block_cyphers/md5.hpp and md4.hpp, and their inverses.

    RFC 1321 and RFC 1320 describe one step on registers that change places; the
    sources keep the registers in place and rename them, four steps at a time.  Here is
    the first form; MdCyphers.dfy holds the second.
  */
module MdSteps {
  import opened Arithmetic
  import opened BasicFunctions32

  datatype Regs = Regs(a: Word, b: Word, c: Word, d: Word)

  /** A cypher under a key; MD5's table of constants is left open. */
  datatype Cypher =
    | Md5(key: seq<Word>, constants: seq<Word>)
    | Md4(key: seq<Word>)
  {
    predicate Valid() {
      |key| == 16 && (Md5? ==> |constants| == 64)
    }

    function Rounds(): nat {
      if Md5? then 64 else 48
    }
  }

  function Ff(x: Word, y: Word, z: Word): Word {
    Or(And(x, y), And(Not(x), z))
  }

  function Gg5(x: Word, y: Word, z: Word): Word {
    Or(And(x, z), And(y, Not(z)))
  }

  function Gg4(x: Word, y: Word, z: Word): Word {
    Or(Or(And(x, y), And(x, z)), And(y, z))
  }

  function Ii(x: Word, y: Word, z: Word): Word {
    Xor(y, Or(x, Not(z)))
  }

  /** The auxiliary function, shift, key word and constant of step t. */
  function Mixer(cy: Cypher, t: nat, x: Word, y: Word, z: Word): Word {
    if t < 16 then Ff(x, y, z)
    else if t < 32 then (if cy.Md5? then Gg5(x, y, z) else Gg4(x, y, z))
    else if t < 48 then Parity(x, y, z)
    else Ii(x, y, z)
  }

  function Shift(cy: Cypher, t: nat): Amount {
    match (cy.Md5?, t / 16, t % 4)
    case (true, 0, 0) => 7 case (true, 0, 1) => 12 case (true, 0, 2) => 17 case (true, 0, _) => 22
    case (true, 1, 0) => 5 case (true, 1, 1) => 9 case (true, 1, 2) => 14 case (true, 1, _) => 20
    case (true, 2, 0) => 4 case (true, 2, 1) => 11 case (true, 2, 2) => 16 case (true, 2, _) => 23
    case (true, _, 0) => 6 case (true, _, 1) => 10 case (true, _, 2) => 15 case (true, _, _) => 21
    case (false, 0, 0) => 3 case (false, 0, 1) => 7 case (false, 0, 2) => 11 case (false, 0, _) => 19
    case (false, 1, 0) => 3 case (false, 1, 1) => 5 case (false, 1, 2) => 9 case (false, 1, _) => 13
    case (false, _, 0) => 3 case (false, _, 1) => 9 case (false, _, 2) => 11 case (false, _, _) => 15
  }

  /** The key index tables, which follow a formula in every group of sixteen steps. */
  function KeyIndex(cy: Cypher, t: nat): (k: nat)
    ensures k < 16
  {
    if t < 16 then t
    else if cy.Md5? then
      if t < 32 then (5 * t + 1) % 16 else if t < 48 then (3 * t + 5) % 16 else 7 * t % 16
    else if t < 32 then t % 4 * 4 + t / 4 % 4
    else Reverse2(t % 4) * 4 + Reverse2(t / 4 % 4)
  }

  /** Every round uses every key word exactly once. */
  lemma {:induction false} KeyWordOnce(cy: Cypher, q: nat, i: nat, j: nat)
    requires i < j < 16 && 16 * q + 16 <= cy.Rounds()
    ensures KeyIndex(cy, 16 * q + i) != KeyIndex(cy, 16 * q + j)
  {
    if q == 0 {
      Straight(cy, i);
      Straight(cy, j);
    } else if cy.Md5? {
      Md5WordOnce(cy, q, i, j);
    } else {
      hide KeyIndex;
      Md4Word(cy, q, i);
      Md4Word(cy, q, j);
    }
  }

  lemma Straight(cy: Cypher, i: nat)
    requires i < 16
    ensures KeyIndex(cy, i) == i
  {
  }

  lemma {:induction false} Md5WordOnce(cy: Cypher, q: nat, i: nat, j: nat)
    requires cy.Md5? && 1 <= q <= 3 && i < j < 16
    ensures KeyIndex(cy, 16 * q + i) != KeyIndex(cy, 16 * q + j)
  {
    if q == 1 { OddSteps5(81 + 5 * i, j - i); }
    else if q == 2 { OddSteps3(101 + 3 * i, j - i); }
    else { OddSteps7(336 + 7 * i, j - i); }
  }

  /** The two digits of the index in base 4 tell the step. */
  lemma {:induction false} Md4Word(cy: Cypher, q: nat, i: nat)
    requires cy.Md4? && 1 <= q <= 2 && i < 16
    ensures var k := KeyIndex(cy, 16 * q + i);
      i == if q == 1 then k % 4 * 4 + k / 4 else Reverse2(k % 4) * 4 + Reverse2(k / 4)
  {
    Digits(q, i);
    hide Reverse2;
    TwiceReversed(i % 4);
    TwiceReversed(i / 4);
  }

  lemma TwiceReversed(i: nat)
    requires i < 4
    ensures Reverse2(Reverse2(i)) == i
  {
  }

  lemma {:induction false} Digits(q: nat, i: nat)
    requires i < 16
    ensures (16 * q + i) % 4 == i % 4 && (16 * q + i) / 4 % 4 == i / 4
  {
    DivModUnique(16 * q + i, 4, 4 * q + i / 4, i % 4);
    DivModUnique(4 * q + i / 4, 4, q, i / 4);
  }

  lemma OddSteps3(x: nat, d: nat)
    requires 0 < d < 16
    ensures x % 16 != (x + 3 * d) % 16
  {
  }

  lemma OddSteps5(x: nat, d: nat)
    requires 0 < d < 16
    ensures x % 16 != (x + 5 * d) % 16
  {
  }

  lemma OddSteps7(x: nat, d: nat)
    requires 0 < d < 16
    ensures x % 16 != (x + 7 * d) % 16
  {
  }

  /** Two bits in the other order. */
  function Reverse2(i: nat): (j: nat)
    requires i < 4
    ensures j < 4
  {
    if i == 1 then 2 else if i == 2 then 1 else i
  }

  function Constant(cy: Cypher, t: nat): Word
    requires cy.Valid() && t < cy.Rounds()
  {
    if cy.Md5? then cy.constants[t]
    else if t < 16 then Word(0) else if t < 32 then Word(0x5a827999) else Word(0x6ed9eba1)
  }

  /** What replaces aa. */
  function Value(cy: Cypher, t: nat, aa: Word, bb: Word, cc: Word, dd: Word): Word
    requires cy.Valid() && t < cy.Rounds()
  {
    var sum := Plus(Plus(Plus(aa, Mixer(cy, t, bb, cc, dd)), cy.key[KeyIndex(cy, t)]), Constant(cy, t));
    if cy.Md5? then Plus(bb, Rotl(sum, Shift(cy, t))) else Rotl(sum, Shift(cy, t))
  }

  /** What aa was. */
  function Unvalue(cy: Cypher, t: nat, aa: Word, bb: Word, cc: Word, dd: Word): Word
    requires cy.Valid() && t < cy.Rounds()
  {
    var sum := if cy.Md5? then Rotr(Minus(aa, bb), Shift(cy, t)) else Rotr(aa, Shift(cy, t));
    Minus(Minus(Minus(sum, Mixer(cy, t, bb, cc, dd)), cy.key[KeyIndex(cy, t)]), Constant(cy, t))
  }

  function Step(cy: Cypher, t: nat, r: Regs): Regs
    requires cy.Valid() && t < cy.Rounds()
  {
    Regs(r.d, Value(cy, t, r.a, r.b, r.c, r.d), r.b, r.c)
  }

  function Unstep(cy: Cypher, t: nat, r: Regs): Regs
    requires cy.Valid() && t < cy.Rounds()
  {
    Regs(Unvalue(cy, t, r.b, r.c, r.d, r.a), r.c, r.d, r.a)
  }

  function Steps(cy: Cypher, t: nat, r: Regs): Regs
    requires cy.Valid() && t <= cy.Rounds()
  {
    if t == 0 then r else Step(cy, t - 1, Steps(cy, t - 1, r))
  }

  function Unsteps(cy: Cypher, t: nat, r: Regs): Regs
    requires cy.Valid() && t <= cy.Rounds()
    decreases t
  {
    if t == 0 then r else Unsteps(cy, t - 1, Unstep(cy, t - 1, r))
  }

  /** The subtractions come in the order of the additions, not in the reverse. */
  lemma {:induction false} SumTakenBack(a: Word, f: Word, k: Word, c: Word)
    ensures Minus(Minus(Minus(Plus(Plus(Plus(a, f), k), c), f), k), c) == a
  {
    hide Plus, Minus;
    SubMoves(Plus(Plus(a, f), k), c, f);
    SubMoves(Plus(a, f), k, f);
    AddSub(a, f);
    SubMoves(Plus(a, k), c, k);
    AddSub(a, k);
    AddSub(a, c);
  }

  lemma {:induction false} SumRestored(a: Word, f: Word, k: Word, c: Word)
    ensures Plus(Plus(Plus(Minus(Minus(Minus(a, f), k), c), f), k), c) == a
  {
    hide Plus, Minus;
    SubMoves(Minus(Minus(a, f), k), f, c);
    SubMoves(Minus(a, f), f, k);
    AddSub(a, f);
    SubMoves(Minus(a, k), k, c);
    AddSub(a, k);
    AddSub(a, c);
  }

  lemma {:induction false} ValueUndone(cy: Cypher, t: nat, aa: Word, bb: Word, cc: Word, dd: Word)
    requires cy.Valid() && t < cy.Rounds()
    ensures Unvalue(cy, t, Value(cy, t, aa, bb, cc, dd), bb, cc, dd) == aa
    ensures Value(cy, t, Unvalue(cy, t, aa, bb, cc, dd), bb, cc, dd) == aa
  {
    hide Plus, Minus, Rotl, Rotr, Mixer, Shift, KeyIndex, Constant;
    var f, k, c := Mixer(cy, t, bb, cc, dd), cy.key[KeyIndex(cy, t)], Constant(cy, t);
    var sum := Plus(Plus(Plus(aa, f), k), c);
    var s := Shift(cy, t);
    SumTakenBack(aa, f, k, c);
    RotateBack(sum, s);
    PlusCommutes(bb, Rotl(sum, s));
    AddSub(Rotl(sum, s), bb);
    var back := if cy.Md5? then Rotr(Minus(aa, bb), s) else Rotr(aa, s);
    SumRestored(back, f, k, c);
    RotateBack(if cy.Md5? then Minus(aa, bb) else aa, s);
    AddSub(aa, bb);
    PlusCommutes(bb, Minus(aa, bb));
  }

  lemma {:induction false} StepUndone(cy: Cypher, t: nat, r: Regs)
    requires cy.Valid() && t < cy.Rounds()
    ensures Unstep(cy, t, Step(cy, t, r)) == r && Step(cy, t, Unstep(cy, t, r)) == r
  {
    hide Value, Unvalue;
    ValueUndone(cy, t, r.a, r.b, r.c, r.d);
    ValueUndone(cy, t, r.b, r.c, r.d, r.a);
  }

  /** For every key and block, decyphering inverts encyphering and the reverse. */
  lemma {:induction false} StepsUndone(cy: Cypher, t: nat, r: Regs)
    requires cy.Valid() && t <= cy.Rounds()
    ensures Unsteps(cy, t, Steps(cy, t, r)) == r
    ensures Steps(cy, t, Unsteps(cy, t, r)) == r
    decreases t
  {
    hide Step, Unstep;
    if t > 0 {
      StepUndone(cy, t - 1, Steps(cy, t - 1, r));
      StepsUndone(cy, t - 1, r);
      StepsUndone(cy, t - 1, Unstep(cy, t - 1, r));
      StepUndone(cy, t - 1, r);
    }
  }

  // ---- Four steps with the registers in place ----

  /** Four steps bring every register back to its own place. */
  lemma {:induction false} FourSteps(cy: Cypher, t: nat, r: Regs, a: Word, b: Word, c: Word, d: Word)
    requires cy.Valid() && t + 4 <= cy.Rounds()
    requires var q := Steps(cy, t, r);
      && a == Value(cy, t, q.a, q.b, q.c, q.d)
      && d == Value(cy, t + 1, q.d, a, q.b, q.c)
      && c == Value(cy, t + 2, q.c, d, a, q.b)
      && b == Value(cy, t + 3, q.b, c, d, a)
    ensures Steps(cy, t + 4, r) == Regs(a, b, c, d)
  {
    hide Value;
    assert Steps(cy, t + 2, r) == Step(cy, t + 1, Steps(cy, t + 1, r));
    assert Steps(cy, t + 3, r) == Step(cy, t + 2, Steps(cy, t + 2, r));
  }

  lemma {:induction false} FourUnsteps(cy: Cypher, t: nat, r: Regs, a: Word, b: Word, c: Word, d: Word)
    requires cy.Valid() && t + 4 <= cy.Rounds()
    requires
      && b == Unvalue(cy, t + 3, r.b, r.c, r.d, r.a)
      && c == Unvalue(cy, t + 2, r.c, r.d, r.a, b)
      && d == Unvalue(cy, t + 1, r.d, r.a, b, c)
      && a == Unvalue(cy, t, r.a, b, c, d)
    ensures Unsteps(cy, t + 4, r) == Unsteps(cy, t, Regs(a, b, c, d))
  {
    hide Unvalue;
    var p := Unstep(cy, t + 3, r);
    var q := Unstep(cy, t + 2, p);
    assert Unsteps(cy, t + 4, r) == Unsteps(cy, t + 3, p);
    assert Unsteps(cy, t + 3, p) == Unsteps(cy, t + 2, q);
    assert Unsteps(cy, t + 2, q) == Unsteps(cy, t + 1, Unstep(cy, t + 1, q));
  }
}
