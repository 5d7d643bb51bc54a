/** block_cyphers/basic_shacal.hpp, shacal.hpp and shacal1.hpp: the cypher of SHA-0 and
    SHA-1, its key schedules, and the two ways of running its eighty rounds.
  */
module Shacal {
  import opened BasicFunctions32

  datatype Regs = Regs(a: Word, b: Word, c: Word, d: Word, e: Word)

  function Choose32(x: bv32, y: bv32, z: bv32): bv32 { (x & y) ^ (!x & z) }

  function Majority32(x: bv32, y: bv32, z: bv32): bv32 { (x & y) ^ (x & z) ^ (y & z) }

  function Ch(x: Word, y: Word, z: Word): Word { Word(Choose32(x.bits, y.bits, z.bits)) }

  function Maj(x: Word, y: Word, z: Word): Word { Word(Majority32(x.bits, y.bits, z.bits)) }

  function F(t: nat, x: Word, y: Word, z: Word): Word {
    if t < 40 && t < 20 then Ch(x, y, z)
    else if t >= 40 && t < 60 then Maj(x, y, z)
    else Parity(x, y, z)
  }

  /** A prepared schedule; the table of constants is left open. */
  datatype Cypher = Cypher(schedule: seq<Word>, constants: seq<Word>) {
    predicate Valid() {
      |schedule| == 80 && |constants| == 80
    }
  }

  /** Section 6.1.2 of FIPS 180-2. */
  function Round(cy: Cypher, t: nat, r: Regs): Regs
    requires cy.Valid() && t < 80
  {
    var T := Plus(Plus(Plus(Plus(Rotl(r.a, 5), F(t, r.b, r.c, r.d)), r.e), cy.constants[t]), cy.schedule[t]);
    Regs(T, r.a, Rotl(r.b, 30), r.c, r.d)
  }

  function Unround(cy: Cypher, t: nat, r: Regs): Regs
    requires cy.Valid() && t < 80
  {
    var a, b, c, d := r.b, Rotr(r.c, 30), r.d, r.e;
    Regs(a, b, c, d, Minus(Minus(Minus(Minus(r.a, Rotl(a, 5)), F(t, b, c, d)), cy.constants[t]), cy.schedule[t]))
  }

  function Rounds(cy: Cypher, t: nat, r: Regs): Regs
    requires cy.Valid() && t <= 80
  {
    if t == 0 then r else Round(cy, t - 1, Rounds(cy, t - 1, r))
  }

  function Unrounds(cy: Cypher, t: nat, r: Regs): Regs
    requires cy.Valid() && t <= 80
    decreases t
  {
    if t == 0 then r else Unrounds(cy, t - 1, Unround(cy, t - 1, r))
  }

  /** e is the third summand; as the first it can be recovered. */
  lemma {:induction false} EFirst(p: Word, q: Word, e: Word, k: Word, w: Word)
    ensures Plus(Plus(Plus(Plus(p, q), e), k), w) == Plus(Plus(Plus(Plus(e, p), q), k), w)
  {
    hide Plus;
    PlusCommutes(Plus(p, q), e);
    PlusAssociates(e, p, q);
  }

  lemma {:induction false} RoundUndone(cy: Cypher, t: nat, r: Regs)
    requires cy.Valid() && t < 80
    ensures Unround(cy, t, Round(cy, t, r)) == r && Round(cy, t, Unround(cy, t, r)) == r
  {
    hide Plus, Minus, Rotl, Rotr, F;
    var k, w := cy.constants[t], cy.schedule[t];
    RotateBack(r.b, 30);
    RotateBack(r.c, 30);
    var p, q := Rotl(r.a, 5), F(t, r.b, r.c, r.d);
    EFirst(p, q, r.e, k, w);
    TakenBack(r.e, p, q, k, w);
    var u := Unround(cy, t, r);
    EFirst(Rotl(u.a, 5), F(t, u.b, u.c, u.d), u.e, k, w);
    Restored(r.a, Rotl(u.a, 5), F(t, u.b, u.c, u.d), k, w);
  }

  /** For every schedule and block, decyphering inverts encyphering and the reverse. */
  lemma {:induction false} RoundsUndone(cy: Cypher, t: nat, r: Regs)
    requires cy.Valid() && t <= 80
    ensures Unrounds(cy, t, Rounds(cy, t, r)) == r
    ensures Rounds(cy, t, Unrounds(cy, t, r)) == r
    decreases t
  {
    hide Round, Unround;
    if t > 0 {
      RoundUndone(cy, t - 1, Rounds(cy, t - 1, r));
      RoundsUndone(cy, t - 1, r);
      RoundsUndone(cy, t - 1, Unround(cy, t - 1, r));
      RoundUndone(cy, t - 1, r);
    }
  }

  // ---- Key schedules ----

  /** Word t of a schedule from the words before it; SHA-1 differs from SHA-0 in one rotation. */
  function Expanded(sha1: bool, w: seq<Word>, t: nat): Word
    requires 16 <= t <= |w|
  {
    var x := Xor(Xor(Xor(w[t - 3], w[t - 8]), w[t - 14]), w[t - 16]);
    if sha1 then Rotl(x, 1) else x
  }

  predicate IsSchedule(sha1: bool, w: seq<Word>) {
    |w| == 80 && forall t :: 16 <= t < 80 ==> w[t] == Expanded(sha1, w, t)
  }

  /** The recurrence leaves no choice: the key, the first sixteen words, fixes the schedule. */
  lemma {:induction false} ScheduleDetermined(sha1: bool, v: seq<Word>, w: seq<Word>, t: nat)
    requires IsSchedule(sha1, v) && IsSchedule(sha1, w) && v[..16] == w[..16] && t <= 80
    ensures v[..t] == w[..t]
  {
    hide Rotl, Xor;
    if t > 16 {
      ScheduleDetermined(sha1, v, w, t - 1);
      forall i | 0 <= i < t - 1 ensures v[i] == w[i] {
        assert v[..t - 1][i] == w[..t - 1][i];
      }
      assert v[t - 1] == Expanded(sha1, v, t - 1);
      assert w[t - 1] == Expanded(sha1, w, t - 1);
    } else {
      forall i | 0 <= i < t ensures v[i] == w[i] {
        assert v[..16][i] == w[..16][i];
      }
    }
  }

  method PrepareSchedule(sha1: bool, schedule: array<Word>)
    requires schedule.Length == 80
    modifies schedule
    ensures schedule[..16] == old(schedule[..16]) && IsSchedule(sha1, schedule[..])
  {
    hide Rotl, Xor;
    for t := 16 to 80
      invariant schedule[..16] == old(schedule[..16])
      invariant forall u :: 16 <= u < t ==> schedule[u] == Expanded(sha1, schedule[..], u)
    {
      ghost var was := schedule[..];
      schedule[t] := Xor(Xor(Xor(schedule[t - 3], schedule[t - 8]), schedule[t - 14]), schedule[t - 16]);
      if sha1 {
        schedule[t] := Rotl(schedule[t], 1);
      }
      forall u | 16 <= u <= t ensures Expanded(sha1, schedule[..], u) == Expanded(sha1, was, u) {
      }
    }
  }

  method BuildSchedule(sha1: bool, key: seq<Word>) returns (schedule: array<Word>)
    requires |key| == 16
    ensures fresh(schedule) && schedule.Length == 80
    ensures schedule[..16] == key && IsSchedule(sha1, schedule[..])
  {
    schedule := new Word[80];
    for t := 0 to 16
      invariant schedule[..t] == key[..t]
    {
      schedule[t] := key[t];
    }
    PrepareSchedule(sha1, schedule);
  }

  // ---- The rounds ----

  class BasicShacal {
    const cy: Cypher

    constructor (cy: Cypher)
      requires cy.Valid()
      ensures this.cy == cy
    {
      this.cy := cy;
    }

    method Transform(t: nat, r: Regs) returns (q: Regs)
      requires cy.Valid() && t < 80
      ensures q == Round(cy, t, r)
    {
      hide Plus, Rotl, F;
      var a, b, c, d, e := r.a, r.b, r.c, r.d, r.e;
      var T := Plus(Plus(Plus(Plus(Rotl(a, 5), F(t, b, c, d)), e), cy.constants[t]), cy.schedule[t]);
      e := d;
      d := c;
      c := Rotl(b, 30);
      b := a;
      a := T;
      q := Regs(a, b, c, d, e);
    }

    /** The plain loop. */
    method EncypherReference(plaintext: Regs) returns (cyphertext: Regs)
      requires cy.Valid()
      ensures cyphertext == Rounds(cy, 80, plaintext)
    {
      hide Round;
      cyphertext := plaintext;
      for t := 0 to 80
        invariant cyphertext == Rounds(cy, t, plaintext)
      {
        cyphertext := Transform(t, cyphertext);
      }
    }

    /** Four loops of twenty rounds, each in batches of five, with no test of t inside. */
    method Encypher(plaintext: Regs) returns (cyphertext: Regs)
      requires cy.Valid()
      ensures cyphertext == Rounds(cy, 80, plaintext)
    {
      hide Rounds;
      NoRounds(cy, plaintext);
      cyphertext := Twenty(0, plaintext, plaintext);
      cyphertext := Twenty(20, cyphertext, plaintext);
      cyphertext := Twenty(40, cyphertext, plaintext);
      cyphertext := Twenty(60, cyphertext, plaintext);
    }

    method Twenty(start: nat, r: Regs, ghost plain: Regs) returns (q: Regs)
      requires cy.Valid() && start + 20 <= 80
      requires r == Rounds(cy, start, plain)
      ensures q == Rounds(cy, start + 20, plain)
    {
      hide Round;
      q := r;
      var t := start;
      while t < start + 20
        invariant start <= t <= start + 20 && (t - start) % 5 == 0
        invariant q == Rounds(cy, t, plain)
      {
        var n := 5;
        ghost var batch := t;
        while n != 0
          invariant 0 <= n <= 5 && t == batch + (5 - n)
          invariant q == Rounds(cy, t, plain)
          decreases n
        {
          n := n - 1;
          q := Transform(t, q);
          t := t + 1;
        }
      }
    }

    method Decypher(cyphertext: Regs) returns (plaintext: Regs)
      requires cy.Valid()
      ensures plaintext == Unrounds(cy, 80, cyphertext)
    {
      hide Plus, Minus, Rotl, Rotr, F;
      var a, b, c, d, e := cyphertext.a, cyphertext.b, cyphertext.c, cyphertext.d, cyphertext.e;
      var t := 80;
      while t != 0
        invariant 0 <= t <= 80
        invariant Unrounds(cy, t, Regs(a, b, c, d, e)) == Unrounds(cy, 80, cyphertext)
      {
        t := t - 1;
        var T := a;
        a := b;
        b := Rotr(c, 30);
        c := d;
        d := e;
        e := Minus(Minus(Minus(Minus(T, Rotl(a, 5)), F(t, b, c, d)), cy.constants[t]), cy.schedule[t]);
      }
      plaintext := Regs(a, b, c, d, e);
    }
  }

  lemma NoRounds(cy: Cypher, r: Regs)
    requires cy.Valid()
    ensures Rounds(cy, 0, r) == r
  {
  }
}
