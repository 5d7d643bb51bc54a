/** block_cyphers/shacal2.hpp with detail/shacal_functions.hpp: the cypher of the SHA-2
    family, for 32-bit and 64-bit words at once.

    The C++ template takes the word operations from its policy; here they are a record,
    and the proofs use only four laws of addition and subtraction.
  */
module Shacal2 {
  import W32 = BasicFunctions32
  import W64 = BasicFunctions
  import Shacal

  datatype Ops<!T(!new)> = Ops(
    plus: (T, T) -> T, minus: (T, T) -> T,
    ch: (T, T, T) -> T, maj: (T, T, T) -> T,
    Sigma0: T -> T, Sigma1: T -> T, sigma0: T -> T, sigma1: T -> T,
    rounds: nat)
  {
    ghost predicate Lawful() {
      && rounds >= 16 && rounds % 8 == 0
      && (forall x, y :: minus(plus(x, y), y) == x)
      && (forall x, y :: plus(minus(x, y), y) == x)
      && (forall x, y, z :: minus(plus(x, y), z) == plus(minus(x, z), y))
    }
  }

  function BigSigma0At32(x: W32.Word): W32.Word {
    W32.Xor(W32.Xor(W32.Rotr(x, 2), W32.Rotr(x, 13)), W32.Rotr(x, 22))
  }

  function BigSigma1At32(x: W32.Word): W32.Word {
    W32.Xor(W32.Xor(W32.Rotr(x, 6), W32.Rotr(x, 11)), W32.Rotr(x, 25))
  }

  function SmallSigma0At32(x: W32.Word): W32.Word {
    W32.Xor(W32.Xor(W32.Rotr(x, 7), W32.Rotr(x, 18)), W32.Shr(x, 3))
  }

  function SmallSigma1At32(x: W32.Word): W32.Word {
    W32.Xor(W32.Xor(W32.Rotr(x, 17), W32.Rotr(x, 19)), W32.Shr(x, 10))
  }

  function BigSigma0At64(x: W64.Word): W64.Word {
    W64.Xor(W64.Xor(W64.Rotr(x, 28), W64.Rotr(x, 34)), W64.Rotr(x, 39))
  }

  function BigSigma1At64(x: W64.Word): W64.Word {
    W64.Xor(W64.Xor(W64.Rotr(x, 14), W64.Rotr(x, 18)), W64.Rotr(x, 41))
  }

  function SmallSigma0At64(x: W64.Word): W64.Word {
    W64.Xor(W64.Xor(W64.Rotr(x, 1), W64.Rotr(x, 8)), W64.Shr(x, 7))
  }

  function SmallSigma1At64(x: W64.Word): W64.Word {
    W64.Xor(W64.Xor(W64.Rotr(x, 19), W64.Rotr(x, 61)), W64.Shr(x, 6))
  }

  function Choose64(x: bv64, y: bv64, z: bv64): bv64 { (x & y) ^ (!x & z) }

  function Majority64(x: bv64, y: bv64, z: bv64): bv64 { (x & y) ^ (x & z) ^ (y & z) }

  function ChAt64(x: W64.Word, y: W64.Word, z: W64.Word): W64.Word { W64.Word(Choose64(x.bits, y.bits, z.bits)) }

  function MajAt64(x: W64.Word, y: W64.Word, z: W64.Word): W64.Word { W64.Word(Majority64(x.bits, y.bits, z.bits)) }

  function Ops32(): Ops<W32.Word> {
    Ops(W32.Plus, W32.Minus, Shacal.Ch, Shacal.Maj,
      BigSigma0At32, BigSigma1At32, SmallSigma0At32, SmallSigma1At32, 64)
  }

  function Ops64(): Ops<W64.Word> {
    Ops(W64.Plus, W64.Minus, ChAt64, MajAt64,
      BigSigma0At64, BigSigma1At64, SmallSigma0At64, SmallSigma1At64, 80)
  }

  lemma {:induction false} Lawful32()
    ensures Ops32().Lawful()
  {
    hide W32.Plus, W32.Minus;
    var o := Ops32();
    forall x, y ensures o.minus(o.plus(x, y), y) == x && o.plus(o.minus(x, y), y) == x {
      W32.AddSub(x, y);
    }
    forall x, y, z ensures o.minus(o.plus(x, y), z) == o.plus(o.minus(x, z), y) {
      W32.SubMoves(x, y, z);
    }
  }

  lemma {:induction false} Lawful64()
    ensures Ops64().Lawful()
  {
    hide W64.Plus, W64.Minus;
    var o := Ops64();
    forall x, y ensures o.minus(o.plus(x, y), y) == x && o.plus(o.minus(x, y), y) == x {
      W64.AddSub(x, y);
    }
    forall x, y, z ensures o.minus(o.plus(x, y), z) == o.plus(o.minus(x, z), y) {
      W64.SubMoves(x, y, z);
    }
  }

  datatype Regs<T> = Regs(a: T, b: T, c: T, d: T, e: T, f: T, g: T, h: T)

  /** A prepared schedule; the table of constants is left open. */
  datatype Cypher<!T(!new)> = Cypher(ops: Ops<T>, schedule: seq<T>, constants: seq<T>) {
    ghost predicate Valid() {
      ops.Lawful() && |schedule| == |constants| == ops.rounds
    }

    predicate Has(t: nat) {
      t < |schedule| && t < |constants|
    }
  }

  function T1<T(!new)>(cy: Cypher<T>, t: nat, e: T, f: T, g: T, h: T): T
    requires cy.Has(t)
  {
    var o := cy.ops;
    o.plus(o.plus(o.plus(o.plus(h, o.Sigma1(e)), o.ch(e, f, g)), cy.constants[t]), cy.schedule[t])
  }

  function T2<T(!new)>(cy: Cypher<T>, a: T, b: T, c: T): T {
    cy.ops.plus(cy.ops.Sigma0(a), cy.ops.maj(a, b, c))
  }

  /** h from T1. */
  function Untie<T(!new)>(cy: Cypher<T>, t: nat, e: T, f: T, g: T, t1: T): T
    requires cy.Has(t)
  {
    var o := cy.ops;
    o.minus(o.minus(o.minus(o.minus(t1, o.Sigma1(e)), o.ch(e, f, g)), cy.constants[t]), cy.schedule[t])
  }

  /** Section 6.2.2 of FIPS 180-2. */
  function Round<T(!new)>(cy: Cypher<T>, t: nat, r: Regs<T>): Regs<T>
    requires cy.Has(t)
  {
    var t1 := T1(cy, t, r.e, r.f, r.g, r.h);
    Regs(cy.ops.plus(t1, T2(cy, r.a, r.b, r.c)), r.a, r.b, r.c, cy.ops.plus(r.d, t1), r.e, r.f, r.g)
  }

  function Unround<T(!new)>(cy: Cypher<T>, t: nat, r: Regs<T>): Regs<T>
    requires cy.Has(t)
  {
    var t1 := cy.ops.minus(r.a, T2(cy, r.b, r.c, r.d));
    Regs(r.b, r.c, r.d, cy.ops.minus(r.e, t1), r.f, r.g, r.h, Untie(cy, t, r.f, r.g, r.h, t1))
  }

  ghost function Rounds<T(!new)>(cy: Cypher<T>, t: nat, r: Regs<T>): Regs<T>
    requires cy.Valid() && t <= cy.ops.rounds
  {
    if t == 0 then r else Round(cy, t - 1, Rounds(cy, t - 1, r))
  }

  ghost function Unrounds<T(!new)>(cy: Cypher<T>, t: nat, r: Regs<T>): Regs<T>
    requires cy.Valid() && t <= cy.ops.rounds
    decreases t
  {
    if t == 0 then r else Unrounds(cy, t - 1, Unround(cy, t - 1, r))
  }

  lemma {:induction false} Laws<T(!new)>(o: Ops<T>, x: T, y: T, z: T)
    requires o.Lawful()
    ensures o.minus(o.plus(x, y), y) == x && o.plus(o.minus(x, y), y) == x
    ensures o.minus(o.plus(x, y), z) == o.plus(o.minus(x, z), y)
  {
  }

  lemma {:induction false} Untied<T(!new)>(cy: Cypher<T>, t: nat, e: T, f: T, g: T, h: T)
    requires cy.ops.Lawful() && cy.Has(t)
    ensures Untie(cy, t, e, f, g, T1(cy, t, e, f, g, h)) == h
    ensures T1(cy, t, e, f, g, Untie(cy, t, e, f, g, h)) == h
  {
    hide Ops.Lawful;
    var o := cy.ops;
    var p, q, r, s := o.Sigma1(e), o.ch(e, f, g), cy.constants[t], cy.schedule[t];
    TakenBack(o, h, p, q, r, s);
    Restored(o, h, p, q, r, s);
  }

  lemma {:induction false} TakenBack<T(!new)>(o: Ops<T>, h: T, p: T, q: T, r: T, s: T)
    requires o.Lawful()
    ensures var x := o.plus(o.plus(o.plus(o.plus(h, p), q), r), s);
      o.minus(o.minus(o.minus(o.minus(x, p), q), r), s) == h
  {
    hide Ops.Lawful;
    Laws(o, o.plus(o.plus(o.plus(h, p), q), r), s, p);
    Laws(o, o.plus(o.plus(h, p), q), r, p);
    Laws(o, o.plus(h, p), q, p);
    Laws(o, h, p, p);
    Laws(o, o.plus(o.plus(h, q), r), s, q);
    Laws(o, o.plus(h, q), r, q);
    Laws(o, h, q, q);
    Laws(o, o.plus(h, r), s, r);
    Laws(o, h, r, r);
    Laws(o, h, s, s);
  }

  lemma {:induction false} Restored<T(!new)>(o: Ops<T>, h: T, p: T, q: T, r: T, s: T)
    requires o.Lawful()
    ensures var x := o.minus(o.minus(o.minus(o.minus(h, p), q), r), s);
      o.plus(o.plus(o.plus(o.plus(x, p), q), r), s) == h
  {
    hide Ops.Lawful;
    Laws(o, o.minus(o.minus(o.minus(h, p), q), r), p, s);
    Laws(o, o.minus(o.minus(h, p), q), p, r);
    Laws(o, o.minus(h, p), p, q);
    Laws(o, h, p, p);
    Laws(o, o.minus(o.minus(h, q), r), q, s);
    Laws(o, o.minus(h, q), q, r);
    Laws(o, h, q, q);
    Laws(o, o.minus(h, r), r, s);
    Laws(o, h, r, r);
    Laws(o, h, s, s);
  }

  lemma {:induction false} RoundUndone<T(!new)>(cy: Cypher<T>, t: nat, r: Regs<T>)
    requires cy.ops.Lawful() && cy.Has(t)
    ensures Unround(cy, t, Round(cy, t, r)) == r && Round(cy, t, Unround(cy, t, r)) == r
  {
    hide Ops.Lawful, T1, T2, Untie;
    var t1 := T1(cy, t, r.e, r.f, r.g, r.h);
    var t2 := T2(cy, r.a, r.b, r.c);
    Laws(cy.ops, t1, t2, t2);
    Laws(cy.ops, r.d, t1, t1);
    Untied(cy, t, r.e, r.f, r.g, r.h);
    var u2 := T2(cy, r.b, r.c, r.d);
    var u1 := cy.ops.minus(r.a, u2);
    Laws(cy.ops, r.a, u2, u2);
    Laws(cy.ops, r.e, u1, u1);
    Untied(cy, t, r.f, r.g, r.h, u1);
  }

  /** For every schedule and block, decyphering inverts encyphering and the reverse. */
  lemma {:induction false} RoundsUndone<T(!new)>(cy: Cypher<T>, t: nat, r: Regs<T>)
    requires cy.Valid() && t <= cy.ops.rounds
    ensures Unrounds(cy, t, Rounds(cy, t, r)) == r
    ensures Rounds(cy, t, Unrounds(cy, t, r)) == r
    decreases t
  {
    hide Round, Unround, Ops.Lawful;
    if t > 0 {
      RoundUndone(cy, t - 1, Rounds(cy, t - 1, r));
      RoundsUndone(cy, t - 1, r);
      RoundsUndone(cy, t - 1, Unround(cy, t - 1, r));
      RoundUndone(cy, t - 1, r);
    }
  }

  // ---- Key schedule ----

  function Expanded<T(!new)>(o: Ops<T>, w: seq<T>, t: nat): T
    requires 16 <= t <= |w|
  {
    o.plus(o.plus(o.plus(o.sigma1(w[t - 2]), w[t - 7]), o.sigma0(w[t - 15])), w[t - 16])
  }

  ghost predicate IsSchedule<T(!new)>(o: Ops<T>, w: seq<T>) {
    |w| == o.rounds && forall t :: 16 <= t < |w| ==> w[t] == Expanded(o, w, t)
  }

  /** The key, the first sixteen words, fixes the schedule. */
  lemma {:induction false} ScheduleDetermined<T(!new)>(o: Ops<T>, v: seq<T>, w: seq<T>, t: nat)
    requires IsSchedule(o, v) && IsSchedule(o, w) && 16 <= o.rounds && t <= o.rounds
    requires v[..16] == w[..16]
    ensures v[..t] == w[..t]
  {
    if t > 16 {
      ScheduleDetermined(o, v, w, t - 1);
      forall i | 0 <= i < t - 1 ensures v[i] == w[i] {
        assert v[..t - 1][i] == w[..t - 1][i];
      }
      assert v[t - 1] == Expanded(o, v, t - 1);
      assert w[t - 1] == Expanded(o, w, t - 1);
    } else {
      forall i | 0 <= i < t ensures v[i] == w[i] {
        assert v[..16][i] == w[..16][i];
      }
    }
  }

  method PrepareSchedule<T(!new)>(o: Ops<T>, schedule: array<T>)
    requires 16 <= o.rounds == schedule.Length
    modifies schedule
    ensures schedule[..16] == old(schedule[..16]) && IsSchedule(o, schedule[..])
  {
    for t := 16 to o.rounds
      invariant schedule[..16] == old(schedule[..16])
      invariant forall u :: 16 <= u < t ==> schedule[u] == Expanded(o, schedule[..], u)
    {
      ghost var was := schedule[..];
      schedule[t] := o.plus(o.plus(o.plus(o.sigma1(schedule[t - 2]), schedule[t - 7]), o.sigma0(schedule[t - 15])),
        schedule[t - 16]);
      forall u | 16 <= u <= t ensures Expanded(o, schedule[..], u) == Expanded(o, was, u) {
      }
    }
  }

  // ---- The rounds ----

  class Shacal2Cypher<T(!new)> {
    const cy: Cypher<T>

    constructor (cy: Cypher<T>)
      requires cy.Valid()
      ensures this.cy == cy
    {
      this.cy := cy;
    }

    method Transform(t: nat, r: Regs<T>) returns (q: Regs<T>)
      requires cy.Has(t)
      ensures q == Round(cy, t, r)
    {
      var o := cy.ops;
      var a, b, c, d, e, f, g, h := r.a, r.b, r.c, r.d, r.e, r.f, r.g, r.h;
      var t1 := o.plus(o.plus(o.plus(o.plus(h, o.Sigma1(e)), o.ch(e, f, g)), cy.constants[t]), cy.schedule[t]);
      var t2 := o.plus(o.Sigma0(a), o.maj(a, b, c));
      h := g;
      g := f;
      f := e;
      e := o.plus(d, t1);
      d := c;
      c := b;
      b := a;
      a := o.plus(t1, t2);
      q := Regs(a, b, c, d, e, f, g, h);
    }

    method EncypherReference(plaintext: Regs<T>) returns (cyphertext: Regs<T>)
      requires cy.Valid()
      ensures cyphertext == Rounds(cy, cy.ops.rounds, plaintext)
    {
      hide Round, Ops.Lawful;
      cyphertext := plaintext;
      for t := 0 to cy.ops.rounds
        invariant cyphertext == Rounds(cy, t, plaintext)
      {
        cyphertext := Transform(t, cyphertext);
      }
    }

    /** Batches of eight rounds, with no test of t inside. */
    method Encypher(plaintext: Regs<T>) returns (cyphertext: Regs<T>)
      requires cy.Valid()
      ensures cyphertext == Rounds(cy, cy.ops.rounds, plaintext)
    {
      hide Round, Ops.Lawful, Eights;
      Batches(cy.ops);
      cyphertext := plaintext;
      var t := 0;
      while t < cy.ops.rounds
        invariant 0 <= t <= cy.ops.rounds && Eights(t)
        invariant cyphertext == Rounds(cy, t, plaintext)
      {
        var n := 8;
        ghost var batch := t;
        OneBatch(t, cy.ops.rounds);
        while n != 0
          invariant 0 <= n <= 8 && t == batch + (8 - n) && batch + 8 <= cy.ops.rounds
          invariant cyphertext == Rounds(cy, t, plaintext)
          decreases n
        {
          n := n - 1;
          cyphertext := Transform(t, cyphertext);
          t := t + 1;
        }
      }
    }

    method Decypher(cyphertext: Regs<T>) returns (plaintext: Regs<T>)
      requires cy.Valid()
      ensures plaintext == Unrounds(cy, cy.ops.rounds, cyphertext)
    {
      hide Ops.Lawful;
      var o := cy.ops;
      var a, b, c, d := cyphertext.a, cyphertext.b, cyphertext.c, cyphertext.d;
      var e, f, g, h := cyphertext.e, cyphertext.f, cyphertext.g, cyphertext.h;
      var t := o.rounds;
      while t != 0
        invariant 0 <= t <= o.rounds
        invariant Unrounds(cy, t, Regs(a, b, c, d, e, f, g, h)) == Unrounds(cy, o.rounds, cyphertext)
      {
        t := t - 1;
        var t2 := o.plus(o.Sigma0(b), o.maj(b, c, d));
        var t1 := o.minus(a, t2);
        a := b;
        b := c;
        c := d;
        d := o.minus(e, t1);
        e := f;
        f := g;
        g := h;
        h := o.minus(o.minus(o.minus(o.minus(t1, o.Sigma1(e)), o.ch(e, f, g)), cy.constants[t]), cy.schedule[t]);
      }
      plaintext := Regs(a, b, c, d, e, f, g, h);
    }
  }

  predicate Eights(t: nat) {
    t % 8 == 0
  }

  lemma Batches<T(!new)>(o: Ops<T>)
    requires o.Lawful()
    ensures Eights(o.rounds) && Eights(0)
  {
  }

  lemma OneBatch(t: nat, n: nat)
    requires Eights(t) && Eights(n) && t < n
    ensures t + 8 <= n && Eights(t + 8)
  {
  }
}
