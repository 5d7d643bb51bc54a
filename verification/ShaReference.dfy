/** The functions, rounds and schedules of the SHA family as sections 4.1, 6.1 and 6.2 of
    FIPS 180-2 define them: bit by bit, and in numbers.
  */
module ShaReference {
  import W32 = BasicFunctions32
  import W64 = BasicFunctions
  import S1 = Shacal
  import S2 = Shacal2

  // ----- Words of 32 bits

  /** Ch takes the second word where the first has a 1 and the third where it has a 0. */
  lemma ChooseMeans32(x: bv32, y: bv32, z: bv32)
    ensures S1.Choose32(x, y, z) & x == y & x
    ensures S1.Choose32(x, y, z) & !x == z & !x
  {
  }

  /** Maj has a 1 where at least two of the words have one. */
  lemma MajorityMeans32(x: bv32, y: bv32, z: bv32)
    ensures S1.Majority32(x, y, z) == (x & y) | (x & z) | (y & z)
  {
  }

  /** Where the four functions send the lowest and the highest bit of a word. */
  lemma SigmasOfBits32()
    ensures S2.BigSigma0At32(W32.Word(0x0000_0001)).bits == 0x4008_0400
    ensures S2.BigSigma0At32(W32.Word(0x8000_0000)).bits == 0x2004_0200
    ensures S2.BigSigma1At32(W32.Word(0x0000_0001)).bits == 0x0420_0080
    ensures S2.BigSigma1At32(W32.Word(0x8000_0000)).bits == 0x0210_0040
    ensures S2.SmallSigma0At32(W32.Word(0x0000_0001)).bits == 0x0200_4000
    ensures S2.SmallSigma0At32(W32.Word(0x8000_0000)).bits == 0x1100_2000
    ensures S2.SmallSigma1At32(W32.Word(0x0000_0001)).bits == 0x0000_A000
    ensures S2.SmallSigma1At32(W32.Word(0x8000_0000)).bits == 0x0020_5000
  {
  }

  // ----- Words of 64 bits

  /** Ch takes the second word where the first has a 1 and the third where it has a 0. */
  lemma ChooseMeans64(x: bv64, y: bv64, z: bv64)
    ensures S2.Choose64(x, y, z) & x == y & x
    ensures S2.Choose64(x, y, z) & !x == z & !x
  {
  }

  /** Maj has a 1 where at least two of the words have one. */
  lemma MajorityMeans64(x: bv64, y: bv64, z: bv64)
    ensures S2.Majority64(x, y, z) == (x & y) | (x & z) | (y & z)
  {
  }

  /** Where the four functions send the lowest and the highest bit of a word. */
  lemma SigmasOfBits64()
    ensures S2.BigSigma0At64(W64.Word(0x0000_0000_0000_0001)).bits == 0x0000_0010_4200_0000
    ensures S2.BigSigma0At64(W64.Word(0x8000_0000_0000_0000)).bits == 0x0000_0008_2100_0000
    ensures S2.BigSigma1At64(W64.Word(0x0000_0000_0000_0001)).bits == 0x0004_4000_0080_0000
    ensures S2.BigSigma1At64(W64.Word(0x8000_0000_0000_0000)).bits == 0x0002_2000_0040_0000
    ensures S2.SmallSigma0At64(W64.Word(0x0000_0000_0000_0001)).bits == 0x8100_0000_0000_0000
    ensures S2.SmallSigma0At64(W64.Word(0x8000_0000_0000_0000)).bits == 0x4180_0000_0000_0000
    ensures S2.SmallSigma1At64(W64.Word(0x0000_0000_0000_0001)).bits == 0x0000_2000_0000_0008
    ensures S2.SmallSigma1At64(W64.Word(0x8000_0000_0000_0000)).bits == 0x0200_1000_0000_0004
  {
  }

  // ----- Rounds

  /** Section 6.1.2: T = ROTL 5 (a) + f(b, c, d) + e + K + W. */
  lemma {:induction false} Sha1Round(cy: S1.Cypher, t: nat, r: S1.Regs)
    requires cy.Valid() && t < 80
    ensures var f :=
        if t < 20 then S1.Ch(r.b, r.c, r.d)
        else if 40 <= t < 60 then S1.Maj(r.b, r.c, r.d)
        else W32.Xor(W32.Xor(r.b, r.c), r.d);
      var T := W32.Plus(W32.Plus(W32.Plus(W32.Plus(W32.Rotl(r.a, 5), f), r.e), cy.constants[t]), cy.schedule[t]);
      S1.Round(cy, t, r) == S1.Regs(T, r.a, W32.Rotl(r.b, 30), r.c, r.d)
  {
    hide W32.Plus, W32.Xor, W32.Rotl, S1.Ch, S1.Maj;
  }

  /** Section 6.2.2 with the functions of 32-bit words. */
  lemma {:induction false} Sha256Round(cy: S2.Cypher<W32.Word>, t: nat, r: S2.Regs<W32.Word>)
    requires cy.ops == S2.Ops32() && cy.Has(t)
    ensures var T1 := W32.Plus(
        W32.Plus(W32.Plus(W32.Plus(r.h, S2.BigSigma1At32(r.e)), S1.Ch(r.e, r.f, r.g)), cy.constants[t]), cy.schedule[t]);
      var T2 := W32.Plus(S2.BigSigma0At32(r.a), S1.Maj(r.a, r.b, r.c));
      S2.Round(cy, t, r) == S2.Regs(W32.Plus(T1, T2), r.a, r.b, r.c, W32.Plus(r.d, T1), r.e, r.f, r.g)
  {
    hide W32.Plus, S1.Ch, S1.Maj, S2.BigSigma0At32, S2.BigSigma1At32;
  }

  /** And of 64-bit words, section 6.3.2. */
  lemma {:induction false} Sha512Round(cy: S2.Cypher<W64.Word>, t: nat, r: S2.Regs<W64.Word>)
    requires cy.ops == S2.Ops64() && cy.Has(t)
    ensures var T1 := W64.Plus(
        W64.Plus(W64.Plus(W64.Plus(r.h, S2.BigSigma1At64(r.e)), S2.ChAt64(r.e, r.f, r.g)), cy.constants[t]), cy.schedule[t]);
      var T2 := W64.Plus(S2.BigSigma0At64(r.a), S2.MajAt64(r.a, r.b, r.c));
      S2.Round(cy, t, r) == S2.Regs(W64.Plus(T1, T2), r.a, r.b, r.c, W64.Plus(r.d, T1), r.e, r.f, r.g)
  {
    hide W64.Plus, S2.ChAt64, S2.MajAt64, S2.BigSigma0At64, S2.BigSigma1At64;
  }

  // ----- Schedules

  /** Words 16 to 79 of SHA-1, and of SHA-0 without the rotation. */
  lemma {:induction false} Sha1Schedule(sha1: bool, w: seq<W32.Word>, t: nat)
    requires S1.IsSchedule(sha1, w) && 16 <= t < 80
    ensures var x := W32.Xor(W32.Xor(W32.Xor(w[t - 3], w[t - 8]), w[t - 14]), w[t - 16]);
      w[t] == if sha1 then W32.Rotl(x, 1) else x
  {
    hide W32.Xor, W32.Rotl;
  }

  lemma {:induction false} Sha256Schedule(w: seq<W32.Word>, t: nat)
    requires S2.IsSchedule(S2.Ops32(), w) && 16 <= t < |w|
    ensures |w| == 64
    ensures w[t] ==
      W32.Plus(W32.Plus(W32.Plus(S2.SmallSigma1At32(w[t - 2]), w[t - 7]), S2.SmallSigma0At32(w[t - 15])), w[t - 16])
  {
    hide W32.Plus, S2.SmallSigma0At32, S2.SmallSigma1At32;
  }

  lemma {:induction false} Sha512Schedule(w: seq<W64.Word>, t: nat)
    requires S2.IsSchedule(S2.Ops64(), w) && 16 <= t < |w|
    ensures |w| == 80
    ensures w[t] ==
      W64.Plus(W64.Plus(W64.Plus(S2.SmallSigma1At64(w[t - 2]), w[t - 7]), S2.SmallSigma0At64(w[t - 15])), w[t - 16])
  {
    hide W64.Plus, S2.SmallSigma0At64, S2.SmallSigma1At64;
  }
}
