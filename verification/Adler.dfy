/** adler.hpp and detail/primes.hpp: Adler checksums of every even width.

    The checksum is specified by folding update_one.  update_n adds a batch of inputs
    before it reduces; the batch size is the one the header computes, and each step of
    the batch carries the obligation that the wide words do not overflow.
  */
module Adler {
  import opened Arithmetic
  import opened Bytes
  import opened Pack
  import opened Words

  datatype State = State(s0: nat, s1: nat)

  /** Distance of the largest b-bit prime below 2^b - 1. */
  function Offset(b: nat): nat
    requires 4 <= b <= 32
  {
    [2, 0, 2, 0, 4, 2, 2, 8, 2, 0, 2, 18, 14, 0, 4, 0, 2, 8, 2, 14, 2, 38, 4, 38, 56, 2, 34, 0, 4][b - 4]
  }

  predicate Width(bits: nat) {
    8 <= bits <= 64 && bits % 2 == 0
  }

  function Modulo(bits: nat): int
    requires Width(bits)
  {
    Pow2(bits / 2) - 1 - Offset(bits / 2)
  }

  function FastBits(bits: nat): nat {
    if bits < 16 then 16 else bits
  }

  /** How many inputs update_n adds up between two reductions. */
  function Limit(bits: nat): int
    requires Width(bits)
  {
    var less := Pow2(FastBits(bits) / 2 - 8);
    Pow2(FastBits(bits) / 2 - 4) - (if bits < 16 then 0 else less)
  }

  /** Both s0 and s1 of any reduced state fit in half a digest. */
  lemma {:induction false} ModuloRange(bits: nat)
    requires Width(bits)
    ensures 11 <= Modulo(bits) < Pow2(bits / 2)
  {
    var b := bits / 2;
    assert Pow2(4) == 16 && Pow2(11) == 2048;
    PowAtLeast(4, b);
    if b >= 11 { PowAtLeast(11, b); }
  }

  // ---- update_one, folded ----

  function One(bits: nat, m: nat, st: State, x: Byte): State
    requires m > 0
  {
    var y := if bits < 16 then Rem(x, m) else x;
    var s1 := Rem(st.s1 + y, m);
    State(Rem(st.s0 + s1, m), s1)
  }

  function Folded(bits: nat, m: nat, st: State, xs: seq<Byte>): State
    requires m > 0
  {
    if xs == [] then st
    else One(bits, m, Folded(bits, m, st, xs[..|xs| - 1]), xs[|xs| - 1])
  }

  // ---- the same sums, never reduced ----

  function Exact(st: State, xs: seq<Byte>): State {
    if xs == [] then st
    else
      var e := Exact(st, xs[..|xs| - 1]);
      var s1 := e.s1 + xs[|xs| - 1];
      State(e.s0 + s1, s1)
  }

  function Reduced(m: nat, st: State): State
    requires m > 0
  {
    State(Rem(st.s0, m), Rem(st.s1, m))
  }

  lemma {:induction false} RemSum(a: nat, b: nat, m: nat)
    requires m > 0
    ensures Rem(Rem(a, m) + b, m) == Rem(a + b, m)
    ensures Rem(b + Rem(a, m), m) == Rem(a + b, m)
  {
    RemBase(a, m);
    RemAdd(a - Rem(a, m), Rem(a, m) + b, m);
  }

  lemma {:induction false} OneReduces(bits: nat, m: nat, e: State, x: Byte)
    requires m > 0
    ensures One(bits, m, Reduced(m, e), x) == Reduced(m, State(e.s0 + e.s1 + x, e.s1 + x))
  {
    hide Rem;
    RemSum(e.s1, x, m);
    RemSum(x, Rem(e.s1, m), m);
    RemSum(e.s1, Rem(x, m), m);
    RemSum(e.s1 + x, Rem(e.s0, m), m);
    RemSum(e.s0, e.s1 + x, m);
  }

  /** The modulo may be taken at the end: folding update_one is reducing the exact sums. */
  lemma {:induction false} FoldedIsReduced(bits: nat, m: nat, st: State, xs: seq<Byte>)
    requires m > 0
    ensures Folded(bits, m, Reduced(m, st), xs) == Reduced(m, Exact(st, xs))
  {
    hide Rem, One, Reduced;
    if xs != [] {
      FoldedIsReduced(bits, m, st, xs[..|xs| - 1]);
      OneReduces(bits, m, Exact(st, xs[..|xs| - 1]), xs[|xs| - 1]);
    }
  }

  /** Folding in two pieces. */
  lemma {:induction false} FoldedAppend(bits: nat, m: nat, st: State, xs: seq<Byte>, ys: seq<Byte>)
    requires m > 0
    ensures Folded(bits, m, st, xs + ys) == Folded(bits, m, Folded(bits, m, st, xs), ys)
  {
    hide One;
    if ys == [] {
      assert xs + ys == xs;
    } else {
      var front := ys[..|ys| - 1];
      FoldedAppend(bits, m, st, xs, front);
      assert (xs + ys)[..|xs + ys| - 1] == xs + front;
    }
  }

  // ---- closed form ----

  function Sum(xs: seq<Byte>): nat {
    if xs == [] then 0 else Sum(xs[..|xs| - 1]) + xs[|xs| - 1]
  }

  /** Each byte counted once for itself and once for every byte after it. */
  function WeightedSum(xs: seq<Byte>, i: nat): nat
    requires i <= |xs|
  {
    if i == 0 then 0 else WeightedSum(xs, i - 1) + (|xs| - (i - 1)) * xs[i - 1]
  }

  lemma {:induction false} OneMoreByte(xs: seq<Byte>, x: Byte, i: nat)
    requires i <= |xs|
    ensures WeightedSum(xs + [x], i) == WeightedSum(xs, i) + Sum(xs[..i])
  {
    if i > 0 {
      OneMoreByte(xs, x, i - 1);
      assert xs[..i][..i - 1] == xs[..i - 1];
      WeightGrows(|xs| - (i - 1), xs[i - 1]);
    }
  }

  lemma WeightGrows(w: nat, x: nat)
    ensures (w + 1) * x == w * x + x
  {
  }

  lemma {:induction false} ExactClosedForm(st: State, xs: seq<Byte>)
    ensures Exact(st, xs).s1 == st.s1 + Sum(xs)
    ensures Exact(st, xs).s0 == st.s0 + |xs| * st.s1 + WeightedSum(xs, |xs|)
  {
    if xs != [] {
      var front, x := xs[..|xs| - 1], xs[|xs| - 1];
      ExactClosedForm(st, front);
      OneMoreByte(front, x, |front|);
      assert front + [x] == xs && front[..|front|] == front;
      WeightGrows(|front|, st.s1);
    }
  }

  /** Section 2.2 of RFC 1950, for every width: s1 is 1 plus the bytes, s0 the sum of
      all the values s1 took. */
  lemma {:induction false} ChecksumClosedForm(bits: nat, xs: seq<Byte>)
    requires Width(bits)
    ensures Modulo(bits) > 0
    ensures Folded(bits, Modulo(bits), State(0, 1), xs) ==
      State((|xs| + WeightedSum(xs, |xs|)) % Modulo(bits), (1 + Sum(xs)) % Modulo(bits))
  {
    hide Rem, Folded, Modulo, Width;
    ModuloRange(bits);
    var m := Modulo(bits);
    assert Reduced(m, State(0, 1)) == State(0, 1);
    FoldedIsReduced(bits, m, State(0, 1), xs);
    ExactClosedForm(State(0, 1), xs);
    RemIsMod(|xs| + WeightedSum(xs, |xs|), m);
    RemIsMod(1 + Sum(xs), m);
  }

  // ---- no overflow between reductions ----

  /** The worst s0 after k inputs: every input 255 and both sums at m - 1 to begin with. */
  function Worst(m: nat, k: nat): nat
    requires m > 0
  {
    if k == 0 then m - 1 else Worst(m, k - 1) + (m - 1) + 255 * k
  }

  lemma {:induction false} WorstIsWorst(m: nat, st: State, xs: seq<Byte>)
    requires st.s0 < m && st.s1 < m
    ensures Exact(st, xs).s1 <= m - 1 + 255 * |xs|
    ensures Exact(st, xs).s0 <= Worst(m, |xs|)
    ensures Exact(st, xs).s1 <= Worst(m, |xs|)
  {
    if xs != [] { WorstIsWorst(m, st, xs[..|xs| - 1]); }
  }

  lemma {:induction false} WorstGrows(m: nat, j: nat, k: nat)
    requires m > 0 && j <= k
    ensures Worst(m, j) <= Worst(m, k)
  {
    if j < k { WorstGrows(m, j, k - 1); }
  }

  lemma {:induction false} WorstClosedForm(m: nat, k: nat)
    requires m > 0
    ensures 2 * Worst(m, k) == 2 * ((k + 1) * (m - 1)) + 255 * (k * (k + 1))
  {
    if k > 0 {
      WorstClosedForm(m, k - 1);
      WeightGrows(k, m - 1);
      Square(k);
    }
  }

  lemma Square(k: nat)
    requires k > 0
    ensures k * (k + 1) == (k - 1) * k + 2 * k
  {
  }

  /** Wide case: with q = 2^(Bits/2 - 8), at most 15q inputs and a modulus below 256q. */
  lemma {:induction false} WideFits(m: nat, q: nat)
    requires q >= 1 && 0 < m < 256 * q
    ensures Worst(m, 15 * q) < 65536 * (q * q)
  {
    WorstClosedForm(m, 15 * q);
    var k := 15 * q;
    MulLe(k + 1, m - 1, 256 * q - 2);
    Expand(q);
    MulLe(q, 1, q);
  }

  lemma Expand(q: int)
    ensures (15 * q + 1) * (256 * q - 2) == 3840 * (q * q) + 226 * q - 2
    ensures (15 * q) * (15 * q + 1) == 225 * (q * q) + 15 * q
  {
  }

  lemma {:induction false} NarrowFits(m: nat)
    requires 0 < m < 128
    ensures Worst(m, 16) < 65536
  {
    WorstClosedForm(m, 16);
  }

  /** The header's limit keeps every intermediate sum below 2^fast_word_bits, at every width. */
  lemma {:induction false} LimitPreventsOverflow(bits: nat, st: State, xs: seq<Byte>)
    requires Width(bits)
    requires st.s0 < Modulo(bits) && st.s1 < Modulo(bits) && |xs| <= Limit(bits)
    ensures Exact(st, xs).s0 < Pow2(FastBits(bits)) && Exact(st, xs).s1 < Pow2(FastBits(bits))
  {
    hide Modulo, Limit, Exact, Worst, Pow2;
    var m := Modulo(bits);
    ModuloRange(bits);
    WorstIsWorst(m, st, xs);
    WorstGrows(m, |xs|, Limit(bits));
    LimitFits(bits);
  }

  lemma {:induction false} LimitFits(bits: nat)
    requires Width(bits)
    ensures 0 < Limit(bits) && 0 < Modulo(bits)
    ensures Worst(Modulo(bits), Limit(bits)) < Pow2(FastBits(bits))
  {
    hide Modulo, Worst;
    ModuloRange(bits);
    if bits < 16 {
      NarrowPowers(bits);
      NarrowFits(Modulo(bits));
    } else {
      WidePowers(bits);
      WideFits(Modulo(bits), Pow2(bits / 2 - 8));
    }
  }

  lemma {:induction false} NarrowPowers(bits: nat)
    requires Width(bits) && bits < 16
    ensures Limit(bits) == 16 && Pow2(bits / 2) <= 128 && Pow2(16) == 65536
  {
    PowAtLeast(bits / 2, 7);
    assert Pow2(7) == 128 && Pow2(4) == 16;
    PowSum(8, 8);
    assert Pow2(8) == 256;
  }

  lemma {:induction false} WidePowers(bits: nat)
    requires Width(bits) && 16 <= bits
    ensures Limit(bits) == 15 * Pow2(bits / 2 - 8)
    ensures Pow2(bits / 2) == 256 * Pow2(bits / 2 - 8)
    ensures Pow2(bits) == 65536 * (Pow2(bits / 2 - 8) * Pow2(bits / 2 - 8))
  {
    var h := bits / 2 - 8;
    var q := Pow2(h);
    hide Pow2;
    EightMore(h);
    assert bits / 2 - 4 == h + 4 && bits / 2 == h + 8 && bits == (h + 8) + (h + 8);
    PowSum(h + 8, h + 8);
    Scale(q);
  }

  lemma {:induction false} EightMore(h: nat)
    ensures Pow2(h + 4) == 16 * Pow2(h) && Pow2(h + 8) == 256 * Pow2(h)
  {
    assert Pow2(h + 2) == 4 * Pow2(h);
    assert Pow2(h + 4) == 4 * Pow2(h + 2);
    assert Pow2(h + 6) == 4 * Pow2(h + 4);
    assert Pow2(h + 8) == 4 * Pow2(h + 6);
  }

  lemma Scale(q: nat)
    ensures (256 * q) * (256 * q) == 65536 * (q * q)
  {
  }

  /** The batch sizes at every width: 15 times a power of two from 16 bits on, which are the
      entries of the header's own table but for the 16 it has for 16 bits. */
  lemma {:induction false} LimitTable(bits: nat)
    requires Width(bits)
    ensures Limit(bits) == if bits < 16 then 16 else 15 * Pow2(bits / 2 - 8)
    ensures bits == 16 ==> Limit(bits) == 15
    ensures bits == 24 ==> Limit(bits) == 240
    ensures bits == 32 ==> Limit(bits) == 3840
    ensures bits == 40 ==> Limit(bits) == 61440
    ensures bits == 48 ==> Limit(bits) == 983040
    ensures bits == 56 ==> Limit(bits) == 15728640
    ensures bits == 64 ==> Limit(bits) == 251658240
  {
    if bits < 16 { NarrowPowers(bits); } else { WidePowers(bits); }
    hide Limit, Pow2;
    Nibbles();
  }

  lemma {:induction false} Nibbles()
    ensures Pow2(0) == 1 && Pow2(4) == 16 && Pow2(8) == 256 && Pow2(12) == 4096
    ensures Pow2(16) == 65536 && Pow2(20) == 1048576 && Pow2(24) == 16777216
  {
    PowNone();
    hide Pow2;
    EightMore(0);
    EightMore(8);
    EightMore(16);
  }

  lemma PowNone()
    ensures Pow2(0) == 1
  {
  }

  lemma {:induction false} ModuloOf(bits: nat, p: nat)
    requires Width(bits) && Pow2(bits / 2) == p
    ensures Modulo(bits) == p - 1 - Offset(bits / 2)
  {
  }

  /** The moduli of the octet widths; 65521 is that of section 8.2 of RFC 1950. */
  lemma {:induction false} ModuloTable()
    ensures Modulo(8) == 13 && Modulo(16) == 251 && Modulo(24) == 4093 && Modulo(32) == 65521
    ensures Modulo(40) == 1048573 && Modulo(48) == 16777213 && Modulo(56) == 268435399 && Modulo(64) == 4294967291
  {
    hide Modulo, Pow2;
    Nibbles();
    PowSum(16, 12);
    PowSum(16, 16);
    ModuloOf(8, 0x10);
    ModuloOf(16, 0x100);
    ModuloOf(24, 0x1000);
    ModuloOf(32, 0x1_0000);
    ModuloOf(40, 0x10_0000);
    ModuloOf(48, 0x100_0000);
    ModuloOf(56, 0x1000_0000);
    ModuloOf(64, 0x1_0000_0000);
  }

  class BasicAdler {
    const bits: nat
    const modulo: nat
    var s0: nat
    var s1: nat
    /** Everything hashed since the last reset. */
    ghost var message: seq<Byte>

    ghost predicate Valid()
      reads this
    {
      && Width(bits) && modulo == Modulo(bits) && modulo > 0
      && s0 < modulo && s1 < modulo
      && State(s0, s1) == Folded(bits, modulo, State(0, 1), message)
    }

    constructor (bits: nat)
      requires Width(bits)
      ensures Valid() && this.bits == bits && message == []
    {
      ModuloRange(bits);
      this.bits := bits;
      modulo := Modulo(bits);
      s0, s1 := 0, 1;
      message := [];
    }

    method Reset()
      requires Width(bits) && modulo == Modulo(bits)
      modifies this
      ensures Valid() && message == []
    {
      ModuloRange(bits);
      s0, s1 := 0, 1;
      message := [];
    }

    method UpdateOne(x: Byte)
      requires Valid()
      modifies this
      ensures Valid() && message == old(message) + [x]
    {
      hide Modulo, Width, Folded, Rem;
      FoldedStep(bits, modulo, State(0, 1), message, x);
      OneFits(bits, State(s0, s1), x);
      var y := x;
      if bits < 16 { y := Rem(y, modulo); }
      s1 := Rem(s1 + y, modulo);
      s0 := Rem(s0 + s1, modulo);
      message := message + [x];
    }

    /** s0 << (Bits/2) | s1, packed into octets, which needs whole octets. */
    method Digest() returns (d: seq<Word>)
      requires Valid() && Multiple(bits, 8)
      ensures d == Octets(bits, Combined(bits, Folded(bits, modulo, State(0, 1), message)))
    {
      OctetWidths(bits);
      var x := NatWord(Combined(bits, State(s0, s1)), bits);
      d := PackN(BIG_BIT, 1, bits, 8, 8, [x]);
    }

    method EndMessage() returns (d: seq<Word>)
      requires Valid() && Multiple(bits, 8)
      modifies this
      ensures d == Octets(bits, Combined(bits, Folded(bits, modulo, State(0, 1), old(message))))
      ensures Valid() && message == []
    {
      d := Digest();
      Reset();
    }

    /** Adds batches of Limit(bits) inputs, eight at a time, and reduces after each. */
    method UpdateN(xs: seq<Byte>)
      requires Valid()
      modifies this
      ensures Valid() && message == old(message) + xs
    {
      hide Folded, Exact, Modulo, Limit, Width, Pow2, Rem;
      LimitFits(bits);
      ghost var st := State(s0, s1);
      var f0: nat, f1: nat := s0, s1;
      var limit := Limit(bits);
      var n: nat, p: nat := |xs|, 0;
      FoldedNothing(bits, modulo, st);
      assert xs[..0] == [];
      while n >= limit
        invariant n + p == |xs| && f0 < modulo && f1 < modulo && message == old(message)
        invariant State(f0, f1) == Folded(bits, modulo, st, xs[..p])
      {
        ghost var base, b := State(f0, f1), p;
        f0, f1, p := Batch(bits, xs, p, limit, f0, f1);
        f1 := Rem(f1, modulo);
        f0 := Rem(f0, modulo);
        BatchReduced(bits, modulo, st, base, xs, b, p);
        n := n - limit;
      }
      ghost var base, b := State(f0, f1), p;
      f0, f1, p := Batch(bits, xs, p, n, f0, f1);
      f1 := Rem(f1, modulo);
      f0 := Rem(f0, modulo);
      BatchReduced(bits, modulo, st, base, xs, b, p);
      assert xs[..p] == xs;
      FoldedAppend(bits, modulo, State(0, 1), message, xs);
      s0, s1 := f0, f1;
      message := message + xs;
    }

    /** Input ranges without random access go one value at a time. */
    method UpdateEach(xs: seq<Byte>)
      requires Valid()
      modifies this
      ensures Valid() && message == old(message) + xs
    {
      hide Folded, Modulo, Width;
      var i := 0;
      while i < |xs|
        invariant 0 <= i <= |xs| && Valid() && message == old(message) + xs[..i]
      {
        assert xs[..i + 1] == xs[..i] + [xs[i]];
        UpdateOne(xs[i]);
        i := i + 1;
      }
      assert xs[..i] == xs;
    }
  }

  /** Neither addition of update_one can wrap a word of `bits` bits. */
  lemma {:induction false} OneFits(bits: nat, st: State, x: Byte)
    requires Width(bits) && 0 < Modulo(bits) && st.s0 < Modulo(bits) && st.s1 < Modulo(bits)
    ensures st.s1 + (if bits < 16 then Rem(x, Modulo(bits)) else x) < Pow2(bits)
    ensures st.s0 + One(bits, Modulo(bits), st, x).s1 < Pow2(bits)
  {
    var h := bits / 2;
    hide Modulo, Pow2;
    ModuloRange(bits);
    HalfDoubled(h);
  }

  lemma {:induction false} HalfDoubled(h: nat)
    requires 4 <= h
    ensures 2 * Pow2(h) <= Pow2(h + h)
    ensures h >= 8 ==> Pow2(h) >= 256
  {
    PowAtLeast(h + 1, h + h);
    if h >= 8 { PowAtLeast(8, h); EightMore(0); }
  }

  function Combined(bits: nat, st: State): nat {
    st.s0 * Pow2(bits / 2) + st.s1
  }

  /** The digest keeps s0 in its high half and s1 in its low half, and nothing is lost. */
  lemma {:induction false} CombinedFits(bits: nat, st: State)
    requires Width(bits) && st.s0 < Modulo(bits) && st.s1 < Modulo(bits)
    ensures Combined(bits, st) < Pow2(bits)
    ensures Combined(bits, st) / Pow2(bits / 2) == st.s0 && Combined(bits, st) % Pow2(bits / 2) == st.s1
  {
    hide Modulo, Pow2;
    ModuloRange(bits);
    var h := Pow2(bits / 2);
    PowSum(bits / 2, bits / 2);
    MulLe(h, st.s0, h - 1);
    DivModUnique(Combined(bits, st), h, st.s0, st.s1);
  }

  // ---- the digest in octets ----

  const BIG_BIT := Order(true, true)

  lemma {:induction false} OctetWidths(bits: nat)
    requires Width(bits) && Multiple(bits, 8)
    ensures Convertible(1, bits, 8)
  {
    MultipleOfOne(bits);
    MultipleOfOne(8);
  }

  function Octets(bits: nat, n: nat): seq<Word>
    requires Width(bits) && Multiple(bits, 8)
  {
    OctetWidths(bits);
    PackSeq(BIG_BIT, 1, bits, 8, 8, [NatWord(n, bits)])
  }

  /** The octets, each read from its highest bit on, are the digest from its highest bit on. */
  lemma {:induction false} OctetsAreBigEndian(bits: nat, n: nat, k: nat)
    requires Width(bits) && Multiple(bits, 8) && n < Pow2(bits) && k < bits
    ensures var stream := StreamBits(BIG_BIT, 1, 8, Octets(bits, n));
      |stream| == bits && stream[k] == Bit(NatWord(n, bits), bits - 1 - k)
    ensures WordNat(NatWord(n, bits)) == n
  {
    hide PackSeq, Multiple, Pow2;
    OctetWidths(bits);
    var x := NatWord(n, bits);
    NatWordBack(n, bits);
    assert StreamBits(BIG_BIT, 1, bits, [x]) == WordBits(BIG_BIT, 1, bits, x) + [];
    PackKeepsBits(BIG_BIT, 1, bits, 8, 8, [x]);
    RemOne(k);
  }

  lemma {:induction false} RemOne(k: nat)
    ensures Rem(k, 1) == 0
  {
  }

  lemma {:induction false} NatWordBack(n: nat, w: nat)
    requires n < Pow2(w)
    ensures |NatWord(n, w)| == w && WordNat(NatWord(n, w)) == n
  {
    if w > 0 { NatWordBack(n / 2, w - 1); }
  }

  lemma FoldedNothing(bits: nat, m: nat, st: State)
    requires m > 0
    ensures Folded(bits, m, st, []) == st
  {
  }

  /** Reducing the sums of one batch is folding update_one over it. */
  lemma {:induction false} BatchReduced(bits: nat, m: nat, st: State, base: State, xs: seq<Byte>, b: nat, p: nat)
    requires m > 0 && b <= p <= |xs| && base.s0 < m && base.s1 < m
    requires base == Folded(bits, m, st, xs[..b])
    ensures Reduced(m, Exact(base, xs[b..p])) == Folded(bits, m, st, xs[..p])
  {
    hide Folded, Exact, Rem;
    FoldedIsReduced(bits, m, base, xs[b..p]);
    FoldedAppend(bits, m, st, xs[..b], xs[b..p]);
    assert xs[..b] + xs[b..p] == xs[..p];
  }

  /** BOOST_HASH_ADLER_STEP.  The sums stay below 2^fast_word_bits, so no type the
      header may pick for them wraps. */
  method Step(bits: nat, xs: seq<Byte>, p: nat, s0: nat, s1: nat, ghost base: State, ghost b: nat)
    returns (t0: nat, t1: nat, q: nat)
    requires Width(bits) && base.s0 < Modulo(bits) && base.s1 < Modulo(bits)
    requires b <= p < |xs| && p - b < Limit(bits)
    requires State(s0, s1) == Exact(base, xs[b..p])
    ensures q == p + 1 && State(t0, t1) == Exact(base, xs[b..q])
    ensures t0 < Pow2(FastBits(bits)) && t1 < Pow2(FastBits(bits))
  {
    hide Modulo, Limit, Pow2, Width, Exact;
    var x := xs[p];
    q := p + 1;
    ExactStep(base, xs[b..p], x);
    t1 := s1 + x;
    t0 := s0 + t1;
    assert xs[b..q] == xs[b..p] + [x];
    LimitPreventsOverflow(bits, base, xs[b..q]);
  }

  /** n inputs, eight to a turn and then one to a turn. */
  method Batch(bits: nat, xs: seq<Byte>, start: nat, n: nat, s0: nat, s1: nat)
    returns (t0: nat, t1: nat, p: nat)
    requires Width(bits) && s0 < Modulo(bits) && s1 < Modulo(bits)
    requires start + n <= |xs| && n <= Limit(bits)
    ensures p == start + n && State(t0, t1) == Exact(State(s0, s1), xs[start..p])
  {
    hide Modulo, Limit, Pow2, Width, Exact;
    ghost var base := State(s0, s1);
    var m: nat := n;
    t0, t1, p := s0, s1, start;
    ExactNothing(base, xs, start);
    while m >= 8
      invariant m + p == start + n && p >= start
      invariant State(t0, t1) == Exact(base, xs[start..p])
    {
      t0, t1, p := Step(bits, xs, p, t0, t1, base, start);
      t0, t1, p := Step(bits, xs, p, t0, t1, base, start);
      t0, t1, p := Step(bits, xs, p, t0, t1, base, start);
      t0, t1, p := Step(bits, xs, p, t0, t1, base, start);
      t0, t1, p := Step(bits, xs, p, t0, t1, base, start);
      t0, t1, p := Step(bits, xs, p, t0, t1, base, start);
      t0, t1, p := Step(bits, xs, p, t0, t1, base, start);
      t0, t1, p := Step(bits, xs, p, t0, t1, base, start);
      m := m - 8;
    }
    while m != 0
      invariant m + p == start + n && p >= start
      invariant State(t0, t1) == Exact(base, xs[start..p])
    {
      m := m - 1;
      t0, t1, p := Step(bits, xs, p, t0, t1, base, start);
    }
  }

  lemma ExactStep(st: State, xs: seq<Byte>, x: Byte)
    ensures Exact(st, xs + [x]) ==
      State(Exact(st, xs).s0 + Exact(st, xs).s1 + x, Exact(st, xs).s1 + x)
  {
    assert (xs + [x])[..|xs|] == xs;
  }

  lemma FoldedStep(bits: nat, m: nat, st: State, xs: seq<Byte>, x: Byte)
    requires m > 0
    ensures Folded(bits, m, st, xs + [x]) == One(bits, m, Folded(bits, m, st, xs), x)
  {
    hide One;
    assert (xs + [x])[..|xs|] == xs;
  }

  lemma ExactNothing(st: State, xs: seq<Byte>, p: nat)
    requires p <= |xs|
    ensures Exact(st, xs[p..p]) == st
  {
  }
}
