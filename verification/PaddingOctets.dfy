/** The orders of stream_endian.hpp on octets, in numbers, and with them the octets and
    words of the padding of MD4, MD5, SHA and CubeHash.
  */
module PaddingOctets {
  import opened Arithmetic
  import opened Words
  import opened Pack
  import opened StreamPreprocessor
  import opened Padding

  // ----- Bits of an octet

  /** Big-bit orders read an octet from its bit of weight 128 on, little-bit ones from its
      bit of weight 1. */
  lemma {:induction false} OctetBit(o: Order, x: Word, k: nat)
    requires k < 8
    ensures WordBits(o, 8, 8, x)[k] == Bit(x, if o.bigBit then 7 - k else k)
  {
    hide Rem;
  }

  // ----- Octets of a word

  /** A word by its octets, the first of them highest or lowest. */
  function WordOf(big: bool, octets: seq<Word>): Word {
    if octets == [] then []
    else if big then WordOf(big, octets[1..]) + octets[0]
    else octets[0] + WordOf(big, octets[1..])
  }

  predicate AllOctets(octets: seq<Word>) {
    forall x :: x in octets ==> |x| == 8
  }

  lemma {:induction false} WordOfLength(big: bool, octets: seq<Word>)
    requires AllOctets(octets)
    ensures |WordOf(big, octets)| == 8 * |octets|
  {
    if octets != [] {
      assert octets[0] in octets;
      WordOfLength(big, octets[1..]);
    }
  }

  lemma {:induction false} FirstOctetBit(o: Order, x: Word, rest: Word, k: nat)
    requires |x| == 8 && |rest| % 8 == 0 && k < |rest| + 8
    ensures var y := if o.bigUnit then rest + x else x + rest;
      Bit(y, BitPos(o, 8, |y|, k)) ==
        if k < 8 then Bit(x, BitPos(o, 8, 8, k)) else Bit(rest, BitPos(o, 8, |rest|, k - 8))
  {
    if k >= 8 {
      RemBelow(k);
      hide Rem;
      RoomForUnit(k - 8, |rest|);
    }
  }

  lemma RemBelow(k: nat)
    requires k >= 8
    ensures Rem(k, 8) == Rem(k - 8, 8)
  {
  }

  lemma {:induction false} RoomForUnit(k: nat, w: nat)
    requires w % 8 == 0 && k < w
    ensures k - Rem(k, 8) + 8 <= w
  {
    hide Rem;
    RemBase(k, 8);
    MultipleIsMod(w, 8);
    MultipleRoom(k - Rem(k, 8), w, 8);
  }

  lemma {:induction false} FirstOctet(o: Order, x: Word, rest: Word)
    requires |x| == 8 && |rest| % 8 == 0
    ensures var y := if o.bigUnit then rest + x else x + rest;
      WordBits(o, 8, |y|, y) == WordBits(o, 8, 8, x) + WordBits(o, 8, |rest|, rest)
  {
    hide BitPos, Bit;
    var y := if o.bigUnit then rest + x else x + rest;
    var s := WordBits(o, 8, 8, x) + WordBits(o, 8, |rest|, rest);
    forall k | 0 <= k < |y| ensures WordBits(o, 8, |y|, y)[k] == s[k] {
      FirstOctetBit(o, x, rest, k);
    }
  }

  /** A word and its octets are the same stream. */
  lemma {:induction false} SameStream(o: Order, octets: seq<Word>)
    requires AllOctets(octets)
    ensures var y := WordOf(o.bigUnit, octets); WordBits(o, 8, |y|, y) == StreamBits(o, 8, 8, octets)
  {
    hide WordBits;
    if octets == [] {
      NothingInNothing(o);
    } else {
      assert octets[0] in octets;
      var rest := WordOf(o.bigUnit, octets[1..]);
      WordOfLength(o.bigUnit, octets[1..]);
      SameStream(o, octets[1..]);
      FirstOctet(o, octets[0], rest);
    }
  }

  lemma NothingInNothing(o: Order)
    ensures WordBits(o, 8, 0, []) == []
  {
  }

  lemma {:induction false} OctetWidths(w: nat)
    requires w > 0 && w % 8 == 0
    ensures Convertible(8, 8, w) && Convertible(8, w, 8)
  {
    hide Multiple;
    MultipleIsMod(8, 8);
    MultipleIsMod(w, 8);
  }

  /** Words of g octets each. */
  function Grouped(big: bool, g: nat, octets: seq<Word>): seq<Word>
    requires g > 0
  {
    if |octets| < g then [] else [WordOf(big, octets[..g])] + Grouped(big, g, octets[g..])
  }

  lemma {:induction false} GroupedStream(o: Order, g: nat, octets: seq<Word>)
    requires AllOctets(octets) && g > 0 && |octets| % g == 0
    ensures StreamBits(o, 8, 8 * g, Grouped(o.bigUnit, g, octets)) == StreamBits(o, 8, 8, octets)
    ensures AllCanonical(8 * g, 8 * g, Grouped(o.bigUnit, g, octets))
    decreases |octets|
  {
    hide WordBits, WordOf, StreamBits;
    if |octets| < g {
      NoOctets(o, g, octets);
    } else {
      OneGroupLess(|octets|, g);
      var first, rest := octets[..g], octets[g..];
      var y := WordOf(o.bigUnit, first);
      GroupedStream(o, g, rest);
      SameStream(o, first);
      WordOfLength(o.bigUnit, first);
      StreamBitsConcat(o, 8, 8, first, rest);
      StreamBitsCons(o, 8, 8 * g, y, Grouped(o.bigUnit, g, rest));
      assert octets == first + rest;
    }
  }

  lemma NoOctets(o: Order, g: nat, octets: seq<Word>)
    requires |octets| < g && |octets| % g == 0
    ensures octets == [] && StreamBits(o, 8, 8 * g, []) == StreamBits(o, 8, 8, [])
  {
  }

  lemma {:induction false} OneGroupLess(n: nat, g: nat)
    requires 0 < g <= n && n % g == 0
    ensures (n - g) % g == 0
  {
    MultipleIsMod(n, g);
    MultipleIsMod(n - g, g);
    MultipleAdd(g, n - g, g) by { MultipleAdd(g, 0, g); }
  }

  lemma OctetsCanonical(octets: seq<Word>)
    requires AllOctets(octets)
    ensures AllCanonical(8, 8, octets)
  {
  }

  /** Packing octets into words takes the first octet of a word as the highest for big units
      and as the lowest for little ones, and unpacking gives them back in that order; the bit
      order does not matter. */
  lemma {:induction false} OctetsPack(o: Order, g: nat, octets: seq<Word>)
    requires AllOctets(octets) && g > 0 && |octets| % g == 0
    ensures Convertible(8, 8, 8 * g) && Convertible(8, 8 * g, 8)
    ensures PackSeq(o, 8, 8, 8 * g, 8 * g, octets) == Grouped(o.bigUnit, g, octets)
    ensures PackSeq(o, 8, 8 * g, 8, 8, Grouped(o.bigUnit, g, octets)) == octets
  {
    hide PackSeq, StreamBits, Convertible, AllCanonical, Grouped;
    OctetWidths(8 * g);
    GroupedStream(o, g, octets);
    OctetsCanonical(octets);
    PackIsUnique(o, 8, 8, 8 * g, 8, 8 * g, octets, Grouped(o.bigUnit, g, octets));
    PackIsUnique(o, 8, 8 * g, 8, 8 * g, 8, Grouped(o.bigUnit, g, octets), octets);
  }

  // ----- In numbers

  lemma {:induction false} WordNatConcat(a: Word, b: Word)
    ensures WordNat(a + b) == WordNat(a) + Pow2(|a|) * WordNat(b)
  {
    if a == [] {
      assert a + b == b;
    } else {
      WordNatConcat(a[1..], b);
      assert (a + b)[1..] == a[1..] + b;
      MulDouble(Pow2(|a| - 1), WordNat(b));
    }
  }

  lemma {:induction false} PowOctets()
    ensures Pow2(8) == 0x100
  {
    assert Pow2(2) == 4 && Pow2(4) == 16;
  }

  lemma {:induction false} LowOctet(x: Word, rest: Word)
    requires |x| == 8
    ensures WordNat(x + rest) == WordNat(x) + 0x100 * WordNat(rest)
  {
    WordNatConcat(x, rest);
    PowOctets();
  }

  lemma {:induction false} FourJoined(a: Word, b: Word, c: Word, d: Word)
    requires |a| == |b| == |c| == |d| == 8
    ensures WordNat(a + (b + (c + d)))
         == WordNat(a) + 0x100 * WordNat(b) + 0x1_0000 * WordNat(c) + 0x100_0000 * WordNat(d)
  {
    hide WordNat;
    LowOctet(a, b + (c + d));
    LowOctet(b, c + d);
    LowOctet(c, d);
  }

  lemma {:induction false} FourOf(a: Word, b: Word, c: Word, d: Word)
    ensures WordOf(true, [a, b, c, d]) == d + (c + (b + a))
    ensures WordOf(false, [a, b, c, d]) == a + (b + (c + d))
  {
    assert [a, b, c, d][1..] == [b, c, d] && [b, c, d][1..] == [c, d] && [c, d][1..] == [d] && [d][1..] == [];
    assert WordOf(true, []) == [] && WordOf(false, []) == [];
    assert WordOf(true, [d]) == [] + d && WordOf(false, [d]) == d + [];
    assert [] + d == d && d + [] == d;
    assert WordOf(true, [c, d]) == d + c && WordOf(false, [c, d]) == c + d;
    assert WordOf(true, [b, c, d]) == d + c + b && d + c + b == d + (c + b);
    assert (d + (c + b)) + a == d + (c + (b + a));
  }

  /** Four octets as a number of 32 bits, in the two unit orders. */
  lemma {:induction false} FourOctets(o: Order, a: Word, b: Word, c: Word, d: Word)
    requires |a| == |b| == |c| == |d| == 8
    ensures Convertible(8, 8, 32) && Convertible(8, 32, 8)
    ensures var packed := PackSeq(o, 8, 8, 32, 32, [a, b, c, d]);
      && |packed| == 1 && PackSeq(o, 8, 32, 8, 8, packed) == [a, b, c, d]
      && WordNat(packed[0]) ==
           if o.bigUnit then
             WordNat(a) * 0x100_0000 + WordNat(b) * 0x1_0000 + WordNat(c) * 0x100 + WordNat(d)
           else
             WordNat(a) + WordNat(b) * 0x100 + WordNat(c) * 0x1_0000 + WordNat(d) * 0x100_0000
  {
    hide PackSeq, WordOf, WordNat, Convertible;
    OctetsPack(o, 4, [a, b, c, d]);
    assert [a, b, c, d][..4] == [a, b, c, d] && [a, b, c, d][4..] == [];
    FourOf(a, b, c, d);
    FourJoined(d, c, b, a);
    FourJoined(a, b, c, d);
  }

  /** The same for a word of any number of octets. */
  function Number(big: bool, octets: seq<Word>): nat {
    if octets == [] then 0
    else if big then WordNat(octets[0]) * Pow2(8 * (|octets| - 1)) + Number(big, octets[1..])
    else WordNat(octets[0]) + 0x100 * Number(big, octets[1..])
  }

  lemma {:induction false} OctetsNumber(big: bool, octets: seq<Word>)
    requires AllOctets(octets)
    ensures WordNat(WordOf(big, octets)) == Number(big, octets)
  {
    hide WordNat, Pow2;
    if octets == [] {
      ZeroNat();
    } else {
      assert octets[0] in octets;
      OctetsNumber(big, octets[1..]);
      if big {
        WordOfLength(big, octets[1..]);
        WordNatConcat(WordOf(big, octets[1..]), octets[0]);
      } else {
        LowOctet(octets[0], WordOf(big, octets[1..]));
      }
    }
  }

  lemma ZeroNat()
    ensures WordNat([]) == 0
  {
  }

  // ----- The padding

  /** The 1 bit that follows a message of octets is the octet 0x80 under a big-bit order. */
  lemma {:induction false} PadOctet(c: Config)
    requires c.Valid() && c.u == c.valueBits == c.valueStore == 8
    ensures c.PadValue() == NatWord(if c.o.bigBit then 0x80 else 0x01, 8)
  {
    hide Rem, Multiple, Pow2;
    PadLiterals();
    OneIsCompatible(8, 8);
    ShiftAligns(c.o, 8, 8, 1, 0, 0);
    assert StepShift(c.o, 8, 8, 1, 0) == if c.o.bigBit then 7 else 0;
    var y := c.PadValue();
    forall i | 0 <= i < 8 ensures y[i] == NatWord(if c.o.bigBit then 0x80 else 0x01, 8)[i] {
    }
  }

  lemma {:induction false} PadLiterals()
    ensures NatWord(0x80, 8) == [false, false, false, false, false, false, false, true]
    ensures NatWord(0x01, 8) == [true, false, false, false, false, false, false, false]
  {
    ZeroWord(7);
    assert NatWord(1, 1) == [true] + NatWord(0, 0);
    assert NatWord(2, 2) == [false] + NatWord(1, 1);
    assert NatWord(4, 3) == [false] + NatWord(2, 2);
    assert NatWord(8, 4) == [false] + NatWord(4, 3);
    assert NatWord(16, 5) == [false] + NatWord(8, 4);
    assert NatWord(32, 6) == [false] + NatWord(16, 5);
    assert NatWord(64, 7) == [false] + NatWord(32, 6);
  }

  lemma {:induction false} ZeroWord(w: nat)
    ensures NatWord(0, w) == Zero(w)
  {
    if w > 0 { ZeroWord(w - 1); }
  }

  /** All the hashes of the library start their padding with the octet 0x80. */
  lemma {:induction false} PadIs80(bigUnit: bool, wordBits: nat, b: nat)
    requires wordBits == 32 || wordBits == 64
    requires 0 < b <= 128 && Multiple(b, 4)
    ensures WithLength(bigUnit, wordBits).Valid() && WithLength(bigUnit, wordBits).PadValue() == NatWord(0x80, 8)
    ensures WithoutLength(b).Valid() && WithoutLength(b).PadValue() == NatWord(0x80, 8)
  {
    hide Config.Valid, Config.PadValue;
    WithLengthValid(bigUnit, wordBits);
    WithoutLengthValid(b);
    PadOctet(WithLength(bigUnit, wordBits));
    PadOctet(WithoutLength(b));
  }

  /** The padded octets of section 5.1 of FIPS 180-2 and section 3.1 of RFC 1321: the message,
      0x80, and as few zero octets as leave room for the length in a block of 16 words. */
  lemma {:induction false} PaddedOctets(bigUnit: bool, wordBits: nat, msg: seq<Word>)
    requires wordBits == 32 || wordBits == 64
    ensures WithLength(bigUnit, wordBits).Valid()
    ensures var vs := Padded(WithLength(bigUnit, wordBits).AsFormat(), msg);
      var zeros := |vs| - |msg| - 1;
      && 0 <= zeros < 2 * wordBits
      && vs == msg + [NatWord(0x80, 8)] + Repeat(zeros, NatWord(0, 8))
      && (if wordBits == 32 then |vs| % 64 == 56 else |vs| % 128 == 112)
  {
    hide Config.Valid, Config.PadValue, Rem, Multiple, Times;
    var c := WithLength(bigUnit, wordBits);
    WithLengthValid(bigUnit, wordBits);
    PadOctet(c);
    ZeroWord(8);
    LengthOctets(bigUnit, wordBits);
    PaddedCount(c, msg);
    RemIsMod(|Padded(c.AsFormat(), msg)|, 2 * wordBits);
  }

  lemma {:induction false} LengthOctets(bigUnit: bool, wordBits: nat)
    requires wordBits == 32 || wordBits == 64
    requires WithLength(bigUnit, wordBits).Valid()
    ensures WithLength(bigUnit, wordBits).AsFormat().lengthValues == wordBits / 4
    ensures WithLength(bigUnit, wordBits).AsFormat().LastValues() == 2 * wordBits - wordBits / 4
  {
    hide Config.Valid, Config.PadValue, Multiple, Times, Quot;
    QuotIsDiv(2 * wordBits, 8);
  }

  // ----- The length

  lemma {:induction false} NatWordDrop(n: nat, a: nat, b: nat)
    ensures |NatWord(n, a + b)| == a + b && NatWord(n, a + b)[a..] == NatWord(n / Pow2(a), b)
    decreases a
  {
    if a == 0 {
      NatWordSize(n, b);
    } else {
      NatWordDrop(n / 2, a - 1, b);
      HalfTwice(n, Pow2(a - 1));
      assert NatWord(n, a + b)[a..] == NatWord(n / 2, a - 1 + b)[a - 1..];
    }
  }

  lemma {:induction false} NatWordSize(n: nat, w: nat)
    ensures |NatWord(n, w)| == w
  {
    if w > 0 { NatWordSize(n / 2, w - 1); }
  }

  lemma {:induction false} HalfTwice(n: nat, p: nat)
    requires p > 0
    ensures n / 2 / p == n / (2 * p)
  {
    var q, r := n / 2 / p, n / 2 % p;
    assert n / 2 == p * q + r;
    MulDouble(p, q);
    DivModUnique(n, 2 * p, q, 2 * r + n % 2);
  }

  lemma {:induction false} NatWordTake(n: nat, a: nat, b: nat)
    ensures |NatWord(n, a + b)| == a + b && NatWord(n, a + b)[..a] == NatWord(n, a)
    decreases a
  {
    if a == 0 {
      NatWordSize(n, b);
    } else {
      NatWordTake(n / 2, a - 1, b);
      assert NatWord(n, a + b)[..a] == [n % 2 == 1] + NatWord(n / 2, a - 1 + b)[..a - 1];
    }
  }

  /** A length of two words is cut into its halves, in the order of the units. */
  lemma {:induction false} Halves(o: Order, w: nat, x: Word)
    requires o.bigBit && (w == 32 || w == 64)
    ensures Convertible(8, w + w, w)
    ensures PackSeq(o, 8, w + w, w, w, [x]) ==
      if o.bigUnit then [Extract(w, w, w, x), Extract(0, w, w, x)] else [Extract(0, w, w, x), Extract(w, w, w, x)]
  {
    hide Multiple, Extract;
    MultipleIsMod(w, 8);
    MultipleIsMod(w + w, 8);
    MultipleIsMod(w + w, w);
    MultipleIsMod(0, w);
    MultipleIsMod(w, w);
    var xs := [x];
    assert ExplodeSeq(o, 8, w + w, w, w, xs[1..]) == [];
    assert Explode(o, 8, w + w, w, w, x, w) == [ExploderStep(o, 8, w + w, w, w, x, w)] + [];
  }

  lemma {:induction false} HighHalf(n: nat)
    ensures Extract(32, 32, 32, NatWord(n, 64)) == NatWord(n / 0x1_0000_0000, 32)
    ensures Extract(0, 32, 32, NatWord(n, 64)) == NatWord(n, 32)
  {
    hide Pow2, NatWord;
    Pow32();
    var x := NatWord(n, 64);
    NatWordDrop(n, 32, 32);
    NatWordTake(n, 32, 32);
    assert forall i :: 0 <= i < 32 ==> x[32..][i] == x[32 + i] && x[..32][i] == x[i];
  }

  lemma {:induction false} NoHighHalf(n: nat)
    ensures Extract(64, 64, 64, NatWord(n, 64)) == NatWord(0, 64)
    ensures Extract(0, 64, 64, NatWord(n, 64)) == NatWord(n, 64)
  {
    hide NatWord;
    NatWordSize(n, 64);
    ZeroWord(64);
  }

  /** The length in numbers: its high word first for the SHA family and its low word first
      for MD4 and MD5; with words of 64 bits the high word is 0, as the counter has 64 bits. */
  lemma {:induction false} LengthInNumbers(bigUnit: bool, wordBits: nat, n: nat)
    requires wordBits == 32 || wordBits == 64
    ensures WithLength(bigUnit, wordBits).Valid()
    ensures
      var high, low := if wordBits == 32 then NatWord(n / 0x1_0000_0000, 32) else NatWord(0, 64), NatWord(n, wordBits);
      WithLength(bigUnit, wordBits).LengthWords(n) == if bigUnit then [high, low] else [low, high]
  {
    hide Config.Valid, PackSeq, Extract, NatWord;
    WithLengthValid(bigUnit, wordBits);
    Halves(Order(bigUnit, true), wordBits, NatWord(n, 64));
    if wordBits == 32 {
      HighHalf(n);
    } else {
      NoHighHalf(n);
    }
  }

  lemma {:induction false} Pow32()
    ensures Pow2(32) == 0x1_0000_0000
  {
    PowOctets();
    hide Pow2;
    PowSum(8, 8);
    PowSum(16, 16);
  }
}
