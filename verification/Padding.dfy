/** The padded message: what stream_preprocessor.hpp hands to the block hash, read as
    one stream of bits (section 5.1 of FIPS 180-2, sections 3.1 and 3.2 of RFC 1321).
  */
module Padding {
  import opened Arithmetic
  import opened Words
  import opened Pack
  import opened StreamPreprocessor

  /** The template parameters of an instantiation; the stores are the widths of the
      types that hold values, words and the length. */
  datatype Config = Config(
    o: Order, u: nat,
    valueBits: nat, valueStore: nat, wordBits: nat, wordStore: nat,
    blockValues: nat, lengthBits: nat, seenBits: nat)
  {
    function BlockBits(): nat {
      Times(blockValues, valueBits)
    }

    /** The static assertions.  A tracked length wraps at 2^seenBits, so blocks have to
        divide that; a length that does not fit the block would be written outside it. */
    predicate Valid() {
      && Compatible(u, valueBits) && Compatible(u, wordBits) && Multiple(wordBits, valueBits)
      && valueBits <= valueStore && wordBits <= wordStore
      && blockValues > 0 && Multiple(BlockBits(), wordBits)
      && Multiple(lengthBits, wordBits) && lengthBits <= BlockBits()
      && (lengthBits > 0 ==> Compatible(u, lengthBits))
      && BlockBits() <= Pow2(seenBits)
      && (lengthBits > 0 ==> Multiple(Pow2(seenBits), BlockBits()))
    }

    function Bits(vs: seq<Word>): seq<bool>
      requires u > 0
    {
      StreamBits(o, u, valueBits, vs)
    }

    /** The bits of a sequence of blocks. */
    function BlocksBits(blocks: seq<seq<Word>>): seq<bool>
      requires u > 0
    {
      if blocks == [] then []
      else StreamBits(o, u, wordBits, blocks[0]) + BlocksBits(blocks[1..])
    }

    function PackBlock(vs: seq<Word>): seq<Word>
      requires Valid()
    {
      PackSeq(o, u, valueBits, wordBits, wordStore, vs)
    }

    /** append_length: the length, in words. */
    function LengthWords(n: nat): seq<Word>
      requires Valid()
    {
      if lengthBits == 0 then [] else
        PackSeq(o, u, lengthBits, wordBits, wordStore, [NatWord(n, seenBits)])
    }

    /** The value of end_message that starts with a 1 bit. */
    function PadValue(): Word
      requires Valid()
    {
      OneIsCompatible(u, valueBits);
      ImploderStep(o, u, 1, valueBits, [true], Zero(valueStore), 0)
    }

    function AsFormat(): Format<Word, Word>
      requires Valid()
    {
      Format(valueBits, blockValues, Quot(BlockBits(), wordBits),
             lengthBits, Quot(lengthBits, valueBits), Quot(lengthBits, wordBits), Pow2(seenBits),
             PadValue(), Zero(valueStore),
             (vs: seq<Word>) => PackBlock(vs), (n: nat) => LengthWords(n))
    }

    // ----- The reference

    /** How many zeros follow the 1 bit of an n-bit message. */
    function ZeroBits(n: nat): nat
      requires BlockBits() > 0
    {
      Rem(BlockBits() - Rem(n + 1 + lengthBits, BlockBits()), BlockBits())
    }

    /** k zeros after the 1 bit of an n-bit message leave room for exactly the length. */
    predicate Completes(n: nat, k: nat)
      requires BlockBits() > 0
    {
      Multiple(n + 1 + k + lengthBits, BlockBits())
    }

    /** The length as a number of lengthBits bits, in stream order. */
    function LengthField(n: nat): seq<bool>
      requires u > 0
    {
      if lengthBits == 0 then [] else
        WordBits(o, u, lengthBits, NatWord(Rem(n, Pow2(seenBits)), seenBits))
    }

    /** The message, a 1 bit, the fewest 0 bits, the length. */
    function Pad(m: seq<bool>): seq<bool>
      requires u > 0 && BlockBits() > 0
    {
      m + [true] + Zero(ZeroBits(|m|)) + LengthField(|m|)
    }

    /** Reading a padded message back. */
    function Unpad(p: seq<bool>): seq<bool> {
      if |p| < lengthBits then [] else DropLastOne(p[..|p| - lengthBits])
    }
  }

  function DropLastOne(s: seq<bool>): seq<bool> {
    if s == [] then []
    else if s[|s| - 1] then s[..|s| - 1]
    else DropLastOne(s[..|s| - 1])
  }

  lemma {:induction false} OneIsCompatible(u: nat, w: nat)
    requires Compatible(u, w)
    ensures Widths(u, w, 1) && Multiple(0, 1)
  {
    MultipleOfOne(u);
    MultipleOfOne(w);
  }

  // ----- The padding of the reference

  /** ZeroBits is the least number of zeros that completes a block. */
  lemma {:induction false} FewestZeros(c: Config, n: nat)
    requires c.BlockBits() > 0
    ensures c.Completes(n, c.ZeroBits(n)) && c.ZeroBits(n) < c.BlockBits()
    ensures forall k: nat :: k < c.BlockBits() && c.Completes(n, k) ==> k == c.ZeroBits(n)
  {
    var b := c.BlockBits();
    var s := n + 1 + c.lengthBits;
    RemBase(s, b);
    TwoBlocks(b - Rem(s, b), b);
    forall k: nat | k < b
      ensures c.Completes(n, k) <==> k == c.ZeroBits(n)
    {
      assert n + 1 + k + c.lengthBits == s - Rem(s, b) + (Rem(s, b) + k);
      MultipleAdd(s - Rem(s, b), Rem(s, b) + k, b);
      MultipleIffRem(Rem(s, b) + k, b);
      TwoBlocks(Rem(s, b) + k, b);
    }
  }

  lemma {:induction false} UnpadPad(c: Config, m: seq<bool>)
    requires c.u > 0 && c.BlockBits() > 0
    ensures c.Unpad(c.Pad(m)) == m
  {
    var p := c.Pad(m);
    assert p[..|p| - c.lengthBits] == m + [true] + Zero(c.ZeroBits(|m|));
    DropZeros(m, c.ZeroBits(|m|));
  }

  lemma {:induction false} DropZeros(m: seq<bool>, k: nat)
    ensures DropLastOne(m + [true] + Zero(k)) == m
    decreases k
  {
    var s := m + [true] + Zero(k);
    if k == 0 {
      assert s[..|s| - 1] == m;
    } else {
      assert s[..|s| - 1] == m + [true] + Zero(k - 1);
      DropZeros(m, k - 1);
    }
  }

  /** Different messages never have the same padded form. */
  lemma {:induction false} PadInjective(c: Config, m1: seq<bool>, m2: seq<bool>)
    requires c.u > 0 && c.BlockBits() > 0
    ensures c.Pad(m1) == c.Pad(m2) <==> m1 == m2
  {
    UnpadPad(c, m1);
    UnpadPad(c, m2);
  }

  // ----- The format meets what the preprocessor needs

  lemma {:induction false} CopyAppend(n: nat, xs: seq<Word>, ys: seq<Word>)
    ensures CopySeq(n, xs + ys) == CopySeq(n, xs) + CopySeq(n, ys)
  {
    if xs == [] {
      assert xs + ys == ys;
    } else {
      assert (xs + ys)[1..] == xs[1..] + ys;
      CopyAppend(n, xs[1..], ys);
    }
  }

  lemma {:induction false} ImplodeAppend(o: Order, u: nat, a: nat, b: nat, n: nat, xs: seq<Word>, ys: seq<Word>)
    requires Widths(u, b, a) && a < b <= n && Fits(o, u, a, b, xs)
    ensures ImplodeSeq(o, u, a, b, n, xs + ys) == ImplodeSeq(o, u, a, b, n, xs) + ImplodeSeq(o, u, a, b, n, ys)
    decreases |xs|
  {
    hide Multiple, Implode, StreamBits, Rem, Times;
    GroupCount(a, b);
    if xs == [] {
      assert xs + ys == ys;
    } else {
      GroupFits(o, u, a, b, xs);
      var g := Quot(b, a);
      FitsTail(o, u, a, b, xs);
      assert (xs + ys)[..g] == xs[..g] && (xs + ys)[g..] == xs[g..] + ys;
      ImplodeAppend(o, u, a, b, n, xs[g..], ys);
    }
  }

  lemma {:induction false} FitsTail(o: Order, u: nat, a: nat, b: nat, xs: seq<Word>)
    requires u > 0 && 0 < a < b && Multiple(b, a) && Quot(b, a) <= |xs| && Fits(o, u, a, b, xs)
    ensures Fits(o, u, a, b, xs[Quot(b, a)..])
  {
    hide StreamBits, Quot;
    var g := Quot(b, a);
    GroupCount(a, b);
    assert xs == xs[..g] + xs[g..];
    StreamBitsConcat(o, u, a, xs[..g], xs[g..]);
    StreamLength(o, u, a, xs[..g]);
    MultipleAdd(b, |StreamBits(o, u, a, xs[g..])|, b) by { MultipleAdd(b, 0, b); }
  }

  /** Words are filled one after the other: a block can be packed piecewise. */
  lemma {:induction false} PackAppend(c: Config, xs: seq<Word>, ys: seq<Word>)
    requires c.Valid() && Fits(c.o, c.u, c.valueBits, c.wordBits, xs)
    ensures c.PackBlock(xs + ys) == c.PackBlock(xs) + c.PackBlock(ys)
  {
    hide Fits, Multiple, CopySeq, ImplodeSeq;
    if c.valueBits == c.wordBits {
      CopyAppend(c.wordStore, xs, ys);
    } else {
      ValuesAreNarrow(c);
      ImplodeAppend(c.o, c.u, c.valueBits, c.wordBits, c.wordStore, xs, ys);
    }
  }

  lemma ValuesAreNarrow(c: Config)
    requires c.Valid() && c.valueBits != c.wordBits
    ensures c.valueBits < c.wordBits
  {
  }

  /** Packed values occupy as many bits as before. */
  lemma {:induction false} PackedSize(c: Config, vs: seq<Word>)
    requires c.Valid() && Multiple(Times(|vs|, c.valueBits), c.wordBits)
    ensures Fits(c.o, c.u, c.valueBits, c.wordBits, vs)
    ensures StreamBits(c.o, c.u, c.wordBits, c.PackBlock(vs)) == c.Bits(vs)
    ensures Times(|c.PackBlock(vs)|, c.wordBits) == Times(|vs|, c.valueBits)
  {
    hide Multiple, PackSeq, StreamBits, Times;
    StreamLength(c.o, c.u, c.valueBits, vs);
    PackKeepsBits(c.o, c.u, c.valueBits, c.wordBits, c.wordStore, vs);
    StreamLength(c.o, c.u, c.wordBits, c.PackBlock(vs));
  }

  /** The numbers of values and words in a block and in the length. */
  lemma {:induction false} Counted(c: Config)
    requires c.Valid()
    ensures var f := c.AsFormat();
      && Times(f.lengthValues, c.valueBits) == Times(f.lengthWords, c.wordBits) == c.lengthBits
      && Times(f.blockWords, c.wordBits) == c.BlockBits()
      && f.lengthValues <= f.blockValues && f.lengthWords <= f.blockWords
      && (c.lengthBits > 0 ==>
            Times(f.LastValues(), c.valueBits) == Times(f.blockWords - f.lengthWords, c.wordBits)
            == c.BlockBits() - c.lengthBits)
  {
    hide Multiple, Times, Quot, Rem;
    var f := c.AsFormat();
    MultipleTransitive(c.lengthBits, c.wordBits, c.valueBits);
    ExactQuot(c.lengthBits, c.valueBits);
    ExactQuot(c.lengthBits, c.wordBits);
    ExactQuot(c.BlockBits(), c.wordBits);
    TimesMonotone(f.lengthValues, f.blockValues, c.valueBits);
    TimesMonotone(f.lengthWords, f.blockWords, c.wordBits);
    if c.lengthBits > 0 {
      TimesSum(f.blockWords - f.lengthWords, f.lengthWords, c.wordBits);
      TimesSum(f.blockValues - f.lengthValues, f.lengthValues, c.valueBits);
      TimesOne(c.valueBits);
    }
  }

  lemma {:induction false} ExactQuot(k: nat, n: nat)
    requires n > 0 && Multiple(k, n)
    ensures Times(Quot(k, n), n) == k
  {
    QuotTimes(k, n);
    MultipleIffRem(k, n);
  }

  /** The length words hold the length field. */
  lemma {:induction false} LengthWordsBits(c: Config, n: nat)
    requires c.Valid() && n < Pow2(c.seenBits)
    ensures StreamBits(c.o, c.u, c.wordBits, c.LengthWords(n)) == c.LengthField(n)
    ensures Times(|c.LengthWords(n)|, c.wordBits) == c.lengthBits
  {
    hide Multiple, PackSeq, Times, Rem, NatWord, WordBits;
    if c.lengthBits > 0 {
      var xs := [NatWord(n, c.seenBits)];
      assert StreamBits(c.o, c.u, c.lengthBits, xs)
          == WordBits(c.o, c.u, c.lengthBits, NatWord(n, c.seenBits)) + [];
      PackKeepsBits(c.o, c.u, c.lengthBits, c.wordBits, c.wordStore, xs);
      StreamLength(c.o, c.u, c.wordBits, c.LengthWords(n));
    } else {
      TimesOne(c.wordBits);
    }
  }

  lemma {:induction false} LengthWordCount(c: Config, n: nat)
    requires c.Valid()
    ensures |c.LengthWords(n)| == Quot(c.lengthBits, c.wordBits)
  {
    hide Multiple, PackSeq, Times, Rem, NatWord, WordBits;
    if c.lengthBits > 0 {
      var xs := [NatWord(n, c.seenBits)];
      assert StreamBits(c.o, c.u, c.lengthBits, xs)
          == WordBits(c.o, c.u, c.lengthBits, NatWord(n, c.seenBits)) + [];
      PackKeepsBits(c.o, c.u, c.lengthBits, c.wordBits, c.wordStore, xs);
      StreamLength(c.o, c.u, c.wordBits, c.LengthWords(n));
      ExactQuot(c.lengthBits, c.wordBits);
      TimesInjective(|c.LengthWords(n)|, Quot(c.lengthBits, c.wordBits), c.wordBits);
    }
  }

  /** Every instantiation the static assertions accept works with the preprocessor. */
  lemma {:induction false} FormatValid(c: Config)
    requires c.Valid()
    ensures ValidFormat(c.AsFormat())
  {
    hide Multiple, PackSeq, Times, Rem, Quot;
    var f := c.AsFormat();
    Counted(c);
    forall n ensures |f.lengthField(n)| == f.lengthWords {
      LengthWordCount(c, n);
    }
    forall vs: seq<Word> | |vs| == f.blockValues ensures PacksInOrder(f, vs) {
      BlockInOrder(c, vs);
    }
  }

  lemma {:induction false} BlockInOrder(c: Config, vs: seq<Word>)
    requires c.Valid() && |vs| == c.blockValues && c.AsFormat().lengthWords <= c.AsFormat().blockWords
    ensures PacksInOrder(c.AsFormat(), vs)
  {
    hide Multiple, PackSeq, Times, Rem, Quot, Fits;
    var f := c.AsFormat();
    Counted(c);
    PackedSize(c, vs);
    TimesInjective(|c.PackBlock(vs)|, f.blockWords, c.wordBits);
    if c.lengthBits > 0 {
      var t := f.LastValues();
      MultipleDifference(c.BlockBits(), c.lengthBits, c.wordBits);
      PackedSize(c, vs[..t]);
      TimesInjective(|c.PackBlock(vs[..t])|, f.blockWords - f.lengthWords, c.wordBits);
      assert vs == vs[..t] + vs[t..];
      PackAppend(c, vs[..t], vs[t..]);
    }
  }

  lemma {:induction false} MultipleDifference(a: nat, b: nat, n: nat)
    requires n > 0 && b <= a && Multiple(a, n) && Multiple(b, n)
    ensures Multiple(a - b, n)
  {
    MultipleAdd(b, a - b, n);
  }

  // ----- The blocks are the padded message

  lemma {:induction false} BlocksBitsConcat(c: Config, xs: seq<seq<Word>>, ys: seq<seq<Word>>)
    requires c.u > 0
    ensures c.BlocksBits(xs + ys) == c.BlocksBits(xs) + c.BlocksBits(ys)
  {
    hide StreamBits;
    if xs == [] {
      assert xs + ys == ys;
    } else {
      assert (xs + ys)[1..] == xs[1..] + ys;
      BlocksBitsConcat(c, xs[1..], ys);
    }
  }

  lemma {:induction false} WholeBlocksBits(c: Config, vs: seq<Word>)
    requires c.Valid()
    ensures c.BlocksBits(Blocks(c.AsFormat(), vs)) == c.Bits(vs[..|vs| - Rem(|vs|, c.blockValues)])
    decreases |vs|
  {
    hide StreamBits, Multiple, Times, PackSeq;
    var n := c.blockValues;
    if |vs| >= n {
      var k := |vs| - Rem(|vs|, n);
      var f := c.AsFormat();
      WholeBlocksBits(c, vs[n..]);
      PackedSize(c, vs[..n]);
      assert vs[n..][..k - n] == vs[n..k];
      assert vs[..k] == vs[..n] + vs[n..k];
      StreamBitsConcat(c.o, c.u, c.valueBits, vs[..n], vs[n..k]);
      assert Blocks(f, vs)[1..] == Blocks(f, vs[n..]);
    } else {
      assert vs[..0] == [];
      NoBits(c);
    }
  }

  lemma NoBits(c: Config)
    requires c.u > 0
    ensures c.Bits([]) == [] && c.BlocksBits([]) == []
  {
  }

  lemma {:induction false} ZeroValuesBits(c: Config, k: nat)
    requires c.Valid()
    ensures c.Bits(Repeat(k, Zero(c.valueStore))) == Zero(Times(k, c.valueBits))
  {
    hide Multiple;
    if k > 0 {
      var z := Zero(c.valueStore);
      assert Repeat(k, z)[1..] == Repeat(k - 1, z);
      ZeroValuesBits(c, k - 1);
      assert WordBits(c.o, c.u, c.valueBits, z) == Zero(c.valueBits);
    }
  }

  /** The pad value is a 1 bit and zeros. */
  lemma {:induction false} PadValueBits(c: Config)
    requires c.Valid()
    ensures WordBits(c.o, c.u, c.valueBits, c.PadValue()) == [true] + Zero(c.valueBits - 1)
  {
    hide Multiple;
    OneIsCompatible(c.u, c.valueBits);
    assert Holds(c.o, c.u, c.valueBits, [], c.valueStore, Zero(c.valueStore)) by {
      assert WordBits(c.o, c.u, c.valueBits, Zero(c.valueStore)) == [] + Zero(c.valueBits);
    }
    ImploderStepBits(c.o, c.u, 1, c.valueBits, c.valueStore, [true], Zero(c.valueStore), []);
    assert WordBits(c.o, c.u, 1, [true]) == [true];
    assert [] + [true] == [true];
  }

  /** The padded values are the message, a 1 bit and the fewest zeros. */
  lemma {:induction false} PaddedValuesBits(c: Config, msg: seq<Word>)
    requires c.Valid()
    ensures var n := |c.Bits(msg)|;
      c.Bits(Padded(c.AsFormat(), msg)) == c.Bits(msg) + [true] + Zero(c.ZeroBits(n))
  {
    hide StreamBits, Multiple, Times, Rem, WordBits, Config.PadValue;
    var f := c.AsFormat();
    var z := f.ZeroValues(|msg|);
    var tail := [f.pad] + Repeat(z, f.zero);
    assert Padded(f, msg) == msg + tail;
    StreamBitsConcat(c.o, c.u, c.valueBits, msg, tail);
    StreamBitsCons(c.o, c.u, c.valueBits, f.pad, Repeat(z, f.zero));
    PadValueBits(c);
    ZeroValuesBits(c, z);
    ZeroValuesAreFewest(c, msg);
    assert [true] + Zero(c.valueBits - 1) + Zero(Times(z, c.valueBits))
        == [true] + Zero(c.ZeroBits(|c.Bits(msg)|));
  }

  lemma {:induction false} ZeroValuesAreFewest(c: Config, msg: seq<Word>)
    requires c.Valid()
    ensures c.valueBits - 1 + Times(c.AsFormat().ZeroValues(|msg|), c.valueBits) == c.ZeroBits(|c.Bits(msg)|)
  {
    hide StreamBits, Multiple, Times, Rem;
    var f := c.AsFormat();
    var n, v, z := |msg|, c.valueBits, f.ZeroValues(|msg|);
    var zeros := v - 1 + Times(z, v);
    StreamLength(c.o, c.u, v, msg);
    Counted(c);
    ZeroCount(f, n, z);
    TimesMonotone(z + 1, c.blockValues, v);
    TimesSum(z, 1, v);
    TimesSum(n, 1 + z, v);
    TimesSum(n + 1 + z, f.lengthValues, v);
    TimesOne(v);
    WholeBlocks(n + 1 + z, f.lengthValues, c.blockValues, v);
    FewestZeros(c, Times(n, v));
    assert c.Completes(Times(n, v), zeros);
  }

  lemma {:induction false} WholeBlocks(k: nat, l: nat, n: nat, v: nat)
    requires n > 0 && v > 0 && l <= n && Times(n, v) > 0
    requires Rem(k, n) == if l == 0 || l >= n then 0 else n - l
    ensures Multiple(Times(k + l, v), Times(n, v))
  {
    hide Times;
    RemBase(k, n);
    TimesMultiple(k - Rem(k, n), n, v);
    TimesSum(k - Rem(k, n), Rem(k, n) + l, v);
    TimesOne(v);
    MultipleAdd(Times(k - Rem(k, n), v), Times(Rem(k, n) + l, v), Times(n, v));
  }

  lemma {:induction false} TimesMultiple(k: nat, n: nat, v: nat)
    requires n > 0 && Times(n, v) > 0 && Multiple(k, n)
    ensures Multiple(Times(k, v), Times(n, v))
  {
    if k > 0 {
      TimesMultiple(k - n, n, v);
      TimesSum(n, k - n, v);
    }
  }

  /** Without a length the blocks are the padded values. */
  lemma {:induction false} UntrackedBlocks(c: Config, msg: seq<Word>)
    requires c.Valid() && c.lengthBits == 0 && ValidFormat(c.AsFormat())
    ensures c.BlocksBits(PaddedBlocks(c.AsFormat(), msg))
         == c.Bits(Padded(c.AsFormat(), msg)) + c.LengthField(|c.Bits(msg)|)
  {
    hide StreamBits, Multiple, Times, Rem, PackSeq, Padded, Blocks, ValidFormat;
    var vs := Padded(c.AsFormat(), msg);
    PaddedCount(c, msg);
    WholeBlocksBits(c, vs);
    NoLength(c);
    assert vs[..|vs|] == vs && c.Bits(vs) + [] == c.Bits(vs);
  }

  lemma NoLength(c: Config)
    requires c.Valid() && c.lengthBits == 0
    ensures c.AsFormat().LastValues() == 0
  {
    QuotStep(0, c.valueBits);
  }

  /** With a length the last block holds the values left over and the length. */
  lemma {:induction false} TrackedBlocks(c: Config, msg: seq<Word>)
    requires c.Valid() && c.lengthBits > 0 && ValidFormat(c.AsFormat())
    ensures c.BlocksBits(PaddedBlocks(c.AsFormat(), msg))
         == c.Bits(Padded(c.AsFormat(), msg)) + c.LengthField(|c.Bits(msg)|)
  {
    hide StreamBits, Multiple, Times, Rem, Quot, PackSeq, Padded, Blocks, LastBlock, ValidFormat, Config.LengthField;
    var f := c.AsFormat();
    var vs := Padded(f, msg);
    var k := |vs| - Rem(|vs|, c.blockValues);
    var n := Rem(Times(|msg|, c.valueBits), f.seenMod);
    var last := LastBlock(f, vs[k..], n);
    PaddedCount(c, msg);
    WholeBlocksBits(c, vs);
    BlocksBitsConcat(c, Blocks(f, vs), [last]);
    OneBlock(c, last);
    LastBlockBits(c, vs[k..], n);
    StreamLength(c.o, c.u, c.valueBits, msg);
    FieldOfRem(c, Times(|msg|, c.valueBits));
    StreamBitsConcat(c.o, c.u, c.valueBits, vs[..k], vs[k..]);
    assert vs[..k] + vs[k..] == vs;
    Regroup3(c.Bits(vs[..k]), c.Bits(vs[k..]), c.LengthField(n));
  }

  lemma Regroup3(a: seq<bool>, b: seq<bool>, c: seq<bool>)
    ensures a + (b + c) == a + b + c
  {
  }

  lemma {:induction false} FieldOfRem(c: Config, n: nat)
    requires c.u > 0
    ensures c.LengthField(Rem(n, Pow2(c.seenBits))) == c.LengthField(n)
  {
    hide WordBits, NatWord, Pow2;
    RemIdempotent(n, Pow2(c.seenBits));
  }

  /** What the block hash receives is the padded message, bit for bit. */
  lemma {:induction false} PaddedBlocksBits(c: Config, msg: seq<Word>)
    requires c.Valid()
    ensures ValidFormat(c.AsFormat())
    ensures c.BlocksBits(PaddedBlocks(c.AsFormat(), msg)) == c.Pad(c.Bits(msg))
  {
    hide StreamBits, Padded, Blocks, ValidFormat, Config.AsFormat, Config.BlocksBits, Config.ZeroBits, PaddedBlocks;
    FormatValid(c);
    PaddedValuesBits(c, msg);
    if c.lengthBits == 0 { UntrackedBlocks(c, msg); } else { TrackedBlocks(c, msg); }
  }

  lemma OneBlock(c: Config, block: seq<Word>)
    requires c.u > 0
    ensures c.BlocksBits([block]) == StreamBits(c.o, c.u, c.wordBits, block)
  {
  }

  lemma {:induction false} PaddedCount(c: Config, msg: seq<Word>)
    requires c.Valid()
    ensures Rem(|Padded(c.AsFormat(), msg)|, c.blockValues) == c.AsFormat().LastValues()
  {
    ZeroCount(c.AsFormat(), |msg|, c.AsFormat().ZeroValues(|msg|));
  }

  lemma RemIdempotent(k: nat, n: nat)
    requires n > 0
    ensures Rem(Rem(k, n), n) == Rem(k, n)
  {
  }

  lemma {:induction false} LastBlockBits(c: Config, rest: seq<Word>, n: nat)
    requires c.Valid() && c.lengthBits > 0 && |rest| == c.AsFormat().LastValues() && n < Pow2(c.seenBits)
    ensures StreamBits(c.o, c.u, c.wordBits, LastBlock(c.AsFormat(), rest, n)) == c.Bits(rest) + c.LengthField(n)
  {
    hide StreamBits, Multiple, Times, Rem, Quot, PackSeq;
    Counted(c);
    MultipleDifference(c.BlockBits(), c.lengthBits, c.wordBits);
    PackedSize(c, rest);
    LengthWordsBits(c, n);
    StreamBitsConcat(c.o, c.u, c.wordBits, c.PackBlock(rest), c.LengthWords(n));
  }

  /** Different messages are never hashed as the same blocks. */
  lemma {:induction false} BlocksInjective(c: Config, msg1: seq<Word>, msg2: seq<Word>)
    requires c.Valid()
    requires AllCanonical(c.valueBits, c.valueStore, msg1) && AllCanonical(c.valueBits, c.valueStore, msg2)
    ensures ValidFormat(c.AsFormat())
    ensures PaddedBlocks(c.AsFormat(), msg1) == PaddedBlocks(c.AsFormat(), msg2) ==> msg1 == msg2
  {
    hide StreamBits, Multiple, Times, Rem, Quot, PackSeq, Padded, Blocks, ValidFormat, PaddedBlocks;
    PaddedBlocksBits(c, msg1);
    PaddedBlocksBits(c, msg2);
    PadInjective(c, c.Bits(msg1), c.Bits(msg2));
    if c.Bits(msg1) == c.Bits(msg2) {
      StreamDetermined(c.o, c.u, c.valueBits, c.valueStore, msg1, msg2);
    }
  }

  // ----- The hashes of the library, reading octets

  /** MD4, MD5, SHA-0, SHA-1 and SHA-2: 16 words a block and a length of two words.
      length_type is capped at 64 bits. */
  function WithLength(bigUnit: bool, wordBits: nat): Config {
    Config(Order(bigUnit, true), 8, 8, 8, wordBits, wordBits, wordBits + wordBits, wordBits + wordBits, 64)
  }

  /** CubeHash with blocks of b octets: no length, and a counter of one word. */
  function WithoutLength(b: nat): Config {
    Config(Order(false, true), 8, 8, 8, 32, 32, b, 0, 32)
  }

  lemma BlockPowers()
    ensures Pow2(9) == 512 && Pow2(10) == 1024
  {
  }

  /** All of them meet the conditions: their blocks are a power of two long wherever the
      counter may wrap. */
  lemma {:induction false} WithLengthValid(bigUnit: bool, wordBits: nat)
    requires wordBits == 32 || wordBits == 64
    ensures WithLength(bigUnit, wordBits).Valid()
  {
    hide Pow2, Multiple, Times;
    PowMultiple(64, 9);
    PowMultiple(64, 10);
    BlockPowers();
    TimesIsMul(wordBits + wordBits, 8);
    MultipleIsMod(8, 8);
    MultipleIsMod(wordBits, 8);
    MultipleIsMod(wordBits + wordBits, 8);
    MultipleIsMod(wordBits + wordBits, wordBits);
    MultipleIsMod(8 * (wordBits + wordBits), wordBits);
  }

  lemma {:induction false} WithoutLengthValid(b: nat)
    requires 0 < b <= 128 && Multiple(b, 4)
    ensures WithoutLength(b).Valid()
  {
    hide Pow2, Multiple, Times;
    PowMultiple(32, 10);
    BlockPowers();
    TimesIsMul(b, 8);
    MultipleIsMod(0, 32);
    OctetBlocks(b);
    MultipleIsMod(8, 8);
    MultipleIsMod(32, 8);
  }

  lemma {:induction false} OctetBlocks(b: nat)
    requires Multiple(b, 4)
    ensures Multiple(Times(b, 8), 32)
  {
    if b > 0 {
      OctetBlocks(b - 4);
      TimesSum(4, b - 4, 8);
      assert Times(4, 8) == 32;
    }
  }
}
