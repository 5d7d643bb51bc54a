/** Re-slicing words between widths: stream_endian.hpp, detail/exploder.hpp,
    detail/imploder.hpp and pack.hpp.

    The order of a stream says which bit of a word comes first.  A word of w bits
    contributes its bits one by one to a bit stream (WordBits, StreamBits); that
    reading is the reference the packers are proved against.
  */
module Pack {
  import opened Arithmetic
  import opened Words

  /** big_unit_big_bit, big_unit_little_bit, little_unit_big_bit and
      little_unit_little_bit. */
  datatype Order = Order(bigUnit: bool, bigBit: bool)

  /** The static assertions of exploder and imploder. */
  predicate Compatible(u: nat, w: nat) {
    u > 0 && w > 0 && (Multiple(w, u) || Multiple(u, w))
  }

  /** Which bit of a w-bit word is the k-th of the stream.  Whole units are taken in
      unit order and each is read in bit order; a word shorter than a unit is read in
      bit order only. */
  function BitPos(o: Order, u: nat, w: nat, k: nat): int
    requires u > 0
  {
    if w < u then
      if o.bigBit then w - 1 - k else k
    else
      var kb := Rem(k, u);
      var ku := k - kb;
      (if o.bigUnit then w - u - ku else ku) + (if o.bigBit then u - 1 - kb else kb)
  }

  function WordBits(o: Order, u: nat, w: nat, x: Word): (r: seq<bool>)
    requires u > 0
    ensures |r| == w
  {
    seq(w, k requires 0 <= k < w => Bit(x, BitPos(o, u, w, k)))
  }

  function StreamBits(o: Order, u: nat, w: nat, xs: seq<Word>): seq<bool>
    requires u > 0
  {
    if xs == [] then [] else WordBits(o, u, w, xs[0]) + StreamBits(o, u, w, xs[1..])
  }

  /** The shift of exploder_step (from `wide` to `narrow` bits) and of imploder_step
      (from `narrow` to `wide`), which the two headers compute alike. */
  function StepShift(o: Order, u: nat, wide: nat, narrow: nat, k: nat): int
    requires u > 0
  {
    var kb := Rem(k, u);
    var ku := k - kb;
    match (o.bigUnit, o.bigBit)
    case (true, true) => wide - (narrow + k)
    case (false, true) =>
      if narrow >= u then k
      else if wide >= u then ku + (u - (narrow + kb))
      else wide - (narrow + kb)
    case (true, false) =>
      if narrow >= u then wide - (narrow + k)
      else if wide >= u then wide - (u + ku) + kb
      else kb
    case (false, false) => k
  }

  // ----- The arithmetic behind the shifts

  /** Conversions between a wide and a narrow width that the headers accept. */
  predicate Widths(u: nat, wide: nat, narrow: nat) {
    Compatible(u, wide) && Compatible(u, narrow) && Multiple(wide, narrow)
  }

  /** Step k of a conversion takes stream positions k..k+narrow of the wide word to
      one contiguous run of its bits, in the order of a narrow word. */
  lemma {:induction false} ShiftAligns(o: Order, u: nat, wide: nat, narrow: nat, k: nat, j: nat)
    requires Widths(u, wide, narrow) && Multiple(k, narrow) && k < wide && j < narrow
    ensures var shift := StepShift(o, u, wide, narrow, k);
      && 0 <= shift && shift + narrow <= wide
      && BitPos(o, u, wide, k + j) == shift + BitPos(o, u, narrow, j)
  {
    MultipleRoom(k, wide, narrow);
    if narrow >= u {
      WholeUnits(u, wide, narrow, k, j);
    } else if wide >= u {
      InsideUnit(u, wide, narrow, k, j);
    }
  }

  /** A word at least as wide as a unit is made of whole units. */
  lemma {:induction false} UnitsWide(u: nat, w: nat)
    requires Compatible(u, w) && w >= u
    ensures Multiple(w, u)
  {
    if w == u { MultipleAdd(u, 0, u); }
  }

  lemma {:induction false} WholeUnits(u: nat, wide: nat, narrow: nat, k: nat, j: nat)
    requires Widths(u, wide, narrow) && Multiple(k, narrow) && k < wide && j < narrow && narrow >= u
    ensures Rem(k, u) == 0 && Rem(k + j, u) == Rem(j, u) && wide >= u
  {
    UnitsWide(u, narrow);
    MultipleTransitive(k, narrow, u);
    RemAdd(k, j, u);
    RemAdd(k, 0, u);
  }

  lemma {:induction false} InsideUnit(u: nat, wide: nat, narrow: nat, k: nat, j: nat)
    requires Widths(u, wide, narrow) && Multiple(k, narrow) && k < wide && j < narrow < u <= wide
    ensures Rem(k + j, u) == Rem(k, u) + j && Rem(k, u) + narrow <= u
    ensures (k - Rem(k, u)) + u <= wide
  {
    UnitsWide(u, wide);
    var kb := Rem(k, u);
    var ku := k - kb;
    RemBase(k, u);
    MultipleTransitive(ku, u, narrow);
    MultipleAdd(ku, kb, narrow);
    MultipleRoom(kb, u, narrow);
    RemAdd(ku, kb + j, u);
    MultipleRoom(ku, wide, u);
  }

  /** The stream position of bit i: BitPos read backwards. */
  function StreamPos(o: Order, u: nat, w: nat, i: nat): int
    requires u > 0
  {
    if w < u then
      if o.bigBit then w - 1 - i else i
    else
      var ib := Rem(i, u);
      var iu := i - ib;
      (if o.bigUnit then w - u - iu else iu) + (if o.bigBit then u - 1 - ib else ib)
  }

  /** BitPos is a bijection of 0..w, with inverse StreamPos. */
  lemma {:induction false} BitPosBijective(o: Order, u: nat, w: nat, k: nat)
    requires Compatible(u, w) && k < w
    ensures 0 <= BitPos(o, u, w, k) < w && StreamPos(o, u, w, BitPos(o, u, w, k)) == k
    ensures 0 <= StreamPos(o, u, w, k) < w && BitPos(o, u, w, StreamPos(o, u, w, k)) == k
  {
    hide Rem, Multiple;
    if w >= u {
      UnitsWide(u, w);
      var kb := Rem(k, u);
      var ku := k - kb;
      RemBase(k, u);
      MultipleRoom(ku, w, u);
      MultipleAdd(ku + u, w - ku - u, u);
      var b := if o.bigBit then u - 1 - kb else kb;
      RemAdd(if o.bigUnit then w - u - ku else ku, b, u);
    }
  }

  lemma {:induction false} BitPosInside(o: Order, u: nat, w: nat, k: nat)
    requires Compatible(u, w) && k < w
    ensures 0 <= BitPos(o, u, w, k) < w
  {
    BitPosBijective(o, u, w, k);
  }

  // ----- Exploding one value into many

  /** exploder_step: n is the width of the type the output iterator accepts. */
  function ExploderStep(o: Order, u: nat, wide: nat, narrow: nat, n: nat, x: Word, k: nat): (z: Word)
    requires Widths(u, wide, narrow)
    requires Multiple(k, narrow) && k < wide && narrow <= n
    ensures Canonical(narrow, n, z)
  {
    ShiftAligns(o, u, wide, narrow, k, 0);
    Extract(StepShift(o, u, wide, narrow, k), narrow, n, x)
  }

  lemma {:induction false} ExploderStepBit(o: Order, u: nat, wide: nat, narrow: nat, n: nat, x: Word, k: nat, j: nat)
    requires Widths(u, wide, narrow)
    requires Multiple(k, narrow) && k < wide && j < narrow <= n
    ensures Bit(ExploderStep(o, u, wide, narrow, n, x, k), BitPos(o, u, narrow, j))
         == Bit(x, BitPos(o, u, wide, k + j))
  {
    hide Rem, BitPos, StepShift, Multiple;
    ShiftAligns(o, u, wide, narrow, k, j);
    BitPosInside(o, u, narrow, j);
  }

  lemma {:induction false} ExploderStepBits(o: Order, u: nat, wide: nat, narrow: nat, n: nat, x: Word, k: nat)
    requires Widths(u, wide, narrow)
    requires Multiple(k, narrow) && k + narrow <= wide && narrow <= n
    ensures WordBits(o, u, narrow, ExploderStep(o, u, wide, narrow, n, x, k))
         == WordBits(o, u, wide, x)[k..k + narrow]
  {
    var z := ExploderStep(o, u, wide, narrow, n, x, k);
    forall j | 0 <= j < narrow
      ensures Bit(z, BitPos(o, u, narrow, j)) == Bit(x, BitPos(o, u, wide, k + j))
    {
      ExploderStepBit(o, u, wide, narrow, n, x, k, j);
    }
    RunOfBits(o, u, wide, narrow, z, x, k);
  }

  lemma RunOfBits(o: Order, u: nat, wide: nat, narrow: nat, z: Word, x: Word, k: nat)
    requires u > 0 && k + narrow <= wide
    requires forall j :: 0 <= j < narrow ==> Bit(z, BitPos(o, u, narrow, j)) == Bit(x, BitPos(o, u, wide, k + j))
    ensures WordBits(o, u, narrow, z) == WordBits(o, u, wide, x)[k..k + narrow]
  {
  }

  /** exploder: the compile-time recursion over k. */
  function Explode(o: Order, u: nat, wide: nat, narrow: nat, n: nat, x: Word, k: nat): seq<Word>
    requires Widths(u, wide, narrow) && Multiple(k, narrow) && k <= wide && narrow <= n
    decreases wide - k
  {
    if k == wide then []
    else
      MultipleRoom(k, wide, narrow);
      [ExploderStep(o, u, wide, narrow, n, x, k)] + Explode(o, u, wide, narrow, n, x, k + narrow)
  }

  lemma {:induction false} ExplodeBits(o: Order, u: nat, wide: nat, narrow: nat, n: nat, x: Word, k: nat)
    requires Widths(u, wide, narrow) && Multiple(k, narrow) && k <= wide && narrow <= n
    ensures StreamBits(o, u, narrow, Explode(o, u, wide, narrow, n, x, k)) == WordBits(o, u, wide, x)[k..]
    decreases wide - k
  {
    hide Rem, ExploderStep;
    if k < wide {
      MultipleRoom(k, wide, narrow);
      var z, zs := ExploderStep(o, u, wide, narrow, n, x, k), Explode(o, u, wide, narrow, n, x, k + narrow);
      calc {
        StreamBits(o, u, narrow, Explode(o, u, wide, narrow, n, x, k));
        { StreamBitsCons(o, u, narrow, z, zs); }
        WordBits(o, u, narrow, z) + StreamBits(o, u, narrow, zs);
        { ExploderStepBits(o, u, wide, narrow, n, x, k); ExplodeBits(o, u, wide, narrow, n, x, k + narrow); }
        WordBits(o, u, wide, x)[k..k + narrow] + WordBits(o, u, wide, x)[k + narrow..];
        { SplitAt(WordBits(o, u, wide, x), k, k + narrow); }
        WordBits(o, u, wide, x)[k..];
      }
    }
  }

  lemma {:induction false} ExplodeCanonical(o: Order, u: nat, wide: nat, narrow: nat, n: nat, x: Word, k: nat)
    requires Widths(u, wide, narrow) && Multiple(k, narrow) && k <= wide && narrow <= n
    ensures AllCanonical(narrow, n, Explode(o, u, wide, narrow, n, x, k))
    decreases wide - k
  {
    if k < wide {
      MultipleRoom(k, wide, narrow);
      ExplodeCanonical(o, u, wide, narrow, n, x, k + narrow);
    }
  }

  lemma SplitAt<T>(s: seq<T>, i: nat, j: nat)
    requires i <= j <= |s|
    ensures s[i..] == s[i..j] + s[j..]
  {
  }

  lemma ConcatAssociative<T>(r: seq<T>, s: seq<T>, t: seq<T>)
    ensures r + (s + t) == (r + s) + t
  {
  }

  lemma {:induction false} StreamBitsCons(o: Order, u: nat, w: nat, x: Word, xs: seq<Word>)
    requires u > 0
    ensures StreamBits(o, u, w, [x] + xs) == WordBits(o, u, w, x) + StreamBits(o, u, w, xs)
  {
    assert ([x] + xs)[1..] == xs;
  }

  // ----- Imploding many values into one

  /** imploder_step: ORs the low bits of z into x. */
  function ImploderStep(o: Order, u: nat, narrow: nat, wide: nat, z: Word, x: Word, k: nat): (y: Word)
    requires Widths(u, wide, narrow)
    requires Multiple(k, narrow) && k < wide
    ensures |y| == |x|
  {
    ShiftAligns(o, u, wide, narrow, k, 0);
    Deposit(StepShift(o, u, wide, narrow, k), narrow, z, x)
  }

  /** imploder: takes inputs until the wide value is complete. */
  function Implode(o: Order, u: nat, narrow: nat, wide: nat, zs: seq<Word>, x: Word, k: nat): (y: Word)
    requires Widths(u, wide, narrow)
    requires Multiple(k, narrow) && k + Times(|zs|, narrow) == wide
    ensures |y| == |x|
    decreases |zs|
  {
    if k == wide || zs == [] then x
    else
      MultipleRoom(k, wide, narrow);
      Implode(o, u, narrow, wide, zs[1..], ImploderStep(o, u, narrow, wide, zs[0], x, k), k + narrow)
  }

  /** Within an implosion, x holds the stream bits seen so far and zeros elsewhere. */
  ghost predicate Holds(o: Order, u: nat, wide: nat, bits: seq<bool>, n: nat, x: Word)
    requires u > 0
  {
    && Canonical(wide, n, x)
    && |bits| <= wide
    && WordBits(o, u, wide, x) == bits + Zero(wide - |bits|)
  }

  /** Other stream positions use other bits than step k does. */
  lemma {:induction false} OutsideRun(o: Order, u: nat, wide: nat, narrow: nat, k: nat, p: nat)
    requires Widths(u, wide, narrow) && Multiple(k, narrow) && k < wide
    requires p < wide && !(k <= p < k + narrow)
    ensures var shift := StepShift(o, u, wide, narrow, k);
      !(shift <= BitPos(o, u, wide, p) < shift + narrow)
  {
    hide Rem, BitPos, StepShift, StreamPos;
    var shift, i := StepShift(o, u, wide, narrow, k), BitPos(o, u, wide, p);
    if shift <= i < shift + narrow {
      BitPosBijective(o, u, narrow, i - shift);
      var j := StreamPos(o, u, narrow, i - shift);
      ShiftAligns(o, u, wide, narrow, k, j);
      MultipleRoom(k, wide, narrow);
      assert BitPos(o, u, wide, k + j) == i;
      BitPosBijective(o, u, wide, k + j);
      BitPosBijective(o, u, wide, p);
    }
  }

  /** One step puts the bits of z at stream positions k..k+narrow and keeps the others. */
  lemma {:induction false} ImploderStepBit(o: Order, u: nat, narrow: nat, wide: nat, z: Word, x: Word, k: nat, p: nat)
    requires Widths(u, wide, narrow) && Multiple(k, narrow) && k < wide <= |x| && p < wide
    ensures Bit(ImploderStep(o, u, narrow, wide, z, x, k), BitPos(o, u, wide, p))
         == (Bit(x, BitPos(o, u, wide, p))
             || (k <= p < k + narrow && Bit(z, BitPos(o, u, narrow, p - k))))
  {
    hide Rem, BitPos, StepShift, Multiple, Deposit;
    BitPosInside(o, u, wide, p);
    if k <= p < k + narrow {
      ShiftAligns(o, u, wide, narrow, k, p - k);
      BitPosInside(o, u, narrow, p - k);
    } else {
      OutsideRun(o, u, wide, narrow, k, p);
    }
  }

  lemma {:induction false} ImploderStepBits(o: Order, u: nat, narrow: nat, wide: nat, n: nat,
                         z: Word, x: Word, bits: seq<bool>)
    requires Widths(u, wide, narrow)
    requires Multiple(|bits|, narrow) && |bits| < wide <= n
    requires Holds(o, u, wide, bits, n, x)
    ensures |bits| + narrow <= wide
    ensures Holds(o, u, wide, bits + WordBits(o, u, narrow, z), n,
                  ImploderStep(o, u, narrow, wide, z, x, |bits|))
  {
    hide Rem, BitPos, StepShift, Multiple;
    var k := |bits|;
    MultipleRoom(k, wide, narrow);
    ShiftAligns(o, u, wide, narrow, k, 0);
    var y := ImploderStep(o, u, narrow, wide, z, x, k);
    var all := bits + WordBits(o, u, narrow, z);
    forall p | 0 <= p < wide
      ensures WordBits(o, u, wide, y)[p] == (all + Zero(wide - |all|))[p]
    {
      assert WordBits(o, u, wide, x)[p] == (bits + Zero(wide - k))[p];
      ImploderStepBit(o, u, narrow, wide, z, x, k, p);
    }
  }

  lemma {:induction false} ImplodeBits(o: Order, u: nat, narrow: nat, wide: nat, n: nat,
                                       zs: seq<Word>, x: Word, bits: seq<bool>)
    requires Widths(u, wide, narrow)
    requires Multiple(|bits|, narrow) && |bits| <= wide <= n
    requires |bits| + Times(|zs|, narrow) == wide
    requires Holds(o, u, wide, bits, n, x)
    ensures Holds(o, u, wide, bits + StreamBits(o, u, narrow, zs), n,
                  Implode(o, u, narrow, wide, zs, x, |bits|))
  {
    hide Rem, WordBits, ImploderStep, Holds;
    if |bits| == wide || zs == [] {
      assert bits + StreamBits(o, u, narrow, zs) == bits;
    } else {
      ImploderStepBits(o, u, narrow, wide, n, zs[0], x, bits);
      var bits' := bits + WordBits(o, u, narrow, zs[0]);
      ImplodeBits(o, u, narrow, wide, n, zs[1..], ImploderStep(o, u, narrow, wide, zs[0], x, |bits|), bits');
      assert bits' + StreamBits(o, u, narrow, zs[1..]) == bits + StreamBits(o, u, narrow, zs);
    }
  }

  // ----- pack.hpp

  ghost predicate AllCanonical(b: nat, n: nat, xs: seq<Word>) {
    forall x :: x in xs ==> Canonical(b, n, x)
  }

  /** Either width divides the other, as real_packer asserts. */
  predicate Convertible(u: nat, a: nat, b: nat) {
    Compatible(u, a) && Compatible(u, b) && (Multiple(a, b) || Multiple(b, a))
  }

  /** The assertion of pack_n: the input bits fill whole output values. */
  predicate Fits(o: Order, u: nat, a: nat, b: nat, xs: seq<Word>)
    requires u > 0 && b > 0
  {
    Multiple(|StreamBits(o, u, a, xs)|, b)
  }

  /** real_packer for equal widths; n is the storage width of the output values. */
  function CopySeq(n: nat, xs: seq<Word>): (ys: seq<Word>)
    ensures |ys| == |xs|
  {
    if xs == [] then [] else [Cast(n, xs[0])] + CopySeq(n, xs[1..])
  }

  /** real_packer from a to fewer bits b. */
  function ExplodeSeq(o: Order, u: nat, a: nat, b: nat, n: nat, xs: seq<Word>): seq<Word>
    requires Widths(u, a, b) && b <= n
  {
    if xs == [] then [] else Explode(o, u, a, b, n, xs[0], 0) + ExplodeSeq(o, u, a, b, n, xs[1..])
  }

  /** real_packer from a to more bits b. */
  function ImplodeSeq(o: Order, u: nat, a: nat, b: nat, n: nat, xs: seq<Word>): seq<Word>
    requires Widths(u, b, a) && a < b <= n
    decreases |xs|
  {
    var g := Quot(b, a);
    GroupCount(a, b);
    if |xs| < g then [] else
      [Implode(o, u, a, b, xs[..g], Zero(n), 0)] + ImplodeSeq(o, u, a, b, n, xs[g..])
  }

  /** real_packer: from values of a bits to values of b bits, each stored in n bits. */
  function PackSeq(o: Order, u: nat, a: nat, b: nat, n: nat, xs: seq<Word>): seq<Word>
    requires (a == b || Convertible(u, a, b)) && b <= n
  {
    if a == b then CopySeq(n, xs)
    else if a > b then LargerIsMultiple(a, b); ExplodeSeq(o, u, a, b, n, xs)
    else LargerIsMultiple(b, a); ImplodeSeq(o, u, a, b, n, xs)
  }

  lemma LargerIsMultiple(a: nat, b: nat)
    requires a > 0 && b > 0 && a > b && (Multiple(a, b) || Multiple(b, a))
    ensures Multiple(a, b)
  {
  }

  lemma StreamLength(o: Order, u: nat, w: nat, xs: seq<Word>)
    requires u > 0
    ensures |StreamBits(o, u, w, xs)| == Times(|xs|, w)
  {
  }

  /** Implosion takes b/a inputs at a time, which hold exactly b bits. */
  lemma {:induction false} GroupCount(a: nat, b: nat)
    requires 0 < a < b && Multiple(b, a)
    ensures Quot(b, a) > 0 && Times(Quot(b, a), a) == b
  {
    QuotTimes(b, a);
    MultipleIffRem(b, a);
  }

  lemma {:induction false} GroupFits(o: Order, u: nat, a: nat, b: nat, xs: seq<Word>)
    requires u > 0 && 0 < a < b && Multiple(b, a) && Fits(o, u, a, b, xs) && xs != []
    ensures Quot(b, a) <= |xs|
  {
    GroupCount(a, b);
    StreamLength(o, u, a, xs);
    TimesMonotone(Quot(b, a), |xs|, a);
  }

  lemma {:induction false} StreamBitsConcat(o: Order, u: nat, w: nat, xs: seq<Word>, ys: seq<Word>)
    requires u > 0
    ensures StreamBits(o, u, w, xs + ys) == StreamBits(o, u, w, xs) + StreamBits(o, u, w, ys)
  {
    if xs == [] {
      assert xs + ys == ys;
    } else {
      assert (xs + ys)[1..] == xs[1..] + ys;
      StreamBitsConcat(o, u, w, xs[1..], ys);
    }
  }

  lemma {:induction false} CastBits(o: Order, u: nat, w: nat, n: nat, x: Word)
    requires Compatible(u, w) && w <= n
    ensures WordBits(o, u, w, Cast(n, x)) == WordBits(o, u, w, x)
  {
    forall k | 0 <= k < w ensures WordBits(o, u, w, Cast(n, x))[k] == WordBits(o, u, w, x)[k] {
      BitPosInside(o, u, w, k);
    }
  }

  lemma {:induction false} ImplodeGroup(o: Order, u: nat, a: nat, b: nat, n: nat, zs: seq<Word>)
    requires Widths(u, b, a) && b <= n && Times(|zs|, a) == b
    ensures Canonical(b, n, Implode(o, u, a, b, zs, Zero(n), 0))
    ensures WordBits(o, u, b, Implode(o, u, a, b, zs, Zero(n), 0)) == StreamBits(o, u, a, zs)
  {
    assert Holds(o, u, b, [], n, Zero(n)) by {
      assert WordBits(o, u, b, Zero(n)) == [] + Zero(b);
    }
    ImplodeBits(o, u, a, b, n, zs, Zero(n), []);
    StreamLength(o, u, a, zs);
    NothingAdded(StreamBits(o, u, a, zs));
  }

  lemma NothingAdded(s: seq<bool>)
    ensures [] + s == s && s + Zero(0) == s
  {
  }

  lemma {:induction false} CopyBits(o: Order, u: nat, w: nat, n: nat, xs: seq<Word>)
    requires Compatible(u, w) && w <= n
    ensures StreamBits(o, u, w, CopySeq(n, xs)) == StreamBits(o, u, w, xs)
  {
    if xs != [] {
      CastBits(o, u, w, n, xs[0]);
      CopyBits(o, u, w, n, xs[1..]);
    }
  }

  lemma {:induction false} ExplodeSeqBits(o: Order, u: nat, a: nat, b: nat, n: nat, xs: seq<Word>)
    requires Widths(u, a, b) && b <= n
    ensures StreamBits(o, u, b, ExplodeSeq(o, u, a, b, n, xs)) == StreamBits(o, u, a, xs)
    ensures AllCanonical(b, n, ExplodeSeq(o, u, a, b, n, xs))
  {
    if xs != [] {
      ExplodeBits(o, u, a, b, n, xs[0], 0);
      ExplodeCanonical(o, u, a, b, n, xs[0], 0);
      ExplodeSeqBits(o, u, a, b, n, xs[1..]);
      StreamBitsConcat(o, u, b, Explode(o, u, a, b, n, xs[0], 0), ExplodeSeq(o, u, a, b, n, xs[1..]));
    }
  }

  lemma {:induction false} ImplodeSeqBits(o: Order, u: nat, a: nat, b: nat, n: nat, xs: seq<Word>)
    requires Widths(u, b, a) && a < b <= n && Fits(o, u, a, b, xs)
    ensures StreamBits(o, u, b, ImplodeSeq(o, u, a, b, n, xs)) == StreamBits(o, u, a, xs)
    ensures AllCanonical(b, n, ImplodeSeq(o, u, a, b, n, xs))
    decreases |xs|
  {
    GroupCount(a, b);
    if xs != [] {
      GroupFits(o, u, a, b, xs);
      var g := Quot(b, a);
      assert xs == xs[..g] + xs[g..];
      StreamBitsConcat(o, u, a, xs[..g], xs[g..]);
      StreamLength(o, u, a, xs[..g]);
      MultipleAdd(b, |StreamBits(o, u, a, xs[g..])|, b) by { MultipleAdd(b, 0, b); }
      ImplodeGroup(o, u, a, b, n, xs[..g]);
      ImplodeSeqBits(o, u, a, b, n, xs[g..]);
    }
  }

  /** Packing re-slices one bit stream: no bit is lost, added or moved. */
  lemma {:induction false} PackKeepsBits(o: Order, u: nat, a: nat, b: nat, n: nat, xs: seq<Word>)
    requires Convertible(u, a, b) && b <= n && Fits(o, u, a, b, xs)
    ensures StreamBits(o, u, b, PackSeq(o, u, a, b, n, xs)) == StreamBits(o, u, a, xs)
  {
    if a == b {
      CopyBits(o, u, a, n, xs);
    } else if a > b {
      LargerIsMultiple(a, b);
      ExplodeSeqBits(o, u, a, b, n, xs);
    } else {
      LargerIsMultiple(b, a);
      ImplodeSeqBits(o, u, a, b, n, xs);
    }
  }

  // ----- What the bit stream determines

  lemma {:induction false} WordDetermined(o: Order, u: nat, w: nat, n: nat, x: Word, y: Word)
    requires Compatible(u, w) && w <= n && Canonical(w, n, x) && Canonical(w, n, y)
    requires WordBits(o, u, w, x) == WordBits(o, u, w, y)
    ensures x == y
  {
    forall i | 0 <= i < w ensures x[i] == y[i] {
      BitPosBijective(o, u, w, i);
      var k := StreamPos(o, u, w, i);
      assert WordBits(o, u, w, x)[k] == WordBits(o, u, w, y)[k];
    }
  }

  lemma {:induction false} StreamDetermined(o: Order, u: nat, w: nat, n: nat, xs: seq<Word>, ys: seq<Word>)
    requires Compatible(u, w) && w <= n && AllCanonical(w, n, xs) && AllCanonical(w, n, ys)
    requires StreamBits(o, u, w, xs) == StreamBits(o, u, w, ys)
    ensures xs == ys
  {
    if xs != [] && ys != [] {
      assert WordBits(o, u, w, xs[0]) == StreamBits(o, u, w, xs)[..w];
      assert WordBits(o, u, w, ys[0]) == StreamBits(o, u, w, ys)[..w];
      assert StreamBits(o, u, w, xs[1..]) == StreamBits(o, u, w, xs)[w..];
      assert StreamBits(o, u, w, ys[1..]) == StreamBits(o, u, w, ys)[w..];
      WordDetermined(o, u, w, n, xs[0], ys[0]);
      StreamDetermined(o, u, w, n, xs[1..], ys[1..]);
    }
  }

  lemma {:induction false} CopyCanonical(w: nat, m: nat, n: nat, xs: seq<Word>)
    requires w <= n && AllCanonical(w, m, xs)
    ensures AllCanonical(w, n, CopySeq(n, xs))
  {
    if xs != [] {
      assert Canonical(w, m, xs[0]);
      CopyCanonical(w, m, n, xs[1..]);
    }
  }

  lemma {:induction false} PackCanonical(o: Order, u: nat, a: nat, b: nat, m: nat, n: nat, xs: seq<Word>)
    requires Convertible(u, a, b) && b <= n && Fits(o, u, a, b, xs) && AllCanonical(a, m, xs)
    ensures AllCanonical(b, n, PackSeq(o, u, a, b, n, xs))
  {
    if a == b {
      CopyCanonical(a, m, n, xs);
    } else if a > b {
      LargerIsMultiple(a, b);
      ExplodeSeqBits(o, u, a, b, n, xs);
    } else {
      LargerIsMultiple(b, a);
      ImplodeSeqBits(o, u, a, b, n, xs);
    }
  }

  /** Exploding then imploding, and imploding then exploding, give the input back. */
  lemma {:induction false} PackRoundTrip(o: Order, u: nat, a: nat, b: nat, m: nat, n: nat, xs: seq<Word>)
    requires Convertible(u, a, b) && a <= m && b <= n
    requires AllCanonical(a, m, xs) && Fits(o, u, a, b, xs)
    ensures PackSeq(o, u, b, a, m, PackSeq(o, u, a, b, n, xs)) == xs
  {
    PackIsUnique(o, u, b, a, n, m, PackSeq(o, u, a, b, n, xs), xs) by {
      PackKeepsBits(o, u, a, b, n, xs);
      PackCanonical(o, u, a, b, m, n, xs);
    }
  }

  /** Any intermediate width gives the same result as converting directly. */
  lemma {:induction false} PackComposes(o: Order, u: nat, a: nat, b: nat, c: nat, l: nat, m: nat, n: nat, xs: seq<Word>)
    requires Convertible(u, a, b) && Convertible(u, b, c) && Convertible(u, a, c)
    requires b <= m && c <= n && AllCanonical(a, l, xs)
    requires Fits(o, u, a, b, xs) && Fits(o, u, a, c, xs)
    ensures PackSeq(o, u, b, c, n, PackSeq(o, u, a, b, m, xs)) == PackSeq(o, u, a, c, n, xs)
  {
    PackKeepsBits(o, u, a, b, m, xs);
    PackCanonical(o, u, a, b, l, m, xs);
    PackKeepsBits(o, u, a, c, n, xs);
    PackCanonical(o, u, a, c, l, n, xs);
    PackIsUnique(o, u, b, c, m, n, PackSeq(o, u, a, b, m, xs), PackSeq(o, u, a, c, n, xs));
  }

  /** The result of packing is the only canonical sequence with the input's bits. */
  lemma {:induction false} PackIsUnique(o: Order, u: nat, a: nat, b: nat, m: nat, n: nat, xs: seq<Word>, ys: seq<Word>)
    requires Convertible(u, a, b) && b <= n && AllCanonical(a, m, xs) && AllCanonical(b, n, ys)
    requires StreamBits(o, u, b, ys) == StreamBits(o, u, a, xs)
    ensures Fits(o, u, a, b, xs) && PackSeq(o, u, a, b, n, xs) == ys
  {
    StreamFits(o, u, b, ys);
    PackKeepsBits(o, u, a, b, n, xs);
    PackCanonical(o, u, a, b, m, n, xs);
    StreamDetermined(o, u, b, n, PackSeq(o, u, a, b, n, xs), ys);
  }

  lemma {:induction false} StreamFits(o: Order, u: nat, w: nat, xs: seq<Word>)
    requires u > 0 && w > 0
    ensures Fits(o, u, w, w, xs)
  {
    if xs != [] {
      StreamFits(o, u, w, xs[1..]);
      MultipleAdd(w, |StreamBits(o, u, w, xs[1..])|, w) by { MultipleAdd(w, 0, w); }
    }
  }

  // ----- The memcpy shortcut on a little-endian host

  /** The bytes of an array of values on a little-endian host, as bits. */
  function Memory(xs: seq<Word>): seq<bool> {
    if xs == [] then [] else xs[0] + Memory(xs[1..])
  }

  /** host_can_memcpy for the two little-unit orders; storage is exactly a and b bits. */
  predicate HostCanMemcpy(o: Order, u: nat, a: nat, b: nat) {
    !o.bigUnit && u > 0 && Multiple(u, 8) && a >= u && b >= u
  }

  /** Bit k of the stream, in memory: the bits of each unit, perhaps backwards. */
  function MemoryPos(o: Order, u: nat, k: nat): int
    requires u > 0
  {
    var kb := Rem(k, u);
    k - kb + if o.bigBit then u - 1 - kb else kb
  }

  lemma {:induction false} MemoryOrder(o: Order, u: nat, w: nat, xs: seq<Word>, k: nat)
    requires Compatible(u, w) && w >= u && !o.bigUnit
    requires forall x :: x in xs ==> |x| == w
    requires k < |StreamBits(o, u, w, xs)|
    ensures StreamBits(o, u, w, xs)[k] == Bit(Memory(xs), MemoryPos(o, u, k))
  {
    hide MemoryPos, BitPos, Multiple;
    assert |xs[0]| == w;
    MemoryPosStep(o, u, w, k);
    if k < w {
      BitPosInside(o, u, w, k);
    } else {
      MemoryOrder(o, u, w, xs[1..], k - w);
    }
  }

  lemma {:induction false} MemoryPosStep(o: Order, u: nat, w: nat, k: nat)
    requires Compatible(u, w) && w >= u && !o.bigUnit
    ensures k < w ==> MemoryPos(o, u, k) == BitPos(o, u, w, k)
    ensures k >= w ==> MemoryPos(o, u, k) == w + MemoryPos(o, u, k - w) && MemoryPos(o, u, k - w) >= 0
  {
    if k >= w {
      UnitsWide(u, w);
      RemAdd(w, k - w, u);
    }
  }

  lemma {:induction false} MemoryLength(o: Order, u: nat, w: nat, xs: seq<Word>)
    requires u > 0 && forall x :: x in xs ==> |x| == w
    ensures |Memory(xs)| == |StreamBits(o, u, w, xs)|
  {
    if xs != [] { MemoryLength(o, u, w, xs[1..]); }
  }

  /** Copying the bytes is the conversion, wherever the shortcut is taken: ys are the
      values that the destination holds after memcpy. */
  lemma {:induction false} MemcpyIsPack(o: Order, u: nat, a: nat, b: nat, xs: seq<Word>, ys: seq<Word>)
    requires Convertible(u, a, b) && HostCanMemcpy(o, u, a, b)
    requires (forall x :: x in xs ==> |x| == a) && (forall y :: y in ys ==> |y| == b)
    requires Memory(ys) == Memory(xs)
    ensures Fits(o, u, a, b, xs) && PackSeq(o, u, a, b, b, xs) == ys
  {
    MemoryLength(o, u, a, xs);
    MemoryLength(o, u, b, ys);
    forall k | 0 <= k < |StreamBits(o, u, a, xs)|
      ensures StreamBits(o, u, b, ys)[k] == StreamBits(o, u, a, xs)[k]
    {
      MemoryOrder(o, u, a, xs, k);
      MemoryOrder(o, u, b, ys, k);
    }
    assert StreamBits(o, u, b, ys) == StreamBits(o, u, a, xs);
    PackIsUnique(o, u, a, b, a, b, xs, ys);
  }

  /** The primary can_memcpy: equal widths in types of equal size are copied as they are. */
  lemma {:induction false} SameSizeCopy(n: nat, xs: seq<Word>)
    requires forall x :: x in xs ==> |x| == n
    ensures CopySeq(n, xs) == xs
  {
    if xs != [] {
      assert Cast(n, xs[0]) == xs[0];
      SameSizeCopy(n, xs[1..]);
    }
  }

  // ----- The loops.  `out` is what has been written through the output iterator.

  /** exploder::explode. */
  method ExplodeInto(o: Order, u: nat, wide: nat, narrow: nat, n: nat, x: Word, k: nat, out: seq<Word>)
    returns (out': seq<Word>)
    requires Widths(u, wide, narrow) && Multiple(k, narrow) && k <= wide && narrow <= n
    ensures out' == out + Explode(o, u, wide, narrow, n, x, k)
    decreases wide - k
  {
    out' := out;
    if k < wide {
      MultipleRoom(k, wide, narrow);
      out' := out + [ExploderStep(o, u, wide, narrow, n, x, k)];
      out' := ExplodeInto(o, u, wide, narrow, n, x, k + narrow, out');
    }
  }

  /** imploder::implode: reads from position `at` of the input until the value is complete. */
  method ImplodeFrom(o: Order, u: nat, narrow: nat, wide: nat, xs: seq<Word>, at: nat, x: Word, k: nat)
    returns (y: Word, at': nat)
    requires Widths(u, wide, narrow) && Multiple(k, narrow) && k <= wide
    requires at <= |xs| && k + Times(|xs| - at, narrow) >= wide
    ensures at <= at' <= |xs| && k + Times(at' - at, narrow) == wide
    ensures y == Implode(o, u, narrow, wide, xs[at..at'], x, k)
    decreases wide - k
  {
    y, at' := x, at;
    if k < wide {
      MultipleRoom(k, wide, narrow);
      y, at' := ImplodeFrom(o, u, narrow, wide, xs, at + 1,
                            ImploderStep(o, u, narrow, wide, xs[at], x, k), k + narrow);
      assert xs[at..at'][1..] == xs[at + 1..at'];
    }
  }

  /** real_packer::pack_n for equal widths. */
  method CopyN(n: nat, xs: seq<Word>) returns (out: seq<Word>)
    ensures out == CopySeq(n, xs)
  {
    out := [];
    var i := 0;
    while i < |xs|
      invariant 0 <= i <= |xs|
      invariant CopySeq(n, xs) == out + CopySeq(n, xs[i..])
    {
      assert xs[i..][1..] == xs[i + 1..];
      out := out + [Cast(n, xs[i])];
      i := i + 1;
    }
  }

  /** real_packer::pack_n for splitting values. */
  method ExplodeN(o: Order, u: nat, a: nat, b: nat, n: nat, xs: seq<Word>) returns (out: seq<Word>)
    requires Widths(u, a, b) && b <= n
    ensures out == ExplodeSeq(o, u, a, b, n, xs)
  {
    hide Explode, Rem;
    out := [];
    var i := 0;
    while i < |xs|
      invariant 0 <= i <= |xs|
      invariant ExplodeSeq(o, u, a, b, n, xs) == out + ExplodeSeq(o, u, a, b, n, xs[i..])
    {
      assert xs[i..][1..] == xs[i + 1..];
      ConcatAssociative(out, Explode(o, u, a, b, n, xs[i], 0), ExplodeSeq(o, u, a, b, n, xs[i + 1..]));
      out := ExplodeInto(o, u, a, b, n, xs[i], 0, out);
      i := i + 1;
    }
  }

  /** real_packer::pack_n for joining values. */
  method ImplodeN(o: Order, u: nat, a: nat, b: nat, n: nat, xs: seq<Word>) returns (out: seq<Word>)
    requires Widths(u, b, a) && a < b <= n
    ensures out == ImplodeSeq(o, u, a, b, n, xs)
  {
    hide Implode, Rem, Zero, Times;
    out := [];
    var i := 0;
    var g := Quot(b, a);
    GroupCount(a, b);
    while |xs| - i >= g  // in_n / (OutputBits / InputBits) times
      invariant 0 <= i <= |xs|
      invariant ImplodeSeq(o, u, a, b, n, xs) == out + ImplodeSeq(o, u, a, b, n, xs[i..])
    {
      TimesMonotone(g, |xs| - i, a);
      var value, i' := ImplodeFrom(o, u, a, b, xs, i, Zero(n), 0);
      TimesInjective(i' - i, g, a);
      assert xs[i..][..g] == xs[i..i'] && xs[i..][g..] == xs[i'..];
      out := out + [value];
      i := i';
    }
  }

  /** packer::pack_n without the memcpy shortcut. */
  method PackN(o: Order, u: nat, a: nat, b: nat, n: nat, xs: seq<Word>) returns (out: seq<Word>)
    requires (a == b || Convertible(u, a, b)) && b <= n
    ensures out == PackSeq(o, u, a, b, n, xs)
  {
    if a == b {
      out := CopyN(n, xs);
    } else if a > b {
      LargerIsMultiple(a, b);
      out := ExplodeN(o, u, a, b, n, xs);
    } else {
      LargerIsMultiple(b, a);
      out := ImplodeN(o, u, a, b, n, xs);
    }
  }
}
