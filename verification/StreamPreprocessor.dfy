/** stream_preprocessor.hpp: buffering values into blocks, padding, and the length.

    The block size is a parameter, so the % and / of the source are written Rem and
    Quot (see Arithmetic.RemIsMod and Arithmetic.QuotIsDiv).
  */
module StreamPreprocessor {
  import opened Arithmetic
  import opened MerkleDamgard

  /** The template parameters.  Values are packed into blocks of words by `pack`; the
      length is turned into words by `lengthField`.  `seenMod` is 2 to the width of
      length_type. */
  datatype Format<!V, !W> = Format(
    valueBits: nat, blockValues: nat, blockWords: nat,
    lengthBits: nat, lengthValues: nat, lengthWords: nat, seenMod: nat,
    pad: V, zero: V,
    pack: seq<V> -> seq<W>, lengthField: nat -> seq<W>)
  {
    function BlockBits(): nat {
      Times(blockValues, valueBits)
    }

    /** How many values of the last block come before the length. */
    function LastValues(): nat {
      if lengthValues == 0 || lengthValues >= blockValues then 0 else blockValues - lengthValues
    }

    /** The zero values that follow the pad value of an n-value message. */
    function ZeroValues(n: nat): nat
      requires blockValues > 0
    {
      Rem(LastValues() + blockValues - Rem(n + 1, blockValues), blockValues)
    }
  }

  /** The static assertions, and that a length fits into a block (append_length would
      otherwise write outside it).  When the length is tracked the counter may wrap, so
      the block size has to divide its range. */
  ghost predicate ValidFormat<V(!new), W(!new)>(f: Format<V, W>) {
    && f.valueBits > 0 && f.blockValues > 0
    && f.lengthBits == Times(f.lengthValues, f.valueBits)
    && f.lengthValues <= f.blockValues && f.lengthWords <= f.blockWords
    && f.BlockBits() <= f.seenMod
    && (f.lengthBits > 0 ==> Multiple(f.seenMod, f.BlockBits()))
    && (forall n :: |f.lengthField(n)| == f.lengthWords)
    && (forall vs {:trigger PacksInOrder(f, vs)} :: |vs| == f.blockValues ==> PacksInOrder(f, vs))
  }

  /** A block of values fills a block of words, front to back. */
  ghost predicate PacksInOrder<V, W>(f: Format<V, W>, vs: seq<V>)
    requires |vs| == f.blockValues && f.lengthWords <= f.blockWords
  {
    && |f.pack(vs)| == f.blockWords
    && (f.lengthBits > 0 ==> f.pack(vs)[..f.blockWords - f.lengthWords] == f.pack(vs[..f.LastValues()]))
  }

  /** Whole blocks of a value sequence. */
  function Blocks<V, W>(f: Format<V, W>, vs: seq<V>): seq<seq<W>>
    requires f.blockValues > 0
    decreases |vs|
  {
    if |vs| < f.blockValues then []
    else [f.pack(vs[..f.blockValues])] + Blocks(f, vs[f.blockValues..])
  }

  function Repeat<V>(n: nat, v: V): (s: seq<V>)
    ensures |s| == n
  {
    seq(n, _ => v)
  }

  /** The message, the pad value, and zeros up to the room for the length. */
  function Padded<V, W>(f: Format<V, W>, msg: seq<V>): seq<V>
    requires f.blockValues > 0
  {
    msg + [f.pad] + Repeat(f.ZeroValues(|msg|), f.zero)
  }

  /** A last block: the values left over, then the length. */
  function LastBlock<V, W>(f: Format<V, W>, vs: seq<V>, length: nat): seq<W> {
    f.pack(vs) + f.lengthField(length)
  }

  /** What the block hash must receive for a message. */
  ghost function PaddedBlocks<V(!new), W(!new)>(f: Format<V, W>, msg: seq<V>): seq<seq<W>>
    requires ValidFormat(f)
  {
    var vs := Padded(f, msg);
    if f.lengthBits == 0 then Blocks(f, vs)
    else
      var r := Rem(|vs|, f.blockValues);
      Blocks(f, vs) + [LastBlock(f, vs[|vs| - r..], Rem(Times(|msg|, f.valueBits), f.seenMod))]
  }

  // ----- Facts about whole blocks

  lemma {:induction false} BlocksAppend<V, W>(f: Format<V, W>, vs: seq<V>, ws: seq<V>)
    requires f.blockValues > 0 && Multiple(|vs|, f.blockValues)
    ensures Blocks(f, vs + ws) == Blocks(f, vs) + Blocks(f, ws)
    decreases |vs|
  {
    if vs == [] {
      assert vs + ws == ws;
    } else {
      var n := f.blockValues;
      assert (vs + ws)[..n] == vs[..n] && (vs + ws)[n..] == vs[n..] + ws;
      BlocksAppend(f, vs[n..], ws);
    }
  }

  /** The values beyond the last whole block do not matter. */
  lemma {:induction false} BlocksPrefix<V, W>(f: Format<V, W>, vs: seq<V>)
    requires f.blockValues > 0
    ensures Multiple(|vs| - Rem(|vs|, f.blockValues), f.blockValues)
    ensures Blocks(f, vs) == Blocks(f, vs[..|vs| - Rem(|vs|, f.blockValues)])
  {
    var k := |vs| - Rem(|vs|, f.blockValues);
    RemBase(|vs|, f.blockValues);
    assert vs == vs[..k] + vs[k..];
    BlocksAppend(f, vs[..k], vs[k..]);
  }

  // ----- The counter

  /** i and j of update_one: the counter gives the position in the buffer. */
  lemma {:induction false} Position(seen: nat, bb: nat, v: nat, fill: nat)
    requires v > 0 && bb > 0 && Rem(seen, bb) == Times(fill, v)
    ensures Quot(Rem(seen, bb), v) == fill
  {
    QuotOfTimes(fill, v);
  }

  /** The counter after n values: modulo its width when it is the message length,
      and within the block when it is not. */
  predicate Counts<V, W>(f: Format<V, W>, seen: nat, n: nat)
    requires f.blockValues > 0 && f.valueBits > 0 && f.seenMod > 0 && f.BlockBits() > 0
  {
    && seen < f.seenMod
    && Rem(seen, f.BlockBits()) == Times(Rem(n, f.blockValues), f.valueBits)
    && (if f.lengthBits > 0 then seen == Rem(Times(n, f.valueBits), f.seenMod)
        else seen == Times(Rem(n, f.blockValues), f.valueBits))
  }

  predicate Sizes<V, W>(f: Format<V, W>) {
    && f.valueBits > 0 && f.blockValues > 0 && f.seenMod > 0 && f.BlockBits() > 0
    && f.BlockBits() <= f.seenMod
    && (f.lengthBits > 0 ==> Multiple(f.seenMod, f.BlockBits()))
    && f.lengthBits == Times(f.lengthValues, f.valueBits) && f.lengthValues <= f.blockValues
  }

  lemma {:induction false} ValidSizes<V(!new), W(!new)>(f: Format<V, W>)
    requires ValidFormat(f)
    ensures Sizes(f)
  {
    TimesMonotone(1, f.blockValues, f.valueBits);
  }

  /** Adding in a wrapping counter. */
  lemma {:induction false} WrapAdd(seen: nat, v: nat, mod: nat)
    requires seen < mod && v <= mod
    ensures Rem(seen + v, mod) == if seen + v < mod then seen + v else seen + v - mod
  {
    TwoBlocks(seen + v, mod);
  }

  lemma {:induction false} RemNext(n: nat, k: nat, b: nat)
    requires b > 0 && Rem(n, b) + k <= b
    ensures Rem(n + k, b) == if Rem(n, b) + k == b then 0 else Rem(n, b) + k
  {
    RemBase(n, b);
    RemAdd(n - Rem(n, b), Rem(n, b) + k, b);
  }

  /** k more values, within one block. */
  lemma {:induction false} CountMore<V, W>(f: Format<V, W>, seen: nat, n: nat, k: nat, seen': nat)
    requires Sizes(f) && Counts(f, seen, n) && Rem(n, f.blockValues) + k <= f.blockValues
    requires var s := seen + Times(k, f.valueBits); seen' == if s < f.seenMod then s else s - f.seenMod
    ensures Counts(f, if f.lengthBits == 0 && Rem(n + k, f.blockValues) == 0 then 0 else seen', n + k)
  {
    var fill, v, b := Rem(n, f.blockValues), f.valueBits, f.BlockBits();
    TimesSum(fill, k, v);
    TimesMonotone(fill + k, f.blockValues, v);
    TimesMonotone(f.blockValues, fill + k, v);
    RemNext(n, k, f.blockValues);
    if f.lengthBits > 0 {
      CountTracked(f, seen, n, k);
    }
  }

  lemma {:induction false} CountTracked<V, W>(f: Format<V, W>, seen: nat, n: nat, k: nat)
    requires Sizes(f) && Counts(f, seen, n) && f.lengthBits > 0
    requires Rem(seen, f.BlockBits()) + Times(k, f.valueBits) <= f.BlockBits()
    ensures var s := seen + Times(k, f.valueBits);
      && s <= f.seenMod
      && Rem(Times(n + k, f.valueBits), f.seenMod) == (if s == f.seenMod then 0 else s)
      && Rem(if s == f.seenMod then 0 else s, f.BlockBits())
         == (if Rem(seen, f.BlockBits()) + Times(k, f.valueBits) == f.BlockBits() then 0
             else Rem(seen, f.BlockBits()) + Times(k, f.valueBits))
  {
    hide Rem, Times, Multiple;
    var v, b := f.valueBits, f.BlockBits();
    NoOvershoot(seen, Times(k, v), b, f.seenMod);
    TimesSum(n, k, v);
    RemNext(Times(n, v), Times(k, v), f.seenMod);
    RemNext(seen, Times(k, v), b);
  }

  /** A counter that is a whole number of blocks wide wraps at a block boundary. */
  lemma {:induction false} NoOvershoot(seen: nat, k: nat, b: nat, mod: nat)
    requires b > 0 && Multiple(mod, b) && seen < mod && Rem(seen, b) + k <= b
    ensures seen + k <= mod
    ensures seen + k == mod ==> Rem(seen, b) + k == b
  {
    RemBase(seen, b);
    MultipleRoom(seen - Rem(seen, b), mod, b);
  }

  /** A counter that wraps at `mod` gives every message its position in the block exactly
      when blocks divide its range; below the range it is right in any case. */
  lemma {:induction false} CounterRightExactly(b: nat, v: nat, mod: nat)
    requires 0 < v && 0 < b <= mod && Multiple(b, v)
    ensures (forall n :: Rem(Rem(Times(n, v), mod), b) == Rem(Times(n, v), b)) <==> Multiple(mod, b)
    ensures forall n :: Times(n, v) < mod ==> Rem(Rem(Times(n, v), mod), b) == Rem(Times(n, v), b)
  {
    hide Multiple, Times, Rem;
    if Multiple(mod, b) {
      forall n ensures Rem(Rem(Times(n, v), mod), b) == Rem(Times(n, v), b) {
        RemOfRem(Times(n, v), mod, b);
      }
    } else {
      FirstWrap(b, v, mod);
    }
  }

  lemma {:induction false} RemOfRem(k: nat, mod: nat, b: nat)
    requires b > 0 && mod > 0 && Multiple(mod, b)
    ensures Rem(Rem(k, mod), b) == Rem(k, b)
  {
    hide Multiple, Rem;
    RemBase(k, mod);
    MultipleTransitive(k - Rem(k, mod), mod, b);
    RemAdd(k - Rem(k, mod), Rem(k, mod), b);
  }

  /** The first message that makes the counter wrap finds it in the wrong place. */
  lemma {:induction false} FirstWrap(b: nat, v: nat, mod: nat)
    requires 0 < v && 0 < b <= mod && Multiple(b, v) && !Multiple(mod, b)
    ensures exists n :: Rem(Rem(Times(n, v), mod), b) != Rem(Times(n, v), b)
  {
    hide Multiple, Times, Rem;
    WholeIsMore(b, v);
    QuotTimes(mod - 1, v);
    var n := Quot(mod - 1, v) + 1;
    TimesSum(Quot(mod - 1, v), 1, v);
    TimesOne(v);
    var s := Times(n, v);
    assert mod <= s < mod + v;
    TwoBlocks(s, mod);
    RemBase(s, b);
  }

  lemma {:induction false} WholeIsMore(b: nat, v: nat)
    requires 0 < v && 0 < b && Multiple(b, v)
    ensures v <= b
  {
  }

  /** More values, within one block. */
  lemma {:induction false} BlocksMore<V, W>(f: Format<V, W>, msg: seq<V>, vs: seq<V>)
    requires f.blockValues > 0 && Rem(|msg|, f.blockValues) + |vs| <= f.blockValues
    ensures var fill := Rem(|msg|, f.blockValues);
      Blocks(f, msg + vs) == if fill + |vs| == f.blockValues
        then Blocks(f, msg) + [f.pack(msg[|msg| - fill..] + vs)] else Blocks(f, msg)
  {
    hide Rem, Multiple;
    var k := |msg| - Rem(|msg|, f.blockValues);
    BlocksPrefix(f, msg);
    assert msg + vs == msg[..k] + (msg[k..] + vs);
    BlocksAppend(f, msg[..k], msg[k..] + vs);
    BlocksOfOne(f, msg[k..] + vs);
  }

  lemma {:induction false} BlocksOfOne<V, W>(f: Format<V, W>, vs: seq<V>)
    requires f.blockValues > 0 && |vs| <= f.blockValues
    ensures Blocks(f, vs) == if |vs| == f.blockValues then [f.pack(vs)] else []
  {
    if |vs| == f.blockValues {
      assert vs[..|vs|] == vs;
    }
  }

  // ----- Padding

  /** A wrapping counter plus some more, within a block. */
  lemma {:induction false} WrappedRem(seen: nat, more: nat, b: nat, mod: nat)
    requires 0 < b && more <= mod && seen < mod && (more > 0 ==> Multiple(mod, b))
    ensures Rem(Rem(seen + more, mod), b) == Rem(Rem(seen, b) + more, b)
  {
    hide Rem, Multiple;
    WrapAdd(seen, more, mod);
    RemBase(seen, b);
    RemAdd(seen - Rem(seen, b), Rem(seen, b) + more, b);
    if seen + more >= mod { RemAdd(mod, seen + more - mod, b); }
  }

  /** The loop test of end_message, in values. */
  lemma {:induction false} LoopTest<V, W>(f: Format<V, W>, seen: nat, n: nat)
    requires Sizes(f) && Counts(f, seen, n)
    ensures Rem(Rem(seen + f.lengthBits, f.seenMod), f.BlockBits()) == 0 <==> Rem(n, f.blockValues) == f.LastValues()
  {
    hide Rem, Times, Multiple;
    var fill, v := Rem(n, f.blockValues), f.valueBits;
    TimesMonotone(f.lengthValues, f.blockValues, v);
    WrappedRem(seen, f.lengthBits, f.BlockBits(), f.seenMod);
    TimesSum(fill, f.lengthValues, v);
    FullBlock(fill + f.lengthValues, f.blockValues, v);
  }

  /** Up to two blocks of values are whole blocks exactly when their bits are. */
  lemma {:induction false} FullBlock(k: nat, n: nat, v: nat)
    requires n > 0 && v > 0 && Times(n, v) > 0 && k < n + n
    ensures Rem(Times(k, v), Times(n, v)) == 0 <==> (k == 0 || k == n)
  {
    var b := Times(n, v);
    if k < n {
      TimesMonotone(n, k, v);
      TimesMonotone(k, 0, v);
    } else {
      TimesSum(n, k - n, v);
      TimesMonotone(n, k - n, v);
      TimesMonotone(k - n, 0, v);
      assert Rem(Times(k, v), b) == Rem(Times(k - n, v), b);
    }
  }

  /** The loop stops after exactly ZeroValues zeros. */
  lemma {:induction false} ZeroCount<V, W>(f: Format<V, W>, n: nat, z: nat)
    requires f.blockValues > 0 && z <= f.ZeroValues(n)
    ensures Rem(n + 1 + z, f.blockValues) == f.LastValues() <==> z == f.ZeroValues(n)
  {
    var b, r := f.blockValues, Rem(n + 1, f.blockValues);
    RemBase(n + 1, b);
    RemAdd(n + 1 - r, r + z, b);
    TwoBlocks(r + z, b);
    TwoBlocks(f.LastValues() + b - r, b);
  }

  lemma TwoBlocks(k: nat, b: nat)
    requires 0 < b && k < b + b
    ensures Rem(k, b) == if k < b then k else k - b
  {
  }

  // ----- One value

  /** What update_one does to the position, the counter and the blocks. */
  lemma {:induction false} OneMore<V, W>(f: Format<V, W>, seen: nat, msg: seq<V>, value: V)
    requires Sizes(f) && Counts(f, seen, |msg|)
    ensures var fill, full := Rem(|msg|, f.blockValues), Rem(|msg|, f.blockValues) + 1 == f.blockValues;
      && Quot(Rem(seen, f.BlockBits()), f.valueBits) == fill
      && (Rem(seen, f.BlockBits()) == f.BlockBits() - f.valueBits <==> full)
      && Counts(f, if f.lengthBits == 0 && full then 0 else Rem(seen + f.valueBits, f.seenMod), |msg| + 1)
      && Rem(|msg| + 1, f.blockValues) == (if full then 0 else fill + 1)
      && Blocks(f, msg + [value])
         == if full then Blocks(f, msg) + [f.pack(msg[|msg| - fill..] + [value])] else Blocks(f, msg)
  {
    hide Rem, Times, Quot, Multiple, Blocks;
    var fill := Rem(|msg|, f.blockValues);
    Position(seen, f.BlockBits(), f.valueBits, fill);
    LastPosition(fill, f.blockValues, f.valueBits);
    TimesMonotone(1, f.blockValues, f.valueBits);
    TimesOne(f.valueBits);
    WrapAdd(seen, f.valueBits, f.seenMod);
    RemNext(|msg|, 1, f.blockValues);
    CountMore(f, seen, |msg|, 1, Rem(seen + f.valueBits, f.seenMod));
    BlocksMore(f, msg, [value]);
  }

  lemma {:induction false} LastPosition(fill: nat, n: nat, v: nat)
    requires v > 0 && fill < n
    ensures Times(fill, v) == Times(n, v) - v <==> fill + 1 == n
  {
    TimesInjective'(fill + 1, n, v);
  }

  lemma {:induction false} TimesInjective'(p: nat, q: nat, n: nat)
    requires n > 0
    ensures Times(p, n) == Times(q, n) <==> p == q
  {
    TimesMonotone(p, q, n);
    TimesMonotone(q, p, n);
  }

  lemma {:induction false} AtBoundary<V, W>(f: Format<V, W>, seen: nat, n: nat)
    requires Sizes(f) && Counts(f, seen, n)
    ensures Rem(seen, f.BlockBits()) == 0 <==> Rem(n, f.blockValues) == 0
  {
    TimesMonotone(Rem(n, f.blockValues), 0, f.valueBits);
  }

  /** The same for a whole block at a block boundary, as in update_n. */
  lemma {:induction false} BulkMore<V, W>(f: Format<V, W>, seen: nat, msg: seq<V>, vs: seq<V>)
    requires Sizes(f) && Counts(f, seen, |msg|) && Rem(|msg|, f.blockValues) == 0 && |vs| == f.blockValues
    ensures Counts(f, if f.lengthBits == 0 then 0 else Rem(seen + f.BlockBits(), f.seenMod), |msg + vs|)
    ensures Rem(|msg + vs|, f.blockValues) == 0
    ensures Blocks(f, msg + vs) == Blocks(f, msg) + [f.pack(vs)]
  {
    hide Rem, Times, Quot, Multiple, Blocks;
    WrapAdd(seen, f.BlockBits(), f.seenMod);
    RemNext(|msg|, f.blockValues, f.blockValues);
    CountMore(f, seen, |msg|, f.blockValues, Rem(seen + f.BlockBits(), f.seenMod));
    BlocksMore(f, msg, vs);
    assert msg[|msg|..] + vs == vs;
  }

  lemma StartCounts<V, W>(f: Format<V, W>)
    requires Sizes(f)
    ensures Counts(f, 0, 0) && Blocks(f, []) == []
  {
    TimesOne(f.valueBits);
  }

  lemma RepeatMore<V>(s: seq<V>, n: nat, v: V)
    ensures s + Repeat(n, v) + [v] == s + Repeat(n + 1, v)
  {
  }

  lemma NoRepeats<V>(s: seq<V>, v: V)
    ensures s + Repeat(0, v) == s
  {
  }

  // ----- The state of a preprocessor

  /** Counter, buffer and blocks belong to the message so far.  Nothing is said about the
      part of the buffer beyond the current position. */
  ghost predicate Sound<V(!new), W(!new)>(f: Format<V, W>, seen: nat, msg: seq<V>, buffer: seq<V>, blocks: seq<seq<W>>) {
    && ValidFormat(f) && Sizes(f) && |buffer| == f.blockValues
    && Counts(f, seen, |msg|)
    && (var fill := Rem(|msg|, f.blockValues); buffer[..fill] == msg[|msg| - fill..])
    && blocks == Blocks(f, msg)
  }

  lemma {:induction false} SoundSizes<V(!new), W(!new)>(f: Format<V, W>, seen: nat, msg: seq<V>, buffer: seq<V>, blocks: seq<seq<W>>)
    requires Sound(f, seen, msg, buffer, blocks)
    ensures ValidFormat(f) && Sizes(f) && |buffer| == f.blockValues && blocks == Blocks(f, msg)
    ensures seen < f.seenMod && (f.lengthBits > 0 ==> seen == Rem(Times(|msg|, f.valueBits), f.seenMod))
    ensures Rem(seen, f.BlockBits()) == 0 <==> Rem(|msg|, f.blockValues) == 0
  {
    hide ValidFormat, Blocks, Rem, Times, Multiple;
    AtBoundary(f, seen, |msg|);
  }

  lemma {:induction false} StartSound<V(!new), W(!new)>(f: Format<V, W>, buffer: seq<V>)
    requires ValidFormat(f) && Sizes(f) && |buffer| == f.blockValues
    ensures Sound(f, 0, [], buffer, [])
  {
    hide ValidFormat, Sizes, Counts;
    StartCounts(f);
  }

  lemma BufferMore<V>(buffer: seq<V>, fill: nat, msg: seq<V>, value: V)
    requires fill < |buffer| && fill <= |msg| && buffer[..fill] == msg[|msg| - fill..]
    ensures buffer[fill := value][..fill + 1] == msg[|msg| - fill..] + [value] == (msg + [value])[|msg| - fill..]
    ensures fill + 1 == |buffer| ==> buffer[fill := value] == msg[|msg| - fill..] + [value]
  {
  }

  /** update_one, on values. */
  lemma {:induction false} OneSound<V(!new), W(!new)>(f: Format<V, W>, seen: nat, msg: seq<V>, buffer: seq<V>,
                                                      blocks: seq<seq<W>>, value: V)
    requires Sound(f, seen, msg, buffer, blocks)
    ensures Sizes(f) && Quot(Rem(seen, f.BlockBits()), f.valueBits) < |buffer|
    ensures
      var i := Rem(seen, f.BlockBits());
      var buffer', seen' := buffer[Quot(i, f.valueBits) := value], Rem(seen + f.valueBits, f.seenMod);
      if i == f.BlockBits() - f.valueBits then
        Sound(f, if f.lengthBits == 0 then 0 else seen', msg + [value], buffer', blocks + [f.pack(buffer')])
      else Sound(f, seen', msg + [value], buffer', blocks)
  {
    hide Counts, ValidFormat, Blocks, Rem, Times, Quot, Multiple;
    OneMore(f, seen, msg, value);
    BufferMore(buffer, Rem(|msg|, f.blockValues), msg, value);
  }

  /** One turn of the bulk loop, on values. */
  lemma {:induction false} BlockSound<V(!new), W(!new)>(f: Format<V, W>, seen: nat, msg: seq<V>, buffer: seq<V>,
                                                        blocks: seq<seq<W>>, vs: seq<V>)
    requires Sound(f, seen, msg, buffer, blocks) && Rem(|msg|, f.blockValues) == 0 && |vs| == f.blockValues
    ensures Rem(|msg + vs|, f.blockValues) == 0 && f.seenMod > 0
    ensures Sound(f, if f.lengthBits == 0 then 0 else Rem(seen + f.BlockBits(), f.seenMod), msg + vs, buffer,
                  blocks + [f.pack(vs)])
  {
    hide Counts, ValidFormat, Blocks, Rem, Times, Multiple;
    BulkMore(f, seen, msg, vs);
  }

  /** The loop of end_message stops after exactly ZeroValues zeros. */
  lemma {:induction false} PadSound<V(!new), W(!new)>(f: Format<V, W>, seen: nat, m: seq<V>, msg: seq<V>, buffer: seq<V>,
                                                      blocks: seq<seq<W>>, z: nat)
    requires Sound(f, seen, msg, buffer, blocks) && |msg| == |m| + 1 + z && z <= f.ZeroValues(|m|)
    ensures Sizes(f)
    ensures Rem(Rem(seen + f.lengthBits, f.seenMod), f.BlockBits()) == 0 <==> z == f.ZeroValues(|m|)
    ensures Rem(|msg|, f.blockValues) == f.LastValues() <==> z == f.ZeroValues(|m|)
  {
    hide Counts, ValidFormat, Blocks, Rem, Times, Multiple, Format.ZeroValues;
    LoopTest(f, seen, |msg|);
    ZeroCount(f, |m|, z);
  }

  /** Overwriting the end of the packed buffer with the length gives the last block,
      whatever is left in the buffer beyond the message. */
  lemma {:induction false} LastSound<V(!new), W(!new)>(f: Format<V, W>, seen: nat, msg: seq<V>, buffer: seq<V>,
                                                       blocks: seq<seq<W>>, length: nat)
    requires Sound(f, seen, msg, buffer, blocks) && f.lengthBits > 0
    requires f.blockValues > 0 && Rem(|msg|, f.blockValues) == f.LastValues()
    ensures f.lengthWords <= f.blockWords == |f.pack(buffer)| && |f.lengthField(length)| == f.lengthWords
    ensures f.pack(buffer)[..f.blockWords - f.lengthWords] + f.lengthField(length)
         == LastBlock(f, msg[|msg| - f.LastValues()..], length)
  {
    hide Counts, Blocks, Rem, Times, Multiple;
    assert PacksInOrder(f, buffer);
  }

  lemma TakeMore<V>(m: seq<V>, p: seq<V>, i: nat, j: nat)
    requires i <= j <= |p|
    ensures m + p[..i] + p[i..j] == m + p[..j]
  {
    assert p[..i] + p[i..j] == p[..j];
  }

  lemma TakeOne<V>(m: seq<V>, p: seq<V>, i: nat)
    requires i < |p|
    ensures m + p[..i] + [p[i]] == m + p[..i + 1]
  {
    TakeMore(m, p, i, i + 1);
    assert p[i..i + 1] == [p[i]];
  }

  lemma OverwriteNext<W>(block: seq<W>, head: seq<W>, words: seq<W>, i: nat)
    requires 0 < i <= |words| && |block| == |head| + |words|
    requires block[..|block| - i] == head + words[..|words| - i]
    ensures block[|block| - i := words[|words| - i]][..|block| - (i - 1)] == head + words[..|words| - (i - 1)]
  {
  }

  /** The loop of append_length, from the last word on. */
  method Overwrite<W>(block: seq<W>, words: seq<W>) returns (last: seq<W>)
    requires |words| <= |block|
    ensures last == block[..|block| - |words|] + words
  {
    ghost var head := block[..|block| - |words|];
    last := block;
    var i := |words|;
    while i > 0
      invariant 0 <= i <= |words| && |last| == |block|
      invariant last[..|last| - i] == head + words[..|words| - i]
    {
      OverwriteNext(last, head, words, i);
      last := last[|last| - i := words[|words| - i]];
      i := i - 1;
    }
    assert last[..|last|] == last && words[..|words|] == words;
  }

  // ----- The class

  class Preprocessor<V(0, !new), W(!new), S, D> {
    const f: Format<V, W>
    const valueArray: array<V>
    const blockHash: BlockHash<seq<W>, S, D>
    var seen: nat
    /** The values of the message so far. */
    ghost var msg: seq<V>

    ghost predicate Valid()
      reads this, valueArray, blockHash
    {
      blockHash.Valid() && Sound(f, seen, msg, valueArray[..], blockHash.blocks)
    }

    ghost function Fill(): nat
      reads this
      requires f.blockValues > 0
      ensures Fill() < f.blockValues
    {
      Rem(|msg|, f.blockValues)
    }

    /** The digest the standards define for a message. */
    ghost function DigestOf(m: seq<V>): D
      requires ValidFormat(f)
    {
      blockHash.finish(Fold(blockHash.compress, blockHash.iv, PaddedBlocks(f, m)))
    }

    constructor (f: Format<V, W>, compress: (S, seq<W>) -> S, iv: S, finish: S -> D)
      requires ValidFormat(f)
      ensures Valid() && msg == [] && fresh(valueArray) && fresh(blockHash)
      ensures this.f == f && blockHash.compress == compress && blockHash.iv == iv && blockHash.finish == finish
    {
      ValidSizes(f);
      this.f := f;
      valueArray := new V[f.blockValues];
      blockHash := new BlockHash(compress, iv, finish);
      seen := 0;
      msg := [];
      new;
      StartSound(f, valueArray[..]);
    }

    constructor Copy(that: Preprocessor<V, W, S, D>)
      requires that.Valid()
      ensures Valid() && msg == that.msg && fresh(valueArray) && fresh(blockHash)
      ensures f == that.f && blockHash.Same(that.blockHash)
    {
      SoundSizes(that.f, that.seen, that.msg, that.valueArray[..], that.blockHash.blocks);
      f := that.f;
      var values := new V[that.f.blockValues](i requires 0 <= i < that.valueArray.Length
                                              reads that.valueArray => that.valueArray[i]);
      valueArray := values;
      blockHash := new BlockHash.Copy(that.blockHash);
      seen := that.seen;
      msg := that.msg;
      new;
      assert valueArray[..] == that.valueArray[..];
    }

    /** Hands the full buffer to the block hash. */
    method ProcessBlock()
      requires blockHash.Valid()
      modifies this`seen, blockHash
      ensures blockHash.Valid() && blockHash.blocks == old(blockHash.blocks) + [f.pack(valueArray[..])]
      ensures seen == if f.lengthBits == 0 then 0 else old(seen)
    {
      var block := f.pack(valueArray[..]);
      blockHash.Update(block);
      if f.lengthBits == 0 {
        seen := 0;
      }
    }

    method UpdateOne(value: V)
      requires Valid()
      modifies this, valueArray, blockHash
      ensures Valid() && msg == old(msg) + [value]
    {
      hide Sound, Rem, Times, Quot;
      OneSound(f, seen, msg, valueArray[..], blockHash.blocks, value);
      ghost var buffer := valueArray[..];
      var i := Rem(seen, f.BlockBits());
      var j := Quot(i, f.valueBits);
      valueArray[j] := value;
      assert valueArray[..] == buffer[j := value];
      seen := Rem(seen + f.valueBits, f.seenMod);
      msg := msg + [value];
      if i == f.BlockBits() - f.valueBits {
        ProcessBlock();
      }
    }

    /** One turn of the bulk loop: a block packed straight from the input. */
    method UpdateBlock(vs: seq<V>)
      requires Valid() && |vs| == f.blockValues && Fill() == 0
      modifies this, blockHash
      ensures Valid() && msg == old(msg) + vs && Fill() == 0
    {
      hide Sound, Rem, Times;
      BlockSound(f, seen, msg, valueArray[..], blockHash.blocks, vs);
      var block := f.pack(vs);
      blockHash.Update(block);
      seen := Rem(seen + f.BlockBits(), f.seenMod);
      if f.lengthBits == 0 {
        seen := 0;
      }
      msg := msg + vs;
    }

    /** What is known of a valid object without looking into its state. */
    lemma Known()
      requires Valid()
      ensures ValidFormat(f) && Sizes(f) && valueArray.Length == f.blockValues
      ensures seen < f.seenMod && (f.lengthBits > 0 ==> seen == Rem(Times(|msg|, f.valueBits), f.seenMod))
      ensures Rem(seen, f.BlockBits()) == 0 <==> Fill() == 0
      ensures blockHash.blocks == Blocks(f, msg)
    {
      hide Sound, Rem, Times, ValidFormat, Blocks;
      SoundSizes(f, seen, msg, valueArray[..], blockHash.blocks);
    }

    /** The random access path: values up to a block boundary, whole blocks straight from
        the input, and the rest. */
    method UpdateN(p: seq<V>)
      requires Valid()
      modifies this, valueArray, blockHash
      ensures Valid() && msg == old(msg) + p
    {
      hide Sound, Valid, Fill, ValidFormat, Rem, Times;
      Known();
      var i := 0;
      while i < |p| && Rem(seen, f.BlockBits()) != 0
        invariant 0 <= i <= |p| && Valid() && msg == old(msg) + p[..i]
      {
        TakeOne(old(msg), p, i);
        UpdateOne(p[i]);
        i := i + 1;
      }
      Known();
      while |p| - i >= f.blockValues
        invariant 0 <= i <= |p| && Valid() && msg == old(msg) + p[..i]
        invariant i < |p| ==> Fill() == 0
      {
        TakeMore(old(msg), p, i, i + f.blockValues);
        UpdateBlock(p[i..i + f.blockValues]);
        i := i + f.blockValues;
      }
      while i < |p|
        invariant 0 <= i <= |p| && Valid() && msg == old(msg) + p[..i]
      {
        TakeOne(old(msg), p, i);
        UpdateOne(p[i]);
        i := i + 1;
      }
      assert p[..i] == p;
    }

    /** The path for other iterators. */
    method Update(p: seq<V>)
      requires Valid()
      modifies this, valueArray, blockHash
      ensures Valid() && msg == old(msg) + p
    {
      hide Sound, Valid;
      var i := 0;
      while i < |p|
        invariant 0 <= i <= |p| && Valid() && msg == old(msg) + p[..i]
      {
        TakeOne(old(msg), p, i);
        UpdateOne(p[i]);
        i := i + 1;
      }
      assert p[..i] == p;
    }

    /** Sends the values left over and the length as the last block. */
    method AppendLength(length: nat)
      requires Valid() && Fill() == f.LastValues()
      modifies blockHash
      ensures blockHash.Valid()
      ensures blockHash.blocks == if f.lengthBits == 0 then old(blockHash.blocks)
        else old(blockHash.blocks) + [LastBlock(f, msg[|msg| - Fill()..], length)]
    {
      hide Sound, LastBlock, Rem, Times;
      if f.lengthBits > 0 {
        LastSound(f, seen, msg, valueArray[..], blockHash.blocks, length);
        var block := f.pack(valueArray[..]);
        var words := f.lengthField(length);
        block := Overwrite(block, words);
        blockHash.Update(block);
      }
    }

    /** The loop test of end_message, for a message m that is padded but for some zeros. */
    lemma Stops(m: seq<V>, z: nat)
      requires Valid() && |msg| == |m| + 1 + z && z <= f.ZeroValues(|m|)
      ensures Sizes(f)
      ensures Rem(Rem(seen + f.lengthBits, f.seenMod), f.BlockBits()) == 0 <==> z == f.ZeroValues(|m|)
      ensures Fill() == f.LastValues() <==> z == f.ZeroValues(|m|)
    {
      hide Sound, Rem, Times, Sizes;
      PadSound(f, seen, m, msg, valueArray[..], blockHash.blocks, z);
    }

    /** The pad value and the zeros of end_message. */
    method Pad()
      requires Valid()
      modifies this, valueArray, blockHash
      ensures Valid() && msg == Padded(f, old(msg)) && Fill() == f.LastValues()
    {
      hide Sound, Valid, Fill, Rem, Times, Format.ZeroValues, Format.LastValues, Repeat;
      ghost var m, z := msg, 0;
      UpdateOne(f.pad);
      NoRepeats(m + [f.pad], f.zero);
      Stops(m, z);
      while Rem(Rem(seen + f.lengthBits, f.seenMod), f.BlockBits()) != 0
        invariant Valid() && z <= f.ZeroValues(|m|) && msg == m + [f.pad] + Repeat(z, f.zero)
        invariant Rem(Rem(seen + f.lengthBits, f.seenMod), f.BlockBits()) == 0 <==> z == f.ZeroValues(|m|)
        invariant Fill() == f.LastValues() <==> z == f.ZeroValues(|m|)
        decreases f.ZeroValues(|m|) - z
      {
        UpdateOne(f.zero);
        RepeatMore(m + [f.pad], z, f.zero);
        z := z + 1;
        Stops(m, z);
      }
    }

    /** Pads, sends the last block, and gets ready for the next message. */
    method EndMessage() returns (d: D)
      requires Valid()
      modifies this, valueArray, blockHash
      ensures d == DigestOf(old(msg))
      ensures Valid() && msg == []
    {
      hide Sound, Blocks, LastBlock, Padded, ValidFormat, Rem, Times, Format.LastValues;
      Known();
      var length := seen;
      Pad();
      Known();
      AppendLength(length);
      assert blockHash.blocks == PaddedBlocks(f, old(msg));
      seen := 0;
      msg := [];
      StartSound(f, valueArray[..]);
      d := blockHash.EndMessage();
    }

    /** Works on a copy: the message in progress is left as it is. */
    method Digest() returns (d: D)
      requires Valid()
      ensures d == DigestOf(msg)
    {
      var copy := new Preprocessor.Copy(this);
      d := copy.EndMessage();
    }

    method Reset()
      requires ValidFormat(f) && Sizes(f) && valueArray.Length == f.blockValues
      modifies this, blockHash
      ensures Valid() && msg == []
    {
      hide Sound;
      seen := 0;
      blockHash.Reset();
      msg := [];
      StartSound(f, valueArray[..]);
    }
  }
}
