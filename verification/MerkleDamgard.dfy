/** merkle_damgard_block_hash.hpp: a block hash built from a compressor.

    The compressor, the initial value and the finalizer are parameters; nothing here
    depends on what they compute.
  */
module MerkleDamgard {

  /** The Merkle-Damgard iteration. */
  function Fold<B, S>(compress: (S, B) -> S, iv: S, blocks: seq<B>): S {
    if blocks == [] then iv
    else compress(Fold(compress, iv, blocks[..|blocks| - 1]), blocks[|blocks| - 1])
  }

  class BlockHash<B, S, D> {
    const compress: (S, B) -> S
    const iv: S
    const finish: S -> D
    var state: S
    /** The blocks handed over since the last reset. */
    ghost var blocks: seq<B>

    ghost predicate Valid()
      reads this
    {
      state == Fold(compress, iv, blocks)
    }

    ghost predicate Same(that: BlockHash<B, S, D>) {
      compress == that.compress && iv == that.iv && finish == that.finish
    }

    constructor (compress: (S, B) -> S, iv: S, finish: S -> D)
      ensures Valid() && blocks == []
      ensures this.compress == compress && this.iv == iv && this.finish == finish
    {
      this.compress, this.iv, this.finish := compress, iv, finish;
      state := iv;
      blocks := [];
    }

    constructor Copy(that: BlockHash<B, S, D>)
      requires that.Valid()
      ensures Valid() && Same(that) && blocks == that.blocks
    {
      compress, iv, finish := that.compress, that.iv, that.finish;
      state := that.state;
      blocks := that.blocks;
    }

    method Update(block: B)
      requires Valid()
      modifies this
      ensures Valid() && blocks == old(blocks) + [block]
    {
      state := compress(state, block);
      blocks := blocks + [block];
    }

    method EndMessage() returns (d: D)
      requires Valid()
      modifies this
      ensures d == finish(Fold(compress, iv, old(blocks)))
      ensures Valid() && blocks == []
    {
      d := finish(state);
      Reset();
    }

    /** Works on a copy: the running hash is left as it is. */
    method Digest() returns (d: D)
      requires Valid()
      ensures d == finish(Fold(compress, iv, blocks))
    {
      var copy := new BlockHash.Copy(this);
      d := copy.EndMessage();
    }

    method Reset()
      modifies this
      ensures Valid() && blocks == []
    {
      state := iv;
      blocks := [];
    }
  }
}
