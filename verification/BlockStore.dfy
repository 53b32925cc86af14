/** Blocks, the stored block tree and its chains.

    As with transactions, a block hash is modelled as an ideal hash: it is the header it
    commits to, that is, the previous block and the transactions of the block. */
module BlockStore {
  import opened Wrappers
  import opened Bitcoin
  import opened WalletStore
  import opened Ledger
  import Merkle

  const BLOCK_UNKNOWN_HEIGHT: nat := 0x7FFF_FFFF
  const BLOCK_DIFFICULTY_INTERVAL: nat := 2016

  datatype BlockId =
    | NoBlock  // the zero hash
    | BlockId(prev: BlockId, txs: seq<TxId>, nonce: nat)

  /** `matched` holds the transactions the partial Merkle tree of the block claims included.
      A checkpoint has no previous block on record. */
  datatype Block = Block(
    id: BlockId, prevBlock: BlockId, height: nat, timestamp: nat, totalTx: nat, matched: seq<TxId>)

  type Blocks = map<BlockId, Block>

  /** The number of blocks below the block. */
  function Depth(id: BlockId): nat {
    if id.NoBlock? || id.prev.NoBlock? then 0 else Depth(id.prev) + 1
  }

  /** What the header of a block says. */
  predicate Sound(b: Block) {
    && b.id.BlockId? && (b.prevBlock == b.id.prev || b.prevBlock == NoBlock)
    && Depth(b.id) < BLOCK_UNKNOWN_HEIGHT
  }

  /** Which transactions count as included in which block: those it contains, or those that
      some peer claimed for it. */
  type Contents = (BlockId, TxId) -> bool

  const CONTAINED: Contents := (id: BlockId, t: TxId) => id.BlockId? && t in id.txs

  predicate Backed(holds: Contents, b: Block) {
    forall t :: t in b.matched ==> holds(b.id, t)
  }

  predicate AllBacked(holds: Contents, blocks: Blocks) {
    forall id :: id in blocks ==> Backed(holds, blocks[id])
  }

  /** The stored blocks, indexed by hash, have consistent heights. */
  predicate StoreOk(blocks: Blocks) {
    && NoBlock !in blocks
    && forall id :: id in blocks ==> blocks[id].id == id && Sound(blocks[id]) && blocks[id].height == Depth(id)
  }

  /** The block at height `h` on the chain that ends in `id`, as far down as it is stored. */
  function At(blocks: Blocks, id: BlockId, h: nat): (r: Option<BlockId>)
    requires StoreOk(blocks)
    ensures r.Some? ==> r.value in blocks && Depth(r.value) == h
    decreases id
  {
    if id !in blocks || Depth(id) < h then None
    else if Depth(id) == h then Some(id)
    else if blocks[id].prevBlock !in blocks then None
    else At(blocks, blocks[id].prevBlock, h)
  }

  /** `t` is in the block at height `h` of the chain ending in `tip`. */
  predicate Included(holds: Contents, blocks: Blocks, tip: BlockId, h: nat, t: TxId)
    requires StoreOk(blocks)
  {
    At(blocks, tip, h).Some? && holds(At(blocks, tip, h).value, t)
  }

  /** Every listed transaction with a confirmed height is in the block of the chain ending in
      `tip` at that height. */
  predicate AllIncluded(holds: Contents, blocks: Blocks, tip: BlockId, all: map<TxId, Tx>, txs: seq<TxBody>)
    requires StoreOk(blocks)
  {
    && Known(all, txs)
    && forall b :: b in txs && HeightOf(all, b) < TX_UNCONFIRMED ==> Included(holds, blocks, tip, HeightOf(all, b), Id(b))
  }

  function Parent(blocks: Blocks, b: Block): Option<Block> {
    if b.prevBlock in blocks then Some(blocks[b.prevBlock]) else None
  }

  lemma {:induction false} ParentIsBelow(blocks: Blocks, b: Block)
    requires StoreOk(blocks) && b.id in blocks && blocks[b.id] == b
    ensures Parent(blocks, b).Some? ==>
              var p := Parent(blocks, b).value;
              b.height == p.height + 1 && p.id == b.prevBlock == b.id.prev && p.id in blocks && blocks[p.id] == p
    ensures forall h: nat :: h < b.height ==> At(blocks, b.id, h) == At(blocks, b.prevBlock, h)
  {
  }

  /** `after` stores all blocks of `before`, possibly with newly known parents. */
  predicate Extends(before: Blocks, after: Blocks) {
    forall id :: id in before ==>
      && id in after
      && (after[id].prevBlock == before[id].prevBlock || before[id].prevBlock == NoBlock)
  }

  lemma {:induction false} ChainsSurvive(before: Blocks, after: Blocks, id: BlockId, h: nat)
    requires StoreOk(before) && StoreOk(after) && Extends(before, after)
    ensures At(before, id, h).Some? ==> At(after, id, h) == At(before, id, h)
    decreases id
  {
    if id in before && Depth(id) > h && before[id].prevBlock in before {
      ChainsSurvive(before, after, before[id].prevBlock, h);
    }
  }

  lemma {:induction false} StoringExtends(blocks: Blocks, b: Block)
    requires StoreOk(blocks) && Sound(b) && b.height == Depth(b.id) && b.prevBlock == b.id.prev
    ensures StoreOk(blocks[b.id := b]) && Extends(blocks, blocks[b.id := b])
  {
  }

  /** A chain's blocks at or below one of its blocks are that block's chain. */
  lemma {:induction false} AtComposes(blocks: Blocks, id: BlockId, h: nat, low: nat)
    requires StoreOk(blocks) && low <= h && At(blocks, id, h).Some?
    ensures At(blocks, id, low) == At(blocks, At(blocks, id, h).value, low)
    decreases id
  {
    if Depth(id) > h {
      AtComposes(blocks, blocks[id].prevBlock, h, low);
    }
  }

  /** The two chains have no common block above height `h`. */
  ghost predicate PartedAbove(blocks: Blocks, a: BlockId, b: BlockId, h: int)
    requires StoreOk(blocks)
  {
    forall k: nat :: k > h && At(blocks, a, k).Some? ==> At(blocks, a, k) != At(blocks, b, k)
  }

  /** The height a transaction ends up with when the blocks from `id` down to above `floor`
      are gone through, each giving its height to the transactions it matches. */
  function BranchHeight(blocks: Blocks, id: BlockId, floor: nat, t: TxId, h: nat): nat
    requires StoreOk(blocks)
    decreases id
  {
    if id !in blocks || Depth(id) <= floor then h
    else
      var found := if t in blocks[id].matched then Depth(id) else h;
      if blocks[id].prevBlock !in blocks then found
      else BranchHeight(blocks, blocks[id].prevBlock, floor, t, found)
  }

  /** The block at height `k` of the chain matches the transaction. */
  predicate MatchedAt(blocks: Blocks, tip: BlockId, k: nat, t: TxId)
    requires StoreOk(blocks)
  {
    At(blocks, tip, k).Some? && t in blocks[At(blocks, tip, k).value].matched
  }

  /** The height is that of the lowest block above the floor that matches the transaction, and
      stays if there is none. */
  lemma {:induction false} BranchHeightIs(blocks: Blocks, id: BlockId, floor: nat, t: TxId, h: nat)
    requires StoreOk(blocks)
    ensures var r := BranchHeight(blocks, id, floor, t, h);
            if forall k: nat :: k > floor ==> !MatchedAt(blocks, id, k, t) then r == h
            else r > floor && MatchedAt(blocks, id, r, t) && forall k: nat :: floor < k < r ==> !MatchedAt(blocks, id, k, t)
    decreases id
  {
    if id in blocks && Depth(id) > floor {
      var found, below := if t in blocks[id].matched then Depth(id) else h, blocks[id].prevBlock;
      assert At(blocks, id, Depth(id)) == Some(id);
      assert forall k: nat :: k < Depth(id) ==> At(blocks, id, k) == At(blocks, below, k);
      assert forall k: nat :: k > Depth(id) ==> At(blocks, id, k).None?;
      if below in blocks {
        assert forall k: nat :: k >= Depth(id) ==> At(blocks, below, k).None?;
        BranchHeightIs(blocks, below, floor, t, found);
      }
      hide At;
      assert MatchedAt(blocks, id, Depth(id), t) <==> t in blocks[id].matched;
      assert forall k: nat :: k != Depth(id) ==> (MatchedAt(blocks, id, k, t) <==> MatchedAt(blocks, below, k, t));
    }
  }

  // ---- Steps of the main chain ----

  /** Setting heights from a block of the chain keeps every confirmed transaction included
      exactly when the listed transactions that the block matches are included in it. */
  lemma {:induction false} ConfirmingKeepsIncluded(holds: Contents, blocks: Blocks, tip: BlockId, b: Block,
                                all: map<TxId, Tx>, after: map<TxId, Tx>, txs: seq<TxBody>, resorted: seq<TxBody>)
    requires StoreOk(blocks) && Sound(b) && At(blocks, tip, b.height) == Some(b.id) && b.height < TX_UNCONFIRMED
    requires AllIncluded(holds, blocks, tip, all, txs) && multiset(txs) == multiset(resorted)
    requires HeightsSet(all, after, resorted, IdsOf(b.matched), b.height)
    ensures AllIncluded(holds, blocks, tip, after, resorted) <==>
              forall x :: x in txs && Id(x) in b.matched ==> holds(b.id, Id(x))
    ensures Backed(holds, b) ==> AllIncluded(holds, blocks, tip, after, resorted)
  {
    hide Sound;
    SameMembers(txs, resorted);
    forall x | x in txs
      ensures x in resorted
      ensures Included(holds, blocks, tip, b.height, Id(x)) <==> holds(b.id, Id(x))
      ensures Id(x) in IdsOf(b.matched) <==> Id(x) in b.matched
    {
    }
  }

  /** More stored blocks, or a longer chain on the same tip, lose nothing. */
  lemma {:induction false} ExtendingKeepsIncluded(holds: Contents, before: Blocks, after: Blocks, tip: BlockId, top: BlockId,
                               all: map<TxId, Tx>, txs: seq<TxBody>)
    requires StoreOk(before) && StoreOk(after) && Extends(before, after)
    requires AllIncluded(holds, before, tip, all, txs)
    requires tip in before && (top == tip || (top in after && after[top].prevBlock == tip))
    ensures AllIncluded(holds, after, top, all, txs)
  {
    forall b | b in txs && HeightOf(all, b) < TX_UNCONFIRMED
      ensures Included(holds, after, top, HeightOf(all, b), Id(b))
    {
      var h := HeightOf(all, b);
      ChainsSurvive(before, after, tip, h);
      assert Included(holds, before, tip, h, Id(b));
      if top != tip {
        assert tip in after && top.prev == tip && Depth(top) == Depth(tip) + 1;
        assert At(after, top, h) == At(after, tip, h);
      }
    }
  }

  /** Either both chains have the same block at the floor, or the old one starts above it. */
  ghost predicate ForkAt(blocks: Blocks, tip: BlockId, top: BlockId, floor: nat)
    requires StoreOk(blocks)
  {
    if At(blocks, tip, floor).Some? then At(blocks, top, floor) == At(blocks, tip, floor)
    else forall h: nat :: h <= floor ==> At(blocks, tip, h) == None
  }

  lemma {:induction false} SharedBelowFork(blocks: Blocks, tip: BlockId, top: BlockId, floor: nat, h: nat)
    requires StoreOk(blocks) && ForkAt(blocks, tip, top, floor)
    requires h <= floor && At(blocks, tip, h).Some?
    ensures At(blocks, top, h) == At(blocks, tip, h)
  {
    AtComposes(blocks, tip, floor, h);
    AtComposes(blocks, top, floor, h);
  }

  /** After everything above the fork is unconfirmed, what is left confirmed is on both chains. */
  lemma {:induction false} UnconfirmingKeepsIncluded(holds: Contents, blocks: Blocks, tip: BlockId, top: BlockId, floor: nat,
                                  all: map<TxId, Tx>, after: map<TxId, Tx>, txs: seq<TxBody>)
    requires StoreOk(blocks) && AllIncluded(holds, blocks, tip, all, txs)
    requires UnconfirmedAfter(all, after, txs, floor) && floor < TX_UNCONFIRMED
    requires ForkAt(blocks, tip, top, floor)
    ensures AllIncluded(holds, blocks, top, after, txs)
  {
    forall b | b in txs && HeightOf(after, b) < TX_UNCONFIRMED
      ensures Included(holds, blocks, top, HeightOf(after, b), Id(b))
    {
      assert Included(holds, blocks, tip, HeightOf(all, b), Id(b));
      SharedBelowFork(blocks, tip, top, floor, HeightOf(all, b));
    }
  }

  // ---- What a partial Merkle tree proves ----

  /** The hashes of the transactions. */
  function Hashes(leaf: TxId -> Merkle.Hash, ids: seq<TxId>): (s: seq<Merkle.Hash>)
    ensures |s| == |ids|
  {
    seq(|ids|, k requires 0 <= k < |ids| => leaf(ids[k]))
  }

  /** The block came with `mb`, which has the right number of transactions and root, no zero
      hash, and does not make the root walk give up. */
  predicate Proves(leaf: TxId -> Merkle.Hash, mb: Merkle.MerkleBlock, b: Block) {
    && b.id.BlockId? && b.id.txs != [] && mb.Valid() && mb.totalTx == |b.id.txs| && Merkle.Zero !in mb.hashes
    && var k := Merkle.CeilLog2(mb.totalTx);
      && Merkle.RootWalk(mb, 0, 0, k).0 == Merkle.MerkleRoot(Hashes(leaf, b.id.txs))
      && Merkle.RootWalk(mb, 0, 0, k).1 != Merkle.SIZE_MAX
      && Merkle.TxWalk(mb, 0, 0, k).0 == Hashes(leaf, b.matched)
  }

  /** Then what it matches is in the block. */
  lemma {:induction false} ProvenIsBacked(leaf: TxId -> Merkle.Hash, mb: Merkle.MerkleBlock, b: Block)
    requires Proves(leaf, mb, b) && forall s, t :: leaf(s) == leaf(t) ==> s == t
    ensures Backed(CONTAINED, b)
  {
    Merkle.MatchesAreInBlock(mb, Hashes(leaf, b.id.txs));
    forall t | t in b.matched
      ensures t in b.id.txs
    {
      var i :| 0 <= i < |b.matched| && b.matched[i] == t;
      assert Hashes(leaf, b.matched)[i] in Hashes(leaf, b.id.txs);
    }
  }
}
