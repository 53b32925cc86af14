/** The SPV chain tracker of BRPeerManager.c: the stored blocks, the orphans and the tip of
    the main chain, and the step it takes for each relayed block, which drives the wallet. */
module ChainTracker {
  import opened Wrappers
  import opened Bitcoin
  import opened Ledger
  import opened WalletStore
  import opened BlockStore
  import opened SavedBlocks
  import opened ChainState

  /** An unconfirmed transaction may join the list at any time. */
  lemma {:induction false} RegisteringKeepsIncluded(holds: Contents, blocks: Blocks, tip: BlockId, all: map<TxId, Tx>, txs: seq<TxBody>,
                                 after: map<TxId, Tx>, listed: seq<TxBody>, tx: Tx)
    requires StoreOk(blocks) && AllIncluded(holds, blocks, tip, all, txs) && Known(after, listed)
    requires tx.blockHeight == TX_UNCONFIRMED
    requires after == all || (tx.Hash() !in all && after == all[tx.Hash() := tx])
    requires multiset(listed) == multiset(txs)
             || (after != all && multiset(listed) == multiset(txs) + multiset{tx.body})
    ensures AllIncluded(holds, blocks, tip, after, listed)
  {
    forall b | b in listed && HeightOf(after, b) < TX_UNCONFIRMED
      ensures Included(holds, blocks, tip, HeightOf(after, b), Id(b))
    {
      assert b in multiset(listed);
      assert b in multiset(txs) || b == tx.body;
      assert b in txs;
    }
  }

  lemma {:induction false} OneMoreListed(txs: seq<TxBody>, listed: seq<TxBody>, b: TxBody)
    requires multiset(listed) == multiset(txs) || multiset(listed) == multiset(txs) + multiset{b}
    ensures forall x :: x in listed ==> x in txs || x == b
  {
    forall x | x in listed
      ensures x in txs || x == b
    {
      assert x in multiset(listed);
    }
  }

  /** `b` is a stored block of the chain ending in `tip`, which is its chain from there down. */
  lemma {:induction false} FoundAtItsHeight(blocks: Blocks, id: BlockId)
    requires StoreOk(blocks) && id in blocks
    ensures At(blocks, id, blocks[id].height) == Some(id)
  {
  }

  ghost predicate OnChain(blocks: Blocks, tip: BlockId, b: Block)
    requires StoreOk(blocks)
  {
    && b.id in blocks && blocks[b.id] == b
    && forall h: nat :: h <= b.height ==> At(blocks, tip, h) == At(blocks, b.id, h)
  }

  lemma {:induction false} ParentOnChain(blocks: Blocks, tip: BlockId, b: Block)
    requires StoreOk(blocks) && OnChain(blocks, tip, b)
    ensures var p := Parent(blocks, b);
            if p.Some? then OnChain(blocks, tip, p.value) && p.value.height + 1 == b.height
            else forall h: nat :: h < b.height ==> At(blocks, tip, h) == None
  {
    ParentIsBelow(blocks, b);
  }

  lemma {:induction false} NoJoinHere(blocks: Blocks, last: Block, b: Block, b2: Block)
    requires StoreOk(blocks) && b.id in blocks && blocks[b.id] == b && OnChain(blocks, last.id, b2)
    requires last.id in blocks && blocks[last.id] == last
    requires b.id != b2.id && b.height >= b2.height && (b2 == last || b.height == b2.height)
    ensures Join(blocks, last.id, b.id) == if Parent(blocks, b).Some? then Join(blocks, last.id, Parent(blocks, b).value.id) else None
  {
    FoundAtItsHeight(blocks, b2.id);
    assert At(blocks, last.id, b2.height) == Some(b2.id);
  }

  lemma {:induction false} JoinHere(blocks: Blocks, last: Block, b: Block, b2: Option<Block>)
    requires StoreOk(blocks) && b.id in blocks && blocks[b.id] == b
    requires b2.Some? ==> OnChain(blocks, last.id, b2.value) && b2.value.id == b.id
    requires b2.None? ==> forall h: nat :: h <= b.height ==> At(blocks, last.id, h) == None
    ensures Join(blocks, last.id, b.id) == Some(b.height)
    ensures b2.Some? <==> At(blocks, last.id, b.height).Some?
  {
    FoundAtItsHeight(blocks, b.id);
  }

  lemma {:induction false} NoIds(hashes: seq<TxId>)
    ensures |hashes| == 0 ==> IdsOf(hashes) == {}
  {
  }

  /** The checkpoints as they are stored. */
  function Filed(points: seq<Block>): Blocks {
    if points == [] then map[] else Filed(points[..|points| - 1])[points[|points| - 1].id := points[|points| - 1]]
  }

  /** The last checkpoint that is old enough for the wallet, or the first one. */
  function StartingPoint(points: seq<Block>, earliestKeyTime: nat): Block
    requires points != []
    decreases |points|
  {
    var b := points[|points| - 1];
    if |points| == 1 || b.timestamp + HALF_WEEK < earliestKeyTime then b
    else StartingPoint(points[..|points| - 1], earliestKeyTime)
  }

  /** The start is the last checkpoint from half a week before the wallet or earlier, and the
      first one if there is none. */
  lemma {:induction false} StartingPointIs(points: seq<Block>, earliestKeyTime: nat) returns (i: nat)
    requires points != []
    ensures i < |points| && points[i] == StartingPoint(points, earliestKeyTime)
    ensures i == 0 || points[i].timestamp + 302400 < earliestKeyTime
    ensures forall j :: i < j < |points| ==> points[j].timestamp + 302400 >= earliestKeyTime
    decreases |points|
  {
    i := |points| - 1;
    if i > 0 && points[i].timestamp + HALF_WEEK >= earliestKeyTime {
      i := StartingPointIs(points[..i], earliestKeyTime);
    }
  }

  predicate AreCheckpoints(points: seq<Block>) {
    && points != [] && (forall i, j :: 0 <= i < j < |points| ==> points[i].id != points[j].id)
    && forall b :: b in points ==> Sound(b) && b.prevBlock == NoBlock && b.height == Depth(b.id)
  }

  /** The checkpoints indexed by height. */
  function ByHeight(points: seq<Block>): map<nat, BlockId> {
    if points == [] then map[] else ByHeight(points[..|points| - 1])[points[|points| - 1].height := points[|points| - 1].id]
  }

  lemma {:induction false} FiledIsOk(points: seq<Block>, earliestKeyTime: nat)
    requires AreCheckpoints(points)
    ensures StoreOk(Filed(points)) && forall b :: b in points ==> b.id in Filed(points) && Filed(points)[b.id] == b
    ensures StartingPoint(points, earliestKeyTime) in points
    decreases |points|
  {
    var n := |points| - 1;
    if n > 0 {
      FiledIsOk(points[..n], earliestKeyTime);
      assert forall b :: b in points ==> b in points[..n] || b == points[n];
    }
    StoringKeepsOk(Filed(points[..n]), points[n]);
  }

  /** With one checkpoint a height, each is found at its height, and the store starts with no
      other block there. */
  lemma {:induction false} StartIsCheckpointed(points: seq<Block>, rules: Rules)
    requires AreCheckpoints(points) && rules.checkpoints == ByHeight(points)
    requires forall i, j :: 0 <= i < j < |points| ==> points[i].height != points[j].height
    ensures Checkpointed(rules, Filed(points))
    ensures forall b :: b in points ==> b.height in rules.checkpoints && rules.checkpoints[b.height] == b.id
    ensures forall h :: h in rules.checkpoints ==> exists b :: b in points && b.height == h
  {
    FiledAre(points);
    forall id | id in Filed(points)
      ensures Depth(id) in rules.checkpoints && rules.checkpoints[Depth(id)] == id
    {
      assert Filed(points)[id] in points;
    }
  }

  lemma {:induction false} FiledAre(points: seq<Block>)
    requires AreCheckpoints(points) || points == []
    requires forall i, j :: 0 <= i < j < |points| ==> points[i].height != points[j].height
    ensures forall id :: id in Filed(points) ==> Filed(points)[id] in points && Filed(points)[id].id == id
    ensures forall b :: b in points ==> b.height in ByHeight(points) && ByHeight(points)[b.height] == b.id
    ensures forall h :: h in ByHeight(points) ==> exists b :: b in points && b.height == h
  {
    if points != [] {
      var n := |points| - 1;
      FiledAre(points[..n]);
      assert points == points[..n] + [points[n]];
      forall b | b in points[..n]
        ensures b.height != points[n].height
      {
      }
    }
  }

  /** Stores the checkpoints and picks the block to start from. */
  method FilePoints(points: seq<Block>, earliestKeyTime: nat)
    returns (store: Blocks, heights: map<nat, BlockId>, last: Block)
    requires AreCheckpoints(points)
    ensures store == Filed(points) && heights == ByHeight(points) && last == StartingPoint(points, earliestKeyTime)
  {
    store, heights, last := map[], map[], points[0];
    hide AreCheckpoints;
    var i := 0;
    while i < |points|
      invariant 0 <= i <= |points|
      invariant store == Filed(points[..i]) && heights == ByHeight(points[..i])
      invariant i > 0 ==> last == StartingPoint(points[..i], earliestKeyTime)
    {
      var b := points[i];
      assert points[..i + 1][..i] == points[..i];
      heights := heights[b.height := b.id];
      store := store[b.id := b];
      if i == 0 || b.timestamp + HALF_WEEK < earliestKeyTime { last := b; }
      i := i + 1;
    }
    assert points[..i] == points;
  }

  class Tracker {
    var blocks: Blocks
    var orphans: Blocks
    var lastBlock: Block
    var lastOrphan: Option<Block>
    var estimatedHeight: nat
    const rules: Rules
    const wallet: Wallet
    ghost const holds: Contents

    /** Sets up the tracker from the checkpoints and the saved blocks. */
    constructor (wallet: Wallet, points: seq<Block>, saved: seq<Block>, earliestKeyTime: nat,
                 difficultyOk: BlockId -> bool, ghost holds: Contents, ghost slice: seq<Block>)
      requires AreCheckpoints(points) && forall b :: b in saved ==> Saved(b)
      ensures StoreValid() && this.wallet == wallet && this.holds == holds
      ensures rules == Rules(ByHeight(points), points[|points| - 1].height, earliestKeyTime, difficultyOk)
      ensures saved == [] ==>
                View() == Chain(Filed(points), map[], StartingPoint(points, earliestKeyTime), None, 0)
      ensures GivenBack(slice, saved) ==>
                lastBlock == slice[0] && exists from: nat :: Rebuilt(blocks, slice, from)
    {
      var store, heights, last := FilePoints(points, earliestKeyTime);
      FiledIsOk(points, earliestKeyTime);
      hide Rebuilt;
      hide GivenBack;
      hide Saved;
      ghost var from;
      var rebuilt, waiting, tip;
      rebuilt, waiting, tip, from := Restore(store, last, saved, slice);
      assert GivenBack(slice, saved) ==> Rebuilt(rebuilt, slice, from);
      blocks, orphans, lastBlock, lastOrphan, estimatedHeight := rebuilt, waiting, tip, None, 0;
      rules := Rules(heights, points[|points| - 1].height, earliestKeyTime, difficultyOk);
      this.wallet, this.holds := wallet, holds;
    }

    function View(): Chain
      reads this
    {
      Chain(blocks, orphans, lastBlock, lastOrphan, estimatedHeight)
    }

    ghost predicate StoreValid()
      reads this
    {
      ChainOk(View())
    }

    /** Besides the store being in order, each wallet transaction with a confirmed height is
        included in the block of the main chain at that height. */
    ghost predicate Valid()
      reads this, wallet
    {
      && StoreValid() && wallet.Valid() && AllBacked(holds, blocks) && AllBacked(holds, orphans)
      && AllIncluded(holds, blocks, lastBlock.id, wallet.allTx, wallet.transactions)
    }

    /** The wallet lists the same transactions, if in another order. */
    twostate predicate ListStays()
      reads wallet
    {
      && multiset(wallet.transactions) == multiset(old(wallet.transactions))
      && Known(old(wallet.allTx), wallet.transactions) && Known(wallet.allTx, wallet.transactions)
    }

    /** The height of a listed transaction before the step. */
    twostate function HeightBefore(b: TxBody): nat
      requires Known(old(wallet.allTx), wallet.transactions) && b in wallet.transactions
      reads wallet
    {
      HeightOf(old(wallet.allTx), b)
    }

    /** A block that extends the main chain. */
    method ExtendChain(block: Block, txTime: nat, now: nat)
      requires Valid() && Attaches(blocks, block) && block.prevBlock == lastBlock.id && Backed(holds, block)
      modifies this`blocks, this`lastBlock, wallet
      ensures Valid() && lastBlock == block && blocks == old(blocks)[block.id := block]
      ensures ListStays() && forall x :: x in wallet.transactions ==>
                HeightOf(wallet.allTx, x) == if Id(x) in block.matched then block.height else HeightBefore(x)
      ensures wallet.allTx == AllSet(old(wallet.allTx), wallet.allPKH, IdsOf(block.matched), block.height, txTime)
      ensures wallet.allPKH == old(wallet.allPKH)
    {
      ghost var before, tip := blocks, lastBlock.id;
      ghost var all, txs := wallet.allTx, wallet.transactions;
      StoringExtends(blocks, block);
      blocks := blocks[block.id := block];
      lastBlock := block;
      ExtendingKeepsIncluded(holds, before, blocks, tip, block.id, all, txs);
      ConfirmMatched(block, txTime, now);
    }

    /** Gives the matched transactions of a main chain block its height. */
    method ConfirmMatched(block: Block, txTime: nat, now: nat)
      requires Valid() && Saved(block) && At(blocks, lastBlock.id, block.height) == Some(block.id) && Backed(holds, block)
      modifies wallet
      ensures Valid()
      ensures ListStays() && forall x :: x in wallet.transactions ==>
                HeightOf(wallet.allTx, x) == if Id(x) in block.matched then block.height else HeightBefore(x)
      ensures wallet.allTx == AllSet(old(wallet.allTx), wallet.allPKH, IdsOf(block.matched), block.height, txTime)
      ensures wallet.allPKH == old(wallet.allPKH)
    {
      SetNone(wallet.allTx, wallet.allPKH, block.height, txTime);
      NoIds(block.matched);
      hide AllSet;
      hide AllIncluded;
      hide At;
      hide KeepsOrder;
      hide SameView;
      ghost var all, txs := wallet.allTx, wallet.transactions;
      ListIsKnown(all, wallet.allPKH, txs);
      if |block.matched| > 0 {
        var updated := wallet.UpdateTransactions(block.matched, block.height, txTime, now);
        ConfirmingKeepsIncluded(holds, blocks, lastBlock.id, block, all, wallet.allTx, txs, wallet.transactions);
      }
    }

    /** Walks down the main chain to the given height. */
    method FindAtHeight(height: nat) returns (b: Option<Block>)
      requires StoreValid()
      ensures b.Some? <==> Reaches(blocks, lastBlock.id, height)
      ensures b.Some? ==> OnChain(blocks, lastBlock.id, b.value) && b.value.height <= height
      ensures At(blocks, lastBlock.id, height).Some? <==> b.Some? && b.value.height == height
    {
      b := Some(lastBlock);
      while b.Some? && b.value.height > height
        invariant b.Some? ==> OnChain(blocks, lastBlock.id, b.value)
        invariant b.None? ==> !Reaches(blocks, lastBlock.id, height) && At(blocks, lastBlock.id, height) == None
        invariant b.Some? && b.value.height < height ==> b.value == lastBlock
        decreases if b.Some? then b.value.height + 1 else 0
      {
        ParentOnChain(blocks, lastBlock.id, b.value);
        b := Parent(blocks, b.value);
      }
      if b.Some? {
        FoundAtItsHeight(blocks, b.value.id);
        assert At(blocks, lastBlock.id, b.value.height).Some?;
      }
    }

    /** A block already stored: if it is on the main chain, its transactions get its height.
        `ok` is false when the walk down the main chain runs out of stored blocks. */
    method RefreshBlock(block: Block, txTime: nat, now: nat) returns (ok: bool)
      requires Valid() && Attaches(blocks, block) && block.id in blocks && Backed(holds, block)
      modifies this`blocks, this`lastBlock, this`orphans, this`lastOrphan, wallet
      ensures ok <==> Reaches(old(blocks), old(lastBlock).id, block.height)
      ensures ok ==> Valid() && View() == Refreshed(old(View()), block)
      ensures ok ==> ListStays() && forall x :: x in wallet.transactions ==>
                HeightOf(wallet.allTx, x) ==
                  if OnMainChain(old(View()), block) && Id(x) in block.matched then block.height else HeightBefore(x)
      ensures ok ==> wallet.allTx == if OnMainChain(old(View()), block)
                then AllSet(old(wallet.allTx), old(wallet.allPKH), IdsOf(block.matched), block.height, txTime)
                else old(wallet.allTx)
    {
      hide AllSet;
      hide AllIncluded;
      hide At;
      hide OrphansOk;
      hide Reaches;
      ListIsKnown(wallet.allTx, wallet.allPKH, wallet.transactions);
      hide GoodList;
      ghost var c := View();
      var b := FindAtHeight(block.height);
      ok := b.Some?;
      if !ok { return; }
      FoundAtItsHeight(blocks, b.value.id);
      if b.value.id == block.id {
        ConfirmMatched(block, txTime, now);
      }
      var replaced := blocks[block.id];
      StoreAgain(block, b.value.id == block.id);
      if replaced != block {
        DropOrphan(replaced);
      }
    }

    /** Puts a stored block into the store again, now with its time and height. */
    method StoreAgain(block: Block, inMainChain: bool)
      requires Valid() && Attaches(blocks, block) && block.id in blocks && Backed(holds, block)
      requires inMainChain <==> OnMainChain(View(), block)
      modifies this`blocks, this`lastBlock
      ensures Valid() && blocks == old(blocks)[block.id := block]
      ensures lastBlock == if inMainChain && block.height == old(lastBlock).height then block else old(lastBlock)
    {
      hide AllIncluded;
      ghost var before, tip := blocks, lastBlock.id;
      FoundAtItsHeight(blocks, tip);
      StoringExtends(blocks, block);
      if inMainChain && block.height == lastBlock.height { lastBlock := block; }
      blocks := blocks[block.id := block];
      ExtendingKeepsIncluded(holds, before, blocks, tip, tip, wallet.allTx, wallet.transactions);
    }

    /** Forgets a replaced block that was still kept among the orphans. */
    method DropOrphan(replaced: Block)
      requires OrphansOk(orphans)
      modifies this`orphans, this`lastOrphan
      ensures OrphansOk(orphans) && (forall k :: k in orphans ==> k in old(orphans) && orphans[k] == old(orphans)[k])
      ensures orphans == if replaced.prevBlock in old(orphans) && old(orphans)[replaced.prevBlock] == replaced
                         then old(orphans) - {replaced.prevBlock} else old(orphans)
      ensures lastOrphan == if old(lastOrphan) == Some(replaced) then None else old(lastOrphan)
    {
      if replaced.prevBlock in orphans && orphans[replaced.prevBlock] == replaced {
        orphans := orphans - {replaced.prevBlock};
      }
      if lastOrphan == Some(replaced) { lastOrphan := None; }
    }

    /** Walks back to where the fork ending in `block` joins the main chain. */
    method FindJoin(block: Block) returns (b: Option<Block>, b2: Option<Block>)
      requires StoreValid() && block.id in blocks && blocks[block.id] == block && block.height > lastBlock.height
      ensures Join(blocks, lastBlock.id, block.id) == if b.Some? then Some(b.value.height) else None
      ensures b.Some? ==> (b2.Some? <==> At(blocks, lastBlock.id, b.value.height).Some?) && (b2.Some? ==> b2 == b)
    {
      b, b2 := Some(block), Some(lastBlock);
      while b.Some? && b2.Some? && b.value.id != b2.value.id
        invariant b.Some? ==> OnChain(blocks, block.id, b.value)
        invariant b2.Some? ==> OnChain(blocks, lastBlock.id, b2.value)
        invariant b.Some? && b2.Some? ==>
                    b.value.height >= b2.value.height && (b2.value == lastBlock || b.value.height == b2.value.height)
        invariant Join(blocks, lastBlock.id, block.id) == if b.Some? then Join(blocks, lastBlock.id, b.value.id) else None
        invariant b.Some? && b2.None? ==> forall h: nat :: h <= b.value.height ==> At(blocks, lastBlock.id, h) == None
        decreases if b.Some? then b.value.height + 1 else 0
      {
        NoJoinHere(blocks, lastBlock, b.value, b2.value);
        ParentOnChain(blocks, block.id, b.value);
        ParentOnChain(blocks, lastBlock.id, b2.value);
        b := Parent(blocks, b.value);
        if b.Some? && b.value.height < b2.value.height {
          b2 := Parent(blocks, b2.value);
        }
      }
      if b.Some? {
        JoinHere(blocks, lastBlock, b.value, b2);
      }
    }

    /** Goes through the blocks of the new main chain above the join and sets heights from them. */
    method Reconfirm(block: Block, floor: nat, now: nat)
      requires Valid() && lastBlock == block
      modifies wallet
      ensures Valid() && ListStays()
      ensures forall t :: t in wallet.transactions ==>
                HeightOf(wallet.allTx, t) == BranchHeight(blocks, block.id, floor, Id(t), HeightBefore(t))
    {
      ghost var all, txs := wallet.allTx, wallet.transactions;
      var b := Some(block);
      while b.Some? && b.value.height > floor
        invariant Valid() && multiset(wallet.transactions) == multiset(txs) && Known(all, wallet.transactions)
        invariant b.Some? ==> OnChain(blocks, block.id, b.value)
        invariant forall t :: t in wallet.transactions ==>
                    BranchHeight(blocks, block.id, floor, Id(t), HeightOf(all, t))
                    == if b.None? then HeightOf(wallet.allTx, t)
                       else BranchHeight(blocks, b.value.id, floor, Id(t), HeightOf(wallet.allTx, t))
        decreases if b.Some? then b.value.height + 1 else 0
      {
        var cur := b.value;
        ParentOnChain(blocks, block.id, cur);
        ghost var mid, list := wallet.allTx, wallet.transactions;
        b := Parent(blocks, cur);
        var timestamp := if b.Some? then cur.timestamp / 2 + b.value.timestamp / 2 else cur.timestamp;
        FoundAtItsHeight(blocks, cur.id);
        ConfirmMatched(cur, timestamp, now);
        SameMembers(list, wallet.transactions);
      }
    }

    /** A fork that got longer than the main chain takes its place. Everything above the join is
        unconfirmed, then the blocks of the new branch confirm what they include. `ok` is false
        when the walk back from the fork runs out of stored blocks. */
    method Reorganize(block: Block, now: nat) returns (ok: bool)
      requires Valid() && block.id in blocks && blocks[block.id] == block && block.height > lastBlock.height
      modifies this`lastBlock, wallet
      ensures ok <==> Meets(blocks, old(lastBlock).id, block.id)
      ensures ok ==> Valid() && lastBlock == block && ListStays()
      ensures ok ==> forall t :: t in wallet.transactions ==>
                HeightOf(wallet.allTx, t) == Reorganized(blocks, old(lastBlock).id, block.id, Id(t), HeightBefore(t))
    {
      var b, b2 := FindJoin(block);
      JoinIs(blocks, lastBlock.id, block.id);
      ok := b.Some?;
      if !ok { return; }
      ghost var all, txs, tip, floor := wallet.allTx, wallet.transactions, lastBlock.id, b.value.height;
      wallet.SetTxUnconfirmedAfter(b.value.height, now);
      UnconfirmingKeepsIncluded(holds, blocks, tip, block.id, floor, all, wallet.allTx, txs);
      lastBlock := block;
      if b2.Some? {
        Reconfirm(block, b2.value.height, now);
        SameMembers(txs, wallet.transactions);
      }
    }

    /** The first `n` blocks of the chain from `block` down. */
    method Collect(block: Block, n: nat) returns (slice: seq<Block>)
      requires StoreOk(blocks)
      ensures slice == ChainFrom(blocks, block, n)
    {
      slice := [];
      var b := Some(block);
      var i := 0;
      while b.Some? && i < n
        invariant 0 <= i <= n && |slice| == i
        invariant slice == ChainFrom(blocks, block, i)
        invariant b == if i == 0 then Some(block) else Parent(blocks, slice[i - 1])
      {
        ChainFromGrows(blocks, block, i);
        slice := slice + [b.value];
        b := Parent(blocks, b.value);
        i := i + 1;
      }
      ChainIsCut(blocks, block, i, n);
    }

    /** The blocks to save: the chain from `block` down, trimmed to start at a difficulty transition. */
    method SaveSlice(block: Block, saveCount: nat) returns (slice: seq<Block>)
      requires StoreOk(blocks) && block.id in blocks && blocks[block.id] == block
      ensures slice == DownToTransition(ChainFrom(blocks, block, saveCount))
      ensures slice != [] ==> IsSlice(slice) && slice[0] == block
    {
      slice := Collect(block, saveCount);
      ChainFromIsLinked(blocks, block, saveCount);
      CutIsSlice(blocks, block, saveCount);
      hide ChainFrom;
      hide DownToTransition;
      hide IsSlice;
      hide Linked;
      hide StoreOk;
      var i := |slice|;
      var j := if i > 0 then slice[i - 1].height % BLOCK_DIFFICULTY_INTERVAL else 0;
      TrimIsCut(slice, j, if j == 0 then 0 else if i > BLOCK_DIFFICULTY_INTERVAL - j then BLOCK_DIFFICULTY_INTERVAL - j else i);
      if j > 0 {
        i := i - if i > BLOCK_DIFFICULTY_INTERVAL - j then BLOCK_DIFFICULTY_INTERVAL - j else i;
      }
      slice := slice[..i];
    }

    /** A new block on a fork of the main chain. */
    method ForkChain(block: Block, now: nat) returns (saveCount: nat, ok: bool)
      requires Valid() && Attaches(blocks, block) && block.id !in blocks && Backed(holds, block)
      modifies this`blocks, this`lastBlock, wallet
      ensures blocks == old(blocks)[block.id := block]
      ensures ok <==> (block.height > old(lastBlock).height ==> Joins(old(View()), block))
      ensures ok ==> Valid() && lastBlock == if block.height > old(lastBlock).height then block else old(lastBlock)
      ensures ok ==> ListStays() && forall t :: t in wallet.transactions ==>
                HeightOf(wallet.allTx, t) ==
                  if block.height > old(lastBlock).height
                  then Reorganized(blocks, old(lastBlock).id, block.id, Id(t), HeightBefore(t)) else HeightBefore(t)
      ensures ok ==> saveCount == (if block.height > old(lastBlock).height && block.height == estimatedHeight
                                   then block.height % BLOCK_DIFFICULTY_INTERVAL + BLOCK_DIFFICULTY_INTERVAL + 1 else 0)
    {
      saveCount, ok := 0, true;
      ghost var before := blocks;
      StoringExtends(blocks, block);
      ListIsKnown(wallet.allTx, wallet.allPKH, wallet.transactions);
      blocks := blocks[block.id := block];
      ExtendingKeepsIncluded(holds, before, blocks, lastBlock.id, lastBlock.id, wallet.allTx, wallet.transactions);
      if block.height > lastBlock.height {
        ok := Reorganize(block, now);
        if ok && block.height == estimatedHeight {
          saveCount := block.height % BLOCK_DIFFICULTY_INTERVAL + BLOCK_DIFFICULTY_INTERVAL + 1;
        }
      }
    }

    /** The block goes on the tip, or is seen again in the main chain: its transactions get a time
        with the height. */
    predicate SetsTimes(c: Chain, r: Relay, b: Block)
      requires ChainOk(c)
    {
      Receive(rules, c, r).Extends? || (Receive(rules, c, r).Again? && OnMainChain(c, b))
    }

    /** What became of a relayed block: the chain and the heights are those of its branch. */
    twostate predicate Received(r: Relay)
      requires ChainOk(old(View())) && Relayable(r.block)
      reads this, wallet
    {
      && Valid() && View() == StepTo(rules, old(View()), r)
      && ListStays() && forall x :: x in wallet.transactions ==>
           HeightOf(wallet.allTx, x) == StepHeight(rules, old(View()), r, Id(x), HeightBefore(x))
    }

    /** The branches of a verified block. `kept` is the block unless it was dropped; `ok` is
        false when a walk down a chain runs out of stored blocks. */
    method AcceptBlock(r: Relay, block: Block, txTime: nat) returns (kept: Option<Block>, saveCount: nat, ok: bool)
      requires Valid() && Relayable(r.block) && Backed(holds, block) && Attaches(blocks, block)
      requires block == Placed(View(), r.block)
      requires Receive(rules, View(), r) == Route(rules, View(), block, r.peerLastBlock)
      modifies this`blocks, this`lastBlock, this`orphans, this`lastOrphan, wallet
      ensures ok <==> IsSafe(rules, old(View()), r)
      ensures ok ==> Received(r) && saveCount == SaveCount(rules, old(View()), r)
      ensures ok ==> kept == if Receive(rules, old(View()), r).Dropped? then None else Some(block)
      ensures ok && SetsTimes(old(View()), r, block) ==>
                wallet.allTx == AllSet(old(wallet.allTx), old(wallet.allPKH), IdsOf(block.matched), block.height, txTime)
    {
      hide AllSet;
      hide AllIncluded;
      hide At;
      hide Reaches;
      hide Joins;
      hide Attaches;
      hide Placed;
      hide Receive;
      hide Refreshed;
      ListIsKnown(wallet.allTx, wallet.allPKH, wallet.transactions);
      hide GoodList;
      StepIsOk(rules, View(), r);
      kept, saveCount, ok := Some(block), 0, true;
      if block.prevBlock == lastBlock.id {
        ExtendChain(block, txTime, r.now);
        if block.height % BLOCK_DIFFICULTY_INTERVAL == 0 && block.height + 100 < estimatedHeight { saveCount := 1; }
        if block.height == estimatedHeight {
          saveCount := block.height % BLOCK_DIFFICULTY_INTERVAL + BLOCK_DIFFICULTY_INTERVAL + 1;
        }
      } else if block.id in blocks {
        ok := RefreshBlock(block, txTime, r.now);
      } else if lastBlock.height < r.peerLastBlock && block.height > lastBlock.height + 1 {
        orphans := orphans[block.prevBlock := block];  // mined during a rescan
        lastOrphan := Some(block);
      } else if block.height <= rules.lastCheckpoint {
        kept := None;
      } else {
        saveCount, ok := ForkChain(block, r.now);
      }
    }

    /** The branches a relayed block goes through. */
    method ProcessBlock(r: Relay) returns (kept: Option<Block>, saveCount: nat, ok: bool)
      requires Valid() && Relayable(r.block) && Backed(holds, r.block)
      modifies this`blocks, this`lastBlock, this`orphans, this`lastOrphan, wallet
      ensures ok <==> IsSafe(rules, old(View()), r)
      ensures ok ==> Received(r) && saveCount == SaveCount(rules, old(View()), r)
      ensures ok ==> kept == if Receive(rules, old(View()), r).Dropped? then None else Some(Placed(old(View()), r.block))
      ensures var b := Placed(old(View()), r.block);
              ok && SetsTimes(old(View()), r, b) ==>
                wallet.allTx == AllSet(old(wallet.allTx), old(wallet.allPKH), IdsOf(b.matched), b.height, TxTime(old(View()), r.block))
    {
      hide AllSet;
      hide AllIncluded;
      hide At;
      hide Reaches;
      hide Joins;
      hide Route;
      ListIsKnown(wallet.allTx, wallet.allPKH, wallet.transactions);
      hide GoodList;
      StepIsOk(rules, View(), r);
      PlacedIsSaved(View(), r.block);
      kept, saveCount, ok := None, 0, true;
      var prev := Parent(blocks, r.block);
      var txTime := if prev.Some? then r.block.timestamp / 2 + prev.value.timestamp / 2 else 0;
      var block := if prev.Some? then r.block.(height := prev.value.height + 1) else r.block;
      if block.totalTx == 0 && block.timestamp + HALF_WEEK - TWO_HOURS > rules.earliestKeyTime {
        return;  // a header too new to be ignored as one
      }
      if r.filterPending { return; }
      if prev.None? {
        if block.timestamp + HALF_WEEK >= r.now {
          kept := Some(block);
          orphans := orphans[block.prevBlock := block];
          lastOrphan := Some(block);
        }
        return;
      }
      if !Verified(rules, block, prev.value) { return; }
      kept, saveCount, ok := AcceptBlock(r, block, txTime);
    }

    /** The successor that waited for a block among the orphans, now taken from there. */
    method TakeOrphan(block: Block) returns (next: Option<Block>)
      requires Valid()
      modifies this`orphans, this`estimatedHeight
      ensures Valid() && View() == Settled(old(View()), block)
      ensures next == if block.height != BLOCK_UNKNOWN_HEIGHT && block.id in old(orphans)
                      then Some(old(orphans)[block.id]) else None
    {
      hide AllIncluded;
      hide StoreOk;
      next := None;
      if block.height != BLOCK_UNKNOWN_HEIGHT {
        if block.height > estimatedHeight { estimatedHeight := block.height; }
        if block.id in orphans {
          next := Some(orphans[block.id]);
        }
        orphans := orphans - {block.id};
      }
    }

    /** A relayed block, the slice to save, and the orphan that waited for the block. */
    method RelayOne(r: Relay) returns (saves: seq<seq<Block>>, next: Option<Block>, ok: bool)
      requires Valid() && Relayable(r.block) && Backed(holds, r.block)
      modifies this, wallet
      ensures ok <==> IsSafe(rules, old(View()), r)
      ensures ok ==> Valid() && View() == AfterStep(rules, old(View()), r)
      ensures ok ==> saves == StepSaves(rules, old(View()), r)
      ensures ok ==> if next.Some? then NextRelay(rules, old(View()), r) == Some(r.(block := next.value))
                     else NextRelay(rules, old(View()), r).None?
      ensures ok ==> ListStays() && forall x :: x in wallet.transactions ==>
                HeightOf(wallet.allTx, x) == StepHeight(rules, old(View()), r, Id(x), HeightBefore(x))
    {
      hide StepTo;
      hide Settled;
      hide IsSafe;
      hide Receive;
      hide GoodList;
      hide AllIncluded;
      hide StepHeight;
      hide SaveCount;
      hide ChainFrom;
      saves, next := [], None;
      ghost var c := View();
      StepSavesAre(rules, c, r);
      var kept, saveCount;
      kept, saveCount, ok := ProcessBlock(r);
      if !ok { return; }
      if kept.None? {
        DroppedEndsHere(rules, c, r);
        return;
      }
      var block := kept.value;
      ghost var mid := View();
      if saveCount > 0 {
        var slice := SaveSlice(block, saveCount);
        if slice != [] { saves := [slice]; }
      }
      next := TakeOrphan(block);
    }

    /** One relayed block, and then the orphans that waited for it, one after another. `saves`
        lists the slices handed over to be saved. */
    method PeerRelayedBlock(r: Relay) returns (saves: seq<seq<Block>>, ok: bool)
      requires Valid() && Relayable(r.block) && Backed(holds, r.block)
      modifies this, wallet
      ensures ok <==> Relays(rules, old(View()), r).ok
      ensures ok ==> Valid() && View() == Relays(rules, old(View()), r).chain
      ensures ok ==> saves == Relays(rules, old(View()), r).saves
      ensures ok ==> ListStays() && forall x :: x in wallet.transactions ==>
                HeightOf(wallet.allTx, x) == RelayedHeight(rules, old(View()), r, Id(x), HeightBefore(x))
      decreases Followers(orphans, r.block.id)
    {
      hide AfterStep;
      hide IsSafe;
      hide GoodList;
      hide AllIncluded;
      hide StepHeight;
      hide StepSaves;
      hide StoreOk;
      hide Relays;
      hide RelayedHeight;
      hide Relayable;
      hide NextRelay;
      hide Followers;
      RelaysOn(rules, View(), r);
      ghost var txs := wallet.transactions;
      var next;
      saves, next, ok := RelayOne(r);
      if ok && next.Some? {
        ghost var list := wallet.transactions;
        var rest;
        rest, ok := PeerRelayedBlock(r.(block := next.value));
        saves := saves + rest;
        if ok {
          SameMembers(list, wallet.transactions);
        }
      }
    }

    /** Whether registering the transaction lists it. */
    predicate IsNewToWallet(body: TxBody)
      reads wallet
    {
      Id(body) !in wallet.allTx && IsWalletTx(wallet.allTx, wallet.allPKH, body)
    }

    /** The transaction joins the list if it is new and the wallet's; the others keep their heights. */
    twostate predicate Joined(body: TxBody)
      reads this, wallet
    {
      && multiset(wallet.transactions) ==
           multiset(old(wallet.transactions)) + (if old(IsNewToWallet(body)) then multiset{body} else multiset{})
      && Known(wallet.allTx, wallet.transactions) && Known(old(wallet.allTx), old(wallet.transactions))
      && forall x :: x in wallet.transactions ==>
           HeightOf(wallet.allTx, x) ==
             if x in old(wallet.transactions) then HeightOf(old(wallet.allTx), x) else TX_UNCONFIRMED
    }

    /** Registers a transaction; a new one of the wallet is followed by new addresses. */
    method RegisterRelayed(body: TxBody, internal: seq<Pkh>, external: seq<Pkh>, now: nat)
      requires Valid()
      modifies wallet
      ensures Valid() && Joined(body)
    {
      hide IsWalletTx;
      hide Replay;
      ghost var all, txs := wallet.allTx, wallet.transactions;
      ListIsKnown(all, wallet.allPKH, txs);
      var isNew := Id(body) !in wallet.allTx;
      var r := wallet.RegisterTransaction(Tx(body, TX_UNCONFIRMED, 0), now);
      ListIsKnown(wallet.allTx, wallet.allPKH, wallet.transactions);
      hide GoodList;
      RegisteringKeepsIncluded(holds, blocks, lastBlock.id, all, txs, wallet.allTx, wallet.transactions, Tx(body, TX_UNCONFIRMED, 0));
      hide AllIncluded;
      if r && isNew {
        wallet.GrowChains(internal, external);
      }
      OneMoreListed(txs, wallet.transactions, body);
    }

    /** Sets the time of an unconfirmed transaction. */
    method StampTx(id: TxId, now: nat)
      requires Valid() && id in wallet.allTx && wallet.allTx[id].blockHeight == TX_UNCONFIRMED
      modifies wallet
      ensures Valid() && ListStays()
      ensures forall x :: x in wallet.transactions ==> HeightOf(wallet.allTx, x) == HeightBefore(x)
    {
      ghost var list := wallet.transactions;
      var updated := wallet.UpdateTransactions([id], TX_UNCONFIRMED, now, now);
      SameMembers(list, wallet.transactions);
    }

    /** One relayed transaction, still unconfirmed. During a sync a foreign one is dropped.
        `verified` says that enough peers relayed it. */
    method PeerRelayedTx(body: TxBody, verified: bool, syncing: bool, internal: seq<Pkh>, external: seq<Pkh>, now: nat)
      requires Valid()
      modifies wallet
      ensures Valid() && Joined(body)
      ensures syncing && !IsWalletTx(old(wallet.allTx), old(wallet.allPKH), body) ==> wallet.allTx == old(wallet.allTx)
    {
      hide AllIncluded;
      hide IsWalletTx;
      ListIsKnown(wallet.allTx, wallet.allPKH, wallet.transactions);
      hide GoodList;
      var id := Id(body);
      if syncing {
        var mine := wallet.ContainsTx(body);
        if !mine { return; }
      }
      RegisterRelayed(body, internal, external, now);
      ghost var list := wallet.transactions;
      if verified && id in wallet.allTx && wallet.allTx[id].blockHeight == TX_UNCONFIRMED && wallet.allTx[id].timestamp == 0 {
        StampTx(id, now);
        SameMembers(list, wallet.transactions);
      }
    }

    /** The messages of a run, in any order: the main chain and the wallet stay in agreement. It
        goes through exactly when no walk down a chain runs out of stored blocks. */
    method ReceiveMessages(messages: seq<Message>) returns (saves: seq<seq<Block>>, ok: bool)
      requires Valid() && AllRelayable(messages) && AllBackedIn(holds, messages)
      modifies this, wallet
      ensures ok <==> Run(rules, old(View()), messages).ok
      ensures ok ==> Valid() && View() == Run(rules, old(View()), messages).chain
      ensures ok ==> saves == Run(rules, old(View()), messages).saves
    {
      hide Run;
      hide Relays;
      hide ChainOk;
      hide Relayable;
      hide AllIncluded;
      hide AllBacked;
      hide Backed;
      hide GoodList;
      hide AllRelayable;
      saves, ok := [], true;
      ghost var c := View();
      var i := 0;
      assert messages[i..] == messages;
      while ok && i < |messages|
        invariant 0 <= i <= |messages| && AllRelayable(messages[i..])
        invariant ok ==> Valid()
        invariant ok ==> (var rest := Run(rules, View(), messages[i..]);
                          Run(rules, c, messages) == Relaying(rest.ok, rest.chain, saves + rest.saves))
        invariant !ok ==> !Run(rules, c, messages).ok
      {
        assert messages[i] in messages && messages[i..][0] == messages[i] && messages[i..][1..] == messages[i + 1..];
        RunOn(rules, View(), messages[i..]);
        match messages[i] {
          case BlockMessage(relay) =>
            var own;
            own, ok := PeerRelayedBlock(relay);
            saves := saves + own;
          case TxMessage(body, verified, syncing, internal, external, now) =>
            PeerRelayedTx(body, verified, syncing, internal, external, now);
        }
        i := i + 1;
      }
      if ok {
        RunOn(rules, View(), messages[i..]);
      }
    }
  }

  /** Saving and restoring: a slice that is handed over while a block is relayed, given back in
      any order, leads back to its tip, whatever the tracker has stored by then. */
  method SaveAndRestore(tracker: Tracker, r: Relay, ghost k: nat, given: seq<Block>, blocks0: Blocks, last0: Block)
    returns (blocks: Blocks, last: Block)
    requires tracker.Valid() && Relayable(r.block) && Backed(tracker.holds, r.block)
    requires var relaying := Relays(tracker.rules, tracker.View(), r);
             relaying.ok && k < |relaying.saves| && multiset(given) == multiset(relaying.saves[k])
    requires StoreOk(blocks0) && last0.id in blocks0 && blocks0[last0.id] == last0
    modifies tracker, tracker.wallet
    ensures var slice := Relays(tracker.rules, old(tracker.View()), r).saves[k];
            IsSlice(slice) && last == slice[0] && exists from: nat :: Rebuilt(blocks, slice, from)
  {
    ghost var c := tracker.View();
    ghost var slice := Relays(tracker.rules, c, r).saves[k];
    var saves, ok := tracker.PeerRelayedBlock(r);
    SavesCanBeGivenBack(tracker.rules, c, r, slice, given);
    hide Rebuilt;
    hide Relays;
    var orphans;
    ghost var from;
    blocks, orphans, last, from := Restore(blocks0, last0, given, slice);
    assert Rebuilt(blocks, slice, from);
  }
}
