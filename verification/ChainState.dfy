/** What the chain tracker of BRPeerManager.c keeps besides the wallet, and what a relayed
    block makes of it: the branches it goes through, where the chain is reorganized, what is
    saved, and when a walk down the main chain runs out of stored blocks. */
module ChainState {
  import opened Wrappers
  import opened Bitcoin
  import opened WalletStore
  import opened BlockStore
  import opened SavedBlocks

  const HALF_WEEK := 302400  // 3.5 days, in seconds
  const TWO_HOURS := 7200

  datatype Chain = Chain(
    blocks: Blocks, orphans: Blocks, last: Block, lastOrphan: Option<Block>, estimatedHeight: nat)

  datatype Rules = Rules(
    checkpoints: map<nat, BlockId>, lastCheckpoint: nat, earliestKeyTime: nat, difficultyOk: BlockId -> bool)

  /** A block as a peer relays it, with the height the peer claims to be at, and whether an
      update of the filter is pending. */
  datatype Relay = Relay(block: Block, peerLastBlock: nat, filterPending: bool, now: nat)

  /** A block as it is relayed, its height unknown or known from an earlier attempt. */
  predicate Relayable(b: Block) {
    Sound(b) && b.prevBlock == b.id.prev && (b.height == BLOCK_UNKNOWN_HEIGHT || b.height == Depth(b.id))
  }

  predicate ChainOk(c: Chain) {
    && StoreOk(c.blocks) && OrphansOk(c.orphans)
    && c.last.id in c.blocks && c.blocks[c.last.id] == c.last
  }

  // ---- One step ----

  /** The branches of `_peerRelayedBlock`. */
  datatype Reception = Dropped | Awaited | Extends | Again | Later | Fork

  /** The block with its height, if its parent is stored. */
  function Placed(c: Chain, b: Block): Block {
    if Parent(c.blocks, b).Some? then b.(height := Parent(c.blocks, b).value.height + 1) else b
  }

  predicate Verified(rules: Rules, block: Block, prev: Block) {
    && block.prevBlock == prev.id && block.height == prev.height + 1
    && rules.difficultyOk(block.id)
    && (block.height in rules.checkpoints ==> rules.checkpoints[block.height] == block.id)
  }

  /** The time that transactions of a block get: between its own and that of its parent. */
  function TxTime(c: Chain, b: Block): nat {
    if Parent(c.blocks, b).Some? then b.timestamp / 2 + Parent(c.blocks, b).value.timestamp / 2 else 0
  }

  /** It is their mean, but for the halves that are lost. */
  lemma {:induction false} TxTimeIsMean(c: Chain, b: Block)
    requires Parent(c.blocks, b).Some?
    ensures var sum := b.timestamp + Parent(c.blocks, b).value.timestamp; sum - 2 <= 2 * TxTime(c, b) <= sum
  {
  }

  function Receive(rules: Rules, c: Chain, r: Relay): Reception {
    var prev := Parent(c.blocks, r.block);
    var block := Placed(c, r.block);
    if block.totalTx == 0 && block.timestamp + HALF_WEEK - TWO_HOURS > rules.earliestKeyTime then Dropped
    else if r.filterPending then Dropped
    else if prev.None? then if block.timestamp + HALF_WEEK < r.now then Dropped else Awaited
    else if !Verified(rules, block, prev.value) then Dropped
    else Route(rules, c, block, r.peerLastBlock)
  }

  /** Where a verified block goes. */
  function Route(rules: Rules, c: Chain, block: Block, peerLastBlock: nat): Reception {
    if block.prevBlock == c.last.id then Extends
    else if block.id in c.blocks then Again
    else if c.last.height < peerLastBlock && block.height > c.last.height + 1 then Later
    else if block.height <= rules.lastCheckpoint then Dropped
    else Fork
  }

  predicate OnMainChain(c: Chain, b: Block)
    requires StoreOk(c.blocks)
  {
    At(c.blocks, c.last.id, b.height) == Some(b.id)
  }

  function Refreshed(c: Chain, b: Block): Chain
    requires StoreOk(c.blocks) && b.id in c.blocks
  {
    var was := c.blocks[b.id];
    var forget := was != b;
    c.(blocks := c.blocks[b.id := b],
       last := if OnMainChain(c, b) && b.height == c.last.height then b else c.last,
       orphans := if forget && was.prevBlock in c.orphans && c.orphans[was.prevBlock] == was
                  then c.orphans - {was.prevBlock} else c.orphans,
       lastOrphan := if forget && c.lastOrphan == Some(was) then None else c.lastOrphan)
  }

  /** The chain after a block went through its branch. */
  function StepTo(rules: Rules, c: Chain, r: Relay): Chain
    requires ChainOk(c)
  {
    var b := Placed(c, r.block);
    match Receive(rules, c, r)
    case Dropped => c
    case Awaited => c.(orphans := c.orphans[b.prevBlock := b], lastOrphan := Some(b))
    case Later => c.(orphans := c.orphans[b.prevBlock := b], lastOrphan := Some(b))
    case Extends => c.(blocks := c.blocks[b.id := b], last := b)
    case Again => Refreshed(c, b)
    case Fork => c.(blocks := c.blocks[b.id := b], last := if b.height > c.last.height then b else c.last)
  }

  /** A walk down the chain from `tip` to height `h` ends at a stored block. */
  ghost predicate Reaches(blocks: Blocks, tip: BlockId, h: nat)
    requires StoreOk(blocks)
  {
    exists low: nat :: low <= h && At(blocks, tip, low).Some?
  }

  /** The height at which the chain ending in `top` joins the one ending in `tip`, walking down
      from `top` as far as blocks are stored. */
  ghost function Join(blocks: Blocks, tip: BlockId, top: BlockId): Option<nat>
    requires StoreOk(blocks)
    decreases top
  {
    if top !in blocks then None
    else if ForkAt(blocks, tip, top, Depth(top)) then Some(Depth(top))
    else if blocks[top].prevBlock !in blocks then None
    else Join(blocks, tip, blocks[top].prevBlock)
  }

  /** The source goes through the branch without its walk down a chain running out of stored
      blocks, where an assertion of it fails. */
  ghost predicate IsSafe(rules: Rules, c: Chain, r: Relay)
    requires ChainOk(c) && Relayable(r.block)
  {
    var b := Placed(c, r.block);
    match Receive(rules, c, r)
    case Again => Reaches(c.blocks, c.last.id, b.height)
    case Fork => b.height > c.last.height ==> Joins(c, b)
    case _ => true
  }

  /** The chain ending in `top` has a block of the one ending in `tip`, or goes on below it. */
  ghost predicate Meets(blocks: Blocks, tip: BlockId, top: BlockId)
    requires StoreOk(blocks)
  {
    exists h: nat :: At(blocks, top, h).Some? && ForkAt(blocks, tip, top, h)
  }

  ghost predicate Joins(c: Chain, b: Block)
    requires ChainOk(c) && Saved(b)
  {
    StoringKeepsOk(c.blocks, b);
    Meets(c.blocks[b.id := b], c.last.id, b.id)
  }

  lemma {:induction false} PlacedIsSaved(c: Chain, b: Block)
    requires ChainOk(c) && Relayable(b)
    ensures Relayable(Placed(c, b)) && (Parent(c.blocks, b).Some? ==> Saved(Placed(c, b)))
  {
  }

  /** Chains that do not join at a block of the one are parted there. */
  lemma {:induction false} NoForkParts(blocks: Blocks, tip: BlockId, top: BlockId, id: BlockId)
    requires StoreOk(blocks) && id in blocks && At(blocks, top, Depth(id)) == Some(id)
    requires PartedAbove(blocks, top, tip, Depth(id)) && !ForkAt(blocks, tip, id, Depth(id))
    ensures PartedAbove(blocks, top, tip, Depth(id) - 1)
  {
  }

  lemma {:induction false} ForkBelow(blocks: Blocks, tip: BlockId, top: BlockId, id: BlockId, h: nat)
    requires StoreOk(blocks) && id in blocks && At(blocks, top, Depth(id)) == Some(id) && h <= Depth(id)
    ensures At(blocks, top, h) == At(blocks, id, h)
    ensures ForkAt(blocks, tip, top, h) <==> ForkAt(blocks, tip, id, h)
  {
    AtComposes(blocks, top, Depth(id), h);
  }

  lemma {:induction false} JoinFrom(blocks: Blocks, tip: BlockId, top: BlockId, id: BlockId)
    requires StoreOk(blocks) && id in blocks && At(blocks, top, Depth(id)) == Some(id)
    requires PartedAbove(blocks, top, tip, Depth(id))
    ensures var j := Join(blocks, tip, id);
            && (j.Some? ==> At(blocks, top, j.value).Some? && ForkAt(blocks, tip, top, j.value)
                            && PartedAbove(blocks, top, tip, j.value))
            && (forall h: nat :: h <= Depth(id) && At(blocks, top, h).Some? && ForkAt(blocks, tip, top, h) ==> j.Some?)
    decreases id
  {
    var d := Depth(id);
    ForkBelow(blocks, tip, top, id, d);
    hide PartedAbove;
    hide ForkAt;
    if !ForkAt(blocks, tip, id, d) {
      NoForkParts(blocks, tip, top, id);
      if blocks[id].prevBlock in blocks {
        ForkBelow(blocks, tip, top, id, d - 1);
        assert At(blocks, top, d - 1) == Some(blocks[id].prevBlock);
        JoinFrom(blocks, tip, top, blocks[id].prevBlock);
      } else {
        forall h: nat | h < d
          ensures At(blocks, top, h).None?
        {
          ForkBelow(blocks, tip, top, id, h);
        }
      }
    }
  }

  /** There is a join exactly when the chains meet, or the old one ends above a block of the
      new one. It is the highest block that they have in common, or the first one below the
      end of the old one. */
  lemma {:induction false} JoinIs(blocks: Blocks, tip: BlockId, top: BlockId)
    requires StoreOk(blocks) && top in blocks
    ensures var j := Join(blocks, tip, top);
            && (j.Some? <==> Meets(blocks, tip, top))
            && (j.Some? ==> At(blocks, top, j.value).Some? && ForkAt(blocks, tip, top, j.value)
                            && PartedAbove(blocks, top, tip, j.value))
  {
    hide ForkAt;
    assert At(blocks, top, Depth(top)) == Some(top);
    assert forall h: nat :: h > Depth(top) ==> At(blocks, top, h).None?;
    JoinFrom(blocks, tip, top, top);
  }

  lemma {:induction false} StepIsOk(rules: Rules, c: Chain, r: Relay)
    requires ChainOk(c) && Relayable(r.block)
    ensures ChainOk(StepTo(rules, c, r))
  {
    PlacedIsSaved(c, r.block);
    hide StoreOk;
    hide At;
    var b := Placed(c, r.block);
    match Receive(rules, c, r)
    case Dropped =>
    case Awaited => assert StoreOk(c.blocks);
    case Later => assert StoreOk(c.blocks);
    case Extends => StoringKeepsOk(c.blocks, b);
    case Again => StoringKeepsOk(c.blocks, b);
    case Fork => StoringKeepsOk(c.blocks, b);
  }

  // ---- What a step is followed by ----

  /** The height is noted, and the orphan that waited for the block is taken out. */
  function Settled(c: Chain, b: Block): Chain {
    if b.height == BLOCK_UNKNOWN_HEIGHT then c
    else c.(estimatedHeight := if b.height > c.estimatedHeight then b.height else c.estimatedHeight,
            orphans := c.orphans - {b.id})
  }

  function AfterStep(rules: Rules, c: Chain, r: Relay): Chain
    requires ChainOk(c)
  {
    if Receive(rules, c, r).Dropped? then c else Settled(StepTo(rules, c, r), Placed(c, r.block))
  }

  /** The orphan that waited for the block is relayed next. */
  function NextRelay(rules: Rules, c: Chain, r: Relay): Option<Relay>
    requires ChainOk(c)
  {
    var b, orphans := Placed(c, r.block), StepTo(rules, c, r).orphans;
    if !Receive(rules, c, r).Dropped? && b.height != BLOCK_UNKNOWN_HEIGHT && b.id in orphans
    then Some(r.(block := orphans[b.id])) else None
  }

  /** How many blocks are to be saved. */
  function SaveCount(rules: Rules, c: Chain, r: Relay): nat {
    var b := Placed(c, r.block);
    var all := b.height % BLOCK_DIFFICULTY_INTERVAL + BLOCK_DIFFICULTY_INTERVAL + 1;
    match Receive(rules, c, r)
    case Extends =>
      if b.height == c.estimatedHeight then all
      else if b.height % BLOCK_DIFFICULTY_INTERVAL == 0 && b.height + 100 < c.estimatedHeight then 1 else 0
    case Fork => if b.height > c.last.height && b.height == c.estimatedHeight then all else 0
    case _ => 0
  }

  /** The slice handed over to be saved, if any. */
  function StepSaves(rules: Rules, c: Chain, r: Relay): seq<seq<Block>>
    requires ChainOk(c)
  {
    var slice := DownToTransition(ChainFrom(StepTo(rules, c, r).blocks, Placed(c, r.block), SaveCount(rules, c, r)));
    if slice == [] then [] else [slice]
  }

  lemma {:induction false} SavesAreSlices(rules: Rules, c: Chain, r: Relay)
    requires ChainOk(c) && Relayable(r.block)
    ensures forall s :: s in StepSaves(rules, c, r) ==> IsSlice(s) && s[0] == Placed(c, r.block)
  {
    StepIsOk(rules, c, r);
    hide StoreOk;
    hide ChainFrom;
    hide IsSlice;
    var b := Placed(c, r.block);
    var blocks, n := StepTo(rules, c, r).blocks, SaveCount(rules, c, r);
    if n > 0 {
      assert b.id in blocks && blocks[b.id] == b;
      hide StepTo;
      hide Placed;
      CutIsSlice(blocks, b, n);
    } else {
      hide StepTo;
      NothingToSave(blocks, b);
    }
  }

  /** When the chain is complete with a block at `h`, as many blocks are saved as go down to the
      second transition below it, if so many are stored. */
  lemma {:induction false} CompleteChainIsSaved(rules: Rules, c: Chain, r: Relay)
    requires ChainOk(c) && Relayable(r.block) && c.estimatedHeight >= 2016
    requires AfterStep(rules, c, r).last.id == r.block.id != c.last.id
    requires AfterStep(rules, c, r).last.height == c.estimatedHeight
    requires var b := Placed(c, r.block);
             var n := c.estimatedHeight % 2016 + 2016 + 1;
             |ChainFrom(StepTo(rules, c, r).blocks, b, n)| == n
    ensures |StepSaves(rules, c, r)| == 1
    ensures var s := StepSaves(rules, c, r)[0];
            s[0] == Placed(c, r.block)
            && s[|s| - 1].height == (c.estimatedHeight / 2016 - 1) * 2016
  {
    hide ChainFrom;
    hide StepSaves;
    hide StepTo;
    hide AfterStep;
    hide Placed;
    hide SaveCount;
    hide ChainOk;
    hide Relayable;
    var n := c.estimatedHeight % BLOCK_DIFFICULTY_INTERVAL + BLOCK_DIFFICULTY_INTERVAL + 1;
    TipHasItsHeight(rules, c, r);
    LowestIsTransition(c.estimatedHeight, n);
    WholeChainIsSaved(rules, c, r, n);
  }

  lemma {:induction false} WholeChainIsSaved(rules: Rules, c: Chain, r: Relay, n: nat)
    requires ChainOk(c) && Relayable(r.block) && SaveCount(rules, c, r) == n > 0
    requires var b, blocks := Placed(c, r.block), StepTo(rules, c, r).blocks;
             b.id in blocks && blocks[b.id] == b && |ChainFrom(blocks, b, n)| == n && (b.height - (n - 1)) % BLOCK_DIFFICULTY_INTERVAL == 0
    ensures |StepSaves(rules, c, r)| == 1
    ensures var s := StepSaves(rules, c, r)[0];
            s != [] && s[0] == Placed(c, r.block) && s[|s| - 1].height == Placed(c, r.block).height - (n - 1)
  {
    StepIsOk(rules, c, r);
    var b, blocks := Placed(c, r.block), StepTo(rules, c, r).blocks;
    hide Placed;
    hide StepTo;
    hide ChainFrom;
    hide ChainOk;
    hide Relayable;
    hide StepSaves;
    hide SaveCount;
    LowestOfChain(rules, c, r, b, n);
    SavesTheWhole(rules, c, r, ChainFrom(blocks, b, n), n);
  }

  lemma {:induction false} LowestOfChain(rules: Rules, c: Chain, r: Relay, b: Block, n: nat)
    requires ChainOk(c) && ChainOk(StepTo(rules, c, r)) && n > 0
    requires var blocks := StepTo(rules, c, r).blocks;
             b.id in blocks && blocks[b.id] == b && |ChainFrom(blocks, b, n)| == n
    ensures var s := ChainFrom(StepTo(rules, c, r).blocks, b, n);
            s != [] && s[0] == b && s[|s| - 1].height == b.height - (n - 1)
  {
    hide StepTo;
    var s := ChainFrom(StepTo(rules, c, r).blocks, b, n);
    ChainFromIsLinked(StepTo(rules, c, r).blocks, b, n);
    hide ChainFrom;
    SliceHeights(s, n - 1);
  }

  /** While the chain is more than a hundred blocks behind, each transition block is saved as soon
      as it extends the chain. */
  lemma {:induction false} TransitionsAreSaved(rules: Rules, c: Chain, r: Relay)
    requires ChainOk(c) && Relayable(r.block) && Receive(rules, c, r).Extends?
    requires var h := Placed(c, r.block).height; h % 2016 == 0 && h + 100 < c.estimatedHeight
    ensures StepSaves(rules, c, r) == [[Placed(c, r.block)]]
  {
    var b := Placed(c, r.block);
    hide Receive;
    hide Placed;
    hide ChainOk;
    hide Relayable;
    assert SaveCount(rules, c, r) == 1;
    assert ChainFrom(StepTo(rules, c, r).blocks, b, 1) == [b];
  }

  lemma {:induction false} LowestIsTransition(h: nat, n: nat)
    requires h >= BLOCK_DIFFICULTY_INTERVAL && n == h % BLOCK_DIFFICULTY_INTERVAL + BLOCK_DIFFICULTY_INTERVAL + 1
    ensures h - (n - 1) == (h / BLOCK_DIFFICULTY_INTERVAL - 1) * BLOCK_DIFFICULTY_INTERVAL
    ensures (h - (n - 1)) % BLOCK_DIFFICULTY_INTERVAL == 0
  {
  }

  lemma {:induction false} NewTip(rules: Rules, c: Chain, r: Relay)
    requires ChainOk(c) && Relayable(r.block) && AfterStep(rules, c, r).last.id == r.block.id != c.last.id
    ensures var rec := Receive(rules, c, r); rec.Extends? || (rec.Fork? && Placed(c, r.block).height > c.last.height)
  {
    if Receive(rules, c, r).Again? {
      assert OnMainChain(c, Placed(c, r.block)) && Placed(c, r.block).height == Depth(c.last.id) ==> r.block.id == c.last.id;
    }
  }

  lemma {:induction false} TipHasItsHeight(rules: Rules, c: Chain, r: Relay)
    requires ChainOk(c) && Relayable(r.block) && AfterStep(rules, c, r).last.id == r.block.id != c.last.id
    ensures AfterStep(rules, c, r).last == Placed(c, r.block)
    ensures AfterStep(rules, c, r).last.height == c.estimatedHeight ==>
              SaveCount(rules, c, r) == c.estimatedHeight % BLOCK_DIFFICULTY_INTERVAL + BLOCK_DIFFICULTY_INTERVAL + 1
    ensures StepTo(rules, c, r).blocks == AfterStep(rules, c, r).blocks
    ensures var b := Placed(c, r.block); b.id in StepTo(rules, c, r).blocks && StepTo(rules, c, r).blocks[b.id] == b
  {
    NewTip(rules, c, r);
    hide Receive;
    hide At;
    hide ChainOk;
  }

  lemma {:induction false} SavesTheWhole(rules: Rules, c: Chain, r: Relay, s: seq<Block>, n: nat)
    requires ChainOk(c) && s == ChainFrom(StepTo(rules, c, r).blocks, Placed(c, r.block), n)
    requires SaveCount(rules, c, r) == n && s != [] && s[|s| - 1].height % BLOCK_DIFFICULTY_INTERVAL == 0
    ensures StepSaves(rules, c, r) == [s]
  {
    hide ChainFrom;
    hide StepTo;
    hide SaveCount;
    hide Placed;
  }

  lemma {:induction false} NothingToSave(blocks: Blocks, b: Block)
    ensures ChainFrom(blocks, b, 0) == []
  {
  }

  /** The waiting orphans that are higher than a block. */
  function Followers(orphans: Blocks, id: BlockId): set<BlockId> {
    set k | k in orphans && Depth(orphans[k].id) > Depth(id)
  }

  /** Going on with the successor that waited for a block leaves fewer orphans to go on with. */
  lemma {:induction false} FewerFollowers(before: Blocks, after: Blocks, relayed: Block, next: Block)
    requires relayed.id in before && before[relayed.id] == next && relayed.id !in after
    requires Depth(next.id) > Depth(relayed.id)
    requires forall k :: k in after ==> (k in before && after[k] == before[k]) || after[k].id == relayed.id
    ensures Followers(after, next.id) < Followers(before, relayed.id)
  {
    assert relayed.id in Followers(before, relayed.id);
    forall k | k in Followers(after, next.id)
      ensures k in Followers(before, relayed.id)
    {
    }
  }

  lemma {:induction false} StepOrphans(rules: Rules, c: Chain, r: Relay)
    requires ChainOk(c) && Relayable(r.block)
    ensures forall k :: k in StepTo(rules, c, r).orphans ==>
              (k in c.orphans && StepTo(rules, c, r).orphans[k] == c.orphans[k])
              || (k == r.block.prevBlock && StepTo(rules, c, r).orphans[k].id == r.block.id)
  {
    hide StoreOk;
    hide OrphansOk;
    hide At;
    hide Receive;
  }

  /** The next relay is in order, and there are fewer orphans for it to go on with. */
  lemma {:induction false} NextIsFewer(rules: Rules, c: Chain, r: Relay)
    requires ChainOk(c) && Relayable(r.block)
    ensures ChainOk(AfterStep(rules, c, r))
    ensures NextRelay(rules, c, r).Some? ==>
              var next := NextRelay(rules, c, r).value;
              && Relayable(next.block) && r.block.id in c.orphans && next.block == c.orphans[r.block.id]
              && Followers(AfterStep(rules, c, r).orphans, next.block.id) < Followers(c.orphans, r.block.id)
  {
    StepIsOk(rules, c, r);
    StepOrphans(rules, c, r);
    hide StoreOk;
    hide At;
    hide StepTo;
    hide Receive;
    if NextRelay(rules, c, r).Some? {
      var next := NextRelay(rules, c, r).value.block;
      assert next == c.orphans[r.block.id] && Depth(next.id) == Depth(r.block.id) + 1;
      FewerFollowers(c.orphans, AfterStep(rules, c, r).orphans, r.block, next);
    }
  }

  lemma {:induction false} StepSavesAre(rules: Rules, c: Chain, r: Relay)
    requires ChainOk(c) && Relayable(r.block)
    ensures ChainOk(StepTo(rules, c, r))
    ensures SaveCount(rules, c, r) > 0 ==>
              && Placed(c, r.block).id in StepTo(rules, c, r).blocks
              && StepTo(rules, c, r).blocks[Placed(c, r.block).id] == Placed(c, r.block)
    ensures SaveCount(rules, c, r) == 0 ==> StepSaves(rules, c, r) == []
  {
    StepIsOk(rules, c, r);
    hide At;
    hide ChainOk;
    hide Relayable;
  }

  lemma {:induction false} DroppedEndsHere(rules: Rules, c: Chain, r: Relay)
    requires ChainOk(c) && Relayable(r.block) && Receive(rules, c, r).Dropped?
    ensures AfterStep(rules, c, r) == StepTo(rules, c, r) == c && NextRelay(rules, c, r).None?
    ensures SaveCount(rules, c, r) == 0 && StepSaves(rules, c, r) == []
  {
    hide Receive;
  }

  /** What relaying gives after a safe step. */
  lemma {:induction false} RelaysOn(rules: Rules, c: Chain, r: Relay)
    requires ChainOk(c) && Relayable(r.block)
    ensures ChainOk(AfterStep(rules, c, r))
    ensures !IsSafe(rules, c, r) ==> !Relays(rules, c, r).ok
    ensures IsSafe(rules, c, r) && NextRelay(rules, c, r).None? ==>
              Relays(rules, c, r) == Relaying(true, AfterStep(rules, c, r), StepSaves(rules, c, r))
    ensures NextRelay(rules, c, r).None? ==>
              forall t, h :: RelayedHeight(rules, c, r, t, h) == StepHeight(rules, c, r, t, h)
    ensures NextRelay(rules, c, r).Some? ==>
              var after, next := AfterStep(rules, c, r), NextRelay(rules, c, r).value;
              && Relayable(next.block) && r.block.id in c.orphans && next.block == c.orphans[r.block.id]
              && Followers(after.orphans, next.block.id) < Followers(c.orphans, r.block.id)
              && (IsSafe(rules, c, r) ==>
                   && Relays(rules, c, r).ok == Relays(rules, after, next).ok
                   && Relays(rules, c, r).chain == Relays(rules, after, next).chain
                   && Relays(rules, c, r).saves == StepSaves(rules, c, r) + Relays(rules, after, next).saves)
              && forall t, h ::
                   RelayedHeight(rules, c, r, t, h) == RelayedHeight(rules, after, next, t, StepHeight(rules, c, r, t, h))
  {
    NextIsFewer(rules, c, r);
    hide ChainOk;
    hide AfterStep;
    hide NextRelay;
    hide StepSaves;
    hide StepHeight;
    hide IsSafe;
    hide Relayable;
    hide Followers;
  }

  // ---- A relayed block with the orphans that waited for it ----

  /** Where relaying leads to: the chain and what was saved, or an assertion that fails. */
  datatype Relaying = Relaying(ok: bool, chain: Chain, saves: seq<seq<Block>>)

  ghost function Relays(rules: Rules, c: Chain, r: Relay): Relaying
    requires ChainOk(c) && Relayable(r.block)
    decreases Followers(c.orphans, r.block.id)
  {
    NextIsFewer(rules, c, r);
    var saves, after := StepSaves(rules, c, r), AfterStep(rules, c, r);
    if !IsSafe(rules, c, r) then Relaying(false, c, [])
    else match NextRelay(rules, c, r)
      case None => Relaying(true, after, saves)
      case Some(next) =>
        var rest := Relays(rules, after, next);
        Relaying(rest.ok, rest.chain, saves + rest.saves)
  }

  /** The height of a transaction once the chain is reorganized from `tip` to `top`: what is
      above the join is unconfirmed, and if the chains meet the new branch confirms what it
      matches. */
  ghost function Reorganized(blocks: Blocks, tip: BlockId, top: BlockId, t: TxId, h: nat): nat
    requires StoreOk(blocks)
  {
    match Join(blocks, tip, top)
    case None => h
    case Some(floor) =>
      var unconfirmed := if h > floor then TX_UNCONFIRMED else h;
      if At(blocks, tip, floor).Some? then BranchHeight(blocks, top, floor, t, unconfirmed) else unconfirmed
  }

  /** Unconfirmed above the join, and confirmed by the lowest block of the new branch above it
      that matches the transaction. */
  lemma {:induction false} ReorganizedIs(blocks: Blocks, tip: BlockId, top: BlockId, t: TxId, h: nat)
    requires StoreOk(blocks) && Join(blocks, tip, top).Some?
    ensures var floor, r := Join(blocks, tip, top).value, Reorganized(blocks, tip, top, t, h);
            var meets := At(blocks, tip, floor).Some?;
            && (meets && (exists k: nat :: k > floor && MatchedAt(blocks, top, k, t)) ==>
                  r > floor && MatchedAt(blocks, top, r, t) && forall k: nat :: floor < k < r ==> !MatchedAt(blocks, top, k, t))
            && (!meets || (forall k: nat :: k > floor ==> !MatchedAt(blocks, top, k, t)) ==>
                  r == if h <= floor then h else TX_UNCONFIRMED)
  {
    var floor := Join(blocks, tip, top).value;
    BranchHeightIs(blocks, top, floor, t, if h > floor then TX_UNCONFIRMED else h);
    hide Join;
    hide At;
    hide BranchHeight;
    hide MatchedAt;
  }

  /** The height of a transaction after one step. */
  ghost function StepHeight(rules: Rules, c: Chain, r: Relay, t: TxId, h: nat): nat
    requires ChainOk(c) && Relayable(r.block)
  {
    StepIsOk(rules, c, r);
    var b := Placed(c, r.block);
    match Receive(rules, c, r)
    case Extends => if t in b.matched then b.height else h
    case Again => if OnMainChain(c, b) && t in b.matched then b.height else h
    case Fork => if b.height > c.last.height then Reorganized(StepTo(rules, c, r).blocks, c.last.id, b.id, t, h) else h
    case _ => h
  }

  ghost function RelayedHeight(rules: Rules, c: Chain, r: Relay, t: TxId, h: nat): nat
    requires ChainOk(c) && Relayable(r.block)
    decreases Followers(c.orphans, r.block.id)
  {
    NextIsFewer(rules, c, r);
    var mid := StepHeight(rules, c, r, t, h);
    match NextRelay(rules, c, r)
    case None => mid
    case Some(next) => RelayedHeight(rules, AfterStep(rules, c, r), next, t, mid)
  }

  /** Relaying keeps the state in order, never lets the tip or the estimate fall, and saves slices. */
  lemma {:induction false} RelaysKeep(rules: Rules, c: Chain, r: Relay)
    requires ChainOk(c) && Relayable(r.block)
    ensures var after := Relays(rules, c, r);
            && ChainOk(after.chain) && after.chain.last.height >= c.last.height
            && after.chain.estimatedHeight >= c.estimatedHeight
            && forall s :: s in after.saves ==> IsSlice(s)
    decreases Followers(c.orphans, r.block.id)
  {
    NextIsFewer(rules, c, r);
    SavesAreSlices(rules, c, r);
    StepGrows(rules, c, r);
    hide ChainOk;
    hide AfterStep;
    hide IsSlice;
    hide StepSaves;
    hide NextRelay;
    hide IsSafe;
    if NextRelay(rules, c, r).Some? {
      RelaysKeep(rules, AfterStep(rules, c, r), NextRelay(rules, c, r).value);
    }
  }

  lemma {:induction false} StepGrows(rules: Rules, c: Chain, r: Relay)
    requires ChainOk(c) && Relayable(r.block)
    ensures AfterStep(rules, c, r).last.height >= c.last.height
    ensures AfterStep(rules, c, r).estimatedHeight >= c.estimatedHeight
  {
    hide At;
  }

  // ---- What is admitted ----

  /** The block passed the tests of difficulty and checkpoints. */
  predicate Vetted(rules: Rules, id: BlockId) {
    rules.difficultyOk(id) && (Depth(id) in rules.checkpoints ==> rules.checkpoints[Depth(id)] == id)
  }

  /** Where there is a checkpoint, no other block is stored at its height. */
  predicate Checkpointed(rules: Rules, blocks: Blocks) {
    forall id :: id in blocks && Depth(id) in rules.checkpoints ==> rules.checkpoints[Depth(id)] == id
  }

  /** Every block of `after` was in `before` or is vetted. */
  predicate OnlyVettedJoin(rules: Rules, before: Blocks, after: Blocks) {
    forall id :: id in after ==> id in before || Vetted(rules, id)
  }

  /** What a step stores anew is the relayed block, on top of a stored one, vetted, with its
      transactions unless it is from long before the wallet, and while no filter update is pending.
      Up to the last checkpoint only the tip is built on, and while the peer is ahead nothing
      above the block after the tip is stored. */
  lemma {:induction false} StepAdmits(rules: Rules, c: Chain, r: Relay)
    requires ChainOk(c) && Relayable(r.block)
    ensures forall id :: id in AfterStep(rules, c, r).blocks && id !in c.blocks ==>
              && id == r.block.id && r.block.prevBlock in c.blocks && Vetted(rules, id) && !r.filterPending
              && (r.block.totalTx > 0 || r.block.timestamp + 295200 <= rules.earliestKeyTime)
              && (r.block.prevBlock == c.last.id || Depth(id) > rules.lastCheckpoint)
              && (c.last.height >= r.peerLastBlock || Depth(id) <= c.last.height + 1)
    ensures forall id :: id in c.blocks ==> id in AfterStep(rules, c, r).blocks
  {
    StoreAfter(rules, c, r);
    PlacedIsSaved(c, r.block);
    hide AfterStep;
    hide At;
  }

  /** The tip is left only for a higher block, which is the relayed one: one that extends it, or
      one of a fork from above the last checkpoint when the peer is not ahead or the fork just passed it. */
  lemma {:induction false} TipMovesUp(rules: Rules, c: Chain, r: Relay)
    requires ChainOk(c) && Relayable(r.block)
    ensures var tip := AfterStep(rules, c, r).last;
            tip.id != c.last.id ==>
              && tip.height > c.last.height && tip.id == r.block.id && Vetted(rules, tip.id)
              && (r.block.prevBlock == c.last.id || tip.height > rules.lastCheckpoint)
              && (c.last.height >= r.peerLastBlock || tip.height == c.last.height + 1)
    ensures Receive(rules, c, r).Extends? ==> AfterStep(rules, c, r).last.id == r.block.id
    ensures var b := Placed(c, r.block);
            Receive(rules, c, r).Fork? && b.height > c.last.height ==> AfterStep(rules, c, r).last.id == r.block.id
    ensures !Receive(rules, c, r).Dropped? && Placed(c, r.block).height != BLOCK_UNKNOWN_HEIGHT ==>
              AfterStep(rules, c, r).estimatedHeight >= Placed(c, r.block).height
  {
    PlacedIsSaved(c, r.block);
    hide At;
  }

  /** While an update of the filter is pending nothing changes. */
  lemma {:induction false} PendingFilterIgnores(rules: Rules, c: Chain, r: Relay)
    requires ChainOk(c) && Relayable(r.block) && r.filterPending
    ensures Relays(rules, c, r) == Relaying(true, c, [])
  {
    DroppedEndsHere(rules, c, r);
    hide StepTo;
    hide AfterStep;
    hide NextRelay;
    hide StepSaves;
  }

  /** A block that starts to wait is young if its parent is missing, and otherwise from a peer
      that is ahead. */
  lemma {:induction false} StartsWaiting(rules: Rules, c: Chain, r: Relay, k: BlockId)
    requires ChainOk(c) && Relayable(r.block)
    ensures var after := AfterStep(rules, c, r).orphans;
            k in after && (k !in c.orphans || after[k] != c.orphans[k]) ==>
              && k == r.block.prevBlock && after[k] == Placed(c, r.block) && !r.filterPending
              && (k !in c.blocks ==> r.block.timestamp + 302400 >= r.now)
              && (k in c.blocks ==> Vetted(rules, r.block.id) && r.peerLastBlock > c.last.height
                                    && after[k].height > c.last.height + 1)
  {
    PlacedIsSaved(c, r.block);
    WaitingIsRecent(rules, c, r);
    hide Receive;
    hide At;
    hide StoreOk;
    hide OrphansOk;
    hide Vetted;
  }

  lemma {:induction false} WaitingIsRecent(rules: Rules, c: Chain, r: Relay)
    requires ChainOk(c) && Relayable(r.block)
    ensures var rec := Receive(rules, c, r);
            && (rec.Awaited? ==> r.block.prevBlock !in c.blocks && r.block.timestamp + 302400 >= r.now && !r.filterPending)
            && (rec.Later? ==> r.block.prevBlock in c.blocks && Vetted(rules, r.block.id) && !r.filterPending
                               && r.peerLastBlock > c.last.height && Placed(c, r.block).height > c.last.height + 1)
  {
    PlacedIsSaved(c, r.block);
  }

  /** No waiting block is lost: one that stops waiting is relayed next, or is stored already. */
  lemma {:induction false} StopsWaiting(rules: Rules, c: Chain, r: Relay, k: BlockId)
    requires ChainOk(c) && Relayable(r.block) && k in c.orphans && k !in AfterStep(rules, c, r).orphans
    ensures NextRelay(rules, c, r) == Some(r.(block := c.orphans[k]))
            || (c.orphans[k].id == r.block.id && r.block.id in c.blocks)
  {
    hide At;
    hide Receive;
    hide OrphansOk;
    if Receive(rules, c, r).Again? {
      ReceivedAttaches(rules, c, r);
    }
  }

  lemma {:induction false} StepVets(rules: Rules, before: Blocks, c: Chain, r: Relay)
    requires ChainOk(c) && Relayable(r.block) && OnlyVettedJoin(rules, before, c.blocks)
    ensures OnlyVettedJoin(rules, before, AfterStep(rules, c, r).blocks)
  {
    StepAdmits(rules, c, r);
    hide AfterStep;
    hide Vetted;
  }

  lemma {:induction false} RelaysVet(rules: Rules, before: Blocks, c: Chain, r: Relay)
    requires ChainOk(c) && Relayable(r.block) && OnlyVettedJoin(rules, before, c.blocks)
    ensures OnlyVettedJoin(rules, before, Relays(rules, c, r).chain.blocks)
    decreases Followers(c.orphans, r.block.id)
  {
    StepVets(rules, before, c, r);
    NextIsFewer(rules, c, r);
    hide ChainOk;
    hide AfterStep;
    hide StepSaves;
    hide NextRelay;
    hide IsSafe;
    hide OnlyVettedJoin;
    if NextRelay(rules, c, r).Some? {
      RelaysVet(rules, before, AfterStep(rules, c, r), NextRelay(rules, c, r).value);
    }
  }

  /** Whatever is saved can be given back in any order. */
  lemma {:induction false} SavesCanBeGivenBack(rules: Rules, c: Chain, r: Relay, slice: seq<Block>, given: seq<Block>)
    requires ChainOk(c) && Relayable(r.block) && slice in Relays(rules, c, r).saves && multiset(given) == multiset(slice)
    ensures GivenBack(slice, given) && forall b :: b in given ==> Saved(b)
  {
    RelaysKeep(rules, c, r);
    hide Relays;
    hide Saved;
    forall b
      ensures b in given <==> b in slice
    {
      assert b in given <==> b in multiset(given);
    }
  }

  // ---- Runs ----

  /** A transaction message comes with the address chains as they are generated when it uses an address. */
  datatype Message =
    | BlockMessage(relay: Relay)
    | TxMessage(body: TxBody, verified: bool, syncing: bool, internal: seq<Pkh>, external: seq<Pkh>, now: nat)

  predicate AllRelayable(messages: seq<Message>) {
    forall m :: m in messages && m.BlockMessage? ==> Relayable(m.relay.block)
  }

  predicate AllBackedIn(holds: Contents, messages: seq<Message>) {
    forall m :: m in messages && m.BlockMessage? ==> Backed(holds, m.relay.block)
  }

  /** What the messages of a run claim to be in the blocks. */
  function Claimed(messages: seq<Message>): Contents {
    (id: BlockId, t: TxId) => exists m :: m in messages && m.BlockMessage? && m.relay.block.id == id && t in m.relay.block.matched
  }

  /** Nothing is demanded of the blocks of a run if what they claim counts as included. */
  lemma {:induction false} ClaimsAreBacked(messages: seq<Message>)
    ensures AllBackedIn(Claimed(messages), messages)
  {
    var holds := Claimed(messages);
    forall m, t | m in messages && m.BlockMessage? && t in m.relay.block.matched
      ensures holds(m.relay.block.id, t)
    {
    }
  }

  /** Where a run of messages leads to; the saves of the run are listed one after another. */
  ghost function Run(rules: Rules, c: Chain, messages: seq<Message>): Relaying
    requires ChainOk(c) && AllRelayable(messages)
    decreases |messages|
  {
    if messages == [] then Relaying(true, c, [])
    else match messages[0]
      case TxMessage(_, _, _, _, _, _) => Run(rules, c, messages[1..])
      case BlockMessage(relay) =>
        assert messages[0] in messages;
        RelaysKeep(rules, c, relay);
        var first := Relays(rules, c, relay);
        if !first.ok then first
        else
          var rest := Run(rules, first.chain, messages[1..]);
          Relaying(rest.ok, rest.chain, first.saves + rest.saves)
  }

  /** A run goes on from its first message. */
  lemma {:induction false} RunOn(rules: Rules, c: Chain, messages: seq<Message>)
    requires ChainOk(c) && AllRelayable(messages)
    ensures messages == [] ==> Run(rules, c, messages) == Relaying(true, c, [])
    ensures messages != [] && messages[0].TxMessage? ==>
              AllRelayable(messages[1..]) && Run(rules, c, messages) == Run(rules, c, messages[1..])
    ensures messages != [] && messages[0].BlockMessage? ==>
              && AllRelayable(messages[1..]) && Relayable(messages[0].relay.block)
              && var first := Relays(rules, c, messages[0].relay);
                && ChainOk(first.chain)
                && (!first.ok ==> !Run(rules, c, messages).ok)
                && (first.ok ==>
                      var rest := Run(rules, first.chain, messages[1..]);
                      Run(rules, c, messages) == Relaying(rest.ok, rest.chain, first.saves + rest.saves))
  {
    hide Relays;
    hide ChainOk;
    hide Relayable;
    if messages != [] && messages[0].BlockMessage? {
      assert messages[0] in messages;
      RelaysKeep(rules, c, messages[0].relay);
    }
  }

  lemma {:induction false} RunVets(rules: Rules, before: Blocks, c: Chain, messages: seq<Message>)
    requires ChainOk(c) && AllRelayable(messages) && OnlyVettedJoin(rules, before, c.blocks)
    ensures OnlyVettedJoin(rules, before, Run(rules, c, messages).chain.blocks)
    decreases |messages|
  {
    hide Relays;
    hide ChainOk;
    hide OnlyVettedJoin;
    if messages != [] {
      var next := c;
      if messages[0].BlockMessage? {
        assert messages[0] in messages;
        RelaysKeep(rules, c, messages[0].relay);
        RelaysVet(rules, before, c, messages[0].relay);
        next := Relays(rules, c, messages[0].relay).chain;
      }
      RunVets(rules, before, next, messages[1..]);
    }
  }

  /** In no run is a block stored that fails the difficulty test, or differs from the checkpoint
      at its height. */
  lemma {:induction false} RunsKeepCheckpoints(rules: Rules, c: Chain, messages: seq<Message>)
    requires ChainOk(c) && AllRelayable(messages)
    ensures OnlyVettedJoin(rules, c.blocks, Run(rules, c, messages).chain.blocks)
    ensures Checkpointed(rules, c.blocks) ==> Checkpointed(rules, Run(rules, c, messages).chain.blocks)
  {
    RunVets(rules, c.blocks, c, messages);
    hide Run;
    hide ChainOk;
  }

  // ---- Chains that go down to one block ----

  /** Every stored block from the height of `root` up is on a chain through `root`, which is not
      above the last checkpoint. Below it, blocks with a stored parent are not lower than where
      the chain of `root` ends. */
  ghost predicate Anchored(rules: Rules, c: Chain, root: BlockId) {
    && ChainOk(c) && Depth(root) <= c.last.height && Depth(root) <= rules.lastCheckpoint
    && Rooted(c.blocks, root)
    && forall id: BlockId :: id in c.blocks && Depth(id) < Depth(root) && id.prev in c.blocks ==>
         Reaches(c.blocks, root, Depth(id))
  }

  ghost predicate Rooted(blocks: Blocks, root: BlockId)
    requires StoreOk(blocks)
  {
    forall id :: id in blocks && Depth(id) >= Depth(root) ==> At(blocks, id, Depth(root)) == Some(root)
  }

  /** Storing a block on top of a stored one. */
  predicate Attaches(blocks: Blocks, b: Block) {
    && StoreOk(blocks) && Saved(b) && b.prevBlock == b.id.prev && b.prevBlock in blocks
  }

  lemma {:induction false} AttachingKeepsRooted(blocks: Blocks, b: Block, root: BlockId)
    requires Attaches(blocks, b) && Rooted(blocks, root) && (b.id in blocks || b.height > Depth(root))
    ensures StoreOk(blocks[b.id := b]) && Rooted(blocks[b.id := b], root)
  {
    var after := blocks[b.id := b];
    StoringExtends(blocks, b);
    forall id | id in after && Depth(id) >= Depth(root)
      ensures At(after, id, Depth(root)) == Some(root)
    {
      if id in blocks {
        ChainsSurvive(blocks, after, id, Depth(root));
      } else {
        ChainsSurvive(blocks, after, b.prevBlock, Depth(root));
      }
    }
  }

  lemma {:induction false} AttachingKeepsAnchored(rules: Rules, c: Chain, b: Block, root: BlockId)
    requires Anchored(rules, c, root) && Attaches(c.blocks, b) && (b.id in c.blocks || b.height > Depth(root))
    ensures StoreOk(c.blocks[b.id := b]) && Rooted(c.blocks[b.id := b], root)
    ensures forall id: BlockId :: id in c.blocks[b.id := b] && Depth(id) < Depth(root) && id.prev in c.blocks[b.id := b] ==>
              Reaches(c.blocks[b.id := b], root, Depth(id))
  {
    var after := c.blocks[b.id := b];
    AttachingKeepsRooted(c.blocks, b, root);
    StoringExtends(c.blocks, b);
    forall id: BlockId | id in after && Depth(id) < Depth(root) && id.prev in after
      ensures Reaches(after, root, Depth(id))
    {
      assert id in c.blocks && id.prev in c.blocks;
      var low: nat :| low <= Depth(id) && At(c.blocks, root, low).Some?;
      ChainsSurvive(c.blocks, after, root, low);
    }
  }

  lemma {:induction false} RootedReaches(blocks: Blocks, tip: BlockId, root: BlockId, h: nat)
    requires StoreOk(blocks) && At(blocks, tip, Depth(root)) == Some(root) && Reaches(blocks, root, h)
    ensures Reaches(blocks, tip, h)
  {
    var low: nat :| low <= h && At(blocks, root, low).Some?;
    assert low <= Depth(root);
    AtComposes(blocks, tip, Depth(root), low);
  }

  lemma {:induction false} RootedMeets(blocks: Blocks, tip: BlockId, top: BlockId, root: BlockId)
    requires StoreOk(blocks) && At(blocks, tip, Depth(root)) == Some(root) == At(blocks, top, Depth(root))
    ensures Meets(blocks, tip, top)
  {
    assert ForkAt(blocks, tip, top, Depth(root));
  }

  /** A received block that is stored is put on top of a stored one. */
  lemma {:induction false} ReceivedAttaches(rules: Rules, c: Chain, r: Relay)
    requires ChainOk(c) && Relayable(r.block)
    requires var rec := Receive(rules, c, r); rec.Extends? || rec.Again? || rec.Fork?
    ensures Attaches(c.blocks, Placed(c, r.block))
    ensures Receive(rules, c, r).Extends? ==> Placed(c, r.block).height == c.last.height + 1
    ensures Receive(rules, c, r).Fork? ==> Placed(c, r.block).height > rules.lastCheckpoint
    ensures Receive(rules, c, r).Again? ==> Placed(c, r.block).id in c.blocks
  {
  }

  /** In an anchored chain no walk runs out of blocks. */
  lemma {:induction false} AnchoredIsSafe(rules: Rules, c: Chain, r: Relay, root: BlockId)
    requires Anchored(rules, c, root) && Relayable(r.block)
    ensures IsSafe(rules, c, r)
  {
    var b, rec := Placed(c, r.block), Receive(rules, c, r);
    if rec.Again? || rec.Fork? {
      ReceivedAttaches(rules, c, r);
      AnchoredWalks(rules, c, b, root);
      if rec.Again? {
        AnchoredReaches(rules, c, b, root);
      }
    }
    hide Receive;
    hide StoreOk;
    hide Rooted;
    hide Reaches;
    hide Joins;
    hide Placed;
  }

  /** The store after a step is the store before or has one block more on top of a stored one. */
  lemma {:induction false} StoreAfter(rules: Rules, c: Chain, r: Relay)
    requires ChainOk(c) && Relayable(r.block)
    ensures var rec, after := Receive(rules, c, r), AfterStep(rules, c, r);
            if rec.Extends? || rec.Again? || rec.Fork?
            then after.blocks == c.blocks[Placed(c, r.block).id := Placed(c, r.block)]
            else after.blocks == c.blocks
  {
    hide Receive;
    hide StoreOk;
    hide At;
    hide Placed;
  }

  /** Every step keeps the chain anchored. */
  lemma {:induction false} AnchoredStep(rules: Rules, c: Chain, r: Relay, root: BlockId)
    requires Anchored(rules, c, root) && Relayable(r.block)
    ensures Anchored(rules, AfterStep(rules, c, r), root)
  {
    NextIsFewer(rules, c, r);
    StepGrows(rules, c, r);
    StoreAfter(rules, c, r);
    hide AfterStep;
    var b, rec := Placed(c, r.block), Receive(rules, c, r);
    if rec.Extends? || rec.Again? || rec.Fork? {
      ReceivedAttaches(rules, c, r);
      AttachingKeepsAnchored(rules, c, b, root);
    }
    hide Receive;
    hide StoreOk;
    hide OrphansOk;
    hide Rooted;
    hide Reaches;
    hide Placed;
  }

  lemma {:induction false} AnchoredReaches(rules: Rules, c: Chain, b: Block, root: BlockId)
    requires Anchored(rules, c, root) && Attaches(c.blocks, b) && b.id in c.blocks
    ensures Reaches(c.blocks, c.last.id, b.height)
  {
    assert At(c.blocks, c.last.id, Depth(root)) == Some(root);
    if b.height < Depth(root) {
      RootedReaches(c.blocks, c.last.id, root, b.height);
    }
  }

  lemma {:induction false} AnchoredWalks(rules: Rules, c: Chain, b: Block, root: BlockId)
    requires Anchored(rules, c, root) && Attaches(c.blocks, b) && (b.id in c.blocks || b.height > Depth(root))
    ensures b.height > Depth(root) ==> Joins(c, b)
  {
    var after := c.blocks[b.id := b];
    AttachingKeepsRooted(c.blocks, b, root);
    if b.height > Depth(root) {
      assert c.last.id in after && Depth(c.last.id) >= Depth(root);
      RootedMeets(after, c.last.id, b.id, root);
    }
  }

  lemma {:induction false} AnchoredRelays(rules: Rules, c: Chain, r: Relay, root: BlockId)
    requires Anchored(rules, c, root) && Relayable(r.block)
    ensures Relays(rules, c, r).ok && Anchored(rules, Relays(rules, c, r).chain, root)
    decreases Followers(c.orphans, r.block.id)
  {
    AnchoredIsSafe(rules, c, r, root);
    AnchoredStep(rules, c, r, root);
    NextIsFewer(rules, c, r);
    hide Anchored;
    hide AfterStep;
    hide StepSaves;
    hide NextRelay;
    hide IsSafe;
    if NextRelay(rules, c, r).Some? {
      AnchoredRelays(rules, AfterStep(rules, c, r), NextRelay(rules, c, r).value, root);
    }
  }

  /** In no run that starts from an anchored chain does a walk run out of stored blocks. */
  lemma {:induction false} AnchoredRun(rules: Rules, c: Chain, messages: seq<Message>, root: BlockId)
    requires Anchored(rules, c, root) && AllRelayable(messages)
    ensures Run(rules, c, messages).ok && Anchored(rules, Run(rules, c, messages).chain, root)
    decreases |messages|
  {
    hide Relays;
    hide ChainOk;
    if messages != [] {
      var next := c;
      if messages[0].BlockMessage? {
        assert messages[0] in messages;
        AnchoredRelays(rules, c, messages[0].relay, root);
        next := Relays(rules, c, messages[0].relay).chain;
      }
      AnchoredRun(rules, next, messages[1..], root);
    }
  }

  /** A store of checkpoints alone, none the parent of another, with the tip at the last of
      them: what a wallet starts from that is younger than all checkpoints. */
  lemma {:induction false} FreshIsAnchored(rules: Rules, c: Chain)
    requires ChainOk(c) && c.last.height == rules.lastCheckpoint
    requires forall id: BlockId :: id in c.blocks ==> id == c.last.id || Depth(id) < c.last.height
    requires forall id: BlockId :: id in c.blocks ==> id.prev !in c.blocks
    ensures Anchored(rules, c, c.last.id)
  {
  }

  // ---- A run that fails ----

  /** A block with `n` blocks below it. */
  function Deep(n: nat): (id: BlockId)
    ensures id.BlockId? && id.nonce == 1
  {
    BlockId(if n == 0 then NoBlock else Deep(n - 1), [], 1)
  }

  lemma {:induction false} DeepIs(n: nat)
    ensures Depth(Deep(n)) == n && (n > 0 ==> Deep(n).prev == Deep(n - 1))
  {
    if n > 0 {
      DeepIs(n - 1);
    }
  }

  const CHECKPOINT: Block := Block(BlockId(NoBlock, [], 0), NoBlock, 0, 0, 1, [])
  const ONE_CHECKPOINT: Rules := Rules(map[0 := CHECKPOINT.id], 0, 0, (id: BlockId) => true)
  const SIDE: Block := Block(BlockId(CHECKPOINT.id, [], 2), CHECKPOINT.id, BLOCK_UNKNOWN_HEIGHT, 0, 1, [])

  function SavedTip(): Block {
    Block(Deep(2016), Deep(2015), 2016, 0, 1, [])
  }

  /** The chain of a restored block above the last checkpoint, not linked to it. */
  function RestoredAbove(): Chain {
    Chain(map[CHECKPOINT.id := CHECKPOINT, SavedTip().id := SavedTip()], map[], SavedTip(), None, 0)
  }

  lemma {:induction false} RestoredIsOk()
    ensures Saved(SavedTip()) && IsSlice([SavedTip()]) && ChainOk(RestoredAbove()) && Relayable(SIDE)
    ensures Deep(2015) != SavedTip().id && SavedTip().prevBlock == Deep(2015)
  {
    DeepIs(2016);
    DeepIs(2015);
    hide Deep;
    assert Depth(CHECKPOINT.id) == 0 && Depth(SIDE.id) == 1;
  }

  /** Relaying a block on top of the checkpoint twice: it is stored as a fork, and then the walk
      down the main chain to its height runs out of stored blocks. */
  lemma {:induction false} RelayedTwiceFails()
    ensures Relayable(SIDE) && ChainOk(RestoredAbove())
    ensures var relay := BlockMessage(Relay(SIDE, 0, false, 0));
            AllRelayable([relay, relay]) && !Run(ONE_CHECKPOINT, RestoredAbove(), [relay, relay]).ok
  {
    RestoredIsOk();
    var c, r := RestoredAbove(), Relay(SIDE, 0, false, 0);
    hide Deep;
    FirstTime(c, r);
    SecondTime(c, r);
    var m := BlockMessage(r);
    assert [m, m][1..] == [m];
    hide AfterStep;
    hide StepSaves;
    hide IsSafe;
    hide NextRelay;
    hide ChainOk;
    hide Relayable;
    RelaysKeep(ONE_CHECKPOINT, c, r);
    assert Relays(ONE_CHECKPOINT, c, r).chain == AfterStep(ONE_CHECKPOINT, c, r);
    RelaysKeep(ONE_CHECKPOINT, AfterStep(ONE_CHECKPOINT, c, r), r);
    assert !Relays(ONE_CHECKPOINT, AfterStep(ONE_CHECKPOINT, c, r), r).ok;
  }

  /** A fork below the height of the main chain is only stored. */
  lemma {:induction false} LowForkStep(rules: Rules, c: Chain, r: Relay)
    requires ChainOk(c) && Relayable(r.block) && Receive(rules, c, r).Fork? && c.orphans == map[]
    requires Placed(c, r.block).height <= c.last.height
    ensures IsSafe(rules, c, r) && NextRelay(rules, c, r).None?
    ensures AfterStep(rules, c, r).blocks == c.blocks[r.block.id := Placed(c, r.block)]
    ensures AfterStep(rules, c, r).last == c.last
  {
    hide Receive;
    hide ChainOk;
    hide Relayable;
    hide At;
  }

  lemma {:induction false} FirstIsFork(c: Chain, r: Relay)
    requires c == RestoredAbove() && r == Relay(SIDE, 0, false, 0)
    ensures Placed(c, SIDE) == SIDE.(height := 1) && Receive(ONE_CHECKPOINT, c, r).Fork?
  {
    hide Deep;
    hide Route;
    assert Placed(c, SIDE) == SIDE.(height := 1);
    assert Route(ONE_CHECKPOINT, c, SIDE.(height := 1), 0).Fork? by { RoutedToFork(c); }
  }

  lemma {:induction false} RoutedToFork(c: Chain)
    requires c == RestoredAbove()
    ensures Route(ONE_CHECKPOINT, c, SIDE.(height := 1), 0).Fork?
  {
    hide Deep;
  }

  lemma {:induction false} FirstTime(c: Chain, r: Relay)
    requires c == RestoredAbove() && r == Relay(SIDE, 0, false, 0) && ChainOk(c) && Relayable(SIDE)
    ensures IsSafe(ONE_CHECKPOINT, c, r) && NextRelay(ONE_CHECKPOINT, c, r).None?
    ensures AfterStep(ONE_CHECKPOINT, c, r).blocks == c.blocks[SIDE.id := SIDE.(height := 1)]
    ensures AfterStep(ONE_CHECKPOINT, c, r).last == c.last && ChainOk(AfterStep(ONE_CHECKPOINT, c, r))
  {
    NextIsFewer(ONE_CHECKPOINT, c, r);
    FirstIsFork(c, r);
    assert c.orphans == map[] && c.last.height == 2016;
    hide *;
    LowForkStep(ONE_CHECKPOINT, c, r);
  }

  lemma {:induction false} SecondTime(c: Chain, r: Relay)
    requires c == RestoredAbove() && r == Relay(SIDE, 0, false, 0) && Relayable(SIDE)
    requires Deep(2015) != SavedTip().id && SavedTip().prevBlock == Deep(2015) && Depth(SavedTip().id) == 2016
    requires ChainOk(AfterStep(ONE_CHECKPOINT, c, r)) && ChainOk(c)
    requires AfterStep(ONE_CHECKPOINT, c, r).blocks == c.blocks[SIDE.id := SIDE.(height := 1)]
    requires AfterStep(ONE_CHECKPOINT, c, r).last == c.last
    ensures !IsSafe(ONE_CHECKPOINT, AfterStep(ONE_CHECKPOINT, c, r), r)
  {
    hide Deep;
    hide AfterStep;
    var d := AfterStep(ONE_CHECKPOINT, c, r);
    assert Placed(d, SIDE) == SIDE.(height := 1);
    assert Receive(ONE_CHECKPOINT, d, r).Again?;
    hide ChainOk;
    forall low: nat | low <= 1
      ensures At(d.blocks, d.last.id, low).None?
    {
      assert d.blocks[d.last.id].prevBlock !in d.blocks;
    }
  }
}
