/** Slices of a chain that are saved and given back: how they are cut, and how the chain is
    rebuilt from them in whatever order their blocks come. */
module SavedBlocks {
  import opened Wrappers
  import opened BlockStore

  /** Orphans are indexed by the block they wait for; the height may be known from an earlier attempt. */
  predicate OrphansOk(orphans: Blocks) {
    forall k :: k in orphans ==>
      Sound(orphans[k]) && orphans[k].prevBlock == k
      && (orphans[k].height == BLOCK_UNKNOWN_HEIGHT || orphans[k].height == Depth(orphans[k].id))
  }

  predicate Linked(slice: seq<Block>) {
    forall i :: 0 <= i < |slice| - 1 ==> slice[i].prevBlock == slice[i + 1].id && slice[i].height == slice[i + 1].height + 1
  }

  /** The first `n` blocks of the chain from `b` down, or all that are stored. */
  function ChainFrom(blocks: Blocks, b: Block, n: nat): seq<Block>
    decreases n
  {
    if n == 0 then []
    else [b] + match Parent(blocks, b) case Some(p) => ChainFrom(blocks, p, n - 1) case None => []
  }

  lemma {:induction false} OneMoreLinked(b: Block, rest: seq<Block>)
    requires Linked(rest) && (rest != [] ==> b.prevBlock == rest[0].id && b.height == rest[0].height + 1)
    ensures Linked([b] + rest)
  {
  }

  lemma {:induction false} ChainFromIsLinked(blocks: Blocks, b: Block, n: nat)
    requires StoreOk(blocks) && b.id in blocks && blocks[b.id] == b
    ensures Linked(ChainFrom(blocks, b, n)) && (n > 0 ==> ChainFrom(blocks, b, n) != [] && ChainFrom(blocks, b, n)[0] == b)
    decreases n
  {
    hide StoreOk;
    hide At;
    if n > 0 {
      var rest: seq<Block> := [];
      if Parent(blocks, b).Some? {
        ParentIsBelow(blocks, b);
        rest := ChainFrom(blocks, Parent(blocks, b).value, n - 1);
        ChainFromIsLinked(blocks, Parent(blocks, b).value, n - 1);
      }
      OneMoreLinked(b, rest);
    }
  }

  /** One more block of the chain. */
  lemma {:induction false} ChainFromGrows(blocks: Blocks, b: Block, n: nat)
    ensures var s := ChainFrom(blocks, b, n);
            ChainFrom(blocks, b, n + 1) ==
            if |s| < n then s
            else if n == 0 then [b]
            else s + match Parent(blocks, s[n - 1]) case Some(p) => [p] case None => []
    ensures |ChainFrom(blocks, b, n)| <= n
    decreases n
  {
    if n > 0 && Parent(blocks, b).Some? {
      ChainFromGrows(blocks, Parent(blocks, b).value, n - 1);
    }
  }

  // ---- Saved blocks ----

  /** A saved block carries its height. Its link is missing when it was a checkpoint. */
  predicate Saved(b: Block) {
    Sound(b) && b.height == Depth(b.id)
  }

  /** A slice of a chain from its tip down to a difficulty transition. */
  predicate IsSlice(slice: seq<Block>) {
    && slice != [] && Linked(slice) && slice[|slice| - 1].height % BLOCK_DIFFICULTY_INTERVAL == 0
    && forall b :: b in slice ==> Saved(b)
  }

  /** `saved` holds the blocks of a slice, in any order. */
  ghost predicate GivenBack(slice: seq<Block>, saved: seq<Block>) {
    IsSlice(slice) && forall b :: b in saved <==> b in slice
  }

  lemma {:induction false} SliceHeights(slice: seq<Block>, i: nat)
    requires Linked(slice) && i < |slice|
    ensures slice[i].height == slice[0].height - i
  {
    if i > 0 {
      SliceHeights(slice, i - 1);
    }
  }

  /** A block's link is missing or names its parent, which in a slice only the last may lack. */
  lemma {:induction false} LinkInSlice(slice: seq<Block>, k: nat)
    requires Linked(slice) && k < |slice| && (forall x :: x in slice ==> Saved(x))
    ensures k < |slice| - 1 ==> slice[k].prevBlock != NoBlock
    ensures slice[k].prevBlock != NoBlock ==>
              slice[k].id.BlockId? && slice[k].prevBlock == slice[k].id.prev && Depth(slice[k].id) == Depth(slice[k].prevBlock) + 1
  {
    assert slice[k] in slice;
    if k < |slice| - 1 {
      assert slice[k + 1] in slice;
    }
  }

  /** In a slice, the successor of a block is the only one that names it. */
  lemma {:induction false} SuccessorInSlice(slice: seq<Block>, b: Block, m: nat)
    requires Linked(slice) && b in slice && m < |slice| && (forall x :: x in slice ==> Saved(x))
    ensures b.prevBlock == slice[m].id ==> m > 0 && b == slice[m - 1]
    ensures b.prevBlock == slice[m].prevBlock ==> b == slice[m]
  {
    var k :| 0 <= k < |slice| && slice[k] == b;
    SliceHeights(slice, k);
    SliceHeights(slice, m);
    LinkInSlice(slice, k);
    LinkInSlice(slice, m);
    assert slice[m] in slice;
  }

  /** Storing a block keeps the store in order, whatever is known of its parent. */
  lemma {:induction false} StoringKeepsOk(blocks: Blocks, b: Block)
    requires StoreOk(blocks) && Saved(b)
    ensures StoreOk(blocks[b.id := b])
  {
  }

  /** Files the saved blocks as orphans and finds the last transition block among them. */
  method FileSaved(saved: seq<Block>) returns (orphans: Blocks, block: Option<Block>)
    requires forall b :: b in saved ==> Saved(b)
    ensures OrphansOk(orphans)
    ensures forall k :: k in orphans ==> orphans[k] in saved
    ensures forall b :: b in saved ==> b.prevBlock in orphans
    ensures block.Some? ==> block.value in saved && block.value.height % BLOCK_DIFFICULTY_INTERVAL == 0
    ensures forall b :: b in saved && b.height % BLOCK_DIFFICULTY_INTERVAL == 0 ==>
              block.Some? && block.value.height >= b.height
  {
    orphans, block := map[], None;
    var i := 0;
    while i < |saved|
      invariant 0 <= i <= |saved|
      invariant OrphansOk(orphans)
      invariant forall k :: k in orphans ==> orphans[k] in saved
      invariant forall j :: 0 <= j < i ==> saved[j].prevBlock in orphans
      invariant block.Some? ==> block.value in saved && block.value.height % BLOCK_DIFFICULTY_INTERVAL == 0
      invariant forall j :: 0 <= j < i && saved[j].height % BLOCK_DIFFICULTY_INTERVAL == 0 ==>
                  block.Some? && block.value.height >= saved[j].height
    {
      var b := saved[i];
      assert b in saved;
      orphans := orphans[b.prevBlock := b];
      if b.height % BLOCK_DIFFICULTY_INTERVAL == 0 && (block.None? || b.height > block.value.height) {
        block := Some(b);
      }
      i := i + 1;
    }
  }

  /** The chain is stored from the last transition block of the slice up to its tip. */
  predicate Rebuilt(blocks: Blocks, slice: seq<Block>, from: nat) {
    && from < |slice| && slice[from].height % BLOCK_DIFFICULTY_INTERVAL == 0
    && (forall k :: 0 <= k < from ==> slice[k].height % BLOCK_DIFFICULTY_INTERVAL != 0)
    && StoredBetween(blocks, slice, 0, from + 1)
  }

  predicate StoredBetween(blocks: Blocks, slice: seq<Block>, i: nat, j: nat)
    requires j <= |slice|
  {
    forall k :: i <= k < j ==> slice[k].id in blocks && blocks[slice[k].id] == slice[k]
  }

  /** How far the walk back to the tip of a slice given back has come. */
  ghost predicate Climbing(slice: seq<Block>, saved: seq<Block>, blocks: Blocks, orphans: Blocks, block: Option<Block>,
                           last: Block, m: nat, from: nat)
  {
    GivenBack(slice, saved) ==>
      && m <= from < |slice| && StoredBetween(blocks, slice, if block.Some? then m + 1 else 0, from + 1)
      && if block.Some? then InSlice(slice, m, orphans, block.value) else last == slice[0]
  }

  lemma {:induction false} Climbs(slice: seq<Block>, saved: seq<Block>, blocks: Blocks, orphans: Blocks, b: Block, last: Block,
                                  m: nat, from: nat)
    requires Climbing(slice, saved, blocks, orphans, Some(b), last, m, from)
    requires (forall x :: x in saved ==> Saved(x)) && OrphansOk(orphans) && forall k :: k in orphans ==> orphans[k] in saved
    ensures var left := orphans - {b.prevBlock};
            Climbing(slice, saved, blocks[b.id := b], left, if b.id in left then Some(left[b.id]) else None,
                     b, if m > 0 then m - 1 else 0, from)
  {
    if GivenBack(slice, saved) {
      StoringOneMore(blocks, slice, saved, m, from);
      NextInSlice(slice, saved, m, orphans, orphans - {b.prevBlock});
    }
  }

  /** Rebuilds the chain from saved blocks. It stops whatever is given to it, and leads back to
      the tip of a saved slice whatever order its blocks come in. */
  method Restore(blocks0: Blocks, last0: Block, saved: seq<Block>, ghost slice: seq<Block>)
    returns (blocks: Blocks, orphans: Blocks, last: Block, ghost from: nat)
    requires StoreOk(blocks0) && last0.id in blocks0 && blocks0[last0.id] == last0
    requires forall b :: b in saved ==> Saved(b)
    ensures StoreOk(blocks) && OrphansOk(orphans) && last.id in blocks && blocks[last.id] == last
    ensures GivenBack(slice, saved) ==> last == slice[0] && Rebuilt(blocks, slice, from)
    ensures saved == [] ==> blocks == blocks0 && last == last0 && orphans == map[]
  {
    var block: Option<Block>;
    orphans, block := FileSaved(saved);
    blocks, last := blocks0, last0;
    from := 0;
    if GivenBack(slice, saved) {
      from := FirstInSlice(slice, saved, orphans, block);
    }
    ghost var m := from;
    assert Climbing(slice, saved, blocks, orphans, block, last, m, from);
    hide Climbing;
    while block.Some?
      invariant StoreOk(blocks) && OrphansOk(orphans) && last.id in blocks && blocks[last.id] == last
      invariant forall k :: k in orphans ==> orphans[k] in saved
      invariant block.Some? ==> block.value in saved && block.value.prevBlock in orphans
      invariant Climbing(slice, saved, blocks, orphans, block, last, m, from)
      invariant saved == [] ==> block.None? && blocks == blocks0 && last == last0 && orphans == map[]
      decreases |orphans|, block.Some?
    {
      Climbs(slice, saved, blocks, orphans, block.value, last, m, from);
      last := block.value;
      blocks, orphans, block := Attach(blocks, orphans, saved, last);
      m := if m > 0 then m - 1 else 0;
    }
    Climbed(slice, saved, blocks, orphans, last, m, from);
  }

  lemma {:induction false} Climbed(slice: seq<Block>, saved: seq<Block>, blocks: Blocks, orphans: Blocks, last: Block, m: nat, from: nat)
    requires Climbing(slice, saved, blocks, orphans, None, last, m, from)
    ensures GivenBack(slice, saved) ==> from < |slice| && last == slice[0] && StoredBetween(blocks, slice, 0, from + 1)
  {
  }

  lemma {:induction false} StoringOneMore(blocks: Blocks, slice: seq<Block>, saved: seq<Block>, m: nat, from: nat)
    requires GivenBack(slice, saved) && m <= from < |slice| && StoredBetween(blocks, slice, m + 1, from + 1)
    ensures StoredBetween(blocks[slice[m].id := slice[m]], slice, m, from + 1)
  {
    forall k | m < k <= from
      ensures slice[k].id != slice[m].id
    {
      SliceHeights(slice, k);
      SliceHeights(slice, m);
      assert slice[k] in slice && slice[m] in slice;
    }
  }

  /** One turn of the rebuilding loop: stores `b` and looks up the orphan that waits for it. */
  method Attach(blocks0: Blocks, orphans0: Blocks, ghost saved: seq<Block>, b: Block)
    returns (blocks: Blocks, orphans: Blocks, next: Option<Block>)
    requires StoreOk(blocks0) && OrphansOk(orphans0) && Saved(b) && b.prevBlock in orphans0
    requires forall k :: k in orphans0 ==> orphans0[k] in saved
    ensures StoreOk(blocks) && OrphansOk(orphans) && blocks == blocks0[b.id := b]
    ensures orphans == orphans0 - {b.prevBlock} && |orphans| < |orphans0|
    ensures forall k :: k in orphans ==> orphans[k] in saved
    ensures next == if b.id in orphans then Some(orphans[b.id]) else None
    ensures next.Some? ==> next.value in saved && next.value.prevBlock in orphans
  {
    StoringKeepsOk(blocks0, b);
    blocks := blocks0[b.id := b];
    orphans := orphans0 - {b.prevBlock};
    assert orphans.Keys == orphans0.Keys - {b.prevBlock};
    next := if b.id in orphans then Some(orphans[b.id]) else None;
  }

  /** The walk back to the tip has reached `slice[m]`; what is above it still waits. */
  ghost predicate InSlice(slice: seq<Block>, m: nat, orphans: Blocks, b: Block) {
    && m < |slice| && b == slice[m]
    && forall k :: 0 <= k <= m ==> slice[k].prevBlock in orphans && orphans[slice[k].prevBlock] == slice[k]
  }

  lemma {:induction false} FirstInSlice(slice: seq<Block>, saved: seq<Block>, orphans: Blocks, block: Option<Block>) returns (m: nat)
    requires GivenBack(slice, saved) && OrphansOk(orphans) && forall b :: b in saved ==> Saved(b)
    requires forall k :: k in orphans ==> orphans[k] in saved
    requires forall b :: b in saved ==> b.prevBlock in orphans
    requires block.Some? ==> block.value in saved && block.value.height % BLOCK_DIFFICULTY_INTERVAL == 0
    requires forall b :: b in saved && b.height % BLOCK_DIFFICULTY_INTERVAL == 0 ==>
               block.Some? && block.value.height >= b.height
    ensures block.Some? && InSlice(slice, m, orphans, block.value)
    ensures slice[m].height % BLOCK_DIFFICULTY_INTERVAL == 0
    ensures forall k :: 0 <= k < m ==> slice[k].height % BLOCK_DIFFICULTY_INTERVAL != 0
  {
    assert slice[|slice| - 1] in saved;
    m :| 0 <= m < |slice| && slice[m] == block.value;
    forall k | 0 <= k < m
      ensures slice[k].height % BLOCK_DIFFICULTY_INTERVAL != 0
    {
      SliceHeights(slice, k);
      SliceHeights(slice, m);
      assert slice[k] in saved;
    }
    forall k | 0 <= k <= m
      ensures slice[k].prevBlock in orphans && orphans[slice[k].prevBlock] == slice[k]
    {
      assert slice[k] in saved;
      SuccessorInSlice(slice, orphans[slice[k].prevBlock], k);
    }
  }

  /** Taking `slice[m]` out of the orphans leads on to the block above it, or ends at the tip. */
  lemma {:induction false} NextInSlice(slice: seq<Block>, saved: seq<Block>, m: nat, before: Blocks, after: Blocks)
    requires GivenBack(slice, saved) && (forall b :: b in saved ==> Saved(b))
    requires m < |slice| && InSlice(slice, m, before, slice[m]) && OrphansOk(before)
    requires forall k :: k in before ==> before[k] in saved
    requires after == before - {slice[m].prevBlock}
    ensures m > 0 ==> slice[m].id in after && InSlice(slice, m - 1, after, after[slice[m].id])
    ensures m == 0 ==> slice[0].id !in after
  {
    forall x | x in slice
      ensures Saved(x)
    {
    }
    if m > 0 {
      KeepsOthers(slice, m, before, after);
    } else if slice[0].id in after {
      SuccessorInSlice(slice, after[slice[0].id], 0);
    }
  }

  /** Taking `slice[m]` out of the orphans leaves the blocks above it there. */
  lemma {:induction false} KeepsOthers(slice: seq<Block>, m: nat, before: Blocks, after: Blocks)
    requires slice != [] && Linked(slice) && (forall x :: x in slice ==> Saved(x))
    requires 0 < m < |slice| && after == before - {slice[m].prevBlock}
    requires forall k :: 0 <= k <= m ==> slice[k].prevBlock in before && before[slice[k].prevBlock] == slice[k]
    ensures forall k :: 0 <= k < m ==> slice[k].prevBlock in after && after[slice[k].prevBlock] == slice[k]
    ensures slice[m].id in after && after[slice[m].id] == slice[m - 1]
  {
    forall k | 0 <= k < m
      ensures slice[k].prevBlock != slice[m].prevBlock
    {
      SliceHeights(slice, k);
      SliceHeights(slice, m);
      SuccessorInSlice(slice, slice[k], m);
    }
    assert slice[m - 1].prevBlock == slice[m].id;
  }

  /** Asking for more blocks than the chain has gives all of them. */
  lemma {:induction false} ChainIsCut(blocks: Blocks, b: Block, i: nat, n: nat)
    requires i <= n && |ChainFrom(blocks, b, i)| == i
    requires i == n || (i > 0 && Parent(blocks, ChainFrom(blocks, b, i)[i - 1]).None?)
    ensures ChainFrom(blocks, b, n) == ChainFrom(blocks, b, i)
    decreases i
  {
    if i < n {
      var p := Parent(blocks, b);
      if p.Some? {
        assert ChainFrom(blocks, b, i) == [b] + ChainFrom(blocks, p.value, i - 1);
        assert i > 1 ==> ChainFrom(blocks, b, i)[i - 1] == ChainFrom(blocks, p.value, i - 1)[i - 2];
        ChainIsCut(blocks, p.value, i - 1, n - 1);
      }
    }
  }

  /** No block of the slice from position `from` down is at a difficulty transition. */
  predicate NoTransition(slice: seq<Block>, from: nat) {
    forall k :: from <= k < |slice| ==> slice[k].height % BLOCK_DIFFICULTY_INTERVAL != 0
  }

  lemma {:induction false} StartsAt(low: nat, d: nat, j: nat)
    requires low % BLOCK_DIFFICULTY_INTERVAL == j && d <= BLOCK_DIFFICULTY_INTERVAL - j
    ensures (low + d) % BLOCK_DIFFICULTY_INTERVAL == if d == BLOCK_DIFFICULTY_INTERVAL - j then 0 else j + d
  {
  }

  /** Cutting a slice whose lowest height is `j` past a transition down to the next transition. */
  lemma {:induction false} TrimmedStartsAtTransition(slice: seq<Block>, cut: nat, j: nat)
    requires slice != [] && Linked(slice) && 0 < j < BLOCK_DIFFICULTY_INTERVAL
    requires slice[|slice| - 1].height % BLOCK_DIFFICULTY_INTERVAL == j
    requires cut == if |slice| > BLOCK_DIFFICULTY_INTERVAL - j then BLOCK_DIFFICULTY_INTERVAL - j else |slice|
    ensures Linked(slice[..|slice| - cut])
    ensures cut < |slice| ==> slice[|slice| - cut - 1].height % BLOCK_DIFFICULTY_INTERVAL == 0
    ensures NoTransition(slice, |slice| - cut)
  {
    var low := slice[|slice| - 1].height;
    SliceHeights(slice, |slice| - 1);
    forall k | |slice| - cut <= k < |slice|
      ensures slice[k].height % BLOCK_DIFFICULTY_INTERVAL != 0
    {
      SliceHeights(slice, k);
      StartsAt(low, |slice| - 1 - k, j);
    }
    if cut < |slice| {
      SliceHeights(slice, |slice| - cut - 1);
      StartsAt(low, cut, j);
    }
  }

  /** As much of a slice as ends at a difficulty transition. */
  function DownToTransition(s: seq<Block>): (r: seq<Block>)
    ensures r <= s && (r != [] ==> r[|r| - 1].height % BLOCK_DIFFICULTY_INTERVAL == 0)
    ensures NoTransition(s, |r|)
  {
    if s == [] || s[|s| - 1].height % BLOCK_DIFFICULTY_INTERVAL == 0 then s
    else DownToTransition(s[..|s| - 1])
  }

  lemma {:induction false} CutIsUnique(s: seq<Block>, r: seq<Block>)
    requires r <= s && NoTransition(s, |r|) && (r != [] ==> r[|r| - 1].height % BLOCK_DIFFICULTY_INTERVAL == 0)
    ensures r == DownToTransition(s)
  {
    if s != [] && |r| < |s| {
      assert s[|s| - 1].height % BLOCK_DIFFICULTY_INTERVAL != 0;
      CutIsUnique(s[..|s| - 1], r);
    }
  }

  /** Leaving off as many blocks as the lowest is past a transition short of the next is cutting
      down to the next transition. */
  lemma {:induction false} TrimIsCut(s: seq<Block>, j: nat, cut: nat)
    requires Linked(s) && (s == [] ==> j == 0) && (s != [] ==> j == s[|s| - 1].height % BLOCK_DIFFICULTY_INTERVAL)
    requires cut == if j == 0 then 0
                    else if |s| > BLOCK_DIFFICULTY_INTERVAL - j then BLOCK_DIFFICULTY_INTERVAL - j else |s|
    ensures cut <= |s| && s[..|s| - cut] == DownToTransition(s)
  {
    if j > 0 {
      TrimmedStartsAtTransition(s, cut, j);
    }
    hide Linked;
    CutIsUnique(s, s[..|s| - cut]);
  }

  /** The blocks of a stored chain are what can be given back. */
  lemma {:induction false} ChainIsSaved(blocks: Blocks, b: Block, n: nat)
    requires StoreOk(blocks) && b.id in blocks && blocks[b.id] == b
    ensures forall x :: x in ChainFrom(blocks, b, n) ==> Saved(x)
    decreases n
  {
    if n > 0 && Parent(blocks, b).Some? {
      ChainIsSaved(blocks, Parent(blocks, b).value, n - 1);
    }
  }

  lemma {:induction false} PrefixIsLinked(s: seq<Block>, r: seq<Block>)
    requires Linked(s) && r <= s
    ensures Linked(r) && forall x :: x in r ==> x in s
  {
  }

  /** What is saved of a chain is a slice with its tip, or nothing. */
  lemma {:induction false} CutIsSlice(blocks: Blocks, b: Block, n: nat)
    requires StoreOk(blocks) && b.id in blocks && blocks[b.id] == b
    ensures var s := DownToTransition(ChainFrom(blocks, b, n)); s != [] ==> IsSlice(s) && s[0] == b
  {
    hide StoreOk;
    hide Saved;
    hide ChainFrom;
    hide Linked;
    ChainFromIsLinked(blocks, b, n);
    ChainIsSaved(blocks, b, n);
    PrefixIsLinked(ChainFrom(blocks, b, n), DownToTransition(ChainFrom(blocks, b, n)));
    hide DownToTransition;
    ChainFromGrows(blocks, b, n);
  }
}
