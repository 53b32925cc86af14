/** The partial Merkle trees of BRMerkleBlock.c (BIP37, "Partial Merkle branch format").

    The double SHA-256 is modelled as an ideal hash: hashing two hashes gives their pair,
    which is never zero and differs whenever one of the two differs. */
module Merkle {
  import opened Wrappers

  datatype Hash =
    | Zero
    | Digest(n: nat)
    | Pair(left: Hash, right: Hash)

  const SIZE_MAX: nat := 0xFFFF_FFFF_FFFF_FFFF

  /** The part of a merkleblock message the walkers read; flag bits are packed eight to a byte,
      least significant first. */
  datatype MerkleBlock = MerkleBlock(totalTx: nat, hashes: seq<Hash>, flags: seq<bv8>) {
    /** The tree depth is computed in a signed 32-bit integer, and an index of SIZE_MAX must
        lie beyond every hash. */
    predicate Valid() {
      totalTx < 0x8000_0000 && |hashes| < SIZE_MAX
    }
  }

  // ---- The depth of the tree ----

  /** How often `n` leaves must be halved, rounding up, to leave one. */
  function CeilLog2(n: nat): nat {
    if n <= 1 then 0 else CeilLog2((n + 1) / 2) + 1
  }

  function BitAnd(x: nat, y: nat): nat {
    if x == 0 || y == 0 then 0 else (x % 2) * (y % 2) + 2 * BitAnd(x / 2, y / 2)
  }

  function FloorLog2(n: nat): nat
    requires n > 0
  {
    if n == 1 then 0 else FloorLog2(n / 2) + 1
  }

  lemma {:induction false} BitAndSelf(x: nat)
    ensures BitAnd(x, x) == x
  {
    if x > 0 {
      BitAndSelf(x / 2);
    }
  }

  /** The test for a power of two decides whether the logarithm is rounded up. */
  lemma {:induction false} RoundsUp(x: nat)
    requires x > 0
    ensures CeilLog2(x) == FloorLog2(x) + (if BitAnd(x, x - 1) != 0 then 1 else 0)
    ensures CeilLog2(x + 1) == FloorLog2(x) + 1
  {
    if x > 1 {
      RoundsUp(x / 2);
      if x % 2 == 0 {
        assert (x - 1) / 2 == x / 2 - 1 && (x + 1) / 2 == x / 2;
        assert (x + 2) / 2 == x / 2 + 1;
      } else {
        assert (x - 1) / 2 == x / 2 && (x + 1) / 2 == x / 2 + 1;
        BitAndSelf(x / 2);
      }
    }
  }

  method ComputeCeilLog2(n: nat) returns (r: nat)
    requires n < 0x8000_0000
    ensures r == CeilLog2(n)
  {
    var x := n;
    r := if x > 0 && BitAnd(x, x - 1) != 0 then 1 else 0;
    if n > 0 { RoundsUp(n); }
    x := x / 2;
    while x != 0
      invariant n == 0 ==> x == 0 && r == 0
      invariant n > 0 ==> r + (if x == 0 then 0 else FloorLog2(x) + 1) == CeilLog2(n)
    {
      r := r + 1;
      x := x / 2;
    }
  }

  /** The depth is the least whose tree holds all the leaves. */
  lemma {:induction false} CeilLog2Bounds(n: nat)
    ensures n <= Pow2(CeilLog2(n))
    ensures n > 1 ==> Pow2(CeilLog2(n) - 1) < n
  {
    if n > 1 {
      CeilLog2Bounds((n + 1) / 2);
    }
  }

  // ---- The walkers ----

  predicate FlagAt(flags: seq<bv8>, i: nat)
    requires i / 8 < |flags|
  {
    flags[i / 8] & ((1 as bv8) << (i % 8)) != 0
  }

  predicate CanRead(b: MerkleBlock, h: nat, f: nat) {
    f / 8 < |b.flags| && h < |b.hashes|
  }

  /** What the root walk computes from cursors `h` and `f`, `levels` above the leaves: the hash
      of the subtree and where the cursors end up. It fails by setting the hash cursor to
      SIZE_MAX. */
  function RootWalk(b: MerkleBlock, h: nat, f: nat, levels: nat): (Hash, nat, nat)
    decreases levels
  {
    if !CanRead(b, h, f) then (Zero, h, f)
    else if FlagAt(b.flags, f) && levels != 0 then
      var (left, h1, f1) := RootWalk(b, h, f + 1, levels - 1);
      var (right, h2, f2) := RootWalk(b, h1, f1, levels - 1);
      if left != Zero && left != right then (Pair(left, if right == Zero then left else right), h2, f2)
      else (Zero, SIZE_MAX, f2)
    else (b.hashes[h], h + 1, f + 1)
  }

  /** What the matching walk collects, and where its cursors end up. */
  function TxWalk(b: MerkleBlock, h: nat, f: nat, levels: nat): (seq<Hash>, nat, nat)
    decreases levels
  {
    if !CanRead(b, h, f) then ([], h, f)
    else if !FlagAt(b.flags, f) || levels == 0 then
      (if FlagAt(b.flags, f) then [b.hashes[h]] else [], h + 1, f + 1)
    else
      var (left, h1, f1) := TxWalk(b, h, f + 1, levels - 1);
      var (right, h2, f2) := TxWalk(b, h1, f1, levels - 1);
      (left + right, h2, f2)
  }

  /** The cursors the walkers share. */
  class Cursor {
    var idx: nat
    var hashIdx: nat
    var flagIdx: nat

    constructor ()
      ensures idx == hashIdx == flagIdx == 0
    {
      idx, hashIdx, flagIdx := 0, 0, 0;
    }
  }

  method RootR(b: MerkleBlock, cur: Cursor, depth: nat, ghost levels: nat) returns (md: Hash)
    requires b.Valid() && depth + levels == CeilLog2(b.totalTx)
    modifies cur`hashIdx, cur`flagIdx
    ensures var (hash, h, f) := RootWalk(b, old(cur.hashIdx), old(cur.flagIdx), levels);
            md == hash && cur.hashIdx == h && cur.flagIdx == f
    decreases levels
  {
    md := Zero;
    if cur.flagIdx / 8 < |b.flags| && cur.hashIdx < |b.hashes| {
      var flag := FlagAt(b.flags, cur.flagIdx);
      cur.flagIdx := cur.flagIdx + 1;
      var top := ComputeCeilLog2(b.totalTx);
      if flag && depth != top {
        ghost var (l, h1, f1) := RootWalk(b, cur.hashIdx, cur.flagIdx, levels - 1);
        ghost var (r, h2, f2) := RootWalk(b, h1, f1, levels - 1);
        var left := RootR(b, cur, depth + 1, levels - 1);
        assert left == l && cur.hashIdx == h1 && cur.flagIdx == f1;
        var right := RootR(b, cur, depth + 1, levels - 1);
        assert right == r && cur.hashIdx == h2 && cur.flagIdx == f2;
        if left != Zero && left != right {
          if right == Zero { right := left; }
          md := Pair(left, right);
        } else {
          cur.hashIdx := SIZE_MAX;
        }
      } else {
        md := b.hashes[cur.hashIdx];
        cur.hashIdx := cur.hashIdx + 1;
      }
    }
  }

  function Min(a: nat, b: nat): nat { if a <= b then a else b }

  /** As much of `s` as fits. */
  function Capped<T>(s: seq<T>, limit: nat): seq<T> {
    s[..Min(|s|, limit)]
  }

  lemma {:induction false} CappedTwice<T>(a: seq<T>, x: seq<T>, y: seq<T>, limit: nat)
    ensures Capped(Capped(a + x, limit) + y, limit) == Capped(a + (x + y), limit)
  {
  }

  /** Takes one match, if there is room for it. */
  method Store(hash: Hash, txHashes: array?<Hash>, limit: nat, cur: Cursor)
    requires cur.idx <= limit && (txHashes != null ==> limit <= txHashes.Length)
    modifies cur`idx, txHashes
    ensures cur.idx == Min(old(cur.idx) + 1, limit)
    ensures txHashes != null ==> txHashes[..cur.idx] == Capped(old(txHashes[..cur.idx]) + [hash], limit)
  {
    if cur.idx < limit {
      if txHashes != null { txHashes[cur.idx] := hash; }
      cur.idx := cur.idx + 1;
    }
  }

  /** The cursors and the output after `txs` was collected. */
  twostate predicate Collected(txHashes: array?<Hash>, limit: nat, cur: Cursor, txs: seq<Hash>)
    requires cur.idx <= limit && old(cur.idx) <= limit && (txHashes != null ==> limit <= txHashes.Length)
    reads cur, txHashes
  {
    && cur.idx == Min(old(cur.idx) + |txs|, limit)
    && (txHashes != null ==> txHashes[..cur.idx] == Capped(old(txHashes[..cur.idx]) + txs, limit))
  }

  /** Collects matches into `txHashes`, or only counts them when there is no array; at most
      `limit` of them. */
  method TxHashesR(b: MerkleBlock, txHashes: array?<Hash>, limit: nat, cur: Cursor, depth: nat, ghost levels: nat)
    requires b.Valid() && depth + levels == CeilLog2(b.totalTx) && cur.idx <= limit
    requires txHashes != null ==> limit <= txHashes.Length
    modifies cur, txHashes
    ensures var (txs, h, f) := TxWalk(b, old(cur.hashIdx), old(cur.flagIdx), levels);
            && cur.hashIdx == h && cur.flagIdx == f && cur.idx <= limit
            && Collected(txHashes, limit, cur, txs)
    decreases levels
  {
    if cur.flagIdx / 8 < |b.flags| && cur.hashIdx < |b.hashes| {
      var flag := FlagAt(b.flags, cur.flagIdx);
      cur.flagIdx := cur.flagIdx + 1;
      var top := ComputeCeilLog2(b.totalTx);
      if !flag || depth == top {
        if flag { Store(b.hashes[cur.hashIdx], txHashes, limit, cur); }
        cur.hashIdx := cur.hashIdx + 1;
      } else {
        BothBranches(b, txHashes, limit, cur, depth, levels);
      }
    }
  }

  /** The left branch and then the right branch. */
  method BothBranches(b: MerkleBlock, txHashes: array?<Hash>, limit: nat, cur: Cursor, depth: nat, ghost levels: nat)
    requires b.Valid() && levels > 0 && depth + levels == CeilLog2(b.totalTx) && cur.idx <= limit
    requires txHashes != null ==> limit <= txHashes.Length
    modifies cur, txHashes
    ensures var (left, h1, f1) := TxWalk(b, old(cur.hashIdx), old(cur.flagIdx), levels - 1);
            var (right, h2, f2) := TxWalk(b, h1, f1, levels - 1);
            && cur.hashIdx == h2 && cur.flagIdx == f2 && cur.idx <= limit
            && Collected(txHashes, limit, cur, left + right)
    decreases levels, 0
  {
    ghost var (left, h1, f1) := TxWalk(b, cur.hashIdx, cur.flagIdx, levels - 1);
    ghost var (right, h2, f2) := TxWalk(b, h1, f1, levels - 1);
    ghost var before := if txHashes != null then txHashes[..cur.idx] else [];
    TxHashesR(b, txHashes, limit, cur, depth + 1, levels - 1);
    TxHashesR(b, txHashes, limit, cur, depth + 1, levels - 1);
    CappedTwice(before, left, right, limit);
  }

  /** The number of matches, or the matches themselves when there is an array for them. */
  method TxHashes(b: MerkleBlock, txHashes: array?<Hash>, hashesCount: nat) returns (n: nat)
    requires b.Valid() && (txHashes != null ==> hashesCount <= txHashes.Length)
    modifies txHashes
    ensures txHashes == null ==> n == Min(|TxWalk(b, 0, 0, CeilLog2(b.totalTx)).0|, SIZE_MAX)
    ensures txHashes != null ==> n == Min(|TxWalk(b, 0, 0, CeilLog2(b.totalTx)).0|, hashesCount)
    ensures txHashes != null ==> txHashes[..n] == Capped(TxWalk(b, 0, 0, CeilLog2(b.totalTx)).0, hashesCount)
  {
    var cur := new Cursor();
    TxHashesR(b, txHashes, if txHashes != null then hashesCount else SIZE_MAX, cur, 0, CeilLog2(b.totalTx));
    n := cur.idx;
  }

  /** The part of the validity check that survives in the source: the Merkle root and the timestamp. */
  method IsValid(b: MerkleBlock, merkleRoot: Hash, timestamp: nat, currentTime: nat) returns (r: bool)
    requires b.Valid()
    ensures r <==> (b.totalTx > 0 ==> RootWalk(b, 0, 0, CeilLog2(b.totalTx)).0 == merkleRoot) && timestamp <= currentTime + 7200
  {
    var cur := new Cursor();
    var root := RootR(b, cur, 0, CeilLog2(b.totalTx));
    r := true;
    if b.totalTx > 0 && root != merkleRoot { r := false; }
    if timestamp > currentTime + 7200 { r := false; }
  }

  // ---- The Merkle tree ----

  /** A node without a right branch has its left branch hashed with itself. */
  datatype Tree =
    | Leaf(hash: Hash)
    | One(only: Tree)
    | Two(left: Tree, right: Tree)

  function TreeHash(t: Tree): Hash {
    match t
    case Leaf(hash) => hash
    case One(only) => Pair(TreeHash(only), TreeHash(only))
    case Two(left, right) => Pair(TreeHash(left), TreeHash(right))
  }

  function Leaves(t: Tree): (r: seq<Hash>)
    ensures r != []
  {
    match t
    case Leaf(hash) => [hash]
    case One(only) => Leaves(only)
    case Two(left, right) => Leaves(left) + Leaves(right)
  }

  /** No branch is missing. */
  predicate Full(t: Tree) {
    match t
    case Leaf(_) => true
    case One(_) => false
    case Two(left, right) => Full(left) && Full(right)
  }

  /** All leaves are `k` levels down, and only the last branches are missing. */
  predicate Shaped(t: Tree, k: nat) {
    match t
    case Leaf(_) => k == 0
    case One(only) => k > 0 && Shaped(only, k - 1)
    case Two(left, right) => k > 0 && Shaped(left, k - 1) && Full(left) && Shaped(right, k - 1)
  }

  /** The tree of height `k` over the given leaves. */
  function Build(k: nat, leaves: seq<Hash>): (t: Tree)
    requires 1 <= |leaves| <= Pow2(k)
    ensures Shaped(t, k) && Leaves(t) == leaves
    ensures |leaves| == Pow2(k) ==> Full(t)
  {
    if k == 0 then Leaf(leaves[0])
    else if |leaves| <= Pow2(k - 1) then One(Build(k - 1, leaves))
    else
      assert leaves[..Pow2(k - 1)] + leaves[Pow2(k - 1)..] == leaves;
      Two(Build(k - 1, leaves[..Pow2(k - 1)]), Build(k - 1, leaves[Pow2(k - 1)..]))
  }

  /** The tree of least height over a block's transactions. */
  function BlockTree(txids: seq<Hash>): (t: Tree)
    requires txids != []
    ensures Shaped(t, CeilLog2(|txids|)) && Leaves(t) == txids && !t.One?
  {
    CeilLog2Bounds(|txids|);
    Build(CeilLog2(|txids|), txids)
  }

  /** One row up: neighbours are hashed together, the last of an odd row with itself. */
  function NextRow(row: seq<Hash>): (r: seq<Hash>)
    ensures |r| == (|row| + 1) / 2
  {
    if |row| == 0 then []
    else if |row| == 1 then [Pair(row[0], row[0])]
    else [Pair(row[0], row[1])] + NextRow(row[2..])
  }

  /** The Merkle root as the protocol defines it, row by row. */
  function MerkleRoot(row: seq<Hash>): Hash
    requires row != []
    decreases |row|
  {
    if |row| == 1 then row[0] else MerkleRoot(NextRow(row))
  }

  lemma {:induction false} NextRowConcat(a: seq<Hash>, b: seq<Hash>)
    requires |a| % 2 == 0
    ensures NextRow(a + b) == NextRow(a) + NextRow(b)
  {
    if a == [] {
      assert a + b == b;
    } else {
      NextRowConcat(a[2..], b);
      assert (a + b)[2..] == a[2..] + b;
    }
  }

  /** The tree without its lowest row. */
  function Lift(t: Tree): Tree {
    match t
    case Leaf(_) => t
    case One(Leaf(a)) => Leaf(Pair(a, a))
    case Two(Leaf(a), Leaf(b)) => Leaf(Pair(a, b))
    case One(only) => One(Lift(only))
    case Two(left, right) => Two(Lift(left), Lift(right))
  }

  lemma {:induction false} FullIsEven(t: Tree, k: nat)
    requires Shaped(t, k) && Full(t) && k > 0
    ensures |Leaves(t)| % 2 == 0
  {
    if k > 1 {
      FullIsEven(t.left, k - 1);
      FullIsEven(t.right, k - 1);
    } else {
      assert Leaves(t) == [t.left.hash, t.right.hash];
    }
  }

  lemma {:induction false} LiftIsNextRow(t: Tree, k: nat)
    requires Shaped(t, k) && k > 0
    ensures Shaped(Lift(t), k - 1) && TreeHash(Lift(t)) == TreeHash(t)
    ensures Full(t) ==> Full(Lift(t))
    ensures Leaves(Lift(t)) == NextRow(Leaves(t))
  {
    match t
    case One(only) =>
      if k > 1 { LiftIsNextRow(only, k - 1); }
    case Two(left, right) =>
      if k > 1 {
        LiftIsNextRow(left, k - 1);
        LiftIsNextRow(right, k - 1);
        FullIsEven(left, k - 1);
        NextRowConcat(Leaves(left), Leaves(right));
      } else {
        assert Leaves(t) == [left.hash, right.hash];
        assert Leaves(t)[2..] == [];
      }
  }

  /** The hash of the tree of least height is the protocol's Merkle root. */
  lemma {:induction false} TreeHashIsMerkleRoot(t: Tree, k: nat)
    requires Shaped(t, k) && !t.One?
    ensures TreeHash(t) == MerkleRoot(Leaves(t))
    decreases k
  {
    if k > 0 {
      LiftIsNextRow(t, k);
      TreeHashIsMerkleRoot(Lift(t), k - 1);
      assert |Leaves(t)| > 1;
    }
  }

  // ---- The standard encoding ----

  predicate AnyMatch(t: Tree, m: Hash -> bool) {
    match t
    case Leaf(hash) => m(hash)
    case One(only) => AnyMatch(only, m)
    case Two(left, right) => AnyMatch(left, m) || AnyMatch(right, m)
  }

  function Matching(leaves: seq<Hash>, m: Hash -> bool): seq<Hash> {
    if leaves == [] then []
    else (if m(leaves[0]) then [leaves[0]] else []) + Matching(leaves[1..], m)
  }

  /** The nodes a partial tree visits: above a match it goes on below a node; otherwise it stops
      there, at a leaf or above leaves none of which is a match. */
  datatype Partial =
    | Stop(hash: Hash)
    | Hit(hash: Hash)
    | Node1(only: Partial)
    | Node2(left: Partial, right: Partial)

  function Visit(t: Tree, m: Hash -> bool): Partial {
    if !AnyMatch(t, m) then Stop(TreeHash(t))
    else
      match t
      case Leaf(hash) => Hit(hash)
      case One(only) => Node1(Visit(only, m))
      case Two(left, right) => Node2(Visit(left, m), Visit(right, m))
  }

  /** In depth-first order, a bit for each node visited, set above a match. */
  function FlagBits(e: Partial): (r: seq<bool>)
    ensures r != []
  {
    match e
    case Stop(_) => [false]
    case Hit(_) => [true]
    case Node1(only) => [true] + FlagBits(only)
    case Node2(left, right) => [true] + FlagBits(left) + FlagBits(right)
  }

  /** In depth-first order, a hash for each node below which the tree does not go. */
  function StoredHashes(e: Partial): (r: seq<Hash>)
    ensures r != []
  {
    match e
    case Stop(hash) => [hash]
    case Hit(hash) => [hash]
    case Node1(only) => StoredHashes(only)
    case Node2(left, right) => StoredHashes(left) + StoredHashes(right)
  }

  function PartialHash(e: Partial): Hash {
    match e
    case Stop(hash) => hash
    case Hit(hash) => hash
    case Node1(only) => Pair(PartialHash(only), PartialHash(only))
    case Node2(left, right) => Pair(PartialHash(left), PartialHash(right))
  }

  function Hits(e: Partial): seq<Hash> {
    match e
    case Stop(_) => []
    case Hit(hash) => [hash]
    case Node1(only) => Hits(only)
    case Node2(left, right) => Hits(left) + Hits(right)
  }

  function Bit(bits: seq<bool>, i: nat): bv8 {
    if i < |bits| && bits[i] then 1 else 0
  }

  function PackByte(bits: seq<bool>): bv8 {
    Bit(bits, 0) | (Bit(bits, 1) << 1) | (Bit(bits, 2) << 2) | (Bit(bits, 3) << 3)
    | (Bit(bits, 4) << 4) | (Bit(bits, 5) << 5) | (Bit(bits, 6) << 6) | (Bit(bits, 7) << 7)
  }

  /** Bits packed into bytes, the last byte padded with zero bits. */
  function Pack(bits: seq<bool>): (r: seq<bv8>)
    ensures |r| == (|bits| + 7) / 8
    decreases |bits|
  {
    if bits == [] then []
    else [PackByte(bits)] + Pack(if |bits| <= 8 then [] else bits[8..])
  }

  lemma {:induction false} PackedBit(bits: seq<bool>, i: nat)
    requires i < 8 && i < |bits|
    ensures PackByte(bits) & ((1 as bv8) << i) != 0 <==> bits[i]
  {
    var x0, x1, x2, x3, x4, x5, x6, x7 := Bit(bits, 0), Bit(bits, 1), Bit(bits, 2), Bit(bits, 3),
      Bit(bits, 4), Bit(bits, 5), Bit(bits, 6), Bit(bits, 7);
    BitOf8(x0, x1, x2, x3, x4, x5, x6, x7);
  }

  lemma {:induction false} BitOf8(x0: bv8, x1: bv8, x2: bv8, x3: bv8, x4: bv8, x5: bv8, x6: bv8, x7: bv8)
    requires x0 <= 1 && x1 <= 1 && x2 <= 1 && x3 <= 1 && x4 <= 1 && x5 <= 1 && x6 <= 1 && x7 <= 1
    ensures var p := x0 | (x1 << 1) | (x2 << 2) | (x3 << 3) | (x4 << 4) | (x5 << 5) | (x6 << 6) | (x7 << 7);
            && (p & ((1 as bv8) << 0) != 0 <==> x0 == 1)
            && (p & ((1 as bv8) << 1) != 0 <==> x1 == 1)
            && (p & ((1 as bv8) << 2) != 0 <==> x2 == 1)
            && (p & ((1 as bv8) << 3) != 0 <==> x3 == 1)
            && (p & ((1 as bv8) << 4) != 0 <==> x4 == 1)
            && (p & ((1 as bv8) << 5) != 0 <==> x5 == 1)
            && (p & ((1 as bv8) << 6) != 0 <==> x6 == 1)
            && (p & ((1 as bv8) << 7) != 0 <==> x7 == 1)
  {
  }

  lemma {:induction false} PackedFlag(bits: seq<bool>, i: nat)
    requires i < |bits|
    ensures i / 8 < |Pack(bits)| && (FlagAt(Pack(bits), i) <==> bits[i])
    decreases i
  {
    if i < 8 {
      PackedBit(bits, i);
    } else {
      PackedFlag(bits[8..], i - 8);
      assert i / 8 == (i - 8) / 8 + 1 && i % 8 == (i - 8) % 8;
      assert Pack(bits)[1..] == Pack(bits[8..]);
    }
  }

  // ---- Decoding the standard encoding ----

  /** All the flag bits of a block. */
  function Bits(flags: seq<bv8>): seq<bool> {
    seq(8 * |flags|, i requires 0 <= i < 8 * |flags| => FlagAt(flags, i))
  }

  /** `part` is in `whole` from position `i` on. */
  predicate PartAt<T(==)>(whole: seq<T>, i: nat, part: seq<T>) {
    i + |part| <= |whole| && whole[i..i + |part|] == part
  }

  lemma {:induction false} PartAtSplits<T>(whole: seq<T>, i: nat, a: seq<T>, b: seq<T>)
    requires PartAt(whole, i, a + b)
    ensures PartAt(whole, i, a) && PartAt(whole, i + |a|, b)
  {
    assert whole[i..i + |a|] == (a + b)[..|a|];
    assert whole[i + |a|..i + |a| + |b|] == (a + b)[|a|..];
  }

  lemma {:induction false} PartAtFirst<T>(whole: seq<T>, i: nat, part: seq<T>)
    requires PartAt(whole, i, part) && part != []
    ensures i < |whole| && whole[i] == part[0]
  {
    assert whole[i] == whole[i..i + |part|][0];
  }

  /** The first leaf can be read off a tree's hash. */
  function Leftmost(k: nat, md: Hash): Hash {
    if k == 0 || !md.Pair? then md else Leftmost(k - 1, md.left)
  }

  lemma {:induction false} LeftmostOfTree(t: Tree, k: nat)
    requires Shaped(t, k)
    ensures Leftmost(k, TreeHash(t)) == Leaves(t)[0]
  {
    match t
    case Leaf(_) =>
    case One(only) => LeftmostOfTree(only, k - 1);
    case Two(left, _) => LeftmostOfTree(left, k - 1);
  }

  lemma {:induction false} MatchingConcat(a: seq<Hash>, b: seq<Hash>, m: Hash -> bool)
    ensures Matching(a + b, m) == Matching(a, m) + Matching(b, m)
    decreases |a|
  {
    if |a| == 0 {
      assert a + b == b;
    } else {
      MatchingConcat(a[1..], b, m);
      assert (a + b)[1..] == a[1..] + b;
      MatchingStep(a, m);
      MatchingStep(a + b, m);
    }
  }

  lemma {:induction false} MatchingStep(a: seq<Hash>, m: Hash -> bool)
    requires |a| > 0
    ensures Matching(a, m) == (if m(a[0]) then [a[0]] else []) + Matching(a[1..], m)
  {
  }

  lemma {:induction false} NothingMatching(t: Tree, m: Hash -> bool)
    requires !AnyMatch(t, m)
    ensures Matching(Leaves(t), m) == []
  {
    match t
    case Leaf(_) =>
    case One(only) => NothingMatching(only, m);
    case Two(left, right) =>
      NothingMatching(left, m);
      NothingMatching(right, m);
      MatchingConcat(Leaves(left), Leaves(right), m);
  }

  function FirstLeaf(t: Tree): Hash {
    Leaves(t)[0]
  }

  /** The branches of every node start with different transactions, none of them zero. */
  predicate Proper(t: Tree) {
    match t
    case Leaf(hash) => hash != Zero
    case One(only) => Proper(only)
    case Two(left, right) => Proper(left) && Proper(right) && FirstLeaf(left) != FirstLeaf(right)
  }

  lemma {:induction false} DistinctIsProper(t: Tree)
    requires Distinct(Leaves(t)) && Zero !in Leaves(t)
    ensures Proper(t)
  {
    match t
    case Leaf(hash) => assert hash == Leaves(t)[0];
    case One(only) => DistinctIsProper(only);
    case Two(left, right) =>
      var a, b := Leaves(left), Leaves(right);
      assert forall i :: 0 <= i < |a| ==> Leaves(t)[i] == a[i];
      assert forall i :: 0 <= i < |b| ==> Leaves(t)[|a| + i] == b[i];
      DistinctIsProper(left);
      DistinctIsProper(right);
  }

  lemma {:induction false} HashIsNotZero(t: Tree)
    requires Proper(t)
    ensures TreeHash(t) != Zero
  {
  }

  lemma {:induction false} BranchesDiffer(left: Tree, right: Tree, k: nat)
    requires Shaped(left, k) && Shaped(right, k) && Proper(Two(left, right))
    ensures TreeHash(left) != TreeHash(right) && TreeHash(left) != Zero && TreeHash(right) != Zero
  {
    LeftmostOfTree(left, k);
    LeftmostOfTree(right, k);
    HashIsNotZero(left);
    HashIsNotZero(right);
  }

  /** How the root walk puts the results of two branches together. */
  lemma {:induction false} RootNode(b: MerkleBlock, h: nat, f: nat, k: nat, left: Hash, h1: nat, f1: nat, right: Hash, h2: nat, f2: nat)
    requires k > 0 && CanRead(b, h, f) && FlagAt(b.flags, f)
    requires RootWalk(b, h, f + 1, k - 1) == (left, h1, f1) && RootWalk(b, h1, f1, k - 1) == (right, h2, f2)
    requires left != Zero && left != right
    ensures RootWalk(b, h, f, k) == (Pair(left, if right == Zero then left else right), h2, f2)
  {
  }

  /** How the matching walk puts the results of two branches together. */
  lemma {:induction false} TxNode(b: MerkleBlock, h: nat, f: nat, k: nat, txs1: seq<Hash>, h1: nat, f1: nat, txs2: seq<Hash>, h2: nat, f2: nat)
    requires k > 0 && CanRead(b, h, f) && FlagAt(b.flags, f)
    requires TxWalk(b, h, f + 1, k - 1) == (txs1, h1, f1) && TxWalk(b, h1, f1, k - 1) == (txs2, h2, f2)
    ensures TxWalk(b, h, f, k) == (txs1 + txs2, h2, f2)
  {
  }

  lemma {:induction false} MatchingOne(hash: Hash, m: Hash -> bool)
    ensures Matching([hash], m) == if m(hash) then [hash] else []
  {
    assert [hash][1..] == [];
  }

  predicate NoNode1(e: Partial) {
    match e
    case Node1(_) => false
    case Node2(left, right) => NoNode1(left) && NoNode1(right)
    case _ => true
  }

  /** What makes a partial tree of height `k` decodable without knowing positions: only the
      last branches are missing, and branches have different hashes, none of them zero. */
  predicate Decodable(e: Partial, k: nat) {
    match e
    case Stop(_) => true
    case Hit(_) => k == 0
    case Node1(only) => k > 0 && Decodable(only, k - 1) && PartialHash(only) != Zero
    case Node2(left, right) =>
      && k > 0 && Decodable(left, k - 1) && NoNode1(left) && Decodable(right, k - 1)
      && PartialHash(left) != Zero && PartialHash(right) != Zero && PartialHash(left) != PartialHash(right)
  }

  /** The partial tree of distinct transactions is decodable, and tells the root and the matches. */
  lemma {:induction false} VisitIsDecodable(t: Tree, k: nat, m: Hash -> bool)
    requires Shaped(t, k) && Proper(t)
    ensures Decodable(Visit(t, m), k) && (Full(t) ==> NoNode1(Visit(t, m)))
    ensures PartialHash(Visit(t, m)) == TreeHash(t)
    ensures Hits(Visit(t, m)) == Matching(Leaves(t), m)
  {
    if !AnyMatch(t, m) {
      NothingMatching(t, m);
    } else {
      match t
      case Leaf(hash) => MatchingOne(hash, m);
      case One(only) =>
        VisitIsDecodable(only, k - 1, m);
        HashIsNotZero(only);
      case Two(left, right) =>
        VisitIsDecodable(left, k - 1, m);
        VisitIsDecodable(right, k - 1, m);
        BranchesDiffer(left, right, k - 1);
        MatchingConcat(Leaves(left), Leaves(right), m);
    }
  }

  /** The partial tree is written down from the cursors on; missing branches come last. */
  predicate WrittenAt(b: MerkleBlock, h: nat, f: nat, e: Partial) {
    && PartAt(Bits(b.flags), f, FlagBits(e))
    && PartAt(b.hashes, h, StoredHashes(e))
    && (NoNode1(e) || h + |StoredHashes(e)| == |b.hashes|)
  }

  lemma {:induction false} WrittenFirst(b: MerkleBlock, h: nat, f: nat, e: Partial)
    requires WrittenAt(b, h, f, e)
    ensures CanRead(b, h, f) && (FlagAt(b.flags, f) <==> !e.Stop?) && b.hashes[h] == StoredHashes(e)[0]
  {
    PartAtFirst(Bits(b.flags), f, FlagBits(e));
    PartAtFirst(b.hashes, h, StoredHashes(e));
  }

  lemma {:induction false} WrittenNode1(b: MerkleBlock, h: nat, f: nat, e: Partial)
    requires WrittenAt(b, h, f, e) && e.Node1?
    ensures CanRead(b, h, f) && FlagAt(b.flags, f)
    ensures WrittenAt(b, h, f + 1, e.only) && HashesEnd(h, e.only) == |b.hashes|
  {
    WrittenFirst(b, h, f, e);
    PartAtSplits(Bits(b.flags), f, [true], FlagBits(e.only));
  }

  lemma {:induction false} WrittenNode2(b: MerkleBlock, h: nat, f: nat, e: Partial)
    requires WrittenAt(b, h, f, e) && e.Node2? && NoNode1(e.left)
    ensures CanRead(b, h, f) && FlagAt(b.flags, f)
    ensures WrittenAt(b, h, f + 1, e.left)
    ensures WrittenAt(b, HashesEnd(h, e.left), FlagsEnd(f + 1, e.left), e.right)
  {
    WrittenFirst(b, h, f, e);
    PartAtSplits(Bits(b.flags), f, [true] + FlagBits(e.left), FlagBits(e.right));
    PartAtSplits(Bits(b.flags), f, [true], FlagBits(e.left));
    PartAtSplits(b.hashes, h, StoredHashes(e.left), StoredHashes(e.right));
  }

  /** Where the cursors are after a partial tree. */
  function HashesEnd(h: nat, e: Partial): nat { h + |StoredHashes(e)| }

  function FlagsEnd(f: nat, e: Partial): nat { f + |FlagBits(e)| }

  lemma {:induction false} EndsAddUp(h: nat, f: nat, e: Partial)
    ensures e.Node1? ==> HashesEnd(h, e) == HashesEnd(h, e.only) && FlagsEnd(f, e) == FlagsEnd(f + 1, e.only)
    ensures e.Node2? ==> && HashesEnd(h, e) == HashesEnd(HashesEnd(h, e.left), e.right)
                         && FlagsEnd(f, e) == FlagsEnd(FlagsEnd(f + 1, e.left), e.right)
  {
  }

  /** The root walk over a partial tree at the cursors gives its hash and goes to its end. */
  predicate RootDecoded(b: MerkleBlock, h: nat, f: nat, e: Partial, k: nat) {
    RootWalk(b, h, f, k) == (PartialHash(e), HashesEnd(h, e), FlagsEnd(f, e))
  }

  predicate MatchesDecoded(b: MerkleBlock, h: nat, f: nat, e: Partial, k: nat) {
    TxWalk(b, h, f, k) == (Hits(e), HashesEnd(h, e), FlagsEnd(f, e))
  }

  lemma {:induction false} DecodesEnd(b: MerkleBlock, h: nat, f: nat, e: Partial, k: nat)
    requires (e.Stop? || e.Hit?) && Decodable(e, k) && WrittenAt(b, h, f, e)
    ensures RootDecoded(b, h, f, e, k) && MatchesDecoded(b, h, f, e, k)
  {
    WrittenFirst(b, h, f, e);
  }

  lemma {:induction false} DecodesNode1(b: MerkleBlock, h: nat, f: nat, e: Partial, k: nat)
    requires e.Node1? && Decodable(e, k) && CanRead(b, h, f) && FlagAt(b.flags, f)
    requires HashesEnd(h, e.only) == |b.hashes|
    requires RootDecoded(b, h, f + 1, e.only, k - 1) && MatchesDecoded(b, h, f + 1, e.only, k - 1)
    ensures RootDecoded(b, h, f, e, k) && MatchesDecoded(b, h, f, e, k)
  {
    var h2, f2 := HashesEnd(h, e.only), FlagsEnd(f + 1, e.only);
    EndsAddUp(h, f, e);
    RootNode(b, h, f, k, PartialHash(e.only), h2, f2, Zero, h2, f2);
    TxNode(b, h, f, k, Hits(e.only), h2, f2, [], h2, f2);
    assert Hits(e.only) + [] == Hits(e.only);
  }

  lemma {:induction false} DecodesNode2(b: MerkleBlock, h: nat, f: nat, e: Partial, k: nat)
    requires e.Node2? && Decodable(e, k) && CanRead(b, h, f) && FlagAt(b.flags, f)
    requires RootDecoded(b, h, f + 1, e.left, k - 1) && MatchesDecoded(b, h, f + 1, e.left, k - 1)
    requires RootDecoded(b, HashesEnd(h, e.left), FlagsEnd(f + 1, e.left), e.right, k - 1)
    requires MatchesDecoded(b, HashesEnd(h, e.left), FlagsEnd(f + 1, e.left), e.right, k - 1)
    ensures RootDecoded(b, h, f, e, k) && MatchesDecoded(b, h, f, e, k)
  {
    var h1, f1 := HashesEnd(h, e.left), FlagsEnd(f + 1, e.left);
    var h2, f2 := HashesEnd(h1, e.right), FlagsEnd(f1, e.right);
    EndsAddUp(h, f, e);
    RootNode(b, h, f, k, PartialHash(e.left), h1, f1, PartialHash(e.right), h2, f2);
    TxNode(b, h, f, k, Hits(e.left), h1, f1, Hits(e.right), h2, f2);
  }

  /** Decoding from anywhere in a block, the position-free walkers give the hash and the
      matches of a partial tree and consume exactly its flags and hashes. */
  lemma {:induction false} Decodes(b: MerkleBlock, h: nat, f: nat, e: Partial, k: nat)
    requires Decodable(e, k) && WrittenAt(b, h, f, e)
    ensures RootDecoded(b, h, f, e, k) && MatchesDecoded(b, h, f, e, k)
    decreases e
  {
    match e
    case Stop(_) => DecodesEnd(b, h, f, e, k);
    case Hit(_) => DecodesEnd(b, h, f, e, k);
    case Node1(only) =>
      WrittenNode1(b, h, f, e);
      Decodes(b, h, f + 1, only, k - 1);
      DecodesNode1(b, h, f, e, k);
    case Node2(left, right) =>
      WrittenNode2(b, h, f, e);
      Decodes(b, h, f + 1, left, k - 1);
      Decodes(b, HashesEnd(h, left), FlagsEnd(f + 1, left), right, k - 1);
      DecodesNode2(b, h, f, e, k);
  }

  /** The partial Merkle tree of a block's transactions for a match predicate. */
  function PartialTree(txids: seq<Hash>, m: Hash -> bool): MerkleBlock
    requires txids != []
  {
    var e := Visit(BlockTree(txids), m);
    MerkleBlock(|txids|, StoredHashes(e), Pack(FlagBits(e)))
  }

  lemma {:induction false} PackedAt(bits: seq<bool>)
    ensures PartAt(Bits(Pack(bits)), 0, bits)
  {
    forall i | 0 <= i < |bits|
      ensures i < |Bits(Pack(bits))| && Bits(Pack(bits))[i] == bits[i]
    {
      PackedFlag(bits, i);
    }
  }

  /** Decoding the standard encoding gives the Merkle root and exactly the matched
      transactions, in block order, and uses up every hash. */
  lemma {:induction false} DecodesStandardEncoding(txids: seq<Hash>, m: Hash -> bool)
    requires txids != [] && Distinct(txids) && Zero !in txids
    ensures var b := PartialTree(txids, m);
            var k := CeilLog2(b.totalTx);
            && RootWalk(b, 0, 0, k).0 == MerkleRoot(txids)
            && TxWalk(b, 0, 0, k).0 == Matching(txids, m)
            && RootWalk(b, 0, 0, k).1 == TxWalk(b, 0, 0, k).1 == |b.hashes|
  {
    var t, k := BlockTree(txids), CeilLog2(|txids|);
    var e := Visit(t, m);
    TreeHashIsMerkleRoot(t, k);
    DistinctIsProper(t);
    VisitIsDecodable(t, k, m);
    PackedAt(FlagBits(e));
    Decodes(PartialTree(txids, m), 0, 0, e, k);
  }

  /** Within an encoding, after the left branch of a node the hashes are used up exactly when
      the node has no right branch. */
  lemma {:induction false} MissingRightBranch(b: MerkleBlock, h: nat, f: nat, e: Partial, k: nat)
    requires Decodable(e, k) && WrittenAt(b, h, f, e) && (e.Node1? || e.Node2?)
    ensures RootWalk(b, h, f + 1, k - 1).1 == |b.hashes| <==> e.Node1?
  {
    if e.Node1? {
      WrittenNode1(b, h, f, e);
      Decodes(b, h, f + 1, e.only, k - 1);
    } else {
      WrittenNode2(b, h, f, e);
      Decodes(b, h, f + 1, e.left, k - 1);
    }
  }

  // ---- Soundness ----

  /** `leaf` hangs `depth` levels below the hash `md`. */
  predicate Committed(md: Hash, leaf: Hash, depth: nat) {
    if depth == 0 then md == leaf
    else md.Pair? && (Committed(md.left, leaf, depth - 1) || Committed(md.right, leaf, depth - 1))
  }

  lemma {:induction false} ExhaustedStays(b: MerkleBlock, f: nat, k: nat)
    requires b.Valid()
    ensures RootWalk(b, SIZE_MAX, f, k) == (Zero, SIZE_MAX, f)
  {
  }

  /** For any block without a zero hash: unless the root walk sets its cursor to SIZE_MAX,
      both walks consume the same flags and hashes and every transaction the matching walk
      returns is a leaf at the full depth committed to by the computed root. */
  lemma {:induction false} MatchesAreCommitted(b: MerkleBlock, h: nat, f: nat, k: nat)
    requires b.Valid() && Zero !in b.hashes
    requires RootWalk(b, h, f, k).1 != SIZE_MAX
    ensures var (md, h1, f1) := RootWalk(b, h, f, k);
            var (txs, h2, f2) := TxWalk(b, h, f, k);
            && h1 == h2 && f1 == f2
            && (md == Zero ==> txs == [])
            && forall t :: t in txs ==> Committed(md, t, k)
    decreases k
  {
    if CanRead(b, h, f) && FlagAt(b.flags, f) && k != 0 {
      var (left, h1, f1) := RootWalk(b, h, f + 1, k - 1);
      var (right, h2, f2) := RootWalk(b, h1, f1, k - 1);
      ExhaustedStays(b, f1, k - 1);
      MatchesAreCommitted(b, h, f + 1, k - 1);
      MatchesAreCommitted(b, h1, f1, k - 1);
      RootNode(b, h, f, k, left, h1, f1, right, h2, f2);
      TxNode(b, h, f, k, TxWalk(b, h, f + 1, k - 1).0, h1, f1, TxWalk(b, h1, f1, k - 1).0, h2, f2);
    }
  }

  /** What a tree's hash commits to at its full depth are its leaves. */
  lemma {:induction false} CommittedIsLeaf(t: Tree, k: nat, leaf: Hash)
    requires Shaped(t, k) && Committed(TreeHash(t), leaf, k)
    ensures leaf in Leaves(t)
  {
    match t
    case Leaf(_) =>
    case One(only) => CommittedIsLeaf(only, k - 1, leaf);
    case Two(left, right) =>
      if Committed(TreeHash(left), leaf, k - 1) {
        CommittedIsLeaf(left, k - 1, leaf);
      } else {
        CommittedIsLeaf(right, k - 1, leaf);
      }
  }

  /** A block with the root and the number of a list of transactions and without a zero hash:
      unless the root walk sets its cursor to SIZE_MAX, every match is on the list. */
  lemma {:induction false} MatchesAreInBlock(b: MerkleBlock, txids: seq<Hash>)
    requires b.Valid() && Zero !in b.hashes && txids != [] && b.totalTx == |txids|
    requires RootWalk(b, 0, 0, CeilLog2(b.totalTx)).0 == MerkleRoot(txids)
    requires RootWalk(b, 0, 0, CeilLog2(b.totalTx)).1 != SIZE_MAX
    ensures forall t :: t in TxWalk(b, 0, 0, CeilLog2(b.totalTx)).0 ==> t in txids
  {
    hide RootWalk;
    hide TxWalk;
    var k := CeilLog2(b.totalTx);
    MatchesAreCommitted(b, 0, 0, k);
    TreeHashIsMerkleRoot(BlockTree(txids), k);
    forall t | t in TxWalk(b, 0, 0, k).0
      ensures t in txids
    {
      CommittedIsLeaf(BlockTree(txids), k, t);
    }
  }

  const FIVE: seq<Hash> := [Digest(0), Digest(1), Digest(2), Digest(3), Digest(4)]

  /** The root walk gives up on the last two hashes, which are equal, and their branch counts
      as missing. */
  const FORGED: MerkleBlock := MerkleBlock(5,
    [Pair(Pair(FIVE[0], FIVE[1]), Pair(FIVE[2], FIVE[3])), Pair(FIVE[4], FIVE[4]), Digest(9), Digest(9)], [0x75])

  /** Both walkers on a hash that is no inner node. */
  lemma {:induction false} WalkLeaf(b: MerkleBlock, h: nat, f: nat, k: nat)
    requires CanRead(b, h, f) && (!FlagAt(b.flags, f) || k == 0)
    ensures RootWalk(b, h, f, k) == (b.hashes[h], h + 1, f + 1)
    ensures TxWalk(b, h, f, k) == (if FlagAt(b.flags, f) then [b.hashes[h]] else [], h + 1, f + 1)
  {
  }

  /** The root walk on a node with two equal branches. */
  lemma {:induction false} EqualBranches(b: MerkleBlock, h: nat, f: nat, k: nat, md: Hash, h1: nat, f1: nat, h2: nat, f2: nat)
    requires k > 0 && CanRead(b, h, f) && FlagAt(b.flags, f)
    requires RootWalk(b, h, f + 1, k - 1) == (md, h1, f1) && RootWalk(b, h1, f1, k - 1) == (md, h2, f2)
    ensures RootWalk(b, h, f, k) == (Zero, SIZE_MAX, f2)
  {
  }

  lemma {:induction false} ForgedFlags()
    ensures FlagAt(FORGED.flags, 0) && !FlagAt(FORGED.flags, 1) && FlagAt(FORGED.flags, 2) && !FlagAt(FORGED.flags, 3)
    ensures FlagAt(FORGED.flags, 4) && FlagAt(FORGED.flags, 5) && FlagAt(FORGED.flags, 6)
  {
  }

  lemma {:induction false} ForgedRoot()
    ensures MerkleRoot(FIVE) == Pair(FORGED.hashes[0], Pair(FORGED.hashes[1], FORGED.hashes[1]))
  {
    var a, b, c := Pair(FIVE[0], FIVE[1]), Pair(FIVE[2], FIVE[3]), Pair(FIVE[4], FIVE[4]);
    assert FIVE[2..] == [FIVE[2], FIVE[3], FIVE[4]] && FIVE[2..][2..] == [FIVE[4]];
    assert NextRow(FIVE) == [a, b, c];
    assert [a, b, c][2..] == [c] && NextRow([c]) == [Pair(c, c)];
    assert NextRow([a, b, c]) == [Pair(a, b)] + NextRow([c]) == [Pair(a, b), Pair(c, c)];
    assert [Pair(a, b), Pair(c, c)][2..] == [];
    assert NextRow([Pair(a, b), Pair(c, c)]) == [Pair(Pair(a, b), Pair(c, c))] + NextRow([]);
  }

  /** The validity check does not look at the cursor: a block that it accepts can match a
      transaction it does not contain. */
  lemma {:induction false} ForeignMatchIsAccepted()
    ensures FORGED.Valid() && Zero !in FORGED.hashes && FORGED.totalTx == |FIVE|
    ensures RootWalk(FORGED, 0, 0, CeilLog2(5)) == (MerkleRoot(FIVE), SIZE_MAX, 7)
    ensures TxWalk(FORGED, 0, 0, CeilLog2(5)).0 == [Digest(9), Digest(9)] && Digest(9) !in FIVE
  {
    assert CeilLog2(5) == 3;
    ForgedRoot();
    ForgedFlags();
    hide MerkleRoot;
    hide FlagAt;
    hide RootWalk;
    hide TxWalk;
    var b, x, last := FORGED, Digest(9), FORGED.hashes[1];
    WalkLeaf(b, 0, 1, 2);
    WalkLeaf(b, 1, 3, 1);
    WalkLeaf(b, 2, 5, 0);
    WalkLeaf(b, 3, 6, 0);
    EqualBranches(b, 2, 4, 1, x, 3, 6, 4, 7);
    TxNode(b, 2, 4, 1, [x], 3, 6, [x], 4, 7);
    RootNode(b, 1, 2, 2, last, 2, 4, Zero, SIZE_MAX, 7);
    TxNode(b, 1, 2, 2, [], 2, 4, [x] + [x], 4, 7);
    RootNode(b, 0, 0, 3, b.hashes[0], 1, 2, Pair(last, last), SIZE_MAX, 7);
    TxNode(b, 0, 0, 3, [], 1, 2, [] + ([x] + [x]), 4, 7);
  }
}
