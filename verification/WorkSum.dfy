/**
 * The proof-of-work sum behind the Bitcoin Cash difficulty check: the walk
 * from the median of the parents of a block down to the median of three
 * blocks about 145 below, and the sum of the work on the way in a 64-bit
 * mantissa with a base-256 exponent.
 */
module WorkSum {
  import opened Wrappers
  import opened Wire

  /** A block hash; a block on the chain is known by its hash, as in BRSet. */
  type Hash = nat

  datatype Block = Block(prevBlock: Hash, timestamp: nat, target: nat)

  type Blocks = map<Hash, Block>

  // ------------------------------------------------------------- the walk down

  /** BRSetGet(blockSet, &b->prevBlock) */
  function Parent(blocks: Blocks, b: Hash): (r: Option<Hash>)
    ensures r.Some? ==> r.value in blocks
  {
    if b in blocks && blocks[b].prevBlock in blocks then Some(blocks[b].prevBlock) else None
  }

  /** The block k below, if the set holds all blocks on the way. */
  function Ancestor(blocks: Blocks, b: Hash, k: nat): (r: Option<Hash>)
    ensures r.Some? ==> r.value in blocks
  {
    if k == 0 then (if b in blocks then Some(b) else None)
    else
      var above := Ancestor(blocks, b, k - 1);
      if above.Some? then Parent(blocks, above.value) else None
  }

  lemma {:induction false} AncestorsAdd(blocks: Blocks, b: Hash, j: nat, k: nat)
    ensures Ancestor(blocks, b, j + k) ==
      match Ancestor(blocks, b, j) case None => None case Some(c) => Ancestor(blocks, c, k)
  {
    if k > 0 {
      AncestorsAdd(blocks, b, j, k - 1);
      assert Ancestor(blocks, b, j + k) ==
        if Ancestor(blocks, b, j + (k - 1)).Some? then Parent(blocks, Ancestor(blocks, b, j + (k - 1)).value) else None;
    }
  }

  function TimeOf(blocks: Blocks, b: Hash): nat
    requires b in blocks
  {
    blocks[b].timestamp
  }

  /** At least two of the three times are not above m, and at least two not below. */
  predicate IsMedian(m: nat, a: nat, b: nat, c: nat) {
    && (m == a || m == b || m == c)
    && ((a <= m && b <= m) || (a <= m && c <= m) || (b <= m && c <= m))
    && ((a >= m && b >= m) || (a >= m && c >= m) || (b >= m && c >= m))
  }

  /** m is the one with the median time of a block, its parent and its grandparent. */
  predicate IsMedianBlock(blocks: Blocks, b: Hash, m: Hash) {
    && Ancestor(blocks, b, 2).Some? && Ancestor(blocks, b, 1).Some? && Ancestor(blocks, b, 0).Some?
    && (exists k :: 0 <= k <= 2 && Ancestor(blocks, b, k) == Some(m))
    && m in blocks
    && IsMedian(TimeOf(blocks, m), TimeOf(blocks, b), TimeOf(blocks, Ancestor(blocks, b, 1).value),
                TimeOf(blocks, Ancestor(blocks, b, 2).value))
  }

  /** `_medianBlock`, a three-way exchange network. */
  method MedianBlock(blocks: Blocks, b: Option<Hash>) returns (m: Option<Hash>)
    requires b.Some? ==> b.value in blocks
    ensures m.Some? <==> b.Some? && Ancestor(blocks, b.value, 2).Some?
    ensures m.Some? ==> IsMedianBlock(blocks, b.value, m.value)
  {
    var b2 := b;
    var b1 := if b2.Some? then Parent(blocks, b2.value) else None;
    var b0 := if b1.Some? then Parent(blocks, b1.value) else None;
    if b.Some? {
      assert Ancestor(blocks, b.value, 0) == b;
      assert Ancestor(blocks, b.value, 1) == b1;
      assert Ancestor(blocks, b.value, 2) == b0;
    }
    if b0.Some? && b2.Some? && TimeOf(blocks, b0.value) > TimeOf(blocks, b2.value) {
      b0, b2 := b2, b0;
    }
    if b0.Some? && b1.Some? && TimeOf(blocks, b0.value) > TimeOf(blocks, b1.value) {
      b0, b1 := b1, b0;
    }
    if b1.Some? && b2.Some? && TimeOf(blocks, b1.value) > TimeOf(blocks, b2.value) {
      b1, b2 := b2, b1;
    }
    m := if b0.Some? && b1.Some? && b2.Some? then b1 else None;
  }

  /** BRSetGet, for a hash that need not be in the set. */
  function Lookup(blocks: Blocks, h: Hash): (r: Option<Hash>)
    ensures r.Some? ==> r.value in blocks
  {
    if h in blocks then Some(h) else None
  }

  /** The block k + 1 below one that is itself not yet in the set. */
  function Below(blocks: Blocks, block: Block, k: nat): Option<Hash> {
    var last := Lookup(blocks, block.prevBlock);
    if last.Some? then Ancestor(blocks, last.value, k) else None
  }

  /** The loop that goes down 145 blocks. */
  method GoDown(blocks: Blocks, block: Block) returns (first: Option<Hash>)
    ensures first == Below(blocks, block, 144)
  {
    first := Lookup(blocks, block.prevBlock);
    var i := 1;
    while first.Some? && i <= 144
      invariant 1 <= i <= 145 && first == Below(blocks, block, i - 1)
    {
      first := Parent(blocks, first.value);
      i := i + 1;
    }
    if Lookup(blocks, block.prevBlock).Some? && first.None? {
      NoAncestorBelow(blocks, block.prevBlock, i - 1, 144);
    }
  }

  lemma {:induction false} NoAncestorBelow(blocks: Blocks, b: Hash, j: nat, k: nat)
    requires j <= k && Ancestor(blocks, b, j).None?
    ensures Ancestor(blocks, b, k).None?
    decreases k
  {
    if j < k {
      NoAncestorBelow(blocks, b, j, k - 1);
    }
  }

  // -------------------------------------------------------- the walk between

  /** The hashes on the way down from b, up to and without the block n below. */
  function Path(blocks: Blocks, b: Hash, n: nat): (p: seq<Hash>)
    requires Ancestor(blocks, b, n).Some?
    ensures |p| == n && forall h :: h in p ==> h in blocks
  {
    if n == 0 then []
    else
      Path(blocks, b, n - 1) + [Ancestor(blocks, b, n - 1).value]
  }

  /** The walk from `b` ends at `first` after n steps, and not before. */
  predicate WalkIs(blocks: Blocks, b: Hash, first: Hash, n: nat) {
    && Ancestor(blocks, b, n) == Some(first)
    && forall k :: 0 <= k < n ==> Ancestor(blocks, b, k) != Some(first)
  }

  /**
   * The blocks the sum runs over exist and the walk ends: from the median of
   * the three blocks above, down to the median of the three about 144 below.
   */
  lemma {:induction false} WalkEnds(blocks: Blocks, block: Block, b: Hash, first: Hash)
    requires block.prevBlock in blocks && Below(blocks, block, 144).Some?
    requires IsMedianBlock(blocks, block.prevBlock, b)
    requires IsMedianBlock(blocks, Below(blocks, block, 144).value, first)
    ensures exists n :: 142 <= n <= 146 && Ancestor(blocks, b, n) == Some(first)
  {
    var top, low := block.prevBlock, Below(blocks, block, 144).value;
    var i :| 0 <= i <= 2 && Ancestor(blocks, top, i) == Some(b);
    var j :| 0 <= j <= 2 && Ancestor(blocks, low, j) == Some(first);
    AncestorsAdd(blocks, top, 144, j);
    AncestorsAdd(blocks, top, i, 144 + j - i);
    assert Ancestor(blocks, b, 144 + j - i) == Some(first);
  }

  /** If the lowest of the three exists then so does everything above it. */
  lemma {:induction false} MedianAboveExists(blocks: Blocks, block: Block)
    requires Below(blocks, block, 144).Some?
    ensures block.prevBlock in blocks && Ancestor(blocks, block.prevBlock, 2).Some?
  {
    if Ancestor(blocks, block.prevBlock, 2).None? {
      NoAncestorBelow(blocks, block.prevBlock, 2, 144);
    }
  }

  // ----------------------------------------------------------------- the sum

  /** 256^(-s): what one unit of a mantissa with exponent s is worth. */
  function Unit(s: int): (u: real)
    ensures u > 0.0
    decreases if s < 0 then -s else s
  {
    if s == 0 then 1.0 else if s > 0 then Unit(s - 1) / 256.0 else Unit(s + 1) * 256.0
  }

  lemma {:induction false} UnitGrows(s: int)
    ensures Unit(s - 1) == Unit(s) * 256.0
  {
  }

  /** The exponent and the mantissa of a target in compact form. */
  function SizeOf(target: nat): nat { target / 0x100_0000 }
  function MantissaOf(target: nat): nat { target % 0x80_0000 }

  /** A compact target is its exponent in the top byte, a sign bit, and a mantissa of 23 bits. */
  lemma {:induction false} CompactForm(target: nat)
    requires target < 0x1_0000_0000
    ensures SizeOf(target) < 256 && MantissaOf(target) < 8388608
    ensures target == 16777216 * SizeOf(target) + MantissaOf(target)
            || target == 16777216 * SizeOf(target) + 8388608 + MantissaOf(target)
  {
    var s, r := target / 0x100_0000, target % 0x100_0000;
    assert target == 0x100_0000 * s + r;
    assert target % 0x80_0000 == r % 0x80_0000;
  }

  /** The work of one block before any rounding; a zero mantissa counts as the largest mantissa of work. */
  function ExactOf(target: nat): real {
    var t := MantissaOf(target);
    (if t == 0 then MAX64 as real else MAX64 as real / t as real) * Unit(SizeOf(target))
  }

  function Exact(targets: seq<nat>): real {
    if |targets| == 0 then 0.0 else Exact(targets[..|targets| - 1]) + ExactOf(targets[|targets| - 1])
  }

  /** A mantissa that is not above a value, and less than c units below it. */
  predicate Within(x: nat, c: nat, u: real, e: real) {
    x as real * u <= e && e < (x + c) as real * u
  }

  lemma {:induction false} Scaled(a: real, b: real, u: real)
    requires a <= b && u >= 0.0
    ensures a * u <= b * u
  {
  }

  /** Shifting a byte out costs less than a unit, and the units that were missing shrink. */
  lemma {:induction false} ShiftKeepsWithin(x: nat, c: nat, u: real, e: real)
    requires u > 0.0 && c >= 1 && Within(x, c, u, e)
    ensures Within(x / 256, c, u * 256.0, e)
  {
    var y := x / 256;
    assert (y * 256) as real == y as real * 256.0;
    Scaled((y * 256) as real, x as real, u);
    assert y as real * (u * 256.0) == (y * 256) as real * u;
    assert x + c <= (y + c) * 256;
    assert ((y + c) * 256) as real == (y + c) as real * 256.0;
    Scaled((x + c) as real, ((y + c) * 256) as real, u);
    assert (y + c) as real * (u * 256.0) == ((y + c) * 256) as real * u;
  }

  lemma {:induction false} WithinAdds(x: nat, c: nat, e: real, y: nat, d: nat, f: real, u: real)
    requires Within(x, c, u, e) && Within(y, d, u, f)
    ensures Within(x + y, c + d, u, e + f)
  {
    assert (x + y) as real == x as real + y as real;
    assert (x + y + (c + d)) as real == (x + c) as real + (y + d) as real;
    assert (x + y) as real * u == x as real * u + y as real * u;
    assert (x + y + (c + d)) as real * u == (x + c) as real * u + (y + d) as real * u;
  }

  lemma {:induction false} QuotientWithin(t: nat, u: real)
    requires t > 0 && u > 0.0
    ensures Within(MAX64 / t, 1, u, MAX64 as real / t as real * u)
  {
    var q := MAX64 / t;
    var r := MAX64 as real / t as real;
    QuotientBounds(MAX64, t, q);
    RatioBetween(MAX64 as real, t as real, q as real, (q + 1) as real, r);
    Scaled(q as real, r, u);
    Times(r, (q + 1) as real, u);
  }

  lemma {:induction false} QuotientBounds(m: nat, t: nat, q: nat)
    requires t > 0 && q == m / t
    ensures q as real * t as real <= m as real < (q + 1) as real * t as real
  {
    assert q * t <= m < (q + 1) * t;
    assert (q * t) as real == q as real * t as real && ((q + 1) * t) as real == (q + 1) as real * t as real;
  }

  lemma {:induction false} RatioBetween(m: real, t: real, low: real, high: real, r: real)
    requires t > 0.0 && r == m / t && low * t <= m < high * t
    ensures low <= r < high
  {
    assert r * t == m;
    if r < low {
      Times(r, low, t);
    } else if r >= high {
      Scaled(high, r, t);
    }
  }

  lemma {:induction false} Times(a: real, b: real, u: real)
    requires a < b && u > 0.0
    ensures a * u < b * u
  {
  }

  lemma {:induction false} OwnWork(target: nat)
    ensures var t := MantissaOf(target);
      Within(if t > 0 then MAX64 / t else MAX64, 1, Unit(SizeOf(target)), ExactOf(target))
  {
    var t, u := MantissaOf(target), Unit(SizeOf(target));
    if t > 0 {
      QuotientWithin(t, u);
    } else {
      Times(MAX64 as real, (MAX64 + 1) as real, u);
    }
  }

  /** Addition of 64-bit values. */
  function Add64(x: nat, y: nat): nat {
    (x + y) % (MAX64 + 1)
  }

  /** The test `work + w < w` finds exactly the sums that wrap around. */
  lemma {:induction false} WrapsAround(x: nat, y: nat)
    requires x <= MAX64 && y <= MAX64
    ensures Add64(x, y) < y <==> x + y > MAX64
    ensures x + y <= MAX64 ==> Add64(x, y) == x + y
  {
  }

  /**
   * One turn of the loop: the work of one more block added, after the three
   * inner loops have brought the two mantissas to one exponent and made room.
   * `rounds` counts the turns of the overflow loop.
   */
  method AddWork(work: nat, size: int, target: nat, ghost c: nat, ghost e: real)
    returns (work': nat, size': int, ghost rounds: nat)
    requires work <= MAX64 && c >= 1 && Within(work, c, Unit(size), e)
    ensures work' <= MAX64 && Within(work', c + 1, Unit(size'), e + ExactOf(target))
    ensures rounds <= 1 && size' <= size && size' <= SizeOf(target)
    ensures size' == (if size < SizeOf(target) then size else SizeOf(target)) - rounds
  {
    hide Within;
    hide Unit;
    hide ExactOf;
    hide SizeOf;
    hide MantissaOf;
    hide Add64;
    var sz: int := SizeOf(target);
    var t := MantissaOf(target);
    var w: nat := if t > 0 then MAX64 / t else MAX64;
    ghost var f := ExactOf(target);
    OwnWork(target);
    work', size', rounds := work, size, 0;
    while sz < size'
      invariant size' <= size && (size' == size || size' >= sz) && work' <= MAX64
      invariant Within(work', c, Unit(size'), e)
    {
      ShiftKeepsWithin(work', c, Unit(size'), e);
      UnitGrows(size');
      work', size' := work' / 256, size' - 1;
    }
    while size' < sz
      invariant size' <= sz <= SizeOf(target) && w <= MAX64
      invariant Within(w, 1, Unit(sz), f)
    {
      ShiftKeepsWithin(w, 1, Unit(sz), f);
      UnitGrows(sz);
      w, sz := w / 256, sz - 1;
    }
    ghost var common := size';
    WrapsAround(work', w);
    while Add64(work', w) < w
      invariant rounds <= 1 && size' == common - rounds && w <= MAX64 && work' <= MAX64
      invariant rounds == 1 ==> w <= MAX64 / 256 && work' <= MAX64 / 256
      invariant Add64(work', w) < w <==> work' + w > MAX64
      invariant Within(work', c, Unit(size'), e) && Within(w, 1, Unit(size'), f)
      decreases 1 - rounds
    {
      ShiftKeepsWithin(work', c, Unit(size'), e);
      ShiftKeepsWithin(w, 1, Unit(size'), f);
      UnitGrows(size');
      w, work', size' := w / 256, work' / 256, size' - 1;
      rounds := rounds + 1;
      WrapsAround(work', w);
    }
    WithinAdds(work', c, e, w, 1, f, Unit(size'));
    WrapsAround(work', w);
    work' := Add64(work', w);
  }

  function Targets(blocks: Blocks, p: seq<Hash>): (s: seq<nat>)
    requires forall h :: h in p ==> h in blocks
    ensures |s| == |p|
  {
    seq(|p|, k requires 0 <= k < |p| => blocks[p[k]].target)
  }

  /** The exact work of the n blocks from b down. */
  function WorkOf(blocks: Blocks, b: Hash, n: nat): real
    requires Ancestor(blocks, b, n).Some?
  {
    Exact(Targets(blocks, Path(blocks, b, n)))
  }

  lemma {:induction false} OneBlockMore(blocks: Blocks, b: Hash, n: nat)
    requires Ancestor(blocks, b, n + 1).Some?
    ensures Ancestor(blocks, b, n).Some?
    ensures WorkOf(blocks, b, n + 1) == WorkOf(blocks, b, n) + ExactOf(blocks[Ancestor(blocks, b, n).value].target)
  {
    var p := Path(blocks, b, n);
    assert Path(blocks, b, n + 1) == p + [Ancestor(blocks, b, n).value];
    var s := Targets(blocks, p + [Ancestor(blocks, b, n).value]);
    assert s[..n] == Targets(blocks, p);
  }

  /** The walk and the sum. The walk ends because `first` is known to lie below. */
  method SumWork(blocks: Blocks, last: Hash, first: Hash, ghost most: nat)
    returns (work: nat, size: int, ghost n: nat)
    requires Ancestor(blocks, last, most) == Some(first)
    ensures n <= most && WalkIs(blocks, last, first, n)
    ensures work <= MAX64 && size <= 0x1d && Within(work, n + 1, Unit(size), WorkOf(blocks, last, n))
  {
    work, size, n := 0, 0x1d, 0;
    var b := last;
    NoAncestorsBetween(blocks, last, 0, most);
    assert Targets(blocks, Path(blocks, last, 0)) == [];
    while b != first
      invariant n <= most && Ancestor(blocks, last, n) == Some(b)
      invariant forall k :: 0 <= k < n ==> Ancestor(blocks, last, k) != Some(first)
      invariant work <= MAX64 && size <= 0x1d && Within(work, n + 1, Unit(size), WorkOf(blocks, last, n))
      decreases most - n
    {
      NoAncestorsBetween(blocks, last, n + 1, most);
      OneBlockMore(blocks, last, n);
      ghost var rounds;
      work, size, rounds := AddWork(work, size, blocks[b].target, n + 1, WorkOf(blocks, last, n));
      b := Parent(blocks, b).value;
      n := n + 1;
    }
  }

  lemma {:induction false} NoAncestorsBetween(blocks: Blocks, b: Hash, j: nat, k: nat)
    requires j <= k && Ancestor(blocks, b, k).Some?
    ensures Ancestor(blocks, b, j).Some?
  {
    if Ancestor(blocks, b, j).None? {
      NoAncestorBelow(blocks, b, j, k);
    }
  }

  /**
   * The first half of the difficulty check of a block: its two ends are found
   * exactly when 147 blocks below it are known, and then the sum of the work
   * between them is at most the exact one, and less than n + 1 units of its
   * own exponent below it, n being the number of blocks.
   */
  method WorkBelow(blocks: Blocks, block: Block)
    returns (found: bool, last: Hash, first: Hash, work: nat, size: int, ghost n: nat)
    ensures found <==> Below(blocks, block, 146).Some?
    ensures found ==> block.prevBlock in blocks && Below(blocks, block, 144).Some?
    ensures found ==> IsMedianBlock(blocks, block.prevBlock, last)
    ensures found ==> IsMedianBlock(blocks, Below(blocks, block, 144).value, first)
    ensures found ==> n <= 146 && WalkIs(blocks, last, first, n)
    ensures found ==> work <= MAX64 && Within(work, n + 1, Unit(size), WorkOf(blocks, last, n))
  {
    found, last, first, work, size, n := false, 0, 0, 0, 0, 0;
    var top := MedianBlock(blocks, Lookup(blocks, block.prevBlock));
    var low := GoDown(blocks, block);
    var bottom := MedianBlock(blocks, low);
    if low.Some? {
      AncestorsAdd(blocks, block.prevBlock, 144, 2);
    } else if block.prevBlock in blocks {
      NoAncestorBelow(blocks, block.prevBlock, 144, 146);
    }
    if bottom.None? {
      return;
    }
    MedianAboveExists(blocks, block);
    found, last, first := true, top.value, bottom.value;
    WalkEnds(blocks, block, last, first);
    ghost var most :| 142 <= most <= 146 && Ancestor(blocks, last, most) == Some(first);
    work, size, n := SumWork(blocks, last, first, most);
  }
}
