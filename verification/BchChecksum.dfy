/**
 * The 40-bit BCH checksum of Bitcoin Cash addresses: the `polymod` step, the
 * streams of 5-bit symbols it is fed, and the symbols that complete a stream.
 *
 * The checksum state is written as its forty bits, lowest first, and the
 * symbols as 8-bit vectors.
 */
module BchChecksum {
  import opened Wrappers

  // ------------------------------------------------------------ bits of bytes

  predicate Bit(b: bv8, k: nat) {
    if k == 0 then b & 1 != 0 else
    if k == 1 then b & 2 != 0 else
    if k == 2 then b & 4 != 0 else
    if k == 3 then b & 8 != 0 else
    if k == 4 then b & 16 != 0 else
    if k == 5 then b & 32 != 0 else
    if k == 6 then b & 64 != 0 else
    k == 7 && b & 128 != 0
  }

  function On(b: bool, v: bv8): bv8 {
    if b then v else 0
  }

  // ---------------------------------------------------------------- checksum

  type Word = w: seq<bool> | |w| == 40 witness seq(40, i => false)

  const ZERO: Word := seq(40, i => false)

  const GENERATORS: seq<nat> := [0x98f2bc8e61, 0x79b76d99e2, 0xf33e5fb3c4, 0xae2eabe2a8, 0x1e4f43e470]

  /** Bit k of a generator constant. */
  predicate BitOf(c: nat, k: nat) {
    (c / Pow2(k)) % 2 == 1
  }

  function Xor(a: Word, b: Word): Word {
    seq(40, i requires 0 <= i < 40 => a[i] != b[i])
  }

  /** `(x & 0x07ffffffff) << 5` */
  function Shift(x: Word): Word {
    seq(40, k requires 0 <= k < 40 => k >= 5 && x[k - 5])
  }

  /** `-((x >> (35 + i)) & 1) & generator` */
  function Masked(x: Word, i: nat): Word
    requires i < 5
  {
    seq(40, k requires 0 <= k < 40 => x[35 + i] && BitOf(GENERATORS[i], k))
  }

  /** The shifted state with the first n generators mixed in. */
  function Mixed(x: Word, n: nat): Word
    requires n <= 5
  {
    if n == 0 then Shift(x) else Xor(Mixed(x, n - 1), Masked(x, n - 1))
  }

  function Polymod(x: Word): Word {
    Mixed(x, 5)
  }

  /** A symbol in the low five bits of a word. */
  function Low(c: bv8): Word {
    seq(40, k requires 0 <= k < 40 => k < 5 && Bit(c, k))
  }

  function Feed(x: Word, c: bv8): Word {
    Xor(Polymod(x), Low(c))
  }

  /** The state after a stream of symbols. */
  function Checksum(x: Word, s: seq<bv8>): Word
    decreases |s|
  {
    if |s| == 0 then x else Feed(Checksum(x, s[..|s| - 1]), s[|s| - 1])
  }

  lemma {:induction false} XorSwaps(a: Word, b: Word, c: Word, d: Word)
    ensures Xor(Xor(a, b), Xor(c, d)) == Xor(Xor(a, c), Xor(b, d))
  {
  }

  lemma {:induction false} XorCancels(a: Word, b: Word, c: Word)
    ensures Xor(a, c) == Xor(b, c) ==> a == b
  {
    if Xor(a, c) == Xor(b, c) {
      forall k | 0 <= k < 40
        ensures a[k] == b[k]
      {
        assert Xor(a, c)[k] == Xor(b, c)[k];
      }
    }
  }

  lemma {:induction false} MaskedIsLinear(x: Word, y: Word, i: nat)
    requires i < 5
    ensures Masked(Xor(x, y), i) == Xor(Masked(x, i), Masked(y, i))
  {
    assert Xor(x, y)[35 + i] == (x[35 + i] != y[35 + i]);
  }

  lemma {:induction false} MixedIsLinear(x: Word, y: Word, n: nat)
    requires n <= 5
    ensures Mixed(Xor(x, y), n) == Xor(Mixed(x, n), Mixed(y, n))
  {
    if n == 0 {
      assert Shift(Xor(x, y)) == Xor(Shift(x), Shift(y));
    } else {
      MixedIsLinear(x, y, n - 1);
      MaskedIsLinear(x, y, n - 1);
      XorSwaps(Mixed(x, n - 1), Mixed(y, n - 1), Masked(x, n - 1), Masked(y, n - 1));
    }
  }

  lemma {:induction false} PolymodIsLinear(x: Word, y: Word)
    ensures Polymod(Xor(x, y)) == Xor(Polymod(x), Polymod(y))
  {
    MixedIsLinear(x, y, 5);
  }

  /** The low five bits of the five generators form a diagonal. */
  lemma {:induction false} Diagonal(k: nat, i: nat)
    requires k < 5 && i < 5
    ensures BitOf(GENERATORS[i], k) <==> i == k
  {
    assert Pow2(1) == 2 && Pow2(2) == 4 && Pow2(3) == 8 && Pow2(4) == 16;
  }

  lemma {:induction false} LowBits(x: Word, n: nat, k: nat)
    requires n <= 5 && k < 5
    ensures Mixed(x, n)[k] == (k < n && x[35 + k])
  {
    if n > 0 {
      LowBits(x, n - 1, k);
      Diagonal(k, n - 1);
    }
  }

  lemma {:induction false} Unmix(x: Word, y: Word, n: nat)
    requires n <= 5 && Mixed(x, n) == Mixed(y, n)
    requires forall i :: 35 <= i < 40 ==> x[i] == y[i]
    ensures Shift(x) == Shift(y)
  {
    if n > 0 {
      assert x[34 + n] == y[34 + n];
      assert Masked(x, n - 1) == Masked(y, n - 1);
      XorCancels(Mixed(x, n - 1), Mixed(y, n - 1), Masked(x, n - 1));
      Unmix(x, y, n - 1);
    }
  }

  lemma {:induction false} PolymodIsInjective(x: Word, y: Word)
    requires Polymod(x) == Polymod(y)
    ensures x == y
  {
    forall i | 35 <= i < 40
      ensures x[i] == y[i]
    {
      LowBits(x, 5, i - 35);
      LowBits(y, 5, i - 35);
    }
    Unmix(x, y, 5);
    forall i | 0 <= i < 35
      ensures x[i] == y[i]
    {
      assert Shift(x)[i + 5] == Shift(y)[i + 5];
    }
  }

  function XorSymbols(s: seq<bv8>, t: seq<bv8>): seq<bv8>
    requires |s| == |t|
  {
    seq(|s|, i requires 0 <= i < |s| => s[i] ^ t[i])
  }

  lemma {:induction false} LowIsLinear(c: bv8, d: bv8)
    ensures Low(c ^ d) == Xor(Low(c), Low(d))
  {
    forall k | 0 <= k < 5
      ensures Bit(c ^ d, k) == (Bit(c, k) != Bit(d, k))
    {
    }
  }

  /** The whole checksum is linear in the start state and the stream together. */
  lemma {:induction false} ChecksumIsLinear(x: Word, y: Word, s: seq<bv8>, t: seq<bv8>)
    requires |s| == |t|
    ensures Checksum(Xor(x, y), XorSymbols(s, t)) == Xor(Checksum(x, s), Checksum(y, t))
    decreases |s|
  {
    if |s| > 0 {
      var n := |s| - 1;
      assert XorSymbols(s, t)[..n] == XorSymbols(s[..n], t[..n]);
      ChecksumIsLinear(x, y, s[..n], t[..n]);
      var p, q := Checksum(x, s[..n]), Checksum(y, t[..n]);
      PolymodIsLinear(p, q);
      LowIsLinear(s[n], t[n]);
      XorSwaps(Polymod(p), Polymod(q), Low(s[n]), Low(t[n]));
    }
  }

  lemma {:induction false} ChecksumOfJoined(x: Word, s: seq<bv8>, t: seq<bv8>)
    ensures Checksum(x, s + t) == Checksum(Checksum(x, s), t)
    decreases |t|
  {
    if |t| == 0 {
      assert s + t == s;
    } else {
      var n := |t| - 1;
      assert (s + t)[..|s| + n] == s + t[..n];
      ChecksumOfJoined(x, s, t[..n]);
    }
  }

  /** Different states stay different however the stream goes on. */
  lemma {:induction false} ChecksumIsInjective(x: Word, y: Word, s: seq<bv8>)
    requires Checksum(x, s) == Checksum(y, s)
    ensures x == y
    decreases |s|
  {
    if |s| > 0 {
      var n := |s| - 1;
      var p, q := Checksum(x, s[..n]), Checksum(y, s[..n]);
      XorCancels(Polymod(p), Polymod(q), Low(s[n]));
      PolymodIsInjective(p, q);
      ChecksumIsInjective(x, y, s[..n]);
    }
  }

  /** The bits of up to eight symbols laid end to end, the last one lowest. */
  function Joined(s: seq<bv8>): Word
    requires |s| <= 8
  {
    seq(40, k requires 0 <= k < 40 => k < 5 * |s| && Bit(s[|s| - 1 - k / 5], k % 5))
  }

  lemma {:induction false} NothingOnTop(x: Word, n: nat)
    requires n <= 5 && forall i :: 35 <= i < 40 ==> !x[i]
    ensures Mixed(x, n) == Shift(x)
  {
    if n > 0 {
      NothingOnTop(x, n - 1);
      assert !x[34 + n];
      assert Mixed(x, n) == Xor(Shift(x), Masked(x, n - 1));
    }
  }

  lemma {:induction false} JoinedGrows(s: seq<bv8>, c: bv8)
    requires |s| < 8
    ensures Xor(Shift(Joined(s)), Low(c)) == Joined(s + [c])
  {
    forall k | 0 <= k < 40
      ensures Xor(Shift(Joined(s)), Low(c))[k] == Joined(s + [c])[k]
    {
      if k >= 5 {
        assert (k - 5) / 5 == k / 5 - 1 && (k - 5) % 5 == k % 5;
      }
    }
  }

  /** From the zero state, eight symbols fill the register without feedback. */
  lemma {:induction false} ShortStreamsJoin(s: seq<bv8>)
    requires |s| <= 8
    ensures Checksum(ZERO, s) == Joined(s)
    decreases |s|
  {
    if |s| == 0 {
    } else {
      var n := |s| - 1;
      ShortStreamsJoin(s[..n]);
      NothingOnTop(Joined(s[..n]), 5);
      JoinedGrows(s[..n], s[n]);
      assert s[..n] + [s[n]] == s;
    }
  }

  predicate IsSymbol(c: bv8) {
    c < 32
  }

  lemma {:induction false} SymbolHasBits(c: bv8)
    requires IsSymbol(c) && forall k :: 0 <= k < 5 ==> !Bit(c, k)
    ensures c == 0
  {
    assert !Bit(c, 0) && !Bit(c, 1) && !Bit(c, 2) && !Bit(c, 3) && !Bit(c, 4);
  }

  lemma {:induction false} JoinedTellsApart(s: seq<bv8>, i: nat)
    requires i < |s| <= 8 && IsSymbol(s[i]) && s[i] != 0
    ensures Joined(s) != ZERO
  {
    var k := 5 * (|s| - 1 - i);
    if Joined(s) == ZERO {
      forall b | 0 <= b < 5
        ensures !Bit(s[i], b)
      {
        assert (k + b) / 5 == |s| - 1 - i && (k + b) % 5 == b;
        assert !Joined(s)[k + b];
      }
      SymbolHasBits(s[i]);
    }
  }

  /**
   * The error-detecting property of the checksum: two streams that agree
   * outside a window of at most eight symbols, and differ inside it, never
   * lead from one state to the same state.
   */
  lemma {:induction false} BurstsAreDetected(x: Word, before: seq<bv8>, s: seq<bv8>, t: seq<bv8>, after: seq<bv8>, i: nat)
    requires i < |s| == |t| <= 8 && s[i] != t[i] && IsSymbol(s[i]) && IsSymbol(t[i])
    ensures Checksum(x, before + s + after) != Checksum(x, before + t + after)
  {
    ChecksumOfJoined(x, before + s, after);
    ChecksumOfJoined(x, before, s);
    ChecksumOfJoined(x, before + t, after);
    ChecksumOfJoined(x, before, t);
    var y := Checksum(x, before);
    if Checksum(y, s) == Checksum(y, t) {
      ChecksumIsLinear(y, y, s, t);
      assert Xor(y, y) == ZERO;
      assert Xor(Checksum(y, s), Checksum(y, t)) == ZERO;
      var d := XorSymbols(s, t);
      ShortStreamsJoin(d);
      assert d[i] == s[i] ^ t[i];
      JoinedTellsApart(d, i);
    } else if Checksum(x, before + s + after) == Checksum(x, before + t + after) {
      ChecksumIsInjective(Checksum(y, s), Checksum(y, t), after);
    }
  }

  // -------------------------------------------------------- checksum symbols

  /** Five bits, the highest first, as a symbol. */
  function FiveBits(a: seq<bool>): (s: bv8)
    requires |a| == 5
    ensures IsSymbol(s)
    ensures forall k :: 0 <= k < 5 ==> Bit(s, k) == a[4 - k]
  {
    On(a[0], 16) | On(a[1], 8) | On(a[2], 4) | On(a[3], 2) | On(a[4], 1)
  }

  /** `(x >> ((7 - j) * 5)) & 0x1f` */
  function SymbolAt(x: Word, j: nat): (s: bv8)
    requires j < 8
    ensures IsSymbol(s)
  {
    FiveBits(seq(5, i requires 0 <= i < 5 => x[(7 - j) * 5 + 4 - i]))
  }

  function Symbols(x: Word): (s: seq<bv8>)
    ensures |s| == 8
  {
    seq(8, j requires 0 <= j < 8 => SymbolAt(x, j))
  }

  function Zeros(): (z: seq<bv8>)
    ensures |z| == 8 && AllZero(z)
  {
    [0, 0, 0, 0, 0, 0, 0, 0]
  }

  predicate AllZero(s: seq<bv8>) {
    forall c :: c in s ==> IsZero(c)
  }

  predicate IsZero(c: bv8) {
    c == 0
  }

  /** The eight symbols the encoder appends when its state is x. */
  function ChecksumSymbols(x: Word): (r: seq<bv8>)
    ensures |r| == 8
  {
    Symbols(Xor(Checksum(x, Zeros()), Low(1)))
  }

  lemma {:induction false} SymbolsJoinAt(x: Word, k: nat)
    requires k < 40
    ensures Joined(Symbols(x))[k] == x[k]
  {
    var j, i := 7 - k / 5, k % 5;
    assert k == (7 - j) * 5 + i;
    assert Bit(SymbolAt(x, j), i) == x[k];
  }

  lemma {:induction false} SymbolsJoin(x: Word)
    ensures Joined(Symbols(x)) == x
  {
    forall k | 0 <= k < 40
      ensures Joined(Symbols(x))[k] == x[k]
    {
      SymbolsJoinAt(x, k);
    }
  }

  lemma {:induction false} ZeroXor(z: bv8, c: bv8)
    requires IsZero(z)
    ensures z ^ c == c
  {
  }

  /** Eight symbols appended add their bits to what eight zeros would give. */
  lemma {:induction false} AppendedSymbols(y: Word, z: seq<bv8>, c: seq<bv8>)
    requires |z| == |c| == 8 && AllZero(z)
    ensures Checksum(y, c) == Xor(Checksum(y, z), Joined(c))
  {
    ChecksumIsLinear(y, ZERO, z, c);
    assert Xor(y, ZERO) == y;
    forall i | 0 <= i < 8
      ensures XorSymbols(z, c)[i] == c[i]
    {
      ZeroXor(z[i], c[i]);
    }
    assert XorSymbols(z, c) == c;
    ShortStreamsJoin(c);
  }

  lemma {:induction false} XorBack(x: Word, y: Word)
    ensures Xor(x, Xor(x, y)) == y
  {
  }

  /** With its checksum symbols appended, every stream ends in the state 1. */
  lemma {:induction false} ChecksumCompletes(x: Word)
    ensures Checksum(x, ChecksumSymbols(x)) == Low(1)
  {
    var full := Checksum(x, Zeros());
    AppendedSymbols(x, Zeros(), ChecksumSymbols(x));
    SymbolsJoin(Xor(full, Low(1)));
    XorBack(full, Low(1));
  }
}
