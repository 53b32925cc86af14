/** Bytes on the wire: little-endian numbers and Bitcoin's variable-length integers. */
module Wire {

  type Byte = b: nat | b < 256

  function Pow256(n: nat): (r: nat)
    ensures r > 0
  {
    if n == 0 then 1 else 256 * Pow256(n - 1)
  }

  const MAX16: nat := 0xFFFF
  const MAX32: nat := 0xFFFF_FFFF
  const MAX64: nat := 0xFFFF_FFFF_FFFF_FFFF

  /** The low n bytes of v, lowest first. */
  function Le(v: nat, n: nat): (s: seq<Byte>)
    ensures |s| == n
  {
    seq(n, k requires 0 <= k => v / Pow256(k) % 256)
  }

  function FromLe(s: seq<Byte>): nat {
    if |s| == 0 then 0 else s[0] + 256 * FromLe(s[1..])
  }

  lemma {:induction false} DivideTwice(v: nat, m: nat)
    requires m > 0
    ensures v / 256 / m == v / (256 * m)
  {
    var q, r, s := v / 256 / m, v / 256 % m, v % 256;
    assert v / 256 == q * m + r;
    assert v == 256 * (q * m + r) + s;
    assert 256 * (q * m) == q * (256 * m);
    QuotientIs(v, 256 * m, q, 256 * r + s);
  }

  lemma {:induction false} QuotientIs(v: nat, d: nat, q: nat, r: nat)
    requires d > 0 && r < d && v == q * d + r
    ensures v / d == q
  {
    var p, s := v / d, v % d;
    assert v == p * d + s && s < d;
    if p < q {
      Less(p, q, d);
    } else if q < p {
      Less(q, p, d);
    }
  }

  lemma {:induction false} Less(p: nat, q: nat, d: nat)
    requires p < q
    ensures p * d + d <= q * d
  {
    assert (q - p - 1) * d >= 0;
    assert (q - p - 1) * d == q * d - p * d - d;
  }

  lemma {:induction false} LeTail(v: nat, n: nat)
    requires n > 0
    ensures Le(v, n) == [v % 256] + Le(v / 256, n - 1)
  {
    forall k | 0 < k < n
      ensures Le(v, n)[k] == Le(v / 256, n - 1)[k - 1]
    {
      DivideTwice(v, Pow256(k - 1));
    }
    assert Le(v, n)[0] == v % 256;
  }

  lemma {:induction false} LeRoundTrips(v: nat, n: nat)
    requires v < Pow256(n)
    ensures FromLe(Le(v, n)) == v
  {
    if n > 0 {
      LeTail(v, n);
      LeRoundTrips(v / 256, n - 1);
      assert Le(v, n)[1..] == Le(v / 256, n - 1);
    }
  }

  lemma {:induction false} Widths()
    ensures Pow256(2) == MAX16 + 1 && Pow256(4) == MAX32 + 1 && Pow256(8) == MAX64 + 1
  {
    assert Pow256(1) == 256;
    assert Pow256(3) == 256 * 256 * 256;
    assert Pow256(5) == 256 * Pow256(4);
    assert Pow256(7) == 256 * Pow256(6);
  }

  // ------------------------------------------------------ variable-length integers

  datatype Read = Read(value: nat, len: nat)

  /** What is left of a buffer from an offset that may lie behind its end. */
  function Rest(buf: seq<Byte>, off: nat): seq<Byte> {
    if off <= |buf| then buf[off..] else []
  }

  /** A number of n bytes at an offset, or 0 if the buffer ends too early. */
  function GetLe(buf: seq<Byte>, off: nat, n: nat): nat {
    if off + n <= |buf| then FromLe(buf[off..off + n]) else 0
  }

  /** BRVarInt */
  function VarInt(b: seq<Byte>): (r: Read)
    ensures r.len >= 1
  {
    var h := if |b| >= 1 then b[0] else 0;
    if h == 0xfd then Read(GetLe(b, 1, 2), 3)
    else if h == 0xfe then Read(GetLe(b, 1, 4), 5)
    else if h == 0xff then Read(GetLe(b, 1, 8), 9)
    else Read(h, 1)
  }

  /** What BRVarIntSet writes. */
  function VarIntBytes(i: nat): (s: seq<Byte>)
    ensures 1 <= |s| <= 9 && (i < 0xfd ==> |s| == 1) && (i >= 0xfd ==> |s| >= 3)
  {
    if i < 0xfd then [i]
    else if i <= MAX16 then [0xfd] + Le(i, 2)
    else if i <= MAX32 then [0xfe] + Le(i, 4)
    else [0xff] + Le(i, 8)
  }

  lemma {:induction false} NumberInFront(v: nat, n: nat, h: seq<Byte>, rest: seq<Byte>)
    requires v < Pow256(n)
    ensures GetLe(h + Le(v, n) + rest, |h|, n) == v
  {
    LeRoundTrips(v, n);
    assert (h + Le(v, n) + rest)[|h|..|h| + n] == Le(v, n);
  }

  /** Every 64-bit number is read back, whatever follows it. */
  lemma {:induction false} VarIntRoundTrips(i: nat, rest: seq<Byte>)
    requires i <= MAX64
    ensures VarInt(VarIntBytes(i) + rest) == Read(i, |VarIntBytes(i)|)
  {
    Widths();
    if i < 0xfd {
    } else if i <= MAX16 {
      NumberInFront(i, 2, [0xfd], rest);
    } else if i <= MAX32 {
      NumberInFront(i, 4, [0xfe], rest);
    } else {
      NumberInFront(i, 8, [0xff], rest);
    }
  }

  /** The variable-length integers of the Bitcoin protocol: one byte below 253, and otherwise a
      mark and the number in two, four or eight bytes, lowest first, as few as will do. */
  lemma {:induction false} CompactSizeIs(i: nat)
    requires i < 0x1_0000_0000_0000_0000
    ensures var b := VarIntBytes(i);
      && (i < 253 ==> b == [i])
      && (253 <= i < 65536 ==> |b| == 3 && b[0] == 253 && FromLe(b[1..]) == i)
      && (65536 <= i < 4294967296 ==> |b| == 5 && b[0] == 254 && FromLe(b[1..]) == i)
      && (4294967296 <= i ==> |b| == 9 && b[0] == 255 && FromLe(b[1..]) == i)
  {
    Widths();
    hide Pow256;
    if i >= 253 {
      var n, h := if i < 65536 then 2 else if i < 4294967296 then 4 else 8, [VarIntBytes(i)[0]];
      LeRoundTrips(i, n);
      assert VarIntBytes(i) == h + Le(i, n);
      assert (h + Le(i, n))[1..] == Le(i, n);
    }
  }

  // ------------------------------------------------------- bytes within a buffer

  predicate HasAt(buf: seq<Byte>, off: nat, s: seq<Byte>) {
    off + |s| <= |buf| && buf[off..off + |s|] == s
  }

  lemma {:induction false} HasParts(buf: seq<Byte>, off: nat, s: seq<Byte>, t: seq<Byte>)
    requires HasAt(buf, off, s + t)
    ensures HasAt(buf, off, s) && HasAt(buf, off + |s|, t)
  {
    assert buf[off..off + |s|] == (s + t)[..|s|] == s;
    assert buf[off + |s|..off + |s| + |t|] == (s + t)[|s|..] == t;
  }

  lemma {:induction false} NumberAt(buf: seq<Byte>, off: nat, v: nat, n: nat)
    requires v < Pow256(n) && HasAt(buf, off, Le(v, n))
    ensures GetLe(buf, off, n) == v
  {
    LeRoundTrips(v, n);
  }

  lemma {:induction false} Number32At(buf: seq<Byte>, off: nat, v: nat)
    requires v <= MAX32 && HasAt(buf, off, Le(v, 4))
    ensures GetLe(buf, off, 4) == v
  {
    Widths();
    NumberAt(buf, off, v, 4);
  }

  lemma {:induction false} Number64At(buf: seq<Byte>, off: nat, v: nat)
    requires v <= MAX64 && HasAt(buf, off, Le(v, 8))
    ensures GetLe(buf, off, 8) == v
  {
    Widths();
    NumberAt(buf, off, v, 8);
  }

  lemma {:induction false} VarIntAt(buf: seq<Byte>, off: nat, i: nat)
    requires i <= MAX64 && HasAt(buf, off, VarIntBytes(i))
    ensures VarInt(Rest(buf, off)) == Read(i, |VarIntBytes(i)|)
  {
    var end := off + |VarIntBytes(i)|;
    VarIntRoundTrips(i, buf[end..]);
    assert buf[off..] == VarIntBytes(i) + buf[end..];
  }
}
