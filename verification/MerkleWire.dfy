/** The wire format of merkle blocks: the 80-byte header and, for a block with transactions, its partial tree. */
module MerkleWire {
  import opened Wrappers
  import opened Wire
  import opened Buffer

  datatype MerkleBlock = MerkleBlock(
    version: nat, prevBlock: seq<Byte>, merkleRoot: seq<Byte>, timestamp: nat, target: nat, nonce: nat,
    totalTx: nat, hashes: seq<seq<Byte>>, flags: seq<Byte>)

  /** A parsed block with the bytes its hash commits to. */
  datatype Parsed = Parsed(block: MerkleBlock, hashed: seq<Byte>)

  function Flat(hashes: seq<seq<Byte>>): seq<Byte> {
    if |hashes| == 0 then [] else Flat(hashes[..|hashes| - 1]) + hashes[|hashes| - 1]
  }

  function HeaderBytes(b: MerkleBlock): seq<Byte> {
    Le(b.version, 4) + (b.prevBlock + (b.merkleRoot + (Le(b.timestamp, 4) + (Le(b.target, 4) + Le(b.nonce, 4)))))
  }

  function TreeBytes(b: MerkleBlock): seq<Byte> {
    Le(b.totalTx, 4) + (VarIntBytes(|b.hashes|) + (Flat(b.hashes) + (VarIntBytes(|b.flags|) + b.flags)))
  }

  /** What BRMerkleBlockSerialize writes. */
  function Serialize(b: MerkleBlock): seq<Byte> {
    if b.totalTx > 0 then HeaderBytes(b) + TreeBytes(b) else HeaderBytes(b)
  }

  /** The 32-byte pieces of a buffer from an offset on. */
  function HashesAt(buf: seq<Byte>, off: nat, n: nat): (h: seq<seq<Byte>>)
    requires off + 32 * n <= |buf|
    ensures |h| == n
  {
    if n == 0 then [] else HashesAt(buf, off, n - 1) + [buf[off + 32 * (n - 1)..off + 32 * n]]
  }

  function ParseHeader(buf: seq<Byte>): MerkleBlock
    requires |buf| >= 80
  {
    MerkleBlock(GetLe(buf, 0, 4), buf[4..36], buf[36..68], GetLe(buf, 68, 4), GetLe(buf, 72, 4), GetLe(buf, 76, 4), 0, [], [])
  }

  /** The tree that follows the header; None where the buffer ends too early. */
  function ParseTree(buf: seq<Byte>, b: MerkleBlock): Option<MerkleBlock>
    requires |buf| >= 84
  {
    var count := VarInt(Rest(buf, 84));
    var hashes := 84 + count.len;
    var at := hashes + 32 * count.value;
    var flags := VarInt(Rest(buf, at));
    var start := at + flags.len;
    if start + flags.value > |buf| then None
    else Some(b.(totalTx := GetLe(buf, 80, 4), hashes := HashesAt(buf, hashes, count.value),
                 flags := buf[start..start + flags.value]))
  }

  /** BRMerkleBlockParse */
  function Parse(buf: seq<Byte>): Option<Parsed> {
    if |buf| < 80 then None
    else if |buf| < 84 then Some(Parsed(ParseHeader(buf), buf[..80]))
    else
      var b := ParseTree(buf, ParseHeader(buf));
      if b.Some? then Some(Parsed(b.value, buf[..80])) else None
  }

  predicate Fits(b: MerkleBlock) {
    && b.version <= MAX32 && |b.prevBlock| == 32 && |b.merkleRoot| == 32 && b.timestamp <= MAX32 && b.target <= MAX32
    && b.nonce <= MAX32 && b.totalTx <= MAX32 && |b.hashes| <= MAX64 && |b.flags| <= MAX64
    && forall k :: 0 <= k < |b.hashes| ==> |b.hashes[k]| == 32
  }

  lemma {:induction false} FlatLength(hashes: seq<seq<Byte>>)
    requires forall k :: 0 <= k < |hashes| ==> |hashes[k]| == 32
    ensures |Flat(hashes)| == 32 * |hashes|
  {
    if |hashes| > 0 {
      FlatLength(hashes[..|hashes| - 1]);
    }
  }

  lemma {:induction false} HashesComeBack(buf: seq<Byte>, off: nat, hashes: seq<seq<Byte>>)
    requires (forall k :: 0 <= k < |hashes| ==> |hashes[k]| == 32) && HasAt(buf, off, Flat(hashes))
    ensures off + 32 * |hashes| <= |buf| && HashesAt(buf, off, |hashes|) == hashes
  {
    FlatLength(hashes);
    if |hashes| > 0 {
      var n := |hashes| - 1;
      HasParts(buf, off, Flat(hashes[..n]), hashes[n]);
      FlatLength(hashes[..n]);
      HashesComeBack(buf, off, hashes[..n]);
    }
  }

  lemma {:induction false} HeaderComesBack(b: MerkleBlock, buf: seq<Byte>)
    requires Fits(b) && HasAt(buf, 0, HeaderBytes(b))
    ensures |HeaderBytes(b)| == 80 && |buf| >= 80
    ensures ParseHeader(buf) == b.(totalTx := 0, hashes := [], flags := [])
  {
    hide GetLe;
    hide Le;
    var t, g, n := Le(b.timestamp, 4), Le(b.target, 4), Le(b.nonce, 4);
    HasParts(buf, 0, Le(b.version, 4), b.prevBlock + (b.merkleRoot + (t + (g + n))));
    Number32At(buf, 0, b.version);
    HasParts(buf, 4, b.prevBlock, b.merkleRoot + (t + (g + n)));
    HasParts(buf, 36, b.merkleRoot, t + (g + n));
    HasParts(buf, 68, t, g + n);
    Number32At(buf, 68, b.timestamp);
    HasParts(buf, 72, g, n);
    Number32At(buf, 72, b.target);
    Number32At(buf, 76, b.nonce);
  }

  lemma {:induction false} TreeComesBack(b: MerkleBlock, buf: seq<Byte>, h: MerkleBlock)
    requires Fits(b) && HasAt(buf, 80, TreeBytes(b)) && |buf| >= 84
    requires h == b.(totalTx := 0, hashes := [], flags := [])
    ensures ParseTree(buf, h) == Some(b)
  {
    hide GetLe;
    hide Le;
    hide VarInt;
    hide VarIntBytes;
    hide Flat;
    hide HashesAt;
    var v, w := VarIntBytes(|b.hashes|), VarIntBytes(|b.flags|);
    HasParts(buf, 80, Le(b.totalTx, 4), v + (Flat(b.hashes) + (w + b.flags)));
    Number32At(buf, 80, b.totalTx);
    HasParts(buf, 84, v, Flat(b.hashes) + (w + b.flags));
    VarIntAt(buf, 84, |b.hashes|);
    HasParts(buf, 84 + |v|, Flat(b.hashes), w + b.flags);
    FlatLength(b.hashes);
    HashesComeBack(buf, 84 + |v|, b.hashes);
    HasParts(buf, 84 + |v| + 32 * |b.hashes|, w, b.flags);
    VarIntAt(buf, 84 + |v| + 32 * |b.hashes|, |b.flags|);
  }

  /** Only the header is written of a block without transactions. */
  predicate Carried(b: MerkleBlock) {
    b.totalTx > 0 || (b.hashes == [] && b.flags == [])
  }

  /**
   * A merkle block comes back from the wire exactly when it has transactions
   * or no tree, and the bytes hashed are those of its header.
   */
  lemma {:induction false} MerkleBlockRoundTrips(b: MerkleBlock)
    requires Fits(b)
    ensures Parse(Serialize(b)).Some? && Parse(Serialize(b)).value.hashed == HeaderBytes(b)
    ensures Parse(Serialize(b)).value.block == b <==> Carried(b)
  {
    hide ParseHeader;
    hide ParseTree;
    hide HeaderBytes;
    hide TreeBytes;
    WholeAt(Serialize(b));
    if b.totalTx > 0 {
      HasParts(Serialize(b), 0, HeaderBytes(b), TreeBytes(b));
      HeaderComesBack(b, Serialize(b));
      TreeLength(b);
      TreeComesBack(b, Serialize(b), b.(totalTx := 0, hashes := [], flags := []));
      assert Serialize(b)[..80] == HeaderBytes(b);
    } else {
      HeaderComesBack(b, Serialize(b));
      assert Serialize(b)[..80] == HeaderBytes(b);
    }
  }

  lemma {:induction false} WholeAt(s: seq<Byte>)
    ensures HasAt(s, 0, s)
  {
  }

  lemma {:induction false} TreeLength(b: MerkleBlock)
    ensures |TreeBytes(b)| == 4 + |VarIntBytes(|b.hashes|)| + |Flat(b.hashes)| + |VarIntBytes(|b.flags|)| + |b.flags|
  {
  }

  /** BRMerkleBlockSerialize: nothing is written unless all of it fits. */
  method SerializeTo(b: MerkleBlock, data: array?<Byte>, dataLen: nat) returns (n: nat)
    requires Fits(b) && (data != null ==> dataLen <= data.Length)
    modifies data
    ensures data == null || |Serialize(b)| <= dataLen ==> n == |Serialize(b)|
    ensures data != null && |Serialize(b)| <= dataLen ==> data[..n] == Serialize(b)
    ensures data != null && |Serialize(b)| > dataLen ==> n == 0 && data[..] == old(data[..])
  {
    hide VarIntBytes;
    hide Le;
    hide Flat;
    FlatLength(b.hashes);
    TreeLength(b);
    var len := 80;
    if b.totalTx > 0 {
      len := len + 4 + |VarIntBytes(|b.hashes|)| + |b.hashes| * 32 + |VarIntBytes(|b.flags|)| + |b.flags|;
    }
    assert len == |Serialize(b)|;
    if data != null && len <= dataLen {
      var off := PutHeader(b, data, dataLen);
      if b.totalTx > 0 {
        off := PutTree(b, data, dataLen, off);
      }
    }
    n := if data == null || len <= dataLen then len else 0;
  }

  method PutHeader(b: MerkleBlock, data: array<Byte>, dataLen: nat) returns (off: nat)
    requires Fits(b) && 80 <= dataLen <= data.Length
    modifies data
    ensures off == 80 && data[..off] == HeaderBytes(b)
  {
    hide Le;
    off := Put(data, dataLen, 0, Le(b.version, 4));
    off := Put(data, dataLen, off, b.prevBlock);
    off := Put(data, dataLen, off, b.merkleRoot);
    off := Put(data, dataLen, off, Le(b.timestamp, 4));
    off := Put(data, dataLen, off, Le(b.target, 4));
    off := Put(data, dataLen, off, Le(b.nonce, 4));
  }

  method PutTree(b: MerkleBlock, data: array<Byte>, dataLen: nat, off0: nat) returns (off: nat)
    requires off0 + |TreeBytes(b)| <= dataLen <= data.Length
    modifies data
    ensures off == off0 + |TreeBytes(b)| && data[..off] == old(data[..off0]) + TreeBytes(b)
  {
    hide Le;
    hide VarIntBytes;
    hide Flat;
    off := Put(data, dataLen, off0, Le(b.totalTx, 4));
    off := Put(data, dataLen, off, VarIntBytes(|b.hashes|));
    off := Put(data, dataLen, off, Flat(b.hashes));
    off := Put(data, dataLen, off, VarIntBytes(|b.flags|));
    off := Put(data, dataLen, off, b.flags);
  }
}
