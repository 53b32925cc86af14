/** The field codec of protocol buffers: base-128 integers, tagged fields, and how they are read back. */
module ProtoBuf {
  import opened Wrappers
  import opened Wire
  import opened Buffer

  const VARINT: nat := 0
  const FIXED64: nat := 1
  const LENDELIM: nat := 2
  const FIXED32: nat := 5

  // ------------------------------------------------------- base-128 integers

  /** What `_ProtoBufSetVarInt` writes: seven bits a byte, the lowest first. */
  function VarBytes(i: nat): (s: seq<Byte>)
    ensures |s| >= 1
    decreases i
  {
    if i < 128 then [i] else [MoreByte(i)] + VarBytes(i / 128)
  }

  /** The low seven bits, marked as not the last. */
  function MoreByte(i: nat): Byte {
    i % 128 + 128
  }

  datatype Number = Number(value: nat, off: nat)

  /** The loop of `_ProtoBufVarInt`, `m` being the weight of the next seven bits. */
  function Scan(buf: seq<Byte>, off: nat, m: nat, sum: nat): (r: Number)
    ensures r.off >= off && (off < |buf| ==> off < r.off <= |buf|)
    decreases |buf| - off
  {
    if off >= |buf| then Number(0, off)
    else
      var b := buf[off];
      var more := sum + b % 128 * m;
      if b < 128 then Number(more % (MAX64 + 1), off + 1)
      else Scan(buf, off + 1, m * 128, more)
  }

  function ReadVar(buf: seq<Byte>, off: nat): (r: Number)
    ensures r.off >= off && (off < |buf| ==> off < r.off <= |buf|)
  {
    Scan(buf, off, 1, 0)
  }

  lemma {:induction false} Weights(i: nat, m: nat)
    ensures i % 128 * m + i / 128 * (m * 128) == i * m
  {
    var q, r := i / 128, i % 128;
    assert i == q * 128 + r;
    assert i * m == (q * 128 + r) * m == q * 128 * m + r * m;
    assert q * 128 * m == q * (m * 128);
  }

  lemma {:induction false} ScanReads(buf: seq<Byte>, off: nat, i: nat, m: nat, sum: nat)
    requires HasAt(buf, off, VarBytes(i)) && sum + i * m <= MAX64
    ensures Scan(buf, off, m, sum) == Number(sum + i * m, off + |VarBytes(i)|)
    decreases i
  {
    if i < 128 {
      assert buf[off] == buf[off..off + 1][0] == i;
    } else {
      HasParts(buf, off, [MoreByte(i)], VarBytes(i / 128));
      assert buf[off] == buf[off..off + 1][0] == i % 128 + 128;
      assert (i % 128 + 128) % 128 == i % 128;
      Weights(i, m);
      ScanReads(buf, off + 1, i / 128, m * 128, sum + i % 128 * m);
    }
  }

  /** Every 64-bit number is read back from where it was written. */
  lemma {:induction false} VarRoundTrips(buf: seq<Byte>, off: nat, i: nat)
    requires HasAt(buf, off, VarBytes(i)) && i <= MAX64
    ensures ReadVar(buf, off) == Number(i, off + |VarBytes(i)|)
  {
    ScanReads(buf, off, i, 1, 0);
  }

  function Pow128(n: nat): nat {
    if n == 0 then 1 else 128 * Pow128(n - 1)
  }

  lemma {:induction false} VarLength(i: nat, n: nat)
    requires n > 0 && i < Pow128(n)
    ensures |VarBytes(i)| <= n
    decreases n
  {
    if i >= 128 {
      VarLength(i / 128, n - 1);
    }
  }

  /** A 64-bit number takes at most ten bytes. */
  lemma {:induction false} TenBytes(i: nat)
    requires i <= MAX64
    ensures |VarBytes(i)| <= 10
  {
    assert Pow128(10) == 0x40_0000_0000_0000_0000;
    VarLength(i, 10);
  }

  method ScanVar(buf: seq<Byte>, off: nat) returns (r: Number)
    ensures r == ReadVar(buf, off)
  {
    var sum: nat, m: nat, o: nat, b: nat := 0, 1, off, 0x80;
    while b >= 0x80 && o < |buf|
      invariant o >= off && 0 <= b < 256
      invariant b >= 0x80 ==> ReadVar(buf, off) == Scan(buf, o, m, sum)
      invariant b < 0x80 ==> ReadVar(buf, off) == Number(sum % (MAX64 + 1), o)
      decreases |buf| - o
    {
      b := buf[o];
      sum, m, o := sum + b % 128 * m, m * 128, o + 1;
    }
    r := Number(if b >= 0x80 then 0 else sum % (MAX64 + 1), o);
  }

  lemma {:induction false} VarBytesJoin(done: seq<Byte>, i: nat)
    requires i >= 128
    ensures done + [MoreByte(i)] + VarBytes(i / 128) == done + VarBytes(i)
  {
  }

  method PutVar(data: array?<Byte>, dataLen: nat, off: nat, i: nat) returns (off': nat)
    requires data != null ==> dataLen <= data.Length
    modifies data
    ensures off' == off + |VarBytes(i)| && Wrote(data, dataLen, off, off', VarBytes(i))
  {
    var rest: nat := i;
    ghost var done: seq<Byte> := [];
    off' := off;
    assert done + VarBytes(rest) == VarBytes(i);
    while rest >= 128
      invariant done + VarBytes(rest) == VarBytes(i)
      invariant off' == off + |done| && Wrote(data, dataLen, off, off', done)
      decreases rest
    {
      VarBytesJoin(done, rest);
      off' := Put(data, dataLen, off', [MoreByte(rest)]);
      done, rest := done + [MoreByte(rest)], rest / 128;
    }
    off' := Put(data, dataLen, off', [rest]);
    assert VarBytes(rest) == [rest];
  }

  // ------------------------------------------------------------------ fields

  function IntBytes(key: nat, i: nat): seq<Byte> {
    VarBytes(key * 8 + VARINT) + VarBytes(i)
  }

  function DataBytes(key: nat, data: seq<Byte>): seq<Byte> {
    VarBytes(key * 8 + LENDELIM) + (VarBytes(|data|) + data)
  }

  /** A field as it is read: its key with the wire type, a number, or data unless the buffer ends too early. */
  datatype Field = Field(key: nat, num: nat, data: Option<seq<Byte>>)

  /**
   * A field and where the next one starts. `wraps` says that its length is so
   * large that the 64-bit offset wraps around: the next field then starts before
   * the end of this one, and the data pointer is set although the data is not
   * within the buffer. `long` says that a number of it is of more than ten
   * bytes, for which the source shifts by more than 63 bits.
   */
  datatype ReadField = ReadField(field: Field, off: nat, wraps: bool, long: bool)

  function FixedAt(buf: seq<Byte>, off: nat, n: nat): nat {
    GetLe(buf, off, n)
  }

  /** `_ProtoBufField` */
  function FieldAt(buf: seq<Byte>, off: nat): (r: ReadField)
    ensures off < |buf| && !r.wraps ==> r.off > off
  {
    var key := ReadVar(buf, off);
    var wire, long := key.value % 8, key.off > off + 10;
    if wire == VARINT then
      var n := ReadVar(buf, key.off);
      ReadField(Field(key.value, n.value, None), n.off, false, long || n.off > key.off + 10)
    else if wire == FIXED64 then ReadField(Field(key.value, FixedAt(buf, key.off, 8), None), key.off + 8, false, long)
    else if wire == FIXED32 then ReadField(Field(key.value, FixedAt(buf, key.off, 4), None), key.off + 4, false, long)
    else if wire == LENDELIM then
      var n := ReadVar(buf, key.off);
      var end := n.off + n.value;
      var longer := long || n.off > key.off + 10;
      if end > MAX64 then ReadField(Field(key.value, 0, None), end - (MAX64 + 1), true, longer)
      else ReadField(Field(key.value, 0, if end <= |buf| then Some(buf[n.off..end]) else None), end, false, longer)
    else ReadField(Field(key.value, 0, None), key.off, false, long)
  }

  /** The wire types of protocol buffers besides numbers and data: 1 has eight bytes, 5 has four,
      and a field of another type ends after its key. */
  lemma {:induction false} OtherFields(buf: seq<Byte>, off: nat, key: Byte)
    requires off < |buf| && buf[off] == key < 128 && key % 8 != 0 && key % 8 != 2
    ensures var r := FieldAt(buf, off);
      && r.field.key == key && r.field.data.None? && !r.wraps && !r.long
      && r.off == off + 1 + (if key % 8 == 1 then 8 else if key % 8 == 5 then 4 else 0)
      && (key % 8 == 1 && off + 9 <= |buf| ==> r.field.num == FromLe(buf[off + 1..off + 9]))
      && (key % 8 == 5 && off + 5 <= |buf| ==> r.field.num == FromLe(buf[off + 1..off + 5]))
  {
    LastByte(key);
    assert buf[off..off + 1] == [key];
    VarRoundTrips(buf, off, key);
    hide ReadVar;
  }

  lemma {:induction false} LastByte(i: Byte)
    requires i < 128
    ensures VarBytes(i) == [i]
  {
  }

  lemma {:induction false} IntComesBack(buf: seq<Byte>, off: nat, key: nat, i: nat)
    requires HasAt(buf, off, IntBytes(key, i)) && key < 16 && i <= MAX64
    ensures FieldAt(buf, off) == ReadField(Field(key * 8, i, None), off + |IntBytes(key, i)|, false, false)
  {
    hide VarBytes;
    hide HasAt;
    hide ReadVar;
    HasParts(buf, off, VarBytes(key * 8), VarBytes(i));
    VarRoundTrips(buf, off, key * 8);
    TenBytes(key * 8);
    TenBytes(i);
    VarRoundTrips(buf, off + |VarBytes(key * 8)|, i);
  }

  lemma {:induction false} DataComesBack(buf: seq<Byte>, off: nat, key: nat, data: seq<Byte>)
    requires HasAt(buf, off, DataBytes(key, data)) && key < 16 && |buf| <= MAX64
    ensures FieldAt(buf, off) == ReadField(Field(key * 8 + LENDELIM, 0, Some(data)), off + |DataBytes(key, data)|, false, false)
  {
    hide VarBytes;
    hide ReadVar;
    HasParts(buf, off, VarBytes(key * 8 + LENDELIM), VarBytes(|data|) + data);
    VarRoundTrips(buf, off, key * 8 + LENDELIM);
    TenBytes(key * 8 + LENDELIM);
    TenBytes(|data|);
    HasParts(buf, off + |VarBytes(key * 8 + LENDELIM)|, VarBytes(|data|), data);
    VarRoundTrips(buf, off + |VarBytes(key * 8 + LENDELIM)|, |data|);
  }

  method PutInt(data: array?<Byte>, dataLen: nat, off: nat, key: nat, i: nat) returns (off': nat)
    requires data != null ==> dataLen <= data.Length
    modifies data
    ensures off' == off + |IntBytes(key, i)| && Wrote(data, dataLen, off, off', IntBytes(key, i))
  {
    hide VarBytes;
    off' := PutVar(data, dataLen, off, key * 8 + VARINT);
    off' := PutVar(data, dataLen, off', i);
  }

  method PutData(data: array?<Byte>, dataLen: nat, off: nat, key: nat, bytes: seq<Byte>) returns (off': nat)
    requires data != null ==> dataLen <= data.Length
    modifies data
    ensures off' == off + |DataBytes(key, bytes)| && Wrote(data, dataLen, off, off', DataBytes(key, bytes))
  {
    hide VarBytes;
    off' := PutVar(data, dataLen, off, key * 8 + LENDELIM);
    off' := PutVar(data, dataLen, off', |bytes|);
    off' := Put(data, dataLen, off', bytes);
  }

  // ---------------------------------------------------------------- messages

  /**
   * What the treatment of a field leads to: it ends, it does not end, or it
   * takes data from outside the buffer or cuts it off, from where on the source
   * is not followed.
   */
  datatype Fate = Fine | Stuck | Astray

  datatype Outcome<T> = Ended(value: T) | Endless | Lost

  function FateThere(fate: (Field, bool) -> Fate, buf: seq<Byte>, off: nat): Fate {
    var r := FieldAt(buf, off);
    if r.long then Astray else fate(r.field, r.wraps)
  }

  function Then<S, T>(o: Outcome<S>, f: S -> T): Outcome<T> {
    match o
    case Ended(s) => Ended(f(s))
    case Endless => Endless
    case Lost => Lost
  }

  /** The fate of reading up to `n` fields; a message is no longer than its bytes. */
  function FateFrom(fate: (Field, bool) -> Fate, buf: seq<Byte>, off: nat, n: nat): Fate
    decreases n
  {
    if off >= |buf| then Fine
    else if n == 0 then Stuck
    else
      var r := FieldAt(buf, off);
      if FateThere(fate, buf, off).Fine? then FateFrom(fate, buf, r.off, n - 1) else FateThere(fate, buf, off)
  }

  function FateOf(fate: (Field, bool) -> Fate, buf: seq<Byte>): Fate {
    FateFrom(fate, buf, 0, |buf|)
  }

  /** Reading up to `n` fields of a message into a state. */
  function ReadAll<S>(apply: (S, Field) -> S, buf: seq<Byte>, off: nat, n: nat, s: S): S
    decreases n
  {
    if off >= |buf| || n == 0 then s
    else
      var r := FieldAt(buf, off);
      ReadAll(apply, buf, r.off, n - 1, apply(s, r.field))
  }

  /** The loop that every message parser is. */
  function ReadMessage<S>(apply: (S, Field) -> S, fate: (Field, bool) -> Fate, buf: seq<Byte>, s: S): Outcome<S> {
    match FateOf(fate, buf)
    case Fine => Ended(ReadAll(apply, buf, 0, |buf|, s))
    case Stuck => Endless
    case Astray => Lost
  }

  /** The loop itself; where it has read more fields than there are bytes it goes on for ever. */
  method ReadFields<S>(apply: (S, Field) -> S, fate: (Field, bool) -> Fate, buf: seq<Byte>, s0: S) returns (r: Outcome<S>)
    ensures r == ReadMessage(apply, fate, buf, s0)
  {
    var off: nat, n: nat, s := 0, |buf|, s0;
    while off < |buf|
      invariant FateFrom(fate, buf, off, n) == FateOf(fate, buf)
      invariant ReadAll(apply, buf, off, n, s) == ReadAll(apply, buf, 0, |buf|, s0)
      decreases n
    {
      if n == 0 { return Endless; }
      var f := FieldAt(buf, off);
      match FateThere(fate, buf, off) {
        case Stuck => return Endless;
        case Astray => return Lost;
        case Fine => s, off, n := apply(s, f.field), f.off, n - 1;
      }
    }
    r := Ended(s);
  }

  // ------------------------------------------------------- when reading ends

  /** Where the k-th field starts; behind the buffer there is none, and the place stays. */
  function Place(buf: seq<Byte>, k: nat): nat {
    if k == 0 then 0
    else
      var off := Place(buf, k - 1);
      if off < |buf| then FieldAt(buf, off).off else off
  }

  /** The first k fields are there and do no harm. */
  predicate Clear(fate: (Field, bool) -> Fate, buf: seq<Byte>, k: nat) {
    forall i: nat :: i < k ==> Place(buf, i) < |buf| && FateThere(fate, buf, Place(buf, i)).Fine?
  }

  predicate FateAt(fate: (Field, bool) -> Fate, buf: seq<Byte>, k: nat, what: Fate) {
    Clear(fate, buf, k) && Place(buf, k) < |buf| && FateThere(fate, buf, Place(buf, k)) == what
  }

  /** The k-th field starts where an earlier one did. */
  predicate ComesBack(fate: (Field, bool) -> Fate, buf: seq<Byte>, i: nat, k: nat) {
    i < k && Clear(fate, buf, k) && Place(buf, i) == Place(buf, k)
  }

  ghost predicate Trapped(fate: (Field, bool) -> Fate, buf: seq<Byte>) {
    (exists k: nat :: FateAt(fate, buf, k, Stuck)) || (exists i: nat, k: nat :: ComesBack(fate, buf, i, k))
  }

  lemma {:induction false} FateAfter(fate: (Field, bool) -> Fate, buf: seq<Byte>, k: nat)
    requires Clear(fate, buf, k) && k <= |buf|
    ensures FateOf(fate, buf) == FateFrom(fate, buf, Place(buf, k), |buf| - k)
  {
    hide FieldAt;
    if k > 0 {
      FateAfter(fate, buf, k - 1);
    }
  }

  /** From a place that was come back to, the same fields are read again and again. */
  lemma {:induction false} Cycle(fate: (Field, bool) -> Fate, buf: seq<Byte>, i: nat, k: nat, m: nat)
    requires ComesBack(fate, buf, i, k)
    ensures Clear(fate, buf, m)
    ensures m >= k ==> Place(buf, m) == Place(buf, m - (k - i))
  {
    hide FieldAt;
    if m > k {
      Cycle(fate, buf, i, k, m - 1);
      var p := m - 1 - (k - i);
      assert Place(buf, m - 1) == Place(buf, p);
    }
  }

  function Below(n: nat): set<nat> {
    if n == 0 then {} else Below(n - 1) + {n - 1}
  }

  lemma {:induction false} BelowIs(n: nat)
    ensures |Below(n)| == n && forall o: nat :: o in Below(n) <==> o < n
  {
    if n > 0 {
      BelowIs(n - 1);
    }
  }

  function Places(buf: seq<Byte>, n: nat): set<nat> {
    if n == 0 then {} else Places(buf, n - 1) + {Place(buf, n - 1)}
  }

  lemma {:induction false} NotAmongPlaces(buf: seq<Byte>, n: nat, o: nat)
    requires forall a: nat :: a < n ==> Place(buf, a) != o
    ensures o !in Places(buf, n)
  {
    hide Place;
    if n > 0 {
      NotAmongPlaces(buf, n - 1, o);
    }
  }

  lemma {:induction false} PlacesAre(buf: seq<Byte>, n: nat)
    requires forall a: nat, b: nat :: a < b < n ==> Place(buf, a) != Place(buf, b)
    requires forall a: nat :: a < n ==> Place(buf, a) < |buf|
    ensures |Places(buf, n)| == n && Places(buf, n) <= Below(|buf|)
  {
    hide Place;
    BelowIs(|buf|);
    hide Below;
    if n > 0 {
      PlacesAre(buf, n - 1);
      NotAmongPlaces(buf, n - 1, Place(buf, n - 1));
    }
  }

  /** More fields than bytes: two of them start at one place. */
  lemma {:induction false} SomePlaceTwice(fate: (Field, bool) -> Fate, buf: seq<Byte>, n: nat) returns (i: nat, k: nat)
    requires Clear(fate, buf, n) && n >= |buf| && Place(buf, n) < |buf|
    ensures k <= n && ComesBack(fate, buf, i, k)
  {
    hide FieldAt;
    hide Place;
    hide Places;
    i, k := 0, 0;
    if forall a: nat, b: nat :: a < b < n + 1 ==> Place(buf, a) != Place(buf, b) {
      PlacesAre(buf, n + 1);
      BelowIs(|buf|);
      SubsetIsSmaller(Places(buf, n + 1), Below(|buf|));
      assert false;
    } else {
      i, k :| i < k <= n && Place(buf, i) == Place(buf, k);
    }
  }

  lemma {:induction false} SubsetIsSmaller(a: set<nat>, b: set<nat>)
    requires a <= b
    ensures |a| <= |b|
  {
    assert b == a + (b - a);
  }

  /** Going on over fields that do no harm, until one decides or there were as many as bytes. */
  lemma {:induction false} ClearUntil(fate: (Field, bool) -> Fate, buf: seq<Byte>, k: nat) returns (n: nat)
    requires Clear(fate, buf, k) && k <= |buf|
    ensures n <= |buf| && Clear(fate, buf, n)
    ensures Place(buf, n) >= |buf| || !FateThere(fate, buf, Place(buf, n)).Fine? || n == |buf|
    decreases |buf| - k
  {
    hide FieldAt;
    hide Place;
    if Place(buf, k) >= |buf| || !FateThere(fate, buf, Place(buf, k)).Fine? || k == |buf| {
      n := k;
    } else {
      n := ClearUntil(fate, buf, k + 1);
    }
  }

  /** After k fields that do no harm, the message has ended or the next one decides. */
  predicate Decides(fate: (Field, bool) -> Fate, buf: seq<Byte>, k: nat, what: Fate) {
    if what.Fine? then Clear(fate, buf, k) && Place(buf, k) >= |buf| else FateAt(fate, buf, k, what)
  }

  lemma {:induction false} DecidesSoon(fate: (Field, bool) -> Fate, buf: seq<Byte>, k: nat, what: Fate)
    requires Decides(fate, buf, k, what)
    ensures k < |buf| || (k == |buf| && what.Fine?)
  {
    hide FieldAt;
    hide Place;
    if k > |buf| || (k == |buf| && !what.Fine?) {
      var i, j := SomePlaceTwice(fate, buf, if k > |buf| then k - 1 else k);
      Cycle(fate, buf, i, j, k + 1);
    }
  }

  lemma {:induction false} DecidedBy(fate: (Field, bool) -> Fate, buf: seq<Byte>, k: nat, what: Fate)
    requires Decides(fate, buf, k, what)
    ensures FateOf(fate, buf) == what
  {
    hide FieldAt;
    hide Place;
    DecidesSoon(fate, buf, k, what);
    FateAfter(fate, buf, k);
  }

  lemma {:induction false} CycleIsStuck(fate: (Field, bool) -> Fate, buf: seq<Byte>, i: nat, k: nat)
    requires ComesBack(fate, buf, i, k)
    ensures FateOf(fate, buf).Stuck?
  {
    hide FieldAt;
    Cycle(fate, buf, i, k, |buf| + 1);
    Cycle(fate, buf, i, k, |buf|);
    FateAfter(fate, buf, |buf|);
    hide Place;
  }

  lemma {:induction false} SomethingDecides(fate: (Field, bool) -> Fate, buf: seq<Byte>)
    ensures FateOf(fate, buf).Stuck? && !(exists k: nat :: Decides(fate, buf, k, Stuck)) ==>
      exists i: nat, k: nat :: ComesBack(fate, buf, i, k)
    ensures !FateOf(fate, buf).Stuck? ==> exists k: nat :: Decides(fate, buf, k, FateOf(fate, buf))
  {
    hide FieldAt;
    hide Place;
    var n := ClearUntil(fate, buf, 0);
    if n == |buf| && Place(buf, n) < |buf| {
      var i, k := SomePlaceTwice(fate, buf, n);
      CycleIsStuck(fate, buf, i, k);
    } else {
      var what := if Place(buf, n) >= |buf| then Fine else FateThere(fate, buf, Place(buf, n));
      assert Decides(fate, buf, n, what);
      DecidedBy(fate, buf, n, what);
    }
  }

  /** Reading does not end exactly when a field is stuck, or one starts where an earlier one did. */
  lemma {:induction false} StuckExactly(fate: (Field, bool) -> Fate, buf: seq<Byte>)
    ensures FateOf(fate, buf).Stuck? <==> Trapped(fate, buf)
    ensures !FateOf(fate, buf).Stuck? <==> exists k: nat, what: Fate :: !what.Stuck? && Decides(fate, buf, k, what)
  {
    hide FateOf;
    hide Clear;
    hide ComesBack;
    SomethingDecides(fate, buf);
    forall k: nat, what: Fate | Decides(fate, buf, k, what)
      ensures FateOf(fate, buf) == what
    {
      DecidedBy(fate, buf, k, what);
    }
    forall i: nat, k: nat | ComesBack(fate, buf, i, k)
      ensures FateOf(fate, buf).Stuck?
    {
      CycleIsStuck(fate, buf, i, k);
    }
    forall k: nat | FateAt(fate, buf, k, Stuck)
      ensures Decides(fate, buf, k, Stuck)
    {
    }
  }

  /** A place is come back to only over a length at which the offset wraps around. */
  lemma {:induction false} ComesBackByWrapping(fate: (Field, bool) -> Fate, buf: seq<Byte>, i: nat, k: nat) returns (m: nat)
    requires ComesBack(fate, buf, i, k)
    ensures i <= m < k && FieldAt(buf, Place(buf, m)).wraps
  {
    m := WrapsSomewhere(fate, buf, i, k);
  }

  lemma {:induction false} WrapsSomewhere(fate: (Field, bool) -> Fate, buf: seq<Byte>, i: nat, k: nat) returns (m: nat)
    requires i < k && Clear(fate, buf, k) && Place(buf, k) <= Place(buf, i)
    ensures i <= m < k && FieldAt(buf, Place(buf, m)).wraps
    decreases k
  {
    hide FieldAt;
    m := k - 1;
    if !FieldAt(buf, Place(buf, m)).wraps {
      assert FieldAt(buf, Place(buf, m)).off > Place(buf, m) by { Advances(buf, Place(buf, m)); }
      m := WrapsSomewhere(fate, buf, i, k - 1);
    }
  }

  lemma {:induction false} Advances(buf: seq<Byte>, off: nat)
    requires off < |buf| && !FieldAt(buf, off).wraps
    ensures FieldAt(buf, off).off > off
  {
  }

  /** Fields to write, in order. */
  datatype Piece = Int(key: nat, i: nat) | Data(key: nat, data: seq<Byte>)

  function PieceBytes(p: Piece): seq<Byte> {
    match p
    case Int(key, i) => IntBytes(key, i)
    case Data(key, data) => DataBytes(key, data)
  }

  function PiecesBytes(ps: seq<Piece>): seq<Byte> {
    if |ps| == 0 then [] else PieceBytes(ps[0]) + PiecesBytes(ps[1..])
  }

  function FieldOf(p: Piece): Field {
    match p
    case Int(key, i) => Field(key * 8, i, None)
    case Data(key, data) => Field(key * 8 + LENDELIM, 0, Some(data))
  }

  predicate PieceFits(p: Piece) {
    match p
    case Int(key, i) => key < 16 && i <= MAX64
    case Data(key, data) => key < 16 && |data| <= MAX64
  }

  predicate AllFit(ps: seq<Piece>) {
    forall k :: 0 <= k < |ps| ==> PieceFits(ps[k])
  }

  /** The state after a list of fields. */
  function ApplyAll<S>(apply: (S, Field) -> S, ps: seq<Piece>, s: S): S
    decreases |ps|
  {
    if |ps| == 0 then s else ApplyAll(apply, ps[1..], apply(s, FieldOf(ps[0])))
  }

  lemma {:induction false} PieceComesBack(buf: seq<Byte>, off: nat, p: Piece)
    requires PieceFits(p) && HasAt(buf, off, PieceBytes(p)) && |buf| <= MAX64
    ensures FieldAt(buf, off) == ReadField(FieldOf(p), off + |PieceBytes(p)|, false, false) && |PieceBytes(p)| > 0
  {
    hide HasAt;
    match p
    case Int(key, i) => IntComesBack(buf, off, key, i);
    case Data(key, data) => DataComesBack(buf, off, key, data);
  }

  /** Written fields do no harm. */
  predicate AllFine(fate: (Field, bool) -> Fate, ps: seq<Piece>) {
    forall k :: 0 <= k < |ps| ==> fate(FieldOf(ps[k]), false).Fine?
  }

  lemma {:induction false} PiecesComeBack<S>(apply: (S, Field) -> S, fate: (Field, bool) -> Fate, buf: seq<Byte>, off: nat, n: nat,
                                             ps: seq<Piece>, s: S)
    requires AllFit(ps) && HasAt(buf, off, PiecesBytes(ps)) && off + |PiecesBytes(ps)| == |buf| <= MAX64
    requires n >= |buf| - off && AllFine(fate, ps)
    ensures ReadAll(apply, buf, off, n, s) == ApplyAll(apply, ps, s) && FateFrom(fate, buf, off, n).Fine?
    decreases |ps|
  {
    hide HasAt;
    hide PieceBytes;
    hide FieldAt;
    hide FieldOf;
    if |ps| > 0 {
      HasParts(buf, off, PieceBytes(ps[0]), PiecesBytes(ps[1..]));
      PieceComesBack(buf, off, ps[0]);
      PiecesComeBack(apply, fate, buf, off + |PieceBytes(ps[0])|, n - 1, ps[1..], apply(s, FieldOf(ps[0])));
    }
  }

  /** A message written as a list of fields is read as that list. */
  lemma {:induction false} MessageComesBack<S>(apply: (S, Field) -> S, fate: (Field, bool) -> Fate, ps: seq<Piece>, s: S)
    requires AllFit(ps) && |PiecesBytes(ps)| <= MAX64 && AllFine(fate, ps)
    ensures ReadMessage(apply, fate, PiecesBytes(ps), s) == Ended(ApplyAll(apply, ps, s))
  {
    var buf := PiecesBytes(ps);
    assert buf[0..|buf|] == buf;
    PiecesComeBack(apply, fate, buf, 0, |buf|, ps, s);
  }

  lemma {:induction false} PiecesJoin(ps: seq<Piece>, qs: seq<Piece>)
    ensures PiecesBytes(ps + qs) == PiecesBytes(ps) + PiecesBytes(qs)
    decreases |ps|
  {
    if |ps| == 0 {
      assert ps + qs == qs;
    } else {
      assert (ps + qs)[1..] == ps[1..] + qs;
      PiecesJoin(ps[1..], qs);
    }
  }

  lemma {:induction false} AppliedJoin<S>(apply: (S, Field) -> S, ps: seq<Piece>, qs: seq<Piece>, s: S)
    ensures ApplyAll(apply, ps + qs, s) == ApplyAll(apply, qs, ApplyAll(apply, ps, s))
    decreases |ps|
  {
    if |ps| == 0 {
      assert ps + qs == qs;
    } else {
      assert (ps + qs)[1..] == ps[1..] + qs;
      AppliedJoin(apply, ps[1..], qs, apply(s, FieldOf(ps[0])));
    }
  }
}
