/**
 * Bitcoin Cash addresses: 21 bytes regrouped into 5-bit symbols, spelled out
 * after a prefix and followed by their checksum, and the decoder of such text.
 */
module CashAddr {
  import opened Wrappers
  import opened BchChecksum
  import BchField

  // -------------------------------------------------------------- regrouping

  /** Bit n of a byte string, the top bit of the first byte being bit 0. */
  predicate DataBit(d: seq<bv8>, n: nat) {
    n < 8 * |d| && Bit(d[n / 8], 7 - n % 8)
  }

  /** Bit n of a string of symbols, likewise. */
  predicate SymbolBit(s: seq<bv8>, n: nat) {
    n < 5 * |s| && Bit(s[n / 5], 4 - n % 5)
  }

  /** The symbol that holds bits 5k to 5k + 4 of a byte string. */
  function SymbolOf(d: seq<bv8>, k: nat): (c: bv8)
    ensures IsSymbol(c)
  {
    FiveBits(seq(5, i requires 0 <= i => DataBit(d, 5 * k + i)))
  }

  /** A byte string regrouped into symbols, padded with zero bits. */
  function SymbolsOf(d: seq<bv8>): seq<bv8> {
    seq((8 * |d| + 4) / 5, k requires 0 <= k => SymbolOf(d, k))
  }

  /** Eight bits, the highest first, as a byte. */
  function EightBits(a: seq<bool>): (r: bv8)
    requires |a| == 8
    ensures forall k :: 0 <= k < 8 ==> Bit(r, k) == a[7 - k]
  {
    On(a[0], 128) | On(a[1], 64) | On(a[2], 32) | On(a[3], 16) | On(a[4], 8) | On(a[5], 4) | On(a[6], 2) | On(a[7], 1)
  }

  /** The byte that holds bits 8m to 8m + 7 of a string of symbols. */
  function ByteOf(s: seq<bv8>, m: nat): bv8 {
    EightBits(seq(8, i requires 0 <= i => SymbolBit(s, 8 * m + i)))
  }

  function BytesOf(s: seq<bv8>, n: nat): (d: seq<bv8>)
    ensures |d| == n
  {
    seq(n, m requires 0 <= m => ByteOf(s, m))
  }

  lemma {:induction false} SymbolsKeepBits(d: seq<bv8>, n: nat)
    requires n < 8 * |d|
    ensures SymbolBit(SymbolsOf(d), n) == DataBit(d, n)
  {
    var k, i := n / 5, n % 5;
    assert n == 5 * k + i;
    assert Bit(SymbolOf(d, k), 4 - i) == DataBit(d, 5 * k + i);
  }

  lemma {:induction false} SameByte(x: bv8, y: bv8)
    requires Bit(x, 7) == Bit(y, 7) && Bit(x, 6) == Bit(y, 6) && Bit(x, 5) == Bit(y, 5) && Bit(x, 4) == Bit(y, 4)
    requires Bit(x, 3) == Bit(y, 3) && Bit(x, 2) == Bit(y, 2) && Bit(x, 1) == Bit(y, 1) && Bit(x, 0) == Bit(y, 0)
    ensures x == y
  {
  }

  lemma {:induction false} SameBits(x: bv8, y: bv8)
    requires forall k :: 0 <= k < 8 ==> Bit(x, k) == Bit(y, k)
    ensures x == y
  {
    SameByte(x, y);
  }

  lemma {:induction false} ByteOfBit(s: seq<bv8>, m: nat, i: nat)
    requires i < 8
    ensures Bit(ByteOf(s, m), 7 - i) == SymbolBit(s, 8 * m + i)
  {
  }

  lemma {:induction false} DataBitOf(d: seq<bv8>, m: nat, i: nat)
    requires m < |d| && i < 8
    ensures DataBit(d, 8 * m + i) == Bit(d[m], 7 - i)
  {
    assert (8 * m + i) / 8 == m && (8 * m + i) % 8 == i;
  }

  lemma {:induction false} BitComesBack(d: seq<bv8>, m: nat, i: nat)
    requires m < |d| && i < 8
    ensures Bit(ByteOf(SymbolsOf(d), m), 7 - i) == Bit(d[m], 7 - i)
  {
    var s := SymbolsOf(d);
    var n := 8 * m + i;
    assert SymbolBit(s, n) == DataBit(d, n) by {
      SymbolsKeepBits(d, n);
    }
    assert DataBit(d, n) == Bit(d[m], 7 - i) by {
      DataBitOf(d, m, i);
    }
    ByteOfBit(s, m, i);
  }

  lemma {:induction false} ByteComesBack(d: seq<bv8>, m: nat)
    requires m < |d|
    ensures ByteOf(SymbolsOf(d), m) == d[m]
  {
    forall k | 0 <= k < 8
      ensures Bit(ByteOf(SymbolsOf(d), m), k) == Bit(d[m], k)
    {
      BitComesBack(d, m, 7 - k);
    }
    SameBits(ByteOf(SymbolsOf(d), m), d[m]);
  }

  lemma {:induction false} RegroupingRoundTrips(d: seq<bv8>)
    ensures BytesOf(SymbolsOf(d), |d|) == d
  {
    forall m | 0 <= m < |d|
      ensures BytesOf(SymbolsOf(d), |d|)[m] == d[m]
    {
      ByteComesBack(d, m);
    }
  }

  // the shifts of the encoder: x is the number of bits of the byte before that are still to go

  function FirstSymbol(a: bv8, b: bv8, x: nat): bv8
    requires x < 5
  {
    ((a << (5 - x)) | (b >> (3 + x))) & 0x1f
  }

  function SecondSymbol(b: bv8, x: nat): bv8
    requires 2 <= x < 5
  {
    (b >> (x - 2)) & 0x1f
  }

  lemma {:induction false} FirstSymbolHas(a: bv8, b: bv8, x: nat, n: nat)
    requires x < 5 && n < 5
    ensures Bit(FirstSymbol(a, b, x), n) == if n + x < 5 then Bit(b, n + x + 3) else Bit(a, n + x - 5)
  {
    if x == 0 { assert FirstSymbol(a, b, 0) == b >> 3; }
    else if x == 1 { assert FirstSymbol(a, b, 1) == ((a << 4) | (b >> 4)) & 0x1f; }
    else if x == 2 { assert FirstSymbol(a, b, 2) == ((a << 3) | (b >> 5)) & 0x1f; }
    else if x == 3 { assert FirstSymbol(a, b, 3) == ((a << 2) | (b >> 6)) & 0x1f; }
    else { assert FirstSymbol(a, b, 4) == ((a << 1) | (b >> 7)) & 0x1f; }
  }

  lemma {:induction false} SecondSymbolHas(b: bv8, x: nat, n: nat)
    requires 2 <= x < 5 && n < 5
    ensures Bit(SecondSymbol(b, x), n) == Bit(b, n + x - 2)
  {
    if x == 2 { assert SecondSymbol(b, 2) == b & 0x1f; }
    else if x == 3 { assert SecondSymbol(b, 3) == (b >> 1) & 0x1f; }
    else { assert SecondSymbol(b, 4) == (b >> 2) & 0x1f; }
  }

  lemma {:induction false} AreSymbols(a: bv8, b: bv8, x: nat)
    requires x < 5
    ensures IsSymbol(FirstSymbol(a, b, x)) && (x >= 2 ==> IsSymbol(SecondSymbol(b, x)))
  {
    SmallEnough((a << (5 - x)) | (b >> (3 + x)));
    if x >= 2 {
      SmallEnough(b >> (x - 2));
    }
  }

  lemma {:induction false} SmallEnough(v: bv8)
    ensures v & 0x1f < 32
  {
  }

  lemma {:induction false} SameSymbol(x: bv8, y: bv8)
    requires IsSymbol(x) && IsSymbol(y)
    requires Bit(x, 4) == Bit(y, 4) && Bit(x, 3) == Bit(y, 3) && Bit(x, 2) == Bit(y, 2)
    requires Bit(x, 1) == Bit(y, 1) && Bit(x, 0) == Bit(y, 0)
    ensures x == y
  {
  }

  function Before(d: seq<bv8>, j: nat): bv8
    requires j <= |d|
  {
    if j > 0 then d[j - 1] else 0
  }

  function Here(d: seq<bv8>, j: nat): bv8
    requires j <= |d|
  {
    if j < |d| then d[j] else 0
  }

  lemma {:induction false} NoBits(k: nat)
    ensures !Bit(0, k)
  {
  }

  lemma {:induction false} HereHas(d: seq<bv8>, j: nat, i: nat)
    requires j <= |d| && i < 8
    ensures DataBit(d, 8 * j + i) == Bit(Here(d, j), 7 - i)
  {
    assert (8 * j + i) / 8 == j && (8 * j + i) % 8 == i;
    NoBits(7 - i);
  }

  lemma {:induction false} FirstBitIs(d: seq<bv8>, j: nat, x: nat, n: nat)
    requires j <= |d| && x == 8 * j % 5 && n < 5
    ensures Bit(FirstSymbol(Before(d, j), Here(d, j), x), n) == DataBit(d, 8 * j - x + (4 - n))
  {
    FirstSymbolHas(Before(d, j), Here(d, j), x, n);
    if n + x < 5 {
      HereHas(d, j, 4 - n - x);
    } else {
      HereHas(d, j - 1, 12 - n - x);
      assert 8 * (j - 1) + (12 - n - x) == 8 * j - x + (4 - n);
    }
  }

  lemma {:induction false} SecondBitIs(d: seq<bv8>, j: nat, x: nat, n: nat)
    requires j <= |d| && 2 <= x == 8 * j % 5 && n < 5
    ensures Bit(SecondSymbol(Here(d, j), x), n) == DataBit(d, 8 * j - x + (9 - n))
  {
    SecondSymbolHas(Here(d, j), x, n);
    HereHas(d, j, 9 - n - x);
  }

  lemma {:induction false} SymbolOfHas(d: seq<bv8>, k: nat, n: nat)
    requires n < 5
    ensures Bit(SymbolOf(d, k), n) == DataBit(d, 5 * k + (4 - n))
  {
  }

  lemma {:induction false} FirstSymbolIs(d: seq<bv8>, j: nat, x: nat)
    requires j <= |d| && x == 8 * j % 5
    ensures FirstSymbol(Before(d, j), Here(d, j), x) == SymbolOf(d, 8 * j / 5)
  {
    var c, k := FirstSymbol(Before(d, j), Here(d, j), x), 8 * j / 5;
    assert 8 * j - x == 5 * k;
    AreSymbols(Before(d, j), Here(d, j), x);
    forall n | 0 <= n < 5
      ensures Bit(c, n) == Bit(SymbolOf(d, k), n)
    {
      FirstBitIs(d, j, x, n);
      SymbolOfHas(d, k, n);
    }
    SameSymbol(c, SymbolOf(d, k));
  }

  lemma {:induction false} SecondSymbolIs(d: seq<bv8>, j: nat, x: nat)
    requires j <= |d| && 2 <= x == 8 * j % 5
    ensures SecondSymbol(Here(d, j), x) == SymbolOf(d, 8 * j / 5 + 1)
  {
    var c, k := SecondSymbol(Here(d, j), x), 8 * j / 5 + 1;
    assert 8 * j - x + 5 == 5 * k;
    AreSymbols(0, Here(d, j), x);
    forall n | 0 <= n < 5
      ensures Bit(c, n) == Bit(SymbolOf(d, k), n)
    {
      SecondBitIs(d, j, x, n);
      SymbolOfHas(d, k, n);
    }
    SameSymbol(c, SymbolOf(d, k));
  }

  /** The shifts of the encoder pick out the symbols that begin in byte j or run into it. */
  lemma {:induction false} EncoderShifts(d: seq<bv8>, j: nat, x: nat)
    requires j <= |d| && x == 8 * j % 5
    ensures FirstSymbol(Before(d, j), Here(d, j), x) == SymbolOf(d, 8 * j / 5)
    ensures x >= 2 ==> SecondSymbol(Here(d, j), x) == SymbolOf(d, 8 * j / 5 + 1)
  {
    FirstSymbolIs(d, j, x);
    if x >= 2 {
      SecondSymbolIs(d, j, x);
    }
  }

  // the shifts of the decoder: a symbol fills a byte from bit x on and may run into the next

  function Head(c: bv8, x: nat): bv8
    requires x < 8
  {
    (c << 3) >> x
  }

  function Tail(c: bv8, x: nat): bv8
    requires 3 < x < 8
  {
    c << (11 - x)
  }

  /** What symbol number j adds to byte m. */
  function Share(c: bv8, j: nat, m: nat): bv8 {
    if m == 5 * j / 8 then Head(c, 5 * j % 8)
    else if m == 5 * j / 8 + 1 && 5 * j % 8 > 3 then Tail(c, 5 * j % 8)
    else 0
  }

  predicate HeadBit(c: bv8, x: nat, i: nat)
  {
    x <= i < x + 5 && Bit(c, 4 + x - i)
  }

  predicate TailBit(c: bv8, x: nat, i: nat)
  {
    i + 3 < x && Bit(c, x - 4 - i)
  }

  lemma {:induction false} HeadHas(c: bv8, x: nat, i: nat)
    requires IsSymbol(c) && x < 8 && i < 8
    ensures Bit(Head(c, x), 7 - i) == HeadBit(c, x, i)
  {
    if x == 0 { assert Head(c, 0) == c << 3; }
    else if x == 1 { assert Head(c, 1) == (c << 3) >> 1; }
    else if x == 2 { assert Head(c, 2) == (c << 3) >> 2; }
    else if x == 3 { assert Head(c, 3) == (c << 3) >> 3; }
    else if x == 4 { assert Head(c, 4) == (c << 3) >> 4; }
    else if x == 5 { assert Head(c, 5) == (c << 3) >> 5; }
    else if x == 6 { assert Head(c, 6) == (c << 3) >> 6; }
    else { assert Head(c, 7) == (c << 3) >> 7; }
  }

  lemma {:induction false} TailHas(c: bv8, x: nat, i: nat)
    requires IsSymbol(c) && 3 < x < 8 && i < 8
    ensures Bit(Tail(c, x), 7 - i) == TailBit(c, x, i)
  {
    if x == 4 { assert Tail(c, 4) == c << 7; }
    else if x == 5 { assert Tail(c, 5) == c << 6; }
    else if x == 6 { assert Tail(c, 6) == c << 5; }
    else { assert Tail(c, 7) == c << 4; }
  }

  predicate AddedBit(c: bv8, j: nat, n: nat) {
    5 * j <= n < 5 * j + 5 && Bit(c, 5 * j + 4 - n)
  }

  lemma {:induction false} ShareHas(c: bv8, j: nat, m: nat, i: nat)
    requires IsSymbol(c) && i < 8
    ensures Bit(Share(c, j, m), 7 - i) == AddedBit(c, j, 8 * m + i)
  {
    var x := 5 * j % 8;
    if m == 5 * j / 8 {
      HeadHas(c, x, i);
    } else if m == 5 * j / 8 + 1 && x > 3 {
      TailHas(c, x, i);
    } else {
      NoBits(7 - i);
    }
  }

  lemma {:induction false} OrHas(a: bv8, b: bv8, k: nat)
    ensures Bit(a | b, k) == (Bit(a, k) || Bit(b, k))
  {
    if k < 4 {
      assert k == 0 || k == 1 || k == 2 || k == 3;
    } else if k < 8 {
      assert k == 4 || k == 5 || k == 6 || k == 7;
    }
  }

  lemma {:induction false} SymbolBitsGrow(s: seq<bv8>, c: bv8, n: nat)
    ensures SymbolBit(s + [c], n) == (SymbolBit(s, n) || AddedBit(c, |s|, n))
  {
    if n < 5 * |s| {
      assert (s + [c])[n / 5] == s[n / 5];
    } else if n < 5 * |s| + 5 {
      assert n / 5 == |s| && n % 5 == n - 5 * |s|;
    }
  }

  lemma {:induction false} ByteBitGrows(s: seq<bv8>, c: bv8, m: nat, i: nat)
    requires IsSymbol(c) && i < 8
    ensures Bit(ByteOf(s + [c], m), 7 - i) == Bit(ByteOf(s, m) | Share(c, |s|, m), 7 - i)
  {
    ByteOfBit(s + [c], m, i);
    ByteOfBit(s, m, i);
    SymbolBitsGrow(s, c, 8 * m + i);
    ShareHas(c, |s|, m, i);
    OrHas(ByteOf(s, m), Share(c, |s|, m), 7 - i);
  }

  /** One step of the decoder: or-ing in a symbol regroups one symbol more. */
  lemma {:induction false} DecoderShifts(s: seq<bv8>, c: bv8, m: nat)
    requires IsSymbol(c)
    ensures ByteOf(s + [c], m) == ByteOf(s, m) | Share(c, |s|, m)
  {
    forall k | 0 <= k < 8
      ensures Bit(ByteOf(s + [c], m), k) == Bit(ByteOf(s, m) | Share(c, |s|, m), k)
    {
      ByteBitGrows(s, c, m, 7 - k);
    }
    SameBits(ByteOf(s + [c], m), ByteOf(s, m) | Share(c, |s|, m));
  }

  // -------------------------------------------------------------------- text

  /** The character table of the encoder. */
  function CharOf(c: bv8): char {
    if c == 0 then 'q' else if c == 1 then 'p' else if c == 2 then 'z' else if c == 3 then 'r'
    else if c == 4 then 'y' else if c == 5 then '9' else if c == 6 then 'x' else if c == 7 then '8'
    else if c == 8 then 'g' else if c == 9 then 'f' else if c == 10 then '2' else if c == 11 then 't'
    else if c == 12 then 'v' else if c == 13 then 'd' else if c == 14 then 'w' else if c == 15 then '0'
    else if c == 16 then 's' else if c == 17 then '3' else if c == 18 then 'j' else if c == 19 then 'n'
    else if c == 20 then '5' else if c == 21 then '4' else if c == 22 then 'k' else if c == 23 then 'h'
    else if c == 24 then 'c' else if c == 25 then 'e' else if c == 26 then '6' else if c == 27 then 'm'
    else if c == 28 then 'u' else if c == 29 then 'a' else if c == 30 then '7' else 'l'
  }

  predicate IsUpper(c: char) { 'A' <= c <= 'Z' }

  predicate IsLower(c: char) { 'a' <= c <= 'z' }

  function ToLower(c: char): char {
    if IsUpper(c) then ((c as int) + 32) as char else c
  }

  /** The switch of the decoder, on a lower-case character. */
  function LowerDigit(c: char): Option<bv8> {
    if c == 'q' then Some(0) else if c == 'p' then Some(1) else if c == 'z' then Some(2) else if c == 'r' then Some(3)
    else if c == 'y' then Some(4) else if c == '9' then Some(5) else if c == 'x' then Some(6) else if c == '8' then Some(7)
    else if c == 'g' then Some(8) else if c == 'f' then Some(9) else if c == '2' then Some(10) else if c == 't' then Some(11)
    else if c == 'v' then Some(12) else if c == 'd' then Some(13) else if c == 'w' then Some(14) else if c == '0' then Some(15)
    else if c == 's' then Some(16) else if c == '3' then Some(17) else if c == 'j' then Some(18) else if c == 'n' then Some(19)
    else if c == '5' then Some(20) else if c == '4' then Some(21) else if c == 'k' then Some(22) else if c == 'h' then Some(23)
    else if c == 'c' then Some(24) else if c == 'e' then Some(25) else if c == '6' then Some(26) else if c == 'm' then Some(27)
    else if c == 'u' then Some(28) else if c == 'a' then Some(29) else if c == '7' then Some(30) else if c == 'l' then Some(31)
    else None
  }

  function DigitValue(c: char): Option<bv8> {
    LowerDigit(ToLower(c))
  }

  predicate IsPrintable(c: char) { 33 <= c as int <= 126 }

  /** `c & 0x1f` */
  function Low5(c: char): bv8 {
    ((c as int) % 32) as bv8
  }

  lemma {:induction false} DigitsComeBack(c: bv8)
    requires IsSymbol(c)
    ensures DigitValue(CharOf(c)) == Some(c)
    ensures IsPrintable(CharOf(c)) && !IsUpper(CharOf(c)) && CharOf(c) != ':'
  {
  }

  lemma {:induction false} DigitsAreSymbols(c: char)
    ensures DigitValue(c).Some? ==> IsSymbol(DigitValue(c).value)
    ensures DigitValue(':') == None
  {
  }

  // ----------------------------------------------------- the address format

  const PAYLOAD: nat := 21

  predicate GoodPrefix(hrp: string) {
    |hrp| <= 13 && forall k :: 0 <= k < |hrp| ==> IsPrintable(hrp[k]) && !IsUpper(hrp[k])
  }

  function LowBitsOf(t: string): (s: seq<bv8>)
    ensures |s| == |t|
  {
    seq(|t|, k requires 0 <= k < |t| => Low5(t[k]))
  }

  /** What the checksum is fed for a prefix and its separator. */
  function PrefixStream(hrp: string): seq<bv8> {
    LowBitsOf(hrp) + [0]
  }

  function Text(s: seq<bv8>): (t: string)
    ensures |t| == |s|
  {
    seq(|s|, k requires 0 <= k < |s| => CharOf(s[k]))
  }

  /** The payload and checksum symbols of an address. */
  function AddressSymbols(hrp: string, data: seq<bv8>): seq<bv8> {
    var s := SymbolsOf(data);
    s + ChecksumSymbols(Checksum(Low(1), PrefixStream(hrp) + s))
  }

  function Encode(hrp: string, data: seq<bv8>): Option<string> {
    if GoodPrefix(hrp) && |data| == PAYLOAD
    then Some(hrp + [':'] + Text(AddressSymbols(hrp, data)))
    else None
  }

  /** The last ':' of the first n + 1 characters, or 0: a text without one loses its first character. */
  function Separator(addr: string, n: nat): (sep: nat)
    requires n <= |addr|
    ensures sep <= n && (0 < sep ==> sep < |addr| && addr[sep] == ':')
    ensures forall k :: sep < k <= n && k < |addr| ==> addr[k] != ':'
  {
    if n == 0 || (n < |addr| && addr[n] == ':') then n else Separator(addr, n - 1)
  }

  predicate AllDigits(t: string) {
    forall k :: 0 <= k < |t| ==> DigitValue(t[k]).Some?
  }

  function Values(t: string): (s: seq<bv8>)
    requires AllDigits(t)
    ensures |s| == |t|
  {
    seq(|t|, k requires 0 <= k < |t| => DigitValue(t[k]).value)
  }

  predicate MixedCase(addr: string) {
    (exists k :: 0 <= k < |addr| && IsUpper(addr[k])) && (exists k :: 0 <= k < |addr| && IsLower(addr[k]))
  }

  /** The tests made before any symbol is read. */
  predicate Screened(addr: string) {
    && (forall k :: 0 <= k < |addr| ==> IsPrintable(addr[k]))
    && !MixedCase(addr)
    && Separator(addr, |addr|) <= 11
    && Separator(addr, |addr|) + 34 + 8 <= |addr|
  }

  predicate WellFormed(addr: string) {
    Screened(addr) && AllDigits(addr[Separator(addr, |addr|) + 1..])
  }

  /** What the checksum is fed for a whole address with its separator at `sep`. */
  function Stream(addr: string, sep: nat): seq<bv8>
    requires sep < |addr| && AllDigits(addr[sep + 1..])
  {
    PrefixStream(addr[..sep]) + Values(addr[sep + 1..])
  }

  function Lowered(t: string): (r: string)
    ensures |r| == |t|
  {
    seq(|t|, k requires 0 <= k < |t| => ToLower(t[k]))
  }

  function Least(a: nat, b: nat): nat {
    if a < b then a else b
  }

  datatype Decoded = Decoded(prefix: string, data: seq<bv8>)

  function Decode(addr: string): Option<Decoded> {
    var sep := Separator(addr, |addr|);
    if WellFormed(addr) && Checksum(Low(1), Stream(addr, sep)) == Low(1) && (|addr| - (sep + 8)) * 5 / 8 == PAYLOAD
    then
      var s := Values(addr[sep + 1..]);
      Some(Decoded(Lowered(addr[..sep]), BytesOf(s[..Least(35, |s| - 8)], PAYLOAD)))
    else None
  }

  // ---------------------------------------------------------------- theorems

  lemma {:induction false} SeparatorIs(addr: string, sep: nat, n: nat)
    requires sep <= n <= |addr| && sep < |addr| && addr[sep] == ':'
    requires forall k :: sep < k < |addr| ==> addr[k] != ':'
    ensures Separator(addr, n) == sep
  {
  }

  lemma {:induction false} TextComesBack(s: seq<bv8>)
    requires forall k :: 0 <= k < |s| ==> IsSymbol(s[k])
    ensures AllDigits(Text(s)) && Values(Text(s)) == s
    ensures forall k :: 0 <= k < |s| ==> IsPrintable(Text(s)[k]) && !IsUpper(Text(s)[k]) && Text(s)[k] != ':'
  {
    forall k | 0 <= k < |s|
      ensures DigitValue(Text(s)[k]) == Some(s[k])
      ensures IsPrintable(Text(s)[k]) && !IsUpper(Text(s)[k]) && Text(s)[k] != ':'
    {
      DigitsComeBack(s[k]);
    }
  }

  lemma {:induction false} AddressSymbolsAre(hrp: string, data: seq<bv8>)
    requires |data| == PAYLOAD
    ensures |AddressSymbols(hrp, data)| == 42 && AddressSymbols(hrp, data)[..34] == SymbolsOf(data)
    ensures forall k :: 0 <= k < 42 ==> IsSymbol(AddressSymbols(hrp, data)[k])
  {
    var s := SymbolsOf(data);
    assert forall k :: 0 <= k < 34 ==> s[k] == SymbolOf(data, k);
  }

  /** The parts of a prefix, a separator and 42 digits, as the decoder finds them. */
  lemma {:induction false} PartsOf(hrp: string, t: string)
    requires GoodPrefix(hrp) && |hrp| <= 11 && |t| == 42 && AllDigits(t)
    requires forall k :: 0 <= k < |t| ==> IsPrintable(t[k]) && !IsUpper(t[k]) && t[k] != ':'
    ensures var addr := hrp + [':'] + t;
      && Separator(addr, |addr|) == |hrp| && addr[..|hrp|] == hrp && addr[|hrp| + 1..] == t && WellFormed(addr)
  {
    var addr := hrp + [':'] + t;
    assert addr[..|hrp|] == hrp && addr[|hrp| + 1..] == t;
    forall k | |hrp| < k < |addr|
      ensures addr[k] == t[k - |hrp| - 1]
    {
    }
    SeparatorIs(addr, |hrp|, |addr|);
    forall k | 0 <= k < |addr|
      ensures IsPrintable(addr[k]) && !IsUpper(addr[k])
    {
      assert addr[k] == if k < |hrp| then hrp[k] else if k == |hrp| then ':' else t[k - |hrp| - 1];
    }
  }

  lemma {:induction false} EncodedChecks(hrp: string, data: seq<bv8>)
    requires |data| == PAYLOAD
    ensures Checksum(Low(1), PrefixStream(hrp) + AddressSymbols(hrp, data)) == Low(1)
  {
    var s := SymbolsOf(data);
    var p := PrefixStream(hrp) + s;
    var x := Checksum(Low(1), p);
    ChecksumCompletes(x);
    ChecksumOfJoined(Low(1), p, ChecksumSymbols(x));
    assert PrefixStream(hrp) + AddressSymbols(hrp, data) == p + ChecksumSymbols(x);
  }

  lemma {:induction false} LoweredIs(hrp: string)
    requires GoodPrefix(hrp)
    ensures Lowered(hrp) == hrp
  {
  }

  lemma {:induction false} DecodeOfParts(hrp: string, s: seq<bv8>)
    requires GoodPrefix(hrp) && |hrp| <= 11 && |s| == 42 && forall k :: 0 <= k < |s| ==> IsSymbol(s[k])
    requires Checksum(Low(1), PrefixStream(hrp) + s) == Low(1)
    ensures Decode(hrp + [':'] + Text(s)) == Some(Decoded(hrp, BytesOf(s[..34], PAYLOAD)))
  {
    TextComesBack(s);
    PartsOf(hrp, Text(s));
    LoweredIs(hrp);
  }

  /** Decoding an encoded address gives back the prefix and the data. */
  lemma {:induction false} AddressRoundTrips(hrp: string, data: seq<bv8>)
    requires GoodPrefix(hrp) && |hrp| <= 11 && |data| == PAYLOAD
    ensures Encode(hrp, data).Some?
    ensures Decode(Encode(hrp, data).value) == Some(Decoded(hrp, data))
  {
    AddressSymbolsAre(hrp, data);
    EncodedChecks(hrp, data);
    DecodeOfParts(hrp, AddressSymbols(hrp, data));
    RegroupingRoundTrips(data);
  }

  /** Two symbol streams that agree outside a window of eight and differ inside are told apart. */
  lemma {:induction false} StreamsDiffer(u: seq<bv8>, v: seq<bv8>, p: nat, n: nat, i: nat)
    requires |u| == |v| && p + n <= |u| && n <= 8 && p <= i < p + n
    requires u[..p] == v[..p] && u[p + n..] == v[p + n..]
    requires u[i] != v[i] && IsSymbol(u[i]) && IsSymbol(v[i])
    ensures Checksum(Low(1), u) != Checksum(Low(1), v)
  {
    Pieces(u, p, n);
    Pieces(v, p, n);
    BurstsAreDetected(Low(1), u[..p], u[p..p + n], v[p..p + n], u[p + n..], i - p);
  }

  lemma {:induction false} Pieces(u: seq<bv8>, p: nat, n: nat)
    requires p + n <= |u|
    ensures u == u[..p] + u[p..p + n] + u[p + n..]
  {
  }

  /** An address with the characters from position p on replaced by `t`. */
  function Replaced(addr: string, p: nat, t: string): (r: string)
    requires p + |t| <= |addr|
    ensures |r| == |addr|
  {
    addr[..p] + t + addr[p + |t|..]
  }

  lemma {:induction false} SeparatorStays(addr: string, p: nat, t: string)
    requires Separator(addr, |addr|) < p && p + |t| <= |addr| && ':' !in t
    ensures Separator(Replaced(addr, p, t), |addr|) == Separator(addr, |addr|)
  {
    var sep := Separator(addr, |addr|);
    var bad := Replaced(addr, p, t);
    assert forall k :: sep < k < |addr| ==> bad[k] != ':';
    assert sep > 0 ==> bad[sep] == ':';
  }

  lemma {:induction false} StreamAt(addr: string, sep: nat, k: nat)
    requires sep < k < |addr| && AllDigits(addr[sep + 1..])
    ensures |Stream(addr, sep)| == |addr| && DigitValue(addr[k]) == Some(Stream(addr, sep)[k])
    ensures IsSymbol(Stream(addr, sep)[k])
  {
    assert addr[k] == addr[sep + 1..][k - sep - 1];
    DigitsAreSymbols(addr[k]);
  }

  lemma {:induction false} StreamsAgree(addr: string, bad: string, sep: nat, p: nat, n: nat)
    requires sep < p <= p + n <= |addr| == |bad| && addr[..p] == bad[..p] && addr[p + n..] == bad[p + n..]
    requires AllDigits(addr[sep + 1..]) && AllDigits(bad[sep + 1..])
    ensures |Stream(addr, sep)| == |Stream(bad, sep)| == |addr|
    ensures Stream(addr, sep)[..p] == Stream(bad, sep)[..p]
    ensures Stream(addr, sep)[p + n..] == Stream(bad, sep)[p + n..]
  {
    var u, v := Stream(addr, sep), Stream(bad, sep);
    assert addr[..sep] == addr[..p][..sep] == bad[..p][..sep] == bad[..sep];
    forall k | sep < k < p
      ensures u[k] == v[k]
    {
      StreamAt(addr, sep, k);
      StreamAt(bad, sep, k);
      assert addr[k] == addr[..p][k] == bad[..p][k] == bad[k];
    }
    forall k | p + n <= k < |addr|
      ensures u[k] == v[k]
    {
      StreamAt(addr, sep, k);
      StreamAt(bad, sep, k);
      assert addr[k] == addr[p + n..][k - p - n] == bad[p + n..][k - p - n] == bad[k];
    }
  }

  lemma {:induction false} ChecksumsDiffer(addr: string, bad: string, sep: nat, p: nat, n: nat, i: nat)
    requires sep < p <= i < p + n <= |addr| == |bad| && n <= 8
    requires addr[..p] == bad[..p] && addr[p + n..] == bad[p + n..]
    requires AllDigits(addr[sep + 1..]) && AllDigits(bad[sep + 1..]) && DigitValue(addr[i]) != DigitValue(bad[i])
    ensures Checksum(Low(1), Stream(addr, sep)) != Checksum(Low(1), Stream(bad, sep))
  {
    StreamsAgree(addr, bad, sep, p, n);
    StreamAt(addr, sep, i);
    StreamAt(bad, sep, i);
    StreamsDiffer(Stream(addr, sep), Stream(bad, sep), p, n, i);
  }

  /** The separator is at `sep` and the rest is a valid stream after it. */
  predicate Checks(addr: string, sep: nat) {
    sep < |addr| && AllDigits(addr[sep + 1..]) && Checksum(Low(1), Stream(addr, sep)) == Low(1)
  }

  lemma {:induction false} OnlyCheckedIsAccepted(addr: string, sep: nat)
    requires Decode(addr).Some? && Separator(addr, |addr|) == sep
    ensures Checks(addr, sep)
  {
  }

  lemma {:induction false} UncheckedIsRejected(addr: string, sep: nat)
    requires !Checks(addr, sep) && Separator(addr, |addr|) == sep
    ensures Decode(addr) == None
  {
  }

  lemma {:induction false} NotBothCheck(addr: string, bad: string, sep: nat, p: nat, n: nat, i: nat)
    requires sep < p <= i < p + n <= |addr| == |bad| && n <= 8
    requires addr[..p] == bad[..p] && addr[p + n..] == bad[p + n..] && DigitValue(addr[i]) != DigitValue(bad[i])
    requires Checks(addr, sep)
    ensures !Checks(bad, sep)
  {
    if Checks(bad, sep) {
      ChecksumsDiffer(addr, bad, sep, p, n, i);
    }
  }

  lemma {:induction false} ReplacedParts(addr: string, p: nat, t: string, i: nat)
    requires p + |t| <= |addr| && i < |t|
    ensures Replaced(addr, p, t)[..p] == addr[..p] && Replaced(addr, p, t)[p + |t|..] == addr[p + |t|..]
    ensures DigitValue(Replaced(addr, p, t)[p + i]) == DigitValue(t[i])
  {
  }

  lemma {:induction false} BurstsAreNoticed(addr: string, sep: nat, p: nat, t: string, i: nat)
    requires Checks(addr, sep) && sep < p && p + |t| <= |addr| && |t| <= 8
    requires i < |t| && DigitValue(t[i]) != DigitValue(addr[p + i])
    ensures !Checks(Replaced(addr, p, t), sep)
  {
    ReplacedParts(addr, p, t, i);
    NotBothCheck(addr, Replaced(addr, p, t), sep, p, |t|, p + i);
  }

  /**
   * Error detection: replace up to eight neighbouring symbols of an accepted
   * address by other characters than ':' so that at least one stands for
   * another symbol, or for none, and the result is rejected.
   */
  lemma {:induction false} BurstsAreRejected(addr: string, p: nat, t: string, i: nat)
    requires Decode(addr).Some? && Separator(addr, |addr|) < p && p + |t| <= |addr| && |t| <= 8 && ':' !in t
    requires i < |t| && DigitValue(t[i]) != DigitValue(addr[p + i])
    ensures Decode(Replaced(addr, p, t)) == None
  {
    var sep := Separator(addr, |addr|);
    hide DigitValue;
    OnlyCheckedIsAccepted(addr, sep);
    BurstsAreNoticed(addr, sep, p, t, i);
    SeparatorStays(addr, p, t);
    UncheckedIsRejected(Replaced(addr, p, t), sep);
  }

  lemma {:induction false} ColonStream(addr: string, sep: nat)
    requires sep + 1 < |addr| && addr[sep] == ':' && AllDigits(addr[sep + 1..])
    ensures var bad := addr[sep + 1 := ':'];
      AllDigits(bad[sep + 2..]) && Checksum(Low(1), Stream(addr, sep)) != Checksum(Low(1), Stream(bad, sep + 1))
  {
    var bad := addr[sep + 1 := ':'];
    assert bad[sep + 2..] == addr[sep + 1..][1..];
    var u, v := Stream(addr, sep), Stream(bad, sep + 1);
    assert u[..sep] == v[..sep];
    assert u[sep + 2..] == v[sep + 2..];
    assert u[sep] == 0 && v[sep] == Low5(':');
    assert Low5(':') == 26;
    StreamsDiffer(u, v, sep, 2, sep);
  }

  /** A symbol that turns into a ':' moves the separator, and is still noticed. */
  lemma {:induction false} ColonsAreRejected(addr: string, p: nat)
    requires Decode(addr).Some? && Separator(addr, |addr|) < p < |addr| && addr[Separator(addr, |addr|)] == ':'
    ensures Decode(addr[p := ':']) == None
  {
    var sep := Separator(addr, |addr|);
    var bad := addr[p := ':'];
    SeparatorIs(bad, p, |bad|);
    OnlyCheckedIsAccepted(addr, sep);
    if p == sep + 1 {
      ColonStream(addr, sep);
      UncheckedIsRejected(bad, p);
    } else {
      LengthsAccepted(addr, sep);
      if Decode(bad).Some? {
        LengthsAccepted(bad, p);
      }
    }
  }

  lemma {:induction false} LengthsAccepted(addr: string, sep: nat)
    requires Decode(addr).Some? && sep == Separator(addr, |addr|)
    ensures sep + 42 <= |addr| <= sep + 43
  {
  }

  /**
   * Error detection as the format promises it: replace one payload or checksum
   * symbol by any character that is not the same symbol, and the result is rejected.
   */
  lemma {:induction false} SymbolErrorsAreRejected(addr: string, p: nat, c: char)
    requires Decode(addr).Some? && addr[Separator(addr, |addr|)] == ':'
    requires Separator(addr, |addr|) < p < |addr| && DigitValue(c) != DigitValue(addr[p])
    ensures Decode(addr[p := c]) == None
  {
    if c == ':' {
      ColonsAreRejected(addr, p);
    } else {
      BurstsAreRejected(addr, p, [c], 0);
      ReplacedOne(addr, p, c);
    }
  }

  /**
   * The one error that goes unnoticed in a text without a separator: of 43
   * characters, the first adds nothing to the checksum, and the second, a zero
   * symbol that adds nothing either, becomes a ':'.
   */
  predicate LooksSeparated(addr: string, p: nat, c: char) {
    |addr| == 43 && p == 1 && c == ':' && Low5(addr[0]) == 0 && DigitValue(addr[1]) == Some(0)
  }

  lemma {:induction false} StreamsWithout(addr: string)
    requires |addr| >= 2 && AllDigits(addr[1..])
    ensures var bad := addr[1 := ':'];
      && AllDigits(bad[2..]) && |Stream(addr, 0)| == |Stream(bad, 1)| == |addr|
      && Stream(addr, 0)[2..] == Stream(bad, 1)[2..]
      && Stream(addr, 0)[0] == 0 == Stream(bad, 1)[1] && Stream(bad, 1)[0] == Low5(addr[0])
      && DigitValue(addr[1]) == Some(Stream(addr, 0)[1]) && IsSymbol(Stream(addr, 0)[1]) && IsSymbol(Stream(bad, 1)[0])
  {
    var bad := addr[1 := ':'];
    assert bad[2..] == addr[1..][1..];
    assert addr[..0] == [] && bad[..1] == [addr[0]];
    StreamAt(addr, 0, 1);
    Low5IsSymbol(addr[0]);
  }

  lemma {:induction false} Low5IsSymbol(c: char)
    ensures IsSymbol(Low5(c))
  {
    assert (c as int) % 32 < 32;
    SmallSymbol((c as int) % 32);
  }

  lemma {:induction false} SmallSymbol(n: int)
    requires 0 <= n < 32
    ensures IsSymbol(n as bv8)
  {
  }

  /** The new separator leaves the checksum right exactly when both characters add nothing. */
  lemma {:induction false} SameChecksum(addr: string)
    requires |addr| >= 2 && AllDigits(addr[1..]) && Checksum(Low(1), Stream(addr, 0)) == Low(1)
    ensures Checks(addr[1 := ':'], 1) <==> Low5(addr[0]) == 0 && DigitValue(addr[1]) == Some(0)
  {
    StreamsWithout(addr);
    var u, v := Stream(addr, 0), Stream(addr[1 := ':'], 1);
    hide DigitValue;
    hide Low5;
    hide Stream;
    hide AllDigits;
    hide Checksum;
    if u[0] == v[0] && u[1] == v[1] {
      Pieces(u, 0, 2);
      Pieces(v, 0, 2);
      assert u[..2] == v[..2];
      assert u == v;
    } else {
      assert u[..0] == v[..0];
      StreamsDiffer(u, v, 0, 2, if u[0] == v[0] then 1 else 0);
    }
  }

  lemma {:induction false} SeparatedIsScreened(addr: string)
    requires Decode(addr).Some? && |addr| == 43 && DigitValue(addr[1]) == Some(0) && Separator(addr, 43) == 0
    ensures Screened(addr[1 := ':']) && Separator(addr[1 := ':'], 43) == 1
  {
    var bad := addr[1 := ':'];
    SeparatorIs(bad, 1, 43);
    assert forall k :: 0 <= k < 43 && k != 1 ==> bad[k] == addr[k];
    ColonKeepsCase(addr);
  }

  lemma {:induction false} ColonKeepsCase(addr: string)
    requires |addr| > 1
    ensures MixedCase(addr[1 := ':']) ==> MixedCase(addr)
  {
    var bad := addr[1 := ':'];
    assert forall k :: 0 <= k < |addr| ==> (IsUpper(bad[k]) ==> IsUpper(addr[k])) && (IsLower(bad[k]) ==> IsLower(addr[k]));
  }

  lemma {:induction false} ColonInSecondPlace(addr: string)
    requires Decode(addr).Some? && Separator(addr, |addr|) == 0 && addr[0] != ':'
    ensures Decode(addr[1 := ':']).Some? <==> LooksSeparated(addr, 1, ':')
  {
    var bad := addr[1 := ':'];
    LengthsAccepted(addr, 0);
    OnlyCheckedIsAccepted(addr, 0);
    SeparatorIs(bad, 1, |bad|);
    SameChecksum(addr);
    if LooksSeparated(addr, 1, ':') {
      SeparatedIsScreened(addr);
    } else if Decode(bad).Some? {
      LengthsAccepted(bad, 1);
      OnlyCheckedIsAccepted(bad, 1);
    }
  }

  /** In a text without a ':' every replaced symbol is noticed but for that one error. */
  lemma {:induction false} ErrorsWithoutSeparator(addr: string, p: nat, c: char)
    requires Decode(addr).Some? && ':' !in addr && 0 < p < |addr| && DigitValue(c) != DigitValue(addr[p])
    ensures Decode(addr[p := c]).Some? <==> LooksSeparated(addr, p, c)
  {
    assert Separator(addr, |addr|) == 0;
    LengthsAccepted(addr, 0);
    hide Decode;
    hide Separator;
    hide DigitValue;
    if c != ':' {
      BurstsAreRejected(addr, p, [c], 0);
      ReplacedOne(addr, p, c);
    } else if p == 1 {
      ColonInSecondPlace(addr);
    } else {
      SeparatorIs(addr[p := c], p, |addr|);
      if Decode(addr[p := c]).Some? {
        LengthsAccepted(addr[p := c], p);
      }
    }
  }

  /** There is such a text. */
  lemma {:induction false} ErrorGoesUnnoticed() returns (addr: string)
    ensures Decode(addr).Some? && ':' !in addr && LooksSeparated(addr, 1, ':') && Decode(addr[1 := ':']).Some?
  {
    var zeros: seq<bv8> := seq(33, i => 0);
    var x := Checksum(Low(1), PrefixStream("@") + zeros);
    var s := zeros + ChecksumSymbols(x);
    addr := "@q" + Text(s);
    ChecksumCompletes(x);
    ChecksumOfJoined(Low(1), PrefixStream("@") + zeros, ChecksumSymbols(x));
    assert PrefixStream("@") + s == PrefixStream("@") + zeros + ChecksumSymbols(x);
    TextComesBack(s);
    TextWithout(s);
    ErrorsWithoutSeparator(addr, 1, ':');
  }

  lemma {:induction false} TextWithout(s: seq<bv8>)
    requires |s| == 41 && AllDigits(Text(s)) && Values(Text(s)) == s
    requires forall k :: 0 <= k < |s| ==> IsPrintable(Text(s)[k]) && !IsUpper(Text(s)[k]) && Text(s)[k] != ':'
    requires Checksum(Low(1), PrefixStream("@") + s) == Low(1)
    ensures var addr := "@q" + Text(s);
      && Decode(addr).Some? && ':' !in addr && LooksSeparated(addr, 1, ':') && DigitValue(':') != DigitValue(addr[1])
  {
    var addr := "@q" + Text(s);
    PlainText(s);
    TextStream(s);
    assert DigitValue(':') == None && DigitValue('q') == Some(0) && Low5('@') == 0;
    hide DigitValue;
    hide Stream;
    hide Checksum;
    assert addr[0] == '@' && addr[1] == 'q' && |addr| == 43;
  }

  lemma {:induction false} PlainText(s: seq<bv8>)
    requires forall k :: 0 <= k < |s| ==> IsPrintable(Text(s)[k]) && !IsUpper(Text(s)[k]) && Text(s)[k] != ':'
    ensures var addr := "@q" + Text(s);
      && (forall k :: 0 <= k < |addr| ==> IsPrintable(addr[k]) && !IsUpper(addr[k]))
      && ':' !in addr && Separator(addr, |addr|) == 0
  {
    var addr := "@q" + Text(s);
    forall k | 0 <= k < |addr|
      ensures IsPrintable(addr[k]) && !IsUpper(addr[k]) && addr[k] != ':'
    {
      assert addr[k] == if k == 0 then '@' else if k == 1 then 'q' else Text(s)[k - 2];
    }
  }

  lemma {:induction false} TextStream(s: seq<bv8>)
    requires AllDigits(Text(s)) && Values(Text(s)) == s
    ensures var addr := "@q" + Text(s); AllDigits(addr[1..]) && Stream(addr, 0) == PrefixStream("@") + s
  {
    var addr := "@q" + Text(s);
    assert addr[1..] == "q" + Text(s);
    assert DigitValue('q') == Some(0);
    assert PrefixStream([]) == [0] && PrefixStream("@") == [0, 0];
    hide DigitValue;
    hide PrefixStream;
    assert AllDigits(addr[1..]) && Values(addr[1..]) == [0] + s;
    assert addr[..0] == [];
    assert Stream(addr, 0) == [0] + ([0] + s) == PrefixStream("@") + s;
  }

  lemma {:induction false} ReplacedOne(addr: string, p: nat, c: char)
    requires p < |addr|
    ensures Replaced(addr, p, [c]) == addr[p := c]
  {
  }

  // ------------------------------------------------------ the specification

  /** The characters of the CashAddr specification ("Payload"), in the order of their values. */
  const CHARSET: string := "qpzry9x8gf2tvdw0s3jn54khce6mua7l"

  lemma {:induction false} DigitsAreOfCharset(c: bv8)
    requires IsSymbol(c)
    ensures CharOf(c) == CHARSET[c as int]
  {
  }

  lemma {:induction false} CharsetDigits(n: nat)
    requires n < 32
    ensures LowerDigit(CHARSET[n]) == Some(n as bv8) && !IsUpper(CHARSET[n])
  {
    Low5Number(n);
    SymbolOfNumber(n);
    DigitsAreOfCharset(n as bv8);
    DigitsComeBack(n as bv8);
    hide LowerDigit;
    hide CharOf;
  }

  lemma {:induction false} SymbolOfNumber(n: nat)
    requires n < 32
    ensures IsSymbol(n as bv8)
  {
  }

  lemma {:induction false} CharsetOnce(c: bv8, d: bv8)
    requires c < 32 && d < 32 && CHARSET[c as int] == CHARSET[d as int]
    ensures c == d
  {
    BelowIsSymbol(c);
    BelowIsSymbol(d);
    DigitsAreOfCharset(c);
    DigitsAreOfCharset(d);
    DigitsComeBack(c);
    DigitsComeBack(d);
    hide DigitValue;
    hide CharOf;
  }

  lemma {:induction false} BelowIsSymbol(c: bv8)
    requires c < 32
    ensures IsSymbol(c)
  {
  }

  lemma {:induction false} NoOtherDigits(c: char)
    ensures LowerDigit(c).Some? ==> c in CHARSET
  {
  }

  /** The value of a digit is its place among the characters, and other characters have none. */
  lemma {:induction false} DigitValueIs(c: char, n: nat)
    requires n < 32
    ensures DigitValue(c) == Some(n as bv8) <==> ToLower(c) == CHARSET[n]
    ensures DigitValue(c).Some? <==> ToLower(c) in CHARSET
  {
    CharsetDigits(n);
    NoOtherDigits(ToLower(c));
    if ToLower(c) in CHARSET {
      var k :| 0 <= k < |CHARSET| && CHARSET[k] == ToLower(c);
      CharsetDigits(k);
      SameNumber(k, n);
    }
    hide LowerDigit;
    hide ToLower;
  }

  lemma {:induction false} SameNumber(k: nat, n: nat)
    requires k < 32 && n < 32
    ensures k as bv8 == n as bv8 <==> k == n
  {
  }

  /** What the specification feeds the checksum: the low five bits of the prefix, a zero for the
      separator, and the values of the digits. */
  predicate IsSpecified(addr: string, sep: nat, s: seq<bv8>)
    requires sep < |addr|
  {
    && |s| == |addr| && s[sep] == 0
    && (forall k :: 0 <= k < sep ==> s[k] as int == addr[k] as int % 32)
    && (forall k :: sep < k < |addr| ==> s[k] < 32 && ToLower(addr[k]) == CHARSET[s[k] as int])
  }

  lemma {:induction false} StreamIsSpecified(addr: string, sep: nat)
    requires sep < |addr| && AllDigits(addr[sep + 1..])
    ensures IsSpecified(addr, sep, Stream(addr, sep))
  {
    var s := Stream(addr, sep);
    forall k | sep < k < |addr|
      ensures s[k] < 32 && ToLower(addr[k]) == CHARSET[s[k] as int]
    {
      StreamAt(addr, sep, k);
      SymbolNumber(s[k]);
      DigitValueIs(addr[k], s[k] as int);
    }
    forall k | 0 <= k < sep
      ensures s[k] as int == addr[k] as int % 32
    {
      assert s[k] == Low5(addr[k]);
      Low5Number(addr[k] as int % 32);
    }
  }

  lemma {:induction false} SymbolNumber(c: bv8)
    requires IsSymbol(c)
    ensures c < 32 && (c as int) as bv8 == c
  {
  }

  lemma {:induction false} Low5Number(n: nat)
    requires n < 32
    ensures (n as bv8) as int == n
  {
  }

  /** An accepted text is one with the right remainder, as the specification takes it. */
  lemma {:induction false} AcceptedAsSpecified(addr: string) returns (s: seq<bv8>)
    requires Decode(addr).Some?
    ensures IsSpecified(addr, Separator(addr, |addr|), s) && BchField.Remainder(BchField.ONE, s) == BchField.ONE
    ensures forall k :: 0 <= k < |addr| ==> 33 <= addr[k] as int <= 126
    ensures (forall k :: 0 <= k < |addr| ==> !('A' <= addr[k] <= 'Z')) || (forall k :: 0 <= k < |addr| ==> !('a' <= addr[k] <= 'z'))
    ensures Separator(addr, |addr|) <= 11 && 42 <= |addr| - Separator(addr, |addr|) <= 43
    ensures |Decode(addr).value.data| == 21 && |Decode(addr).value.prefix| == Separator(addr, |addr|)
    ensures forall k :: 0 <= k < Separator(addr, |addr|) ==>
      Decode(addr).value.prefix[k] == if 'A' <= addr[k] <= 'Z' then (addr[k] as int + 32) as char else addr[k]
  {
    var sep := Separator(addr, |addr|);
    OnlyCheckedIsAccepted(addr, sep);
    StreamIsSpecified(addr, sep);
    s := Stream(addr, sep);
    BchField.ChecksExactly(s);
  }

  /** And one with the right form and length, but another remainder, is not accepted. */
  lemma {:induction false} RejectedAsSpecified(addr: string, s: seq<bv8>)
    requires WellFormed(addr) && IsSpecified(addr, Separator(addr, |addr|), s)
    requires (|addr| - (Separator(addr, |addr|) + 8)) * 5 / 8 == 21
    ensures Decode(addr).Some? <==> BchField.Remainder(BchField.ONE, s) == BchField.ONE
  {
    var sep := Separator(addr, |addr|);
    DecodesExactly(addr);
    StreamIsSpecified(addr, sep);
    SpecifiedOnce(addr, sep, s, Stream(addr, sep));
    BchField.ChecksExactly(s);
    hide *;
  }

  lemma {:induction false} DecodesExactly(addr: string)
    requires WellFormed(addr) && (|addr| - (Separator(addr, |addr|) + 8)) * 5 / 8 == 21
    ensures var sep := Separator(addr, |addr|);
      sep < |addr| && AllDigits(addr[sep + 1..]) && (Decode(addr).Some? <==> Checksum(Low(1), Stream(addr, sep)) == Low(1))
  {
    hide Checksum;
    hide Stream;
    hide Lowered;
    hide BytesOf;
  }

  lemma {:induction false} SpecifiedOnce(addr: string, sep: nat, s: seq<bv8>, t: seq<bv8>)
    requires sep < |addr| && IsSpecified(addr, sep, s) && IsSpecified(addr, sep, t)
    ensures s == t
  {
    forall k | 0 <= k < |addr|
      ensures s[k] == t[k]
    {
      if k < sep {
        SameBytes(s[k], t[k]);
      } else if k > sep {
        CharsetOnce(s[k], t[k]);
      }
    }
  }

  lemma {:induction false} SameBytes(c: bv8, d: bv8)
    ensures c as int == d as int ==> c == d
  {
  }

  // ------------------------------------------------------------- the encoder

  /** How many symbols the encoder has written when it reaches byte j. */
  function Emitted(j: nat): nat {
    if j <= PAYLOAD then 8 * j / 5 else 34
  }

  lemma {:induction false} FeedNothing(x: Word)
    ensures Feed(x, 0) == Polymod(x)
  {
    assert forall k :: 0 <= k < 5 ==> !Bit(0, k);
  }

  lemma {:induction false} OneMore(x: Word, s: seq<bv8>, c: bv8)
    ensures Checksum(x, s + [c]) == Feed(Checksum(x, s), c)
  {
    assert (s + [c])[..|s|] == s;
  }

  lemma {:induction false} TextGrows(s: seq<bv8>, c: bv8)
    ensures Text(s + [c]) == Text(s) + [CharOf(c)]
  {
  }

  /** The text and the checksum state after the front part and the symbols `s`. */
  predicate Written(text: string, chk: Word, hrp: string, s: seq<bv8>) {
    text == hrp + [':'] + Text(s) && chk == Checksum(Low(1), PrefixStream(hrp) + s)
  }

  lemma {:induction false} WritingOne(text: string, chk: Word, hrp: string, s: seq<bv8>, c: bv8)
    requires Written(text, chk, hrp, s)
    ensures Written(text + [CharOf(c)], Feed(chk, c), hrp, s + [c])
  {
    TextGrows(s, c);
    OneMore(Low(1), PrefixStream(hrp) + s, c);
    assert PrefixStream(hrp) + s + [c] == PrefixStream(hrp) + (s + [c]);
  }

  lemma {:induction false} SymbolsTake(d: seq<bv8>, k: nat)
    requires k < |SymbolsOf(d)|
    ensures SymbolsOf(d)[..k + 1] == SymbolsOf(d)[..k] + [SymbolOf(d, k)]
  {
  }

  /** `chk = polymod(chk) ^ c, addr[i++] = chars[c]` */
  method Emit(addr: array<char>, i: nat, chk: Word, c: bv8, ghost hrp: string, ghost data: seq<bv8>, ghost k: nat)
    returns (i': nat, chk': Word)
    requires i < addr.Length && k < |SymbolsOf(data)| && c == SymbolOf(data, k)
    requires Written(addr[..i], chk, hrp, SymbolsOf(data)[..k])
    modifies addr
    ensures i' == i + 1 && Written(addr[..i'], chk', hrp, SymbolsOf(data)[..k + 1])
  {
    WritingOne(addr[..i], chk, hrp, SymbolsOf(data)[..k], c);
    SymbolsTake(data, k);
    ghost var text := addr[..i];
    chk' := Feed(chk, c);
    addr[i] := CharOf(c);
    i' := i + 1;
    assert addr[..i'] == text + [CharOf(c)];
  }

  /** The text and the checksum state after a piece of a prefix. */
  predicate Copied(text: string, chk: Word, hrp: string) {
    text == hrp && chk == Checksum(Low(1), LowBitsOf(hrp))
  }

  lemma {:induction false} CopyingOne(text: string, chk: Word, hrp: string, c: char)
    requires Copied(text, chk, hrp)
    ensures Copied(text + [c], Feed(chk, Low5(c)), hrp + [c])
  {
    OneMore(Low(1), LowBitsOf(hrp), Low5(c));
    assert LowBitsOf(hrp + [c]) == LowBitsOf(hrp) + [Low5(c)];
  }

  lemma {:induction false} PrefixDone(text: string, chk: Word, hrp: string)
    requires Copied(text, chk, hrp)
    ensures Written(text + [':'], Polymod(chk), hrp, [])
  {
    FeedNothing(chk);
    OneMore(Low(1), LowBitsOf(hrp), 0);
    assert PrefixStream(hrp) + [] == LowBitsOf(hrp) + [0];
  }

  /** The prefix loop: characters copied and fed to the checksum, or a bad one found. */
  method EncodePrefix(addr: array<char>, hrp: string) returns (good: bool, i: nat, chk: Word)
    requires addr.Length == 55 && (|hrp| <= 11 || |hrp| >= 14)
    modifies addr
    ensures good == GoodPrefix(hrp)
    ensures good ==> i == |hrp| + 1 && Written(addr[..i], chk, hrp, [])
  {
    chk := Low(1);
    i := 0;
    assert Copied(addr[..0], chk, hrp[..0]);
    while i < |hrp|
      invariant i <= |hrp| && i <= 13
      invariant forall k :: 0 <= k < i ==> IsPrintable(hrp[k]) && !IsUpper(hrp[k])
      invariant Copied(addr[..i], chk, hrp[..i])
    {
      if i > 12 || !IsPrintable(hrp[i]) || IsUpper(hrp[i]) {
        return false, i, chk;
      }
      CopyingOne(addr[..i], chk, hrp[..i], hrp[i]);
      ghost var text := addr[..i];
      chk := Feed(chk, Low5(hrp[i]));
      addr[i] := hrp[i];
      assert addr[..i + 1] == text + [hrp[i]] && hrp[..i + 1] == hrp[..i] + [hrp[i]];
      i := i + 1;
    }
    assert hrp[..i] == hrp;
    PrefixDone(addr[..i], chk, hrp);
    ghost var text := addr[..i];
    chk := Polymod(chk);
    addr[i] := ':';
    i := i + 1;
    assert addr[..i] == text + [':'];
    good := true;
  }

  lemma {:induction false} BitsLeft(j: nat)
    ensures (j % 5) * 8 - ((j % 5) * 8 / 5) * 5 == 8 * j % 5
  {
  }

  /** The data loop: bytes come in, regrouped symbols go out. */
  method EncodeData(addr: array<char>, ghost hrp: string, data: seq<bv8>, i0: nat, chk0: Word)
    returns (i: nat, chk: Word)
    requires addr.Length == 55 && |data| == PAYLOAD && i0 <= 12 && Written(addr[..i0], chk0, hrp, [])
    modifies addr
    ensures i == i0 + 34 && Written(addr[..i], chk, hrp, SymbolsOf(data))
  {
    hide Written;
    i, chk := i0, chk0;
    ghost var s := SymbolsOf(data);
    var j: nat, a: bv8, b: bv8 := 0, 0, 0;
    while j <= |data|
      invariant j <= |data| + 1 && i == i0 + Emitted(j)
      invariant j <= |data| ==> b == Before(data, j)
      invariant Written(addr[..i], chk, hrp, s[..Emitted(j)])
    {
      a, b := b, if j < |data| then data[j] else 0;
      var x := (j % 5) * 8 - ((j % 5) * 8 / 5) * 5;
      BitsLeft(j);
      i, chk := EncodeByte(addr, hrp, data, i, chk, j, x, a, b);
      j := j + 1;
    }
    assert s[..34] == s;
  }

  lemma {:induction false} EmittedSteps(j: nat, x: nat)
    requires j <= PAYLOAD && x == 8 * j % 5
    ensures Emitted(j) == 8 * j / 5 && (j < PAYLOAD || j % 5 > 0)
    ensures Emitted(j + 1) == Emitted(j) + (if x >= 2 && j < PAYLOAD then 2 else 1)
  {
  }

  /** One turn of the data loop. */
  method EncodeByte(addr: array<char>, ghost hrp: string, data: seq<bv8>, i: nat, chk: Word, j: nat, x: nat, a: bv8, b: bv8)
    returns (i': nat, chk': Word)
    requires i + 2 < addr.Length && |data| == PAYLOAD && j <= |data|
    requires x == 8 * j % 5 && a == Before(data, j) && b == Here(data, j)
    requires Written(addr[..i], chk, hrp, SymbolsOf(data)[..Emitted(j)])
    modifies addr
    ensures i' == i + Emitted(j + 1) - Emitted(j) && Written(addr[..i'], chk', hrp, SymbolsOf(data)[..Emitted(j + 1)])
  {
    i', chk' := i, chk;
    ghost var k := Emitted(j);
    EmittedSteps(j, x);
    EncoderShifts(data, j, x);
    var c := FirstSymbol(a, b, x);
    if j < |data| || j % 5 > 0 {
      i', chk' := Emit(addr, i', chk', c, hrp, data, k);
    }
    if x >= 2 {
      c := SecondSymbol(b, x);
    }
    if x >= 2 && j < |data| {
      i', chk' := Emit(addr, i', chk', c, hrp, data, k + 1);
    }
  }

  lemma {:induction false} TextOfMore(s: seq<bv8>, x: Word, j: nat)
    requires j < 8
    ensures Text(s + Symbols(x)[..j + 1]) == Text(s + Symbols(x)[..j]) + [CharOf(SymbolAt(x, j))]
  {
    assert s + Symbols(x)[..j + 1] == s + Symbols(x)[..j] + [SymbolAt(x, j)];
    TextGrows(s + Symbols(x)[..j], SymbolAt(x, j));
  }

  lemma {:induction false} ZerosTake(x: Word, j: nat)
    requires j < 8
    ensures Checksum(x, Zeros()[..j + 1]) == Polymod(Checksum(x, Zeros()[..j]))
  {
    OneMore(x, Zeros()[..j], 0);
    assert Zeros()[..j + 1] == Zeros()[..j] + [0];
    FeedNothing(Checksum(x, Zeros()[..j]));
  }

  /** The last two loops: eight empty steps, and the checksum spelled out. */
  method EncodeChecksum(addr: array<char>, hrp: string, s: seq<bv8>, i0: nat, chk0: Word) returns (i: nat)
    requires addr.Length == 55 && |s| == 34 && i0 == |hrp| + 35 && |hrp| <= 11
    requires addr[..i0] == hrp + [':'] + Text(s)
    modifies addr
    ensures i == |hrp| + 43 && addr[..i] == hrp + [':'] + Text(s + ChecksumSymbols(chk0))
  {
    i := i0;
    var chk := chk0;
    var j: nat := 0;
    while j < 8
      invariant j <= 8 && chk == Checksum(chk0, Zeros()[..j])
      invariant addr[..i0] == hrp + [':'] + Text(s)
    {
      ZerosTake(chk0, j);
      chk := Polymod(chk);
      j := j + 1;
    }
    assert Zeros()[..8] == Zeros();
    chk := Xor(chk, Low(1));
    assert Symbols(chk) == ChecksumSymbols(chk0);
    ghost var front := hrp + [':'];
    j := 0;
    assert s + Symbols(chk)[..j] == s;
    while j < 8
      invariant j <= 8 && i == i0 + j && addr[..i] == front + Text(s + Symbols(chk)[..j])
    {
      addr[i] := CharOf(SymbolAt(chk, j));
      TextOfMore(s, chk, j);
      assert addr[..i + 1] == addr[..i] + [CharOf(SymbolAt(chk, j))];
      i, j := i + 1, j + 1;
    }
    assert Symbols(chk)[..8] == Symbols(chk);
  }

  /**
   * `_BRBCashAddrEncode`. A prefix of 12 or 13 characters would run over the
   * local buffer of 55, so the caller must not pass one.
   */
  method EncodeTo(addr55: array<char>, hrp: string, data: seq<bv8>) returns (n: nat)
    requires addr55.Length >= 55 && (|hrp| <= 11 || |hrp| >= 14)
    modifies addr55
    ensures Encode(hrp, data).None? ==> n == 0 && addr55[..] == old(addr55[..])
    ensures Encode(hrp, data).Some? ==>
      var text := Encode(hrp, data).value;
      n == |text| + 1 <= 55 && addr55[..n] == text + ['\0'] && addr55[n..] == old(addr55[n..])
  {
    var addr := new char[55];
    var good, i, chk := EncodePrefix(addr, hrp);
    if !good || |data| != PAYLOAD {
      return 0;
    }
    i, chk := EncodeData(addr, hrp, data, i, chk);
    i := EncodeChecksum(addr, hrp, SymbolsOf(data), i, chk);
    addr[i] := '\0';
    i := i + 1;
    ghost var text := Encode(hrp, data).value;
    assert addr[..i] == text + ['\0'];
    forall k | 0 <= k < i {
      addr55[k] := addr[k];
    }
    assert addr55[..i] == addr[..i];
    n := i;
  }

  // ------------------------------------------------------------- the decoder

  lemma {:induction false} PrefixGrows(hrp: string, i: nat)
    requires i < |hrp|
    ensures Checksum(Low(1), LowBitsOf(hrp[..i + 1])) == Feed(Checksum(Low(1), LowBitsOf(hrp[..i])), Low5(hrp[i]))
  {
    OneMore(Low(1), LowBitsOf(hrp[..i]), Low5(hrp[i]));
    assert LowBitsOf(hrp[..i + 1]) == LowBitsOf(hrp[..i]) + [Low5(hrp[i])];
  }

  lemma {:induction false} ByteIndexes(j: nat)
    ensures (j % 8) * 5 - ((j % 8) * 5 / 8) * 8 == 5 * j % 8
    ensures (j / 8) * 5 + (j % 8) * 5 / 8 == 5 * j / 8
  {
  }

  /** The buffer with symbol number j or-ed in. */
  function OredIn(bytes: seq<bv8>, c: bv8, j: nat): seq<bv8> {
    seq(|bytes|, m requires 0 <= m < |bytes| => bytes[m] | Share(c, j, m))
  }

  lemma {:induction false} OredInIs(s: seq<bv8>, c: bv8, n: nat)
    requires IsSymbol(c)
    ensures OredIn(BytesOf(s, n), c, |s|) == BytesOf(s + [c], n)
  {
    forall m | 0 <= m < n
      ensures OredIn(BytesOf(s, n), c, |s|)[m] == BytesOf(s + [c], n)[m]
    {
      DecoderShifts(s, c, m);
    }
  }

  lemma {:induction false} OrNothing(b: bv8)
    ensures b | 0 == b
  {
  }

  lemma {:induction false} ShareAt(c: bv8, j: nat, x: nat, at: nat, m: nat)
    requires x == 5 * j % 8 && at == 5 * j / 8
    ensures Share(c, j, m) == if m == at then Head(c, x) else if m == at + 1 && x > 3 then Tail(c, x) else 0
  {
  }

  /** `buf[...] |= (c << 3) >> x` and its spill into the next byte. */
  method AddSymbol(buf: array<bv8>, j: nat, c: bv8)
    requires buf.Length == 22 && j < 35
    modifies buf
    ensures buf[..] == OredIn(old(buf[..]), c, j)
  {
    var x := (j % 8) * 5 - ((j % 8) * 5 / 8) * 8;
    var at := (j / 8) * 5 + (j % 8) * 5 / 8;
    ByteIndexes(j);
    ghost var was := buf[..];
    buf[at] := buf[at] | Head(c, x);
    if x > 3 {
      buf[at + 1] := buf[at + 1] | Tail(c, x);
    }
    forall m | 0 <= m < 22
      ensures buf[m] == was[m] | Share(c, j, m)
    {
      ShareAt(c, j, x, at, m);
      OrNothing(was[m]);
    }
  }

  method FindSeparator(addr: string) returns (sep: nat)
    ensures sep == Separator(addr, |addr|)
  {
    sep := |addr|;
    while sep > 0 && (sep == |addr| || addr[sep] != ':')
      invariant sep <= |addr| && Separator(addr, sep) == Separator(addr, |addr|)
    {
      sep := sep - 1;
    }
  }

  /** The first loop: everything printable, and which cases occur. */
  method ScanText(addr: string) returns (printable: bool, mixed: bool)
    ensures printable <==> forall k :: 0 <= k < |addr| ==> IsPrintable(addr[k])
    ensures printable ==> (mixed <==> MixedCase(addr))
  {
    var upper, lower := false, false;
    for i := 0 to |addr|
      invariant forall k :: 0 <= k < i ==> IsPrintable(addr[k])
      invariant upper <==> exists k :: 0 <= k < i && IsUpper(addr[k])
      invariant lower <==> exists k :: 0 <= k < i && IsLower(addr[k])
    {
      if !IsPrintable(addr[i]) {
        return false, false;
      }
      if IsLower(addr[i]) {
        lower := true;
      }
      if IsUpper(addr[i]) {
        upper := true;
      }
    }
    printable, mixed := true, upper && lower;
  }

  /** How many of the first j symbols go into the buffer when there are n in all. */
  function Taken(j: nat, n: nat): nat
    requires n >= 8
  {
    Least(j, Least(35, n - 8))
  }

  lemma {:induction false} ValuesGrow(t: string, j: nat)
    requires j < |t| && AllDigits(t[..j]) && DigitValue(t[j]).Some?
    ensures AllDigits(t[..j + 1]) && Values(t[..j + 1]) == Values(t[..j]) + [DigitValue(t[j]).value]
  {
    assert t[..j + 1] == t[..j] + [t[j]];
  }

  lemma {:induction false} TakenGrows(v: seq<bv8>, c: bv8, n: nat)
    requires n >= 8
    ensures |v| >= 35 || |v| + 8 >= n ==> (v + [c])[..Taken(|v| + 1, n)] == v[..Taken(|v|, n)]
    ensures |v| < 35 && |v| + 8 < n ==> v[..Taken(|v|, n)] == v && (v + [c])[..Taken(|v| + 1, n)] == v + [c]
  {
  }

  /** The state of the symbol loop after the digits `t`. */
  ghost predicate Scanned(bytes: seq<bv8>, chk: Word, start: Word, t: string, n: nat)
    requires n >= 8
  {
    AllDigits(t) && chk == Checksum(start, Values(t)) && bytes == BytesOf(Values(t)[..Taken(|t|, n)], 22)
  }

  /** The symbol loop: digits in, bytes and checksum out, or a bad digit found. */
  method DecodeSymbols(buf: array<bv8>, start: Word, t: string) returns (good: bool, chk: Word)
    requires buf.Length == 22 && |t| >= 8 && buf[..] == BytesOf([], 22)
    modifies buf
    ensures good <==> AllDigits(t)
    ensures good ==> Scanned(buf[..], chk, start, t, |t|)
  {
    chk := start;
    var j := 0;
    assert t[..j] == [] && Values([]) == [];
    while j < |t|
      invariant 0 <= j <= |t| && Scanned(buf[..], chk, start, t[..j], |t|)
    {
      if DigitValue(t[j]).None? {
        return false, chk;
      }
      var c := DigitValue(t[j]).value;
      chk := DecodeSymbol(buf, start, chk, t, j, c);
      j := j + 1;
    }
    assert t[..j] == t;
    good := true;
  }

  /** One turn of the symbol loop. */
  method DecodeSymbol(buf: array<bv8>, ghost start: Word, chk: Word, t: string, j: nat, c: bv8) returns (chk': Word)
    requires buf.Length == 22 && j < |t| && |t| >= 8 && DigitValue(t[j]) == Some(c)
    requires Scanned(buf[..], chk, start, t[..j], |t|)
    modifies buf
    ensures Scanned(buf[..], chk', start, t[..j + 1], |t|)
  {
    ghost var v := Values(t[..j]);
    ValuesGrow(t, j);
    DigitsAreSymbols(t[j]);
    TakenGrows(v, c, |t|);
    OneMore(start, v, c);
    chk' := Feed(chk, c);
    if j < 35 && j + 8 < |t| {
      OredInIs(v, c, 22);
      AddSymbol(buf, j, c);
    }
  }

  lemma {:induction false} NoBytes(bytes: seq<bv8>)
    requires |bytes| == 22 && forall m :: 0 <= m < 22 ==> bytes[m] == 0
    ensures bytes == BytesOf([], 22)
  {
    forall m | 0 <= m < 22
      ensures ByteOf([], m) == 0
    {
      forall k | 0 <= k < 8
        ensures Bit(ByteOf([], m), k) == Bit(0, k)
      {
        NoBits(k);
        ByteOfBit([], m, 7 - k);
      }
      SameBits(ByteOf([], m), 0);
    }
  }

  /** The checksum state at the separator. */
  method PrefixState(addr: string, sep: nat) returns (chk: Word)
    requires sep <= |addr|
    ensures chk == Checksum(Low(1), PrefixStream(addr[..sep]))
  {
    chk := Low(1);
    var i := 0;
    while i < sep
      invariant 0 <= i <= sep && chk == Checksum(Low(1), LowBitsOf(addr[..i]))
    {
      PrefixGrows(addr, i);
      chk := Feed(chk, Low5(addr[i]));
      i := i + 1;
    }
    FeedNothing(chk);
    OneMore(Low(1), LowBitsOf(addr[..sep]), 0);
    chk := Polymod(chk);
  }

  lemma {:induction false} WhatWasScanned(addr: string, sep: nat, start: Word, bytes: seq<bv8>, chk: Word)
    requires WellFormed(addr) && sep == Separator(addr, |addr|) && start == Checksum(Low(1), PrefixStream(addr[..sep]))
    requires |addr| - sep - 1 >= 8 && Scanned(bytes, chk, start, addr[sep + 1..], |addr| - sep - 1)
    ensures chk == Checksum(Low(1), Stream(addr, sep)) && |bytes| == 22
    ensures Decode(addr) ==
      if chk == Low(1) && (|addr| - (sep + 8)) * 5 / 8 == PAYLOAD
      then Some(Decoded(Lowered(addr[..sep]), bytes[..21])) else None
  {
    var v := Values(addr[sep + 1..]);
    ChecksumOfJoined(Low(1), PrefixStream(addr[..sep]), v);
    if chk == Low(1) && (|addr| - (sep + 8)) * 5 / 8 == PAYLOAD {
      assert Taken(|v|, |v|) == Least(35, |v| - 8);
      BytesTake(v[..Least(35, |v| - 8)]);
    }
  }

  lemma {:induction false} BytesTake(s: seq<bv8>)
    ensures BytesOf(s, 22)[..21] == BytesOf(s, 21)
  {
  }

  method Screen(addr: string) returns (ok: bool, sep: nat)
    ensures ok <==> Screened(addr)
    ensures ok ==> sep == Separator(addr, |addr|)
  {
    var printable, mixed := ScanText(addr);
    if !printable {
      return false, 0;
    }
    sep := FindSeparator(addr);
    ok := !(sep > 11 || sep + 34 + 8 > |addr| || mixed);
  }

  /** `_BRBCashAddrDecode` */
  method DecodeFrom(hrp12: array<char>, data21: array<bv8>, addr: string) returns (n: nat)
    requires hrp12.Length >= 12 && data21.Length >= 21 && hrp12 as object != data21
    modifies hrp12, data21
    ensures Decode(addr).None? ==> n == 0 && hrp12[..] == old(hrp12[..]) && data21[..] == old(data21[..])
    ensures Decode(addr).Some? ==>
      var found := Decode(addr).value;
      && n == PAYLOAD && data21[..n] == found.data
      && |found.prefix| <= 11 && hrp12[..|found.prefix| + 1] == found.prefix + ['\0']
  {
    var ok, sep := Screen(addr);
    if !ok {
      return 0;
    }
    var start := PrefixState(addr, sep);
    var buf := new bv8[22](m => 0);
    NoBytes(buf[..]);
    var good, chk := DecodeSymbols(buf, start, addr[sep + 1..]);
    if !good {
      return 0;
    }
    WhatWasScanned(addr, sep, start, buf[..], chk);
    var bufLen := (|addr| - (sep + 8)) * 5 / 8;
    if chk != Low(1) || bufLen != PAYLOAD {
      return 0;
    }
    n := CopyOut(hrp12, data21, addr, sep, buf[..bufLen]);
  }

  /** The lower-cased prefix and the bytes, copied to the caller. */
  method CopyOut(hrp12: array<char>, data21: array<bv8>, addr: string, sep: nat, bytes: seq<bv8>) returns (n: nat)
    requires hrp12.Length >= 12 && data21.Length >= 21 && sep <= 11 && sep <= |addr| && |bytes| == 21
    requires hrp12 as object != data21
    modifies hrp12, data21
    ensures n == 21 && data21[..n] == bytes && hrp12[..sep + 1] == Lowered(addr[..sep]) + ['\0']
  {
    var i := 0;
    while i < sep
      invariant 0 <= i <= sep && forall k :: 0 <= k < i ==> hrp12[k] == ToLower(addr[k])
    {
      hrp12[i] := ToLower(addr[i]);
      i := i + 1;
    }
    hrp12[sep] := '\0';
    forall k | 0 <= k < 21 {
      data21[k] := bytes[k];
    }
    n := |bytes|;
  }
}
