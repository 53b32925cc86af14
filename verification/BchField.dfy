/**
 * The checksum as arithmetic with polynomials over the field of 32 elements, which is how the
 * CashAddr specification defines it ("Checksum"): the field is taken modulo a^5 + a^3 + 1, and
 * a symbol more is a multiplication by x modulo
 * x^8 + 19x^7 + 3x^6 + 25x^5 + 11x^4 + 25x^3 + 3x^2 + 19x + 1.
 */
module BchField {
  import opened Wrappers
  import opened BchChecksum
  import Wire

  // --------------------------------------------------------------- the field

  /** e[0] + e[1] a + e[2] a^2 + e[3] a^3 + e[4] a^4 */
  type Element = e: seq<bool> | |e| == 5 witness [false, false, false, false, false]

  const NOTHING: Element := [false, false, false, false, false]

  function Plus(x: Element, y: Element): Element {
    [x[0] != y[0], x[1] != y[1], x[2] != y[2], x[3] != y[3], x[4] != y[4]]
  }

  /** Multiplied by a, where a^5 is a^3 + 1. */
  function TimesA(e: Element): Element {
    [e[4], e[0], e[1], e[2] != e[4], e[3]]
  }

  function If(b: bool, e: Element): Element {
    if b then e else NOTHING
  }

  /** The product, by Horner's rule in the coefficients of y. */
  function Times(x: Element, y: Element): Element {
    Plus(If(y[0], x), TimesA(Plus(If(y[1], x), TimesA(Plus(If(y[2], x), TimesA(Plus(If(y[3], x), TimesA(If(y[4], x)))))))))
  }

  /** The element whose coefficients are the bits of a number. */
  function ElementOf(n: nat): Element {
    [n % 2 == 1, n / 2 % 2 == 1, n / 4 % 2 == 1, n / 8 % 2 == 1, n / 16 % 2 == 1]
  }

  // --------------------------------------------------------- the polynomials

  /** The coefficients, constant first, of the polynomial that the checksum is taken modulo,
      without the leading 1. */
  const MODULUS: seq<nat> := [1, 19, 3, 25, 11, 25, 3, 19]

  /** Eight coefficients, constant first. */
  type Polynomial = p: seq<Element> | |p| == 8
    witness [NOTHING, NOTHING, NOTHING, NOTHING, NOTHING, NOTHING, NOTHING, NOTHING]

  /** x p + c modulo the polynomial. */
  function TimesXPlus(p: Polynomial, c: Element): Polynomial {
    seq(8, k requires 0 <= k < 8 => Plus(if k == 0 then c else p[k - 1], Times(ElementOf(MODULUS[k]), p[7])))
  }

  /** A state as a polynomial. */
  function Coefficients(w: Word): Polynomial {
    seq(8, k requires 0 <= k < 8 => w[5 * k..5 * k + 5])
  }

  function SymbolElement(c: bv8): Element {
    [Bit(c, 0), Bit(c, 1), Bit(c, 2), Bit(c, 3), Bit(c, 4)]
  }

  /** The remainder of a stream of symbols, taken as a polynomial with the first symbol highest,
      behind a start p. */
  function Remainder(p: Polynomial, s: seq<bv8>): Polynomial
    decreases |s|
  {
    if |s| == 0 then p else TimesXPlus(Remainder(p, s[..|s| - 1]), SymbolElement(s[|s| - 1]))
  }

  // -------------------------------------------------------- the five constants

  function FromDigits(d: seq<nat>): nat {
    if |d| == 0 then 0 else d[0] + 32 * FromDigits(d[1..])
  }

  lemma {:induction false} HigherBit(c: nat, k: nat)
    ensures BitOf(c, k + 5) == BitOf(c / 32, k)
  {
    assert Pow2(k + 5) == 2 * Pow2(k + 4) == 4 * Pow2(k + 3) == 8 * Pow2(k + 2) == 16 * Pow2(k + 1) == 32 * Pow2(k);
    DivideTwice(c, Pow2(k));
  }

  lemma {:induction false} DivideTwice(c: nat, m: nat)
    requires m > 0
    ensures c / (32 * m) == c / 32 / m
  {
    var q, r, s := c / 32 / m, c / 32 % m, c % 32;
    assert c / 32 == q * m + r;
    assert c == 32 * (q * m + r) + s;
    assert 32 * (q * m) == q * (32 * m);
    Wire.QuotientIs(c, 32 * m, q, 32 * r + s);
  }

  /** The low bits, by the powers of two written out. */
  lemma {:induction false} LowBits5(n: nat, b: nat)
    requires b < 5
    ensures BitOf(n, b) == ElementOf(n)[b]
  {
    assert Pow2(1) == 2 && Pow2(2) == 4 && Pow2(3) == 8 && Pow2(4) == 16;
  }

  lemma {:induction false} LowElement(r: nat, q: nat)
    requires r < 32
    ensures ElementOf(r + 32 * q) == ElementOf(r)
  {
    hide ElementOf;
    LowQuotient(r, q, 2, 16);
    LowQuotient(r, q, 4, 8);
    LowQuotient(r, q, 8, 4);
    LowQuotient(r, q, 16, 2);
    SameParities(r, r + 32 * q, q);
  }

  lemma {:induction false} LowQuotient(r: nat, q: nat, m: nat, t: nat)
    requires m > 0 && m * t == 32
    ensures (r + 32 * q) / m == r / m + t * q
  {
    assert (t * q) * m == 32 * q;
    assert (r / m + t * q) * m == r / m * m + 32 * q;
    Wire.QuotientIs(r + 32 * q, m, r / m + t * q, r % m);
  }

  lemma {:induction false} SameParities(r: nat, c: nat, q: nat)
    requires c == r + 32 * q && c / 2 == r / 2 + 16 * q && c / 4 == r / 4 + 8 * q
    requires c / 8 == r / 8 + 4 * q && c / 16 == r / 16 + 2 * q
    ensures ElementOf(c) == ElementOf(r)
  {
    EvenAdds(r, 16 * q);
    EvenAdds(r / 2, 8 * q);
    EvenAdds(r / 4, 4 * q);
    EvenAdds(r / 8, 2 * q);
    EvenAdds(r / 16, q);
  }

  lemma {:induction false} EvenAdds(x: nat, y: nat)
    ensures (x + 2 * y) % 2 == x % 2
  {
  }

  /** The bits of a number, digit by digit. */
  lemma {:induction false} DigitBits(d: seq<nat>, k: nat, b: nat)
    requires k < |d| && b < 5 && forall i :: 0 <= i < |d| ==> d[i] < 32
    ensures BitOf(FromDigits(d), 5 * k + b) == ElementOf(d[k])[b]
    decreases k
  {
    hide BitOf;
    if k == 0 {
      LowBits5(FromDigits(d), b);
      LowElement(d[0], FromDigits(d[1..]));
      hide ElementOf;
    } else {
      DigitBits(d[1..], k - 1, b);
      HigherBit(FromDigits(d), 5 * (k - 1) + b);
      assert FromDigits(d) / 32 == FromDigits(d[1..]);
    }
  }

  /** The digits of the five constants: those of the first are the coefficients of the modulus. */
  function Digits(i: nat): (d: seq<nat>)
    requires i < 5
    ensures |d| == 8
  {
    if i == 0 then MODULUS
    else if i == 1 then [2, 15, 6, 27, 22, 27, 6, 15]
    else if i == 2 then [4, 30, 12, 31, 5, 31, 12, 30]
    else if i == 3 then [8, 21, 24, 23, 10, 23, 24, 21]
    else [16, 3, 25, 7, 20, 7, 25, 3]
  }

  lemma {:induction false} EightDigits(a: nat, b: nat, c: nat, d: nat, e: nat, f: nat, g: nat, h: nat)
    ensures FromDigits([a, b, c, d, e, f, g, h]) ==
      a + 32 * (b + 32 * (c + 32 * (d + 32 * (e + 32 * (f + 32 * (g + 32 * h))))))
  {
    OneDigit([h], []);
    OneDigit([g, h], [h]);
    OneDigit([f, g, h], [g, h]);
    OneDigit([e, f, g, h], [f, g, h]);
    OneDigit([d, e, f, g, h], [e, f, g, h]);
    OneDigit([c, d, e, f, g, h], [d, e, f, g, h]);
    OneDigit([b, c, d, e, f, g, h], [c, d, e, f, g, h]);
    OneDigit([a, b, c, d, e, f, g, h], [b, c, d, e, f, g, h]);
    hide FromDigits;
  }

  lemma {:induction false} OneDigit(d: seq<nat>, rest: seq<nat>)
    requires |d| > 0 && d[1..] == rest
    ensures FromDigits(d) == d[0] + 32 * FromDigits(rest) && FromDigits([]) == 0
  {
  }

  lemma {:induction false} ConstantsAre(i: nat)
    requires i < 5
    ensures GENERATORS[i] == FromDigits(Digits(i)) && |Digits(i)| == 8 && forall k :: 0 <= k < 8 ==> Digits(i)[k] < 32
  {
    hide FromDigits;
    if i == 0 {
      EightDigits(1, 19, 3, 25, 11, 25, 3, 19);
    } else if i == 1 {
      EightDigits(2, 15, 6, 27, 22, 27, 6, 15);
    } else if i == 2 {
      EightDigits(4, 30, 12, 31, 5, 31, 12, 30);
    } else if i == 3 {
      EightDigits(8, 21, 24, 23, 10, 23, 24, 21);
    } else {
      EightDigits(16, 3, 25, 7, 20, 7, 25, 3);
    }
  }

  lemma {:induction false} PowersOfOne()
    ensures TimesA(ElementOf(1)) == ElementOf(2) && TimesA(ElementOf(2)) == ElementOf(4)
    ensures TimesA(ElementOf(4)) == ElementOf(8) && TimesA(ElementOf(8)) == ElementOf(16)
  {
  }

  lemma {:induction false} PowersOf19()
    ensures TimesA(ElementOf(19)) == ElementOf(15) && TimesA(ElementOf(15)) == ElementOf(30)
    ensures TimesA(ElementOf(30)) == ElementOf(21) && TimesA(ElementOf(21)) == ElementOf(3)
  {
  }

  lemma {:induction false} PowersOf3()
    ensures TimesA(ElementOf(3)) == ElementOf(6) && TimesA(ElementOf(6)) == ElementOf(12)
    ensures TimesA(ElementOf(12)) == ElementOf(24) && TimesA(ElementOf(24)) == ElementOf(25)
  {
  }

  lemma {:induction false} PowersOf25()
    ensures TimesA(ElementOf(25)) == ElementOf(27) && TimesA(ElementOf(27)) == ElementOf(31)
    ensures TimesA(ElementOf(31)) == ElementOf(23) && TimesA(ElementOf(23)) == ElementOf(7)
  {
  }

  lemma {:induction false} PowersOf11()
    ensures TimesA(ElementOf(11)) == ElementOf(22) && TimesA(ElementOf(22)) == ElementOf(5)
    ensures TimesA(ElementOf(5)) == ElementOf(10) && TimesA(ElementOf(10)) == ElementOf(20)
  {
  }

  /** Each constant is, coefficient by coefficient, a times the one before. */
  lemma {:induction false} EachIsTimesA(i: nat, k: nat)
    requires i < 4 && k < 8
    ensures ElementOf(Digits(i + 1)[k]) == TimesA(ElementOf(Digits(i)[k]))
  {
    PowersOfOne();
    PowersOf19();
    PowersOf3();
    PowersOf25();
    PowersOf11();
    hide ElementOf;
    hide TimesA;
  }

  // ---------------------------------------------------------------- the step

  /** Bit b of coefficient k of what the shifted state has mixed in. */
  lemma {:induction false} MixedBit(w: Word, n: nat, k: nat, b: nat)
    requires n <= 5 && k < 8 && b < 5
    ensures Mixed(w, n)[5 * k + b] == Sum(Shift(w)[5 * k + b], w, n, k, b)
  {
    if n > 0 {
      MixedBit(w, n - 1, k, b);
      ConstantsAre(n - 1);
      DigitBits(Digits(n - 1), k, b);
      hide BitOf;
      hide Digits;
    }
  }

  function Sum(start: bool, w: Word, n: nat, k: nat, b: nat): bool
    requires n <= 5 && k < 8 && b < 5
  {
    if n == 0 then start
    else Sum(start, w, n - 1, k, b) != (w[34 + n] && ElementOf(Digits(n - 1)[k])[b])
  }

  /** Horner's rule written out: the multiples a^i x for which y has a coefficient. */
  lemma {:induction false} TimesIs(x: Element, y: Element, x1: Element, x2: Element, x3: Element, x4: Element, b: nat)
    requires x1 == TimesA(x) && x2 == TimesA(x1) && x3 == TimesA(x2) && x4 == TimesA(x3) && b < 5
    ensures Times(x, y)[b] ==
      (((((y[0] && x[b]) != (y[1] && x1[b])) != (y[2] && x2[b])) != (y[3] && x3[b])) != (y[4] && x4[b]))
  {
    hide TimesA;
    hide Plus;
    hide If;
    var u3 := Plus(If(y[3], x), If(y[4], x1));
    TimesAOf(y[4], x);
    TimesAOf(y[3], x);
    TimesAOf(y[4], x1);
    TimesAIsLinear(If(y[3], x), If(y[4], x1));
    var u2 := Plus(If(y[2], x), TimesA(u3));
    TimesAOf(y[2], x);
    TimesAOf(y[3], x1);
    TimesAOf(y[4], x2);
    TimesAIsLinear(If(y[2], x), TimesA(u3));
    TimesAIsLinear(If(y[3], x1), If(y[4], x2));
    var u1 := Plus(If(y[1], x), TimesA(u2));
    TimesAOf(y[1], x);
    TimesAOf(y[2], x1);
    TimesAOf(y[3], x2);
    TimesAOf(y[4], x3);
    TimesAIsLinear(If(y[1], x), TimesA(u2));
    TimesAIsLinear(If(y[2], x1), TimesA(TimesA(u3)));
    TimesAIsLinear(If(y[3], x2), If(y[4], x3));
    assert Times(x, y) == Plus(If(y[0], x), Plus(If(y[1], x1), Plus(If(y[2], x2), Plus(If(y[3], x3), If(y[4], x4)))));
    FiveTerms(If(y[0], x), If(y[1], x1), If(y[2], x2), If(y[3], x3), If(y[4], x4), b);
    IfBit(y[0], x, b);
    IfBit(y[1], x1, b);
    IfBit(y[2], x2, b);
    IfBit(y[3], x3, b);
    IfBit(y[4], x4, b);
  }

  lemma {:induction false} TimesAOf(c: bool, e: Element)
    ensures TimesA(If(c, e)) == If(c, TimesA(e))
  {
  }

  lemma {:induction false} IfBit(c: bool, e: Element, b: nat)
    requires b < 5
    ensures If(c, e)[b] == (c && e[b])
  {
  }

  lemma {:induction false} FiveTerms(p: Element, q: Element, r: Element, s: Element, t: Element, b: nat)
    requires b < 5
    ensures Plus(p, Plus(q, Plus(r, Plus(s, t))))[b] == ((((p[b] != q[b]) != r[b]) != s[b]) != t[b])
  {
    PlusBit(s, t, b);
    PlusBit(r, Plus(s, t), b);
    PlusBit(q, Plus(r, Plus(s, t)), b);
    PlusBit(p, Plus(q, Plus(r, Plus(s, t))), b);
    hide Plus;
  }

  lemma {:induction false} PlusBit(x: Element, y: Element, b: nat)
    requires b < 5
    ensures Plus(x, y)[b] == (x[b] != y[b])
  {
  }

  lemma {:induction false} TimesAIsLinear(x: Element, y: Element)
    ensures TimesA(Plus(x, y)) == Plus(TimesA(x), TimesA(y)) && TimesA(NOTHING) == NOTHING
  {
  }

  lemma {:induction false} StepBit(w: Word, k: nat, b: nat)
    requires k < 8 && b < 5
    ensures Polymod(w)[5 * k + b] ==
      ((k > 0 && w[5 * (k - 1) + b]) != Times(ElementOf(MODULUS[k]), Coefficients(w)[7])[b])
  {
    hide Times;
    hide TimesA;
    hide ElementOf;
    hide Mixed;
    hide Digits;
    hide Sum;
    MixedBit(w, 5, k, b);
    EachIsTimesA(0, k);
    EachIsTimesA(1, k);
    EachIsTimesA(2, k);
    EachIsTimesA(3, k);
    var top := Coefficients(w)[7];
    TimesIs(ElementOf(Digits(0)[k]), top, ElementOf(Digits(1)[k]), ElementOf(Digits(2)[k]),
            ElementOf(Digits(3)[k]), ElementOf(Digits(4)[k]), b);
    SumOfFive(Shift(w)[5 * k + b], w, k, b);
    FirstDigits();
    assert top == w[35..40];
    assert Shift(w)[5 * k + b] == (k > 0 && w[5 * (k - 1) + b]);
  }

  lemma {:induction false} FirstDigits()
    ensures Digits(0) == MODULUS
  {
  }

  lemma {:induction false} SumOfFive(start: bool, w: Word, k: nat, b: nat)
    requires k < 8 && b < 5
    ensures Sum(start, w, 5, k, b) == (start !=
      (((((w[35] && ElementOf(Digits(0)[k])[b]) != (w[36] && ElementOf(Digits(1)[k])[b]))
      != (w[37] && ElementOf(Digits(2)[k])[b])) != (w[38] && ElementOf(Digits(3)[k])[b]))
      != (w[39] && ElementOf(Digits(4)[k])[b])))
  {
    hide ElementOf;
    hide Digits;
    assert Sum(start, w, 1, k, b) == (Sum(start, w, 0, k, b) != (w[35] && ElementOf(Digits(0)[k])[b]));
    assert Sum(start, w, 2, k, b) == (Sum(start, w, 1, k, b) != (w[36] && ElementOf(Digits(1)[k])[b]));
    assert Sum(start, w, 3, k, b) == (Sum(start, w, 2, k, b) != (w[37] && ElementOf(Digits(2)[k])[b]));
    assert Sum(start, w, 4, k, b) == (Sum(start, w, 3, k, b) != (w[38] && ElementOf(Digits(3)[k])[b]));
  }

  /** Feeding a symbol to the checksum is multiplying by x and adding the symbol, modulo the
      polynomial. */
  lemma {:induction false} FeedIsTimesXPlus(w: Word, c: bv8)
    ensures Coefficients(Feed(w, c)) == TimesXPlus(Coefficients(w), SymbolElement(c))
  {
    hide *;
    forall k | 0 <= k < 8
      ensures Coefficients(Feed(w, c))[k] == TimesXPlus(Coefficients(w), SymbolElement(c))[k]
    {
      CoefficientIs(w, c, k);
    }
    SamePolynomials(Coefficients(Feed(w, c)), TimesXPlus(Coefficients(w), SymbolElement(c)));
  }

  lemma {:induction false} SamePolynomials(p: Polynomial, q: Polynomial)
    requires forall k :: 0 <= k < 8 ==> p[k] == q[k]
    ensures p == q
  {
  }

  lemma {:induction false} CoefficientIs(w: Word, c: bv8, k: nat)
    requires k < 8
    ensures Coefficients(Feed(w, c))[k] == TimesXPlus(Coefficients(w), SymbolElement(c))[k]
  {
    var x, y := Coefficients(Feed(w, c))[k], TimesXPlus(Coefficients(w), SymbolElement(c))[k];
    hide *;
    forall b | 0 <= b < 5
      ensures x[b] == y[b]
    {
      StepBit(w, k, b);
      FedBit(w, c, k, b);
      StepTerm(w, c, k, b);
    }
    assert x == y;
  }

  lemma {:induction false} StepTerm(w: Word, c: bv8, k: nat, b: nat)
    requires k < 8 && b < 5
    ensures TimesXPlus(Coefficients(w), SymbolElement(c))[k][b] ==
      ((if k == 0 then SymbolElement(c)[b] else w[5 * (k - 1) + b]) != Times(ElementOf(MODULUS[k]), Coefficients(w)[7])[b])
  {
    hide Times;
    hide ElementOf;
    hide SymbolElement;
    CoefficientBit(w, k, b);
    hide Coefficients;
  }

  lemma {:induction false} FedBit(w: Word, c: bv8, k: nat, b: nat)
    requires k < 8 && b < 5
    ensures Coefficients(Feed(w, c))[k][b] == (Polymod(w)[5 * k + b] != (k == 0 && SymbolElement(c)[b]))
  {
    hide Polymod;
    assert Coefficients(Feed(w, c))[k][b] == Feed(w, c)[5 * k + b];
  }

  lemma {:induction false} CoefficientBit(w: Word, k: nat, b: nat)
    requires k < 8 && b < 5
    ensures k > 0 ==> Coefficients(w)[k - 1][b] == w[5 * (k - 1) + b]
  {
  }

  /** The checksum of a stream is its remainder. */
  lemma {:induction false} ChecksumIsRemainder(w: Word, s: seq<bv8>)
    ensures Coefficients(Checksum(w, s)) == Remainder(Coefficients(w), s)
    decreases |s|
  {
    hide Feed;
    hide TimesXPlus;
    hide Coefficients;
    if |s| > 0 {
      ChecksumIsRemainder(w, s[..|s| - 1]);
      FeedIsTimesXPlus(Checksum(w, s[..|s| - 1]), s[|s| - 1]);
    }
  }

  /** The polynomial 1. */
  const ONE: Polynomial := [ElementOf(1), NOTHING, NOTHING, NOTHING, NOTHING, NOTHING, NOTHING, NOTHING]

  lemma {:induction false} OneIsOne()
    ensures Coefficients(Low(1)) == ONE
  {
    assert Low(1)[0];
    assert forall k :: 0 < k < 40 ==> !Low(1)[k];
    assert ElementOf(1) == [true, false, false, false, false];
    assert forall k :: 0 < k < 8 ==> Coefficients(Low(1))[k] == NOTHING;
    assert Coefficients(Low(1))[0] == ElementOf(1);
  }

  lemma {:induction false} SameCoefficients(v: Word, w: Word)
    requires Coefficients(v) == Coefficients(w)
    ensures v == w
  {
    forall m | 0 <= m < 40
      ensures v[m] == w[m]
    {
      assert Coefficients(v)[m / 5][m % 5] == v[m] && Coefficients(w)[m / 5][m % 5] == w[m];
    }
  }

  /** A stream leads the checksum back to the state 1 exactly when the remainder of 1 and the
      stream is 1. */
  lemma {:induction false} ChecksExactly(s: seq<bv8>)
    ensures Checksum(Low(1), s) == Low(1) <==> Remainder(ONE, s) == ONE
  {
    ChecksumIsRemainder(Low(1), s);
    OneIsOne();
    hide *;
    if Coefficients(Checksum(Low(1), s)) == Coefficients(Low(1)) {
      SameCoefficients(Checksum(Low(1), s), Low(1));
    }
  }
}
