/** The price of an attempt, computed in decimal arithmetic with a 28-digit context. */
module Cost {
  import opened Prelude

  /** A decimal number: coefficient * 10^exponent, with the exponents the computation meets. */
  datatype Dec = Dec(coefficient: int, exponent: int)

  const PRECISION_LIMIT := 10000000000000000000000000000   // 10^28

  /** Columns of type Numeric(18, 6) hold fewer than 10^18 millionths; token counts are 32-bit. */
  const PRICE_LIMIT := 1000000000000000000
  const TOKEN_LIMIT := 2147483648

  // ----- Half-even rounding ---------------------------------------------------------------

  /** x / n rounded to the nearest integer, ties to the even one. */
  function HalfEven(x: int, n: int): int
    requires n > 0
  {
    var q, r := x / n, x % n;
    if 2 * r < n || (2 * r == n && q % 2 == 0) then q else q + 1
  }

  /** What it means for q to be x / n rounded half to even. */
  predicate IsHalfEven(q: int, x: int, n: int) {
    -n <= 2 * (x - q * n) <= n && (2 * (x - q * n) == n || 2 * (x - q * n) == -n ==> q % 2 == 0)
  }

  lemma HalfEvenIsNearest(x: int, n: int)
    requires n > 0
    ensures IsHalfEven(HalfEven(x, n), x, n)
  {
    assert x == (x / n) * n + x % n;
  }

  lemma {:induction false} MulAtLeast(d: int, least: int, n: int)
    requires n > 0 && least <= d
    ensures least * n <= d * n
  {
  }

  /** Rounding half to even is a function: the meaning above determines the result. */
  lemma HalfEvenUnique(q: int, q': int, x: int, n: int)
    requires n > 0 && IsHalfEven(q, x, n) && IsHalfEven(q', x, n)
    ensures q == q'
  {
    if q < q' {
      MulAtLeast(q' - q, 1, n);
      if q + 2 <= q' { MulAtLeast(q' - q, 2, n); }
      NotBothNearest(q, q', q * n, (q' - q) * n, q' * n, x, n);
    } else if q' < q {
      MulAtLeast(q - q', 1, n);
      if q' + 2 <= q { MulAtLeast(q - q', 2, n); }
      NotBothNearest(q', q, q' * n, (q - q') * n, q * n, x, n);
    }
  }

  lemma NotBothNearest(q: int, q': int, a: int, gap: int, b: int, x: int, n: int)
    requires n > 0 && q < q' && b == a + gap
    requires if q + 1 == q' then gap == n else 2 * n <= gap
    ensures !(&& -n <= 2 * (x - a) <= n && (2 * (x - a) == n ==> q % 2 == 0)
              && -n <= 2 * (x - b) <= n && (2 * (x - b) == -n ==> q' % 2 == 0))
  {
  }

  lemma DivMonotone(x: int, y: int, n: int)
    requires n > 0 && x <= y
    ensures x / n <= y / n
  {
    if y / n < x / n { MulAtLeast(x / n, y / n + 1, n); }
  }

  lemma HalfEvenMonotone(x: int, y: int, n: int)
    requires n > 0 && x <= y
    ensures HalfEven(x, n) <= HalfEven(y, n)
  {
    DivMonotone(x, y, n);
  }

  // ----- Decimal arithmetic -----------------------------------------------------------------

  function Pow10(k: nat): (r: int)
    ensures r > 0
  {
    if k == 0 then 1 else 10 * Pow10(k - 1)
  }

  /** How many digits of a coefficient do not fit the context. */
  function Excess(c: nat): nat {
    if c < PRECISION_LIMIT then 0 else 1 + Excess(c / 10)
  }

  function Abs(x: int): nat {
    if x < 0 then -x else x
  }

  /** Every operation rounds its exact result to 28 digits. */
  function InContext(d: Dec): Dec {
    if Abs(d.coefficient) < PRECISION_LIMIT then d else Shorten(d, Excess(Abs(d.coefficient)))
  }

  function Shorten(d: Dec, digits: nat): Dec {
    Dec(HalfEven(d.coefficient, Pow10(digits)), d.exponent + digits)
  }

  /** An exact quotient at exponent -6. Python drops its trailing zeros, which changes the representation and not
      the value. */
  function Divide1M(tokens: int): Dec {
    InContext(Dec(tokens, -6))
  }

  function Times(a: Dec, b: Dec): Dec {
    InContext(Dec(a.coefficient * b.coefficient, a.exponent + b.exponent))
  }

  function Plus(a: Dec, b: Dec): Dec {
    var e := Min(a.exponent, b.exponent);
    InContext(Dec(a.coefficient * Pow10(a.exponent - e) + b.coefficient * Pow10(b.exponent - e), e))
  }

  /** quantize(0.00000001): the coefficient at exponent -8, or None when it has too many digits. */
  function Quantize8(d: Dec): Option<int> {
    var q := if d.exponent >= -8 then d.coefficient * Pow10(d.exponent + 8)
             else HalfEven(d.coefficient, Pow10(-8 - d.exponent));
    if Abs(q) < PRECISION_LIMIT then Some(q) else None
  }

  /** A missing price counts as the integer zero; a stored one has six decimal places. */
  function PriceOf(micros: Option<int>): Dec {
    if micros.None? || micros.value == 0 then Dec(0, 0) else Dec(micros.value, -6)
  }

  /** The cost in units of 10^-8 USD; prices are in millionths of a USD per million tokens. */
  function EstimateCost(inputPrice: Option<int>, outputPrice: Option<int>, inputTokens: int, outputTokens: int)
    : Option<int>
  {
    var input := Times(Divide1M(inputTokens), PriceOf(inputPrice));
    var total := Plus(input, Times(Divide1M(outputTokens), PriceOf(outputPrice)));
    Quantize8(total)
  }

  /** The exact price in units of 10^-12 USD. */
  function ExactPrice(inputPrice: Option<int>, outputPrice: Option<int>, inputTokens: int, outputTokens: int): int {
    inputTokens * inputPrice.Or(0) + outputTokens * outputPrice.Or(0)
  }

  ghost predicate Stored(price: Option<int>) {
    price.Some? ==> Abs(price.value) < PRICE_LIMIT
  }

  lemma MulMonotone(a: nat, b: nat, c: nat, d: nat)
    requires a <= c && b <= d
    ensures a * b <= c * d
  {
    assert a * b <= c * b && c * b <= c * d by {
      if b > 0 { MulAtLeast(c, a, b); }
      if c > 0 { MulAtLeast(d, b, c); }
    }
  }

  lemma AbsProduct(a: int, b: int)
    ensures Abs(a * b) == Abs(a) * Abs(b)
  {
    assert (-a) * b == -(a * b) && a * (-b) == -(a * b) && (-a) * (-b) == a * b;
  }

  lemma ProductBound(tokens: int, micros: int)
    requires Abs(tokens) < TOKEN_LIMIT && Abs(micros) < PRICE_LIMIT
    ensures 2 * Abs(tokens * micros) < PRECISION_LIMIT
  {
    AbsProduct(tokens, micros);
    MulMonotone(Abs(tokens), Abs(micros), TOKEN_LIMIT, PRICE_LIMIT);
  }

  /** One priced direction: the product is exact, at exponent -12 unless the price is zero. */
  lemma TimesIsExact(tokens: int, price: Option<int>)
    requires Stored(price) && Abs(tokens) < TOKEN_LIMIT
    ensures var d := Times(Divide1M(tokens), PriceOf(price));
            && (d == Dec(tokens * price.Or(0), -12) || (d == Dec(0, -6) && tokens * price.Or(0) == 0))
            && 2 * Abs(d.coefficient) < PRECISION_LIMIT
  {
    ProductBound(tokens, price.Or(0));
    assert Divide1M(tokens) == Dec(tokens, -6);
    if price.Or(0) == 0 {
      assert tokens * 0 == 0;
      assert Times(Dec(tokens, -6), Dec(0, 0)) == Dec(0, -6);
    } else {
      assert Times(Dec(tokens, -6), Dec(price.value, -6)) == Dec(tokens * price.value, -12);
    }
  }

  lemma PlusIsExact(a: Dec, b: Dec)
    requires a.exponent == -12 || a == Dec(0, -6)
    requires b.exponent == -12 || b == Dec(0, -6)
    requires 2 * Abs(a.coefficient) < PRECISION_LIMIT && 2 * Abs(b.coefficient) < PRECISION_LIMIT
    ensures var d := Plus(a, b);
            d.coefficient == a.coefficient + b.coefficient && (d.exponent == -12 || d == Dec(0, -6))
  {
    assert Pow10(0) == 1;
    var e := Min(a.exponent, b.exponent);
    assert a.coefficient * Pow10(a.exponent - e) == a.coefficient;
    assert b.coefficient * Pow10(b.exponent - e) == b.coefficient;
  }

  lemma QuantizeFits(d: Dec)
    requires Abs(d.coefficient) < PRECISION_LIMIT && (d.exponent == -12 || d == Dec(0, -6))
    ensures Quantize8(d) == Some(HalfEven(d.coefficient, 10000))
  {
    assert Pow10(4) == 10000 by { assert Pow10(2) == 100; }
    assert Abs(HalfEven(d.coefficient, 10000)) <= Abs(d.coefficient);
  }

  /** No step of the computation rounds before the last: the result is the exact price, rounded
      half to even at the eighth decimal place. */
  lemma EstimateIsExactPriceRounded(inputPrice: Option<int>, outputPrice: Option<int>,
                                    inputTokens: int, outputTokens: int)
    requires Stored(inputPrice) && Stored(outputPrice)
    requires Abs(inputTokens) < TOKEN_LIMIT && Abs(outputTokens) < TOKEN_LIMIT
    ensures EstimateCost(inputPrice, outputPrice, inputTokens, outputTokens)
            == Some(HalfEven(ExactPrice(inputPrice, outputPrice, inputTokens, outputTokens), 10000))
  {
    TimesIsExact(inputTokens, inputPrice);
    TimesIsExact(outputTokens, outputPrice);
    var a, b := Times(Divide1M(inputTokens), PriceOf(inputPrice)), Times(Divide1M(outputTokens), PriceOf(outputPrice));
    PlusIsExact(a, b);
    QuantizeFits(Plus(a, b));
  }

  // ----- What the rounding means for accounting ------------------------------------------------

  type Tokens = t: int | -TOKEN_LIMIT < t < TOKEN_LIMIT
  type Micros = p: int | -PRICE_LIMIT < p < PRICE_LIMIT

  datatype Priced = Priced(inputPrice: Option<Micros>, outputPrice: Option<Micros>,
                           inputTokens: Tokens, outputTokens: Tokens)
  {
    function Exact(): int {
      ExactPrice(inputPrice, outputPrice, inputTokens, outputTokens)
    }

    /** The cost stored for an attempt: within the column limits decimal arithmetic never fails. */
    function Charge(): (cost: int)
      ensures EstimateCost(inputPrice, outputPrice, inputTokens, outputTokens) == Some(cost)
      ensures IsHalfEven(cost, Exact(), 10000)
    {
      EstimateIsExactPriceRounded(inputPrice, outputPrice, inputTokens, outputTokens);
      HalfEvenIsNearest(Exact(), 10000);
      EstimateCost(inputPrice, outputPrice, inputTokens, outputTokens).value
    }
  }

  /** More tokens or higher prices never cost less. */
  lemma ChargeMonotone(a: Priced, b: Priced)
    requires 0 <= a.inputTokens <= b.inputTokens && 0 <= a.outputTokens <= b.outputTokens
    requires 0 <= a.inputPrice.Or(0) <= b.inputPrice.Or(0) && 0 <= a.outputPrice.Or(0) <= b.outputPrice.Or(0)
    ensures a.Charge() <= b.Charge()
  {
    MulMonotone(a.inputTokens, a.inputPrice.Or(0), b.inputTokens, b.inputPrice.Or(0));
    MulMonotone(a.outputTokens, a.outputPrice.Or(0), b.outputTokens, b.outputPrice.Or(0));
    HalfEvenMonotone(a.Exact(), b.Exact(), 10000);
    HalfEvenIsNearest(a.Exact(), 10000);
    HalfEvenIsNearest(b.Exact(), 10000);
    HalfEvenUnique(a.Charge(), HalfEven(a.Exact(), 10000), a.Exact(), 10000);
    HalfEvenUnique(b.Charge(), HalfEven(b.Exact(), 10000), b.Exact(), 10000);
  }

  function Recorded(attempts: seq<Priced>): int {
    if attempts == [] then 0 else Recorded(attempts[1..]) + attempts[0].Charge()
  }

  function Owed(attempts: seq<Priced>): int {
    if attempts == [] then 0 else Owed(attempts[1..]) + attempts[0].Exact()
  }

  /** The recorded total of n attempts is within n half-units of 10^-8 USD of the exact total. */
  lemma {:induction false} RoundingDriftIsBounded(attempts: seq<Priced>)
    ensures -5000 * |attempts| <= 10000 * Recorded(attempts) - Owed(attempts) <= 5000 * |attempts|
  {
    if attempts != [] {
      RoundingDriftIsBounded(attempts[1..]);
      var c := attempts[0].Charge();
      assert -10000 <= 2 * (attempts[0].Exact() - c * 10000) <= 10000;
    }
  }
}
