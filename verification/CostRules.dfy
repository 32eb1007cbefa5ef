/** What decimal arithmetic with 28 digits does to any number, also to those that no price reaches. */
module CostRules {
  import opened Cost

  lemma {:induction false} PowersOfTen(a: nat, b: nat)
    ensures Pow10(0) == 1 && Pow10(1) == 10 && Pow10(a + b) == Pow10(a) * Pow10(b)
  {
    if a > 0 {
      PowersOfTen(a - 1, b);
      assert Pow10(a + b) == 10 * Pow10(a - 1 + b);
    }
  }

  lemma {:induction false} ExcessTells(c: nat)
    ensures c / Pow10(Excess(c)) < PRECISION_LIMIT
    ensures Excess(c) > 0 ==> c / Pow10(Excess(c) - 1) >= PRECISION_LIMIT
  {
    if c >= PRECISION_LIMIT {
      ExcessTells(c / 10);
      DivideTwice(c, Pow10(Excess(c / 10)));
      if Excess(c / 10) > 0 { DivideTwice(c, Pow10(Excess(c / 10) - 1)); }
    }
  }

  lemma DivideTwice(c: nat, n: nat)
    requires n > 0
    ensures c / 10 / n == c / (10 * n)
  {
    var q, r := c / 10 / n, c / 10 % n;
    assert c == 10 * (q * n + r) + c % 10;
    assert c == q * (10 * n) + (10 * r + c % 10) && 10 * r + c % 10 < 10 * n;
    Quotient(c, 10 * n, q, 10 * r + c % 10);
  }

  lemma Quotient(x: int, n: int, q: int, r: int)
    requires 0 <= r < n && x == q * n + r
    ensures x / n == q
  {
    if x / n < q { MulAtLeast(q, x / n + 1, n); }
    if q < x / n { MulAtLeast(x / n, q + 1, n); }
  }

  /** A number of at most 28 digits stays; of a longer one as many digits go as exceed them, and the rest is rounded
      half to even. */
  lemma ContextTells(d: Dec)
    ensures -10000000000000000000000000000 < d.coefficient < 10000000000000000000000000000 ==> InContext(d) == d
    ensures var r := InContext(d);
            && r.exponent >= d.exponent
            && IsHalfEven(r.coefficient, d.coefficient, Pow10(r.exponent - d.exponent))
            && r.exponent - d.exponent == Excess(Abs(d.coefficient))
  {
    HalfEvenIsNearest(d.coefficient, Pow10(Excess(Abs(d.coefficient))));
  }

  /** Quantising leaves a number with up to eight decimal places as it is and rounds one with more half to even. */
  lemma QuantizeTells(d: Dec)
    requires Quantize8(d).Some?
    ensures var q := Quantize8(d).value;
            && -PRECISION_LIMIT < q < PRECISION_LIMIT
            && (d.exponent >= -8 ==> q == d.coefficient * Pow10(d.exponent - (-8)))
            && (d.exponent < -8 ==> IsHalfEven(q, d.coefficient, Pow10(-8 - d.exponent)))
  {
    if d.exponent < -8 { HalfEvenIsNearest(d.coefficient, Pow10(-8 - d.exponent)); }
  }
}
