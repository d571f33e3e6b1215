/** Half-up rounding of ratios, in hundredths of a percent. */
module Rounding {
  /** num/den rounded half up; an empty total reads as zero. */
  function HalfUp(num: nat, den: nat): nat {
    if den == 0 then 0 else (num * 20000 + den) / (2 * den)
  }

  /** The result is the hundredth nearest to the ratio, the upper one of two that are equally near, and no other
      number is. */
  lemma HalfUpNearest(num: nat, den: nat, r: nat)
    requires den > 0
    ensures r == HalfUp(num, den) <==> 2 * (r * den - 10000 * num) <= den && 2 * (10000 * num - r * den) < den
  {
    var x, d := num * 20000 + den, 2 * den;
    DivIs(x, d, r);
    assert r * d == 2 * (r * den);
    assert (r + 1) * d == r * d + d;
  }

  lemma DivIs(x: nat, d: nat, q: nat)
    requires d > 0
    ensures x / d == q <==> q * d <= x < (q + 1) * d
  {
    var p := x / d;
    assert x == p * d + x % d;
    assert (p + 1) * d == p * d + d && (q + 1) * d == q * d + d;
    if p < q { MulMono(p + 1, q, d); }
    if q < p { MulMono(q + 1, p, d); }
  }

  lemma HalfUpRange(num: nat, den: nat)
    requires num <= den
    ensures HalfUp(num, den) <= 10000
  {
    if den > 0 {
      var x, d := num * 20000 + den, 2 * den;
      assert x <= 10000 * d + den;
      DivBelow(x, d, 10000);
    }
  }

  lemma DivBelow(x: nat, d: nat, q: nat)
    requires d > 0 && x < (q + 1) * d
    ensures x / d <= q
  {
    if x / d >= q + 1 {
      MulMono(q + 1, x / d, d);
    }
  }

  lemma MulMono(a: nat, b: nat, d: nat)
    requires a <= b
    ensures a * d <= b * d
  {
  }
}
