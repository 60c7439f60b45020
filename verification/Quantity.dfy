/** Quantities in the base unit of an item, held as integer thousandths:
    the code keeps three decimals everywhere (numeric(14,3)). */
module Quantity {

  type Qty = int

  /** One whole base unit. */
  const ONE: Qty := 1000

  /** Quotients of decimals carry sixteen fractional digits. */
  const QUOTIENT_SCALE := 10_000_000_000_000_000

  function Max(a: Qty, b: Qty): Qty { if a < b then b else a }

  function ClampZero(q: Qty): Qty { if q < 0 then 0 else q }

  function Abs(q: Qty): Qty { if q < 0 then -q else q }

  /** Nearest integer, halves away from zero. */
  function RoundReal(x: real): int {
    if x >= 0.0 then (x + 0.5).Floor else -((-x + 0.5).Floor)
  }

  /** Multiplication by a coefficient, rounded to thousandths. */
  function MulReal(q: Qty, f: real): Qty { RoundReal(q as real * f) }

  /** A non-negative real number of base units as a quantity; anything else is zero. */
  function FromReal(v: real): Qty { if v <= 0.0 then 0 else MulReal(ONE, v) }

  /** Rounded to whole units, halves away from zero. */
  function Whole(q: Qty): Qty { RoundDiv(q, ONE) * ONE }

  /** n / d to the nearest integer, halves away from zero. */
  function RoundDiv(n: int, d: int): int
    requires d > 0
  {
    if n >= 0 then (2 * n + d) / (2 * d) else -((-2 * n + d) / (2 * d))
  }

  function CeilDiv(n: int, d: int): int
    requires d > 0
  {
    -((-n) / d)
  }

  /** Rounds up to a multiple of `step`: the quotient is first rounded to sixteen
      digits, then raised to an integer. A step of zero or less means "no packing". */
  function CeilTo(q: Qty, step: Qty): Qty {
    if step <= 0 then q
    else CeilDiv(RoundDiv(q * QUOTIENT_SCALE, step), QUOTIENT_SCALE) * step
  }

  /** `r` is the least multiple of `step` that is at least `q`. */
  predicate LeastMultiple(r: Qty, q: Qty, step: Qty)
    requires step > 0
  {
    r % step == 0 && q <= r < q + step
  }

  /** The part of `q` above a multiple of `step` survives sixteen-digit rounding. */
  predicate RemainderSurvives(q: Qty, step: Qty)
    requires step > 0
  {
    var rest := q % step;
    rest == 0 || (if q >= 0 then 2 * QUOTIENT_SCALE * rest >= step else 2 * QUOTIENT_SCALE * rest > step)
  }

  // ---- Integer division facts ----

  lemma MulMonotone(a: int, b: int, d: int)
    requires a <= b && d >= 0
    ensures a * d <= b * d
  {
    assert 0 <= (b - a) * d == b * d - a * d;
  }

  /** Quotient and remainder are determined by their defining equation. */
  lemma DivUnique(n: int, d: int, k: int)
    requires d > 0 && k * d <= n < k * d + d
    ensures n / d == k && n % d == n - k * d
  {
    var q := n / d;
    assert n == q * d + n % d;
    assert q < k ==> (q + 1) * d <= k * d by { if q < k { MulMonotone(q + 1, k, d); } }
    assert q > k ==> (k + 1) * d <= q * d by { if q > k { MulMonotone(k + 1, q, d); } }
    assert (q + 1) * d == q * d + d && (k + 1) * d == k * d + d;
  }

  lemma DivMonotone(a: int, b: int, d: int)
    requires d > 0 && a <= b
    ensures a / d <= b / d
  {
    var p, q := a / d, b / d;
    assert a == p * d + a % d && b == q * d + b % d;
    assert p > q ==> (q + 1) * d <= p * d by { if p > q { MulMonotone(q + 1, p, d); } }
    assert (q + 1) * d == q * d + d;
  }

  lemma RoundDivMonotone(a: int, b: int, d: int)
    requires d > 0 && a <= b
    ensures RoundDiv(a, d) <= RoundDiv(b, d)
  {
    if a >= 0 {
      DivMonotone(2 * a + d, 2 * b + d, 2 * d);
    } else if b < 0 {
      DivMonotone(-2 * b + d, -2 * a + d, 2 * d);
    } else {
      DivMonotone(0, 2 * b + d, 2 * d);
      DivMonotone(0, -2 * a + d, 2 * d);
    }
  }

  /** Rounding moves a quotient by at most one half. */
  lemma RoundDivNear(n: int, d: int)
    requires d > 0
    ensures -d <= 2 * (RoundDiv(n, d) * d - n) <= d
  {
    var m := if n >= 0 then n else -n;
    var q := (2 * m + d) / (2 * d);
    assert 2 * m + d == q * (2 * d) + (2 * m + d) % (2 * d);
    assert q * (2 * d) == 2 * (q * d);
    assert (-q) * d == -(q * d);
  }

  /** Whole multiples of the divisor pass through the rounding unchanged. */
  lemma RoundDivShift(k: int, r: int, d: int)
    requires d > 0 && 0 <= r && (k >= 0 || k * d + r < 0)
    ensures k >= 0 ==> RoundDiv(k * d + r, d) == k + RoundDiv(r, d)
    ensures k < 0 ==> RoundDiv(k * d + r, d) == k - (d - 2 * r) / (2 * d)
  {
    if k >= 0 {
      var n := 2 * r + d;
      var u := n / (2 * d);
      assert n == u * (2 * d) + n % (2 * d);
      assert (k + u) * (2 * d) == 2 * (k * d) + u * (2 * d);
      DivUnique(2 * (k * d + r) + d, 2 * d, k + u);
    } else {
      var n := d - 2 * r;
      var u := n / (2 * d);
      assert n == u * (2 * d) + n % (2 * d);
      assert (-k + u) * (2 * d) == -2 * (k * d) + u * (2 * d);
      DivUnique(-2 * (k * d + r) + d, 2 * d, -k + u);
    }
  }

  // ---- CeilTo ----

  /** A scaled remainder rounds to zero exactly when it is below one half. */
  lemma RoundedDown(t: int, step: int, s: int)
    requires step > 0 && s > 0 && 0 <= t <= s * step - s
    ensures 0 <= RoundDiv(t, step) <= s
    ensures RoundDiv(t, step) == 0 <==> 2 * t < step
  {
    var e := 2 * step;
    assert s * e == 2 * (s * step);
    QuotientBetween(2 * t + step, e, 0, s);
    if 2 * t < step {
      DivUnique(2 * t + step, e, 0);
    } else {
      assert 1 * e <= 2 * t + step;
      QuotientBetween(2 * t + step, e, 1, s);
    }
  }

  /** The same below zero, where a half rounds away from the multiple above. */
  lemma RoundedUp(t: int, step: int, s: int)
    requires step > 0 && s > 0 && 0 <= t <= s * step - s
    ensures -s <= (step - 2 * t) / (2 * step) <= 0
    ensures (step - 2 * t) / (2 * step) == 0 <==> 2 * t <= step
  {
    var e := 2 * step;
    assert (-s) * e == -2 * (s * step);
    QuotientBetween(step - 2 * t, e, -s, 0);
    if 2 * t <= step {
      DivUnique(step - 2 * t, e, 0);
    } else {
      QuotientBetween(step - 2 * t, e, -s, -1);
    }
  }

  lemma QuotientBetween(n: int, d: int, lo: int, hi: int)
    requires d > 0 && lo * d <= n < hi * d + d
    ensures lo <= n / d <= hi
  {
    var q := n / d;
    assert n == q * d + n % d;
    assert q < lo ==> (q + 1) * d <= lo * d by { if q < lo { MulMonotone(q + 1, lo, d); } }
    assert q > hi ==> (hi + 1) * d <= q * d by { if q > hi { MulMonotone(hi + 1, q, d); } }
    assert (q + 1) * d == q * d + d && (hi + 1) * d == hi * d + d;
  }

  /** The raised quotient, computed by quotient and remainder. */
  lemma CeilToParts(q: Qty, step: Qty)
    requires step > 0
    ensures CeilTo(q, step) == (q / step + if q % step != 0 && RemainderSurvives(q, step) then 1 else 0) * step
  {
    RaisedQuotient(q, step, QUOTIENT_SCALE);
    var r, s := q % step, QUOTIENT_SCALE;
    assert 2 * s * r == 2 * (r * s);
  }

  lemma RaisedQuotient(q: int, step: int, s: int)
    requires step > 0 && s > 0
    ensures
      var r := q % step;
      var up := if q >= 0 then 2 * (r * s) >= step else 2 * (r * s) > step;
      CeilDiv(RoundDiv(q * s, step), s) == q / step + if r != 0 && up then 1 else 0
  {
    hide RoundDiv, CeilDiv;
    var k, r := q / step, q % step;
    assert q == k * step + r;
    ScaledParts(k, r, step, s);
    if q >= 0 {
      assert k >= 0 by { DivMonotone(0, q, step); }
      RaisedAbove(k, r, step, s);
    } else {
      assert k <= -1 by { DivMonotone(q, -1, step); DivUnique(-1, step, -1); }
      RaisedBelow(k, r, step, s);
    }
  }

  lemma ScaledParts(k: int, r: int, step: int, s: int)
    requires step > 0 && s > 0 && 0 <= r < step
    ensures (k * step + r) * s == (k * s) * step + r * s
    ensures 0 <= r * s <= s * step - s
    ensures r == 0 ==> r * s == 0
  {
    MulMonotone(0, r, s);
    MulMonotone(r, step - 1, s);
    assert (step - 1) * s == s * step - s;
  }

  lemma RaisedAbove(k: int, r: int, step: int, s: int)
    requires step > 0 && s > 0 && 0 <= r < step && k >= 0
    ensures CeilDiv(RoundDiv((k * step + r) * s, step), s) == k + if r != 0 && 2 * (r * s) >= step then 1 else 0
  {
    hide RoundDiv, CeilDiv;
    ScaledParts(k, r, step, s);
    RoundedDown(r * s, step, s);
    MulMonotone(0, k, s);
    RoundDivShift(k * s, r * s, step);
    RaiseShifted(k, RoundDiv(r * s, step), s);
  }

  lemma RaisedBelow(k: int, r: int, step: int, s: int)
    requires step > 0 && s > 0 && 0 <= r < step && k <= -1
    ensures CeilDiv(RoundDiv((k * step + r) * s, step), s) == k + if r != 0 && 2 * (r * s) > step then 1 else 0
  {
    hide RoundDiv, CeilDiv;
    ScaledParts(k, r, step, s);
    RoundedUp(r * s, step, s);
    MulMonotone(k, -1, s);
    MulMonotone(k * s, -s, step);
    assert (-s) * step == -(s * step);
    var t, u := r * s, (step - 2 * (r * s)) / (2 * step);
    RoundDivShift(k * s, t, step);
    RaiseShifted(k, -u, s);
  }

  lemma RaiseShifted(k: int, u: int, s: int)
    requires s > 0 && 0 <= u <= s
    ensures CeilDiv(k * s + u, s) == k + if u == 0 then 0 else 1
  {
    var up := if u == 0 then 0 else 1;
    assert (-k - up) * s == -(k * s) - up * s;
    DivUnique(-(k * s + u), s, -k - up);
  }

  /** CeilTo is exact on precisely the inputs whose remainder survives rounding. */
  lemma CeilToExactIff(q: Qty, step: Qty)
    requires step > 0
    ensures LeastMultiple(CeilTo(q, step), q, step) <==> RemainderSurvives(q, step)
  {
    CeilToParts(q, step);
    var k, r := q / step, q % step;
    assert q == k * step + r;
    assert (k + 1) * step == k * step + step;
    MultipleMod(k, step);
    MultipleMod(k + 1, step);
  }

  lemma MultipleMod(k: int, d: int)
    requires d > 0
    ensures (k * d) % d == 0
  {
    DivUnique(k * d, d, k);
    assert k * d == (k * d) / d * d + (k * d) % d;
  }

  /** Every step up to 2*10^16 thousandths is exact for non-negative quantities. */
  lemma CeilToLeastMultiple(q: Qty, step: Qty)
    requires q >= 0 && 0 < step <= 2 * QUOTIENT_SCALE
    ensures LeastMultiple(CeilTo(q, step), q, step)
  {
    CeilToExactIff(q, step);
  }

  /** The first step that is too large: one thousandth rounds down to nothing. */
  lemma CeilToLosesRemainder()
    ensures CeilTo(1, 2 * QUOTIENT_SCALE + 1) == 0
  {
    CeilToParts(1, 2 * QUOTIENT_SCALE + 1);
  }

  lemma CeilToMonotone(a: Qty, b: Qty, step: Qty)
    requires a <= b
    ensures CeilTo(a, step) <= CeilTo(b, step)
  {
    if step > 0 { RaisedMonotone(a, b, step, QUOTIENT_SCALE); }
  }

  lemma RaisedMonotone(a: int, b: int, step: int, s: int)
    requires a <= b && step > 0 && s > 0
    ensures CeilDiv(RoundDiv(a * s, step), s) * step <= CeilDiv(RoundDiv(b * s, step), s) * step
  {
    MulMonotone(a, b, s);
    var x, y := a * s, b * s;
    RoundDivMonotone(x, y, step);
    var p, q := RoundDiv(x, step), RoundDiv(y, step);
    DivMonotone(-q, -p, s);
    MulMonotone(CeilDiv(p, s), CeilDiv(q, s), step);
  }

  lemma CeilToNonNegative(q: Qty, step: Qty)
    requires q >= 0
    ensures CeilTo(q, step) >= 0
  {
    CeilToMonotone(0, q, step);
    if step > 0 { CeilToParts(0, step); }
  }
}
