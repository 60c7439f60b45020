/** What the smoothing model and the backtest figures mean. */
module SmoothingLaws {
  import opened DeliveryWindow
  import opened Forecasting

  // ---- Exponential weights ----

  function Power(x: real, n: nat): real { if n == 0 then 1.0 else x * Power(x, n - 1) }

  /** Each value weighted by its age: the latest by alpha, every step back by `b` less. */
  function Weighted(xs: seq<real>, alpha: real, b: real): real {
    if xs == [] then 0.0 else Times(alpha * Power(b, |xs| - 1), xs[0]) + Weighted(xs[1..], alpha, b)
  }

  function Times(x: real, y: real): real { x * y }

  lemma {:induction false} WeightedOneMore(xs: seq<real>, x: real, alpha: real, b: real)
    ensures Weighted(xs + [x], alpha, b) == Times(alpha, x) + Times(b, Weighted(xs, alpha, b))
  {
    var n := xs + [x];
    if xs == [] {
      assert n[1..] == [];
    } else {
      hide Times;
      WeightedOneMore(xs[1..], x, alpha, b);
      assert n[1..] == xs[1..] + [x];
      Ageing(alpha, b, Power(b, |xs| - 1), xs[0], Weighted(xs[1..], alpha, b));
    }
  }

  lemma Ageing(alpha: real, b: real, p: real, x: real, rest: real)
    ensures Times(alpha * (b * p), x) + Times(b, rest) == Times(b, Times(alpha * p, x) + rest)
  {
    var v := alpha * p;
    assert alpha * (b * p) == b * v;
    assert (b * v) * x == b * (v * x);
  }

  /** The smoothed level is the exponentially weighted sum of the deseasonalized values, with
      what weight is left going to the starting level. */
  lemma {:induction false} SmoothIsWeighted(pts: seq<Pt>, seasonal: seq<real>, alpha: real, start: real)
    requires |seasonal| == 8 && forall wd :: 0 <= wd < 8 ==> seasonal[wd] > 0.0
    ensures
      var b := 1.0 - alpha;
      Smooth(pts, seasonal, alpha, start) == Times(Power(b, |pts|), start) + Weighted(Deseasonalized(pts, seasonal), alpha, b)
  {
    if pts != [] {
      hide Times, Weighted, Blend;
      var init, b := pts[..|pts| - 1], 1.0 - alpha;
      SmoothIsWeighted(init, seasonal, alpha, start);
      var older := Deseasonalized(init, seasonal);
      var x := pts[|pts| - 1].qty / seasonal[Weekday(pts[|pts| - 1].day)];
      assert Deseasonalized(pts, seasonal) == older + [x];
      WeightedOneMore(older, x, alpha, b);
      BlendIs(alpha, x, Smooth(init, seasonal, alpha, start));
      Distributes(b, Power(b, |init|), start, Weighted(older, alpha, b));
    } else {
      assert Deseasonalized(pts, seasonal) == [];
    }
  }

  lemma BlendIs(alpha: real, x: real, level: real)
    ensures Blend(alpha, x, level) == Times(alpha, x) + Times(1.0 - alpha, level)
  {
  }

  lemma Distributes(b: real, p: real, s: real, t: real)
    ensures Times(b, Times(p, s) + t) == Times(b * p, s) + Times(b, t)
  {
    assert b * (p * s + t) == b * (p * s) + b * t;
    assert b * (p * s) == (b * p) * s;
  }

  // ---- A flat history ----

  predicate Flat(pts: seq<Pt>, c: real) { forall i :: 0 <= i < |pts| ==> pts[i].qty == c }

  predicate AllEqual(s: seq<real>, c: real) { forall i :: 0 <= i < |s| ==> s[i] == c }

  lemma {:induction false} FlatSum(s: seq<real>, c: real)
    requires AllEqual(s, c)
    ensures Sum(s) == |s| as real * c
  {
    if s != [] { FlatSum(s[..|s| - 1], c); }
  }

  lemma FlatMean(s: seq<real>, c: real)
    requires AllEqual(s, c) && s != []
    ensures Mean(s) == c
  {
    FlatSum(s, c);
    Quotient(|s| as real, c);
  }

  lemma Quotient(n: real, c: real)
    requires n > 0.0
    ensures (n * c) / n == c
  {
  }

  lemma {:induction false} FlatWeekday(pts: seq<Pt>, c: real, wd: int)
    requires Flat(pts, c)
    ensures AllEqual(OfWeekday(pts, wd), c)
  {
    if pts != [] { FlatWeekday(pts[..|pts| - 1], c, wd); }
  }

  lemma FlatSeason(window: seq<Pt>, c: real, wd: int)
    requires Flat(window, c) && c > 0.0 && window != []
    ensures SeasonOf(window, wd) == 1.0
  {
    FlatMean(Qtys(window), c);
    FlatWeekday(window, c, wd);
    if OfWeekday(window, wd) != [] { FlatMean(OfWeekday(window, wd), c); }
    Quotient(c, 1.0);
  }

  lemma {:induction false} FlatLevel(pts: seq<Pt>, seasonal: seq<real>, alpha: real, c: real)
    requires Flat(pts, c) && |seasonal| == 8 && forall wd :: 0 <= wd < 8 ==> seasonal[wd] == 1.0
    ensures Smooth(pts, seasonal, alpha, c) == c
  {
    if pts != [] {
      FlatLevel(pts[..|pts| - 1], seasonal, alpha, c);
      assert alpha * c + (1.0 - alpha) * c == c;
    }
  }

  /** On a flat history both models forecast the same quantity for every day. */
  lemma FlatForecast(pts: seq<Pt>, alpha: real, c: real, day: Day)
    requires Flat(pts, c) && c > 0.0 && pts != []
    ensures FitSmoothing(pts, alpha).Predict(day) == c && FitMeans(pts).Predict(day) == c
  {
    hide SeasonOf, Smooth;
    var window, seasonal := LastDays(pts, SEASON_DAYS), Seasonal(pts);
    forall wd | 0 <= wd < 8 ensures seasonal[wd] == 1.0 { FlatSeason(window, c, wd); }
    var warmup := if |pts| > 7 then pts[..7] else pts;
    var levels := Deseasonalized(warmup, seasonal);
    assert AllEqual(levels, c);
    FlatMean(levels, c);
    FlatLevel(pts, seasonal, alpha, c);
    assert FitSmoothing(pts, alpha).level == c;
    FlatMeans(pts, c, day);
  }

  lemma {:induction false} FlatLatest(pts: seq<Pt>, c: real, wd: int, limit: nat)
    requires Flat(pts, c)
    ensures AllEqual(Latest(pts, wd, limit), c)
    decreases |pts|
  {
    if pts != [] && limit > 0 {
      FlatLatest(pts[..|pts| - 1], c, wd, limit - 1);
      FlatLatest(pts[..|pts| - 1], c, wd, limit);
    }
  }

  lemma FlatMeans(pts: seq<Pt>, c: real, day: Day)
    requires Flat(pts, c) && pts != []
    ensures FitMeans(pts).Predict(day) == c
  {
    FlatLatest(pts, c, Weekday(day), LOOKBACK);
    FlatMean(Qtys(pts), c);
    var latest := Latest(pts, Weekday(day), LOOKBACK);
    if latest != [] { FlatMean(latest, c); }
  }

  // ---- WAPE and bias ----

  lemma {:induction false} SumsCompare(cs: seq<Comparison>)
    ensures -SumAbs(cs) <= SumErr(cs) <= SumAbs(cs)
    ensures (forall x :: x in cs ==> x.predicted >= x.fact) ==> SumErr(cs) == SumAbs(cs)
    ensures (forall x :: x in cs ==> x.predicted <= x.fact) ==> SumErr(cs) == -SumAbs(cs)
  {
    if cs != [] {
      var init := cs[..|cs| - 1];
      SumsCompare(init);
      assert cs[|cs| - 1] in cs && forall x :: x in init ==> x in cs;
    }
  }

  lemma Ratio(a: real, b: real, f: real)
    requires f > 0.0 && -a <= b <= a
    ensures -(a / f) <= b / f <= a / f
  {
  }

  /** The bias never exceeds the error; it equals it when every forecast was too high and is
      its opposite when every forecast was too low. */
  lemma BiasMeans(cs: seq<Comparison>)
    requires SumFact(cs) > 0.0
    ensures -Wape(cs) <= Bias(cs) <= Wape(cs)
    ensures (forall x :: x in cs ==> x.predicted >= x.fact) ==> Bias(cs) == Wape(cs)
    ensures (forall x :: x in cs ==> x.predicted <= x.fact) ==> Bias(cs) == -Wape(cs)
  {
    SumsCompare(cs);
    Ratio(SumAbs(cs), SumErr(cs), SumFact(cs));
    assert cs != [];
  }
}
