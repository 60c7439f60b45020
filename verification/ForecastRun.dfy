/** The loops of the forecast, each proved against its specification. */
module ForecastRun {
  import opened Options
  import opened Quantity
  import opened DeliveryWindow
  import opened Reorder
  import opened Forecasting

  method ComputeMean(values: seq<real>) returns (m: real)
    ensures m == Mean(values)
  {
    if |values| == 0 {
      return 0.0;
    }
    var sum := 0.0;
    for i := 0 to |values|
      invariant sum == Sum(values[..i])
    {
      assert values[..i + 1][..i] == values[..i];
      sum := sum + values[i];
    }
    assert values[..|values|] == values;
    m := sum / (|values| as real);
  }

  method ComputeVariance(values: seq<real>) returns (v: real)
    ensures v == Variance(values)
  {
    if |values| < 2 {
      return 0.0;
    }
    var m := ComputeMean(values);
    var sum := 0.0;
    for i := 0 to |values|
      invariant sum == SumSquares(values[..i], m)
    {
      assert values[..i + 1][..i] == values[..i];
      var d := values[i] - m;
      sum := sum + d * d;
    }
    assert values[..|values|] == values;
    v := sum / ((|values| - 1) as real);
  }

  method ComputeThreshold(window: seq<Pt>) returns (t: Option<real>)
    ensures t == Threshold(window)
  {
    hide Sort, Quartile;
    var values := Sort(Qtys(window));
    var q1, q3 := Quartile(values, 1), Quartile(values, 3);
    t := if q3 <= 0.0 then None else Some(q3 + 3.0 * (q3 - q1));
  }

  method CutFrom(pts: array<Pt>, from: nat, threshold: real)
    requires from <= pts.Length
    modifies pts
    ensures pts[..] == CutAll(old(pts[..]), from, threshold)
  {
    for i := from to pts.Length
      invariant forall j :: 0 <= j < pts.Length ==>
                  pts[j] == if from <= j < i then old(pts[j]).(qty := Cut(old(pts[j]).qty, threshold)) else old(pts[j])
    {
      if pts[i].qty > threshold {
        pts[i] := pts[i].(qty := threshold);
      }
    }
  }

  /** Cuts the last eight weeks of the array in place. */
  method ClipOutliers(pts: array<Pt>)
    modifies pts
    ensures pts[..] == Clip(old(pts[..]))
  {
    hide Threshold, CutAll;
    if pts.Length < 8 {
      return;
    }
    var from := if pts.Length > OUTLIER_DAYS then pts.Length - OUTLIER_DAYS else 0;
    ghost var was := pts[..];
    assert pts[from..] == was[WindowStart(was)..];
    var threshold := ComputeThreshold(pts[from..]);
    if threshold.Some? {
      CutFrom(pts, from, threshold.value);
    }
  }

  method CleanSeries(series: seq<Observation>, asOf: Day) returns (pts: seq<Pt>)
    ensures pts == Clean(series, asOf)
  {
    var kept: seq<Pt> := [];
    for i := 0 to |series|
      invariant kept == Retained(series[..i], asOf)
    {
      assert series[..i + 1][..i] == series[..i];
      var o := series[i];
      if o.hasData && !o.stockout && o.day < asOf && o.qty >= 0 {
        kept := kept + [Pt(o.day, o.qty as real / 1000.0)];
      }
    }
    assert series[..|series|] == series;
    var sorted := SortByDay(kept);
    var a := new Pt[|sorted|](i requires 0 <= i < |sorted| => sorted[i]);
    assert a[..] == sorted;
    ClipOutliers(a);
    pts := a[..];
  }

  /** The latest quantities of one weekday, walking back from the end. */
  method RecentOf(pts: seq<Pt>, wd: int) returns (recent: seq<real>)
    ensures recent == Latest(pts, wd, LOOKBACK)
  {
    recent := [];
    var i := |pts|;
    assert pts[..i] == pts;
    while i > 0 && |recent| < LOOKBACK
      invariant 0 <= i <= |pts| && |recent| <= LOOKBACK
      invariant Latest(pts, wd, LOOKBACK) == recent + Latest(pts[..i], wd, LOOKBACK - |recent|)
    {
      i := i - 1;
      assert pts[..i + 1][..i] == pts[..i];
      if Weekday(pts[i].day) == wd {
        recent := recent + [pts[i].qty];
      }
    }
  }

  method FitM1(pts: seq<Pt>) returns (p: Predictor)
    ensures p == Fit(WeekdayMean, pts)
  {
    var byWeekday: seq<real> := [0.0];
    var known := [false];
    var all := Qtys(pts);
    var fallback := ComputeMean(all);
    for wd := 1 to 8
      invariant |byWeekday| == |known| == wd
      invariant byWeekday[0] == 0.0 && !known[0]
      invariant forall d :: 1 <= d < wd ==> byWeekday[d] == Mean(Latest(pts, d, LOOKBACK))
      invariant forall d :: 1 <= d < wd ==> known[d] == (Latest(pts, d, LOOKBACK) != [])
    {
      var recent := RecentOf(pts, wd);
      var m := ComputeMean(recent);
      byWeekday, known := byWeekday + [m], known + [|recent| > 0];
    }
    p := Means(byWeekday, known, fallback);
    assert byWeekday == FitMeans(pts).byWeekday && known == FitMeans(pts).known;
  }

  method SeasonalIndex(pts: seq<Pt>) returns (idx: seq<real>)
    ensures idx == Seasonal(pts)
  {
    var window := if |pts| > SEASON_DAYS then pts[|pts| - SEASON_DAYS..] else pts;
    var overall := ComputeMean(Qtys(window));
    idx := seq(8, _ => 1.0);
    if overall <= 0.0 {
      return;
    }
    for wd := 1 to 8
      invariant |idx| == 8 && forall d :: wd <= d < 8 ==> idx[d] == 1.0
      invariant forall d :: 0 <= d < wd ==> idx[d] == SeasonOf(window, d)
    {
      var same: seq<real> := [];
      for i := 0 to |window|
        invariant same == OfWeekday(window[..i], wd)
      {
        assert window[..i + 1][..i] == window[..i];
        if Weekday(window[i].day) == wd {
          same := same + [window[i].qty];
        }
      }
      assert window[..|window|] == window;
      if |same| > 0 {
        var m := ComputeMean(same);
        var s := m / overall;
        if s < 0.05 {
          s := 0.05;
        }
        idx := idx[wd := s];
      }
    }
  }

  method ComputeLevel(pts: seq<Pt>, seasonal: seq<real>, alpha: real, start: real) returns (level: real)
    requires |seasonal| == 8 && forall wd :: 0 <= wd < 8 ==> seasonal[wd] > 0.0
    ensures level == Smooth(pts, seasonal, alpha, start)
  {
    level := start;
    for i := 0 to |pts|
      invariant level == Smooth(pts[..i], seasonal, alpha, start)
    {
      assert pts[..i + 1][..i] == pts[..i];
      level := alpha * (pts[i].qty / seasonal[Weekday(pts[i].day)]) + (1.0 - alpha) * level;
    }
    assert pts[..|pts|] == pts;
  }

  method FitM2(pts: seq<Pt>, alpha: real) returns (p: Predictor)
    ensures p == Fit(Smoothing(alpha), pts)
  {
    hide Seasonal, Smooth, Deseasonalized, Mean;
    var seasonal := SeasonalIndex(pts);
    var warmup := if |pts| > 7 then pts[..7] else pts;
    var start := ComputeMean(Deseasonalized(warmup, seasonal));
    var level := ComputeLevel(pts, seasonal, alpha, start);
    p := Smoothed(level, seasonal);
  }

  method FitModel(f: Fitter, pts: seq<Pt>) returns (p: Predictor)
    ensures p == Fit(f, pts)
  {
    match f {
      case WeekdayMean => p := FitM1(pts);
      case Smoothing(alpha) => p := FitM2(pts, alpha);
    }
  }

  /** The running sums of the backtest. */
  datatype Tally = Tally(sumAbs: real, sumFact: real, sumErr: real, errors: seq<real>)

  function TallyOf(cs: seq<Comparison>): Tally { Tally(SumAbs(cs), SumFact(cs), SumErr(cs), Errors(cs)) }

  lemma EmptyTally()
    ensures TallyOf([]) == Tally(0.0, 0.0, 0.0, [])
  {}

  lemma TallyOne(cs: seq<Comparison>, c: Comparison)
    ensures
      var e, t := c.predicted - c.fact, TallyOf(cs);
      TallyOf(cs + [c]) == Tally(t.sumAbs + (if e < 0.0 then -e else e), t.sumFact + c.fact, t.sumErr + e, t.errors + [e])
  {
    assert (cs + [c])[..|cs|] == cs;
  }

  method ComputeActual(pts: seq<Pt>) returns (actual: map<Day, real>)
    ensures actual == Actual(pts)
  {
    actual := map[];
    for i := 0 to |pts|
      invariant actual == Actual(pts[..i])
    {
      assert pts[..i + 1][..i] == pts[..i];
      actual := actual[pts[i].day := pts[i].qty];
    }
    assert pts[..|pts|] == pts;
  }

  /** One origin: the comparisons of its horizon are added to the sums. */
  method CompareAhead(model: Predictor, origin: Day, actual: map<Day, real>, ghost before: seq<Comparison>, t0: Tally)
    returns (t: Tally)
    requires model.Valid() && t0 == TallyOf(before)
    ensures t == TallyOf(before + Ahead(model, origin, actual, BACKTEST_HORIZON))
  {
    hide TallyOf, Weekday;
    t := t0;
    assert before + Ahead(model, origin, actual, 0) == before;
    for h := 1 to BACKTEST_HORIZON + 1
      invariant t == TallyOf(before + Ahead(model, origin, actual, h - 1))
    {
      ghost var sofar := Ahead(model, origin, actual, h - 1);
      if origin + h in actual {
        var predicted, fact := model.Predict(origin + h), actual[origin + h];
        var e := predicted - fact;
        TallyOne(before + sofar, Comparison(predicted, fact));
        assert before + (sofar + [Comparison(predicted, fact)]) == before + sofar + [Comparison(predicted, fact)];
        t := Tally(t.sumAbs + (if e < 0.0 then -e else e), t.sumFact + fact, t.sumErr + e, t.errors + [e]);
      } else {
        assert Ahead(model, origin, actual, h) == sofar + [];
        assert before + (sofar + []) == before + sofar;
      }
    }
  }

  method RunBacktest(f: Fitter, pts: seq<Pt>) returns (m: Metrics)
    ensures m == Backtest(f, pts)
  {
    hide Fit, Ahead, Actual, SumAbs, SumErr, SumFact, Variance;
    if |pts| < MIN_DAYS_M1 {
      return Metrics(M0, 1.0, 0.0, 0.0, 0.0, BACKTEST_DAYS, |pts|);
    }
    var actual := ComputeActual(pts);
    var firstOrigin := |pts| - BACKTEST_DAYS;
    if firstOrigin < MIN_DAYS_M1 {
      firstOrigin := MIN_DAYS_M1;
    }
    var t := Tally(0.0, 0.0, 0.0, []);
    EmptyTally();
    var i := firstOrigin;
    while i < |pts|
      invariant firstOrigin <= i <= |pts|
      invariant t == TallyOf(Comparisons(f, pts, i))
    {
      var model := FitModel(f, pts[..i]);
      t := CompareAhead(model, pts[i - 1].day, actual, Comparisons(f, pts, i), t);
      i := i + 1;
    }
    var variance := ComputeVariance(t.errors);
    m := Metrics(M0, 1.0, 0.0, variance, 0.0, BACKTEST_DAYS, |pts|);
    if |t.errors| == 0 {
    } else if t.sumFact <= 0.0 {
      m := m.(wape := if t.sumAbs == 0.0 then 0.0 else 1.0);
    } else {
      m := m.(wape := t.sumAbs / t.sumFact, bias := t.sumErr / t.sumFact);
    }
  }

  method SelectBest(pts: seq<Pt>) returns (best: Choice)
    ensures best == Best(pts, Candidates(pts))
  {
    hide Backtest;
    var m1 := RunBacktest(WeekdayMean, pts);
    best := Choice(M1, WeekdayMean, m1);
    if |pts| >= MIN_DAYS_M2 {
      for k := 0 to |ALPHA_GRID|
        invariant best == Best(pts, k)
      {
        var alpha := ALPHA_GRID[k];
        var m := RunBacktest(Smoothing(alpha), pts);
        if m.wape < best.metrics.wape {
          best := Choice(M2, Smoothing(alpha), m.(alpha := alpha));
        }
      }
    }
  }

  method ComputePoints(model: Predictor, asOf: Day, n: nat) returns (points: seq<Point>)
    requires model.Valid()
    ensures points == PointsAhead(model, asOf, n)
  {
    points := [];
    for i := 0 to n
      invariant points == PointsAhead(model, asOf, i)
    {
      points := points + [Point(asOf + i, FromReal(model.Predict(asOf + i)))];
    }
  }

  method ComputeForecast(series: seq<Observation>, asOf: Day, horizon: int) returns (r: Outlook)
    ensures r == Compute(series, asOf, horizon)
  {
    hide Clean, Best, Fit, PointsAhead;
    var n := if horizon <= 0 then HORIZON_DAYS else horizon;
    var clean := CleanSeries(series, asOf);
    if |clean| < MIN_DAYS_M1 {
      return Outlook(M0, seq(n, i => Point(asOf + i, 0)), Metrics(M0, 1.0, 0.0, 0.0, 0.0, 0, |clean|));
    }
    var best := SelectBest(clean);
    var model := FitModel(best.fitter, clean);
    var points := ComputePoints(model, asOf, n);
    r := Outlook(best.model, points, best.metrics.(model := best.model, windowDays := BACKTEST_DAYS, daysWithData := |clean|));
  }
}
