/** The demand forecast over exact reals: cleaning, two models, backtest, selection. */
module Forecasting {
  import opened Options
  import opened Quantity
  import opened DeliveryWindow
  import opened Reorder

  const HORIZON_DAYS := 14
  const BACKTEST_DAYS := 28
  const BACKTEST_HORIZON := 7
  const SEASON_DAYS := 56
  const OUTLIER_DAYS := 56
  const MIN_DAYS_M1 := 7
  const MIN_DAYS_M2 := 28
  const LOOKBACK := 4
  const ALPHA_GRID: seq<real> := [0.1, 0.2, 0.3, 0.4, 0.5]

  /** One day of consumption. */
  datatype Observation = Observation(day: Day, qty: Qty, hasData: bool, stockout: bool)

  /** A retained day; the quantity in base units. */
  datatype Pt = Pt(day: Day, qty: real)

  // ---- Arithmetic over lists ----

  function Sum(values: seq<real>): real {
    if values == [] then 0.0 else Sum(values[..|values| - 1]) + values[|values| - 1]
  }

  function Mean(values: seq<real>): real {
    if values == [] then 0.0 else Sum(values) / (|values| as real)
  }

  function SumSquares(values: seq<real>, m: real): real {
    if values == [] then 0.0
    else
      var d := values[|values| - 1] - m;
      SumSquares(values[..|values| - 1], m) + d * d
  }

  /** The sample variance; the code stores its square root. */
  function Variance(values: seq<real>): real {
    if |values| < 2 then 0.0 else SumSquares(values, Mean(values)) / ((|values| - 1) as real)
  }

  // ---- Cleaning ----

  predicate Keep(o: Observation, asOf: Day) { o.hasData && !o.stockout && o.day < asOf && o.qty >= 0 }

  function Retained(series: seq<Observation>, asOf: Day): seq<Pt> {
    if series == [] then []
    else
      var o := series[|series| - 1];
      Retained(series[..|series| - 1], asOf) + if Keep(o, asOf) then [Pt(o.day, o.qty as real / 1000.0)] else []
  }

  function InsertByDay(p: Pt, s: seq<Pt>): seq<Pt> {
    if s == [] || p.day <= s[0].day then [p] + s else [s[0]] + InsertByDay(p, s[1..])
  }

  /** The library sort by day. */
  function SortByDay(s: seq<Pt>): seq<Pt> {
    if s == [] then [] else InsertByDay(s[0], SortByDay(s[1..]))
  }

  function Insert(x: real, s: seq<real>): seq<real> {
    if s == [] || x <= s[0] then [x] + s else [s[0]] + Insert(x, s[1..])
  }

  /** The library sort of numbers. */
  function Sort(s: seq<real>): (r: seq<real>)
  {
    if s == [] then [] else Insert(s[0], Sort(s[1..]))
  }

  /** The k-th quartile by linear interpolation at position k/4 * (n - 1). */
  function Quartile(sorted: seq<real>, k: nat): real
    requires k <= 4
  {
    if sorted == [] then 0.0
    else
      var position := k * (|sorted| - 1);
      var lo, quarters := position / 4, position % 4;
      if quarters == 0 then sorted[lo]
      else
        var fraction := quarters as real / 4.0;
        sorted[lo] * (1.0 - fraction) + sorted[lo + 1] * fraction
  }

  function Qtys(pts: seq<Pt>): seq<real> { seq(|pts|, i requires 0 <= i < |pts| => pts[i].qty) }

  function Values(window: seq<Pt>): seq<real> { Sort(Qtys(window)) }

  /** The quantity above which the window is cut; None where nothing is to be cut. */
  function Threshold(window: seq<Pt>): Option<real> {
    var values := Values(window);
    var q1, q3 := Quartile(values, 1), Quartile(values, 3);
    if q3 <= 0.0 then None else Some(q3 + 3.0 * (q3 - q1))
  }

  function WindowStart(pts: seq<Pt>): nat { if |pts| > OUTLIER_DAYS then |pts| - OUTLIER_DAYS else 0 }

  function Cut(x: real, t: real): real { if x > t then t else x }

  function CutAll(pts: seq<Pt>, from: nat, t: real): seq<Pt> {
    seq(|pts|, i requires 0 <= i < |pts| => if i >= from then pts[i].(qty := Cut(pts[i].qty, t)) else pts[i])
  }

  /** Cuts the last eight weeks at Q3 + 3 * IQR. */
  function Clip(pts: seq<Pt>): seq<Pt> {
    if |pts| < 8 then pts
    else
      var t := Threshold(pts[WindowStart(pts)..]);
      if t.None? then pts else CutAll(pts, WindowStart(pts), t.value)
  }

  function Clean(series: seq<Observation>, asOf: Day): seq<Pt> { Clip(SortByDay(Retained(series, asOf))) }

  // ---- Models ----

  datatype Fitter = WeekdayMean | Smoothing(alpha: real)

  /** A fitted model; lists are indexed by weekday 1..7. */
  datatype Predictor =
    | Means(byWeekday: seq<real>, known: seq<bool>, fallback: real)
    | Smoothed(level: real, seasonal: seq<real>)
  {
    ghost predicate Valid() {
      match this
      case Means(byWeekday, known, _) => |byWeekday| == |known| == 8
      case Smoothed(_, seasonal) => |seasonal| == 8
    }

    function Predict(day: Day): real
      requires Valid()
    {
      var wd := Weekday(day);
      match this
      case Means(byWeekday, known, fallback) => if known[wd] then byWeekday[wd] else fallback
      case Smoothed(level, seasonal) =>
        var v := level * seasonal[wd];
        if v < 0.0 then 0.0 else v
    }
  }

  /** The latest up to `limit` quantities of one weekday, newest first. */
  function Latest(pts: seq<Pt>, wd: int, limit: nat): seq<real> {
    if pts == [] || limit == 0 then []
    else
      var last, init := pts[|pts| - 1], pts[..|pts| - 1];
      if Weekday(last.day) == wd then [last.qty] + Latest(init, wd, limit - 1) else Latest(init, wd, limit)
  }

  function FitMeans(pts: seq<Pt>): (p: Predictor)
    ensures p.Valid()
  {
    Means(seq(8, wd => if wd == 0 then 0.0 else Mean(Latest(pts, wd, LOOKBACK))),
          seq(8, wd => wd > 0 && Latest(pts, wd, LOOKBACK) != []),
          Mean(Qtys(pts)))
  }

  function OfWeekday(pts: seq<Pt>, wd: int): seq<real> {
    if pts == [] then []
    else OfWeekday(pts[..|pts| - 1], wd) + if Weekday(pts[|pts| - 1].day) == wd then [pts[|pts| - 1].qty] else []
  }

  function Floored(x: real): real { if x < 0.05 then 0.05 else x }

  function SeasonOf(window: seq<Pt>, wd: int): (s: real)
    ensures s > 0.0
  {
    var overall, same := Mean(Qtys(window)), OfWeekday(window, wd);
    if overall <= 0.0 || wd == 0 || same == [] then 1.0 else Floored(Mean(same) / overall)
  }

  function LastDays(pts: seq<Pt>, n: nat): seq<Pt> { if |pts| > n then pts[|pts| - n..] else pts }

  function Seasonal(pts: seq<Pt>): (s: seq<real>)
    ensures |s| == 8 && forall wd :: 0 <= wd < 8 ==> s[wd] > 0.0
  {
    seq(8, wd => SeasonOf(LastDays(pts, SEASON_DAYS), wd))
  }

  function Deseasonalized(pts: seq<Pt>, seasonal: seq<real>): seq<real>
    requires |seasonal| == 8 && forall wd :: 0 <= wd < 8 ==> seasonal[wd] > 0.0
  {
    seq(|pts|, i requires 0 <= i < |pts| => pts[i].qty / seasonal[Weekday(pts[i].day)])
  }

  function Blend(alpha: real, x: real, level: real): real { alpha * x + (1.0 - alpha) * level }

  function Smooth(pts: seq<Pt>, seasonal: seq<real>, alpha: real, start: real): real
    requires |seasonal| == 8 && forall wd :: 0 <= wd < 8 ==> seasonal[wd] > 0.0
  {
    if pts == [] then start
    else
      var last := pts[|pts| - 1];
      Blend(alpha, last.qty / seasonal[Weekday(last.day)], Smooth(pts[..|pts| - 1], seasonal, alpha, start))
  }

  function FitSmoothing(pts: seq<Pt>, alpha: real): (p: Predictor)
    ensures p.Valid()
  {
    var seasonal := Seasonal(pts);
    var warmup := if |pts| > 7 then pts[..7] else pts;
    Smoothed(Smooth(pts, seasonal, alpha, Mean(Deseasonalized(warmup, seasonal))), seasonal)
  }

  function Fit(f: Fitter, pts: seq<Pt>): (p: Predictor)
    ensures p.Valid()
  {
    match f
    case WeekdayMean => FitMeans(pts)
    case Smoothing(alpha) => FitSmoothing(pts, alpha)
  }

  // ---- Backtest ----

  /** One forecast held against the fact. */
  datatype Comparison = Comparison(predicted: real, fact: real)

  function Actual(pts: seq<Pt>): map<Day, real> {
    if pts == [] then map[] else Actual(pts[..|pts| - 1])[pts[|pts| - 1].day := pts[|pts| - 1].qty]
  }

  /** Forecasts 1..h days ahead of the origin, where a fact is known. */
  function Ahead(p: Predictor, origin: Day, actual: map<Day, real>, h: nat): seq<Comparison>
    requires p.Valid()
  {
    if h == 0 then []
    else Ahead(p, origin, actual, h - 1)
           + if origin + h in actual then [Comparison(p.Predict(origin + h), actual[origin + h])] else []
  }

  function FirstOrigin(n: nat): nat {
    if n - BACKTEST_DAYS < MIN_DAYS_M1 then MIN_DAYS_M1 else n - BACKTEST_DAYS
  }

  /** All comparisons of the origins before the i-th. */
  function Comparisons(f: Fitter, pts: seq<Pt>, i: nat): seq<Comparison>
    requires i <= |pts|
  {
    if i <= FirstOrigin(|pts|) then []
    else Comparisons(f, pts, i - 1)
           + Ahead(Fit(f, pts[..i - 1]), pts[i - 2].day, Actual(pts), BACKTEST_HORIZON)
  }

  function SumAbs(cs: seq<Comparison>): real {
    if cs == [] then 0.0
    else
      var e := cs[|cs| - 1].predicted - cs[|cs| - 1].fact;
      SumAbs(cs[..|cs| - 1]) + if e < 0.0 then -e else e
  }

  function SumFact(cs: seq<Comparison>): real {
    if cs == [] then 0.0 else SumFact(cs[..|cs| - 1]) + cs[|cs| - 1].fact
  }

  function SumErr(cs: seq<Comparison>): real {
    if cs == [] then 0.0 else SumErr(cs[..|cs| - 1]) + (cs[|cs| - 1].predicted - cs[|cs| - 1].fact)
  }

  function Errors(cs: seq<Comparison>): seq<real> {
    seq(|cs|, i requires 0 <= i < |cs| => cs[i].predicted - cs[i].fact)
  }

  /** `variance` stands for the square of Sigma. */
  datatype Metrics = Metrics(model: Model, wape: real, bias: real, variance: real, alpha: real, windowDays: int, daysWithData: nat)

  function Wape(cs: seq<Comparison>): real {
    if cs == [] then 1.0
    else if SumFact(cs) <= 0.0 then (if SumAbs(cs) == 0.0 then 0.0 else 1.0)
    else SumAbs(cs) / SumFact(cs)
  }

  function Bias(cs: seq<Comparison>): real {
    if cs == [] || SumFact(cs) <= 0.0 then 0.0 else SumErr(cs) / SumFact(cs)
  }

  function Backtest(f: Fitter, pts: seq<Pt>): Metrics {
    if |pts| < MIN_DAYS_M1 then Metrics(M0, 1.0, 0.0, 0.0, 0.0, BACKTEST_DAYS, |pts|)
    else
      var cs := Comparisons(f, pts, |pts|);
      Metrics(M0, Wape(cs), Bias(cs), Variance(Errors(cs)), 0.0, BACKTEST_DAYS, |pts|)
  }

  // ---- Selection ----

  datatype Choice = Choice(model: Model, fitter: Fitter, metrics: Metrics)

  /** The best of M1 and the first k smoothing factors; ties go to the earlier one. */
  function Best(pts: seq<Pt>, k: nat): Choice
    requires k <= |ALPHA_GRID|
  {
    if k == 0 then Choice(M1, WeekdayMean, Backtest(WeekdayMean, pts))
    else
      var best := Best(pts, k - 1);
      var alpha := ALPHA_GRID[k - 1];
      var m := Backtest(Smoothing(alpha), pts);
      if m.wape < best.metrics.wape then Choice(M2, Smoothing(alpha), m.(alpha := alpha)) else best
  }

  function Candidates(pts: seq<Pt>): nat { if |pts| >= MIN_DAYS_M2 then |ALPHA_GRID| else 0 }

  datatype Outlook = Outlook(model: Model, points: seq<Point>, metrics: Metrics)

  function Horizon(horizon: int): nat { if horizon <= 0 then HORIZON_DAYS else horizon }

  function PointsAhead(p: Predictor, asOf: Day, n: nat): seq<Point>
    requires p.Valid()
  {
    seq(n, i => Point(asOf + i, FromReal(p.Predict(asOf + i))))
  }

  /** The result for a cleaned series. */
  function ResultFor(pts: seq<Pt>, asOf: Day, n: nat): Outlook {
    if |pts| < MIN_DAYS_M1 then
      Outlook(M0, seq(n, i => Point(asOf + i, 0)), Metrics(M0, 1.0, 0.0, 0.0, 0.0, 0, |pts|))
    else
      var best := Best(pts, Candidates(pts));
      Outlook(best.model, PointsAhead(Fit(best.fitter, pts), asOf, n),
              best.metrics.(model := best.model, windowDays := BACKTEST_DAYS, daysWithData := |pts|))
  }

  function Compute(series: seq<Observation>, asOf: Day, horizon: int): Outlook {
    ResultFor(Clean(series, asOf), asOf, Horizon(horizon))
  }
}
