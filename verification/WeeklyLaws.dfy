/** A history that depends only on the weekday is forecast exactly. */
module WeeklyLaws {
  import opened Options
  import opened Quantity
  import opened DeliveryWindow
  import opened Reorder
  import opened Forecasting
  import opened ForecastLaws

  // ---- The regular history ----

  /** One usable observation for every day of [start, start + n), equal on equal
      weekdays, in any order. */
  ghost predicate Regular(series: seq<Observation>, asOf: Day, start: Day, w: int -> Qty) {
    && |series| >= 8 && start + |series| <= asOf
    && (forall o :: o in series ==>
          o.hasData && !o.stockout && start <= o.day < start + |series| && o.qty == w(Weekday(o.day)) >= 0)
    && (forall i, j :: 0 <= i < j < |series| ==> series[i].day != series[j].day)
  }

  function Units(q: Qty): real { q as real / 1000.0 }

  lemma {:induction false} RetainsAll(series: seq<Observation>, asOf: Day)
    requires forall o :: o in series ==> Keep(o, asOf)
    ensures |Retained(series, asOf)| == |series|
    ensures forall i :: 0 <= i < |series| ==> Retained(series, asOf)[i] == Pt(series[i].day, Units(series[i].qty))
  {
    if series != [] {
      var init := series[..|series| - 1];
      assert forall o :: o in init ==> o in series;
      RetainsAll(init, asOf);
      assert series[|series| - 1] in series;
    }
  }

  /** n strictly rising days inside a range of n days are all of them. */
  lemma {:induction false} FillsRange(s: seq<Pt>, start: Day, k: nat)
    requires Rising(s) && k <= |s| && forall i :: 0 <= i < |s| ==> start <= s[i].day < start + |s|
    ensures forall i :: 0 <= i < k ==> s[i].day >= start + i
    ensures forall i :: |s| - k <= i < |s| ==> s[i].day <= start + i
  {
    if k > 0 {
      FillsRange(s, start, k - 1);
      if k > 1 {
        assert s[k - 2].day < s[k - 1].day;
        assert s[|s| - k].day < s[|s| - k + 1].day;
      }
    }
  }

  /** Every sorted point is a day of the range with the quantity of its weekday. */
  lemma SortedPoint(series: seq<Observation>, asOf: Day, start: Day, w: int -> Qty, p: Pt)
    requires Regular(series, asOf, start, w) && p in SortByDay(Retained(series, asOf))
    ensures start <= p.day < start + |series| && p.qty == Units(w(Weekday(p.day)))
  {
    var r := Retained(series, asOf);
    RetainsAll(series, asOf);
    SortSorts(r);
    assert p in multiset(r);
    var j :| 0 <= j < |r| && r[j] == p;
    assert series[j] in series;
  }

  lemma SortedRegular(series: seq<Observation>, asOf: Day, start: Day, w: int -> Qty)
    requires Regular(series, asOf, start, w)
    ensures
      var s := SortByDay(Retained(series, asOf));
      |s| == |series| && forall i :: 0 <= i < |s| ==> s[i] == Pt(start + i, Units(w(Weekday(start + i))))
  {
    var r := Retained(series, asOf);
    var s := SortByDay(r);
    RetainsAll(series, asOf);
    SortRises(r);
    assert |s| == |r| by { SortSorts(r); assert |s| == |multiset(s)| == |multiset(r)| == |r|; }
    forall i | 0 <= i < |s|
      ensures start <= s[i].day < start + |s| && s[i].qty == Units(w(Weekday(s[i].day)))
    {
      SortedPoint(series, asOf, start, w, s[i]);
    }
    FillsRange(s, start, |s|);
    assert forall i :: 0 <= i < |s| ==> s[i].day == start + i;
  }

  // ---- The cleaned series ----

  /** Consecutive days from `start` whose quantities from the index `from` on are given
      by the weekday alone. */
  ghost predicate Weekly(pts: seq<Pt>, start: Day, from: nat, c: int -> real) {
    && (forall i :: 0 <= i < |pts| ==> pts[i].day == start + i)
    && (forall i :: from <= i < |pts| ==> pts[i].qty == c(Weekday(start + i)))
  }

  /** The threshold the cleaning applies to a regular history, if any. */
  function CutAt(series: seq<Observation>, asOf: Day): Option<real> {
    var s := SortByDay(Retained(series, asOf));
    Threshold(s[WindowStart(s)..])
  }

  function Clipped(v: real, t: Option<real>): real { if t.None? then v else Cut(v, t.value) }

  lemma CleanRegular(series: seq<Observation>, asOf: Day, start: Day, w: int -> Qty)
    requires Regular(series, asOf, start, w)
    ensures
      var pts := Clean(series, asOf);
      && |pts| == |series|
      && Weekly(pts, start, WindowStart(pts), wd => Clipped(Units(w(wd)), CutAt(series, asOf)))
  {
    SortedRegular(series, asOf, start, w);
  }

  predicate Constant(s: seq<real>, v: real) { forall i :: 0 <= i < |s| ==> s[i] == v }

  // ---- M1 looks back at most four weeks ----

  /** How many days before index i - 1 the weekday was last seen. */
  function Since(start: Day, i: int, wd: int): nat { (start + i - 1 - (wd - 1)) % 7 }

  lemma WeekdayBack(start: Day, i: int, wd: int)
    requires 1 <= wd <= 7
    ensures Weekday(start + i - 1 - Since(start, i, wd)) == wd
    ensures Since(start, i, wd) == 0 <==> Weekday(start + i - 1) == wd
    ensures Since(start, i, wd) == if Weekday(start + i - 1) == wd then 0 else Since(start, i - 1, wd) + 1
    ensures Weekday(start + i - 1) == wd ==> Since(start, i - 1, wd) == 6
  {
    var x, b := start + i - 1, wd - 1;
    ModDifference(x, b);
    ModDifference(x - 1, b);
    ModDifference(x, 1);
    ModDifference(x, Since(start, i, wd));
  }

  lemma ModDifference(x: int, b: int)
    requires 0 <= b < 7
    ensures (x - b) % 7 == if x % 7 >= b then x % 7 - b else x % 7 - b + 7
  {
    var a := x % 7;
    assert x == 7 * (x / 7) + a;
    if a >= b { DivUnique(x - b, 7, x / 7); } else { DivUnique(x - b, 7, x / 7 - 1); }
  }

  /** The k latest quantities of a weekday before index i come from the last k weeks. */
  lemma {:induction false} LatestAreRecent(pts: seq<Pt>, start: Day, from: nat, c: int -> real, i: nat, wd: int, k: nat)
    requires Weekly(pts, start, from, c) && i <= |pts| && 1 <= wd <= 7
    requires k > 0 ==> from <= i - 1 - Since(start, i, wd) - 7 * (k - 1) || from == 0
    ensures Constant(Latest(pts[..i], wd, k), c(wd))
    decreases i
  {
    if i > 0 && k > 0 {
      WeekdayBack(start, i, wd);
      assert pts[..i][..i - 1] == pts[..i - 1];
      if Weekday(start + i - 1) == wd {
        LatestAreRecent(pts, start, from, c, i - 1, wd, k - 1);
      } else {
        LatestAreRecent(pts, start, from, c, i - 1, wd, k);
      }
    }
  }

  lemma {:induction false} LatestExist(pts: seq<Pt>, start: Day, from: nat, c: int -> real, i: nat, wd: int, k: nat)
    requires Weekly(pts, start, from, c) && i <= |pts| && 1 <= wd <= 7 && k > 0
    requires Since(start, i, wd) < i
    ensures Latest(pts[..i], wd, k) != []
    decreases i
  {
    WeekdayBack(start, i, wd);
    assert pts[..i][..i - 1] == pts[..i - 1];
    if Weekday(start + i - 1) != wd { LatestExist(pts, start, from, c, i - 1, wd, k); }
  }

  lemma {:induction false} SumConstant(s: seq<real>, v: real)
    requires Constant(s, v)
    ensures Sum(s) == |s| as real * v
  {
    if s != [] { SumConstant(s[..|s| - 1], v); }
  }

  lemma MeanConstant(s: seq<real>, v: real)
    requires s != [] && Constant(s, v)
    ensures Mean(s) == v
  {
    SumConstant(s, v);
    Cancel(|s| as real, v);
  }

  lemma Cancel(n: real, v: real)
    requires n > 0.0
    ensures (n * v) / n == v
  {
  }

  /** With a week of history and four weeks inside the clipped window, M1 predicts every
      weekday exactly. */
  lemma PredictsWeekday(pts: seq<Pt>, start: Day, from: nat, c: int -> real, i: nat, day: Day)
    requires Weekly(pts, start, from, c) && 7 <= i <= |pts| && (from == 0 || from + 28 <= i)
    ensures Fit(WeekdayMean, pts[..i]).Predict(day) == c(Weekday(day))
  {
    var wd := Weekday(day);
    LatestAreRecent(pts, start, from, c, i, wd, LOOKBACK);
    LatestExist(pts, start, from, c, i, wd, LOOKBACK);
    MeanConstant(Latest(pts[..i], wd, LOOKBACK), c(wd));
  }

  // ---- The backtest is perfect ----

  lemma {:induction false} ActualIs(pts: seq<Pt>, start: Day, day: Day)
    requires forall i :: 0 <= i < |pts| ==> pts[i].day == start + i
    ensures day in Actual(pts) <==> start <= day < start + |pts|
    ensures day in Actual(pts) ==> Actual(pts)[day] == pts[day - start].qty
  {
    if pts != [] { ActualIs(pts[..|pts| - 1], start, day); }
  }

  predicate Perfect(cs: seq<Comparison>) { forall x :: x in cs ==> x.predicted == x.fact }

  lemma {:induction false} AheadPerfect(pts: seq<Pt>, start: Day, from: nat, c: int -> real, i: nat, h: nat)
    requires Weekly(pts, start, from, c) && 7 <= i <= |pts| && (from == 0 || from + 28 <= i)
    ensures
      var cs := Ahead(Fit(WeekdayMean, pts[..i]), pts[i - 1].day, Actual(pts), h);
      Perfect(cs) && (h > 0 && i < |pts| ==> cs != [])
  {
    if h > 0 {
      var day := pts[i - 1].day + h;
      AheadPerfect(pts, start, from, c, i, h - 1);
      ActualIs(pts, start, day);
      PredictsWeekday(pts, start, from, c, i, day);
    }
  }

  lemma {:induction false} ComparisonsPerfect(pts: seq<Pt>, start: Day, c: int -> real, i: nat)
    requires Weekly(pts, start, WindowStart(pts), c) && 8 <= |pts| && i <= |pts|
    ensures Perfect(Comparisons(WeekdayMean, pts, i))
    ensures i > FirstOrigin(|pts|) ==> Comparisons(WeekdayMean, pts, i) != []
  {
    hide Ahead, Fit, Actual, Weekly;
    if i > FirstOrigin(|pts|) {
      ComparisonsPerfect(pts, start, c, i - 1);
      AheadPerfect(pts, start, WindowStart(pts), c, i - 1, BACKTEST_HORIZON);
    }
  }

  lemma {:induction false} PerfectSums(cs: seq<Comparison>)
    requires Perfect(cs)
    ensures SumAbs(cs) == 0.0 && SumErr(cs) == 0.0
  {
    if cs != [] {
      assert cs[|cs| - 1] in cs;
      assert forall x :: x in cs[..|cs| - 1] ==> x in cs;
      PerfectSums(cs[..|cs| - 1]);
    }
  }

  lemma {:induction false} NoSpread(s: seq<real>, m: real)
    requires Constant(s, m)
    ensures SumSquares(s, m) == 0.0
  {
    if s != [] { NoSpread(s[..|s| - 1], m); }
  }

  lemma PerfectVariance(cs: seq<Comparison>)
    requires Perfect(cs)
    ensures Variance(Errors(cs)) == 0.0
  {
    var es := Errors(cs);
    forall i | 0 <= i < |es| ensures es[i] == 0.0 { assert cs[i] in cs; }
    if |es| >= 2 {
      MeanConstant(es, 0.0);
      NoSpread(es, 0.0);
    }
  }

  lemma PerfectBacktest(pts: seq<Pt>, start: Day, c: int -> real)
    requires Weekly(pts, start, WindowStart(pts), c) && 8 <= |pts|
    ensures Backtest(WeekdayMean, pts) == Metrics(M0, 0.0, 0.0, 0.0, 0.0, BACKTEST_DAYS, |pts|)
  {
    var cs := Comparisons(WeekdayMean, pts, |pts|);
    ComparisonsPerfect(pts, start, c, |pts|);
    PerfectSums(cs);
    PerfectVariance(cs);
    if SumFact(cs) > 0.0 { assert 0.0 / SumFact(cs) == 0.0; }
  }

  /** On a regular history of at least eight days the forecast is M1 with no error at
      all, and forecasts on each day the clipped quantity of its weekday. */
  lemma RegularIsExact(series: seq<Observation>, asOf: Day, start: Day, w: int -> Qty, horizon: int)
    requires Regular(series, asOf, start, w)
    ensures
      var r := Compute(series, asOf, horizon);
      && r.model == M1
      && r.metrics == Metrics(M1, 0.0, 0.0, 0.0, 0.0, BACKTEST_DAYS, |series|)
      && |r.points| == Horizon(horizon)
      && forall i :: 0 <= i < |r.points| ==>
           r.points[i] == Point(asOf + i, FromReal(Clipped(Units(w(Weekday(asOf + i))), CutAt(series, asOf))))
  {
    var pts := Clean(series, asOf);
    var c := wd => Clipped(Units(w(wd)), CutAt(series, asOf));
    CleanRegular(series, asOf, start, w);
    ExactFrom(pts, start, c, asOf, Horizon(horizon));
  }

  lemma ExactFrom(pts: seq<Pt>, start: Day, c: int -> real, asOf: Day, n: nat)
    requires Weekly(pts, start, WindowStart(pts), c) && 8 <= |pts|
    ensures
      var r := ResultFor(pts, asOf, n);
      && r.model == M1
      && r.metrics == Metrics(M1, 0.0, 0.0, 0.0, 0.0, BACKTEST_DAYS, |pts|)
      && |r.points| == n
      && forall i :: 0 <= i < n ==> r.points[i] == Point(asOf + i, FromReal(c(Weekday(asOf + i))))
  {
    PerfectBacktest(pts, start, c);
    PerfectWins(pts, Candidates(pts));
    assert pts[..|pts|] == pts;
    forall day | asOf <= day < asOf + n ensures Fit(WeekdayMean, pts).Predict(day) == c(Weekday(day)) {
      PredictsWeekday(pts, start, WindowStart(pts), c, |pts|, day);
    }
  }
}
