/** The answer of the forecast, step by step in plain figures: what is retained, where it is
    cut, how the smoothing model starts, what the backtest compares and what is returned. */
module ForecastAnswers {
  import opened Options
  import opened Quantity
  import opened DeliveryWindow
  import opened Reorder
  import opened DecisionLaws
  import opened Forecasting
  import opened ClippingLaws
  import opened ModelLaws
  import FL = ForecastLaws
  import SL = SmoothingLaws

  // ---- What is retained ----

  lemma {:induction false} RetainedAre(series: seq<Observation>, asOf: Day, p: Pt)
    ensures p in Retained(series, asOf) <==>
              exists o :: o in series && o.hasData && !o.stockout && o.day < asOf && o.qty >= 0 && p == Pt(o.day, o.qty as real / 1000.0)
  {
    if series != [] {
      var init, last := series[..|series| - 1], series[|series| - 1];
      RetainedAre(init, asOf, p);
      assert forall o :: o in series <==> o in init || o == last;
    }
  }

  /** The days kept are those with data, without stockout, before the date and not negative;
      they are put in the order of their days, each as often as it was kept. */
  lemma KeptDays(series: seq<Observation>, asOf: Day)
    ensures
      var kept := SortByDay(Retained(series, asOf));
      && FL.Ascending(kept) && |kept| == |Retained(series, asOf)|
      && forall p :: p in kept <==>
           exists o :: o in series && o.hasData && !o.stockout && o.day < asOf && o.qty >= 0 && p == Pt(o.day, o.qty as real / 1000.0)
  {
    var r := Retained(series, asOf);
    FL.SortSorts(r);
    assert |multiset(SortByDay(r))| == |multiset(r)|;
    forall p ensures p in SortByDay(r) <==>
           exists o :: o in series && o.hasData && !o.stockout && o.day < asOf && o.qty >= 0 && p == Pt(o.day, o.qty as real / 1000.0) {
      RetainedAre(series, asOf, p);
      assert p in SortByDay(r) <==> p in multiset(r);
    }
  }

  // ---- Where it is cut ----

  lemma {:induction false} InsertCounts(x: real, s: seq<real>)
    ensures multiset(Insert(x, s)) == multiset(s) + multiset{x}
  {
    if s != [] && x > s[0] {
      InsertCounts(x, s[1..]);
      assert s == [s[0]] + s[1..];
    }
  }

  lemma {:induction false} SortCounts(s: seq<real>)
    ensures multiset(Sort(s)) == multiset(s)
  {
    if s != [] {
      SortCounts(s[1..]);
      InsertCounts(s[0], Sort(s[1..]));
      assert s == [s[0]] + s[1..];
    }
  }

  /** `q` lies k quarters up a sorted list, between two neighbours in proportion. */
  ghost predicate IsQuartile(s: seq<real>, k: nat, q: real) {
    exists lo: nat, f: nat {:trigger HasParts(s, k, lo, f)} :: HasParts(s, k, lo, f)
      && 4.0 * q == (4 - f) as real * s[lo] + f as real * s[if f == 0 then lo else lo + 1]
  }

  predicate HasParts(s: seq<real>, k: nat, lo: nat, f: nat) {
    s != [] && 4 * lo + f == k * (|s| - 1) && f < 4 && lo < |s| && (f > 0 ==> lo + 1 < |s|)
  }

  lemma QuartileIs(s: seq<real>, k: nat)
    requires s != [] && k <= 4
    ensures IsQuartile(s, k, Quartile(s, k))
  {
    var position := k * (|s| - 1);
    var lo, f := position / 4, position % 4;
    assert position <= 4 * (|s| - 1) by { MulMonotone(k, 4, |s| - 1); }
    assert HasParts(s, k, lo, f);
    if f > 0 { Interpolated(s[lo], s[lo + 1], f); }
  }

  lemma Interpolated(a: real, b: real, f: nat)
    requires 0 < f < 4
    ensures
      var fraction := f as real / 4.0;
      4.0 * (a * (1.0 - fraction) + b * fraction) == (4 - f) as real * a + f as real * b
  {
    if f == 1 {} else if f == 2 {} else {}
  }

  /** Fewer than eight points are left alone, and so are points older than the last 56 and
      windows whose upper quartile is not positive. Otherwise each quantity of the window is
      cut at upper quartile plus three times the distance between the quartiles. */
  lemma ClipIs(pts: seq<Pt>) returns (sorted: seq<real>, q1: real, q3: real)
    ensures
      var from := if |pts| > 56 then |pts| - 56 else 0;
      && |Clip(pts)| == |pts| && (forall i :: 0 <= i < |pts| ==> Clip(pts)[i].day == pts[i].day)
      && (|pts| < 8 ==> Clip(pts) == pts)
      && (|pts| >= 8 ==>
            && Sorted(sorted) && multiset(sorted) == multiset(Qtys(pts[from..]))
            && IsQuartile(sorted, 1, q1) && IsQuartile(sorted, 3, q3)
            && forall i :: 0 <= i < |pts| ==>
                 var t := q3 + 3.0 * (q3 - q1);
                 Clip(pts)[i].qty == if i >= from && q3 > 0.0 && pts[i].qty > t then t else pts[i].qty)
  {
    hide Sort, Quartile, Sorted, IsQuartile;
    sorted, q1, q3 := [], 0.0, 0.0;
    if |pts| >= 8 {
      var window := pts[WindowStart(pts)..];
      sorted := Sort(Qtys(window));
      q1, q3 := Quartile(sorted, 1), Quartile(sorted, 3);
      SortSorted(Qtys(window));
      SortCounts(Qtys(window));
      QuartileIs(sorted, 1);
      QuartileIs(sorted, 3);
    }
  }

  // ---- The smoothing model ----

  /** Sum and number of the quantities of one weekday among pts[lo..]. */
  function WeekdaySum(pts: seq<Pt>, lo: nat, wd: int): real
    decreases |pts| - lo
  {
    if lo >= |pts| then 0.0 else (if Weekday(pts[lo].day) == wd then pts[lo].qty else 0.0) + WeekdaySum(pts, lo + 1, wd)
  }

  function WeekdayCount(pts: seq<Pt>, lo: nat, wd: int): nat
    decreases |pts| - lo
  {
    if lo >= |pts| then 0 else (if Weekday(pts[lo].day) == wd then 1 else 0) + WeekdayCount(pts, lo + 1, wd)
  }

  lemma {:induction false} OfWeekdayMore(p: Pt, pts: seq<Pt>, wd: int)
    ensures OfWeekday([p] + pts, wd) == (if Weekday(p.day) == wd then [p.qty] else []) + OfWeekday(pts, wd)
  {
    if pts == [] {
      assert OfWeekday([p], wd) == OfWeekday([], wd) + if Weekday(p.day) == wd then [p.qty] else [];
      assert [p] + pts == [p];
    } else {
      assert ([p] + pts)[..|pts|] == [p] + pts[..|pts| - 1];
      OfWeekdayMore(p, pts[..|pts| - 1], wd);
    }
  }

  lemma {:induction false} OfWeekdayIs(pts: seq<Pt>, lo: nat, wd: int)
    requires lo <= |pts|
    ensures Total(OfWeekday(pts[lo..], wd)) == WeekdaySum(pts, lo, wd) && |OfWeekday(pts[lo..], wd)| == WeekdayCount(pts, lo, wd)
    decreases |pts| - lo
  {
    if lo < |pts| {
      OfWeekdayIs(pts, lo + 1, wd);
      assert pts[lo..] == [pts[lo]] + pts[lo + 1..];
      OfWeekdayMore(pts[lo], pts[lo + 1..], wd);
      var rest := OfWeekday(pts[lo + 1..], wd);
      if Weekday(pts[lo].day) == wd { assert ([pts[lo].qty] + rest)[1..] == rest; } else { assert [] + rest == rest; }
    }
  }

  /** The index of a weekday over the last 56 points: its mean by the mean of all, held at a
      twentieth from below; one where the weekday does not occur or nothing is consumed. */
  lemma SeasonIs(pts: seq<Pt>, wd: int)
    requires 1 <= wd <= 7
    ensures
      var from := if |pts| > 56 then |pts| - 56 else 0;
      var m, all := |pts| - from, Total(Qtys(pts[from..]));
      var c, sum, idx := WeekdayCount(pts, from, wd), WeekdaySum(pts, from, wd), Seasonal(pts)[wd];
      if all <= 0.0 || c == 0 then idx == 1.0
      else idx >= 0.05 && exists ratio {:trigger Held(idx, ratio)} ::
             Held(idx, ratio) && IsRatio(ratio, sum, c, all, m)
  {
    hide Mean, OfWeekday, Total, WeekdayCount, WeekdaySum;
    var from := if |pts| > 56 then |pts| - 56 else 0;
    var window := pts[from..];
    assert window == LastDays(pts, SEASON_DAYS);
    var same, overall := OfWeekday(window, wd), Mean(Qtys(window));
    OfWeekdayIs(pts, from, wd);
    MeanSign(Qtys(window));
    TotalOfNothing();
    if Total(Qtys(window)) > 0.0 && same != [] {
      assert Qtys(window) != [];
      MeanIs(same);
      MeanIs(Qtys(window));
      var ratio := Mean(same) / overall;
      RatioIs(Mean(same), overall, ratio, |same| as real, |window| as real, Total(same), Total(Qtys(window)));
      assert Held(Seasonal(pts)[wd], ratio);
    }
  }

  /** ratio == (sum / c) / (all / m), without the divisions. */
  predicate IsRatio(ratio: real, sum: real, c: nat, all: real, m: int) { ratio * all * (c as real) == sum * (m as real) }

  predicate Held(idx: real, ratio: real) { idx == if ratio < 0.05 then 0.05 else ratio }

  lemma TotalOfNothing()
    ensures Total([]) == 0.0
  {
  }

  lemma MeanSign(xs: seq<real>)
    ensures Mean(xs) > 0.0 <==> Total(xs) > 0.0
  {
    SumIsTotal(xs);
    if xs != [] { QuotientSign(Sum(xs), |xs| as real); }
  }

  lemma QuotientSign(a: real, b: real)
    requires b > 0.0
    ensures a / b > 0.0 <==> a > 0.0
  {
    Divided(a, b);
    if a / b > 0.0 { assert a / b * b > 0.0; } else { assert a / b * b <= 0.0; }
  }

  lemma RatioIs(x: real, y: real, ratio: real, c: real, m: real, sum: real, all: real)
    requires y > 0.0 && ratio == x / y && x * c == sum && y * m == all
    ensures ratio * all * c == sum * m
  {
    Divided(x, y);
    assert ratio * y == x;
    assert ratio * all * c == (ratio * y) * m * c;
    assert (ratio * y) * m * c == (x * c) * m;
  }

  /** The smoothing model starts from the mean of the first week without its season, weighs
      every value by its age from there, and forecasts level times season, never below zero. */
  lemma SmoothingIs(pts: seq<Pt>, alpha: real, day: Day) returns (start: real)
    requires pts != []
    ensures
      var p, s := Fit(Smoothing(alpha), pts), Seasonal(pts);
      var first := Deseasonalized(if |pts| > 7 then pts[..7] else pts, s);
      && start * |first| as real == Total(first)
      && p == Smoothed(SL.Times(SL.Power(1.0 - alpha, |pts|), start) + SL.Weighted(Deseasonalized(pts, s), alpha, 1.0 - alpha), s)
      && p.Predict(day) == (var v := p.level * s[Weekday(day)]; if v > 0.0 then v else 0.0)
  {
    hide Mean, Smooth, SeasonOf, Total;
    var s := Seasonal(pts);
    var first := Deseasonalized(if |pts| > 7 then pts[..7] else pts, s);
    start := Mean(first);
    MeanIs(first);
    SL.SmoothIsWeighted(pts, s, alpha, start);
  }

  // ---- The backtest ----

  /** One comparison: trained on the first i points, i days of a week or more and at most 28
      before the end, h of the next seven days ahead, against the point of that day. */
  predicate Compared(f: Fitter, pts: seq<Pt>, i: nat, h: nat, j: nat, c: Comparison) {
    && 7 <= i < |pts| <= i + 28 && 1 <= h <= 7
    && j < |pts| && pts[j].day == pts[i - 1].day + h
    && c == Comparison(Fit(f, pts[..i]).Predict(pts[j].day), pts[j].qty)
  }

  lemma {:induction false} ActualHolds(pts: seq<Pt>)
    requires FL.Rising(pts)
    ensures forall day :: day in Actual(pts) <==> exists j :: 0 <= j < |pts| && pts[j].day == day
    ensures forall j :: 0 <= j < |pts| ==> pts[j].day in Actual(pts) && Actual(pts)[pts[j].day] == pts[j].qty
  {
    if pts != [] {
      var init := pts[..|pts| - 1];
      ActualHolds(init);
      assert forall j :: 0 <= j < |init| ==> init[j] == pts[j];
    }
  }

  predicate DayAhead(p: Predictor, origin: Day, actual: map<Day, real>, h: nat, c: Comparison)
    requires p.Valid()
  {
    origin + h in actual && c == Comparison(p.Predict(origin + h), actual[origin + h])
  }

  lemma {:induction false} AheadAre(p: Predictor, origin: Day, actual: map<Day, real>, n: nat, c: Comparison)
    requires p.Valid()
    ensures c in Ahead(p, origin, actual, n) <==>
              exists h: nat :: 1 <= h <= n && DayAhead(p, origin, actual, h, c)
  {
    if n > 0 {
      AheadAre(p, origin, actual, n - 1, c);
      assert c in Ahead(p, origin, actual, n) <==> c in Ahead(p, origin, actual, n - 1) || DayAhead(p, origin, actual, n, c);
    }
  }

  lemma DayIsActual(pts: seq<Pt>, day: Day) returns (j: nat)
    requires FL.Rising(pts) && day in Actual(pts)
    ensures j < |pts| && pts[j].day == day && Actual(pts)[day] == pts[j].qty
  {
    hide Actual;
    ActualHolds(pts);
    j :| 0 <= j < |pts| && pts[j].day == day;
  }

  lemma AheadIsCompared(f: Fitter, pts: seq<Pt>, i: nat, h: nat, c: Comparison)
    requires FL.Rising(pts) && 7 <= i < |pts| <= i + 28 && 1 <= h <= 7
    requires DayAhead(Fit(f, pts[..i]), pts[i - 1].day, Actual(pts), h, c)
    ensures exists j: nat :: Compared(f, pts, i, h, j, c)
  {
    hide Fit, Actual, Predictor.Predict, FL.Rising;
    var j := DayIsActual(pts, pts[i - 1].day + h);
    assert Compared(f, pts, i, h, j, c);
  }

  lemma ComparedIsAhead(f: Fitter, pts: seq<Pt>, i: nat, h: nat, j: nat, c: Comparison)
    requires FL.Rising(pts) && Compared(f, pts, i, h, j, c)
    ensures DayAhead(Fit(f, pts[..i]), pts[i - 1].day, Actual(pts), h, c)
  {
    hide Fit, Actual;
    ActualHolds(pts);
  }

  lemma OriginCompared(f: Fitter, pts: seq<Pt>, i: nat, c: Comparison)
    requires FL.Rising(pts) && 7 <= i < |pts| <= i + 28
    ensures c in Ahead(Fit(f, pts[..i]), pts[i - 1].day, Actual(pts), 7) <==> exists h: nat, j: nat :: Compared(f, pts, i, h, j, c)
  {
    hide Fit, Ahead, Actual, DayAhead;
    var p, origin, actual := Fit(f, pts[..i]), pts[i - 1].day, Actual(pts);
    AheadAre(p, origin, actual, 7, c);
    if c in Ahead(p, origin, actual, 7) {
      var h: nat :| 1 <= h <= 7 && DayAhead(p, origin, actual, h, c);
      AheadIsCompared(f, pts, i, h, c);
    }
    if h: nat, j: nat :| Compared(f, pts, i, h, j, c) { ComparedIsAhead(f, pts, i, h, j, c); }
  }

  lemma {:induction false} ComparedUpTo(f: Fitter, pts: seq<Pt>, n: nat, c: Comparison)
    requires FL.Rising(pts) && n <= |pts|
    ensures c in Comparisons(f, pts, n) <==> exists i: nat, h: nat, j: nat :: i < n && Compared(f, pts, i, h, j, c)
  {
    hide Fit, Ahead, Actual;
    if n > FirstOrigin(|pts|) {
      ComparedUpTo(f, pts, n - 1, c);
      OriginCompared(f, pts, n - 1, c);
    }
  }

  /** The backtest makes exactly these comparisons. */
  lemma ComparisonsAre(f: Fitter, pts: seq<Pt>, c: Comparison)
    requires FL.Rising(pts)
    ensures c in Comparisons(f, pts, |pts|) <==> exists i: nat, h: nat, j: nat :: Compared(f, pts, i, h, j, c)
  {
    hide Fit, Comparisons;
    ComparedUpTo(f, pts, |pts|, c);
  }

  /** The comparisons of one origin on consecutive days, in order. */
  function NextDays(f: Fitter, pts: seq<Pt>, i: nat, n: nat): seq<Comparison>
    requires 1 <= i && i + n <= |pts|
  {
    seq(n, h requires 0 <= h < n => Comparison(Fit(f, pts[..i]).Predict(pts[i + h].day), pts[i + h].qty))
  }

  lemma {:induction false} AheadDaily(f: Fitter, pts: seq<Pt>, start: Day, i: nat, h: nat)
    requires Daily(pts, start) && 1 <= i <= |pts|
    ensures Ahead(Fit(f, pts[..i]), pts[i - 1].day, Actual(pts), h) == NextDays(f, pts, i, if h < |pts| - i then h else |pts| - i)
  {
    hide Fit, Actual;
    ActualHolds(pts);
    if h > 0 {
      AheadDaily(f, pts, start, i, h - 1);
      assert i - 1 + h < |pts| ==> pts[i - 1 + h].day == pts[i - 1].day + h;
      assert i - 1 + h >= |pts| ==> forall j :: 0 <= j < |pts| ==> pts[j].day != pts[i - 1].day + h;
    }
  }

  /** On consecutive days every origin from the later of day 7 and 28 days before the end on
      adds the next seven days, as far as there are facts, each once. */
  lemma OriginsDaily(f: Fitter, pts: seq<Pt>, start: Day, i: nat)
    requires Daily(pts, start) && 7 <= i < |pts| <= i + 28
    ensures Comparisons(f, pts, i + 1)
         == Comparisons(f, pts, i) + NextDays(f, pts, i, if 7 < |pts| - i then 7 else |pts| - i)
    ensures i == 7 || |pts| == i + 28 ==> Comparisons(f, pts, i) == []
  {
    hide Fit, Actual;
    AheadDaily(f, pts, start, i, 7);
  }

  // ---- The figures of the backtest ----

  function AbsErrors(cs: seq<Comparison>): seq<real> {
    seq(|cs|, i requires 0 <= i < |cs| => if cs[i].predicted >= cs[i].fact then cs[i].predicted - cs[i].fact else cs[i].fact - cs[i].predicted)
  }

  function SignedErrors(cs: seq<Comparison>): seq<real> { seq(|cs|, i requires 0 <= i < |cs| => cs[i].predicted - cs[i].fact) }

  function Facts(cs: seq<Comparison>): seq<real> { seq(|cs|, i requires 0 <= i < |cs| => cs[i].fact) }

  lemma {:induction false} SumsAreTotals(cs: seq<Comparison>)
    ensures SumAbs(cs) == Total(AbsErrors(cs)) && SumErr(cs) == Total(SignedErrors(cs)) && SumFact(cs) == Total(Facts(cs))
  {
    if cs != [] {
      var init := cs[..|cs| - 1];
      SumsAreTotals(init);
      var a, e, x := AbsErrors(cs), SignedErrors(cs), Facts(cs);
      assert a == AbsErrors(init) + [a[|cs| - 1]] && e == SignedErrors(init) + [e[|cs| - 1]] && x == Facts(init) + [x[|cs| - 1]];
      TotalMore(AbsErrors(init), a[|cs| - 1]);
      TotalMore(SignedErrors(init), e[|cs| - 1]);
      TotalMore(Facts(init), x[|cs| - 1]);
    }
  }

  function Square(x: real): real { x * x }

  function Squares(xs: seq<real>, m: real): seq<real> { seq(|xs|, i requires 0 <= i < |xs| => Square(xs[i] - m)) }

  lemma {:induction false} SquaresSum(xs: seq<real>, m: real)
    ensures SumSquares(xs, m) == Total(Squares(xs, m))
  {
    if xs != [] {
      var init := xs[..|xs| - 1];
      SquaresSum(init, m);
      var s := Squares(xs, m);
      assert s == Squares(init, m) + [s[|xs| - 1]];
      TotalMore(Squares(init, m), s[|xs| - 1]);
    }
  }

  /** Sigma squared times one less than the number of errors is the sum of their squared
      distances from their mean; it is zero for fewer than two. */
  lemma VarianceIs(xs: seq<real>) returns (mean: real)
    ensures |xs| < 2 ==> Variance(xs) == 0.0
    ensures |xs| >= 2 ==>
              mean * |xs| as real == Total(xs) && Variance(xs) * (|xs| - 1) as real == Total(Squares(xs, mean))
  {
    hide Mean, SumSquares, Total;
    mean := Mean(xs);
    if |xs| >= 2 {
      MeanIs(xs);
      SquaresSum(xs, mean);
      Divided(SumSquares(xs, mean), (|xs| - 1) as real);
    }
  }

  /** WAPE, bias and spread of the backtest. A week of history is needed; nothing to compare
      counts as fully wrong; without consumption any error does. */
  lemma MetricsAre(f: Fitter, pts: seq<Pt>)
    ensures
      var m, cs := Backtest(f, pts), Comparisons(f, pts, |pts|);
      var facts, wrong, off := Total(Facts(cs)), Total(AbsErrors(cs)), Total(SignedErrors(cs));
      && (|pts| < 7 || cs == [] ==> m.wape == 1.0 && m.bias == 0.0 && m.variance == 0.0)
      && (|pts| >= 7 && cs != [] && facts <= 0.0 ==> m.wape == (if wrong == 0.0 then 0.0 else 1.0) && m.bias == 0.0)
      && (|pts| >= 7 && cs != [] && facts > 0.0 ==> m.wape * facts == wrong && m.bias * facts == off)
      && (|pts| >= 7 ==> m.variance == Variance(SignedErrors(cs)))
      && m.alpha == 0.0
  {
    hide Comparisons, SumAbs, SumErr, SumFact, Variance, Total;
    var cs := Comparisons(f, pts, |pts|);
    SumsAreTotals(cs);
    assert Errors(cs) == SignedErrors(cs);
    if SumFact(cs) > 0.0 {
      Divided(SumAbs(cs), SumFact(cs));
      Divided(SumErr(cs), SumFact(cs));
    }
    NoSpread(cs);
  }

  lemma NoSpread(cs: seq<Comparison>)
    ensures cs == [] ==> Variance(Errors(cs)) == 0.0
  {
  }

  // ---- What is returned ----

  /** The k-th candidate: M1, then smoothing by 0.1, 0.2, 0.3, 0.4 and 0.5. */
  function CandidateNo(k: nat): Fitter { if k == 0 then WeekdayMean else Smoothing(k as real / 10.0) }

  lemma CandidatesMatch(k: nat)
    requires k <= 5
    ensures |ALPHA_GRID| == 5 && FL.Candidate(k) == CandidateNo(k)
  {
    if k > 0 { assert ALPHA_GRID[k - 1] == k as real / 10.0; }
  }

  /** Which candidate is returned and with which figures: the first with the least WAPE, the
      smoothing ones taking part from 28 retained days on. */
  lemma SelectedIs(pts: seq<Pt>) returns (k: nat)
    ensures
      var best, last := Best(pts, Candidates(pts)), if |pts| >= 28 then 5 else 0;
      && k <= last && best.fitter == CandidateNo(k)
      && best.model == (if k == 0 then M1 else M2)
      && (forall i :: 0 <= i <= last ==> Backtest(CandidateNo(k), pts).wape <= Backtest(CandidateNo(i), pts).wape)
      && (forall i :: 0 <= i < k ==> Backtest(CandidateNo(k), pts).wape < Backtest(CandidateNo(i), pts).wape)
      && best.metrics == Backtest(CandidateNo(k), pts).(alpha := if k == 0 then 0.0 else k as real / 10.0)
  {
    hide Backtest;
    var n := Candidates(pts);
    k := FL.SelectionIsMinimal(pts, n);
    forall i | 0 <= i <= n ensures FL.Candidate(i) == CandidateNo(i) { CandidatesMatch(i); }
    CandidatesMatch(0);
    BestMetrics(pts, n, k);
  }

  lemma {:induction false} BestMetrics(pts: seq<Pt>, n: nat, k: nat)
    requires n <= 5 && k <= n && Best(pts, n).fitter == CandidateNo(k)
    ensures Best(pts, n).metrics == Backtest(CandidateNo(k), pts).(alpha := if k == 0 then 0.0 else k as real / 10.0)
  {
    hide Backtest;
    CandidatesMatch(n);
    if n == 0 {
      NoAlpha(pts);
    } else if k == n {
      if Best(pts, n) == Best(pts, n - 1) { NotYet(pts, n - 1, n); }
    } else {
      BestMetrics(pts, n - 1, k);
    }
  }

  lemma NoAlpha(pts: seq<Pt>)
    ensures Backtest(WeekdayMean, pts).alpha == 0.0
  {
  }

  lemma {:induction false} NotYet(pts: seq<Pt>, n: nat, k: nat)
    requires n < k <= 5
    ensures Best(pts, n).fitter != CandidateNo(k)
  {
    hide Backtest;
    CandidatesMatch(n);
    if n > 0 { NotYet(pts, n - 1, k); }
  }

  /** The returned forecast: 14 days unless asked otherwise, one after another from the date
      on. With less than a week retained it is zero and says so; otherwise each day is the
      chosen model's forecast in thousandths, never negative. */
  lemma ComputeAnswers(series: seq<Observation>, asOf: Day, horizon: int) returns (k: nat)
    ensures
      var r, pts := Compute(series, asOf, horizon), Clip(SortByDay(Retained(series, asOf)));
      && |r.points| == (if horizon <= 0 then 14 else horizon)
      && (forall i :: 0 <= i < |r.points| ==> r.points[i].day == asOf + i)
      && r.metrics.model == r.model && r.metrics.daysWithData == |pts|
      && (|pts| < 7 ==> r.model == M0 && r.metrics.wape == 1.0 && forall i :: 0 <= i < |r.points| ==> r.points[i].qty == 0)
      && (|pts| >= 7 ==>
            && k <= (if |pts| >= 28 then 5 else 0)
            && r.model == (if k == 0 then M1 else M2) && r.metrics.windowDays == 28
            && Best(pts, Candidates(pts)).fitter == CandidateNo(k)
            && r.metrics == Best(pts, Candidates(pts)).metrics.(model := r.model, windowDays := 28, daysWithData := |pts|)
            && forall i :: 0 <= i < |r.points| ==>
                 InThousandths(r.points[i].qty, Fit(CandidateNo(k), pts).Predict(asOf + i)))
  {
    hide Backtest, Fit, Clip, Retained, SortByDay, InThousandths, FromReal;
    var pts := Clip(SortByDay(Retained(series, asOf)));
    k := SelectedIs(pts);
    PointsInThousandths(Fit(CandidateNo(k), pts), asOf, Horizon(horizon));
  }

  lemma PointsInThousandths(p: Predictor, asOf: Day, n: nat)
    requires p.Valid()
    ensures forall i :: 0 <= i < n ==> InThousandths(PointsAhead(p, asOf, n)[i].qty, p.Predict(asOf + i))
  {
    forall i | 0 <= i < n ensures InThousandths(PointsAhead(p, asOf, n)[i].qty, p.Predict(asOf + i)) {
      FromRealNearest(p.Predict(asOf + i));
    }
  }
}
