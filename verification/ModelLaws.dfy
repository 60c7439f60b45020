/** What the two models, the clipping and the backtest compute, in terms of single points. */
module ModelLaws {
  import opened Options
  import opened Quantity
  import opened DeliveryWindow
  import opened Reorder
  import opened Forecasting

  // ---- Means ----

  function Total(xs: seq<real>): real { if xs == [] then 0.0 else xs[0] + Total(xs[1..]) }

  lemma {:induction false} TotalMore(xs: seq<real>, x: real)
    ensures Total(xs + [x]) == Total(xs) + x
  {
    if xs == [] {
      assert (xs + [x])[1..] == [];
    } else {
      assert (xs + [x])[1..] == xs[1..] + [x];
      TotalMore(xs[1..], x);
    }
  }

  lemma {:induction false} SumIsTotal(xs: seq<real>)
    ensures Sum(xs) == Total(xs)
  {
    if xs != [] {
      var init, x := xs[..|xs| - 1], xs[|xs| - 1];
      SumIsTotal(init);
      TotalMore(init, x);
      assert xs == init + [x];
    }
  }

  lemma MeanIs(xs: seq<real>)
    requires xs != []
    ensures Mean(xs) * |xs| as real == Total(xs)
  {
    SumIsTotal(xs);
    Divided(Sum(xs), |xs| as real);
  }

  lemma Divided(a: real, b: real)
    requires b != 0.0
    ensures a / b * b == a
  {
  }

  // ---- The weekday mean ----

  /** Consecutive days from `start` on. */
  predicate Daily(pts: seq<Pt>, start: Day) { forall i :: 0 <= i < |pts| ==> pts[i].day == start + i }

  /** The quantities at t, t - 7, t - 14 and so on, at most `limit` of them. */
  function WeeksBack(pts: seq<Pt>, t: int, limit: nat): seq<real>
    requires t < |pts|
    decreases limit
  {
    if t < 0 || limit == 0 then [] else [pts[t].qty] + WeeksBack(pts, t - 7, limit - 1)
  }

  lemma {:induction false} LatestAreWeeksBack(pts: seq<Pt>, start: Day, wd: int, i: nat, t: int, limit: nat)
    requires Daily(pts, start) && i <= |pts| && t < i <= t + 7 && Weekday(start + t) == wd
    ensures Latest(pts[..i], wd, limit) == WeeksBack(pts, t, limit)
    decreases i
  {
    if i > 0 && limit > 0 {
      assert pts[..i][..i - 1] == pts[..i - 1] && pts[..i][i - 1] == pts[i - 1];
      SameWeekday(start + i - 1, start + t);
      if i - 1 == t {
        SameWeekday(start + t - 7, start + t);
        LatestAreWeeksBack(pts, start, wd, i - 1, t - 7, limit - 1);
      } else {
        LatestAreWeeksBack(pts, start, wd, i - 1, t, limit);
      }
    }
  }

  lemma SameWeekday(a: Day, b: Day)
    requires -7 <= a - b < 7
    ensures Weekday(a) == Weekday(b) <==> a == b || a == b - 7
  {
  }

  /** Week after week the same weekday: Monday is 1 and comes back after seven days. */
  lemma WeekdaysGoRound(day: Day)
    ensures Weekday(0) == 1 && 1 <= Weekday(day) <= 7 && Weekday(day + 7) == Weekday(day)
    ensures Weekday(day + 1) == if Weekday(day) == 7 then 1 else Weekday(day) + 1
  {
  }

  /** The sum of `weeks` quantities a week apart, the last of them at t. */
  function WeekSum(pts: seq<Pt>, t: int, weeks: nat): real
    requires t < |pts| && (weeks > 0 ==> t - 7 * (weeks - 1) >= 0)
    decreases weeks
  {
    if weeks == 0 then 0.0 else pts[t].qty + WeekSum(pts, t - 7, weeks - 1)
  }

  /** How many of the four weeks before an index are in the history. */
  function WeeksOf(t: int): nat { if t < 7 then 0 else if t >= 28 then 4 else t / 7 }

  lemma {:induction false} WeeksBackSum(pts: seq<Pt>, t: int, weeks: nat, limit: nat)
    requires t < |pts| && weeks <= limit && (weeks > 0 ==> t - 7 * (weeks - 1) >= 0) && (weeks < limit ==> t - 7 * weeks < 0)
    ensures |WeeksBack(pts, t, limit)| == weeks && Total(WeeksBack(pts, t, limit)) == WeekSum(pts, t, weeks)
    decreases limit
  {
    if weeks > 0 {
      WeeksBackSum(pts, t - 7, weeks - 1, limit - 1);
      assert WeeksBack(pts, t, limit)[1..] == WeeksBack(pts, t - 7, limit - 1);
    }
  }

  /** On consecutive days M1 forecasts the j-th day ahead as the mean of the same weekday in
      the last four weeks, or in as many as there are; with none, as the mean of all days. */
  lemma WeekdayMeanIs(pts: seq<Pt>, start: Day, j: nat)
    requires Daily(pts, start) && pts != [] && j < 7
    ensures
      var n, p := |pts|, Fit(WeekdayMean, pts).Predict(start + |pts| + j);
      var weeks := WeeksOf(n + j);
      if weeks == 0 then p * n as real == Total(Qtys(pts)) else p * weeks as real == WeekSum(pts, n + j - 7, weeks)
  {
    hide Mean, Sum, Total;
    var n, t := |pts|, |pts| + j - 7;
    var wd := Weekday(start + n + j);
    WeekdaysGoRound(start + t);
    assert pts[..n] == pts;
    LatestAreWeeksBack(pts, start, wd, n, t, 4);
    WeeksBackSum(pts, t, WeeksOf(n + j), 4);
    var latest := Latest(pts, wd, 4);
    if latest == [] { MeanIs(Qtys(pts)); } else { MeanIs(latest); }
  }

  /** Four full weeks: the plain average of the four. */
  lemma FourWeekAverage(pts: seq<Pt>, start: Day, j: nat)
    requires Daily(pts, start) && |pts| >= 28 && j < 7
    ensures
      var n := |pts|;
      Fit(WeekdayMean, pts).Predict(start + n + j)
        == (pts[n + j - 7].qty + pts[n + j - 14].qty + pts[n + j - 21].qty + pts[n + j - 28].qty) / 4.0
  {
    hide Fit;
    var t := |pts| + j - 7;
    WeekdayMeanIs(pts, start, j);
    assert WeekSum(pts, t, 4) == pts[t].qty + WeekSum(pts, t - 7, 3);
    assert WeekSum(pts, t - 7, 3) == pts[t - 7].qty + WeekSum(pts, t - 14, 2);
    assert WeekSum(pts, t - 14, 2) == pts[t - 14].qty + WeekSum(pts, t - 21, 1);
    assert WeekSum(pts, t - 21, 1) == pts[t - 21].qty + WeekSum(pts, t - 28, 0);
  }
}
