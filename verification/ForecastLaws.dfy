/** What the forecast depends on, what it selects, and where it is exact. */
module ForecastLaws {
  import opened DeliveryWindow
  import opened Reorder
  import opened Forecasting

  // ---- Order and noise do not matter ----

  predicate Ascending(s: seq<Pt>) { forall i, j :: 0 <= i < j < |s| ==> s[i].day <= s[j].day }

  predicate Rising(s: seq<Pt>) { forall i, j :: 0 <= i < j < |s| ==> s[i].day < s[j].day }

  predicate DistinctDays(s: seq<Pt>) { forall i, j :: 0 <= i < j < |s| ==> s[i].day != s[j].day }

  lemma {:induction false} InsertElements(p: Pt, s: seq<Pt>)
    ensures multiset(InsertByDay(p, s)) == multiset(s) + multiset{p}
  {
    if s != [] && p.day > s[0].day {
      InsertElements(p, s[1..]);
      assert s == [s[0]] + s[1..];
    }
  }

  lemma {:induction false} InsertAfter(p: Pt, s: seq<Pt>, day: Day)
    requires day <= p.day && forall i :: 0 <= i < |s| ==> day <= s[i].day
    ensures forall i :: 0 <= i < |InsertByDay(p, s)| ==> day <= InsertByDay(p, s)[i].day
  {
    if s != [] && p.day > s[0].day { InsertAfter(p, s[1..], day); }
  }

  lemma {:induction false} InsertAscending(p: Pt, s: seq<Pt>)
    requires Ascending(s)
    ensures Ascending(InsertByDay(p, s))
  {
    if s != [] && p.day > s[0].day {
      InsertAscending(p, s[1..]);
      InsertAfter(p, s[1..], s[0].day);
    }
  }

  lemma {:induction false} SortSorts(s: seq<Pt>)
    ensures Ascending(SortByDay(s)) && multiset(SortByDay(s)) == multiset(s)
  {
    if s != [] {
      SortSorts(s[1..]);
      InsertAscending(s[0], SortByDay(s[1..]));
      InsertElements(s[0], SortByDay(s[1..]));
      assert s == [s[0]] + s[1..];
    }
  }

  lemma SameHead(a: seq<Pt>, b: seq<Pt>)
    requires Rising(a) && Rising(b) && multiset(a) == multiset(b) && a != []
    ensures b != [] && a[0] == b[0]
  {
    assert a[0] in multiset(b);
    var k :| 0 <= k < |b| && b[k] == a[0];
    assert b[0] in multiset(a);
    var m :| 0 <= m < |a| && a[m] == b[0];
  }

  lemma {:induction false} OnlyOneOrder(a: seq<Pt>, b: seq<Pt>)
    requires Rising(a) && Rising(b) && multiset(a) == multiset(b)
    ensures a == b
  {
    if a == [] {
      assert |multiset(b)| == 0;
    } else {
      SameHead(a, b);
      SameTail(a, b);
      OnlyOneOrder(a[1..], b[1..]);
      assert a == [a[0]] + a[1..] && b == [b[0]] + b[1..];
    }
  }

  lemma SameTail(a: seq<Pt>, b: seq<Pt>)
    requires a != [] && b != [] && a[0] == b[0] && multiset(a) == multiset(b)
    ensures multiset(a[1..]) == multiset(b[1..])
  {
    assert a == [a[0]] + a[1..] && b == [b[0]] + b[1..];
    assert multiset(a[1..]) == multiset(a) - multiset{a[0]};
    assert multiset(b[1..]) == multiset(b) - multiset{b[0]};
  }

  /** Days distinct before sorting are strictly rising after it. */
  lemma SortRises(s: seq<Pt>)
    requires DistinctDays(s)
    ensures Rising(SortByDay(s))
  {
    SortSorts(s);
    var r := SortByDay(s);
    forall i, j | 0 <= i < j < |r| ensures r[i].day < r[j].day {
      if r[i].day == r[j].day { TwoOfADay(s, r, i, j); }
    }
  }

  lemma SeenTwice(r: seq<Pt>, i: nat, j: nat)
    requires i < j < |r| && r[i] == r[j]
    ensures multiset(r)[r[i]] >= 2
  {
    assert r == r[..j] + r[j..];
    assert r[i] in r[..j] && r[j] == r[j..][0] && r[j] in r[j..];
  }

  lemma TwoPlaces(s: seq<Pt>, p: Pt) returns (a: nat, b: nat)
    requires multiset(s)[p] >= 2
    ensures a < b < |s| && s[a] == s[b] == p
  {
    var last := |s| - 1;
    assert s == s[..last] + [s[last]];
    if s[last] == p {
      assert p in s[..last];
      a :| 0 <= a < last && s[a] == p;
      b := last;
    } else {
      a, b := TwoPlaces(s[..last], p);
    }
  }

  /** Two entries of one day in the sorted list come from two entries of one day. */
  lemma TwoOfADay(s: seq<Pt>, r: seq<Pt>, i: nat, j: nat)
    requires multiset(s) == multiset(r) && i < j < |r| && r[i].day == r[j].day
    ensures !DistinctDays(s)
  {
    if r[i] == r[j] {
      SeenTwice(r, i, j);
      var a, b := TwoPlaces(s, r[i]);
    } else {
      assert r[i] in multiset(r) && r[j] in multiset(r);
      var a :| 0 <= a < |s| && s[a] == r[i];
      var b :| 0 <= b < |s| && s[b] == r[j];
    }
  }

  lemma {:induction false} RetainedAppend(x: seq<Observation>, y: seq<Observation>, asOf: Day)
    ensures Retained(x + y, asOf) == Retained(x, asOf) + Retained(y, asOf)
  {
    if y == [] {
      assert x + y == x;
    } else {
      var init := y[..|y| - 1];
      assert (x + y)[..|x + y| - 1] == x + init;
      RetainedAppend(x, init, asOf);
    }
  }

  /** The last element of one list, found in a permutation of it. */
  lemma FindLast(x: seq<Observation>, y: seq<Observation>) returns (pre: seq<Observation>, post: seq<Observation>)
    requires multiset(x) == multiset(y) && x != []
    ensures y == pre + [x[|x| - 1]] + post && multiset(x[..|x| - 1]) == multiset(pre + post)
  {
    var o, init := x[|x| - 1], x[..|x| - 1];
    assert x == init + [o];
    assert o in multiset(y);
    var k :| 0 <= k < |y| && y[k] == o;
    pre, post := y[..k], y[k + 1..];
    assert y == pre + [o] + post;
    assert multiset(init) == multiset(x) - multiset{o};
    assert multiset(pre + post) == multiset(y) - multiset{o};
  }

  lemma RetainedWithout(pre: seq<Observation>, o: Observation, post: seq<Observation>, asOf: Day)
    ensures multiset(Retained(pre + [o] + post, asOf)) == multiset(Retained(pre + post, asOf)) + multiset(Retained([o], asOf))
  {
    RetainedAppend(pre, post, asOf);
    RetainedAppend(pre + [o], post, asOf);
    RetainedAppend(pre, [o], asOf);
  }

  lemma {:induction false} RetainedPermuted(x: seq<Observation>, y: seq<Observation>, asOf: Day)
    requires multiset(x) == multiset(y)
    ensures multiset(Retained(x, asOf)) == multiset(Retained(y, asOf))
    decreases |x|
  {
    hide Retained;
    if x == [] {
      assert |multiset(y)| == 0 && y == [];
    } else {
      var o, init := x[|x| - 1], x[..|x| - 1];
      var pre, post := FindLast(x, y);
      RetainedPermuted(init, pre + post, asOf);
      RetainedWithout(pre, o, post, asOf);
      RetainedWithout(init, o, [], asOf);
      assert x == init + [o] + [] && init + [] == init;
    }
  }

  /** The forecast does not depend on the order of the observations. */
  lemma OrderDoesNotMatter(x: seq<Observation>, y: seq<Observation>, asOf: Day, horizon: int)
    requires multiset(x) == multiset(y) && DistinctDays(Retained(x, asOf)) && DistinctDays(Retained(y, asOf))
    ensures Compute(x, asOf, horizon) == Compute(y, asOf, horizon)
  {
    RetainedPermuted(x, y, asOf);
    SortRises(Retained(x, asOf));
    SortRises(Retained(y, asOf));
    SortSorts(Retained(x, asOf));
    SortSorts(Retained(y, asOf));
    OnlyOneOrder(SortByDay(Retained(x, asOf)), SortByDay(Retained(y, asOf)));
  }

  /** Days without data, days of stockout, negative days and days from asOf on have no
      influence, wherever they stand. */
  lemma NoiseDoesNotMatter(pre: seq<Observation>, o: Observation, post: seq<Observation>, asOf: Day, horizon: int)
    requires !o.hasData || o.stockout || o.qty < 0 || o.day >= asOf
    ensures Compute(pre + [o] + post, asOf, horizon) == Compute(pre + post, asOf, horizon)
  {
    RetainedAppend(pre, post, asOf);
    RetainedAppend(pre + [o], post, asOf);
    RetainedAppend(pre, [o], asOf);
    assert Retained([o], asOf) == [];
    assert Retained(pre, asOf) + [] == Retained(pre, asOf);
  }

  // ---- Selection ----

  /** Candidate 0 is M1; candidate k is the k-th smoothing factor. */
  function Candidate(k: nat): Fitter
    requires k <= |ALPHA_GRID|
  {
    if k == 0 then WeekdayMean else Smoothing(ALPHA_GRID[k - 1])
  }

  /** The selected model has the least WAPE, and every earlier candidate a greater one. */
  lemma {:induction false} SelectionIsMinimal(pts: seq<Pt>, n: nat) returns (chosen: nat)
    requires n <= |ALPHA_GRID|
    ensures chosen <= n && Best(pts, n).fitter == Candidate(chosen)
    ensures Best(pts, n).metrics.wape == Backtest(Candidate(chosen), pts).wape
    ensures Best(pts, n).model == if chosen == 0 then M1 else M2
    ensures forall k :: 0 <= k <= n ==> Backtest(Candidate(chosen), pts).wape <= Backtest(Candidate(k), pts).wape
    ensures forall k :: 0 <= k < chosen ==> Backtest(Candidate(chosen), pts).wape < Backtest(Candidate(k), pts).wape
  {
    hide Backtest;
    if n == 0 {
      chosen := 0;
    } else {
      chosen := SelectionIsMinimal(pts, n - 1);
      if Backtest(Candidate(n), pts).wape < Backtest(Candidate(chosen), pts).wape {
        chosen := n;
      }
    }
  }

  lemma {:induction false} SumAbsNonNegative(cs: seq<Comparison>)
    ensures SumAbs(cs) >= 0.0
  {
    if cs != [] { SumAbsNonNegative(cs[..|cs| - 1]); }
  }

  lemma WapeNonNegative(f: Fitter, pts: seq<Pt>)
    ensures Backtest(f, pts).wape >= 0.0
  {
    if |pts| >= MIN_DAYS_M1 { SumAbsNonNegative(Comparisons(f, pts, |pts|)); }
  }

  lemma {:induction false} PerfectWins(pts: seq<Pt>, n: nat)
    requires n <= |ALPHA_GRID| && Backtest(WeekdayMean, pts).wape == 0.0
    ensures Best(pts, n) == Choice(M1, WeekdayMean, Backtest(WeekdayMean, pts))
  {
    if n > 0 {
      PerfectWins(pts, n - 1);
      WapeNonNegative(Smoothing(ALPHA_GRID[n - 1]), pts);
    }
  }
}
