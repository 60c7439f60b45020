/** Outlier clipping settles in one step and touches at most a quarter of the window. */
module ClippingLaws {
  import opened Forecasting

  predicate Sorted(s: seq<real>) { forall i, j :: 0 <= i < j < |s| ==> s[i] <= s[j] }

  predicate AtLeast(s: seq<real>, m: real) { forall i :: 0 <= i < |s| ==> m <= s[i] }

  lemma {:induction false} InsertAtLeast(x: real, s: seq<real>, m: real)
    requires m <= x && AtLeast(s, m)
    ensures AtLeast(Insert(x, s), m) && |Insert(x, s)| == |s| + 1
  {
    if s != [] && x > s[0] { InsertAtLeast(x, s[1..], m); }
  }

  lemma {:induction false} InsertSorted(x: real, s: seq<real>)
    requires Sorted(s)
    ensures Sorted(Insert(x, s)) && |Insert(x, s)| == |s| + 1
  {
    if s != [] && x > s[0] {
      InsertSorted(x, s[1..]);
      InsertAtLeast(x, s[1..], s[0]);
    }
  }

  lemma {:induction false} SortSorted(s: seq<real>)
    ensures Sorted(Sort(s)) && |Sort(s)| == |s|
  {
    if s != [] {
      SortSorted(s[1..]);
      InsertSorted(s[0], Sort(s[1..]));
    }
  }

  function MapCut(s: seq<real>, t: real): seq<real> { seq(|s|, i requires 0 <= i < |s| => Cut(s[i], t)) }

  /** Cutting is monotone, so it commutes with sorting. */
  lemma {:induction false} InsertCut(x: real, s: seq<real>, t: real)
    requires Sorted(s)
    ensures Insert(Cut(x, t), MapCut(s, t)) == MapCut(Insert(x, s), t)
  {
    if s != [] && x > s[0] {
      InsertCut(x, s[1..], t);
      assert MapCut(s, t)[1..] == MapCut(s[1..], t);
      assert MapCut([s[0]] + Insert(x, s[1..]), t) == [Cut(s[0], t)] + MapCut(Insert(x, s[1..]), t);
      if Cut(x, t) <= Cut(s[0], t) {
        // Both are cut to the threshold, and so is everything after them.
        assert s[0] >= t;
        if |s| > 1 { assert s[1] >= t; }
        assert Insert(t, MapCut(s[1..], t)) == [t] + MapCut(s[1..], t);
      }
    } else {
      assert MapCut([x] + s, t) == [Cut(x, t)] + MapCut(s, t);
    }
  }

  lemma {:induction false} SortCut(s: seq<real>, t: real)
    ensures Sort(MapCut(s, t)) == MapCut(Sort(s), t)
  {
    if s != [] {
      SortCut(s[1..], t);
      SortSorted(s[1..]);
      InsertCut(s[0], Sort(s[1..]), t);
      assert MapCut(s, t)[1..] == MapCut(s[1..], t);
    }
  }

  /** Index of the upper sample that the k-th quartile interpolates from. */
  function Upper(n: nat, k: nat): nat
    requires n > 0
  {
    var position := k * (n - 1);
    if position % 4 == 0 then position / 4 else position / 4 + 1
  }

  /** A quartile lies between the two samples it interpolates from, and at least a
      quarter of the way up when it is not a sample itself. */
  lemma QuartileBetween(s: seq<real>, k: nat)
    requires Sorted(s) && |s| > 0 && k <= 4
    ensures
      var hi := Upper(|s|, k);
      var lo := k * (|s| - 1) / 4;
      && lo <= hi < |s|
      && s[lo] <= Quartile(s, k) <= s[hi]
      && Quartile(s, k) - s[lo] >= (s[hi] - s[lo]) / 4.0
  {
    var position := k * (|s| - 1);
    var lo, quarters := position / 4, position % 4;
    if quarters != 0 {
      var f := quarters as real / 4.0;
      var a, b := s[lo], s[lo + 1];
      assert f == 0.25 || f == 0.5 || f == 0.75;
      assert a * (1.0 - f) + b * f == a + (b - a) * f;
    }
  }

  /** Q3 + 3 * IQR is never below the upper sample of Q3: the interpolation fraction is
      zero or at least a quarter. */
  lemma ThresholdAboveUpper(s: seq<real>)
    requires Sorted(s) && |s| >= 8
    ensures
      var q1, q3 := Quartile(s, 1), Quartile(s, 3);
      q1 <= q3 && q3 + 3.0 * (q3 - q1) >= s[Upper(|s|, 3)]
  {
    QuartileBetween(s, 1);
    QuartileBetween(s, 3);
    assert Upper(|s|, 1) <= 3 * (|s| - 1) / 4;
  }

  /** Cutting at or above the upper sample leaves a quartile where it was. */
  lemma QuartileSurvives(s: seq<real>, k: nat, t: real)
    requires Sorted(s) && |s| > 0 && k <= 4 && t >= s[Upper(|s|, k)]
    ensures Quartile(MapCut(s, t), k) == Quartile(s, k)
  {
    QuartileBetween(s, k);
    var lo, hi := k * (|s| - 1) / 4, Upper(|s|, k);
    assert Cut(s[lo], t) == s[lo] && Cut(s[hi], t) == s[hi];
  }

  lemma QtysOfCut(pts: seq<Pt>, t: real)
    ensures Qtys(CutAll(pts, 0, t)) == MapCut(Qtys(pts), t)
  {
  }

  /** The threshold of a cut window is the threshold it was cut at. */
  lemma ThresholdSurvives(window: seq<Pt>)
    requires |window| >= 8 && Threshold(window).Some?
    ensures Threshold(CutAll(window, 0, Threshold(window).value)) == Threshold(window)
  {
    hide Sort, Quartile, CutAll, Sorted, MapCut;
    var t := Threshold(window).value;
    SortSorted(Qtys(window));
    QtysOfCut(window, t);
    SortCut(Qtys(window), t);
    QuartilesSurvive(Values(window));
  }

  lemma QuartilesSurvive(values: seq<real>)
    requires Sorted(values) && |values| >= 8
    ensures
      var q1, q3 := Quartile(values, 1), Quartile(values, 3);
      var cut := MapCut(values, q3 + 3.0 * (q3 - q1));
      Quartile(cut, 1) == q1 && Quartile(cut, 3) == q3
  {
    var q1, q3 := Quartile(values, 1), Quartile(values, 3);
    var t := q3 + 3.0 * (q3 - q1);
    ThresholdAboveUpper(values);
    assert values[Upper(|values|, 1)] <= values[Upper(|values|, 3)];
    QuartileSurvives(values, 1, t);
    QuartileSurvives(values, 3, t);
  }

  lemma ClipIdempotent(pts: seq<Pt>)
    ensures Clip(Clip(pts)) == Clip(pts)
  {
    if |pts| >= 8 {
      var from := WindowStart(pts);
      var window := pts[from..];
      if Threshold(window).Some? {
        var t := Threshold(window).value;
        var once := Clip(pts);
        assert once[from..] == CutAll(window, 0, t);
        ThresholdSurvives(window);
        assert CutAll(once, from, t) == once;
      }
    }
  }

  // ---- How much is changed ----

  function CountAbove(s: seq<real>, t: real): nat {
    if s == [] then 0 else (if s[0] > t then 1 else 0) + CountAbove(s[1..], t)
  }

  lemma {:induction false} CountInsert(x: real, s: seq<real>, t: real)
    ensures CountAbove(Insert(x, s), t) == CountAbove(s, t) + if x > t then 1 else 0
  {
    if s != [] && x > s[0] { CountInsert(x, s[1..], t); }
  }

  lemma {:induction false} CountSort(s: seq<real>, t: real)
    ensures CountAbove(Sort(s), t) == CountAbove(s, t)
  {
    if s != [] {
      CountSort(s[1..], t);
      CountInsert(s[0], Sort(s[1..]), t);
    }
  }

  lemma {:induction false} CountSorted(s: seq<real>, t: real, k: nat)
    requires Sorted(s) && k < |s| && s[k] <= t
    ensures CountAbove(s, t) <= |s| - 1 - k
    decreases |s|
  {
    if k > 0 {
      assert s[0] <= s[k];
      CountSorted(s[1..], t, k - 1);
    } else {
      CountAtMost(s[1..], t);
    }
  }

  lemma {:induction false} CountAtMost(s: seq<real>, t: real)
    ensures CountAbove(s, t) <= |s|
  {
    if s != [] { CountAtMost(s[1..], t); }
  }

  /** Positions where two lists of points differ. */
  function Changed(a: seq<Pt>, b: seq<Pt>): nat
    requires |a| == |b|
  {
    if a == [] then 0 else (if a[0] != b[0] then 1 else 0) + Changed(a[1..], b[1..])
  }

  lemma {:induction false} ChangedIsAbove(pts: seq<Pt>, t: real)
    ensures Changed(pts, CutAll(pts, 0, t)) == CountAbove(Qtys(pts), t)
  {
    if pts != [] {
      ChangedIsAbove(pts[1..], t);
      assert CutAll(pts, 0, t)[1..] == CutAll(pts[1..], 0, t);
      assert Qtys(pts)[1..] == Qtys(pts[1..]);
    }
  }

  lemma {:induction false} ChangedDrop(a: seq<Pt>, b: seq<Pt>, from: nat)
    requires |a| == |b| && from <= |a| && a[..from] == b[..from]
    ensures Changed(a, b) == Changed(a[from..], b[from..])
  {
    if from > 0 {
      assert a[0] == a[..from][0] == b[..from][0] == b[0];
      assert a[1..][..from - 1] == a[..from][1..] && b[1..][..from - 1] == b[..from][1..];
      ChangedDrop(a[1..], b[1..], from - 1);
      assert a[1..][from - 1..] == a[from..] && b[1..][from - 1..] == b[from..];
    } else {
      assert a[0..] == a && b[0..] == b;
    }
  }

  /** Clipping changes nothing before the window and at most a quarter of it. */
  lemma ClipTouchesAQuarter(pts: seq<Pt>)
    ensures
      var window := |pts| - WindowStart(pts);
      && |Clip(pts)| == |pts| && Clip(pts)[..WindowStart(pts)] == pts[..WindowStart(pts)]
      && 4 * Changed(pts, Clip(pts)) <= window
  {
    var from := WindowStart(pts);
    var window := pts[from..];
    if |pts| >= 8 && Threshold(window).Some? {
      var t := Threshold(window).value;
      var values := Values(window);
      SortSorted(Qtys(window));
      ThresholdAboveUpper(values);
      CountSort(Qtys(window), t);
      CountSorted(values, t, Upper(|values|, 3));
      ChangedIsAbove(window, t);
      assert Clip(pts)[from..] == CutAll(window, 0, t);
      ChangedDrop(pts, Clip(pts), from);
    } else {
      NothingChanged(pts);
    }
  }

  lemma {:induction false} NothingChanged(a: seq<Pt>)
    ensures Changed(a, a) == 0
  {
    if a != [] { NothingChanged(a[1..]); }
  }
}
