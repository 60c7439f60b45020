/** What the figures of a decision are, in terms of the forecast points, the deliveries and
    the purchase terms it was made from. */
module DecisionLaws {
  import opened Options
  import opened Quantity
  import opened DeliveryWindow
  import opened Reorder

  // ---- Rounding ----

  /** `q` is the thousandth nearest to x; a half goes away from zero. */
  predicate NearestTo(q: int, x: real) {
    if x >= 0.0 then q as real - 0.5 <= x < q as real + 0.5 else q as real - 0.5 < x <= q as real + 0.5
  }

  lemma RoundRealNearest(x: real)
    ensures NearestTo(RoundReal(x), x)
  {
  }

  /** `q` is a real number of units in thousandths; nothing below zero counts. */
  predicate InThousandths(q: Qty, units: real) { if units <= 0.0 then q == 0 else NearestTo(q, 1000.0 * units) }

  lemma FromRealNearest(v: real)
    ensures InThousandths(FromReal(v), v)
  {
    RoundRealNearest(ONE as real * v);
  }

  // ---- Sums over forecast points ----

  /** The points are the days from `day` on, one after another. */
  predicate Consecutive(points: seq<Point>, day: Day) { forall i :: 0 <= i < |points| ==> points[i].day == day + i }

  /** The quantities of points[lo..hi], as far as there are points. */
  function SumOf(points: seq<Point>, lo: nat, hi: int): Qty
    decreases hi - lo
  {
    if hi <= lo || lo >= |points| then 0 else points[lo].qty + SumOf(points, lo + 1, hi)
  }

  /** What is left of the first point after what was consumed. */
  function FirstLeft(points: seq<Point>, consumed: Qty): Qty {
    var left := (if points == [] then 0 else points[0].qty) - consumed;
    if left > 0 then left else 0
  }

  lemma {:induction false} PointAt(points: seq<Point>, first: Day, day: Day)
    requires Consecutive(points, first)
    ensures PointOn(points, day) == if 0 <= day - first < |points| then points[day - first].qty else 0
  {
    if points != [] && points[0].day != day { PointAt(points[1..], first + 1, day); }
  }

  lemma {:induction false} SumOfMore(points: seq<Point>, lo: nat, hi: int)
    requires lo <= hi
    ensures SumOf(points, lo, hi + 1) == SumOf(points, lo, hi) + if hi < |points| then points[hi].qty else 0
    decreases hi - lo
  {
    if lo < hi && lo < |points| { SumOfMore(points, lo + 1, hi); }
  }

  lemma {:induction false} NeedAsSum(f: Forecast, today: Day, hi: Day)
    requires Consecutive(f.points, today)
    ensures NeedOver(f, today + 1, hi) == SumOf(f.points, 1, hi - today)
    decreases hi - today
  {
    if hi > today + 1 {
      NeedAsSum(f, today, hi - 1);
      PointAt(f.points, today, hi - 1);
      SumOfMore(f.points, 1, hi - 1 - today);
    }
  }

  // ---- Target and safety stock ----

  /** The target covers what today still needs, the days from tomorrow up to but not
      including D2, and the safety stock. Without a forecast it is the manual minimum. */
  lemma TargetIs(input: Input)
    requires Consecutive(input.forecast.points, input.today)
    ensures
      var d, points := Decide(input), input.forecast.points;
      if input.forecast.model == M0 then d.targetLevel == input.manualMin && d.safetyStock == 0
      else
        d.targetLevel == FirstLeft(points, input.consumedToday) + SumOf(points, 1, input.window.d2 - input.today) + d.safetyStock
  {
    hide IncomingBefore, Stockout, SafetyStock;
    NeedAsSum(input.forecast, input.today, input.window.d2);
    PointAt(input.forecast.points, input.today, input.today);
  }

  /** The forecast of D2 and of any later day leaves target, recommendation and safety stock
      alone. */
  lemma LaterForecastDoesNotMatter(a: Input, b: Input)
    requires b == a.(forecast := a.forecast.(points := b.forecast.points))
    requires forall day :: day == a.today || day < a.window.d2 ==> a.forecast.On(day) == b.forecast.On(day)
    ensures
      var x, y := Decide(a), Decide(b);
      x.targetLevel == y.targetLevel && x.safetyStock == y.safetyStock && x.recommendedQty == y.recommendedQty
  {
    hide IncomingBefore, Stockout, SafetyStock, Classify;
    SameNeeds(a.forecast, b.forecast, a.today + 1, a.window.d2);
    assert SafetyStock(a) == SafetyStock(b) by { SameSafety(a, b); }
  }

  lemma SameSafety(a: Input, b: Input)
    requires b == a.(forecast := a.forecast.(points := b.forecast.points))
    ensures SafetyStock(a) == SafetyStock(b)
  {
  }

  lemma {:induction false} SameNeeds(f: Forecast, g: Forecast, lo: Day, hi: Day)
    requires forall day :: lo <= day < hi ==> f.On(day) == g.On(day)
    ensures NeedOver(f, lo, hi) == NeedOver(g, lo, hi)
    decreases hi - lo
  {
    if lo < hi { SameNeeds(f, g, lo, hi - 1); }
  }

  /** The service factor of a level. */
  predicate IsServiceFactor(level: int, z: real) {
    (level == 90 ==> z == 1.28) && (level == 99 ==> z == 2.33) && (level != 90 && level != 99 ==> z == 1.65)
  }

  function Product(a: real, b: real, c: real): real { a * b * c }

  lemma SafetyShown(input: Input)
    requires input.forecast.model != M0
    ensures Decide(input).safetyStock == SafetyStock(input)
  {
    hide SafetyStock, IncomingBefore, Stockout, NeedUntilD2, Recommend, Classify;
  }

  lemma SafetyProduct(input: Input, z: real)
    requires z == ZFactor(input.serviceLevel)
    ensures SafetyStock(input) == Buffer(z, input.forecast.sigma, input.root)
  {
    hide Buffer;
  }

  /** The safety stock is the product of service factor, sigma and the square root of the
      days to D2, to the nearest thousandth; nothing when that is not positive. */
  lemma SafetyIs(input: Input, z: real)
    requires input.forecast.model != M0 && IsServiceFactor(input.serviceLevel, z)
    ensures InThousandths(Decide(input).safetyStock, Product(z, input.forecast.sigma, input.root))
  {
    hide Decide, SafetyStock, Buffer, InThousandths, IsServiceFactor, ZFactor, Product;
    SafetyShown(input);
    FactorIs(input.serviceLevel, z);
    SafetyProduct(input, z);
    BufferNearest(z, input.forecast.sigma, input.root);
  }

  lemma FactorIs(level: int, z: real)
    requires IsServiceFactor(level, z)
    ensures z == ZFactor(level)
  {
  }

  lemma BufferNearest(z: real, sigma: real, root: real)
    ensures InThousandths(Buffer(z, sigma, root), Product(z, sigma, root))
  {
    FromRealNearest(z * sigma * root);
  }

  /** The same demand and spread, four days to D2: each service level has its safety stock. */
  lemma SafetyByLevel(input: Input)
    requires input.forecast.model != M0 && input.forecast.sigma == 1.0 && input.root == 2.0
    ensures Decide(input).safetyStock == if input.serviceLevel == 90 then 2560 else if input.serviceLevel == 99 then 4660 else 3300
  {
    var z := ZFactor(input.serviceLevel);
    SafetyIs(input, z);
    Doubled(z, input.forecast.sigma, input.root);
  }

  lemma Doubled(z: real, one: real, two: real)
    requires one == 1.0 && two == 2.0
    ensures 1000.0 * (z * one * two) == 2000.0 * z
  {
  }

  // ---- The rest of the decision ----

  function Larger(a: int, b: int): int { if a > b then a else b }

  /** The explanation shows the figures the decision was made with. */
  lemma ExplanationAgrees(input: Input, z: real)
    requires IsServiceFactor(input.serviceLevel, z)
    ensures
      var d := Decide(input);
      var e := d.explanation;
      && e.model == input.forecast.model && e.onHand == input.onHand
      && e.onOrder == d.onOrder && e.inventoryPosition == input.onHand + d.onOrder
      && e.safetyStock == d.safetyStock && e.targetLevel == d.targetLevel && e.recommendedQty == d.recommendedQty
      && e.shortfall == Larger(0, d.targetLevel - (input.onHand + d.onOrder))
      && e.d1 == input.window.d1 && e.d2 == input.window.d2 && e.orderBy == input.window.orderBy
      && e.daysToD2 == Larger(0, input.window.d2 - input.today) && (e.canWait <==> input.window.d1 == input.window.d2)
      && (if input.forecast.model == M0 then e.needUntilD2 == 0 && e.sigma == 0.0 && e.z == 0.0
          else e.needUntilD2 == d.targetLevel - d.safetyStock && e.sigma == input.forecast.sigma && e.z == z)
  {
    hide IncomingBefore, Stockout, SafetyStock, NeedUntilD2, Recommend, Classify;
    assert z == ZFactor(input.serviceLevel);
  }

  /** What arrives in [lo, hi). */
  function ArrivedIn(ds: seq<Delivery>, lo: Day, hi: Day): Qty {
    if ds == [] then 0
    else ArrivedIn(ds[..|ds| - 1], lo, hi) + if lo <= ds[|ds| - 1].day < hi then ds[|ds| - 1].qty else 0
  }

  lemma {:induction false} BeforeSplits(a: seq<Delivery>, b: seq<Delivery>, day: Day)
    ensures IncomingBefore(a + b, day) == IncomingBefore(a, day) + IncomingBefore(b, day)
  {
    if a == [] { assert a + b == b; } else {
      assert (a + b)[1..] == a[1..] + b;
      BeforeSplits(a[1..], b, day);
    }
  }

  lemma {:induction false} ArrivedAsBefore(ds: seq<Delivery>, lo: Day, hi: Day)
    requires lo <= hi
    ensures ArrivedIn(ds, lo, hi) == IncomingBefore(ds, hi) - IncomingBefore(ds, lo)
  {
    if ds != [] {
      var init, last := ds[..|ds| - 1], ds[|ds| - 1];
      ArrivedAsBefore(init, lo, hi);
      assert ds == init + [last];
      BeforeSplits(init, [last], lo);
      BeforeSplits(init, [last], hi);
      assert [last][1..] == [];
    }
  }

  /** What is counted as on order: every delivery due strictly before D2, however late. */
  lemma OnOrderIs(input: Input, lo: Day)
    requires lo <= input.window.d2 && forall dv :: dv in input.incoming ==> dv.day >= lo
    ensures Decide(input).onOrder == ArrivedIn(input.incoming, lo, input.window.d2)
  {
    hide Stockout, SafetyStock, NeedUntilD2;
    ArrivedAsBefore(input.incoming, lo, input.window.d2);
    NoneBefore(input.incoming, lo);
  }

  lemma {:induction false} NoneBefore(ds: seq<Delivery>, lo: Day)
    requires forall dv :: dv in ds ==> dv.day >= lo
    ensures IncomingBefore(ds, lo) == 0
  {
    if ds != [] { NoneBefore(ds[1..], lo); }
  }

  /** The balance at the end of day today + k: the stock, all that arrived from today on, less
      what today still needed and the forecast of the days after. */
  function Projected(input: Input, k: nat): Qty {
    var points := input.forecast.points;
    input.onHand + ArrivedIn(input.incoming, input.today, input.today + k + 1)
      - FirstLeft(points, input.consumedToday) - SumOf(points, 1, k + 1)
  }

  lemma {:induction false} ProjectedBalance(input: Input, k: nat)
    requires Consecutive(input.forecast.points, input.today)
    ensures BalanceAfter(input, k) == Projected(input, k)
  {
    var points, day := input.forecast.points, input.today + k;
    ArrivedAsBefore(input.incoming, input.today, day + 1);
    BeforeNextDay(input.incoming, day);
    PointAt(points, input.today, day);
    if k > 0 {
      ProjectedBalance(input, k - 1);
      ArrivedAsBefore(input.incoming, input.today, day);
      SumOfMore(points, 1, k);
    }
  }

  /** The stockout date is the first day of the horizon whose projected balance is negative. */
  lemma StockoutIs(input: Input)
    requires Consecutive(input.forecast.points, input.today)
    ensures
      var s, n := Decide(input).stockoutDate, |input.forecast.points|;
      && (s.None? ==> forall k: nat :: k < n ==> Projected(input, k) >= 0)
      && (s.Some? ==> input.today <= s.value < input.today + n && Projected(input, s.value - input.today) < 0
                      && forall k: nat :: k < s.value - input.today ==> Projected(input, k) >= 0)
  {
    hide Projected, BalanceAfter, StockoutFrom;
    var s := Stockout(input);
    assert Decide(input).stockoutDate == s by { SameStockoutDate(input); }
    FirstShortage(input, 0);
    forall k: nat ensures BalanceAfter(input, k) == Projected(input, k) { ProjectedBalance(input, k); }
  }

  lemma SameStockoutDate(input: Input)
    ensures Decide(input).stockoutDate == Stockout(input)
  {
    hide IncomingBefore, SafetyStock, NeedUntilD2, Recommend, Classify, Stockout;
  }

  /** The order from the gravest status down. */
  lemma GravestFirst()
    ensures OutOfStock.WorseThan(Critical) && Critical.WorseThan(OrderToday) && OrderToday.WorseThan(NoForecast)
    ensures NoForecast.WorseThan(Status.Ok)
    ensures forall a: Status, b: Status, c: Status :: a.WorseThan(b) && b.WorseThan(c) ==> a.WorseThan(c)
    ensures forall a: Status, b: Status :: a != b ==> a.WorseThan(b) != b.WorseThan(a)
  {
  }
}
