/** The reorder decision: target level, stockout date, recommended quantity, status. */
module Reorder {
  import opened Options
  import opened Quantity
  import opened DeliveryWindow

  datatype Status = OutOfStock | Critical | OrderToday | Ok | NoForecast {
    predicate IsRed() { OutOfStock? || Critical? }

    function Severity(): nat {
      match this
      case OutOfStock => 4
      case Critical => 3
      case OrderToday => 2
      case NoForecast => 1
      case Ok => 0
    }

    predicate WorseThan(other: Status) { Severity() > other.Severity() }
  }

  datatype Model = M0 | M1 | M2

  datatype Point = Point(day: Day, qty: Qty)

  datatype Forecast = Forecast(model: Model, points: seq<Point>, sigma: real) {
    /** The forecast for a day, zero beyond the horizon. */
    function On(day: Day): Qty { PointOn(points, day) }
  }

  function PointOn(points: seq<Point>, day: Day): Qty {
    if points == [] then 0
    else if points[0].day == day then points[0].qty
    else PointOn(points[1..], day)
  }

  method FindPoint(points: seq<Point>, day: Day) returns (q: Qty)
    ensures q == PointOn(points, day)
  {
    for i := 0 to |points|
      invariant PointOn(points, day) == PointOn(points[i..], day)
    {
      if points[i].day == day {
        return points[i].qty;
      }
    }
    return 0;
  }

  datatype Delivery = Delivery(day: Day, qty: Qty)

  /** Everything one decision depends on. `root` is what the library returned as the
      square root of the number of days to D2: no property below constrains it. */
  datatype Input = Input(
    today: Day,
    window: Window,
    onHand: Qty,
    incoming: seq<Delivery>,
    forecast: Forecast,
    consumedToday: Qty,
    serviceLevel: int,
    manualMin: Qty,
    minOrder: Qty,
    pack: Qty,
    root: real)

  datatype Explanation = Explanation(
    model: Model,
    onHand: Qty,
    onOrder: Qty,
    inventoryPosition: Qty,
    needUntilD2: Qty,
    safetyStock: Qty,
    targetLevel: Qty,
    shortfall: Qty,
    recommendedQty: Qty,
    d1: Day,
    d2: Day,
    orderBy: Moment,
    daysToD2: int,
    sigma: real,
    z: real,
    canWait: bool)

  datatype Decision = Decision(
    status: Status,
    onOrder: Qty,
    targetLevel: Qty,
    safetyStock: Qty,
    recommendedQty: Qty,
    stockoutDate: Option<Day>,
    explanation: Explanation)

  function ZFactor(serviceLevel: int): real {
    if serviceLevel == 90 then 1.28 else if serviceLevel == 99 then 2.33 else 1.65
  }

  function DaysTo(input: Input): int {
    var n := input.window.d2 - input.today;
    if n > 0 then n else 0
  }

  // ---- Sums over days ----

  /** What arrives on one day. */
  function ArrivingOn(ds: seq<Delivery>, day: Day): Qty {
    if ds == [] then 0
    else (if ds[0].day == day then ds[0].qty else 0) + ArrivingOn(ds[1..], day)
  }

  /** What arrives strictly before a day. */
  function IncomingBefore(ds: seq<Delivery>, day: Day): Qty {
    if ds == [] then 0
    else (if ds[0].day < day then ds[0].qty else 0) + IncomingBefore(ds[1..], day)
  }

  /** The forecast over [lo, hi). */
  function NeedOver(f: Forecast, lo: Day, hi: Day): Qty
    decreases hi - lo
  {
    if hi <= lo then 0 else NeedOver(f, lo, hi - 1) + f.On(hi - 1)
  }

  /** What today still needs: the forecast less what is already consumed. */
  function NeedToday(input: Input): Qty { ClampZero(input.forecast.On(input.today) - input.consumedToday) }

  function NeedOn(input: Input, day: Day): Qty {
    if day == input.today then NeedToday(input) else input.forecast.On(day)
  }

  /** The projected balance at the end of day today + i. */
  function BalanceAfter(input: Input, i: nat): Qty {
    (if i == 0 then input.onHand else BalanceAfter(input, i - 1))
      + ArrivingOn(input.incoming, input.today + i) - NeedOn(input, input.today + i)
  }

  /** The first day from today + i with a negative projected balance, inside the horizon. */
  function StockoutFrom(input: Input, i: nat): Option<Day>
    decreases |input.forecast.points| - i
  {
    if i >= |input.forecast.points| then None
    else if BalanceAfter(input, i) < 0 then Some(input.today + i)
    else StockoutFrom(input, i + 1)
  }

  function Stockout(input: Input): Option<Day> { StockoutFrom(input, 0) }

  // ---- The decision ----

  function Recommend(shortfall: Qty, minOrder: Qty, pack: Qty): Qty {
    if shortfall > 0 then CeilTo(Max(shortfall, minOrder), pack) else 0
  }

  function Classify(input: Input, position: Qty, target: Qty, stockout: Option<Day>): Status {
    if input.onHand <= 0 then OutOfStock
    else if stockout.Some? && stockout.value < input.window.d1 then Critical
    else if position < target && !input.window.CanWait() then OrderToday
    else Ok
  }

  function DecideManual(input: Input, onOrder: Qty, position: Qty, stockout: Option<Day>): Decision {
    var target := input.manualMin;
    var shortfall := target - position;
    var recommended := Recommend(shortfall, input.minOrder, input.pack);
    var status :=
      if input.onHand <= 0 then OutOfStock
      else if target > 0 && shortfall > 0 then OrderToday
      else NoForecast;
    Decision(status, onOrder, target, 0, recommended, stockout,
             Explanation(M0, input.onHand, onOrder, position, 0, 0, target, ClampZero(shortfall), recommended,
                         input.window.d1, input.window.d2, input.window.orderBy, DaysTo(input), 0.0, 0.0,
                         input.window.CanWait()))
  }

  /** z * sigma * sqrt(n), in thousandths. */
  function Buffer(z: real, sigma: real, root: real): Qty { FromReal(z * sigma * root) }

  function SafetyStock(input: Input): Qty {
    Buffer(ZFactor(input.serviceLevel), input.forecast.sigma, input.root)
  }

  function NeedUntilD2(input: Input): Qty {
    NeedToday(input) + NeedOver(input.forecast, input.today + 1, input.window.d2)
  }

  function Decide(input: Input): Decision {
    var onOrder := IncomingBefore(input.incoming, input.window.d2);
    Conclude(input, onOrder, Stockout(input), NeedUntilD2(input), SafetyStock(input))
  }

  /** The decision once the sums over days and the safety stock are known. */
  function Conclude(input: Input, onOrder: Qty, stockout: Option<Day>, need: Qty, safety: Qty): Decision {
    var position := input.onHand + onOrder;
    if input.forecast.model == M0 then DecideManual(input, onOrder, position, stockout)
    else
      var target := need + safety;
      var shortfall := target - position;
      var recommended := Recommend(shortfall, input.minOrder, input.pack);
      Decision(Classify(input, position, target, stockout), onOrder, target, safety, recommended, stockout,
               Explanation(input.forecast.model, input.onHand, onOrder, position, need, safety, target,
                           ClampZero(shortfall), recommended, input.window.d1, input.window.d2, input.window.orderBy,
                           DaysTo(input), input.forecast.sigma, ZFactor(input.serviceLevel), input.window.CanWait()))
  }

  // ---- The loops ----

  method SumIncomingBefore(ds: seq<Delivery>, day: Day) returns (total: Qty)
    ensures total == IncomingBefore(ds, day)
  {
    total := 0;
    for i := 0 to |ds|
      invariant total + IncomingBefore(ds[i..], day) == IncomingBefore(ds, day)
    {
      if ds[i].day < day {
        total := total + ds[i].qty;
      }
    }
  }

  method ProjectStockout(input: Input) returns (day: Option<Day>)
    ensures day == Stockout(input)
  {
    var balance := input.onHand;
    var horizon := |input.forecast.points|;
    for i := 0 to horizon
      invariant balance == if i == 0 then input.onHand else BalanceAfter(input, i - 1)
      invariant Stockout(input) == StockoutFrom(input, i)
    {
      var today := input.today + i;
      ghost var before := balance;
      for j := 0 to |input.incoming|
        invariant balance + ArrivingOn(input.incoming[j..], today) == before + ArrivingOn(input.incoming, today)
      {
        if input.incoming[j].day == today {
          balance := balance + input.incoming[j].qty;
        }
      }
      var need := FindPoint(input.forecast.points, today);
      if i == 0 {
        need := ClampZero(need - input.consumedToday);
      }
      balance := balance - need;
      if balance < 0 {
        return Some(today);
      }
    }
    return None;
  }

  method ComputeDecision(input: Input) returns (d: Decision)
    ensures d == Decide(input)
  {
    var onOrder := SumIncomingBefore(input.incoming, input.window.d2);
    var stockout := ProjectStockout(input);
    var today := FindPoint(input.forecast.points, input.today);
    var needRest := 0;
    var day := input.today + 1;
    while day < input.window.d2
      invariant input.today + 1 <= day && (day <= input.window.d2 || day == input.today + 1)
      invariant needRest == NeedOver(input.forecast, input.today + 1, day)
    {
      var q := FindPoint(input.forecast.points, day);
      needRest := needRest + q;
      day := day + 1;
    }
    d := Conclude(input, onOrder, stockout, ClampZero(today - input.consumedToday) + needRest, SafetyStock(input));
  }

  // ---- Deliveries count only through what arrives each day ----

  lemma {:induction false} BeforeNextDay(ds: seq<Delivery>, day: Day)
    ensures IncomingBefore(ds, day + 1) == IncomingBefore(ds, day) + ArrivingOn(ds, day)
  {
    if ds != [] { BeforeNextDay(ds[1..], day); }
  }

  function Earlier(ds: seq<Delivery>, day: Day): (lo: Day)
    ensures lo <= day && IncomingBefore(ds, lo) == 0
    ensures forall d :: d <= lo ==> IncomingBefore(ds, d) == 0
  {
    if ds == [] then day
    else var lo := Earlier(ds[1..], day); if ds[0].day < lo then ds[0].day else lo
  }

  lemma {:induction false} ArrivalsBound(a: seq<Delivery>, b: seq<Delivery>, lo: Day, day: Day)
    requires lo <= day && IncomingBefore(a, lo) == 0 == IncomingBefore(b, lo)
    requires forall d :: ArrivingOn(a, d) <= ArrivingOn(b, d)
    ensures IncomingBefore(a, day) <= IncomingBefore(b, day)
    decreases day - lo
  {
    if lo < day {
      ArrivalsBound(a, b, lo, day - 1);
      BeforeNextDay(a, day - 1);
      BeforeNextDay(b, day - 1);
    }
  }

  /** More arriving on every single day means no less arriving before any day. */
  lemma MoreArrives(a: seq<Delivery>, b: seq<Delivery>, day: Day)
    requires forall d :: ArrivingOn(a, d) <= ArrivingOn(b, d)
    ensures IncomingBefore(a, day) <= IncomingBefore(b, day)
  {
    var x, y := Earlier(a, day), Earlier(b, day);
    ArrivalsBound(a, b, if x < y then x else y, day);
  }

  lemma {:induction false} SameBalances(a: Input, b: Input, i: nat)
    requires b == a.(incoming := b.incoming)
    requires forall d :: ArrivingOn(a.incoming, d) == ArrivingOn(b.incoming, d)
    ensures BalanceAfter(a, i) == BalanceAfter(b, i)
  {
    if i > 0 { SameBalances(a, b, i - 1); }
  }

  lemma {:induction false} SameStockout(a: Input, b: Input, i: nat)
    requires b.today == a.today && b.forecast == a.forecast
    requires forall k: nat :: k < |a.forecast.points| ==> BalanceAfter(a, k) == BalanceAfter(b, k)
    ensures StockoutFrom(a, i) == StockoutFrom(b, i)
    decreases |a.forecast.points| - i
  {
    if i < |a.forecast.points| { SameStockout(a, b, i + 1); }
  }

  /** Need and safety stock do not depend on stock or deliveries. */
  lemma SameNeed(a: Input, b: Input)
    requires b == a.(onHand := b.onHand, incoming := b.incoming)
    ensures NeedUntilD2(a) == NeedUntilD2(b) && SafetyStock(a) == SafetyStock(b)
  {
  }

  /** A decision depends on the pending deliveries only through the total of each day:
      neither their order nor their grouping matters. */
  lemma DecideByDayTotals(a: Input, b: Input)
    requires b == a.(incoming := b.incoming)
    requires forall d :: ArrivingOn(a.incoming, d) == ArrivingOn(b.incoming, d)
    ensures Decide(a) == Decide(b)
  {
    MoreArrives(a.incoming, b.incoming, a.window.d2);
    MoreArrives(b.incoming, a.incoming, a.window.d2);
    forall k: nat ensures BalanceAfter(a, k) == BalanceAfter(b, k) { SameBalances(a, b, k); }
    SameStockout(a, b, 0);
    SameNeed(a, b);
    SameConclusion(a, b, IncomingBefore(a.incoming, a.window.d2), Stockout(a), NeedUntilD2(a), SafetyStock(a));
  }

  lemma SameConclusion(a: Input, b: Input, onOrder: Qty, stockout: Option<Day>, need: Qty, safety: Qty)
    requires b == a.(incoming := b.incoming)
    ensures Conclude(a, onOrder, stockout, need, safety) == Conclude(b, onOrder, stockout, need, safety)
  {
  }

  // ---- Monotonicity ----

  /** `b` is `a` with at least as much stock, now and arriving on each day. */
  ghost predicate NoWorse(a: Input, b: Input) {
    && b == a.(onHand := b.onHand, incoming := b.incoming)
    && a.onHand <= b.onHand
    && forall d :: ArrivingOn(a.incoming, d) <= ArrivingOn(b.incoming, d)
  }

  /** Stock runs out no earlier. */
  predicate NoEarlier(a: Option<Day>, b: Option<Day>) {
    b.None? || (a.Some? && a.value <= b.value)
  }

  lemma {:induction false} HigherBalances(a: Input, b: Input, i: nat)
    requires NoWorse(a, b)
    ensures BalanceAfter(a, i) <= BalanceAfter(b, i)
  {
    if i > 0 { HigherBalances(a, b, i - 1); }
  }

  lemma {:induction false} LaterStockout(a: Input, b: Input, i: nat)
    requires NoWorse(a, b)
    ensures NoEarlier(StockoutFrom(a, i), StockoutFrom(b, i))
    ensures StockoutFrom(b, i).Some? ==> StockoutFrom(b, i).value >= b.today + i
    decreases |a.forecast.points| - i
  {
    if i < |a.forecast.points| {
      HigherBalances(a, b, i);
      LaterStockout(a, b, i + 1);
    }
  }

  lemma RecommendMonotone(x: Qty, y: Qty, minOrder: Qty, pack: Qty)
    requires x <= y
    ensures 0 <= Recommend(x, minOrder, pack) <= Recommend(y, minOrder, pack)
  {
    if x > 0 { CeilToMonotone(Max(x, minOrder), Max(y, minOrder), pack); }
    if x > 0 { CeilToNonNegative(Max(x, minOrder), pack); }
    if y > 0 { CeilToNonNegative(Max(y, minOrder), pack); }
  }

  lemma ConcludeMonotone(a: Input, b: Input, x: Qty, y: Qty, s: Option<Day>, t: Option<Day>, need: Qty, safety: Qty)
    requires b == a.(onHand := b.onHand, incoming := b.incoming)
    requires a.onHand <= b.onHand && x <= y && NoEarlier(s, t)
    ensures
      var p, q := Conclude(a, x, s, need, safety), Conclude(b, y, t, need, safety);
      q.recommendedQty <= p.recommendedQty && !q.status.WorseThan(p.status)
  {
    var target := if a.forecast.model == M0 then a.manualMin else need + safety;
    RecommendMonotone(target - (b.onHand + y), target - (a.onHand + x), a.minOrder, a.pack);
  }

  /** More stock never makes any part of the decision worse. */
  lemma DecideMonotone(a: Input, b: Input)
    requires NoWorse(a, b)
    ensures NoEarlier(Decide(a).stockoutDate, Decide(b).stockoutDate)
    ensures Decide(b).recommendedQty <= Decide(a).recommendedQty
    ensures !Decide(b).status.WorseThan(Decide(a).status)
  {
    LaterStockout(a, b, 0);
    MoreArrives(a.incoming, b.incoming, a.window.d2);
    SameNeed(a, b);
    ConcludeMonotone(a, b, IncomingBefore(a.incoming, a.window.d2), IncomingBefore(b.incoming, a.window.d2),
                     Stockout(a), Stockout(b), NeedUntilD2(a), SafetyStock(a));
  }

  lemma {:induction false} ArrivingWith(pre: seq<Delivery>, dv: Delivery, post: seq<Delivery>, day: Day)
    ensures ArrivingOn(pre + [dv] + post, day)
         == ArrivingOn(pre + post, day) + if dv.day == day then dv.qty else 0
  {
    if pre == [] {
      assert pre + [dv] + post == [dv] + post && pre + post == post;
    } else {
      assert (pre + [dv] + post)[1..] == pre[1..] + [dv] + post;
      assert (pre + post)[1..] == pre[1..] + post;
      ArrivingWith(pre[1..], dv, post, day);
    }
  }

  lemma {:induction false} BeforeWith(pre: seq<Delivery>, dv: Delivery, post: seq<Delivery>, day: Day)
    ensures IncomingBefore(pre + [dv] + post, day)
         == IncomingBefore(pre + post, day) + if dv.day < day then dv.qty else 0
  {
    if pre == [] {
      assert pre + [dv] + post == [dv] + post && pre + post == post;
    } else {
      assert (pre + [dv] + post)[1..] == pre[1..] + [dv] + post;
      assert (pre + post)[1..] == pre[1..] + post;
      BeforeWith(pre[1..], dv, post, day);
    }
  }

  /** Raising the stock or slipping one delivery in anywhere improves every part. */
  lemma ExtraStockHelps(input: Input, extra: Qty, pre: seq<Delivery>, dv: Delivery, post: seq<Delivery>)
    requires extra >= 0 && dv.qty >= 0 && input.incoming == pre + post
    ensures
      var more := Decide(input.(onHand := input.onHand + extra, incoming := pre + [dv] + post));
      && NoEarlier(Decide(input).stockoutDate, more.stockoutDate)
      && more.recommendedQty <= Decide(input).recommendedQty
      && !more.status.WorseThan(Decide(input).status)
  {
    var b := input.(onHand := input.onHand + extra, incoming := pre + [dv] + post);
    forall d ensures ArrivingOn(input.incoming, d) <= ArrivingOn(b.incoming, d) { ArrivingWith(pre, dv, post, d); }
    DecideMonotone(input, b);
  }

  // ---- Following the advice ----

  /** The order the decision asks for, due on D1. */
  function Follow(input: Input): Input {
    input.(incoming := input.incoming + [Delivery(input.window.d1, Decide(input).recommendedQty)])
  }

  ghost predicate NonNegativeForecast(f: Forecast) { forall day :: f.On(day) >= 0 }

  /** Nothing pending before D2 is overdue or due after D1. */
  predicate DueByD1(input: Input) {
    forall dv :: dv in input.incoming && dv.day < input.window.d2 ==> input.today <= dv.day <= input.window.d1
  }

  /** The rounding up to packs does not lose anything (see RemainderSurvives). */
  predicate PackExact(input: Input) { input.pack <= 2 * QUOTIENT_SCALE }

  lemma RecommendCovers(shortfall: Qty, minOrder: Qty, pack: Qty)
    requires pack <= 2 * QUOTIENT_SCALE
    ensures shortfall <= Recommend(shortfall, minOrder, pack)
    ensures Recommend(shortfall, minOrder, pack) > 0 <==> shortfall > 0
  {
    if shortfall > 0 && pack > 0 { CeilToLeastMultiple(Max(shortfall, minOrder), pack); }
  }

  lemma {:induction false} BalanceAsSums(input: Input, i: nat)
    requires IncomingBefore(input.incoming, input.today) == 0
    ensures BalanceAfter(input, i) == input.onHand + IncomingBefore(input.incoming, input.today + i + 1)
                                  - NeedToday(input) - NeedOver(input.forecast, input.today + 1, input.today + i + 1)
  {
    BeforeNextDay(input.incoming, input.today + i);
    if i > 0 { BalanceAsSums(input, i - 1); }
  }

  lemma {:induction false} NeedGrows(f: Forecast, lo: Day, mid: Day, hi: Day)
    requires NonNegativeForecast(f) && mid <= hi
    ensures NeedOver(f, lo, mid) <= NeedOver(f, lo, hi)
    decreases hi - mid
  {
    if mid < hi { NeedGrows(f, lo, mid, hi - 1); }
  }

  lemma {:induction false} SameBefore(ds: seq<Delivery>, lo: Day, hi: Day)
    requires lo <= hi && forall dv :: dv in ds ==> dv.day < lo || dv.day >= hi
    ensures IncomingBefore(ds, lo) == IncomingBefore(ds, hi)
  {
    if ds != [] { SameBefore(ds[1..], lo, hi); }
  }

  lemma {:induction false} NothingBefore(ds: seq<Delivery>, day: Day)
    requires forall dv :: dv in ds ==> dv.day >= day
    ensures IncomingBefore(ds, day) == 0
  {
    if ds != [] { NothingBefore(ds[1..], day); }
  }

  /** From D1 to the eve of D2 the followed advice leaves at least the safety stock. */
  lemma AdviceCovers(input: Input, i: nat)
    requires input.forecast.model != M0 && NonNegativeForecast(input.forecast) && DueByD1(input) && PackExact(input)
    requires input.today <= input.window.d1 <= input.today + i < input.window.d2
    ensures BalanceAfter(Follow(input), i) >= SafetyStock(input)
  {
    var f := Follow(input);
    var d2 := input.window.d2;
    var q := Decide(input).recommendedQty;
    forall d ensures IncomingBefore(f.incoming, d) == IncomingBefore(input.incoming, d) + if input.window.d1 < d then q else 0 {
      assert input.incoming + [] == input.incoming;
      assert f.incoming == input.incoming + [Delivery(input.window.d1, q)] + [];
      BeforeWith(input.incoming, Delivery(input.window.d1, q), [], d);
    }
    NothingBefore(input.incoming, input.today);
    BalanceAsSums(f, i);
    SameBefore(input.incoming, input.today + i + 1, d2);
    NeedGrows(input.forecast, input.today + 1, input.today + i + 1, d2);
    var shortfall := NeedUntilD2(input) + SafetyStock(input) - (input.onHand + IncomingBefore(input.incoming, d2));
    RecommendCovers(shortfall, input.minOrder, input.pack);
  }

  lemma SafetyNonNegative(input: Input)
    ensures SafetyStock(input) >= 0
  {
  }

  lemma {:induction false} NoStockoutBefore(input: Input, i: nat, day: Day)
    requires forall k: nat :: i <= k < |input.forecast.points| && input.today + k < day ==> BalanceAfter(input, k) >= 0
    ensures var s := StockoutFrom(input, i); s.Some? ==> s.value >= day
    decreases |input.forecast.points| - i
  {
    if i < |input.forecast.points| { NoStockoutBefore(input, i + 1, day); }
  }

  lemma {:induction false} StockoutBefore(input: Input, i: nat, k: nat)
    requires i <= k < |input.forecast.points| && BalanceAfter(input, k) < 0
    ensures var s := StockoutFrom(input, i); s.Some? && s.value <= input.today + k
    decreases k - i
  {
    if i < k { StockoutBefore(input, i + 1, k); }
  }

  lemma FollowNoWorse(input: Input)
    ensures NoWorse(input, Follow(input))
  {
    var q := Decide(input).recommendedQty;
    var x := input.onHand + IncomingBefore(input.incoming, input.window.d2);
    RecommendMonotone(input.manualMin - x, input.manualMin - x, input.minOrder, input.pack);
    var short := NeedUntilD2(input) + SafetyStock(input) - x;
    RecommendMonotone(short, short, input.minOrder, input.pack);
    forall d ensures ArrivingOn(input.incoming, d) <= ArrivingOn(Follow(input).incoming, d) {
      assert input.incoming + [] == input.incoming;
      assert Follow(input).incoming == input.incoming + [Delivery(input.window.d1, q)] + [];
      ArrivingWith(input.incoming, Delivery(input.window.d1, q), [], d);
    }
  }

  ghost predicate Advisable(input: Input) {
    && input.forecast.model != M0
    && NonNegativeForecast(input.forecast)
    && DueByD1(input)
    && PackExact(input)
    && input.today <= input.window.d1 <= input.window.d2
    && !Decide(input).status.IsRed()
  }

  /** Ordering what is recommended, due on D1, keeps the item in stock until D2. */
  lemma AdviceWorks(input: Input)
    requires Advisable(input)
    ensures var s := Stockout(Follow(input)); s.Some? ==> s.value >= input.window.d2
  {
    var f := Follow(input);
    FollowNoWorse(input);
    SafetyNonNegative(input);
    forall k: nat | k < |f.forecast.points| && f.today + k < input.window.d2
      ensures BalanceAfter(f, k) >= 0
    {
      if input.today + k < input.window.d1 {
        HigherBalances(input, f, k);
        if BalanceAfter(input, k) < 0 { StockoutBefore(input, 0, k); }
      } else {
        AdviceCovers(input, k);
      }
    }
    NoStockoutBefore(f, 0, input.window.d2);
  }

  /** After following a non-empty recommendation the next decision recommends nothing
      exactly when waiting would have cost a day; then the status is green.
      When D1 = D2 the new order is not counted and the advice repeats itself. */
  lemma AdviceSettles(input: Input)
    requires Advisable(input) && Decide(input).recommendedQty > 0
    ensures Decide(Follow(input)).recommendedQty == 0 <==> input.window.d1 < input.window.d2
    ensures input.window.d1 < input.window.d2 ==> Decide(Follow(input)).status == Ok
    ensures input.window.d1 == input.window.d2 ==>
              Decide(Follow(input)).recommendedQty == Decide(input).recommendedQty
  {
    var f := Follow(input);
    var q := Decide(input).recommendedQty;
    var d2 := input.window.d2;
    assert input.incoming + [] == input.incoming;
    assert f.incoming == input.incoming + [Delivery(input.window.d1, q)] + [];
    BeforeWith(input.incoming, Delivery(input.window.d1, q), [], d2);
    SameNeed(input, f);
    AdviceWorks(input);
    Settles(input, f, IncomingBefore(input.incoming, d2), IncomingBefore(f.incoming, d2), Stockout(input), Stockout(f),
            NeedUntilD2(input), SafetyStock(input));
  }

  /** Both deliveries on one day, and only the safety stock is missing. */
  const REPEATING := Input(0, Window(0, 1, 1, 0, false), 1000, [], Forecast(M1, [], 5.0), 0, 95, 0, 0, 0, 1.0)

  lemma RepeatingSafety()
    ensures SafetyStock(REPEATING) == 8250
  {
    hide RoundReal, FromReal, MulReal;
    EightAndAQuarter();
    var x := ZFactor(REPEATING.serviceLevel) * REPEATING.forecast.sigma * REPEATING.root;
    assert x == 8.25;
  }

  lemma RepeatingNeed()
    ensures NeedUntilD2(REPEATING) == 0
  {
  }

  lemma EightAndAQuarter()
    ensures FromReal(8.25) == 8250
  {
    assert ONE as real * 8.25 == 8250.0;
    assert RoundReal(8250.0) == 8250 by { assert (8250.0 + 0.5).Floor == 8250; }
  }

  /** A concrete case: the advised order is placed and the same order is advised again. */
  lemma AdviceRepeats()
    ensures Decide(REPEATING).status == Ok && Decide(REPEATING).recommendedQty == 7250
    ensures Decide(Follow(REPEATING)).recommendedQty == 7250
  {
    hide SafetyStock, NeedUntilD2;
    RepeatingSafety();
    RepeatingNeed();
    var d := Conclude(REPEATING, 0, None, 0, 8250);
    assert d.status == Ok && d.recommendedQty == 7250;
    assert Decide(REPEATING) == d;
    assert Advisable(REPEATING);
    AdviceSettles(REPEATING);
  }

  lemma Settles(input: Input, f: Input, x: Qty, y: Qty, s: Option<Day>, t: Option<Day>, need: Qty, safety: Qty)
    requires f == input.(incoming := f.incoming) && input.forecast.model != M0 && PackExact(input)
    requires input.window.d1 <= input.window.d2
    requires t.Some? ==> t.value >= input.window.d2
    requires var p := Conclude(input, x, s, need, safety);
      && !p.status.IsRed() && p.recommendedQty > 0
      && y == x + if input.window.d1 < input.window.d2 then p.recommendedQty else 0
    ensures
      var p, q := Conclude(input, x, s, need, safety), Conclude(f, y, t, need, safety);
      && (q.recommendedQty == 0 <==> input.window.d1 < input.window.d2)
      && (input.window.d1 < input.window.d2 ==> q.status == Ok)
      && (input.window.d1 == input.window.d2 ==> q.recommendedQty == p.recommendedQty)
  {
    RecommendCovers(need + safety - (input.onHand + x), input.minOrder, input.pack);
  }

  // ---- What a decision says ----

  lemma {:induction false} FirstShortage(input: Input, i: nat)
    ensures
      var s, n := StockoutFrom(input, i), |input.forecast.points|;
      && (s.Some? ==> input.today + i <= s.value < input.today + n && BalanceAfter(input, s.value - input.today) < 0)
      && forall k: nat :: i <= k < n && (s.Some? ==> input.today + k < s.value) ==> BalanceAfter(input, k) >= 0
    decreases |input.forecast.points| - i
  {
    if i < |input.forecast.points| { FirstShortage(input, i + 1); }
  }

  /** Some day of the horizon before D1 is projected to end below zero. */
  ghost predicate ShortBeforeD1(input: Input) {
    exists k: nat :: k < |input.forecast.points| && input.today + k < input.window.d1 && BalanceAfter(input, k) < 0
  }

  /** When each status holds, with a forecast and without. What is recommended is the least
      order in whole packages that reaches the target and the supplier's minimum. */
  lemma DecisionMeans(input: Input)
    requires PackExact(input)
    ensures
      var d := Decide(input);
      var missing := d.targetLevel - (input.onHand + d.onOrder);
      var least := if missing > input.minOrder then missing else input.minOrder;
      && (d.status == OutOfStock <==> input.onHand <= 0)
      && (input.forecast.model != M0 ==>
            && (d.status == Critical <==> input.onHand > 0 && ShortBeforeD1(input))
            && (d.status == OrderToday <==>
                  input.onHand > 0 && !ShortBeforeD1(input) && missing > 0 && input.window.d1 != input.window.d2)
            && (d.status == Ok <==>
                  input.onHand > 0 && !ShortBeforeD1(input) && (missing <= 0 || input.window.d1 == input.window.d2))
            && d.status != NoForecast)
      && (input.forecast.model == M0 ==>
            && d.targetLevel == input.manualMin
            && (d.status == OrderToday <==> input.onHand > 0 && input.manualMin > 0 && missing > 0)
            && (d.status == NoForecast <==> input.onHand > 0 && (input.manualMin <= 0 || missing <= 0))
            && d.status != Critical && d.status != Ok)
      && (d.recommendedQty > 0 <==> missing > 0)
      && (missing > 0 && input.pack > 0 ==> LeastMultiple(d.recommendedQty, least, input.pack))
      && (missing > 0 && input.pack <= 0 ==> d.recommendedQty == least)
  {
    hide NeedUntilD2, SafetyStock, IncomingBefore, BalanceAfter, Stockout, ShortBeforeD1;
    var onOrder, stockout, need, safety := IncomingBefore(input.incoming, input.window.d2), Stockout(input), NeedUntilD2(input), SafetyStock(input);
    ShortIff(input);
    PlanIsLeast(input, onOrder, stockout, need, safety);
  }

  lemma ShortIff(input: Input)
    ensures ShortBeforeD1(input) <==> Stockout(input).Some? && Stockout(input).value < input.window.d1
  {
    FirstShortage(input, 0);
    var s := Stockout(input);
    assert s.Some? ==> BalanceAfter(input, s.value - input.today) < 0;
  }

  lemma PlanIsLeast(input: Input, onOrder: Qty, stockout: Option<Day>, need: Qty, safety: Qty)
    requires PackExact(input)
    ensures
      var d := Conclude(input, onOrder, stockout, need, safety);
      var missing := d.targetLevel - (input.onHand + d.onOrder);
      var least := if missing > input.minOrder then missing else input.minOrder;
      && (d.recommendedQty > 0 <==> missing > 0)
      && (missing > 0 && input.pack > 0 ==> LeastMultiple(d.recommendedQty, least, input.pack))
      && (missing > 0 && input.pack <= 0 ==> d.recommendedQty == least)
  {
    var d := Conclude(input, onOrder, stockout, need, safety);
    var missing := d.targetLevel - (input.onHand + d.onOrder);
    RecommendCovers(missing, input.minOrder, input.pack);
    if missing > 0 && input.pack > 0 { CeilToLeastMultiple(Max(missing, input.minOrder), input.pack); }
  }

  // ---- One delivery dropped ----

  ghost predicate NoShortageBefore(input: Input, k: nat) { forall j: nat :: j < k ==> BalanceAfter(input, j) >= 0 }

  /** From the day a delivery is due, each projected day up to the first shortage is on the
      same side of zero without it: for a positive quantity, the balance covers it. An
      overdue delivery is never projected. */
  ghost predicate Spared(input: Input, dv: Delivery) {
    forall k: nat :: k < |input.forecast.points| && input.today <= dv.day <= input.today + k && NoShortageBefore(input, k) ==>
      (BalanceAfter(input, k) >= 0 <==> BalanceAfter(input, k) >= dv.qty)
  }

  lemma {:induction false} BalanceWithout(input: Input, pre: seq<Delivery>, dv: Delivery, post: seq<Delivery>, k: nat)
    requires input.incoming == pre + [dv] + post
    ensures BalanceAfter(input.(incoming := pre + post), k)
         == BalanceAfter(input, k) - if input.today <= dv.day <= input.today + k then dv.qty else 0
  {
    ArrivingWith(pre, dv, post, input.today + k);
    if k > 0 { BalanceWithout(input, pre, dv, post, k - 1); }
  }

  lemma {:induction false} SameSides(a: Input, b: Input, i: nat)
    requires b.today == a.today && b.forecast == a.forecast && NoShortageBefore(a, i)
    requires forall k: nat :: i <= k < |a.forecast.points| && NoShortageBefore(a, k) ==>
               (BalanceAfter(a, k) >= 0 <==> BalanceAfter(b, k) >= 0)
    ensures StockoutFrom(a, i) == StockoutFrom(b, i)
    decreases |a.forecast.points| - i
  {
    if i < |a.forecast.points| && BalanceAfter(a, i) >= 0 { SameSides(a, b, i + 1); }
  }

  lemma SidesOfSame(a: Input, b: Input, k: nat)
    requires b.today == a.today && b.forecast == a.forecast && Stockout(a) == Stockout(b)
    requires k < |a.forecast.points| && NoShortageBefore(a, k)
    ensures BalanceAfter(a, k) >= 0 <==> BalanceAfter(b, k) >= 0
  {
    hide BalanceAfter, StockoutFrom;
    FirstShortage(a, 0);
    FirstShortage(b, 0);
    var s := Stockout(a);
    assert s.Some? ==> BalanceAfter(a, s.value - a.today) < 0;
  }

  /** The stockout date does not need a delivery exactly when it is spared. */
  lemma StockoutStaysIff(input: Input, pre: seq<Delivery>, dv: Delivery, post: seq<Delivery>)
    requires input.incoming == pre + [dv] + post
    ensures Stockout(input) == Stockout(input.(incoming := pre + post)) <==> Spared(input, dv)
  {
    hide BalanceAfter, StockoutFrom;
    var without := input.(incoming := pre + post);
    forall k: nat ensures BalanceAfter(without, k)
         == BalanceAfter(input, k) - if input.today <= dv.day <= input.today + k then dv.qty else 0 {
      BalanceWithout(input, pre, dv, post, k);
    }
    if Spared(input, dv) { SameSides(input, without, 0); }
    if Stockout(input) == Stockout(without) {
      forall k: nat | k < |input.forecast.points| && NoShortageBefore(input, k)
        ensures BalanceAfter(input, k) >= 0 <==> BalanceAfter(without, k) >= 0
      {
        SidesOfSame(input, without, k);
      }
    }
  }

  /** A decision notices that a delivery disappeared exactly when the delivery was due
      before D2 or some projected day needs it. */
  lemma DroppedDelivery(input: Input, pre: seq<Delivery>, dv: Delivery, post: seq<Delivery>)
    requires input.incoming == pre + [dv] + post && dv.qty != 0
    ensures
      var without := input.(incoming := pre + post);
      Decide(input) == Decide(without) <==> dv.day >= input.window.d2 && Spared(input, dv)
  {
    hide BalanceAfter, StockoutFrom, Spared;
    BeforeWith(pre, dv, post, input.window.d2);
    var without := input.(incoming := pre + post);
    SameNeed(input, without);
    StockoutStaysIff(input, pre, dv, post);
    SameConclusion(input, without, IncomingBefore(input.incoming, input.window.d2), Stockout(input), NeedUntilD2(input), SafetyStock(input));
  }
}
