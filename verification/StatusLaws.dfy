/** What a recalculation stores, in terms of the item's purchase terms, the stored forecast,
    the orders and the journal. */
module StatusLaws {
  import opened Options
  import opened Quantity
  import opened Identifiers
  import opened DeliveryWindow
  import opened Reorder
  import opened Catalog
  import opened Journal
  import opened Shop
  import opened DecisionLaws

  // ---- Sums over rows ----

  function LinesQty(lines: seq<Line>, item: Uuid): Qty {
    if lines == [] then 0
    else LinesQty(lines[..|lines| - 1], item) + if lines[|lines| - 1].item == item then lines[|lines| - 1].ordered else 0
  }

  /** What sent orders with an expected day before this one bring of an item. */
  function PendingBefore(orders: seq<Order>, item: Uuid, day: Day): Qty {
    if orders == [] then 0
    else
      var o := orders[|orders| - 1];
      PendingBefore(orders[..|orders| - 1], item, day)
        + if o.status == Sent && o.expected.Some? && o.expected.value < day then LinesQty(o.lines, item) else 0
  }

  /** The stored forecast of the days [lo, hi). */
  function StoredIn(points: seq<Point>, lo: Day, hi: Day): Qty {
    if points == [] then 0
    else StoredIn(points[..|points| - 1], lo, hi) + if lo <= points[|points| - 1].day < hi then points[|points| - 1].qty else 0
  }

  /** How many stored forecast days there are from this one on. */
  function StoredDays(points: seq<Point>, day: Day): nat {
    if points == [] then 0 else StoredDays(points[..|points| - 1], day) + if points[|points| - 1].day >= day then 1 else 0
  }

  /** Usage, write-offs and count corrections of an item on a day, as a positive quantity. */
  function Taken(journal: seq<Movement>, item: Uuid, day: Day): Qty {
    if journal == [] then 0
    else
      var m := journal[|journal| - 1];
      var counts := m.item == item && (m.kind == Usage || m.kind == Writeoff || m.kind == Adjustment) && DayOf(m.at) == day;
      Taken(journal[..|journal| - 1], item, day) - if counts then m.qty else 0
  }

  /** One stored row per day, as its key demands. */
  predicate DistinctDays(points: seq<Point>) {
    forall i, j :: 0 <= i < j < |points| ==> points[i].day != points[j].day
  }

  // ---- The sums the decision uses ----

  lemma {:induction false} LinesPending(lines: seq<Line>, due: Day, item: Uuid, day: Day)
    ensures IncomingBefore(LineDeliveries(lines, due, item), day) == if due < day then LinesQty(lines, item) else 0
  {
    if lines != [] {
      var init, last := lines[..|lines| - 1], lines[|lines| - 1];
      LinesPending(init, due, item, day);
      LineDeliveriesMore(init, last, due, item);
      assert lines == init + [last];
      var more := if last.item == item then [Delivery(due, last.ordered)] else [];
      BeforeSplits(LineDeliveries(init, due, item), more, day);
      assert more != [] ==> more[1..] == [];
    }
  }

  lemma {:induction false} LineDeliveriesMore(lines: seq<Line>, last: Line, due: Day, item: Uuid)
    ensures LineDeliveries(lines + [last], due, item)
         == LineDeliveries(lines, due, item) + if last.item == item then [Delivery(due, last.ordered)] else []
  {
    if lines == [] {
      assert (lines + [last])[1..] == [];
    } else {
      assert (lines + [last])[1..] == lines[1..] + [last];
      LineDeliveriesMore(lines[1..], last, due, item);
    }
  }

  lemma {:induction false} InTransitMore(orders: seq<Order>, o: Order, item: Uuid)
    ensures InTransit(orders + [o], item) == InTransit(orders, item) + OrderDeliveries(o, item)
  {
    if orders == [] {
      assert (orders + [o])[1..] == [];
    } else {
      assert (orders + [o])[1..] == orders[1..] + [o];
      InTransitMore(orders[1..], o, item);
    }
  }

  lemma {:induction false} OrdersPending(orders: seq<Order>, item: Uuid, day: Day)
    ensures IncomingBefore(InTransit(orders, item), day) == PendingBefore(orders, item, day)
  {
    if orders != [] {
      var init, o := orders[..|orders| - 1], orders[|orders| - 1];
      OrdersPending(init, item, day);
      assert orders == init + [o];
      InTransitMore(init, o, item);
      BeforeSplits(InTransit(init, item), OrderDeliveries(o, item), day);
      if o.expected.Some? { LinesPending(o.lines, o.expected.value, item, day); }
    }
  }

  lemma {:induction false} JournalTaken(journal: seq<Movement>, item: Uuid, day: Day)
    ensures ConsumedOn(journal, item, day) == Taken(journal, item, day)
  {
    if journal != [] { JournalTaken(journal[..|journal| - 1], item, day); }
  }

  lemma {:induction false} FromMore(points: seq<Point>, p: Point, day: Day)
    ensures From(points + [p], day) == From(points, day) + if p.day >= day then [p] else []
  {
    if points == [] {
      assert (points + [p])[1..] == [];
    } else {
      var first := if points[0].day >= day then [points[0]] else [];
      assert (points + [p])[1..] == points[1..] + [p];
      FromMore(points[1..], p, day);
      JoinPoints(first, From(points[1..], day), if p.day >= day then [p] else []);
    }
  }

  lemma JoinPoints(a: seq<Point>, b: seq<Point>, c: seq<Point>)
    ensures a + (b + c) == a + b + c
  {
  }

  lemma {:induction false} FromCounts(points: seq<Point>, day: Day)
    ensures |From(points, day)| == StoredDays(points, day)
    ensures forall p :: p in From(points, day) <==> p in points && p.day >= day
  {
    if points != [] {
      var init, last := points[..|points| - 1], points[|points| - 1];
      FromCounts(init, day);
      assert points == init + [last];
      FromMore(init, last, day);
    }
  }

  /** The first row of a day is its only one. */
  lemma {:induction false} OnlyRow(points: seq<Point>, p: Point, day: Day)
    requires p in points && p.day == day && forall q :: q in points && q.day == day ==> q == p
    ensures PointOn(points, day) == p.qty
  {
    if points[0].day != day {
      assert p in points[1..] && forall q :: q in points[1..] ==> q in points;
      OnlyRow(points[1..], p, day);
    }
  }

  lemma {:induction false} NoRowOn(points: seq<Point>, day: Day)
    requires forall q :: q in points ==> q.day != day
    ensures PointOn(points, day) == 0
  {
    if points != [] { NoRowOn(points[1..], day); }
  }

  lemma {:induction false} StoredNothing(points: seq<Point>, day: Day)
    requires forall q :: q in points ==> q.day != day
    ensures StoredIn(points, day, day + 1) == 0
  {
    if points != [] {
      assert points[|points| - 1] in points && forall q :: q in points[..|points| - 1] ==> q in points;
      StoredNothing(points[..|points| - 1], day);
    }
  }

  /** A stored day counts with its row, and with nothing when it has none. */
  lemma {:induction false} StoredDay(points: seq<Point>, day: Day)
    requires DistinctDays(points)
    ensures forall q :: q in points && q.day == day ==> StoredIn(points, day, day + 1) == q.qty
    ensures (forall q :: q in points ==> q.day != day) ==> StoredIn(points, day, day + 1) == 0
  {
    if points != [] {
      var init, last := points[..|points| - 1], points[|points| - 1];
      StoredDay(init, day);
      if last.day == day {
        forall q | q in init ensures q.day != day { var i :| 0 <= i < |init| && init[i] == q; assert points[i] == q; }
      }
      forall q | q in points && q.day == day ensures StoredIn(points, day, day + 1) == q.qty { assert q in init || q == last; }
    }
  }

  /** From the first day on, looking a day up in the rows read gives what is stored for it. */
  lemma LookedUp(points: seq<Point>, first: Day, day: Day)
    requires DistinctDays(points) && day >= first
    ensures PointOn(From(points, first), day) == StoredIn(points, day, day + 1)
  {
    var read := From(points, first);
    FromCounts(points, first);
    StoredDay(points, day);
    if p :| p in points && p.day == day {
      assert p in read;
      forall q | q in read && q.day == day ensures q == p { SameRow(points, p, q); }
      OnlyRow(read, p, day);
    } else {
      NoRowOn(read, day);
    }
  }

  lemma SameRow(points: seq<Point>, p: Point, q: Point)
    requires DistinctDays(points) && p in points && q in points && p.day == q.day
    ensures p == q
  {
    var i :| 0 <= i < |points| && points[i] == p;
    var j :| 0 <= j < |points| && points[j] == q;
  }

  lemma {:induction false} StoredSplits(points: seq<Point>, lo: Day, mid: Day, hi: Day)
    requires lo <= mid <= hi
    ensures StoredIn(points, lo, hi) == StoredIn(points, lo, mid) + StoredIn(points, mid, hi)
  {
    if points != [] { StoredSplits(points[..|points| - 1], lo, mid, hi); }
  }

  lemma {:induction false} StoredNever(points: seq<Point>, lo: Day, hi: Day)
    requires hi <= lo
    ensures StoredIn(points, lo, hi) == 0
  {
    if points != [] { StoredNever(points[..|points| - 1], lo, hi); }
  }

  lemma {:induction false} NeedStored(f: Forecast, points: seq<Point>, first: Day, lo: Day, hi: Day)
    requires DistinctDays(points) && f.points == From(points, first) && first <= lo
    ensures NeedOver(f, lo, hi) == StoredIn(points, lo, hi)
    decreases hi - lo
  {
    if lo < hi {
      NeedStored(f, points, first, lo, hi - 1);
      LookedUp(points, first, hi - 1);
      StoredSplits(points, lo, hi - 1, hi);
    } else {
      StoredNever(points, lo, hi);
    }
  }

  // ---- The input, field by field ----

  /** Everything a decision about the item has to be made from. */
  ghost predicate MadeFrom(w: World, db: Db, it: Item, item: Uuid, input: Input) {
    && input.today == DayOf(w.now)
    && input.onHand == db.ledger.OnHand(item)
    && (forall day :: IncomingBefore(input.incoming, day) == PendingBefore(db.orders, item, day))
    && input.forecast.points == From(it.forecast, input.today)
    && input.forecast.model == (if StoredDays(it.forecast, input.today) == 0 || it.metricsModel.None? then M0 else it.metricsModel.value)
    && input.forecast.sigma == it.sigma
    && input.consumedToday == Taken(db.ledger.journal, item, input.today)
    && input.serviceLevel == it.serviceLevel && input.manualMin == it.manualMin
    && input.minOrder == it.minOrder && input.pack == it.pack
    && input.root == w.root(Larger(0, input.window.d2 - input.today))
    && WindowFor(w, it, input.window.d1, input.window.d2, input.window.orderBy)
  }

  /** With a supplier, the window of an order placed now; without one, tomorrow twice. */
  ghost predicate WindowFor(w: World, it: Item, d1: Day, d2: Day, orderBy: Moment) {
    match it.supplier
    case None => d1 == d2 == DayOf(w.now) + 1 && orderBy == w.now
    case Some(s) =>
      var late := !s.cutoff.Before(w.now);
      IsWindow(w.now, s, Window(DayOf(w.now) + (if late then 1 else 0), d1, d2, orderBy, late))
  }

  lemma InputFields(w: World, db: Db, item: Uuid)
    requires item in w.items
    ensures MadeFrom(w, db, w.items[item], item, InputOf(w, db.ledger, db.orders, item))
  {
    hide PendingBefore, Taken, WindowAt, IsWindow;
    var it, today := w.items[item], DayOf(w.now);
    forall day ensures IncomingBefore(InTransit(db.orders, item), day) == PendingBefore(db.orders, item, day) {
      OrdersPending(db.orders, item, day);
    }
    JournalTaken(db.ledger.journal, item, today);
    FromCounts(it.forecast, today);
    if it.supplier.Some? { SupplierWindow(w, it); }
  }

  lemma SupplierWindow(w: World, it: Item)
    requires it.supplier.Some?
    ensures var x := WindowAt(w.now, it.supplier.value); WindowFor(w, it, x.d1, x.d2, x.orderBy)
  {
    var s := it.supplier.value;
    var x := WindowAt(w.now, s);
    WindowAtIsWindow(w.now, s);
    assert x == Window(x.orderDay, x.d1, x.d2, x.orderBy, x.afterCutoff);
  }

  lemma Stored(w: World, db: Db, item: Uuid) returns (input: Input)
    requires Refresh(w, db, item).Done?
    ensures item in w.items && item in Refresh(w, db, item).value.statuses
    ensures Refresh(w, db, item).value.statuses[item].decision == Decide(input)
    ensures MadeFrom(w, db, w.items[item], item, input)
  {
    hide Decide;
    input := InputOf(w, db.ledger, db.orders, item);
    InputFields(w, db, item);
  }

  // ---- What is stored ----

  /** Stock, deliveries before D2, model, window and deadline. The deadline is stored only for
      an order that is due today from a supplier. */
  lemma StoredSituation(w: World, db: Db, item: Uuid)
    requires Refresh(w, db, item).Done?
    ensures
      var it, row := w.items[item], Refresh(w, db, item).value.statuses[item];
      var d, e := row.decision, row.decision.explanation;
      && e.onHand == db.ledger.OnHand(item)
      && d.onOrder == e.onOrder == PendingBefore(db.orders, item, e.d2)
      && e.model == (if StoredDays(it.forecast, DayOf(w.now)) == 0 || it.metricsModel.None? then M0 else it.metricsModel.value)
      && WindowFor(w, it, e.d1, e.d2, e.orderBy)
      && row.orderBy == if it.supplier.Some? && d.status == OrderToday then Some(e.orderBy) else None
  {
    hide Decide, PendingBefore, WindowFor, StoredDays;
    var input := Stored(w, db, item);
    ExplanationAgrees(input, ZFactor(input.serviceLevel));
    OnOrderShown(input);
  }

  lemma OnOrderShown(input: Input)
    ensures Decide(input).onOrder == IncomingBefore(input.incoming, input.window.d2)
  {
    hide IncomingBefore, Stockout, SafetyStock, NeedUntilD2, Recommend, Classify;
  }

  /** The recommendation is the least order in the item's packages that reaches its minimum
      order and what is missing; without a forecast the target is its manual minimum. */
  lemma StoredRecommendation(w: World, db: Db, item: Uuid)
    requires Refresh(w, db, item).Done? && w.items[item].pack <= 2 * QUOTIENT_SCALE
    ensures
      var it, d := w.items[item], Refresh(w, db, item).value.statuses[item].decision;
      var missing := d.targetLevel - (db.ledger.OnHand(item) + d.onOrder);
      var least := if missing > it.minOrder then missing else it.minOrder;
      && (d.recommendedQty > 0 <==> missing > 0)
      && (missing > 0 && it.pack > 0 ==> LeastMultiple(d.recommendedQty, least, it.pack))
      && (missing > 0 && it.pack <= 0 ==> d.recommendedQty == least)
      && (d.explanation.model == M0 ==> d.targetLevel == it.manualMin && d.safetyStock == 0)
  {
    hide Decide, LeastMultiple, ShortBeforeD1;
    var input := Stored(w, db, item);
    DecisionMeans(input);
    ExplanationAgrees(input, ZFactor(input.serviceLevel));
    ManualTarget(input);
  }

  lemma ManualTarget(input: Input)
    ensures input.forecast.model == M0 ==> Decide(input).safetyStock == 0
  {
    hide IncomingBefore, Stockout, Recommend;
  }

  /** With a forecast the target is what today still needs of its stored forecast, the stored
      forecast from tomorrow up to D2, and a safety stock from the item's service level, its
      sigma and the root of the days to D2. */
  lemma StoredTarget(w: World, db: Db, item: Uuid)
    requires Refresh(w, db, item).Done? && DistinctDays(w.items[item].forecast)
    requires Refresh(w, db, item).value.statuses[item].decision.explanation.model != M0
    ensures
      var it, d, today := w.items[item], Refresh(w, db, item).value.statuses[item].decision, DayOf(w.now);
      var e := d.explanation;
      && d.targetLevel == Larger(0, StoredIn(it.forecast, today, today + 1) - Taken(db.ledger.journal, item, today))
                            + StoredIn(it.forecast, today + 1, e.d2) + d.safetyStock
      && IsServiceFactor(it.serviceLevel, e.z) && e.sigma == it.sigma
      && InThousandths(d.safetyStock, Product(e.z, it.sigma, w.root(Larger(0, e.d2 - today))))
  {
    hide Decide, InThousandths, Product, StoredIn, Taken, WindowFor, StoredDays, PendingBefore, IncomingBefore;
    var input := Stored(w, db, item);
    var points := w.items[item].forecast;
    var z := ZFactor(input.serviceLevel);
    ExplanationAgrees(input, z);
    SafetyIs(input, z);
    TargetParts(input);
    LookedUp(points, input.today, input.today);
    NeedStored(input.forecast, points, input.today, input.today + 1, input.window.d2);
  }

  lemma TargetParts(input: Input)
    requires input.forecast.model != M0
    ensures Decide(input).targetLevel
         == Larger(0, PointOn(input.forecast.points, input.today) - input.consumedToday)
              + NeedOver(input.forecast, input.today + 1, input.window.d2) + Decide(input).safetyStock
  {
    hide IncomingBefore, Stockout, SafetyStock, Recommend, Classify;
  }

  /** The balance projected to the end of day today + k from stock, sent orders due from today
      on, today's remaining need and the stored forecast of the days after. */
  function ProjectedStock(w: World, db: Db, item: Uuid, k: nat): Qty
    requires item in w.items
  {
    var points, today := w.items[item].forecast, DayOf(w.now);
    db.ledger.OnHand(item) + PendingBefore(db.orders, item, today + k + 1) - PendingBefore(db.orders, item, today)
      - Larger(0, StoredIn(points, today, today + 1) - Taken(db.ledger.journal, item, today))
      - StoredIn(points, today + 1, today + k + 1)
  }

  lemma {:induction false} ProjectedFrom(w: World, db: Db, item: Uuid, input: Input, k: nat)
    requires item in w.items && DistinctDays(w.items[item].forecast) && MadeFrom(w, db, w.items[item], item, input)
    ensures BalanceAfter(input, k) == ProjectedStock(w, db, item, k)
  {
    hide PendingBefore, StoredIn, Taken, WindowFor, StoredDays;
    var points, day := w.items[item].forecast, input.today + k;
    BeforeNextDay(input.incoming, day);
    assert IncomingBefore(input.incoming, day + 1) == PendingBefore(db.orders, item, day + 1);
    assert IncomingBefore(input.incoming, day) == PendingBefore(db.orders, item, day);
    LookedUp(points, input.today, day);
    if k > 0 {
      ProjectedFrom(w, db, item, input, k - 1);
      StoredSplits(points, input.today + 1, day, day + 1);
    } else {
      StoredNever(points, input.today + 1, input.today + 1);
    }
  }

  /** The stored stockout date is the first of the stored forecast days on which the projected
      stock is negative, and the status follows from it. */
  lemma StoredStatus(w: World, db: Db, item: Uuid)
    requires Refresh(w, db, item).Done? && DistinctDays(w.items[item].forecast)
    ensures
      var it, d, today := w.items[item], Refresh(w, db, item).value.statuses[item].decision, DayOf(w.now);
      var s, n := d.stockoutDate, StoredDays(it.forecast, today);
      && (s.None? ==> forall k: nat :: k < n ==> ProjectedStock(w, db, item, k) >= 0)
      && (s.Some? ==> today <= s.value < today + n && ProjectedStock(w, db, item, s.value - today) < 0
                      && forall k: nat :: k < s.value - today ==> ProjectedStock(w, db, item, k) >= 0)
  {
    hide Decide, ProjectedStock, BalanceAfter, StockoutFrom;
    var input := Stored(w, db, item);
    SameStockoutDate(input);
    FirstShortage(input, 0);
    FromCounts(w.items[item].forecast, input.today);
    forall k: nat ensures BalanceAfter(input, k) == ProjectedStock(w, db, item, k) { ProjectedFrom(w, db, item, input, k); }
    var s := Stockout(input);
    assert s.Some? ==> ProjectedStock(w, db, item, s.value - input.today) == BalanceAfter(input, s.value - input.today);
  }

  /** Which status is stored: by stock, stockout date, what is missing and the window. */
  lemma StoredColour(w: World, db: Db, item: Uuid)
    requires Refresh(w, db, item).Done?
    ensures
      var it, d := w.items[item], Refresh(w, db, item).value.statuses[item].decision;
      var e, onHand := d.explanation, db.ledger.OnHand(item);
      var missing, short := d.targetLevel - (onHand + d.onOrder), d.stockoutDate.Some? && d.stockoutDate.value < d.explanation.d1;
      d.status ==
        if onHand <= 0 then OutOfStock
        else if e.model == M0 then (if it.manualMin > 0 && missing > 0 then OrderToday else NoForecast)
        else if short then Critical
        else if missing > 0 && e.d1 != e.d2 then OrderToday
        else Status.Ok
  {
    hide Decide;
    var input := Stored(w, db, item);
    ExplanationAgrees(input, ZFactor(input.serviceLevel));
    ColourOf(input);
  }

  lemma ColourOf(input: Input)
    ensures
      var d := Decide(input);
      var missing, short := d.targetLevel - (input.onHand + d.onOrder), d.stockoutDate.Some? && d.stockoutDate.value < input.window.d1;
      d.status ==
        if input.onHand <= 0 then OutOfStock
        else if input.forecast.model == M0 then (if input.manualMin > 0 && missing > 0 then OrderToday else NoForecast)
        else if short then Critical
        else if missing > 0 && input.window.d1 != input.window.d2 then OrderToday
        else Status.Ok
  {
    hide IncomingBefore, Stockout, SafetyStock, NeedUntilD2, Recommend;
  }

  /** What an alert says: the item, its new status and the stored one before, the stock, the
      stockout date and the next delivery. Statuses of other items and all documents stay. */
  lemma AlertSays(w: World, db: Db, item: Uuid)
    requires Refresh(w, db, item).Done?
    ensures
      var n := Refresh(w, db, item).value;
      var d := n.statuses[item].decision;
      && n.ledger == db.ledger && n.orders == db.orders && n.counts == db.counts
      && n.statuses.Keys == db.statuses.Keys + {item} && (forall i :: i in db.statuses && i != item ==> n.statuses[i] == db.statuses[i])
      && (n.alerts != db.alerts ==>
            n.alerts == db.alerts + [Alert(item, d.status, Some(if item in db.statuses then db.statuses[item].decision.status else Status.Ok),
                                           db.ledger.OnHand(item), d.stockoutDate, d.explanation.d1)])
  {
    hide Decide;
    var input := InputOf(w, db.ledger, db.orders, item);
    ExplanationAgrees(input, ZFactor(input.serviceLevel));
  }
}
