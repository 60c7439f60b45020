/** The two ways item statuses are recalculated: one item at a time, and all items of a
    tenant from a handful of grouped queries. */
module Batch {
  import opened Options
  import opened Quantity
  import opened Identifiers
  import opened DeliveryWindow
  import opened Reorder
  import opened Catalog
  import opened Journal
  import opened Shop

  // ---- What the queries return, in whatever order the database chooses ----

  /** One group of the quantities in transit: per expected day, or per item and day. */
  datatype IncomingRow = IncomingRow(item: Uuid, expected: Option<Day>, qty: Qty)

  datatype ForecastRow = ForecastRow(item: Uuid, point: Point)

  datatype ConsumedRow = ConsumedRow(item: Uuid, consumed: Qty)

  datatype CodeRow = CodeRow(item: Uuid, status: Status)

  function LineTotal(lines: seq<Line>, item: Uuid): Qty {
    if lines == [] then 0
    else (if lines[0].item == item then lines[0].ordered else 0) + LineTotal(lines[1..], item)
  }

  /** sum(qty_ordered) over the lines of sent orders with this expected day. */
  function OrderedOn(orders: seq<Order>, item: Uuid, day: Option<Day>): Qty {
    if orders == [] then 0
    else (if orders[0].status == Sent && orders[0].expected == day then LineTotal(orders[0].lines, item) else 0)
           + OrderedOn(orders[1..], item, day)
  }

  /** Some line falls into the group. */
  ghost predicate Occurs(orders: seq<Order>, item: Uuid, day: Option<Day>) {
    exists o, line :: o in orders && o.status == Sent && o.expected == day && line in o.lines && line.item == item
  }

  /** GROUP BY item_id, expected_at: each occurring group once, with its sum. */
  ghost predicate Groups(orders: seq<Order>, rows: seq<IncomingRow>) {
    && (forall i, j :: 0 <= i < j < |rows| ==> rows[i].item != rows[j].item || rows[i].expected != rows[j].expected)
    && (forall r :: r in rows ==> r.qty == OrderedOn(orders, r.item, r.expected))
    && (forall item: Uuid, day :: Occurs(orders, item, day) ==> exists r :: r in rows && r.item == item && r.expected == day)
  }

  /** The same groups restricted to one item. */
  ghost predicate GroupsOf(orders: seq<Order>, item: Uuid, rows: seq<IncomingRow>) {
    && (forall i, j :: 0 <= i < j < |rows| ==> rows[i].expected != rows[j].expected)
    && (forall r :: r in rows ==> r.item == item && r.qty == OrderedOn(orders, item, r.expected))
    && (forall day :: Occurs(orders, item, day) ==> exists r :: r in rows && r.expected == day)
  }

  ghost predicate Consumes(journal: seq<Movement>, item: Uuid, day: Day) {
    exists m :: m in journal && m.item == item && m.kind.CountsAsConsumption() && DayOf(m.at) == day
  }

  /** GROUP BY item_id over the consumption of one day. */
  ghost predicate ConsumedGroups(journal: seq<Movement>, day: Day, rows: seq<ConsumedRow>) {
    && (forall i, j :: 0 <= i < j < |rows| ==> rows[i].item != rows[j].item)
    && (forall r :: r in rows ==> r.consumed == ConsumedOn(journal, r.item, day))
    && (forall item: Uuid :: Consumes(journal, item, day) ==> exists r :: r in rows && r.item == item)
  }

  function PointsOf(rows: seq<ForecastRow>, item: Uuid): seq<Point> {
    if rows == [] then []
    else PointsOf(rows[..|rows| - 1], item) + if rows[|rows| - 1].item == item then [rows[|rows| - 1].point] else []
  }

  /** ORDER BY item_id, day: the rows of each item in the order of their days. */
  ghost predicate ForecastsFrom(w: World, rows: seq<ForecastRow>) {
    forall item: Uuid :: PointsOf(rows, item) == if item in w.items then From(w.items[item].forecast, w.Today()) else []
  }

  ghost predicate CodesOf(statuses: map<Uuid, StatusRow>, rows: seq<CodeRow>) {
    && (forall i, j :: 0 <= i < j < |rows| ==> rows[i].item != rows[j].item)
    && (forall r :: r in rows ==> r.item in statuses && r.status == statuses[r.item].decision.status)
    && (forall item :: item in statuses ==> exists r :: r in rows && r.item == item)
  }

  // ---- Grouped rows say as much per day as the order lines ----

  lemma {:induction false} ArrivingConcat(x: seq<Delivery>, y: seq<Delivery>, day: Day)
    ensures ArrivingOn(x + y, day) == ArrivingOn(x, day) + ArrivingOn(y, day)
  {
    if x == [] { assert x + y == y; } else {
      assert (x + y)[1..] == x[1..] + y;
      ArrivingConcat(x[1..], y, day);
    }
  }

  lemma {:induction false} LinesByDay(lines: seq<Line>, expected: Day, item: Uuid, day: Day)
    ensures ArrivingOn(LineDeliveries(lines, expected, item), day) == if expected == day then LineTotal(lines, item) else 0
  {
    if lines != [] {
      LinesByDay(lines[1..], expected, item, day);
      ArrivingConcat(if lines[0].item == item then [Delivery(expected, lines[0].ordered)] else [],
                     LineDeliveries(lines[1..], expected, item), day);
    }
  }

  lemma {:induction false} TransitByDay(orders: seq<Order>, item: Uuid, day: Day)
    ensures ArrivingOn(InTransit(orders, item), day) == OrderedOn(orders, item, Some(day))
  {
    if orders != [] {
      var o := orders[0];
      TransitByDay(orders[1..], item, day);
      ArrivingConcat(OrderDeliveries(o, item), InTransit(orders[1..], item), day);
      if o.expected.Some? { LinesByDay(o.lines, o.expected.value, item, day); }
    }
  }

  lemma {:induction false} NoLineNoTotal(lines: seq<Line>, item: Uuid)
    requires forall line :: line in lines ==> line.item != item
    ensures LineTotal(lines, item) == 0
  {
    if lines != [] { NoLineNoTotal(lines[1..], item); }
  }

  lemma {:induction false} AbsentGroup(orders: seq<Order>, item: Uuid, day: Option<Day>)
    requires !Occurs(orders, item, day)
    ensures OrderedOn(orders, item, day) == 0
  {
    if orders != [] {
      var o := orders[0];
      if o.status == Sent && o.expected == day {
        forall line | line in o.lines ensures line.item != item { assert o in orders; }
        NoLineNoTotal(o.lines, item);
      }
      assert forall p :: p in orders[1..] ==> p in orders;
      AbsentGroup(orders[1..], item, day);
    }
  }

  /** What the rows say arrives of an item on a day. */
  function RowsOn(rows: seq<IncomingRow>, item: Uuid, day: Day): Qty {
    if rows == [] then 0
    else
      var r := rows[|rows| - 1];
      RowsOn(rows[..|rows| - 1], item, day) + if r.item == item && r.expected == Some(day) then r.qty else 0
  }

  lemma {:induction false} NoRow(rows: seq<IncomingRow>, item: Uuid, day: Day)
    requires forall r :: r in rows ==> r.item != item || r.expected != Some(day)
    ensures RowsOn(rows, item, day) == 0
  {
    if rows != [] {
      assert rows[|rows| - 1] in rows;
      NoRow(rows[..|rows| - 1], item, day);
    }
  }

  lemma {:induction false} OneRow(rows: seq<IncomingRow>, k: nat, day: Day)
    requires k < |rows| && rows[k].expected == Some(day)
    requires forall i, j :: 0 <= i < j < |rows| ==> rows[i].item != rows[j].item || rows[i].expected != rows[j].expected
    ensures RowsOn(rows, rows[k].item, day) == rows[k].qty
  {
    var init := rows[..|rows| - 1];
    if k == |rows| - 1 {
      NoRow(init, rows[k].item, day);
    } else {
      OneRow(init, k, day);
    }
  }

  lemma GroupsByDay(orders: seq<Order>, rows: seq<IncomingRow>, item: Uuid, day: Day)
    requires Groups(orders, rows) || GroupsOf(orders, item, rows)
    ensures RowsOn(rows, item, day) == OrderedOn(orders, item, Some(day))
  {
    if k :| 0 <= k < |rows| && rows[k].item == item && rows[k].expected == Some(day) {
      assert rows[k] in rows;
      OneRow(rows, k, day);
    } else {
      assert forall r :: r in rows ==> r.item != item || r.expected != Some(day);
      NoRow(rows, item, day);
      AbsentGroup(orders, item, Some(day));
    }
  }

  lemma {:induction false} NothingConsumed(journal: seq<Movement>, item: Uuid, day: Day)
    requires !Consumes(journal, item, day)
    ensures ConsumedOn(journal, item, day) == 0
  {
    if journal != [] {
      var init := journal[..|journal| - 1];
      assert journal[|journal| - 1] in journal;
      assert forall m :: m in init ==> m in journal;
      NothingConsumed(init, item, day);
    }
  }

  // ---- The queries of one item ----

  lemma {:induction false} LineTotalMore(lines: seq<Line>, line: Line, item: Uuid)
    ensures LineTotal(lines + [line], item) == LineTotal(lines, item) + if line.item == item then line.ordered else 0
  {
    if lines != [] {
      assert (lines + [line])[1..] == lines[1..] + [line];
      LineTotalMore(lines[1..], line, item);
    }
  }

  lemma {:induction false} OrderedOnMore(orders: seq<Order>, o: Order, item: Uuid, day: Option<Day>)
    ensures OrderedOn(orders + [o], item, day)
         == OrderedOn(orders, item, day) + if o.status == Sent && o.expected == day then LineTotal(o.lines, item) else 0
  {
    if orders != [] {
      assert (orders + [o])[1..] == orders[1..] + [o];
      OrderedOnMore(orders[1..], o, item, day);
    }
  }

  lemma OccursMore(orders: seq<Order>, o: Order, item: Uuid, day: Option<Day>)
    ensures Occurs(orders + [o], item, day)
            <==> Occurs(orders, item, day)
                 || (o.status == Sent && o.expected == day && exists line :: line in o.lines && line.item == item)
  {
    assert o in orders + [o];
    assert forall p :: p in orders + [o] <==> p in orders || p == o;
  }

  /** An order none of whose lines has been read, or that is not in transit, adds no group. */
  lemma NothingMore(orders: seq<Order>, o: Order, item: Uuid, rows: seq<IncomingRow>)
    requires GroupsOf(orders, item, rows) && (o.status != Sent || o.lines == [])
    ensures GroupsOf(orders + [o], item, rows)
  {
    forall day ensures OrderedOn(orders + [o], item, day) == OrderedOn(orders, item, day) { OrderedOnMore(orders, o, item, day); }
    forall day | Occurs(orders + [o], item, day) ensures Occurs(orders, item, day) { OccursMore(orders, o, item, day); }
  }

  /** One more line of the last order changes the sum of one group. */
  lemma LineMore(orders: seq<Order>, o: Order, line: Line, item: Uuid, day: Option<Day>)
    requires o.status == Sent
    ensures
      var before, after := orders + [o], orders + [o.(lines := o.lines + [line])];
      && OrderedOn(after, item, day)
           == OrderedOn(before, item, day) + (if line.item == item && o.expected == day then line.ordered else 0)
      && (Occurs(after, item, day) <==> Occurs(before, item, day) || (line.item == item && o.expected == day))
  {
    var m := o.(lines := o.lines + [line]);
    OrderedOnMore(orders, o, item, day);
    OrderedOnMore(orders, m, item, day);
    LineTotalMore(o.lines, line, item);
    OccursMore(orders, o, item, day);
    OccursMore(orders, m, item, day);
    assert line in m.lines && forall x :: x in m.lines <==> x in o.lines || x == line;
  }

  function AddToGroup(rows: seq<IncomingRow>, item: Uuid, day: Option<Day>, q: Qty, k: nat): seq<IncomingRow>
    requires k <= |rows|
  {
    if k < |rows| then rows[k := rows[k].(qty := rows[k].qty + q)] else rows + [IncomingRow(item, day, q)]
  }

  lemma GroupedLine(orders: seq<Order>, o: Order, line: Line, item: Uuid, rows: seq<IncomingRow>, k: nat)
    requires GroupsOf(orders + [o], item, rows) && o.status == Sent && line.item == item && k <= |rows|
    requires k < |rows| ==> rows[k].expected == o.expected
    requires k == |rows| ==> forall r :: r in rows ==> r.expected != o.expected
    ensures GroupsOf(orders + [o.(lines := o.lines + [line])], item, AddToGroup(rows, item, o.expected, line.ordered, k))
  {
    var before, after := orders + [o], orders + [o.(lines := o.lines + [line])];
    var n := AddToGroup(rows, item, o.expected, line.ordered, k);
    forall day
      ensures OrderedOn(after, item, day) == OrderedOn(before, item, day) + if o.expected == day then line.ordered else 0
      ensures Occurs(after, item, day) <==> Occurs(before, item, day) || o.expected == day
    {
      LineMore(orders, o, line, item, day);
    }
    if k == |rows| {
      assert !Occurs(before, item, o.expected);
      AbsentGroup(before, item, o.expected);
    }
    forall i | 0 <= i < |n| ensures n[i].item == item && n[i].qty == OrderedOn(after, item, n[i].expected) {
      if i < |rows| { assert rows[i] in rows; }
    }
    assert n[k] in n;
    forall day | Occurs(after, item, day) ensures exists r :: r in n && r.expected == day {
      if day != o.expected {
        var r :| r in rows && r.expected == day;
        var i :| 0 <= i < |rows| && rows[i] == r;
        assert n[i] in n;
      }
    }
  }

  /** The quantities in transit of an item, grouped by expected day. */
  method QueryIncoming(orders: seq<Order>, item: Uuid) returns (rows: seq<IncomingRow>)
    ensures GroupsOf(orders, item, rows)
  {
    rows := [];
    for i := 0 to |orders|
      invariant GroupsOf(orders[..i], item, rows)
    {
      var o := orders[i];
      assert orders[..i + 1] == orders[..i] + [o];
      if o.status != Sent {
        NothingMore(orders[..i], o, item, rows);
        continue;
      }
      NothingMore(orders[..i], o.(lines := []), item, rows);
      assert o.lines[..0] == [];
      for j := 0 to |o.lines|
        invariant GroupsOf(orders[..i] + [o.(lines := o.lines[..j])], item, rows)
      {
        var line := o.lines[j];
        var part := o.(lines := o.lines[..j]);
        assert part.(lines := part.lines + [line]) == o.(lines := o.lines[..j + 1]);
        rows := QueryLine(orders[..i], part, line, item, rows);
      }
      assert o.(lines := o.lines[..|o.lines|]) == o;
    }
    assert orders[..|orders|] == orders;
  }

  method QueryLine(ghost orders: seq<Order>, o: Order, line: Line, item: Uuid, rows: seq<IncomingRow>) returns (n: seq<IncomingRow>)
    requires GroupsOf(orders + [o], item, rows) && o.status == Sent
    ensures GroupsOf(orders + [o.(lines := o.lines + [line])], item, n)
  {
    if line.item != item {
      OtherLine(orders, o, line, item, rows);
      return rows;
    }
    var k := 0;
    while k < |rows| && rows[k].expected != o.expected
      invariant k <= |rows| && forall j :: 0 <= j < k ==> rows[j].expected != o.expected
    {
      k := k + 1;
    }
    GroupedLine(orders, o, line, item, rows, k);
    n := AddToGroup(rows, item, o.expected, line.ordered, k);
  }

  lemma OtherLine(orders: seq<Order>, o: Order, line: Line, item: Uuid, rows: seq<IncomingRow>)
    requires GroupsOf(orders + [o], item, rows) && o.status == Sent && line.item != item
    ensures GroupsOf(orders + [o.(lines := o.lines + [line])], item, rows)
  {
    forall day
      ensures OrderedOn(orders + [o.(lines := o.lines + [line])], item, day) == OrderedOn(orders + [o], item, day)
      ensures Occurs(orders + [o.(lines := o.lines + [line])], item, day) <==> Occurs(orders + [o], item, day)
    {
      LineMore(orders, o, line, item, day);
    }
  }

  /** Stored forecast rows of an item from a day on. */
  method QueryForecast(points: seq<Point>, day: Day) returns (rows: seq<Point>)
    ensures rows == From(points, day)
  {
    rows := [];
    for k := 0 to |points|
      invariant From(points, day) == rows + From(points[k..], day)
    {
      assert points[k..][1..] == points[k + 1..];
      if points[k].day >= day {
        rows := rows + [points[k]];
      }
    }
  }

  /** What was consumed of an item on a day. */
  method QueryConsumed(journal: seq<Movement>, item: Uuid, day: Day) returns (q: Qty)
    ensures q == ConsumedOn(journal, item, day)
  {
    q := 0;
    for k := 0 to |journal|
      invariant q == ConsumedOn(journal[..k], item, day)
    {
      assert journal[..k + 1][..k] == journal[..k];
      var m := journal[k];
      if m.item == item && m.kind.CountsAsConsumption() && DayOf(m.at) == day {
        q := q - m.qty;
      }
    }
    assert journal[..|journal|] == journal;
  }

  // ---- The per-item input ----

  /** Reads forecast, deliveries, consumption and delivery window of one item. */
  method BuildInput(w: World, l: Ledger, orders: seq<Order>, item: Uuid) returns (input: Input)
    requires item in w.items
    ensures Decide(input) == Decide(InputOf(w, l, orders, item))
    ensures input == InputOf(w, l, orders, item).(incoming := input.incoming)
  {
    hide Decide, WindowAt, From, ConsumedOn, GroupsOf, InTransit;
    var it := w.items[item];
    var fcRows := QueryForecast(it.forecast, w.Today());
    var forecast := CopyForecast(it, fcRows);
    var incRows := QueryIncoming(orders, item);
    var incoming := CopyDeliveries(orders, incRows, item);
    var consumed := QueryConsumed(l.journal, item, w.Today());
    var window := Window(w.Today(), w.Today() + 1, w.Today() + 1, w.now, false);
    if it.supplier.Some? {
      window := ComputeWindow(w.now, it.supplier.value);
    }
    var days := window.d2 - w.Today();
    input := Input(w.Today(), window, l.OnHand(item), incoming, forecast, consumed,
                   it.serviceLevel, it.manualMin, it.minOrder, it.pack, w.root(if days > 0 then days else 0));
    DecideByDayTotals(InputOf(w, l, orders, item), input);
  }

  /** The forecast read: no rows, no model. */
  method CopyForecast(it: Item, rows: seq<Point>) returns (f: Forecast)
    ensures f == ForecastOf(it, rows)
  {
    var model := if it.metricsModel.Some? then it.metricsModel.value else M0;
    var points: seq<Point> := [];
    for k := 0 to |rows|
      invariant points == rows[..k]
    {
      points := points + [rows[k]];
    }
    if |points| == 0 {
      model := M0;
    }
    f := Forecast(model, points, it.sigma);
  }

  /** The rows that have a day, as deliveries: day by day what is in transit. */
  method CopyDeliveries(ghost orders: seq<Order>, rows: seq<IncomingRow>, item: Uuid) returns (incoming: seq<Delivery>)
    requires GroupsOf(orders, item, rows)
    ensures forall day :: ArrivingOn(InTransit(orders, item), day) == ArrivingOn(incoming, day)
  {
    incoming := [];
    for k := 0 to |rows|
      invariant forall day :: ArrivingOn(incoming, day) == RowsOn(rows[..k], item, day)
    {
      assert rows[..k + 1][..k] == rows[..k] && rows[k] in rows;
      if rows[k].expected.Some? {
        var dv := Delivery(rows[k].expected.value, rows[k].qty);
        forall day ensures ArrivingOn(incoming + [dv], day) == ArrivingOn(incoming, day) + if dv.day == day then dv.qty else 0 {
          ArrivingConcat(incoming, [dv], day);
        }
        incoming := incoming + [dv];
      }
    }
    assert rows[..|rows|] == rows;
    forall day ensures ArrivingOn(InTransit(orders, item), day) == ArrivingOn(incoming, day) {
      TransitByDay(orders, item, day);
      GroupsByDay(orders, rows, item, day);
    }
  }

  // ---- The loaders ----

  function Deliveries(m: map<Uuid, seq<Delivery>>, item: Uuid): seq<Delivery> { if item in m then m[item] else [] }

  method LoadIncoming(rows: seq<IncomingRow>) returns (out: map<Uuid, seq<Delivery>>)
    ensures forall item: Uuid, day :: ArrivingOn(Deliveries(out, item), day) == RowsOn(rows, item, day)
  {
    out := map[];
    for k := 0 to |rows|
      invariant forall item: Uuid, day :: ArrivingOn(Deliveries(out, item), day) == RowsOn(rows[..k], item, day)
    {
      var r := rows[k];
      assert rows[..k + 1][..k] == rows[..k];
      if r.expected.Some? {
        var dv := Delivery(r.expected.value, r.qty);
        var had := Deliveries(out, r.item);
        forall day ensures ArrivingOn(had + [dv], day) == ArrivingOn(had, day) + if dv.day == day then dv.qty else 0 {
          ArrivingConcat(had, [dv], day);
        }
        out := out[r.item := had + [dv]];
      }
    }
    assert rows[..|rows|] == rows;
  }

  function Points(m: map<Uuid, seq<Point>>, item: Uuid): seq<Point> { if item in m then m[item] else [] }

  method LoadForecasts(rows: seq<ForecastRow>) returns (out: map<Uuid, seq<Point>>)
    ensures forall item: Uuid :: Points(out, item) == PointsOf(rows, item)
  {
    out := map[];
    for k := 0 to |rows|
      invariant forall item: Uuid :: Points(out, item) == PointsOf(rows[..k], item)
    {
      var r := rows[k];
      assert rows[..k + 1][..k] == rows[..k];
      out := out[r.item := Points(out, r.item) + [r.point]];
    }
    assert rows[..|rows|] == rows;
  }

  function Amount(m: map<Uuid, Qty>, item: Uuid): Qty { if item in m then m[item] else 0 }

  method LoadConsumed(ghost journal: seq<Movement>, ghost day: Day, rows: seq<ConsumedRow>) returns (out: map<Uuid, Qty>)
    requires ConsumedGroups(journal, day, rows)
    ensures forall item: Uuid :: Amount(out, item) == ConsumedOn(journal, item, day)
  {
    out := map[];
    for k := 0 to |rows|
      invariant forall item: Uuid :: item in out <==> exists i :: 0 <= i < k && rows[i].item == item
      invariant forall item :: item in out ==> out[item] == ConsumedOn(journal, item, day)
    {
      assert rows[k] in rows;
      out := out[rows[k].item := rows[k].consumed];
    }
    forall item: Uuid ensures Amount(out, item) == ConsumedOn(journal, item, day) {
      if item !in out {
        assert !exists r :: r in rows && r.item == item;
        NothingConsumed(journal, item, day);
      }
    }
  }

  method LoadPrevious(ghost statuses: map<Uuid, StatusRow>, rows: seq<CodeRow>) returns (out: map<Uuid, Status>)
    requires CodesOf(statuses, rows)
    ensures out == map item | item in statuses :: statuses[item].decision.status
  {
    out := map[];
    for k := 0 to |rows|
      invariant forall i :: 0 <= i < k ==> rows[i].item in out
      invariant forall item :: item in out ==> item in statuses && out[item] == statuses[item].decision.status
    {
      assert rows[k] in rows;
      out := out[rows[k].item := rows[k].status];
    }
    forall item | item in statuses ensures item in out {
      var r :| r in rows && r.item == item;
      var i :| 0 <= i < |rows| && rows[i] == r;
      assert rows[i].item == item;
    }
  }

  // ---- Refinement ----

  /** Recalculating the items one by one. */
  function OneByOne(w: World, db: Db, items: seq<Uuid>): Db
    requires forall item :: item in items ==> item in w.items
  {
    if items == [] then db
    else Refresh(w, OneByOne(w, db, items[..|items| - 1]), items[|items| - 1]).value
  }

  /** Alerts of the batch are those of the single path, except that for an item without
      a stored status the batch does not know a previous one. */
  predicate SameAlert(before: Db, single: Alert, batch: Alert) {
    single == batch.(previous := single.previous)
    && batch.previous == if batch.item in before.statuses then single.previous else None
  }

  predicate SameAlerts(before: Db, single: seq<Alert>, batch: seq<Alert>, from: nat) {
    && |single| == |batch| && from <= |single| && single[..from] == batch[..from]
    && forall i :: from <= i < |single| ==> SameAlert(before, single[i], batch[i])
  }

  /** The items of a tenant that are not archived, by ascending id. */
  ghost predicate ActiveItems(w: World, items: seq<Uuid>) {
    && (forall i, j :: 0 <= i < j < |items| ==> items[i] < items[j])
    && (forall item: Uuid :: item in items <==> item in w.items && !w.items[item].archived)
  }

  /** The batch has reached the same statuses and alerts as the single path. */
  ghost predicate Matches(before: Db, single: Db, statuses: map<Uuid, StatusRow>, alerts: seq<Alert>) {
    single.statuses == statuses && SameAlerts(before, single.alerts, alerts, |before.alerts|)
  }

  lemma {:induction false} OneByOneFacts(w: World, db: Db, items: seq<Uuid>)
    requires forall item :: item in items ==> item in w.items
    ensures
      var n := OneByOne(w, db, items);
      && n.ledger == db.ledger && n.orders == db.orders && n.counts == db.counts
      && forall item: Uuid :: item !in items ==>
           (item in n.statuses <==> item in db.statuses) && (item in db.statuses ==> n.statuses[item] == db.statuses[item])
  {
    if items != [] {
      var init := items[..|items| - 1];
      assert forall item :: item in items <==> item in init || item == items[|items| - 1];
      OneByOneFacts(w, db, init);
    }
  }

  /** One item: same decision, same row, an alert in the same cases. */
  lemma BatchStep(w: World, db: Db, single: Db, item: Uuid, input: Input, d: Decision, statuses: map<Uuid, StatusRow>, alerts: seq<Alert>)
    requires item in w.items && single.ledger == db.ledger && single.orders == db.orders
    requires (item in single.statuses <==> item in db.statuses) && (item in db.statuses ==> single.statuses[item] == db.statuses[item])
    requires input == InputOf(w, db.ledger, db.orders, item).(incoming := input.incoming)
    requires d == Decide(input) == Decide(InputOf(w, db.ledger, db.orders, item))
    requires Matches(db, single, statuses, alerts)
    ensures
      var previous := if item in db.statuses then Some(db.statuses[item].decision.status) else None;
      var alert := Alert(item, d.status, previous, input.onHand, d.stockoutDate, input.window.d1);
      Matches(db, Refresh(w, single, item).value, statuses[item := RowFor(w, item, d)],
              if TurnsRed(d.status, previous) then alerts + [alert] else alerts)
  {
    hide Decide, WindowAt;
  }

  lemma SameDecision(w: World, l: Ledger, orders: seq<Order>, item: Uuid, rows: seq<IncomingRow>, input: Input, incoming: seq<Delivery>)
    requires item in w.items && Groups(orders, rows)
    requires input == InputOf(w, l, orders, item).(incoming := incoming)
    requires forall day :: ArrivingOn(incoming, day) == RowsOn(rows, item, day)
    ensures Decide(input) == Decide(InputOf(w, l, orders, item))
  {
    forall day ensures ArrivingOn(InTransit(orders, item), day) == ArrivingOn(incoming, day) {
      TransitByDay(orders, item, day);
      GroupsByDay(orders, rows, item, day);
    }
    DecideByDayTotals(InputOf(w, l, orders, item), input);
  }

  /** One turn of the batch loop. */
  lemma BatchTurn(w: World, db: Db, items: seq<Uuid>, k: nat, rows: seq<IncomingRow>, input: Input, incoming: seq<Delivery>,
                  statuses: map<Uuid, StatusRow>, alerts: seq<Alert>)
    requires ActiveItems(w, items) && k < |items| && Groups(db.orders, rows)
    requires
      var item := items[k];
      && item in w.items
      && input == InputOf(w, db.ledger, db.orders, item).(incoming := incoming)
      && forall day :: ArrivingOn(incoming, day) == RowsOn(rows, item, day)
    requires forall item :: item in items ==> item in w.items
    requires Matches(db, OneByOne(w, db, items[..k]), statuses, alerts)
    ensures
      var item, d := items[k], Decide(input);
      var previous := if item in db.statuses then Some(db.statuses[item].decision.status) else None;
      var alert := Alert(item, d.status, previous, input.onHand, d.stockoutDate, input.window.d1);
      Matches(db, OneByOne(w, db, items[..k + 1]), statuses[item := RowFor(w, item, d)],
              if TurnsRed(d.status, previous) then alerts + [alert] else alerts)
  {
    hide Decide, WindowAt;
    var item := items[k];
    assert items[..k + 1][..k] == items[..k];
    OneByOneFacts(w, db, items[..k]);
    SameDecision(w, db.ledger, db.orders, item, rows, input, incoming);
    BatchStep(w, db, OneByOne(w, db, items[..k]), item, input, Decide(input), statuses, alerts);
  }
}
