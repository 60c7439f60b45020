/** The whole database of one tenant and its operations as atomic steps: movements,
    reversals, stock counts, purchase orders and the cached item statuses. */
module Shop {
  import opened Options
  import opened Quantity
  import opened Identifiers
  import opened DeliveryWindow
  import opened Reorder
  import opened Catalog
  import opened Journal

  datatype OrderStatus = Draft | Sent | Received | Cancelled

  datatype Line = Line(item: Uuid, ordered: Qty, received: Option<Qty>)

  datatype Order = Order(id: Uuid, supplier: Uuid, status: OrderStatus, expected: Option<Day>, lines: seq<Line>)

  datatype CountLine = CountLine(item: Uuid, expected: Qty, counted: Option<Qty>)

  /** A quantity of an item somebody asks for or reports. */
  datatype Wanted = Wanted(item: Uuid, qty: Qty)

  datatype Count = Count(posted: bool, lines: seq<CountLine>)

  /** The read model of the dashboard. */
  datatype StatusRow = StatusRow(decision: Decision, orderBy: Option<Moment>)

  /** `previous` is what the caller knew of the status before, if anything. */
  datatype Alert = Alert(item: Uuid, status: Status, previous: Option<Status>, onHand: Qty, stockout: Option<Day>, d1: Day)

  datatype Db = Db(
    ledger: Ledger,
    orders: seq<Order>,
    counts: map<Uuid, Count>,
    statuses: map<Uuid, StatusRow>,
    alerts: seq<Alert>)

  // ---- What a decision reads ----

  function LineDeliveries(lines: seq<Line>, day: Day, item: Uuid): seq<Delivery> {
    if lines == [] then []
    else (if lines[0].item == item then [Delivery(day, lines[0].ordered)] else []) + LineDeliveries(lines[1..], day, item)
  }

  /** Only sent orders with an expected day are in transit. */
  function OrderDeliveries(o: Order, item: Uuid): seq<Delivery> {
    if o.status == Sent && o.expected.Some? then LineDeliveries(o.lines, o.expected.value, item) else []
  }

  function InTransit(orders: seq<Order>, item: Uuid): seq<Delivery> {
    if orders == [] then []
    else OrderDeliveries(orders[0], item) + InTransit(orders[1..], item)
  }

  /** What was consumed on a day: usage, write-offs and count corrections. */
  function ConsumedOn(journal: seq<Movement>, item: Uuid, day: Day): Qty {
    if journal == [] then 0
    else
      var m := journal[|journal| - 1];
      ConsumedOn(journal[..|journal| - 1], item, day)
        - if m.item == item && m.kind.CountsAsConsumption() && DayOf(m.at) == day then m.qty else 0
  }

  /** Stored forecast rows from a day on. */
  function From(points: seq<Point>, day: Day): seq<Point> {
    if points == [] then []
    else (if points[0].day >= day then [points[0]] else []) + From(points[1..], day)
  }

  /** Without metrics or without forecast rows there is no model. */
  function ForecastOf(it: Item, points: seq<Point>): Forecast {
    Forecast(if points == [] || it.metricsModel.None? then M0 else it.metricsModel.value, points, it.sigma)
  }

  /** Without a supplier there is no window: tomorrow stands for both dates. */
  function WindowOf(w: World, it: Item): Window {
    if it.supplier.Some? then WindowAt(w.now, it.supplier.value)
    else Window(w.Today(), w.Today() + 1, w.Today() + 1, w.now, false)
  }

  function MakeInput(w: World, it: Item, onHand: Qty, incoming: seq<Delivery>, points: seq<Point>, consumed: Qty): Input {
    var window := WindowOf(w, it);
    var days := window.d2 - w.Today();
    Input(w.Today(), window, onHand, incoming, ForecastOf(it, points), consumed, it.serviceLevel,
          it.manualMin, it.minOrder, it.pack, w.root(if days > 0 then days else 0))
  }

  function InputOf(w: World, l: Ledger, orders: seq<Order>, item: Uuid): Input
    requires item in w.items
  {
    MakeInput(w, w.items[item], l.OnHand(item), InTransit(orders, item),
              From(w.items[item].forecast, w.Today()), ConsumedOn(l.journal, item, w.Today()))
  }

  function RowFor(w: World, item: Uuid, d: Decision): StatusRow
    requires item in w.items
  {
    StatusRow(d, if w.items[item].supplier.Some? && d.status == OrderToday then Some(d.explanation.orderBy) else None)
  }

  /** The status row a recalculation would write now. */
  function FreshRow(w: World, l: Ledger, orders: seq<Order>, item: Uuid): StatusRow
    requires item in w.items
  {
    RowFor(w, item, Decide(InputOf(w, l, orders, item)))
  }

  // ---- Recalculation ----

  predicate TurnsRed(status: Status, previous: Option<Status>) {
    status.IsRed() && status.Severity() > if previous.Some? then previous.value.Severity() else 0
  }

  /** Store a decision and raise an alert when the status turned red for the worse. */
  function Persist(w: World, db: Db, item: Uuid, input: Input, d: Decision, previous: Option<Status>): Db
    requires item in w.items
  {
    var alert := Alert(item, d.status, previous, input.onHand, d.stockoutDate, input.window.d1);
    db.(statuses := db.statuses[item := RowFor(w, item, d)],
        alerts := if TurnsRed(d.status, previous) then db.alerts + [alert] else db.alerts)
  }

  function Refresh(w: World, db: Db, item: Uuid): Result<Db> {
    if item !in w.items then Fail(ItemNotFound)
    else
      var input := InputOf(w, db.ledger, db.orders, item);
      var previous := if item in db.statuses then db.statuses[item].decision.status else Status.Ok;
      Done(Persist(w, db, item, input, Decide(input), Some(previous)))
  }

  function RefreshLines(w: World, db: Db, lines: seq<Line>, k: nat): Result<Db>
    requires k <= |lines|
    decreases |lines| - k
  {
    if k == |lines| then Done(db)
    else
      var n :- Refresh(w, db, lines[k].item);
      RefreshLines(w, n, lines, k + 1)
  }

  // ---- Movements ----

  function FindOrder(orders: seq<Order>, id: Uuid): (r: Option<nat>)
    ensures r.Some? ==> r.value < |orders| && orders[r.value].id == id
    ensures r.None? <==> forall i :: 0 <= i < |orders| ==> orders[i].id != id
  {
    if orders == [] then None
    else if orders[0].id == id then Some(0)
    else
      var rest := FindOrder(orders[1..], id);
      if rest.None? then None else Some(rest.value + 1)
  }

  /** Documents a movement refers to must exist. */
  predicate ReferencesExist(db: Db, r: Request) {
    && (r.order.Some? ==> FindOrder(db.orders, r.order.value).Some?)
    && (r.count.Some? ==> r.count.value in db.counts)
  }

  /** A validated request inside an open transaction. */
  function RecordTx(w: World, db: Db, r: Request): Result<Db> {
    if Replay(db.ledger, r).Some? then Done(db)
    else
      var l :- Record(w, db.ledger, r);
      if !ReferencesExist(db, r) then Fail(Storage) else Refresh(w, db.(ledger := l), r.item)
  }

  function RecordMovement(w: World, db: Db, r: Request): Result<Db> {
    var invalid := Validate(w, r);
    if invalid.Some? then Fail(invalid.value) else RecordTx(w, db, r)
  }

  function ReverseMovement(w: World, db: Db, u: Undo): Result<Db> {
    var l :- Reverse(w, db.ledger, u);
    Refresh(w, db.(ledger := l), l.journal[|l.journal| - 1].item)
  }

  // ---- Stock counts ----

  function SetCounted(lines: seq<CountLine>, item: Uuid, q: Qty): seq<CountLine> {
    if lines == [] then [CountLine(item, 0, Some(q))]
    else if lines[0].item == item then [lines[0].(counted := Some(q))] + lines[1..]
    else [lines[0]] + SetCounted(lines[1..], item, q)
  }

  function ExpectedLines(l: Ledger, items: seq<Uuid>, k: nat): seq<CountLine>
    requires k <= |items|
  {
    if k == 0 then []
    else
      var lines := ExpectedLines(l, items, k - 1);
      if exists c :: c in lines && c.item == items[k - 1] then lines
      else lines + [CountLine(items[k - 1], l.OnHand(items[k - 1]), None)]
  }

  /** Opens a count over the given items with the balances as they stand. */
  function CreateCount(w: World, db: Db, id: Uuid, items: seq<Uuid>): Result<Db> {
    if id in db.counts || exists item :: item in items && item !in w.items then Fail(Storage)
    else Done(db.(counts := db.counts[id := Count(false, ExpectedLines(db.ledger, items, |items|))]))
  }

  function SetLines(w: World, lines: seq<CountLine>, counted: seq<Wanted>, k: nat): Result<seq<CountLine>>
    requires k <= |counted|
    decreases |counted| - k
  {
    if k == |counted| then Done(lines)
    else if counted[k].qty < 0 then Fail(NegativeCounted)
    else if counted[k].item !in w.items then Fail(Storage)
    else SetLines(w, SetCounted(lines, counted[k].item, counted[k].qty), counted, k + 1)
  }

  /** The writes of an entry, once its check has seen an open count. */
  function WriteCounted(w: World, db: Db, id: Uuid, counted: seq<Wanted>): Result<Db>
    requires id in db.counts
  {
    var lines :- SetLines(w, db.counts[id].lines, counted, 0);
    Done(db.(counts := db.counts[id := db.counts[id].(lines := lines)]))
  }

  function SetCountLines(w: World, db: Db, id: Uuid, counted: seq<Wanted>): Result<Db> {
    if id !in db.counts then Fail(ItemNotFound)
    else if db.counts[id].posted then Fail(CountPosted)
    else WriteCounted(w, db, id, counted)
  }

  /** Which document is being posted, by whom; `ids` are the identifiers drawn per line. */
  datatype Posting = Posting(count: Uuid, author: Uuid, force: bool, ids: nat -> Uuid)

  function Ensure(l: Ledger, item: Uuid): Ledger {
    if item in l.balance then l else l.(balance := l.balance[item := 0])
  }

  function AdjustmentRow(w: World, p: Posting, k: nat, item: Uuid, delta: Qty): Movement {
    Movement(p.ids(k), item, Adjustment, delta, w.now, Some(p.author), "", None, Some(p.count), None, "")
  }

  /** One line of a count: an adjustment to the counted quantity, unless it was not
      counted or its balance changed behind the counter's back. */
  function PostLine(w: World, db: Db, p: Posting, c: CountLine, k: nat): Result<(Db, seq<ChangedLine>)> {
    if c.counted.None? then Done((db, []))
    else if c.item !in w.items then Fail(Storage)
    else
      var counted := c.counted.value;
      var l := Ensure(db.ledger, c.item);
      var current := l.OnHand(c.item);
      if !p.force && current != c.expected then
        Done((db.(ledger := l), [ChangedLine(c.item, c.expected, current, counted)]))
      else if counted == current then Done((db.(ledger := l), []))
      else
        var n :- Append(l, AdjustmentRow(w, p, k, c.item, counted - current));
        var refreshed :- Refresh(w, db.(ledger := n), c.item);
        Done((refreshed, []))
  }

  /** The lines from the k-th on; `changed` are the lines found to differ so far. */
  function PostFrom(w: World, db: Db, p: Posting, lines: seq<CountLine>, k: nat, changed: seq<ChangedLine>)
    : Result<(Db, seq<ChangedLine>)>
    requires k <= |lines|
    decreases |lines| - k
  {
    if k == |lines| then Done((db, changed))
    else
      var r :- PostLine(w, db, p, lines[k], k);
      PostFrom(w, r.0, p, lines, k + 1, changed + r.1)
  }

  function PostCount(w: World, db: Db, p: Posting): Result<Db> {
    if p.count !in db.counts then Fail(ItemNotFound)
    else if db.counts[p.count].posted then Fail(CountPosted)
    else
      var r :- PostFrom(w, db, p, db.counts[p.count].lines, 0, []);
      if r.1 != [] then Fail(CountChanged(r.1))
      else Done(r.0.(counts := db.counts[p.count := db.counts[p.count].(posted := true)]))
  }

  // ---- Orders ----

  function WithStatus(orders: seq<Order>, i: nat, status: OrderStatus): seq<Order>
    requires i < |orders|
  {
    orders[i := orders[i].(status := status)]
  }

  /** One line per item: an update replaces, a quantity that is not positive removes. */
  function PutLine(lines: seq<Line>, item: Uuid, q: Qty): seq<Line> {
    if lines == [] then (if q > 0 then [Line(item, q, None)] else [])
    else if lines[0].item == item then (if q > 0 then [lines[0].(ordered := q)] else []) + lines[1..]
    else [lines[0]] + PutLine(lines[1..], item, q)
  }

  function PutLines(w: World, lines: seq<Line>, wanted: seq<Wanted>, k: nat): Result<seq<Line>>
    requires k <= |wanted|
    decreases |wanted| - k
  {
    if k == |wanted| then Done(lines)
    else if wanted[k].qty > 0 && wanted[k].item !in w.items then Fail(Storage)
    else PutLines(w, PutLine(lines, wanted[k].item, wanted[k].qty), wanted, k + 1)
  }

  /** Creation skips what is not positive instead of removing it. */
  function NewLines(w: World, lines: seq<Line>, wanted: seq<Wanted>, k: nat): Result<seq<Line>>
    requires k <= |wanted|
    decreases |wanted| - k
  {
    if k == |wanted| then Done(lines)
    else if wanted[k].qty <= 0 then NewLines(w, lines, wanted, k + 1)
    else if wanted[k].item !in w.items then Fail(Storage)
    else NewLines(w, PutLine(lines, wanted[k].item, wanted[k].qty), wanted, k + 1)
  }

  function CreateOrder(w: World, db: Db, id: Uuid, supplier: Uuid, wanted: seq<Wanted>): Result<Db> {
    if supplier !in w.suppliers then Fail(OrderNotFound)
    else if wanted == [] then Fail(EmptyOrder)
    else if FindOrder(db.orders, id).Some? then Fail(Storage)
    else
      var lines :- NewLines(w, [], wanted, 0);
      Done(db.(orders := db.orders + [Order(id, supplier, Draft, None, lines)]))
  }

  /** The writes of an update, once its check has seen a draft. */
  function WriteLines(w: World, db: Db, i: nat, wanted: seq<Wanted>): Result<Db>
    requires i < |db.orders|
  {
    var lines :- PutLines(w, db.orders[i].lines, wanted, 0);
    Done(db.(orders := db.orders[i := db.orders[i].(lines := lines)]))
  }

  function UpdateLines(w: World, db: Db, id: Uuid, wanted: seq<Wanted>): Result<Db> {
    var i := FindOrder(db.orders, id);
    if i.None? then Fail(OrderNotFound)
    else if db.orders[i.value].status != Draft then Fail(WrongStatus)
    else WriteLines(w, db, i.value, wanted)
  }

  function Send(w: World, db: Db, id: Uuid): Result<Db> {
    var i := FindOrder(db.orders, id);
    if i.None? then Fail(OrderNotFound)
    else
      var o := db.orders[i.value];
      if o.status == Sent then Fail(AlreadySent)
      else if o.status != Draft then Fail(WrongStatus)
      else if o.lines == [] then Fail(EmptyOrder)
      else if o.supplier !in w.suppliers then Fail(Storage)
      else
        var d1 := WindowAt(w.now, w.suppliers[o.supplier]).d1;
        RefreshLines(w, db.(orders := db.orders[i.value := o.(status := Sent, expected := Some(d1))]), o.lines, 0)
  }

  function Cancel(w: World, db: Db, id: Uuid): Result<Db> {
    var i := FindOrder(db.orders, id);
    if i.None? then Fail(OrderNotFound)
    else
      var o := db.orders[i.value];
      if o.status == Received then Fail(AlreadyReceived)
      else if o.status == Cancelled then Done(db)
      else RefreshLines(w, db.(orders := WithStatus(db.orders, i.value, Cancelled)), o.lines, 0)
  }

  /** A delivery being taken in: quantities that differ from the order, the author, the
      idempotency key of the call, and the identifiers drawn per line. */
  datatype Arrival = Arrival(order: Uuid, actual: map<Uuid, Qty>, author: Uuid, key: string, ids: nat -> Uuid)

  function ReceivedQty(line: Line, a: Arrival): Qty {
    if line.item in a.actual then a.actual[line.item] else line.ordered
  }

  function LineKey(a: Arrival, item: Uuid): string { a.key + ":" + Text(a.order) + ":" + Text(item) }

  function ReceiptRequest(w: World, a: Arrival, k: nat, line: Line): Request {
    Request(a.ids(k), line.item, Receipt, ReceivedQty(line, a), Some(w.now), Some(a.author), "",
            Some(a.order), None, LineKey(a, line.item))
  }

  function SetReceived(orders: seq<Order>, i: nat, k: nat, q: Qty): seq<Order> {
    if i < |orders| && k < |orders[i].lines| then
      orders[i := orders[i].(lines := orders[i].lines[k := orders[i].lines[k].(received := Some(q))])]
    else orders
  }

  /** One line of the i-th order: note the quantity and record its receipt. */
  function ReceiveLine(w: World, db: Db, i: nat, line: Line, a: Arrival, k: nat): Result<Db> {
    var q := ReceivedQty(line, a);
    if q < 0 then Fail(NegativeReceived)
    else
      var marked := db.(orders := SetReceived(db.orders, i, k, q));
      if q == 0 then Done(marked) else RecordMovement(w, marked, ReceiptRequest(w, a, k, line))
  }

  /** The lines from the k-th on, after the order has been marked received. */
  function ReceiveFrom(w: World, db: Db, i: nat, lines: seq<Line>, a: Arrival, k: nat): Result<Db>
    requires k <= |lines|
    decreases |lines| - k
  {
    if k == |lines| then Done(db)
    else
      var n :- ReceiveLine(w, db, i, lines[k], a, k);
      ReceiveFrom(w, n, i, lines, a, k + 1)
  }

  function Receive(w: World, db: Db, a: Arrival): Result<Db> {
    var i := FindOrder(db.orders, a.order);
    if i.None? then Fail(OrderNotFound)
    else
      var o := db.orders[i.value];
      if o.status == Received then Fail(AlreadyReceived)
      else if o.status != Sent then Fail(WrongStatus)
      else if o.lines == [] then Fail(EmptyOrder)
      else ReceiveFrom(w, db.(orders := WithStatus(db.orders, i.value, Received)), i.value, o.lines, a, 0)
  }
}
