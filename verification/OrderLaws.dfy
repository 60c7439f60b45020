/** The life of an order, and the freshness of statuses over whole runs. */
module OrderLaws {
  import opened Options
  import opened Quantity
  import opened Identifiers
  import opened DeliveryWindow
  import opened Reorder
  import opened Catalog
  import opened Journal
  import opened Shop
  import opened ShopLaws
  import opened ReceiptLaws

  // ---- Well-formed orders ----

  ghost predicate LinesValid(w: World, lines: seq<Line>) {
    DistinctItems(lines) && forall line :: line in lines ==> line.ordered > 0 && line.item in w.items
  }

  ghost predicate OrderValid(w: World, o: Order) {
    && LinesValid(w, o.lines)
    && (o.status == Draft ==> o.expected.None?)
    && (o.status == Sent || o.status == Received ==> o.expected.Some?)
  }

  ghost predicate OrdersValid(w: World, orders: seq<Order>) {
    forall i :: 0 <= i < |orders| ==> OrderValid(w, orders[i])
  }

  /** What may have become of an order: a closed one is as it was, a sent one keeps its
      lines, its supplier and its expected day and never returns to draft. */
  predicate Later(a: Order, b: Order) {
    && a.id == b.id && a.supplier == b.supplier
    && (a.status == Received || a.status == Cancelled ==> b == a)
    && (a.status == Sent ==> b.status != Draft && b.expected == a.expected && SameOrdered(a.lines, b.lines))
  }

  predicate SameOrdered(a: seq<Line>, b: seq<Line>) {
    |a| == |b| && forall k :: 0 <= k < |a| ==> a[k].item == b[k].item && a[k].ordered == b[k].ordered
  }

  predicate AllLater(a: seq<Order>, b: seq<Order>) {
    |a| <= |b| && forall i :: 0 <= i < |a| ==> Later(a[i], b[i])
  }

  lemma LaterTransitive(a: seq<Order>, b: seq<Order>, c: seq<Order>)
    requires AllLater(a, b) && AllLater(b, c)
    ensures AllLater(a, c)
  {
    forall i | 0 <= i < |a| ensures Later(a[i], c[i]) {
      assert Later(a[i], b[i]) && Later(b[i], c[i]);
    }
  }

  // ---- Lines ----

  lemma {:induction false} PutLineItems(lines: seq<Line>, item: Uuid, q: Qty)
    ensures forall line :: line in PutLine(lines, item, q) ==>
              (exists prior :: prior in lines && prior.item == line.item && (line.item != item ==> line == prior)) || line.item == item
  {
    if lines != [] && lines[0].item != item { PutLineItems(lines[1..], item, q); }
  }

  lemma {:induction false} PutLineValid(w: World, lines: seq<Line>, item: Uuid, q: Qty)
    requires LinesValid(w, lines) && (q > 0 ==> item in w.items)
    ensures LinesValid(w, PutLine(lines, item, q))
  {
    var n := PutLine(lines, item, q);
    if lines != [] {
      assert LinesValid(w, lines[1..]);
      if lines[0].item != item {
        PutLineValid(w, lines[1..], item, q);
        PutLineItems(lines[1..], item, q);
        var rest := PutLine(lines[1..], item, q);
        assert n == [lines[0]] + rest;
        forall j | 0 <= j < |rest| ensures rest[j].item != lines[0].item { assert rest[j] in rest; }
      }
    }
  }

  lemma {:induction false} PutLinesValid(w: World, lines: seq<Line>, wanted: seq<Wanted>, k: nat)
    requires k <= |wanted| && LinesValid(w, lines) && PutLines(w, lines, wanted, k).Done?
    ensures LinesValid(w, PutLines(w, lines, wanted, k).value)
    decreases |wanted| - k
  {
    if k < |wanted| {
      PutLineValid(w, lines, wanted[k].item, wanted[k].qty);
      PutLinesValid(w, PutLine(lines, wanted[k].item, wanted[k].qty), wanted, k + 1);
    }
  }

  lemma {:induction false} NewLinesValid(w: World, lines: seq<Line>, wanted: seq<Wanted>, k: nat)
    requires k <= |wanted| && LinesValid(w, lines) && NewLines(w, lines, wanted, k).Done?
    ensures LinesValid(w, NewLines(w, lines, wanted, k).value)
    decreases |wanted| - k
  {
    if k < |wanted| {
      if wanted[k].qty <= 0 {
        NewLinesValid(w, lines, wanted, k + 1);
      } else {
        PutLineValid(w, lines, wanted[k].item, wanted[k].qty);
        NewLinesValid(w, PutLine(lines, wanted[k].item, wanted[k].qty), wanted, k + 1);
      }
    }
  }

  // ---- Effects on the orders ----

  /** Receiving marks the lines of one order and leaves everything else. */
  predicate OnlyMarks(a: seq<Order>, b: seq<Order>, i: nat) {
    && |a| == |b|
    && (forall j :: 0 <= j < |a| && j != i ==> a[j] == b[j])
    && (i < |a| ==> b[i] == a[i].(lines := b[i].lines) && SameOrdered(a[i].lines, b[i].lines))
  }

  lemma RecordOrders(w: World, db: Db, r: Request)
    requires RecordMovement(w, db, r).Done?
    ensures RecordMovement(w, db, r).value.orders == db.orders
  {
  }

  lemma {:induction false} ReceiveOrders(w: World, db: Db, i: nat, lines: seq<Line>, a: Arrival, k: nat)
    requires k <= |lines| && ReceiveFrom(w, db, i, lines, a, k).Done?
    ensures OnlyMarks(db.orders, ReceiveFrom(w, db, i, lines, a, k).value.orders, i)
    decreases |lines| - k
  {
    if k < |lines| {
      var n := ReceiveLine(w, db, i, lines[k], a, k).value;
      var q := ReceivedQty(lines[k], a);
      var marked := db.(orders := SetReceived(db.orders, i, k, q));
      if q > 0 { RecordOrders(w, marked, ReceiptRequest(w, a, k, lines[k])); }
      assert OnlyMarks(db.orders, n.orders, i);
      ReceiveOrders(w, n, i, lines, a, k + 1);
    }
  }

  lemma {:induction false} PostOrders(w: World, db: Db, p: Posting, lines: seq<CountLine>, k: nat, changed: seq<ChangedLine>)
    requires k <= |lines| && PostFrom(w, db, p, lines, k, changed).Done?
    ensures PostFrom(w, db, p, lines, k, changed).value.0.orders == db.orders
    decreases |lines| - k
  {
    if k < |lines| {
      var r := PostLine(w, db, p, lines[k], k).value;
      PostOrders(w, r.0, p, lines, k + 1, changed + r.1);
    }
  }

  /** What one operation does to the list of orders. */
  lemma StepOrders(w: World, db: Db, op: Op)
    requires OrdersValid(w, db.orders)
    ensures OrdersValid(w, Apply(w, db, op).orders) && AllLater(db.orders, Apply(w, db, op).orders)
  {
    hide Decide, WindowAt;
    var n := Apply(w, db, op);
    if Try(w, db, op).Done? {
      match op
      case DoRecord(r) => RecordOrders(w, db, r);
      case DoReverse(u) =>
      case DoPost(p) => PostOrders(w, db, p, db.counts[p.count].lines, 0, []);
      case DoCreateCount(_, _) =>
      case DoSetCounted(_, _) =>
      case DoCreateOrder(id, supplier, wanted) => NewLinesValid(w, [], wanted, 0);
      case DoUpdateLines(id, wanted) =>
        PutLinesValid(w, db.orders[FindOrder(db.orders, id).value].lines, wanted, 0);
      case DoSend(id) => SendOrders(w, db, id);
      case DoCancel(id) => CancelOrders(w, db, id);
      case DoReceive(a) => ReceiveWholeOrders(w, db, a);
    }
  }

  lemma SendOrders(w: World, db: Db, id: Uuid)
    requires OrdersValid(w, db.orders) && Send(w, db, id).Done?
    ensures OrdersValid(w, Send(w, db, id).value.orders) && AllLater(db.orders, Send(w, db, id).value.orders)
  {
    var i := FindOrder(db.orders, id).value;
    var o := db.orders[i];
    var d1 := WindowAt(w.now, w.suppliers[o.supplier]).d1;
    RefreshLinesFacts(w, db.(orders := db.orders[i := o.(status := Sent, expected := Some(d1))]), o.lines, 0);
  }

  lemma CancelOrders(w: World, db: Db, id: Uuid)
    requires OrdersValid(w, db.orders) && Cancel(w, db, id).Done?
    ensures OrdersValid(w, Cancel(w, db, id).value.orders) && AllLater(db.orders, Cancel(w, db, id).value.orders)
  {
    var i := FindOrder(db.orders, id).value;
    if db.orders[i].status != Cancelled {
      RefreshLinesFacts(w, db.(orders := WithStatus(db.orders, i, Cancelled)), db.orders[i].lines, 0);
    }
  }

  lemma MarkedValid(w: World, a: Order, b: Order)
    requires OrderValid(w, a) && b == a.(lines := b.lines) && SameOrdered(a.lines, b.lines)
    ensures OrderValid(w, b)
  {
    forall line | line in b.lines ensures line.ordered > 0 && line.item in w.items {
      var k :| 0 <= k < |b.lines| && b.lines[k] == line;
      assert a.lines[k] in a.lines;
    }
  }

  lemma ReceiveWholeOrders(w: World, db: Db, a: Arrival)
    requires OrdersValid(w, db.orders) && Receive(w, db, a).Done?
    ensures OrdersValid(w, Receive(w, db, a).value.orders) && AllLater(db.orders, Receive(w, db, a).value.orders)
  {
    var i := FindOrder(db.orders, a.order).value;
    var n := Receive(w, db, a).value;
    ReceiveOrders(w, db.(orders := WithStatus(db.orders, i, Received)), i, db.orders[i].lines, a, 0);
    MarkedValid(w, db.orders[i].(status := Received), n.orders[i]);
  }

  /** Over every run received and cancelled orders never change again and the lines of
      an order are frozen once it is sent. */
  lemma {:induction false} RunOrders(w: World, db: Db, ops: seq<Op>)
    requires OrdersValid(w, db.orders)
    ensures OrdersValid(w, Run(w, db, ops).orders) && AllLater(db.orders, Run(w, db, ops).orders)
    decreases ops
  {
    if ops != [] {
      StepOrders(w, db, ops[0]);
      RunOrders(w, Apply(w, db, ops[0]), ops[1..]);
      LaterTransitive(db.orders, Apply(w, db, ops[0]).orders, Run(w, db, ops).orders);
    }
  }

  // ---- Fresh statuses over runs ----

  /** A receipt that skips no line and replays no key. */
  ghost predicate Careful(w: World, db: Db, op: Op) {
    op.DoReceive? && FindOrder(db.orders, op.a.order).Some? ==>
      Complete(db.ledger, db.orders[FindOrder(db.orders, op.a.order).value].lines, op.a)
  }

  ghost predicate CarefulRun(w: World, db: Db, ops: seq<Op>)
    decreases ops
  {
    ops != [] ==> Careful(w, db, ops[0]) && CarefulRun(w, Apply(w, db, ops[0]), ops[1..])
  }

  lemma StepFresh(w: World, db: Db, op: Op)
    requires Fresh(w, db) && OrdersValid(w, db.orders) && Careful(w, db, op)
    ensures Fresh(w, Apply(w, db, op))
  {
    hide Decide, WindowAt;
    var n := Apply(w, db, op);
    if Try(w, db, op).Done? {
      match op
      case DoRecord(r) => RecordTxFresh(w, db, r, {});
      case DoReverse(u) => AppendFresh(w, db, ReversalRow(w, ById(db.ledger.journal, u.target).value, u), {});
      case DoPost(p) =>
        PostFresh(w, db, p, db.counts[p.count].lines, 0, []);
        StillFresh(w, PostFrom(w, db, p, db.counts[p.count].lines, 0, []).value.0, n, {});
      case DoSend(id) => SendFresh(w, db, id);
      case DoCancel(id) => CancelFresh(w, db, id);
      case DoReceive(a) => ReceiveFreshBut(w, db, a);
      case DoCreateCount(_, _) => StillFresh(w, db, n, {});
      case DoSetCounted(_, _) => StillFresh(w, db, n, {});
      case DoCreateOrder(id, supplier, wanted) =>
        DraftView(w, db, n.orders[|db.orders|]);
        StillFresh(w, db, n, {});
      case DoUpdateLines(id, wanted) =>
        var i := FindOrder(db.orders, id).value;
        forall item: Uuid ensures SameView(w, db, n, item) { TransitUpdate(db.orders, i, n.orders[i], item); }
        StillFresh(w, db, n, {});
    }
  }

  lemma SendFresh(w: World, db: Db, id: Uuid)
    requires Fresh(w, db) && Send(w, db, id).Done?
    ensures Fresh(w, Send(w, db, id).value)
  {
    var i := FindOrder(db.orders, id).value;
    var o := db.orders[i];
    var sent := o.(status := Sent, expected := Some(WindowAt(w.now, w.suppliers[o.supplier]).d1));
    StatusFresh(w, db, i, sent);
    RefreshLinesFresh(w, db.(orders := db.orders[i := sent]), o.lines, 0);
  }

  lemma CancelFresh(w: World, db: Db, id: Uuid)
    requires Fresh(w, db) && Cancel(w, db, id).Done?
    ensures Fresh(w, Cancel(w, db, id).value)
  {
    var i := FindOrder(db.orders, id).value;
    var o := db.orders[i];
    if o.status != Cancelled {
      StatusFresh(w, db, i, o.(status := Cancelled));
      RefreshLinesFresh(w, db.(orders := WithStatus(db.orders, i, Cancelled)), o.lines, 0);
    }
  }

  lemma {:induction false} TransitDraft(orders: seq<Order>, o: Order, item: Uuid)
    requires o.status != Sent
    ensures InTransit(orders + [o], item) == InTransit(orders, item)
  {
    if orders != [] {
      assert (orders + [o])[1..] == orders[1..] + [o];
      TransitDraft(orders[1..], o, item);
    } else {
      assert InTransit([o], item) == OrderDeliveries(o, item) + InTransit([], item);
    }
  }

  lemma DraftView(w: World, db: Db, o: Order)
    requires o.status == Draft
    ensures forall item: Uuid :: SameView(w, db, db.(orders := db.orders + [o]), item)
  {
    forall item: Uuid ensures SameView(w, db, db.(orders := db.orders + [o]), item) { TransitDraft(db.orders, o, item); }
  }

  /** With clock and catalogue frozen, every run whose receipts skip no line keeps each
      stored status equal to a fresh decision. */
  lemma {:induction false} RunFresh(w: World, db: Db, ops: seq<Op>)
    requires Fresh(w, db) && OrdersValid(w, db.orders) && CarefulRun(w, db, ops)
    ensures Fresh(w, Run(w, db, ops))
    decreases ops
  {
    if ops != [] {
      StepFresh(w, db, ops[0]);
      StepOrders(w, db, ops[0]);
      RunFresh(w, Apply(w, db, ops[0]), ops[1..]);
    }
  }
}
