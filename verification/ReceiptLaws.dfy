/** Receiving an order: what it records, and which cached statuses it leaves fresh. */
module ReceiptLaws {
  import opened Options
  import opened Quantity
  import opened Identifiers
  import opened DeliveryWindow
  import opened Reorder
  import opened Catalog
  import opened Journal
  import opened Shop
  import opened ShopLaws

  predicate DistinctItems(lines: seq<Line>) {
    forall i, j :: 0 <= i < j < |lines| ==> lines[i].item != lines[j].item
  }

  /** Keys of the lines that will be recorded have not been used before. */
  ghost predicate KeysUnused(l: Ledger, lines: seq<Line>, a: Arrival, k: nat) {
    forall j :: k <= j < |lines| && ReceivedQty(lines[j], a) > 0 ==>
      forall m :: m in l.journal ==> m.key != LineKey(a, lines[j].item)
  }

  lemma LineKeysDiffer(a: Arrival, x: Uuid, y: Uuid)
    requires x != y
    ensures LineKey(a, x) != LineKey(a, y)
  {
    var p := a.key + ":" + Text(a.order) + ":";
    TextRoundTrip(x);
    TextRoundTrip(y);
    assert LineKey(a, x)[|p|..] == Text(x) && LineKey(a, y)[|p|..] == Text(y);
  }

  function Marked(db: Db, i: nat, k: nat, q: Qty): Db { db.(orders := SetReceived(db.orders, i, k, q)) }

  function ReceiptRow(w: World, a: Arrival, k: nat, line: Line): Movement { Row(w, ReceiptRequest(w, a, k, line)) }

  function WithRow(l: Ledger, m: Movement): Ledger {
    Ledger(l.journal + [m], l.balance[m.item := l.OnHand(m.item) + m.qty])
  }

  /** The database after one line has been taken in. */
  function AfterLine(w: World, db: Db, i: nat, lines: seq<Line>, a: Arrival, k: nat): Db
    requires k < |lines|
  {
    var r := ReceiveLine(w, db, i, lines[k], a, k);
    if r.Done? then r.value else db
  }

  /** A recorded request under an unused key appends its row and touches no document. */
  lemma RecordLands(w: World, db: Db, r: Request)
    requires RecordMovement(w, db, r).Done? && forall m :: m in db.ledger.journal ==> m.key != r.key
    ensures
      var n := RecordMovement(w, db, r).value;
      && Replay(db.ledger, r).None?
      && RecordTx(w, db, r) == Done(n)
      && n.orders == db.orders && n.counts == db.counts
      && n.ledger == WithRow(db.ledger, Row(w, r))
  {
    ByKeyFinds(db.ledger.journal, r.key);
  }

  /** One received line: its receipt is appended, nothing else is recorded. */
  lemma OneLine(w: World, db: Db, i: nat, lines: seq<Line>, a: Arrival, k: nat)
    requires k < |lines| && ReceiveFrom(w, db, i, lines, a, k).Done? && KeysUnused(db.ledger, lines, a, k)
    ensures
      var q, marked, n := ReceivedQty(lines[k], a), Marked(db, i, k, ReceivedQty(lines[k], a)), AfterLine(w, db, i, lines, a, k);
      && q >= 0
      && ReceiveFrom(w, db, i, lines, a, k) == ReceiveFrom(w, n, i, lines, a, k + 1)
      && n.orders == marked.orders && n.counts == db.counts
      && n.ledger == (if q == 0 then db.ledger else WithRow(db.ledger, ReceiptRow(w, a, k, lines[k])))
      && (q > 0 ==> Replay(db.ledger, ReceiptRequest(w, a, k, lines[k])).None?
                    && RecordTx(w, marked, ReceiptRequest(w, a, k, lines[k])) == Done(n))
  {
    var q := ReceivedQty(lines[k], a);
    if q > 0 { RecordLands(w, Marked(db, i, k, q), ReceiptRequest(w, a, k, lines[k])); }
  }

  lemma StillUnused(w: World, db: Db, i: nat, lines: seq<Line>, a: Arrival, k: nat)
    requires k < |lines| && DistinctItems(lines) && KeysUnused(db.ledger, lines, a, k)
    requires ReceiveFrom(w, db, i, lines, a, k).Done?
    ensures KeysUnused(AfterLine(w, db, i, lines, a, k).ledger, lines, a, k + 1)
  {
    OneLine(w, db, i, lines, a, k);
    forall j | k < j < |lines| ensures LineKey(a, lines[k].item) != LineKey(a, lines[j].item) {
      LineKeysDiffer(a, lines[k].item, lines[j].item);
    }
  }

  // ---- What is recorded ----

  function LineReceipt(w: World, line: Line, a: Arrival, k: nat): seq<Movement> {
    if ReceivedQty(line, a) > 0 then [ReceiptRow(w, a, k, line)] else []
  }

  /** One receipt per line with a positive quantity, in line order. */
  function Receipts(w: World, lines: seq<Line>, a: Arrival, k: nat): seq<Movement>
    requires k <= |lines|
    decreases |lines| - k
  {
    if k == |lines| then []
    else LineReceipt(w, lines[k], a, k) + Receipts(w, lines, a, k + 1)
  }

  lemma LineRecords(w: World, db: Db, i: nat, lines: seq<Line>, a: Arrival, k: nat)
    requires k < |lines| && ReceiveFrom(w, db, i, lines, a, k).Done? && KeysUnused(db.ledger, lines, a, k)
    ensures AfterLine(w, db, i, lines, a, k).ledger.journal == db.ledger.journal + LineReceipt(w, lines[k], a, k)
    ensures ReceiveFrom(w, db, i, lines, a, k) == ReceiveFrom(w, AfterLine(w, db, i, lines, a, k), i, lines, a, k + 1)
  {
    OneLine(w, db, i, lines, a, k);
  }

  lemma {:induction false} ReceiveRecords(w: World, db: Db, i: nat, lines: seq<Line>, a: Arrival, k: nat)
    requires k <= |lines| && DistinctItems(lines) && KeysUnused(db.ledger, lines, a, k)
    requires ReceiveFrom(w, db, i, lines, a, k).Done?
    ensures ReceiveFrom(w, db, i, lines, a, k).value.ledger.journal == db.ledger.journal + Receipts(w, lines, a, k)
    decreases |lines| - k
  {
    if k < |lines| {
      var n := AfterLine(w, db, i, lines, a, k);
      LineRecords(w, db, i, lines, a, k);
      StillUnused(w, db, i, lines, a, k);
      ReceiveRecords(w, n, i, lines, a, k + 1);
      Regroup(db.ledger.journal, LineReceipt(w, lines[k], a, k), Receipts(w, lines, a, k + 1));
    }
  }

  lemma Regroup(x: seq<Movement>, y: seq<Movement>, z: seq<Movement>)
    ensures x + (y + z) == x + y + z
  {
  }

  /** A successful receipt adds exactly one row per line received in a positive
      quantity, and nothing else. */
  lemma ReceiveAddsReceipts(w: World, db: Db, a: Arrival)
    requires Receive(w, db, a).Done?
    requires var o := db.orders[FindOrder(db.orders, a.order).value];
             DistinctItems(o.lines) && KeysUnused(db.ledger, o.lines, a, 0)
    ensures
      var o := db.orders[FindOrder(db.orders, a.order).value];
      Receive(w, db, a).value.ledger.journal == db.ledger.journal + Receipts(w, o.lines, a, 0)
  {
    var i := FindOrder(db.orders, a.order).value;
    ReceiveRecords(w, db.(orders := WithStatus(db.orders, i, Received)), i, db.orders[i].lines, a, 0);
  }

  // ---- Conservation ----

  function Total(ds: seq<Delivery>): Qty {
    if ds == [] then 0 else ds[0].qty + Total(ds[1..])
  }

  function TotalInTransit(orders: seq<Order>, item: Uuid): Qty { Total(InTransit(orders, item)) }

  /** What the lines from the k-th on bring of an item. */
  function Brings(lines: seq<Line>, a: Arrival, k: nat, item: Uuid): Qty
    requires k <= |lines|
    decreases |lines| - k
  {
    if k == |lines| then 0
    else (if lines[k].item == item then ReceivedQty(lines[k], a) else 0) + Brings(lines, a, k + 1, item)
  }

  lemma {:induction false} TotalConcat(x: seq<Delivery>, y: seq<Delivery>)
    ensures Total(x + y) == Total(x) + Total(y)
  {
    if x == [] { assert x + y == y; } else {
      assert (x + y)[1..] == x[1..] + y;
      TotalConcat(x[1..], y);
    }
  }

  lemma {:induction false} TransitReplace(orders: seq<Order>, i: nat, o: Order, item: Uuid)
    requires i < |orders|
    ensures TotalInTransit(orders[i := o], item)
         == TotalInTransit(orders, item) - Total(OrderDeliveries(orders[i], item)) + Total(OrderDeliveries(o, item))
  {
    var n := orders[i := o];
    TotalConcat(OrderDeliveries(orders[0], item), InTransit(orders[1..], item));
    TotalConcat(OrderDeliveries(n[0], item), InTransit(n[1..], item));
    if i > 0 {
      assert n[1..] == orders[1..][i - 1 := o];
      TransitReplace(orders[1..], i - 1, o, item);
    } else {
      assert n[1..] == orders[1..];
    }
  }

  /** Without overrides a line brings what the order had in transit. */
  lemma {:induction false} BringsOrdered(lines: seq<Line>, a: Arrival, k: nat, day: Day, item: Uuid)
    requires k <= |lines| && a.actual == map[]
    ensures Brings(lines, a, k, item) == Total(LineDeliveries(lines[k..], day, item))
    decreases |lines| - k
  {
    if k < |lines| {
      assert lines[k..][1..] == lines[k + 1..];
      BringsOrdered(lines, a, k + 1, day, item);
      TotalConcat(if lines[k].item == item then [Delivery(day, lines[k].ordered)] else [],
                  LineDeliveries(lines[k + 1..], day, item));
    }
  }

  lemma {:induction false} ReceiveBalances(w: World, db: Db, i: nat, lines: seq<Line>, a: Arrival, k: nat, item: Uuid)
    requires k <= |lines| && DistinctItems(lines) && KeysUnused(db.ledger, lines, a, k)
    requires i < |db.orders| && db.orders[i].status == Received && ReceiveFrom(w, db, i, lines, a, k).Done?
    ensures
      var n := ReceiveFrom(w, db, i, lines, a, k).value;
      && n.ledger.OnHand(item) == db.ledger.OnHand(item) + Brings(lines, a, k, item)
      && InTransit(n.orders, item) == InTransit(db.orders, item)
    decreases |lines| - k
  {
    if k < |lines| {
      var n := AfterLine(w, db, i, lines, a, k);
      OneLine(w, db, i, lines, a, k);
      StillUnused(w, db, i, lines, a, k);
      MarkedTransit(db.orders, i, k, ReceivedQty(lines[k], a), item);
      ReceiveBalances(w, n, i, lines, a, k + 1, item);
    }
  }

  lemma MarkedTransit(orders: seq<Order>, i: nat, k: nat, q: Qty, item: Uuid)
    requires i < |orders| && orders[i].status == Received
    ensures var n := SetReceived(orders, i, k, q);
      |n| == |orders| && n[i].status == Received && InTransit(n, item) == InTransit(orders, item)
  {
    if k < |orders[i].lines| { TransitUpdate(orders, i, SetReceived(orders, i, k, q)[i], item); }
  }

  /** Taking in exactly what was ordered moves it from transit to stock: for every item
      on-hand plus in-transit is unchanged. */
  lemma ReceiveConserves(w: World, db: Db, a: Arrival, item: Uuid)
    requires Receive(w, db, a).Done? && a.actual == map[]
    requires
      var o := db.orders[FindOrder(db.orders, a.order).value];
      o.expected.Some? && DistinctItems(o.lines) && KeysUnused(db.ledger, o.lines, a, 0)
    ensures
      var n := Receive(w, db, a).value;
      n.ledger.OnHand(item) + TotalInTransit(n.orders, item) == db.ledger.OnHand(item) + TotalInTransit(db.orders, item)
  {
    var i := FindOrder(db.orders, a.order).value;
    var o := db.orders[i];
    ReceiveBalances(w, db.(orders := WithStatus(db.orders, i, Received)), i, o.lines, a, 0, item);
    TransitReplace(db.orders, i, o.(status := Received), item);
    BringsOrdered(o.lines, a, 0, o.expected.value, item);
    assert o.lines[0..] == o.lines;
  }

  // ---- Cached statuses ----

  /** Items whose line is skipped because nothing of it arrived. */
  function Skipped(lines: seq<Line>, a: Arrival): set<Uuid> {
    set i | 0 <= i < |lines| && ReceivedQty(lines[i], a) == 0 :: lines[i].item
  }

  /** The order has left transit before its lines are refreshed one by one: the items
      still to come and the skipped ones are the only stale ones. */
  ghost predicate Receiving(w: World, db: Db, i: nat, lines: seq<Line>, a: Arrival, k: nat) {
    && i < |db.orders| && db.orders[i].status == Received
    && KeysUnused(db.ledger, lines, a, k)
    && FreshBut(w, db, ItemsFrom(lines, k) + Skipped(lines, a))
  }

  lemma RecordedFresh(w: World, db: Db, r: Request, n: Db, stale: set<Uuid>, left: set<Uuid>)
    requires FreshBut(w, db, stale) && RecordTx(w, db, r) == Done(n) && Replay(db.ledger, r).None?
    requires stale - {r.item} <= left
    ensures FreshBut(w, n, left)
  {
    RecordTxFresh(w, db, r, stale);
  }

  lemma LineFresh(w: World, db: Db, i: nat, lines: seq<Line>, a: Arrival, k: nat, n: Db)
    requires k < |lines| && i < |db.orders| && db.orders[i].status != Sent
    requires FreshBut(w, db, ItemsFrom(lines, k) + Skipped(lines, a))
    requires
      var q, r := ReceivedQty(lines[k], a), ReceiptRequest(w, a, k, lines[k]);
      if q == 0 then n == Marked(db, i, k, q)
      else Replay(db.ledger, r).None? && RecordTx(w, Marked(db, i, k, q), r) == Done(n)
    ensures FreshBut(w, n, ItemsFrom(lines, k + 1) + Skipped(lines, a))
  {
    var q := ReceivedQty(lines[k], a);
    var m := Marked(db, i, k, q);
    var stale, left := ItemsFrom(lines, k) + Skipped(lines, a), ItemsFrom(lines, k + 1) + Skipped(lines, a);
    StaleShrinks(lines, a, k);
    assert FreshBut(w, m, stale) by { MarkedView(w, db, i, k, q, stale); }
    if q != 0 { RecordedFresh(w, m, ReceiptRequest(w, a, k, lines[k]), n, stale, left); }
  }

  lemma StaleShrinks(lines: seq<Line>, a: Arrival, k: nat)
    requires k < |lines|
    ensures
      var stale, left := ItemsFrom(lines, k) + Skipped(lines, a), ItemsFrom(lines, k + 1) + Skipped(lines, a);
      stale - {lines[k].item} <= left && (ReceivedQty(lines[k], a) == 0 ==> stale == left)
  {
  }

  lemma ReceivingStep(w: World, db: Db, i: nat, lines: seq<Line>, a: Arrival, k: nat)
    requires k < |lines| && DistinctItems(lines) && Receiving(w, db, i, lines, a, k)
    requires ReceiveFrom(w, db, i, lines, a, k).Done?
    ensures Receiving(w, AfterLine(w, db, i, lines, a, k), i, lines, a, k + 1)
  {
    var n := AfterLine(w, db, i, lines, a, k);
    OneLine(w, db, i, lines, a, k);
    StillUnused(w, db, i, lines, a, k);
    LineFresh(w, db, i, lines, a, k, n);
    MarkedTransit(db.orders, i, k, ReceivedQty(lines[k], a), lines[k].item);
  }

  lemma {:induction false} ReceiveFresh(w: World, db: Db, i: nat, lines: seq<Line>, a: Arrival, k: nat)
    requires k <= |lines| && DistinctItems(lines) && Receiving(w, db, i, lines, a, k)
    requires ReceiveFrom(w, db, i, lines, a, k).Done?
    ensures FreshBut(w, ReceiveFrom(w, db, i, lines, a, k).value, Skipped(lines, a))
    decreases |lines| - k
  {
    if k < |lines| {
      OneLine(w, db, i, lines, a, k);
      ReceivingStep(w, db, i, lines, a, k);
      ReceiveFresh(w, AfterLine(w, db, i, lines, a, k), i, lines, a, k + 1);
    } else {
      assert ItemsFrom(lines, k) == {};
      assert ItemsFrom(lines, k) + Skipped(lines, a) == Skipped(lines, a);
    }
  }

  /** A receipt without skipped lines under unused keys. */
  ghost predicate Complete(l: Ledger, lines: seq<Line>, a: Arrival) {
    KeysUnused(l, lines, a, 0) && Skipped(lines, a) == {}
  }

  lemma ReceiveFreshBut(w: World, db: Db, a: Arrival)
    requires Fresh(w, db) && Receive(w, db, a).Done?
    requires var o := db.orders[FindOrder(db.orders, a.order).value];
             DistinctItems(o.lines) && KeysUnused(db.ledger, o.lines, a, 0)
    ensures
      var o := db.orders[FindOrder(db.orders, a.order).value];
      FreshBut(w, Receive(w, db, a).value, Skipped(o.lines, a))
  {
    var i := FindOrder(db.orders, a.order).value;
    var o := db.orders[i];
    var flipped := db.(orders := WithStatus(db.orders, i, Received));
    StatusFresh(w, db, i, o.(status := Received));
    assert FreshBut(w, flipped, ItemsFrom(o.lines, 0) + Skipped(o.lines, a));
    ReceiveFresh(w, flipped, i, o.lines, a, 0);
  }

  // ---- A skipped line leaves its status behind ----

  /** Receiving does not touch the row, the stock or the consumption of an item none of
      whose lines arrives. */
  lemma {:induction false} SkippedUntouched(w: World, db: Db, i: nat, lines: seq<Line>, a: Arrival, k: nat, item: Uuid)
    requires k <= |lines| && DistinctItems(lines) && KeysUnused(db.ledger, lines, a, k)
    requires forall j :: k <= j < |lines| && lines[j].item == item ==> ReceivedQty(lines[j], a) == 0
    requires ReceiveFrom(w, db, i, lines, a, k).Done?
    ensures
      var n := ReceiveFrom(w, db, i, lines, a, k).value;
      && (item in n.statuses <==> item in db.statuses)
      && (item in db.statuses ==> n.statuses[item] == db.statuses[item])
      && n.ledger.OnHand(item) == db.ledger.OnHand(item)
      && ConsumedOn(n.ledger.journal, item, w.Today()) == ConsumedOn(db.ledger.journal, item, w.Today())
    decreases |lines| - k
  {
    hide Decide, WindowAt;
    if k < |lines| {
      var n := AfterLine(w, db, i, lines, a, k);
      OneLine(w, db, i, lines, a, k);
      StillUnused(w, db, i, lines, a, k);
      if ReceivedQty(lines[k], a) > 0 {
        var j := db.ledger.journal;
        assert (j + [ReceiptRow(w, a, k, lines[k])])[..|j|] == j;
      }
      SkippedUntouched(w, n, i, lines, a, k + 1, item);
    }
  }

  lemma {:induction false} OneDelivery(lines: seq<Line>, k: nat, day: Day)
    requires k < |lines| && DistinctItems(lines)
    ensures LineDeliveries(lines, day, lines[k].item) == [Delivery(day, lines[k].ordered)]
  {
    if k == 0 {
      NoDeliveries(lines[1..], day, lines[0].item);
    } else {
      OneDelivery(lines[1..], k - 1, day);
    }
  }

  lemma FourParts(x: seq<Delivery>, y: seq<Delivery>, z: seq<Delivery>, t: seq<Delivery>)
    ensures x + (y + z + t) == x + y + z + t
  {
  }

  /** What is in transit of an item, split around one order. */
  lemma {:induction false} TransitSplit(orders: seq<Order>, i: nat, o: Order, item: Uuid) returns (pre: seq<Delivery>, post: seq<Delivery>)
    requires i < |orders|
    ensures InTransit(orders, item) == pre + OrderDeliveries(orders[i], item) + post
    ensures InTransit(orders[i := o], item) == pre + OrderDeliveries(o, item) + post
  {
    var n := orders[i := o];
    if i == 0 {
      pre, post := [], InTransit(orders[1..], item);
      assert n[1..] == orders[1..];
    } else {
      var before;
      before, post := TransitSplit(orders[1..], i - 1, o, item);
      pre := OrderDeliveries(orders[0], item) + before;
      assert n[1..] == orders[1..][i - 1 := o];
      FourParts(OrderDeliveries(orders[0], item), before, OrderDeliveries(orders[i], item), post);
      FourParts(OrderDeliveries(orders[0], item), before, OrderDeliveries(o, item), post);
    }
  }

  /** The delivery the k-th line of the i-th order announces makes no difference to the
      decision about its item: it is not counted before D2, and no projected day up to the
      first shortage needs it. */
  ghost predicate Immaterial(w: World, db: Db, i: nat, k: nat)
    requires i < |db.orders| && db.orders[i].expected.Some? && k < |db.orders[i].lines|
    requires db.orders[i].lines[k].item in w.items
  {
    var o, line := db.orders[i], db.orders[i].lines[k];
    var input := InputOf(w, db.ledger, db.orders, line.item);
    o.expected.value >= input.window.d2 && Spared(input, Delivery(o.expected.value, line.ordered))
  }

  /** The row of a skipped item is still fresh exactly when its announced delivery was
      immaterial. */
  lemma SkippedFreshIff(w: World, db: Db, a: Arrival, k: nat)
    requires Fresh(w, db) && Receive(w, db, a).Done?
    requires
      var o := db.orders[FindOrder(db.orders, a.order).value];
      && DistinctItems(o.lines) && KeysUnused(db.ledger, o.lines, a, 0) && o.expected.Some?
      && k < |o.lines| && o.lines[k].ordered > 0 && ReceivedQty(o.lines[k], a) == 0 && o.lines[k].item in db.statuses
    ensures
      var o := db.orders[FindOrder(db.orders, a.order).value];
      var item, n := o.lines[k].item, Receive(w, db, a).value;
      item in w.items && (FreshFor(w, n, item) <==> Immaterial(w, db, FindOrder(db.orders, a.order).value, k))
  {
    hide Decide, WindowAt;
    var i := FindOrder(db.orders, a.order).value;
    var o := db.orders[i];
    var item := o.lines[k].item;
    var flipped := db.(orders := WithStatus(db.orders, i, Received));
    var n := Receive(w, db, a).value;
    assert FreshFor(w, db, item);
    assert n.statuses[item] == db.statuses[item] && item in n.statuses && n.ledger.OnHand(item) == db.ledger.OnHand(item)
        && ConsumedOn(n.ledger.journal, item, w.Today()) == ConsumedOn(db.ledger.journal, item, w.Today()) by {
      SkippedUntouched(w, flipped, i, o.lines, a, 0, item);
    }
    assert InTransit(n.orders, item) == InTransit(flipped.orders, item) by {
      ReceiveBalances(w, flipped, i, o.lines, a, 0, item);
    }
    var pre, post := DroppedFromTransit(db.orders, i, k);
    var dv := Delivery(o.expected.value, o.lines[k].ordered);
    assert InputOf(w, n.ledger, n.orders, item) == InputOf(w, db.ledger, flipped.orders, item);
    SameRowIff(w, item, InputOf(w, db.ledger, db.orders, item), InputOf(w, n.ledger, n.orders, item), pre, dv, post);
  }

  /** Marking an order received takes exactly its one delivery of an item out of transit. */
  lemma DroppedFromTransit(orders: seq<Order>, i: nat, k: nat) returns (pre: seq<Delivery>, post: seq<Delivery>)
    requires i < |orders| && orders[i].status == Sent && orders[i].expected.Some?
    requires k < |orders[i].lines| && DistinctItems(orders[i].lines)
    ensures
      var line, item := orders[i].lines[k], orders[i].lines[k].item;
      && InTransit(orders, item) == pre + [Delivery(orders[i].expected.value, line.ordered)] + post
      && InTransit(WithStatus(orders, i, Received), item) == pre + post
  {
    var o := orders[i];
    pre, post := TransitSplit(orders, i, o.(status := Received), o.lines[k].item);
    OneDelivery(o.lines, k, o.expected.value);
    assert pre + [] + post == pre + post;
  }

  lemma SameRowIff(w: World, item: Uuid, input: Input, without: Input, pre: seq<Delivery>, dv: Delivery, post: seq<Delivery>)
    requires item in w.items && input.incoming == pre + [dv] + post && without == input.(incoming := pre + post) && dv.qty != 0
    ensures RowFor(w, item, Decide(input)) == RowFor(w, item, Decide(without))
            <==> dv.day >= input.window.d2 && Spared(input, dv)
  {
    DroppedDelivery(input, pre, dv, post);
  }

  /** A receipt keeps every stored status fresh exactly when each skipped line announced
      an immaterial delivery. */
  lemma ReceiveFreshIff(w: World, db: Db, a: Arrival)
    requires Fresh(w, db) && Receive(w, db, a).Done?
    requires
      var o := db.orders[FindOrder(db.orders, a.order).value];
      && DistinctItems(o.lines) && KeysUnused(db.ledger, o.lines, a, 0) && o.expected.Some?
      && forall line :: line in o.lines ==> line.ordered > 0 && line.item in w.items
    ensures
      var i := FindOrder(db.orders, a.order).value;
      var lines := db.orders[i].lines;
      Fresh(w, Receive(w, db, a).value) <==>
        forall k: nat :: k < |lines| && ReceivedQty(lines[k], a) == 0 && lines[k].item in w.items && lines[k].item in db.statuses
          ==> Immaterial(w, db, i, k)
  {
    hide Decide, WindowAt, Immaterial;
    var i := FindOrder(db.orders, a.order).value;
    var lines := db.orders[i].lines;
    var n := Receive(w, db, a).value;
    ReceiveFreshBut(w, db, a);
    forall k: nat | k < |lines| && ReceivedQty(lines[k], a) == 0
      ensures lines[k].item in w.items
      ensures lines[k].item in db.statuses ==> (FreshFor(w, n, lines[k].item) <==> Immaterial(w, db, i, k))
      ensures lines[k].item !in db.statuses ==> FreshFor(w, n, lines[k].item)
    {
      assert lines[k] in lines;
      if lines[k].item in db.statuses { SkippedFreshIff(w, db, a, k); }
      SkippedUntouched(w, db.(orders := WithStatus(db.orders, i, Received)), i, lines, a, 0, lines[k].item);
    }
  }

  /** A concrete case: one sent order, due today, whose only line arrives as zero. */
  function StaleWorld(): World {
    World(0, map[7 := Item(false, 95, 0, None, 0, 0, 0.0, None, [])], map[], _ => 1.0)
  }

  function StaleDb(): Db {
    var orders := [Order(1, 2, Sent, Some(0), [Line(7, 5000, None)])];
    Db(Ledger([], map[]), orders, map[], map[7 := FreshRow(StaleWorld(), Ledger([], map[]), orders, 7)], [])
  }

  function StaleArrival(): Arrival { Arrival(1, map[7 := 0], 3, "key", _ => 4) }

  lemma ZeroReceiptLeavesStaleStatus()
    ensures Fresh(StaleWorld(), StaleDb())
    ensures Receive(StaleWorld(), StaleDb(), StaleArrival()).Done?
    ensures !FreshFor(StaleWorld(), Receive(StaleWorld(), StaleDb(), StaleArrival()).value, 7)
  {
    hide Decide, Stockout;
    var w, db, a := StaleWorld(), StaleDb(), StaleArrival();
    var o := db.orders[0];
    assert ReceivedQty(o.lines[0], a) == 0;
    assert ReceiveLine(w, db.(orders := WithStatus(db.orders, 0, Received)), 0, o.lines[0], a, 0).Done?;
    SkippedFreshIff(w, db, a, 0);
  }
}
