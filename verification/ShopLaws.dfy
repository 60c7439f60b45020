/** What every run of the operations keeps. */
module ShopLaws {
  import opened Options
  import opened Quantity
  import opened Identifiers
  import opened DeliveryWindow
  import opened Reorder
  import opened Catalog
  import opened Journal
  import opened Shop

  // ---- Runs ----

  datatype Op =
    | DoRecord(r: Request)
    | DoReverse(u: Undo)
    | DoCreateCount(count: Uuid, items: seq<Uuid>)
    | DoSetCounted(count: Uuid, lines: seq<Wanted>)
    | DoPost(p: Posting)
    | DoCreateOrder(order: Uuid, supplier: Uuid, wanted: seq<Wanted>)
    | DoUpdateLines(order: Uuid, wanted: seq<Wanted>)
    | DoSend(order: Uuid)
    | DoCancel(order: Uuid)
    | DoReceive(a: Arrival)

  function Try(w: World, db: Db, op: Op): Result<Db> {
    match op
    case DoRecord(r) => RecordMovement(w, db, r)
    case DoReverse(u) => ReverseMovement(w, db, u)
    case DoCreateCount(id, items) => CreateCount(w, db, id, items)
    case DoSetCounted(id, lines) => SetCountLines(w, db, id, lines)
    case DoPost(p) => PostCount(w, db, p)
    case DoCreateOrder(id, supplier, wanted) => CreateOrder(w, db, id, supplier, wanted)
    case DoUpdateLines(id, wanted) => UpdateLines(w, db, id, wanted)
    case DoSend(id) => Send(w, db, id)
    case DoCancel(id) => Cancel(w, db, id)
    case DoReceive(a) => Receive(w, db, a)
  }

  /** A failed operation is rolled back. */
  function Apply(w: World, db: Db, op: Op): Db {
    var r := Try(w, db, op);
    if r.Done? then r.value else db
  }

  function Run(w: World, db: Db, ops: seq<Op>): Db
    decreases ops
  {
    if ops == [] then db else Run(w, Apply(w, db, ops[0]), ops[1..])
  }

  // ---- What each piece leaves alone ----

  /** Only status rows and alerts differ. */
  predicate SameFacts(a: Db, b: Db) { a.ledger == b.ledger && a.orders == b.orders && a.counts == b.counts }

  lemma {:induction false} RefreshLinesFacts(w: World, db: Db, lines: seq<Line>, k: nat)
    requires k <= |lines| && RefreshLines(w, db, lines, k).Done?
    ensures SameFacts(db, RefreshLines(w, db, lines, k).value)
    decreases |lines| - k
  {
    if k < |lines| { RefreshLinesFacts(w, Refresh(w, db, lines[k].item).value, lines, k + 1); }
  }

  // ---- The ledger stays sound ----

  lemma RecordTxSound(w: World, db: Db, r: Request)
    requires Sound(db.ledger) && RecordTx(w, db, r).Done?
    ensures Sound(RecordTx(w, db, r).value.ledger)
  {
    if Replay(db.ledger, r).None? { RecordSound(w, db.ledger, r); }
  }

  lemma EnsureSound(l: Ledger, item: Uuid)
    requires Sound(l)
    ensures Sound(Ensure(l, item))
  {
    forall i: Uuid ensures Ensure(l, item).OnHand(i) == l.OnHand(i) {}
  }

  lemma PostLineSound(w: World, db: Db, p: Posting, c: CountLine, k: nat)
    requires Sound(db.ledger) && PostLine(w, db, p, c, k).Done?
    ensures Sound(PostLine(w, db, p, c, k).value.0.ledger)
  {
    if c.counted.Some? {
      var l := Ensure(db.ledger, c.item);
      EnsureSound(db.ledger, c.item);
      var m := AdjustmentRow(w, p, k, c.item, c.counted.value - l.OnHand(c.item));
      if Append(l, m).Done? { AppendSound(l, m); }
    }
  }

  lemma {:induction false} PostSound(w: World, db: Db, p: Posting, lines: seq<CountLine>, k: nat, changed: seq<ChangedLine>)
    requires Sound(db.ledger) && k <= |lines| && PostFrom(w, db, p, lines, k, changed).Done?
    ensures Sound(PostFrom(w, db, p, lines, k, changed).value.0.ledger)
    decreases |lines| - k
  {
    if k < |lines| {
      var r := PostLine(w, db, p, lines[k], k).value;
      PostLineSound(w, db, p, lines[k], k);
      PostSound(w, r.0, p, lines, k + 1, changed + r.1);
    }
  }

  lemma {:induction false} ReceiveSound(w: World, db: Db, i: nat, lines: seq<Line>, a: Arrival, k: nat)
    requires Sound(db.ledger) && k <= |lines| && ReceiveFrom(w, db, i, lines, a, k).Done?
    ensures Sound(ReceiveFrom(w, db, i, lines, a, k).value.ledger)
    decreases |lines| - k
  {
    if k < |lines| {
      var n := ReceiveLine(w, db, i, lines[k], a, k).value;
      var q := ReceivedQty(lines[k], a);
      if q > 0 { RecordTxSound(w, db.(orders := SetReceived(db.orders, i, k, q)), ReceiptRequest(w, a, k, lines[k])); }
      ReceiveSound(w, n, i, lines, a, k + 1);
    }
  }

  lemma StepSound(w: World, db: Db, op: Op)
    requires Sound(db.ledger)
    ensures Sound(Apply(w, db, op).ledger)
  {
    hide Decide, WindowAt;
    if Try(w, db, op).Done? {
      match op
      case DoRecord(r) => RecordTxSound(w, db, r);
      case DoReverse(u) => ReverseSound(w, db.ledger, u);
      case DoPost(p) => PostSound(w, db, p, db.counts[p.count].lines, 0, []);
      case DoSend(id) => 
        var i := FindOrder(db.orders, id).value;
        var o := db.orders[i];
        var d1 := WindowAt(w.now, w.suppliers[o.supplier]).d1;
        RefreshLinesFacts(w, db.(orders := db.orders[i := o.(status := Sent, expected := Some(d1))]), o.lines, 0);
      case DoCancel(id) =>
        var i := FindOrder(db.orders, id).value;
        if db.orders[i].status != Cancelled {
          RefreshLinesFacts(w, db.(orders := WithStatus(db.orders, i, Cancelled)), db.orders[i].lines, 0);
        }
      case DoReceive(a) =>
        var i := FindOrder(db.orders, a.order).value;
        ReceiveSound(w, db.(orders := WithStatus(db.orders, i, Received)), i, db.orders[i].lines, a, 0);
      case DoCreateCount(_, _) =>
      case DoSetCounted(_, _) =>
      case DoCreateOrder(_, _, _) =>
      case DoUpdateLines(_, _) =>
    }
  }

  /** In every reachable state each balance is the sum of its journal rows and not
      negative, keys and reversals are unique. */
  lemma {:induction false} RunSound(w: World, db: Db, ops: seq<Op>)
    requires Sound(db.ledger)
    ensures Sound(Run(w, db, ops).ledger)
    decreases ops
  {
    if ops != [] {
      StepSound(w, db, ops[0]);
      RunSound(w, Apply(w, db, ops[0]), ops[1..]);
    }
  }

  // ---- Cached statuses ----

  /** The stored row of an item, if there is one, is what a recalculation would give. */
  ghost predicate FreshFor(w: World, db: Db, item: Uuid) {
    item in db.statuses ==> item in w.items && db.statuses[item] == FreshRow(w, db.ledger, db.orders, item)
  }

  ghost predicate FreshBut(w: World, db: Db, stale: set<Uuid>) {
    forall item: Uuid :: item !in stale ==> FreshFor(w, db, item)
  }

  ghost predicate Fresh(w: World, db: Db) { FreshBut(w, db, {}) }

  /** Nothing a decision about the item reads differs. */
  ghost predicate SameView(w: World, a: Db, b: Db, item: Uuid) {
    && a.ledger.OnHand(item) == b.ledger.OnHand(item)
    && InTransit(a.orders, item) == InTransit(b.orders, item)
    && ConsumedOn(a.ledger.journal, item, w.Today()) == ConsumedOn(b.ledger.journal, item, w.Today())
  }

  lemma SameViewSameRow(w: World, a: Db, b: Db, item: Uuid)
    requires SameView(w, a, b, item) && item in w.items
    ensures FreshRow(w, a.ledger, a.orders, item) == FreshRow(w, b.ledger, b.orders, item)
  {
    assert InputOf(w, a.ledger, a.orders, item) == InputOf(w, b.ledger, b.orders, item);
  }

  lemma StillFresh(w: World, a: Db, b: Db, stale: set<Uuid>)
    requires FreshBut(w, a, stale) && a.statuses == b.statuses
    requires forall item: Uuid :: item !in stale ==> SameView(w, a, b, item)
    ensures FreshBut(w, b, stale)
  {
    forall item: Uuid | item !in stale ensures FreshFor(w, b, item) {
      assert FreshFor(w, a, item);
      if item in b.statuses { SameViewSameRow(w, a, b, item); }
    }
  }

  lemma RefreshFresh(w: World, db: Db, item: Uuid, stale: set<Uuid>)
    requires FreshBut(w, db, stale) && Refresh(w, db, item).Done?
    ensures FreshBut(w, Refresh(w, db, item).value, stale - {item})
  {
    var n := Refresh(w, db, item).value;
    forall i: Uuid | i !in stale - {item} ensures FreshFor(w, n, i) {
      if i != item { assert FreshFor(w, db, i); }
    }
  }

  function ItemsFrom(lines: seq<Line>, k: nat): set<Uuid> {
    set i | k <= i < |lines| :: lines[i].item
  }

  lemma {:induction false} RefreshLinesFresh(w: World, db: Db, lines: seq<Line>, k: nat)
    requires k <= |lines| && FreshBut(w, db, ItemsFrom(lines, k)) && RefreshLines(w, db, lines, k).Done?
    ensures Fresh(w, RefreshLines(w, db, lines, k).value)
    decreases |lines| - k
  {
    if k < |lines| {
      RefreshFresh(w, db, lines[k].item, ItemsFrom(lines, k));
      assert ItemsFrom(lines, k) - {lines[k].item} <= ItemsFrom(lines, k + 1);
      RefreshLinesFresh(w, Refresh(w, db, lines[k].item).value, lines, k + 1);
    }
  }

  lemma AppendView(w: World, db: Db, m: Movement, item: Uuid)
    requires Append(db.ledger, m).Done? && item != m.item
    ensures SameView(w, db, db.(ledger := Append(db.ledger, m).value), item)
  {
    var j := db.ledger.journal;
    assert (j + [m])[..|j|] == j;
  }

  /** Recording or reversing one movement refreshes the one item it touches. */
  lemma AppendFresh(w: World, db: Db, m: Movement, stale: set<Uuid>)
    requires FreshBut(w, db, stale) && Append(db.ledger, m).Done?
    requires Refresh(w, db.(ledger := Append(db.ledger, m).value), m.item).Done?
    ensures FreshBut(w, Refresh(w, db.(ledger := Append(db.ledger, m).value), m.item).value, stale - {m.item})
  {
    var n := db.(ledger := Append(db.ledger, m).value);
    forall i: Uuid | i !in stale + {m.item} ensures SameView(w, db, n, i) { AppendView(w, db, m, i); }
    StillFresh(w, db, n, stale + {m.item});
    RefreshFresh(w, n, m.item, stale + {m.item});
  }

  lemma RecordTxFresh(w: World, db: Db, r: Request, stale: set<Uuid>)
    requires FreshBut(w, db, stale) && RecordTx(w, db, r).Done?
    ensures FreshBut(w, RecordTx(w, db, r).value, stale)
    ensures Replay(db.ledger, r).None? ==> FreshBut(w, RecordTx(w, db, r).value, stale - {r.item})
  {
    if Replay(db.ledger, r).None? {
      AppendFresh(w, db, Row(w, r), stale);
      assert FreshBut(w, RecordTx(w, db, r).value, stale - {r.item});
    }
  }

  lemma PostLineFresh(w: World, db: Db, p: Posting, c: CountLine, k: nat)
    requires Fresh(w, db) && PostLine(w, db, p, c, k).Done?
    ensures Fresh(w, PostLine(w, db, p, c, k).value.0)
  {
    if c.counted.Some? {
      var n := db.(ledger := Ensure(db.ledger, c.item));
      StillFresh(w, db, n, {});
      var m := AdjustmentRow(w, p, k, c.item, c.counted.value - n.ledger.OnHand(c.item));
      if PostLine(w, db, p, c, k) == Done((n, [])) || PostLine(w, db, p, c, k).value.1 != [] {
      } else {
        AppendFresh(w, n, m, {});
      }
    }
  }

  lemma {:induction false} PostFresh(w: World, db: Db, p: Posting, lines: seq<CountLine>, k: nat, changed: seq<ChangedLine>)
    requires Fresh(w, db) && k <= |lines| && PostFrom(w, db, p, lines, k, changed).Done?
    ensures Fresh(w, PostFrom(w, db, p, lines, k, changed).value.0)
    decreases |lines| - k
  {
    if k < |lines| {
      var r := PostLine(w, db, p, lines[k], k).value;
      PostLineFresh(w, db, p, lines[k], k);
      PostFresh(w, r.0, p, lines, k + 1, changed + r.1);
    }
  }

  // ---- Orders and what is in transit ----

  lemma {:induction false} TransitUpdate(orders: seq<Order>, i: nat, o: Order, item: Uuid)
    requires i < |orders| && OrderDeliveries(o, item) == OrderDeliveries(orders[i], item)
    ensures InTransit(orders[i := o], item) == InTransit(orders, item)
  {
    if i > 0 {
      assert orders[i := o][1..] == orders[1..][i - 1 := o];
      TransitUpdate(orders[1..], i - 1, o, item);
    } else {
      assert orders[0 := o][1..] == orders[1..];
    }
  }

  lemma {:induction false} NoDeliveries(lines: seq<Line>, day: Day, item: Uuid)
    requires forall line :: line in lines ==> line.item != item
    ensures LineDeliveries(lines, day, item) == []
  {
    if lines != [] { NoDeliveries(lines[1..], day, item); }
  }

  /** Changing the status of an order concerns only the items on its lines. */
  lemma StatusView(w: World, db: Db, i: nat, o: Order)
    requires i < |db.orders| && o.lines == db.orders[i].lines
    ensures forall item: Uuid :: item !in ItemsFrom(o.lines, 0) ==> SameView(w, db, db.(orders := db.orders[i := o]), item)
  {
    forall item: Uuid | item !in ItemsFrom(o.lines, 0) ensures SameView(w, db, db.(orders := db.orders[i := o]), item) {
      forall line | line in o.lines ensures line.item != item {
        var j :| 0 <= j < |o.lines| && o.lines[j] == line;
        assert line.item in ItemsFrom(o.lines, 0);
      }
      if o.expected.Some? { NoDeliveries(o.lines, o.expected.value, item); }
      if db.orders[i].expected.Some? { NoDeliveries(o.lines, db.orders[i].expected.value, item); }
      TransitUpdate(db.orders, i, o, item);
    }
  }

  lemma StatusFresh(w: World, db: Db, i: nat, o: Order)
    requires Fresh(w, db) && i < |db.orders| && o.lines == db.orders[i].lines
    ensures FreshBut(w, db.(orders := db.orders[i := o]), ItemsFrom(o.lines, 0))
  {
    StatusView(w, db, i, o);
    StillFresh(w, db, db.(orders := db.orders[i := o]), ItemsFrom(o.lines, 0));
  }

  /** The i-th order is already received, so marking its lines changes nothing in transit. */
  lemma MarkedView(w: World, db: Db, i: nat, k: nat, q: Qty, stale: set<Uuid>)
    requires i < |db.orders| && db.orders[i].status != Sent && FreshBut(w, db, stale)
    ensures FreshBut(w, db.(orders := SetReceived(db.orders, i, k, q)), stale)
  {
    var n := db.(orders := SetReceived(db.orders, i, k, q));
    forall item: Uuid ensures SameView(w, db, n, item) {
      if k < |db.orders[i].lines| { TransitUpdate(db.orders, i, n.orders[i], item); }
    }
    StillFresh(w, db, n, stale);
  }
}
