/** What taking a delivery in does to lines, stock and journal, and when it goes through. */
module ReceivingLaws {
  import opened Options
  import opened Quantity
  import opened Identifiers
  import opened DeliveryWindow
  import opened Reorder
  import opened Catalog
  import opened Journal
  import opened Shop
  import opened ShopLaws
  import opened ReceiptLaws

  /** The key a line's receipt is recorded under. */
  function ReceiptKey(a: Arrival, item: Uuid): string { a.key + ":" + Text(a.order) + ":" + Text(item) }

  /** No receipt of this call has been recorded before. */
  ghost predicate FirstTime(l: Ledger, lines: seq<Line>, a: Arrival) {
    forall k, m :: 0 <= k < |lines| && m in l.journal ==> m.key != ReceiptKey(a, lines[k].item)
  }

  lemma FirstTimeUnused(l: Ledger, lines: seq<Line>, a: Arrival)
    requires FirstTime(l, lines, a)
    ensures KeysUnused(l, lines, a, 0)
  {
    forall j, m | 0 <= j < |lines| && m in l.journal ensures m.key != LineKey(a, lines[j].item) {
      assert LineKey(a, lines[j].item) == ReceiptKey(a, lines[j].item);
    }
  }

  // ---- Lines ----

  /** The lines from the k-th on carry what arrived; the others and all other orders are as
      they were. */
  ghost predicate MarkedFrom(a: seq<Order>, b: seq<Order>, i: nat, lines: seq<Line>, arrival: Arrival, k: nat)
    requires i < |a| && |a[i].lines| == |lines|
  {
    && |b| == |a| && (forall j :: 0 <= j < |a| && j != i ==> b[j] == a[j])
    && |b[i].lines| == |lines| && b[i] == a[i].(lines := b[i].lines)
    && (forall j :: 0 <= j < |lines| ==>
          b[i].lines[j] == if j >= k then a[i].lines[j].(received := Some(ReceivedQty(lines[j], arrival))) else a[i].lines[j])
  }

  lemma {:induction false} ReceiveMarks(w: World, db: Db, i: nat, lines: seq<Line>, a: Arrival, k: nat)
    requires k <= |lines| && DistinctItems(lines) && KeysUnused(db.ledger, lines, a, k)
    requires i < |db.orders| && |db.orders[i].lines| == |lines| && ReceiveFrom(w, db, i, lines, a, k).Done?
    ensures MarkedFrom(db.orders, ReceiveFrom(w, db, i, lines, a, k).value.orders, i, lines, a, k)
    decreases |lines| - k
  {
    hide Decide, WindowAt, KeysUnused, ReceivedQty;
    if k < |lines| {
      var n := AfterLine(w, db, i, lines, a, k);
      OneLine(w, db, i, lines, a, k);
      StillUnused(w, db, i, lines, a, k);
      ReceiveMarks(w, n, i, lines, a, k + 1);
    }
  }

  // ---- Stock ----

  lemma {:induction false} BringsOf(lines: seq<Line>, a: Arrival, k: nat, item: Uuid)
    requires k <= |lines| && DistinctItems(lines)
    ensures forall j :: k <= j < |lines| && lines[j].item == item ==> Brings(lines, a, k, item) == ReceivedQty(lines[j], a)
    ensures (forall j :: k <= j < |lines| ==> lines[j].item != item) ==> Brings(lines, a, k, item) == 0
    decreases |lines| - k
  {
    if k < |lines| { BringsOf(lines, a, k + 1, item); }
  }

  // ---- Journal ----

  lemma {:induction false} ReceiptOf(w: World, lines: seq<Line>, a: Arrival, k: nat, j: nat)
    requires k <= j < |lines| && ReceivedQty(lines[j], a) > 0
    ensures ReceiptRow(w, a, j, lines[j]) in Receipts(w, lines, a, k)
    decreases |lines| - k
  {
    if k < j { ReceiptOf(w, lines, a, k + 1, j); }
  }

  lemma {:induction false} OnlyReceipts(w: World, lines: seq<Line>, a: Arrival, k: nat, m: Movement)
    requires k <= |lines| && m in Receipts(w, lines, a, k)
    ensures exists j :: k <= j < |lines| && ReceivedQty(lines[j], a) > 0 && m == ReceiptRow(w, a, j, lines[j])
    decreases |lines| - k
  {
    if m !in LineReceipt(w, lines[k], a, k) { OnlyReceipts(w, lines, a, k + 1, m); }
  }

  /** A receipt row as it must stand in the journal. */
  predicate IsReceipt(w: World, a: Arrival, item: Uuid, q: Qty, m: Movement) {
    && m.kind == Receipt && m.item == item && m.qty == q && m.at == w.now && m.author == Some(a.author)
    && m.order == Some(a.order) && m.count == None && m.reverses == None && m.key == ReceiptKey(a, item)
  }

  /** What arrived of a line: the quantity given for its item, else the one ordered. On every
      line it is noted, raises the stock of the item by exactly that much and, unless it is
      zero, stands in one new row of the journal; there are no other new rows. */
  lemma ReceiveOutcome(w: World, db: Db, a: Arrival, k: nat)
    requires Receive(w, db, a).Done?
    requires
      var lines := db.orders[FindOrder(db.orders, a.order).value].lines;
      DistinctItems(lines) && FirstTime(db.ledger, lines, a) && k < |lines|
    ensures
      var i := FindOrder(db.orders, a.order).value;
      var lines, n := db.orders[i].lines, Receive(w, db, a).value;
      var item := lines[k].item;
      var q := if item in a.actual then a.actual[item] else lines[k].ordered;
      && q >= 0
      && |n.orders| == |db.orders| && n.orders[i].status == Received && |n.orders[i].lines| == |lines|
      && n.orders[i].lines[k] == lines[k].(received := Some(q))
      && n.ledger.OnHand(item) == db.ledger.OnHand(item) + q
      && db.ledger.journal <= n.ledger.journal
      && (q > 0 ==> exists m :: m in n.ledger.journal[|db.ledger.journal|..] && IsReceipt(w, a, item, q, m))
      && (forall m :: m in n.ledger.journal[|db.ledger.journal|..] && m.item == item ==> q > 0 && IsReceipt(w, a, item, q, m))
  {
    hide Decide, WindowAt, ReceiveFrom, Brings, Receipts;
    var i := FindOrder(db.orders, a.order).value;
    var o := db.orders[i];
    var lines, item := o.lines, o.lines[k].item;
    var flipped := db.(orders := WithStatus(db.orders, i, Received));
    var n := Receive(w, db, a).value;
    FirstTimeUnused(db.ledger, lines, a);
    ReceiveMarks(w, flipped, i, lines, a, 0);
    ReceiveBalances(w, flipped, i, lines, a, 0, item);
    BringsOf(lines, a, 0, item);
    ReceiveRecords(w, flipped, i, lines, a, 0);
    var rows := Receipts(w, lines, a, 0);
    assert n.ledger.journal[|db.ledger.journal|..] == rows;
    RowsAreReceipts(w, lines, a, k);
    NoneNegative(w, flipped, i, lines, a, 0, k);
  }

  lemma RowsAreReceipts(w: World, lines: seq<Line>, a: Arrival, k: nat)
    requires DistinctItems(lines) && k < |lines|
    ensures
      var q, rows := ReceivedQty(lines[k], a), Receipts(w, lines, a, 0);
      && (q > 0 ==> exists m :: m in rows && IsReceipt(w, a, lines[k].item, q, m))
      && (forall m :: m in rows && m.item == lines[k].item ==> q > 0 && IsReceipt(w, a, lines[k].item, q, m))
  {
    var rows := Receipts(w, lines, a, 0);
    if ReceivedQty(lines[k], a) > 0 {
      ReceiptOf(w, lines, a, 0, k);
      assert IsReceipt(w, a, lines[k].item, ReceivedQty(lines[k], a), ReceiptRow(w, a, k, lines[k]));
    }
    forall m | m in rows && m.item == lines[k].item
      ensures ReceivedQty(lines[k], a) > 0 && IsReceipt(w, a, lines[k].item, ReceivedQty(lines[k], a), m)
    {
      OnlyReceipts(w, lines, a, 0, m);
      var j :| 0 <= j < |lines| && ReceivedQty(lines[j], a) > 0 && m == ReceiptRow(w, a, j, lines[j]);
      assert j == k;
    }
  }

  lemma {:induction false} NoneNegative(w: World, db: Db, i: nat, lines: seq<Line>, a: Arrival, k: nat, j: nat)
    requires k <= j < |lines| && ReceiveFrom(w, db, i, lines, a, k).Done?
    ensures ReceivedQty(lines[j], a) >= 0
    decreases |lines| - k
  {
    hide Decide, WindowAt, RecordMovement;
    if k < j { NoneNegative(w, ReceiveLine(w, db, i, lines[k], a, k).value, i, lines, a, k + 1, j); }
  }

  /** Items that are on no line keep their stock. */
  lemma ReceiveSparesOthers(w: World, db: Db, a: Arrival, item: Uuid)
    requires Receive(w, db, a).Done?
    requires
      var lines := db.orders[FindOrder(db.orders, a.order).value].lines;
      DistinctItems(lines) && FirstTime(db.ledger, lines, a) && forall k :: 0 <= k < |lines| ==> lines[k].item != item
    ensures Receive(w, db, a).value.ledger.OnHand(item) == db.ledger.OnHand(item)
  {
    hide Decide, WindowAt, ReceiveFrom;
    var i := FindOrder(db.orders, a.order).value;
    var lines := db.orders[i].lines;
    FirstTimeUnused(db.ledger, lines, a);
    ReceiveBalances(w, db.(orders := WithStatus(db.orders, i, Received)), i, lines, a, 0, item);
    BringsOf(lines, a, 0, item);
  }

  // ---- When it goes through ----

  /** What arrived of a line. */
  function Arrived(line: Line, a: Arrival): Qty { if line.item in a.actual then a.actual[line.item] else line.ordered }

  /** A line that can be taken in: nothing of it arrived, or a positive quantity of an item in
      use that fits its columns, under an identifier that is new and no line's from `lo` on. */
  ghost predicate Takable(w: World, l: Ledger, a: Arrival, lines: seq<Line>, lo: nat, k: nat)
    requires k < |lines|
  {
    var q, item := Arrived(lines[k], a), lines[k].item;
    && q >= 0
    && (q > 0 ==> item in w.items && !w.items[item].archived && q < LIMIT && l.OnHand(item) + q < LIMIT
                  && (forall m :: m in l.journal ==> m.id != a.ids(k))
                  && forall j :: lo <= j < k && Arrived(lines[j], a) > 0 ==> a.ids(j) != a.ids(k))
  }

  ghost predicate AllTakable(w: World, l: Ledger, a: Arrival, lines: seq<Line>, lo: nat) {
    forall k: nat :: lo <= k < |lines| ==> Takable(w, l, a, lines, lo, k)
  }

  lemma LineGoesThrough(w: World, db: Db, i: nat, lines: seq<Line>, a: Arrival, k: nat)
    requires Sound(db.ledger) && k < |lines| && FindOrder(db.orders, a.order) == Some(i)
    requires forall m :: m in db.ledger.journal ==> m.key != LineKey(a, lines[k].item)
    ensures
      var q, item := Arrived(lines[k], a), lines[k].item;
      ReceiveLine(w, db, i, lines[k], a, k).Done? <==>
        && q >= 0
        && (q > 0 ==> item in w.items && !w.items[item].archived && q < LIMIT && db.ledger.OnHand(item) + q < LIMIT
                      && forall m :: m in db.ledger.journal ==> m.id != a.ids(k))
  {
    hide Decide, WindowAt;
    var q := Arrived(lines[k], a);
    if q > 0 {
      var r := ReceiptRequest(w, a, k, lines[k]);
      var marked := Marked(db, i, k, q);
      ByKeyFinds(db.ledger.journal, r.key);
      InsertErrorIff(db.ledger.journal, Row(w, r));
      assert FindOrder(marked.orders, a.order).Some? by { StillFound(db.orders, i, k, q, a.order); }
      assert db.ledger.OnHand(lines[k].item) >= 0;
    }
  }

  lemma StillFound(orders: seq<Order>, i: nat, k: nat, q: Qty, id: Uuid)
    requires FindOrder(orders, id) == Some(i)
    ensures FindOrder(SetReceived(orders, i, k, q), id) == Some(i)
  {
    FirstFound(orders, id, i);
    FirstFound(SetReceived(orders, i, k, q), id, i);
  }

  lemma {:induction false} FirstFound(orders: seq<Order>, id: Uuid, i: nat)
    ensures FindOrder(orders, id) == Some(i) <==>
              i < |orders| && orders[i].id == id && forall j :: 0 <= j < i ==> orders[j].id != id
  {
    if orders != [] && orders[0].id != id {
      if i > 0 { FirstFound(orders[1..], id, i - 1); }
      if i > 0 && i < |orders| { assert orders[1..][i - 1] == orders[i]; }
      assert forall j :: 1 <= j < |orders| ==> orders[1..][j - 1] == orders[j];
    }
  }

  /** Taking in one line leaves the others as they stand, but for its identifier. */
  lemma StillTakable(w: World, l: Ledger, n: Ledger, a: Arrival, lines: seq<Line>, k: nat, j: nat)
    requires k < j < |lines| && DistinctItems(lines)
    requires n == (if Arrived(lines[k], a) == 0 then l else WithRow(l, ReceiptRow(w, a, k, lines[k]))) && Arrived(lines[k], a) >= 0
    ensures Takable(w, n, a, lines, k + 1, j) <==> Takable(w, l, a, lines, k, j)
  {
    assert n.OnHand(lines[j].item) == l.OnHand(lines[j].item);
    if Arrived(lines[k], a) > 0 {
      assert ReceiptRow(w, a, k, lines[k]) in n.journal && ReceiptRow(w, a, k, lines[k]).id == a.ids(k);
      assert forall m :: m in n.journal <==> m in l.journal || m == ReceiptRow(w, a, k, lines[k]);
    }
  }

  lemma OthersTakable(w: World, l: Ledger, n: Ledger, a: Arrival, lines: seq<Line>, k: nat)
    requires k < |lines| && DistinctItems(lines) && Arrived(lines[k], a) >= 0
    requires n == (if Arrived(lines[k], a) == 0 then l else WithRow(l, ReceiptRow(w, a, k, lines[k])))
    ensures AllTakable(w, l, a, lines, k) <==> Takable(w, l, a, lines, k, k) && AllTakable(w, n, a, lines, k + 1)
  {
    hide Takable, WithRow;
    forall j: nat | k < j < |lines| ensures Takable(w, n, a, lines, k + 1, j) <==> Takable(w, l, a, lines, k, j) {
      StillTakable(w, l, n, a, lines, k, j);
    }
    var next := k + 1;
    if AllTakable(w, l, a, lines, k) {
      forall j: nat | next <= j < |lines| ensures Takable(w, n, a, lines, next, j) { assert Takable(w, l, a, lines, k, j); }
    }
    if Takable(w, l, a, lines, k, k) && AllTakable(w, n, a, lines, next) {
      forall j: nat | k <= j < |lines| ensures Takable(w, l, a, lines, k, j) { if j > k { assert Takable(w, n, a, lines, next, j); } }
    }
  }

  lemma {:induction false} LinesGoThrough(w: World, db: Db, i: nat, lines: seq<Line>, a: Arrival, k: nat)
    requires Sound(db.ledger) && k <= |lines| && DistinctItems(lines) && FindOrder(db.orders, a.order) == Some(i)
    requires forall j, m :: k <= j < |lines| && m in db.ledger.journal ==> m.key != LineKey(a, lines[j].item)
    ensures ReceiveFrom(w, db, i, lines, a, k).Done? <==> AllTakable(w, db.ledger, a, lines, k)
    decreases |lines| - k
  {
    hide Decide, WindowAt, ReceiveLine, Takable, Sound, LineKey;
    if k < |lines| {
      LineGoesThrough(w, db, i, lines, a, k);
      OwnTakable(w, db.ledger, a, lines, k);
      if ReceiveLine(w, db, i, lines[k], a, k).Done? {
        var n := ReceiveLine(w, db, i, lines[k], a, k).value;
        LineLeaves(w, db, i, lines, a, k);
        LinesGoThrough(w, n, i, lines, a, k + 1);
        OthersTakable(w, db.ledger, n.ledger, a, lines, k);
        assert ReceiveFrom(w, db, i, lines, a, k) == ReceiveFrom(w, n, i, lines, a, k + 1);
      } else {
        assert !Takable(w, db.ledger, a, lines, k, k);
        assert ReceiveFrom(w, db, i, lines, a, k).Fail?;
      }
    }
  }

  lemma OwnTakable(w: World, l: Ledger, a: Arrival, lines: seq<Line>, k: nat)
    requires k < |lines|
    ensures Takable(w, l, a, lines, k, k) <==>
              var q, item := Arrived(lines[k], a), lines[k].item;
              && q >= 0
              && (q > 0 ==> item in w.items && !w.items[item].archived && q < LIMIT && l.OnHand(item) + q < LIMIT
                            && forall m :: m in l.journal ==> m.id != a.ids(k))
  {
  }

  /** What one line that went through leaves behind. */
  lemma LineLeaves(w: World, db: Db, i: nat, lines: seq<Line>, a: Arrival, k: nat)
    requires Sound(db.ledger) && k < |lines| && DistinctItems(lines) && FindOrder(db.orders, a.order) == Some(i)
    requires forall j, m :: k <= j < |lines| && m in db.ledger.journal ==> m.key != LineKey(a, lines[j].item)
    requires ReceiveLine(w, db, i, lines[k], a, k).Done?
    ensures
      var n := ReceiveLine(w, db, i, lines[k], a, k).value;
      && Sound(n.ledger) && FindOrder(n.orders, a.order) == Some(i)
      && Arrived(lines[k], a) >= 0
      && n.ledger == (if Arrived(lines[k], a) == 0 then db.ledger else WithRow(db.ledger, ReceiptRow(w, a, k, lines[k])))
      && forall j, m :: k + 1 <= j < |lines| && m in n.ledger.journal ==> m.key != LineKey(a, lines[j].item)
  {
    hide Decide, WindowAt, LineKey, Sound;
    var q := Arrived(lines[k], a);
    var n := ReceiveLine(w, db, i, lines[k], a, k).value;
    StillFound(db.orders, i, k, q, a.order);
    if q > 0 {
      var marked := Marked(db, i, k, q);
      RecordLands(w, marked, ReceiptRequest(w, a, k, lines[k]));
      RecordTxSound(w, marked, ReceiptRequest(w, a, k, lines[k]));
      forall j | k < j < |lines| ensures LineKey(a, lines[k].item) != LineKey(a, lines[j].item) {
        LineKeysDiffer(a, lines[k].item, lines[j].item);
      }
    }
  }

  /** A delivery of a known order, under keys not used before, is taken in exactly when the
      order is sent, has lines, and every line can be taken in; otherwise the reason is told. */
  lemma ReceiveAnswers(w: World, db: Db, a: Arrival)
    requires Sound(db.ledger)
    requires FindOrder(db.orders, a.order).Some? ==>
               var lines := db.orders[FindOrder(db.orders, a.order).value].lines;
               DistinctItems(lines) && FirstTime(db.ledger, lines, a)
    ensures
      var r, known := Receive(w, db, a), exists o :: o in db.orders && o.id == a.order;
      && (!known ==> r == Fail(OrderNotFound))
      && (known ==>
            var o := db.orders[FindOrder(db.orders, a.order).value];
            && o.id == a.order
            && (o.status == Received ==> r == Fail(AlreadyReceived))
            && (o.status == Draft || o.status == Cancelled ==> r == Fail(WrongStatus))
            && (o.status == Sent && o.lines == [] ==> r == Fail(EmptyOrder))
            && (o.status == Sent && o.lines != [] ==>
                  (r.Done? <==> AllTakable(w, db.ledger, a, o.lines, 0))))
  {
    hide Decide, WindowAt, ReceiveFrom, Takable, Sound, Receive;
    var found := FindOrder(db.orders, a.order);
    if found.Some? {
      var i := found.value;
      var o := db.orders[i];
      assert o in db.orders;
      FirstFound(db.orders, a.order, i);
      FirstFound(WithStatus(db.orders, i, Received), a.order, i);
      FirstTimeUnused(db.ledger, o.lines, a);
      forall j, m | 0 <= j < |o.lines| && m in db.ledger.journal ensures m.key != LineKey(a, o.lines[j].item) {
        assert LineKey(a, o.lines[j].item) == ReceiptKey(a, o.lines[j].item);
      }
      LinesGoThrough(w, db.(orders := WithStatus(db.orders, i, Received)), i, o.lines, a, 0);
      ReceiveByStatus(w, db, a, i);
    } else {
      ReceiveUnknown(w, db, a);
    }
  }

  lemma ReceiveUnknown(w: World, db: Db, a: Arrival)
    requires FindOrder(db.orders, a.order).None?
    ensures Receive(w, db, a) == Fail(OrderNotFound)
  {
  }

  lemma ReceiveByStatus(w: World, db: Db, a: Arrival, i: nat)
    requires FindOrder(db.orders, a.order) == Some(i)
    ensures
      var r, o := Receive(w, db, a), db.orders[i];
      && (o.status == Received ==> r == Fail(AlreadyReceived))
      && (o.status == Draft || o.status == Cancelled ==> r == Fail(WrongStatus))
      && (o.status == Sent && o.lines == [] ==> r == Fail(EmptyOrder))
      && (o.status == Sent && o.lines != [] ==>
            r == ReceiveFrom(w, db.(orders := WithStatus(db.orders, i, Received)), i, o.lines, a, 0))
  {
    hide ReceiveFrom;
  }

  /** A negative quantity is refused by that name when it is the first line that is. */
  lemma NegativeRefused(w: World, db: Db, a: Arrival, i: nat)
    requires FindOrder(db.orders, a.order) == Some(i) && db.orders[i].status == Sent && db.orders[i].lines != []
    requires Arrived(db.orders[i].lines[0], a) < 0
    ensures Receive(w, db, a) == Fail(NegativeReceived)
  {
    var lines := db.orders[i].lines;
    var flipped := db.(orders := WithStatus(db.orders, i, Received));
    ReceiveByStatus(w, db, a, i);
    assert ReceiveLine(w, flipped, i, lines[0], a, 0) == Fail(NegativeReceived);
  }
}
