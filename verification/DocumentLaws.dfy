/** What single operations on orders and counts do. */
module DocumentLaws {
  import opened Options
  import opened Quantity
  import opened Identifiers
  import opened DeliveryWindow
  import opened Reorder
  import opened Catalog
  import opened Journal
  import opened Shop
  import opened ShopLaws
  import opened ReceiptLaws
  import opened OrderLaws

  // ---- Order lines ----

  /** The quantity an order asks for of an item. */
  function OrderedOf(lines: seq<Line>, item: Uuid): Option<Qty> {
    if lines == [] then None
    else if lines[0].item == item then Some(lines[0].ordered)
    else OrderedOf(lines[1..], item)
  }

  predicate LastAbout(wanted: seq<Wanted>, item: Uuid, j: nat) {
    j < |wanted| && wanted[j].item == item && forall i :: j < i < |wanted| ==> wanted[i].item != item
  }

  predicate LastPositive(wanted: seq<Wanted>, item: Uuid, j: nat) {
    j < |wanted| && wanted[j].item == item && wanted[j].qty > 0
    && forall i :: j < i < |wanted| ==> wanted[i].item != item || wanted[i].qty <= 0
  }

  lemma {:induction false} NotOrdered(lines: seq<Line>, item: Uuid)
    requires forall line :: line in lines ==> line.item != item
    ensures OrderedOf(lines, item) == None
  {
    if lines != [] { NotOrdered(lines[1..], item); }
  }

  lemma {:induction false} PutLineOrdered(lines: seq<Line>, item: Uuid, q: Qty, x: Uuid)
    requires DistinctItems(lines)
    ensures OrderedOf(PutLine(lines, item, q), x)
         == if x != item then OrderedOf(lines, x) else if q > 0 then Some(q) else None
  {
    if lines != [] {
      if lines[0].item != item {
        PutLineOrdered(lines[1..], item, q, x);
      } else {
        var kept := if q > 0 then [lines[0].(ordered := q)] else [];
        assert q > 0 ==> (kept + lines[1..])[1..] == lines[1..];
        assert q <= 0 ==> kept + lines[1..] == lines[1..];
        NotOrdered(lines[1..], item);
      }
    }
  }

  /** An update sets each item to its last wanted quantity, drops it when that is not
      positive, and leaves the items it does not name. */
  lemma {:induction false} UpdateSetsLines(w: World, lines: seq<Line>, wanted: seq<Wanted>, k: nat, item: Uuid)
    requires k <= |wanted| && LinesValid(w, lines) && PutLines(w, lines, wanted, k).Done?
    ensures
      var n := PutLines(w, lines, wanted, k).value;
      && (forall j: nat :: j >= k && LastAbout(wanted, item, j) ==>
            OrderedOf(n, item) == if wanted[j].qty > 0 then Some(wanted[j].qty) else None)
      && ((forall j :: k <= j < |wanted| ==> wanted[j].item != item) ==> OrderedOf(n, item) == OrderedOf(lines, item))
    decreases |wanted| - k
  {
    if k < |wanted| {
      PutLineOrdered(lines, wanted[k].item, wanted[k].qty, item);
      PutLineValid(w, lines, wanted[k].item, wanted[k].qty);
      UpdateSetsLines(w, PutLine(lines, wanted[k].item, wanted[k].qty), wanted, k + 1, item);
    }
  }

  /** A new order has each item in its last positive quantity. */
  lemma {:induction false} CreateSetsLines(w: World, lines: seq<Line>, wanted: seq<Wanted>, k: nat, item: Uuid)
    requires k <= |wanted| && LinesValid(w, lines) && NewLines(w, lines, wanted, k).Done?
    ensures
      var n := NewLines(w, lines, wanted, k).value;
      && (forall j: nat :: j >= k && LastPositive(wanted, item, j) ==> OrderedOf(n, item) == Some(wanted[j].qty))
      && ((forall j :: k <= j < |wanted| ==> wanted[j].item != item || wanted[j].qty <= 0) ==>
            OrderedOf(n, item) == OrderedOf(lines, item))
    decreases |wanted| - k
  {
    if k < |wanted| {
      if wanted[k].qty <= 0 {
        CreateSetsLines(w, lines, wanted, k + 1, item);
      } else {
        PutLineOrdered(lines, wanted[k].item, wanted[k].qty, item);
        PutLineValid(w, lines, wanted[k].item, wanted[k].qty);
        CreateSetsLines(w, PutLine(lines, wanted[k].item, wanted[k].qty), wanted, k + 1, item);
      }
    }
  }

  // ---- Sending and cancelling ----

  lemma {:induction false} TotalOfLines(lines: seq<Line>, day: Day, item: Uuid)
    requires DistinctItems(lines)
    ensures Total(LineDeliveries(lines, day, item)) == OrderedOf(lines, item).Or(0)
  {
    if lines != [] {
      var head := if lines[0].item == item then [Delivery(day, lines[0].ordered)] else [];
      TotalConcat(head, LineDeliveries(lines[1..], day, item));
      if lines[0].item == item { NoDeliveries(lines[1..], day, item); } else { TotalOfLines(lines[1..], day, item); }
    }
  }

  /** Sending puts exactly the order's lines in transit for the first day its supplier can
      deliver, and touches neither stock nor counts nor any other order. */
  lemma SendAddsTransit(w: World, db: Db, id: Uuid, item: Uuid)
    requires OrdersValid(w, db.orders) && Send(w, db, id).Done?
    ensures
      var i := FindOrder(db.orders, id).value;
      var o, n := db.orders[i], Send(w, db, id).value;
      && n.ledger == db.ledger && n.counts == db.counts
      && |n.orders| == |db.orders| && (forall j :: 0 <= j < |db.orders| && j != i ==> n.orders[j] == db.orders[j])
      && n.orders[i] == o.(status := Sent, expected := n.orders[i].expected)
      && n.orders[i].expected.Some? && IsWindow(w.now, w.suppliers[o.supplier], WindowAt(w.now, w.suppliers[o.supplier]))
      && n.orders[i].expected.value == WindowAt(w.now, w.suppliers[o.supplier]).d1
      && TotalInTransit(n.orders, item) == TotalInTransit(db.orders, item) + OrderedOf(o.lines, item).Or(0)
  {
    hide Decide;
    var i := FindOrder(db.orders, id).value;
    var o := db.orders[i];
    var s := w.suppliers[o.supplier];
    var sent := o.(status := Sent, expected := Some(WindowAt(w.now, s).d1));
    RefreshLinesFacts(w, db.(orders := db.orders[i := sent]), o.lines, 0);
    WindowAtIsWindow(w.now, s);
    TransitReplace(db.orders, i, sent, item);
    TotalOfLines(o.lines, WindowAt(w.now, s).d1, item);
  }

  /** Cancelling takes exactly what was in transit of the order out again. */
  lemma CancelRemovesTransit(w: World, db: Db, id: Uuid, item: Uuid)
    requires OrdersValid(w, db.orders) && Cancel(w, db, id).Done?
    ensures
      var i := FindOrder(db.orders, id).value;
      var o, n := db.orders[i], Cancel(w, db, id).value;
      && n.ledger == db.ledger && n.counts == db.counts && n.orders == db.orders[i := o.(status := Cancelled)]
      && TotalInTransit(n.orders, item)
           == TotalInTransit(db.orders, item) - if o.status == Sent then OrderedOf(o.lines, item).Or(0) else 0
  {
    hide Decide, WindowAt;
    var i := FindOrder(db.orders, id).value;
    var o := db.orders[i];
    if o.status != Cancelled {
      RefreshLinesFacts(w, db.(orders := WithStatus(db.orders, i, Cancelled)), o.lines, 0);
    } else {
      assert db.orders[i := o.(status := Cancelled)] == db.orders;
    }
    TransitReplace(db.orders, i, o.(status := Cancelled), item);
    if o.status == Sent { TotalOfLines(o.lines, o.expected.value, item); }
  }

  // ---- Counts ----

  lemma {:induction false} ExpectedItems(l: Ledger, items: seq<Uuid>, k: nat)
    requires k <= |items|
    ensures
      var lines := ExpectedLines(l, items, k);
      && (forall c :: c in lines ==> c == CountLine(c.item, l.OnHand(c.item), None) && c.item in items[..k])
      && forall j :: 0 <= j < k ==> exists c :: c in lines && c.item == items[j]
  {
    if k > 0 {
      ExpectedItems(l, items, k - 1);
      var before, lines := ExpectedLines(l, items, k - 1), ExpectedLines(l, items, k);
      forall c | c in before ensures c in lines && c.item in items[..k] {
        assert c.item in items[..k - 1];
        var j :| 0 <= j < k - 1 && items[..k - 1][j] == c.item;
        assert items[..k][j] == c.item;
      }
      assert items[..k][k - 1] == items[k - 1];
      assert lines != before ==> lines[|lines| - 1].item == items[k - 1] && lines[|lines| - 1] in lines;
    }
  }

  /** A count opens with one uncounted line per item asked for, holding the balance of
      that moment. */
  lemma CountOpens(w: World, db: Db, id: Uuid, items: seq<Uuid>)
    requires CreateCount(w, db, id, items).Done?
    ensures
      var c := CreateCount(w, db, id, items).value.counts[id];
      && !c.posted
      && (forall item :: item in items <==> exists line :: line in c.lines && line.item == item)
      && (forall line :: line in c.lines ==> line.expected == db.ledger.OnHand(line.item) && line.counted.None?)
  {
    ExpectedItems(db.ledger, items, |items|);
    assert items[..|items|] == items;
  }

  function CountedOf(lines: seq<CountLine>, item: Uuid): Option<Qty> {
    if lines == [] then None
    else if lines[0].item == item then lines[0].counted
    else CountedOf(lines[1..], item)
  }

  function ExpectedOf(lines: seq<CountLine>, item: Uuid): Qty {
    if lines == [] then 0
    else if lines[0].item == item then lines[0].expected
    else ExpectedOf(lines[1..], item)
  }

  lemma {:induction false} SetOne(lines: seq<CountLine>, item: Uuid, q: Qty, x: Uuid)
    ensures CountedOf(SetCounted(lines, item, q), x) == if x == item then Some(q) else CountedOf(lines, x)
    ensures ExpectedOf(SetCounted(lines, item, q), x) == ExpectedOf(lines, x)
  {
    if lines != [] && lines[0].item != item { SetOne(lines[1..], item, q, x); }
  }

  /** Entering counted quantities keeps what was expected, and the last entry of an item
      stands. */
  lemma {:induction false} CountingSets(w: World, lines: seq<CountLine>, counted: seq<Wanted>, k: nat, item: Uuid)
    requires k <= |counted| && SetLines(w, lines, counted, k).Done?
    ensures
      var n := SetLines(w, lines, counted, k).value;
      && ExpectedOf(n, item) == ExpectedOf(lines, item)
      && (forall j: nat :: j >= k && LastAbout(counted, item, j) ==> CountedOf(n, item) == Some(counted[j].qty))
      && ((forall j :: k <= j < |counted| ==> counted[j].item != item) ==> CountedOf(n, item) == CountedOf(lines, item))
    decreases |counted| - k
  {
    if k < |counted| {
      SetOne(lines, counted[k].item, counted[k].qty, item);
      CountingSets(w, SetCounted(lines, counted[k].item, counted[k].qty), counted, k + 1, item);
    }
  }

  // ---- Recalculation ----

  /** Recalculating again right away changes nothing and raises no second alert. */
  lemma RefreshTwice(w: World, db: Db, item: Uuid)
    requires Refresh(w, db, item).Done?
    ensures Refresh(w, Refresh(w, db, item).value, item) == Refresh(w, db, item)
  {
    hide Decide;
    var n := Refresh(w, db, item).value;
    assert n.statuses[item := n.statuses[item]] == n.statuses;
  }

  /** One recalculation raises an alert exactly when the item becomes red and worse than the
      stored status, which counts as ok when there is none. */
  lemma AlertIff(w: World, db: Db, item: Uuid)
    requires Refresh(w, db, item).Done?
    ensures
      var n := Refresh(w, db, item).value;
      var now := n.statuses[item].decision.status;
      && (n.alerts != db.alerts <==>
            (now == OutOfStock || now == Critical)
            && !(item in db.statuses && (db.statuses[item].decision.status == OutOfStock || db.statuses[item].decision.status == now)))
      && (n.alerts != db.alerts ==> |n.alerts| == |db.alerts| + 1 && n.alerts[|db.alerts|].item == item)
  {
    hide Decide;
  }
}
