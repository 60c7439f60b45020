/** When each operation on orders and counts goes through, what it answers otherwise, and
    every row it leaves behind. */
module DocumentAnswers {
  import opened Options
  import opened Quantity
  import opened Identifiers
  import opened DeliveryWindow
  import opened Reorder
  import opened Catalog
  import opened Journal
  import opened Shop
  import opened ShopLaws
  import opened OrderLaws
  import opened DocumentLaws
  import CL = CountLaws

  // ---- Movements ----

  /** A request is validated, then answered by its key or recorded with the documents it names
      in place, and the item's status is refreshed. */
  lemma MovementAnswers(w: World, db: Db, r: Request)
    ensures
      var invalid, l, n := Validate(w, r), Record(w, db.ledger, r), RecordMovement(w, db, r);
      && (invalid.Some? ==> n == Fail(invalid.value))
      && (invalid.None? && Replay(db.ledger, r).Some? ==> n == Done(db))
      && (invalid.None? && Replay(db.ledger, r).None? && l.Fail? ==> n == Fail(l.error))
      && (invalid.None? && Replay(db.ledger, r).None? && l.Done? ==>
            (n.Done? <==>
              && (r.order.Some? ==> exists o :: o in db.orders && o.id == r.order.value)
              && (r.count.Some? ==> r.count.value in db.counts)))
      && (invalid.None? && Replay(db.ledger, r).None? && n.Done? ==>
            l.Done? && n.value.ledger == l.value && n.value.orders == db.orders && n.value.counts == db.counts
            && r.item in n.value.statuses && n.value.statuses[r.item] == FreshRow(w, l.value, db.orders, r.item))
  {
    hide Decide, WindowAt, Validate, Append;
  }

  // ---- Orders ----

  lemma {:induction false} NewLinesIff(w: World, lines: seq<Line>, wanted: seq<Wanted>, k: nat)
    requires k <= |wanted|
    ensures NewLines(w, lines, wanted, k).Done? <==> forall j :: k <= j < |wanted| && wanted[j].qty > 0 ==> wanted[j].item in w.items
    decreases |wanted| - k
  {
    if k < |wanted| {
      if wanted[k].qty <= 0 {
        NewLinesIff(w, lines, wanted, k + 1);
      } else {
        NewLinesIff(w, PutLine(lines, wanted[k].item, wanted[k].qty), wanted, k + 1);
      }
    }
  }

  lemma {:induction false} PutLinesIff(w: World, lines: seq<Line>, wanted: seq<Wanted>, k: nat)
    requires k <= |wanted|
    ensures PutLines(w, lines, wanted, k).Done? <==> forall j :: k <= j < |wanted| && wanted[j].qty > 0 ==> wanted[j].item in w.items
    decreases |wanted| - k
  {
    if k < |wanted| { PutLinesIff(w, PutLine(lines, wanted[k].item, wanted[k].qty), wanted, k + 1); }
  }

  lemma {:induction false} PutLineReceived(lines: seq<Line>, item: Uuid, q: Qty)
    requires forall line :: line in lines ==> line.received == None
    ensures forall line :: line in PutLine(lines, item, q) ==> line.received == None
  {
    if lines != [] && lines[0].item != item { PutLineReceived(lines[1..], item, q); }
  }

  lemma {:induction false} NewLinesReceived(w: World, lines: seq<Line>, wanted: seq<Wanted>, k: nat)
    requires k <= |wanted| && NewLines(w, lines, wanted, k).Done? && forall line :: line in lines ==> line.received == None
    ensures forall line :: line in NewLines(w, lines, wanted, k).value ==> line.received == None
    decreases |wanted| - k
  {
    if k < |wanted| {
      if wanted[k].qty <= 0 {
        NewLinesReceived(w, lines, wanted, k + 1);
      } else {
        PutLineReceived(lines, wanted[k].item, wanted[k].qty);
        NewLinesReceived(w, PutLine(lines, wanted[k].item, wanted[k].qty), wanted, k + 1);
      }
    }
  }

  /** An order is created for a known supplier from at least one wanted line, all positive ones
      naming known items: a draft without an expected day at the end of the list, nothing of it
      received. Each item has its last positive quantity. */
  lemma CreateAnswers(w: World, db: Db, id: Uuid, supplier: Uuid, wanted: seq<Wanted>)
    ensures
      var r := CreateOrder(w, db, id, supplier, wanted);
      && (supplier !in w.suppliers ==> r == Fail(OrderNotFound))
      && (supplier in w.suppliers && wanted == [] ==> r == Fail(EmptyOrder))
      && (r.Done? <==>
            && supplier in w.suppliers && wanted != [] && (forall o :: o in db.orders ==> o.id != id)
            && forall j :: 0 <= j < |wanted| && wanted[j].qty > 0 ==> wanted[j].item in w.items)
      && (r.Done? ==>
            && r.value == db.(orders := r.value.orders) && |r.value.orders| == |db.orders| + 1 && db.orders <= r.value.orders
            && var o := r.value.orders[|db.orders|];
               && o == Order(id, supplier, Draft, None, o.lines) && LinesValid(w, o.lines)
               && (forall line :: line in o.lines ==> line.received == None)
               && (forall item, j: nat :: LastPositive(wanted, item, j) ==> OrderedOf(o.lines, item) == Some(wanted[j].qty))
               && forall item: Uuid :: (forall j :: 0 <= j < |wanted| ==> wanted[j].item != item || wanted[j].qty <= 0) ==>
                    OrderedOf(o.lines, item) == None)
  {
    hide NewLines, OrderedOf, LinesValid;
    NewLinesIff(w, [], wanted, 0);
    NoLinesValid(w);
    if CreateOrder(w, db, id, supplier, wanted).Done? {
      var lines := NewLines(w, [], wanted, 0).value;
      NewLinesValid(w, [], wanted, 0);
      NewLinesReceived(w, [], wanted, 0);
      forall item: Uuid
        ensures forall j: nat :: LastPositive(wanted, item, j) ==> OrderedOf(lines, item) == Some(wanted[j].qty)
        ensures (forall j :: 0 <= j < |wanted| ==> wanted[j].item != item || wanted[j].qty <= 0) ==> OrderedOf(lines, item) == None
      {
        CreateSetsLines(w, [], wanted, 0, item);
      }
    }
  }

  lemma NoLinesValid(w: World)
    ensures LinesValid(w, []) && forall item: Uuid :: OrderedOf([], item) == None
  {
  }

  /** The order with an identifier is the first that carries it. */
  lemma Known(db: Db, id: Uuid)
    ensures FindOrder(db.orders, id).Some? <==> exists o :: o in db.orders && o.id == id
  {
    if FindOrder(db.orders, id).Some? { assert db.orders[FindOrder(db.orders, id).value] in db.orders; }
  }

  /** Only a draft can be updated, and every positive line must name a known item; status,
      supplier, expected day and all other documents stay. */
  lemma UpdateAnswers(w: World, db: Db, id: Uuid, wanted: seq<Wanted>)
    ensures
      var r := UpdateLines(w, db, id, wanted);
      && ((forall o :: o in db.orders ==> o.id != id) ==> r == Fail(OrderNotFound))
      && ((exists o :: o in db.orders && o.id == id) ==>
            var i := FindOrder(db.orders, id).value;
            && (db.orders[i].status != Draft ==> r == Fail(WrongStatus))
            && (db.orders[i].status == Draft ==>
                  (r.Done? <==> forall j :: 0 <= j < |wanted| && wanted[j].qty > 0 ==> wanted[j].item in w.items))
            && (r.Done? ==>
                  && r.value == db.(orders := r.value.orders) && |r.value.orders| == |db.orders|
                  && r.value.orders[i] == db.orders[i].(lines := r.value.orders[i].lines)
                  && forall j :: 0 <= j < |db.orders| && j != i ==> r.value.orders[j] == db.orders[j]))
  {
    hide PutLines;
    Known(db, id);
    if FindOrder(db.orders, id).Some? { PutLinesIff(w, db.orders[FindOrder(db.orders, id).value].lines, wanted, 0); }
  }

  lemma {:induction false} RefreshLinesIff(w: World, db: Db, lines: seq<Line>, k: nat)
    requires k <= |lines|
    ensures RefreshLines(w, db, lines, k).Done? <==> forall j :: k <= j < |lines| ==> lines[j].item in w.items
    decreases |lines| - k
  {
    hide Decide, WindowAt;
    if k < |lines| && lines[k].item in w.items { RefreshLinesIff(w, Refresh(w, db, lines[k].item).value, lines, k + 1); }
  }

  /** Only a draft with lines, of a known supplier, can be sent, and a sent one says so. */
  lemma SendAnswers(w: World, db: Db, id: Uuid)
    requires OrdersValid(w, db.orders)
    ensures
      var r := Send(w, db, id);
      && ((forall o :: o in db.orders ==> o.id != id) ==> r == Fail(OrderNotFound))
      && ((exists o :: o in db.orders && o.id == id) ==>
            var o := db.orders[FindOrder(db.orders, id).value];
            && (o.status == Sent ==> r == Fail(AlreadySent))
            && (o.status == Received || o.status == Cancelled ==> r == Fail(WrongStatus))
            && (o.status == Draft && o.lines == [] ==> r == Fail(EmptyOrder))
            && (r.Done? <==> o.status == Draft && o.lines != [] && o.supplier in w.suppliers))
  {
    hide Decide, WindowAt, RefreshLines;
    Known(db, id);
    if FindOrder(db.orders, id).Some? {
      var i := FindOrder(db.orders, id).value;
      var o := db.orders[i];
      assert OrderValid(w, o);
      forall j | 0 <= j < |o.lines| ensures o.lines[j].item in w.items { assert o.lines[j] in o.lines; }
      if o.supplier in w.suppliers {
        var sent := o.(status := Sent, expected := Some(WindowAt(w.now, w.suppliers[o.supplier]).d1));
        RefreshLinesIff(w, db.(orders := db.orders[i := sent]), o.lines, 0);
      }
    }
  }

  /** Every known order can be cancelled but a received one; a second time changes nothing. */
  lemma CancelAnswers(w: World, db: Db, id: Uuid)
    requires OrdersValid(w, db.orders)
    ensures
      var r := Cancel(w, db, id);
      && ((forall o :: o in db.orders ==> o.id != id) ==> r == Fail(OrderNotFound))
      && ((exists o :: o in db.orders && o.id == id) ==>
            var o := db.orders[FindOrder(db.orders, id).value];
            && (o.status == Received ==> r == Fail(AlreadyReceived))
            && (o.status == Cancelled ==> r == Done(db))
            && (o.status == Draft || o.status == Sent ==> r.Done?))
  {
    hide Decide, WindowAt, RefreshLines;
    Known(db, id);
    if FindOrder(db.orders, id).Some? {
      var i := FindOrder(db.orders, id).value;
      var o := db.orders[i];
      assert OrderValid(w, o);
      forall j | 0 <= j < |o.lines| ensures o.lines[j].item in w.items { assert o.lines[j] in o.lines; }
      RefreshLinesIff(w, db.(orders := WithStatus(db.orders, i, Cancelled)), o.lines, 0);
    }
  }

  // ---- Counts ----

  /** A count opens under a new identifier over known items and touches nothing else. */
  lemma OpenAnswers(w: World, db: Db, id: Uuid, items: seq<Uuid>)
    ensures
      var r := CreateCount(w, db, id, items);
      && (r.Done? <==> id !in db.counts && forall item :: item in items ==> item in w.items)
      && (r.Done? ==> r.value == db.(counts := r.value.counts) && r.value.counts.Keys == db.counts.Keys + {id}
                      && forall c :: c in db.counts ==> r.value.counts[c] == db.counts[c])
  {
  }

  lemma {:induction false} SetLinesIff(w: World, lines: seq<CountLine>, counted: seq<Wanted>, k: nat)
    requires k <= |counted|
    ensures SetLines(w, lines, counted, k).Done? <==> forall j :: k <= j < |counted| ==> counted[j].qty >= 0 && counted[j].item in w.items
    ensures k < |counted| && counted[k].qty < 0 ==> SetLines(w, lines, counted, k) == Fail(NegativeCounted)
    decreases |counted| - k
  {
    if k < |counted| { SetLinesIff(w, SetCounted(lines, counted[k].item, counted[k].qty), counted, k + 1); }
  }

  /** Only an open count takes entries, and they must be of known items and not negative; the
      count stays open and nothing else is touched. */
  lemma EntryAnswers(w: World, db: Db, id: Uuid, counted: seq<Wanted>)
    ensures
      var r := SetCountLines(w, db, id, counted);
      && (id !in db.counts ==> r == Fail(ItemNotFound))
      && (id in db.counts && db.counts[id].posted ==> r == Fail(CountPosted))
      && (id in db.counts && !db.counts[id].posted ==>
            (r.Done? <==> forall j :: 0 <= j < |counted| ==> counted[j].qty >= 0 && counted[j].item in w.items))
      && (r.Done? ==> id in db.counts && r.value == db.(counts := r.value.counts) && r.value.counts.Keys == db.counts.Keys
                      && !r.value.counts[id].posted && forall c :: c in db.counts && c != id ==> r.value.counts[c] == db.counts[c])
  {
    hide SetLines;
    if id in db.counts { SetLinesIff(w, db.counts[id].lines, counted, 0); }
  }

  /** The adjustments a count leaves: for each counted line whose balance differs one row with
      the difference, in line order, naming the count and who posted it. */
  function Corrections(w: World, l: Ledger, p: Posting, lines: seq<CountLine>, k: nat): seq<Movement>
    requires k <= |lines|
    decreases |lines| - k
  {
    if k == |lines| then []
    else
      var c := lines[k];
      (if c.counted.Some? && c.counted.value != l.OnHand(c.item) then
         [Movement(p.ids(k), c.item, Adjustment, c.counted.value - l.OnHand(c.item), w.now, Some(p.author), "", None, Some(p.count), None, "")]
       else []) + Corrections(w, l, p, lines, k + 1)
  }

  lemma {:induction false} SameCorrections(w: World, a: Ledger, b: Ledger, p: Posting, lines: seq<CountLine>, k: nat)
    requires k <= |lines| && forall j :: k <= j < |lines| ==> a.OnHand(lines[j].item) == b.OnHand(lines[j].item)
    ensures Corrections(w, a, p, lines, k) == Corrections(w, b, p, lines, k)
    decreases |lines| - k
  {
    if k < |lines| { SameCorrections(w, a, b, p, lines, k + 1); }
  }

  lemma LineCorrects(w: World, db: Db, p: Posting, c: CountLine, k: nat)
    requires PostLine(w, db, p, c, k).Done? && PostLine(w, db, p, c, k).value.1 == []
    ensures
      var n := PostLine(w, db, p, c, k).value.0;
      n.ledger.journal == db.ledger.journal
        + (if c.counted.Some? && c.counted.value != db.ledger.OnHand(c.item) then
             [Movement(p.ids(k), c.item, Adjustment, c.counted.value - db.ledger.OnHand(c.item), w.now, Some(p.author), "", None, Some(p.count), None, "")]
           else [])
  {
    hide Decide, WindowAt, Corrections;
  }

  lemma {:induction false} PostCorrects(w: World, db: Db, p: Posting, lines: seq<CountLine>, k: nat)
    requires k <= |lines| && CL.DistinctCounted(lines) && CL.Postable(w, db.ledger, p, lines, k)
    requires p.force || CL.Diffs(db.ledger, lines, k) == []
    ensures PostFrom(w, db, p, lines, k, []).Done?
    ensures PostFrom(w, db, p, lines, k, []).value.0.ledger.journal == db.ledger.journal + Corrections(w, db.ledger, p, lines, k)
    ensures PostFrom(w, db, p, lines, k, []).value.0.orders == db.orders && PostFrom(w, db, p, lines, k, []).value.0.counts == db.counts
    decreases |lines| - k
  {
    hide Decide, WindowAt, PostLine, CL.Postable, CL.Skips;
    CL.PostAll(w, db, p, lines, k, []);
    if k < |lines| {
      CL.OneLineKeeps(w, db, p, lines, k);
      var n, c := PostLine(w, db, p, lines[k], k).value.0, lines[k];
      NothingReported(db.ledger, p, lines, k);
      LineCorrects(w, db, p, c, k);
      LineSpares(w, db, p, c, k);
      PostCorrects(w, n, p, lines, k + 1);
      SameCorrections(w, n.ledger, db.ledger, p, lines, k + 1);
      assert [] + CL.Reported(db.ledger, p, c) == [];
      CL.PostFromStep(w, db, p, lines, k, [], n, []);
    }
  }

  lemma LineSpares(w: World, db: Db, p: Posting, c: CountLine, k: nat)
    requires PostLine(w, db, p, c, k).Done?
    ensures PostLine(w, db, p, c, k).value.0.orders == db.orders && PostLine(w, db, p, c, k).value.0.counts == db.counts
  {
    hide Decide, WindowAt, Append;
  }

  lemma NothingReported(l: Ledger, p: Posting, lines: seq<CountLine>, k: nat)
    requires k < |lines| && (p.force || CL.Diffs(l, lines, k) == [])
    ensures CL.Reported(l, p, lines[k]) == [] && (p.force || CL.Diffs(l, lines, k + 1) == [])
  {
  }

  /** A posting that goes through writes exactly those adjustments, marks the count as posted
      with its lines as they are and touches no order and no other count. A count that does
      not exist or is posted already says so. */
  lemma PostingWrites(w: World, db: Db, p: Posting)
    ensures p.count !in db.counts ==> PostCount(w, db, p) == Fail(ItemNotFound)
    ensures p.count in db.counts && db.counts[p.count].posted ==> PostCount(w, db, p) == Fail(CountPosted)
    ensures
      p.count in db.counts && !db.counts[p.count].posted && CL.DistinctCounted(db.counts[p.count].lines)
      && CL.Postable(w, db.ledger, p, db.counts[p.count].lines, 0)
      && (p.force || CL.Diffs(db.ledger, db.counts[p.count].lines, 0) == []) ==>
        var r, lines := PostCount(w, db, p), db.counts[p.count].lines;
        && r.Done? && r.value.ledger.journal == db.ledger.journal + Corrections(w, db.ledger, p, lines, 0)
        && r.value.orders == db.orders && r.value.counts == db.counts[p.count := Count(true, lines)]
  {
    hide Decide, WindowAt, PostFrom, CL.Postable, CL.Diffs;
    if p.count in db.counts && !db.counts[p.count].posted {
      var lines := db.counts[p.count].lines;
      if CL.DistinctCounted(lines) && CL.Postable(w, db.ledger, p, lines, 0) && (p.force || CL.Diffs(db.ledger, lines, 0) == []) {
        PostCorrects(w, db, p, lines, 0);
        CL.PostAll(w, db, p, lines, 0, []);
      }
    }
  }
}
