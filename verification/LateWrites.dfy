/** Checks that take no lock: another transaction may commit between the check of an update
    and its writes. */
module LateWrites {
  import opened Options
  import opened Quantity
  import opened Identifiers
  import opened DeliveryWindow
  import opened Reorder
  import opened Catalog
  import opened Journal
  import opened Shop
  import opened ShopLaws
  import opened ReceiptLaws
  import opened OrderLaws
  import opened CountLaws
  import opened DocumentLaws

  // ---- An update of order lines against a send ----

  /** What the last word of a request about an item asks for. */
  function Asked(wanted: seq<Wanted>, j: nat): Option<Qty>
    requires j < |wanted|
  {
    if wanted[j].qty > 0 then Some(wanted[j].qty) else None
  }

  /** The request asks for nothing but what the lines already say. */
  ghost predicate AsksForTheSame(lines: seq<Line>, wanted: seq<Wanted>) {
    forall j: nat :: j < |wanted| && LastAbout(wanted, wanted[j].item, j) ==> OrderedOf(lines, wanted[j].item) == Asked(wanted, j)
  }

  predicate SameQuantities(a: seq<Line>, b: seq<Line>) { forall item: Uuid :: OrderedOf(a, item) == OrderedOf(b, item) }

  lemma {:induction false} LastExists(wanted: seq<Wanted>, item: Uuid, k: nat) returns (j: nat)
    requires k < |wanted| && wanted[k].item == item
    ensures k <= j && LastAbout(wanted, item, j)
    decreases |wanted| - k
  {
    if i :| k < i < |wanted| && wanted[i].item == item { j := LastExists(wanted, item, i); } else { j := k; }
  }

  /** Writing a request leaves every quantity as it was exactly when it asks for the same. */
  lemma UnchangedIff(w: World, lines: seq<Line>, wanted: seq<Wanted>)
    requires LinesValid(w, lines) && PutLines(w, lines, wanted, 0).Done?
    ensures SameQuantities(lines, PutLines(w, lines, wanted, 0).value) <==> AsksForTheSame(lines, wanted)
  {
    hide PutLines, OrderedOf;
    var n := PutLines(w, lines, wanted, 0).value;
    forall item: Uuid
      ensures forall j: nat :: LastAbout(wanted, item, j) ==> OrderedOf(n, item) == Asked(wanted, j)
      ensures (forall j :: 0 <= j < |wanted| ==> wanted[j].item != item) ==> OrderedOf(n, item) == OrderedOf(lines, item)
    {
      UpdateSetsLines(w, lines, wanted, 0, item);
    }
    if AsksForTheSame(lines, wanted) {
      forall item: Uuid ensures OrderedOf(lines, item) == OrderedOf(n, item) {
        if k :| 0 <= k < |wanted| && wanted[k].item == item { var j := LastExists(wanted, item, k); }
      }
    }
  }

  /** When a send commits between the check and the writes of an update, the update still
      goes through on the sent order, and its quantities stay as sent if and only if the
      request asks for the same. */
  lemma LateUpdate(w: World, db: Db, id: Uuid, wanted: seq<Wanted>)
    requires OrdersValid(w, db.orders) && UpdateLines(w, db, id, wanted).Done? && Send(w, db, id).Done?
    ensures
      var i := FindOrder(db.orders, id).value;
      var sent := Send(w, db, id).value;
      && i < |sent.orders| && sent.orders[i].lines == db.orders[i].lines && WriteLines(w, sent, i, wanted).Done?
      && WriteLines(w, sent, i, wanted).value.orders[i].status == Sent
      && (SameQuantities(sent.orders[i].lines, WriteLines(w, sent, i, wanted).value.orders[i].lines) <==>
          AsksForTheSame(db.orders[i].lines, wanted))
  {
    hide Decide, WindowAt, PutLines;
    var i := FindOrder(db.orders, id).value;
    var o := db.orders[i];
    var d1 := WindowAt(w.now, w.suppliers[o.supplier]).d1;
    var flipped := db.(orders := db.orders[i := o.(status := Sent, expected := Some(d1))]);
    RefreshLinesFacts(w, flipped, o.lines, 0);
    assert Send(w, db, id).value.orders == flipped.orders;
    UnchangedIff(w, o.lines, wanted);
  }

  /** A concrete case: one line of one unit is sent while an update to two units waits. */
  function LateWorld(): World {
    World(0, map[7 := Item(false, 95, 0, None, 0, 0, 0.0, None, [])], map[2 := Supplier(1, [], TimeOfDay(12, 0))], _ => 1.0)
  }

  function LateDb(): Db {
    Db(Ledger([], map[]), [Order(1, 2, Draft, None, [Line(7, 1000, None)])],
       map[3 := Count(false, [CountLine(7, 0, Some(0))])], map[], [])
  }

  lemma LinesChangeAfterSend()
    ensures UpdateLines(LateWorld(), LateDb(), 1, [Wanted(7, 2000)]).Done? && Send(LateWorld(), LateDb(), 1).Done?
    ensures
      var sent := Send(LateWorld(), LateDb(), 1).value;
      && |sent.orders| == 1 && sent.orders[0].status == Sent && sent.orders[0].lines == [Line(7, 1000, None)]
      && WriteLines(LateWorld(), sent, 0, [Wanted(7, 2000)]).Done?
      && WriteLines(LateWorld(), sent, 0, [Wanted(7, 2000)]).value.orders[0] == sent.orders[0].(lines := [Line(7, 2000, None)])
  {
    hide Decide, WindowAt;
    var w, db, wanted := LateWorld(), LateDb(), [Wanted(7, 2000)];
    var o := db.orders[0];
    assert FindOrder(db.orders, 1) == Some(0);
    var flipped := db.(orders := db.orders[0 := o.(status := Sent, expected := Some(WindowAt(0, w.suppliers[2]).d1))]);
    assert RefreshLines(w, flipped, o.lines, 0) == Refresh(w, flipped, 7);
    RefreshLinesFacts(w, flipped, o.lines, 0);
    assert PutLine(o.lines, 7, 2000) == [Line(7, 2000, None)];
    assert PutLines(w, o.lines, wanted, 0) == PutLines(w, [Line(7, 2000, None)], wanted, 1);
  }

  // ---- An entry of counted quantities against a posting ----

  /** The entries say nothing but what is already entered. */
  ghost predicate EntersTheSame(lines: seq<CountLine>, counted: seq<Wanted>) {
    forall j: nat :: j < |counted| && LastAbout(counted, counted[j].item, j) ==>
      CountedOf(lines, counted[j].item) == Some(counted[j].qty)
  }

  predicate SameCounted(a: seq<CountLine>, b: seq<CountLine>) { forall item: Uuid :: CountedOf(a, item) == CountedOf(b, item) }

  lemma EnteredIff(w: World, lines: seq<CountLine>, counted: seq<Wanted>)
    requires SetLines(w, lines, counted, 0).Done?
    ensures SameCounted(lines, SetLines(w, lines, counted, 0).value) <==> EntersTheSame(lines, counted)
  {
    hide SetLines, CountedOf;
    var n := SetLines(w, lines, counted, 0).value;
    forall item: Uuid
      ensures forall j: nat :: LastAbout(counted, item, j) ==> CountedOf(n, item) == Some(counted[j].qty)
      ensures (forall j :: 0 <= j < |counted| ==> counted[j].item != item) ==> CountedOf(n, item) == CountedOf(lines, item)
    {
      CountingSets(w, lines, counted, 0, item);
    }
    if EntersTheSame(lines, counted) {
      forall item: Uuid ensures CountedOf(lines, item) == CountedOf(n, item) {
        if k :| 0 <= k < |counted| && counted[k].item == item { var j := LastExists(counted, item, k); }
      }
    }
  }

  /** When a posting commits between the check and the writes of an entry, the entry still
      goes through on the posted count, and what it says was counted stays as posted if and
      only if the entry says the same. */
  lemma LateEntry(w: World, db: Db, p: Posting, counted: seq<Wanted>)
    requires SetCountLines(w, db, p.count, counted).Done? && PostCount(w, db, p).Done?
    ensures
      var posted := PostCount(w, db, p).value;
      && p.count in posted.counts && posted.counts[p.count].lines == db.counts[p.count].lines
      && WriteCounted(w, posted, p.count, counted).Done?
      && WriteCounted(w, posted, p.count, counted).value.counts[p.count].posted
      && (SameCounted(posted.counts[p.count].lines, WriteCounted(w, posted, p.count, counted).value.counts[p.count].lines) <==>
          EntersTheSame(db.counts[p.count].lines, counted))
  {
    hide Decide, WindowAt, SetLines;
    PostCounts(w, db, p, db.counts[p.count].lines, 0, []);
    EnteredIff(w, db.counts[p.count].lines, counted);
  }

  /** A concrete case: a count of nothing is posted while an entry of one unit waits. */
  lemma EntryChangesAfterPosting()
    ensures
      var p := Posting(3, 9, false, _ => 4);
      && SetCountLines(LateWorld(), LateDb(), 3, [Wanted(7, 1000)]).Done? && PostCount(LateWorld(), LateDb(), p).Done?
      && var posted := PostCount(LateWorld(), LateDb(), p).value;
         && 3 in posted.counts && posted.counts[3] == Count(true, [CountLine(7, 0, Some(0))])
         && WriteCounted(LateWorld(), posted, 3, [Wanted(7, 1000)]).Done?
         && WriteCounted(LateWorld(), posted, 3, [Wanted(7, 1000)]).value.counts[3] == Count(true, [CountLine(7, 0, Some(1000))])
  {
    hide Decide, WindowAt;
    var w, db, p := LateWorld(), LateDb(), Posting(3, 9, false, _ => 4);
    var lines := db.counts[3].lines;
    assert SetCounted(lines, 7, 1000) == [CountLine(7, 0, Some(1000))];
    assert SetLines(w, lines, [Wanted(7, 1000)], 0) == SetLines(w, [CountLine(7, 0, Some(1000))], [Wanted(7, 1000)], 1);
    assert PostLine(w, db, p, lines[0], 0) == Done((db.(ledger := Ensure(db.ledger, 7)), []));
    assert PostFrom(w, db, p, lines, 0, []) == PostFrom(w, db.(ledger := Ensure(db.ledger, 7)), p, lines, 1, [] + []);
  }
}
