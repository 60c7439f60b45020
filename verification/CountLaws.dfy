/** Posting a stock count: all lines or none, and at most once. */
module CountLaws {
  import opened Options
  import opened Quantity
  import opened Identifiers
  import opened DeliveryWindow
  import opened Reorder
  import opened Catalog
  import opened Journal
  import opened Shop
  import opened ShopLaws

  predicate DistinctCounted(lines: seq<CountLine>) {
    forall i, j :: 0 <= i < j < |lines| ==> lines[i].item != lines[j].item
  }

  /** The counted lines from the k-th on name known items with storable quantities, and
      the identifiers drawn for their rows are new. */
  ghost predicate Postable(w: World, l: Ledger, p: Posting, lines: seq<CountLine>, k: nat) {
    && (forall j :: k <= j < |lines| && lines[j].counted.Some? ==>
          lines[j].item in w.items && 0 <= lines[j].counted.value < LIMIT && 0 <= l.OnHand(lines[j].item) < LIMIT)
    && (forall j :: k <= j < |lines| ==> forall m :: m in l.journal ==> m.id != p.ids(j))
    && (forall i, j :: 0 <= i < j < |lines| ==> p.ids(i) != p.ids(j))
  }

  /** The counted lines whose balance is no longer the one seen when the count was opened. */
  function Diffs(l: Ledger, lines: seq<CountLine>, k: nat): seq<ChangedLine>
    requires k <= |lines|
    decreases |lines| - k
  {
    if k == |lines| then []
    else
      var c := lines[k];
      var current := l.OnHand(c.item);
      (if c.counted.Some? && current != c.expected then [ChangedLine(c.item, c.expected, current, c.counted.value)] else [])
        + Diffs(l, lines, k + 1)
  }

  predicate Skips(l: Ledger, p: Posting, c: CountLine) { c.counted.None? || (!p.force && l.OnHand(c.item) != c.expected) }

  function Reported(l: Ledger, p: Posting, c: CountLine): seq<ChangedLine> {
    if c.counted.Some? && Skips(l, p, c) then [ChangedLine(c.item, c.expected, l.OnHand(c.item), c.counted.value)] else []
  }

  lemma AdjustmentAllowed(w: World, l: Ledger, p: Posting, k: nat, item: Uuid, counted: Qty)
    requires 0 <= counted < LIMIT && 0 <= l.OnHand(item) < LIMIT && counted != l.OnHand(item)
    requires forall m :: m in l.journal ==> m.id != p.ids(k)
    ensures
      var m := AdjustmentRow(w, p, k, item, counted - l.OnHand(item));
      Append(l, m) == Done(Ledger(l.journal + [m], l.balance[item := counted]))
  {
    InsertErrorIff(l.journal, AdjustmentRow(w, p, k, item, counted - l.OnHand(item)));
  }

  /** A line that is neither skipped nor equal goes through all its statements. */
  lemma AdjustmentLands(w: World, db: Db, p: Posting, c: CountLine, k: nat)
    requires c.counted.Some? && c.item in w.items && 0 <= c.counted.value < LIMIT && 0 <= db.ledger.OnHand(c.item) < LIMIT
    requires c.counted.value != db.ledger.OnHand(c.item) && !Skips(db.ledger, p, c)
    requires forall m :: m in db.ledger.journal ==> m.id != p.ids(k)
    ensures
      var r := PostLine(w, db, p, c, k);
      var m := AdjustmentRow(w, p, k, c.item, c.counted.value - db.ledger.OnHand(c.item));
      && r.Done? && r.value.1 == []
      && r.value.0.ledger.journal == db.ledger.journal + [m]
      && r.value.0.ledger.balance == db.ledger.balance[c.item := c.counted.value]
  {
    hide Decide, WindowAt, PostLine, Append, Refresh, InsertError;
    var l := Ensure(db.ledger, c.item);
    AdjustmentAllowed(w, l, p, k, c.item, c.counted.value);
    assert l.balance[c.item := c.counted.value] == db.ledger.balance[c.item := c.counted.value];
    AdjustmentRuns(w, db, p, c, k, Ledger(l.journal + [AdjustmentRow(w, p, k, c.item, c.counted.value - l.OnHand(c.item))],
                                          l.balance[c.item := c.counted.value]));
  }

  lemma AdjustmentRuns(w: World, db: Db, p: Posting, c: CountLine, k: nat, n: Ledger)
    requires c.counted.Some? && c.item in w.items && !Skips(db.ledger, p, c) && c.counted.value != db.ledger.OnHand(c.item)
    requires
      var l := Ensure(db.ledger, c.item);
      Append(l, AdjustmentRow(w, p, k, c.item, c.counted.value - l.OnHand(c.item))) == Done(n)
    ensures
      var r := PostLine(w, db, p, c, k);
      r.Done? && r.value.1 == [] && r.value.0.ledger == n
  {
    hide Decide, WindowAt;
  }

  lemma LeftAlone(w: World, db: Db, p: Posting, c: CountLine, k: nat)
    requires c.counted.Some? ==> c.item in w.items && (Skips(db.ledger, p, c) || c.counted.value == db.ledger.OnHand(c.item))
    ensures
      var r := PostLine(w, db, p, c, k);
      && r.Done? && r.value.1 == Reported(db.ledger, p, c)
      && r.value.0.ledger.journal == db.ledger.journal
      && forall item: Uuid :: r.value.0.ledger.OnHand(item) == db.ledger.OnHand(item)
  {
  }

  /** Posting one line sets its balance, or leaves it and reports the difference. */
  lemma OneLine(w: World, db: Db, p: Posting, c: CountLine, k: nat)
    requires c.counted.Some? ==> c.item in w.items && 0 <= c.counted.value < LIMIT && 0 <= db.ledger.OnHand(c.item) < LIMIT
    requires forall m :: m in db.ledger.journal ==> m.id != p.ids(k)
    ensures
      var r := PostLine(w, db, p, c, k);
      && r.Done? && r.value.1 == Reported(db.ledger, p, c)
      && (forall item: Uuid :: r.value.0.ledger.OnHand(item)
            == if item == c.item && !Skips(db.ledger, p, c) then c.counted.value else db.ledger.OnHand(item))
      && (forall m :: m in r.value.0.ledger.journal ==> m in db.ledger.journal || m.id == p.ids(k))
  {
    if c.counted.None? || Skips(db.ledger, p, c) || c.counted.value == db.ledger.OnHand(c.item) {
      LeftAlone(w, db, p, c, k);
    } else {
      AdjustmentLands(w, db, p, c, k);
    }
  }

  lemma {:induction false} SameDiffs(a: Ledger, b: Ledger, lines: seq<CountLine>, k: nat)
    requires k <= |lines| && forall j :: k <= j < |lines| ==> a.OnHand(lines[j].item) == b.OnHand(lines[j].item)
    ensures Diffs(a, lines, k) == Diffs(b, lines, k)
    decreases |lines| - k
  {
    if k < |lines| { SameDiffs(a, b, lines, k + 1); }
  }

  ghost predicate Posted(before: Ledger, after: Ledger, p: Posting, lines: seq<CountLine>, k: nat) {
    && (forall j :: k <= j < |lines| && !Skips(before, p, lines[j]) ==> after.OnHand(lines[j].item) == lines[j].counted.value)
    && (forall item: Uuid :: (forall j :: k <= j < |lines| ==> lines[j].item != item) ==> after.OnHand(item) == before.OnHand(item))
  }

  lemma PostedStep(a: Ledger, b: Ledger, c: Ledger, p: Posting, lines: seq<CountLine>, k: nat)
    requires k < |lines| && DistinctCounted(lines) && Posted(b, c, p, lines, k + 1)
    requires forall item: Uuid :: b.OnHand(item)
               == if item == lines[k].item && !Skips(a, p, lines[k]) then lines[k].counted.value else a.OnHand(item)
    ensures Posted(a, c, p, lines, k)
  {
    assert c.OnHand(lines[k].item) == b.OnHand(lines[k].item);
  }

  lemma PostFromStep(w: World, db: Db, p: Posting, lines: seq<CountLine>, k: nat, changed: seq<ChangedLine>,
                     n: Db, reported: seq<ChangedLine>)
    requires k < |lines| && PostLine(w, db, p, lines[k], k) == Done((n, reported))
    ensures PostFrom(w, db, p, lines, k, changed) == PostFrom(w, n, p, lines, k + 1, changed + reported)
  {
  }

  /** The outcome of the lines from the k-th on. */
  ghost predicate Outcome(before: Ledger, r: Result<(Db, seq<ChangedLine>)>, p: Posting, lines: seq<CountLine>, k: nat,
                          changed: seq<ChangedLine>)
    requires k <= |lines|
  {
    && r.Done?
    && r.value.1 == changed + (if p.force then [] else Diffs(before, lines, k))
    && Posted(before, r.value.0.ledger, p, lines, k)
  }

  lemma {:induction false} PostAll(w: World, db: Db, p: Posting, lines: seq<CountLine>, k: nat, changed: seq<ChangedLine>)
    requires k <= |lines| && DistinctCounted(lines) && Postable(w, db.ledger, p, lines, k)
    ensures Outcome(db.ledger, PostFrom(w, db, p, lines, k, changed), p, lines, k, changed)
    decreases |lines| - k
  {
    if k < |lines| {
      OneLineKeeps(w, db, p, lines, k);
      var n, reported := PostLine(w, db, p, lines[k], k).value.0, Reported(db.ledger, p, lines[k]);
      PostAll(w, n, p, lines, k + 1, changed + reported);
      PostFromStep(w, db, p, lines, k, changed, n, reported);
      PostedStep(db.ledger, n.ledger, PostFrom(w, n, p, lines, k + 1, changed + reported).value.0.ledger, p, lines, k);
      ReportedDiffs(db.ledger, p, lines, k, changed);
    }
  }

  lemma OneLineKeeps(w: World, db: Db, p: Posting, lines: seq<CountLine>, k: nat)
    requires k < |lines| && DistinctCounted(lines) && Postable(w, db.ledger, p, lines, k)
    ensures
      var c, r := lines[k], PostLine(w, db, p, lines[k], k);
      && r.Done? && r.value.1 == Reported(db.ledger, p, c)
      && Postable(w, r.value.0.ledger, p, lines, k + 1)
      && Diffs(r.value.0.ledger, lines, k + 1) == Diffs(db.ledger, lines, k + 1)
      && (forall item: Uuid :: r.value.0.ledger.OnHand(item)
            == if item == c.item && !Skips(db.ledger, p, c) then c.counted.value else db.ledger.OnHand(item))
  {
    OneLine(w, db, p, lines[k], k);
    SameDiffs(PostLine(w, db, p, lines[k], k).value.0.ledger, db.ledger, lines, k + 1);
  }

  lemma ReportedDiffs(l: Ledger, p: Posting, lines: seq<CountLine>, k: nat, changed: seq<ChangedLine>)
    requires k < |lines|
    ensures changed + Reported(l, p, lines[k]) + (if p.force then [] else Diffs(l, lines, k + 1))
         == changed + (if p.force then [] else Diffs(l, lines, k))
  {
  }

  lemma {:induction false} NoDiffs(l: Ledger, lines: seq<CountLine>, k: nat)
    requires k <= |lines|
    ensures Diffs(l, lines, k) == [] <==>
              forall j :: k <= j < |lines| && lines[j].counted.Some? ==> l.OnHand(lines[j].item) == lines[j].expected
    decreases |lines| - k
  {
    if k < |lines| { NoDiffs(l, lines, k + 1); }
  }

  /** An unforced call fails with exactly the lines that differ; otherwise every counted
      line ends with the counted balance and the document can never be posted again. */
  lemma PostCountOutcome(w: World, db: Db, p: Posting)
    requires p.count in db.counts && !db.counts[p.count].posted
    requires var lines := db.counts[p.count].lines; DistinctCounted(lines) && Postable(w, db.ledger, p, lines, 0)
    ensures
      var lines := db.counts[p.count].lines;
      var diffs := Diffs(db.ledger, lines, 0);
      var r := PostCount(w, db, p);
      if !p.force && diffs != [] then r == Fail(CountChanged(diffs))
      else
        && r.Done?
        && (forall j :: 0 <= j < |lines| && lines[j].counted.Some? ==>
              r.value.ledger.OnHand(lines[j].item) == lines[j].counted.value)
        && (forall item: Uuid :: (forall c :: c in lines ==> c.item != item) ==>
              r.value.ledger.OnHand(item) == db.ledger.OnHand(item))
        && (forall again: Posting :: again.count == p.count ==> PostCount(w, r.value, again) == Fail(CountPosted))
  {
    var lines := db.counts[p.count].lines;
    PostAll(w, db, p, lines, 0, []);
    NoDiffs(db.ledger, lines, 0);
    assert [] + Diffs(db.ledger, lines, 0) == Diffs(db.ledger, lines, 0);
  }

  // ---- Counts over runs ----

  /** One line per item, and nothing negative was counted. */
  predicate CountValid(c: Count) {
    DistinctCounted(c.lines) && forall line :: line in c.lines && line.counted.Some? ==> line.counted.value >= 0
  }

  predicate CountsValid(counts: map<Uuid, Count>) { forall id :: id in counts ==> CountValid(counts[id]) }

  /** No count disappears and a posted one never changes. */
  predicate CountsLater(a: map<Uuid, Count>, b: map<Uuid, Count>) {
    forall id :: id in a ==> id in b && (a[id].posted ==> b[id] == a[id])
  }

  lemma {:induction false} SetCountedItems(lines: seq<CountLine>, item: Uuid, q: Qty, line: CountLine)
    requires line in SetCounted(lines, item, q)
    ensures line.item == item || line in lines
  {
    if lines != [] && lines[0].item != item && line != lines[0] { SetCountedItems(lines[1..], item, q, line); }
  }

  lemma {:induction false} SetCountedValid(lines: seq<CountLine>, item: Uuid, q: Qty)
    requires q >= 0 && CountValid(Count(false, lines))
    ensures CountValid(Count(false, SetCounted(lines, item, q)))
  {
    if lines != [] && lines[0].item != item {
      var rest := SetCounted(lines[1..], item, q);
      SetCountedValid(lines[1..], item, q);
      forall line | line in rest ensures line.item != lines[0].item {
        SetCountedItems(lines[1..], item, q, line);
      }
      assert SetCounted(lines, item, q) == [lines[0]] + rest;
    }
  }

  lemma {:induction false} SetLinesValid(w: World, lines: seq<CountLine>, counted: seq<Wanted>, k: nat)
    requires k <= |counted| && CountValid(Count(false, lines)) && SetLines(w, lines, counted, k).Done?
    ensures CountValid(Count(false, SetLines(w, lines, counted, k).value))
    decreases |counted| - k
  {
    if k < |counted| {
      SetCountedValid(lines, counted[k].item, counted[k].qty);
      SetLinesValid(w, SetCounted(lines, counted[k].item, counted[k].qty), counted, k + 1);
    }
  }

  lemma {:induction false} ExpectedValid(l: Ledger, items: seq<Uuid>, k: nat)
    requires k <= |items|
    ensures CountValid(Count(false, ExpectedLines(l, items, k)))
  {
    if k > 0 { ExpectedValid(l, items, k - 1); }
  }

  lemma {:induction false} PostCounts(w: World, db: Db, p: Posting, lines: seq<CountLine>, k: nat, changed: seq<ChangedLine>)
    requires k <= |lines| && PostFrom(w, db, p, lines, k, changed).Done?
    ensures PostFrom(w, db, p, lines, k, changed).value.0.counts == db.counts
    decreases |lines| - k
  {
    hide Decide, WindowAt;
    if k < |lines| {
      var r := PostLine(w, db, p, lines[k], k).value;
      PostCounts(w, r.0, p, lines, k + 1, changed + r.1);
    }
  }

  lemma {:induction false} ReceiveCounts(w: World, db: Db, i: nat, lines: seq<Line>, a: Arrival, k: nat)
    requires k <= |lines| && ReceiveFrom(w, db, i, lines, a, k).Done?
    ensures ReceiveFrom(w, db, i, lines, a, k).value.counts == db.counts
    decreases |lines| - k
  {
    hide Decide, WindowAt;
    if k < |lines| { ReceiveCounts(w, ReceiveLine(w, db, i, lines[k], a, k).value, i, lines, a, k + 1); }
  }

  lemma StepCounts(w: World, db: Db, op: Op)
    requires CountsValid(db.counts)
    ensures CountsValid(Apply(w, db, op).counts) && CountsLater(db.counts, Apply(w, db, op).counts)
  {
    hide Decide, WindowAt;
    if Try(w, db, op).Done? {
      match op
      case DoRecord(r) =>
      case DoReverse(u) =>
      case DoPost(p) => PostCounts(w, db, p, db.counts[p.count].lines, 0, []);
      case DoCreateCount(id, items) => ExpectedValid(db.ledger, items, |items|);
      case DoSetCounted(id, lines) => SetLinesValid(w, db.counts[id].lines, lines, 0);
      case DoCreateOrder(_, _, _) =>
      case DoUpdateLines(_, _) =>
      case DoSend(id) =>
        var i := FindOrder(db.orders, id).value;
        var o := db.orders[i];
        var d1 := WindowAt(w.now, w.suppliers[o.supplier]).d1;
        RefreshLinesFacts(w, db.(orders := db.orders[i := o.(status := Sent, expected := Some(d1))]), o.lines, 0);
      case DoCancel(id) =>
        var i := FindOrder(db.orders, id).value;
        if db.orders[i].status != Cancelled {
          RefreshLinesFacts(w, db.(orders := WithStatus(db.orders, i, Cancelled)), db.orders[i].lines, 0);
        }
      case DoReceive(a) =>
        var i := FindOrder(db.orders, a.order).value;
        ReceiveCounts(w, db.(orders := WithStatus(db.orders, i, Received)), i, db.orders[i].lines, a, 0);
    }
  }

  /** Over every run a count has one line per item, its counted quantities are not
      negative, and once posted it is frozen. */
  lemma {:induction false} RunCounts(w: World, db: Db, ops: seq<Op>)
    requires CountsValid(db.counts)
    ensures CountsValid(Run(w, db, ops).counts) && CountsLater(db.counts, Run(w, db, ops).counts)
    decreases ops
  {
    if ops != [] {
      StepCounts(w, db, ops[0]);
      RunCounts(w, Apply(w, db, ops[0]), ops[1..]);
    }
  }
}
