/** Writing generated histories straight into the journal, and checking balances against it. */
module BulkLoad {
  import opened Options
  import opened Quantity
  import opened Identifiers
  import opened DeliveryWindow
  import opened Journal
  import H = History

  // ---- Reconciliation ----

  /** An item whose cached balance differs from its journal sum. */
  datatype Drift = Drift(item: Uuid, journal: Qty, balance: Qty)

  /** Journal totals of the items that have rows. */
  method SumByItem(journal: seq<Movement>) returns (sums: map<Uuid, Qty>)
    ensures forall item: Uuid :: item in sums <==> exists m :: m in journal && m.item == item
    ensures forall item :: item in sums ==> sums[item] == Sum(journal, item)
    ensures forall item: Uuid :: item !in sums ==> Sum(journal, item) == 0
  {
    sums := map[];
    for i := 0 to |journal|
      invariant forall item: Uuid :: item in sums <==> exists m :: m in journal[..i] && m.item == item
      invariant forall item :: item in sums ==> sums[item] == Sum(journal[..i], item)
      invariant forall item: Uuid :: item !in sums ==> Sum(journal[..i], item) == 0
    {
      assert journal[..i + 1][..i] == journal[..i];
      var m := journal[i];
      assert forall x :: x in journal[..i + 1] <==> x in journal[..i] || x == m;
      sums := sums[m.item := (if m.item in sums then sums[m.item] else 0) + m.qty];
    }
    assert journal[..|journal|] == journal;
  }

  predicate Drifted(l: Ledger, d: Drift) {
    d.journal == Sum(l.journal, d.item) && d.balance == l.OnHand(d.item) && d.journal != d.balance
  }

  /** The drifts found among the items of a set, each once. */
  ghost predicate Lists(l: Ledger, drifts: seq<Drift>, items: set<Uuid>) {
    && (forall d: Drift :: d in drifts <==> Drifted(l, d) && d.item in items)
    && (forall i, j :: 0 <= i < j < |drifts| ==> drifts[i].item != drifts[j].item)
  }

  lemma ListsOneMore(l: Ledger, drifts: seq<Drift>, items: set<Uuid>, item: Uuid)
    requires Lists(l, drifts, items) && item !in items
    ensures
      var want, got := Sum(l.journal, item), l.OnHand(item);
      Lists(l, if want != got then drifts + [Drift(item, want, got)] else drifts, items + {item})
  {
    forall i | 0 <= i < |drifts| ensures drifts[i].item in items { assert drifts[i] in drifts; }
  }

  lemma NothingListed(l: Ledger)
    ensures Lists(l, [], {})
  {
  }

  /** The balance rows against the journal; returns the journal sums left over. */
  method CheckRows(l: Ledger, sums: map<Uuid, Qty>) returns (drifts: seq<Drift>, expected: map<Uuid, Qty>)
    requires forall item: Uuid :: Sum(l.journal, item) == if item in sums then sums[item] else 0
    ensures expected == sums - l.balance.Keys
    ensures Lists(l, drifts, l.balance.Keys)
  {
    hide Sum, Lists;
    drifts, expected := [], sums;
    NothingListed(l);
    var rows, seen := l.balance.Keys, {};
    while rows != {}
      invariant rows + seen == l.balance.Keys && rows !! seen
      invariant expected == sums - seen
      invariant Lists(l, drifts, seen)
      decreases |rows|
    {
      var item :| item in rows;
      var want, got := if item in expected then expected[item] else 0, l.balance[item];
      ListsOneMore(l, drifts, seen, item);
      if want != got {
        drifts := drifts + [Drift(item, want, got)];
      }
      expected := expected - {item};
      rows, seen := rows - {item}, seen + {item};
    }
  }

  /** The report lists exactly the items whose balance (zero where there is no row) differs
      from the journal: it is empty if and only if cache and journal agree everywhere. */
  method Reconcile(l: Ledger) returns (drifts: seq<Drift>)
    ensures forall d: Drift :: d in drifts <==> Drifted(l, d)
    ensures forall i, j :: 0 <= i < j < |drifts| ==> drifts[i].item != drifts[j].item
    ensures drifts == [] <==> forall item: Uuid :: l.OnHand(item) == Sum(l.journal, item)
  {
    hide Sum, Lists;
    var sums := SumByItem(l.journal);
    var expected;
    drifts, expected := CheckRows(l, sums);
    var left, seen := expected.Keys, l.balance.Keys;
    while left != {}
      invariant left !! seen && left <= expected.Keys && l.balance.Keys <= seen
      invariant forall item :: item in sums ==> item in left || item in seen
      invariant Lists(l, drifts, seen)
      decreases |left|
    {
      var item :| item in left;
      assert l.OnHand(item) == 0 && Sum(l.journal, item) == expected[item];
      ListsOneMore(l, drifts, seen, item);
      if expected[item] != 0 {
        drifts := drifts + [Drift(item, expected[item], 0)];
      }
      left, seen := left - {item}, seen + {item};
    }
    AllDrifts(l, drifts, seen);
  }

  /** An item with neither a row nor a movement cannot drift. */
  lemma AllDrifts(l: Ledger, drifts: seq<Drift>, items: set<Uuid>)
    requires Lists(l, drifts, items)
    requires forall item: Uuid :: item !in items ==> l.OnHand(item) == Sum(l.journal, item)
    ensures forall d: Drift :: d in drifts <==> Drifted(l, d)
    ensures forall i, j :: 0 <= i < j < |drifts| ==> drifts[i].item != drifts[j].item
    ensures drifts == [] <==> forall item: Uuid :: l.OnHand(item) == Sum(l.journal, item)
  {
    AgreesIff(l, drifts);
  }

  lemma AgreesIff(l: Ledger, drifts: seq<Drift>)
    requires forall d: Drift :: d in drifts <==> Drifted(l, d)
    ensures drifts == [] <==> forall item: Uuid :: l.OnHand(item) == Sum(l.journal, item)
  {
    if drifts != [] {
      assert drifts[0] in drifts && l.OnHand(drifts[0].item) != Sum(l.journal, drifts[0].item);
    }
    forall item: Uuid | drifts == [] ensures l.OnHand(item) == Sum(l.journal, item) {
      assert Drift(item, Sum(l.journal, item), l.OnHand(item)) !in drifts;
    }
  }

  // ---- Bulk insertion ----

  datatype Created = Created(item: Uuid, spec: H.Spec)

  /** A generated movement with its item. */
  datatype Produced = Produced(item: Uuid, entry: H.Entry)

  /** The row written for a movement: the sign is set by its kind. */
  function BulkRow(id: Uuid, p: Produced, owner: Uuid): Movement {
    Movement(id, p.item, p.entry.kind, H.Effect(p.entry), p.entry.at, Some(owner), p.entry.reason, None, None, None, "")
  }

  function BulkRows(ids: nat -> Uuid, batch: seq<Produced>, owner: Uuid): seq<Movement> {
    seq(|batch|, k requires 0 <= k < |batch| => BulkRow(ids(k), batch[k], owner))
  }

  /** One INSERT of many rows: all of them or none. */
  function BulkInsert(journal: seq<Movement>, rows: seq<Movement>): Result<seq<Movement>> {
    if rows == [] then Done(journal)
    else
      var before :- BulkInsert(journal, rows[..|rows| - 1]);
      var refused := InsertError(before, rows[|rows| - 1]);
      if refused.Some? then Fail(refused.value) else Done(before + [rows[|rows| - 1]])
  }

  /** What the batch does to one item. */
  function Change(batch: seq<Produced>, item: Uuid): Qty {
    if batch == [] then 0
    else
      var p := batch[|batch| - 1];
      Change(batch[..|batch| - 1], item) + if p.item == item then H.Effect(p.entry) else 0
  }

  function Tagged(item: Uuid, out: seq<H.Entry>): seq<Produced> {
    seq(|out|, k requires 0 <= k < |out| => Produced(item, out[k]))
  }

  predicate NoClash(journal: seq<Movement>) {
    forall i, j :: 0 <= i < j < |journal| ==> !Clash(journal[i], journal[j])
  }

  lemma {:induction false} BulkInsertAppends(journal: seq<Movement>, rows: seq<Movement>)
    requires NoClash(journal) && BulkInsert(journal, rows).Done?
    ensures BulkInsert(journal, rows).value == journal + rows && NoClash(journal + rows)
  {
    if rows == [] {
      assert journal + rows == journal;
    } else {
      var init, m := rows[..|rows| - 1], rows[|rows| - 1];
      BulkInsertAppends(journal, init);
      InsertErrorIff(journal + init, m);
      var n := journal + rows;
      assert n == journal + init + [m];
      forall i, j | 0 <= i < j < |n| ensures !Clash(n[i], n[j]) {
        if j == |n| - 1 { assert (journal + init)[i] in journal + init; } else { assert (journal + init)[i] == n[i] && (journal + init)[j] == n[j]; }
      }
    }
  }

  /** The statement goes through exactly when every row meets the constraints and no two
      rows, old or new, clash. */
  lemma {:induction false} BulkInsertIff(journal: seq<Movement>, rows: seq<Movement>)
    requires NoClash(journal)
    ensures BulkInsert(journal, rows).Done? <==> (forall m :: m in rows ==> RowAllowed(m)) && NoClash(journal + rows)
  {
    if rows == [] {
      assert journal + rows == journal;
    } else {
      var init, m := rows[..|rows| - 1], rows[|rows| - 1];
      BulkInsertIff(journal, init);
      if BulkInsert(journal, init).Done? { BulkInsertAppends(journal, init); }
      InsertErrorIff(journal + init, m);
      assert journal + rows == journal + init + [m];
      ClashFreeMore(journal + init, m);
      assert forall x :: x in rows <==> x in init || x == m;
    }
  }

  lemma ClashFreeMore(journal: seq<Movement>, m: Movement)
    ensures NoClash(journal + [m]) <==> NoClash(journal) && forall r :: r in journal ==> !Clash(m, r)
  {
    var n := journal + [m];
    if NoClash(n) {
      forall i, j | 0 <= i < j < |journal| ensures !Clash(journal[i], journal[j]) { assert !Clash(n[i], n[j]); }
      forall r | r in journal ensures !Clash(m, r) {
        var i :| 0 <= i < |journal| && journal[i] == r;
        assert !Clash(n[i], n[|journal|]);
      }
    } else if NoClash(journal) {
      var i, j :| 0 <= i < j < |n| && Clash(n[i], n[j]);
      assert j == |journal| && journal[i] in journal && Clash(m, journal[i]);
    }
  }

  lemma {:induction false} BulkSum(journal: seq<Movement>, ids: nat -> Uuid, batch: seq<Produced>, owner: Uuid, item: Uuid)
    ensures Sum(journal + BulkRows(ids, batch, owner), item) == Sum(journal, item) + Change(batch, item)
  {
    var rows := BulkRows(ids, batch, owner);
    if batch == [] {
      assert journal + rows == journal;
    } else {
      var init := batch[..|batch| - 1];
      var m := BulkRow(ids(|batch| - 1), batch[|batch| - 1], owner);
      BulkSum(journal, ids, init, owner, item);
      assert rows == BulkRows(ids, init, owner) + [m];
      assert journal + rows == journal + BulkRows(ids, init, owner) + [m];
      SumAppend(journal + BulkRows(ids, init, owner), m, item);
    }
  }

  lemma {:induction false} ChangeConcat(a: seq<Produced>, b: seq<Produced>, item: Uuid)
    ensures Change(a + b, item) == Change(a, item) + Change(b, item)
  {
    if b == [] {
      assert a + b == a;
    } else {
      assert (a + b)[..|a + b| - 1] == a + b[..|b| - 1];
      ChangeConcat(a, b[..|b| - 1], item);
    }
  }

  lemma {:induction false} ChangeTagged(tag: Uuid, out: seq<H.Entry>, item: Uuid)
    ensures Change(Tagged(tag, out), item) == if tag == item then H.Net(out) else 0
  {
    if out != [] {
      assert Tagged(tag, out)[..|out| - 1] == Tagged(tag, out[..|out| - 1]);
      ChangeTagged(tag, out[..|out| - 1], item);
    }
  }

  // ---- The generator's run ----

  datatype Plan = Plan(items: seq<Created>, terms: seq<H.Terms>, draws: nat -> nat -> H.Draws, start: Day,
                       ids: nat -> Uuid, owner: Uuid)

  function HistoryOf(p: Plan, k: nat): H.Gen
    requires k < |p.items|
  {
    H.Generated(p.items[k].spec, H.LeadOf(p.terms, p.items[k].spec.supplier), p.draws(k), p.start)
  }

  /** The movements of the first n items, item by item. */
  function BatchOf(p: Plan, n: nat): seq<Produced>
    requires n <= |p.items|
  {
    if n == 0 then [] else BatchOf(p, n - 1) + Tagged(p.items[n - 1].item, HistoryOf(p, n - 1).out)
  }

  predicate DistinctItems(p: Plan) {
    forall i, j :: 0 <= i < j < |p.items| ==> p.items[i].item != p.items[j].item
  }

  predicate Demanding(p: Plan) { forall k :: 0 <= k < |p.items| ==> p.items[k].spec.base >= 0.0 }

  // ---- When the load succeeds ----

  /** New identifiers for n rows. */
  ghost predicate NewIds(journal: seq<Movement>, ids: nat -> Uuid, n: nat) {
    && (forall i, j :: 0 <= i < j < n ==> ids(i) != ids(j))
    && (forall k: nat, m :: k < n && m in journal ==> m.id != ids(k))
  }

  predicate Fitting(batch: seq<Produced>) { forall k :: 0 <= k < |batch| ==> batch[k].entry.qty < LIMIT }

  predicate Stocked(p: Plan) { forall k :: 0 <= k < |p.items| ==> H.Parcel(p.items[k].spec) > 0 }

  lemma {:induction false} BatchWritable(p: Plan, n: nat)
    requires Stocked(p) && n <= |p.items|
    ensures forall k :: 0 <= k < |BatchOf(p, n)| ==> H.Writable(BatchOf(p, n)[k].entry)
  {
    hide H.Writable, H.Parcel, H.After;
    if n > 0 {
      BatchWritable(p, n - 1);
      var c, g := p.items[n - 1], HistoryOf(p, n - 1);
      H.HistoryWritable(c.spec, H.LeadOf(p.terms, c.spec.supplier), p.draws(n - 1), p.start, H.HISTORY_DAYS);
      assert forall e :: e in g.out ==> H.Writable(e);
    }
  }

  /** A generated row is accepted exactly when it is not too large for its column. */
  lemma BulkRowAllowedIff(id: Uuid, q: Produced, owner: Uuid)
    requires H.Writable(q.entry)
    ensures RowAllowed(BulkRow(id, q, owner)) <==> q.entry.qty < LIMIT
  {
  }

  lemma BulkRowsClashIff(journal: seq<Movement>, ids: nat -> Uuid, batch: seq<Produced>, owner: Uuid)
    requires NoClash(journal)
    ensures NoClash(journal + BulkRows(ids, batch, owner)) <==> NewIds(journal, ids, |batch|)
  {
    var rows := BulkRows(ids, batch, owner);
    var n, z := journal + rows, |journal|;
    if NoClash(n) {
      forall i, j | 0 <= i < j < |batch| ensures ids(i) != ids(j) { assert !Clash(n[z + i], n[z + j]) && n[z + i] == rows[i] && n[z + j] == rows[j]; }
      forall k: nat, m | k < |batch| && m in journal ensures m.id != ids(k) {
        var i :| 0 <= i < z && journal[i] == m;
        assert !Clash(n[i], n[z + k]) && n[z + k] == rows[k];
      }
    }
    if NewIds(journal, ids, |batch|) {
      forall i, j | 0 <= i < j < |n| ensures !Clash(n[i], n[j]) {
        if j >= z {
          assert n[j] == rows[j - z];
          if i < z { assert journal[i] in journal && n[i] == journal[i]; } else { assert n[i] == rows[i - z]; }
        }
      }
    }
  }

  /** The batch is written exactly when its identifiers are new and every movement fits. */
  lemma WritesIff(journal: seq<Movement>, p: Plan)
    requires NoClash(journal) && Stocked(p)
    ensures
      var batch := BatchOf(p, |p.items|);
      BulkInsert(journal, BulkRows(p.ids, batch, p.owner)).Done? <==> NewIds(journal, p.ids, |batch|) && Fitting(batch)
  {
    hide H.Writable, H.Parcel, BatchOf, NewIds, NoClash, RowAllowed, BulkInsert;
    var batch := BatchOf(p, |p.items|);
    var rows := BulkRows(p.ids, batch, p.owner);
    BatchWritable(p, |p.items|);
    BulkInsertIff(journal, rows);
    BulkRowsClashIff(journal, p.ids, batch, p.owner);
    forall k | 0 <= k < |batch| ensures rows[k] in rows && (RowAllowed(rows[k]) <==> batch[k].entry.qty < LIMIT) {
      BulkRowAllowedIff(p.ids(k), batch[k], p.owner);
    }
  }

  method WriteMovements(journal: seq<Movement>, p: Plan, batch: seq<Produced>) returns (r: Result<seq<Movement>>)
    ensures r == BulkInsert(journal, BulkRows(p.ids, batch, p.owner))
  {
    hide BulkInsert;
    if |batch| == 0 {
      NoRows(journal);
      return Done(journal);
    }
    var rows: seq<Movement> := [];
    for k := 0 to |batch|
      invariant rows == BulkRows(p.ids, batch, p.owner)[..k]
    {
      var e := batch[k].entry;
      var value := Abs(e.qty);
      if e.kind.Usage? || e.kind.Writeoff? {
        value := -value;
      }
      rows := rows + [Movement(p.ids(k), batch[k].item, e.kind, value, e.at, Some(p.owner), e.reason, None, None, None, "")];
    }
    assert rows == BulkRows(p.ids, batch, p.owner);
    r := BulkInsert(journal, rows);
  }

  lemma NoRows(journal: seq<Movement>)
    ensures BulkInsert(journal, []) == Done(journal)
  {
  }

  /** The histories of all items, and what they leave of each. */
  method ProduceAll(p: Plan) returns (batch: seq<Produced>, balances: map<Uuid, Qty>)
    requires DistinctItems(p) && Demanding(p)
    ensures batch == BatchOf(p, |p.items|)
    ensures forall item: Uuid :: Change(batch, item) == if item in balances then balances[item] else 0
    ensures forall item :: item in balances ==> balances[item] >= 0
  {
    hide Change, Demanding, H.Generated;
    batch, balances := [], map[];
    NoChange();
    for k := 0 to |p.items|
      invariant batch == BatchOf(p, k)
      invariant forall item :: item in balances ==> exists j :: 0 <= j < k && p.items[j].item == item
      invariant forall item: Uuid :: Change(batch, item) == if item in balances then balances[item] else 0
      invariant forall item :: item in balances ==> balances[item] >= 0
    {
      var item, spec := p.items[k].item, p.items[k].spec;
      var produced, balance := H.GenerateItemHistory(spec, p.terms, p.draws(k), p.start);
      assert item !in balances;
      TotalOfOne(p, k);
      batch := batch + Tagged(item, produced);
      balances := balances[item := balance];
    }
  }

  lemma NoChange()
    ensures forall item: Uuid :: Change([], item) == 0
  {
  }

  /** Generates all items, writes one batch and then sets the balances. It succeeds exactly
      when the identifiers drawn are new and movements and balances fit their columns. */
  method GenerateHistory(l: Ledger, p: Plan) returns (r: Result<Ledger>)
    requires DistinctItems(p) && Demanding(p)
    ensures
      var batch := BatchOf(p, |p.items|);
      Sound(l) && Stocked(p) ==>
        (r.Done? <==> NewIds(l.journal, p.ids, |batch|) && Fitting(batch)
                      && forall item: Uuid :: l.OnHand(item) + Change(batch, item) < LIMIT)
    ensures r.Done? ==> forall item: Uuid :: r.value.OnHand(item) == l.OnHand(item) + Change(BatchOf(p, |p.items|), item)
    ensures r.Done? && Sound(l) ==>
              Sound(r.value) && r.value.journal == l.journal + BulkRows(p.ids, BatchOf(p, |p.items|), p.owner)
  {
    hide Change, BulkInsert, BatchOf, Sound, BulkRows, Stocked, NewIds, Fitting;
    var batch, balances := ProduceAll(p);
    if Sound(l) && Stocked(p) { WritesWhenSound(l, p); }
    SoundBalances(l);
    var written := WriteMovements(l.journal, p, batch);
    if written.Fail? {
      return Fail(written.error);
    }
    var cache := SetBalances(l.balance, balances);
    if cache.Fail? {
      ghost var item :| item in balances && !(0 <= Cached(l.balance, item) + balances[item] < LIMIT);
      assert Cached(l.balance, item) == l.OnHand(item) && balances[item] == Change(batch, item);
      return Fail(cache.error);
    }
    r := Done(Ledger(written.value, cache.value));
    LoadSound(l, p, batch, r.value);
  }

  /** One item's part of the batch. */
  lemma TotalOfOne(p: Plan, k: nat)
    requires k < |p.items| && Demanding(p)
    ensures forall item: Uuid :: Change(BatchOf(p, k + 1), item)
              == Change(BatchOf(p, k), item) + if item == p.items[k].item then HistoryOf(p, k).balance else 0
    ensures HistoryOf(p, k).balance >= 0
  {
    var c, g := p.items[k], HistoryOf(p, k);
    H.HistoryPossible(c.spec, H.LeadOf(p.terms, c.spec.supplier), p.draws(k), p.start);
    assert g.balance >= 0 by { assert g.out[..|g.out|] == g.out; }
    forall item: Uuid ensures Change(BatchOf(p, k + 1), item)
              == Change(BatchOf(p, k), item) + if item == c.item then g.balance else 0 {
      ChangeConcat(BatchOf(p, k), Tagged(c.item, g.out), item);
      ChangeTagged(c.item, g.out, item);
    }
  }

  lemma WritesWhenSound(l: Ledger, p: Plan)
    requires Sound(l) && Stocked(p)
    ensures
      var batch := BatchOf(p, |p.items|);
      BulkInsert(l.journal, BulkRows(p.ids, batch, p.owner)).Done? <==> NewIds(l.journal, p.ids, |batch|) && Fitting(batch)
  {
    WritesIff(l.journal, p);
  }

  lemma SoundBalances(l: Ledger)
    ensures Sound(l) ==> forall item: Uuid :: 0 <= l.OnHand(item) < LIMIT
  {
  }

  /** EnsureBalance and ApplyMovementToBalance for every item, in any order. */
  method SetBalances(balance: map<Uuid, Qty>, changes: map<Uuid, Qty>) returns (r: Result<map<Uuid, Qty>>)
    ensures r.Done? ==> forall item: Uuid ::
              Cached(r.value, item) == Cached(balance, item) + (if item in changes then changes[item] else 0)
              && (item in changes ==> 0 <= Cached(r.value, item) < LIMIT)
    ensures r.Fail? ==> exists item :: item in changes && !(0 <= Cached(balance, item) + changes[item] < LIMIT)
  {
    var b := balance;
    var left := changes.Keys;
    while left != {}
      invariant left <= changes.Keys
      invariant forall item: Uuid :: Cached(b, item)
                  == Cached(balance, item) + (if item in changes.Keys - left then changes[item] else 0)
      invariant forall item :: item in changes.Keys - left ==> 0 <= Cached(b, item) < LIMIT
      decreases |left|
    {
      var item :| item in left;
      if item !in b {
        b := b[item := 0];
      }
      var onHand := b[item] + changes[item];
      if onHand < 0 || onHand >= LIMIT {
        return Fail(Storage);
      }
      b := b[item := onHand];
      left := left - {item};
    }
    r := Done(b);
  }

  function Cached(balance: map<Uuid, Qty>, item: Uuid): Qty { if item in balance then balance[item] else 0 }

  lemma LoadSound(l: Ledger, p: Plan, batch: seq<Produced>, n: Ledger)
    requires BulkInsert(l.journal, BulkRows(p.ids, batch, p.owner)) == Done(n.journal)
    requires forall item: Uuid :: n.OnHand(item) == l.OnHand(item) + Change(batch, item)
    requires forall item: Uuid :: Change(batch, item) != 0 ==> 0 <= n.OnHand(item) < LIMIT
    ensures Sound(l) ==> Sound(n) && n.journal == l.journal + BulkRows(p.ids, batch, p.owner)
  {
    var rows := BulkRows(p.ids, batch, p.owner);
    if Sound(l) {
      BulkInsertAppends(l.journal, rows);
      forall item: Uuid ensures 0 <= n.OnHand(item) == Sum(n.journal, item) < LIMIT {
        assert 0 <= l.OnHand(item) == Sum(l.journal, item) < LIMIT;
        BulkSum(l.journal, p.ids, batch, p.owner, item);
      }
    }
  }

  /** The k-th row written: the generated movement with its item, the sign of its kind, its time
      and reason, in the owner's name and without key or references. */
  lemma WrittenRow(p: Plan, k: nat)
    requires k < |BatchOf(p, |p.items|)|
    ensures
      var q := BatchOf(p, |p.items|)[k];
      var m := BulkRows(p.ids, BatchOf(p, |p.items|), p.owner)[k];
      && m.id == p.ids(k) && m.item == q.item && m.kind == q.entry.kind && m.at == q.entry.at && m.reason == q.entry.reason
      && m.author == Some(p.owner) && m.order == None && m.count == None && m.reverses == None && m.key == ""
      && (q.entry.kind == Usage || q.entry.kind == Writeoff ==> m.qty <= 0 && m.qty in {q.entry.qty, -q.entry.qty})
      && (q.entry.kind != Usage && q.entry.kind != Writeoff ==> m.qty >= 0 && m.qty in {q.entry.qty, -q.entry.qty})
  {
  }

  /** The batch is the histories of the items one after another, each with the balance the
      generator left. */
  lemma {:induction false} BatchParts(p: Plan, n: nat)
    requires n <= |p.items| && DistinctItems(p) && Demanding(p)
    ensures forall k :: 0 <= k < n ==> Change(BatchOf(p, n), p.items[k].item) == HistoryOf(p, k).balance
    ensures forall item: Uuid :: (forall k :: 0 <= k < n ==> p.items[k].item != item) ==> Change(BatchOf(p, n), item) == 0
  {
    hide Change, H.Generated;
    if n == 0 {
      NoChange();
    } else {
      BatchParts(p, n - 1);
      TotalOfOne(p, n - 1);
      var c := p.items[n - 1].item;
      assert forall k :: 0 <= k < n - 1 ==> p.items[k].item != c;
      assert Change(BatchOf(p, n - 1), c) == 0;
      forall item: Uuid | forall k :: 0 <= k < n ==> p.items[k].item != item ensures Change(BatchOf(p, n), item) == 0 {
        assert p.items[n - 1].item != item;
        assert forall k :: 0 <= k < n - 1 ==> p.items[k].item != item;
        assert Change(BatchOf(p, n - 1), item) == 0;
      }
    }
  }
}
