/** The operations as they run: statement by statement inside a transaction that is
    rolled back on any error. Each method is proved against its atomic specification. */
module Store {
  import opened Options
  import opened Quantity
  import opened Identifiers
  import opened DeliveryWindow
  import opened Reorder
  import opened Catalog
  import opened Journal
  import opened Shop
  import opened Batch

  /** A call without an error has the specified result; an error is the specified one. */
  predicate Agrees(spec: Result<Db>, now: Db, e: Option<Error>) {
    match spec
    case Done(n) => e.None? && now == n
    case Fail(x) => e == Some(x)
  }

  class Database {
    const w: World
    var journal: seq<Movement>
    var balance: map<Uuid, Qty>
    var orders: seq<Order>
    var counts: map<Uuid, Count>
    var statuses: map<Uuid, StatusRow>
    var alerts: seq<Alert>

    function View(): Db
      reads this
    {
      Db(Ledger(journal, balance), orders, counts, statuses, alerts)
    }

    constructor (world: World)
      ensures w == world && View() == Db(Ledger([], map[]), [], map[], map[], [])
    {
      w := world;
      journal, balance, orders, counts, statuses, alerts := [], map[], [], map[], map[], [];
    }

    method Rollback(saved: Db)
      modifies this
      ensures View() == saved
    {
      journal, balance := saved.ledger.journal, saved.ledger.balance;
      orders, counts, statuses, alerts := saved.orders, saved.counts, saved.statuses, saved.alerts;
    }

    // ---- Inside a transaction ----

    method EnsureBalance(item: Uuid)
      modifies this`balance
      ensures balance == Ensure(Ledger(journal, old(balance)), item).balance
    {
      if item !in balance {
        balance := balance[item := 0];
      }
    }

    /** Lock, check, insert, apply. */
    method Post(m: Movement) returns (e: Option<Error>)
      modifies this`journal, this`balance
      ensures match Append(old(View()).ledger, m)
              case Done(n) => e.None? && Ledger(journal, balance) == n
              case Fail(x) => e == Some(x)
    {
      EnsureBalance(m.item);
      var onHand := balance[m.item];
      if onHand + m.qty < 0 {
        return Some(InsufficientStock(onHand, Abs(m.qty)));
      }
      e := InsertError(journal, m);
      if e.Some? {
        return;
      }
      journal := journal + [m];
      if balance[m.item] + m.qty >= LIMIT {
        return Some(Storage);
      }
      balance := balance[m.item := balance[m.item] + m.qty];
    }

    method Recalculate(item: Uuid) returns (e: Option<Error>)
      modifies this`statuses, this`alerts
      ensures Agrees(Refresh(w, old(View()), item), View(), e)
    {
      if item !in w.items {
        return Some(ItemNotFound);
      }
      var previous := if item in statuses then statuses[item].decision.status else Status.Ok;
      var input := BuildInput(w, Ledger(journal, balance), orders, item);
      var d := ComputeDecision(input);
      statuses := statuses[item := RowFor(w, item, d)];
      if d.status.IsRed() && d.status.WorseThan(previous) {
        alerts := alerts + [Alert(item, d.status, Some(previous), input.onHand, d.stockoutDate, input.window.d1)];
      }
      return None;
    }

    method RecalculateLines(lines: seq<Line>) returns (e: Option<Error>)
      modifies this`statuses, this`alerts
      ensures Agrees(RefreshLines(w, old(View()), lines, 0), View(), e)
    {
      for k := 0 to |lines|
        invariant RefreshLines(w, old(View()), lines, 0) == RefreshLines(w, View(), lines, k)
      {
        e := Recalculate(lines[k].item);
        if e.Some? {
          return;
        }
      }
      return None;
    }

    method RecordInTx(r: Request) returns (e: Option<Error>)
      modifies this
      ensures Agrees(RecordMovement(w, old(View()), r), View(), e)
    {
      e := Validate(w, r);
      if e.Some? {
        return;
      }
      if r.key != "" && ByKey(journal, r.key).Some? {
        return None;
      }
      if r.item !in w.items {
        return Some(ItemNotFound);
      }
      if w.items[r.item].archived {
        return Some(ItemArchived);
      }
      e := Post(Row(w, r));
      if e.Some? {
        return;
      }
      if (r.order.Some? && FindOrder(orders, r.order.value).None?) || (r.count.Some? && r.count.value !in counts) {
        return Some(Storage);
      }
      e := Recalculate(r.item);
    }

    // ---- All items at once ----

    /** Recalculates every active item from grouped query results. The statuses are those
        of recalculating the items one by one, and the same items raise alerts. */
    method RecalculateAll(items: seq<Uuid>, fcRows: seq<ForecastRow>, incRows: seq<IncomingRow>,
                          conRows: seq<ConsumedRow>, codeRows: seq<CodeRow>)
      requires ActiveItems(w, items) && ForecastsFrom(w, fcRows) && Groups(orders, incRows)
      requires ConsumedGroups(journal, w.Today(), conRows) && CodesOf(statuses, codeRows)
      modifies this`statuses, this`alerts
      ensures forall item :: item in items ==> item in w.items
      ensures Matches(old(View()), OneByOne(w, old(View()), items), statuses, alerts)
    {
      hide Decide, WindowAt, WindowOf, ForecastOf, RowFor, TurnsRed;
      ghost var db := View();
      assert forall item :: item in items ==> item in w.items;
      var forecasts := LoadForecasts(fcRows);
      var incoming := LoadIncoming(incRows);
      var consumed := LoadConsumed(journal, w.Today(), conRows);
      var previous := LoadPrevious(statuses, codeRows);
      for k := 0 to |items|
        invariant Matches(db, OneByOne(w, db, items[..k]), statuses, alerts)
      {
        var item := items[k];
        var input := MakeInput(w, w.items[item], View().ledger.OnHand(item), Deliveries(incoming, item),
                               Points(forecasts, item), Amount(consumed, item));
        var d := ComputeDecision(input);
        BatchTurn(w, db, items, k, incRows, input, Deliveries(incoming, item), statuses, alerts);
        var before := if item in previous then Some(previous[item]) else None;
        PersistBatch(item, input, d, before);
      }
      assert items[..|items|] == items;
    }

    /** One turn's row, and its alert when the status turned red for the worse. */
    method PersistBatch(item: Uuid, input: Input, d: Decision, before: Option<Status>)
      requires item in w.items
      modifies this`statuses, this`alerts
      ensures statuses == old(statuses)[item := RowFor(w, item, d)]
      ensures
        var alert := Alert(item, d.status, before, input.onHand, d.stockoutDate, input.window.d1);
        alerts == if TurnsRed(d.status, before) then old(alerts) + [alert] else old(alerts)
    {
      statuses := statuses[item := RowFor(w, item, d)];
      if TurnsRed(d.status, before) {
        alerts := alerts + [Alert(item, d.status, before, input.onHand, d.stockoutDate, input.window.d1)];
      }
    }

    // ---- Movements ----

    method Record(r: Request) returns (e: Option<Error>)
      modifies this
      ensures Agrees(RecordMovement(w, old(View()), r), View(), e)
      ensures e.Some? ==> View() == old(View())
    {
      var saved := View();
      e := RecordInTx(r);
      if e.Some? {
        Rollback(saved);
      }
    }

    method Reverse(u: Undo) returns (e: Option<Error>)
      modifies this
      ensures Agrees(ReverseMovement(w, old(View()), u), View(), e)
      ensures e.Some? ==> View() == old(View())
    {
      var saved := View();
      var original := ById(journal, u.target);
      if original.None? {
        return Some(ItemNotFound);
      }
      if original.value.kind.Reversal? || (!u.reverseOthers && original.value.author != Some(u.author)) {
        return Some(CannotReverse);
      }
      if Reversed(journal, u.target) {
        return Some(AlreadyReversed);
      }
      e := Post(ReversalRow(w, original.value, u));
      if e.None? {
        e := Recalculate(original.value.item);
      }
      if e.Some? {
        Rollback(saved);
      }
    }

    // ---- Stock counts ----

    method CreateCount(id: Uuid, items: seq<Uuid>) returns (e: Option<Error>)
      modifies this
      ensures Agrees(Shop.CreateCount(w, old(View()), id, items), View(), e)
      ensures e.Some? ==> View() == old(View())
    {
      var saved := View();
      if id in counts {
        return Some(Storage);
      }
      counts := counts[id := Count(false, [])];
      for k := 0 to |items|
        invariant forall j :: 0 <= j < k ==> items[j] in w.items
        invariant View() == saved.(counts := saved.counts[id := Count(false, ExpectedLines(saved.ledger, items, k))])
      {
        if items[k] !in w.items {
          Rollback(saved);
          return Some(Storage);
        }
        var lines := counts[id].lines;
        if !exists c :: c in lines && c.item == items[k] {
          counts := counts[id := Count(false, lines + [CountLine(items[k], View().ledger.OnHand(items[k]), None)])];
        }
      }
      return None;
    }

    method SetCountLines(id: Uuid, counted: seq<Wanted>) returns (e: Option<Error>)
      modifies this
      ensures Agrees(Shop.SetCountLines(w, old(View()), id, counted), View(), e)
      ensures e.Some? ==> View() == old(View())
    {
      var saved := View();
      if id !in counts {
        return Some(ItemNotFound);
      }
      if counts[id].posted {
        return Some(CountPosted);
      }
      for k := 0 to |counted|
        invariant id in counts && View() == saved.(counts := saved.counts[id := Count(false, counts[id].lines)])
        invariant SetLines(w, saved.counts[id].lines, counted, 0) == SetLines(w, counts[id].lines, counted, k)
      {
        if counted[k].qty < 0 {
          Rollback(saved);
          return Some(NegativeCounted);
        }
        if counted[k].item !in w.items {
          Rollback(saved);
          return Some(Storage);
        }
        counts := counts[id := Count(false, SetCounted(counts[id].lines, counted[k].item, counted[k].qty))];
      }
      return None;
    }

    method PostOneLine(p: Posting, c: CountLine, k: nat) returns (e: Option<Error>, changed: seq<ChangedLine>)
      modifies this
      ensures match PostLine(w, old(View()), p, c, k)
              case Done(n) => e.None? && View() == n.0 && changed == n.1
              case Fail(x) => e == Some(x)
      ensures counts == old(counts)
    {
      e, changed := None, [];
      if c.counted.None? {
        return;
      }
      var item, counted := c.item, c.counted.value;
      if item !in w.items {
        e := Some(Storage);
        return;
      }
      EnsureBalance(item);
      var current := balance[item];
      if !p.force && current != c.expected {
        changed := [ChangedLine(item, c.expected, current, counted)];
      } else if counted != current {
        e := Post(AdjustmentRow(w, p, k, item, counted - current));
        if e.None? {
          e := Recalculate(item);
        }
      }
    }

    method PostCount(p: Posting) returns (e: Option<Error>)
      modifies this
      ensures Agrees(Shop.PostCount(w, old(View()), p), View(), e)
      ensures e.Some? ==> View() == old(View())
    {
      var saved := View();
      if p.count !in counts {
        return Some(ItemNotFound);
      }
      if counts[p.count].posted {
        return Some(CountPosted);
      }
      var lines := counts[p.count].lines;
      var changed: seq<ChangedLine> := [];
      for k := 0 to |lines|
        invariant PostFrom(w, saved, p, lines, 0, []) == PostFrom(w, View(), p, lines, k, changed)
        invariant counts == saved.counts
      {
        var more;
        e, more := PostOneLine(p, lines[k], k);
        if e.Some? {
          Rollback(saved);
          return;
        }
        changed := changed + more;
      }
      if changed != [] {
        Rollback(saved);
        return Some(CountChanged(changed));
      }
      counts := counts[p.count := counts[p.count].(posted := true)];
      return None;
    }

    // ---- Orders ----

    method CreateOrder(id: Uuid, supplier: Uuid, wanted: seq<Wanted>) returns (e: Option<Error>)
      modifies this
      ensures Agrees(Shop.CreateOrder(w, old(View()), id, supplier, wanted), View(), e)
      ensures e.Some? ==> View() == old(View())
    {
      var saved := View();
      if supplier !in w.suppliers {
        return Some(OrderNotFound);
      }
      if |wanted| == 0 {
        return Some(EmptyOrder);
      }
      if FindOrder(orders, id).Some? {
        return Some(Storage);
      }
      var i := |orders|;
      orders := orders + [Order(id, supplier, Draft, None, [])];
      for k := 0 to |wanted|
        invariant |orders| == i + 1
        invariant View() == saved.(orders := saved.orders + [Order(id, supplier, Draft, None, orders[i].lines)])
        invariant NewLines(w, [], wanted, 0) == NewLines(w, orders[i].lines, wanted, k)
      {
        if wanted[k].qty > 0 {
          if wanted[k].item !in w.items {
            Rollback(saved);
            return Some(Storage);
          }
          orders := orders[i := orders[i].(lines := PutLine(orders[i].lines, wanted[k].item, wanted[k].qty))];
        }
      }
      return None;
    }

    method UpdateLines(id: Uuid, wanted: seq<Wanted>) returns (e: Option<Error>)
      modifies this
      ensures Agrees(Shop.UpdateLines(w, old(View()), id, wanted), View(), e)
      ensures e.Some? ==> View() == old(View())
    {
      var saved := View();
      var found := FindOrder(orders, id);
      if found.None? {
        return Some(OrderNotFound);
      }
      var i := found.value;
      if orders[i].status != Draft {
        return Some(WrongStatus);
      }
      for k := 0 to |wanted|
        invariant |orders| == |saved.orders|
        invariant View() == saved.(orders := saved.orders[i := saved.orders[i].(lines := orders[i].lines)])
        invariant PutLines(w, saved.orders[i].lines, wanted, 0) == PutLines(w, orders[i].lines, wanted, k)
      {
        if wanted[k].qty > 0 && wanted[k].item !in w.items {
          Rollback(saved);
          return Some(Storage);
        }
        orders := orders[i := orders[i].(lines := PutLine(orders[i].lines, wanted[k].item, wanted[k].qty))];
      }
      return None;
    }

    method Send(id: Uuid) returns (e: Option<Error>)
      modifies this
      ensures Agrees(Shop.Send(w, old(View()), id), View(), e)
      ensures e.Some? ==> View() == old(View())
    {
      var saved := View();
      var i := FindOrder(orders, id);
      if i.None? {
        return Some(OrderNotFound);
      }
      var o := orders[i.value];
      if o.status == Sent {
        return Some(AlreadySent);
      }
      if o.status != Draft {
        return Some(WrongStatus);
      }
      if |o.lines| == 0 {
        return Some(EmptyOrder);
      }
      if o.supplier !in w.suppliers {
        return Some(Storage);
      }
      var window := ComputeWindow(w.now, w.suppliers[o.supplier]);
      orders := orders[i.value := o.(status := Sent, expected := Some(window.d1))];
      e := RecalculateLines(o.lines);
      if e.Some? {
        Rollback(saved);
      }
    }

    method Cancel(id: Uuid) returns (e: Option<Error>)
      modifies this
      ensures Agrees(Shop.Cancel(w, old(View()), id), View(), e)
      ensures e.Some? ==> View() == old(View())
    {
      var saved := View();
      var i := FindOrder(orders, id);
      if i.None? {
        return Some(OrderNotFound);
      }
      var o := orders[i.value];
      if o.status == Received {
        return Some(AlreadyReceived);
      }
      if o.status == Cancelled {
        return None;
      }
      orders := orders[i.value := o.(status := Cancelled)];
      e := RecalculateLines(o.lines);
      if e.Some? {
        Rollback(saved);
      }
    }

    method ReceiveOneLine(i: nat, line: Line, a: Arrival, k: nat) returns (e: Option<Error>)
      modifies this
      ensures Agrees(ReceiveLine(w, old(View()), i, line, a, k), View(), e)
    {
      var received := line.ordered;
      if line.item in a.actual {
        received := a.actual[line.item];
      }
      if received < 0 {
        return Some(NegativeReceived);
      }
      orders := SetReceived(orders, i, k, received);
      if received == 0 {
        return None;
      }
      e := RecordInTx(ReceiptRequest(w, a, k, line));
    }

    /** The order is marked received before its receipts are recorded, so that their
        recalculations no longer see it in transit. */
    method Receive(a: Arrival) returns (e: Option<Error>)
      modifies this
      ensures Agrees(Shop.Receive(w, old(View()), a), View(), e)
      ensures e.Some? ==> View() == old(View())
    {
      var saved := View();
      var i := FindOrder(orders, a.order);
      if i.None? {
        return Some(OrderNotFound);
      }
      var o := orders[i.value];
      if o.status == Received {
        return Some(AlreadyReceived);
      }
      if o.status != Sent {
        return Some(WrongStatus);
      }
      if |o.lines| == 0 {
        return Some(EmptyOrder);
      }
      orders := orders[i.value := o.(status := Received)];
      ghost var started := View();
      for k := 0 to |o.lines|
        invariant ReceiveFrom(w, started, i.value, o.lines, a, 0) == ReceiveFrom(w, View(), i.value, o.lines, a, k)
      {
        e := ReceiveOneLine(i.value, o.lines[k], a, k);
        if e.Some? {
          Rollback(saved);
          return;
        }
      }
      return None;
    }
  }
}
