/** The demo history generator: ninety days of one item, every random draw arbitrary. */
module History {
  import opened Quantity
  import opened DeliveryWindow
  import opened Journal

  const HISTORY_DAYS := 90
  const NS_PER_HOUR := 60 * NS_PER_MINUTE

  /** The demand profile and purchase terms of an item. */
  datatype Spec = Spec(base: real, weekendFactor: real, noise: real, pieces: bool, pack: Qty, supplier: string)

  datatype Terms = Terms(name: string, leadDays: nat)

  /** The draws of one day, in the order they may be used. */
  datatype Draws = Draws(short: real, part: real, noise: real, spoil: real, rate: real, reason: nat, forget: real)

  /** A generated movement; the quantity carries no sign. */
  datatype Entry = Entry(kind: Kind, qty: Qty, at: Moment, reason: string)

  /** `due` is the day the outstanding order arrives, or -1. */
  datatype Gen = Gen(out: seq<Entry>, balance: Qty, due: int, arriving: Qty)

  const WRITEOFF_REASONS := ["spoiled", "broken", "expired", "tasting"]

  /** A draw among the reasons. */
  function PickReason(n: nat): string { WRITEOFF_REASONS[n % |WRITEOFF_REASONS|] }

  // ---- One day ----

  function ForUnit(spec: Spec, q: Qty): Qty { if spec.pieces then Whole(q) else q }

  function SpikePeriod(i: nat): nat { if i / 21 % 2 == 0 then 21 else 28 }

  function Demand(spec: Spec, x: real, i: nat, day: Day): real {
    var flow := if Weekday(day) >= 6 then spec.base * spec.weekendFactor else spec.base;
    var trend := 1.0 + 0.10 * (i as real / HISTORY_DAYS as real - 0.5) * 2.0;
    var noisy := flow * trend * (1.0 + spec.noise * (x * 2.0 - 1.0));
    var v := if i > 0 && i % SpikePeriod(i) == 0 then noisy * 2.0 else noisy;
    if v < 0.0 then 0.0 else v
  }

  /** A week of demand, in whole packs. */
  function Parcel(spec: Spec): Qty { CeilTo(MulReal(ONE, spec.base * 7.0), spec.pack) }

  function At(day: Day, hour: int): Moment { day * NS_PER_DAY + hour * NS_PER_HOUR }

  function LeadOf(terms: seq<Terms>, name: string): (lead: nat)
    ensures lead >= 1
  {
    if terms == [] then 2
    else if terms[0].name == name then terms[0].leadDays + 1
    else LeadOf(terms[1..], name)
  }

  function Delivered(spec: Spec, dr: Draws, arriving: Qty): Qty {
    if dr.short < 0.10 then ForUnit(spec, MulReal(arriving, 0.8 + dr.part * 0.15)) else arriving
  }

  function Arrive(spec: Spec, dr: Draws, day: Day, i: nat, g: Gen): Gen {
    if g.due != i then g
    else
      var actual := Delivered(spec, dr, g.arriving);
      if actual > 0 then Gen(g.out + [Entry(Receipt, actual, At(day, 9), "")], g.balance + actual, -1, 0)
      else g.(due := -1, arriving := 0)
  }

  function Used(spec: Spec, dr: Draws, day: Day, i: nat, balance: Qty): Qty {
    var wanted := ForUnit(spec, MulReal(ONE, Demand(spec, dr.noise, i, day)));
    if wanted > balance then balance else wanted
  }

  function Consume(day: Day, used: Qty, g: Gen): Gen {
    if used > 0 then g.(out := g.out + [Entry(Usage, used, At(day, 14), "")], balance := g.balance - used) else g
  }

  function Spoil(spec: Spec, dr: Draws, day: Day, used: Qty, g: Gen): Gen {
    if used > 0 && dr.spoil < 0.25 then
      var lost := ForUnit(spec, MulReal(used, 0.01 + dr.rate * 0.02));
      if 0 < lost <= g.balance then
        g.(out := g.out + [Entry(Writeoff, lost, At(day, 20), PickReason(dr.reason))], balance := g.balance - lost)
      else g
    else g
  }

  predicate Orders(spec: Spec, dr: Draws, i: nat, g: Gen) {
    i < HISTORY_DAYS - 3 && g.due < 0 && g.balance as real / 1000.0 < spec.base * 4.0 && !(dr.forget < 0.10)
  }

  function PlaceOrder(spec: Spec, lead: nat, dr: Draws, i: nat, g: Gen): Gen {
    if Orders(spec, dr, i, g) then g.(due := i + lead, arriving := Parcel(spec)) else g
  }

  /** The day up to the ordering decision. */
  function Trade(spec: Spec, dr: Draws, day: Day, i: nat, g: Gen): Gen {
    var stocked := Arrive(spec, dr, day, i, g);
    var used := Used(spec, dr, day, i, stocked.balance);
    Spoil(spec, dr, day, used, Consume(day, used, stocked))
  }

  function Initial(spec: Spec, start: Day): Gen {
    Gen([Entry(Opening, Parcel(spec), At(start - 1, 8), "")], Parcel(spec), -1, 0)
  }

  /** The state after the first n days. */
  function After(spec: Spec, lead: nat, draws: nat -> Draws, start: Day, n: nat): Gen {
    if n == 0 then Initial(spec, start)
    else
      var traded := Trade(spec, draws(n - 1), start + n - 1, n - 1, After(spec, lead, draws, start, n - 1));
      PlaceOrder(spec, lead, draws(n - 1), n - 1, traded)
  }

  function Generated(spec: Spec, lead: nat, draws: nat -> Draws, start: Day): Gen {
    After(spec, lead, draws, start, HISTORY_DAYS)
  }

  // ---- The loops ----

  method FindLead(terms: seq<Terms>, name: string) returns (lead: nat)
    ensures lead == LeadOf(terms, name)
  {
    for i := 0 to |terms|
      invariant LeadOf(terms, name) == LeadOf(terms[i..], name)
    {
      if terms[i].name == name {
        return terms[i].leadDays + 1;
      }
    }
    return 2;
  }

  /** A day's arrival, demand and losses. */
  method TradeDay(spec: Spec, dr: Draws, day: Day, i: nat, g: Gen) returns (out: seq<Entry>, balance: Qty, due: int, arriving: Qty)
    ensures Gen(out, balance, due, arriving) == Trade(spec, dr, day, i, g)
  {
    hide Demand, MulReal, CeilTo, ForUnit, At;
    out, balance, due, arriving := g.out, g.balance, g.due, g.arriving;
    if due == i {
      var actual := arriving;
      if dr.short < 0.10 {
        actual := ForUnit(spec, MulReal(arriving, 0.8 + dr.part * 0.15));
      }
      if actual > 0 {
        out := out + [Entry(Receipt, actual, At(day, 9), "")];
        balance := balance + actual;
      }
      due, arriving := -1, 0;
    }
    var used := ForUnit(spec, MulReal(ONE, Demand(spec, dr.noise, i, day)));
    if used > balance {
      used := balance;
    }
    if used > 0 {
      out := out + [Entry(Usage, used, At(day, 14), "")];
      balance := balance - used;
    }
    if used > 0 && dr.spoil < 0.25 {
      var lost := ForUnit(spec, MulReal(used, 0.01 + dr.rate * 0.02));
      if lost > 0 && lost <= balance {
        out := out + [Entry(Writeoff, lost, At(day, 20), PickReason(dr.reason))];
        balance := balance - lost;
      }
    }
  }

  method GenerateItemHistory(spec: Spec, terms: seq<Terms>, draws: nat -> Draws, start: Day)
    returns (out: seq<Entry>, balance: Qty)
    ensures
      var g := Generated(spec, LeadOf(terms, spec.supplier), draws, start);
      out == g.out && balance == g.balance
  {
    hide Demand, MulReal, CeilTo, ForUnit, At, Trade;
    balance := CeilTo(MulReal(ONE, spec.base * 7.0), spec.pack);
    out := [Entry(Opening, balance, At(start - 1, 8), "")];
    var due, arriving := -1, 0;
    var lead := FindLead(terms, spec.supplier);
    for i := 0 to HISTORY_DAYS
      invariant Gen(out, balance, due, arriving) == After(spec, lead, draws, start, i)
    {
      out, balance, due, arriving := TradeDay(spec, draws(i), start + i, i, Gen(out, balance, due, arriving));
      if i >= HISTORY_DAYS - 3 {
        continue;
      }
      if due < 0 && balance as real / 1000.0 < spec.base * 4.0 {
        if draws(i).forget < 0.10 {
          continue;
        }
        arriving := CeilTo(MulReal(ONE, spec.base * 7.0), spec.pack);
        due := i + lead;
      }
    }
  }

  // ---- Every outcome of the draws is a possible history ----

  function Effect(e: Entry): Qty { if e.kind.Decreases() then -Abs(e.qty) else Abs(e.qty) }

  function Net(out: seq<Entry>): Qty {
    if out == [] then 0 else Net(out[..|out| - 1]) + Effect(out[|out| - 1])
  }

  /** In time order up to `last`, never below zero on the way, with `balance` at the end. */
  ghost predicate Possible(out: seq<Entry>, balance: Qty, last: Moment) {
    && (forall a, b :: 0 <= a < b < |out| ==> out[a].at <= out[b].at)
    && (forall a :: 0 <= a < |out| ==> out[a].at <= last && out[a].qty >= 0)
    && (forall k :: 0 <= k <= |out| ==> Net(out[..k]) >= 0)
    && Net(out) == balance
  }

  lemma Push(out: seq<Entry>, balance: Qty, last: Moment, e: Entry)
    requires Possible(out, balance, last) && last <= e.at && e.qty >= 0 && balance + Effect(e) >= 0
    ensures Possible(out + [e], balance + Effect(e), e.at)
  {
    var n := out + [e];
    assert out[..|out|] == out && n[..|out|] == out && n[..|n|] == n;
    forall k | 0 <= k <= |n| ensures Net(n[..k]) >= 0 {
      if k <= |out| { assert n[..k] == out[..k]; }
    }
  }

  lemma Later(out: seq<Entry>, balance: Qty, last: Moment, later: Moment)
    requires Possible(out, balance, last) && last <= later
    ensures Possible(out, balance, later)
  {
  }

  lemma ParcelNonNegative(spec: Spec)
    requires spec.base >= 0.0
    ensures Parcel(spec) >= 0
  {
    assert spec.base * 7.0 >= 0.0;
    CeilToNonNegative(MulReal(ONE, spec.base * 7.0), spec.pack);
  }

  lemma TradePossible(spec: Spec, dr: Draws, day: Day, i: nat, g: Gen)
    requires Possible(g.out, g.balance, At(day - 1, 20))
    ensures var n := Trade(spec, dr, day, i, g); Possible(n.out, n.balance, At(day, 20))
  {
    hide Demand, MulReal, CeilTo, ForUnit, Net, Possible;
    var a := Arrive(spec, dr, day, i, g);
    ArrivePossible(spec, dr, day, i, g);
    var used := Used(spec, dr, day, i, a.balance);
    ConsumePossible(day, used, a);
    SpoilPossible(spec, dr, day, used, Consume(day, used, a));
  }

  lemma ArrivePossible(spec: Spec, dr: Draws, day: Day, i: nat, g: Gen)
    requires Possible(g.out, g.balance, At(day - 1, 20))
    ensures var n := Arrive(spec, dr, day, i, g); Possible(n.out, n.balance, At(day, 9))
  {
    hide Demand, MulReal, CeilTo, ForUnit;
    assert g.balance >= 0 by { assert g.out[..|g.out|] == g.out; }
    Later(g.out, g.balance, At(day - 1, 20), At(day, 9));
    var actual := Delivered(spec, dr, g.arriving);
    if g.due == i && actual > 0 { Push(g.out, g.balance, At(day, 9), Entry(Receipt, actual, At(day, 9), "")); }
  }

  lemma ConsumePossible(day: Day, used: Qty, g: Gen)
    requires Possible(g.out, g.balance, At(day, 9)) && used <= g.balance
    ensures var n := Consume(day, used, g); Possible(n.out, n.balance, At(day, 14))
  {
    Later(g.out, g.balance, At(day, 9), At(day, 14));
    if used > 0 { Push(g.out, g.balance, At(day, 14), Entry(Usage, used, At(day, 14), "")); }
  }

  lemma SpoilPossible(spec: Spec, dr: Draws, day: Day, used: Qty, g: Gen)
    requires Possible(g.out, g.balance, At(day, 14))
    ensures var n := Spoil(spec, dr, day, used, g); Possible(n.out, n.balance, At(day, 20))
  {
    hide Demand, MulReal, CeilTo, ForUnit;
    Later(g.out, g.balance, At(day, 14), At(day, 20));
    var lost := ForUnit(spec, MulReal(used, 0.01 + dr.rate * 0.02));
    if used > 0 && dr.spoil < 0.25 && 0 < lost <= g.balance {
      Push(g.out, g.balance, At(day, 20), Entry(Writeoff, lost, At(day, 20), PickReason(dr.reason)));
    }
  }

  lemma InitialPossible(spec: Spec, start: Day)
    requires spec.base >= 0.0
    ensures var g := Initial(spec, start); Possible(g.out, g.balance, At(start - 1, 20))
  {
    hide MulReal, CeilTo, Parcel;
    ParcelNonNegative(spec);
    var g := Initial(spec, start);
    assert Net([]) == 0;
    assert g.out[..0] == [] && g.out[..1] == g.out;
    assert Net(g.out) == Effect(g.out[0]);
  }

  lemma {:induction false} AfterPossible(spec: Spec, lead: nat, draws: nat -> Draws, start: Day, n: nat)
    requires spec.base >= 0.0
    ensures var g := After(spec, lead, draws, start, n); Possible(g.out, g.balance, At(start + n - 1, 20))
  {
    hide Trade, Possible, At, CeilTo, MulReal, Parcel;
    if n == 0 {
      InitialPossible(spec, start);
    } else {
      AfterPossible(spec, lead, draws, start, n - 1);
      TradePossible(spec, draws(n - 1), start + n - 1, n - 1, After(spec, lead, draws, start, n - 1));
    }
  }

  /** Whatever is drawn, the movements come in time order, no prefix of them takes out more
      than there is, and together they leave the returned balance. */
  lemma HistoryPossible(spec: Spec, lead: nat, draws: nat -> Draws, start: Day)
    requires spec.base >= 0.0
    ensures var g := Generated(spec, lead, draws, start); Possible(g.out, g.balance, At(start + HISTORY_DAYS - 1, 20))
  {
    AfterPossible(spec, lead, draws, start, HISTORY_DAYS);
  }

  // ---- Every movement can be stored ----

  /** What the journal's constraints ask of a generated movement, its size apart. */
  predicate Writable(e: Entry) {
    && e.qty > 0
    && (e.kind == Opening || e.kind == Receipt || e.kind == Usage || e.kind == Writeoff)
    && (e.kind == Writeoff ==> !Blank(e.reason))
  }

  lemma ReasonGiven(n: nat)
    ensures !Blank(PickReason(n))
  {
    var k := n % |WRITEOFF_REASONS|;
    assert PickReason(n) == WRITEOFF_REASONS[k] && WRITEOFF_REASONS[k][1] != ' ';
  }

  lemma TradeWritable(spec: Spec, dr: Draws, day: Day, i: nat, g: Gen)
    requires forall e :: e in g.out ==> Writable(e)
    ensures forall e :: e in Trade(spec, dr, day, i, g).out ==> Writable(e)
  {
    hide Demand, MulReal, CeilTo, ForUnit, Used, Delivered, At, Blank, PickReason;
    ReasonGiven(dr.reason);
    var a := Arrive(spec, dr, day, i, g);
    assert forall e :: e in a.out ==> Writable(e);
    var c := Consume(day, Used(spec, dr, day, i, a.balance), a);
    assert forall e :: e in c.out ==> Writable(e);
  }

  /** With a positive parcel every generated movement has a positive quantity, one of four
      kinds, and a reason where it needs one. */
  lemma {:induction false} HistoryWritable(spec: Spec, lead: nat, draws: nat -> Draws, start: Day, n: nat)
    requires Parcel(spec) > 0
    ensures forall e :: e in After(spec, lead, draws, start, n).out ==> Writable(e)
  {
    hide Trade, Parcel, Orders, Blank;
    if n > 0 {
      HistoryWritable(spec, lead, draws, start, n - 1);
      TradeWritable(spec, draws(n - 1), start + n - 1, n - 1, After(spec, lead, draws, start, n - 1));
    }
  }

  // ---- Every order arrives on its day ----

  datatype Placed = Placed(day: nat, due: nat)

  /** The orders placed in the first n days. */
  function PlacedIn(spec: Spec, lead: nat, draws: nat -> Draws, start: Day, n: nat): seq<Placed> {
    if n == 0 then []
    else
      var traded := Trade(spec, draws(n - 1), start + n - 1, n - 1, After(spec, lead, draws, start, n - 1));
      PlacedIn(spec, lead, draws, start, n - 1)
        + if Orders(spec, draws(n - 1), n - 1, traded) then [Placed(n - 1, n - 1 + lead)] else []
  }

  /** At the start of day n: nothing is outstanding, or the last order placed is, and its
      day has not passed. */
  predicate Outstanding(g: Gen, parcel: Qty, placed: seq<Placed>, n: nat) {
    if g.due < 0 then g.due == -1 && (placed == [] || placed[|placed| - 1].due < n)
    else placed != [] && g.due == placed[|placed| - 1].due && g.due >= n && g.arriving == parcel
  }

  lemma {:induction false} DueAhead(spec: Spec, lead: nat, draws: nat -> Draws, start: Day, n: nat)
    requires lead >= 1
    ensures Outstanding(After(spec, lead, draws, start, n), Parcel(spec), PlacedIn(spec, lead, draws, start, n), n)
  {
    hide Demand, MulReal, CeilTo, ForUnit, Parcel, Used, Delivered;
    if n > 0 { DueAhead(spec, lead, draws, start, n - 1); }
  }

  /** At most one order is outstanding: each is placed only on or after the day the one
      before it was due. */
  lemma {:induction false} OneAtATime(spec: Spec, lead: nat, draws: nat -> Draws, start: Day, n: nat)
    requires lead >= 1
    ensures
      var placed := PlacedIn(spec, lead, draws, start, n);
      && (forall k :: 0 <= k < |placed| ==> placed[k].day < n && placed[k].due == placed[k].day + lead)
      && forall j, k :: 0 <= j < k < |placed| ==> placed[j].due <= placed[k].day
  {
    hide Demand, MulReal, CeilTo, ForUnit, Parcel, Used, Delivered, After;
    if n > 0 {
      OneAtATime(spec, lead, draws, start, n - 1);
      DueAhead(spec, lead, draws, start, n - 1);
    }
  }

  /** An order that is not due yet stays outstanding through the day. */
  lemma StaysOutstanding(spec: Spec, lead: nat, draws: nat -> Draws, start: Day, n: nat)
    requires n > 0
    requires var g := After(spec, lead, draws, start, n - 1); g.due >= 0 && g.due != n - 1
    ensures
      var g, later := After(spec, lead, draws, start, n - 1), After(spec, lead, draws, start, n);
      later.due == g.due && later.arriving == g.arriving
  {
    hide Demand, MulReal, CeilTo, ForUnit, Parcel, Used, Delivered;
  }

  lemma NewlyPlaced(spec: Spec, lead: nat, draws: nat -> Draws, start: Day, n: nat, o: Placed)
    requires n > 0 && o in PlacedIn(spec, lead, draws, start, n) && o !in PlacedIn(spec, lead, draws, start, n - 1)
    ensures o.day == n - 1 && After(spec, lead, draws, start, n).due == o.due
    ensures After(spec, lead, draws, start, n).arriving == Parcel(spec)
  {
    hide Trade, Parcel;
  }

  /** No arrival day is skipped: from the day after it is placed until its due day an order
      stays the outstanding one, so the due day takes it in. */
  lemma {:induction false} OrderArrives(spec: Spec, lead: nat, draws: nat -> Draws, start: Day, n: nat, o: Placed, i: nat)
    requires lead >= 1 && o in PlacedIn(spec, lead, draws, start, n) && o.day < i <= o.due && i <= n
    ensures After(spec, lead, draws, start, i).due == o.due && After(spec, lead, draws, start, i).arriving == Parcel(spec)
    decreases n
  {
    hide After, Parcel, Trade, Orders, PlacedIn;
    if o !in PlacedIn(spec, lead, draws, start, n - 1) {
      NewlyPlaced(spec, lead, draws, start, n, o);
    } else if i < n {
      OrderArrives(spec, lead, draws, start, n - 1, o, i);
    } else {
      OneAtATime(spec, lead, draws, start, n - 1);
      OrderArrives(spec, lead, draws, start, n - 1, o, n - 1);
      StaysOutstanding(spec, lead, draws, start, n);
    }
  }

  lemma {:induction false} OutGrows(spec: Spec, lead: nat, draws: nat -> Draws, start: Day, i: nat, n: nat)
    requires i <= n
    ensures After(spec, lead, draws, start, i).out <= After(spec, lead, draws, start, n).out
    decreases n - i
  {
    hide Demand, MulReal, CeilTo, ForUnit, Parcel, Used, Delivered, At;
    if i < n { OutGrows(spec, lead, draws, start, i, n - 1); }
  }

  /** Each order whose day comes within the history is booked in that morning, in the
      quantity ordered or, for a short delivery, the drawn part of it. */
  lemma OrderIsReceived(spec: Spec, lead: nat, draws: nat -> Draws, start: Day, n: nat, o: Placed)
    requires lead >= 1 && o in PlacedIn(spec, lead, draws, start, n) && o.due < n
    requires Delivered(spec, draws(o.due), Parcel(spec)) > 0
    ensures
      Entry(Receipt, Delivered(spec, draws(o.due), Parcel(spec)), At(start + o.due, 9), "") in After(spec, lead, draws, start, n).out
  {
    hide After, Trade, Parcel, Delivered, At;
    OneAtATime(spec, lead, draws, start, n);
    OrderArrives(spec, lead, draws, start, n, o, o.due);
    ReceiptOfTheDay(spec, draws(o.due), start + o.due, o.due, After(spec, lead, draws, start, o.due));
    OutGrows(spec, lead, draws, start, o.due + 1, n);
    var e := Entry(Receipt, Delivered(spec, draws(o.due), Parcel(spec)), At(start + o.due, 9), "");
    assert e in After(spec, lead, draws, start, o.due + 1).out by { TradedOut(spec, lead, draws, start, o.due); }
  }

  lemma TradedOut(spec: Spec, lead: nat, draws: nat -> Draws, start: Day, i: nat)
    ensures After(spec, lead, draws, start, i + 1).out
         == Trade(spec, draws(i), start + i, i, After(spec, lead, draws, start, i)).out
  {
    hide Trade, Parcel, Orders;
  }

  lemma ReceiptOfTheDay(spec: Spec, dr: Draws, day: Day, i: nat, g: Gen)
    requires g.due == i && Delivered(spec, dr, g.arriving) > 0
    ensures Entry(Receipt, Delivered(spec, dr, g.arriving), At(day, 9), "") in Trade(spec, dr, day, i, g).out
  {
    hide Demand, MulReal, CeilTo, ForUnit, Used, Delivered, At;
    var e := Entry(Receipt, Delivered(spec, dr, g.arriving), At(day, 9), "");
    assert Arrive(spec, dr, day, i, g).out[|g.out|] == e;
  }

  /** Why every lead is at least one day: with none the arrival day would already be under
      way and the order would stay outstanding. */
  lemma {:induction false} ZeroLeadNeverArrives(spec: Spec, draws: nat -> Draws, start: Day, placed: nat, n: nat)
    requires placed < n && Placed(placed, placed) in PlacedIn(spec, 0, draws, start, n)
    ensures After(spec, 0, draws, start, n).due == placed
  {
    hide Demand, MulReal, CeilTo, ForUnit, Parcel, Used, Delivered;
    if Placed(placed, placed) in PlacedIn(spec, 0, draws, start, n - 1) {
      PlacedEarlier(spec, draws, start, placed, n - 1);
      ZeroLeadNeverArrives(spec, draws, start, placed, n - 1);
    }
  }

  lemma {:induction false} PlacedEarlier(spec: Spec, draws: nat -> Draws, start: Day, placed: nat, n: nat)
    requires Placed(placed, placed) in PlacedIn(spec, 0, draws, start, n)
    ensures placed < n
  {
    hide Trade, After;
    if n > 0 && Placed(placed, placed) in PlacedIn(spec, 0, draws, start, n - 1) { PlacedEarlier(spec, draws, start, placed, n - 1); }
  }
}
