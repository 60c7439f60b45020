/** The rules of the demo history: what arrives, what is consumed, what spoils and when an
    order is placed, in the figures of the scenario. */
module HistoryLaws {
  import opened Quantity
  import opened DeliveryWindow
  import opened Journal
  import opened History
  import opened DecisionLaws

  /** `q` is an amount of thousandths, to the nearest one, or to the nearest whole unit for an
      item counted in pieces. */
  ghost predicate Amount(spec: Spec, q: Qty, x: real) {
    exists exact: Qty :: NearestTo(exact, x) && if spec.pieces then q % 1000 == 0 && -500 <= q - exact <= 500 else q == exact
  }

  lemma AmountOf(spec: Spec, q: Qty, f: real)
    ensures Amount(spec, ForUnit(spec, MulReal(q, f)), Scaled(q, f))
  {
    var exact := MulReal(q, f);
    RoundRealNearest(Scaled(q, f));
    assert NearestTo(exact, Scaled(q, f));
    RoundDivNear(exact, 1000);
    MultipleMod(RoundDiv(exact, 1000), 1000);
  }

  function Scaled(q: Qty, f: real): real { q as real * f }

  /** Hours of a day in nanoseconds. */
  lemma HoursAre(day: Day, hour: int)
    ensures At(day, hour) == day * 86_400_000_000_000 + hour * 3_600_000_000_000
  {
  }

  // ---- Deliveries ----

  /** An order due today is booked in at nine and is outstanding no more; nothing else arrives.
      One delivery in ten is short: eight to nine and a half tenths of what was ordered. */
  lemma ArrivalRule(spec: Spec, dr: Draws, day: Day, i: nat, g: Gen) returns (q: Qty)
    ensures
      var n := Arrive(spec, dr, day, i, g);
      && (g.due != i ==> n == g)
      && (g.due == i ==>
            && (if dr.short < 0.1 then Amount(spec, q, Scaled(g.arriving, 0.8 + 0.15 * dr.part)) else q == g.arriving)
            && n.due == -1 && n.arriving == 0
            && (if q > 0 then n.balance == g.balance + q && n.out == g.out + [Entry(Receipt, q, At(day, 9), "")]
                else n.balance == g.balance && n.out == g.out))
  {
    hide At, Amount, ForUnit, MulReal, Scaled;
    q := Delivered(spec, dr, g.arriving);
    AmountOf(spec, g.arriving, 0.8 + dr.part * 0.15);
    assert 0.8 + dr.part * 0.15 == 0.8 + 0.15 * dr.part;
  }

  // ---- Demand ----

  /** In ninety days there are three days of double demand. */
  lemma SpikeDays(i: nat)
    requires i < 90
    ensures i > 0 && i % SpikePeriod(i) == 0 <==> i == 28 || i == 42 || i == 84
  {
  }

  /** A day's demand: the base, the weekend's factor on Saturday and Sunday, a trend from ten
      per cent below to ten per cent above over the ninety days, the item's noise, doubled on a
      spike, and never negative. */
  lemma DemandRule(spec: Spec, x: real, i: nat, day: Day) returns (flow: real, trend: real, noise: real)
    requires i < 90
    ensures flow == if Weekday(day) == 6 || Weekday(day) == 7 then spec.base * spec.weekendFactor else spec.base
    ensures 90.0 * trend == 81.0 + 0.2 * i as real && 0.9 <= trend < 1.1
    ensures noise == 1.0 + spec.noise * (2.0 * x - 1.0)
    ensures
      var usual := Product(flow, trend, noise);
      var v := if i == 28 || i == 42 || i == 84 then usual * 2.0 else usual;
      Demand(spec, x, i, day) == if v < 0.0 then 0.0 else v
  {
    hide Weekday, SpikePeriod;
    flow := if Weekday(day) >= 6 then spec.base * spec.weekendFactor else spec.base;
    trend := 1.0 + 0.10 * (i as real / HISTORY_DAYS as real - 0.5) * 2.0;
    noise := 1.0 + spec.noise * (x * 2.0 - 1.0);
    SpikeDays(i);
    WeekdayRange(day);
    TrendIs(i as real, trend);
  }

  lemma WeekdayRange(day: Day)
    ensures 1 <= Weekday(day) <= 7
  {
  }

  lemma TrendIs(i: real, trend: real)
    requires 0.0 <= i < 90.0 && trend == 1.0 + 0.10 * (i / 90.0 - 0.5) * 2.0
    ensures 90.0 * trend == 81.0 + 0.2 * i && 0.9 <= trend < 1.1
  {
  }

  /** At two in the afternoon the demand leaves the shelf, as far as there is any. */
  lemma UsageRule(spec: Spec, dr: Draws, day: Day, i: nat, g: Gen) returns (wanted: Qty)
    ensures Amount(spec, wanted, Scaled(1000, Demand(spec, dr.noise, i, day)))
    ensures
      var used, n := if wanted > g.balance then g.balance else wanted, Consume(day, Used(spec, dr, day, i, g.balance), g);
      && Used(spec, dr, day, i, g.balance) == used
      && n == (if used > 0 then g.(out := g.out + [Entry(Usage, used, At(day, 14), "")], balance := g.balance - used) else g)
  {
    hide At, Amount, ForUnit, MulReal, Scaled, Demand;
    wanted := ForUnit(spec, MulReal(1000, Demand(spec, dr.noise, i, day)));
    AmountOf(spec, 1000, Demand(spec, dr.noise, i, day));
  }

  // ---- Losses ----

  /** On one in four days with consumption one to three hundredths of it are written off at
      eight in the evening for one of four reasons, if that is anything and still there. */
  lemma LossRule(spec: Spec, dr: Draws, day: Day, used: Qty, g: Gen) returns (lost: Qty)
    requires 0.0 <= dr.rate < 1.0
    ensures Amount(spec, lost, Scaled(used, 0.01 + 0.02 * dr.rate)) && 0.01 <= 0.01 + 0.02 * dr.rate < 0.03
    ensures
      var n := Spoil(spec, dr, day, used, g);
      if used > 0 && dr.spoil < 0.25 && 0 < lost <= g.balance then
        n == g.(out := g.out + [Entry(Writeoff, lost, At(day, 20), PickReason(dr.reason))], balance := g.balance - lost)
      else n == g
    ensures PickReason(dr.reason) in {"spoiled", "broken", "expired", "tasting"}
  {
    hide At, Amount, ForUnit, MulReal, Scaled;
    lost := ForUnit(spec, MulReal(used, 0.01 + dr.rate * 0.02));
    AmountOf(spec, used, 0.01 + dr.rate * 0.02);
    assert 0.01 + dr.rate * 0.02 == 0.01 + 0.02 * dr.rate;
  }

  // ---- Orders ----

  /** An order, and the stock to begin with, is a week of base demand in whole packages. */
  lemma ParcelIs(spec: Spec) returns (week: Qty)
    requires spec.base >= 0.0 && 0 < spec.pack <= 2 * QUOTIENT_SCALE
    ensures NearestTo(week, Scaled(1000, spec.base * 7.0)) && LeastMultiple(Parcel(spec), week, spec.pack)
  {
    week := MulReal(1000, spec.base * 7.0);
    RoundRealNearest(Scaled(1000, spec.base * 7.0));
    CeilToLeastMultiple(week, spec.pack);
  }

  /** The history begins at eight on the day before with a week's stock and no order. */
  lemma OpeningRule(spec: Spec, lead: nat, draws: nat -> Draws, start: Day)
    ensures After(spec, lead, draws, start, 0) == Gen([Entry(Opening, Parcel(spec), At(start - 1, 8), "")], Parcel(spec), -1, 0)
    ensures Generated(spec, lead, draws, start) == After(spec, lead, draws, start, 90)
  {
    hide At, Parcel, Trade, PlaceOrder;
  }

  /** An order is placed at the end of a day, but not of the last three, when none is
      outstanding, less than four days of base demand are left and the owner, nine times in
      ten, thinks of it; it arrives after the lead. Nothing else changes. */
  lemma OrderRule(spec: Spec, lead: nat, dr: Draws, i: nat, g: Gen)
    ensures
      var n := PlaceOrder(spec, lead, dr, i, g);
      var placed := i < 87 && g.due < 0 && g.balance as real < 4000.0 * spec.base && dr.forget >= 0.1;
      n == if placed then g.(due := i + lead, arriving := Parcel(spec)) else g
  {
    hide Parcel;
    Thousandths(g.balance as real, spec.base);
  }

  lemma Thousandths(x: real, base: real)
    ensures x / 1000.0 < base * 4.0 <==> x < 4000.0 * base
  {
  }

  /** A day is its arrival, its demand, its losses and its order, in this turn. */
  lemma DayRule(spec: Spec, lead: nat, draws: nat -> Draws, start: Day, i: nat)
    ensures
      var g, dr, day := After(spec, lead, draws, start, i), draws(i), start + i;
      var stocked := Arrive(spec, dr, day, i, g);
      var used := Used(spec, dr, day, i, stocked.balance);
      var sold := Consume(day, used, stocked);
      After(spec, lead, draws, start, i + 1) == PlaceOrder(spec, lead, dr, i, Spoil(spec, dr, day, used, sold))
  {
    hide Arrive, Used, Consume, Spoil, PlaceOrder;
  }

  /** The lead of a supplier is one more than the days of the first entry with its name, and
      two days for a name that is not listed. */
  lemma {:induction false} LeadIs(terms: seq<Terms>, name: string)
    ensures (forall j :: 0 <= j < |terms| ==> terms[j].name != name) ==> LeadOf(terms, name) == 2
    ensures forall j :: 0 <= j < |terms| && terms[j].name == name && (forall i :: 0 <= i < j ==> terms[i].name != name) ==>
              LeadOf(terms, name) == terms[j].leadDays + 1
  {
    if terms != [] && terms[0].name != name {
      LeadIs(terms[1..], name);
      forall j | 0 <= j < |terms| && terms[j].name == name && (forall i :: 0 <= i < j ==> terms[i].name != name)
        ensures LeadOf(terms, name) == terms[j].leadDays + 1
      {
        assert terms[1..][j - 1] == terms[j];
        assert forall i :: 0 <= i < j - 1 ==> terms[1..][i] == terms[i + 1];
      }
    }
  }
}
