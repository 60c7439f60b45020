/** From movements to a daily consumption series: a count correction is consumption of the
    whole interval since the previous count and is spread over its days. */
module Series {
  import opened Options
  import opened Quantity
  import opened Identifiers
  import opened DeliveryWindow
  import F = Forecasting

  /** A consumption movement, signed as in the journal. */
  datatype RawMovement = RawMovement(item: Uuid, day: Day, qty: Qty, fromCount: bool)

  /** How the daily share of a quantity over a number of days is rounded. */
  type Rounding = (Qty, int) -> Qty

  type Daily = map<Day, Qty>

  function On(daily: Daily, day: Day): Qty { if day in daily then daily[day] else 0 }

  // ---- Specification ----

  /** The first day of the interval a correction is spread over. */
  function StartOf(prevCount: Option<Day>, from: Day): Day {
    if prevCount.None? || prevCount.value + 1 < from then from else prevCount.value + 1
  }

  predicate Spreads(m: RawMovement, start: Day) { m.fromCount && m.qty <= 0 && start < m.day }

  /** What one movement puts on one day. */
  function Part(m: RawMovement, start: Day, share: Rounding, day: Day): Qty {
    if !Spreads(m, start) then (if day == m.day then -m.qty else 0)
    else
      var s := share(-m.qty, m.day - start + 1);
      if start <= day < m.day then s
      else if day == m.day then -m.qty - (m.day - start) * s
      else 0
  }

  /** The day of the latest count. */
  function LastCount(ms: seq<RawMovement>): Option<Day> {
    if ms == [] then None
    else
      var m := ms[|ms| - 1];
      if m.fromCount then Some(m.day) else LastCount(ms[..|ms| - 1])
  }

  /** The consumption of one day. */
  function DayQty(ms: seq<RawMovement>, from: Day, share: Rounding, day: Day): Qty {
    if ms == [] then 0
    else
      var before := ms[..|ms| - 1];
      DayQty(before, from, share, day) + Part(ms[|ms| - 1], StartOf(LastCount(before), from), share, day)
  }

  function OfItem(ms: seq<RawMovement>, item: Uuid): seq<RawMovement> {
    if ms == [] then []
    else OfItem(ms[..|ms| - 1], item) + if ms[|ms| - 1].item == item then [ms[|ms| - 1]] else []
  }

  /** The days [from, from + n) of one item. */
  function Observations(ms: seq<RawMovement>, item: Uuid, data: set<Day>, stockouts: set<(Uuid, Day)>,
                        from: Day, n: nat, share: Rounding): seq<F.Observation> {
    seq(n, i => F.Observation(from + i, DayQty(ms, from, share, from + i), from + i in data, (item, from + i) in stockouts))
  }

  function Days(from: Day, to: Day): nat { if from <= to then to - from + 1 else 0 }

  // ---- The loops ----

  /** The even part of a spread: `s` on each day of [start, end). */
  method SpreadShare(daily0: Daily, start: Day, end: Day, s: Qty) returns (daily: Daily, spread: Qty)
    requires start <= end
    ensures forall d :: On(daily, d) == On(daily0, d) + if start <= d < end then s else 0
    ensures spread == (end - start) * s
  {
    daily, spread := daily0, 0;
    var day := start;
    while day < end
      invariant start <= day <= end
      invariant forall d :: On(daily, d) == On(daily0, d) + if start <= d < day then s else 0
      invariant spread == (day - start) * s
    {
      daily := daily[day := On(daily, day) + s];
      spread := spread + s;
      day := day + 1;
    }
  }

  /** One movement. */
  method Place(daily0: Daily, m: RawMovement, start: Day, share: Rounding) returns (daily: Daily)
    ensures forall d :: On(daily, d) == On(daily0, d) + Part(m, start, share, d)
  {
    daily := daily0;
    var consumed := -m.qty;
    if !m.fromCount || consumed < 0 || start > m.day {
      daily := daily[m.day := On(daily, m.day) + consumed];
      return;
    }
    var days := m.day - start + 1;
    if days <= 1 {
      daily := daily[m.day := On(daily, m.day) + consumed];
      return;
    }
    var s := share(consumed, days);
    var spread;
    daily, spread := SpreadShare(daily, start, m.day, s);
    daily := daily[m.day := On(daily, m.day) + (consumed - spread)];
  }

  method Distribute(ms: seq<RawMovement>, from: Day, share: Rounding) returns (daily: Daily)
    ensures forall d :: On(daily, d) == DayQty(ms, from, share, d)
  {
    daily := map[];
    var prevCount: Option<Day> := None;
    for i := 0 to |ms|
      invariant prevCount == LastCount(ms[..i])
      invariant forall d :: On(daily, d) == DayQty(ms[..i], from, share, d)
    {
      assert ms[..i + 1][..i] == ms[..i];
      var m := ms[i];
      var start := if prevCount.None? || prevCount.value + 1 < from then from else prevCount.value + 1;
      if m.fromCount {
        prevCount := Some(m.day);
      }
      daily := Place(daily, m, start, share);
    }
    assert ms[..|ms|] == ms;
  }

  /** Movements by item, in the order they came. */
  method GroupByItem(ms: seq<RawMovement>) returns (byItem: map<Uuid, seq<RawMovement>>)
    ensures forall item: Uuid :: item in byItem <==> OfItem(ms, item) != []
    ensures forall item :: item in byItem ==> byItem[item] == OfItem(ms, item)
  {
    byItem := map[];
    for i := 0 to |ms|
      invariant forall item: Uuid :: item in byItem <==> OfItem(ms[..i], item) != []
      invariant forall item :: item in byItem ==> byItem[item] == OfItem(ms[..i], item)
    {
      assert ms[..i + 1][..i] == ms[..i];
      var m := ms[i];
      byItem := byItem[m.item := (if m.item in byItem then byItem[m.item] else []) + [m]];
    }
    assert ms[..|ms|] == ms;
  }

  method Observe(ms: seq<RawMovement>, item: Uuid, data: set<Day>, stockouts: set<(Uuid, Day)>, from: Day, to: Day, share: Rounding)
    returns (observations: seq<F.Observation>)
    ensures observations == Observations(ms, item, data, stockouts, from, Days(from, to), share)
  {
    var daily := Distribute(ms, from, share);
    observations := [];
    var day := from;
    while day <= to
      invariant from <= day && (from <= to ==> day <= to + 1) && (from > to ==> day == from)
      invariant observations == Observations(ms, item, data, stockouts, from, day - from, share)
    {
      observations := observations + [F.Observation(day, On(daily, day), day in data, (item, day) in stockouts)];
      day := day + 1;
    }
  }

  method BuildSeries(ms: seq<RawMovement>, data: set<Day>, stockouts: set<(Uuid, Day)>, from: Day, to: Day, share: Rounding)
    returns (out: map<Uuid, seq<F.Observation>>)
    ensures forall item: Uuid :: item in out <==> OfItem(ms, item) != []
    ensures forall item :: item in out ==>
              out[item] == Observations(OfItem(ms, item), item, data, stockouts, from, Days(from, to), share)
  {
    var byItem := GroupByItem(ms);
    out := map[];
    var left := byItem.Keys;
    while left != {}
      invariant left <= byItem.Keys && out.Keys == byItem.Keys - left
      invariant forall item :: item in out ==>
                  out[item] == Observations(OfItem(ms, item), item, data, stockouts, from, Days(from, to), share)
      decreases |left|
    {
      var item :| item in left;
      var observations := Observe(byItem[item], item, data, stockouts, from, to, share);
      out := out[item := observations];
      left := left - {item};
    }
  }

  // ---- Conservation ----

  /** The consumption of the days [lo, hi). */
  function Span(ms: seq<RawMovement>, from: Day, share: Rounding, lo: Day, hi: Day): Qty
    decreases hi - lo
  {
    if hi <= lo then 0 else Span(ms, from, share, lo, hi - 1) + DayQty(ms, from, share, hi - 1)
  }

  function PartSpan(m: RawMovement, start: Day, share: Rounding, lo: Day, hi: Day): Qty
    decreases hi - lo
  {
    if hi <= lo then 0 else PartSpan(m, start, share, lo, hi - 1) + Part(m, start, share, hi - 1)
  }

  function SumQty(ms: seq<RawMovement>): Qty {
    if ms == [] then 0 else SumQty(ms[..|ms| - 1]) + ms[|ms| - 1].qty
  }

  /** What a movement has put on the days before `hi`. */
  lemma {:induction false} PartSpanIs(m: RawMovement, start: Day, share: Rounding, lo: Day, hi: Day)
    requires lo <= m.day && lo <= start && lo <= hi
    ensures PartSpan(m, start, share, lo, hi) ==
              if hi > m.day then -m.qty
              else if Spreads(m, start) && hi > start then (hi - start) * share(-m.qty, m.day - start + 1)
              else 0
    decreases hi - lo
  {
    if lo < hi {
      PartSpanIs(m, start, share, lo, hi - 1);
      var s := share(-m.qty, m.day - start + 1);
      assert (hi - start) * s == (hi - 1 - start) * s + s;
    }
  }

  lemma {:induction false} SpanSplits(ms: seq<RawMovement>, from: Day, share: Rounding, lo: Day, hi: Day)
    requires ms != []
    ensures
      var before := ms[..|ms| - 1];
      Span(ms, from, share, lo, hi) == Span(before, from, share, lo, hi)
                                         + PartSpan(ms[|ms| - 1], StartOf(LastCount(before), from), share, lo, hi)
    decreases hi - lo
  {
    if lo < hi { SpanSplits(ms, from, share, lo, hi - 1); }
  }

  lemma {:induction false} SpanEmpty(from: Day, share: Rounding, lo: Day, hi: Day)
    ensures Span([], from, share, lo, hi) == 0
    decreases hi - lo
  {
    if lo < hi { SpanEmpty(from, share, lo, hi - 1); }
  }

  /** However the share is rounded, the days of the window add up to what was consumed. */
  lemma {:induction false} SpanConserves(ms: seq<RawMovement>, from: Day, to: Day, share: Rounding)
    requires forall m :: m in ms ==> from <= m.day <= to
    ensures Span(ms, from, share, from, to + 1) == -SumQty(ms)
  {
    if ms == [] {
      SpanEmpty(from, share, from, to + 1);
    } else {
      var before, m := ms[..|ms| - 1], ms[|ms| - 1];
      assert m in ms && forall x :: x in before ==> x in ms;
      SpanConserves(before, from, to, share);
      SpanSplits(ms, from, share, from, to + 1);
      PartSpanIs(m, StartOf(LastCount(before), from), share, from, to + 1);
    }
  }

  function SumObserved(os: seq<F.Observation>): Qty {
    if os == [] then 0 else SumObserved(os[..|os| - 1]) + os[|os| - 1].qty
  }

  lemma {:induction false} ObservedIsSpan(ms: seq<RawMovement>, item: Uuid, data: set<Day>, stockouts: set<(Uuid, Day)>,
                                          from: Day, n: nat, share: Rounding)
    ensures SumObserved(Observations(ms, item, data, stockouts, from, n, share)) == Span(ms, from, share, from, from + n)
  {
    if n > 0 {
      var os := Observations(ms, item, data, stockouts, from, n, share);
      assert os[..n - 1] == Observations(ms, item, data, stockouts, from, n - 1, share);
      ObservedIsSpan(ms, item, data, stockouts, from, n - 1, share);
    }
  }

  /** The series of an item whose movements all lie in the window holds exactly what was
      consumed, for any rounding of the daily share. */
  lemma SeriesConserves(ms: seq<RawMovement>, item: Uuid, data: set<Day>, stockouts: set<(Uuid, Day)>,
                        from: Day, to: Day, share: Rounding)
    requires forall m :: m in OfItem(ms, item) ==> from <= m.day <= to
    ensures SumObserved(Observations(OfItem(ms, item), item, data, stockouts, from, Days(from, to), share))
         == -SumQty(OfItem(ms, item))
  {
    var mine := OfItem(ms, item);
    ObservedIsSpan(mine, item, data, stockouts, from, Days(from, to), share);
    SpanConserves(mine, from, to, share);
    assert from > to ==> mine == [] by { assert mine != [] ==> mine[0] in mine; }
    assert from > to ==> Span(mine, from, share, from, from + 0) == 0;
  }

  // ---- How even the spread is ----

  /** The share is a nearest thousandth; a tie may go either way. */
  predicate Nearest(s: Qty, total: Qty, days: int) { -days <= 2 * (days * s - total) <= days }

  function EqualShare(total: Qty, days: int): Qty { if days <= 0 then total else RoundDiv(total, days) }

  lemma EqualShareNearest(total: Qty, days: int)
    requires days > 0
    ensures Nearest(EqualShare(total, days), total, days)
  {
    RoundDivNear(total, days);
  }

  /** Each earlier day is within half a thousandth of the equal share and the last one
      within (days - 1)/2 thousandths; all sides are multiplied by 2 * days. */
  lemma SpreadIsEven(m: RawMovement, start: Day, share: Rounding, day: Day)
    requires Spreads(m, start) && start <= day <= m.day
    requires Nearest(share(-m.qty, m.day - start + 1), -m.qty, m.day - start + 1)
    ensures
      var days, p := m.day - start + 1, Part(m, start, share, day);
      var slack := if day < m.day then days else (days - 1) * days;
      -slack <= 2 * (days * p + m.qty) <= slack
  {
    var days := m.day - start + 1;
    var s := share(-m.qty, days);
    if day == m.day {
      var e := days * s + m.qty;
      LastDayError(days, s, -m.qty, e);
    }
  }

  lemma LastDayError(days: int, s: Qty, total: Qty, e: int)
    requires days >= 1 && e == days * s - total && -days <= 2 * e <= days
    ensures -(days - 1) * days <= 2 * (days * (total - (days - 1) * s) - total) <= (days - 1) * days
  {
    assert days * (total - (days - 1) * s) == days * total - (days - 1) * (days * s);
    assert (days - 1) * (days * s) == (days - 1) * total + (days - 1) * e;
    MulMonotone(-days, 2 * e, days - 1);
    MulMonotone(2 * e, days, days - 1);
  }

  /** A nearest share is the quotient, or one more from half a thousandth on. */
  lemma ShareParts(k: int, r: int, days: int, s: int)
    requires k >= 0 && 0 <= r < days && Nearest(s, k * days + r, days)
    ensures s == k || s == k + 1
    ensures (2 * r < days ==> s == k) && (2 * r > days ==> s == k + 1)
  {
    assert days * k == k * days;
    assert days * s == days * k + days * (s - k);
    assert s - k <= -1 ==> days * (s - k) <= -days by { if s - k <= -1 { MulMonotone(s - k, -1, days); } }
    assert s - k >= 2 ==> days * (s - k) >= 2 * days by { if s - k >= 2 { MulMonotone(2, s - k, days); } }
  }

  lemma LastPart(k: int, r: int, days: int, s: int)
    ensures s == k ==> k * days + r - (days - 1) * s == k + r
    ensures s == k + 1 ==> k * days + r - (days - 1) * s == k + r + 1 - days
  {
    assert (days - 1) * k == k * days - k;
    assert (days - 1) * (k + 1) == (days - 1) * k + (days - 1);
  }

  /** The last day of a spread is negative exactly when the share was rounded up and the
      earlier days together took more than there was. Off a tie the rounding is forced; at a
      tie it is whatever the multiplication by 1/days gave. */
  lemma LastDayNegativeIff(m: RawMovement, start: Day, share: Rounding)
    requires Spreads(m, start) && Nearest(share(-m.qty, m.day - start + 1), -m.qty, m.day - start + 1)
    ensures
      var days := m.day - start + 1;
      var s, k, r := share(-m.qty, days), (-m.qty) / days, (-m.qty) % days;
      && (Part(m, start, share, m.day) < 0 <==> s == k + 1 && k + r + 1 < days)
      && (2 * r < days ==> s == k) && (2 * r > days ==> s == k + 1)
  {
    hide Nearest;
    var days, c := m.day - start + 1, -m.qty;
    var s, k, r := share(c, days), c / days, c % days;
    assert c == k * days + r;
    assert k >= 0 by { DivMonotone(0, c, days); DivUnique(0, days, 0); }
    ShareParts(k, r, days, s);
    LastPart(k, r, days, s);
  }

  /** Rounding halves up: both bounds of an even spread hold, and the last day is negative
      exactly when at least half a thousandth was left over and it did not go round. */
  lemma EqualSpread(m: RawMovement, start: Day, day: Day)
    requires Spreads(m, start) && start <= day <= m.day
    ensures
      var days, p := m.day - start + 1, Part(m, start, EqualShare, day);
      var slack := if day < m.day then days else (days - 1) * days;
      -slack <= 2 * (days * p + m.qty) <= slack
    ensures
      var days := m.day - start + 1;
      var k, r := (-m.qty) / days, (-m.qty) % days;
      Part(m, start, EqualShare, m.day) < 0 <==> 2 * r >= days && k + r + 1 < days
  {
    hide RoundDiv, Part;
    var days, c := m.day - start + 1, -m.qty;
    EqualShareNearest(c, days);
    SpreadIsEven(m, start, EqualShare, day);
    LastDayNegativeIff(m, start, EqualShare);
    HalfGoesUp(c, days);
  }

  lemma HalfGoesUp(c: int, days: int)
    requires c >= 0 && days > 0
    ensures 2 * (c % days) >= days ==> EqualShare(c, days) == c / days + 1
  {
    var k, r := c / days, c % days;
    assert c == k * days + r;
    assert k >= 0 by { DivMonotone(0, c, days); DivUnique(0, days, 0); }
    RoundDivShift(k, r, days);
    assert 2 * r >= days ==> RoundDiv(r, days) == 1 by { if 2 * r >= days { DivUnique(2 * r + days, 2 * days, 1); } }
  }

  /** Three thousandths over six days are a tie: rounded up the last day is minus two,
      rounded down it takes all three. */
  lemma TieEitherWay(up: Rounding, down: Rounding)
    requires up(3, 6) == 1 && down(3, 6) == 0
    ensures
      var m := RawMovement(7, 5, -3, true);
      && Nearest(1, 3, 6) && Nearest(0, 3, 6)
      && Part(m, 0, up, 5) == -2 && Part(m, 0, down, 5) == 3
  {
  }

  /** Four thousandths over a week: six days get one each, the last day minus two. */
  lemma NegativeLastDay()
    ensures
      var m := RawMovement(7, 6, -4, true);
      Part(m, 0, EqualShare, 6) == -2 && Part(m, 0, EqualShare, 0) == 1
  {
    DivUnique(15, 14, 1);
  }

  // ---- Where each movement goes ----

  /** The j-th movement is a count and no later one is. */
  predicate IsLastCount(ms: seq<RawMovement>, j: nat) {
    j < |ms| && ms[j].fromCount && forall i :: j < i < |ms| ==> !ms[i].fromCount
  }

  /** The last count was taken on this day. */
  predicate CountedLast(ms: seq<RawMovement>, day: Day) { exists j :: 0 <= j < |ms| && IsLastCount(ms, j) && ms[j].day == day }

  lemma NoLaterCount(ms: seq<RawMovement>, m: RawMovement, j: nat)
    requires IsLastCount(ms, j) && !m.fromCount
    ensures IsLastCount(ms + [m], j) && (ms + [m])[j] == ms[j]
  {
  }

  lemma {:induction false} LastCountIs(ms: seq<RawMovement>)
    ensures LastCount(ms).None? ==> forall j :: 0 <= j < |ms| ==> !ms[j].fromCount
    ensures LastCount(ms).Some? ==> CountedLast(ms, LastCount(ms).value)
  {
    if ms != [] {
      var init, m := ms[..|ms| - 1], ms[|ms| - 1];
      LastCountIs(init);
      assert ms == init + [m];
      if m.fromCount {
        assert IsLastCount(ms, |ms| - 1);
      } else if LastCount(init).Some? {
        var j :| 0 <= j < |init| && IsLastCount(init, j) && init[j].day == LastCount(init).value;
        NoLaterCount(init, m, j);
      }
    }
  }

  lemma OneCountedLast(ms: seq<RawMovement>, a: Day, b: Day)
    requires CountedLast(ms, a) && CountedLast(ms, b)
    ensures a == b
  {
    var i :| 0 <= i < |ms| && IsLastCount(ms, i) && ms[i].day == a;
    var j :| 0 <= j < |ms| && IsLastCount(ms, j) && ms[j].day == b;
    assert !(i < j) && !(j < i);
  }

  /** Ordinary consumption, and a correction that found more than was booked, counts on its own
      day and nowhere else. */
  lemma OrdinaryDay(ms: seq<RawMovement>, m: RawMovement, from: Day, share: Rounding, day: Day)
    requires !m.fromCount || m.qty > 0
    ensures DayQty(ms + [m], from, share, day) == DayQty(ms, from, share, day) - if day == m.day then m.qty else 0
  {
    assert (ms + [m])[..|ms|] == ms;
  }

  /** A correction that found less is spread over the days since the last count, or since the
      window began if there was none in it: one share on each day but the last, which takes the
      rest. Days outside that interval get nothing. */
  lemma CorrectionDays(ms: seq<RawMovement>, m: RawMovement, from: Day, share: Rounding, start: Day, day: Day)
    requires m.fromCount && m.qty <= 0 && start <= m.day
    requires if exists p :: CountedLast(ms, p) && p + 1 >= from then CountedLast(ms, start - 1) && start >= from
             else start == from
    ensures
      var added, days := DayQty(ms + [m], from, share, day) - DayQty(ms, from, share, day), m.day - start + 1;
      && (day < start || day > m.day ==> added == 0)
      && (start <= day < m.day ==> added == share(-m.qty, days))
      && (day == m.day && start == m.day ==> added == -m.qty)
      && (day == m.day && start < m.day ==> added == -m.qty - (days - 1) * share(-m.qty, days))
  {
    assert (ms + [m])[..|ms|] == ms;
    LastCountIs(ms);
    if LastCount(ms).Some? {
      var p := LastCount(ms).value;
      forall q | CountedLast(ms, q) ensures q == p { OneCountedLast(ms, p, q); }
    } else {
      assert forall q :: !CountedLast(ms, q);
    }
    assert StartOf(LastCount(ms), from) == start;
  }

  /** A correction dated before its interval begins stays on its own day. */
  lemma EarlyCorrection(ms: seq<RawMovement>, m: RawMovement, from: Day, share: Rounding, day: Day)
    requires m.fromCount && m.day < from
    ensures DayQty(ms + [m], from, share, day) == DayQty(ms, from, share, day) - if day == m.day then m.qty else 0
  {
    assert (ms + [m])[..|ms|] == ms;
  }

  /** The i-th observation is that of the i-th day of the window, with the item's consumption,
      and marked by the days with data and the item's own stockouts. */
  lemma ObservationIs(ms: seq<RawMovement>, item: Uuid, data: set<Day>, stockouts: set<(Uuid, Day)>, from: Day, n: nat,
                      share: Rounding, i: nat)
    requires i < n
    ensures
      var o := Observations(ms, item, data, stockouts, from, n, share)[i];
      && o.day == from + i && o.qty == DayQty(ms, from, share, from + i)
      && (o.hasData <==> from + i in data) && (o.stockout <==> (item, from + i) in stockouts)
  {
  }

  /** The series of an item is made of its own movements, in the order they came. */
  lemma {:induction false} OwnMovements(ms: seq<RawMovement>, item: Uuid)
    ensures forall m :: m in OfItem(ms, item) <==> m in ms && m.item == item
    ensures forall m: RawMovement :: OfItem(ms + [m], item) == OfItem(ms, item) + if m.item == item then [m] else []
  {
    if ms != [] {
      OwnMovements(ms[..|ms| - 1], item);
      assert forall m :: m in ms <==> m in ms[..|ms| - 1] || m == ms[|ms| - 1];
    }
    forall m: RawMovement ensures OfItem(ms + [m], item) == OfItem(ms, item) + if m.item == item then [m] else [] {
      assert (ms + [m])[..|ms|] == ms;
    }
  }
}
