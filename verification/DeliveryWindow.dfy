/** Delivery windows: when an order placed now, or one day later, arrives. */
module DeliveryWindow {

  /** Calendar days, numbered from a Monday. */
  type Day = int

  /** Nanoseconds of local wall-clock time since the midnight that starts day 0. */
  type Moment = int

  const NS_PER_MINUTE := 60_000_000_000
  const NS_PER_DAY := 86_400_000_000_000

  /** ISO 8601 weekday: Monday is 1, Sunday is 7. */
  function Weekday(day: Day): int { day % 7 + 1 }

  function DayOf(now: Moment): Day { now / NS_PER_DAY }

  datatype TimeOfDay = TimeOfDay(hour: int, minute: int) {
    predicate Valid() { 0 <= hour < 24 && 0 <= minute < 60 }

    function On(day: Day): Moment { day * NS_PER_DAY + (hour * 60 + minute) * NS_PER_MINUTE }

    /** `now` is before this time of its own day. */
    predicate Before(now: Moment) { now < On(DayOf(now)) }
  }

  datatype Supplier = Supplier(leadTimeDays: int, deliveryWeekdays: seq<int>, cutoff: TimeOfDay)

  datatype Window = Window(orderDay: Day, d1: Day, d2: Day, orderBy: Moment, afterCutoff: bool) {
    predicate CanWait() { d1 == d2 }
  }

  function Earliest(orderDay: Day, s: Supplier): Day {
    orderDay + if s.leadTimeDays > 0 then s.leadTimeDays else 0
  }

  predicate ValidWeekday(wd: int) { 1 <= wd <= 7 }

  /** The supplier restricts deliveries to some weekdays. */
  predicate Restricted(s: Supplier) { exists wd :: wd in s.deliveryWeekdays && ValidWeekday(wd) }

  predicate Delivers(s: Supplier, day: Day) {
    Restricted(s) ==> Weekday(day) in s.deliveryWeekdays
  }

  // ---- The weekday mask ----

  function Bit(wd: int): bv8
    requires ValidWeekday(wd)
  {
    if wd == 1 then 2 else if wd == 2 then 4 else if wd == 3 then 8 else if wd == 4 then 16
    else if wd == 5 then 32 else if wd == 6 then 64 else 128
  }

  /** The mask holds weekday `wd`. */
  predicate InMask(mask: bv8, wd: int) { ValidWeekday(wd) && mask & Bit(wd) != 0 }

  lemma AddBit(mask: bv8, wd: int)
    requires ValidWeekday(wd)
    ensures forall d :: InMask(mask | Bit(wd), d) <==> d == wd || InMask(mask, d)
  {
    forall d ensures InMask(mask | Bit(wd), d) <==> d == wd || InMask(mask, d) {
      if ValidWeekday(d) { AddOneBit(mask, wd, d); }
    }
  }

  lemma AddOneBit(mask: bv8, wd: int, d: int)
    requires ValidWeekday(wd) && ValidWeekday(d)
    ensures (mask | Bit(wd)) & Bit(d) != 0 <==> d == wd || mask & Bit(d) != 0
  {
    assert (mask | Bit(wd)) & Bit(d) == (mask & Bit(d)) | (Bit(wd) & Bit(d));
  }

  lemma EmptyMask(mask: bv8)
    requires mask & 1 == 0 && forall d :: ValidWeekday(d) ==> !InMask(mask, d)
    ensures mask == 0
  {
    assert !InMask(mask, 1) && !InMask(mask, 2) && !InMask(mask, 3) && !InMask(mask, 4);
    assert !InMask(mask, 5) && !InMask(mask, 6) && !InMask(mask, 7);
  }

  method WeekdaySet(weekdays: seq<int>) returns (mask: bv8)
    ensures forall d :: InMask(mask, d) <==> ValidWeekday(d) && d in weekdays
    ensures mask & 1 == 0
  {
    mask := 0;
    for i := 0 to |weekdays|
      invariant forall d :: InMask(mask, d) <==> ValidWeekday(d) && d in weekdays[..i]
      invariant mask & 1 == 0
    {
      var wd := weekdays[i];
      assert weekdays[..i + 1] == weekdays[..i] + [wd];
      if 1 <= wd && wd <= 7 {
        AddBit(mask, wd);
        assert (mask | Bit(wd)) & 1 == 0;
        mask := mask | Bit(wd);
      }
    }
    assert weekdays[..|weekdays|] == weekdays;
  }

  // ---- Delivery dates ----

  /** The specification: the first day from `earliest` on which the supplier delivers. */
  predicate FirstDelivery(s: Supplier, earliest: Day, day: Day) {
    earliest <= day && Delivers(s, day) && forall d :: earliest <= d < day ==> !Delivers(s, d)
  }

  /** Some allowed weekday comes up within a week. */
  lemma WithinAWeek(s: Supplier, earliest: Day) returns (day: Day)
    ensures earliest <= day < earliest + 7 && Delivers(s, day)
  {
    if Restricted(s) {
      var wd :| wd in s.deliveryWeekdays && ValidWeekday(wd);
      day := earliest + (wd - 1 - earliest) % 7;
      assert Weekday(day) == wd;
    } else {
      day := earliest;
    }
  }

  /** The loop always finds its day, so the fallback after it is never reached. */
  method DeliveryDate(orderDay: Day, s: Supplier) returns (day: Day)
    ensures FirstDelivery(s, Earliest(orderDay, s), day)
    ensures day < Earliest(orderDay, s) + 7
  {
    var earliest := orderDay + if s.leadTimeDays > 0 then s.leadTimeDays else 0;
    if |s.deliveryWeekdays| == 0 {
      return earliest;
    }
    var allowed := WeekdaySet(s.deliveryWeekdays);
    if allowed == 0 {
      assert forall wd :: !InMask(allowed, wd);
      return earliest;
    }
    if !Restricted(s) {
      EmptyMask(allowed);
    }
    ghost var found := WithinAWeek(s, earliest);
    var i := 0;
    while i < 7
      invariant 0 <= i <= 7
      invariant earliest + i <= found
      invariant forall d :: earliest <= d < earliest + i ==> !Delivers(s, d)
    {
      day := earliest + i;
      if allowed & Bit(Weekday(day)) != 0 {
        assert InMask(allowed, Weekday(day));
        return day;
      }
      assert !InMask(allowed, Weekday(day));
      i := i + 1;
    }
    assert false;
    return earliest;
  }

  lemma FirstDeliveryUnique(s: Supplier, earliest: Day, a: Day, b: Day)
    requires FirstDelivery(s, earliest, a) && FirstDelivery(s, earliest, b)
    ensures a == b
  {
  }

  /** The search of at most a week, falling back to the earliest day. */
  function DeliveryFrom(s: Supplier, earliest: Day, i: nat): Day
    decreases 7 - i
  {
    if i >= 7 then earliest
    else if Delivers(s, earliest + i) then earliest + i
    else DeliveryFrom(s, earliest, i + 1)
  }

  function FirstDay(orderDay: Day, s: Supplier): Day { DeliveryFrom(s, Earliest(orderDay, s), 0) }

  function WindowAt(now: Moment, s: Supplier): Window {
    var after := !s.cutoff.Before(now);
    var orderDay := DayOf(now) + if after then 1 else 0;
    Window(orderDay, FirstDay(orderDay, s), FirstDay(orderDay + 1, s), s.cutoff.On(orderDay), after)
  }

  lemma {:induction false} DeliveryFromFirst(s: Supplier, earliest: Day, i: nat, found: Day)
    requires earliest + i <= found < earliest + 7 && Delivers(s, found)
    requires forall d :: earliest <= d < earliest + i ==> !Delivers(s, d)
    ensures FirstDelivery(s, earliest, DeliveryFrom(s, earliest, i))
    decreases 7 - i
  {
    if !Delivers(s, earliest + i) { DeliveryFromFirst(s, earliest, i + 1, found); }
  }

  lemma FirstDayIsFirst(orderDay: Day, s: Supplier)
    ensures FirstDelivery(s, Earliest(orderDay, s), FirstDay(orderDay, s))
  {
    var found := WithinAWeek(s, Earliest(orderDay, s));
    DeliveryFromFirst(s, Earliest(orderDay, s), 0, found);
  }

  /** The window `ComputeWindow` must produce. */
  ghost predicate IsWindow(now: Moment, s: Supplier, w: Window) {
    && w.afterCutoff == !s.cutoff.Before(now)
    && w.orderDay == DayOf(now) + (if w.afterCutoff then 1 else 0)
    && FirstDelivery(s, Earliest(w.orderDay, s), w.d1)
    && FirstDelivery(s, Earliest(w.orderDay + 1, s), w.d2)
    && w.orderBy == s.cutoff.On(w.orderDay)
  }

  lemma WindowAtIsWindow(now: Moment, s: Supplier)
    ensures IsWindow(now, s, WindowAt(now, s))
  {
    FirstDayIsFirst(WindowAt(now, s).orderDay, s);
    FirstDayIsFirst(WindowAt(now, s).orderDay + 1, s);
  }

  method ComputeWindow(now: Moment, s: Supplier) returns (w: Window)
    ensures w == WindowAt(now, s)
  {
    var orderDay := DayOf(now);
    var afterCutoff := !s.cutoff.Before(now);
    if afterCutoff {
      orderDay := orderDay + 1;
    }
    var d1 := DeliveryDate(orderDay, s);
    var d2 := DeliveryDate(orderDay + 1, s);
    w := Window(orderDay, d1, d2, s.cutoff.On(orderDay), afterCutoff);
    FirstDayIsFirst(orderDay, s);
    FirstDayIsFirst(orderDay + 1, s);
    FirstDeliveryUnique(s, Earliest(orderDay, s), d1, FirstDay(orderDay, s));
    FirstDeliveryUnique(s, Earliest(orderDay + 1, s), d2, FirstDay(orderDay + 1, s));
  }

  /** Waiting a day costs at most a week, and nothing exactly when the supplier
      does not deliver on the earliest possible day. */
  lemma WindowBounds(now: Moment, s: Supplier, w: Window)
    requires IsWindow(now, s, w)
    ensures DayOf(now) <= w.orderDay <= w.d1 <= w.d2 <= w.d1 + 7
    ensures w.CanWait() <==> !Delivers(s, Earliest(w.orderDay, s))
    ensures !w.CanWait() ==> w.d1 == Earliest(w.orderDay, s)
  {
    var e := Earliest(w.orderDay, s);
    var d := WithinAWeek(s, w.d1 + 1);
    if w.d1 == e {
      assert w.d2 > w.d1;
    } else {
      FirstDeliveryUnique(s, e + 1, w.d1, w.d2);
    }
  }

  /** The deadline shown to the owner is always still ahead. */
  lemma DeadlineAhead(now: Moment, s: Supplier, w: Window)
    requires s.cutoff.Valid() && IsWindow(now, s, w)
    ensures now < w.orderBy && DayOf(w.orderBy) == w.orderDay
  {
    var inDay := (s.cutoff.hour * 60 + s.cutoff.minute) * NS_PER_MINUTE;
    assert 0 <= inDay < NS_PER_DAY;
    assert now == DayOf(now) * NS_PER_DAY + now % NS_PER_DAY;
  }
}
