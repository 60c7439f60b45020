/** The journal read page by page, newest first, while it keeps growing. */
module Paging {
  import opened Options
  import opened Identifiers
  import opened DeliveryWindow
  import opened Journal
  import C = Cursor

  const DEFAULT_PAGE_SIZE := 50
  const MAX_PAGE_SIZE := 200

  datatype Filter = Filter(item: Option<Uuid>, kind: Option<Kind>, author: Option<Uuid>, from: Option<Moment>, to: Option<Moment>)

  /** A place in the order of the listing. */
  datatype Pos = Pos(at: Moment, id: Uuid)

  function PosOf(m: Movement): Pos { Pos(m.at, m.id) }

  predicate Below(a: Pos, b: Pos) { a.at < b.at || (a.at == b.at && a.id < b.id) }

  predicate Matches(m: Movement, f: Filter) {
    && (f.item.Some? ==> m.item == f.item.value)
    && (f.kind.Some? ==> m.kind == f.kind.value)
    && (f.author.Some? ==> m.author == f.author)
    && (f.from.Some? ==> m.at >= f.from.value)
    && (f.to.Some? ==> m.at < f.to.value)
  }

  predicate Wanted(m: Movement, f: Filter, cursor: Option<Pos>) {
    Matches(m, f) && (cursor.Some? ==> Below(PosOf(m), cursor.value))
  }

  function InsertDescending(m: Movement, s: seq<Movement>): seq<Movement> {
    if s == [] || Below(PosOf(s[0]), PosOf(m)) then [m] + s else [s[0]] + InsertDescending(m, s[1..])
  }

  /** The wanted rows, newest first. */
  function Listing(journal: seq<Movement>, f: Filter, cursor: Option<Pos>): seq<Movement> {
    if journal == [] then []
    else
      var m, rest := journal[|journal| - 1], Listing(journal[..|journal| - 1], f, cursor);
      if Wanted(m, f, cursor) then InsertDescending(m, rest) else rest
  }

  function Take(s: seq<Movement>, n: nat): seq<Movement> { if |s| <= n then s else s[..n] }

  function PageLimit(limit: int): (n: nat)
    ensures 1 <= n <= MAX_PAGE_SIZE
  {
    if limit <= 0 then DEFAULT_PAGE_SIZE else if limit > MAX_PAGE_SIZE then MAX_PAGE_SIZE else limit
  }

  datatype Page = Page(items: seq<Movement>, next: Option<Pos>)

  function PageOf(journal: seq<Movement>, f: Filter, cursor: Option<Pos>, limit: nat): Page
    requires limit >= 1
  {
    var rows := Listing(journal, f, cursor);
    if |rows| > limit then Page(rows[..limit], Some(PosOf(rows[limit - 1]))) else Page(rows, None)
  }

  // ---- The call ----

  /** Conversion between instants and calendar fields, done by the library. */
  datatype Calendar = Calendar(civil: Moment -> C.Civil, moment: C.Civil -> Moment)

  predicate Faithful(cal: Calendar, at: Moment) {
    C.ValidCivil(cal.civil(at)) && cal.moment(cal.civil(at)) == at
  }

  function CursorText(cal: Calendar, p: Pos): string
    requires Faithful(cal, p.at)
  {
    C.Encode(C.Place(cal.civil(p.at), p.id))
  }

  function CursorOf(cal: Calendar, d: C.Decoded): Option<Pos> {
    if d.At? then Some(Pos(cal.moment(d.place.at), d.place.id)) else None
  }

  /** A cursor handed out continues exactly after the last row of its page. */
  lemma CursorContinues(cal: Calendar, p: Pos)
    requires Faithful(cal, p.at)
    ensures CursorText(cal, p) != "" && C.Decode(CursorText(cal, p)).At?
    ensures CursorOf(cal, C.Decode(CursorText(cal, p))) == Some(p)
  {
    C.CursorRoundTrip(C.Place(cal.civil(p.at), p.id));
  }

  method ListMovements(journal: seq<Movement>, f: Filter, cursor: string, limit: int, cal: Calendar)
    returns (ok: bool, items: seq<Movement>, next: string)
    requires forall m :: m in journal ==> Faithful(cal, m.at)
    ensures ok <==> !C.Decode(cursor).BadCursor?
    ensures ok ==>
              var page := PageOf(journal, f, CursorOf(cal, C.Decode(cursor)), PageLimit(limit));
              && items == page.items
              && (page.next.None? ==> next == "")
              && (page.next.Some? ==> Faithful(cal, page.next.value.at) && next == CursorText(cal, page.next.value))
    ensures !ok ==> items == [] && next == ""
  {
    hide C.Decode, C.Encode, C.ValidCivil;
    items, next := [], "";
    var size := limit;
    if size <= 0 {
      size := DEFAULT_PAGE_SIZE;
    }
    if size > MAX_PAGE_SIZE {
      size := MAX_PAGE_SIZE;
    }
    var decoded := C.Decode(cursor);
    if decoded.BadCursor? {
      return false, [], "";
    }
    ok := true;
    ListingFrom(journal, f, CursorOf(cal, decoded));
    var all := Listing(journal, f, CursorOf(cal, decoded));
    var rows := Take(all, size + 1);
    for i := 0 to |rows|
      invariant i <= size && items == all[..i] && next == ""
    {
      if i == size {
        var last := items[|items| - 1];
        assert last in journal;
        next := C.Encode(C.Place(cal.civil(last.at), last.id));
        return;
      }
      items := items + [rows[i]];
    }
  }

  // ---- The listing ----

  predicate DistinctIds(journal: seq<Movement>) {
    forall i, j :: 0 <= i < j < |journal| ==> journal[i].id != journal[j].id
  }

  predicate Descending(s: seq<Movement>) {
    forall i, j :: 0 <= i < j < |s| ==> Below(PosOf(s[j]), PosOf(s[i]))
  }

  lemma {:induction false} InsertMembers(m: Movement, s: seq<Movement>)
    ensures forall x :: x in InsertDescending(m, s) <==> x == m || x in s
  {
    if s != [] && !Below(PosOf(s[0]), PosOf(m)) {
      InsertMembers(m, s[1..]);
      assert forall x :: x in s <==> x == s[0] || x in s[1..];
    }
  }

  lemma {:induction false} InsertKeepsOrder(m: Movement, s: seq<Movement>)
    requires Descending(s) && forall x :: x in s ==> x.id != m.id
    ensures Descending(InsertDescending(m, s))
  {
    if s != [] && !Below(PosOf(s[0]), PosOf(m)) {
      var rest := InsertDescending(m, s[1..]);
      InsertKeepsOrder(m, s[1..]);
      InsertMembers(m, s[1..]);
      assert s[0] in s;
      forall j | 0 <= j < |rest| ensures Below(PosOf(rest[j]), PosOf(s[0])) {
        assert rest[j] in rest;
      }
    } else if s != [] {
      forall j | 0 <= j < |s| ensures Below(PosOf(s[j]), PosOf(m)) {
        assert j > 0 ==> Below(PosOf(s[j]), PosOf(s[0]));
      }
    }
  }

  lemma {:induction false} ListingFrom(journal: seq<Movement>, f: Filter, cursor: Option<Pos>)
    ensures forall m :: m in Listing(journal, f, cursor) <==> m in journal && Wanted(m, f, cursor)
  {
    if journal != [] {
      var init, last := journal[..|journal| - 1], journal[|journal| - 1];
      ListingFrom(init, f, cursor);
      InsertMembers(last, Listing(init, f, cursor));
      assert forall x :: x in journal <==> x == last || x in init;
    }
  }

  lemma {:induction false} ListingDescends(journal: seq<Movement>, f: Filter, cursor: Option<Pos>)
    requires DistinctIds(journal)
    ensures Descending(Listing(journal, f, cursor))
  {
    if journal != [] {
      var init := journal[..|journal| - 1];
      ListingDescends(init, f, cursor);
      ListingFrom(init, f, cursor);
      if Wanted(journal[|journal| - 1], f, cursor) { InsertKeepsOrder(journal[|journal| - 1], Listing(init, f, cursor)); }
    }
  }

  /** A page holds the topmost wanted rows: all of those at or above its cursor. */
  lemma PageIsTop(journal: seq<Movement>, f: Filter, cursor: Option<Pos>, limit: nat)
    requires DistinctIds(journal) && limit >= 1
    ensures
      var page := PageOf(journal, f, cursor, limit);
      && Descending(page.items)
      && (forall m :: m in page.items ==> m in journal && Wanted(m, f, cursor))
      && (page.next.Some? ==> forall m :: m in page.items ==> !Below(PosOf(m), page.next.value))
      && (page.next.Some? && cursor.Some? ==> Below(page.next.value, cursor.value))
      && (forall m :: m in journal && Wanted(m, f, cursor) ==>
            m in page.items || (page.next.Some? && Below(PosOf(m), page.next.value)))
  {
    ListingFrom(journal, f, cursor);
    ListingDescends(journal, f, cursor);
    var rows, page := Listing(journal, f, cursor), PageOf(journal, f, cursor, limit);
    if page.next.Some? {
      forall m | m in journal && Wanted(m, f, cursor) ensures m in page.items || Below(PosOf(m), page.next.value) {
        assert m in rows;
        var j :| 0 <= j < |rows| && rows[j] == m;
        if j < limit { assert page.items[j] == m; }
      }
      assert rows[limit - 1] in rows;
    }
  }

  // ---- Reading to the end ----

  /** Rows are only ever added, in any place of the order. */
  predicate Growing(journals: seq<seq<Movement>>) {
    && (forall k :: 0 <= k < |journals| ==> DistinctIds(journals[k]))
    && (forall k :: 0 <= k < |journals| - 1 ==> forall m :: m in journals[k] ==> m in journals[k + 1])
  }

  /** What a reader collects who asks for page after page, the k-th from the k-th journal;
      `done` when the last page was reached. */
  datatype Collected = Collected(items: seq<Movement>, done: bool)

  function Collect(journals: seq<seq<Movement>>, f: Filter, limits: seq<int>, cursor: Option<Pos>): Collected
    requires |limits| == |journals|
  {
    if journals == [] then Collected([], false)
    else
      var page := PageOf(journals[0], f, cursor, PageLimit(limits[0]));
      if page.next.None? then Collected(page.items, true)
      else
        var rest := Collect(journals[1..], f, limits[1..], page.next);
        Collected(page.items + rest.items, rest.done)
  }

  ghost predicate InSome(journals: seq<seq<Movement>>, m: Movement) { exists k :: 0 <= k < |journals| && m in journals[k] }

  lemma GrowingTail(journals: seq<seq<Movement>>)
    requires Growing(journals) && journals != []
    ensures Growing(journals[1..])
  {
    var tail := journals[1..];
    forall k | 0 <= k < |tail| - 1 ensures forall m :: m in tail[k] ==> m in tail[k + 1] {
      assert tail[k] == journals[k + 1] && tail[k + 1] == journals[k + 2];
    }
  }

  /** Whatever is appended between the pages, the pages together are strictly descending,
      so no row comes twice, hold only matching rows, and once the end is reached hold every
      matching row that was there at the start. */
  lemma {:induction false} PagingIsComplete(journals: seq<seq<Movement>>, f: Filter, limits: seq<int>, cursor: Option<Pos>)
    requires Growing(journals) && |limits| == |journals|
    ensures
      var c := Collect(journals, f, limits, cursor);
      && Descending(c.items)
      && (forall m :: m in c.items ==> Wanted(m, f, cursor) && InSome(journals, m))
      && (c.done ==> forall m :: m in journals[0] && Wanted(m, f, cursor) ==> m in c.items)
  {
    if journals != [] {
      var page := PageOf(journals[0], f, cursor, PageLimit(limits[0]));
      PageIsTop(journals[0], f, cursor, PageLimit(limits[0]));
      if page.next.Some? {
        GrowingTail(journals);
        PagingIsComplete(journals[1..], f, limits[1..], page.next);
        JoinPages(journals, f, limits, cursor, page, Collect(journals[1..], f, limits[1..], page.next));
      } else {
        assert forall m :: m in page.items ==> InSome(journals, m);
      }
    }
  }

  lemma JoinPages(journals: seq<seq<Movement>>, f: Filter, limits: seq<int>, cursor: Option<Pos>, page: Page, rest: Collected)
    requires journals != [] && Growing(journals) && page.next.Some?
    requires Descending(page.items) && Descending(rest.items)
    requires forall m :: m in page.items ==> m in journals[0] && Wanted(m, f, cursor) && !Below(PosOf(m), page.next.value)
    requires cursor.Some? ==> Below(page.next.value, cursor.value)
    requires forall m :: m in journals[0] && Wanted(m, f, cursor) ==> m in page.items || Below(PosOf(m), page.next.value)
    requires forall m :: m in rest.items ==> Wanted(m, f, page.next) && InSome(journals[1..], m)
    requires rest.done ==> |journals| > 1 && forall m :: m in journals[1] && Wanted(m, f, page.next) ==> m in rest.items
    ensures
      var items := page.items + rest.items;
      && Descending(items)
      && (forall m :: m in items ==> Wanted(m, f, cursor) && InSome(journals, m))
      && (rest.done ==> forall m :: m in journals[0] && Wanted(m, f, cursor) ==> m in items)
  {
    var items := page.items + rest.items;
    forall m | m in rest.items ensures Wanted(m, f, cursor) && InSome(journals, m) {
      var k :| 0 <= k < |journals[1..]| && m in journals[1..][k];
      assert m in journals[k + 1];
    }
    forall i, j | 0 <= i < j < |items| ensures Below(PosOf(items[j]), PosOf(items[i])) {
      if i < |page.items| <= j {
        assert items[i] in page.items && items[j] in rest.items;
        assert Below(PosOf(items[j]), page.next.value);
      }
    }
    forall m | rest.done && m in journals[0] && Wanted(m, f, cursor) ensures m in items {
      if m !in page.items { assert m in journals[1]; }
    }
  }

  // ---- Limits and filters ----

  /** A page holds 50 rows unless another size from 1 to 200 is asked for; more is held to 200. */
  lemma PageSizes(limit: int)
    ensures PageLimit(limit) == if limit <= 0 then 50 else if limit > 200 then 200 else limit
  {
  }

  /** Each filter keeps the rows it names; the period includes its beginning but not its end,
      and an empty filter keeps everything. */
  lemma FilterMeans(m: Movement, f: Filter)
    ensures f == Filter(None, None, None, None, None) ==> Matches(m, f)
    ensures Matches(m, f) <==>
              && (f.item == None || f.item == Some(m.item)) && (f.kind == None || f.kind == Some(m.kind))
              && (f.author == None || (m.author.Some? && f.author == Some(m.author.value)))
              && (f.from == None || (exists t :: f.from == Some(t) && t <= m.at))
              && (f.to == None || (exists t :: f.to == Some(t) && m.at < t))
  {
    assert f.from.Some? ==> f.from == Some(f.from.value);
    assert f.to.Some? ==> f.to == Some(f.to.value);
  }

  /** Adjoining periods share no row and miss none. */
  lemma PeriodsAdjoin(m: Movement, f: Filter, a: Moment, b: Moment, c: Moment)
    requires a <= b <= c
    ensures
      var first, second := Matches(m, f.(from := Some(a), to := Some(b))), Matches(m, f.(from := Some(b), to := Some(c)));
      !(first && second) && (Matches(m, f.(from := Some(a), to := Some(c))) <==> first || second)
  {
  }
}
