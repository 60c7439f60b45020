/** The movement journal and the cached balances, changed together. */
module Journal {
  import opened Options
  import opened Quantity
  import opened Identifiers
  import opened DeliveryWindow
  import opened Catalog

  datatype Kind = Opening | Receipt | Usage | Writeoff | Adjustment | Reversal {
    predicate Increases() { Opening? || Receipt? }
    predicate Decreases() { Usage? || Writeoff? }
    predicate CountsAsConsumption() { Usage? || Writeoff? || Adjustment? }
  }

  /** One journal row; an empty reason or key stands for NULL. */
  datatype Movement = Movement(
    id: Uuid,
    item: Uuid,
    kind: Kind,
    qty: Qty,
    at: Moment,
    author: Option<Uuid>,
    reason: string,
    order: Option<Uuid>,
    count: Option<Uuid>,
    reverses: Option<Uuid>,
    key: string)

  datatype Error =
    | ZeroQty | NoReason | OccurredInFuture | OccurredTooOld
    | ItemNotFound | ItemArchived
    | InsufficientStock(onHand: Qty, requested: Qty)
    | DuplicateKey | AlreadyReversed | CannotReverse
    | BadMovement | Storage
    | OrderNotFound | AlreadySent | AlreadyReceived | WrongStatus | EmptyOrder | NegativeReceived
    | CountPosted | NegativeCounted | CountChanged(lines: seq<ChangedLine>)

  datatype ChangedLine = ChangedLine(item: Uuid, expected: Qty, current: Qty, counted: Qty)

  datatype Result<+T> = Done(value: T) | Fail(error: Error) {
    predicate IsFailure() { Fail? }
    function PropagateFailure<U>(): Result<U> requires Fail? { Fail(error) }
    function Extract(): T requires Done? { value }
  }

  // ---- State ----

  /** numeric(14,3): eleven digits before the point. */
  const LIMIT: Qty := 100_000_000_000_000

  /** The journal in commit order and the balance rows. */
  datatype Ledger = Ledger(journal: seq<Movement>, balance: map<Uuid, Qty>) {
    function OnHand(item: Uuid): Qty { if item in balance then balance[item] else 0 }
  }

  function Sum(journal: seq<Movement>, item: Uuid): Qty {
    if journal == [] then 0
    else
      var last := journal[|journal| - 1];
      Sum(journal[..|journal| - 1], item) + if last.item == item then last.qty else 0
  }

  /** Rows the unique indexes keep apart. */
  predicate Clash(a: Movement, b: Movement) {
    a.id == b.id || (a.key != "" && a.key == b.key) || (a.reverses.Some? && a.reverses == b.reverses)
  }

  /** The cache is exactly the journal, no balance is negative or too large for its
      column, and no two rows share an id, an idempotency key or a reversed movement. */
  ghost predicate Sound(l: Ledger) {
    && (forall item: Uuid :: 0 <= l.OnHand(item) == Sum(l.journal, item) < LIMIT)
    && (forall i, j :: 0 <= i < j < |l.journal| ==> !Clash(l.journal[i], l.journal[j]))
  }

  // ---- Statements ----

  predicate Blank(s: string) { forall i :: 0 <= i < |s| ==> s[i] == ' ' }

  /** The CHECK constraints of the journal table. */
  predicate RowAllowed(m: Movement) {
    && m.qty != 0
    && -LIMIT < m.qty < LIMIT
    && (m.kind.Increases() ==> m.qty > 0)
    && (m.kind.Decreases() ==> m.qty < 0)
    && (m.kind.Writeoff? ==> !Blank(m.reason))
    && (m.kind.Reversal? <==> m.reverses.Some?)
  }

  function ById(journal: seq<Movement>, id: Uuid): Option<Movement> {
    if journal == [] then None
    else if journal[0].id == id then Some(journal[0])
    else ById(journal[1..], id)
  }

  function ByKey(journal: seq<Movement>, key: string): Option<Movement> {
    if journal == [] then None
    else if journal[0].key == key then Some(journal[0])
    else ByKey(journal[1..], key)
  }

  predicate Reversed(journal: seq<Movement>, id: Uuid) {
    exists m :: m in journal && m.reverses == Some(id)
  }

  /** What the constraints answer to an INSERT. */
  function InsertError(journal: seq<Movement>, m: Movement): Option<Error> {
    if !RowAllowed(m) then Some(BadMovement)
    else if ById(journal, m.id).Some? then Some(Storage)
    else if m.key != "" && ByKey(journal, m.key).Some? then Some(DuplicateKey)
    else if m.reverses.Some? && Reversed(journal, m.reverses.value) then Some(AlreadyReversed)
    else None
  }

  /** Lock the balance row, check it, insert the movement, change the balance. */
  function Append(l: Ledger, m: Movement): Result<Ledger> {
    var onHand := l.OnHand(m.item);
    if onHand + m.qty < 0 then Fail(InsufficientStock(onHand, Abs(m.qty)))
    else
      var refused := InsertError(l.journal, m);
      if refused.Some? then Fail(refused.value)
      else if onHand + m.qty >= LIMIT then Fail(Storage)
      else Done(Ledger(l.journal + [m], l.balance[m.item := onHand + m.qty]))
  }

  // ---- Recording ----

  const MAX_BACKDATE_DAYS := 7
  const REASONS := ["spoiled", "broken", "expired", "tasting", "other"]

  /** A request to record a movement; `id` is the identifier drawn for its row. */
  datatype Request = Request(
    id: Uuid,
    item: Uuid,
    kind: Kind,
    qty: Qty,
    at: Option<Moment>,
    author: Option<Uuid>,
    reason: string,
    order: Option<Uuid>,
    count: Option<Uuid>,
    key: string)

  function SignedQty(kind: Kind, q: Qty): Qty {
    if kind.Decreases() then -Abs(q) else if kind.Increases() then Abs(q) else q
  }

  function Validate(w: World, r: Request): Option<Error> {
    if r.qty == 0 then Some(ZeroQty)
    else if r.kind.Writeoff? && r.reason !in REASONS then Some(NoReason)
    else
      var at := r.at.Or(w.now);
      if at > w.now + 5 * NS_PER_MINUTE then Some(OccurredInFuture)
      else if at < w.now - MAX_BACKDATE_DAYS * NS_PER_DAY then Some(OccurredTooOld)
      else None
  }

  function Row(w: World, r: Request): Movement {
    Movement(r.id, r.item, r.kind, SignedQty(r.kind, r.qty), r.at.Or(w.now), r.author, r.reason,
             r.order, r.count, None, r.key)
  }

  /** The row an earlier request with the same key left behind. */
  function Replay(l: Ledger, r: Request): Option<Movement> {
    if r.key == "" then None else ByKey(l.journal, r.key)
  }

  function Unavailable(w: World, item: Uuid): Option<Error> {
    if item !in w.items then Some(ItemNotFound)
    else if w.items[item].archived then Some(ItemArchived)
    else None
  }

  /** A validated request as one atomic step; a replay changes nothing. */
  function Record(w: World, l: Ledger, r: Request): Result<Ledger> {
    if Replay(l, r).Some? then Done(l)
    else
      var missing := Unavailable(w, r.item);
      if missing.Some? then Fail(missing.value) else Append(l, Row(w, r))
  }

  // ---- Reversing ----

  /** Undo movement `target`, writing the row `id` on behalf of user `by`. */
  datatype Undo = Undo(id: Uuid, target: Uuid, author: Uuid, reverseOthers: bool)

  function ReversalRefused(original: Movement, u: Undo): bool {
    original.kind.Reversal? || (!u.reverseOthers && original.author != Some(u.author))
  }

  function ReversalRow(w: World, original: Movement, u: Undo): Movement {
    Movement(u.id, original.item, Reversal, -original.qty, w.now, Some(u.author), original.reason,
             None, None, Some(u.target), "")
  }

  function Reverse(w: World, l: Ledger, u: Undo): Result<Ledger> {
    var original := ById(l.journal, u.target);
    if original.None? then Fail(ItemNotFound)
    else if ReversalRefused(original.value, u) then Fail(CannotReverse)
    else if Reversed(l.journal, u.target) then Fail(AlreadyReversed)
    else Append(l, ReversalRow(w, original.value, u))
  }

  // ---- Lookups ----

  lemma {:induction false} ByIdFinds(journal: seq<Movement>, id: Uuid)
    ensures ById(journal, id).Some? <==> exists m :: m in journal && m.id == id
    ensures ById(journal, id).Some? ==> ById(journal, id).value in journal && ById(journal, id).value.id == id
  {
    if journal != [] {
      ByIdFinds(journal[1..], id);
      assert forall m :: m in journal <==> m == journal[0] || m in journal[1..];
    }
  }

  lemma {:induction false} ByKeyFinds(journal: seq<Movement>, key: string)
    ensures ByKey(journal, key).Some? <==> exists m :: m in journal && m.key == key
    ensures ByKey(journal, key).Some? ==> ByKey(journal, key).value in journal && ByKey(journal, key).value.key == key
  {
    if journal != [] {
      ByKeyFinds(journal[1..], key);
      assert forall m :: m in journal <==> m == journal[0] || m in journal[1..];
    }
  }

  /** The unique indexes let a row in exactly when it is allowed and clashes with none. */
  lemma InsertErrorIff(journal: seq<Movement>, m: Movement)
    ensures InsertError(journal, m).None? <==> RowAllowed(m) && forall r :: r in journal ==> !Clash(m, r)
  {
    ByIdFinds(journal, m.id);
    ByKeyFinds(journal, m.key);
  }

  lemma SumAppend(journal: seq<Movement>, m: Movement, item: Uuid)
    ensures Sum(journal + [m], item) == Sum(journal, item) + if m.item == item then m.qty else 0
  {
    assert (journal + [m])[..|journal|] == journal;
  }

  // ---- Every step keeps the ledger sound ----

  lemma AppendSound(l: Ledger, m: Movement)
    requires Sound(l) && Append(l, m).Done?
    ensures Sound(Append(l, m).value)
  {
    var n := Append(l, m).value;
    InsertErrorIff(l.journal, m);
    forall item: Uuid ensures 0 <= n.OnHand(item) == Sum(n.journal, item) < LIMIT {
      SumAppend(l.journal, m, item);
    }
    forall i, j | 0 <= i < j < |n.journal| ensures !Clash(n.journal[i], n.journal[j]) {
      if j == |l.journal| { assert l.journal[i] in l.journal; }
    }
  }

  lemma RecordSound(w: World, l: Ledger, r: Request)
    requires Sound(l) && Record(w, l, r).Done?
    ensures Sound(Record(w, l, r).value)
  {
    if Replay(l, r).None? { AppendSound(l, Row(w, r)); }
  }

  lemma ReverseSound(w: World, l: Ledger, u: Undo)
    requires Sound(l) && Reverse(w, l, u).Done?
    ensures Sound(Reverse(w, l, u).value)
  {
    AppendSound(l, ReversalRow(w, ById(l.journal, u.target).value, u));
  }
}
