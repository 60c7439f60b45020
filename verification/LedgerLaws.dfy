/** What single ledger operations do: their effect, their repetition and their undoing. */
module LedgerLaws {
  import opened Options
  import opened Quantity
  import opened Identifiers
  import opened Catalog
  import opened Journal

  /** The change a movement of a kind makes: outgoing kinds lower, incoming kinds raise the
      balance whatever sign was asked for; the others keep their sign. */
  predicate SignedFor(kind: Kind, asked: Qty, change: Qty) {
    && Abs(change) == Abs(asked)
    && (kind == Usage || kind == Writeoff ==> change <= 0)
    && (kind == Opening || kind == Receipt ==> change >= 0)
    && (kind == Adjustment || kind == Reversal ==> change == asked)
  }

  /** A recorded request adds one row and moves one balance by its signed quantity. */
  lemma RecordEffect(w: World, l: Ledger, r: Request)
    requires Record(w, l, r).Done? && Replay(l, r).None?
    ensures
      var n := Record(w, l, r).value;
      && |n.journal| == |l.journal| + 1 && l.journal <= n.journal
      && var m := n.journal[|l.journal|];
         && SignedFor(r.kind, r.qty, m.qty) && m.item == r.item && m.key == r.key
         && forall item: Uuid :: n.OnHand(item) == l.OnHand(item) + if item == r.item then m.qty else 0
  {
  }

  /** A movement is refused for lack of stock exactly when the item may be moved and the
      balance would go below zero; the error carries what there is and what was asked for. */
  lemma InsufficientIff(w: World, l: Ledger, r: Request)
    requires Replay(l, r).None?
    ensures Record(w, l, r) == Fail(InsufficientStock(l.OnHand(r.item), Abs(r.qty)))
            <==> r.item in w.items && !w.items[r.item].archived && l.OnHand(r.item) + SignedQty(r.kind, r.qty) < 0
  {
  }

  /** Whatever a repeated request says, a key already used changes nothing. */
  lemma RepeatChangesNothing(w: World, l: Ledger, first: Request, again: Request)
    requires Record(w, l, first).Done? && first.key != "" && again.key == first.key
    ensures Record(w, Record(w, l, first).value, again) == Record(w, l, first)
  {
    var n := Record(w, l, first).value;
    ByKeyFinds(l.journal, first.key);
    ByKeyFinds(n.journal, first.key);
    assert Replay(l, first).None? ==> n.journal[|l.journal|].key == first.key && n.journal[|l.journal|] in n.journal;
  }

  /** A key is known by any row that carries it; no key at all is never known. */
  lemma KeyKnownIff(w: World, l: Ledger, r: Request)
    ensures Replay(l, r).Some? <==> r.key != "" && exists m :: m in l.journal && m.key == r.key
    ensures Replay(l, r).Some? ==> Record(w, l, r) == Done(l)
  {
    ByKeyFinds(l.journal, r.key);
  }

  lemma {:induction false} ByIdIs(journal: seq<Movement>, k: nat)
    requires k < |journal| && forall i, j :: 0 <= i < j < |journal| ==> !Clash(journal[i], journal[j])
    ensures ById(journal, journal[k].id) == Some(journal[k])
  {
    if k > 0 { ByIdIs(journal[1..], k - 1); }
  }

  /** Reversing the movement just recorded restores every balance. */
  lemma ReverseUndoes(w: World, l: Ledger, r: Request, u: Undo)
    requires Sound(l) && Record(w, l, r).Done? && Replay(l, r).None? && u.target == r.id
    requires Reverse(w, Record(w, l, r).value, u).Done?
    ensures forall item: Uuid :: Reverse(w, Record(w, l, r).value, u).value.OnHand(item) == l.OnHand(item)
  {
    var n := Record(w, l, r).value;
    RecordSound(w, l, r);
    ByIdIs(n.journal, |l.journal|);
  }

  /** A reversal can neither be repeated nor reversed itself. */
  lemma ReversedOnce(w: World, l: Ledger, u: Undo, again: Undo)
    requires Sound(l) && Reverse(w, l, u).Done?
    ensures again.target == u.target ==>
              Reverse(w, Reverse(w, l, u).value, again) in {Fail(AlreadyReversed), Fail(CannotReverse)}
    ensures again.target == u.id ==> Reverse(w, Reverse(w, l, u).value, again) == Fail(CannotReverse)
  {
    var n := Reverse(w, l, u).value;
    ReverseSound(w, l, u);
    var m := n.journal[|l.journal|];
    assert m in n.journal && m.reverses == Some(u.target);
    ByIdFinds(l.journal, u.target);
    ByIdFinds(n.journal, u.target);
    var original := ById(l.journal, u.target).value;
    assert original in n.journal;
    ByIdIs(n.journal, |l.journal|);
  }

  /** A movement can be reversed exactly when it exists, is no reversal and has none yet, the
      caller may, the row's identifier is new and the stock still covers it. */
  lemma ReverseSucceedsIff(w: World, l: Ledger, u: Undo, k: nat)
    requires Sound(l) && k < |l.journal| && l.journal[k].id == u.target
    requires RowAllowed(l.journal[k])
    ensures
      var m := l.journal[k];
      Reverse(w, l, u).Done? <==>
        && m.kind != Reversal
        && (u.reverseOthers || m.author == Some(u.author))
        && (forall x :: x in l.journal ==> x.reverses != Some(u.target) && x.id != u.id)
        && 0 <= l.OnHand(m.item) - m.qty < LIMIT
  {
    var m := l.journal[k];
    ByIdIs(l.journal, k);
    var row := ReversalRow(w, m, u);
    InsertErrorIff(l.journal, row);
    assert RowAllowed(row);
  }

  // ---- What is written, and when ----

  predicate GivesReason(r: Request) {
    r.reason == "spoiled" || r.reason == "broken" || r.reason == "expired" || r.reason == "tasting" || r.reason == "other"
  }

  /** A movement may be dated from seven days back to five minutes ahead; nothing needs a
      quantity of zero, and a write-off needs one of five reasons. */
  lemma ValidIff(w: World, r: Request)
    ensures
      var at := if r.at.Some? then r.at.value else w.now;
      Validate(w, r).None? <==>
        && r.qty != 0
        && (r.kind == Writeoff ==> GivesReason(r))
        && w.now - 604_800_000_000_000 <= at <= w.now + 300_000_000_000
  {
  }

  /** The first thing wrong with a request is the one that is told. */
  lemma InvalidBecause(w: World, r: Request)
    ensures
      var at, e := if r.at.Some? then r.at.value else w.now, Validate(w, r);
      var lacksReason := r.kind == Writeoff && !GivesReason(r);
      && (e == Some(ZeroQty) <==> r.qty == 0)
      && (e == Some(NoReason) <==> r.qty != 0 && lacksReason)
      && (e == Some(OccurredInFuture) <==> r.qty != 0 && !lacksReason && at > w.now + 300_000_000_000)
      && (e == Some(OccurredTooOld) <==> r.qty != 0 && !lacksReason && at < w.now - 604_800_000_000_000)
  {
  }

  /** The row of a request: everything it says, dated now unless it says otherwise. */
  lemma RecordedRow(w: World, l: Ledger, r: Request)
    requires Record(w, l, r).Done? && Replay(l, r).None?
    ensures
      var m := Record(w, l, r).value.journal[|l.journal|];
      && m.id == r.id && m.item == r.item && m.kind == r.kind && SignedFor(r.kind, r.qty, m.qty)
      && m.at == (if r.at.Some? then r.at.value else w.now)
      && m.author == r.author && m.reason == r.reason && m.order == r.order && m.count == r.count
      && m.reverses == None && m.key == r.key
  {
  }

  /** The row of a reversal: the opposite quantity of the same item, dated now, in the name of
      who asked for it, with the original's reason and a reference to it. */
  lemma ReversedRow(w: World, l: Ledger, u: Undo, k: nat)
    requires Sound(l) && Reverse(w, l, u).Done? && k < |l.journal| && l.journal[k].id == u.target
    ensures
      var n, original := Reverse(w, l, u).value, l.journal[k];
      && |n.journal| == |l.journal| + 1 && l.journal <= n.journal
      && var m := n.journal[|l.journal|];
         && m.id == u.id && m.item == original.item && m.kind == Reversal && m.qty == -original.qty
         && m.at == w.now && m.author == Some(u.author) && m.reason == original.reason
         && m.order == None && m.count == None && m.reverses == Some(u.target) && m.key == ""
         && forall item: Uuid :: n.OnHand(item) == l.OnHand(item) - if item == original.item then original.qty else 0
  {
    ByIdIs(l.journal, k);
  }

  /** A request under a new key is recorded exactly when its item is in use, its row meets the
      constraints under a new identifier, and the balance stays within its column. */
  lemma RecordSucceedsIff(w: World, l: Ledger, r: Request)
    requires Replay(l, r).None?
    ensures
      Record(w, l, r).Done? <==>
        && r.item in w.items && !w.items[r.item].archived
        && r.kind != Reversal && r.qty != 0 && -100_000_000_000_000 < r.qty < 100_000_000_000_000
        && (r.kind == Writeoff ==> exists i :: 0 <= i < |r.reason| && r.reason[i] != ' ')
        && (forall m :: m in l.journal ==> m.id != r.id)
        && 0 <= l.OnHand(r.item) + SignedQty(r.kind, r.qty) < 100_000_000_000_000
  {
    InsertErrorIff(l.journal, Row(w, r));
    ByKeyFinds(l.journal, r.key);
    assert Blank(r.reason) <==> !exists i :: 0 <= i < |r.reason| && r.reason[i] != ' ';
  }

  /** Why a request under a new key is refused before anything is written. */
  lemma UnavailableBecause(w: World, l: Ledger, r: Request)
    requires Replay(l, r).None?
    ensures r.item !in w.items <==> Record(w, l, r) == Fail(ItemNotFound)
    ensures r.item in w.items && w.items[r.item].archived <==> Record(w, l, r) == Fail(ItemArchived)
  {
  }

  /** Why a reversal is refused. */
  lemma ReverseRefusedBecause(w: World, l: Ledger, u: Undo, k: nat)
    requires Sound(l) && k < |l.journal| && l.journal[k].id == u.target
    ensures
      var m, r := l.journal[k], Reverse(w, l, u);
      var mayNot := m.kind == Reversal || (!u.reverseOthers && m.author != Some(u.author));
      && (r == Fail(CannotReverse) <==> mayNot)
      && (r == Fail(AlreadyReversed) <==> !mayNot && exists x :: x in l.journal && x.reverses == Some(u.target))
      && (r == Fail(InsufficientStock(l.OnHand(m.item), Abs(m.qty))) <==>
            !mayNot && (forall x :: x in l.journal ==> x.reverses != Some(u.target)) && l.OnHand(m.item) < m.qty)
  {
    ByIdIs(l.journal, k);
  }

  /** An unknown movement cannot be reversed. */
  lemma ReverseUnknown(w: World, l: Ledger, u: Undo)
    requires forall m :: m in l.journal ==> m.id != u.target
    ensures Reverse(w, l, u) == Fail(ItemNotFound)
  {
    ByIdFinds(l.journal, u.target);
  }
}
