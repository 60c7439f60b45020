/** Record and Reverse as interleaved READ COMMITTED transactions.

    Every SQL statement is one step. A transaction sees only committed rows and its own;
    it waits where PostgreSQL would make it wait: on a locked balance row, on a balance
    row another transaction is still inserting, and on a unique index entry another
    transaction has inserted but not committed. It may also fail at any point. */
module Concurrent {
  import opened Options
  import opened Quantity
  import opened Identifiers
  import opened Catalog
  import opened Journal

  type TxId = nat

  datatype Job = Write(request: Request) | Correct(undo: Undo)

  datatype Outcome = Committed | Replayed(existing: Movement) | Failed(error: Error)

  /** How far a transaction has come; `m` is the row it is going to insert. */
  datatype Stage =
    | Begun
    | Found(original: Movement)
    | Ready(m: Movement)
    | Ensured(m: Movement)
    | Locked(m: Movement, onHand: Qty)
    | Checked(m: Movement)
    | Inserted(m: Movement)
    | Applied(m: Movement, onHand: Qty)
    | Ended(outcome: Outcome)
  {
    predicate HoldsLock() { Locked? || Checked? || Inserted? || Applied? }
    predicate HasInserted() { Inserted? || Applied? }
    predicate HasRow() { Ready? || Ensured? || HoldsLock() }
  }

  datatype Tx = Tx(job: Job, stage: Stage)

  /** `log` lists the committed transactions in the order of their commits. */
  datatype System = System(ledger: Ledger, txs: map<TxId, Tx>, locks: map<Uuid, TxId>, log: seq<TxId>)

  function Start(l: Ledger): System { System(l, map[], map[], []) }

  predicate HeldByOther(locks: map<Uuid, TxId>, t: TxId, item: Uuid) { item in locks && locks[item] != t }

  /** Another transaction's uncommitted row occupies an index entry this row needs. */
  ghost predicate WaitsOnIndex(s: System, t: TxId, m: Movement) {
    exists u :: u in s.txs && u != t && s.txs[u].stage.HasInserted() && Clash(m, s.txs[u].stage.m)
  }

  /** The first reads: the idempotency key and the item, or the original movement. */
  function Probe(w: World, l: Ledger, job: Job): Stage {
    match job
    case Write(r) =>
      var existing := Replay(l, r);
      if existing.Some? then Ended(Replayed(existing.value))
      else
        var missing := Unavailable(w, r.item);
        if missing.Some? then Ended(Failed(missing.value)) else Ready(Row(w, r))
    case Correct(u) =>
      var original := ById(l.journal, u.target);
      if original.None? then Ended(Failed(ItemNotFound))
      else if ReversalRefused(original.value, u) then Ended(Failed(CannotReverse))
      else Found(original.value)
  }

  /** Where the next statement of transaction `t` leads; None while it has to wait. */
  ghost function NextStage(w: World, s: System, t: TxId): Option<Stage>
    requires t in s.txs
  {
    match s.txs[t].stage
    case Begun => Some(Probe(w, s.ledger, s.txs[t].job))
    case Found(original) =>
      if s.txs[t].job.Write? then None
      else if Reversed(s.ledger.journal, s.txs[t].job.undo.target) then Some(Ended(Failed(AlreadyReversed)))
      else Some(Ready(ReversalRow(w, original, s.txs[t].job.undo)))
    case Ready(m) =>
      if m.item !in s.ledger.balance && HeldByOther(s.locks, t, m.item) then None else Some(Ensured(m))
    case Ensured(m) =>
      if HeldByOther(s.locks, t, m.item) then None else Some(Locked(m, s.ledger.OnHand(m.item)))
    case Locked(m, onHand) =>
      if onHand + m.qty < 0 then Some(Ended(Failed(InsufficientStock(onHand, Abs(m.qty))))) else Some(Checked(m))
    case Checked(m) =>
      if WaitsOnIndex(s, t, m) then None
      else
        var refused := InsertError(s.ledger.journal, m);
        Some(if refused.Some? then Ended(Failed(refused.value)) else Inserted(m))
    case Inserted(m) =>
      var before := s.ledger.OnHand(m.item);
      if before + m.qty < 0 then Some(Ended(Failed(InsufficientStock(before, Abs(m.qty)))))
      else if before + m.qty >= LIMIT then Some(Ended(Failed(Storage)))
      else Some(Applied(m, before + m.qty))
    case Applied(_, _) => Some(Ended(Committed))
    case Ended(_) => None
  }

  /** Inserting a missing balance row locks it; ending a transaction drops its locks. */
  function LocksAfter(s: System, t: TxId, stage: Stage): map<Uuid, TxId> {
    if stage.Ended? then map item | item in s.locks && s.locks[item] != t :: s.locks[item]
    else if stage.Locked? || (stage.Ensured? && stage.m.item !in s.ledger.balance) then s.locks[stage.m.item := t]
    else s.locks
  }

  /** Everything but a commit leaves the committed ledger alone. */
  function MoveTo(s: System, t: TxId, stage: Stage): System
    requires t in s.txs && (stage == Ended(Committed) ==> s.txs[t].stage.Applied?)
  {
    var from := s.txs[t].stage;
    var n := s.(txs := s.txs[t := Tx(s.txs[t].job, stage)], locks := LocksAfter(s, t, stage));
    if stage == Ended(Committed) then
      n.(ledger := Ledger(s.ledger.journal + [from.m], s.ledger.balance[from.m.item := from.onHand]), log := s.log + [t])
    else n
  }

  /** What may happen next; an event that is not possible changes nothing. */
  datatype Event = Arrive(t: TxId, job: Job) | Go(t: TxId) | Crash(t: TxId)

  ghost function Step(w: World, s: System, e: Event): System {
    match e
    case Arrive(t, job) => if t in s.txs then s else s.(txs := s.txs[t := Tx(job, Begun)])
    case Go(t) => if t in s.txs && NextStage(w, s, t).Some? then MoveTo(s, t, NextStage(w, s, t).value) else s
    case Crash(t) => if t in s.txs && !s.txs[t].stage.Ended? then MoveTo(s, t, Ended(Failed(Storage))) else s
  }

  ghost function Run(w: World, s: System, es: seq<Event>): System {
    if es == [] then s else Step(w, Run(w, s, es[..|es| - 1]), es[|es| - 1])
  }

  // ---- The invariant ----

  /** The row a transaction carries is the one its job calls for. */
  ghost predicate Faithful(w: World, l: Ledger, tx: Tx) {
    match tx.job
    case Write(r) =>
      !tx.stage.Found? && (tx.stage.HasRow() ==> Unavailable(w, r.item).None? && tx.stage.m == Row(w, r))
    case Correct(u) =>
      var original := ById(l.journal, u.target);
      && (tx.stage.Found? ==> original == Some(tx.stage.original) && !ReversalRefused(tx.stage.original, u))
      && (tx.stage.HasRow() ==> original.Some? && !ReversalRefused(original.value, u)
                                && tx.stage.m == ReversalRow(w, original.value, u))
  }

  /** What each stage has established about the committed ledger and the locks. */
  ghost predicate Established(l: Ledger, locks: map<Uuid, TxId>, t: TxId, stage: Stage) {
    && (stage.Ensured? ==> stage.m.item in l.balance || (stage.m.item in locks && locks[stage.m.item] == t))
    && (stage.HoldsLock() ==> stage.m.item in locks && locks[stage.m.item] == t)
    && (stage.Locked? ==> stage.onHand == l.OnHand(stage.m.item))
    && (stage.Checked? || stage.Inserted? ==> l.OnHand(stage.m.item) + stage.m.qty >= 0)
    && (stage.Applied? ==> 0 <= stage.onHand == l.OnHand(stage.m.item) + stage.m.qty < LIMIT)
    && (stage.HasInserted() ==> InsertError(l.journal, stage.m).None?)
  }

  ghost predicate TxInv(w: World, l: Ledger, locks: map<Uuid, TxId>, t: TxId, tx: Tx) {
    Faithful(w, l, tx) && Established(l, locks, t, tx.stage)
  }

  /** Every lock belongs to a transaction working on that item. */
  ghost predicate LocksOwned(s: System) {
    forall item :: item in s.locks ==>
      var t := s.locks[item];
      t in s.txs && (s.txs[t].stage.Ensured? || s.txs[t].stage.HoldsLock()) && s.txs[t].stage.m.item == item
  }

  ghost predicate InsertedApart(s: System) {
    forall t, u :: t in s.txs && u in s.txs && t != u && s.txs[t].stage.HasInserted() && s.txs[u].stage.HasInserted()
      ==> !Clash(s.txs[t].stage.m, s.txs[u].stage.m)
  }

  ghost predicate Logged(s: System) {
    && (forall t :: t in s.log <==> t in s.txs && s.txs[t].stage == Ended(Committed))
    && (forall i, j :: 0 <= i < j < |s.log| ==> s.log[i] != s.log[j])
  }

  ghost predicate Inv(w: World, s: System) {
    && Sound(s.ledger)
    && (forall t :: t in s.txs ==> TxInv(w, s.ledger, s.locks, t, s.txs[t]))
    && LocksOwned(s)
    && InsertedApart(s)
    && Logged(s)
  }

  /** Rows are only ever added, so a row once found stays found. */
  lemma {:induction false} ByIdStable(journal: seq<Movement>, m: Movement, id: Uuid)
    requires ById(journal, id).Some?
    ensures ById(journal + [m], id) == ById(journal, id)
  {
    if journal[0].id != id {
      assert (journal + [m])[1..] == journal[1..] + [m];
      ByIdStable(journal[1..], m, id);
    }
  }

  /** The job as one atomic step on a ledger. */
  function Serial(w: World, l: Ledger, job: Job): Result<Ledger> {
    match job
    case Write(r) => Record(w, l, r)
    case Correct(u) => Reverse(w, l, u)
  }

  /** Committing is the whole job at once, run on the ledger as it stands at that moment. */
  lemma CommitIsSerial(w: World, s: System, t: TxId)
    requires Inv(w, s) && t in s.txs && s.txs[t].stage.Applied?
    ensures Serial(w, s.ledger, s.txs[t].job) == Done(MoveTo(s, t, Ended(Committed)).ledger)
  {
    assert TxInv(w, s.ledger, s.locks, t, s.txs[t]);
    EstablishedIsSerial(w, s.ledger, s.txs[t].job, s.txs[t].stage.m, s.txs[t].stage.onHand);
  }

  lemma EstablishedIsSerial(w: World, l: Ledger, job: Job, m: Movement, onHand: Qty)
    requires Faithful(w, l, Tx(job, Applied(m, onHand)))
    requires InsertError(l.journal, m).None? && 0 <= onHand == l.OnHand(m.item) + m.qty < LIMIT
    ensures Serial(w, l, job) == Done(Ledger(l.journal + [m], l.balance[m.item := onHand]))
  {
    InsertErrorIff(l.journal, m);
    match job
    case Write(r) => ByKeyFinds(l.journal, r.key);
    case Correct(u) => assert Reverse(w, l, u) == Append(l, m);
  }

  /** Another transaction's commit of row `m` takes nothing away from transaction `u`. */
  lemma OthersSurviveCommit(w: World, l: Ledger, locks: map<Uuid, TxId>, left: map<Uuid, TxId>, t: TxId,
                            m: Movement, onHand: Qty, u: TxId, tx: Tx)
    requires t != u && TxInv(w, l, locks, u, tx)
    requires m.item in locks && locks[m.item] == t
    requires left == map item | item in locks && locks[item] != t :: locks[item]
    requires tx.stage.HasInserted() ==> !Clash(tx.stage.m, m)
    ensures TxInv(w, Ledger(l.journal + [m], l.balance[m.item := onHand]), left, u, tx)
  {
    var n := Ledger(l.journal + [m], l.balance[m.item := onHand]);
    if tx.job.Correct? && ById(l.journal, tx.job.undo.target).Some? {
      ByIdStable(l.journal, m, tx.job.undo.target);
    }
    if tx.stage.HasInserted() {
      InsertErrorIff(l.journal, tx.stage.m);
      InsertErrorIff(n.journal, tx.stage.m);
    }
  }

  lemma CommitKeepsInv(w: World, s: System, t: TxId)
    requires Inv(w, s) && t in s.txs && s.txs[t].stage.Applied?
    ensures Inv(w, MoveTo(s, t, Ended(Committed)))
  {
    var n := MoveTo(s, t, Ended(Committed));
    var m, onHand := s.txs[t].stage.m, s.txs[t].stage.onHand;
    CommitIsSerial(w, s, t);
    assert Sound(n.ledger) by {
      match s.txs[t].job
      case Write(r) => RecordSound(w, s.ledger, r);
      case Correct(u) => ReverseSound(w, s.ledger, u);
    }
    forall u | u in n.txs ensures TxInv(w, n.ledger, n.locks, u, n.txs[u]) {
      assert TxInv(w, s.ledger, s.locks, u, s.txs[u]);
      if u != t {
        assert TxInv(w, s.ledger, s.locks, t, s.txs[t]);
        OthersSurviveCommit(w, s.ledger, s.locks, n.locks, t, m, onHand, u, s.txs[u]);
      }
    }
  }

  /** A stage `t` may move to without committing. */
  ghost predicate Movable(w: World, s: System, t: TxId, stage: Stage)
    requires t in s.txs
  {
    var from := s.txs[t].stage;
    && !from.Ended? && stage != Ended(Committed)
    && TxInv(w, s.ledger, LocksAfter(s, t, stage), t, Tx(s.txs[t].job, stage))
    && (from.Ensured? || from.HoldsLock() ==>
          stage.Ended? || ((stage.Ensured? || stage.HoldsLock()) && stage.m.item == from.m.item))
    && (stage.Locked? || (stage.Ensured? && stage.m.item !in s.ledger.balance) ==> !HeldByOther(s.locks, t, stage.m.item))
    && (stage.HasInserted() ==> !WaitsOnIndex(s, t, stage.m))
  }

  lemma MoveKeepsOthers(w: World, s: System, t: TxId, stage: Stage, u: TxId)
    requires Inv(w, s) && t in s.txs && Movable(w, s, t, stage) && u in s.txs && u != t
    ensures TxInv(w, s.ledger, LocksAfter(s, t, stage), u, s.txs[u])
  {
    assert TxInv(w, s.ledger, s.locks, u, s.txs[u]);
    var locks := LocksAfter(s, t, stage);
    assert forall item :: item in s.locks && s.locks[item] == u ==> item in locks && locks[item] == u;
  }

  lemma MoveKeepsLocks(w: World, s: System, t: TxId, stage: Stage)
    requires LocksOwned(s) && t in s.txs && Movable(w, s, t, stage)
    ensures LocksOwned(MoveTo(s, t, stage))
  {
    var n := MoveTo(s, t, stage);
    forall item | item in n.locks
      ensures
        var u := n.locks[item];
        u in n.txs && (n.txs[u].stage.Ensured? || n.txs[u].stage.HoldsLock()) && n.txs[u].stage.m.item == item
    {
      if item in s.locks { assert s.locks[item] in s.txs; }
    }
  }

  lemma MoveKeepsApart(w: World, s: System, t: TxId, stage: Stage)
    requires InsertedApart(s) && t in s.txs && Movable(w, s, t, stage)
    ensures InsertedApart(MoveTo(s, t, stage))
  {
    var n := MoveTo(s, t, stage);
    forall a, b | a in n.txs && b in n.txs && a != b && n.txs[a].stage.HasInserted() && n.txs[b].stage.HasInserted()
      ensures !Clash(n.txs[a].stage.m, n.txs[b].stage.m)
    {
      if b == t { assert !Clash(n.txs[b].stage.m, n.txs[a].stage.m); }
    }
  }

  lemma MoveKeepsInv(w: World, s: System, t: TxId, stage: Stage)
    requires Inv(w, s) && t in s.txs && Movable(w, s, t, stage)
    ensures Inv(w, MoveTo(s, t, stage))
  {
    var n := MoveTo(s, t, stage);
    MoveKeepsLocks(w, s, t, stage);
    MoveKeepsApart(w, s, t, stage);
    forall u | u in n.txs ensures TxInv(w, n.ledger, n.locks, u, n.txs[u]) {
      if u != t { MoveKeepsOthers(w, s, t, stage, u); }
    }
    assert Logged(n) by {
      assert forall u :: u in s.log ==> u != t;
    }
  }

  /** Every statement short of the commit leads to a stage it has established. */
  lemma NextMovable(w: World, s: System, t: TxId)
    requires t in s.txs && TxInv(w, s.ledger, s.locks, t, s.txs[t])
    requires NextStage(w, s, t).Some? && !s.txs[t].stage.Applied?
    requires s.txs[t].stage.Inserted? ==> !WaitsOnIndex(s, t, s.txs[t].stage.m)
    ensures Movable(w, s, t, NextStage(w, s, t).value)
  {
    var stage := NextStage(w, s, t).value;
    var locks := LocksAfter(s, t, stage);
    match s.txs[t].stage
    case Begun => assert Established(s.ledger, locks, t, stage);
    case Found(_) => assert Established(s.ledger, locks, t, stage);
    case Ready(_) => assert Established(s.ledger, locks, t, stage);
    case Ensured(_) => assert Established(s.ledger, locks, t, stage);
    case Locked(_, _) => assert Established(s.ledger, locks, t, stage);
    case Checked(_) => assert Established(s.ledger, locks, t, stage);
    case Inserted(_) => assert Established(s.ledger, locks, t, stage);
  }

  lemma NextKeepsInv(w: World, s: System, t: TxId)
    requires Inv(w, s) && t in s.txs && NextStage(w, s, t).Some?
    ensures Inv(w, MoveTo(s, t, NextStage(w, s, t).value))
  {
    if s.txs[t].stage.Applied? {
      CommitKeepsInv(w, s, t);
    } else {
      NextMovable(w, s, t);
      MoveKeepsInv(w, s, t, NextStage(w, s, t).value);
    }
  }

  lemma StepKeepsInv(w: World, s: System, e: Event)
    requires Inv(w, s)
    ensures Inv(w, Step(w, s, e))
  {
    match e
    case Arrive(t, job) =>
      var n := Step(w, s, e);
      forall u | u in n.txs ensures TxInv(w, n.ledger, n.locks, u, n.txs[u]) {
        if u in s.txs { assert TxInv(w, s.ledger, s.locks, u, s.txs[u]); }
      }
    case Go(t) =>
      if t in s.txs && NextStage(w, s, t).Some? { NextKeepsInv(w, s, t); }
    case Crash(t) =>
      if t in s.txs && !s.txs[t].stage.Ended? {
        MoveKeepsInv(w, s, t, Ended(Failed(Storage)));
      }
  }

  lemma {:induction false} RunKeepsInv(w: World, s: System, es: seq<Event>)
    requires Inv(w, s)
    ensures Inv(w, Run(w, s, es))
  {
    if es != [] {
      RunKeepsInv(w, s, es[..|es| - 1]);
      StepKeepsInv(w, Run(w, s, es[..|es| - 1]), es[|es| - 1]);
    }
  }

  // ---- Serializability ----

  /** The committed jobs run one after another, each of them succeeding. */
  function SerialRun(w: World, l: Ledger, jobs: seq<Job>): Result<Ledger> {
    if jobs == [] then Done(l)
    else
      var before :- SerialRun(w, l, jobs[..|jobs| - 1]);
      Serial(w, before, jobs[|jobs| - 1])
  }

  function Jobs(s: System): seq<Job>
    requires forall t :: t in s.log ==> t in s.txs
  {
    seq(|s.log|, i requires 0 <= i < |s.log| => assert s.log[i] in s.log; s.txs[s.log[i]].job)
  }

  /** A step changes the committed ledger only by committing one transaction. */
  lemma StepCommits(w: World, s: System, e: Event)
    ensures
      var n := Step(w, s, e);
      && (forall t :: t in s.txs ==> t in n.txs && n.txs[t].job == s.txs[t].job)
      && ((n.ledger == s.ledger && n.log == s.log) ||
          (e.Go? && e.t in s.txs && s.txs[e.t].stage.Applied? && n == MoveTo(s, e.t, Ended(Committed))))
  {
    if e.Go? && e.t in s.txs && NextStage(w, s, e.t).Some? { OnlyAppliedCommits(w, s, e.t); }
  }

  lemma OnlyAppliedCommits(w: World, s: System, t: TxId)
    requires t in s.txs && NextStage(w, s, t).Some?
    ensures NextStage(w, s, t).value == Ended(Committed) <==> s.txs[t].stage.Applied?
  {
  }

  /** Under every interleaving the committed ledger is the one the committed jobs
      produce when run one by one in commit order, and it is sound. */
  lemma {:induction false} Serializable(w: World, l: Ledger, es: seq<Event>)
    requires Sound(l)
    ensures Inv(w, Run(w, Start(l), es))
    ensures var s := Run(w, Start(l), es); SerialRun(w, l, Jobs(s)) == Done(s.ledger)
  {
    RunKeepsInv(w, Start(l), es);
    if es != [] {
      var p := Run(w, Start(l), es[..|es| - 1]);
      var e := es[|es| - 1];
      Serializable(w, l, es[..|es| - 1]);
      StepCommits(w, p, e);
      var s := Step(w, p, e);
      if s.log == p.log {
        SameJobs(p, s);
        assert Jobs(s) == Jobs(p);
      } else {
        CommitIsSerial(w, p, e.t);
        CommitAppendsJob(p, e.t);
        SerialAppend(w, l, Jobs(p), p.txs[e.t].job);
      }
    }
  }

  lemma SerialAppend(w: World, l: Ledger, jobs: seq<Job>, job: Job)
    ensures SerialRun(w, l, jobs).Done? ==> SerialRun(w, l, jobs + [job]) == Serial(w, SerialRun(w, l, jobs).value, job)
  {
    assert (jobs + [job])[..|jobs|] == jobs;
  }

  lemma SameJobs(p: System, s: System)
    requires forall t :: t in p.txs ==> t in s.txs && s.txs[t].job == p.txs[t].job
    requires forall t :: t in p.log ==> t in p.txs
    requires p.log <= s.log && forall t :: t in s.log ==> t in p.txs
    ensures Jobs(p) == Jobs(s)[..|p.log|]
  {
    forall i | 0 <= i < |p.log| ensures Jobs(p)[i] == Jobs(s)[i] {
      assert p.log[i] in p.log;
    }
  }

  lemma CommitAppendsJob(p: System, t: TxId)
    requires t in p.txs && p.txs[t].stage.Applied? && forall u :: u in p.log ==> u in p.txs
    ensures var s := MoveTo(p, t, Ended(Committed));
            (forall u :: u in s.log ==> u in s.txs) && Jobs(s) == Jobs(p) + [p.txs[t].job]
  {
    var s := MoveTo(p, t, Ended(Committed));
    assert forall u :: u in s.log <==> u in p.log || u == t;
    SameJobs(p, s);
  }

  // ---- Progress ----

  predicate Open(s: System, t: TxId) { t in s.txs && !s.txs[t].stage.Ended? }

  /** A transaction waits for a balance row or for an index entry, nothing else. */
  ghost predicate Blocked(s: System, t: TxId)
    requires t in s.txs
  {
    match s.txs[t].stage
    case Ready(m) => m.item !in s.ledger.balance && HeldByOther(s.locks, t, m.item)
    case Ensured(m) => HeldByOther(s.locks, t, m.item)
    case Checked(m) => WaitsOnIndex(s, t, m)
    case _ => false
  }

  lemma NotBlocked(w: World, s: System, t: TxId)
    requires Inv(w, s) && Open(s, t)
    ensures NextStage(w, s, t).None? <==> Blocked(s, t)
  {
    assert TxInv(w, s.ledger, s.locks, t, s.txs[t]);
  }

  /** Record and Reverse alone never deadlock: each locks a single balance row, and
      whoever holds an index entry waits for nobody. */
  lemma NoDeadlock(w: World, s: System, t: TxId) returns (u: TxId)
    requires Inv(w, s) && Open(s, t)
    ensures Open(s, u) && NextStage(w, s, u).Some?
  {
    u := t;
    if Blocked(s, u) && !s.txs[u].stage.Checked? {
      u := s.locks[s.txs[u].stage.m.item];
      assert TxInv(w, s.ledger, s.locks, u, s.txs[u]);
    }
    if Blocked(s, u) {
      u :| u in s.txs && s.txs[u].stage.HasInserted();
    }
    NotBlocked(w, s, u);
  }

  // ---- Many write-offs of one item ----

  /** A valid request to take `q` of `item` out, clashing with nothing already recorded. */
  ghost predicate TakesOut(w: World, l: Ledger, item: Uuid, q: Qty, job: Job) {
    && job.Write? && job.request.item == item
    && Unavailable(w, item).None?
    && Row(w, job.request).qty == -q
    && RowAllowed(Row(w, job.request))
    && forall m :: m in l.journal ==> !Clash(Row(w, job.request), m)
  }

  /** All transactions take `q` of `item` out, under different ids and keys. */
  ghost predicate AllTakeOut(w: World, l: Ledger, item: Uuid, q: Qty, txs: map<TxId, Tx>) {
    && (forall t :: t in txs ==> TakesOut(w, l, item, q, txs[t].job))
    && (forall t, u :: t in txs && u in txs && t != u ==> !Clash(Row(w, txs[t].job.request), Row(w, txs[u].job.request)))
  }

  /** Rows of the journal are the initial ones and those of committed transactions. */
  ghost predicate Origin(w: World, l: Ledger, s: System) {
    forall m :: m in s.ledger.journal ==>
      m in l.journal || exists t :: t in s.log && t in s.txs && s.txs[t].job.Write? && m == Row(w, s.txs[t].job.request)
  }

  /** Each commit took `q` out; whoever ended otherwise did so for lack of stock. */
  ghost predicate TakenOut(w: World, l: Ledger, item: Uuid, q: Qty, s: System) {
    && Origin(w, l, s)
    && s.ledger.OnHand(item) == l.OnHand(item) - |s.log| * q
    && forall t :: t in s.txs && s.txs[t].stage.Ended? && s.txs[t].stage != Ended(Committed) ==> s.ledger.OnHand(item) < q
  }

  ghost predicate TakeOutInv(w: World, l: Ledger, item: Uuid, q: Qty, s: System) {
    Inv(w, s) && TakenOut(w, l, item, q, s)
  }

  /** Nothing in the journal clashes with the row of a transaction that has not committed. */
  lemma NoClash(w: World, l: Ledger, item: Uuid, q: Qty, s: System, t: TxId)
    requires TakeOutInv(w, l, item, q, s) && AllTakeOut(w, l, item, q, s.txs) && Open(s, t)
    ensures var r := s.txs[t].job.request; Replay(s.ledger, r).None? && InsertError(s.ledger.journal, Row(w, r)).None?
  {
    var r := s.txs[t].job.request;
    forall m | m in s.ledger.journal ensures !Clash(Row(w, r), m) {
      if m !in l.journal {
        var u :| u in s.log && u in s.txs && s.txs[u].job.Write? && m == Row(w, s.txs[u].job.request);
        assert u != t;
      }
    }
    ByKeyFinds(s.ledger.journal, r.key);
    InsertErrorIff(s.ledger.journal, Row(w, r));
  }

  lemma TakeOutNext(w: World, l: Ledger, item: Uuid, q: Qty, s: System, t: TxId)
    requires q > 0
    requires TakeOutInv(w, l, item, q, s) && AllTakeOut(w, l, item, q, s.txs)
    requires t in s.txs && NextStage(w, s, t).Some? && !s.txs[t].stage.Applied?
    ensures var stage := NextStage(w, s, t).value;
      stage != Ended(Committed) && (stage.Ended? ==> s.ledger.OnHand(item) < q)
  {
    assert TxInv(w, s.ledger, s.locks, t, s.txs[t]);
    NoClash(w, l, item, q, s, t);
    assert |s.log| * q >= 0;
  }

  lemma CommitOrigin(w: World, l: Ledger, s: System, t: TxId)
    requires Origin(w, l, s) && t in s.txs && s.txs[t].stage.Applied? && s.txs[t].job.Write?
    requires s.txs[t].stage.m == Row(w, s.txs[t].job.request)
    requires forall u :: u in s.log ==> u in s.txs && u != t
    ensures Origin(w, l, MoveTo(s, t, Ended(Committed)))
  {
    var n := MoveTo(s, t, Ended(Committed));
    assert t in n.log;
    forall m | m in n.ledger.journal && m !in l.journal
      ensures exists u :: u in n.log && u in n.txs && n.txs[u].job.Write? && m == Row(w, n.txs[u].job.request)
    {
      if m in s.ledger.journal {
        var u :| u in s.log && u in s.txs && s.txs[u].job.Write? && m == Row(w, s.txs[u].job.request);
        assert u in n.log && n.txs[u].job == s.txs[u].job;
      } else {
        assert m == s.txs[t].stage.m;
      }
    }
  }

  lemma TakeOutCommit(w: World, l: Ledger, item: Uuid, q: Qty, s: System, t: TxId)
    requires q > 0 && TakenOut(w, l, item, q, s)
    requires t in s.txs && s.txs[t].stage.Applied? && s.txs[t].job.Write?
    requires s.txs[t].stage.m == Row(w, s.txs[t].job.request) && s.txs[t].stage.m.item == item
    requires s.txs[t].stage.onHand == s.ledger.OnHand(item) - q
    requires forall u :: u in s.log ==> u in s.txs && u != t
    ensures TakenOut(w, l, item, q, MoveTo(s, t, Ended(Committed)))
  {
    var n := MoveTo(s, t, Ended(Committed));
    CommitOrigin(w, l, s, t);
    assert |n.log| * q == |s.log| * q + q;
  }

  /** Any other step leaves the stock alone, and may only fail for lack of stock. */
  lemma TakeOutMove(w: World, l: Ledger, item: Uuid, q: Qty, s: System, n: System)
    requires TakenOut(w, l, item, q, s) && n.ledger == s.ledger && n.log == s.log
    requires forall t :: t in s.txs ==> t in n.txs && n.txs[t].job == s.txs[t].job
    requires forall t :: t in n.txs && n.txs[t].stage.Ended? && n.txs[t].stage != Ended(Committed) ==>
               (t in s.txs && n.txs[t] == s.txs[t]) || s.ledger.OnHand(item) < q
    ensures TakenOut(w, l, item, q, n)
  {
    OriginKept(w, l, s, n);
  }

  lemma TakeOutStep(w: World, l: Ledger, item: Uuid, q: Qty, s: System, e: Event)
    requires q > 0 && !e.Crash?
    requires TakeOutInv(w, l, item, q, s) && AllTakeOut(w, l, item, q, s.txs)
    ensures TakeOutInv(w, l, item, q, Step(w, s, e))
  {
    StepKeepsInv(w, s, e);
    if e.Go? && e.t in s.txs && NextStage(w, s, e.t).Some? {
      TakeOutGo(w, l, item, q, s, e.t);
    } else if e.Arrive? {
      TakeOutMove(w, l, item, q, s, Step(w, s, e));
    }
  }

  lemma TakeOutGo(w: World, l: Ledger, item: Uuid, q: Qty, s: System, t: TxId)
    requires q > 0
    requires TakeOutInv(w, l, item, q, s) && AllTakeOut(w, l, item, q, s.txs)
    requires t in s.txs && NextStage(w, s, t).Some?
    ensures TakenOut(w, l, item, q, MoveTo(s, t, NextStage(w, s, t).value))
  {
    if s.txs[t].stage.Applied? {
      assert TxInv(w, s.ledger, s.locks, t, s.txs[t]);
      assert TakesOut(w, l, item, q, s.txs[t].job);
      TakeOutCommit(w, l, item, q, s, t);
    } else {
      TakeOutNext(w, l, item, q, s, t);
      TakeOutMoved(w, l, item, q, s, t, NextStage(w, s, t).value);
    }
  }

  lemma TakeOutMoved(w: World, l: Ledger, item: Uuid, q: Qty, s: System, t: TxId, stage: Stage)
    requires TakenOut(w, l, item, q, s) && t in s.txs && stage != Ended(Committed)
    requires stage.Ended? ==> s.ledger.OnHand(item) < q
    ensures TakenOut(w, l, item, q, MoveTo(s, t, stage))
  {
    TakeOutMove(w, l, item, q, s, MoveTo(s, t, stage));
  }

  lemma OriginKept(w: World, l: Ledger, s: System, n: System)
    requires Origin(w, l, s) && n.ledger == s.ledger && n.log == s.log
    requires forall t :: t in s.txs ==> t in n.txs && n.txs[t].job == s.txs[t].job
    ensures Origin(w, l, n)
  {
    forall m | m in n.ledger.journal && m !in l.journal
      ensures exists u :: u in n.log && u in n.txs && n.txs[u].job.Write? && m == Row(w, n.txs[u].job.request)
    {
      var u :| u in s.log && u in s.txs && s.txs[u].job.Write? && m == Row(w, s.txs[u].job.request);
      assert u in n.log && n.txs[u].job == s.txs[u].job;
    }
  }

  lemma {:induction false} TakeOutRun(w: World, l: Ledger, item: Uuid, q: Qty, es: seq<Event>)
    requires Sound(l) && q > 0
    requires forall e :: e in es ==> !e.Crash?
    requires AllTakeOut(w, l, item, q, Run(w, Start(l), es).txs)
    ensures TakeOutInv(w, l, item, q, Run(w, Start(l), es))
  {
    if es != [] {
      var before := es[..|es| - 1];
      var p, s := Run(w, Start(l), before), Run(w, Start(l), es);
      RunKeepsInv(w, Start(l), before);
      StepCommits(w, p, es[|es| - 1]);
      assert AllTakeOut(w, l, item, q, p.txs) by {
        forall t | t in p.txs ensures t in s.txs && s.txs[t].job == p.txs[t].job {}
      }
      TakeOutRun(w, l, item, q, before);
      TakeOutStep(w, l, item, q, p, es[|es| - 1]);
    }
  }

  /** Of N concurrent write-offs of q from a stock of S, once all have ended without
      crashes, exactly min(N, S div q) have committed. */
  lemma ExactlyEnoughCommit(w: World, l: Ledger, item: Uuid, q: Qty, es: seq<Event>)
    requires Sound(l) && q > 0
    requires forall e :: e in es ==> !e.Crash?
    requires AllTakeOut(w, l, item, q, Run(w, Start(l), es).txs)
    requires forall t :: t in Run(w, Start(l), es).txs ==> Run(w, Start(l), es).txs[t].stage.Ended?
    ensures
      var s := Run(w, Start(l), es);
      var n, most := |s.txs|, l.OnHand(item) / q;
      |s.log| == if n < most then n else most
  {
    var s := Run(w, Start(l), es);
    var c := |s.log|;
    TakeOutRun(w, l, item, q, es);
    DistinctCount(s.log);
    var logged := set t | t in s.log;
    forall t | t in logged ensures t in s.txs.Keys {}
    SubsetSize(logged, s.txs.Keys);
    assert s.ledger.OnHand(item) >= 0;
    if t :| t in s.txs && s.txs[t].stage != Ended(Committed) {
      DivUnique(l.OnHand(item), q, c);
    } else {
      forall t | t in s.txs.Keys ensures t in logged {}
      assert logged == s.txs.Keys;
      DivMonotone(c * q, l.OnHand(item), q);
      DivUnique(c * q, q, c);
    }
  }

  lemma {:induction false} DistinctCount<T>(xs: seq<T>)
    requires forall i, j :: 0 <= i < j < |xs| ==> xs[i] != xs[j]
    ensures |set x | x in xs| == |xs|
  {
    if xs != [] {
      var init, last := xs[..|xs| - 1], xs[|xs| - 1];
      DistinctCount(init);
      assert (set x | x in xs) == (set x | x in init) + {last};
    }
  }

  lemma {:induction false} SubsetSize<T>(a: set<T>, b: set<T>)
    requires a <= b
    ensures |a| <= |b|
  {
    assert b == a + (b - a);
  }
}
