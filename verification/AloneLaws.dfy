/** How a transaction ends: alone it answers as its job does, and among others it fails only
    for the same reason or because a key or a reversal was committed meanwhile. */
module AloneLaws {
  import opened Options
  import opened Quantity
  import opened Identifiers
  import opened Catalog
  import opened Journal
  import opened Concurrent

  /** All other transactions have ended. */
  ghost predicate Alone(s: System, t: TxId) { forall u :: u in s.txs && u != t ==> s.txs[u].stage.Ended? }

  /** The steps of one transaction and of nobody else. */
  function Steps(t: TxId, n: nat): seq<Event> { seq(n, _ => Go(t)) }

  ghost function Onward(w: World, s: System, es: seq<Event>): System
    decreases es
  {
    if es == [] then s else Onward(w, Step(w, s, es[0]), es[1..])
  }

  lemma {:induction false} OnwardRun(w: World, s: System, es: seq<Event>)
    ensures Onward(w, s, es) == Run(w, s, es)
    decreases es
  {
    if es != [] {
      OnwardRun(w, Step(w, s, es[0]), es[1..]);
      RunFirst(w, s, es);
    }
  }

  lemma {:induction false} RunFirst(w: World, s: System, es: seq<Event>)
    requires es != []
    ensures Run(w, s, es) == Run(w, Step(w, s, es[0]), es[1..])
  {
    var init := es[..|es| - 1];
    if init != [] {
      RunFirst(w, s, init);
      assert es[1..][..|es[1..]| - 1] == init[1..];
    }
  }

  // ---- Alone ----

  /** The answer a job must get on a ledger: nothing is written again for a key that exists,
      what the job leaves is committed, its error is returned. */
  ghost predicate Answers(w: World, l: Ledger, job: Job, outcome: Outcome, after: Ledger) {
    if job.Write? && job.request.key != "" && exists m :: m in l.journal && m.key == job.request.key then
      outcome.Replayed? && outcome.existing in l.journal && outcome.existing.key == job.request.key && after == l
    else
      match Serial(w, l, job)
      case Done(n) => outcome == Committed && after == n
      case Fail(e) => outcome == Failed(e) && after == l
  }

  /** With nobody else in the way one step leads on. */
  lemma AloneNeverWaits(w: World, s: System, t: TxId)
    requires Inv(w, s) && Alone(s, t) && Open(s, t)
    ensures NextStage(w, s, t).Some?
  {
    NotBlocked(w, s, t);
  }

  function StepsLeft(stage: Stage): nat {
    match stage
    case Begun => 8
    case Found(_) => 7
    case Ready(_) => 6
    case Ensured(_) => 5
    case Locked(_, _) => 4
    case Checked(_) => 3
    case Inserted(_) => 2
    case Applied(_, _) => 1
    case Ended(_) => 0
  }

  /** What the reads done so far have ruled out, while nobody else commits. */
  ghost predicate Read(l: Ledger, tx: Tx) {
    match tx.job
    case Write(r) => tx.stage.HasRow() ==> Replay(l, r).None?
    case Correct(u) => tx.stage.HasRow() ==> !Reversed(l.journal, u.target)
  }

  lemma WriteEnds(w: World, s: System, t: TxId, r: Request)
    requires t in s.txs && s.txs[t].job == Write(r) && !s.txs[t].stage.Ended?
    requires TxInv(w, s.ledger, s.locks, t, s.txs[t]) && NextStage(w, s, t).Some? && Read(s.ledger, s.txs[t])
    ensures
      var stage := NextStage(w, s, t).value;
      && (stage.Ended? && stage != Ended(Committed) ==> Answers(w, s.ledger, Write(r), stage.outcome, s.ledger))
      && (!stage.Ended? ==> Read(s.ledger, Tx(Write(r), stage)) && StepsLeft(stage) < StepsLeft(s.txs[t].stage))
  {
    ByKeyFinds(s.ledger.journal, r.key);
  }

  lemma CorrectEnds(w: World, s: System, t: TxId, u: Undo)
    requires t in s.txs && s.txs[t].job == Correct(u) && !s.txs[t].stage.Ended?
    requires TxInv(w, s.ledger, s.locks, t, s.txs[t]) && NextStage(w, s, t).Some? && Read(s.ledger, s.txs[t])
    ensures
      var stage := NextStage(w, s, t).value;
      && (stage.Ended? && stage != Ended(Committed) ==> Answers(w, s.ledger, Correct(u), stage.outcome, s.ledger))
      && (!stage.Ended? ==> Read(s.ledger, Tx(Correct(u), stage)) && StepsLeft(stage) < StepsLeft(s.txs[t].stage))
  {
  }

  lemma CommitAnswers(w: World, s: System, t: TxId)
    requires Inv(w, s) && t in s.txs && s.txs[t].stage.Applied? && Read(s.ledger, s.txs[t])
    ensures Answers(w, s.ledger, s.txs[t].job, Committed, MoveTo(s, t, Ended(Committed)).ledger)
  {
    CommitIsSerial(w, s, t);
    if s.txs[t].job.Write? { ByKeyFinds(s.ledger.journal, s.txs[t].job.request.key); }
  }

  /** One step of a transaction nobody disturbs: it comes nearer to its end, or ends with the
      right answer. */
  lemma OneStepAlone(w: World, s: System, t: TxId)
    requires Inv(w, s) && Alone(s, t) && Open(s, t) && Read(s.ledger, s.txs[t])
    ensures
      var n := Step(w, s, Go(t));
      && t in n.txs && n.txs[t].job == s.txs[t].job && Alone(n, t)
      && (n.txs[t].stage.Ended? ==> Answers(w, s.ledger, s.txs[t].job, n.txs[t].stage.outcome, n.ledger))
      && (!n.txs[t].stage.Ended? ==>
            n.ledger == s.ledger && Read(n.ledger, n.txs[t]) && StepsLeft(n.txs[t].stage) < StepsLeft(s.txs[t].stage))
  {
    hide Answers, Read, Serial, LocksAfter;
    AloneNeverWaits(w, s, t);
    OnlyAppliedCommits(w, s, t);
    assert TxInv(w, s.ledger, s.locks, t, s.txs[t]);
    if s.txs[t].stage.Applied? {
      CommitAnswers(w, s, t);
    } else {
      match s.txs[t].job
      case Write(r) => WriteEnds(w, s, t, r);
      case Correct(u) => CorrectEnds(w, s, t, u);
    }
  }

  lemma EndedStays(w: World, s: System, t: TxId)
    requires t in s.txs && s.txs[t].stage.Ended?
    ensures Step(w, s, Go(t)) == s
  {
  }

  lemma {:induction false} AloneEnds(w: World, s: System, t: TxId, n: nat)
    requires Inv(w, s) && Alone(s, t) && Open(s, t) && Read(s.ledger, s.txs[t]) && n >= StepsLeft(s.txs[t].stage)
    ensures
      var end := Onward(w, s, Steps(t, n));
      && t in end.txs && end.txs[t].stage.Ended?
      && Answers(w, s.ledger, s.txs[t].job, end.txs[t].stage.outcome, end.ledger)
    decreases n
  {
    hide Answers, Read, StepsLeft, Inv, Step;
    assert n > 0 by { OpenLeft(s.txs[t].stage); }
    var next := Step(w, s, Go(t));
    OneStepAlone(w, s, t);
    StepKeepsInv(w, s, Go(t));
    assert Steps(t, n)[0] == Go(t) && Steps(t, n)[1..] == Steps(t, n - 1);
    if next.txs[t].stage.Ended? {
      StaysEnded(w, next, t, n - 1);
    } else {
      AloneEnds(w, next, t, n - 1);
    }
  }

  lemma OpenLeft(stage: Stage)
    requires !stage.Ended?
    ensures StepsLeft(stage) > 0
  {
  }

  lemma {:induction false} StaysEnded(w: World, s: System, t: TxId, n: nat)
    requires t in s.txs && s.txs[t].stage.Ended?
    ensures Onward(w, s, Steps(t, n)) == s
  {
    if n > 0 {
      EndedStays(w, s, t);
      assert Steps(t, n)[0] == Go(t) && Steps(t, n)[1..] == Steps(t, n - 1);
      StaysEnded(w, s, t, n - 1);
    }
  }

  /** A transaction that arrives when all others have ended, and then takes its steps alone,
      ends after at most eight of them as its job does run on the ledger by itself. */
  lemma AloneLikeSerial(w: World, s: System, t: TxId, job: Job, n: nat)
    requires Inv(w, s) && t !in s.txs && (forall u :: u in s.txs ==> s.txs[u].stage.Ended?) && n >= 8
    ensures
      var end := Run(w, s, [Arrive(t, job)] + Steps(t, n));
      && t in end.txs && end.txs[t].stage.Ended?
      && Answers(w, s.ledger, job, end.txs[t].stage.outcome, end.ledger)
  {
    hide Answers, Inv;
    var es := [Arrive(t, job)] + Steps(t, n);
    var begun := Step(w, s, Arrive(t, job));
    StepKeepsInv(w, s, Arrive(t, job));
    AloneEnds(w, begun, t, n);
    OnwardRun(w, begun, Steps(t, n));
    RunFirst(w, s, es);
    assert es[1..] == Steps(t, n);
  }

  // ---- Among others ----

  /** Why a statement fails: so would the whole job, run now by itself, or the key or the
      reversal of this job is there by now. */
  ghost predicate Explained(w: World, l: Ledger, job: Job, e: Error) {
    || Serial(w, l, job) == Fail(e)
    || (job.Write? && Replay(l, job.request).Some?)
    || (job.Correct? && Reversed(l.journal, job.undo.target))
  }

  lemma FailsForAReason(w: World, s: System, t: TxId, e: Error)
    requires t in s.txs && TxInv(w, s.ledger, s.locks, t, s.txs[t]) && NextStage(w, s, t) == Some(Ended(Failed(e)))
    ensures Explained(w, s.ledger, s.txs[t].job, e)
    ensures s.txs[t].stage.Begun? ==> Serial(w, s.ledger, s.txs[t].job) == Fail(e)
  {
    match s.txs[t].job
    case Write(r) =>
    case Correct(u) =>
  }

  /** Transaction `t` looked for the key of its request, or for a reversal of its movement,
      when only the first i events had happened, and found none. */
  ghost predicate LookedAt(w: World, l: Ledger, es: seq<Event>, i: nat, t: TxId)
    requires i <= |es|
  {
    var s := Run(w, Start(l), es[..i]);
    && t in s.txs
    && match s.txs[t].job
       case Write(r) => s.txs[t].stage.Begun? && Replay(s.ledger, r).None?
       case Correct(u) => s.txs[t].stage.Found? && !Reversed(s.ledger.journal, u.target)
  }

  lemma {:induction false} LookedBefore(w: World, l: Ledger, es: seq<Event>, t: TxId)
    requires t in Run(w, Start(l), es).txs && Run(w, Start(l), es).txs[t].stage.HasRow()
    ensures exists i :: 0 <= i < |es| && LookedAt(w, l, es, i, t)
  {
    var init, e := es[..|es| - 1], es[|es| - 1];
    var p := Run(w, Start(l), init);
    if t in p.txs && p.txs[t].stage.HasRow() {
      LookedBefore(w, l, init, t);
      var i :| 0 <= i < |init| && LookedAt(w, l, init, i, t);
      assert es[..i] == init[..i];
      assert LookedAt(w, l, es, i, t);
    } else {
      StepLooks(w, p, e, t);
      assert LookedAt(w, l, es, |es| - 1, t);
    }
  }

  lemma StepLooks(w: World, p: System, e: Event, t: TxId)
    requires t in Step(w, p, e).txs && Step(w, p, e).txs[t].stage.HasRow() && (t in p.txs ==> !p.txs[t].stage.HasRow())
    ensures t in p.txs
    ensures match p.txs[t].job
            case Write(r) => p.txs[t].stage.Begun? && Replay(p.ledger, r).None?
            case Correct(u) => p.txs[t].stage.Found? && !Reversed(p.ledger.journal, u.target)
  {
  }

  /** In every interleaving a transaction that fails without a crash fails as its job would on
      the committed ledger of that moment, unless somebody has committed its key or a
      reversal of its movement since it looked. */
  lemma FailureExplained(w: World, l: Ledger, es: seq<Event>, t: TxId, e: Error)
    requires Sound(l) && t in Run(w, Start(l), es).txs && !Run(w, Start(l), es).txs[t].stage.Ended?
    requires Step(w, Run(w, Start(l), es), Go(t)).txs[t].stage == Ended(Failed(e))
    ensures
      var s := Run(w, Start(l), es);
      || Serial(w, s.ledger, s.txs[t].job) == Fail(e)
      || (Explained(w, s.ledger, s.txs[t].job, e) && exists i :: 0 <= i < |es| && LookedAt(w, l, es, i, t))
  {
    hide Explained, LookedAt, TxInv;
    var s := Run(w, Start(l), es);
    StartSound(w, l);
    RunKeepsInv(w, Start(l), es);
    assert TxInv(w, s.ledger, s.locks, t, s.txs[t]);
    assert NextStage(w, s, t) == Some(Ended(Failed(e)));
    FailsForAReason(w, s, t, e);
    if s.txs[t].stage.HasRow() {
      LookedBefore(w, l, es, t);
    } else {
      FailsFirst(w, s, t, e);
    }
  }

  lemma FailsFirst(w: World, s: System, t: TxId, e: Error)
    requires t in s.txs && TxInv(w, s.ledger, s.locks, t, s.txs[t]) && NextStage(w, s, t) == Some(Ended(Failed(e)))
    requires !s.txs[t].stage.HasRow()
    ensures Serial(w, s.ledger, s.txs[t].job) == Fail(e)
  {
    match s.txs[t].job
    case Write(r) =>
    case Correct(u) =>
  }

  lemma StartSound(w: World, l: Ledger)
    requires Sound(l)
    ensures Inv(w, Start(l))
  {
  }
}
