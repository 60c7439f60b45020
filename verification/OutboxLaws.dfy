/** What passes and workers keep of the delivery queue. */
module OutboxLaws {
  import opened DeliveryWindow
  import opened Outbox

  function Count(log: seq<nat>, r: nat): nat {
    if log == [] then 0 else Count(log[..|log| - 1], r) + if log[|log| - 1] == r then 1 else 0
  }

  lemma CountOne(log: seq<nat>, x: nat, r: nat)
    ensures Count(log + [x], r) == Count(log, r) + if x == r then 1 else 0
  {
    assert (log + [x])[..|log|] == log;
  }

  // ---- Passes one after another ----

  /** Every send belongs to an attempt; a message still pending has attempts left for each
      result that was kept. */
  ghost predicate RowInv(q: Queue, r: nat)
    requires r < |q.rows|
  {
    && Count(q.calls, r) <= q.rows[r].attempts
    && q.rows[r].attempts <= MAX_ATTEMPTS + Count(q.lost, r)
    && (q.rows[r].state == Pending ==> q.rows[r].attempts < MAX_ATTEMPTS + Count(q.lost, r))
  }

  ghost predicate QueueInv(q: Queue) { forall r :: 0 <= r < |q.rows| ==> RowInv(q, r) }

  /** Between claim and delivery: the jobs from the k-th on have been claimed, not sent. */
  ghost predicate InPass(q: Queue, jobs: seq<Job>, k: nat)
    requires k <= |jobs|
  {
    && Fits(q, jobs)
    && (forall i, j :: 0 <= i < j < |jobs| ==> jobs[i].row != jobs[j].row)
    && (forall j :: k <= j < |jobs| ==>
          var r := jobs[j].row;
          && q.rows[r] == jobs[j].message && q.rows[r].state == Pending
          && Count(q.calls, r) < q.rows[r].attempts <= MAX_ATTEMPTS + Count(q.lost, r))
    && (forall r :: 0 <= r < |q.rows| && (forall j :: k <= j < |jobs| ==> jobs[j].row != r) ==> RowInv(q, r))
  }

  lemma ClaimedRow(q: Queue, p: Pass, j: nat)
    requires QueueInv(q) && Claimable(q.rows, p.now, p.picked) && j < |p.picked|
    ensures
      var c, r := Claimed(q, p), p.picked[j];
      && r < |c.rows| && c.rows[r].state == Pending
      && Count(c.calls, r) < c.rows[r].attempts <= MAX_ATTEMPTS + Count(c.lost, r)
  {
    assert p.picked[j] in p.picked && RowInv(q, p.picked[j]);
  }

  lemma ClaimEnters(q: Queue, p: Pass)
    requires QueueInv(q) && Claimable(q.rows, p.now, p.picked)
    ensures InPass(Claimed(q, p), Jobs(Claimed(q, p).rows, p.picked), 0)
  {
    var c := Claimed(q, p);
    var jobs := Jobs(c.rows, p.picked);
    forall j | 0 <= j < |jobs|
      ensures
        var r := jobs[j].row;
        && r < |c.rows| && c.rows[r] == jobs[j].message && c.rows[r].state == Pending
        && Count(c.calls, r) < c.rows[r].attempts <= MAX_ATTEMPTS + Count(c.lost, r)
    {
      ClaimedRow(q, p, j);
    }
    forall r | 0 <= r < |q.rows| && forall j :: 0 <= j < |jobs| ==> jobs[j].row != r ensures RowInv(c, r) {
      UnclaimedRow(q, p, r);
    }
  }

  lemma UnclaimedRow(q: Queue, p: Pass, r: nat)
    requires QueueInv(q) && r < |q.rows| && InRange(p.picked, |q.rows|)
    requires forall j :: 0 <= j < |p.picked| ==> Jobs(Claimed(q, p).rows, p.picked)[j].row != r
    ensures RowInv(Claimed(q, p), r)
  {
    assert RowInv(q, r);
    forall j | 0 <= j < |p.picked| ensures p.picked[j] != r { assert Jobs(Claimed(q, p).rows, p.picked)[j].row == p.picked[j]; }
    assert r !in p.picked;
  }

  lemma DeliverStep(senders: set<string>, q: Queue, jobs: seq<Job>, k: nat, now: Moment, c: Chance)
    requires k < |jobs| && InPass(q, jobs, k)
    ensures InPass(Deliver(senders, q, jobs[k], now, c), jobs, k + 1)
  {
    var n := Deliver(senders, q, jobs[k], now, c);
    forall r: nat
      ensures Count(n.calls, r) == Count(q.calls, r) + if jobs[k].row == r && CallsSender(senders, jobs[k].message) then 1 else 0
      ensures Count(n.lost, r) == Count(q.lost, r) + if jobs[k].row == r && !c.kept then 1 else 0
    {
      CountOne(q.calls, jobs[k].row, r);
      CountOne(q.lost, jobs[k].row, r);
    }
    forall r | 0 <= r < |n.rows| && (forall j :: k + 1 <= j < |jobs| ==> jobs[j].row != r) ensures RowInv(n, r) {
      if r != jobs[k].row { assert RowInv(q, r); }
    }
  }

  lemma {:induction false} DeliverKeeps(senders: set<string>, q: Queue, jobs: seq<Job>, now: Moment, chance: nat -> Chance, k: nat, t: Tally)
    requires k <= |jobs| && InPass(q, jobs, k)
    ensures QueueInv(DeliverFrom(senders, q, jobs, now, chance, k, t).0)
    decreases |jobs| - k
  {
    if k < |jobs| {
      DeliverStep(senders, q, jobs, k, now, chance(k));
      DeliverKeeps(senders, Deliver(senders, q, jobs[k], now, chance(k)), jobs, now, chance, k + 1,
                   Add(t, OutcomeOf(senders, jobs[k].message, chance(k).reply)));
    }
  }

  lemma PassKeeps(senders: set<string>, q: Queue, p: Pass)
    requires QueueInv(q) && Claimable(q.rows, p.now, p.picked)
    ensures QueueInv(Dispatched(senders, q, p).0)
  {
    ClaimEnters(q, p);
    DeliverKeeps(senders, Claimed(q, p), Jobs(Claimed(q, p).rows, p.picked), p.now, p.chance, 0, Tally(|p.picked|, 0, 0, 0));
  }

  /** Each claimed message has exactly one outcome. */
  lemma {:induction false} OutcomesAddUp(senders: set<string>, q: Queue, jobs: seq<Job>, now: Moment, chance: nat -> Chance, k: nat, t: Tally)
    requires k <= |jobs| && Fits(q, jobs)
    ensures
      var n := DeliverFrom(senders, q, jobs, now, chance, k, t).1;
      n.claimed == t.claimed && n.sent + n.retried + n.failed == t.sent + t.retried + t.failed + |jobs| - k
    decreases |jobs| - k
  {
    if k < |jobs| {
      OutcomesAddUp(senders, Deliver(senders, q, jobs[k], now, chance(k)), jobs, now, chance, k + 1,
                    Add(t, OutcomeOf(senders, jobs[k].message, chance(k).reply)));
    }
  }

  lemma TallyAddsUp(senders: set<string>, q: Queue, p: Pass)
    requires Claimable(q.rows, p.now, p.picked)
    ensures var t := Dispatched(senders, q, p).1; t.claimed == t.sent + t.retried + t.failed == |p.picked|
  {
    var c := Claimed(q, p);
    OutcomesAddUp(senders, c, Jobs(c.rows, p.picked), p.now, p.chance, 0, Tally(|p.picked|, 0, 0, 0));
  }

  // ---- A row no job names stays as it is ----

  lemma {:induction false} OthersUntouched(senders: set<string>, q: Queue, jobs: seq<Job>, now: Moment, chance: nat -> Chance, k: nat, t: Tally, r: nat)
    requires k <= |jobs| && Fits(q, jobs) && r < |q.rows| && forall j :: k <= j < |jobs| ==> jobs[j].row != r
    ensures var n := DeliverFrom(senders, q, jobs, now, chance, k, t).0; |n.rows| == |q.rows| && n.rows[r] == q.rows[r]
    ensures Count(DeliverFrom(senders, q, jobs, now, chance, k, t).0.calls, r) == Count(q.calls, r)
    decreases |jobs| - k
  {
    if k < |jobs| {
      CountOne(q.calls, jobs[k].row, r);
      OthersUntouched(senders, Deliver(senders, q, jobs[k], now, chance(k)), jobs, now, chance, k + 1,
                      Add(t, OutcomeOf(senders, jobs[k].message, chance(k).reply)), r);
    }
  }

  /** Sent and failed are final: a pass neither changes such a row nor sends it again. */
  lemma ClosedIsFinal(senders: set<string>, q: Queue, p: Pass, r: nat)
    requires Claimable(q.rows, p.now, p.picked) && r < |q.rows| && q.rows[r].state != Pending
    ensures
      var n := Dispatched(senders, q, p).0;
      |n.rows| == |q.rows| && n.rows[r] == q.rows[r] && Count(n.calls, r) == Count(q.calls, r)
  {
    var c := Claimed(q, p);
    var jobs := Jobs(c.rows, p.picked);
    forall j | 0 <= j < |jobs| ensures jobs[j].row != r { assert p.picked[j] in p.picked; }
    assert r !in p.picked;
    OthersUntouched(senders, c, jobs, p.now, p.chance, 0, Tally(|p.picked|, 0, 0, 0), r);
  }

  // ---- Runs ----

  datatype Event = NewMessage(channel: string, readable: bool, at: Moment) | Turn(p: Pass)

  ghost predicate Allowed(q: Queue, e: Event) { e.Turn? ==> Claimable(q.rows, e.p.now, e.p.picked) }

  function Next(senders: set<string>, q: Queue, e: Event): Queue
    requires e.Turn? ==> InRange(e.p.picked, |q.rows|)
  {
    match e
    case NewMessage(channel, readable, at) => q.(rows := q.rows + [Message(channel, readable, Pending, 0, at)])
    case Turn(p) => Dispatched(senders, q, p).0
  }

  ghost predicate Reaches(senders: set<string>, q: Queue, es: seq<Event>, n: Queue)
    decreases es
  {
    if es == [] then n == q else Allowed(q, es[0]) && Reaches(senders, Next(senders, q, es[0]), es[1..], n)
  }

  /** The logs name only existing rows. */
  ghost predicate LogsFit(q: Queue) { forall r: nat :: r >= |q.rows| ==> Count(q.calls, r) == 0 && Count(q.lost, r) == 0 }

  lemma DeliverOneFits(senders: set<string>, q: Queue, job: Job, now: Moment, c: Chance)
    requires job.row < |q.rows| && LogsFit(q)
    ensures LogsFit(Deliver(senders, q, job, now, c))
  {
    forall r: nat | r >= |q.rows|
      ensures Count(q.calls + [job.row], r) == 0 && Count(q.lost + [job.row], r) == 0
    {
      CountOne(q.calls, job.row, r);
      CountOne(q.lost, job.row, r);
    }
  }

  lemma {:induction false} DeliverLogsFit(senders: set<string>, q: Queue, jobs: seq<Job>, now: Moment, chance: nat -> Chance, k: nat, t: Tally)
    requires k <= |jobs| && Fits(q, jobs) && LogsFit(q)
    ensures LogsFit(DeliverFrom(senders, q, jobs, now, chance, k, t).0)
    decreases |jobs| - k
  {
    hide LogsFit, OutcomeOf, Mark;
    if k < |jobs| {
      DeliverOneFits(senders, q, jobs[k], now, chance(k));
      DeliverLogsFit(senders, Deliver(senders, q, jobs[k], now, chance(k)), jobs, now, chance, k + 1,
                     Add(t, OutcomeOf(senders, jobs[k].message, chance(k).reply)));
    }
  }

  lemma EventKeeps(senders: set<string>, q: Queue, e: Event)
    requires QueueInv(q) && LogsFit(q) && Allowed(q, e)
    ensures QueueInv(Next(senders, q, e)) && LogsFit(Next(senders, q, e))
  {
    match e
    case NewMessage(_, _, _) =>
      var n := Next(senders, q, e);
      forall r | 0 <= r < |n.rows| ensures RowInv(n, r) { if r < |q.rows| { assert RowInv(q, r); } }
    case Turn(p) =>
      PassKeeps(senders, q, p);
      DeliverLogsFit(senders, Claimed(q, p), Jobs(Claimed(q, p).rows, p.picked), p.now, p.chance, 0, Tally(|p.picked|, 0, 0, 0));
  }

  /** Over every run of passes one after another, no message is sent more than MaxAttempts
      times plus once for every result that was lost. */
  lemma {:induction false} SendsBounded(senders: set<string>, q: Queue, es: seq<Event>, n: Queue)
    requires QueueInv(q) && LogsFit(q) && Reaches(senders, q, es, n)
    ensures QueueInv(n) && LogsFit(n)
    ensures forall r :: 0 <= r < |n.rows| ==> Count(n.calls, r) <= MAX_ATTEMPTS + Count(n.lost, r)
    decreases es
  {
    if es == [] {
      forall r | 0 <= r < |n.rows| ensures Count(n.calls, r) <= MAX_ATTEMPTS + Count(n.lost, r) { assert RowInv(n, r); }
    } else {
      EventKeeps(senders, q, es[0]);
      SendsBounded(senders, Next(senders, q, es[0]), es[1..], n);
    }
  }

  // ---- A closed queue empties ----

  /** Attempts the pending messages may still use. */
  function AttemptsLeft(rows: seq<Message>): int {
    if rows == [] then 0
    else
      var m := rows[|rows| - 1];
      AttemptsLeft(rows[..|rows| - 1]) + if m.state == Pending then MAX_ATTEMPTS - m.attempts else 0
  }

  function LeftOf(m: Message): int { if m.state == Pending then MAX_ATTEMPTS - m.attempts else 0 }

  lemma {:induction false} LeftUpdate(rows: seq<Message>, r: nat, m: Message)
    requires r < |rows|
    ensures AttemptsLeft(rows[r := m]) == AttemptsLeft(rows) - LeftOf(rows[r]) + LeftOf(m)
  {
    var last := |rows| - 1;
    if r < last {
      assert rows[r := m][..last] == rows[..last][r := m];
      LeftUpdate(rows[..last], r, m);
    } else {
      assert rows[r := m][..last] == rows[..last];
    }
  }

  lemma {:induction false} LeftNonNegative(rows: seq<Message>)
    requires forall r :: 0 <= r < |rows| && rows[r].state == Pending ==> rows[r].attempts < MAX_ATTEMPTS
    ensures AttemptsLeft(rows) >= 0
    ensures AttemptsLeft(rows) == 0 ==> forall r :: 0 <= r < |rows| ==> rows[r].state != Pending
  {
    if rows != [] {
      LeftNonNegative(rows[..|rows| - 1]);
      assert forall r :: 0 <= r < |rows| - 1 ==> rows[r] == rows[..|rows| - 1][r];
    }
  }

  /** A claim uses up one attempt of each picked row. */
  lemma {:induction false} ClaimUses(rows: seq<Message>, picked: seq<nat>)
    requires InRange(picked, |rows|) && forall k :: 0 <= k < |picked| ==> rows[picked[k]].state == Pending
    requires forall i, j :: 0 <= i < j < |picked| ==> picked[i] != picked[j]
    ensures AttemptsLeft(ClaimRows(rows, picked)) == AttemptsLeft(rows) - |picked|
  {
    if picked == [] {
      assert ClaimRows(rows, picked) == rows;
    } else {
      var init, r := picked[..|picked| - 1], picked[|picked| - 1];
      assert forall x :: x in picked <==> x in init || x == r;
      ClaimUses(rows, init);
      var before := ClaimRows(rows, init);
      assert r !in init;
      assert ClaimRows(rows, picked) == before[r := before[r].(attempts := before[r].attempts + 1)];
      LeftUpdate(before, r, before[r].(attempts := before[r].attempts + 1));
    }
  }

  lemma MarkUses(row: Message, o: Outcome, attempts: nat, now: Moment)
    requires row.state == Pending && row.attempts <= MAX_ATTEMPTS
    ensures LeftOf(Mark(row, o, attempts, now)) <= LeftOf(row)
  {
  }

  lemma DeliverOneUses(senders: set<string>, q: Queue, job: Job, now: Moment, c: Chance)
    requires job.row < |q.rows| && q.rows[job.row].state == Pending && q.rows[job.row].attempts <= MAX_ATTEMPTS
    ensures AttemptsLeft(Deliver(senders, q, job, now, c).rows) <= AttemptsLeft(q.rows)
  {
    hide AttemptsLeft, Mark, LeftOf, OutcomeOf;
    var o := OutcomeOf(senders, job.message, c.reply);
    MarkUses(q.rows[job.row], o, job.message.attempts, now);
    LeftUpdate(q.rows, job.row, Mark(q.rows[job.row], o, job.message.attempts, now));
  }

  /** Delivering never gives an attempt back. */
  lemma {:induction false} DeliverUses(senders: set<string>, q: Queue, jobs: seq<Job>, now: Moment, chance: nat -> Chance, k: nat, t: Tally)
    requires k <= |jobs| && InPass(q, jobs, k)
    requires forall j :: k <= j < |jobs| ==> jobs[j].message.attempts <= MAX_ATTEMPTS
    ensures AttemptsLeft(DeliverFrom(senders, q, jobs, now, chance, k, t).0.rows) <= AttemptsLeft(q.rows)
    decreases |jobs| - k
  {
    hide AttemptsLeft, Deliver, OutcomeOf, RowInv, Count;
    if k < |jobs| {
      DeliverOneUses(senders, q, jobs[k], now, chance(k));
      DeliverStep(senders, q, jobs, k, now, chance(k));
      DeliverUses(senders, Deliver(senders, q, jobs[k], now, chance(k)), jobs, now, chance, k + 1,
                  Add(t, OutcomeOf(senders, jobs[k].message, chance(k).reply)));
    }
  }

  ghost predicate NothingLost(q: Queue) { forall r :: 0 <= r < |q.rows| ==> Count(q.lost, r) == 0 }

  /** While no result is lost, every pass lowers the attempts left by at least the number
      of messages it claims. */
  lemma PassUses(senders: set<string>, q: Queue, p: Pass)
    requires QueueInv(q) && NothingLost(q) && Claimable(q.rows, p.now, p.picked)
    ensures AttemptsLeft(Dispatched(senders, q, p).0.rows) <= AttemptsLeft(q.rows) - |p.picked|
  {
    var c := Claimed(q, p);
    var jobs := Jobs(c.rows, p.picked);
    ClaimUses(q.rows, p.picked);
    ClaimEnters(q, p);
    forall j | 0 <= j < |jobs| ensures jobs[j].message.attempts <= MAX_ATTEMPTS {
      assert p.picked[j] in p.picked && RowInv(q, p.picked[j]);
    }
    DeliverUses(senders, c, jobs, p.now, p.chance, 0, Tally(|p.picked|, 0, 0, 0));
  }

  /** A pass claims something whenever anything is due. */
  lemma {:induction false} SomethingDue(rows: seq<Message>, now: Moment, r: nat)
    requires r < |rows| && Due(rows[r], now)
    ensures CountDue(rows, now) >= 1
  {
    if r < |rows| - 1 { SomethingDue(rows[..|rows| - 1], now, r); }
  }

  lemma DueIsClaimed(rows: seq<Message>, now: Moment, picked: seq<nat>, r: nat)
    requires r < |rows| && Due(rows[r], now) && Claimable(rows, now, picked)
    ensures picked != []
  {
    SomethingDue(rows, now, r);
  }

  /** Passes only, each claiming something, none losing a result. */
  ghost predicate BusyRun(senders: set<string>, q: Queue, ps: seq<Pass>, n: Queue)
    decreases ps
  {
    if ps == [] then n == q
    else
      && ps[0].picked != [] && Claimable(q.rows, ps[0].now, ps[0].picked)
      && NothingLost(Dispatched(senders, q, ps[0]).0)
      && BusyRun(senders, Dispatched(senders, q, ps[0]).0, ps[1..], n)
  }

  /** A closed queue has no more passes that claim something than it has attempts left. */
  lemma {:induction false} BusyPassesBounded(senders: set<string>, q: Queue, ps: seq<Pass>, n: Queue)
    requires QueueInv(q) && NothingLost(q) && BusyRun(senders, q, ps, n)
    ensures |ps| + AttemptsLeft(n.rows) <= AttemptsLeft(q.rows) && AttemptsLeft(n.rows) >= 0
    decreases ps
  {
    if ps == [] {
      NothingPending(q);
    } else {
      PassKeeps(senders, q, ps[0]);
      PassUses(senders, q, ps[0]);
      BusyPassesBounded(senders, Dispatched(senders, q, ps[0]).0, ps[1..], n);
    }
  }

  /** No pending message is scheduled for later than this moment. */
  predicate AllDue(rows: seq<Message>, now: Moment) {
    forall r :: 0 <= r < |rows| && rows[r].state == Pending ==> rows[r].nextAt <= now
  }

  /** Passes only, each late enough for every pending message, none losing a result. */
  ghost predicate PunctualRun(senders: set<string>, q: Queue, ps: seq<Pass>, n: Queue)
    decreases ps
  {
    if ps == [] then n == q
    else
      && Claimable(q.rows, ps[0].now, ps[0].picked) && AllDue(q.rows, ps[0].now)
      && NothingLost(Dispatched(senders, q, ps[0]).0)
      && PunctualRun(senders, Dispatched(senders, q, ps[0]).0, ps[1..], n)
  }

  predicate Empty(rows: seq<Message>) { forall r :: 0 <= r < |rows| ==> rows[r].state != Pending }

  lemma NothingPending(q: Queue)
    requires QueueInv(q) && NothingLost(q)
    ensures AttemptsLeft(q.rows) >= 0
    ensures AttemptsLeft(q.rows) == 0 <==> Empty(q.rows)
  {
    forall r | 0 <= r < |q.rows| && q.rows[r].state == Pending ensures q.rows[r].attempts < MAX_ATTEMPTS {
      assert RowInv(q, r);
    }
    LeftNonNegative(q.rows);
    NoneLeft(q.rows);
  }

  lemma {:induction false} NoneLeft(rows: seq<Message>)
    ensures Empty(rows) ==> AttemptsLeft(rows) == 0
  {
    if rows != [] { NoneLeft(rows[..|rows| - 1]); }
  }

  /** Each punctual pass uses up at least one of the attempts left, as long as there are any. */
  lemma PunctualPassUses(senders: set<string>, q: Queue, p: Pass)
    requires QueueInv(q) && NothingLost(q) && Claimable(q.rows, p.now, p.picked) && AllDue(q.rows, p.now)
    ensures !Empty(q.rows) ==> AttemptsLeft(Dispatched(senders, q, p).0.rows) < AttemptsLeft(q.rows)
    ensures AttemptsLeft(Dispatched(senders, q, p).0.rows) <= AttemptsLeft(q.rows)
  {
    PassUses(senders, q, p);
    if r :| 0 <= r < |q.rows| && q.rows[r].state == Pending { DueIsClaimed(q.rows, p.now, p.picked, r); }
  }

  /** A closed queue empties: after as many punctual passes as there are attempts left, or
      more, nothing is pending. */
  lemma {:induction false} QueueEmpties(senders: set<string>, q: Queue, ps: seq<Pass>, n: Queue)
    requires QueueInv(q) && NothingLost(q) && PunctualRun(senders, q, ps, n)
    requires |ps| >= AttemptsLeft(q.rows)
    ensures Empty(n.rows)
    decreases ps
  {
    NothingPending(q);
    if ps != [] {
      var next := Dispatched(senders, q, ps[0]).0;
      PassKeeps(senders, q, ps[0]);
      PunctualPassUses(senders, q, ps[0]);
      NothingPending(next);
      QueueEmpties(senders, next, ps[1..], n);
    }
  }

  // ---- Workers side by side ----

  /** Claimed but not yet delivered jobs of all workers. */
  datatype System = System(queue: Queue, jobs: seq<Job>)

  datatype Move = Take(now: Moment, picked: seq<nat>) | Finish(job: nat, now: Moment, c: Chance)

  ghost predicate Enabled(s: System, m: Move) {
    match m
    case Take(now, picked) => InRange(picked, |s.queue.rows|)
                              && (forall k :: 0 <= k < |picked| ==> Due(s.queue.rows[picked[k]], now))
                              && forall i, j :: 0 <= i < j < |picked| ==> picked[i] != picked[j]
    case Finish(job, _, _) => job < |s.jobs| && Fits(s.queue, s.jobs)
  }

  function MoveOn(senders: set<string>, s: System, m: Move): System
    requires match m
             case Take(_, picked) => InRange(picked, |s.queue.rows|)
             case Finish(job, _, _) => job < |s.jobs| && Fits(s.queue, s.jobs)
  {
    match m
    case Take(now, picked) =>
      var rows := ClaimRows(s.queue.rows, picked);
      System(s.queue.(rows := rows), s.jobs + Jobs(rows, picked))
    case Finish(job, now, c) =>
      System(Deliver(senders, s.queue, s.jobs[job], now, c), s.jobs[..job] + s.jobs[job + 1..])
  }

  function CountJobs(jobs: seq<Job>, r: nat): nat {
    if jobs == [] then 0 else CountJobs(jobs[..|jobs| - 1], r) + if jobs[|jobs| - 1].row == r then 1 else 0
  }

  lemma {:induction false} CountJobsConcat(a: seq<Job>, b: seq<Job>, r: nat)
    ensures CountJobs(a + b, r) == CountJobs(a, r) + CountJobs(b, r)
  {
    if b == [] {
      assert a + b == a;
    } else {
      assert (a + b)[..|a + b| - 1] == a + b[..|b| - 1];
      CountJobsConcat(a, b[..|b| - 1], r);
    }
  }

  lemma {:induction false} CountPicked(rows: seq<Message>, picked: seq<nat>, r: nat)
    requires InRange(picked, |rows|)
    requires forall i, j :: 0 <= i < j < |picked| ==> picked[i] != picked[j]
    ensures CountJobs(Jobs(rows, picked), r) == if r in picked then 1 else 0
  {
    if picked != [] {
      var init := picked[..|picked| - 1];
      assert forall x :: x in picked <==> x in init || x == picked[|picked| - 1];
      assert Jobs(rows, picked)[..|picked| - 1] == Jobs(rows, init);
      CountPicked(rows, init, r);
    }
  }

  /** No worker sends without an attempt of its own. */
  ghost predicate Accounted(s: System) {
    && Fits(s.queue, s.jobs)
    && forall r :: 0 <= r < |s.queue.rows| ==>
         Count(s.queue.calls, r) + CountJobs(s.jobs, r) <= s.queue.rows[r].attempts
  }

  lemma TakeAccounted(senders: set<string>, s: System, m: Move)
    requires Accounted(s) && m.Take? && Enabled(s, m)
    ensures Accounted(MoveOn(senders, s, m))
  {
    var n, picked := MoveOn(senders, s, m), m.picked;
    forall r | 0 <= r < |n.queue.rows| ensures Count(n.queue.calls, r) + CountJobs(n.jobs, r) <= n.queue.rows[r].attempts {
      CountJobsConcat(s.jobs, Jobs(n.queue.rows, picked), r);
      CountPicked(n.queue.rows, picked, r);
    }
    forall k | 0 <= k < |n.jobs| ensures n.jobs[k].row < |n.queue.rows| {
      assert k >= |s.jobs| ==> n.jobs[k].row == picked[k - |s.jobs|];
    }
  }

  lemma CountWithout(jobs: seq<Job>, j: nat, r: nat)
    requires j < |jobs|
    ensures CountJobs(jobs[..j] + jobs[j + 1..], r) == CountJobs(jobs, r) - if jobs[j].row == r then 1 else 0
  {
    var head, tail := jobs[..j], jobs[j + 1..];
    assert jobs == head + [jobs[j]] + tail;
    CountJobsConcat(head, [jobs[j]], r);
    CountJobsConcat(head + [jobs[j]], tail, r);
    CountJobsConcat(head, tail, r);
    assert [jobs[j]][..0] == [];
  }

  lemma FinishAccounted(senders: set<string>, s: System, m: Move)
    requires Accounted(s) && m.Finish? && Enabled(s, m)
    ensures Accounted(MoveOn(senders, s, m))
  {
    hide OutcomeOf, CountJobs, Count;
    var n := MoveOn(senders, s, m);
    forall r | 0 <= r < |n.queue.rows| ensures Count(n.queue.calls, r) + CountJobs(n.jobs, r) <= n.queue.rows[r].attempts {
      CountWithout(s.jobs, m.job, r);
      CountOne(s.queue.calls, s.jobs[m.job].row, r);
    }
  }

  lemma MoveAccounted(senders: set<string>, s: System, m: Move)
    requires Accounted(s) && Enabled(s, m)
    ensures Accounted(MoveOn(senders, s, m))
  {
    if m.Take? { TakeAccounted(senders, s, m); } else { FinishAccounted(senders, s, m); }
  }

  ghost predicate Interleaved(senders: set<string>, s: System, ms: seq<Move>, n: System)
    decreases ms
  {
    if ms == [] then n == s else Enabled(s, ms[0]) && Interleaved(senders, MoveOn(senders, s, ms[0]), ms[1..], n)
  }

  /** In every interleaving of any number of workers the sends of a message never exceed
      its attempts. */
  lemma {:induction false} SendsWithinAttempts(senders: set<string>, s: System, ms: seq<Move>, n: System)
    requires Accounted(s) && Interleaved(senders, s, ms, n)
    ensures Accounted(n)
    decreases ms
  {
    if ms != [] {
      MoveAccounted(senders, s, ms[0]);
      SendsWithinAttempts(senders, MoveOn(senders, s, ms[0]), ms[1..], n);
    }
  }

  // ---- Workers that leave each other's messages alone ----

  predicate InHand(jobs: seq<Job>, r: nat) { exists j :: 0 <= j < |jobs| && jobs[j].row == r }

  /** A claim that picks no message some worker still has in hand. */
  ghost predicate Exclusive(s: System, m: Move) {
    m.Take? ==> forall k :: 0 <= k < |m.picked| ==> !InHand(s.jobs, m.picked[k])
  }

  ghost predicate ExclusiveRun(senders: set<string>, s: System, ms: seq<Move>, n: System)
    decreases ms
  {
    if ms == [] then n == s
    else Enabled(s, ms[0]) && Exclusive(s, ms[0]) && ExclusiveRun(senders, MoveOn(senders, s, ms[0]), ms[1..], n)
  }

  /** One job of a message in hand: the row is still as the worker read it. */
  ghost predicate Held(q: Queue, job: Job) {
    && job.row < |q.rows| && q.rows[job.row] == job.message && job.message.state == Pending
    && Count(q.calls, job.row) < job.message.attempts <= MAX_ATTEMPTS + Count(q.lost, job.row)
  }

  /** At most one job per message, each of them held, and every other row within its bounds. */
  ghost predicate Apart(s: System) {
    && (forall i, j :: 0 <= i < j < |s.jobs| ==> s.jobs[i].row != s.jobs[j].row)
    && (forall j :: 0 <= j < |s.jobs| ==> Held(s.queue, s.jobs[j]))
    && (forall r :: 0 <= r < |s.queue.rows| && !InHand(s.jobs, r) ==> RowInv(s.queue, r))
  }

  lemma TakeApart(senders: set<string>, s: System, m: Move)
    requires Apart(s) && m.Take? && Enabled(s, m) && Exclusive(s, m)
    ensures Apart(MoveOn(senders, s, m))
  {
    var n, q, picked := MoveOn(senders, s, m), s.queue, m.picked;
    var more := Jobs(n.queue.rows, picked);
    assert n.jobs == s.jobs + more && n.queue.calls == q.calls && n.queue.lost == q.lost;
    forall k | 0 <= k < |more| ensures Held(n.queue, more[k]) && !InHand(s.jobs, more[k].row) {
      assert picked[k] in picked && RowInv(q, picked[k]);
    }
    forall j | 0 <= j < |s.jobs| ensures Held(n.queue, s.jobs[j]) {
      assert InHand(s.jobs, s.jobs[j].row) && Held(q, s.jobs[j]);
    }
    forall r | 0 <= r < |q.rows| && !InHand(n.jobs, r) ensures RowInv(n.queue, r) {
      forall j | 0 <= j < |s.jobs| ensures s.jobs[j].row != r { assert n.jobs[j].row != r; }
      forall k | 0 <= k < |picked| ensures picked[k] != r { assert n.jobs[|s.jobs| + k].row == picked[k]; }
      assert r !in picked && RowInv(q, r);
    }
  }

  lemma DeliverCounts(senders: set<string>, q: Queue, job: Job, now: Moment, c: Chance, r: nat)
    requires job.row < |q.rows|
    ensures
      var n := Deliver(senders, q, job, now, c);
      && Count(n.calls, r) == Count(q.calls, r) + (if r == job.row && CallsSender(senders, job.message) then 1 else 0)
      && Count(n.lost, r) == Count(q.lost, r) + (if r == job.row && !c.kept then 1 else 0)
  {
    CountOne(q.calls, job.row, r);
    CountOne(q.lost, job.row, r);
  }

  /** A delivery brings its own row within its bounds. */
  lemma DeliverSettles(senders: set<string>, q: Queue, job: Job, now: Moment, c: Chance)
    requires Held(q, job)
    ensures |Deliver(senders, q, job, now, c).rows| == |q.rows| && RowInv(Deliver(senders, q, job, now, c), job.row)
  {
    hide Count;
    DeliverCounts(senders, q, job, now, c, job.row);
  }

  /** It leaves every other row alone. */
  lemma DeliverSpares(senders: set<string>, q: Queue, job: Job, now: Moment, c: Chance, r: nat)
    requires job.row < |q.rows| && r != job.row && r < |q.rows|
    ensures RowInv(q, r) ==> RowInv(Deliver(senders, q, job, now, c), r)
    ensures forall other: Job :: other.row == r && Held(q, other) ==> Held(Deliver(senders, q, job, now, c), other)
  {
    hide Count, OutcomeOf, Mark;
    DeliverCounts(senders, q, job, now, c, r);
  }

  lemma FinishApart(senders: set<string>, s: System, m: Move)
    requires Apart(s) && m.Finish? && Enabled(s, m)
    ensures Apart(MoveOn(senders, s, m))
  {
    hide RowInv, Held, Deliver;
    var n, job := MoveOn(senders, s, m), s.jobs[m.job];
    DeliverSettles(senders, s.queue, job, m.now, m.c);
    forall j | 0 <= j < |n.jobs| ensures n.jobs[j] == s.jobs[if j < m.job then j else j + 1] && Held(n.queue, n.jobs[j]) {
      assert Held(s.queue, n.jobs[j]);
      DeliverSpares(senders, s.queue, job, m.now, m.c, n.jobs[j].row);
    }
    forall r | 0 <= r < |n.queue.rows| && !InHand(n.jobs, r) ensures RowInv(n.queue, r) {
      if r != job.row {
        forall j | 0 <= j < |s.jobs| ensures s.jobs[j].row != r {
          if j != m.job { assert n.jobs[if j < m.job then j else j - 1].row != r; }
        }
        DeliverSpares(senders, s.queue, job, m.now, m.c, r);
      }
    }
  }

  /** In every interleaving in which no worker claims a message another one has in hand, no
      message is sent more than MaxAttempts times plus once for every lost result. */
  lemma {:induction false} ExclusiveSendsBounded(senders: set<string>, s: System, ms: seq<Move>, n: System)
    requires Apart(s) && ExclusiveRun(senders, s, ms, n)
    ensures Apart(n)
    ensures forall r :: 0 <= r < |n.queue.rows| ==> Count(n.queue.calls, r) <= MAX_ATTEMPTS + Count(n.queue.lost, r)
    decreases ms
  {
    if ms == [] {
      forall r | 0 <= r < |n.queue.rows| ensures Count(n.queue.calls, r) <= MAX_ATTEMPTS + Count(n.queue.lost, r) {
        if InHand(n.jobs, r) {
          var j :| 0 <= j < |n.jobs| && n.jobs[j].row == r;
          assert Held(n.queue, n.jobs[j]);
        } else {
          assert RowInv(n.queue, r);
        }
      }
    } else {
      if ms[0].Take? { TakeApart(senders, s, ms[0]); } else { FinishApart(senders, s, ms[0]); }
      ExclusiveSendsBounded(senders, MoveOn(senders, s, ms[0]), ms[1..], n);
    }
  }

  lemma ClosedStep(senders: set<string>, s: System, m: Move, r: nat)
    requires Apart(s) && Enabled(s, m) && r < |s.queue.rows| && s.queue.rows[r].state != Pending
    ensures
      var n := MoveOn(senders, s, m);
      |n.queue.rows| == |s.queue.rows| && n.queue.rows[r] == s.queue.rows[r] && Count(n.queue.calls, r) == Count(s.queue.calls, r)
  {
    match m
    case Take(now, picked) =>
      forall k | 0 <= k < |picked| ensures picked[k] != r { assert Due(s.queue.rows[picked[k]], now); }
    case Finish(job, now, c) =>
      assert Held(s.queue, s.jobs[job]);
      CountOne(s.queue.calls, s.jobs[job].row, r);
  }

  /** Then a message marked as sent, or as failed, is never sent again. */
  lemma {:induction false} ExclusiveClosedIsFinal(senders: set<string>, s: System, ms: seq<Move>, n: System, r: nat)
    requires Apart(s) && ExclusiveRun(senders, s, ms, n) && r < |s.queue.rows| && s.queue.rows[r].state != Pending
    ensures |n.queue.rows| == |s.queue.rows| && n.queue.rows[r] == s.queue.rows[r]
    ensures Count(n.queue.calls, r) == Count(s.queue.calls, r)
    decreases ms
  {
    if ms != [] {
      ClosedStep(senders, s, ms[0], r);
      if ms[0].Take? { TakeApart(senders, s, ms[0]); } else { FinishApart(senders, s, ms[0]); }
      ExclusiveClosedIsFinal(senders, MoveOn(senders, s, ms[0]), ms[1..], n, r);
    }
  }

  // ---- When a message is about to be sent twice ----

  /** Jobs in hand that will call the sender for a message. */
  function Sends(senders: set<string>, jobs: seq<Job>, r: nat): nat {
    if jobs == [] then 0
    else
      var job := jobs[|jobs| - 1];
      Sends(senders, jobs[..|jobs| - 1], r) + if job.row == r && CallsSender(senders, job.message) then 1 else 0
  }

  lemma {:induction false} SendsConcat(senders: set<string>, a: seq<Job>, b: seq<Job>, r: nat)
    ensures Sends(senders, a + b, r) == Sends(senders, a, r) + Sends(senders, b, r)
  {
    if b == [] {
      assert a + b == a;
    } else {
      assert (a + b)[..|a + b| - 1] == a + b[..|b| - 1];
      SendsConcat(senders, a, b[..|b| - 1], r);
    }
  }

  lemma SendsWithout(senders: set<string>, jobs: seq<Job>, j: nat, r: nat)
    requires j < |jobs|
    ensures Sends(senders, jobs[..j] + jobs[j + 1..], r)
         == Sends(senders, jobs, r) - if jobs[j].row == r && CallsSender(senders, jobs[j].message) then 1 else 0
  {
    hide CallsSender;
    var head, tail := jobs[..j], jobs[j + 1..];
    assert jobs == head + [jobs[j]] + tail;
    SendsConcat(senders, head, [jobs[j]], r);
    SendsConcat(senders, head + [jobs[j]], tail, r);
    SendsConcat(senders, head, tail, r);
    assert [jobs[j]][..0] == [];
  }

  /** Deliveries only, every one accepted and its mark kept. */
  predicate AcceptedOnly(ms: seq<Move>) { forall m :: m in ms ==> m.Finish? && m.c == Chance(Accepted, true) }

  predicate FinishesOnly(ms: seq<Move>) { forall m :: m in ms ==> m.Finish? }

  /** A delivery turns a job in hand that calls its sender into a send. */
  lemma {:induction false} FinishingSends(senders: set<string>, s: System, ms: seq<Move>, n: System, r: nat)
    requires Interleaved(senders, s, ms, n) && FinishesOnly(ms)
    ensures Count(n.queue.calls, r) + Sends(senders, n.jobs, r) == Count(s.queue.calls, r) + Sends(senders, s.jobs, r)
    decreases ms
  {
    if ms != [] {
      assert ms[0] in ms && forall m :: m in ms[1..] ==> m in ms;
      OneFinishSends(senders, s, ms[0], r);
      FinishingSends(senders, MoveOn(senders, s, ms[0]), ms[1..], n, r);
    }
  }

  lemma OneFinishSends(senders: set<string>, s: System, m: Move, r: nat)
    requires m.Finish? && Enabled(s, m)
    ensures
      var n := MoveOn(senders, s, m);
      Count(n.queue.calls, r) + Sends(senders, n.jobs, r) == Count(s.queue.calls, r) + Sends(senders, s.jobs, r)
  {
    hide OutcomeOf, Sends, Count, CallsSender;
    SendsWithout(senders, s.jobs, m.job, r);
    CountOne(s.queue.calls, s.jobs[m.job].row, r);
  }

  /** All jobs in hand can be delivered, one after another. */
  lemma {:induction false} FinishAll(senders: set<string>, s: System) returns (ms: seq<Move>, n: System)
    requires Fits(s.queue, s.jobs)
    ensures AcceptedOnly(ms) && Interleaved(senders, s, ms, n) && n.jobs == []
    decreases |s.jobs|
  {
    if s.jobs == [] {
      ms, n := [], s;
    } else {
      var m := Finish(0, 0, Chance(Accepted, true));
      var next := MoveOn(senders, s, m);
      var rest;
      rest, n := FinishAll(senders, next);
      ms := [m] + rest;
      assert ms[1..] == rest;
    }
  }

  /** Some deliveries send the message twice from here. */
  ghost predicate CanSendTwice(senders: set<string>, s: System, r: nat) {
    exists ms, n :: AcceptedOnly(ms) && Interleaved(senders, s, ms, n) && Count(n.queue.calls, r) >= Count(s.queue.calls, r) + 2
  }

  /** From any state the workers can send a message twice without claiming anything more if
      and only if two jobs in hand will call the sender for it. */
  lemma TwiceIffTwoInHand(senders: set<string>, s: System, r: nat)
    requires Fits(s.queue, s.jobs)
    ensures CanSendTwice(senders, s, r) <==> Sends(senders, s.jobs, r) >= 2
  {
    if CanSendTwice(senders, s, r) {
      var ms, n :| AcceptedOnly(ms) && Interleaved(senders, s, ms, n) && Count(n.queue.calls, r) >= Count(s.queue.calls, r) + 2;
      FinishingSends(senders, s, ms, n, r);
    }
    var all, end := FinishAll(senders, s);
    FinishingSends(senders, s, all, end, r);
    assert Sends(senders, s.jobs, r) >= 2 ==> Count(end.queue.calls, r) >= Count(s.queue.calls, r) + 2;
  }

  /** Workers that keep apart never get there. */
  lemma ApartNeverTwice(senders: set<string>, s: System, r: nat)
    requires Apart(s) && r < |s.queue.rows|
    ensures !CanSendTwice(senders, s, r)
  {
    forall j | 0 <= j < |s.jobs| ensures s.jobs[j].row < |s.queue.rows| { assert Held(s.queue, s.jobs[j]); }
    AtMostOneSend(senders, s.jobs, r);
    TwiceIffTwoInHand(senders, s, r);
  }

  lemma {:induction false} AtMostOneSend(senders: set<string>, jobs: seq<Job>, r: nat)
    requires forall i, j :: 0 <= i < j < |jobs| ==> jobs[i].row != jobs[j].row
    ensures Sends(senders, jobs, r) <= 1
    ensures !InHand(jobs, r) ==> Sends(senders, jobs, r) == 0
  {
    if jobs != [] {
      var init := jobs[..|jobs| - 1];
      AtMostOneSend(senders, init, r);
      if jobs[|jobs| - 1].row == r {
        assert !InHand(init, r);
      } else {
        assert InHand(init, r) ==> InHand(jobs, r) by {
          if InHand(init, r) { var j :| 0 <= j < |init| && init[j].row == r; assert jobs[j].row == r; }
        }
      }
    }
  }

  /** One worker claims the only message of a queue. */
  lemma TakeOnly(senders: set<string>, q: Queue, jobs: seq<Job>, now: Moment) returns (n: System)
    requires |q.rows| == 1 && Due(q.rows[0], now)
    ensures Enabled(System(q, jobs), Take(now, [0])) && n == MoveOn(senders, System(q, jobs), Take(now, [0]))
    ensures var m := q.rows[0].(attempts := q.rows[0].attempts + 1); n == System(Queue([m], q.calls, q.lost), jobs + [Job(0, m)])
  {
    n := MoveOn(senders, System(q, jobs), Take(now, [0]));
    assert ClaimRows(q.rows, [0]) == [q.rows[0].(attempts := q.rows[0].attempts + 1)];
    assert Jobs(n.queue.rows, [0]) == [Job(0, n.queue.rows[0])];
  }

  /** A worker delivers the oldest job of the only message. */
  lemma FinishOnly(senders: set<string>, q: Queue, job: Job, rest: seq<Job>, now: Moment) returns (n: System)
    requires |q.rows| == 1 && job.row == 0 && CallsSender(senders, job.message) && Fits(q, rest)
    ensures
      var move := Finish(0, now, Chance(Accepted, true));
      Enabled(System(q, [job] + rest), move) && n == MoveOn(senders, System(q, [job] + rest), move)
    ensures n == System(Queue([q.rows[0].(state := Sent)], q.calls + [0], q.lost), rest)
  {
    var jobs := [job] + rest;
    n := MoveOn(senders, System(q, jobs), Finish(0, now, Chance(Accepted, true)));
    assert jobs[..0] + jobs[1..] == rest;
    assert q.rows[0 := q.rows[0].(state := Sent)] == [q.rows[0].(state := Sent)];
  }

  /** Two workers may send the same message: the claim commits before the delivery, and the
      row is still pending and due for the second one. */
  lemma SentTwice() returns (ms: seq<Move>, n: System)
    ensures Interleaved({"email"}, System(Queue([Message("email", true, Pending, 0, 0)], [], []), []), ms, n)
    ensures n.queue.calls == [0, 0] && n.queue.lost == [] && n.jobs == []
  {
    hide MoveOn, Enabled;
    var done := Finish(0, 0, Chance(Accepted, true));
    ms := [Take(0, [0]), Take(0, [0]), done, done];
    var s0 := System(Queue([Message("email", true, Pending, 0, 0)], [], []), []);
    var s1 := TakeOnly({"email"}, s0.queue, s0.jobs, 0);
    var s2 := TakeOnly({"email"}, s1.queue, s1.jobs, 0);
    assert s2.jobs == [s2.jobs[0]] + [s2.jobs[1]];
    var s3 := FinishOnly({"email"}, s2.queue, s2.jobs[0], [s2.jobs[1]], 0);
    assert s3.jobs == [s3.jobs[0]] + [];
    n := FinishOnly({"email"}, s3.queue, s3.jobs[0], [], 0);
    assert ms[1..][1..] == ms[2..] && ms[2..][1..] == ms[3..] && ms[3..][1..] == [];
    assert Interleaved({"email"}, s3, ms[3..], n);
    assert Interleaved({"email"}, s2, ms[2..], n);
    assert Interleaved({"email"}, s1, ms[1..], n);
  }

  // ---- What one delivery does ----

  /** The outcome of a delivery and what its kept mark leaves of the row. Without a sender for
      the channel, or unreadable, a message fails unsent; an accepted one is sent; a permanent
      refusal, or the fifth attempt, fails it; any other refusal only moves it in time. */
  lemma DeliveryAnswers(senders: set<string>, q: Queue, job: Job, now: Moment, c: Chance)
    requires job.row < |q.rows|
    ensures
      var n, m, row := Deliver(senders, q, job, now, c), job.message, q.rows[job.row];
      var able := m.channel in senders && m.readable;
      && n.calls == (if able then q.calls + [job.row] else q.calls)
      && n.lost == (if c.kept then q.lost else q.lost + [job.row])
      && |n.rows| == |q.rows| && (forall r :: 0 <= r < |q.rows| && (r != job.row || !c.kept) ==> n.rows[r] == q.rows[r])
      && (c.kept ==>
            n.rows[job.row] ==
              if !able then row.(state := Failed)
              else if c.reply == Accepted then row.(state := Sent)
              else if c.reply == Permanent || m.attempts >= 5 then row.(state := Failed)
              else row.(nextAt := now + Backoff(m.attempts) * 60_000_000_000))
      && OutcomeOf(senders, m, c.reply) ==
           (if able && c.reply == Accepted then WasSent
            else if able && c.reply == Temporary && m.attempts < 5 then WillRetry
            else HasFailed)
  {
  }

  /** The waits in minutes. */
  lemma BackoffIs(attempt: nat)
    ensures Backoff(1) == 1 && Backoff(2) == 5 && Backoff(3) == 25 && Backoff(4) == 125 && Backoff(5) == 625
    ensures attempt >= 6 ==> Backoff(attempt) == 1440
    ensures Backoff(attempt) <= Backoff(attempt + 1)
  {
    assert Power(2) == 25 && Power(3) == 125 && Power(4) == 625 && Power(5) == 3125;
    if attempt >= 6 { PowerGrows(5, attempt - 1); }
  }

  lemma {:induction false} PowerGrows(a: nat, b: nat)
    requires a <= b
    ensures Power(a) <= Power(b)
  {
    if a < b { PowerGrows(a, b - 1); }
  }

  /** A claim takes at most fifty due messages, the earliest first, all if there are no more,
      and counts one attempt on each of them and on no other. */
  lemma ClaimIs(q: Queue, p: Pass)
    requires Claimable(q.rows, p.now, p.picked)
    ensures |p.picked| <= 50 && (|p.picked| < 50 ==>
              forall r :: 0 <= r < |q.rows| && q.rows[r].state == Pending && q.rows[r].nextAt <= p.now ==> r in p.picked)
    ensures
      var c := Claimed(q, p);
      && c.calls == q.calls && c.lost == q.lost && |c.rows| == |q.rows|
      && forall r :: 0 <= r < |q.rows| ==>
           c.rows[r] == if r in p.picked then q.rows[r].(attempts := q.rows[r].attempts + 1) else q.rows[r]
    ensures forall r :: r in p.picked ==> r < |q.rows| && q.rows[r].state == Pending && q.rows[r].nextAt <= p.now
  {
    if |p.picked| < 50 { AllPicked(q.rows, p.now, p.picked); }
  }

  /** As many different due rows as there are due: all of them. */
  lemma {:induction false} AllPicked(rows: seq<Message>, now: Moment, picked: seq<nat>)
    requires |picked| == CountDue(rows, now) && InRange(picked, |rows|)
    requires forall i, j :: 0 <= i < j < |picked| ==> picked[i] != picked[j]
    requires forall k :: 0 <= k < |picked| ==> Due(rows[picked[k]], now)
    ensures forall r :: 0 <= r < |rows| && Due(rows[r], now) ==> r in picked
  {
    if rows != [] {
      var last, init := |rows| - 1, rows[..|rows| - 1];
      if k :| 0 <= k < |picked| && picked[k] == last {
        var rest := picked[..k] + picked[k + 1..];
        assert forall x :: x in rest ==> x in picked;
        forall i | 0 <= i < |rest| ensures rest[i] < last && Due(init[rest[i]], now) {
          assert rest[i] == picked[if i < k then i else i + 1];
        }
        AllPicked(init, now, rest);
      } else {
        forall i | 0 <= i < |picked| ensures picked[i] < last && Due(init[picked[i]], now) {}
        TooMany(init, now, picked);
        if Due(rows[last], now) {
          assert |picked| <= CountDue(init, now);
        } else {
          AllPicked(init, now, picked);
        }
      }
    }
  }

  lemma SomeRow(picked: seq<nat>, n: nat)
    requires InRange(picked, n) && picked != []
    ensures n > 0
  {
    assert picked[0] < n;
  }

  /** Different due rows are never more than there are due. */
  lemma {:induction false} TooMany(rows: seq<Message>, now: Moment, picked: seq<nat>)
    requires InRange(picked, |rows|) && forall i, j :: 0 <= i < j < |picked| ==> picked[i] != picked[j]
    requires forall k :: 0 <= k < |picked| ==> Due(rows[picked[k]], now)
    ensures |picked| <= CountDue(rows, now)
  {
    if picked != [] { SomeRow(picked, |rows|); }
    if rows != [] {
      var last, init := |rows| - 1, rows[..|rows| - 1];
      if k :| 0 <= k < |picked| && picked[k] == last {
        var rest := picked[..k] + picked[k + 1..];
        forall i | 0 <= i < |rest| ensures rest[i] < last && Due(init[rest[i]], now) {
          assert rest[i] == picked[if i < k then i else i + 1];
        }
        TooMany(init, now, rest);
      } else {
        TooMany(init, now, picked);
      }
    }
  }

  // ---- What one pass does ----

  /** The outcome a job has with a reply. */
  function JobOutcome(senders: set<string>, job: Job, c: Chance): Outcome {
    var able := job.message.channel in senders && job.message.readable;
    if able && c.reply == Accepted then WasSent
    else if able && c.reply == Temporary && job.message.attempts < 5 then WillRetry
    else HasFailed
  }

  function OutcomesFrom(senders: set<string>, jobs: seq<Job>, chance: nat -> Chance, k: nat, o: Outcome): nat
    requires k <= |jobs|
    decreases |jobs| - k
  {
    if k == |jobs| then 0
    else (if JobOutcome(senders, jobs[k], chance(k)) == o then 1 else 0) + OutcomesFrom(senders, jobs, chance, k + 1, o)
  }

  /** Rows whose sender is called, in the order of the jobs. */
  function CalledFrom(senders: set<string>, jobs: seq<Job>, k: nat): seq<nat>
    requires k <= |jobs|
    decreases |jobs| - k
  {
    if k == |jobs| then []
    else (if jobs[k].message.channel in senders && jobs[k].message.readable then [jobs[k].row] else []) + CalledFrom(senders, jobs, k + 1)
  }

  lemma {:induction false} PassCounts(senders: set<string>, q: Queue, jobs: seq<Job>, now: Moment, chance: nat -> Chance, k: nat, t: Tally)
    requires k <= |jobs| && Fits(q, jobs)
    ensures
      var n := DeliverFrom(senders, q, jobs, now, chance, k, t);
      && n.1 == Tally(t.claimed, t.sent + OutcomesFrom(senders, jobs, chance, k, WasSent),
                      t.retried + OutcomesFrom(senders, jobs, chance, k, WillRetry),
                      t.failed + OutcomesFrom(senders, jobs, chance, k, HasFailed))
      && n.0.calls == q.calls + CalledFrom(senders, jobs, k)
    decreases |jobs| - k
  {
    hide Deliver, OutcomeOf, JobOutcome;
    if k < |jobs| {
      var c := chance(k);
      var next := Deliver(senders, q, jobs[k], now, c);
      JobOutcomeIs(senders, q, jobs[k], now, c);
      PassCounts(senders, next, jobs, now, chance, k + 1, Add(t, OutcomeOf(senders, jobs[k].message, c.reply)));
      JoinLogs(q.calls, CalledFrom(senders, [jobs[k]], 0), CalledFrom(senders, jobs, k + 1));
    }
  }

  lemma JoinLogs(a: seq<nat>, b: seq<nat>, c: seq<nat>)
    ensures a + b + c == a + (b + c)
  {
  }

  lemma JobOutcomeIs(senders: set<string>, q: Queue, job: Job, now: Moment, c: Chance)
    requires job.row < |q.rows|
    ensures OutcomeOf(senders, job.message, c.reply) == JobOutcome(senders, job, c)
    ensures |Deliver(senders, q, job, now, c).rows| == |q.rows|
    ensures Deliver(senders, q, job, now, c).calls == q.calls + CalledFrom(senders, [job], 0)
  {
    DeliveryAnswers(senders, q, job, now, c);
    assert CalledFrom(senders, [job], 1) == [];
    assert q.calls + [] == q.calls;
  }

  /** The row of a claimed message after its delivery, if the result was kept. */
  function Settled(senders: set<string>, m: Message, reply: Reply, now: Moment): Message {
    if m.channel !in senders || !m.readable then m.(state := Failed)
    else if reply == Accepted then m.(state := Sent)
    else if reply == Permanent || m.attempts >= 5 then m.(state := Failed)
    else m.(nextAt := now + Backoff(m.attempts) * 60_000_000_000)
  }

  lemma {:induction false} PassSettles(senders: set<string>, q: Queue, jobs: seq<Job>, now: Moment, chance: nat -> Chance, k: nat, t: Tally, j: nat)
    requires k <= j < |jobs| && Fits(q, jobs)
    requires forall a, b :: 0 <= a < b < |jobs| ==> jobs[a].row != jobs[b].row
    requires q.rows[jobs[j].row] == jobs[j].message
    ensures
      var n := DeliverFrom(senders, q, jobs, now, chance, k, t).0;
      && |n.rows| == |q.rows|
      && n.rows[jobs[j].row] == if chance(j).kept then Settled(senders, jobs[j].message, chance(j).reply, now) else jobs[j].message
    decreases |jobs| - k
  {
    var c := chance(k);
    var next := Deliver(senders, q, jobs[k], now, c);
    DeliveryAnswers(senders, q, jobs[k], now, c);
    var more := Add(t, OutcomeOf(senders, jobs[k].message, c.reply));
    if k == j {
      OthersUntouched(senders, next, jobs, now, chance, k + 1, more, jobs[j].row);
    } else {
      PassSettles(senders, next, jobs, now, chance, k + 1, more, j);
    }
  }

  /** A pass in full: it counts each claimed message under its one outcome, calls the senders
      of those it can, in order, settles each claimed row by its own reply, and leaves every
      other row alone. */
  lemma PassAnswers(senders: set<string>, q: Queue, p: Pass)
    requires Claimable(q.rows, p.now, p.picked)
    ensures
      var c, d := Claimed(q, p), Dispatched(senders, q, p);
      var jobs := Jobs(c.rows, p.picked);
      && d.1 == Tally(|p.picked|, OutcomesFrom(senders, jobs, p.chance, 0, WasSent),
                      OutcomesFrom(senders, jobs, p.chance, 0, WillRetry), OutcomesFrom(senders, jobs, p.chance, 0, HasFailed))
      && d.0.calls == q.calls + CalledFrom(senders, jobs, 0)
      && |d.0.rows| == |q.rows|
      && (forall r :: 0 <= r < |q.rows| && r !in p.picked ==> d.0.rows[r] == q.rows[r])
      && (forall k :: 0 <= k < |p.picked| ==>
            var m := q.rows[p.picked[k]].(attempts := q.rows[p.picked[k]].attempts + 1);
            d.0.rows[p.picked[k]] == if p.chance(k).kept then Settled(senders, m, p.chance(k).reply, p.now) else m)
  {
    hide Settled, DeliverFrom, OutcomesFrom, CalledFrom, CountDue, Due;
    var c := Claimed(q, p);
    var jobs := Jobs(c.rows, p.picked);
    var t := Tally(|p.picked|, 0, 0, 0);
    PassCounts(senders, c, jobs, p.now, p.chance, 0, t);
    PassLength(senders, c, jobs, p.now, p.chance, 0, t);
    forall k | 0 <= k < |p.picked|
      ensures
        var m := q.rows[p.picked[k]].(attempts := q.rows[p.picked[k]].attempts + 1);
        Dispatched(senders, q, p).0.rows[p.picked[k]] == if p.chance(k).kept then Settled(senders, m, p.chance(k).reply, p.now) else m
    {
      assert p.picked[k] in p.picked;
      PassSettles(senders, c, jobs, p.now, p.chance, 0, t, k);
    }
    forall r | 0 <= r < |q.rows| && r !in p.picked ensures Dispatched(senders, q, p).0.rows[r] == q.rows[r] {
      forall j | 0 <= j < |jobs| ensures jobs[j].row != r { assert p.picked[j] in p.picked; }
      OthersUntouched(senders, c, jobs, p.now, p.chance, 0, t, r);
    }
  }

  lemma {:induction false} PassLength(senders: set<string>, q: Queue, jobs: seq<Job>, now: Moment, chance: nat -> Chance, k: nat, t: Tally)
    requires k <= |jobs| && Fits(q, jobs)
    ensures |DeliverFrom(senders, q, jobs, now, chance, k, t).0.rows| == |q.rows|
    decreases |jobs| - k
  {
    if k < |jobs| {
      PassLength(senders, Deliver(senders, q, jobs[k], now, chance(k)), jobs, now, chance, k + 1,
                 Add(t, OutcomeOf(senders, jobs[k].message, chance(k).reply)));
    }
  }
}
