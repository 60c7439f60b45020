/** The retrying delivery queue: a pass claims due messages, then tries each of them. */
module Outbox {
  import opened DeliveryWindow

  const MAX_ATTEMPTS := 5
  const BATCH := 50

  datatype State = Pending | Sent | Failed

  /** `readable`: the stored payload can be decoded. */
  datatype Message = Message(channel: string, readable: bool, state: State, attempts: nat, nextAt: Moment)

  /** A message is named by its row number. `calls` lists every call of a sender and
      `lost` every delivery whose result could not be written back. */
  datatype Queue = Queue(rows: seq<Message>, calls: seq<nat>, lost: seq<nat>)

  /** A claimed row as the worker read it. */
  datatype Job = Job(row: nat, message: Message)

  datatype Reply = Accepted | Permanent | Temporary

  datatype Outcome = WasSent | WillRetry | HasFailed

  /** What the outside decides about one delivery: the sender's answer and whether the
      result is committed. */
  datatype Chance = Chance(reply: Reply, kept: bool)

  // ---- Claiming ----

  predicate Due(m: Message, now: Moment) { m.state == Pending && m.nextAt <= now }

  function CountDue(rows: seq<Message>, now: Moment): nat {
    if rows == [] then 0 else CountDue(rows[..|rows| - 1], now) + if Due(rows[|rows| - 1], now) then 1 else 0
  }

  predicate InRange(picked: seq<nat>, n: nat) { forall k :: 0 <= k < |picked| ==> picked[k] < n }

  /** A choice the claiming statement may make: due rows in order of their time, at most a
      batch and as many as there are; ties are broken arbitrarily. */
  ghost predicate Claimable(rows: seq<Message>, now: Moment, picked: seq<nat>) {
    && |picked| == (if CountDue(rows, now) < BATCH then CountDue(rows, now) else BATCH)
    && (forall i, j :: 0 <= i < j < |picked| ==> picked[i] != picked[j])
    && InRange(picked, |rows|)
    && (forall k :: 0 <= k < |picked| ==> Due(rows[picked[k]], now))
    && (forall r, s :: 0 <= r < |rows| && Due(rows[r], now) && r !in picked && s in picked ==> s < |rows| && rows[s].nextAt <= rows[r].nextAt)
  }

  function ClaimRows(rows: seq<Message>, picked: seq<nat>): seq<Message> {
    seq(|rows|, r requires 0 <= r < |rows| => if r in picked then rows[r].(attempts := rows[r].attempts + 1) else rows[r])
  }

  function Jobs(rows: seq<Message>, picked: seq<nat>): seq<Job>
    requires InRange(picked, |rows|)
  {
    seq(|picked|, k requires 0 <= k < |picked| => Job(picked[k], rows[picked[k]]))
  }

  // ---- Delivering ----

  function Power(k: nat): nat { if k == 0 then 1 else 5 * Power(k - 1) }

  /** Minutes to wait after an attempt: 1, 5, 25 and so on up to a day. */
  function Backoff(attempt: nat): nat {
    var minutes := Power(if attempt > 1 then attempt - 1 else 0);
    if minutes > 24 * 60 then 24 * 60 else minutes
  }

  predicate CallsSender(senders: set<string>, m: Message) { m.channel in senders && m.readable }

  function OutcomeOf(senders: set<string>, m: Message, reply: Reply): Outcome {
    if !CallsSender(senders, m) then HasFailed
    else if reply == Accepted then WasSent
    else if reply == Permanent || m.attempts >= MAX_ATTEMPTS then HasFailed
    else WillRetry
  }

  function Mark(row: Message, o: Outcome, attempts: nat, now: Moment): Message {
    match o
    case WasSent => row.(state := Sent)
    case HasFailed => row.(state := Failed)
    case WillRetry => row.(nextAt := now + Backoff(attempts) * NS_PER_MINUTE)
  }

  function Deliver(senders: set<string>, q: Queue, job: Job, now: Moment, c: Chance): Queue
    requires job.row < |q.rows|
  {
    var r := job.row;
    Queue(if c.kept then q.rows[r := Mark(q.rows[r], OutcomeOf(senders, job.message, c.reply), job.message.attempts, now)] else q.rows,
          if CallsSender(senders, job.message) then q.calls + [r] else q.calls,
          if c.kept then q.lost else q.lost + [r])
  }

  // ---- One pass ----

  datatype Tally = Tally(claimed: nat, sent: nat, retried: nat, failed: nat)

  function Add(t: Tally, o: Outcome): Tally {
    match o
    case WasSent => t.(sent := t.sent + 1)
    case WillRetry => t.(retried := t.retried + 1)
    case HasFailed => t.(failed := t.failed + 1)
  }

  predicate Fits(q: Queue, jobs: seq<Job>) { forall k :: 0 <= k < |jobs| ==> jobs[k].row < |q.rows| }

  /** The jobs from the k-th on; `chance` is indexed by job. */
  function DeliverFrom(senders: set<string>, q: Queue, jobs: seq<Job>, now: Moment, chance: nat -> Chance, k: nat, t: Tally): (Queue, Tally)
    requires k <= |jobs| && Fits(q, jobs)
    decreases |jobs| - k
  {
    if k == |jobs| then (q, t)
    else
      var c := chance(k);
      DeliverFrom(senders, Deliver(senders, q, jobs[k], now, c), jobs, now, chance, k + 1,
                  Add(t, OutcomeOf(senders, jobs[k].message, c.reply)))
  }

  /** A pass at a moment, with the rows the database picked. */
  datatype Pass = Pass(now: Moment, picked: seq<nat>, chance: nat -> Chance)

  function Claimed(q: Queue, p: Pass): Queue { q.(rows := ClaimRows(q.rows, p.picked)) }

  function Dispatched(senders: set<string>, q: Queue, p: Pass): (Queue, Tally)
    requires InRange(p.picked, |q.rows|)
  {
    var c := Claimed(q, p);
    DeliverFrom(senders, c, Jobs(c.rows, p.picked), p.now, p.chance, 0, Tally(|p.picked|, 0, 0, 0))
  }

  // ---- The loops ----

  method ComputeBackoff(attempt: nat) returns (minutes: nat)
    ensures minutes == Backoff(attempt)
  {
    minutes := 1;
    var i := 1;
    while i < attempt
      invariant 1 <= i && (attempt >= 1 ==> i <= attempt) && (attempt < 1 ==> i == 1)
      invariant minutes == Power(i - 1)
    {
      minutes := minutes * 5;
      i := i + 1;
    }
    if minutes > 24 * 60 {
      minutes := 24 * 60;
    }
  }

  class Dispatcher {
    const senders: set<string>
    var queue: Queue

    constructor (senders: set<string>)
      ensures this.senders == senders && queue == Queue([], [], [])
    {
      this.senders := senders;
      queue := Queue([], [], []);
    }

    method Enqueue(channel: string, readable: bool, at: Moment)
      modifies this
      ensures queue == old(queue).(rows := old(queue).rows + [Message(channel, readable, Pending, 0, at)])
    {
      queue := queue.(rows := queue.rows + [Message(channel, readable, Pending, 0, at)]);
    }

    method DeliverOne(job: Job, now: Moment, c: Chance) returns (o: Outcome)
      requires job.row < |queue.rows|
      modifies this
      ensures queue == Deliver(senders, old(queue), job, now, c)
      ensures o == OutcomeOf(senders, job.message, c.reply)
      ensures |queue.rows| == |old(queue).rows|
    {
      var m := job.message;
      if m.channel !in senders || !m.readable {
        MarkRow(job.row, c.kept, queue.rows[job.row].(state := Failed));
        return HasFailed;
      }
      queue := queue.(calls := queue.calls + [job.row]);
      if c.reply == Accepted {
        MarkRow(job.row, c.kept, queue.rows[job.row].(state := Sent));
        return WasSent;
      }
      if c.reply == Permanent || m.attempts >= MAX_ATTEMPTS {
        MarkRow(job.row, c.kept, queue.rows[job.row].(state := Failed));
        return HasFailed;
      }
      var minutes := ComputeBackoff(m.attempts);
      MarkRow(job.row, c.kept, queue.rows[job.row].(nextAt := now + minutes * NS_PER_MINUTE));
      o := WillRetry;
    }

    /** Writes a result back; a failure to do so is only logged. */
    method MarkRow(row: nat, kept: bool, m: Message)
      requires row < |queue.rows|
      modifies this
      ensures queue == if kept then old(queue).(rows := old(queue).rows[row := m])
                       else old(queue).(lost := old(queue).lost + [row])
    {
      if kept {
        queue := queue.(rows := queue.rows[row := m]);
      } else {
        queue := queue.(lost := queue.lost + [row]);
      }
    }

    method Dispatch(p: Pass) returns (t: Tally)
      requires Claimable(queue.rows, p.now, p.picked)
      modifies this
      ensures (queue, t) == Dispatched(senders, old(queue), p)
    {
      hide OutcomeOf, Due, Mark, Deliver, CallsSender, CountDue;
      queue := queue.(rows := ClaimRows(queue.rows, p.picked));
      var jobs := Jobs(queue.rows, p.picked);
      t := Tally(|jobs|, 0, 0, 0);
      for k := 0 to |jobs|
        invariant Fits(queue, jobs)
        invariant DeliverFrom(senders, queue, jobs, p.now, p.chance, k, t) == Dispatched(senders, old(queue), p)
      {
        var o := DeliverOne(jobs[k], p.now, p.chance(k));
        match o {
          case WasSent => t := t.(sent := t.sent + 1);
          case WillRetry => t := t.(retried := t.retried + 1);
          case HasFailed => t := t.(failed := t.failed + 1);
        }
      }
    }
  }
}
