/**
 Applying delivered jobs behind the dedup log: look up, run, record, report
 (apps/provisioning-agent/src/main.rs), and how often one job can run.
 */
module JobRuns {
  import opened Prelude
  import opened OpDedup

  datatype Report = CompleteReport(job: int, result: string) | FailReport(job: int, message: string)

  datatype RunOutcome = Succeeded(result: string) | Failed(message: string)

  /** What becomes of the record of an execution. */
  datatype Fate = Written(at: nat, later: nat) | WriteFailed | Crashed

  /** One delivery of a job and what the world does with it. */
  datatype Delivery = Delivery(job: int, logReadable: bool, run: RunOutcome, fate: Fate, leaseLive: bool, queueOk: bool)

  /** `history` is the sequence of successful records, `executed` of successful runs. */
  datatype Agent = Agent(log: seq<Entry>, history: seq<Recording>, executed: seq<(int, string)>, queue: seq<Report>)

  function Known(a: Agent, d: Delivery): Option<Outcome>
  {
    if d.logReadable then Find(a.log, d.job) else None
  }

  /** Only a recorded success stands in for running the job. */
  predicate Replays(a: Agent, d: Delivery)
  {
    Known(a, d).Some? && Known(a, d).value.Complete?
  }

  predicate Executes(a: Agent, d: Delivery)
  {
    !Replays(a, d) && d.run.Succeeded?
  }

  function Queued(q: seq<Report>, r: Report, ok: bool): seq<Report>
  {
    if ok then q + [r] else q
  }

  function AfterDelivery(a: Agent, d: Delivery): Agent
  {
    if Replays(a, d) then
      a.(queue := Queued(a.queue, CompleteReport(d.job, Known(a, d).value.result), d.queueOk))
    else match d.run
      case Failed(message) =>
        a.(queue := Queued(a.queue, FailReport(d.job, message), d.queueOk && !d.fate.Crashed?))
      case Succeeded(result) =>
        a.(executed := a.executed + [(d.job, result)],
           log := if d.fate.Written? then Recorded(a.log, d.job, Complete(result), d.fate.at, d.fate.later) else a.log,
           history := if d.fate.Written?
                      then a.history + [Recording(d.job, Complete(result), d.fate.at, d.fate.later)] else a.history,
           queue := Queued(a.queue, CompleteReport(d.job, result), d.leaseLive && d.queueOk && !d.fate.Crashed?))
  }

  class JobAgent {
    const log: OpDedupLog
    var executed: seq<(int, string)>
    var queue: seq<Report>
    ghost var history: seq<Recording>

    ghost function View(): Agent
      reads this, log
    {
      Agent(log.entries, history, executed, queue)
    }

    constructor ()
      ensures fresh(log) && View() == Agent([], [], [], [])
    {
      log := new OpDedupLog();
      executed, queue, history := [], [], [];
    }

    method Enqueue(r: Report, ok: bool)
      modifies this`queue
      ensures queue == Queued(old(queue), r, ok)
    {
      if ok { queue := queue + [r]; }
    }

    /** A crash ends the call where it strikes; everything before it has happened. */
    method ApplyJob(d: Delivery)
      modifies this, log
      ensures View() == AfterDelivery(old(View()), d)
    {
      if d.logReadable {
        var found := log.Lookup(d.job);
        if found.Some? && found.value.Complete? {
          Enqueue(CompleteReport(d.job, found.value.result), d.queueOk);
          return;
        }
      }
      match d.run {
        case Failed(message) =>
          if d.fate.Crashed? {
            return;
          }
          Enqueue(FailReport(d.job, message), d.queueOk);
        case Succeeded(result) =>
          executed := executed + [(d.job, result)];
          if d.fate.Crashed? {
            return;
          }
          if d.fate.Written? {
            log.Record(d.job, Complete(result), d.fate.at, d.fate.later);
            history := history + [Recording(d.job, Complete(result), d.fate.at, d.fate.later)];
          }
          if !d.leaseLive {
            return;
          }
          Enqueue(CompleteReport(d.job, result), d.queueOk);
      }
    }
  }

  // ---------------------------------------------------------------- runs

  datatype Run = Run(agents: seq<Agent>, deliveries: seq<Delivery>)

  /** The clock does not go back. */
  predicate OnTime(a: Agent, d: Delivery)
  {
    d.fate.Written? ==>
      && d.fate.at <= d.fate.later
      && (a.history != [] ==> a.history[|a.history| - 1].later <= d.fate.at)
  }

  ghost predicate Valid(r: Run)
  {
    && |r.agents| == |r.deliveries| + 1
    && r.agents[0] == Agent([], [], [], [])
    && forall i :: 0 <= i < |r.deliveries| ==>
         OnTime(r.agents[i], r.deliveries[i]) && r.agents[i + 1] == AfterDelivery(r.agents[i], r.deliveries[i])
  }

  ghost predicate Inv(a: Agent)
  {
    && a.log == LogAfter(a.history) && InTime(a.history)
    && (forall i :: 0 <= i < |a.history| ==>
         a.history[i].outcome.Complete? && (a.history[i].jobId, a.history[i].outcome.result) in a.executed)
    && (forall e :: e in a.log ==> e.outcome.Complete? && (e.jobId, e.outcome.result) in a.executed)
    && (forall q :: q in a.queue && q.CompleteReport? ==> (q.job, q.result) in a.executed)
  }

  lemma {:induction false} FindMember(s: seq<Entry>, jobId: int)
    requires Find(s, jobId).Some?
    ensures Entry(jobId, Find(s, jobId).value, FindAt(s, jobId)) in s
  {
    if s[0].jobId != jobId { FindMember(s[1..], jobId); }
  }

  function FindAt(s: seq<Entry>, jobId: int): nat
    requires Find(s, jobId).Some?
  {
    if s[0].jobId == jobId then s[0].at else FindAt(s[1..], jobId)
  }

  lemma StepKeepsInv(a: Agent, d: Delivery)
    requires Inv(a) && OnTime(a, d)
    ensures Inv(AfterDelivery(a, d))
  {
    if Replays(a, d) {
      FindMember(a.log, d.job);
    } else if d.run.Succeeded? {
      var ran := a.(executed := a.executed + [(d.job, d.run.result)]);
      RanKeepsInv(a, ran);
      var kept := if d.fate.Written? then Noted(ran, d) else ran;
      if d.fate.Written? { NotedKeepsInv(ran, d); }
      assert AfterDelivery(a, d) == kept.(queue := AfterDelivery(a, d).queue);
    }
  }

  lemma RanKeepsInv(a: Agent, b: Agent)
    requires Inv(a) && b == a.(executed := b.executed) && a.executed <= b.executed
    ensures Inv(b)
  {
    forall x | x in a.executed ensures x in b.executed {
      var i :| 0 <= i < |a.executed| && a.executed[i] == x;
      assert b.executed[i] == x;
    }
  }

  /** The log and the history with this run recorded. */
  function Noted(a: Agent, d: Delivery): Agent
    requires d.run.Succeeded? && d.fate.Written?
  {
    a.(log := Recorded(a.log, d.job, Complete(d.run.result), d.fate.at, d.fate.later),
       history := a.history + [Recording(d.job, Complete(d.run.result), d.fate.at, d.fate.later)])
  }

  lemma NotedKeepsInv(a: Agent, d: Delivery)
    requires Inv(a) && OnTime(a, d) && d.run.Succeeded? && d.fate.Written? && (d.job, d.run.result) in a.executed
    ensures Inv(Noted(a, d))
  {
    var x := Recording(d.job, Complete(d.run.result), d.fate.at, d.fate.later);
    RecordedMembers(a.log, x.jobId, x.outcome, x.at, x.later);
    InTimeGrows(a.history, x);
    assert (a.history + [x])[..|a.history|] == a.history;
  }

  lemma InTimeGrows(h: seq<Recording>, x: Recording)
    requires InTime(h) && x.at <= x.later && (h != [] ==> h[|h| - 1].later <= x.at)
    ensures InTime(h + [x])
  {
    forall i | 0 <= i < |h| ensures h[i].later <= x.at {
      if i < |h| - 1 { assert h[i].later <= h[|h| - 1].at; }
    }
  }

  lemma {:induction false} AlwaysInv(r: Run, k: nat)
    requires Valid(r) && k <= |r.deliveries|
    ensures Inv(r.agents[k])
  {
    if k > 0 {
      AlwaysInv(r, k - 1);
      StepKeepsInv(r.agents[k - 1], r.deliveries[k - 1]);
    }
  }

  /** Every completion ever reported carries the result of a run that really happened. */
  lemma ReportsAreTrue(r: Run, k: nat, job: int, result: string)
    requires Valid(r) && k <= |r.deliveries| && CompleteReport(job, result) in r.agents[k].queue
    ensures (job, result) in r.agents[k].executed
  {
    AlwaysInv(r, k);
  }

  /** Recording `i` speaks for its job: the last of it, within a day of the last one, and not crowded out. */
  ghost predicate SpeaksFor(h: seq<Recording>, i: nat, job: int)
  {
    && IsLast(h, i) && h[i].jobId == job
    && h[|h| - 1].later <= h[i].at + 86400 && |JobsSince(h, i)| < 4096
  }

  /** In every run, a job is in the log if and only if a recording speaks for it, and then with its result. */
  lemma InLogIff(r: Run, k: nat, job: int)
    requires Valid(r) && k <= |r.deliveries|
    ensures Find(r.agents[k].log, job).Some? <==> exists i: nat :: SpeaksFor(r.agents[k].history, i, job)
    ensures forall i: nat :: SpeaksFor(r.agents[k].history, i, job) ==>
              r.agents[k].history[i].outcome.Complete?
              && Find(r.agents[k].log, job) == Some(r.agents[k].history[i].outcome)
  {
    AlwaysInv(r, k);
    var h := r.agents[k].history;
    forall i: nat | SpeaksFor(h, i, job) ensures Find(LogAfter(h), job) == Some(h[i].outcome) {
      FoundIff(h, i);
    }
    if Find(LogAfter(h), job).Some? {
      if forall i :: 0 <= i < |h| ==> h[i].jobId != job { NeverRecorded(h, job); }
      var j :| 0 <= j < |h| && h[j].jobId == job;
      var i := LastOf(h, j);
      FoundIff(h, i);
      assert SpeaksFor(h, i, job);
    }
  }

  /** What the delivery adds to the queue, if the queue takes it. */
  function Queues(d: Delivery, reports: seq<Report>): seq<Report>
  {
    if d.queueOk then reports else []
  }

  /**
   At every delivery of every run. If the log can be read and a recording
   speaks for the job, it is not run again and its recorded result is reported.
   Otherwise it is run: a failure is reported and leaves no trace, a success is
   recorded if its write gets through and reported if the claim is still held.
   A crash during the run suppresses either report.
   */
  lemma DeliveryReports(r: Run, k: nat)
    requires Valid(r) && k < |r.deliveries|
    ensures var a, b, d := r.agents[k], r.agents[k + 1], r.deliveries[k];
            if d.logReadable && exists i: nat :: SpeaksFor(a.history, i, d.job) then
              && b.executed == a.executed && b.history == a.history
              && forall i: nat :: SpeaksFor(a.history, i, d.job) ==>
                   a.history[i].outcome.Complete?
                   && b.queue == a.queue + Queues(d, [CompleteReport(d.job, a.history[i].outcome.result)])
            else if d.run.Failed? then
              && b.executed == a.executed && b.history == a.history
              && b.queue == a.queue + Queues(d, if d.fate.Crashed? then [] else [FailReport(d.job, d.run.message)])
            else
              && b.executed == a.executed + [(d.job, d.run.result)]
              && b.history == a.history
                 + (if d.fate.Written? then [Recording(d.job, Complete(d.run.result), d.fate.at, d.fate.later)] else [])
              && b.queue == a.queue
                 + Queues(d, if d.fate.Crashed? || !d.leaseLive then [] else [CompleteReport(d.job, d.run.result)])
  {
    InLogIff(r, k, r.deliveries[k].job);
    AlwaysInv(r, k);
    var a, d := r.agents[k], r.deliveries[k];
    if Find(a.log, d.job).Some? { FindMember(a.log, d.job); }
  }

  // --------------------------------------------------- counting one job

  ghost predicate RunsAt(r: Run, k: nat, job: int)
    requires Valid(r) && k < |r.deliveries|
  {
    r.deliveries[k].job == job && Executes(r.agents[k], r.deliveries[k])
  }

  /** The run went unrecorded: its write failed or the process died first. */
  ghost predicate LostAt(r: Run, k: nat, job: int)
    requires Valid(r) && k < |r.deliveries|
  {
    RunsAt(r, k, job) && !r.deliveries[k].fate.Written?
  }

  ghost predicate UnreadAt(r: Run, k: nat, job: int)
    requires Valid(r) && k < |r.deliveries|
  {
    RunsAt(r, k, job) && !r.deliveries[k].logReadable
  }

  /** The job's entry was in the log, or was being recorded, and is gone afterwards. */
  ghost predicate EvictedAt(r: Run, k: nat, job: int)
    requires Valid(r) && k < |r.deliveries|
  {
    (Find(r.agents[k].log, job).Some? || (RunsAt(r, k, job) && r.deliveries[k].fate.Written?))
    && Find(r.agents[k + 1].log, job).None?
  }

  ghost function Runs(r: Run, k: nat, job: int): nat
    requires Valid(r) && k <= |r.deliveries|
  {
    if k == 0 then 0 else Runs(r, k - 1, job) + if RunsAt(r, k - 1, job) then 1 else 0
  }

  ghost function Lost(r: Run, k: nat, job: int): nat
    requires Valid(r) && k <= |r.deliveries|
  {
    if k == 0 then 0 else Lost(r, k - 1, job) + if LostAt(r, k - 1, job) then 1 else 0
  }

  ghost function Unread(r: Run, k: nat, job: int): nat
    requires Valid(r) && k <= |r.deliveries|
  {
    if k == 0 then 0 else Unread(r, k - 1, job) + if UnreadAt(r, k - 1, job) then 1 else 0
  }

  ghost function Evicted(r: Run, k: nat, job: int): nat
    requires Valid(r) && k <= |r.deliveries|
  {
    if k == 0 then 0 else Evicted(r, k - 1, job) + if EvictedAt(r, k - 1, job) then 1 else 0
  }

  /** A readable log that does not replay a job holds no entry for it. */
  lemma NotReplayedNotFound(a: Agent, d: Delivery)
    requires Inv(a) && Executes(a, d) && d.logReadable
    ensures Find(a.log, d.job).None?
  {
    if Find(a.log, d.job).Some? { FindMember(a.log, d.job); }
  }

  lemma {:induction false} RunLedger(r: Run, k: nat, job: int)
    requires Valid(r) && k <= |r.deliveries|
    ensures Runs(r, k, job) <= Lost(r, k, job) + Unread(r, k, job) + Evicted(r, k, job)
                             + if Find(r.agents[k].log, job).Some? then 1 else 0
  {
    if k > 0 {
      RunLedger(r, k - 1, job);
      var a, d := r.agents[k - 1], r.deliveries[k - 1];
      if RunsAt(r, k - 1, job) && d.logReadable {
        AlwaysInv(r, k - 1);
        NotReplayedNotFound(a, d);
      }
    }
  }

  /**
   In every run of deliveries, crashes and restarts, one job id succeeds at
   most once, plus once for each of its runs that went unrecorded, each that
   found the log unreadable, and each time its entry was evicted.
   */
  lemma JobRunsAtMost(r: Run, k: nat, job: int)
    requires Valid(r) && k <= |r.deliveries|
    ensures Runs(r, k, job) <= 1 + Lost(r, k, job) + Unread(r, k, job) + Evicted(r, k, job)
  {
    RunLedger(r, k, job);
  }

  /** An entry is evicted only once it is a day old or 4096 other jobs have been recorded since. */
  lemma EvictedOnlyIfOldOrCrowdedOut(r: Run, k: nat, job: int) returns (i: nat)
    requires Valid(r) && k < |r.deliveries| && EvictedAt(r, k, job)
    ensures var h := r.agents[k + 1].history;
            && IsLast(h, i) && h[i].jobId == job
            && (h[i].at + RETENTION_SECS < h[|h| - 1].later || |JobsSince(h, i)| >= MAX_ENTRIES)
  {
    AlwaysInv(r, k + 1);
    var h := r.agents[k + 1].history;
    var j := RecordedBefore(r, k, job);
    i := LastOf(h, j);
    FoundIff(h, i);
  }

  lemma RecordedBefore(r: Run, k: nat, job: int) returns (j: nat)
    requires Valid(r) && k < |r.deliveries| && EvictedAt(r, k, job)
    ensures j < |r.agents[k + 1].history| && r.agents[k + 1].history[j].jobId == job
  {
    var before := r.agents[k].history;
    if RunsAt(r, k, job) && r.deliveries[k].fate.Written? {
      j := |before|;
    } else {
      AlwaysInv(r, k);
      assert exists i :: 0 <= i < |before| && before[i].jobId == job by {
        if forall i :: 0 <= i < |before| ==> before[i].jobId != job { NeverRecorded(before, job); }
      }
      j :| 0 <= j < |before| && before[j].jobId == job;
    }
  }

  lemma LastOf(h: seq<Recording>, j: nat) returns (i: nat)
    requires j < |h|
    ensures IsLast(h, i) && h[i].jobId == h[j].jobId
    decreases |h| - j
  {
    if exists k :: j < k < |h| && h[k].jobId == h[j].jobId {
      var k :| j < k < |h| && h[k].jobId == h[j].jobId;
      i := LastOf(h, k);
    } else {
      i := j;
    }
  }
}
