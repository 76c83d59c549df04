/**
 The durable scheduler as a state machine: submissions, dispatches, deliveries of leases,
 completions, recoveries and operator commands in any order, with the source rows changing
 behind its back. `SchedulerDb` is the same system as the program writes it.
 */
module Scheduler {
  import opened Wrappers
  import Sets
  import opened SchedulerJobs
  import opened SchedulerDispatch

  datatype State = State(now: Time, jobs: seq<Job>, turns: Turns, nextLease: Lease)

  /** What can happen to one job; a `Claim` or `Complete` may name any lease. */
  datatype Op =
    | Claim(lease: Lease, mismatch: Option<string>)
    | Complete(lease: Lease, result: Result)
    | Pause
    | Resume
    | Cancel
    | Retry(priority: int, notBefore: Option<Time>)
    | SourceMoves(source: Option<Status>)

  /** `locked` are rows another transaction holds; `direct` is running work outside the scheduler. */
  datatype Action =
    | Tick(seconds: Time)
    | Submit(id: nat, project: Project, work: WorkType, priority: int, notBefore: Option<Time>)
    | Dispatch(limit: nat, direct: nat, locked: set<nat>)
    | Recover(locked: set<nat>)
    | Act(job: nat, op: Op)

  const INIT := State(0.0, [], map[], 0)

  /** The first `n` jobs that are not locked, each changed by `f`. */
  function ChangedUpTo(jobs: seq<Job>, f: Job -> Job, locked: set<nat>, n: nat): (after: seq<Job>)
    requires n <= |jobs|
    ensures |after| == |jobs|
    ensures forall i :: 0 <= i < |jobs| ==> after[i] == if i < n && i !in locked then f(jobs[i]) else jobs[i]
  {
    seq(|jobs|, i requires 0 <= i < |jobs| => if i < n && i !in locked then f(jobs[i]) else jobs[i])
  }

  /** The recovery pass. */
  function RecoveredAll(jobs: seq<Job>, now: Time, locked: set<nat>): seq<Job> {
    ChangedUpTo(jobs, Recovery(now), locked, |jobs|)
  }

  function Recovery(now: Time): Job -> Job {
    job => RecoveredAt(job, now)
  }

  function RoundOf(s: State, limit: nat, direct: nat, locked: set<nat>): Round {
    Dispatched(s.jobs, s.turns, s.nextLease, s.now, limit, direct, locked)
  }

  /** What an operation makes of a job; a refused one leaves it as it is. */
  function Acted(job: Job, op: Op, now: Time): Job {
    match op
    case Claim(lease, mismatch) => Started(job, lease, mismatch, now)
    case Complete(lease, result) => Completed(job, lease, result)
    case Pause => PausedJob(job).GetOr(job)
    case Resume => ResumedJob(job, now).GetOr(job)
    case Cancel => CancelledJob(job).GetOr(job)
    case Retry(priority, notBefore) => RetriedJob(job, priority, notBefore, now).GetOr(job)
    case SourceMoves(source) => job.(source := source)
  }

  function Step(s: State, a: Action): State {
    match a
    case Tick(seconds) => if seconds > 0.0 then s.(now := s.now + seconds) else s
    case Submit(id, project, work, priority, notBefore) =>
      s.(jobs := s.jobs + [Submitted(id, project, work, priority, notBefore, s.now)])
    case Dispatch(limit, direct, locked) =>
      var r := RoundOf(s, limit, direct, locked);
      State(s.now, r.jobs, r.turns, r.nextLease)
    case Recover(locked) => s.(jobs := RecoveredAll(s.jobs, s.now, locked))
    case Act(i, op) => if i < |s.jobs| then s.(jobs := s.jobs[i := Acted(s.jobs[i], op, s.now)]) else s
  }

  function Exec(trace: seq<Action>): State {
    if |trace| == 0 then INIT else Step(Exec(trace[..|trace| - 1]), trace[|trace| - 1])
  }

  lemma {:induction false} ExecNext(trace: seq<Action>, k: nat)
    requires k < |trace|
    ensures Exec(trace[..k + 1]) == Step(Exec(trace[..k]), trace[k])
  {
    assert trace[..k + 1][..k] == trace[..k];
  }

  // ---------- what the operations mean ----------

  /** The lease still runs, and the source waits for the work. */
  ghost predicate IsLive(job: Job, lease: Lease, now: Time) {
    && job.state == Leased && job.lease == Some(lease) && job.expiresAt.Some? && now < job.expiresAt.value
    && job.source == Some(Waiting)
  }

  /** The job runs from `now`, and its lease for ten minutes. */
  ghost predicate Launched(before: Job, after: Job, now: Time) {
    && after == before.(state := Running, expiresAt := Some(now + 600.0), events := after.events)
    && after.events == before.events + [Event(StartedEvent, before.attempts, None)]
  }

  /**
   What a completion leaves: nothing changes unless the lease holds the job; then the job is
   released, cancelled if that was asked for or reported, succeeded if the work is finished,
   and failed otherwise with the reported code if that is a safe one.
   */
  ghost predicate ClosedUnder(before: Job, after: Job, lease: Lease, result: Result) {
    if before.lease != Some(lease) || before.state !in {Leased, Running, CancelRequested} then after == before
    else
      && after == before.(state := after.state, failure := after.failure, lease := None, expiresAt := None,
                          events := after.events)
      && (after.state == Cancelled <==> before.state == CancelRequested || result.status == Withdrawn)
      && (after.state == Succeeded <==> after.state != Cancelled && result.status == Finished)
      && (after.state in {Cancelled, Succeeded, Failed})
      && (after.state == Succeeded ==> after.failure == None)
      && (after.state == Cancelled ==> after.failure == before.failure)
      && (after.state == Failed && result.code.Some? && SafeCode(result.code.value) ==> after.failure == result.code)
      && (after.state == Failed && (result.code.None? || !SafeCode(result.code.value)) ==>
            after.failure == Some("source_execution_failed"))
  }

  // ---------- the program ----------

  class SchedulerDb {
    var now: Time
    var jobs: seq<Job>
    var turns: Turns
    var nextLease: Lease

    constructor ()
      ensures Value() == INIT
    {
      now, jobs, turns, nextLease := 0.0, [], map[], 0;
    }

    ghost function Value(): State
      reads this
    {
      State(now, jobs, turns, nextLease)
    }

    /** `dispatch_due_jobs`: one pass over the ordered projects. */
    method DispatchDueJobs(limit: nat, direct: nat, locked: set<nat>) returns (selected: seq<nat>)
      modifies this
      ensures Value() == Step(old(Value()), Dispatch(limit, direct, locked))
      ensures selected == RoundOf(old(Value()), limit, direct, locked).selected
      ensures |selected| <= limit && (selected != [] ==> |ActiveJobs(old(jobs))| + direct + |selected| <= 1)
    {
      SelectionBounded(jobs, turns, nextLease, now, limit, direct, locked);
      ghost var before := Value();
      ghost var start := Start(jobs, turns, nextLease, now);
      var slots := Slots(jobs, limit, direct);
      var order := Ordered(jobs, turns, now, |jobs|);
      var nextTurn := MaxTurn(turns, order);
      var busy := BusyProjects(jobs);
      selected := [];
      for k := 0 to |order|
        invariant now == before.now
        invariant Round(jobs, turns, nextTurn, nextLease, busy, selected) == Served(start, order, k, slots, now, locked)
      {
        if |selected| >= slots {
          ServedMonotone(start, order, k, |order|, slots, now, locked);
          break;
        }
        if order[k] in busy {
          continue;
        }
        var pick := Pick(jobs, order[k], now, locked, |jobs|);
        if pick.None? {
          continue;
        }
        jobs := jobs[pick.value := LeasedTo(jobs[pick.value], nextLease, now)];
        nextLease := nextLease + 1;
        nextTurn := nextTurn + 1;
        turns := turns[order[k] := nextTurn];
        busy := busy + {order[k]};
        selected := selected + [pick.value];
      }
    }

    /** `recover_expired_scheduler_leases`: every expired job whose row is free. */
    method RecoverExpiredLeases(locked: set<nat>) returns (count: nat)
      modifies this
      ensures Value() == Step(old(Value()), Recover(locked))
      ensures count == |ExpiredJobs(old(jobs), old(now), locked, |old(jobs)|)|
    {
      ghost var before := jobs;
      count := 0;
      for i := 0 to |jobs|
        invariant now == old(now) && turns == old(turns) && nextLease == old(nextLease) && |jobs| == |before|
        invariant jobs == ChangedUpTo(before, Recovery(now), locked, i)
        invariant count == |ExpiredJobs(before, now, locked, i)|
      {
        RecoveryNext(before, now, locked, i);
        ExpiredNext(before, now, locked, i);
        if i !in locked && Expired(jobs[i], now) {
          var job := RecoverJob(jobs[i], now);
          jobs := jobs[i := job];
          count := count + 1;
        }
      }
    }

    /** The loop body: what the expired job's own state and its source decide. */
    static method RecoverJob(job: Job, now: Time) returns (after: Job)
      requires Expired(job, now)
      ensures after == RecoveredAt(job, now)
    {
      after := job;
      if job.state == CancelRequested || job.source == Some(Withdrawn) {
        after := after.(state := Cancelled, failure := None);
        if Open(job.source) && job.work != SiteBuild {
          after := after.(source := Some(Withdrawn));
        }
      } else if job.source == Some(Finished) {
        after := after.(state := Succeeded, failure := None);
      } else if job.state == Leased && job.source == Some(Waiting) {
        after := after.(state := Queued, eligibleAt := now, failure := None);
      } else {
        after := after.(state := Failed, failure := Some("worker_timeout"));
        if Open(job.source) {
          after := after.(source := Some(Broken));
        }
      }
      after := after.(lease := None, expiresAt := None);
      after := Log(after, ExpiredEvent, Some("worker_timeout"));
    }

    /** `claim_execution`: `started` tells the worker to run the source work. */
    method ClaimExecution(i: nat, lease: Lease, mismatch: Option<string>) returns (started: bool)
      modifies this
      ensures Value() == Step(old(Value()), Act(i, Claim(lease, mismatch)))
      ensures started <==> i < |old(jobs)| && mismatch.None? && IsLive(old(jobs)[i], lease, old(now))
      ensures started ==> Launched(old(jobs)[i], jobs[i], now)
    {
      started := false;
      if i >= |jobs| || jobs[i].state != Leased || jobs[i].lease != Some(lease) {
        return;
      }
      var job := jobs[i];
      if job.expiresAt.None? || job.expiresAt.value <= now {
        return;
      }
      var error := if job.source.None? then Some("source_missing") else mismatch;
      if error.Some? || job.source != Some(Waiting) {
        CompleteExecution(i, lease, Result(if error.Some? then Broken else job.source.value,
                                           Some(if error.Some? then error.value else "source_not_queued")));
        return;
      }
      job := job.(state := Running, expiresAt := Some(now + LEASE_SECONDS));
      jobs := jobs[i := Log(job, StartedEvent, None)];
      started := true;
    }

    /** `complete_execution`. */
    method CompleteExecution(i: nat, lease: Lease, result: Result)
      modifies this
      ensures Value() == Step(old(Value()), Act(i, Complete(lease, result)))
      ensures i < |jobs| == |old(jobs)| ==> ClosedUnder(old(jobs)[i], jobs[i], lease, result)
    {
      if i >= |jobs| || jobs[i].lease != Some(lease) || jobs[i].state !in {Leased, Running, CancelRequested} {
        return;
      }
      var job := jobs[i];
      var kind: Kind;
      var code: Option<string> := None;
      if job.state == CancelRequested || result.status == Withdrawn {
        job := job.(state := Cancelled);
        kind := CancelledEvent;
      } else if result.status == Finished {
        job := job.(state := Succeeded, failure := None);
        kind := SucceededEvent;
      } else {
        code := Some(Sanitized(result.code));
        job := job.(state := Failed, failure := code);
        kind := FailedEvent;
      }
      job := job.(lease := None, expiresAt := None);
      jobs := jobs[i := Log(job, kind, code)];
    }

    /** `pause_job`. */
    method PauseJob(i: nat) returns (accepted: bool)
      requires i < |jobs|
      modifies this
      ensures Value() == Step(old(Value()), Act(i, Pause))
      ensures accepted <==> old(jobs)[i].state == Queued
      ensures jobs == if accepted then old(jobs)[i := jobs[i]] else old(jobs)
      ensures accepted ==> jobs[i] == old(jobs)[i].(state := Paused, events := jobs[i].events)
    {
      if jobs[i].state != Queued {
        assert jobs[i := jobs[i]] == jobs;
        return false;
      }
      jobs := jobs[i := Log(jobs[i].(state := Paused), PausedEvent, None)];
      return true;
    }

    /** `resume_job`. */
    method ResumeJob(i: nat) returns (accepted: bool)
      requires i < |jobs|
      modifies this
      ensures Value() == Step(old(Value()), Act(i, Resume))
      ensures accepted <==> old(jobs)[i].state == Paused
      ensures jobs == if accepted then old(jobs)[i := jobs[i]] else old(jobs)
      ensures accepted ==> jobs[i] == old(jobs)[i].(state := Queued, eligibleAt := now, events := jobs[i].events)
    {
      if jobs[i].state != Paused {
        assert jobs[i := jobs[i]] == jobs;
        return false;
      }
      jobs := jobs[i := Log(jobs[i].(state := Queued, eligibleAt := now), ResumedEvent, None)];
      return true;
    }

    /** `requeue_site_build_job`, called on the retry of a failed build. */
    method RetryBuild(i: nat, priority: int, notBefore: Option<Time>) returns (accepted: bool)
      requires i < |jobs|
      modifies this
      ensures Value() == Step(old(Value()), Act(i, Retry(priority, notBefore)))
      ensures accepted <==> old(jobs)[i].work == SiteBuild && old(jobs)[i].source == Some(Broken)
                            && old(jobs)[i].state in {Queued, Failed, Cancelled, Paused}
      ensures jobs == if accepted then old(jobs)[i := jobs[i]] else old(jobs)
      ensures accepted ==> jobs[i].state == Queued && jobs[i].source == Some(Waiting)
      ensures accepted && old(jobs)[i].state == Queued ==> jobs[i] == old(jobs)[i].(source := Some(Waiting))
      ensures accepted && old(jobs)[i].state != Queued ==>
        && jobs[i].priority == priority && jobs[i].notBefore == notBefore && jobs[i].eligibleAt == now
        && jobs[i].failure == None && jobs[i].lease == None && jobs[i].expiresAt == None
        && jobs[i].firstEligibleAt == old(jobs)[i].firstEligibleAt && jobs[i].attempts == old(jobs)[i].attempts
    {
      assert jobs[i := jobs[i]] == jobs;
      var job := jobs[i];
      if job.work != SiteBuild || job.source != Some(Broken) {
        return false;
      }
      job := job.(source := Some(Waiting));
      if job.state == Queued {
        jobs := jobs[i := job];
        return true;
      }
      if job.state !in {Failed, Cancelled, Paused} {
        return false;
      }
      job := job.(state := Queued, priority := priority, notBefore := notBefore, eligibleAt := now,
                  failure := None, lease := None, expiresAt := None);
      jobs := jobs[i := Log(job, QueuedEvent, Some("manual_retry"))];
      return true;
    }

    /** `cancel_job`. */
    method CancelJob(i: nat) returns (accepted: bool)
      requires i < |jobs|
      modifies this
      ensures Value() == Step(old(Value()), Act(i, Cancel))
      ensures accepted <==>
        && old(jobs)[i].source in {Some(Waiting), Some(Working)}
        && (old(jobs)[i].state in {Queued, Paused, Leased}
            || (old(jobs)[i].state == Running && old(jobs)[i].work == CompetitorCrawl))
      ensures jobs == if accepted then old(jobs)[i := jobs[i]] else old(jobs)
      ensures accepted ==>
        && jobs[i].source == Some(if old(jobs)[i].work == SiteBuild then Broken else Withdrawn)
        && (if old(jobs)[i].state == Running then
              jobs[i].state == CancelRequested && jobs[i].lease == old(jobs)[i].lease
            else jobs[i].state == Cancelled && jobs[i].lease == None && jobs[i].expiresAt == None)
    {
      var job := jobs[i];
      if job.state !in {Queued, Paused, Leased, Running} {
        return false;
      }
      if job.state == Running && job.work != CompetitorCrawl {
        return false;
      }
      if job.source.None? || job.source.value !in {Waiting, Working} {
        return false;
      }
      if job.state == Running {
        job := job.(source := Some(Withdrawn), state := CancelRequested);
        jobs := jobs[i := Log(job, CancelRequestedEvent, None)];
        return true;
      }
      if job.work == SiteBuild {
        job := job.(source := Some(Broken));
      } else {
        job := job.(source := Some(Withdrawn));
      }
      job := job.(state := Cancelled, lease := None, expiresAt := None);
      jobs := jobs[i := Log(job, CancelledEvent, None)];
      return true;
    }
  }

  ghost function ExpiredJobs(jobs: seq<Job>, now: Time, locked: set<nat>, n: nat): set<nat>
    requires n <= |jobs|
  {
    set i | 0 <= i < n && i !in locked && Expired(jobs[i], now)
  }

  lemma {:induction false} ChangeNext(jobs: seq<Job>, f: Job -> Job, locked: set<nat>, i: nat)
    requires i < |jobs|
    ensures var before := ChangedUpTo(jobs, f, locked, i);
            && before[i] == jobs[i]
            && ChangedUpTo(jobs, f, locked, i + 1) == (if i !in locked then before[i := f(jobs[i])] else before)
            && (f(jobs[i]) == jobs[i] ==> ChangedUpTo(jobs, f, locked, i + 1) == before)
  {
    var before, after := ChangedUpTo(jobs, f, locked, i), ChangedUpTo(jobs, f, locked, i + 1);
    assert after == if i !in locked then before[i := f(jobs[i])] else before;
    if f(jobs[i]) == jobs[i] {
      assert after == before;
    }
  }

  lemma {:induction false} RecoveryNext(jobs: seq<Job>, now: Time, locked: set<nat>, i: nat)
    requires i < |jobs|
    ensures var before := ChangedUpTo(jobs, Recovery(now), locked, i);
            && before[i] == jobs[i]
            && ChangedUpTo(jobs, Recovery(now), locked, i + 1)
               == if i !in locked && Expired(jobs[i], now) then before[i := RecoveredAt(jobs[i], now)] else before
  {
    ChangeNext(jobs, Recovery(now), locked, i);
  }

  lemma {:induction false} ExpiredNext(jobs: seq<Job>, now: Time, locked: set<nat>, i: nat)
    requires i < |jobs|
    ensures |ExpiredJobs(jobs, now, locked, i + 1)|
         == |ExpiredJobs(jobs, now, locked, i)| + if i !in locked && Expired(jobs[i], now) then 1 else 0
  {
    var expired := ExpiredJobs(jobs, now, locked, i);
    assert ExpiredJobs(jobs, now, locked, i + 1)
        == if i !in locked && Expired(jobs[i], now) then expired + {i} else expired;
  }

  // ---------- what every run keeps ----------

  ghost predicate Inv(s: State) {
    && JobsOk(s.jobs) && LeasesApart(s.jobs, s.nextLease) && OneActiveEach(s.jobs)
    && |ActiveJobs(s.jobs)| <= MAX_CONCURRENCY
  }

  ghost predicate AllCalmer(before: seq<Job>, after: seq<Job>) {
    |after| == |before| && forall i :: 0 <= i < |before| ==> Calmer(before[i], after[i])
  }

  lemma {:induction false} CalmerKeepsInv(s: State, jobs: seq<Job>)
    requires Inv(s) && AllCalmer(s.jobs, jobs)
    ensures Inv(s.(jobs := jobs))
  {
    forall i | i in ActiveJobs(jobs) ensures i in ActiveJobs(s.jobs) {
      assert Calmer(s.jobs[i], jobs[i]);
    }
    Sets.SubsetSize(ActiveJobs(jobs), ActiveJobs(s.jobs));
    assert forall i :: 0 <= i < |jobs| ==> Calmer(s.jobs[i], jobs[i]);
  }

  /** The operation launches the source work. */
  predicate LaunchedBy(job: Job, op: Op, now: Time) {
    op.Claim? && Launches(job, op.lease, op.mismatch, now)
  }

  /** The operation queues the job again by hand. */
  predicate RequeuedBy(job: Job, op: Op) {
    op.Retry? && Requeues(job)
  }

  lemma {:induction false} ActedCalmer(job: Job, op: Op, now: Time)
    requires JobOk(job)
    ensures Calmer(job, Acted(job, op, now))
    ensures Adds(job, Acted(job, op, now), One(LaunchedBy(job, op, now)), One(RequeuedBy(job, op)))
  {
    match op
    case Claim(lease, mismatch) => StartedCalm(job, lease, mismatch, now);
    case Complete(lease, result) => CompletedCalm(job, lease, result);
    case Pause => PausedCalm(job);
    case Resume => ResumedCalm(job, now);
    case Cancel => CancelledCalm(job);
    case Retry(priority, notBefore) => RetriedCalm(job, priority, notBefore, now);
    case SourceMoves(source) => assert JobOk(job.(source := source));
  }

  lemma {:induction false} ActionKeepsInv(s: State, i: nat, op: Op)
    requires Inv(s)
    ensures Inv(Step(s, Act(i, op)))
  {
    if i < |s.jobs| {
      ActedCalmer(s.jobs[i], op, s.now);
      UpdateKeepsInv(s, i, Acted(s.jobs[i], op, s.now));
    }
  }

  lemma {:induction false} UpdateKeepsInv(s: State, i: nat, job: Job)
    requires Inv(s) && i < |s.jobs| && Calmer(s.jobs[i], job)
    ensures Inv(s.(jobs := s.jobs[i := job]))
  {
    CalmerKeepsInv(s, s.jobs[i := job]);
  }

  lemma {:induction false} ChangedCalmer(jobs: seq<Job>, f: Job -> Job, locked: set<nat>)
    requires JobsOk(jobs) && forall i :: 0 <= i < |jobs| ==> Calmer(jobs[i], f(jobs[i]))
    ensures AllCalmer(jobs, ChangedUpTo(jobs, f, locked, |jobs|))
  {
  }

  lemma {:induction false} RecoveryCalmer(job: Job, now: Time)
    requires JobOk(job)
    ensures Calmer(job, Recovery(now)(job))
  {
    RecoveredCalm(job, now);
  }

  lemma {:induction false} RecoverKeepsInv(s: State, locked: set<nat>)
    requires Inv(s)
    ensures Inv(Step(s, Recover(locked)))
    ensures AllCalmer(s.jobs, Step(s, Recover(locked)).jobs)
  {
    forall i | 0 <= i < |s.jobs| ensures Calmer(s.jobs[i], Recovery(s.now)(s.jobs[i])) {
      RecoveryCalmer(s.jobs[i], s.now);
    }
    ChangedCalmer(s.jobs, Recovery(s.now), locked);
    CalmerKeepsInv(s, RecoveredAll(s.jobs, s.now, locked));
  }

  lemma {:induction false} DispatchKeepsInv(s: State, limit: nat, direct: nat, locked: set<nat>)
    requires Inv(s)
    ensures Inv(Step(s, Dispatch(limit, direct, locked)))
  {
    var order := Ordered(s.jobs, s.turns, s.now, |s.jobs|);
    var start := Start(s.jobs, s.turns, s.nextLease, s.now);
    ServedOk(start, order, |order|, Slots(s.jobs, limit, direct), s.now, locked);
  }

  lemma {:induction false} SubmitKeepsInv(s: State, job: Job)
    requires Inv(s) && JobOk(job) && job.state == Queued
    ensures Inv(s.(jobs := s.jobs + [job]))
  {
    assert ActiveJobs(s.jobs + [job]) == ActiveJobs(s.jobs);
  }

  lemma {:induction false} StepKeepsInv(s: State, a: Action)
    requires Inv(s)
    ensures Inv(Step(s, a))
  {
    match a
    case Tick(_) =>
    case Submit(id, project, work, priority, notBefore) =>
      SubmittedOk(id, project, work, priority, notBefore, s.now);
      SubmitKeepsInv(s, Submitted(id, project, work, priority, notBefore, s.now));
    case Dispatch(limit, direct, locked) => DispatchKeepsInv(s, limit, direct, locked);
    case Recover(locked) => RecoverKeepsInv(s, locked);
    case Act(i, op) => ActionKeepsInv(s, i, op);
  }

  lemma {:induction false} InvAlways(trace: seq<Action>)
    ensures Inv(Exec(trace))
    decreases |trace|
  {
    if |trace| != 0 {
      InvAlways(trace[..|trace| - 1]);
      StepKeepsInv(Exec(trace[..|trace| - 1]), trace[|trace| - 1]);
    }
  }

  /** One job at a time is active; so no two of one project, and the unique index is never violated. */
  lemma {:induction false} OneActiveJob(trace: seq<Action>, i: nat, j: nat)
    requires i < j < |Exec(trace).jobs|
    ensures !(Active(Exec(trace).jobs[i].state) && Active(Exec(trace).jobs[j].state))
  {
    InvAlways(trace);
    var jobs := Exec(trace).jobs;
    if Active(jobs[i].state) && Active(jobs[j].state) {
      Sets.SubsetSize({i, j}, ActiveJobs(jobs));
    }
  }

  /**
   Source work is started at most once per attempt, and at most once per queuing: without a
   manual retry a job never starts twice, however often its leases are delivered or expire.
   */
  lemma {:induction false} StartsBounded(trace: seq<Action>, i: nat)
    requires i < |Exec(trace).jobs|
    ensures var events := Exec(trace).jobs[i].events;
            && Count(events, StartedEvent) <= Queuings(events)
            && Count(events, ClaimedEvent) == Exec(trace).jobs[i].attempts
            && StartsApart(events, Exec(trace).jobs[i].attempts)
  {
    InvAlways(trace);
  }

  // ---------- fencing ----------

  /** The lease was handed out, and does not hold the job. */
  ghost predicate Fenced(s: State, i: nat, lease: Lease) {
    lease < s.nextLease && (i < |s.jobs| ==> s.jobs[i].lease != Some(lease))
  }

  lemma {:induction false} StepKeepsFence(s: State, a: Action, i: nat, lease: Lease)
    requires Inv(s) && Fenced(s, i, lease)
    ensures Fenced(Step(s, a), i, lease)
  {
    match a
    case Dispatch(limit, direct, locked) => DispatchProgresses(s, limit, direct, locked, i);
    case Recover(locked) =>
      RecoverKeepsInv(s, locked);
      assert i < |s.jobs| ==> Calmer(s.jobs[i], Step(s, a).jobs[i]);
    case Act(j, op) =>
      if j < |s.jobs| {
        ActedCalmer(s.jobs[j], op, s.now);
      }
    case _ =>
  }

  /** A dispatch changes a job only by handing it out under a fresh lease. */
  lemma {:induction false} DispatchProgresses(s: State, limit: nat, direct: nat, locked: set<nat>, i: nat)
    ensures var after := Step(s, Dispatch(limit, direct, locked));
            && s.nextLease <= after.nextLease && |after.jobs| == |s.jobs|
            && (i < |s.jobs| && after.jobs[i] != s.jobs[i] ==>
                  && s.jobs[i].state == Queued && after.jobs[i].state == Leased
                  && after.jobs[i].lease.Some? && after.jobs[i].lease.value >= s.nextLease)
  {
    var order := Ordered(s.jobs, s.turns, s.now, |s.jobs|);
    var start := Start(s.jobs, s.turns, s.nextLease, s.now);
    ServedProgresses(start, order, |order|, Slots(s.jobs, limit, direct), s.now, locked);
    assert i < |s.jobs| ==> JobProgressed(start, RoundOf(s, limit, direct, locked), i);
  }

  /** A lease that lost its job never gets it back, and delivering or completing under it changes nothing, ever. */
  lemma {:induction false} FencedForever(trace: seq<Action>, n: nat, k: nat, i: nat, lease: Lease,
                                         mismatch: Option<string>, result: Result)
    requires n <= k <= |trace| && Fenced(Exec(trace[..n]), i, lease)
    ensures var s := Exec(trace[..k]);
            && Fenced(s, i, lease)
            && Step(s, Act(i, Claim(lease, mismatch))) == s && Step(s, Act(i, Complete(lease, result))) == s
    decreases k
  {
    if n < k {
      FencedForever(trace, n, k - 1, i, lease, mismatch, result);
      InvAlways(trace[..k - 1]);
      ExecNext(trace, k - 1);
      StepKeepsFence(Exec(trace[..k - 1]), trace[k - 1], i, lease);
    }
    FencedDoesNothing(Exec(trace[..k]), i, lease, mismatch, result);
  }

  lemma {:induction false} FencedDoesNothing(s: State, i: nat, lease: Lease, mismatch: Option<string>, result: Result)
    requires Fenced(s, i, lease)
    ensures Step(s, Act(i, Claim(lease, mismatch))) == s && Step(s, Act(i, Complete(lease, result))) == s
  {
    if i < |s.jobs| {
      assert s.jobs[i := s.jobs[i]] == s.jobs;
    }
  }

  // ---------- terminal jobs ----------

  predicate Terminal(state: JobState) {
    state in {Succeeded, Failed, Cancelled}
  }

  /** The same job, whatever its source has become. */
  ghost predicate SameButSource(a: Job, b: Job) {
    b == a.(source := b.source)
  }

  lemma {:induction false} ActedTerminal(job: Job, op: Op, now: Time)
    requires JobOk(job) && Terminal(job.state) && (op.Retry? ==> job.state == Succeeded)
    ensures SameButSource(job, Acted(job, op, now))
  {
  }

  lemma {:induction false} StepKeepsTerminal(s: State, a: Action, i: nat)
    requires Inv(s) && i < |s.jobs| && Terminal(s.jobs[i].state)
    requires a.Act? && a.op.Retry? && a.job == i ==> s.jobs[i].state == Succeeded
    ensures i < |Step(s, a).jobs| && SameButSource(s.jobs[i], Step(s, a).jobs[i])
  {
    match a
    case Dispatch(limit, direct, locked) => DispatchProgresses(s, limit, direct, locked, i);
    case Act(j, op) =>
      if j == i {
        ActedTerminal(s.jobs[i], op, s.now);
      }
    case _ =>
  }

  /** No operator retried job `i` from action `n` on. */
  ghost predicate NoRetry(trace: seq<Action>, n: nat, i: nat) {
    forall k :: n <= k < |trace| ==> !(trace[k].Act? && trace[k].job == i && trace[k].op.Retry?)
  }

  /** A terminal job stays exactly as it is until it is retried by hand; a succeeded one, forever. */
  lemma {:induction false} TerminalStays(trace: seq<Action>, n: nat, k: nat, i: nat)
    requires n <= k <= |trace| && i < |Exec(trace[..n]).jobs| && Terminal(Exec(trace[..n]).jobs[i].state)
    requires Exec(trace[..n]).jobs[i].state == Succeeded || NoRetry(trace, n, i)
    ensures i < |Exec(trace[..k]).jobs| && SameButSource(Exec(trace[..n]).jobs[i], Exec(trace[..k]).jobs[i])
    decreases k
  {
    if n < k {
      TerminalStays(trace, n, k - 1, i);
      InvAlways(trace[..k - 1]);
      ExecNext(trace, k - 1);
      StepKeepsTerminal(Exec(trace[..k - 1]), trace[k - 1], i);
    }
  }

  predicate Stopping(state: JobState) {
    state in {CancelRequested, Cancelled}
  }

  lemma {:induction false} ActedStopping(job: Job, op: Op, now: Time)
    requires JobOk(job) && Stopping(job.state) && !op.Retry?
    ensures Stopping(Acted(job, op, now).state)
  {
  }

  lemma {:induction false} RecoveredStopping(job: Job, now: Time)
    requires Stopping(job.state)
    ensures Stopping(Recovery(now)(job).state)
  {
  }

  lemma {:induction false} StepKeepsStopping(s: State, a: Action, i: nat)
    requires Inv(s) && i < |s.jobs| && Stopping(s.jobs[i].state)
    requires !(a.Act? && a.job == i && a.op.Retry?)
    ensures i < |Step(s, a).jobs| && Stopping(Step(s, a).jobs[i].state)
  {
    match a
    case Dispatch(limit, direct, locked) => DispatchProgresses(s, limit, direct, locked, i);
    case Act(j, op) =>
      if j == i {
        ActedStopping(s.jobs[i], op, s.now);
      }
    case Recover(locked) => RecoveredStopping(s.jobs[i], s.now);
    case _ =>
  }

  /** Cancellation wins: once asked for, neither the outcome of the work nor a timeout overrides it. */
  lemma {:induction false} CancellationWins(trace: seq<Action>, n: nat, k: nat, i: nat)
    requires n <= k <= |trace| && i < |Exec(trace[..n]).jobs| && Stopping(Exec(trace[..n]).jobs[i].state)
    requires NoRetry(trace, n, i)
    ensures i < |Exec(trace[..k]).jobs| && Stopping(Exec(trace[..k]).jobs[i].state)
    decreases k
  {
    if n < k {
      CancellationWins(trace, n, k - 1, i);
      InvAlways(trace[..k - 1]);
      ExecNext(trace, k - 1);
      StepKeepsStopping(Exec(trace[..k - 1]), trace[k - 1], i);
    }
  }

  /** The job's lease has run out before `now`. */
  ghost predicate Overdue(job: Job, now: Time) {
    job.state in {Leased, Running, CancelRequested} && job.expiresAt.Some? && job.expiresAt.value < now
  }

  /** A job whose lease ran out is released; unless it waits again, its source asks for no more work. */
  ghost predicate GivenUp(before: Job, after: Job, now: Time) {
    && after.lease == None && after.expiresAt == None && after.attempts == before.attempts
    && after.state in {Queued, Cancelled, Succeeded, Failed}
    && (after.state == Queued ==> after.source == before.source && after.eligibleAt == now)
    && (after.failure == if after.state == Failed then Some("worker_timeout") else None)
    && (after.state == Failed && Open(before.source) ==> after.source == Some(Broken))
    && (after.state == Cancelled && Open(before.source) && before.work != SiteBuild ==> after.source == Some(Withdrawn))
    && (!Open(before.source) ==> after.source == before.source)
  }

  /** A recovery pass gives up exactly the overdue jobs on unlocked rows, and touches no other. */
  lemma {:induction false} RecoveryTouchesOverdue(s: State, locked: set<nat>, i: nat)
    requires i < |s.jobs|
    ensures var after := Step(s, Recover(locked)).jobs[i];
            if i !in locked && Overdue(s.jobs[i], s.now) then GivenUp(s.jobs[i], after, s.now)
            else after == s.jobs[i]
  {
  }

  /** After a recovery pass with no row locked, no lease is overdue and a slot is taken only by live work. */
  lemma {:induction false} RecoveryClearsOverdue(s: State, i: nat)
    requires Inv(s) && i < |s.jobs|
    ensures var after := Step(s, Recover({}));
            !Expired(after.jobs[i], after.now)
            && (Active(after.jobs[i].state) ==> after.jobs[i] == s.jobs[i])
  {
    if Expired(s.jobs[i], s.now) {
      RequeuedIffNotStarted(s.jobs[i], s.now);
    }
  }

  lemma {:induction false} ActedRunOut(job: Job, op: Op, now: Time)
    requires job.expiresAt.Some? ==> job.expiresAt.value <= now + LEASE_SECONDS
    ensures var after := Acted(job, op, now).expiresAt; after.Some? ==> after.value <= now + LEASE_SECONDS
  {
  }

  lemma {:induction false} RecoveredRunOut(job: Job, now: Time)
    ensures var after := Recovery(now)(job).expiresAt; after == None || after == job.expiresAt
  {
  }

  lemma {:induction false} StepKeepsRunOut(s: State, a: Action)
    requires RunOutBy(s.jobs, s.now + LEASE_SECONDS)
    ensures RunOutBy(Step(s, a).jobs, Step(s, a).now + LEASE_SECONDS)
  {
    match a
    case Dispatch(limit, direct, locked) =>
      var order := Ordered(s.jobs, s.turns, s.now, |s.jobs|);
      var start := Start(s.jobs, s.turns, s.nextLease, s.now);
      ServedRunOut(start, order, |order|, Slots(s.jobs, limit, direct), s.now, locked);
    case Act(i, op) =>
      if i < |s.jobs| {
        ActedRunOut(s.jobs[i], op, s.now);
      }
    case Recover(locked) =>
      forall i | 0 <= i < |s.jobs|
        ensures Recovery(s.now)(s.jobs[i]).expiresAt in {None, s.jobs[i].expiresAt}
      {
        RecoveredRunOut(s.jobs[i], s.now);
      }
    case _ =>
  }

  /** At every moment of every run, no lease reaches further than ten minutes ahead. */
  lemma {:induction false} LeasesRunOut(trace: seq<Action>)
    ensures RunOutBy(Exec(trace).jobs, Exec(trace).now + LEASE_SECONDS)
    decreases |trace|
  {
    if |trace| != 0 {
      LeasesRunOut(trace[..|trace| - 1]);
      StepKeepsRunOut(Exec(trace[..|trace| - 1]), trace[|trace| - 1]);
    }
  }

  /** A slot never leaks: once the lease time has passed, one recovery pass frees every slot. */
  lemma {:induction false} SlotsAreFreed(trace: seq<Action>, seconds: Time, i: nat)
    requires seconds > LEASE_SECONDS && i < |Exec(trace).jobs|
    ensures !Active(Step(Step(Exec(trace), Tick(seconds)), Recover({})).jobs[i].state)
  {
    InvAlways(trace);
    LeasesRunOut(trace);
    var s := Step(Exec(trace), Tick(seconds));
    if Active(s.jobs[i].state) {
      assert Expired(s.jobs[i], s.now);
      RequeuedIffNotStarted(s.jobs[i], s.now);
    }
  }
}
