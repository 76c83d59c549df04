/**
 What the history of a job says, over whole runs of the scheduler: why it was closed, how often
 its work was launched, and that a cancellation is for good.
 */
module SchedulerHistory {
  import opened Wrappers
  import opened SchedulerJobs
  import opened SchedulerDispatch
  import opened Scheduler

  // ---------- one step ----------

  /** The action launches the source work of job `i`. */
  ghost predicate LaunchIn(s: State, a: Action, i: nat) {
    a.Act? && a.job == i && i < |s.jobs| && LaunchedBy(s.jobs[i], a.op, s.now)
  }

  /** The action queues job `i` again by hand. */
  ghost predicate RequeueIn(s: State, a: Action, i: nat) {
    a.Act? && a.job == i && i < |s.jobs| && RequeuedBy(s.jobs[i], a.op)
  }

  lemma {:induction false} LeasedKeepsJob(job: Job, after: Job, lease: Lease)
    requires JobOk(job) && job.state == Queued && IsLeasedTo(job, after, lease)
    ensures Kept(job, after) && Adds(job, after, 0, 0)
  {
    LeasedOk(job, lease, after.expiresAt.value - LEASE_SECONDS);
  }

  lemma {:induction false} ProgressedKeepsJob(start: Round, r: Round, i: nat)
    requires i < |r.jobs| == |start.jobs| && JobProgressed(start, r, i) && JobOk(start.jobs[i])
    ensures Kept(start.jobs[i], r.jobs[i]) && Adds(start.jobs[i], r.jobs[i], 0, 0)
  {
    if r.jobs[i] != start.jobs[i] {
      var lease :| IsLeasedTo(start.jobs[i], r.jobs[i], lease);
      LeasedKeepsJob(start.jobs[i], r.jobs[i], lease);
    }
  }

  lemma {:induction false} DispatchKeepsJob(s: State, limit: nat, direct: nat, locked: set<nat>, i: nat)
    requires i < |s.jobs| && JobOk(s.jobs[i])
    ensures var after := RoundOf(s, limit, direct, locked).jobs;
            i < |after| && Kept(s.jobs[i], after[i]) && Adds(s.jobs[i], after[i], 0, 0)
  {
    var order := Ordered(s.jobs, s.turns, s.now, |s.jobs|);
    var start := Start(s.jobs, s.turns, s.nextLease, s.now);
    ServedProgresses(start, order, |order|, Slots(s.jobs, limit, direct), s.now, locked);
    ProgressedKeepsJob(start, RoundOf(s, limit, direct, locked), i);
  }

  lemma {:induction false} ActKeepsJob(s: State, j: nat, op: Op, i: nat)
    requires i < |s.jobs| && JobOk(s.jobs[i])
    ensures var after, a := Step(s, Act(j, op)).jobs, Act(j, op);
            && i < |after| && Kept(s.jobs[i], after[i])
            && Adds(s.jobs[i], after[i], One(LaunchIn(s, a, i)), One(RequeueIn(s, a, i)))
  {
    if j == i {
      ActedCalmer(s.jobs[i], op, s.now);
    }
  }

  /** No action changes the identity of a job or its past, and the log grows by what was launched and queued. */
  lemma {:induction false} StepKeepsJob(s: State, a: Action, i: nat)
    requires Inv(s) && i < |s.jobs|
    ensures i < |Step(s, a).jobs| && Kept(s.jobs[i], Step(s, a).jobs[i])
    ensures Adds(s.jobs[i], Step(s, a).jobs[i], One(LaunchIn(s, a, i)), One(RequeueIn(s, a, i)))
  {
    match a
    case Act(j, op) => ActKeepsJob(s, j, op, i);
    case Recover(locked) => RecoveredCalm(s.jobs[i], s.now);
    case Dispatch(limit, direct, locked) => DispatchKeepsJob(s, limit, direct, locked, i);
    case _ =>
  }

  /** Identity, age and log of a job survive every run: nothing is rewritten, and attempts only grow. */
  lemma {:induction false} HistoryKept(trace: seq<Action>, n: nat, k: nat, i: nat)
    requires n <= k <= |trace| && i < |Exec(trace[..n]).jobs|
    ensures i < |Exec(trace[..k]).jobs| && Kept(Exec(trace[..n]).jobs[i], Exec(trace[..k]).jobs[i])
    decreases k
  {
    if n < k {
      HistoryKept(trace, n, k - 1, i);
      HistoryNext(trace, k - 1, i, Exec(trace[..n]).jobs[i]);
    }
  }

  lemma {:induction false} HistoryNext(trace: seq<Action>, k: nat, i: nat, first: Job)
    requires k < |trace| && i < |Exec(trace[..k]).jobs| && Kept(first, Exec(trace[..k]).jobs[i])
    ensures i < |Exec(trace[..k + 1]).jobs| && Kept(first, Exec(trace[..k + 1]).jobs[i])
  {
    var s := Exec(trace[..k]);
    InvAlways(trace[..k]);
    ExecNext(trace, k);
    StepKeepsJob(s, trace[k], i);
    KeptTransitive(first, s.jobs[i], Step(s, trace[k]).jobs[i]);
  }

  // ---------- how often the work is launched ----------

  /** Launches of job `i` among the first `k` actions. */
  ghost function LaunchCount(trace: seq<Action>, k: nat, i: nat): nat
    requires k <= |trace|
  {
    if k == 0 then 0 else LaunchCount(trace, k - 1, i) + One(LaunchIn(Exec(trace[..k - 1]), trace[k - 1], i))
  }

  /** Manual requeuings of job `i` among the first `k` actions. */
  ghost function RequeueCount(trace: seq<Action>, k: nat, i: nat): nat
    requires k <= |trace|
  {
    if k == 0 then 0 else RequeueCount(trace, k - 1, i) + One(RequeueIn(Exec(trace[..k - 1]), trace[k - 1], i))
  }

  /** The log of job `i` tells exactly how often it was launched and queued. */
  ghost predicate Counted(s: State, i: nat, launches: nat, requeues: nat) {
    if i < |s.jobs| then
      Count(s.jobs[i].events, StartedEvent) == launches && Queuings(s.jobs[i].events) == 1 + requeues
    else launches == requeues == 0
  }

  lemma {:induction false} StepCounted(s: State, a: Action, i: nat, launches: nat, requeues: nat)
    requires Inv(s) && Counted(s, i, launches, requeues)
    ensures Counted(Step(s, a), i, launches + One(LaunchIn(s, a, i)), requeues + One(RequeueIn(s, a, i)))
  {
    if i < |s.jobs| {
      StepKeepsJob(s, a, i);
    } else {
      match a
      case Submit(id, project, work, priority, notBefore) =>
        SubmittedOk(id, project, work, priority, notBefore, s.now);
      case Dispatch(limit, direct, locked) => DispatchProgresses(s, limit, direct, locked, i);
      case _ =>
    }
  }

  lemma {:induction false} LogCounts(trace: seq<Action>, k: nat, i: nat)
    requires k <= |trace|
    ensures Counted(Exec(trace[..k]), i, LaunchCount(trace, k, i), RequeueCount(trace, k, i))
    decreases k
  {
    if k > 0 {
      LogCounts(trace, k - 1, i);
      InvAlways(trace[..k - 1]);
      ExecNext(trace, k - 1);
      StepCounted(Exec(trace[..k - 1]), trace[k - 1], i, LaunchCount(trace, k - 1, i), RequeueCount(trace, k - 1, i));
    } else {
      assert trace[..0] == [];
    }
  }

  /**
   However leases are delivered, expire and are handed out anew, the source work of a job is
   launched at most once more often than it was queued again by hand.
   */
  lemma {:induction false} LaunchesBounded(trace: seq<Action>, i: nat)
    ensures LaunchCount(trace, |trace|, i) <= 1 + RequeueCount(trace, |trace|, i)
  {
    LogCounts(trace, |trace|, i);
    assert trace[..|trace|] == trace;
    InvAlways(trace);
    if i < |Exec(trace).jobs| {
      assert JobOk(Exec(trace).jobs[i]);
    }
  }

  /** What handing out job `i` at action `n` left, as far as the lease goes. */
  ghost predicate HandedOutAt(trace: seq<Action>, n: nat, i: nat, lease: Option<Lease>, expiresAt: Option<Time>)
    requires n < |trace|
  {
    && trace[n].Dispatch? && i < |Exec(trace[..n]).jobs| && Exec(trace[..n]).jobs[i].state == Queued
    && i in RoundOf(Exec(trace[..n]), trace[n].limit, trace[n].direct, trace[n].locked).selected
    && lease.Some? && lease.value >= Exec(trace[..n]).nextLease
    && expiresAt == Some(Exec(trace[..n]).now + 600.0)
  }

  lemma {:induction false} DispatchHandsOut(s: State, limit: nat, direct: nat, locked: set<nat>, i: nat)
    requires i < |s.jobs|
    ensures var r := RoundOf(s, limit, direct, locked);
            && |r.jobs| == |s.jobs|
            && (if i in r.selected then s.jobs[i].state == Queued && HandedOut(s.jobs[i], r.jobs[i], s.nextLease, s.now)
                else r.jobs[i] == s.jobs[i])
  {
    DispatchStaysWithin(s.jobs, s.turns, s.nextLease, s.now, limit, direct, locked);
    var start, r := Start(s.jobs, s.turns, s.nextLease, s.now), RoundOf(s, limit, direct, locked);
    assert i in r.selected ==> RightlySelected(start, r, s.now, locked, i);
  }

  /** A leased job was leased before the action, with the same lease, or the action handed it out. */
  lemma {:induction false} StepLeases(s: State, a: Action, i: nat)
    requires i < |Step(s, a).jobs| && Step(s, a).jobs[i].state == Leased
    ensures i < |s.jobs|
    ensures var job, after := s.jobs[i], Step(s, a).jobs[i];
            || (job.state == Leased && after.lease == job.lease && after.expiresAt == job.expiresAt)
            || (a.Dispatch? && job.state == Queued && HandedOut(job, after, s.nextLease, s.now)
                && i in RoundOf(s, a.limit, a.direct, a.locked).selected)
  {
    match a
    case Dispatch(limit, direct, locked) =>
      DispatchProgresses(s, limit, direct, locked, i);
      DispatchHandsOut(s, limit, direct, locked, i);
    case _ =>
  }

  /** A leased job was handed out by a dispatch of the run, for ten minutes from then. */
  lemma {:induction false} LeasedByDispatch(trace: seq<Action>, k: nat, i: nat) returns (n: nat)
    requires k <= |trace| && i < |Exec(trace[..k]).jobs| && Exec(trace[..k]).jobs[i].state == Leased
    ensures n < k && HandedOutAt(trace, n, i, Exec(trace[..k]).jobs[i].lease, Exec(trace[..k]).jobs[i].expiresAt)
    decreases k
  {
    assert k > 0 by {
      assert trace[..0] == [];
    }
    var s, a := Exec(trace[..k - 1]), trace[k - 1];
    ExecNext(trace, k - 1);
    StepLeases(s, a, i);
    n := k - 1;
    if s.jobs[i].state == Leased {
      n := LeasedByDispatch(trace, k - 1, i);
    }
  }

  /**
   Source work is launched only under the lease of a dispatch not ten minutes ago that selected
   the job, with its source waiting; and such a launch always succeeds.
   */
  lemma {:induction false} LaunchedWithinLease(trace: seq<Action>, k: nat, i: nat, lease: Lease,
                                               mismatch: Option<string>)
    returns (n: nat)
    requires k < |trace| && trace[k] == Act(i, Claim(lease, mismatch)) && i < |Exec(trace[..k]).jobs|
    ensures LaunchIn(Exec(trace[..k]), trace[k], i)
       <==> mismatch.None? && IsLive(Exec(trace[..k]).jobs[i], lease, Exec(trace[..k]).now)
    ensures LaunchIn(Exec(trace[..k]), trace[k], i) ==>
              && n < k && Exec(trace[..k]).now < Exec(trace[..n]).now + 600.0
              && HandedOutAt(trace, n, i, Some(lease), Exec(trace[..k]).jobs[i].expiresAt)
  {
    n := 0;
    if Exec(trace[..k]).jobs[i].state == Leased {
      n := LeasedByDispatch(trace, k, i);
    }
  }

  // ---------- why a job is closed ----------

  /** The outcome that what is known of the work stands for; a requested cancellation comes first. */
  function Verdict(asked: bool, status: Option<Status>): JobState {
    if asked || status == Some(Withdrawn) then Cancelled
    else if status == Some(Finished) then Succeeded
    else Failed
  }

  /** The action closes job `i`, and `outcome` is what the job's state and its source call for. */
  ghost predicate Warrant(s: State, a: Action, i: nat, outcome: JobState) {
    i < |s.jobs|
    && var job := s.jobs[i]; var asked := job.state == CancelRequested;
    match a
    case Act(j, Complete(lease, result)) =>
      j == i && Holds(job, lease) && outcome == Verdict(asked, Some(result.status))
    case Act(j, Claim(lease, mismatch)) =>
      && j == i && Claimable(job, lease, s.now) && !Launches(job, lease, mismatch, s.now)
      && outcome == Verdict(asked, if mismatch.Some? then None else job.source)
    case Act(j, Cancel) => j == i && outcome == Cancelled && NotBegun(job.state) && Open(job.source)
    case Recover(locked) =>
      && i !in locked && Expired(job, s.now) && !(job.state == Leased && job.source == Some(Waiting))
      && outcome == Verdict(asked, job.source)
    case _ => false
  }

  lemma {:induction false} ActedCloses(s: State, i: nat, op: Op)
    requires i < |s.jobs| && Terminal(Acted(s.jobs[i], op, s.now).state)
    ensures var after := Acted(s.jobs[i], op, s.now);
            || Warrant(s, Act(i, op), i, after.state)
            || (Terminal(s.jobs[i].state) && SameButSource(s.jobs[i], after))
  {
  }

  lemma {:induction false} RecoverCloses(s: State, locked: set<nat>, i: nat)
    requires i < |s.jobs| && Terminal(Step(s, Recover(locked)).jobs[i].state)
    ensures var after := Step(s, Recover(locked)).jobs[i];
            Warrant(s, Recover(locked), i, after.state) || after == s.jobs[i]
  {
  }

  lemma {:induction false} StepCloses(s: State, a: Action, i: nat)
    requires Inv(s) && i < |Step(s, a).jobs| && Terminal(Step(s, a).jobs[i].state)
    ensures || Warrant(s, a, i, Step(s, a).jobs[i].state)
            || (i < |s.jobs| && Terminal(s.jobs[i].state) && SameButSource(s.jobs[i], Step(s, a).jobs[i]))
  {
    match a
    case Act(j, op) =>
      if j == i < |s.jobs| {
        ActedCloses(s, i, op);
      }
    case Recover(locked) => RecoverCloses(s, locked, i);
    case Dispatch(limit, direct, locked) => DispatchProgresses(s, limit, direct, locked, i);
    case _ =>
  }

  /** Action `n` closed job `i` with a warrant, and left it as `job` but for its source. */
  ghost predicate ClosedBy(trace: seq<Action>, n: nat, i: nat, job: Job)
    requires n < |trace|
  {
    && Warrant(Exec(trace[..n]), trace[n], i, job.state)
    && i < |Exec(trace[..n + 1]).jobs| && SameButSource(Exec(trace[..n + 1]).jobs[i], job)
  }

  lemma {:induction false} StillClosedBy(trace: seq<Action>, n: nat, i: nat, job: Job, later: Job)
    requires n < |trace| && ClosedBy(trace, n, i, job) && SameButSource(job, later)
    ensures ClosedBy(trace, n, i, later)
  {
  }

  /**
   Every closed job was closed by one action that had a warrant for its outcome, and nothing
   but its source has changed since. Completion, claiming and recovery judge by the same rule.
   */
  lemma {:induction false} OutcomeWarranted(trace: seq<Action>, k: nat, i: nat) returns (n: nat)
    requires k <= |trace| && i < |Exec(trace[..k]).jobs| && Terminal(Exec(trace[..k]).jobs[i].state)
    ensures n < k && ClosedBy(trace, n, i, Exec(trace[..k]).jobs[i])
    decreases k
  {
    assert k > 0 by {
      assert trace[..0] == [];
    }
    var s, a := Exec(trace[..k - 1]), trace[k - 1];
    InvAlways(trace[..k - 1]);
    ExecNext(trace, k - 1);
    StepCloses(s, a, i);
    n := k - 1;
    if !Warrant(s, a, i, Step(s, a).jobs[i].state) {
      n := OutcomeWarranted(trace, k - 1, i);
      StillClosedBy(trace, n, i, s.jobs[i], Step(s, a).jobs[i]);
    }
  }

  // ---------- cancellation ----------

  /** From action `n` to before `k`, job `i` is not retried and nobody reopens its source. */
  ghost predicate LeftAlone(trace: seq<Action>, n: nat, k: nat, i: nat)
    requires k <= |trace|
  {
    forall m :: n <= m < k ==> !Reopens(trace[m], i)
  }

  predicate Reopens(a: Action, i: nat) {
    a.Act? && a.job == i && (a.op.Retry? || (a.op.SourceMoves? && Open(a.op.source)))
  }

  /** The job is cancelled or about to be, and its source no longer asks for work. */
  predicate CalledOff(job: Job) {
    Stopping(job.state) && !Open(job.source)
  }

  lemma {:induction false} ActedCalledOff(job: Job, op: Op, now: Time)
    requires CalledOff(job) && !op.Retry? && !(op.SourceMoves? && Open(op.source))
    ensures CalledOff(Acted(job, op, now)) && !LaunchedBy(job, op, now)
  {
  }

  lemma {:induction false} RecoveredCalledOff(job: Job, now: Time)
    requires CalledOff(job)
    ensures CalledOff(Recovery(now)(job))
  {
  }

  lemma {:induction false} StepCalledOff(s: State, a: Action, i: nat)
    requires i < |s.jobs| && CalledOff(s.jobs[i]) && !Reopens(a, i)
    ensures i < |Step(s, a).jobs| && CalledOff(Step(s, a).jobs[i]) && !LaunchIn(s, a, i)
  {
    match a
    case Act(j, op) =>
      if j == i {
        ActedCalledOff(s.jobs[i], op, s.now);
      }
    case Recover(locked) => RecoveredCalledOff(s.jobs[i], s.now);
    case Dispatch(limit, direct, locked) => DispatchProgresses(s, limit, direct, locked, i);
    case _ =>
  }

  lemma {:induction false} CancelCallsOff(job: Job, now: Time)
    requires CancelledJob(job).Some?
    ensures CalledOff(Acted(job, Cancel, now))
  {
  }

  /**
   An accepted cancellation is for good: whatever leases are still delivered or completed, the
   job ends cancelled, its source stays closed, and its work is never launched again.
   */
  lemma {:induction false} CancelledForGood(trace: seq<Action>, n: nat, k: nat, i: nat)
    requires n < k <= |trace| && trace[n] == Act(i, Cancel) && LeftAlone(trace, n + 1, k, i)
    requires i < |Exec(trace[..n]).jobs| && CancelledJob(Exec(trace[..n]).jobs[i]).Some?
    ensures i < |Exec(trace[..k]).jobs| && CalledOff(Exec(trace[..k]).jobs[i])
    ensures LaunchCount(trace, k, i) == LaunchCount(trace, n, i)
    decreases k
  {
    var s, a := Exec(trace[..k - 1]), trace[k - 1];
    ExecNext(trace, k - 1);
    if k == n + 1 {
      CancelCallsOff(s.jobs[i], s.now);
    } else {
      CancelledForGood(trace, n, k - 1, i);
      assert !Reopens(a, i);
      StepCalledOff(s, a, i);
    }
  }

  /** A cancellation that a running crawl never answers is completed by recovery once the lease time has passed. */
  lemma {:induction false} CancellationCompletes(trace: seq<Action>, seconds: Time, i: nat)
    requires seconds > LEASE_SECONDS && i < |Exec(trace).jobs| && Stopping(Exec(trace).jobs[i].state)
    ensures Step(Step(Exec(trace), Tick(seconds)), Recover({})).jobs[i].state == Cancelled
  {
    SlotsAreFreed(trace, seconds, i);
    InvAlways(trace);
    StepKeepsStopping(Step(Exec(trace), Tick(seconds)), Recover({}), i);
  }
}
