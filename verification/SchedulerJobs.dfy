/**
 One job of the durable scheduler: its row, the status of the source work it stands for, its
 event log, and what each operation does to them. Every operation runs under the row lock of
 the job, so each is one step.
 */
module SchedulerJobs {
  import opened Wrappers

  type Time = real
  type Project = nat
  type Lease = nat

  const LEASE_SECONDS: Time := 600.0

  datatype JobState = Queued | Paused | Leased | Running | CancelRequested | Succeeded | Failed | Cancelled

  datatype WorkType = SiteBuild | BukvarixKeyword | CompetitorCrawl

  /** Statuses of the source rows, as far as the scheduler tells them apart. */
  datatype Status = Waiting | Working | Finished | Broken | Withdrawn

  datatype Kind =
    | QueuedEvent
    | ClaimedEvent
    | StartedEvent
    | ExpiredEvent
    | PausedEvent
    | ResumedEvent
    | CancelRequestedEvent
    | CancelledEvent
    | SucceededEvent
    | FailedEvent

  /** The sequence number of an event is its position in the log plus one. */
  datatype Event = Event(kind: Kind, attempt: nat, code: Option<string>)

  /** What the source work reported; an unreadable status counts as `Broken`. */
  datatype Result = Result(status: Status, code: Option<string>)

  /** `source` is the status of the source row, if it still exists; ids are drawn at random and say nothing of order. */
  datatype Job = Job(id: nat, project: Project, work: WorkType, source: Option<Status>, state: JobState, priority: int,
                     notBefore: Option<Time>, eligibleAt: Time, firstEligibleAt: Time, attempts: nat,
                     lease: Option<Lease>, expiresAt: Option<Time>, failure: Option<string>, events: seq<Event>)

  predicate Active(state: JobState) {
    state in {Leased, Running, CancelRequested}
  }

  predicate Open(source: Option<Status>) {
    source == Some(Waiting) || source == Some(Working)
  }

  function Log(job: Job, kind: Kind, code: Option<string>): Job {
    job.(events := job.events + [Event(kind, job.attempts, code)])
  }

  // ---------- the operations ----------

  function Submitted(id: nat, project: Project, work: WorkType, priority: int, notBefore: Option<Time>,
                     now: Time): Job {
    Job(id, project, work, Some(Waiting), Queued, priority, notBefore, now, now, 0, None, None, None,
        [Event(QueuedEvent, 0, None)])
  }

  /** Dispatch hands the job out under a fresh lease. */
  function LeasedTo(job: Job, lease: Lease, now: Time): Job {
    Log(job.(state := Leased, attempts := job.attempts + 1, lease := Some(lease),
             expiresAt := Some(now + LEASE_SECONDS), failure := None),
        ClaimedEvent, None)
  }

  function Released(job: Job, state: JobState, failure: Option<string>): Job {
    job.(state := state, failure := failure, lease := None, expiresAt := None)
  }

  predicate SafeCode(code: string) {
    1 <= |code| <= 64
    && forall i :: 0 <= i < |code| ==> 'a' <= code[i] <= 'z' || '0' <= code[i] <= '9' || code[i] == '_'
  }

  function Sanitized(code: Option<string>): string {
    if code.Some? && SafeCode(code.value) then code.value else "source_execution_failed"
  }

  /** The lease still holds the job. */
  predicate Holds(job: Job, lease: Lease) {
    job.lease == Some(lease) && Active(job.state)
  }

  /** `complete_execution`. */
  function Completed(job: Job, lease: Lease, result: Result): Job {
    if !Holds(job, lease) then job
    else if job.state == CancelRequested || result.status == Withdrawn then
      Log(Released(job, Cancelled, job.failure), CancelledEvent, None)
    else if result.status == Finished then Log(Released(job, Succeeded, None), SucceededEvent, None)
    else
      var code := Some(Sanitized(result.code));
      Log(Released(job, Failed, code), FailedEvent, code)
  }

  predicate Claimable(job: Job, lease: Lease, now: Time) {
    job.state == Leased && job.lease == Some(lease) && job.expiresAt.Some? && now < job.expiresAt.value
  }

  /** The frozen identity of the source does not match the job, or the source is gone. */
  function SourceError(job: Job, mismatch: Option<string>): Option<string> {
    if job.source.None? then Some("source_missing") else mismatch
  }

  /** `claim_execution`; `mismatch` is what the identity check of an existing source found. */
  function Started(job: Job, lease: Lease, mismatch: Option<string>, now: Time): Job {
    if !Claimable(job, lease, now) then job
    else
      var error := SourceError(job, mismatch);
      if error.Some? then Completed(job, lease, Result(Broken, error))
      else if job.source != Some(Waiting) then
        Completed(job, lease, Result(job.source.value, Some("source_not_queued")))
      else Log(job.(state := Running, expiresAt := Some(now + LEASE_SECONDS)), StartedEvent, None)
  }

  predicate Expired(job: Job, now: Time) {
    Active(job.state) && job.expiresAt.Some? && job.expiresAt.value < now
  }

  /** What recovery makes of an expired job: the new state, and the source's status. */
  function Recovered(job: Job): Job {
    var after :=
      if job.state == CancelRequested || job.source == Some(Withdrawn) then
        Released(job, Cancelled, None)
          .(source := if Open(job.source) && job.work != SiteBuild then Some(Withdrawn) else job.source)
      else if job.source == Some(Finished) then Released(job, Succeeded, None)
      else if job.state == Leased && job.source == Some(Waiting) then Released(job, Queued, None)
      else
        Released(job, Failed, Some("worker_timeout"))
          .(source := if Open(job.source) then Some(Broken) else job.source);
    Log(after, ExpiredEvent, Some("worker_timeout"))
  }

  /** One job of the recovery pass; a requeued job becomes eligible now. */
  function RecoveredAt(job: Job, now: Time): Job {
    if !Expired(job, now) then job
    else
      var after := Recovered(job);
      if after.state == Queued then after.(eligibleAt := now) else after
  }

  /** `None` stands for the refusals the operations raise. */
  function PausedJob(job: Job): Option<Job> {
    if job.state != Queued then None else Some(Log(job.(state := Paused), PausedEvent, None))
  }

  function ResumedJob(job: Job, now: Time): Option<Job> {
    if job.state != Paused then None else Some(Log(job.(state := Queued, eligibleAt := now), ResumedEvent, None))
  }

  function CancelledJob(job: Job): Option<Job> {
    if job.state !in {Queued, Paused, Leased, Running} then None
    else if job.state == Running && job.work != CompetitorCrawl then None
    else if !Open(job.source) then None
    else if job.state == Running then
      Some(Log(job.(state := CancelRequested, source := Some(Withdrawn)), CancelRequestedEvent, None))
    else
      Some(Log(Released(job, Cancelled, job.failure)
                 .(source := Some(if job.work == SiteBuild then Broken else Withdrawn)), CancelledEvent, None))
  }

  /** The retry of a failed build: the build waits again, and its job is queued again unless it already is. */
  function RetriedJob(job: Job, priority: int, notBefore: Option<Time>, now: Time): Option<Job> {
    if job.work != SiteBuild || job.source != Some(Broken) then None
    else if job.state == Queued then Some(job.(source := Some(Waiting)))
    else if job.state !in {Failed, Cancelled, Paused} then None
    else
      Some(Log(Released(job, Queued, None)
                 .(source := Some(Waiting), priority := priority, notBefore := notBefore, eligibleAt := now),
               QueuedEvent, Some("manual_retry")))
  }

  // ---------- the log ----------

  /** How many events of a kind the log holds. */
  function Count(events: seq<Event>, kind: Kind): nat {
    if |events| == 0 then 0
    else Count(events[..|events| - 1], kind) + if events[|events| - 1].kind == kind then 1 else 0
  }

  /** The attempt has started its source work. */
  ghost predicate HasStarted(events: seq<Event>, attempt: nat) {
    exists i :: 0 <= i < |events| && events[i].kind == StartedEvent && events[i].attempt == attempt
  }

  /** How often the job was queued: on submission, and by a manual retry. */
  function Queuings(events: seq<Event>): nat {
    Count(events, QueuedEvent)
  }

  /** No attempt starts twice, and no event belongs to a later attempt. */
  ghost predicate StartsApart(events: seq<Event>, attempts: nat) {
    && (forall i :: 0 <= i < |events| ==> events[i].attempt <= attempts)
    && (forall i, j :: 0 <= i < j < |events| && events[i].kind == StartedEvent && events[j].kind == StartedEvent ==>
          events[i].attempt != events[j].attempt)
  }

  /** The job has not started since it was last queued by submission or retry. */
  predicate NotBegun(state: JobState) {
    state in {Queued, Paused, Leased}
  }

  /** What every operation keeps. */
  ghost predicate JobOk(job: Job) {
    && (Active(job.state) <==> job.lease.Some?)
    && (job.lease.Some? <==> job.expiresAt.Some?)
    && Count(job.events, ClaimedEvent) == job.attempts
    && StartsApart(job.events, job.attempts)
    && (job.state == Leased ==> !HasStarted(job.events, job.attempts))
    && (if NotBegun(job.state) then Count(job.events, StartedEvent) < Queuings(job.events)
        else Count(job.events, StartedEvent) <= Queuings(job.events))
  }

  // ---------- what an operation may do to a job ----------

  /** The part of a job no operation changes; attempts only grow, and the log is only appended to. */
  ghost predicate Kept(before: Job, after: Job) {
    && after.id == before.id && after.project == before.project && after.work == before.work
    && after.firstEligibleAt == before.firstEligibleAt && before.attempts <= after.attempts
    && before.events <= after.events
  }

  /** A step that at most releases what the job held. */
  ghost predicate Calmer(before: Job, after: Job) {
    && JobOk(after) && Kept(before, after)
    && (after.lease == None || after.lease == before.lease)
    && (Active(after.state) ==> Active(before.state))
  }

  /** How many starts and queuings the step added to the log. */
  ghost predicate Adds(before: Job, after: Job, starts: nat, queuings: nat) {
    && Count(after.events, StartedEvent) == Count(before.events, StartedEvent) + starts
    && Queuings(after.events) == Queuings(before.events) + queuings
  }

  function One(b: bool): nat {
    if b then 1 else 0
  }

  lemma {:induction false} KeptTransitive(a: Job, b: Job, c: Job)
    requires Kept(a, b) && Kept(b, c)
    ensures Kept(a, c)
  {
  }

  lemma {:induction false} CountLog(events: seq<Event>, e: Event, kind: Kind)
    ensures Count(events + [e], kind) == Count(events, kind) + One(e.kind == kind)
  {
    assert (events + [e])[..|events|] == events;
  }

  lemma {:induction false} StartsApartLog(events: seq<Event>, attempts: nat, e: Event)
    requires StartsApart(events, attempts) && e.attempt >= attempts
    requires e.kind == StartedEvent ==> !HasStarted(events, e.attempt)
    ensures StartsApart(events + [e], e.attempt)
  {
  }

  /** The step logged `e`, and leased, started and queued the job only as the kind of event says. */
  ghost predicate Logged(before: Job, after: Job, e: Event) {
    && after.events == before.events + [e] && e.attempt == after.attempts
    && after.attempts == before.attempts + One(e.kind == ClaimedEvent)
    && (Active(after.state) <==> after.lease.Some?) && (after.lease.Some? <==> after.expiresAt.Some?)
    && (after.state == Leased ==> e.kind == ClaimedEvent)
    && (e.kind == StartedEvent ==> before.state == Leased && !NotBegun(after.state))
    && (NotBegun(after.state) ==> NotBegun(before.state) || e.kind == QueuedEvent)
  }

  lemma {:induction false} LoggedOk(before: Job, after: Job, e: Event)
    requires JobOk(before) && Logged(before, after, e)
    ensures JobOk(after)
    ensures Adds(before, after, One(e.kind == StartedEvent), One(e.kind == QueuedEvent))
  {
    CountLog(before.events, e, ClaimedEvent);
    CountLog(before.events, e, StartedEvent);
    CountLog(before.events, e, QueuedEvent);
    StartsApartLog(before.events, before.attempts, e);
    if after.state == Leased {
      assert !HasStarted(before.events, after.attempts);
    }
  }

  /** A logged step other than a claim is calm if it keeps the rest of the job. */
  lemma {:induction false} LoggedCalm(before: Job, after: Job, e: Event)
    requires JobOk(before) && Logged(before, after, e) && e.kind != ClaimedEvent
    requires after.id == before.id && after.project == before.project && after.work == before.work
    requires after.firstEligibleAt == before.firstEligibleAt
    requires after.lease == None || after.lease == before.lease
    ensures Calmer(before, after)
    ensures Adds(before, after, One(e.kind == StartedEvent), One(e.kind == QueuedEvent))
  {
    LoggedOk(before, after, e);
  }

  lemma {:induction false} CountFirst(e: Event, kind: Kind)
    ensures Count([e], kind) == One(e.kind == kind)
  {
    assert [e][..0] == [];
  }

  lemma {:induction false} SubmittedOk(id: nat, project: Project, work: WorkType, priority: int,
                                       notBefore: Option<Time>, now: Time)
    ensures var job := Submitted(id, project, work, priority, notBefore, now);
            JobOk(job) && Count(job.events, StartedEvent) == 0 && Queuings(job.events) == 1
  {
    var e := Event(QueuedEvent, 0, None);
    CountFirst(e, ClaimedEvent);
    CountFirst(e, StartedEvent);
    CountFirst(e, QueuedEvent);
  }

  lemma {:induction false} LeasedOk(job: Job, lease: Lease, now: Time)
    requires JobOk(job) && job.state == Queued
    ensures var after := LeasedTo(job, lease, now); JobOk(after) && Kept(job, after) && Adds(job, after, 0, 0)
  {
    LoggedOk(job, LeasedTo(job, lease, now), Event(ClaimedEvent, job.attempts + 1, None));
  }

  lemma {:induction false} CompletedCalm(job: Job, lease: Lease, result: Result)
    requires JobOk(job)
    ensures var after := Completed(job, lease, result); Calmer(job, after) && Adds(job, after, 0, 0)
  {
    var after := Completed(job, lease, result);
    if Holds(job, lease) {
      var code := Some(Sanitized(result.code));
      LoggedCalm(job, after,
                 if after.state == Cancelled then Event(CancelledEvent, job.attempts, None)
                 else if after.state == Succeeded then Event(SucceededEvent, job.attempts, None)
                 else Event(FailedEvent, job.attempts, code));
    }
  }

  /** The claim launches the source work. */
  predicate Launches(job: Job, lease: Lease, mismatch: Option<string>, now: Time) {
    Claimable(job, lease, now) && job.source == Some(Waiting) && mismatch.None?
  }

  lemma {:induction false} StartedCalm(job: Job, lease: Lease, mismatch: Option<string>, now: Time)
    requires JobOk(job)
    ensures var after := Started(job, lease, mismatch, now);
            Calmer(job, after) && Adds(job, after, One(Launches(job, lease, mismatch, now)), 0)
  {
    if Launches(job, lease, mismatch, now) {
      LoggedCalm(job, Started(job, lease, mismatch, now), Event(StartedEvent, job.attempts, None));
    } else if Claimable(job, lease, now) {
      CompletedCalm(job, lease,
                    if SourceError(job, mismatch).Some? then Result(Broken, SourceError(job, mismatch))
                    else Result(job.source.value, Some("source_not_queued")));
    }
  }

  lemma {:induction false} RecoveredCalm(job: Job, now: Time)
    requires JobOk(job)
    ensures var after := RecoveredAt(job, now); Calmer(job, after) && Adds(job, after, 0, 0)
  {
    if Expired(job, now) {
      LoggedCalm(job, RecoveredAt(job, now), Event(ExpiredEvent, job.attempts, Some("worker_timeout")));
    }
  }

  lemma {:induction false} PausedCalm(job: Job)
    requires JobOk(job)
    ensures var after := PausedJob(job).GetOr(job); Calmer(job, after) && Adds(job, after, 0, 0)
  {
    if job.state == Queued {
      LoggedCalm(job, PausedJob(job).value, Event(PausedEvent, job.attempts, None));
    }
  }

  lemma {:induction false} ResumedCalm(job: Job, now: Time)
    requires JobOk(job)
    ensures var after := ResumedJob(job, now).GetOr(job); Calmer(job, after) && Adds(job, after, 0, 0)
  {
    if job.state == Paused {
      LoggedCalm(job, ResumedJob(job, now).value, Event(ResumedEvent, job.attempts, None));
    }
  }

  lemma {:induction false} CancelledCalm(job: Job)
    requires JobOk(job)
    ensures var after := CancelledJob(job).GetOr(job); Calmer(job, after) && Adds(job, after, 0, 0)
  {
    if CancelledJob(job).Some? {
      LoggedCalm(job, CancelledJob(job).value,
                 Event(if job.state == Running then CancelRequestedEvent else CancelledEvent, job.attempts, None));
    }
  }

  /** The retry puts the job into the queue once more. */
  predicate Requeues(job: Job) {
    job.work == SiteBuild && job.source == Some(Broken) && job.state in {Failed, Cancelled, Paused}
  }

  lemma {:induction false} RetriedCalm(job: Job, priority: int, notBefore: Option<Time>, now: Time)
    requires JobOk(job)
    ensures var after := RetriedJob(job, priority, notBefore, now).GetOr(job);
            Calmer(job, after) && Adds(job, after, 0, One(Requeues(job)))
  {
    if Requeues(job) {
      LoggedCalm(job, RetriedJob(job, priority, notBefore, now).value,
                 Event(QueuedEvent, job.attempts, Some("manual_retry")));
    }
  }

  /** An expired job goes back to the queue exactly when it was never started and its source still waits. */
  lemma {:induction false} RequeuedIffNotStarted(job: Job, now: Time)
    requires JobOk(job) && Expired(job, now)
    ensures RecoveredAt(job, now).state == Queued <==> job.state == Leased && job.source == Some(Waiting)
    ensures RecoveredAt(job, now).state == Queued ==> !HasStarted(job.events, job.attempts)
    ensures !Active(RecoveredAt(job, now).state) && !Expired(RecoveredAt(job, now), now)
  {
  }
}
