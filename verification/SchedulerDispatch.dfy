/**
 One dispatch of the scheduler: the due projects in order of their last turn, one job of each
 while slots last, and the new turns. The round is a fold over the ordered projects.
 */
module SchedulerDispatch {
  import opened Wrappers
  import opened SchedulerJobs

  const MAX_CONCURRENCY: nat := 1

  type Turns = map<Project, int>

  // ---------- which job of a project ----------

  predicate Due(job: Job, now: Time) {
    job.state == Queued && job.eligibleAt <= now && (job.notBefore.None? || job.notBefore.value <= now)
  }

  /** Priority plus one for every full hour of waiting, at most 100. */
  function Effective(job: Job, now: Time): int {
    var aged := job.priority + ((now - job.firstEligibleAt) / 3600.0).Floor;
    if aged < 100 then aged else 100
  }

  /** The order of the job query: aged priority, then first eligibility, then the id. */
  predicate Ahead(a: Job, b: Job, now: Time) {
    || Effective(a, now) > Effective(b, now)
    || (Effective(a, now) == Effective(b, now)
        && (a.firstEligibleAt < b.firstEligibleAt || (a.firstEligibleAt == b.firstEligibleAt && a.id < b.id)))
  }

  /** Job `i` may be handed out for the project; locked rows are skipped. */
  predicate Candidate(jobs: seq<Job>, p: Project, now: Time, locked: set<nat>, i: nat) {
    i < |jobs| && jobs[i].project == p && Due(jobs[i], now) && i !in locked
  }

  /** The candidate that comes first among jobs below `n`. */
  function Pick(jobs: seq<Job>, p: Project, now: Time, locked: set<nat>, n: nat): (pick: Option<nat>)
    requires n <= |jobs|
    ensures pick.Some? ==> pick.value < n && Candidate(jobs, p, now, locked, pick.value)
  {
    if n == 0 then None
    else
      var before := Pick(jobs, p, now, locked, n - 1);
      if !Candidate(jobs, p, now, locked, n - 1) then before
      else if before.Some? && !Ahead(jobs[n - 1], jobs[before.value], now) then before
      else Some(n - 1)
  }

  /** Every full hour of waiting raises the priority by one, up to 100. */
  lemma {:induction false} AgedPriority(job: Job, now: Time, hours: int)
    requires hours as real * 3600.0 <= now - job.firstEligibleAt < (hours + 1) as real * 3600.0
    ensures Effective(job, now) == if job.priority + hours < 100 then job.priority + hours else 100
  {
    var waited := (now - job.firstEligibleAt) / 3600.0;
    assert hours as real <= waited < (hours + 1) as real;
  }

  /** The pick comes first of all candidates by aged priority, then first eligibility, then id. */
  lemma {:induction false} PickIsFirst(jobs: seq<Job>, p: Project, now: Time, locked: set<nat>, n: nat, i: nat)
    requires n <= |jobs| && i < n && Candidate(jobs, p, now, locked, i)
    ensures var pick := Pick(jobs, p, now, locked, n);
            && pick.Some?
            && var first := jobs[pick.value];
               && Effective(first, now) >= Effective(jobs[i], now)
               && (Effective(first, now) == Effective(jobs[i], now) ==>
                     && first.firstEligibleAt <= jobs[i].firstEligibleAt
                     && (first.firstEligibleAt == jobs[i].firstEligibleAt ==> first.id <= jobs[i].id))
  {
    if i < n - 1 {
      PickIsFirst(jobs, p, now, locked, n - 1, i);
    }
  }

  /**
   Ageing prevents starvation inside a project: once a job has waited long enough to reach the
   cap, a pick that passes it over was first eligible no later than it.
   */
  lemma {:induction false} AgedJobIsFirstComeFirstServed(jobs: seq<Job>, p: Project, now: Time, locked: set<nat>,
                                                         i: nat)
    requires Candidate(jobs, p, now, locked, i)
    requires now - jobs[i].firstEligibleAt >= 3600.0 * (100 - jobs[i].priority) as real
    ensures var pick := Pick(jobs, p, now, locked, |jobs|);
            pick.Some? && jobs[pick.value].firstEligibleAt <= jobs[i].firstEligibleAt
  {
    PickIsFirst(jobs, p, now, locked, |jobs|, i);
    var waited := (now - jobs[i].firstEligibleAt) / 3600.0;
    assert waited >= (100 - jobs[i].priority) as real;
    assert Effective(jobs[i], now) == 100;
  }

  // ---------- the order of the projects ----------

  /** Projects that never had a turn come before all others. */
  function Turn(turns: Turns, p: Project): int {
    if p in turns then turns[p] else -1
  }

  predicate Before(turns: Turns, a: Project, b: Project) {
    Turn(turns, a) < Turn(turns, b) || (Turn(turns, a) == Turn(turns, b) && a < b)
  }

  function Insert(turns: Turns, p: Project, order: seq<Project>): seq<Project> {
    if |order| == 0 || Before(turns, p, order[0]) then [p] + order
    else [order[0]] + Insert(turns, p, order[1..])
  }

  /** The projects with a due job below `n`, each once, sorted by turn. */
  function Ordered(jobs: seq<Job>, turns: Turns, now: Time, n: nat): seq<Project>
    requires n <= |jobs|
  {
    if n == 0 then []
    else
      var before := Ordered(jobs, turns, now, n - 1);
      var p := jobs[n - 1].project;
      if Due(jobs[n - 1], now) && p !in before then Insert(turns, p, before) else before
  }

  ghost predicate Sorted(turns: Turns, order: seq<Project>) {
    forall i, j :: 0 <= i < j < |order| ==> Before(turns, order[i], order[j])
  }

  lemma {:induction false} InsertSorted(turns: Turns, p: Project, order: seq<Project>)
    requires Sorted(turns, order) && p !in order
    ensures Sorted(turns, Insert(turns, p, order))
    ensures forall q :: q in Insert(turns, p, order) <==> q == p || q in order
    decreases |order|
  {
    if |order| != 0 && !Before(turns, p, order[0]) {
      var rest := order[1..];
      assert order == [order[0]] + rest;
      InsertSorted(turns, p, rest);
      forall q | q in Insert(turns, p, rest) ensures Before(turns, order[0], q) {
        if q != p {
          var k :| 0 <= k < |rest| && rest[k] == q;
          assert order[k + 1] == q;
        }
      }
    }
  }

  ghost predicate HasDue(jobs: seq<Job>, now: Time, n: nat, p: Project)
    requires n <= |jobs|
  {
    exists i :: 0 <= i < n && jobs[i].project == p && Due(jobs[i], now)
  }

  lemma {:induction false} OrderedSorted(jobs: seq<Job>, turns: Turns, now: Time, n: nat)
    requires n <= |jobs|
    ensures Sorted(turns, Ordered(jobs, turns, now, n))
    ensures forall p :: p in Ordered(jobs, turns, now, n) <==> HasDue(jobs, now, n, p)
  {
    if n > 0 {
      OrderedSorted(jobs, turns, now, n - 1);
      var before := Ordered(jobs, turns, now, n - 1);
      var p := jobs[n - 1].project;
      if Due(jobs[n - 1], now) && p !in before {
        InsertSorted(turns, p, before);
      }
      forall q ensures HasDue(jobs, now, n, q) <==> HasDue(jobs, now, n - 1, q) || (q == p && Due(jobs[n - 1], now)) {
      }
    }
  }

  /** The largest turn among the projects listed; turns of other projects are not read. */
  function MaxTurn(turns: Turns, order: seq<Project>): (last: int)
    ensures last >= 0
    ensures forall p :: p in order ==> Turn(turns, p) <= last
  {
    if |order| == 0 then 0
    else
      var last := MaxTurn(turns, order[..|order| - 1]);
      var p := order[|order| - 1];
      assert forall q :: q in order ==> q == p || q in order[..|order| - 1];
      if last < Turn(turns, p) then Turn(turns, p) else last
  }

  // ---------- the round ----------

  /** Jobs that hold a slot. */
  function ActiveJobs(jobs: seq<Job>): set<nat> {
    set i | 0 <= i < |jobs| && Active(jobs[i].state)
  }

  function BusyProjects(jobs: seq<Job>): set<Project> {
    set i | 0 <= i < |jobs| && Active(jobs[i].state) :: jobs[i].project
  }

  /** `lastTurn` is the turn handed out last, `busy` the projects that may get no further job. */
  datatype Round = Round(jobs: seq<Job>, turns: Turns, lastTurn: int, nextLease: Lease, busy: set<Project>,
                         selected: seq<nat>)

  /** A project's turn in the round. */
  function Serve(r: Round, p: Project, slots: nat, now: Time, locked: set<nat>): Round {
    if |r.selected| >= slots || p in r.busy then r
    else
      match Pick(r.jobs, p, now, locked, |r.jobs|)
      case None => r
      case Some(i) =>
        Round(r.jobs[i := LeasedTo(r.jobs[i], r.nextLease, now)], r.turns[p := r.lastTurn + 1], r.lastTurn + 1,
              r.nextLease + 1, r.busy + {p}, r.selected + [i])
  }

  /** The round after the first `k` projects. */
  function Served(start: Round, order: seq<Project>, k: nat, slots: nat, now: Time, locked: set<nat>): Round
    requires k <= |order|
  {
    if k == 0 then start else Serve(Served(start, order, k - 1, slots, now, locked), order[k - 1], slots, now, locked)
  }

  /** Slots left by active jobs and by `direct`, the running work outside the scheduler. */
  function Slots(jobs: seq<Job>, limit: nat, direct: nat): nat {
    var taken := |ActiveJobs(jobs)| + direct;
    var free := if taken < MAX_CONCURRENCY then MAX_CONCURRENCY - taken else 0;
    if limit < free then limit else free
  }

  function Start(jobs: seq<Job>, turns: Turns, nextLease: Lease, now: Time): Round {
    Round(jobs, turns, MaxTurn(turns, Ordered(jobs, turns, now, |jobs|)), nextLease, BusyProjects(jobs), [])
  }

  /** `dispatch_due_jobs`. */
  function Dispatched(jobs: seq<Job>, turns: Turns, nextLease: Lease, now: Time, limit: nat, direct: nat,
                      locked: set<nat>): Round
  {
    var order := Ordered(jobs, turns, now, |jobs|);
    Served(Start(jobs, turns, nextLease, now), order, |order|, Slots(jobs, limit, direct), now, locked)
  }

  // ---------- what a round keeps ----------

  ghost predicate JobsOk(jobs: seq<Job>) {
    forall i :: 0 <= i < |jobs| ==> JobOk(jobs[i])
  }

  /** The round so far, compared with its start. */
  ghost predicate RoundOk(start: Round, r: Round, slots: nat) {
    && |r.jobs| == |start.jobs| && |r.selected| <= slots
    && r.busy == BusyProjects(r.jobs)
    && |ActiveJobs(r.jobs)| == |ActiveJobs(start.jobs)| + |r.selected|
    && JobsOk(r.jobs) && OneActiveEach(r.jobs) && LeasesApart(r.jobs, r.nextLease)
  }

  /** A lease belongs to one job, and was handed out before. */
  ghost predicate LeasesApart(jobs: seq<Job>, nextLease: Lease) {
    && (forall i :: 0 <= i < |jobs| && jobs[i].lease.Some? ==> jobs[i].lease.value < nextLease)
    && (forall i, j :: 0 <= i < j < |jobs| && jobs[i].lease.Some? ==> jobs[i].lease != jobs[j].lease)
  }

  /** No two active jobs belong to the same project. */
  ghost predicate OneActiveEach(jobs: seq<Job>) {
    forall i, j :: 0 <= i < j < |jobs| && Active(jobs[i].state) && Active(jobs[j].state) ==>
      jobs[i].project != jobs[j].project
  }

  lemma {:induction false} ActiveJobsAdded(jobs: seq<Job>, i: nat, job: Job)
    requires i < |jobs| && !Active(jobs[i].state) && Active(job.state) && job.project == jobs[i].project
    ensures |ActiveJobs(jobs[i := job])| == |ActiveJobs(jobs)| + 1
    ensures BusyProjects(jobs[i := job]) == BusyProjects(jobs) + {job.project}
  {
    var after := jobs[i := job];
    assert ActiveJobs(after) == ActiveJobs(jobs) + {i};
    forall p ensures p in BusyProjects(after) <==> p in BusyProjects(jobs) + {job.project} {
      if p in BusyProjects(jobs) {
        var k :| 0 <= k < |jobs| && Active(jobs[k].state) && jobs[k].project == p;
        assert after[k] == jobs[k];
      }
      if p == job.project {
        assert after[i] == job;
      }
      if p in BusyProjects(after) && p != job.project {
        var k :| 0 <= k < |after| && Active(after[k].state) && after[k].project == p;
        assert jobs[k] == after[k];
      }
    }
  }

  lemma {:induction false} FreshLeaseApart(jobs: seq<Job>, nextLease: Lease, i: nat, job: Job)
    requires LeasesApart(jobs, nextLease) && i < |jobs| && job.lease == Some(nextLease)
    ensures LeasesApart(jobs[i := job], nextLease + 1)
  {
  }

  lemma {:induction false} OneMoreActive(jobs: seq<Job>, i: nat, job: Job)
    requires OneActiveEach(jobs) && i < |jobs| && job.project !in BusyProjects(jobs)
    requires Active(job.state)
    ensures OneActiveEach(jobs[i := job])
  {
    forall j | 0 <= j < |jobs| && j != i && Active(jobs[j].state) ensures jobs[j].project != job.project {
      assert jobs[j].project in BusyProjects(jobs);
    }
  }

  lemma {:induction false} JobsOkUpdated(jobs: seq<Job>, i: nat, job: Job)
    requires JobsOk(jobs) && i < |jobs| && JobOk(job)
    ensures JobsOk(jobs[i := job])
  {
  }

  lemma {:induction false} ServeOk(start: Round, r: Round, p: Project, slots: nat, now: Time, locked: set<nat>)
    requires RoundOk(start, r, slots)
    ensures RoundOk(start, Serve(r, p, slots, now, locked), slots)
  {
    var pick := Pick(r.jobs, p, now, locked, |r.jobs|);
    if |r.selected| < slots && p !in r.busy && pick.Some? {
      var i := pick.value;
      var job := LeasedTo(r.jobs[i], r.nextLease, now);
      LeasedOk(r.jobs[i], r.nextLease, now);
      JobsOkUpdated(r.jobs, i, job);
      ActiveJobsAdded(r.jobs, i, job);
      FreshLeaseApart(r.jobs, r.nextLease, i, job);
      OneMoreActive(r.jobs, i, job);
    }
  }

  lemma {:induction false} ServedOk(start: Round, order: seq<Project>, k: nat, slots: nat, now: Time,
                                    locked: set<nat>)
    requires k <= |order| && RoundOk(start, start, slots)
    ensures RoundOk(start, Served(start, order, k, slots, now, locked), slots)
  {
    if k > 0 {
      ServedOk(start, order, k - 1, slots, now, locked);
      ServeOk(start, Served(start, order, k - 1, slots, now, locked), order[k - 1], slots, now, locked);
    }
  }

  /** Every lease runs out by `limit`. */
  ghost predicate RunOutBy(jobs: seq<Job>, limit: Time) {
    forall i :: 0 <= i < |jobs| && jobs[i].expiresAt.Some? ==> jobs[i].expiresAt.value <= limit
  }

  lemma {:induction false} ServedRunOut(start: Round, order: seq<Project>, k: nat, slots: nat, now: Time,
                                      locked: set<nat>)
    requires k <= |order| && RunOutBy(start.jobs, now + LEASE_SECONDS)
    ensures RunOutBy(Served(start, order, k, slots, now, locked).jobs, now + LEASE_SECONDS)
  {
    if k > 0 {
      ServedRunOut(start, order, k - 1, slots, now, locked);
    }
  }

  // ---------- who gets a job ----------

  /** The project has a job to hand out, and none in progress. */
  ghost predicate Waits(jobs: seq<Job>, now: Time, locked: set<nat>, p: Project) {
    p !in BusyProjects(jobs) && exists i :: Candidate(jobs, p, now, locked, i)
  }

  /** The round gave the project a job. */
  predicate Gets(start: Round, r: Round, p: Project) {
    p in r.busy && p !in start.busy
  }

  /** How far round `r` has come from `start`: what changed belongs to projects among `served`. */
  ghost predicate Progressed(start: Round, r: Round, served: seq<Project>) {
    && |r.jobs| == |start.jobs| && start.busy <= r.busy && start.lastTurn <= r.lastTurn
    && start.nextLease <= r.nextLease
    && (forall p :: Gets(start, r, p) ==> p in served)
    && (forall i :: 0 <= i < |r.jobs| ==> JobProgressed(start, r, i))
    && (forall p :: TurnProgressed(start, r, p))
  }

  /** A job changes only by being leased, and only if its project got it. */
  ghost predicate JobProgressed(start: Round, r: Round, i: nat)
    requires i < |r.jobs| == |start.jobs|
  {
    || r.jobs[i] == start.jobs[i]
    || (Gets(start, r, start.jobs[i].project) && start.jobs[i].state == Queued
        && exists l :: start.nextLease <= l < r.nextLease && IsLeasedTo(start.jobs[i], r.jobs[i], l))
  }

  /** The job was handed out under lease `l`, which tells when. */
  ghost predicate IsLeasedTo(before: Job, after: Job, l: Lease) {
    after.expiresAt.Some? && after == LeasedTo(before, l, after.expiresAt.value - LEASE_SECONDS)
  }

  /** A project that got a job has a turn later than all turns read at the start; any other keeps its turn. */
  ghost predicate TurnProgressed(start: Round, r: Round, p: Project) {
    if Gets(start, r, p) then start.lastTurn < Turn(r.turns, p) <= r.lastTurn
    else Turn(r.turns, p) == Turn(start.turns, p)
  }

  lemma {:induction false} ServeProgresses(start: Round, r: Round, served: seq<Project>, p: Project, slots: nat,
                        now: Time, locked: set<nat>)
    requires Progressed(start, r, served)
    ensures Progressed(start, Serve(r, p, slots, now, locked), served + [p])
  {
    var after := Serve(r, p, slots, now, locked);
    forall q | Gets(start, after, q) ensures q in served + [p] {
      if q in r.busy { assert Gets(start, r, q); }
    }
    forall i | 0 <= i < |after.jobs| ensures JobProgressed(start, after, i) {
      assert JobProgressed(start, r, i);
      if after.jobs[i] != r.jobs[i] {
        assert IsLeasedTo(r.jobs[i], after.jobs[i], r.nextLease);
      }
    }
    forall q ensures TurnProgressed(start, after, q) {
      assert TurnProgressed(start, r, q);
    }
  }

  lemma {:induction false} ServedProgresses(start: Round, order: seq<Project>, k: nat, slots: nat, now: Time,
                                           locked: set<nat>)
    requires k <= |order|
    ensures Progressed(start, Served(start, order, k, slots, now, locked), order[..k])
  {
    if k > 0 {
      var r := Served(start, order, k - 1, slots, now, locked);
      ServedProgresses(start, order, k - 1, slots, now, locked);
      ServeProgresses(start, r, order[..k - 1], order[k - 1], slots, now, locked);
      assert order[..k] == order[..k - 1] + [order[k - 1]];
    }
  }

  /** Slots and projects once taken stay taken, and a full round does nothing more. */
  lemma {:induction false} ServedMonotone(start: Round, order: seq<Project>, k: nat, n: nat, slots: nat,
                                         now: Time, locked: set<nat>)
    requires k <= n <= |order|
    ensures var r, after := Served(start, order, k, slots, now, locked), Served(start, order, n, slots, now, locked);
            r.busy <= after.busy && (|r.selected| >= slots ==> after == r)
    decreases n
  {
    if k < n {
      ServedMonotone(start, order, k, n - 1, slots, now, locked);
    }
  }

  /** When a waiting project's turn comes, it gets a job unless the slots are gone. */
  lemma {:induction false} GetsOnTurn(start: Round, order: seq<Project>, k: nat, slots: nat, now: Time,
                                      locked: set<nat>)
    requires k < |order| && (forall j :: 0 <= j < k ==> order[j] != order[k])
    requires start.busy == BusyProjects(start.jobs) && Waits(start.jobs, now, locked, order[k])
    requires |Served(start, order, k, slots, now, locked).selected| < slots
    ensures Gets(start, Served(start, order, |order|, slots, now, locked), order[k])
  {
    var p := order[k];
    var r := Served(start, order, k, slots, now, locked);
    ServedProgresses(start, order, k, slots, now, locked);
    assert p !in order[..k];
    assert !Gets(start, r, p);
    var i :| Candidate(start.jobs, p, now, locked, i);
    assert JobProgressed(start, r, i);
    PickIsFirst(r.jobs, p, now, locked, |r.jobs|, i);
    assert p in Served(start, order, k + 1, slots, now, locked).busy;
    ServedMonotone(start, order, k + 1, |order|, slots, now, locked);
  }

  /** The dispatch never leaves a slot unused while a project waits. */
  lemma {:induction false} WorkConserving(jobs: seq<Job>, turns: Turns, nextLease: Lease, now: Time, limit: nat,
                                          direct: nat,
                       locked: set<nat>, p: Project)
    requires Waits(jobs, now, locked, p)
    ensures var after := Dispatched(jobs, turns, nextLease, now, limit, direct, locked);
            Gets(Start(jobs, turns, nextLease, now), after, p) || |after.selected| >= Slots(jobs, limit, direct)
  {
    var order := Ordered(jobs, turns, now, |jobs|);
    var start := Start(jobs, turns, nextLease, now);
    var slots := Slots(jobs, limit, direct);
    var k := TurnOf(jobs, turns, now, locked, p);
    if |Served(start, order, k, slots, now, locked).selected| < slots {
      GetsOnTurn(start, order, k, slots, now, locked);
    } else {
      ServedMonotone(start, order, k, |order|, slots, now, locked);
    }
  }

  /** A waiting project has one place in the order. */
  lemma {:induction false} TurnOf(jobs: seq<Job>, turns: Turns, now: Time, locked: set<nat>, p: Project)
    returns (k: nat)
    requires Waits(jobs, now, locked, p)
    ensures var order := Ordered(jobs, turns, now, |jobs|);
            k < |order| && order[k] == p && (forall j :: 0 <= j < k ==> order[j] != p) && Sorted(turns, order)
  {
    OrderedSorted(jobs, turns, now, |jobs|);
    var i :| Candidate(jobs, p, now, locked, i);
    assert HasDue(jobs, now, |jobs|, p);
    var order := Ordered(jobs, turns, now, |jobs|);
    k :| 0 <= k < |order| && order[k] == p;
    forall j | 0 <= j < k ensures order[j] != p {
      assert Before(turns, order[j], order[k]);
    }
  }

  // ---------- what a slot is ----------

  /** Fields of a job that may be handed out at `now`. */
  ghost predicate MayStart(job: Job, now: Time) {
    job.state == Queued && job.eligibleAt <= now && (job.notBefore.None? || job.notBefore.value <= now)
  }

  /** No job of the project is leased, running or being cancelled. */
  ghost predicate Idle(jobs: seq<Job>, p: Project) {
    forall j :: 0 <= j < |jobs| && jobs[j].project == p ==> jobs[j].state !in {Leased, Running, CancelRequested}
  }

  /** The job was handed out at `now` for ten minutes, under a lease that is new. */
  ghost predicate HandedOut(before: Job, after: Job, nextLease: Lease, now: Time) {
    && after.lease.Some? && after.lease.value >= nextLease
    && after == before.(state := Leased, attempts := before.attempts + 1, lease := after.lease,
                        expiresAt := Some(now + 600.0), failure := None, events := after.events)
    && after.events == before.events + [Event(ClaimedEvent, before.attempts + 1, None)]
  }

  /** Job `i` was selected, and rightly so. */
  ghost predicate RightlySelected(start: Round, r: Round, now: Time, locked: set<nat>, i: nat) {
    && i < |start.jobs| == |r.jobs| && i !in locked
    && MayStart(start.jobs[i], now) && Idle(start.jobs, start.jobs[i].project)
    && HandedOut(start.jobs[i], r.jobs[i], start.nextLease, now)
  }

  /** The selected jobs were rightly selected, and no other job has changed. */
  ghost predicate SelectedRightly(start: Round, r: Round, now: Time, locked: set<nat>) {
    && |r.jobs| == |start.jobs| && start.busy <= r.busy && start.nextLease <= r.nextLease
    && (forall i :: i in r.selected ==> RightlySelected(start, r, now, locked, i))
    && (forall i :: 0 <= i < |r.jobs| && i !in r.selected ==> r.jobs[i] == start.jobs[i])
  }

  lemma {:induction false} NotBusyIsIdle(jobs: seq<Job>, p: Project)
    requires p !in BusyProjects(jobs)
    ensures Idle(jobs, p)
  {
  }

  lemma {:induction false} IdleIsNotBusy(jobs: seq<Job>, p: Project)
    requires Idle(jobs, p)
    ensures p !in BusyProjects(jobs)
  {
  }

  lemma {:induction false} ServeSelects(start: Round, r: Round, p: Project, slots: nat, now: Time, locked: set<nat>)
    requires SelectedRightly(start, r, now, locked) && start.busy == BusyProjects(start.jobs)
    ensures SelectedRightly(start, Serve(r, p, slots, now, locked), now, locked)
  {
    var pick := Pick(r.jobs, p, now, locked, |r.jobs|);
    if |r.selected| < slots && p !in r.busy && pick.Some? {
      var i, after := pick.value, Serve(r, p, slots, now, locked);
      assert i in r.selected ==> RightlySelected(start, r, now, locked, i);
      NotBusyIsIdle(start.jobs, p);
      assert RightlySelected(start, after, now, locked, i);
      forall k | k in r.selected ensures RightlySelected(start, after, now, locked, k) {
        assert RightlySelected(start, r, now, locked, k);
      }
    }
  }

  lemma {:induction false} ServedSelects(start: Round, order: seq<Project>, k: nat, slots: nat, now: Time,
                                        locked: set<nat>)
    requires k <= |order| && start.busy == BusyProjects(start.jobs) && start.selected == []
    ensures SelectedRightly(start, Served(start, order, k, slots, now, locked), now, locked)
  {
    if k > 0 {
      ServedSelects(start, order, k - 1, slots, now, locked);
      ServeSelects(start, Served(start, order, k - 1, slots, now, locked), order[k - 1], slots, now, locked);
    }
  }

  lemma {:induction false} ServedWithin(start: Round, order: seq<Project>, k: nat, slots: nat, now: Time,
                                       locked: set<nat>)
    requires k <= |order| && start.selected == []
    ensures var r := Served(start, order, k, slots, now, locked);
            |r.selected| <= slots && (|r.selected| == 0 ==> r == start)
  {
    if k > 0 {
      ServedWithin(start, order, k - 1, slots, now, locked);
    }
  }

  lemma {:induction false} SelectionBounded(jobs: seq<Job>, turns: Turns, nextLease: Lease, now: Time, limit: nat,
                                           direct: nat, locked: set<nat>)
    ensures var selected := Dispatched(jobs, turns, nextLease, now, limit, direct, locked).selected;
            |selected| <= limit && (selected != [] ==> |ActiveJobs(jobs)| + direct + |selected| <= MAX_CONCURRENCY)
  {
    var order := Ordered(jobs, turns, now, |jobs|);
    ServedWithin(Start(jobs, turns, nextLease, now), order, |order|, Slots(jobs, limit, direct), now, locked);
  }

  /**
   A dispatch selects no more than asked for, and only as many as keep the jobs active before,
   the running work outside the scheduler and the selected ones within the concurrency limit;
   it hands out exactly the selected jobs, each due, unlocked and of an idle project.
   */
  lemma {:induction false} DispatchStaysWithin(jobs: seq<Job>, turns: Turns, nextLease: Lease, now: Time, limit: nat,
                                              direct: nat, locked: set<nat>)
    ensures var after := Dispatched(jobs, turns, nextLease, now, limit, direct, locked);
            && |after.selected| <= limit
            && (after.selected != [] ==> |ActiveJobs(jobs)| + direct + |after.selected| <= MAX_CONCURRENCY)
            && SelectedRightly(Start(jobs, turns, nextLease, now), after, now, locked)
  {
    var order := Ordered(jobs, turns, now, |jobs|);
    var start := Start(jobs, turns, nextLease, now);
    SelectionBounded(jobs, turns, nextLease, now, limit, direct, locked);
    ServedSelects(start, order, |order|, Slots(jobs, limit, direct), now, locked);
  }

  /** If the concurrency limit leaves room and some unlocked job of an idle project may start, one is started. */
  lemma {:induction false} FreeSlotIsUsed(jobs: seq<Job>, turns: Turns, nextLease: Lease, now: Time, limit: nat,
                                         direct: nat, locked: set<nat>, i: nat)
    requires limit > 0 && |ActiveJobs(jobs)| + direct < MAX_CONCURRENCY
    requires i < |jobs| && i !in locked && MayStart(jobs[i], now) && Idle(jobs, jobs[i].project)
    ensures Dispatched(jobs, turns, nextLease, now, limit, direct, locked).selected != []
  {
    var p := jobs[i].project;
    IdleIsNotBusy(jobs, p);
    assert Candidate(jobs, p, now, locked, i);
    WorkConserving(jobs, turns, nextLease, now, limit, direct, locked, p);
    var order := Ordered(jobs, turns, now, |jobs|);
    ServedWithin(Start(jobs, turns, nextLease, now), order, |order|, Slots(jobs, limit, direct), now, locked);
  }

  /** If one project gets a job while another waits in vain, it was not behind it, and now it is. */
  lemma {:induction false} ServedFirstThenBehind(jobs: seq<Job>, turns: Turns, nextLease: Lease, now: Time,
                                                 limit: nat, direct: nat,
                              locked: set<nat>, p: Project, q: Project)
    requires Waits(jobs, now, locked, p)
    requires var start := Start(jobs, turns, nextLease, now);
             var after := Dispatched(jobs, turns, nextLease, now, limit, direct, locked);
             Gets(start, after, q) && !Gets(start, after, p)
    ensures Turn(turns, q) <= Turn(turns, p)
    ensures var after := Dispatched(jobs, turns, nextLease, now, limit, direct, locked);
            Turn(after.turns, p) == Turn(turns, p) < Turn(after.turns, q)
  {
    var order := Ordered(jobs, turns, now, |jobs|);
    var start := Start(jobs, turns, nextLease, now);
    var slots := Slots(jobs, limit, direct);
    var after := Served(start, order, |order|, slots, now, locked);
    var k := TurnOf(jobs, turns, now, locked, p);
    ServedProgresses(start, order, |order|, slots, now, locked);
    assert TurnProgressed(start, after, p) && TurnProgressed(start, after, q);
    if |Served(start, order, k, slots, now, locked).selected| < slots {
      GetsOnTurn(start, order, k, slots, now, locked);
    }
    ServedMonotone(start, order, k, |order|, slots, now, locked);
    ServedProgresses(start, order, k, slots, now, locked);
    var m :| 0 <= m < |order[..k]| && order[..k][m] == q;
    assert Before(turns, order[m], order[k]);
  }
}
