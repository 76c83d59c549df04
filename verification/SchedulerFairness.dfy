/**
 Fairness between projects over whole runs: while a project waits, no other project is served
 twice before it, so it waits for at most as many dispatches as there are other projects.
 Dispatch reads only the turns of the projects that are due, which this does not rely on.
 */
module SchedulerFairness {
  import opened Wrappers
  import Sets
  import opened SchedulerJobs
  import opened SchedulerDispatch
  import opened Scheduler

  /** Action `k` is a dispatch while the project has a free job to hand out and none in progress. */
  ghost predicate WaitsAt(trace: seq<Action>, k: nat, p: Project) {
    k < |trace| && trace[k].Dispatch?
    && var s := Exec(trace[..k]); Waits(s.jobs, s.now, trace[k].locked, p)
  }

  /** Action `k` is a dispatch with a slot to give away. */
  ghost predicate HasSlotAt(trace: seq<Action>, k: nat) {
    && k < |trace| && trace[k].Dispatch? && trace[k].limit > 0
    && |ActiveJobs(Exec(trace[..k]).jobs)| + trace[k].direct < MAX_CONCURRENCY
  }

  ghost predicate GetsIn(s: State, a: Action, p: Project) {
    a.Dispatch?
    && Gets(Start(s.jobs, s.turns, s.nextLease, s.now), RoundOf(s, a.limit, a.direct, a.locked), p)
  }

  /** Action `k` is a dispatch that gives the project a job. */
  ghost predicate GetsAt(trace: seq<Action>, k: nat, p: Project) {
    k < |trace| && GetsIn(Exec(trace[..k]), trace[k], p)
  }

  /** The project gets no job in actions `i` to `j`. */
  ghost predicate PassedOver(trace: seq<Action>, i: nat, j: nat, p: Project) {
    forall k :: i <= k <= j ==> !GetsAt(trace, k, p)
  }

  /** Turns never go back, and move only for a project that gets a job. */
  lemma {:induction false} StepTurns(s: State, a: Action, p: Project)
    ensures Turn(s.turns, p) <= Turn(Step(s, a).turns, p)
    ensures !GetsIn(s, a, p) ==> Turn(Step(s, a).turns, p) == Turn(s.turns, p)
  {
    if a.Dispatch? {
      var order := Ordered(s.jobs, s.turns, s.now, |s.jobs|);
      var start := Start(s.jobs, s.turns, s.nextLease, s.now);
      var after := RoundOf(s, a.limit, a.direct, a.locked);
      ServedProgresses(start, order, |order|, Slots(s.jobs, a.limit, a.direct), s.now, a.locked);
      assert order[..|order|] == order;
      assert TurnProgressed(start, after, p);
      if GetsIn(s, a, p) {
        assert p in order;
      }
    }
  }

  /** The project's turn before action `k`. */
  ghost function TurnAt(trace: seq<Action>, k: nat, p: Project): int
    requires k <= |trace|
  {
    Turn(Exec(trace[..k]).turns, p)
  }

  lemma {:induction false} TurnNext(trace: seq<Action>, k: nat, p: Project)
    requires k < |trace|
    ensures TurnAt(trace, k, p) <= TurnAt(trace, k + 1, p)
    ensures !GetsAt(trace, k, p) ==> TurnAt(trace, k + 1, p) == TurnAt(trace, k, p)
  {
    ExecNext(trace, k);
    StepTurns(Exec(trace[..k]), trace[k], p);
  }

  lemma {:induction false} TurnsGrow(trace: seq<Action>, i: nat, j: nat, p: Project)
    requires i <= j <= |trace|
    ensures TurnAt(trace, i, p) <= TurnAt(trace, j, p)
    decreases j
  {
    if i < j {
      TurnsGrow(trace, i, j - 1, p);
      TurnNext(trace, j - 1, p);
    }
  }

  /** The turn of a project passed over stays. */
  lemma {:induction false} TurnStays(trace: seq<Action>, i: nat, j: nat, p: Project)
    requires i <= j <= |trace| && PassedOver(trace, i, j, p)
    ensures TurnAt(trace, i, p) == TurnAt(trace, j, p)
    decreases j
  {
    if i < j {
      TurnStays(trace, i, j - 1, p);
      TurnNext(trace, j - 1, p);
    }
  }

  /** What a dispatch that passes `p` over in favour of `q` says about their turns. */
  lemma {:induction false} PassedOverFor(trace: seq<Action>, k: nat, p: Project, q: Project)
    requires WaitsAt(trace, k, p) && GetsAt(trace, k, q) && !GetsAt(trace, k, p)
    ensures TurnAt(trace, k, q) <= TurnAt(trace, k, p)
    ensures TurnAt(trace, k + 1, p) < TurnAt(trace, k + 1, q)
  {
    var s, a := Exec(trace[..k]), trace[k];
    ExecNext(trace, k);
    ServedFirstThenBehind(s.jobs, s.turns, s.nextLease, s.now, a.limit, a.direct, a.locked, p, q);
  }

  /** While `p` is passed over, no other project gets a job in two dispatches at which `p` waits. */
  lemma {:induction false} BypassedAtMostOnce(trace: seq<Action>, i: nat, j: nat, p: Project, q: Project)
    requires i < j && WaitsAt(trace, i, p) && WaitsAt(trace, j, p) && PassedOver(trace, i, j, p)
    ensures !(GetsAt(trace, i, q) && GetsAt(trace, j, q))
  {
    if GetsAt(trace, i, q) && GetsAt(trace, j, q) {
      PassedOverFor(trace, i, p, q);
      PassedOverFor(trace, j, p, q);
      TurnStays(trace, i + 1, j, p);
      TurnsGrow(trace, i + 1, j, q);
    }
  }

  // ---------- how long a project can wait ----------

  ghost function Projects(jobs: seq<Job>): set<Project> {
    set i | 0 <= i < |jobs| :: jobs[i].project
  }

  lemma {:induction false} StepProjects(s: State, a: Action)
    ensures |s.jobs| <= |Step(s, a).jobs|
    ensures forall i :: 0 <= i < |s.jobs| ==> Step(s, a).jobs[i].project == s.jobs[i].project
  {
    if a.Dispatch? {
      var order := Ordered(s.jobs, s.turns, s.now, |s.jobs|);
      var start := Start(s.jobs, s.turns, s.nextLease, s.now);
      ServedProgresses(start, order, |order|, Slots(s.jobs, a.limit, a.direct), s.now, a.locked);
      forall i | 0 <= i < |s.jobs| ensures Step(s, a).jobs[i].project == s.jobs[i].project {
        assert JobProgressed(start, RoundOf(s, a.limit, a.direct, a.locked), i);
      }
    } else if a.Act? && a.job < |s.jobs| {
      ActedProject(s.jobs[a.job], a.op, s.now);
    } else if a.Recover? {
      forall i | 0 <= i < |s.jobs| ensures Step(s, a).jobs[i].project == s.jobs[i].project {
        RecoveredProject(s.jobs[i], s.now);
      }
    }
  }

  lemma {:induction false} ActedProject(job: Job, op: Op, now: Time)
    ensures Acted(job, op, now).project == job.project
  {
  }

  lemma {:induction false} RecoveredProject(job: Job, now: Time)
    ensures Recovery(now)(job).project == job.project
  {
  }

  lemma {:induction false} ProjectsGrow(trace: seq<Action>, k: nat)
    requires k <= |trace|
    ensures Projects(Exec(trace[..k]).jobs) <= Projects(Exec(trace).jobs)
    decreases |trace| - k
  {
    if k == |trace| {
      assert trace[..k] == trace;
    } else {
      ExecNext(trace, k);
      var s, next := Exec(trace[..k]), Exec(trace[..k + 1]);
      StepProjects(s, trace[k]);
      forall p | p in Projects(s.jobs) ensures p in Projects(next.jobs) {
        var i :| 0 <= i < |s.jobs| && s.jobs[i].project == p;
        assert next.jobs[i].project == p;
      }
      ProjectsGrow(trace, k + 1);
    }
  }

  /** A dispatch with a slot serves someone when `p` waits. */
  lemma {:induction false} SomeoneServed(trace: seq<Action>, k: nat, p: Project) returns (q: Project)
    requires WaitsAt(trace, k, p) && HasSlotAt(trace, k) && !GetsAt(trace, k, p)
    ensures q != p && GetsAt(trace, k, q) && q in Projects(Exec(trace).jobs)
  {
    var s, a := Exec(trace[..k]), trace[k];
    var order := Ordered(s.jobs, s.turns, s.now, |s.jobs|);
    var start := Start(s.jobs, s.turns, s.nextLease, s.now);
    var slots := Slots(s.jobs, a.limit, a.direct);
    WorkConserving(s.jobs, s.turns, s.nextLease, s.now, a.limit, a.direct, a.locked, p);
    q := SelectedGot(start, order, |order|, slots, s.now, a.locked);
    ServedProgresses(start, order, |order|, slots, s.now, a.locked);
    assert order[..|order|] == order;
    OrderedSorted(s.jobs, s.turns, s.now, |s.jobs|);
    assert HasDue(s.jobs, s.now, |s.jobs|, q);
    ProjectsGrow(trace, k);
    assert q in Projects(s.jobs);
  }

  lemma {:induction false} SelectedGot(start: Round, order: seq<Project>, k: nat, slots: nat, now: Time,
                                      locked: set<nat>)
    returns (q: Project)
    requires k <= |order| && start.selected == [] && |Served(start, order, k, slots, now, locked).selected| > 0
    ensures Gets(start, Served(start, order, k, slots, now, locked), q)
  {
    var r := Served(start, order, k - 1, slots, now, locked);
    if |r.selected| > 0 {
      q := SelectedGot(start, order, k - 1, slots, now, locked);
      ServedMonotone(start, order, k - 1, k, slots, now, locked);
    } else {
      q := order[k - 1];
      ServedMonotone(start, order, 0, k - 1, slots, now, locked);
    }
  }

  /** Dispatches, in order, at each of which `p` waits and a slot is free, all passing `p` over. */
  ghost predicate WaitsInVain(trace: seq<Action>, rounds: seq<nat>, p: Project) {
    && (forall m :: 0 <= m < |rounds| ==> WaitsAt(trace, rounds[m], p) && HasSlotAt(trace, rounds[m]))
    && (forall m, n :: 0 <= m < n < |rounds| ==> rounds[m] < rounds[n])
    && (|rounds| > 0 ==> PassedOver(trace, rounds[0], rounds[|rounds| - 1], p))
  }

  /** Round `n` serves project `q` instead of `p`. */
  ghost predicate ServedInstead(trace: seq<Action>, rounds: seq<nat>, n: nat, p: Project, q: Project)
    requires n < |rounds|
  {
    GetsAt(trace, rounds[n], q) && q in Projects(Exec(trace).jobs) - {p}
  }

  lemma {:induction false} PassedOverIn(trace: seq<Action>, rounds: seq<nat>, m: nat, n: nat, p: Project)
    requires WaitsInVain(trace, rounds, p) && m <= n < |rounds|
    ensures rounds[m] <= rounds[n] && PassedOver(trace, rounds[m], rounds[n], p)
  {
    assert rounds[0] <= rounds[m] && rounds[n] <= rounds[|rounds| - 1];
  }

  lemma {:induction false} SomeoneServedInstead(trace: seq<Action>, rounds: seq<nat>, n: nat, p: Project)
    requires n < |rounds| && WaitsInVain(trace, rounds, p)
    ensures exists q :: ServedInstead(trace, rounds, n, p, q)
  {
    PassedOverIn(trace, rounds, n, n, p);
    var q := SomeoneServed(trace, rounds[n], p);
    assert ServedInstead(trace, rounds, n, p, q);
  }

  /** A project served in round `n`. */
  ghost function Other(trace: seq<Action>, rounds: seq<nat>, p: Project, n: nat): (q: Project)
    requires n < |rounds| && WaitsInVain(trace, rounds, p)
    ensures ServedInstead(trace, rounds, n, p, q)
  {
    SomeoneServedInstead(trace, rounds, n, p);
    var q :| ServedInstead(trace, rounds, n, p, q);
    q
  }

  /** Different rounds serve different projects. */
  lemma {:induction false} ServedApart(trace: seq<Action>, rounds: seq<nat>, m: nat, n: nat, p: Project,
                                       q: Project, r: Project)
    requires m < n < |rounds| && WaitsInVain(trace, rounds, p)
    requires ServedInstead(trace, rounds, m, p, q) && ServedInstead(trace, rounds, n, p, r)
    ensures q != r
  {
    PassedOverIn(trace, rounds, m, n, p);
    BypassedAtMostOnce(trace, rounds[m], rounds[n], p, q);
  }

  /** A waiting project is passed over at most once for every other project. */
  lemma {:induction false} BoundedWaiting(trace: seq<Action>, rounds: seq<nat>, p: Project)
    requires WaitsInVain(trace, rounds, p)
    ensures |rounds| <= |Projects(Exec(trace).jobs) - {p}|
  {
    var others := seq(|rounds|, n requires 0 <= n < |rounds| => Other(trace, rounds, p, n));
    forall m, n | 0 <= m < n < |rounds| ensures others[m] != others[n] {
      ServedApart(trace, rounds, m, n, p, others[m], others[n]);
    }
    Sets.DistinctFit(others, Projects(Exec(trace).jobs) - {p});
  }
}
