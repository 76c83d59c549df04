/**
 One keyword run in the database, with any number of workers delivering it, stale-run
 recovery, and the scheduler's cancellations and timeouts interleaved.

 Every method of `RunTable` is one committed transaction. Finishing an attempt is two of
 them: the row is read again without a lock, and what was computed from that read is
 committed later. `Finish` is the two in one piece.
 */
module BukvarixQueue {
  import opened Wrappers
  import Fetch = BukvarixFetch

  type Time = int

  const STALE_AFTER: int := 600

  datatype Status = Queued | Running | Completed | Failed | Cancelled

  predicate Terminal(status: Status) {
    status in {Completed, Failed, Cancelled}
  }

  /** The run row with its result rows. `finishes` counts committed finish steps that wrote results. */
  datatype Row = Row(status: Status, startedAt: Option<Time>, failure: Option<string>,
                     queryCount: nat, resultCount: nat,
                     results: seq<Fetch.ResultRow>, finishes: nat)

  const NEW_RUN := Row(Queued, None, None, 0, 0, [], 0)

  // ---------- what each transaction does to the row ----------

  /** Claiming under the row lock: only a queued run is started, and only with a usable snapshot. */
  function Claimed(row: Row, snapshotOk: bool, now: Time): Row {
    if row.status != Queued then row
    else if !snapshotOk then row.(status := Failed, failure := Some("invalid_snapshot"))
    else row.(status := Running, startedAt := Some(now), failure := None)
  }

  /** The unique constraint on (run, phrase): the new rows clash with each other or with stored ones. */
  predicate Clashes(row: Row, rows: seq<Fetch.ResultRow>) {
    || (exists i, j :: 0 <= i < j < |rows| && rows[i].normalized == rows[j].normalized)
    || (exists i, j :: 0 <= i < |row.results| && 0 <= j < |rows| && row.results[i].normalized == rows[j].normalized)
  }

  /** Committing an outcome, whatever the status has become meanwhile. A clash aborts the transaction. */
  function Committed(row: Row, out: Fetch.Outcome): Row {
    match out
    case Rows(rows, queries) =>
      if Clashes(row, rows) then row
      else row.(status := Completed, queryCount := queries, resultCount := |rows|,
                results := row.results + rows, finishes := row.finishes + 1)
    case Failure(code, queries) =>
      row.(status := Failed, failure := Some(code), queryCount := queries)
  }

  /** Re-reading and committing in one piece. */
  function Finished(row: Row, out: Fetch.Outcome): Row {
    if row.status != Running then row else Committed(row, out)
  }

  predicate Stale(row: Row, now: Time) {
    row.status == Running && row.startedAt.Some? && row.startedAt.value < now - STALE_AFTER
  }

  function Recovered(row: Row, now: Time): Row {
    if Stale(row, now) then row.(status := Queued, startedAt := None, failure := None) else row
  }

  /** The scheduler cancels a run it has not started, and fails one whose lease ran out. */
  function Withdrawn(row: Row): Row {
    if row.status == Queued then row.(status := Cancelled) else row
  }

  function TimedOut(row: Row): Row {
    if row.status in {Queued, Running} then row.(status := Failed, failure := Some("worker_timeout")) else row
  }

  class RunTable {
    var row: Row

    constructor ()
      ensures row == NEW_RUN
    {
      row := NEW_RUN;
    }

    method Claim(snapshotOk: bool, now: Time) returns (started: bool)
      modifies this
      ensures row == Claimed(old(row), snapshotOk, now)
      ensures started <==> old(row).status == Queued && snapshotOk
      ensures started ==> row == old(row).(status := Running, startedAt := Some(now), failure := None)
      ensures !started && old(row).status == Queued ==>
                row == old(row).(status := Failed, failure := Some("invalid_snapshot"))
      ensures old(row).status != Queued ==> row == old(row)
    {
      if row.status != Queued {
        return false;
      }
      if !snapshotOk {
        row := row.(status := Failed, failure := Some("invalid_snapshot"));
        return false;
      }
      row := row.(status := Running, startedAt := Some(now), failure := None);
      return true;
    }

    /** The fetch between claim and finish, then the re-read and the commit as one transaction. */
    method Finish(seeds: seq<Fetch.Seed>, replies: seq<Fetch.Reply>)
      returns (out: Fetch.Outcome)
      requires |seeds| == |replies|
      modifies this
      ensures Fetch.Answers(seeds, replies, out)
      ensures row == Finished(old(row), out)
      ensures old(row).status != Running ==> row == old(row)
      ensures old(row).status == Running && out.Failure? ==>
                row == old(row).(status := Failed, failure := Some(out.code), queryCount := out.queries)
      ensures old(row).status == Running && out.Rows? && old(row).results == [] ==>
        && row.status == Completed && row.results == out.rows && row.resultCount == |out.rows|
        && row.queryCount == out.queries && row.startedAt == old(row).startedAt && row.failure == old(row).failure
    {
      out := Fetch.FetchLoop(seeds, replies);
      Fetch.RowsApart(seeds, replies, out);
      if row.status != Running {
        return;
      }
      match out
      case Rows(rows, queries) =>
        if !Clashes(row, rows) {
          row := row.(results := row.results + rows, finishes := row.finishes + 1);
          row := row.(status := Completed, queryCount := queries, resultCount := |rows|);
        }
      case Failure(code, queries) =>
        row := row.(status := Failed, failure := Some(code));
        row := row.(queryCount := queries);
    }

    /** Stale-run recovery; runs owned by the scheduler are left to it. */
    method Recover(owned: bool, now: Time) returns (recovered: bool)
      modifies this
      ensures row == if owned then old(row) else Recovered(old(row), now)
      ensures recovered <==> !owned && old(row).status == Running && old(row).startedAt.Some?
                             && old(row).startedAt.value < now - 600
      ensures row == if recovered then old(row).(status := Queued, startedAt := None, failure := None) else old(row)
    {
      recovered := !owned && row.status == Running && row.startedAt.Some? && row.startedAt.value < now - STALE_AFTER;
      if recovered {
        row := row.(status := Queued, startedAt := None, failure := None);
      }
    }
  }

  // ---------- interleavings ----------

  /** How long the queue lets a task run, and how long a lease lasts. */
  const TASK_TIMEOUT: int := 600

  /**
   A worker's task has started, has been admitted by the scheduler, fetches for a claimed run,
   or has re-read the row as running and is about to commit.
   */
  datatype Phase = Begun | Admitted | Fetching | Deciding(out: Fetch.Outcome)

  /** `since` is when the task started; a stalled task is not ended by its timeout. */
  datatype Worker = Worker(since: Time, stalled: bool, phase: Phase)

  /** `owned` runs have a scheduler job; `leaseUntil` is set once the job is started. */
  datatype State = State(now: Time, owned: bool, leaseUntil: Option<Time>, row: Row, workers: map<nat, Worker>)

  /** `Stall` is a stopped process or a clock that differs; everything else happens in any order. */
  datatype Action =
    | Tick(seconds: nat)
    | Begin(worker: nat)
    | Admit(worker: nat)
    | Claim(worker: nat, snapshotOk: bool)
    | Reread(worker: nat, out: Fetch.Outcome)
    | Commit(worker: nat)
    | Finish(worker: nat, out: Fetch.Outcome)
    | Die(worker: nat)
    | Stall(worker: nat)
    | Recover
    | Cancel
    | Expire

  function Init(owned: bool): State {
    State(0, owned, None, NEW_RUN, map[])
  }

  /** The worker exists and its task has not been ended. */
  predicate Alive(s: State, w: nat) {
    w in s.workers && (s.workers[w].stalled || s.now <= s.workers[w].since + TASK_TIMEOUT)
  }

  predicate InPhase(s: State, w: nat, phase: Phase) {
    Alive(s, w) && s.workers[w].phase == phase
  }

  predicate IsDeciding(s: State, w: nat) {
    Alive(s, w) && s.workers[w].phase.Deciding?
  }

  function Enter(s: State, w: nat, phase: Phase): map<nat, Worker>
    requires w in s.workers
  {
    s.workers[w := s.workers[w].(phase := phase)]
  }

  /** An action that cannot happen leaves the state as it is. */
  function Step(s: State, a: Action): State {
    match a
    case Tick(seconds) => s.(now := s.now + seconds)
    case Begin(w) => if w in s.workers then s else s.(workers := s.workers[w := Worker(s.now, false, Begun)])
    case Admit(w) =>
      if s.owned && s.leaseUntil == None && s.row.status == Queued && InPhase(s, w, Begun)
      then s.(leaseUntil := Some(s.now + TASK_TIMEOUT), workers := Enter(s, w, Admitted))
      else s
    case Claim(w, snapshotOk) =>
      if !InPhase(s, w, if s.owned then Admitted else Begun) then s
      else s.(row := Claimed(s.row, snapshotOk, s.now),
              workers := if s.row.status == Queued && snapshotOk then Enter(s, w, Fetching) else s.workers - {w})
    case Reread(w, out) =>
      if !InPhase(s, w, Fetching) then s
      else if s.row.status != Running then s.(workers := s.workers - {w})
      else s.(workers := Enter(s, w, Deciding(out)))
    case Commit(w) =>
      if !IsDeciding(s, w) then s
      else s.(row := Committed(s.row, s.workers[w].phase.out), workers := s.workers - {w})
    case Finish(w, out) =>
      if !InPhase(s, w, Fetching) then s
      else s.(row := Finished(s.row, out), workers := s.workers - {w})
    case Die(w) => s.(workers := s.workers - {w})
    case Stall(w) => if w in s.workers then s.(workers := s.workers[w := s.workers[w].(stalled := true)]) else s
    case Recover => if s.owned then s else s.(row := Recovered(s.row, s.now))
    case Cancel => if s.owned && s.leaseUntil == None then s.(row := Withdrawn(s.row)) else s
    case Expire =>
      if s.leaseUntil.Some? && s.leaseUntil.value < s.now then s.(row := TimedOut(s.row)) else s
  }

  function Exec(owned: bool, trace: seq<Action>): State {
    if |trace| == 0 then Init(owned) else Step(Exec(owned, trace[..|trace| - 1]), trace[|trace| - 1])
  }

  /** Once its lease has run out, a run that has not ended is failed as timed out; an ended one is left alone. */
  lemma {:induction false} ExpiredIsClosed(s: State)
    requires s.leaseUntil.Some? && s.leaseUntil.value < s.now
    ensures var after := Step(s, Expire).row;
            if s.row.status in {Queued, Running} then
              after == s.row.(status := Failed, failure := Some("worker_timeout"))
            else after == s.row
  {
  }

  lemma {:induction false} ExecNext(owned: bool, trace: seq<Action>, k: nat)
    requires k < |trace|
    ensures Exec(owned, trace[..k + 1]) == Step(Exec(owned, trace[..k]), trace[k])
  {
    assert trace[..k + 1][..k] == trace[..k];
  }

  /** Finishing in one piece is re-reading and committing with nothing in between. */
  lemma {:induction false} FinishIsRereadCommit(s: State, w: nat, out: Fetch.Outcome)
    requires InPhase(s, w, Fetching)
    ensures Step(s, Finish(w, out)) == Step(Step(s, Reread(w, out)), Commit(w))
  {
    if s.row.status == Running {
      assert Enter(s, w, Deciding(out)) - {w} == s.workers - {w};
    }
  }

  /** Recovery hands exactly the stale runs to the next worker, with a fresh start time. */
  lemma {:induction false} StaleRunStartsAgain(row: Row, now: Time)
    ensures var again := Claimed(Recovered(row, now), true, now);
            && (Stale(row, now) ==> again.status == Running && again.startedAt == Some(now) && !Stale(again, now))
            && (row.status == Running && !Stale(row, now) ==> again == row)
            && (Terminal(row.status) ==> again == row)
  {
  }

  // ---------- safety ----------

  /** Results exist only on a completed run, come from one finish step, and are counted right. */
  ghost predicate Sound(row: Row) {
    && row.finishes == (if row.status == Completed then 1 else 0)
    && (if row.status == Completed then |row.results| == row.resultCount else row.results == [])
    && (forall i, j :: 0 <= i < j < |row.results| ==> row.results[i].normalized != row.results[j].normalized)
  }

  /** A terminal run keeps its status and its results. */
  ghost predicate Settled(before: Row, after: Row) {
    Terminal(before.status) ==> after.status == before.status && after.results == before.results
                                && after.finishes == before.finishes
  }

  lemma {:induction false} SettledTwice(a: Row, b: Row, c: Row)
    requires Settled(a, b) && Settled(b, c)
    ensures Settled(a, c)
  {
  }

  /**
   The commit of worker `w` lands on a row that went terminal after the re-read: with rows the
   database accepts, or with a failure for a run that did not fail.
   */
  ghost predicate LateCommit(s: State, w: nat) {
    && IsDeciding(s, w) && Terminal(s.row.status)
    && match s.workers[w].phase.out
       case Rows(rows, _) => !Clashes(s.row, rows)
       case Failure(_, _) => s.row.status != Failed
  }

  /** A commit keeps the run sound and settled exactly when it is not a late one. */
  lemma {:induction false} CommitSafeIffNotLate(s: State, w: nat)
    requires Sound(s.row) && IsDeciding(s, w)
    ensures var after := Step(s, Commit(w)).row;
            Sound(after) && Settled(s.row, after) <==> !LateCommit(s, w)
  {
    var out := s.workers[w].phase.out;
    if out.Rows? && !Clashes(s.row, out.rows) && s.row.results == [] {
      assert s.row.results + out.rows == out.rows;
    }
  }

  /** Every step that is not a late commit keeps the run sound and settled. */
  lemma {:induction false} StepSafe(s: State, a: Action)
    requires Sound(s.row)
    ensures Sound(Step(s, a).row) && Settled(s.row, Step(s, a).row) <==> !(a.Commit? && LateCommit(s, a.worker))
  {
    if a.Commit? && IsDeciding(s, a.worker) {
      CommitSafeIffNotLate(s, a.worker);
    } else if a.Finish? && s.row.status == Running && a.out.Rows? {
      assert s.row.results + a.out.rows == a.out.rows;
    }
  }

  /** Action `k` is a commit that comes too late. */
  ghost predicate LateAt(owned: bool, trace: seq<Action>, k: nat)
    requires k < |trace|
  {
    trace[k].Commit? && LateCommit(Exec(owned, trace[..k]), trace[k].worker)
  }

  /** Action `k` leaves the run sound, and as it was if it was terminal. */
  ghost predicate SafeAt(owned: bool, trace: seq<Action>, k: nat)
    requires k < |trace|
  {
    var before, after := Exec(owned, trace[..k]).row, Exec(owned, trace[..k + 1]).row;
    Sound(after) && Settled(before, after)
  }

  /** No commit among the first `n` actions is late. */
  ghost predicate TimelyUntil(owned: bool, trace: seq<Action>, n: nat)
    requires n <= |trace|
  {
    forall k :: 0 <= k < n ==> !LateAt(owned, trace, k)
  }

  ghost predicate SafeUntil(owned: bool, trace: seq<Action>, n: nat)
    requires n <= |trace|
  {
    forall k :: 0 <= k < n ==> SafeAt(owned, trace, k)
  }

  lemma {:induction false} SafeIffNotLateAt(owned: bool, trace: seq<Action>, k: nat)
    requires k < |trace| && Sound(Exec(owned, trace[..k]).row)
    ensures SafeAt(owned, trace, k) <==> !LateAt(owned, trace, k)
  {
    ExecNext(owned, trace, k);
    StepSafe(Exec(owned, trace[..k]), trace[k]);
  }

  /** Every step of a run of the system is safe if and only if none of its commits is late. */
  lemma {:induction false} SafeIffTimely(owned: bool, trace: seq<Action>, n: nat)
    requires n <= |trace|
    ensures SafeUntil(owned, trace, n) <==> TimelyUntil(owned, trace, n)
    ensures TimelyUntil(owned, trace, n) ==> Sound(Exec(owned, trace[..n]).row)
    decreases n
  {
    if n > 0 {
      SafeIffTimely(owned, trace, n - 1);
      if TimelyUntil(owned, trace, n - 1) {
        SafeIffNotLateAt(owned, trace, n - 1);
        assert TimelyUntil(owned, trace, n) <==> !LateAt(owned, trace, n - 1);
        assert SafeUntil(owned, trace, n) <==> SafeAt(owned, trace, n - 1);
      }
    }
  }

  /** Through safe steps a terminal run stays as it is. */
  lemma {:induction false} TerminalForever(owned: bool, trace: seq<Action>, n: nat, k: nat)
    requires n <= k <= |trace| && SafeUntil(owned, trace, k)
    ensures Settled(Exec(owned, trace[..n]).row, Exec(owned, trace[..k]).row)
    decreases k
  {
    if n < k {
      TerminalForever(owned, trace, n, k - 1);
      assert SafeAt(owned, trace, k - 1);
      SettledTwice(Exec(owned, trace[..n]).row, Exec(owned, trace[..k - 1]).row, Exec(owned, trace[..k]).row);
    }
  }

  /** With the finish in one piece, every interleaving is safe, stalled workers included. */
  lemma {:induction false} AtomicFinishIsSafe(owned: bool, trace: seq<Action>)
    requires forall k :: 0 <= k < |trace| ==> !trace[k].Commit?
    ensures SafeUntil(owned, trace, |trace|)
  {
    SafeIffTimely(owned, trace, |trace|);
  }

  // ---------- the timeout protects the unlocked re-read ----------

  predicate Working(phase: Phase) {
    phase.Fetching? || phase.Deciding?
  }

  /** A working task that is still alive belongs to the running attempt, which began after it did. */
  ghost predicate Current(s: State, w: nat)
    requires w in s.workers
  {
    Alive(s, w) && Working(s.workers[w].phase) ==>
      s.row.status == Running && s.row.startedAt.Some? && s.workers[w].since <= s.row.startedAt.value
  }

  /** Only one task at a time is alive and working. */
  ghost predicate OneAtWork(s: State, v: nat, w: nat)
    requires v in s.workers && w in s.workers
  {
    !(Alive(s, v) && Working(s.workers[v].phase) && Alive(s, w) && Working(s.workers[w].phase))
  }

  /** An admitted task's lease lasts at least as long as the task. */
  ghost predicate LeaseCovers(s: State, w: nat)
    requires w in s.workers
  {
    s.owned && (s.workers[w].phase == Admitted || Working(s.workers[w].phase)) ==>
      s.leaseUntil.Some? && s.workers[w].since + TASK_TIMEOUT <= s.leaseUntil.value
  }

  ghost predicate Prompt(s: State) {
    && (forall w :: w in s.workers ==>
          !s.workers[w].stalled && s.workers[w].since <= s.now && Current(s, w) && LeaseCovers(s, w))
    && (forall v, w :: v in s.workers && w in s.workers && v != w ==> OneAtWork(s, v, w))
  }

  lemma {:induction false} PromptIsTimely(s: State, w: nat)
    requires Prompt(s)
    ensures !LateCommit(s, w)
  {
    if IsDeciding(s, w) {
      assert Current(s, w);
    }
  }

  lemma {:induction false} ClaimStaysPrompt(s: State, w: nat, snapshotOk: bool)
    requires Prompt(s)
    ensures Prompt(Step(s, Claim(w, snapshotOk)))
  {
    var s' := Step(s, Claim(w, snapshotOk));
    forall v | v in s'.workers ensures Current(s', v) && LeaseCovers(s', v) {
      assert Current(s, v) && LeaseCovers(s, v);
    }
    forall u, v | u in s'.workers && v in s'.workers && u != v ensures OneAtWork(s', u, v) {
      assert Current(s, u) && Current(s, v) && OneAtWork(s, u, v);
    }
  }

  /** Steps that leave every remaining task in the phase it was, or move it on within its work. */
  lemma {:induction false} WorkersStayPrompt(s: State, s': State)
    requires Prompt(s) && s'.row == s.row && s'.owned == s.owned && s'.leaseUntil == s.leaseUntil && s.now <= s'.now
    requires forall w :: w in s'.workers ==>
               w in s.workers && s'.workers[w].(phase := s.workers[w].phase) == s.workers[w]
               && (s'.workers[w].phase == s.workers[w].phase
                   || (Working(s.workers[w].phase) && Working(s'.workers[w].phase)))
    ensures Prompt(s')
  {
    forall w | w in s'.workers ensures Current(s', w) && LeaseCovers(s', w) {
      assert Current(s, w) && LeaseCovers(s, w);
    }
    forall v, w | v in s'.workers && w in s'.workers && v != w ensures OneAtWork(s', v, w) {
      assert OneAtWork(s, v, w);
    }
  }

  /** The worker that commits was the only one at work. */
  lemma {:induction false} CommitStaysPrompt(s: State, w: nat, row: Row)
    requires Prompt(s) && Alive(s, w) && Working(s.workers[w].phase)
    ensures Prompt(s.(row := row, workers := s.workers - {w}))
  {
    var s' := s.(row := row, workers := s.workers - {w});
    forall v | v in s'.workers ensures Current(s', v) && LeaseCovers(s', v) {
      assert OneAtWork(s, v, w) && LeaseCovers(s, v);
    }
    forall u, v | u in s'.workers && v in s'.workers && u != v ensures OneAtWork(s', u, v) {
      assert OneAtWork(s, u, v);
    }
  }

  /** Whoever changes the row from outside finds no live task at work on it. */
  lemma {:induction false} OutsideStaysPrompt(s: State, row: Row)
    requires Prompt(s) && forall w :: w in s.workers ==> !(Alive(s, w) && Working(s.workers[w].phase))
    ensures Prompt(s.(row := row))
  {
    var s' := s.(row := row);
    forall w | w in s'.workers ensures Current(s', w) && LeaseCovers(s', w) {
      assert LeaseCovers(s, w);
    }
    forall v, w | v in s'.workers && w in s'.workers && v != w ensures OneAtWork(s', v, w) {
      assert OneAtWork(s, v, w);
    }
  }

  lemma {:induction false} RecoverStaysPrompt(s: State)
    requires Prompt(s)
    ensures Prompt(Step(s, Recover))
  {
    if !s.owned && Stale(s.row, s.now) {
      forall w | w in s.workers ensures !(Alive(s, w) && Working(s.workers[w].phase)) {
        assert Current(s, w);
      }
      OutsideStaysPrompt(s, Recovered(s.row, s.now));
    }
  }

  lemma {:induction false} CancelStaysPrompt(s: State)
    requires Prompt(s)
    ensures Prompt(Step(s, Cancel))
  {
    if s.owned && s.leaseUntil == None {
      forall w | w in s.workers ensures !(Alive(s, w) && Working(s.workers[w].phase)) {
        assert LeaseCovers(s, w);
      }
      OutsideStaysPrompt(s, Withdrawn(s.row));
    }
  }

  lemma {:induction false} ExpireStaysPrompt(s: State)
    requires Prompt(s) && (s.leaseUntil.Some? ==> s.owned)
    ensures Prompt(Step(s, Expire))
  {
    if s.leaseUntil.Some? && s.leaseUntil.value < s.now {
      forall w | w in s.workers ensures !(Alive(s, w) && Working(s.workers[w].phase)) {
        assert LeaseCovers(s, w);
      }
      OutsideStaysPrompt(s, TimedOut(s.row));
    }
  }

  lemma {:induction false} BeginStaysPrompt(s: State, w: nat)
    requires Prompt(s)
    ensures Prompt(Step(s, Begin(w)))
  {
    var s' := Step(s, Begin(w));
    forall v | v in s.workers ensures Current(s', v) && LeaseCovers(s', v) {
      assert Current(s, v) && LeaseCovers(s, v);
    }
    forall u, v | u in s'.workers && v in s'.workers && u != v ensures OneAtWork(s', u, v) {
      if u in s.workers && v in s.workers {
        assert OneAtWork(s, u, v);
      }
    }
  }

  lemma {:induction false} AdmitStaysPrompt(s: State, w: nat)
    requires Prompt(s)
    ensures Prompt(Step(s, Admit(w)))
  {
    var s' := Step(s, Admit(w));
    forall v | v in s'.workers ensures Current(s', v) && LeaseCovers(s', v) {
      assert Current(s, v) && LeaseCovers(s, v);
    }
    forall u, v | u in s'.workers && v in s'.workers && u != v ensures OneAtWork(s', u, v) {
      assert OneAtWork(s, u, v);
    }
  }

  lemma {:induction false} StepStaysPrompt(s: State, a: Action)
    requires Prompt(s) && !a.Stall? && (s.leaseUntil.Some? ==> s.owned)
    ensures Prompt(Step(s, a)) && (Step(s, a).leaseUntil.Some? ==> s.owned)
  {
    match a
    case Begin(w) => BeginStaysPrompt(s, w);
    case Admit(w) => AdmitStaysPrompt(s, w);
    case Claim(w, snapshotOk) => ClaimStaysPrompt(s, w, snapshotOk);
    case Commit(w) => if IsDeciding(s, w) { CommitStaysPrompt(s, w, Step(s, a).row); }
    case Finish(w, _) => if InPhase(s, w, Fetching) { CommitStaysPrompt(s, w, Step(s, a).row); }
    case Recover => RecoverStaysPrompt(s);
    case Cancel => CancelStaysPrompt(s);
    case Expire => ExpireStaysPrompt(s);
    case _ => WorkersStayPrompt(s, Step(s, a));
  }

  lemma {:induction false} PromptUntil(owned: bool, trace: seq<Action>, n: nat)
    requires n <= |trace| && forall k :: 0 <= k < n ==> !trace[k].Stall?
    ensures Prompt(Exec(owned, trace[..n])) && TimelyUntil(owned, trace, n)
    ensures Exec(owned, trace[..n]).owned == owned && (Exec(owned, trace[..n]).leaseUntil.Some? ==> owned)
    decreases n
  {
    if n > 0 {
      PromptUntil(owned, trace, n - 1);
      ExecNext(owned, trace, n - 1);
      var s := Exec(owned, trace[..n - 1]);
      StepStaysPrompt(s, trace[n - 1]);
      if trace[n - 1].Commit? {
        PromptIsTimely(s, trace[n - 1].worker);
      }
    }
  }

  /**
   As long as the timeout ends every task in time, the re-read needs no lock: whatever the
   interleaving, every step is safe.
   */
  lemma {:induction false} TimeoutMakesRereadSafe(owned: bool, trace: seq<Action>)
    requires forall k :: 0 <= k < |trace| ==> !trace[k].Stall?
    ensures SafeUntil(owned, trace, |trace|)
  {
    PromptUntil(owned, trace, |trace|);
    SafeIffTimely(owned, trace, |trace|);
  }

  // ---------- cancellation ----------

  /** A run that waits for the scheduler, or was cancelled, has no admitted or working task. */
  ghost predicate Unstarted(s: State) {
    s.owned && (s.leaseUntil == None || s.row.status == Cancelled) ==>
      forall w :: w in s.workers ==> s.workers[w].phase == Begun
  }

  ghost predicate CancelInv(s: State) {
    && Unstarted(s)
    && (s.row.status == Cancelled ==> s.owned && s.leaseUntil == None)
    && (s.leaseUntil.Some? ==> s.owned)
  }

  lemma {:induction false} StepKeepsCancelInv(s: State, a: Action)
    requires CancelInv(s)
    ensures CancelInv(Step(s, a)) && Step(s, a).owned == s.owned
    ensures s.row.status == Cancelled ==> Step(s, a).row == s.row
  {
  }

  lemma {:induction false} CancelInvAlways(owned: bool, trace: seq<Action>)
    ensures CancelInv(Exec(owned, trace))
    decreases |trace|
  {
    if |trace| != 0 {
      CancelInvAlways(owned, trace[..|trace| - 1]);
      StepKeepsCancelInv(Exec(owned, trace[..|trace| - 1]), trace[|trace| - 1]);
    }
  }

  /** A cancelled run stays as it is in every interleaving, even with stalled workers. */
  lemma {:induction false} CancelledForever(owned: bool, trace: seq<Action>, n: nat, k: nat)
    requires n <= k <= |trace| && Exec(owned, trace[..n]).row.status == Cancelled
    ensures Exec(owned, trace[..k]).row == Exec(owned, trace[..n]).row
    decreases k
  {
    if n < k {
      CancelledForever(owned, trace, n, k - 1);
      CancelInvAlways(owned, trace[..k - 1]);
      ExecNext(owned, trace, k - 1);
      StepKeepsCancelInv(Exec(owned, trace[..k - 1]), trace[k - 1]);
    }
  }

  // ---------- what a stalled worker can do ----------

  lemma {:induction false} Then(owned: bool, trace: seq<Action>, s: State, a: Action)
    returns (trace': seq<Action>, s': State)
    requires Exec(owned, trace) == s
    ensures trace' == trace + [a] && s' == Step(s, a) && Exec(owned, trace') == s'
  {
    trace' := trace + [a];
    s' := Step(s, a);
    assert trace'[..|trace|] == trace;
  }

  /** A task ready to claim the run. */
  lemma {:induction false} ReadyTask(owned: bool) returns (trace: seq<Action>, s: State)
    ensures Exec(owned, trace) == s
         == State(0, owned, if owned then Some(TASK_TIMEOUT) else None, NEW_RUN,
                  map[0 := Worker(0, false, if owned then Admitted else Begun)])
  {
    trace, s := Then(owned, [], Init(owned), Begin(0));
    assert s.workers == map[0 := Worker(0, false, Begun)];
    if owned {
      trace, s := Then(owned, trace, s, Admit(0));
      assert s.workers == map[0 := Worker(0, false, Admitted)];
    }
  }

  /** A claim by a task that then stalls. */
  lemma {:induction false} StalledClaim(owned: bool) returns (trace: seq<Action>, s: State)
    ensures Exec(owned, trace) == s
         == State(0, owned, if owned then Some(TASK_TIMEOUT) else None, Claimed(NEW_RUN, true, 0),
                  map[0 := Worker(0, true, Fetching)])
  {
    trace, s := ReadyTask(owned);
    trace, s := Then(owned, trace, s, Claim(0, true));
    assert s.workers == map[0 := Worker(0, false, Fetching)];
    trace, s := Then(owned, trace, s, Stall(0));
  }

  /** Committing one row whose phrase is not stored yet. */
  lemma {:induction false} CommitOne(row: Row, r: Fetch.ResultRow)
    requires forall x :: x in row.results ==> x.normalized != r.normalized
    ensures Committed(row, Fetch.Rows([r], 1))
         == row.(status := Completed, queryCount := 1, resultCount := 1,
                 results := row.results + [r], finishes := row.finishes + 1)
  {
    assert !Clashes(row, [r]);
  }

  /** A run claimed, gone stale, recovered and claimed again. */
  lemma {:induction false} TwoFetching() returns (trace: seq<Action>, s: State)
    ensures Exec(false, trace) == s
         == State(601, false, None, Claimed(NEW_RUN, true, 601),
                  map[0 := Worker(0, true, Fetching), 1 := Worker(601, false, Fetching)])
  {
    trace, s := StalledClaim(false);
    trace, s := Then(false, trace, s, Tick(601));
    trace, s := Then(false, trace, s, Recover);
    trace, s := Then(false, trace, s, Begin(1));
    trace, s := Then(false, trace, s, Claim(1, true));
  }

  /** Both tasks re-read the run as running. */
  lemma {:induction false} TwoDeciding(a: Fetch.ResultRow, b: Fetch.ResultRow) returns (trace: seq<Action>, s: State)
    ensures Exec(false, trace) == s
         == State(601, false, None, Claimed(NEW_RUN, true, 601),
                  map[0 := Worker(0, true, Deciding(Fetch.Rows([a], 1))),
                      1 := Worker(601, false, Deciding(Fetch.Rows([b], 1)))])
  {
    trace, s := TwoFetching();
    trace, s := Then(false, trace, s, Reread(0, Fetch.Rows([a], 1)));
    trace, s := Then(false, trace, s, Reread(1, Fetch.Rows([b], 1)));
  }

  /**
   A stalled task and its successor can both re-read the run as running and both commit: the
   rows of two finishes are stored for one run, and the count is wrong.
   */
  lemma {:induction false} StalledWorkerWritesTwice(a: Fetch.ResultRow, b: Fetch.ResultRow)
    returns (trace: seq<Action>)
    requires a.normalized != b.normalized
    ensures var row := Exec(false, trace).row;
            row.status == Completed && row.results == [a, b] && row.resultCount == 1 && row.finishes == 2
  {
    var s: State;
    trace, s := TwoDeciding(a, b);
    CommitOne(s.row, a);
    trace, s := Then(false, trace, s, Commit(0));
    CommitOne(s.row, b);
    trace, s := Then(false, trace, s, Commit(1));
  }

  /** And a run the scheduler has failed with a worker timeout can still be completed. */
  lemma {:induction false} StalledWorkerRevives(rows: seq<Fetch.ResultRow>) returns (trace: seq<Action>, n: nat)
    requires !Clashes(NEW_RUN, rows)
    ensures n <= |trace| && Exec(true, trace[..n]).row.status == Failed && Exec(true, trace).row.status == Completed
  {
    var s: State;
    trace, s := StalledClaim(true);
    trace, s := Then(true, trace, s, Reread(0, Fetch.Rows(rows, 1)));
    trace, s := Then(true, trace, s, Tick(601));
    trace, s := Then(true, trace, s, Expire);
    n := |trace|;
    var early := trace;
    assert s.row.failure == Some("worker_timeout") && Exec(true, early).row.status == Failed;
    trace, s := Then(true, trace, s, Commit(0));
    assert trace[..n] == early;
  }
}
