/**
 The AI spend guard: reservations made under a per-tenant advisory lock, settled by worker
 tasks under duplicate delivery or by the request that made them, with one advancing clock.

 A reservation is a transaction of four steps (begin, take the lock, check the sums,
 insert and commit). The row carries the time its transaction began, which is what
 `created_at` records, so between stamp and check up to `lag` may pass.
 Costs are real numbers; the price of a reply's usage is an input.
 */
module AiSpend {
  import opened Wrappers

  type Tenant = nat

  type Amount = x: real | x >= 0.0

  const DAY: real := 86400.0
  const MONTH: real := 30.0 * DAY

  datatype Status = Reserved | Running | PendingApproval | Completed | Approved | Rejected | Failed

  /** Who settles a reservation: a queued worker task, or the request itself. */
  datatype Owner = ByTask | ByRequest

  /**
   One row of the run table. `checkedAt` is when the sums were read for it, `calls` how often
   it has reached the provider; both only record what happened.
   */
  datatype Run = Run(tenant: Tenant, owner: Owner, stamp: real, estimate: Amount, maxCost: Amount,
                     cost: Amount, status: Status, error: Option<string>,
                     checkedAt: real, calls: nat)

  /**
   `useLock` is false where the database has no advisory locks; `floored` says that no reply
   to a request is priced below its estimate; `hold` is the longest time a request may take
   from its reservation to its settlement.
   */
  datatype Config = Config(dailyLimit: Amount, monthlyLimit: Amount, disabled: bool,
                           lockKey: Tenant -> int, useLock: bool, floored: bool, lag: Amount, hold: Amount)

  // ---------- the budget check ----------

  datatype Budget = Granted | AiDisabled | DailyExceeded | MonthlyExceeded

  /** Recorded cost of a tenant's runs created at `from` or later. */
  function SumCost(runs: seq<Run>, tenant: Tenant, from: real): real {
    if |runs| == 0 then 0.0
    else
      var r := runs[|runs| - 1];
      SumCost(runs[..|runs| - 1], tenant, from)
      + (if r.tenant == tenant && from <= r.stamp then r.cost else 0.0)
  }

  function EnforceAiBudget(cfg: Config, runs: seq<Run>, tenant: Tenant, estimate: real, now: real): Budget {
    if cfg.disabled then AiDisabled
    else if SumCost(runs, tenant, now - DAY) + estimate > cfg.dailyLimit then DailyExceeded
    else if SumCost(runs, tenant, now - MONTH) + estimate > cfg.monthlyLimit then MonthlyExceeded
    else Granted
  }

  // ---------- how a worker settles a run ----------

  /** How the attempt ended. `priced` is the price of the reported usage, absent when unknown. */
  datatype Outcome =
    | ScopeViolation
    | ProviderFailed(code: string, priced: Option<Amount>)
    | InvalidOutput(priced: Option<Amount>)
    | Unexpected
    | Proposal(priced: Option<Amount>)

  datatype Settlement = Settlement(status: Status, cost: Amount, error: Option<string>)

  function Max(a: Amount, b: Amount): Amount {
    if a >= b then a else b
  }

  /** The charge for an attempt: never below the reservation. */
  function Charge(estimate: Amount, priced: Option<Amount>): (c: Amount)
    ensures estimate <= c && (priced.Some? ==> priced.value <= c)
    ensures c == estimate || priced == Some(c)
  {
    Max(estimate, priced.GetOr(estimate))
  }

  function Settle(estimate: Amount, maxCost: Amount, outcome: Outcome): Settlement {
    match outcome
    case ScopeViolation => Settlement(Failed, estimate, Some("tenant_scope_violation"))
    case ProviderFailed(code, priced) => Settlement(Failed, Charge(estimate, priced), Some(code))
    case InvalidOutput(priced) => Settlement(Failed, Charge(estimate, priced), Some("invalid_ai_output"))
    case Unexpected => Settlement(Failed, estimate, Some("provider_execution_failed"))
    case Proposal(priced) =>
      var cost := Charge(estimate, priced);
      if cost > maxCost then Settlement(Failed, cost, Some("actual_cost_exceeded_limit"))
      else Settlement(PendingApproval, cost, if priced.None? then Some("usage_unavailable") else None)
  }

  /** The price that became known in the attempt. */
  function PriceOf(outcome: Outcome): Option<Amount> {
    match outcome
    case ProviderFailed(_, priced) => priced
    case InvalidOutput(priced) => priced
    case Proposal(priced) => priced
    case _ => None
  }

  /** The cost is the larger of the estimate and the price that became known. */
  ghost predicate IsCharged(cost: Amount, estimate: Amount, priced: Option<Amount>) {
    && estimate <= cost && (priced.None? ==> cost == estimate)
    && (priced.Some? ==> priced.value <= cost && (cost == estimate || cost == priced.value))
  }

  /** A proposal awaits approval exactly when it was valid and its charge is within the agreed maximum. */
  lemma {:induction false} SettledWithinBounds(estimate: Amount, maxCost: Amount, outcome: Outcome)
    ensures var s := Settle(estimate, maxCost, outcome);
            && IsCharged(s.cost, estimate, PriceOf(outcome))
            && (s.status == PendingApproval <==> outcome.Proposal? && Charge(estimate, outcome.priced) <= maxCost)
            && (s.status == PendingApproval ==> s.cost <= maxCost)
            && (s.status == PendingApproval || (s.status == Failed && s.error.Some?))
  {
  }

  // ---------- the two worker tasks, as they update the row ----------

  /** What the provider adapter did with the request. */
  datatype Reply =
    | Raised(code: string, priced: Option<Amount>)
    | Broke
    | Answered(valid: bool, priced: Option<Amount>)

  class RunRow {
    const estimate: Amount
    const maxCost: Amount
    var status: Status
    var cost: Amount
    var error: Option<string>

    constructor (estimate: Amount, maxCost: Amount)
      ensures this.estimate == estimate && this.maxCost == maxCost
      ensures status == Reserved && cost == estimate && error == Some("budget_reserved")
    {
      this.estimate := estimate;
      this.maxCost := maxCost;
      status := Reserved;
      cost := estimate;
      error := Some("budget_reserved");
    }

    /** `architecture_proposal_task`: claims a reserved run, calls the provider once, settles the row. */
    method ArchitectureProposalTask(scopeMatches: bool, connectionEnabled: bool, reply: Reply)
      returns (calls: nat)
      modifies this
      ensures old(status) != Reserved ==>
        calls == 0 && status == old(status) && cost == old(cost) && error == old(error)
      ensures old(status) == Reserved ==>
        && Settlement(status, cost, error) ==
            Settle(old(cost), maxCost, ArchitectureOutcome(scopeMatches, connectionEnabled, reply))
        && calls == (if scopeMatches && connectionEnabled then 1 else 0)
        && (if calls == 1 then SettledBy(reply, old(cost), maxCost, status, cost, error)
            else status == Failed && cost == old(cost)
                 && error == Some(if scopeMatches then "provider_execution_failed" else "tenant_scope_violation"))
    {
      calls := 0;
      if status != Reserved {
        return;
      }
      status := Running;
      error := None;
      if !scopeMatches {
        status := Failed;
        error := Some("tenant_scope_violation");
        return;
      }
      var estimatedCost := cost;
      if !connectionEnabled {
        status := Failed;
        error := Some("provider_execution_failed");
        cost := estimatedCost;
        return;
      }
      calls := calls + 1;
      match reply
      case Raised(code, priced) =>
        status := Failed;
        error := Some(code);
        cost := Max(estimatedCost, priced.GetOr(estimatedCost));
      case Broke =>
        status := Failed;
        error := Some("provider_execution_failed");
        cost := estimatedCost;
      case Answered(valid, priced) =>
        if valid {
          var actualCost := Max(estimatedCost, priced.GetOr(estimatedCost));
          var costExceeded := actualCost > maxCost;
          cost := actualCost;
          error := if costExceeded then Some("actual_cost_exceeded_limit")
                   else if priced.None? then Some("usage_unavailable") else None;
          status := if costExceeded then Failed else PendingApproval;
        } else {
          status := Failed;
          error := Some("invalid_ai_output");
          cost := Max(estimatedCost, priced.GetOr(estimatedCost));
        }
    }

    /** `intent_page_proposal_task`: the same, except that a foreign envelope counts as invalid output. */
    method IntentPageProposalTask(scopeMatches: bool, connectionEnabled: bool, reply: Reply)
      returns (calls: nat)
      modifies this
      ensures old(status) != Reserved ==>
        calls == 0 && status == old(status) && cost == old(cost) && error == old(error)
      ensures old(status) == Reserved ==>
        && Settlement(status, cost, error) ==
            Settle(old(cost), maxCost, IntentOutcome(scopeMatches, connectionEnabled, reply))
        && calls == (if scopeMatches && connectionEnabled then 1 else 0)
        && (if calls == 1 then SettledBy(reply, old(cost), maxCost, status, cost, error)
            else status == Failed && cost == old(cost)
                 && error == Some(if scopeMatches then "provider_execution_failed" else "invalid_ai_output"))
    {
      calls := 0;
      if status != Reserved {
        return;
      }
      status := Running;
      error := None;
      var estimatedCost := cost;
      if !scopeMatches {
        status := Failed;
        error := Some("invalid_ai_output");
        cost := Max(estimatedCost, estimatedCost);
        return;
      }
      if !connectionEnabled {
        status := Failed;
        error := Some("provider_execution_failed");
        cost := estimatedCost;
        return;
      }
      calls := calls + 1;
      match reply
      case Raised(code, priced) =>
        status := Failed;
        error := Some(code);
        cost := Max(estimatedCost, priced.GetOr(estimatedCost));
      case Broke =>
        status := Failed;
        error := Some("provider_execution_failed");
        cost := estimatedCost;
      case Answered(valid, priced) =>
        if valid {
          var actualCost := Max(estimatedCost, priced.GetOr(estimatedCost));
          cost := actualCost;
          error := if actualCost > maxCost then Some("actual_cost_exceeded_limit")
                   else if priced.None? then Some("usage_unavailable") else None;
          status := if actualCost > maxCost then Failed else PendingApproval;
        } else {
          status := Failed;
          error := Some("invalid_ai_output");
          cost := Max(estimatedCost, priced.GetOr(estimatedCost));
        }
    }

    /**
     A request that reserved the run itself: it closes the run as failed, or replaces its row by
     a settled one. Unlike the tasks it records the price as it is, whatever the estimate was.
     */
    method SettleByRequest(endpoint: Endpoint, reply: Reply)
      requires status == Reserved && cost == estimate && error == Some("budget_reserved")
      modifies this
      ensures Settlement(status, cost, error) == RequestSettlement(endpoint, estimate, maxCost, reply)
      ensures reply.Broke? ==> status == Reserved && cost == estimate && error == Some("budget_reserved")
      ensures !reply.Broke? ==>
        && cost == (if reply.priced.Some? then reply.priced.value else estimate)
        && status == (if !Replaces(reply) || cost > maxCost then Failed
                      else if endpoint == PageCopy then Completed else PendingApproval)
        && (error == None <==> Replaces(reply) && cost <= maxCost && (endpoint == CityHierarchy || reply.priced.Some?))
        && (error.Some? ==> Reason(reply, cost > maxCost) == error)
    {
      match reply {
        case Raised(code, priced) =>
          status := Failed;
          error := Some(code);
          cost := priced.GetOr(estimate);
        case Broke =>
        case Answered(valid, priced) =>
          var actualCost := priced.GetOr(estimate);
          cost := actualCost;
          if !valid {
            status := Failed;
            error := Some("invalid_ai_output");
            return;
          }
          var costExceeded := actualCost > maxCost;
          status := if costExceeded then Failed else if endpoint == PageCopy then Completed else PendingApproval;
          error := if costExceeded then Some("actual_cost_exceeded_limit")
                   else if endpoint != CityHierarchy && priced.None? then Some("usage_unavailable") else None;
      }
    }
  }

  /** The code that goes with a reply, if one does. */
  ghost function Reason(reply: Reply, exceeded: bool): Option<string> {
    match reply
    case Raised(code, _) => Some(code)
    case Broke => Some("provider_execution_failed")
    case Answered(valid, priced) =>
      if !valid then Some("invalid_ai_output")
      else if exceeded then Some("actual_cost_exceeded_limit")
      else if priced.None? then Some("usage_unavailable") else None
  }

  /** How a task leaves a run of the estimate after a reply: at the reply's price, unless that is lower. */
  ghost predicate SettledBy(reply: Reply, estimate: Amount, maxCost: Amount, status: Status, cost: Amount,
                            error: Option<string>) {
    && IsCharged(cost, estimate, if reply.Broke? then None else reply.priced)
    && (if reply.Answered? && reply.valid && cost <= maxCost then status == PendingApproval else status == Failed)
    && error == Reason(reply, cost > maxCost)
  }

  function ReplyOutcome(reply: Reply): Outcome {
    match reply
    case Raised(code, priced) => ProviderFailed(code, priced)
    case Broke => Unexpected
    case Answered(valid, priced) => if valid then Proposal(priced) else InvalidOutput(priced)
  }

  function ArchitectureOutcome(scopeMatches: bool, connectionEnabled: bool, reply: Reply): Outcome {
    if !scopeMatches then ScopeViolation else if !connectionEnabled then Unexpected else ReplyOutcome(reply)
  }

  function IntentOutcome(scopeMatches: bool, connectionEnabled: bool, reply: Reply): Outcome {
    if !scopeMatches then InvalidOutput(None) else if !connectionEnabled then Unexpected else ReplyOutcome(reply)
  }

  // ---------- the requests that settle their own reservations ----------

  datatype Endpoint = CityHierarchy | SeoBrief | PageCopy | SlotCopy

  /** How a request leaves its row; after an unexpected exception the reservation stays. */
  function RequestSettlement(endpoint: Endpoint, estimate: Amount, maxCost: Amount, reply: Reply): Settlement {
    match reply
    case Raised(code, priced) => Settlement(Failed, priced.GetOr(estimate), Some(code))
    case Broke => Settlement(Reserved, estimate, Some("budget_reserved"))
    case Answered(valid, priced) =>
      var cost := priced.GetOr(estimate);
      if !valid then Settlement(Failed, cost, Some("invalid_ai_output"))
      else if cost > maxCost then Settlement(Failed, cost, Some("actual_cost_exceeded_limit"))
      else
        Settlement(if endpoint == PageCopy then Completed else PendingApproval, cost,
                   if endpoint != CityHierarchy && priced.None? then Some("usage_unavailable") else None)
  }

  /** The price a reply reports, if it reports one. */
  function Priced(reply: Reply): Option<Amount> {
    match reply
    case Raised(_, priced) => priced
    case Broke => None
    case Answered(_, priced) => priced
  }

  /** A valid answer makes the request delete its reservation and insert the settled run in its place. */
  predicate Replaces(reply: Reply) {
    reply.Answered? && reply.valid
  }

  // ---------- the protocol ----------

  /** A reservation request in flight. */
  datatype Session =
    | Begun(tenant: Tenant, owner: Owner, stamp: real, estimate: Amount, maxCost: Amount)
    | Holding(tenant: Tenant, owner: Owner, stamp: real, estimate: Amount, maxCost: Amount)
    | Checked(tenant: Tenant, owner: Owner, stamp: real, estimate: Amount, maxCost: Amount, checkedAt: real)

  /** A delivery that claimed run `run`; `estimate` is the cost it read after claiming. */
  datatype Worker = Worker(run: nat, estimate: Amount, called: bool)

  datatype State = State(now: real, runs: seq<Run>, sessions: map<nat, Session>, workers: map<nat, Worker>)

  datatype Action =
    | Advance(seconds: real)
    | Begin(sid: nat, tenant: Tenant, owner: Owner, estimate: Amount, maxCost: Amount)
    | Acquire(sid: nat)
    | Check(sid: nat)
    | Commit(sid: nat)
    | Rollback(sid: nat)
    | Deliver(wid: nat, run: nat)
    | CallProvider(wid: nat)
    | Finish(wid: nat, outcome: Outcome)
    | Crash(wid: nat)
    | QueueFailed(run: nat)
    | Decide(run: nat, approve: bool)
    | RequestCall(run: nat)
    | RequestSettles(run: nat, endpoint: Endpoint, reply: Reply, stamp: real)

  const INIT := State(0.0, [], map[], map[])

  predicate Holds(session: Session) {
    session.Holding? || session.Checked?
  }

  /** The advisory lock is free for `sid`: nobody else holds a lock with the same key. */
  predicate LockFree(cfg: Config, s: State, sid: nat, tenant: Tenant) {
    !cfg.useLock
    || forall other :: other in s.sessions && other != sid && Holds(s.sessions[other])
                       ==> cfg.lockKey(s.sessions[other].tenant) != cfg.lockKey(tenant)
  }

  /** A request may settle its own reservation; a replacement is stamped by its own transaction. */
  predicate MaySettle(cfg: Config, r: Run, reply: Reply, stamp: real, now: real) {
    && r.owner == ByRequest && r.status == Reserved
    && (reply.Answered? ==> r.calls > 0)
    && (cfg.floored && Priced(reply).Some? ==> r.estimate <= Priced(reply).value)
    && (stamp == r.stamp || (Replaces(reply) && r.stamp <= stamp <= now && now - r.stamp <= cfg.hold))
  }

  /** When an action can happen. */
  predicate Enabled(cfg: Config, s: State, a: Action) {
    match a
    case Advance(seconds) => seconds >= 0.0
    case Begin(sid, tenant, owner, estimate, maxCost) => sid !in s.sessions && estimate <= maxCost
    case Acquire(sid) =>
      && sid in s.sessions && s.sessions[sid].Begun?
      && LockFree(cfg, s, sid, s.sessions[sid].tenant)
    case Check(sid) =>
      && sid in s.sessions && s.sessions[sid].Holding?
      && s.now - s.sessions[sid].stamp <= cfg.lag
    case Commit(sid) => sid in s.sessions && s.sessions[sid].Checked?
    case Rollback(sid) => sid in s.sessions
    case Deliver(wid, run) => wid !in s.workers && run < |s.runs| && s.runs[run].owner == ByTask
    case CallProvider(wid) => wid in s.workers && !s.workers[wid].called && s.workers[wid].run < |s.runs|
    case Finish(wid, outcome) =>
      && wid in s.workers && s.workers[wid].run < |s.runs|
      && (outcome.Proposal? ==> s.workers[wid].called)
    case Crash(wid) => wid in s.workers
    case QueueFailed(run) => run < |s.runs| && s.runs[run].owner == ByTask
    case Decide(run, _) => run < |s.runs| && s.runs[run].status == PendingApproval
    case RequestCall(run) =>
      run < |s.runs| && s.runs[run].owner == ByRequest && s.runs[run].status == Reserved && s.runs[run].calls == 0
    case RequestSettles(run, endpoint, reply, stamp) =>
      run < |s.runs| && MaySettle(cfg, s.runs[run], reply, stamp, s.now)
  }

  /** Actions that rewrite one row. */
  predicate OnRow(a: Action) {
    a.Deliver? || a.CallProvider? || a.Finish? || a.QueueFailed? || a.Decide? || a.RequestCall? || a.RequestSettles?
  }

  /** The row such an action is about. */
  function RowOf(s: State, a: Action): nat
    requires OnRow(a) && (a.CallProvider? || a.Finish? ==> a.wid in s.workers)
  {
    if a.CallProvider? || a.Finish? then s.workers[a.wid].run else a.run
  }

  function WithSettlement(r: Run, done: Settlement): Run {
    r.(status := done.status, cost := done.cost, error := done.error)
  }

  /** What the action makes of the row; a late delivery is a duplicate and does nothing. */
  function Rewritten(r: Run, s: State, a: Action): Run
    requires OnRow(a) && (a.CallProvider? || a.Finish? ==> a.wid in s.workers)
  {
    match a
    case Deliver(_, _) => if r.status != Reserved then r else r.(status := Running, error := None)
    case CallProvider(_) => r.(calls := r.calls + 1)
    case Finish(wid, outcome) => WithSettlement(r, Settle(s.workers[wid].estimate, r.maxCost, outcome))
    case QueueFailed(_) => r.(status := Failed, error := Some("queue_unavailable"))
    case Decide(_, approve) => r.(status := if approve then Approved else Rejected)
    case RequestCall(_) => r.(calls := r.calls + 1)
    case RequestSettles(_, endpoint, reply, stamp) =>
      WithSettlement(r, RequestSettlement(endpoint, r.estimate, r.maxCost, reply)).(stamp := stamp)
    case _ => r
  }

  /** What the action makes of the deliveries in progress. */
  function Workers(s: State, a: Action): map<nat, Worker>
    requires OnRow(a) && (a.CallProvider? ==> a.wid in s.workers) && (a.Deliver? ==> a.run < |s.runs|)
  {
    match a
    case Deliver(wid, run) =>
      if s.runs[run].status != Reserved then s.workers else s.workers[wid := Worker(run, s.runs[run].cost, false)]
    case CallProvider(wid) => s.workers[wid := s.workers[wid].(called := true)]
    case Finish(wid, _) => s.workers - {wid}
    case _ => s.workers
  }

  /** What a reservation's own step makes of its session. A refused check ends the request. */
  function Apply(cfg: Config, s: State, a: Action): State
    requires Enabled(cfg, s, a)
  {
    match a
    case Advance(seconds) => s.(now := s.now + seconds)
    case Begin(sid, tenant, owner, estimate, maxCost) =>
      s.(sessions := s.sessions[sid := Begun(tenant, owner, s.now, estimate, maxCost)])
    case Acquire(sid) =>
      var t := s.sessions[sid];
      s.(sessions := s.sessions[sid := Holding(t.tenant, t.owner, t.stamp, t.estimate, t.maxCost)])
    case Check(sid) =>
      var t := s.sessions[sid];
      if EnforceAiBudget(cfg, s.runs, t.tenant, t.estimate, s.now) == Granted
      then s.(sessions := s.sessions[sid := Checked(t.tenant, t.owner, t.stamp, t.estimate, t.maxCost, s.now)])
      else s.(sessions := s.sessions - {sid})
    case Commit(sid) => s.(runs := s.runs + [NewRun(s.sessions[sid])], sessions := s.sessions - {sid})
    case Rollback(sid) => s.(sessions := s.sessions - {sid})
    case Crash(wid) => s.(workers := s.workers - {wid})
    case _ =>
      var i := RowOf(s, a);
      s.(runs := s.runs[i := Rewritten(s.runs[i], s, a)], workers := Workers(s, a))
  }

  /** The row a checked request inserts. */
  function NewRun(t: Session): Run
    requires t.Checked?
  {
    Run(t.tenant, t.owner, t.stamp, t.estimate, t.maxCost, t.estimate, Reserved, Some("budget_reserved"),
        t.checkedAt, 0)
  }

  function Step(cfg: Config, s: State, a: Action): State {
    if Enabled(cfg, s, a) then Apply(cfg, s, a) else s
  }

  /** The state after a trace; an action that is not enabled when its turn comes does not happen. */
  function Exec(cfg: Config, trace: seq<Action>): State {
    if |trace| == 0 then INIT
    else Step(cfg, Exec(cfg, trace[..|trace| - 1]), trace[|trace| - 1])
  }

  // ---------- sums over the run table ----------

  /** The part of a run's reservation that its recorded cost covers. */
  function Covered(r: Run): real {
    if r.cost <= r.estimate then r.cost else r.estimate
  }

  predicate Within(r: Run, tenant: Tenant, lo: real, hi: real) {
    r.tenant == tenant && lo <= r.stamp <= hi
  }

  /** What is covered of a tenant's reservations stamped `from` or later. */
  ghost function CoveredFrom(runs: seq<Run>, tenant: Tenant, from: real): real {
    if |runs| == 0 then 0.0
    else
      var r := runs[|runs| - 1];
      CoveredFrom(runs[..|runs| - 1], tenant, from)
      + (if r.tenant == tenant && from <= r.stamp then Covered(r) else 0.0)
  }

  /** The sum of `f` over a tenant's runs stamped in the closed interval `[lo, hi]`. */
  ghost function SumIn(runs: seq<Run>, f: Run -> real, tenant: Tenant, lo: real, hi: real): real {
    if |runs| == 0 then 0.0
    else
      var r := runs[|runs| - 1];
      SumIn(runs[..|runs| - 1], f, tenant, lo, hi) + (if Within(r, tenant, lo, hi) then f(r) else 0.0)
  }

  function Estimate(r: Run): real {
    r.estimate
  }

  function Cost(r: Run): real {
    r.cost
  }

  /** What was recorded beyond the estimate. */
  function Excess(r: Run): real {
    if r.cost <= r.estimate then 0.0 else r.cost - r.estimate
  }

  /** What was recorded below the estimate. */
  function Shortfall(r: Run): real {
    if r.cost <= r.estimate then r.estimate - r.cost else 0.0
  }

  lemma {:induction false} SumOfParts(runs: seq<Run>, f: Run -> real, g: Run -> real, h: Run -> real,
                                      tenant: Tenant, lo: real, hi: real)
    requires forall r :: f(r) == g(r) + h(r)
    ensures SumIn(runs, f, tenant, lo, hi) == SumIn(runs, g, tenant, lo, hi) + SumIn(runs, h, tenant, lo, hi)
    decreases |runs|
  {
    if |runs| != 0 {
      SumOfParts(runs[..|runs| - 1], f, g, h, tenant, lo, hi);
    }
  }

  lemma {:induction false} SumOfZeros(runs: seq<Run>, f: Run -> real, tenant: Tenant, lo: real, hi: real)
    requires forall i :: 0 <= i < |runs| ==> f(runs[i]) == 0.0
    ensures SumIn(runs, f, tenant, lo, hi) == 0.0
    decreases |runs|
  {
    if |runs| != 0 {
      SumOfZeros(runs[..|runs| - 1], f, tenant, lo, hi);
    }
  }

  // ---------- rows and claims, whatever the limits ----------

  /** What every row keeps. */
  ghost predicate RowOk(r: Run) {
    && r.estimate <= r.maxCost
    && (r.owner == ByTask ==> r.estimate <= r.cost)
    && (r.status in {PendingApproval, Completed, Approved, Rejected} ==> r.cost <= r.maxCost)
    && r.calls <= 1
    && (r.status == Reserved ==> r.cost == r.estimate && (r.owner == ByTask ==> r.calls == 0))
  }

  ghost predicate RowsOk(runs: seq<Run>) {
    forall i :: 0 <= i < |runs| ==> RowOk(runs[i])
  }

  /** The delivery claimed its run alone, read its estimate, and has not called unless it says so. */
  ghost predicate WorkerOk(runs: seq<Run>, w: Worker) {
    && w.run < |runs|
    && runs[w.run].owner == ByTask && runs[w.run].status != Reserved
    && w.estimate == runs[w.run].estimate
    && (!w.called ==> runs[w.run].calls == 0)
  }

  ghost predicate Apart(v: Worker, w: Worker) {
    v.run != w.run
  }

  ghost predicate WorkersOk(runs: seq<Run>, workers: map<nat, Worker>) {
    && (forall w :: w in workers ==> WorkerOk(runs, workers[w]))
    && (forall v, w :: v in workers && w in workers && v != w ==> Apart(workers[v], workers[w]))
  }

  ghost predicate SessionsOk(s: State) {
    forall sid :: sid in s.sessions ==> s.sessions[sid].estimate <= s.sessions[sid].maxCost
  }

  ghost predicate RowsInv(s: State) {
    RowsOk(s.runs) && SessionsOk(s) && WorkersOk(s.runs, s.workers)
  }

  /** The new row is sound, and no delivery of another run notices. */
  ghost predicate RowStep(before: Run, after: Run) {
    && RowOk(after) && after.owner == before.owner && after.estimate == before.estimate
    && (before.status != Reserved ==> after.status != Reserved)
  }

  lemma {:induction false} RewrittenOk(cfg: Config, s: State, a: Action)
    requires RowsInv(s) && OnRow(a) && Enabled(cfg, s, a)
    ensures var i := RowOf(s, a); i < |s.runs| && RowStep(s.runs[i], Rewritten(s.runs[i], s, a))
  {
    var i := RowOf(s, a);
    assert RowOk(s.runs[i]);
    if a.CallProvider? || a.Finish? {
      assert WorkerOk(s.runs, s.workers[a.wid]);
    }
    if a.Finish? {
      SettledWithinBounds(s.workers[a.wid].estimate, s.runs[i].maxCost, a.outcome);
    }
  }

  lemma {:induction false} RowsStayOk(runs: seq<Run>, i: nat, r: Run)
    requires RowsOk(runs) && i < |runs| && RowOk(r)
    ensures RowsOk(runs[i := r])
  {
  }

  /** Deliveries of a run whose row changes, except that a call is recorded by the delivery that makes it. */
  lemma {:induction false} WorkersStayOk(runs: seq<Run>, workers: map<nat, Worker>, i: nat, r: Run)
    requires WorkersOk(runs, workers) && i < |runs| && RowStep(runs[i], r) && r.calls == runs[i].calls
    ensures WorkersOk(runs[i := r], workers)
  {
    forall w | w in workers ensures WorkerOk(runs[i := r], workers[w]) {
      assert WorkerOk(runs, workers[w]);
    }
  }

  lemma {:induction false} DeliverKeepsWorkers(cfg: Config, s: State, wid: nat, run: nat)
    requires RowsInv(s) && Enabled(cfg, s, Deliver(wid, run)) && s.runs[run].status == Reserved
    ensures var s' := Apply(cfg, s, Deliver(wid, run)); WorkersOk(s'.runs, s'.workers)
  {
    var s' := Apply(cfg, s, Deliver(wid, run));
    assert RowOk(s.runs[run]);
    WorkersStayOk(s.runs, s.workers, run, s'.runs[run]);
    forall w | w in s.workers ensures s.workers[w].run != run {
      assert WorkerOk(s.runs, s.workers[w]);
    }
    assert WorkerOk(s'.runs, s'.workers[wid]);
    ExtendedWorkers(s'.runs, s.workers, wid, s'.workers[wid]);
  }

  lemma {:induction false} ExtendedWorkers(runs: seq<Run>, workers: map<nat, Worker>, wid: nat, w: Worker)
    requires WorkersOk(runs, workers) && WorkerOk(runs, w)
    requires forall v :: v in workers && v != wid ==> Apart(workers[v], w)
    ensures WorkersOk(runs, workers[wid := w])
  {
  }

  lemma {:induction false} CallKeepsWorkers(cfg: Config, s: State, wid: nat)
    requires RowsInv(s) && Enabled(cfg, s, CallProvider(wid))
    ensures var s' := Apply(cfg, s, CallProvider(wid)); WorkersOk(s'.runs, s'.workers)
  {
    var s' := Apply(cfg, s, CallProvider(wid));
    assert WorkerOk(s.runs, s.workers[wid]);
    forall w | w in s'.workers ensures WorkerOk(s'.runs, s'.workers[w]) {
      assert WorkerOk(s.runs, s.workers[w]);
      assert w != wid ==> Apart(s.workers[w], s.workers[wid]);
    }
    forall v, w | v in s'.workers && w in s'.workers && v != w ensures Apart(s'.workers[v], s'.workers[w]) {
      assert Apart(s.workers[v], s.workers[w]);
    }
  }

  lemma {:induction false} RequestCallKeepsWorkers(s: State, run: nat, r: Run)
    requires WorkersOk(s.runs, s.workers) && run < |s.runs| && s.runs[run].owner == ByRequest
    ensures WorkersOk(s.runs[run := r], s.workers)
  {
    forall w | w in s.workers ensures WorkerOk(s.runs[run := r], s.workers[w]) {
      assert WorkerOk(s.runs, s.workers[w]);
    }
  }

  lemma {:induction false} RowActionKeepsWorkers(cfg: Config, s: State, a: Action)
    requires RowsInv(s) && OnRow(a) && Enabled(cfg, s, a)
    ensures var s' := Apply(cfg, s, a); WorkersOk(s'.runs, s'.workers)
  {
    RewrittenOk(cfg, s, a);
    var i := RowOf(s, a);
    var r := Rewritten(s.runs[i], s, a);
    match a
    case Deliver(wid, run) =>
      if s.runs[run].status == Reserved {
        DeliverKeepsWorkers(cfg, s, wid, run);
      } else {
        WorkersStayOk(s.runs, s.workers, i, r);
      }
    case CallProvider(wid) => CallKeepsWorkers(cfg, s, wid);
    case RequestCall(run) => RequestCallKeepsWorkers(s, run, r);
    case _ => WorkersStayOk(s.runs, s.workers, i, r);
  }

  lemma {:induction false} RowActionKeepsRows(cfg: Config, s: State, a: Action)
    requires RowsInv(s) && OnRow(a) && Enabled(cfg, s, a)
    ensures RowsInv(Apply(cfg, s, a))
  {
    RewrittenOk(cfg, s, a);
    RowsStayOk(s.runs, RowOf(s, a), Rewritten(s.runs[RowOf(s, a)], s, a));
    RowActionKeepsWorkers(cfg, s, a);
  }

  lemma {:induction false} CommitKeepsRows(cfg: Config, s: State, sid: nat)
    requires RowsInv(s) && Enabled(cfg, s, Commit(sid))
    ensures RowsInv(Apply(cfg, s, Commit(sid)))
  {
    var s' := Apply(cfg, s, Commit(sid));
    forall w | w in s.workers ensures WorkerOk(s'.runs, s.workers[w]) {
      assert WorkerOk(s.runs, s.workers[w]);
    }
  }

  /** Rows and claims stay sound in every configuration. */
  lemma {:induction false} StepKeepsRows(cfg: Config, s: State, a: Action)
    requires RowsInv(s)
    ensures RowsInv(Step(cfg, s, a))
  {
    if Enabled(cfg, s, a) {
      if OnRow(a) {
        RowActionKeepsRows(cfg, s, a);
      } else if a.Commit? {
        CommitKeepsRows(cfg, s, a.sid);
      }
    }
  }

  lemma {:induction false} RowsAlways(cfg: Config, trace: seq<Action>)
    ensures RowsInv(Exec(cfg, trace))
    decreases |trace|
  {
    if |trace| != 0 {
      RowsAlways(cfg, trace[..|trace| - 1]);
      StepKeepsRows(cfg, Exec(cfg, trace[..|trace| - 1]), trace[|trace| - 1]);
    }
  }

  /** A run reaches the provider at most once, however often its task is delivered. */
  lemma {:induction false} AtMostOneProviderCall(cfg: Config, trace: seq<Action>, i: nat)
    requires i < |Exec(cfg, trace).runs|
    ensures Exec(cfg, trace).runs[i].calls <= 1
  {
    RowsAlways(cfg, trace);
    assert RowOk(Exec(cfg, trace).runs[i]);
  }

  /**
   A run settled for approval was recorded within its agreed maximum, and a run settled by a
   worker task is never recorded below its estimate.
   */
  lemma {:induction false} PendingWithinAgreedCost(cfg: Config, trace: seq<Action>, i: nat)
    requires i < |Exec(cfg, trace).runs|
    ensures var r := Exec(cfg, trace).runs[i];
            && (r.status in {PendingApproval, Completed, Approved, Rejected} ==> r.cost <= r.maxCost)
            && (r.owner == ByTask ==> r.estimate <= r.cost)
  {
    RowsAlways(cfg, trace);
    assert RowOk(Exec(cfg, trace).runs[i]);
  }

  // ---------- what a task has settled ----------

  /** The run was settled by its task, and no delivery is at work on it. */
  ghost predicate TaskDone(s: State, i: nat) {
    && i < |s.runs| && s.runs[i].owner == ByTask && s.runs[i].status != Reserved
    && forall w :: w in s.workers ==> s.workers[w].run != i
  }

  lemma {:induction false} FinishIsDone(cfg: Config, s: State, wid: nat, outcome: Outcome)
    requires RowsInv(s) && Enabled(cfg, s, Finish(wid, outcome))
    ensures var s', i := Step(cfg, s, Finish(wid, outcome)), s.workers[wid].run;
            TaskDone(s', i) && IsCharged(s'.runs[i].cost, s.runs[i].estimate, PriceOf(outcome))
  {
    var i := s.workers[wid].run;
    assert WorkerOk(s.runs, s.workers[wid]);
    SettledWithinBounds(s.workers[wid].estimate, s.runs[i].maxCost, outcome);
    forall w | w in s.workers && w != wid ensures s.workers[w].run != i {
      assert Apart(s.workers[w], s.workers[wid]);
    }
  }

  lemma {:induction false} StepKeepsDone(cfg: Config, s: State, a: Action, i: nat)
    requires RowsInv(s) && TaskDone(s, i)
    ensures TaskDone(Step(cfg, s, a), i) && Step(cfg, s, a).runs[i].cost == s.runs[i].cost
  {
  }

  /**
   What a task settles is settled for good, at the larger of the estimate and the price of its
   reply, whatever is delivered, decided or reserved afterwards.
   */
  lemma {:induction false} SettledCostStays(cfg: Config, trace: seq<Action>, k: nat, n: nat)
    requires k < n <= |trace| && trace[k].Finish? && Enabled(cfg, Exec(cfg, trace[..k]), trace[k])
    ensures var s := Exec(cfg, trace[..k]);
            var i := s.workers[trace[k].wid].run;
            && i < |s.runs| && TaskDone(Exec(cfg, trace[..n]), i)
            && IsCharged(Exec(cfg, trace[..n]).runs[i].cost, s.runs[i].estimate, PriceOf(trace[k].outcome))
    decreases n
  {
    ExecNext(cfg, trace, n - 1);
    RowsAlways(cfg, trace[..n - 1]);
    if n == k + 1 {
      FinishIsDone(cfg, Exec(cfg, trace[..k]), trace[k].wid, trace[k].outcome);
    } else {
      SettledCostStays(cfg, trace, k, n - 1);
      var i := Exec(cfg, trace[..k]).workers[trace[k].wid].run;
      StepKeepsDone(cfg, Exec(cfg, trace[..n - 1]), trace[n - 1], i);
    }
  }

  // ---------- the limits ----------

  /** When row `i` was checked, it and what is covered of the rows before it fitted a window of length `w`. */
  ghost predicate Fitted(runs: seq<Run>, i: nat, w: real, limit: real)
    requires i < |runs|
  {
    CoveredFrom(runs[..i], runs[i].tenant, runs[i].checkedAt - w) + runs[i].estimate <= limit
  }

  ghost predicate RunFits(cfg: Config, runs: seq<Run>, now: real, i: nat)
    requires i < |runs|
  {
    && runs[i].checkedAt <= runs[i].stamp + cfg.lag && runs[i].checkedAt <= now
    && Fitted(runs, i, DAY, cfg.dailyLimit) && Fitted(runs, i, MONTH, cfg.monthlyLimit)
  }

  /** A checked request still fits: nobody else of its tenant can have committed since. */
  ghost predicate SessionFits(cfg: Config, runs: seq<Run>, now: real, t: Session) {
    t.Checked? ==>
      && t.checkedAt <= t.stamp + cfg.lag && t.checkedAt <= now
      && CoveredFrom(runs, t.tenant, t.checkedAt - DAY) + t.estimate <= cfg.dailyLimit
      && CoveredFrom(runs, t.tenant, t.checkedAt - MONTH) + t.estimate <= cfg.monthlyLimit
  }

  ghost predicate RunsFit(cfg: Config, runs: seq<Run>, now: real) {
    forall i :: 0 <= i < |runs| ==> RunFits(cfg, runs, now, i)
  }

  ghost predicate SessionsFit(cfg: Config, runs: seq<Run>, now: real, sessions: map<nat, Session>) {
    forall sid :: sid in sessions ==> SessionFits(cfg, runs, now, sessions[sid])
  }

  /** The lock excludes two sessions of one tenant between check and commit. */
  ghost predicate Exclusive(sessions: map<nat, Session>) {
    forall a, b :: a in sessions && b in sessions && a != b ==> Excludes(sessions[a], sessions[b])
  }

  ghost predicate Excludes(a: Session, b: Session) {
    Holds(a) && Holds(b) ==> a.tenant != b.tenant
  }

  ghost predicate Inv(cfg: Config, s: State) {
    && RowsInv(s) && Exclusive(s.sessions)
    && RunsFit(cfg, s.runs, s.now) && SessionsFit(cfg, s.runs, s.now, s.sessions)
  }

  /**
   The row weighs no more than before in any window from `from` on: less of it is covered, and
   a new stamp brings it into no such window it was not in.
   */
  ghost predicate Eased(before: Run, after: Run, from: real) {
    && after.tenant == before.tenant && Covered(after) <= Covered(before)
    && (after.stamp == before.stamp || from <= before.stamp)
  }

  lemma {:induction false} EasedSum(a: seq<Run>, b: seq<Run>, tenant: Tenant, from: real)
    requires |a| == |b| && forall i :: 0 <= i < |a| ==> Eased(a[i], b[i], from)
    ensures CoveredFrom(b, tenant, from) <= CoveredFrom(a, tenant, from)
    decreases |a|
  {
    if |a| != 0 {
      var n := |a| - 1;
      EasedSum(a[..n], b[..n], tenant, from);
      assert Eased(a[n], b[n], from);
    }
  }

  /** Changing one row, seen from a prefix of the table. */
  lemma {:induction false} EasedPrefix(runs: seq<Run>, i: nat, r: Run, n: nat, tenant: Tenant, from: real)
    requires i < |runs| && n <= |runs| && Eased(runs[i], r, from)
    ensures CoveredFrom(runs[i := r][..n], tenant, from) <= CoveredFrom(runs[..n], tenant, from)
  {
    var a, b := runs[..n], runs[i := r][..n];
    forall k | 0 <= k < n ensures Eased(a[k], b[k], from) {
    }
    EasedSum(a, b, tenant, from);
  }

  /** The recorded costs the check adds up are at least what is covered. */
  lemma {:induction false} CoveredBelowCosts(runs: seq<Run>, tenant: Tenant, from: real)
    ensures CoveredFrom(runs, tenant, from) <= SumCost(runs, tenant, from)
    decreases |runs|
  {
    if |runs| != 0 {
      CoveredBelowCosts(runs[..|runs| - 1], tenant, from);
    }
  }

  lemma {:induction false} WindowBelowCoveredFrom(runs: seq<Run>, tenant: Tenant, lo: real, hi: real, from: real)
    requires from <= lo
    ensures SumIn(runs, Covered, tenant, lo, hi) <= CoveredFrom(runs, tenant, from)
    decreases |runs|
  {
    if |runs| != 0 {
      WindowBelowCoveredFrom(runs[..|runs| - 1], tenant, lo, hi, from);
    }
  }

  lemma {:induction false} FittedPrefix(runs: seq<Run>, n: nat, i: nat, w: real, limit: real)
    requires i < n <= |runs|
    ensures Fitted(runs[..n], i, w, limit) <==> Fitted(runs, i, w, limit)
  {
    assert runs[..n][..i] == runs[..i];
  }

  /**
   From "every row fitted when it was checked" to "every window fits": the last row of a
   window was checked at most `lag` after its stamp, so its check saw all the others.
   */
  lemma {:induction false} WindowFits(runs: seq<Run>, tenant: Tenant, hi: real, w: real, limit: Amount, lag: real)
    requires forall i :: 0 <= i < |runs| ==> runs[i].checkedAt <= runs[i].stamp + lag && Fitted(runs, i, w, limit)
    ensures SumIn(runs, Covered, tenant, hi - (w - lag), hi) <= limit
    decreases |runs|
  {
    if |runs| != 0 {
      var n := |runs| - 1;
      var r := runs[n];
      var lo := hi - (w - lag);
      if Within(r, tenant, lo, hi) {
        assert Fitted(runs, n, w, limit);
        WindowBelowCoveredFrom(runs[..n], tenant, lo, hi, r.checkedAt - w);
      } else {
        forall i | 0 <= i < n ensures Fitted(runs[..n], i, w, limit) {
          FittedPrefix(runs, n, i, w, limit);
        }
        WindowFits(runs[..n], tenant, hi, w, limit, lag);
      }
    }
  }

  // ---------- every action keeps the limits ----------

  lemma {:induction false} CheckKeepsInv(cfg: Config, s: State, sid: nat)
    requires Inv(cfg, s) && Enabled(cfg, s, Check(sid))
    ensures Inv(cfg, Apply(cfg, s, Check(sid)))
  {
    var t := s.sessions[sid];
    CoveredBelowCosts(s.runs, t.tenant, s.now - DAY);
    CoveredBelowCosts(s.runs, t.tenant, s.now - MONTH);
    CheckedKeepsSessions(s.sessions, sid, Apply(cfg, s, Check(sid)).sessions);
  }

  /** A session that already holds the lock may go on or end. */
  lemma {:induction false} CheckedKeepsSessions(before: map<nat, Session>, sid: nat, after: map<nat, Session>)
    requires Exclusive(before) && sid in before && Holds(before[sid])
    requires after.Keys <= before.Keys && forall k :: k in after && k != sid ==> after[k] == before[k]
    requires sid in after ==> after[sid].tenant == before[sid].tenant
    ensures Exclusive(after)
  {
    forall a, b | a in after && b in after && a != b ensures Excludes(after[a], after[b]) {
      assert Excludes(before[a], before[b]);
    }
  }

  lemma {:induction false} AcquireKeepsInv(cfg: Config, s: State, sid: nat)
    requires Inv(cfg, s) && cfg.useLock && Enabled(cfg, s, Acquire(sid))
    ensures Inv(cfg, Apply(cfg, s, Acquire(sid)))
  {
    var after := Apply(cfg, s, Acquire(sid)).sessions;
    forall a, b | a in after && b in after && a != b ensures Excludes(after[a], after[b]) {
      assert Excludes(s.sessions[a], s.sessions[b]);
    }
  }

  lemma {:induction false} CommitFits(cfg: Config, runs: seq<Run>, now: real, t: Session)
    requires RunsFit(cfg, runs, now) && t.Checked? && SessionFits(cfg, runs, now, t)
    ensures RunsFit(cfg, runs + [NewRun(t)], now)
  {
    var n := |runs|;
    var after := runs + [NewRun(t)];
    assert after[..n] == runs;
    forall i | 0 <= i < |after| ensures RunFits(cfg, after, now, i) {
      if i < n {
        assert RunFits(cfg, runs, now, i);
        FittedPrefix(after, n, i, DAY, cfg.dailyLimit);
        FittedPrefix(after, n, i, MONTH, cfg.monthlyLimit);
      }
    }
  }

  /** A row of one tenant does not weigh on a session of another. */
  lemma {:induction false} OtherTenantFits(cfg: Config, runs: seq<Run>, now: real, t: Session, r: Run)
    requires SessionFits(cfg, runs, now, t) && (t.Checked? ==> r.tenant != t.tenant)
    ensures SessionFits(cfg, runs + [r], now, t)
  {
    assert (runs + [r])[..|runs|] == runs;
  }

  lemma {:induction false} CommitKeepsInv(cfg: Config, s: State, sid: nat)
    requires Inv(cfg, s) && Enabled(cfg, s, Commit(sid))
    ensures Inv(cfg, Apply(cfg, s, Commit(sid)))
  {
    var t := s.sessions[sid];
    var s' := Apply(cfg, s, Commit(sid));
    CommitKeepsRows(cfg, s, sid);
    assert SessionFits(cfg, s.runs, s.now, t);
    CommitFits(cfg, s.runs, s.now, t);
    CheckedKeepsSessions(s.sessions, sid, s'.sessions);
    forall other | other in s'.sessions ensures SessionFits(cfg, s'.runs, s.now, s'.sessions[other]) {
      assert Excludes(s.sessions[sid], s.sessions[other]);
      OtherTenantFits(cfg, s.runs, s.now, s.sessions[other], NewRun(t));
    }
  }

  /** What a row action leaves of the row: the reservation, and no more of it covered than before. */
  lemma {:induction false} RewrittenEases(cfg: Config, s: State, a: Action)
    requires RowsInv(s) && OnRow(a) && Enabled(cfg, s, a)
    ensures var r := s.runs[RowOf(s, a)];
            var r' := Rewritten(r, s, a);
            && Covered(r') <= Covered(r)
            && r'.tenant == r.tenant && r'.owner == r.owner
            && r'.estimate == r.estimate && r'.maxCost == r.maxCost && r'.checkedAt == r.checkedAt
            && r.stamp <= r'.stamp
            && (r'.stamp == r.stamp
                || (r.owner == ByRequest && r.status == Reserved && r'.status != Reserved
                    && s.now - r.stamp <= cfg.hold))
  {
    RewrittenOk(cfg, s, a);
    assert RowOk(s.runs[RowOf(s, a)]);
  }

  lemma {:induction false} EasedRunFits(cfg: Config, runs: seq<Run>, now: real, i: nat, r: Run, k: nat)
    requires i < |runs| && k < |runs| && RunFits(cfg, runs, now, k)
    requires r.tenant == runs[i].tenant && r.estimate == runs[i].estimate && r.checkedAt == runs[i].checkedAt
    requires runs[i].stamp <= r.stamp
    requires forall from :: from <= now - DAY ==> Eased(runs[i], r, from)
    ensures RunFits(cfg, runs[i := r], now, k)
  {
    assert Eased(runs[i], r, runs[k].checkedAt - DAY) && Eased(runs[i], r, runs[k].checkedAt - MONTH);
    EasedPrefix(runs, i, r, k, runs[k].tenant, runs[k].checkedAt - DAY);
    EasedPrefix(runs, i, r, k, runs[k].tenant, runs[k].checkedAt - MONTH);
  }

  lemma {:induction false} EasedSessionFits(cfg: Config, runs: seq<Run>, now: real, i: nat, r: Run, t: Session)
    requires SessionFits(cfg, runs, now, t) && i < |runs|
    requires forall from :: from <= now - DAY ==> Eased(runs[i], r, from)
    ensures SessionFits(cfg, runs[i := r], now, t)
  {
    if t.Checked? {
      assert Eased(runs[i], r, t.checkedAt - DAY) && Eased(runs[i], r, t.checkedAt - MONTH);
      assert runs[..|runs|] == runs && runs[i := r][..|runs|] == runs[i := r];
      EasedPrefix(runs, i, r, |runs|, t.tenant, t.checkedAt - DAY);
      EasedPrefix(runs, i, r, |runs|, t.tenant, t.checkedAt - MONTH);
    }
  }

  /** An action on a row disturbs no check made before, if requests do not outlast the shorter window. */
  lemma {:induction false} RowActionKeepsInv(cfg: Config, s: State, a: Action)
    requires Inv(cfg, s) && cfg.hold <= DAY && OnRow(a) && Enabled(cfg, s, a)
    ensures Inv(cfg, Apply(cfg, s, a))
  {
    RowActionKeepsRows(cfg, s, a);
    RewrittenEases(cfg, s, a);
    var i := RowOf(s, a);
    var r := Rewritten(s.runs[i], s, a);
    RowChangeFits(cfg, s, i, r);
  }

  lemma {:induction false} RowChangeFits(cfg: Config, s: State, i: nat, r: Run)
    requires RunsFit(cfg, s.runs, s.now) && SessionsFit(cfg, s.runs, s.now, s.sessions) && i < |s.runs|
    requires r.tenant == s.runs[i].tenant && r.estimate == s.runs[i].estimate && r.checkedAt == s.runs[i].checkedAt
    requires Covered(r) <= Covered(s.runs[i]) && s.runs[i].stamp <= r.stamp
    requires r.stamp == s.runs[i].stamp || s.now - s.runs[i].stamp <= DAY
    ensures RunsFit(cfg, s.runs[i := r], s.now) && SessionsFit(cfg, s.runs[i := r], s.now, s.sessions)
  {
    var after := s.runs[i := r];
    forall k | 0 <= k < |after| ensures RunFits(cfg, after, s.now, k) {
      EasedRunFits(cfg, s.runs, s.now, i, r, k);
    }
    forall sid | sid in s.sessions ensures SessionFits(cfg, s.runs[i := r], s.now, s.sessions[sid]) {
      EasedSessionFits(cfg, s.runs, s.now, i, r, s.sessions[sid]);
    }
  }

  lemma {:induction false} LaterFits(cfg: Config, s: State, now: real)
    requires Inv(cfg, s) && s.now <= now
    ensures Inv(cfg, s.(now := now))
  {
    forall i | 0 <= i < |s.runs| ensures RunFits(cfg, s.runs, now, i) {
      assert RunFits(cfg, s.runs, s.now, i);
    }
    forall sid | sid in s.sessions ensures SessionFits(cfg, s.runs, now, s.sessions[sid]) {
      assert SessionFits(cfg, s.runs, s.now, s.sessions[sid]);
    }
  }

  lemma {:induction false} StepKeepsInv(cfg: Config, s: State, a: Action)
    requires Inv(cfg, s) && cfg.useLock && cfg.hold <= DAY
    ensures Inv(cfg, Step(cfg, s, a))
  {
    if Enabled(cfg, s, a) {
      match a
      case Advance(seconds) => LaterFits(cfg, s, s.now + seconds);
      case Begin(_, _, _, _, _) =>
      case Acquire(sid) => AcquireKeepsInv(cfg, s, sid);
      case Check(sid) => CheckKeepsInv(cfg, s, sid);
      case Commit(sid) => CommitKeepsInv(cfg, s, sid);
      case Rollback(_) =>
      case Crash(_) =>
      case _ => RowActionKeepsInv(cfg, s, a);
    }
  }

  lemma {:induction false} InvAlways(cfg: Config, trace: seq<Action>)
    requires cfg.useLock && cfg.hold <= DAY
    ensures Inv(cfg, Exec(cfg, trace))
    decreases |trace|
  {
    if |trace| != 0 {
      InvAlways(cfg, trace[..|trace| - 1]);
      StepKeepsInv(cfg, Exec(cfg, trace[..|trace| - 1]), trace[|trace| - 1]);
    }
  }

  // ---------- which reservations are granted ----------

  /** Nothing is stamped in the future. */
  ghost predicate StampsPast(s: State) {
    && (forall i :: 0 <= i < |s.runs| ==> s.runs[i].stamp <= s.now)
    && (forall sid :: sid in s.sessions ==> s.sessions[sid].stamp <= s.now)
  }

  lemma {:induction false} StepKeepsStamps(cfg: Config, s: State, a: Action)
    requires StampsPast(s)
    ensures StampsPast(Step(cfg, s, a))
  {
  }

  lemma {:induction false} StampsAlways(cfg: Config, trace: seq<Action>)
    ensures StampsPast(Exec(cfg, trace))
    decreases |trace|
  {
    if |trace| != 0 {
      StampsAlways(cfg, trace[..|trace| - 1]);
      StepKeepsStamps(cfg, Exec(cfg, trace[..|trace| - 1]), trace[|trace| - 1]);
    }
  }

  lemma {:induction false} SumUntilNow(runs: seq<Run>, tenant: Tenant, from: real, now: real)
    requires forall i :: 0 <= i < |runs| ==> runs[i].stamp <= now
    ensures SumCost(runs, tenant, from) == SumIn(runs, Cost, tenant, from, now)
    decreases |runs|
  {
    if |runs| != 0 {
      SumUntilNow(runs[..|runs| - 1], tenant, from, now);
    }
  }

  /** With the estimate, the tenant's recorded costs of the last `w` seconds are within the limit. */
  ghost predicate LeavesRoom(s: State, t: Session, w: real, limit: Amount) {
    SumIn(s.runs, Cost, t.tenant, s.now - w, s.now) + t.estimate <= limit
  }

  /** What the check answers, on every reachable state: the reason comes first that applies first. */
  lemma {:induction false} RefusedBecause(cfg: Config, trace: seq<Action>, t: Session)
    ensures var s := Exec(cfg, trace);
            var answer := EnforceAiBudget(cfg, s.runs, t.tenant, t.estimate, s.now);
            var daily, monthly := LeavesRoom(s, t, 86400.0, cfg.dailyLimit),
                                  LeavesRoom(s, t, 30.0 * 86400.0, cfg.monthlyLimit);
            && (answer == AiDisabled <==> cfg.disabled)
            && (answer == DailyExceeded <==> !cfg.disabled && !daily)
            && (answer == MonthlyExceeded <==> !cfg.disabled && daily && !monthly)
            && (answer == Granted <==> !cfg.disabled && daily && monthly)
  {
    var s := Exec(cfg, trace);
    StampsAlways(cfg, trace);
    SumUntilNow(s.runs, t.tenant, s.now - DAY, s.now);
    SumUntilNow(s.runs, t.tenant, s.now - MONTH, s.now);
  }

  /**
   A request that comes to its check is let through if and only if AI is enabled and its
   estimate fits into both windows, and then it reserves exactly what it asked for; otherwise
   it ends, and nothing is reserved.
   */
  lemma {:induction false} ReservesIffFits(cfg: Config, trace: seq<Action>, sid: nat)
    requires Enabled(cfg, Exec(cfg, trace), Check(sid))
    ensures var s := Exec(cfg, trace);
            var t, checked := s.sessions[sid], Step(cfg, s, Check(sid));
            var done := Step(cfg, checked, Commit(sid));
            if !cfg.disabled && LeavesRoom(s, t, 86400.0, cfg.dailyLimit)
               && LeavesRoom(s, t, 30.0 * 86400.0, cfg.monthlyLimit) then
              && sid in checked.sessions && checked.sessions[sid].Checked?
              && done.runs == s.runs + [Run(t.tenant, t.owner, t.stamp, t.estimate, t.maxCost, t.estimate, Reserved,
                                            Some("budget_reserved"), s.now, 0)]
            else sid !in checked.sessions && done.runs == s.runs
  {
    RefusedBecause(cfg, trace, Exec(cfg, trace).sessions[sid]);
  }

  // ---------- what every run of the protocol keeps ----------

  /** A sum over the tenant's runs of the day (less the delay) and of the thirty days ending at `t`. */
  ghost predicate Bounded(cfg: Config, runs: seq<Run>, f: Run -> real, tenant: Tenant, t: real,
                          daily: real, monthly: real) {
    && SumIn(runs, f, tenant, t - (DAY - cfg.lag), t) <= daily
    && SumIn(runs, f, tenant, t - (MONTH - cfg.lag), t) <= monthly
  }

  /**
   Whatever interleaving of requests, workers, duplicates, crashes and decisions, and whatever
   the replies cost: at any instant `t` what is covered of the estimates a tenant reserved in
   the day (less the delay `lag`) ending at `t` sums to at most the daily limit, and likewise
   for thirty days.
   */
  lemma {:induction false} BudgetHolds(cfg: Config, trace: seq<Action>, tenant: Tenant, t: real)
    requires cfg.useLock && cfg.hold <= DAY
    ensures Bounded(cfg, Exec(cfg, trace).runs, Covered, tenant, t, cfg.dailyLimit, cfg.monthlyLimit)
  {
    InvAlways(cfg, trace);
    CoveredFits(cfg, Exec(cfg, trace), tenant, t);
  }

  lemma {:induction false} CoveredFits(cfg: Config, s: State, tenant: Tenant, t: real)
    requires RunsFit(cfg, s.runs, s.now)
    ensures Bounded(cfg, s.runs, Covered, tenant, t, cfg.dailyLimit, cfg.monthlyLimit)
  {
    forall i | 0 <= i < |s.runs|
      ensures s.runs[i].checkedAt <= s.runs[i].stamp + cfg.lag
      ensures Fitted(s.runs, i, DAY, cfg.dailyLimit) && Fitted(s.runs, i, MONTH, cfg.monthlyLimit)
    {
      assert RunFits(cfg, s.runs, s.now, i);
    }
    WindowFits(s.runs, tenant, t, DAY, cfg.dailyLimit, cfg.lag);
    WindowFits(s.runs, tenant, t, MONTH, cfg.monthlyLimit, cfg.lag);
  }

  /** Recorded spend exceeds a limit by at most what was recorded beyond the estimates. */
  lemma {:induction false} SpendBoundedByExcess(cfg: Config, trace: seq<Action>, tenant: Tenant, t: real)
    requires cfg.useLock && cfg.hold <= DAY
    ensures var runs := Exec(cfg, trace).runs;
            Bounded(cfg, runs, Cost, tenant, t,
                    cfg.dailyLimit + SumIn(runs, Excess, tenant, t - (DAY - cfg.lag), t),
                    cfg.monthlyLimit + SumIn(runs, Excess, tenant, t - (MONTH - cfg.lag), t))
  {
    BudgetHolds(cfg, trace, tenant, t);
    SumOfParts(Exec(cfg, trace).runs, Cost, Covered, Excess, tenant, t - (DAY - cfg.lag), t);
    SumOfParts(Exec(cfg, trace).runs, Cost, Covered, Excess, tenant, t - (MONTH - cfg.lag), t);
  }

  /** The estimates exceed a limit by at most what replies were priced below them. */
  lemma {:induction false} EstimatesBoundedByShortfall(cfg: Config, trace: seq<Action>, tenant: Tenant, t: real)
    requires cfg.useLock && cfg.hold <= DAY
    ensures var runs := Exec(cfg, trace).runs;
            Bounded(cfg, runs, Estimate, tenant, t,
                    cfg.dailyLimit + SumIn(runs, Shortfall, tenant, t - (DAY - cfg.lag), t),
                    cfg.monthlyLimit + SumIn(runs, Shortfall, tenant, t - (MONTH - cfg.lag), t))
  {
    BudgetHolds(cfg, trace, tenant, t);
    SumOfParts(Exec(cfg, trace).runs, Estimate, Covered, Shortfall, tenant, t - (DAY - cfg.lag), t);
    SumOfParts(Exec(cfg, trace).runs, Estimate, Covered, Shortfall, tenant, t - (MONTH - cfg.lag), t);
  }

  ghost predicate NoShortfall(runs: seq<Run>) {
    forall i :: 0 <= i < |runs| ==> Shortfall(runs[i]) == 0.0
  }

  lemma {:induction false} StepKeepsFloor(cfg: Config, s: State, a: Action)
    requires RowsInv(s) && cfg.floored && NoShortfall(s.runs)
    ensures NoShortfall(Step(cfg, s, a).runs)
  {
    if Enabled(cfg, s, a) && OnRow(a) {
      RewrittenOk(cfg, s, a);
      RewrittenAboveEstimate(cfg, s, a);
    }
  }

  lemma {:induction false} RewrittenAboveEstimate(cfg: Config, s: State, a: Action)
    requires RowsInv(s) && cfg.floored && OnRow(a) && Enabled(cfg, s, a)
    requires RowOf(s, a) < |s.runs| && Shortfall(s.runs[RowOf(s, a)]) == 0.0
    ensures Shortfall(Rewritten(s.runs[RowOf(s, a)], s, a)) == 0.0
  {
    RewrittenOk(cfg, s, a);
  }

  lemma {:induction false} FloorAlways(cfg: Config, trace: seq<Action>)
    requires cfg.floored
    ensures NoShortfall(Exec(cfg, trace).runs)
    decreases |trace|
  {
    if |trace| != 0 {
      FloorAlways(cfg, trace[..|trace| - 1]);
      RowsAlways(cfg, trace[..|trace| - 1]);
      StepKeepsFloor(cfg, Exec(cfg, trace[..|trace| - 1]), trace[|trace| - 1]);
    }
  }

  /** The reservation is the same; only a request's own settlement may have moved its stamp forward. */
  ghost predicate SameReservation(early: Run, late: Run) {
    && late.tenant == early.tenant && late.owner == early.owner && late.estimate == early.estimate
    && late.maxCost == early.maxCost && late.checkedAt == early.checkedAt
    && (late.stamp == early.stamp
        || (early.owner == ByRequest && early.status == Reserved && late.status != Reserved
            && early.stamp <= late.stamp))
    && (early.status != Reserved ==> late.status != Reserved)
  }

  lemma {:induction false} StepKeepsReservation(cfg: Config, s: State, a: Action, i: nat)
    requires RowsInv(s) && i < |s.runs|
    ensures i < |Step(cfg, s, a).runs| && SameReservation(s.runs[i], Step(cfg, s, a).runs[i])
  {
    if Enabled(cfg, s, a) && OnRow(a) {
      RewrittenEases(cfg, s, a);
      RewrittenOk(cfg, s, a);
    }
  }

  lemma {:induction false} ExecNext(cfg: Config, trace: seq<Action>, k: nat)
    requires k < |trace|
    ensures Exec(cfg, trace[..k + 1]) == Step(cfg, Exec(cfg, trace[..k]), trace[k])
  {
    assert trace[..k + 1][..k] == trace[..k];
  }

  /**
   What was reserved stays reserved: later actions never change a run's tenant, estimate or
   maximum, and its stamp only when a request replaces its own row on settling it.
   */
  lemma {:induction false} ReservationsKept(cfg: Config, trace: seq<Action>, n: nat, k: nat, i: nat)
    requires n <= k <= |trace| && i < |Exec(cfg, trace[..n]).runs|
    ensures i < |Exec(cfg, trace[..k]).runs|
    ensures SameReservation(Exec(cfg, trace[..n]).runs[i], Exec(cfg, trace[..k]).runs[i])
    decreases k
  {
    if n < k {
      ReservationsKept(cfg, trace, n, k - 1, i);
      ExecNext(cfg, trace, k - 1);
      RowsAlways(cfg, trace[..k - 1]);
      StepKeepsReservation(cfg, Exec(cfg, trace[..k - 1]), trace[k - 1], i);
    }
  }

  // ---------- each assumption is needed ----------

  /** The estimates of every full day and of every full thirty days stay within the limits. */
  ghost predicate FullWindowsWithin(cfg: Config, trace: seq<Action>, tenant: Tenant, t: real) {
    var runs := Exec(cfg, trace).runs;
    && SumIn(runs, Estimate, tenant, t - DAY, t) <= cfg.dailyLimit
    && SumIn(runs, Estimate, tenant, t - MONTH, t) <= cfg.monthlyLimit
  }

  /** Both limits leave room to reserve something, and the daily one is the tighter. */
  predicate Ordinary(cfg: Config) {
    !cfg.disabled && 0.0 < cfg.dailyLimit < cfg.monthlyLimit
  }

  /** What a second reservation may still take under the monthly limit. */
  function Extra(cfg: Config): (e: Amount)
    requires Ordinary(cfg)
    ensures 0.0 < e <= cfg.dailyLimit && cfg.dailyLimit + e <= cfg.monthlyLimit
  {
    if cfg.dailyLimit <= cfg.monthlyLimit - cfg.dailyLimit then cfg.dailyLimit else cfg.monthlyLimit - cfg.dailyLimit
  }

  /** One more action after a trace that reached `s`. */
  lemma {:induction false} Then(cfg: Config, trace: seq<Action>, s: State, a: Action)
    returns (trace': seq<Action>, s': State)
    requires Exec(cfg, trace) == s
    ensures trace' == trace + [a] && s' == Step(cfg, s, a) && Exec(cfg, trace') == s'
  {
    trace' := trace + [a];
    s' := Step(cfg, s, a);
    assert trace'[..|trace|] == trace;
  }

  /** A row of tenant 0 reserved for `amount` and not touched since. */
  ghost function Fresh(owner: Owner, stamp: real, amount: Amount, checkedAt: real): Run {
    Run(0, owner, stamp, amount, amount, amount, Reserved, Some("budget_reserved"), checkedAt, 0)
  }

  lemma {:induction false} SumOfTwo(a: Run, b: Run, lo: real, hi: real)
    requires a.tenant == b.tenant == 0 && lo <= a.stamp <= hi && lo <= b.stamp <= hi
    ensures SumIn([a, b], Estimate, 0, lo, hi) == a.estimate + b.estimate
  {
    assert [a, b][..1] == [a];
    assert SumIn([a], Estimate, 0, lo, hi) == SumIn([a][..0], Estimate, 0, lo, hi) + a.estimate;
  }

  lemma {:induction false} CostOfOne(a: Run, from: real)
    ensures SumCost([a], 0, from) == if a.tenant == 0 && from <= a.stamp then a.cost else 0.0
  {
    assert [a][..0] == [];
  }

  /** One reservation, with nothing else going on, that waits for `wait` before its check. */
  lemma {:induction false} Reserve(cfg: Config, trace: seq<Action>, s: State, owner: Owner, amount: Amount,
                                   wait: Amount)
    returns (trace': seq<Action>, s': State)
    requires Exec(cfg, trace) == s && s.sessions == map[] && wait <= cfg.lag
    requires EnforceAiBudget(cfg, s.runs, 0, amount, s.now + wait) == Granted
    ensures Exec(cfg, trace') == s'
         == s.(now := s.now + wait, runs := s.runs + [Fresh(owner, s.now, amount, s.now + wait)])
  {
    trace', s' := TakeLock(cfg, trace, s, 0, owner, amount);
    trace', s' := Then(cfg, trace', s', Advance(wait));
    trace', s' := PassCheck(cfg, trace', s', 0);
    trace', s' := Then(cfg, trace', s', Commit(0));
    assert s'.sessions == map[];
  }

  /** A request that finds the lock free, or needs none. */
  lemma {:induction false} TakeLock(cfg: Config, trace: seq<Action>, s: State, sid: nat, owner: Owner, amount: Amount)
    returns (trace': seq<Action>, s': State)
    requires Exec(cfg, trace) == s && sid !in s.sessions && (cfg.useLock ==> s.sessions == map[])
    ensures Exec(cfg, trace') == s' == s.(sessions := s.sessions[sid := Holding(0, owner, s.now, amount, amount)])
  {
    trace', s' := Then(cfg, trace, s, Begin(sid, 0, owner, amount, amount));
    AcquireStep(cfg, s', sid);
    trace', s' := Then(cfg, trace', s', Acquire(sid));
    assert s'.sessions == s.sessions[sid := Holding(0, owner, s.now, amount, amount)];
  }

  lemma {:induction false} AcquireStep(cfg: Config, s: State, sid: nat)
    requires sid in s.sessions && s.sessions[sid].Begun? && LockFree(cfg, s, sid, s.sessions[sid].tenant)
    ensures var t := s.sessions[sid];
            Step(cfg, s, Acquire(sid))
            == s.(sessions := s.sessions[sid := Holding(t.tenant, t.owner, t.stamp, t.estimate, t.maxCost)])
  {
  }

  lemma {:induction false} PassCheck(cfg: Config, trace: seq<Action>, s: State, sid: nat)
    returns (trace': seq<Action>, s': State)
    requires Exec(cfg, trace) == s && Enabled(cfg, s, Check(sid))
    requires EnforceAiBudget(cfg, s.runs, s.sessions[sid].tenant, s.sessions[sid].estimate, s.now) == Granted
    ensures var t := s.sessions[sid];
            Exec(cfg, trace') == s'
            == s.(sessions := s.sessions[sid := Checked(t.tenant, t.owner, t.stamp, t.estimate, t.maxCost, s.now)])
  {
    trace', s' := Then(cfg, trace, s, Check(sid));
  }

  /** The first reservation takes the whole day. */
  lemma {:induction false} FirstReservation(cfg: Config, owner: Owner) returns (trace: seq<Action>, s: State)
    requires Ordinary(cfg)
    ensures Exec(cfg, trace) == s == INIT.(runs := [Fresh(owner, 0.0, cfg.dailyLimit, 0.0)])
  {
    trace, s := Reserve(cfg, [], INIT, owner, cfg.dailyLimit, 0.0);
  }

  /** A second one is granted as soon as the check of the day does not see the first. */
  lemma {:induction false} SecondGranted(cfg: Config, first: Run, now: real)
    requires Ordinary(cfg) && first.cost <= cfg.dailyLimit && (now - DAY <= first.stamp ==> first.cost == 0.0)
    ensures EnforceAiBudget(cfg, [first], 0, Extra(cfg), now) == Granted
  {
    CostOfOne(first, now - DAY);
    CostOfOne(first, now - MONTH);
  }

  /** A reservation that waits between its stamp and its check lets a full day overspend. */
  lemma {:induction false} DelayOverspends(cfg: Config) returns (trace: seq<Action>)
    requires Ordinary(cfg) && cfg.lag > 0.0
    ensures !FullWindowsWithin(cfg, trace, 0, DAY)
  {
    var s: State;
    trace, s := FirstReservation(cfg, ByTask);
    var first := s.runs[0];
    trace, s := Then(cfg, trace, s, Advance(DAY));
    SecondGranted(cfg, first, DAY + cfg.lag);
    trace, s := Reserve(cfg, trace, s, ByTask, Extra(cfg), cfg.lag);
    var second := Fresh(ByTask, DAY, Extra(cfg), DAY + cfg.lag);
    assert s.runs == [first, second];
    SumOfTwo(first, second, 0.0, DAY);
  }

  /** Without the lock two requests can both pass the check before either commits. */
  lemma {:induction false} WithoutLockOverspends(cfg: Config) returns (trace: seq<Action>)
    requires Ordinary(cfg) && !cfg.useLock
    ensures !FullWindowsWithin(cfg, trace, 0, 0.0)
  {
    var limit := cfg.dailyLimit;
    var s: State;
    trace, s := TwoChecked(cfg, limit);
    trace, s := Then(cfg, trace, s, Commit(0));
    trace, s := Then(cfg, trace, s, Commit(1));
    var row := Fresh(ByTask, 0.0, limit, 0.0);
    assert s.runs == [row, row];
    SumOfTwo(row, row, 0.0 - DAY, 0.0);
  }

  lemma {:induction false} TwoChecked(cfg: Config, limit: Amount) returns (trace: seq<Action>, s: State)
    requires Ordinary(cfg) && !cfg.useLock && limit == cfg.dailyLimit
    ensures Exec(cfg, trace) == s && s.runs == []
    ensures var t := Checked(0, ByTask, 0.0, limit, limit, 0.0); s.sessions == map[0 := t, 1 := t]
  {
    trace, s := TakeLock(cfg, [], INIT, 0, ByTask, limit);
    trace, s := TakeLock(cfg, trace, s, 1, ByTask, limit);
    trace, s := PassCheck(cfg, trace, s, 0);
    trace, s := PassCheck(cfg, trace, s, 1);
    var t := Checked(0, ByTask, 0.0, limit, limit, 0.0);
    assert s.sessions == map[0 := t, 1 := t];
  }

  /**
   A request whose provider fails after reporting a price below the estimate is closed at that
   price, which reopens the budget for the same day.
   */
  lemma {:induction false} LoweredCostOverspends(cfg: Config) returns (trace: seq<Action>)
    requires Ordinary(cfg) && !cfg.floored
    ensures !FullWindowsWithin(cfg, trace, 0, 0.0)
  {
    var s: State;
    trace, s := FirstReservation(cfg, ByRequest);
    trace, s := Then(cfg, trace, s, RequestCall(0));
    trace, s := Then(cfg, trace, s, RequestSettles(0, SeoBrief, Raised("provider_error", Some(0.0)), 0.0));
    var first := Fresh(ByRequest, 0.0, cfg.dailyLimit, 0.0)
                   .(calls := 1, status := Failed, cost := 0.0, error := Some("provider_error"));
    assert s.runs == [first];
    SecondGranted(cfg, first, 0.0);
    trace, s := Reserve(cfg, trace, s, ByTask, Extra(cfg), 0.0);
    var second := Fresh(ByTask, 0.0, Extra(cfg), 0.0);
    assert s.runs == [first, second];
    SumOfTwo(first, second, 0.0 - DAY, 0.0);
  }

  /** A request that outlasts the day moves its reservation into a window that was checked without it. */
  lemma {:induction false} HeldReservationOverspends(cfg: Config) returns (trace: seq<Action>)
    requires Ordinary(cfg) && cfg.hold > DAY
    ensures !FullWindowsWithin(cfg, trace, 0, cfg.hold)
  {
    var s: State;
    trace, s := FirstReservation(cfg, ByRequest);
    var first := s.runs[0];
    trace, s := Then(cfg, trace, s, RequestCall(0));
    trace, s := Then(cfg, trace, s, Advance(cfg.hold));
    var called := first.(calls := 1);
    assert s.runs == [called];
    SecondGranted(cfg, called, cfg.hold);
    trace, s := Reserve(cfg, trace, s, ByTask, Extra(cfg), 0.0);
    var second := Fresh(ByTask, cfg.hold, Extra(cfg), cfg.hold);
    assert s.runs == [called, second];
    trace, s := Then(cfg, trace, s, RequestSettles(0, SeoBrief, Answered(true, None), cfg.hold));
    var moved := s.runs[0];
    assert moved.stamp == cfg.hold && moved.estimate == cfg.dailyLimit && moved.tenant == 0;
    assert s.runs == [moved, second];
    SumOfTwo(moved, second, cfg.hold - DAY, cfg.hold);
  }

  /** Nothing that is needed is missing, so the estimates of full windows fit. */
  lemma {:induction false} FullWindowsFit(cfg: Config, trace: seq<Action>, tenant: Tenant, t: real)
    requires cfg.useLock && cfg.floored && cfg.lag == 0.0 && cfg.hold <= DAY
    ensures FullWindowsWithin(cfg, trace, tenant, t)
  {
    EstimatesBoundedByShortfall(cfg, trace, tenant, t);
    FloorAlways(cfg, trace);
    SumOfZeros(Exec(cfg, trace).runs, Shortfall, tenant, t - DAY, t);
    SumOfZeros(Exec(cfg, trace).runs, Shortfall, tenant, t - MONTH, t);
  }

  /**
   The estimates of every full day and thirty days stay within the limits, in every run of the
   protocol, if and only if the lock is taken, checks happen at the stamp, no reply to a
   request is priced below its estimate, and no request outlasts a day.
   */
  lemma {:induction false} LimitsHoldIff(cfg: Config)
    requires Ordinary(cfg)
    ensures (forall trace, tenant, t :: FullWindowsWithin(cfg, trace, tenant, t))
       <==> cfg.useLock && cfg.lag == 0.0 && cfg.floored && cfg.hold <= DAY
  {
    if cfg.useLock && cfg.lag == 0.0 && cfg.floored && cfg.hold <= DAY {
      forall trace, tenant, t ensures FullWindowsWithin(cfg, trace, tenant, t) {
        FullWindowsFit(cfg, trace, tenant, t);
      }
    } else if !cfg.useLock {
      var trace := WithoutLockOverspends(cfg);
    } else if cfg.lag > 0.0 {
      var trace := DelayOverspends(cfg);
    } else if !cfg.floored {
      var trace := LoweredCostOverspends(cfg);
    } else {
      var trace := HeldReservationOverspends(cfg);
    }
  }
}
