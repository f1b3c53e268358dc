/** The app-run protocol: run and lease rows, and the guarded statements that change them. */
module AppRuns {
  import opened Results
  import M = Manifest

  datatype RunStatus = Queued | Running | AwaitingApproval | Done | Partial | Failed | SystemFailed | Cancelled

  datatype LeaseStatus = Leased | Released | Expired | LeaseFailed | LeaseCancelled

  /** One `app_runs` row; rows are numbered in creation order. */
  datatype Run = Run(status: RunStatus, attempt: int, maxAttempts: Option<int>)

  /** One `worker_leases` row; rows are numbered in creation order. */
  datatype Lease = Lease(run: nat, status: LeaseStatus)

  datatype Tables = Tables(runs: seq<Run>, leases: seq<Lease>)

  /** How a worker's completion call ends a run: with an optional report, or with a failure. */
  datatype Outcome = Reported(report: Option<M.NodeStatus>) | Errored(system: bool)

  /** One atomic statement or transaction. `holder` is the lease of the completing worker, `expired` the leases
      whose deadline has passed, `accepted` and `replayable` the two checks an approval makes on the checkpoint. */
  datatype Action =
    | Insert(maxAttempts: int)
    | Claim(run: nat)
    | RequeueExpired(expired: set<nat>)
    | FailExpired(expired: set<nat>)
    | Complete(run: nat, outcome: Outcome, holder: nat)
    | Approve(run: nat, accepted: bool, replayable: bool)
    | ObserveCancel(lease: nat)
    | Release(lease: nat, status: LeaseStatus)
    | Cancel(run: nat)
    | CancelLeases(run: nat)

  function Limit(r: Run): int {
    if r.maxAttempts.Some? then r.maxAttempts.value else 2
  }

  predicate Claimable(r: Run) {
    r.status == Queued && r.attempt < Limit(r)
  }

  function ReportState(status: M.NodeStatus): RunStatus {
    match status
    case Ok => Done
    case Degraded => Partial
    case Skipped => Partial
    case Pending => Running
    case Running => Running
    case AwaitingApproval => AwaitingApproval
    case Failed => Failed
  }

  function OutcomeState(o: Outcome): RunStatus {
    match o
    case Reported(report) => if report.Some? then ReportState(report.value) else Done
    case Errored(system) => if system then SystemFailed else Failed
  }

  /** The state that a completion leaves a running run in, told case by case. */
  predicate CompletedAs(o: Outcome, s: RunStatus) {
    && (s == Done <==> o.Reported? && (o.report.None? || o.report.value == M.Ok))
    && (s == Partial <==> o.Reported? && o.report.Some? && o.report.value in {M.Degraded, M.Skipped})
    && (s == Failed <==> (o.Errored? && !o.system) || (o.Reported? && o.report == Some(M.Failed)))
    && (s == SystemFailed <==> o.Errored? && o.system)
    && (s == AwaitingApproval <==> o.Reported? && o.report == Some(M.AwaitingApproval))
    && (s == Running <==> o.Reported? && o.report.Some? && o.report.value in {M.Pending, M.Running})
  }

  function Max(a: int, b: int): int {
    if a < b then b else a
  }

  predicate HasStatus(t: Tables, r: nat, status: RunStatus) {
    r < |t.runs| && t.runs[r].status == status
  }

  // ---- Effects ----

  /** The lease joins a running run with attempts left (`retry`) or without. */
  predicate Recovers(t: Tables, expired: set<nat>, retry: bool, l: nat) {
    && l in expired && l < |t.leases| && t.leases[l].status == Leased
    && HasStatus(t, t.leases[l].run, Running)
    && (retry <==> t.runs[t.leases[l].run].attempt < Limit(t.runs[t.leases[l].run]))
  }

  predicate RecoversRun(t: Tables, expired: set<nat>, retry: bool, r: nat) {
    exists l: nat :: l < |t.leases| && t.leases[l].run == r && Recovers(t, expired, retry, l)
  }

  /** One recovery statement: expire the joined leases and move their runs. */
  function Recover(t: Tables, expired: set<nat>, retry: bool): Tables {
    Tables(
      seq(|t.runs|, r requires 0 <= r < |t.runs| =>
        if RecoversRun(t, expired, retry, r) then t.runs[r].(status := if retry then Queued else SystemFailed) else t.runs[r]),
      seq(|t.leases|, l requires 0 <= l < |t.leases| =>
        if Recovers(t, expired, retry, l) then t.leases[l].(status := Expired) else t.leases[l]))
  }

  function SetStatus(t: Tables, r: nat, status: RunStatus): Tables
    requires r < |t.runs|
  {
    t.(runs := t.runs[r := t.runs[r].(status := status)])
  }

  function Requeue(r: Run): Run {
    r.(status := Queued, maxAttempts := Some(Max(Limit(r), r.attempt + 1)))
  }

  function Step(t: Tables, a: Action): Tables {
    match a
    case Insert(max) =>
      if max >= 1 then t.(runs := t.runs + [Run(Queued, 0, Some(max))]) else t
    case Claim(r) =>
      if r < |t.runs| && Claimable(t.runs[r]) then
        Tables(t.runs[r := t.runs[r].(status := Running, attempt := t.runs[r].attempt + 1)], t.leases + [Lease(r, Leased)])
      else t
    case RequeueExpired(expired) => Recover(t, expired, true)
    case FailExpired(expired) => Recover(t, expired, false)
    case Complete(r, outcome, _) =>
      if HasStatus(t, r, Running) then SetStatus(t, r, OutcomeState(outcome)) else t
    case Approve(r, accepted, replayable) =>
      if HasStatus(t, r, AwaitingApproval) && accepted && replayable then t.(runs := t.runs[r := Requeue(t.runs[r])]) else t
    case ObserveCancel(_) => t
    case Release(l, status) =>
      if l < |t.leases| && t.leases[l].status == Leased then t.(leases := t.leases[l := t.leases[l].(status := status)]) else t
    case Cancel(r) =>
      if HasStatus(t, r, Queued) || HasStatus(t, r, Running) then SetStatus(t, r, Cancelled) else t
    case CancelLeases(r) =>
      t.(leases := seq(|t.leases|, l requires 0 <= l < |t.leases| =>
        if t.leases[l].run == r && t.leases[l].status == Leased then t.leases[l].(status := LeaseFailed) else t.leases[l]))
  }

  const NO_ROWS := Tables([], [])

  /** The tables after any interleaving of actions. */
  function After(trace: seq<Action>): Tables {
    if trace == [] then NO_ROWS else Step(After(trace[..|trace| - 1]), trace[|trace| - 1])
  }
}
