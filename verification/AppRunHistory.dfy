/** What every interleaving of the app-run protocol keeps: retry budgets, lease accounting, terminal states, and,
    for workers that finish before releasing, that a running run can always be recovered. */
module AppRunHistory {
  import opened Results
  import M = Manifest
  import opened AppRuns

  // ---- What one step can do to one run ----

  predicate SameBudget(a: Run, b: Run) {
    a.attempt == b.attempt && a.maxAttempts == b.maxAttempts
  }

  /** The transitions of a run row. */
  predicate RunMove(a: Run, b: Run) {
    || a == b
    || (Claimable(a) && b == a.(status := Running, attempt := a.attempt + 1))
    || (a.status == Running && b.status != Queued && SameBudget(a, b))
    || (a.status == Running && b.status == Queued && SameBudget(a, b) && a.attempt < Limit(a))
    || (a.status == Queued && b.status == Cancelled && SameBudget(a, b))
    || (a.status == AwaitingApproval && b == Requeue(a))
  }

  function Owners(leases: seq<Lease>): (owners: seq<nat>)
    ensures |owners| == |leases| && forall l :: 0 <= l < |leases| ==> owners[l] == leases[l].run
  {
    seq(|leases|, l requires 0 <= l < |leases| => leases[l].run)
  }

  /** Run rows are never dropped and move by the table above; lease rows keep their run, and one is added
      exactly when a run is claimed. */
  lemma StepMoves(t: Tables, a: Action)
    ensures |t.runs| <= |Step(t, a).runs|
    ensures forall r :: 0 <= r < |t.runs| ==> RunMove(t.runs[r], Step(t, a).runs[r])
    ensures forall r :: |t.runs| <= r < |Step(t, a).runs| ==> Step(t, a).runs[r] == Run(Queued, 0, Some(a.maxAttempts)) && a.maxAttempts >= 1
    ensures Owners(Step(t, a).leases) == Owners(t.leases)
            || exists r :: Claimed(t, Step(t, a), r) && Owners(Step(t, a).leases) == Owners(t.leases) + [r]
    ensures forall r: nat :: Claimed(t, Step(t, a), r) ==> Owners(Step(t, a).leases) == Owners(t.leases) + [r]
  {
    if a.Claim? && a.run < |t.runs| && Claimable(t.runs[a.run]) {
      assert Claimed(t, Step(t, a), a.run);
    }
  }

  /** The run started running in this step. */
  predicate Claimed(t: Tables, u: Tables, r: nat) {
    HasStatus(u, r, Running) && !HasStatus(t, r, Running)
  }

  predicate Exited(t: Tables, u: Tables, r: nat) {
    HasStatus(t, r, Running) && !HasStatus(u, r, Running)
  }

  predicate Approves(t: Tables, u: Tables, r: nat) {
    HasStatus(t, r, AwaitingApproval) && HasStatus(u, r, Queued)
  }

  // ---- Counting over a history ----

  function Front(trace: seq<Action>): seq<Action>
    requires trace != []
  {
    trace[..|trace| - 1]
  }

  function One(b: bool): nat {
    if b then 1 else 0
  }

  /** How often a run was claimed. */
  function Claims(trace: seq<Action>, r: nat): nat {
    if trace == [] then 0 else Claims(Front(trace), r) + One(Claimed(After(Front(trace)), After(trace), r))
  }

  /** How often a run stopped running. */
  function Exits(trace: seq<Action>, r: nat): nat {
    if trace == [] then 0 else Exits(Front(trace), r) + One(Exited(After(Front(trace)), After(trace), r))
  }

  /** How often a run was approved. */
  function Approvals(trace: seq<Action>, r: nat): nat {
    if trace == [] then 0 else Approvals(Front(trace), r) + One(Approves(After(Front(trace)), After(trace), r))
  }

  /** The attempt limit a run was queued with. */
  function FirstLimit(trace: seq<Action>, r: nat): int
    requires r < |After(trace).runs|
  {
    if trace != [] && r < |After(Front(trace)).runs| then FirstLimit(Front(trace), r) else Limit(After(trace).runs[r])
  }

  function LeaseRows(t: Tables, r: nat): nat {
    multiset(Owners(t.leases))[r]
  }

  // ---- Budgets ----

  ghost predicate BudgetKept(r: Run) {
    && 0 <= r.attempt <= Limit(r)
    && (r.status == Queued ==> r.attempt < Limit(r))
    && (r.status == Running ==> r.attempt > 0)
  }

  lemma LeaseRowsGrow(t: Tables, a: Action, r: nat)
    ensures LeaseRows(Step(t, a), r) == LeaseRows(t, r) + One(Claimed(t, Step(t, a), r))
  {
    hide Step, HasStatus;
    StepMoves(t, a);
  }

  lemma MoveKeepsBudget(t: Tables, a: Action, r: nat)
    requires r < |t.runs| && BudgetKept(t.runs[r])
    ensures r < |Step(t, a).runs| && BudgetKept(Step(t, a).runs[r])
    ensures Step(t, a).runs[r].attempt == t.runs[r].attempt + One(Claimed(t, Step(t, a), r))
    ensures Limit(Step(t, a).runs[r]) <= Limit(t.runs[r]) + One(Approves(t, Step(t, a), r))
  {
    hide Step;
    StepMoves(t, a);
  }

  /** Everything an interleaving has done to run `r` is accounted for by its row and its leases. */
  lemma {:induction false} RunAccounted(trace: seq<Action>, r: nat)
    ensures r < |After(trace).runs| ==>
      var run := After(trace).runs[r];
      && BudgetKept(run)
      && LeaseRows(After(trace), r) == run.attempt == Claims(trace, r)
      && Claims(trace, r) == Exits(trace, r) + One(run.status == Running)
      && FirstLimit(trace, r) >= 1 && Limit(run) <= FirstLimit(trace, r) + Approvals(trace, r)
    ensures r >= |After(trace).runs| ==>
      LeaseRows(After(trace), r) == Claims(trace, r) == Exits(trace, r) == Approvals(trace, r) == 0
    decreases |trace|
  {
    hide Step, LeaseRows, RunMove;
    if trace != [] {
      var t, a := After(Front(trace)), trace[|trace| - 1];
      RunAccounted(Front(trace), r);
      LeaseRowsGrow(t, a, r);
      if r < |t.runs| {
        hide BudgetKept;
        MoveKeepsBudget(t, a, r);
      } else {
        StepMoves(t, a);
      }
    } else {
      NoLeaseRows(r);
    }
  }

  lemma NoLeaseRows(r: nat)
    ensures LeaseRows(NO_ROWS, r) == 0
  {
  }

  /** In every reachable state attempts stay within the limit, a queued run can be claimed, a run has one lease
      row per attempt, and all claims of a run fit its first limit plus one per approval. */
  lemma BudgetsKept(trace: seq<Action>)
    ensures forall r :: 0 <= r < |After(trace).runs| ==>
      var run := After(trace).runs[r];
      && 0 <= run.attempt <= Limit(run)
      && (run.status == Queued ==> Claimable(run))
      && LeaseRows(After(trace), r) == run.attempt == Claims(trace, r)
      && Claims(trace, r) <= FirstLimit(trace, r) + Approvals(trace, r)
  {
    hide After, Claims, Approvals, FirstLimit, LeaseRows;
    forall r | 0 <= r < |After(trace).runs|
      ensures BudgetKept(After(trace).runs[r])
      ensures LeaseRows(After(trace), r) == After(trace).runs[r].attempt == Claims(trace, r)
      ensures Claims(trace, r) <= FirstLimit(trace, r) + Approvals(trace, r)
    {
      RunAccounted(trace, r);
    }
  }

  /** No queued run is stranded: claiming it starts an attempt. */
  lemma QueuedCanStart(trace: seq<Action>, r: nat)
    requires HasStatus(After(trace), r, Queued)
    ensures HasStatus(After(trace + [Claim(r)]), r, Running)
  {
    hide After;
    BudgetsKept(trace);
    AfterStep(trace, Claim(r));
  }

  // ---- Terminal states ----

  predicate Terminal(status: RunStatus) {
    status in {Done, Partial, Failed, SystemFailed, Cancelled}
  }

  /** A worker's outcome is terminal unless its report is unfinished. */
  lemma OutcomeIsTerminal(o: Outcome)
    ensures Terminal(OutcomeState(o)) <==>
      o.Errored? || o.report.None? || o.report.value !in {M.Pending, M.Running, M.AwaitingApproval}
  {
  }

  /** A run that reached a terminal state keeps its whole row whatever follows. */
  lemma {:induction false} TerminalStays(trace: seq<Action>, more: seq<Action>, r: nat)
    requires r < |After(trace).runs| && Terminal(After(trace).runs[r].status)
    ensures r < |After(trace + more).runs| && After(trace + more).runs[r] == After(trace).runs[r]
    decreases |more|
  {
    if more == [] {
      assert trace + more == trace;
    } else {
      var rest := Front(more);
      TerminalStays(trace, rest, r);
      assert Front(trace + more) == trace + rest;
      StepMoves(After(trace + rest), more[|more| - 1]);
    }
  }

  /** A completion with a finished outcome is final: whatever follows, the run keeps the state it was completed with. */
  lemma CompletionIsFinal(trace: seq<Action>, r: nat, o: Outcome, holder: nat, more: seq<Action>)
    requires HasStatus(After(trace), r, Running)
    requires o.Errored? || o.report.None? || o.report.value !in {M.Pending, M.Running, M.AwaitingApproval}
    ensures var t := After(trace + [Complete(r, o, holder)] + more);
      r < |t.runs| && t.runs[r].status in {Done, Partial, Failed, SystemFailed} && CompletedAs(o, t.runs[r].status)
  {
    hide After;
    OutcomeIsTerminal(o);
    AfterStep(trace, Complete(r, o, holder));
    TerminalStays(trace + [Complete(r, o, holder)], more, r);
  }

  // ---- Workers that finish before they release ----

  ghost predicate HoldsLease(t: Tables, l: nat, r: nat) {
    l < |t.leases| && t.leases[l].run == r
  }

  /** The worker holding lease `l` has had its completion call answered or has seen its run cancelled. */
  ghost predicate Finished(trace: seq<Action>, l: nat) {
    trace != [] &&
    (Finished(Front(trace), l) ||
     var t, a := After(Front(trace)), trace[|trace| - 1];
     || (a.Complete? && a.holder == l && HoldsLease(t, l, a.run))
     || (a.ObserveCancel? && a.lease == l && l < |t.leases| && HasStatus(t, t.leases[l].run, Cancelled)))
  }

  /** An earlier cancel statement cancelled the run. */
  ghost predicate CancelStarted(trace: seq<Action>, r: nat) {
    trace != [] &&
    (CancelStarted(Front(trace), r) ||
     (trace[|trace| - 1] == Cancel(r) && HasStatus(After(trace), r, Cancelled) && !HasStatus(After(Front(trace)), r, Cancelled)))
  }

  /** Leases are released only by finished workers and by cancellation, and no report is pending or running. */
  ghost predicate Disciplined(trace: seq<Action>) {
    trace != [] ==>
      && Disciplined(Front(trace))
      && var a := trace[|trace| - 1];
         && (a.Release? ==> Finished(Front(trace), a.lease))
         && (a.CancelLeases? ==> CancelStarted(Front(trace), a.run))
         && (a.Complete? ==> OutcomeState(a.outcome) != Running)
  }

  ghost predicate IsNewest(t: Tables, l: nat, r: nat) {
    HoldsLease(t, l, r) && forall k: nat :: l < k < |t.leases| ==> t.leases[k].run != r
  }

  /** A finished worker's lease is not the newest one of a running run. */
  ghost predicate Stale(t: Tables, l: nat) {
    l < |t.leases| && !(HasStatus(t, t.leases[l].run, Running) && IsNewest(t, l, t.leases[l].run))
  }

  ghost predicate Recoverable(t: Tables, r: nat) {
    HasStatus(t, r, Running) ==> exists l: nat :: IsNewest(t, l, r) && t.leases[l].status == Leased
  }

  lemma StepKeepsOwners(t: Tables, a: Action)
    ensures |t.leases| <= |Step(t, a).leases| <= |t.leases| + 1
    ensures forall l :: 0 <= l < |t.leases| ==> Step(t, a).leases[l].run == t.leases[l].run
    ensures |Step(t, a).leases| == |t.leases| + 1 ==>
      a.Claim? && Claimed(t, Step(t, a), a.run) && Step(t, a).leases[|t.leases|] == Lease(a.run, Leased)
    ensures forall r: nat :: Claimed(t, Step(t, a), r) ==> a == Claim(r) && |Step(t, a).leases| == |t.leases| + 1
  {
  }

  lemma StaleStays(t: Tables, a: Action, l: nat)
    requires Stale(t, l)
    ensures Stale(Step(t, a), l)
  {
    hide Step;
    var u, r := Step(t, a), t.leases[l].run;
    StepKeepsOwners(t, a);
    if HasStatus(u, r, Running) {
      if HasStatus(t, r, Running) {
        var k: nat :| l < k < |t.leases| && t.leases[k].run == r;
        assert u.leases[k].run == r;
      } else {
        assert Claimed(t, u, r);
        assert u.leases[|t.leases|].run == r;
      }
    }
  }

  lemma {:induction false} FinishedStale(trace: seq<Action>, l: nat)
    requires Disciplined(trace) && Finished(trace, l)
    ensures Stale(After(trace), l)
    decreases |trace|
  {
    hide Step, OutcomeState;
    var t, u, a := After(Front(trace)), After(trace), trace[|trace| - 1];
    StepKeepsOwners(t, a);
    if Finished(Front(trace), l) {
      FinishedStale(Front(trace), l);
      StaleStays(t, a, l);
    } else if a.Complete? {
      CompletionStops(t, a);
    } else {
      ObservingChangesNothing(t, a);
    }
  }

  lemma ObservingChangesNothing(t: Tables, a: Action)
    requires a.ObserveCancel?
    ensures Step(t, a) == t
  {
  }

  lemma CompletionStops(t: Tables, a: Action)
    requires a.Complete? && OutcomeState(a.outcome) != Running
    ensures !HasStatus(Step(t, a), a.run, Running)
  {
  }

  lemma {:induction false} CancelledStays(trace: seq<Action>, r: nat)
    requires CancelStarted(trace, r)
    ensures HasStatus(After(trace), r, Cancelled)
    decreases |trace|
  {
    hide Step;
    if CancelStarted(Front(trace), r) {
      CancelledStays(Front(trace), r);
      StepMoves(After(Front(trace)), trace[|trace| - 1]);
    }
  }

  /** Only recovery, release and cancellation end a lease; recovery takes the run out of running with it. */
  lemma LeaseEnds(t: Tables, a: Action, l: nat)
    requires l < |t.leases| && t.leases[l].status == Leased
    ensures l < |Step(t, a).leases|
    ensures Step(t, a).leases[l].status != Leased ==>
      || (a.Release? && a.lease == l)
      || (a.CancelLeases? && a.run == t.leases[l].run)
      || (HasStatus(t, t.leases[l].run, Running) && !HasStatus(Step(t, a), t.leases[l].run, Running))
  {
  }

  /** With disciplined workers the newest lease of every running run is still leased. */
  lemma {:induction false} RunningIsRecoverable(trace: seq<Action>, r: nat)
    requires Disciplined(trace)
    ensures Recoverable(After(trace), r)
    decreases |trace|
  {
    hide Step, RunMove;
    if trace != [] && HasStatus(After(trace), r, Running) {
      var t, u, a := After(Front(trace)), After(trace), trace[|trace| - 1];
      StepKeepsOwners(t, a);
      if HasStatus(t, r, Running) {
        RunningIsRecoverable(Front(trace), r);
        var l: nat :| IsNewest(t, l, r) && t.leases[l].status == Leased;
        LeaseEnds(t, a, l);
        if a.Release? && Finished(Front(trace), a.lease) {
          FinishedStale(Front(trace), a.lease);
        }
        if a.CancelLeases? && CancelStarted(Front(trace), a.run) {
          CancelledStays(Front(trace), a.run);
        }
        assert IsNewest(u, l, r) && u.leases[l].status == Leased;
      } else {
        assert Claimed(t, u, r);
        assert IsNewest(u, |t.leases|, r);
      }
    }
  }

  /** Once a lease of a running run expires, one of the two recovery statements moves the run: back to the queue
      while attempts are left, else to system failure. */
  lemma RecoveryMovesRun(t: Tables, l: nat)
    requires l < |t.leases| && t.leases[l].status == Leased && HasStatus(t, t.leases[l].run, Running)
    ensures var r := t.leases[l].run;
      if t.runs[r].attempt < Limit(t.runs[r]) then HasStatus(Step(t, RequeueExpired({l})), r, Queued)
      else HasStatus(Step(t, FailExpired({l})), r, SystemFailed)
  {
    var r := t.leases[l].run;
    assert Recovers(t, {l}, t.runs[r].attempt < Limit(t.runs[r]), l);
  }

  /** Releasing a live lease keeps its run recoverable exactly when the run is not running or a newer lease exists. */
  lemma ReleaseKeepsRecoverable(trace: seq<Action>, l: nat, status: LeaseStatus)
    requires Disciplined(trace) && l < |After(trace).leases| && After(trace).leases[l].status == Leased && status != Leased
    ensures var t := After(trace);
      var r := t.leases[l].run;
      Recoverable(Step(t, Release(l, status)), r) <==> !HasStatus(t, r, Running) || !IsNewest(t, l, r)
  {
    hide After, Disciplined;
    var t := After(trace);
    var r := t.leases[l].run;
    var u := Step(t, Release(l, status));
    RunningIsRecoverable(trace, r);
    SameOwnersSameNewest(t, u);
    if HasStatus(t, r, Running) {
      var k: nat :| IsNewest(t, k, r) && t.leases[k].status == Leased;
      NewestUnique(t, r);
      assert k != l ==> IsNewest(u, k, r) && u.leases[k].status == Leased;
    }
  }

  lemma SameOwnersSameNewest(t: Tables, u: Tables)
    requires Owners(u.leases) == Owners(t.leases)
    ensures forall k: nat, r: nat :: IsNewest(u, k, r) <==> IsNewest(t, k, r)
  {
    assert |u.leases| == |t.leases|;
    assert forall k :: 0 <= k < |t.leases| ==> u.leases[k].run == Owners(u.leases)[k] == t.leases[k].run;
  }

  lemma NewestUnique(t: Tables, r: nat)
    ensures forall k: nat, l: nat :: IsNewest(t, k, r) && IsNewest(t, l, r) ==> k == l
  {
  }

  // ---- Live leases ----

  ghost predicate Live(t: Tables, l: nat, r: nat) {
    HoldsLease(t, l, r) && t.leases[l].status == Leased
  }

  ghost predicate NoneLive(t: Tables, r: nat) {
    forall l: nat :: !Live(t, l, r)
  }

  /** At most one lease of the run is live, and if one is, it is the newest. */
  ghost predicate OnlyNewestLive(t: Tables, r: nat) {
    forall l: nat :: Live(t, l, r) ==> IsNewest(t, l, r)
  }

  /** The run was approved while one of its leases was live. */
  ghost predicate ApprovedOverLive(trace: seq<Action>, r: nat) {
    trace != [] &&
    (ApprovedOverLive(Front(trace), r) || (Approves(After(Front(trace)), After(trace), r) && !NoneLive(After(Front(trace)), r)))
  }

  /** The run was claimed while one of its leases was live. */
  ghost predicate ClaimedOverLive(trace: seq<Action>, r: nat) {
    trace != [] &&
    (ClaimedOverLive(Front(trace), r) || (Claimed(After(Front(trace)), After(trace), r) && !NoneLive(After(Front(trace)), r)))
  }

  /** What a run's live leases may be: none before it is claimed, and the newest at most. */
  ghost predicate LeaseProper(t: Tables, r: nat) {
    && OnlyNewestLive(t, r)
    && (r >= |t.runs| || t.runs[r].status == Queued ==> NoneLive(t, r))
  }

  /** No step makes a lease live except the claim that adds it. */
  lemma LiveLeasesShrink(t: Tables, a: Action)
    ensures forall l: nat, r: nat :: Live(Step(t, a), l, r) ==>
      Live(t, l, r) || (l == |t.leases| && a == Claim(r) && Claimed(t, Step(t, a), r))
  {
  }

  /** A requeued run had a live lease, which expired with the requeueing. */
  lemma RequeueExpiresLive(t: Tables, a: Action, r: nat)
    requires OnlyNewestLive(t, r) && HasStatus(t, r, Running) && HasStatus(Step(t, a), r, Queued)
    ensures NoneLive(Step(t, a), r)
  {
    assert a.RequeueExpired?;
    var l: nat :| l < |t.leases| && t.leases[l].run == r && Recovers(t, a.expired, true, l);
    forall k: nat
      ensures !Live(Step(t, a), k, r)
    {
      assert Live(t, l, r) && (Live(t, k, r) ==> IsNewest(t, k, r));
    }
  }

  /** A step keeps the newest lease of a run that it does not claim; a claim makes the added lease the newest. */
  lemma NewestMoves(t: Tables, a: Action, r: nat)
    ensures !Claimed(t, Step(t, a), r) ==> forall l: nat :: IsNewest(t, l, r) ==> IsNewest(Step(t, a), l, r)
    ensures Claimed(t, Step(t, a), r) ==> IsNewest(Step(t, a), |t.leases|, r)
  {
    hide Step;
    StepKeepsOwners(t, a);
  }

  /** A run that is never approved over a live lease keeps its live leases proper, in every interleaving. */
  lemma {:induction false} ApprovalsKeepLeasesProper(trace: seq<Action>, r: nat)
    requires !ApprovedOverLive(trace, r)
    ensures LeaseProper(After(trace), r) && !ClaimedOverLive(trace, r)
    decreases |trace|
  {
    hide Step, Live, IsNewest, RunMove;
    if trace != [] {
      var t, a := After(Front(trace)), trace[|trace| - 1];
      ApprovalsKeepLeasesProper(Front(trace), r);
      ProperStep(t, a, r);
    } else {
      NoRowsNoneLive(r);
    }
  }

  lemma NoRowsNoneLive(r: nat)
    ensures NoneLive(NO_ROWS, r)
  {
  }

  lemma ProperStep(t: Tables, a: Action, r: nat)
    requires LeaseProper(t, r)
    requires Approves(t, Step(t, a), r) ==> NoneLive(t, r)
    ensures LeaseProper(Step(t, a), r)
    ensures Claimed(t, Step(t, a), r) ==> NoneLive(t, r)
  {
    hide Step, Live, IsNewest;
    LiveLeasesShrink(t, a);
    NewestMoves(t, a, r);
    StepMoves(t, a);
    if HasStatus(t, r, Running) && HasStatus(Step(t, a), r, Queued) {
      RequeueExpiresLive(t, a, r);
    }
  }

  /** In every state the history went through, at most the newest lease of the run was live. */
  ghost predicate AlwaysOnlyNewestLive(trace: seq<Action>, r: nat) {
    (trace != [] ==> AlwaysOnlyNewestLive(Front(trace), r)) && OnlyNewestLive(After(trace), r)
  }

  /** Exactly when two leases of one run are never live together: no claim of it found one live. */
  lemma {:induction false} OneLiveLeaseExactly(trace: seq<Action>, r: nat)
    ensures AlwaysOnlyNewestLive(trace, r) <==> !ClaimedOverLive(trace, r)
    decreases |trace|
  {
    hide Step, Live, IsNewest;
    if trace == [] {
      NoRowsNoneLive(r);
    } else {
      OneLiveLeaseExactly(Front(trace), r);
      var t, a := After(Front(trace)), trace[|trace| - 1];
      if OnlyNewestLive(t, r) {
        OnlyNewestStep(t, a, r);
      }
    }
  }

  lemma OnlyNewestStep(t: Tables, a: Action, r: nat)
    requires OnlyNewestLive(t, r)
    ensures OnlyNewestLive(Step(t, a), r) <==> !Claimed(t, Step(t, a), r) || NoneLive(t, r)
  {
    hide Step, Live, IsNewest;
    LiveLeasesShrink(t, a);
    NewestMoves(t, a, r);
    if Claimed(t, Step(t, a), r) && !NoneLive(t, r) {
      ClaimKeepsLive(t, a, r);
    }
  }

  lemma ClaimKeepsLive(t: Tables, a: Action, r: nat)
    requires Claimed(t, Step(t, a), r) && !NoneLive(t, r)
    ensures !OnlyNewestLive(Step(t, a), r)
  {
    hide Step;
    StepKeepsOwners(t, a);
    var l: nat :| Live(t, l, r);
    ClaimAddsOnly(t, a);
    assert Live(Step(t, a), l, r) && !IsNewest(Step(t, a), l, r) by {
      assert Step(t, a).leases[|t.leases|].run == r;
    }
  }

  lemma ClaimAddsOnly(t: Tables, a: Action)
    ensures a.Claim? ==> forall l :: 0 <= l < |t.leases| ==> Step(t, a).leases[l] == t.leases[l]
  {
  }

  /** The check an approver can make: approving a waiting run and claiming it leaves one live lease exactly when
      none of its leases is live at the approval. */
  lemma ApprovalCheck(t: Tables, r: nat)
    requires HasStatus(t, r, AwaitingApproval) && OnlyNewestLive(t, r)
    ensures OnlyNewestLive(Step(Step(t, Approve(r, true, true)), Claim(r)), r) <==> NoneLive(t, r)
  {
    hide OnlyNewestLive, NoneLive;
    var u := Step(t, Approve(r, true, true));
    assert Claimed(u, Step(u, Claim(r)), r);
    SameLeasesSameLive(t, u, r);
    OnlyNewestStep(u, Claim(r), r);
  }

  lemma SameLeasesSameLive(t: Tables, u: Tables, r: nat)
    requires t.leases == u.leases
    ensures (NoneLive(u, r) <==> NoneLive(t, r)) && (OnlyNewestLive(u, r) <==> OnlyNewestLive(t, r))
  {
    assert forall l: nat :: (Live(u, l, r) <==> Live(t, l, r)) && (IsNewest(u, l, r) <==> IsNewest(t, l, r));
  }

  /** The newest lease of the run is among those whose deadline has passed. */
  ghost predicate NewestExpired(t: Tables, expired: set<nat>, r: nat) {
    exists l: nat :: l in expired && Live(t, l, r) && IsNewest(t, l, r)
  }

  /** A running run is recovered only through its newest lease exactly when no older lease of it is live. */
  lemma RecoveryTakesNewest(t: Tables, r: nat)
    requires HasStatus(t, r, Running)
    ensures OnlyNewestLive(t, r) <==>
      forall expired: set<nat>, retry: bool :: RecoversRun(t, expired, retry, r) ==> NewestExpired(t, expired, r)
  {
    hide IsNewest;
    if OnlyNewestLive(t, r) {
      forall expired: set<nat>, retry: bool | RecoversRun(t, expired, retry, r)
        ensures NewestExpired(t, expired, r)
      {
        var l: nat :| l < |t.leases| && t.leases[l].run == r && Recovers(t, expired, retry, l);
        assert Live(t, l, r);
      }
    } else {
      var l: nat :| Live(t, l, r) && !IsNewest(t, l, r);
      var retry := t.runs[r].attempt < Limit(t.runs[r]);
      assert Recovers(t, {l}, retry, l);
      assert RecoversRun(t, {l}, retry, r) && !NewestExpired(t, {l}, r);
    }
  }

  // ---- What discipline buys, and what it does not ----

  lemma AfterStep(trace: seq<Action>, a: Action)
    ensures After(trace + [a]) == Step(After(trace), a)
    ensures Disciplined(trace) && !a.Release? && !a.CancelLeases? && (a.Complete? ==> OutcomeState(a.outcome) != Running) ==>
      Disciplined(trace + [a])
  {
    assert Front(trace + [a]) == trace;
  }

  /** A run queued with `limit` attempts and claimed once. */
  lemma FirstClaim(limit: int)
    requires limit >= 1
    ensures Disciplined([Insert(limit)] + [Claim(0)])
    ensures After([Insert(limit)] + [Claim(0)]) == Tables([Run(Running, 1, Some(limit))], [Lease(0, Leased)])
  {
    assert [] + [Insert(limit)] == [Insert(limit)];
    AfterStep([], Insert(limit));
    AfterStep([Insert(limit)], Claim(0));
  }

  /** A worker that releases before completing strands its run: it stays running with no lease to expire. */
  lemma EarlyReleaseStrands(expired: set<nat>)
    ensures var t := After([Insert(1)] + [Claim(0)] + [Release(0, Released)]);
      && HasStatus(t, 0, Running) && !Recoverable(t, 0)
      && HasStatus(Step(t, RequeueExpired(expired)), 0, Running) && HasStatus(Step(t, FailExpired(expired)), 0, Running)
  {
    hide After, Disciplined;
    FirstClaim(1);
    AfterStep([Insert(1)] + [Claim(0)], Release(0, Released));
    var t := After([Insert(1)] + [Claim(0)] + [Release(0, Released)]);
    assert t == Tables([Run(Running, 1, Some(1))], [Lease(0, Released)]);
  }

  /** A run can hold two live leases: a paused run may be approved and claimed again before its first worker
      releases. The older lease expiring then requeues the run under its new worker. */
  lemma StaleLeaseRequeues()
    ensures var trace := [Insert(3)] + [Claim(0)] + [Complete(0, Reported(Some(M.AwaitingApproval)), 0)] + [Approve(0, true, true)] + [Claim(0)];
      var t := After(trace);
      && Disciplined(trace) && t == Tables([Run(Running, 2, Some(3))], [Lease(0, Leased), Lease(0, Leased)])
      && HasStatus(Step(t, RequeueExpired({0})), 0, Queued) && Step(t, RequeueExpired({0})).leases[1].status == Leased
  {
    hide After, Disciplined;
    var paused := [Insert(3)] + [Claim(0)] + [Complete(0, Reported(Some(M.AwaitingApproval)), 0)];
    FirstClaim(3);
    AfterStep([Insert(3)] + [Claim(0)], Complete(0, Reported(Some(M.AwaitingApproval)), 0));
    AfterStep(paused, Approve(0, true, true));
    AfterStep(paused + [Approve(0, true, true)], Claim(0));
    assert After(paused + [Approve(0, true, true)]) == Tables([Run(Queued, 1, Some(3))], [Lease(0, Leased)]);
    RecoveryMovesRun(After(paused + [Approve(0, true, true)] + [Claim(0)]), 0);
  }
}
