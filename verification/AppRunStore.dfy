/** The app-run statements as updates of the run and lease tables. */
module AppRunStore {
  import opened Results
  import opened AppRuns
  import Executor
  import Approvals

  /** A queued run with attempts left; without a stored limit there are two. */
  predicate Waiting(run: Run) {
    run.status == Queued && run.attempt < (match run.maxAttempts case Some(limit) => limit case None => 2)
  }

  /** Run `r`, and no other, has started its next attempt. */
  predicate Started(before: seq<Run>, after: seq<Run>, r: nat) {
    r < |before| && after == before[r := Run(Running, before[r].attempt + 1, before[r].maxAttempts)]
  }

  /** The lease was live, its deadline has passed, and its run is running with attempts left (`retry`) or without. */
  predicate Lapsed(t: Tables, expired: set<nat>, retry: bool, l: nat) {
    && l < |t.leases| && l in expired && t.leases[l].status == Leased
    && t.leases[l].run < |t.runs|
    && var run := t.runs[t.leases[l].run];
       run.status == Running && (retry <==> run.attempt < (match run.maxAttempts case Some(limit) => limit case None => 2))
  }

  class Store {
    var runs: seq<Run>
    var leases: seq<Lease>

    function Contents(): Tables
      reads this
    {
      Tables(runs, leases)
    }

    constructor ()
      ensures Contents() == NO_ROWS
    {
      runs, leases := [], [];
    }

    /** Queue a run with the attempt limit of its action, which the app manifest must put above zero. */
    method InsertQueued(maxAttempts: int) returns (id: Option<nat>)
      modifies this
      ensures Contents() == Step(old(Contents()), Insert(maxAttempts))
      ensures id == if maxAttempts >= 1 then Some(|old(runs)|) else None
      ensures runs == old(runs) + (if maxAttempts >= 1 then [Run(Queued, 0, Some(maxAttempts))] else []) && leases == old(leases)
    {
      if maxAttempts < 1 {
        return None;
      }
      id := Some(|runs|);
      runs := runs + [Run(Queued, 0, Some(maxAttempts))];
    }

    /** Claim the oldest claimable run that no other transaction has locked. */
    method ClaimNext(locked: set<nat>) returns (claimed: Option<nat>)
      modifies this
      ensures claimed.Some? ==>
        && claimed.value < |old(runs)| && claimed.value !in locked && Waiting(old(runs)[claimed.value])
        && (forall r :: 0 <= r < claimed.value && r !in locked ==> !Waiting(old(runs)[r]))
        && Started(old(runs), runs, claimed.value) && leases == old(leases) + [Lease(claimed.value, Leased)]
        && Contents() == Step(old(Contents()), Claim(claimed.value))
      ensures claimed.None? ==>
        Contents() == old(Contents()) && forall r :: 0 <= r < |runs| && r !in locked ==> !Waiting(runs[r])
    {
      var r := 0;
      while r < |runs|
        invariant 0 <= r <= |runs| && Contents() == old(Contents())
        invariant forall q :: 0 <= q < r && q !in locked ==> !Claimable(runs[q])
      {
        if r !in locked && Claimable(runs[r]) {
          StartAttempt(r);
          return Some(r);
        }
        r := r + 1;
      }
      claimed := None;
    }

    method StartAttempt(r: nat)
      requires r < |runs| && Claimable(runs[r])
      modifies this
      ensures Started(old(runs), runs, r) && leases == old(leases) + [Lease(r, Leased)]
      ensures Contents() == Step(old(Contents()), Claim(r))
    {
      runs := runs[r := runs[r].(status := Running, attempt := runs[r].attempt + 1)];
      leases := leases + [Lease(r, Leased)];
    }

    /** Claim one given run. */
    method ClaimRun(r: nat, locked: bool) returns (claimed: bool)
      modifies this
      ensures claimed == (!locked && r < |old(runs)| && Waiting(old(runs)[r]))
      ensures claimed ==> Started(old(runs), runs, r) && leases == old(leases) + [Lease(r, Leased)]
      ensures Contents() == if claimed then Step(old(Contents()), Claim(r)) else old(Contents())
    {
      claimed := !locked && r < |runs| && Claimable(runs[r]);
      if claimed {
        StartAttempt(r);
      }
    }

    /** One recovery statement over the leases whose deadline has passed; `retry` picks the requeueing one. */
    method RecoverExpired(expired: set<nat>, retry: bool) returns (moved: set<nat>)
      modifies this
      ensures Contents() == Step(old(Contents()), if retry then RequeueExpired(expired) else FailExpired(expired))
      ensures forall r :: r in moved <==> exists l :: 0 <= l < |old(leases)| && old(leases)[l].run == r && Lapsed(old(Contents()), expired, retry, l)
      ensures |runs| == |old(runs)| && forall r: nat :: r < |runs| ==>
        runs[r] == if r in moved then old(runs)[r].(status := if retry then Queued else SystemFailed) else old(runs)[r]
      ensures |leases| == |old(leases)| && forall l: nat :: l < |leases| ==>
        leases[l] == if Lapsed(old(Contents()), expired, retry, l) then old(leases)[l].(status := Expired) else old(leases)[l]
    {
      var t := Contents();
      moved := ExpireLeases(expired, retry);
      var r := 0;
      while r < |runs|
        invariant 0 <= r <= |runs| == |t.runs| && leases == Recover(t, expired, retry).leases
        invariant forall q :: 0 <= q < r ==> runs[q] == Recover(t, expired, retry).runs[q]
        invariant forall q :: r <= q < |runs| ==> runs[q] == t.runs[q]
      {
        if r in moved {
          runs := runs[r := runs[r].(status := if retry then Queued else SystemFailed)];
        }
        r := r + 1;
      }
    }

    method ExpireLeases(expired: set<nat>, retry: bool) returns (moved: set<nat>)
      modifies `leases
      ensures leases == Recover(old(Contents()), expired, retry).leases
      ensures forall r :: r in moved <==> RecoversRun(old(Contents()), expired, retry, r)
    {
      var t := Contents();
      var l := 0;
      moved := {};
      while l < |leases|
        invariant 0 <= l <= |leases| == |t.leases| && runs == t.runs
        invariant forall k :: 0 <= k < l ==> leases[k] == Recover(t, expired, retry).leases[k]
        invariant forall k :: l <= k < |leases| ==> leases[k] == t.leases[k]
        invariant forall r :: r in moved <==> exists k: nat :: k < l && t.leases[k].run == r && Recovers(t, expired, retry, k)
      {
        if Recovers(t, expired, retry, l) {
          leases := leases[l := leases[l].(status := Expired)];
          moved := moved + {t.leases[l].run};
        }
        l := l + 1;
      }
    }

    /** Record a worker's outcome, unless the run is no longer running. */
    method Complete(r: nat, outcome: Outcome, holder: nat) returns (updated: bool)
      modifies `runs
      ensures updated == HasStatus(old(Contents()), r, Running)
      ensures |runs| == |old(runs)| && forall q :: 0 <= q < |runs| && !(updated && q == r) ==> runs[q] == old(runs)[q]
      ensures updated ==>
        runs[r].attempt == old(runs)[r].attempt && runs[r].maxAttempts == old(runs)[r].maxAttempts && CompletedAs(outcome, runs[r].status)
      ensures Contents() == Step(old(Contents()), AppRuns.Complete(r, outcome, holder))
    {
      updated := r < |runs| && runs[r].status == Running;
      if updated {
        runs := runs[r := runs[r].(status := OutcomeState(outcome))];
      }
    }

    /** Approve a paused run and requeue it, with at least one more attempt. A checkpoint must accept the key,
        and without one no node may have completed. */
    method Approve(r: nat, key: string, checkpoint: Option<Executor.ExecutionReport>, completedNodes: nat) returns (approved: bool)
      modifies `runs
      ensures var accepted := checkpoint.None? || Approvals.CheckpointAccepts(checkpoint.value, key);
        var replayable := completedNodes == 0 || checkpoint.Some?;
        && approved == (HasStatus(old(Contents()), r, AwaitingApproval) && accepted && replayable)
        && |runs| == |old(runs)| && (forall q :: 0 <= q < |runs| && !(approved && q == r) ==> runs[q] == old(runs)[q])
        && (approved ==>
              && runs[r].status == Queued && runs[r].attempt == old(runs)[r].attempt && runs[r].maxAttempts.Some?
              && runs[r].maxAttempts.value > runs[r].attempt && runs[r].maxAttempts.value >= Limit(old(runs)[r])
              && runs[r].maxAttempts.value in {runs[r].attempt + 1, Limit(old(runs)[r])})
        && Contents() == Step(old(Contents()), AppRuns.Approve(r, accepted, replayable))
    {
      if r >= |runs| || runs[r].status != AwaitingApproval {
        return false;
      }
      if checkpoint.Some? && !Approvals.CheckpointAccepts(checkpoint.value, key) {
        return false;
      }
      if completedNodes > 0 && checkpoint.None? {
        return false;
      }
      runs := runs[r := Requeue(runs[r])];
      approved := true;
    }

    method ReleaseLease(l: nat, status: LeaseStatus)
      modifies `leases
      ensures leases == if l < |old(leases)| && old(leases)[l].status == Leased then old(leases)[l := Lease(old(leases)[l].run, status)] else old(leases)
      ensures Contents() == Step(old(Contents()), Release(l, status))
    {
      if l < |leases| && leases[l].status == Leased {
        leases := leases[l := leases[l].(status := status)];
      }
    }

    /** First statement of an operator's cancel. */
    method CancelRun(r: nat) returns (cancelled: bool)
      modifies `runs
      ensures cancelled == (HasStatus(old(Contents()), r, Queued) || HasStatus(old(Contents()), r, Running))
      ensures runs == if cancelled then old(runs)[r := old(runs)[r].(status := Cancelled)] else old(runs)
      ensures Contents() == Step(old(Contents()), Cancel(r))
    {
      cancelled := r < |runs| && runs[r].status in {Queued, Running};
      if cancelled {
        runs := runs[r := runs[r].(status := Cancelled)];
      }
    }

    /** Second statement, issued when the first cancelled the run. */
    method FailLeases(r: nat)
      modifies `leases
      ensures |leases| == |old(leases)| && forall l :: 0 <= l < |leases| ==>
        leases[l] == if old(leases)[l] == Lease(r, Leased) then Lease(r, LeaseFailed) else old(leases)[l]
      ensures Contents() == Step(old(Contents()), CancelLeases(r))
    {
      var t := Contents();
      var l := 0;
      while l < |leases|
        invariant 0 <= l <= |leases| == |t.leases| && runs == t.runs
        invariant forall k :: 0 <= k < l ==> leases[k] == Step(t, CancelLeases(r)).leases[k]
        invariant forall k :: l <= k < |leases| ==> leases[k] == t.leases[k]
      {
        if leases[l].run == r && leases[l].status == Leased {
          leases := leases[l := leases[l].(status := LeaseFailed)];
        }
        l := l + 1;
      }
    }
  }
}
