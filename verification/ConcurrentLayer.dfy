/** The semaphore-bounded execution of a layer's nodes as interleaved steps of a spawner and its tasks. */
module ConcurrentLayer {
  import opened Results
  import opened Manifest
  import opened DagIo
  import opened NodeRules
  import opened Executor

  /** A spawned task runs its attempts one by one and holds its permit until the last. */
  datatype Task = Unspawned | Active(done: seq<Reply>) | Returned(replies: seq<Reply>)

  /** `held` is the permit the spawner has acquired for the task it spawns next; `started` records spawns. */
  datatype Pool = Pool(
    tasks: seq<Task>,
    next: nat,
    held: bool,
    permits: nat,
    joined: nat,
    results: seq<Option<seq<Reply>>>,
    started: seq<nat>)

  datatype Step = Acquire | Spawn | Attempt(task: nat) | Join

  /** The layer being run: its nodes, the shared snapshot of inputs, and the manifest's context. */
  datatype Layer = Layer(cx: Context, nodes: seq<DagNode>, snapshot: Io)

  /** The number of permits: the declared concurrency if positive, and never more than the nodes. */
  function Limit(l: Layer): (limit: nat)
    ensures limit <= |l.nodes|
    ensures |l.nodes| > 0 ==> limit > 0
  {
    var wanted := match l.cx.manifest.concurrency case Some(c) => (if c > 0 then c else |l.nodes|) case None => |l.nodes|;
    if wanted < |l.nodes| then wanted else |l.nodes|
  }

  function Initial(l: Layer): Pool {
    Pool(seq(|l.nodes|, _ => Unspawned), 0, false, Limit(l), 0, seq(|l.nodes|, _ => None), [])
  }

  ghost predicate Shaped(l: Layer, p: Pool) {
    |p.tasks| == |l.nodes| == |p.results| && p.next <= |l.nodes| && p.joined <= |l.nodes|
  }

  ghost predicate Enabled(l: Layer, p: Pool, s: Step)
    requires Shaped(l, p)
  {
    match s
    case Acquire => p.next < |l.nodes| && !p.held && p.permits > 0
    case Spawn => p.held && p.next < |l.nodes|
    case Attempt(i) => i < |l.nodes| && p.tasks[i].Active?
    case Join => p.next == |l.nodes| && p.joined < |l.nodes| && p.tasks[p.joined].Returned?
  }

  ghost function Do(l: Layer, p: Pool, s: Step): Pool
    requires Shaped(l, p) && Enabled(l, p, s)
  {
    match s
    case Acquire => p.(held := true, permits := p.permits - 1)
    case Spawn => p.(tasks := p.tasks[p.next := Active([])], next := p.next + 1, held := false, started := p.started + [p.next])
    case Attempt(i) =>
      var done := p.tasks[i].done;
      var reply := ExecuteOnce(l.cx, l.nodes[i], |done| + 1, l.snapshot);
      if |done| + 1 < MaxAttempts(l.nodes[i]) && ShouldRetry(l.nodes[i], reply) then
        p.(tasks := p.tasks[i := Active(done + [reply])])
      else p.(tasks := p.tasks[i := Returned(done + [reply])], permits := p.permits + 1)
    case Join => p.(results := p.results[p.joined := Some(p.tasks[p.joined].replies)], joined := p.joined + 1)
  }

  // ---- Invariant ----

  function InFlight(tasks: seq<Task>): (n: nat)
    ensures n <= |tasks|
  {
    if |tasks| == 0 then 0
    else InFlight(tasks[..|tasks| - 1]) + if tasks[|tasks| - 1].Active? then 1 else 0
  }

  lemma {:induction false} InFlightUpdate(tasks: seq<Task>, i: nat, t: Task)
    requires i < |tasks|
    ensures InFlight(tasks[i := t]) == InFlight(tasks) - (if tasks[i].Active? then 1 else 0) + (if t.Active? then 1 else 0)
    decreases |tasks|
  {
    var last := |tasks| - 1;
    if i < last {
      InFlightUpdate(tasks[..last], i, t);
      assert tasks[i := t][..last] == tasks[..last][i := t];
    } else {
      assert tasks[i := t][..last] == tasks[..last];
    }
  }

  lemma {:induction false} NoneInFlight(tasks: seq<Task>)
    requires forall i :: 0 <= i < |tasks| ==> !tasks[i].Active?
    ensures InFlight(tasks) == 0
    decreases |tasks|
  {
    if |tasks| > 0 {
      NoneInFlight(tasks[..|tasks| - 1]);
    }
  }

  lemma {:induction false} SomeInFlight(tasks: seq<Task>) returns (i: nat)
    requires InFlight(tasks) > 0
    ensures i < |tasks| && tasks[i].Active?
    decreases |tasks|
  {
    var last := |tasks| - 1;
    if tasks[last].Active? {
      i := last;
    } else {
      i := SomeInFlight(tasks[..last]);
    }
  }

  ghost predicate OnTrack(l: Layer, i: nat, t: Task)
    requires i < |l.nodes|
  {
    var node := l.nodes[i];
    match t
    case Unspawned => true
    case Active(done) => |done| < MaxAttempts(node) && Attempts(l.cx, node, l.snapshot, 1) == done + Attempts(l.cx, node, l.snapshot, |done| + 1)
    case Returned(replies) => replies == Attempts(l.cx, node, l.snapshot, 1)
  }

  ghost predicate Inv(l: Layer, p: Pool) {
    && Shaped(l, p)
    && InFlight(p.tasks) + p.permits + (if p.held then 1 else 0) == Limit(l)
    && (p.held ==> p.next < |l.nodes|)
    && (p.joined > 0 ==> p.next == |l.nodes|)
    && (forall i :: 0 <= i < |l.nodes| ==> (p.tasks[i].Unspawned? <==> i >= p.next))
    && (forall i {:trigger OnTrack(l, i, p.tasks[i])} :: 0 <= i < |l.nodes| ==> OnTrack(l, i, p.tasks[i]))
    && (forall i :: 0 <= i < p.joined ==> p.results[i] == Some(Attempts(l.cx, l.nodes[i], l.snapshot, 1)))
    && |p.started| == p.next && (forall i :: 0 <= i < p.next ==> p.started[i] == i)
  }

  lemma InitialInv(l: Layer)
    ensures Inv(l, Initial(l))
  {
    hide ExecuteOnce;
    NoneInFlight(Initial(l).tasks);
  }

  lemma AttemptOnTrack(l: Layer, i: nat, done: seq<Reply>)
    requires i < |l.nodes| && OnTrack(l, i, Active(done))
    ensures var reply := ExecuteOnce(l.cx, l.nodes[i], |done| + 1, l.snapshot);
      OnTrack(l, i, if |done| + 1 < MaxAttempts(l.nodes[i]) && ShouldRetry(l.nodes[i], reply)
                    then Active(done + [reply]) else Returned(done + [reply]))
  {
    hide ExecuteOnce, ShouldRetry;
    var node := l.nodes[i];
    var reply := ExecuteOnce(l.cx, node, |done| + 1, l.snapshot);
    if |done| + 1 < MaxAttempts(node) && ShouldRetry(node, reply) {
      assert done + ([reply] + Attempts(l.cx, node, l.snapshot, |done| + 2)) == (done + [reply]) + Attempts(l.cx, node, l.snapshot, |done| + 2);
    }
  }

  lemma StepKeepsInv(l: Layer, p: Pool, s: Step)
    requires Inv(l, p) && Enabled(l, p, s)
    ensures Inv(l, Do(l, p, s))
  {
    hide ExecuteOnce, ShouldRetry, MaxAttempts, OnTrack;
    assert forall i :: 0 <= i < |l.nodes| ==> OnTrack(l, i, p.tasks[i]);
    var p' := Do(l, p, s);
    match s {
      case Acquire =>
      case Spawn =>
        InFlightUpdate(p.tasks, p.next, Active([]));
        SpawnOnTrack(l, p.next);
      case Attempt(i) =>
        InFlightUpdate(p.tasks, i, p'.tasks[i]);
        AttemptOnTrack(l, i, p.tasks[i].done);
      case Join =>
        ReturnedResult(l, p.joined, p.tasks[p.joined]);
    }
    forall i | 0 <= i < |l.nodes|
      ensures OnTrack(l, i, p'.tasks[i])
    {
      assert OnTrack(l, i, p.tasks[i]);
    }
  }

  lemma SpawnOnTrack(l: Layer, i: nat)
    requires i < |l.nodes|
    ensures OnTrack(l, i, Active([]))
  {
    hide ExecuteOnce;
  }

  lemma ReturnedResult(l: Layer, i: nat, t: Task)
    requires i < |l.nodes| && t.Returned? && OnTrack(l, i, t)
    ensures t.replies == Attempts(l.cx, l.nodes[i], l.snapshot, 1)
  {
    hide ExecuteOnce;
  }

  // ---- Every interleaving ----

  ghost predicate IsRun(l: Layer, p: Pool, steps: seq<Step>)
    decreases |steps|
  {
    Shaped(l, p) && (steps == [] || (Enabled(l, p, steps[0]) && IsRun(l, Do(l, p, steps[0]), steps[1..])))
  }

  ghost function After(l: Layer, p: Pool, steps: seq<Step>): Pool
    requires IsRun(l, p, steps)
    decreases |steps|
  {
    if steps == [] then p else After(l, Do(l, p, steps[0]), steps[1..])
  }

  lemma {:induction false} RunKeepsInv(l: Layer, p: Pool, steps: seq<Step>)
    requires Inv(l, p) && IsRun(l, p, steps)
    ensures Inv(l, After(l, p, steps))
    decreases |steps|
  {
    hide Inv, Enabled, Do;
    if steps != [] {
      StepKeepsInv(l, p, steps[0]);
      RunKeepsInv(l, Do(l, p, steps[0]), steps[1..]);
    }
  }

  /** The replies the layer must return, one list per node in order, each as if the node ran alone on the snapshot. */
  ghost function OneAtATime(l: Layer): seq<Option<seq<Reply>>> {
    seq(|l.nodes|, i requires 0 <= i < |l.nodes| => Some(Attempts(l.cx, l.nodes[i], l.snapshot, 1)))
  }

  /** In every interleaving at most the declared number of tasks are in flight, if a positive one is declared; every
      node is started once and in order, and once all handles are joined the returned vector is that of running the
      nodes one at a time. */
  lemma EveryInterleaving(l: Layer, steps: seq<Step>)
    requires IsRun(l, Initial(l), steps)
    ensures var p := After(l, Initial(l), steps);
      && (l.cx.manifest.concurrency.Some? && l.cx.manifest.concurrency.value > 0 ==> InFlight(p.tasks) <= l.cx.manifest.concurrency.value)
      && p.started == seq(p.next, i => i) && p.next <= |l.nodes|
      && (p.joined == |l.nodes| ==> p.results == OneAtATime(l) && p.next == |l.nodes|)
  {
    hide ExecuteOnce, OnTrack;
    InitialInv(l);
    RunKeepsInv(l, Initial(l), steps);
  }

  /** `k` more tasks can be spawned while there are permits and nodes. */
  lemma {:induction false} SpawnMore(l: Layer, p: Pool, k: nat) returns (steps: seq<Step>)
    requires Inv(l, p) && !p.held && k <= p.permits && p.next + k <= |l.nodes|
    ensures IsRun(l, p, steps)
    ensures var q := After(l, p, steps); Inv(l, q) && !q.held && q.permits == p.permits - k
    decreases k
  {
    hide Inv;
    ShapedFromInv(l, p);
    steps := [];
    if k > 0 {
      assert Enabled(l, p, Acquire);
      StepKeepsInv(l, p, Acquire);
      var held := Do(l, p, Acquire);
      StepKeepsInv(l, held, Spawn);
      var q := Do(l, held, Spawn);
      ShapedFromInv(l, held);
      ShapedFromInv(l, q);
      var rest := SpawnMore(l, q, k - 1);
      steps := [Acquire, Spawn] + rest;
      assert steps[1..] == [Spawn] + rest && ([Spawn] + rest)[1..] == rest;
      assert IsRun(l, held, [Spawn] + rest);
    }
  }

  /** The declared concurrency is reached: some interleaving has that many tasks in flight, or all nodes if there are
      fewer, or if none or zero is declared. */
  lemma ConcurrencyReached(l: Layer)
    ensures var n, declared := |l.nodes|, l.cx.manifest.concurrency;
      var most := if declared.Some? && 0 < declared.value < n then declared.value else n;
      exists steps :: IsRun(l, Initial(l), steps) && InFlight(After(l, Initial(l), steps).tasks) == most
  {
    hide OnTrack;
    InitialInv(l);
    var steps := SpawnMore(l, Initial(l), Limit(l));
    assert InFlight(After(l, Initial(l), steps).tasks) == Limit(l);
  }

  lemma InvEnables(l: Layer, p: Pool)
    requires Inv(l, p) && p.joined < |l.nodes|
    ensures exists s :: Enabled(l, p, s)
  {
    hide ExecuteOnce, OnTrack;
    if p.held {
      assert Enabled(l, p, Spawn);
    } else if p.next < |l.nodes| && p.permits > 0 {
      assert Enabled(l, p, Acquire);
    } else if InFlight(p.tasks) > 0 {
      var i := SomeInFlight(p.tasks);
      assert Enabled(l, p, Attempt(i));
    } else if p.next == |l.nodes| {
      if p.tasks[p.joined].Active? {
        assert Enabled(l, p, Attempt(p.joined));
      } else {
        assert Enabled(l, p, Join);
      }
    }
  }

  // ---- Termination ----

  function Left(t: Task, node: DagNode): nat {
    match t
    case Unspawned => MaxAttempts(node) + 2
    case Active(done) => if |done| < MaxAttempts(node) then MaxAttempts(node) - |done| else 0
    case Returned(_) => 0
  }

  function TotalLeft(l: Layer, tasks: seq<Task>, k: nat): nat
    requires |tasks| == |l.nodes| && k <= |tasks|
  {
    if k == 0 then 0 else TotalLeft(l, tasks, k - 1) + Left(tasks[k - 1], l.nodes[k - 1])
  }

  lemma {:induction false} TotalLeftUpdate(l: Layer, tasks: seq<Task>, k: nat, i: nat, t: Task)
    requires |tasks| == |l.nodes| && k <= |tasks| && i < |tasks|
    ensures TotalLeft(l, tasks[i := t], k)
            == TotalLeft(l, tasks, k) + if i < k then Left(t, l.nodes[i]) - Left(tasks[i], l.nodes[i]) else 0
    decreases k
  {
    hide Left;
    if k > 0 {
      TotalLeftUpdate(l, tasks, k - 1, i, t);
    }
  }

  /** Work left: a spawn costs two steps, then one step per possible attempt, then one join per node. */
  function Measure(l: Layer, p: Pool): nat
    requires |p.tasks| == |l.nodes|
  {
    TotalLeft(l, p.tasks, |p.tasks|) + (if p.joined < |l.nodes| then |l.nodes| - p.joined else 0) + (if p.held then 0 else 1)
  }

  lemma EveryStepProgresses(l: Layer, p: Pool, s: Step)
    requires Inv(l, p) && Enabled(l, p, s)
    ensures Measure(l, Do(l, p, s)) < Measure(l, p)
  {
    hide ExecuteOnce, ShouldRetry;
    match s {
      case Acquire =>
      case Spawn =>
        TotalLeftUpdate(l, p.tasks, |p.tasks|, p.next, Active([]));
      case Attempt(i) =>
        assert OnTrack(l, i, p.tasks[i]);
        TotalLeftUpdate(l, p.tasks, |p.tasks|, i, Do(l, p, s).tasks[i]);
      case Join =>
    }
  }

  lemma {:induction false} InvBounds(l: Layer, p: Pool, steps: seq<Step>)
    requires Inv(l, p) && IsRun(l, p, steps)
    ensures Shaped(l, After(l, p, steps)) && |steps| + Measure(l, After(l, p, steps)) <= Measure(l, p)
    decreases |steps|
  {
    hide Inv, Enabled, Do, Measure;
    ShapedFromInv(l, p);
    if steps != [] {
      EveryStepProgresses(l, p, steps[0]);
      StepKeepsInv(l, p, steps[0]);
      InvBounds(l, Do(l, p, steps[0]), steps[1..]);
    }
  }

  lemma ShapedFromInv(l: Layer, p: Pool)
    requires Inv(l, p)
    ensures Shaped(l, p)
  {
    hide OnTrack;
  }

  /** After every interleaving, until all handles are joined, some step is enabled. */
  lemma NeverStuck(l: Layer, steps: seq<Step>)
    requires IsRun(l, Initial(l), steps) && After(l, Initial(l), steps).joined < |l.nodes|
    ensures var p := After(l, Initial(l), steps); Shaped(l, p) && exists s :: Enabled(l, p, s)
  {
    hide Inv, Enabled, Do;
    InitialInv(l);
    RunKeepsInv(l, Initial(l), steps);
    ShapedFromInv(l, After(l, Initial(l), steps));
    InvEnables(l, After(l, Initial(l), steps));
  }

  /** Acquiring a permit, spawning, all attempts and the join of every node. */
  function MostSteps(nodes: seq<DagNode>): nat {
    if nodes == [] then 0 else MostSteps(nodes[..|nodes| - 1]) + MaxAttempts(nodes[|nodes| - 1]) + 3
  }

  lemma {:induction false} InitialWork(l: Layer, k: nat)
    requires k <= |l.nodes|
    ensures TotalLeft(l, Initial(l).tasks, k) + k == MostSteps(l.nodes[..k])
  {
    hide MaxAttempts;
    if k > 0 {
      InitialWork(l, k - 1);
      assert l.nodes[..k][..k - 1] == l.nodes[..k - 1];
    }
  }

  lemma WorkRemains(l: Layer, p: Pool)
    requires Inv(l, p)
    ensures Measure(l, p) >= 1
  {
    hide OnTrack;
    if p.held {
      TotalLeftUpdate(l, p.tasks, |p.tasks|, p.next, Returned([]));
    }
  }

  /** Every interleaving ends: none is longer than the acquire, the spawn, the allowed attempts and the join of each
      node. */
  lemma RunsAreBounded(l: Layer, steps: seq<Step>)
    requires IsRun(l, Initial(l), steps)
    ensures |steps| <= MostSteps(l.nodes)
  {
    hide Inv, Enabled, Do;
    InitialInv(l);
    RunKeepsInv(l, Initial(l), steps);
    InvBounds(l, Initial(l), steps);
    WorkRemains(l, After(l, Initial(l), steps));
    InitialWork(l, |l.nodes|);
    assert l.nodes[..|l.nodes|] == l.nodes;
  }
}
