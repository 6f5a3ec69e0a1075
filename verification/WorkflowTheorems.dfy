/**
  Whole-run results about the workflow executor, and the theorem that joins it to the
  topological sort: a finished run completes exactly the nodes Kahn's loop can order.
 */
module WorkflowTheorems {
  import opened Graphs
  import opened NodeStates
  import opened Schedule

  // ------------------------------------------------------------------- safety

  lemma BlockedStaysPending(g: Graph, s: Snapshot, v: Id)
    requires Safe(g, s) && Blocked(g, v) && v in g.nodes
    ensures Is(s, v, Pending)
  {
    if s.states[v] != Pending {
      var u := BlockedHasBlockedPred(g, v);
      assert u in Preds(g, v);
      assert Is(s, u, Completed);
      assert u in InState(s, Completed);
      assert u in CompletionOrder(s);
      var k :| 0 <= k < |CompletionOrder(s)| && CompletionOrder(s)[k] == u;
      GroundedNotBlocked(g, CompletionOrder(s), k);
    }
  }

  lemma MoveBound(g: Graph, s: Snapshot)
    requires Safe(g, s)
    ensures |s.moves| <= 2 * |g.nodes|
  {
    var done, failed := InState(s, Completed), InState(s, Failed);
    DistinctCard(s.calls);
    DistinctCard(IdsOf(s.moves, Completed));
    DistinctCard(IdsOf(s.moves, Failed));
    SubsetCard(Begun(s), g.nodes);
    SubsetCard(done + failed, g.nodes);
    assert done * failed == {};
    assert |done + failed| == |done| + |failed|;
  }

  /**
    Safety of every reachable state, whatever the callbacks return and whoever calls in:
    a node that left pending has all its dependencies completed and had its callback run
    exactly once; a pending node never had it run; nodes on or behind a cycle never start;
    at most two transitions per node ever succeed; and releasing dependents never meets a
    node that is already running.
   */
  lemma WholeRunSafety(g: Graph, trace: seq<Snapshot>, steps: seq<Step>, k: nat)
    requires IsRun(g, trace, steps) && k < |trace|
    ensures trace[k].states.Keys == g.nodes
    ensures forall v | v in g.nodes && trace[k].states[v] != Pending :: DepsDone(g, trace[k], v)
    ensures Distinct(trace[k].calls)
    ensures forall v | v in g.nodes :: v in trace[k].calls <==> trace[k].states[v] != Pending
    ensures forall v | v in g.nodes && Blocked(g, v) :: Is(trace[k], v, Pending)
    ensures |trace[k].moves| <= 2 * |g.nodes|
    ensures k < |steps| && steps[k].CompleteOp? ==> !steps[k].result.StartRefused?
  {
    RunIsSafe(g, trace, steps, k);
    MoveBound(g, trace[k]);
    forall v | v in g.nodes && Blocked(g, v) {
      BlockedStaysPending(g, trace[k], v);
    }
    forall v | v in g.nodes
      ensures v in trace[k].calls <==> trace[k].states[v] != Pending
    {
      assert v in SetOf(trace[k].calls) <==> v in Begun(trace[k]);
    }
    if k < |steps| && steps[k].CompleteOp? {
      NoRefusalOnRelease(g, trace[k], steps[k], trace[k + 1]);
    }
  }

  // ----------------------------------------------------------------- progress

  /** Every pending node is held back by some dependency. */
  ghost predicate Progress(g: Graph, s: Snapshot) {
    forall v | v in g.nodes && Is(s, v, Pending) :: !DepsDone(g, s, v)
  }

  ghost predicate Untouched(g: Graph, s: Snapshot) {
    forall v | v in s.states :: s.states[v] == Pending
  }

  ghost predicate Quiet(s: Snapshot) {
    forall v | v in s.states :: s.states[v] != Running
  }

  lemma FirstStartProgress(g: Graph, s: Snapshot, step: Step, s': Snapshot)
    requires Safe(g, s) && Untouched(g, s) && Next(g, s, step, s')
    requires step.StartOp? && !step.result.CallbackFailed?
    ensures step.result == Ok && Progress(g, s')
  {
    forall v | v in g.nodes && Is(s', v, Pending)
      ensures !DepsDone(g, s', v)
    {
      LaunchAllStates(s, step.batch);
      LaunchAllKeepsReady(g, s, step.batch, v);
      assert v !in step.batch;
      assert Preds(g, v) != {};
      var u :| u in Preds(g, v);
      assert !Is(s, u, Completed);
    }
  }

  lemma LaterStartIdle(g: Graph, s: Snapshot, step: Step, s': Snapshot)
    requires Safe(g, s) && Progress(g, s) && Next(g, s, step, s') && step.StartOp?
    ensures s' == s
  {
    assert forall b | b in Roots(g) :: !Is(s, b, Pending);
    DistinctCard(step.batch);
    assert SetOf(step.batch) == {};
  }

  lemma CompleteProgress(g: Graph, s: Snapshot, step: Step, s': Snapshot)
    requires Safe(g, s) && Progress(g, s) && Next(g, s, step, s')
    requires step.CompleteOp? && !step.result.CallbackFailed?
    ensures Progress(g, s')
  {
    NoRefusalOnRelease(g, s, step, s');
    if Is(s, step.node, Running) {
      var s1 := MoveTo(s, step.node, Completed);
      LaunchAllStates(s1, step.batch);
      forall v | v in g.nodes && Is(s', v, Pending)
        ensures !DepsDone(g, s', v)
      {
        LaunchAllKeepsReady(g, s1, step.batch, v);
        assert v !in step.batch && Is(s1, v, Pending) && Is(s, v, Pending);
        if v !in Succ(g, step.node) {
          assert step.node !in Preds(g, v);
        }
      }
    }
  }

  lemma FailProgress(g: Graph, s: Snapshot, step: Step, s': Snapshot)
    requires Progress(g, s) && Next(g, s, step, s') && step.FailOp?
    ensures Progress(g, s')
  {
    forall v | v in g.nodes && Is(s', v, Pending)
      ensures !DepsDone(g, s', v)
    {
      assert Is(s, v, Pending);
      var u :| u in Preds(g, v) && !Is(s, u, Completed);
      assert !Is(s', u, Completed);
    }
  }

  /** Before the first Start nothing happens; after it, only held-back nodes are pending. */
  lemma {:induction false} RunProgress(g: Graph, trace: seq<Snapshot>, steps: seq<Step>, k: nat)
    requires IsRun(g, trace, steps) && k < |trace| && CallbacksSucceed(steps)
    ensures if HasStart(steps[..k]) then Progress(g, trace[k]) else Untouched(g, trace[k])
  {
    if k > 0 {
      RunProgress(g, trace, steps, k - 1);
      RunIsSafe(g, trace, steps, k - 1);
      var s, step, s' := trace[k - 1], steps[k - 1], trace[k];
      assert Next(g, s, step, s');
      assert steps[..k] == steps[..k - 1] + [step];
      HasStartSnoc(steps[..k - 1], step);
      match step
      case StartOp(_, _) =>
        if HasStart(steps[..k - 1]) {
          LaterStartIdle(g, s, step, s');
        } else {
          FirstStartProgress(g, s, step, s');
        }
      case CompleteOp(_, _, _) =>
        if HasStart(steps[..k - 1]) {
          CompleteProgress(g, s, step, s');
        }
      case FailOp(_, _) =>
        if HasStart(steps[..k - 1]) {
          FailProgress(g, s, step, s');
        }
    }
  }

  lemma HasStartSnoc(steps: seq<Step>, step: Step)
    ensures HasStart(steps + [step]) <==> HasStart(steps) || step.StartOp?
  {
    if HasStart(steps) {
      var i :| 0 <= i < |steps| && steps[i].StartOp?;
      assert (steps + [step])[i].StartOp?;
    }
    if step.StartOp? {
      assert (steps + [step])[|steps|].StartOp?;
    }
  }

  // --------------------------------------------------------- what a quiet state means

  /** Some other node that failed reaches `v` along dependency edges. */
  ghost predicate BehindFailure(g: Graph, s: Snapshot, v: Id) {
    exists f :: f != v && Is(s, f, Failed) && Reaches(g, f, v)
  }

  lemma BehindFailureStep(g: Graph, s: Snapshot, u: Id, v: Id)
    requires Edge(g, u, v) && (Is(s, u, Failed) || BehindFailure(g, s, u)) && !Is(s, v, Failed)
    ensures BehindFailure(g, s, v)
  {
    var f :| Is(s, f, Failed) && (f == u || Reaches(g, f, u));
    if f == u {
      ReachesSelf(g, u);
    }
    ReachesStep(g, f, u, v);
  }

  lemma {:induction false} BehindFailureStaysPending(g: Graph, s: Snapshot, w: seq<Id>)
    requires Safe(g, s) && |w| > 1 && IsWalk(g, w) && Is(s, w[0], Failed) && w[|w| - 1] in g.nodes
    ensures Is(s, w[|w| - 1], Pending)
  {
    var u, v := w[|w| - 2], w[|w| - 1];
    assert Edge(g, u, v) && u in Preds(g, v);
    if s.states[v] != Pending {
      assert Is(s, u, Completed);
      if |w| > 2 {
        BehindFailureStaysPending(g, s, w[..|w| - 1]);
      }
    }
  }

  /** In a quiet state with progress, a pending node is behind a failure or behind a cycle. */
  lemma QuietPending(g: Graph, s: Snapshot)
    requires WellFormed(g) && Safe(g, s) && Progress(g, s) && Quiet(s)
    ensures forall v | v in g.nodes && Is(s, v, Pending) :: BehindFailure(g, s, v) || Blocked(g, v)
  {
    var stuck := set v | v in g.nodes && Is(s, v, Pending) && !BehindFailure(g, s, v);
    forall v | v in stuck
      ensures Preds(g, v) * stuck != {}
    {
      var u :| u in Preds(g, v) && !Is(s, u, Completed);
      assert Edge(g, u, v) && u in g.nodes;
      if Is(s, u, Failed) || BehindFailure(g, s, u) {
        BehindFailureStep(g, s, u, v);
      }
      assert u in Preds(g, v) * stuck;
    }
    StuckIsBlocked(g, stuck);
  }

  /**
    Deadlock freedom, with its converse. Once a run with succeeding callbacks has been
    started and nothing is running, the pending nodes are exactly those behind a failed
    node and those on or behind a cycle. On an acyclic graph only the former remain.
   */
  lemma DeadlockFreedom(g: Graph, trace: seq<Snapshot>, steps: seq<Step>)
    requires IsRun(g, trace, steps) && CallbacksSucceed(steps) && HasStart(steps)
    requires Quiet(trace[|steps|])
    ensures forall v | v in g.nodes ::
              Is(trace[|steps|], v, Pending) <==> BehindFailure(g, trace[|steps|], v) || Blocked(g, v)
    ensures Acyclic(g) ==>
              forall v | v in g.nodes && Is(trace[|steps|], v, Pending) :: BehindFailure(g, trace[|steps|], v)
  {
    var s := trace[|steps|];
    assert steps[..|steps|] == steps;
    RunIsSafe(g, trace, steps, |steps|);
    RunProgress(g, trace, steps, |steps|);
    QuietPending(g, s);
    AcyclicIffNoneBlocked(g);
    forall v | v in g.nodes
      ensures Blocked(g, v) ==> Is(s, v, Pending)
      ensures BehindFailure(g, s, v) ==> Is(s, v, Pending)
    {
      if Blocked(g, v) {
        BlockedStaysPending(g, s, v);
      }
      if BehindFailure(g, s, v) {
        var f :| f != v && Is(s, f, Failed) && Reaches(g, f, v);
        var w :| WalkFromTo(g, w, f, v);
        BehindFailureStaysPending(g, s, w);
      }
    }
  }

  /**
    The executor and the topological sort agree. After a started run with succeeding
    callbacks and no failed node, a quiet state has completed exactly the nodes that no
    cycle holds up, in an order that respects every dependency. So everything completed
    if and only if the graph has a topological order, and then the order in which nodes
    completed is one.
   */
  lemma CompletionIffSortable(g: Graph, trace: seq<Snapshot>, steps: seq<Step>)
    requires IsRun(g, trace, steps) && CallbacksSucceed(steps) && HasStart(steps)
    requires Quiet(trace[|steps|])
    requires forall v | v in g.nodes :: !Is(trace[|steps|], v, Failed)
    ensures Grounded(g, CompletionOrder(trace[|steps|])) && Distinct(CompletionOrder(trace[|steps|]))
    ensures forall v :: v in CompletionOrder(trace[|steps|]) <==> v in g.nodes && !Blocked(g, v)
    ensures (forall v | v in g.nodes :: Is(trace[|steps|], v, Completed)) <==> Acyclic(g)
    ensures (forall v | v in g.nodes :: Is(trace[|steps|], v, Completed)) <==> exists o :: IsTopological(g, o)
    ensures Acyclic(g) ==> IsTopological(g, CompletionOrder(trace[|steps|]))
  {
    var s := trace[|steps|];
    var order := CompletionOrder(s);
    RunIsSafe(g, trace, steps, |steps|);
    DeadlockFreedom(g, trace, steps);
    AcyclicIffNoneBlocked(g);
    forall v
      ensures v in order <==> v in g.nodes && Is(s, v, Completed)
      ensures v in g.nodes ==> (Is(s, v, Completed) <==> !Blocked(g, v))
    {
      assert v in order <==> v in SetOf(order);
      assert v in order <==> v in InState(s, Completed);
      assert v in g.nodes ==> !BehindFailure(g, s, v) by {
        assert forall f :: Is(s, f, Failed) ==> f in g.nodes;
      }
    }
    if Acyclic(g) {
      assert SetOf(order) == g.nodes;
      GroundedIsTopological(g, order);
    }
    forall o | IsTopological(g, o)
      ensures Acyclic(g)
    {
      TopologicalIsAcyclic(g, o);
    }
  }

  // ------------------------------------------------------- when callbacks fail

  /** The call would have started `v`, but an error stopped it first. */
  ghost predicate SkippedBy(g: Graph, s: Snapshot, step: Step, v: Id) {
    match step
    case StartOp(batch, r) => r != Ok && v in Roots(g) && v !in batch && Is(s, v, Pending)
    case CompleteOp(node, batch, r) =>
      && r != Ok && Is(s, node, Running) && v in Succ(g, node) && v !in batch
      && Ready(g, MoveTo(s, node, Completed), v)
    case FailOp(_, _) => false
  }

  ghost predicate Skipped(g: Graph, trace: seq<Snapshot>, steps: seq<Step>, k: nat, v: Id)
    requires k <= |steps| <= |trace|
  {
    exists i :: 0 <= i < k && SkippedBy(g, trace[i], steps[i], v)
  }

  /** Every pending node is held back by some dependency, or was skipped. */
  ghost predicate ProgressButSkipped(g: Graph, trace: seq<Snapshot>, steps: seq<Step>, k: nat)
    requires k <= |steps| < |trace|
  {
    forall v | v in g.nodes && Is(trace[k], v, Pending) && DepsDone(g, trace[k], v) :: Skipped(g, trace, steps, k, v)
  }

  /** A step makes nothing eligible but what it starts or skips. */
  lemma EligibleStep(g: Graph, s: Snapshot, step: Step, s': Snapshot, v: Id)
    requires Safe(g, s) && Next(g, s, step, s') && v in g.nodes && Is(s', v, Pending) && DepsDone(g, s', v)
    ensures Is(s, v, Pending) && (DepsDone(g, s, v) || SkippedBy(g, s, step, v))
    ensures step.StartOp? ==> DepsDone(g, s, v) && (v in Roots(g) ==> SkippedBy(g, s, step, v))
  {
    match step
    case StartOp(batch, r) =>
      LaunchAllStates(s, batch);
      LaunchAllKeepsReady(g, s, batch, v);
    case CompleteOp(node, batch, r) =>
      if Is(s, node, Running) {
        var s1 := MoveTo(s, node, Completed);
        LaunchAllStates(s1, batch);
        LaunchAllKeepsReady(g, s1, batch, v);
        if v !in Succ(g, node) {
          assert node !in Preds(g, v);
        }
      }
    case FailOp(node, r) =>
  }

  lemma SkippedLater(g: Graph, trace: seq<Snapshot>, steps: seq<Step>, k: nat, v: Id)
    requires 0 < k <= |steps| <= |trace|
    requires Skipped(g, trace, steps, k - 1, v) || SkippedBy(g, trace[k - 1], steps[k - 1], v)
    ensures Skipped(g, trace, steps, k, v)
  {
    if Skipped(g, trace, steps, k - 1, v) {
      var i :| 0 <= i < k - 1 && SkippedBy(g, trace[i], steps[i], v);
      assert SkippedBy(g, trace[i], steps[i], v);
    }
  }

  /** Whatever the callbacks return: after the first start, what is eligible and pending was skipped. */
  lemma {:induction false} RunProgressButSkipped(g: Graph, trace: seq<Snapshot>, steps: seq<Step>, k: nat)
    requires IsRun(g, trace, steps) && k < |trace|
    ensures if HasStart(steps[..k]) then ProgressButSkipped(g, trace, steps, k) else Untouched(g, trace[k])
  {
    if k > 0 {
      RunProgressButSkipped(g, trace, steps, k - 1);
      RunIsSafe(g, trace, steps, k - 1);
      var s, step, s' := trace[k - 1], steps[k - 1], trace[k];
      assert Next(g, s, step, s');
      assert steps[..k] == steps[..k - 1] + [step];
      HasStartSnoc(steps[..k - 1], step);
      if HasStart(steps[..k]) {
        forall v | v in g.nodes && Is(s', v, Pending) && DepsDone(g, s', v)
          ensures Skipped(g, trace, steps, k, v)
        {
          EligibleStep(g, s, step, s', v);
          if !HasStart(steps[..k - 1]) {
            RootOfUntouched(g, s, v);
          }
          SkippedLater(g, trace, steps, k, v);
        }
      }
    }
  }

  lemma RootOfUntouched(g: Graph, s: Snapshot, v: Id)
    requires Untouched(g, s) && v in g.nodes && DepsDone(g, s, v)
    ensures v in Roots(g)
  {
    assert forall u :: u !in Preds(g, v);
  }

  /** The node was skipped and is pending still, or waits for such a node. */
  ghost predicate BehindSkipped(g: Graph, trace: seq<Snapshot>, steps: seq<Step>, v: Id)
    requires |steps| < |trace|
  {
    exists u :: Is(trace[|steps|], u, Pending) && Skipped(g, trace, steps, |steps|, u) && (u == v || Reaches(g, u, v))
  }

  lemma {:induction false} BehindPendingStaysPending(g: Graph, s: Snapshot, w: seq<Id>)
    requires WellFormed(g) && Safe(g, s) && |w| > 0 && IsWalk(g, w) && Is(s, w[0], Pending) && w[|w| - 1] in g.nodes
    ensures Is(s, w[|w| - 1], Pending)
  {
    if |w| > 1 {
      var u, v := w[|w| - 2], w[|w| - 1];
      assert Edge(g, u, v) && u in Preds(g, v) && u in g.nodes;
      BehindPendingStaysPending(g, s, w[..|w| - 1]);
      assert s.states[v] != Pending ==> Is(s, u, Completed);
    }
  }

  lemma BehindSkippedStep(g: Graph, trace: seq<Snapshot>, steps: seq<Step>, u: Id, v: Id)
    requires |steps| < |trace| && Edge(g, u, v) && BehindSkipped(g, trace, steps, u)
    ensures BehindSkipped(g, trace, steps, v)
  {
    var f :| Is(trace[|steps|], f, Pending) && Skipped(g, trace, steps, |steps|, f) && (f == u || Reaches(g, f, u));
    if f == u {
      ReachesSelf(g, u);
    }
    ReachesStep(g, f, u, v);
  }

  lemma EligibleIsBehind(g: Graph, trace: seq<Snapshot>, steps: seq<Step>, v: Id)
    requires |steps| < |trace| && ProgressButSkipped(g, trace, steps, |steps|)
    requires v in g.nodes && Is(trace[|steps|], v, Pending)
    ensures DepsDone(g, trace[|steps|], v) ==> BehindSkipped(g, trace, steps, v)
  {
    if DepsDone(g, trace[|steps|], v) {
      assert Skipped(g, trace, steps, |steps|, v);
    }
  }

  lemma QuietPendingHeld(g: Graph, trace: seq<Snapshot>, steps: seq<Step>)
    requires IsRun(g, trace, steps) && Safe(g, trace[|steps|]) && Quiet(trace[|steps|])
    requires ProgressButSkipped(g, trace, steps, |steps|)
    ensures forall v | v in g.nodes && Is(trace[|steps|], v, Pending) ::
              BehindFailure(g, trace[|steps|], v) || Blocked(g, v) || BehindSkipped(g, trace, steps, v)
  {
    var s := trace[|steps|];
    var stuck := set v | v in g.nodes && Is(s, v, Pending) && !BehindFailure(g, s, v) && !BehindSkipped(g, trace, steps, v);
    forall v | v in stuck
      ensures Preds(g, v) * stuck != {}
    {
      EligibleIsBehind(g, trace, steps, v);
      var u :| u in Preds(g, v) && !Is(s, u, Completed);
      assert Edge(g, u, v) && u in g.nodes;
      if Is(s, u, Failed) || BehindFailure(g, s, u) {
        BehindFailureStep(g, s, u, v);
      }
      if BehindSkipped(g, trace, steps, u) {
        BehindSkippedStep(g, trace, steps, u, v);
      }
      assert u in Preds(g, v) * stuck;
    }
    StuckIsBlocked(g, stuck);
  }

  /**
    Deadlock freedom for every run, whatever the callbacks return. Once it has been started and
    nothing is running, the pending nodes are exactly those behind a failed node, those on or
    behind a cycle, and those that a call skipped when it stopped at an error, with all behind them.
   */
  lemma DeadlockFreedomAnyway(g: Graph, trace: seq<Snapshot>, steps: seq<Step>)
    requires IsRun(g, trace, steps) && HasStart(steps) && Quiet(trace[|steps|])
    ensures forall v | v in g.nodes ::
              Is(trace[|steps|], v, Pending) <==>
              BehindFailure(g, trace[|steps|], v) || Blocked(g, v) || BehindSkipped(g, trace, steps, v)
  {
    var s := trace[|steps|];
    assert steps[..|steps|] == steps;
    RunIsSafe(g, trace, steps, |steps|);
    RunProgressButSkipped(g, trace, steps, |steps|);
    QuietPendingHeld(g, trace, steps);
    forall v | v in g.nodes
      ensures Blocked(g, v) || BehindFailure(g, s, v) || BehindSkipped(g, trace, steps, v) ==> Is(s, v, Pending)
    {
      if Blocked(g, v) || BehindFailure(g, s, v) || BehindSkipped(g, trace, steps, v) {
        HeldIsPending(g, trace, steps, v);
      }
    }
  }

  lemma HeldIsPending(g: Graph, trace: seq<Snapshot>, steps: seq<Step>, v: Id)
    requires IsRun(g, trace, steps) && Safe(g, trace[|steps|]) && v in g.nodes
    requires Blocked(g, v) || BehindFailure(g, trace[|steps|], v) || BehindSkipped(g, trace, steps, v)
    ensures Is(trace[|steps|], v, Pending)
  {
    var s := trace[|steps|];
    if Blocked(g, v) {
      BlockedStaysPending(g, s, v);
    } else if BehindFailure(g, s, v) {
      var f :| f != v && Is(s, f, Failed) && Reaches(g, f, v);
      var w :| WalkFromTo(g, w, f, v);
      BehindFailureStaysPending(g, s, w);
    } else {
      var u :| Is(s, u, Pending) && Skipped(g, trace, steps, |steps|, u) && (u == v || Reaches(g, u, v));
      if u != v {
        var w :| WalkFromTo(g, w, u, v);
        BehindPendingStaysPending(g, s, w);
      }
    }
  }

  // ------------------------------------------------- every topological order can happen

  lemma {:induction false} Enumerate(pool: set<Id>) returns (ids: seq<Id>)
    ensures Lists(ids, pool)
  {
    if pool == {} {
      ids := [];
    } else {
      var x :| x in pool;
      ids := Enumerate(pool - {x});
      ListsSnoc(ids, pool - {x}, x);
      ids := ids + [x];
    }
  }

  lemma {:induction false} LaunchAllOrder(s: Snapshot, batch: seq<Id>)
    ensures CompletionOrder(LaunchAll(s, batch)) == CompletionOrder(s)
  {
    if batch != [] {
      var front, last := batch[..|batch| - 1], batch[|batch| - 1];
      LaunchAllOrder(s, front);
      IdsOfSnoc(LaunchAll(s, front).moves, Move(last, Running), Completed);
    }
  }

  /** The state in which exactly `done` is completed and every enabled node is running. */
  ghost predicate Frontier(g: Graph, s: Snapshot, done: seq<Id>) {
    && s.states.Keys == g.nodes
    && CompletionOrder(s) == done
    && (forall v | v in done :: DepsDone(g, s, v))
    && forall v | v in g.nodes ::
         s.states[v] == if v in done then Completed else if DepsDone(g, s, v) then Running else Pending
  }

  lemma FirstFrontier(g: Graph, s: Snapshot) returns (step: Step, s': Snapshot)
    requires Initial(g, s)
    ensures Next(g, s, step, s') && step.StartOp? && step.result == Ok && Frontier(g, s', [])
  {
    var batch := Enumerate(Roots(g));
    assert forall b | b in batch :: b in SetOf(batch);
    assert forall b | b in Roots(g) :: b in SetOf(batch);
    step, s' := StartOp(batch, Ok), LaunchAll(s, batch);
    LaunchAllStates(s, batch);
    LaunchAllOrder(s, batch);
    forall v | v in g.nodes
      ensures DepsDone(g, s', v) <==> v in batch
    {
      LaunchAllKeepsReady(g, s, batch, v);
      if Preds(g, v) != {} {
        var u :| u in Preds(g, v);
        assert !Is(s, u, Completed);
      } else {
        assert v in Roots(g);
      }
    }
  }

  ghost function Enabled(g: Graph, s: Snapshot, n: Id): set<Id> {
    set v | v in Succ(g, n) && DepsDone(g, s, v)
  }

  lemma ReleaseEnabled(g: Graph, s: Snapshot, done: seq<Id>, n: Id, batch: seq<Id>)
    requires WellFormed(g) && Frontier(g, s, done)
    requires n in g.nodes && n !in done && Preds(g, n) <= SetOf(done)
    requires Lists(batch, Enabled(g, MoveTo(s, n, Completed), n))
    ensures Next(g, s, CompleteOp(n, batch, Ok), LaunchAll(MoveTo(s, n, Completed), batch))
  {
    AfterCompletion(g, s, done, n);
    assert forall b :: b in batch <==> b in SetOf(batch);
  }

  lemma FrontierMoves(g: Graph, s: Snapshot, done: seq<Id>, n: Id, batch: seq<Id>)
    requires WellFormed(g) && Frontier(g, s, done)
    requires n in g.nodes && n !in done && Preds(g, n) <= SetOf(done)
    requires Lists(batch, Enabled(g, MoveTo(s, n, Completed), n))
    ensures Frontier(g, LaunchAll(MoveTo(s, n, Completed), batch), done + [n])
  {
    var s1 := MoveTo(s, n, Completed);
    var s' := LaunchAll(s1, batch);
    AfterCompletion(g, s, done, n);
    assert forall b :: b in batch <==> b in SetOf(batch);
    assert CompletionOrder(s') == done + [n] by {
      IdsOfSnoc(s.moves, Move(n, Completed), Completed);
      LaunchAllOrder(s1, batch);
    }
    LaunchAllStates(s1, batch);
    forall v | v in g.nodes
      ensures DepsDone(g, s', v) <==> DepsDone(g, s1, v)
    {
      LaunchAllKeepsReady(g, s1, batch, v);
    }
    forall v | v in done + [n]
      ensures DepsDone(g, s1, v)
    {
      if v == n {
        assert forall u | u in Preds(g, n) :: u in SetOf(done) && Is(s, u, Completed);
      } else {
        assert DepsDone(g, s, v);
      }
    }
  }

  /** Completing `n` enables nobody but dependents of `n`, and none of those was running. */
  lemma AfterCompletion(g: Graph, s: Snapshot, done: seq<Id>, n: Id)
    requires WellFormed(g) && Frontier(g, s, done)
    requires n in g.nodes && n !in done && Preds(g, n) <= SetOf(done)
    ensures Is(s, n, Running) && n !in Succ(g, n)
    ensures forall v | v in Succ(g, n) :: Is(MoveTo(s, n, Completed), v, Pending)
    ensures forall v | v in g.nodes && v !in Succ(g, n) ::
              DepsDone(g, MoveTo(s, n, Completed), v) <==> DepsDone(g, s, v)
  {
    assert n in Succ(g, n) ==> n in Preds(g, n);
    forall v | v in Succ(g, n)
      ensures Is(MoveTo(s, n, Completed), v, Pending)
    {
      assert n in Preds(g, v) && !Is(s, n, Completed);
      assert !DepsDone(g, s, v);
    }
  }

  lemma NextInOrder(g: Graph, order: seq<Id>, k: nat)
    requires WellFormed(g) && IsTopological(g, order) && k < |order|
    ensures order[k] in g.nodes && order[k] !in order[..k]
    ensures Preds(g, order[k]) <= SetOf(order[..k])
    ensures order[..k + 1] == order[..k] + [order[k]]
  {
    assert order[k] in SetOf(order);
    forall u | u in Preds(g, order[k])
      ensures u in SetOf(order[..k])
    {
      assert Edge(g, u, order[k]) && u in SetOf(order);
      var i :| 0 <= i < |order| && order[i] == u;
      assert order[..k][i] == u;
    }
  }

  /** The run that has only been started. */
  lemma StartedRun(g: Graph) returns (trace: seq<Snapshot>, steps: seq<Step>)
    requires WellFormed(g)
    ensures IsRun(g, trace, steps) && CallbacksSucceed(steps) && HasStart(steps)
    ensures Frontier(g, trace[|steps|], []) && CompletionOrder(trace[|steps|]) == []
  {
    var s := Snapshot(map v | v in g.nodes :: Pending, [], []);
    var step, s' := FirstFrontier(g, s);
    trace, steps := [s, s'], [step];
    assert steps[0].StartOp?;
  }

  /**
    The executor adds no constraint of its own: each prefix of each topological order is
    the completion order of some run in which no callback fails.
   */
  lemma {:induction false} EveryOrderHappens(g: Graph, order: seq<Id>, k: nat)
    returns (trace: seq<Snapshot>, steps: seq<Step>)
    requires WellFormed(g) && IsTopological(g, order) && k <= |order|
    ensures IsRun(g, trace, steps) && CallbacksSucceed(steps) && HasStart(steps)
    ensures Frontier(g, trace[|steps|], order[..k]) && CompletionOrder(trace[|steps|]) == order[..k]
    ensures k == |order| ==> Quiet(trace[|steps|])
  {
    if k == 0 {
      trace, steps := StartedRun(g);
      assert order[..0] == [];
    } else {
      trace, steps := EveryOrderHappens(g, order, k - 1);
      trace, steps := OneMore(g, order, k - 1, trace, steps);
    }
    assert k == |order| ==> order[..k] == order && forall v | v in g.nodes :: v in SetOf(order);
  }

  lemma OneMore(g: Graph, order: seq<Id>, k: nat, trace: seq<Snapshot>, steps: seq<Step>)
    returns (trace': seq<Snapshot>, steps': seq<Step>)
    requires WellFormed(g) && IsTopological(g, order) && k < |order|
    requires IsRun(g, trace, steps) && CallbacksSucceed(steps) && HasStart(steps)
    requires Frontier(g, trace[|steps|], order[..k])
    ensures IsRun(g, trace', steps') && CallbacksSucceed(steps') && HasStart(steps')
    ensures Frontier(g, trace'[|steps'|], order[..k + 1])
  {
    var s, n := trace[|steps|], order[k];
    NextInOrder(g, order, k);
    var batch := Enumerate(Enabled(g, MoveTo(s, n, Completed), n));
    var step, s' := CompleteOp(n, batch, Ok), LaunchAll(MoveTo(s, n, Completed), batch);
    assert Next(g, s, step, s') by {
      ReleaseEnabled(g, s, order[..k], n, batch);
    }
    assert Frontier(g, s', order[..k + 1]) by {
      FrontierMoves(g, s, order[..k], n, batch);
    }
    HasStartSnoc(steps, step);
    ExtendRun(g, trace, steps, step, s');
    trace', steps' := trace + [s'], steps + [step];
  }

  lemma ExtendRun(g: Graph, trace: seq<Snapshot>, steps: seq<Step>, step: Step, s': Snapshot)
    requires IsRun(g, trace, steps) && Next(g, trace[|steps|], step, s')
    ensures IsRun(g, trace + [s'], steps + [step])
  {
    var trace', steps' := trace + [s'], steps + [step];
    forall i | 0 <= i < |steps'|
      ensures Next(g, trace'[i], steps'[i], trace'[i + 1])
    {
      if i < |steps| {
        assert Next(g, trace[i], steps[i], trace[i + 1]);
      }
    }
  }
}
