/**
  The executor of internal/workflow/executor.go and the Workflow type of workflow.go that
  owns the graph, the state machine and the executor. A call holds the mutex throughout,
  so each method is one atomic step; its contract is the step relation of module Schedule.
 */
module Executors {
  import opened Graphs
  import opened Dag
  import opened NodeStates
  import opened Schedule

  /** The onNodeReady callback: it is told which node to start, and may fail. */
  class ReadyHook {
    var calls: seq<Id>
    ghost var failures: nat

    constructor ()
      ensures calls == [] && failures == 0
    {
      calls, failures := [], 0;
    }

    method Invoke(nodeID: Id) returns (ok: bool)
      modifies this
      ensures calls == old(calls) + [nodeID]
      ensures failures == old(failures) + if ok then 0 else 1
    {
      calls := calls + [nodeID];
      ok := *;
      failures := failures + if ok then 0 else 1;
    }
  }

  /** How many callbacks failed during a call with this result: its first failure ends it. */
  function Failures(r: CallResult): nat {
    if r.CallbackFailed? then 1 else 0
  }

  lemma LaunchAllSnoc(s: Snapshot, batch: seq<Id>, id: Id)
    requires forall b | b in batch :: Is(s, b, Pending)
    ensures LaunchAll(s, batch + [id]) == Launch(LaunchAll(s, batch), id)
    ensures Is(LaunchAll(s, batch), id, Pending) <==> Is(s, id, Pending) && id !in batch
  {
    assert (batch + [id])[..|batch|] == batch;
    LaunchAllStates(s, batch);
  }

  lemma AllInSnoc(batch: seq<Id>, pool: set<Id>, id: Id)
    requires AllIn(batch, pool) && id in pool && id !in batch
    ensures AllIn(batch + [id], pool)
    ensures forall b :: b in batch + [id] <==> b in batch || b == id
  {
  }

  class Executor {
    const dag: DAG
    const sm: NodeStateMachine
    const hook: ReadyHook

    constructor (dag: DAG, sm: NodeStateMachine, hook: ReadyHook)
      ensures this.dag == dag && this.sm == sm && this.hook == hook
    {
      this.dag, this.sm, this.hook := dag, sm, hook;
    }

    ghost function Snap(): Snapshot
      reads sm, hook
    {
      Snapshot(sm.states, sm.moves, hook.calls)
    }

    /** A pending node becomes running and its callback runs; any other node is refused. */
    method ReadyNode(nodeID: Id) returns (r: CallResult)
      modifies sm, hook
      ensures Is(old(Snap()), nodeID, Pending) ==>
                Snap() == Launch(old(Snap()), nodeID) && (r == Ok || r == CallbackFailed(nodeID))
      ensures !Is(old(Snap()), nodeID, Pending) ==>
                Snap() == old(Snap()) && r == StartRefused(nodeID)
      ensures hook.failures == old(hook.failures) + Failures(r)
    {
      var ok := sm.Transition(nodeID, Running);
      if !ok {
        return StartRefused(nodeID);
      }
      ok := hook.Invoke(nodeID);
      r := if ok then Ok else CallbackFailed(nodeID);
    }

    method IsNodeReady(nodeID: Id) returns (ready: bool)
      ensures ready == Ready(dag.Value(), Snap(), nodeID)
    {
      var deps := dag.Dependencies(nodeID);
      assert forall u :: u in Preds(dag.Value(), nodeID) <==> u in SetOf(deps);
      for i := 0 to |deps|
        invariant forall j | 0 <= j < i :: Is(Snap(), deps[j], Completed)
      {
        if deps[i] !in sm.states || sm.states[deps[i]] != Completed {
          assert deps[i] in SetOf(deps);
          return false;
        }
      }
      ready := nodeID in sm.states && (sm.states[nodeID] == Pending || sm.states[nodeID] == Running);
    }

    method Start() returns (r: CallResult, ghost batch: seq<Id>)
      modifies sm, hook
      ensures Next(dag.Value(), old(Snap()), StartOp(batch, r), Snap()) && r != Rejected
      ensures hook.failures == old(hook.failures) + Failures(r)
    {
      var g := dag.Value();
      ghost var s := Snap();
      batch := [];
      var rest := dag.nodes;
      while rest != {}
        invariant dag.Value() == g && rest <= g.nodes && hook.failures == old(hook.failures)
        invariant AllIn(batch, Roots(g)) && (forall b | b in batch :: Is(s, b, Pending) && b !in rest)
        invariant Snap() == LaunchAll(s, batch)
        invariant forall v | v in Roots(g) && v !in rest :: v in batch
      {
        var nodeID :| nodeID in rest;
        rest := rest - {nodeID};
        var deps := dag.Dependencies(nodeID);
        assert deps == [] <==> Preds(g, nodeID) == {} by {
          DistinctCard(deps);
        }
        if |deps| == 0 {
          LaunchAllSnoc(s, batch, nodeID);
          r := ReadyNode(nodeID);
          if r != StartRefused(nodeID) {
            AllInSnoc(batch, Roots(g), nodeID);
            batch := batch + [nodeID];
          }
          if r != Ok {
            return;
          }
        }
      }
      r := Ok;
    }

    method MarkNodeCompleted(nodeID: Id) returns (r: CallResult, ghost batch: seq<Id>)
      modifies sm, hook
      ensures Next(dag.Value(), old(Snap()), CompleteOp(nodeID, batch, r), Snap())
      ensures r == Rejected <==> nodeID !in old(sm.states) || old(sm.states)[nodeID] != Running
      ensures r == Rejected ==> Snap() == old(Snap())
      ensures hook.failures == old(hook.failures) + Failures(r)
    {
      var g := dag.Value();
      batch := [];
      var ok := sm.Transition(nodeID, Completed);
      if !ok {
        return Rejected, [];
      }
      ghost var s := Snap();
      assert s == MoveTo(old(Snap()), nodeID, Completed);
      var dependents := dag.Dependents(nodeID);
      assert forall v :: v in Succ(g, nodeID) <==> v in SetOf(dependents);
      for i := 0 to |dependents|
        invariant dag.Value() == g && hook.failures == old(hook.failures)
        invariant AllIn(batch, Succ(g, nodeID)) && (forall b | b in batch :: b in dependents[..i])
        invariant forall b | b in batch :: DepsDone(g, s, b) && Is(s, b, Pending)
        invariant Snap() == LaunchAll(s, batch)
        invariant forall v | v in dependents[..i] && Ready(g, s, v) :: v in batch
      {
        var depID := dependents[i];
        assert depID in SetOf(dependents) && depID !in dependents[..i];
        assert dependents[..i + 1] == dependents[..i] + [depID];
        LaunchAllSnoc(s, batch, depID);
        SameReadiness(g, s, batch, depID);
        var ready := IsNodeReady(depID);
        if ready {
          r := ReadyNode(depID);
          if r != StartRefused(depID) {
            AllInSnoc(batch, Succ(g, nodeID), depID);
            batch := batch + [depID];
          }
          if r != Ok {
            return;
          }
        }
      }
      r := Ok;
    }

    method MarkNodeFailed(nodeID: Id) returns (r: CallResult)
      modifies sm
      ensures Next(dag.Value(), old(Snap()), FailOp(nodeID, r), Snap())
      ensures if nodeID in old(sm.states) && old(sm.states)[nodeID] == Running
              then r == Ok && sm.states == old(sm.states)[nodeID := Failed]
              else r == Rejected && Snap() == old(Snap())
    {
      var ok := sm.Transition(nodeID, Failed);
      r := if ok then Ok else Rejected;
    }
  }

  /** Starting other nodes does not change whether `id` is ready. */
  lemma SameReadiness(g: Graph, s: Snapshot, batch: seq<Id>, id: Id)
    requires (forall b | b in batch :: Is(s, b, Pending)) && id !in batch
    ensures Ready(g, LaunchAll(s, batch), id) <==> Ready(g, s, id)
    ensures DepsDone(g, LaunchAll(s, batch), id) <==> DepsDone(g, s, id)
    ensures forall st :: Is(LaunchAll(s, batch), id, st) <==> Is(s, id, st)
  {
    LaunchAllKeepsReady(g, s, batch, id);
    LaunchAllStates(s, batch);
  }

  // ------------------------------------------------------------------ workflow

  datatype TaskResult = TaskAdded | MissingDependency(index: nat)

  /** The graph after the first `k` declared dependencies of `id` were added. */
  function WithDeps(g: Graph, id: Id, deps: seq<Id>): Graph {
    if deps == [] then g else WithEdge(WithDeps(g, id, deps[..|deps| - 1]), id, deps[|deps| - 1])
  }

  lemma {:induction false} WithDepsEdges(g: Graph, id: Id, deps: seq<Id>, u: Id, v: Id)
    ensures WithDeps(g, id, deps).nodes == g.nodes
    ensures Edge(WithDeps(g, id, deps), u, v) <==> Edge(g, u, v) || (v == id && u in deps)
  {
    if deps != [] {
      var front, last := deps[..|deps| - 1], deps[|deps| - 1];
      assert deps == front + [last];
      WithDepsEdges(g, id, front, u, v);
      ConstructionEdges(WithDeps(g, id, front), id, last, u, v);
    }
  }

  class Workflow {
    const dag: DAG
    const sm: NodeStateMachine
    const hook: ReadyHook
    const executor: Executor
    var agentTypes: map<Id, string>

    /** The executor works on this workflow's own graph and states. */
    ghost predicate Wired() {
      executor.dag == dag && executor.sm == sm && executor.hook == hook
    }

    ghost predicate Valid()
      reads this, dag, sm
    {
      && Wired()
      && dag.Valid()
      && sm.states.Keys == dag.nodes && agentTypes.Keys == dag.nodes
    }

    /** Still being built: this is where the runs of module WorkflowTheorems begin. */
    ghost predicate Fresh()
      reads this, dag, sm, hook
    {
      Valid() && Initial(dag.Value(), executor.Snap())
    }

    constructor (hook: ReadyHook)
      requires hook.calls == []
      ensures Fresh() && dag.Value() == Graph({}, map[])
      ensures fresh(dag) && fresh(sm) && this.hook == hook
    {
      var d := new DAG();
      var m := new NodeStateMachine();
      var e := new Executor(d, m, hook);
      dag, sm, executor, agentTypes := d, m, e, map[];
      this.hook := hook;
    }

    /**
      AddTask adds the node, resets its state, and adds its dependencies up to the first
      that is not a node yet; a task may name itself, since its own node is added first.
     */
    method AddTask(id: Id, agentType: string, deps: seq<Id>) returns (r: TaskResult)
      requires Valid()
      modifies this, dag, sm
      ensures Valid() && (old(Fresh()) ==> Fresh())
      ensures match r
              case TaskAdded =>
                && (forall d | d in deps :: d in old(dag.nodes) + {id})
                && dag.Value() == WithDeps(WithNode(old(dag.Value()), id), id, deps)
              case MissingDependency(k) =>
                && k < |deps| && deps[k] !in old(dag.nodes) + {id}
                && (forall d | d in deps[..k] :: d in old(dag.nodes) + {id})
                && dag.Value() == WithDeps(WithNode(old(dag.Value()), id), id, deps[..k])
      ensures sm.states == old(sm.states)[id := Pending]
      ensures agentTypes == old(agentTypes)[id := if agentType == "" then "generic" else agentType]
    {
      dag.AddNode(id);
      sm.InitNode(id);
      agentTypes := agentTypes[id := if agentType == "" then "generic" else agentType];
      r := AddDependencies(id, deps);
    }

    /** The loop of AddTask. */
    method AddDependencies(id: Id, deps: seq<Id>) returns (r: TaskResult)
      requires dag.Valid() && id in dag.nodes
      modifies dag
      ensures dag.Valid() && dag.nodes == old(dag.nodes)
      ensures match r
              case TaskAdded =>
                (forall d | d in deps :: d in dag.nodes) && dag.Value() == WithDeps(old(dag.Value()), id, deps)
              case MissingDependency(k) =>
                && k < |deps| && deps[k] !in dag.nodes && (forall d | d in deps[..k] :: d in dag.nodes)
                && dag.Value() == WithDeps(old(dag.Value()), id, deps[..k])
    {
      ghost var g := dag.Value();
      for i := 0 to |deps|
        invariant dag.Valid() && dag.Value() == WithDeps(g, id, deps[..i])
        invariant dag.nodes == g.nodes
        invariant forall d | d in deps[..i] :: d in g.nodes
      {
        var added := dag.AddDependency(id, deps[i]);
        if added != Added {
          return MissingDependency(i);
        }
        assert deps[..i + 1][..i] == deps[..i];
      }
      assert deps[..|deps|] == deps;
      r := TaskAdded;
    }

    method Start() returns (r: CallResult, ghost batch: seq<Id>)
      requires Wired()
      modifies sm, hook
      ensures Next(dag.Value(), old(executor.Snap()), StartOp(batch, r), executor.Snap())
      ensures hook.failures == old(hook.failures) + Failures(r)
    {
      r, batch := executor.Start();
    }

    method MarkCompleted(nodeID: Id) returns (r: CallResult, ghost batch: seq<Id>)
      requires Wired()
      modifies sm, hook
      ensures Next(dag.Value(), old(executor.Snap()), CompleteOp(nodeID, batch, r), executor.Snap())
      ensures hook.failures == old(hook.failures) + Failures(r)
    {
      r, batch := executor.MarkNodeCompleted(nodeID);
    }

    method MarkFailed(nodeID: Id) returns (r: CallResult)
      requires Wired()
      modifies sm
      ensures Next(dag.Value(), old(executor.Snap()), FailOp(nodeID, r), executor.Snap())
    {
      r := executor.MarkNodeFailed(nodeID);
    }
  }
}
