/**
  The DAG type of internal/workflow/dag.go. The two Go maps are fields that the methods
  reassign. Go iterates maps in an arbitrary order; every such loop takes an arbitrary
  remaining key.
 */
module Dag {
  import opened Graphs

  datatype AddResult = Added | NodeNotFound | DependencyNotFound

  datatype OrderResult = Order(order: seq<Id>) | CycleDetected

  /** The graph after AddNode. */
  function WithNode(g: Graph, id: Id): Graph {
    if id in g.nodes then g
    else Graph(g.nodes + {id}, if id in g.edges then g.edges else g.edges[id := {}])
  }

  /** The graph after a successful AddDependency. */
  function WithEdge(g: Graph, node: Id, dependsOn: Id): Graph {
    g.(edges := g.edges[dependsOn := Succ(g, dependsOn) + {node}])
  }

  /** AddNode adds a node and no edge; AddDependency adds exactly one edge and no node. */
  lemma ConstructionEdges(g: Graph, a: Id, b: Id, u: Id, v: Id)
    ensures WithNode(g, a).nodes == g.nodes + {a}
    ensures Edge(WithNode(g, a), u, v) <==> Edge(g, u, v)
    ensures WithEdge(g, a, b).nodes == g.nodes
    ensures Edge(WithEdge(g, a, b), u, v) <==> Edge(g, u, v) || (u == b && v == a)
    ensures WellFormed(g) ==> WellFormed(WithNode(g, a))
    ensures WellFormed(g) && a in g.nodes && b in g.nodes ==> WellFormed(WithEdge(g, a, b))
  {
    if a in g.nodes {
      assert g.nodes + {a} == g.nodes;
    }
  }

  // ------------------------------------------------- Kahn's loop, on values

  /** How many dependencies of each node are not in `done`. */
  ghost function Needs(g: Graph, done: set<Id>): map<Id, int> {
    map v | v in g.nodes :: |Preds(g, v) - done|
  }

  /** The counters, when the nodes in `credit` have one decrement outstanding. */
  ghost predicate Degrees(indegree: map<Id, int>, need: map<Id, int>, credit: set<Id>) {
    && indegree.Keys == need.Keys
    && forall v {:trigger indegree[v]} {:trigger need[v]} | v in need ::
         indegree[v] == need[v] + (if v in credit then 1 else 0)
  }

  /** Order and queue together hold, once each, the nodes whose counter is zero. */
  ghost predicate Settled(indegree: map<Id, int>, order: seq<Id>, queue: seq<Id>) {
    && Distinct(order + queue)
    && (forall v | v in order + queue :: v in indegree)
    && (forall v {:trigger indegree[v]} | v in indegree :: indegree[v] == 0 <==> v in order + queue)
  }

  lemma EmptyDifference<T>(a: set<T>, b: set<T>)
    ensures |a - b| == 0 <==> a <= b
  {
    if |a - b| == 0 {
      assert a - b == {};
      forall x | x in a
        ensures x in b
      {
        assert x !in a - b;
      }
    }
    if a <= b {
      assert a - b == {};
    }
  }

  /** Removing `n` from the open dependencies costs a dependent one and anybody else nothing. */
  lemma OpenAfter(g: Graph, done: set<Id>, n: Id, v: Id)
    requires n !in done
    ensures |Preds(g, v) - done| == |Preds(g, v) - (done + {n})| + (if v in Succ(g, n) then 1 else 0)
  {
    var before, after := Preds(g, v) - done, Preds(g, v) - (done + {n});
    if v in Succ(g, n) {
      assert n in before && after == before - {n};
    } else {
      assert after == before;
    }
  }

  /** The counters, when the edges to `owed` are still to be counted. */
  ghost predicate CountedExcept(indegree: map<Id, int>, need: map<Id, int>, owed: set<Id>) {
    && indegree.Keys == need.Keys && owed <= need.Keys
    && forall v {:trigger indegree[v]} {:trigger need[v]} | v in need ::
         indegree[v] == need[v] - (if v in owed then 1 else 0)
  }

  lemma NothingCounted(g: Graph)
    ensures Degrees(map v | v in g.nodes :: 0, Needs(g, g.edges.Keys), {})
  {
    forall v | v in g.nodes
      ensures |Preds(g, v) - g.edges.Keys| == 0
    {
      EmptyDifference(Preds(g, v), g.edges.Keys);
    }
  }

  lemma CountSource(g: Graph, froms: set<Id>, from: Id, need: map<Id, int>, indegree: map<Id, int>)
    requires WellFormed(g) && from in froms && from in g.edges
    requires need == Needs(g, froms) && Degrees(indegree, need, {})
    ensures CountedExcept(indegree, Needs(g, froms - {from}), g.edges[from])
  {
    assert froms - {from} + {from} == froms;
    forall v | v in g.nodes
      ensures indegree[v] == |Preds(g, v) - (froms - {from})| - (if v in g.edges[from] then 1 else 0)
    {
      OpenAfter(g, froms - {from}, from, v);
    }
  }

  lemma CountOne(indegree: map<Id, int>, need: map<Id, int>, owed: set<Id>, to: Id)
    requires CountedExcept(indegree, need, owed) && to in owed
    ensures CountedExcept(indegree[to := indegree[to] + 1], need, owed - {to})
  {
  }

  lemma ZeroMeansSettled(g: Graph, indegree: map<Id, int>, order: seq<Id>, queue: seq<Id>, v: Id)
    requires Degrees(indegree, Needs(g, SetOf(order)), {}) && Settled(indegree, order, queue)
    requires v in order + queue
    ensures Preds(g, v) <= SetOf(order)
  {
    assert indegree[v] == 0;
    EmptyDifference(Preds(g, v), SetOf(order));
  }

  /** Ordering `n` leaves one decrement owed to each dependent. */
  lemma PopDegrees(g: Graph, indegree: map<Id, int>, done: set<Id>, n: Id)
    requires Degrees(indegree, Needs(g, done), {}) && n !in done
    ensures Degrees(indegree, Needs(g, done + {n}), Succ(g, n))
  {
    forall v | v in g.nodes
      ensures indegree[v] == Needs(g, done + {n})[v] + (if v in Succ(g, n) then 1 else 0)
    {
      OpenAfter(g, done, n, v);
    }
  }

  lemma PopSettled(indegree: map<Id, int>, order: seq<Id>, queue: seq<Id>)
    requires Settled(indegree, order, queue) && queue != []
    ensures Settled(indegree, order + [queue[0]], queue[1..])
    ensures queue[0] !in SetOf(order) && queue[0] in order + queue
  {
    assert (order + [queue[0]]) + queue[1..] == order + queue;
    assert (order + queue)[|order|] == queue[0];
    assert forall i | 0 <= i < |order| :: (order + queue)[i] == order[i];
  }

  /** One pass of the inner loop pays the decrement of `to`, enqueueing it at zero. */
  lemma PayOne(need: map<Id, int>, indegree: map<Id, int>, order: seq<Id>, queue: seq<Id>, credit: set<Id>, to: Id)
    requires Degrees(indegree, need, credit) && Settled(indegree, order, queue)
    requires to in credit && to in need && need[to] >= 0
    ensures var deg := indegree[to := indegree[to] - 1];
            && Degrees(deg, need, credit - {to})
            && Settled(deg, order, if deg[to] == 0 then queue + [to] else queue)
  {
    var deg := indegree[to := indegree[to] - 1];
    assert indegree[to] >= 1;
    assert to !in order + queue;
    if deg[to] == 0 {
      assert order + (queue + [to]) == (order + queue) + [to];
    }
  }

  /** A node the loop never settled still waits for another such node. */
  lemma LeftoverWaits(g: Graph, indegree: map<Id, int>, order: seq<Id>)
    requires WellFormed(g)
    requires Degrees(indegree, Needs(g, SetOf(order)), {}) && Settled(indegree, order, [])
    ensures forall v | v in g.nodes && v !in order :: Preds(g, v) * (g.nodes - SetOf(order)) != {}
  {
    assert order + [] == order;
    forall v | v in g.nodes && v !in order
      ensures Preds(g, v) * (g.nodes - SetOf(order)) != {}
    {
      assert indegree[v] != 0;
      EmptyDifference(Preds(g, v), SetOf(order));
      var u :| u in Preds(g, v) && u !in SetOf(order);
      assert u in Preds(g, v) * (g.nodes - SetOf(order));
    }
  }

  lemma OrderFits(g: Graph, indegree: map<Id, int>, order: seq<Id>, queue: seq<Id>)
    requires indegree.Keys == g.nodes && Settled(indegree, order, queue)
    ensures Distinct(order) && SetOf(order) <= g.nodes && |order| <= |g.nodes|
  {
    assert forall i | 0 <= i < |order| :: order[i] == (order + queue)[i];
    DistinctBound(order, g.nodes);
  }

  /** A grounded list whose complement holds itself up has exactly the unblocked nodes. */
  lemma PeeledExactly(g: Graph, order: seq<Id>)
    requires WellFormed(g) && Grounded(g, order) && SetOf(order) <= g.nodes
    requires forall v | v in g.nodes && v !in order :: Preds(g, v) * (g.nodes - SetOf(order)) != {}
    ensures forall v | v in g.nodes :: v in order <==> !Blocked(g, v)
    ensures SetOf(order) != g.nodes ==> exists c :: IsCycle(g, c) && SetOf(c) <= g.nodes - SetOf(order)
  {
    var left := g.nodes - SetOf(order);
    StuckIsBlocked(g, left);
    forall v | v in order
      ensures !Blocked(g, v)
    {
      var k :| 0 <= k < |order| && order[k] == v;
      GroundedNotBlocked(g, order, k);
    }
    EmptyDifference(g.nodes, SetOf(order));
  }

  /** Comparing lengths decides acyclicity. */
  lemma OutcomeAgrees(g: Graph, order: seq<Id>)
    requires WellFormed(g) && Distinct(order) && Grounded(g, order) && SetOf(order) <= g.nodes
    requires forall v | v in g.nodes :: v in order <==> !Blocked(g, v)
    ensures |order| == |g.nodes| <==> SetOf(order) == g.nodes
    ensures |order| == |g.nodes| <==> Acyclic(g)
    ensures |order| == |g.nodes| <==> exists o :: IsTopological(g, o)
    ensures |order| == |g.nodes| ==> IsTopological(g, order)
  {
    DistinctCard(order);
    SubsetCard(SetOf(order), g.nodes);
    AcyclicIffNoneBlocked(g);
    if |order| == |g.nodes| {
      GroundedIsTopological(g, order);
    } else {
      EmptyDifference(g.nodes, SetOf(order));
      var v :| v in g.nodes && v !in SetOf(order);
      assert Blocked(g, v);
    }
    forall o | IsTopological(g, o)
      ensures Acyclic(g)
    {
      TopologicalIsAcyclic(g, o);
    }
  }

  /** What the finished loop knows. */
  ghost predicate Outcome(g: Graph, order: seq<Id>, complete: bool) {
    && (complete <==> Acyclic(g))
    && (complete <==> exists o :: IsTopological(g, o))
    && (complete ==> IsTopological(g, order))
    && (!complete ==> exists c :: IsCycle(g, c) && SetOf(c) <= g.nodes - SetOf(order))
    && Distinct(order) && Grounded(g, order)
    && (forall v :: v in order <==> v in g.nodes && !Blocked(g, v))
  }

  lemma LoopOutcome(g: Graph, indegree: map<Id, int>, order: seq<Id>)
    requires WellFormed(g) && Grounded(g, order)
    requires Degrees(indegree, Needs(g, SetOf(order)), {}) && Settled(indegree, order, [])
    ensures Outcome(g, order, |order| == |g.nodes|)
  {
    OrderFits(g, indegree, order, []);
    LeftoverWaits(g, indegree, order);
    PeeledExactly(g, order);
    OutcomeAgrees(g, order);
    assert forall v | v in order :: v in SetOf(order);
  }

  /** The invariant of the main loop. */
  ghost predicate KahnState(g: Graph, indegree: map<Id, int>, order: seq<Id>, queue: seq<Id>) {
    && Grounded(g, order) && |order| <= |g.nodes|
    && Releasing(Needs(g, SetOf(order)), indegree, order, queue, {})
  }

  /** The invariant of the inner loop. */
  ghost predicate Releasing(need: map<Id, int>, indegree: map<Id, int>, order: seq<Id>, queue: seq<Id>, credit: set<Id>) {
    && Degrees(indegree, need, credit) && Settled(indegree, order, queue)
    && credit <= need.Keys && forall v | v in need :: need[v] >= 0
  }

  lemma TakeHead(g: Graph, indegree: map<Id, int>, order: seq<Id>, queue: seq<Id>)
    requires WellFormed(g) && KahnState(g, indegree, order, queue) && queue != []
    ensures Grounded(g, order + [queue[0]]) && |order + [queue[0]]| <= |g.nodes|
  {
    PopSettled(indegree, order, queue);
    OrderFits(g, indegree, order + [queue[0]], queue[1..]);
    ZeroMeansSettled(g, indegree, order, queue, queue[0]);
    GroundedSnoc(g, order, queue[0]);
  }

  lemma ReleaseHead(g: Graph, indegree: map<Id, int>, order: seq<Id>, queue: seq<Id>)
    requires WellFormed(g) && KahnState(g, indegree, order, queue) && queue != []
    ensures Releasing(Needs(g, SetOf(order + [queue[0]])), indegree, order + [queue[0]], queue[1..], Succ(g, queue[0]))
  {
    PopSettled(indegree, order, queue);
    SetOfSnoc(order, queue[0]);
    PopDegrees(g, indegree, SetOf(order), queue[0]);
  }

  /** The initial queue: the nodes with no dependency. */
  method Sources(indegree: map<Id, int>) returns (queue: seq<Id>)
    ensures Distinct(queue)
    ensures forall v :: v in queue <==> v in indegree && indegree[v] == 0
  {
    queue := [];
    var rest := indegree.Keys;
    while rest != {}
      invariant rest <= indegree.Keys && Distinct(queue)
      invariant forall v :: v in queue <==> v in indegree.Keys - rest && indegree[v] == 0
    {
      var n :| n in rest;
      if indegree[n] == 0 {
        queue := queue + [n];
      }
      rest := rest - {n};
    }
  }

  /** The inner loop: one decrement for each dependent of the node just ordered. */
  method Release(dependents: set<Id>, indegree0: map<Id, int>, queue0: seq<Id>, ghost order: seq<Id>, ghost need: map<Id, int>)
    returns (indegree: map<Id, int>, queue: seq<Id>)
    requires Releasing(need, indegree0, order, queue0, dependents)
    ensures Releasing(need, indegree, order, queue, {})
  {
    indegree, queue := indegree0, queue0;
    var tos := dependents;
    while tos != {}
      invariant tos <= dependents
      invariant Releasing(need, indegree, order, queue, tos)
    {
      var to :| to in tos;
      PayOne(need, indegree, order, queue, tos, to);
      indegree := indegree[to := indegree[to] - 1];
      if indegree[to] == 0 {
        queue := queue + [to];
      }
      tos := tos - {to};
    }
  }

  class DAG {
    var nodes: set<Id>
    var edges: map<Id, set<Id>>

    function Value(): Graph
      reads this
    {
      Graph(nodes, edges)
    }

    ghost predicate Valid()
      reads this
    {
      WellFormed(Value())
    }

    constructor ()
      ensures Valid() && Value() == Graph({}, map[])
    {
      nodes, edges := {}, map[];
    }

    method AddNode(id: Id)
      requires Valid()
      modifies this
      ensures Valid() && Value() == WithNode(old(Value()), id)
    {
      if id in nodes {
        return;
      }
      nodes := nodes + {id};
      if id !in edges {
        edges := edges[id := {}];
      }
    }

    method AddDependency(node: Id, dependsOn: Id) returns (r: AddResult)
      requires Valid()
      modifies this
      ensures Valid()
      ensures r == if node !in old(nodes) then NodeNotFound
                   else if dependsOn !in old(nodes) then DependencyNotFound
                   else Added
      ensures Value() == if r == Added then WithEdge(old(Value()), node, dependsOn) else old(Value())
    {
      if node !in nodes {
        return NodeNotFound;
      }
      if dependsOn !in nodes {
        return DependencyNotFound;
      }
      if dependsOn !in edges {
        edges := edges[dependsOn := {}];
      }
      edges := edges[dependsOn := edges[dependsOn] + {node}];
      return Added;
    }

    /** Every dependency, each once. */
    method Dependencies(nodeID: Id) returns (deps: seq<Id>)
      ensures Distinct(deps) && SetOf(deps) == Preds(Value(), nodeID)
    {
      deps := [];
      var froms := edges.Keys;
      while froms != {}
        invariant froms <= edges.Keys
        invariant Distinct(deps)
        invariant forall u :: u in deps <==> u in edges && u !in froms && nodeID in edges[u]
      {
        var from :| from in froms;
        var tos := edges[from];
        while tos != {}
          invariant tos <= edges[from]
          invariant Distinct(deps)
          invariant forall u :: u in deps <==>
            || (u in edges && u !in froms && nodeID in edges[u])
            || (u == from && nodeID in edges[from] - tos)
        {
          var to :| to in tos;
          if to == nodeID {
            deps := deps + [from];
          }
          tos := tos - {to};
        }
        froms := froms - {from};
      }
    }

    /** Every dependent, each once. */
    method Dependents(nodeID: Id) returns (deps: seq<Id>)
      ensures Distinct(deps) && SetOf(deps) == Succ(Value(), nodeID)
    {
      deps := [];
      var tos := Succ(Value(), nodeID);
      while tos != {}
        invariant tos <= Succ(Value(), nodeID)
        invariant Distinct(deps) && SetOf(deps) == Succ(Value(), nodeID) - tos
      {
        var to :| to in tos;
        SetOfSnoc(deps, to);
        assert to !in SetOf(deps);
        deps := deps + [to];
        tos := tos - {to};
      }
    }

    /** The in-degree counters before the main loop. */
    method CountDegrees() returns (indegree: map<Id, int>)
      requires Valid()
      ensures Degrees(indegree, Needs(Value(), {}), {})
    {
      var g := Value();
      indegree := map n | n in nodes :: 0;
      var froms := edges.Keys;
      ghost var need := Needs(g, froms);
      NothingCounted(g);
      while froms != {}
        invariant froms <= edges.Keys && need == Needs(g, froms)
        invariant Degrees(indegree, need, {})
      {
        var from :| from in froms;
        var tos := edges[from];
        CountSource(g, froms, from, need, indegree);
        need := Needs(g, froms - {from});
        while tos != {}
          invariant tos <= edges[from]
          invariant CountedExcept(indegree, need, tos)
        {
          var to :| to in tos;
          CountOne(indegree, need, tos, to);
          indegree := indegree[to := indegree[to] + 1];
          tos := tos - {to};
        }
        froms := froms - {from};
      }
    }

    /**
      Kahn's algorithm. It succeeds exactly on acyclic graphs, with a topological order;
      in every case the nodes it peeled off are the ones that no cycle holds up.
     */
    method TopologicalOrder() returns (r: OrderResult, ghost peeled: seq<Id>)
      requires Valid()
      ensures r.Order? <==> Acyclic(Value())
      ensures r.Order? ==> r.order == peeled && IsTopological(Value(), r.order)
      ensures Outcome(Value(), peeled, r.Order?)
    {
      var g := Value();
      var indegree := CountDegrees();

      var queue := Sources(indegree);

      var order: seq<Id> := [];
      assert order + queue == queue && SetOf(order) == {};
      while queue != []
        invariant KahnState(g, indegree, order, queue)
        decreases |g.nodes| - |order|
      {
        TakeHead(g, indegree, order, queue);
        ReleaseHead(g, indegree, order, queue);
        var n := queue[0];
        queue := queue[1..];
        order := order + [n];
        indegree, queue := Release(Succ(g, n), indegree, queue, order, Needs(g, SetOf(order)));
      }

      peeled := order;
      LoopOutcome(g, indegree, order);
      if |order| != |nodes| {
        return CycleDetected, peeled;
      }
      return Order(order), peeled;
    }
  }
}
