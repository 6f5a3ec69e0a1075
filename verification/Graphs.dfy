/**
  Finite directed graphs as the workflow package builds them. An edge (u, v) means that
  node v depends on node u, as in the `edges[dependsOn][node]` layout of the Go type.
  The module gives the two independent readings of "schedulable" used by the rest of the
  project, acyclicity and existence of a topological order, and the pigeonhole argument
  that ties a set of stuck nodes to a real cycle.
 */
module Graphs {
  type Id = string

  datatype Graph = Graph(nodes: set<Id>, edges: map<Id, set<Id>>)

  predicate WellFormed(g: Graph) {
    && g.edges.Keys <= g.nodes
    && forall u | u in g.edges :: g.edges[u] <= g.nodes
  }

  predicate Edge(g: Graph, u: Id, v: Id) {
    u in g.edges && v in g.edges[u]
  }

  /** The nodes that depend on `u`; a missing map entry reads as the empty set. */
  function Succ(g: Graph, u: Id): set<Id> {
    if u in g.edges then g.edges[u] else {}
  }

  /** The dependencies of `v`. */
  function Preds(g: Graph, v: Id): set<Id> {
    set u | u in g.edges && v in g.edges[u]
  }

  // ---------------------------------------------------------------- sequences

  ghost predicate Distinct<T>(s: seq<T>) {
    forall i, j :: 0 <= i < j < |s| ==> s[i] != s[j]
  }

  function SetOf<T(==)>(s: seq<T>): set<T> {
    set x | x in s
  }

  lemma SetOfSnoc<T>(s: seq<T>, x: T)
    ensures SetOf(s + [x]) == SetOf(s) + {x}
  {
    assert forall y :: y in s + [x] <==> y in s || y == x;
  }

  lemma {:induction false} DistinctCard<T>(s: seq<T>)
    requires Distinct(s)
    ensures |SetOf(s)| == |s|
  {
    if s != [] {
      var front, last := s[..|s| - 1], s[|s| - 1];
      assert s == front + [last];
      DistinctCard(front);
      SetOfSnoc(front, last);
    }
  }

  lemma SubsetCard<T>(a: set<T>, b: set<T>)
    requires a <= b
    ensures |a| <= |b|
    ensures |a| == |b| ==> a == b
  {
    assert b == a + (b - a);
    assert |b| == |a| + |b - a|;
  }

  lemma DistinctBound<T>(s: seq<T>, bound: set<T>)
    requires Distinct(s) && SetOf(s) <= bound
    ensures |s| <= |bound|
  {
    DistinctCard(s);
    SubsetCard(SetOf(s), bound);
  }

  // ------------------------------------------------------------ walks, cycles

  ghost predicate IsWalk(g: Graph, p: seq<Id>) {
    forall i, j :: 0 <= i < j < |p| && j == i + 1 ==> Edge(g, p[i], p[j])
  }

  /** A closed walk with at least one edge; a self-loop is the cycle [a, a]. */
  ghost predicate IsCycle(g: Graph, c: seq<Id>) {
    |c| >= 2 && c[0] == c[|c| - 1] && IsWalk(g, c)
  }

  ghost predicate Acyclic(g: Graph) {
    forall c :: !IsCycle(g, c)
  }

  ghost predicate WalkFromTo(g: Graph, w: seq<Id>, u: Id, v: Id) {
    |w| > 0 && w[0] == u && w[|w| - 1] == v && IsWalk(g, w)
  }

  ghost predicate Reaches(g: Graph, u: Id, v: Id) {
    exists w :: WalkFromTo(g, w, u, v)
  }

  /** `v` is on a cycle or downstream of one. */
  ghost predicate Blocked(g: Graph, v: Id) {
    exists c :: IsCycle(g, c) && Reaches(g, c[0], v)
  }

  /** The list holds every node once, dependencies before dependents. */
  ghost predicate IsTopological(g: Graph, order: seq<Id>) {
    && Distinct(order)
    && SetOf(order) == g.nodes
    && forall i, j :: 0 <= i < |order| && 0 <= j < |order| && Edge(g, order[i], order[j]) ==> i < j
  }

  /** Every element's dependencies stand before it in the list. */
  ghost predicate Grounded(g: Graph, order: seq<Id>) {
    forall i :: 0 <= i < |order| ==> Preds(g, order[i]) <= SetOf(order[..i])
  }

  lemma GroundedSnoc(g: Graph, order: seq<Id>, n: Id)
    requires Grounded(g, order) && Preds(g, n) <= SetOf(order)
    ensures Grounded(g, order + [n])
  {
    forall i | 0 <= i < |order| + 1
      ensures Preds(g, (order + [n])[i]) <= SetOf((order + [n])[..i])
    {
      assert (order + [n])[..i] == order[..i];
      if i == |order| {
        assert order[..i] == order;
      }
    }
  }

  lemma GroundedIsTopological(g: Graph, order: seq<Id>)
    requires Grounded(g, order) && Distinct(order) && SetOf(order) == g.nodes
    ensures IsTopological(g, order)
  {
    forall i, j | 0 <= i < |order| && 0 <= j < |order| && Edge(g, order[i], order[j])
      ensures i < j
    {
      assert order[i] in Preds(g, order[j]);
      assert order[i] in order[..j];
    }
  }

  lemma WalkSnoc(g: Graph, w: seq<Id>, v: Id)
    requires |w| > 0 && IsWalk(g, w) && Edge(g, w[|w| - 1], v)
    ensures IsWalk(g, w + [v])
  {
  }

  lemma ReachesStep(g: Graph, u: Id, v: Id, t: Id)
    requires Reaches(g, u, v) && Edge(g, v, t)
    ensures Reaches(g, u, t)
  {
    var w :| WalkFromTo(g, w, u, v);
    WalkSnoc(g, w, t);
    assert WalkFromTo(g, w + [t], u, t);
  }

  lemma ReachesSelf(g: Graph, u: Id)
    ensures Reaches(g, u, u)
  {
    assert WalkFromTo(g, [u], u, u);
  }

  /** Along a walk the position in a topological order strictly increases. */
  lemma {:induction false} WalkClimbs(g: Graph, order: seq<Id>, w: seq<Id>, i: nat, j: nat)
    requires IsTopological(g, order) && WellFormed(g) && IsWalk(g, w) && |w| >= 2
    requires i < |order| && j < |order| && order[i] == w[0] && order[j] == w[|w| - 1]
    ensures i < j
  {
    var k := |w| - 2;
    assert Edge(g, w[k], w[k + 1]);
    assert w[k] in SetOf(order);
    var m :| 0 <= m < |order| && order[m] == w[k];
    if k > 0 {
      WalkClimbs(g, order, w[..k + 1], i, m);
    }
  }

  lemma TopologicalIsAcyclic(g: Graph, order: seq<Id>)
    requires WellFormed(g) && IsTopological(g, order)
    ensures Acyclic(g)
  {
    forall c | IsCycle(g, c)
      ensures false
    {
      assert Edge(g, c[0], c[1]);
      assert c[0] in SetOf(order);
      var i :| 0 <= i < |order| && order[i] == c[0];
      WalkClimbs(g, order, c, i, i);
    }
  }

  /**
    Pigeonhole. If every member of `stuck` has a dependency inside `stuck`, then walking
    backwards from any member must revisit a node, which yields a cycle inside `stuck`
    and a walk from it to the starting member.
   */
  lemma {:induction false} WalkBack(g: Graph, stuck: set<Id>, p: seq<Id>) returns (c: seq<Id>, w: seq<Id>)
    requires |p| > 0 && IsWalk(g, p) && Distinct(p) && SetOf(p) <= stuck
    requires forall v | v in stuck :: Preds(g, v) * stuck != {}
    ensures IsCycle(g, c) && SetOf(c) <= stuck
    ensures WalkFromTo(g, w, c[0], p[|p| - 1])
    decreases |stuck| - |p|
  {
    DistinctBound(p, stuck);
    assert p[0] in SetOf(p);
    var u :| u in Preds(g, p[0]) * stuck;
    var q := [u] + p;
    assert IsWalk(g, q);
    if u in p {
      var k :| 0 <= k < |p| && p[k] == u;
      c := q[..k + 2];
      w := p[k..];
      assert forall x | x in c :: x in q;
      assert forall x | x in q :: x == u || x in SetOf(p);
    } else {
      assert forall x | x in q :: x == u || x in SetOf(p);
      DistinctBound(q, stuck);
      c, w := WalkBack(g, stuck, q);
    }
  }

  /** Nodes that hold each other up are exactly what a cycle produces. */
  lemma StuckIsBlocked(g: Graph, stuck: set<Id>)
    requires forall v | v in stuck :: Preds(g, v) * stuck != {}
    ensures forall v | v in stuck :: Blocked(g, v)
    ensures stuck != {} ==> exists c :: IsCycle(g, c) && SetOf(c) <= stuck
  {
    forall v | v in stuck
      ensures Blocked(g, v) && exists c :: IsCycle(g, c) && SetOf(c) <= stuck
    {
      assert SetOf([v]) == {v};
      var c, w := WalkBack(g, stuck, [v]);
      assert Reaches(g, c[0], v);
    }
  }

  /** A blocked node always has a blocked dependency. */
  lemma BlockedHasBlockedPred(g: Graph, v: Id) returns (u: Id)
    requires Blocked(g, v)
    ensures Edge(g, u, v) && Blocked(g, u)
  {
    var c :| IsCycle(g, c) && Reaches(g, c[0], v);
    var w :| WalkFromTo(g, w, c[0], v);
    if |w| > 1 {
      u := w[|w| - 2];
      assert WalkFromTo(g, w[..|w| - 1], c[0], u);
    } else {
      u := c[|c| - 2];
      assert Edge(g, c[|c| - 2], c[|c| - 1]);
      assert WalkFromTo(g, c[..|c| - 1], c[0], u);
    }
  }

  /** Nothing in a grounded list is blocked. */
  lemma {:induction false} GroundedNotBlocked(g: Graph, order: seq<Id>, k: nat)
    requires Grounded(g, order) && k < |order|
    ensures !Blocked(g, order[k])
    decreases k
  {
    if Blocked(g, order[k]) {
      var u := BlockedHasBlockedPred(g, order[k]);
      assert u in Preds(g, order[k]);
      assert u in order[..k];
      var j :| 0 <= j < k && order[j] == u;
      GroundedNotBlocked(g, order, j);
    }
  }

  /** No blocked node is the same as no cycle. */
  lemma AcyclicIffNoneBlocked(g: Graph)
    requires WellFormed(g)
    ensures Acyclic(g) <==> forall v | v in g.nodes :: !Blocked(g, v)
  {
    forall c | IsCycle(g, c)
      ensures exists v :: v in g.nodes && Blocked(g, v)
    {
      assert Edge(g, c[0], c[1]);
      ReachesSelf(g, c[0]);
      assert Blocked(g, c[0]);
    }
  }
}
