/**
  What one call of the workflow executor does to its state, stated as a relation on values,
  and what follows for whole runs. The relation leaves open what Go leaves open: the order
  in which maps are iterated and whether the callback fails.
 */
module Schedule {
  import opened Graphs
  import opened NodeStates

  /** Node states, successful transitions, and the nodes the callback was invoked for. */
  datatype Snapshot = Snapshot(states: map<Id, NodeState>, moves: seq<Move>, calls: seq<Id>)

  datatype CallResult =
    | Ok
    | Rejected                  // the node named by the caller could not make its transition
    | StartRefused(node: Id)    // a node chosen by the executor could not become running
    | CallbackFailed(node: Id)  // the ready callback of a node returned an error

  /** One call on the executor, with the nodes it started, in order. */
  datatype Step =
    | StartOp(batch: seq<Id>, result: CallResult)
    | CompleteOp(node: Id, batch: seq<Id>, result: CallResult)
    | FailOp(node: Id, result: CallResult)

  predicate Is(s: Snapshot, id: Id, state: NodeState) {
    id in s.states && s.states[id] == state
  }

  function MoveTo(s: Snapshot, id: Id, state: NodeState): Snapshot {
    s.(states := s.states[id := state], moves := s.moves + [Move(id, state)])
  }

  function Launch(s: Snapshot, id: Id): Snapshot {
    MoveTo(s, id, Running).(calls := s.calls + [id])
  }

  function LaunchAll(s: Snapshot, batch: seq<Id>): Snapshot {
    if batch == [] then s else Launch(LaunchAll(s, batch[..|batch| - 1]), batch[|batch| - 1])
  }

  predicate DepsDone(g: Graph, s: Snapshot, id: Id) {
    forall u | u in Preds(g, id) :: Is(s, u, Completed)
  }

  /** The test of isNodeReady, including its Running alternative. */
  predicate Ready(g: Graph, s: Snapshot, id: Id) {
    DepsDone(g, s, id) && (Is(s, id, Pending) || Is(s, id, Running))
  }

  function Roots(g: Graph): set<Id> {
    set v | v in g.nodes && Preds(g, v) == {}
  }

  ghost predicate AllIn(batch: seq<Id>, pool: set<Id>) {
    Distinct(batch) && forall b | b in batch :: b in pool
  }

  ghost predicate EndsAt(batch: seq<Id>, id: Id) {
    batch != [] && batch[|batch| - 1] == id
  }

  ghost predicate Started(g: Graph, s: Snapshot, batch: seq<Id>, r: CallResult, s': Snapshot) {
    && AllIn(batch, Roots(g))
    && (forall b | b in batch :: Is(s, b, Pending))
    && s' == LaunchAll(s, batch)
    && match r
       case Ok => forall v | v in Roots(g) :: v in batch
       case Rejected => false
       case StartRefused(v) => v in Roots(g) && v !in batch && !Is(s, v, Pending)
       case CallbackFailed(v) => EndsAt(batch, v)
  }

  /** What follows the transition of `node` to completed; `s` is the state after it. */
  ghost predicate Released(g: Graph, s: Snapshot, node: Id, batch: seq<Id>, r: CallResult, s': Snapshot) {
    && AllIn(batch, Succ(g, node))
    && (forall b | b in batch :: DepsDone(g, s, b) && Is(s, b, Pending))
    && s' == LaunchAll(s, batch)
    && match r
       case Ok => forall v | v in Succ(g, node) && Ready(g, s, v) :: v in batch
       case Rejected => false
       case StartRefused(v) => v in Succ(g, node) && DepsDone(g, s, v) && Is(s, v, Running)
       case CallbackFailed(v) => EndsAt(batch, v)
  }

  ghost predicate Next(g: Graph, s: Snapshot, step: Step, s': Snapshot) {
    match step
    case StartOp(batch, r) => Started(g, s, batch, r, s')
    case CompleteOp(node, batch, r) =>
      if Is(s, node, Running) then Released(g, MoveTo(s, node, Completed), node, batch, r, s')
      else s' == s && batch == [] && r == Rejected
    case FailOp(node, r) =>
      if Is(s, node, Running) then s' == MoveTo(s, node, Failed) && r == Ok
      else s' == s && r == Rejected
  }

  /** What building a workflow leaves behind: every node pending, nothing moved or called. */
  ghost predicate Initial(g: Graph, s: Snapshot) {
    && WellFormed(g)
    && s.states.Keys == g.nodes
    && (forall v | v in g.nodes :: s.states[v] == Pending)
    && s.moves == [] && s.calls == []
  }

  ghost predicate IsRun(g: Graph, trace: seq<Snapshot>, steps: seq<Step>) {
    && |trace| == |steps| + 1
    && Initial(g, trace[0])
    && forall i | 0 <= i < |steps| :: Next(g, trace[i], steps[i], trace[i + 1])
  }

  /** No callback of the run returned an error. */
  ghost predicate CallbacksSucceed(steps: seq<Step>) {
    forall i | 0 <= i < |steps| :: !steps[i].FailOp? ==> !steps[i].result.CallbackFailed?
  }

  ghost predicate HasStart(steps: seq<Step>) {
    exists i :: 0 <= i < |steps| && steps[i].StartOp?
  }

  /** The nodes moved to `state`, in order. */
  function IdsOf(moves: seq<Move>, state: NodeState): seq<Id> {
    if moves == [] then []
    else
      var last := moves[|moves| - 1];
      IdsOf(moves[..|moves| - 1], state) + (if last.target == state then [last.id] else [])
  }

  function CompletionOrder(s: Snapshot): seq<Id> {
    IdsOf(s.moves, Completed)
  }

  lemma IdsOfSnoc(moves: seq<Move>, m: Move, state: NodeState)
    ensures IdsOf(moves + [m], state) == IdsOf(moves, state) + (if m.target == state then [m.id] else [])
  {
    assert (moves + [m])[..|moves|] == moves;
  }

  // ------------------------------------------------------------------- safety

  /** `ids` lists exactly the members of `pool`, once each. */
  ghost predicate Lists(ids: seq<Id>, pool: set<Id>) {
    Distinct(ids) && SetOf(ids) == pool
  }

  lemma ListsSnoc(ids: seq<Id>, pool: set<Id>, id: Id)
    requires Lists(ids, pool) && id !in pool
    ensures Lists(ids + [id], pool + {id})
  {
    SetOfSnoc(ids, id);
    assert id !in SetOf(ids);
  }

  function InState(s: Snapshot, state: NodeState): set<Id> {
    set v | v in s.states && s.states[v] == state
  }

  function Begun(s: Snapshot): set<Id> {
    set v | v in s.states && s.states[v] != Pending
  }

  /** Dependencies first: whoever left pending has all its dependencies completed. */
  ghost predicate Ordered(g: Graph, s: Snapshot) {
    && s.states.Keys == g.nodes
    && forall v | v in g.nodes :: s.states[v] != Pending ==> DepsDone(g, s, v)
  }

  /** The history agrees with the states, and the callback ran once per started node. */
  ghost predicate Accounted(s: Snapshot) {
    && Lists(s.calls, Begun(s))
    && Lists(IdsOf(s.moves, Completed), InState(s, Completed))
    && Lists(IdsOf(s.moves, Failed), InState(s, Failed))
    && s.calls == IdsOf(s.moves, Running)
    && |s.moves| == |s.calls| + |IdsOf(s.moves, Completed)| + |IdsOf(s.moves, Failed)|
  }

  ghost predicate Safe(g: Graph, s: Snapshot) {
    Ordered(g, s) && Accounted(s) && Grounded(g, CompletionOrder(s))
  }

  lemma InitialIsSafe(g: Graph, s: Snapshot)
    requires Initial(g, s)
    ensures Safe(g, s)
  {
  }

  lemma LaunchAccounted(s: Snapshot, id: Id)
    requires Accounted(s) && Is(s, id, Pending)
    ensures Accounted(Launch(s, id))
    ensures CompletionOrder(Launch(s, id)) == CompletionOrder(s)
  {
    var s', m := Launch(s, id), Move(id, Running);
    IdsOfSnoc(s.moves, m, Running);
    IdsOfSnoc(s.moves, m, Completed);
    IdsOfSnoc(s.moves, m, Failed);
    ListsSnoc(s.calls, Begun(s), id);
    assert Begun(s') == Begun(s) + {id};
    assert InState(s', Completed) == InState(s, Completed);
    assert InState(s', Failed) == InState(s, Failed);
  }

  lemma FinishAccounted(s: Snapshot, id: Id, st: NodeState)
    requires Accounted(s) && Is(s, id, Running) && (st == Completed || st == Failed)
    ensures Accounted(MoveTo(s, id, st))
    ensures CompletionOrder(MoveTo(s, id, st)) == CompletionOrder(s) + (if st == Completed then [id] else [])
  {
    var s', m := MoveTo(s, id, st), Move(id, st);
    IdsOfSnoc(s.moves, m, Running);
    IdsOfSnoc(s.moves, m, Completed);
    IdsOfSnoc(s.moves, m, Failed);
    ListsSnoc(IdsOf(s.moves, st), InState(s, st), id);
    var other := if st == Completed then Failed else Completed;
    assert InState(s', st) == InState(s, st) + {id};
    assert InState(s', other) == InState(s, other);
    assert Begun(s') == Begun(s);
  }

  lemma LaunchIsSafe(g: Graph, s: Snapshot, id: Id)
    requires Safe(g, s) && Is(s, id, Pending) && DepsDone(g, s, id)
    ensures Safe(g, Launch(s, id))
  {
    LaunchAccounted(s, id);
  }

  lemma FinishIsSafe(g: Graph, s: Snapshot, id: Id, st: NodeState)
    requires Safe(g, s) && Is(s, id, Running) && (st == Completed || st == Failed)
    ensures Safe(g, MoveTo(s, id, st))
  {
    FinishAccounted(s, id, st);
    if st == Completed {
      forall u | u in Preds(g, id)
        ensures u in SetOf(CompletionOrder(s))
      {
        assert Is(s, u, Completed);
      }
      GroundedSnoc(g, CompletionOrder(s), id);
    } else {
      assert CompletionOrder(s) + [] == CompletionOrder(s);
    }
  }

  /** A batch changes exactly the states of its members, to running. */
  lemma {:induction false} LaunchAllStates(s: Snapshot, batch: seq<Id>)
    requires forall b | b in batch :: b in s.states
    ensures LaunchAll(s, batch).states ==
            map v | v in s.states :: if v in batch then Running else s.states[v]
    ensures LaunchAll(s, batch).calls == s.calls + batch
  {
    if batch != [] {
      var front, last := batch[..|batch| - 1], batch[|batch| - 1];
      assert batch == front + [last];
      LaunchAllStates(s, front);
    }
  }

  lemma LaunchAllKeepsReady(g: Graph, s: Snapshot, batch: seq<Id>, id: Id)
    requires forall b | b in batch :: Is(s, b, Pending)
    ensures DepsDone(g, s, id) <==> DepsDone(g, LaunchAll(s, batch), id)
    ensures id !in batch && Is(s, id, Pending) ==> Is(LaunchAll(s, batch), id, Pending)
  {
    LaunchAllStates(s, batch);
    assert forall u :: Is(s, u, Completed) <==> Is(LaunchAll(s, batch), u, Completed);
  }

  lemma {:induction false} LaunchAllIsSafe(g: Graph, s: Snapshot, batch: seq<Id>)
    requires Safe(g, s) && Distinct(batch)
    requires forall b | b in batch :: Is(s, b, Pending) && DepsDone(g, s, b)
    ensures Safe(g, LaunchAll(s, batch))
  {
    if batch != [] {
      var front, last := batch[..|batch| - 1], batch[|batch| - 1];
      assert batch == front + [last];
      assert Safe(g, LaunchAll(s, front)) by {
        LaunchAllIsSafe(g, s, front);
      }
      LaunchAllKeepsReady(g, s, front, last);
      LaunchIsSafe(g, LaunchAll(s, front), last);
    }
  }

  /** In a safe state nobody waits for a running node, so a release never meets one. */
  lemma NoRefusalOnRelease(g: Graph, s: Snapshot, step: Step, s': Snapshot)
    requires Safe(g, s) && Next(g, s, step, s') && step.CompleteOp?
    ensures !step.result.StartRefused?
    ensures Is(s, step.node, Running) ==>
              forall v | v in Succ(g, step.node) :: v in s.states ==> Is(s, v, Pending)
  {
    var node := step.node;
    if Is(s, node, Running) {
      forall v | v in Succ(g, node) && v in s.states
        ensures Is(s, v, Pending)
      {
        assert node in Preds(g, v);
      }
    }
  }

  lemma NextIsSafe(g: Graph, s: Snapshot, step: Step, s': Snapshot)
    requires Safe(g, s) && Next(g, s, step, s')
    ensures Safe(g, s')
  {
    match step
    case StartOp(batch, r) => LaunchAllIsSafe(g, s, batch);
    case CompleteOp(node, batch, r) =>
      if Is(s, node, Running) {
        FinishIsSafe(g, s, node, Completed);
        LaunchAllIsSafe(g, MoveTo(s, node, Completed), batch);
      }
    case FailOp(node, r) =>
      if Is(s, node, Running) {
        FinishIsSafe(g, s, node, Failed);
      }
  }

  lemma {:induction false} RunIsSafe(g: Graph, trace: seq<Snapshot>, steps: seq<Step>, k: nat)
    requires IsRun(g, trace, steps) && k < |trace|
    ensures Safe(g, trace[k])
  {
    if k == 0 {
      InitialIsSafe(g, trace[0]);
    } else {
      RunIsSafe(g, trace, steps, k - 1);
      NextIsSafe(g, trace[k - 1], steps[k - 1], trace[k]);
    }
  }
}
