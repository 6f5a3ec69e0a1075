/** The per-node state machine of internal/workflow/state_machine.go. */
module NodeStates {
  import opened Graphs

  datatype NodeState = Pending | Running | Completed | Failed

  /** A transition that succeeded. */
  datatype Move = Move(id: Id, target: NodeState)

  predicate Permitted(current: NodeState, target: NodeState) {
    match current
    case Pending => target == Running
    case Running => target == Completed || target == Failed
    case Completed => false
    case Failed => false
  }

  class NodeStateMachine {
    var states: map<Id, NodeState>
    /** The successful transitions so far, in order. */
    ghost var moves: seq<Move>

    constructor ()
      ensures states == map[] && moves == []
    {
      states := map[];
      moves := [];
    }

    /** InitNode also resets a node that already exists. */
    method InitNode(nodeID: Id)
      modifies this`states
      ensures states == old(states)[nodeID := Pending]
    {
      states := states[nodeID := Pending];
    }

    /** Transition changes one state, or nothing at all. */
    method Transition(nodeID: Id, target: NodeState) returns (ok: bool)
      modifies this
      ensures ok <==> nodeID in old(states) && Permitted(old(states)[nodeID], target)
      ensures states == if ok then old(states)[nodeID := target] else old(states)
      ensures moves == if ok then old(moves) + [Move(nodeID, target)] else old(moves)
    {
      if nodeID !in states {
        return false;
      }
      match states[nodeID] {
        case Pending =>
          if target == Running {
            states := states[nodeID := target];
            moves := moves + [Move(nodeID, target)];
            return true;
          }
        case Running =>
          if target == Completed || target == Failed {
            states := states[nodeID := target];
            moves := moves + [Move(nodeID, target)];
            return true;
          }
        case Completed =>
        case Failed =>
      }
      return false;
    }
  }
}
