/**
  What one caller of WaitDecision can rely on while others use the gate: its own progress is
  its own, decisions it gets are its own to use once.
 */
module GateCalls {
  import opened Approval
  import opened ApprovalSystem
  import opened ApprovalLedger
  import opened TaskStatuses

  /** What WaitDecision returns: a decision, or one of its errors. */
  datatype Outcome =
    | Got(decision: Decision)
    | Refused(msg: string)          // the request is not valid
    | GateDown(err: RunError)       // the gate could not subscribe when it was made
    | ContextDone(deadline: bool)
    | ApprovalTimeout

  predicate ActsFor(a: Action, t: nat) {
    match a
    case Arrive(_) => false
    case Check(u) => u == t
    case Register(u) => u == t
    case Receive(u) => u == t
    case Expire(u) => u == t
    case Cancel(u, _) => u == t
    case Leave(u) => u == t
    case Deliver(_) => false
  }

  /** What other callers can do to call `t`: nothing but grow the history around it. */
  ghost predicate Undisturbed(s: Sys, s': Sys, t: nat) {
    && s.routed <= s'.routed && |s.calls| <= |s'.calls|
    && (t < |s.calls| ==> s'.calls[t] == s.calls[t])
  }

  lemma OthersDoNotDisturb(s: Sys, a: Action, t: nat)
    requires Enabled(s, a) && !ActsFor(a, t)
    ensures Undisturbed(s, Step(s, a), t)
  {
  }

  lemma DoneIsGranted(s: Sys, t: nat)
    requires Reachable(s) && t < |s.calls| && s.calls[t].phase.Done?
    ensures s.calls[t].phase.result.Decided? ==> Granted(s, s.calls[t].req, s.calls[t].phase.result.decision)
  {
    var actions :| Reaches(actions, s);
    if s.calls[t].phase.result.Decided? {
      DecisionsAreGranted(actions, s, t);
    }
  }

  const TimeoutError := RunError("approval timeout", false, false)

  /** The error of a context: cancelled, or past its deadline. */
  function ContextError(deadline: bool): RunError {
    if deadline then RunError("context deadline exceeded", false, true) else RunError("context canceled", true, false)
  }

  /** The error that comes with an outcome other than a decision. */
  function WaitError(o: Outcome): RunError
    requires !o.Got?
  {
    match o
    case Refused(msg) => RunError(msg, false, false)
    case GateDown(err) => err
    case ContextDone(deadline) => ContextError(deadline)
    case ApprovalTimeout => TimeoutError
  }

  lemma WaitErrors(o: Outcome)
    requires !o.Got?
    ensures WaitError(o) == match o
                            case Refused(msg) => RunError(msg, false, false)
                            case GateDown(err) => err
                            case ContextDone(false) => RunError("context canceled", true, false)
                            case ContextDone(true) => RunError("context deadline exceeded", false, true)
                            case ApprovalTimeout => RunError("approval timeout", false, false)
  {
  }

  /** The decision carries its place in the history. */
  predicate InPlace(s: Sys, d: Decision) {
    d.serial < |s.routed| && s.routed[d.serial] == d
  }

  lemma StepKeepsFaith(s0: Sys, s: Sys, a: Action)
    requires Reachable(s) && Enabled(s, a) && NothingReturns(s0, s)
    ensures Reachable(Step(s, a)) && NothingReturns(s0, Step(s, a))
  {
    StepReachable(s, a);
    assert Books(s) by {
      var actions :| Reaches(actions, s);
      ReachableBooks(actions, s);
    }
    NothingReturnsStep(s, a);
    NothingReturnsJoin(s0, s, Step(s, a));
  }

  /** A call that began after `s0` and is done with a decision got one that was not spent then. */
  lemma GotOnce(s0: Sys, s: Sys, t: nat, req: Request, d: Decision)
    requires Reachable(s0) && Reachable(s) && NothingReturns(s0, s)
    requires |s0.calls| <= t < |s.calls| && s.calls[t] == Call(req, Done(Decided(d)))
    ensures Granted(s, req, d) && !Spent(s0, d) && Spent(s, d) && InPlace(s, d)
  {
    DoneIsGranted(s, t);
    var actions :| Reaches(actions, s);
    ReachableBooks(actions, s);
    assert Holds(s, t, d);
    HeldIsSpent(s, t, d);
    if Spent(s0, d) {
      var actions0 :| Reaches(actions0, s0);
      ReachableBooks(actions0, s0);
      HeldIsRouted(s0, t, d);
    }
  }

  ghost function PlacesSpent(s: Sys): set<nat> {
    set p | 0 <= p < |s.routed| && Spent(s, s.routed[p])
  }

  lemma SpentGrows(s: Sys, s': Sys)
    requires NothingReturns(s, s')
    ensures PlacesSpent(s) <= PlacesSpent(s')
    ensures forall d | InPlace(s', d) && !Spent(s, d) :: d.serial !in PlacesSpent(s)
    ensures forall d | InPlace(s', d) && Spent(s', d) :: d.serial in PlacesSpent(s')
  {
    assert forall p | 0 <= p < |s.routed| :: s.routed[p] == s'.routed[p];
  }

  lemma RoutedIsValid(s: Sys, d: Decision)
    requires Reachable(s) && d in s.routed
    ensures ValidDecision(d)
  {
    var actions :| Reaches(actions, s);
    ReachableBooks(actions, s);
  }
}
