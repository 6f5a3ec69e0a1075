/**
  Any number of WaitDecision calls racing with routed decisions, timeouts and cancellations.
  Every critical section of the gate is one step; between two sections of a call anything
  else may happen. The main results hold in every state such a system can reach.
 */
module ApprovalSystem {
  import opened Options
  import opened Approval

  /** `argumentsOk`: the arguments of the call are empty or valid JSON. */
  datatype Request = Request(traceID: string, taskID: string, toolCallID: string, toolName: string, argumentsOk: bool)

  /** A context ends a wait by being cancelled or by its deadline. */
  datatype WaitResult = Decided(decision: Decision) | TimedOut | Cancelled(deadline: bool)

  datatype Phase =
    | FirstCheck             // about to look at the buffer
    | Registering            // found nothing, about to register
    | SecondCheck            // registered, about to look at the buffer again
    | Waiting                // blocked in the select
    | Leaving(result: WaitResult)  // about to run the deferred removeWaiter
    | Done(result: WaitResult)

  datatype Call = Call(req: Request, phase: Phase)

  /**
    Calls are numbered in order of arrival; `routed` is the history of decisions, each with
    its place in it, and `discarded` collects what was dropped behind a decision taken.
   */
  datatype Sys = Sys(gate: Gate, calls: seq<Call>, routed: seq<Decision>, discarded: seq<Decision>)

  datatype Action =
    | Arrive(req: Request)
    | Check(call: nat)
    | Register(call: nat)
    | Receive(call: nat)
    | Expire(call: nat)
    | Cancel(call: nat, deadline: bool)
    | Leave(call: nat)
    | Deliver(decision: Decision)

  const Empty := Sys(Gate(map[], map[], map[]), [], [], [])

  predicate ValidRequest(req: Request) {
    req.taskID != "" && req.toolCallID != "" && req.toolName != "" && req.argumentsOk
  }

  /** What Validate says to a request that is not valid. */
  function RequestError(req: Request): string {
    if req.taskID == "" then "task_id is required"
    else if req.toolCallID == "" then "tool_call_id is required"
    else if req.toolName == "" then "tool_name is required"
    else "arguments must be valid json"
  }

  lemma RequestErrors(req: Request)
    ensures req.taskID == "" ==> RequestError(req) == "task_id is required"
    ensures req.taskID != "" && req.toolCallID == "" ==> RequestError(req) == "tool_call_id is required"
    ensures req.taskID != "" && req.toolCallID != "" && req.toolName == "" ==> RequestError(req) == "tool_name is required"
    ensures req.taskID != "" && req.toolCallID != "" && req.toolName != "" ==> RequestError(req) == "arguments must be valid json"
  {
  }

  function ReqKey(req: Request): Key {
    ApprovalKey(req.taskID, req.toolCallID)
  }

  function SetPhase(s: Sys, t: nat, phase: Phase): Sys
    requires t < |s.calls|
  {
    s.(calls := s.calls[t := s.calls[t].(phase := phase)])
  }

  /** The decision with its place in the history. */
  function Stamped(s: Sys, d: Decision): Decision {
    d.(serial := |s.routed|)
  }

  predicate Enabled(s: Sys, a: Action) {
    match a
    case Arrive(req) => ValidRequest(req)
    case Check(t) => t < |s.calls| && (s.calls[t].phase == FirstCheck || s.calls[t].phase == SecondCheck)
    case Register(t) => t < |s.calls| && s.calls[t].phase == Registering
    case Receive(t) => t < |s.calls| && s.calls[t].phase == Waiting && t in s.gate.chans && s.gate.chans[t].Some?
    case Expire(t) => t < |s.calls| && s.calls[t].phase == Waiting
    case Cancel(t, _) => t < |s.calls| && s.calls[t].phase == Waiting
    case Leave(t) => t < |s.calls| && s.calls[t].phase.Leaving?
    case Deliver(d) => ValidDecision(d)
  }

  /** When others can act: valid requests and decisions come at any time, a waiting call ends in one of three ways. */
  lemma WhatCanHappen(s: Sys, req: Request, d: Decision, t: nat, x: bool)
    ensures Enabled(s, Arrive(req)) <==> req.taskID != "" && req.toolCallID != "" && req.toolName != "" && req.argumentsOk
    ensures Enabled(s, Deliver(d)) <==> d.taskID != "" && d.toolCallID != "" && d.decidedAtMs > 0
    ensures Enabled(s, Expire(t)) <==> t < |s.calls| && s.calls[t].phase == Waiting
    ensures Enabled(s, Cancel(t, x)) <==> t < |s.calls| && s.calls[t].phase == Waiting
    ensures Enabled(s, Receive(t)) <==>
            t < |s.calls| && s.calls[t].phase == Waiting && t in s.gate.chans && s.gate.chans[t] != None
  {
  }

  function Step(s: Sys, a: Action): Sys
    requires Enabled(s, a)
  {
    match a
    case Arrive(req) => s.(calls := s.calls + [Call(req, FirstCheck)])
    case Check(t) =>
      var call := s.calls[t];
      var (g, found) := Take(s.gate, ReqKey(call.req), call.req.traceID);
      var phase :=
        if found.Some? then (if call.phase == FirstCheck then Done(Decided(found.value)) else Leaving(Decided(found.value)))
        else (if call.phase == FirstCheck then Registering else Waiting);
      var dropped := Dropped(s.gate, ReqKey(call.req), call.req.traceID);
      SetPhase(s.(gate := g, discarded := s.discarded + dropped), t, phase)
    case Register(t) =>
      var req := s.calls[t].req;
      var g := s.gate.(chans := s.gate.chans[t := None]);
      SetPhase(s.(gate := AddWaiter(g, ReqKey(req), Waiter(req.traceID, t))), t, SecondCheck)
    case Receive(t) =>
      var d := s.gate.chans[t].value;
      SetPhase(s.(gate := s.gate.(chans := s.gate.chans[t := None])), t, Leaving(Decided(d)))
    case Expire(t) => SetPhase(s, t, Leaving(TimedOut))
    case Cancel(t, deadline) => SetPhase(s, t, Leaving(Cancelled(deadline)))
    case Leave(t) =>
      var call := s.calls[t];
      SetPhase(s.(gate := RemoveWaiter(s.gate, ReqKey(call.req), t)), t, Done(call.phase.result))
    case Deliver(d) => s.(gate := Route(s.gate, Stamped(s, d)), routed := s.routed + [Stamped(s, d)])
  }

  // ---------------------------------------------------------------- invariant

  /** `d` was routed to the gate for this request. */
  ghost predicate Granted(s: Sys, req: Request, d: Decision) {
    d in s.routed && KeyOf(d) == ReqKey(req) && TraceMatches(req.traceID, d.traceID)
  }

  predicate InSelect(phase: Phase) {
    phase == SecondCheck || phase == Waiting || phase.Leaving?
  }

  ghost predicate Registered(s: Sys, t: nat, req: Request) {
    Waiter(req.traceID, t) in Entry(s.gate.waiters, ReqKey(req))
  }

  ghost predicate HasDecision(s: Sys, t: nat) {
    t in s.gate.chans && s.gate.chans[t].Some?
  }

  /** Nothing in the buffer would have answered this request. */
  ghost predicate NothingPending(s: Sys, req: Request) {
    forall d | d in Entry(s.gate.pending, ReqKey(req)) :: !TraceMatches(req.traceID, d.traceID)
  }

  ghost predicate CallOk(s: Sys, t: nat)
    requires t < |s.calls|
  {
    var req, phase := s.calls[t].req, s.calls[t].phase;
    && (HasDecision(s, t) ==> Granted(s, req, s.gate.chans[t].value))
    && (phase == FirstCheck || phase == Registering ==> t !in s.gate.chans)
    && (phase == SecondCheck || phase == Waiting ==> HasDecision(s, t) || Registered(s, t, req))
    && (phase == Waiting ==> HasDecision(s, t) || NothingPending(s, req))
    && (phase.Leaving? && phase.result.Decided? ==> Granted(s, req, phase.result.decision))
    && (phase.Done? && phase.result.Decided? ==> Granted(s, req, phase.result.decision))
  }

  ghost predicate WaiterOk(s: Sys, key: Key, w: Waiter) {
    && w.ch < |s.calls|
    && ReqKey(s.calls[w.ch].req) == key && s.calls[w.ch].req.traceID == w.traceID
    && InSelect(s.calls[w.ch].phase)
    && Sendable(s.gate.chans, w.ch)
  }

  ghost predicate WaitersOk(s: Sys) {
    && (forall key, w :: w in Entry(s.gate.waiters, key) ==> WaiterOk(s, key, w))
    && (forall key :: Quiescent(s.gate, key))
  }

  ghost predicate PendingOk(s: Sys) {
    forall key, d :: d in Entry(s.gate.pending, key) ==> KeyOf(d) == key && d in s.routed
  }

  ghost predicate NoEmptyEntry(g: Gate) {
    && (forall key :: key in g.pending ==> g.pending[key] != [])
    && (forall key :: key in g.waiters ==> g.waiters[key] != [])
  }

  ghost predicate Inv(s: Sys) {
    && (forall c :: c in s.gate.chans ==> c < |s.calls|)
    && (forall t :: 0 <= t < |s.calls| ==> CallOk(s, t))
    && WaitersOk(s) && PendingOk(s) && NoEmptyEntry(s.gate)
  }

  lemma EmptyInv()
    ensures Inv(Empty)
  {
  }

  lemma ArriveInv(s: Sys, req: Request)
    requires Inv(s) && ValidRequest(req)
    ensures Inv(Step(s, Arrive(req)))
  {
    var s' := Step(s, Arrive(req));
    forall t | 0 <= t < |s'.calls|
      ensures CallOk(s', t)
    {
      if t < |s.calls| {
        assert CallOk(s, t);
      }
    }
  }

  lemma TakeIs(g: Gate, key: Key, traceID: string)
    ensures var (g', r) := Take(g, key, traceID);
            && g'.waiters == g.waiters && g'.chans == g.chans
            && (forall k, d :: d in Entry(g'.pending, k) ==> d in Entry(g.pending, k))
            && (forall k | k != key :: Entry(g'.pending, k) == Entry(g.pending, k))
            && (r.None? ==> g' == g && forall d | d in Entry(g.pending, key) :: !TraceMatches(traceID, d.traceID))
            && (r.Some? ==> r.value in Entry(g.pending, key) && TraceMatches(traceID, r.value.traceID))
            && (NoEmptyEntry(g) ==> NoEmptyEntry(g'))
  {
    var ds := Entry(g.pending, key);
    var i := FirstMatch(traceID, ds);
    forall k {
      PutEntry(g.pending, key, ds[..i], k);
    }
  }

  lemma CheckInv(s: Sys, t: nat)
    requires Inv(s) && Enabled(s, Check(t))
    ensures Inv(Step(s, Check(t)))
  {
    var s' := Step(s, Check(t));
    var req := s.calls[t].req;
    TakeIs(s.gate, ReqKey(req), req.traceID);
    forall u | 0 <= u < |s'.calls|
      ensures CallOk(s', u)
    {
      assert CallOk(s, u);
    }
    forall key, w | w in Entry(s'.gate.waiters, key)
      ensures WaiterOk(s', key, w)
    {
      assert WaiterOk(s, key, w);
      assert CallOk(s, w.ch);
    }
    forall key
      ensures Quiescent(s'.gate, key)
    {
      assert Quiescent(s.gate, key);
    }
  }

  lemma RegisterWaiters(s: Sys, t: nat)
    requires Inv(s) && Enabled(s, Register(t))
    ensures WaitersOk(Step(s, Register(t)))
  {
    var s' := Step(s, Register(t));
    var req := s.calls[t].req;
    assert CallOk(s, t);
    forall key, w | w in Entry(s'.gate.waiters, key)
      ensures WaiterOk(s', key, w)
    {
      if w in Entry(s.gate.waiters, key) {
        assert WaiterOk(s, key, w);
      } else {
        assert key == ReqKey(req) && w == Waiter(req.traceID, t);
      }
    }
    forall key
      ensures Quiescent(s'.gate, key)
    {
      assert Quiescent(s.gate, key);
      assert forall w | w in Entry(s.gate.waiters, key) :: WaiterOk(s, key, w);
    }
  }

  lemma RegisterInv(s: Sys, t: nat)
    requires Inv(s) && Enabled(s, Register(t))
    ensures Inv(Step(s, Register(t)))
  {
    var s' := Step(s, Register(t));
    RegisterWaiters(s, t);
    forall u | 0 <= u < |s'.calls|
      ensures CallOk(s', u)
    {
      assert CallOk(s, u);
    }
  }

  lemma SelectInv(s: Sys, a: Action)
    requires Inv(s) && Enabled(s, a) && (a.Receive? || a.Expire? || a.Cancel?)
    ensures Inv(Step(s, a))
  {
    var s' := Step(s, a);
    forall u | 0 <= u < |s'.calls|
      ensures CallOk(s', u)
    {
      assert CallOk(s, u);
    }
    forall key, w | w in Entry(s'.gate.waiters, key)
      ensures WaiterOk(s', key, w)
    {
      assert WaiterOk(s, key, w);
    }
    forall key
      ensures Quiescent(s'.gate, key)
    {
      assert Quiescent(s.gate, key);
    }
  }

  lemma RemoveIs(g: Gate, key: Key, ch: nat)
    requires Quiescent(g, key)
    ensures var g' := RemoveWaiter(g, key, ch);
            && g'.pending == g.pending && g'.chans == g.chans
            && (forall k, w :: w in Entry(g'.waiters, k) <==>
                  w in Entry(g.waiters, k) && (k == key ==> w.ch != ch))
            && (forall k | k != key :: Entry(g'.waiters, k) == Entry(g.waiters, k))
            && Quiescent(g', key)
            && (NoEmptyEntry(g) ==> NoEmptyEntry(g'))
  {
    var ws := Entry(g.waiters, key);
    WithoutIs(ws, ch);
    WithoutDistinct(g.chans, ws, ch);
    forall k {
      PutEntry(g.waiters, key, Without(ws, ch), k);
    }
  }

  lemma LeaveWaiters(s: Sys, t: nat)
    requires Inv(s) && Enabled(s, Leave(t))
    ensures WaitersOk(Step(s, Leave(t)))
  {
    var s' := Step(s, Leave(t));
    var key := ReqKey(s.calls[t].req);
    assert Quiescent(s.gate, key);
    RemoveIs(s.gate, key, t);
    forall k, w | w in Entry(s'.gate.waiters, k)
      ensures WaiterOk(s', k, w)
    {
      assert WaiterOk(s, k, w);
    }
    forall k
      ensures Quiescent(s'.gate, k)
    {
      assert k != key ==> Quiescent(s.gate, k);
    }
  }

  lemma LeaveCall(s: Sys, t: nat, u: nat)
    requires Inv(s) && Enabled(s, Leave(t)) && u < |s.calls|
    ensures CallOk(Step(s, Leave(t)), u)
  {
    var key := ReqKey(s.calls[t].req);
    assert Quiescent(s.gate, key);
    RemoveIs(s.gate, key, t);
    assert CallOk(s, u);
  }

  lemma LeaveInv(s: Sys, t: nat)
    requires Inv(s) && Enabled(s, Leave(t))
    ensures Inv(Step(s, Leave(t)))
  {
    var s' := Step(s, Leave(t));
    LeaveWaiters(s, t);
    forall u | 0 <= u < |s'.calls| {
      LeaveCall(s, t, u);
    }
    assert PendingOk(s') && NoEmptyEntry(s'.gate) by {
      assert Quiescent(s.gate, ReqKey(s.calls[t].req));
      RemoveIs(s.gate, ReqKey(s.calls[t].req), t);
    }
  }

  lemma AllEmptySplit(chans: map<nat, Option<Decision>>, front: seq<Waiter>, last: Waiter)
    requires AllEmpty(chans, front + [last])
    ensures AllEmpty(chans, front) && Sendable(chans, last.ch) && forall w | w in front :: w.ch != last.ch
  {
    var ws := front + [last];
    assert last in ws && forall w | w in front :: w in ws;
    assert forall i | 0 <= i < |front| :: ws[i] == front[i] && ws[|front|] == last;
  }

  lemma AllEmptySnoc(chans: map<nat, Option<Decision>>, front: seq<Waiter>, last: Waiter)
    requires AllEmpty(chans, front) && Sendable(chans, last.ch) && forall w | w in front :: w.ch != last.ch
    ensures AllEmpty(chans, front + [last])
  {
    assert forall i | 0 <= i < |front| :: front[i] in front;
  }

  lemma {:induction false} WithoutDistinct(chans: map<nat, Option<Decision>>, ws: seq<Waiter>, ch: nat)
    requires AllEmpty(chans, ws)
    ensures AllEmpty(chans, Without(ws, ch))
  {
    if ws != [] {
      var front, last := ws[..|ws| - 1], ws[|ws| - 1];
      assert ws == front + [last];
      AllEmptySplit(chans, front, last);
      WithoutDistinct(chans, front, ch);
      WithoutIs(front, ch);
      if last.ch != ch {
        AllEmptySnoc(chans, Without(front, ch), last);
      }
    }
  }

  lemma {:induction false} UnmatchedDistinct(chans: map<nat, Option<Decision>>, ws: seq<Waiter>, traceID: string)
    requires AllEmpty(chans, ws)
    ensures AllEmpty(chans, Unmatched(ws, traceID))
  {
    if ws != [] {
      var front, last := ws[..|ws| - 1], ws[|ws| - 1];
      assert ws == front + [last];
      AllEmptySplit(chans, front, last);
      UnmatchedDistinct(chans, front, traceID);
      UnmatchedIs(front, traceID);
      if !TraceMatches(last.traceID, traceID) {
        AllEmptySnoc(chans, Unmatched(front, traceID), last);
      }
    }
  }

  /** After a delivery the waiters left on the key still have empty channels. */
  lemma DeliverQuiescent(s: Sys, d: Decision, key: Key)
    requires WaitersOk(s)
    ensures Quiescent(Route(s.gate, d), key)
  {
    var g, k, g' := s.gate, KeyOf(d), Route(s.gate, d);
    var ws := Entry(g.waiters, k);
    assert Quiescent(g, k) && Quiescent(g, key);
    RouteIs(g, d);
    if key == k {
      UnmatchedDistinct(g.chans, ws, d.traceID);
      PutEntry(g.waiters, k, Unmatched(ws, d.traceID), k);
      assert Entry(g'.waiters, k) == if ws == [] then [] else Unmatched(ws, d.traceID);
      UnmatchedIs(ws, d.traceID);
      forall w | w in Entry(g'.waiters, k)
        ensures Sendable(g'.chans, w.ch)
      {
        NotTaken(ws, d, w);
      }
    } else {
      forall w | w in Entry(g'.waiters, key)
        ensures Sendable(g'.chans, w.ch)
      {
        assert WaiterOk(s, key, w);
        assert !Taken(ws, d, w.ch) by {
          assert forall v | v in ws :: WaiterOk(s, k, v);
        }
      }
    }
  }

  /** The slot of call `t` is filled by a delivery exactly when `t` is registered and accepts. */
  lemma SlotAfter(s: Sys, d: Decision, t: nat)
    requires Inv(s) && t in s.gate.chans
    ensures var req, g' := s.calls[t].req, Route(s.gate, d);
            && t in g'.chans
            && g'.chans[t] == if Registered(s, t, req) && KeyOf(d) == ReqKey(req) && TraceMatches(req.traceID, d.traceID)
                              then Some(d) else s.gate.chans[t]
  {
    var req, key := s.calls[t].req, KeyOf(d);
    var ws := Entry(s.gate.waiters, key);
    assert Quiescent(s.gate, key);
    RouteIs(s.gate, d);
    assert forall w | w in ws :: WaiterOk(s, key, w);
    if Registered(s, t, req) && key == ReqKey(req) && TraceMatches(req.traceID, d.traceID) {
      assert Accepts(Waiter(req.traceID, t), d);
    } else {
      assert !Taken(ws, d, t) by {
        forall w | w in ws && w.ch == t
          ensures w == Waiter(req.traceID, t) && key == ReqKey(req)
        {
          assert WaiterOk(s, key, w);
        }
      }
    }
  }

  lemma CallAfterDeliver(s: Sys, d: Decision, t: nat)
    requires Inv(s) && t < |s.calls| && ValidDecision(d)
    ensures CallOk(Step(s, Deliver(d)), t)
  {
    var s' := Step(s, Deliver(d));
    var req, e := s.calls[t].req, Stamped(s, d);
    assert Quiescent(s.gate, KeyOf(e));
    RouteIs(s.gate, e);
    assert CallOk(s, t);
    assert forall x :: Granted(s, req, x) ==> Granted(s', req, x);
    if t in s.gate.chans {
      SlotAfter(s, e, t);
    }
    var mine := Waiter(req.traceID, t);
    if Registered(s, t, req) && !HasDecision(s', t) {
      assert Registered(s', t, req) by {
        assert WaiterOk(s, ReqKey(req), mine);
      }
      if KeyOf(d) == ReqKey(req) {
        assert !TraceMatches(req.traceID, d.traceID);
      }
    }
  }

  lemma WaiterAfterDeliver(s: Sys, d: Decision, key: Key, w: Waiter)
    requires Inv(s) && ValidDecision(d) && w in Entry(Step(s, Deliver(d)).gate.waiters, key)
    ensures WaiterOk(Step(s, Deliver(d)), key, w)
  {
    var e := Stamped(s, d);
    assert Quiescent(s.gate, KeyOf(e));
    RouteIs(s.gate, e);
    assert WaiterOk(s, key, w);
    SlotAfter(s, e, w.ch);
  }

  lemma DeliverInv(s: Sys, d: Decision)
    requires Inv(s) && ValidDecision(d)
    ensures Inv(Step(s, Deliver(d)))
  {
    var s' := Step(s, Deliver(d));
    var e := Stamped(s, d);
    assert Quiescent(s.gate, KeyOf(e));
    assert s'.gate.chans.Keys == s.gate.chans.Keys && PendingOk(s') by {
      RouteIs(s.gate, e);
    }
    forall t | 0 <= t < |s'.calls| {
      CallAfterDeliver(s, d, t);
    }
    forall key, w | w in Entry(s'.gate.waiters, key) {
      WaiterAfterDeliver(s, d, key, w);
    }
    forall key {
      DeliverQuiescent(s, e, key);
    }
  }

  lemma StepInv(s: Sys, a: Action)
    requires Inv(s) && Enabled(s, a)
    ensures Inv(Step(s, a))
  {
    match a
    case Arrive(req) => ArriveInv(s, req);
    case Check(t) => CheckInv(s, t);
    case Register(t) => RegisterInv(s, t);
    case Receive(t) => SelectInv(s, a);
    case Expire(t) => SelectInv(s, a);
    case Cancel(t, _) => SelectInv(s, a);
    case Leave(t) => LeaveInv(s, t);
    case Deliver(d) => DeliverInv(s, d);
  }

  // ------------------------------------------------------------- main results

  /** The state after a list of actions, if each was possible when its turn came. */
  ghost predicate Reaches(actions: seq<Action>, s: Sys)
    decreases |actions|
  {
    if actions == [] then s == Empty
    else
      var front, last := actions[..|actions| - 1], actions[|actions| - 1];
      exists p :: Reaches(front, p) && Enabled(p, last) && s == Step(p, last)
  }

  lemma {:induction false} ReachableInv(actions: seq<Action>, s: Sys)
    requires Reaches(actions, s)
    ensures Inv(s)
    decreases |actions|
  {
    if actions == [] {
      EmptyInv();
    } else {
      var front, last := actions[..|actions| - 1], actions[|actions| - 1];
      var p :| Reaches(front, p) && Enabled(p, last) && s == Step(p, last);
      ReachableInv(front, p);
      StepInv(p, last);
    }
  }

  /** Some list of actions leads here. */
  ghost predicate Reachable(s: Sys) {
    exists actions :: Reaches(actions, s)
  }

  lemma EmptyReachable()
    ensures Reachable(Empty)
  {
    assert Reaches([], Empty);
  }

  lemma ReachesSnoc(actions: seq<Action>, s: Sys, a: Action)
    requires Reaches(actions, s) && Enabled(s, a)
    ensures Reaches(actions + [a], Step(s, a))
  {
    assert (actions + [a])[..|actions|] == actions;
  }

  lemma StepReachable(s: Sys, a: Action)
    requires Reachable(s) && Enabled(s, a)
    ensures Reachable(Step(s, a))
  {
    var actions :| Reaches(actions, s);
    ReachesSnoc(actions, s, a);
  }

  /**
    No lost wakeup. Under every interleaving, a call past its second look at the buffer
    either holds a decision routed for it in its channel, or is registered and nothing in
    the buffer under its key would have answered it.
   */
  lemma NoLostWakeup(actions: seq<Action>, s: Sys, t: nat)
    requires Reaches(actions, s) && t < |s.calls| && s.calls[t].phase == Waiting
    ensures var req := s.calls[t].req;
            || (t in s.gate.chans && s.gate.chans[t].Some? && Granted(s, req, s.gate.chans[t].value))
            || (Registered(s, t, req) && NothingPending(s, req)
                && forall d | d in Entry(s.gate.pending, req.taskID + ":" + req.toolCallID) ::
                     req.traceID != "" && d.traceID != "" && d.traceID != req.traceID)
  {
    ReachableInv(actions, s);
    assert CallOk(s, t);
  }

  /** A decision handed to a caller was routed for its key, with a matching trace. */
  lemma DecisionsAreGranted(actions: seq<Action>, s: Sys, t: nat)
    requires Reaches(actions, s) && t < |s.calls|
    requires s.calls[t].phase.Done? && s.calls[t].phase.result.Decided?
    ensures Granted(s, s.calls[t].req, s.calls[t].phase.result.decision)
    ensures var req, d := s.calls[t].req, s.calls[t].phase.result.decision;
            && d.taskID + ":" + d.toolCallID == req.taskID + ":" + req.toolCallID
            && (d.traceID == req.traceID || d.traceID == "" || req.traceID == "")
  {
    ReachableInv(actions, s);
    assert CallOk(s, t);
  }

  /**
    Each registered waiter belongs to a call that is between registering and leaving, under
    that call's key, and its channel is empty: the send to it cannot block or be skipped.
   */
  lemma WaitersAreLive(actions: seq<Action>, s: Sys, key: Key, w: Waiter)
    requires Reaches(actions, s) && w in Entry(s.gate.waiters, key)
    ensures w.ch < |s.calls| && InSelect(s.calls[w.ch].phase)
    ensures ReqKey(s.calls[w.ch].req) == key && s.calls[w.ch].req.traceID == w.traceID
    ensures Sendable(s.gate.chans, w.ch)
  {
    assert WaiterOk(s, key, w) by {
      ReachableInv(actions, s);
    }
  }

  /** A finished call has left no waiter behind. */
  lemma NoWaiterLeftBehind(actions: seq<Action>, s: Sys, key: Key, w: Waiter)
    requires Reaches(actions, s) && w in Entry(s.gate.waiters, key)
    ensures w.ch < |s.calls| && !s.calls[w.ch].phase.Done?
  {
    WaitersAreLive(actions, s, key, w);
  }

  /** No map entry is an empty list, and a buffered decision sits under its own key. */
  lemma BuffersAreTidy(actions: seq<Action>, s: Sys)
    requires Reaches(actions, s)
    ensures NoEmptyEntry(s.gate)
    ensures forall key, d | d in Entry(s.gate.pending, key) :: KeyOf(d) == key && d in s.routed
  {
    assert Inv(s) by {
      ReachableInv(actions, s);
    }
    InvBuffers(s);
  }

  lemma InvBuffers(s: Sys)
    requires Inv(s)
    ensures NoEmptyEntry(s.gate) && PendingOk(s)
  {
  }

  /**
    One delivery in a reachable state: the decision reaches every call registered under its
    key that accepts its trace, or is buffered once, never both and never neither.
   */
  lemma DeliveryIsTotal(actions: seq<Action>, s: Sys, d: Decision)
    requires Reaches(actions, s) && ValidDecision(d)
    ensures Routes(s.gate, Stamped(s, d), Step(s, Deliver(d)).gate)
  {
    assert Quiescent(s.gate, KeyOf(d)) by {
      ReachableInv(actions, s);
    }
    RouteIs(s.gate, Stamped(s, d));
  }

  // ----------------------------------------------------- how a wait comes to its end

  predicate EndsWith(phase: Phase, result: WaitResult) {
    phase == Leaving(result) || phase == Done(result)
  }

  /** After its select a call keeps its result. */
  lemma EndStep(s: Sys, a: Action, t: nat)
    requires Enabled(s, a) && t < |s.calls|
    ensures forall r | EndsWith(s.calls[t].phase, r) :: EndsWith(Step(s, a).calls[t].phase, r)
    ensures EndsWith(Step(s, a).calls[t].phase, TimedOut) <==> EndsWith(s.calls[t].phase, TimedOut) || a == Expire(t)
    ensures forall x :: EndsWith(Step(s, a).calls[t].phase, Cancelled(x)) <==>
                        EndsWith(s.calls[t].phase, Cancelled(x)) || a == Cancel(t, x)
  {
  }

  /**
    Over every run: a call ends in a timeout if and only if its timer fired, and in a
    cancellation of one kind if and only if its context ended in that way, while it waited.
   */
  lemma {:induction false} EndsAsItHappened(actions: seq<Action>, s: Sys, t: nat, x: bool)
    requires Reaches(actions, s) && t < |s.calls|
    ensures EndsWith(s.calls[t].phase, TimedOut) <==> Expire(t) in actions
    ensures EndsWith(s.calls[t].phase, Cancelled(x)) <==> Cancel(t, x) in actions
    decreases |actions|
  {
    if actions != [] {
      var front, last := actions[..|actions| - 1], actions[|actions| - 1];
      var p :| Reaches(front, p) && Enabled(p, last) && s == Step(p, last);
      assert actions == front + [last];
      if t < |p.calls| {
        EndsAsItHappened(front, p, t, x);
        EndStep(p, last, t);
      } else {
        NotYetThere(front, p, t, x);
      }
    }
  }

  /** Nothing happens to a call before it arrives. */
  lemma {:induction false} NotYetThere(actions: seq<Action>, s: Sys, t: nat, x: bool)
    requires Reaches(actions, s) && t >= |s.calls|
    ensures Expire(t) !in actions && Cancel(t, x) !in actions
    decreases |actions|
  {
    if actions != [] {
      var front, last := actions[..|actions| - 1], actions[|actions| - 1];
      var p :| Reaches(front, p) && Enabled(p, last) && s == Step(p, last);
      assert actions == front + [last];
      NotYetThere(front, p, t, x);
    }
  }
}
