/**
  What becomes of every decision: the books of the approval gate. In every reachable state a
  routed decision is buffered, or was discarded behind a decision that was taken, or was handed
  to calls, and never two of these; what was handed out or discarded never comes back.
 */
module ApprovalLedger {
  import opened Options
  import opened Approval
  import opened ApprovalSystem

  predicate Buffered(s: Sys, d: Decision) {
    d in Entry(s.gate.pending, KeyOf(d))
  }

  predicate Discarded(s: Sys, d: Decision) {
    d in s.discarded
  }

  predicate InSlot(s: Sys, t: nat, d: Decision) {
    t in s.gate.chans && s.gate.chans[t] == Some(d)
  }

  predicate Answered(s: Sys, t: nat, d: Decision) {
    t < |s.calls| && (s.calls[t].phase.Leaving? || s.calls[t].phase.Done?) && s.calls[t].phase.result == Decided(d)
  }

  /** The decision sits in the channel of the call or is what the call returns. */
  predicate Holds(s: Sys, t: nat, d: Decision) {
    InSlot(s, t, d) || Answered(s, t, d)
  }

  ghost predicate HandedOver(s: Sys, d: Decision) {
    exists t :: Holds(s, t, d)
  }

  /** Exactly one of the three. */
  ghost predicate InOnePlace(s: Sys, d: Decision) {
    && (Buffered(s, d) || Discarded(s, d) || HandedOver(s, d))
    && !(Buffered(s, d) && Discarded(s, d))
    && !(Buffered(s, d) && HandedOver(s, d))
    && !(Discarded(s, d) && HandedOver(s, d))
  }

  predicate Increasing(ds: seq<Decision>) {
    forall i, j :: 0 <= i < j < |ds| ==> ds[i].serial < ds[j].serial
  }

  ghost predicate Stamps(s: Sys) {
    forall i | 0 <= i < |s.routed| :: s.routed[i].serial == i && ValidDecision(s.routed[i])
  }

  ghost predicate Orderly(s: Sys) {
    forall key :: Increasing(Entry(s.gate.pending, key))
  }

  ghost predicate Books(s: Sys) {
    && Inv(s) && Stamps(s) && Orderly(s)
    && (forall d | d in s.discarded :: d in s.routed)
    && (forall d | d in s.routed :: InOnePlace(s, d))
  }

  // ------------------------------------------------------------------ one step

  /** The decision that a look at the buffer finds. */
  function Found(s: Sys, t: nat): Option<Decision>
    requires t < |s.calls|
  {
    Take(s.gate, ReqKey(s.calls[t].req), s.calls[t].req.traceID).1
  }

  function Behind(s: Sys, t: nat): seq<Decision>
    requires t < |s.calls|
  {
    Dropped(s.gate, ReqKey(s.calls[t].req), s.calls[t].req.traceID)
  }

  lemma IncreasingSplit(ds: seq<Decision>, front: seq<Decision>, mid: Decision, back: seq<Decision>)
    requires Increasing(ds) && ds == front + [mid] + back
    ensures Increasing(front) && mid !in front && mid !in back
    ensures forall d | d in front :: d !in back
    ensures forall d :: d in ds <==> d in front || d == mid || d in back
  {
    assert ds[|front|] == mid;
    assert forall i | 0 <= i < |front| :: ds[i] == front[i];
    assert forall i | 0 <= i < |back| :: ds[|front| + 1 + i] == back[i];
  }

  lemma TakeBuffers(g: Gate, key: Key, traceID: string, d: Decision)
    requires Increasing(Entry(g.pending, key))
    ensures var (g', r) := Take(g, key, traceID);
            var before, dropped := Entry(g.pending, key), Dropped(g, key, traceID);
            && (r == Some(d) ==> d in before && d !in dropped)
            && (d in dropped ==> d in before && r.Some?)
            && (d in Entry(g'.pending, key) <==> d in before && r != Some(d) && d !in dropped)
  {
    var (g', r) := Take(g, key, traceID);
    TakeSplits(g, key, traceID);
    if r.Some? {
      IncreasingSplit(Entry(g.pending, key), Entry(g'.pending, key), r.value, Dropped(g, key, traceID));
    }
  }

  lemma CheckGate(s: Sys, t: nat)
    requires Enabled(s, Check(t))
    ensures var key := ReqKey(s.calls[t].req);
            && Step(s, Check(t)).gate == Take(s.gate, key, s.calls[t].req.traceID).0
            && forall k | k != key :: Entry(Step(s, Check(t)).gate.pending, k) == Entry(s.gate.pending, k)
  {
    TakeSplits(s.gate, ReqKey(s.calls[t].req), s.calls[t].req.traceID);
  }

  /** A look moves one decision to the call and drops the ones behind it. */
  lemma CheckBuffers(s: Sys, t: nat, d: Decision)
    requires Inv(s) && Orderly(s) && Enabled(s, Check(t))
    ensures var s' := Step(s, Check(t));
            && (Found(s, t) == Some(d) ==> Buffered(s, d) && d !in Behind(s, t))
            && (d in Behind(s, t) ==> Buffered(s, d) && Found(s, t).Some?)
            && (Buffered(s', d) <==> Buffered(s, d) && Found(s, t) != Some(d) && d !in Behind(s, t))
  {
    var key := ReqKey(s.calls[t].req);
    assert Increasing(Entry(s.gate.pending, key));
    TakeBuffers(s.gate, key, s.calls[t].req.traceID, d);
    CheckGate(s, t);
    assert d in Entry(s.gate.pending, key) ==> KeyOf(d) == key;
  }

  lemma CheckOrderly(s: Sys, t: nat)
    requires Inv(s) && Orderly(s) && Enabled(s, Check(t))
    ensures Orderly(Step(s, Check(t)))
  {
    var s', req := Step(s, Check(t)), s.calls[t].req;
    var key := ReqKey(req);
    TakeSplits(s.gate, key, req.traceID);
    forall k
      ensures Increasing(Entry(s'.gate.pending, k))
    {
      assert Increasing(Entry(s.gate.pending, k));
      if k == key && Found(s, t).Some? {
        IncreasingSplit(Entry(s.gate.pending, key), Entry(s'.gate.pending, key), Found(s, t).value, Behind(s, t));
      }
    }
  }

  /** Held decisions were routed. */
  lemma HeldIsRouted(s: Sys, t: nat, d: Decision)
    requires Inv(s) && Holds(s, t, d)
    ensures d in s.routed && t < |s.calls|
  {
    assert CallOk(s, t);
  }

  /** No step takes a decision from a call, and only a look gives a routed one to a call. */
  lemma HolderStep(s: Sys, a: Action, t: nat, d: Decision)
    requires Inv(s) && Stamps(s) && Enabled(s, a) && d in s.routed
    ensures Holds(Step(s, a), t, d) <==> Holds(s, t, d) || (a == Check(t) && Found(s, t) == Some(d))
  {
    var s' := Step(s, a);
    if t < |s.calls| {
      assert CallOk(s, t);
    }
    match a
    case Deliver(given) => DeliverHolders(s, given, t, d);
    case Check(u) => TakeIs(s.gate, ReqKey(s.calls[u].req), s.calls[u].req.traceID);
    case Leave(u) =>
      assert Quiescent(s.gate, ReqKey(s.calls[u].req));
      RemoveIs(s.gate, ReqKey(s.calls[u].req), u);
    case _ =>
  }

  lemma DeliverHolders(s: Sys, given: Decision, t: nat, d: Decision)
    requires Inv(s) && Stamps(s) && ValidDecision(given) && d in s.routed
    ensures Holds(Step(s, Deliver(given)), t, d) <==> Holds(s, t, d)
  {
    var e := Stamped(s, given);
    assert e != d;
    assert Quiescent(s.gate, KeyOf(e));
    RouteIs(s.gate, e);
    if t in s.gate.chans {
      SlotAfter(s, e, t);
      if Registered(s, t, s.calls[t].req) {
        assert WaiterOk(s, ReqKey(s.calls[t].req), Waiter(s.calls[t].req.traceID, t));
      }
    }
  }

  /** Except by a look, the buffer only gains the decision that is delivered. */
  lemma BufferStep(s: Sys, a: Action, d: Decision)
    requires Inv(s) && Stamps(s) && Enabled(s, a) && !a.Check? && d in s.routed
    ensures Buffered(Step(s, a), d) <==> Buffered(s, d)
  {
    match a
    case Deliver(given) =>
      assert Quiescent(s.gate, KeyOf(given));
      RouteIs(s.gate, Stamped(s, given));
      assert Stamped(s, given) != d;
    case Leave(u) =>
      assert Quiescent(s.gate, ReqKey(s.calls[u].req));
      RemoveIs(s.gate, ReqKey(s.calls[u].req), u);
    case _ =>
  }

  /** A routed decision stays in one place. */
  lemma PlaceStep(s: Sys, a: Action, d: Decision)
    requires Books(s) && Enabled(s, a) && d in s.routed
    ensures InOnePlace(Step(s, a), d)
  {
    var s' := Step(s, a);
    assert InOnePlace(s, d);
    forall t: nat {
      HolderStep(s, a, t, d);
    }
    match a
    case Check(t) =>
      CheckBuffers(s, t, d);
      assert Found(s, t) == Some(d) ==> Holds(s', t, d);
      assert Discarded(s', d) <==> Discarded(s, d) || d in Behind(s, t);
    case _ =>
      BufferStep(s, a, d);
    assert HandedOver(s, d) ==> HandedOver(s', d);
  }

  /** A new decision is buffered or handed over, never both. */
  lemma DeliveredPlace(s: Sys, given: Decision)
    requires Books(s) && ValidDecision(given)
    ensures InOnePlace(Step(s, Deliver(given)), Stamped(s, given))
  {
    var s', e := Step(s, Deliver(given)), Stamped(s, given);
    var ws := Entry(s.gate.waiters, KeyOf(e));
    assert e !in s.routed && !Discarded(s', e);
    assert Quiescent(s.gate, KeyOf(e));
    RouteIs(s.gate, e);
    assert !Buffered(s, e);
    if exists w :: w in ws && Accepts(w, e) {
      var w :| w in ws && Accepts(w, e);
      assert Holds(s', w.ch, e);
    } else {
      forall t: nat
        ensures !Holds(s', t, e)
      {
        NotHandedOver(s, given, t);
      }
    }
  }

  lemma NotHandedOver(s: Sys, given: Decision, t: nat)
    requires Books(s) && ValidDecision(given)
    requires forall w | w in Entry(s.gate.waiters, KeyOf(given)) :: !Accepts(w, Stamped(s, given))
    ensures !Holds(Step(s, Deliver(given)), t, Stamped(s, given))
  {
    var e := Stamped(s, given);
    if Holds(s, t, e) {
      HeldIsRouted(s, t, e);
    }
    assert Quiescent(s.gate, KeyOf(e));
    RouteIs(s.gate, e);
    if t in s.gate.chans {
      SlotAfter(s, e, t);
      assert Registered(s, t, s.calls[t].req) && KeyOf(e) == ReqKey(s.calls[t].req) ==>
               !Accepts(Waiter(s.calls[t].req.traceID, t), e);
    }
  }

  lemma PendingStamp(s: Sys, key: Key, d: Decision)
    requires Inv(s) && Stamps(s) && d in Entry(s.gate.pending, key)
    ensures d.serial < |s.routed|
  {
    assert d in s.routed;
    var i :| 0 <= i < |s.routed| && s.routed[i] == d;
  }

  lemma DeliverOrderly(s: Sys, given: Decision)
    requires Books(s) && ValidDecision(given)
    ensures Orderly(Step(s, Deliver(given)))
  {
    var s', e := Step(s, Deliver(given)), Stamped(s, given);
    assert Quiescent(s.gate, KeyOf(e));
    RouteIs(s.gate, e);
    forall key
      ensures Increasing(Entry(s'.gate.pending, key))
    {
      var ds := Entry(s.gate.pending, key);
      assert Increasing(ds);
      forall i | 0 <= i < |ds|
        ensures ds[i].serial < e.serial
      {
        PendingStamp(s, key, ds[i]);
      }
    }
  }

  lemma OrderStep(s: Sys, a: Action)
    requires Books(s) && Enabled(s, a)
    ensures Orderly(Step(s, a)) && Stamps(Step(s, a))
  {
    match a
    case Deliver(given) => DeliverOrderly(s, given);
    case Check(t) => CheckOrderly(s, t);
    case Leave(u) =>
      assert Quiescent(s.gate, ReqKey(s.calls[u].req));
      RemoveIs(s.gate, ReqKey(s.calls[u].req), u);
    case _ =>
  }

  lemma BooksStep(s: Sys, a: Action)
    requires Books(s) && Enabled(s, a)
    ensures Books(Step(s, a))
  {
    var s' := Step(s, a);
    StepInv(s, a);
    OrderStep(s, a);
    forall d | d in s'.routed
      ensures InOnePlace(s', d)
    {
      if d in s.routed {
        PlaceStep(s, a, d);
      } else {
        DeliveredPlace(s, a.decision);
      }
    }
    forall d | d in s'.discarded
      ensures d in s'.routed
    {
      if d !in s.discarded {
        CheckBuffers(s, a.call, d);
      }
    }
  }

  // ------------------------------------------------------------- main results

  lemma {:induction false} ReachableBooks(actions: seq<Action>, s: Sys)
    requires Reaches(actions, s)
    ensures Books(s)
    decreases |actions|
  {
    if actions == [] {
      EmptyInv();
    } else {
      var front, last := actions[..|actions| - 1], actions[|actions| - 1];
      var p :| Reaches(front, p) && Enabled(p, last) && s == Step(p, last);
      ReachableBooks(front, p);
      BooksStep(p, last);
    }
  }

  /** The call has left with another result while the decision was still in its channel. */
  predicate Abandoned(s: Sys, t: nat, d: Decision) {
    InSlot(s, t, d) && t < |s.calls| && (s.calls[t].phase.Leaving? || s.calls[t].phase.Done?)
    && s.calls[t].phase.result != Decided(d)
  }

  /** Some call may still return it, or has returned it. */
  ghost predicate OnItsWay(s: Sys, d: Decision) {
    || Buffered(s, d)
    || (exists t :: Answered(s, t, d))
    || (exists t :: InSlot(s, t, d) && !Abandoned(s, t, d))
  }

  /**
    The accounting. In every state of every run each routed decision is in exactly one place.
    It is lost exactly if it was discarded behind a decision taken, or was handed only to calls
    that have since left with another result: a timeout, a cancellation, or a decision found
    by their second look. A buffered one is buffered once.
   */
  lemma EveryDecisionAccounted(actions: seq<Action>, s: Sys, d: Decision)
    requires Reaches(actions, s) && d in s.routed
    ensures InOnePlace(s, d)
    ensures !OnItsWay(s, d) <==> Discarded(s, d) || (HandedOver(s, d) && forall t | Holds(s, t, d) :: Abandoned(s, t, d))
    ensures Increasing(Entry(s.gate.pending, KeyOf(d)))
  {
    ReachableBooks(actions, s);
    assert InOnePlace(s, d);
    forall t: nat
      ensures Answered(s, t, d) ==> Holds(s, t, d) && !Abandoned(s, t, d)
      ensures InSlot(s, t, d) ==> Holds(s, t, d)
    {
    }
    assert !Discarded(s, d) && !Buffered(s, d) && !OnItsWay(s, d) ==> HandedOver(s, d);
  }

  /** A decision leaves the buffer only to the call that takes it, or behind the one it takes. */
  lemma LeavesBuffer(s: Sys, a: Action, d: Decision)
    requires Books(s) && Enabled(s, a) && Buffered(s, d) && !Buffered(Step(s, a), d)
    ensures a.Check? && Found(s, a.call).Some?
    ensures (Found(s, a.call) == Some(d) && Answered(Step(s, a), a.call, d))
         != (d in Behind(s, a.call) && Discarded(Step(s, a), d))
  {
    assert d in s.routed;
    if !a.Check? {
      BufferStep(s, a, d);
    } else {
      CheckBuffers(s, a.call, d);
    }
  }

  /** Routed, and no longer there for any further call. */
  predicate Spent(s: Sys, d: Decision) {
    d in s.routed && !Buffered(s, d)
  }

  /** What is spent stays spent, and no further call ever gets it. */
  ghost predicate NothingReturns(s: Sys, s': Sys) {
    && s.routed <= s'.routed
    && (forall d | Spent(s, d) :: Spent(s', d))
    && (forall d, t | Spent(s, d) && Holds(s', t, d) :: Holds(s, t, d))
  }

  lemma NothingReturnsStep(s: Sys, a: Action)
    requires Books(s) && Enabled(s, a)
    ensures NothingReturns(s, Step(s, a))
  {
    forall d | Spent(s, d)
      ensures Spent(Step(s, a), d)
    {
      if a.Check? {
        CheckBuffers(s, a.call, d);
      } else {
        BufferStep(s, a, d);
      }
    }
    forall d, t | Spent(s, d) && Holds(Step(s, a), t, d)
      ensures Holds(s, t, d)
    {
      HolderStep(s, a, t, d);
      if a == Check(t) {
        CheckBuffers(s, t, d);
      }
    }
  }

  lemma NothingReturnsJoin(s: Sys, s1: Sys, s2: Sys)
    requires NothingReturns(s, s1) && NothingReturns(s1, s2)
    ensures NothingReturns(s, s2)
  {
  }

  /** A call that has its decision has spent it. */
  lemma HeldIsSpent(s: Sys, t: nat, d: Decision)
    requires Books(s) && Holds(s, t, d)
    ensures Spent(s, d) && d.serial < |s.routed| && s.routed[d.serial] == d
  {
    HeldIsRouted(s, t, d);
    assert InOnePlace(s, d) && HandedOver(s, d);
  }

  /** No replay. Whatever happens, a spent decision never passes to a call that begins later. */
  lemma NoReplay(actions: seq<Action>, s: Sys, more: seq<Action>, s': Sys, t: nat, d: Decision)
    requires Reaches(actions, s) && Runs(s, more, s')
    requires Spent(s, d) && t >= |s.calls|
    ensures !Holds(s', t, d)
  {
    ReachableBooks(actions, s);
    RunReturnsNothing(s, more, s');
    if Holds(s', t, d) {
      HeldIsRouted(s, t, d);
    }
  }

  ghost predicate Runs(s: Sys, actions: seq<Action>, s': Sys)
    decreases |actions|
  {
    if actions == [] then s' == s
    else Enabled(s, actions[0]) && Runs(Step(s, actions[0]), actions[1..], s')
  }

  lemma {:induction false} RunReturnsNothing(s: Sys, actions: seq<Action>, s': Sys)
    requires Books(s) && Runs(s, actions, s')
    ensures NothingReturns(s, s') && Books(s')
    decreases |actions|
  {
    if actions != [] {
      BooksStep(s, actions[0]);
      NothingReturnsStep(s, actions[0]);
      RunReturnsNothing(Step(s, actions[0]), actions[1..], s');
      NothingReturnsJoin(s, Step(s, actions[0]), s');
    }
  }

  /** The look of a call that finds two decisions buffered. */
  lemma LookDropsSecond(req: Request, d0: Decision, d1: Decision)
    requires ValidRequest(req) && TraceMatches(req.traceID, d0.traceID)
    ensures var s := Step(TwoBuffered(ReqKey(req), d0, d1), Arrive(req));
            && Enabled(s, Check(0)) && Found(s, 0) == Some(d0) && Behind(s, 0) == [d1]
  {
    assert FirstMatch(req.traceID, [d0, d1]) == 0;
  }

  lemma LookEffect(s: Sys, t: nat)
    requires Enabled(s, Check(t)) && Found(s, t).Some?
    ensures Answered(Step(s, Check(t)), t, Found(s, t).value)
    ensures forall d | d in Behind(s, t) :: Discarded(Step(s, Check(t)), d)
    ensures Step(s, Check(t)).routed == s.routed
  {
  }

  lemma DiscardedIsLost(s: Sys, d: Decision)
    requires Reachable(s) && Discarded(s, d)
    ensures d in s.routed && !OnItsWay(s, d)
  {
    var actions :| Reaches(actions, s);
    ReachableBooks(actions, s);
    EveryDecisionAccounted(actions, s, d);
  }

  /** Two decisions for one call, buffered; a look takes the first and the second is lost. */
  lemma DecisionIsLost(first: Decision, second: Decision, req: Request)
    requires ValidDecision(first) && ValidDecision(second) && ValidRequest(req)
    requires KeyOf(first) == KeyOf(second) == ReqKey(req) && TraceMatches(req.traceID, first.traceID)
    ensures exists s, d :: Reachable(s) && d == second.(serial := 1) && d in s.routed
                           && Answered(s, 0, first.(serial := 0)) && Discarded(s, d) && !OnItsWay(s, d)
  {
    var d0, d1 := first.(serial := 0), second.(serial := 1);
    var s2 := TwoBuffered(ReqKey(req), d0, d1);
    DeliverTwo(first, second);
    LookDropsSecond(req, d0, d1);
    var s3 := Step(s2, Arrive(req));
    StepReachable(s2, Arrive(req));
    LookEffect(s3, 0);
    StepReachable(s3, Check(0));
    DiscardedIsLost(Step(s3, Check(0)), d1);
  }

  /** The gate with two decisions buffered and nobody waiting. */
  function TwoBuffered(key: Key, d0: Decision, d1: Decision): Sys {
    Sys(Gate(map[key := [d0, d1]], map[], map[]), [], [d0, d1], [])
  }

  lemma DeliverTwo(first: Decision, second: Decision)
    requires ValidDecision(first) && ValidDecision(second) && KeyOf(first) == KeyOf(second)
    ensures Reachable(TwoBuffered(KeyOf(first), first.(serial := 0), second.(serial := 1)))
  {
    var key, d0, d1 := KeyOf(first), first.(serial := 0), second.(serial := 1);
    var s1 := Step(Empty, Deliver(first));
    assert [] + [d0] == [d0];
    assert s1 == Sys(Gate(map[key := [d0]], map[], map[]), [], [d0], []);
    assert Step(s1, Deliver(second)) == TwoBuffered(key, d0, d1) by {
      assert [d0] + [d1] == [d0, d1] && KeyOf(d1) == key;
      assert map[key := [d0]][key := [d0, d1]] == map[key := [d0, d1]];
    }
    EmptyReachable();
    StepReachable(Empty, Deliver(first));
    StepReachable(s1, Deliver(second));
  }
}
