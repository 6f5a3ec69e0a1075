/**
  ApprovalGate as it runs: the maps are fields, and each loop compacts the slice it is reading
  into its own front (`remaining := waiters[:0]`). The slice of a map entry is owned by that
  entry alone, so its backing array is a local one. The gate is shared: between any two
  sections of a call of WaitDecision, any steps of other calls and deliveries may happen.
 */
module ApprovalGates {
  import opened Options
  import opened Approval
  import opened ApprovalSystem
  import opened ApprovalLedger
  import opened GateCalls
  import opened TaskStatuses

  /** The backing array of a slice. */
  method Backing<T>(s: seq<T>) returns (buf: array<T>)
    ensures fresh(buf) && buf[..] == s
  {
    buf := new T[|s|](i requires 0 <= i < |s| => s[i]);
  }

  /** `append` to the compacted front of a slice that has been read up to position `i`. */
  method Keep<T>(buf: array<T>, n: nat, i: nat, x: T) returns (n': nat)
    requires n <= i < buf.Length
    modifies buf
    ensures n' == n + 1 && buf[..n'] == old(buf[..n]) + [x] && buf[i + 1..] == old(buf[i + 1..])
  {
    buf[n] := x;
    n' := n + 1;
  }

  class ApprovalGate {
    var pending: map<Key, seq<Decision>>
    var waiters: map<Key, seq<Waiter>>
    /** The slots of the channels that waiting calls have made. */
    var chans: map<nat, Option<Decision>>

    /** The calls that wait or waited, and what became of decisions; no section looks at these. */
    var calls: seq<Call>
    var routed: seq<Decision>
    var discarded: seq<Decision>
    /** Set when the gate could not subscribe to the approval topic. */
    const startErr: Option<RunError>

    constructor (startErr: Option<RunError>)
      ensures Valid() && Now() == Empty && this.startErr == startErr
    {
      pending, waiters, chans := map[], map[], map[];
      calls, routed, discarded := [], [], [];
      this.startErr := startErr;
      EmptyReachable();
    }

    function Value(): Gate
      reads this
    {
      Gate(pending, waiters, chans)
    }

    function Now(): Sys
      reads this
    {
      Sys(Value(), calls, routed, discarded)
    }

    ghost predicate Valid()
      reads this
    {
      Reachable(Now())
    }

    method RouteDecision(d: Decision)
      modifies this`pending, this`waiters, this`chans
      ensures Value() == Route(old(Value()), d)
    {
      var key := ApprovalKey(d.taskID, d.toolCallID);
      if key !in waiters || |waiters[key]| == 0 {
        pending := pending[key := Entry(pending, key) + [d]];
        return;
      }
      ghost var ws := waiters[key];
      var buf := Backing(waiters[key]);
      var n, delivered := 0, false;
      for i := 0 to buf.Length
        modifies this`chans, buf
        invariant n <= i && buf[i..] == ws[i..]
        invariant buf[..n] == Unmatched(ws[..i], d.traceID)
        invariant (chans, delivered) == Send(old(chans), ws[..i], d)
      {
        var waiter := buf[i];
        assert ws[..i + 1][..i] == ws[..i] && waiter == ws[i..][0];
        assert buf[i + 1..] == buf[i..][1..] == ws[i..][1..] == ws[i + 1..];
        if !TraceMatches(waiter.traceID, d.traceID) {
          n := Keep(buf, n, i, waiter);
        } else if Sendable(chans, waiter.ch) {
          chans := chans[waiter.ch := Some(d)];
          delivered := true;
        }
      }
      assert ws[..|ws|] == ws;
      if n == 0 {
        waiters := waiters - {key};
      } else {
        waiters := waiters[key := buf[..n]];
      }
      if !delivered {
        pending := pending[key := Entry(pending, key) + [d]];
      }
    }

    /** `make(chan ApprovalDecision, 1)` of a waiting call. */
    method MakeChannel(ch: nat)
      modifies this`chans
      ensures Value() == old(Value()).(chans := old(chans)[ch := None])
    {
      chans := chans[ch := None];
    }

    /** Receiving from a channel that holds a decision. */
    method TakeFrom(ch: nat) returns (d: Decision)
      requires ch in chans && chans[ch].Some?
      modifies this`chans
      ensures Some(d) == old(chans[ch]) && Value() == old(Value()).(chans := old(chans)[ch := None])
    {
      d := chans[ch].value;
      chans := chans[ch := None];
    }

    method AddWaiter(key: Key, waiter: Waiter)
      modifies this`waiters
      ensures Value() == Approval.AddWaiter(old(Value()), key, waiter)
    {
      waiters := waiters[key := Entry(waiters, key) + [waiter]];
    }

    method RemoveWaiter(key: Key, ch: nat)
      modifies this`waiters
      ensures Value() == Approval.RemoveWaiter(old(Value()), key, ch)
    {
      if key !in waiters || |waiters[key]| == 0 {
        return;
      }
      ghost var ws := waiters[key];
      var buf := Backing(waiters[key]);
      var n := 0;
      for i := 0 to buf.Length
        modifies buf
        invariant n <= i && buf[i..] == ws[i..]
        invariant buf[..n] == Without(ws[..i], ch)
      {
        var waiter := buf[i];
        assert ws[..i + 1][..i] == ws[..i] && waiter == ws[i..][0];
        assert buf[i + 1..] == buf[i..][1..] == ws[i..][1..] == ws[i + 1..];
        if waiter.ch == ch {
          continue;
        }
        n := Keep(buf, n, i, waiter);
      }
      assert ws[..|ws|] == ws;
      if n == 0 {
        waiters := waiters - {key};
        return;
      }
      waiters := waiters[key := buf[..n]];
    }

    method TakePendingDecision(key: Key, traceID: string) returns (r: Option<Decision>)
      modifies this`pending
      ensures (Value(), r) == Take(old(Value()), key, traceID)
    {
      if key !in pending || |pending[key]| == 0 {
        return None;
      }
      ghost var ds := pending[key];
      var buf := Backing(pending[key]);
      var n := 0;
      for i := 0 to buf.Length
        modifies this`pending, buf
        invariant n == i && buf[..] == ds && pending == old(pending)
        invariant forall j | 0 <= j < i :: !TraceMatches(traceID, ds[j].traceID)
      {
        var decision := buf[i];
        if !TraceMatches(traceID, decision.traceID) {
          buf[n] := decision;
          n := n + 1;
          continue;
        }
        assert FirstMatch(traceID, ds) == i;
        if n == 0 {
          pending := pending - {key};
        } else {
          pending := pending[key := buf[..n]];
        }
        return Some(decision);
      }
      assert FirstMatch(traceID, ds) == |ds|;
      assert buf[..n] == ds && pending[key := ds] == pending;
      pending := pending[key := buf[..n]];
      return None;
    }

    /** How many decisions are buffered, over all keys. */
    method PendingDecisionCount() returns (total: nat)
      ensures total == CountAll(pending)
    {
      total := 0;
      var rest := pending;
      while rest != map[]
        invariant total + CountAll(rest) == CountAll(pending)
        decreases |rest.Keys|
      {
        var key :| key in rest;
        CountMinus(rest, key);
        total := total + |rest[key]|;
        rest := rest - {key};
      }
    }

    /** consume: a message that is not a valid decision is dropped, any other is routed. */
    method Consume(d: Decision)
      modifies this`pending, this`waiters, this`chans
      ensures d.taskID == "" || d.toolCallID == "" || d.decidedAtMs <= 0 ==> Value() == old(Value())
      ensures d.taskID != "" && d.toolCallID != "" && d.decidedAtMs > 0 ==> Value() == Route(old(Value()), d)
    {
      if ValidDecision(d) {
        RouteDecision(d);
      }
    }

    // ------------------------------------------------------------ whole calls

    /** One section of some call, or one delivery, run on the gate itself. */
    method Act(a: Action, ghost s0: Sys) returns (found: Option<Decision>)
      requires Valid() && Enabled(Now(), a) && NothingReturns(s0, Now())
      modifies this
      ensures Valid() && Now() == Step(old(Now()), a) && NothingReturns(s0, Now())
      ensures found == match a
                       case Check(t) => Found(old(Now()), t)
                       case Receive(t) => old(Now()).gate.chans[t]
                       case _ => None
    {
      var next := Step(Now(), a);
      StepKeepsFaith(s0, Now(), a);
      found := None;
      match a {
        case Check(t) =>
          found := TakePendingDecision(ReqKey(calls[t].req), calls[t].req.traceID);
        case Register(t) =>
          MakeChannel(t);
          AddWaiter(ReqKey(calls[t].req), Waiter(calls[t].req.traceID, t));
        case Receive(t) =>
          var d := TakeFrom(t);
          found := Some(d);
        case Leave(t) =>
          RemoveWaiter(ReqKey(calls[t].req), t);
        case Deliver(d) =>
          Consume(Stamped(Now(), d));
        case _ =>
      }
      calls, routed, discarded := next.calls, next.routed, next.discarded;
    }

    /** Any number of steps that do not belong to call `t`. */
    method Interfere(t: nat, ghost s0: Sys)
      requires Valid() && NothingReturns(s0, Now())
      modifies this
      ensures Valid() && NothingReturns(s0, Now()) && Undisturbed(old(Now()), Now(), t)
    {
      var n: nat := *;
      while n > 0
        invariant Valid() && NothingReturns(s0, Now()) && Undisturbed(old(Now()), Now(), t)
      {
        var a: Action := *;
        if Enabled(Now(), a) && !ActsFor(a, t) {
          OthersDoNotDisturb(Now(), a, t);
          var _ := Act(a, s0);
        }
        n := n - 1;
      }
    }

    /** Call `t`, made for `req`, is in this phase. */
    predicate At(t: nat, req: Request, phase: Phase)
      reads this
    {
      t < |calls| && calls[t] == Call(req, phase)
    }

    /** The select: cancellation, the timer, or a decision that is there to be received. */
    method Select(t: nat, req: Request, ghost s0: Sys) returns (r: WaitResult)
      requires Valid() && NothingReturns(s0, Now()) && At(t, req, Waiting)
      modifies this
      ensures Valid() && NothingReturns(s0, Now()) && At(t, req, Leaving(r))
    {
      var pick: nat := *;
      if pick == 0 {
        var deadline: bool := *;
        var _ := Act(Cancel(t, deadline), s0);
        return WaitResult.Cancelled(deadline);
      }
      if pick > 1 && Enabled(Now(), Receive(t)) {
        var found := Act(Receive(t), s0);
        return Decided(found.value);
      }
      var _ := Act(Expire(t), s0);
      return TimedOut;
    }

    /** Everything from making the channel to the deferred removeWaiter. */
    method Await(t: nat, req: Request, ghost s0: Sys) returns (r: WaitResult)
      requires Valid() && NothingReturns(s0, Now()) && At(t, req, Registering)
      modifies this
      ensures Valid() && NothingReturns(s0, Now()) && At(t, req, Done(r))
    {
      var found := Act(Register(t), s0);
      Interfere(t, s0);
      found := Act(Check(t), s0);
      if found.Some? {
        r := Decided(found.value);
      } else {
        Interfere(t, s0);
        r := Select(t, req, s0);
      }
      Interfere(t, s0);
      found := Act(Leave(t), s0);
    }

    /** What one of the calls after the first `k`, made for `req`, came back with. */
    ghost predicate Answers(k: nat, req: Request, r: Outcome)
      reads this
    {
      && (r.Refused? <==> !ValidRequest(req)) && (r.Refused? ==> r.msg == RequestError(req))
      && (r.GateDown? <==> ValidRequest(req) && startErr.Some?) && (r.GateDown? ==> Some(r.err) == startErr)
      && (ValidRequest(req) && startErr == None ==>
            exists t :: k <= t < |calls| && calls[t].req == req && Returned(calls[t].phase, r))
    }

    /** The call is over, and this is how it ended. */
    ghost predicate Returned(phase: Phase, r: Outcome) {
      && phase.Done?
      && (r == ApprovalTimeout <==> phase.result == TimedOut)
      && (forall x :: r == ContextDone(x) <==> phase.result == WaitResult.Cancelled(x))
      && (forall d :: r == Got(d) <==> phase.result == Decided(d))
    }

    /**
      A decision that comes back was routed to the gate under the key of the request, with a
      matching trace, no matter what else the gate was doing meanwhile. It was not spent when
      the call began and is spent now, and whatever was spent stays so: none is used twice.
     */
    method WaitDecision(req: Request) returns (r: Outcome)
      requires Valid()
      modifies this
      ensures Valid() && NothingReturns(old(Now()), Now())
      ensures Answers(|old(calls)|, req, r)
      ensures r.Got? ==> Granted(Now(), req, r.decision) && !Spent(old(Now()), r.decision)
      ensures r.Got? ==> Spent(Now(), r.decision) && InPlace(Now(), r.decision)
      ensures r.Got? ==> r.decision in routed && r.decision.taskID + ":" + r.decision.toolCallID == req.taskID + ":" + req.toolCallID
      ensures r.Got? ==> r.decision.traceID == req.traceID || r.decision.traceID == "" || req.traceID == ""
      ensures req.taskID != "" && req.toolCallID != "" && req.toolName != "" && req.argumentsOk && startErr == None ==>
                exists t :: |old(calls)| <= t < |calls| && calls[t].req == req
                            && (r == ApprovalTimeout <==> calls[t].phase == Done(TimedOut))
                            && (forall x :: r == ContextDone(x) <==> calls[t].phase == Done(WaitResult.Cancelled(x)))
                            && (forall d :: r == Got(d) <==> calls[t].phase == Done(Decided(d)))
      ensures r.Refused? <==> req.taskID == "" || req.toolCallID == "" || req.toolName == "" || !req.argumentsOk
    {
      if !ValidRequest(req) {
        return Refused(RequestError(req));
      }
      if startErr.Some? {
        return GateDown(startErr.value);
      }
      ghost var t;
      r, t := WaitValid(req);
      assert Returned(calls[t].phase, r);
    }

    /** A call for a valid request on a gate that is up; it is the next in order of arrival. */
    method WaitValid(req: Request) returns (r: Outcome, ghost call: nat)
      requires Valid() && ValidRequest(req)
      modifies this
      ensures Valid() && NothingReturns(old(Now()), Now())
      ensures call == |old(calls)| < |calls| && calls[call].req == req && Returned(calls[call].phase, r)
      ensures r.Got? ==> Granted(Now(), req, r.decision) && !Spent(old(Now()), r.decision)
      ensures r.Got? ==> Spent(Now(), r.decision) && InPlace(Now(), r.decision)
    {
      ghost var s0 := Now();
      var t := |calls|;
      call := t;
      var found := Act(Arrive(req), s0);
      Interfere(t, s0);
      found := Act(Check(t), s0);
      if found.Some? {
        GotOnce(s0, Now(), t, req, found.value);
        r := Got(found.value);
        assert Returned(calls[t].phase, r);
        return;
      }
      Interfere(t, s0);
      var result := Await(t, req, s0);
      if result.Decided? {
        GotOnce(s0, Now(), t, req, result.decision);
      }
      match result {
        case Decided(d) => r := Got(d);
        case TimedOut => r := ApprovalTimeout;
        case Cancelled(deadline) => r := ContextDone(deadline);
      }
      assert Returned(calls[t].phase, r);
    }
  }

  ghost function CountAll(pending: map<Key, seq<Decision>>): nat
    decreases |pending.Keys|
  {
    if pending == map[] then 0
    else
      var key :| key in pending;
      |pending[key]| + CountAll(pending - {key})
  }

  lemma {:induction false} CountMinus(pending: map<Key, seq<Decision>>, key: Key)
    requires key in pending
    ensures CountAll(pending) == |pending[key]| + CountAll(pending - {key})
    decreases |pending.Keys|
  {
    var first :| first in pending && CountAll(pending) == |pending[first]| + CountAll(pending - {first});
    if first != key {
      CountMinus(pending - {first}, key);
      CountMinus(pending - {key}, first);
      assert pending - {first} - {key} == pending - {key} - {first};
    }
  }
}
