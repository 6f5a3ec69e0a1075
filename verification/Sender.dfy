/**
  Routing of published chunks to the sink of their task: the bounded, lossy fan-out of
  internal/bus/client.go and the dispatch loop of internal/gateway/sender.go. The loop holds
  the lock of the sink map only while it looks a sink up or drops one; the writes and the
  closing happen without it, so handlers register and unregister sinks in between.
 */
module Senders {
  import opened Fanouts

  const CAPACITY := 100

  // ---------------------------------------------------------------- transport

  predicate MatchTopic(pattern: string, topic: string) {
    if pattern != "" && pattern[|pattern| - 1] == '*' then pattern[..|pattern| - 1] <= topic
    else pattern == topic
  }

  /** The sender's subscription matches the topic of every task's chunks. */
  lemma SenderHearsEveryTask(taskID: string)
    ensures MatchTopic("chunks.*", "chunks." + taskID)
  {
    assert "chunks.*"[..7] == "chunks.";
  }

  /** A pattern that ends in a star matches by prefix, any other by equality. */
  lemma MatchesAre(prefix: string, topic: string)
    ensures MatchTopic(prefix + "*", topic) <==> exists rest :: topic == prefix + rest
    ensures prefix == "" || prefix[|prefix| - 1] != '*' ==> (MatchTopic(prefix, topic) <==> topic == prefix)
  {
    assert (prefix + "*")[..|prefix|] == prefix;
    if prefix <= topic {
      assert topic == prefix + topic[|prefix|..];
    }
  }

  datatype Subscriber = Subscriber(pattern: string, queue: seq<Chunk>)

  /** A subscriber after one publication: a full or unrelated queue is left alone. */
  function Offered(s: Subscriber, topic: string, c: Chunk): Subscriber {
    if MatchTopic(s.pattern, topic) && |s.queue| < CAPACITY then s.(queue := s.queue + [c]) else s
  }

  /** A queue takes a hundred messages; what does not fit is lost. */
  lemma OfferedIs(s: Subscriber, topic: string, c: Chunk)
    ensures Offered(s, topic, c).pattern == s.pattern
    ensures Offered(s, topic, c).queue == if MatchTopic(s.pattern, topic) && |s.queue| < 100 then s.queue + [c] else s.queue
  {
  }

  class FakeTransport {
    var subscribers: map<nat, Subscriber>
    var nextSubID: nat

    ghost predicate Valid()
      reads this
    {
      forall id | id in subscribers :: id < nextSubID
    }

    constructor ()
      ensures Valid() && subscribers == map[]
    {
      subscribers, nextSubID := map[], 0;
    }

    method Subscribe(pattern: string) returns (id: nat)
      requires Valid()
      modifies this
      ensures Valid() && id !in old(subscribers)
      ensures subscribers == old(subscribers)[id := Subscriber(pattern, [])]
    {
      id := nextSubID;
      nextSubID := nextSubID + 1;
      subscribers := subscribers[id := Subscriber(pattern, [])];
    }

    method Publish(topic: string, c: Chunk)
      requires Valid()
      modifies this`subscribers
      ensures Valid()
      ensures subscribers == map id | id in old(subscribers) :: Offered(old(subscribers)[id], topic, c)
    {
      var rest := subscribers.Keys;
      while rest != {}
        invariant rest <= old(subscribers).Keys
        invariant subscribers ==
          map id | id in old(subscribers) ::
            if id in rest then old(subscribers)[id] else Offered(old(subscribers)[id], topic, c)
      {
        var id :| id in rest;
        rest := rest - {id};
        var sub := subscribers[id];
        if !MatchTopic(sub.pattern, topic) {
          continue;
        }
        if |sub.queue| < CAPACITY {
          subscribers := subscribers[id := sub.(queue := sub.queue + [c])];
        }
      }
    }

    /** Taking the oldest message from a subscription. */
    method Receive(id: nat) returns (c: Chunk)
      requires Valid() && id in subscribers && subscribers[id].queue != []
      modifies this`subscribers
      ensures Valid() && c == old(subscribers[id].queue[0])
      ensures subscribers == old(subscribers)[id := old(subscribers[id]).(queue := old(subscribers[id].queue[1..]))]
    {
      var sub := subscribers[id];
      c := sub.queue[0];
      subscribers := subscribers[id := sub.(queue := sub.queue[1..])];
    }
  }

  // ------------------------------------------------------------ the steps, on values

  /** One sink: its task, where the stream stood when it was registered, and what was done to it. */
  datatype SinkLog = SinkLog(task: string, since: nat, attempts: seq<(Chunk, bool)>, written: seq<Chunk>, failed: bool, closes: nat)

  /** Where the dispatch loop stands; sinks are numbered in order of registration. */
  datatype Stage =
    | Idle
    | Popped(c: Chunk)                            // received, about to look the sink up
    | Found(c: Chunk, sink: nat)                  // holds the sink, about to write
    | Dropping(c: Chunk, sink: nat, wrote: bool)  // about to unregister the task
    | Closing(sink: nat)                          // about to close the sink

  /** `accepted` is what the queue took in so far, of which `taken` chunks have left it again. */
  datatype Hub = Hub(published: seq<Chunk>, accepted: seq<Chunk>, taken: nat,
                     sinks: map<string, nat>, logs: seq<SinkLog>, stage: Stage)

  datatype Action =
    | Publish(c: Chunk)
    | Register(task: string)
    | Unregister(task: string)
    | Receive
    | Lookup
    | Write(ok: bool)
    | Drop
    | Close

  const Start := Hub([], [], 0, map[], [], Idle)

  /** How many chunks the loop has looked a sink up for. */
  function LookedUp(h: Hub): int {
    h.taken - if h.stage.Popped? then 1 else 0
  }

  function Logged(h: Hub, k: nat, l: SinkLog): Hub
    requires k < |h.logs|
  {
    h.(logs := h.logs[k := l])
  }

  predicate Enabled(h: Hub, a: Action) {
    match a
    case Receive => h.stage.Idle? && h.taken < |h.accepted|
    case Lookup => h.stage.Popped?
    case Write(_) => h.stage.Found? && h.stage.sink < |h.logs|
    case Drop => h.stage.Dropping?
    case Close => h.stage.Closing? && h.stage.sink < |h.logs|
    case _ => h.taken <= |h.accepted| && 0 <= LookedUp(h)
  }

  function Step(h: Hub, a: Action): Hub
    requires Enabled(h, a)
  {
    match a
    case Publish(c) =>
      h.(published := h.published + [c],
         accepted := if |h.accepted| - h.taken < CAPACITY then h.accepted + [c] else h.accepted)
    case Register(task) =>
      h.(sinks := h.sinks[task := |h.logs|], logs := h.logs + [SinkLog(task, LookedUp(h), [], [], false, 0)])
    case Unregister(task) => h.(sinks := h.sinks - {task})
    case Receive => h.(taken := h.taken + 1, stage := Popped(h.accepted[h.taken]))
    case Lookup =>
      var c := h.stage.c;
      h.(stage := if c.taskID in h.sinks then Found(c, h.sinks[c.taskID]) else Idle)
    case Write(ok) =>
      var c, k := h.stage.c, h.stage.sink;
      var l := h.logs[k].(attempts := h.logs[k].attempts + [(c, ok)]);
      var h' := Logged(h, k, if ok then l.(written := l.written + [c]) else l.(failed := true));
      h'.(stage := if !ok || c.done then Dropping(c, k, ok) else Idle)
    case Drop =>
      h.(sinks := h.sinks - {h.stage.c.taskID}, stage := if h.stage.wrote then Closing(h.stage.sink) else Idle)
    case Close =>
      var k := h.stage.sink;
      Logged(h, k, h.logs[k].(closes := h.logs[k].closes + 1)).(stage := Idle)
  }

  // ------------------------------------------------------------------ invariant

  function OfTask(task: string, chunks: seq<Chunk>): seq<Chunk> {
    if chunks == [] then []
    else
      var last := chunks[|chunks| - 1];
      OfTask(task, chunks[..|chunks| - 1]) + (if last.taskID == task then [last] else [])
  }

  lemma OfTaskSnoc(task: string, chunks: seq<Chunk>, c: Chunk)
    ensures OfTask(task, chunks + [c]) == if c.taskID == task then OfTask(task, chunks) + [c] else OfTask(task, chunks)
  {
    assert (chunks + [c])[..|chunks|] == chunks;
  }

  lemma {:induction false} OfTaskAppend(task: string, a: seq<Chunk>, b: seq<Chunk>)
    ensures OfTask(task, a + b) == OfTask(task, a) + OfTask(task, b)
  {
    if b == [] {
      assert a + b == a;
    } else {
      var front, last := b[..|b| - 1], b[|b| - 1];
      assert (a + b)[..|a + b| - 1] == a + front;
      OfTaskAppend(task, a, front);
    }
  }

  /** The chunks for which sink `k` could have been looked up. */
  function Due(h: Hub, k: nat): seq<Chunk>
    requires k < |h.logs| && h.logs[k].since <= LookedUp(h) <= |h.accepted|
  {
    OfTask(h.logs[k].task, h.accepted[h.logs[k].since..LookedUp(h)])
  }

  predicate Registered(h: Hub, k: nat)
    requires k < |h.logs|
  {
    h.logs[k].task in h.sinks && h.sinks[h.logs[k].task] == k
  }

  predicate NoneDone(chunks: seq<Chunk>) {
    forall i | 0 <= i < |chunks| :: !chunks[i].done
  }

  predicate EndsDone(chunks: seq<Chunk>) {
    chunks != [] && chunks[|chunks| - 1].done && NoneDone(chunks[..|chunks| - 1])
  }

  /** The loop is busy with sink `k`. */
  predicate With(h: Hub, k: nat) {
    (h.stage.Found? || h.stage.Dropping? || h.stage.Closing?) && h.stage.sink == k
  }

  /** A sink the loop is not busy with. */
  predicate AtRest(l: SinkLog, due: seq<Chunk>, registered: bool) {
    && l.written <= due
    && (if l.closes == 0 then NoneDone(l.written) else l.closes == 1 && EndsDone(l.written) && !l.failed)
    && (registered ==> l.written == due && !l.failed && l.closes == 0)
  }

  predicate InHand(l: SinkLog, due: seq<Chunk>, registered: bool, c: Chunk) {
    && c.taskID == l.task && l.written + [c] <= due && !l.failed && l.closes == 0 && NoneDone(l.written)
    && (registered ==> l.written + [c] == due)
  }

  predicate BeingDropped(l: SinkLog, due: seq<Chunk>, wrote: bool) {
    l.written <= due && l.closes == 0 && l.failed == !wrote && if wrote then EndsDone(l.written) else NoneDone(l.written)
  }

  predicate SinkOk(h: Hub, k: nat)
    requires k < |h.logs|
  {
    && h.logs[k].since <= LookedUp(h) <= |h.accepted|
    && var l, due := h.logs[k], Due(h, k);
       if !With(h, k) then AtRest(l, due, Registered(h, k))
       else
         match h.stage
         case Found(c, _) => InHand(l, due, Registered(h, k), c)
         case Dropping(c, _, wrote) => c.taskID == l.task && BeingDropped(l, due, wrote)
         case Closing(_) => BeingDropped(l, due, true) && !Registered(h, k)
         case _ => false
  }

  ghost predicate HubOk(h: Hub) {
    && 0 <= LookedUp(h) && h.taken <= |h.accepted|
    && (h.stage.Popped? ==> h.taken > 0 && h.stage.c == h.accepted[h.taken - 1])
    && (forall t | t in h.sinks :: h.sinks[t] < |h.logs| && h.logs[h.sinks[t]].task == t)
    && (h.stage.Found? || h.stage.Dropping? || h.stage.Closing? ==> h.stage.sink < |h.logs|)
    && forall k | 0 <= k < |h.logs| :: SinkOk(h, k)
  }

  lemma DueAfterLookup(h: Hub, k: nat)
    requires HubOk(h) && Enabled(h, Lookup) && k < |h.logs|
    ensures h.logs[k].since <= LookedUp(h) < |h.accepted|
    ensures Due(Step(h, Lookup), k) == if h.stage.c.taskID == h.logs[k].task then Due(h, k) + [h.stage.c] else Due(h, k)
  {
    var l, n := h.logs[k], LookedUp(h);
    assert SinkOk(h, k);
    assert h.accepted[l.since..n + 1] == h.accepted[l.since..n] + [h.stage.c];
    OfTaskSnoc(l.task, h.accepted[l.since..n], h.stage.c);
  }

  lemma LookupSink(h: Hub, k: nat)
    requires HubOk(h) && Enabled(h, Lookup) && k < |h.logs|
    ensures SinkOk(Step(h, Lookup), k)
  {
    assert SinkOk(h, k);
    DueAfterLookup(h, k);
  }

  lemma WriteSink(h: Hub, ok: bool, k: nat)
    requires HubOk(h) && Enabled(h, Write(ok)) && k < |h.logs|
    ensures SinkOk(Step(h, Write(ok)), k)
  {
    var l, c := h.logs[k], h.stage.c;
    assert SinkOk(h, k);
    if k == h.stage.sink && ok {
      assert (l.written + [c])[..|l.written|] == l.written;
    }
  }

  lemma StepSink(h: Hub, a: Action, k: nat)
    requires HubOk(h) && Enabled(h, a) && k < |Step(h, a).logs|
    ensures SinkOk(Step(h, a), k)
  {
    if k < |h.logs| {
      assert SinkOk(h, k);
    }
    match a
    case Lookup => LookupSink(h, k);
    case Write(ok) => WriteSink(h, ok, k);
    case Publish(c) =>
      assert Step(h, a).accepted[h.logs[k].since..LookedUp(h)] == h.accepted[h.logs[k].since..LookedUp(h)];
    case Register(task) =>
      if k == |h.logs| {
        assert h.accepted[LookedUp(h)..LookedUp(h)] == [];
      }
    case _ =>
  }

  lemma StepOk(h: Hub, a: Action)
    requires HubOk(h) && Enabled(h, a)
    ensures HubOk(Step(h, a))
  {
    forall k | 0 <= k < |Step(h, a).logs| {
      StepSink(h, a, k);
    }
  }

  /** Publishers and handlers can act at any time, and the loop can always take its next step. */
  lemma NobodyIsBlocked(h: Hub, c: Chunk, task: string, ok: bool)
    requires HubOk(h)
    ensures Enabled(h, Publish(c)) && Enabled(h, Register(task)) && Enabled(h, Unregister(task))
    ensures match h.stage
            case Idle => h.taken < |h.accepted| ==> Enabled(h, Receive)
            case Popped(_) => Enabled(h, Lookup)
            case Found(_, _) => Enabled(h, Write(ok))
            case Dropping(_, _, _) => Enabled(h, Drop)
            case Closing(_) => Enabled(h, Close)
  {
  }

  // ------------------------------------------------------------- whole runs

  ghost predicate Leads(h: Hub, trace: seq<Action>, h': Hub)
    decreases |trace|
  {
    if trace == [] then h' == h
    else Enabled(h, trace[0]) && Leads(Step(h, trace[0]), trace[1..], h')
  }

  lemma {:induction false} LeadsSnoc(h: Hub, trace: seq<Action>, h': Hub, a: Action)
    requires Leads(h, trace, h') && Enabled(h', a)
    ensures Leads(h, trace + [a], Step(h', a))
    decreases |trace|
  {
    if trace == [] {
      assert (trace + [a])[1..] == [];
    } else {
      assert (trace + [a])[1..] == trace[1..] + [a];
      LeadsSnoc(Step(h, trace[0]), trace[1..], h', a);
    }
  }

  lemma {:induction false} RunOk(h: Hub, trace: seq<Action>, h': Hub)
    requires HubOk(h) && Leads(h, trace, h')
    ensures HubOk(h')
    decreases |trace|
  {
    if trace != [] {
      StepOk(h, trace[0]);
      RunOk(Step(h, trace[0]), trace[1..], h');
    }
  }

  /** `a` is what remains of `b` after leaving some elements out. */
  ghost predicate Subsequence(a: seq<Chunk>, b: seq<Chunk>)
    decreases |b|
  {
    if a == [] then true
    else if b == [] then false
    else
      || (a[|a| - 1] == b[|b| - 1] && Subsequence(a[..|a| - 1], b[..|b| - 1]))
      || Subsequence(a, b[..|b| - 1])
  }

  lemma SubsequenceSnoc(a: seq<Chunk>, b: seq<Chunk>, c: Chunk)
    requires Subsequence(a, b)
    ensures Subsequence(a + [c], b + [c]) && Subsequence(a, b + [c])
  {
    assert (a + [c])[..|a|] == a && (b + [c])[..|b|] == b;
  }

  /** The queue had room for every chunk that was published. */
  ghost predicate Roomy(h: Hub, trace: seq<Action>)
    decreases |trace|
  {
    trace == [] || !Enabled(h, trace[0])
    || ((trace[0].Publish? ==> |h.accepted| - h.taken < 100) && Roomy(Step(h, trace[0]), trace[1..]))
  }

  /** What the queue accepted is in order, and all there was if and only if it always had room. */
  lemma {:induction false} AcceptedIs(h: Hub, trace: seq<Action>, h': Hub)
    requires Leads(h, trace, h') && Subsequence(h.accepted, h.published) && |h.accepted| <= |h.published|
    ensures Subsequence(h'.accepted, h'.published)
    ensures |h.published| - |h.accepted| <= |h'.published| - |h'.accepted|
    ensures |h.published| - |h.accepted| == |h'.published| - |h'.accepted| <==> Roomy(h, trace)
    ensures h.accepted == h.published && Roomy(h, trace) ==> h'.accepted == h'.published
    decreases |trace|
  {
    if trace != [] {
      var a := trace[0];
      if a.Publish? {
        SubsequenceSnoc(h.accepted, h.published, a.c);
      }
      AcceptedIs(Step(h, a), trace[1..], h');
    }
  }

  /** All chunks of the sink's task that were accepted since it was registered. */
  function DueSince(h: Hub, k: nat): seq<Chunk>
    requires k < |h.logs| && h.logs[k].since <= |h.accepted|
  {
    OfTask(h.logs[k].task, h.accepted[h.logs[k].since..])
  }

  lemma DuePrefix(h: Hub, k: nat)
    requires k < |h.logs| && h.logs[k].since <= LookedUp(h) <= |h.accepted|
    ensures Due(h, k) <= DueSince(h, k)
    ensures LookedUp(h) == |h.accepted| ==> Due(h, k) == DueSince(h, k)
  {
    var l, n := h.logs[k], LookedUp(h);
    assert h.accepted[l.since..] == h.accepted[l.since..n] + h.accepted[n..];
    OfTaskAppend(l.task, h.accepted[l.since..n], h.accepted[n..]);
  }

  /**
    For every run, with sinks registered and unregistered at any time: what a sink is written
    is a prefix of the chunks of its task that were accepted since it was registered, all of
    them while it is registered and the loop has caught up; the accepted chunks are an
    in-order part of the published ones, and all of them if and only if the queue always had
    room. The sink is closed at most once, after and only after a done chunk as its last one.
   */
  lemma SinkSeesItsTask(trace: seq<Action>, h: Hub, k: nat)
    requires Leads(Start, trace, h) && k < |h.logs|
    ensures h.logs[k].since <= |h.accepted|
    ensures h.logs[k].written <= DueSince(h, k)
    ensures Registered(h, k) && !With(h, k) && LookedUp(h) == |h.accepted| ==> h.logs[k].written == DueSince(h, k)
    ensures Subsequence(h.accepted, h.published) && (h.accepted == h.published <==> Roomy(Start, trace))
    ensures h.logs[k].closes <= 1 && (h.logs[k].closes == 1 ==> EndsDone(h.logs[k].written))
    ensures EndsDone(h.logs[k].written) && !With(h, k) ==> h.logs[k].closes == 1
  {
    RunOk(Start, trace, h);
    AcceptedIs(Start, trace, h);
    assert SinkOk(h, k);
    DuePrefix(h, k);
  }

  // ------------------------------------------------------------------ finality

  lemma FinishedStep(h: Hub, a: Action, k: nat)
    requires HubOk(h) && Enabled(h, a) && k < |h.logs| && (h.logs[k].failed || EndsDone(h.logs[k].written))
    ensures var l, l' := h.logs[k], Step(h, a).logs[k];
            && l'.attempts == l.attempts && l'.written == l.written && l'.failed == l.failed
            && (l.failed ==> l'.closes == l.closes == 0)
  {
    assert SinkOk(h, k);
    assert h.logs[k].written != [] ==> h.logs[k].written[|h.logs[k].written| - 1] in h.logs[k].written;
  }

  /** After a failed write or a written done chunk nothing more is written; a failed sink is never closed. */
  lemma {:induction false} FinishedIsFinal(h: Hub, trace: seq<Action>, h': Hub, k: nat)
    requires HubOk(h) && Leads(h, trace, h') && k < |h.logs| && (h.logs[k].failed || EndsDone(h.logs[k].written))
    ensures k < |h'.logs| && h'.logs[k].attempts == h.logs[k].attempts && h'.logs[k].written == h.logs[k].written
    ensures h.logs[k].failed ==> h'.logs[k].closes == 0
    decreases |trace|
  {
    if trace != [] {
      StepOk(h, trace[0]);
      FinishedStep(h, trace[0], k);
      FinishedIsFinal(Step(h, trace[0]), trace[1..], h', k);
    } else if h.logs[k].failed {
      assert SinkOk(h, k);
    }
  }

  /** The loop holds the sink and a chunk it is about to write. */
  predicate HeldForWrite(h: Hub, k: nat) {
    h.stage.Found? && h.stage.sink == k
  }

  /** The loop is on its way to close the sink. */
  predicate HeldForClose(h: Hub, k: nat) {
    || (h.stage.Found? && h.stage.sink == k && h.stage.c.done)
    || (h.stage.Dropping? && h.stage.sink == k && h.stage.wrote)
    || (h.stage.Closing? && h.stage.sink == k)
  }

  /** From `l` to `l'` at most the chunk at hand was written, and at most then the sink closed. */
  ghost predicate AtMostHeld(h: Hub, k: nat, l: SinkLog, l': SinkLog) {
    && (l'.attempts == l.attempts || (HeldForWrite(h, k) && exists ok :: l'.attempts == l.attempts + [(h.stage.c, ok)]))
    && (l'.closes == l.closes || (HeldForClose(h, k) && l'.closes == l.closes + 1))
  }

  lemma UnregisteredStep(h: Hub, a: Action, k: nat)
    requires HubOk(h) && Enabled(h, a) && k < |h.logs| && !Registered(h, k)
    ensures var h' := Step(h, a);
            && !Registered(h', k) && AtMostHeld(h, k, h.logs[k], h'.logs[k])
            && (HeldForWrite(h', k) ==> h'.stage == h.stage && h'.logs[k] == h.logs[k])
            && (HeldForClose(h', k) ==> HeldForClose(h, k) && h'.logs[k].closes == h.logs[k].closes)
            && (h'.logs[k].closes != h.logs[k].closes ==> h'.logs[k].attempts == h.logs[k].attempts)
  {
    assert SinkOk(h, k);
  }

  /**
    After an unregistration, of whatever origin, the sink is never found again: at most the
    one chunk the loop already holds for it is still written, and at most then it is closed.
   */
  lemma {:induction false} UnregisteredIsFinal(h: Hub, trace: seq<Action>, h': Hub, k: nat)
    requires HubOk(h) && Leads(h, trace, h') && k < |h.logs| && !Registered(h, k)
    ensures k < |h'.logs| && !Registered(h', k) && AtMostHeld(h, k, h.logs[k], h'.logs[k])
    decreases |trace|
  {
    if trace != [] {
      StepOk(h, trace[0]);
      UnregisteredStep(h, trace[0], k);
      UnregisteredIsFinal(Step(h, trace[0]), trace[1..], h', k);
    }
  }

  /** The run writes to the sink, or tries to. */
  ghost predicate Touches(h: Hub, trace: seq<Action>, h': Hub, k: nat) {
    Leads(h, trace, h') && k < |h.logs| && k < |h'.logs| && |h'.logs[k].attempts| > |h.logs[k].attempts|
  }

  /** Something is still written after an unregistration if and only if the loop holds the sink to write. */
  lemma WrittenAfterUnregistration(h: Hub, k: nat)
    requires HubOk(h) && k < |h.logs| && !Registered(h, k)
    ensures (exists trace, h' :: Touches(h, trace, h', k)) <==> HeldForWrite(h, k)
  {
    if HeldForWrite(h, k) {
      var h' := Step(h, Write(true));
      assert Leads(h', [Write(true)][1..], h');
      assert Touches(h, [Write(true)], h', k);
    }
    forall trace, h' | Touches(h, trace, h', k)
      ensures HeldForWrite(h, k)
    {
      UnregisteredIsFinal(h, trace, h', k);
    }
  }

  // ------------------------------------------------- undisturbed delivery

  /** The chunks up to and including the first one marked done. */
  function UpToDone(chunks: seq<Chunk>): seq<Chunk> {
    if chunks == [] then []
    else if chunks[0].done then [chunks[0]]
    else [chunks[0]] + UpToDone(chunks[1..])
  }

  lemma {:induction false} PrefixUpToDone(written: seq<Chunk>, all: seq<Chunk>)
    requires written <= all && EndsDone(written)
    ensures UpToDone(all) == written
  {
    assert written[0] == all[0];
    if |written| > 1 {
      assert written[..|written| - 1][0] == written[0];
      assert written[1..][..|written| - 2] == written[..|written| - 1][1..];
      PrefixUpToDone(written[1..], all[1..]);
    }
  }

  /** A sink that was closed got exactly the chunks of its task up to the first done one. */
  lemma ClosedSinkGotAll(trace: seq<Action>, h: Hub, k: nat)
    requires Leads(Start, trace, h) && k < |h.logs| && h.logs[k].closes == 1
    ensures h.logs[k].since <= |h.accepted| && h.logs[k].written == UpToDone(DueSince(h, k))
  {
    SinkSeesItsTask(trace, h, k);
    PrefixUpToDone(h.logs[k].written, DueSince(h, k));
  }
}
