/**
  The Sender of internal/gateway/sender.go as it runs: its map of sinks, its subscription on
  the bus, and the dispatch loop. Whenever the loop does not hold the lock, handlers may
  register and unregister sinks and anyone may publish; every access is one step of `Senders`.
 */
module Dispatching {
  import opened Fanouts
  import opened Sse
  import opened Senders

  ghost predicate Reaches(h: Hub, h': Hub) {
    exists trace :: Leads(h, trace, h')
  }

  lemma ReachesSelf(h: Hub)
    ensures Reaches(h, h)
  {
    assert Leads(h, [], h);
  }

  lemma ReachesStep(h: Hub, h': Hub, a: Action)
    requires Reaches(h, h') && Enabled(h', a)
    ensures Reaches(h, Step(h', a))
  {
    var trace :| Leads(h, trace, h');
    LeadsSnoc(h, trace, h', a);
  }

  lemma ReachableOk(h: Hub)
    requires Reaches(Start, h)
    ensures HubOk(h)
  {
    var trace :| Leads(Start, trace, h);
    RunOk(Start, trace, h);
  }

  /** The step extends both the whole history and the part since `h0`. */
  lemma BothReach(h0: Hub, h: Hub, a: Action)
    requires Reaches(Start, h) && Reaches(h0, h) && Enabled(h, a)
    ensures Reaches(Start, Step(h, a)) && Reaches(h0, Step(h, a))
  {
    ReachesStep(Start, h, a);
    ReachesStep(h0, h, a);
  }

  class Sender {
    const transport: FakeTransport
    const subID: nat
    const enc: Encoder
    var sinks: map<string, ChatSink>
    /** All sinks ever registered, in order, and the state of the model. */
    ghost var known: seq<ChatSink>
    ghost var hub: Hub

    constructor (transport: FakeTransport, enc: Encoder)
      requires transport.Valid()
      modifies transport
      ensures Valid() && hub == Start && this.transport == transport
    {
      var id := transport.Subscribe("chunks.*");
      this.transport, this.enc, subID := transport, enc, id;
      sinks := map[];
      known, hub := [], Start;
      ReachesSelf(Start);
    }

    /** Sinks are only added, and added ones are new objects. */
    twostate predicate Grown()
      reads this
    {
      && old(known) <= known
      && forall i | |old(known)| <= i < |known| :: fresh(known[i]) && fresh(known[i].w)
    }

    /** The sink is in the state that the log says. */
    ghost predicate Mirrors(sink: ChatSink, l: SinkLog)
      reads sink, sink.w
    {
      && sink.Valid() && sink.attempts == l.attempts && sink.written == l.written && sink.closes == l.closes
      && (l.closes == 0 ==> sink.broken == l.failed)
    }

    ghost predicate Separate()
      reads this
    {
      forall i, j :: 0 <= i < j < |known| ==> known[i] != known[j] && known[i].w != known[j].w
    }

    ghost predicate Registry()
      reads this
    {
      sinks.Keys == hub.sinks.Keys && forall t | t in sinks :: hub.sinks[t] < |known| && sinks[t] == known[hub.sinks[t]]
    }

    ghost predicate Subscribed()
      reads this, transport
    {
      && transport.Valid() && subID in transport.subscribers && 0 <= LookedUp(hub) && hub.taken <= |hub.accepted|
      && transport.subscribers[subID] == Subscriber("chunks.*", hub.accepted[hub.taken..])
    }

    ghost predicate Valid()
      reads this, transport, known, set i | 0 <= i < |known| :: known[i].w
    {
      && Reaches(Start, hub) && Subscribed() && Registry() && Separate() && |known| == |hub.logs|
      && forall i | 0 <= i < |known| :: Mirrors(known[i], hub.logs[i])
    }

    /** PublishChunk: over the bus to every subscriber, this one among them. */
    method PublishChunk(c: Chunk) returns (ok: bool)
      requires Valid()
      modifies this`hub, transport
      ensures Valid() && (ok <==> c.taskID != "")
      ensures hub == if ok then Step(old(hub), Publish(c)) else old(hub)
    {
      if c.taskID == "" {
        return false;
      }
      SenderHearsEveryTask(c.taskID);
      ReachableOk(hub);
      ReachesStep(Start, hub, Publish(c));
      transport.Publish("chunks." + c.taskID, c);
      hub := Step(hub, Publish(c));
      return true;
    }

    method RegisterSink(taskID: string, sink: ChatSink)
      requires Valid() && sink.Valid() && sink.attempts == [] && sink.written == [] && sink.closes == 0 && !sink.broken
      requires forall i | 0 <= i < |known| :: known[i] != sink && known[i].w != sink.w
      modifies this`sinks, this`known, this`hub
      ensures Valid() && hub == Step(old(hub), Register(taskID))
      ensures sinks == old(sinks)[taskID := sink] && known == old(known) + [sink]
    {
      ReachableOk(hub);
      ReachesStep(Start, hub, Register(taskID));
      sinks := sinks[taskID := sink];
      known := known + [sink];
      hub := Step(hub, Register(taskID));
    }

    method UnregisterSink(taskID: string)
      requires Valid()
      modifies this`sinks, this`hub
      ensures Valid() && hub == Step(old(hub), Unregister(taskID)) && sinks == old(sinks) - {taskID}
    {
      ReachableOk(hub);
      ReachesStep(Start, hub, Unregister(taskID));
      sinks := sinks - {taskID};
      hub := Step(hub, Unregister(taskID));
    }

    /** A handler registers a sink for a new response. */
    method RegisterNew(taskID: string)
      requires Valid()
      modifies this`sinks, this`known, this`hub
      ensures Valid() && hub == Step(old(hub), Register(taskID))
      ensures Grown()
    {
      var w := new ResponseWriter();
      var sink := new ChatSink(w, enc);
      RegisterSink(taskID, sink);
    }

    /** One thing that others do. */
    method Intrude(ghost h0: Hub)
      requires Valid() && Reaches(h0, hub)
      modifies this`sinks, this`known, this`hub, transport
      ensures Valid() && Reaches(h0, hub) && hub.stage == old(hub.stage) && hub.taken == old(hub.taken)
      ensures Grown()
    {
      var task: string, pick: nat, c: Chunk := *, *, *;
      ReachableOk(hub);
      if pick == 0 {
        ReachesStep(h0, hub, Publish(c));
        var _ := PublishChunk(c);
      } else if pick == 1 {
        ReachesStep(h0, hub, Unregister(task));
        UnregisterSink(task);
      } else {
        ReachesStep(h0, hub, Register(task));
        RegisterNew(task);
      }
    }

    /** What others do while the loop does not hold the lock. */
    method Interfere(ghost h0: Hub)
      requires Valid() && Reaches(h0, hub)
      modifies this`sinks, this`known, this`hub, transport
      ensures Valid() && Reaches(h0, hub) && hub.stage == old(hub.stage) && hub.taken == old(hub.taken)
      ensures Grown()
    {
      var n: nat := *;
      while n > 0
        invariant Valid() && Reaches(h0, hub) && hub.stage == old(hub.stage) && hub.taken == old(hub.taken)
        invariant Grown()
      {
        Intrude(h0);
        n := n - 1;
      }
    }

    // --------------------------------------------------------- the dispatch loop

    method Receive(ghost h0: Hub) returns (c: Chunk)
      requires Valid() && Reaches(h0, hub) && Enabled(hub, Action.Receive)
      modifies this`hub, transport
      ensures Valid() && Reaches(h0, hub) && hub == Step(old(hub), Action.Receive) && hub.stage == Popped(c)
    {
      BothReach(h0, hub, Action.Receive);
      c := transport.Receive(subID);
      hub := Step(hub, Action.Receive);
    }

    /** The sink with this number. */
    ghost predicate IsSink(sink: ChatSink, k: nat)
      reads this
    {
      k < |known| && known[k] == sink
    }

    method FindSink(c: Chunk, ghost h0: Hub) returns (sink: ChatSink?, ghost k: nat)
      requires Valid() && Reaches(h0, hub) && hub.stage == Popped(c)
      modifies this`hub
      ensures Valid() && Reaches(h0, hub) && hub == Step(old(hub), Lookup)
      ensures if sink == null then hub.stage == Idle else hub.stage == Found(c, k) && IsSink(sink, k)
    {
      BothReach(h0, hub, Lookup);
      k := if c.taskID in sinks then hub.sinks[c.taskID] else 0;
      sink := if c.taskID in sinks then sinks[c.taskID] else null;
      hub := Step(hub, Lookup);
    }

    /** The sinks other than `k` are as they were. */
    twostate lemma OthersMirror(k: nat)
      requires old(Valid()) && Separate() && k < |known| == |hub.logs| && known == old(known)
      requires hub.logs == old(hub.logs)[k := hub.logs[k]]
      requires Mirrors(known[k], hub.logs[k])
      requires forall i | 0 <= i < |known| && i != k :: unchanged(known[i]) && unchanged(known[i].w)
      ensures forall i | 0 <= i < |known| :: Mirrors(known[i], hub.logs[i])
    {
    }

    /** A write to the sink that was found, whether or not it is still registered. */
    method WriteTo(sink: ChatSink, c: Chunk, ghost k: nat, ghost h0: Hub) returns (ok: bool)
      requires Valid() && Reaches(h0, hub) && hub.stage == Found(c, k) && IsSink(sink, k)
      modifies this`hub, sink, sink.w
      ensures Valid() && Reaches(h0, hub) && hub == Step(old(hub), Write(ok))
    {
      ReachableOk(hub);
      assert SinkOk(hub, k);
      ok := sink.WriteChunk(c);
      BothReach(h0, hub, Write(ok));
      hub := Step(hub, Write(ok));
      OthersMirror(k);
    }

    /** The loop's own unregistration: of the task, whichever sink it has by now. */
    method DropTask(c: Chunk, ghost h0: Hub)
      requires Valid() && Reaches(h0, hub) && hub.stage.Dropping? && hub.stage.c == c
      modifies this`sinks, this`hub
      ensures Valid() && Reaches(h0, hub) && hub == Step(old(hub), Drop)
    {
      BothReach(h0, hub, Drop);
      sinks := sinks - {c.taskID};
      hub := Step(hub, Drop);
    }

    method CloseSink(sink: ChatSink, ghost k: nat, ghost h0: Hub)
      requires Valid() && Reaches(h0, hub) && hub.stage == Closing(k) && IsSink(sink, k)
      modifies this`hub, sink, sink.w
      ensures Valid() && Reaches(h0, hub) && hub == Step(old(hub), Close)
    {
      ReachableOk(hub);
      assert SinkOk(hub, k);
      BothReach(h0, hub, Close);
      var _ := sink.Close();
      hub := Step(hub, Close);
      OthersMirror(k);
    }

    /**
      One pass of the loop in Start, with anything happening between its steps. It takes one
      chunk and carries the stages through to the end.
     */
    method Dispatch()
      requires Valid() && Enabled(hub, Action.Receive)
      modifies this`sinks, this`known, this`hub, transport, known, set i | 0 <= i < |known| :: known[i].w
      ensures Valid() && Reaches(old(hub), hub) && hub.stage == Idle && hub.taken == old(hub.taken) + 1
      ensures Grown()
    {
      ghost var h0 := hub;
      ReachesSelf(hub);
      var c, sink; ghost var k;
      c, sink, k := Fetch(h0);
      if sink != null {
        Serve(sink, c, k, h0);
      }
    }

    /** Take a chunk from the queue, and look its sink up. */
    method Fetch(ghost h0: Hub) returns (c: Chunk, sink: ChatSink?, ghost k: nat)
      requires Valid() && Reaches(h0, hub) && Enabled(hub, Action.Receive)
      modifies this`sinks, this`known, this`hub, transport
      ensures Valid() && Reaches(h0, hub) && Grown() && hub.taken == old(hub.taken) + 1
      ensures if sink == null then hub.stage == Idle else hub.stage == Found(c, k) && IsSink(sink, k)
    {
      c := Receive(h0);
      Interfere(h0);
      sink, k := FindSink(c, h0);
    }

    /** Write to the sink that was found, and drop and close it if that is due. */
    method Serve(sink: ChatSink, c: Chunk, ghost k: nat, ghost h0: Hub)
      requires Valid() && Reaches(h0, hub) && hub.stage == Found(c, k) && IsSink(sink, k)
      modifies this`sinks, this`known, this`hub, transport, known, set i | 0 <= i < |known| :: known[i].w
      ensures Valid() && Reaches(h0, hub) && hub.stage == Idle && hub.taken == old(hub.taken)
      ensures Grown()
    {
      Interfere(h0);
      var ok := WriteTo(sink, c, k, h0);
      if !ok {
        DropLater(c, h0);
      } else if c.done {
        DropLater(c, h0);
        CloseLater(sink, k, h0);
      }
    }

    /** After a failed write, and after the done chunk: the task loses its sink. */
    method DropLater(c: Chunk, ghost h0: Hub)
      requires Valid() && Reaches(h0, hub) && hub.stage.Dropping? && hub.stage.c == c
      modifies this`sinks, this`known, this`hub, transport
      ensures Valid() && Reaches(h0, hub) && Grown() && hub.taken == old(hub.taken)
      ensures hub.stage == if old(hub.stage).wrote then Closing(old(hub.stage).sink) else Idle
    {
      Interfere(h0);
      DropTask(c, h0);
    }

    /** After the done chunk: the sink is closed. */
    method CloseLater(sink: ChatSink, ghost k: nat, ghost h0: Hub)
      requires Valid() && Reaches(h0, hub) && hub.stage == Closing(k) && IsSink(sink, k)
      modifies this`sinks, this`known, this`hub, transport, sink, sink.w
      ensures Valid() && Reaches(h0, hub) && Grown() && hub.taken == old(hub.taken) && hub.stage == Idle
    {
      Interfere(h0);
      CloseSink(sink, k, h0);
    }
  }
}
