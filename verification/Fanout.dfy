/** The per-task event stream of internal/llm/stream_fanout.go. */
module Fanouts {
  import opened Options

  datatype Event = Delta | ToolCalled | WaitingApproval | ToolResulted | Final | Error | Timeout | Cancelled

  datatype Chunk = Chunk(taskID: string, sequence: nat, event: Event, done: bool,
                         delta: string, error: string, data: string)

  predicate IsTerminal(event: Event) {
    event == Final || event == Error || event == Timeout || event == Cancelled
  }

  /** The state of a fanout with everything handed to its publisher so far. */
  datatype Stream = Stream(taskID: string, sequence: nat, terminalSent: bool, chunks: seq<Chunk>)

  /** An ordinary chunk takes the next number and is published. */
  function Push(s: Stream, event: Event, delta: string, error: string, data: string): Stream {
    s.(sequence := s.sequence + 1,
       chunks := s.chunks + [Chunk(s.taskID, s.sequence + 1, event, false, delta, error, data)])
  }

  /** A terminal chunk always takes a number but is published only the first time. */
  function PushTerminal(s: Stream, event: Event, error: string, data: string): Stream {
    if s.terminalSent then s.(sequence := s.sequence + 1)
    else
      s.(sequence := s.sequence + 1, terminalSent := true,
         chunks := s.chunks + [Chunk(s.taskID, s.sequence + 1, event, true, "", error, data)])
  }

  function Events(chunks: seq<Chunk>): seq<Event> {
    seq(|chunks|, i requires 0 <= i < |chunks| => chunks[i].event)
  }

  /** Numbered 1, 2, ... without gaps. */
  ghost predicate Consecutive(s: Stream) {
    && |s.chunks| == s.sequence
    && forall i | 0 <= i < |s.chunks| :: s.chunks[i].sequence == i + 1
  }

  /** Chunks marked done are the terminal ones; before the latch is set there are none. */
  ghost predicate Open(s: Stream) {
    !s.terminalSent && forall i | 0 <= i < |s.chunks| :: !s.chunks[i].done && !IsTerminal(s.chunks[i].event)
  }

  /** Exactly one done chunk, in last place, and it is the only terminal event. */
  ghost predicate Closed(s: Stream) {
    && s.terminalSent && s.chunks != []
    && s.chunks[|s.chunks| - 1].done && IsTerminal(s.chunks[|s.chunks| - 1].event)
    && forall i | 0 <= i < |s.chunks| - 1 :: !s.chunks[i].done && !IsTerminal(s.chunks[i].event)
  }

  function LastEvent(s: Stream): Event
    requires s.chunks != []
  {
    s.chunks[|s.chunks| - 1].event
  }

  lemma PushEvents(s: Stream, event: Event, delta: string, error: string, data: string)
    ensures Events(Push(s, event, delta, error, data).chunks) == Events(s.chunks) + [event]
    ensures Consecutive(s) ==> Consecutive(Push(s, event, delta, error, data))
    ensures Open(s) && !IsTerminal(event) ==> Open(Push(s, event, delta, error, data))
  {
  }

  lemma PushTerminalEvents(s: Stream, event: Event, error: string, data: string)
    requires !s.terminalSent
    ensures Events(PushTerminal(s, event, error, data).chunks) == Events(s.chunks) + [event]
    ensures Consecutive(s) ==> Consecutive(PushTerminal(s, event, error, data))
    ensures Open(s) && IsTerminal(event) ==> Closed(PushTerminal(s, event, error, data))
  {
  }

  /** What the publisher says to the chunk that was handed to it in between, if any. */
  function Answer(publish: Chunk -> Option<string>, before: Stream, after: Stream): Option<string> {
    if |after.chunks| > |before.chunks| then publish(after.chunks[|after.chunks| - 1]) else None
  }

  /** What can be asked of a fanout. */
  datatype Emission =
    | Ordinary(event: Event, delta: string, error: string, data: string)
    | Terminal(event: Event, error: string, data: string)

  predicate WellTyped(e: Emission) {
    e.Terminal? <==> IsTerminal(e.event)
  }

  function After(s: Stream, e: Emission): Stream {
    match e
    case Ordinary(event, delta, error, data) => Push(s, event, delta, error, data)
    case Terminal(event, error, data) => PushTerminal(s, event, error, data)
  }

  function AfterAll(s: Stream, es: seq<Emission>): Stream {
    if es == [] then s else After(AfterAll(s, es[..|es| - 1]), es[|es| - 1])
  }

  function DoneCount(chunks: seq<Chunk>): nat {
    if chunks == [] then 0
    else DoneCount(chunks[..|chunks| - 1]) + (if chunks[|chunks| - 1].done then 1 else 0)
  }

  lemma DoneCountSnoc(chunks: seq<Chunk>, c: Chunk)
    ensures DoneCount(chunks + [c]) == DoneCount(chunks) + (if c.done then 1 else 0)
  {
    assert (chunks + [c])[..|chunks|] == chunks;
  }

  ghost predicate Ascending(chunks: seq<Chunk>, last: nat) {
    && (forall i, j :: 0 <= i < j < |chunks| ==> chunks[i].sequence < chunks[j].sequence)
    && forall i | 0 <= i < |chunks| :: 0 < chunks[i].sequence <= last
  }

  /** Every emission has taken a number, and the latch tells whether a done chunk was published. */
  ghost predicate Latched(s: Stream, emissions: nat) {
    && s.sequence == emissions && Ascending(s.chunks, s.sequence)
    && DoneCount(s.chunks) == (if s.terminalSent then 1 else 0)
  }

  lemma LatchStep(s: Stream, n: nat, e: Emission)
    requires Latched(s, n) && WellTyped(e)
    ensures Latched(After(s, e), n + 1)
    ensures After(s, e).terminalSent <==> s.terminalSent || IsTerminal(e.event)
  {
    var s' := After(s, e);
    if s'.chunks != s.chunks {
      var c := s'.chunks[|s.chunks|];
      assert s'.chunks == s.chunks + [c];
      DoneCountSnoc(s.chunks, c);
    }
  }

  /**
    The latch, over any list of emissions on a fresh fanout: every emission takes a number,
    the numbers ascend, and there is one done chunk if some emission was terminal, else none,
    however many terminal ones there were.
   */
  lemma {:induction false} OneTerminalEver(taskID: string, es: seq<Emission>)
    requires forall e | e in es :: WellTyped(e)
    ensures var s := AfterAll(Stream(taskID, 0, false, []), es);
            Latched(s, |es|) && (s.terminalSent <==> exists e :: e in es && IsTerminal(e.event))
  {
    if es != [] {
      var front, last := es[..|es| - 1], es[|es| - 1];
      assert es == front + [last];
      OneTerminalEver(taskID, front);
      LatchStep(AfterAll(Stream(taskID, 0, false, []), front), |front|, last);
    }
  }

  /** The publisher callback; whether it reports an error on a chunk is up to it. */
  class Publisher {
    var chunks: seq<Chunk>
    const outcome: Chunk -> Option<string>

    constructor (outcome: Chunk -> Option<string>)
      ensures chunks == [] && this.outcome == outcome
    {
      chunks := [];
      this.outcome := outcome;
    }

    method Publish(chunk: Chunk) returns (err: Option<string>)
      modifies this
      ensures chunks == old(chunks) + [chunk] && err == outcome(chunk)
    {
      chunks := chunks + [chunk];
      err := outcome(chunk);
    }
  }

  class Fanout {
    const taskID: string
    const publisher: Publisher
    var sequence: nat
    var terminalSent: bool

    constructor (taskID: string, publisher: Publisher)
      ensures this.taskID == taskID && this.publisher == publisher
      ensures sequence == 0 && !terminalSent
    {
      this.taskID, this.publisher := taskID, publisher;
      sequence, terminalSent := 0, false;
    }

    function Value(): Stream
      reads this, publisher
    {
      Stream(taskID, sequence, terminalSent, publisher.chunks)
    }

    method NewChunk(event: Event) returns (chunk: Chunk)
      modifies this`sequence
      ensures sequence == old(sequence) + 1
      ensures chunk == Chunk(taskID, sequence, event, false, "", "", "")
    {
      sequence := sequence + 1;
      chunk := Chunk(taskID, sequence, event, false, "", "", "");
    }

    method Emit(chunk: Chunk) returns (err: Option<string>)
      modifies publisher
      ensures publisher.chunks == old(publisher.chunks) + [chunk] && err == publisher.outcome(chunk)
    {
      err := publisher.Publish(chunk);
    }

    /** EmitToolCall, EmitWaitingApproval and EmitToolResult differ in event and payload only. */
    method EmitEvent(event: Event, error: string, data: string) returns (err: Option<string>)
      modifies this`sequence, publisher
      ensures Value() == Push(old(Value()), event, "", error, data)
      ensures sequence == old(sequence) + 1 && terminalSent == old(terminalSent)
      ensures publisher.chunks == old(publisher.chunks) + [Chunk(taskID, sequence, event, false, "", error, data)]
      ensures err == Answer(publisher.outcome, old(Value()), Value())
    {
      var chunk := NewChunk(event);
      err := Emit(chunk.(error := error, data := data));
    }

    method EmitDelta(delta: string, data: string) returns (err: Option<string>)
      modifies this`sequence, publisher
      ensures Value() == Push(old(Value()), Delta, delta, "", data)
      ensures sequence == old(sequence) + 1 && terminalSent == old(terminalSent)
      ensures publisher.chunks == old(publisher.chunks) + [Chunk(taskID, sequence, Delta, false, delta, "", data)]
      ensures err == Answer(publisher.outcome, old(Value()), Value())
    {
      var chunk := NewChunk(Delta);
      err := Emit(chunk.(delta := delta, data := data));
    }

    /** EmitFinal, EmitError, EmitTimeout and EmitCancelled, ending in emitTerminal. */
    method EmitTerminal(event: Event, error: string, data: string) returns (err: Option<string>)
      modifies this, publisher
      ensures Value() == PushTerminal(old(Value()), event, error, data)
      ensures sequence == old(sequence) + 1 && terminalSent
      ensures publisher.chunks == old(publisher.chunks) +
                if old(terminalSent) then [] else [Chunk(taskID, sequence, event, true, "", error, data)]
      ensures err == Answer(publisher.outcome, old(Value()), Value())
    {
      var chunk := NewChunk(event);
      if terminalSent {
        return None;
      }
      terminalSent := true;
      err := Emit(chunk.(done := true, error := error, data := data));
    }
  }
}
