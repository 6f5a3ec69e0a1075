/**
  publishProviderStream of internal/gateway/chat_completions_handler.go: it reads a provider's
  server-sent events line by line and republishes them on the task's fanout. The framing is
  that of the code: lines are trimmed of all white space, whitespace-only lines end a frame,
  and the last frame is flushed at the end of the input.
 */
module ProviderStream {
  import opened Options
  import opened Fanouts
  import opened Text

  /** What parseProviderStreamPayload makes of a payload. */
  datatype Payload = DeltaText(text: string) | StreamFailure(msg: string) | Malformed(msg: string)

  /** How the input ends: cleanly, by a scan error, or by a context done before line `at`. */
  datatype StreamEnd = EndOfFile | ReadError(msg: string) | ContextDone(at: nat, msg: string)

  /** The state of one bridge: its stream, the text accumulated, and the error it returned. */
  datatype Bridge = Bridge(stream: Stream, content: string, failed: Option<string>)

  const DONE := "[DONE]"

  // ------------------------------------------------------------------ framing

  function Join(lines: seq<string>): string {
    if lines == [] then "" else if |lines| == 1 then lines[0] else lines[0] + "\n" + Join(lines[1..])
  }

  /** The payload of a finished frame, if it has any. */
  function Flushed(dataLines: seq<string>): seq<string> {
    if dataLines == [] then []
    else
      var payload := TrimSpace(Join(dataLines));
      if payload == "" then [] else [payload]
  }

  predicate Blank(line: string) {
    TrimSpace(line) == ""
  }

  /** The payloads of `lines` when `dataLines` is already collected. */
  function Frames(dataLines: seq<string>, lines: seq<string>, atEnd: bool): seq<string>
    decreases |lines|
  {
    if lines == [] then (if atEnd then Flushed(dataLines) else [])
    else if Blank(lines[0]) then Flushed(dataLines) + Frames([], lines[1..], atEnd)
    else if HasPrefix(lines[0], "data:") then Frames(dataLines + [TrimSpace(lines[0][5..])], lines[1..], atEnd)
    else Frames(dataLines, lines[1..], atEnd)
  }

  // ---------------------------------------------------------------- publishing

  /** The publisher's answer to each chunk decides whether the bridge goes on. */
  type Publish = Chunk -> Option<string>

  /** One payload. The publisher's answer to an error chunk is ignored. */
  function Handle(parse: string -> Payload, publish: Publish, b: Bridge, payload: string): Bridge {
    if payload == DONE then Emitted(publish, b, PushTerminal(b.stream, Final, "", b.content))
    else
      match parse(payload)
      case DeltaText(text) =>
        Emitted(publish, b, Push(b.stream, Delta, text, "", payload)).(content := b.content + text)
      case StreamFailure(msg) => b.(stream := PushTerminal(b.stream, Error, msg, ""), failed := Some(msg))
      case Malformed(msg) => b.(stream := PushTerminal(b.stream, Error, msg, ""), failed := Some(msg))
  }

  function Emitted(publish: Publish, b: Bridge, s: Stream): Bridge {
    b.(stream := s, failed := Answer(publish, b.stream, s))
  }

  /** A list of payloads, up to the first that fails. */
  function HandleAll(parse: string -> Payload, publish: Publish, b: Bridge, payloads: seq<string>): Bridge
    decreases |payloads|
  {
    if payloads == [] || b.failed.Some? then b
    else HandleAll(parse, publish, Handle(parse, publish, b, payloads[0]), payloads[1..])
  }

  function Finish(publish: Publish, b: Bridge, end: StreamEnd): Bridge {
    if b.failed.Some? then b
    else
      match end
      case EndOfFile => Emitted(publish, b, PushTerminal(b.stream, Final, "", b.content))
      case ReadError(msg) => b.(stream := PushTerminal(b.stream, Error, msg, ""), failed := Some(msg))
      case ContextDone(_, msg) => b.(stream := PushTerminal(b.stream, Event.Cancelled, msg, ""), failed := Some(msg))
  }

  /** The lines looked at before the input ends. */
  function Seen(lines: seq<string>, end: StreamEnd): seq<string> {
    if end.ContextDone? && end.at < |lines| then lines[..end.at] else lines
  }

  /** A context that is done after the last line is not noticed. */
  function Ending(lines: seq<string>, end: StreamEnd): StreamEnd {
    if end.ContextDone? && end.at >= |lines| then EndOfFile else end
  }

  function Bridged(parse: string -> Payload, publish: Publish, s: Stream, lines: seq<string>, end: StreamEnd): Bridge {
    var e := Ending(lines, end);
    Finish(publish, HandleAll(parse, publish, Bridge(s, "", None), Frames([], Seen(lines, end), e == EndOfFile)), e)
  }

  lemma HandleAllOne(parse: string -> Payload, publish: Publish, b: Bridge, payload: string)
    requires b.failed.None?
    ensures HandleAll(parse, publish, b, [payload]) == Handle(parse, publish, b, payload)
  {
  }

  lemma {:induction false} HandleAllAppend(parse: string -> Payload, publish: Publish, b: Bridge, p: seq<string>, q: seq<string>)
    ensures HandleAll(parse, publish, b, p + q) == HandleAll(parse, publish, HandleAll(parse, publish, b, p), q)
    decreases |p|
  {
    if p == [] {
      assert p + q == q;
    } else if b.failed.None? {
      assert (p + q)[1..] == p[1..] + q;
      HandleAllAppend(parse, publish, Handle(parse, publish, b, p[0]), p[1..], q);
    }
  }

  /** Flush the collected lines; an error ends the whole call. */
  method FlushFrame(parse: string -> Payload, dataLines: seq<string>, content: string, fanout: Fanout)
    returns (content': string, err: Option<string>)
    modifies fanout, fanout.publisher
    ensures Bridge(fanout.Value(), content', err)
         == HandleAll(parse, fanout.publisher.outcome, Bridge(old(fanout.Value()), content, None), Flushed(dataLines))
  {
    if |dataLines| == 0 {
      return content, None;
    }
    var payload := TrimSpace(Join(dataLines));
    if payload == "" {
      return content, None;
    }
    if payload == DONE {
      err := fanout.EmitTerminal(Final, "", content);
      return content, err;
    }
    match parse(payload) {
      case DeltaText(text) =>
        err := fanout.EmitDelta(text, payload);
        return content + text, err;
      case StreamFailure(msg) =>
        var _ := fanout.EmitTerminal(Error, msg, "");
        return content, Some(msg);
      case Malformed(msg) =>
        var _ := fanout.EmitTerminal(Error, msg, "");
        return content, Some(msg);
    }
  }

  /** The scan loop does exactly what Bridged says, whatever the publisher answers. */
  method PublishProviderStream(parse: string -> Payload, lines: seq<string>, end: StreamEnd, fanout: Fanout)
    returns (err: Option<string>)
    modifies fanout, fanout.publisher
    ensures Bridged(parse, fanout.publisher.outcome, old(fanout.Value()), lines, end).stream == fanout.Value()
    ensures Bridged(parse, fanout.publisher.outcome, old(fanout.Value()), lines, end).failed == err
  {
    var dataLines: seq<string>, content := [], "";
    ghost var seen, e := Seen(lines, end), Ending(lines, end);
    ghost var target := HandleAll(parse, fanout.publisher.outcome, Bridge(fanout.Value(), "", None), Frames([], seen, e == EndOfFile));
    var i := 0;
    while i < |lines|
      invariant i <= |seen|
      invariant target == HandleAll(parse, fanout.publisher.outcome, Bridge(fanout.Value(), content, None), Frames(dataLines, seen[i..], e == EndOfFile))
      decreases |lines| - i
    {
      if end.ContextDone? && i >= end.at {
        var _ := fanout.EmitTerminal(Event.Cancelled, end.msg, "");
        return Some(end.msg);
      }
      var line := lines[i];
      assert seen[i..][0] == line && seen[i..][1..] == seen[i + 1..];
      i := i + 1;
      if TrimSpace(line) == "" {
        HandleAllAppend(parse, fanout.publisher.outcome, Bridge(fanout.Value(), content, None), Flushed(dataLines),
                        Frames([], seen[i..], e == EndOfFile));
        content, err := FlushFrame(parse, dataLines, content, fanout);
        dataLines := [];
        if err.Some? {
          return;
        }
        continue;
      }
      if HasPrefix(line, "data:") {
        dataLines := dataLines + [TrimSpace(line[5..])];
      }
    }
    if end.ReadError? {
      var _ := fanout.EmitTerminal(Error, end.msg, "");
      return Some(end.msg);
    }
    content, err := FlushFrame(parse, dataLines, content, fanout);
    if err.Some? {
      return;
    }
    err := fanout.EmitTerminal(Final, "", content);
  }

  // ------------------------------------------------------ one terminal chunk

  /** The texts of the delta chunks, joined. */
  function Texts(chunks: seq<Chunk>): string {
    if chunks == [] then "" else Texts(chunks[..|chunks| - 1]) + chunks[|chunks| - 1].delta
  }

  lemma ChunksSnoc(chunks: seq<Chunk>, c: Chunk)
    ensures Texts(chunks + [c]) == Texts(chunks) + c.delta
    ensures DoneCount(chunks + [c]) == DoneCount(chunks) + (if c.done then 1 else 0)
  {
    assert (chunks + [c])[..|chunks|] == chunks;
  }

  /** Every chunk marked done is terminal, and a final one carries all text before it. */
  ghost predicate Truthful(chunks: seq<Chunk>) {
    forall i | 0 <= i < |chunks| ::
      && (chunks[i].done <==> IsTerminal(chunks[i].event))
      && (chunks[i].event == Final ==> chunks[i].data == Texts(chunks[..i]))
  }

  lemma TruthfulSnoc(chunks: seq<Chunk>, c: Chunk)
    requires Truthful(chunks)
    requires (c.done <==> IsTerminal(c.event)) && (c.event == Final ==> c.data == Texts(chunks))
    ensures Truthful(chunks + [c])
  {
    forall i | 0 <= i < |chunks + [c]|
      ensures var d := (chunks + [c])[i]; d.event == Final ==> d.data == Texts((chunks + [c])[..i])
    {
      assert (chunks + [c])[..i] == chunks[..i];
      assert i == |chunks| ==> chunks[..i] == chunks;
    }
  }

  /** The last chunk is a delta that the publisher refused, with this error. */
  predicate RefusedDelta(publish: Publish, chunks: seq<Chunk>, err: Option<string>) {
    chunks != [] && var last := chunks[|chunks| - 1]; last.event == Delta && err.Some? && publish(last) == err
  }

  ghost predicate BridgeOk(publish: Publish, b: Bridge) {
    && b.content == Texts(b.stream.chunks) && Truthful(b.stream.chunks)
    && DoneCount(b.stream.chunks) == (if b.stream.terminalSent then 1 else 0)
    && (b.failed.Some? ==> b.stream.terminalSent || RefusedDelta(publish, b.stream.chunks, b.failed))
  }

  lemma TerminalOk(publish: Publish, b: Bridge, event: Event, msg: string, data: string, failed: Option<string>)
    requires BridgeOk(publish, b) && IsTerminal(event) && (event == Final ==> data == b.content)
    ensures BridgeOk(publish, b.(stream := PushTerminal(b.stream, event, msg, data), failed := failed))
  {
    if !b.stream.terminalSent {
      var c := Chunk(b.stream.taskID, b.stream.sequence + 1, event, true, "", msg, data);
      ChunksSnoc(b.stream.chunks, c);
      TruthfulSnoc(b.stream.chunks, c);
      assert PushTerminal(b.stream, event, msg, data) == Stream(b.stream.taskID, b.stream.sequence + 1, true, b.stream.chunks + [c]);
    }
  }

  lemma DeltaOk(publish: Publish, b: Bridge, text: string, payload: string)
    requires BridgeOk(publish, b)
    ensures BridgeOk(publish, Emitted(publish, b, Push(b.stream, Delta, text, "", payload)).(content := b.content + text))
  {
    var c := Chunk(b.stream.taskID, b.stream.sequence + 1, Delta, false, text, "", payload);
    var chunks, s := b.stream.chunks, Push(b.stream, Delta, text, "", payload);
    ChunksSnoc(chunks, c);
    TruthfulSnoc(chunks, c);
    assert s.chunks == chunks + [c];
    DeltaAnswer(publish, chunks, c, Answer(publish, b.stream, s));
  }

  lemma DeltaAnswer(publish: Publish, chunks: seq<Chunk>, c: Chunk, answer: Option<string>)
    requires c.event == Delta && answer == publish(c)
    ensures answer.Some? ==> RefusedDelta(publish, chunks + [c], answer)
  {
  }

  lemma FailureOk(publish: Publish, b: Bridge, msg: string)
    requires BridgeOk(publish, b)
    ensures BridgeOk(publish, b.(stream := PushTerminal(b.stream, Error, msg, ""), failed := Some(msg)))
  {
    TerminalOk(publish, b, Error, msg, "", Some(msg));
  }

  lemma HandleOk(parse: string -> Payload, publish: Publish, b: Bridge, payload: string)
    requires BridgeOk(publish, b)
    ensures BridgeOk(publish, Handle(parse, publish, b, payload))
  {
    if payload == DONE {
      TerminalOk(publish, b, Final, "", b.content, Handle(parse, publish, b, payload).failed);
    } else {
      match parse(payload)
      case DeltaText(text) => DeltaOk(publish, b, text, payload);
      case StreamFailure(msg) => FailureOk(publish, b, msg);
      case Malformed(msg) => FailureOk(publish, b, msg);
    }
  }

  lemma {:induction false} HandleAllOk(parse: string -> Payload, publish: Publish, b: Bridge, payloads: seq<string>)
    requires BridgeOk(publish, b)
    ensures BridgeOk(publish, HandleAll(parse, publish, b, payloads))
    decreases |payloads|
  {
    if payloads != [] && b.failed.None? {
      HandleOk(parse, publish, b, payloads[0]);
      HandleAllOk(parse, publish, Handle(parse, publish, b, payloads[0]), payloads[1..]);
    }
  }

  /**
    Whatever the input, however it ends and whatever the publisher answers, a bridge on a fresh
    fanout publishes exactly one terminal chunk, unless it stopped at a delta that the publisher
    refused before any; and a final chunk carries exactly the delta text published before it.
   */
  lemma ExactlyOneTerminal(parse: string -> Payload, publish: Publish, taskID: string, lines: seq<string>, end: StreamEnd)
    ensures var b := Bridged(parse, publish, Stream(taskID, 0, false, []), lines, end);
            && Truthful(b.stream.chunks)
            && (|| DoneCount(b.stream.chunks) == 1
                || (DoneCount(b.stream.chunks) == 0 && RefusedDelta(publish, b.stream.chunks, b.failed)))
  {
    var start := Bridge(Stream(taskID, 0, false, []), "", None);
    var e := Ending(lines, end);
    var b := HandleAll(parse, publish, start, Frames([], Seen(lines, end), e == EndOfFile));
    HandleAllOk(parse, publish, start, Frames([], Seen(lines, end), e == EndOfFile));
    if b.failed.None? {
      var failed := Finish(publish, b, e).failed;
      match e
      case EndOfFile => TerminalOk(publish, b, Final, "", b.content, failed);
      case ReadError(msg) => TerminalOk(publish, b, Error, msg, "", failed);
      case ContextDone(_, msg) => TerminalOk(publish, b, Event.Cancelled, msg, "", failed);
    }
  }

  // --------------------------------------------------- a publisher that accepts

  function Accepts(c: Chunk): Option<string> {
    None
  }

  lemma HandleAccepted(parse: string -> Payload, publish: Publish, b: Bridge, payload: string)
    requires Handle(parse, publish, b, payload).failed.None?
    ensures Handle(parse, publish, b, payload) == Handle(parse, Accepts, b, payload)
  {
  }

  lemma {:induction false} HandleAllAccepted(parse: string -> Payload, publish: Publish, b: Bridge, payloads: seq<string>)
    requires HandleAll(parse, publish, b, payloads).failed.None?
    ensures HandleAll(parse, publish, b, payloads) == HandleAll(parse, Accepts, b, payloads)
    decreases |payloads|
  {
    if payloads != [] {
      assert Handle(parse, publish, b, payloads[0]).failed.None?;
      HandleAccepted(parse, publish, b, payloads[0]);
      HandleAllAccepted(parse, publish, Handle(parse, publish, b, payloads[0]), payloads[1..]);
    }
  }

  /** A bridge that succeeds met no refusal. */
  lemma BridgedAccepted(parse: string -> Payload, publish: Publish, s: Stream, lines: seq<string>, end: StreamEnd)
    requires Bridged(parse, publish, s, lines, end).failed.None?
    ensures Bridged(parse, publish, s, lines, end) == Bridged(parse, Accepts, s, lines, end)
  {
    var e := Ending(lines, end);
    HandleAllAccepted(parse, publish, Bridge(s, "", None), Frames([], Seen(lines, end), e == EndOfFile));
  }
}
