/**
  The printer: WriteSSEFrame and WriteDoneFrame of internal/gateway/sse_handler.go, and the
  ChatCompletionStreamSink of chat_completions_handler.go that writes one chunk as one frame.
 */
module Sse {
  import opened Fanouts

  /** JSON encoding of the three kinds of data the sink makes itself. */
  datatype Encoder = Encoder(delta: string -> string, error: string -> string, chunk: Chunk -> string)

  function EventName(event: Event): string {
    match event
    case Delta => "delta"
    case ToolCalled => "tool_call"
    case WaitingApproval => "waiting_approval"
    case ToolResulted => "tool_result"
    case Final => "final"
    case Error => "error"
    case Timeout => "timeout"
    case Cancelled => "cancelled"
  }

  function EventLine(event: string): string {
    if event != "" then "event: " + event + "\n" else ""
  }

  function FrameText(event: string, data: string): string {
    EventLine(event) + ("data: " + data + "\n\n")
  }

  const DoneText := FrameText("done", "[DONE]")

  /** What the sink writes for a chunk. */
  function ChunkText(enc: Encoder, c: Chunk): string {
    match c.event
    case Delta => FrameText("", if c.data != "" then c.data else enc.delta(c.delta))
    case Final => ""
    case Error | Timeout | Cancelled => FrameText("error", if c.data != "" then c.data else enc.error(c.error))
    case _ => FrameText(EventName(c.event), enc.chunk(c))
  }

  function Written(enc: Encoder, chunks: seq<Chunk>): string {
    if chunks == [] then ""
    else Written(enc, chunks[..|chunks| - 1]) + ChunkText(enc, chunks[|chunks| - 1])
  }

  lemma WrittenSnoc(enc: Encoder, chunks: seq<Chunk>, c: Chunk)
    ensures Written(enc, chunks + [c]) == Written(enc, chunks) + ChunkText(enc, c)
  {
    assert (chunks + [c])[..|chunks|] == chunks;
  }

  /** The bytes of a chunk, kind by kind. */
  lemma PrintedAs(enc: Encoder, c: Chunk)
    ensures c.event == Delta && c.data != "" ==> ChunkText(enc, c) == "data: " + c.data + "\n\n"
    ensures c.event == Delta && c.data == "" ==> ChunkText(enc, c) == "data: " + enc.delta(c.delta) + "\n\n"
    ensures c.event == Final ==> ChunkText(enc, c) == ""
    ensures (c.event == Error || c.event == Timeout || c.event == Cancelled) && c.data != "" ==>
              ChunkText(enc, c) == "event: error\n" + ("data: " + c.data + "\n\n")
    ensures (c.event == Error || c.event == Timeout || c.event == Cancelled) && c.data == "" ==>
              ChunkText(enc, c) == "event: error\n" + ("data: " + enc.error(c.error) + "\n\n")
    ensures c.event == ToolCalled ==> ChunkText(enc, c) == "event: tool_call\n" + ("data: " + enc.chunk(c) + "\n\n")
    ensures c.event == WaitingApproval ==> ChunkText(enc, c) == "event: waiting_approval\n" + ("data: " + enc.chunk(c) + "\n\n")
    ensures c.event == ToolResulted ==> ChunkText(enc, c) == "event: tool_result\n" + ("data: " + enc.chunk(c) + "\n\n")
  {
    assert "event: " + "error" + "\n" == "event: error\n";
    assert "event: " + "tool_call" + "\n" == "event: tool_call\n";
    assert "event: " + "waiting_approval" + "\n" == "event: waiting_approval\n";
    assert "event: " + "tool_result" + "\n" == "event: tool_result\n";
    assert "" + ("data: " + c.data + "\n\n") == "data: " + c.data + "\n\n";
  }

  lemma DonePrintedAs()
    ensures DoneText == "event: done\ndata: [DONE]\n\n"
  {
  }

  /** A connection to the client; a failing write may have sent part of its bytes. */
  class ResponseWriter {
    var out: string
    ghost var failures: nat

    constructor ()
      ensures out == "" && failures == 0
    {
      out, failures := "", 0;
    }

    method Write(text: string) returns (ok: bool)
      modifies this
      ensures ok ==> out == old(out) + text
      ensures old(out) <= out <= old(out) + text
      ensures failures == old(failures) + if ok then 0 else 1
    {
      ok := *;
      failures := failures + if ok then 0 else 1;
      var sent: int := *;
      if ok || sent < 0 || sent > |text| {
        sent := |text|;
      }
      out := out + text[..sent];
    }
  }

  method WriteSSEFrame(w: ResponseWriter, event: string, data: string) returns (ok: bool)
    modifies w
    ensures ok ==> w.out == old(w.out) + FrameText(event, data)
    ensures old(w.out) <= w.out <= old(w.out) + FrameText(event, data)
    ensures w.failures == old(w.failures) + if ok then 0 else 1
  {
    ghost var before, head, tail := w.out, EventLine(event), "data: " + data + "\n\n";
    assert before + FrameText(event, data) == (before + head) + tail;
    if event != "" {
      ok := w.Write("event: " + event + "\n");
      if !ok {
        return;
      }
    }
    ok := w.Write("data: " + data + "\n\n");
  }

  class ChatSink {
    const w: ResponseWriter
    const enc: Encoder
    /** The chunks written in full, and the number of times the sink was closed. */
    ghost var written: seq<Chunk>
    ghost var closes: nat
    ghost var broken: bool
    /** Every chunk the sink was given, and whether it was written. */
    ghost var attempts: seq<(Chunk, bool)>

    constructor (w: ResponseWriter, enc: Encoder)
      requires w.out == ""
      ensures this.w == w && this.enc == enc
      ensures Valid() && written == [] && closes == 0 && !broken && attempts == []
    {
      this.w, this.enc := w, enc;
      written, closes, broken, attempts := [], 0, false, [];
    }

    /** As long as no write has failed, the client has exactly the frames of `written`. */
    ghost predicate Valid()
      reads this, w
    {
      !broken ==>
        && (closes == 0 ==> w.out == Written(enc, written))
        && (closes == 1 ==> w.out == Written(enc, written) + DoneText)
    }

    method Print(c: Chunk) returns (ok: bool)
      modifies w
      ensures ok ==> w.out == old(w.out) + ChunkText(enc, c)
      ensures old(w.out) <= w.out <= old(w.out) + ChunkText(enc, c)
      ensures w.failures == old(w.failures) + if ok then 0 else 1
    {
      match c.event {
        case Delta =>
          ok := WriteSSEFrame(w, "", if c.data != "" then c.data else enc.delta(c.delta));
        case Final =>
          ok := true;
        case Error | Timeout | Cancelled =>
          ok := WriteSSEFrame(w, "error", if c.data != "" then c.data else enc.error(c.error));
        case _ =>
          ok := WriteSSEFrame(w, EventName(c.event), enc.chunk(c));
      }
    }

    method WriteChunk(c: Chunk) returns (ok: bool)
      requires Valid() && (closes == 0 || broken)
      modifies this, w
      ensures Valid() && closes == old(closes) && attempts == old(attempts) + [(c, ok)]
      ensures ok ==> written == old(written) + [c] && broken == old(broken)
      ensures !ok ==> written == old(written) && broken
      ensures old(w.out) <= w.out <= old(w.out) + ChunkText(enc, c)
      ensures w.failures == old(w.failures) + if ok then 0 else 1
    {
      ok := Print(c);
      attempts := attempts + [(c, ok)];
      if ok {
        WrittenSnoc(enc, written, c);
        written := written + [c];
      } else {
        broken := true;
      }
    }

    method Close() returns (ok: bool)
      requires Valid() && closes == 0
      modifies this, w
      ensures Valid() && closes == 1 && written == old(written) && attempts == old(attempts)
      ensures broken <==> old(broken) || !ok
      ensures ok ==> w.out == old(w.out) + DoneText
      ensures w.failures == old(w.failures) + if ok then 0 else 1
    {
      ok := WriteSSEFrame(w, "done", "[DONE]");
      closes := 1;
      broken := broken || !ok;
    }
  }
}
