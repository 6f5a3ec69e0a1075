/**
  What the bridge of `ProviderStream` does, told by lines, payloads and chunks: how lines make
  payloads, and which chunk closes the stream in which case.
 */
module StreamTheorems {
  import opened Options
  import opened Sequences
  import opened Fanouts
  import opened Text
  import opened ProviderStream
  import opened Transparency

  // ------------------------------------------------------------------ framing

  function DataLines(values: seq<string>): seq<string> {
    seq(|values|, i requires 0 <= i < |values| => "data:" + values[i])
  }

  function TrimmedAll(values: seq<string>): seq<string> {
    seq(|values|, i requires 0 <= i < |values| => TrimSpace(values[i]))
  }

  /** The data of a frame is joined by line feeds. */
  lemma JoinedByLineFeeds(first: string, rest: seq<string>)
    ensures Join([first]) == first
    ensures rest != [] ==> Join([first] + rest) == first + "\n" + Join(rest)
  {
    assert ([first] + rest)[1..] == rest;
  }

  /** The payload of the data lines: trimmed one by one, joined, trimmed; none if that is empty. */
  function PayloadOf(values: seq<string>): seq<string> {
    var payload := TrimSpace(Join(TrimmedAll(values)));
    if values == [] || payload == "" then [] else [payload]
  }

  lemma DataIsNotBlank(value: string)
    ensures !Blank("data:" + value) && HasPrefix("data:" + value, "data:") && ("data:" + value)[5..] == value
  {
    NotBlank("data:" + value);
  }

  /** A data line is collected, without its field name and trimmed. */
  lemma CollectOne(dataLines: seq<string>, value: string, rest: seq<string>, atEnd: bool)
    ensures Frames(dataLines, ["data:" + value] + rest, atEnd) == Frames(dataLines + [TrimSpace(value)], rest, atEnd)
  {
    DataIsNotBlank(value);
    assert (["data:" + value] + rest)[1..] == rest;
  }

  /** Data lines are collected. */
  lemma {:induction false} Collected(dataLines: seq<string>, values: seq<string>, rest: seq<string>, atEnd: bool)
    ensures Frames(dataLines, DataLines(values) + rest, atEnd) == Frames(dataLines + TrimmedAll(values), rest, atEnd)
    decreases |values|
  {
    if values == [] {
      assert DataLines(values) + rest == rest;
      assert dataLines + TrimmedAll(values) == dataLines;
    } else {
      var head, tail := values[0], values[1..];
      CollectOne(dataLines, head, DataLines(tail) + rest, atEnd);
      DataCons(values, head, tail);
      Regroup(["data:" + head], DataLines(tail), rest);
      Collected(dataLines + [TrimSpace(head)], tail, rest, atEnd);
      Regroup(dataLines, [TrimSpace(head)], TrimmedAll(tail));
    }
  }

  lemma DataCons(values: seq<string>, head: string, tail: seq<string>)
    requires values == [head] + tail
    ensures DataLines(values) == ["data:" + head] + DataLines(tail)
    ensures TrimmedAll(values) == [TrimSpace(head)] + TrimmedAll(tail)
  {
  }

  /** A line of white space ends a frame. */
  lemma BlankEndsFrame(values: seq<string>, blank: string, rest: seq<string>, atEnd: bool)
    requires AllSpace(blank)
    ensures Frames([], DataLines(values) + ([blank] + rest), atEnd) == PayloadOf(values) + Frames([], rest, atEnd)
  {
    Collected([], values, [blank] + rest, atEnd);
    assert [] + TrimmedAll(values) == TrimmedAll(values);
    BlankIs(blank);
    assert ([blank] + rest)[1..] == rest;
  }

  /** The end of the input ends a frame if the input ended cleanly; otherwise it is lost. */
  lemma EndEndsFrame(values: seq<string>, atEnd: bool)
    ensures Frames([], DataLines(values), atEnd) == if atEnd then PayloadOf(values) else []
  {
    Collected([], values, [], atEnd);
    assert DataLines(values) + [] == DataLines(values) && [] + TrimmedAll(values) == TrimmedAll(values);
  }

  /** Any other line is ignored. */
  lemma OtherLinesIgnored(dataLines: seq<string>, line: string, rest: seq<string>, atEnd: bool)
    requires !AllSpace(line) && !("data:" <= line)
    ensures Frames(dataLines, [line] + rest, atEnd) == Frames(dataLines, rest, atEnd)
  {
    BlankIs(line);
    assert ([line] + rest)[1..] == rest;
  }

  // ------------------------------------------------------------------ scanning

  /** A line with its line feed: cut off if too long, and without a trailing carriage return. */
  lemma LineIs(line: string, rest: string)
    requires '\n' !in line
    ensures Scan("") == ([], false)
    ensures ByteLength(line) >= 1048576 ==> Scan(line + "\n" + rest) == ([], true)
    ensures ByteLength(line) < 1048576 ==>
              Scan(line + "\n" + rest) ==
              ([if line != "" && line[|line| - 1] == '\r' then line[..|line| - 1] else line] + Scan(rest).0, Scan(rest).1)
  {
    ScanOne(line, rest);
  }

  /** A last line without a line feed. */
  lemma LastLineIs(line: string)
    requires '\n' !in line && line != ""
    ensures Scan(line) ==
            if ByteLength(line) >= 1048576 then ([], true)
            else ([if line[|line| - 1] == '\r' then line[..|line| - 1] else line], false)
  {
    assert forall j | 0 <= j < |line| :: line[j] in line;
    assert LineEnd(line) == |line| && line[..|line|] == line;
    assert [DropCR(line)] + [] == [DropCR(line)];
  }

  /** The line of a payload fits if the payload is shorter than 1,048,570 bytes. */
  lemma FitsIs(p: string)
    ensures Fits(p) <==> ByteLength(p) < 1048570
  {
    ByteLengthAscii("data: ");
    ByteLengthAppend("data: ", p);
  }

  // ------------------------------------------------------------- which chunk closes

  /** The first payload that is the end marker or no delta. */
  function FirstStop(parse: string -> Payload, payloads: seq<string>): (n: nat)
    ensures n <= |payloads|
    ensures n < |payloads| ==> payloads[n] == "[DONE]" || !parse(payloads[n]).DeltaText?
    ensures forall i | 0 <= i < n :: payloads[i] != "[DONE]" && parse(payloads[i]).DeltaText?
  {
    if payloads == [] || payloads[0] == "[DONE]" || !parse(payloads[0]).DeltaText? then 0
    else
      var n := FirstStop(parse, payloads[1..]);
      assert forall i | 1 <= i < |payloads| :: payloads[i] == payloads[1..][i - 1];
      n + 1
  }

  ghost predicate AllHeard(publish: Publish, chunks: seq<Chunk>) {
    forall c | c in chunks :: publish(c) == None
  }

  lemma {:induction false} HeardDeltas(parse: string -> Payload, publish: Publish, taskID: string, frames: seq<string>)
    requires AllDeltas(parse, frames) && AllHeard(publish, DeltaChunks(parse, taskID, 0, frames))
    ensures HandleAll(parse, publish, Bridge(Stream(taskID, 0, false, []), "", None), frames) == AfterDeltas(parse, taskID, frames)
  {
    var start := Bridge(Stream(taskID, 0, false, []), "", None);
    if frames == [] {
      assert DeltaChunks(parse, taskID, 0, frames) == [];
    } else {
      var front, last := frames[..|frames| - 1], frames[|frames| - 1];
      assert frames == front + [last] && last in frames;
      assert forall f | f in front :: f in frames;
      DeltasSnoc(parse, taskID, front, last);
      HeardDeltas(parse, publish, taskID, front);
      HandleAllAppend(parse, publish, start, front, [last]);
      HandleAllOne(parse, publish, AfterDeltas(parse, taskID, front), last);
      HeardDelta(parse, publish, taskID, front, last);
    }
  }

  lemma HeardDelta(parse: string -> Payload, publish: Publish, taskID: string, front: seq<string>, last: string)
    requires last != DONE && parse(last).DeltaText?
    requires publish(Chunk(taskID, |front| + 1, Delta, false, TextOf(parse, last), "", last)) == None
    ensures Handle(parse, publish, AfterDeltas(parse, taskID, front), last) == AfterDeltas(parse, taskID, front + [last])
  {
    DeltasSnoc(parse, taskID, front, last);
    ConcatSnoc(AllTexts(parse, front), TextOf(parse, last));
  }

  /** The chunk that closes the stream after `n` deltas with this text. */
  function ClosingChunk(parse: string -> Payload, taskID: string, n: nat, text: string, payloads: seq<string>, end: StreamEnd): Chunk {
    if payloads != [] && payloads[0] == "[DONE]" then Chunk(taskID, n + 1, Final, true, "", "", text)
    else if payloads != [] then
      match parse(payloads[0])
      case StreamFailure(msg) => Chunk(taskID, n + 1, Error, true, "", msg, "")
      case Malformed(msg) => Chunk(taskID, n + 1, Error, true, "", msg, "")
      case DeltaText(_) => Chunk(taskID, n + 1, Final, true, "", "", text)
    else
      match end
      case EndOfFile => Chunk(taskID, n + 1, Final, true, "", "", text)
      case ReadError(msg) => Chunk(taskID, n + 1, Error, true, "", msg, "")
      case ContextDone(_, msg) => Chunk(taskID, n + 1, Event.Cancelled, true, "", msg, "")
  }

  /** What a bridge reports as its error when it did not end with an answer. */
  function ClosingError(parse: string -> Payload, payloads: seq<string>, end: StreamEnd): Option<string> {
    if payloads != [] then
      match parse(payloads[0])
      case StreamFailure(msg) => Some(msg)
      case Malformed(msg) => Some(msg)
      case DeltaText(_) => None
    else
      match end
      case EndOfFile => None
      case ReadError(msg) => Some(msg)
      case ContextDone(_, msg) => Some(msg)
  }

  lemma ClosesWith(parse: string -> Payload, publish: Publish, b: Bridge, rest: seq<string>, end: StreamEnd)
    requires b.failed.None? && !b.stream.terminalSent && b.stream.sequence == |b.stream.chunks|
    requires rest != [] ==> rest[0] == "[DONE]" || !parse(rest[0]).DeltaText?
    ensures var c := ClosingChunk(parse, b.stream.taskID, |b.stream.chunks|, b.content, rest, end);
            var b' := Finish(publish, HandleAll(parse, publish, b, rest), end);
            && b.stream.chunks + [c] <= b'.stream.chunks
            && (c.event != Final ==> b'.stream.chunks == b.stream.chunks + [c] && b'.failed == ClosingError(parse, rest, end))
  {
    if rest != [] {
      HandleAllGrowsAny(parse, publish, Handle(parse, publish, b, rest[0]), rest[1..]);
    }
  }

  /** Published chunks are never taken back. */
  lemma {:induction false} HandleAllGrowsAny(parse: string -> Payload, publish: Publish, b: Bridge, frames: seq<string>)
    ensures b.stream.chunks <= HandleAll(parse, publish, b, frames).stream.chunks
    decreases |frames|
  {
    if frames != [] && b.failed.None? {
      HandleAllGrowsAny(parse, publish, Handle(parse, publish, b, frames[0]), frames[1..]);
    }
  }

  /** The payloads the bridge looks at, and how its input ends. */
  lemma SeenAndEnding(lines: seq<string>, end: StreamEnd)
    ensures end.ContextDone? && end.at < |lines| ==> Seen(lines, end) == lines[..end.at] && Ending(lines, end) == end
    ensures end.ContextDone? && end.at >= |lines| ==> Seen(lines, end) == lines && Ending(lines, end) == EndOfFile
    ensures !end.ContextDone? ==> Seen(lines, end) == lines && Ending(lines, end) == end
  {
  }

  /** The deltas before the stop, and then the rest. */
  lemma AfterHeard(parse: string -> Payload, publish: Publish, taskID: string, payloads: seq<string>, n: nat)
    requires n <= FirstStop(parse, payloads) && AllHeard(publish, DeltaChunks(parse, taskID, 0, payloads[..n]))
    ensures HandleAll(parse, publish, Bridge(Stream(taskID, 0, false, []), "", None), payloads)
         == HandleAll(parse, publish, AfterDeltas(parse, taskID, payloads[..n]), payloads[n..])
  {
    assert AllDeltas(parse, payloads[..n]);
    HeardDeltas(parse, publish, taskID, payloads[..n]);
    HandleAllAppend(parse, publish, Bridge(Stream(taskID, 0, false, []), "", None), payloads[..n], payloads[n..]);
    assert payloads[..n] + payloads[n..] == payloads;
  }

  lemma BridgedClosesWith(parse: string -> Payload, publish: Publish, taskID: string, lines: seq<string>, end: StreamEnd,
                          payloads: seq<string>, n: nat)
    requires payloads == Frames([], Seen(lines, end), Ending(lines, end) == EndOfFile) && n == FirstStop(parse, payloads)
    requires AllHeard(publish, DeltaChunks(parse, taskID, 0, payloads[..n]))
    ensures var b := Bridged(parse, publish, Stream(taskID, 0, false, []), lines, end);
            var deltas := DeltaChunks(parse, taskID, 0, payloads[..n]);
            var c := ClosingChunk(parse, taskID, n, Concat(AllTexts(parse, payloads[..n])), payloads[n..], Ending(lines, end));
            && deltas + [c] <= b.stream.chunks
            && (c.event != Final ==> b.stream.chunks == deltas + [c] && b.failed == ClosingError(parse, payloads[n..], Ending(lines, end)))
  {
    AfterHeard(parse, publish, taskID, payloads, n);
    ClosesWith(parse, publish, AfterDeltas(parse, taskID, payloads[..n]), payloads[n..], Ending(lines, end));
  }

  /**
    Which chunk closes the stream, for every input and every way it ends. If the publisher
    refuses none of the deltas before it, these come first, one chunk each. If the end marker
    comes next, a final chunk with their text follows, and perhaps more behind it. If the next
    payload is a failure or malformed, an error chunk with the returned message is the last.
   */
  lemma ClosedByPayload(parse: string -> Payload, publish: Publish, taskID: string, lines: seq<string>, end: StreamEnd,
                        payloads: seq<string>, n: nat)
    requires payloads == Frames([], Seen(lines, end), Ending(lines, end) == EndOfFile)
    requires n == FirstStop(parse, payloads) < |payloads|
    requires AllHeard(publish, DeltaChunks(parse, taskID, 0, payloads[..n]))
    ensures var b := Bridged(parse, publish, Stream(taskID, 0, false, []), lines, end);
            var deltas := DeltaChunks(parse, taskID, 0, payloads[..n]);
            && (payloads[n] == "[DONE]" ==>
                  deltas + [Chunk(taskID, n + 1, Final, true, "", "", Concat(AllTexts(parse, payloads[..n])))] <= b.stream.chunks)
            && (forall msg | payloads[n] != "[DONE]" && (parse(payloads[n]) == StreamFailure(msg) || parse(payloads[n]) == Malformed(msg)) ::
                  b.stream.chunks == deltas + [Chunk(taskID, n + 1, Error, true, "", msg, "")] && b.failed == Some(msg))
  {
    BridgedClosesWith(parse, publish, taskID, lines, end, payloads, n);
    assert payloads[n..][0] == payloads[n];
  }

  /** If there is no such payload, a clean end is answered by a final chunk with the text of all deltas. */
  lemma ClosedByCleanEnd(parse: string -> Payload, publish: Publish, taskID: string, lines: seq<string>, end: StreamEnd,
                         payloads: seq<string>)
    requires end.EndOfFile? || (end.ContextDone? && end.at >= |lines|)
    requires payloads == Frames([], lines, true)
    requires FirstStop(parse, payloads) == |payloads| && AllHeard(publish, DeltaChunks(parse, taskID, 0, payloads))
    ensures Bridged(parse, publish, Stream(taskID, 0, false, []), lines, end).stream.chunks ==
            DeltaChunks(parse, taskID, 0, payloads)
            + [Chunk(taskID, |payloads| + 1, Final, true, "", "", Concat(AllTexts(parse, payloads)))]
  {
    SeenAndEnding(lines, end);
    BridgedDeltas(parse, publish, taskID, lines, end, payloads);
    ClosesCleanly(publish, AfterDeltas(parse, taskID, payloads), EndOfFile);
  }

  /** A read error is answered by an error chunk; it is the last, and what the call returns. */
  lemma ClosedByReadError(parse: string -> Payload, publish: Publish, taskID: string, lines: seq<string>, msg: string,
                          payloads: seq<string>)
    requires payloads == Frames([], lines, false)
    requires FirstStop(parse, payloads) == |payloads| && AllHeard(publish, DeltaChunks(parse, taskID, 0, payloads))
    ensures var b := Bridged(parse, publish, Stream(taskID, 0, false, []), lines, ReadError(msg));
            && b.failed == Some(msg)
            && b.stream.chunks ==
               DeltaChunks(parse, taskID, 0, payloads) + [Chunk(taskID, |payloads| + 1, Error, true, "", msg, "")]
  {
    SeenAndEnding(lines, ReadError(msg));
    BridgedDeltas(parse, publish, taskID, lines, ReadError(msg), payloads);
    ClosesCleanly(publish, AfterDeltas(parse, taskID, payloads), ReadError(msg));
  }

  /** A context that is done before some line is answered by a cancellation in the same way. */
  lemma ClosedByContext(parse: string -> Payload, publish: Publish, taskID: string, lines: seq<string>, at: nat, msg: string,
                        payloads: seq<string>)
    requires at < |lines| && payloads == Frames([], lines[..at], false)
    requires FirstStop(parse, payloads) == |payloads| && AllHeard(publish, DeltaChunks(parse, taskID, 0, payloads))
    ensures var b := Bridged(parse, publish, Stream(taskID, 0, false, []), lines, ContextDone(at, msg));
            && b.failed == Some(msg)
            && b.stream.chunks ==
               DeltaChunks(parse, taskID, 0, payloads) + [Chunk(taskID, |payloads| + 1, Event.Cancelled, true, "", msg, "")]
  {
    SeenAndEnding(lines, ContextDone(at, msg));
    BridgedDeltas(parse, publish, taskID, lines, ContextDone(at, msg), payloads);
    ClosesCleanly(publish, AfterDeltas(parse, taskID, payloads), ContextDone(at, msg));
  }

  lemma BridgedDeltas(parse: string -> Payload, publish: Publish, taskID: string, lines: seq<string>, end: StreamEnd,
                      payloads: seq<string>)
    requires payloads == Frames([], Seen(lines, end), Ending(lines, end) == EndOfFile)
    requires FirstStop(parse, payloads) == |payloads| && AllHeard(publish, DeltaChunks(parse, taskID, 0, payloads))
    ensures Bridged(parse, publish, Stream(taskID, 0, false, []), lines, end) ==
            Finish(publish, AfterDeltas(parse, taskID, payloads), Ending(lines, end))
  {
    NoStopAllDeltas(parse, payloads);
    HeardDeltas(parse, publish, taskID, payloads);
  }

  lemma NoStopAllDeltas(parse: string -> Payload, payloads: seq<string>)
    requires FirstStop(parse, payloads) == |payloads|
    ensures AllDeltas(parse, payloads)
  {
  }

  lemma ClosesCleanly(publish: Publish, b: Bridge, end: StreamEnd)
    requires b.failed.None? && !b.stream.terminalSent
    ensures var b', n := Finish(publish, b, end), b.stream.sequence;
            match end
            case EndOfFile => b'.stream.chunks == b.stream.chunks + [Chunk(b.stream.taskID, n + 1, Final, true, "", "", b.content)]
            case ReadError(msg) =>
              b'.stream.chunks == b.stream.chunks + [Chunk(b.stream.taskID, n + 1, Error, true, "", msg, "")] && b'.failed == Some(msg)
            case ContextDone(_, msg) =>
              && b'.stream.chunks == b.stream.chunks + [Chunk(b.stream.taskID, n + 1, Event.Cancelled, true, "", msg, "")]
              && b'.failed == Some(msg)
  {
  }

  /** If it refuses one, the bridge stops there with its answer: no chunk closes the stream. */
  lemma RefusedDeltaStops(parse: string -> Payload, publish: Publish, taskID: string, payloads: seq<string>, r: nat, end: StreamEnd)
    requires r < FirstStop(parse, payloads) && AllHeard(publish, DeltaChunks(parse, taskID, 0, payloads[..r]))
    requires publish(Chunk(taskID, r + 1, Delta, false, TextOf(parse, payloads[r]), "", payloads[r])).Some?
    ensures var c := Chunk(taskID, r + 1, Delta, false, TextOf(parse, payloads[r]), "", payloads[r]);
            var b := Finish(publish, HandleAll(parse, publish, Bridge(Stream(taskID, 0, false, []), "", None), payloads), end);
            b.failed == publish(c) && b.stream.chunks == DeltaChunks(parse, taskID, 0, payloads[..r]) + [c]
  {
    AfterHeard(parse, publish, taskID, payloads, r);
    assert payloads[r..][0] == payloads[r] && payloads[r] != "[DONE]" && parse(payloads[r]).DeltaText?;
  }

  /** The delta chunks carry the payloads and their texts, in order; a final text is these texts in order. */
  lemma DeltasAre(parse: string -> Payload, taskID: string, frames: seq<string>, i: nat)
    requires AllDeltas(parse, frames) && i < |frames|
    ensures DeltaChunks(parse, taskID, 0, frames)[i] == Chunk(taskID, i + 1, Delta, false, parse(frames[i]).text, "", frames[i])
    ensures |DeltaChunks(parse, taskID, 0, frames)| == |AllTexts(parse, frames)| == |frames|
    ensures AllTexts(parse, frames)[i] == parse(frames[i]).text
  {
    assert frames[i] in frames;
  }

  lemma {:induction false} TextsInOrder(first: string, rest: seq<string>)
    ensures Concat([]) == "" && Concat([first] + rest) == first + Concat(rest)
    decreases |rest|
  {
    if rest == [] {
      assert [first] + rest == [] + [first];
      ConcatSnoc([], first);
    } else {
      var front, last := rest[..|rest| - 1], rest[|rest| - 1];
      TextsInOrder(first, front);
      assert [first] + rest == ([first] + front) + [last];
      ConcatSnoc([first] + front, last);
    }
  }
}
