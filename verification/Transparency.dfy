/**
  End to end: a provider's event stream, bridged to chunks, sent over the bus, dispatched to
  the client's sink, printed as server-sent events, and read again by the same parser, yields
  the same delta texts and the same final content.
 */
module Transparency {
  import opened Options
  import opened Sequences
  import opened Fanouts
  import opened Text
  import opened ProviderStream
  import opened Sse
  import Senders

  // ------------------------------------------------------------ line scanner

  function LineEnd(text: string): (i: nat)
    ensures i <= |text|
    ensures i < |text| ==> text[i] == '\n'
    ensures forall j | 0 <= j < i :: text[j] != '\n'
  {
    if text == "" || text[0] == '\n' then 0
    else
      var rest := LineEnd(text[1..]);
      assert forall j | 1 <= j < |text| :: text[j] == text[1..][j - 1];
      rest + 1
  }

  function DropCR(line: string): string {
    if line != "" && line[|line| - 1] == '\r' then line[..|line| - 1] else line
  }

  /** The largest buffer of the scanner: a line and its line feed must fit. */
  const MAX_LINE := 1048576

  const TOO_LONG := "bufio.Scanner: token too long"

  /**
    The scanner over the whole text: its lines, and whether it stopped at a line that is too
    long. A last line without a line end counts if it is not empty.
   */
  function Scan(text: string): (seq<string>, bool)
    decreases |text|
  {
    if text == "" then ([], false)
    else
      var i := LineEnd(text);
      if ByteLength(text[..i]) >= MAX_LINE then ([], true)
      else
        var (lines, tooLong) := if i < |text| then Scan(text[i + 1..]) else ([], false);
        ([DropCR(text[..i])] + lines, tooLong)
  }

  function ScanEnd(tooLong: bool): StreamEnd {
    if tooLong then ReadError(TOO_LONG) else EndOfFile
  }

  /** The payloads that the parser finds in a text, and whether it stopped at a line too long. */
  function FramesIn(text: string): (seq<string>, bool) {
    var (lines, tooLong) := Scan(text);
    (Frames([], lines, !tooLong), tooLong)
  }

  /** What the parser makes of a text, on a fresh fanout. */
  function Parsed(parse: string -> Payload, publish: Publish, taskID: string, text: string): Bridge {
    Bridged(parse, publish, Stream(taskID, 0, false, []), Scan(text).0, ScanEnd(Scan(text).1))
  }

  lemma ParsedIs(parse: string -> Payload, publish: Publish, taskID: string, text: string)
    ensures Parsed(parse, publish, taskID, text) ==
            Finish(publish, HandleAll(parse, publish, Bridge(Stream(taskID, 0, false, []), "", None), FramesIn(text).0),
                   ScanEnd(FramesIn(text).1))
  {
  }

  lemma ScanOne(line: string, rest: string)
    requires '\n' !in line
    ensures Scan(line + "\n" + rest) ==
            if ByteLength(line) >= MAX_LINE then ([], true) else ([DropCR(line)] + Scan(rest).0, Scan(rest).1)
  {
    var text := line + "\n" + rest;
    assert text[|line|] == '\n' && forall j | 0 <= j < |line| :: text[j] == line[j];
    assert LineEnd(text) == |line|;
    assert text[..|line|] == line && text[|line| + 1..] == rest;
  }

  // ------------------------------------------------------------ JSON on the wire

  /**
    JSON decoding of payloads, and what the bus does to one: a chunk is encoded and decoded
    on the way, which compacts the raw payload it carries.
   */
  datatype Json = Json(parse: string -> Payload, transit: string -> string)

  /** A payload that one line can carry and trimming leaves alone. */
  predicate Clean(p: string) {
    p != "" && Trimmed(p) && '\n' !in p
  }

  /** Compaction keeps the meaning of a payload and makes it clean; the end marker is not JSON. */
  ghost predicate JsonOk(j: Json) {
    && (forall p {:trigger j.transit(p)} :: j.parse(p).DeltaText? ==> j.parse(j.transit(p)) == j.parse(p) && Clean(j.transit(p)))
    && !j.parse(DONE).DeltaText?
  }

  /** A chunk after its trip over the bus. */
  function Arrived(j: Json, c: Chunk): Chunk {
    if c.event == Delta then c.(data := j.transit(c.data)) else c
  }

  function AllArrived(j: Json, chunks: seq<Chunk>): seq<Chunk> {
    seq(|chunks|, i requires 0 <= i < |chunks| => Arrived(j, chunks[i]))
  }

  // -------------------------------------------------------- printing, then parsing

  function Body(payloads: seq<string>): string {
    if payloads == [] then "" else Body(payloads[..|payloads| - 1]) + FrameText("", payloads[|payloads| - 1])
  }

  lemma DataLine(p: string)
    requires Clean(p)
    ensures '\n' !in "data: " + p && DropCR("data: " + p) == "data: " + p
    ensures !Blank("data: " + p) && HasPrefix("data: " + p, "data:")
    ensures TrimSpace(("data: " + p)[5..]) == p
  {
    var line := "data: " + p;
    assert line[|line| - 1] == p[|p| - 1];
    NotBlank(line);
    assert line[..5] == "data:" && line[5..] == " " + p;
    TrimOneSpace(p);
  }

  /** The printed line of the payload fits into the scanner. */
  predicate Fits(p: string) {
    ByteLength("data: " + p) < MAX_LINE
  }

  /** The payloads before the first one that does not fit. */
  function FirstLong(payloads: seq<string>): (n: nat)
    ensures n <= |payloads|
    ensures n < |payloads| ==> !Fits(payloads[n])
    ensures forall i | 0 <= i < n :: Fits(payloads[i])
  {
    if payloads == [] || !Fits(payloads[0]) then 0
    else
      var n := FirstLong(payloads[1..]);
      assert forall i | 1 <= i < |payloads| :: payloads[i] == payloads[1..][i - 1];
      n + 1
  }

  /** One printed frame reads back as its payload if it fits; otherwise the parser stops there. */
  lemma FrameReadsBack(p: string, rest: string)
    requires Clean(p)
    ensures FramesIn(FrameText("", p) + rest) ==
            if Fits(p) then ([p] + FramesIn(rest).0, FramesIn(rest).1) else ([], true)
  {
    var line := "data: " + p;
    DataLine(p);
    assert FrameText("", p) + rest == line + "\n" + ("" + "\n" + rest);
    ScanOne(line, "" + "\n" + rest);
    if Fits(p) {
      ScanOne("", rest);
      FrameLines(p, Scan(rest).0, !Scan(rest).1);
    }
  }

  lemma FrameLines(p: string, tail: seq<string>, atEnd: bool)
    requires Clean(p)
    ensures Frames([], ["data: " + p] + ([""] + tail), atEnd) == [p] + Frames([], tail, atEnd)
  {
    var line := "data: " + p;
    var lines := [line] + ([""] + tail);
    DataLine(p);
    assert lines[1..] == [""] + tail && lines[1..][1..] == tail;
    assert Frames([], lines, atEnd) == Frames([p], lines[1..], atEnd);
    assert Blank("");
    FlushOne(p);
  }

  lemma FlushOne(p: string)
    requires Clean(p)
    ensures Flushed([p]) == [p]
  {
    assert Join([p]) == p;
    TrimmedFixed(p);
  }

  /** The frames of a list of payloads, in front of other text. */
  function BodyThen(payloads: seq<string>, rest: string): string {
    if payloads == [] then rest else FrameText("", payloads[0]) + BodyThen(payloads[1..], rest)
  }

  lemma {:induction false} BodyThenIs(payloads: seq<string>, p: string, rest: string)
    ensures BodyThen(payloads + [p], rest) == BodyThen(payloads, FrameText("", p) + rest)
  {
    if payloads == [] {
      assert (payloads + [p])[1..] == [];
    } else {
      assert (payloads + [p])[1..] == payloads[1..] + [p];
      BodyThenIs(payloads[1..], p, rest);
    }
  }

  lemma {:induction false} BodyIs(payloads: seq<string>, rest: string)
    ensures Body(payloads) + rest == BodyThen(payloads, rest)
  {
    if payloads == [] {
      assert Body(payloads) + rest == rest;
    } else {
      var front, last := payloads[..|payloads| - 1], payloads[|payloads| - 1];
      assert payloads == front + [last];
      Regroup(Body(front), FrameText("", last), rest);
      BodyIs(front, FrameText("", last) + rest);
      BodyThenIs(front, last, rest);
    }
  }

  /** Printed frames read back as their payloads, up to the first that does not fit. */
  lemma BodyReadsBack(payloads: seq<string>, rest: string)
    requires forall p | p in payloads :: Clean(p)
    ensures FramesIn(Body(payloads) + rest) ==
            if FirstLong(payloads) == |payloads| then (payloads + FramesIn(rest).0, FramesIn(rest).1)
            else (payloads[..FirstLong(payloads)], true)
  {
    BodyIs(payloads, rest);
    BodyThenReadsBack(payloads, rest);
  }

  lemma FirstLongStep(head: string, tail: seq<string>)
    ensures FirstLong([head] + tail) == if Fits(head) then FirstLong(tail) + 1 else 0
  {
    assert ([head] + tail)[1..] == tail;
  }

  lemma BodyThenStep(head: string, tail: seq<string>, rest: string)
    ensures BodyThen([head] + tail, rest) == FrameText("", head) + BodyThen(tail, rest)
  {
    assert ([head] + tail)[1..] == tail;
  }

  /** The payloads that are read, in front of what is read behind them if all fit. */
  function ReadBefore(payloads: seq<string>, rest: (seq<string>, bool)): (seq<string>, bool) {
    var n := FirstLong(payloads);
    if n == |payloads| then (payloads + rest.0, rest.1) else (payloads[..n], true)
  }

  lemma ReadBeforeStep(head: string, tail: seq<string>, rest: (seq<string>, bool))
    ensures ReadBefore([head] + tail, rest) ==
            if Fits(head) then ([head] + ReadBefore(tail, rest).0, ReadBefore(tail, rest).1) else ([], true)
  {
    FirstLongStep(head, tail);
    Regroup([head], tail, rest.0);
    assert Fits(head) ==> ([head] + tail)[..FirstLong(tail) + 1] == [head] + tail[..FirstLong(tail)];
  }

  lemma {:induction false} BodyThenReadsBack(payloads: seq<string>, rest: string)
    requires forall p | p in payloads :: Clean(p)
    ensures FramesIn(BodyThen(payloads, rest)) == ReadBefore(payloads, FramesIn(rest))
  {
    if payloads == [] {
      assert payloads + FramesIn(rest).0 == FramesIn(rest).0;
    } else {
      var head, tail := payloads[0], payloads[1..];
      assert payloads == [head] + tail;
      BodyThenReadsBack(tail, rest);
      BodyThenStep(head, tail, rest);
      FrameReadsBack(head, BodyThen(tail, rest));
      ReadBeforeStep(head, tail, FramesIn(rest));
    }
  }

  lemma BodySnoc(payloads: seq<string>, p: string)
    ensures Body(payloads + [p]) == Body(payloads) + FrameText("", p)
  {
    assert (payloads + [p])[..|payloads|] == payloads;
  }

  /** The end marker by itself. */
  lemma MarkerReadsBack()
    ensures FramesIn(FrameText("", DONE)) == ([DONE], false)
  {
    assert Clean(DONE);
    ByteLengthAscii("data: " + DONE);
    FrameReadsBack(DONE, "");
    assert FrameText("", DONE) + "" == FrameText("", DONE);
    assert FramesIn("") == ([], false) && Fits(DONE) && [DONE] + [] == [DONE];
  }

  /** A short ASCII line that starts with a printing character and is no data line. */
  predicate IsOtherLine(head: string) {
    && head != "" && !IsSpace(head[0]) && head[0] != 'd' && head[|head| - 1] != '\r' && |head| < MAX_LINE
    && forall c | c in head :: c < '\U{80}' && c != '\n'
  }

  /** Such a line is ignored. */
  lemma OtherLineIgnored(head: string, rest: string)
    requires IsOtherLine(head)
    ensures FramesIn(head + "\n" + rest) == FramesIn(rest)
  {
    ByteLengthAscii(head);
    ScanOne(head, rest);
    HeadIgnored(head, Scan(rest).0, !Scan(rest).1);
  }

  lemma HeadIgnored(head: string, tail: seq<string>, atEnd: bool)
    requires IsOtherLine(head)
    ensures Frames([], [head] + tail, atEnd) == Frames([], tail, atEnd)
  {
    NotBlank(head);
    assert ([head] + tail)[1..] == tail;
  }

  /** The closing frame reads back as the end marker; its event line is ignored. */
  lemma DoneReadsBack()
    ensures FramesIn(DoneText) == ([DONE], false)
  {
    var head := DoneParts();
    OtherLineIgnored(head, FrameText("", DONE));
    MarkerReadsBack();
  }

  /** The closing frame is an event line and the end marker. */
  lemma DoneParts() returns (head: string)
    ensures IsOtherLine(head) && DoneText == head + "\n" + FrameText("", DONE)
  {
    head := "event: done";
    DoneHead(head);
    assert DoneText == head + "\n" + FrameText("", DONE);
  }

  lemma DoneHead(head: string)
    requires head == "event: done"
    ensures IsOtherLine(head)
  {
    assert head[0] == 'e' && head[|head| - 1] == 'e';
  }

  // --------------------------------------------------- bridging accepted frames

  function TextOf(parse: string -> Payload, frame: string): string {
    if parse(frame).DeltaText? then parse(frame).text else ""
  }

  function AllTexts(parse: string -> Payload, frames: seq<string>): seq<string> {
    seq(|frames|, i requires 0 <= i < |frames| => TextOf(parse, frames[i]))
  }

  function Concat(texts: seq<string>): string {
    if texts == [] then "" else Concat(texts[..|texts| - 1]) + texts[|texts| - 1]
  }

  /** The chunks of delta frames, numbered after `n`. */
  function DeltaChunks(parse: string -> Payload, taskID: string, n: nat, frames: seq<string>): seq<Chunk> {
    seq(|frames|, i requires 0 <= i < |frames| =>
      Chunk(taskID, n + i + 1, Delta, false, TextOf(parse, frames[i]), "", frames[i]))
  }

  ghost predicate AllDeltas(parse: string -> Payload, frames: seq<string>) {
    forall f | f in frames :: f != DONE && parse(f).DeltaText?
  }

  /** The bridge after delta frames only. */
  function AfterDeltas(parse: string -> Payload, taskID: string, frames: seq<string>): Bridge {
    Bridge(Stream(taskID, |frames|, false, DeltaChunks(parse, taskID, 0, frames)), Concat(AllTexts(parse, frames)), None)
  }

  lemma DeltasSnoc(parse: string -> Payload, taskID: string, front: seq<string>, last: string)
    ensures AllTexts(parse, front + [last]) == AllTexts(parse, front) + [TextOf(parse, last)]
    ensures DeltaChunks(parse, taskID, 0, front + [last])
         == DeltaChunks(parse, taskID, 0, front) + [Chunk(taskID, |front| + 1, Delta, false, TextOf(parse, last), "", last)]
  {
  }

  lemma ConcatSnoc(texts: seq<string>, text: string)
    ensures Concat(texts + [text]) == Concat(texts) + text
  {
    assert (texts + [text])[..|texts|] == texts;
  }

  /** One more delta frame. */
  lemma DeltaBridge(parse: string -> Payload, taskID: string, front: seq<string>, last: string)
    requires last != DONE && parse(last).DeltaText?
    ensures Handle(parse, Accepts, AfterDeltas(parse, taskID, front), last) == AfterDeltas(parse, taskID, front + [last])
  {
    DeltasSnoc(parse, taskID, front, last);
    ConcatSnoc(AllTexts(parse, front), TextOf(parse, last));
  }

  lemma {:induction false} DeltasBridge(parse: string -> Payload, taskID: string, frames: seq<string>)
    requires AllDeltas(parse, frames)
    ensures HandleAll(parse, Accepts, Bridge(Stream(taskID, 0, false, []), "", None), frames) == AfterDeltas(parse, taskID, frames)
  {
    var start := Bridge(Stream(taskID, 0, false, []), "", None);
    if frames == [] {
      assert DeltaChunks(parse, taskID, 0, frames) == [];
    } else {
      var front, last := frames[..|frames| - 1], frames[|frames| - 1];
      assert frames == front + [last] && last in frames;
      assert forall f | f in front :: f in frames;
      DeltasBridge(parse, taskID, front);
      HandleAllAppend(parse, Accepts, start, front, [last]);
      HandleAllOne(parse, Accepts, AfterDeltas(parse, taskID, front), last);
      DeltaBridge(parse, taskID, front, last);
    }
  }

  lemma {:induction false} AcceptedFrames(parse: string -> Payload, b: Bridge, frames: seq<string>)
    requires HandleAll(parse, Accepts, b, frames).failed.None?
    ensures b.failed.None? && forall f | f in frames :: f == DONE || parse(f).DeltaText?
    decreases |frames|
  {
    if frames != [] && b.failed.None? {
      AcceptedFrames(parse, Handle(parse, Accepts, b, frames[0]), frames[1..]);
    }
  }

  function FirstDone(frames: seq<string>): (k: nat)
    ensures k <= |frames|
    ensures k < |frames| ==> frames[k] == DONE
    ensures forall i | 0 <= i < k :: frames[i] != DONE
  {
    if frames == [] || frames[0] == DONE then 0 else FirstDone(frames[1..]) + 1
  }

  /** The frames other than the end marker. */
  function Others(frames: seq<string>): seq<string> {
    if frames == [] then []
    else (if frames[0] == DONE then [] else [frames[0]]) + Others(frames[1..])
  }

  /** The texts of the delta chunks, in order. */
  function DeltaTexts(chunks: seq<Chunk>): seq<string> {
    if chunks == [] then []
    else
      var last := chunks[|chunks| - 1];
      DeltaTexts(chunks[..|chunks| - 1]) + (if last.event == Delta then [last.delta] else [])
  }

  lemma DeltaTextsSnoc(chunks: seq<Chunk>, c: Chunk)
    ensures DeltaTexts(chunks + [c]) == DeltaTexts(chunks) + (if c.event == Delta then [c.delta] else [])
  {
    assert (chunks + [c])[..|chunks|] == chunks;
  }

  lemma {:induction false} DeltaTextsOf(parse: string -> Payload, taskID: string, frames: seq<string>)
    ensures DeltaTexts(DeltaChunks(parse, taskID, 0, frames)) == AllTexts(parse, frames)
  {
    if frames != [] {
      var front := frames[..|frames| - 1];
      DeltaTextsOf(parse, taskID, front);
      assert DeltaChunks(parse, taskID, 0, frames)[..|front|] == DeltaChunks(parse, taskID, 0, front);
      assert AllTexts(parse, frames) == AllTexts(parse, front) + [TextOf(parse, frames[|front|])];
    }
  }

  lemma BehindDoneStep(parse: string -> Payload, b: Bridge, frame: string)
    requires b.stream.terminalSent && b.failed.None? && (frame == DONE || parse(frame).DeltaText?)
    ensures var b' := Handle(parse, Accepts, b, frame);
            && b'.failed.None? && b'.stream.terminalSent
            && DeltaTexts(b'.stream.chunks) ==
                 DeltaTexts(b.stream.chunks) + (if frame == DONE then [] else [TextOf(parse, frame)])
  {
    if frame != DONE {
      var c := Chunk(b.stream.taskID, b.stream.sequence + 1, Delta, false, TextOf(parse, frame), "", frame);
      assert Handle(parse, Accepts, b, frame).stream.chunks == b.stream.chunks + [c];
      DeltaTextsSnoc(b.stream.chunks, c);
    }
  }

  /** Behind the end marker the parser goes on publishing deltas, but no further final chunk. */
  lemma {:induction false} BehindDone(parse: string -> Payload, b: Bridge, frames: seq<string>)
    requires b.stream.terminalSent && b.failed.None?
    requires forall f | f in frames :: f == DONE || parse(f).DeltaText?
    ensures var b' := HandleAll(parse, Accepts, b, frames);
            && b'.failed.None? && b'.stream.terminalSent
            && DeltaTexts(b'.stream.chunks) == DeltaTexts(b.stream.chunks) + AllTexts(parse, Others(frames))
    decreases |frames|
  {
    if frames == [] {
      assert DeltaTexts(b.stream.chunks) + [] == DeltaTexts(b.stream.chunks);
    } else {
      var head := if frames[0] == DONE then [] else [TextOf(parse, frames[0])];
      assert frames[0] in frames && forall f | f in frames[1..] :: f in frames;
      BehindDoneStep(parse, b, frames[0]);
      BehindDone(parse, Handle(parse, Accepts, b, frames[0]), frames[1..]);
      OthersTexts(parse, frames);
      Regroup(DeltaTexts(b.stream.chunks), head, AllTexts(parse, Others(frames[1..])));
    }
  }

  /** Published chunks are never taken back. */
  lemma {:induction false} HandleAllGrows(parse: string -> Payload, b: Bridge, frames: seq<string>)
    ensures b.stream.chunks <= HandleAll(parse, Accepts, b, frames).stream.chunks
    decreases |frames|
  {
    if frames != [] && b.failed.None? {
      HandleAllGrows(parse, Handle(parse, Accepts, b, frames[0]), frames[1..]);
    }
  }

  lemma OthersTexts(parse: string -> Payload, frames: seq<string>)
    requires frames != []
    ensures AllTexts(parse, Others(frames)) ==
            (if frames[0] == DONE then [] else [TextOf(parse, frames[0])]) + AllTexts(parse, Others(frames[1..]))
  {
  }

  function FinalChunk(parse: string -> Payload, taskID: string, frames: seq<string>): Chunk {
    Chunk(taskID, |frames| + 1, Final, true, "", "", Concat(AllTexts(parse, frames)))
  }

  lemma DeltasBeforeDone(parse: string -> Payload, frames: seq<string>)
    requires forall f | f in frames :: f == DONE || parse(f).DeltaText?
    ensures AllDeltas(parse, frames[..FirstDone(frames)])
  {
    var before := frames[..FirstDone(frames)];
    forall f | f in before
      ensures f != DONE && parse(f).DeltaText?
    {
      var i :| 0 <= i < |before| && before[i] == f;
      assert frames[i] in frames;
    }
  }

  /** From the bridge after the first deltas on: one final chunk, then whatever follows. */
  lemma CloseBridge(parse: string -> Payload, b: Bridge, rest: seq<string>)
    requires b.failed.None? && !b.stream.terminalSent
    requires forall f | f in rest :: f == DONE || parse(f).DeltaText?
    requires rest == [] || rest[0] == DONE
    ensures var c := Chunk(b.stream.taskID, b.stream.sequence + 1, Final, true, "", "", b.content);
            var b' := Finish(Accepts, HandleAll(parse, Accepts, b, rest), EndOfFile);
            && b'.failed.None? && b.stream.chunks + [c] <= b'.stream.chunks
            && DeltaTexts(b'.stream.chunks) == DeltaTexts(b.stream.chunks) + AllTexts(parse, Others(rest))
  {
    var c := Chunk(b.stream.taskID, b.stream.sequence + 1, Final, true, "", "", b.content);
    var closed := b.(stream := PushTerminal(b.stream, Final, "", b.content));
    assert closed.stream.chunks == b.stream.chunks + [c];
    DeltaTextsSnoc(b.stream.chunks, c);
    assert DeltaTexts(closed.stream.chunks) == DeltaTexts(b.stream.chunks);
    if rest == [] {
      assert Others(rest) == [] && DeltaTexts(b.stream.chunks) + [] == DeltaTexts(b.stream.chunks);
    } else {
      assert HandleAll(parse, Accepts, b, rest) == HandleAll(parse, Accepts, closed, rest[1..]);
      assert forall f | f in rest[1..] :: f in rest;
      BehindDone(parse, closed, rest[1..]);
      HandleAllGrows(parse, closed, rest[1..]);
      assert Others(rest) == Others(rest[1..]);
    }
  }

  /** What an accepted input publishes up to its final chunk, and how much follows. */
  lemma AcceptedBridge(parse: string -> Payload, taskID: string, frames: seq<string>)
    requires HandleAll(parse, Accepts, Bridge(Stream(taskID, 0, false, []), "", None), frames).failed.None?
    ensures var k := FirstDone(frames);
            var b := Finish(Accepts, HandleAll(parse, Accepts, Bridge(Stream(taskID, 0, false, []), "", None), frames), EndOfFile);
            && AllDeltas(parse, frames[..k]) && b.failed.None?
            && DeltaChunks(parse, taskID, 0, frames[..k]) + [FinalChunk(parse, taskID, frames[..k])] <= b.stream.chunks
            && DeltaTexts(b.stream.chunks) == AllTexts(parse, frames[..k]) + AllTexts(parse, Others(frames[k..]))
  {
    var start, k := Bridge(Stream(taskID, 0, false, []), "", None), FirstDone(frames);
    var before, rest := frames[..k], frames[k..];
    AcceptedParts(parse, start, frames);
    assert HandleAll(parse, Accepts, start, frames) == HandleAll(parse, Accepts, AfterDeltas(parse, taskID, before), rest) by {
      assert frames == before + rest;
      DeltasBridge(parse, taskID, before);
      HandleAllAppend(parse, Accepts, start, before, rest);
    }
    assert DeltaTexts(DeltaChunks(parse, taskID, 0, before)) == AllTexts(parse, before) by {
      DeltaTextsOf(parse, taskID, before);
    }
    CloseBridge(parse, AfterDeltas(parse, taskID, before), rest);
  }

  lemma AcceptedParts(parse: string -> Payload, b: Bridge, frames: seq<string>)
    requires HandleAll(parse, Accepts, b, frames).failed.None?
    ensures AllDeltas(parse, frames[..FirstDone(frames)])
    ensures forall f | f in frames[FirstDone(frames)..] :: f == DONE || parse(f).DeltaText?
  {
    AcceptedFrames(parse, b, frames);
    DeltasBeforeDone(parse, frames);
    assert forall f | f in frames[FirstDone(frames)..] :: f in frames;
  }

  // ------------------------------------------------------------ main theorem

  function Carried(j: Json, frames: seq<string>): seq<string> {
    seq(|frames|, i requires 0 <= i < |frames| => j.transit(frames[i]))
  }

  /** What the sink prints for delta chunks is their payloads as plain frames. */
  lemma {:induction false} WrittenBody(j: Json, enc: Encoder, taskID: string, frames: seq<string>)
    requires JsonOk(j) && AllDeltas(j.parse, frames)
    ensures Written(enc, AllArrived(j, DeltaChunks(j.parse, taskID, 0, frames))) == Body(Carried(j, frames))
  {
    if frames != [] {
      var front, last := frames[..|frames| - 1], frames[|frames| - 1];
      assert frames == front + [last];
      assert last in frames && AllDeltas(j.parse, front) by {
        assert forall f | f in front :: f in frames;
      }
      WrittenBody(j, enc, taskID, front);
      CarriedSnoc(j, taskID, front, last);
      WrittenSnoc(enc, AllArrived(j, DeltaChunks(j.parse, taskID, 0, front)), LastArrived(j, taskID, front, last));
      BodySnoc(Carried(j, front), j.transit(last));
      PrintsPayload(j, enc, LastArrived(j, taskID, front, last), last);
    }
  }

  function LastArrived(j: Json, taskID: string, front: seq<string>, last: string): Chunk {
    Chunk(taskID, |front| + 1, Delta, false, TextOf(j.parse, last), "", j.transit(last))
  }

  lemma CarriedSnoc(j: Json, taskID: string, front: seq<string>, last: string)
    ensures AllArrived(j, DeltaChunks(j.parse, taskID, 0, front + [last]))
         == AllArrived(j, DeltaChunks(j.parse, taskID, 0, front)) + [LastArrived(j, taskID, front, last)]
    ensures Carried(j, front + [last]) == Carried(j, front) + [j.transit(last)]
  {
  }

  lemma PrintsPayload(j: Json, enc: Encoder, c: Chunk, frame: string)
    requires JsonOk(j) && j.parse(frame).DeltaText? && c.event == Delta && c.data == j.transit(frame)
    ensures ChunkText(enc, c) == FrameText("", j.transit(frame))
  {
  }

  lemma CarriedDeltas(j: Json, frames: seq<string>)
    requires JsonOk(j) && AllDeltas(j.parse, frames)
    ensures forall t | t in Carried(j, frames) :: Clean(t)
    ensures AllDeltas(j.parse, Carried(j, frames))
    ensures AllTexts(j.parse, Carried(j, frames)) == AllTexts(j.parse, frames)
  {
    forall i | 0 <= i < |frames|
      ensures Clean(Carried(j, frames)[i]) && Carried(j, frames)[i] != DONE
      ensures j.parse(Carried(j, frames)[i]) == j.parse(frames[i])
    {
      assert frames[i] in frames;
    }
  }

  /** The chunks a sink gets for delta frames and the final chunk. */
  function Sent(j: Json, taskID: string, frames: seq<string>): seq<Chunk> {
    AllArrived(j, DeltaChunks(j.parse, taskID, 0, frames)) + [FinalChunk(j.parse, taskID, frames)]
  }

  lemma SentIsBody(j: Json, enc: Encoder, taskID: string, frames: seq<string>)
    requires JsonOk(j) && AllDeltas(j.parse, frames)
    ensures Written(enc, Sent(j, taskID, frames)) == Body(Carried(j, frames))
  {
    WrittenBody(j, enc, taskID, frames);
    WrittenSnoc(enc, AllArrived(j, DeltaChunks(j.parse, taskID, 0, frames)), FinalChunk(j.parse, taskID, frames));
    assert Body(Carried(j, frames)) + "" == Body(Carried(j, frames));
  }

  /** What the bytes of a sink that was closed after these chunks frame. */
  lemma ClientFrames(j: Json, enc: Encoder, taskID: string, frames: seq<string>)
    requires JsonOk(j) && AllDeltas(j.parse, frames)
    ensures var payloads := Carried(j, frames);
            FramesIn(Written(enc, Sent(j, taskID, frames)) + DoneText) ==
            if FirstLong(payloads) == |payloads| then (payloads + [DONE], false) else (payloads[..FirstLong(payloads)], true)
  {
    SentIsBody(j, enc, taskID, frames);
    assert forall t | t in Carried(j, frames) :: Clean(t) by {
      CarriedDeltas(j, frames);
    }
    BodyReadsBack(Carried(j, frames), DoneText);
    DoneReadsBack();
  }

  /** Delta payloads and one end marker, parsed. */
  lemma ClosedBridge(parse: string -> Payload, clientID: string, payloads: seq<string>)
    requires AllDeltas(parse, payloads)
    ensures var read := Finish(Accepts, HandleAll(parse, Accepts, Bridge(Stream(clientID, 0, false, []), "", None), payloads + [DONE]), EndOfFile);
            && read.failed.None? && read.content == Concat(AllTexts(parse, payloads))
            && DeltaTexts(read.stream.chunks) == AllTexts(parse, payloads)
            && read.stream.chunks == DeltaChunks(parse, clientID, 0, payloads) + [FinalChunk(parse, clientID, payloads)]
  {
    var start, b := Bridge(Stream(clientID, 0, false, []), "", None), AfterDeltas(parse, clientID, payloads);
    HandleAllAppend(parse, Accepts, start, payloads, [DONE]);
    DeltasBridge(parse, clientID, payloads);
    HandleAllOne(parse, Accepts, b, DONE);
    DeltaTextsOf(parse, clientID, payloads);
    DeltaTextsSnoc(b.stream.chunks, FinalChunk(parse, clientID, payloads));
  }

  function TooLongChunk(taskID: string, n: nat): Chunk {
    Chunk(taskID, n + 1, Error, true, "", TOO_LONG, "")
  }

  /** Delta payloads and then a line that is too long, parsed: the deltas and an error chunk. */
  lemma CutBridge(parse: string -> Payload, clientID: string, payloads: seq<string>)
    requires AllDeltas(parse, payloads)
    ensures var read := Finish(Accepts, HandleAll(parse, Accepts, Bridge(Stream(clientID, 0, false, []), "", None), payloads), ReadError(TOO_LONG));
            && read.failed == Some(TOO_LONG) && read.content == Concat(AllTexts(parse, payloads))
            && DeltaTexts(read.stream.chunks) == AllTexts(parse, payloads)
            && read.stream.chunks == DeltaChunks(parse, clientID, 0, payloads) + [TooLongChunk(clientID, |payloads|)]
  {
    DeltasBridge(parse, clientID, payloads);
    CutAfter(AfterDeltas(parse, clientID, payloads));
    DeltaTextsOf(parse, clientID, payloads);
  }

  lemma CutAfter(b: Bridge)
    requires b.failed.None? && !b.stream.terminalSent
    ensures var read := Finish(Accepts, b, ReadError(TOO_LONG));
            && read.failed == Some(TOO_LONG) && read.content == b.content
            && read.stream.chunks == b.stream.chunks + [TooLongChunk(b.stream.taskID, b.stream.sequence)]
            && DeltaTexts(read.stream.chunks) == DeltaTexts(b.stream.chunks)
  {
    DeltaTextsSnoc(b.stream.chunks, TooLongChunk(b.stream.taskID, b.stream.sequence));
    assert DeltaTexts(b.stream.chunks) + [] == DeltaTexts(b.stream.chunks);
  }

  lemma {:induction false} UpToFinal(deltas: seq<Chunk>, fin: Chunk, all: seq<Chunk>)
    requires deltas + [fin] <= all && fin.done && forall c | c in deltas :: !c.done
    ensures Senders.UpToDone(all) == deltas + [fin]
  {
    if deltas == [] {
      assert all[0] == fin;
    } else {
      assert all[0] == (deltas + [fin])[0] == deltas[0];
      assert deltas[0] in deltas;
      assert deltas[1..] + [fin] == (deltas + [fin])[1..] <= all[1..];
      UpToFinal(deltas[1..], fin, all[1..]);
      assert [deltas[0]] + (deltas[1..] + [fin]) == deltas + [fin];
    }
  }

  /** What the client reads back from the bytes of a sink that got `written` and was closed. */
  function ReadBack(j: Json, enc: Encoder, clientID: string, written: seq<Chunk>): Bridge {
    Parsed(j.parse, Accepts, clientID, Written(enc, written) + DoneText)
  }

  /**
    After these steps of the sender, sink `k` of the task is closed, and of the task's chunks
    the queue accepted since it was registered exactly what the bridge published.
   */
  ghost predicate DeliveredAll(j: Json, taskID: string, published: seq<Chunk>, trace: seq<Senders.Action>, h: Senders.Hub, k: nat) {
    && Senders.Leads(Senders.Start, trace, h) && k < |h.logs| && h.logs[k].task == taskID && h.logs[k].closes == 1
    && h.logs[k].since <= |h.accepted| && Senders.DueSince(h, k) == AllArrived(j, published)
  }

  /** The payloads of an accepted input before the end marker, and behind it. */
  function Before(text: string): seq<string> {
    FramesIn(text).0[..FirstDone(FramesIn(text).0)]
  }

  function Behind(text: string): seq<string> {
    Others(FramesIn(text).0[FirstDone(FramesIn(text).0)..])
  }

  /** An accepted input was read to its end; what the bridge published for it. */
  lemma UpstreamIs(parse: string -> Payload, publish: Publish, taskID: string, text: string)
    requires Parsed(parse, publish, taskID, text).failed.None?
    ensures var up := Parsed(parse, publish, taskID, text);
            && AllDeltas(parse, Before(text))
            && DeltaChunks(parse, taskID, 0, Before(text)) + [FinalChunk(parse, taskID, Before(text))] <= up.stream.chunks
            && DeltaTexts(up.stream.chunks) == AllTexts(parse, Before(text)) + AllTexts(parse, Behind(text))
  {
    BridgedAccepted(parse, publish, Stream(taskID, 0, false, []), Scan(text).0, ScanEnd(Scan(text).1));
    ParsedIs(parse, Accepts, taskID, text);
    AcceptedBridge(parse, taskID, FramesIn(text).0);
  }

  /** The closed sink got the deltas before the end marker and the final chunk. */
  lemma SinkGot(j: Json, publish: Publish, taskID: string, text: string, trace: seq<Senders.Action>, h: Senders.Hub, k: nat)
    requires Parsed(j.parse, publish, taskID, text).failed.None?
    requires DeliveredAll(j, taskID, Parsed(j.parse, publish, taskID, text).stream.chunks, trace, h, k)
    ensures AllDeltas(j.parse, Before(text)) && h.logs[k].written == Sent(j, taskID, Before(text))
  {
    var before, chunks := Before(text), Parsed(j.parse, publish, taskID, text).stream.chunks;
    UpstreamIs(j.parse, publish, taskID, text);
    var ds, fin := DeltaChunks(j.parse, taskID, 0, before), FinalChunk(j.parse, taskID, before);
    ArrivedPrefix(j, ds, fin, chunks);
    UpToFinal(AllArrived(j, ds), fin, AllArrived(j, chunks));
    Senders.ClosedSinkGotAll(trace, h, k);
  }

  lemma ArrivedPrefix(j: Json, ds: seq<Chunk>, fin: Chunk, chunks: seq<Chunk>)
    requires ds + [fin] <= chunks && fin.event != Delta
    ensures AllArrived(j, ds) + [fin] <= AllArrived(j, chunks)
  {
    assert forall i | 0 <= i < |ds| :: (ds + [fin])[i] == ds[i] == chunks[i];
    assert (ds + [fin])[|ds|] == fin == chunks[|ds|];
  }

  /** What the client reads when every frame fits. */
  ghost predicate ReadsAll(j: Json, clientID: string, frames: seq<string>, down: Bridge) {
    && down.failed.None? && down.content == Concat(AllTexts(j.parse, frames))
    && DeltaTexts(down.stream.chunks) == AllTexts(j.parse, frames)
    && down.stream.chunks == DeltaChunks(j.parse, clientID, 0, Carried(j, frames)) + [FinalChunk(j.parse, clientID, Carried(j, frames))]
  }

  /** What the client reads when frame `n` is the first that does not: the ones before it, and an error. */
  ghost predicate ReadsUpTo(j: Json, clientID: string, frames: seq<string>, n: nat, down: Bridge)
    requires n <= |frames|
  {
    && down.failed == Some(TOO_LONG) && down.content == Concat(AllTexts(j.parse, frames[..n]))
    && DeltaTexts(down.stream.chunks) == AllTexts(j.parse, frames[..n])
    && down.stream.chunks == DeltaChunks(j.parse, clientID, 0, Carried(j, frames[..n])) + [TooLongChunk(clientID, n)]
  }

  lemma ClientReads(j: Json, enc: Encoder, taskID: string, clientID: string, frames: seq<string>)
    requires JsonOk(j) && AllDeltas(j.parse, frames)
    ensures var n, down := FirstLong(Carried(j, frames)), ReadBack(j, enc, clientID, Sent(j, taskID, frames));
            if n == |frames| then ReadsAll(j, clientID, frames, down) else ReadsUpTo(j, clientID, frames, n, down)
  {
    var n, text := FirstLong(Carried(j, frames)), Written(enc, Sent(j, taskID, frames)) + DoneText;
    ParsedIs(j.parse, Accepts, clientID, text);
    ClientFrames(j, enc, taskID, frames);
    if n == |frames| {
      CarriedDeltas(j, frames);
      ClosedBridge(j.parse, clientID, Carried(j, frames));
    } else {
      assert AllDeltas(j.parse, frames[..n]) by {
        assert forall f | f in frames[..n] :: f in frames;
      }
      CarriedDeltas(j, frames[..n]);
      assert Carried(j, frames)[..n] == Carried(j, frames[..n]);
      CutBridge(j.parse, clientID, Carried(j, frames[..n]));
    }
  }

  /**
    Gateway transparency. Take any upstream input the bridge accepts, and any run of the sender
    that loses none of its chunks and closes the sink. Parsing the bytes of the sink again
    succeeds exactly if every frame before the end marker still fits into a line after its
    trip. Then it gives the delta texts published before the end marker, and the content of
    the upstream final chunk; these are all the delta texts exactly when nothing but end markers
    follows the first one upstream. Otherwise it gives the deltas before the first frame that
    does not fit, and an error.
   */
  lemma GatewayTransparency(j: Json, enc: Encoder, publish: Publish, taskID: string, clientID: string, text: string,
                            trace: seq<Senders.Action>, h: Senders.Hub, k: nat)
    requires JsonOk(j) && Parsed(j.parse, publish, taskID, text).failed.None?
    requires DeliveredAll(j, taskID, Parsed(j.parse, publish, taskID, text).stream.chunks, trace, h, k)
    ensures var up, before := Parsed(j.parse, publish, taskID, text), Before(text);
            var n, down := FirstLong(Carried(j, before)), ReadBack(j, enc, clientID, h.logs[k].written);
            && (down.failed.None? <==> forall f | f in before :: Fits(j.transit(f)))
            && (down.failed.None? ==> n == |before| && ReadsAll(j, clientID, before, down))
            && (down.failed.Some? ==> n < |before| && ReadsUpTo(j, clientID, before, n, down))
            && (down.failed.None? ==> |before| < |up.stream.chunks| && up.stream.chunks[|before|].event == Final
                                      && up.stream.chunks[|before|].data == down.content)
            && (down.failed.None? ==>
                  (DeltaTexts(down.stream.chunks) == DeltaTexts(up.stream.chunks) <==> Behind(text) == []))
            && DeltaTexts(up.stream.chunks) == AllTexts(j.parse, before) + AllTexts(j.parse, Behind(text))
  {
    var before, chunks := Before(text), Parsed(j.parse, publish, taskID, text).stream.chunks;
    SinkGot(j, publish, taskID, text, trace, h, k);
    UpstreamIs(j.parse, publish, taskID, text);
    ClientReads(j, enc, taskID, clientID, before);
    AllFit(j, before);
    var fin := FinalChunk(j.parse, taskID, before);
    assert (DeltaChunks(j.parse, taskID, 0, before) + [fin])[|before|] == fin == chunks[|before|];
  }

  lemma AllFit(j: Json, frames: seq<string>)
    ensures FirstLong(Carried(j, frames)) == |frames| <==> forall f | f in frames :: Fits(j.transit(f))
  {
    var payloads := Carried(j, frames);
    if FirstLong(payloads) == |frames| {
      forall f | f in frames
        ensures Fits(j.transit(f))
      {
        var i :| 0 <= i < |frames| && frames[i] == f;
        assert Fits(payloads[i]);
      }
    } else {
      assert frames[FirstLong(payloads)] in frames;
    }
  }
}
