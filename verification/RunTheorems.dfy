/**
  What a story of `RuntimeStory` means for those who watch a run: how it ends, what the model is
  shown, what is executed and what is published, told by the replies and by literal values.
 */
module RunTheorems {
  import opened Options
  import opened Sequences
  import opened Approval
  import opened ApprovalSystem
  import opened Fanouts
  import opened TaskStatuses
  import opened RuntimeStory

  // ------------------------------------------------------------ how a run ends

  /** The reply asks for a tool, or for nothing at all: no final text, no failure. */
  ghost predicate GoesOn(codec: Codec, reply: Reply) {
    reply.Answer? && codec.parse(reply.text).Action? && codec.parse(reply.text).final == ""
  }

  ghost predicate AsksFor(codec: Codec, reply: Reply, call: ToolCall) {
    reply.Answer? && codec.parse(reply.text) == Action("", Some(call))
  }

  /** The last reply decides: a failure ends the run as it is, a final text as a success. */
  lemma EndsAsReplied(story: Story, codec: Codec, req: RunRequest, gated: bool, maxTurns: nat,
                      result: FinalResult, err: Option<RunError>)
    requires Tells(story, codec, req, gated, maxTurns, result, err) && story.replies != []
    ensures match story.replies[|story.replies| - 1]
            case ProviderFailed(e) => err == Some(e) && result == FinalResult("", ClassifyTerminalError(e).0)
            case Answer(text) =>
              match codec.parse(text)
              case BadOutput(e) => err == Some(e) && result == FinalResult("", ClassifyTerminalError(e).0)
              case Action(final, _) =>
                if final != "" then err == None && result == FinalResult(final, "success") else err.Some? && result.content == ""
  {
    var n := |story.replies| - 1;
    var move := MoveOf(codec, story.replies[n]);
    if Told(codec, req, story.replies, story.prompts, story.log) {
      assert move.Calls? || move.Thinks?;
    }
  }

  /** A run in which no reply ends it and no call is cut off uses up its turns and fails. */
  lemma OutOfTurns(story: Story, codec: Codec, req: RunRequest, gated: bool, maxTurns: nat,
                   result: FinalResult, err: Option<RunError>)
    requires Tells(story, codec, req, gated, maxTurns, result, err)
    requires story.rejected == [] && story.unfinished == [] && forall r | r in story.replies :: GoesOn(codec, r)
    ensures |story.replies| == maxTurns && err == Some(RunError("exceeded max turns", false, false))
    ensures result == FinalResult("", "failed")
    ensures Closing(codec, result, err, story.rejected) == Post(Error, "exceeded max turns", "")
  {
    MaxTurnsClass();
    if story.replies != [] {
      assert GoesOn(codec, story.replies[|story.replies| - 1]);
    }
  }

  lemma MaxTurnsClass()
    ensures ClassifyTerminalError(RunError("exceeded max turns", false, false)) == ("failed", Error)
  {
    ClassifiedByWords(RunError("exceeded max turns", false, false));
    assert Text.ReadsAt("exceeded max turns", "exceeded max turns", 0);
  }

  /** Without a gate, a write ends the run as failed, with only the call announced. */
  lemma WriteWithoutGate(story: Story, codec: Codec, req: RunRequest, maxTurns: nat,
                         result: FinalResult, err: Option<RunError>, call: ToolCall)
    requires Tells(story, codec, req, false, maxTurns, result, err) && AllRightful(story.log + story.rejected, req, [], {}, {})
    requires story.replies != [] && AsksFor(codec, story.replies[|story.replies| - 1], call) && call.isWrite
    ensures err == Some(RunError("approval gate required for write operation", false, false))
    ensures result == FinalResult("", "failed")
    ensures story.rejected == [] && story.unfinished == [Post(ToolCalled, "", codec.callData(call))]
    ensures Closing(codec, result, err, story.rejected) == Post(Error, "approval gate required for write operation", "")
  {
    NoGateFails();
    if Told(codec, req, story.replies, story.prompts, story.log) && story.rejected == [] {
      LastTurnIs(codec, req, story.replies, story.prompts, story.log, call);
      var t := story.log[|story.log| - 1];
      WritesHaveNoTurn(story.log + story.rejected, req, t);
    }
  }

  /** Where no decision was ever routed, no write has a turn. */
  lemma WritesHaveNoTurn(log: seq<ToolTurn>, req: RunRequest, t: ToolTurn)
    requires AllRightful(log, req, [], {}, {}) && t in log
    ensures !t.call.isWrite
  {
    assert Rightful(t, req, [], {}, {});
  }

  lemma LastTurnIs(codec: Codec, req: RunRequest, replies: seq<Reply>, prompts: seq<seq<ChatMessage>>, log: seq<ToolTurn>, call: ToolCall)
    requires Told(codec, req, replies, prompts, log) && replies != [] && AsksFor(codec, replies[|replies| - 1], call)
    ensures log != [] && log[|log| - 1].call == call
  {
  }

  lemma NoGateFails()
    ensures NoGateError == RunError("approval gate required for write operation", false, false)
    ensures ClassifyTerminalError(NoGateError) == ("failed", Error)
  {
    var msg, word := "approval gate required for write operation", "approval gate required";
    assert word + " for write operation" == msg;
    ClassifiedByWords(NoGateError);
    assert Text.ReadsAt(msg, word, 0) by {
      assert forall k | 0 <= k < |word| :: msg[0 + k] == word[k];
    }
  }

  /** A write cut off by the gate leaves its announcement and the wait. */
  lemma CutOffByGate(story: Story, codec: Codec, req: RunRequest, maxTurns: nat,
                     result: FinalResult, err: Option<RunError>, call: ToolCall)
    requires Tells(story, codec, req, true, maxTurns, result, err) && story.unfinished != []
    requires story.replies != [] && AsksFor(codec, story.replies[|story.replies| - 1], call)
    ensures call.isWrite && story.rejected == [] && err.Some?
    ensures result == FinalResult("", ClassifyTerminalError(err.value).0)
    ensures story.unfinished ==
            [Post(ToolCalled, "", codec.callData(call)),
             Post(WaitingApproval, "",
                  codec.askData(Request(req.traceID, req.taskID, call.id, call.name,
                                        call.arguments == "" || codec.validJson(call.arguments)), call.arguments))]
  {
  }

  /** A rejection that ends a run. */
  lemma EndedByRejection(story: Story, codec: Codec, req: RunRequest, gated: bool, maxTurns: nat,
                         result: FinalResult, err: Option<RunError>)
    requires Tells(story, codec, req, gated, maxTurns, result, err) && story.rejected != []
    ensures req.onApprovalReject == "fail" && story.unfinished == []
    ensures |story.rejected| == 1 && story.rejected[0].ran == None && story.rejected[0].call.isWrite
    ensures err == Some(RunError("approval rejected", false, false)) && result == FinalResult("", "rejected")
    ensures Closing(codec, result, err, story.rejected) == Post(Error, "approval rejected", "")
    ensures story.replies != [] && AsksFor(codec, story.replies[|story.replies| - 1], story.rejected[0].call)
  {
  }

  // ------------------------------------------------------- what the model is shown

  /** How many of the replies ask for a tool. */
  function CallsIn(codec: Codec, replies: seq<Reply>): nat {
    if replies == [] then 0
    else CallsIn(codec, replies[..|replies| - 1]) + (if IsCall(codec, replies[|replies| - 1]) then 1 else 0)
  }

  predicate IsCall(codec: Codec, reply: Reply) {
    reply.Answer? && codec.parse(reply.text).Action? && codec.parse(reply.text).final == "" && codec.parse(reply.text).callSkill.Some?
  }

  lemma CallsMove(codec: Codec, reply: Reply)
    ensures MoveOf(codec, reply).Calls? <==> IsCall(codec, reply)
    ensures IsCall(codec, reply) ==>
              MoveOf(codec, reply) == Calls(reply.text, codec.parse(reply.text).callSkill.value)
  {
  }

  /** Turn by turn: each reply that asks for a tool has its turn, with the reply and the call as they were. */
  lemma {:induction false} TurnsAre(codec: Codec, req: RunRequest, replies: seq<Reply>, prompts: seq<seq<ChatMessage>>,
                                    log: seq<ToolTurn>, i: nat)
    requires Told(codec, req, replies, prompts, log) && i < |replies|
    ensures |log| == CallsIn(codec, replies)
    ensures var n := CallsIn(codec, replies[..i]);
            && n <= |log|
            && (IsCall(codec, replies[i]) ==>
                  n < |log| && log[n].answer == replies[i].text && Some(log[n].call) == codec.parse(replies[i].text).callSkill)
            && i < |prompts| && prompts[i] == Transcript(req, log[..n])
    decreases |replies|
  {
    var n, move := |replies| - 1, MoveOf(codec, replies[|replies| - 1]);
    var k := if move.Calls? then |log| - 1 else |log|;
    CallsMove(codec, replies[n]);
    TurnCount(codec, req, replies[..n], prompts[..n], log[..k]);
    if i < n {
      TurnsAre(codec, req, replies[..n], prompts[..n], log[..k], i);
      assert replies[..n][..i] == replies[..i];
      assert log[..k][..CallsIn(codec, replies[..i])] == log[..CallsIn(codec, replies[..i])];
    }
  }

  lemma {:induction false} TurnCount(codec: Codec, req: RunRequest, replies: seq<Reply>, prompts: seq<seq<ChatMessage>>, log: seq<ToolTurn>)
    requires Told(codec, req, replies, prompts, log)
    ensures |log| == CallsIn(codec, replies)
    decreases |replies|
  {
    if replies != [] {
      var n, move := |replies| - 1, MoveOf(codec, replies[|replies| - 1]);
      CallsMove(codec, replies[n]);
      TurnCount(codec, req, replies[..n], prompts[..n], log[..if move.Calls? then |log| - 1 else |log|]);
    }
  }

  /** The transcript: the request, and for each turn the answer and the output under its call. */
  lemma {:induction false} TranscriptAt(req: RunRequest, log: seq<ToolTurn>, k: nat)
    requires k < |log|
    ensures var m, messages := |req.messages|, Transcript(req, log);
            && |messages| == m + 2 * |log| && messages[..m] == req.messages
            && messages[m + 2 * k] == ChatMessage(Assistant, "", log[k].answer)
            && messages[m + 2 * k + 1] == ChatMessage(Tool, log[k].call.id, log[k].result.output)
    decreases |log|
  {
    ExchangesLength(log);
    var front := log[..|log| - 1];
    ExchangesLength(front);
    if k < |front| {
      TranscriptAt(req, front, k);
      Regroup(req.messages, ExchangesOf(front), ExchangesOf(log)[2 * |front|..]);
      assert Transcript(req, log)[..|req.messages| + 2 * |front|] == Transcript(req, front);
    }
  }

  // ------------------------------------------------------------ what is executed

  lemma ExecutionsAre(log: seq<ToolTurn>, t: ToolTurn)
    ensures RanOf([]) == []
    ensures RanOf(log + [t]) == RanOf(log) + match t.ran
                                             case Some(permit) => [Execution(t.call, permit, t.result)]
                                             case None => []
  {
    assert (log + [t])[..|log|] == log;
  }

  /** What allows a write, in full. */
  lemma AllowedIs(p: Permit, req: RunRequest, call: ToolCall)
    ensures AllowedBy(p, req, call) <==>
            && p.place < |p.routed|
            && var d := p.routed[p.place];
               && d.approved && d.taskID != "" && d.toolCallID != "" && d.decidedAtMs > 0
               && d.taskID + ":" + d.toolCallID == req.taskID + ":" + call.id
               && (d.traceID == "" || req.traceID == "" || d.traceID == req.traceID)
  {
  }

  /** What a turn reports whose call was rejected. */
  lemma DeniedIs(routed: seq<Decision>, req: RunRequest, t: ToolTurn)
    requires Denied(routed, req, t)
    ensures exists d :: && d in routed && !d.approved && d.taskID + ":" + d.toolCallID == req.taskID + ":" + t.call.id
                        && (d.traceID == "" || req.traceID == "" || d.traceID == req.traceID)
                        && t.result == ToolResult(t.call.id, t.call.name, false, "User rejected this operation: " + d.reason, d.reason)
  {
    var d :| d in routed && !d.approved && Concerns(d, req, t.call) && t.result == Refusal(t.call, d.reason);
  }

  // ----------------------------------------------------------- what is published

  /** The chunks of one more turn. */
  lemma TurnIsPublished(codec: Codec, req: RunRequest, log: seq<ToolTurn>, t: ToolTurn)
    ensures LogPosts(codec, req, []) == []
    ensures LogPosts(codec, req, log + [t]) == LogPosts(codec, req, log)
              + ([Post(ToolCalled, "", codec.callData(t.call))]
                 + (if t.call.isWrite then
                      [Post(WaitingApproval, "",
                            codec.askData(Request(req.traceID, req.taskID, t.call.id, t.call.name,
                                                  t.call.arguments == "" || codec.validJson(t.call.arguments)),
                                          t.call.arguments))]
                    else [])
                 + [Post(ToolResulted, if t.result.success then "" else t.result.error, codec.resultData(t.result))])
  {
    assert (log + [t])[..|log|] == log;
  }

  /** Ordinary chunks take the next numbers, and carry what was posted. */
  lemma {:induction false} ChunkAt(s: Stream, posts: seq<Post>, i: nat)
    requires i < |posts|
    ensures PushAll(s, posts).sequence == s.sequence + |posts| && PushAll(s, posts).taskID == s.taskID
    ensures |PushAll(s, posts).chunks| == |s.chunks| + |posts| && s.chunks <= PushAll(s, posts).chunks
    ensures PushAll(s, posts).chunks[|s.chunks| + i] ==
            Chunk(s.taskID, s.sequence + i + 1, posts[i].event, false, "", posts[i].error, posts[i].data)
    decreases |posts|
  {
    var front := posts[..|posts| - 1];
    if front != [] {
      ChunkAt(s, front, if i < |front| then i else 0);
    }
  }

  /** The closing chunk of a run carries its answer, or its error. */
  lemma ClosingIs(codec: Codec, result: FinalResult, err: Option<RunError>, rejected: seq<ToolTurn>)
    ensures err == None ==> Closing(codec, result, err, rejected) == Post(Final, "", codec.finalData(result.content))
    ensures err.Some? ==> Closing(codec, result, err, rejected).error == err.value.msg && Closing(codec, result, err, rejected).data == ""
  {
  }

  /** On a fresh fanout the last chunk is the closing one, done, under the next number. */
  lemma LastChunkIs(taskID: string, story: Story, codec: Codec, req: RunRequest, result: FinalResult, err: Option<RunError>)
    ensures var posts := LogPosts(codec, req, story.log + story.rejected) + story.unfinished;
            var last := Closing(codec, result, err, story.rejected);
            var chunks := StoryStream(Stream(taskID, 0, false, []), story, codec, req, result, err).chunks;
            && |chunks| == |posts| + 1
            && chunks[|posts|] == Chunk(taskID, |posts| + 1, last.event, true, "", last.error, last.data)
            && forall i | 0 <= i < |posts| ::
                 chunks[i] == Chunk(taskID, i + 1, posts[i].event, false, "", posts[i].error, posts[i].data)
  {
    var start := Stream(taskID, 0, false, []);
    var posts := LogPosts(codec, req, story.log + story.rejected) + story.unfinished;
    forall i | 0 <= i < |posts| {
      ChunkAt(start, posts, i);
    }
    StaysOpen(start, posts);
    if posts != [] {
      ChunkAt(start, posts, 0);
    }
  }

  lemma {:induction false} StaysOpen(s: Stream, posts: seq<Post>)
    ensures PushAll(s, posts).terminalSent == s.terminalSent
  {
    if posts != [] {
      StaysOpen(s, posts[..|posts| - 1]);
    }
  }
}
