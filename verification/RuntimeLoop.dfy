/**
  The agent loop of internal/llm/runtime_loop.go: model call, tool call, approval, result,
  until the model gives a final answer or something ends the run. What the model answers,
  whether tools and approvals succeed, and what happens at the gate meanwhile are arbitrary.
 */
module RuntimeLoop {
  import opened Options
  import opened Approval
  import opened Fanouts
  import opened TaskStatuses
  import opened ApprovalSystem
  import opened GateCalls
  import opened ApprovalGates
  import opened RuntimeStory

  class Provider {
    /** The transcripts the model was shown, and what came back. */
    ghost var prompts: seq<seq<ChatMessage>>
    ghost var replies: seq<Reply>

    method Predict(messages: seq<ChatMessage>) returns (r: Reply)
      modifies this
      ensures prompts == old(prompts) + [messages] && replies == old(replies) + [r]
    {
      r := *;
      prompts, replies := prompts + [messages], replies + [r];
    }
  }

  class ToolRunner {
    /** What was run and what it gave; a failed execution gives its error as a failed result. */
    ghost var executions: seq<Execution>

    method Execute(call: ToolCall, ghost permit: Permit) returns (res: ToolResult, err: Option<string>)
      modifies this
      ensures executions == old(executions) +
                [Execution(call, permit, if err.Some? then ToolResult(call.id, call.name, false, err.value, err.value) else res)]
    {
      res := *;
      err := *;
      executions := executions +
        [Execution(call, permit, if err.Some? then ToolResult(call.id, call.name, false, err.value, err.value) else res)];
    }
  }

  // ---------------------------------------------------------------- publishing

  ghost function Frame(fanout: Fanout?): set<object> {
    if fanout == null then {} else {fanout, fanout.publisher}
  }

  /** Since `was`, the fanout published `posts`. */
  ghost predicate Grew(fanout: Fanout?, was: Stream, posts: seq<Post>)
    reads Frame(fanout)
  {
    fanout != null ==> fanout.Value() == PushAll(was, posts)
  }

  /** Since `was`, the fanout published `posts` and then tried the terminal chunk `last`. */
  ghost predicate Ended(fanout: Fanout?, was: Stream, posts: seq<Post>, last: Post)
    reads Frame(fanout)
  {
    fanout != null ==> fanout.Value() == PushEnding(was, posts, last)
  }

  method Notify(fanout: Fanout?, post: Post, ghost was: Stream, ghost sent: seq<Post>)
    requires Grew(fanout, was, sent)
    modifies Frame(fanout)
    ensures Grew(fanout, was, sent + [post])
  {
    PushAllSnoc(was, sent, post);
    if fanout != null {
      var _ := fanout.EmitEvent(post.event, post.error, post.data);
    }
  }

  method NotifyTerminal(fanout: Fanout?, post: Post, ghost was: Stream, ghost sent: seq<Post>)
    requires Grew(fanout, was, sent)
    modifies Frame(fanout)
    ensures Ended(fanout, was, sent, post)
  {
    if fanout != null {
      var _ := fanout.EmitTerminal(post.event, post.error, post.data);
    }
  }

  /** failWithTerminalEvent: the event and the status come from one classification. */
  method FailWithTerminalEvent(fanout: Fanout?, err: RunError, ghost was: Stream, ghost sent: seq<Post>)
    returns (result: FinalResult)
    requires Grew(fanout, was, sent)
    modifies Frame(fanout)
    ensures Failed(err, result, Some(err))
    ensures Ended(fanout, was, sent, Post(ClassifyTerminalError(err).1, err.msg, ""))
  {
    var (status, event) := ClassifyTerminalError(err);
    NotifyTerminal(fanout, Post(event, err.msg, ""), was, sent);
    result := FinalResult("", status);
  }

  // ------------------------------------------------------------------ runtime

  datatype TurnEnd = Continue(exchange: seq<ChatMessage>) | Stop(result: FinalResult, err: Option<RunError>)

  /** Lower case, without 'x' and 'p', and no 'i' follows a 't'. */
  predicate Harmless(msg: string) {
    && (forall c | c in msg :: Text.LowerChar(c) == c && c != 'x' && c != 'p')
    && forall i | 0 <= i < |msg| - 1 && msg[i] == 't' :: msg[i + 1] != 'i'
  }

  lemma DiffersAt(s: string, word: string, i: int, k: nat)
    requires k < |word| && (0 <= i + k < |s| ==> s[i + k] != word[k])
    ensures !Text.WordAt(s, word, i)
  {
    if 0 <= i <= |s| - |word| {
      assert s[i..i + |word|][k] == s[i + k];
    }
  }

  /** Such a text contains none of the words that the classification looks for. */
  lemma HarmlessIsError(msg: string)
    requires Harmless(msg)
    ensures ClassifyTerminalError(RunError(msg, false, false)) == ("error", Error)
  {
    assert forall j | 0 <= j < |msg| :: msg[j] in msg;
    assert Text.ToLower(msg) == msg;
    forall i
      ensures !Text.WordAt(msg, "exceeded max turns", i) && !Text.WordAt(msg, "approval gate required", i)
      ensures !Text.WordAt(msg, "timeout", i)
    {
      DiffersAt(msg, "exceeded max turns", i, 1);
      DiffersAt(msg, "approval gate required", i, 1);
      DiffersAt(msg, "timeout", i, if 0 <= i < |msg| && msg[i] == 't' then 1 else 0);
    }
  }

  lemma WithoutT(msg: string)
    requires forall c | c in msg :: Text.LowerChar(c) == c && c != 'x' && c != 'p' && c != 't'
    ensures Harmless(msg)
  {
    assert forall j | 0 <= j < |msg| :: msg[j] in msg;
  }

  lemma JoinedByT(a: string, b: string)
    requires Harmless(a) && Harmless(b) && (b == "" || b[0] != 'i')
    ensures Harmless(a + "t" + b)
  {
    assert forall c | c in a + "t" + b :: c in a || c == 't' || c in b;
  }

  lemma StartsWithT(b: string)
    requires Harmless(b) && (b == "" || b[0] != 'i')
    ensures Harmless("t" + b)
  {
    JoinedByT("", b);
    assert "" + "t" + b == "t" + b;
  }

  lemma TaskMissing()
    ensures Harmless("task_id is required")
  {
    WithoutT("ask_id is required");
    StartsWithT("ask_id is required");
    assert "t" + "ask_id is required" == "task_id is required";
  }

  lemma CallMissing()
    ensures Harmless("tool_call_id is required")
  {
    WithoutT("ool_call_id is required");
    StartsWithT("ool_call_id is required");
    assert "t" + "ool_call_id is required" == "tool_call_id is required";
  }

  lemma NameMissing()
    ensures Harmless("tool_name is required")
  {
    WithoutT("ool_name is required");
    StartsWithT("ool_name is required");
    assert "t" + "ool_name is required" == "tool_name is required";
  }

  lemma BadArguments()
    ensures Harmless("arguments must be valid json")
  {
    var rest := "s mus" + "t" + " be valid json";
    WithoutT("argumen");
    WithoutT("s mus");
    WithoutT(" be valid json");
    JoinedByT("s mus", " be valid json");
    JoinedByT("argumen", rest);
    assert "argumen" + "t" + rest == "arguments must be valid json";
  }

  lemma RequestErrorHarmless(req: Request)
    ensures Harmless(RequestError(req))
  {
    TaskMissing();
    CallMissing();
    NameMissing();
    BadArguments();
  }

  /** How a wait without a decision ends a run; a gate that is down ends it by its own error. */
  lemma WaitErrorClass(req: Request, o: Outcome)
    requires !o.Got? && (o.Refused? ==> o.msg == RequestError(req))
    ensures ClassifyTerminalError(WaitError(o)) ==
            match o
            case Refused(_) => ("error", Error)
            case GateDown(err) => ClassifyTerminalError(err)
            case ContextDone(deadline) => if deadline then ("timeout", Timeout) else ("cancelled", Event.Cancelled)
            case ApprovalTimeout => ("timeout", Timeout)
  {
    ApprovalTimeoutIsTimeout();
    RequestErrorHarmless(req);
    if o.Refused? {
      HarmlessIsError(o.msg);
    }
  }

  class Runtime {
    const provider: Provider
    const runner: ToolRunner
    const gate: ApprovalGate?
    const maxTurns: nat
    const codec: Codec

    constructor (provider: Provider, runner: ToolRunner, gate: ApprovalGate?, maxTurns: nat, codec: Codec)
      ensures this.provider == provider && this.runner == runner && this.gate == gate
      ensures this.maxTurns == maxTurns && this.codec == codec
    {
      this.provider, this.runner, this.gate, this.maxTurns, this.codec := provider, runner, gate, maxTurns, codec;
    }

    ghost predicate GateOk()
      reads gate
    {
      gate != null ==> gate.Valid()
    }

    ghost function Routed(): seq<Decision>
      reads gate
    {
      if gate == null then [] else gate.routed
    }

    /** The places of the decisions that no further call can get. */
    ghost function SpentPlaces(): set<nat>
      reads gate
    {
      if gate == null then {} else PlacesSpent(gate.Now())
    }

    /** The turns, the exchange or result, and the events are those of this move. */
    ghost predicate Played(req: RunRequest, fanout: Fanout?, was: Stream, sent: seq<Post>,
                           move: Move, turns: seq<ToolTurn>, end: TurnEnd)
      reads Frame(fanout)
    {
      match end
      case Continue(exchange) =>
        && Follows(move, turns, req) && exchange == ExchangesOf(turns)
        && Grew(fanout, was, sent + LogPosts(codec, req, turns))
      case Stop(result, err) =>
        && Stops(req, gate != null, move, turns, result, err)
        && Ended(fanout, was, sent + LogPosts(codec, req, turns) + Unfinished(codec, req, gate != null, move, turns),
                 Closing(codec, result, err, turns))
    }

    /** Announce the wait, and wait. */
    method Ask(req: RunRequest, call: ToolCall, fanout: Fanout?, ghost was: Stream, ghost sent: seq<Post>)
      returns (outcome: Outcome)
      requires GateOk() && gate != null && Grew(fanout, was, sent)
      modifies gate, Frame(fanout)
      ensures GateOk() && old(Routed()) <= Routed() && old(SpentPlaces()) <= SpentPlaces()
      ensures outcome.Got? ==>
                var p := outcome.decision.serial;
                && p < |Routed()| && Routed()[p] == outcome.decision
                && p !in old(SpentPlaces()) && p in SpentPlaces()
      ensures gate.Answers(|old(gate.calls)|, AskFor(codec, req, call), outcome)
      ensures outcome.Got? ==> outcome.decision in Routed() && Concerns(outcome.decision, req, call)
      ensures Grew(fanout, was, sent + [AskPost(codec, req, call)])
    {
      Notify(fanout, AskPost(codec, req, call), was, sent);
      ghost var s := gate.Now();
      outcome := gate.WaitDecision(AskFor(codec, req, call));
      SpentGrows(s, gate.Now());
      if outcome.Got? {
        assert Granted(gate.Now(), AskFor(codec, req, call), outcome.decision);
        RoutedIsValid(gate.Now(), outcome.decision);
      }
    }

    /** What the gate's answer makes of a write: it runs, it is reported as rejected, or the run fails. */
    ghost predicate Verdict(outcome: Outcome, resp: string, call: ToolCall, stop: Option<TurnEnd>, turns: seq<ToolTurn>) {
      match outcome
      case Got(d) =>
        if d.approved then stop == None
        else stop.Some? && turns == [ToolTurn(resp, call, None, Refusal(call, d.reason))]
      case _ => turns == [] && stop.Some? && GivenUp(outcome, stop.value)
    }

    /** A wait without a decision ends the run with its error. */
    ghost predicate GivenUp(outcome: Outcome, end: TurnEnd) {
      !outcome.Got? && end == Stop(FinalResult("", ClassifyTerminalError(WaitError(outcome)).0), Some(WaitError(outcome)))
    }

    method GiveUp(req: RunRequest, resp: string, call: ToolCall, outcome: Outcome, fanout: Fanout?,
                  ghost was: Stream, ghost sent: seq<Post>)
      returns (end: TurnEnd)
      requires !outcome.Got? && gate != null && call.isWrite && Grew(fanout, was, sent + Announced(codec, req, call))
      modifies Frame(fanout)
      ensures GivenUp(outcome, end) && Played(req, fanout, was, sent, Calls(resp, call), [], end)
    {
      var err := WaitError(outcome);
      var result := FailWithTerminalEvent(fanout, err, was, sent + Announced(codec, req, call));
      assert sent + [] == sent;
      end := Stop(result, Some(err));
    }

    /** A write without a gate ends the run. */
    method NoGate(req: RunRequest, resp: string, call: ToolCall, fanout: Fanout?, ghost was: Stream, ghost sent: seq<Post>)
      returns (end: TurnEnd)
      requires gate == null && call.isWrite && Grew(fanout, was, sent + [CallPost(codec, call)])
      modifies Frame(fanout)
      ensures Played(req, fanout, was, sent, Calls(resp, call), [], end)
    {
      var result := FailWithTerminalEvent(fanout, NoGateError, was, sent + [CallPost(codec, call)]);
      assert sent + [] + [CallPost(codec, call)] == sent + [CallPost(codec, call)];
      end := Stop(result, Some(NoGateError));
    }

    /** The approval step of a write that was announced: None means that it may run. */
    method Approve(req: RunRequest, resp: string, call: ToolCall, fanout: Fanout?, ghost was: Stream, ghost sent: seq<Post>)
      returns (stop: Option<TurnEnd>, ghost turns: seq<ToolTurn>, ghost outcome: Outcome)
      requires GateOk() && call.isWrite && Grew(fanout, was, sent + [CallPost(codec, call)])
      modifies gate, Frame(fanout)
      ensures GateOk() && old(Routed()) <= Routed() && old(SpentPlaces()) <= SpentPlaces()
      ensures gate != null ==>
                gate.Answers(|old(gate.calls)|, AskFor(codec, req, call), outcome) && Verdict(outcome, resp, call, stop, turns)
      ensures stop == None ==>
                && gate != null && outcome.Got? && AllowedBy(Permit(Routed(), outcome.decision.serial), req, call)
                && outcome.decision.serial !in old(SpentPlaces()) && outcome.decision.serial in SpentPlaces()
                && Grew(fanout, was, sent + Announced(codec, req, call))
      ensures stop.Some? ==>
                && Played(req, fanout, was, sent, Calls(resp, call), turns, stop.value)
                && RanOf(turns) == [] && forall t | t in turns :: Rightful(t, req, Routed(), old(SpentPlaces()), SpentPlaces())
    {
      turns := [];
      assert LogPosts(codec, req, []) == [];
      if gate == null {
        var end := NoGate(req, resp, call, fanout, was, sent);
        return Some(end), [], ApprovalTimeout;
      }
      var answer := Ask(req, call, fanout, was, sent + [CallPost(codec, call)]);
      outcome := answer;
      assert sent + [CallPost(codec, call)] + [AskPost(codec, req, call)] == sent + Announced(codec, req, call);
      stop, turns := Judge(req, resp, call, answer, fanout, was, sent);
    }

    /** What follows from the gate's answer. */
    method Judge(req: RunRequest, resp: string, call: ToolCall, answer: Outcome, fanout: Fanout?,
                 ghost was: Stream, ghost sent: seq<Post>)
      returns (stop: Option<TurnEnd>, ghost turns: seq<ToolTurn>)
      requires call.isWrite && gate != null && Grew(fanout, was, sent + Announced(codec, req, call))
      requires answer.Got? ==> answer.decision in Routed() && Concerns(answer.decision, req, call)
      modifies Frame(fanout)
      ensures Verdict(answer, resp, call, stop, turns)
      ensures stop == None ==> Grew(fanout, was, sent + Announced(codec, req, call))
      ensures stop.Some? ==> Played(req, fanout, was, sent, Calls(resp, call), turns, stop.value) && RanOf(turns) == []
      ensures forall t | t in turns :: t.ran == None && t.call == call && Denied(Routed(), req, t)
    {
      if !answer.Got? {
        var end := GiveUp(req, resp, call, answer, fanout, was, sent);
        return Some(end), [];
      }
      if answer.decision.approved {
        return None, [];
      }
      var end;
      end, turns := Reject(req, resp, call, answer.decision.reason, fanout, was, sent);
      assert turns[..0] == [] && Denied(Routed(), req, turns[0]);
      stop := Some(end);
    }

    /** A rejected call is reported as its result, and ends the run under the "fail" policy. */
    method Reject(req: RunRequest, resp: string, call: ToolCall, reason: string, fanout: Fanout?,
                  ghost was: Stream, ghost sent: seq<Post>)
      returns (end: TurnEnd, ghost turns: seq<ToolTurn>)
      requires call.isWrite && gate != null && Grew(fanout, was, sent + Announced(codec, req, call))
      modifies Frame(fanout)
      ensures end.Stop? <==> req.onApprovalReject == "fail"
      ensures turns == [ToolTurn(resp, call, None, Refusal(call, reason))]
      ensures Played(req, fanout, was, sent, Calls(resp, call), turns, end)
    {
      var res := ToolResult(call.id, call.name, false, "User rejected this operation: " + reason, reason);
      turns := [ToolTurn(resp, call, None, res)];
      TurnPosts(codec, req, sent, turns[0]);
      Notify(fanout, ResultPost(codec, res), was, sent + Announced(codec, req, call));
      if req.onApprovalReject == "fail" {
        NotifyTerminal(fanout, Post(Error, "approval rejected", ""), was, sent + LogPosts(codec, req, turns));
        end := Stop(FinalResult("", "rejected"), Some(RejectedError));
        assert sent + LogPosts(codec, req, turns) + [] == sent + LogPosts(codec, req, turns);
        return;
      }
      end := Continue([ChatMessage(Assistant, "", resp), ChatMessage(Tool, call.id, res.output)]);
    }

    /** Run the tool; a failed execution is reported like a failed result. */
    method RunTool(call: ToolCall, ghost permit: Permit, fanout: Fanout?, ghost was: Stream, ghost sent: seq<Post>)
      returns (res: ToolResult)
      requires Grew(fanout, was, sent)
      modifies runner, Frame(fanout)
      ensures runner.executions == old(runner.executions) + [Execution(call, permit, res)]
      ensures Grew(fanout, was, sent + [ResultPost(codec, res)])
    {
      var err;
      res, err := runner.Execute(call, permit);
      if err.Some? {
        res := ToolResult(call.id, call.name, false, err.value, err.value);
      }
      Notify(fanout, ResultPost(codec, res), was, sent);
    }

    /** Run a call that may run, as a turn. */
    method Perform(req: RunRequest, resp: string, call: ToolCall, ghost permit: Permit, fanout: Fanout?,
                   ghost was: Stream, ghost sent: seq<Post>)
      returns (end: TurnEnd, ghost turn: ToolTurn)
      requires Grew(fanout, was, sent + Announced(codec, req, call))
      modifies runner, Frame(fanout)
      ensures turn.ran == Some(permit) && turn.answer == resp && turn.call == call
      ensures runner.executions == old(runner.executions) + RanOf([turn])
      ensures Played(req, fanout, was, sent, Calls(resp, call), [turn], end)
    {
      var res := RunTool(call, permit, fanout, was, sent + Announced(codec, req, call));
      turn := ToolTurn(resp, call, Some(permit), res);
      end := Continue([ChatMessage(Assistant, "", resp), ChatMessage(Tool, call.id, res.output)]);
      PlayedTurn(req, fanout, was, sent, turn, end);
      assert [turn][..0] == [];
    }

    lemma PlayedTurn(req: RunRequest, fanout: Fanout?, was: Stream, sent: seq<Post>, turn: ToolTurn, end: TurnEnd)
      requires turn.ran.Some? && Grew(fanout, was, sent + Announced(codec, req, turn.call) + [ResultPost(codec, turn.result)])
      requires end == Continue([ChatMessage(Assistant, "", turn.answer), ChatMessage(Tool, turn.call.id, turn.result.output)])
      ensures Played(req, fanout, was, sent, Calls(turn.answer, turn.call), [turn], end)
    {
      TurnPosts(codec, req, sent, turn);
    }

    /** A tool call: announce it, get it approved if it writes, run it, report the result. */
    method CallTool(req: RunRequest, resp: string, call: ToolCall, fanout: Fanout?, ghost was: Stream, ghost sent: seq<Post>)
      returns (end: TurnEnd, ghost turns: seq<ToolTurn>)
      requires GateOk() && Grew(fanout, was, sent)
      modifies runner, gate, Frame(fanout)
      ensures GateOk() && old(Routed()) <= Routed() && old(SpentPlaces()) <= SpentPlaces()
      ensures runner.executions == old(runner.executions) + RanOf(turns)
      ensures forall t | t in turns :: Rightful(t, req, Routed(), old(SpentPlaces()), SpentPlaces())
      ensures Played(req, fanout, was, sent, Calls(resp, call), turns, end)
    {
      Notify(fanout, CallPost(codec, call), was, sent);
      if call.isWrite {
        end, turns := CallWrite(req, resp, call, fanout, was, sent);
      } else {
        end, turns := CallRead(req, resp, call, fanout, was, sent);
      }
    }

    /** A call that was announced and needs no approval. */
    method CallRead(req: RunRequest, resp: string, call: ToolCall, fanout: Fanout?, ghost was: Stream, ghost sent: seq<Post>)
      returns (end: TurnEnd, ghost turns: seq<ToolTurn>)
      requires !call.isWrite && Grew(fanout, was, sent + [CallPost(codec, call)])
      modifies runner, Frame(fanout)
      ensures runner.executions == old(runner.executions) + RanOf(turns)
      ensures forall t | t in turns :: Rightful(t, req, Routed(), SpentPlaces(), SpentPlaces())
      ensures Played(req, fanout, was, sent, Calls(resp, call), turns, end)
    {
      assert Announced(codec, req, call) == [CallPost(codec, call)];
      ghost var turn;
      end, turn := Perform(req, resp, call, Permit(Routed(), 0), fanout, was, sent);
      turns := [turn];
    }

    /** A write that was announced: it runs if the gate approves it. */
    method CallWrite(req: RunRequest, resp: string, call: ToolCall, fanout: Fanout?, ghost was: Stream, ghost sent: seq<Post>)
      returns (end: TurnEnd, ghost turns: seq<ToolTurn>)
      requires GateOk() && call.isWrite && Grew(fanout, was, sent + [CallPost(codec, call)])
      modifies runner, gate, Frame(fanout)
      ensures GateOk() && old(Routed()) <= Routed() && old(SpentPlaces()) <= SpentPlaces()
      ensures runner.executions == old(runner.executions) + RanOf(turns)
      ensures forall t | t in turns :: Rightful(t, req, Routed(), old(SpentPlaces()), SpentPlaces())
      ensures Played(req, fanout, was, sent, Calls(resp, call), turns, end)
    {
      ghost var spent := SpentPlaces();
      var stop; ghost var place;
      stop, turns, place := Clear(req, resp, call, fanout, was, sent);
      if stop.Some? {
        end := stop.value;
      } else {
        end, turns := PerformWrite(req, resp, call, place, spent, fanout, was, sent);
      }
    }

    /** What the call needs to know of its approval: the end it leads to, or the decision that allows it. */
    method Clear(req: RunRequest, resp: string, call: ToolCall, fanout: Fanout?, ghost was: Stream, ghost sent: seq<Post>)
      returns (stop: Option<TurnEnd>, ghost turns: seq<ToolTurn>, ghost place: nat)
      requires GateOk() && call.isWrite && Grew(fanout, was, sent + [CallPost(codec, call)])
      modifies gate, Frame(fanout)
      ensures GateOk() && old(Routed()) <= Routed() && old(SpentPlaces()) <= SpentPlaces()
      ensures stop == None ==>
                && AllowedBy(Permit(Routed(), place), req, call) && place !in old(SpentPlaces()) && place in SpentPlaces()
                && Grew(fanout, was, sent + Announced(codec, req, call))
      ensures stop.Some? ==> Played(req, fanout, was, sent, Calls(resp, call), turns, stop.value)
      ensures stop.Some? ==>
                RanOf(turns) == [] && forall t | t in turns :: Rightful(t, req, Routed(), old(SpentPlaces()), SpentPlaces())
    {
      ghost var outcome;
      stop, turns, outcome := Approve(req, resp, call, fanout, was, sent);
      place := if stop == None then outcome.decision.serial else 0;
    }

    /** A write that was approved, by a decision that was not spent before. */
    method PerformWrite(req: RunRequest, resp: string, call: ToolCall, ghost place: nat, ghost spent: set<nat>,
                        fanout: Fanout?, ghost was: Stream, ghost sent: seq<Post>)
      returns (end: TurnEnd, ghost turns: seq<ToolTurn>)
      requires AllowedBy(Permit(Routed(), place), req, call) && place !in spent && place in SpentPlaces()
      requires Grew(fanout, was, sent + Announced(codec, req, call))
      modifies runner, Frame(fanout)
      ensures runner.executions == old(runner.executions) + RanOf(turns)
      ensures forall t | t in turns :: Rightful(t, req, Routed(), spent, SpentPlaces())
      ensures Played(req, fanout, was, sent, Calls(resp, call), turns, end)
    {
      ghost var turn;
      end, turn := Perform(req, resp, call, Permit(Routed(), place), fanout, was, sent);
      turns := [turn];
    }

    /** One pass of the loop. */
    method Turn(req: RunRequest, messages: seq<ChatMessage>, fanout: Fanout?, ghost was: Stream, ghost sent: seq<Post>)
      returns (end: TurnEnd, ghost reply: Reply, ghost turns: seq<ToolTurn>)
      requires GateOk() && Grew(fanout, was, sent)
      modifies provider, runner, gate, Frame(fanout)
      ensures GateOk() && old(Routed()) <= Routed() && old(SpentPlaces()) <= SpentPlaces()
      ensures provider.prompts == old(provider.prompts) + [messages] && provider.replies == old(provider.replies) + [reply]
      ensures runner.executions == old(runner.executions) + RanOf(turns)
      ensures forall t | t in turns :: Rightful(t, req, Routed(), old(SpentPlaces()), SpentPlaces())
      ensures Played(req, fanout, was, sent, MoveOf(codec, reply), turns, end)
    {
      if gate != null {
        ghost var s := gate.Now();
        gate.Interfere(|gate.calls|, s);
        SpentGrows(s, gate.Now());
      }
      var resp := provider.Predict(messages);
      reply := resp;
      end, turns := Play(req, resp, fanout, was, sent);
    }

    /** What the loop does with a reply. */
    method Play(req: RunRequest, resp: Reply, fanout: Fanout?, ghost was: Stream, ghost sent: seq<Post>)
      returns (end: TurnEnd, ghost turns: seq<ToolTurn>)
      requires GateOk() && Grew(fanout, was, sent)
      modifies runner, gate, Frame(fanout)
      ensures GateOk() && old(Routed()) <= Routed() && old(SpentPlaces()) <= SpentPlaces()
      ensures runner.executions == old(runner.executions) + RanOf(turns)
      ensures forall t | t in turns :: Rightful(t, req, Routed(), old(SpentPlaces()), SpentPlaces())
      ensures Played(req, fanout, was, sent, MoveOf(codec, resp), turns, end)
    {
      if resp.ProviderFailed? {
        end, turns := Fail(req, resp.err, fanout, was, sent);
        return;
      }
      var action := codec.parse(resp.text);
      if action.BadOutput? {
        end, turns := Fail(req, action.err, fanout, was, sent);
        return;
      }
      if action.final != "" {
        end, turns := Finish(req, action.final, fanout, was, sent);
        return;
      }
      if action.callSkill.Some? {
        end, turns := CallTool(req, resp.text, action.callSkill.value, fanout, was, sent);
        return;
      }
      assert sent + [] == sent;
      return Continue([]), [];
    }

    method Fail(req: RunRequest, err: RunError, fanout: Fanout?, ghost was: Stream, ghost sent: seq<Post>)
      returns (end: TurnEnd, ghost turns: seq<ToolTurn>)
      requires Grew(fanout, was, sent)
      modifies Frame(fanout)
      ensures end.Stop? && turns == [] && Played(req, fanout, was, sent, Breaks(err), turns, end)
    {
      turns := [];
      var result := FailWithTerminalEvent(fanout, err, was, sent);
      end := Stop(result, Some(err));
      assert sent + [] + [] == sent;
    }

    /** The final answer is published as the closing chunk. */
    method Finish(req: RunRequest, content: string, fanout: Fanout?, ghost was: Stream, ghost sent: seq<Post>)
      returns (end: TurnEnd, ghost turns: seq<ToolTurn>)
      requires Grew(fanout, was, sent)
      modifies Frame(fanout)
      ensures end.Stop? && turns == [] && Played(req, fanout, was, sent, Finishes(content), turns, end)
    {
      turns := [];
      NotifyTerminal(fanout, Post(Final, "", codec.finalData(content)), was, sent);
      end := Stop(FinalResult(content, "success"), None);
      assert sent + [] + [] == sent;
    }

    /** Since the run began, this was said and these turns were run, each rightfully. */
    ghost predicate Recorded(req: RunRequest, start: Start, replies: seq<Reply>, prompts: seq<seq<ChatMessage>>, turns: seq<ToolTurn>)
      reads provider, runner, gate
    {
      && provider.prompts == start.prompts + prompts && provider.replies == start.replies + replies
      && runner.executions == start.executions + RanOf(turns)
      && AllRightful(turns, req, Routed(), start.spent, SpentPlaces())
    }

    /** Where the run stands before a turn: its log so far accounts for everything that happened. */
    ghost predicate Underway(req: RunRequest, fanout: Fanout?, start: Start, story: Story, messages: seq<ChatMessage>)
      reads provider, runner, gate, Frame(fanout)
    {
      && story.rejected == [] && story.unfinished == [] && |story.prompts| == |story.replies|
      && Told(codec, req, story.replies, story.prompts, story.log) && messages == Transcript(req, story.log)
      && Recorded(req, start, story.replies, story.prompts, story.log)
      && Grew(fanout, start.stream, LogPosts(codec, req, story.log))
    }

    /** The run is over, and it is this story. */
    ghost predicate Over(req: RunRequest, fanout: Fanout?, start: Start, story: Story, result: FinalResult, err: Option<RunError>)
      reads provider, runner, gate, Frame(fanout)
    {
      && Tells(story, codec, req, gate != null, maxTurns, result, err)
      && Recorded(req, start, story.replies, story.prompts, story.log + story.rejected)
      && (fanout != null ==> fanout.Value() == StoryStream(start.stream, story, codec, req, result, err))
    }

    /**
      The whole run is a story: the model was shown and answered exactly its conversation,
      exactly its turns that ran were executed, with no write that was not allowed beforehand,
      and its events were published, from whatever state the fanout was in.
     */
    method Run(req: RunRequest, fanout: Fanout?)
      returns (result: FinalResult, err: Option<RunError>, ghost story: Story)
      requires GateOk()
      modifies provider, runner, gate, Frame(fanout)
      ensures GateOk()
      ensures Tells(story, codec, req, gate != null, maxTurns, result, err)
      ensures provider.prompts == old(provider.prompts) + story.prompts
      ensures provider.replies == old(provider.replies) + story.replies
      ensures runner.executions == old(runner.executions) + RanOf(story.log + story.rejected)
      ensures AllRightful(story.log + story.rejected, req, Routed(), old(SpentPlaces()), SpentPlaces())
      ensures fanout != null ==>
                fanout.Value() == StoryStream(old(fanout.Value()), story, codec, req, result, err)
      ensures fanout != null && old(fanout.Value()) == Stream(fanout.taskID, 0, false, []) ==>
                IsRun(fanout.Value(), story.log + story.rejected) && Agrees(LastEvent(fanout.Value()), result, err.Some?)
    {
      ghost var start := Start(if fanout == null then Stream("", 0, false, []) else fanout.Value(),
                               runner.executions, provider.prompts, provider.replies, SpentPlaces());
      assert req.messages + [] == req.messages;
      result, err, story := Loop(req, fanout, start);
      if fanout != null {
        StoryIsAWord(fanout.taskID, story, codec, req, gate != null, maxTurns, result, err);
      }
    }

    /** The loop of Run. */
    method Loop(req: RunRequest, fanout: Fanout?, ghost start: Start)
      returns (result: FinalResult, err: Option<RunError>, ghost story: Story)
      requires GateOk() && Underway(req, fanout, start, Story([], [], [], [], []), req.messages)
      modifies provider, runner, gate, Frame(fanout)
      ensures GateOk() && Over(req, fanout, start, story, result, err)
    {
      var messages := req.messages;
      story := Story([], [], [], [], []);
      for turn := 0 to maxTurns
        invariant GateOk() && |story.replies| == turn && Underway(req, fanout, start, story, messages)
      {
        var end;
        end, story := Pass(req, messages, fanout, start, story);
        if end.Stop? {
          return end.result, end.err, story;
        }
        messages := messages + end.exchange;
      }
      result, err := OutOfTurns(req, messages, fanout, start, story);
    }

    method OutOfTurns(req: RunRequest, ghost messages: seq<ChatMessage>, fanout: Fanout?, ghost start: Start, ghost story: Story)
      returns (result: FinalResult, err: Option<RunError>)
      requires Underway(req, fanout, start, story, messages) && |story.replies| == maxTurns
      modifies Frame(fanout)
      ensures Over(req, fanout, start, story, result, err)
    {
      err := Some(MaxTurnsError);
      result := FailWithTerminalEvent(fanout, MaxTurnsError, start.stream, LogPosts(codec, req, story.log));
      assert story.log + [] == story.log;
      assert LogPosts(codec, req, story.log) + [] == LogPosts(codec, req, story.log);
    }

    /** One turn, recorded. */
    method RecordedTurn(req: RunRequest, messages: seq<ChatMessage>, fanout: Fanout?, ghost start: Start,
                        ghost replies: seq<Reply>, ghost prompts: seq<seq<ChatMessage>>, ghost log: seq<ToolTurn>)
      returns (end: TurnEnd, ghost reply: Reply, ghost turns: seq<ToolTurn>)
      requires GateOk() && Recorded(req, start, replies, prompts, log)
      requires Grew(fanout, start.stream, LogPosts(codec, req, log))
      modifies provider, runner, gate, Frame(fanout)
      ensures GateOk() && |turns| <= 1
      ensures Recorded(req, start, replies + [reply], prompts + [messages], log + turns)
      ensures Played(req, fanout, start.stream, LogPosts(codec, req, log), MoveOf(codec, reply), turns, end)
    {
      ghost var routed, spent := Routed(), SpentPlaces();
      end, reply, turns := Turn(req, messages, fanout, start.stream, LogPosts(codec, req, log));
      RightfulTurns(log, turns, req, routed, Routed(), start.spent, spent, SpentPlaces());
      RanOfOne(log, turns);
      assert start.prompts + prompts + [messages] == start.prompts + (prompts + [messages]);
      assert start.replies + replies + [reply] == start.replies + (replies + [reply]);
    }

    /** One turn, told. */
    method Pass(req: RunRequest, messages: seq<ChatMessage>, fanout: Fanout?, ghost start: Start, ghost story: Story)
      returns (end: TurnEnd, ghost story': Story)
      requires GateOk() && Underway(req, fanout, start, story, messages) && |story.replies| < maxTurns
      modifies provider, runner, gate, Frame(fanout)
      ensures GateOk()
      ensures end.Continue? ==>
                |story'.replies| == |story.replies| + 1 && Underway(req, fanout, start, story', messages + end.exchange)
      ensures end.Stop? ==> Over(req, fanout, start, story', end.result, end.err)
    {
      ghost var reply; ghost var turns;
      end, reply, turns := RecordedTurn(req, messages, fanout, start, story.replies, story.prompts, story.log);
      ghost var replies, prompts := story.replies + [reply], story.prompts + [messages];
      LogPostsOne(codec, req, story.log, turns);
      match end
      case Continue(exchange) =>
        story' := Story(replies, prompts, story.log + turns, [], []);
        ToldSnoc(codec, req, story.replies, story.prompts, story.log, reply, turns);
        TranscriptOne(req, story.log, turns);
      case Stop(result, err) =>
        story' := Story(replies, prompts, story.log, turns, Unfinished(codec, req, gate != null, MoveOf(codec, reply), turns));
        TellsEnd(codec, req, gate != null, maxTurns, story.replies, story.prompts, story.log, reply, turns, result, err);
    }
  }

  /** What was recorded when a run began. */
  datatype Start = Start(stream: Stream, executions: seq<Execution>, prompts: seq<seq<ChatMessage>>, replies: seq<Reply>,
                         spent: set<nat>)

  /** The announcement and the result of a turn, in one piece. */
  lemma TurnPosts(codec: Codec, req: RunRequest, sent: seq<Post>, t: ToolTurn)
    ensures sent + Announced(codec, req, t.call) + [ResultPost(codec, t.result)] == sent + LogPosts(codec, req, [t])
    ensures ExchangesOf([t]) == [ChatMessage(Assistant, "", t.answer), ChatMessage(Tool, t.call.id, t.result.output)]
  {
    assert [t][..0] == [];
    assert LogPosts(codec, req, [t]) == [] + (Announced(codec, req, t.call) + [ResultPost(codec, t.result)]);
  }
}
