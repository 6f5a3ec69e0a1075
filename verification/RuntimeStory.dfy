/**
  What a run of the agent loop amounts to, on values: which move each answer of the model is,
  which tool turns the run consists of, what they publish, execute and feed back, and how the
  run ends. `RuntimeLoop` proves that the loop of internal/llm/runtime_loop.go tells such a story.
 */
module RuntimeStory {
  import opened Options
  import opened Sequences
  import opened Approval
  import opened Fanouts
  import opened TaskStatuses
  import opened ApprovalSystem

  datatype ToolCall = ToolCall(id: string, name: string, arguments: string, isWrite: bool)

  datatype ToolResult = ToolResult(toolCallID: string, name: string, success: bool, output: string, error: string)

  datatype Role = User | System | Assistant | Tool

  datatype ChatMessage = ChatMessage(role: Role, toolCallID: string, content: string)

  datatype RunRequest = RunRequest(traceID: string, taskID: string, messages: seq<ChatMessage>, onApprovalReject: string)

  /** What ParseModelOutput makes of an answer. */
  datatype Parsed = Action(final: string, callSkill: Option<ToolCall>) | BadOutput(err: RunError)

  datatype Reply = Answer(text: string) | ProviderFailed(err: RunError)

  /** JSON: decoding of the model's answers, encoding of what chunks carry. */
  datatype Codec = Codec(parse: string -> Parsed, validJson: string -> bool,
                         callData: ToolCall -> string, askData: (Request, string) -> string,
                         resultData: ToolResult -> string, finalData: string -> string)

  /** What one reply of the model makes the loop do. */
  datatype Move = Breaks(err: RunError) | Finishes(content: string) | Calls(answer: string, call: ToolCall) | Thinks

  function MoveOf(codec: Codec, reply: Reply): Move {
    match reply
    case ProviderFailed(err) => Breaks(err)
    case Answer(text) =>
      match codec.parse(text)
      case BadOutput(err) => Breaks(err)
      case Action(final, callSkill) =>
        if final != "" then Finishes(final)
        else if callSkill.Some? then Calls(text, callSkill.value) else Thinks
  }

  /**
    What a tool was run upon: the decisions routed to the gate before it started, and, for a
    write, the place among them of the decision that allowed it.
   */
  datatype Permit = Permit(routed: seq<Decision>, place: nat)

  /** A finished tool call: the answer that asked for it, the permit if it ran, and what came of it. */
  datatype ToolTurn = ToolTurn(answer: string, call: ToolCall, ran: Option<Permit>, result: ToolResult)

  function Refusal(call: ToolCall, reason: string): ToolResult {
    ToolResult(call.id, call.name, false, "User rejected this operation: " + reason, reason)
  }

  const MaxTurnsError := RunError("exceeded max turns", false, false)
  const NoGateError := RunError("approval gate required" + " for write operation", false, false)
  const RejectedError := RunError("approval rejected", false, false)

  // ------------------------------------------------------------- permissions

  datatype Execution = Execution(call: ToolCall, permit: Permit, result: ToolResult)

  /** The executions of a list of turns, with the results that are reported. */
  function RanOf(log: seq<ToolTurn>): seq<Execution> {
    if log == [] then []
    else
      var t := log[|log| - 1];
      RanOf(log[..|log| - 1]) + (if t.ran.Some? then [Execution(t.call, t.ran.value, t.result)] else [])
  }

  /** The decision is about this call of this request. */
  predicate Concerns(d: Decision, req: RunRequest, call: ToolCall) {
    ValidDecision(d) && KeyOf(d) == ApprovalKey(req.taskID, call.id) && TraceMatches(req.traceID, d.traceID)
  }

  predicate AllowedBy(p: Permit, req: RunRequest, call: ToolCall) {
    p.place < |p.routed| && p.routed[p.place].approved && Concerns(p.routed[p.place], req, call)
  }

  /** The turn reports a rejection that was routed to the gate. */
  ghost predicate Denied(routed: seq<Decision>, req: RunRequest, t: ToolTurn) {
    exists d :: d in routed && !d.approved && Concerns(d, req, t.call) && t.result == Refusal(t.call, d.reason)
  }

  predicate RanAsWrite(t: ToolTurn) {
    t.ran.Some? && t.call.isWrite
  }

  /**
    A write that ran was allowed before it started, by a decision that was not spent before and
    is spent afterwards; what did not run is a write that was denied.
   */
  ghost predicate Rightful(t: ToolTurn, req: RunRequest, routed: seq<Decision>, spent: set<nat>, spent': set<nat>) {
    && (RanAsWrite(t) ==> AllowedBy(t.ran.value, req, t.call) && t.ran.value.place !in spent && t.ran.value.place in spent')
    && (t.ran == None ==> t.call.isWrite && Denied(routed, req, t))
  }

  /** Every turn is rightful, and no two writes were allowed by the same decision. */
  ghost predicate AllRightful(log: seq<ToolTurn>, req: RunRequest, routed: seq<Decision>, spent: set<nat>, spent': set<nat>) {
    && spent <= spent'
    && (forall t | t in log :: Rightful(t, req, routed, spent, spent'))
    && (forall i, j :: 0 <= i < j < |log| && RanAsWrite(log[i]) && RanAsWrite(log[j]) ==>
          log[i].ran.value.place != log[j].ran.value.place)
  }

  lemma RightfulLater(t: ToolTurn, req: RunRequest, r1: seq<Decision>, s0: set<nat>, s1: set<nat>,
                      r2: seq<Decision>, s2: set<nat>)
    requires Rightful(t, req, r1, s0, s1) && r1 <= r2 && s1 <= s2
    ensures Rightful(t, req, r2, s0, s2)
  {
    assert forall d | d in r1 :: d in r2;
  }

  /** One more turn, whose decision was not spent after the turns before it. */
  lemma OneMoreRightful(log: seq<ToolTurn>, t: ToolTurn, req: RunRequest, r1: seq<Decision>, r2: seq<Decision>,
                        s0: set<nat>, s1: set<nat>, s2: set<nat>)
    requires AllRightful(log, req, r1, s0, s1) && r1 <= r2 && s1 <= s2 && Rightful(t, req, r2, s1, s2)
    ensures AllRightful(log + [t], req, r2, s0, s2)
  {
    forall u | u in log {
      RightfulLater(u, req, r1, s0, s1, r2, s2);
    }
    assert forall i | 0 <= i < |log| :: log[i] in log;
  }

  lemma AllRightfulLater(log: seq<ToolTurn>, req: RunRequest, r1: seq<Decision>, r2: seq<Decision>,
                         s0: set<nat>, s1: set<nat>, s2: set<nat>)
    requires AllRightful(log, req, r1, s0, s1) && r1 <= r2 && s1 <= s2
    ensures AllRightful(log, req, r2, s0, s2)
  {
    forall u | u in log {
      RightfulLater(u, req, r1, s0, s1, r2, s2);
    }
  }

  lemma RightfulTurns(log: seq<ToolTurn>, turns: seq<ToolTurn>, req: RunRequest, r1: seq<Decision>, r2: seq<Decision>,
                      s0: set<nat>, s1: set<nat>, s2: set<nat>)
    requires AllRightful(log, req, r1, s0, s1) && r1 <= r2 && s1 <= s2
    requires |turns| <= 1 && forall t | t in turns :: Rightful(t, req, r2, s1, s2)
    ensures AllRightful(log + turns, req, r2, s0, s2)
  {
    if turns == [] {
      assert log + turns == log;
      AllRightfulLater(log, req, r1, r2, s0, s1, s2);
    } else {
      assert turns == [turns[0]];
      OneMoreRightful(log, turns[0], req, r1, r2, s0, s1, s2);
    }
  }

  lemma RanOfOne(log: seq<ToolTurn>, turns: seq<ToolTurn>)
    requires |turns| <= 1
    ensures RanOf(log + turns) == RanOf(log) + RanOf(turns)
  {
    if turns == [] {
      assert log + turns == log;
    } else {
      assert (log + turns)[..|log|] == log && turns[..0] == [];
    }
  }

  predicate NamesCall(d: Decision, req: RunRequest, call: ToolCall) {
    d.taskID == req.taskID && d.toolCallID == call.id
  }

  /**
    Whatever allows a call names this very task and call, if and only if the only inner colon
    of the call's key is the separator; colons elsewhere, in any other ID, do not matter.
   */
  lemma AllowedNamesCall(req: RunRequest, call: ToolCall)
    requires req.taskID != "" && call.id != ""
    ensures (forall p | AllowedBy(p, req, call) :: NamesCall(p.routed[p.place], req, call))
       <==> (forall p: nat :: CutAt(ApprovalKey(req.taskID, call.id), p) ==> p == |req.taskID|)
  {
    KeyUnambiguous(req.taskID, call.id);
    if forall p | AllowedBy(p, req, call) :: NamesCall(p.routed[p.place], req, call) {
      forall t, c | t != "" && c != "" && ApprovalKey(t, c) == ApprovalKey(req.taskID, call.id)
        ensures t == req.taskID && c == call.id
      {
        var p := Permit([Decision("", t, c, true, "", 1, 0)], 0);
        assert AllowedBy(p, req, call);
      }
    }
  }

  // --------------------------------------------------------------- transcript

  /** What a turn adds to the transcript: the model's answer, and the output fed back. */
  function ExchangesOf(log: seq<ToolTurn>): seq<ChatMessage> {
    if log == [] then []
    else
      var t := log[|log| - 1];
      ExchangesOf(log[..|log| - 1])
      + [ChatMessage(Assistant, "", t.answer), ChatMessage(Tool, t.call.id, t.result.output)]
  }

  function Transcript(req: RunRequest, log: seq<ToolTurn>): seq<ChatMessage> {
    req.messages + ExchangesOf(log)
  }

  /** The turns a move leads to when the run goes on after it. */
  ghost predicate Follows(move: Move, turns: seq<ToolTurn>, req: RunRequest) {
    match move
    case Thinks => turns == []
    case Calls(answer, call) =>
      && |turns| == 1 && turns[0].answer == answer && turns[0].call == call
      && (turns[0].ran == None ==> req.onApprovalReject != "fail")
    case _ => false
  }

  /**
    The model was shown `prompts` and gave `replies`, the run went on each time, and `log` is
    what it did: each prompt is the request and the exchanges of the turns before it.
   */
  ghost predicate Told(codec: Codec, req: RunRequest, replies: seq<Reply>, prompts: seq<seq<ChatMessage>>, log: seq<ToolTurn>)
    decreases |replies|
  {
    if replies == [] then prompts == [] && log == []
    else
      var n, move := |replies| - 1, MoveOf(codec, replies[|replies| - 1]);
      var k := if move.Calls? then |log| - 1 else |log|;
      && k >= 0 && |prompts| == n + 1
      && Told(codec, req, replies[..n], prompts[..n], log[..k])
      && prompts[n] == Transcript(req, log[..k])
      && Follows(move, log[k..], req)
  }

  lemma ToldSnoc(codec: Codec, req: RunRequest, replies: seq<Reply>, prompts: seq<seq<ChatMessage>>, log: seq<ToolTurn>,
                 reply: Reply, turns: seq<ToolTurn>)
    requires Told(codec, req, replies, prompts, log) && |prompts| == |replies| && Follows(MoveOf(codec, reply), turns, req)
    ensures Told(codec, req, replies + [reply], prompts + [Transcript(req, log)], log + turns)
  {
    assert (replies + [reply])[..|replies|] == replies;
    assert (prompts + [Transcript(req, log)])[..|replies|] == prompts;
    assert (log + turns)[..|log|] == log && (log + turns)[|log|..] == turns;
  }

  lemma ExchangesOne(log: seq<ToolTurn>, turns: seq<ToolTurn>)
    requires |turns| <= 1
    ensures ExchangesOf(log + turns) == ExchangesOf(log) + ExchangesOf(turns)
  {
    if turns == [] {
      assert log + turns == log;
    } else {
      assert (log + turns)[..|log|] == log && turns[..0] == [];
    }
  }

  lemma TranscriptOne(req: RunRequest, log: seq<ToolTurn>, turns: seq<ToolTurn>)
    requires |turns| <= 1
    ensures Transcript(req, log + turns) == Transcript(req, log) + ExchangesOf(turns)
  {
    ExchangesOne(log, turns);
    Regroup(req.messages, ExchangesOf(log), ExchangesOf(turns));
  }

  /** Two messages for each turn. */
  lemma {:induction false} ExchangesLength(log: seq<ToolTurn>)
    ensures |ExchangesOf(log)| == 2 * |log|
  {
    if log != [] {
      ExchangesLength(log[..|log| - 1]);
    }
  }

  /** At most one turn for each reply. */
  lemma {:induction false} ToldLengths(codec: Codec, req: RunRequest, replies: seq<Reply>, prompts: seq<seq<ChatMessage>>,
                                       log: seq<ToolTurn>)
    requires Told(codec, req, replies, prompts, log)
    ensures |log| <= |replies| == |prompts|
    decreases |replies|
  {
    if replies != [] {
      var n, move := |replies| - 1, MoveOf(codec, replies[|replies| - 1]);
      var k := if move.Calls? then |log| - 1 else |log|;
      ToldLengths(codec, req, replies[..n], prompts[..n], log[..k]);
    }
  }

  /** The model asked for the call of the turn. */
  predicate AskedFor(codec: Codec, t: ToolTurn, replies: seq<Reply>) {
    Answer(t.answer) in replies && codec.parse(t.answer) == Action("", Some(t.call))
  }

  /** Every turn is a call the model asked for; under the "fail" policy it ran. */
  lemma {:induction false} ToldAsked(codec: Codec, req: RunRequest, replies: seq<Reply>, prompts: seq<seq<ChatMessage>>,
                                     log: seq<ToolTurn>)
    requires Told(codec, req, replies, prompts, log)
    ensures forall t | t in log :: AskedFor(codec, t, replies) && (req.onApprovalReject == "fail" ==> t.ran.Some?)
    decreases |replies|
  {
    if replies != [] {
      var n, move := |replies| - 1, MoveOf(codec, replies[|replies| - 1]);
      var k := if move.Calls? then |log| - 1 else |log|;
      ToldAsked(codec, req, replies[..n], prompts[..n], log[..k]);
      CallsAnswer(codec, replies[n]);
      assert log == log[..k] + log[k..];
    }
  }

  lemma CallsAnswer(codec: Codec, reply: Reply)
    ensures MoveOf(codec, reply).Calls? ==> reply == Answer(MoveOf(codec, reply).answer)
  {
  }

  /** The prompt is the request and the exchanges of some first turns of `log`. */
  ghost predicate Shown(prompt: seq<ChatMessage>, req: RunRequest, log: seq<ToolTurn>) {
    exists k :: 0 <= k <= |log| && prompt == Transcript(req, log[..k])
  }

  lemma ShownLonger(prompt: seq<ChatMessage>, req: RunRequest, log: seq<ToolTurn>, k: nat)
    requires k <= |log| && Shown(prompt, req, log[..k])
    ensures Shown(prompt, req, log)
  {
    var i :| 0 <= i <= k && prompt == Transcript(req, log[..k][..i]);
    assert log[..k][..i] == log[..i];
  }

  lemma {:induction false} ToldShown(codec: Codec, req: RunRequest, replies: seq<Reply>, prompts: seq<seq<ChatMessage>>,
                                     log: seq<ToolTurn>)
    requires Told(codec, req, replies, prompts, log)
    ensures forall p | p in prompts :: Shown(p, req, log)
    decreases |replies|
  {
    if replies != [] {
      var n, move := |replies| - 1, MoveOf(codec, replies[|replies| - 1]);
      var k := if move.Calls? then |log| - 1 else |log|;
      ToldShown(codec, req, replies[..n], prompts[..n], log[..k]);
      assert prompts == prompts[..n] + [prompts[n]];
      forall p | p in prompts
        ensures Shown(p, req, log)
      {
        if p in prompts[..n] {
          ShownLonger(p, req, log, k);
        }
      }
    }
  }

  // ----------------------------------------------------------- what is published

  /** A chunk without its number. */
  datatype Post = Post(event: Event, error: string, data: string)

  function AskFor(codec: Codec, req: RunRequest, call: ToolCall): Request {
    Request(req.traceID, req.taskID, call.id, call.name, call.arguments == "" || codec.validJson(call.arguments))
  }

  function CallPost(codec: Codec, call: ToolCall): Post {
    Post(ToolCalled, "", codec.callData(call))
  }

  function AskPost(codec: Codec, req: RunRequest, call: ToolCall): Post {
    Post(WaitingApproval, "", codec.askData(AskFor(codec, req, call), call.arguments))
  }

  /** What is published before the result of a call; a write announces that it waits. */
  function Announced(codec: Codec, req: RunRequest, call: ToolCall): seq<Post> {
    [CallPost(codec, call)] + (if call.isWrite then [AskPost(codec, req, call)] else [])
  }

  function ResultPost(codec: Codec, result: ToolResult): Post {
    Post(ToolResulted, if !result.success && result.error != "" then result.error else "", codec.resultData(result))
  }

  function LogPosts(codec: Codec, req: RunRequest, log: seq<ToolTurn>): seq<Post> {
    if log == [] then []
    else
      var t := log[|log| - 1];
      LogPosts(codec, req, log[..|log| - 1]) + (Announced(codec, req, t.call) + [ResultPost(codec, t.result)])
  }

  lemma LogPostsOne(codec: Codec, req: RunRequest, log: seq<ToolTurn>, turns: seq<ToolTurn>)
    requires |turns| <= 1
    ensures LogPosts(codec, req, log + turns) == LogPosts(codec, req, log) + LogPosts(codec, req, turns)
    ensures turns != [] ==> LogPosts(codec, req, turns) == Announced(codec, req, turns[0].call) + [ResultPost(codec, turns[0].result)]
  {
    if turns == [] {
      assert log + turns == log;
    } else {
      assert (log + turns)[..|log|] == log && turns[..0] == [];
    }
  }

  /** Ordinary chunks, one after the other. */
  function PushAll(s: Stream, posts: seq<Post>): Stream {
    if posts == [] then s
    else
      var p := posts[|posts| - 1];
      Push(PushAll(s, posts[..|posts| - 1]), p.event, "", p.error, p.data)
  }

  lemma PushAllSnoc(s: Stream, posts: seq<Post>, p: Post)
    ensures PushAll(s, posts + [p]) == Push(PushAll(s, posts), p.event, "", p.error, p.data)
  {
    assert (posts + [p])[..|posts|] == posts;
  }

  /** Ordinary chunks and then the terminal one. */
  function PushEnding(s: Stream, posts: seq<Post>, last: Post): Stream {
    PushTerminal(PushAll(s, posts), last.event, last.error, last.data)
  }

  /** The terminal chunk: the answer, or the error; a rejection counts as an error. */
  function Closing(codec: Codec, result: FinalResult, err: Option<RunError>, rejected: seq<ToolTurn>): Post {
    if err == None then Post(Final, "", codec.finalData(result.content))
    else Post(if rejected == [] then ClassifyTerminalError(err.value).1 else Error, err.value.msg, "")
  }

  // ---------------------------------------------------------------- endings

  /**
    The move ends the run, with this result. A call does so when its write was not decided in
    time (or there is no gate), or when it was rejected under the "fail" policy; only then
    there is a turn left, which is published but not fed back.
   */
  ghost predicate Stops(req: RunRequest, gated: bool, move: Move, rejected: seq<ToolTurn>, result: FinalResult, err: Option<RunError>) {
    match move
    case Thinks => false
    case Finishes(content) => rejected == [] && err == None && result == FinalResult(content, "success")
    case Breaks(e) => rejected == [] && Failed(e, result, err)
    case Calls(answer, call) =>
      && call.isWrite && err.Some?
      && if rejected == [] then Failed(err.value, result, err) && (!gated ==> err == Some(NoGateError))
         else
           && gated && |rejected| == 1 && rejected[0].answer == answer && rejected[0].call == call && rejected[0].ran == None
           && req.onApprovalReject == "fail" && err == Some(RejectedError) && result == FinalResult("", "rejected")
  }

  predicate Failed(e: RunError, result: FinalResult, err: Option<RunError>) {
    err == Some(e) && result == FinalResult("", ClassifyTerminalError(e).0)
  }

  /** What a call published that ended the run without a result. */
  function Unfinished(codec: Codec, req: RunRequest, gated: bool, move: Move, rejected: seq<ToolTurn>): seq<Post> {
    if !move.Calls? || rejected != [] then []
    else if gated then Announced(codec, req, move.call) else [CallPost(codec, move.call)]
  }

  /** A run: the conversation, the turns fed back, the rejected last one, and an unfinished call. */
  datatype Story = Story(replies: seq<Reply>, prompts: seq<seq<ChatMessage>>,
                         log: seq<ToolTurn>, rejected: seq<ToolTurn>, unfinished: seq<Post>)

  /** All turns were used up, or the last reply ended the run. */
  ghost predicate Tells(story: Story, codec: Codec, req: RunRequest, gated: bool, maxTurns: nat,
                        result: FinalResult, err: Option<RunError>) {
    || (&& Told(codec, req, story.replies, story.prompts, story.log) && |story.replies| == maxTurns
        && story.rejected == [] && story.unfinished == [] && Failed(MaxTurnsError, result, err))
    || (&& 0 < |story.replies| == |story.prompts| <= maxTurns
        && var n, move := |story.replies| - 1, MoveOf(codec, story.replies[|story.replies| - 1]);
        && Told(codec, req, story.replies[..n], story.prompts[..n], story.log)
        && story.prompts[n] == Transcript(req, story.log)
        && Stops(req, gated, move, story.rejected, result, err)
        && story.unfinished == Unfinished(codec, req, gated, move, story.rejected))
  }

  lemma TellsEnd(codec: Codec, req: RunRequest, gated: bool, maxTurns: nat, replies: seq<Reply>, prompts: seq<seq<ChatMessage>>,
                 log: seq<ToolTurn>, reply: Reply, rejected: seq<ToolTurn>, result: FinalResult, err: Option<RunError>)
    requires Told(codec, req, replies, prompts, log) && |prompts| == |replies| < maxTurns
    requires Stops(req, gated, MoveOf(codec, reply), rejected, result, err)
    ensures Tells(Story(replies + [reply], prompts + [Transcript(req, log)], log, rejected,
                        Unfinished(codec, req, gated, MoveOf(codec, reply), rejected)),
                  codec, req, gated, maxTurns, result, err)
  {
    assert (replies + [reply])[..|replies|] == replies;
    assert (prompts + [Transcript(req, log)])[..|replies|] == prompts;
  }

  /** Everything published by the run. */
  function StoryStream(s: Stream, story: Story, codec: Codec, req: RunRequest, result: FinalResult, err: Option<RunError>): Stream {
    PushEnding(s, LogPosts(codec, req, story.log + story.rejected) + story.unfinished,
               Closing(codec, result, err, story.rejected))
  }

  // -------------------------------------------------------- the event language

  function EventsOf(posts: seq<Post>): seq<Event> {
    seq(|posts|, i requires 0 <= i < |posts| => posts[i].event)
  }

  /** The events of a list of turns: call, wait for approval if it writes, result. */
  function Word(log: seq<ToolTurn>): seq<Event> {
    if log == [] then []
    else
      Word(log[..|log| - 1])
      + ([ToolCalled] + (if log[|log| - 1].call.isWrite then [WaitingApproval] else []) + [ToolResulted])
  }

  predicate IsFailure(e: Event) {
    e == Error || e == Timeout || e == Event.Cancelled
  }

  /** How a run can end: an answer, a failure, or a write that was not approved in time. */
  ghost predicate IsEnding(w: seq<Event>) {
    || w == [Final]
    || (|w| == 1 && IsFailure(w[0]))
    || w == [ToolCalled, Error]
    || (|w| == 3 && w[..2] == [ToolCalled, WaitingApproval] && IsFailure(w[2]))
  }

  lemma {:induction false} LogPostsWord(codec: Codec, req: RunRequest, log: seq<ToolTurn>)
    ensures EventsOf(LogPosts(codec, req, log)) == Word(log)
    ensures forall e | e in Word(log) :: !IsTerminal(e)
  {
    if log != [] {
      LogPostsWord(codec, req, log[..|log| - 1]);
    }
  }

  lemma {:induction false} PushAllEvents(s: Stream, posts: seq<Post>)
    requires Consecutive(s) && Open(s) && forall p | p in posts :: !IsTerminal(p.event)
    ensures Consecutive(PushAll(s, posts)) && Open(PushAll(s, posts))
    ensures Events(PushAll(s, posts).chunks) == Events(s.chunks) + EventsOf(posts)
  {
    if posts == [] {
      assert Events(s.chunks) + EventsOf(posts) == Events(s.chunks);
    } else {
      var front, p := posts[..|posts| - 1], posts[|posts| - 1];
      PushAllEvents(s, front);
      PushEvents(PushAll(s, front), p.event, "", p.error, p.data);
      assert EventsOf(posts) == EventsOf(front) + [p.event];
    }
  }

  lemma NoGateClass()
    ensures ClassifyTerminalError(NoGateError).1 == Error
  {
    var word := "approval gate required";
    var lower := Text.ToLower(NoGateError.msg);
    assert forall c | c in word :: Text.LowerChar(c) == c;
    assert forall i | 0 <= i < |word| :: lower[i] == word[i] && word[i] in word;
    assert lower[0..0 + |word|] == word;
    assert Text.WordAt(lower, word, 0);
  }

  lemma FailedAgrees(e: RunError, result: FinalResult, err: Option<RunError>)
    requires Failed(e, result, err)
    ensures IsFailure(ClassifyTerminalError(e).1) && Agrees(ClassifyTerminalError(e).1, result, true)
  {
  }

  /** The event of the terminal chunk. */
  function LastOf(err: Option<RunError>, rejected: seq<ToolTurn>): Event {
    if err == None then Final else if rejected == [] then ClassifyTerminalError(err.value).1 else Error
  }

  lemma StopAgrees(req: RunRequest, gated: bool, move: Move, rejected: seq<ToolTurn>, result: FinalResult, err: Option<RunError>)
    requires Stops(req, gated, move, rejected, result, err)
    ensures Agrees(LastOf(err, rejected), result, err.Some?)
    ensures err.Some? ==> IsFailure(LastOf(err, rejected))
    ensures err == None ==> !move.Calls?
    ensures move.Calls? && rejected == [] && !gated ==> LastOf(err, rejected) == Error
  {
    NoGateClass();
    if rejected == [] && err.Some? {
      FailedAgrees(err.value, result, err);
    }
  }

  predicate IsPrelude(w: seq<Event>, last: Event) {
    || w == []
    || (w == [ToolCalled] && last == Error)
    || (w == [ToolCalled, WaitingApproval] && IsFailure(last))
  }

  lemma UnfinishedEvents(codec: Codec, req: RunRequest, gated: bool, move: Move, rejected: seq<ToolTurn>, last: Event)
    requires move.Calls? && rejected == [] ==> move.call.isWrite && IsFailure(last) && (!gated ==> last == Error)
    ensures IsPrelude(EventsOf(Unfinished(codec, req, gated, move, rejected)), last)
  {
    var posts := Unfinished(codec, req, gated, move, rejected);
    if posts != [] {
      assert EventsOf(posts) == if gated then [ToolCalled, WaitingApproval] else [ToolCalled];
    }
  }

  /** The unfinished call and the terminal chunk are one of the endings, and fit the result. */
  lemma EndingFits(story: Story, codec: Codec, req: RunRequest, gated: bool, maxTurns: nat, result: FinalResult, err: Option<RunError>)
    requires Tells(story, codec, req, gated, maxTurns, result, err)
    ensures var last := Closing(codec, result, err, story.rejected).event;
            && IsPrelude(EventsOf(story.unfinished), last) && Agrees(last, result, err.Some?)
  {
    assert Closing(codec, result, err, story.rejected).event == LastOf(err, story.rejected);
    if story.rejected == [] && story.unfinished == [] && Failed(MaxTurnsError, result, err) {
      FailedAgrees(MaxTurnsError, result, err);
    } else {
      var move := MoveOf(codec, story.replies[|story.replies| - 1]);
      StopAgrees(req, gated, move, story.rejected, result, err);
      UnfinishedEvents(codec, req, gated, move, story.rejected, LastOf(err, story.rejected));
    }
  }

  lemma PreludeEnds(w: seq<Event>, last: Event)
    requires IsPrelude(w, last) && IsTerminal(last)
    ensures IsEnding(w + [last]) && forall e | e in w :: !IsTerminal(e)
  {
    assert w == [] ==> w + [last] == [last];
  }

  /** Chunks before the terminal one, none of them terminal, and then it, on a fresh fanout. */
  lemma EndingCloses(taskID: string, posts: seq<Post>, last: Post)
    requires IsTerminal(last.event) && forall e | e in EventsOf(posts) :: !IsTerminal(e)
    ensures var s := PushEnding(Stream(taskID, 0, false, []), posts, last);
            && Consecutive(s) && Closed(s) && LastEvent(s) == last.event
            && Events(s.chunks) == EventsOf(posts) + [last.event]
  {
    var start := Stream(taskID, 0, false, []);
    forall p | p in posts
      ensures !IsTerminal(p.event)
    {
      var i :| 0 <= i < |posts| && posts[i] == p;
      assert EventsOf(posts)[i] == p.event;
    }
    PushAllEvents(start, posts);
    PushTerminalEvents(PushAll(start, posts), last.event, last.error, last.data);
    assert Events(start.chunks) + EventsOf(posts) + [last.event] == EventsOf(posts) + [last.event];
  }

  /** The turns and one ending, numbered without gaps, with one done chunk in last place. */
  ghost predicate IsRun(s: Stream, turns: seq<ToolTurn>) {
    && Consecutive(s) && Closed(s)
    && exists ending :: IsEnding(ending) && Events(s.chunks) == Word(turns) + ending
  }

  lemma EventsJoin(a: seq<Post>, b: seq<Post>)
    ensures EventsOf(a + b) == EventsOf(a) + EventsOf(b)
  {
  }

  lemma RunWithEnding(s: Stream, turns: seq<ToolTurn>, w: seq<Event>, last: Event)
    requires Consecutive(s) && Closed(s) && IsEnding(w + [last]) && Events(s.chunks) == Word(turns) + w + [last]
    ensures IsRun(s, turns)
  {
    assert Word(turns) + w + [last] == Word(turns) + (w + [last]);
  }

  lemma EndingIsRun(taskID: string, codec: Codec, req: RunRequest, turns: seq<ToolTurn>, unfinished: seq<Post>, last: Post)
    requires IsTerminal(last.event) && IsPrelude(EventsOf(unfinished), last.event)
    ensures var s := PushEnding(Stream(taskID, 0, false, []), LogPosts(codec, req, turns) + unfinished, last);
            IsRun(s, turns) && LastEvent(s) == last.event
  {
    var posts := LogPosts(codec, req, turns) + unfinished;
    LogPostsWord(codec, req, turns);
    EventsJoin(LogPosts(codec, req, turns), unfinished);
    PreludeEnds(EventsOf(unfinished), last.event);
    EndingCloses(taskID, posts, last);
    RunWithEnding(PushEnding(Stream(taskID, 0, false, []), posts, last), turns, EventsOf(unfinished), last.event);
  }

  /** The stream of every run on a fresh fanout is a word of the event language that fits the result. */
  lemma StoryIsAWord(taskID: string, story: Story, codec: Codec, req: RunRequest, gated: bool, maxTurns: nat,
                     result: FinalResult, err: Option<RunError>)
    requires Tells(story, codec, req, gated, maxTurns, result, err)
    ensures var s := StoryStream(Stream(taskID, 0, false, []), story, codec, req, result, err);
            IsRun(s, story.log + story.rejected) && Agrees(LastEvent(s), result, err.Some?)
  {
    EndingFits(story, codec, req, gated, maxTurns, result, err);
    EndingIsRun(taskID, codec, req, story.log + story.rejected, story.unfinished, Closing(codec, result, err, story.rejected));
  }

  /** A run takes at most one turn per reply; it makes the transcript two messages longer for each. */
  lemma StoryIsBounded(story: Story, codec: Codec, req: RunRequest, gated: bool, maxTurns: nat,
                       result: FinalResult, err: Option<RunError>)
    requires Tells(story, codec, req, gated, maxTurns, result, err)
    ensures |story.log| + |story.rejected| <= |story.replies| == |story.prompts| <= maxTurns
    ensures |Transcript(req, story.log)| == |req.messages| + 2 * |story.log| <= |req.messages| + 2 * maxTurns
    ensures err == None ==> |story.log| < |story.replies|
  {
    ExchangesLength(story.log);
    var n := |story.replies| - 1;
    if Told(codec, req, story.replies, story.prompts, story.log) {
      ToldLengths(codec, req, story.replies, story.prompts, story.log);
    }
    if n >= 0 && |story.prompts| > n && Told(codec, req, story.replies[..n], story.prompts[..n], story.log) {
      ToldLengths(codec, req, story.replies[..n], story.prompts[..n], story.log);
    }
  }

  /** Every turn is a call the model asked for, and every prompt shows the request and some first turns. */
  lemma StoryIsAConversation(story: Story, codec: Codec, req: RunRequest, gated: bool, maxTurns: nat,
                             result: FinalResult, err: Option<RunError>)
    requires Tells(story, codec, req, gated, maxTurns, result, err)
    ensures forall t | t in story.log + story.rejected :: AskedFor(codec, t, story.replies)
    ensures forall t | t in story.log + story.rejected && t.ran == None ::
              t in story.rejected <==> req.onApprovalReject == "fail"
    ensures forall p | p in story.prompts :: Shown(p, req, story.log)
  {
    var n := |story.replies| - 1;
    if Told(codec, req, story.replies, story.prompts, story.log) && story.rejected == [] && story.unfinished == [] {
      ToldAsked(codec, req, story.replies, story.prompts, story.log);
      ToldShown(codec, req, story.replies, story.prompts, story.log);
    } else {
      ToldAsked(codec, req, story.replies[..n], story.prompts[..n], story.log);
      ToldShown(codec, req, story.replies[..n], story.prompts[..n], story.log);
      CallsAnswer(codec, story.replies[n]);
      assert story.replies == story.replies[..n] + [story.replies[n]];
      assert story.prompts == story.prompts[..n] + [story.prompts[n]];
      assert story.log[..|story.log|] == story.log;
    }
  }
}
