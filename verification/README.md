# Verified model of the agentic-core kernel

This Dafny project models the parts of the repository that hold state and decide something:
the workflow scheduler, the approval gate and the agent loop it guards, the bridge that turns
a provider's event stream into client events, the encrypted callback envelopes, and the nonce
store of the webhook check. It proves what they keep over whole runs.

- **Workflow** (`Graphs`, `Dag`, `NodeStates`, `Schedule`, `WorkflowTheorems`, `Executors`,
  `Orchestration`). Kahn's algorithm and the step-driven executor are two independent
  algorithms; both are proved to reach exactly the nodes that no cycle holds up, and every
  topological order is shown to be the completion order of some run. Go map iteration is an
  arbitrary choice and the ready callback may fail at any time. Each executor method is proved
  to perform one step of the relation `Schedule.Next`; the theorems are about runs of steps.
- **Approval gate and agent loop** (`Approval`, `ApprovalSystem`, `ApprovalLedger`, `GateCalls`,
  `ApprovalGates`, `Fanouts`, `TaskStatuses`, `RuntimeStory`, `RuntimeLoop`, `RunTheorems`). The critical
  sections of the gate are functions on values; `ApprovalSystem` lets any number of waiting
  calls, deliveries, timeouts and cancellations interleave between them, and `ApprovalLedger`
  keeps account of every decision. `ApprovalGates` proves the methods, with their in-place
  compactions, against these functions; its `WaitDecision` runs the sections on the maps, with
  arbitrary interference in between, and the agent loop uses it. Each delivery of a decision
  carries its place in the history of the gate, which the code never looks at. A whole run of the
  loop is told by one value, a `RuntimeStory.Story`: what the model was shown and answered, and
  the tool turns that follow from it; executions, transcript and events are those of the story.
- **Stream bridge** (`Text`, `ProviderStream`, `Sse`, `Senders`, `Dispatching`, `Transparency`,
  `StreamTheorems`).
  The line-driven parser, the once-only terminal latch, the bounded fan-out, the dispatch loop
  and the printer, and the theorem that printing and parsing again loses nothing. The loop
  receives, looks up, writes, drops and closes in separate steps, as it holds the lock for the
  lookup and the drop only; handlers register and unregister sinks and publish in between.
- **Envelopes** (`Bytes`, `Wire`, `Envelope`). Exclusive or, 32-bit big-endian lengths, PKCS#7 padding
  (section 6.3 of RFC 5652) with block size 32, CBC (section 6.2 of NIST SP 800-38A) over any
  invertible block function, and the two frame decoders with their different arithmetic.
- **Nonce store** (`NonceStore`), with the monotonic reading of `time.Now` as its clock.

Parameters stand for what the code does not decide: JSON decoding of payloads and answers, base64,
the block cipher and the signature are function values, with only the inverse laws that are
stated as hypotheses (`Transparency.JsonOk`, `Envelope.Base64Ok`, `Bytes.Invertible`); the clock is
an integer argument; model answers, tool results, write failures, callback failures and the
choice a `select` makes are arbitrary.

Facts about the code that the proofs bring out:

- `takePendingDecision` discards every decision behind the one it returns: the buffer shrinks by
  one exactly when none but its last decision is accepted (`Approval.TakeSplits`), and a routed
  decision can be lost that way (`ApprovalLedger.DecisionIsLost`).
- A routed decision is lost exactly if it was discarded so, or was handed only to calls that
  left with another result (`ApprovalLedger.EveryDecisionAccounted`).
- The gate's key names one call exactly when its only inner colon is the separator
  (`Approval.KeyUnambiguous`), and so does what allows a write (`RuntimeStory.AllowedNamesCall`).
- The bridge goes on publishing deltas behind the end marker, which the client never gets; and the
  trip over the bus can lengthen a payload beyond the line limit of the parser, which then stops
  with an error. The client reads what was published exactly when neither happens
  (`Transparency.GatewayTransparency`).
- With failing callbacks, the nodes that a stopped call skipped stay pending together with all
  behind them, and no others do (`WorkflowTheorems.DeadlockFreedomAnyway`).
- A sink can be written once more after it was unregistered, exactly when the dispatch loop
  already holds it with a chunk (`Senders.WrittenAfterUnregistration`); the loop drops whichever
  sink the task has by then, and closes the one it wrote.
- WeCom envelopes round-trip exactly below 2^32 - 20 bytes, DingTalk envelopes exactly below
  2^32; the decoders agree exactly under the condition of `Envelope.DecodersAgree`.
- For arbitrary readings the pruning nonce store is exact if and only if no live admission was
  overtaken (`NonceStore.PruningInvisibleIff`); monotonic readings always satisfy this.

## Model

| member | source | states |
|---|---|---|
| Graphs.WalkBack | internal/workflow/dag.go:81-96 | pigeonhole: nodes that all wait for one another contain a real cycle, from which each of them is reached |
| Graphs.TopologicalIsAcyclic | internal/workflow/dag.go:61-97 | a topological order excludes every cycle, self-loops included |
| Graphs.BlockedHasBlockedPred | internal/workflow/dag.go:41-51 | a node on or behind a cycle always has such a dependency |
| Graphs.GroundedNotBlocked | internal/workflow/dag.go:80-92 | a list with dependencies first contains no node on or behind a cycle |
| Dag.ConstructionEdges | internal/workflow/dag.go:17-39 | AddNode adds one node and no edge, AddDependency exactly one edge and no node |
| Dag.DAG.AddNode | internal/workflow/dag.go:17-25 | adding a node, idempotent, keeps the graph well formed |
| Dag.DAG.AddDependency | internal/workflow/dag.go:27-39 | the two error cases change nothing; success adds exactly the edge |
| Dag.DAG.Dependencies | internal/workflow/dag.go:41-51 | every dependency, each once |
| Dag.DAG.Dependents | internal/workflow/dag.go:53-59 | every dependent, each once |
| Dag.DAG.CountDegrees | internal/workflow/dag.go:62-71 | each counter is the number of dependencies of its node |
| Dag.Sources | internal/workflow/dag.go:73-78 | the initial queue is the set of nodes with counter zero, each once |
| Dag.Release | internal/workflow/dag.go:86-91 | the inner loop pays one decrement to each dependent and enqueues exactly those that reach zero |
| Dag.OutcomeAgrees | internal/workflow/dag.go:94-97 | comparing lengths decides acyclicity and the existence of a topological order |
| Dag.LoopOutcome | internal/workflow/dag.go:81-97 | when the queue is empty, the order holds exactly the nodes on or behind no cycle; otherwise a cycle lies in what is left |
| Dag.DAG.TopologicalOrder | internal/workflow/dag.go:61-98 | success if and only if acyclic, with a topological order; on failure a cycle among the nodes left over |
| NodeStates.NodeStateMachine.InitNode | internal/workflow/state_machine.go:22-24 | the node is pending, even if it existed |
| NodeStates.NodeStateMachine.Transition | internal/workflow/state_machine.go:31-51 | succeeds exactly on the permitted moves and changes nothing otherwise |
| Executors.Executor.ReadyNode | internal/workflow/executor.go:91-100 | a pending node becomes running and its callback runs once; any other node is refused |
| Executors.Executor.IsNodeReady | internal/workflow/executor.go:79-89 | all dependencies completed and the node pending or running |
| Executors.Executor.Start | internal/workflow/executor.go:39-52 | one step of the relation: starts nodes without dependencies, stopping at the first error |
| Executors.Executor.MarkNodeCompleted | internal/workflow/executor.go:54-71 | one step: completes a running node and starts its ready dependents, stopping at the first error |
| Executors.Executor.MarkNodeFailed | internal/workflow/executor.go:73-77 | one step: fails a running node, changes nothing otherwise |
| Executors.Workflow.AddTask | internal/workflow/workflow.go:27-41 | the node, the reset state, and exactly the dependencies up to the first missing one; a fresh workflow stays fresh |
| Executors.WithDepsEdges | internal/workflow/workflow.go:35-39 | the declared dependencies become exactly the new edges |
| Schedule.NextIsSafe | internal/workflow/executor.go:39-100 | every call, with any callback outcome, keeps the safety invariant |
| Schedule.NoRefusalOnRelease | internal/workflow/executor.go:61-70 | in a safe state every dependent of a running node is pending, so the running alternative is never taken there |
| WorkflowTheorems.WholeRunSafety | internal/workflow/executor.go:39-100 | over every run: dependencies completed before a start, callback exactly once, blocked nodes never start, at most two transitions per node |
| WorkflowTheorems.RunProgress | internal/workflow/executor.go:39-71 | with succeeding callbacks, after the first start every pending node is held back by some dependency |
| WorkflowTheorems.DeadlockFreedom | internal/workflow/executor.go:54-89 | in a quiet state the pending nodes are exactly those behind a failed node or on or behind a cycle |
| WorkflowTheorems.RunProgressButSkipped | internal/workflow/executor.go:39-71 | whatever the callbacks return, after the first start every pending node whose dependencies are completed was skipped by a call that stopped at an error |
| WorkflowTheorems.DeadlockFreedomAnyway | internal/workflow/executor.go:39-71 | whatever the callbacks return, in a quiet state the pending nodes are exactly those behind a failed node, those on or behind a cycle, and the skipped ones with all behind them |
| WorkflowTheorems.CompletionIffSortable | internal/workflow/executor.go:39-71 | everything completes if and only if a topological order exists, and the completion order is one; otherwise exactly the unblocked nodes complete |
| WorkflowTheorems.EveryOrderHappens | internal/workflow/executor.go:54-71 | every prefix of every topological order is the completion order of some run |
| Orchestration.Drive | cmd/orchestrator/main.go:304-335 | starting a workflow and reporting any results makes a run in the sense of the theorems, in which as many calls fail as callbacks did |
| Orchestration.ReportsAre | cmd/orchestrator/main.go:328-334 | a result whose status spells success completes its task, any other fails it |
| Orchestration.NoFailures | cmd/orchestrator/main.go:304-335 | no callback failed if and only if the liveness theorems apply |
| Approval.KeyInjective | internal/skill/approval_gate.go:204-206 | among colon-free task IDs the key determines both IDs |
| Approval.KeyCollision | internal/skill/approval_gate.go:204-206 | with colons two different calls share a key |
| Approval.KeyUnambiguous | internal/skill/approval_gate.go:204-206 | a key names one call if and only if its only inner colon is the separator |
| Approval.RouteIs | internal/skill/approval_gate.go:109-142 | a decision goes to every matching waiter of its key or once to the buffer, never both or neither; other keys untouched |
| Approval.TakeSplits | internal/skill/approval_gate.go:173-202 | a decision is found exactly when one is accepted; the earliest is returned, what stood before it stays, what stood behind it is dropped, and the buffer shrinks by one if and only if none but its last decision is accepted |
| Approval.RoutedByTrace | internal/skill/approval_gate.go:109-142 | told by trace IDs: a decision reaches every waiter of its key unless both traces are given and differ, and is buffered exactly when all waiters are such strangers |
| Approval.TakenByTrace | internal/skill/approval_gate.go:173-210 | told by trace IDs: the first decision is taken whose trace is missing, is that of the request, or is any if the request gives none; strangers stay |
| ApprovalLedger.EveryDecisionAccounted | internal/skill/approval_gate.go:50-202 | in every reachable state a routed decision is in exactly one of buffer, discard and hands of calls, and it is lost exactly if it was discarded or all calls that were handed it left with another result |
| ApprovalLedger.LeavesBuffer | internal/skill/approval_gate.go:182-194 | a decision leaves the buffer only to the call that takes it or behind the one that is taken |
| ApprovalLedger.NoReplay | internal/skill/approval_gate.go:56-94 | under every continuation, a decision that has left the buffer never reaches a call that begins later |
| ApprovalLedger.DecisionIsLost | internal/skill/approval_gate.go:182-194 | for every two decisions for one call, a reachable state in which the second is lost |
| ApprovalGates.ApprovalGate.RouteDecision | internal/skill/approval_gate.go:109-142 | the in-place compaction and the sends compute the routing of the model |
| ApprovalGates.ApprovalGate.Consume | internal/skill/approval_gate.go:96-107 | a decision without task, call or time is dropped, any other is routed |
| ApprovalGates.ApprovalGate.AddWaiter | internal/skill/approval_gate.go:144-148 | the waiter is appended under its key |
| ApprovalGates.ApprovalGate.RemoveWaiter | internal/skill/approval_gate.go:150-171 | the in-place compaction removes exactly the waiters on the channel and deletes an empty entry |
| ApprovalGates.ApprovalGate.TakePendingDecision | internal/skill/approval_gate.go:173-202 | the in-place compaction takes the earliest match, or changes nothing |
| ApprovalGates.ApprovalGate.PendingDecisionCount | internal/skill/approval_gate.go:212-220 | the number of buffered decisions over all keys |
| ApprovalSystem.StepInv | internal/skill/approval_gate.go:50-202 | every critical section of every call, and every delivery, keeps the invariant of the gate |
| ApprovalSystem.NoLostWakeup | internal/skill/approval_gate.go:61-94 | under every interleaving a blocked call holds a decision routed for it, or nothing buffered would answer it |
| ApprovalSystem.DecisionsAreGranted | internal/skill/approval_gate.go:61-92 | a returned decision was routed under the key of the request with a matching trace |
| ApprovalSystem.WaitersAreLive | internal/skill/approval_gate.go:109-133 | every registered waiter belongs to a live call and has an empty channel, so the send is never skipped |
| ApprovalSystem.NoWaiterLeftBehind | internal/skill/approval_gate.go:66-71 | a finished call has left no waiter behind |
| ApprovalSystem.EndsAsItHappened | internal/skill/approval_gate.go:77-94 | over every run, a call ends in a timeout if and only if its timer fired, and in a cancellation if and only if its context ended in that way |
| ApprovalSystem.BuffersAreTidy | internal/skill/approval_gate.go:134-141 | no map entry is an empty list and every buffered decision sits under its own key |
| ApprovalSystem.DeliveryIsTotal | internal/skill/approval_gate.go:109-142 | in every reachable state a delivery reaches all matching waiters or is buffered once |
| ApprovalGates.ApprovalGate.Act | internal/skill/approval_gate.go:109-202 | each section, run on the maps and slices, is exactly the step of the system |
| ApprovalGates.ApprovalGate.WaitDecision | internal/skill/approval_gate.go:49-94 | with arbitrary interference between its sections: what comes back is how the call ended, constructor by constructor; a decision that comes back was routed for the key with a matching trace, was not spent when the call began, and is spent now |
| Fanouts.PushTerminalEvents | internal/llm/stream_fanout.go:93-137 | the first terminal chunk closes the stream in last place with the next number |
| Fanouts.OneTerminalEver | internal/llm/stream_fanout.go:30-137 | over any emissions on a fresh fanout, each takes a number and at most one done chunk is published, exactly one if some emission was terminal |
| Fanouts.Fanout.EmitEvent | internal/llm/stream_fanout.go:56-91 | an ordinary chunk takes the next number and is published |
| Fanouts.Fanout.EmitTerminal | internal/llm/stream_fanout.go:93-137 | a terminal chunk takes a number and is published only the first time |
| TaskStatuses.NormalizeIsProjection | internal/memory/task_status.go:15-29 | the result is a known status, known statuses are fixed, "error" becomes "failed" |
| TaskStatuses.NormalizedIs | internal/memory/task_status.go:15-29 | each of six words is the result exactly if the status spells it in any case between white space; "failed" for everything else |
| TaskStatuses.KindsOfStatus | internal/memory/task_status.go:31-43 | a status is not terminal exactly if it spells pending or running, and successful exactly if it spells success |
| TaskStatuses.ClassifiedByWords | internal/llm/runtime_loop.go:172-188 | the class of an error, by what it wraps and the words its text says in any case |
| TaskStatuses.StatusByWords | internal/gateway/chat_completions_handler.go:579-603 | the stored status of an error without a result, in the same terms |
| RuntimeLoop.WaitErrorClass | internal/llm/runtime_loop.go:172-188 | a wait that runs out of time ends as a timeout, a cancelled one as cancelled, one past its deadline as a timeout, an invalid request as an error, and a gate that is down as its own error says |
| TaskStatuses.StoredStatusMatchesStream | internal/gateway/chat_completions_handler.go:153-161 | the stored status and the last event determine each other |
| RuntimeLoop.Runtime.Approve | internal/llm/runtime_loop.go:81-124 | a write may run exactly when the gate's answer is an approval, which is used up by it; a rejection is reported as its result; any other answer ends the run with exactly the error of the wait, and a missing gate with its own |
| RuntimeLoop.Runtime.CallTool | internal/llm/runtime_loop.go:74-145 | one tool call: its events, its execution and permission, and the two messages it feeds back or the result it ends the run with |
| RuntimeLoop.Runtime.Turn | internal/llm/runtime_loop.go:42-146 | each reply of the model leads to exactly the move the code makes of it |
| RuntimeLoop.Runtime.Run | internal/llm/runtime_loop.go:39-150 | every run is a story: exact prompts, executions in order, no write without an approval routed before it started and no approval used for two writes, exact events from any state of the fanout, and the result that the last reply or the turn limit calls for |
| RuntimeLoop.FailWithTerminalEvent | internal/llm/runtime_loop.go:152-170 | the terminal event and the status come from one classification |
| RuntimeStory.AllowedNamesCall | internal/llm/runtime_loop.go:82-127 | whatever allows a call names this very task and call if and only if the separator is the only inner colon of the call's key |
| RuntimeStory.StoryIsAWord | internal/llm/runtime_loop.go:39-170 | on a fresh fanout every run publishes the events of its turns and one of the endings, numbered 1..n, with one done chunk in last place that fits the result |
| RuntimeStory.StopAgrees | internal/llm/runtime_loop.go:152-188 | the terminal event and the status of the result agree however the run ends; a missing gate always gives an error event |
| RuntimeStory.StoryIsAConversation | internal/llm/runtime_loop.go:41-146 | every executed or rejected call was asked for by the model, every prompt is the request and the exchanges of some first turns, and a rejection ends the run if and only if the policy is "fail" |
| RuntimeStory.StoryIsBounded | internal/llm/runtime_loop.go:142-145 | at most one turn per reply and one reply per allowed turn; the transcript grows by two messages for each finished turn, so by at most twice the turn limit |
| RunTheorems.EndsAsReplied | internal/llm/runtime_loop.go:50-72 | a failed or unreadable reply ends the run with that error, a final text with success and that text |
| RunTheorems.OutOfTurns | internal/llm/runtime_loop.go:148-149 | a run that no reply and no call ended has used up its turns, fails with that error, and publishes an error |
| RunTheorems.WriteWithoutGate | internal/llm/runtime_loop.go:82-84 | a write without a gate ends the run as failed, with only the call announced |
| RunTheorems.CutOffByGate | internal/llm/runtime_loop.go:85-102 | a write the gate did not decide leaves the call and the wait announced |
| RunTheorems.EndedByRejection | internal/llm/runtime_loop.go:113-120 | a rejection ends a run only under the policy "fail", as rejected and with an error event |
| RunTheorems.TurnsAre | internal/llm/runtime_loop.go:41-146 | each reply that asks for a tool has its turn with that call, and each prompt is the request and the turns of the replies before it |
| RunTheorems.TranscriptAt | internal/llm/runtime_loop.go:142-145 | message by message: the request, then for each turn the answer of the model and the output under its call ID |
| RunTheorems.AllowedIs | internal/llm/runtime_loop.go:103-104 | what allows a write, in terms of the IDs, the traces and the flag of a routed decision |
| RunTheorems.DeniedIs | internal/llm/runtime_loop.go:104-112 | the result that a rejected call reports |
| RunTheorems.TurnIsPublished | internal/llm/stream_fanout.go:56-91 | the chunks of a turn and what they carry |
| RunTheorems.LastChunkIs | internal/llm/stream_fanout.go:93-137 | chunk by chunk: what a run publishes on a fresh fanout, with numbers, payloads, and the closing chunk last |
| ProviderStream.PublishProviderStream | internal/gateway/chat_completions_handler.go:309-397 | the scan loop with its flushes computes the bridge of the model for every input, every way it ends and every answer of the publisher |
| ProviderStream.ExactlyOneTerminal | internal/gateway/chat_completions_handler.go:309-397 | on every exit path exactly one terminal chunk, unless the call stopped at a delta the publisher refused before any; a final chunk carries exactly the text published before it |
| StreamTheorems.BlankEndsFrame | internal/gateway/chat_completions_handler.go:318-327 | data lines up to a line of white space make one payload: their values trimmed, joined and trimmed, or none if that is empty |
| StreamTheorems.EndEndsFrame | internal/gateway/chat_completions_handler.go:383-392 | the last frame counts without a blank line after a clean end, and is lost otherwise |
| StreamTheorems.OtherLinesIgnored | internal/gateway/chat_completions_handler.go:371-381 | any other line is ignored |
| StreamTheorems.JoinedByLineFeeds | internal/gateway/chat_completions_handler.go:323 | data lines are joined by line feeds |
| StreamTheorems.LineIs | internal/gateway/chat_completions_handler.go:309-311 | a line of 1,048,576 bytes or more stops the scanner; a trailing carriage return is dropped |
| StreamTheorems.ClosedByPayload | internal/gateway/chat_completions_handler.go:329-347 | after the deltas, an end marker is answered by a final chunk with their text, a failure or a malformed payload by an error chunk with the returned message, which is the last |
| StreamTheorems.ClosedByCleanEnd | internal/gateway/chat_completions_handler.go:390-397 | a clean end is answered by a final chunk with the text of all deltas |
| StreamTheorems.ClosedByReadError | internal/gateway/chat_completions_handler.go:383-388 | a read error is answered by an error chunk, which is the last, and returned |
| StreamTheorems.ClosedByContext | internal/gateway/chat_completions_handler.go:364-369 | a context that is done before a line is answered by a cancellation, which is the last, and returned |
| StreamTheorems.RefusedDeltaStops | internal/gateway/chat_completions_handler.go:353-359 | a delta the publisher refuses ends the call with its error and no closing chunk |
| Sse.WriteSSEFrame | internal/gateway/sse_handler.go:18-33 | a successful write sends exactly the frame, a failing one a prefix of it |
| Sse.PrintedAs | internal/gateway/chat_completions_handler.go:609-629 | the bytes of a chunk, kind by kind |
| Sse.ChatSink.WriteChunk | internal/gateway/chat_completions_handler.go:609-629 | while no write fails the client has exactly the frames of the chunks written |
| Sse.ChatSink.Close | internal/gateway/chat_completions_handler.go:631-633 | closing writes the done frame once |
| Senders.FakeTransport.Publish | internal/bus/client.go:91-113 | every matching subscriber with room gets the message, every other is left alone |
| Senders.OfferedIs | internal/bus/client.go:99-113 | a subscription that matches takes a message if it holds fewer than a hundred |
| Senders.MatchesAre | internal/bus/client.go:162-168 | a pattern that ends in a star matches by prefix, any other by equality |
| Senders.SenderHearsEveryTask | internal/bus/client.go:160-166 | the sender's pattern matches the topic of every task |
| Senders.FakeTransport.Receive | internal/bus/client.go:115-121 | a subscription hands out its messages in order |
| Senders.StepOk | internal/gateway/sender.go:38-141 | every step of the loop, of a handler and of a publisher keeps the account of every sink |
| Dispatching.Sender.PublishChunk | internal/gateway/sender.go:57-108 | a chunk without a task is refused; any other goes over the bus to the sender's own subscription, if that has room |
| Dispatching.Sender.RegisterSink | internal/gateway/sender.go:38-42 | the task has this sink from now on, whatever it had |
| Dispatching.Sender.UnregisterSink | internal/gateway/sender.go:45-49 | the task has no sink |
| Dispatching.Sender.WriteTo | internal/gateway/sender.go:128-135 | one write to the sink that was looked up, registered or not; its outcome decides what follows |
| Dispatching.Sender.DropTask | internal/gateway/sender.go:131-137 | the task loses whichever sink it has by then |
| Dispatching.Sender.Dispatch | internal/gateway/sender.go:119-141 | one pass of the loop, with others registering, unregistering and publishing between its steps, takes one chunk through to the end as a run of the steps |
| Senders.SinkSeesItsTask | internal/gateway/sender.go:111-143 | for every run a sink gets a prefix of its task's chunks accepted since it was registered, all of them while it is registered and the loop has caught up; accepted chunks are in order, and all if and only if the queue always had room; closed at most once, by a written done chunk only |
| Senders.FinishedIsFinal | internal/gateway/sender.go:129-138 | nothing is written after a failed write or a written done chunk, and a failed sink is never closed |
| Senders.UnregisteredIsFinal | internal/gateway/sender.go:124-138 | after an unregistration of any origin at most the one chunk already in hand is written, and at most then the sink is closed |
| Senders.WrittenAfterUnregistration | internal/gateway/sender.go:124-129 | something is written after an unregistration in some continuation if and only if the loop holds the sink to write |
| Senders.ClosedSinkGotAll | internal/gateway/sender.go:136-139 | a closed sink got exactly its task's accepted chunks up to the first done one |
| Transparency.FrameReadsBack | internal/gateway/chat_completions_handler.go:309-312 | one printed frame parses back to its payload if its line is shorter than 1,048,576 bytes; otherwise the parser stops there |
| Transparency.BodyReadsBack | internal/gateway/chat_completions_handler.go:363-381 | a list of printed frames parses back to the same payloads, up to the first whose line does not fit |
| Transparency.AcceptedBridge | internal/gateway/chat_completions_handler.go:318-361 | what an accepted input publishes up to its final chunk, and which deltas follow it |
| Transparency.ClientReads | internal/gateway/chat_completions_handler.go:363-397 | what the client reads from a closed sink: all deltas and the final chunk if every frame fits, otherwise the deltas before the first that does not and an error chunk |
| Transparency.GatewayTransparency | internal/gateway/chat_completions_handler.go:309-397 | for every accepted upstream input and every run of the sender that delivers it, parsing the client's bytes succeeds if and only if every frame before the end marker still fits into a line after its trip; then it gives the deltas before the end marker and the content of the upstream final chunk, and all deltas if and only if none follow the marker |
| Bytes.UnpadIsInverse | internal/gateway/wecom/crypto.go:131-150 | unpadding succeeds exactly on padded data and undoes the padding |
| Bytes.Pkcs7Unpad | internal/gateway/dingtalk/app_support.go:116-130 | the checking loop computes unpadding with its three errors |
| Bytes.CbcRoundTrip | internal/gateway/wecom/crypto.go:83-84 | CBC decryption undoes CBC encryption for every invertible block function |
| Wire.XorsAre | internal/gateway/wecom/crypto.go:83-84 | the exclusive or of the chain, bit by bit |
| Wire.ChainedIsCbc | internal/gateway/wecom/crypto.go:82-85 | a cipher text is what encryption computes if and only if each block of 16 bytes encrypts the plain block mixed with the cipher block before it |
| Wire.UnpadIs | internal/gateway/wecom/crypto.go:131-150 | unpadding gives a content if and only if the data is that content and k bytes of value k, 1 <= k <= 32, together a multiple of 32 |
| Wire.FrameIsLaid | internal/gateway/wecom/crypto.go:62-77 | the padded frame holds lead, length in four digits, message, receiver and padding in this order |
| Bytes.Uint32OfPut | internal/gateway/wecom/crypto.go:71-73 | the length field holds the length modulo 2^32 |
| Envelope.Codec.Encrypt | internal/gateway/wecom/crypto.go:62-86 | the decoded result is an envelope of the message on the wire, as long as the least multiple of 32 above its contents; it opens to the message if and only if that is shorter than 2^32 - 20 |
| Envelope.Codec.Decrypt | internal/gateway/wecom/crypto.go:88-129 | a wrong signature is refused; every envelope on the wire opens to its message, or is refused for another receiver; every check in order, with the 32-bit sum and the slice that panics |
| Envelope.EncryptCallbackBody | internal/gateway/dingtalk/app_support.go:87-109 | it succeeds exactly for keys of 16, 24 or 32 bytes; the decoded result is an envelope on the wire, and opens to the body if and only if that is shorter than 2^32 |
| Envelope.DecryptCallbackBody | internal/gateway/dingtalk/app_support.go:51-85 | every envelope on the wire opens to its message, or is refused for another receiver; every check in order, with the panic on a partial block |
| Envelope.WeComRoundTrip | internal/gateway/wecom/crypto.go:62-129 | decrypting an encrypted message returns it if and only if it is shorter than 2^32 - 20 |
| Envelope.DingTalkRoundTrip | internal/gateway/dingtalk/app_support.go:51-109 | decrypting an encrypted message returns it if and only if it is shorter than 2^32 |
| Envelope.WeComFrames | internal/gateway/wecom/crypto.go:114-128 | which plaintexts the WeCom decoder opens, and to what |
| Envelope.DingTalkFrames | internal/gateway/dingtalk/app_support.go:67-84 | which plaintexts the DingTalk decoder opens, and to what |
| Envelope.DecodersAgree | internal/gateway/wecom/crypto.go:114-128 | exactly when the two frame decoders give the same verdict, for every plaintext and receiver ID |
| NonceStore.InMemNonceStore.CheckAndSet | internal/skill/webhook_auth.go:39-56 | prunes exactly the expired nonces, then admits and records a nonce that is not held |
| NonceStore.PruningIsInvisible | internal/skill/webhook_auth.go:39-56 | with readings that do not go back it answers like a store that never forgets |
| NonceStore.PruningInvisibleIff | internal/skill/webhook_auth.go:43-55 | for arbitrary readings, it answers like a store that never forgets if and only if every admission that counts is backed by one that no reading in between was beyond |

## Left out

- Agent types: the scheduler passes them to the callback unread, so calls are recorded by node only.
- Rebuilding during a run: `AddTask` resets an existing node, so the theorems are about a graph that is complete before the first start.
- Reading node states without the executor's mutex is not modelled.
- RuntimeLoop.Runtime.Run: JSON encoding of chunk payloads is taken to succeed, roles and tool names of chunks and wall-clock fields are omitted.
- RuntimeLoop.Runtime.Run: the transcript is a value, so sharing of the request's backing array by `append` is not captured.
- Fanouts.Fanout.EmitTerminal: the counter is unbounded where the source wraps at 64 bits, and concurrent emits on one fanout are not modelled.
- ApprovalGates.ApprovalGate.WaitDecision: timers and contexts are arbitrary choices, so nothing is said about how long a call waits.
- ApprovalGates.ApprovalGate.RouteDecision: the slice of a map entry is copied to a local array, since no other slice shares it; channel slots are a map from channel numbers.
- ProviderStream.PublishProviderStream: stated for a fanout that is present, as in its only caller; the publisher's answers are any function of the numbered chunks and the lines are those the scanner returned, with its error if it stopped (`Transparency.Scan` models the scanner and its line limit, counting UTF-8 bytes).
- Transparency.GatewayTransparency: the laws of JSON decoding and compaction are hypotheses, as JSON itself is opaque.
- Dispatching.Sender.PublishChunk: time stamps, message validation and audit records are left out; a message the bus refuses counts as not published.
- Dispatching.Sender.Dispatch: audit records, the end of the loop with its context, and the drain wait of the handler are not part of this model; a map without the task does not mean that the done frame was written, as the drop comes before the closing. Handlers register a new sink each time, as in the source, and write to the response themselves only when they do not start a run.
- Envelope.Codec.Decrypt: the signature is any function of its inputs; sorting, SHA-1, base64 and AES are opaque, and a key is its decoded bytes.
- The text of error messages, except where the code classifies errors by it.
- `VerifyWebhookSignature` beyond its nonce store, task recovery and its counters, `ProcessLoop`, and persistence order in the task store.
- Channel adapters, HTTP handlers, model providers, registries, prompt building, Redis, MQTT, SQLite and process management: input and output around the modelled core.
