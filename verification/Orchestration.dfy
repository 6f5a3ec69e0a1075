/**
  How cmd/orchestrator/main.go drives a workflow: it starts it and then, for every task
  result that arrives, marks the task completed or failed and ignores what the call returns.
 */
module Orchestration {
  import opened Graphs
  import opened Schedule
  import opened WorkflowTheorems
  import opened Executors
  import TaskStatuses

  datatype ResultMessage = ResultMessage(taskID: Id, status: string)

  /** The call that a result leads to. */
  ghost predicate Reports(step: Step, res: ResultMessage) {
    if TaskStatuses.NormalizeTaskStatus(res.status) == "success"
    then step.CompleteOp? && step.node == res.taskID
    else step.FailOp? && step.node == res.taskID
  }

  /** How many callbacks failed in a call, and in a list of calls. */
  function FailuresOf(step: Step): nat {
    if step.FailOp? then 0 else Failures(step.result)
  }

  function AllFailures(steps: seq<Step>): nat {
    if steps == [] then 0 else AllFailures(steps[..|steps| - 1]) + FailuresOf(steps[|steps| - 1])
  }

  lemma {:induction false} NoFailures(steps: seq<Step>)
    ensures AllFailures(steps) == 0 <==> CallbacksSucceed(steps)
  {
    if steps != [] {
      var front := steps[..|steps| - 1];
      NoFailures(front);
      assert steps == front + [steps[|steps| - 1]];
    }
  }

  /** A result that spells success completes its task, any other fails it. */
  lemma ReportsAre(step: Step, res: ResultMessage)
    requires Reports(step, res)
    ensures step.CompleteOp? <==> TaskStatuses.Spells(res.status, "success")
    ensures step.FailOp? <==> !TaskStatuses.Spells(res.status, "success")
    ensures step.node == res.taskID
  {
    TaskStatuses.NormalizedIs(res.status, "success");
  }

  method Report(wf: Workflow, res: ResultMessage) returns (ghost step: Step)
    requires wf.Wired()
    modifies wf.sm, wf.hook
    ensures Reports(step, res)
    ensures Next(wf.dag.Value(), old(wf.executor.Snap()), step, wf.executor.Snap())
    ensures wf.hook.failures == old(wf.hook.failures) + FailuresOf(step)
  {
    var status := TaskStatuses.NormalizeTaskStatus(res.status);
    TaskStatuses.NormalizeIsProjection(res.status);
    if TaskStatuses.IsSuccessfulTaskStatus(status) {
      var r; ghost var batch;
      r, batch := wf.MarkCompleted(res.taskID);
      step := CompleteOp(res.taskID, batch, r);
    } else {
      var r := wf.MarkFailed(res.taskID);
      step := FailOp(res.taskID, r);
    }
  }

  /**
    Whatever results arrive, and however often, the calls form a run in the sense of module
    Schedule, so its whole-run theorems apply to the state that is reached.
   */
  method Drive(wf: Workflow, results: seq<ResultMessage>)
    returns (ghost trace: seq<Snapshot>, ghost steps: seq<Step>)
    requires wf.Fresh()
    modifies wf.sm, wf.hook
    ensures IsRun(wf.dag.Value(), trace, steps) && HasStart(steps)
    ensures |steps| == 1 + |results| && trace[|steps|] == wf.executor.Snap()
    ensures forall i | 0 <= i < |results| :: Reports(steps[i + 1], results[i])
    ensures wf.hook.failures == old(wf.hook.failures) + AllFailures(steps)
  {
    ghost var g := wf.dag.Value();
    trace, steps := [wf.executor.Snap()], [];
    var r; ghost var batch;
    r, batch := wf.Start();
    ExtendRun(g, trace, steps, StartOp(batch, r), wf.executor.Snap());
    trace, steps := trace + [wf.executor.Snap()], steps + [StartOp(batch, r)];
    for i := 0 to |results|
      invariant wf.dag.Value() == g
      invariant IsRun(g, trace, steps) && |steps| == 1 + i && steps[0].StartOp?
      invariant trace[|steps|] == wf.executor.Snap()
      invariant forall j | 0 <= j < i :: Reports(steps[j + 1], results[j])
      invariant wf.hook.failures == old(wf.hook.failures) + AllFailures(steps)
    {
      ghost var step := Report(wf, results[i]);
      ExtendRun(g, trace, steps, step, wf.executor.Snap());
      assert (steps + [step])[..|steps|] == steps;
      trace, steps := trace + [wf.executor.Snap()], steps + [step];
    }
  }
}
