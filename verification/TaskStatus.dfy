/**
  The status vocabulary shared by the runtime and the task store: internal/memory/task_status.go,
  classifyTerminalError of runtime_loop.go and the two helpers of chat_completions_handler.go.
 */
module TaskStatuses {
  import opened Fanouts
  import opened Text

  /** An error value: its text, and what errors.Is finds in its chain. */
  datatype RunError = RunError(msg: string, canceled: bool, deadline: bool)

  datatype FinalResult = FinalResult(content: string, status: string)

  const Known: set<string> := {"pending", "running", "success", "failed", "rejected", "timeout", "cancelled"}

  function NormalizeTaskStatus(status: string): string {
    var normalized := ToLower(TrimSpace(status));
    if normalized in Known then normalized else "failed"
  }

  predicate IsTerminalTaskStatus(status: string) {
    var n := NormalizeTaskStatus(status);
    n != "pending" && n != "running"
  }

  predicate IsSuccessfulTaskStatus(status: string) {
    NormalizeTaskStatus(status) == "success"
  }

  function ClassifyTerminalError(err: RunError): (string, Event) {
    var lower := ToLower(err.msg);
    if err.canceled then ("cancelled", Cancelled)
    else if err.deadline then ("timeout", Timeout)
    else if Contains(lower, "exceeded max turns") then ("failed", Error)
    else if Contains(lower, "approval gate required") then ("failed", Error)
    else if Contains(lower, "timeout") then ("timeout", Timeout)
    else ("error", Error)
  }

  function TaskStatusForError(err: RunError): string {
    var lower := ToLower(err.msg);
    if err.canceled then "cancelled"
    else if err.deadline then "timeout"
    else if Contains(lower, "approval rejected") then "rejected"
    else if Contains(lower, "timeout") then "timeout"
    else "failed"
  }

  function TaskStatusForResult(result: FinalResult, err: RunError): string {
    if result.status != "" then NormalizeTaskStatus(result.status) else TaskStatusForError(err)
  }

  // ------------------------------------------------------------- properties

  predicate Letters(word: string) {
    forall i | 0 <= i < |word| :: 'a' <= word[i] <= 'z'
  }

  lemma LoweredFixed(word: string)
    requires Letters(word)
    ensures ToLower(TrimSpace(word)) == word
  {
    TrimmedFixed(word);
  }

  /** Every known status is left alone, and the result is always a known status. */
  lemma NormalizeIsProjection(status: string)
    ensures NormalizeTaskStatus(status) in Known
    ensures status in Known ==> NormalizeTaskStatus(status) == status
    ensures NormalizeTaskStatus(NormalizeTaskStatus(status)) == NormalizeTaskStatus(status)
    ensures status == "error" ==> NormalizeTaskStatus(status) == "failed"
  {
    KnownLowered();
    LoweredFixed(NormalizeTaskStatus(status));
    if status in Known || status == "error" {
      LoweredFixed(status);
    }
  }

  lemma KnownLowered()
    ensures forall w | w in Known :: Letters(w)
    ensures Letters("error")
  {
    assert Letters("pending") && Letters("running") && Letters("success") && Letters("failed");
    assert Letters("rejected") && Letters("timeout") && Letters("cancelled");
  }

  /** The timeout of the approval gate ends the task as a timeout, not as an error. */
  lemma ApprovalTimeoutIsTimeout()
    ensures ClassifyTerminalError(RunError("approval timeout", false, false)) == ("timeout", Timeout)
  {
    var msg := "approval timeout";
    assert ToLower(msg) == msg by {
      assert forall i | 0 <= i < |msg| :: msg[i] in msg;
      assert forall c | c in msg :: LowerChar(c) == c;
    }
    assert msg[9..16] == "timeout";
    assert WordAt(msg, "timeout", 9);
  }

  /** What the handler stores: success without an error, otherwise the status of the result. */
  function Persisted(result: FinalResult, err: RunError, failed: bool): string {
    if failed then TaskStatusForResult(result, err) else "success"
  }

  /** The last published event and the returned result tell the same story. */
  ghost predicate Agrees(last: Event, result: FinalResult, failed: bool) {
    match last
    case Final => !failed && result.status == "success"
    case Timeout => failed && result.status == "timeout"
    case Cancelled => failed && result.status == "cancelled"
    case Error => failed && result.status in {"failed", "error", "rejected"}
    case _ => false
  }

  /** On the runtime path the stored status and the last event determine each other. */
  lemma StoredStatusMatchesStream(last: Event, result: FinalResult, err: RunError, failed: bool)
    requires Agrees(last, result, failed)
    ensures last == Final <==> Persisted(result, err, failed) == "success"
    ensures last == Timeout <==> Persisted(result, err, failed) == "timeout"
    ensures last == Cancelled <==> Persisted(result, err, failed) == "cancelled"
    ensures last == Error <==> Persisted(result, err, failed) in {"failed", "rejected"}
    ensures Persisted(result, err, failed) == "rejected" <==> failed && result.status == "rejected"
    ensures IsTerminalTaskStatus(Persisted(result, err, failed))
  {
    NormalizeIsProjection(result.status);
    NormalizeIsProjection(Persisted(result, err, failed));
  }

  // --------------------------------------------------------- by words and letters

  /** The class of a terminal error, by what it wraps and by the words in its text. */
  lemma ClassifiedByWords(err: RunError)
    ensures ClassifyTerminalError(err) ==
            if err.canceled then ("cancelled", Cancelled)
            else if err.deadline then ("timeout", Timeout)
            else if Says(err.msg, "exceeded max turns") || Says(err.msg, "approval gate required") then ("failed", Error)
            else if Says(err.msg, "timeout") then ("timeout", Timeout)
            else ("error", Error)
  {
    SaysIs(err.msg, "exceeded max turns");
    SaysIs(err.msg, "approval gate required");
    SaysIs(err.msg, "timeout");
  }

  /** The stored status of an error that came without a result. */
  lemma StatusByWords(err: RunError)
    ensures TaskStatusForResult(FinalResult("", ""), err) ==
            if err.canceled then "cancelled"
            else if err.deadline then "timeout"
            else if Says(err.msg, "approval rejected") then "rejected"
            else if Says(err.msg, "timeout") then "timeout"
            else "failed"
  {
    SaysIs(err.msg, "approval rejected");
    SaysIs(err.msg, "timeout");
  }

  /** The status is the word in any case, between white space. */
  ghost predicate Spells(status: string, word: string) {
    exists a, w, b :: AllSpace(a) && AllSpace(b) && status == a + w + b && |w| == |word| && ReadsAt(w, word, 0)
  }

  lemma SpellsIs(status: string, word: string)
    requires Letters(word) && word != ""
    ensures ToLower(TrimSpace(status)) == word <==> Spells(status, word)
  {
    var t := TrimSpace(status);
    TrimSpaceIs(status, t);
    if ToLower(t) == word {
      LowerIs(t, word);
      var a, b :| AllSpace(a) && AllSpace(b) && status == a + t + b;
      assert ReadsAt(t, word, 0);
    }
    if Spells(status, word) {
      var a, w, b :| AllSpace(a) && AllSpace(b) && status == a + w + b && |w| == |word| && ReadsAt(w, word, 0);
      assert Reads(w[0 + 0], word[0]) && Reads(w[0 + (|w| - 1)], word[|w| - 1]);
      TrimSpaceIs(status, w);
      LowerIs(w, word);
    }
  }

  lemma LowerIs(w: string, word: string)
    requires Letters(word)
    ensures ToLower(w) == word <==> |w| == |word| && ReadsAt(w, word, 0)
  {
    if |w| == |word| {
      forall k | 0 <= k < |word| {
        LowerReads(w[k], word[k]);
      }
      assert ToLower(w) == word <==> forall k | 0 <= k < |word| :: LowerChar(w[k]) == word[k];
      assert ReadsAt(w, word, 0) <==> forall k | 0 <= k < |word| :: Reads(w[0 + k], word[k]);
    }
  }

  /** Normalisation: one of six words if the status spells it, and "failed" for everything else. */
  lemma NormalizedIs(status: string, word: string)
    requires word in ["pending", "running", "success", "rejected", "timeout", "cancelled"]
    ensures NormalizeTaskStatus(status) == word <==> Spells(status, word)
    ensures NormalizeTaskStatus(status) in ["pending", "running", "success", "failed", "rejected", "timeout", "cancelled"]
  {
    KnownLowered();
    assert word in Known && word != "failed" && word != "";
    SpellsIs(status, word);
  }

  /** Only the two open states are not terminal, and only one word is success. */
  lemma KindsOfStatus(status: string)
    ensures IsTerminalTaskStatus(status) <==> !Spells(status, "pending") && !Spells(status, "running")
    ensures IsSuccessfulTaskStatus(status) <==> Spells(status, "success")
  {
    NormalizedIs(status, "pending");
    NormalizedIs(status, "running");
    NormalizedIs(status, "success");
  }
}
