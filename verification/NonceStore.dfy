/**
  The expiring nonce store of internal/skill/webhook_auth.go. It forgets expired nonces on
  every call. `now` is the monotonic reading that time.Now carries and After compares, so the
  readings of a process never go back; the store itself is described for any readings.
 */
module NonceStore {
  /** A call of CheckAndSet at clock reading `now`. */
  datatype Call = Call(nonce: string, ttl: int, now: int)

  /** A nonce that was admitted, the last moment at which it still counts, and by which call. */
  datatype Admission = Admission(nonce: string, expires: int, call: nat)

  /** One call on the store: drop what has expired, then look, then insert. */
  function Check(nonces: map<string, int>, c: Call): (map<string, int>, bool) {
    var live := map k | k in nonces && c.now <= nonces[k] :: nonces[k];
    if c.nonce in live then (live, false) else (live[c.nonce := c.now + c.ttl], true)
  }

  class InMemNonceStore {
    var nonces: map<string, int>

    constructor ()
      ensures nonces == map[]
    {
      nonces := map[];
    }

    method CheckAndSet(nonce: string, ttl: int, now: int) returns (ok: bool)
      modifies this
      ensures (nonces, ok) == Check(old(nonces), Call(nonce, ttl, now))
    {
      var rest := nonces.Keys;
      while rest != {}
        invariant rest <= old(nonces).Keys
        invariant nonces == map k | k in old(nonces) && (k in rest || now <= old(nonces)[k]) :: old(nonces)[k]
      {
        var k :| k in rest;
        if now > nonces[k] {
          nonces := nonces - {k};
        }
        rest := rest - {k};
      }
      assert nonces == map k | k in old(nonces) && now <= old(nonces)[k] :: old(nonces)[k];
      if nonce in nonces {
        return false;
      }
      nonces := nonces[nonce := now + ttl];
      return true;
    }
  }

  // ------------------------------------------------------------- whole runs

  /** The store and its answers after a list of calls. */
  function Pruning(calls: seq<Call>): (map<string, int>, seq<bool>) {
    if calls == [] then (map[], [])
    else
      var (nonces, answers) := Pruning(calls[..|calls| - 1]);
      var (nonces', ok) := Check(nonces, calls[|calls| - 1]);
      (nonces', answers + [ok])
  }

  predicate Counts(a: Admission, nonce: string, now: int) {
    a.nonce == nonce && now <= a.expires
  }

  /** Some admission of the nonce is still within its time to live. */
  ghost predicate StillCounts(history: seq<Admission>, nonce: string, now: int) {
    exists a :: a in history && Counts(a, nonce, now)
  }

  /** The reference store keeps every admission for ever. */
  ghost function Remembering(calls: seq<Call>): (seq<Admission>, seq<bool>) {
    if calls == [] then ([], [])
    else
      var n := |calls| - 1;
      var (history, answers) := Remembering(calls[..n]);
      var c := calls[n];
      if StillCounts(history, c.nonce, c.now) then (history, answers + [false])
      else (history + [Admission(c.nonce, c.now + c.ttl, n)], answers + [true])
  }

  /** No reading after the admission was beyond its expiry, so no call has pruned it. */
  ghost predicate Unpruned(a: Admission, calls: seq<Call>) {
    forall m | a.call < m < |calls| :: calls[m].now <= a.expires
  }

  /** If an admission counts for the last of these calls, one does that no reading has pruned. */
  ghost predicate Covered(calls: seq<Call>)
    requires calls != []
  {
    var before, c := calls[..|calls| - 1], calls[|calls| - 1];
    var history := Remembering(before).0;
    StillCounts(history, c.nonce, c.now) ==>
      exists a :: a in history && Counts(a, c.nonce, c.now) && Unpruned(a, before)
  }

  ghost predicate AllCovered(calls: seq<Call>) {
    forall n | 0 < n <= |calls| :: Covered(calls[..n])
  }

  /** An unpruned admission of the nonce has this expiry. */
  ghost predicate Backed(nonce: string, expires: int, history: seq<Admission>, calls: seq<Call>) {
    exists a :: a in history && a.nonce == nonce && a.expires == expires && Unpruned(a, calls)
  }

  /** The store holds exactly the admissions that no call has pruned. */
  ghost predicate HoldsUnpruned(nonces: map<string, int>, history: seq<Admission>, calls: seq<Call>) {
    && (forall a | a in history :: a.call < |calls|)
    && (forall a | a in history && Unpruned(a, calls) :: a.nonce in nonces && nonces[a.nonce] == a.expires)
    && (forall k | k in nonces :: Backed(k, nonces[k], history, calls))
  }

  lemma UnprunedSnoc(a: Admission, calls: seq<Call>, c: Call)
    requires a.call < |calls|
    ensures Unpruned(a, calls + [c]) <==> Unpruned(a, calls) && c.now <= a.expires
  {
    assert (calls + [c])[|calls|] == c;
    if Unpruned(a, calls + [c]) {
      assert forall m | a.call < m < |calls| :: (calls + [c])[m] == calls[m];
    }
  }

  /** A call is answered by the admissions that no call has pruned. */
  lemma AnswerIs(nonces: map<string, int>, history: seq<Admission>, calls: seq<Call>, c: Call)
    requires HoldsUnpruned(nonces, history, calls)
    ensures Check(nonces, c).1 <==> !exists a :: a in history && Counts(a, c.nonce, c.now) && Unpruned(a, calls)
  {
  }

  /** An entry that survives the pruning of a call is backed as before. */
  lemma StaysBacked(nonce: string, expires: int, history: seq<Admission>, calls: seq<Call>, c: Call, more: seq<Admission>)
    requires Backed(nonce, expires, history, calls) && c.now <= expires && forall a | a in history :: a.call < |calls|
    ensures Backed(nonce, expires, history + more, calls + [c])
  {
    var a :| a in history && a.nonce == nonce && a.expires == expires && Unpruned(a, calls);
    UnprunedSnoc(a, calls, c);
    assert a in history + more;
  }

  /** A call that both stores refuse only prunes. */
  lemma RefusedHeld(nonces: map<string, int>, history: seq<Admission>, calls: seq<Call>, c: Call)
    requires HoldsUnpruned(nonces, history, calls) && !Check(nonces, c).1
    ensures HoldsUnpruned(Check(nonces, c).0, history, calls + [c])
  {
    var live := Check(nonces, c).0;
    forall a | a in history {
      UnprunedSnoc(a, calls, c);
    }
    assert history + [] == history;
    forall k | k in live
      ensures Backed(k, live[k], history, calls + [c])
    {
      StaysBacked(k, nonces[k], history, calls, c, []);
    }
  }

  /** A call that both stores admit prunes, and records one admission in both. */
  lemma AdmittedHeld(nonces: map<string, int>, history: seq<Admission>, calls: seq<Call>, c: Call)
    requires HoldsUnpruned(nonces, history, calls) && Check(nonces, c).1 && !StillCounts(history, c.nonce, c.now)
    ensures HoldsUnpruned(Check(nonces, c).0, history + [Admission(c.nonce, c.now + c.ttl, |calls|)], calls + [c])
  {
    var nonces', entry := Check(nonces, c).0, Admission(c.nonce, c.now + c.ttl, |calls|);
    forall a | a in history + [entry] && Unpruned(a, calls + [c])
      ensures a.nonce in nonces' && nonces'[a.nonce] == a.expires
    {
      if a in history {
        UnprunedSnoc(a, calls, c);
        assert !Counts(a, c.nonce, c.now);
      }
    }
    assert entry in history + [entry] && Unpruned(entry, calls + [c]);
    forall k | k in nonces'
      ensures Backed(k, nonces'[k], history + [entry], calls + [c])
    {
      if k != c.nonce {
        StaysBacked(k, nonces[k], history, calls, c, [entry]);
      }
    }
  }

  lemma CoveredSnoc(calls: seq<Call>, front: seq<Call>, c: Call)
    requires calls == front + [c]
    ensures AllCovered(calls) <==> AllCovered(front) && Covered(calls)
  {
    assert calls[..|calls|] == calls;
    assert forall n | 0 < n <= |front| :: calls[..n] == front[..n];
  }

  lemma SameSnoc(a: seq<bool>, x: bool, b: seq<bool>, y: bool)
    requires |a| == |b|
    ensures a + [x] == b + [y] <==> a == b && x == y
  {
    assert (a + [x])[|a|] == x && (b + [y])[|b|] == y;
    assert (a + [x])[..|a|] == a && (b + [y])[..|b|] == b;
  }

  /** The last call, when the stores agree up to it. */
  lemma LastCall(calls: seq<Call>, front: seq<Call>, c: Call)
    requires calls == front + [c] && HoldsUnpruned(Pruning(front).0, Remembering(front).0, front)
    ensures Check(Pruning(front).0, c).1 == !StillCounts(Remembering(front).0, c.nonce, c.now) <==> Covered(calls)
    ensures Covered(calls) ==> HoldsUnpruned(Pruning(calls).0, Remembering(calls).0, calls)
  {
    var nonces, history := Pruning(front).0, Remembering(front).0;
    assert calls[..|calls| - 1] == front;
    AnswerIs(nonces, history, front, c);
    if Covered(calls) {
      if Check(nonces, c).1 {
        AdmittedHeld(nonces, history, front, c);
      } else {
        RefusedHeld(nonces, history, front, c);
      }
    }
  }

  lemma AnswersSnoc(calls: seq<Call>, front: seq<Call>, c: Call)
    requires calls == front + [c]
    ensures Pruning(calls).1 == Pruning(front).1 + [Check(Pruning(front).0, c).1]
    ensures Remembering(calls).1 == Remembering(front).1 + [!StillCounts(Remembering(front).0, c.nonce, c.now)]
  {
    assert calls[..|calls| - 1] == front;
  }

  lemma {:induction false} AnswersMatch(calls: seq<Call>)
    ensures |Pruning(calls).1| == |Remembering(calls).1| == |calls|
    ensures Pruning(calls).1 == Remembering(calls).1 <==> AllCovered(calls)
    ensures AllCovered(calls) ==> HoldsUnpruned(Pruning(calls).0, Remembering(calls).0, calls)
  {
    if calls != [] {
      var front, c := calls[..|calls| - 1], calls[|calls| - 1];
      assert calls == front + [c];
      AnswersMatch(front);
      AnswersSnoc(calls, front, c);
      CoveredSnoc(calls, front, c);
      SameSnoc(Pruning(front).1, Check(Pruning(front).0, c).1,
               Remembering(front).1, !StillCounts(Remembering(front).0, c.nonce, c.now));
      if AllCovered(front) {
        LastCall(calls, front, c);
      }
    }
  }

  /**
    For all readings: the pruning store answers like one that forgets nothing if and only if,
    whenever an admission of a nonce still counts, one of them has not been followed by a
    reading beyond its expiry.
   */
  lemma PruningInvisibleIff(calls: seq<Call>)
    ensures Pruning(calls).1 == Remembering(calls).1 <==> AllCovered(calls)
  {
    AnswersMatch(calls);
  }

  /** A reading that no earlier one exceeds finds every admission that counts unpruned. */
  lemma ForwardCovered(calls: seq<Call>)
    requires calls != [] && forall m | 0 <= m < |calls| :: calls[m].now <= calls[|calls| - 1].now
    ensures Covered(calls)
  {
    var before, c := calls[..|calls| - 1], calls[|calls| - 1];
    forall a | a in Remembering(before).0 && Counts(a, c.nonce, c.now)
      ensures Unpruned(a, before)
    {
      assert forall m | 0 <= m < |before| :: before[m] == calls[m];
    }
  }

  lemma {:induction false} LastReading(calls: seq<Call>, m: nat)
    requires m < |calls| && forall i | 0 < i < |calls| :: calls[i - 1].now <= calls[i].now
    ensures calls[m].now <= calls[|calls| - 1].now
    decreases |calls| - m
  {
    if m < |calls| - 1 {
      assert calls[m + 1 - 1].now <= calls[m + 1].now;
      LastReading(calls, m + 1);
    }
  }

  lemma {:induction false} AllForward(calls: seq<Call>)
    requires forall i | 0 < i < |calls| :: calls[i - 1].now <= calls[i].now
    ensures AllCovered(calls)
  {
    if calls != [] {
      var front, c := calls[..|calls| - 1], calls[|calls| - 1];
      AllForward(front);
      forall m | 0 <= m < |calls| {
        LastReading(calls, m);
      }
      ForwardCovered(calls);
      CoveredSnoc(calls, front, c);
    }
  }

  /**
    Over every run, since no reading is behind the one before it: a nonce is admitted if and
    only if no earlier admission of it still counts.
   */
  lemma PruningIsInvisible(calls: seq<Call>)
    requires forall i | 0 < i < |calls| :: calls[i - 1].now <= calls[i].now
    ensures Pruning(calls).1 == Remembering(calls).1
  {
    AllForward(calls);
    AnswersMatch(calls);
  }
}
