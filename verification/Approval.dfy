/**
  The data of internal/skill/approval_gate.go as values: decisions, registered waiters and
  their one-slot channels, and what each critical section of the gate does to them.
 */
module Approval {
  import opened Options

  /** `serial` tells apart deliveries of equal decisions; the gate never looks at it. */
  datatype Decision = Decision(traceID: string, taskID: string, toolCallID: string,
                               approved: bool, reason: string, decidedAtMs: int, serial: nat)

  type Key = string

  /** A registered waiter; the channel is named by the number of the waiting call. */
  datatype Waiter = Waiter(traceID: string, ch: nat)

  /** `chans` holds the slot of every channel made so far. */
  datatype Gate = Gate(pending: map<Key, seq<Decision>>, waiters: map<Key, seq<Waiter>>,
                       chans: map<nat, Option<Decision>>)

  function ApprovalKey(taskID: string, toolCallID: string): Key {
    taskID + ":" + toolCallID
  }

  function KeyOf(d: Decision): Key {
    ApprovalKey(d.taskID, d.toolCallID)
  }

  predicate TraceMatches(expected: string, actual: string) {
    expected == "" || actual == "" || expected == actual
  }

  predicate ValidDecision(d: Decision) {
    d.taskID != "" && d.toolCallID != "" && d.decidedAtMs > 0
  }

  // ----------------------------------------------------------------- the key

  /** Among colon-free task IDs the key determines both IDs. */
  lemma KeyInjective(t1: string, c1: string, t2: string, c2: string)
    requires ':' !in t1 && ':' !in t2
    ensures ApprovalKey(t1, c1) == ApprovalKey(t2, c2) <==> t1 == t2 && c1 == c2
  {
    var k1, k2 := ApprovalKey(t1, c1), ApprovalKey(t2, c2);
    assert k1[|t1|] == ':' && forall j | 0 <= j < |t1| :: k1[j] != ':';
    assert k2[|t2|] == ':' && forall j | 0 <= j < |t2| :: k2[j] != ':';
    if k1 == k2 {
      assert |t1| == |t2|;
      assert k1[..|t1|] == t1 && k2[..|t2|] == t2;
      assert k1[|t1| + 1..] == c1 && k2[|t2| + 1..] == c2;
    }
  }

  /** Without that condition two different calls can share a key. */
  lemma KeyCollision()
    ensures ApprovalKey("a:b", "c") == ApprovalKey("a", "b:c")
  {
    assert "a:b" + ":" + "c" == "a:b:c" == "a" + ":" + "b:c";
  }

  /** The colons at which a key could be cut into two nonempty IDs. */
  predicate CutAt(key: Key, p: nat) {
    0 < p < |key| - 1 && key[p] == ':'
  }

  /**
    A key names one call only, among all calls with nonempty IDs, exactly when its only
    inner colon is the separator.
   */
  lemma KeyUnambiguous(t: string, c: string)
    requires t != "" && c != ""
    ensures (forall t', c' | t' != "" && c' != "" && ApprovalKey(t', c') == ApprovalKey(t, c) :: t' == t && c' == c)
       <==> (forall p: nat :: CutAt(ApprovalKey(t, c), p) ==> p == |t|)
  {
    var key := ApprovalKey(t, c);
    if forall p: nat :: CutAt(key, p) ==> p == |t| {
      forall t', c' | t' != "" && c' != "" && ApprovalKey(t', c') == key
        ensures t' == t && c' == c
      {
        assert key[|t'|] == ':' && CutAt(key, |t'|);
        assert key[..|t|] == t && key[..|t'|] == t';
        assert key[|t| + 1..] == c && key[|t'| + 1..] == c';
      }
    }
    if exists p: nat :: CutAt(key, p) && p != |t| {
      var p: nat :| CutAt(key, p) && p != |t|;
      var t', c' := key[..p], key[p + 1..];
      assert ApprovalKey(t', c') == key;
      assert |t'| != |t|;
    }
  }

  // ------------------------------------------------------- critical sections

  function Entry<T>(m: map<Key, seq<T>>, key: Key): seq<T> {
    if key in m then m[key] else []
  }

  /** Store a list under a key; an empty list deletes the key. */
  function Put<T>(m: map<Key, seq<T>>, key: Key, list: seq<T>): map<Key, seq<T>> {
    if list == [] then m - {key} else m[key := list]
  }

  lemma PutEntry<T>(m: map<Key, seq<T>>, key: Key, list: seq<T>, other: Key)
    ensures Entry(Put(m, key, list), other) == if other == key then list else Entry(m, other)
  {
  }

  /** The position of the earliest decision that `traceID` accepts, or the length. */
  function FirstMatch(traceID: string, ds: seq<Decision>): (i: nat)
    ensures i <= |ds|
    ensures i < |ds| ==> TraceMatches(traceID, ds[i].traceID)
    ensures forall j | 0 <= j < i :: !TraceMatches(traceID, ds[j].traceID)
  {
    if ds == [] then 0
    else if TraceMatches(traceID, ds[0].traceID) then 0
    else
      var rest := FirstMatch(traceID, ds[1..]);
      assert forall j | 1 <= j < |ds| :: ds[j] == ds[1..][j - 1];
      rest + 1
  }

  /**
    takePendingDecision: the earliest match is returned and only what stood before it is
    kept; whatever stood behind it is dropped. Without a match nothing changes.
   */
  function Take(g: Gate, key: Key, traceID: string): (Gate, Option<Decision>) {
    var ds := Entry(g.pending, key);
    var i := FirstMatch(traceID, ds);
    if i == |ds| then (g, None)
    else (g.(pending := Put(g.pending, key, ds[..i])), Some(ds[i]))
  }

  /** The decisions that Take drops. */
  function Dropped(g: Gate, key: Key, traceID: string): seq<Decision> {
    var ds := Entry(g.pending, key);
    var i := FirstMatch(traceID, ds);
    if i == |ds| then [] else ds[i + 1..]
  }

  function AddWaiter(g: Gate, key: Key, w: Waiter): Gate {
    g.(waiters := g.waiters[key := Entry(g.waiters, key) + [w]])
  }

  /** The waiters that do not accept a decision with this trace, in order. */
  function Unmatched(ws: seq<Waiter>, traceID: string): seq<Waiter> {
    if ws == [] then []
    else
      var last := ws[|ws| - 1];
      Unmatched(ws[..|ws| - 1], traceID) + (if TraceMatches(last.traceID, traceID) then [] else [last])
  }

  function Without(ws: seq<Waiter>, ch: nat): seq<Waiter> {
    if ws == [] then []
    else
      var last := ws[|ws| - 1];
      Without(ws[..|ws| - 1], ch) + (if last.ch == ch then [] else [last])
  }

  function RemoveWaiter(g: Gate, key: Key, ch: nat): Gate {
    if Entry(g.waiters, key) == [] then g
    else g.(waiters := Put(g.waiters, key, Without(Entry(g.waiters, key), ch)))
  }

  predicate Sendable(chans: map<nat, Option<Decision>>, ch: nat) {
    ch in chans && chans[ch] == None
  }

  /** The non-blocking sends of routeDecision, in order, and whether any went through. */
  function Send(chans: map<nat, Option<Decision>>, ws: seq<Waiter>, d: Decision)
    : (map<nat, Option<Decision>>, bool)
  {
    if ws == [] then (chans, false)
    else
      var last := ws[|ws| - 1];
      var (cs, delivered) := Send(chans, ws[..|ws| - 1], d);
      if TraceMatches(last.traceID, d.traceID) && Sendable(cs, last.ch)
      then (cs[last.ch := Some(d)], true)
      else (cs, delivered)
  }

  function Route(g: Gate, d: Decision): Gate {
    var key := KeyOf(d);
    var ws := Entry(g.waiters, key);
    if ws == [] then g.(pending := g.pending[key := Entry(g.pending, key) + [d]])
    else
      var (chans, delivered) := Send(g.chans, ws, d);
      var g' := g.(waiters := Put(g.waiters, key, Unmatched(ws, d.traceID)), chans := chans);
      if delivered then g' else g'.(pending := g.pending[key := Entry(g.pending, key) + [d]])
  }

  // -------------------------------------------------- what the sections mean

  ghost predicate Accepts(w: Waiter, d: Decision) {
    TraceMatches(w.traceID, d.traceID)
  }

  lemma {:induction false} UnmatchedIs(ws: seq<Waiter>, traceID: string)
    ensures forall w :: w in Unmatched(ws, traceID) <==> w in ws && !TraceMatches(w.traceID, traceID)
    ensures |Unmatched(ws, traceID)| <= |ws|
  {
    if ws != [] {
      assert ws == ws[..|ws| - 1] + [ws[|ws| - 1]];
      UnmatchedIs(ws[..|ws| - 1], traceID);
    }
  }

  lemma {:induction false} WithoutIs(ws: seq<Waiter>, ch: nat)
    ensures forall w :: w in Without(ws, ch) <==> w in ws && w.ch != ch
    ensures |Without(ws, ch)| <= |ws|
  {
    if ws != [] {
      assert ws == ws[..|ws| - 1] + [ws[|ws| - 1]];
      WithoutIs(ws[..|ws| - 1], ch);
    }
  }

  /** The waiters use different channels, and every one of these is empty. */
  ghost predicate AllEmpty(chans: map<nat, Option<Decision>>, ws: seq<Waiter>) {
    && (forall i, j :: 0 <= i < j < |ws| ==> ws[i].ch != ws[j].ch)
    && forall w | w in ws :: Sendable(chans, w.ch)
  }

  ghost predicate Taken(ws: seq<Waiter>, d: Decision, ch: nat) {
    exists w :: w in ws && w.ch == ch && Accepts(w, d)
  }

  lemma {:induction false} SendAt(chans: map<nat, Option<Decision>>, ws: seq<Waiter>, d: Decision, ch: nat)
    requires AllEmpty(chans, ws)
    ensures Send(chans, ws, d).0.Keys == chans.Keys
    ensures ch in chans ==> Send(chans, ws, d).0[ch] == if Taken(ws, d, ch) then Some(d) else chans[ch]
    ensures Send(chans, ws, d).1 <==> exists w :: w in ws && Accepts(w, d)
  {
    if ws != [] {
      var front, last := ws[..|ws| - 1], ws[|ws| - 1];
      assert ws == front + [last];
      TakenSnoc(chans, front, last, d, ch);
      SendAt(chans, front, d, ch);
      SendAt(chans, front, d, last.ch);
    }
  }

  lemma TakenSnoc(chans: map<nat, Option<Decision>>, front: seq<Waiter>, last: Waiter, d: Decision, ch: nat)
    requires AllEmpty(chans, front + [last])
    ensures AllEmpty(chans, front) && Sendable(chans, last.ch) && !Taken(front, d, last.ch)
    ensures Taken(front + [last], d, ch) <==> Taken(front, d, ch) || (last.ch == ch && Accepts(last, d))
    ensures (exists w :: w in front + [last] && Accepts(w, d)) <==> (exists w :: w in front && Accepts(w, d)) || Accepts(last, d)
  {
    var ws := front + [last];
    assert forall w :: w in ws <==> w in front || w == last;
    assert forall i | 0 <= i < |front| :: ws[i] == front[i] && ws[|front|] == last;
  }

  /** When registered channels are empty, every matching waiter gets the decision. */
  lemma SendIs(chans: map<nat, Option<Decision>>, ws: seq<Waiter>, d: Decision)
    requires AllEmpty(chans, ws)
    ensures Send(chans, ws, d).0.Keys == chans.Keys
    ensures forall w | w in ws && Accepts(w, d) :: Send(chans, ws, d).0[w.ch] == Some(d)
    ensures forall c | c in chans && !Taken(ws, d, c) :: Send(chans, ws, d).0[c] == chans[c]
    ensures Send(chans, ws, d).1 <==> exists w :: w in ws && Accepts(w, d)
  {
    SendAt(chans, ws, d, 0);
    forall c | c in chans {
      SendAt(chans, ws, d, c);
    }
    assert forall w | w in ws && Accepts(w, d) :: w.ch in chans && Taken(ws, d, w.ch);
  }

  /** The state in which routeDecision finds the gate: registered means empty-handed. */
  ghost predicate Quiescent(g: Gate, key: Key) {
    AllEmpty(g.chans, Entry(g.waiters, key))
  }

  /**
    Where a routed decision goes. Either some waiter of its key accepts it, and then all of
    those get it, leave the list, and it is not buffered; or nobody does, and it is appended
    to the buffer once and no channel changes. Other keys are untouched either way.
   */
  ghost predicate Routes(g: Gate, d: Decision, g': Gate) {
    var key, ws := KeyOf(d), Entry(g.waiters, KeyOf(d));
    && g'.chans.Keys == g.chans.Keys
    && (forall w | w in ws && Accepts(w, d) :: w.ch in g'.chans && g'.chans[w.ch] == Some(d))
    && (forall c | c in g.chans && !Taken(ws, d, c) :: g'.chans[c] == g.chans[c])
    && (forall w :: w in Entry(g'.waiters, key) <==> w in ws && !Accepts(w, d))
    && Entry(g'.pending, key) == Entry(g.pending, key) +
         (if exists w :: w in ws && Accepts(w, d) then [] else [d])
    && (forall k | k != key ::
          && Entry(g'.pending, k) == Entry(g.pending, k)
          && Entry(g'.waiters, k) == Entry(g.waiters, k))
  }

  lemma RouteElsewhere(g: Gate, d: Decision, k: Key)
    requires k != KeyOf(d)
    ensures Entry(Route(g, d).pending, k) == Entry(g.pending, k)
    ensures Entry(Route(g, d).waiters, k) == Entry(g.waiters, k)
  {
  }

  /** The entries of the decision's own key. */
  lemma RouteHere(g: Gate, d: Decision)
    ensures var key, ws := KeyOf(d), Entry(g.waiters, KeyOf(d));
            && Entry(Route(g, d).waiters, key) == Unmatched(ws, d.traceID)
            && Entry(Route(g, d).pending, key) == Entry(g.pending, key) + (if Send(g.chans, ws, d).1 then [] else [d])
            && Route(g, d).chans == Send(g.chans, ws, d).0
  {
    var ws := Entry(g.waiters, KeyOf(d));
    PutEntry(g.waiters, KeyOf(d), Unmatched(ws, d.traceID), KeyOf(d));
  }

  lemma RouteIs(g: Gate, d: Decision)
    requires Quiescent(g, KeyOf(d))
    ensures Routes(g, d, Route(g, d))
  {
    var ws := Entry(g.waiters, KeyOf(d));
    SendIs(g.chans, ws, d);
    UnmatchedIs(ws, d.traceID);
    RouteHere(g, d);
    forall k | k != KeyOf(d) {
      RouteElsewhere(g, d, k);
    }
  }

  /** None of the first `n` decisions is accepted. */
  predicate NoneAccepted(traceID: string, ds: seq<Decision>, n: nat)
    requires n <= |ds|
  {
    forall j | 0 <= j < n :: !TraceMatches(traceID, ds[j].traceID)
  }

  /**
    What takePendingDecision does to a buffer. It finds a decision exactly when one is
    accepted; then the earliest is returned, what stood before it stays and what stood behind
    it is dropped. It takes away exactly one decision if and only if none but the last of the
    buffer is accepted. Other keys are untouched.
   */
  lemma TakeSplits(g: Gate, key: Key, traceID: string)
    ensures var (g', r) := Take(g, key, traceID);
            var before, after := Entry(g.pending, key), Entry(g'.pending, key);
            && (r.None? <==> NoneAccepted(traceID, before, |before|))
            && (r.None? ==> g' == g && Dropped(g, key, traceID) == [])
            && (r.Some? ==>
                  && before == after + [r.value] + Dropped(g, key, traceID)
                  && TraceMatches(traceID, r.value.traceID) && NoneAccepted(traceID, after, |after|)
                  && (|after| == |before| - 1 <==> NoneAccepted(traceID, before, |before| - 1)))
            && forall k | k != key :: Entry(g'.pending, k) == Entry(g.pending, k)
  {
    var ds := Entry(g.pending, key);
    var i := FirstMatch(traceID, ds);
    forall k {
      PutEntry(g.pending, key, ds[..i], k);
    }
    if i < |ds| {
      assert ds == ds[..i] + [ds[i]] + ds[i + 1..];
    }
  }

  // ------------------------------------------------------------- by trace IDs

  /**
    Who gets a routed decision, told by the trace IDs: every waiter of its key unless both
    traces are given and differ. If all waiters are such strangers it is buffered instead.
   */
  lemma RoutedByTrace(g: Gate, d: Decision)
    requires Quiescent(g, KeyOf(d))
    ensures var key := d.taskID + ":" + d.toolCallID;
            var ws, g' := Entry(g.waiters, key), Route(g, d);
            && (forall w | w in ws && (w.traceID == "" || d.traceID == "" || w.traceID == d.traceID) ::
                  w.ch in g'.chans && g'.chans[w.ch] == Some(d) && w !in Entry(g'.waiters, key))
            && (forall w | w in ws && w.traceID != "" && d.traceID != "" && w.traceID != d.traceID ::
                  w.ch in g'.chans && g'.chans[w.ch] == None && w in Entry(g'.waiters, key))
            && Entry(g'.pending, key) == Entry(g.pending, key) +
                 if forall w | w in ws :: w.traceID != "" && d.traceID != "" && w.traceID != d.traceID then [d] else []
  {
    RouteIs(g, d);
    var ws := Entry(g.waiters, KeyOf(d));
    forall w | w in ws && w.traceID != "" && d.traceID != "" && w.traceID != d.traceID
      ensures !Taken(ws, d, w.ch)
    {
      NotTaken(ws, d, w);
    }
  }

  /** Channels are distinct, so a waiter that does not accept is not served by accident. */
  lemma NotTaken(ws: seq<Waiter>, d: Decision, w: Waiter)
    requires forall i, j :: 0 <= i < j < |ws| ==> ws[i].ch != ws[j].ch
    requires w in ws && !Accepts(w, d)
    ensures !Taken(ws, d, w.ch)
  {
    forall v | v in ws && v.ch == w.ch
      ensures v == w
    {
      var i :| 0 <= i < |ws| && ws[i] == v;
      var j :| 0 <= j < |ws| && ws[j] == w;
    }
  }

  /**
    What is taken from the buffer, told by the trace IDs: the first decision whose trace is not
    given, is that of the request, or is any if the request gives none. Strangers stay.
   */
  lemma TakenByTrace(g: Gate, key: Key, traceID: string)
    ensures var (g', r) := Take(g, key, traceID);
            var before, after := Entry(g.pending, key), Entry(g'.pending, key);
            && (r == None <==> forall d | d in before :: traceID != "" && d.traceID != "" && d.traceID != traceID)
            && (r == None ==> after == before)
            && (r.Some? ==>
                  && after + [r.value] <= before
                  && (traceID == "" || r.value.traceID == "" || r.value.traceID == traceID)
                  && forall d | d in after :: traceID != "" && d.traceID != "" && d.traceID != traceID)
  {
    TakeSplits(g, key, traceID);
  }
}
