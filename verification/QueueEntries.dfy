/** What the journal means for one action: the last event that names a key says where the action
    stands, and each decision has the effect on it that its name promises. */
module QueueEntries {
  import opened Wrappers
  import opened QueueModel
  import opened QueueLaws

  predicate Names(ev: Event, key: string) { !ev.EnqueuedEvent? && ev.key == key }

  predicate NamedAfter(log: seq<Event>, i: nat, key: string) {
    exists j :: i < j < |log| && Names(log[j], key)
  }

  // The same entry, undone or not.
  predicate SameButUndone(e: QueueEntry, e0: QueueEntry) { e == e0.(undoneBy := e.undoneBy) }

  // Nothing but `key` has moved.
  predicate OthersStay(before: ReplayState, after: ReplayState, key: string) {
    && after.order == before.order && after.byKey.Keys == before.byKey.Keys
    && forall k | k in before.byKey && k != key :: after.byKey[k] == before.byKey[k]
  }

  lemma {:induction false} UnnamedStays(log: seq<Event>, n: nat, key: string)
    requires n <= |log| && key in Replay(log[..n]).byKey
    requires forall j | n <= j < |log| :: !Names(log[j], key)
    ensures key in Replay(log).byKey && SameButUndone(Replay(log).byKey[key], Replay(log[..n]).byKey[key])
    decreases |log|
  {
    if n == |log| {
      assert log[..n] == log;
    } else {
      var front, ev := log[..|log| - 1], log[|log| - 1];
      assert front[..n] == log[..n] && log == front + [ev];
      UnnamedStays(front, n, key);
      hide Replay;
      ReplayStep(front, ev);
    }
  }

  /** Where an action stands after `ev`, given where it stood: its state, its attempts, when it may be
      tried next, why it needs a person, and its result. */
  ghost predicate StandsAfter(e0: QueueEntry, ev: Event, e: QueueEntry)
    requires !ev.EnqueuedEvent?
  {
    && e.key == e0.key && e.action == e0.action && e.seqNo == e0.seqNo && e.enqueuedAt == e0.enqueuedAt
    && e.updatedAt == ev.at
    && (e.attempts == if ev.SendingEvent? || ev.RetryingEvent? then ev.attempt else e0.attempts)
    && (e.state == Sending <==> ev.SendingEvent?)
    && (e.state == Retrying <==> ev.RetryingEvent?)
    && (e.state == NeedsAttention <==> ev.AttentionEvent?)
    && (e.state == Queued <==> ev.ResolvedEvent? && ev.resolution == Resend)
    && (ev.RetryingEvent? ==> e.nextAt == Some(ev.nextAt) && e.lastError == Some(ev.error))
    && (e.state == Queued || e.state == Sending || e.state == NeedsAttention ==> e.nextAt == None)
    && (ev.AttentionEvent? ==> e.attention == Some(Attention(ev.reason, ev.message)) && e.lastError == Some(ev.message))
    && (ev.DoneEvent? || ev.ResolvedEvent? ==> e.attention == None)
    && (ev.DoneEvent? ==> e.result == Some(ev.result) && e.lastError == None)
    && (ev.SendingEvent? || ev.RetryingEvent? || ev.AttentionEvent? ==> e.result == e0.result)
    && (ev.ResolvedEvent? && ev.resolution == SentConfirmed ==>
          e.result == Some(Text("confirmed sent by a person: " + ev.note)))
    && (ev.ResolvedEvent? && ev.resolution == Dropped ==>
          e.result == Some(Text("dropped by a person: " + ev.note)))
    && (ev.ResolvedEvent? && ev.resolution == Resend ==> e.result == e0.result)
  }

  lemma TouchStands(e0: QueueEntry, ev: Event)
    requires !ev.EnqueuedEvent?
    ensures StandsAfter(e0, ev, Touch(e0, ev))
  {
  }

  lemma UndoneStands(e0: QueueEntry, ev: Event, e: QueueEntry, e': QueueEntry)
    requires !ev.EnqueuedEvent? && StandsAfter(e0, ev, e) && SameButUndone(e', e)
    ensures StandsAfter(e0, ev, e')
  {
  }

  // What an event that names a queued key does.
  lemma NamedMoves(log: seq<Event>, ev: Event)
    requires !ev.EnqueuedEvent? && ev.key in Replay(log).byKey
    ensures OthersStay(Replay(log), Replay(log + [ev]), ev.key) && ev.key in Replay(log + [ev]).byKey
    ensures StandsAfter(Replay(log).byKey[ev.key], ev, Replay(log + [ev]).byKey[ev.key])
    ensures Replay(log + [ev]).byKey[ev.key].undoneBy == Replay(log).byKey[ev.key].undoneBy
  {
    ReplayStep(log, ev);
    TouchStands(Replay(log).byKey[ev.key], ev);
    hide Replay, StandsAfter;
  }

  /** The last event that names a queued key decides where its action stands. */
  lemma LastEventDecides(log: seq<Event>, i: nat, key: string)
    requires i < |log| && Names(log[i], key) && key in Replay(log[..i]).byKey && !NamedAfter(log, i, key)
    ensures key in Replay(log).byKey && StandsAfter(Replay(log[..i]).byKey[key], log[i], Replay(log).byKey[key])
  {
    hide Replay, StandsAfter, OthersStay, SameButUndone;
    assert log[..i + 1] == log[..i] + [log[i]];
    NamedMoves(log[..i], log[i]);
    UnnamedStays(log, i + 1, key);
    UndoneStands(Replay(log[..i]).byKey[key], log[i], Replay(log[..i + 1]).byKey[key], Replay(log).byKey[key]);
  }

  /** Until an event names it, an action stands as it was first queued. */
  lemma QueuedUntilNamed(log: seq<Event>, i: nat, a: NewAction, at: int)
    requires i < |log| && log[i] == EnqueuedEvent(a, at) && a.Key() !in Replay(log[..i]).byKey
    requires !NamedAfter(log, i, a.Key())
    ensures a.Key() in Replay(log).byKey
    ensures
      var e := Replay(log).byKey[a.Key()];
      && e.key == a.Key() && e.action == a && e.state == Queued && e.attempts == 0 && e.nextAt == None
      && e.lastError == None && e.attention == None && e.result == None
      && e.enqueuedAt == at && e.updatedAt == at && e.seqNo == |Replay(log[..i]).order|
  {
    assert log[..i + 1] == log[..i] + [log[i]];
    ReplayStep(log[..i], log[i]);
    UnnamedStays(log, i + 1, a.Key());
    hide Replay;
  }

  // ── What each decision does ─────────────────────────────────────────────────

  /** Where an action stands once an answer to attempt number `attempt` is recorded: sent is done;
      retryable is tried again after the delay, while attempts are left; a rejection, an unknown outcome
      and exhausted retries each wait for a person. */
  predicate StandsAsAnswered(retry: RetryPolicy, e: QueueEntry, attempt: nat, outcome: ExecOutcome, at: int) {
    && e.attempts == attempt
    && (outcome.Sent? ==> e.state == Done && e.result == Some(outcome.result))
    && (outcome.Retryable? && attempt < retry.maxAttempts ==>
          e.state == Retrying && e.nextAt == Some(at + retry.DelayAfter(attempt) * SECOND))
    && (outcome.Retryable? && attempt >= retry.maxAttempts ==>
          e.state == NeedsAttention && e.attention == Some(Attention(RetriesExhausted, outcome.message)))
    && (outcome.Rejected? ==>
          e.state == NeedsAttention && e.attention == Some(Attention(RejectedOutright, outcome.message)))
    && (outcome.Unknown? ==>
          e.state == NeedsAttention && e.attention == Some(Attention(UnknownOutcome, outcome.message)))
  }

  /** Recording an answer does exactly that, and moves nothing else. */
  lemma AnswerTakesEffect(retry: RetryPolicy, log: seq<Event>, key: string, outcome: ExecOutcome, at: int)
    requires key in Replay(log).byKey
    ensures
      var attempt := Replay(log).byKey[key].attempts;
      var st' := Replay(log + [OutcomeEvent(retry, key, attempt, outcome, at)]);
      && OthersStay(Replay(log), st', key) && key in st'.byKey
      && StandsAsAnswered(retry, st'.byKey[key], attempt, outcome, at)
  {
    hide Replay, OthersStay;
    NamedMoves(log, OutcomeEvent(retry, key, Replay(log).byKey[key].attempts, outcome, at));
  }

  lemma DoubleProduct(base: int, n: nat)
    requires n > 0
    ensures base * Pow2(n) == 2 * (base * Pow2(n - 1))
  {
    var half := Pow2(n - 1);
    assert base * (2 * half) == 2 * (base * half);
  }

  lemma MinOfDouble(x: int, cap: int)
    requires 0 <= x && 0 <= cap
    ensures Min(2 * x, cap) == Min(2 * Min(x, cap), cap)
  {
  }

  lemma DelayIs(p: RetryPolicy, n: nat)
    requires 0 <= p.base <= I64_MAX && 0 <= p.cap <= I64_MAX
    ensures
      var doublings := if n == 0 then 0 else if n <= 21 then n - 1 else 20;
      p.base * Pow2(doublings) >= 0 && p.DelayAfter(n) == Min(p.base * Pow2(doublings), p.cap)
  {
    hide Saturate, Pow2, Min, Shift;
    var doublings := if n == 0 then 0 else if n <= 21 then n - 1 else 20;
    ShiftIs(n);
    NotNegative(p.base, Pow2(doublings));
    SaturationDoesNotMatter(p.base * Pow2(doublings), p.cap);
  }

  lemma ShiftIs(n: nat)
    ensures Shift(n) == if n == 0 then 0 else if n <= 21 then n - 1 else 20
  {
  }

  lemma NotNegative(a: int, b: int)
    requires a >= 0 && b >= 0
    ensures a * b >= 0
  {
  }

  lemma SaturationDoesNotMatter(x: int, cap: int)
    requires 0 <= x && cap <= I64_MAX
    ensures Min(Saturate(x), cap) == Min(x, cap)
  {
  }

  /** Delays double from the base, and stop growing at the cap and after twenty doublings. */
  lemma DelaysDouble(p: RetryPolicy, n: nat)
    requires 0 <= p.base <= I64_MAX && 0 <= p.cap <= I64_MAX
    ensures p.DelayAfter(0) == p.DelayAfter(1) == Min(p.base, p.cap)
    ensures 1 <= n <= 20 ==> p.DelayAfter(n + 1) == Min(2 * p.DelayAfter(n), p.cap)
    ensures n >= 21 ==> p.DelayAfter(n) == p.DelayAfter(21)
  {
    hide *;
    DelayIs(p, 0);
    DelayIs(p, 1);
    DelayIs(p, n);
    DelayIs(p, n + 1);
    DelayIs(p, 21);
    NoDoubling(p.base);
    if 1 <= n <= 20 {
      DoubleProduct(p.base, n);
      MinOfDouble(p.base * Pow2(n - 1), p.cap);
    }
  }

  lemma NoDoubling(base: int)
    ensures base * Pow2(0) == base
  {
  }

  // What a person may decide about.
  predicate WaitsForPerson(st: ReplayState, key: string) { key in st.byKey && st.byKey[key].state == NeedsAttention }

  /** A person's decision is taken exactly when the action needs attention: it is then done as sent or
      as dropped, or queued again; otherwise nothing is written. */
  lemma ResolutionTakesEffect(log: seq<Event>, key: string, resolution: Resolution, note: string, at: int)
    ensures
      var d := ResolveDecision(Replay(log), key, resolution, note, at);
      && (d.Success? <==> WaitsForPerson(Replay(log), key))
      && (d.Failure? ==> d.error == (if key !in Replay(log).byKey then UnknownKey
                                     else NotWaiting(Replay(log).byKey[key].state)))
      && (d.Success? ==>
            var st' := Replay(log + [d.value]);
            && OthersStay(Replay(log), st', key) && key in st'.byKey
            && st'.byKey[key].attention == None && st'.byKey[key].attempts == Replay(log).byKey[key].attempts
            && (st'.byKey[key].state == if resolution == Resend then Queued else Done)
            && (resolution == SentConfirmed ==>
                  st'.byKey[key].result == Some(Text("confirmed sent by a person: " + note)))
            && (resolution == Dropped ==> st'.byKey[key].result == Some(Text("dropped by a person: " + note))))
  {
    var d := ResolveDecision(Replay(log), key, resolution, note, at);
    hide Replay, OthersStay;
    if d.Success? { NamedMoves(log, d.value); }
  }

  /** A claim is made exactly of an action that is queued, or whose next try has come, and that policy
      allows; policy is heeded only then, and a block sends the action to a person. */
  lemma ClaimTakesEffect(log: seq<Event>, key: string, now: int, verdict: PolicyVerdict)
    ensures
      var st := Replay(log);
      var c := ClaimDecision(st, key, now, verdict);
      var log' := log + ClaimEvents(c, key, now, verdict);
      var due := key in st.byKey
        && (st.byKey[key].state == Queued
            || (st.byKey[key].state == Retrying && (st.byKey[key].nextAt.Some? ==> st.byKey[key].nextAt.value <= now)));
      && OthersStay(st, Replay(log'), key)
      && (!due ==> c == Skip && log' == log)
      && (due && verdict.Block? ==>
            && c == Blocked && Replay(log').byKey[key].state == NeedsAttention
            && Replay(log').byKey[key].attention == Some(Attention(PolicyBlocked, verdict.reason)))
      && (due && verdict.Allow? ==>
            && c == Claimed(st.byKey[key], st.byKey[key].attempts + 1)
            && log' == log + [SendingEvent(key, st.byKey[key].attempts + 1, now)]
            && Replay(log').byKey[key].state == Sending
            && Replay(log').byKey[key].attempts == st.byKey[key].attempts + 1)
  {
    hide Replay, OthersStay, StandsAfter;
    var c := ClaimDecision(Replay(log), key, now, verdict);
    if c.Skip? {
      SkippedClaim(log, key, now, verdict);
    } else {
      var ev := if c.Blocked? then AttentionEvent(key, PolicyBlocked, verdict.reason, now) else SendingEvent(key, c.attempt, now);
      assert ClaimEvents(c, key, now, verdict) == [ev];
      MovedBy(log, ev);
    }
  }

  lemma SkippedClaim(log: seq<Event>, key: string, now: int, verdict: PolicyVerdict)
    requires ClaimDecision(Replay(log), key, now, verdict).Skip?
    ensures log + ClaimEvents(Skip, key, now, verdict) == log && OthersStay(Replay(log), Replay(log), key)
  {
  }

  // The two kinds of event a claim writes.
  lemma MovedBy(log: seq<Event>, ev: Event)
    requires (ev.SendingEvent? || ev.AttentionEvent?) && ev.key in Replay(log).byKey
    ensures
      var st' := Replay(log + [ev]);
      && OthersStay(Replay(log), st', ev.key) && ev.key in st'.byKey
      && (ev.SendingEvent? ==> st'.byKey[ev.key].state == Sending && st'.byKey[ev.key].attempts == ev.attempt)
      && (ev.AttentionEvent? ==> st'.byKey[ev.key].state == NeedsAttention
                                 && st'.byKey[ev.key].attention == Some(Attention(ev.reason, ev.message)))
  {
    hide Replay, OthersStay;
    NamedMoves(log, ev);
  }

  /** An undo is accepted exactly for a done compensable action with an undo verb that was not undone
      yet, and refused for the first of these that fails. It runs the recorded verb on the original
      parameters and result, can itself not be undone, and is never ordered. */
  lemma UndoDecidesExactly(st: ReplayState, key: string)
    ensures
      var d := UndoDecision(st, key);
      && (d.Success? <==> key in st.byKey && st.byKey[key].state == Done && st.byKey[key].action.class_ == Compensable
                          && st.byKey[key].action.undo.Some? && st.byKey[key].undoneBy.None?)
      && (d == Failure(UnknownKey) <==> key !in st.byKey)
      && (d.Failure? && key in st.byKey ==>
            var e := st.byKey[key];
            && (d.error.NothingToUndoYet? <==> e.state != Done)
            && (d.error == NotCompensable <==> e.state == Done && e.action.class_ != Compensable)
            && (d.error == NoUndoVerb <==> e.state == Done && e.action.class_ == Compensable && e.action.undo.None?)
            && (d.error.AlreadyUndone? ==> e.undoneBy == Some(d.error.undoKey)))
      && (d.Success? ==>
            var e, a := st.byKey[key], d.value;
            && a.draftId == e.action.draftId && a.actionId == "undo-" + e.action.actionId
            && a.toolName == "ta_external_action:" + e.action.undo.value
            && a.parameters == UndoParameters(key, e.action.parameters, e.result)
            && a.undoOf == Some(key) && a.undo.None? && a.class_ == Irrecoverable && a.idempotency == e.action.idempotency
            && a.attended && !a.ordered)
  {
  }

  /** An undo never waits for its siblings and never makes them wait. */
  lemma UndoNeverWaits(log: seq<Event>, key: string)
    requires key in Replay(log).byKey && Replay(log).byKey[key].action.undoOf.Some?
    ensures GoesAhead(log, key)
    ensures forall k | k in Replay(log).byKey :: !Precedes(Replay(log).byKey[key], Replay(log).byKey[k])
  {
    FreeKeyGoesAhead(log, key);
  }

  // ── Holding back, spelled out ───────────────────────────────────────────────

  // `o` is an open non-undo action of the draft of `e`.
  predicate OpenSibling(o: QueueEntry, e: QueueEntry) {
    o.action.draftId == e.action.draftId && o.action.undoOf.None? && o.state != Done
  }

  /** Whether a non-undo action goes ahead: an ordered one when no earlier sibling is open, an
      unordered irrecoverable one when no sibling of another class is, any other always. */
  lemma GoesAheadExactly(log: seq<Event>, key: string)
    requires key in Replay(log).byKey && Replay(log).byKey[key].action.undoOf.None?
    ensures
      var st := Replay(log);
      var e := st.byKey[key];
      GoesAhead(log, key) <==>
        if e.action.ordered then forall k | k in st.byKey && st.byKey[k].seqNo < e.seqNo :: !OpenSibling(st.byKey[k], e)
        else if e.action.class_ == Irrecoverable then
          forall k | k in st.byKey && st.byKey[k].action.class_ != Irrecoverable :: !OpenSibling(st.byKey[k], e)
        else true
  {
    ReplayWellFormed(log);
    var st := Replay(log);
    HoldGo(st, st.byKey[key]);
    forall k | k in st.byKey ensures st.Placed(k) {}
    hide Replay, Hold;
  }

  // The place of the first entry that an ordered action waits for.
  lemma {:induction false} FirstBlockerAt(entries: seq<QueueEntry>, e: QueueEntry) returns (i: nat)
    requires FirstBlocker(entries, e).Some?
    ensures i < |entries| && FirstBlocker(entries, e) == Some(entries[i])
    ensures Precedes(entries[i], e) && entries[i].state != Done
    ensures forall j | 0 <= j < i :: !(Precedes(entries[j], e) && entries[j].state != Done)
  {
    hide Precedes;
    if Precedes(entries[0], e) && entries[0].state != Done {
      i := 0;
    } else {
      var r := FirstBlockerAt(entries[1..], e);
      i := r + 1;
      assert forall j | 1 <= j < i :: entries[j] == entries[1..][j - 1];
    }
  }

  /** An action that must wait is stopped exactly when it is ordered and the first open sibling before
      it, in queue order, needs a person; otherwise it is held. */
  lemma StoppedExactly(st: ReplayState, e: QueueEntry) returns (i: nat)
    requires st.WellFormed() && Hold(st.Entries(), e) != Go
    ensures i < |st.order| && OpenSibling(st.byKey[st.order[i]], e)
    ensures e.action.undoOf.None?
    ensures e.action.ordered ==> i < e.seqNo && forall j | 0 <= j < i :: !OpenSibling(st.byKey[st.order[j]], e)
    ensures Hold(st.Entries(), e) == Stopped <==> e.action.ordered && st.byKey[st.order[i]].state == NeedsAttention
  {
    i := FirstBlockerAt(st.Entries(), e);
    assert st.Entries()[i] == st.byKey[st.order[i]] && st.byKey[st.order[i]].seqNo == i;
    forall j | 0 <= j < i && e.action.ordered ensures !OpenSibling(st.byKey[st.order[j]], e) {
      assert st.Entries()[j] == st.byKey[st.order[j]] && st.byKey[st.order[j]].seqNo == j;
    }
  }

  // ── Startup recovery ────────────────────────────────────────────────────────

  ghost predicate SendingAmong(entries: seq<QueueEntry>, key: string) {
    exists i :: 0 <= i < |entries| && entries[i].state == Sending && entries[i].key == key
  }

  ghost predicate TargetedBy(evs: seq<Event>, key: string) { exists j :: 0 <= j < |evs| && evs[j].Target() == key }

  lemma SendingAmongRest(entries: seq<QueueEntry>, key: string)
    requires entries != []
    ensures SendingAmong(entries, key)
       <==> (entries[0].state == Sending && entries[0].key == key) || SendingAmong(entries[1..], key)
  {
    assert forall i | 1 <= i < |entries| :: entries[i] == entries[1..][i - 1];
    assert forall i | 0 <= i < |entries| - 1 :: entries[1..][i] == entries[i + 1];
  }

  lemma TargetedByParts(a: seq<Event>, b: seq<Event>, key: string)
    ensures TargetedBy(a + b, key) <==> TargetedBy(a, key) || TargetedBy(b, key)
  {
    assert forall i | 0 <= i < |a| :: (a + b)[i] == a[i];
    assert forall i | 0 <= i < |b| :: (a + b)[i + |a|] == b[i];
    assert forall i | |a| <= i < |a + b| :: (a + b)[i] == b[i - |a|];
  }

  lemma {:induction false} ReportsExactly(entries: seq<QueueEntry>, at: int, key: string)
    ensures TargetedBy(RecoverEvents(entries, at), key) <==> SendingAmong(entries, key)
  {
    if entries != [] {
      ReportsExactly(entries[1..], at, key);
      SendingAmongRest(entries, key);
      TargetedByParts(InFlightEvent(entries[0], at), RecoverEvents(entries[1..], at), key);
      hide SendingAmong;
      var first := InFlightEvent(entries[0], at);
      assert first != [] ==> first[0].Target() == entries[0].key;
    }
  }

  /** After startup recovery no action is left as sending: each that was needs a person, because its
      outcome is unknown, and no other has moved. */
  lemma RecoveryReportsExactly(log: seq<Event>, at: int, key: string)
    requires key in Replay(log).byKey && Replay(log).WellFormed()
    ensures
      var st := Replay(log);
      var log' := log + RecoverEvents(st.Entries(), at);
      && key in Replay(log').byKey
      && (if st.byKey[key].state == Sending then
            && Replay(log').byKey[key].state == NeedsAttention && Replay(log').byKey[key].attempts == st.byKey[key].attempts
            && Replay(log').byKey[key].attention == Some(Attention(UnknownOutcome, IN_FLIGHT_MESSAGE))
          else Replay(log').byKey[key] == st.byKey[key])
  {
    var st := Replay(log);
    var evs := RecoverEvents(st.Entries(), at);
    ReportsExactly(st.Entries(), at, key);
    SendingByPlace(st, key);
    InFlightMessages(st.Entries(), at);
    AttentionsTakeEffect(log, evs, key);
  }

  lemma SendingByPlace(st: ReplayState, key: string)
    requires st.WellFormed() && key in st.byKey
    ensures SendingAmong(st.Entries(), key) <==> st.byKey[key].state == Sending
  {
    assert st.Placed(key);
    assert st.Entries()[st.byKey[key].seqNo] == st.byKey[key];
    forall i | 0 <= i < |st.order| ensures st.Entries()[i] == st.byKey[st.order[i]] && st.Entries()[i].key == st.order[i] {
      assert st.Placed(st.order[i]);
    }
  }

  lemma {:induction false} InFlightMessages(entries: seq<QueueEntry>, at: int)
    ensures forall j | 0 <= j < |RecoverEvents(entries, at)| ::
      var ev := RecoverEvents(entries, at)[j];
      ev.AttentionEvent? && ev.reason == UnknownOutcome && ev.message == IN_FLIGHT_MESSAGE
  {
    if entries != [] { InFlightMessages(entries[1..], at); }
  }

  // The action waits for a person because its outcome is unknown.
  predicate UnknownNow(e: QueueEntry, e0: QueueEntry) {
    && e.state == NeedsAttention && e.attempts == e0.attempts
    && e.attention == Some(Attention(UnknownOutcome, IN_FLIGHT_MESSAGE))
  }

  lemma {:induction false} AttentionsTakeEffect(log: seq<Event>, evs: seq<Event>, key: string)
    requires key in Replay(log).byKey
    requires forall j | 0 <= j < |evs| ::
      evs[j].AttentionEvent? && evs[j].reason == UnknownOutcome && evs[j].message == IN_FLIGHT_MESSAGE
    ensures key in Replay(log + evs).byKey
    ensures TargetedBy(evs, key) ==> UnknownNow(Replay(log + evs).byKey[key], Replay(log).byKey[key])
    ensures !TargetedBy(evs, key) ==> Replay(log + evs).byKey[key] == Replay(log).byKey[key]
    decreases |evs|
  {
    if evs == [] {
      assert log + evs == log;
    } else {
      hide *;
      var front, last := evs[..|evs| - 1], evs[|evs| - 1];
      AttentionsTakeEffect(log, front, key);
      OneMoreAttention(log, front, last, key);
      assert evs == front + [last];
    }
  }

  lemma OneMoreAttention(log: seq<Event>, front: seq<Event>, last: Event, key: string)
    requires key in Replay(log).byKey && key in Replay(log + front).byKey
    requires last.AttentionEvent? && last.reason == UnknownOutcome && last.message == IN_FLIGHT_MESSAGE
    requires TargetedBy(front, key) ==> UnknownNow(Replay(log + front).byKey[key], Replay(log).byKey[key])
    requires !TargetedBy(front, key) ==> Replay(log + front).byKey[key] == Replay(log).byKey[key]
    ensures var evs := front + [last];
      && key in Replay(log + evs).byKey
      && (TargetedBy(evs, key) ==> UnknownNow(Replay(log + evs).byKey[key], Replay(log).byKey[key]))
      && (!TargetedBy(evs, key) ==> Replay(log + evs).byKey[key] == Replay(log).byKey[key])
  {
    hide *;
    Associate(log, front, [last]);
    TargetedByParts(front, [last], key);
    OneAttention(log + front, last, key);
    OneTarget(last, key);
    SameAttempts(Replay(log + (front + [last])).byKey[key], Replay(log + front).byKey[key], Replay(log).byKey[key]);
  }

  lemma SameAttempts(e: QueueEntry, e1: QueueEntry, e0: QueueEntry)
    ensures UnknownNow(e, e1) && (UnknownNow(e1, e0) || e1 == e0) ==> UnknownNow(e, e0)
  {
  }

  lemma OneTarget(ev: Event, key: string)
    ensures TargetedBy([ev], key) <==> ev.Target() == key
  {
    assert [ev][0] == ev;
  }

  lemma OneAttention(log: seq<Event>, ev: Event, key: string)
    requires ev.AttentionEvent? && ev.reason == UnknownOutcome && ev.message == IN_FLIGHT_MESSAGE
    requires key in Replay(log).byKey
    ensures key in Replay(log + [ev]).byKey
    ensures ev.Target() == key ==> UnknownNow(Replay(log + [ev]).byKey[key], Replay(log).byKey[key])
    ensures ev.Target() != key ==> Replay(log + [ev]).byKey[key] == Replay(log).byKey[key]
  {
    ReplayStep(log, ev);
    hide Replay;
  }
}
