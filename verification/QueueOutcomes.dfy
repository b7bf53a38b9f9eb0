/** What a run does with connector answers: which step writes which event, what an answer leads to, and
    that only a person sends an action again whose outcome is not known. */
module QueueOutcomes {
  import opened Wrappers
  import opened QueueModel
  import opened QueueLaws
  import opened QueueRuns
  import opened QueueSafety
  import opened QueueEntries

  // ── Only a person resumes what waits for one ────────────────────────────────

  lemma AttentionStep(retry: RetryPolicy, st: ReplayState, ev: Event, key: string)
    requires LegalEvent(retry, st, ev) && !IsResend(ev, key)
    requires key in st.byKey && (st.byKey[key].state == NeedsAttention || st.byKey[key].state == Done)
    ensures key in Apply(st, ev).byKey
    ensures Apply(st, ev).byKey[key].state == NeedsAttention || Apply(st, ev).byKey[key].state == Done
  {
  }

  lemma {:induction false} AttentionStays(retry: RetryPolicy, log: seq<Event>, n: nat, key: string)
    requires Lawful(retry, log) && n <= |log| && InState(log[..n], key, NeedsAttention)
    requires forall j | n <= j < |log| :: !IsResend(log[j], key)
    ensures InState(log, key, NeedsAttention) || InState(log, key, Done)
    decreases |log|
  {
    if n == |log| {
      assert log[..n] == log;
    } else {
      var front := log[..|log| - 1];
      assert front[..n] == log[..n];
      AttentionStays(retry, front, n, key);
      AttentionStep(retry, Replay(front), log[|log| - 1], key);
      assert log == front + [log[|log| - 1]];
      ReplayStep(front, log[|log| - 1]);
      hide Replay, Apply;
    }
  }

  /** What waits for a person is sent again only after a person chose to resend it. */
  lemma SendsNeedResend(retry: RetryPolicy, log: seq<Event>, n: nat, q: nat, key: string) returns (m: nat)
    requires Lawful(retry, log) && n <= q < |log| && InState(log[..n], key, NeedsAttention) && IsSend(log[q], key)
    ensures n <= m < q && IsResend(log[m], key)
  {
    hide Replay;
    if forall j | n <= j < q :: !IsResend(log[j], key) {
      LawfulPrefix(retry, log, q);
      LawfulPrefix(retry, log, q + 1);
      var before := log[..q];
      assert before[..n] == log[..n] && log[..q + 1][..q] == before;
      AttentionStays(retry, before, n, key);
      assert false;
    } else {
      m :| n <= m < q && IsResend(log[m], key);
    }
  }

  // ── Which step writes which event ───────────────────────────────────────────

  // The step's worker holds an answer.
  predicate HasAnswer(w: World, worker: nat) {
    worker in w.workers && w.workers[worker].Answered? && w.workers[worker].send < |w.sends|
  }

  predicate HasChosen(w: World, worker: nat) { worker in w.workers && w.workers[worker].Chosen? }

  // What the step must have been for `ev` to be written.
  predicate WrittenBy(retry: RetryPolicy, w: World, step: Step, ev: Event) {
    match ev
    case EnqueuedEvent(a, at) => (step.Enqueueing? && a in step.actions && at == step.at) || (step.Undoing? && at == step.at)
    case SendingEvent(key, attempt, at) =>
      && step.ClaimingKey? && HasChosen(w, step.worker) && key == w.workers[step.worker].key
      && step.verdict.Allow? && at == step.now
    case DoneEvent(key, result, at) => ByAnswer(w, step, key) && w.workers[step.worker].outcome == Sent(result) && at == step.at
    case RetryingEvent(key, attempt, _, error, at) =>
      && ByAnswer(w, step, key) && w.workers[step.worker].outcome == Retryable(error) && at == step.at
      && attempt < retry.maxAttempts
    case AttentionEvent(key, reason, message, _) => AttentionBy(w, step, key, reason, message)
    case ResolvedEvent(key, resolution, note, at) => step == Resolving(key, resolution, note, at)
  }

  predicate AttentionBy(w: World, step: Step, key: string, reason: AttentionReason, message: string) {
    match reason
    case UnknownOutcome =>
      step.Recovering? || (ByAnswer(w, step, key) && w.workers[step.worker].outcome == Unknown(message))
    case PolicyBlocked =>
      && step.ClaimingKey? && HasChosen(w, step.worker) && key == w.workers[step.worker].key
      && step.verdict == Block(message)
    case RetriesExhausted => ByAnswer(w, step, key) && w.workers[step.worker].outcome == Retryable(message)
    case RejectedOutright => ByAnswer(w, step, key) && w.workers[step.worker].outcome == Rejected(message)
  }

  predicate ByAnswer(w: World, step: Step, key: string) {
    step.Recording? && HasAnswer(w, step.worker) && w.sends[w.workers[step.worker].send].key == key
  }

  lemma {:induction false} NewActionsAmong(known: set<string>, actions: seq<NewAction>)
    ensures forall a | a in NewActions(known, actions) :: a in actions
    decreases |actions|
  {
    if actions != [] {
      var known' := if actions[0].Key() in known then known else known + {actions[0].Key()};
      NewActionsAmong(known', actions[1..]);
    }
  }

  lemma BatchWrites(log: seq<Event>, actions: seq<NewAction>, at: int, durable: nat, i: nat)
    requires i < |Durable(BatchEvents(log, actions, at), durable)|
    ensures var ev := Durable(BatchEvents(log, actions, at), durable)[i];
      ev.EnqueuedEvent? && ev.action in actions && ev.at == at
  {
    NewActionsAmong(Replay(log).byKey.Keys, actions);
  }

  /** Who writes what: a step that appends an event of some kind is the step of that name, with what it
      needs: sends come from claims that policy allowed, retries from retryable answers alone, and
      unknown outcomes from such answers or from startup recovery. */
  lemma WhoWrites(retry: RetryPolicy, w: World, step: Step, p: nat)
    requires |w.log| <= p < |Do(retry, w, step).log|
    ensures WrittenBy(retry, w, step, Do(retry, w, step).log[p])
  {
    match step
    case Enqueueing(actions, at, durable) => BatchWrites(w.log, actions, at, durable, p - |w.log|);
    case Recovering(at, durable) =>
      RecoveryWrites(w.log, at);
      hide InFlightEvents;
    case ClaimingKey(worker, now, verdict) => ClaimWrites(retry, w, worker, now, verdict, p);
    case _ => hide Replay;
  }

  lemma RecoveryWrites(log: seq<Event>, at: int)
    ensures forall j | 0 <= j < |InFlightEvents(log, at)| ::
      var ev := InFlightEvents(log, at)[j];
      ev.AttentionEvent? && ev.reason == UnknownOutcome
  {
    ReplayWellFormed(log);
    InFlightMessages(Replay(log).Entries(), at);
  }

  lemma ClaimWrites(retry: RetryPolicy, w: World, worker: nat, now: int, verdict: PolicyVerdict, p: nat)
    requires |w.log| <= p < |Do(retry, w, ClaimingKey(worker, now, verdict)).log|
    ensures WrittenBy(retry, w, ClaimingKey(worker, now, verdict), Do(retry, w, ClaimingKey(worker, now, verdict)).log[p])
  {
    hide Replay;
  }

  // The step of a run that wrote the event at `p`.
  lemma {:induction false} WrittenAt(retry: RetryPolicy, steps: seq<Step>, p: nat) returns (j: nat)
    requires p < |After(retry, steps).log|
    ensures j < |steps|
    ensures |After(retry, steps[..j]).log| <= p < |After(retry, steps[..j + 1]).log|
    ensures After(retry, steps[..j + 1]) == Do(retry, After(retry, steps[..j]), steps[j])
    ensures After(retry, steps[..j + 1]).log <= After(retry, steps).log
    decreases |steps|
  {
    hide Do;
    var n := |steps| - 1;
    if steps == [] {
      assert false;
    } else if p < |After(retry, steps[..n]).log| {
      j := WrittenAt(retry, steps[..n], p);
      assert steps[..n][..j] == steps[..j] && steps[..n][..j + 1] == steps[..j + 1];
      StepGrowsLog(retry, After(retry, steps[..n]), steps[n]);
    } else {
      j := n;
      assert steps[..n + 1] == steps;
    }
  }

  /** Every event of every run was written by the step that its kind calls for. */
  lemma EventsAreWrittenBy(retry: RetryPolicy, steps: seq<Step>, p: nat) returns (j: nat)
    requires p < |After(retry, steps).log|
    ensures j < |steps| && |After(retry, steps[..j]).log| <= p
    ensures WrittenBy(retry, After(retry, steps[..j]), steps[j], After(retry, steps).log[p])
  {
    j := WrittenAt(retry, steps, p);
    WhoWrites(retry, After(retry, steps[..j]), steps[j], p);
  }

  /** A retry is only ever recorded for an answer that said it may be retried. */
  lemma RetryingMeansRetryable(retry: RetryPolicy, steps: seq<Step>, p: nat) returns (j: nat)
    requires p < |After(retry, steps).log| && After(retry, steps).log[p].RetryingEvent?
    ensures j < |steps| && steps[j].Recording?
    ensures
      var w, ev := After(retry, steps[..j]), After(retry, steps).log[p];
      && HasAnswer(w, steps[j].worker) && w.workers[steps[j].worker].outcome == Retryable(ev.error)
      && w.sends[w.workers[steps[j].worker].send].key == ev.key && ev.attempt < retry.maxAttempts
  {
    j := EventsAreWrittenBy(retry, steps, p);
  }

  // ── What an answer leads to ─────────────────────────────────────────────────

  lemma AnswerStep(retry: RetryPolicy, w: World, worker: nat, at: int)
    requires Inv(retry, w) && worker in w.workers && w.workers[worker].Answered?
    ensures HasAnswer(w, worker)
    ensures
      var w', s := Do(retry, w, Recording(worker, at)), w.sends[w.workers[worker].send];
      && InState(w.log, s.key, Sending) && Replay(w.log).byKey[s.key].attempts == s.attempt
      && w'.log == w.log + [OutcomeEvent(retry, s.key, s.attempt, w.workers[worker].outcome, at)]
      && worker !in w'.workers
  {
    hide Replay, Lawful, SendsOk, OutcomeEvent;
    assert PhaseOk(w, worker);
  }

  /** Recording an answer, in any run, leaves the action of its claim where the answer says, and every
      other action where it was. */
  lemma AnswerIsRecorded(retry: RetryPolicy, steps: seq<Step>, worker: nat, at: int)
    requires var w := After(retry, steps); worker in w.workers && w.workers[worker].Answered?
    ensures HasAnswer(After(retry, steps), worker)
    ensures
      var w, w' := After(retry, steps), After(retry, steps + [Recording(worker, at)]);
      var s := w.sends[w.workers[worker].send];
      && |w'.log| == |w.log| + 1 && w.log <= w'.log && worker !in w'.workers
      && OthersStay(Replay(w.log), Replay(w'.log), s.key) && s.key in Replay(w'.log).byKey
      && StandsAsAnswered(retry, Replay(w'.log).byKey[s.key], s.attempt, w.workers[worker].outcome, at)
  {
    var w := After(retry, steps);
    RunKeepsInv(retry, steps);
    AfterStep(retry, steps, Recording(worker, at));
    hide Replay, After, Inv, OthersStay, StandsAsAnswered, Do, OutcomeEvent;
    AnswerStep(retry, w, worker, at);
    var s := w.sends[w.workers[worker].send];
    AnswerTakesEffect(retry, w.log, s.key, w.workers[worker].outcome, at);
  }

  /** Never retried automatically: once an unknown outcome or a rejection is recorded, every later send
      of that action, in every continuation, comes after a person chose to resend it. */
  lemma UnknownWaitsForPerson(retry: RetryPolicy, steps: seq<Step>, worker: nat, at: int, more: seq<Step>, q: nat)
    returns (m: nat)
    requires var w := After(retry, steps);
      && worker in w.workers && w.workers[worker].Answered? && w.workers[worker].send < |w.sends|
      && (w.workers[worker].outcome.Unknown? || w.workers[worker].outcome.Rejected?)
    requires var w, log := After(retry, steps), After(retry, steps + [Recording(worker, at)] + more).log;
      |w.log| < q < |log| && IsSend(log[q], w.sends[w.workers[worker].send].key)
    ensures |After(retry, steps).log| < m < q
    ensures
      var w, log := After(retry, steps), After(retry, steps + [Recording(worker, at)] + more).log;
      m < |log| && IsResend(log[m], w.sends[w.workers[worker].send].key)
  {
    var w, w' := After(retry, steps), After(retry, steps + [Recording(worker, at)]);
    var all := steps + [Recording(worker, at)] + more;
    AnswerIsRecorded(retry, steps, worker, at);
    RunGrowsLog(retry, steps + [Recording(worker, at)], more);
    RunKeepsInv(retry, all);
    var log := After(retry, all).log;
    assert log[..|w'.log|] == w'.log;
    hide Replay, After, Lawful, OthersStay;
    m := SendsNeedResend(retry, log, |w'.log|, q, w.sends[w.workers[worker].send].key);
  }

  // ── Claims come when due ────────────────────────────────────────────────────

  /** In every run an action is sent only while it is queued or once its next try has come, with the
      next attempt number, and only when policy allowed it at that moment. */
  lemma SentWhenDue(retry: RetryPolicy, steps: seq<Step>, p: nat) returns (j: nat)
    requires p < |After(retry, steps).log| && After(retry, steps).log[p].SendingEvent?
    ensures j < |steps| && steps[j].ClaimingKey? && steps[j].verdict.Allow?
    ensures
      var log := After(retry, steps).log;
      var ev, st := log[p], Replay(log[..p]);
      && steps[j].now == ev.at && ev.key in st.byKey && ev.attempt == st.byKey[ev.key].attempts + 1
      && (st.byKey[ev.key].state == Queued
          || (st.byKey[ev.key].state == Retrying && (st.byKey[ev.key].nextAt.Some? ==> st.byKey[ev.key].nextAt.value <= ev.at)))
  {
    j := WrittenAt(retry, steps, p);
    var log := After(retry, steps).log;
    var w := After(retry, steps[..j]);
    WhoWrites(retry, w, steps[j], p);
    hide Replay, After;
    ClaimTakesEffect(w.log, w.workers[steps[j].worker].key, steps[j].now, steps[j].verdict);
    StepGrowsLog(retry, w, steps[j]);
    assert Do(retry, w, steps[j]).log[..p] == log[..p];
    OneClaimEvent(retry, w, steps[j], p);
  }

  lemma OneClaimEvent(retry: RetryPolicy, w: World, step: Step, p: nat)
    requires step.ClaimingKey? && HasChosen(w, step.worker) && |w.log| <= p < |Do(retry, w, step).log|
    ensures p == |w.log| && Do(retry, w, step).log[..p] == w.log
    ensures Do(retry, w, step).log
         == w.log + ClaimEvents(ClaimDecision(Replay(w.log), w.workers[step.worker].key, step.now, step.verdict),
                                w.workers[step.worker].key, step.now, step.verdict)
  {
    hide Replay;
  }

  // ── Undo, end to end ────────────────────────────────────────────────────────

  /** An undo request that is accepted, and whose key is free, queues an action that the next idle worker
      can choose and claim at once, whatever its siblings are doing. */
  lemma AcceptedUndoIsClaimed(retry: RetryPolicy, steps: seq<Step>, key: string, at: int, b: nat, now: int)
    requires var w := After(retry, steps);
      && b !in w.workers && UndoDecision(Replay(w.log), key).Success?
      && UndoDecision(Replay(w.log), key).value.Key() !in Replay(w.log).byKey
    ensures
      var w := After(retry, steps);
      var undo := UndoDecision(Replay(w.log), key).value.Key();
      var more := [Undoing(key, at)] + [Choosing(b, undo, |w.log| + 1)] + [ClaimingKey(b, now, Allow)];
      var w' := After(retry, steps + more);
      && InState(w'.log, undo, Sending)
      && undo in Replay(w'.log).byKey && Replay(w'.log).byKey[undo].action.undoOf == Some(key)
      && Holds(w', b) && HeldKey(w', b) == undo
  {
    hide After, Replay, Do, UndoDecision, GoesAhead, InState;
    var w := After(retry, steps);
    var a := UndoDecision(Replay(w.log), key).value;
    var s1, s2, s3 := Undoing(key, at), Choosing(b, a.Key(), |w.log| + 1), ClaimingKey(b, now, Allow);
    AfterStep(retry, steps, s1);
    AfterStep(retry, steps + [s1], s2);
    AfterStep(retry, steps + [s1] + [s2], s3);
    assert steps + ([s1] + [s2] + [s3]) == steps + [s1] + [s2] + [s3];
    UndoIsQueued(retry, w, key, at);
    UndoIsClaimed(retry, Do(retry, w, s1), b, a.Key(), now);
  }

  lemma UndoIsQueued(retry: RetryPolicy, w: World, key: string, at: int)
    requires UndoDecision(Replay(w.log), key).Success?
    requires UndoDecision(Replay(w.log), key).value.Key() !in Replay(w.log).byKey
    ensures
      var a, w' := UndoDecision(Replay(w.log), key).value, Do(retry, w, Undoing(key, at));
      && w'.workers == w.workers && |w'.log| == |w.log| + 1
      && InState(w'.log, a.Key(), Queued) && a.Key() in Replay(w'.log).byKey
      && Replay(w'.log).byKey[a.Key()].action == a && a.undoOf == Some(key)
  {
    var a := UndoDecision(Replay(w.log), key).value;
    ReplayStep(w.log, EnqueuedEvent(a, at));
    hide Replay;
  }

  lemma UndoIsClaimed(retry: RetryPolicy, w: World, b: nat, undo: string, now: int)
    requires b !in w.workers && InState(w.log, undo, Queued) && undo in Replay(w.log).byKey
    requires Replay(w.log).byKey[undo].action.undoOf.Some?
    ensures
      var w' := Do(retry, Do(retry, w, Choosing(b, undo, |w.log|)), ClaimingKey(b, now, Allow));
      && InState(w'.log, undo, Sending) && undo in Replay(w'.log).byKey
      && Replay(w'.log).byKey[undo].action == Replay(w.log).byKey[undo].action
      && Holds(w', b) && HeldKey(w', b) == undo
  {
    UndoNeverWaits(w.log, undo);
    assert w.log[..|w.log|] == w.log;
    hide Replay, GoesAhead, OthersStay, StandsAfter;
    ClaimedSends(w.log, undo, now);
  }

  lemma ClaimedSends(log: seq<Event>, key: string, now: int)
    requires InState(log, key, Queued)
    ensures
      var c := ClaimDecision(Replay(log), key, now, Allow);
      var log' := log + ClaimEvents(c, key, now, Allow);
      && c.Claimed? && InState(log', key, Sending) && Replay(log').byKey[key].action == Replay(log).byKey[key].action
  {
    hide Replay, OthersStay;
    NamedMoves(log, SendingEvent(key, Replay(log).byKey[key].attempts + 1, now));
    ClaimTakesEffect(log, key, now, Allow);
  }
}
