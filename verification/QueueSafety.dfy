/** What every run of the queue guarantees, for any number of workers, crashes, recoveries and
    human decisions. */
module QueueSafety {
  import opened Wrappers
  import opened QueueModel
  import opened QueueLaws
  import opened QueueRuns

  // ── The journal only grows ──────────────────────────────────────────────────

  lemma StepGrowsLog(retry: RetryPolicy, w: World, step: Step)
    ensures w.log <= Do(retry, w, step).log
  {
  }

  lemma {:induction false} RunGrowsLog(retry: RetryPolicy, steps: seq<Step>, more: seq<Step>)
    ensures After(retry, steps).log <= After(retry, steps + more).log
    decreases |more|
  {
    if more == [] {
      assert steps + more == steps;
    } else {
      var m0 := more[..|more| - 1];
      RunGrowsLog(retry, steps, m0);
      assert (steps + more)[..|steps + more| - 1] == steps + m0;
      StepGrowsLog(retry, After(retry, steps + m0), more[|more| - 1]);
    }
  }

  // ── At most once ────────────────────────────────────────────────────────────

  /** At most one worker holds a claim on a key, and a held key is `Sending`. */
  lemma OneHolderPerKey(retry: RetryPolicy, steps: seq<Step>, a: nat, b: nat)
    requires Holds(After(retry, steps), a) && Holds(After(retry, steps), b)
    requires HeldKey(After(retry, steps), a) == HeldKey(After(retry, steps), b)
    ensures a == b
    ensures InState(After(retry, steps).log, HeldKey(After(retry, steps), a), Sending)
  {
    RunKeepsInv(retry, steps);
    var w := After(retry, steps);
    assert PhaseOk(w, a) && PhaseOk(w, b);
    if a != b { HoldersApart(w, a, b); }
  }

  // The states in which a `Calling` step calls the connector; in every other it does nothing.
  predicate CallsConnector(w: World, worker: nat) {
    worker in w.workers && w.workers[worker].Holding? && w.workers[worker].send < |w.sends|
  }

  /** A connector call is only made by the holder of a claim that policy allowed, whose own
      `Sending` event is already durable, and that made no call before. */
  lemma CallFollowsDurableIntent(retry: RetryPolicy, steps: seq<Step>, worker: nat, outcome: ExecOutcome)
    requires CallsConnector(After(retry, steps), worker)
    ensures After(retry, steps + [Calling(worker, outcome)]) == Do(retry, After(retry, steps), Calling(worker, outcome))
    ensures Holds(After(retry, steps), worker)
    ensures
      var w := After(retry, steps);
      var s := w.sends[w.workers[worker].send];
      && s.worker == worker && s.verdict == Allow && s.calls == 0
      && s.at < |w.log| && w.log[s.at].SendingEvent?
      && w.log[s.at].key == s.key && w.log[s.at].attempt == s.attempt
      && InState(w.log, s.key, Sending)
  {
    var w := After(retry, steps);
    AfterStep(retry, steps, Calling(worker, outcome));
    RunKeepsInv(retry, steps);
    assert PhaseOk(w, worker);
    assert SendOk(w.log, w.sends[w.workers[worker].send]);
  }

  /** Once done, always done, with the same result. */
  lemma DoneForever(retry: RetryPolicy, steps: seq<Step>, more: seq<Step>, key: string)
    requires InState(After(retry, steps).log, key, Done)
    ensures InState(After(retry, steps + more).log, key, Done)
    ensures Replay(After(retry, steps + more).log).byKey[key].result
         == Replay(After(retry, steps).log).byKey[key].result
  {
    RunGrowsLog(retry, steps, more);
    RunKeepsInv(retry, steps + more);
    var log, log' := After(retry, steps).log, After(retry, steps + more).log;
    assert log'[..|log|] == log;
    DoneIsAbsorbing(retry, log', |log|, key);
  }

  /** Two `Sending` events of one key always have a failed attempt or a `Resend` between them. */
  lemma NeverResentOnItsOwn(retry: RetryPolicy, steps: seq<Step>, i: nat, j: nat, key: string)
    returns (m: nat)
    requires i < j < |After(retry, steps).log|
    requires IsSend(After(retry, steps).log[i], key) && IsSend(After(retry, steps).log[j], key)
    ensures i < m < j
    ensures IsRetry(After(retry, steps).log[m], key) || IsResend(After(retry, steps).log[m], key)
  {
    RunKeepsInv(retry, steps);
    m := SendsAreSeparated(retry, After(retry, steps).log, i, j, key);
  }

  // ── Sends and connector calls are counted ───────────────────────────────────

  function Claims(sends: seq<Send>, key: string): nat {
    if sends == [] then 0
    else Claims(sends[..|sends| - 1], key) + if sends[|sends| - 1].key == key then 1 else 0
  }

  function Calls(sends: seq<Send>, key: string): nat {
    if sends == [] then 0
    else Calls(sends[..|sends| - 1], key) + if sends[|sends| - 1].key == key then sends[|sends| - 1].calls else 0
  }

  lemma {:induction false} CallAddsOne(sends: seq<Send>, i: nat, key: string)
    requires i < |sends|
    ensures Calls(sends[i := sends[i].(calls := sends[i].calls + 1)], key)
         == Calls(sends, key) + if sends[i].key == key then 1 else 0
    decreases |sends|
  {
    var sends' := sends[i := sends[i].(calls := sends[i].calls + 1)];
    var front := sends[..|sends| - 1];
    if i < |front| {
      CallAddsOne(front, i, key);
      assert sends'[..|sends'| - 1] == front[i := front[i].(calls := front[i].calls + 1)];
    } else {
      assert sends'[..|sends'| - 1] == front;
    }
  }

  /** The connector is called by `Calling` steps of holders and by no other step: a call is counted
      for the held key, and in every other case the calls of every key stay as they were. */
  lemma OnlyThenCalls(retry: RetryPolicy, w: World, step: Step, key: string)
    ensures Calls(Do(retry, w, step).sends, key)
         == Calls(w.sends, key)
          + if step.Calling? && CallsConnector(w, step.worker) && HeldKey(w, step.worker) == key then 1 else 0
  {
    hide Replay, ResolveDecision, UndoDecision, ClaimDecision, ClaimEvents, Durable, BatchEvents, InFlightEvents, GoesAhead,
         OutcomeEvent;
    var w' := Do(retry, w, step);
    if step.Calling? && CallsConnector(w, step.worker) {
      CallAddsOne(w.sends, w.workers[step.worker].send, key);
    } else if step.ClaimingKey? && w'.sends != w.sends {
      assert w'.sends[..|w'.sends| - 1] == w.sends && w'.sends[|w.sends|].calls == 0;
    }
  }

  ghost predicate HasClaim(sends: seq<Send>, p: nat) {
    exists i :: 0 <= i < |sends| && sends[i].at == p
  }

  // Claims and `Sending` events correspond one to one.
  ghost predicate Counted(w: World) {
    && (forall key :: Claims(w.sends, key) == QueueLaws.Sends(w.log, key))
    && (forall p | 0 <= p < |w.log| && w.log[p].SendingEvent? :: HasClaim(w.sends, p))
  }

  lemma {:induction false} NoSendsAppended(log: seq<Event>, evs: seq<Event>, key: string)
    requires forall i | 0 <= i < |evs| :: !evs[i].SendingEvent?
    ensures QueueLaws.Sends(log + evs, key) == QueueLaws.Sends(log, key)
    decreases |evs|
  {
    if evs == [] {
      assert log + evs == log;
    } else {
      assert (log + evs)[..|log + evs| - 1] == log + evs[..|evs| - 1];
      NoSendsAppended(log, evs[..|evs| - 1], key);
    }
  }

  lemma QuietKeepsCounted(w: World, w': World, evs: seq<Event>)
    requires Counted(w) && w'.sends == w.sends && w'.log == w.log + evs
    requires forall i | 0 <= i < |evs| :: !evs[i].SendingEvent?
    ensures Counted(w')
  {
    forall key ensures Claims(w'.sends, key) == QueueLaws.Sends(w'.log, key) {
      NoSendsAppended(w.log, evs, key);
    }
  }

  lemma ClaimKeepsCounted(w: World, s: Send, ev: Event, w': World)
    requires Counted(w) && ev.SendingEvent? && ev.key == s.key && s.at == |w.log|
    requires w'.log == w.log + [ev] && w'.sends == w.sends + [s]
    ensures Counted(w')
  {
    assert w'.log[..|w'.log| - 1] == w.log && w'.sends[..|w'.sends| - 1] == w.sends;
    forall p | 0 <= p < |w'.log| && w'.log[p].SendingEvent? ensures HasClaim(w'.sends, p) {
      if p < |w.log| {
        assert HasClaim(w.sends, p);
        var i :| 0 <= i < |w.sends| && w.sends[i].at == p;
        assert w'.sends[i].at == p;
      } else {
        assert w'.sends[|w.sends|].at == p;
      }
    }
  }

  lemma {:induction false} CallsLeaveClaims(sends: seq<Send>, i: nat, key: string)
    requires i < |sends|
    ensures Claims(sends[i := sends[i].(calls := sends[i].calls + 1)], key) == Claims(sends, key)
    decreases |sends|
  {
    var sends' := sends[i := sends[i].(calls := sends[i].calls + 1)];
    var front := sends[..|sends| - 1];
    if i < |front| {
      CallsLeaveClaims(front, i, key);
      assert sends'[..|sends'| - 1] == front[i := front[i].(calls := front[i].calls + 1)];
    } else {
      assert sends'[..|sends'| - 1] == front;
    }
  }

  lemma CallKeepsCounted(w: World, i: nat, w': World)
    requires Counted(w) && i < |w.sends| && w'.log == w.log
    requires w'.sends == w.sends[i := w.sends[i].(calls := w.sends[i].calls + 1)]
    ensures Counted(w')
  {
    forall key ensures Claims(w'.sends, key) == QueueLaws.Sends(w'.log, key) {
      CallsLeaveClaims(w.sends, i, key);
    }
    forall p | 0 <= p < |w'.log| && w'.log[p].SendingEvent? ensures HasClaim(w'.sends, p) {
      var j :| 0 <= j < |w.sends| && w.sends[j].at == p;
      assert w'.sends[j].at == p;
    }
  }

  lemma ClaimStepKeepsCounted(w: World, worker: nat, now: int, verdict: PolicyVerdict)
    requires Counted(w) && worker in w.workers && w.workers[worker].Chosen?
    ensures Counted(ClaimStep(w, worker, now, verdict))
  {
    hide Counted, Replay;
    var key, w' := w.workers[worker].key, ClaimStep(w, worker, now, verdict);
    var c := ClaimDecision(Replay(w.log), key, now, verdict);
    var evs := ClaimEvents(c, key, now, verdict);
    if c.Claimed? {
      ClaimKeepsCounted(w, w'.sends[|w.sends|], evs[0], w');
    } else {
      QuietKeepsCounted(w, w', evs);
    }
  }

  // Neither recovery nor a batch appends a `Sending` event.
  lemma DurableIsQuiet(log: seq<Event>, actions: seq<NewAction>, at: int, durable: nat)
    ensures forall i | 0 <= i < |Durable(InFlightEvents(log, at), durable)| ::
      !Durable(InFlightEvents(log, at), durable)[i].SendingEvent?
    ensures forall i | 0 <= i < |Durable(BatchEvents(log, actions, at), durable)| ::
      !Durable(BatchEvents(log, actions, at), durable)[i].SendingEvent?
  {
    RecoveryEventsFit(log, at);
    hide InFlightEvents, NewActions, Replay;
  }

  lemma StepKeepsCounted(retry: RetryPolicy, w: World, step: Step)
    requires Counted(w)
    ensures Counted(Do(retry, w, step))
  {
    hide Counted, Replay;
    var w' := Do(retry, w, step);
    match step
    case Recovering(at, durable) =>
      DurableIsQuiet(w.log, [], at, durable);
      if NoClaimHeld(w.workers) { QuietKeepsCounted(w, w', Durable(InFlightEvents(w.log, at), durable)); }
    case ClaimingKey(worker, now, verdict) =>
      if worker in w.workers && w.workers[worker].Chosen? { ClaimStepKeepsCounted(w, worker, now, verdict); }
    case Calling(worker, _) =>
      if w' != w { CallKeepsCounted(w, w.workers[worker].send, w'); }
    case Enqueueing(actions, at, durable) =>
      DurableIsQuiet(w.log, actions, at, durable);
      QuietKeepsCounted(w, w', Durable(BatchEvents(w.log, actions, at), durable));
    case _ =>
      var evs := w'.log[|w.log|..];
      assert w'.log == w.log + evs;
      QuietKeepsCounted(w, w', evs);
  }

  lemma {:induction false} RunIsCounted(retry: RetryPolicy, steps: seq<Step>)
    ensures Counted(After(retry, steps))
  {
    if steps != [] {
      RunIsCounted(retry, steps[..|steps| - 1]);
      StepKeepsCounted(retry, After(retry, steps[..|steps| - 1]), steps[|steps| - 1]);
    }
  }

  lemma {:induction false} AtMostOneCallPerClaim(sends: seq<Send>, key: string)
    requires forall i | 0 <= i < |sends| :: sends[i].calls <= 1
    ensures Calls(sends, key) <= Claims(sends, key)
  {
    if sends != [] { AtMostOneCallPerClaim(sends[..|sends| - 1], key); }
  }

  /** Connector calls never outnumber the durable `Sending` events of the key, which the entry
      counts exactly and which the retry limit and the number of `Resend` decisions bound. */
  lemma CallsAreBounded(retry: RetryPolicy, steps: seq<Step>, key: string)
    requires key in Replay(After(retry, steps).log).byKey
    ensures
      var w := After(retry, steps);
      && Calls(w.sends, key) <= QueueLaws.Sends(w.log, key)
      && QueueLaws.Sends(w.log, key) == Replay(w.log).byKey[key].attempts
      && QueueLaws.Sends(w.log, key) <= Allowance(retry, w.log, key)
  {
    var w := After(retry, steps);
    RunKeepsInv(retry, steps);
    RunIsCounted(retry, steps);
    SendBound(retry, w.log, key);
    assert forall i | 0 <= i < |w.sends| :: SendOk(w.log, w.sends[i]);
    AtMostOneCallPerClaim(w.sends, key);
  }

  // ── Saga order and irrecoverable last ───────────────────────────────────────

  lemma HeldBackUntilDone(retry: RetryPolicy, log: seq<Event>, s: Send, k: string)
    requires Lawful(retry, log) && SendOk(log, s)
    requires k in Replay(log[..s.snap]).byKey && s.key in Replay(log[..s.snap]).byKey
    requires Precedes(Replay(log[..s.snap]).byKey[k], Replay(log[..s.snap]).byKey[s.key])
    ensures InState(log[..s.at], k, Done)
  {
    var st := Replay(log[..s.snap]);
    ReplayWellFormed(log[..s.snap]);
    HoldGo(st, st.byKey[s.key]);
    LawfulPrefix(retry, log, s.at);
    assert log[..s.at][..s.snap] == log[..s.snap];
    DoneIsAbsorbing(retry, log[..s.at], s.snap, k);
  }

  /** Saga order: whenever an ordered action is sent, every earlier non-undo action of its draft
      is done in the journal the send is appended to, however stale the worker's snapshot was. */
  lemma SagaOrder(retry: RetryPolicy, steps: seq<Step>, p: nat, k: string)
    requires p < |After(retry, steps).log| && After(retry, steps).log[p].SendingEvent?
    ensures
      var log := After(retry, steps).log;
      var st := Replay(log[..p]);
      && log[p].key in st.byKey
      && var e := st.byKey[log[p].key];
         e.action.ordered && e.action.undoOf.None? && k in st.byKey && st.byKey[k].action.undoOf.None?
         && st.byKey[k].action.draftId == e.action.draftId && st.byKey[k].seqNo < e.seqNo
         ==> st.byKey[k].state == Done
  {
    var w := After(retry, steps);
    RunKeepsInv(retry, steps);
    RunIsCounted(retry, steps);
    assert HasClaim(w.sends, p);
    var i :| 0 <= i < |w.sends| && w.sends[i].at == p;
    var s := w.sends[i];
    assert SendOk(w.log, s);
    var early, late := w.log[..s.snap], w.log[..p];
    assert late[..s.snap] == early;
    ReplayKeeps(late, s.snap);
    ReplayWellFormed(early);
    ReplayWellFormed(late);
    var e := Replay(late).byKey[s.key];
    hide Replay, After, Lawful, GoesAhead, Counted;
    if OrderedStep(e) && k in Replay(late).byKey && Precedes(Replay(late).byKey[k], e) {
      EarlierIsInPrefix(Replay(early), Replay(late), k, s.key);
      HeldBackUntilDone(retry, w.log, s, k);
    }
  }

  // An entry placed before a known one was already known.
  lemma EarlierIsInPrefix(early: ReplayState, late: ReplayState, k: string, key: string)
    requires early.WellFormed() && late.WellFormed() && Keeps(early, late)
    requires key in early.byKey && k in late.byKey && late.byKey[k].seqNo < late.byKey[key].seqNo
    ensures k in early.byKey
  {
    assert early.Placed(key) && late.Placed(k);
    var n := late.byKey[k].seqNo;
    assert early.order[n] == late.order[n];
  }

  // A non-undo action of the same draft that is not irrecoverable.
  predicate OtherClassSibling(o: QueueEntry, e: QueueEntry) {
    o.action.draftId == e.action.draftId && o.action.undoOf.None? && o.action.class_ != Irrecoverable
  }

  /** Irrecoverable last: whenever a non-ordered irrecoverable action is sent, every other-class
      sibling of the snapshot its worker read is done. */
  lemma IrrecoverableLast(retry: RetryPolicy, steps: seq<Step>, i: nat, k: string)
    requires i < |After(retry, steps).sends|
    ensures
      var w := After(retry, steps);
      var s := w.sends[i];
      && s.snap <= s.at < |w.log| && s.key in Replay(w.log[..s.snap]).byKey
      && var seen := Replay(w.log[..s.snap]);
         var e := seen.byKey[s.key];
         !e.action.ordered && e.action.class_ == Irrecoverable && e.action.undoOf.None?
         && k in seen.byKey && OtherClassSibling(seen.byKey[k], e)
         ==> InState(w.log[..s.at], k, Done)
  {
    var w := After(retry, steps);
    RunKeepsInv(retry, steps);
    var s := w.sends[i];
    assert SendOk(w.log, s);
    var seen := Replay(w.log[..s.snap]);
    ReplayWellFormed(w.log[..s.snap]);
    assert k in seen.byKey ==> seen.Placed(k) && seen.Placed(s.key);
    if k in seen.byKey && Precedes(seen.byKey[k], seen.byKey[s.key]) {
      HeldBackUntilDone(retry, w.log, s, k);
    }
  }

  /** The stronger promise, that every other-class sibling in the queue is done when an
      irrecoverable action is sent, holds exactly when none that is still open was enqueued
      between the worker's snapshot and its claim. */
  lemma IrrecoverableLastExactly(retry: RetryPolicy, steps: seq<Step>, i: nat)
    requires i < |After(retry, steps).sends|
    ensures
      var w := After(retry, steps);
      var s := w.sends[i];
      && s.snap <= s.at < |w.log| && s.key in Replay(w.log[..s.at]).byKey
      && var st := Replay(w.log[..s.at]);
         var e := st.byKey[s.key];
         !e.action.ordered && e.action.class_ == Irrecoverable && e.action.undoOf.None? ==>
           ((forall k | k in st.byKey && OtherClassSibling(st.byKey[k], e) :: st.byKey[k].state == Done)
            <==> (forall k | k in st.byKey && k !in Replay(w.log[..s.snap]).byKey && OtherClassSibling(st.byKey[k], e) ::
                    st.byKey[k].state == Done))
  {
    var w := After(retry, steps);
    RunKeepsInv(retry, steps);
    var s := w.sends[i];
    assert SendOk(w.log, s);
    var early, late := w.log[..s.snap], w.log[..s.at];
    assert late[..s.snap] == early;
    ReplayKeeps(late, s.snap);
    var st, seen := Replay(late), Replay(early);
    var e := st.byKey[s.key];
    forall k | k in seen.byKey && !e.action.ordered && e.action.class_ == Irrecoverable && e.action.undoOf.None?
               && OtherClassSibling(st.byKey[k], e)
      ensures st.byKey[k].state == Done
    {
      IrrecoverableLast(retry, steps, i, k);
    }
  }
}
