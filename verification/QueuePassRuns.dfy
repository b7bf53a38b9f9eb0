/** A worker pass as part of a run: each pass is a sequence of the steps of one worker, so what holds of
    runs holds of passes; and its report says exactly what it wrote to the journal. */
module QueuePassRuns {
  import opened Wrappers
  import opened QueueModel
  import opened QueueRuns
  import opened QueuePass
  import opened QueueEntries

  predicate StepOf(step: Step, worker: nat) {
    (step.Choosing? || step.ClaimingKey? || step.Calling? || step.Recording?) && step.worker == worker
  }

  predicate StepsOf(steps: seq<Step>, worker: nat) { forall i | 0 <= i < |steps| :: StepOf(steps[i], worker) }

  // ── A pass is a run of one worker ───────────────────────────────────────────

  lemma ClaimStepOf(retry: RetryPolicy, past: seq<Step>, b: nat, now: int, verdict: PolicyVerdict)
    requires var w := After(retry, past); b in w.workers && w.workers[b].Chosen?
    ensures
      var w, w' := After(retry, past), After(retry, past + [ClaimingKey(b, now, verdict)]);
      var key := w.workers[b].key;
      var c := ClaimDecision(Replay(w.log), key, now, verdict);
      && w'.log == w.log + ClaimEvents(c, key, now, verdict)
      && (!c.Claimed? ==> w'.workers == w.workers - {b})
      && (c.Claimed? ==> w'.workers == w.workers[b := Holding(|w.sends|)] && |w'.sends| == |w.sends| + 1
                         && w'.sends[|w.sends|].key == key && w'.sends[|w.sends|].attempt == c.attempt)
  {
    AfterStep(retry, past, ClaimingKey(b, now, verdict));
    hide After, Replay, ClaimDecision, ClaimEvents;
  }

  lemma AnswerStepsOf(retry: RetryPolicy, past: seq<Step>, b: nat, outcome: ExecOutcome, at: int)
    requires var w := After(retry, past);
      b in w.workers && w.workers[b].Holding? && w.workers[b].send < |w.sends|
    ensures
      var w, w' := After(retry, past), After(retry, past + [Calling(b, outcome)] + [Recording(b, at)]);
      var s := w.sends[w.workers[b].send];
      && w'.log == w.log + [OutcomeEvent(retry, s.key, s.attempt, outcome, at)] && w'.workers == w.workers - {b}
  {
    AfterStep(retry, past, Calling(b, outcome));
    AfterStep(retry, past + [Calling(b, outcome)], Recording(b, at));
    hide After, OutcomeEvent;
  }

  lemma AttemptIsSteps(env: Env, past: seq<Step>, b: nat, s: PassState, key: string) returns (more: seq<Step>)
    requires var w := After(env.retry, past);
      && w.log == s.log && b in w.workers && w.workers[b].Chosen? && w.workers[b].key == key
    ensures StepsOf(more, b)
    ensures var w' := After(env.retry, past + more);
      w'.log == Attempt(env, s, key).log && w'.workers == After(env.retry, past).workers - {b}
  {
    var w, now := After(env.retry, past), env.clock(s.tick);
    var verdict := VerdictFor(env, Replay(s.log), s.tick, key);
    var c := ClaimDecision(Replay(s.log), key, now, verdict);
    AttemptResult(env, s, key, c);
    hide After, Attempt, Replay, ClaimDecision, VerdictFor, OutcomeEvent, Report;
    ClaimStepOf(env.retry, past, b, now, verdict);
    more := [ClaimingKey(b, now, verdict)];
    if c.Claimed? {
      var outcome, at := Classified(env.execute(s.tick, c.entry)), env.clock(s.tick + 1);
      AnswerStepsOf(env.retry, past + more, b, outcome, at);
      assert past + (more + [Calling(b, outcome)] + [Recording(b, at)])
          == past + more + [Calling(b, outcome)] + [Recording(b, at)];
      more := more + [Calling(b, outcome)] + [Recording(b, at)];
      assert w.workers[b := Holding(|w.sends|)] - {b} == w.workers - {b};
    } else {
      assert c.Skip? ==> s.log + ClaimEvents(c, key, now, verdict) == s.log;
    }
  }

  lemma KeyIsSteps(env: Env, past: seq<Step>, b: nat, s: PassState, key: string) returns (more: seq<Step>)
    requires After(env.retry, past).log == s.log && b !in After(env.retry, past).workers
    ensures StepsOf(more, b)
    ensures var w' := After(env.retry, past + more);
      w'.log == ProcessKey(env, s, key).log && w'.workers == After(env.retry, past).workers
  {
    hide After, Attempt, ProcessKey, GoesAhead, Do;
    var w := After(env.retry, past);
    if GoesAhead(s.log, key) {
      ChooseStepOf(env.retry, past, b, key);
      GoesAheadAttempts(env, s, key);
      var choose := Choosing(b, key, |w.log|);
      var rest := AttemptIsSteps(env, past + [choose], b, s, key);
      assert past + ([choose] + rest) == past + [choose] + rest;
      more := [choose] + rest;
      assert w.workers[b := Chosen(key, |w.log|)] - {b} == w.workers;
    } else {
      more := [];
      assert past + [] == past;
      WaitsUnmoved(env, s, key);
    }
  }

  lemma ChooseStepOf(retry: RetryPolicy, past: seq<Step>, b: nat, key: string)
    requires b !in After(retry, past).workers && GoesAhead(After(retry, past).log, key)
    ensures var w := After(retry, past);
      After(retry, past + [Choosing(b, key, |w.log|)]) == w.(workers := w.workers[b := Chosen(key, |w.log|)])
  {
    var w := After(retry, past);
    AfterStep(retry, past, Choosing(b, key, |w.log|));
    assert w.log[..|w.log|] == w.log;
    hide After, GoesAhead;
  }

  lemma WaitsUnmoved(env: Env, s: PassState, key: string)
    requires !GoesAhead(s.log, key)
    ensures ProcessKey(env, s, key).log == s.log && ProcessKey(env, s, key).tick == s.tick
  {
  }

  lemma GoesAheadAttempts(env: Env, s: PassState, key: string)
    requires GoesAhead(s.log, key)
    ensures ProcessKey(env, s, key) == Attempt(env, s, key)
  {
  }

  lemma {:induction false} ProcessIsSteps(env: Env, past: seq<Step>, b: nat, s: PassState, cs: seq<Candidate>)
    returns (more: seq<Step>)
    requires After(env.retry, past).log == s.log && b !in After(env.retry, past).workers
    ensures StepsOf(more, b)
    ensures var w' := After(env.retry, past + more);
      w'.log == Process(env, s, cs).log && w'.workers == After(env.retry, past).workers
    decreases |cs|
  {
    hide After, ProcessKey;
    if cs == [] {
      more := [];
      assert past + [] == past;
    } else {
      var front := ProcessIsSteps(env, past, b, s, cs[..|cs| - 1]);
      var last := KeyIsSteps(env, past + front, b, Process(env, s, cs[..|cs| - 1]), cs[|cs| - 1].key);
      assert past + (front + last) == past + front + last;
      more := front + last;
    }
  }

  /** A pass is a run: from any reachable state, what one pass of an idle worker writes is what some steps
      of that worker alone write there. Every guarantee about runs is one about passes. */
  lemma PassIsARun(env: Env, past: seq<Step>, b: nat, tick: nat) returns (more: seq<Step>)
    requires b !in After(env.retry, past).workers
    ensures StepsOf(more, b)
    ensures After(env.retry, past + more).log == RunPass(env, After(env.retry, past).log, tick).log
    ensures After(env.retry, past + more).workers == After(env.retry, past).workers
  {
    var log := After(env.retry, past).log;
    hide After, Candidates;
    more := ProcessIsSteps(env, past, b, PassState(log, tick + 1, NO_REPORT), Candidates(log, env.clock(tick)));
  }

  // ── What one attempt comes to ───────────────────────────────────────────────

  /** One attempt at a due action that policy allows: the intent is written, the connector is called once
      with the action as it stood, and the answer decides where the action stands. A panic of the
      connector is an unknown outcome, which needs a person. */
  lemma AttemptTakesEffect(env: Env, s: PassState, key: string)
    requires key in Replay(s.log).byKey && Replay(s.log).byKey[key].Due(env.clock(s.tick))
    requires env.policy(s.tick, Replay(s.log).byKey[key]).Allow?
    ensures
      var e, s' := Replay(s.log).byKey[key], Attempt(env, s, key);
      var x := env.execute(s.tick, e);
      && |s'.log| == |s.log| + 2 && s.log <= s'.log
      && s'.log[|s.log|] == SendingEvent(key, e.attempts + 1, env.clock(s.tick))
      && OthersStay(Replay(s.log), Replay(s'.log), key) && key in Replay(s'.log).byKey
      && var e' := Replay(s'.log).byKey[key];
         && (x.Returned? ==> StandsAsAnswered(env.retry, e', e.attempts + 1, x.outcome, env.clock(s.tick + 1)))
         && (x.Panicked? ==> e'.state == NeedsAttention && e'.attention.Some?
                             && e'.attention.value.reason == UnknownOutcome && e'.attempts == e.attempts + 1)
  {
    var e, now := Replay(s.log).byKey[key], env.clock(s.tick);
    var c := ClaimDecision(Replay(s.log), key, now, Allow);
    var sending := SendingEvent(key, e.attempts + 1, now);
    AttemptResult(env, s, key, c);
    hide Attempt, Replay, OthersStay, OutcomeEvent, Report;
    NamedMoves(s.log, sending);
    AnswerTakesEffect(env.retry, s.log + [sending], key, Classified(env.execute(s.tick, e)), env.clock(s.tick + 1));
    OthersStayTwice(Replay(s.log), Replay(s.log + [sending]), Replay(Attempt(env, s, key).log), key);
  }

  /** Policy comes first: an action that is not due is left alone and policy not asked; a due one that
      policy blocks goes to a person, and the connector is not called. */
  lemma PolicyComesFirst(env: Env, s: PassState, key: string)
    ensures
      var st, now, s' := Replay(s.log), env.clock(s.tick), Attempt(env, s, key);
      && (key !in st.byKey || !st.byKey[key].Due(now) ==> s' == s.(tick := s.tick + 1))
      && (key in st.byKey && st.byKey[key].Due(now) && env.policy(s.tick, st.byKey[key]).Block? ==>
            && s'.log == s.log + [AttentionEvent(key, PolicyBlocked, env.policy(s.tick, st.byKey[key]).reason, now)]
            && s'.tick == s.tick + 1
            && s'.report == s.report.(needsAttention := s.report.needsAttention + [key]))
  {
    hide Replay;
  }

  lemma OthersStayTwice(a: ReplayState, b: ReplayState, c: ReplayState, key: string)
    requires OthersStay(a, b, key) && OthersStay(b, c, key)
    ensures OthersStay(a, c, key)
  {
  }

  // ── The report ──────────────────────────────────────────────────────────────

  // The kind of event that ends an attempt in a state.
  predicate EndsIn(ev: Event, state: QueueState) {
    match state
    case Done => ev.DoneEvent?
    case Retrying => ev.RetryingEvent?
    case NeedsAttention => ev.AttentionEvent?
    case _ => false
  }

  // The keys of the events of one kind, in order.
  function KeysWhere(evs: seq<Event>, state: QueueState): seq<string> {
    if evs == [] then []
    else KeysWhere(evs[..|evs| - 1], state) + if EndsIn(evs[|evs| - 1], state) then [evs[|evs| - 1].Target()] else []
  }

  lemma {:induction false} KeysWhereParts(a: seq<Event>, b: seq<Event>, state: QueueState)
    ensures KeysWhere(a + b, state) == KeysWhere(a, state) + KeysWhere(b, state)
    decreases |b|
  {
    if b == [] {
      assert a + b == a;
    } else {
      assert (a + b)[..|a + b| - 1] == a + b[..|b| - 1];
      KeysWhereParts(a, b[..|b| - 1], state);
    }
  }

  lemma KeysWhereOne(ev: Event, state: QueueState)
    ensures KeysWhere([ev], state) == if EndsIn(ev, state) then [ev.Target()] else []
  {
    assert [ev][..0] == [];
  }

  // The report grows by exactly what `evs` say.
  ghost predicate Tells(r: RunReport, r': RunReport, evs: seq<Event>) {
    && r'.done == r.done + KeysWhere(evs, Done)
    && r'.retrying == r.retrying + KeysWhere(evs, Retrying)
    && r'.needsAttention == r.needsAttention + KeysWhere(evs, NeedsAttention)
  }

  lemma TellsTwice(r0: RunReport, r1: RunReport, r2: RunReport, a: seq<Event>, b: seq<Event>)
    requires Tells(r0, r1, a) && Tells(r1, r2, b)
    ensures Tells(r0, r2, a + b)
  {
    KeysWhereParts(a, b, Done);
    KeysWhereParts(a, b, Retrying);
    KeysWhereParts(a, b, NeedsAttention);
    hide KeysWhere;
  }

  lemma TellsNothing(r: RunReport)
    ensures Tells(r, r, [])
  {
  }

  lemma TellsOne(r: RunReport, key: string, ev: Event)
    requires !ev.EnqueuedEvent? && ev.key == key
    requires ev.DoneEvent? || ev.RetryingEvent? || ev.AttentionEvent?
    ensures Tells(r, Report(r, key, ev), [ev])
  {
    KeysWhereOne(ev, Done);
    KeysWhereOne(ev, Retrying);
    KeysWhereOne(ev, NeedsAttention);
    hide KeysWhere;
  }

  lemma TellsSending(r: RunReport, ev: Event)
    requires ev.SendingEvent?
    ensures Tells(r, r, [ev])
  {
    KeysWhereOne(ev, Done);
    KeysWhereOne(ev, Retrying);
    KeysWhereOne(ev, NeedsAttention);
    hide KeysWhere;
  }

  lemma AttemptTells(env: Env, s: PassState, key: string) returns (evs: seq<Event>)
    ensures Attempt(env, s, key).log == s.log + evs
    ensures Tells(s.report, Attempt(env, s, key).report, evs)
    ensures Attempt(env, s, key).report.held == s.report.held && Attempt(env, s, key).report.stopped == s.report.stopped
  {
    var st, now := Replay(s.log), env.clock(s.tick);
    var verdict := VerdictFor(env, st, s.tick, key);
    var c := ClaimDecision(st, key, now, verdict);
    AttemptResult(env, s, key, c);
    hide Attempt, Replay, Tells, KeysWhere;
    evs := ClaimEvents(c, key, now, verdict);
    match c
    case Skip =>
      assert s.log + evs == s.log;
      TellsNothing(s.report);
    case Blocked => TellsOne(s.report, key, evs[0]);
    case Claimed(e, attempt) =>
      var ev := OutcomeEvent(env.retry, key, attempt, Classified(env.execute(s.tick, e)), env.clock(s.tick + 1));
      TellsSending(s.report, evs[0]);
      TellsOne(s.report, key, ev);
      TellsTwice(s.report, s.report, Report(s.report, key, ev), evs, [ev]);
      Associate(s.log, evs, [ev]);
      evs := evs + [ev];
  }

  // What a pass has left behind so far: the keys held back and stopped, with the moment of each look.
  ghost predicate LeftBehind(env: Env, s: PassState, cs: seq<Candidate>, verdict: HoldVerdict, keys: seq<string>) {
    if cs == [] then keys == []
    else
      var front, key := cs[..|cs| - 1], cs[|cs| - 1].key;
      if Waits(Process(env, s, front).log, key, verdict) then
        keys != [] && keys[|keys| - 1] == key && LeftBehind(env, s, front, verdict, keys[..|keys| - 1])
      else LeftBehind(env, s, front, verdict, keys)
  }

  predicate Waits(log: seq<Event>, key: string, verdict: HoldVerdict) {
    ReplayWellFormed(log);
    key in Replay(log).byKey && Hold(Replay(log).Entries(), Replay(log).byKey[key]) == verdict
  }

  lemma KeyTells(env: Env, s: PassState, key: string) returns (evs: seq<Event>)
    ensures
      var s' := ProcessKey(env, s, key);
      && s'.log == s.log + evs && Tells(s.report, s'.report, evs)
      && s'.report.held == s.report.held + (if Waits(s.log, key, Held) then [key] else [])
      && s'.report.stopped == s.report.stopped + (if Waits(s.log, key, Stopped) then [key] else [])
      && (!Waits(s.log, key, Go) ==> evs == [] && s'.tick == s.tick)
  {
    if Waits(s.log, key, Go) {
      GoesAheadAttempts(env, s, key);
      evs := AttemptTells(env, s, key);
    } else {
      evs := [];
      assert s.log + [] == s.log;
      TellsNothing(s.report);
      TellsNothing(s.report.(held := s.report.held + [key]));
    }
  }

  /** The report of a pass is the journal it wrote: its done, retrying and needs-attention lists are, in
      order, the keys of the events of those kinds that the pass appended, and its held and stopped
      lists are, in order, the candidates that had to wait when their turn came. */
  lemma {:induction false} ReportIsTheJournal(env: Env, s: PassState, cs: seq<Candidate>) returns (evs: seq<Event>)
    requires s.report == NO_REPORT
    ensures
      var s' := Process(env, s, cs);
      && s'.log == s.log + evs && Tells(NO_REPORT, s'.report, evs)
      && LeftBehind(env, s, cs, Held, s'.report.held) && LeftBehind(env, s, cs, Stopped, s'.report.stopped)
    decreases |cs|
  {
    hide ProcessKey, Waits, Tells;
    if cs == [] {
      evs := [];
      TellsNothing(NO_REPORT);
    } else {
      var front, key := cs[..|cs| - 1], cs[|cs| - 1].key;
      var s1 := Process(env, s, front);
      var before := ReportIsTheJournal(env, s, front);
      var now := KeyTells(env, s1, key);
      TellsTwice(NO_REPORT, s1.report, ProcessKey(env, s1, key).report, before, now);
      Associate(s.log, before, now);
      evs := before + now;
      LeftBehindNext(env, s, cs, Held, s1.report.held);
      LeftBehindNext(env, s, cs, Stopped, s1.report.stopped);
    }
  }

  lemma LeftBehindNext(env: Env, s: PassState, cs: seq<Candidate>, verdict: HoldVerdict, keys: seq<string>)
    requires cs != [] && LeftBehind(env, s, cs[..|cs| - 1], verdict, keys)
    ensures var key := cs[|cs| - 1].key;
      LeftBehind(env, s, cs, verdict, keys + if Waits(Process(env, s, cs[..|cs| - 1]).log, key, verdict) then [key] else [])
  {
    hide Waits, Process;
    assert keys + [] == keys;
    assert (keys + [cs[|cs| - 1].key])[..|keys|] == keys;
  }
}
