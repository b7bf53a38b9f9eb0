/** The queue as a concurrent system: any number of workers, people and applies interleave at the
    queue lock, any worker can die between any two steps, and an append of several events can be
    torn. Every step uses the decisions of `QueueModel`. */
module QueueRuns {
  import opened Wrappers
  import opened QueueModel
  import opened QueueLaws

  /** What one worker is doing: it has chosen a key from a snapshot (the first `snap` events of
      the journal), or holds a claim and has not called the connector, or has its answer. */
  datatype Phase =
    | Chosen(key: string, snap: nat)
    | Holding(send: nat)
    | Answered(send: nat, outcome: ExecOutcome)
  {
    predicate HoldsClaim() { !Chosen? }
  }

  // History of one claim: where its `Sending` event is, what allowed it, and its connector calls.
  datatype Send = Send(worker: nat, key: string, attempt: nat, at: nat, snap: nat,
                       verdict: PolicyVerdict, calls: nat)

  datatype World = World(log: seq<Event>, workers: map<nat, Phase>, sends: seq<Send>)

  const INIT := World([], map[], [])

  // `durable` is how many of the events of a batch reach the journal: fewer than all is a crash.
  datatype Step =
    | Enqueueing(actions: seq<NewAction>, at: int, durable: nat)
    | Recovering(at: int, durable: nat)
    | Resolving(key: string, resolution: Resolution, note: string, at: int)
    | Undoing(key: string, at: int)
    | Choosing(worker: nat, key: string, snap: nat)
    | ClaimingKey(worker: nat, now: int, verdict: PolicyVerdict)
    | Calling(worker: nat, outcome: ExecOutcome)
    | Recording(worker: nat, at: int)
    | Crashing(worker: nat)

  function Durable(events: seq<Event>, n: nat): seq<Event> {
    if n < |events| then events[..n] else events
  }

  function BatchEvents(log: seq<Event>, actions: seq<NewAction>, at: int): seq<Event> {
    EnqueueEvents(NewActions(Replay(log).byKey.Keys, actions), at)
  }

  function InFlightEvents(log: seq<Event>, at: int): seq<Event> {
    ReplayWellFormed(log);
    RecoverEvents(Replay(log).Entries(), at)
  }

  // Startup recovery runs while no worker is mid-send.
  predicate NoClaimHeld(workers: map<nat, Phase>) {
    forall w | w in workers :: !workers[w].HoldsClaim()
  }

  /** One step. A step that cannot be taken in `w` changes nothing. */
  function Do(retry: RetryPolicy, w: World, step: Step): World {
    match step
    case Enqueueing(actions, at, durable) =>
      w.(log := w.log + Durable(BatchEvents(w.log, actions, at), durable))
    case Recovering(at, durable) =>
      if NoClaimHeld(w.workers) then w.(log := w.log + Durable(InFlightEvents(w.log, at), durable)) else w
    case Resolving(key, resolution, note, at) =>
      (match ResolveDecision(Replay(w.log), key, resolution, note, at)
       case Success(ev) => w.(log := w.log + [ev])
       case Failure(_) => w)
    case Undoing(key, at) =>
      (match UndoDecision(Replay(w.log), key)
       case Success(a) => w.(log := w.log + [EnqueuedEvent(a, at)])
       case Failure(_) => w)
    case Choosing(worker, key, snap) =>
      if worker !in w.workers && snap <= |w.log| && GoesAhead(w.log[..snap], key)
      then w.(workers := w.workers[worker := Chosen(key, snap)]) else w
    case ClaimingKey(worker, now, verdict) =>
      if worker in w.workers && w.workers[worker].Chosen? then ClaimStep(w, worker, now, verdict) else w
    case Calling(worker, outcome) =>
      if worker in w.workers && w.workers[worker].Holding? && w.workers[worker].send < |w.sends| then
        var i := w.workers[worker].send;
        w.(workers := w.workers[worker := Answered(i, outcome)],
           sends := w.sends[i := w.sends[i].(calls := w.sends[i].calls + 1)])
      else w
    case Recording(worker, at) =>
      if worker in w.workers && w.workers[worker].Answered? && w.workers[worker].send < |w.sends| then
        var s := w.sends[w.workers[worker].send];
        w.(workers := w.workers - {worker},
           log := w.log + [OutcomeEvent(retry, s.key, s.attempt, w.workers[worker].outcome, at)])
      else w
    case Crashing(worker) => w.(workers := w.workers - {worker})
  }

  function ClaimStep(w: World, worker: nat, now: int, verdict: PolicyVerdict): World
    requires worker in w.workers && w.workers[worker].Chosen?
  {
    var Chosen(key, snap) := w.workers[worker];
    var c := ClaimDecision(Replay(w.log), key, now, verdict);
    var w' := w.(log := w.log + ClaimEvents(c, key, now, verdict));
    if c.Claimed? then
      w'.(workers := w.workers[worker := Holding(|w.sends|)],
          sends := w.sends + [Send(worker, key, c.attempt, |w.log|, snap, verdict, 0)])
    else w'.(workers := w.workers - {worker})
  }

  /** The state after any sequence of steps. */
  function After(retry: RetryPolicy, steps: seq<Step>): World {
    if steps == [] then INIT else Do(retry, After(retry, steps[..|steps| - 1]), steps[|steps| - 1])
  }

  lemma AfterStep(retry: RetryPolicy, steps: seq<Step>, step: Step)
    ensures After(retry, steps + [step]) == Do(retry, After(retry, steps), step)
  {
    assert (steps + [step])[..|steps + [step]| - 1] == steps;
  }

  // ── The invariant ───────────────────────────────────────────────────────────

  ghost predicate SendOk(log: seq<Event>, s: Send) {
    && s.at < |log| && s.snap <= s.at
    && log[s.at].SendingEvent? && log[s.at].key == s.key && log[s.at].attempt == s.attempt
    && s.verdict == Allow
    && s.calls <= 1
    && GoesAhead(log[..s.snap], s.key)
  }

  ghost predicate SendsOk(log: seq<Event>, sends: seq<Send>) {
    && (forall i | 0 <= i < |sends| :: SendOk(log, sends[i]))
    && (forall i, j | 0 <= i < j < |sends| :: sends[i].at < sends[j].at)
  }

  ghost predicate PhaseOk(w: World, id: nat)
    requires id in w.workers
  {
    match w.workers[id]
    case Chosen(key, snap) => snap <= |w.log| && GoesAhead(w.log[..snap], key)
    case Holding(i) => HolderOk(w, id, i) && w.sends[i].calls == 0
    case Answered(i, _) => HolderOk(w, id, i)
  }

  // The holder's key is `Sending`, at the attempt the holder was given, and nobody claimed it since.
  ghost predicate HolderOk(w: World, id: nat, i: nat) {
    && i < |w.sends| && w.sends[i].worker == id
    && Latest(w.sends, i)
    && InState(w.log, w.sends[i].key, Sending)
    && Replay(w.log).byKey[w.sends[i].key].attempts == w.sends[i].attempt
  }

  predicate Holds(w: World, id: nat) {
    id in w.workers && w.workers[id].HoldsClaim() && w.workers[id].send < |w.sends|
  }

  function HeldKey(w: World, id: nat): string
    requires Holds(w, id)
  {
    w.sends[w.workers[id].send].key
  }

  ghost predicate Latest(sends: seq<Send>, i: nat)
    requires i < |sends|
  {
    forall j | i < j < |sends| :: sends[j].key != sends[i].key
  }

  // No two workers hold a claim on one key.
  lemma HoldersApart(w: World, a: nat, b: nat)
    requires Holds(w, a) && Holds(w, b) && a != b && PhaseOk(w, a) && PhaseOk(w, b)
    ensures HeldKey(w, a) != HeldKey(w, b)
  {
    var i, j := w.workers[a].send, w.workers[b].send;
    assert i != j;
  }

  ghost predicate Inv(retry: RetryPolicy, w: World) {
    && Lawful(retry, w.log)
    && SendsOk(w.log, w.sends)
    && (forall id | id in w.workers :: PhaseOk(w, id))
  }

  // ── Every step keeps it ─────────────────────────────────────────────────────

  // Appending one event leaves a key's state and attempts alone.
  predicate Spares(log: seq<Event>, ev: Event, key: string) {
    ev.EnqueuedEvent? || ev.key != key
  }

  lemma SparedKey(log: seq<Event>, ev: Event, key: string)
    requires Spares(log, ev, key) && key in Replay(log).byKey
    ensures key in Replay(log + [ev]).byKey
    ensures Replay(log + [ev]).byKey[key].state == Replay(log).byKey[key].state
    ensures Replay(log + [ev]).byKey[key].attempts == Replay(log).byKey[key].attempts
  {
    ReplayStep(log, ev);
  }

  lemma SendsOkAppend(log: seq<Event>, more: seq<Event>, sends: seq<Send>)
    requires SendsOk(log, sends)
    ensures SendsOk(log + more, sends)
  {
    forall i | 0 <= i < |sends| ensures SendOk(log + more, sends[i]) {
      var s := sends[i];
      assert SendOk(log, s);
      assert (log + more)[s.at] == log[s.at];
      assert (log + more)[..s.snap] == log[..s.snap];
    }
  }

  // A legal event that spares every held key keeps the invariant.
  lemma AppendKeepsInv(retry: RetryPolicy, w: World, ev: Event)
    requires Inv(retry, w) && LegalEvent(retry, Replay(w.log), ev)
    requires forall id | Holds(w, id) :: Spares(w.log, ev, HeldKey(w, id))
    ensures Inv(retry, w.(log := w.log + [ev]))
  {
    var w' := w.(log := w.log + [ev]);
    LawfulStep(retry, w.log, ev);
    SendsOkAppend(w.log, [ev], w.sends);
    forall id | id in w'.workers ensures PhaseOk(w', id) {
      assert PhaseOk(w, id);
      if w.workers[id].Chosen? {
        assert w'.log[..w.workers[id].snap] == w.log[..w.workers[id].snap];
      } else {
        SparedKey(w.log, ev, HeldKey(w, id));
      }
    }
  }

  // Removing a worker keeps the invariant.
  lemma LeaveKeepsInv(retry: RetryPolicy, w: World, id: nat)
    requires Inv(retry, w)
    ensures Inv(retry, w.(workers := w.workers - {id}))
  {
    var w' := w.(workers := w.workers - {id});
    forall x | x in w'.workers ensures PhaseOk(w', x) { assert PhaseOk(w, x); }
  }

  lemma {:induction false} EnqueuesKeepInv(retry: RetryPolicy, w: World, evs: seq<Event>)
    requires Inv(retry, w) && forall i | 0 <= i < |evs| :: evs[i].EnqueuedEvent?
    ensures Inv(retry, w.(log := w.log + evs))
    decreases |evs|
  {
    if evs == [] {
      assert w.log + evs == w.log;
    } else {
      var rest, w1 := evs[1..], w.(log := w.log + [evs[0]]);
      AppendKeepsInv(retry, w, evs[0]);
      assert forall i | 0 <= i < |rest| :: rest[i] == evs[i + 1];
      EnqueuesKeepInv(retry, w1, rest);
      assert w.log + evs == w1.log + rest;
    }
  }

  ghost predicate Reports(entries: seq<QueueEntry>, ev: Event) {
    ev.AttentionEvent? && ev.reason == UnknownOutcome
    && exists e :: e in entries && e.state == Sending && e.key == ev.key
  }

  lemma {:induction false} RecoveredKeys(entries: seq<QueueEntry>, at: int)
    ensures forall i | 0 <= i < |RecoverEvents(entries, at)| :: Reports(entries, RecoverEvents(entries, at)[i])
  {
    if entries != [] {
      RecoveredKeys(entries[1..], at);
      var evs, rest := RecoverEvents(entries, at), RecoverEvents(entries[1..], at);
      forall i | 0 <= i < |evs| ensures Reports(entries, evs[i]) {
        if i == 0 && entries[0].state == Sending {
          assert entries[0] in entries;
        } else {
          assert Reports(entries[1..], evs[i]);
          var e :| e in entries[1..] && e.state == Sending && e.key == evs[i].key;
          assert e in entries;
        }
      }
    }
  }

  predicate DistinctTargets(evs: seq<Event>) {
    forall i, j | 0 <= i < j < |evs| :: evs[i].Target() != evs[j].Target()
  }

  lemma {:induction false} RecoveredKeysDistinct(entries: seq<QueueEntry>, at: int)
    requires forall i, j | 0 <= i < j < |entries| :: entries[i].key != entries[j].key
    ensures DistinctTargets(RecoverEvents(entries, at))
  {
    if entries != [] {
      RecoveredKeysDistinct(entries[1..], at);
      RecoveredKeys(entries[1..], at);
      var evs, rest := RecoverEvents(entries, at), RecoverEvents(entries[1..], at);
      if entries[0].state == Sending {
        assert evs[1..] == rest;
        forall j | 0 <= j < |rest| ensures rest[j].Target() != entries[0].key {
          assert Reports(entries[1..], rest[j]);
          var e :| e in entries[1..] && e.state == Sending && e.key == rest[j].key;
        }
        forall i, j | 0 <= i < j < |evs| ensures evs[i].Target() != evs[j].Target() {
          assert evs[j] == rest[j - 1];
          if i > 0 { assert evs[i] == rest[i - 1]; }
        }
      } else {
        assert evs == rest;
      }
    }
  }

  // Each event reports another key that is `Sending`.
  ghost predicate Reportable(log: seq<Event>, evs: seq<Event>) {
    && (forall i | 0 <= i < |evs| :: evs[i].AttentionEvent? && InState(log, evs[i].key, Sending))
    && DistinctTargets(evs)
  }

  lemma ReportableRest(log: seq<Event>, evs: seq<Event>)
    requires Reportable(log, evs) && evs != []
    ensures Reportable(log + [evs[0]], evs[1..])
  {
    var rest := evs[1..];
    forall i | 0 <= i < |rest| ensures rest[i].AttentionEvent? && InState(log + [evs[0]], rest[i].key, Sending) {
      assert rest[i] == evs[i + 1];
      SparedKey(log, evs[0], rest[i].key);
    }
    forall i, j | 0 <= i < j < |rest| ensures rest[i].Target() != rest[j].Target() {
      assert rest[i] == evs[i + 1] && rest[j] == evs[j + 1];
    }
  }

  lemma {:induction false} AttentionsKeepInv(retry: RetryPolicy, w: World, evs: seq<Event>)
    requires Inv(retry, w) && NoClaimHeld(w.workers) && Reportable(w.log, evs)
    ensures Inv(retry, w.(log := w.log + evs))
    decreases |evs|
  {
    if evs == [] {
      assert w.log + evs == w.log;
    } else {
      var rest, w1 := evs[1..], w.(log := w.log + [evs[0]]);
      hide Replay, SendsOk, PhaseOk, Lawful;
      AppendKeepsInv(retry, w, evs[0]);
      ReportableRest(w.log, evs);
      AttentionsKeepInv(retry, w1, rest);
      assert w.log + evs == w1.log + rest;
    }
  }

  lemma RecoveryEventsFit(log: seq<Event>, at: int)
    ensures Reportable(log, InFlightEvents(log, at))
  {
    ReplayWellFormed(log);
    var st := Replay(log);
    var es := st.Entries();
    RecoveredKeys(es, at);
    forall i | 0 <= i < |es| ensures es[i].key == st.order[i] && es[i] == st.byKey[st.order[i]] && es[i].seqNo == i {
      assert st.Placed(st.order[i]);
    }
    RecoveredKeysDistinct(es, at);
    forall i | 0 <= i < |InFlightEvents(log, at)|
      ensures InState(log, InFlightEvents(log, at)[i].key, Sending)
    {
      assert Reports(es, InFlightEvents(log, at)[i]);
      var e :| e in es && e.state == Sending && e.key == InFlightEvents(log, at)[i].key;
    }
  }

  lemma RecoverKeepsInv(retry: RetryPolicy, w: World, at: int, durable: nat)
    requires Inv(retry, w) && NoClaimHeld(w.workers)
    ensures Inv(retry, w.(log := w.log + Durable(InFlightEvents(w.log, at), durable)))
  {
    RecoveryEventsFit(w.log, at);
    AttentionsKeepInv(retry, w, Durable(InFlightEvents(w.log, at), durable));
  }

  lemma ClaimKeepsInv(retry: RetryPolicy, w: World, worker: nat, now: int, verdict: PolicyVerdict)
    requires Inv(retry, w) && worker in w.workers && w.workers[worker].Chosen?
    ensures Inv(retry, ClaimStep(w, worker, now, verdict))
  {
    var Chosen(key, snap) := w.workers[worker];
    var c := ClaimDecision(Replay(w.log), key, now, verdict);
    var idle := w.(workers := w.workers - {worker});
    if c.Claimed? {
      ClaimedKeepsInv(retry, w, worker, now, verdict);
    } else {
      LeaveKeepsInv(retry, w, worker);
      if c.Skip? {
        assert w.log + ClaimEvents(c, key, now, verdict) == w.log;
      } else {
        var ev := ClaimEvents(c, key, now, verdict)[0];
        forall id | Holds(idle, id) ensures Spares(w.log, ev, HeldKey(idle, id)) {
          assert PhaseOk(w, id);
        }
        AppendKeepsInv(retry, idle, ev);
      }
    }
  }

  lemma ClaimedSendsOk(log: seq<Event>, sends: seq<Send>, s: Send, ev: Event)
    requires SendsOk(log, sends) && SendOk(log + [ev], s) && s.at == |log|
    ensures SendsOk(log + [ev], sends + [s])
  {
    SendsOkAppend(log, [ev], sends);
    forall i | 0 <= i < |sends + [s]| ensures SendOk(log + [ev], (sends + [s])[i]) {
      if i < |sends| { assert (sends + [s])[i] == sends[i]; }
    }
    forall i, j | 0 <= i < j < |sends + [s]| ensures (sends + [s])[i].at < (sends + [s])[j].at {
      assert SendOk(log, sends[i]);
    }
  }

  // Another worker's phase survives the new claim: its key is `Sending`, the claimed one was not.
  lemma ClaimedPhaseOk(w: World, w2: World, id: nat, s: Send, ev: Event)
    requires id in w.workers && PhaseOk(w, id)
    requires ev.SendingEvent? && ev.key == s.key && !InState(w.log, s.key, Sending)
    requires w2.log == w.log + [ev] && w2.sends == w.sends + [s]
    requires id in w2.workers && w2.workers[id] == w.workers[id]
    ensures PhaseOk(w2, id)
  {
    if w.workers[id].Chosen? {
      assert w2.log[..w.workers[id].snap] == w.log[..w.workers[id].snap];
    } else {
      var i := w.workers[id].send;
      assert w2.sends[i] == w.sends[i];
      SparedKey(w.log, ev, w.sends[i].key);
    }
  }

  lemma ClaimedKeepsInv(retry: RetryPolicy, w: World, worker: nat, now: int, verdict: PolicyVerdict)
    requires Inv(retry, w) && worker in w.workers && w.workers[worker].Chosen?
    requires ClaimDecision(Replay(w.log), w.workers[worker].key, now, verdict).Claimed?
    ensures Inv(retry, ClaimStep(w, worker, now, verdict))
  {
    var Chosen(key, snap) := w.workers[worker];
    var w2 := ClaimStep(w, worker, now, verdict);
    var s := w2.sends[|w.sends|];
    var ev := SendingEvent(key, s.attempt, now);
    assert w2.log == w.log + [ev] && w2.sends == w.sends + [s];
    assert PhaseOk(w, worker);
    assert w2.log[..snap] == w.log[..snap];
    LawfulStep(retry, w.log, ev);
    ClaimedSendsOk(w.log, w.sends, s, ev);
    ReplayStep(w.log, ev);
    forall id | id in w2.workers ensures PhaseOk(w2, id) {
      if id != worker {
        assert PhaseOk(w, id);
        ClaimedPhaseOk(w, w2, id, s, ev);
      }
    }
  }

  lemma CalledSendsOk(log: seq<Event>, sends: seq<Send>, i: nat)
    requires SendsOk(log, sends) && i < |sends| && sends[i].calls == 0
    ensures SendsOk(log, sends[i := sends[i].(calls := 1)])
  {
    var sends' := sends[i := sends[i].(calls := 1)];
    forall j | 0 <= j < |sends'| ensures SendOk(log, sends'[j]) {
      assert SendOk(log, sends[j]);
      assert sends'[j] == sends[j].(calls := sends'[j].calls);
    }
    assert forall j | 0 <= j < |sends| :: sends'[j].at == sends[j].at;
  }

  lemma CallKeepsInv(retry: RetryPolicy, w: World, worker: nat, outcome: ExecOutcome)
    requires Inv(retry, w) && worker in w.workers && w.workers[worker].Holding?
    ensures Inv(retry, Do(retry, w, Calling(worker, outcome)))
  {
    assert PhaseOk(w, worker);
    var i := w.workers[worker].send;
    var w' := Do(retry, w, Calling(worker, outcome));
    CalledSendsOk(w.log, w.sends, i);
    assert w'.sends == w.sends[i := w.sends[i].(calls := 1)];
    forall id | id in w'.workers ensures PhaseOk(w', id) { CalledPhaseOk(w, w', worker, id); }
  }

  lemma CalledPhaseOk(w: World, w': World, worker: nat, id: nat)
    requires worker in w.workers && w.workers[worker].Holding? && PhaseOk(w, worker)
    requires id in w.workers && PhaseOk(w, id)
    requires var i := w.workers[worker].send;
      && w'.log == w.log && w'.sends == w.sends[i := w.sends[i].(calls := 1)]
      && worker in w'.workers && w'.workers[worker].Answered? && w'.workers[worker].send == i
      && (id != worker ==> id in w'.workers && w'.workers[id] == w.workers[id])
    ensures PhaseOk(w', id)
  {
    var i := w.workers[worker].send;
    assert forall j | 0 <= j < |w.sends| ::
      w'.sends[j].key == w.sends[j].key && w'.sends[j].worker == w.sends[j].worker && w'.sends[j].attempt == w.sends[j].attempt;
  }

  lemma RecordKeepsInv(retry: RetryPolicy, w: World, worker: nat, at: int)
    requires Inv(retry, w) && worker in w.workers && w.workers[worker].Answered?
    ensures Inv(retry, Do(retry, w, Recording(worker, at)))
  {
    assert PhaseOk(w, worker);
    var s := w.sends[w.workers[worker].send];
    var ev := OutcomeEvent(retry, s.key, s.attempt, w.workers[worker].outcome, at);
    var idle := w.(workers := w.workers - {worker});
    OutcomeIsLegal(retry, w.log, s, w.workers[worker].outcome, at);
    hide Replay, Lawful, LegalEvent, SendsOk, GoesAhead, OutcomeEvent;
    LeaveKeepsInv(retry, w, worker);
    forall id | Holds(idle, id)
      ensures Spares(w.log, ev, HeldKey(idle, id))
    {
      assert PhaseOk(w, id);
      HoldersApart(w, id, worker);
    }
    AppendKeepsInv(retry, idle, ev);
  }

  lemma OutcomeIsLegal(retry: RetryPolicy, log: seq<Event>, s: Send, outcome: ExecOutcome, at: int)
    requires InState(log, s.key, Sending) && Replay(log).byKey[s.key].attempts == s.attempt
    ensures var ev := OutcomeEvent(retry, s.key, s.attempt, outcome, at);
      LegalEvent(retry, Replay(log), ev) && ev.Target() == s.key && !ev.EnqueuedEvent?
  {
    hide Replay;
  }

  lemma ResolveKeepsInv(retry: RetryPolicy, w: World, key: string, resolution: Resolution, note: string, at: int)
    requires Inv(retry, w)
    ensures Inv(retry, Do(retry, w, Resolving(key, resolution, note, at)))
  {
    var d := ResolveDecision(Replay(w.log), key, resolution, note, at);
    if d.Success? {
      forall id | Holds(w, id)
        ensures Spares(w.log, d.value, HeldKey(w, id))
      {
        assert PhaseOk(w, id);
      }
      AppendKeepsInv(retry, w, d.value);
    }
  }

  lemma StepKeepsInv(retry: RetryPolicy, w: World, step: Step)
    requires Inv(retry, w)
    ensures Inv(retry, Do(retry, w, step))
  {
    match step
    case Enqueueing(actions, at, durable) =>
      EnqueuesKeepInv(retry, w, Durable(BatchEvents(w.log, actions, at), durable));
    case Recovering(at, durable) =>
      if NoClaimHeld(w.workers) { RecoverKeepsInv(retry, w, at, durable); }
    case Resolving(key, resolution, note, at) => ResolveKeepsInv(retry, w, key, resolution, note, at);
    case Undoing(key, at) =>
      var d := UndoDecision(Replay(w.log), key);
      if d.Success? { EnqueuesKeepInv(retry, w, [EnqueuedEvent(d.value, at)]); }
    case Choosing(worker, key, snap) =>
      var w' := Do(retry, w, step);
      forall id | id in w'.workers ensures PhaseOk(w', id) {
        if id in w.workers { assert PhaseOk(w, id); }
      }
    case ClaimingKey(worker, now, verdict) =>
      if worker in w.workers && w.workers[worker].Chosen? { ClaimKeepsInv(retry, w, worker, now, verdict); }
    case Calling(worker, outcome) =>
      if worker in w.workers && w.workers[worker].Holding? { CallKeepsInv(retry, w, worker, outcome); }
    case Recording(worker, at) =>
      if worker in w.workers && w.workers[worker].Answered? { RecordKeepsInv(retry, w, worker, at); }
    case Crashing(worker) => LeaveKeepsInv(retry, w, worker);
  }

  lemma {:induction false} RunKeepsInv(retry: RetryPolicy, steps: seq<Step>)
    ensures Inv(retry, After(retry, steps))
  {
    if steps != [] {
      RunKeepsInv(retry, steps[..|steps| - 1]);
      StepKeepsInv(retry, After(retry, steps[..|steps| - 1]), steps[|steps| - 1]);
    }
  }
}
