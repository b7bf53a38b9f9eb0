/** Runs that show why the guarantees of `QueueSafety` are stated with their provisos. */
module QueueLimits {
  import opened Wrappers
  import opened QueueModel
  import opened QueueLaws
  import opened QueueRuns

  lemma SingleEnqueue(log: seq<Event>, a: NewAction, at: int)
    requires a.Key() !in Replay(log).byKey
    ensures Durable(BatchEvents(log, [a], at), 1) == [EnqueuedEvent(a, at)]
  {
    var known := Replay(log).byKey.Keys;
    assert [a][1..] == [];
    assert NewActions(known, [a]) == [a] + NewActions(known + {a.Key()}, []);
  }

  /** The hold check is not repeated under the lock: if a sibling is enqueued between a worker's
      snapshot and its claim, an irrecoverable action is sent while that sibling still waits. */
  lemma HoldIsNotRechecked(retry: RetryPolicy, mail: NewAction, slack: NewAction) returns (steps: seq<Step>)
    requires mail.class_ == Irrecoverable && !mail.ordered && mail.undoOf.None?
    requires slack.class_ != Irrecoverable && slack.undoOf.None?
    requires mail.draftId == slack.draftId && mail.Key() != slack.Key()
    ensures |After(retry, steps).sends| == 1
    ensures
      var w := After(retry, steps);
      && w.sends[0].at <= |w.log|
      && var st := Replay(w.log[..w.sends[0].at]);
      && w.sends[0].key == mail.Key() && InState(w.log, mail.Key(), Sending)
      && slack.Key() in st.byKey && st.byKey[slack.Key()].state == Queued
      && mail.Key() in st.byKey && Precedes(st.byKey[slack.Key()], st.byKey[mail.Key()])
  {
    var e1, e2, e3 := EnqueuedEvent(mail, 0), EnqueuedEvent(slack, 0), SendingEvent(mail.Key(), 1, 0);
    var s1, s2 := Enqueueing([mail], 0, 1), Choosing(0, mail.Key(), 1);
    var s3, s4 := Enqueueing([slack], 0, 1), ClaimingKey(0, 0, Allow);
    var chosen := map[0 := Chosen(mail.Key(), 1)];
    assert After(retry, []) == INIT && Replay([]) == EMPTY;
    ReplayStep([], e1);
    ReplayStep([] + [e1], e2);
    assert InState([] + [e1] + [e2], mail.Key(), Queued) && Replay([] + [e1] + [e2]).byKey[mail.Key()].attempts == 0;
    assert InState([] + [e1] + [e2], slack.Key(), Queued);
    assert Precedes(Replay([] + [e1] + [e2]).byKey[slack.Key()], Replay([] + [e1] + [e2]).byKey[mail.Key()]);
    hide *;
    AfterStep(retry, [], s1);
    EnqueueOne(retry, INIT, mail);
    AfterStep(retry, [] + [s1], s2);
    ChooseFirst(retry, mail);
    AfterStep(retry, [] + [s1] + [s2], s3);
    EnqueueOne(retry, World([] + [e1], chosen, []), slack);
    AfterStep(retry, [] + [s1] + [s2] + [s3], s4);
    steps := [] + [s1] + [s2] + [s3] + [s4];
    ClaimFirst(retry, World([] + [e1] + [e2], chosen, []), mail.Key());
    assert ([] + [e1] + [e2] + [e3])[..2] == [] + [e1] + [e2];
  }

  lemma ClaimFirst(retry: RetryPolicy, w: World, key: string)
    requires InState(w.log, key, Queued) && 0 in w.workers && w.workers[0] == Chosen(key, 1)
    ensures
      var w' := Do(retry, w, ClaimingKey(0, 0, Allow));
      && w'.log == w.log + [SendingEvent(key, Replay(w.log).byKey[key].attempts + 1, 0)]
      && w'.sends == w.sends + [Send(0, key, Replay(w.log).byKey[key].attempts + 1, |w.log|, 1, Allow, 0)]
      && InState(w'.log, key, Sending)
  {
    ReplayStep(w.log, SendingEvent(key, Replay(w.log).byKey[key].attempts + 1, 0));
  }

  lemma EnqueueOne(retry: RetryPolicy, w: World, a: NewAction)
    requires a.Key() !in Replay(w.log).byKey
    ensures Do(retry, w, Enqueueing([a], 0, 1)) == w.(log := w.log + [EnqueuedEvent(a, 0)])
    ensures Replay(w.log + [EnqueuedEvent(a, 0)]) == Enqueue(Replay(w.log), a, 0)
  {
    SingleEnqueue(w.log, a, 0);
    ReplayStep(w.log, EnqueuedEvent(a, 0));
  }

  lemma ChooseFirst(retry: RetryPolicy, a: NewAction)
    requires a.undoOf.None?
    ensures var log := [] + [EnqueuedEvent(a, 0)];
      Do(retry, World(log, map[], []), Choosing(0, a.Key(), 1)) == World(log, map[0 := Chosen(a.Key(), 1)], [])
  {
    var log := [] + [EnqueuedEvent(a, 0)];
    ReplayStep([], EnqueuedEvent(a, 0));
    FreeKeyGoesAhead(log, a.Key());
    assert log[..1] == log;
  }

  // A queued key is claimed by an idle worker that once read it as free to go.
  lemma ReadyKeyIsClaimed(retry: RetryPolicy, w: World, b: nat, key: string, snap: nat, at: int)
    requires b !in w.workers && InState(w.log, key, Queued)
    requires snap <= |w.log| && GoesAhead(w.log[..snap], key)
    ensures
      var w' := Do(retry, Do(retry, w, Choosing(b, key, snap)), ClaimingKey(b, at, Allow));
      && Holds(w', b) && HeldKey(w', b) == key
      && w'.workers == w.workers[b := Holding(|w.sends|)] && w.sends <= w'.sends
  {
    hide GoesAhead, Replay, Hold;
  }

  // ── Why recovery waits ──────────────────────────────────────────────────────

  // Startup recovery run without waiting for the workers.
  function RecoverNow(w: World, at: int): World { w.(log := w.log + InFlightEvents(w.log, at)) }

  lemma {:induction false} SparedKeyStays(log: seq<Event>, evs: seq<Event>, key: string)
    requires key in Replay(log).byKey && forall i | 0 <= i < |evs| :: Spares(log, evs[i], key)
    ensures key in Replay(log + evs).byKey
    ensures Replay(log + evs).byKey[key].state == Replay(log).byKey[key].state
    decreases |evs|
  {
    hide Replay;
    if evs == [] {
      assert log + evs == log;
    } else {
      SparedKey(log, evs[0], key);
      SparedKeyStays(log + [evs[0]], evs[1..], key);
      assert log + evs == (log + [evs[0]]) + evs[1..];
    }
  }

  lemma ReportedOnce(log: seq<Event>, ev: Event)
    requires ev.AttentionEvent? && InState(log, ev.key, Sending)
    ensures InState(log + [ev], ev.key, NeedsAttention)
  {
    ReplayStep(log, ev);
  }

  lemma InStateIs(log: seq<Event>, key: string, s: QueueState)
    ensures InState(log, key, s) <==> key in Replay(log).byKey && Replay(log).byKey[key].state == s
  {
  }

  lemma ReportedKeyWaits(log: seq<Event>, evs: seq<Event>, i: nat)
    requires Reportable(log, evs) && i < |evs|
    ensures InState(log + evs, evs[i].key, NeedsAttention)
  {
    hide InState, Replay;
    var key, before, after := evs[i].key, evs[..i], evs[i + 1..];
    InStateIs(log, key, Sending);
    InStateIs(log + before, key, Sending);
    InStateIs(log + before + [evs[i]], key, NeedsAttention);
    InStateIs(log + evs, key, NeedsAttention);
    assert evs == before + [evs[i]] + after;
    SparedKeyStays(log, before, key);
    ReportedOnce(log + before, evs[i]);
    SparedKeyStays(log + before + [evs[i]], after, key);
    assert log + evs == log + before + [evs[i]] + after;
  }

  lemma {:induction false} SendingIsReported(entries: seq<QueueEntry>, i: nat, at: int) returns (j: nat)
    requires i < |entries| && entries[i].state == Sending
    ensures j < |RecoverEvents(entries, at)| && RecoverEvents(entries, at)[j].Target() == entries[i].key
  {
    if i == 0 {
      j := 0;
    } else {
      j := SendingIsReported(entries[1..], i - 1, at);
      j := j + |InFlightEvent(entries[0], at)|;
    }
  }

  lemma HeldKeyWaits(log: seq<Event>, key: string, at: int)
    requires InState(log, key, Sending)
    ensures InState(log + InFlightEvents(log, at), key, NeedsAttention)
  {
    ReplayWellFormed(log);
    var st := Replay(log);
    assert st.Placed(key);
    var j := SendingIsReported(st.Entries(), st.byKey[key].seqNo, at);
    RecoveryEventsFit(log, at);
    ReportedKeyWaits(log, InFlightEvents(log, at), j);
  }

  lemma ResendQueues(retry: RetryPolicy, w: World, key: string, note: string, at: int)
    requires InState(w.log, key, NeedsAttention)
    ensures var w' := Do(retry, w, Resolving(key, Resend, note, at));
      && InState(w'.log, key, Queued) && w'.workers == w.workers && w'.sends == w.sends && w.log <= w'.log
  {
    ReplayStep(w.log, ResolvedEvent(key, Resend, note, at));
  }

  /** Startup recovery must not run while a worker is mid-send: in every run, were it to, a person
      could re-queue the held key and a second worker would come to hold it too. */
  lemma RecoveryMustWait(retry: RetryPolicy, steps: seq<Step>, a: nat, b: nat, note: string, at: int)
    returns (w': World)
    requires Holds(After(retry, steps), a) && b !in After(retry, steps).workers
    ensures
      var w := After(retry, steps);
      var s := w.sends[w.workers[a].send];
      var resolved := Do(retry, RecoverNow(w, at), Resolving(s.key, Resend, note, at));
      w' == Do(retry, Do(retry, resolved, Choosing(b, s.key, s.snap)), ClaimingKey(b, at, Allow))
    ensures Holds(w', a) && Holds(w', b) && HeldKey(w', a) == HeldKey(w', b)
  {
    var w := After(retry, steps);
    var i := w.workers[a].send;
    var s := w.sends[i];
    HolderRead(retry, steps, a);
    hide Do, InState, After, InFlightEvents, GoesAhead, Replay, Reportable;
    HeldKeyWaits(w.log, s.key, at);
    ResendQueues(retry, RecoverNow(w, at), s.key, note, at);
    var resolved := Do(retry, RecoverNow(w, at), Resolving(s.key, Resend, note, at));
    assert resolved.log[..s.snap] == w.log[..s.snap];
    ReadyKeyIsClaimed(retry, resolved, b, s.key, s.snap, at);
    w' := Do(retry, Do(retry, resolved, Choosing(b, s.key, s.snap)), ClaimingKey(b, at, Allow));
    assert w'.sends[i] == s;
  }

  // A holder once read its key as free to go, and the key is `Sending`.
  lemma HolderRead(retry: RetryPolicy, steps: seq<Step>, a: nat)
    requires Holds(After(retry, steps), a)
    ensures
      var w := After(retry, steps);
      var s := w.sends[w.workers[a].send];
      InState(w.log, s.key, Sending) && s.snap <= |w.log| && GoesAhead(w.log[..s.snap], s.key)
  {
    RunKeepsInv(retry, steps);
    var w := After(retry, steps);
    hide GoesAhead, After, Replay;
    assert PhaseOk(w, a);
    assert SendOk(w.log, w.sends[w.workers[a].send]);
  }

  /** A run from the empty queue that `RecoveryMustWait` applies to: one worker holds a claim. */
  lemma HeldKeyReached(retry: RetryPolicy, mail: NewAction) returns (steps: seq<Step>)
    requires mail.undoOf.None?
    ensures var w := After(retry, steps);
      Holds(w, 0) && HeldKey(w, 0) == mail.Key() && 1 !in w.workers
  {
    var s1, s2, s3 := Enqueueing([mail], 0, 1), Choosing(0, mail.Key(), 1), ClaimingKey(0, 0, Allow);
    var chosen := World([] + [EnqueuedEvent(mail, 0)], map[0 := Chosen(mail.Key(), 1)], []);
    assert After(retry, []) == INIT && Replay([]) == EMPTY;
    ReplayStep([], EnqueuedEvent(mail, 0));
    assert InState(chosen.log, mail.Key(), Queued);
    hide After;
    AfterStep(retry, [], s1);
    EnqueueOne(retry, INIT, mail);
    AfterStep(retry, [] + [s1], s2);
    ChooseFirst(retry, mail);
    AfterStep(retry, [] + [s1] + [s2], s3);
    steps := [] + [s1] + [s2] + [s3];
    ClaimHolds(retry, chosen, mail.Key());
  }

  lemma ClaimHolds(retry: RetryPolicy, w: World, key: string)
    requires InState(w.log, key, Queued) && w.workers == map[0 := Chosen(key, 1)]
    ensures var w' := Do(retry, w, ClaimingKey(0, 0, Allow));
      Holds(w', 0) && HeldKey(w', 0) == key && 1 !in w'.workers
  {
  }
}
