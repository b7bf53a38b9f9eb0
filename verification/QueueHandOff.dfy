/** Exactly-once hand-off: however often an interrupted apply writes its batch to the queue, torn
    or whole, and whatever workers and people do meanwhile, the queue ends up with each distinct
    action of the batch exactly once, in batch order. */
module QueueHandOff {
  import opened Wrappers
  import opened QueueModel
  import opened QueueLaws
  import opened QueueRuns

  // The first action of each key, in order.
  function Distinct(actions: seq<NewAction>): seq<NewAction> { NewActions({}, actions) }

  // ── What a batch still has to add ───────────────────────────────────────────

  function Without(actions: seq<NewAction>, keys: set<string>): seq<NewAction> {
    if actions == [] then []
    else (if actions[0].Key() in keys then [] else [actions[0]]) + Without(actions[1..], keys)
  }

  lemma {:induction false} NewActionsWithout(base: set<string>, keys: set<string>, actions: seq<NewAction>)
    ensures NewActions(base + keys, actions) == Without(NewActions(base, actions), keys)
    decreases |actions|
  {
    if actions != [] {
      var k := actions[0].Key();
      if k in base {
        NewActionsWithout(base, keys, actions[1..]);
      } else {
        NewActionsWithout(base + {k}, keys, actions[1..]);
        assert NewActions(base, actions)[1..] == NewActions(base + {k}, actions[1..]);
        if k in keys {
          assert base + keys == (base + {k}) + keys;
        } else {
          assert (base + keys) + {k} == (base + {k}) + keys;
        }
      }
    }
  }

  predicate DistinctKeys(d: seq<NewAction>) {
    forall i, j | 0 <= i < j < |d| :: d[i].Key() != d[j].Key()
  }

  lemma KeySetTail(actions: seq<NewAction>)
    requires actions != []
    ensures KeySet(actions) == {actions[0].Key()} + KeySet(actions[1..])
  {
    assert forall i | 0 <= i < |actions| - 1 :: actions[1..][i] == actions[i + 1];
    forall x | x in KeySet(actions[1..]) ensures x in KeySet(actions) {
      var i :| 0 <= i < |actions| - 1 && actions[1..][i].Key() == x;
      assert actions[i + 1].Key() == x;
    }
    forall x | x in KeySet(actions) && x != actions[0].Key() ensures x in KeySet(actions[1..]) {
      var i :| 0 <= i < |actions| && actions[i].Key() == x;
      assert actions[1..][i - 1].Key() == x;
    }
  }

  lemma {:induction false} NewActionsDistinct(known: set<string>, actions: seq<NewAction>)
    ensures DistinctKeys(NewActions(known, actions))
    ensures KeySet(NewActions(known, actions)) == KeySet(actions) - known
    ensures forall i | 0 <= i < |NewActions(known, actions)| ::
      NewActions(known, actions)[i].Key() in KeySet(actions) && NewActions(known, actions)[i].Key() !in known
    decreases |actions|
  {
    if actions != [] {
      KeySetTail(actions);
      var k, d := actions[0].Key(), NewActions(known, actions);
      if k in known {
        NewActionsDistinct(known, actions[1..]);
      } else {
        NewActionsDistinct(known + {k}, actions[1..]);
        var rest := NewActions(known + {k}, actions[1..]);
        assert d[1..] == rest;
        KeySetTail(d);
        forall i, j | 0 <= i < j < |d| ensures d[i].Key() != d[j].Key() {
          assert d[j] == rest[j - 1];
          if i > 0 { assert d[i] == rest[i - 1]; }
        }
      }
      forall i | 0 <= i < |d| ensures d[i].Key() in KeySet(actions) && d[i].Key() !in known {
        assert d[i].Key() in KeySet(d);
      }
    }
  }

  // Dropping the keys of a prefix leaves the rest.
  lemma {:induction false} WithoutPrefix(d: seq<NewAction>, m: nat, keys: set<string>)
    requires m <= |d| && DistinctKeys(d)
    requires forall i | 0 <= i < |d| :: d[i].Key() in keys <==> i < m
    ensures Without(d, keys) == d[m..]
    decreases |d|
  {
    if d != [] {
      assert forall i | 0 <= i < |d| - 1 :: d[1..][i] == d[i + 1];
      if m == 0 {
        WithoutPrefix(d[1..], 0, keys);
      } else {
        WithoutPrefix(d[1..], m - 1, keys);
        assert d[1..][m - 1..] == d[m..];
      }
    }
  }

  // ── The state of the hand-off ───────────────────────────────────────────────

  function Mine(order: seq<string>, keys: set<string>): seq<string> {
    if order == [] then []
    else Mine(order[..|order| - 1], keys) + if order[|order| - 1] in keys then [order[|order| - 1]] else []
  }

  /** The first `m` distinct actions of the batch are queued, each once and in batch order, and
      no other of its keys is. */
  ghost predicate HandedOff(st: ReplayState, batch: seq<NewAction>, m: nat) {
    var d := Distinct(batch);
    && m <= |d|
    && Mine(st.order, KeySet(batch)) == ActionKeys(d[..m])
    && (forall i | 0 <= i < m :: d[i].Key() in st.byKey && st.byKey[d[i].Key()].action == d[i])
    && (forall i | m <= i < |d| :: d[i].Key() !in st.byKey)
  }

  // What a complete batch append has to write is exactly the rest of the batch.
  lemma RestOfBatch(st: ReplayState, batch: seq<NewAction>, m: nat)
    requires HandedOff(st, batch, m)
    ensures NewActions(st.byKey.Keys, batch) == Distinct(batch)[m..]
  {
    var d := Distinct(batch);
    NewActionsWithout({}, st.byKey.Keys, batch);
    assert {} + st.byKey.Keys == st.byKey.Keys;
    NewActionsDistinct({}, batch);
    WithoutPrefix(d, m, st.byKey.Keys);
  }

  lemma MineStep(order: seq<string>, k: string, keys: set<string>)
    ensures Mine(order + [k], keys) == Mine(order, keys) + if k in keys then [k] else []
  {
    assert (order + [k])[..|order + [k]| - 1] == order;
  }

  lemma HandOffNext(log: seq<Event>, batch: seq<NewAction>, m: nat, at: int)
    requires HandedOff(Replay(log), batch, m) && m < |Distinct(batch)|
    ensures HandedOff(Replay(log + [EnqueuedEvent(Distinct(batch)[m], at)]), batch, m + 1)
  {
    var d, st := Distinct(batch), Replay(log);
    var st' := Replay(log + [EnqueuedEvent(d[m], at)]);
    ReplayStep(log, EnqueuedEvent(d[m], at));
    NewActionsDistinct({}, batch);
    MineStep(st.order, d[m].Key(), KeySet(batch));
    assert ActionKeys(d[..m + 1]) == ActionKeys(d[..m]) + [d[m].Key()];
  }

  lemma {:induction false} HandOffPrefix(log: seq<Event>, batch: seq<NewAction>, m: nat, n: nat, at: int)
    requires HandedOff(Replay(log), batch, m) && m <= n <= |Distinct(batch)|
    ensures HandedOff(Replay(log + EnqueueEvents(Distinct(batch)[m..n], at)), batch, n)
    decreases n - m
  {
    var d := Distinct(batch);
    if m == n {
      assert log + EnqueueEvents(d[m..n], at) == log;
    } else {
      var ev := EnqueuedEvent(d[m], at);
      HandOffNext(log, batch, m, at);
      HandOffPrefix(log + [ev], batch, m + 1, n, at);
      assert log + EnqueueEvents(d[m..n], at) == (log + [ev]) + EnqueueEvents(d[m + 1..n], at);
    }
  }

  /** A batch append, torn after any number of events, moves the hand-off forward; a whole one
      finishes it. */
  lemma BatchMovesOn(log: seq<Event>, batch: seq<NewAction>, m: nat, at: int, durable: nat)
    returns (n: nat)
    requires HandedOff(Replay(log), batch, m)
    ensures m <= n <= |Distinct(batch)|
    ensures HandedOff(Replay(log + Durable(BatchEvents(log, batch, at), durable)), batch, n)
    ensures durable >= |batch| ==> n == |Distinct(batch)|
  {
    var d := Distinct(batch);
    RestOfBatch(Replay(log), batch, m);
    n := if durable < |d| - m then m + durable else |d|;
    NewActionsShorter({}, batch);
    assert Durable(EnqueueEvents(d[m..], at), durable) == EnqueueEvents(d[m..n], at);
    HandOffPrefix(log, batch, m, n, at);
  }

  lemma {:induction false} NewActionsShorter(known: set<string>, actions: seq<NewAction>)
    ensures |NewActions(known, actions)| <= |actions|
    decreases |actions|
  {
    if actions != [] {
      NewActionsShorter(known, actions[1..]);
      NewActionsShorter(known + {actions[0].Key()}, actions[1..]);
    }
  }

  // Any other event leaves the hand-off where it is.
  lemma OtherEvent(log: seq<Event>, ev: Event, batch: seq<NewAction>, m: nat)
    requires HandedOff(Replay(log), batch, m)
    requires ev.EnqueuedEvent? ==> ev.action.Key() !in KeySet(batch)
    ensures HandedOff(Replay(log + [ev]), batch, m)
  {
    ReplayStep(log, ev);
    if ev.EnqueuedEvent? {
      OtherEnqueue(Replay(log), ev.action, ev.at, batch, m);
    }
  }

  lemma OtherEnqueue(st: ReplayState, a: NewAction, at: int, batch: seq<NewAction>, m: nat)
    requires HandedOff(st, batch, m) && a.Key() !in KeySet(batch)
    ensures HandedOff(Enqueue(st, a, at), batch, m)
  {
    NewActionsDistinct({}, batch);
    MineStep(st.order, a.Key(), KeySet(batch));
    var st' := Enqueue(st, a, at);
    assert forall k | k in st.byKey :: k in st'.byKey && st'.byKey[k].action == st.byKey[k].action;
    assert forall k | k in st'.byKey && k !in st.byKey :: k == a.Key();
  }

  lemma {:induction false} OtherEvents(log: seq<Event>, evs: seq<Event>, batch: seq<NewAction>, m: nat)
    requires HandedOff(Replay(log), batch, m)
    requires forall i | 0 <= i < |evs| :: evs[i].EnqueuedEvent? ==> evs[i].action.Key() !in KeySet(batch)
    ensures HandedOff(Replay(log + evs), batch, m)
    decreases |evs|
  {
    if evs == [] {
      assert log + evs == log;
    } else {
      OtherEvent(log, evs[0], batch, m);
      OtherEvents(log + [evs[0]], evs[1..], batch, m);
      assert log + evs == (log + [evs[0]]) + evs[1..];
    }
  }

  // ── Whole runs ──────────────────────────────────────────────────────────────

  // Keys of the form `<draft>:undo-<id>` belong to undo entries.
  ghost predicate UndoKey(key: string) {
    exists d: string, x: string :: key == MakeKey(d, "undo-" + x)
  }

  /** The only writer of the batch's keys is the apply that owns them: other batches have other
      keys, and no action id of the batch collides with an undo. */
  ghost predicate OwnKeys(batch: seq<NewAction>, steps: seq<Step>) {
    && (forall k | k in KeySet(batch) :: !UndoKey(k))
    && (forall i | 0 <= i < |steps| && steps[i].Enqueueing? && steps[i].actions != batch ::
          KeySet(steps[i].actions) !! KeySet(batch))
  }

  lemma StepKeepsHandOff(retry: RetryPolicy, w: World, step: Step, batch: seq<NewAction>, m: nat)
    returns (n: nat)
    requires HandedOff(Replay(w.log), batch, m) && OwnKeys(batch, [step])
    ensures m <= n && HandedOff(Replay(Do(retry, w, step).log), batch, n)
    ensures step.Enqueueing? && step.actions == batch && step.durable >= |batch| ==> n == |Distinct(batch)|
  {
    assert [step][0] == step;
    if step.Enqueueing? && step.actions == batch {
      n := BatchMovesOn(w.log, batch, m, step.at, step.durable);
    } else {
      n := m;
      var evs := Do(retry, w, step).log[|w.log|..];
      forall i | 0 <= i < |evs| && evs[i].EnqueuedEvent? ensures evs[i].action.Key() !in KeySet(batch) {
        OtherStepsEnqueueOtherKeys(retry, w, step, batch, i);
      }
      OtherEvents(w.log, evs, batch, m);
      assert Do(retry, w, step).log == w.log + evs;
    }
  }

  lemma OtherBatchOtherKeys(log: seq<Event>, actions: seq<NewAction>, at: int, batch: seq<NewAction>, i: nat)
    requires KeySet(actions) !! KeySet(batch) && i < |BatchEvents(log, actions, at)|
    ensures BatchEvents(log, actions, at)[i].EnqueuedEvent?
    ensures BatchEvents(log, actions, at)[i].action.Key() !in KeySet(batch)
  {
    var known := Replay(log).byKey.Keys;
    NewActionsDistinct(known, actions);
    assert BatchEvents(log, actions, at)[i].action == NewActions(known, actions)[i];
  }

  lemma UndoIsUndoKey(log: seq<Event>, key: string)
    requires UndoDecision(Replay(log), key).Success?
    ensures UndoKey(UndoDecision(Replay(log), key).value.Key())
  {
    var e := Replay(log).byKey[key];
    assert UndoDecision(Replay(log), key).value.Key() == MakeKey(e.action.draftId, "undo-" + e.action.actionId);
  }

  lemma OtherStepsEnqueueOtherKeys(retry: RetryPolicy, w: World, step: Step, batch: seq<NewAction>, i: nat)
    requires OwnKeys(batch, [step]) && !(step.Enqueueing? && step.actions == batch)
    requires w.log <= Do(retry, w, step).log && i < |Do(retry, w, step).log| - |w.log|
    requires Do(retry, w, step).log[|w.log| + i].EnqueuedEvent?
    ensures Do(retry, w, step).log[|w.log| + i].action.Key() !in KeySet(batch)
  {
    hide KeySet, UndoKey, Replay, BatchEvents, UndoDecision, ResolveDecision, ClaimDecision, InFlightEvents, Reportable;
    assert [step][0] == step;
    match step
    case Enqueueing(actions, at, durable) => OtherBatchOtherKeys(w.log, actions, at, batch, i);
    case Recovering(at, durable) => RecoveredAreNotEnqueued(w.log, at, i);
    case Resolving(key, resolution, note, at) => ResolvedIsNotEnqueued(w.log, key, resolution, note, at);
    case Undoing(key, at) => UndoIsUndoKey(w.log, key);
    case _ =>
  }

  lemma ResolvedIsNotEnqueued(log: seq<Event>, key: string, resolution: Resolution, note: string, at: int)
    requires ResolveDecision(Replay(log), key, resolution, note, at).Success?
    ensures !ResolveDecision(Replay(log), key, resolution, note, at).value.EnqueuedEvent?
  {
    hide Replay;
  }

  lemma RecoveredAreNotEnqueued(log: seq<Event>, at: int, i: nat)
    ensures i < |InFlightEvents(log, at)| ==> !InFlightEvents(log, at)[i].EnqueuedEvent?
  {
    RecoveryEventsFit(log, at);
  }

  lemma OwnKeysSplit(batch: seq<NewAction>, front: seq<Step>, last: Step)
    requires OwnKeys(batch, front + [last])
    ensures OwnKeys(batch, front) && OwnKeys(batch, [last])
  {
    hide UndoKey, KeySet;
    assert forall i | 0 <= i < |front| :: front[i] == (front + [last])[i];
    assert (front + [last])[|front|] == last;
  }

  lemma NotStarted(retry: RetryPolicy, batch: seq<NewAction>)
    ensures HandedOff(Replay(After(retry, []).log), batch, 0)
  {
  }

  /** Exactly once, in order: at every point of every run the queue holds an initial part of the
      batch's distinct actions, and all of them after any whole roll-forward of the batch. */
  lemma {:induction false} ExactlyOnceHandOff(retry: RetryPolicy, steps: seq<Step>, batch: seq<NewAction>)
    returns (m: nat)
    requires OwnKeys(batch, steps)
    ensures HandedOff(Replay(After(retry, steps).log), batch, m)
    ensures (exists i :: 0 <= i < |steps| && WholeBatch(steps[i], batch)) ==> m == |Distinct(batch)|
    decreases |steps|
  {
    hide *;
    if steps == [] {
      m := 0;
      NotStarted(retry, batch);
    } else {
      var front, last := steps[..|steps| - 1], steps[|steps| - 1];
      assert steps == front + [last];
      OwnKeysSplit(batch, front, last);
      var m0 := ExactlyOnceHandOff(retry, front, batch);
      m := HandOffStep(retry, front, last, batch, m0);
      assert forall i | 0 <= i < |front| :: steps[i] == front[i];
    }
  }

  lemma HandOffStep(retry: RetryPolicy, front: seq<Step>, last: Step, batch: seq<NewAction>, m: nat)
    returns (n: nat)
    requires OwnKeys(batch, [last]) && HandedOff(Replay(After(retry, front).log), batch, m)
    ensures HandedOff(Replay(After(retry, front + [last]).log), batch, n)
    ensures m == |Distinct(batch)| || WholeBatch(last, batch) ==> n == |Distinct(batch)|
  {
    hide *;
    AfterStep(retry, front, last);
    n := StepKeepsHandOff(retry, After(retry, front), last, batch, m);
    HandOffBound(Replay(After(retry, front + [last]).log), batch, n);
    WholeBatchIs(last, batch);
  }

  lemma HandOffBound(st: ReplayState, batch: seq<NewAction>, m: nat)
    requires HandedOff(st, batch, m)
    ensures m <= |Distinct(batch)|
  {
  }

  lemma WholeBatchIs(step: Step, batch: seq<NewAction>)
    ensures WholeBatch(step, batch) ==> step.Enqueueing? && step.actions == batch && step.durable >= |batch|
  {
  }

  // A roll-forward whose append completed.
  predicate WholeBatch(step: Step, batch: seq<NewAction>) {
    step.Enqueueing? && step.actions == batch && step.durable >= |batch|
  }

  /** Writing the batch again never disturbs an entry that is already there. */
  lemma {:induction false} ReEnqueueKeepsEntries(log: seq<Event>, evs: seq<Event>, key: string)
    requires key in Replay(log).byKey && forall i | 0 <= i < |evs| :: evs[i].EnqueuedEvent?
    ensures key in Replay(log + evs).byKey
    ensures Replay(log + evs).byKey[key]
         == Replay(log).byKey[key].(undoneBy := Replay(log + evs).byKey[key].undoneBy)
    decreases |evs|
  {
    if evs == [] {
      assert log + evs == log;
    } else {
      var front := evs[..|evs| - 1];
      ReEnqueueKeepsEntries(log, front, key);
      ReplayStep(log + front, evs[|evs| - 1]);
      assert log + evs == (log + front) + [evs[|evs| - 1]];
    }
  }

  // ── Undo ────────────────────────────────────────────────────────────────────

  /** An accepted undo request queues the undo and marks the action undone exactly when the key
      `undo-<id>` is free; otherwise the journal line it writes replays to nothing at all. */
  lemma UndoTakesEffect(log: seq<Event>, key: string, at: int)
    requires UndoDecision(Replay(log), key).Success?
    ensures
      var a := UndoDecision(Replay(log), key).value;
      var st, st' := Replay(log), Replay(log + [EnqueuedEvent(a, at)]);
      && key in st.byKey
      && (a.Key() in st.byKey ==> st' == st)
      && (a.Key() !in st.byKey ==>
            && st'.order == st.order + [a.Key()]
            && st'.byKey[a.Key()] == NewEntry(a, at, |st.order|)
            && st'.byKey[key] == st.byKey[key].(undoneBy := Some(a.Key()))
            && UndoDecision(st', key) == Failure(AlreadyUndone(a.Key())))
  {
    var a := UndoDecision(Replay(log), key).value;
    ReplayStep(log, EnqueuedEvent(a, at));
  }
}
