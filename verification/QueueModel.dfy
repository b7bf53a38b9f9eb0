/** The action queue's data and decisions: the events of its journal, what replaying one event
    does, and, for each operation, the events it appends given the replayed state. */
module QueueModel {
  import opened Wrappers

  // Times are in nanoseconds; durations that the source takes in whole seconds are in seconds.
  const SECOND: int := 1_000_000_000

  datatype Reversibility = Reversible | Compensable | Irrecoverable

  datatype Idempotency = ByKey | Natural | NoIdempotency

  // A JSON value is only passed on; the three shapes below are the ones the queue itself builds.
  datatype Value =
    | Json(text: string)
    | Text(chars: string)
    | UndoParameters(undoOf: string, originalParameters: Value, originalResult: Option<Value>)

  datatype NewAction = NewAction(
    draftId: string, actionId: string, toolName: string, parameters: Value, description: string,
    class_: Reversibility, undo: Option<string>, idempotency: Idempotency,
    undoOf: Option<string>, attended: bool, ordered: bool)
  {
    function Key(): string { MakeKey(draftId, actionId) }
  }

  function MakeKey(draftId: string, actionId: string): string { draftId + ":" + actionId }

  datatype QueueState = Queued | Sending | Done | Retrying | NeedsAttention

  datatype AttentionReason = UnknownOutcome | PolicyBlocked | RetriesExhausted | RejectedOutright

  datatype Attention = Attention(reason: AttentionReason, message: string)

  datatype Resolution = SentConfirmed | Resend | Dropped

  datatype Event =
    | EnqueuedEvent(action: NewAction, at: int)
    | SendingEvent(key: string, attempt: nat, at: int)
    | DoneEvent(key: string, result: Value, at: int)
    | RetryingEvent(key: string, attempt: nat, nextAt: int, error: string, at: int)
    | AttentionEvent(key: string, reason: AttentionReason, message: string, at: int)
    | ResolvedEvent(key: string, resolution: Resolution, note: string, at: int)
  {
    function Target(): string { if EnqueuedEvent? then action.Key() else key }
  }

  datatype QueueEntry = QueueEntry(
    key: string, action: NewAction, state: QueueState, attempts: nat, nextAt: Option<int>,
    lastError: Option<string>, attention: Option<Attention>, result: Option<Value>,
    undoneBy: Option<string>, enqueuedAt: int, updatedAt: int, seqNo: nat)
  {
    predicate Due(now: int) {
      match state
      case Queued => true
      case Retrying => nextAt.None? || nextAt.value <= now
      case _ => false
    }
  }

  // ── Replay ──────────────────────────────────────────────────────────────────

  /** The replayed queue: the entry of each key, and the keys in enqueue order. The source's
      counter `seq` is the length of `order`. */
  datatype ReplayState = ReplayState(byKey: map<string, QueueEntry>, order: seq<string>)
  {
    // The entry of `k` knows its own key and its place in the order.
    ghost predicate Placed(k: string)
      requires k in byKey
    {
      var e := byKey[k];
      e.key == k && e.action.Key() == k && e.seqNo < |order| && order[e.seqNo] == k
    }

    ghost predicate WellFormed() {
      && (forall i | 0 <= i < |order| :: order[i] in byKey && byKey[order[i]].seqNo == i)
      && (forall k | k in byKey :: Placed(k))
    }

    // The snapshot's list of entries, sorted by sequence number.
    function Entries(): (es: seq<QueueEntry>)
      requires WellFormed()
    {
      seq(|order|, i requires 0 <= i < |order| => byKey[order[i]])
    }
  }

  const EMPTY := ReplayState(map[], [])

  function NewEntry(a: NewAction, at: int, seqNo: nat): QueueEntry {
    QueueEntry(a.Key(), a, Queued, 0, None, None, None, None, None, at, at, seqNo)
  }

  function Enqueue(st: ReplayState, a: NewAction, at: int): ReplayState {
    var key := a.Key();
    if key in st.byKey then st  // first enqueue wins; a key never runs twice
    else
      var marked :=
        if a.undoOf.Some? && a.undoOf.value in st.byKey then
          st.byKey[a.undoOf.value := st.byKey[a.undoOf.value].(undoneBy := Some(key))]
        else st.byKey;
      ReplayState(marked[key := NewEntry(a, at, |st.order|)], st.order + [key])
  }

  // What an event other than an enqueue does to the entry it names.
  function Touch(e: QueueEntry, ev: Event): QueueEntry
    requires !ev.EnqueuedEvent?
  {
    match ev
    case SendingEvent(_, attempt, at) =>
      e.(state := Sending, attempts := attempt, nextAt := None, updatedAt := at)
    case DoneEvent(_, result, at) =>
      e.(state := Done, result := Some(result), attention := None, lastError := None, updatedAt := at)
    case RetryingEvent(_, attempt, nextAt, error, at) =>
      e.(state := Retrying, attempts := attempt, nextAt := Some(nextAt), lastError := Some(error), updatedAt := at)
    case AttentionEvent(_, reason, message, at) =>
      e.(state := NeedsAttention, lastError := Some(message), attention := Some(Attention(reason, message)),
         nextAt := None, updatedAt := at)
    case ResolvedEvent(_, resolution, note, at) =>
      var e' := e.(attention := None, updatedAt := at);
      match resolution
      case SentConfirmed => e'.(state := Done, result := Some(Text("confirmed sent by a person: " + note)))
      case Dropped => e'.(state := Done, result := Some(Text("dropped by a person: " + note)))
      case Resend => e'.(state := Queued, nextAt := None)
  }

  function Apply(st: ReplayState, ev: Event): ReplayState {
    if ev.EnqueuedEvent? then Enqueue(st, ev.action, ev.at)
    else if ev.key in st.byKey then st.(byKey := st.byKey[ev.key := Touch(st.byKey[ev.key], ev)])
    else st
  }

  lemma MarkKeepsWellFormed(st: ReplayState, k: string, undo: string)
    requires st.WellFormed() && k in st.byKey
    ensures st.(byKey := st.byKey[k := st.byKey[k].(undoneBy := Some(undo))]).WellFormed()
  {
    var st' := st.(byKey := st.byKey[k := st.byKey[k].(undoneBy := Some(undo))]);
    forall x | x in st'.byKey ensures st'.Placed(x) { assert st.Placed(x); }
  }

  lemma AddKeepsWellFormed(st: ReplayState, a: NewAction, at: int)
    requires st.WellFormed() && a.Key() !in st.byKey
    ensures ReplayState(st.byKey[a.Key() := NewEntry(a, at, |st.order|)], st.order + [a.Key()]).WellFormed()
  {
    var st' := ReplayState(st.byKey[a.Key() := NewEntry(a, at, |st.order|)], st.order + [a.Key()]);
    forall x | x in st'.byKey ensures st'.Placed(x) {
      if x != a.Key() { assert st.Placed(x); }
    }
  }

  lemma EnqueueKeepsWellFormed(st: ReplayState, a: NewAction, at: int)
    requires st.WellFormed()
    ensures Enqueue(st, a, at).WellFormed()
  {
    hide MakeKey, NewEntry;
    if a.Key() !in st.byKey {
      if a.undoOf.Some? && a.undoOf.value in st.byKey {
        MarkKeepsWellFormed(st, a.undoOf.value, a.Key());
        AddKeepsWellFormed(st.(byKey := st.byKey[a.undoOf.value := st.byKey[a.undoOf.value].(undoneBy := Some(a.Key()))]), a, at);
      } else {
        AddKeepsWellFormed(st, a, at);
      }
    }
  }

  lemma ApplyKeepsWellFormed(st: ReplayState, ev: Event)
    requires st.WellFormed()
    ensures Apply(st, ev).WellFormed()
  {
    if ev.EnqueuedEvent? {
      EnqueueKeepsWellFormed(st, ev.action, ev.at);
    } else if ev.key in st.byKey {
      var st' := Apply(st, ev);
      forall k | k in st'.byKey ensures st'.Placed(k) { assert st.Placed(k); }
    }
  }

  function Replay(log: seq<Event>): (st: ReplayState) {
    if log == [] then EMPTY else Apply(Replay(log[..|log| - 1]), log[|log| - 1])
  }

  lemma {:induction false} ReplayWellFormed(log: seq<Event>)
    ensures Replay(log).WellFormed()
  {
    if log != [] {
      ReplayWellFormed(log[..|log| - 1]);
      ApplyKeepsWellFormed(Replay(log[..|log| - 1]), log[|log| - 1]);
    }
  }

  // The same replay, started from a state.
  function ReplayFrom(st: ReplayState, log: seq<Event>): ReplayState
    decreases |log|
  {
    if log == [] then st else ReplayFrom(Apply(st, log[0]), log[1..])
  }

  lemma ReplayStep(log: seq<Event>, ev: Event)
    ensures Replay(log + [ev]) == Apply(Replay(log), ev)
  {
    assert (log + [ev])[..|log + [ev]| - 1] == log;
  }

  lemma {:induction false} ReplayFromStep(st: ReplayState, log: seq<Event>, ev: Event)
    ensures ReplayFrom(st, log + [ev]) == Apply(ReplayFrom(st, log), ev)
    decreases |log|
  {
    if log == [] {
      assert (log + [ev])[1..] == [];
    } else {
      ReplayFromStep(Apply(st, log[0]), log[1..], ev);
      assert (log + [ev])[1..] == log[1..] + [ev];
    }
  }

  /** Replay of a concatenation is replay of the second part from the first part's state. */
  lemma {:induction false} ReplayConcat(a: seq<Event>, b: seq<Event>)
    ensures Replay(a + b) == ReplayFrom(Replay(a), b)
    decreases |b|
  {
    if b == [] {
      assert a + b == a;
    } else {
      var b0, ev := b[..|b| - 1], b[|b| - 1];
      ReplayConcat(a, b0);
      ReplayStep(a + b0, ev);
      assert a + b == (a + b0) + [ev];
      ReplayFromStep(Replay(a), b0, ev);
      assert b == b0 + [ev];
    }
  }

  // ── Keys ────────────────────────────────────────────────────────────────────

  // `longer` is `d` with a colon and more behind it.
  predicate ColonExtends(d: string, longer: string) { d + ":" <= longer }

  /** A key names one draft and one action, unless one draft id extends the other by a colon. */
  lemma {:induction false} MakeKeyInjective(d1: string, a1: string, d2: string, a2: string)
    requires !ColonExtends(d1, d2) && !ColonExtends(d2, d1)
    requires MakeKey(d1, a1) == MakeKey(d2, a2)
    ensures d1 == d2 && a1 == a2
  {
    var key := MakeKey(d1, a1);
    assert d1 + ":" == key[..|d1| + 1] && d2 + ":" == key[..|d2| + 1];
    assert d1 == key[..|d1|] && d2 == key[..|d2|];
    assert |d1| == |d2|;
    assert a1 == key[|d1| + 1..] && a2 == key[|d2| + 1..];
  }

  /** Two drafts have a key in common exactly when they are one draft or one id extends the other
      by a colon, as the rest of the longer id then reads as part of an action id. */
  lemma KeysSharedExactly(d1: string, d2: string)
    ensures (exists a1, a2 :: MakeKey(d1, a1) == MakeKey(d2, a2))
       <==> d1 == d2 || ColonExtends(d1, d2) || ColonExtends(d2, d1)
  {
    if d1 == d2 {
      assert MakeKey(d1, "") == MakeKey(d2, "");
    } else if ColonExtends(d1, d2) {
      SharedKey(d1, d2);
    } else if ColonExtends(d2, d1) {
      SharedKey(d2, d1);
    } else {
      forall a1, a2 ensures MakeKey(d1, a1) != MakeKey(d2, a2) {
        if MakeKey(d1, a1) == MakeKey(d2, a2) { MakeKeyInjective(d1, a1, d2, a2); }
      }
    }
  }

  lemma SharedKey(d: string, longer: string)
    requires ColonExtends(d, longer)
    ensures MakeKey(d, longer[|d| + 1..] + ":") == MakeKey(longer, "")
  {
    assert longer == d + ":" + longer[|d| + 1..];
  }

  lemma ExtensionHoldsColon(d: string, longer: string)
    requires ColonExtends(d, longer)
    ensures ':' in longer
  {
    assert longer[|d|] == ':';
  }

  // In particular, ids without a colon never share a key.
  lemma PlainDraftsApart(d1: string, a1: string, d2: string, a2: string)
    requires ':' !in d1 && ':' !in d2 && MakeKey(d1, a1) == MakeKey(d2, a2)
    ensures d1 == d2 && a1 == a2
  {
    if ColonExtends(d1, d2) { ExtensionHoldsColon(d1, d2); }
    if ColonExtends(d2, d1) { ExtensionHoldsColon(d2, d1); }
    MakeKeyInjective(d1, a1, d2, a2);
  }

  // With a colon in an id two different actions can share a key.
  lemma MakeKeyCollides()
    ensures MakeKey("a:b", "c") == MakeKey("a", "b:c")
  {
  }

  // ── Holding back ────────────────────────────────────────────────────────────

  predicate OrderedStep(e: QueueEntry) { e.action.ordered && e.action.undoOf.None? }

  predicate LastStep(e: QueueEntry) {
    !OrderedStep(e) && e.action.class_ == Irrecoverable && e.action.undoOf.None?
  }

  // `o`, of the same draft, must be done before `e` may be sent.
  predicate Precedes(o: QueueEntry, e: QueueEntry) {
    && o.action.draftId == e.action.draftId
    && o.action.undoOf.None?
    && (|| (OrderedStep(e) && o.seqNo < e.seqNo)
        || (LastStep(e) && o.key != e.key && o.action.class_ != Irrecoverable))
  }

  function FirstBlocker(entries: seq<QueueEntry>, e: QueueEntry): (b: Option<QueueEntry>) {
    if entries == [] then None
    else if Precedes(entries[0], e) && entries[0].state != Done then Some(entries[0])
    else FirstBlocker(entries[1..], e)
  }

  datatype HoldVerdict = Go | Held | Stopped

  function Hold(entries: seq<QueueEntry>, e: QueueEntry): HoldVerdict {
    match FirstBlocker(entries, e)
    case None => Go
    case Some(b) => if OrderedStep(e) && b.state == NeedsAttention then Stopped else Held
  }

  lemma {:induction false} FirstBlockerNone(entries: seq<QueueEntry>, e: QueueEntry)
    ensures FirstBlocker(entries, e).None?
       <==> forall i | 0 <= i < |entries| :: Precedes(entries[i], e) ==> entries[i].state == Done
  {
    if entries != [] {
      FirstBlockerNone(entries[1..], e);
      assert forall i | 0 < i < |entries| :: entries[i] == entries[1..][i - 1];
      assert forall i | 0 <= i < |entries| - 1 :: entries[1..][i] == entries[i + 1];
    }
  }

  /** An entry goes ahead exactly when every entry that must precede it is done. */
  lemma HoldGo(st: ReplayState, e: QueueEntry)
    requires st.WellFormed()
    ensures Hold(st.Entries(), e) == Go
       <==> forall k | k in st.byKey :: Precedes(st.byKey[k], e) ==> st.byKey[k].state == Done
  {
    FirstBlockerNone(st.Entries(), e);
    assert forall k | k in st.byKey :: st.byKey[k] == st.Entries()[st.byKey[k].seqNo];
    assert forall i | 0 <= i < |st.order| :: st.Entries()[i] == st.byKey[st.order[i]];
  }

  // Whether a worker that reads `log` goes ahead with `key`.
  predicate GoesAhead(log: seq<Event>, key: string) {
    ReplayWellFormed(log);
    key in Replay(log).byKey && Hold(Replay(log).Entries(), Replay(log).byKey[key]) == Go
  }

  lemma FreeKeyGoesAhead(log: seq<Event>, key: string)
    requires key in Replay(log).byKey
    requires forall k | k in Replay(log).byKey && Precedes(Replay(log).byKey[k], Replay(log).byKey[key]) ::
      Replay(log).byKey[k].state == Done
    ensures GoesAhead(log, key)
  {
    ReplayWellFormed(log);
    HoldGo(Replay(log), Replay(log).byKey[key]);
  }

  // ── Decisions: the events each operation appends ────────────────────────────

  function ActionKeys(actions: seq<NewAction>): seq<string> {
    seq(|actions|, i requires 0 <= i < |actions| => actions[i].Key())
  }

  function KeySet(actions: seq<NewAction>): set<string> { set a | a in actions :: a.Key() }

  // The actions a batch adds: those whose key is new to the queue and to the batch so far.
  function NewActions(known: set<string>, actions: seq<NewAction>): seq<NewAction>
    decreases |actions|
  {
    if actions == [] then []
    else if actions[0].Key() in known then NewActions(known, actions[1..])
    else [actions[0]] + NewActions(known + {actions[0].Key()}, actions[1..])
  }

  function EnqueueEvents(actions: seq<NewAction>, at: int): seq<Event> {
    seq(|actions|, i requires 0 <= i < |actions| => EnqueuedEvent(actions[i], at))
  }

  // The text of the message is not modelled.
  const IN_FLIGHT_MESSAGE := "in flight"

  function InFlightEvent(e: QueueEntry, at: int): seq<Event> {
    if e.state == Sending then [AttentionEvent(e.key, UnknownOutcome, IN_FLIGHT_MESSAGE, at)] else []
  }

  function RecoverEvents(entries: seq<QueueEntry>, at: int): seq<Event> {
    if entries == [] then [] else InFlightEvent(entries[0], at) + RecoverEvents(entries[1..], at)
  }

  datatype Refusal =
    | UnknownKey
    | NotWaiting(state: QueueState)
    | NothingToUndoYet(state: QueueState)
    | NotCompensable
    | NoUndoVerb
    | AlreadyUndone(undoKey: string)

  function ResolveDecision(st: ReplayState, key: string, resolution: Resolution, note: string, at: int)
    : Result<Event, Refusal>
  {
    if key !in st.byKey then Failure(UnknownKey)
    else if st.byKey[key].state != NeedsAttention then Failure(NotWaiting(st.byKey[key].state))
    else Success(ResolvedEvent(key, resolution, note, at))
  }

  function UndoAction(e: QueueEntry, key: string, verb: string): NewAction {
    NewAction(e.action.draftId, "undo-" + e.action.actionId, "ta_external_action:" + verb,
              UndoParameters(key, e.action.parameters, e.result), "undo of: " + e.action.description,
              Irrecoverable, None, e.action.idempotency, Some(key), true, false)
  }

  function UndoDecision(st: ReplayState, key: string): Result<NewAction, Refusal> {
    if key !in st.byKey then Failure(UnknownKey)
    else
      var e := st.byKey[key];
      if e.state != Done then Failure(NothingToUndoYet(e.state))
      else if e.action.class_ != Compensable then Failure(NotCompensable)
      else if e.action.undo.None? then Failure(NoUndoVerb)
      else if e.undoneBy.Some? then Failure(AlreadyUndone(e.undoneBy.value))
      else Success(UndoAction(e, key, e.action.undo.value))
  }

  datatype PolicyVerdict = Allow | Block(reason: string)

  datatype Claim = Skip | Blocked | Claimed(entry: QueueEntry, attempt: nat)

  function ClaimDecision(st: ReplayState, key: string, now: int, verdict: PolicyVerdict): Claim {
    if key !in st.byKey || !st.byKey[key].Due(now) then Skip
    else if verdict.Block? then Blocked
    else Claimed(st.byKey[key], st.byKey[key].attempts + 1)
  }

  function ClaimEvents(c: Claim, key: string, now: int, verdict: PolicyVerdict): seq<Event> {
    match c
    case Skip => []
    case Blocked => [AttentionEvent(key, PolicyBlocked, if verdict.Block? then verdict.reason else "", now)]
    case Claimed(_, attempt) => [SendingEvent(key, attempt, now)]
  }

  datatype ExecOutcome =
    | Sent(result: Value)
    | Retryable(message: string)
    | Rejected(message: string)
    | Unknown(message: string)

  function OutcomeEvent(retry: RetryPolicy, key: string, attempt: nat, outcome: ExecOutcome, at: int): Event {
    match outcome
    case Sent(result) => DoneEvent(key, result, at)
    case Retryable(message) =>
      if attempt >= retry.maxAttempts then AttentionEvent(key, RetriesExhausted, message, at)
      else RetryingEvent(key, attempt, at + retry.DelayAfter(attempt) * SECOND, message, at)
    case Rejected(message) => AttentionEvent(key, RejectedOutright, message, at)
    case Unknown(message) => AttentionEvent(key, UnknownOutcome, message, at)
  }

  // ── Retry delays ────────────────────────────────────────────────────────────

  const I64_MAX: int := 0x7FFF_FFFF_FFFF_FFFF
  const I64_MIN: int := -0x8000_0000_0000_0000

  function Pow2(n: nat): (p: nat)
    ensures p >= 1
  {
    if n == 0 then 1 else 2 * Pow2(n - 1)
  }

  function Min(a: int, b: int): int { if a <= b then a else b }

  function Saturate(x: int): int {
    if x > I64_MAX then I64_MAX else if x < I64_MIN then I64_MIN else x
  }

  function Shift(attempts: nat): nat { Min(if attempts == 0 then 0 else attempts - 1, 20) }

  // Base and cap are whole seconds, each within an i64.
  datatype RetryPolicy = RetryPolicy(base: int, cap: int, maxAttempts: nat)
  {
    function DelayAfter(attempts: nat): int {
      Min(Saturate(base * Pow2(Shift(attempts))), cap)
    }

    function ExactDelay(attempts: nat): int { Min(base * Pow2(Shift(attempts)), cap) }
  }

  lemma {:induction false} Pow2Monotone(m: nat, n: nat)
    requires m <= n
    ensures Pow2(m) <= Pow2(n)
    decreases n
  {
    if m < n { Pow2Monotone(m, n - 1); }
  }

  lemma ProductMonotone(base: int, m: nat, n: nat)
    requires m <= n
    ensures base >= 0 ==> 0 <= base * m <= base * n
    ensures base <= 0 ==> base * n <= base * m
  {
    var more := n - m;
    assert base * n == base * m + base * more;
  }

  /** Saturation never shows in the delay unless the exact product falls below the i64 range,
      which only a negative base can cause. */
  lemma DelayIsExact(p: RetryPolicy, attempts: nat)
    requires I64_MIN < p.cap <= I64_MAX
    ensures p.DelayAfter(attempts) == p.ExactDelay(attempts)
       <==> p.base * Pow2(Shift(attempts)) >= I64_MIN
    ensures p.base >= 0 ==> p.DelayAfter(attempts) == p.ExactDelay(attempts)
    ensures p.DelayAfter(attempts) <= p.cap
  {
    var m := Pow2(Shift(attempts));
    ProductMonotone(p.base, 0, m);
    var x := p.base * m;
    assert Min(Saturate(x), p.cap) == Min(x, p.cap) <==> x >= I64_MIN;
  }

  /** Delays never shrink from one failed attempt to the next (with a negative base they never grow). */
  lemma DelaysGrow(p: RetryPolicy, m: nat, n: nat)
    requires m <= n
    ensures p.base >= 0 ==> p.DelayAfter(m) <= p.DelayAfter(n)
    ensures p.base <= 0 ==> p.DelayAfter(m) >= p.DelayAfter(n)
  {
    Pow2Monotone(Shift(m), Shift(n));
    ProductMonotone(p.base, Pow2(Shift(m)), Pow2(Shift(n)));
    var x, y := p.base * Pow2(Shift(m)), p.base * Pow2(Shift(n));
    assert x <= y ==> Min(Saturate(x), p.cap) <= Min(Saturate(y), p.cap);
    assert y <= x ==> Min(Saturate(y), p.cap) <= Min(Saturate(x), p.cap);
  }
}
