/** Lawful journals: every event is a legal transition of the state it was appended to. What a
    single key can go through is proved here about any lawful journal; `QueueRuns` proves that
    every run of the system writes one. */
module QueueLaws {
  import opened Wrappers
  import opened QueueModel

  predicate LegalEvent(retry: RetryPolicy, st: ReplayState, ev: Event) {
    || ev.EnqueuedEvent?
    || (ev.key in st.byKey &&
        var e := st.byKey[ev.key];
        match ev
        case SendingEvent(_, attempt, _) => (e.state == Queued || e.state == Retrying) && attempt == e.attempts + 1
        case DoneEvent(_, _, _) => e.state == Sending
        case RetryingEvent(_, attempt, _, _, _) =>
          e.state == Sending && attempt == e.attempts && attempt < retry.maxAttempts
        case AttentionEvent(_, _, _, _) => e.state != Done && e.state != NeedsAttention
        case ResolvedEvent(_, _, _, _) => e.state == NeedsAttention)
  }

  predicate Lawful(retry: RetryPolicy, log: seq<Event>) {
    log == [] || (Lawful(retry, log[..|log| - 1]) && LegalEvent(retry, Replay(log[..|log| - 1]), log[|log| - 1]))
  }

  lemma LawfulStep(retry: RetryPolicy, log: seq<Event>, ev: Event)
    requires Lawful(retry, log) && LegalEvent(retry, Replay(log), ev)
    ensures Lawful(retry, log + [ev])
  {
    assert (log + [ev])[..|log + [ev]| - 1] == log;
  }

  lemma {:induction false} LawfulPrefix(retry: RetryPolicy, log: seq<Event>, n: nat)
    requires Lawful(retry, log) && n <= |log|
    ensures Lawful(retry, log[..n])
    decreases |log|
  {
    if n < |log| {
      LawfulPrefix(retry, log[..|log| - 1], n);
      assert log[..|log| - 1][..n] == log[..n];
    } else {
      assert log[..n] == log;
    }
  }

  predicate InState(log: seq<Event>, key: string, s: QueueState) {
    key in Replay(log).byKey && Replay(log).byKey[key].state == s
  }

  // ── Entries are never lost, re-ordered or rewritten ─────────────────────────

  // `later` still holds every entry of `earlier`, with its action and its place.
  predicate Keeps(earlier: ReplayState, later: ReplayState) {
    && earlier.order <= later.order
    && forall k | k in earlier.byKey ::
         k in later.byKey && later.byKey[k].action == earlier.byKey[k].action
         && later.byKey[k].seqNo == earlier.byKey[k].seqNo && later.byKey[k].key == earlier.byKey[k].key
  }

  lemma {:induction false} ReplayKeeps(log: seq<Event>, n: nat)
    requires n <= |log|
    ensures Keeps(Replay(log[..n]), Replay(log))
    decreases |log|
  {
    if n == |log| {
      assert log[..n] == log;
    } else {
      var front, ev := log[..|log| - 1], log[|log| - 1];
      ReplayKeeps(front, n);
      assert front[..n] == log[..n];
      assert log == front + [ev];
      hide Replay;
      ReplayStep(front, ev);
      KeepsApply(Replay(front), ev);
      KeepsTwice(Replay(log[..n]), Replay(front), Replay(log));
    }
  }

  lemma KeepsApply(st: ReplayState, ev: Event)
    ensures Keeps(st, Apply(st, ev))
  {
  }

  lemma KeepsTwice(a: ReplayState, b: ReplayState, c: ReplayState)
    requires Keeps(a, b) && Keeps(b, c)
    ensures Keeps(a, c)
  {
  }

  // ── Done is absorbing ───────────────────────────────────────────────────────

  lemma DoneStep(retry: RetryPolicy, st: ReplayState, ev: Event, key: string)
    requires LegalEvent(retry, st, ev)
    requires key in st.byKey && st.byKey[key].state == Done
    ensures key in Apply(st, ev).byKey && Apply(st, ev).byKey[key].state == Done
    ensures Apply(st, ev).byKey[key].result == st.byKey[key].result
  {
  }

  /** Once a key is done it stays done with the same result, whatever is appended later. */
  lemma {:induction false} DoneIsAbsorbing(retry: RetryPolicy, log: seq<Event>, n: nat, key: string)
    requires Lawful(retry, log) && n <= |log| && InState(log[..n], key, Done)
    ensures InState(log, key, Done)
    ensures Replay(log).byKey[key].result == Replay(log[..n]).byKey[key].result
    decreases |log|
  {
    if n == |log| {
      assert log[..n] == log;
    } else {
      var front := log[..|log| - 1];
      assert front[..n] == log[..n];
      DoneIsAbsorbing(retry, front, n, key);
      DoneStep(retry, Replay(front), log[|log| - 1], key);
    }
  }

  // ── Sends are counted and bounded ───────────────────────────────────────────

  predicate IsSend(ev: Event, key: string) { ev.SendingEvent? && ev.key == key }

  predicate IsResend(ev: Event, key: string) {
    ev.ResolvedEvent? && ev.key == key && ev.resolution == Resend
  }

  predicate IsRetry(ev: Event, key: string) { ev.RetryingEvent? && ev.key == key }

  function Sends(log: seq<Event>, key: string): nat {
    if log == [] then 0
    else Sends(log[..|log| - 1], key) + if IsSend(log[|log| - 1], key) then 1 else 0
  }

  function Resends(log: seq<Event>, key: string): nat {
    if log == [] then 0
    else Resends(log[..|log| - 1], key) + if IsResend(log[|log| - 1], key) then 1 else 0
  }

  function Allowance(retry: RetryPolicy, log: seq<Event>, key: string): nat {
    (if retry.maxAttempts == 0 then 1 else retry.maxAttempts) + Resends(log, key)
  }

  /** The recorded attempt number is the number of `Sending` events of the key, which never
      exceeds the retry limit (at least one) plus one for every `Resend` a person chose. */
  lemma {:induction false} SendBound(retry: RetryPolicy, log: seq<Event>, key: string)
    requires Lawful(retry, log)
    ensures key !in Replay(log).byKey ==> Sends(log, key) == 0
    ensures key in Replay(log).byKey ==>
      var e := Replay(log).byKey[key];
      && e.attempts == Sends(log, key)
      && e.attempts <= Allowance(retry, log, key)
      && (e.state == Queued ==> e.attempts < Allowance(retry, log, key))
      && (e.state == Retrying ==> e.attempts < retry.maxAttempts)
  {
    if log != [] { SendBound(retry, log[..|log| - 1], key); }
  }

  // ── Two sends are always separated by a failed attempt or a person ──────────

  lemma {:induction false} DueAgainAfterSend(retry: RetryPolicy, log: seq<Event>, i: nat, key: string)
    returns (m: nat)
    requires Lawful(retry, log) && i < |log| && IsSend(log[i], key)
    requires InState(log, key, Queued) || InState(log, key, Retrying)
    ensures i < m < |log| && (IsRetry(log[m], key) || IsResend(log[m], key))
    decreases |log|
  {
    var front, ev := log[..|log| - 1], log[|log| - 1];
    if IsRetry(ev, key) || IsResend(ev, key) {
      m := |log| - 1;
    } else {
      SendLeavesKey(retry, log, i, key);
      m := DueAgainAfterSend(retry, front, i, key);
    }
  }

  // The last event is neither the send nor an enqueue of a new key, so the state is older.
  lemma SendLeavesKey(retry: RetryPolicy, log: seq<Event>, i: nat, key: string)
    requires Lawful(retry, log) && i < |log| && IsSend(log[i], key)
    requires InState(log, key, Queued) || InState(log, key, Retrying)
    requires !IsRetry(log[|log| - 1], key) && !IsResend(log[|log| - 1], key)
    ensures i < |log| - 1
    ensures InState(log[..|log| - 1], key, Queued) || InState(log[..|log| - 1], key, Retrying)
  {
    var front := log[..|log| - 1];
    if i < |front| {
      SentKeyIsPresent(retry, front, i, key);
    }
  }

  lemma SentKeyIsPresent(retry: RetryPolicy, log: seq<Event>, i: nat, key: string)
    requires Lawful(retry, log) && i < |log| && IsSend(log[i], key)
    ensures key in Replay(log).byKey
  {
    LawfulPrefix(retry, log, i + 1);
    assert log[..i + 1][..i] == log[..i];
    ReplayKeeps(log, i);
  }

  /** Between two `Sending` events of one key there is always a `Retrying` event or a `Resend`. */
  lemma SendsAreSeparated(retry: RetryPolicy, log: seq<Event>, i: nat, j: nat, key: string)
    returns (m: nat)
    requires Lawful(retry, log) && i < j < |log|
    requires IsSend(log[i], key) && IsSend(log[j], key)
    ensures i < m < j && (IsRetry(log[m], key) || IsResend(log[m], key))
  {
    LawfulPrefix(retry, log, j + 1);
    var before := log[..j];
    assert log[..j + 1][..j] == before;
    LawfulPrefix(retry, log, j);
    m := DueAgainAfterSend(retry, before, i, key);
  }
}
