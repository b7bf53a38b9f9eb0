/** One worker pass over the queue: the due candidates in order, each held back or attempted. The
    clock, the policy and the connector are arbitrary functions of the moment they are used. */
module QueuePass {
  import opened Wrappers
  import opened QueueModel

  // A connector answers or panics; a panic counts as an unknown outcome.
  datatype Execution = Returned(outcome: ExecOutcome) | Panicked(what: string)

  function Classified(x: Execution): ExecOutcome {
    match x
    case Returned(o) => o
    case Panicked(what) => Unknown("the connector panicked mid-send: " + what)
  }

  /** What a pass runs against. `clock(i)` is the i-th reading of the clock. */
  datatype Env = Env(clock: nat -> int, policy: (nat, QueueEntry) -> PolicyVerdict,
                     execute: (nat, QueueEntry) -> Execution, retry: RetryPolicy)

  datatype RunReport = RunReport(done: seq<string>, retrying: seq<string>, needsAttention: seq<string>,
                                 held: seq<string>, stopped: seq<string>)

  const NO_REPORT := RunReport([], [], [], [], [])

  datatype PassState = PassState(log: seq<Event>, tick: nat, report: RunReport)

  // ── Candidates ──────────────────────────────────────────────────────────────

  datatype Candidate = Candidate(rank: nat, seqNo: nat, key: string)

  function ClassRank(c: Reversibility): nat {
    match c
    case Reversible => 0
    case Compensable => 1
    case Irrecoverable => 2
  }

  function CandidateOf(e: QueueEntry): Candidate {
    Candidate(if e.action.ordered then 0 else ClassRank(e.action.class_), e.seqNo, e.key)
  }

  predicate Before(a: Candidate, b: Candidate) {
    a.rank < b.rank || (a.rank == b.rank && a.seqNo < b.seqNo)
  }

  function DueCandidates(entries: seq<QueueEntry>, now: int): seq<Candidate> {
    if entries == [] then []
    else (if entries[0].Due(now) then [CandidateOf(entries[0])] else []) + DueCandidates(entries[1..], now)
  }

  function Insert(c: Candidate, cs: seq<Candidate>): seq<Candidate> {
    if cs == [] || Before(c, cs[0]) then [c] + cs else [cs[0]] + Insert(c, cs[1..])
  }

  function Sort(cs: seq<Candidate>): seq<Candidate> {
    if cs == [] then [] else Insert(cs[0], Sort(cs[1..]))
  }

  // ── The pass ────────────────────────────────────────────────────────────────

  function Report(r: RunReport, key: string, ev: Event): RunReport {
    match ev
    case DoneEvent(_, _, _) => r.(done := r.done + [key])
    case RetryingEvent(_, _, _, _, _) => r.(retrying := r.retrying + [key])
    case _ => r.(needsAttention := r.needsAttention + [key])
  }

  function VerdictFor(env: Env, st: ReplayState, moment: nat, key: string): PolicyVerdict {
    if key in st.byKey then env.policy(moment, st.byKey[key]) else Allow
  }

  function Attempt(env: Env, s: PassState, key: string): PassState {
    var st, now := Replay(s.log), env.clock(s.tick);
    var verdict := VerdictFor(env, st, s.tick, key);
    var c := ClaimDecision(st, key, now, verdict);
    var log := s.log + ClaimEvents(c, key, now, verdict);
    match c
    case Skip => s.(tick := s.tick + 1)
    case Blocked => PassState(log, s.tick + 1, s.report.(needsAttention := s.report.needsAttention + [key]))
    case Claimed(e, attempt) =>
      var outcome := Classified(env.execute(s.tick, e));
      var ev := OutcomeEvent(env.retry, key, attempt, outcome, env.clock(s.tick + 1));
      PassState(log + [ev], s.tick + 2, Report(s.report, key, ev))
  }

  // What an attempt comes to, given what the claim found.
  lemma AttemptResult(env: Env, s: PassState, key: string, c: Claim)
    requires
      var st := Replay(s.log);
      c == ClaimDecision(st, key, env.clock(s.tick), VerdictFor(env, st, s.tick, key))
    ensures c.Skip? ==> Attempt(env, s, key) == s.(tick := s.tick + 1)
    ensures c.Blocked? ==>
      Attempt(env, s, key) == PassState(s.log + ClaimEvents(c, key, env.clock(s.tick), VerdictFor(env, Replay(s.log), s.tick, key)), s.tick + 1,
                s.report.(needsAttention := s.report.needsAttention + [key]))
    ensures c.Claimed? ==>
      var ev := OutcomeEvent(env.retry, key, c.attempt, Classified(env.execute(s.tick, c.entry)), env.clock(s.tick + 1));
      Attempt(env, s, key) == PassState(
        s.log + ClaimEvents(c, key, env.clock(s.tick), VerdictFor(env, Replay(s.log), s.tick, key)) + [ev],
        s.tick + 2, Report(s.report, key, ev))
  {
  }

  lemma RunPassResult(env: Env, log: seq<Event>, tick: nat, st: ReplayState)
    requires st == Replay(log) && st.WellFormed()
    ensures RunPass(env, log, tick)
         == Process(env, PassState(log, tick + 1, NO_REPORT), Sort(DueCandidates(st.Entries(), env.clock(tick))))
  {
  }

  lemma ProcessNext(env: Env, s: PassState, cs: seq<Candidate>, i: nat)
    requires i < |cs|
    ensures Process(env, s, cs[..i + 1]) == ProcessKey(env, Process(env, s, cs[..i]), cs[i].key)
  {
    assert cs[..i + 1][..i] == cs[..i];
  }

  function ProcessKey(env: Env, s: PassState, key: string): PassState {
    ReplayWellFormed(s.log);
    var st := Replay(s.log);
    if key !in st.byKey then s
    else match Hold(st.Entries(), st.byKey[key])
      case Stopped => s.(report := s.report.(stopped := s.report.stopped + [key]))
      case Held => s.(report := s.report.(held := s.report.held + [key]))
      case Go => Attempt(env, s, key)
  }

  function Process(env: Env, s: PassState, cs: seq<Candidate>): PassState {
    if cs == [] then s else ProcessKey(env, Process(env, s, cs[..|cs| - 1]), cs[|cs| - 1].key)
  }

  function Candidates(log: seq<Event>, now: int): seq<Candidate> {
    ReplayWellFormed(log);
    Sort(DueCandidates(Replay(log).Entries(), now))
  }

  function RunPass(env: Env, log: seq<Event>, tick: nat): PassState {
    Process(env, PassState(log, tick + 1, NO_REPORT), Candidates(log, env.clock(tick)))
  }

  // ── The candidates are the due entries, in order ────────────────────────────

  ghost predicate Ordered(cs: seq<Candidate>) {
    forall i, j | 0 <= i < j < |cs| :: Before(cs[i], cs[j])
  }

  predicate DistinctSeqs(cs: seq<Candidate>) {
    forall i, j | 0 <= i < j < |cs| :: cs[i].seqNo != cs[j].seqNo
  }

  lemma {:induction false} InsertKeepsAll(c: Candidate, cs: seq<Candidate>)
    ensures multiset(Insert(c, cs)) == multiset(cs) + multiset{c}
    ensures forall x :: x in Insert(c, cs) <==> x == c || x in cs
  {
    if cs != [] && !Before(c, cs[0]) {
      InsertKeepsAll(c, cs[1..]);
      assert cs == [cs[0]] + cs[1..];
    }
  }

  lemma {:induction false} InsertSorted(c: Candidate, cs: seq<Candidate>)
    requires Ordered(cs) && forall i | 0 <= i < |cs| :: cs[i].seqNo != c.seqNo
    ensures Ordered(Insert(c, cs))
  {
    if cs != [] && !Before(c, cs[0]) {
      InsertSorted(c, cs[1..]);
      InsertKeepsAll(c, cs[1..]);
      var rest, r := Insert(c, cs[1..]), Insert(c, cs);
      assert r == [cs[0]] + rest;
      forall j | 0 <= j < |rest| ensures Before(cs[0], rest[j]) {
        assert rest[j] in rest;
      }
    }
  }

  lemma {:induction false} SortSorts(cs: seq<Candidate>)
    requires DistinctSeqs(cs)
    ensures Ordered(Sort(cs)) && multiset(Sort(cs)) == multiset(cs)
  {
    if cs != [] {
      SortSorts(cs[1..]);
      var r := Sort(cs[1..]);
      forall i | 0 <= i < |r| ensures r[i].seqNo != cs[0].seqNo {
        assert r[i] in multiset(r);
        assert r[i] in cs[1..];
      }
      InsertSorted(cs[0], r);
      InsertKeepsAll(cs[0], r);
      assert cs == [cs[0]] + cs[1..];
    }
  }

  ghost predicate OfDueEntry(entries: seq<QueueEntry>, now: int, c: Candidate) {
    exists i :: 0 <= i < |entries| && entries[i].Due(now) && CandidateOf(entries[i]) == c
  }

  lemma {:induction false} DueCandidatesExact(entries: seq<QueueEntry>, now: int)
    requires forall i, j | 0 <= i < j < |entries| :: entries[i].seqNo != entries[j].seqNo
    ensures DistinctSeqs(DueCandidates(entries, now))
    ensures forall c :: c in DueCandidates(entries, now) <==> OfDueEntry(entries, now, c)
  {
    if entries != [] {
      DueCandidatesExact(entries[1..], now);
      var cs, rest := DueCandidates(entries, now), DueCandidates(entries[1..], now);
      assert forall i | 0 <= i < |entries| - 1 :: entries[1..][i] == entries[i + 1];
      forall i | 0 <= i < |rest| ensures rest[i].seqNo != entries[0].seqNo {
        assert rest[i] in rest;
      }
      if entries[0].Due(now) {
        assert cs == [CandidateOf(entries[0])] + rest;
      } else {
        assert cs == rest;
      }
      forall c ensures c in cs <==> OfDueEntry(entries, now, c) {
        if c in rest {
          assert OfDueEntry(entries[1..], now, c);
          var i :| 0 <= i < |entries| - 1 && entries[1..][i].Due(now) && CandidateOf(entries[1..][i]) == c;
          assert entries[i + 1].Due(now) && CandidateOf(entries[i + 1]) == c;
        }
        if i :| 0 < i < |entries| && entries[i].Due(now) && CandidateOf(entries[i]) == c {
          assert entries[1..][i - 1] == entries[i];
          assert OfDueEntry(entries[1..], now, c);
        }
      }
    }
  }

  predicate DueIn(st: ReplayState, now: int, c: Candidate) {
    c.key in st.byKey && st.byKey[c.key].Due(now) && CandidateOf(st.byKey[c.key]) == c
  }

  // The candidates of a pass are the due actions, in the order of rank and place.
  lemma CandidatesExact(log: seq<Event>, now: int)
    ensures Ordered(Candidates(log, now))
    ensures forall c :: c in Candidates(log, now) <==> DueIn(Replay(log), now, c)
  {
    ReplayWellFormed(log);
    var st := Replay(log);
    var es := st.Entries();
    var cs := DueCandidates(es, now);
    forall i | 0 <= i < |es| ensures es[i] == st.byKey[st.order[i]] && es[i].seqNo == i && es[i].key == st.order[i] {
      assert st.Placed(st.order[i]);
    }
    DueCandidatesExact(es, now);
    SortSorts(cs);
    forall c ensures c in Sort(cs) <==> DueIn(st, now, c) {
      assert c in Sort(cs) <==> c in multiset(Sort(cs));
      assert c in cs <==> c in multiset(cs);
      if c in cs {
        assert OfDueEntry(es, now, c);
        var i :| 0 <= i < |es| && es[i].Due(now) && CandidateOf(es[i]) == c;
        assert c.key == st.order[i];
      }
      if DueIn(st, now, c) {
        assert st.Placed(c.key);
        var i := st.byKey[c.key].seqNo;
        assert es[i] == st.byKey[c.key];
        assert OfDueEntry(es, now, c);
      }
    }
  }

  /** The order of a pass: ordered actions and reversible ones first, as they were queued; then what is
      compensable; what is irrecoverable last. */
  predicate ComesBefore(a: QueueEntry, b: QueueEntry) {
    if b.action.ordered || b.action.class_ == Reversible then
      (a.action.ordered || a.action.class_ == Reversible) && a.seqNo < b.seqNo
    else if a.action.ordered || a.action.class_ == Reversible then true
    else if b.action.class_ == Compensable then a.action.class_ == Compensable && a.seqNo < b.seqNo
    else a.action.class_ == Compensable || a.seqNo < b.seqNo
  }

  /** The candidates of a pass are exactly the actions that are queued or whose next try has come, each
      once, in that order. */
  lemma CandidatesInOrder(log: seq<Event>, now: int)
    ensures
      var cs, st := Candidates(log, now), Replay(log);
      && (forall key :: (exists i :: 0 <= i < |cs| && cs[i].key == key) <==>
            key in st.byKey && (st.byKey[key].state == Queued
              || (st.byKey[key].state == Retrying
                  && (st.byKey[key].nextAt.Some? ==> st.byKey[key].nextAt.value <= now))))
      && (forall i, j | 0 <= i < j < |cs| ::
            cs[i].key in st.byKey && cs[j].key in st.byKey && ComesBefore(st.byKey[cs[i].key], st.byKey[cs[j].key]))
  {
    CandidatesExact(log, now);
    ReplayWellFormed(log);
    var cs, st := Candidates(log, now), Replay(log);
    hide Replay, Candidates;
    forall key | key in st.byKey && st.byKey[key].Due(now) ensures exists i :: 0 <= i < |cs| && cs[i].key == key {
      assert st.Placed(key);
      assert DueIn(st, now, CandidateOf(st.byKey[key]));
      assert CandidateOf(st.byKey[key]) in cs;
    }
    forall i | 0 <= i < |cs| ensures DueIn(st, now, cs[i]) { assert cs[i] in cs; }
  }

  // ── Pass completeness ───────────────────────────────────────────────────────

  // Every check passes, every send succeeds and the clock never goes back.
  ghost predicate Smooth(env: Env) {
    && (forall i: nat, e :: env.policy(i, e) == Allow)
    && (forall i: nat, e :: env.execute(i, e).Returned? && env.execute(i, e).outcome.Sent?)
    && (forall i: nat, j: nat | i <= j :: env.clock(i) <= env.clock(j))
  }

  predicate AllDoneOrDue(st: ReplayState, now: int) {
    forall k | k in st.byKey :: st.byKey[k].state == Done || st.byKey[k].Due(now)
  }

  predicate AllDone(st: ReplayState) { forall k | k in st.byKey :: st.byKey[k].state == Done }

  // `k` and `o` are open, `o` must precede `k`, and `o` does not come up first.
  predicate Inverted(st: ReplayState, k: string, o: string) {
    && k in st.byKey && o in st.byKey && st.byKey[k].state != Done && st.byKey[o].state != Done
    && Precedes(st.byKey[o], st.byKey[k]) && !Before(CandidateOf(st.byKey[o]), CandidateOf(st.byKey[k]))
  }

  /** No entry comes up before an open entry that must precede it. */
  predicate NoInversion(st: ReplayState) {
    forall k, o | k in st.byKey && o in st.byKey :: !Inverted(st, k, o)
  }

  /** Each draft's non-undo actions are all ordered or all unordered. */
  predicate Homogeneous(st: ReplayState) {
    forall k, o | k in st.byKey && o in st.byKey
        && st.byKey[k].action.undoOf.None? && st.byKey[o].action.undoOf.None?
        && st.byKey[k].action.draftId == st.byKey[o].action.draftId ::
      st.byKey[k].action.ordered == st.byKey[o].action.ordered
  }

  lemma HomogeneousHasNoInversion(st: ReplayState)
    requires Homogeneous(st)
    ensures NoInversion(st)
  {
  }

  predicate SameKeys(a: ReplayState, b: ReplayState) {
    a.order == b.order && a.byKey.Keys == b.byKey.Keys
  }

  lemma Appended(log: seq<Event>, ev: Event)
    requires !ev.EnqueuedEvent?
    ensures SameKeys(Replay(log), Replay(log + [ev]))
    ensures forall k | k in Replay(log).byKey && k != ev.key :: Replay(log + [ev]).byKey[k] == Replay(log).byKey[k]
    ensures ev.key in Replay(log).byKey ==>
      Replay(log + [ev]).byKey[ev.key] == Touch(Replay(log).byKey[ev.key], ev)
  {
    ReplayStep(log, ev);
  }

  // From `a` to `b` only the state of `key` has moved.
  predicate OnlyMoved(a: ReplayState, b: ReplayState, key: string) {
    && SameKeys(a, b)
    && (forall k | k in a.byKey && k != key :: b.byKey[k] == a.byKey[k])
    && (key in a.byKey ==>
          && b.byKey[key].action == a.byKey[key].action
          && b.byKey[key].seqNo == a.byKey[key].seqNo
          && b.byKey[key].key == a.byKey[key].key)
  }

  lemma AppendedOnlyMoved(log: seq<Event>, ev: Event)
    requires !ev.EnqueuedEvent?
    ensures OnlyMoved(Replay(log), Replay(log + [ev]), ev.key)
  {
    Appended(log, ev);
  }

  lemma OnlyMovedTwice(a: ReplayState, b: ReplayState, c: ReplayState, key: string)
    requires OnlyMoved(a, b, key) && OnlyMoved(b, c, key)
    ensures OnlyMoved(a, c, key)
  {
  }

  // An attempt leaves every other entry alone and never changes which action the entry is.
  lemma AttemptSpares(env: Env, s: PassState, key: string)
    ensures OnlyMoved(Replay(s.log), Replay(Attempt(env, s, key).log), key)
  {
    var now := env.clock(s.tick);
    var verdict := VerdictFor(env, Replay(s.log), s.tick, key);
    var c := ClaimDecision(Replay(s.log), key, now, verdict);
    var evs := ClaimEvents(c, key, now, verdict);
    AttemptResult(env, s, key, c);
    if !c.Skip? {
      assert evs == [evs[0]];
      AppendedOnlyMoved(s.log, evs[0]);
      if c.Claimed? {
        var ev := OutcomeEvent(env.retry, key, c.attempt, Classified(env.execute(s.tick, c.entry)), env.clock(s.tick + 1));
        AppendedOnlyMoved(s.log + evs, ev);
        OnlyMovedTwice(Replay(s.log), Replay(s.log + evs), Replay(s.log + evs + [ev]), key);
      }
    }
  }

  // Processing a key leaves every other entry alone.
  lemma ProcessKeySpares(env: Env, s: PassState, key: string)
    ensures OnlyMoved(Replay(s.log), Replay(ProcessKey(env, s, key).log), key)
  {
    var s' := ProcessKey(env, s, key);
    assert s'.log == s.log || s' == Attempt(env, s, key);
    if s' == Attempt(env, s, key) { AttemptSpares(env, s, key); }
  }

  lemma {:induction false} ProcessSpares(env: Env, s: PassState, cs: seq<Candidate>)
    ensures SameKeys(Replay(s.log), Replay(Process(env, s, cs).log))
    ensures forall k | k in Replay(s.log).byKey && (forall i | 0 <= i < |cs| :: cs[i].key != k) ::
      Replay(Process(env, s, cs).log).byKey[k] == Replay(s.log).byKey[k]
  {
    if cs != [] {
      ProcessSpares(env, s, cs[..|cs| - 1]);
      ProcessKeySpares(env, Process(env, s, cs[..|cs| - 1]), cs[|cs| - 1].key);
    }
  }

  // A due entry that nothing holds back is finished.
  lemma AttemptFinishes(env: Env, s: PassState, key: string)
    requires Smooth(env)
    requires key in Replay(s.log).byKey && Replay(s.log).byKey[key].Due(env.clock(s.tick))
    ensures key in Replay(Attempt(env, s, key).log).byKey
    ensures Replay(Attempt(env, s, key).log).byKey[key].state == Done
    ensures Attempt(env, s, key).report == s.report.(done := s.report.done + [key])
    ensures Attempt(env, s, key).tick >= s.tick
  {
    var st, now := Replay(s.log), env.clock(s.tick);
    var e := st.byKey[key];
    var sending := SendingEvent(key, e.attempts + 1, now);
    Appended(s.log, sending);
    var outcome := Classified(env.execute(s.tick, e));
    Appended(s.log + [sending], OutcomeEvent(env.retry, key, e.attempts + 1, outcome, env.clock(s.tick + 1)));
  }

  function KeysOf(cs: seq<Candidate>): seq<string> {
    seq(|cs|, i requires 0 <= i < |cs| => cs[i].key)
  }

  // The state of a smooth pass over `all` after its first `n` candidates.
  ghost predicate Midway(s0: PassState, s: PassState, all: seq<Candidate>, n: nat)
    requires n <= |all|
  {
    && s.tick >= s0.tick
    && s.report == NO_REPORT.(done := KeysOf(all[..n]))
    && SameKeys(Replay(s0.log), Replay(s.log))
    && (forall i | n <= i < |all| && all[i].key in Replay(s0.log).byKey ::
          Replay(s.log).byKey[all[i].key] == Replay(s0.log).byKey[all[i].key])
    && (forall k | k in Replay(s.log).byKey ::
          && Replay(s.log).byKey[k].action == Replay(s0.log).byKey[k].action
          && Replay(s.log).byKey[k].seqNo == Replay(s0.log).byKey[k].seqNo
          && Replay(s.log).byKey[k].key == Replay(s0.log).byKey[k].key)
    && (forall k | k in Replay(s.log).byKey ::
          Replay(s.log).byKey[k].state == Done || exists i :: n <= i < |all| && all[i].key == k)
  }

  // What the pass knows about its candidates.
  ghost predicate Listed(s0: PassState, all: seq<Candidate>, now: int) {
    && Ordered(all)
    && (forall c :: c in all <==> DueIn(Replay(s0.log), now, c))
    && (forall i, j | 0 <= i < j < |all| :: all[i].key != all[j].key)
  }

  lemma CandidatesListed(s0: PassState, now: int)
    ensures Listed(s0, Candidates(s0.log, now), now)
  {
    CandidatesExact(s0.log, now);
    var all, st := Candidates(s0.log, now), Replay(s0.log);
    forall i, j | 0 <= i < j < |all| ensures all[i].key != all[j].key {
      assert DueIn(st, now, all[i]) && DueIn(st, now, all[j]);
      assert Before(all[i], all[j]);
    }
  }

  // With no inversion, every entry that must precede the next candidate is done by its turn.
  lemma NextGoesAhead(s0: PassState, s: PassState, all: seq<Candidate>, n: nat, now: int)
    requires n < |all| && Listed(s0, all, now) && Midway(s0, s, all, n)
    requires NoInversion(Replay(s0.log))
    ensures all[n].key in Replay(s.log).byKey
    ensures GoesAhead(s.log, all[n].key)
  {
    var st0, st, key := Replay(s0.log), Replay(s.log), all[n].key;
    assert DueIn(st0, now, all[n]);
    var e := st.byKey[key];
    forall i | n <= i < |all| ensures all[i].key in st.byKey && !Precedes(st.byKey[all[i].key], e) {
      assert DueIn(st0, now, all[i]);
      assert !Before(all[i], all[n]);
      assert !Inverted(st0, key, all[i].key);
    }
    FreeKeyGoesAhead(s.log, key);
  }

  // The effect of one finished candidate on the state of the pass.
  lemma MidwayAdvance(s0: PassState, s: PassState, s': PassState, all: seq<Candidate>, n: nat)
    requires n < |all| && Midway(s0, s, all, n)
    requires forall i | n < i < |all| :: all[i].key != all[n].key
    requires OnlyMoved(Replay(s.log), Replay(s'.log), all[n].key) && s'.tick >= s.tick
    requires all[n].key in Replay(s'.log).byKey && Replay(s'.log).byKey[all[n].key].state == Done
    requires s'.report == s.report.(done := s.report.done + [all[n].key])
    ensures Midway(s0, s', all, n + 1)
  {
    var key := all[n].key;
    assert KeysOf(all[..n + 1]) == KeysOf(all[..n]) + [key];
    forall k | k in Replay(s'.log).byKey && Replay(s'.log).byKey[k].state != Done
      ensures exists i :: n + 1 <= i < |all| && all[i].key == k
    {
      var i :| n <= i < |all| && all[i].key == k;
      assert n + 1 <= i;
    }
  }

  lemma MidwayStep(env: Env, s0: PassState, s: PassState, all: seq<Candidate>, n: nat, now: int)
    requires Smooth(env) && now <= env.clock(s0.tick)
    requires n < |all| && Listed(s0, all, now) && Midway(s0, s, all, n)
    requires NoInversion(Replay(s0.log))
    ensures Midway(s0, ProcessKey(env, s, all[n].key), all, n + 1)
  {
    var key := all[n].key;
    NextGoesAhead(s0, s, all, n, now);
    assert DueIn(Replay(s0.log), now, all[n]);
    assert env.clock(s0.tick) <= env.clock(s.tick);
    AttemptFinishes(env, s, key);
    AttemptSpares(env, s, key);
    assert ProcessKey(env, s, key) == Attempt(env, s, key);
    MidwayAdvance(s0, s, Attempt(env, s, key), all, n);
  }

  lemma {:induction false} MidwayAll(env: Env, s0: PassState, all: seq<Candidate>, n: nat, now: int)
    requires Smooth(env) && now <= env.clock(s0.tick) && s0.report == NO_REPORT
    requires n <= |all| && Listed(s0, all, now) && AllDoneOrDue(Replay(s0.log), now)
    requires NoInversion(Replay(s0.log))
    ensures Midway(s0, Process(env, s0, all[..n]), all, n)
    decreases n
  {
    if n == 0 {
      ReplayWellFormed(s0.log);
      forall k | k in Replay(s0.log).byKey && Replay(s0.log).byKey[k].state != Done
        ensures exists i :: 0 <= i < |all| && all[i].key == k
      {
        assert Replay(s0.log).Placed(k);
        assert DueIn(Replay(s0.log), now, CandidateOf(Replay(s0.log).byKey[k]));
        assert CandidateOf(Replay(s0.log).byKey[k]) in all;
      }
    } else {
      MidwayAll(env, s0, all, n - 1, now);
      assert all[..n][..n - 1] == all[..n - 1];
      MidwayStep(env, s0, Process(env, s0, all[..n - 1]), all, n - 1, now);
    }
  }

  // ── With an inversion, something is left over ───────────────────────────────

  predicate LeavesNobody(r: RunReport) { r.held == [] && r.stopped == [] }

  lemma ReportGrows(env: Env, s: PassState, key: string)
    ensures s.report.held <= ProcessKey(env, s, key).report.held
    ensures s.report.stopped <= ProcessKey(env, s, key).report.stopped
  {
  }

  lemma {:induction false} LeftOversStay(env: Env, s: PassState, cs: seq<Candidate>)
    requires !LeavesNobody(s.report)
    ensures !LeavesNobody(Process(env, s, cs).report)
  {
    if cs != [] {
      LeftOversStay(env, s, cs[..|cs| - 1]);
      ReportGrows(env, Process(env, s, cs[..|cs| - 1]), cs[|cs| - 1].key);
    }
  }

  lemma {:induction false} ProcessConcat(env: Env, s: PassState, a: seq<Candidate>, b: seq<Candidate>)
    ensures Process(env, s, a + b) == Process(env, Process(env, s, a), b)
    decreases |b|
  {
    if b == [] {
      assert a + b == a;
    } else {
      assert (a + b)[..|a + b| - 1] == a + b[..|b| - 1];
      ProcessConcat(env, s, a, b[..|b| - 1]);
    }
  }

  lemma BlockedIsLeft(env: Env, s: PassState, k: string, o: string)
    requires k in Replay(s.log).byKey && o in Replay(s.log).byKey && Replay(s.log).byKey[o].state != Done
    requires Precedes(Replay(s.log).byKey[o], Replay(s.log).byKey[k])
    ensures !LeavesNobody(ProcessKey(env, s, k).report)
  {
    ReplayWellFormed(s.log);
    HoldGo(Replay(s.log), Replay(s.log).byKey[k]);
  }

  lemma InvertedPositions(s0: PassState, all: seq<Candidate>, now: int, k: string, o: string) returns (i: nat, j: nat)
    requires Listed(s0, all, now) && AllDoneOrDue(Replay(s0.log), now) && Inverted(Replay(s0.log), k, o)
    ensures i <= j < |all| && all[i].key == k && all[j].key == o
  {
    var st0 := Replay(s0.log);
    ReplayWellFormed(s0.log);
    assert st0.Placed(k) && st0.Placed(o);
    assert DueIn(st0, now, CandidateOf(st0.byKey[k])) && DueIn(st0, now, CandidateOf(st0.byKey[o]));
    i :| 0 <= i < |all| && all[i] == CandidateOf(st0.byKey[k]);
    j :| 0 <= j < |all| && all[j] == CandidateOf(st0.byKey[o]);
  }

  lemma InvertedIsLeft(env: Env, s0: PassState, all: seq<Candidate>, now: int, k: string, o: string)
    requires Listed(s0, all, now) && AllDoneOrDue(Replay(s0.log), now) && Inverted(Replay(s0.log), k, o)
    ensures !LeavesNobody(Process(env, s0, all).report)
  {
    var i, j := InvertedPositions(s0, all, now, k, o);
    var early, late := all[..i], all[i + 1..];
    var s := Process(env, s0, early);
    ProcessSpares(env, s0, early);
    assert forall x | 0 <= x < |early| :: early[x].key == all[x].key;
    BlockedIsLeft(env, s, k, o);
    LeftOversStay(env, ProcessKey(env, s, k), late);
    ProcessSplit(env, s0, all, i);
  }

  lemma ProcessSplit(env: Env, s: PassState, cs: seq<Candidate>, i: nat)
    requires i < |cs|
    ensures Process(env, s, cs)
         == Process(env, ProcessKey(env, Process(env, s, cs[..i]), cs[i].key), cs[i + 1..])
  {
    assert cs == cs[..i + 1] + cs[i + 1..];
    ProcessConcat(env, s, cs[..i + 1], cs[i + 1..]);
    assert cs[..i + 1][..i] == cs[..i];
  }

  /** Pass completeness. When every entry is done or due, nothing is blocked and every send
      succeeds, one pass finishes every entry and leaves none held or stopped exactly when no
      entry comes up before an open entry that must precede it. Then it reports precisely the due
      keys, in order. */
  lemma PassCompletes(env: Env, log: seq<Event>, tick: nat)
    requires Smooth(env) && AllDoneOrDue(Replay(log), env.clock(tick))
    ensures
      var r := RunPass(env, log, tick);
      && ((AllDone(Replay(r.log)) && LeavesNobody(r.report)) <==> NoInversion(Replay(log)))
      && (NoInversion(Replay(log)) ==>
            && r.report == NO_REPORT.(done := KeysOf(Candidates(log, env.clock(tick))))
            && SameKeys(Replay(log), Replay(r.log)))
  {
    var now, s0 := env.clock(tick), PassState(log, tick + 1, NO_REPORT);
    var all, st0 := Candidates(log, now), Replay(log);
    CandidatesListed(s0, now);
    if NoInversion(st0) {
      assert now <= env.clock(tick + 1);
      MidwayAll(env, s0, all, |all|, now);
      assert all[..|all|] == all;
    } else {
      var k, o :| Inverted(st0, k, o);
      InvertedIsLeft(env, s0, all, now, k, o);
    }
  }

  /** In particular a pass finishes every draft whose actions are all ordered or all unordered. */
  lemma HomogeneousPassCompletes(env: Env, log: seq<Event>, tick: nat)
    requires Smooth(env) && AllDoneOrDue(Replay(log), env.clock(tick)) && Homogeneous(Replay(log))
    ensures
      var r := RunPass(env, log, tick);
      && AllDone(Replay(r.log)) && LeavesNobody(r.report)
      && r.report == NO_REPORT.(done := KeysOf(Candidates(log, env.clock(tick))))
  {
    HomogeneousHasNoInversion(Replay(log));
    PassCompletes(env, log, tick);
  }

  // ── A mixed draft can wait forever ──────────────────────────────────────────

  // Neither of two open entries may go before the other is done.
  predicate Deadlocked(st: ReplayState, a: string, b: string) {
    && a in st.byKey && b in st.byKey && st.byKey[a].state != Done && st.byKey[b].state != Done
    && Precedes(st.byKey[a], st.byKey[b]) && Precedes(st.byKey[b], st.byKey[a])
  }

  /** An irrecoverable action queued before an ordered one of its draft, where only one of the two
      is ordered: the ordered one waits for what was declared earlier, the irrecoverable one for
      every other class. The ordered one also comes up first. */
  lemma MixedDraftIsInverted(mail: NewAction, wiki: NewAction, now: int)
    requires mail.draftId == wiki.draftId && mail.Key() != wiki.Key() && mail.undoOf.None? && wiki.undoOf.None?
    requires !mail.ordered && mail.class_ == Irrecoverable && wiki.ordered && wiki.class_ != Irrecoverable
    ensures
      var st := Replay([EnqueuedEvent(mail, 0), EnqueuedEvent(wiki, 0)]);
      !NoInversion(st) && AllDoneOrDue(st, now) && Deadlocked(st, mail.Key(), wiki.Key())
  {
    var one, two := EnqueuedEvent(mail, 0), EnqueuedEvent(wiki, 0);
    assert Replay([]) == EMPTY;
    ReplayStep([], one);
    ReplayStep([one], two);
    assert [] + [one] == [one] && [one] + [two] == [one, two];
    assert Inverted(Replay([one, two]), wiki.Key(), mail.Key());
  }

  // Both entries stand as they did.
  predicate Untouched(before: ReplayState, after: ReplayState, a: string, b: string) {
    && a in before.byKey && b in before.byKey && a in after.byKey && b in after.byKey
    && after.byKey[a] == before.byKey[a] && after.byKey[b] == before.byKey[b]
  }

  lemma DeadlockedIsHeld(env: Env, s: PassState, a: string, b: string, key: string)
    requires Deadlocked(Replay(s.log), a, b)
    ensures Untouched(Replay(s.log), Replay(ProcessKey(env, s, key).log), a, b)
  {
    if key == a || key == b {
      ReplayWellFormed(s.log);
      HoldGo(Replay(s.log), Replay(s.log).byKey[key]);
    } else {
      ProcessKeySpares(env, s, key);
    }
  }

  lemma {:induction false} ProcessLeavesDeadlock(env: Env, s: PassState, cs: seq<Candidate>, a: string, b: string)
    requires Deadlocked(Replay(s.log), a, b)
    ensures Untouched(Replay(s.log), Replay(Process(env, s, cs).log), a, b)
  {
    hide ProcessKey, Replay;
    if cs != [] {
      ProcessLeavesDeadlock(env, s, cs[..|cs| - 1], a, b);
      DeadlockedIsHeld(env, Process(env, s, cs[..|cs| - 1]), a, b, cs[|cs| - 1].key);
    }
  }

  /** The journal after passes, each with its own surroundings and first clock reading. */
  function Passes(log: seq<Event>, runs: seq<(Env, nat)>): seq<Event> {
    if runs == [] then log
    else RunPass(runs[|runs| - 1].0, Passes(log, runs[..|runs| - 1]), runs[|runs| - 1].1).log
  }

  /** However many passes run and whatever clock, policy and connectors do, deadlocked entries are
      never sent. */
  lemma {:induction false} DeadlockLasts(log: seq<Event>, runs: seq<(Env, nat)>, a: string, b: string)
    requires Deadlocked(Replay(log), a, b)
    ensures Untouched(Replay(log), Replay(Passes(log, runs)), a, b)
  {
    hide Replay, Candidates;
    if runs != [] {
      var front, env, tick := runs[..|runs| - 1], runs[|runs| - 1].0, runs[|runs| - 1].1;
      DeadlockLasts(log, front, a, b);
      var mid := Passes(log, front);
      ProcessLeavesDeadlock(env, PassState(mid, tick + 1, NO_REPORT), Candidates(mid, env.clock(tick)), a, b);
    }
  }
}
