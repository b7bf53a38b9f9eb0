/** The queue handle over its journal file, and the worker that drains it. Each method is one
    operation under the queue lock and is proved to append exactly the events its decision names. */
module ActionQueueFile {
  import opened Wrappers
  import opened Text
  import Utf8
  import opened JsonLines
  import opened LineFiles
  import opened QueueModel
  import opened QueuePass

  // The keys a batch finds already present, in batch order.
  function PresentKeys(known: set<string>, actions: seq<NewAction>): seq<string>
    decreases |actions|
  {
    if actions == [] then []
    else if actions[0].Key() in known then [actions[0].Key()] + PresentKeys(known, actions[1..])
    else PresentKeys(known + {actions[0].Key()}, actions[1..])
  }

  // One more action of a batch, once `done` has been looked at.
  lemma {:induction false} NewActionsStep(known: set<string>, done: seq<NewAction>, a: NewAction)
    ensures var seen := known + KeySet(done);
      && NewActions(known, done + [a]) == NewActions(known, done) + (if a.Key() in seen then [] else [a])
      && PresentKeys(known, done + [a]) == PresentKeys(known, done) + (if a.Key() in seen then [a.Key()] else [])
    decreases |done|
  {
    if done == [] {
      assert done + [a] == [a] && [a][1..] == [];
    } else {
      var k, rest := done[0].Key(), done[1..];
      assert (done + [a])[1..] == rest + [a];
      var known' := if k in known then known else known + {k};
      NewActionsStep(known', rest, a);
      assert done == [done[0]] + rest;
      assert known + KeySet(done) == known' + KeySet(rest);
    }
  }

  lemma SortOutStep(base: set<string>, actions: seq<NewAction>, i: nat, at: int)
    requires i < |actions|
    ensures
      var done, next, key := actions[..i], actions[..i + 1], actions[i].Key();
      var isNew := key !in base + KeySet(done);
      && KeySet(next) == KeySet(done) + {key}
      && EnqueueEvents(NewActions(base, next), at)
         == EnqueueEvents(NewActions(base, done), at) + (if isNew then [EnqueuedEvent(actions[i], at)] else [])
      && ActionKeys(NewActions(base, next)) == ActionKeys(NewActions(base, done)) + (if isNew then [key] else [])
      && PresentKeys(base, next) == PresentKeys(base, done) + (if isNew then [] else [key])
  {
    NewActionsStep(base, actions[..i], actions[i]);
    assert actions[..i + 1] == actions[..i] + [actions[i]];
  }

  lemma {:induction false} RecoverEventsStep(es: seq<QueueEntry>, e: QueueEntry, at: int)
    ensures RecoverEvents(es + [e], at) == RecoverEvents(es, at) + InFlightEvent(e, at)
    decreases |es|
  {
    if es == [] {
      assert es + [e] == [e] && [e][1..] == [];
    } else {
      assert (es + [e])[1..] == es[1..] + [e];
      RecoverEventsStep(es[1..], e, at);
      var first, middle, last := InFlightEvent(es[0], at), RecoverEvents(es[1..], at), InFlightEvent(e, at);
      assert first + (middle + last) == (first + middle) + last;
    }
  }

  function Targets(evs: seq<Event>): seq<string> {
    seq(|evs|, i requires 0 <= i < |evs| => evs[i].Target())
  }

  class ActionQueue {
    const codec: Codec<Event>
    var bytes: seq<Byte>  // the whole of `queue.jsonl`

    constructor (codec: Codec<Event>, bytes: seq<Byte>)
      ensures this.codec == codec && this.bytes == bytes
    {
      this.codec := codec;
      this.bytes := bytes;
    }

    // The readable events of the journal.
    ghost function Log(): seq<Event>
      reads this
    {
      LossyRecords(codec, bytes)
    }

    /** Rebuilds the queue by replaying the journal. */
    method Snapshot() returns (st: ReplayState, skipped: nat)
      ensures st == Replay(Log()) && st.WellFormed()
      ensures skipped == LossySkips(codec, bytes)
    {
      var text := Utf8.Lossy(bytes);
      var lines := Lines(text);
      st, skipped := EMPTY, 0;
      ghost var records := [];
      for i := 0 to |lines|
        invariant records == LinesRecords(codec, lines[..i]) && st == Replay(records)
        invariant skipped == LinesSkips(codec, lines[..i])
      {
        NextLine(codec, lines, i);
        var line := Trim(lines[i]);
        if line != "" {
          var parsed := codec.dec(line);
          if parsed.Some? {
            ReplayStep(records, parsed.value);
            records := records + [parsed.value];
            st := Apply(st, parsed.value);
          } else {
            skipped := skipped + 1;
          }
        }
      }
      assert lines[..|lines|] == lines;
      ReplayWellFormed(records);
    }

    /** Appends whole lines in one write, starting on a fresh line after a torn one. */
    method AppendLocked(events: seq<Event>)
      requires Sound(codec)
      modifies this
      ensures bytes == old(bytes) + AppendBytes(codec, old(bytes), events)
      ensures Log() == old(Log()) + events
      ensures LossySkips(codec, bytes) == old(LossySkips(codec, bytes))
    {
      AppendAddsExactlyBytes(codec, bytes, events);
      if events == [] { return; }
      var start := if bytes != [] && bytes[|bytes| - 1] != NEWLINE then "\n" else "";
      var buf := EncodeLines(codec, start, events);
      NewlineByte();
      Utf8.EncodeConcat(start, EncodeAll(codec, events));
      Utf8.EmptyText([]);
      hide LossyRecords, LossySkips, EncodeAll;
      bytes := bytes + Utf8.Encode(buf);
    }

    static method EncodeLines(codec: Codec<Event>, start: string, events: seq<Event>) returns (buf: string)
      ensures buf == start + EncodeAll(codec, events)
    {
      buf := start;
      for i := 0 to |events|
        invariant buf == start + EncodeAll(codec, events[..i])
      {
        EncodeNext(codec, events, i);
        buf := buf + codec.enc(events[i]) + "\n";
      }
      assert events[..|events|] == events;
    }

    method EnqueueBatch(actions: seq<NewAction>, at: int) returns (added: seq<string>, present: seq<string>)
      requires Sound(codec)
      modifies this
      ensures var known := Replay(old(Log())).byKey.Keys;
        && Log() == old(Log()) + EnqueueEvents(NewActions(known, actions), at)
        && added == ActionKeys(NewActions(known, actions))
        && present == PresentKeys(known, actions)
    {
      var st, _ := Snapshot();
      var events;
      added, present, events := SortOut(st.byKey.Keys, actions, at);
      AppendLocked(events);
    }

    // Separates the actions of a batch into new ones and ones already known.
    static method SortOut(base: set<string>, actions: seq<NewAction>, at: int)
      returns (added: seq<string>, present: seq<string>, events: seq<Event>)
      ensures events == EnqueueEvents(NewActions(base, actions), at)
      ensures added == ActionKeys(NewActions(base, actions))
      ensures present == PresentKeys(base, actions)
    {
      var known := base;
      added, present, events := [], [], [];
      for i := 0 to |actions|
        invariant known == base + KeySet(actions[..i])
        invariant events == EnqueueEvents(NewActions(base, actions[..i]), at)
        invariant added == ActionKeys(NewActions(base, actions[..i]))
        invariant present == PresentKeys(base, actions[..i])
      {
        SortOutStep(base, actions, i, at);
        var key := actions[i].Key();
        if key in known {
          present := present + [key];
        } else {
          known := known + {key};
          added := added + [key];
          events := events + [EnqueuedEvent(actions[i], at)];
        }
      }
      assert actions[..|actions|] == actions;
    }

    /** Startup recovery: every action still `Sending` needs attention; nothing is resent. */
    method RecoverInFlight(at: int) returns (keys: seq<string>)
      requires Sound(codec)
      modifies this
      ensures Replay(old(Log())).WellFormed()
      ensures var evs := RecoverEvents(Replay(old(Log())).Entries(), at);
        Log() == old(Log()) + evs && keys == Targets(evs)
    {
      var st, _ := Snapshot();
      var events;
      keys, events := StillSending(st.Entries(), at);
      AppendLocked(events);
    }

    static method StillSending(entries: seq<QueueEntry>, at: int) returns (keys: seq<string>, events: seq<Event>)
      ensures events == RecoverEvents(entries, at) && keys == Targets(events)
    {
      events := [];
      keys := [];
      for i := 0 to |entries|
        invariant events == RecoverEvents(entries[..i], at)
        invariant keys == Targets(events)
      {
        RecoverEventsStep(entries[..i], entries[i], at);
        assert entries[..i + 1] == entries[..i] + [entries[i]];
        keys := keys + Targets(InFlightEvent(entries[i], at));
        events := events + InFlightEvent(entries[i], at);
      }
      assert entries[..|entries|] == entries;
    }

    method Resolve(key: string, resolution: Resolution, note: string, at: int) returns (r: Result<Event, Refusal>)
      requires Sound(codec)
      modifies this
      ensures r == ResolveDecision(Replay(old(Log())), key, resolution, note, at)
      ensures Log() == old(Log()) + if r.Success? then [r.value] else []
    {
      var st, _ := Snapshot();
      r := ResolveDecision(st, key, resolution, note, at);
      if r.Success? { AppendLocked([r.value]); }
    }

    method RequestUndo(key: string, at: int) returns (r: Result<string, Refusal>)
      requires Sound(codec)
      modifies this
      ensures var d := UndoDecision(Replay(old(Log())), key);
        && (d.Success? ==> r == Success(d.value.Key()) && Log() == old(Log()) + [EnqueuedEvent(d.value, at)])
        && (d.Failure? ==> r == Failure(d.error) && bytes == old(bytes))
    {
      var st, _ := Snapshot();
      var d := UndoDecision(st, key);
      if d.Failure? {
        return Failure(d.error);
      }
      AppendLocked([EnqueuedEvent(d.value, at)]);
      r := Success(d.value.Key());
    }

    /** Claims a due key. The policy is consulted only for a due entry, and before the intent to
        send is written. */
    method ClaimKey(key: string, now: int, env: Env, moment: nat) returns (c: Claim)
      requires Sound(codec)
      modifies this
      ensures var verdict := VerdictFor(env, Replay(old(Log())), moment, key);
        && c == ClaimDecision(Replay(old(Log())), key, now, verdict)
        && Log() == old(Log()) + ClaimEvents(c, key, now, verdict)
    {
      var st, _ := Snapshot();
      if key !in st.byKey || !st.byKey[key].Due(now) {
        return Skip;
      }
      var e := st.byKey[key];
      var verdict := env.policy(moment, e);
      if verdict.Block? {
        AppendLocked([AttentionEvent(key, PolicyBlocked, verdict.reason, now)]);
        return Blocked;
      }
      AppendLocked([SendingEvent(key, e.attempts + 1, now)]);
      c := Claimed(e, e.attempts + 1);
    }

    method Record(ev: Event)
      requires Sound(codec)
      modifies this
      ensures Log() == old(Log()) + [ev]
    {
      AppendLocked([ev]);
    }
  }

  class QueueWorker {
    const queue: ActionQueue
    const env: Env
    var tick: nat  // how often the clock has been read

    constructor (queue: ActionQueue, env: Env)
      ensures this.queue == queue && this.env == env && tick == 0
    {
      this.queue := queue;
      this.env := env;
      tick := 0;
    }

    method Now() returns (t: int)
      modifies this
      ensures t == env.clock(old(tick)) && tick == old(tick) + 1
    {
      t := env.clock(tick);
      tick := tick + 1;
    }

    /** Claims the key, calls the connector once, and records how it went. */
    method AttemptKey(key: string, report: RunReport) returns (report': RunReport)
      requires Sound(queue.codec)
      modifies this, queue
      ensures PassState(queue.Log(), tick, report') == Attempt(env, PassState(old(queue.Log()), old(tick), report), key)
    {
      ghost var s := PassState(queue.Log(), tick, report);
      var moment := tick;
      var now := Now();
      var c := queue.ClaimKey(key, now, env, moment);
      AttemptResult(env, s, key, c);
      match c
      case Skip =>
        assert queue.Log() == s.log;
        report' := report;
      case Blocked =>
        report' := report.(needsAttention := report.needsAttention + [key]);
      case Claimed(e, attempt) =>
        var outcome := Classified(env.execute(moment, e));
        var at := Now();
        var ev := OutcomeEvent(env.retry, key, attempt, outcome, at);
        queue.Record(ev);
        report' := Report(report, key, ev);
    }

    /** Looks at the queue afresh, then holds the key back or attempts it. */
    method Consider(key: string, report: RunReport) returns (report': RunReport)
      requires Sound(queue.codec)
      modifies this, queue
      ensures PassState(queue.Log(), tick, report') == ProcessKey(env, PassState(old(queue.Log()), old(tick), report), key)
    {
      var st, _ := queue.Snapshot();
      if key !in st.byKey {
        return report;
      }
      var verdict := Hold(st.Entries(), st.byKey[key]);
      if verdict == Stopped {
        report' := report.(stopped := report.stopped + [key]);
      } else if verdict == Held {
        report' := report.(held := report.held + [key]);
      } else {
        report' := AttemptKey(key, report);
      }
    }

    /** One pass: attempts every due action once, in order, holding back what must wait. */
    method RunOnce() returns (report: RunReport)
      requires Sound(queue.codec)
      modifies this, queue
      ensures PassState(queue.Log(), tick, report) == RunPass(env, old(queue.Log()), old(tick))
    {
      hide *;
      ghost var log := queue.Log();
      var st, _ := queue.Snapshot();
      RunPassResult(env, log, tick, st);
      var now := Now();
      assert queue.Log() == log;
      var due := Sort(DueCandidates(st.Entries(), now));
      report := Drain(due);
    }

    method Drain(due: seq<Candidate>) returns (report: RunReport)
      requires Sound(queue.codec)
      modifies this, queue
      ensures PassState(queue.Log(), tick, report)
           == Process(env, PassState(old(queue.Log()), old(tick), NO_REPORT), due)
    {
      report := NO_REPORT;
      ghost var start := PassState(queue.Log(), tick, report);
      ghost var s := start;
      for i := 0 to |due|
        invariant s == Process(env, start, due[..i])
        invariant s == PassState(queue.Log(), tick, report)
      {
        ProcessNext(env, start, due, i);
        s := ProcessKey(env, s, due[i].key);
        report := Consider(due[i].key, report);
      }
      assert due[..|due|] == due;
    }
  }
}
