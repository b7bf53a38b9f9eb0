/** The journal handle of one apply and its recovery, over the files and the bytes of the journal. */
module ApplyJournalFile {
  import opened Wrappers
  import opened Text
  import opened JsonLines
  import opened LineFiles
  import Utf8
  import opened QueueModel
  import opened ActionQueueFile
  import opened ApplyFiles
  import opened ApplyRuns
  import opened ApplySafety
  import opened ApplyTheorems
  import opened ApplyWrites

  // ── Restoring, with failures ────────────────────────────────────────────────

  /** How far a restore has come. It stops at a path that is not safe. */
  datatype Restored = Restored(files: Files, count: nat, failures: seq<Path>, stopped: bool) {
    predicate Clean() { failures == [] && !stopped }
  }

  // Paths in `broken` can be neither written nor removed.
  function RestoreStep(r: Restored, prior: Prior, backups: Backups, broken: set<Path>): Restored {
    var dst := Resolve(prior.rel);
    var cleaned := Erase(r.files, Staged(dst));
    if r.stopped then r
    else if CheckRel(prior.rel).Failure? then r.(stopped := true)
    else if prior.existed && prior.backup.None? then r.(files := cleaned)
    else if prior.existed && (prior.backup.value !in backups || dst in broken) then
      r.(files := cleaned, failures := r.failures + [dst])
    else if prior.existed then
      r.(files := Put(cleaned, dst, backups[prior.backup.value]), count := r.count + 1)
    else if dst !in cleaned then r.(files := cleaned)
    else if dst in broken then r.(files := cleaned, failures := r.failures + [dst])
    else r.(files := Erase(cleaned, dst), count := r.count + 1)
  }

  function RestoreMost(r: Restored, priors: seq<Prior>, backups: Backups, broken: set<Path>): Restored
    decreases |priors|
  {
    if priors == [] then r
    else RestoreMost(RestoreStep(r, priors[|priors| - 1], backups, broken), priors[..|priors| - 1], backups, broken)
  }

  // As saving a prior state writes it: a file that existed has its backup named.
  predicate WellSaved(prior: Prior) {
    CheckRel(prior.rel).Success? && (prior.existed ==> prior.backup.Some?)
  }

  predicate AllWellSaved(priors: seq<Prior>) { forall i | 0 <= i < |priors| :: WellSaved(priors[i]) }

  lemma {:induction false} CleanStartsClean(r: Restored, priors: seq<Prior>, backups: Backups, broken: set<Path>)
    requires RestoreMost(r, priors, backups, broken).Clean()
    ensures r.Clean()
    decreases |priors|
  {
    if priors != [] {
      var last := priors[|priors| - 1];
      CleanStartsClean(RestoreStep(r, last, backups, broken), priors[..|priors| - 1], backups, broken);
    }
  }

  lemma CleanStep(r: Restored, prior: Prior, backups: Backups, broken: set<Path>)
    requires WellSaved(prior) && RestoreStep(r, prior, backups, broken).Clean()
    ensures Restorable(prior, backups)
    ensures RestoreStep(r, prior, backups, broken).files == RestoreOne(r.files, prior, backups)
  {
    var cleaned := Erase(r.files, Staged(Resolve(prior.rel)));
    if Resolve(prior.rel) !in cleaned { assert Erase(cleaned, Resolve(prior.rel)) == cleaned; }
  }

  // The newest prior first, then the others.
  lemma RestoreMostUnfold(r: Restored, front: seq<Prior>, last: Prior, backups: Backups, broken: set<Path>)
    ensures RestoreMost(r, front + [last], backups, broken)
         == RestoreMost(RestoreStep(r, last, backups, broken), front, backups, broken)
    ensures AllWellSaved(front + [last]) <==> AllWellSaved(front) && WellSaved(last)
    ensures AllRestorable(front + [last], backups) <==> AllRestorable(front, backups) && Restorable(last, backups)
    ensures AllRestorable(front + [last], backups) ==>
      RestoreAll(r.files, front + [last], backups) == RestoreAll(RestoreOne(r.files, last, backups), front, backups)
  {
    hide RestoreStep, RestoreOne, WellSaved, Restorable, CheckRel, Resolve;
    var all := front + [last];
    assert all[..|all| - 1] == front;
    assert AllWellSaved(all) ==> WellSaved(all[|front|]) && forall i | 0 <= i < |front| :: WellSaved(all[i]);
    assert AllRestorable(all, backups) ==>
      Restorable(all[|front|], backups) && forall i | 0 <= i < |front| :: Restorable(all[i], backups);
  }

  /** A restore that reports no failure has restored everything. */
  lemma {:induction false} CleanRestoreIsComplete(r: Restored, priors: seq<Prior>, backups: Backups, broken: set<Path>)
    requires AllWellSaved(priors) && RestoreMost(r, priors, backups, broken).Clean()
    ensures AllRestorable(priors, backups)
    ensures RestoreMost(r, priors, backups, broken).files == RestoreAll(r.files, priors, backups)
    decreases |priors|
  {
    if priors != [] {
      hide *;
      var front, last := priors[..|priors| - 1], priors[|priors| - 1];
      assert priors == front + [last];
      RestoreMostUnfold(r, front, last, backups, broken);
      var r' := RestoreStep(r, last, backups, broken);
      CleanStartsClean(r', front, backups, broken);
      CleanRestoreIsComplete(r', front, backups, broken);
      CleanStep(r, last, backups, broken);
    }
  }

  /** With every backup at hand and no path broken, it succeeds. */
  lemma {:induction false} UnbrokenRestoreIsClean(r: Restored, priors: seq<Prior>, backups: Backups)
    requires r.Clean() && AllWellSaved(priors) && AllRestorable(priors, backups)
    ensures RestoreMost(r, priors, backups, {}).Clean()
    decreases |priors|
  {
    if priors != [] {
      UnbrokenRestoreIsClean(RestoreStep(r, priors[|priors| - 1], backups, {}), priors[..|priors| - 1], backups);
    }
  }

  // ── The store and recovery ──────────────────────────────────────────────────

  datatype Outcome =
    | RolledForward(enqueued: nat)
    | RolledBack(restored: nat, commitUndone: bool)
    | Discarded
    | InProgress
    | Failed

  /** The outside world at recovery: `applied` is None when the status cannot be read. */
  datatype Effects = Effects(inProgress: bool, applied: Option<bool>, undo: (string, Option<string>) -> bool)

  function LogOf(c: Codec<Record>, journal: seq<Byte>): seq<Record> {
    if Utf8.IsText(journal) then LossyRecords(c, journal) else []
  }

  function StateOf(c: Codec<Record>, journal: seq<Byte>): JournalState { ReadState(LogOf(c, journal)) }

  lemma LogNext(c: Codec<Record>, journal: seq<Byte>, rec: Record)
    requires Sound(c) && Intact(journal)
    ensures Intact(journal + LineBytes(c, rec))
    ensures LogOf(c, journal + LineBytes(c, rec)) == LogOf(c, journal) + [rec]
    ensures StateOf(c, journal + LineBytes(c, rec)) == ReadOne(StateOf(c, journal), rec)
  {
    LineAdds(c, journal, rec);
    StrictIs(c, journal);
    StrictIs(c, journal + LineBytes(c, rec));
    ReadNext(LogOf(c, journal), rec);
    hide StrictRecords, LossyRecords, ReadState, LineBytes, Sound;
  }

  /** The durable things an apply touches: the project's files and its journal directory. */
  class Store {
    const codec: Codec<Record>
    var files: Files
    var present: bool        // whether the journal directory is there
    var journal: seq<Byte>  // the bytes of `journal.jsonl`
    var backups: Backups

    constructor (codec: Codec<Record>, files: Files)
      ensures this.codec == codec && this.files == files
      ensures !present && journal == [] && backups == map[]
    {
      this.codec, this.files, present, journal, backups := codec, files, false, [], map[];
    }

    // The records of the journal; none when some byte of it is not text.
    ghost function Log(): seq<Record>
      reads this
    {
      LogOf(codec, journal)
    }

    ghost function State(): JournalState
      reads this
    {
      StateOf(codec, journal)
    }

    // The outcome of restoring everything now.
    ghost function Restoration(broken: set<Path>): Restored
      reads this
    {
      RestoreMost(Restored(files, 0, [], false), State().priors, backups, broken)
    }

    method RemoveDirectory()
      modifies `present, `journal, `backups
      ensures !present && journal == [] && backups == map[]
    {
      present, journal, backups := false, [], map[];
    }

    /** Appends one record as a line of its own. */
    method Append(rec: Record)
      requires Sound(codec) && Intact(journal)
      modifies `journal
      ensures journal == old(journal) + LineBytes(codec, rec) && Intact(journal)
      ensures Log() == old(Log()) + [rec] && State() == ReadOne(old(State()), rec)
    {
      LogNext(codec, journal, rec);
      hide Intact, LogOf, StateOf;
      journal := journal + Utf8.Encode(codec.enc(rec) + "\n");
    }

    /** Reads the journal, skipping blank and unreadable lines; fails when it is not all text. */
    method ReadJournal() returns (s: Option<JournalState>)
      ensures s == if Utf8.IsText(journal) then Some(State()) else None
    {
      var text := Utf8.Decode(journal);
      if text.None? {
        return None;
      }
      var r := ReadLines(text.value);
      s := Some(r);
    }

    method ReadLines(text: string) returns (s: JournalState)
      ensures s == ReadState(Records(codec, text))
    {
      var lines := Lines(text);
      s := BLANK;
      ghost var records := [];
      for i := 0 to |lines|
        invariant records == LinesRecords(codec, lines[..i]) && s == ReadState(records)
      {
        NextLine(codec, lines, i);
        var line := Trim(lines[i]);
        if line != "" {
          var parsed := codec.dec(line);
          if parsed.Some? {
            ReadNext(records, parsed.value);
            records := records + [parsed.value];
            s := ReadOne(s, parsed.value);
          }
        }
      }
      assert lines[..|lines|] == lines;
    }

    // Restores one prior; `stop` when its path is not safe.
    method RestorePrior(prior: Prior, broken: set<Path>, count: nat, failures: seq<Path>)
      returns (count': nat, failures': seq<Path>, stop: bool)
      modifies `files
      ensures Restored(files, count', failures', stop)
           == RestoreStep(Restored(old(files), count, failures, false), prior, backups, broken)
    {
      count', failures', stop := count, failures, CheckRel(prior.rel).Failure?;
      if stop { return; }
      var dst := Resolve(prior.rel);
      files := Erase(files, Staged(dst));
      if prior.existed {
        if prior.backup.None? { return; }
        if prior.backup.value in backups && dst !in broken {
          files := Put(files, dst, backups[prior.backup.value]);
          count' := count + 1;
        } else {
          failures' := failures + [dst];
        }
      } else if dst in files {
        if dst !in broken {
          files := Erase(files, dst);
          count' := count + 1;
        } else {
          failures' := failures + [dst];
        }
      }
    }

    /** Restores every prior, newest first; a path that cannot be restored does not stop the rest. */
    method RestorePriors(s: JournalState, broken: set<Path>) returns (r: Option<nat>)
      modifies `files
      ensures var m := RestoreMost(Restored(old(files), 0, [], false), s.priors, backups, broken);
        files == m.files && r == if m.Clean() then Some(m.count) else None
    {
      hide RestoreStep, WellSaved, Restorable, RestoreOne, RestoreAll, AllWellSaved, AllRestorable;
      var count, failures, stop := 0, [], false;
      ghost var goal := RestoreMost(Restored(files, 0, [], false), s.priors, backups, broken);
      var i := |s.priors|;
      assert s.priors[..i] == s.priors;
      while i > 0 && !stop
        invariant 0 <= i <= |s.priors|
        invariant RestoreMost(Restored(files, count, failures, stop), s.priors[..i], backups, broken) == goal
      {
        assert s.priors[..i] == s.priors[..i - 1] + [s.priors[i - 1]];
        RestoreMostUnfold(Restored(files, count, failures, stop), s.priors[..i - 1], s.priors[i - 1], backups, broken);
        count, failures, stop := RestorePrior(s.priors[i - 1], broken, count, failures);
        i := i - 1;
      }
      if stop { StoppedStays(Restored(files, count, failures, stop), s.priors[..i], backups, broken); }
      r := if failures == [] && !stop then Some(count) else None;
    }

    /** Recovery of one interrupted apply. The durable status alone decides the direction, and the
        directory is removed exactly when recovery is complete. */
    method Recover(queue: ActionQueue, effects: Effects, broken: set<Path>, at: int) returns (o: Outcome)
      requires Sound(queue.codec) && present
      modifies this, queue
      ensures
        var s, known := old(State()), Replay(old(queue.Log())).byKey.Keys;
        var m := old(Restoration(broken));
        var goBack := s.begun && !effects.inProgress && effects.applied == Some(false)
          && (s.localCommit.Some? ==> effects.undo(s.localCommit.value, s.priorHead));
        && (o.Discarded? <==> !s.begun)
        && (!old(Utf8.IsText(journal)) ==> o.Discarded?)
        && (o.InProgress? <==> s.begun && effects.inProgress)
        && (o.RolledForward? <==> s.begun && !effects.inProgress && effects.applied == Some(true))
        && (o.RolledBack? <==> goBack && m.Clean())
        && (o.RolledForward? ==> o.enqueued == |NewActions(known, s.actions)|)
        && (o.RolledForward? ==> queue.Log() == old(queue.Log()) + EnqueueEvents(NewActions(known, s.actions), at))
        && (!o.RolledForward? ==> queue.bytes == old(queue.bytes))
        && (o.RolledBack? ==> o.restored == m.count && o.commitUndone == s.localCommit.Some?)
        && files == (if goBack then m.files else old(files))
        && (o.Discarded? || o.RolledForward? || o.RolledBack? ==> !present)
        && (o.InProgress? || o.Failed? ==> present && journal == old(journal) && backups == old(backups))
    {
      var read := ReadJournal();
      if read.None? || !read.value.begun {
        RemoveDirectory();
        return Discarded;
      }
      var s := read.value;
      if effects.inProgress {
        return InProgress;
      }
      if effects.applied.None? {
        return Failed;
      }
      if effects.applied.value {
        var added, _ := queue.EnqueueBatch(s.actions, at);
        RemoveDirectory();
        return RolledForward(|added|);
      }
      var commitUndone := false;
      if s.localCommit.Some? {
        if !effects.undo(s.localCommit.value, s.priorHead) {
          return Failed;
        }
        commitUndone := true;
      }
      var restored := RestorePriors(s, broken);
      if restored.None? {
        return Failed;
      }
      RemoveDirectory();
      o := RolledBack(restored.value, commitUndone);
    }
  }

  lemma {:induction false} StoppedStays(r: Restored, priors: seq<Prior>, backups: Backups, broken: set<Path>)
    requires r.stopped
    ensures RestoreMost(r, priors, backups, broken) == r
    decreases |priors|
  {
    if priors != [] { StoppedStays(r, priors[..|priors| - 1], backups, broken); }
  }

  // ── The journal handle ──────────────────────────────────────────────────────

  lemma JustBegun(rec: Record)
    requires rec.BeginRecord?
    ensures ReadState([rec]).begun && ReadState([rec]).priors == []
  {
    assert [] + [rec] == [rec];
    ReadNext([], rec);
  }

  // Saving the present state of a path keeps the undo log sound, and its backups numbered.
  lemma SavingIsSound(initial: Files, files: Files, priors: seq<Prior>, backups: Backups, norm: string, next: nat)
    requires Undoable(initial, files, priors, backups) && AllWellSaved(priors) && BackupsBelow(priors, next)
    requires CheckRel(norm).Success?
    ensures
      var prior := PriorOf(files, norm, next);
      var backups' := if prior.existed then backups[next := files[Resolve(norm)]] else backups;
      && (prior.existed ==> Resolve(norm) in files)
      && AllWellSaved(priors + [prior])
      && Undoable(initial, files, priors + [prior], backups')
      && BackupsBelow(priors + [prior], if prior.existed then next + 1 else next)
  {
    var prior := PriorOf(files, norm, next);
    var backups' := if prior.existed then backups[next := files[Resolve(norm)]] else backups;
    if prior.existed { NewBackupKeepsUndoable(initial, files, priors, backups, next, files[Resolve(norm)]); }
    assert Restorable(prior, backups') && SavedContent(prior, backups') == Look(files, Resolve(prior.rel));
    hide Undoable;
    SavingKeepsUndoable(initial, files, priors, backups', prior);
  }

  // The undo log in a journal covers every change made since the initial files.
  ghost predicate Covered(initial: Files, files: Files, s: JournalState, backups: Backups, seen: set<string>, next: nat) {
    && s.begun && AllWellSaved(s.priors)
    && Undoable(initial, files, s.priors, backups)
    && BackupsBelow(s.priors, next)
    && forall r | r in seen :: HasPrior(s.priors, r)
  }

  lemma SavingKeepsCovered(initial: Files, files: Files, s: JournalState, backups: Backups, seen: set<string>,
                           next: nat, norm: string)
    requires Covered(initial, files, s, backups, seen, next) && CheckRel(norm).Success?
    ensures
      var prior := PriorOf(files, norm, next);
      var backups' := if prior.existed then backups[next := files[Resolve(norm)]] else backups;
      && (prior.existed ==> Resolve(norm) in files)
      && Covered(initial, files, ReadOne(s, PriorRecord(prior)), backups', seen + {norm},
                 if prior.existed then next + 1 else next)
      && HasPrior(ReadOne(s, PriorRecord(prior)).priors, norm)
  {
    var prior := PriorOf(files, norm, next);
    SavingIsSound(initial, files, s.priors, backups, norm, next);
    PriorOfIs(files, norm, next);
    hide PriorOf, Resolve, CheckRel, Undoable, AllWellSaved, BackupsBelow, HasPrior;
    SeenGrows(s.priors, prior, seen);
    assert prior.rel in seen + {prior.rel};
  }

  lemma KeysCount(actions: seq<NewAction>)
    ensures |ActionKeys(actions)| == |actions|
  {
  }

  lemma PriorExists(files: Files, rel: string, next: nat)
    ensures PriorOf(files, rel, next).existed <==> Resolve(rel) in files
  {
    hide Resolve;
  }

  class ApplyJournal {
    const store: Store
    var seen: set<string>
    var nextBackup: nat
    ghost const initial: Files  // the files when the journal was opened

    /** The journal is open, and its undo log still covers every change made so far. */
    ghost predicate Valid()
      reads this, store
    {
      && Sound(store.codec) && store.present && Intact(store.journal)
      && Covered(initial, store.files, store.State(), store.backups, seen, nextBackup)
    }

    /** Opens the journal: a stale one is replaced. */
    constructor (store: Store, draftId: string, actions: seq<NewAction>, priorHead: Option<string>)
      requires Sound(store.codec)
      modifies store
      ensures Valid() && this.store == store && initial == old(store.files) == store.files
      ensures seen == {} && nextBackup == 0
      ensures store.Log() == [BeginRecord(draftId, actions, priorHead)]
    {
      this.store := store;
      seen, nextBackup, initial := {}, 0, store.files;
      new;
      IntactEmpty(store.codec);
      store.present, store.journal := true, [];
      store.Append(BeginRecord(draftId, actions, priorHead));
      assert store.Log() == [BeginRecord(draftId, actions, priorHead)];
      JustBegun(BeginRecord(draftId, actions, priorHead));
      NothingSavedYet(initial, store.backups);
    }

    /** Saves the prior state of a path, once per spelling. */
    method RecordPrior(rel: string) returns (r: Result<(), Unsafe>)
      requires Valid()
      modifies this, store`journal, store`backups
      ensures Valid()
      ensures r == CheckRel(Normalize(rel))
      ensures var norm := Normalize(rel);
        store.Log() == old(store.Log()) +
          if r.Failure? || norm in old(seen) then [] else [PriorRecord(PriorOf(old(store.files), norm, old(nextBackup)))]
      ensures r.Success? ==> HasPrior(store.State().priors, Normalize(rel))
      ensures seen == if r.Success? then old(seen) + {Normalize(rel)} else old(seen)
      ensures var path := Resolve(Normalize(rel));
        if r.Success? && Normalize(rel) !in old(seen) && path in store.files then
          store.backups == old(store.backups)[old(nextBackup) := store.files[path]] && nextBackup == old(nextBackup) + 1
        else store.backups == old(store.backups) && nextBackup == old(nextBackup)
    {
      var norm := Normalize(rel);
      r := CheckRel(norm);
      if r.Failure? || norm in seen {
        assert store.Log() == old(store.Log()) + [];
        return;
      }
      SavePrior(norm);
    }

    method SavePrior(norm: string)
      requires Valid() && CheckRel(norm).Success? && norm !in seen
      modifies this, store`journal, store`backups
      ensures Valid() && HasPrior(store.State().priors, norm)
      ensures store.Log() == old(store.Log()) + [PriorRecord(PriorOf(store.files, norm, old(nextBackup)))]
      ensures seen == old(seen) + {norm}
      ensures if Resolve(norm) in store.files then
          store.backups == old(store.backups)[old(nextBackup) := store.files[Resolve(norm)]]
          && nextBackup == old(nextBackup) + 1
        else store.backups == old(store.backups) && nextBackup == old(nextBackup)
    {
      hide Covered, HasPrior, PriorOf, Resolve, CheckRel, StateOf, LogOf, Intact, LineBytes;
      var prior := PriorOf(store.files, norm, nextBackup);
      assert prior.existed <==> Resolve(norm) in store.files by { PriorExists(store.files, norm, nextBackup); }
      SavingKeepsCovered(initial, store.files, store.State(), store.backups, seen, nextBackup, norm);
      seen := seen + {norm};
      if prior.existed {
        store.backups := store.backups[nextBackup := store.files[Resolve(norm)]];
        nextBackup := nextBackup + 1;
      }
      store.Append(PriorRecord(prior));
    }

    // A record that leaves the undo log alone.
    method Note(rec: Record)
      requires Valid() && !rec.BeginRecord? && !rec.PriorRecord?
      modifies store`journal
      ensures Valid() && store.Log() == old(store.Log()) + [rec]
    {
      ReadNext(store.Log(), rec);
      store.Append(rec);
    }

    method CommitBegun()
      requires Valid()
      modifies store`journal
      ensures Valid() && store.Log() == old(store.Log()) + [CommitBegunRecord]
    {
      Note(CommitBegunRecord);
    }

    method FileMoved(rel: string)
      requires Valid()
      modifies store`journal
      ensures Valid() && store.Log() == old(store.Log()) + [FileMovedRecord(Normalize(rel))]
    {
      Note(FileMovedRecord(Normalize(rel)));
    }

    method LocalCommitted(commit: string)
      requires Valid()
      modifies store`journal
      ensures Valid() && store.Log() == old(store.Log()) + [LocalCommittedRecord(commit)]
    {
      Note(LocalCommittedRecord(commit));
    }

    method MarkedApplied()
      requires Valid()
      modifies store`journal
      ensures Valid() && store.Log() == old(store.Log()) + [MarkedAppliedRecord]
    {
      Note(MarkedAppliedRecord);
    }

    /** Saves the prior state, then moves the new content into place and journals the move. */
    method Install(rel: string, content: string) returns (r: Result<(), Unsafe>)
      requires Valid()
      modifies this, store
      ensures Valid()
      ensures r == CheckRel(Normalize(rel))
      ensures store.files == if r.Success? then Put(old(store.files), Resolve(rel), content) else old(store.files)
      ensures store.Log() == old(store.Log()) +
        if r.Failure? then []
        else (if Normalize(rel) in old(seen) then []
              else [PriorRecord(PriorOf(old(store.files), Normalize(rel), old(nextBackup)))])
             + [FileMovedRecord(Normalize(rel))]
      ensures seen == if r.Success? then old(seen) + {Normalize(rel)} else old(seen)
    {
      hide *;
      r := RecordPrior(rel);
      if r.Failure? { return; }
      MoveInto(rel, content);
      FileMoved(rel);
    }

    method MoveInto(rel: string, content: string)
      requires Valid() && HasPrior(store.State().priors, Normalize(rel))
      modifies store`files
      ensures Valid() && store.files == Put(old(store.files), Resolve(rel), content)
      ensures store.Log() == old(store.Log())
    {
      var dst, tmp := Resolve(rel), Staged(Resolve(rel));
      ghost var priors := store.State().priors;
      NormalizeKeepsParts(rel);
      PriorTouches(priors, store.backups, Normalize(rel));
      ghost var files0 := store.files;
      ghost var files1 := files0[dst := content];
      store.files := Put(store.files, dst, content);
      WritingKeepsUndoable(initial, files0, files1, priors, store.backups, dst);
      WritingKeepsUndoable(initial, files1, store.files, priors, store.backups, tmp);
    }

    method RecordedActions() returns (actions: seq<NewAction>)
      requires Valid()
      ensures actions == store.State().actions
    {
      hide Covered, StateOf, LogOf;
      var read := store.ReadJournal();
      actions := if read.Some? then read.value.actions else [];
    }

    /** Queues every action in one append, then closes the journal. */
    method EnqueueAndComplete(queue: ActionQueue, at: int) returns (added: nat)
      requires Valid() && Sound(queue.codec)
      modifies this, store, queue
      ensures var mine := NewActions(Replay(old(queue.Log())).byKey.Keys, old(store.State()).actions);
        && queue.Log() == old(queue.Log()) + EnqueueEvents(mine, at)
        && added == |mine|
      ensures !store.present && store.files == old(store.files)
    {
      hide *;
      var actions := RecordedActions();
      var keys, _ := queue.EnqueueBatch(actions, at);
      Note(EnqueuedRecord);
      store.RemoveDirectory();
      added := |keys|;
      KeysCount(NewActions(Replay(old(queue.Log())).byKey.Keys, actions));
    }

    /** Gives up before the commit point: restores every prior and drops the journal, or keeps the
        journal for recovery when a path could not be restored. When nothing is broken the files are
        exactly as when the journal was opened, up to files at temporary names. */
    method AbandonAfterRollback(broken: set<Path>)
      requires Valid()
      modifies this, store
      ensures store.files == old(store.Restoration(broken)).files
      ensures store.present <==> !old(store.Restoration(broken)).Clean()
      ensures !store.present ==> store.files == ApplyFiles.RolledBack(initial, old(store.State()).priors, old(store.backups))
      ensures broken == {} ==> !store.present
      ensures store.present ==> store.journal == old(store.journal) && store.backups == old(store.backups)
    {
      ghost var log, start := store.State(), Restored(store.files, 0, [], false);
      RestoreUndoesEverything(initial, store.files, log.priors, store.backups);
      UnbrokenRestoreIsClean(start, log.priors, store.backups);
      if RestoreMost(start, log.priors, store.backups, broken).Clean() {
        CleanRestoreIsComplete(start, log.priors, store.backups, broken);
      }
      var read := store.ReadJournal();
      if read.Some? {
        var restored := store.RestorePriors(read.value, broken);
        if restored.None? { return; }
      }
      store.RemoveDirectory();
    }
  }

  // ── The handle and the crash model ──────────────────────────────────────────

  // The steps of one undisturbed install of a path not saved before.
  function InstallSteps(files: Files, w: Write): seq<Step> {
    (if Resolve(w.rel) in files then [CopyBackup(files[Resolve(w.rel)])] else [])
    + ([AppendPrior] + ([FinishCopy] + ([RenameStaged] + ([AppendMoved] + []))))
  }

  // Once the prior can be saved, four steps put the new content in place and journal it.
  lemma FourSteps(job: Job, w: World)
    requires At(job, w, AtTop) && CanSave(job, w)
    ensures
      var d, write, rel := w.disk, job.plan[w.proc.next], NextRel(job, w);
      var prior := PriorRecord(NextPrior(job, w));
      RunFrom(job, w, [AppendPrior] + ([FinishCopy] + ([RenameStaged] + ([AppendMoved] + [])))).disk
      == Append(job, Append(job, d, prior).(files := Put(d.files, Resolve(rel), write.content)), FileMovedRecord(rel))
  {
    hide Do, RunFrom, Put, Resolve, Normalize, CheckRel, BackupReady, PriorOf, Staged, CanSave, LineBytes;
    SaveDone(job, w);
    var w1 := Do(job, w, AppendPrior);
    StageDone(job, w1);
    var w2 := Do(job, w1, FinishCopy);
    RenameDone(job, w2, w.disk.files);
    var w3 := Do(job, w2, RenameStaged);
    MovedDone(job, w3);
    OneStep(job, w3, AppendMoved);
    OneMore(job, w2, RenameStaged, [AppendMoved] + []);
    TwoMore(job, w, AppendPrior, FinishCopy, [RenameStaged] + ([AppendMoved] + []));
  }

  /** An install that nothing interrupts takes the crash model to the very files and journal bytes that
      `Install` leaves. */
  lemma InstallRefinesSteps(job: Job, w: World)
    requires At(job, w, AtTop) && CheckRel(NextRel(job, w)).Success? && NextRel(job, w) !in w.proc.seen
    ensures
      var d, write, rel := w.disk, job.plan[w.proc.next], NextRel(job, w);
      var d' := RunFrom(job, w, InstallSteps(d.files, write)).disk;
      && d'.files == Put(d.files, Resolve(write.rel), write.content)
      && d'.journal == Some(d.journal.value + LineBytes(job.codec, PriorRecord(NextPrior(job, w)))
                            + LineBytes(job.codec, FileMovedRecord(rel)))
      && d'.applied == d.applied && d'.queue == d.queue && d'.committed == d.committed
  {
    var d, write := w.disk, job.plan[w.proc.next];
    var four := [AppendPrior] + ([FinishCopy] + ([RenameStaged] + ([AppendMoved] + [])));
    NormalizeKeepsParts(write.rel);
    assert Resolve(NextRel(job, w)) == Resolve(write.rel);
    hide Do, RunFrom, Put, Resolve, Normalize, CheckRel, BackupReady, PriorOf, Staged, LineBytes;
    CopyDone(job, w);
    if Resolve(write.rel) in d.files {
      var copy := CopyBackup(d.files[Resolve(write.rel)]);
      OneMore(job, w, copy, four);
      FourSteps(job, Do(job, w, copy));
    } else {
      assert InstallSteps(d.files, write) == four;
      FourSteps(job, w);
    }
  }
}
