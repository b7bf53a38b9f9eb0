/** Journal records torn inside a character. Recovery drops a journal some byte of which is not text,
    and the undo log with it. */
module ApplyTears {
  import opened Wrappers
  import opened Text
  import opened JsonLines
  import opened LineFiles
  import Utf8
  import opened QueueModel
  import opened QueueHandOff
  import opened ApplyFiles
  import opened ApplyRuns
  import opened ApplySafety
  import opened ApplyTheorems
  import opened ApplyWrites

  lemma {:induction false} NormalizeKeepsAscii(rel: string)
    ensures Utf8.IsAscii(Normalize(rel)) <==> Utf8.IsAscii(rel)
  {
    if rel != "" {
      NormalizeKeepsAscii(rel[1..]);
      AsciiFirst(rel);
      AsciiFirst(Normalize(rel));
      assert Normalize(rel)[1..] == Normalize(rel[1..]);
    }
  }

  lemma AsciiFirst(s: string)
    requires s != ""
    ensures Utf8.IsAscii(s) <==> s[0] as int < 0x80 && Utf8.IsAscii(s[1..])
  {
    assert forall i | 0 < i < |s| :: s[i] == s[1..][i - 1];
    assert forall i | 0 <= i < |s| - 1 :: s[1..][i] == s[i + 1];
  }

  // ── The exact condition ─────────────────────────────────────────────────────

  // A prior record is written for the `k`th path only at its first spelling.
  predicate FirstSpelled(job: Job, k: nat)
    requires k < |job.plan|
  {
    Normalize(job.plan[k].rel) !in SeenAfter(job.plan, k)
  }

  // The records of the `k`th write can be torn anywhere: they are ASCII, or written while the files
  // are the initial ones.
  predicate WriteSurvives(job: Job, k: nat)
    requires k < |job.plan|
  {
    || Utf8.IsAscii(job.plan[k].rel)
    || (&& FilesAfter(job.initial, job.plan, k + 1) == job.initial
        && (FirstSpelled(job, k) ==> FilesAfter(job.initial, job.plan, k) == job.initial))
  }

  /** Every path journaled once the files differ from the initial ones is ASCII. */
  predicate TearProof(job: Job) {
    forall k | 0 <= k < |job.plan| && SafeTo(job, k + 1) :: WriteSurvives(job, k)
  }

  // ── Sufficient ──────────────────────────────────────────────────────────────

  lemma OpenedIsInitial(job: Job, w: World)
    requires Inv(job, w) && w.proc.Opened?
    ensures w.disk.files == job.initial
  {
    OpenedFacts(job, w);
  }

  lemma AppendsShape(job: Job, w: World, step: Step)
    requires w.proc.Writing? && Appends(job, w, step) && !step.AppendCommitBegun?
    ensures w.proc.next < |job.plan|
    ensures
      || (step.AppendPrior? && w.proc.sub.AtTop? && NewAndSafe(job, w.proc.next, w.proc.seen))
      || (step.AppendMoved? && w.proc.sub.Moved?)
  {
    hide Act, Append, RecordOf, NewAndSafe;
  }

  lemma RecordShape(job: Job, w: World, step: Step)
    requires w.proc.Writing? && w.proc.next < |job.plan| && (step.AppendPrior? || step.AppendMoved?)
    ensures RecordOf(job, w, step) ==
      if step.AppendPrior? then PriorRecord(NextPrior(job, w)) else FileMovedRecord(NextRel(job, w))
  {
    hide PriorOf, Normalize;
  }

  lemma NewAndSafeIs(job: Job, p: Proc)
    requires p.Writing? && p.sub.AtTop? && p.next < |job.plan| && Checked(job, p) && NewAndSafe(job, p.next, p.seen)
    ensures SafeTo(job, p.next + 1) && FirstSpelled(job, p.next)
  {
    hide Normalize, CheckRel, SeenAfter;
  }

  lemma CheckedMoved(job: Job, p: Proc)
    requires p.Writing? && p.sub.Moved? && p.next < |job.plan| && Checked(job, p)
    ensures SafeTo(job, p.next + 1)
  {
    hide SafeTo;
  }

  lemma WritingIsChecked(job: Job, d: Disk, p: Proc)
    requires p.Writing? && WritingOk(job, d, p)
    ensures Checked(job, p)
    ensures p.sub.AtTop? ==> d.files == FilesAfter(job.initial, job.plan, p.next)
  {
    hide Checked, FilesAfter, Journal, Writable, HasPrior, BackupsBelow, InPlace;
  }

  // Where a write stands when its record is appended.
  lemma WriteInHand(job: Job, w: World, step: Step)
    requires Inv(job, w) && w.proc.Writing? && Appends(job, w, step) && !step.AppendCommitBegun?
    ensures w.proc.next < |job.plan| && SafeTo(job, w.proc.next + 1)
    ensures step.AppendPrior? || step.AppendMoved?
    ensures step.AppendPrior? ==>
      FirstSpelled(job, w.proc.next) && w.disk.files == FilesAfter(job.initial, job.plan, w.proc.next)
    ensures step.AppendMoved? ==> w.disk.files == FilesAfter(job.initial, job.plan, w.proc.next + 1)
    ensures RecordOf(job, w, step) ==
      if step.AppendPrior? then PriorRecord(NextPrior(job, w)) else FileMovedRecord(NextRel(job, w))
    ensures CodecOk(job.codec)
  {
    hide *;
    WritingFacts(job, w);
    AppendsShape(job, w, step);
    RecordShape(job, w, step);
    WritingIsChecked(job, w.disk, w.proc);
    if step.AppendPrior? {
      NewAndSafeIs(job, w.proc);
    } else {
      CheckedMoved(job, w.proc);
      MovedFiles(job, w.disk, w.proc);
    }
  }

  lemma AsciiRecords(c: Codec<Record>, prior: Prior, rel: string)
    requires CodecOk(c)
    ensures Utf8.IsAscii(c.enc(PriorRecord(prior))) <==> Utf8.IsAscii(prior.rel)
    ensures Utf8.IsAscii(c.enc(FileMovedRecord(rel))) <==> Utf8.IsAscii(rel)
  {
  }

  lemma NextPriorRel(job: Job, w: World)
    requires w.proc.Writing? && w.proc.next < |job.plan|
    ensures NextPrior(job, w).rel == NextRel(job, w) == Normalize(job.plan[w.proc.next].rel)
  {
  }

  // A record that is not ASCII is only ever written while the files are the initial ones.
  lemma TornOnInitialFiles(job: Job, w: World, step: Step)
    requires TearProof(job) && Inv(job, w) && Appends(job, w, step)
    requires !Utf8.IsAscii(job.codec.enc(RecordOf(job, w, step)))
    ensures w.disk.files == job.initial
  {
    AppliedIsFinishing(job, w, step);
    if step.AppendMarked? || step.AppendEnqueued? || step.AppendCommitBegun? {
      FixedRecordsAreAscii(job, w, step);
      assert false;
    } else if w.proc.Opened? {
      OpenedIsInitial(job, w);
    } else {
      hide Inv, Act, CodecOk, FilesAfter, Utf8.IsAscii, SafeTo, FirstSpelled, Normalize, RecordOf, NextPrior, NextRel;
      WriteInHand(job, w, step);
      NextPriorRel(job, w);
      NormalizeKeepsAscii(job.plan[w.proc.next].rel);
      AsciiRecords(job.codec, NextPrior(job, w), NextRel(job, w));
      assert WriteSurvives(job, w.proc.next);
    }
  }

  lemma TornKeepsLog(job: Job, w: World, step: Step)
    requires TearProof(job) && Inv(job, w) && !w.lost && step.Torn?
    ensures !Do(job, w, step).lost
  {
    hide *;
    TornIs(job, w, step);
    var d, d', n := w.disk, Act(job, w, step.append).disk, step.durable;
    if step.append.Torn? { TornTwice(job, w, step.append); }
    if !step.append.CommitLocally? && Grows(d, d') {
      GrowsIs(d, d');
      if |d.journal.value| + n < |d'.journal.value| {
        OnlyAppendsLengthen(job, w, step.append);
        AppendedBytes(job, w, step.append);
        AppliedIsFinishing(job, w, step.append);
        var rec := RecordOf(job, w, step.append);
        var line := LineBytes(job.codec, rec);
        assert (d.journal.value + line)[..|d.journal.value| + n] == d.journal.value + line[..n];
        UnreadableMeansNotAscii(job, d, rec, n);
        if !Utf8.IsAscii(job.codec.enc(rec)) { TornOnInitialFiles(job, w, step.append); }
      }
    }
  }

  lemma UnreadableMeansNotAscii(job: Job, d: Disk, rec: Record, n: nat)
    requires CodecOk(job.codec) && Writable(d) && n < |LineBytes(job.codec, rec)|
    ensures
      var torn := d.(journal := Some(d.journal.value + LineBytes(job.codec, rec)[..n]));
      Unreadable(job, torn) ==> !Utf8.IsAscii(job.codec.enc(rec))
  {
    TornLine(job.codec, d.journal.value, rec, n);
    LineAdds(job.codec, d.journal.value, rec);
    StrictIs(job.codec, d.journal.value);
    hide LineBytes, Intact, LossyRecords, Utf8.IsText, Utf8.IsAscii;
  }

  lemma {:induction false} NeverLost(job: Job, steps: seq<Step>)
    requires GoodJob(job) && TearProof(job)
    ensures !After(job, steps).lost
  {
    if steps != [] {
      hide *;
      var front, last := steps[..|steps| - 1], steps[|steps| - 1];
      NeverLost(job, front);
      RunKeepsReachable(job, front);
      var w := After(job, front);
      NotLost(job, w);
      AfterNext(job, steps);
      if last.Torn? {
        TornKeepsLog(job, w, last);
      } else {
        ActIsDo(job, w, last);
        ActKeepsLost(job, w, last);
      }
    }
  }

  lemma AfterNext(job: Job, steps: seq<Step>)
    requires steps != []
    ensures After(job, steps) == Do(job, After(job, steps[..|steps| - 1]), steps[|steps| - 1])
  {
  }

  // ── Necessary ───────────────────────────────────────────────────────────────

  // Tearing the record of a step inside a character, once the files have changed, loses the log.
  lemma TearLoses(job: Job, w: World, step: Step, rec: Record) returns (n: nat)
    requires Inv(job, w) && !w.lost && !step.CommitLocally? && !step.Torn? && w.disk.journal.Some? && Writable(w.disk)
    requires Act(job, w, step).disk == Append(job, w.disk, rec)
    requires !Utf8.IsAscii(job.codec.enc(rec)) && w.disk.files != job.initial
    ensures
      var w' := Do(job, w, Torn(step, n));
      w'.lost && w'.proc.Dead? && w'.disk.journal.Some? && w'.disk.applied == w.disk.applied && w'.disk.files == w.disk.files
  {
    hide *;
    WritableIs(w.disk);
    n := TornInside(job.codec, w.disk.journal.value, rec);
    TornIs(job, w, Torn(step, n));
    AppendGrows(job, w.disk, rec, n);
  }

  lemma WritableIs(d: Disk)
    requires Writable(d)
    ensures d.journal.Some? && Intact(d.journal.value)
  {
    hide Intact;
  }

  // A journal cut after some bytes of one more record.
  lemma AppendGrows(job: Job, d: Disk, rec: Record, n: nat)
    requires d.journal.Some? && n < |LineBytes(job.codec, rec)|
    requires StrictRecords(job.codec, d.journal.value + LineBytes(job.codec, rec)[..n]) == None
    ensures
      var d' := Append(job, d, rec);
      && Grows(d, d') && |d.journal.value| + n < |d'.journal.value|
      && Unreadable(job, d.(journal := Some(d'.journal.value[..|d.journal.value| + n])))
  {
    hide LineBytes, StrictRecords;
    var before, line := d.journal.value, LineBytes(job.codec, rec);
    assert (before + line)[..|before| + n] == before + line[..n];
  }

  lemma ActIsDoOf(job: Job, w: World, step: Step)
    requires Inside(step)
    ensures Do(job, w, step) == Act(job, w, step)
  {
    ActIsDo(job, w, step);
  }

  lemma PlanTouchesPath(job: Job, w: World)
    requires Inv(job, w) && w.proc.Writing?
    ensures w.disk.journal.Some? && Writable(w.disk) && CodecOk(job.codec)
    ensures w.proc.sub.Moved? ==> w.disk.files == FilesAfter(job.initial, job.plan, w.proc.next + 1)
    ensures w.proc.sub.AtTop? ==> w.disk.files == FilesAfter(job.initial, job.plan, w.proc.next)
    ensures w.proc.sub.AtTop? ==> w.proc.seen == SeenAfter(job.plan, w.proc.next)
  {
    hide *;
    WritingFacts(job, w);
    WritingOkFacts(job, w.disk, w.proc);
  }

  lemma WritingOkFacts(job: Job, d: Disk, p: Proc)
    requires p.Writing? && WritingOk(job, d, p)
    ensures Writable(d) && d.journal.Some?
    ensures p.sub.Moved? ==> d.files == FilesAfter(job.initial, job.plan, p.next + 1)
    ensures p.sub.AtTop? ==> d.files == FilesAfter(job.initial, job.plan, p.next)
    ensures p.sub.AtTop? ==> p.seen == SeenAfter(job.plan, p.next)
  {
    hide Intact, Journal, FilesAfter, HasPrior, BackupsBelow, SeenAfter, SafeTo, Erase, Look, Staged, Resolve, Normalize;
  }

  // A run that tears the record of a move.
  lemma TearMoved(job: Job, k: nat) returns (steps: seq<Step>)
    requires GoodJob(job) && k < |job.plan| && SafeTo(job, k + 1)
    requires !Utf8.IsAscii(job.plan[k].rel) && FilesAfter(job.initial, job.plan, k + 1) != job.initial
    ensures var w := After(job, steps);
      w.lost && w.proc.Dead? && w.disk.journal.Some? && !w.disk.applied
      && w.disk.files == FilesAfter(job.initial, job.plan, k + 1)
  {
    hide *;
    var before := ReachMoved(job, k);
    var w := After(job, before);
    RunKeepsReachable(job, before);
    UndisturbedFields(job, w);
    AtFields(job, w, Moved);
    NotLost(job, w);
    PlanTouchesPath(job, w);
    MovedDone(job, w);
    ActIsDoOf(job, w, AppendMoved);
    NextPriorRel(job, w);
    NormalizeKeepsAscii(job.plan[k].rel);
    AsciiRecords(job.codec, NextPrior(job, w), NextRel(job, w));
    var n := TearLoses(job, w, AppendMoved, FileMovedRecord(NextRel(job, w)));
    OneStep(job, w, Torn(AppendMoved, n));
    RunFromAfter(job, before, [Torn(AppendMoved, n)] + []);
    steps := before + ([Torn(AppendMoved, n)] + []);
  }

  lemma UndisturbedFields(job: Job, w: World)
    requires Undisturbed(job, w)
    ensures !w.lost && !w.disk.applied
  {
  }

  lemma AtFields(job: Job, w: World, sub: Sub)
    requires At(job, w, sub)
    ensures w.proc.Writing? && w.proc.sub == sub && w.proc.next < |job.plan| && w.disk.journal.Some?
  {
  }

  // A run that tears the record of a prior state.
  lemma TearPrior(job: Job, k: nat) returns (steps: seq<Step>)
    requires GoodJob(job) && k < |job.plan| && SafeTo(job, k + 1) && FirstSpelled(job, k)
    requires !Utf8.IsAscii(job.plan[k].rel) && FilesAfter(job.initial, job.plan, k) != job.initial
    ensures var w := After(job, steps); w.lost && w.proc.Dead? && w.disk.journal.Some? && !w.disk.applied
  {
    hide *;
    SafeBefore(job, k);
    var before := ReachWrite(job, k);
    var w := After(job, before);
    RunKeepsReachable(job, before);
    ReadyIsAt(job, w, k);
    UndisturbedFields(job, w);
    AtFields(job, w, AtTop);
    NotLost(job, w);
    PlanTouchesPath(job, w);
    SafeAt(job, w, k);
    NextPriorRel(job, w);
    FirstSpelledIs(job, k);
    var more := ToSavable(job, w);
    RunFromAfter(job, before, more);
    var w1 := After(job, before + more);
    RunKeepsReachable(job, before + more);
    StillUndisturbed(job, w, w1);
    UndisturbedFields(job, w1);
    NotLost(job, w1);
    AtFields(job, w1, AtTop);
    PlanTouchesPath(job, w1);
    SaveDone(job, w1);
    ActIsDoOf(job, w1, AppendPrior);
    NextPriorRel(job, w1);
    NormalizeKeepsAscii(job.plan[k].rel);
    AsciiRecords(job.codec, NextPrior(job, w1), NextRel(job, w1));
    var n := TearLoses(job, w1, AppendPrior, PriorRecord(NextPrior(job, w1)));
    OneStep(job, w1, Torn(AppendPrior, n));
    RunFromAfter(job, before + more, [Torn(AppendPrior, n)] + []);
    steps := before + more + ([Torn(AppendPrior, n)] + []);
  }

  lemma FirstSpelledIs(job: Job, k: nat)
    requires k < |job.plan|
    ensures FirstSpelled(job, k) <==> Normalize(job.plan[k].rel) !in SeenAfter(job.plan, k)
  {
  }

  lemma NotProof(job: Job) returns (k: nat)
    requires !TearProof(job)
    ensures k < |job.plan| && SafeTo(job, k + 1) && !Utf8.IsAscii(job.plan[k].rel)
    ensures
      || FilesAfter(job.initial, job.plan, k + 1) != job.initial
      || (FirstSpelled(job, k) && FilesAfter(job.initial, job.plan, k) != job.initial)
  {
    hide SafeTo, Utf8.IsAscii, FilesAfter, FirstSpelled;
    k :| 0 <= k < |job.plan| && SafeTo(job, k + 1) && !WriteSurvives(job, k);
  }

  lemma SomeTearLoses(job: Job) returns (steps: seq<Step>)
    requires GoodJob(job) && !TearProof(job)
    ensures var w := After(job, steps); w.lost && w.proc.Dead? && w.disk.journal.Some? && !w.disk.applied
  {
    hide *;
    var k := NotProof(job);
    if FilesAfter(job.initial, job.plan, k + 1) != job.initial {
      steps := TearMoved(job, k);
    } else {
      steps := TearPrior(job, k);
    }
  }

  /** Every tear is survived, in every run, if and only if every path journaled once the files differ
      from the initial ones is ASCII. */
  lemma TearsSurvivedExactly(job: Job)
    requires GoodJob(job)
    ensures (forall steps: seq<Step> :: !After(job, steps).lost) <==> TearProof(job)
  {
    hide *;
    if TearProof(job) {
      forall steps: seq<Step> ensures !After(job, steps).lost { NeverLost(job, steps); }
    } else {
      var steps := SomeTearLoses(job);
    }
  }

  // Dropping the unreadable journal settles the apply.
  lemma DropLost(job: Job, steps: seq<Step>) returns (more: seq<Step>)
    requires GoodJob(job)
    requires var w := After(job, steps); w.lost && w.proc.Dead? && w.disk.journal.Some?
    ensures var w := After(job, steps + more);
      Settled(w) && w.lost && w.disk == Closed(After(job, steps).disk)
  {
    hide *;
    var w := After(job, steps);
    RunKeepsReachable(job, steps);
    LostIsDead(job, w);
    LostIsClosed(job, w);
    LostIsDropped(job, w);
    OneStep(job, w, StartRecovery(true));
    RunFromAfter(job, steps, [StartRecovery(true)] + []);
    more := [StartRecovery(true)] + [];
  }

  lemma LostIsClosed(job: Job, w: World)
    requires LostInv(job, w) && w.lost && w.disk.journal.Some?
    ensures Do(job, w, StartRecovery(true)) == w.(disk := Closed(w.disk))
  {
    RecoveryStarts(job, w);
    hide Do, Act, QueueOk, HandedCount, StrictRecords, Closed;
  }

  /** All or nothing, exactly: every run that settles ends in one of the two states if and only if the
      plan is proof against torn records. */
  lemma AllOrNothingExactly(job: Job)
    requires GoodJob(job) && TemporaryFree(job)
    ensures (forall steps: seq<Step> | Settled(After(job, steps)) :: Atomic(job, After(job, steps))) <==> TearProof(job)
  {
    hide *;
    if TearProof(job) {
      forall steps: seq<Step> | Settled(After(job, steps)) ensures Atomic(job, After(job, steps)) {
        NeverLost(job, steps);
        AllOrNothing(job, steps);
      }
    } else {
      var steps := SomeTearLoses(job);
      var more := DropLost(job, steps);
      AllOrNothing(job, steps + more);
    }
  }

  // ── A concrete tear ─────────────────────────────────────────────────────────

  const NAME := "\U{00E9}.txt"

  function OneFile(c: Codec<Record>, content: string): Job {
    Job("d", [], None, [Write(NAME, content)], map[], [], c)
  }

  lemma NameFacts()
    ensures Resolve(NAME) == [NAME] && Normalize(NAME) == NAME && CheckRel(NAME).Success? && !Utf8.IsAscii(NAME)
  {
    assert NAME[0] as int >= 0x80;
    assert ['t'] + "" == "t" && ['x'] + "t" == "xt" && ['t'] + "xt" == "txt" && ['.'] + "txt" == ".txt";
    assert ['\U{00E9}'] + ".txt" == NAME;
    PartsStep('t', "");
    PartsStep('x', "t");
    PartsStep('t', "xt");
    PartsStep('.', "txt");
    PartsStep('\U{00E9}', ".txt");
    assert Parts(NAME) == [NAME];
    assert Plain([NAME]) == [NAME] by { assert [NAME][1..] == []; }
    NormalizePlain(NAME);
  }

  lemma {:induction false} NormalizePlain(s: string)
    requires '\\' !in s
    ensures Normalize(s) == s
  {
    if s != "" {
      NormalizePlain(s[1..]);
      assert s == [s[0]] + s[1..];
    }
  }

  lemma EmptyQueueIsGood(c: Codec<Record>, content: string)
    requires CodecOk(c)
    ensures GoodJob(OneFile(c, content))
  {
    var job := OneFile(c, content);
    assert Replay([]) == EMPTY;
    hide CodecOk;
  }

  lemma OneFileAfter(c: Codec<Record>, content: string)
    ensures var job := OneFile(c, content);
      FilesAfter(job.initial, job.plan, 1) == map[[NAME] := content] && map[[NAME] := content] != job.initial
      && SafeTo(job, 1)
  {
    var job := OneFile(c, content);
    NameFacts();
    hide Resolve, Normalize, CheckRel;
    assert FilesAfter(job.initial, job.plan, 0) == map[];
    assert [NAME] in Put(map[], [NAME], content);
    assert Put(map[], [NAME], content) == map[[NAME] := content];
  }

  /** The smallest case: one new file named `é.txt`, and power lost inside the first character of its
      name as its move is journaled. Recovery then removes journal and backups: the file stays new, the
      draft is not applied, and nothing is queued. */
  lemma TornNameLosesUndoLog(c: Codec<Record>, content: string) returns (steps: seq<Step>)
    requires CodecOk(c)
    ensures
      var w := After(OneFile(c, content), steps);
      && Settled(w) && !w.disk.applied && w.disk.backups == map[]
      && w.disk.files == map[[NAME] := content] && HandedCount(OneFile(c, content), w.disk.queue) == 0
  {
    hide *;
    var job := OneFile(c, content);
    EmptyQueueIsGood(c, content);
    OneFileAfter(c, content);
    OneFileIs(c, content);
    NameFacts();
    var torn := TearMoved(job, 0);
    var more := DropLost(job, torn);
    ClosedIs(After(job, torn).disk);
    steps := torn + more;
    RunKeepsReachable(job, steps);
    LostCount(job, After(job, steps));
  }

  lemma OneFileIs(c: Codec<Record>, content: string)
    ensures var job := OneFile(c, content);
      job.plan == [Write(NAME, content)] && job.initial == map[]
  {
  }

  lemma LostCount(job: Job, w: World)
    requires w.lost && Reachable(job, w)
    ensures HandedCount(job, w.disk.queue) == 0
  {
  }
}
