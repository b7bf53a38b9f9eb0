/** What a restore leaves when some of it fails: path by path, and every failure by name. */
module ApplyRestore {
  import opened Wrappers
  import opened ApplyFiles
  import opened ApplyJournalFile

  // Whether the prior at `i` can be put back: its path can be written and its backup is at hand.
  predicate CanRestore(priors: seq<Prior>, backups: Backups, broken: set<Path>, i: nat)
    requires i < |priors|
  {
    Resolve(priors[i].rel) !in broken && Restorable(priors[i], backups)
  }

  /** What is at `x` once the priors from `from` on are restored: what the oldest of them that can be
      restored at `x` saved, nothing where an older one has its temporary name, and otherwise what was
      there. */
  function LeftAt(files: Files, priors: seq<Prior>, backups: Backups, broken: set<Path>, from: nat, x: Path)
    : Option<string>
    requires from <= |priors|
    decreases |priors| - from
  {
    if from == |priors| then Look(files, x)
    else if Resolve(priors[from].rel) == x && CanRestore(priors, backups, broken, from) then
      SavedContent(priors[from], backups)
    else if Staged(Resolve(priors[from].rel)) == x then None
    else LeftAt(files, priors, backups, broken, from + 1, x)
  }

  // Whether the prior at `i` calls for anything: a named backup, or a file that was not there before.
  predicate NeedsRestore(files: Files, priors: seq<Prior>, backups: Backups, broken: set<Path>, i: nat)
    requires i < |priors|
  {
    if priors[i].existed then priors[i].backup.Some?
    else LeftAt(files, priors, backups, broken, i + 1, Resolve(priors[i].rel)).Some?
  }

  predicate FailsAt(files: Files, priors: seq<Prior>, backups: Backups, broken: set<Path>, i: nat)
    requires i < |priors|
  {
    NeedsRestore(files, priors, backups, broken, i) && !CanRestore(priors, backups, broken, i)
  }

  // The paths of the priors from `from` on that could not be restored, newest first.
  function FailedPaths(files: Files, priors: seq<Prior>, backups: Backups, broken: set<Path>, from: nat): seq<Path>
    requires from <= |priors|
    decreases |priors| - from
  {
    if from == |priors| then []
    else
      FailedPaths(files, priors, backups, broken, from + 1)
      + if FailsAt(files, priors, backups, broken, from) then [Resolve(priors[from].rel)] else []
  }

  function RestoredCount(files: Files, priors: seq<Prior>, backups: Backups, broken: set<Path>, from: nat): nat
    requires from <= |priors|
    decreases |priors| - from
  {
    if from == |priors| then 0
    else
      RestoredCount(files, priors, backups, broken, from + 1)
      + if NeedsRestore(files, priors, backups, broken, from) && CanRestore(priors, backups, broken, from) then 1 else 0
  }

  // `r` is where a restore of the priors from `from` on has come.
  ghost predicate Describes(r: Restored, files: Files, priors: seq<Prior>, backups: Backups, broken: set<Path>, from: nat)
    requires from <= |priors|
  {
    && (forall x: Path :: Look(r.files, x) == LeftAt(files, priors, backups, broken, from, x))
    && r.failures == FailedPaths(files, priors, backups, broken, from)
    && r.count == RestoredCount(files, priors, backups, broken, from)
  }

  function Start(files: Files): Restored { Restored(files, 0, [], false) }

  // The older priors are restored last.
  lemma {:induction false} RestoreParts(r: Restored, a: seq<Prior>, b: seq<Prior>, backups: Backups, broken: set<Path>)
    ensures RestoreMost(r, a + b, backups, broken) == RestoreMost(RestoreMost(r, b, backups, broken), a, backups, broken)
    decreases |b|
  {
    hide RestoreStep;
    if b == [] {
      assert a + b == a;
    } else {
      var last := b[|b| - 1];
      assert (a + b)[..|a + b| - 1] == a + b[..|b| - 1];
      RestoreParts(RestoreStep(r, last, backups, broken), a, b[..|b| - 1], backups, broken);
    }
  }

  lemma StepLooks(r: Restored, prior: Prior, backups: Backups, broken: set<Path>, x: Path)
    requires !r.stopped && CheckRel(prior.rel).Success?
    ensures
      var r', dst := RestoreStep(r, prior, backups, broken), Resolve(prior.rel);
      var can := dst !in broken && Restorable(prior, backups);
      && !r'.stopped
      && Look(r'.files, x) == (if x == dst && can then SavedContent(prior, backups)
                               else if x == Staged(dst) then None else Look(r.files, x))
      && var needed := if prior.existed then prior.backup.Some? else Look(r.files, dst).Some?;
         && r'.failures == r.failures + (if needed && !can then [dst] else [])
         && r'.count == r.count + (if needed && can then 1 else 0)
  {
    hide Resolve, CheckRel, Staged;
  }

  lemma StepDescribed(r: Restored, files: Files, priors: seq<Prior>, backups: Backups, broken: set<Path>, k: nat)
    requires k < |priors| && CheckRel(priors[k].rel).Success?
    requires !r.stopped && Describes(r, files, priors, backups, broken, k + 1)
    ensures !RestoreStep(r, priors[k], backups, broken).stopped
    ensures Describes(RestoreStep(r, priors[k], backups, broken), files, priors, backups, broken, k)
  {
    hide RestoreStep, Resolve, CheckRel, Staged, Restorable, SavedContent;
    forall x: Path
      ensures Look(RestoreStep(r, priors[k], backups, broken).files, x) == LeftAt(files, priors, backups, broken, k, x)
    {
      StepLooks(r, priors[k], backups, broken, x);
    }
    StepLooks(r, priors[k], backups, broken, Resolve(priors[k].rel));
  }

  lemma {:induction false} RestoreFrom(files: Files, priors: seq<Prior>, backups: Backups, broken: set<Path>, k: nat)
    requires k <= |priors| && forall i | k <= i < |priors| :: CheckRel(priors[i].rel).Success?
    ensures !RestoreMost(Start(files), priors[k..], backups, broken).stopped
    ensures Describes(RestoreMost(Start(files), priors[k..], backups, broken), files, priors, backups, broken, k)
    decreases |priors| - k
  {
    hide RestoreStep, Describes, CheckRel;
    if k == |priors| {
      NothingRestored(files, priors, backups, broken);
    } else {
      RestoreFrom(files, priors, backups, broken, k + 1);
      var r := RestoreMost(Start(files), priors[k + 1..], backups, broken);
      assert priors[k..] == [priors[k]] + priors[k + 1..];
      RestoreParts(Start(files), [priors[k]], priors[k + 1..], backups, broken);
      OneRestored(r, priors[k], backups, broken);
      StepDescribed(r, files, priors, backups, broken, k);
    }
  }

  lemma NothingRestored(files: Files, priors: seq<Prior>, backups: Backups, broken: set<Path>)
    ensures Describes(Start(files), files, priors, backups, broken, |priors|)
    ensures RestoreMost(Start(files), priors[|priors|..], backups, broken) == Start(files)
  {
  }

  lemma OneRestored(r: Restored, prior: Prior, backups: Backups, broken: set<Path>)
    ensures RestoreMost(r, [prior], backups, broken) == RestoreStep(r, prior, backups, broken)
  {
    hide RestoreStep;
    assert [prior][..0] == [];
  }

  /** A failure does not stop a restore. Whatever is broken and whichever backups are missing, every
      path ends at what the oldest prior that can be restored there saved, and the failures are exactly
      the paths that needed restoring and could not be, newest first. Only an unsafe path stops it:
      what is newer than that (`k` is where that begins) is restored, and nothing older. */
  lemma RestoreGoesOn(files: Files, priors: seq<Prior>, backups: Backups, broken: set<Path>, k: nat)
    requires k <= |priors| && forall i | k <= i < |priors| :: CheckRel(priors[i].rel).Success?
    requires k > 0 ==> CheckRel(priors[k - 1].rel).Failure?
    ensures var r := RestoreMost(Start(files), priors, backups, broken);
      Describes(r, files, priors, backups, broken, k) && (r.stopped <==> k > 0)
  {
    hide RestoreMost, RestoreStep, CheckRel, LeftAt, FailedPaths, RestoredCount;
    RestoreFrom(files, priors, backups, broken, k);
    var r := RestoreMost(Start(files), priors[k..], backups, broken);
    assert priors == priors[..k] + priors[k..];
    RestoreParts(Start(files), priors[..k], priors[k..], backups, broken);
    if k > 0 { StopsThere(r, priors[..k], backups, broken); } else { NoPriors(r, backups, broken); }
  }

  lemma NoPriors(r: Restored, backups: Backups, broken: set<Path>)
    ensures RestoreMost(r, [], backups, broken) == r
  {
  }

  lemma StopsThere(r: Restored, priors: seq<Prior>, backups: Backups, broken: set<Path>)
    requires !r.stopped && priors != [] && CheckRel(priors[|priors| - 1].rel).Failure?
    ensures RestoreMost(r, priors, backups, broken) == r.(stopped := true)
  {
    StoppedStays(r.(stopped := true), priors[..|priors| - 1], backups, broken);
  }

  predicate AllSafe(priors: seq<Prior>) { forall i | 0 <= i < |priors| :: CheckRel(priors[i].rel).Success? }

  // No prior before the one at `i` has to do with `x`.
  predicate NoneOlder(priors: seq<Prior>, i: nat, x: Path)
    requires i <= |priors|
  {
    forall j | 0 <= j < i :: Resolve(priors[j].rel) != x && Staged(Resolve(priors[j].rel)) != x
  }

  lemma {:induction false} LeftByOldest(files: Files, priors: seq<Prior>, backups: Backups, broken: set<Path>, from: nat,
                                        i: nat, x: Path)
    requires from <= i <= |priors| && NoneOlder(priors, i, x)
    ensures LeftAt(files, priors, backups, broken, from, x) == LeftAt(files, priors, backups, broken, i, x)
    decreases i - from
  {
    hide Resolve, Staged;
    if from < i { LeftByOldest(files, priors, backups, broken, from + 1, i, x); }
  }

  /** A path that can be written comes back to its first saved state, whatever happens to others. */
  lemma FirstSavedComesBack(files: Files, priors: seq<Prior>, backups: Backups, broken: set<Path>, i: nat)
    requires AllSafe(priors) && i < |priors| && NoneOlder(priors, i, Resolve(priors[i].rel))
    requires Resolve(priors[i].rel) !in broken && Restorable(priors[i], backups)
    ensures Look(RestoreMost(Start(files), priors, backups, broken).files, Resolve(priors[i].rel))
         == SavedContent(priors[i], backups)
  {
    hide Resolve, Staged, CheckRel, RestoreMost;
    RestoreGoesOn(files, priors, backups, broken, 0);
    LeftByOldest(files, priors, backups, broken, 0, i, Resolve(priors[i].rel));
  }

  lemma {:induction false} FailedExactly(files: Files, priors: seq<Prior>, backups: Backups, broken: set<Path>, from: nat,
                                         p: Path)
    requires from <= |priors|
    ensures p in FailedPaths(files, priors, backups, broken, from)
       <==> exists i :: from <= i < |priors| && FailsAt(files, priors, backups, broken, i) && Resolve(priors[i].rel) == p
    decreases |priors| - from
  {
    hide Resolve, FailsAt;
    if from < |priors| { FailedExactly(files, priors, backups, broken, from + 1, p); }
  }

  /** A restore is clean exactly when no prior failed, and a path is reported exactly when one of its
      priors needed restoring and could not be. */
  lemma ReportedExactly(files: Files, priors: seq<Prior>, backups: Backups, broken: set<Path>, p: Path)
    requires AllSafe(priors)
    ensures var r := RestoreMost(Start(files), priors, backups, broken);
      && (p in r.failures <==> exists i :: 0 <= i < |priors| && FailsAt(files, priors, backups, broken, i)
                                           && Resolve(priors[i].rel) == p)
      && (r.Clean() <==> forall i | 0 <= i < |priors| :: !FailsAt(files, priors, backups, broken, i))
  {
    hide Resolve, CheckRel, RestoreMost, FailsAt;
    RestoreGoesOn(files, priors, backups, broken, 0);
    FailedExactly(files, priors, backups, broken, 0, p);
    var failures := FailedPaths(files, priors, backups, broken, 0);
    if failures != [] { FailedExactly(files, priors, backups, broken, 0, failures[0]); }
    forall i | 0 <= i < |priors| && FailsAt(files, priors, backups, broken, i) ensures failures != [] {
      FailedExactly(files, priors, backups, broken, 0, Resolve(priors[i].rel));
    }
  }

  lemma {:induction false} UntouchedMeansNoneOlder(priors: seq<Prior>, backups: Backups, x: Path)
    requires AllRestorable(priors, backups) && TouchOf(priors, backups, x).Untouched?
    ensures NoneOlder(priors, |priors|, x)
  {
    hide Resolve, Staged, Restorable;
    if priors != [] {
      UntouchedMeansNoneOlder(priors[..|priors| - 1], backups, x);
      assert forall j | 0 <= j < |priors| - 1 :: priors[j] == priors[..|priors| - 1][j];
    }
  }

  /** Trying again works: once nothing is broken any more, restoring after a failed attempt leaves the
      very files an undisturbed first attempt would have left. */
  lemma RetryCompletes(files: Files, priors: seq<Prior>, backups: Backups, broken: set<Path>)
    requires AllWellSaved(priors) && AllRestorable(priors, backups)
    ensures var partial := RestoreMost(Start(files), priors, backups, broken).files;
      var again := RestoreMost(Start(partial), priors, backups, {});
      again.Clean() && again.files == RestoreAll(files, priors, backups)
  {
    hide Resolve, Staged, CheckRel, RestoreMost, Restorable, TouchOf, RestoreAll;
    var partial := RestoreMost(Start(files), priors, backups, broken).files;
    UnbrokenRestoreIsClean(Start(partial), priors, backups);
    CleanRestoreIsComplete(Start(partial), priors, backups, {});
    RestoreGoesOn(files, priors, backups, broken, 0);
    forall x: Path ensures Look(RestoreAll(partial, priors, backups), x) == Look(RestoreAll(files, priors, backups), x) {
      RestoreAllLooks(partial, priors, backups, x);
      RestoreAllLooks(files, priors, backups, x);
      if TouchOf(priors, backups, x).Untouched? {
        UntouchedMeansNoneOlder(priors, backups, x);
        LeftByOldest(files, priors, backups, broken, 0, |priors|, x);
      }
    }
    SameLooks(RestoreAll(partial, priors, backups), RestoreAll(files, priors, backups));
  }
}
