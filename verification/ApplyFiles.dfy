/** The undo log of an apply: prior states saved before each path is first touched, restored newest
    first. Paths are taken after resolution, so `a` and `./a` are two spellings of one file. */
module ApplyFiles {
  import opened Wrappers

  type Path = seq<string>
  type Files = map<Path, string>

  // ── Relative paths ──────────────────────────────────────────────────────────

  predicate IsSlash(c: char) { c == '/' || c == '\\' }

  // Backslashes become slashes.
  function Normalize(rel: string): string
    ensures |Normalize(rel)| == |rel|
  {
    if rel == "" then "" else [if rel[0] == '\\' then '/' else rel[0]] + Normalize(rel[1..])
  }

  // The parts of a path between slashes, empty ones included.
  function Parts(rel: string): (ps: seq<string>)
    ensures ps != []
  {
    if rel == "" then [""]
    else
      var ps := Parts(rel[1..]);
      if IsSlash(rel[0]) then [""] + ps else [[rel[0]] + ps[0]] + ps[1..]
  }

  function Plain(ps: seq<string>): Path {
    if ps == [] then []
    else (if ps[0] == "" || ps[0] == "." then [] else [ps[0]]) + Plain(ps[1..])
  }

  /** The file a relative path names under the target root. */
  function Resolve(rel: string): Path { Plain(Parts(rel)) }

  datatype Unsafe = EmptyPath | AbsolutePath | ParentDir

  /** A rel path must stay inside the target root. */
  function CheckRel(rel: string): Result<(), Unsafe> {
    if rel == "" then Failure(EmptyPath)
    else if IsSlash(rel[0]) then Failure(AbsolutePath)
    else if ".." in Parts(rel) then Failure(ParentDir)
    else Success(())
  }

  lemma {:induction false} NormalizeKeepsParts(rel: string)
    ensures Parts(Normalize(rel)) == Parts(rel)
  {
    if rel != "" {
      NormalizeKeepsParts(rel[1..]);
      assert Normalize(rel)[1..] == Normalize(rel[1..]);
    }
  }

  lemma {:induction false} PlainParts(ps: seq<string>, name: string)
    requires name != "" && name != "."
    ensures name in Plain(ps) <==> name in ps
  {
    if ps != [] {
      PlainParts(ps[1..], name);
      assert ps == [ps[0]] + ps[1..];
    }
  }

  lemma {:induction false} NormalizeDropsBackslashes(rel: string)
    ensures '\\' !in Normalize(rel)
  {
    if rel != "" { NormalizeDropsBackslashes(rel[1..]); }
  }

  /** Either slash names the same file, the recorded form has forward ones only, and the paths that pass
      the check are exactly the nonempty relative ones without a step upwards. */
  lemma CheckedPathStaysInside(rel: string)
    ensures Resolve(Normalize(rel)) == Resolve(rel) && '\\' !in Normalize(rel)
    ensures CheckRel(rel).Success? <==> rel != "" && rel[0] != '/' && rel[0] != '\\' && ".." !in Resolve(rel)
  {
    NormalizeKeepsParts(rel);
    NormalizeDropsBackslashes(rel);
    PlainParts(Parts(rel), "..");
  }

  // One more character in front of some parts.
  function WithFirst(c: char, ps: seq<string>): seq<string>
    requires ps != []
  {
    if IsSlash(c) then [""] + ps else [[c] + ps[0]] + ps[1..]
  }

  lemma FirstOfJoined(c: char, ps: seq<string>, qs: seq<string>)
    requires ps != []
    ensures WithFirst(c, ps + qs) == WithFirst(c, ps) + qs
  {
    assert (ps + qs)[1..] == ps[1..] + qs && (ps + qs)[0] == ps[0];
  }

  lemma PartsFrom(c: char, rest: string)
    ensures Parts([c] + rest) == WithFirst(c, Parts(rest)) && Parts("") == [""]
  {
    PartsStep(c, rest);
  }

  lemma {:induction false} PartsJoin(a: string, b: string, slash: char)
    requires IsSlash(slash)
    ensures Parts(a + [slash] + b) == Parts(a) + Parts(b)
  {
    PartsFrom(slash, b);
    if a == "" {
      assert "" + [slash] + b == [slash] + b;
    } else {
      hide *;
      PartsJoin(a[1..], b, slash);
      Associate([a[0]], a[1..], [slash]);
      Associate([a[0]], a[1..] + [slash], b);
      assert a == [a[0]] + a[1..];
      PartsFrom(a[0], a[1..] + [slash] + b);
      PartsFrom(a[0], a[1..]);
      FirstOfJoined(a[0], Parts(a[1..]), Parts(b));
    }
  }

  lemma PlainStep(p: string, rest: seq<string>)
    ensures Plain([p] + rest) == (if p == "" || p == "." then [] else [p]) + Plain(rest)
  {
    assert ([p] + rest)[1..] == rest;
  }

  lemma {:induction false} PlainJoin(a: seq<string>, b: seq<string>)
    ensures Plain(a + b) == Plain(a) + Plain(b)
  {
    if a == [] {
      assert a + b == b && Plain([]) + Plain(b) == Plain(b);
    } else {
      hide *;
      PlainJoin(a[1..], b);
      Associate([a[0]], a[1..], b);
      assert a == [a[0]] + a[1..];
      PlainStep(a[0], a[1..] + b);
      PlainStep(a[0], a[1..]);
      Associate(if a[0] == "" || a[0] == "." then [] else [a[0]], Plain(a[1..]), Plain(b));
    }
  }

  lemma {:induction false} OnePart(s: string)
    requires '/' !in s && '\\' !in s
    ensures Parts(s) == [s]
  {
    if s != "" {
      OnePart(s[1..]);
      assert s[0] in s && s == [s[0]] + s[1..];
    }
  }

  /** What a path names: its steps, joined at slashes of either kind, where an empty step or a dot names
      nothing. */
  lemma ResolvesStepByStep(a: string, b: string)
    ensures Resolve(a + "/" + b) == Resolve(a) + Resolve(b) == Resolve(a + "\\" + b)
    ensures '/' !in a && '\\' !in a ==> Resolve(a) == if a == "" || a == "." then [] else [a]
  {
    PartsJoin(a, b, '/');
    PartsJoin(a, b, '\\');
    PlainJoin(Parts(a), Parts(b));
    if '/' !in a && '\\' !in a {
      OnePart(a);
      assert Plain([a]) == (if a == "" || a == "." then [] else [a]) + Plain([]) by { assert [a][1..] == []; }
    }
  }

  // Two spellings of one file.
  lemma SpellingsOfOneFile()
    ensures Resolve("./a") == Resolve("a") == ["a"] && "./a" != "a"
  {
    assert ['a'] + "" == "a" && ['/'] + "a" == "/a" && ['.'] + "/a" == "./a" && ['.'] + "" == ".";
    PartsStep('a', "");
    PartsStep('/', "a");
    PartsStep('.', "/a");
    assert Plain(["a"]) == ["a"] by { assert ["a"][1..] == []; }
    assert Plain([".", "a"]) == ["a"] by { assert [".", "a"][1..] == ["a"]; }
  }

  lemma PartsStep(c: char, rest: string)
    ensures Parts([c] + rest)
         == if IsSlash(c) then [""] + Parts(rest) else [[c] + Parts(rest)[0]] + Parts(rest)[1..]
  {
    assert ([c] + rest)[1..] == rest;
  }

  const STAGED_SUFFIX := ".ta-staged"

  // The temporary name a new content is written to before it is renamed into place.
  function Staged(p: Path): (q: Path)
    ensures q != p
  {
    if p == [] then [STAGED_SUFFIX]
    else
      var q := p[..|p| - 1] + [p[|p| - 1] + STAGED_SUFFIX];
      assert |q[|p| - 1]| > |p[|p| - 1]|;
      q
  }

  // ── The undo log ────────────────────────────────────────────────────────────

  function Look<K>(files: map<K, string>, p: K): Option<string> { if p in files then Some(files[p]) else None }

  function Erase(files: Files, p: Path): Files { files - {p} }

  // Staged copy, then rename.
  function Put(files: Files, p: Path, content: string): Files { Erase(files[p := content], Staged(p)) }

  /** One saved prior state; the content of an existing file is in the numbered backup. */
  datatype Prior = Prior(rel: string, existed: bool, backup: Option<nat>)

  type Backups = map<nat, string>

  // A prior whose backup is at hand can be restored.
  predicate Restorable(prior: Prior, backups: Backups) {
    prior.existed ==> prior.backup.Some? && prior.backup.value in backups
  }

  function SavedContent(prior: Prior, backups: Backups): Option<string>
    requires Restorable(prior, backups)
  {
    if prior.existed then Some(backups[prior.backup.value]) else None
  }

  function RestoreOne(files: Files, prior: Prior, backups: Backups): Files
    requires Restorable(prior, backups)
  {
    var dst := Resolve(prior.rel);
    var cleaned := Erase(files, Staged(dst));
    if prior.existed then Put(cleaned, dst, backups[prior.backup.value]) else Erase(cleaned, dst)
  }

  predicate AllRestorable(priors: seq<Prior>, backups: Backups) {
    forall i | 0 <= i < |priors| :: Restorable(priors[i], backups)
  }

  /** Restores every prior, newest first. */
  function RestoreAll(files: Files, priors: seq<Prior>, backups: Backups): Files
    requires AllRestorable(priors, backups)
    decreases |priors|
  {
    if priors == [] then files
    else RestoreAll(RestoreOne(files, priors[|priors| - 1], backups), priors[..|priors| - 1], backups)
  }

  /** What the log knows of a path: nothing, its saved prior state, or only that it served as
      another path's temporary name before anyone saved it. */
  datatype Touch = Untouched | Saved(content: Option<string>) | Temporary

  function TouchOf(priors: seq<Prior>, backups: Backups, x: Path): Touch
    requires AllRestorable(priors, backups)
  {
    if priors == [] then Untouched
    else
      var earlier := TouchOf(priors[..|priors| - 1], backups, x);
      var last := priors[|priors| - 1];
      if !earlier.Untouched? then earlier
      else if Resolve(last.rel) == x then Saved(SavedContent(last, backups))
      else if Staged(Resolve(last.rel)) == x then Temporary
      else Untouched
  }

  lemma RestoreOneLooks(files: Files, prior: Prior, backups: Backups, x: Path)
    requires Restorable(prior, backups)
    ensures Look(RestoreOne(files, prior, backups), x) ==
      if x == Resolve(prior.rel) then SavedContent(prior, backups)
      else if x == Staged(Resolve(prior.rel)) then None
      else Look(files, x)
  {
  }

  /** What restoring leaves at a path, whatever the files were. */
  lemma {:induction false} RestoreAllLooks(files: Files, priors: seq<Prior>, backups: Backups, x: Path)
    requires AllRestorable(priors, backups)
    ensures Look(RestoreAll(files, priors, backups), x) ==
      match TouchOf(priors, backups, x)
      case Untouched => Look(files, x)
      case Saved(content) => content
      case Temporary => None
    decreases |priors|
  {
    if priors != [] {
      var front, last := priors[..|priors| - 1], priors[|priors| - 1];
      RestoreAllLooks(RestoreOne(files, last, backups), front, backups, x);
      RestoreOneLooks(files, last, backups, x);
    }
  }

  // ── Undoable states ─────────────────────────────────────────────────────────

  /** The log can still take `files` back to `initial`: untouched paths are unchanged and saved
      contents are the initial ones. */
  ghost predicate Undoable(initial: Files, files: Files, priors: seq<Prior>, backups: Backups) {
    && AllRestorable(priors, backups)
    && forall x: Path :: PathUndoable(initial, files, priors, backups, x)
  }

  ghost predicate PathUndoable(initial: Files, files: Files, priors: seq<Prior>, backups: Backups, x: Path)
    requires AllRestorable(priors, backups)
  {
    match TouchOf(priors, backups, x)
    case Untouched => Look(files, x) == Look(initial, x)
    case Saved(content) => content == Look(initial, x)
    case Temporary => true
  }

  /** The initial files without those that sat at a temporary name of an unsaved path. */
  function RolledBack(initial: Files, priors: seq<Prior>, backups: Backups): Files
    requires AllRestorable(priors, backups)
  {
    map x | x in initial && TouchOf(priors, backups, x) != Temporary :: initial[x]
  }

  // No initial file sits at a temporary name before it is itself saved.
  predicate NoTemporaryClash(initial: Files, priors: seq<Prior>, backups: Backups)
    requires AllRestorable(priors, backups)
  {
    forall x | x in initial :: TouchOf(priors, backups, x) != Temporary
  }

  /** Reverse undo log: restoring newest first returns exactly the initial files and touches
      nothing else, precisely when no initial file sat at a temporary name that was used before the
      file itself was saved. Such files, and only they, are lost. */
  lemma RestoreUndoesEverything(initial: Files, files: Files, priors: seq<Prior>, backups: Backups)
    requires Undoable(initial, files, priors, backups)
    ensures RestoreAll(files, priors, backups) == RolledBack(initial, priors, backups)
    ensures RestoreAll(files, priors, backups) == initial <==> NoTemporaryClash(initial, priors, backups)
  {
    var r, goal := RestoreAll(files, priors, backups), RolledBack(initial, priors, backups);
    forall x: Path ensures Look(r, x) == Look(goal, x) {
      RestoreAllLooks(files, priors, backups, x);
      assert PathUndoable(initial, files, priors, backups, x);
    }
    SameLooks(r, goal);
  }

  lemma SameLooks(a: Files, b: Files)
    requires forall x: Path :: Look(a, x) == Look(b, x)
    ensures a == b
  {
    forall x | x in a ensures x in b && a[x] == b[x] { assert Look(a, x) == Look(b, x); }
    forall x | x in b ensures x in a { assert Look(a, x) == Look(b, x); }
  }

  lemma NothingSavedYet(initial: Files, backups: Backups)
    ensures Undoable(initial, initial, [], backups)
  {
  }

  // Saving the present state of a path, before it is touched, keeps the log sound.
  lemma SavingKeepsUndoable(initial: Files, files: Files, priors: seq<Prior>, backups: Backups, prior: Prior)
    requires Undoable(initial, files, priors, backups)
    requires Restorable(prior, backups) && SavedContent(prior, backups) == Look(files, Resolve(prior.rel))
    ensures Undoable(initial, files, priors + [prior], backups)
  {
    var all := priors + [prior];
    assert all[..|all| - 1] == priors;
    forall x: Path ensures PathUndoable(initial, files, all, backups, x) {
      assert PathUndoable(initial, files, priors, backups, x);
    }
  }

  // A touched path may be given any content.
  lemma WritingKeepsUndoable(initial: Files, files: Files, files': Files, priors: seq<Prior>, backups: Backups, p: Path)
    requires Undoable(initial, files, priors, backups)
    requires !TouchOf(priors, backups, p).Untouched?
    requires forall x: Path | x != p :: Look(files', x) == Look(files, x)
    ensures Undoable(initial, files', priors, backups)
  {
    forall x: Path ensures PathUndoable(initial, files', priors, backups, x) {
      assert PathUndoable(initial, files, priors, backups, x);
    }
  }

  // A path is touched once it is saved, and so is its temporary name.
  lemma {:induction false} SavedIsTouched(priors: seq<Prior>, backups: Backups, i: nat)
    requires AllRestorable(priors, backups) && i < |priors|
    ensures !TouchOf(priors, backups, Resolve(priors[i].rel)).Untouched?
    ensures !TouchOf(priors, backups, Staged(Resolve(priors[i].rel))).Untouched?
    decreases |priors|
  {
    if i < |priors| - 1 { SavedIsTouched(priors[..|priors| - 1], backups, i); }
  }

  // Backups that no prior refers to may come and go.
  lemma {:induction false} TouchIgnoresOtherBackups(priors: seq<Prior>, backups: Backups, backups': Backups, x: Path)
    requires AllRestorable(priors, backups) && AllRestorable(priors, backups')
    requires forall i | 0 <= i < |priors| && priors[i].existed ::
      backups'[priors[i].backup.value] == backups[priors[i].backup.value]
    ensures TouchOf(priors, backups', x) == TouchOf(priors, backups, x)
  {
    if priors != [] { TouchIgnoresOtherBackups(priors[..|priors| - 1], backups, backups', x); }
  }

  lemma NewBackupKeepsUndoable(initial: Files, files: Files, priors: seq<Prior>, backups: Backups, name: nat, content: string)
    requires Undoable(initial, files, priors, backups)
    requires forall i | 0 <= i < |priors| && priors[i].existed :: priors[i].backup.value != name
    ensures Undoable(initial, files, priors, backups[name := content])
  {
    var backups' := backups[name := content];
    forall x: Path ensures PathUndoable(initial, files, priors, backups', x) {
      TouchIgnoresOtherBackups(priors, backups, backups', x);
      assert PathUndoable(initial, files, priors, backups, x);
    }
  }

  lemma ClashLosesAFile(content: string, update: string)
    ensures
      var p: Path := ["a"];
      var initial: Files := map[Staged(p) := content];
      var priors := [Prior("a", false, None)];
      && Undoable(initial, Put(initial, p, update), priors, map[])
      && RestoreAll(Put(initial, p, update), priors, map[]) != initial
  {
    var p: Path := ["a"];
    var initial: Files := map[Staged(p) := content];
    var priors := [Prior("a", false, None)];
    SpellingsOfOneFile();
    NothingSavedYet(initial, map[]);
    SavingKeepsUndoable(initial, initial, [], map[], priors[0]);
    assert [] + priors == priors;
    SavedIsTouched(priors, map[], 0);
    var staged: Files := Erase(initial, Staged(p));
    WritingKeepsUndoable(initial, initial, staged, priors, map[], Staged(p));
    WritingKeepsUndoable(initial, staged, Put(initial, p, update), priors, map[], p);
    RestoreUndoesEverything(initial, Put(initial, p, update), priors, map[]);
    assert TouchOf(priors, map[], Staged(p)) == Temporary by {
      assert priors[..0] == [];
    }
  }

  // A path with nothing at risk: why the proviso is needed.
  lemma TemporaryClashLosesAFile(content: string, update: string)
    ensures
      var p: Path := ["a"];
      var initial: Files := map[["a.ta-staged"] := content];
      var priors := [Prior("a", false, None)];
      && Undoable(initial, Put(initial, p, update), priors, map[])
      && RestoreAll(Put(initial, p, update), priors, map[]) != initial
  {
    assert Staged(["a"]) == ["a.ta-staged"] by {
      assert ["a"][..0] == [] && "a" + STAGED_SUFFIX == "a.ta-staged";
    }
    hide *;
    ClashLosesAFile(content, update);
  }
}
