/** Honest use of the ledger and its checkpoints: appends, recordings and rewrites in any order. */
module CheckpointRuns {
  import opened Wrappers
  import opened JsonLines
  import opened Text
  import opened LedgerChain
  import opened Checkpoints

  datatype Act = AppendText(text: string) | Rewrite(ledger: string) | Sign(now: string, epoch: bool)

  /** `rewritten` holds from a rewrite of a ledger with checkpoints until the next epoch checkpoint. */
  datatype Run = Run(ledger: string, cps: seq<Checkpoint>, rewritten: bool)

  function Do(env: Env, r: Run, act: Act): Run {
    match act
    case AppendText(text) => if AtLineStart(r.ledger) then r.(ledger := r.ledger + text) else r
    case Rewrite(ledger) => r.(ledger := ledger, rewritten := r.rewritten || r.cps != [])
    case Sign(now, epoch) =>
      r.(cps := r.cps + [NextCheckpoint(env, r.cps, r.ledger, now, epoch)], rewritten := r.rewritten && !epoch)
  }

  function After(env: Env, acts: seq<Act>): Run {
    if acts == [] then Run("", [], false) else Do(env, After(env, acts[..|acts| - 1]), acts[|acts| - 1])
  }

  // ── Appending only adds lines ───────────────────────────────────────────────

  lemma {:induction false} TextLinesConcat(a: string, b: string)
    requires AtLineStart(a)
    ensures TextLines(a + b) == TextLines(a) + TextLines(b)
    decreases |a|
  {
    if a == "" {
      assert a + b == b;
    } else {
      hide *;
      var i := NewlineAt(a);
      NewlineInside(a);
      TextLinesConcat(a[i + 1..], b);
      FirstTextLine(a, i);
      SplitOfConcat(a, b, i);
      FirstTextLine(a + b, i);
      Associate([DropCR(a[..i])], TextLines(a[i + 1..]), TextLines(b));
    }
  }

  lemma {:induction false} NonBlankConcat(a: seq<string>, b: seq<string>)
    ensures NonBlank(a + b) == NonBlank(a) + NonBlank(b)
    decreases |b|
  {
    if b == [] {
      assert a + b == a;
    } else {
      assert (a + b)[..|a + b| - 1] == a + b[..|b| - 1];
      NonBlankConcat(a, b[..|b| - 1]);
    }
  }

  lemma LedgerLinesConcat(a: string, b: string)
    requires AtLineStart(a)
    ensures LedgerLines(a + b) == LedgerLines(a) + LedgerLines(b)
  {
    hide TextLines, NonBlank, TrimAll;
    TextLinesConcat(a, b);
    TrimAllConcat(TextLines(a), TextLines(b));
    NonBlankConcat(TrimAll(TextLines(a)), TrimAll(TextLines(b)));
  }

  lemma TrimAllConcat(a: seq<string>, b: seq<string>)
    ensures TrimAll(a + b) == TrimAll(a) + TrimAll(b)
  {
  }

  lemma CoversLonger(env: Env, lines: seq<string>, more: seq<string>, cps: seq<Checkpoint>)
    requires EpochCovered(env, lines, cps)
    ensures EpochCovered(env, lines + more, cps)
  {
    forall i | 0 <= i < |cps| && InEpoch(cps, i) ensures Covers(env, lines + more, cps[i]) {
      assert Covers(env, lines, cps[i]);
      assert (lines + more)[..cps[i].entries] == lines[..cps[i].entries];
    }
  }

  lemma CoversItself(env: Env, cps: seq<Checkpoint>, ledger: string, now: string, epoch: bool)
    requires EpochCovered(env, LedgerLines(ledger), cps) || epoch
    ensures EpochCovered(env, LedgerLines(ledger), cps + [NextCheckpoint(env, cps, ledger, now, epoch)])
  {
    var lines, cp := LedgerLines(ledger), NextCheckpoint(env, cps, ledger, now, epoch);
    var all := cps + [cp];
    assert lines[..|lines|] == lines && all[..|cps|] == cps;
    assert Covers(env, lines, cp);
    forall i | 0 <= i < |all| && InEpoch(all, i) ensures Covers(env, lines, all[i]) {
      if i < |cps| {
        assert !all[|cps|].epochStart;
        assert forall j | i < j < |cps| :: all[j] == cps[j];
        assert InEpoch(cps, i) && all[i] == cps[i];
      }
    }
  }

  ghost predicate Inv(env: Env, r: Run) {
    AllGenuine(env, r.cps) && (!r.rewritten ==> EpochCovered(env, LedgerLines(r.ledger), r.cps))
  }

  lemma StepKeepsInv(env: Env, r: Run, act: Act)
    requires Inv(env, r)
    ensures Inv(env, Do(env, r, act))
  {
    hide NextCheckpoint, AllGenuine, EpochCovered, LedgerLines;
    match act
    case AppendText(text) =>
      if AtLineStart(r.ledger) && !r.rewritten {
        LedgerLinesConcat(r.ledger, text);
        CoversLonger(env, LedgerLines(r.ledger), LedgerLines(text), r.cps);
      }
    case Rewrite(ledger) => if r.cps == [] { NothingToCover(env, LedgerLines(ledger)); }
    case Sign(now, epoch) =>
      RecordingIsGenuine(env, r.cps, r.ledger, now, epoch);
      if !r.rewritten || epoch { CoversItself(env, r.cps, r.ledger, now, epoch); }
  }

  lemma NothingToCover(env: Env, lines: seq<string>)
    ensures EpochCovered(env, lines, [])
  {
  }

  lemma {:induction false} RunKeepsInv(env: Env, acts: seq<Act>)
    ensures Inv(env, After(env, acts))
  {
    if acts != [] {
      RunKeepsInv(env, acts[..|acts| - 1]);
      StepKeepsInv(env, After(env, acts[..|acts| - 1]), acts[|acts| - 1]);
    }
  }

  /** No false alarm: after any honest run in which no rewrite is left unrecorded, verification
      finds no problem. */
  lemma HonestRunVerifies(env: Env, acts: seq<Act>)
    requires !After(env, acts).rewritten
    ensures var r := After(env, acts);
      AllGenuine(env, r.cps) && EpochCovered(env, LedgerLines(r.ledger), r.cps)
  {
    RunKeepsInv(env, acts);
  }

  /** Recording an epoch closes any honest run so that it verifies, whatever was rewritten before. */
  lemma EpochCloses(env: Env, acts: seq<Act>, now: string)
    ensures var r := After(env, acts + [Sign(now, true)]);
      && r.cps == After(env, acts).cps + [NextCheckpoint(env, After(env, acts).cps, r.ledger, now, true)]
      && AllGenuine(env, r.cps) && EpochCovered(env, LedgerLines(r.ledger), r.cps)
  {
    assert (acts + [Sign(now, true)])[..|acts|] == acts;
    HonestRunVerifies(env, acts + [Sign(now, true)]);
  }
}
