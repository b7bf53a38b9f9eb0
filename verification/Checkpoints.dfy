/** Signed checkpoints of the ledger: each signs how many entries the ledger has and the hash of the
    last one, and links to the checkpoint before it. */
module Checkpoints {
  import opened Wrappers
  import opened JsonLines
  import opened Text
  import opened LedgerChain

  /** `recordedAt` is the time as its RFC 3339 text. */
  datatype Checkpoint = Checkpoint(seqNo: nat, recordedAt: string, entries: nat, headHash: Option<string>,
                                   prevSig: string, epochStart: bool, sig: string)

  const DOMAIN := "ta-audit-checkpoint-v1"

  function HeadText(head: Option<string>): string { if head.Some? then head.value else "" }

  function Flag(b: bool): string { if b then "true" else "false" }

  function SigningInput(cp: Checkpoint): string {
    DOMAIN + "\n" + (Dec(cp.seqNo) + "\n" + (cp.recordedAt + "\n" + (Dec(cp.entries) + "\n"
      + (HeadText(cp.headHash) + "\n" + cp.prevSig + "\n" + Flag(cp.epochStart)))))
  }

  predicate NoHead(head: Option<string>) { head == None || head == Some("") }

  // What the signature covers: all fields but itself, an absent head read as an empty one.
  predicate SameSigned(a: Checkpoint, b: Checkpoint) {
    && a.seqNo == b.seqNo && a.recordedAt == b.recordedAt && a.entries == b.entries
    && (a.headHash == b.headHash || (NoHead(a.headHash) && NoHead(b.headHash)))
    && a.prevSig == b.prevSig && a.epochStart == b.epochStart
  }

  lemma StripPrefix(p: string, a: string, b: string)
    requires p + a == p + b
    ensures a == b
  {
    assert (p + a)[|p|..] == a && (p + b)[|p|..] == b;
  }

  /** The signed bytes determine every signed field, even when the other checkpoint's head and link
      hold arbitrary text, newlines included. */
  lemma SigningInputInjective(a: Checkpoint, b: Checkpoint)
    requires SingleLine(a.recordedAt) && SingleLine(b.recordedAt)
    requires SingleLine(HeadText(b.headHash)) && SingleLine(b.prevSig)
    requires SigningInput(a) == SigningInput(b)
    ensures SameSigned(a, b)
  {
    hide Dec, HeadText;
    var a5 := HeadText(a.headHash) + "\n" + a.prevSig;
    var b5 := HeadText(b.headHash) + "\n" + b.prevSig;
    var (a4, b4) := (a5 + "\n" + Flag(a.epochStart), b5 + "\n" + Flag(b.epochStart));
    var (a3, b3) := (Dec(a.entries) + "\n" + a4, Dec(b.entries) + "\n" + b4);
    var (a2, b2) := (a.recordedAt + "\n" + a3, b.recordedAt + "\n" + b3);
    StripPrefix(DOMAIN + "\n", Dec(a.seqNo) + "\n" + a2, Dec(b.seqNo) + "\n" + b2);
    PeelField(Dec(a.seqNo), a2, Dec(b.seqNo), b2);
    DecInjective(a.seqNo, b.seqNo);
    PeelField(a.recordedAt, a3, b.recordedAt, b3);
    PeelField(Dec(a.entries), a4, Dec(b.entries), b4);
    DecInjective(a.entries, b.entries);
    PeelLastField(a5, Flag(a.epochStart), b5, Flag(b.epochStart));
    PeelOnlyField(HeadText(a.headHash), a.prevSig, HeadText(b.headHash), b.prevSig);
    SameHeadText(a.headHash, b.headHash);
  }

  lemma SameHeadText(a: Option<string>, b: Option<string>)
    ensures HeadText(a) == HeadText(b) <==> a == b || (NoHead(a) && NoHead(b))
  {
  }

  // ── Recording ───────────────────────────────────────────────────────────────

  function Last<T>(s: seq<T>): Option<T> { if s == [] then None else Some(s[|s| - 1]) }

  function HeadOf(env: Env, lines: seq<string>): Option<string> {
    if lines == [] then None else Some(env.hash(lines[|lines| - 1]))
  }

  // The checkpoint recording would add, given those already in the file.
  function NextCheckpoint(env: Env, prior: seq<Checkpoint>, ledger: string, now: string, epoch: bool): Checkpoint {
    var lines := LedgerLines(ledger);
    var unsigned := Checkpoint(if prior == [] then 1 else prior[|prior| - 1].seqNo + 1, now, |lines|,
                               HeadOf(env, lines), if prior == [] then "" else prior[|prior| - 1].sig, epoch, "");
    unsigned.(sig := Sign(env, SigningInput(unsigned)))
  }

  // ── Verifying ───────────────────────────────────────────────────────────────

  datatype Problem =
    | InvalidSignature(seqNo: nat)
    | BrokenLink(seqNo: nat)
    | EntriesRemoved(seqNo: nat)
    | HistoryRewritten(seqNo: nat)

  datatype Report = Report(checkpoints: nat, verified: nat, problems: seq<Problem>)

  // The signature the checkpoint at `i` must link to.
  function LinkAt(cps: seq<Checkpoint>, i: nat): string
    requires i <= |cps|
  {
    if i == 0 then "" else cps[i - 1].sig
  }

  predicate Genuine(env: Env, cps: seq<Checkpoint>, i: nat)
    requires i < |cps|
  {
    Verifies(env, SigningInput(cps[i]), cps[i].sig) && cps[i].prevSig == LinkAt(cps, i)
  }

  predicate AllGenuine(env: Env, cps: seq<Checkpoint>) { forall i | 0 <= i < |cps| :: Genuine(env, cps, i) }

  // The ledger still has the covered entries, and the last of them is the signed one.
  predicate Covers(env: Env, lines: seq<string>, cp: Checkpoint) {
    cp.entries <= |lines| && cp.headHash == HeadOf(env, lines[..cp.entries])
  }

  // Where the current epoch starts: the last epoch checkpoint, or the first checkpoint.
  function EpochStart(cps: seq<Checkpoint>): (i: nat)
    ensures cps == [] ==> i == 0
    ensures cps != [] ==> i < |cps|
  {
    if cps == [] then 0
    else if cps[|cps| - 1].epochStart then |cps| - 1
    else EpochStart(cps[..|cps| - 1])
  }

  // No epoch starts after the checkpoint at `i`.
  predicate InEpoch(cps: seq<Checkpoint>, i: nat) { forall j | i < j < |cps| :: !cps[j].epochStart }

  /** The current epoch is what lies from the last epoch checkpoint on, or the whole file when there is
      none. */
  lemma {:induction false} EpochStartsExactly(cps: seq<Checkpoint>, i: nat)
    requires i < |cps|
    ensures EpochStart(cps) <= i <==> InEpoch(cps, i)
    ensures EpochStart(cps) == i <==> InEpoch(cps, i) && (cps[i].epochStart || i == 0)
  {
    var front := cps[..|cps| - 1];
    assert forall j | 0 <= j < |front| :: front[j] == cps[j];
    if i < |front| { EpochStartsExactly(front, i); }
    assert InEpoch(cps, i) <==> (i == |front| || (InEpoch(front, i) && !cps[|front|].epochStart));
  }

  // The ledger fits every checkpoint of the current epoch.
  predicate EpochCovered(env: Env, lines: seq<string>, cps: seq<Checkpoint>) {
    forall i | 0 <= i < |cps| && InEpoch(cps, i) :: Covers(env, lines, cps[i])
  }

  function LinkProblem(env: Env, cp: Checkpoint, link: string): (ps: seq<Problem>)
    ensures ps == [] <==> Verifies(env, SigningInput(cp), cp.sig) && cp.prevSig == link
  {
    if !Verifies(env, SigningInput(cp), cp.sig) then [InvalidSignature(cp.seqNo)]
    else if cp.prevSig != link then [BrokenLink(cp.seqNo)]
    else []
  }

  // The problems the first `n` checkpoints show, in order.
  function LinkProblems(env: Env, cps: seq<Checkpoint>, n: nat): seq<Problem>
    requires n <= |cps|
  {
    if n == 0 then [] else LinkProblems(env, cps, n - 1) + LinkProblem(env, cps[n - 1], LinkAt(cps, n - 1))
  }

  lemma {:induction false} NoLinkProblems(env: Env, cps: seq<Checkpoint>, n: nat)
    requires n <= |cps|
    ensures LinkProblems(env, cps, n) == [] <==> forall i | 0 <= i < n :: Genuine(env, cps, i)
  {
    hide Verifies, SigningInput, LinkProblem;
    if n > 0 {
      NoLinkProblems(env, cps, n - 1);
      assert LinkProblem(env, cps[n - 1], LinkAt(cps, n - 1)) == [] <==> Genuine(env, cps, n - 1);
    }
  }

  function CoverProblems(env: Env, lines: seq<string>, cps: seq<Checkpoint>): (ps: seq<Problem>)
    ensures |ps| <= |cps|
    ensures ps == [] <==> forall i | 0 <= i < |cps| :: Covers(env, lines, cps[i])
  {
    if cps == [] then []
    else
      CoverProblems(env, lines, cps[..|cps| - 1]) + CoverProblem(env, lines, cps[|cps| - 1])
  }

  function CoverProblem(env: Env, lines: seq<string>, cp: Checkpoint): (ps: seq<Problem>)
    ensures |ps| <= 1 && (ps == [] <==> Covers(env, lines, cp))
  {
    if |lines| < cp.entries then [EntriesRemoved(cp.seqNo)]
    else if !Covers(env, lines, cp) then [HistoryRewritten(cp.seqNo)]
    else []
  }

  lemma CoverProblemsNext(env: Env, lines: seq<string>, cps: seq<Checkpoint>, start: nat, i: nat)
    requires start <= i < |cps|
    ensures CoverProblems(env, lines, cps[start..i + 1])
         == CoverProblems(env, lines, cps[start..i]) + CoverProblem(env, lines, cps[i])
  {
    hide *;
    assert cps[start..i + 1] == cps[start..i] + [cps[i]];
    CoverProblemsStep(env, lines, cps[start..i], cps[i]);
  }

  lemma CoverProblemsStep(env: Env, lines: seq<string>, cps: seq<Checkpoint>, cp: Checkpoint)
    ensures CoverProblems(env, lines, cps + [cp]) == CoverProblems(env, lines, cps) + CoverProblem(env, lines, cp)
  {
    hide Covers, CoverProblem;
    assert (cps + [cp])[..|cps + [cp]| - 1] == cps;
  }

  lemma HeadOfTaken(env: Env, lines: seq<string>, n: nat)
    requires n <= |lines|
    ensures HeadOf(env, lines[..n]) == if n == 0 then None else Some(env.hash(lines[n - 1]))
  {
  }

  class CheckpointLog {
    const env: Env
    var cps: seq<Checkpoint>  // the checkpoint file

    constructor (env: Env, cps: seq<Checkpoint>)
      ensures this.env == env && this.cps == cps
    {
      this.env, this.cps := env, cps;
    }

    /** Signs the ledger's current head and appends the checkpoint. */
    method Record(ledger: string, now: string, epoch: bool) returns (cp: Checkpoint)
      modifies this
      ensures cp == NextCheckpoint(env, old(cps), ledger, now, epoch)
      ensures cps == old(cps) + [cp]
      ensures old(AllGenuine(env, cps)) ==> AllGenuine(env, cps)
      ensures Covers(env, LedgerLines(ledger), cp)
    {
      var lines := LedgerLines(ledger);
      var last := Last(cps);
      cp := Checkpoint(if last.Some? then last.value.seqNo + 1 else 1, now, |lines|, HeadOf(env, lines),
                       if last.Some? then last.value.sig else "", epoch, "");
      cp := cp.(sig := Sign(env, SigningInput(cp)));
      RecordingIsGenuine(env, cps, ledger, now, epoch);
      cps := cps + [cp];
      assert lines[..|lines|] == lines;
    }

    /** Checks the file's own chain of signatures, and if that holds the ledger against the
        checkpoints of the current epoch. */
    method Verify(ledger: string) returns (report: Report)
      ensures report.checkpoints == |cps|
      ensures report.problems ==
        if AllGenuine(env, cps) then CoverProblems(env, LedgerLines(ledger), cps[EpochStart(cps)..])
        else LinkProblems(env, cps, |cps|)
      ensures report.verified == if AllGenuine(env, cps) then |cps| - EpochStart(cps) - |report.problems| else 0
      ensures report.problems == [] <==> AllGenuine(env, cps) && EpochCovered(env, LedgerLines(ledger), cps)
    {
      if cps == [] {
        return Report(0, 0, []);
      }
      var problems := CheckLinks();
      NoLinkProblems(env, cps, |cps|);
      if problems != [] {
        return Report(|cps|, 0, problems);
      }
      var start := FindEpochStart();
      report := CheckCover(LedgerLines(ledger), start);
      CoveredFrom(env, LedgerLines(ledger), cps, start);
    }

    method CheckLinks() returns (problems: seq<Problem>)
      ensures problems == LinkProblems(env, cps, |cps|)
    {
      hide Verifies, SigningInput;
      problems := [];
      var prevSig := "";
      for i := 0 to |cps|
        invariant problems == LinkProblems(env, cps, i) && prevSig == LinkAt(cps, i)
      {
        var cp := cps[i];
        if !Verifies(env, SigningInput(cp), cp.sig) {
          problems := problems + [InvalidSignature(cp.seqNo)];
        } else if cp.prevSig != prevSig {
          problems := problems + [BrokenLink(cp.seqNo)];
        }
        prevSig := cp.sig;
      }
    }

    method FindEpochStart() returns (start: nat)
      requires cps != []
      ensures start == EpochStart(cps)
    {
      var i := |cps|;
      assert cps[..i] == cps;
      while i > 0
        invariant 0 <= i <= |cps|
        invariant EpochStart(cps[..i]) == EpochStart(cps)
      {
        assert cps[..i][..i - 1] == cps[..i - 1];
        if cps[i - 1].epochStart {
          return i - 1;
        }
        i := i - 1;
      }
      start := 0;
    }

    method CheckCover(lines: seq<string>, start: nat) returns (report: Report)
      requires start <= |cps|
      ensures report.checkpoints == |cps|
      ensures report.problems == CoverProblems(env, lines, cps[start..])
      ensures report.verified == |cps| - start - |report.problems|
    {
      hide CoverProblems, EpochStart;
      var verified, problems := 0, [];
      assert CoverProblems(env, lines, cps[start..start]) == [];
      for i := start to |cps|
        invariant problems == CoverProblems(env, lines, cps[start..i])
        invariant verified == i - start - |problems|
      {
        var cp := cps[i];
        CoverProblemsNext(env, lines, cps, start, i);
        if |lines| < cp.entries {
          problems := problems + [EntriesRemoved(cp.seqNo)];
        } else {
          HeadOfTaken(env, lines, cp.entries);
          var actual := if cp.entries == 0 then None else Some(env.hash(lines[cp.entries - 1]));
          if actual != cp.headHash {
            problems := problems + [HistoryRewritten(cp.seqNo)];
          } else {
            verified := verified + 1;
          }
        }
      }
      assert cps[start..|cps|] == cps[start..];
      report := Report(|cps|, verified, problems);
    }
  }

  lemma CoveredFrom(env: Env, lines: seq<string>, cps: seq<Checkpoint>, start: nat)
    requires start == EpochStart(cps) && start <= |cps|
    ensures EpochCovered(env, lines, cps) <==> CoverProblems(env, lines, cps[start..]) == []
  {
    hide Covers, InEpoch, EpochStart;
    var tail := cps[start..];
    assert forall i | 0 <= i < |tail| :: tail[i] == cps[start + i];
    assert forall i | start <= i < |cps| :: cps[i] == tail[i - start];
    forall i | 0 <= i < |cps| ensures start <= i <==> InEpoch(cps, i) { EpochStartsExactly(cps, i); }
  }

  lemma OwnSignatureVerifies(env: Env, cps: seq<Checkpoint>, ledger: string, now: string, epoch: bool)
    ensures var cp := NextCheckpoint(env, cps, ledger, now, epoch);
      && cp.sig == Sign(env, SigningInput(cp))
      && Verifies(env, SigningInput(cp), cp.sig)
      && cp.prevSig == (if cps == [] then "" else cps[|cps| - 1].sig)
  {
    var cp := NextCheckpoint(env, cps, ledger, now, epoch);
    assert SigningInput(cp) == SigningInput(cp.(sig := ""));
    HexRoundTrip(env.mac(SigningInput(cp)));
  }

  lemma RecordingIsGenuine(env: Env, cps: seq<Checkpoint>, ledger: string, now: string, epoch: bool)
    ensures AllGenuine(env, cps) ==> AllGenuine(env, cps + [NextCheckpoint(env, cps, ledger, now, epoch)])
  {
    hide Verifies, SigningInput;
    var cp := NextCheckpoint(env, cps, ledger, now, epoch);
    var all := cps + [cp];
    OwnSignatureVerifies(env, cps, ledger, now, epoch);
    if AllGenuine(env, cps) {
      forall i | 0 <= i < |all| ensures Genuine(env, all, i) {
        if i < |cps| { assert Genuine(env, cps, i); }
      }
    }
  }

  // ── What each problem says ──────────────────────────────────────────────────

  /** A problem of the file itself names a checkpoint whose signature does not verify, or whose signature
      does while its link is not the signature before it; and every such checkpoint is named. */
  lemma {:induction false} LinkProblemsExactly(env: Env, cps: seq<Checkpoint>, n: nat, p: Problem)
    requires n <= |cps|
    ensures p in LinkProblems(env, cps, n) <==> exists i :: 0 <= i < n && HasLinkProblem(env, cps, i, p)
  {
    hide Verifies, SigningInput;
    if n > 0 {
      LinkProblemsExactly(env, cps, n - 1, p);
      var last := LinkProblem(env, cps[n - 1], LinkAt(cps, n - 1));
      assert p in LinkProblems(env, cps, n) <==> p in LinkProblems(env, cps, n - 1) || p in last;
      assert p in last <==> HasLinkProblem(env, cps, n - 1, p);
    }
  }

  predicate HasLinkProblem(env: Env, cps: seq<Checkpoint>, i: nat, p: Problem)
    requires i < |cps|
  {
    if Verifies(env, SigningInput(cps[i]), cps[i].sig) then
      p == BrokenLink(cps[i].seqNo) && cps[i].prevSig != (if i == 0 then "" else cps[i - 1].sig)
    else p == InvalidSignature(cps[i].seqNo)
  }

  predicate HasCoverProblem(env: Env, lines: seq<string>, cp: Checkpoint, p: Problem) {
    if |lines| < cp.entries then p == EntriesRemoved(cp.seqNo)
    else
      && p == HistoryRewritten(cp.seqNo)
      && cp.headHash != if cp.entries == 0 then None else Some(env.hash(lines[cp.entries - 1]))
  }

  lemma CoverProblemIs(env: Env, lines: seq<string>, cp: Checkpoint, p: Problem)
    ensures p in CoverProblem(env, lines, cp) <==> HasCoverProblem(env, lines, cp, p)
  {
    if cp.entries <= |lines| { HeadOfTaken(env, lines, cp.entries); }
  }

  /** A problem of the ledger names a checkpoint of the epoch that counts more entries than there are, or
      whose last entry now has another hash; and every such checkpoint is named. */
  lemma {:induction false} CoverProblemsExactly(env: Env, lines: seq<string>, cps: seq<Checkpoint>, p: Problem)
    ensures p in CoverProblems(env, lines, cps) <==> exists i :: 0 <= i < |cps| && HasCoverProblem(env, lines, cps[i], p)
  {
    hide Covers, CoverProblem, HasCoverProblem;
    if cps != [] {
      var front, cp := cps[..|cps| - 1], cps[|cps| - 1];
      assert cps == front + [cp];
      CoverProblemsExactly(env, lines, front, p);
      CoverProblemsStep(env, lines, front, cp);
      CoverProblemIs(env, lines, cp, p);
      hide CoverProblems;
      assert forall i | 0 <= i < |front| :: cps[i] == front[i];
    }
  }
}
