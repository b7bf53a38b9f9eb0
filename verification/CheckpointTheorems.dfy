/** What the chain and the checkpoints pin together. Neither does alone: an attacker who rewrites the
    ledger can rewrite the whole chain, and a checkpoint hashes one line only. */
module CheckpointTheorems {
  import opened Wrappers
  import opened JsonLines
  import opened Text
  import Utf8
  import opened LedgerChain
  import opened Checkpoints
  import CheckpointRuns
  import OutcomeEnvelope

  // ── The genuine sequence ────────────────────────────────────────────────────

  /** One honest recording: the ledger at that moment, the time, and whether an epoch started. */
  datatype Recording = Recording(ledger: string, now: string, epoch: bool)

  function GenuineLog(env: Env, history: seq<Recording>): seq<Checkpoint> {
    if history == [] then []
    else
      var prior, last := GenuineLog(env, history[..|history| - 1]), history[|history| - 1];
      prior + [NextCheckpoint(env, prior, last.ledger, last.now, last.epoch)]
  }

  // Tags are nonempty and no two texts share one; hashes and times are single lines.
  ghost predicate SoundEnv(env: Env) {
    && (forall x: string :: env.mac(x) != [] && SingleLine(env.hash(x)))
    && (forall x: string, y: string :: env.mac(x) == env.mac(y) ==> x == y)
  }

  predicate TimesOk(history: seq<Recording>) { forall i | 0 <= i < |history| :: SingleLine(history[i].now) }

  predicate FileTimesOk(cps: seq<Checkpoint>) { forall i | 0 <= i < |cps| :: SingleLine(cps[i].recordedAt) }

  predicate SignedIn(log: seq<Checkpoint>, cp: Checkpoint) {
    exists j :: 0 <= j < |log| && SigningInput(log[j]) == SigningInput(cp)
  }

  // Only texts that were signed carry a valid signature.
  predicate Unforgeable(env: Env, log: seq<Checkpoint>, cps: seq<Checkpoint>) {
    forall i | 0 <= i < |cps| && Verifies(env, SigningInput(cps[i]), cps[i].sig) :: SignedIn(log, cps[i])
  }

  lemma {:induction false} GenuineAt(env: Env, history: seq<Recording>, i: nat)
    requires i < |history|
    ensures |GenuineLog(env, history)| == |history|
    ensures var log := GenuineLog(env, history);
      && log[..i] == GenuineLog(env, history[..i])
      && log[i] == NextCheckpoint(env, log[..i], history[i].ledger, history[i].now, history[i].epoch)
      && log[i].seqNo == i + 1
    decreases |history|
  {
    hide NextCheckpoint;
    var n := |history| - 1;
    if n > 0 { GenuineAt(env, history[..n], n - 1); }
    if i < n {
      GenuineAt(env, history[..n], i);
      assert history[..n][..i] == history[..i];
    } else {
      NextSeqNo(env, GenuineLog(env, history[..n]), history[n]);
    }
  }

  lemma NextSeqNo(env: Env, prior: seq<Checkpoint>, r: Recording)
    requires prior == [] || prior[|prior| - 1].seqNo == |prior|
    ensures NextCheckpoint(env, prior, r.ledger, r.now, r.epoch).seqNo == |prior| + 1
  {
  }

  // What a genuine checkpoint holds.
  lemma GenuineFields(env: Env, history: seq<Recording>, i: nat)
    requires SoundEnv(env) && TimesOk(history) && i < |history|
    ensures |GenuineLog(env, history)| == |history|
    ensures
      var log := GenuineLog(env, history);
      && log[i].sig == Sign(env, SigningInput(log[i])) && log[i].sig != ""
      && log[i].seqNo == i + 1
      && log[i].prevSig == LinkAt(log, i)
      && log[i].recordedAt == history[i].now && log[i].epochStart == history[i].epoch
      && SingleLine(log[i].recordedAt) && SingleLine(HeadText(log[i].headHash)) && SingleLine(log[i].prevSig)
      && log[i].entries == |LedgerLines(history[i].ledger)|
      && log[i].headHash == HeadOf(env, LedgerLines(history[i].ledger))
  {
    hide LedgerLines, SigningInput, GenuineLog;
    GenuineAt(env, history, i);
    var log, r := GenuineLog(env, history), history[i];
    OwnSignatureVerifies(env, log[..i], r.ledger, r.now, r.epoch);
    assert log[i].sig == HexEncode(env.mac(SigningInput(log[i])));
    if i > 0 {
      GenuineAt(env, history, i - 1);
      var q := history[i - 1];
      OwnSignatureVerifies(env, log[..i - 1], q.ledger, q.now, q.epoch);
      HexEncodeIsLowerHex(env.mac(SigningInput(log[i - 1])));
    }
  }

  // ── The file is a prefix of what was recorded ───────────────────────────────

  // The file's first checkpoints are the recorded ones; only the last signature may be spelled
  // differently, since nothing links to it.
  predicate PrefixOf(cps: seq<Checkpoint>, log: seq<Checkpoint>) {
    && |cps| <= |log|
    && (forall i | 0 <= i < |cps| :: SameSigned(cps[i], log[i]))
    && (forall i | 0 <= i < |cps| - 1 :: cps[i].sig == log[i].sig)
    && (cps != [] ==> HexDecode(cps[|cps| - 1].sig) == HexDecode(log[|cps| - 1].sig))
  }

  lemma SameSignedSameInput(a: Checkpoint, b: Checkpoint)
    requires SameSigned(a, b)
    ensures SigningInput(a) == SigningInput(b)
  {
  }

  lemma VerifiedIsSigned(env: Env, history: seq<Recording>, cps: seq<Checkpoint>, i: nat) returns (j: nat)
    requires SoundEnv(env) && TimesOk(history) && FileTimesOk(cps)
    requires Unforgeable(env, GenuineLog(env, history), cps) && AllGenuine(env, cps) && i < |cps|
    ensures |GenuineLog(env, history)| == |history| && j < |history|
    ensures SameSigned(cps[i], GenuineLog(env, history)[j])
    ensures HexDecode(cps[i].sig) == Some(env.mac(SigningInput(cps[i]))) && cps[i].prevSig == LinkAt(cps, i)
  {
    var log := GenuineLog(env, history);
    hide SigningInput, GenuineLog, SameSigned;
    assert Genuine(env, cps, i);
    assert SignedIn(log, cps[i]);
    j :| 0 <= j < |log| && SigningInput(log[j]) == SigningInput(cps[i]);
    if history == [] { NoHistory(env); }
    GenuineFields(env, history, 0);
    GenuineFields(env, history, j);
    SigningInputInjective(cps[i], log[j]);
  }

  lemma NoHistory(env: Env)
    ensures GenuineLog(env, []) == []
  {
  }

  lemma SignedTag(env: Env, data: string)
    ensures HexDecode(Sign(env, data)) == Some(env.mac(data))
  {
    HexRoundTrip(env.mac(data));
  }

  // What links to a checkpoint verified as the one recorded at `i - 1` is the one recorded at `i`.
  lemma LinkSettlesPlace(env: Env, history: seq<Recording>, prev: Checkpoint, i: nat, j: nat)
    requires SoundEnv(env) && TimesOk(history) && 0 < i <= |history| && j < |history|
    requires |GenuineLog(env, history)| == |history|
    requires var log := GenuineLog(env, history);
      SameSigned(prev, log[i - 1]) && prev.sig == LinkAt(log, j)
    requires HexDecode(prev.sig) == Some(env.mac(SigningInput(prev)))
    ensures i == j && prev.sig == GenuineLog(env, history)[i - 1].sig
  {
    hide *;
    var log := GenuineLog(env, history);
    SameSignedSameInput(prev, log[i - 1]);
    EmptyHex();
    TagsNonempty(env, SigningInput(prev));
    LinkAtIs(log, j);
    GenuineFields(env, history, j - 1);
    GenuineFields(env, history, i - 1);
    SignedTag(env, SigningInput(log[j - 1]));
    MacInjective(env, SigningInput(log[j - 1]), SigningInput(log[i - 1]));
    SigningInputInjective(log[j - 1], log[i - 1]);
    SameSignedSeqNo(log[j - 1], log[i - 1]);
  }

  lemma EmptyHex()
    ensures HexDecode("") == Some([])
  {
  }

  lemma TagsNonempty(env: Env, x: string)
    requires SoundEnv(env)
    ensures env.mac(x) != []
  {
  }

  lemma MacInjective(env: Env, x: string, y: string)
    requires SoundEnv(env) && env.mac(x) == env.mac(y)
    ensures x == y
  {
  }

  lemma LinkAtIs(cps: seq<Checkpoint>, i: nat)
    requires i <= |cps|
    ensures LinkAt(cps, i) == if i == 0 then "" else cps[i - 1].sig
  {
  }

  lemma SameSignedSeqNo(a: Checkpoint, b: Checkpoint)
    requires SameSigned(a, b)
    ensures a.seqNo == b.seqNo && a.prevSig == b.prevSig
  {
  }

  // Each verified checkpoint is the recorded one at its own place.
  lemma {:induction false} PlaceByPlace(env: Env, history: seq<Recording>, cps: seq<Checkpoint>, i: nat)
    requires SoundEnv(env) && TimesOk(history) && FileTimesOk(cps)
    requires Unforgeable(env, GenuineLog(env, history), cps) && AllGenuine(env, cps) && i < |cps|
    ensures |GenuineLog(env, history)| == |history| && i < |history|
    ensures SameSigned(cps[i], GenuineLog(env, history)[i])
    ensures i > 0 ==> cps[i - 1].sig == GenuineLog(env, history)[i - 1].sig
  {
    hide *;
    var log := GenuineLog(env, history);
    var j := VerifiedIsSigned(env, history, cps, i);
    GenuineFields(env, history, j);
    SameSignedSeqNo(cps[i], log[j]);
    LinkAtIs(cps, i);
    LinkAtIs(log, j);
    if i > 0 {
      PlaceByPlace(env, history, cps, i - 1);
      var _ := VerifiedIsSigned(env, history, cps, i - 1);
      LinkSettlesPlace(env, history, cps[i - 1], i, j);
    } else if j > 0 {
      GenuineFields(env, history, j - 1);
      assert false;
    }
  }

  /** The signature and link checks pass exactly for the prefixes of what was honestly recorded, up
      to the spelling of the last signature: nothing forged, removed, reordered or repeated gets
      through, but checkpoints missing from the end are not noticed. */
  lemma FileIsGenuinePrefix(env: Env, history: seq<Recording>, cps: seq<Checkpoint>)
    requires SoundEnv(env) && TimesOk(history) && FileTimesOk(cps)
    requires Unforgeable(env, GenuineLog(env, history), cps)
    ensures AllGenuine(env, cps) <==> PrefixOf(cps, GenuineLog(env, history))
  {
    hide SigningInput, HexDecode, GenuineLog, SameSigned, AllGenuine, SoundEnv, Unforgeable, TimesOk, FileTimesOk;
    var log := GenuineLog(env, history);
    if AllGenuine(env, cps) {
      forall i | 0 <= i < |cps|
        ensures |log| == |history| && i < |log| && SameSigned(cps[i], log[i])
      {
        PlaceByPlace(env, history, cps, i);
      }
      forall i | 0 <= i < |cps| - 1 ensures cps[i].sig == log[i].sig { PlaceByPlace(env, history, cps, i + 1); }
      if cps != [] { LastTag(env, history, cps); }
    }
    if PrefixOf(cps, log) { PrefixIsGenuine(env, history, cps); }
  }

  lemma LastTag(env: Env, history: seq<Recording>, cps: seq<Checkpoint>)
    requires SoundEnv(env) && TimesOk(history) && FileTimesOk(cps) && cps != []
    requires Unforgeable(env, GenuineLog(env, history), cps) && AllGenuine(env, cps)
    ensures |cps| <= |history| == |GenuineLog(env, history)|
    ensures HexDecode(cps[|cps| - 1].sig) == HexDecode(GenuineLog(env, history)[|cps| - 1].sig)
  {
    var n := |cps| - 1;
    PlaceByPlace(env, history, cps, n);
    GenuineFields(env, history, n);
    var log := GenuineLog(env, history);
    SameSignedSameInput(cps[n], log[n]);
    SignedTag(env, SigningInput(log[n]));
    assert Genuine(env, cps, n);
  }

  lemma PrefixIsGenuine(env: Env, history: seq<Recording>, cps: seq<Checkpoint>)
    requires SoundEnv(env) && TimesOk(history) && PrefixOf(cps, GenuineLog(env, history))
    ensures AllGenuine(env, cps)
  {
    var log := GenuineLog(env, history);
    if history == [] { NoHistory(env); }
    hide SigningInput, HexDecode, GenuineLog;
    forall i | 0 <= i < |cps| ensures Genuine(env, cps, i) {
      GenuineFieldsAt(env, history, i);
      SameSignedSameInput(cps[i], log[i]);
      SignedTag(env, SigningInput(log[i]));
    }
  }

  lemma GenuineFieldsAt(env: Env, history: seq<Recording>, i: nat)
    requires SoundEnv(env) && TimesOk(history) && i < |GenuineLog(env, history)|
    ensures |GenuineLog(env, history)| == |history|
    ensures
      var log := GenuineLog(env, history);
      log[i].sig == Sign(env, SigningInput(log[i])) && log[i].prevSig == LinkAt(log, i)
  {
    hide SigningInput;
    if history == [] { NoHistory(env); } else { GenuineFields(env, history, 0); GenuineFields(env, history, i); }
  }

  // ── Tamper evidence ─────────────────────────────────────────────────────────

  /** A genuine checkpoint fits a chain-valid ledger exactly when that ledger still starts with every
      line the signed one had. */
  lemma CoversExactly(env: Env, signed: string, now: string, cp: Checkpoint)
    requires CollisionFree(env) && IgnoresCRs(env)
    requires ChainValid(env, ChainLines(signed)) && ChainValid(env, ChainLines(now))
    requires cp.entries == |LedgerLines(signed)| && cp.headHash == HeadOf(env, LedgerLines(signed))
    ensures Covers(env, LedgerLines(now), cp) <==> LedgerLines(signed) <= LedgerLines(now)
  {
    var a, b, n := LedgerLines(signed), LedgerLines(now), |LedgerLines(signed)|;
    assert a[..n] == a;
    if Covers(env, b, cp) && n > 0 {
      HeadOfTaken(env, b, n);
      HeadPinsPrefix(env, signed, now, n);
    }
  }

  /** Tamper evidence. When verification reports no problem and the chain check passes, the ledger
      still begins with the whole ledger of every checkpoint of the current epoch as it was when
      signed: no line was changed, removed, inserted or reordered. */
  lemma VerifiedLedgerExtendsSigned(env: Env, history: seq<Recording>, cps: seq<Checkpoint>, now: string, i: nat)
    requires SoundEnv(env) && CollisionFree(env) && IgnoresCRs(env) && HashesNonempty(env)
    requires TimesOk(history) && FileTimesOk(cps) && Unforgeable(env, GenuineLog(env, history), cps)
    requires AllGenuine(env, cps) && EpochCovered(env, LedgerLines(now), cps)
    requires ChainValid(env, ChainLines(now))
    requires i < |cps| && forall j | i < j < |cps| :: !cps[j].epochStart
    ensures i < |history|
    ensures ChainValid(env, ChainLines(history[i].ledger)) ==> LedgerLines(history[i].ledger) <= LedgerLines(now)
  {
    PlaceByPlace(env, history, cps, i);
    GenuineFields(env, history, i);
    var log, signed := GenuineLog(env, history), history[i].ledger;
    if ChainValid(env, ChainLines(signed)) {
      assert InEpoch(cps, i);
      assert Covers(env, LedgerLines(now), cps[i]);
      hide SigningInput, GenuineLog, LedgerLines, ChainLines;
      var n := cps[i].entries;
      HeadOfTaken(env, LedgerLines(now), n);
      assert n == |LedgerLines(signed)|;
      assert cps[i].headHash == HeadOf(env, LedgerLines(signed));
      CoversExactly(env, signed, now, cps[i]);
    }
  }

  ghost predicate HashesNonempty(env: Env) { forall x: string :: env.hash(x) != "" }

  /** What is signed for a checkpoint is never what is signed for an outcome: the first lines differ. */
  lemma SignedTextsApart(cp: Checkpoint, sha: seq<Byte> -> seq<Byte>, kid: string, stamp: OutcomeEnvelope.Stamp,
                         body: OutcomeEnvelope.Body)
    ensures SigningInput(cp) != OutcomeEnvelope.SigningInput(sha, kid, stamp, body)
  {
    hide OutcomeEnvelope.Render, OutcomeEnvelope.Values, Dec, HeadText;
    var a, b := SigningInput(cp), OutcomeEnvelope.SigningInput(sha, kid, stamp, body);
    assert a[..4] == "ta-a" && b[..4] == "ta-o" by {
      assert a[0] == DOMAIN[0] && a[1] == DOMAIN[1] && a[2] == DOMAIN[2] && a[3] == DOMAIN[3];
      assert b[3] == OutcomeEnvelope.SIGNING_PREFIX[3] && b[0] == OutcomeEnvelope.SIGNING_PREFIX[0];
      assert b[1] == OutcomeEnvelope.SIGNING_PREFIX[1] && b[2] == OutcomeEnvelope.SIGNING_PREFIX[2];
    }
    assert a[3] != b[3];
  }

  // ── The assumptions can be met ──────────────────────────────────────────────

  // A first line "a", and for any other text a line that names that text as its link.
  function ToyEntry(line: string): Option<Entry> {
    if TrimCRs(line) == "a" then Some(Entry(None, None, "")) else Some(Entry(Some(TrimCRs(line)), None, ""))
  }

  function ToyEnv(): Env {
    Env(ToyEntry, (x: string) => "h" + HexEncode(Utf8.Encode(x)), (x: string) => [0] + Utf8.Encode(x))
  }

  lemma {:induction false} TrimTwice(line: string)
    ensures TrimCRs(TrimCRs(line)) == TrimCRs(line)
  {
    if line != "" && line[|line| - 1] == '\r' { TrimTwice(line[..|line| - 1]); }
  }

  lemma ToyHashes(x: string, y: string)
    ensures SingleLine(ToyEnv().hash(x))
    ensures ToyEnv().hash(x) == ToyEnv().hash(y) ==> x == y
  {
    hide Utf8.Encode;
    var (hx, hy) := (HexEncode(Utf8.Encode(x)), HexEncode(Utf8.Encode(y)));
    HexEncodeIsLowerHex(Utf8.Encode(x));
    if "h" + hx == "h" + hy {
      assert ("h" + hx)[1..] == hx && ("h" + hy)[1..] == hy;
      HexRoundTrip(Utf8.Encode(x));
      HexRoundTrip(Utf8.Encode(y));
      Utf8.EncodeInjective(x, y);
    }
  }

  lemma ToyTags(x: string, y: string)
    ensures ToyEnv().mac(x) == ToyEnv().mac(y) ==> x == y
  {
    if ToyEnv().mac(x) == ToyEnv().mac(y) {
      assert ToyEnv().mac(x)[1..] == Utf8.Encode(x) && ToyEnv().mac(y)[1..] == Utf8.Encode(y);
      Utf8.EncodeInjective(x, y);
    }
  }

  lemma ToyEnvIsSound()
    ensures SoundEnv(ToyEnv()) && CollisionFree(ToyEnv()) && IgnoresCRs(ToyEnv()) && HashesNonempty(ToyEnv())
  {
    var env := ToyEnv();
    forall x: string, y: string
      ensures SingleLine(env.hash(x)) && (env.hash(x) == env.hash(y) ==> x == y)
      ensures env.mac(x) == env.mac(y) ==> x == y
    {
      ToyHashes(x, y);
      ToyTags(x, y);
    }
    forall x: string ensures env.parse(TrimCRs(x)) == env.parse(x) { TrimTwice(x); }
  }

  lemma ToyHash()
    ensures ToyEnv().hash("a") == "h61"
  {
    assert "a"[1..] == "" && Utf8.Encode("a") == [0x61];
    assert [0x61 as Byte][1..] == [];
    assert HexEncode([0x61]) == "61";
  }

  lemma TwoLines()
    ensures ChainLines("a\nh61\n") == ["a", "h61"]
  {
    hide *;
    OneLine("a", "h61\n");
    OneLine("h61", "");
    assert "a" + "\n" + "h61\n" == "a\nh61\n" && "h61" + "\n" + "" == "h61\n";
    assert ["a"] + (["h61"] + []) == ["a", "h61"];
    NoLines();
    BothStand();
  }

  lemma OneLine(line: string, rest: string)
    requires '\n' !in line && line != "" && line[|line| - 1] != '\r'
    ensures TextLines(line + "\n" + rest) == [line] + TextLines(rest)
  {
    var text := line + "\n" + rest;
    assert text[..|line|] == line && text[|line| + 1..] == rest;
    NewlineAtUnique(text, |line|);
  }

  lemma NoLines()
    ensures TextLines("") == []
  {
  }

  lemma BothStand()
    requires TextLines("a\nh61\n") == ["a", "h61"]
    ensures ChainLines("a\nh61\n") == ["a", "h61"]
  {
    hide TextLines, NewlineAt;
    assert "a"[0] in "a" && "h61"[0] in "h61";
    assert ["a", "h61"][..1] == ["a"] && ["a"][..0] == [];
  }

  lemma TwoLinesChain()
    ensures ChainValid(ToyEnv(), ChainLines("a\nh61\n")) && |ChainLines("a\nh61\n")| == 2
    ensures |LedgerLines("a\nh61\n")| == 2
  {
    hide ToyEnv, ChainLines, LedgerLines;
    TwoLines();
    ToyHash();
    SameLinesUpToCRs("a\nh61\n");
    ToyEntries();
    assert LinkOk(ToyEnv(), ["a", "h61"], 0) && LinkOk(ToyEnv(), ["a", "h61"], 1);
  }

  lemma ToyEntries()
    ensures ToyEnv().parse("a") == Some(Entry(None, None, ""))
    ensures ToyEnv().parse("h61") == Some(Entry(Some("h61"), None, ""))
  {
  }

  // One recording of any ledger verifies and covers it.
  lemma OneRecordingVerifies(env: Env, r: Recording)
    requires SoundEnv(env) && SingleLine(r.now)
    ensures TimesOk([r])
    ensures var cps := GenuineLog(env, [r]);
      && |cps| == 1 && cps[0].entries == |LedgerLines(r.ledger)|
      && FileTimesOk(cps) && Unforgeable(env, cps, cps)
      && AllGenuine(env, cps) && EpochCovered(env, LedgerLines(r.ledger), cps)
  {
    hide NextCheckpoint, SigningInput, Verifies, LedgerLines, EpochCovered, SoundEnv, AllGenuine;
    GenuineFields(env, [r], 0);
    assert GenuineLog(env, [r]) == [] + [NextCheckpoint(env, [], r.ledger, r.now, r.epoch)] by {
      assert [r][..0] == [];
    }
    CheckpointRuns.NothingToCover(env, LedgerLines(r.ledger));
    CheckpointRuns.CoversItself(env, [], r.ledger, r.now, r.epoch);
    NothingToCheck(env);
    RecordingIsGenuine(env, [], r.ledger, r.now, r.epoch);
  }

  lemma NothingToCheck(env: Env)
    ensures AllGenuine(env, [])
  {
  }

  /** The assumptions of `VerifiedLedgerExtendsSigned` can be met together: hashes, tags and parsing
      exist that satisfy them, with a chain-valid ledger of two lines and a checkpoint file that
      was honestly recorded, verifies and covers it. */
  lemma AssumptionsAreConsistent() returns (env: Env, ledger: string, history: seq<Recording>, cps: seq<Checkpoint>)
    ensures SoundEnv(env) && CollisionFree(env) && IgnoresCRs(env) && HashesNonempty(env)
    ensures ChainValid(env, ChainLines(ledger)) && |ChainLines(ledger)| == 2
    ensures TimesOk(history) && FileTimesOk(cps) && Unforgeable(env, GenuineLog(env, history), cps)
    ensures AllGenuine(env, cps) && EpochCovered(env, LedgerLines(ledger), cps)
    ensures |cps| == 1 && cps[0].entries == 2
  {
    hide *;
    env, ledger := ToyEnv(), "a\nh61\n";
    var r := Recording(ledger, "noon", false);
    assert SingleLine(r.now) by { NoonIsOneLine(); }
    history := [r];
    cps := GenuineLog(env, history);
    ToyEnvIsSound();
    TwoLinesChain();
    OneRecordingVerifies(env, r);
  }

  lemma NoonIsOneLine()
    ensures SingleLine("noon")
  {
  }
}
