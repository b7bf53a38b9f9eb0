/** Outcome envelopes: what a body and a stamp may hold, and the bytes that are signed. */
module OutcomeEnvelope {
  import opened Wrappers
  import opened JsonLines
  import opened Text
  import Utf8

  const MAX_ENVELOPE_BYTES := 65536
  const MAX_CANDIDATE_ID_BYTES := 256
  const MAX_DETAIL_BYTES := 16384
  const MAX_TITLE_BYTES := 512
  const MAX_TEAM_SESSION_BYTES := 128
  const MAX_ROLE_BYTES := 64
  const MAX_GOAL_ID_BYTES := 64
  const MAX_TARGET_BYTES := 128
  const MAX_MSG_ID_BYTES := 64
  const MAX_KID_BYTES := 64
  const MAX_FIX_BYTES := 1024

  const LAUNCH_FAILED := "launch_failed"
  const ALLOWED_OUTCOMES := ["done", "blocked", "new_work", "reply", "delegate", LAUNCH_FAILED]
  const LAUNCH_FAILURE_CODES :=
    ["no_login", "login_invalid", "agent_missing", "sandbox_denied", "crashed", "timed_out"]
  const DAEMON_ROLE := "ta-daemon"

  datatype Body = Body(candidateId: string, outcome: string, detail: string, newTaskTitle: Option<string>,
                       reasonCode: Option<string>, fix: Option<string>)

  datatype Stamp = Stamp(teamSession: string, role: string, goalId: string, target: string,
                         msgId: string, issuedAt: int)

  datatype Field = CandidateId | Outcome | Detail | NewTaskTitle | ReasonCode | Fix
                 | TeamSession | Role | GoalId | Target | MsgId | IssuedAt | Kid

  // ── Validation ──────────────────────────────────────────────────────────────

  function ByteLen(s: string): nat { |Utf8.Encode(s)| }

  predicate IsControl(c: char) { c <= '\U{001F}' || '\U{007F}' <= c <= '\U{009F}' }

  predicate HasControlChars(s: string) { exists c :: c in s && IsControl(c) && c != '\n' && c != '\t' }

  predicate IsIdentChar(c: char) {
    || 'a' <= c <= 'z' || 'A' <= c <= 'Z' || '0' <= c <= '9'
    || c == '.' || c == '_' || c == ':' || c == '-'
  }

  // A stamp value: letters, digits and `._:-`.
  predicate IsIdent(s: string, max: nat) {
    s != "" && ByteLen(s) <= max && forall c | c in s :: IsIdentChar(c)
  }

  function CheckIdent(field: Field, value: string, max: nat): Result<(), Field> {
    if IsIdent(value, max) then Success(()) else Failure(field)
  }

  function ValidateLaunchFailed(body: Body): Result<(), Field> {
    if body.outcome != LAUNCH_FAILED then
      if body.reasonCode.Some? || body.fix.Some? then Failure(ReasonCode) else Success(())
    else if body.reasonCode.None? || body.reasonCode.value !in LAUNCH_FAILURE_CODES then Failure(ReasonCode)
    else if body.fix.None? || Blank(body.fix.value) || ByteLen(body.fix.value) > MAX_FIX_BYTES
            || HasControlChars(body.fix.value) then Failure(Fix)
    else if Blank(body.detail) then Failure(Detail)
    else Success(())
  }

  // One printable line.
  predicate PlainLine(s: string) { !HasControlChars(s) && SingleLine(s) }

  /** The limits on a body; the field at fault when one is broken. */
  function ValidateBody(body: Body): Result<(), Field> {
    if body.candidateId == "" || ByteLen(body.candidateId) > MAX_CANDIDATE_ID_BYTES
       || !PlainLine(body.candidateId) then Failure(CandidateId)
    else if body.outcome !in ALLOWED_OUTCOMES then Failure(Outcome)
    else if ByteLen(body.detail) > MAX_DETAIL_BYTES then Failure(Detail)
    else if body.newTaskTitle.Some?
            && (ByteLen(body.newTaskTitle.value) > MAX_TITLE_BYTES || !PlainLine(body.newTaskTitle.value)) then
      Failure(NewTaskTitle)
    else ValidateLaunchFailed(body)
  }

  function ValidateStamp(stamp: Stamp): Result<(), Field> {
    if CheckIdent(TeamSession, stamp.teamSession, MAX_TEAM_SESSION_BYTES).Failure? then Failure(TeamSession)
    else if CheckIdent(Role, stamp.role, MAX_ROLE_BYTES).Failure? then Failure(Role)
    else if CheckIdent(GoalId, stamp.goalId, MAX_GOAL_ID_BYTES).Failure? then Failure(GoalId)
    else if CheckIdent(Target, stamp.target, MAX_TARGET_BYTES).Failure? then Failure(Target)
    else if CheckIdent(MsgId, stamp.msgId, MAX_MSG_ID_BYTES).Failure? then Failure(MsgId)
    else if stamp.issuedAt <= 0 then Failure(IssuedAt)
    else Success(())
  }

  /** A valid body carries a reason and a fix exactly when it reports a launch failure, and its
      candidate and title are single lines. */
  lemma ValidBodyShape(body: Body)
    requires ValidateBody(body).Success?
    ensures body.reasonCode.Some? <==> body.outcome == LAUNCH_FAILED
    ensures body.fix.Some? <==> body.outcome == LAUNCH_FAILED
    ensures SingleLine(body.candidateId) && body.candidateId != ""
    ensures body.newTaskTitle.Some? ==> SingleLine(body.newTaskTitle.value)
  {
    hide ByteLen, HasControlChars, Blank;
  }

  /** Exactly which bodies are valid. */
  lemma ValidBodyExactly(body: Body)
    ensures ValidateBody(body).Success? <==>
      && body.candidateId != "" && ByteLen(body.candidateId) <= 256 && PlainLine(body.candidateId)
      && body.outcome in {"done", "blocked", "new_work", "reply", "delegate", "launch_failed"}
      && ByteLen(body.detail) <= 16384
      && (body.newTaskTitle.Some? ==> ByteLen(body.newTaskTitle.value) <= 512 && PlainLine(body.newTaskTitle.value))
      && (body.outcome != "launch_failed" ==> body.reasonCode.None? && body.fix.None?)
      && (body.outcome == "launch_failed" ==>
            && body.reasonCode.Some? && body.reasonCode.value in LAUNCH_FAILURE_CODES
            && body.fix.Some? && !Blank(body.fix.value) && ByteLen(body.fix.value) <= 1024
            && !HasControlChars(body.fix.value) && !Blank(body.detail))
  {
    hide ByteLen, HasControlChars, Blank, SingleLine;
    AllowedOutcomes(body.outcome);
  }

  /** A refused body or stamp is refused for a field that is wrong. */
  lemma FaultIsReal(body: Body, stamp: Stamp)
    ensures ValidateBody(body).Failure? ==>
      match ValidateBody(body).error
      case CandidateId => body.candidateId == "" || ByteLen(body.candidateId) > 256 || !PlainLine(body.candidateId)
      case Outcome => body.outcome !in ALLOWED_OUTCOMES
      case Detail => ByteLen(body.detail) > 16384 || (body.outcome == LAUNCH_FAILED && Blank(body.detail))
      case NewTaskTitle =>
        body.newTaskTitle.Some? && (ByteLen(body.newTaskTitle.value) > 512 || !PlainLine(body.newTaskTitle.value))
      case ReasonCode =>
        if body.outcome == LAUNCH_FAILED then
          body.reasonCode.None? || body.reasonCode.value !in LAUNCH_FAILURE_CODES
        else body.reasonCode.Some? || body.fix.Some?
      case Fix =>
        body.outcome == LAUNCH_FAILED
        && (body.fix.Some? ==> Blank(body.fix.value) || ByteLen(body.fix.value) > 1024 || HasControlChars(body.fix.value))
      case _ => false
    ensures ValidateStamp(stamp).Failure? ==>
      match ValidateStamp(stamp).error
      case TeamSession => !IsIdent(stamp.teamSession, 128)
      case Role => !IsIdent(stamp.role, 64)
      case GoalId => !IsIdent(stamp.goalId, 64)
      case Target => !IsIdent(stamp.target, 128)
      case MsgId => !IsIdent(stamp.msgId, 64)
      case IssuedAt => stamp.issuedAt <= 0
      case _ => false
  {
    hide ByteLen, HasControlChars, Blank, PlainLine, IsIdent;
  }

  lemma AllowedOutcomes(s: string)
    ensures s in ALLOWED_OUTCOMES <==> s in {"done", "blocked", "new_work", "reply", "delegate", "launch_failed"}
  {
    assert ALLOWED_OUTCOMES[0] == "done" && ALLOWED_OUTCOMES[1] == "blocked" && ALLOWED_OUTCOMES[2] == "new_work";
    assert ALLOWED_OUTCOMES[3] == "reply" && ALLOWED_OUTCOMES[4] == "delegate" && ALLOWED_OUTCOMES[5] == "launch_failed";
  }

  /** Exactly which stamps are valid. */
  lemma ValidStampExactly(stamp: Stamp)
    ensures ValidateStamp(stamp).Success? <==>
      && IsIdent(stamp.teamSession, 128) && IsIdent(stamp.role, 64) && IsIdent(stamp.goalId, 64)
      && IsIdent(stamp.target, 128) && IsIdent(stamp.msgId, 64) && stamp.issuedAt > 0
  {
    hide IsIdent;
  }

  /** There are valid envelopes: a plain one. */
  lemma PlainEnvelopeIsValid()
    ensures Validated("k", Stamp("s", "r", "g", "t", "m", 1), Body("c", "done", "", None, None, None))
  {
    AtMostFourEach("k");
    AtMostFourEach("s");
    AtMostFourEach("r");
    AtMostFourEach("g");
    AtMostFourEach("t");
    AtMostFourEach("m");
    AtMostFourEach("c");
    AtMostFourEach("");
    hide ByteLen;
    assert ALLOWED_OUTCOMES[0] == "done";
    assert "c" == ['c'];
  }

  // ── The signed bytes ────────────────────────────────────────────────────────

  const U64_MAX: nat := 0xFFFF_FFFF_FFFF_FFFF

  lemma U64Max()
    ensures U64_MAX + 1 == Utf8.Pow256(8)
  {
    assert Utf8.Pow256(4) == 0x1_0000_0000 by {
      assert Utf8.Pow256(2) == 65536;
      assert Utf8.Pow256(4) == 256 * (256 * Utf8.Pow256(2));
    }
    assert Utf8.Pow256(6) == 256 * (256 * Utf8.Pow256(4));
    assert Utf8.Pow256(8) == 256 * (256 * Utf8.Pow256(6));
  }

  // Bytes after their length; an absent field is the greatest length and no bytes.
  function LengthPrefixed(field: Option<seq<Byte>>): seq<Byte> {
    match field
    case Some(bytes) => Utf8.BigEndian(|bytes|, 8) + bytes
    case None => Utf8.BigEndian(U64_MAX, 8)
  }

  function Bytes(s: string): Option<seq<Byte>> { Some(Utf8.Encode(s)) }

  function OptBytes(s: Option<string>): Option<seq<Byte>> { if s.Some? then Bytes(s.value) else None }

  const TRAILER_TAG := "launch_failed/v1"

  function Trailer(body: Body): seq<Byte> {
    if body.reasonCode.None? && body.fix.None? then []
    else LengthPrefixed(Bytes(TRAILER_TAG))
         + (LengthPrefixed(OptBytes(body.reasonCode)) + (LengthPrefixed(OptBytes(body.fix)) + []))
  }

  /** What the body digest is taken over. */
  function PreImage(body: Body): seq<Byte> {
    LengthPrefixed(Bytes(body.candidateId)) + (LengthPrefixed(Bytes(body.outcome))
      + (LengthPrefixed(Bytes(body.detail)) + (LengthPrefixed(OptBytes(body.newTaskTitle)) + Trailer(body))))
  }

  // The bytes of the greatest length.
  const ALL_ONES: seq<Byte> := [255, 255, 255, 255, 255, 255, 255, 255]

  lemma GreatestLength()
    ensures LengthPrefixed(None) == ALL_ONES
  {
    U64Max();
    Utf8.GreatestNumber(8);
  }

  /** A body without reason and fix is digested as its four fields alone, each after its length and a
      missing title as eight bytes 255, as it was before there were such fields; with either of them those
      same bytes come first. */
  lemma PlainDigestUnchanged(body: Body)
    ensures
      var plain, title := body.(reasonCode := None, fix := None), body.newTaskTitle;
      && PreImage(plain) == LengthPrefixed(Bytes(body.candidateId)) + (LengthPrefixed(Bytes(body.outcome))
           + (LengthPrefixed(Bytes(body.detail)) + if title.Some? then LengthPrefixed(Bytes(title.value)) else ALL_ONES))
      && (body != plain ==> PreImage(plain) < PreImage(body))
  {
    GreatestLength();
    var plain, last := body.(reasonCode := None, fix := None), LengthPrefixed(OptBytes(body.newTaskTitle));
    assert last + Trailer(plain) == last;
    if body != plain {
      TrailerOnlyWhenNeeded(body);
      hide LengthPrefixed, Bytes, OptBytes, Trailer;
      TrailerLast(LengthPrefixed(Bytes(body.candidateId)), LengthPrefixed(Bytes(body.outcome)),
                  LengthPrefixed(Bytes(body.detail)), last, Trailer(body));
    }
  }

  lemma TrailerOnlyWhenNeeded(body: Body)
    ensures Trailer(body) != [] <==> body.reasonCode.Some? || body.fix.Some?
  {
    hide Bytes, OptBytes;
  }

  lemma TrailerLast(a: seq<Byte>, b: seq<Byte>, c: seq<Byte>, d: seq<Byte>, t: seq<Byte>)
    ensures a + (b + (c + (d + t))) == (a + (b + (c + d))) + t
  {
  }

  /** A digest being fed, as its bytes so far. */
  class Hasher {
    var fed: seq<Byte>

    constructor ()
      ensures fed == []
    {
      fed := [];
    }

    method Update(bytes: seq<Byte>)
      modifies this
      ensures fed == old(fed) + bytes
    {
      fed := fed + bytes;
    }

    method PushLengthPrefixed(s: string)
      modifies this
      ensures fed == old(fed) + LengthPrefixed(Bytes(s))
    {
      var bytes := Utf8.Encode(s);
      Update(Utf8.BigEndian(|bytes|, 8));
      Update(bytes);
    }

    method PushOptional(s: Option<string>)
      modifies this
      ensures fed == old(fed) + LengthPrefixed(OptBytes(s))
    {
      if s.Some? {
        PushLengthPrefixed(s.value);
      } else {
        Update(Utf8.BigEndian(U64_MAX, 8));
      }
    }

    /** Feeds a body, field by field; the launch failure fields only when one is present. */
    method FeedBody(body: Body)
      modifies this
      ensures fed == old(fed) + PreImage(body)
    {
      hide LengthPrefixed, OptBytes, Bytes, Trailer;
      PushLengthPrefixed(body.candidateId);
      PushLengthPrefixed(body.outcome);
      PushLengthPrefixed(body.detail);
      PushOptional(body.newTaskTitle);
      FeedTrailer(body);
    }

    method FeedTrailer(body: Body)
      modifies this
      ensures fed == old(fed) + Trailer(body)
    {
      hide LengthPrefixed, OptBytes, Bytes;
      if body.reasonCode.Some? || body.fix.Some? {
        PushLengthPrefixed(TRAILER_TAG);
        PushOptional(body.reasonCode);
        PushOptional(body.fix);
      }
    }
  }

  // A field whose length is an actual length, never the mark of an absent one.
  predicate Fits(field: Option<seq<Byte>>) { field.Some? ==> |field.value| < U64_MAX }

  predicate BodyFits(body: Body) {
    && Fits(Bytes(body.candidateId)) && Fits(Bytes(body.outcome)) && Fits(Bytes(body.detail))
    && Fits(OptBytes(body.newTaskTitle)) && Fits(OptBytes(body.reasonCode)) && Fits(OptBytes(body.fix))
  }

  // The length at the front of a length-prefixed field.
  function LengthOf(field: Option<seq<Byte>>): nat { if field.Some? then |field.value| else U64_MAX }

  lemma LengthPrefixedFront(field: Option<seq<Byte>>, rest: seq<Byte>)
    ensures
      var t := LengthPrefixed(field) + rest;
      && |t| >= 8 && t[..8] == Utf8.BigEndian(LengthOf(field), 8)
      && t[8..] == (if field.Some? then field.value else []) + rest
  {
    hide Utf8.BigEndian;
    var front, bytes := Utf8.BigEndian(LengthOf(field), 8), if field.Some? then field.value else [];
    assert LengthPrefixed(field) == front + bytes;
    Associate(front, bytes, rest);
    TakeDrop(front, bytes + rest);
  }

  lemma TakeDrop(a: seq<Byte>, rest: seq<Byte>)
    ensures (a + rest)[..|a|] == a && (a + rest)[|a|..] == rest
  {
  }

  /** A length-prefixed field is determined by the bytes it starts, absent or not. */
  lemma PeelLengthPrefixed(x: Option<seq<Byte>>, rest: seq<Byte>, y: Option<seq<Byte>>, rest': seq<Byte>)
    requires LengthPrefixed(x) + rest == LengthPrefixed(y) + rest' && Fits(x) && Fits(y)
    ensures x == y && rest == rest'
  {
    LengthPrefixedFront(x, rest);
    LengthPrefixedFront(y, rest');
    U64Max();
    Utf8.BigEndianInjective(LengthOf(x), LengthOf(y), 8);
    if x.Some? {
      TakeDrop(x.value, rest);
      TakeDrop(y.value, rest');
    }
  }

  lemma TextBytesInjective(x: Option<string>, y: Option<string>)
    requires OptBytes(x) == OptBytes(y)
    ensures x == y
  {
    if x.Some? { Utf8.EncodeInjective(x.value, y.value); }
  }

  lemma TrailerDetermines(a: Body, b: Body)
    requires BodyFits(a) && BodyFits(b) && Trailer(a) == Trailer(b)
    ensures a.reasonCode == b.reasonCode && a.fix == b.fix
  {
    LengthPrefixedFront(Bytes(TRAILER_TAG), []);
    hide LengthPrefixed, Bytes, OptBytes, Fits;
    if Trailer(a) != [] {
      var tag := LengthPrefixed(Bytes(TRAILER_TAG));
      var a2 := LengthPrefixed(OptBytes(a.fix)) + [];
      var b2 := LengthPrefixed(OptBytes(b.fix)) + [];
      var a1 := LengthPrefixed(OptBytes(a.reasonCode)) + a2;
      var b1 := LengthPrefixed(OptBytes(b.reasonCode)) + b2;
      assert Trailer(a) == tag + a1 && Trailer(b) == tag + b1;
      TakeDrop(tag, a1);
      TakeDrop(tag, b1);
      PeelLengthPrefixed(OptBytes(a.reasonCode), a2, OptBytes(b.reasonCode), b2);
      PeelLengthPrefixed(OptBytes(a.fix), [], OptBytes(b.fix), []);
      TextBytesInjective(a.reasonCode, b.reasonCode);
      TextBytesInjective(a.fix, b.fix);
    }
  }

  /** The digested bytes determine the body: an absent title differs from an empty one, and the
      optional trailer cannot be mistaken for anything else. */
  lemma PreImageInjective(a: Body, b: Body)
    requires BodyFits(a) && BodyFits(b) && PreImage(a) == PreImage(b)
    ensures a == b
  {
    hide LengthPrefixed, Bytes, OptBytes, Fits, Trailer;
    var (a3, b3) := (LengthPrefixed(OptBytes(a.newTaskTitle)) + Trailer(a), LengthPrefixed(OptBytes(b.newTaskTitle)) + Trailer(b));
    var (a2, b2) := (LengthPrefixed(Bytes(a.detail)) + a3, LengthPrefixed(Bytes(b.detail)) + b3);
    var (a1, b1) := (LengthPrefixed(Bytes(a.outcome)) + a2, LengthPrefixed(Bytes(b.outcome)) + b2);
    PeelLengthPrefixed(Bytes(a.candidateId), a1, Bytes(b.candidateId), b1);
    PeelLengthPrefixed(Bytes(a.outcome), a2, Bytes(b.outcome), b2);
    PeelLengthPrefixed(Bytes(a.detail), a3, Bytes(b.detail), b3);
    PeelLengthPrefixed(OptBytes(a.newTaskTitle), Trailer(a), OptBytes(b.newTaskTitle), Trailer(b));
    TrailerDetermines(a, b);
    TextBytesInjective(a.newTaskTitle, b.newTaskTitle);
    BytesInjective(a.candidateId, b.candidateId);
    BytesInjective(a.outcome, b.outcome);
    BytesInjective(a.detail, b.detail);
  }

  lemma BytesInjective(a: string, b: string)
    requires Bytes(a) == Bytes(b)
    ensures a == b
  {
    Utf8.EncodeInjective(a, b);
  }

  const SIGNING_PREFIX := "ta-outcome-envelope/v1"
  const TAGS := ["kid", "team_session", "role", "goal_id", "target", "msg_id", "issued_at", "body_sha256"]

  // One `tag:value` line each.
  function Render(tags: seq<string>, values: seq<string>): string
    requires |tags| == |values|
  {
    if tags == [] then "" else tags[0] + ":" + (values[0] + "\n" + Render(tags[1..], values[1..]))
  }

  lemma {:induction false} RenderInjective(tags: seq<string>, a: seq<string>, b: seq<string>)
    requires |tags| == |a| == |b| && Render(tags, a) == Render(tags, b)
    requires forall i | 0 <= i < |tags| :: SingleLine(a[i]) && SingleLine(b[i])
    ensures a == b
  {
    if tags != [] {
      var ra, rb := Render(tags[1..], a[1..]), Render(tags[1..], b[1..]);
      TakeDropText(tags[0] + ":", a[0] + "\n" + ra);
      TakeDropText(tags[0] + ":", b[0] + "\n" + rb);
      PeelField(a[0], ra, b[0], rb);
      RenderInjective(tags[1..], a[1..], b[1..]);
      assert a == [a[0]] + a[1..] && b == [b[0]] + b[1..];
    }
  }

  lemma TakeDropText(a: string, rest: string)
    ensures (a + rest)[|a|..] == rest
  {
  }

  // The digest is a parameter.
  function BodyDigest(sha: seq<Byte> -> seq<Byte>, body: Body): string { HexEncode(sha(PreImage(body))) }

  function Values(sha: seq<Byte> -> seq<Byte>, kid: string, stamp: Stamp, body: Body): (vs: seq<string>)
    ensures |vs| == |TAGS|
  {
    [kid, stamp.teamSession, stamp.role, stamp.goalId, stamp.target, stamp.msgId, DecInt(stamp.issuedAt),
     BodyDigest(sha, body)]
  }

  /** The text that is signed. */
  function SigningInput(sha: seq<Byte> -> seq<Byte>, kid: string, stamp: Stamp, body: Body): string {
    SIGNING_PREFIX + "\n" + Render(TAGS, Values(sha, kid, stamp, body))
  }

  ghost predicate CollisionFree(sha: seq<Byte> -> seq<Byte>) {
    forall x: seq<Byte>, y: seq<Byte> :: sha(x) == sha(y) ==> x == y
  }

  // What signing and verifying both insist on.
  predicate Validated(kid: string, stamp: Stamp, body: Body) {
    IsIdent(kid, MAX_KID_BYTES) && ValidateStamp(stamp).Success? && ValidateBody(body).Success?
  }

  lemma IdentIsOneLine(s: string, max: nat)
    requires IsIdent(s, max)
    ensures SingleLine(s)
  {
  }

  lemma ShortFits(s: string)
    requires ByteLen(s) <= MAX_DETAIL_BYTES
    ensures Fits(Bytes(s)) && Fits(OptBytes(Some(s)))
  {
  }

  lemma ValidatedBodyFits(body: Body)
    requires ValidateBody(body).Success?
    ensures BodyFits(body)
  {
    hide ByteLen, HasControlChars, Blank, PlainLine, Bytes, OptBytes, Fits;
    ShortFits(body.candidateId);
    ShortOutcome(body.outcome);
    ShortFits(body.outcome);
    ShortFits(body.detail);
    NoneFits();
    if body.newTaskTitle.Some? { ShortFits(body.newTaskTitle.value); }
    if body.outcome == LAUNCH_FAILED {
      ShortOutcome(body.reasonCode.value);
      ShortFits(body.reasonCode.value);
      ShortFits(body.fix.value);
    }
  }

  lemma NoneFits()
    ensures Fits(OptBytes(None))
  {
  }

  lemma ShortOutcome(s: string)
    requires s in ALLOWED_OUTCOMES || s in LAUNCH_FAILURE_CODES
    ensures ByteLen(s) <= 4 * 14
  {
    AtMostFourEach(s);
  }

  lemma {:induction false} AtMostFourEach(s: string)
    ensures ByteLen(s) <= 4 * |s|
  {
    if s != "" { AtMostFourEach(s[1..]); }
  }

  lemma ValuesAreLines(sha: seq<Byte> -> seq<Byte>, kid: string, stamp: Stamp, body: Body)
    requires Validated(kid, stamp, body)
    ensures var vs := Values(sha, kid, stamp, body); forall i | 0 <= i < |vs| :: SingleLine(vs[i])
  {
    DecIntIsOneLine(stamp.issuedAt);
    DigestIsOneLine(sha, body);
    hide ValidateBody, IsIdent, DecInt, BodyDigest, SingleLine;
    IdentIsOneLine(kid, MAX_KID_BYTES);
    IdentIsOneLine(stamp.teamSession, MAX_TEAM_SESSION_BYTES);
    IdentIsOneLine(stamp.role, MAX_ROLE_BYTES);
    IdentIsOneLine(stamp.goalId, MAX_GOAL_ID_BYTES);
    IdentIsOneLine(stamp.target, MAX_TARGET_BYTES);
    IdentIsOneLine(stamp.msgId, MAX_MSG_ID_BYTES);
  }

  lemma DigestIsOneLine(sha: seq<Byte> -> seq<Byte>, body: Body)
    ensures SingleLine(BodyDigest(sha, body))
  {
    hide PreImage, HexEncode;
    HexEncodeIsLowerHex(sha(PreImage(body)));
  }

  /** The signed text determines the key id, the stamp and the body of a validated envelope. */
  lemma SignedTextDetermines(sha: seq<Byte> -> seq<Byte>, kid: string, stamp: Stamp, body: Body,
                             kid': string, stamp': Stamp, body': Body)
    requires CollisionFree(sha) && Validated(kid, stamp, body) && Validated(kid', stamp', body')
    requires SigningInput(sha, kid, stamp, body) == SigningInput(sha, kid', stamp', body')
    ensures kid == kid' && stamp == stamp' && body == body'
  {
    ValidatedBodyFits(body);
    ValidatedBodyFits(body');
    ValuesAreLines(sha, kid, stamp, body);
    ValuesAreLines(sha, kid', stamp', body');
    var a, b := Values(sha, kid, stamp, body), Values(sha, kid', stamp', body');
    assert a[7] == BodyDigest(sha, body) && b[7] == BodyDigest(sha, body');
    hide Validated, BodyFits, PreImage, Render, DecInt;
    TakeDropText(SIGNING_PREFIX + "\n", Render(TAGS, a));
    TakeDropText(SIGNING_PREFIX + "\n", Render(TAGS, b));
    RenderInjective(TAGS, a, b);
    assert a[0] == b[0] && a[1] == b[1] && a[2] == b[2] && a[3] == b[3] && a[4] == b[4] && a[5] == b[5];
    DecIntInjective(stamp.issuedAt, stamp'.issuedAt);
    HexRoundTrip(sha(PreImage(body)));
    HexRoundTrip(sha(PreImage(body')));
    PreImageInjective(body, body');
  }

  /** Validation is what makes this so: with newlines allowed in identifiers, two different senders
      would sign the same text. */
  lemma NewlinesWouldCollide(sha: seq<Byte> -> seq<Byte>, kid: string, stamp: Stamp, body: Body,
                             u: string, x: string, y: string)
    ensures
      var a := stamp.(teamSession := u, role := x + ("\n" + ("role" + ":" + y)));
      var b := stamp.(teamSession := u + ("\n" + ("role" + ":" + x)), role := y);
      a != b && SigningInput(sha, kid, a, body) == SigningInput(sha, kid, b, body)
  {
    var a := stamp.(teamSession := u, role := x + ("\n" + ("role" + ":" + y)));
    var b := stamp.(teamSession := u + ("\n" + ("role" + ":" + x)), role := y);
    assert |a.teamSession| < |b.teamSession|;
    var va, vb := Values(sha, kid, a, body), Values(sha, kid, b, body);
    assert va[3..] == vb[3..];
    hide BodyDigest, DecInt, Render;
    RenderThree(TAGS, va);
    RenderThree(TAGS, vb);
    Regroup(u, x, y, "role" + ":", Render(TAGS[3..], va[3..]));
  }

  lemma Regroup(u: string, x: string, y: string, t: string, rest: string)
    ensures u + "\n" + (t + ((x + ("\n" + (t + y))) + "\n" + rest)) == (u + ("\n" + (t + x))) + "\n" + (t + (y + "\n" + rest))
    ensures u + ("\n" + (t + ((x + ("\n" + (t + y))) + ("\n" + rest))))
         == (u + ("\n" + (t + x))) + ("\n" + (t + (y + ("\n" + rest))))
  {
  }

  lemma RenderThree(tags: seq<string>, vs: seq<string>)
    requires |tags| == |vs| >= 3
    ensures Render(tags, vs) == tags[0] + ":" + (vs[0] + "\n" + (tags[1] + ":" + (vs[1] + "\n"
      + (tags[2] + ":" + (vs[2] + "\n" + Render(tags[3..], vs[3..]))))))
  {
    hide Render;
    assert tags[0..] == tags && vs[0..] == vs;
    RenderStep(tags, vs, 0);
    RenderStep(tags, vs, 1);
    RenderStep(tags, vs, 2);
  }

  lemma RenderStep(tags: seq<string>, vs: seq<string>, i: nat)
    requires i < |tags| == |vs|
    ensures Render(tags[i..], vs[i..]) == tags[i] + ":" + (vs[i] + "\n" + Render(tags[i + 1..], vs[i + 1..]))
  {
  }
}
