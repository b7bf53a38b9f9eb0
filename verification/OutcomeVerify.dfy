/** Signing and verifying outcome envelopes, and the replay cache. */
module OutcomeVerify {
  import opened Wrappers
  import opened Text
  import opened OutcomeEnvelope

  datatype Envelope = Envelope(body: Body, kind: Option<string>, stamp: Stamp, kid: string, alg: string, sig: string)

  /** A payload as its JSON shows it. A stamped one carries its version when that is a number, and
      the envelope when it fits the schema. */
  datatype Content =
    | NotAnObject
    | Unsigned(body: Body)
    | PartlySigned
    | Signed(version: Option<nat>, envelope: Option<Envelope>)

  datatype Payload = Payload(size: nat, content: Content)

  datatype KeyStatus = Pending | Active | Retired | Revoked

  /** `usable` says whether the public key decodes. */
  datatype RingKey = RingKey(kid: string, publicKey: string, usable: bool, status: KeyStatus, retiredAt: Option<int>)

  datatype Policy = Policy(requireStamped: bool, maxAge: int, maxSkew: int, allowedRoles: seq<string>)

  datatype Error =
    | InvalidField(field: Field)
    | TooLarge
    | MalformedEnvelope
    | Unstamped
    | UnsupportedVersion(v: nat)
    | NoKeys
    | UnknownKey
    | KeyRevoked
    | SignedAfterRetirement
    | BadSignature
    | Stale(age: int)
    | FromTheFuture(ahead: int)
    | Replay(msgId: string)
    | RoleNotPermitted(role: string)
    | LaunchFailedNotFromDaemon

  datatype Verified = Stamped(body: Body, stamp: Stamp, kid: string) | Legacy(body: Body)

  /** The digest, the signer's private side, the signature check, and serialized sizes. */
  datatype Crypto = Crypto(sha: seq<Byte> -> seq<Byte>, sign: string -> string,
                           check: (string, string, string) -> bool, size: Envelope -> nat)

  const ALG := "ed25519"

  // ── Signing ─────────────────────────────────────────────────────────────────

  function SignOutcome(c: Crypto, body: Body, stamp: Stamp, kid: string): Result<Envelope, Error> {
    if ValidateBody(body).Failure? then Failure(InvalidField(ValidateBody(body).error))
    else if ValidateStamp(stamp).Failure? then Failure(InvalidField(ValidateStamp(stamp).error))
    else if !IsIdent(kid, MAX_KID_BYTES) then Failure(InvalidField(Kid))
    else
      var kind := if body.outcome == LAUNCH_FAILED then Some(LAUNCH_FAILED) else None;
      var env := Envelope(body, kind, stamp, kid, ALG, c.sign(SigningInput(c.sha, kid, stamp, body)));
      if c.size(env) > MAX_ENVELOPE_BYTES then Failure(TooLarge) else Success(env)
  }

  // ── Verifying ───────────────────────────────────────────────────────────────

  function FindKey(ring: seq<RingKey>, kid: string): (r: Option<RingKey>)
    ensures r.Some? ==> r.value in ring && r.value.kid == kid
    ensures r.None? ==> forall k | k in ring :: k.kid != kid
  {
    if ring == [] then None
    else if ring[0].kid == kid then Some(ring[0])
    else FindKey(ring[1..], kid)
  }

  /** The key with an id is the first in the ring that has it. */
  lemma {:induction false} FindsFirst(ring: seq<RingKey>, kid: string, i: nat)
    requires i < |ring| && ring[i].kid == kid && forall j | 0 <= j < i :: ring[j].kid != kid
    ensures FindKey(ring, kid) == Some(ring[i])
  {
    if i > 0 {
      assert forall j | 0 <= j < |ring| - 1 :: ring[1..][j] == ring[j + 1];
      FindsFirst(ring[1..], kid, i - 1);
    }
  }

  function CheckKey(c: Crypto, env: Envelope, ring: seq<RingKey>, policy: Policy): Result<(), Error> {
    if ring == [] then Failure(NoKeys)
    else
      var found := FindKey(ring, env.kid);
      if found.None? then Failure(UnknownKey)
      else
        var key := found.value;
        if key.status.Revoked? then Failure(KeyRevoked)
        else if key.status.Retired? && key.retiredAt.Some?
                && env.stamp.issuedAt > key.retiredAt.value + policy.maxSkew then Failure(SignedAfterRetirement)
        else if !key.usable then Failure(MalformedEnvelope)
        else if !c.check(key.publicKey, SigningInput(c.sha, env.kid, env.stamp, env.body), env.sig) then
          Failure(BadSignature)
        else Success(())
  }

  function CheckShape(env: Envelope): Result<(), Error> {
    if env.kind.Some? && env.kind.value != env.body.outcome then Failure(MalformedEnvelope)
    else if ValidateBody(env.body).Failure? then Failure(InvalidField(ValidateBody(env.body).error))
    else if ValidateStamp(env.stamp).Failure? then Failure(InvalidField(ValidateStamp(env.stamp).error))
    else if !IsIdent(env.kid, MAX_KID_BYTES) then Failure(InvalidField(Kid))
    else if env.alg != ALG then Failure(MalformedEnvelope)
    else Success(())
  }

  function CheckAge(stamp: Stamp, policy: Policy, now: int): Result<(), Error> {
    var age := now - stamp.issuedAt;
    if age > policy.maxAge then Failure(Stale(age))
    else if -age > policy.maxSkew then Failure(FromTheFuture(-age))
    else Success(())
  }

  function CheckRole(body: Body, stamp: Stamp, policy: Policy): Result<(), Error> {
    var launchFailed, daemon := body.outcome == LAUNCH_FAILED, stamp.role == DAEMON_ROLE;
    if launchFailed && !daemon then Failure(LaunchFailedNotFromDaemon)
    else if daemon && !launchFailed then Failure(RoleNotPermitted(stamp.role))
    else if !(daemon && launchFailed) && policy.allowedRoles != [] && stamp.role !in policy.allowedRoles then
      Failure(RoleNotPermitted(stamp.role))
    else Success(())
  }

  // Everything but the replay check.
  function CheckEnvelope(c: Crypto, env: Envelope, ring: seq<RingKey>, policy: Policy, now: int): Result<(), Error> {
    var shape := CheckShape(env);
    if shape.Failure? then shape
    else
      var key := CheckKey(c, env, ring, policy);
      if key.Failure? then key
      else
        var age := CheckAge(env.stamp, policy, now);
        if age.Failure? then age else CheckRole(env.body, env.stamp, policy)
  }

  function Judge(c: Crypto, payload: Payload, ring: seq<RingKey>, policy: Policy, now: int): Result<Verified, Error> {
    if payload.size > MAX_ENVELOPE_BYTES then Failure(TooLarge)
    else match payload.content
      case NotAnObject => Failure(MalformedEnvelope)
      case Unsigned(body) =>
        if body.outcome == LAUNCH_FAILED then Failure(LaunchFailedNotFromDaemon)
        else if policy.requireStamped then Failure(Unstamped)
        else Success(Legacy(body.(reasonCode := None, fix := None)))
      case PartlySigned => Failure(MalformedEnvelope)
      case Signed(version, envelope) =>
        if version.Some? && version.value != 1 then Failure(UnsupportedVersion(version.value))
        else if version.None? || envelope.None? then Failure(MalformedEnvelope)
        else
          var env := envelope.value;
          var r := CheckEnvelope(c, env, ring, policy, now);
          if r.Failure? then Failure(r.error) else Success(Stamped(env.body, env.stamp, env.kid))
  }

  type Seen = map<string, int>

  // The cache once entries older than `keep` are forgotten.
  function Retained(seen: Seen, now: int, keep: int): Seen {
    map m | m in seen && now - seen[m] <= keep :: seen[m]
  }

  function Keep(policy: Policy): int { policy.maxAge + policy.maxSkew }

  // The whole verification: the cache afterwards, and the verdict.
  function VerifyStep(c: Crypto, seen: Seen, payload: Payload, ring: seq<RingKey>, policy: Policy, now: int)
    : (Seen, Result<Verified, Error>)
  {
    var verdict := Judge(c, payload, ring, policy, now);
    if verdict.Failure? || verdict.value.Legacy? then (seen, verdict)
    else
      var stamp, retained := verdict.value.stamp, Retained(seen, now, Keep(policy));
      if stamp.msgId in retained then (retained, Failure(Replay(stamp.msgId)))
      else (retained[stamp.msgId := stamp.issuedAt], verdict)
  }

  class ReplayCache {
    var seen: Seen

    constructor ()
      ensures seen == map[]
    {
      seen := map[];
    }

    method CheckAndInsert(msgId: string, issuedAt: int, now: int, keep: int) returns (isNew: bool)
      modifies this
      ensures isNew <==> msgId !in Retained(old(seen), now, keep)
      ensures seen == if isNew then Retained(old(seen), now, keep)[msgId := issuedAt] else Retained(old(seen), now, keep)
    {
      seen := Retained(seen, now, keep);
      if msgId in seen {
        return false;
      }
      seen := seen[msgId := issuedAt];
      return true;
    }

    /** Verifies one payload. Only a fully verified envelope enters the cache. */
    method Verify(c: Crypto, payload: Payload, ring: seq<RingKey>, policy: Policy, now: int)
      returns (r: Result<Verified, Error>)
      modifies this
      ensures (seen, r) == VerifyStep(c, old(seen), payload, ring, policy, now)
    {
      hide Judge, Retained;
      r := Judge(c, payload, ring, policy, now);
      if r.Success? && r.value.Stamped? {
        var stamp := r.value.stamp;
        var isNew := CheckAndInsert(stamp.msgId, stamp.issuedAt, now, Keep(policy));
        if !isNew {
          r := Failure(Replay(stamp.msgId));
        }
      }
    }
  }

  // ── What a verdict proves ───────────────────────────────────────────────────

  // A key the ring trusts for this stamp.
  predicate Trusts(ring: seq<RingKey>, kid: string, stamp: Stamp, policy: Policy) {
    var key := FindKey(ring, kid);
    && key.Some? && key.value.usable && !key.value.status.Revoked?
    && (key.value.status.Retired? && key.value.retiredAt.Some? ==>
          stamp.issuedAt <= key.value.retiredAt.value + policy.maxSkew)
  }

  predicate RoleMay(role: string, outcome: string, policy: Policy) {
    if outcome == LAUNCH_FAILED then role == DAEMON_ROLE
    else role != DAEMON_ROLE && (policy.allowedRoles == [] || role in policy.allowedRoles)
  }

  /** A signed envelope passes, replays aside, exactly when it is well formed, carries a valid signature by
      a trusted key, is inside the freshness window, and its role may say what it says. */
  predicate Passes(c: Crypto, env: Envelope, ring: seq<RingKey>, policy: Policy, now: int) {
    && WellFormed(env)
    && Trusts(ring, env.kid, env.stamp, policy)
    && c.check(FindKey(ring, env.kid).value.publicKey, SigningInput(c.sha, env.kid, env.stamp, env.body), env.sig)
    && now - policy.maxAge <= env.stamp.issuedAt <= now + policy.maxSkew
    && RoleMay(env.stamp.role, env.body.outcome, policy)
  }

  predicate WellFormed(env: Envelope) {
    && Validated(env.kid, env.stamp, env.body) && env.alg == ALG
    && (env.kind.None? || env.kind.value == env.body.outcome)
  }

  lemma EnvelopePasses(c: Crypto, env: Envelope, ring: seq<RingKey>, policy: Policy, now: int)
    ensures CheckEnvelope(c, env, ring, policy, now).Success? <==> Passes(c, env, ring, policy, now)
  {
    hide SigningInput, ValidateBody, ValidateStamp, IsIdent;
    assert ring == [] ==> FindKey(ring, env.kid).None?;
  }

  /** What is accepted, replays aside, of every payload: as stamped, exactly a signed payload of version 1
      that is small enough and passes; as legacy, exactly an unsigned one of allowed size that reports no
      launch failure, when the policy does not require stamps, with its reason and fix dropped. Nothing
      else is: no partly signed payload, none that is not an object, no other version. */
  lemma AcceptedExactly(c: Crypto, payload: Payload, ring: seq<RingKey>, policy: Policy, now: int, v: Verified)
    ensures Judge(c, payload, ring, policy, now) == Success(v) <==>
      && payload.size <= MAX_ENVELOPE_BYTES
      && match v
         case Stamped(body, stamp, kid) =>
           && payload.content.Signed? && payload.content.version == Some(1) && payload.content.envelope.Some?
           && var env := payload.content.envelope.value;
              body == env.body && stamp == env.stamp && kid == env.kid && Passes(c, env, ring, policy, now)
         case Legacy(body) =>
           && payload.content.Unsigned? && payload.content.body.outcome != LAUNCH_FAILED && !policy.requireStamped
           && body == payload.content.body.(reasonCode := None, fix := None)
  {
    hide CheckEnvelope, Passes;
    if payload.content.Signed? && payload.content.envelope.Some? {
      EnvelopePasses(c, payload.content.envelope.value, ring, policy, now);
    }
  }

  /** Why a payload is refused before its envelope is looked at. */
  lemma RefusedUnread(c: Crypto, payload: Payload, ring: seq<RingKey>, policy: Policy, now: int)
    ensures var r := Judge(c, payload, ring, policy, now);
      && (r == Failure(TooLarge) <==> payload.size > MAX_ENVELOPE_BYTES)
      && (r == Failure(Unstamped) <==>
            && payload.size <= MAX_ENVELOPE_BYTES && payload.content.Unsigned? && policy.requireStamped
            && payload.content.body.outcome != LAUNCH_FAILED)
      && (forall n: nat :: r == Failure(UnsupportedVersion(n)) <==>
            && payload.size <= MAX_ENVELOPE_BYTES && payload.content.Signed? && payload.content.version == Some(n) && n != 1)
      && (payload.size <= MAX_ENVELOPE_BYTES && (payload.content.PartlySigned? || payload.content.NotAnObject?) ==>
            r == Failure(MalformedEnvelope))
  {
    hide SigningInput, ValidateBody, ValidateStamp, IsIdent, Trusts;
  }

  // Well formed, and signed by a trusted key.
  predicate SignedByTrusted(c: Crypto, env: Envelope, ring: seq<RingKey>, policy: Policy) {
    && WellFormed(env) && Trusts(ring, env.kid, env.stamp, policy)
    && c.check(FindKey(ring, env.kid).value.publicKey, SigningInput(c.sha, env.kid, env.stamp, env.body), env.sig)
  }

  /** Why a well-formed envelope is refused for its key or its signature, before its age is looked at. */
  lemma RefusedForKey(c: Crypto, env: Envelope, ring: seq<RingKey>, policy: Policy, now: int)
    requires WellFormed(env)
    ensures
      var r, key := CheckEnvelope(c, env, ring, policy, now), FindKey(ring, env.kid);
      && (r == Failure(NoKeys) <==> ring == [])
      && (r == Failure(UnknownKey) <==> ring != [] && key.None?)
      && (r == Failure(KeyRevoked) <==> key.Some? && key.value.status.Revoked?)
      && (r == Failure(SignedAfterRetirement) <==>
            key.Some? && key.value.status.Retired? && key.value.retiredAt.Some?
            && env.stamp.issuedAt > key.value.retiredAt.value + policy.maxSkew)
      && (r == Failure(BadSignature) <==>
            Trusts(ring, env.kid, env.stamp, policy) && !SignedByTrusted(c, env, ring, policy))
  {
    hide SigningInput, ValidateBody, ValidateStamp, IsIdent;
    assert ring == [] ==> FindKey(ring, env.kid).None?;
  }

  /** Why a properly signed one is refused: its age comes before its role. */
  lemma RefusedForAgeOrRole(c: Crypto, env: Envelope, ring: seq<RingKey>, policy: Policy, now: int)
    requires SignedByTrusted(c, env, ring, policy)
    ensures
      var r, age := CheckEnvelope(c, env, ring, policy, now), now - env.stamp.issuedAt;
      && (r.Success? <==> age <= policy.maxAge && -age <= policy.maxSkew && RoleMay(env.stamp.role, env.body.outcome, policy))
      && (age > policy.maxAge ==> r == Failure(Stale(age)))
      && (age <= policy.maxAge && -age > policy.maxSkew ==> r == Failure(FromTheFuture(-age)))
      && (age <= policy.maxAge && -age <= policy.maxSkew && !RoleMay(env.stamp.role, env.body.outcome, policy) ==>
            r == Failure(if env.body.outcome == LAUNCH_FAILED then LaunchFailedNotFromDaemon
                         else RoleNotPermitted(env.stamp.role)))
  {
    hide SigningInput, ValidateBody, ValidateStamp, IsIdent;
    assert ring == [] ==> FindKey(ring, env.kid).None?;
  }

  /** Verification as a whole: what is accepted is what is judged acceptable and, when stamped, is not
      remembered; exactly that is remembered then, and a remembered one is refused as a replay. */
  lemma VerifiedExactly(c: Crypto, seen: Seen, payload: Payload, ring: seq<RingKey>, policy: Policy, now: int)
    ensures
      var (seen', r) := VerifyStep(c, seen, payload, ring, policy, now);
      var j := Judge(c, payload, ring, policy, now);
      if j.Success? && j.value.Stamped? then
        var stamp := j.value.stamp;
        var known := stamp.msgId in seen && now - seen[stamp.msgId] <= policy.maxAge + policy.maxSkew;
        && r == (if known then Failure(Replay(stamp.msgId)) else j)
        && (forall m :: m in seen' <==> (m in seen && now - seen[m] <= policy.maxAge + policy.maxSkew) || m == stamp.msgId)
        && (forall m | m in seen' :: seen'[m] == if m == stamp.msgId && !known then stamp.issuedAt else seen[m])
      else r == j && seen' == seen
  {
    hide Judge;
  }

  /** What signing makes: an envelope of exactly what was asked for, named a launch failure when it is one,
      if and only if body, stamp and key id are valid and the result is not too large. */
  lemma SignsExactly(c: Crypto, body: Body, stamp: Stamp, kid: string)
    ensures
      var r := SignOutcome(c, body, stamp, kid);
      var kind := if body.outcome == "launch_failed" then Some(body.outcome) else None;
      var env := Envelope(body, kind, stamp, kid, "ed25519", c.sign(SigningInput(c.sha, kid, stamp, body)));
      && (r.Success? <==> Validated(kid, stamp, body) && c.size(env) <= MAX_ENVELOPE_BYTES)
      && (r.Success? ==> r.value == env)
      && (Validated(kid, stamp, body) && r.Failure? ==> r.error == TooLarge)
  {
    hide SigningInput, ValidateBody, ValidateStamp, IsIdent;
  }

  /** Round trip: what the daemon signs, a verifier that holds its active key accepts while fresh. */
  lemma SignedVerifies(c: Crypto, body: Body, stamp: Stamp, kid: string, ring: seq<RingKey>, policy: Policy,
                       now: int, env: Envelope)
    requires SignOutcome(c, body, stamp, kid) == Success(env)
    requires forall pk: string, text: string :: c.check(pk, text, c.sign(text))
    requires Trusts(ring, kid, stamp, policy) && RoleMay(stamp.role, body.outcome, policy)
    requires now - policy.maxAge <= stamp.issuedAt <= now + policy.maxSkew
    ensures Judge(c, Payload(c.size(env), Signed(Some(1), Some(env))), ring, policy, now)
         == Success(Stamped(body, stamp, kid))
  {
    hide SigningInput, ValidateBody, ValidateStamp, IsIdent;
    AcceptedExactly(c, Payload(c.size(env), Signed(Some(1), Some(env))), ring, policy, now, Stamped(body, stamp, kid));
  }

  /** A launch failure is accepted from the daemon alone, and from the daemon nothing else. */
  lemma LaunchFailedIsTheDaemons(c: Crypto, payload: Payload, ring: seq<RingKey>, policy: Policy, now: int)
    requires Judge(c, payload, ring, policy, now).Success?
    ensures var v := Judge(c, payload, ring, policy, now).value;
      && (v.Stamped? ==> (v.body.outcome == LAUNCH_FAILED <==> v.stamp.role == DAEMON_ROLE))
      && (v.Legacy? ==> v.body.outcome != LAUNCH_FAILED)
  {
    hide SigningInput, ValidateBody, ValidateStamp, IsIdent;
  }

  /** Nothing the daemon signed for one outcome can pass as another: an accepted envelope whose text
      was signed carries the very key id, stamp and body that were signed. */
  lemma AcceptedIsWhatWasSigned(c: Crypto, env: Envelope, ring: seq<RingKey>, policy: Policy, now: int,
                                kid: string, stamp: Stamp, body: Body)
    requires CollisionFree(c.sha) && CheckEnvelope(c, env, ring, policy, now).Success?
    requires SignOutcome(c, body, stamp, kid).Success?
    requires SigningInput(c.sha, env.kid, env.stamp, env.body) == SigningInput(c.sha, kid, stamp, body)
    ensures env.kid == kid && env.stamp == stamp && env.body == body
  {
    hide SigningInput, ValidateBody, ValidateStamp, IsIdent;
    SignedTextDetermines(c.sha, env.kid, env.stamp, env.body, kid, stamp, body);
  }
}
