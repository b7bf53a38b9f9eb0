/** Whole runs of a verifier: the cache forgets, yet nothing is accepted twice. */
module OutcomeReplay {
  import opened Wrappers
  import opened Text
  import opened OutcomeEnvelope
  import opened OutcomeVerify

  /** One verification: the payload, the key ring at that moment, and the clock. */
  datatype Call = Call(payload: Payload, ring: seq<RingKey>, now: int)

  function Accepted(r: Result<Verified, Error>): Option<Stamp> {
    match r
    case Success(Stamped(_, stamp, _)) => Some(stamp)
    case _ => None
  }

  // The cache after one call, and the stamp it accepted.
  function Step(c: Crypto, policy: Policy, seen: Seen, call: Call): (Seen, Option<Stamp>) {
    var (seen', r) := VerifyStep(c, seen, call.payload, call.ring, policy, call.now);
    (seen', Accepted(r))
  }

  // The cache after a run that started with an empty one.
  function SeenAfter(c: Crypto, policy: Policy, calls: seq<Call>): Seen {
    if calls == [] then map[]
    else Step(c, policy, SeenAfter(c, policy, calls[..|calls| - 1]), calls[|calls| - 1]).0
  }

  // The stamp accepted by the call at `i`, if it accepted one.
  function AcceptedAt(c: Crypto, policy: Policy, calls: seq<Call>, i: nat): Option<Stamp>
    requires i < |calls|
  {
    Step(c, policy, SeenAfter(c, policy, calls[..i]), calls[i]).1
  }

  /** The clock never falls more than the allowed skew below its running maximum. */
  predicate SteadyClock(calls: seq<Call>, skew: int) {
    forall i, j | 0 <= i < j < |calls| :: calls[j].now >= calls[i].now - skew
  }

  lemma AcceptedIsFresh(c: Crypto, policy: Policy, seen: Seen, call: Call)
    ensures
      var (seen', accepted) := Step(c, policy, seen, call);
      var retained := Retained(seen, call.now, Keep(policy));
      match accepted
      case Some(s) =>
        && s.msgId !in retained && seen' == retained[s.msgId := s.issuedAt]
        && call.now - policy.maxAge <= s.issuedAt <= call.now + policy.maxSkew
      case None => seen' == seen || seen' == retained
  {
    hide SigningInput, ValidateBody, ValidateStamp, IsIdent, CheckKey, CheckShape, CheckRole, Retained;
  }

  /** What one call does to the cache entry of one message id. */
  lemma EntryAfter(c: Crypto, policy: Policy, seen: Seen, call: Call, m: string)
    ensures
      var (seen', accepted) := Step(c, policy, seen, call);
      var now, keep, mine := call.now, Keep(policy), accepted.Some? && accepted.value.msgId == m;
      && (mine ==> m in seen' && seen'[m] == accepted.value.issuedAt)
      && (mine && m in seen ==> now - seen[m] > keep)
      && (mine ==> now - policy.maxAge <= accepted.value.issuedAt <= now + policy.maxSkew)
      && (m in seen ==> (m in seen' && seen'[m] == seen[m]) || now - seen[m] > keep)
      && (m in seen' && !mine ==> m in seen && seen'[m] == seen[m])
      && (m in seen' && accepted.Some? && !mine ==> now - seen'[m] <= keep)
  {
    hide Step;
    AcceptedIsFresh(c, policy, seen, call);
    var retained := Retained(seen, call.now, Keep(policy));
    assert m in retained <==> m in seen && call.now - seen[m] <= Keep(policy);
    assert m in retained ==> retained[m] == seen[m];
    var (seen', accepted) := Step(c, policy, seen, call);
    if accepted.Some? && accepted.value.msgId != m {
      assert m in seen' <==> m in retained;
    }
  }

  // Some call of the run came late enough to forget an envelope issued at `at`.
  predicate Forgotten(calls: seq<Call>, at: int, keep: int) {
    exists k :: 0 <= k < |calls| && calls[k].now - at > keep
  }

  lemma ForgottenGrows(calls: seq<Call>, call: Call, at: int, keep: int)
    requires Forgotten(calls, at, keep) || call.now - at > keep
    ensures Forgotten(calls + [call], at, keep)
  {
    var all := calls + [call];
    if Forgotten(calls, at, keep) {
      var k :| 0 <= k < |calls| && calls[k].now - at > keep;
      assert all[k] == calls[k];
    } else {
      assert all[|calls|] == call;
    }
  }

  // A run seen as its calls but the last, and the last.
  lemma RunSplits(c: Crypto, policy: Policy, calls: seq<Call>, n: nat)
    requires calls != [] && n == |calls| - 1
    ensures var (seen', accepted) := Step(c, policy, SeenAfter(c, policy, calls[..n]), calls[n]);
      SeenAfter(c, policy, calls) == seen' && AcceptedAt(c, policy, calls, n) == accepted
    ensures forall i | 0 <= i < n :: AcceptedAt(c, policy, calls, i) == AcceptedAt(c, policy, calls[..n], i)
  {
    hide Step;
    forall i | 0 <= i < n ensures AcceptedAt(c, policy, calls, i) == AcceptedAt(c, policy, calls[..n], i) {
      assert calls[..n][..i] == calls[..i];
    }
  }

  /** An accepted message is in the cache, with the time it was issued, until some call comes late
      enough to forget it. */
  lemma {:induction false} RememberedOrForgotten(c: Crypto, policy: Policy, calls: seq<Call>, i: nat)
    requires i < |calls| && AcceptedAt(c, policy, calls, i).Some?
    ensures
      var s, seen := AcceptedAt(c, policy, calls, i).value, SeenAfter(c, policy, calls);
      || (s.msgId in seen && seen[s.msgId] == s.issuedAt)
      || Forgotten(calls, s.issuedAt, Keep(policy))
    decreases |calls|
  {
    hide *;
    var n := |calls| - 1;
    var front, call, s := calls[..n], calls[n], AcceptedAt(c, policy, calls, i).value;
    assert calls == front + [call];
    RunSplits(c, policy, calls, n);
    EntryAfter(c, policy, SeenAfter(c, policy, front), call, s.msgId);
    if i < n {
      assert AcceptedAt(c, policy, calls, i) == AcceptedAt(c, policy, front, i);
      RememberedOrForgotten(c, policy, front, i);
      if Forgotten(front, s.issuedAt, Keep(policy)) || call.now - s.issuedAt > Keep(policy) {
        ForgottenGrows(front, call, s.issuedAt, Keep(policy));
      }
    }
  }

  /** No replay. With a steady clock, a message id accepted again always comes with a strictly later
      issue time: no stamped envelope is accepted twice, in a run of any length. */
  lemma NoReplay(c: Crypto, policy: Policy, calls: seq<Call>, i: nat, j: nat)
    requires policy.maxSkew >= 0 && SteadyClock(calls, policy.maxSkew) && i < j < |calls|
    requires AcceptedAt(c, policy, calls, i).Some? && AcceptedAt(c, policy, calls, j).Some?
    requires AcceptedAt(c, policy, calls, i).value.msgId == AcceptedAt(c, policy, calls, j).value.msgId
    ensures AcceptedAt(c, policy, calls, i).value.issuedAt < AcceptedAt(c, policy, calls, j).value.issuedAt
  {
    hide *;
    var first, again := AcceptedAt(c, policy, calls, i).value, AcceptedAt(c, policy, calls, j).value;
    var front, here := calls[..j], calls[..j + 1];
    SplitAt(c, policy, calls, i, j);
    RunSplits(c, policy, here, j);
    assert here[..j] == front && here[j] == calls[j];
    RememberedOrForgotten(c, policy, front, i);
    EntryAfter(c, policy, SeenAfter(c, policy, front), calls[j], first.msgId);
    if Forgotten(front, first.issuedAt, Keep(policy)) {
      LateCall(calls, j, first.issuedAt, policy);
    }
    KeepIs(policy);
  }

  lemma KeepIs(policy: Policy)
    ensures Keep(policy) == policy.maxAge + policy.maxSkew
  {
  }

  lemma SplitAt(c: Crypto, policy: Policy, calls: seq<Call>, i: nat, j: nat)
    requires i < j < |calls|
    ensures AcceptedAt(c, policy, calls[..j], i) == AcceptedAt(c, policy, calls, i)
    ensures AcceptedAt(c, policy, calls[..j + 1], j) == AcceptedAt(c, policy, calls, j)
  {
    assert calls[..j][..i] == calls[..i] && calls[..j + 1][..j] == calls[..j];
  }

  // With a steady clock, what was once forgotten is stale ever after.
  lemma LateCall(calls: seq<Call>, j: nat, at: int, policy: Policy)
    requires SteadyClock(calls, policy.maxSkew) && j < |calls| && Forgotten(calls[..j], at, Keep(policy))
    ensures calls[j].now - at > policy.maxAge
  {
    var k :| 0 <= k < j && calls[..j][k].now - at > Keep(policy);
    assert calls[..j][k] == calls[k];
  }

  /** The cache stays inside the window: right after a stamped envelope is accepted, no entry is older
      than the window and none is further ahead than the clock has ever allowed. */
  lemma CacheStaysFresh(c: Crypto, policy: Policy, calls: seq<Call>, high: int, m: string)
    requires policy.maxSkew >= 0 && calls != [] && AcceptedAt(c, policy, calls, |calls| - 1).Some?
    requires forall k | 0 <= k < |calls| :: calls[k].now <= high
    requires m in SeenAfter(c, policy, calls)
    ensures calls[|calls| - 1].now - SeenAfter(c, policy, calls)[m] <= Keep(policy)
    ensures SeenAfter(c, policy, calls)[m] <= high + policy.maxSkew
  {
    hide *;
    var n := |calls| - 1;
    NotAhead(c, policy, calls, high, m);
    RunSplits(c, policy, calls, n);
    EntryAfter(c, policy, SeenAfter(c, policy, calls[..n]), calls[n], m);
    KeepIs(policy);
  }

  lemma {:induction false} NotAhead(c: Crypto, policy: Policy, calls: seq<Call>, high: int, m: string)
    requires forall k | 0 <= k < |calls| :: calls[k].now <= high
    requires m in SeenAfter(c, policy, calls)
    ensures SeenAfter(c, policy, calls)[m] <= high + policy.maxSkew
    decreases |calls|
  {
    if calls != [] {
      hide *;
      var n := |calls| - 1;
      assert calls[n].now <= high;
      assert forall k | 0 <= k < n :: calls[..n][k] == calls[k];
      RunSplits(c, policy, calls, n);
      EntryAfter(c, policy, SeenAfter(c, policy, calls[..n]), calls[n], m);
      if m in SeenAfter(c, policy, calls[..n]) { NotAhead(c, policy, calls[..n], high, m); }
    }
  }

  /** One second more and it fails: a clock that falls by more than the skew lets an envelope in a
      second time. */
  lemma ClockJumpReplays(c: Crypto, policy: Policy, env: Envelope, other: Envelope, ring: seq<RingKey>)
    requires policy.maxAge >= 0 && policy.maxSkew >= 0 && env.stamp.msgId != other.stamp.msgId
    requires CheckEnvelope(c, env, ring, policy, env.stamp.issuedAt + policy.maxAge).Success?
    requires CheckEnvelope(c, other, ring, policy, other.stamp.issuedAt).Success?
    requires other.stamp.issuedAt == env.stamp.issuedAt + Keep(policy) + 1
    ensures
      var late := env.stamp.issuedAt + policy.maxAge;
      var calls := [SignedCall(env, ring, late), SignedCall(other, ring, other.stamp.issuedAt), SignedCall(env, ring, late)];
      && calls[2].now == calls[1].now - policy.maxSkew - 1
      && AcceptedAt(c, policy, calls, 0) == AcceptedAt(c, policy, calls, 2) == Some(env.stamp)
  {
    var late := env.stamp.issuedAt + policy.maxAge;
    var calls := [SignedCall(env, ring, late), SignedCall(other, ring, other.stamp.issuedAt), SignedCall(env, ring, late)];
    hide *;
    var (first, second, keep) := (env.stamp, other.stamp, Keep(policy));
    var seen1: Seen := map[first.msgId := first.issuedAt];
    var seen2: Seen := map[second.msgId := second.issuedAt];
    KeepIs(policy);
    SeenThree(c, policy, calls);
    RetainedNone(late, keep);
    RetainedOne(first.msgId, first.issuedAt, second.issuedAt, keep);
    SignedCallIs(env, ring, late);
    SignedCallIs(other, ring, second.issuedAt);
    FreshIsAccepted(c, policy, map[], calls[0], env);
    FreshIsAccepted(c, policy, seen1, calls[1], other);
    RetainedOnly(second.msgId, second.issuedAt, late, keep, first.msgId);
    FreshIsAccepted(c, policy, seen2, calls[2], env);
  }

  lemma RetainedNone(now: int, keep: int)
    ensures Retained(map[], now, keep) == map[]
  {
  }

  lemma RetainedOne(m: string, at: int, now: int, keep: int)
    requires now - at > keep
    ensures Retained(map[m := at], now, keep) == map[]
  {
  }

  lemma RetainedOnly(m: string, at: int, now: int, keep: int, other: string)
    requires other != m
    ensures other !in Retained(map[m := at], now, keep)
  {
  }

  lemma SignedCallIs(env: Envelope, ring: seq<RingKey>, now: int)
    ensures SignedCall(env, ring, now).ring == ring && SignedCall(env, ring, now).now == now
  {
  }

  lemma SeenThree(c: Crypto, policy: Policy, calls: seq<Call>)
    requires |calls| == 3
    ensures
      var (seen1, first) := Step(c, policy, map[], calls[0]);
      var (seen2, _) := Step(c, policy, seen1, calls[1]);
      && AcceptedAt(c, policy, calls, 0) == first
      && AcceptedAt(c, policy, calls, 2) == Step(c, policy, seen2, calls[2]).1
  {
    hide Step;
    assert calls[..0] == [] && calls[..1][..0] == [] && calls[..2][..1] == calls[..1];
    assert SeenAfter(c, policy, calls[..1]) == Step(c, policy, map[], calls[0]).0;
  }

  function SignedCall(env: Envelope, ring: seq<RingKey>, now: int): Call {
    Call(Payload(0, Signed(Some(1), Some(env))), ring, now)
  }

  lemma FreshIsAccepted(c: Crypto, policy: Policy, seen: Seen, call: Call, env: Envelope)
    requires CheckEnvelope(c, env, call.ring, policy, call.now).Success?
    requires call == SignedCall(env, call.ring, call.now)
    requires env.stamp.msgId !in Retained(seen, call.now, Keep(policy))
    ensures Step(c, policy, seen, call) ==
      (Retained(seen, call.now, Keep(policy))[env.stamp.msgId := env.stamp.issuedAt], Some(env.stamp))
  {
    hide CheckEnvelope;
  }
}
