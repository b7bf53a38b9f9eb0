/** Keys that carry a team session: presence keys, task ids and handoff streams. */
module SessionKeys {
  import opened Wrappers
  import opened Text
  import Utf8

  // ── One component ───────────────────────────────────────────────────────────

  predicate IsKept(b: int) {
    'a' as int <= b <= 'z' as int || 'A' as int <= b <= 'Z' as int || '0' as int <= b <= '9' as int || b == '-' as int
  }

  // Two upper-case hex digits.
  function UpperDigit(d: int): char
    requires 0 <= d < 16
  {
    if d < 10 then ('0' as int + d) as char else ('A' as int + d - 10) as char
  }

  function EncodeByte(b: Byte): (s: string)
    ensures s != "" && '_' !in s
  {
    if IsKept(b) then [b as char] else ['=', UpperDigit(b / 16), UpperDigit(b % 16)]
  }

  function EncodeBytes(bytes: seq<Byte>): (s: string)
    ensures '_' !in s
  {
    if bytes == [] then "" else EncodeByte(bytes[0]) + EncodeBytes(bytes[1..])
  }

  /** The encoded form of one key component. */
  function EncodeComponent(component: string): (s: string)
    ensures '_' !in s
  {
    EncodeBytes(Utf8.Encode(component))
  }

  lemma {:induction false} EncodeBytesNext(bytes: seq<Byte>, i: nat)
    requires i < |bytes|
    ensures EncodeBytes(bytes[..i + 1]) == EncodeBytes(bytes[..i]) + EncodeByte(bytes[i])
    decreases i
  {
    if i == 0 {
      assert bytes[..1][1..] == [] && bytes[..0] == [];
    } else {
      EncodeBytesNext(bytes[1..], i - 1);
      assert bytes[..i + 1][1..] == bytes[1..][..i] && bytes[..i][1..] == bytes[1..][..i - 1];
    }
  }

  /** Encodes a component byte by byte into a buffer. */
  method EncodeKeyComponent(component: string) returns (out: string)
    ensures out == EncodeComponent(component)
    ensures forall c | c in out :: IsKept(c as int) || c == '='
  {
    var bytes := Utf8.Encode(component);
    out := "";
    for i := 0 to |bytes|
      invariant out == EncodeBytes(bytes[..i])
      invariant forall c | c in out :: IsKept(c as int) || c == '='
    {
      EncodeBytesNext(bytes, i);
      var b := bytes[i];
      if IsKept(b) {
        out := out + [b as char];
      } else {
        out := out + ['=', UpperDigit(b / 16), UpperDigit(b % 16)];
      }
    }
    assert bytes[..|bytes|] == bytes;
  }

  /** The bytes an encoded component stands for. */
  function DecodeBytes(s: string): seq<int> {
    if s == "" then []
    else if s[0] != '=' then [s[0] as int] + DecodeBytes(s[1..])
    else if |s| < 3 then []
    else [16 * UpperValue(s[1]) + UpperValue(s[2])] + DecodeBytes(s[3..])
  }

  function UpperValue(c: char): int {
    if c <= '9' then c as int - '0' as int else c as int - 'A' as int + 10
  }

  lemma UpperDigitBack(d: int)
    requires 0 <= d < 16
    ensures UpperValue(UpperDigit(d)) == d
  {
  }

  lemma DecodeFirst(b: Byte, rest: string)
    ensures DecodeBytes(EncodeByte(b) + rest) == [b] + DecodeBytes(rest)
  {
    var s := EncodeByte(b) + rest;
    if IsKept(b) {
      assert s[1..] == rest;
    } else {
      UpperDigitBack(b / 16);
      UpperDigitBack(b % 16);
      assert s[3..] == rest;
    }
  }

  /** Decoding inverts encoding, on all byte strings. */
  lemma {:induction false} DecodeEncoded(bytes: seq<Byte>)
    ensures DecodeBytes(EncodeBytes(bytes)) == bytes
  {
    if bytes != [] {
      DecodeFirst(bytes[0], EncodeBytes(bytes[1..]));
      DecodeEncoded(bytes[1..]);
      assert bytes == [bytes[0]] + bytes[1..];
    }
  }

  lemma ComponentInjective(a: string, b: string)
    requires EncodeComponent(a) == EncodeComponent(b)
    ensures a == b
  {
    DecodeEncoded(Utf8.Encode(a));
    DecodeEncoded(Utf8.Encode(b));
    Utf8.EncodeInjective(a, b);
  }

  // ── Session-scoped keys ─────────────────────────────────────────────────────

  function SessionScopedKey(session: Option<string>, id: string): string {
    match session
    case Some(s) => EncodeComponent(s) + "_" + EncodeComponent(id)
    case None => id
  }

  // A text with a single underscore splits one way.
  lemma SplitAtUnderscore(a: string, b: string, a': string, b': string)
    requires '_' !in a && '_' !in a' && a + "_" + b == a' + "_" + b'
    ensures a == a' && b == b'
  {
    var t := a + "_" + b;
    assert t[|a|] == '_' && t[|a'|] == '_';
    assert forall k | 0 <= k < |a| :: t[k] == a[k] != '_';
    assert forall k | 0 <= k < |a'| :: t[k] == a'[k] != '_';
    assert |a| == |a'|;
    assert t[..|a|] == a && t[..|a'|] == a' && t[|a| + 1..] == b && t[|a'| + 1..] == b';
  }

  lemma OneUnderscore(a: string, b: string)
    requires '_' !in a && '_' !in b
    ensures forall i | 0 <= i < |a + "_" + b| :: (a + "_" + b)[i] == '_' <==> i == |a|
  {
    var key := a + "_" + b;
    forall i | 0 <= i < |key| ensures key[i] == '_' <==> i == |a| {
      if i < |a| { assert key[i] in a; } else if i > |a| { assert key[i] == b[i - |a| - 1]; }
    }
  }

  /** A session-scoped key has exactly one underscore, right after the session, and determines both
      the session and the id: no two sessions share a key. */
  lemma SessionKeyDetermines(s: string, id: string, s': string, id': string)
    ensures var key := SessionScopedKey(Some(s), id);
      |EncodeComponent(s)| < |key| && forall i | 0 <= i < |key| :: key[i] == '_' <==> i == |EncodeComponent(s)|
    ensures SessionScopedKey(Some(s), id) == SessionScopedKey(Some(s'), id') <==> s == s' && id == id'
    ensures SessionScopedKey(None, id) == id
  {
    hide EncodeComponent;
    var (a, b) := (EncodeComponent(s), EncodeComponent(id));
    OneUnderscore(a, b);
    if SessionScopedKey(Some(s), id) == SessionScopedKey(Some(s'), id') {
      SplitAtUnderscore(a, b, EncodeComponent(s'), EncodeComponent(id'));
      ComponentInjective(s, s');
      ComponentInjective(id, id');
    }
  }

  // ── Handoff streams ─────────────────────────────────────────────────────────

  datatype RoleRef = Role(name: string) | Agent(name: string)

  function Kind(r: RoleRef): string { if r.Role? then "role" else "agent" }

  predicate RouteChar(c: char) { IsKept(c as int) }

  function Sanitize(s: string): string {
    if s == "" then "" else [if RouteChar(s[0]) then s[0] else '_'] + Sanitize(s[1..])
  }

  // `role:<name>` or `agent:<name>`, with everything but letters, digits and `-` replaced.
  function Route(r: RoleRef): string { Sanitize(Kind(r) + ":" + r.name) }

  function StreamFor(session: Option<string>, r: RoleRef): string {
    match session
    case Some(s) => "handoff-" + (EncodeComponent(s) + "_" + Route(r))
    case None => "handoff-" + Route(r)
  }

  lemma {:induction false} SanitizeConcat(a: string, b: string)
    ensures Sanitize(a + b) == Sanitize(a) + Sanitize(b)
  {
    if a == "" {
      assert a + b == b;
    } else {
      SanitizeConcat(a[1..], b);
      assert (a + b)[1..] == a[1..] + b;
    }
  }

  lemma {:induction false} SanitizeKeepsPlain(s: string)
    requires forall c | c in s :: RouteChar(c)
    ensures Sanitize(s) == s
  {
    if s != "" {
      assert s[0] in s && forall c | c in s[1..] :: c in s;
      SanitizeKeepsPlain(s[1..]);
    }
  }

  lemma RouteIs(r: RoleRef)
    ensures Route(r) == Kind(r) + "_" + Sanitize(r.name) && '_' !in Kind(r)
  {
    SanitizeConcat(Kind(r) + ":", r.name);
    SanitizeConcat(Kind(r), ":");
    SanitizeKeepsPlain(Kind(r));
    assert Sanitize(":") == "_" by { assert ":"[1..] == ""; }
  }

  lemma KindDetermines(r: RoleRef, r': RoleRef)
    requires Kind(r) == Kind(r')
    ensures r.Role? == r'.Role?
  {
    assert |"role"| != |"agent"|;
  }

  lemma HandoffPrefix(a: string, b: string)
    requires "handoff-" + a == "handoff-" + b
    ensures a == b
  {
    assert ("handoff-" + a)[8..] == a && ("handoff-" + b)[8..] == b;
  }

  // The names agree but for characters that are no letter, digit or dash.
  predicate LookAlike(a: string, b: string) {
    |a| == |b| && forall i | 0 <= i < |a| :: a[i] == b[i] || (!PlainChar(a[i]) && !PlainChar(b[i]))
  }

  predicate PlainChar(c: char) { 'a' <= c <= 'z' || 'A' <= c <= 'Z' || '0' <= c <= '9' || c == '-' }

  lemma {:induction false} SanitizeAlike(a: string, b: string)
    ensures |Sanitize(a)| == |a|
    ensures Sanitize(a) == Sanitize(b) <==> LookAlike(a, b)
  {
    if a == "" || b == "" {
      assert a != "" ==> |Sanitize(a)| > 0;
      assert b != "" ==> |Sanitize(b)| > 0;
      if a != "" { SanitizeAlike(a[1..], b); }
    } else {
      SanitizeAlike(a[1..], b[1..]);
      var x, y := Sanitize(a), Sanitize(b);
      assert x == y <==> x[0] == y[0] && x[1..] == y[1..] by {
        if x[0] == y[0] && x[1..] == y[1..] { assert x == [x[0]] + x[1..] && y == [y[0]] + y[1..]; }
      }
      assert LookAlike(a, b) <==> (a[0] == b[0] || (!PlainChar(a[0]) && !PlainChar(b[0]))) && LookAlike(a[1..], b[1..]) by {
        assert forall i | 1 <= i < |a| :: a[i] == a[1..][i - 1];
        assert forall i | 1 <= i < |b| :: b[i] == b[1..][i - 1];
        assert forall i | 0 <= i < |a| - 1 :: a[1..][i] == a[i + 1];
        assert forall i | 0 <= i < |b| - 1 :: b[1..][i] == b[i + 1];
      }
    }
  }

  /** Letters, digits and dashes stand for themselves, in keys and in stream names. */
  lemma PlainStays(s: string)
    requires forall c | c in s :: PlainChar(c)
    ensures EncodeComponent(s) == s && Sanitize(s) == s
  {
    PlainComponent(s);
    SanitizeKeepsPlain(s);
  }

  /** Handoffs of different sessions never share a stream; within a session two recipients share one
      exactly when they are of one kind and their names agree after replacement. */
  lemma SessionStreamsExactly(s: string, r: RoleRef, s': string, r': RoleRef)
    ensures StreamFor(Some(s), r) == StreamFor(Some(s'), r')
      <==> s == s' && r.Role? == r'.Role? && LookAlike(r.name, r'.name)
  {
    SanitizeAlike(r.name, r'.name);
    RouteIs(r);
    RouteIs(r');
    hide Route, Sanitize, EncodeComponent, LookAlike;
    if StreamFor(Some(s), r) == StreamFor(Some(s'), r') {
      HandoffPrefix(EncodeComponent(s) + "_" + Route(r), EncodeComponent(s') + "_" + Route(r'));
      SplitAtUnderscore(EncodeComponent(s), Route(r), EncodeComponent(s'), Route(r'));
      ComponentInjective(s, s');
      SplitAtUnderscore(Kind(r), Sanitize(r.name), Kind(r'), Sanitize(r'.name));
      KindDetermines(r, r');
    }
  }

  /** A session's stream meets one without a session exactly for a session called `role` or `agent`
      after the other recipient's kind, whose recipients spell out the rest of the name. */
  lemma SessionlessClashExactly(s: string, r: RoleRef, r': RoleRef)
    ensures StreamFor(Some(s), r) == StreamFor(None, r')
      <==> s == Kind(r') && Kind(r) + "_" + Sanitize(r.name) == Sanitize(r'.name)
  {
    RouteIs(r);
    RouteIs(r');
    PlainComponent(Kind(r'));
    hide Route, Sanitize, EncodeComponent;
    if StreamFor(Some(s), r) == StreamFor(None, r') {
      HandoffPrefix(EncodeComponent(s) + "_" + Route(r), Route(r'));
      SplitAtUnderscore(EncodeComponent(s), Route(r), Kind(r'), Sanitize(r'.name));
      ComponentInjective(s, Kind(r'));
    }
  }

  // Letters and digits encode to themselves.
  lemma {:induction false} PlainComponent(s: string)
    requires forall c | c in s :: RouteChar(c)
    ensures EncodeComponent(s) == s
  {
    if s != "" {
      assert s[0] in s && forall c | c in s[1..] :: c in s;
      PlainComponent(s[1..]);
      assert Utf8.Encode(s)[0] == s[0] as int && Utf8.Encode(s)[1..] == Utf8.Encode(s[1..]);
      assert s == [s[0]] + s[1..];
    }
  }
}
