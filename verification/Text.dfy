/** Small texts that are joined and must be taken apart again: decimal numbers, hex strings, and
    fields ended by newlines. */
module Text {
  import opened Wrappers

  // ── Decimal numbers ─────────────────────────────────────────────────────────

  function Digit(d: int): (c: char)
    requires 0 <= d < 10
    ensures '0' <= c <= '9' && c as int == '0' as int + d
  {
    ('0' as int + d) as char
  }

  predicate AllDigits(s: string) { forall i | 0 <= i < |s| :: '0' <= s[i] <= '9' }

  function Dec(n: nat): (s: string)
    ensures s != "" && AllDigits(s)
  {
    if n < 10 then [Digit(n)] else Dec(n / 10) + [Digit(n % 10)]
  }

  function DecInt(n: int): string {
    if n < 0 then "-" + Dec(-n) else Dec(n)
  }

  function Value(s: string): nat
    requires AllDigits(s)
  {
    if s == "" then 0
    else 10 * Value(s[..|s| - 1]) + (s[|s| - 1] as int - '0' as int)
  }

  lemma {:induction false} ValueOfDec(n: nat)
    ensures AllDigits(Dec(n)) && Value(Dec(n)) == n
  {
    if n < 10 {
      assert Dec(n)[..0] == "";
    } else {
      ValueOfDec(n / 10);
      assert Dec(n)[..|Dec(n)| - 1] == Dec(n / 10);
    }
  }

  lemma DecInjective(a: nat, b: nat)
    requires Dec(a) == Dec(b)
    ensures a == b
  {
    ValueOfDec(a);
    ValueOfDec(b);
  }

  lemma DecIntInjective(a: int, b: int)
    requires DecInt(a) == DecInt(b)
    ensures a == b
  {
    var x, y := DecInt(a), DecInt(b);
    assert a >= 0 ==> x[0] in Dec(a);
    assert b >= 0 ==> y[0] in Dec(b);
    if a < 0 {
      assert x[1..] == Dec(-a) && y[1..] == Dec(-b);
      DecInjective(-a, -b);
    } else {
      DecInjective(a, b);
    }
  }

  lemma DecIntIsOneLine(n: int)
    ensures SingleLine(DecInt(n))
  {
  }

  // ── Fields ended by newlines ────────────────────────────────────────────────

  predicate SingleLine(s: string) { '\n' !in s }

  /** A newline-free field before a newline is determined by the text, and so is the rest. */
  lemma PeelField(x: string, rest: string, y: string, rest': string)
    requires x + "\n" + rest == y + "\n" + rest' && '\n' !in x && '\n' !in y
    ensures x == y && rest == rest'
  {
    var t := x + "\n" + rest;
    assert t[|x|] == '\n' && t[|y|] == '\n';
    assert forall k | 0 <= k < |x| :: t[k] == x[k] != '\n';
    assert forall k | 0 <= k < |y| :: t[k] == y[k] != '\n';
    assert |x| == |y|;
    assert t[..|x|] == x && t[..|y|] == y;
    assert t[|x| + 1..] == rest && t[|y| + 1..] == rest';
  }

  // The same from the other end.
  lemma PeelLastField(start: string, x: string, start': string, y: string)
    requires start + "\n" + x == start' + "\n" + y && '\n' !in x && '\n' !in y
    ensures start == start' && x == y
  {
    var t := start + "\n" + x;
    assert t[|start|] == '\n' && t[|start'|] == '\n';
    assert forall k | |start| < k < |t| :: t[k] == x[k - |start| - 1] != '\n';
    assert forall k | |start'| < k < |t| :: t[k] == y[k - |start'| - 1] != '\n';
    assert |start| == |start'|;
    assert t[..|start|] == start && t[..|start'|] == start';
    assert t[|start| + 1..] == x && t[|start'| + 1..] == y;
  }

  /** A text with exactly one newline splits in one way only, whatever the fields hold. */
  lemma PeelOnlyField(x: string, rest: string, y: string, rest': string)
    requires x + "\n" + rest == y + "\n" + rest' && '\n' !in y && '\n' !in rest'
    ensures x == y && rest == rest'
  {
    var t := y + "\n" + rest';
    assert (x + "\n" + rest)[|x|] == '\n';
    assert forall k | 0 <= k < |y| :: t[k] == y[k] != '\n';
    assert forall k | |y| < k < |t| :: t[k] == rest'[k - |y| - 1] != '\n';
    assert |x| == |y|;
    assert t[..|x|] == x && t[..|y|] == y;
    assert t[|x| + 1..] == rest && t[|y| + 1..] == rest';
  }

  // ── Hex ─────────────────────────────────────────────────────────────────────

  type Byte = b: int | 0 <= b < 256

  function HexDigit(d: int): (c: char)
    requires 0 <= d < 16
  {
    if d < 10 then ('0' as int + d) as char else ('a' as int + d - 10) as char
  }

  function HexValue(c: char): Option<nat> {
    if '0' <= c <= '9' then Some(c as int - '0' as int)
    else if 'a' <= c <= 'f' then Some(c as int - 'a' as int + 10)
    else if 'A' <= c <= 'F' then Some(c as int - 'A' as int + 10)
    else None
  }

  // Two characters as the source's radix parser reads them: it also takes a plus sign and a digit.
  function HexPair(a: char, b: char): Option<nat> {
    if HexValue(b).None? then None
    else if a == '+' then HexValue(b)
    else if HexValue(a).None? then None
    else Some(16 * HexValue(a).value + HexValue(b).value)
  }

  // Lower-case hex.
  function HexEncode(bytes: seq<Byte>): (s: string)
    ensures |s| == 2 * |bytes|
  {
    if bytes == [] then ""
    else [HexDigit(bytes[0] / 16), HexDigit(bytes[0] % 16)] + HexEncode(bytes[1..])
  }

  function HexDecode(s: string): Option<seq<nat>> {
    if s == "" then Some([])
    else if |s| == 1 then None
    else
      var (first, rest) := (HexPair(s[0], s[1]), HexDecode(s[2..]));
      if first.None? || rest.None? then None else Some([first.value] + rest.value)
  }

  lemma HexDigitBack(d: int)
    requires 0 <= d < 16
    ensures HexValue(HexDigit(d)) == Some(d) && HexDigit(d) != '+'
  {
  }

  lemma {:induction false} HexRoundTrip(bytes: seq<Byte>)
    ensures HexDecode(HexEncode(bytes)) == Some(bytes)
  {
    if bytes != [] {
      var b := bytes[0];
      HexDigitBack(b / 16);
      HexDigitBack(b % 16);
      HexRoundTrip(bytes[1..]);
      assert HexEncode(bytes)[2..] == HexEncode(bytes[1..]);
      assert bytes == [b] + bytes[1..];
    }
  }

  predicate IsUpperOf(u: char, c: char) { 'a' <= c <= 'f' && u as int + 32 == c as int }

  /** The parser reads other spellings of the same bytes: upper case, and a plus sign for a leading zero. */
  lemma HexSpellings(a: char, b: char, u: char)
    ensures HexPair('+', b) == HexPair('0', b)
    ensures IsUpperOf(u, a) ==> HexPair(u, b) == HexPair(a, b)
    ensures IsUpperOf(u, b) ==> HexPair(a, u) == HexPair(a, b)
    ensures HexPair(a, b).Some? <==> HexValue(b).Some? && (a == '+' || HexValue(a).Some?)
  {
  }

  predicate IsLowerHex(s: string) {
    |s| % 2 == 0 && forall c | c in s :: IsLowerDigit(c)
  }

  lemma {:induction false} HexEncodeIsLowerHex(bytes: seq<Byte>)
    ensures IsLowerHex(HexEncode(bytes))
  {
    if bytes != [] { HexEncodeIsLowerHex(bytes[1..]); }
  }

  predicate IsLowerDigit(c: char) { '0' <= c <= '9' || 'a' <= c <= 'f' }

  lemma HexPairInjective(a: char, b: char, a': char, b': char)
    requires IsLowerDigit(a) && IsLowerDigit(b) && IsLowerDigit(a') && IsLowerDigit(b')
    ensures HexPair(a, b).Some?
    ensures HexPair(a, b) == HexPair(a', b') ==> a == a' && b == b'
  {
  }

  lemma LowerHexSplit(s: string)
    requires IsLowerHex(s) && s != ""
    ensures |s| >= 2 && IsLowerDigit(s[0]) && IsLowerDigit(s[1]) && IsLowerHex(s[2..])
    ensures s == [s[0], s[1]] + s[2..]
    ensures HexDecode(s) == (
      var (first, rest) := (HexPair(s[0], s[1]), HexDecode(s[2..]));
      if first.None? || rest.None? then None else Some([first.value] + rest.value))
  {
    hide HexPair;
    assert s[0] in s && s[1] in s;
    TailStaysLower(s);
    hide IsLowerDigit;
  }

  lemma TailStaysLower(s: string)
    requires IsLowerHex(s) && |s| >= 2
    ensures IsLowerHex(s[2..])
  {
    hide IsLowerDigit;
    assert forall c | c in s[2..] :: c in s;
  }

  lemma {:induction false} LowerHexDecodes(s: string)
    requires IsLowerHex(s)
    ensures HexDecode(s).Some? && |HexDecode(s).value| * 2 == |s|
  {
    if s != "" {
      hide *;
      LowerHexSplit(s);
      HexPairInjective(s[0], s[1], s[0], s[1]);
      LowerHexDecodes(s[2..]);
    }
  }

  /** Two lower-case hex strings with the same bytes are the same string. */
  lemma {:induction false} LowerHexInjective(a: string, b: string)
    requires IsLowerHex(a) && IsLowerHex(b)
    requires HexDecode(a) == HexDecode(b)
    ensures a == b
  {
    LowerHexDecodes(a);
    LowerHexDecodes(b);
    if a != "" {
      hide *;
      LowerHexSplit(a);
      LowerHexSplit(b);
      LowerHexDecodes(a[2..]);
      LowerHexDecodes(b[2..]);
      HexPairInjective(a[0], a[1], b[0], b[1]);
      HexPairInjective(b[0], b[1], a[0], a[1]);
      var x, y := HexDecode(a).value, HexDecode(b).value;
      assert x[0] == y[0] && x[1..] == y[1..];
      assert x[1..] == HexDecode(a[2..]).value && y[1..] == HexDecode(b[2..]).value;
      LowerHexInjective(a[2..], b[2..]);
    }
  }
}
