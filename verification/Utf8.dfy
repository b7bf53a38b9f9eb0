/** Texts as bytes: UTF-8, and big-endian lengths. */
module Utf8 {
  import opened Wrappers
  import opened Text

  // The UTF-8 form of one character (section 3 of RFC 3629).
  function EncodeChar(c: char): (bytes: seq<Byte>)
    ensures 1 <= |bytes| <= 4
  {
    var n := c as int;
    if n < 0x80 then [n]
    else if n < 0x800 then [0xC0 + n / 64, 0x80 + n % 64]
    else if n < 0x1_0000 then [0xE0 + n / 64 / 64, 0x80 + n / 64 % 64, 0x80 + n % 64]
    else [0xF0 + n / 64 / 64 / 64, 0x80 + n / 64 / 64 % 64, 0x80 + n / 64 % 64, 0x80 + n % 64]
  }

  function Encode(s: string): (bytes: seq<Byte>)
    ensures |bytes| >= |s|
  {
    if s == "" then [] else EncodeChar(s[0]) + Encode(s[1..])
  }

  // How many bytes a character takes, from its first byte.
  function Width(first: Byte): nat {
    if first < 0x80 then 1 else if first < 0xE0 then 2 else if first < 0xF0 then 3 else 4
  }

  lemma CharWidth(c: char)
    ensures |EncodeChar(c)| == Width(EncodeChar(c)[0])
  {
  }

  // The character number some bytes stand for.
  function CodeOf(b: seq<Byte>): int
    requires 1 <= |b| <= 4
  {
    var n: seq<int> := b;
    if |n| == 1 then n[0]
    else if |n| == 2 then (n[0] - 0xC0) * 64 + (n[1] - 0x80)
    else if |n| == 3 then ((n[0] - 0xE0) * 64 + (n[1] - 0x80)) * 64 + (n[2] - 0x80)
    else (((n[0] - 0xF0) * 64 + (n[1] - 0x80)) * 64 + (n[2] - 0x80)) * 64 + (n[3] - 0x80)
  }

  lemma CharCode(c: char)
    ensures CodeOf(EncodeChar(c)) == c as int
  {
    var n := c as int;
    assert n == n / 64 * 64 + n % 64;
    assert n / 64 == n / 64 / 64 * 64 + n / 64 % 64;
    assert n / 64 / 64 == n / 64 / 64 / 64 * 64 + n / 64 / 64 % 64;
  }

  lemma PeelChar(c: char, rest: seq<Byte>, d: char, rest': seq<Byte>)
    requires EncodeChar(c) + rest == EncodeChar(d) + rest'
    ensures c == d && rest == rest'
  {
    CharWidth(c);
    CharWidth(d);
    CharCode(c);
    CharCode(d);
    hide EncodeChar, CodeOf;
    var t, n := EncodeChar(c) + rest, |EncodeChar(c)|;
    assert t[0] == EncodeChar(c)[0] == EncodeChar(d)[0];
    assert t[..n] == EncodeChar(c) == EncodeChar(d);
    assert t[n..] == rest == rest';
    assert c as int == d as int;
  }

  lemma {:induction false} EncodeInjective(a: string, b: string)
    requires Encode(a) == Encode(b)
    ensures a == b
  {
    if a != "" && b != "" {
      PeelChar(a[0], Encode(a[1..]), b[0], Encode(b[1..]));
      EncodeInjective(a[1..], b[1..]);
      assert a == [a[0]] + a[1..] && b == [b[0]] + b[1..];
    }
  }

  // ── Decoding ────────────────────────────────────────────────────────────────

  const REPLACEMENT: char := '\U{FFFD}'

  predicate Follows(b: Byte) { 0x80 <= b < 0xC0 }

  // Whether a second byte may follow this first one (section 4 of RFC 3629).
  predicate SecondFits(first: Byte, second: Byte) {
    if first == 0xE0 then 0xA0 <= second < 0xC0
    else if first == 0xED then 0x80 <= second < 0xA0
    else if first == 0xF0 then 0x90 <= second < 0xC0
    else if first == 0xF4 then 0x80 <= second < 0x90
    else Follows(second)
  }

  // How many bytes the character takes that starts with this byte; none starts with some bytes.
  function Announced(first: Byte): nat {
    if first < 0x80 then 1
    else if first < 0xC2 then 0
    else if first < 0xE0 then 2
    else if first < 0xF0 then 3
    else if first < 0xF5 then 4
    else 0
  }

  /** The next piece of some bytes: one whole character, or the longest start of one that is broken
      off or spoilt. */
  datatype Piece = Whole(width: nat) | Broken(width: nat)

  function NextPiece(b: seq<Byte>): (p: Piece)
    requires b != []
    ensures 1 <= p.width <= |b| && p.width <= 4
  {
    var w := Announced(b[0]);
    if w == 0 then Broken(1)
    else if w == 1 then Whole(1)
    else if |b| < 2 || !SecondFits(b[0], b[1]) then Broken(1)
    else if w == 2 then Whole(2)
    else if |b| < 3 || !Follows(b[2]) then Broken(2)
    else if w == 3 then Whole(3)
    else if |b| < 4 || !Follows(b[3]) then Broken(3)
    else Whole(4)
  }

  predicate IsScalar(n: int) { 0 <= n < 0xD800 || 0xE000 <= n < 0x11_0000 }

  function CharOf(b: seq<Byte>): char
    requires 1 <= |b| <= 4
  {
    if IsScalar(CodeOf(b)) then CodeOf(b) as char else REPLACEMENT
  }

  /** Reading text that may be damaged: each broken piece becomes one replacement character. */
  function Lossy(b: seq<Byte>): string {
    if b == [] then ""
    else
      var p := NextPiece(b);
      [if p.Whole? then CharOf(b[..p.width]) else REPLACEMENT] + Lossy(b[p.width..])
  }

  /** A byte that starts no character is one replacement character, and reading goes on behind it. */
  lemma StrayByte(b: Byte, rest: seq<Byte>)
    requires 0x80 <= b < 0xC2 || b >= 0xF5
    ensures Lossy([b] + rest) == [REPLACEMENT] + Lossy(rest)
  {
    assert ([b] + rest)[1..] == rest;
  }

  // Text with no broken piece.
  predicate IsText(b: seq<Byte>) {
    b == [] || (NextPiece(b).Whole? && IsText(b[NextPiece(b).width..]))
  }

  /** Reading text strictly: nothing comes of bytes with a broken piece. */
  function Decode(b: seq<Byte>): Option<string> {
    if IsText(b) then Some(Lossy(b)) else None
  }

  lemma CharScalar(c: char)
    ensures IsScalar(c as int)
  {
  }

  lemma PieceOfShortChar(c: char, rest: seq<Byte>)
    requires c as int < 0x800
    ensures NextPiece(EncodeChar(c) + rest) == Whole(|EncodeChar(c)|)
    ensures |EncodeChar(c)| == 2 ==> (rest == [] || rest[0] < 0x80 ==> NextPiece([EncodeChar(c)[0]] + rest) == Broken(1))
  {
  }

  // A character of three bytes, whole or cut.
  lemma PieceOfThree(c: char, rest: seq<Byte>)
    requires 0x800 <= c as int < 0x1_0000
    ensures NextPiece(EncodeChar(c) + rest) == Whole(3)
    ensures rest == [] || rest[0] < 0x80 ==>
      && NextPiece(EncodeChar(c)[..1] + rest) == Broken(1)
      && NextPiece(EncodeChar(c)[..2] + rest) == Broken(2)
  {
    var n := c as int;
    CharScalar(c);
    var e := EncodeChar(c);
    assert e[0] == 0xE0 + n / 64 / 64 && e[1] == 0x80 + n / 64 % 64;
    assert n / 64 == n / 64 / 64 * 64 + n / 64 % 64;
    assert 0xE0 <= e[0] < 0xF0;
    assert SecondFits(e[0], e[1]);
  }

  lemma PieceOfFour(c: char, rest: seq<Byte>)
    requires 0x1_0000 <= c as int
    ensures NextPiece(EncodeChar(c) + rest) == Whole(4)
    ensures rest == [] || rest[0] < 0x80 ==>
      && NextPiece(EncodeChar(c)[..1] + rest) == Broken(1)
      && NextPiece(EncodeChar(c)[..2] + rest) == Broken(2)
      && NextPiece(EncodeChar(c)[..3] + rest) == Broken(3)
  {
    var n := c as int;
    CharScalar(c);
    var e := EncodeChar(c);
    assert e[0] == 0xF0 + n / 64 / 64 / 64 && e[1] == 0x80 + n / 64 / 64 % 64;
    assert n / 64 / 64 == n / 64 / 64 / 64 * 64 + n / 64 / 64 % 64;
    assert 0xF0 <= e[0] < 0xF5;
    assert SecondFits(e[0], e[1]);
  }

  /** The bytes of a character are one whole piece, whatever follows. */
  lemma PieceOfChar(c: char, rest: seq<Byte>)
    ensures NextPiece(EncodeChar(c) + rest) == Whole(|EncodeChar(c)|)
  {
    if c as int < 0x800 { PieceOfShortChar(c, rest); }
    else if c as int < 0x1_0000 { PieceOfThree(c, rest); }
    else { PieceOfFour(c, rest); }
  }

  /** A character cut short is one broken piece. */
  lemma PieceOfCutChar(c: char, m: nat, rest: seq<Byte>)
    requires 0 < m < |EncodeChar(c)| && (rest == [] || rest[0] < 0x80)
    ensures NextPiece(EncodeChar(c)[..m] + rest) == Broken(m)
  {
    if c as int < 0x800 {
      PieceOfShortChar(c, rest);
      assert EncodeChar(c)[..1] == [EncodeChar(c)[0]];
    } else if c as int < 0x1_0000 {
      PieceOfThree(c, rest);
    } else {
      PieceOfFour(c, rest);
    }
  }

  lemma CharOfEncoded(c: char)
    ensures CharOf(EncodeChar(c)) == c
  {
    CharCode(c);
    CharScalar(c);
  }

  // One character first.
  lemma LossyFirst(c: char, rest: seq<Byte>)
    ensures Lossy(EncodeChar(c) + rest) == [c] + Lossy(rest)
    ensures IsText(EncodeChar(c) + rest) <==> IsText(rest)
  {
    PieceOfChar(c, rest);
    CharOfEncoded(c);
    hide EncodeChar, NextPiece, CharOf;
    var b, w := EncodeChar(c) + rest, |EncodeChar(c)|;
    assert b[..w] == EncodeChar(c) && b[w..] == rest;
  }

  lemma EmptyText(rest: seq<Byte>)
    ensures Encode("") == [] && [] + rest == rest && Lossy([]) == "" && IsText([])
  {
  }

  lemma HeadAndTail(s: string)
    requires s != ""
    ensures s == [s[0]] + s[1..] && Encode(s) == EncodeChar(s[0]) + Encode(s[1..])
  {
  }

  /** Decoding inverts encoding, and goes on with what follows. */
  lemma {:induction false} LossyEncoded(s: string, rest: seq<Byte>)
    ensures Lossy(Encode(s) + rest) == s + Lossy(rest)
    ensures IsText(Encode(s) + rest) <==> IsText(rest)
    decreases |s|
  {
    hide *;
    if s == "" {
      EmptyText(rest);
      assert s + Lossy(rest) == Lossy(rest);
    } else {
      HeadAndTail(s);
      LossyFirst(s[0], Encode(s[1..]) + rest);
      LossyEncoded(s[1..], rest);
      Associate(EncodeChar(s[0]), Encode(s[1..]), rest);
      Associate([s[0]], s[1..], Lossy(rest));
    }
  }

  lemma DecodeEncoded(s: string)
    ensures Decode(Encode(s)) == Some(s)
  {
    LossyEncoded(s, []);
    assert Encode(s) + [] == Encode(s) && s + "" == s;
  }

  lemma PieceStops(a: seq<Byte>, b: seq<Byte>)
    requires a != [] && (b == [] || b[0] < 0x80)
    ensures NextPiece(a + b) == NextPiece(a)
  {
  }

  lemma LossyUnfold(b: seq<Byte>)
    requires b != []
    ensures var p := NextPiece(b);
      && Lossy(b) == [if p.Whole? then CharOf(b[..p.width]) else REPLACEMENT] + Lossy(b[p.width..])
      && (IsText(b) <==> p.Whole? && IsText(b[p.width..]))
  {
  }

  lemma TakeOfConcat<T>(a: seq<T>, b: seq<T>, n: nat)
    requires n <= |a|
    ensures (a + b)[..n] == a[..n] && (a + b)[n..] == a[n..] + b
  {
  }

  lemma PieceWidth(b: seq<Byte>)
    requires b != []
    ensures 1 <= NextPiece(b).width <= |b|
  {
  }

  /** An ASCII byte never belongs to a piece begun before it. */
  lemma {:induction false} LossyConcat(a: seq<Byte>, b: seq<Byte>)
    requires b == [] || b[0] < 0x80
    ensures Lossy(a + b) == Lossy(a) + Lossy(b)
    ensures IsText(a + b) <==> IsText(a) && IsText(b)
    decreases |a|
  {
    hide *;
    if a == [] {
      EmptyText(b);
      assert "" + Lossy(b) == Lossy(b);
    } else {
      PieceStops(a, b);
      PieceWidth(a);
      var w := NextPiece(a).width;
      LossyConcat(a[w..], b);
      TakeOfConcat(a, b, w);
      LossyUnfold(a);
      LossyUnfold(a + b);
      var first := [if NextPiece(a).Whole? then CharOf(a[..w]) else REPLACEMENT];
      Associate(first, Lossy(a[w..]), Lossy(b));
    }
  }

  lemma {:induction false} EncodeConcat(a: string, b: string)
    ensures Encode(a + b) == Encode(a) + Encode(b)
  {
    hide *;
    if a == "" {
      EmptyText(Encode(b));
      assert a + b == b;
    } else {
      EncodeConcat(a[1..], b);
      assert (a + b)[1..] == a[1..] + b && (a + b)[0] == a[0];
      HeadAndTail(a);
      HeadAndTail(a + b);
      Associate(EncodeChar(a[0]), Encode(a[1..]), Encode(b));
    }
  }

  /** Where a cut falls: between two characters, or inside one that takes more than one byte. */
  lemma {:induction false} CutAnywhere(s: string, n: nat) returns (k: nat, m: nat)
    requires n <= |Encode(s)|
    ensures k <= |s|
    ensures m == 0 ==> Encode(s)[..n] == Encode(s[..k])
    ensures m > 0 ==> k < |s| && m < |EncodeChar(s[k])| && Encode(s)[..n] == Encode(s[..k]) + EncodeChar(s[k])[..m]
    decreases |s|
  {
    hide *;
    if n == 0 {
      k, m := 0, 0;
      EmptyText([]);
      assert s[..0] == "";
    } else if s == "" {
      EmptyText([]);
      assert false;
    } else {
      HeadAndTail(s);
      var first, rest := EncodeChar(s[0]), Encode(s[1..]);
      if n < |first| {
        k, m := 0, n;
        TakeOfConcat(first, rest, n);
        assert s[..0] == "";
        EmptyText(first[..n]);
      } else {
        k, m := CutAnywhere(s[1..], n - |first|);
        assert (first + rest)[..n] == first + rest[..n - |first|];
        HeadAndTail(s[..k + 1]);
        assert s[..k + 1][1..] == s[1..][..k] && s[..k + 1][0] == s[0];
        if m > 0 {
          assert s[1..][k] == s[k + 1];
          Associate(first, Encode(s[1..][..k]), EncodeChar(s[k + 1])[..m]);
        }
        k := k + 1;
      }
    }
  }

  // A character that can be cut inside is not ASCII.
  lemma LongChar(c: char)
    ensures |EncodeChar(c)| > 1 <==> c as int >= 0x80
  {
  }

  predicate IsAscii(s: string) { forall i | 0 <= i < |s| :: s[i] as int < 0x80 }

  // Every character that is not ASCII can be cut inside.
  lemma {:induction false} CutInside(s: string, k: nat) returns (n: nat)
    requires k < |s| && s[k] as int >= 0x80
    ensures 0 < n < |Encode(s)| && Encode(s)[..n] == Encode(s[..k]) + EncodeChar(s[k])[..1]
  {
    hide *;
    HeadAndTail(s);
    var first, rest := EncodeChar(s[0]), Encode(s[1..]);
    if k == 0 {
      LongChar(s[0]);
      n := 1;
      assert s[..0] == "";
      EmptyText(first[..1]);
      TakeOfConcat(first, rest, 1);
    } else {
      var n' := CutInside(s[1..], k - 1);
      HeadAndTail(s[..k]);
      assert s[..k][1..] == s[1..][..k - 1] && s[..k][0] == s[0] && s[1..][k - 1] == s[k];
      n := n' + |first|;
      assert (first + rest)[..n] == first + rest[..n'];
      Associate(first, Encode(s[1..][..k - 1]), EncodeChar(s[k])[..1]);
    }
  }

  // A whole piece of one or two bytes is the encoding of its character.
  lemma ShortPieceIsChar(b: seq<Byte>)
    requires 1 <= |b| <= 2 && NextPiece(b) == Whole(|b|)
    ensures EncodeChar(CharOf(b)) == b
  {
    if |b| == 2 {
      var n := CodeOf(b);
      assert n == (b[0] as int - 0xC0) * 64 + (b[1] as int - 0x80);
      assert n / 64 == b[0] as int - 0xC0 && n % 64 == b[1] as int - 0x80;
    }
  }

  lemma PieceOfThreeIsChar(b: seq<Byte>)
    requires |b| == 3 && NextPiece(b) == Whole(3)
    ensures EncodeChar(CharOf(b)) == b
  {
    var x, y, z := b[0] as int - 0xE0, b[1] as int - 0x80, b[2] as int - 0x80;
    var n := CodeOf(b);
    assert n == (x * 64 + y) * 64 + z;
    Split64(x * 64 + y, z);
    Split64(x, y);
    assert 0 <= x < 16 && 0 <= y < 64;
    assert 0x800 <= n && IsScalar(n);
  }

  lemma PieceOfFourIsChar(b: seq<Byte>)
    requires |b| == 4 && NextPiece(b) == Whole(4)
    ensures EncodeChar(CharOf(b)) == b
  {
    var w, x, y, z := b[0] as int - 0xF0, b[1] as int - 0x80, b[2] as int - 0x80, b[3] as int - 0x80;
    var n := CodeOf(b);
    assert n == ((w * 64 + x) * 64 + y) * 64 + z;
    Split64((w * 64 + x) * 64 + y, z);
    Split64(w * 64 + x, y);
    Split64(w, x);
    assert 0x1_0000 <= n && IsScalar(n);
  }

  lemma Split64(a: int, b: int)
    requires 0 <= b < 64
    ensures (a * 64 + b) / 64 == a && (a * 64 + b) % 64 == b
  {
  }

  lemma PieceOfTake(b: seq<Byte>)
    requires b != [] && NextPiece(b).Whole?
    ensures NextPiece(b[..NextPiece(b).width]) == NextPiece(b)
  {
  }

  lemma WholePieceIsChar(b: seq<Byte>)
    requires b != [] && NextPiece(b).Whole?
    ensures EncodeChar(CharOf(b[..NextPiece(b).width])) == b[..NextPiece(b).width]
  {
    PieceOfTake(b);
    PieceWidth(b);
    var c := b[..NextPiece(b).width];
    assert NextPiece(c) == Whole(|c|) && 1 <= |c| <= 4;
    hide NextPiece, EncodeChar, CharOf;
    if |c| <= 2 { ShortPieceIsChar(c); } else if |c| == 3 { PieceOfThreeIsChar(c); } else { PieceOfFourIsChar(c); }
  }

  lemma TextUnfold(b: seq<Byte>)
    requires b != [] && IsText(b)
    ensures
      var w := NextPiece(b).width;
      1 <= w <= |b| && IsText(b[w..]) && Encode(Lossy(b)) == b[..w] + Encode(Lossy(b[w..]))
  {
    hide *;
    LossyUnfold(b);
    PieceWidth(b);
    WholePieceIsChar(b);
    HeadAndTail(Lossy(b));
    assert Lossy(b)[1..] == Lossy(b[NextPiece(b).width..]);
  }

  lemma {:induction false} TextIsEncoded(b: seq<Byte>)
    requires IsText(b)
    ensures Encode(Lossy(b)) == b
  {
    hide *;
    if b == [] {
      EmptyText([]);
    } else {
      TextUnfold(b);
      var w := NextPiece(b).width;
      TextIsEncoded(b[w..]);
      assert b == b[..w] + b[w..];
    }
  }

  /** Decoding accepts exactly the encodings of texts, and gives the text back. */
  lemma DecodeExactly(b: seq<Byte>, s: string)
    ensures Decode(b) == Some(s) <==> Encode(s) == b
  {
    if IsText(b) { TextIsEncoded(b); }
    if Encode(s) == b { DecodeEncoded(s); }
  }

  // ── Big-endian numbers ──────────────────────────────────────────────────────

  function Pow256(k: nat): (p: nat)
    ensures p > 0
  {
    if k == 0 then 1 else 256 * Pow256(k - 1)
  }

  // `k` bytes, the most significant first.
  function BigEndian(n: nat, k: nat): (bytes: seq<Byte>)
    ensures |bytes| == k
  {
    if k == 0 then [] else BigEndian(n / 256, k - 1) + [n % 256]
  }

  function FromBigEndian(bytes: seq<Byte>): nat {
    if bytes == [] then 0 else 256 * FromBigEndian(bytes[..|bytes| - 1]) + bytes[|bytes| - 1]
  }

  lemma {:induction false} BigEndianBack(n: nat, k: nat)
    requires n < Pow256(k)
    ensures FromBigEndian(BigEndian(n, k)) == n
  {
    if k > 0 {
      BigEndianBack(n / 256, k - 1);
      assert BigEndian(n, k)[..k - 1] == BigEndian(n / 256, k - 1);
    }
  }

  // The greatest number of `k` bytes.
  lemma {:induction false} GreatestNumber(k: nat)
    ensures BigEndian(Pow256(k) - 1, k) == seq(k, i => 255)
  {
    if k > 0 {
      GreatestNumber(k - 1);
      assert (256 * Pow256(k - 1) - 1) / 256 == Pow256(k - 1) - 1;
    }
  }

  lemma BigEndianInjective(a: nat, b: nat, k: nat)
    requires a < Pow256(k) && b < Pow256(k) && BigEndian(a, k) == BigEndian(b, k)
    ensures a == b
  {
    BigEndianBack(a, k);
    BigEndianBack(b, k);
  }
}
