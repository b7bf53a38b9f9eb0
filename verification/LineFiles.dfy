/** Files of record lines as bytes: what one append writes, what a crash inside it leaves, and how a
    lenient and a strict reader see the result. */
module LineFiles {
  import opened Wrappers
  import opened Text
  import opened JsonLines
  import opened Utf8

  const NEWLINE: Byte := 10

  predicate StartsLine(b: seq<Byte>) { b == [] || b[|b| - 1] == NEWLINE }

  lemma NewlineByte()
    ensures EncodeChar('\n') == [NEWLINE] && Encode("\n") == [NEWLINE] && Lossy([NEWLINE]) == "\n" && IsText([NEWLINE])
  {
    HeadAndTail("\n");
    DecodeEncoded("\n");
  }

  lemma NotNewline(b: seq<Byte>)
    requires b != [] && NextPiece(b) == Whole(|b|) && CharOf(b) == '\n'
    ensures b == [NEWLINE]
  {
    WholePieceIsChar(b);
    NewlineByte();
    assert b[..|b|] == b;
  }

  lemma LastOf<T>(a: seq<T>, b: seq<T>)
    requires b != []
    ensures (a + b)[|a + b| - 1] == b[|b| - 1]
  {
  }

  /** A lenient reader sees a line start exactly where the bytes have one. */
  lemma {:induction false} LineStartSeen(b: seq<Byte>)
    ensures StartsLine(b) <==> AtLineStart(Lossy(b))
    ensures b != [] ==> Lossy(b) != ""
    decreases |b|
  {
    if b != [] {
      LossyUnfold(b);
      PieceWidth(b);
      var w := NextPiece(b).width;
      hide NextPiece, Lossy, CharOf, Encode, EncodeChar, IsText;
      if w == |b| {
        EmptyText([]);
        assert b[..w] == b && b[w..] == [];
        NewlineByte();
        if b == [NEWLINE] {
        } else if NextPiece(b).Whole? && CharOf(b) == '\n' {
          NotNewline(b);
        }
      } else {
        LineStartSeen(b[w..]);
        assert b == b[..w] + b[w..];
        LastOf(b[..w], b[w..]);
        LastOf([if NextPiece(b).Whole? then CharOf(b[..w]) else REPLACEMENT], Lossy(b[w..]));
      }
    }
  }

  /** What follows a finished line is read on its own. */
  lemma LossyAfterLine(a: seq<Byte>, b: seq<Byte>)
    requires StartsLine(a)
    ensures Lossy(a + b) == Lossy(a) + Lossy(b)
    ensures IsText(a + b) <==> IsText(a) && IsText(b)
  {
    if a == [] {
      EmptyText(b);
      assert a + b == b && "" + Lossy(b) == Lossy(b);
    } else {
      hide *;
      var front := a[..|a| - 1];
      NewlineByte();
      EndsWithNewline(a);
      LossyConcat(front, [NEWLINE]);
      Associate(front, [NEWLINE], b);
      LossyFirst('\n', b);
      StartsAscii(b);
      LossyConcat(front, [NEWLINE] + b);
      Associate(Lossy(front), "\n", Lossy(b));
    }
  }

  lemma EndsWithNewline(a: seq<Byte>)
    requires a != [] && StartsLine(a)
    ensures a == a[..|a| - 1] + [NEWLINE]
  {
  }

  lemma StartsAscii(b: seq<Byte>)
    ensures ([NEWLINE] + b)[0] < 0x80
  {
  }

  // ── The lenient reader ──────────────────────────────────────────────────────

  function LossyRecords<T>(c: Codec<T>, b: seq<Byte>): seq<T> { Records(c, Lossy(b)) }

  function LossySkips<T>(c: Codec<T>, b: seq<Byte>): nat { Skips(c, Lossy(b)) }

  /** The bytes one append writes: a newline first when the file ends in a torn line. */
  function AppendBytes<T>(c: Codec<T>, b: seq<Byte>, rs: seq<T>): seq<Byte> {
    if rs == [] then []
    else (if StartsLine(b) then [] else [NEWLINE]) + Encode(EncodeAll(c, rs))
  }

  // No record cut short reads as one with a replacement character behind it.
  ghost predicate DamageShows<T(!new)>(c: Codec<T>) {
    forall r: T, m | 0 <= m < |c.enc(r)| :: c.dec(c.enc(r)[..m] + [REPLACEMENT]) == None
  }

  lemma AppendBytesAreBuffer<T>(c: Codec<T>, b: seq<Byte>, rs: seq<T>)
    ensures AppendBytes(c, b, rs) == Encode(AppendBuffer(c, Lossy(b), rs))
    ensures rs != [] && !StartsLine(b) ==> AppendBuffer(c, Lossy(b), rs)[..1] == "\n"
  {
    LineStartSeen(b);
    NewlineByte();
    EmptyText([]);
    hide Encode, EncodeAll;
    if rs != [] {
      EncodeConcat("\n", EncodeAll(c, rs));
      assert "" + EncodeAll(c, rs) == EncodeAll(c, rs) && [] + Encode(EncodeAll(c, rs)) == Encode(EncodeAll(c, rs));
    }
  }

  // Any start of an append is read on its own.
  lemma LossyOfAppended<T>(c: Codec<T>, b: seq<Byte>, rs: seq<T>, t: seq<Byte>)
    requires t <= AppendBytes(c, b, rs)
    ensures Lossy(b + t) == Lossy(b) + Lossy(t)
    ensures IsText(b + t) <==> IsText(b) && IsText(t)
  {
    if StartsLine(b) {
      LossyAfterLine(b, t);
    } else {
      assert t == [] || t[0] == NEWLINE;
      LossyConcat(b, t);
    }
  }

  lemma FittingStart(s: seq<Byte>, n: nat)
    requires n <= |s|
    ensures s[..n] <= s && s[..|s|] == s
  {
  }

  /** Log codec, on bytes: whatever the file holds, torn inside a character or not, one append adds
      exactly the new records, in order, and no new unreadable line. */
  lemma AppendAddsExactlyBytes<T(!new)>(c: Codec<T>, b: seq<Byte>, rs: seq<T>)
    requires Sound(c)
    ensures LossyRecords(c, b + AppendBytes(c, b, rs)) == LossyRecords(c, b) + rs
    ensures LossySkips(c, b + AppendBytes(c, b, rs)) == LossySkips(c, b)
  {
    hide *;
    var t := AppendBytes(c, b, rs);
    FittingStart(t, |t|);
    LossyOfAppended(c, b, rs, t);
    AppendBytesAreBuffer(c, b, rs);
    LossyOfText(AppendBuffer(c, Lossy(b), rs));
    AppendAddsExactly(c, Lossy(b), rs);
    LossyIs(c, b);
    LossyIs(c, b + t);
  }

  lemma LossyIs<T>(c: Codec<T>, b: seq<Byte>)
    ensures LossyRecords(c, b) == Records(c, Lossy(b)) && LossySkips(c, b) == Skips(c, Lossy(b))
  {
  }

  lemma LossyOfText(s: string)
    ensures Lossy(Encode(s)) == s && IsText(Encode(s))
  {
    DecodeEncoded(s);
  }

  // A text cut inside its next character reads as the text and one replacement character.
  lemma LossyOfCut(s: string, c: char, m: nat)
    requires 0 < m < |EncodeChar(c)|
    ensures Lossy(Encode(s) + EncodeChar(c)[..m]) == s + [REPLACEMENT]
    ensures !IsText(Encode(s) + EncodeChar(c)[..m])
  {
    var cut := EncodeChar(c)[..m];
    PieceOfCutChar(c, m, []);
    assert cut + [] == cut;
    LossyUnfold(cut);
    EmptyText([]);
    assert cut[m..] == [];
    hide *;
    LossyEncoded(s, cut);
    assert [REPLACEMENT] + "" == [REPLACEMENT];
  }

  lemma NotBlankMark()
    ensures !IsBlank(REPLACEMENT)
  {
  }

  lemma NotNewlineWhenLong(c: char)
    requires |EncodeChar(c)| > 1
    ensures c != '\n'
  {
  }

  /** A crash after any number of bytes of an append, inside a character or not, leaves a prefix of
      the new records and at most one more unreadable line. */
  lemma TornBytesAddAPrefix<T(!new)>(c: Codec<T>, b: seq<Byte>, rs: seq<T>, n: nat) returns (k: nat)
    requires Sound(c) && DamageShows(c) && n <= |AppendBytes(c, b, rs)|
    ensures k <= |rs|
    ensures LossyRecords(c, b + AppendBytes(c, b, rs)[..n]) == LossyRecords(c, b) + rs[..k]
    ensures LossySkips(c, b + AppendBytes(c, b, rs)[..n]) <= LossySkips(c, b) + 1
  {
    assert forall r, m | 0 <= m < |c.enc(r)| :: c.dec(c.enc(r)[..m] + [REPLACEMENT]) == None;
    hide *;
    var text, buf := Lossy(b), AppendBuffer(c, Lossy(b), rs);
    var t := AppendBytes(c, b, rs)[..n];
    FittingStart(AppendBytes(c, b, rs), n);
    LossyOfAppended(c, b, rs, t);
    AppendBytesAreBuffer(c, b, rs);
    LossyIs(c, b);
    LossyIs(c, b + t);
    var i, m := CutAnywhere(buf, n);
    if m == 0 {
      LossyOfText(buf[..i]);
      k := TornAppendAddsAPrefix(c, text, rs, i);
    } else {
      LossyOfCut(buf[..i], buf[i], m);
      NotBlankMark();
      NotNewlineWhenLong(buf[i]);
      k := DamagedAppendAddsAPrefix(c, text, rs, i, REPLACEMENT);
    }
  }

  // ── The strict reader ───────────────────────────────────────────────────────

  /** The records of a file, or nothing at all when some byte of it is not text. */
  function StrictRecords<T>(c: Codec<T>, b: seq<Byte>): Option<seq<T>> {
    if IsText(b) then Some(Records(c, Lossy(b))) else None
  }

  // Readable, and ready for another line.
  predicate Intact(b: seq<Byte>) { IsText(b) && StartsLine(b) }

  function LineBytes<T>(c: Codec<T>, r: T): seq<Byte> { Encode(c.enc(r) + "\n") }

  lemma IntactEmpty<T>(c: Codec<T>)
    ensures Intact([]) && StrictRecords(c, []) == Some([])
  {
  }

  lemma OneLineBytes<T>(c: Codec<T>, b: seq<Byte>, r: T)
    requires StartsLine(b)
    ensures LineBytes(c, r) == AppendBytes(c, b, [r])
  {
    assert EncodeAll(c, [r]) == c.enc(r) + "\n" by { assert [r][1..] == []; }
    hide Encode;
    assert [] + LineBytes(c, r) == LineBytes(c, r);
  }

  lemma StrictIs<T>(c: Codec<T>, b: seq<Byte>)
    ensures StrictRecords(c, b) == if IsText(b) then Some(LossyRecords(c, b)) else None
    ensures Intact(b) <==> IsText(b) && StartsLine(b)
  {
  }

  // A whole line leaves the file intact and adds its record.
  lemma LineAdds<T(!new)>(c: Codec<T>, b: seq<Byte>, r: T)
    requires Sound(c) && Intact(b)
    ensures Intact(b + LineBytes(c, r))
    ensures StrictRecords(c, b + LineBytes(c, r)) == Some(StrictRecords(c, b).value + [r])
  {
    hide *;
    StrictIs(c, b);
    StrictIs(c, b + LineBytes(c, r));
    OneLineBytes(c, b, r);
    AppendAddsExactlyBytes(c, b, [r]);
    LossyOfText(c.enc(r) + "\n");
    LineBytesIs(c, r);
    LossyAfterLine(b, LineBytes(c, r));
    LineStartSeen(b + LineBytes(c, r));
    LossyEndsLine(Lossy(b), c.enc(r));
  }

  lemma LineBytesIs<T>(c: Codec<T>, r: T)
    ensures LineBytes(c, r) == Encode(c.enc(r) + "\n")
  {
  }

  lemma LossyEndsLine(a: string, s: string)
    ensures AtLineStart(a + (s + "\n"))
  {
  }

  /** A line torn after any number of bytes was not written, or was written, or has made the whole
      file unreadable; the last only when its record is not ASCII. */
  lemma TornLine<T(!new)>(c: Codec<T>, b: seq<Byte>, r: T, n: nat)
    requires Sound(c) && Intact(b) && n <= |LineBytes(c, r)|
    ensures
      var seen := StrictRecords(c, b + LineBytes(c, r)[..n]);
      || seen == StrictRecords(c, b)
      || seen == StrictRecords(c, b + LineBytes(c, r))
      || (seen == None && !IsAscii(c.enc(r)))
  {
    hide *;
    var t, s := LineBytes(c, r)[..n], c.enc(r) + "\n";
    LineBytesIs(c, r);
    StrictIs(c, b);
    StrictIs(c, b + t);
    LineAdds(c, b, r);
    LossyAfterLine(b, t);
    var i, m := CutAnywhere(s, n);
    LossyIs(c, b);
    LossyIs(c, b + t);
    if m == 0 {
      LossyOfText(s[..i]);
      LineStartSeen(b);
      TornText(c, Lossy(b), r, i);
    } else {
      LossyOfCut(s[..i], s[i], m);
      LongMeansNotAscii(c.enc(r), i);
    }
  }

  lemma LongMeansNotAscii(s: string, i: nat)
    requires i < |s + "\n"| && |EncodeChar((s + "\n")[i])| > 1
    ensures !IsAscii(s)
  {
    LongChar((s + "\n")[i]);
    if i < |s| { assert s[i] == (s + "\n")[i]; }
  }

  lemma TornText<T(!new)>(c: Codec<T>, text: string, r: T, i: nat)
    requires Sound(c) && AtLineStart(text) && i <= |c.enc(r) + "\n"|
    ensures var seen := Records(c, text + (c.enc(r) + "\n")[..i]);
      seen == Records(c, text) || seen == Records(c, text) + [r]
  {
    assert EncodeAll(c, [r]) == c.enc(r) + "\n" by { assert [r][1..] == []; }
    assert AppendBuffer(c, text, [r]) == c.enc(r) + "\n";
    hide *;
    var k := TornAppendAddsAPrefix(c, text, [r], i);
    assert [r][..0] == [] && [r][..1] == [r];
  }

  /** And every record that is not ASCII can be torn so. */
  lemma TornInside<T(!new)>(c: Codec<T>, b: seq<Byte>, r: T) returns (n: nat)
    requires Intact(b) && !IsAscii(c.enc(r))
    ensures n < |LineBytes(c, r)| && StrictRecords(c, b + LineBytes(c, r)[..n]) == None
  {
    var i := NotAsciiAt(c.enc(r));
    var s := c.enc(r) + "\n";
    assert s[i] == c.enc(r)[i];
    hide *;
    LineBytesIs(c, r);
    LongChar(s[i]);
    n := CutInside(s, i);
    LossyOfCut(s[..i], s[i], 1);
    StrictIs(c, b);
    StrictIs(c, b + LineBytes(c, r)[..n]);
    LossyAfterLine(b, LineBytes(c, r)[..n]);
  }

  lemma NotAsciiAt(s: string) returns (i: nat)
    requires !IsAscii(s)
    ensures i < |s| && s[i] as int >= 0x80
  {
    i :| 0 <= i < |s| && s[i] as int >= 0x80;
  }

  // ── The assumptions can be met ──────────────────────────────────────────────

  // A character in quotes: ASCII as two hex digits, any other twice as it is.
  function QuoteChar(c: char): (q: string)
    ensures |q| == 2
  {
    if c as int < 0x80 then [HexDigit(c as int / 16), HexDigit(c as int % 16)] else [c, c]
  }

  function UnquoteChar(a: char, b: char): Option<char> {
    if a as int >= 0x80 then if a == b then Some(a) else None
    else if HexValue(a).None? || HexValue(b).None? || HexValue(a).value >= 8 then None
    else Some((16 * HexValue(a).value + HexValue(b).value) as char)
  }

  function Quote(s: string): (q: string)
    ensures |q| == 2 * |s| + 1
  {
    if s == "" then "\"" else QuoteChar(s[0]) + Quote(s[1..])
  }

  function Unquote(q: string): Option<string> {
    if q == "" then None
    else if q[0] == '"' then if |q| == 1 then Some("") else None
    else if |q| == 1 then None
    else
      var (first, rest) := (UnquoteChar(q[0], q[1]), Unquote(q[2..]));
      if first.None? || rest.None? then None else Some([first.value] + rest.value)
  }

  function UnquoteText(t: string): Option<string> { if t != "" && t[0] == '"' then Unquote(t[1..]) else None }

  lemma QuoteCharFacts(c: char)
    ensures var q := QuoteChar(c);
      && UnquoteChar(q[0], q[1]) == Some(c) && q[0] != '"' && q[0] != '\n' && q[1] != '\n'
      && UnquoteChar(q[0], REPLACEMENT) in {None, Some(REPLACEMENT)}
      && (IsAscii(q) <==> c as int < 0x80)
  {
    if c as int < 0x80 {
      HexDigitBack(c as int / 16);
      HexDigitBack(c as int % 16);
    }
  }

  lemma {:induction false} QuoteRoundTrip(s: string)
    ensures Unquote(Quote(s)) == Some(s)
  {
    if s != "" {
      QuoteCharFacts(s[0]);
      QuoteRoundTrip(s[1..]);
      hide QuoteChar, UnquoteChar;
      assert Quote(s)[2..] == Quote(s[1..]) && s == [s[0]] + s[1..];
    }
  }

  lemma AsciiParts(a: string, b: string)
    ensures IsAscii(a + b) <==> IsAscii(a) && IsAscii(b)
  {
    assert forall i | 0 <= i < |a| :: (a + b)[i] == a[i];
    assert forall i | 0 <= i < |b| :: (a + b)[i + |a|] == b[i];
  }

  lemma {:induction false} QuotedFacts(s: string)
    ensures '\n' !in Quote(s) && Quote(s)[2 * |s|] == '"' && (IsAscii(Quote(s)) <==> IsAscii(s))
  {
    if s != "" {
      var q, rest := QuoteChar(s[0]), Quote(s[1..]);
      QuoteCharFacts(s[0]);
      QuotedFacts(s[1..]);
      assert Quote(s) == q + rest && s == [s[0]] + s[1..];
      hide *;
      AsciiParts(q, rest);
      AsciiParts([s[0]], s[1..]);
      OneIsAscii(s[0]);
      LastOf(q, rest);
    }
  }

  lemma OneIsAscii(c: char)
    ensures IsAscii([c]) <==> c as int < 0x80
  {
    assert [c][0] == c;
  }

  lemma {:induction false} CutQuote(s: string, m: nat)
    requires m < |Quote(s)|
    ensures Unquote(Quote(s)[..m]) == None && Unquote(Quote(s)[..m] + [REPLACEMENT]) == None
  {
    var cut := Quote(s)[..m];
    if s != "" && m > 0 {
      var q, rest := QuoteChar(s[0]), Quote(s[1..]);
      QuoteCharFacts(s[0]);
      hide QuoteChar, UnquoteChar;
      if m == 1 {
        assert cut == [q[0]] && (cut + [REPLACEMENT])[2..] == "";
      } else {
        CutQuote(s[1..], m - 2);
        assert cut[2..] == rest[..m - 2] && (cut + [REPLACEMENT])[2..] == rest[..m - 2] + [REPLACEMENT];
      }
    }
  }

  /** What is assumed of serialization can hold together, for records that hold any text and are ASCII
      exactly when it is. */
  lemma SoundCodecExists() returns (c: Codec<string>)
    ensures Sound(c) && DamageShows(c)
    ensures forall s: string :: IsAscii(c.enc(s)) <==> IsAscii(s)
  {
    c := Codec((s: string) => "\"" + Quote(s), UnquoteText);
    forall s: string ensures SoundAt(c, s) && (IsAscii(c.enc(s)) <==> IsAscii(s)) {
      TextFacts(c, s);
    }
    forall s: string, m | 0 <= m < |c.enc(s)| ensures c.dec(c.enc(s)[..m] + [REPLACEMENT]) == None {
      CutText(c, s, m);
    }
  }

  lemma CutText(c: Codec<string>, s: string, m: nat)
    requires c.enc(s) == "\"" + Quote(s) && c.dec == UnquoteText && m < |c.enc(s)|
    ensures c.dec(c.enc(s)[..m]) == None && c.dec(c.enc(s)[..m] + [REPLACEMENT]) == None
  {
    hide Quote, Unquote;
    if m > 0 {
      CutQuote(s, m - 1);
      assert c.enc(s)[..m][1..] == Quote(s)[..m - 1];
      assert (c.enc(s)[..m] + [REPLACEMENT])[1..] == Quote(s)[..m - 1] + [REPLACEMENT];
    }
  }

  lemma TextFacts(c: Codec<string>, s: string)
    requires c.enc(s) == "\"" + Quote(s) && c.dec == UnquoteText
    ensures SoundAt(c, s) && (IsAscii(c.enc(s)) <==> IsAscii(s))
  {
    QuoteRoundTrip(s);
    QuotedFacts(s);
    AsciiParts("\"", Quote(s));
    hide Quote, Unquote;
    assert c.enc(s)[1..] == Quote(s);
    forall m | 0 <= m < |c.enc(s)| ensures c.dec(c.enc(s)[..m]) == None { CutText(c, s, m); }
  }
}
