/** The durable line format shared by the action queue and the apply journal: one serialized
    record per line, read back line by line, with lines that do not parse skipped.

    Serialization is a parameter. `Sound` says what is assumed of it: decoding inverts encoding,
    an encoded record is one line with no blank at either end, and no proper prefix of it parses. */
module JsonLines {
  import opened Wrappers

  datatype Codec<!T> = Codec(enc: T -> string, dec: string -> Option<T>)

  predicate IsBlank(c: char) {
    || c == ' ' || '\t' <= c <= '\r' || c == '\U{0085}' || c == '\U{00A0}' || c == '\U{1680}'
    || '\U{2000}' <= c <= '\U{200A}' || c == '\U{2028}' || c == '\U{2029}' || c == '\U{202F}'
    || c == '\U{205F}' || c == '\U{3000}'
  }

  // The code points that count as white space.
  const BLANKS: set<int> := {0x09, 0x0A, 0x0B, 0x0C, 0x0D, 0x20, 0x85, 0xA0, 0x1680, 0x2000, 0x2001, 0x2002, 0x2003,
                             0x2004, 0x2005, 0x2006, 0x2007, 0x2008, 0x2009, 0x200A, 0x2028, 0x2029, 0x202F, 0x205F, 0x3000}

  /** Blank is what Unicode calls white space. */
  lemma BlanksExactly(c: char)
    ensures IsBlank(c) <==> c as int in BLANKS
  {
  }

  predicate Blank(s: string) { forall c | c in s :: IsBlank(c) }

  // One line of text with no blank at either end.
  predicate IsRecordText(s: string) {
    s != "" && '\n' !in s && !IsBlank(s[0]) && !IsBlank(s[|s| - 1])
  }

  ghost predicate SoundAt<T>(c: Codec<T>, r: T) {
    && IsRecordText(c.enc(r))
    && c.dec(c.enc(r)) == Some(r)
    && forall n | 0 <= n < |c.enc(r)| :: c.dec(c.enc(r)[..n]) == None
  }

  ghost predicate Sound<T(!new)>(c: Codec<T>) {
    forall r: T :: SoundAt(c, r)
  }

  function TrimStart(s: string): (r: string) {
    if s != "" && IsBlank(s[0]) then TrimStart(s[1..]) else s
  }

  function TrimEnd(s: string): (r: string)
    ensures r <= s
  {
    if s != "" && IsBlank(s[|s| - 1]) then TrimEnd(s[..|s| - 1]) else s
  }

  function Trim(s: string): string {
    TrimEnd(TrimStart(s))
  }

  function NewlineAt(text: string): (i: nat)
    ensures i <= |text|
    ensures '\n' !in text[..i]
    ensures i < |text| ==> text[i] == '\n'
  {
    if text == "" || text[0] == '\n' then 0
    else
      var i := NewlineAt(text[1..]);
      assert text[..i + 1] == [text[0]] + text[1..][..i];
      i + 1
  }

  /** The lines of a text. A final newline ends the last line; it does not start another. */
  function Lines(text: string): seq<string>
    decreases |text|
  {
    if text == "" then []
    else
      var i := NewlineAt(text);
      if i == |text| then [text] else [text[..i]] + Lines(text[i + 1..])
  }

  // What one line contributes: nothing when blank or unreadable, otherwise its record.
  function LineRecords<T>(c: Codec<T>, line: string): seq<T> {
    if Trim(line) == "" then []
    else match c.dec(Trim(line))
      case Some(r) => [r]
      case None => []
  }

  function LineSkips<T>(c: Codec<T>, line: string): nat {
    if Trim(line) != "" && c.dec(Trim(line)).None? then 1 else 0
  }

  function LinesRecords<T>(c: Codec<T>, lines: seq<string>): seq<T> {
    if lines == [] then []
    else LinesRecords(c, lines[..|lines| - 1]) + LineRecords(c, lines[|lines| - 1])
  }

  function LinesSkips<T>(c: Codec<T>, lines: seq<string>): nat {
    if lines == [] then 0
    else LinesSkips(c, lines[..|lines| - 1]) + LineSkips(c, lines[|lines| - 1])
  }

  // The records a reader finds in a text, and how many lines it could not read.
  function Records<T>(c: Codec<T>, text: string): seq<T> { LinesRecords(c, Lines(text)) }

  function Skips<T>(c: Codec<T>, text: string): nat { LinesSkips(c, Lines(text)) }

  function NonBlankCount(lines: seq<string>): nat {
    if lines == [] then 0
    else NonBlankCount(lines[..|lines| - 1]) + if Blank(lines[|lines| - 1]) then 0 else 1
  }

  lemma {:induction false} TrimStartIgnores(pad: string, s: string)
    requires Blank(pad)
    ensures TrimStart(pad + s) == TrimStart(s)
  {
    if pad == "" {
      assert pad + s == s;
    } else {
      assert pad[0] in pad && (pad + s)[1..] == pad[1..] + s;
      assert forall c | c in pad[1..] :: c in pad;
      TrimStartIgnores(pad[1..], s);
    }
  }

  lemma {:induction false} TrimEndIgnores(s: string, pad: string)
    requires Blank(pad)
    ensures TrimEnd(s + pad) == TrimEnd(s)
    decreases |pad|
  {
    if pad == "" {
      assert s + pad == s;
    } else {
      var front := pad[..|pad| - 1];
      assert pad[|pad| - 1] in pad && (s + pad)[..|s + pad| - 1] == s + front;
      assert forall c | c in front :: c in pad;
      TrimEndIgnores(s, front);
    }
  }

  lemma {:induction false} TrimStartSplit(s: string) returns (pad: string)
    ensures Blank(pad) && s == pad + TrimStart(s)
    ensures TrimStart(s) == "" || !IsBlank(TrimStart(s)[0])
  {
    if s != "" && IsBlank(s[0]) {
      var rest := TrimStartSplit(s[1..]);
      pad := [s[0]] + rest;
      assert s == [s[0]] + s[1..];
    } else {
      pad := "";
    }
  }

  /** Blanks around a line do not matter, and only blank lines trim to nothing. */
  lemma TrimIgnoresPadding(before: string, s: string, after: string)
    requires Blank(before) && Blank(after)
    ensures Trim(before + s + after) == Trim(s)
    ensures Trim(s) == "" <==> Blank(s)
  {
    assert before + s + after == before + (s + after);
    TrimStartIgnores(before, s + after);
    var pad := TrimStartSplit(s);
    var core := TrimStart(s);
    assert s + after == pad + (core + after);
    TrimStartIgnores(pad, core + after);
    TrimEndIgnores(core, after);
    if core == "" {
      TrimStartIgnores(after, "");
      assert core + after == after + "" && Trim(s) == "" && s == pad;
    } else {
      assert (core + after)[0] == core[0] && core[0] in s;
      NonBlankStays(core);
    }
  }

  lemma {:induction false} NonBlankStays(s: string)
    requires s != "" && !IsBlank(s[0])
    ensures TrimEnd(s) != ""
  {
    if IsBlank(s[|s| - 1]) { NonBlankStays(s[..|s| - 1]); }
  }

  lemma {:induction false} LinesCount<T>(c: Codec<T>, lines: seq<string>)
    ensures |LinesRecords(c, lines)| + LinesSkips(c, lines) == NonBlankCount(lines)
  {
    if lines != [] {
      hide Trim, Blank;
      LinesCount(c, lines[..|lines| - 1]);
      TrimIgnoresPadding("", lines[|lines| - 1], "") by { NothingIsBlank(); }
    }
  }

  lemma NothingIsBlank()
    ensures Blank("")
  {
  }

  /** Every line that is not blank is read as one record or counted as unreadable. */
  lemma EveryLineCounts<T>(c: Codec<T>, text: string)
    ensures |Records(c, text)| + Skips(c, text) == NonBlankCount(Lines(text))
  {
    LinesCount(c, Lines(text));
  }

  function EncodeAll<T>(c: Codec<T>, rs: seq<T>): string {
    if rs == [] then "" else c.enc(rs[0]) + "\n" + EncodeAll(c, rs[1..])
  }

  // Encoding one more record.
  lemma {:induction false} EncodeNext<T>(c: Codec<T>, rs: seq<T>, i: nat)
    requires i < |rs|
    ensures EncodeAll(c, rs[..i + 1]) == EncodeAll(c, rs[..i]) + c.enc(rs[i]) + "\n"
    decreases i
  {
    if i == 0 {
      assert rs[..1][1..] == rs[..0];
    } else {
      EncodeNext(c, rs[1..], i - 1);
      assert rs[..i + 1][1..] == rs[1..][..i] && rs[..i][1..] == rs[1..][..i - 1];
    }
  }

  predicate AtLineStart(text: string) {
    text == "" || text[|text| - 1] == '\n'
  }

  /** The bytes one locked append writes: a newline first when the text ends in a torn line. */
  function AppendBuffer<T>(c: Codec<T>, text: string, rs: seq<T>): string {
    if rs == [] then ""
    else (if AtLineStart(text) then "" else "\n") + EncodeAll(c, rs)
  }

  // ── Lines of a concatenation ────────────────────────────────────────────────

  lemma NewlineAtUnique(text: string, i: nat)
    requires i <= |text| && '\n' !in text[..i] && (i < |text| ==> text[i] == '\n')
    ensures NewlineAt(text) == i
  {
    var j := NewlineAt(text);
    assert forall k | 0 <= k < i :: text[k] == text[..i][k];
    assert forall k | 0 <= k < j :: text[k] == text[..j][k];
  }

  lemma FirstLine(text: string, i: nat)
    requires i < |text| && '\n' !in text[..i] && text[i] == '\n'
    ensures Lines(text) == [text[..i]] + Lines(text[i + 1..])
  {
    NewlineAtUnique(text, i);
  }

  lemma NewlineInside(a: string)
    requires a != "" && AtLineStart(a)
    ensures NewlineAt(a) < |a| && AtLineStart(a[NewlineAt(a) + 1..])
  {
    var i := NewlineAt(a);
    assert forall k | 0 <= k < i :: a[k] == a[..i][k];
  }

  lemma SplitOfConcat(a: string, b: string, i: nat)
    requires i < |a|
    ensures (a + b)[..i] == a[..i] && (a + b)[i] == a[i] && (a + b)[i + 1..] == a[i + 1..] + b
  {
  }

  lemma {:induction false} LinesConcat(a: string, b: string)
    requires AtLineStart(a)
    ensures Lines(a + b) == Lines(a) + Lines(b)
    decreases |a|
  {
    if a == "" {
      assert a + b == b;
    } else {
      hide *;
      var i, ab := NewlineAt(a), a + b;
      NewlineInside(a);
      LinesConcat(a[i + 1..], b);
      FirstLine(a, i);
      SplitOfConcat(a, b, i);
      FirstLine(ab, i);
      calc {
        Lines(ab);
        [a[..i]] + Lines(a[i + 1..] + b);
        [a[..i]] + (Lines(a[i + 1..]) + Lines(b));
        { Associate([a[..i]], Lines(a[i + 1..]), Lines(b)); }
        ([a[..i]] + Lines(a[i + 1..])) + Lines(b);
        Lines(a) + Lines(b);
      }
    }
  }

  // Ending a torn last line does not change the lines.
  lemma {:induction false} LinesEndTornLine(a: string)
    requires !AtLineStart(a)
    ensures Lines(a + "\n") == Lines(a)
    decreases |a|
  {
    var i := NewlineAt(a);
    if i == |a| {
      assert (a + "\n")[..i] == a;
      assert a == a[..i];
      NewlineAtUnique(a + "\n", i);
      assert (a + "\n")[i + 1..] == "";
    } else {
      assert (a + "\n")[..i] == a[..i];
      NewlineAtUnique(a + "\n", i);
      assert (a + "\n")[i + 1..] == a[i + 1..] + "\n";
      assert i != |a| - 1;
      assert a[i + 1..][|a| - i - 2] == a[|a| - 1];
      LinesEndTornLine(a[i + 1..]);
    }
  }

  lemma LinesOfOneLine(s: string)
    requires s != "" && '\n' !in s
    ensures Lines(s) == [s]
    ensures Lines(s + "\n") == [s]
  {
    assert s[..|s|] == s;
    NewlineAtUnique(s, |s|);
    assert !AtLineStart(s) by { assert s[|s| - 1] in s; }
    LinesEndTornLine(s);
  }

  // ── Records of a concatenation ──────────────────────────────────────────────

  lemma {:induction false} LinesRecordsConcat<T>(c: Codec<T>, a: seq<string>, b: seq<string>)
    ensures LinesRecords(c, a + b) == LinesRecords(c, a) + LinesRecords(c, b)
    ensures LinesSkips(c, a + b) == LinesSkips(c, a) + LinesSkips(c, b)
    decreases |b|
  {
    if b == [] {
      assert a + b == a;
    } else {
      var b0 := b[..|b| - 1];
      assert (a + b)[..|a + b| - 1] == a + b0;
      LinesRecordsConcat(c, a, b0);
    }
  }

  // Reading one more line.
  lemma NextLine<T>(c: Codec<T>, lines: seq<string>, i: nat)
    requires i < |lines|
    ensures LinesRecords(c, lines[..i + 1]) == LinesRecords(c, lines[..i]) + LineRecords(c, lines[i])
    ensures LinesSkips(c, lines[..i + 1]) == LinesSkips(c, lines[..i]) + LineSkips(c, lines[i])
  {
    assert lines[..i + 1][..i] == lines[..i];
  }

  lemma TrimOfRecordText(s: string)
    requires IsRecordText(s)
    ensures Trim(s) == s
  {
  }

  // Trimming a nonempty prefix of a record's text leaves a nonempty prefix of it.
  lemma TrimOfPrefix(s: string, n: nat)
    requires IsRecordText(s) && 0 < n < |s|
    ensures Trim(s[..n]) <= s && |Trim(s[..n])| < |s|
  {
    assert TrimStart(s[..n]) == s[..n];
  }

  lemma OneLine<T>(c: Codec<T>, line: string)
    ensures LinesRecords(c, [line]) == LineRecords(c, line)
    ensures LinesSkips(c, [line]) == LineSkips(c, line)
  {
    assert [line][..0] == [];
  }

  lemma OneRecord<T>(c: Codec<T>, r: T)
    requires SoundAt(c, r)
    ensures Records(c, c.enc(r)) == [r] == Records(c, c.enc(r) + "\n")
    ensures Skips(c, c.enc(r)) == 0 == Skips(c, c.enc(r) + "\n")
  {
    var s := c.enc(r);
    LinesOfOneLine(s);
    TrimOfRecordText(s);
    OneLine(c, s);
  }

  lemma FirstThenRest<T>(c: Codec<T>, r: T, rest: string)
    requires SoundAt(c, r)
    ensures Records(c, c.enc(r) + "\n" + rest) == [r] + Records(c, rest)
    ensures Skips(c, c.enc(r) + "\n" + rest) == Skips(c, rest)
    ensures AtLineStart(rest) ==> AtLineStart(c.enc(r) + "\n" + rest)
  {
    var line := c.enc(r) + "\n";
    OneRecord(c, r);
    LinesConcat(line, rest);
    LinesRecordsConcat(c, Lines(line), Lines(rest));
  }

  lemma {:induction false} EncodedRecords<T(!new)>(c: Codec<T>, rs: seq<T>)
    requires Sound(c)
    ensures Records(c, EncodeAll(c, rs)) == rs
    ensures Skips(c, EncodeAll(c, rs)) == 0
    ensures AtLineStart(EncodeAll(c, rs))
    decreases |rs|
  {
    if rs != [] {
      EncodedRecords(c, rs[1..]);
      assert SoundAt(c, rs[0]);
      FirstThenRest(c, rs[0], EncodeAll(c, rs[1..]));
    }
  }

  // Up to its newline, a torn record is either whole or unreadable.
  lemma TornRecord<T>(c: Codec<T>, r: T, n: nat)
    requires SoundAt(c, r) && n <= |c.enc(r)|
    ensures Records(c, c.enc(r)[..n]) == if n == |c.enc(r)| then [r] else []
    ensures Skips(c, c.enc(r)[..n]) <= 1
  {
    var s := c.enc(r);
    if n == |s| {
      assert s[..n] == s;
      OneRecord(c, r);
    } else if n > 0 {
      LinesOfOneLine(s[..n]);
      TrimOfPrefix(s, n);
      var t := Trim(s[..n]);
      assert t == s[..|t|];
      OneLine(c, s[..n]);
    }
  }

  // A torn append of whole lines leaves whole records plus at most one unreadable fragment.
  lemma {:induction false} TornEncodedRecords<T(!new)>(c: Codec<T>, rs: seq<T>, n: nat)
    returns (k: nat)
    requires Sound(c) && n <= |EncodeAll(c, rs)|
    ensures k <= |rs| && Records(c, EncodeAll(c, rs)[..n]) == rs[..k]
    ensures Skips(c, EncodeAll(c, rs)[..n]) <= 1
    decreases |rs|
  {
    if rs == [] {
      return 0;
    }
    assert SoundAt(c, rs[0]);
    var width := |c.enc(rs[0])|;
    if n <= width {
      assert EncodeAll(c, rs)[..n] == c.enc(rs[0])[..n];
      TornRecord(c, rs[0], n);
      k := if n == width then 1 else 0;
      assert rs[..k] == if n == width then [rs[0]] else [];
    } else {
      var k' := TornEncodedRecords(c, rs[1..], n - width - 1);
      TornAfterFirst(c, rs, n, k');
      k := k' + 1;
    }
  }

  lemma TakePastFirst(a: string, b: string, n: nat)
    requires |a| <= n <= |a + b|
    ensures (a + b)[..n] == a + b[..n - |a|]
  {
  }

  lemma TornAfterFirst<T>(c: Codec<T>, rs: seq<T>, n: nat, k: nat)
    requires rs != [] && SoundAt(c, rs[0]) && |c.enc(rs[0])| < n <= |EncodeAll(c, rs)| && k < |rs|
    requires var rest := EncodeAll(c, rs[1..])[..n - |c.enc(rs[0])| - 1];
      Records(c, rest) == rs[1..][..k] && Skips(c, rest) <= 1
    ensures Records(c, EncodeAll(c, rs)[..n]) == rs[..k + 1]
    ensures Skips(c, EncodeAll(c, rs)[..n]) <= 1
  {
    hide Records, Skips, SoundAt;
    var line := c.enc(rs[0]) + "\n";
    TakePastFirst(line, EncodeAll(c, rs[1..]), n);
    FirstThenRest(c, rs[0], EncodeAll(c, rs[1..])[..n - |line|]);
    assert rs[..k + 1] == [rs[0]] + rs[1..][..k];
  }

  // A record cut short and ended by one stray character.
  lemma DamagedRecord<T>(c: Codec<T>, r: T, n: nat, mark: char)
    requires SoundAt(c, r) && n < |c.enc(r)| && !IsBlank(mark) && c.dec(c.enc(r)[..n] + [mark]) == None
    ensures Records(c, c.enc(r)[..n] + [mark]) == []
    ensures Skips(c, c.enc(r)[..n] + [mark]) == 1
  {
    var t := c.enc(r)[..n] + [mark];
    assert n > 0 ==> t[0] == c.enc(r)[0];
    LinesOfOneLine(t);
    TrimOfRecordText(t);
    OneLine(c, t);
  }

  lemma {:induction false} DamagedEncodedRecords<T(!new)>(c: Codec<T>, rs: seq<T>, n: nat, mark: char)
    returns (k: nat)
    requires Sound(c) && n < |EncodeAll(c, rs)| && EncodeAll(c, rs)[n] != '\n' && !IsBlank(mark)
    requires forall r, m | 0 <= m < |c.enc(r)| :: c.dec(c.enc(r)[..m] + [mark]) == None
    ensures k <= |rs| && Records(c, EncodeAll(c, rs)[..n] + [mark]) == rs[..k]
    ensures Skips(c, EncodeAll(c, rs)[..n] + [mark]) <= 1
    decreases |rs|
  {
    assert SoundAt(c, rs[0]);
    var line, rest := c.enc(rs[0]) + "\n", EncodeAll(c, rs[1..]);
    assert EncodeAll(c, rs) == line + rest;
    if n < |line| {
      assert EncodeAll(c, rs)[..n] == c.enc(rs[0])[..n];
      DamagedRecord(c, rs[0], n, mark);
      k := 0;
    } else {
      var k' := DamagedEncodedRecords(c, rs[1..], n - |line|, mark) by {
        assert (line + rest)[n] == rest[n - |line|];
      }
      DamagedAfterFirst(c, rs, n, mark, k');
      k := k' + 1;
    }
  }

  lemma DamagedAfterFirst<T>(c: Codec<T>, rs: seq<T>, n: nat, mark: char, k: nat)
    requires rs != [] && SoundAt(c, rs[0]) && |c.enc(rs[0])| < n < |EncodeAll(c, rs)| && k < |rs|
    requires var rest := EncodeAll(c, rs[1..])[..n - |c.enc(rs[0])| - 1] + [mark];
      Records(c, rest) == rs[1..][..k] && Skips(c, rest) <= 1
    ensures Records(c, EncodeAll(c, rs)[..n] + [mark]) == rs[..k + 1]
    ensures Skips(c, EncodeAll(c, rs)[..n] + [mark]) <= 1
  {
    hide Records, Skips, SoundAt;
    var line, rest := c.enc(rs[0]) + "\n", EncodeAll(c, rs[1..]);
    TakePastFirst(line, rest, n);
    FirstThenRest(c, rs[0], rest[..n - |line|] + [mark]);
    assert line + rest[..n - |line|] + [mark] == line + (rest[..n - |line|] + [mark]);
    assert rs[..k + 1] == [rs[0]] + rs[1..][..k];
  }

  /** Log codec: whatever the existing text is, torn tail or not, one locked append adds exactly
      the new records, in order, and no new unreadable line. */
  lemma AppendAddsExactly<T(!new)>(c: Codec<T>, text: string, rs: seq<T>)
    requires Sound(c)
    ensures Records(c, text + AppendBuffer(c, text, rs)) == Records(c, text) + rs
    ensures Skips(c, text + AppendBuffer(c, text, rs)) == Skips(c, text)
  {
    if rs == [] {
      assert text + AppendBuffer(c, text, rs) == text;
    } else {
      var body := EncodeAll(c, rs);
      var base := if AtLineStart(text) then text else text + "\n";
      assert text + AppendBuffer(c, text, rs) == base + body;
      EncodedRecords(c, rs);
      ExtendAtLineStart(c, text, base, body);
    }
  }

  lemma ExtendAtLineStart<T>(c: Codec<T>, text: string, base: string, tail: string)
    requires base == if AtLineStart(text) then text else text + "\n"
    ensures Records(c, base + tail) == Records(c, text) + Records(c, tail)
    ensures Skips(c, base + tail) == Skips(c, text) + Skips(c, tail)
  {
    if !AtLineStart(text) { LinesEndTornLine(text); }
    LinesConcat(base, tail);
    LinesRecordsConcat(c, Lines(base), Lines(tail));
  }

  /** A crash after any number of characters of the append leaves a prefix of the new records and at
      most one more unreadable line. */
  lemma TornAppendAddsAPrefix<T(!new)>(c: Codec<T>, text: string, rs: seq<T>, n: nat)
    returns (k: nat)
    requires Sound(c) && n <= |AppendBuffer(c, text, rs)|
    ensures k <= |rs|
    ensures Records(c, text + AppendBuffer(c, text, rs)[..n]) == Records(c, text) + rs[..k]
    ensures Skips(c, text + AppendBuffer(c, text, rs)[..n]) <= Skips(c, text) + 1
  {
    var buf := AppendBuffer(c, text, rs);
    if n == 0 {
      assert text + buf[..n] == text;
      k := 0;
      return;
    }
    var body := EncodeAll(c, rs);
    var base := if AtLineStart(text) then text else text + "\n";
    var m := if AtLineStart(text) then n else n - 1;
    assert text + buf[..n] == base + body[..m];
    k := TornEncodedRecords(c, rs, m);
    ExtendAtLineStart(c, text, base, body[..m]);
  }

  /** So does a crash after which the next character reads as a stray mark. */
  lemma DamagedAppendAddsAPrefix<T(!new)>(c: Codec<T>, text: string, rs: seq<T>, n: nat, mark: char)
    returns (k: nat)
    requires Sound(c) && n < |AppendBuffer(c, text, rs)| && AppendBuffer(c, text, rs)[n] != '\n' && !IsBlank(mark)
    requires forall r, m | 0 <= m < |c.enc(r)| :: c.dec(c.enc(r)[..m] + [mark]) == None
    ensures k <= |rs|
    ensures Records(c, text + (AppendBuffer(c, text, rs)[..n] + [mark])) == Records(c, text) + rs[..k]
    ensures Skips(c, text + (AppendBuffer(c, text, rs)[..n] + [mark])) <= Skips(c, text) + 1
  {
    var buf, body := AppendBuffer(c, text, rs), EncodeAll(c, rs);
    var base := if AtLineStart(text) then text else text + "\n";
    var m := if AtLineStart(text) then n else n - 1;
    assert text + (buf[..n] + [mark]) == base + (body[..m] + [mark]);
    assert body[m] == buf[n];
    hide *;
    k := DamagedEncodedRecords(c, rs, m, mark);
    ExtendAtLineStart(c, text, base, body[..m] + [mark]);
  }
}
