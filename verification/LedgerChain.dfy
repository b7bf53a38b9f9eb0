/** The hash-chained audit ledger: each line names the hash of the line before it. */
module LedgerChain {
  import opened Wrappers
  import opened JsonLines
  import opened Text

  // ── Lines ───────────────────────────────────────────────────────────────────

  function DropCR(line: string): string {
    if line != "" && line[|line| - 1] == '\r' then line[..|line| - 1] else line
  }

  // All carriage returns at the end.
  function TrimCRs(line: string): (r: string)
    ensures r <= line
  {
    if line != "" && line[|line| - 1] == '\r' then TrimCRs(line[..|line| - 1]) else line
  }

  /** The lines of a text, each without its newline and one carriage return before it. */
  function TextLines(text: string): seq<string>
    decreases |text|
  {
    if text == "" then []
    else
      var i := NewlineAt(text);
      if i == |text| then [text] else [DropCR(text[..i])] + TextLines(text[i + 1..])
  }

  function NonBlank(lines: seq<string>): seq<string> {
    if lines == [] then []
    else NonBlank(lines[..|lines| - 1]) + if Blank(lines[|lines| - 1]) then [] else [lines[|lines| - 1]]
  }

  function TrimAll(lines: seq<string>): (r: seq<string>)
    ensures |r| == |lines| && forall i | 0 <= i < |r| :: r[i] == TrimCRs(lines[i])
  {
    seq(|lines|, i requires 0 <= i < |lines| => TrimCRs(lines[i]))
  }

  // The lines the chain check reads.
  function ChainLines(text: string): seq<string> { NonBlank(TextLines(text)) }

  // The lines a checkpoint counts and hashes.
  function LedgerLines(text: string): seq<string> { NonBlank(TrimAll(TextLines(text))) }

  lemma {:induction false} TrimCRsKeepsBlank(line: string)
    ensures Blank(TrimCRs(line)) <==> Blank(line)
  {
    if line != "" && line[|line| - 1] == '\r' {
      TrimCRsKeepsBlank(line[..|line| - 1]);
      assert line == line[..|line| - 1] + ['\r'];
    }
  }

  lemma {:induction false} NonBlankTrims(lines: seq<string>)
    ensures NonBlank(TrimAll(lines)) == TrimAll(NonBlank(lines))
  {
    if lines != [] {
      NonBlankTrims(lines[..|lines| - 1]);
      TrimCRsKeepsBlank(lines[|lines| - 1]);
      assert TrimAll(lines)[..|lines| - 1] == TrimAll(lines[..|lines| - 1]);
    }
  }

  /** Trimming takes every carriage return at the end of a line, and nothing else. */
  lemma {:induction false} TrimsExactly(line: string)
    ensures !EndsInCR(TrimCRs(line)) && TrimCRs(line) <= line
    ensures forall i | |TrimCRs(line)| <= i < |line| :: line[i] == '\r'
  {
    if EndsInCR(line) { TrimsExactly(line[..|line| - 1]); }
  }

  /** A checkpoint counts exactly the lines the chain check reads, and differs from it at most in
      the carriage returns at their ends. */
  lemma SameLinesUpToCRs(text: string)
    ensures LedgerLines(text) == TrimAll(ChainLines(text))
  {
    NonBlankTrims(TextLines(text));
  }

  // Lines as they are written, each ended by a newline, with a carriage return before it or not.
  function Written(lines: seq<string>, crlf: seq<bool>): string
    requires |lines| == |crlf|
  {
    if lines == [] then ""
    else lines[0] + (if crlf[0] then "\r" else "") + "\n" + Written(lines[1..], crlf[1..])
  }

  predicate EndsInCR(line: string) { line != "" && line[|line| - 1] == '\r' }

  lemma FirstTextLine(text: string, i: nat)
    requires i < |text| && '\n' !in text[..i] && text[i] == '\n'
    ensures TextLines(text) == [DropCR(text[..i])] + TextLines(text[i + 1..])
  {
    NewlineAtUnique(text, i);
  }

  lemma DropsOneCR(line: string)
    ensures DropCR(line + "\r") == line && (!EndsInCR(line) ==> DropCR(line) == line)
  {
    assert (line + "\r")[..|line + "\r"| - 1] == line;
  }

  lemma FirstWritten(line: string, crlf: bool, rest: string)
    requires '\n' !in line && (!crlf ==> !EndsInCR(line))
    ensures TextLines(line + (if crlf then "\r" else "") + "\n" + rest) == [line] + TextLines(rest)
  {
    hide TextLines, DropCR, EndsInCR;
    var whole := line + if crlf then "\r" else "";
    var text := whole + "\n" + rest;
    DropsOneCR(line);
    assert line + "" == line;
    assert '\n' !in whole;
    assert text[..|whole|] == whole && text[|whole| + 1..] == rest;
    FirstTextLine(text, |whole|);
  }

  /** What was written is read back, line by line, whichever way its lines end; the chain check and the
      checkpoints then leave out exactly the blank ones. */
  lemma {:induction false} WrittenIsReadBack(lines: seq<string>, crlf: seq<bool>)
    requires |lines| == |crlf|
    requires forall i | 0 <= i < |lines| :: '\n' !in lines[i] && (!crlf[i] ==> !EndsInCR(lines[i]))
    ensures TextLines(Written(lines, crlf)) == lines
    decreases |lines|
  {
    if lines != [] {
      hide TextLines, EndsInCR;
      assert forall i | 0 <= i < |lines| - 1 :: lines[1..][i] == lines[i + 1] && crlf[1..][i] == crlf[i + 1];
      WrittenIsReadBack(lines[1..], crlf[1..]);
      FirstWritten(lines[0], crlf[0], Written(lines[1..], crlf[1..]));
      assert lines == [lines[0]] + lines[1..];
    }
  }

  lemma {:induction false} NonBlankKeeps(lines: seq<string>, x: string)
    ensures x in NonBlank(lines) <==> x in lines && !Blank(x)
    ensures (forall i | 0 <= i < |lines| :: !Blank(lines[i])) ==> NonBlank(lines) == lines
  {
    hide Blank;
    if lines != [] {
      var front := lines[..|lines| - 1];
      NonBlankKeeps(front, x);
      assert lines == front + [lines[|lines| - 1]];
    }
  }

  // ── The chain ───────────────────────────────────────────────────────────────

  /** What the chain check reads of an entry: its link, its signature, and its form without it. */
  datatype Entry = Entry(previousHash: Option<string>, sig: Option<string>, canonical: string)

  /** Parsing and hashing are parameters; so are the tags of the signing key. */
  datatype Env = Env(parse: string -> Option<Entry>, hash: string -> string, mac: string -> seq<Byte>)

  ghost predicate CollisionFree(env: Env) {
    forall x: string, y: string :: env.hash(x) == env.hash(y) ==> x == y
  }

  // Blanks at the end of a line do not change what it parses to.
  ghost predicate IgnoresCRs(env: Env) {
    forall x: string :: env.parse(TrimCRs(x)) == env.parse(x)
  }

  // The hex signature of a text, and the check of one.
  function Sign(env: Env, data: string): string { HexEncode(env.mac(data)) }

  predicate Verifies(env: Env, data: string, sig: string) { HexDecode(sig) == Some(env.mac(data)) }

  /** A signature made with the key verifies for exactly the texts with the same tag. */
  lemma SignVerifiesExactly(env: Env, data: string, signed: string)
    ensures Verifies(env, data, Sign(env, signed)) <==> env.mac(data) == env.mac(signed)
  {
    HexRoundTrip(env.mac(signed));
  }

  datatype EntryCheck = EntryCheck(line: nat, hashOk: bool, hmacOk: Option<bool>, readable: bool)

  // The hash the line at `i` must name.
  function ExpectedLink(env: Env, lines: seq<string>, i: nat): Option<string>
    requires i <= |lines|
  {
    if i == 0 then None else Some(env.hash(lines[i - 1]))
  }

  predicate LinkOk(env: Env, lines: seq<string>, i: nat)
    requires i < |lines|
  {
    var entry := env.parse(lines[i]);
    entry.Some? && entry.value.previousHash == ExpectedLink(env, lines, i)
  }

  predicate ChainValid(env: Env, lines: seq<string>) {
    forall i | 0 <= i < |lines| :: LinkOk(env, lines, i)
  }

  // What the check says of each line.
  ghost predicate Describes(env: Env, lines: seq<string>, all: seq<string>, keyed: bool, results: seq<EntryCheck>) {
    && |results| == |lines|
    && forall i | 0 <= i < |results| :: DescribesLine(env, lines, all, keyed, results[i], i)
  }

  ghost predicate DescribesLine(env: Env, lines: seq<string>, all: seq<string>, keyed: bool, r: EntryCheck, i: nat)
    requires i < |lines|
  {
    && 1 <= r.line <= |all| && all[r.line - 1] == lines[i]
    && var entry := env.parse(lines[i]);
       && (r.readable <==> entry.Some?)
       && (r.hashOk <==> entry.Some? && entry.value.previousHash == if i == 0 then None else Some(env.hash(lines[i - 1])))
       && (r.hmacOk.Some? <==> keyed && entry.Some? && entry.value.sig.Some?)
       && (r.hmacOk.Some? ==>
             (r.hmacOk.value <==> HexDecode(entry.value.sig.value) == Some(env.mac(entry.value.canonical))))
  }

  lemma NonBlankNext(all: seq<string>, i: nat)
    requires i < |all|
    ensures NonBlank(all[..i + 1]) == NonBlank(all[..i]) + if Blank(all[i]) then [] else [all[i]]
  {
    assert all[..i + 1][..i] == all[..i];
  }

  lemma DescribesGrows(env: Env, lines: seq<string>, line: string, all: seq<string>, keyed: bool,
                       results: seq<EntryCheck>, r: EntryCheck)
    requires Describes(env, lines, all, keyed, results)
    requires DescribesLine(env, lines + [line], all, keyed, r, |lines|)
    ensures Describes(env, lines + [line], all, keyed, results + [r])
  {
    forall i | 0 <= i < |results| ensures DescribesLine(env, lines + [line], all, keyed, results[i], i) {
      assert DescribesLine(env, lines, all, keyed, results[i], i);
    }
  }

  /** Checks every line of a ledger. A line that cannot be read still advances the chain. */
  method VerifyChain(env: Env, text: string, keyed: bool) returns (results: seq<EntryCheck>)
    ensures Describes(env, ChainLines(text), TextLines(text), keyed, results)
    ensures (forall i | 0 <= i < |results| :: results[i].hashOk) <==> ChainValid(env, ChainLines(text))
  {
    var all := TextLines(text);
    results := [];
    var expected := None;
    ghost var done := [];
    for i := 0 to |all|
      invariant done == NonBlank(all[..i]) && expected == ExpectedLink(env, done, |done|)
      invariant Describes(env, done, all, keyed, results)
    {
      NonBlankNext(all, i);
      var line := all[i];
      if !Blank(line) {
        var entry := env.parse(line);
        var r;
        if entry.None? {
          r := EntryCheck(i + 1, false, None, false);
        } else {
          var hmacOk := None;
          if keyed && entry.value.sig.Some? {
            hmacOk := Some(Verifies(env, entry.value.canonical, entry.value.sig.value));
          }
          r := EntryCheck(i + 1, entry.value.previousHash == expected, hmacOk, true);
        }
        DescribesGrows(env, done, line, all, keyed, results, r);
        results, done := results + [r], done + [line];
        expected := Some(env.hash(line));
      }
    }
    assert all[..|all|] == all;
    forall i | 0 <= i < |results| ensures results[i].hashOk == LinkOk(env, done, i) {
      assert DescribesLine(env, done, all, keyed, results[i], i);
    }
  }

  /** An entry extends a valid chain exactly when it can be read and names the hash of the last line. */
  lemma ChainExtends(env: Env, lines: seq<string>, line: string)
    ensures ChainValid(env, lines + [line]) <==>
      && ChainValid(env, lines)
      && env.parse(line).Some?
      && env.parse(line).value.previousHash == if lines == [] then None else Some(env.hash(lines[|lines| - 1]))
  {
    var all := lines + [line];
    forall i | 0 <= i < |lines| ensures LinkOk(env, all, i) <==> LinkOk(env, lines, i) {}
    assert ChainValid(env, all) ==> LinkOk(env, all, |lines|);
    if ChainValid(env, all) {
      forall i | 0 <= i < |lines| ensures LinkOk(env, lines, i) { assert LinkOk(env, all, i); }
    }
  }

  // ── What a valid chain pins ─────────────────────────────────────────────────

  /** One line pins every line before it: chain-valid ledgers that agree at a line, carriage returns
      aside, agree on all the lines before it. */
  lemma {:induction false} LinePinsHistory(env: Env, a: seq<string>, b: seq<string>, n: nat)
    requires CollisionFree(env) && IgnoresCRs(env)
    requires ChainValid(env, a) && ChainValid(env, b)
    requires n < |a| && n < |b| && TrimCRs(a[n]) == TrimCRs(b[n])
    ensures a[..n] == b[..n]
  {
    if n > 0 {
      assert LinkOk(env, a, n) && LinkOk(env, b, n);
      assert env.parse(a[n]) == env.parse(TrimCRs(a[n])) == env.parse(b[n]);
      assert env.hash(a[n - 1]) == env.hash(b[n - 1]);
      LinePinsHistory(env, a, b, n - 1);
      assert a[..n] == a[..n - 1] + [a[n - 1]] && b[..n] == b[..n - 1] + [b[n - 1]];
    }
  }

  /** Position is pinned too: the first line has no link, so equal lines sit at equal positions. */
  lemma {:induction false} LinePinsPosition(env: Env, a: seq<string>, b: seq<string>, i: nat, j: nat)
    requires CollisionFree(env) && ChainValid(env, a) && ChainValid(env, b)
    requires i < |a| && j < |b| && a[i] == b[j]
    ensures i == j
  {
    assert LinkOk(env, a, i) && LinkOk(env, b, j);
    if i > 0 && j > 0 {
      assert env.hash(a[i - 1]) == env.hash(b[j - 1]);
      LinePinsPosition(env, a, b, i - 1, j - 1);
    }
  }

  /** In terms of the texts: if two chain-valid ledgers agree on the line a checkpoint of `n` entries
      hashes, they agree on all `n` lines. */
  lemma HeadPinsPrefix(env: Env, before: string, now: string, n: nat)
    requires CollisionFree(env) && IgnoresCRs(env)
    requires ChainValid(env, ChainLines(before)) && ChainValid(env, ChainLines(now))
    requires 0 < n <= |LedgerLines(before)| && n <= |LedgerLines(now)|
    requires env.hash(LedgerLines(before)[n - 1]) == env.hash(LedgerLines(now)[n - 1])
    ensures LedgerLines(before)[..n] == LedgerLines(now)[..n]
  {
    hide *;
    SameLinesUpToCRs(before);
    SameLinesUpToCRs(now);
    var a, b := ChainLines(before), ChainLines(now);
    HashInjective(env, LedgerLines(before)[n - 1], LedgerLines(now)[n - 1]);
    LinePinsHistory(env, a, b, n - 1);
    forall i | 0 <= i < n ensures LedgerLines(before)[i] == LedgerLines(now)[i] {
      if i < n - 1 { assert a[i] == a[..n - 1][i] == b[..n - 1][i] == b[i]; }
    }
  }

  lemma HashInjective(env: Env, x: string, y: string)
    requires CollisionFree(env) && env.hash(x) == env.hash(y)
    ensures x == y
  {
  }
}
