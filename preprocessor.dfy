/**
 * `TextPreprocessor` of the upload page's content processor: the passes that
 * turn raw extracted text into paragraphs — joining hyphenated line breaks,
 * dropping page numbers and junk characters, rebuilding paragraphs around
 * headings and "Term: definition" lines, normalising list markers, and
 * tidying white space.
 */
module Preprocessor {
  import opened TextUtil

  // ---------------------------------------------------------------------
  // fixExtractionIssues
  // ---------------------------------------------------------------------

  /** `(\w+)-\s*\n\s*(\w+)` at `i`, replaced by `$1$2`: a word split by a hyphen and a line break is joined. */
  function HyphenBreakAt(s: string, i: nat): Option<Hit>
  {
    if i >= |s| || !IsWordChar(s[i]) then None
    else
      var k := i + Run(s, i, IsWordChar);
      if k < |s| && s[k] == '-' then
        var m := k + 1 + SpaceRun(s, k + 1);
        if '\n' in s[k + 1..m] && m < |s| && IsWordChar(s[m]) then
          var n := m + Run(s, m, IsWordChar);
          Some(Hit(n, s[i..k] + s[m..n]))
        else None
      else None
  }

  /** `^` with the `m` flag: the start of the text or just after a line terminator. */
  predicate LineStart(s: string, i: nat)
    requires i <= |s|
  {
    i == 0 || IsLineTerminator(s[i - 1])
  }

  /** The last line terminator in `s[lo..hi]`, if any. */
  function LastLineEnd(s: string, lo: nat, hi: nat): (r: Option<nat>)
    requires lo <= hi <= |s|
    ensures r.Some? ==> lo <= r.value < hi && IsLineTerminator(s[r.value])
    decreases hi - lo
  {
    if hi == lo then None
    else if IsLineTerminator(s[hi - 1]) then Some(hi - 1)
    else LastLineEnd(s, lo, hi - 1)
  }

  /**
   * `^\s*\d+\s*$` with the `gm` flags at `i`, replaced by nothing: a line holding
   * only a number. The leading `\s*` may swallow blank lines before it, and the
   * trailing `\s*` gives back white space until it stands before a line end.
   */
  function PageNumberAt(s: string, i: nat): Option<Hit>
  {
    if i > |s| || !LineStart(s, i) then None
    else
      var d := i + SpaceRun(s, i);
      var e := d + Run(s, d, IsDigit);
      if e == d then None
      else
        var w := e + SpaceRun(s, e);
        if w == |s| then Some(Hit(w, ""))
        else match LastLineEnd(s, e, w)
          case Some(p) => Some(Hit(p, ""))
          case None => None
  }

  /** `\bl\b(?=[A-Z])` at `i`, replaced by `I`. */
  function LoneLAt(s: string, i: nat): Option<Hit>
  {
    if i + 1 < |s| && WordBoundary(s, i) && s[i] == 'l' && WordBoundary(s, i + 1) && IsUpper(s[i + 1])
    then Some(Hit(i + 1, "I")) else None
  }

  /** `\b0(?=[A-Z])` at `i`, replaced by `O`. */
  function ZeroBeforeCapitalAt(s: string, i: nat): Option<Hit>
  {
    if i + 1 < |s| && WordBoundary(s, i) && s[i] == '0' && IsUpper(s[i + 1])
    then Some(Hit(i + 1, "O")) else None
  }

  /** The punctuation and scientific symbols the junk filter keeps. */
  predicate IsKeptSymbol(c: char)
  {
    c in ".,!?;:()[]{}'\"/\\-+=%^*"
    || c in "\U{2013}\U{2014}\U{00B0}\U{00B2}\U{00B3}\U{00D7}\U{00F7}\U{2248}\U{2260}\U{2264}\U{2265}"
    || c in "\U{2192}\U{2190}\U{2194}\U{2191}\U{2193}\U{221E}\U{2211}\U{220F}\U{222B}\U{2202}\U{221A}"
    || c in "\U{03C0}\U{0394}\U{03A3}\U{03B1}\U{03B2}\U{03B3}\U{03B4}\U{03B5}\U{03B8}\U{03BB}\U{03BC}"
    || c in "\U{03C3}\U{03C6}\U{03C8}\U{03C9}\U{03A9}"
  }

  /** The characters outside the negated class of the junk filter. */
  predicate IsKept(c: char)
  {
    IsWordChar(c) || IsSpace(c) || IsKeptSymbol(c)
  }

  /** The junk filter: every character outside the kept set becomes a space. */
  function ReplaceJunk(s: string): (r: string)
  {
    seq(|s|, k requires 0 <= k < |s| => if IsKept(s[k]) then s[k] else ' ')
  }

  function FixExtractionIssues(text: string): string
  {
    var joined := ReplaceAll(text, HyphenBreakAt);
    var unnumbered := ReplaceAll(joined, PageNumberAt);
    var ocrFixed := ReplaceAll(ReplaceAll(unnumbered, LoneLAt), ZeroBeforeCapitalAt);
    ReplaceJunk(ocrFixed)
  }

  /**
   * The `l`-to-`I` correction never applies: `\b` after the `l` needs a
   * non-word character next, while the lookahead needs a capital letter.
   */
  lemma LoneLNeverMatches(s: string)
    ensures ReplaceAll(s, LoneLAt) == s
  {
    forall k | 0 <= k < |s| ensures !ValidHit(s, k, LoneLAt(s, k)) {
      if LoneLAt(s, k).Some? {
        assert IsWordChar(s[k + 1]);
      }
    }
    ReplaceWithoutHits(s, 0, LoneLAt);
  }

  /** The junk filter keeps the length and leaves only kept characters, each kept one in place. */
  lemma ReplaceJunkKeeps(s: string)
    ensures |ReplaceJunk(s)| == |s|
    ensures forall k :: 0 <= k < |s| ==> IsKept(ReplaceJunk(s)[k])
    ensures forall k :: 0 <= k < |s| && IsKept(s[k]) ==> ReplaceJunk(s)[k] == s[k]
  {
    assert IsSpace(' ');
  }

  /** After the extraction fixes, every character is a word character, white space or a kept symbol. */
  lemma FixExtractionIssuesClean(text: string)
    ensures forall k :: 0 <= k < |FixExtractionIssues(text)| ==> IsKept(FixExtractionIssues(text)[k])
  {
    var t := ReplaceAll(ReplaceAll(ReplaceAll(ReplaceAll(text, HyphenBreakAt), PageNumberAt), LoneLAt), ZeroBeforeCapitalAt);
    ReplaceJunkKeeps(t);
  }

  /** A hyphen at a line end between two words disappears together with the line break. */
  lemma HyphenBreakJoins(a: string, b: string, rest: string)
    requires |a| >= 1 && |b| >= 1
    requires forall k :: 0 <= k < |a| ==> IsWordChar(a[k])
    requires forall k :: 0 <= k < |b| ==> IsWordChar(b[k])
    requires rest == [] || !IsWordChar(rest[0])
    ensures HyphenBreakAt(a + "-\n" + b + rest, 0) == Some(Hit(|a| + 2 + |b|, a + b))
  {
    var s := a + "-\n" + b + rest;
    HyphenPieces(s, a, b, rest);
    HyphenBreakAtShape(s, |a|, |b|);
  }

  lemma HyphenPieces(s: string, a: string, b: string, rest: string)
    requires s == a + "-\n" + b + rest
    ensures |s| == |a| + 2 + |b| + |rest|
    ensures s[..|a|] == a && s[|a|] == '-' && s[|a| + 1] == '\n' && s[|a| + 2..|a| + 2 + |b|] == b
    ensures forall i :: 0 <= i < |a| ==> s[i] == a[i]
    ensures forall i :: |a| + 2 <= i < |a| + 2 + |b| ==> s[i] == b[i - |a| - 2]
    ensures rest != [] ==> s[|a| + 2 + |b|] == rest[0]
  {
    assert s == a + ("-\n" + (b + rest));
    assert s[|a|..][2..][..|b|] == b;
  }

  lemma HyphenBreakAtShape(s: string, k: nat, n: nat)
    requires k >= 1 && n >= 1 && k + 2 + n <= |s|
    requires forall i :: 0 <= i < k ==> IsWordChar(s[i])
    requires s[k] == '-' && s[k + 1] == '\n'
    requires forall i :: k + 2 <= i < k + 2 + n ==> IsWordChar(s[i])
    requires k + 2 + n == |s| || !IsWordChar(s[k + 2 + n])
    ensures HyphenBreakAt(s, 0) == Some(Hit(k + 2 + n, s[..k] + s[k + 2..k + 2 + n]))
  {
    RunOfWord(s, 0, k);
    assert SpaceRun(s, k + 1) == 1 by {
      assert !IsSpace(s[k + 2]);
    }
    assert s[k + 1..k + 2] == "\n";
    RunOfWord(s, k + 2, n);
  }

  lemma {:induction false} RunOfWord(s: string, i: nat, n: nat)
    requires i + n <= |s|
    requires forall k :: i <= k < i + n ==> IsWordChar(s[k])
    requires i + n == |s| || !IsWordChar(s[i + n])
    ensures Run(s, i, IsWordChar) == n
    decreases n
  {
    if n > 0 {
      RunOfWord(s, i + 1, n - 1);
    }
  }

  // ---------------------------------------------------------------------
  // isLikelyHeading
  // ---------------------------------------------------------------------

  /** `/^\d+\.?\s+[A-Z]/`: a number, an optional full stop, white space and a capital letter. */
  predicate NumberedTitle(line: string)
  {
    var d := Run(line, 0, IsDigit);
    var p := if d < |line| && line[d] == '.' then d + 1 else d;
    d >= 1 && SpaceRun(line, p) >= 1 && p + SpaceRun(line, p) < |line| && IsUpper(line[p + SpaceRun(line, p)])
  }

  /** How many of the words start with a capital letter (`/^[A-Z]/`). */
  function CapitalisedCount(words: seq<string>): (n: nat)
    ensures n <= |words|
  {
    if words == [] then 0
    else (if words[0] != [] && IsUpper(words[0][0]) then 1 else 0) + CapitalisedCount(words[1..])
  }

  /** Whether `line` ends with one of the characters of `marks`. */
  predicate EndsWithOneOf(line: string, marks: string)
  {
    line != [] && line[|line| - 1] in marks
  }

  /** `!line || !line.trim()` for a neighbouring line that may not exist. */
  predicate Blank(line: Option<string>)
  {
    line.None? || Trim(line.value) == []
  }

  /**
   * `isLikelyHeading(line, prevLine, nextLine)`. The test "at least 70% of
   * the words capitalised" is written `10 * capitalised >= 7 * words`, which
   * agrees with the floating-point product for the 2 to 15 words it sees.
   */
  predicate IsLikelyHeading(line: string, prev: Option<string>, next: Option<string>)
  {
    var words := SplitSpaces(line);
    if line == [] || |words| > 15 || |words| < 2 then false
    else if Upper(line) == line && |words| <= 10 then true
    else if NumberedTitle(line) then true
    else if 10 * CapitalisedCount(words) >= 7 * |words| then true
    else !EndsWithOneOf(line, ".!?;,") && (Blank(prev) || Blank(next))
  }

  /** A line without lower-case letters is its own upper-case form. */
  lemma UpperOfShouted(line: string)
    requires forall k :: 0 <= k < |line| ==> !IsLower(line[k])
    ensures Upper(line) == line
  {
  }

  /**
   * Headings have between 2 and 15 words, and every line of 2 to 10 words
   * without a lower-case letter is one, wherever it stands.
   */
  lemma HeadingShape(line: string, prev: Option<string>, next: Option<string>)
    ensures IsLikelyHeading(line, prev, next) ==> 2 <= |SplitSpaces(line)| <= 15
    ensures line != [] && 2 <= |SplitSpaces(line)| <= 10 && (forall k :: 0 <= k < |line| ==> !IsLower(line[k]))
      ==> IsLikelyHeading(line, prev, next)
  {
    if forall k :: 0 <= k < |line| ==> !IsLower(line[k]) {
      UpperOfShouted(line);
    }
  }

  // ---------------------------------------------------------------------
  // hasMultipleDefinitions and splitDefinitions
  // ---------------------------------------------------------------------

  predicate NotColon(c: char) { c != ':' }

  /** Where `[A-Z][a-z]+` starting at `i` ends, if it matches there. */
  function CapWordEnd(s: string, i: nat): (r: Option<nat>)
    ensures r.Some? ==> i + 2 <= r.value <= |s|
    ensures r.Some? ==> IsUpper(s[i])
  {
    if i < |s| && IsUpper(s[i]) && Run(s, i + 1, IsLower) >= 1 then Some(i + 1 + Run(s, i + 1, IsLower)) else None
  }

  /** The end of `(?:\s+[A-Z][a-z]+)*` after a word ending at `e`, taking as many words as there are. */
  function ChainFrom(s: string, e: nat): (r: nat)
    requires e <= |s|
    ensures e <= r <= |s|
    decreases |s| - e
  {
    var w := SpaceRun(s, e);
    if w >= 1 && CapWordEnd(s, e + w).Some? then ChainFrom(s, CapWordEnd(s, e + w).value) else e
  }

  /**
   * The end of a term `[A-Z][a-z]+(?:\s+[A-Z][a-z]+)*` at `i`. Every pattern
   * that uses it wants a colon next, which no shorter repetition can offer,
   * so the longest chain is the only candidate.
   */
  function TermChainEnd(s: string, i: nat): (r: Option<nat>)
    ensures r.Some? ==> i + 2 <= r.value <= |s| && IsUpper(s[i])
  {
    match CapWordEnd(s, i)
    case Some(e) => Some(ChainFrom(s, e))
    case None => None
  }

  /**
   * `[A-Z][a-z]+(?:\s+[A-Z][a-z]+)*:\s+[^:]{10,}` at `i`: a term, a colon,
   * white space, and at least ten more characters; the greedy tail runs up
   * to the next colon, swallowing the term in front of it.
   */
  function DefinitionEntryAt(s: string, i: nat): (r: Option<Hit>)
  {
    match TermChainEnd(s, i)
    case None => None
    case Some(c) =>
      if c < |s| && s[c] == ':' && SpaceRun(s, c + 1) >= 1 && Run(s, c + 1, NotColon) >= 11
      then Some(Hit(c + 1 + Run(s, c + 1, NotColon), "")) else None
  }

  /** `hasMultipleDefinitions(line)`: the global pattern matches at least twice. */
  predicate HasMultipleDefinitions(line: string)
  {
    MatchCountFrom(line, 0, DefinitionEntryAt) >= 2
  }

  predicate ThreeColons(s: string, i: nat)
  {
    exists a, b, c :: i <= a < b < c < |s| && s[a] == ':' && s[b] == ':' && s[c] == ':'
  }

  lemma DefinitionEntryShape(s: string, j: nat)
    requires ValidHit(s, j, DefinitionEntryAt(s, j))
    ensures exists c :: j < c < DefinitionEntryAt(s, j).value.end && s[c] == ':'
    ensures DefinitionEntryAt(s, j).value.end == |s| || s[DefinitionEntryAt(s, j).value.end] == ':'
    ensures IsUpper(s[j])
  {
    var c := TermChainEnd(s, j).value;
    assert s[c] == ':';
  }

  /**
   * Two matches need three colons: the first match runs on to the second
   * colon, so a line "A: ... B: ..." with two definitions counts once and
   * is never split.
   */
  lemma MultipleDefinitionsNeedThreeColons(s: string, i: nat)
    requires i <= |s| && MatchCountFrom(s, i, DefinitionEntryAt) >= 2
    ensures ThreeColons(s, i)
  {
    MatchCountFirst(s, i, DefinitionEntryAt);
    var j1 :| i <= j1 < |s| && ValidHit(s, j1, DefinitionEntryAt(s, j1))
      && MatchCountFrom(s, i, DefinitionEntryAt) == 1 + MatchCountFrom(s, DefinitionEntryAt(s, j1).value.end, DefinitionEntryAt);
    var e1 := DefinitionEntryAt(s, j1).value.end;
    DefinitionEntryShape(s, j1);
    var c1 :| j1 < c1 < e1 && s[c1] == ':';
    MatchCountFirst(s, e1, DefinitionEntryAt);
    var j2 :| e1 <= j2 < |s| && ValidHit(s, j2, DefinitionEntryAt(s, j2));
    DefinitionEntryShape(s, j2);
    var c2 :| j2 < c2 < DefinitionEntryAt(s, j2).value.end && s[c2] == ':';
    assert s[e1] == ':';
  }

  /** The lookahead `(?=\s+[A-Z][a-z]+(?:\s+[A-Z][a-z]+)*:|$)` at `p`: white space and another term with its colon, or the end. */
  predicate NextTermAhead(s: string, p: nat)
    requires p <= |s|
  {
    p == |s|
    || (SpaceRun(s, p) >= 1 && var q := TermChainEnd(s, p + SpaceRun(s, p)); q.Some? && q.value < |s| && s[q.value] == ':')
  }

  /** The lazy `([^:]+?)` ending at `p` or later: the shortest colon-free stretch after which the lookahead holds. */
  function LazyDefinitionEnd(s: string, p: nat): (r: Option<nat>)
    requires 0 < p <= |s|
    ensures r.Some? ==> p <= r.value <= |s|
    decreases |s| - p
  {
    if s[p - 1] == ':' then None
    else if NextTermAhead(s, p) then Some(p)
    else if p == |s| then None
    else LazyDefinitionEnd(s, p + 1)
  }

  /**
   * `:\s+([^:]+?)(?=…)` after the colon at `c` with `\s+` taking `t`
   * characters: when the lazy group fails, `\s+` gives back one character and
   * the group is tried again. The result is the group's start and end.
   */
  function DefinitionAfterColon(s: string, c: nat, t: nat): (r: Option<(nat, nat)>)
    requires c + 1 + t <= |s|
    ensures r.Some? ==> c + 1 < r.value.0 < r.value.1 <= |s|
    decreases t
  {
    if t == 0 then None
    else
      var g := c + 1 + t;
      var e := if g < |s| then LazyDefinitionEnd(s, g + 1) else None;
      if e.Some? then Some((g, e.value)) else DefinitionAfterColon(s, c, t - 1)
  }

  /** A match of the `splitDefinitions` pattern at `i`: the term, the definition, and where the match ends. */
  function SplitEntryAt(s: string, i: nat): (r: Option<(string, string, nat)>)
    ensures r.Some? ==> i < r.value.2 <= |s|
  {
    match TermChainEnd(s, i)
    case None => None
    case Some(c) =>
      if c < |s| && s[c] == ':' then
        match DefinitionAfterColon(s, c, SpaceRun(s, c + 1))
        case Some((g, e)) => Some((s[i..c], s[g..e], e))
        case None => None
      else None
  }

  /** The `exec` loop of `splitDefinitions` from `i`: "term: definition" for every match. */
  function SplitEntriesFrom(s: string, i: nat): seq<string>
    decreases |s| - i
  {
    if i >= |s| then []
    else match SplitEntryAt(s, i)
      case Some((term, def, e)) => [Trim(term) + ": " + Trim(def)] + SplitEntriesFrom(s, e)
      case None => SplitEntriesFrom(s, i + 1)
  }

  /** The zero-width separator `(?<=\.)(?=\s+[A-Z])` at `q`. */
  predicate SentenceCut(s: string, q: nat)
    requires q <= |s|
  {
    0 < q < |s| && s[q - 1] == '.' && SpaceRun(s, q) >= 1 && q + SpaceRun(s, q) < |s| && IsUpper(s[q + SpaceRun(s, q)])
  }

  /** `s.split(/(?<=\.)(?=\s+[A-Z])/)`, with the current piece starting at `start`. */
  function SplitAtCutsFrom(s: string, start: nat, q: nat): (r: seq<string>)
    requires start <= q <= |s|
    ensures |r| >= 1
    decreases |s| - q
  {
    if q == |s| then [s[start..]]
    else if q > start && SentenceCut(s, q) then [s[start..q]] + SplitAtCutsFrom(s, q, q + 1)
    else SplitAtCutsFrom(s, start, q + 1)
  }

  /** `splitDefinitions(line)`: the pattern's entries, or the line cut after full stops when there are none. */
  function SplitDefinitions(line: string): seq<string>
  {
    var defs := SplitEntriesFrom(line, 0);
    if defs == [] then SplitAtCutsFrom(line, 0, 0) else defs
  }

  // ---------------------------------------------------------------------
  // restoreParagraphStructure
  // ---------------------------------------------------------------------

  /** The state of the paragraph rebuild: the lines written so far and the paragraph being collected. */
  datatype Rebuild = Rebuild(out: seq<string>, para: seq<string>)

  /** "Save the previous paragraph": the collected lines joined, then a paragraph break. */
  function Flushed(st: Rebuild): seq<string>
  {
    if st.para != [] then st.out + [Join(st.para, " "), ""] else st.out
  }

  /** The trimmed, non-blank entries, from first to last. */
  function NonBlankTrimmed(defs: seq<string>): (r: seq<string>)
    ensures forall k :: 0 <= k < |r| ==> r[k] != [] && IsTrimmed(r[k])
  {
    if defs == [] then []
    else
      var t := Trim(defs[|defs| - 1]);
      TrimIsTrimmed(defs[|defs| - 1]);
      NonBlankTrimmed(defs[..|defs| - 1]) + (if t != [] then [t] else [])
  }

  function Before(lines: seq<string>, i: nat): Option<string>
  {
    if 0 < i <= |lines| then Some(lines[i - 1]) else None
  }

  function After(lines: seq<string>, i: nat): Option<string>
  {
    if i + 1 < |lines| then Some(lines[i + 1]) else None
  }

  /** One turn of the loop of `restoreParagraphStructure` on line `i`. */
  function RebuildStep(lines: seq<string>, i: nat, st: Rebuild): Rebuild
    requires i < |lines|
  {
    var line := Trim(lines[i]);
    if line == [] then Rebuild(Flushed(st), [])
    else if IsLikelyHeading(line, Before(lines, i), After(lines, i)) then Rebuild(Flushed(st) + ["", line, ""], [])
    else if HasMultipleDefinitions(line) then Rebuild(Flushed(st) + NonBlankTrimmed(SplitDefinitions(line)) + [""], [])
    else if EndsWithOneOf(line, ".!?") then
      var next := if i + 1 < |lines| then Trim(lines[i + 1]) else "";
      if next == [] || IsUpper(next[0]) then Rebuild(st.out + [Join(st.para + [line], " "), ""], [])
      else Rebuild(st.out, st.para + [line])
    else Rebuild(st.out, st.para + [line])
  }

  function RebuildFrom(lines: seq<string>, i: nat, st: Rebuild): seq<string>
    requires i <= |lines|
    decreases |lines| - i
  {
    if i == |lines| then st.out + (if st.para != [] then [Join(st.para, " ")] else [])
    else RebuildFrom(lines, i + 1, RebuildStep(lines, i, st))
  }

  /** The lines `restoreParagraphStructure` produces, before they are joined. */
  function RestoredLines(text: string): seq<string>
  {
    RebuildFrom(SplitChar(text, '\n'), 0, Rebuild([], []))
  }

  function Restored(text: string): string
  {
    Join(RestoredLines(text), "\n")
  }

  /** The inner loop over the pieces of a line with several definitions: the non-blank ones, trimmed. */
  method AppendDefinitions(processed: seq<string>, definitions: seq<string>) returns (r: seq<string>)
    ensures r == processed + NonBlankTrimmed(definitions)
  {
    r := processed;
    var k := 0;
    while k < |definitions|
      invariant 0 <= k <= |definitions|
      invariant r == processed + NonBlankTrimmed(definitions[..k])
    {
      var d := Trim(definitions[k]);
      ghost var upto := definitions[..k + 1];
      assert upto[..k] == definitions[..k] && upto[k] == definitions[k];
      assert NonBlankTrimmed(upto) == NonBlankTrimmed(definitions[..k]) + (if d != [] then [d] else []);
      if d != [] {
        r := r + [d];
      }
      k := k + 1;
    }
    assert definitions[..k] == definitions;
  }

  /** The body of the loop of `restoreParagraphStructure` for line `i`. */
  method RestoreLine(lines: seq<string>, i: nat, processed: seq<string>, paragraph: seq<string>)
    returns (out: seq<string>, para: seq<string>)
    requires i < |lines|
    ensures Rebuild(out, para) == RebuildStep(lines, i, Rebuild(processed, paragraph))
  {
    out, para := processed, paragraph;
    var line := Trim(lines[i]);
    if line == [] {
      if |para| > 0 {
        out := out + [Join(para, " "), ""];
        para := [];
      }
    } else if IsLikelyHeading(line, Before(lines, i), After(lines, i)) {
      if |para| > 0 {
        out := out + [Join(para, " "), ""];
        para := [];
      }
      out := out + ["", line, ""];
    } else if HasMultipleDefinitions(line) {
      if |para| > 0 {
        out := out + [Join(para, " "), ""];
        para := [];
      }
      out := AppendDefinitions(out, SplitDefinitions(line));
      out := out + [""];
    } else if EndsWithOneOf(line, ".!?") {
      para := para + [line];
      var next := if i + 1 < |lines| then Trim(lines[i + 1]) else "";
      if next == [] || IsUpper(next[0]) {
        out := out + [Join(para, " "), ""];
        para := [];
      }
    } else {
      para := para + [line];
    }
  }

  /** `restoreParagraphStructure(text)`: the loop over the lines with its paragraph buffer. */
  method RestoreParagraphStructure(text: string) returns (r: string)
    ensures r == Restored(text)
  {
    var lines := SplitChar(text, '\n');
    var processed: seq<string> := [];
    var paragraph: seq<string> := [];
    var i := 0;
    while i < |lines|
      invariant 0 <= i <= |lines|
      invariant RebuildFrom(lines, i, Rebuild(processed, paragraph)) == RestoredLines(text)
    {
      processed, paragraph := RestoreLine(lines, i, processed, paragraph);
      i := i + 1;
    }
    assert RestoredLines(text) == processed + (if paragraph != [] then [Join(paragraph, " ")] else []);
    if |paragraph| > 0 {
      processed := processed + [Join(paragraph, " ")];
    } else {
      assert processed + [] == processed;
    }
    assert processed == RestoredLines(text);
    r := Join(processed, "\n");
  }

  predicate AllTrimmed(xs: seq<string>)
  {
    forall k :: 0 <= k < |xs| ==> IsTrimmed(xs[k])
  }

  predicate AllFilledTrimmed(xs: seq<string>)
  {
    forall k :: 0 <= k < |xs| ==> xs[k] != [] && IsTrimmed(xs[k])
  }

  /** Joining non-empty trimmed pieces with single spaces gives a trimmed text. */
  lemma {:induction false} JoinTrimmed(parts: seq<string>)
    requires |parts| >= 1 && AllFilledTrimmed(parts)
    ensures Join(parts, " ") != [] && IsTrimmed(Join(parts, " "))
    ensures Join(parts, " ")[0] == parts[0][0]
    ensures Join(parts, " ")[|Join(parts, " ")| - 1] == parts[|parts| - 1][|parts[|parts| - 1]| - 1]
  {
    if |parts| > 1 {
      JoinTrimmed(parts[1..]);
      var j := Join(parts, " ");
      assert j == parts[0] + " " + Join(parts[1..], " ");
    }
  }

  lemma AppendTrimmed(a: seq<string>, b: seq<string>)
    requires AllTrimmed(a) && AllTrimmed(b)
    ensures AllTrimmed(a + b)
  {
    forall k | 0 <= k < |a + b| ensures IsTrimmed((a + b)[k]) {
      if k >= |a| { assert (a + b)[k] == b[k - |a|]; }
    }
  }

  lemma FlushedTrimmed(st: Rebuild)
    requires AllTrimmed(st.out) && AllFilledTrimmed(st.para)
    ensures AllTrimmed(Flushed(st))
  {
    if st.para != [] {
      JoinTrimmed(st.para);
      AppendTrimmed(st.out, [Join(st.para, " "), ""]);
    }
  }

  /** One step of the rebuild keeps every written line and every collected line trimmed. */
  lemma StepTrimmed(lines: seq<string>, i: nat, st: Rebuild)
    requires i < |lines| && AllTrimmed(st.out) && AllFilledTrimmed(st.para)
    ensures AllTrimmed(RebuildStep(lines, i, st).out) && AllFilledTrimmed(RebuildStep(lines, i, st).para)
  {
    var line := Trim(lines[i]);
    TrimIsTrimmed(lines[i]);
    FlushedTrimmed(st);
    if line == [] {
    } else if IsLikelyHeading(line, Before(lines, i), After(lines, i)) {
      AppendTrimmed(Flushed(st), ["", line, ""]);
    } else if HasMultipleDefinitions(line) {
      var defs := NonBlankTrimmed(SplitDefinitions(line));
      AppendTrimmed(Flushed(st), defs);
      AppendTrimmed(Flushed(st) + defs, [""]);
    } else {
      JoinTrimmed(st.para + [line]);
      AppendTrimmed(st.out, [Join(st.para + [line], " "), ""]);
    }
  }

  lemma {:induction false} RebuildTrimmed(lines: seq<string>, i: nat, st: Rebuild)
    requires i <= |lines| && AllTrimmed(st.out) && AllFilledTrimmed(st.para)
    ensures AllTrimmed(RebuildFrom(lines, i, st))
    decreases |lines| - i
  {
    if i == |lines| {
      if st.para != [] {
        JoinTrimmed(st.para);
        AppendTrimmed(st.out, [Join(st.para, " ")]);
      }
    } else {
      StepTrimmed(lines, i, st);
      RebuildTrimmed(lines, i + 1, RebuildStep(lines, i, st));
    }
  }

  /** Every line the paragraph rebuild writes is trimmed. */
  lemma RestoredLinesTrimmed(text: string)
    ensures AllTrimmed(RestoredLines(text))
  {
    RebuildTrimmed(SplitChar(text, '\n'), 0, Rebuild([], []));
  }

  // ---------------------------------------------------------------------
  // detectAndFormatLists
  // ---------------------------------------------------------------------

  predicate IsBulletChar(c: char) { c == '\U{2022}' || c == '-' || c == '*' }

  /** `isListItem(line)`: a bullet and white space, or a number, `.` or `)`, and white space. */
  predicate IsListItem(line: string)
  {
    (|line| >= 1 && IsBulletChar(line[0]) && SpaceRun(line, 1) >= 1)
    || (var d := Run(line, 0, IsDigit); d >= 1 && d < |line| && (line[d] == '.' || line[d] == ')') && SpaceRun(line, d + 1) >= 1)
  }

  /** A character of the class `[•\-*\d+\.)]`. */
  predicate IsMarkerChar(c: char) { IsBulletChar(c) || IsDigit(c) || c == '+' || c == '.' || c == ')' }

  /** `line.replace(/^[•\-*\d+\.)]\s*\/, '')`: one marker character and the white space after it go. */
  function StripMarker(line: string): string
  {
    if |line| >= 1 && IsMarkerChar(line[0]) then line[1 + SpaceRun(line, 1)..] else line
  }

  /** The line a non-blank trimmed input line becomes. */
  function FormatLine(line: string): (r: string)
  {
    if IsListItem(line) then "\U{2022} " + StripMarker(line) else line
  }

  /** The lines `detectAndFormatLists` writes for the lines from `i` on, `inList` saying whether a list is open. */
  function ListLines(lines: seq<string>, i: nat, inList: bool): seq<string>
    requires i <= |lines|
    decreases |lines| - i
  {
    if i == |lines| then []
    else
      var line := Trim(lines[i]);
      if line == [] then [""] + ListLines(lines, i + 1, false)
      else if IsListItem(line) then (if inList then [] else [""]) + [FormatLine(line)] + ListLines(lines, i + 1, true)
      else (if inList then [""] else []) + [line] + ListLines(lines, i + 1, false)
  }

  function ListsFormatted(text: string): string
  {
    Join(ListLines(SplitChar(text, '\n'), 0, false), "\n")
  }

  /** The body of the loop of `detectAndFormatLists` for line `i`: the lines it pushes, and whether a list is open after it. */
  method FormatListLine(lines: seq<string>, i: nat, inList: bool) returns (pushed: seq<string>, nowInList: bool)
    requires i < |lines|
    ensures ListLines(lines, i, inList) == pushed + ListLines(lines, i + 1, nowInList)
  {
    var line := Trim(lines[i]);
    pushed, nowInList := [], inList;
    if line == [] {
      pushed := pushed + [""];
      nowInList := false;
      ListLinesBlank(lines, i, inList, pushed);
    } else if IsListItem(line) {
      if !nowInList {
        pushed := pushed + [""];
        nowInList := true;
      }
      pushed := pushed + ["\U{2022} " + StripMarker(line)];
      ListLinesItem(lines, i, inList, pushed);
    } else {
      if nowInList {
        pushed := pushed + [""];
        nowInList := false;
      }
      pushed := pushed + [line];
      ListLinesPlain(lines, i, inList, pushed);
    }
  }

  lemma ListLinesBlank(lines: seq<string>, i: nat, inList: bool, pushed: seq<string>)
    requires i < |lines| && Trim(lines[i]) == [] && pushed == [] + [""]
    ensures ListLines(lines, i, inList) == pushed + ListLines(lines, i + 1, false)
  {
    assert pushed == [""];
  }

  lemma ListLinesItem(lines: seq<string>, i: nat, inList: bool, pushed: seq<string>)
    requires i < |lines| && Trim(lines[i]) != [] && IsListItem(Trim(lines[i]))
    requires pushed == (if inList then [] else [] + [""]) + ["\U{2022} " + StripMarker(Trim(lines[i]))]
    ensures ListLines(lines, i, inList) == pushed + ListLines(lines, i + 1, true)
  {
    assert [] + [""] == [""];
  }

  lemma ListLinesPlain(lines: seq<string>, i: nat, inList: bool, pushed: seq<string>)
    requires i < |lines| && Trim(lines[i]) != [] && !IsListItem(Trim(lines[i]))
    requires pushed == (if inList then [] + [""] else []) + [Trim(lines[i])]
    ensures ListLines(lines, i, inList) == pushed + ListLines(lines, i + 1, false)
  {
    assert [] + [""] == [""];
  }

  /** The loop of `detectAndFormatLists` over the lines, with its flag for an open list. */
  method FormatListLines(lines: seq<string>) returns (processed: seq<string>)
    ensures processed == ListLines(lines, 0, false)
  {
    processed := [];
    var inList := false;
    var i := 0;
    while i < |lines|
      invariant 0 <= i <= |lines|
      invariant processed + ListLines(lines, i, inList) == ListLines(lines, 0, false)
    {
      var pushed, nowInList := FormatListLine(lines, i, inList);
      assert processed + (pushed + ListLines(lines, i + 1, nowInList))
        == (processed + pushed) + ListLines(lines, i + 1, nowInList);
      processed, inList := processed + pushed, nowInList;
      i := i + 1;
    }
    assert processed + [] == processed;
  }

  /** `detectAndFormatLists(text)`. */
  method DetectAndFormatLists(text: string) returns (r: string)
    ensures r == ListsFormatted(text)
  {
    var processed := FormatListLines(SplitChar(text, '\n'));
    r := Join(processed, "\n");
  }

  function NonBlank(xs: seq<string>): seq<string>
  {
    if xs == [] then [] else (if xs[0] != [] then [xs[0]] else []) + NonBlank(xs[1..])
  }

  lemma {:induction false} NonBlankAppend(a: seq<string>, b: seq<string>)
    ensures NonBlank(a + b) == NonBlank(a) + NonBlank(b)
  {
    if a != [] {
      assert (a + b)[1..] == a[1..] + b;
      NonBlankAppend(a[1..], b);
    } else {
      assert a + b == b;
    }
  }

  /** The formatted non-blank lines, from `i` on: the reference the list pass is compared with. */
  function FormattedContent(lines: seq<string>, i: nat): seq<string>
    requires i <= |lines|
    decreases |lines| - i
  {
    if i == |lines| then []
    else if Trim(lines[i]) == [] then FormattedContent(lines, i + 1)
    else [FormatLine(Trim(lines[i]))] + FormattedContent(lines, i + 1)
  }

  lemma NonBlankOne(x: string)
    requires x != []
    ensures NonBlank([x]) == [x] && NonBlank(["", x]) == [x]
  {
    assert ["", x][1..] == [x];
  }

  lemma KeepContentBlank(lines: seq<string>, i: nat, inList: bool)
    requires i < |lines| && Trim(lines[i]) == []
    requires NonBlank(ListLines(lines, i + 1, false)) == FormattedContent(lines, i + 1)
    ensures NonBlank(ListLines(lines, i, inList)) == FormattedContent(lines, i)
  {
    NonBlankAppend([""], ListLines(lines, i + 1, false));
  }

  lemma KeepContentItem(lines: seq<string>, i: nat, inList: bool)
    requires i < |lines| && Trim(lines[i]) != [] && IsListItem(Trim(lines[i]))
    requires NonBlank(ListLines(lines, i + 1, true)) == FormattedContent(lines, i + 1)
    ensures NonBlank(ListLines(lines, i, inList)) == FormattedContent(lines, i)
  {
    var line := Trim(lines[i]);
    var pre := (if inList then [] else [""]) + [FormatLine(line)];
    NonBlankAppend(pre, ListLines(lines, i + 1, true));
    NonBlankOne(FormatLine(line));
    assert pre == if inList then [FormatLine(line)] else ["", FormatLine(line)];
  }

  lemma KeepContentText(lines: seq<string>, i: nat, inList: bool)
    requires i < |lines| && Trim(lines[i]) != [] && !IsListItem(Trim(lines[i]))
    requires NonBlank(ListLines(lines, i + 1, false)) == FormattedContent(lines, i + 1)
    ensures NonBlank(ListLines(lines, i, inList)) == FormattedContent(lines, i)
  {
    var line := Trim(lines[i]);
    var pre := (if inList then [""] else []) + [line];
    NonBlankAppend(pre, ListLines(lines, i + 1, false));
    NonBlankOne(line);
    assert pre == if inList then ["", line] else [line];
  }

  /**
   * Apart from the blank lines it writes around lists, the list pass keeps
   * every non-blank line in order, trimmed, with list items rewritten.
   */
  lemma {:induction false} ListLinesKeepContent(lines: seq<string>, i: nat, inList: bool)
    requires i <= |lines|
    ensures NonBlank(ListLines(lines, i, inList)) == FormattedContent(lines, i)
    decreases |lines| - i
  {
    if i < |lines| {
      var line := Trim(lines[i]);
      if line == [] {
        ListLinesKeepContent(lines, i + 1, false);
        KeepContentBlank(lines, i, inList);
      } else if IsListItem(line) {
        ListLinesKeepContent(lines, i + 1, true);
        KeepContentItem(lines, i, inList);
      } else {
        ListLinesKeepContent(lines, i + 1, false);
        KeepContentText(lines, i, inList);
      }
    }
  }

  /**
   * Only the first marker character goes: in a numbered item the digit is
   * removed but the full stop stays, so "1. X" becomes "• . X".
   */
  lemma NumberedItemKeepsStop(line: string)
    requires |line| >= 3 && IsDigit(line[0]) && line[1] == '.' && line[2] == ' '
    ensures IsListItem(line)
    ensures FormatLine(line) == "\U{2022} " + line[1..]
  {
    assert Run(line, 0, IsDigit) == 1 by {
      assert !IsDigit(line[1]);
    }
    assert SpaceRun(line, 2) >= 1;
    assert SpaceRun(line, 1) == 0;
  }

  // ---------------------------------------------------------------------
  // cleanWhitespace
  // ---------------------------------------------------------------------

  predicate IsBlankChar(c: char) { c == ' ' }
  predicate IsNewline(c: char) { c == '\n' }

  /** `/ {2,}/g` at `i`, replaced by one space. */
  function DoubleSpaceAt(s: string, i: nat): Option<Hit>
  {
    if i < |s| && Run(s, i, IsBlankChar) >= 2 then Some(Hit(i + Run(s, i, IsBlankChar), " ")) else None
  }

  /** `/\n{3,}/g` at `i`, replaced by two line breaks. */
  function NewlinesAt(s: string, i: nat): Option<Hit>
  {
    if i < |s| && Run(s, i, IsNewline) >= 3 then Some(Hit(i + Run(s, i, IsNewline), "\n\n")) else None
  }

  function TrimEach(lines: seq<string>): (r: seq<string>)
    ensures |r| == |lines|
    ensures forall k :: 0 <= k < |r| ==> r[k] == Trim(lines[k])
  {
    if lines == [] then [] else [Trim(lines[0])] + TrimEach(lines[1..])
  }

  /** `cleanWhitespace(text)`. */
  function CleanWhitespace(text: string): string
  {
    var capped := ReplaceAll(ReplaceAll(text, DoubleSpaceAt), NewlinesAt);
    Trim(Join(TrimEach(SplitChar(capped, '\n')), "\n"))
  }

  predicate NoDoubleSpace(s: string)
  {
    forall k :: 0 <= k < |s| - 1 ==> !(s[k] == ' ' && s[k + 1] == ' ')
  }

  lemma {:induction false} CollapseNoDouble(s: string, i: nat)
    requires i <= |s|
    ensures NoDoubleSpace(ReplaceFrom(s, i, DoubleSpaceAt))
    ensures i < |s| ==> (ReplaceFrom(s, i, DoubleSpaceAt) != []
      && (ReplaceFrom(s, i, DoubleSpaceAt)[0] == ' ' <==> s[i] == ' '))
    decreases |s| - i
  {
    if i < |s| {
      var o := ReplaceFrom(s, i, DoubleSpaceAt);
      if ValidHit(s, i, DoubleSpaceAt(s, i)) {
        var e := DoubleSpaceAt(s, i).value.end;
        CollapseNoDouble(s, e);
        assert o == " " + ReplaceFrom(s, e, DoubleSpaceAt);
        assert e < |s| ==> s[e] != ' ';
        assert s[i] == ' ';
      } else {
        CollapseNoDouble(s, i + 1);
        assert o == [s[i]] + ReplaceFrom(s, i + 1, DoubleSpaceAt);
        if i + 1 < |s| && s[i] == ' ' && s[i + 1] == ' ' {
          assert false;
        }
      }
    }
  }

  lemma {:induction false} CapKeepsNoDouble(s: string, i: nat)
    requires i <= |s| && NoDoubleSpace(s)
    ensures NoDoubleSpace(ReplaceFrom(s, i, NewlinesAt))
    ensures i < |s| ==> (ReplaceFrom(s, i, NewlinesAt) != []
      && (ReplaceFrom(s, i, NewlinesAt)[0] == ' ' <==> s[i] == ' '))
    decreases |s| - i
  {
    if i < |s| {
      var o := ReplaceFrom(s, i, NewlinesAt);
      if ValidHit(s, i, NewlinesAt(s, i)) {
        var e := NewlinesAt(s, i).value.end;
        CapKeepsNoDouble(s, e);
        assert o == "\n\n" + ReplaceFrom(s, e, NewlinesAt);
        assert s[i] == '\n';
      } else {
        CapKeepsNoDouble(s, i + 1);
        assert o == [s[i]] + ReplaceFrom(s, i + 1, NewlinesAt);
      }
    }
  }

  lemma SliceNoDouble(s: string, a: nat, b: nat)
    requires a <= b <= |s| && NoDoubleSpace(s)
    ensures NoDoubleSpace(s[a..b])
  {
    var t := s[a..b];
    forall k | 0 <= k < |t| - 1 ensures !(t[k] == ' ' && t[k + 1] == ' ') {
      assert t[k] == s[a + k] && t[k + 1] == s[a + k + 1];
    }
  }

  lemma {:induction false} SplitNoDouble(s: string)
    requires NoDoubleSpace(s)
    ensures forall k :: 0 <= k < |SplitChar(s, '\n')| ==> NoDoubleSpace(SplitChar(s, '\n')[k])
    decreases |s|
  {
    var i := IndexOfChar(s, '\n');
    if i >= 0 {
      SliceNoDouble(s, 0, i);
      SliceNoDouble(s, i + 1, |s|);
      SplitNoDouble(s[i + 1..]);
      var r := SplitChar(s, '\n');
      assert r == [s[..i]] + SplitChar(s[i + 1..], '\n');
      forall k | 0 <= k < |r| ensures NoDoubleSpace(r[k]) {
        if k > 0 { assert r[k] == SplitChar(s[i + 1..], '\n')[k - 1]; }
      }
    }
  }

  lemma TrimNoDouble(s: string)
    requires NoDoubleSpace(s)
    ensures NoDoubleSpace(Trim(s))
  {
    TrimIsTrimmed(s);
    var a, b :| 0 <= a <= b <= |s| && Trim(s) == s[a..b];
    SliceNoDouble(s, a, b);
  }

  lemma {:induction false} JoinLinesNoDouble(parts: seq<string>)
    requires forall k :: 0 <= k < |parts| ==> NoDoubleSpace(parts[k])
    ensures NoDoubleSpace(Join(parts, "\n"))
  {
    if |parts| > 1 {
      JoinLinesNoDouble(parts[1..]);
      var a := parts[0];
      var rest := Join(parts[1..], "\n");
      var j := a + "\n" + rest;
      assert Join(parts, "\n") == j;
      forall k | 0 <= k < |j| - 1 ensures !(j[k] == ' ' && j[k + 1] == ' ') {
        if k < |a| - 1 { assert j[k] == a[k] && j[k + 1] == a[k + 1]; }
        else if k == |a| - 1 { assert j[k + 1] == '\n'; }
        else if k == |a| { assert j[k] == '\n'; }
        else { assert j[k] == rest[k - |a| - 1] && j[k + 1] == rest[k - |a|]; }
      }
    }
  }

  /** After `cleanWhitespace` no two spaces stand next to each other. */
  lemma CleanWhitespaceNoDoubleSpace(text: string)
    ensures NoDoubleSpace(CleanWhitespace(text))
  {
    var t1 := ReplaceAll(text, DoubleSpaceAt);
    CollapseNoDouble(text, 0);
    var t2 := ReplaceAll(t1, NewlinesAt);
    CapKeepsNoDouble(t1, 0);
    var ls := SplitChar(t2, '\n');
    SplitNoDouble(t2);
    var ts := TrimEach(ls);
    forall k | 0 <= k < |ts| ensures NoDoubleSpace(ts[k]) {
      TrimNoDouble(ls[k]);
    }
    JoinLinesNoDouble(ts);
    TrimNoDouble(Join(ts, "\n"));
  }

  predicate IsLine(x: string)
  {
    IsTrimmed(x) && '\n' !in x
  }

  predicate AllLines(xs: seq<string>)
  {
    forall k :: 0 <= k < |xs| ==> IsLine(xs[k])
  }

  /** The entries that remain once the blank ones at the front are dropped. */
  function DropLeadingBlanks(xs: seq<string>): (r: seq<string>)
    ensures |r| <= |xs| && r == xs[|xs| - |r|..]
    ensures r == [] || r[0] != []
  {
    if xs == [] then [] else if xs[0] == [] then DropLeadingBlanks(xs[1..]) else xs
  }

  /** The entries that remain once the blank ones at the end are dropped. */
  function DropTrailingBlanks(xs: seq<string>): (r: seq<string>)
    ensures |r| <= |xs| && r == xs[..|r|]
    ensures r == [] || r[|r| - 1] != []
  {
    if xs == [] then [] else if xs[|xs| - 1] == [] then DropTrailingBlanks(xs[..|xs| - 1]) else xs
  }

  lemma {:induction false} TrimStartJoin(xs: seq<string>)
    requires AllLines(xs)
    ensures TrimStart(Join(xs, "\n")) == Join(DropLeadingBlanks(xs), "\n")
  {
    if xs != [] {
      if |xs| == 1 {
        if xs[0] != [] { TrimStartOfTrimmed(xs[0]); }
      } else {
        var j := Join(xs, "\n");
        assert j == xs[0] + "\n" + Join(xs[1..], "\n");
        if xs[0] == [] {
          assert j == "\n" + Join(xs[1..], "\n");
          assert j[1..] == Join(xs[1..], "\n");
          TrimStartJoin(xs[1..]);
        } else {
          assert j[0] == xs[0][0];
          TrimStartOfTrimmed(j);
        }
      }
    }
  }

  lemma {:induction false} JoinSnoc(xs: seq<string>, sep: string)
    requires |xs| >= 2
    ensures Join(xs, sep) == Join(xs[..|xs| - 1], sep) + sep + xs[|xs| - 1]
  {
    if |xs| > 2 {
      JoinSnoc(xs[1..], sep);
      assert xs[1..][..|xs[1..]| - 1] == xs[..|xs| - 1][1..];
    } else {
      assert xs[..1] == [xs[0]];
    }
  }

  lemma {:induction false} TrimEndJoin(xs: seq<string>)
    requires AllLines(xs)
    ensures TrimEnd(Join(xs, "\n")) == Join(DropTrailingBlanks(xs), "\n")
    decreases |xs|
  {
    if xs != [] {
      var last := xs[|xs| - 1];
      if |xs| == 1 {
        if last != [] { TrimEndOfTrimmed(last); }
      } else {
        JoinSnoc(xs, "\n");
        var init := Join(xs[..|xs| - 1], "\n");
        var j := Join(xs, "\n");
        if last == [] {
          assert j == init + "\n";
          assert j[..|j| - 1] == init;
          TrimEndJoin(xs[..|xs| - 1]);
        } else {
          assert j[|j| - 1] == last[|last| - 1];
          TrimEndOfTrimmed(j);
        }
      }
    }
  }

  /** The lines of `text` once spaces and line breaks are capped and each line is trimmed. */
  function TrimmedLines(text: string): seq<string>
  {
    TrimEach(SplitChar(ReplaceAll(ReplaceAll(text, DoubleSpaceAt), NewlinesAt), '\n'))
  }

  lemma TrimmedLinesAreLines(text: string)
    ensures AllLines(TrimmedLines(text))
  {
    var ls := SplitChar(ReplaceAll(ReplaceAll(text, DoubleSpaceAt), NewlinesAt), '\n');
    var ts := TrimmedLines(text);
    SplitPiecesFree(ReplaceAll(ReplaceAll(text, DoubleSpaceAt), NewlinesAt), '\n');
    forall k | 0 <= k < |ts| ensures IsLine(ts[k]) {
      TrimIsTrimmed(ls[k]);
      var a, b :| 0 <= a <= b <= |ls[k]| && ts[k] == ls[k][a..b];
      assert '\n' !in ls[k];
    }
  }

  /** Trimming lines joined by line breaks drops the blank lines at both ends. */
  lemma TrimJoinedLines(ts: seq<string>)
    requires AllLines(ts)
    ensures AllLines(DropTrailingBlanks(DropLeadingBlanks(ts)))
    ensures Trim(Join(ts, "\n")) == Join(DropTrailingBlanks(DropLeadingBlanks(ts)), "\n")
  {
    TrimStartJoin(ts);
    var m := DropLeadingBlanks(ts);
    assert AllLines(m) by {
      forall k | 0 <= k < |m| ensures IsLine(m[k]) {
        assert m[k] == ts[|ts| - |m| + k];
      }
    }
    TrimEndJoin(m);
    var n := DropTrailingBlanks(m);
    assert AllLines(n) by {
      forall k | 0 <= k < |n| ensures IsLine(n[k]) {
        assert n[k] == m[k];
      }
    }
  }

  /** `cleanWhitespace` keeps the trimmed lines from the first non-blank one to the last. */
  lemma CleanWhitespaceIsJoin(text: string)
    ensures AllLines(DropTrailingBlanks(DropLeadingBlanks(TrimmedLines(text))))
    ensures CleanWhitespace(text) == Join(DropTrailingBlanks(DropLeadingBlanks(TrimmedLines(text))), "\n")
  {
    TrimmedLinesAreLines(text);
    TrimJoinedLines(TrimmedLines(text));
  }

  /**
   * After `cleanWhitespace` neither the text nor any of its lines starts or
   * ends with white space.
   */
  lemma CleanWhitespaceTrimmed(text: string)
    ensures IsTrimmed(CleanWhitespace(text))
    ensures AllTrimmed(SplitChar(CleanWhitespace(text), '\n'))
  {
    TrimIsTrimmed(Join(TrimmedLines(text), "\n"));
    CleanWhitespaceIsJoin(text);
    SplitOfLines(DropTrailingBlanks(DropLeadingBlanks(TrimmedLines(text))));
  }

  lemma SplitOfLines(n: seq<string>)
    requires AllLines(n)
    ensures AllTrimmed(SplitChar(Join(n, "\n"), '\n'))
  {
    if n != [] {
      SplitJoin(n, '\n');
    } else {
      assert SplitChar([], '\n') == [[]];
    }
  }

  /**
   * The cap on line breaks runs before the lines are trimmed, so lines of
   * white space between two lines of text still leave three line breaks.
   */
  lemma BlankLinesSurviveCap()
    ensures CleanWhitespace("a\n \n \nb") == "a\n\n\nb"
  {
    NoCapsInExample("a\n \n \nb");
    SplitOfExample();
    TrimmedExample();
    assert TrimmedLines("a\n \n \nb") == ["a", "", "", "b"];
    CleanWhitespaceIsJoin("a\n \n \nb");
    JoinedExample();
  }

  lemma TrimmedExample()
    ensures TrimEach(["a", " ", " ", "b"]) == ["a", "", "", "b"]
  {
    BlanksTrimToEmpty(" ");
    TrimStartOfTrimmed("a");
    TrimEndOfTrimmed("a");
    TrimStartOfTrimmed("b");
    TrimEndOfTrimmed("b");
    TrimEachFour(["a", " ", " ", "b"]);
  }

  lemma TrimEachFour(x: seq<string>)
    requires |x| == 4
    ensures TrimEach(x) == [Trim(x[0]), Trim(x[1]), Trim(x[2]), Trim(x[3])]
  {
    var t := TrimEach(x);
    var u := [Trim(x[0]), Trim(x[1]), Trim(x[2]), Trim(x[3])];
    assert t[0] == u[0] && t[1] == u[1] && t[2] == u[2] && t[3] == u[3];
  }

  lemma BlanksTrimToEmpty(w: string)
    requires w == " "
    ensures Trim(w) == ""
  {
    assert TrimStart(w) == TrimStart(w[1..]);
  }

  lemma JoinedExample()
    ensures DropTrailingBlanks(DropLeadingBlanks(["a", "", "", "b"])) == ["a", "", "", "b"]
    ensures Join(["a", "", "", "b"], "\n") == "a\n\n\nb"
  {
    assert Join(["b"], "\n") == "b";
    assert ["a", "", "", "b"][1..] == ["", "", "b"];
    assert ["", "", "b"][1..] == ["", "b"];
    assert ["", "b"][1..] == ["b"];
  }

  /** Neither cap applies to the example text. */
  lemma NoCapsInExample(s: string)
    requires s == "a\n \n \nb"
    ensures ReplaceAll(ReplaceAll(s, DoubleSpaceAt), NewlinesAt) == s
  {
    NoDoubleSpaceInExample(s);
    forall k | 0 <= k < |s| ensures !ValidHit(s, k, NewlinesAt(s, k)) {
      if s[k] == '\n' { assert Run(s, k, IsNewline) == 1 + Run(s, k + 1, IsNewline); }
    }
    ReplaceWithoutHits(s, 0, NewlinesAt);
  }

  lemma NoDoubleSpaceInExample(s: string)
    requires s == "a\n \n \nb"
    ensures ReplaceAll(s, DoubleSpaceAt) == s
  {
    forall k | 0 <= k < |s| ensures !ValidHit(s, k, DoubleSpaceAt(s, k)) {
      if s[k] == ' ' { assert Run(s, k, IsBlankChar) == 1 + Run(s, k + 1, IsBlankChar); }
    }
    ReplaceWithoutHits(s, 0, DoubleSpaceAt);
    assert s[0..] == s;
  }

  lemma SplitOfExample()
    ensures SplitChar("a\n \n \nb", '\n') == ["a", " ", " ", "b"]
  {
    var parts := ["a", " ", " ", "b"];
    assert Join(parts, "\n") == "a\n \n \nb" by {
      assert parts[1..] == [" ", " ", "b"];
      assert [" ", " ", "b"][1..] == [" ", "b"];
      assert [" ", "b"][1..] == ["b"];
    }
    SplitJoin(parts, '\n');
  }

  // ---------------------------------------------------------------------
  // preprocess
  // ---------------------------------------------------------------------

  function Preprocessed(text: string): string
  {
    CleanWhitespace(ListsFormatted(Restored(FixExtractionIssues(text))))
  }

  /** `TextPreprocessor.preprocess(text)`: its result is trimmed, line by line, and has no double spaces. */
  method Preprocess(text: string) returns (r: string)
    ensures r == Preprocessed(text)
    ensures IsTrimmed(r) && AllTrimmed(SplitChar(r, '\n')) && NoDoubleSpace(r)
  {
    var t := FixExtractionIssues(text);
    t := RestoreParagraphStructure(t);
    t := DetectAndFormatLists(t);
    r := CleanWhitespace(t);
    CleanWhitespaceTrimmed(t);
    CleanWhitespaceNoDoubleSpace(t);
  }

  // ---------------------------------------------------------------------
  // preprocess is not idempotent
  // ---------------------------------------------------------------------

  /** The junk filter replaces every bullet `•`: it is outside the kept class. */
  lemma FixExtractionDropsBullets(text: string)
    ensures '\U{2022}' !in FixExtractionIssues(text)
  {
    FixExtractionIssuesClean(text);
    assert !IsKept('\U{2022}');
  }

  /**
   * The list pass writes the bullet that the first pass of a second run
   * removes: "- apple pie" preprocesses to "• apple pie", which in turn
   * preprocesses to "apple pie".
   */
  lemma PreprocessNotIdempotent(text: string)
    requires text == "- apple pie"
    ensures Preprocessed(text) == "\U{2022} apple pie"
    ensures '\U{2022}' in Preprocessed(text)
    ensures Preprocessed(Preprocessed(text)) == "apple pie"
  {
    var x := "\U{2022} apple pie";
    DashedPreprocessed(text, x);
    BulletedPreprocessed(x, "  apple pie", "apple pie");
    assert x[0] == '\U{2022}';
  }

  lemma DashedPreprocessed(s: string, x: string)
    requires s == "- apple pie" && x == "\U{2022} apple pie"
    ensures Preprocessed(s) == x
  {
    DashedFixed(s);
    DashedRestored(s);
    var r := Restored(s);
    assert r == Join(["", s, ""], "\n");
    SplitJoin(["", s, ""], '\n');
    DashedListed(s, x);
    var padded := PaddedLines("\n\n", x);
    assert ListsFormatted(r) == Join(padded, "\n");
    TidyLine(x);
    PaddedJoin("\n\n", x);
    CleanOfPadded("\n\n", x);
  }

  lemma BulletedPreprocessed(x: string, blanked: string, t: string)
    requires x == "\U{2022} apple pie" && blanked == "  apple pie" && t == "apple pie"
    ensures Preprocessed(x) == t
  {
    BulletedFixed(x, blanked);
    BulletedRestored(blanked, t);
    var r := Restored(blanked);
    assert r == Join(["", t, ""], "\n");
    SplitJoin(["", t, ""], '\n');
    BulletedListed(t);
    var padded := PaddedLines("\n", t);
    assert ListsFormatted(r) == Join(padded, "\n");
    TidyLine(t);
    PaddedJoin("\n", t);
    CleanOfPadded("\n", t);
  }

  /** Both sample lines are trimmed single lines without double spaces. */
  lemma TidyLine(x: string)
    requires x == "\U{2022} apple pie" || x == "apple pie"
    ensures x != [] && IsTrimmed(x) && NoDoubleSpace(x) && '\n' !in x
  {
  }

  /** On "- apple pie" the extraction fixes change nothing. */
  lemma DashedFixed(s: string)
    requires s == "- apple pie"
    ensures FixExtractionIssues(s) == s
  {
    assert forall k :: 1 <= k < |s| ==> s[k] != '-' && !IsLineTerminator(s[k]) && s[k] != '0';
    NoHyphenBreak(s);
    NoPageNumber(s);
    LoneLNeverMatches(s);
    NoZeroBeforeCapital(s);
    assert forall k :: 0 <= k < |s| ==> IsKept(s[k]);
    ReplaceJunkKeeps(s);
  }

  /** On "• apple pie" the extraction fixes only blank the bullet. */
  lemma BulletedFixed(s: string, blanked: string)
    requires s == "\U{2022} apple pie" && blanked == "  apple pie"
    ensures FixExtractionIssues(s) == blanked
  {
    assert forall k :: 0 <= k < |s| ==> s[k] != '-' && !IsLineTerminator(s[k]) && s[k] != '0';
    NoHyphenBreak(s);
    NoPageNumber(s);
    LoneLNeverMatches(s);
    NoZeroBeforeCapital(s);
    assert FixExtractionIssues(s) == ReplaceJunk(s);
    BlankedBullet(s, blanked);
  }

  lemma BlankedBullet(s: string, blanked: string)
    requires s == "\U{2022} apple pie" && blanked == "  apple pie"
    ensures ReplaceJunk(s) == blanked
  {
    ReplaceJunkKeeps(s);
    assert forall k :: 1 <= k < |s| ==> IsKept(s[k]) && s[k] == blanked[k];
    assert !IsKept(s[0]);
  }

  lemma NoHyphenBreak(s: string)
    requires forall k :: 1 <= k < |s| ==> s[k] != '-'
    ensures ReplaceAll(s, HyphenBreakAt) == s
  {
    assert forall k :: 0 <= k < |s| ==> !ValidHit(s, k, HyphenBreakAt(s, k));
    ReplaceWithoutHits(s, 0, HyphenBreakAt);
  }

  lemma NoPageNumber(s: string)
    requires s != [] && !IsDigit(s[0]) && !IsSpace(s[0])
    requires forall k :: 1 <= k < |s| ==> !IsLineTerminator(s[k])
    ensures ReplaceAll(s, PageNumberAt) == s
  {
    forall k | 0 <= k < |s| ensures !ValidHit(s, k, PageNumberAt(s, k)) {
      if k > 0 {
        assert !LineStart(s, k);
      }
    }
    ReplaceWithoutHits(s, 0, PageNumberAt);
  }

  lemma NoZeroBeforeCapital(s: string)
    requires forall k :: 0 <= k < |s| ==> s[k] != '0'
    ensures ReplaceAll(s, ZeroBeforeCapitalAt) == s
  {
    ReplaceWithoutHits(s, 0, ZeroBeforeCapitalAt);
  }

  /** A line on its own counts as a heading when it has 2 to 15 words and no closing punctuation. */
  lemma LoneHeading(line: string)
    requires line != [] && 2 <= |SplitSpaces(line)| <= 15 && !EndsWithOneOf(line, ".!?;,")
    ensures IsLikelyHeading(line, None, None)
  {
  }

  /** The paragraph rebuild sets a lone heading apart with a blank line on each side. */
  lemma LoneLineRebuild(text: string, line: string)
    requires line != [] && '\n' !in text && Trim(text) == line
    requires IsLikelyHeading(line, None, None)
    ensures RestoredLines(text) == ["", line, ""]
  {
    SplitNone(text, '\n');
    var lines := [text];
    assert Before(lines, 0) == None && After(lines, 0) == None;
    var st := RebuildStep(lines, 0, Rebuild([], []));
    assert st == Rebuild(["", line, ""], []);
    assert RebuildFrom(lines, 1, st) == ["", line, ""];
  }

  /** "- apple pie" alone is a heading: three words, and no line before it. */
  lemma DashedRestored(s: string)
    requires s == "- apple pie"
    ensures RestoredLines(s) == ["", s, ""]
  {
    DashedWords(s);
    LoneHeading(s);
    TrimStartOfTrimmed(s);
    TrimEndOfTrimmed(s);
    LoneLineRebuild(s, s);
  }

  /** "  apple pie" trims to a heading of two words. */
  lemma BulletedRestored(s: string, t: string)
    requires s == "  apple pie" && t == "apple pie"
    ensures RestoredLines(s) == ["", t, ""]
  {
    assert Trim(s) == t by {
      assert TrimStart(s) == TrimStart(s[1..]) == TrimStart(s[2..]);
      assert s[2..] == t;
      TrimStartOfTrimmed(t);
      TrimEndOfTrimmed(t);
    }
    BulletedWords(t);
    LoneHeading(t);
    LoneLineRebuild(s, t);
  }

  /** The `split(/\s+/)` search passes over characters outside the separator class. */
  lemma {:induction false} SplitRunsSkip(s: string, sep: char -> bool, start: nat, from: nat, to: nat)
    requires start <= from <= to <= |s|
    requires forall k :: from <= k < to ==> !sep(s[k])
    ensures SplitRunsFrom(s, sep, 1, start, from) == SplitRunsFrom(s, sep, 1, start, to)
    decreases |s| - from
  {
    if from < to {
      assert Run(s, from, sep) == 0;
      SplitRunsSkip(s, sep, start, from + 1, to);
    }
  }

  /** The search cuts a piece at a single separator character. */
  lemma SplitRunsCut(s: string, sep: char -> bool, start: nat, at: nat)
    requires start <= at && at + 1 < |s| && sep(s[at]) && !sep(s[at + 1])
    ensures SplitRunsFrom(s, sep, 1, start, at) == [s[start..at]] + SplitRunsFrom(s, sep, 1, at + 1, at + 1)
  {
    assert Run(s, at + 1, sep) == 0;
    assert Run(s, at, sep) == 1;
  }

  lemma DashedWords(s: string)
    requires s == "- apple pie"
    ensures |SplitSpaces(s)| == 3
  {
    assert forall k :: 0 <= k < |s| ==> (IsSpace(s[k]) <==> k == 1 || k == 7);
    SplitRunsSkip(s, IsSpace, 8, 8, 11);
    SplitRunsSkip(s, IsSpace, 2, 2, 7);
    SplitRunsSkip(s, IsSpace, 0, 0, 1);
    SplitRunsCut(s, IsSpace, 2, 7);
    SplitRunsCut(s, IsSpace, 0, 1);
  }

  lemma BulletedWords(t: string)
    requires t == "apple pie"
    ensures |SplitSpaces(t)| == 2
  {
    assert forall k :: 0 <= k < |t| ==> (IsSpace(t[k]) <==> k == 5);
    SplitRunsSkip(t, IsSpace, 6, 6, 9);
    SplitRunsSkip(t, IsSpace, 0, 0, 5);
    SplitRunsCut(t, IsSpace, 0, 5);
  }

  /** The list pass turns the dash into a bullet and opens the list with a blank line. */
  lemma DashedListed(s: string, x: string)
    requires s == "- apple pie" && x == "\U{2022} apple pie"
    ensures ListLines(["", s, ""], 0, false) == ["", "", x, ""]
  {
    var lines := ["", s, ""];
    DashedItem(s, x);
    assert ListLines(lines, 2, true) == [""];
    assert ListLines(lines, 1, false) == ["", x, ""];
  }

  lemma DashedItem(s: string, x: string)
    requires s == "- apple pie" && x == "\U{2022} apple pie"
    ensures Trim(s) == s && IsListItem(s) && FormatLine(s) == x
  {
    TrimStartOfTrimmed(s);
    TrimEndOfTrimmed(s);
    assert SpaceRun(s, 1) == 1;
    assert IsListItem(s);
    assert s[2..] == "apple pie";
  }

  lemma BulletedListed(t: string)
    requires t == "apple pie"
    ensures ListLines(["", t, ""], 0, false) == ["", t, ""]
  {
    var lines := ["", t, ""];
    TrimStartOfTrimmed(t);
    TrimEndOfTrimmed(t);
    assert Run(t, 0, IsDigit) == 0;
    assert !IsListItem(t);
    assert ListLines(lines, 2, false) == [""];
    assert ListLines(lines, 1, false) == [t, ""];
  }

  /** The lines of a padded line, joined, are the padding, the line and a line break. */
  lemma PaddedJoin(lead: string, x: string)
    requires lead == "\n" || lead == "\n\n"
    ensures Join(PaddedLines(lead, x), "\n") == lead + x + "\n"
  {
    assert Join([x, ""], "\n") == x + "\n";
    if lead == "\n\n" {
      assert Join(["", x, ""], "\n") == "\n" + x + "\n";
    }
  }

  function PaddedLines(lead: string, x: string): seq<string>
  {
    if lead == "\n" then ["", x, ""] else ["", "", x, ""]
  }

  /**
   * `cleanWhitespace` of one trimmed line without double spaces, between a
   * few blank lines, gives that line.
   */
  lemma CleanOfPadded(lead: string, x: string)
    requires lead == "\n" || lead == "\n\n"
    requires x != [] && IsTrimmed(x) && NoDoubleSpace(x) && '\n' !in x
    ensures CleanWhitespace(lead + x + "\n") == x
  {
    var t := lead + x + "\n";
    var lines := PaddedLines(lead, x);
    PaddedNoCaps(lead, x);
    PaddedJoin(lead, x);
    SplitJoin(lines, '\n');
    PaddedTrimmed(lead, x);
    CleanWhitespaceIsJoin(t);
    PaddedDrops(lead, x);
  }

  lemma PaddedDrops(lead: string, x: string)
    requires x != []
    ensures DropTrailingBlanks(DropLeadingBlanks(PaddedLines(lead, x))) == [x]
  {
    var lines := PaddedLines(lead, x);
    var tail := [x, ""];
    assert DropLeadingBlanks(tail) == tail;
    if lead == "\n" {
      assert lines[1..] == tail;
    } else {
      assert lines[1..] == [""] + tail && lines[1..][1..] == tail;
    }
    assert DropLeadingBlanks(lines) == tail;
    assert tail[..1] == [x];
  }

  lemma PaddedTrimmed(lead: string, x: string)
    requires IsTrimmed(x)
    ensures TrimEach(PaddedLines(lead, x)) == PaddedLines(lead, x)
  {
    TrimStartOfTrimmed(x);
    TrimEndOfTrimmed(x);
    var lines := PaddedLines(lead, x);
    assert forall k :: 0 <= k < |lines| ==> Trim(lines[k]) == lines[k];
  }

  /** Neither cap of `cleanWhitespace` applies to a padded line without double spaces. */
  lemma PaddedNoCaps(lead: string, x: string)
    requires lead == "\n" || lead == "\n\n"
    requires x != [] && NoDoubleSpace(x) && '\n' !in x
    ensures ReplaceAll(ReplaceAll(lead + x + "\n", DoubleSpaceAt), NewlinesAt) == lead + x + "\n"
  {
    var t := lead + x + "\n";
    var n := |lead|;
    assert forall k :: n <= k < n + |x| ==> t[k] == x[k - n];
    forall k | 0 <= k < |t| ensures !ValidHit(t, k, DoubleSpaceAt(t, k)) {
      if t[k] == ' ' {
        assert n <= k < n + |x|;
        assert t[k + 1] != ' ';
        assert Run(t, k + 1, IsBlankChar) == 0;
      }
    }
    ReplaceWithoutHits(t, 0, DoubleSpaceAt);
    assert t[0..] == t;
    forall k | 0 <= k < |t| ensures !ValidHit(t, k, NewlinesAt(t, k)) {
      if t[k] == '\n' {
        assert k < n || k == |t| - 1;
        if k + 1 < |t| && t[k + 1] == '\n' {
          assert k + 2 < |t| && t[k + 2] != '\n';
          assert Run(t, k + 2, IsNewline) == 0;
        } else {
          assert Run(t, k + 1, IsNewline) == 0;
        }
      }
    }
    ReplaceWithoutHits(t, 0, NewlinesAt);
  }
}
