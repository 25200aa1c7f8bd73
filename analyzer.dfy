/**
 * `ContentAnalyzer` of the upload page's content processor: the cleaned
 * text of an upload with its lines, paragraphs and sentences, the headings
 * and sections found in it, and the split of one long section into parts.
 * Key-concept extraction is in module `Concepts`.
 */
module Analyzer {
  import opened TextUtil
  import Preprocessor
  import Cleaner
  import Patterns

  // ---------------------------------------------------------------------
  // The analyzer's fields
  // ---------------------------------------------------------------------

  const SplitMark: string := "|SPLIT|"

  /** `([.!?])\s+` at `i`, replaced by the mark and `|SPLIT|`: all the white space after the mark is taken. */
  function SentenceEndAt(s: string, i: nat): Option<Hit>
  {
    if i < |s| && (s[i] == '.' || s[i] == '!' || s[i] == '?') && SpaceRun(s, i + 1) >= 1
    then Some(Hit(i + 1 + SpaceRun(s, i + 1), [s[i]] + SplitMark))
    else None
  }

  /** The filter of `extractSentences`: more than 15 characters and at least four space-separated pieces. */
  predicate IsSentence(s: string)
  {
    |s| > 15 && |SplitChar(s, ' ')| >= 4
  }

  function KeptSentences(pieces: seq<string>): (r: seq<string>)
    ensures |r| <= |pieces|
    ensures forall k :: 0 <= k < |r| ==> IsSentence(r[k]) && IsTrimmed(r[k])
  {
    if pieces == [] then []
    else
      TrimIsTrimmed(pieces[0]);
      (if IsSentence(Trim(pieces[0])) then [Trim(pieces[0])] else []) + KeptSentences(pieces[1..])
  }

  /** `extractSentences(text)`: split after each sentence mark followed by white space, trim, and keep the long ones. */
  function ExtractSentences(text: string): (r: seq<string>)
    ensures forall k :: 0 <= k < |r| ==> IsSentence(r[k]) && IsTrimmed(r[k])
  {
    KeptSentences(SplitString(ReplaceAll(text, SentenceEndAt), SplitMark))
  }

  /**
   * A text with no sentence mark followed by white space, and without the
   * split marker in it, is one sentence: its trimmed form, if that is long
   * enough.
   */
  lemma OneSentence(text: string)
    requires forall k :: 0 <= k < |text| ==> SentenceEndAt(text, k).None?
    requires !Contains(text, SplitMark)
    ensures ExtractSentences(text) == if IsSentence(Trim(text)) then [Trim(text)] else []
  {
    ReplaceWithoutHits(text, 0, SentenceEndAt);
    assert ReplaceAll(text, SentenceEndAt) == text;
    assert SplitString(text, SplitMark) == [text];
    assert KeptSentences([text]) == (if IsSentence(Trim(text)) then [Trim(text)] else []) + KeptSentences([]);
  }

  /** The state `new ContentAnalyzer(text)` sets up. */
  datatype Analysis = Analysis(rawText: string, text: string, lines: seq<string>, paragraphs: seq<string>,
                               sentences: seq<string>, patterns: Patterns.ContentPatterns)

  function AnalysisOf(raw: string): Analysis
  {
    var text := Cleaner.Clean(Preprocessor.Preprocessed(raw));
    Analysis(raw, text, Patterns.NonBlankOnly(SplitChar(text, '\n')), Patterns.NonBlankOnly(SplitBlankLines(text)),
             ExtractSentences(text), Patterns.PatternsOf(text))
  }

  /** `new ContentAnalyzer(text)`: preprocess, clean, and split the result. */
  method NewContentAnalyzer(raw: string) returns (a: Analysis)
    ensures a == AnalysisOf(raw)
    ensures forall k :: 0 <= k < |a.lines| ==> Trim(a.lines[k]) != [] && '\n' !in a.lines[k]
    ensures forall k :: 0 <= k < |a.paragraphs| ==> Trim(a.paragraphs[k]) != []
    ensures forall k :: 0 <= k < |a.sentences| ==> IsSentence(a.sentences[k]) && IsTrimmed(a.sentences[k])
  {
    var pre := Preprocessor.Preprocess(raw);
    var text := Cleaner.Clean(pre);
    var patterns := Patterns.DetectPatterns(text);
    var lines := SplitChar(text, '\n');
    SplitPiecesFree(text, '\n');
    NonBlankOnlyKeeps(lines, '\n');
    a := Analysis(raw, text, Patterns.NonBlankOnly(lines), Patterns.NonBlankOnly(SplitBlankLines(text)),
                  ExtractSentences(text), patterns);
  }

  /** The kept elements are elements of the input. */
  lemma {:induction false} NonBlankOnlyKeeps(xs: seq<string>, c: char)
    requires forall k :: 0 <= k < |xs| ==> c !in xs[k]
    ensures forall k :: 0 <= k < |Patterns.NonBlankOnly(xs)| ==> c !in Patterns.NonBlankOnly(xs)[k]
  {
    if xs != [] {
      NonBlankOnlyKeeps(xs[1..], c);
      var head := if Trim(xs[0]) != [] then [xs[0]] else [];
      assert Patterns.NonBlankOnly(xs) == head + Patterns.NonBlankOnly(xs[1..]);
    }
  }

  // ---------------------------------------------------------------------
  // isHeading, getHeadingLevel, cleanHeading
  // ---------------------------------------------------------------------

  /** `/^[A-Z][\w\s]+$/`: a capital and then one or more word or white-space characters. */
  predicate CapitalPhrase(line: string)
  {
    |line| >= 2 && IsUpper(line[0]) && forall k :: 1 <= k < |line| ==> IsWordChar(line[k]) || IsSpace(line[k])
  }

  /**
   * `isHeading(line)`. The test "at least 70% of the words capitalised" is
   * written `10 * capitalised >= 7 * words`, which agrees with the
   * floating-point product for the 2 to 12 words it sees.
   */
  predicate IsHeading(line: string)
  {
    var words := SplitSpaces(line);
    if line == [] || |line| > 100 then false
    else if |words| < 2 || |words| > 12 then false
    else if line == Upper(line) then true
    else if Preprocessor.NumberedTitle(line) then true
    else if CapitalPhrase(line) && !Preprocessor.EndsWithOneOf(line, ".!?") then true
    else 10 * Preprocessor.CapitalisedCount(words) >= 7 * |words|
  }

  /** Headings are non-empty, at most 100 characters long, and have 2 to 12 words. */
  lemma HeadingBounds(line: string)
    requires IsHeading(line)
    ensures 1 <= |line| <= 100 && 2 <= |SplitSpaces(line)| <= 12
  {
  }

  /** Every line of 2 to 12 words and at most 100 characters without a lower-case letter is a level-1 heading. */
  lemma ShoutedLineIsHeading(line: string)
    requires 1 <= |line| <= 100 && 2 <= |SplitSpaces(line)| <= 12
    requires forall k :: 0 <= k < |line| ==> !IsLower(line[k])
    ensures IsHeading(line) && HeadingLevel(line) == 1
  {
    Preprocessor.UpperOfShouted(line);
  }

  /** `/^\d+\.\s/`. */
  predicate NumberStop(line: string)
  {
    var d := Run(line, 0, IsDigit);
    d >= 1 && d + 1 < |line| && line[d] == '.' && IsSpace(line[d + 1])
  }

  /** `getHeadingLevel(line)`: 1 for a numbered or upper-case line, 2 otherwise. */
  function HeadingLevel(line: string): (level: nat)
    ensures level == 1 || level == 2
    ensures level == 2 <==> !NumberStop(line) && line != Upper(line)
  {
    if NumberStop(line) then 1 else if line == Upper(line) then 1 else 2
  }

  predicate IsHash(c: char) { c == '#' }
  predicate IsStopOrColon(c: char) { c == ':' || c == '.' }

  /** `.replace(/^#+\s*\/, '')`. */
  function DropHashes(t: string): string
  {
    var h := Run(t, 0, IsHash);
    if h >= 1 then t[h + SpaceRun(t, h)..] else t
  }

  /** `.replace(/^\d+[\.)]\s*\/, '')`. */
  function DropNumber(t: string): string
  {
    var d := Run(t, 0, IsDigit);
    if d >= 1 && d < |t| && (t[d] == '.' || t[d] == ')') then t[d + 1 + SpaceRun(t, d + 1)..] else t
  }

  /** `.replace(/^[•\-*]\s*\/, '')`. */
  function DropBullet(t: string): string
  {
    if |t| >= 1 && (t[0] == '•' || t[0] == '-' || t[0] == '*') then t[1 + SpaceRun(t, 1)..] else t
  }

  /** How many characters satisfying `p` end `s`. */
  function TrailingRun(s: string, p: char -> bool): (n: nat)
    ensures n <= |s|
    ensures forall k :: |s| - n <= k < |s| ==> p(s[k])
    ensures n == |s| || !p(s[|s| - n - 1])
  {
    if s != [] && p(s[|s| - 1]) then 1 + TrailingRun(s[..|s| - 1], p) else 0
  }

  /** `.replace(/[:.]+$/, '')`: the leftmost match reaching the end is the whole final run of stops and colons. */
  function DropTrailingStops(t: string): string
  {
    t[..|t| - TrailingRun(t, IsStopOrColon)]
  }

  /** `cleanHeading(text)`. */
  function CleanHeading(text: string): string
  {
    Trim(DropTrailingStops(DropBullet(DropNumber(DropHashes(text)))))
  }

  /** Whether `r` is a contiguous piece of `t`. */
  predicate Infix(r: string, t: string)
  {
    exists i, j :: 0 <= i <= j <= |t| && r == t[i..j]
  }

  lemma InfixTrans(a: string, b: string, c: string)
    requires Infix(a, b) && Infix(b, c)
    ensures Infix(a, c)
  {
    var i, j :| 0 <= i <= j <= |b| && a == b[i..j];
    var k, l :| 0 <= k <= l <= |c| && b == c[k..l];
    forall m | 0 <= m < |a| ensures a[m] == c[k + i + m] {
      assert a[m] == b[i + m];
    }
    assert a == c[k + i..k + j];
  }

  lemma SuffixInfix(t: string, n: nat)
    requires n <= |t|
    ensures Infix(t[n..], t)
  {
    assert t[n..] == t[n..|t|];
  }

  lemma PrefixInfix(t: string, n: nat)
    requires n <= |t|
    ensures Infix(t[..n], t)
  {
    assert t[..n] == t[0..n];
  }

  lemma SelfInfix(t: string)
    ensures Infix(t, t)
  {
    assert t == t[0..|t|];
  }

  /** Each of the first three steps only drops a prefix. */
  lemma DropsArePieces(t: string)
    ensures Infix(DropHashes(t), t) && Infix(DropNumber(t), t) && Infix(DropBullet(t), t)
  {
    DropHashesPiece(t);
    DropNumberPiece(t);
    DropBulletPiece(t);
  }

  lemma DropHashesPiece(t: string)
    ensures Infix(DropHashes(t), t)
  {
    var h := Run(t, 0, IsHash);
    if h >= 1 { SuffixInfix(t, h + SpaceRun(t, h)); } else { SelfInfix(t); }
  }

  lemma DropNumberPiece(t: string)
    ensures Infix(DropNumber(t), t)
  {
    var d := Run(t, 0, IsDigit);
    if d >= 1 && d < |t| && (t[d] == '.' || t[d] == ')') { SuffixInfix(t, d + 1 + SpaceRun(t, d + 1)); } else { SelfInfix(t); }
  }

  lemma DropBulletPiece(t: string)
    ensures Infix(DropBullet(t), t)
  {
    if |t| >= 1 && (t[0] == '•' || t[0] == '-' || t[0] == '*') { SuffixInfix(t, 1 + SpaceRun(t, 1)); } else { SelfInfix(t); }
  }

  /** A cleaned heading is trimmed and is a contiguous piece of the heading line: only its ends are cut. */
  lemma CleanHeadingShape(text: string)
    ensures IsTrimmed(CleanHeading(text))
    ensures Infix(CleanHeading(text), text)
  {
    var a := DropHashes(text);
    var b := DropNumber(a);
    var c := DropBullet(b);
    var d := DropTrailingStops(c);
    DropsArePieces(text);
    DropsArePieces(a);
    DropsArePieces(b);
    PrefixInfix(c, |c| - TrailingRun(c, IsStopOrColon));
    TrimIsTrimmed(d);
    InfixTrans(b, a, text);
    InfixTrans(c, b, text);
    InfixTrans(d, c, text);
    InfixTrans(Trim(d), d, text);
  }

  /** A line that ends with stops or colons and has no marker in front loses exactly those. */
  lemma CleanHeadingDropsStops(title: string, stops: string)
    requires title != [] && !IsSpace(title[0]) && !IsSpace(title[|title| - 1]) && !IsStopOrColon(title[|title| - 1])
    requires !IsHash(title[0]) && !IsDigit(title[0]) && title[0] != '•' && title[0] != '-' && title[0] != '*'
    requires forall k :: 0 <= k < |stops| ==> IsStopOrColon(stops[k])
    ensures CleanHeading(title + stops) == title
  {
    var t := title + stops;
    assert Run(t, 0, IsHash) == 0;
    assert Run(t, 0, IsDigit) == 0;
    assert TrailingRun(t, IsStopOrColon) == |stops| by {
      TrailingRunOfSuffix(title, stops);
    }
    assert t[..|t| - |stops|] == title;
    TrimStartOfTrimmed(title);
    TrimEndOfTrimmed(title);
  }

  lemma {:induction false} TrailingRunOfSuffix(title: string, stops: string)
    requires title != [] && !IsStopOrColon(title[|title| - 1])
    requires forall k :: 0 <= k < |stops| ==> IsStopOrColon(stops[k])
    ensures TrailingRun(title + stops, IsStopOrColon) == |stops|
    decreases |stops|
  {
    var t := title + stops;
    if stops == [] {
      assert t == title;
    } else {
      assert t[..|t| - 1] == title + stops[..|stops| - 1];
      TrailingRunOfSuffix(title, stops[..|stops| - 1]);
    }
  }

  // ---------------------------------------------------------------------
  // detectSections
  // ---------------------------------------------------------------------

  datatype Section = Section(title: string, level: nat, content: seq<string>, rawContent: string)

  /** `paragraph.split('\n').filter(l => l.trim())`. */
  function ParagraphLines(paragraph: string): seq<string>
  {
    Patterns.NonBlankOnly(SplitChar(paragraph, '\n'))
  }

  /** `lines[0] || ''`. */
  function FirstLine(lines: seq<string>): string
  {
    if lines == [] then "" else lines[0]
  }

  /** `lines.slice(1)`. */
  function Rest(lines: seq<string>): seq<string>
  {
    if lines == [] then [] else lines[1..]
  }

  /** The sections pushed so far and `currentSection`. */
  datatype SectionState = SectionState(sections: seq<Section>, current: Option<Section>)

  /** `sections.push(currentSection)` when there is a current section with content. */
  function Flush(st: SectionState): seq<Section>
  {
    if st.current.Some? && |st.current.value.content| > 0 then st.sections + [st.current.value] else st.sections
  }

  /** One paragraph of the `forEach` loop. */
  function SectionStep(st: SectionState, paragraph: string, index: nat): (r: SectionState)
    ensures r.current.Some?
    ensures r.sections == st.sections || r.sections == Flush(st)
  {
    var lines := ParagraphLines(paragraph);
    var first := FirstLine(lines);
    var heading := IsHeading(first);
    if heading || (|st.sections| == 0 && index == 0) then
      var content := if heading then Rest(lines) else lines;
      SectionState(Flush(st), Some(Section(if heading then CleanHeading(first) else "Introduction",
                                           HeadingLevel(first), content, Join(content, " "))))
    else if st.current.Some? then
      var c := st.current.value;
      SectionState(st.sections, Some(Section(c.title, c.level, c.content + lines, c.rawContent + " " + Join(lines, " "))))
    else
      SectionState(st.sections, Some(Section("Content", 1, lines, Join(lines, " "))))
  }

  function SectionsFrom(paragraphs: seq<string>, i: nat, st: SectionState): SectionState
    requires i <= |paragraphs|
    decreases |paragraphs| - i
  {
    if i == |paragraphs| then st else SectionsFrom(paragraphs, i + 1, SectionStep(st, paragraphs[i], i))
  }

  /** The sections of the loop and the final push, before the split of a lone long section. */
  function LoopSections(paragraphs: seq<string>): seq<Section>
  {
    Flush(SectionsFrom(paragraphs, 0, SectionState([], None)))
  }

  function Sections(paragraphs: seq<string>): seq<Section>
  {
    var s := LoopSections(paragraphs);
    if |s| == 1 && |s[0].content| > 20 then SplitLarge(s[0]) else s
  }

  /** `detectSections()`. */
  method DetectSections(a: Analysis) returns (sections: seq<Section>)
    ensures sections == Sections(a.paragraphs)
  {
    var paragraphs := a.paragraphs;
    sections := [];
    var currentSection: Option<Section> := None;
    var index := 0;
    while index < |paragraphs|
      invariant 0 <= index <= |paragraphs|
      invariant SectionsFrom(paragraphs, index, SectionState(sections, currentSection))
        == SectionsFrom(paragraphs, 0, SectionState([], None))
    {
      var st := SectionStep(SectionState(sections, currentSection), paragraphs[index], index);
      sections, currentSection := st.sections, st.current;
      index := index + 1;
    }
    sections := Flush(SectionState(sections, currentSection));
    if |sections| == 1 && |sections[0].content| > 20 {
      sections := SplitLargeSection(sections[0]);
    }
  }

  predicate AllFilled(ss: seq<Section>)
  {
    forall k :: 0 <= k < |ss| ==> |ss[k].content| > 0
  }

  lemma FlushFilled(st: SectionState)
    requires AllFilled(st.sections)
    ensures AllFilled(Flush(st))
  {
  }

  lemma StepFilled(st: SectionState, paragraph: string, index: nat)
    requires AllFilled(st.sections)
    ensures AllFilled(SectionStep(st, paragraph, index).sections)
  {
    FlushFilled(st);
  }

  lemma {:induction false} SectionsFromFilled(paragraphs: seq<string>, i: nat, st: SectionState)
    requires i <= |paragraphs| && AllFilled(st.sections)
    ensures AllFilled(SectionsFrom(paragraphs, i, st).sections) && AllFilled(Flush(SectionsFrom(paragraphs, i, st)))
    decreases |paragraphs| - i
  {
    if i < |paragraphs| {
      StepFilled(st, paragraphs[i], i);
      SectionsFromFilled(paragraphs, i + 1, SectionStep(st, paragraphs[i], i));
    } else {
      FlushFilled(st);
    }
  }

  /** Every section `detectSections` returns has content. */
  lemma SectionsFilled(paragraphs: seq<string>)
    ensures AllFilled(Sections(paragraphs))
  {
    SectionsFromFilled(paragraphs, 0, SectionState([], None));
    var s := LoopSections(paragraphs);
    if |s| == 1 && |s[0].content| > 20 {
      SplitLargeShape(s[0]);
    }
  }

  /** The first section is, or will be, an "Introduction" with content. */
  predicate IntroductionFirst(st: SectionState)
  {
    (st.sections == [] && st.current.Some? && st.current.value.title == "Introduction" && |st.current.value.content| > 0)
    || (st.sections != [] && st.sections[0].title == "Introduction")
  }

  lemma SectionsFromNext(paragraphs: seq<string>, i: nat, st: SectionState)
    requires i < |paragraphs|
    ensures SectionsFrom(paragraphs, i, st) == SectionsFrom(paragraphs, i + 1, SectionStep(st, paragraphs[i], i))
  {
  }

  lemma IntroductionStays(st: SectionState, paragraph: string, i: nat)
    requires i >= 1 && IntroductionFirst(st)
    ensures IntroductionFirst(SectionStep(st, paragraph, i))
  {
  }

  lemma {:induction false} SectionsFromIntroduction(paragraphs: seq<string>, i: nat, st: SectionState)
    requires 1 <= i <= |paragraphs| && IntroductionFirst(st)
    ensures IntroductionFirst(SectionsFrom(paragraphs, i, st))
  {
    var j := i;
    var cur := st;
    while j < |paragraphs|
      invariant i <= j <= |paragraphs| && IntroductionFirst(cur)
      invariant SectionsFrom(paragraphs, j, cur) == SectionsFrom(paragraphs, i, st)
    {
      SectionsFromNext(paragraphs, j, cur);
      IntroductionStays(cur, paragraphs[j], j);
      cur := SectionStep(cur, paragraphs[j], j);
      j := j + 1;
    }
  }

  /** A paragraph that is not blank has a line that is not blank. */
  lemma {:induction false} SplitHasNonBlank(s: string, k: nat)
    requires k < |s| && !IsSpace(s[k])
    ensures exists m :: 0 <= m < |SplitChar(s, '\n')| && Trim(SplitChar(s, '\n')[m]) != []
    decreases |s|
  {
    var i := IndexOfChar(s, '\n');
    var parts := SplitChar(s, '\n');
    if i < 0 {
      assert parts == [s];
      TrimEmptyIffAllSpace(s);
      assert Trim(parts[0]) != [];
    } else {
      var rest := SplitChar(s[i + 1..], '\n');
      SplitAtFirst(s, '\n', i);
      assert parts == [s[..i]] + rest;
      if k < i {
        TrimEmptyIffAllSpace(s[..i]);
        assert s[..i][k] == s[k];
        assert Trim(parts[0]) != [];
      } else {
        assert k != i;
        SplitHasNonBlank(s[i + 1..], k - i - 1);
        var m :| 0 <= m < |rest| && Trim(rest[m]) != [];
        assert parts[m + 1] == rest[m];
        assert Trim(parts[m + 1]) != [];
      }
    }
  }

  lemma {:induction false} NonBlankOnlyNonEmpty(xs: seq<string>, m: nat)
    requires m < |xs| && Trim(xs[m]) != []
    ensures Patterns.NonBlankOnly(xs) != []
  {
    if Trim(xs[0]) == [] {
      NonBlankOnlyNonEmpty(xs[1..], m - 1);
    }
  }

  lemma ParagraphHasLines(paragraph: string)
    requires Trim(paragraph) != []
    ensures ParagraphLines(paragraph) != []
  {
    TrimEmptyIffAllSpace(paragraph);
    var k :| 0 <= k < |paragraph| && !IsSpace(paragraph[k]);
    SplitHasNonBlank(paragraph, k);
    var m :| 0 <= m < |SplitChar(paragraph, '\n')| && Trim(SplitChar(paragraph, '\n')[m]) != [];
    NonBlankOnlyNonEmpty(SplitChar(paragraph, '\n'), m);
  }

  /**
   * When the first paragraph does not open with a heading, the sections
   * begin with an "Introduction" holding that paragraph's lines.
   */
  lemma IntroductionOpens(paragraphs: seq<string>)
    requires paragraphs != [] && Trim(paragraphs[0]) != []
    requires !IsHeading(FirstLine(ParagraphLines(paragraphs[0])))
    ensures LoopSections(paragraphs) != [] && LoopSections(paragraphs)[0].title == "Introduction"
  {
    ParagraphHasLines(paragraphs[0]);
    var first := SectionStep(SectionState([], None), paragraphs[0], 0);
    assert IntroductionFirst(first);
    SectionsFromIntroduction(paragraphs, 1, first);
  }

  // ---------------------------------------------------------------------
  // splitLargeSection and extractKeyTerms
  // ---------------------------------------------------------------------

  const CommonWords: set<string> := {
    "The", "This", "That", "These", "Those", "What", "Which", "Who",
    "When", "Where", "Why", "How", "Can", "Will", "Should", "Would",
    "Could", "May", "Might", "Must", "Have", "Has", "Had", "Does",
    "Did", "Are", "Was", "Were", "Been", "Being", "Other", "Some",
    "Many", "More", "Most", "Such", "Very", "Also", "Just", "Only",
    "Each", "Every", "Both", "Few", "All", "Any", "None", "One",
    "First", "Last", "Next", "Then", "Now", "Here", "There", "About",
    "Into", "Through", "During", "Before", "After", "Above", "Below"
  }

  /** `isCommonWord(word)`: one of the listed words, exactly as written, or shorter than three characters. */
  predicate IsCommonWord(word: string)
  {
    word in CommonWords || |word| < 3
  }

  /** The filter of `extractKeyTerms`: `/^[A-Z][a-z]+/`, at least four characters, not a common word. */
  predicate IsKeyTerm(w: string)
  {
    |w| >= 4 && IsUpper(w[0]) && IsLower(w[1]) && !IsCommonWord(w)
  }

  function KeyTermsOf(words: seq<string>): (r: seq<string>)
    ensures forall k :: 0 <= k < |r| ==> IsKeyTerm(r[k])
  {
    if words == [] then []
    else (if IsKeyTerm(words[0]) then [words[0]] else []) + KeyTermsOf(words[1..])
  }

  /** `extractKeyTerms(text)`: the first three capitalised words that are not common. */
  function ExtractKeyTerms(text: string): (r: seq<string>)
    ensures |r| <= 3
    ensures forall k :: 0 <= k < |r| ==> IsKeyTerm(r[k])
  {
    Take(KeyTermsOf(SplitSpaces(text)), 3)
  }

  /** The sentences of a section: its lines joined with spaces and split at runs of sentence marks. */
  function SectionSentences(section: Section): seq<string>
  {
    Patterns.NonBlankOnly(SplitSentenceMarks(Join(section.content, " ")))
  }

  /** `Math.ceil(n / 4)`. */
  function PerPart(n: nat): nat
  {
    (n + 3) / 4
  }

  /** `⌈m / p⌉`, by repeated subtraction. */
  function CeilDiv(m: nat, p: nat): (r: nat)
    requires p >= 1
    ensures r * p >= m
    ensures m > 0 ==> (r - 1) * p < m
    ensures m == 0 ==> r == 0
    decreases m
  {
    if m == 0 then 0 else if m <= p then 1 else 1 + CeilDiv(m - p, p)
  }

  /** The part of the sentences starting at `i`: the next `per` of them, or the rest. */
  function Part(sentences: seq<string>, per: nat, i: nat): (r: Section)
    requires 1 <= per && i < |sentences|
    ensures r.content == sentences[i..if i + per <= |sentences| then i + per else |sentences|]
    ensures r.level == 2
  {
    var e := if i + per <= |sentences| then i + per else |sentences|;
    var ps := sentences[i..e];
    var keys := ExtractKeyTerms(ps[0]);
    Section(if keys != [] then keys[0] else "Section " + NatToString(i / per + 1), 2, ps, Join(ps, ". ") + ".")
  }

  function Parts(sentences: seq<string>, per: nat, i: nat): seq<Section>
    requires per >= 1
    decreases |sentences| - i
  {
    if i >= |sentences| then [] else [Part(sentences, per, i)] + Parts(sentences, per, i + per)
  }

  function SplitLarge(section: Section): seq<Section>
  {
    var sentences := SectionSentences(section);
    var per := PerPart(|sentences|);
    var parts := if per == 0 then [] else Parts(sentences, per, 0);
    if |parts| > 1 then parts else [section]
  }

  /** `splitLargeSection(section)`: one part per `⌈n/4⌉` sentences. */
  method SplitLargeSection(section: Section) returns (r: seq<Section>)
    ensures r == SplitLarge(section)
  {
    var sentences := SectionSentences(section);
    var per := PerPart(|sentences|);
    var newSections := [];
    if per > 0 {
      newSections := PartsOf(sentences, per);
    }
    r := if |newSections| > 1 then newSections else [section];
  }

  /** The `for` loop of `splitLargeSection`, stepping `i` by `per`. */
  method PartsOf(sentences: seq<string>, per: nat) returns (parts: seq<Section>)
    requires per >= 1
    ensures parts == Parts(sentences, per, 0)
  {
    parts := [];
    var i: nat := 0;
    while i < |sentences|
      invariant parts + Parts(sentences, per, i) == Parts(sentences, per, 0)
      decreases |sentences| - i
    {
      parts, i := NextPart(sentences, per, parts, i);
    }
    assert parts + [] == parts;
  }

  /** One turn of the loop: the part starting at `i` is pushed and `i` steps by `per`. */
  method NextPart(sentences: seq<string>, per: nat, parts: seq<Section>, i: nat) returns (parts': seq<Section>, i': nat)
    requires per >= 1 && i < |sentences|
    ensures i' == i + per
    ensures parts' + Parts(sentences, per, i') == parts + Parts(sentences, per, i)
  {
    var part := Part(sentences, per, i);
    PartsNext(sentences, per, i);
    parts' := parts + [part];
    i' := i + per;
  }

  lemma PartsNext(sentences: seq<string>, per: nat, i: nat)
    requires per >= 1 && i < |sentences|
    ensures Parts(sentences, per, i) == [Part(sentences, per, i)] + Parts(sentences, per, i + per)
  {
  }

  /** The concatenated contents of a list of sections. */
  function Contents(ss: seq<Section>): seq<string>
  {
    if ss == [] then [] else ss[0].content + Contents(ss[1..])
  }

  lemma PartsContents(sentences: seq<string>, per: nat, i: nat)
    requires per >= 1 && i <= |sentences|
    ensures Contents(Parts(sentences, per, i)) == sentences[i..]
  {
    PartsChunks(sentences, per, i);
    ChunksAll(sentences, per, i);
  }

  /** The sentences of the parts from `i` on, chunk after chunk. */
  function Chunks(sentences: seq<string>, per: nat, i: nat): seq<string>
    requires per >= 1
    decreases |sentences| - i
  {
    if i >= |sentences| then []
    else sentences[i..if i + per <= |sentences| then i + per else |sentences|] + Chunks(sentences, per, i + per)
  }

  lemma {:induction false} ChunksAll(sentences: seq<string>, per: nat, i: nat)
    requires per >= 1 && i <= |sentences|
    ensures Chunks(sentences, per, i) == sentences[i..]
    decreases |sentences| - i
  {
    if i < |sentences| {
      if i + per <= |sentences| {
        ChunksAll(sentences, per, i + per);
        assert sentences[i..i + per] + sentences[i + per..] == sentences[i..];
      } else {
        assert Chunks(sentences, per, i + per) == [];
        assert sentences[i..] + [] == sentences[i..];
      }
    }
  }

  lemma {:induction false} PartsChunks(sentences: seq<string>, per: nat, i: nat)
    requires per >= 1
    ensures Contents(Parts(sentences, per, i)) == Chunks(sentences, per, i)
    decreases |sentences| - i
  {
    if i < |sentences| {
      PartsChunks(sentences, per, i + per);
      ContentsNext(sentences, per, i);
    }
  }

  /** The contents of the parts from `j` on: those of the part at `j`, then the rest. */
  lemma ContentsNext(sentences: seq<string>, per: nat, j: nat)
    requires per >= 1 && j < |sentences|
    ensures Contents(Parts(sentences, per, j)) == Part(sentences, per, j).content + Contents(Parts(sentences, per, j + per))
  {
    PartsNext(sentences, per, j);
    var head := Part(sentences, per, j);
    var tail := Parts(sentences, per, j + per);
    assert Contents([head] + tail) == head.content + Contents(tail);
  }

  lemma {:induction false} PartsCount(sentences: seq<string>, per: nat, i: nat)
    requires per >= 1 && i <= |sentences|
    ensures |Parts(sentences, per, i)| == CeilDiv(|sentences| - i, per)
    decreases |sentences| - i
  {
    if i < |sentences| {
      if i + per <= |sentences| {
        PartsCount(sentences, per, i + per);
      } else {
        assert Parts(sentences, per, i + per) == [];
      }
    }
  }

  lemma {:induction false} PartsFilled(sentences: seq<string>, per: nat, i: nat)
    requires per >= 1
    ensures forall k :: 0 <= k < |Parts(sentences, per, i)| ==>
      |Parts(sentences, per, i)[k].content| > 0 && Parts(sentences, per, i)[k].level == 2
    decreases |sentences| - i
  {
    if i < |sentences| {
      PartsFilled(sentences, per, i + per);
      var ps := Parts(sentences, per, i);
      assert ps == [Part(sentences, per, i)] + Parts(sentences, per, i + per);
    }
  }

  lemma {:induction false} CeilDivAtMost(m: nat, p: nat, k: nat)
    requires p >= 1 && m <= k * p
    ensures CeilDiv(m, p) <= k
    decreases m
  {
    if m > p {
      assert m - p <= (k - 1) * p;
      CeilDivAtMost(m - p, p, k - 1);
    }
  }

  /**
   * Splitting a long section either returns it unchanged or gives 2 to 4
   * parts, `⌈n / ⌈n/4⌉⌉` of them for `n` sentences, whose contents are the
   * sentences in order; every part has content and level 2. It is split
   * exactly when it has at least two sentences.
   */
  lemma SplitLargeShape(section: Section)
    ensures var r := SplitLarge(section);
      r == [section]
      || (2 <= |r| <= 4 && Contents(r) == SectionSentences(section)
          && |r| == CeilDiv(|SectionSentences(section)|, PerPart(|SectionSentences(section)|))
          && forall k :: 0 <= k < |r| ==> |r[k].content| > 0 && r[k].level == 2)
    ensures |SectionSentences(section)| >= 2 <==> |SplitLarge(section)| >= 2
  {
    var sentences := SectionSentences(section);
    var n := |sentences|;
    var per := PerPart(n);
    if per > 0 {
      if n >= 2 {
        assert per < n;
      }
      PartsContents(sentences, per, 0);
      PartsCount(sentences, per, 0);
      PartsFilled(sentences, per, 0);
      assert n <= 4 * per;
      CeilDivAtMost(n, per, 4);
    }
  }
}
