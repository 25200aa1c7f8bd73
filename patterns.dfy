/**
 * `SciencePatternDetector` of the upload page's content processor: scans
 * the sentences of a text for definitions ("X is a ...", "X are ...",
 * "X means ...", "X refers to ...", "X: ..."), process and classification
 * sentences (keyword tests), and the lines for bulleted or numbered lists.
 */
module Patterns {
  import opened TextUtil
  import Preprocessor

  /** The sentences `text.split(/[.!?]+/).filter(s => s.trim())`. */
  function Sentences(text: string): (r: seq<string>)
    ensures forall k :: 0 <= k < |r| ==> Trim(r[k]) != []
  {
    NonBlankOnly(SplitSentenceMarks(text))
  }

  function NonBlankOnly(xs: seq<string>): (r: seq<string>)
    ensures |r| <= |xs|
    ensures forall k :: 0 <= k < |r| ==> Trim(r[k]) != []
  {
    if xs == [] then []
    else (if Trim(xs[0]) != [] then [xs[0]] else []) + NonBlankOnly(xs[1..])
  }

  // ---------------------------------------------------------------------
  // findDefinitions
  // ---------------------------------------------------------------------

  /** The five definition templates, in the order they are tried. */
  datatype Template = IsArticle | Are | Means | RefersTo | Colon

  const Templates: seq<Template> := [IsArticle, Are, Means, RefersTo, Colon]

  predicate NotLineTerminator(c: char) { !IsLineTerminator(c) }

  /** Whether the letters of `w` stand at `p`, compared case-insensitively as the `i` flag does (`w` is lower case). */
  predicate WordAt(s: string, p: nat, w: string)
  {
    p + |w| <= |s| && Lower(s[p..p + |w|]) == w
  }

  predicate SpaceAt(s: string, p: nat)
  {
    p < |s| && IsSpace(s[p])
  }

  /**
   * Where the `\s+` in front of the second group begins, when the first
   * group ends at `q`: `\s+is\s+(?:a|an|the)`, `\s+are`, `\s+means`,
   * `\s+refers?\s+to` or `:`. The white space before a keyword must be taken
   * whole, and of the alternatives only one can be followed by white space,
   * so each connector matches in at most one way.
   */
  function ConnectorEnd(s: string, q: nat, t: Template): (r: Option<nat>)
    requires q <= |s|
    ensures r.Some? ==> q < r.value <= |s|
  {
    if t == Colon then (if q < |s| && s[q] == ':' then Some(q + 1) else None)
    else if SpaceRun(s, q) == 0 then None
    else
      var p := q + SpaceRun(s, q);
      if t == IsArticle then
        if WordAt(s, p, "is") && SpaceRun(s, p + 2) >= 1 then
          var a := p + 2 + SpaceRun(s, p + 2);
          if WordAt(s, a, "a") && SpaceAt(s, a + 1) then Some(a + 1)
          else if WordAt(s, a, "an") && SpaceAt(s, a + 2) then Some(a + 2)
          else if WordAt(s, a, "the") then Some(a + 3)
          else None
        else None
      else if t == Are then (if WordAt(s, p, "are") then Some(p + 3) else None)
      else if t == Means then (if WordAt(s, p, "means") then Some(p + 5) else None)
      else if WordAt(s, p, "refer") then
        var r := if WordAt(s, p + 5, "s") && SpaceAt(s, p + 6) then p + 6 else p + 5;
        if SpaceRun(s, r) >= 1 && WordAt(s, r + SpaceRun(s, r), "to") then Some(r + SpaceRun(s, r) + 2) else None
      else None
  }

  /**
   * `\s+(.{10,200})` at `c` with `\s+` taking `t` characters: when fewer than
   * ten characters other than line breaks follow, `\s+` gives back one
   * character to the group and the group is tried again. The result is the
   * group's start and end.
   */
  function SecondGroup(s: string, c: nat, t: nat): (r: Option<(nat, nat)>)
    requires c + t <= |s|
    ensures r.Some? ==> c < r.value.0 && r.value.0 + 10 <= r.value.1 <= r.value.0 + 200 && r.value.1 <= |s|
    decreases t
  {
    if t == 0 then None
    else
      var g := c + t;
      var n := Run(s, g, NotLineTerminator);
      if n >= 10 then Some((g, g + (if n < 200 then n else 200))) else SecondGroup(s, c, t - 1)
  }

  /** The template matched with the first group `(.{3,50})` starting at `st`, of length `len` or shorter. */
  function MatchWithLength(s: string, st: nat, len: nat, t: Template): (r: Option<(nat, nat, nat)>)
    requires st + len <= |s|
    ensures r.Some? ==> st + 3 <= r.value.0 <= st + len && r.value.0 < r.value.1
    ensures r.Some? ==> r.value.1 + 10 <= r.value.2 <= r.value.1 + 200 && r.value.2 <= |s|
    decreases len
  {
    if len < 3 then None
    else
      var q := st + len;
      var c := ConnectorEnd(s, q, t);
      var m := if c.Some? then SecondGroup(s, c.value, SpaceRun(s, c.value)) else None;
      if m.Some? then Some((q, m.value.0, m.value.1)) else MatchWithLength(s, st, len - 1, t)
  }

  /** `sentence.match(pattern)`: the leftmost start from `st` on, then the longest first group. */
  function TemplateMatchFrom(s: string, st: nat, t: Template): (r: Option<(nat, nat, nat, nat)>)
    ensures r.Some? ==> st <= r.value.0 && r.value.0 + 3 <= r.value.1 <= r.value.0 + 50
    ensures r.Some? ==> r.value.1 < r.value.2 && r.value.2 + 10 <= r.value.3 <= r.value.2 + 200 && r.value.3 <= |s|
    decreases |s| - st
  {
    if st >= |s| then None
    else
      var n := Run(s, st, NotLineTerminator);
      match MatchWithLength(s, st, if n < 50 then n else 50, t)
      case Some((q, g, e)) => Some((st, q, g, e))
      case None => TemplateMatchFrom(s, st + 1, t)
  }

  /** `term.replace(/^(the|a|an)\s+/i, '')`. */
  function StripArticle(term: string): (r: string)
    ensures |r| <= |term|
  {
    if WordAt(term, 0, "the") && SpaceRun(term, 3) >= 1 then term[3 + SpaceRun(term, 3)..]
    else if WordAt(term, 0, "a") && SpaceRun(term, 1) >= 1 then term[1 + SpaceRun(term, 1)..]
    else if WordAt(term, 0, "an") && SpaceRun(term, 2) >= 1 then term[2 + SpaceRun(term, 2)..]
    else term
  }

  datatype Definition = Definition(term: string, definition: string, fullText: string)

  /** The definition one template finds in a sentence, if its match passes the word-count check. */
  function TemplateDefinition(sentence: string, t: Template): Option<Definition>
  {
    match TemplateMatchFrom(sentence, 0, t)
    case None => None
    case Some((st, q, g, e)) =>
      var term := Trim(sentence[st..q]);
      var definition := Trim(sentence[g..e]);
      if |SplitChar(term, ' ')| <= 6 && |SplitChar(definition, ' ')| >= 3
      then Some(Definition(StripArticle(term), definition, Trim(sentence)))
      else None
  }

  /** The first of the templates `ts` that yields a definition: the loop with its `break`. */
  function FirstDefinition(sentence: string, ts: seq<Template>): Option<Definition>
  {
    if ts == [] then None
    else match TemplateDefinition(sentence, ts[0])
      case Some(d) => Some(d)
      case None => FirstDefinition(sentence, ts[1..])
  }

  function DefinitionsIn(sentences: seq<string>): (r: seq<Definition>)
    ensures |r| <= |sentences|
  {
    if sentences == [] then []
    else
      (match FirstDefinition(sentences[0], Templates) case Some(d) => [d] case None => [])
      + DefinitionsIn(sentences[1..])
  }

  /** `findDefinitions(text)`: at most one definition per sentence. */
  function FindDefinitions(text: string): (r: seq<Definition>)
    ensures |r| <= |Sentences(text)|
  {
    DefinitionsIn(Sentences(text))
  }

  lemma TemplateDefinitionShape(sentence: string, t: Template)
    requires TemplateDefinition(sentence, t).Some?
    ensures var d := TemplateDefinition(sentence, t).value;
      |SplitChar(d.definition, ' ')| >= 3 && |d.definition| <= 200 && |d.term| <= 50
      && IsTrimmed(d.definition) && d.fullText == Trim(sentence)
  {
    var m := TemplateMatchFrom(sentence, 0, t).value;
    TrimIsTrimmed(sentence[m.2..m.3]);
    TrimIsTrimmed(sentence[m.0..m.1]);
  }

  /** The definition found in a sentence is the first template's whose match passes the word-count check. */
  lemma {:induction false} FirstDefinitionIsFirst(sentence: string, ts: seq<Template>)
    requires FirstDefinition(sentence, ts).Some?
    ensures exists k :: (0 <= k < |ts| && FirstDefinition(sentence, ts) == TemplateDefinition(sentence, ts[k])
      && forall j :: 0 <= j < k ==> TemplateDefinition(sentence, ts[j]).None?)
  {
    if TemplateDefinition(sentence, ts[0]).Some? {
      assert FirstDefinition(sentence, ts) == TemplateDefinition(sentence, ts[0]);
    } else {
      FirstDefinitionIsFirst(sentence, ts[1..]);
      var k :| (0 <= k < |ts[1..]| && FirstDefinition(sentence, ts[1..]) == TemplateDefinition(sentence, ts[1..][k])
        && forall j :: 0 <= j < k ==> TemplateDefinition(sentence, ts[1..][j]).None?);
      assert FirstDefinition(sentence, ts) == TemplateDefinition(sentence, ts[k + 1]);
      forall j | 0 <= j < k + 1 ensures TemplateDefinition(sentence, ts[j]).None? {
        if j > 0 { assert ts[j] == ts[1..][j - 1]; }
      }
    }
  }

  /**
   * A definition found in a sentence has at least three space-separated
   * words and at most 200 characters, and a term of at most 50 characters
   * before the article is stripped.
   */
  lemma FirstDefinitionShape(sentence: string, ts: seq<Template>)
    requires FirstDefinition(sentence, ts).Some?
    ensures var d := FirstDefinition(sentence, ts).value;
      |SplitChar(d.definition, ' ')| >= 3 && |d.definition| <= 200 && |d.term| <= 50
      && IsTrimmed(d.definition) && d.fullText == Trim(sentence)
  {
    FirstDefinitionIsFirst(sentence, ts);
    var k :| 0 <= k < |ts| && FirstDefinition(sentence, ts) == TemplateDefinition(sentence, ts[k]);
    TemplateDefinitionShape(sentence, ts[k]);
  }

  /** Every definition found passes the word-count check and comes from a sentence of the text. */
  lemma {:induction false} DefinitionsInShape(sentences: seq<string>)
    ensures forall k :: 0 <= k < |DefinitionsIn(sentences)| ==>
      (var d := DefinitionsIn(sentences)[k];
       |SplitChar(d.definition, ' ')| >= 3 && |d.definition| <= 200 && |d.term| <= 50
       && exists j :: 0 <= j < |sentences| && d.fullText == Trim(sentences[j]))
  {
    if sentences != [] {
      DefinitionsInShape(sentences[1..]);
      var head := match FirstDefinition(sentences[0], Templates) case Some(d) => [d] case None => [];
      if FirstDefinition(sentences[0], Templates).Some? {
        FirstDefinitionShape(sentences[0], Templates);
      }
      var r := DefinitionsIn(sentences);
      assert r == head + DefinitionsIn(sentences[1..]);
      forall k | 0 <= k < |r| ensures
        (var d := r[k];
         |SplitChar(d.definition, ' ')| >= 3 && |d.definition| <= 200 && |d.term| <= 50
         && exists j :: 0 <= j < |sentences| && d.fullText == Trim(sentences[j]))
      {
        if k < |head| {
          assert r[k].fullText == Trim(sentences[0]);
        } else {
          var d := DefinitionsIn(sentences[1..])[k - |head|];
          assert r[k] == d;
          var j :| 0 <= j < |sentences[1..]| && d.fullText == Trim(sentences[1..][j]);
          assert d.fullText == Trim(sentences[j + 1]);
        }
      }
    }
  }

  // ---------------------------------------------------------------------
  // findProcesses and findClassifications
  // ---------------------------------------------------------------------

  const ProcessKeywords: seq<string> := ["process", "procedure", "method", "steps", "stages", "involves", "consists of", "comprises"]
  const ClassKeywords: seq<string> := ["types of", "kinds of", "categories", "classified into", "divided into", "two main", "three main"]

  /** `keywords.some(keyword => lower.includes(keyword))`. */
  predicate AnyKeyword(lower: string, keywords: seq<string>)
  {
    exists k :: 0 <= k < |keywords| && Contains(lower, keywords[k])
  }

  /** A sentence reported by a keyword test: its first 100 characters, and the whole trimmed sentence. */
  datatype Excerpt = Excerpt(excerpt: string, fullText: string)

  /** The entry one sentence contributes: itself when it contains a keyword, nothing otherwise. */
  function KeywordEntry(s: string, keywords: seq<string>): seq<Excerpt>
  {
    if AnyKeyword(Lower(s), keywords) then [Excerpt(Prefix(Trim(s), 100), Trim(s))] else []
  }

  function KeywordSentences(sentences: seq<string>, keywords: seq<string>): (r: seq<Excerpt>)
    ensures |r| <= |sentences|
    ensures forall k :: 0 <= k < |r| ==> r[k].excerpt == Prefix(r[k].fullText, 100)
  {
    if sentences == [] then []
    else KeywordEntry(sentences[0], keywords) + KeywordSentences(sentences[1..], keywords)
  }

  /** Sentence `j` contains a keyword and is the one entry `e` was made from. */
  predicate FromSentence(sentences: seq<string>, keywords: seq<string>, e: Excerpt, j: int)
  {
    0 <= j < |sentences| && e.fullText == Trim(sentences[j]) && AnyKeyword(Lower(sentences[j]), keywords)
  }

  /** Every sentence reported contains a keyword. */
  lemma {:induction false} KeywordSentencesSound(sentences: seq<string>, keywords: seq<string>, k: nat)
    requires k < |KeywordSentences(sentences, keywords)|
    ensures exists j :: FromSentence(sentences, keywords, KeywordSentences(sentences, keywords)[k], j)
  {
    var head := KeywordEntry(sentences[0], keywords);
    var rest := KeywordSentences(sentences[1..], keywords);
    var r := KeywordSentences(sentences, keywords);
    assert r == head + rest;
    if k < |head| {
      assert r[k] == head[0];
      assert FromSentence(sentences, keywords, head[0], 0);
    } else {
      KeywordSentencesSound(sentences[1..], keywords, k - |head|);
      var j :| FromSentence(sentences[1..], keywords, rest[k - |head|], j);
      assert r[k] == rest[k - |head|];
      FromSentenceShift(sentences, keywords, rest[k - |head|], j);
    }
  }

  lemma FromSentenceShift(sentences: seq<string>, keywords: seq<string>, e: Excerpt, j: int)
    requires sentences != [] && FromSentence(sentences[1..], keywords, e, j)
    ensures FromSentence(sentences, keywords, e, j + 1)
  {
    assert sentences[1..][j] == sentences[j + 1];
  }

  /** Every sentence that contains a keyword is reported. */
  lemma {:induction false} KeywordSentencesComplete(sentences: seq<string>, keywords: seq<string>, j: nat)
    requires j < |sentences| && AnyKeyword(Lower(sentences[j]), keywords)
    ensures exists k :: (0 <= k < |KeywordSentences(sentences, keywords)|
      && KeywordSentences(sentences, keywords)[k].fullText == Trim(sentences[j]))
  {
    var r := KeywordSentences(sentences, keywords);
    var off := if AnyKeyword(Lower(sentences[0]), keywords) then 1 else 0;
    if j == 0 {
      assert r[0].fullText == Trim(sentences[0]);
    } else {
      var rest := KeywordSentences(sentences[1..], keywords);
      assert r == r[..off] + rest;
      assert sentences[1..][j - 1] == sentences[j];
      KeywordSentencesComplete(sentences[1..], keywords, j - 1);
      var k :| 0 <= k < |rest| && rest[k].fullText == Trim(sentences[j]);
      assert r[k + off] == rest[k];
    }
  }

  /** `findProcesses(text)`. */
  function FindProcesses(text: string): seq<Excerpt>
  {
    KeywordSentences(Sentences(text), ProcessKeywords)
  }

  /** `findClassifications(text)`. */
  function FindClassifications(text: string): seq<Excerpt>
  {
    KeywordSentences(Sentences(text), ClassKeywords)
  }

  // ---------------------------------------------------------------------
  // findLists
  // ---------------------------------------------------------------------

  /** `/^[•\-*\d+\.)]\s+/`: one marker character and at least one white-space character. */
  predicate IsListLine(t: string)
  {
    |t| >= 1 && Preprocessor.IsMarkerChar(t[0]) && SpaceRun(t, 1) >= 1
  }

  /** A list found in the text: its items without markers, and the line before it. */
  datatype FoundList = FoundList(items: seq<string>, context: string)

  /** The items of the lines `a` to `b`, markers stripped with `/^[•\-*\d+\.)]\s*\/`. */
  function Items(lines: seq<string>, a: nat, b: nat): (r: seq<string>)
    requires a <= b <= |lines|
    ensures |r| == b - a
    decreases b - a
  {
    if a == b then [] else Items(lines, a, b - 1) + [Preprocessor.StripMarker(Trim(lines[b - 1]))]
  }

  predicate AllListLines(lines: seq<string>, a: nat, b: nat)
    requires a <= b <= |lines|
  {
    forall k :: a <= k < b ==> IsListLine(Trim(lines[k]))
  }

  /** `lines[a - 1] || ''`: the raw line before the run, or nothing for a run at the start. */
  function Context(lines: seq<string>, a: nat): string
    requires a <= |lines|
  {
    if a >= 1 then lines[a - 1] else ""
  }

  /** The lists reported from line `i` on, the current run having started at line `start`. */
  function ListsFrom(lines: seq<string>, i: nat, start: nat): seq<FoundList>
    requires start <= i <= |lines|
    decreases |lines| - i
  {
    if i == |lines| then
      (if i - start >= 2 then [FoundList(Items(lines, start, i), "")] else [])
    else if IsListLine(Trim(lines[i])) then ListsFrom(lines, i + 1, start)
    else
      (if i - start >= 2 then [FoundList(Items(lines, start, i), Context(lines, start))] else [])
      + ListsFrom(lines, i + 1, i + 1)
  }

  function ListsOf(text: string): seq<FoundList>
  {
    ListsFrom(SplitChar(text, '\n'), 0, 0)
  }

  /** `findLists(text)`: the loop over the lines with the current run of list items. */
  method FindLists(text: string) returns (lists: seq<FoundList>)
    ensures lists == ListsOf(text)
  {
    lists := FindListsIn(SplitChar(text, '\n'));
  }

  method FindListsIn(lines: seq<string>) returns (lists: seq<FoundList>)
    ensures lists == ListsFrom(lines, 0, 0)
  {
    lists := [];
    var currentList: seq<string> := [];
    var index := 0;
    while index < |lines|
      invariant 0 <= index <= |lines| && |currentList| <= index
      invariant currentList == Items(lines, index - |currentList|, index)
      invariant lists + ListsFrom(lines, index, index - |currentList|) == ListsFrom(lines, 0, 0)
    {
      lists, currentList, index := ListLine(lines, index, lists, currentList);
    }
    lists := FinishLists(lines, lists, currentList);
  }

  /** After the last line, the run still open is reported when it has two items, with no context. */
  method FinishLists(lines: seq<string>, lists: seq<FoundList>, currentList: seq<string>) returns (r: seq<FoundList>)
    requires |currentList| <= |lines|
    requires currentList == Items(lines, |lines| - |currentList|, |lines|)
    ensures r == lists + ListsFrom(lines, |lines|, |lines| - |currentList|)
  {
    ListsFromEnd(lines, |lines| - |currentList|);
    if |currentList| >= 2 {
      r := lists + [FoundList(currentList, "")];
    } else {
      r := lists;
      assert lists + [] == lists;
    }
  }

  /**
   * One turn of the loop of `findLists`: the line extends the current run, or ends it and
   * reports it when it has two items; what is reported and what is still to come stay the same lists.
   */
  method ListLine(lines: seq<string>, index: nat, lists: seq<FoundList>, currentList: seq<string>)
    returns (lists': seq<FoundList>, next: seq<string>, index': nat)
    requires index < |lines| && |currentList| <= index
    requires currentList == Items(lines, index - |currentList|, index)
    ensures index' == index + 1 && |next| <= index'
    ensures next == Items(lines, index' - |next|, index')
    ensures lists' + ListsFrom(lines, index', index' - |next|) == lists + ListsFrom(lines, index, index - |currentList|)
  {
    index' := index + 1;
    var start := index - |currentList|;
    var trimmed := Trim(lines[index]);
    if IsListLine(trimmed) {
      next := currentList + [Preprocessor.StripMarker(trimmed)];
      lists' := lists;
      ListsFromExtendWith(lines, index, start, currentList, next);
    } else {
      if |currentList| >= 2 {
        lists' := lists + [FoundList(currentList, Context(lines, start))];
      } else {
        lists' := lists;
      }
      next := [];
      ListsFromBreakWith(lines, index, start, currentList, lists, lists');
    }
  }

  lemma ListsFromExtendWith(lines: seq<string>, i: nat, start: nat, run: seq<string>, next: seq<string>)
    requires start <= i < |lines| && IsListLine(Trim(lines[i]))
    requires |run| == i - start && run == Items(lines, start, i)
    requires next == run + [Preprocessor.StripMarker(Trim(lines[i]))]
    ensures |next| == i + 1 - start && next == Items(lines, start, i + 1)
    ensures ListsFrom(lines, i, start) == ListsFrom(lines, i + 1, start)
  {
    ListsFromExtend(lines, i, start);
    ItemsSnoc(lines, start, i);
  }

  lemma ListsFromBreakWith(lines: seq<string>, i: nat, start: nat, run: seq<string>, lists: seq<FoundList>, lists': seq<FoundList>)
    requires start <= i < |lines| && !IsListLine(Trim(lines[i]))
    requires |run| == i - start && run == Items(lines, start, i)
    requires lists' == if |run| >= 2 then lists + [FoundList(run, Context(lines, start))] else lists
    ensures lists' + ListsFrom(lines, i + 1, i + 1) == lists + ListsFrom(lines, i, start)
  {
    ListsFromBreak(lines, i, start);
    var pushed := if |run| >= 2 then [FoundList(run, Context(lines, start))] else [];
    assert lists' == lists + pushed;
    AppendShift(lists, pushed, ListsFrom(lines, i, start), ListsFrom(lines, i + 1, i + 1));
  }

  /** Moving the pushed lists from what is still to come to what is reported keeps the whole. */
  lemma AppendShift<T>(done: seq<T>, pushed: seq<T>, todo: seq<T>, rest: seq<T>)
    requires todo == pushed + rest
    ensures (done + pushed) + rest == done + todo
  {
  }

  lemma ItemsSnoc(lines: seq<string>, a: nat, b: nat)
    requires a <= b < |lines|
    ensures Items(lines, a, b + 1) == Items(lines, a, b) + [Preprocessor.StripMarker(Trim(lines[b]))]
  {
  }

  lemma ListsFromEnd(lines: seq<string>, start: nat)
    requires start <= |lines|
    ensures ListsFrom(lines, |lines|, start) == if |lines| - start >= 2 then [FoundList(Items(lines, start, |lines|), "")] else []
  {
  }

  lemma ListsFromExtend(lines: seq<string>, i: nat, start: nat)
    requires start <= i < |lines| && IsListLine(Trim(lines[i]))
    ensures ListsFrom(lines, i, start) == ListsFrom(lines, i + 1, start)
  {
  }

  lemma ListsFromBreak(lines: seq<string>, i: nat, start: nat)
    requires start <= i < |lines| && !IsListLine(Trim(lines[i]))
    ensures ListsFrom(lines, i, start)
      == (if i - start >= 2 then [FoundList(Items(lines, start, i), Context(lines, start))] else [])
         + ListsFrom(lines, i + 1, i + 1)
  {
  }

  lemma AllListLinesSnoc(lines: seq<string>, a: nat, b: nat)
    requires a <= b < |lines| && AllListLines(lines, a, b) && IsListLine(Trim(lines[b]))
    ensures AllListLines(lines, a, b + 1)
  {
  }

  /** A run of list lines from `a` to `b` that cannot be extended at either end. */
  predicate MaximalRun(lines: seq<string>, a: nat, b: nat)
    requires a <= b <= |lines|
  {
    AllListLines(lines, a, b)
    && (a == 0 || !IsListLine(Trim(lines[a - 1])))
    && (b == |lines| || !IsListLine(Trim(lines[b])))
  }

  /** The list a maximal run of at least two lines gives. */
  predicate ReportedRun(lines: seq<string>, l: FoundList)
  {
    exists a, b :: 0 <= a && a + 2 <= b <= |lines| && MaximalRun(lines, a, b)
      && l == FoundList(Items(lines, a, b), if b == |lines| then "" else Context(lines, a))
  }

  predicate AllReported(lines: seq<string>, ls: seq<FoundList>)
  {
    forall k :: 0 <= k < |ls| ==> ReportedRun(lines, ls[k])
  }

  lemma {:induction false} ListsFromShape(lines: seq<string>, i: nat, start: nat)
    requires start <= i <= |lines|
    requires AllListLines(lines, start, i)
    requires start == 0 || !IsListLine(Trim(lines[start - 1]))
    ensures AllReported(lines, ListsFrom(lines, i, start))
    decreases |lines| - i
  {
    if i == |lines| {
      ShapeAtEnd(lines, start);
    } else if IsListLine(Trim(lines[i])) {
      AllListLinesSnoc(lines, start, i);
      ListsFromShape(lines, i + 1, start);
      ListsFromExtend(lines, i, start);
    } else {
      ListsFromShape(lines, i + 1, i + 1);
      ShapeAtBreak(lines, i, start);
    }
  }

  lemma ShapeAtEnd(lines: seq<string>, start: nat)
    requires start <= |lines|
    requires AllListLines(lines, start, |lines|)
    requires start == 0 || !IsListLine(Trim(lines[start - 1]))
    ensures AllReported(lines, ListsFrom(lines, |lines|, start))
  {
    ListsFromEnd(lines, start);
    if |lines| - start >= 2 {
      assert MaximalRun(lines, start, |lines|);
      assert ReportedRun(lines, FoundList(Items(lines, start, |lines|), ""));
    }
  }

  lemma ShapeAtBreak(lines: seq<string>, i: nat, start: nat)
    requires start <= i < |lines|
    requires AllListLines(lines, start, i)
    requires start == 0 || !IsListLine(Trim(lines[start - 1]))
    requires !IsListLine(Trim(lines[i]))
    requires AllReported(lines, ListsFrom(lines, i + 1, i + 1))
    ensures AllReported(lines, ListsFrom(lines, i, start))
  {
    ListsFromBreak(lines, i, start);
    var head := if i - start >= 2 then [FoundList(Items(lines, start, i), Context(lines, start))] else [];
    if i - start >= 2 {
      assert MaximalRun(lines, start, i);
      assert ReportedRun(lines, head[0]);
    }
    AllReportedAppend(lines, head, ListsFrom(lines, i + 1, i + 1));
  }

  lemma AllReportedAppend(lines: seq<string>, xs: seq<FoundList>, ys: seq<FoundList>)
    requires AllReported(lines, xs) && AllReported(lines, ys)
    ensures AllReported(lines, xs + ys)
  {
    forall k | 0 <= k < |xs + ys| ensures ReportedRun(lines, (xs + ys)[k]) {
      if k >= |xs| { assert (xs + ys)[k] == ys[k - |xs|]; } else { assert (xs + ys)[k] == xs[k]; }
    }
  }

  /**
   * Every list `findLists` reports is a maximal run of at least two list
   * lines, with the line before it as context, or '' when the run reaches
   * the end of the text.
   */
  lemma ListsOfShape(text: string)
    ensures forall k :: 0 <= k < |ListsOf(text)| ==> ReportedRun(SplitChar(text, '\n'), ListsOf(text)[k])
  {
    ListsFromShape(SplitChar(text, '\n'), 0, 0);
  }

  /** A numbered line "1. X" is not a list line: the class takes the digit and then wants white space at the full stop. */
  lemma NumberedLineIsNotListLine(rest: string)
    ensures !IsListLine("1. " + rest)
  {
    var t := "1. " + rest;
    assert t[1] == '.';
  }

  /** A line made of a bullet, a space and text is a list line. */
  lemma BulletLineIsListLine(rest: string)
    ensures IsListLine("- " + rest)
  {
    var t := "- " + rest;
    assert t[0] == '-' && t[1] == ' ';
  }

  // ---------------------------------------------------------------------
  // detectPatterns
  // ---------------------------------------------------------------------

  datatype ContentPatterns = ContentPatterns(definitions: seq<Definition>, processes: seq<Excerpt>,
                                             classifications: seq<Excerpt>, lists: seq<FoundList>)

  function PatternsOf(text: string): ContentPatterns
  {
    ContentPatterns(FindDefinitions(text), FindProcesses(text), FindClassifications(text), ListsOf(text))
  }

  /** `detectPatterns(text)`. */
  method DetectPatterns(text: string) returns (p: ContentPatterns)
    ensures p == PatternsOf(text)
    ensures |p.definitions| <= |Sentences(text)|
    ensures forall k :: 0 <= k < |p.lists| ==> |p.lists[k].items| >= 2
  {
    var lists := FindLists(text);
    ListsOfShape(text);
    forall k | 0 <= k < |lists| ensures |lists[k].items| >= 2 {
      assert ReportedRun(SplitChar(text, '\n'), lists[k]);
    }
    p := ContentPatterns(FindDefinitions(text), FindProcesses(text), FindClassifications(text), lists);
  }
}
