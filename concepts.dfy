/**
 * `extractKeyConcepts` of the content analyzer: terms from the detected
 * definitions first, then capitalised phrases seen at least three times,
 * each term checked by `isValidConceptTerm` and kept once regardless of
 * case, ranked by confidence and cut to 25.
 */
module Concepts {
  import opened TextUtil
  import opened Shuffle
  import AiGeneration
  import Patterns
  import Analyzer

  // ---------------------------------------------------------------------
  // isValidConceptTerm
  // ---------------------------------------------------------------------

  /** One of the lower-case words `ws` opens `t`, case-insensitively, followed by white space. */
  predicate OpensWithThenSpace(t: string, ws: seq<string>)
  {
    exists k :: 0 <= k < |ws| && Patterns.WordAt(t, 0, ws[k]) && Patterns.SpaceAt(t, |ws[k]|)
  }

  /** One of the lower-case phrases `ws` opens `t`, case-insensitively, followed by a word boundary. */
  predicate OpensWithThenBoundary(t: string, ws: seq<string>)
  {
    exists k :: 0 <= k < |ws| && Patterns.WordAt(t, 0, ws[k]) && WordBoundary(t, |ws[k]|)
  }

  const Demonstratives: seq<string> := ["these", "those", "this", "that"]
  const Quantifiers: seq<string> := ["some", "many", "all", "most", "few", "several"]
  const Connectives: seq<string> := ["for example", "in addition", "as follows", "such as"]
  const Articles: seq<string> := ["the", "a", "an"]
  const Pronouns: set<string> := {"they", "them", "their", "it", "its"}
  const GenericHeads: set<string> := {
    "key concept", "key concepts", "key feature", "key features", "key point", "key points",
    "important concept", "important concepts", "important feature", "important features",
    "important point", "important points"
  }
  const GenericRoles: set<string> := {"the process of", "the structure of", "the function of", "the role of"}

  /** The six generic-phrase patterns of `isValidConceptTerm`, with the `i` flag. */
  predicate GenericPhrase(t: string)
  {
    OpensWithThenSpace(t, Demonstratives)
    || OpensWithThenSpace(t, Quantifiers)
    || OpensWithThenBoundary(t, Connectives)
    || Lower(t) in Pronouns
    || Lower(t) in GenericHeads
    || Lower(t) in GenericRoles
  }

  /** Two neighbouring words equal up to case. */
  predicate RepeatedNeighbours(words: seq<string>)
  {
    exists k :: 0 <= k < |words| - 1 && Lower(words[k]) == Lower(words[k + 1])
  }

  /**
   * The word test of `isValidConceptTerm`: four or more characters and a
   * capital first letter or a match of `/tion|ism|ology|sis|ment$/`, whose
   * `$` belongs to the last alternative only.
   */
  predicate Substantive(w: string)
  {
    |w| >= 4 && (IsUpper(w[0]) || Contains(w, "tion") || Contains(w, "ism") || Contains(w, "ology")
                 || Contains(w, "sis") || EndsWith(w, "ment"))
  }

  predicate HasSubstantive(words: seq<string>)
  {
    exists k :: 0 <= k < |words| && Substantive(words[k])
  }

  /** `isValidConceptTerm(term)`. */
  predicate IsValidConceptTerm(term: string)
  {
    var words := SplitSpaces(term);
    |term| >= 3
    && !Analyzer.IsCommonWord(term)
    && !RepeatedNeighbours(words)
    && !GenericPhrase(term)
    && !OpensWithThenSpace(term, Articles)
    && |words| <= 5
    && (HasSubstantive(words) || |words| <= 1)
    && exists k :: 0 <= k < |term| && IsAlpha(term[k])
  }

  /** The test a definition's term must pass before it becomes a concept. */
  predicate AcceptedTerm(term: string)
  {
    !Analyzer.IsCommonWord(term) && |term| >= 3 && IsValidConceptTerm(term)
  }

  /** "tion" anywhere in a lower-case word makes it substantive: "rationale" is one. */
  lemma TionAnywhere()
    ensures Substantive("rationale")
  {
    var w := "rationale";
    assert w[2..6] == "tion";
    assert OccursAt(w, "tion", 2);
  }

  /** "ment" counts only at the end: "momentum" is not substantive. */
  lemma MentOnlyAtEnd(w: string)
    requires w == "momentum"
    ensures !Substantive(w)
  {
    assert w[4..] != "ment" by { assert w[4] == 'n'; }
    assert forall k :: 0 <= k < |w| ==> w[k] != 't' || k == 5;
    assert !OccursAt(w, "tion", 5);
    NoOccurrence(w, "tion");
    assert forall k :: 0 <= k < |w| ==> w[k] != 'i' && w[k] != 's';
    NoOccurrence(w, "ism");
    NoOccurrence(w, "sis");
    assert forall k :: 0 <= k < |w| ==> w[k] != 'o' || k == 1;
    assert !OccursAt(w, "ology", 1) by { assert w[2] != "ology"[1]; }
    NoOccurrence(w, "ology");
  }

  lemma NoOccurrence(w: string, t: string)
    requires |t| >= 1 && forall k :: 0 <= k < |w| ==> w[k] != t[0] || !OccursAt(w, t, k)
    ensures !Contains(w, t)
  {
  }

  // ---------------------------------------------------------------------
  // countOccurrences and findDefinitionFor
  // ---------------------------------------------------------------------

  /** `\bterm\b` at `i`, letters compared as the `i` flag does. */
  function TermHit(term: string, s: string, i: nat): (r: Option<Hit>)
    ensures r.Some? ==> r.value.end == i + |term| && i + |term| <= |s|
  {
    if |term| > 0 && i + |term| <= |s| && WordBoundary(s, i) && EqualsIgnoreCase(s[i..i + |term|], term)
       && WordBoundary(s, i + |term|)
    then Some(Hit(i + |term|, ""))
    else None
  }

  /** `countOccurrences(term)`: the number of whole-word, case-insensitive matches. */
  function CountOccurrences(text: string, term: string): nat
  {
    MatchCountFrom(text, 0, (s: string, i: nat) => TermHit(term, s, i))
  }

  /** A term that occurs nowhere as a whole word, whatever the case, has no occurrences. */
  lemma CountZero(text: string, term: string)
    requires forall k :: 0 <= k < |text| ==> TermHit(term, text, k).None?
    ensures CountOccurrences(text, term) == 0
  {
    CountZeroFrom(text, term, 0);
  }

  lemma {:induction false} CountZeroFrom(text: string, term: string, i: nat)
    requires i <= |text|
    requires forall k :: i <= k < |text| ==> TermHit(term, text, k).None?
    ensures MatchCountFrom(text, i, (s: string, j: nat) => TermHit(term, s, j)) == 0
    decreases |text| - i
  {
    if i < |text| {
      CountZeroFrom(text, term, i + 1);
    }
  }

  /** `/is|are|means|refers/`: one of the link words anywhere in the sentence, case-sensitively. */
  predicate HasLinkWord(s: string)
  {
    Contains(s, "is") || Contains(s, "are") || Contains(s, "means") || Contains(s, "refers")
  }

  /** `findDefinitionFor(term)`: the first 150 characters of the first sentence with the term and a link word. */
  function FindDefinitionFor(sentences: seq<string>, term: string): (r: string)
    ensures |r| <= 150
    ensures r == [] || exists k :: (0 <= k < |sentences| && r == Prefix(sentences[k], 150)
      && Contains(sentences[k], term) && HasLinkWord(sentences[k]))
  {
    if sentences == [] then ""
    else if Contains(sentences[0], term) && HasLinkWord(sentences[0]) then Prefix(sentences[0], 150)
    else
      var r := FindDefinitionFor(sentences[1..], term);
      assert r != [] ==> exists k :: (0 <= k < |sentences| && r == Prefix(sentences[k], 150)
        && Contains(sentences[k], term) && HasLinkWord(sentences[k])) by {
        if r != [] {
          var k :| 0 <= k < |sentences[1..]| && r == Prefix(sentences[1..][k], 150)
            && Contains(sentences[1..][k], term) && HasLinkWord(sentences[1..][k]);
          assert sentences[1..][k] == sentences[k + 1];
        }
      }
      r
  }

  // ---------------------------------------------------------------------
  // The capitalised-phrase scan
  // ---------------------------------------------------------------------

  /** `\s+[A-Z][a-z]{2,}` after a word ending at `e`: the next word's end. */
  function NextCapitalWord(s: string, e: nat): (r: Option<nat>)
    requires e <= |s|
    ensures r.Some? ==> e < r.value <= |s|
  {
    var w := SpaceRun(s, e);
    if w >= 1 then AiGeneration.CapitalWordAt(s, e + w, 2) else None
  }

  /**
   * A match of `\b([A-Z][a-z]{2,}(?:\s+[A-Z][a-z]{2,}){0,2})\b` at `i`: the
   * greedy repetition tries three words, then two, then one, and the
   * closing `\b` decides. The letter runs and the white space are taken
   * whole, since giving any back cannot meet the next item.
   */
  function CapitalPhraseAt(s: string, i: nat): (r: Option<nat>)
    requires i <= |s|
    ensures r.Some? ==> i < r.value <= |s|
  {
    if !WordBoundary(s, i) then None
    else match AiGeneration.CapitalWordAt(s, i, 2)
      case None => None
      case Some(e1) =>
        var e2 := NextCapitalWord(s, e1);
        var e3 := if e2.Some? then NextCapitalWord(s, e2.value) else None;
        if e3.Some? && WordBoundary(s, e3.value) then Some(e3.value)
        else if e2.Some? && WordBoundary(s, e2.value) then Some(e2.value)
        else if WordBoundary(s, e1) then Some(e1)
        else None
  }

  /** The phrases the global `exec` loop finds from `i` on, trimmed. */
  function CapitalPhrases(s: string, i: nat): seq<string>
    requires i <= |s|
    decreases |s| - i
  {
    if i == |s| then []
    else match CapitalPhraseAt(s, i)
      case Some(e) => [Trim(s[i..e])] + CapitalPhrases(s, e)
      case None => CapitalPhrases(s, i + 1)
  }

  /** The phrases that are counted: not seen as a definition term, not common, and valid. */
  predicate Counted(term: string, seen: set<string>)
  {
    Lower(term) !in seen && !Analyzer.IsCommonWord(term) && IsValidConceptTerm(term)
  }

  function CountedOnly(terms: seq<string>, seen: set<string>): (r: seq<string>)
    ensures forall k :: 0 <= k < |r| ==> Counted(r[k], seen)
  {
    if terms == [] then []
    else (if Counted(terms[0], seen) then [terms[0]] else []) + CountedOnly(terms[1..], seen)
  }

  /** The `frequency` map after the scan. */
  function Frequencies(text: string, seen: set<string>): AiGeneration.Tally
  {
    AiGeneration.TallyAll([], CountedOnly(CapitalPhrases(text, 0), seen))
  }

  /** The scan loop: each match is counted when it passes the filter. */
  method CountCapitalPhrases(text: string, seen: set<string>) returns (frequency: AiGeneration.Tally)
    ensures frequency == Frequencies(text, seen)
  {
    frequency := [];
    var pos := 0;
    while pos < |text|
      invariant 0 <= pos <= |text|
      invariant AiGeneration.TallyAll(frequency, CountedOnly(CapitalPhrases(text, pos), seen)) == Frequencies(text, seen)
      decreases |text| - pos
    {
      frequency, pos := ScanStep(text, pos, seen, frequency);
    }
  }

  /** One `exec` of the scan: a match is counted and the search moves past it, or the search moves on by one. */
  method ScanStep(text: string, pos: nat, seen: set<string>, frequency: AiGeneration.Tally) returns (next: AiGeneration.Tally, pos': nat)
    requires pos < |text|
    ensures pos < pos' <= |text|
    ensures AiGeneration.TallyAll(next, CountedOnly(CapitalPhrases(text, pos'), seen))
      == AiGeneration.TallyAll(frequency, CountedOnly(CapitalPhrases(text, pos), seen))
  {
    match CapitalPhraseAt(text, pos)
    case Some(e) =>
      var term := Trim(text[pos..e]);
      var rest := CountedOnly(CapitalPhrases(text, e), seen);
      assert CapitalPhrases(text, pos) == [term] + CapitalPhrases(text, e);
      assert ([term] + CapitalPhrases(text, e))[1..] == CapitalPhrases(text, e);
      if Counted(term, seen) {
        assert CountedOnly(CapitalPhrases(text, pos), seen) == [term] + rest;
        next := AiGeneration.Bump(frequency, term);
        assert ([term] + rest)[0] == term && ([term] + rest)[1..] == rest;
        assert AiGeneration.TallyAll(frequency, [term] + rest) == AiGeneration.TallyAll(next, rest);
      } else {
        assert CountedOnly(CapitalPhrases(text, pos), seen) == [] + rest;
        assert [] + rest == rest;
        next := frequency;
      }
      pos' := e;
    case None =>
      assert CapitalPhrases(text, pos) == CapitalPhrases(text, pos + 1);
      next := frequency;
      pos' := pos + 1;
  }

  // ---------------------------------------------------------------------
  // extractKeyConcepts
  // ---------------------------------------------------------------------

  datatype Kind = DefinitionKind | FrequentKind

  datatype KeyConcept = KeyConcept(term: string, definition: string, confidence: real, kind: Kind, occurrences: nat)

  /** `concepts.set(c.term, c)` on a `Map` kept in insertion order: a known key keeps its place. */
  function SetConcept(cs: seq<KeyConcept>, c: KeyConcept): (r: seq<KeyConcept>)
  {
    if cs == [] then [c]
    else if cs[0].term == c.term then [c] + cs[1..]
    else [cs[0]] + SetConcept(cs[1..], c)
  }

  lemma {:induction false} SetNewConcept(cs: seq<KeyConcept>, c: KeyConcept)
    requires forall k :: 0 <= k < |cs| ==> cs[k].term != c.term
    ensures SetConcept(cs, c) == cs + [c]
  {
    if cs != [] {
      SetNewConcept(cs[1..], c);
    }
  }

  /** The `concepts` map and the `seenTermsLower` set. */
  datatype Acc = Acc(concepts: seq<KeyConcept>, seen: set<string>)

  function MinReal(a: real, b: real): real { if a <= b then a else b }

  function DefinitionStep(text: string, acc: Acc, d: Patterns.Definition): Acc
  {
    var term := Trim(d.term);
    if Lower(term) in acc.seen then acc
    else if AcceptedTerm(term) then
      Acc(SetConcept(acc.concepts, KeyConcept(term, d.definition, 0.95, DefinitionKind, CountOccurrences(text, term))),
          acc.seen + {Lower(term)})
    else acc
  }

  function DefinitionPhase(text: string, defs: seq<Patterns.Definition>, i: nat, acc: Acc): Acc
    requires i <= |defs|
    decreases |defs| - i
  {
    if i == |defs| then acc else DefinitionPhase(text, defs, i + 1, DefinitionStep(text, acc, defs[i]))
  }

  function FrequencyStep(sentences: seq<string>, acc: Acc, e: (string, nat)): Acc
  {
    var term := e.0;
    if e.1 >= 3 && Lower(term) !in acc.seen then
      Acc(SetConcept(acc.concepts, FrequentConcept(sentences, e)), acc.seen + {Lower(term)})
    else acc
  }

  function FrequencyPhase(sentences: seq<string>, tally: AiGeneration.Tally, i: nat, acc: Acc): Acc
    requires i <= |tally|
    decreases |tally| - i
  {
    if i == |tally| then acc else FrequencyPhase(sentences, tally, i + 1, FrequencyStep(sentences, acc, tally[i]))
  }

  function Confidence(c: KeyConcept): real { c.confidence }

  function LowerTerm(c: KeyConcept): string { Lower(c.term) }

  /** The concepts `extractKeyConcepts` returns for the text, its definitions and its sentences. */
  function KeyConcepts(text: string, defs: seq<Patterns.Definition>, sentences: seq<string>): seq<KeyConcept>
  {
    var acc1 := DefinitionPhase(text, defs, 0, Acc([], {}));
    var acc2 := FrequencyPhase(sentences, Frequencies(text, acc1.seen), 0, acc1);
    Take(SortDesc(acc2.concepts, Confidence), 25)
  }

  /** `extractKeyConcepts()`. */
  method ExtractKeyConcepts(a: Analyzer.Analysis) returns (result: seq<KeyConcept>)
    ensures result == KeyConcepts(a.text, a.patterns.definitions, a.sentences)
  {
    var concepts, seenTermsLower := DefinitionConcepts(a.text, a.patterns.definitions);
    var frequency := CountCapitalPhrases(a.text, seenTermsLower);
    concepts, seenTermsLower := FrequentConcepts(a.sentences, frequency, concepts, seenTermsLower);
    result := Take(SortDesc(concepts, Confidence), 25);
  }

  /** The `forEach` over the definitions. */
  method DefinitionConcepts(text: string, defs: seq<Patterns.Definition>) returns (concepts: seq<KeyConcept>, seenTermsLower: set<string>)
    ensures Acc(concepts, seenTermsLower) == DefinitionPhase(text, defs, 0, Acc([], {}))
  {
    concepts := [];
    seenTermsLower := {};
    var i := 0;
    while i < |defs|
      invariant 0 <= i <= |defs|
      invariant DefinitionPhase(text, defs, i, Acc(concepts, seenTermsLower)) == DefinitionPhase(text, defs, 0, Acc([], {}))
    {
      ghost var before := Acc(concepts, seenTermsLower);
      var term := Trim(defs[i].term);
      var termLower := Lower(term);
      if termLower !in seenTermsLower && AcceptedTerm(term) {
        concepts := SetConcept(concepts, KeyConcept(term, defs[i].definition, 0.95, DefinitionKind,
                                                    CountOccurrences(text, term)));
        seenTermsLower := seenTermsLower + {termLower};
      }
      assert Acc(concepts, seenTermsLower) == DefinitionStep(text, before, defs[i]);
      i := i + 1;
    }
  }

  /** The `forEach` over the frequency map. */
  method FrequentConcepts(sentences: seq<string>, frequency: AiGeneration.Tally, concepts0: seq<KeyConcept>, seen0: set<string>)
    returns (concepts: seq<KeyConcept>, seenTermsLower: set<string>)
    ensures Acc(concepts, seenTermsLower) == FrequencyPhase(sentences, frequency, 0, Acc(concepts0, seen0))
  {
    concepts, seenTermsLower := concepts0, seen0;
    var j := 0;
    while j < |frequency|
      invariant 0 <= j <= |frequency|
      invariant FrequencyPhase(sentences, frequency, j, Acc(concepts, seenTermsLower))
        == FrequencyPhase(sentences, frequency, 0, Acc(concepts0, seen0))
    {
      ghost var before := Acc(concepts, seenTermsLower);
      var (term, count) := frequency[j];
      if count >= 3 && Lower(term) !in seenTermsLower {
        concepts := SetConcept(concepts, KeyConcept(term, FindDefinitionFor(sentences, term),
                                                    MinReal(count as real / 8.0, 0.8), FrequentKind, count));
        seenTermsLower := seenTermsLower + {Lower(term)};
      }
      assert Acc(concepts, seenTermsLower) == FrequencyStep(sentences, before, frequency[j]);
      j := j + 1;
    }
  }

  // ---------------------------------------------------------------------
  // What the extraction guarantees
  // ---------------------------------------------------------------------

  /** The confidence each kind of concept gets. */
  predicate WellRated(c: KeyConcept)
  {
    (c.kind == DefinitionKind ==> c.confidence == 0.95)
    && (c.kind == FrequentKind ==> c.occurrences >= 3 && c.confidence == MinReal(c.occurrences as real / 8.0, 0.8))
  }

  /** What holds of the map and the set at every step. */
  predicate Good(acc: Acc)
  {
    (forall k :: 0 <= k < |acc.concepts| ==> Lower(acc.concepts[k].term) in acc.seen)
    && DistinctBy(acc.concepts, LowerTerm)
    && (forall k :: 0 <= k < |acc.concepts| ==> IsValidConceptTerm(acc.concepts[k].term) && WellRated(acc.concepts[k]))
  }

  /** Adding a concept whose lower-case term is new keeps the invariant. */
  lemma AddKeepsGood(acc: Acc, c: KeyConcept)
    requires Good(acc) && Lower(c.term) !in acc.seen
    requires IsValidConceptTerm(c.term) && WellRated(c)
    ensures SetConcept(acc.concepts, c) == acc.concepts + [c]
    ensures Good(Acc(acc.concepts + [c], acc.seen + {Lower(c.term)}))
  {
    SetNewConcept(acc.concepts, c);
    var cs := acc.concepts + [c];
    forall i, j | 0 <= i < j < |cs| ensures LowerTerm(cs[i]) != LowerTerm(cs[j]) {
      if j == |cs| - 1 {
        assert Lower(cs[i].term) in acc.seen;
      } else {
        assert cs[i] == acc.concepts[i] && cs[j] == acc.concepts[j];
      }
    }
  }

  /** Every accepted definition term is in the seen set. */
  predicate DefinitionsSeen(defs: seq<Patterns.Definition>, i: nat, seen: set<string>)
    requires i <= |defs|
  {
    forall j :: 0 <= j < i && AcceptedTerm(Trim(defs[j].term)) ==> Lower(Trim(defs[j].term)) in seen
  }

  lemma {:induction false} DefinitionPhaseGood(text: string, defs: seq<Patterns.Definition>, i: nat, acc: Acc)
    requires i <= |defs| && Good(acc) && DefinitionsSeen(defs, i, acc.seen)
    requires forall k :: 0 <= k < |acc.concepts| ==> acc.concepts[k].kind == DefinitionKind
    ensures var r := DefinitionPhase(text, defs, i, acc);
      Good(r) && DefinitionsSeen(defs, |defs|, r.seen) && acc.seen <= r.seen
      && forall k :: 0 <= k < |r.concepts| ==> r.concepts[k].kind == DefinitionKind
    decreases |defs| - i
  {
    if i < |defs| {
      var next := DefinitionStep(text, acc, defs[i]);
      DefinitionStepGood(text, defs, i, acc);
      DefinitionPhaseGood(text, defs, i + 1, next);
    }
  }

  /** One definition step keeps the invariant, records the definition's term and adds only definition concepts. */
  lemma DefinitionStepGood(text: string, defs: seq<Patterns.Definition>, i: nat, acc: Acc)
    requires i < |defs| && Good(acc) && DefinitionsSeen(defs, i, acc.seen)
    requires forall k :: 0 <= k < |acc.concepts| ==> acc.concepts[k].kind == DefinitionKind
    ensures var next := DefinitionStep(text, acc, defs[i]);
      Good(next) && DefinitionsSeen(defs, i + 1, next.seen) && acc.seen <= next.seen
      && forall k :: 0 <= k < |next.concepts| ==> next.concepts[k].kind == DefinitionKind
  {
    DefinitionStepKeeps(text, acc, defs[i]);
    SeenExtends(defs, i, acc.seen, DefinitionStep(text, acc, defs[i]).seen);
  }

  lemma SeenExtends(defs: seq<Patterns.Definition>, i: nat, seen: set<string>, seen': set<string>)
    requires i < |defs| && DefinitionsSeen(defs, i, seen) && seen <= seen'
    requires AcceptedTerm(Trim(defs[i].term)) ==> Lower(Trim(defs[i].term)) in seen'
    ensures DefinitionsSeen(defs, i + 1, seen')
  {
    KeysExtend(defs, (d: Patterns.Definition) => AcceptedTerm(Trim(d.term)), (d: Patterns.Definition) => Lower(Trim(d.term)), i, seen, seen');
  }

  /** The keys of the accepted items below `i + 1` are in a larger set that holds item `i`'s key. */
  lemma KeysExtend<T>(xs: seq<T>, accepted: T -> bool, key: T -> string, i: nat, seen: set<string>, seen': set<string>)
    requires i < |xs| && seen <= seen'
    requires forall j :: 0 <= j < i && accepted(xs[j]) ==> key(xs[j]) in seen
    requires accepted(xs[i]) ==> key(xs[i]) in seen'
    ensures forall j :: 0 <= j < i + 1 && accepted(xs[j]) ==> key(xs[j]) in seen'
  {
  }

  lemma DefinitionStepKeeps(text: string, acc: Acc, d: Patterns.Definition)
    requires Good(acc)
    requires forall k :: 0 <= k < |acc.concepts| ==> acc.concepts[k].kind == DefinitionKind
    ensures var next := DefinitionStep(text, acc, d);
      Good(next) && acc.seen <= next.seen
      && (AcceptedTerm(Trim(d.term)) ==> Lower(Trim(d.term)) in next.seen)
      && forall k :: 0 <= k < |next.concepts| ==> next.concepts[k].kind == DefinitionKind
  {
    var term := Trim(d.term);
    if Lower(term) !in acc.seen && AcceptedTerm(term) {
      var c := KeyConcept(term, d.definition, 0.95, DefinitionKind, CountOccurrences(text, term));
      AddKeepsGood(acc, c);
      assert DefinitionStep(text, acc, d) == Acc(acc.concepts + [c], acc.seen + {Lower(term)});
    }
  }

  /** No frequent concept has the lower-case term of a definition concept. */
  predicate FrequentAreNew(acc: Acc, seen1: set<string>)
  {
    forall k :: 0 <= k < |acc.concepts| && acc.concepts[k].kind == FrequentKind ==> Lower(acc.concepts[k].term) !in seen1
  }

  /** The tally's terms are all counted ones. */
  predicate CountedTally(t: AiGeneration.Tally, seen: set<string>)
  {
    forall k :: 0 <= k < |t| ==> Counted(t[k].0, seen)
  }

  lemma {:induction false} BumpCounted(t: AiGeneration.Tally, term: string, seen: set<string>)
    requires CountedTally(t, seen) && Counted(term, seen)
    ensures CountedTally(AiGeneration.Bump(t, term), seen)
  {
    if t != [] && t[0].0 != term {
      BumpCounted(t[1..], term, seen);
      var r := AiGeneration.Bump(t, term);
      forall k | 0 <= k < |r| ensures Counted(r[k].0, seen) {
        if k > 0 { assert r[k] == AiGeneration.Bump(t[1..], term)[k - 1]; }
      }
    }
  }

  lemma {:induction false} TallyAllCounted(t: AiGeneration.Tally, terms: seq<string>, seen: set<string>)
    requires CountedTally(t, seen)
    requires forall k :: 0 <= k < |terms| ==> Counted(terms[k], seen)
    ensures CountedTally(AiGeneration.TallyAll(t, terms), seen)
    decreases |terms|
  {
    if terms != [] {
      BumpCounted(t, terms[0], seen);
      TallyAllCounted(AiGeneration.Bump(t, terms[0]), terms[1..], seen);
    }
  }

  lemma FrequencyStepGood(sentences: seq<string>, acc: Acc, e: (string, nat), seen1: set<string>)
    requires Good(acc) && FrequentAreNew(acc, seen1) && seen1 <= acc.seen && Counted(e.0, seen1)
    ensures var r := FrequencyStep(sentences, acc, e);
      Good(r) && FrequentAreNew(r, seen1) && seen1 <= r.seen && acc.concepts <= r.concepts
  {
    if e.1 >= 3 && Lower(e.0) !in acc.seen {
      FrequentAddGood(sentences, acc, e, seen1);
    }
  }

  /** The concept a frequent term becomes. */
  function FrequentConcept(sentences: seq<string>, e: (string, nat)): KeyConcept
  {
    KeyConcept(e.0, FindDefinitionFor(sentences, e.0), MinReal(e.1 as real / 8.0, 0.8), FrequentKind, e.1)
  }

  /** Adding one new frequent concept keeps both invariants. */
  lemma FrequentAddGood(sentences: seq<string>, acc: Acc, e: (string, nat), seen1: set<string>)
    requires Good(acc) && FrequentAreNew(acc, seen1) && seen1 <= acc.seen && Counted(e.0, seen1)
    requires e.1 >= 3 && Lower(e.0) !in acc.seen
    ensures var r := FrequencyStep(sentences, acc, e);
      Good(r) && FrequentAreNew(r, seen1) && seen1 <= r.seen && acc.concepts <= r.concepts
  {
    var c := FrequentConcept(sentences, e);
    AddKeepsGood(acc, c);
    AppendFrequentNew(acc, c, seen1);
    assert FrequencyStep(sentences, acc, e) == Acc(acc.concepts + [c], acc.seen + {Lower(c.term)});
  }

  lemma AppendFrequentNew(acc: Acc, c: KeyConcept, seen1: set<string>)
    requires FrequentAreNew(acc, seen1) && Lower(c.term) !in seen1
    ensures FrequentAreNew(Acc(acc.concepts + [c], acc.seen + {Lower(c.term)}), seen1)
  {
    var cs := acc.concepts + [c];
    forall k | 0 <= k < |cs| && cs[k].kind == FrequentKind ensures Lower(cs[k].term) !in seen1 {
      if k < |acc.concepts| { assert cs[k] == acc.concepts[k]; }
    }
  }

  lemma {:induction false} FrequencyPhaseGood(sentences: seq<string>, tally: AiGeneration.Tally, i: nat, acc: Acc, seen1: set<string>)
    requires i <= |tally| && Good(acc) && FrequentAreNew(acc, seen1) && seen1 <= acc.seen
    requires CountedTally(tally, seen1)
    ensures var r := FrequencyPhase(sentences, tally, i, acc);
      Good(r) && FrequentAreNew(r, seen1) && acc.concepts <= r.concepts
    decreases |tally| - i
  {
    if i < |tally| {
      FrequencyStepGood(sentences, acc, tally[i], seen1);
      FrequencyPhaseGood(sentences, tally, i + 1, FrequencyStep(sentences, acc, tally[i]), seen1);
    }
  }

  /** Sorting and cutting keep every per-element fact and the distinct lower-case terms. */
  lemma SortTakeKeeps(cs: seq<KeyConcept>, p: KeyConcept -> bool)
    requires forall k :: 0 <= k < |cs| ==> p(cs[k])
    ensures forall k :: 0 <= k < |Take(SortDesc(cs, Confidence), 25)| ==> p(Take(SortDesc(cs, Confidence), 25)[k])
  {
    var s := SortDesc(cs, Confidence);
    forall k | 0 <= k < |Take(s, 25)| ensures p(Take(s, 25)[k]) {
      assert Take(s, 25)[k] == s[k];
      assert s[k] in multiset(cs);
      var m :| 0 <= m < |cs| && cs[m] == s[k];
    }
  }

  /** After both phases: the invariant, and the definition terms kept out of the frequent concepts. */
  lemma PhasesGood(text: string, defs: seq<Patterns.Definition>, sentences: seq<string>)
    ensures var acc1 := DefinitionPhase(text, defs, 0, Acc([], {}));
      var acc2 := FrequencyPhase(sentences, Frequencies(text, acc1.seen), 0, acc1);
      Good(acc2) && FrequentAreNew(acc2, acc1.seen) && DefinitionsSeen(defs, |defs|, acc1.seen)
  {
    var acc1 := DefinitionPhase(text, defs, 0, Acc([], {}));
    DefinitionPhaseGood(text, defs, 0, Acc([], {}));
    TallyAllCounted([], CountedOnly(CapitalPhrases(text, 0), acc1.seen), acc1.seen);
    assert FrequentAreNew(acc1, acc1.seen);
    FrequencyPhaseGood(sentences, Frequencies(text, acc1.seen), 0, acc1, acc1.seen);
  }

  /** Ranked concepts: sorting and the cut keep what holds of each concept, and order the kinds. */
  lemma RankedShape(cs: seq<KeyConcept>, seen1: set<string>)
    requires DistinctBy(cs, LowerTerm) && forall k :: 0 <= k < |cs| ==> IsValidConceptTerm(cs[k].term) && WellRated(cs[k])
    requires FrequentAreNew(Acc(cs, {}), seen1)
    ensures var r := Take(SortDesc(cs, Confidence), 25);
      |r| <= 25 && SortedDesc(r, Confidence) && DistinctBy(r, LowerTerm)
      && (forall k :: 0 <= k < |r| ==> IsValidConceptTerm(r[k].term) && WellRated(r[k]))
      && (forall k :: 0 <= k < |r| && r[k].kind == FrequentKind ==> Lower(r[k].term) !in seen1)
      && (forall k, j :: 0 <= k < j < |r| && r[j].kind == DefinitionKind ==> r[k].kind == DefinitionKind)
  {
    var s := SortDesc(cs, Confidence);
    var r := Take(s, 25);
    SortDescSorted(cs, Confidence);
    SortDescDistinct(cs, Confidence, LowerTerm);
    PrefixKeeps(s, r);
    SortTakeKeeps(cs, (c: KeyConcept) => IsValidConceptTerm(c.term) && WellRated(c));
    SortTakeKeeps(cs, (c: KeyConcept) => c.kind == FrequentKind ==> Lower(c.term) !in seen1);
    KindsOrdered(r);
  }

  lemma PrefixKeeps(s: seq<KeyConcept>, r: seq<KeyConcept>)
    requires SortedDesc(s, Confidence) && DistinctBy(s, LowerTerm) && r <= s
    ensures SortedDesc(r, Confidence) && DistinctBy(r, LowerTerm)
  {
  }

  /** In a list sorted by confidence, definition concepts (0.95) come before frequent ones (at most 0.8). */
  lemma KindsOrdered(r: seq<KeyConcept>)
    requires SortedDesc(r, Confidence) && forall k :: 0 <= k < |r| ==> WellRated(r[k])
    ensures forall k, j :: 0 <= k < j < |r| && r[j].kind == DefinitionKind ==> r[k].kind == DefinitionKind
  {
    forall k, j | 0 <= k < j < |r| && r[j].kind == DefinitionKind ensures r[k].kind == DefinitionKind {
      assert r[k].confidence >= r[j].confidence;
    }
  }

  /**
   * The key concepts: at most 25, sorted by descending confidence, their
   * terms pairwise distinct up to case and valid concept terms; definition
   * concepts rated 0.95, frequent ones seen at least three times and rated
   * `min(count / 8, 0.8)`; no frequent concept repeats an accepted
   * definition term, and all definition concepts come first.
   */
  lemma KeyConceptsShape(text: string, defs: seq<Patterns.Definition>, sentences: seq<string>)
    ensures var r := KeyConcepts(text, defs, sentences);
      |r| <= 25
      && SortedDesc(r, Confidence)
      && DistinctBy(r, LowerTerm)
      && (forall k :: 0 <= k < |r| ==> IsValidConceptTerm(r[k].term) && WellRated(r[k]))
      && (forall k, j :: 0 <= k < |r| && 0 <= j < |defs| && r[k].kind == FrequentKind && AcceptedTerm(Trim(defs[j].term))
            ==> Lower(r[k].term) != Lower(Trim(defs[j].term)))
      && (forall k, j :: 0 <= k < j < |r| && r[j].kind == DefinitionKind ==> r[k].kind == DefinitionKind)
  {
    var acc1 := DefinitionPhase(text, defs, 0, Acc([], {}));
    var acc2 := FrequencyPhase(sentences, Frequencies(text, acc1.seen), 0, acc1);
    PhasesGood(text, defs, sentences);
    RankedShape(acc2.concepts, acc1.seen);
    var r := KeyConcepts(text, defs, sentences);
    forall k, j | 0 <= k < |r| && 0 <= j < |defs| && r[k].kind == FrequentKind && AcceptedTerm(Trim(defs[j].term))
      ensures Lower(r[k].term) != Lower(Trim(defs[j].term))
    {
      assert Lower(Trim(defs[j].term)) in acc1.seen;
    }
  }
}
