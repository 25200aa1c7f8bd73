/**
 * The backend's model service around `parseAIResponse`: assembling the
 * reviewer (sections and concepts) and the quiz question bank from model
 * completions, with the heuristic fallbacks used when a completion is
 * missing or malformed. A completion is `Ok(text)`, or `Err` when the call to
 * the model failed; `JSON.parse` is the parameter `parse`.
 */
module AiGeneration {
  import opened TextUtil
  import opened Json
  import opened Shuffle
  import ResponseRepair

  // ---------------------------------------------------------------------
  // Section markers
  // ---------------------------------------------------------------------

  /** `line.replace(/^BULLET\s+/i, '• ')`. */
  function RewriteBullet(line: string): string
  {
    if |line| >= 6 && Lower(line[..6]) == "bullet" && SpaceRun(line, 6) >= 1
    then "\U{2022} " + line[6 + SpaceRun(line, 6)..]
    else line
  }

  /** `line.replace(/^NUM(\d+)\.\s+/i, '$1. ')`. */
  function RewriteNumbered(line: string): string
  {
    if |line| >= 3 && Lower(line[..3]) == "num" then
      var d := Run(line, 3, IsDigit);
      if d >= 1 && 3 + d < |line| && line[3 + d] == '.' && SpaceRun(line, 4 + d) >= 1
      then line[3..3 + d] + ". " + line[4 + d + SpaceRun(line, 4 + d)..]
      else line
    else line
  }

  /** `line.replace(/^ARROW\s+/i, '> ')`. */
  function RewriteArrow(line: string): string
  {
    if |line| >= 5 && Lower(line[..5]) == "arrow" && SpaceRun(line, 5) >= 1
    then "> " + line[5 + SpaceRun(line, 5)..]
    else line
  }

  /** The three marker rewrites, applied one after the other to a string line; other lines stay. */
  function RewriteMarkers(line: JsonValue): JsonValue
  {
    if line.JStr? then JStr(RewriteArrow(RewriteNumbered(RewriteBullet(line.s)))) else line
  }

  /** The marker a line starts with, if any: the first of the three rewrites that applies. */
  function FirstMarkerRewrite(line: string): string
  {
    if RewriteBullet(line) != line then RewriteBullet(line)
    else if RewriteNumbered(line) != line then RewriteNumbered(line)
    else RewriteArrow(line)
  }

  /** A rewritten line no longer starts with a marker, so at most one of the three rewrites applies. */
  lemma MarkersRewriteOnce(line: string)
    ensures RewriteArrow(RewriteNumbered(RewriteBullet(line))) == FirstMarkerRewrite(line)
  {
    var b := RewriteBullet(line);
    if b != line {
      assert b[0] == '\U{2022}';
      if |b| >= 3 { assert Lower(b[..3])[0] == LowerChar(b[0]); }
      assert RewriteNumbered(b) == b;
      if |b| >= 5 { assert Lower(b[..5])[0] == LowerChar(b[0]); }
      assert RewriteArrow(b) == b;
    } else {
      var n := RewriteNumbered(line);
      if n != line {
        var d := Run(line, 3, IsDigit);
        assert n[0] == line[3] && IsDigit(n[0]);
        if |n| >= 5 { assert Lower(n[..5])[0] == LowerChar(n[0]); }
        assert RewriteArrow(n) == n;
      }
    }
  }

  /** The marker rewrite leaves non-string lines and lines without a marker as they are. */
  lemma MarkersKeepPlainLines(line: JsonValue)
    requires !line.JStr? || (RewriteBullet(line.s) == line.s && RewriteNumbered(line.s) == line.s
                             && RewriteArrow(line.s) == line.s)
    ensures RewriteMarkers(line) == line
  {
  }

  /** `{ ...section, content: section.content.map(...) }`, or `None` where the source throws. */
  function RewriteSection(section: JsonValue): (r: Option<JsonValue>)
    ensures r.Some? <==> Get(section, "content").Some? && Get(section, "content").value.JArr?
    ensures r.Some? ==>
      r.value.JObj? && r.value.fields.Keys == section.fields.Keys
      && (forall key :: key in section.fields && key != "content" ==> r.value.fields[key] == section.fields[key])
      && var lines := section.fields["content"].items;
         r.value.fields["content"].JArr? && |r.value.fields["content"].items| == |lines|
         && forall k :: 0 <= k < |lines| ==> r.value.fields["content"].items[k] == RewriteMarkers(lines[k])
  {
    match Get(section, "content")
    case Some(JArr(lines)) =>
      Some(JObj(section.fields["content" := JArr(seq(|lines|, k requires 0 <= k < |lines| => RewriteMarkers(lines[k])))]))
    case _ => None
  }

  function RewriteSectionsFrom(items: seq<JsonValue>): (r: Option<seq<JsonValue>>)
    ensures r.Some? <==> forall k :: 0 <= k < |items| ==> RewriteSection(items[k]).Some?
    ensures r.Some? ==> |r.value| == |items| && forall k :: 0 <= k < |items| ==> RewriteSection(items[k]) == Some(r.value[k])
  {
    if items == [] then Some([])
    else match (RewriteSection(items[0]), RewriteSectionsFrom(items[1..]))
      case (Some(x), Some(xs)) => Some([x] + xs)
      case _ => None
  }

  /** `sections.map(...)` on the parsed value: defined only on an array of objects whose `content` is an array. */
  function RewriteSections(parsed: JsonValue): Option<seq<JsonValue>>
  {
    if parsed.JArr? then RewriteSectionsFrom(parsed.items) else None
  }

  /** The section list used when the section completion fails: one overview of the first 500 characters. */
  function OverviewSection(text: string): JsonValue
  {
    JObj(map["title" := JStr("Overview"), "level" := JNum(1.0), "content" := JArr([JStr(Prefix(text, 500))])])
  }

  /** The section completion after repair and `JSON.parse`; a failed call is an error as well. */
  function SectionsParsed(reply: Result<string>, parse: string -> Result<JsonValue>): Result<JsonValue>
  {
    if reply.Ok? then ResponseRepair.ParseAIResponse(reply.value, "sections", parse) else Err(reply.error)
  }

  /** Whether the section step's `try` block completes: the completion repairs, parses, and every section has a `content` array. */
  predicate SectionsUsable(reply: Result<string>, parse: string -> Result<JsonValue>)
  {
    SectionsParsed(reply, parse).Ok? && RewriteSections(SectionsParsed(reply, parse).value).Some?
  }

  /** The sections of the reviewer: the rewritten completion, or the overview on any failure. */
  function ReviewerSections(text: string, reply: Result<string>, parse: string -> Result<JsonValue>): (r: seq<JsonValue>)
    ensures !SectionsUsable(reply, parse) ==> r == [OverviewSection(text)]
    ensures SectionsUsable(reply, parse) ==>
      var items := SectionsParsed(reply, parse).value.items;
      |r| == |items| && forall k :: 0 <= k < |items| ==> RewriteSection(items[k]) == Some(r[k])
  {
    var parsed := SectionsParsed(reply, parse);
    if parsed.Err? then [OverviewSection(text)]
    else match RewriteSections(parsed.value)
      case Some(sections) => sections
      case None => [OverviewSection(text)]
  }

  // ---------------------------------------------------------------------
  // Concept de-duplication
  // ---------------------------------------------------------------------

  /** The lower-cased `term` of a parsed concept, when it is a string. */
  function TermKey(c: JsonValue): Option<string>
  {
    match AsString(Get(c, "term"))
    case Some(t) => Some(Lower(t))
    case None => None
  }

  predicate AllTermsStrings(cs: seq<JsonValue>)
  {
    forall k :: 0 <= k < |cs| ==> TermKey(cs[k]).Some?
  }

  function Keys(cs: seq<JsonValue>): (r: set<string>)
    requires AllTermsStrings(cs)
  {
    set k | 0 <= k < |cs| :: TermKey(cs[k]).value
  }

  /**
   * Reference reading of the filter: a concept is kept exactly when no earlier
   * concept has the same lower-cased term.
   */
  function FirstOccurrences(cs: seq<JsonValue>): (r: seq<JsonValue>)
    requires AllTermsStrings(cs)
    ensures AllTermsStrings(r)
  {
    if cs == [] then []
    else
      var init := cs[..|cs| - 1];
      var last := cs[|cs| - 1];
      FirstOccurrences(init) + (if TermKey(last).value in Keys(init) then [] else [last])
  }

  /**
   * The `filter` with a `Set` of lower-cased terms seen so far; `Err` where
   * the source throws because a `term` is not a string.
   */
  method DedupConcepts(cs: seq<JsonValue>) returns (r: Result<seq<JsonValue>>)
    ensures r.Ok? <==> AllTermsStrings(cs)
    ensures r.Ok? ==> r.value == FirstOccurrences(cs)
  {
    var seen: set<string> := {};
    var kept: seq<JsonValue> := [];
    var i := 0;
    while i < |cs|
      invariant 0 <= i <= |cs|
      invariant AllTermsStrings(cs[..i])
      invariant seen == Keys(cs[..i])
      invariant kept == FirstOccurrences(cs[..i])
    {
      var key := TermKey(cs[i]);
      if key.None? {
        return Err("Cannot read properties of term");
      }
      FirstOccurrencesStep(cs, i);
      if key.value !in seen {
        kept := kept + [cs[i]];
      }
      seen := seen + {key.value};
      i := i + 1;
    }
    assert cs[..i] == cs;
    return Ok(kept);
  }

  /** One more concept extends the keys by its key, and the filter by the concept when its key is new. */
  lemma FirstOccurrencesStep(cs: seq<JsonValue>, i: nat)
    requires i < |cs| && AllTermsStrings(cs[..i]) && TermKey(cs[i]).Some?
    ensures AllTermsStrings(cs[..i + 1])
    ensures Keys(cs[..i + 1]) == Keys(cs[..i]) + {TermKey(cs[i]).value}
    ensures FirstOccurrences(cs[..i + 1])
      == FirstOccurrences(cs[..i]) + (if TermKey(cs[i]).value in Keys(cs[..i]) then [] else [cs[i]])
  {
    var next := cs[..i + 1];
    assert next == cs[..i] + [cs[i]];
    assert next[..i] == cs[..i] && next[i] == cs[i];
    KeysAppend(cs[..i], [cs[i]]);
    assert Keys([cs[i]]) == {TermKey(cs[i]).value};
  }

  lemma KeysAppend(a: seq<JsonValue>, b: seq<JsonValue>)
    requires AllTermsStrings(a) && AllTermsStrings(b)
    ensures AllTermsStrings(a + b)
    ensures Keys(a + b) == Keys(a) + Keys(b)
  {
    var c := a + b;
    forall x | x in Keys(c) ensures x in Keys(a) + Keys(b) {
      var k :| 0 <= k < |c| && TermKey(c[k]).value == x;
      if k < |a| { assert c[k] == a[k]; } else { assert c[k] == b[k - |a|]; }
    }
    forall x | x in Keys(a) + Keys(b) ensures x in Keys(c) {
      if x in Keys(a) {
        var k :| 0 <= k < |a| && TermKey(a[k]).value == x;
        assert c[k] == a[k];
      } else {
        var k :| 0 <= k < |b| && TermKey(b[k]).value == x;
        assert c[k + |a|] == b[k];
      }
    }
  }

  /** The filter keeps one concept per lower-cased term, and every term survives. */
  lemma {:induction false} FirstOccurrencesKeys(cs: seq<JsonValue>)
    requires AllTermsStrings(cs)
    ensures Keys(FirstOccurrences(cs)) == Keys(cs)
    ensures forall i, j :: 0 <= i < j < |FirstOccurrences(cs)| ==>
      TermKey(FirstOccurrences(cs)[i]) != TermKey(FirstOccurrences(cs)[j])
  {
    if cs != [] {
      var init := cs[..|cs| - 1];
      var last := cs[|cs| - 1];
      FirstOccurrencesKeys(init);
      assert cs == init + [last];
      KeysAppend(init, [last]);
      assert Keys([last]) == {TermKey(last).value};
      var f := FirstOccurrences(init);
      if TermKey(last).value !in Keys(init) {
        var g := f + [last];
        assert FirstOccurrences(cs) == g;
        KeysAppend(f, [last]);
        forall i, j | 0 <= i < j < |g| ensures TermKey(g[i]) != TermKey(g[j]) {
          if j == |g| - 1 {
            assert g[i] == f[i];
            assert TermKey(f[i]).value in Keys(f);
          } else {
            assert g[i] == f[i] && g[j] == f[j];
          }
        }
      } else {
        assert FirstOccurrences(cs) == f;
      }
    }
  }

  // ---------------------------------------------------------------------
  // extractBasicConcepts
  // ---------------------------------------------------------------------

  /** Length of the run of lower-case letters from `i`. */
  function LowerRun(s: string, i: nat): (n: nat)
    requires i <= |s|
    ensures i + n <= |s|
  {
    Run(s, i, IsLower)
  }

  /** A capitalised word of at least `minLower` lower-case letters at `i`: its end, if there is one. */
  function CapitalWordAt(s: string, i: nat, minLower: nat): (r: Option<nat>)
    requires i <= |s|
    ensures r.Some? ==> i < r.value <= |s|
  {
    if i < |s| && IsUpper(s[i]) && LowerRun(s, i + 1) >= minLower then Some(i + 1 + LowerRun(s, i + 1))
    else None
  }

  /**
   * A match of `\b([A-Z][a-z]{3,}(?:\s+[A-Z][a-z]{3,})?)\b` starting at `i`:
   * the optional second word is tried first.
   */
  function BasicTermAt(s: string, i: nat): (r: Option<nat>)
    requires i <= |s|
    ensures r.Some? ==> i < r.value <= |s|
  {
    if !WordBoundary(s, i) then None
    else match CapitalWordAt(s, i, 3)
      case None => None
      case Some(e1) =>
        var w := SpaceRun(s, e1);
        var second := if w >= 1 then CapitalWordAt(s, e1 + w, 3) else None;
        if second.Some? && WordBoundary(s, second.value) then Some(second.value)
        else if WordBoundary(s, e1) then Some(e1)
        else None
  }

  /** The terms the global `exec` loop finds from position `i` on, in order. */
  function BasicTerms(s: string, i: nat): seq<string>
    requires i <= |s|
    decreases |s| - i
  {
    if i == |s| then []
    else match BasicTermAt(s, i)
      case Some(e) => [s[i..e]] + BasicTerms(s, e)
      case None => BasicTerms(s, i + 1)
  }

  /** A `Map` from term to count, in insertion order. */
  type Tally = seq<(string, nat)>

  function Bump(t: Tally, term: string): (r: Tally)
    ensures |r| == |t| || |r| == |t| + 1
  {
    if t == [] then [(term, 1)]
    else if t[0].0 == term then [(term, t[0].1 + 1)] + t[1..]
    else [t[0]] + Bump(t[1..], term)
  }

  /** `termCounts.set(term, (termCounts.get(term) || 0) + 1)` for each term in turn. */
  function TallyAll(t: Tally, terms: seq<string>): Tally
    decreases |terms|
  {
    if terms == [] then t else TallyAll(Bump(t, terms[0]), terms[1..])
  }

  function Occurrences(terms: seq<string>, x: string): nat
  {
    if terms == [] then 0 else (if terms[0] == x then 1 else 0) + Occurrences(terms[1..], x)
  }

  function TallyCount(t: Tally, x: string): nat
  {
    if t == [] then 0 else if t[0].0 == x then t[0].1 else TallyCount(t[1..], x)
  }

  predicate DistinctKeys(t: Tally)
  {
    forall i, j :: 0 <= i < j < |t| ==> t[i].0 != t[j].0
  }

  /** `key` is one of the tally's terms. */
  predicate HasKey(t: Tally, key: string)
  {
    exists j :: 0 <= j < |t| && t[j].0 == key
  }

  lemma {:induction false} BumpCounts(t: Tally, term: string)
    requires DistinctKeys(t)
    ensures DistinctKeys(Bump(t, term))
    ensures forall x :: TallyCount(Bump(t, term), x) == TallyCount(t, x) + (if x == term then 1 else 0)
    ensures forall k :: 0 <= k < |Bump(t, term)| ==> Bump(t, term)[k].0 == term || HasKey(t, Bump(t, term)[k].0)
    ensures forall k :: 0 <= k < |Bump(t, term)| ==> Bump(t, term)[k].1 >= 1 || (k < |t| && Bump(t, term)[k] == t[k])
  {
    BumpKeys(t, term);
    BumpDistinct(t, term);
    BumpCount(t, term);
    BumpValues(t, term);
  }

  /** Bumping introduces no term other than the bumped one. */
  lemma {:induction false} BumpKeys(t: Tally, term: string)
    ensures forall k :: 0 <= k < |Bump(t, term)| ==> Bump(t, term)[k].0 == term || HasKey(t, Bump(t, term)[k].0)
  {
    if t != [] && t[0].0 != term {
      BumpKeys(t[1..], term);
      ConsKeys(t, Bump(t[1..], term), term);
    } else if t != [] {
      var r := Bump(t, term);
      forall k | 0 < k < |r| ensures HasKey(t, r[k].0) {
        assert r[k] == t[k];
      }
    }
  }

  lemma ConsKeys(t: Tally, rest: Tally, term: string)
    requires t != []
    requires forall k :: 0 <= k < |rest| ==> rest[k].0 == term || HasKey(t[1..], rest[k].0)
    ensures forall k :: 0 <= k < |[t[0]] + rest| ==> ([t[0]] + rest)[k].0 == term || HasKey(t, ([t[0]] + rest)[k].0)
  {
    var r := [t[0]] + rest;
    forall k | 0 <= k < |r| && r[k].0 != term ensures HasKey(t, r[k].0) {
      if k == 0 {
        assert t[0].0 == r[k].0;
      } else {
        assert r[k] == rest[k - 1];
        var m :| 0 <= m < |t[1..]| && t[1..][m].0 == r[k].0;
        assert t[m + 1].0 == r[k].0;
      }
    }
  }

  /** Bumping keeps the terms distinct. */
  lemma {:induction false} BumpDistinct(t: Tally, term: string)
    requires DistinctKeys(t)
    ensures DistinctKeys(Bump(t, term))
  {
    if t != [] && t[0].0 != term {
      BumpDistinct(t[1..], term);
      BumpKeys(t[1..], term);
      ConsDistinct(t, Bump(t[1..], term), term);
    } else if t != [] {
      var r := Bump(t, term);
      forall i, j | 0 <= i < j < |r| ensures r[i].0 != r[j].0 {
        assert r[j] == t[j];
        if i > 0 { assert r[i] == t[i]; }
      }
    }
  }

  lemma ConsDistinct(t: Tally, rest: Tally, term: string)
    requires t != [] && DistinctKeys(t) && DistinctKeys(rest) && t[0].0 != term
    requires forall k :: 0 <= k < |rest| ==> rest[k].0 == term || HasKey(t[1..], rest[k].0)
    ensures DistinctKeys([t[0]] + rest)
  {
    var r := [t[0]] + rest;
    forall i, j | 0 <= i < j < |r| ensures r[i].0 != r[j].0 {
      assert r[j] == rest[j - 1];
      if i == 0 && rest[j - 1].0 != term {
        var m :| 0 <= m < |t[1..]| && t[1..][m].0 == rest[j - 1].0;
        assert t[m + 1].0 == r[j].0;
      } else if i > 0 {
        assert r[i] == rest[i - 1];
      }
    }
  }

  /** Bumping adds one to the bumped term's count and leaves the others alone. */
  lemma {:induction false} BumpCount(t: Tally, term: string)
    requires DistinctKeys(t)
    ensures forall x :: TallyCount(Bump(t, term), x) == TallyCount(t, x) + (if x == term then 1 else 0)
  {
    if t != [] && t[0].0 != term {
      BumpCount(t[1..], term);
      var r := Bump(t, term);
      assert r[1..] == Bump(t[1..], term);
    } else if t != [] {
      var r := Bump(t, term);
      assert r[1..] == t[1..];
      forall x ensures TallyCount(r, x) == TallyCount(t, x) + (if x == term then 1 else 0) {
        if x != term {
          assert TallyCount(r, x) == TallyCount(r[1..], x);
        }
      }
    }
  }

  /** Every entry bumping yields is either counted at least once or the entry that was there. */
  lemma {:induction false} BumpValues(t: Tally, term: string)
    ensures forall k :: 0 <= k < |Bump(t, term)| ==> Bump(t, term)[k].1 >= 1 || (k < |t| && Bump(t, term)[k] == t[k])
  {
    if t != [] && t[0].0 != term {
      BumpValues(t[1..], term);
      var r := Bump(t, term);
      forall k | 0 < k < |r| ensures r[k].1 >= 1 || (k < |t| && r[k] == t[k]) {
        assert r[k] == Bump(t[1..], term)[k - 1];
        assert k - 1 < |t[1..]| ==> t[1..][k - 1] == t[k];
      }
    } else if t != [] {
      var r := Bump(t, term);
      forall k | 0 < k < |r| ensures r[k] == t[k] {
      }
    }
  }

  lemma {:induction false} TallyAllCounts(t: Tally, terms: seq<string>)
    requires DistinctKeys(t)
    ensures DistinctKeys(TallyAll(t, terms))
    ensures forall x :: TallyCount(TallyAll(t, terms), x) == TallyCount(t, x) + Occurrences(terms, x)
    decreases |terms|
  {
    if terms != [] {
      BumpCounts(t, terms[0]);
      TallyAllCounts(Bump(t, terms[0]), terms[1..]);
    }
  }

  /** The tally holds each distinct term once, with its number of occurrences in the text. */
  lemma TallyIsCounting(terms: seq<string>)
    ensures DistinctKeys(TallyAll([], terms))
    ensures forall x :: TallyCount(TallyAll([], terms), x) == Occurrences(terms, x)
  {
    TallyAllCounts([], terms);
  }

  /**
   * The counting loop of `extractBasicConcepts`: scan with the pattern from
   * the start, bumping the count of every match.
   */
  method CountBasicTerms(text: string) returns (counts: Tally)
    ensures counts == TallyAll([], BasicTerms(text, 0))
  {
    counts := [];
    var pos := 0;
    while pos < |text|
      invariant 0 <= pos <= |text|
      invariant TallyAll(counts, BasicTerms(text, pos)) == TallyAll([], BasicTerms(text, 0))
      decreases |text| - pos
    {
      match BasicTermAt(text, pos)
      case Some(e) =>
        counts := Bump(counts, text[pos..e]);
        pos := e;
      case None =>
        pos := pos + 1;
    }
  }

  /** A concept as the fallback extraction and the reviewer assemble it: a term and a definition. */
  datatype Concept = Concept(term: string, definition: string)

  function CountKey(e: (string, nat)): real
  {
    e.1 as real
  }

  function Frequent(t: Tally): (r: Tally)
    ensures forall k :: 0 <= k < |r| ==> r[k].1 >= 2 && |r[k].0| > 4
    ensures forall e :: e in r ==> e in t
  {
    if t == [] then []
    else (if t[0].1 >= 2 && |t[0].0| > 4 then [t[0]] else []) + Frequent(t[1..])
  }

  function TopTerms(t: Tally): (r: Tally)
  {
    Take(SortDesc(Frequent(t), CountKey), 20)
  }

  function AppearsDefinition(count: nat): string
  {
    "Important concept in this topic (appears " + NatToString(count) + " times)"
  }

  /** The concepts built from a tally, or the single "Main Topic" concept when no term qualifies. */
  function BasicConceptsOf(text: string, t: Tally): (r: seq<Concept>)
  {
    var top := TopTerms(t);
    if top == [] then [Concept("Main Topic", Prefix(text, 150))]
    else seq(|top|, k requires 0 <= k < |top| => Concept(top[k].0, AppearsDefinition(top[k].1)))
  }

  /** `extractBasicConcepts(text)`. */
  method ExtractBasicConcepts(text: string) returns (r: seq<Concept>)
    ensures r == BasicConceptsOf(text, TallyAll([], BasicTerms(text, 0)))
  {
    var counts := CountBasicTerms(text);
    r := BasicConceptsOf(text, counts);
  }

  /**
   * The fallback concepts: between one and twenty; either the "Main Topic"
   * concept or terms seen at least twice, longer than four characters, in
   * order of descending count.
   */
  lemma BasicConceptsShape(text: string, t: Tally)
    ensures 1 <= |BasicConceptsOf(text, t)| <= 20
    ensures TopTerms(t) == [] ==> BasicConceptsOf(text, t) == [Concept("Main Topic", Prefix(text, 150))]
    ensures forall k :: 0 <= k < |TopTerms(t)| ==> (TopTerms(t)[k].1 >= 2 && |TopTerms(t)[k].0| > 4
      && BasicConceptsOf(text, t)[k] == Concept(TopTerms(t)[k].0, AppearsDefinition(TopTerms(t)[k].1)))
    ensures forall i, j :: 0 <= i < j < |TopTerms(t)| ==> TopTerms(t)[i].1 >= TopTerms(t)[j].1
  {
    var f := Frequent(t);
    var s := SortDesc(f, CountKey);
    SortDescSorted(f, CountKey);
    TopOfSorted(f, s, TopTerms(t));
  }

  /** The first terms of a descending sort of the frequent terms are frequent and in descending count order. */
  lemma TopOfSorted(f: Tally, s: Tally, top: Tally)
    requires forall e :: e in f ==> e.1 >= 2 && |e.0| > 4
    requires multiset(s) == multiset(f) && Shuffle.SortedDesc(s, CountKey)
    requires |top| <= |s| && top == s[..|top|]
    ensures forall k :: 0 <= k < |top| ==> top[k].1 >= 2 && |top[k].0| > 4
    ensures forall i, j :: 0 <= i < j < |top| ==> top[i].1 >= top[j].1
  {
    forall k | 0 <= k < |top| ensures top[k].1 >= 2 && |top[k].0| > 4 {
      assert top[k] == s[k];
      assert top[k] in multiset(s);
      assert top[k] in f;
    }
    forall i, j | 0 <= i < j < |top| ensures top[i].1 >= top[j].1 {
      assert top[i] == s[i] && top[j] == s[j];
      assert CountKey(s[i]) >= CountKey(s[j]);
    }
  }

  // ---------------------------------------------------------------------
  // The reviewer
  // ---------------------------------------------------------------------

  /** A section of the reviewer as stored: `summary` is the first line or the empty string. */
  datatype ReviewerSection = ReviewerSection(
    title: Option<JsonValue>, level: JsonValue, content: seq<JsonValue>, summary: JsonValue, rawContent: string)

  /**
   * The text of a content line inside `join(' ')`: strings as they are,
   * `null` as nothing, an array as its items' texts joined by commas, an
   * object as "[object Object]". Numbers are written as integers only.
   */
  function LineText(v: JsonValue): string
    decreases v
  {
    match v
    case JStr(s) => s
    case JNull => ""
    case JBool(b) => if b then "true" else "false"
    case JNum(n) => if n == n.Floor as real then IntToString(n.Floor) else ""
    case JArr(items) => Join(seq(|items|, k requires 0 <= k < |items| => LineText(items[k])), ",")
    case JObj(_) => "[object Object]"
  }

  /** A nested list of strings shows as its items joined by commas, `null` items as nothing. */
  lemma NestedLineText(a: string, b: string)
    ensures LineText(JArr([JStr(a), JStr(b)])) == a + "," + b
    ensures LineText(JArr([JStr(a), JNull, JArr([JStr(b)])])) == a + ",," + b
  {
    var texts := seq(2, k requires 0 <= k < 2 => LineText([JStr(a), JStr(b)][k]));
    assert texts == [a, b];
    assert LineText(JArr([JStr(b)])) == b by {
      assert seq(1, k requires 0 <= k < 1 => LineText([JStr(b)][k])) == [b];
    }
    var three := seq(3, k requires 0 <= k < 3 => LineText([JStr(a), JNull, JArr([JStr(b)])][k]));
    assert three == [a, "", b];
    assert Join(three, ",") == a + "," + Join(["", b], ",");
  }

  function JoinLines(lines: seq<JsonValue>): string
  {
    Join(seq(|lines|, k requires 0 <= k < |lines| => LineText(lines[k])), " ")
  }

  function Lines(section: JsonValue): seq<JsonValue>
  {
    match Get(section, "content")
    case Some(JArr(lines)) => lines
    case _ => []
  }

  function ToReviewerSection(section: JsonValue): (r: ReviewerSection)
  {
    var lines := Lines(section);
    var level := Get(section, "level");
    ReviewerSection(
      Get(section, "title"),
      if TruthyOpt(level) then level.value else JNum(1.0),
      lines,
      if lines != [] && Truthy(lines[0]) then lines[0] else JStr(""),
      JoinLines(lines))
  }

  /** A concept of the reviewer: confidence falls by 0.02 per position, occurrences is random in 2..6. */
  datatype ReviewerConcept = ReviewerConcept(
    term: JsonValue, definition: Option<JsonValue>, confidence: real, kind: string, occurrences: nat)

  function ToReviewerConcept(c: JsonValue, i: nat, draws: seq<nat>): ReviewerConcept
  {
    ReviewerConcept(
      if Get(c, "term").Some? then Get(c, "term").value else JNull,
      Get(c, "definition"), 0.95 - 0.02 * (i as real), "ai-extracted", 2 + Draw(draws, i) % 5)
  }

  function ConceptAsJson(c: Concept): JsonValue
  {
    JObj(map["term" := JStr(c.term), "definition" := JStr(c.definition)])
  }

  /** The concept completion after repair and `JSON.parse`; a failed call is an error as well. */
  function ConceptsParsed(reply: Result<string>, parse: string -> Result<JsonValue>): Result<JsonValue>
  {
    if reply.Ok? then ResponseRepair.ParseAIResponse(reply.value, "concepts", parse) else Err(reply.error)
  }

  /** Whether the concept step's `try` block completes: an array whose every `term` is a string. */
  predicate ConceptsUsable(reply: Result<string>, parse: string -> Result<JsonValue>)
  {
    var parsed := ConceptsParsed(reply, parse);
    parsed.Ok? && parsed.value.JArr? && AllTermsStrings(parsed.value.items)
  }

  /** The concepts of `extractBasicConcepts(text)`, as the reviewer receives them. */
  function BasicConceptList(text: string): seq<JsonValue>
  {
    var basic := BasicConceptsOf(text, TallyAll([], BasicTerms(text, 0)));
    seq(|basic|, k requires 0 <= k < |basic| => ConceptAsJson(basic[k]))
  }

  /** The concept list: the de-duplicated completion, or the heuristic extraction on any failure. */
  function ReviewerConceptList(text: string, reply: Result<string>, parse: string -> Result<JsonValue>): (r: seq<JsonValue>)
    ensures ConceptsUsable(reply, parse) ==> r == FirstOccurrences(ConceptsParsed(reply, parse).value.items)
    ensures !ConceptsUsable(reply, parse) ==> r == BasicConceptList(text)
  {
    var parsed := ConceptsParsed(reply, parse);
    if parsed.Ok? && parsed.value.JArr? && AllTermsStrings(parsed.value.items)
    then FirstOccurrences(parsed.value.items)
    else BasicConceptList(text)
  }

  datatype Metadata = Metadata(wordCount: nat, sentenceCount: nat, paragraphCount: nat, estimatedReadTime: nat)

  function MetadataOf(text: string): (m: Metadata)
  {
    var words := |SplitSpaces(text)|;
    Metadata(words, |SplitSentenceMarks(text)|, |SplitBlankLines(text)|, (words + 199) / 200)
  }

  datatype Reviewer = Reviewer(
    title: string, sections: seq<ReviewerSection>, concepts: seq<ReviewerConcept>, metadata: Metadata, originalText: string)

  /** `generateReviewer(text, title)` given the two completions and the random draws. */
  function GenerateReviewer(text: string, title: string, sectionsReply: Result<string>,
                            conceptsReply: Result<string>, parse: string -> Result<JsonValue>, draws: seq<nat>): (r: Reviewer)
  {
    var sections := ReviewerSections(text, sectionsReply, parse);
    var concepts := ReviewerConceptList(text, conceptsReply, parse);
    Reviewer(
      title,
      seq(|sections|, k requires 0 <= k < |sections| => ToReviewerSection(sections[k])),
      seq(|concepts|, k requires 0 <= k < |concepts| => ToReviewerConcept(concepts[k], k, draws)),
      MetadataOf(text), text)
  }

  /**
   * When the section step fails anywhere (the call, the repair, `JSON.parse`
   * or a section without a `content` array), the reviewer has the one
   * "Overview" section of the first 500 characters.
   */
  lemma ReviewerSectionsFallback(text: string, title: string, sectionsReply: Result<string>,
                                 conceptsReply: Result<string>, parse: string -> Result<JsonValue>, draws: seq<nat>)
    requires !SectionsUsable(sectionsReply, parse)
    ensures GenerateReviewer(text, title, sectionsReply, conceptsReply, parse, draws).sections
      == [ReviewerSection(Some(JStr("Overview")), JNum(1.0), [JStr(Prefix(text, 500))],
                          JStr(Prefix(text, 500)), Prefix(text, 500))]
  {
    var sections := ReviewerSections(text, sectionsReply, parse);
    assert sections == [OverviewSection(text)];
    OverviewReviewerSection(text);
  }

  /** The overview section as the reviewer shows it. */
  lemma OverviewReviewerSection(text: string)
    ensures ToReviewerSection(OverviewSection(text))
      == ReviewerSection(Some(JStr("Overview")), JNum(1.0), [JStr(Prefix(text, 500))],
                         JStr(Prefix(text, 500)), Prefix(text, 500))
  {
    var o := OverviewSection(text);
    assert Get(o, "content") == Some(JArr([JStr(Prefix(text, 500))]));
    assert Get(o, "title") == Some(JStr("Overview"));
    assert Get(o, "level") == Some(JNum(1.0));
    assert Lines(o) == [JStr(Prefix(text, 500))];
    var lines := seq(1, k requires 0 <= k < 1 => LineText([JStr(Prefix(text, 500))][k]));
    assert lines == [Prefix(text, 500)];
    assert JoinLines([JStr(Prefix(text, 500))]) == Prefix(text, 500);
  }

  /**
   * On a section whose content lines are strings without spaces, the
   * reviewer's `rawContent` splits at spaces back into exactly those lines,
   * and `summary` is the first line when it is not empty.
   */
  lemma RawContentKeepsLines(section: JsonValue, lines: seq<string>)
    requires |lines| >= 1 && forall k :: 0 <= k < |lines| ==> ' ' !in lines[k]
    requires Get(section, "content") == Some(JArr(seq(|lines|, k requires 0 <= k < |lines| => JStr(lines[k]))))
    ensures var r := ToReviewerSection(section);
      SplitChar(r.rawContent, ' ') == lines
      && r.summary == (if lines[0] != [] then JStr(lines[0]) else JStr(""))
  {
    var ls := seq(|lines|, k requires 0 <= k < |lines| => JStr(lines[k]));
    assert Lines(section) == ls;
    assert seq(|ls|, k requires 0 <= k < |ls| => LineText(ls[k])) == lines;
    SplitJoin(lines, ' ');
  }

  /**
   * When the concept step fails anywhere (the call, the repair, `JSON.parse`,
   * a value that is not an array, or a `term` that is not a string), the
   * reviewer still lists one to twenty concepts, each a term and definition.
   */
  lemma ReviewerConceptsFallback(text: string, conceptsReply: Result<string>, parse: string -> Result<JsonValue>)
    requires !ConceptsUsable(conceptsReply, parse)
    ensures var cs := ReviewerConceptList(text, conceptsReply, parse);
      1 <= |cs| <= 20 && forall k :: 0 <= k < |cs| ==> cs[k].JObj? && cs[k].fields.Keys == {"term", "definition"}
  {
    BasicConceptsShape(text, TallyAll([], BasicTerms(text, 0)));
  }

  /** Every reviewer concept has its position's confidence and between 2 and 6 occurrences. */
  lemma ReviewerConceptsRanked(text: string, title: string, sectionsReply: Result<string>,
                               conceptsReply: Result<string>, parse: string -> Result<JsonValue>, draws: seq<nat>)
    ensures var cs := GenerateReviewer(text, title, sectionsReply, conceptsReply, parse, draws).concepts;
      forall i :: 0 <= i < |cs| ==>
        (2 <= cs[i].occurrences <= 6 && cs[i].kind == "ai-extracted" && cs[i].confidence == 0.95 - 0.02 * (i as real))
    ensures var cs := GenerateReviewer(text, title, sectionsReply, conceptsReply, parse, draws).concepts;
      forall i, j :: 0 <= i < j < |cs| ==> cs[i].confidence > cs[j].confidence
  {
  }

  // ---------------------------------------------------------------------
  // The question bank
  // ---------------------------------------------------------------------

  datatype Tiers<T> = Tiers(easy: T, medium: T, hard: T)

  datatype TrueFalse = TrueFalse(question: string, answer: bool, explanation: string)
  datatype MultipleChoice = MultipleChoice(question: string, options: seq<string>, correctIndex: nat, explanation: string)
  datatype Identification = Identification(question: string, answer: string, hint: string)
  datatype Pair = Pair(left: string, right: string)
  datatype MatchSet = MatchSet(pairs: seq<Pair>, instruction: string)

  /** A question of a cell: an item of the model's array as it came, or one generated by the fallback. */
  datatype Item<Q> = FromModel(raw: JsonValue) | Generated(q: Q)

  /** `generateFallbackTF(concepts)`. */
  function FallbackTF(concepts: seq<Concept>): (r: Tiers<seq<TrueFalse>>)
  {
    var valid := Take(concepts, 20);
    var easy := Take(valid, 15);
    var medium := Take(valid, 12);
    var hard := Take(valid, 10);
    Tiers(
      seq(|easy|, i requires 0 <= i < |easy| =>
        TrueFalse(easy[i].term + " is an important concept in this topic.", true, easy[i].definition)),
      seq(|medium|, i requires 0 <= i < |medium| =>
        if i % 2 == 0 then TrueFalse(medium[i].term + " is directly related to this subject matter.", true, "True. " + medium[i].definition)
        else TrueFalse(medium[i].term + " plays no role in this topic.", false, "False. " + medium[i].definition)),
      seq(|hard|, i requires 0 <= i < |hard| =>
        TrueFalse(hard[i].term + " has no relevance to this topic whatsoever.", false, "False. " + hard[i].definition)))
  }

  /**
   * The fallback true/false questions: one per concept up to 15, 12 and 10;
   * easy ones are all true, hard ones all false, medium ones alternate
   * starting with true, and every explanation carries the definition.
   */
  lemma FallbackTFShape(concepts: seq<Concept>)
    ensures var f := FallbackTF(concepts);
      |f.easy| == Min(15, |concepts|) && |f.medium| == Min(12, |concepts|) && |f.hard| == Min(10, |concepts|)
      && (forall i :: 0 <= i < |f.easy| ==> f.easy[i].answer && f.easy[i].explanation == concepts[i].definition)
      && (forall i :: 0 <= i < |f.medium| ==> (f.medium[i].answer == (i % 2 == 0)
            && EndsWith(f.medium[i].explanation, concepts[i].definition)))
      && (forall i :: 0 <= i < |f.hard| ==> !f.hard[i].answer && EndsWith(f.hard[i].explanation, concepts[i].definition))
  {
    var f := FallbackTF(concepts);
    forall i | 0 <= i < |f.medium| ensures EndsWith(f.medium[i].explanation, concepts[i].definition) {
      var e := f.medium[i].explanation;
      var d := concepts[i].definition;
      assert e[|e| - |d|..] == d;
    }
    forall i | 0 <= i < |f.hard| ensures EndsWith(f.hard[i].explanation, concepts[i].definition) {
      var e := f.hard[i].explanation;
      var d := concepts[i].definition;
      assert e[|e| - |d|..] == d;
    }
  }

  /**
   * One tier of `generateFallbackMC`: the first `n` of the first twenty concepts, each asked
   * with `stem`, its definition placed at index `at` among the three fixed distractors.
   */
  function FallbackTier(concepts: seq<Concept>, n: nat, stem: string, at: nat, distractors: seq<string>): seq<MultipleChoice>
    requires at <= |distractors|
  {
    var part := Take(Take(concepts, 20), n);
    seq(|part|, i requires 0 <= i < |part| =>
      MultipleChoice(stem + part[i].term + "?", distractors[..at] + [part[i].definition] + distractors[at..], at, part[i].definition))
  }

  /** `generateFallbackMC(concepts)`: the definition sits at index 0, 1 and 2 in the three tiers. */
  function FallbackMC(concepts: seq<Concept>): (r: Tiers<seq<MultipleChoice>>)
  {
    Tiers(
      FallbackTier(concepts, 15, "What is ", 0, ["A type of cell organelle", "A biological process", "An organism"]),
      FallbackTier(concepts, 12, "Which best describes ", 1, ["A cellular structure", "A scientific theory", "A research method"]),
      FallbackTier(concepts, 10, "What is the primary function of ", 2,
        ["Related to cellular transport", "Involved in energy production", "Associated with DNA replication"]))
  }

  predicate KeyedByDefinition(qs: seq<MultipleChoice>, concepts: seq<Concept>)
  {
    forall i :: 0 <= i < |qs| ==> (i < |concepts| && |qs[i].options| == 4 && qs[i].correctIndex < 4
      && qs[i].options[qs[i].correctIndex] == concepts[i].definition && qs[i].explanation == concepts[i].definition)
  }

  /** Every fallback multiple-choice question has four options and its key is the concept's definition. */
  lemma FallbackMCKeyed(concepts: seq<Concept>)
    ensures var f := FallbackMC(concepts);
      KeyedByDefinition(f.easy, concepts) && KeyedByDefinition(f.medium, concepts) && KeyedByDefinition(f.hard, concepts)
      && |f.easy| == Min(15, |concepts|) && |f.medium| == Min(12, |concepts|) && |f.hard| == Min(10, |concepts|)
  {
    TierKeyed(concepts, 15, "What is ", 0, ["A type of cell organelle", "A biological process", "An organism"]);
    TierKeyed(concepts, 12, "Which best describes ", 1, ["A cellular structure", "A scientific theory", "A research method"]);
    TierKeyed(concepts, 10, "What is the primary function of ", 2,
      ["Related to cellular transport", "Involved in energy production", "Associated with DNA replication"]);
  }

  /** A tier of questions built from the first `n` concepts, keyed at option `at` of four. */
  lemma TierKeyed(concepts: seq<Concept>, n: nat, stem: string, at: nat, distractors: seq<string>)
    requires n <= 20 && at <= |distractors| == 3
    ensures KeyedByDefinition(FallbackTier(concepts, n, stem, at, distractors), concepts)
    ensures |FallbackTier(concepts, n, stem, at, distractors)| == Min(n, |concepts|)
  {
    var qs := FallbackTier(concepts, n, stem, at, distractors);
    var part := Take(Take(concepts, 20), n);
    forall i | 0 <= i < |qs|
      ensures i < |concepts| && |qs[i].options| == 4 && qs[i].correctIndex < 4
        && qs[i].options[qs[i].correctIndex] == concepts[i].definition && qs[i].explanation == concepts[i].definition
    {
      assert part[i] == concepts[i];
      assert qs[i].options[at] == part[i].definition;
    }
  }

  /** One cell from the model: `Array.isArray(parsed) ? parsed.slice(0, cap) : []`; `Err` where the source throws. */
  function ModelCell(reply: Result<string>, context: string, cap: nat, parse: string -> Result<JsonValue>): (r: Result<seq<JsonValue>>)
    ensures r.Ok? ==> |r.value| <= cap
  {
    var parsed := if reply.Ok? then ResponseRepair.ParseAIResponse(reply.value, context, parse) else Err(reply.error);
    match parsed
    case Err(e) => Err(e)
    case Ok(v) => Ok(if v.JArr? then Take(v.items, cap) else [])
  }

  function FromModelItems<Q>(items: seq<JsonValue>): seq<Item<Q>>
  {
    seq(|items|, k requires 0 <= k < |items| => FromModel(items[k]))
  }

  function GeneratedItems<Q>(qs: seq<Q>): seq<Item<Q>>
  {
    seq(|qs|, k requires 0 <= k < |qs| => Generated(qs[k]))
  }

  /** A cell with fewer than five model questions is topped up from the fallback and cut to `cap`. */
  function TopUp<Q>(model: seq<Item<Q>>, fallback: seq<Item<Q>>, cap: nat): (r: seq<Item<Q>>)
  {
    if |model| < 5 then Take(model + fallback, cap) else model
  }

  /**
   * The top-up keeps the model's questions first, never exceeds the cap, and
   * yields at least as many questions as the fallback would have, up to the
   * cap, whenever it steps in. A model cell of five or more is used as it is.
   */
  lemma TopUpShape<Q>(model: seq<Item<Q>>, fallback: seq<Item<Q>>, cap: nat)
    requires |model| <= cap
    ensures |TopUp(model, fallback, cap)| <= cap
    ensures |model| >= 5 ==> TopUp(model, fallback, cap) == model
    ensures |model| < 5 ==> (|TopUp(model, fallback, cap)| == Min(cap, |model| + |fallback|)
      && |TopUp(model, fallback, cap)| >= Min(cap, |fallback|))
    ensures |model| < 5 ==> model == TopUp(model, fallback, cap)[..|model|]
  {
    if |model| < 5 {
      var all := model + fallback;
      assert all[..|model|] == model;
    }
  }

  /** The replies for the six model-written cells. */
  datatype Replies = Replies(tf: Tiers<Result<string>>, mc: Tiers<Result<string>>)

  const Caps: Tiers<nat> := Tiers(15, 12, 10)

  /**
   * The three cells of one question type: the model's questions topped up from the
   * fallback when all three completions parsed, the fallback alone otherwise.
   */
  function Cells<Q>(e: Result<seq<JsonValue>>, m: Result<seq<JsonValue>>, h: Result<seq<JsonValue>>, fb: Tiers<seq<Q>>): Tiers<seq<Item<Q>>>
  {
    if e.Ok? && m.Ok? && h.Ok? then
      Tiers(TopUp(FromModelItems(e.value), GeneratedItems(fb.easy), 15),
            TopUp(FromModelItems(m.value), GeneratedItems(fb.medium), 12),
            TopUp(FromModelItems(h.value), GeneratedItems(fb.hard), 10))
    else Tiers(GeneratedItems(fb.easy), GeneratedItems(fb.medium), GeneratedItems(fb.hard))
  }

  function TrueFalseCells(replies: Tiers<Result<string>>, concepts: seq<Concept>, parse: string -> Result<JsonValue>): Tiers<seq<Item<TrueFalse>>>
  {
    Cells(ModelCell(replies.easy, "tf-easy", 15, parse), ModelCell(replies.medium, "tf-medium", 12, parse),
      ModelCell(replies.hard, "tf-hard", 10, parse), FallbackTF(concepts))
  }

  function MultipleChoiceCells(replies: Tiers<Result<string>>, concepts: seq<Concept>, parse: string -> Result<JsonValue>): Tiers<seq<Item<MultipleChoice>>>
  {
    Cells(ModelCell(replies.easy, "mc-easy", 15, parse), ModelCell(replies.medium, "mc-medium", 12, parse),
      ModelCell(replies.hard, "mc-hard", 10, parse), FallbackMC(concepts))
  }

  /** `def.split(' ').slice(0, n).join(' ')`: the first `n` space-separated words. */
  function FirstWords(s: string, n: nat): string
  {
    Join(Take(SplitChar(s, ' '), n), " ")
  }

  /** Keeping the first `n` words keeps exactly `min(n, words)` of them, unchanged. */
  lemma FirstWordsCount(s: string, n: nat)
    requires n >= 1
    ensures SplitChar(FirstWords(s, n), ' ') == Take(SplitChar(s, ' '), n)
    ensures |SplitChar(FirstWords(s, n), ' ')| == Min(n, |SplitChar(s, ' ')|)
  {
    var parts := Take(SplitChar(s, ' '), n);
    SplitPiecesFree(s, ' ');
    SplitJoin(parts, ' ');
  }

  function IdentificationCells(concepts: seq<Concept>): Tiers<seq<Identification>>
  {
    var easy := Take(concepts, 15);
    var medium := Take(concepts, 12);
    var hard := Take(concepts, 10);
    Tiers(
      seq(|easy|, i requires 0 <= i < |easy| =>
        Identification(easy[i].definition, easy[i].term, "Starts with \"" + FirstChar(easy[i].term) + "\"")),
      seq(|medium|, i requires 0 <= i < |medium| =>
        Identification(Prefix(medium[i].definition, 80) + "...", medium[i].term, NatToString(|medium[i].term|) + " letters")),
      seq(|hard|, i requires 0 <= i < |hard| =>
        Identification(FirstWords(hard[i].definition, 10) + "...", hard[i].term, "No hint")))
  }

  /**
   * Identification questions ask for the term of the concept at the same
   * position: the easy question is the whole definition, the medium one its
   * first 80 characters, the hard one its first ten words.
   */
  lemma IdentificationAnswersAreTerms(concepts: seq<Concept>)
    ensures var c := IdentificationCells(concepts);
      |c.easy| == Min(15, |concepts|) && |c.medium| == Min(12, |concepts|) && |c.hard| == Min(10, |concepts|)
      && (forall i :: 0 <= i < |c.easy| ==> c.easy[i].answer == concepts[i].term && c.easy[i].question == concepts[i].definition)
      && (forall i :: 0 <= i < |c.medium| ==> (c.medium[i].answer == concepts[i].term
            && StartsWith(c.medium[i].question, Prefix(concepts[i].definition, 80))))
      && (forall i :: 0 <= i < |c.hard| ==> (c.hard[i].answer == concepts[i].term
            && |SplitChar(FirstWords(concepts[i].definition, 10), ' ')| <= 10))
  {
    var c := IdentificationCells(concepts);
    forall i | 0 <= i < |c.hard| ensures |SplitChar(FirstWords(concepts[i].definition, 10), ' ')| <= 10 {
      FirstWordsCount(concepts[i].definition, 10);
    }
    forall i | 0 <= i < |c.medium| ensures StartsWith(c.medium[i].question, Prefix(concepts[i].definition, 80)) {
      var p := Prefix(concepts[i].definition, 80);
      assert c.medium[i].question[..|p|] == p;
    }
  }

  function MatchingCells(concepts: seq<Concept>): Tiers<MatchSet>
  {
    var easy := Take(concepts, 10);
    var medium := Take(concepts, 8);
    var hard := Take(concepts, 6);
    Tiers(
      MatchSet(seq(|easy|, i requires 0 <= i < |easy| => Pair(easy[i].term, easy[i].definition)),
               "Match each term with its definition."),
      MatchSet(seq(|medium|, i requires 0 <= i < |medium| => Pair(medium[i].term, Prefix(medium[i].definition, 80))),
               "Match terms with partial definitions."),
      MatchSet(seq(|hard|, i requires 0 <= i < |hard| => Pair(hard[i].term, FirstWords(hard[i].definition, 8))),
               "Match terms with brief descriptions."))
  }

  /** Matching sets pair each of the first 10, 8 and 6 terms with its own (shortened) definition. */
  lemma MatchingPairsTerms(concepts: seq<Concept>)
    ensures var m := MatchingCells(concepts);
      |m.easy.pairs| == Min(10, |concepts|) && |m.medium.pairs| == Min(8, |concepts|) && |m.hard.pairs| == Min(6, |concepts|)
      && (forall i :: 0 <= i < |m.easy.pairs| ==> m.easy.pairs[i] == Pair(concepts[i].term, concepts[i].definition))
      && (forall i :: 0 <= i < |m.medium.pairs| ==> (m.medium.pairs[i].left == concepts[i].term
            && |m.medium.pairs[i].right| <= 80 && StartsWith(concepts[i].definition, m.medium.pairs[i].right)))
      && (forall i :: 0 <= i < |m.hard.pairs| ==> (m.hard.pairs[i].left == concepts[i].term
            && |SplitChar(m.hard.pairs[i].right, ' ')| <= 8))
  {
    var m := MatchingCells(concepts);
    forall i | 0 <= i < |m.hard.pairs| ensures |SplitChar(m.hard.pairs[i].right, ' ')| <= 8 {
      FirstWordsCount(concepts[i].definition, 8);
    }
  }

  datatype QuestionBank = QuestionBank(
    trueFalse: Tiers<seq<Item<TrueFalse>>>,
    multipleChoice: Tiers<seq<Item<MultipleChoice>>>,
    identification: Tiers<seq<Identification>>,
    matching: Tiers<MatchSet>)

  /** `generateQuizQuestions(text, concepts)` given the six completions. */
  function GenerateQuizQuestions(replies: Replies, concepts: seq<Concept>, parse: string -> Result<JsonValue>): QuestionBank
  {
    QuestionBank(
      TrueFalseCells(replies.tf, concepts, parse),
      MultipleChoiceCells(replies.mc, concepts, parse),
      IdentificationCells(concepts),
      MatchingCells(concepts))
  }

  /** Cells stay within 15, 12 and 10; a failed completion gives the fallback in all three. */
  lemma CellsShape<Q>(e: Result<seq<JsonValue>>, m: Result<seq<JsonValue>>, h: Result<seq<JsonValue>>, fb: Tiers<seq<Q>>)
    requires e.Ok? ==> |e.value| <= 15
    requires m.Ok? ==> |m.value| <= 12
    requires h.Ok? ==> |h.value| <= 10
    requires |fb.easy| <= 15 && |fb.medium| <= 12 && |fb.hard| <= 10
    ensures var c := Cells(e, m, h, fb);
      |c.easy| <= 15 && |c.medium| <= 12 && |c.hard| <= 10
    ensures (e.Err? || m.Err? || h.Err?) ==>
      Cells(e, m, h, fb) == Tiers(GeneratedItems(fb.easy), GeneratedItems(fb.medium), GeneratedItems(fb.hard))
  {
    if e.Ok? && m.Ok? && h.Ok? {
      TopUpShape(FromModelItems(e.value), GeneratedItems(fb.easy), 15);
      TopUpShape(FromModelItems(m.value), GeneratedItems(fb.medium), 12);
      TopUpShape(FromModelItems(h.value), GeneratedItems(fb.hard), 10);
    }
  }

  /** A cell fails exactly when its completion failed or its reply did not parse. */
  lemma ModelCellFails(reply: Result<string>, context: string, cap: nat, parse: string -> Result<JsonValue>)
    ensures reply.Err? ==> ModelCell(reply, context, cap, parse).Err?
    ensures ModelCell(reply, context, cap, parse).Err? <==>
      reply.Err? || ResponseRepair.ParseAIResponse(reply.value, context, parse).Err?
  {
  }

  /**
   * When any true/false completion fails, all three true/false cells come from
   * the fallback; otherwise each cell starts with the model's questions and
   * holds at most 15, 12 and 10.
   */
  lemma TrueFalseCellsShape(replies: Tiers<Result<string>>, concepts: seq<Concept>, parse: string -> Result<JsonValue>)
    ensures var c := TrueFalseCells(replies, concepts, parse);
      |c.easy| <= 15 && |c.medium| <= 12 && |c.hard| <= 10
    ensures (replies.easy.Err? || replies.medium.Err? || replies.hard.Err?) ==>
      TrueFalseCells(replies, concepts, parse) ==
        Tiers(GeneratedItems(FallbackTF(concepts).easy), GeneratedItems(FallbackTF(concepts).medium),
              GeneratedItems(FallbackTF(concepts).hard))
  {
    var e := ModelCell(replies.easy, "tf-easy", 15, parse);
    var m := ModelCell(replies.medium, "tf-medium", 12, parse);
    var h := ModelCell(replies.hard, "tf-hard", 10, parse);
    ModelCellFails(replies.easy, "tf-easy", 15, parse);
    ModelCellFails(replies.medium, "tf-medium", 12, parse);
    ModelCellFails(replies.hard, "tf-hard", 10, parse);
    FallbackTFShape(concepts);
    CellsShape(e, m, h, FallbackTF(concepts));
  }

  /** The same caps and the same all-or-nothing fallback for the multiple-choice cells. */
  lemma MultipleChoiceCellsShape(replies: Tiers<Result<string>>, concepts: seq<Concept>, parse: string -> Result<JsonValue>)
    ensures var c := MultipleChoiceCells(replies, concepts, parse);
      |c.easy| <= 15 && |c.medium| <= 12 && |c.hard| <= 10
    ensures (replies.easy.Err? || replies.medium.Err? || replies.hard.Err?) ==>
      MultipleChoiceCells(replies, concepts, parse) ==
        Tiers(GeneratedItems(FallbackMC(concepts).easy), GeneratedItems(FallbackMC(concepts).medium),
              GeneratedItems(FallbackMC(concepts).hard))
  {
    var e := ModelCell(replies.easy, "mc-easy", 15, parse);
    var m := ModelCell(replies.medium, "mc-medium", 12, parse);
    var h := ModelCell(replies.hard, "mc-hard", 10, parse);
    ModelCellFails(replies.easy, "mc-easy", 15, parse);
    ModelCellFails(replies.medium, "mc-medium", 12, parse);
    ModelCellFails(replies.hard, "mc-hard", 10, parse);
    FallbackMCKeyed(concepts);
    CellsShape(e, m, h, FallbackMC(concepts));
  }

}
