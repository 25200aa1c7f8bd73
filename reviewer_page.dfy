/**
 * The reviewer page: where the page remembers it was entered from, the
 * bounded retry when the reviewer data is read from session storage, the
 * checks before a background quiz request, the annotation store
 * (highlights, notes, bookmarks) with its filtered list, and the rendering
 * of a section's content lines into lists and paragraphs with inline
 * emphasis. The DOM nodes the page creates are modelled as the blocks they
 * stand for; storage reads, the clock and the annotation ids are inputs.
 */
module ReviewerPage {
  import opened TextUtil
  import opened Json
  import Shuffle

  // ---------------------------------------------------------------------
  // Entry point
  // ---------------------------------------------------------------------

  const DashboardEntry: string := "../Dashboard/index.html"
  const UploadEntry: string := "../UploadPage/index.html"

  /**
   * The value of `reviewerOriginalEntryPoint` after the page loads, given
   * the stored value (`None` when absent) and `document.referrer`.
   */
  function EntryPoint(stored: Option<string>, referrer: string): (r: string)
    // A value already stored (non-empty) is kept.
    ensures stored.Some? && stored.value != [] ==> r == stored.value
    // Otherwise the page came from the upload page only if the referrer names it and not the dashboard.
    ensures (stored.None? || stored.value == []) ==>
      (r == UploadEntry || r == DashboardEntry)
      && (r == UploadEntry <==> !Contains(referrer, "Dashboard") && Contains(referrer, "UploadPage"))
  {
    if stored.Some? && stored.value != [] then stored.value
    else if Contains(referrer, "Dashboard") then DashboardEntry
    else if Contains(referrer, "UploadPage") then UploadEntry
    else DashboardEntry
  }

  /** Once set, the entry point stays put on every later visit, whatever the referrer. */
  lemma EntryPointSticky(stored: Option<string>, first: string, later: string)
    ensures EntryPoint(Some(EntryPoint(stored, first)), later) == EntryPoint(stored, first)
  {
    assert DashboardEntry != [] && UploadEntry != [];
  }

  // ---------------------------------------------------------------------
  // Reading the reviewer data with retries
  // ---------------------------------------------------------------------

  const MaxRetries: nat := 5

  /** A storage read that found data: present and non-empty. */
  predicate Found(v: Option<string>)
  {
    v.Some? && v.value != []
  }

  /**
   * The retry loop around `sessionStorage.getItem('reviewerData')`.
   * `storage(k)` is what the `k`-th read (from 0) returns; the 200 ms
   * pauses between reads are what makes later reads differ.
   */
  method ReadReviewerData(storage: nat -> Option<string>) returns (data: Option<string>, attempts: nat)
    ensures 1 <= attempts <= MaxRetries
    ensures data == storage(attempts - 1)
    ensures forall k :: 0 <= k < attempts - 1 ==> !Found(storage(k))
    ensures !Found(data) ==> attempts == MaxRetries
  {
    var retries: nat := 0;
    data := None;
    attempts := 0;
    while !Found(data) && retries < MaxRetries
      invariant retries <= MaxRetries && attempts == retries
      invariant forall k :: 0 <= k < retries ==> !Found(storage(k))
      invariant retries > 0 ==> data == storage(retries - 1)
      invariant !Found(data)
      decreases MaxRetries - retries
    {
      data := storage(retries);
      attempts := attempts + 1;
      if Found(data) {
        break;
      }
      retries := retries + 1;
    }
  }

  // ---------------------------------------------------------------------
  // Background quiz generation guards
  // ---------------------------------------------------------------------

  /**
   * `v.length < n` as JavaScript evaluates it: strings and arrays have a
   * length; on any other value the length is `undefined` and the comparison
   * is false.
   */
  predicate ShorterThan(v: JsonValue, n: nat)
  {
    (v.JStr? && |v.s| < n) || (v.JArr? && |v.items| < n)
  }

  /**
   * The body `startBackgroundQuizGeneration` posts, or `None` when it gives
   * up with an error notification.
   */
  function QuizRequest(text: JsonValue, concepts: JsonValue, reviewerId: JsonValue): (r: Option<JsonValue>)
    ensures !Truthy(text) || !Truthy(concepts) ==> r.None?
    ensures text.JStr? && |text.s| < 100 ==> r.None?
    ensures concepts.JArr? && concepts.items == [] ==> r.None?
    ensures text.JStr? && |text.s| >= 100 && concepts.JArr? && concepts.items != [] ==> r.Some?
    ensures r.Some? ==> (r.value.JObj?
      && r.value.fields.Keys <= {"text", "concepts", "reviewerId"}
      && "text" in r.value.fields && r.value.fields["text"] == text
      && "concepts" in r.value.fields && r.value.fields["concepts"] == concepts
      && ("reviewerId" in r.value.fields <==> Truthy(reviewerId) && !NumberIsNaN(reviewerId))
      && ("reviewerId" in r.value.fields ==> r.value.fields["reviewerId"] == reviewerId))
  {
    if !Truthy(text) || ShorterThan(text, 100) then None
    else if !Truthy(concepts) || ShorterThan(concepts, 1) then None
    else
      var body := map["text" := text, "concepts" := concepts];
      Some(JObj(if Truthy(reviewerId) && !NumberIsNaN(reviewerId) then body["reviewerId" := reviewerId] else body))
  }

  /** A numeric id, or its decimal form, is sent along with the request. */
  lemma QuizRequestNumericIds(text: string, concepts: seq<JsonValue>, id: nat)
    requires |text| >= 100 && concepts != []
    ensures id > 0 ==> "reviewerId" in QuizRequest(JStr(text), JArr(concepts), JNum(id as real)).value.fields
    ensures "reviewerId" in QuizRequest(JStr(text), JArr(concepts), JStr(NatToString(id))).value.fields
  {
    DecimalFormsAreNumbers(id);
    assert Truthy(JStr(NatToString(id)));
  }

  /** An id that reads as a word is dropped. */
  lemma QuizRequestWordId(text: string, concepts: seq<JsonValue>)
    requires |text| >= 100 && concepts != []
    ensures "reviewerId" !in QuizRequest(JStr(text), JArr(concepts), JStr("abc")).value.fields
  {
    NaNExamples(map[], JNull, JNull);
  }

  // ---------------------------------------------------------------------
  // Annotations
  // ---------------------------------------------------------------------

  /** A highlight: `id` and `timestamp` come from the clock, in milliseconds. */
  datatype Highlight = Highlight(id: int, text: string, color: string, timestamp: int)

  datatype Note = Note(id: int, content: string, timestamp: int)

  datatype Bookmark = Bookmark(id: int, sectionId: string, sectionTitle: string, timestamp: int)

  /** An entry of the annotations panel, tagged with its kind. */
  datatype Annotation = HighlightItem(h: Highlight) | NoteItem(n: Note) | BookmarkItem(b: Bookmark)

  /** No two bookmarks mark the same section. */
  predicate UniqueSections(bs: seq<Bookmark>)
  {
    forall i, j :: 0 <= i < j < |bs| ==> bs[i].sectionId != bs[j].sectionId
  }

  /** `bookmarks.find(b => b.sectionId === sectionId)` found one. */
  predicate Bookmarked(bs: seq<Bookmark>, sectionId: string)
  {
    exists i :: 0 <= i < |bs| && bs[i].sectionId == sectionId
  }

  /** The title a bookmark records: the section heading's text, or a placeholder when it is missing or empty. */
  function SectionTitle(heading: Option<string>): (r: string)
    ensures heading.Some? && heading.value != [] ==> r == heading.value
    ensures r != []
  {
    if heading.Some? && heading.value != [] then heading.value else "Untitled Section"
  }

  /** The text `renderAnnotationsList` searches in, by kind. */
  function SearchText(a: Annotation): string
  {
    match a
    case HighlightItem(h) => h.text
    case NoteItem(n) => n.content
    case BookmarkItem(b) => b.sectionTitle
  }

  function Timestamp(a: Annotation): int
  {
    match a
    case HighlightItem(h) => h.timestamp
    case NoteItem(n) => n.timestamp
    case BookmarkItem(b) => b.timestamp
  }

  function TimeKey(a: Annotation): real
  {
    Timestamp(a) as real
  }

  function HighlightItems(hs: seq<Highlight>): (r: seq<Annotation>)
    ensures |r| == |hs| && forall k :: 0 <= k < |r| ==> r[k] == HighlightItem(hs[k])
  {
    seq(|hs|, k requires 0 <= k < |hs| => HighlightItem(hs[k]))
  }

  function NoteItems(ns: seq<Note>): (r: seq<Annotation>)
    ensures |r| == |ns| && forall k :: 0 <= k < |r| ==> r[k] == NoteItem(ns[k])
  {
    seq(|ns|, k requires 0 <= k < |ns| => NoteItem(ns[k]))
  }

  function BookmarkItems(bs: seq<Bookmark>): (r: seq<Annotation>)
    ensures |r| == |bs| && forall k :: 0 <= k < |r| ==> r[k] == BookmarkItem(bs[k])
  {
    seq(|bs|, k requires 0 <= k < |bs| => BookmarkItem(bs[k]))
  }

  /** Whether the panel filter shows annotations of the given kind. */
  predicate Shows(filter: string, kind: string)
  {
    filter == "all" || filter == kind
  }

  /** Whether an annotation matches a non-empty search term, ignoring case. */
  predicate MatchesTerm(term: string, a: Annotation)
  {
    Contains(Lower(SearchText(a)), Lower(term))
  }

  /** The kinds the filter selects, highlights first, then notes, then bookmarks. */
  function Selected(filter: string, hs: seq<Highlight>, ns: seq<Note>, bs: seq<Bookmark>): seq<Annotation>
  {
    (if Shows(filter, "highlights") then HighlightItems(hs) else [])
    + (if Shows(filter, "notes") then NoteItems(ns) else [])
    + (if Shows(filter, "bookmarks") then BookmarkItems(bs) else [])
  }

  /** The entries `renderAnnotationsList(filter, term)` shows, in display order. */
  function AnnotationsList(filter: string, term: string, hs: seq<Highlight>, ns: seq<Note>, bs: seq<Bookmark>): seq<Annotation>
  {
    var selected := Selected(filter, hs, ns, bs);
    var found := if term == [] then selected else Filter(selected, a => MatchesTerm(term, a));
    Shuffle.SortDesc(found, TimeKey)
  }

  /** Whether `a` is one of the stored annotations of a kind the filter shows. */
  predicate InStore(filter: string, a: Annotation, hs: seq<Highlight>, ns: seq<Note>, bs: seq<Bookmark>)
  {
    match a
    case HighlightItem(h) => Shows(filter, "highlights") && h in hs
    case NoteItem(n) => Shows(filter, "notes") && n in ns
    case BookmarkItem(b) => Shows(filter, "bookmarks") && b in bs
  }

  lemma SelectedMembers(filter: string, hs: seq<Highlight>, ns: seq<Note>, bs: seq<Bookmark>, a: Annotation)
    ensures a in Selected(filter, hs, ns, bs) <==> InStore(filter, a, hs, ns, bs)
  {
    var h := HighlightItems(hs);
    var n := NoteItems(ns);
    var b := BookmarkItems(bs);
    if a in h {
      var k :| 0 <= k < |h| && h[k] == a;
    }
    if a in n {
      var k :| 0 <= k < |n| && n[k] == a;
    }
    if a in b {
      var k :| 0 <= k < |b| && b[k] == a;
    }
    match a
    case HighlightItem(x) =>
      if x in hs {
        var k :| 0 <= k < |hs| && hs[k] == x;
        assert h[k] == a;
      }
    case NoteItem(x) =>
      if x in ns {
        var k :| 0 <= k < |ns| && ns[k] == x;
        assert n[k] == a;
      }
    case BookmarkItem(x) =>
      if x in bs {
        var k :| 0 <= k < |bs| && bs[k] == x;
        assert b[k] == a;
      }
  }

  /**
   * The panel lists exactly the stored annotations of the selected kinds
   * that match the search term (every one when the term is empty), each as
   * often as it is stored, newest first.
   */
  lemma AnnotationsListSpec(filter: string, term: string, hs: seq<Highlight>, ns: seq<Note>, bs: seq<Bookmark>, a: Annotation)
    ensures a in AnnotationsList(filter, term, hs, ns, bs) <==>
      InStore(filter, a, hs, ns, bs) && (term == [] || MatchesTerm(term, a))
    ensures Shuffle.SortedDesc(AnnotationsList(filter, term, hs, ns, bs), TimeKey)
    ensures term == [] ==> multiset(AnnotationsList(filter, term, hs, ns, bs)) == multiset(Selected(filter, hs, ns, bs))
    ensures term != [] ==>
      multiset(AnnotationsList(filter, term, hs, ns, bs))
        == multiset(Filter(Selected(filter, hs, ns, bs), (b: Annotation) => MatchesTerm(term, b)))
  {
    var selected := Selected(filter, hs, ns, bs);
    var found := if term == [] then selected else Filter(selected, a => MatchesTerm(term, a));
    Shuffle.SortDescSorted(found, TimeKey);
    SelectedMembers(filter, hs, ns, bs, a);
    var r := AnnotationsList(filter, term, hs, ns, bs);
    assert a in r <==> a in multiset(r);
    assert a in found <==> a in multiset(found);
  }

  /** The annotations of one reviewer page, as `let annotations = {...}` holds them. */
  class Annotations {
    var highlights: seq<Highlight>
    var notes: seq<Note>
    var bookmarks: seq<Bookmark>

    /** Every section carries at most one bookmark. */
    predicate Valid()
      reads this
    {
      UniqueSections(bookmarks)
    }

    constructor()
      ensures highlights == [] && notes == [] && bookmarks == []
      ensures Valid()
    {
      highlights := [];
      notes := [];
      bookmarks := [];
    }

    /** The panel's entries for `renderAnnotationsList(filter, term)`. */
    function List(filter: string, term: string): seq<Annotation>
      reads this
    {
      AnnotationsList(filter, term, highlights, notes, bookmarks)
    }

    /** `handleTextSelection` records the highlight it created. */
    method AddHighlight(h: Highlight)
      modifies this
      requires Valid()
      ensures Valid()
      ensures highlights == old(highlights) + [h]
      ensures notes == old(notes) && bookmarks == old(bookmarks)
    {
      highlights := highlights + [h];
    }

    /**
     * `handleNotePlacement`: only while the note tool is active, and only for
     * a click outside the toolbar, the navigation bar, the sidebars and the
     * notes themselves (`onChrome`), a new empty note is added.
     */
    method AddNote(activeTool: string, onChrome: bool, id: int, now: int) returns (added: bool)
      modifies this
      requires Valid()
      ensures Valid()
      ensures added <==> activeTool == "note" && !onChrome
      ensures notes == if added then old(notes) + [Note(id, "", now)] else old(notes)
      ensures highlights == old(highlights) && bookmarks == old(bookmarks)
    {
      added := activeTool == "note" && !onChrome;
      if added {
        notes := notes + [Note(id, "", now)];
      }
    }

    /**
     * `handleBookmarkPlacement`: only while the bookmark tool is active, and
     * only for a section no bookmark marks yet (otherwise an alert).
     */
    method PlaceBookmark(activeTool: string, id: int, sectionId: string, heading: Option<string>, now: int)
      returns (added: bool)
      modifies this
      requires Valid()
      ensures Valid()
      ensures added <==> activeTool == "bookmark" && !Bookmarked(old(bookmarks), sectionId)
      ensures bookmarks == if added then old(bookmarks) + [Bookmark(id, sectionId, SectionTitle(heading), now)]
                           else old(bookmarks)
      ensures highlights == old(highlights) && notes == old(notes)
    {
      added := false;
      if activeTool != "bookmark" {
        return;
      }
      var k := 0;
      while k < |bookmarks|
        invariant 0 <= k <= |bookmarks|
        invariant forall j :: 0 <= j < k ==> bookmarks[j].sectionId != sectionId
      {
        if bookmarks[k].sectionId == sectionId {
          return;
        }
        k := k + 1;
      }
      bookmarks := bookmarks + [Bookmark(id, sectionId, SectionTitle(heading), now)];
      added := true;
    }

    /** `removeHighlight`: every highlight with the id goes, the rest stay in order. */
    method RemoveHighlight(id: int)
      modifies this
      requires Valid()
      ensures Valid()
      ensures highlights == Filter(old(highlights), (h: Highlight) => h.id != id)
      ensures forall h :: h in highlights <==> h in old(highlights) && h.id != id
      ensures notes == old(notes) && bookmarks == old(bookmarks)
    {
      highlights := Filter(highlights, (h: Highlight) => h.id != id);
    }

    /** `removeNote`: every note with the id goes, the rest stay in order. */
    method RemoveNote(id: int)
      modifies this
      requires Valid()
      ensures Valid()
      ensures notes == Filter(old(notes), (n: Note) => n.id != id)
      ensures forall n :: n in notes <==> n in old(notes) && n.id != id
      ensures highlights == old(highlights) && bookmarks == old(bookmarks)
    {
      notes := Filter(notes, (n: Note) => n.id != id);
    }

    /** `removeBookmark`: every bookmark with the id goes, the rest stay in order, sections stay unique. */
    method RemoveBookmark(id: int)
      modifies this
      requires Valid()
      ensures Valid()
      ensures bookmarks == Filter(old(bookmarks), (b: Bookmark) => b.id != id)
      ensures forall b :: b in bookmarks <==> b in old(bookmarks) && b.id != id
      ensures highlights == old(highlights) && notes == old(notes)
    {
      FilterKeepsUniqueSections(bookmarks, id);
      bookmarks := Filter(bookmarks, (b: Bookmark) => b.id != id);
    }

    /** `removeAllHighlights`, after the user confirms. */
    method RemoveAllHighlights(confirmed: bool)
      modifies this
      requires Valid()
      ensures Valid()
      ensures highlights == if confirmed then [] else old(highlights)
      ensures notes == old(notes) && bookmarks == old(bookmarks)
    {
      if !confirmed {
        return;
      }
      highlights := [];
    }
  }

  /** Removing by id twice removes nothing more, and removing an id nobody has changes nothing. */
  lemma {:induction false} FilterById<T>(s: seq<T>, p: T -> bool)
    ensures Filter(Filter(s, p), p) == Filter(s, p)
    ensures (forall k :: 0 <= k < |s| ==> p(s[k])) ==> Filter(s, p) == s
    decreases |s|
  {
    if s != [] {
      FilterById(s[1..], p);
      if p(s[0]) {
        assert Filter(s, p) == [s[0]] + Filter(s[1..], p);
        FilterAppend([s[0]], Filter(s[1..], p), p);
        assert Filter([s[0]], p) == [s[0]] by {
          assert [s[0]][1..] == [];
        }
      } else {
        assert Filter(s, p) == Filter(s[1..], p);
      }
      if forall k :: 0 <= k < |s| ==> p(s[k]) {
        assert forall k :: 0 <= k < |s[1..]| ==> p(s[1..][k]) by {
          forall k | 0 <= k < |s[1..]| ensures p(s[1..][k]) {
            assert s[1..][k] == s[k + 1];
          }
        }
        assert s == [s[0]] + s[1..];
      }
    }
  }

  /** Removing bookmarks keeps sections unique. */
  lemma {:induction false} FilterKeepsUniqueSections(bs: seq<Bookmark>, id: int)
    requires UniqueSections(bs)
    ensures UniqueSections(Filter(bs, (b: Bookmark) => b.id != id))
    decreases |bs|
  {
    if bs != [] {
      var rest := bs[1..];
      UniqueTail(bs);
      FilterKeepsUniqueSections(rest, id);
      if bs[0].id != id {
        HeadUniqueAmongRest(bs);
        UniqueCons(bs[0], Filter(rest, (b: Bookmark) => b.id != id));
        assert Filter(bs, (b: Bookmark) => b.id != id) == [bs[0]] + Filter(rest, (b: Bookmark) => b.id != id);
      } else {
        assert Filter(bs, (b: Bookmark) => b.id != id) == Filter(rest, (b: Bookmark) => b.id != id);
      }
    }
  }

  lemma UniqueTail(bs: seq<Bookmark>)
    requires bs != [] && UniqueSections(bs)
    ensures UniqueSections(bs[1..])
  {
    var rest := bs[1..];
    forall i, j | 0 <= i < j < |rest| ensures rest[i].sectionId != rest[j].sectionId {
      assert rest[i] == bs[i + 1] && rest[j] == bs[j + 1];
    }
  }

  lemma HeadUniqueAmongRest(bs: seq<Bookmark>)
    requires bs != [] && UniqueSections(bs)
    ensures forall x :: x in bs[1..] ==> x.sectionId != bs[0].sectionId
  {
    forall x | x in bs[1..] ensures x.sectionId != bs[0].sectionId {
      var m :| 0 <= m < |bs[1..]| && bs[1..][m] == x;
      assert bs[m + 1] == x;
    }
  }

  lemma UniqueCons(b: Bookmark, f: seq<Bookmark>)
    requires UniqueSections(f)
    requires forall k :: 0 <= k < |f| ==> f[k].sectionId != b.sectionId
    ensures UniqueSections([b] + f)
  {
    var r := [b] + f;
    forall i, j | 0 <= i < j < |r| ensures r[i].sectionId != r[j].sectionId {
      assert r[j] == f[j - 1];
      if i > 0 {
        assert r[i] == f[i - 1];
      }
    }
  }

  // ---------------------------------------------------------------------
  // Inline markdown
  // ---------------------------------------------------------------------

  /** No character of `s` from `a` up to `b` is a line terminator, which `.` would refuse. */
  predicate OnOneLine(s: string, a: nat, b: nat)
    requires a <= b <= |s|
  {
    forall p :: a <= p < b ==> !IsLineTerminator(s[p])
  }

  /**
   * The match of `d(.+?)d` starting at `k`, replaced by `<tag>$1</tag>`:
   * the closing delimiter is the first one at least one character after the
   * opening, and the text between stays on one line.
   */
  function DelimitedAt(s: string, k: nat, d: string, tag: string): (h: Option<Hit>)
    requires |d| > 0
    ensures h.Some? ==> OccursAt(s, d, k) && k + 2 * |d| < h.value.end <= |s|
  {
    if !OccursAt(s, d, k) then None
    else
      var j := IndexOfFrom(s, d, k + |d| + 1);
      if j < 0 || !OnOneLine(s, k + |d|, j) then None
      else Some(Hit(j + |d|, "<" + tag + ">" + s[k + |d|..j] + "</" + tag + ">"))
  }

  function StrongStars(s: string, k: nat): Option<Hit> { DelimitedAt(s, k, "**", "strong") }
  function StrongUnderscores(s: string, k: nat): Option<Hit> { DelimitedAt(s, k, "__", "strong") }
  function EmStar(s: string, k: nat): Option<Hit> { DelimitedAt(s, k, "*", "em") }

  /** `formatInlineText`: `**x**`, then `__x__`, become bold, then `*x*` becomes italic. */
  function FormatInlineText(text: string): string
  {
    ReplaceAll(ReplaceAll(ReplaceAll(text, StrongStars), StrongUnderscores), EmStar)
  }

  lemma NoDelimiterNoHit(s: string, d: string, tag: string)
    requires |d| > 0 && d[0] !in s
    ensures forall k :: 0 <= k < |s| ==> !ValidHit(s, k, DelimitedAt(s, k, d, tag))
  {
  }

  /** Text without `*` or `_` is shown as it is. */
  lemma PlainTextUnchanged(text: string)
    requires '*' !in text && '_' !in text
    ensures FormatInlineText(text) == text
  {
    NoDelimiterNoHit(text, "**", "strong");
    ReplaceWithoutHits(text, 0, StrongStars);
    NoDelimiterNoHit(text, "__", "strong");
    ReplaceWithoutHits(text, 0, StrongUnderscores);
    NoDelimiterNoHit(text, "*", "em");
    ReplaceWithoutHits(text, 0, EmStar);
  }

  lemma StarsAtStart()
    ensures StrongStars("**a**", 0) == Some(Hit(5, "<strong>a</strong>"))
  {
    var s := "**a**";
    assert OccursAt(s, "**", 0);
    assert IndexOfFrom(s, "**", 3) == 3;
    assert OnOneLine(s, 2, 3) && s[2..3] == "a";
    var h := DelimitedAt(s, 0, "**", "strong");
    assert h.Some? && h.value.end == 5;
    assert h.value.repl == "<" + "strong" + ">" + "a" + "</" + "strong" + ">";
    assert h.value.repl == "<strong>a</strong>";
    assert StrongStars(s, 0) == h;
  }

  lemma StarAtStart()
    ensures EmStar("**a**", 0) == Some(Hit(4, "<em>*a</em>"))
    ensures EmStar("**a**", 4) == None
  {
    var s := "**a**";
    assert s[0] == '*' && s[1] == '*' && s[2] == 'a' && s[3] == '*';
    assert s[2..3] == [s[2]] && s[3..4] == [s[3]] && s[1..3] == [s[1], s[2]];
    assert OccursAt(s, "*", 0);
    assert !OccursAt(s, "*", 2) && OccursAt(s, "*", 3);
    assert IndexOfFrom(s, "*", 2) == 3;
    assert OnOneLine(s, 1, 3) && s[1..3] == "*a";
    var h := DelimitedAt(s, 0, "*", "em");
    assert h.Some? && h.value.end == 4;
    assert h.value.repl == "<" + "em" + ">" + "*a" + "</" + "em" + ">";
    assert h.value.repl == "<em>*a</em>";
    assert EmStar(s, 0) == h;
    assert IndexOfFrom(s, "*", 6) == -1;
  }

  lemma StrongPassExample()
    ensures ReplaceAll("**a**", StrongStars) == "<strong>a</strong>"
  {
    var s := "**a**";
    StarsAtStart();
    assert ValidHit(s, 0, StrongStars(s, 0));
    assert ReplaceFrom(s, 5, StrongStars) == [];
    assert ReplaceFrom(s, 0, StrongStars) == "<strong>a</strong>" + [];
  }

  /** The passes after the first leave text without stars or underscores alone. */
  lemma LaterPassesKeep(b: string)
    requires '*' !in b && '_' !in b
    ensures ReplaceAll(ReplaceAll(b, StrongUnderscores), EmStar) == b
  {
    PlainTextUnchanged(b);
    NoDelimiterNoHit(b, "**", "strong");
    ReplaceWithoutHits(b, 0, StrongStars);
  }

  /** Double stars are read as bold before single stars are read as italics. */
  lemma BoldBeforeItalic()
    ensures FormatInlineText("**a**") == "<strong>a</strong>"
  {
    StrongPassExample();
    LaterPassesKeep("<strong>a</strong>");
  }

  /** Read the other way round, the single-star rule would split the double stars. */
  lemma ItalicFirstSplitsStars()
    ensures ReplaceAll("**a**", EmStar) == "<em>*a</em>*"
  {
    var s := "**a**";
    StarAtStart();
    assert ValidHit(s, 0, EmStar(s, 0));
    assert ReplaceFrom(s, 5, EmStar) == [];
    assert ReplaceFrom(s, 4, EmStar) == [s[4]] + [];
    assert ReplaceFrom(s, 0, EmStar) == "<em>*a</em>" + "*";
  }

  // ---------------------------------------------------------------------
  // Rendering content lines
  // ---------------------------------------------------------------------

  datatype ListKind = Bulleted | Numbered

  /** What one non-blank line becomes: a list item of a kind, an arrow item or a paragraph. */
  datatype Entry = ListEntry(kind: ListKind, html: string) | ArrowEntry(html: string) | TextEntry(html: string)

  /** A node appended to the section: a `ul`/`ol` of items, an arrow `div` or a `p`. */
  datatype Block = ListBlock(kind: ListKind, items: seq<string>) | ArrowBlock(html: string) | TextBlock(html: string)

  /** `/^[•\-]\s/` on a trimmed line. */
  predicate BulletLine(t: string)
  {
    |t| >= 2 && (t[0] == '•' || t[0] == '-') && IsSpace(t[1])
  }

  /** `/^\d+[\.)]\s/` on a trimmed line. */
  predicate NumberedLine(t: string)
  {
    var d := DigitRun(t, 10);
    d >= 1 && d + 2 <= |t| && (t[d] == '.' || t[d] == ')') && IsSpace(t[d + 1])
  }

  /** `/^>\s/` on a trimmed line. */
  predicate ArrowLine(t: string)
  {
    |t| >= 2 && t[0] == '>' && IsSpace(t[1])
  }

  /** The block entry of a line whose trimmed form `t` is not empty; the marker and the space after it are dropped. */
  function EntryOf(t: string): Entry
  {
    if BulletLine(t) then ListEntry(Bulleted, FormatInlineText(TrimStart(t[1..])))
    else if NumberedLine(t) then ListEntry(Numbered, FormatInlineText(TrimStart(t[DigitRun(t, 10) + 1..])))
    else if ArrowLine(t) then ArrowEntry(FormatInlineText(TrimStart(t[1..])))
    else TextEntry(FormatInlineText(t))
  }

  /** The loop's state: the blocks appended so far and the list still open (`currentList`, `currentListType`). */
  datatype RenderState = RenderState(done: seq<Block>, open: Option<ListKind>, items: seq<string>)

  /** The blocks appended once the open list, if any, is appended too. */
  function Flush(st: RenderState): seq<Block>
  {
    st.done + (if st.open.Some? then [ListBlock(st.open.value, st.items)] else [])
  }

  /** One line of `renderFormattedContent`. */
  function Step(st: RenderState, line: string): RenderState
  {
    if line == [] then RenderState(Flush(st), None, [])
    else
      var t := Trim(line);
      if t == [] then st
      else Place(st, EntryOf(t))
  }

  /** The entry of a non-blank line joins the open list of its kind, or closes it and starts its own block. */
  function Place(st: RenderState, e: Entry): RenderState
  {
    match e
    case ListEntry(k, html) =>
      if st.open == Some(k) then RenderState(st.done, st.open, st.items + [html])
      else RenderState(Flush(st), Some(k), [html])
    case ArrowEntry(html) => RenderState(Flush(st) + [ArrowBlock(html)], None, [])
    case TextEntry(html) => RenderState(Flush(st) + [TextBlock(html)], None, [])
  }

  function StateAfter(lines: seq<string>, n: nat): RenderState
    requires n <= |lines|
  {
    if n == 0 then RenderState([], None, []) else Step(StateAfter(lines, n - 1), lines[n - 1])
  }

  lemma StateAfterNext(lines: seq<string>, i: nat)
    requires i < |lines|
    ensures StateAfter(lines, i + 1) == Step(StateAfter(lines, i), lines[i])
  {
  }

  /** The blocks `renderFormattedContent(lines, parent)` appends to `parent`. */
  function FormattedBlocks(lines: seq<string>): seq<Block>
  {
    Flush(StateAfter(lines, |lines|))
  }

  method RenderFormattedContent(lines: seq<string>) returns (blocks: seq<Block>)
    ensures blocks == FormattedBlocks(lines)
  {
    blocks := [];
    var currentType: Option<ListKind> := None;
    var currentItems: seq<string> := [];
    var i := 0;
    while i < |lines|
      invariant 0 <= i <= |lines|
      invariant RenderState(blocks, currentType, currentItems) == StateAfter(lines, i)
    {
      blocks, currentType, currentItems := RenderLine(blocks, currentType, currentItems, lines, i);
      i := i + 1;
    }
    blocks := CloseList(blocks, currentType, currentItems);
  }

  /** The body of the loop of `renderFormattedContent` for one line. */
  method RenderLine(blocks: seq<Block>, currentType: Option<ListKind>, currentItems: seq<string>, lines: seq<string>, i: nat)
    returns (blocks': seq<Block>, currentType': Option<ListKind>, currentItems': seq<string>)
    requires i < |lines| && RenderState(blocks, currentType, currentItems) == StateAfter(lines, i)
    ensures RenderState(blocks', currentType', currentItems') == StateAfter(lines, i + 1)
  {
    StateAfterNext(lines, i);
    var line := lines[i];
    blocks', currentType', currentItems' := blocks, currentType, currentItems;
    if line == [] {
      blocks' := CloseList(blocks, currentType, currentItems);
      currentType' := None;
      currentItems' := [];
    } else {
      var trimmed := Trim(line);
      if trimmed != [] {
        var entry := EntryOf(trimmed);
        if entry.ListEntry? {
          if currentType != Some(entry.kind) {
            blocks' := CloseList(blocks, currentType, currentItems);
            currentType' := Some(entry.kind);
            currentItems' := [];
          }
          currentItems' := currentItems' + [entry.html];
        } else {
          blocks' := CloseList(blocks, currentType, currentItems);
          currentType' := None;
          currentItems' := [];
          blocks' := blocks' + [if entry.ArrowEntry? then ArrowBlock(entry.html) else TextBlock(entry.html)];
        }
      }
    }
  }

  /** `if (currentList) { parent.appendChild(currentList); }`: the open list, if any, joins the blocks. */
  method CloseList(blocks: seq<Block>, currentType: Option<ListKind>, currentItems: seq<string>) returns (r: seq<Block>)
    ensures r == Flush(RenderState(blocks, currentType, currentItems))
  {
    r := blocks;
    if currentType.Some? {
      r := r + [ListBlock(currentType.value, currentItems)];
    }
  }

  /** The entries a block holds, in order. */
  function BlockEntries(b: Block): seq<Entry>
  {
    match b
    case ListBlock(k, items) => ItemEntries(k, items)
    case ArrowBlock(html) => [ArrowEntry(html)]
    case TextBlock(html) => [TextEntry(html)]
  }

  function ItemEntries(k: ListKind, items: seq<string>): (r: seq<Entry>)
    ensures |r| == |items|
  {
    if items == [] then [] else ItemEntries(k, items[..|items| - 1]) + [ListEntry(k, items[|items| - 1])]
  }

  function Entries(blocks: seq<Block>): seq<Entry>
  {
    if blocks == [] then [] else Entries(blocks[..|blocks| - 1]) + BlockEntries(blocks[|blocks| - 1])
  }

  /** The entries of the non-blank lines among the first `n`, in order. */
  function LineEntries(lines: seq<string>, n: nat): seq<Entry>
    requires n <= |lines|
  {
    if n == 0 then []
    else LineEntries(lines, n - 1) + (if Trim(lines[n - 1]) == [] then [] else [EntryOf(Trim(lines[n - 1]))])
  }

  lemma {:induction false} EntriesAppend(a: seq<Block>, b: Block)
    ensures Entries(a + [b]) == Entries(a) + BlockEntries(b)
  {
    assert (a + [b])[..|a + [b]| - 1] == a;
  }

  /** An open list is never empty. */
  predicate WellOpened(st: RenderState)
  {
    st.open.Some? <==> st.items != []
  }

  lemma FlushEntries(st: RenderState)
    ensures Entries(Flush(st)) == Entries(st.done) + (if st.open.Some? then BlockEntries(ListBlock(st.open.value, st.items)) else [])
  {
    if st.open.Some? {
      EntriesAppend(st.done, ListBlock(st.open.value, st.items));
    } else {
      assert Flush(st) == st.done;
    }
  }

  lemma ListItemEntries(st: RenderState, k: ListKind, html: string)
    requires st.open == Some(k)
    ensures Entries(Flush(RenderState(st.done, st.open, st.items + [html]))) == Entries(Flush(st)) + [ListEntry(k, html)]
  {
    var items := st.items + [html];
    EntriesAppend(st.done, ListBlock(k, st.items));
    EntriesAppend(st.done, ListBlock(k, items));
    assert items[..|items| - 1] == st.items;
  }

  lemma NewListEntries(st: RenderState, k: ListKind, html: string)
    ensures Entries(Flush(RenderState(Flush(st), Some(k), [html]))) == Entries(Flush(st)) + [ListEntry(k, html)]
  {
    EntriesAppend(Flush(st), ListBlock(k, [html]));
    assert ItemEntries(k, [html]) == [ListEntry(k, html)];
  }

  /** A placed entry is added, after all the earlier ones, to the flushed blocks. */
  lemma PlaceEntries(st: RenderState, e: Entry)
    requires WellOpened(st)
    ensures WellOpened(Place(st, e))
    ensures Entries(Flush(Place(st, e))) == Entries(Flush(st)) + [e]
  {
    match e
    case ListEntry(k, html) =>
      if st.open == Some(k) {
        ListItemEntries(st, k, html);
      } else {
        NewListEntries(st, k, html);
      }
    case ArrowEntry(html) =>
      EntriesAppend(Flush(st), ArrowBlock(html));
      FlushEntries(Place(st, e));
    case TextEntry(html) =>
      EntriesAppend(Flush(st), TextBlock(html));
      FlushEntries(Place(st, e));
  }

  /** One line adds its entry, if it is not blank, to the flushed blocks. */
  lemma StepEntries(st: RenderState, line: string)
    requires WellOpened(st)
    ensures WellOpened(Step(st, line))
    ensures Entries(Flush(Step(st, line))) == Entries(Flush(st)) + (if Trim(line) == [] then [] else [EntryOf(Trim(line))])
  {
    if line == [] {
      assert Trim(line) == [];
      FlushEntries(Step(st, line));
      assert Flush(Step(st, line)) == Flush(st);
    } else if Trim(line) != [] {
      PlaceEntries(st, EntryOf(Trim(line)));
    }
  }

  /** The state's blocks, once flushed, hold exactly the entries of the lines read so far. */
  lemma {:induction false} StateEntries(lines: seq<string>, n: nat)
    requires n <= |lines|
    ensures Entries(Flush(StateAfter(lines, n))) == LineEntries(lines, n)
    ensures WellOpened(StateAfter(lines, n))
  {
    var i := 0;
    assert Flush(StateAfter(lines, 0)) == [];
    while i < n
      invariant i <= n
      invariant Entries(Flush(StateAfter(lines, i))) == LineEntries(lines, i)
      invariant WellOpened(StateAfter(lines, i))
    {
      StateEntriesStep(lines, i + 1);
      i := i + 1;
    }
  }

  lemma StateEntriesStep(lines: seq<string>, n: nat)
    requires 0 < n <= |lines|
    requires Entries(Flush(StateAfter(lines, n - 1))) == LineEntries(lines, n - 1)
    requires WellOpened(StateAfter(lines, n - 1))
    ensures Entries(Flush(StateAfter(lines, n))) == LineEntries(lines, n)
    ensures WellOpened(StateAfter(lines, n))
  {
    var st := StateAfter(lines, n - 1);
    var line := lines[n - 1];
    StepEntries(st, line);
    assert StateAfter(lines, n) == Step(st, line);
    assert LineEntries(lines, n) == LineEntries(lines, n - 1) + (if Trim(line) == [] then [] else [EntryOf(Trim(line))]);
  }

  /**
   * Each non-blank line becomes exactly one entry of one block, in the
   * order of the lines; whitespace-only and empty lines become nothing.
   */
  lemma EveryLineOnce(lines: seq<string>)
    ensures Entries(FormattedBlocks(lines)) == LineEntries(lines, |lines|)
  {
    StateEntries(lines, |lines|);
  }

  /** No two neighbouring blocks are lists of the same kind. */
  predicate ListsSeparated(blocks: seq<Block>)
  {
    forall i :: 0 < i < |blocks| && blocks[i - 1].ListBlock? && blocks[i].ListBlock? ==> blocks[i - 1].kind != blocks[i].kind
  }

  predicate LastIsList(blocks: seq<Block>)
  {
    blocks != [] && blocks[|blocks| - 1].ListBlock?
  }

  /** The invariant of a rendering without empty lines: lists end only where a different block starts. */
  predicate Grouped(st: RenderState)
  {
    ListsSeparated(st.done)
    && (LastIsList(st.done) ==> st.open.Some? && st.open.value != st.done[|st.done| - 1].kind)
  }

  lemma FlushGrouped(st: RenderState)
    requires Grouped(st)
    ensures ListsSeparated(Flush(st))
    ensures st.open.Some? ==> LastIsList(Flush(st)) && Flush(st)[|Flush(st)| - 1].kind == st.open.value
    ensures st.open.None? ==> !LastIsList(Flush(st))
  {
    var f := Flush(st);
    if st.open.Some? {
      forall i | 0 < i < |f| && f[i - 1].ListBlock? && f[i].ListBlock? ensures f[i - 1].kind != f[i].kind {
        if i < |st.done| {
          assert f[i - 1] == st.done[i - 1] && f[i] == st.done[i];
        }
      }
    }
  }

  lemma StepGrouped(st: RenderState, line: string)
    requires line != [] && Grouped(st)
    ensures Grouped(Step(st, line))
  {
    FlushGrouped(st);
    var f := Flush(st);
    var t := Trim(line);
    if t != [] {
      match EntryOf(t)
      case ListEntry(k, html) =>
      case ArrowEntry(html) =>
        AppendSingle(f, ArrowBlock(html));
      case TextEntry(html) =>
        AppendSingle(f, TextBlock(html));
    }
  }

  lemma {:induction false} StateGrouped(lines: seq<string>, n: nat)
    requires n <= |lines|
    requires forall k :: 0 <= k < n ==> lines[k] != []
    ensures Grouped(StateAfter(lines, n))
  {
    var i := 0;
    while i < n
      invariant i <= n
      invariant Grouped(StateAfter(lines, i))
    {
      StepGrouped(StateAfter(lines, i), lines[i]);
      assert StateAfter(lines, i + 1) == Step(StateAfter(lines, i), lines[i]);
      i := i + 1;
    }
  }

  lemma AppendSingle(f: seq<Block>, b: Block)
    requires ListsSeparated(f) && !b.ListBlock?
    ensures ListsSeparated(f + [b]) && !LastIsList(f + [b])
  {
    var g := f + [b];
    forall i | 0 < i < |g| && g[i - 1].ListBlock? && g[i].ListBlock? ensures g[i - 1].kind != g[i].kind {
      assert i < |f|;
      assert g[i - 1] == f[i - 1] && g[i] == f[i];
    }
  }

  /**
   * Without empty lines, consecutive items of one kind always share a list:
   * whitespace-only lines in between do not close it.
   */
  lemma ListsAreMaximal(lines: seq<string>)
    requires forall k :: 0 <= k < |lines| ==> lines[k] != []
    ensures ListsSeparated(FormattedBlocks(lines))
  {
    StateGrouped(lines, |lines|);
    FlushGrouped(StateAfter(lines, |lines|));
  }

  lemma BulletExamples()
    ensures Trim("- a") == "- a" && EntryOf("- a") == ListEntry(Bulleted, "a")
    ensures Trim("- b") == "- b" && EntryOf("- b") == ListEntry(Bulleted, "b")
    ensures Trim(" ") == []
  {
    var a := "- a";
    var b := "- b";
    assert !IsSpace(a[0]) && !IsSpace(a[2]) && !IsSpace(b[0]) && !IsSpace(b[2]);
    TrimStartOfTrimmed(a);
    TrimEndOfTrimmed(a);
    TrimStartOfTrimmed(b);
    TrimEndOfTrimmed(b);
    assert TrimStart(" ") == [];
    assert BulletLine(a) && BulletLine(b);
    assert TrimStart(a[1..]) == "a" by {
      assert a[1..][1..] == "a";
    }
    assert TrimStart(b[1..]) == "b" by {
      assert b[1..][1..] == "b";
    }
    PlainTextUnchanged("a");
    PlainTextUnchanged("b");
  }

  /** An empty line closes the open list, so the next item starts another one. */
  lemma EmptyLineClosesList()
    ensures FormattedBlocks(["- a", "", "- b"]) == [ListBlock(Bulleted, ["a"]), ListBlock(Bulleted, ["b"])]
  {
    var lines := ["- a", "", "- b"];
    BulletExamples();
    assert StateAfter(lines, 1) == RenderState([], Some(Bulleted), ["a"]);
    assert StateAfter(lines, 2) == RenderState([ListBlock(Bulleted, ["a"])], None, []);
    assert StateAfter(lines, 3) == RenderState([ListBlock(Bulleted, ["a"])], Some(Bulleted), ["b"]);
  }

  /** A line of spaces is skipped and leaves the list open. */
  lemma BlankLineKeepsList()
    ensures FormattedBlocks(["- a", " ", "- b"]) == [ListBlock(Bulleted, ["a", "b"])]
  {
    var lines := ["- a", " ", "- b"];
    BulletExamples();
    assert StateAfter(lines, 1) == RenderState([], Some(Bulleted), ["a"]);
    assert StateAfter(lines, 2) == RenderState([], Some(Bulleted), ["a"]);
    assert StateAfter(lines, 3) == RenderState([], Some(Bulleted), ["a", "b"]);
  }
}
