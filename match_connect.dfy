/**
 * The match-and-connect page: terms on the left, shuffled definitions on
 * the right, and a map from each term's index to the id of the definition
 * dropped on it, filled by mouse drops and touch drags and scored on submit.
 */
module MatchConnect {
  import opened TextUtil
  import opened Json
  import opened QuizSession
  import Shuffle

  /** The id `def-${i}` of the definition built from pair `i`. */
  function DefId(i: nat): string
  {
    "def-" + NatToString(i)
  }

  /** `parseInt(defId.split('-')[1])`; without a second piece it parses `undefined`, which is `NaN`. */
  function DefIndex(defId: string): Option<int>
  {
    var parts := SplitChar(defId, '-');
    if |parts| >= 2 then ParseInt(parts[1]) else None
  }

  /** A definition id gives back the index of the pair it was built from. */
  lemma DefIndexOfDefId(i: nat)
    ensures DefIndex(DefId(i)) == Some(i)
  {
    var d := NatToString(i);
    assert forall k :: 0 <= k < |d| ==> d[k] != '-' by {
      forall k | 0 <= k < |d| ensures d[k] != '-' {
        assert IsDigit(d[k]);
      }
    }
    assert "def" + "-" + Join([d], "-") == DefId(i);
    SplitJoin(["def", d], '-');
    ParseIntOfNatToString(i);
  }

  /** Different pairs give different ids. */
  lemma DefIdInjective(i: nat, j: nat)
    ensures DefId(i) == DefId(j) ==> i == j
  {
    DefIndexOfDefId(i);
    DefIndexOfDefId(j);
  }

  /** `loadQuizData`: the stored questions must hold an array under `pairs`. */
  function LoadPairs(configStr: Option<string>, questionsStr: Option<string>,
                     parse: string -> Result<JsonValue>): (r: Option<(JsonValue, seq<JsonValue>)>)
    ensures var stored := ReadStored(configStr, questionsStr, parse);
      r.Some? <==> stored.Some? && Get(stored.value.1, "pairs").Some? && Get(stored.value.1, "pairs").value.JArr?
    ensures r.Some? ==> Some(JArr(r.value.1)) == Get(ReadStored(configStr, questionsStr, parse).value.1, "pairs")
  {
    var stored := ReadStored(configStr, questionsStr, parse);
    if stored.None? then None
    else
      var p := Get(stored.value.1, "pairs");
      if TruthyOpt(p) && p.value.JArr? then Some((stored.value.0, p.value.items)) else None
  }

  /** A draggable definition: its id, the index of its pair, and the text it shows. */
  datatype DefinitionItem = DefinitionItem(defId: string, originalIndex: nat, right: Option<JsonValue>)

  function Unshuffled(pairs: seq<JsonValue>): (r: seq<DefinitionItem>)
    ensures |r| == |pairs|
  {
    seq(|pairs|, i requires 0 <= i < |pairs| => DefinitionItem(DefId(i), i, Get(pairs[i], "right")))
  }

  /** The right column: each pair tagged with its index, then shuffled. */
  function DefinitionItems(pairs: seq<JsonValue>, draws: seq<nat>): seq<DefinitionItem>
  {
    Shuffle.Permute(Unshuffled(pairs), draws)
  }

  /**
   * Whatever the display order, every item carries the id and text of the
   * pair it names, so `def-i` is the right match for term `i`; every pair
   * gives exactly one item.
   */
  lemma DefinitionItemsShape(pairs: seq<JsonValue>, draws: seq<nat>)
    ensures var r := DefinitionItems(pairs, draws);
      |r| == |pairs|
      && (forall k :: 0 <= k < |r| ==>
            r[k].originalIndex < |pairs| && r[k].defId == DefId(r[k].originalIndex)
            && DefIndex(r[k].defId) == Some(r[k].originalIndex)
            && r[k].right == Get(pairs[r[k].originalIndex], "right"))
      && multiset(r) == multiset(Unshuffled(pairs))
  {
    var u := Unshuffled(pairs);
    var r := DefinitionItems(pairs, draws);
    Shuffle.PermuteIsPermutation(u, draws);
    forall k | 0 <= k < |r|
      ensures r[k].originalIndex < |pairs| && r[k].defId == DefId(r[k].originalIndex)
      ensures DefIndex(r[k].defId) == Some(r[k].originalIndex)
      ensures r[k].right == Get(pairs[r[k].originalIndex], "right")
    {
      assert r[k] in multiset(u);
      var i :| 0 <= i < |u| && u[i] == r[k];
      DefIndexOfDefId(i);
    }
  }

  /** The ids of the definitions built from `n` pairs. */
  function DefIds(n: nat): set<string>
  {
    set i | 0 <= i < n :: DefId(i)
  }

  /** `Object.keys(matches)`: the matched term indices below `n`, ascending, as JavaScript orders integer keys. */
  function KeysBelow(m: map<nat, string>, n: nat): (r: seq<nat>)
    ensures |r| <= n
    ensures forall k :: 0 <= k < |r| ==> r[k] < n && r[k] in m
  {
    if n == 0 then [] else KeysBelow(m, n - 1) + (if n - 1 in m then [n - 1] else [])
  }

  /** Every matched index below `n` is among the keys. */
  lemma {:induction false} KeysBelowComplete(m: map<nat, string>, n: nat, t: nat)
    requires t < n && t in m
    ensures t in KeysBelow(m, n)
  {
    if t < n - 1 {
      KeysBelowComplete(m, n - 1, t);
    } else {
      assert KeysBelow(m, n)[|KeysBelow(m, n)| - 1] == t;
    }
  }

  /** Every index below `n` is matched exactly when there are `n` matched keys. */
  lemma {:induction false} KeysBelowFull(m: map<nat, string>, n: nat)
    ensures |KeysBelow(m, n)| == n <==> forall t: nat :: t < n ==> t in m
  {
    if |KeysBelow(m, n)| == n {
      KeysBelowAllMatched(m, n);
    }
    if forall t: nat :: t < n ==> t in m {
      AllMatchedKeysBelow(m, n);
    }
  }

  lemma {:induction false} KeysBelowAllMatched(m: map<nat, string>, n: nat)
    requires |KeysBelow(m, n)| == n
    ensures forall t: nat :: t < n ==> t in m
  {
    if n > 0 {
      assert |KeysBelow(m, n - 1)| <= n - 1;
      KeysBelowAllMatched(m, n - 1);
    }
  }

  lemma {:induction false} AllMatchedKeysBelow(m: map<nat, string>, n: nat)
    requires forall t: nat :: t < n ==> t in m
    ensures |KeysBelow(m, n)| == n
  {
    if n > 0 {
      AllMatchedKeysBelow(m, n - 1);
    }
  }

  /** `parseInt(termIndex) === parseInt(defId.split('-')[1])`. */
  predicate IsCorrectMatch(m: map<nat, string>, t: nat)
    requires t in m
  {
    DefIndex(m[t]) == Some(t)
  }

  /** The correct and incorrect counts of `submitAnswers` over the keys in `keys`, in order. */
  function Score(m: map<nat, string>, keys: seq<nat>): (r: (nat, nat))
    requires forall k :: 0 <= k < |keys| ==> keys[k] in m
    ensures r.0 + r.1 == |keys|
  {
    if keys == [] then (0, 0)
    else
      var s := Score(m, keys[..|keys| - 1]);
      if IsCorrectMatch(m, keys[|keys| - 1]) then (s.0 + 1, s.1) else (s.0, s.1 + 1)
  }

  /** Matching every term to its own definition scores every key correct. */
  lemma {:induction false} ScoreAllCorrect(m: map<nat, string>, keys: seq<nat>)
    requires forall k :: 0 <= k < |keys| ==> keys[k] in m && m[keys[k]] == DefId(keys[k])
    ensures Score(m, keys) == (|keys|, 0)
  {
    if keys != [] {
      ScoreAllCorrect(m, keys[..|keys| - 1]);
      DefIndexOfDefId(keys[|keys| - 1]);
    }
  }

  lemma ScoreSnoc(m: map<nat, string>, keys: seq<nat>, i: nat)
    requires forall k :: 0 <= k < |keys| ==> keys[k] in m
    requires i < |keys|
    ensures var s := Score(m, keys[..i]);
      Score(m, keys[..i + 1]) == if IsCorrectMatch(m, keys[i]) then (s.0 + 1, s.1) else (s.0, s.1 + 1)
  {
    var p := keys[..i + 1];
    assert p[..|p| - 1] == keys[..i];
    assert p[|p| - 1] == keys[i];
  }

  /** The counting loop of `submitAnswers`. */
  method CountMatches(m: map<nat, string>, keys: seq<nat>) returns (correctCount: nat, incorrectCount: nat)
    requires forall k :: 0 <= k < |keys| ==> keys[k] in m
    ensures (correctCount, incorrectCount) == Score(m, keys)
  {
    correctCount, incorrectCount := 0, 0;
    var i := 0;
    while i < |keys|
      invariant 0 <= i <= |keys|
      invariant correctCount == Score(m, keys[..i]).0 && incorrectCount == Score(m, keys[..i]).1
    {
      ScoreSnoc(m, keys, i);
      if IsCorrectMatch(m, keys[i]) {
        correctCount := correctCount + 1;
      } else {
        incorrectCount := incorrectCount + 1;
      }
      i := i + 1;
    }
    assert keys[..|keys|] == keys;
  }

  /** The matches as `JSON.stringify` stores them under `userMatches`: an object keyed by the decimal term index. */
  function MatchesJson(m: map<nat, string>): JsonValue
  {
    NatToStringInjective();
    JObj(map t | t in m :: NatToString(t) := JStr(m[t]))
  }

  /**
   * `displayMatchingItems` reads `pair.left` of every pair, which throws on
   * a `null` pair: the board is set up only for pairs without one.
   */
  predicate BoardSetsUp(pairs: seq<JsonValue>)
  {
    forall k :: 0 <= k < |pairs| ==> pairs[k] != JNull
  }

  /**
   * The page's session after a successful load and board setup. `results` and
   * `storedMatches` are what `submitAnswers` stores.
   */
  class Session {
    var difficulty: Option<JsonValue>
    var pairs: seq<JsonValue>
    var matches: map<nat, string>
    var matchedDefs: set<string>
    var results: Option<QuizResults>
    var storedMatches: Option<map<nat, string>>

    /**
     * Matches go from a term index to a definition id of this quiz, and a
     * definition is marked matched only while some term holds it.
     */
    predicate Valid()
      reads this
    {
      (forall t :: t in matches ==> t < |pairs| && matches[t] in DefIds(|pairs|))
      && (forall d :: d in matchedDefs ==> d in matches.Values)
    }

    /** No definition is held by two terms, and the matched ones are exactly those held. */
    predicate OneToOne()
      reads this
    {
      (forall s, t :: s in matches && t in matches && s != t ==> matches[s] != matches[t])
      && matchedDefs == matches.Values
    }

    constructor(config: JsonValue, loadedPairs: seq<JsonValue>)
      requires BoardSetsUp(loadedPairs)
      ensures Valid() && OneToOne()
      ensures difficulty == Get(config, "difficulty") && pairs == loadedPairs
      ensures matches == map[] && matchedDefs == {} && results.None? && storedMatches.None?
    {
      difficulty := Get(config, "difficulty");
      pairs := loadedPairs;
      matches := map[];
      matchedDefs := {};
      results := None;
      storedMatches := None;
    }

    /**
     * `handleDrop`: the term's previous definition, if any, loses its mark,
     * the dropped one gains it, and the term now holds the dropped one.
     * Nothing stops a definition held by another term from being dropped
     * again, so two terms can hold the same definition.
     */
    method Drop(termIndex: nat, defIndex: nat)
      requires Valid() && termIndex < |pairs| && defIndex < |pairs|
      modifies this
      ensures Valid()
      ensures pairs == old(pairs) && difficulty == old(difficulty) && results == old(results)
      ensures storedMatches == old(storedMatches)
      ensures matches == old(matches)[termIndex := DefId(defIndex)]
      ensures matchedDefs ==
        (old(matchedDefs) - (if termIndex in old(matches) then {old(matches)[termIndex]} else {})) + {DefId(defIndex)}
    {
      ghost var m0 := matches;
      if termIndex in matches {
        matchedDefs := matchedDefs - {matches[termIndex]};
      }
      matches := matches[termIndex := DefId(defIndex)];
      matchedDefs := matchedDefs + {DefId(defIndex)};
      assert DefId(defIndex) in DefIds(|pairs|);
      forall d | d in matchedDefs
        ensures d in matches.Values
      {
        if d == DefId(defIndex) {
          assert matches[termIndex] == d;
        } else {
          assert d in m0.Values;
          var s :| s in m0 && m0[s] == d;
          assert s != termIndex;
          assert matches[s] == d;
        }
      }
    }

    /** `handleTouchStart`: a definition marked matched cannot start a touch drag. */
    function CanTouchDrag(defIndex: nat): bool
      reads this
    {
      DefId(defIndex) !in matchedDefs
    }

    /**
     * `handleTouchEnd` for a drag that started: over a drop zone it stores
     * the match as a drop does; elsewhere it changes nothing. Because only
     * unmarked definitions can be dragged, touch alone keeps the matches
     * one to one.
     */
    method TouchEnd(dropZone: Option<nat>, defIndex: nat)
      requires Valid() && defIndex < |pairs| && CanTouchDrag(defIndex)
      requires dropZone.Some? ==> dropZone.value < |pairs|
      modifies this
      ensures Valid()
      ensures dropZone.None? ==> unchanged(this)
      ensures dropZone.Some? ==> matches == old(matches)[dropZone.value := DefId(defIndex)]
      ensures pairs == old(pairs) && results == old(results)
      ensures old(OneToOne()) ==> OneToOne()
    {
      if dropZone.None? {
        return;
      }
      ghost var m0, d0 := matches, matchedDefs;
      var t := dropZone.value;
      Drop(t, defIndex);
      if old(OneToOne()) {
        var d := DefId(defIndex);
        assert d !in m0.Values;
        forall s, u | s in matches && u in matches && s != u
          ensures matches[s] != matches[u]
        {
          if s != t && u != t {
            assert matches[s] == m0[s] && matches[u] == m0[u];
          } else if s == t {
            assert m0[u] in m0.Values;
          } else {
            assert m0[s] in m0.Values;
          }
        }
        forall e | e in matches.Values
          ensures e in matchedDefs
        {
          var s :| s in matches && matches[s] == e;
          if s != t {
            assert e == m0[s] && e in d0;
            if t in m0 {
              assert m0[t] != m0[s];
            }
          }
        }
      }
    }

    /** `checkAllMatched`: submitting is enabled when every term holds a definition. */
    function AllMatched(): (r: bool)
      reads this
      requires Valid()
      ensures r <==> forall t: nat :: t < |pairs| ==> t in matches
    {
      KeysBelowFull(matches, |pairs|);
      |KeysBelow(matches, |pairs|)| == |pairs|
    }

    /**
     * `submitAnswers`, from the enabled button or when the countdown runs
     * out: every matched term counts as correct or incorrect, and the
     * results are stored with the matches. The board stays live after a
     * submit, so drops and a further submit can follow, and a further
     * submit overwrites what the previous one stored.
     */
    method SubmitAnswers()
      requires Valid()
      modifies this
      ensures Valid()
      ensures pairs == old(pairs) && matches == old(matches) && matchedDefs == old(matchedDefs)
      ensures storedMatches == Some(matches)
      ensures var s := Score(matches, KeysBelow(matches, |pairs|));
        results == Some(ResultsOf("Match & Connect", difficulty, |pairs|, s.0, s.1, "completed"))
      ensures results.value.correctAnswers + results.value.wrongAnswers == |KeysBelow(matches, |pairs|)|
      ensures AllMatched() ==> results.value.correctAnswers + results.value.wrongAnswers == |pairs|
      ensures !AllMatched() ==> results.value.correctAnswers + results.value.wrongAnswers < |pairs|
      ensures |pairs| > 0 ==> 0 <= results.value.percentage.value <= 100
    {
      var keys := KeysBelow(matches, |pairs|);
      var correctCount, incorrectCount := CountMatches(matches, keys);
      KeysBelowFull(matches, |pairs|);
      if |pairs| > 0 {
        PercentageRange(correctCount, |pairs|);
      }
      results := Some(ResultsOf("Match & Connect", difficulty, |pairs|, correctCount, incorrectCount, "completed"));
      storedMatches := Some(matches);
    }
  }
}
