/**
 * The results page: the questions a finished quiz got wrong, the time
 * display, and the helper the quiz pages may call to record one answer.
 */
module GameResults {
  import opened TextUtil
  import opened Json
  import IdentificationGame
  import MultipleChoiceGame
  import TrueFalseGame
  import MatchConnect

  /**
   * `v[i]` on a parsed value: reading an index of `null` throws; arrays and
   * strings have items inside their length; an object has the property
   * named by the decimal index; anything else gives `undefined`.
   */
  function ItemAt(v: JsonValue, i: nat): Result<Option<JsonValue>>
  {
    match v
    case JNull => Err("Cannot read properties of null")
    case JArr(items) => Ok(if i < |items| then Some(items[i]) else None)
    case JObj(_) => Ok(Get(v, NatToString(i)))
    case JStr(s) => Ok(if i < |s| then Some(JStr([s[i]])) else None)
    case _ => Ok(None)
  }

  /**
   * `checkAnswer(question, userAnswer)`, its cases in order: a boolean
   * `answer`, then an own `correctIndex`, then a string `answer` compared
   * case-insensitively and trimmed, with a missing user answer read as "".
   * An error is a `TypeError` it throws: on a `null` question, or when a
   * truthy user answer to a string question is not a string.
   */
  function CheckAnswer(question: JsonValue, userAnswer: Option<JsonValue>): Result<bool>
  {
    if question == JNull then Err("Cannot read properties of null")
    else
      var answer := Get(question, "answer");
      if answer.Some? && answer.value.JBool? then Ok(StrictEquals(answer, userAnswer))
      else if Has(question, "correctIndex") then Ok(StrictEquals(Get(question, "correctIndex"), userAnswer))
      else if answer.Some? && answer.value.JStr? then
        if !TruthyOpt(userAnswer) then Ok(IdentificationGame.Normal(answer.value.s) == IdentificationGame.Normal(""))
        else if userAnswer.value.JStr? then
          Ok(IdentificationGame.Normal(answer.value.s) == IdentificationGame.Normal(userAnswer.value.s))
        else Err("toLowerCase is not a function")
      else Ok(false)
  }

  /** On a true/false question with a boolean answer, the results page agrees with the quiz page. */
  lemma AgreesWithTrueFalse(question: JsonValue, choice: bool)
    requires Get(question, "answer").Some? && Get(question, "answer").value.JBool?
    ensures CheckAnswer(question, Some(JBool(choice))) == Ok(TrueFalseGame.IsCorrect(question, choice))
  {
  }

  /**
   * A true/false question whose answer is the string "true" is wrong on the
   * quiz page whatever is chosen; on the results page, choosing true makes
   * the check throw and choosing false is graded against "".
   */
  lemma StringTrueOnResultsPage(question: JsonValue)
    requires question.JObj? && Get(question, "answer") == Some(JStr("true")) && !Has(question, "correctIndex")
    ensures !TrueFalseGame.IsCorrect(question, true) && !TrueFalseGame.IsCorrect(question, false)
    ensures CheckAnswer(question, Some(JBool(true))).Err?
    ensures CheckAnswer(question, Some(JBool(false))) == Ok(false)
  {
    TrueFalseGame.StringAnswerNeverCorrect(question, true);
    TrueFalseGame.StringAnswerNeverCorrect(question, false);
    IdentificationGame.NormalOfLowerWord("true");
    StringAnswerAgainstFalse(question, "true");
  }

  /** Choosing false on a question with a non-empty string answer grades it against "". */
  lemma StringAnswerAgainstFalse(question: JsonValue, answer: string)
    requires question != JNull && Get(question, "answer") == Some(JStr(answer)) && !Has(question, "correctIndex")
    requires IdentificationGame.Normal(answer) != []
    ensures CheckAnswer(question, Some(JBool(false))) == Ok(false)
  {
    assert IdentificationGame.Normal("") == "";
  }

  /** On a multiple-choice question without a boolean `answer`, the results page agrees with the quiz page. */
  lemma AgreesWithMultipleChoice(question: JsonValue, option: nat)
    requires MultipleChoiceGame.ValidQuestion(question)
    requires !(Get(question, "answer").Some? && Get(question, "answer").value.JBool?)
    ensures CheckAnswer(question, Some(JNum(option as real))) == Ok(MultipleChoiceGame.IsCorrect(question, option))
  {
  }

  /**
   * The results page is stricter than the identification page: an answer
   * that the page accepted for a leading article is listed as incorrect.
   */
  lemma ForgivenArticleListedIncorrect(correctAnswer: string, userAnswer: string)
    requires IdentificationGame.Normal(correctAnswer) == "the " + IdentificationGame.Normal(userAnswer)
    requires IdentificationGame.Normal(userAnswer) != []
    requires IdentificationGame.DropArticle(IdentificationGame.Normal(userAnswer)) == IdentificationGame.Normal(userAnswer)
    ensures IdentificationGame.CheckAnswer(correctAnswer, userAnswer)
    ensures CheckAnswer(JObj(map["answer" := JStr(correctAnswer)]), Some(JStr(userAnswer))) == Ok(false)
  {
    IdentificationGame.ArticleForgiven(correctAnswer, userAnswer);
    var q := JObj(map["answer" := JStr(correctAnswer)]);
    assert Get(q, "answer") == Some(JStr(correctAnswer));
    assert !Has(q, "correctIndex");
    assert |IdentificationGame.Normal(correctAnswer)| != |IdentificationGame.Normal(userAnswer)|;
  }

  // ---------------------------------------------------------------------
  // The incorrect-answer list
  // ---------------------------------------------------------------------

  /** An entry of the list `getIncorrectQuestions` builds. */
  datatype Incorrect =
    | Unanswered(pair: JsonValue, index: nat)
    | Mismatched(pair: JsonValue, userMatchId: string, selectedDefinition: Option<JsonValue>, index: nat)
    | WrongAnswer(question: JsonValue, userAnswer: Option<JsonValue>, index: nat)

  /**
   * The verdict on pair `k` of a matching quiz: unanswered, answered with
   * its own definition (nothing listed), or mismatched with the text of
   * the definition chosen, "Unknown" when its index is not a pair's.
   */
  function PairVerdict(pairs: seq<JsonValue>, userAnswers: JsonValue, k: nat): Result<Option<Incorrect>>
    requires k < |pairs|
  {
    var m := ItemAt(userAnswers, k);
    if m.Err? then Err(m.error)
    else if !TruthyOpt(m.value) then Ok(Some(Unanswered(pairs[k], k)))
    else if !m.value.value.JStr? then Err("split is not a function")
    else
      var id := m.value.value.s;
      var n := MatchConnect.DefIndex(id);
      if n == Some(k) then Ok(None)
      else if n.Some? && 0 <= n.value < |pairs| then
        if pairs[n.value] == JNull then Err("Cannot read properties of null")
        else Ok(Some(Mismatched(pairs[k], id, Get(pairs[n.value], "right"), k)))
      else Ok(Some(Mismatched(pairs[k], id, Some(JStr("Unknown")), k)))
  }

  /** The verdict on question `k` of the other quiz types: listed when `checkAnswer` fails. */
  function AnswerVerdict(questions: seq<JsonValue>, userAnswers: JsonValue, k: nat): Result<Option<Incorrect>>
    requires k < |questions|
  {
    var u := ItemAt(userAnswers, k);
    if u.Err? then Err(u.error)
    else
      var ok := CheckAnswer(questions[k], u.value);
      if ok.Err? then Err(ok.error)
      else if ok.value then Ok(None)
      else Ok(Some(WrongAnswer(questions[k], u.value, k)))
  }

  predicate IsMatching(quizType: Option<JsonValue>)
  {
    StrictEquals(quizType, Some(JStr("Match & Connect")))
  }

  function Verdict(matching: bool, items: seq<JsonValue>, userAnswers: JsonValue, k: nat): Result<Option<Incorrect>>
    requires k < |items|
  {
    if matching then PairVerdict(items, userAnswers, k) else AnswerVerdict(items, userAnswers, k)
  }

  /** The list for the first `n` items; the first error thrown ends it. */
  function IncorrectUpTo(matching: bool, items: seq<JsonValue>, userAnswers: JsonValue, n: nat): Result<seq<Incorrect>>
    requires n <= |items|
  {
    if n == 0 then Ok([])
    else
      var prev := IncorrectUpTo(matching, items, userAnswers, n - 1);
      if prev.Err? then prev
      else
        var v := Verdict(matching, items, userAnswers, n - 1);
        if v.Err? then Err(v.error)
        else Ok(prev.value + (if v.value.Some? then [v.value.value] else []))
  }

  /** `getIncorrectQuestions`: `forEach` needs the loaded questions to be an array. */
  function IncorrectQuestions(quizType: Option<JsonValue>, allQuestions: JsonValue, userAnswers: JsonValue): Result<seq<Incorrect>>
  {
    if !allQuestions.JArr? then Err("forEach is not a function")
    else IncorrectUpTo(IsMatching(quizType), allQuestions.items, userAnswers, |allQuestions.items|)
  }

  /** `getIncorrectQuestions`, pushing each listed item as `forEach` goes. */
  method GetIncorrectQuestions(quizType: Option<JsonValue>, allQuestions: JsonValue, userAnswers: JsonValue)
    returns (r: Result<seq<Incorrect>>)
    ensures r == IncorrectQuestions(quizType, allQuestions, userAnswers)
  {
    if !allQuestions.JArr? {
      return Err("forEach is not a function");
    }
    var items := allQuestions.items;
    var matching := IsMatching(quizType);
    var incorrect: seq<Incorrect> := [];
    var index := 0;
    while index < |items|
      invariant 0 <= index <= |items|
      invariant IncorrectUpTo(matching, items, userAnswers, index) == Ok(incorrect)
    {
      var v := Verdict(matching, items, userAnswers, index);
      if v.Err? {
        IncorrectUpToErr(matching, items, userAnswers, index + 1);
        return Err(v.error);
      }
      var listed := if v.value.Some? then [v.value.value] else [];
      assert IncorrectUpTo(matching, items, userAnswers, index + 1) == Ok(incorrect + listed);
      incorrect := incorrect + listed;
      index := index + 1;
    }
    r := Ok(incorrect);
  }

  /** Once an item throws, so does the whole list. */
  lemma {:induction false} IncorrectUpToErr(matching: bool, items: seq<JsonValue>, userAnswers: JsonValue, n: nat)
    requires 0 < n <= |items|
    requires IncorrectUpTo(matching, items, userAnswers, n - 1).Ok?
    requires Verdict(matching, items, userAnswers, n - 1).Err?
    ensures IncorrectUpTo(matching, items, userAnswers, |items|) == Err(Verdict(matching, items, userAnswers, n - 1).error)
    decreases |items| - n
  {
    if n < |items| {
      IncorrectUpToErrStays(matching, items, userAnswers, n, |items|);
    }
  }

  lemma {:induction false} IncorrectUpToErrStays(matching: bool, items: seq<JsonValue>, userAnswers: JsonValue, n: nat, m: nat)
    requires n <= m <= |items|
    requires IncorrectUpTo(matching, items, userAnswers, n).Err?
    ensures IncorrectUpTo(matching, items, userAnswers, m) == IncorrectUpTo(matching, items, userAnswers, n)
    decreases m - n
  {
    if n < m {
      IncorrectUpToErrStays(matching, items, userAnswers, n, m - 1);
      ErrStaysStep(matching, items, userAnswers, m);
    }
  }

  lemma ErrStaysStep(matching: bool, items: seq<JsonValue>, userAnswers: JsonValue, m: nat)
    requires 0 < m <= |items|
    requires IncorrectUpTo(matching, items, userAnswers, m - 1).Err?
    ensures IncorrectUpTo(matching, items, userAnswers, m) == IncorrectUpTo(matching, items, userAnswers, m - 1)
  {
  }

  /** A verdict that lists an item lists it under its own index. */
  lemma VerdictIndex(matching: bool, items: seq<JsonValue>, userAnswers: JsonValue, k: nat)
    requires k < |items|
    ensures var v := Verdict(matching, items, userAnswers, k); v.Ok? && v.value.Some? ==> v.value.value.index == k
  {
  }

  /** The list a `forEach` over the given verdicts builds; the first error thrown ends it. */
  function Collect(vs: seq<Result<Option<Incorrect>>>): Result<seq<Incorrect>>
  {
    if vs == [] then Ok([])
    else
      var prev := Collect(vs[..|vs| - 1]);
      if prev.Err? then prev
      else
        var v := vs[|vs| - 1];
        if v.Err? then Err(v.error)
        else Ok(prev.value + (if v.value.Some? then [v.value.value] else []))
  }

  /** The verdicts on the first `n` items. */
  function Verdicts(matching: bool, items: seq<JsonValue>, userAnswers: JsonValue, n: nat): (r: seq<Result<Option<Incorrect>>>)
    requires n <= |items|
    ensures |r| == n
  {
    if n == 0 then [] else Verdicts(matching, items, userAnswers, n - 1) + [Verdict(matching, items, userAnswers, n - 1)]
  }

  /** Position `k` of the verdicts is the verdict on item `k`. */
  lemma {:induction false} VerdictsAt(matching: bool, items: seq<JsonValue>, userAnswers: JsonValue, n: nat)
    requires n <= |items|
    ensures forall k :: 0 <= k < n ==> Verdicts(matching, items, userAnswers, n)[k] == Verdict(matching, items, userAnswers, k)
  {
    if n > 0 {
      VerdictsAt(matching, items, userAnswers, n - 1);
      var vs := Verdicts(matching, items, userAnswers, n);
      assert vs == Verdicts(matching, items, userAnswers, n - 1) + [Verdict(matching, items, userAnswers, n - 1)];
    }
  }

  /** Each verdict that lists an entry lists it under its own position. */
  predicate Indexed(vs: seq<Result<Option<Incorrect>>>)
  {
    forall k :: 0 <= k < |vs| && vs[k].Ok? && vs[k].value.Some? ==> vs[k].value.value.index == k
  }

  /**
   * Every collected entry is the one its verdict gave, and the entries
   * come in the order of the verdicts, each at most once.
   */
  predicate CollectedSound(vs: seq<Result<Option<Incorrect>>>)
  {
    var r := Collect(vs);
    r.Ok? ==>
      (forall i :: 0 <= i < |r.value| ==> r.value[i].index < |vs| && vs[r.value[i].index] == Ok(Some(r.value[i])))
      && (forall i, j :: 0 <= i < j < |r.value| ==> r.value[i].index < r.value[j].index)
  }

  lemma CollectStep(vs: seq<Result<Option<Incorrect>>>)
    requires vs != [] && Indexed(vs) && CollectedSound(vs[..|vs| - 1])
    ensures CollectedSound(vs)
  {
    var p := vs[..|vs| - 1];
    var r := Collect(vs);
    if r.Ok? {
      var prev := Collect(p).value;
      var v := vs[|vs| - 1];
      var last := if v.value.Some? then [v.value.value] else [];
      assert r.value == prev + last;
      forall i | 0 <= i < |r.value| ensures r.value[i].index < |vs| && vs[r.value[i].index] == Ok(Some(r.value[i])) {
        if i < |prev| {
          assert r.value[i] == prev[i];
          assert vs[prev[i].index] == p[prev[i].index];
        } else {
          assert r.value[i] == v.value.value;
        }
      }
    }
  }

  lemma {:induction false} CollectSound(vs: seq<Result<Option<Incorrect>>>)
    requires Indexed(vs)
    ensures CollectedSound(vs)
  {
    if vs != [] {
      var p := vs[..|vs| - 1];
      assert Indexed(p) by {
        forall k | 0 <= k < |p| ensures p[k] == vs[k] { }
      }
      CollectSound(p);
      CollectStep(vs);
    }
  }

  lemma CollectVerdictsStep(matching: bool, items: seq<JsonValue>, userAnswers: JsonValue, n: nat)
    requires 0 < n <= |items|
    requires IncorrectUpTo(matching, items, userAnswers, n - 1) == Collect(Verdicts(matching, items, userAnswers, n - 1))
    ensures IncorrectUpTo(matching, items, userAnswers, n) == Collect(Verdicts(matching, items, userAnswers, n))
  {
    var vs := Verdicts(matching, items, userAnswers, n);
    assert vs[..n - 1] == Verdicts(matching, items, userAnswers, n - 1);
  }

  lemma CollectVerdictsZero(matching: bool, items: seq<JsonValue>, userAnswers: JsonValue)
    ensures IncorrectUpTo(matching, items, userAnswers, 0) == Collect(Verdicts(matching, items, userAnswers, 0))
  {
  }

  /** The list for the first `n` items is what collecting their verdicts gives. */
  lemma {:induction false} CollectVerdicts(matching: bool, items: seq<JsonValue>, userAnswers: JsonValue, n: nat)
    requires n <= |items|
    ensures IncorrectUpTo(matching, items, userAnswers, n) == Collect(Verdicts(matching, items, userAnswers, n))
  {
    if n == 0 {
      CollectVerdictsZero(matching, items, userAnswers);
    } else {
      CollectVerdicts(matching, items, userAnswers, n - 1);
      CollectVerdictsStep(matching, items, userAnswers, n);
    }
  }

  /** The list for the first `n` items is sound and ordered. */
  lemma Listed(matching: bool, items: seq<JsonValue>, userAnswers: JsonValue, n: nat)
    requires n <= |items|
    ensures CollectedSound(Verdicts(matching, items, userAnswers, n))
    ensures IncorrectUpTo(matching, items, userAnswers, n) == Collect(Verdicts(matching, items, userAnswers, n))
  {
    var vs := Verdicts(matching, items, userAnswers, n);
    VerdictsAt(matching, items, userAnswers, n);
    forall k | 0 <= k < n ensures vs[k].Ok? && vs[k].value.Some? ==> vs[k].value.value.index == k {
      VerdictIndex(matching, items, userAnswers, k);
    }
    CollectSound(vs);
    CollectVerdicts(matching, items, userAnswers, n);
  }

  lemma IncorrectUpToSound(matching: bool, items: seq<JsonValue>, userAnswers: JsonValue, n: nat)
    requires n <= |items|
    requires IncorrectUpTo(matching, items, userAnswers, n).Ok?
    ensures var r := IncorrectUpTo(matching, items, userAnswers, n).value;
      forall i :: 0 <= i < |r| ==> r[i].index < n && Verdict(matching, items, userAnswers, r[i].index) == Ok(Some(r[i]))
  {
    Listed(matching, items, userAnswers, n);
    VerdictsAt(matching, items, userAnswers, n);
  }

  lemma IncorrectUpToOrdered(matching: bool, items: seq<JsonValue>, userAnswers: JsonValue, n: nat)
    requires n <= |items|
    requires IncorrectUpTo(matching, items, userAnswers, n).Ok?
    ensures var r := IncorrectUpTo(matching, items, userAnswers, n).value;
      forall i, j :: 0 <= i < j < |r| ==> r[i].index < r[j].index
  {
    Listed(matching, items, userAnswers, n);
  }

  /** An item below `n` whose verdict lists it is listed, and no item before `n` threw. */
  lemma {:induction false} IncorrectUpToComplete(matching: bool, items: seq<JsonValue>, userAnswers: JsonValue, n: nat, k: nat)
    requires k < n <= |items|
    requires IncorrectUpTo(matching, items, userAnswers, n).Ok?
    ensures Verdict(matching, items, userAnswers, k).Ok?
    ensures Verdict(matching, items, userAnswers, k).value.Some? ==>
      exists i :: 0 <= i < |IncorrectUpTo(matching, items, userAnswers, n).value|
        && IncorrectUpTo(matching, items, userAnswers, n).value[i] == Verdict(matching, items, userAnswers, k).value.value
  {
    var prev := IncorrectUpTo(matching, items, userAnswers, n - 1);
    assert prev.Ok?;
    if k < n - 1 {
      IncorrectUpToComplete(matching, items, userAnswers, n - 1, k);
      if Verdict(matching, items, userAnswers, k).value.Some? {
        var i :| 0 <= i < |prev.value| && prev.value[i] == Verdict(matching, items, userAnswers, k).value.value;
        assert IncorrectUpTo(matching, items, userAnswers, n).value[i] == prev.value[i];
      }
    } else if Verdict(matching, items, userAnswers, k).value.Some? {
      assert IncorrectUpTo(matching, items, userAnswers, n).value[|prev.value|] == Verdict(matching, items, userAnswers, k).value.value;
    }
  }

  // ---------------------------------------------------------------------
  // The review list against the matching page
  // ---------------------------------------------------------------------

  /** Reading stored matches back by index gives the definition id each term holds. */
  lemma MatchesJsonAt(m: map<nat, string>, t: nat)
    ensures ItemAt(MatchConnect.MatchesJson(m), t) == Ok(if t in m then Some(JStr(m[t])) else None)
  {
    NatToStringInjective();
    if t in m {
      assert NatToString(t) in MatchConnect.MatchesJson(m).fields;
    }
  }

  /**
   * On the matches a matching session stores, pair `k` is left off the
   * review list exactly when it was matched with its own definition.
   */
  lemma PairVerdictOfMatches(pairs: seq<JsonValue>, m: map<nat, string>, k: nat)
    requires k < |pairs|
    requires forall i :: 0 <= i < |pairs| ==> pairs[i] != JNull
    requires forall t :: t in m ==> t < |pairs| && m[t] in MatchConnect.DefIds(|pairs|)
    ensures PairVerdict(pairs, MatchConnect.MatchesJson(m), k).Ok?
    ensures PairVerdict(pairs, MatchConnect.MatchesJson(m), k).value.None? <==> k in m && MatchConnect.IsCorrectMatch(m, k)
  {
    var answers := MatchConnect.MatchesJson(m);
    MatchesJsonAt(m, k);
    if k in m {
      var i :| 0 <= i < |pairs| && m[k] == MatchConnect.DefId(i);
      MatchConnect.DefIndexOfDefId(i);
      PairVerdictMatched(pairs, answers, k, m[k], i);
    } else {
      PairVerdictUnanswered(pairs, answers, k);
    }
  }

  /** A pair matched with the definition of a pair that exists is listed unless that pair is its own. */
  lemma PairVerdictMatched(pairs: seq<JsonValue>, userAnswers: JsonValue, k: nat, id: string, i: nat)
    requires k < |pairs| && i < |pairs| && pairs[i] != JNull
    requires ItemAt(userAnswers, k) == Ok(Some(JStr(id))) && id != [] && MatchConnect.DefIndex(id) == Some(i)
    ensures PairVerdict(pairs, userAnswers, k).Ok?
    ensures PairVerdict(pairs, userAnswers, k).value.None? <==> i == k
  {
  }

  /** A pair without an answer is listed as unanswered. */
  lemma PairVerdictUnanswered(pairs: seq<JsonValue>, userAnswers: JsonValue, k: nat)
    requires k < |pairs| && ItemAt(userAnswers, k) == Ok(None)
    ensures PairVerdict(pairs, userAnswers, k) == Ok(Some(Unanswered(pairs[k], k)))
  {
  }

  /** The number of indices below `n` matched to their own definition. */
  function CorrectBelow(m: map<nat, string>, n: nat): nat
  {
    if n == 0 then 0
    else CorrectBelow(m, n - 1) + (if n - 1 in m && MatchConnect.IsCorrectMatch(m, n - 1) then 1 else 0)
  }

  lemma KeysBelowLast(m: map<nat, string>, n: nat)
    requires n > 0 && n - 1 in m
    ensures MatchConnect.KeysBelow(m, n)[..|MatchConnect.KeysBelow(m, n)| - 1] == MatchConnect.KeysBelow(m, n - 1)
  {
  }

  /** One more index adds one to the matching page's correct count exactly when it is matched to its own definition. */
  lemma ScoreBelowStep(m: map<nat, string>, n: nat)
    requires n > 0
    requires MatchConnect.Score(m, MatchConnect.KeysBelow(m, n - 1)).0 == CorrectBelow(m, n - 1)
    ensures MatchConnect.Score(m, MatchConnect.KeysBelow(m, n)).0 == CorrectBelow(m, n)
  {
    if n - 1 in m {
      KeysBelowLast(m, n);
    } else {
      assert MatchConnect.KeysBelow(m, n) == MatchConnect.KeysBelow(m, n - 1);
    }
  }

  lemma {:induction false} IncorrectPairsCount(pairs: seq<JsonValue>, m: map<nat, string>, n: nat)
    requires n <= |pairs|
    requires forall i :: 0 <= i < |pairs| ==> pairs[i] != JNull
    requires forall t :: t in m ==> t < |pairs| && m[t] in MatchConnect.DefIds(|pairs|)
    ensures IncorrectUpTo(true, pairs, MatchConnect.MatchesJson(m), n).Ok?
    ensures |IncorrectUpTo(true, pairs, MatchConnect.MatchesJson(m), n).value| == n - CorrectBelow(m, n)
  {
    if n > 0 {
      IncorrectPairsCount(pairs, m, n - 1);
      IncorrectPairsStep(pairs, m, n);
    }
  }

  lemma IncorrectPairsStep(pairs: seq<JsonValue>, m: map<nat, string>, n: nat)
    requires 0 < n <= |pairs|
    requires forall i :: 0 <= i < |pairs| ==> pairs[i] != JNull
    requires forall t :: t in m ==> t < |pairs| && m[t] in MatchConnect.DefIds(|pairs|)
    requires IncorrectUpTo(true, pairs, MatchConnect.MatchesJson(m), n - 1).Ok?
    requires |IncorrectUpTo(true, pairs, MatchConnect.MatchesJson(m), n - 1).value| == n - 1 - CorrectBelow(m, n - 1)
    ensures IncorrectUpTo(true, pairs, MatchConnect.MatchesJson(m), n).Ok?
    ensures |IncorrectUpTo(true, pairs, MatchConnect.MatchesJson(m), n).value| == n - CorrectBelow(m, n)
  {
    var correct := if n - 1 in m && MatchConnect.IsCorrectMatch(m, n - 1) then 1 else 0;
    PairVerdictOfMatches(pairs, m, n - 1);
    IncorrectPairStep(pairs, MatchConnect.MatchesJson(m), n, correct);
    assert CorrectBelow(m, n) == CorrectBelow(m, n - 1) + correct;
  }

  /** Pair `n - 1` adds one entry to the list exactly when it is not correct. */
  lemma IncorrectPairStep(pairs: seq<JsonValue>, answers: JsonValue, n: nat, correct: nat)
    requires 0 < n <= |pairs| && correct <= 1
    requires IncorrectUpTo(true, pairs, answers, n - 1).Ok?
    requires PairVerdict(pairs, answers, n - 1).Ok?
    requires PairVerdict(pairs, answers, n - 1).value.None? <==> correct == 1
    ensures IncorrectUpTo(true, pairs, answers, n).Ok?
    ensures |IncorrectUpTo(true, pairs, answers, n).value| == |IncorrectUpTo(true, pairs, answers, n - 1).value| + 1 - correct
  {
    var v := PairVerdict(pairs, answers, n - 1);
    assert Verdict(true, pairs, answers, n - 1) == v;
  }

  /**
   * The review of a submitted matching quiz agrees with its score: with no
   * `null` pair, every pair the page did not score correct is listed, and
   * no other.
   */
  lemma MatchingReviewAgrees(pairs: seq<JsonValue>, m: map<nat, string>)
    requires forall i :: 0 <= i < |pairs| ==> pairs[i] != JNull
    requires forall t :: t in m ==> t < |pairs| && m[t] in MatchConnect.DefIds(|pairs|)
    ensures var r := IncorrectQuestions(Some(JStr("Match & Connect")), JArr(pairs), MatchConnect.MatchesJson(m));
      r.Ok? && |r.value| == |pairs| - MatchConnect.Score(m, MatchConnect.KeysBelow(m, |pairs|)).0
  {
    IncorrectPairsCount(pairs, m, |pairs|);
    assert IsMatching(Some(JStr("Match & Connect")));
    ScoreBelow(m, |pairs|);
  }

  /** The matching page's correct count over the keys below `n` is the number of indices matched correctly. */
  lemma {:induction false} ScoreBelow(m: map<nat, string>, n: nat)
    ensures MatchConnect.Score(m, MatchConnect.KeysBelow(m, n)).0 == CorrectBelow(m, n)
  {
    if n > 0 {
      ScoreBelow(m, n - 1);
      ScoreBelowStep(m, n);
    }
  }

  // ---------------------------------------------------------------------
  // Loading the review data
  // ---------------------------------------------------------------------

  datatype Review = Review(quizType: Option<JsonValue>, results: JsonValue, allQuestions: JsonValue, userAnswers: JsonValue)

  function ParseAt(str: Option<string>, parse: string -> Result<JsonValue>, default: JsonValue): Result<JsonValue>
  {
    if str.Some? && str.value != [] then parse(str.value) else Ok(default)
  }

  /**
   * `loadResults`, up to displaying: the stored results must be present;
   * a matching quiz reviews the stored `pairs` (or none) against the stored
   * matches, the other types the stored questions against the stored
   * answers; a value that is missing leaves the review empty.
   */
  function LoadReview(resultsStr: Option<string>, questionsStr: Option<string>, userMatchesStr: Option<string>,
                      userAnswersStr: Option<string>, parse: string -> Result<JsonValue>): (r: Result<Review>)
    ensures (resultsStr.None? || resultsStr == Some([])) ==> r.Err?
    ensures r.Ok? && (questionsStr.None? || questionsStr == Some([])) ==> r.value.allQuestions == JArr([])
  {
    if resultsStr.None? || resultsStr.value == [] then Err("No quiz results found. Please complete a quiz first.")
    else
      var results := parse(resultsStr.value);
      if results.Err? then Err(results.error)
      else if results.value == JNull then Err("Cannot read properties of null")
      else
        var quizType := Get(results.value, "quizType");
        if questionsStr.None? || questionsStr.value == [] then Ok(Review(quizType, results.value, JArr([]), JArr([])))
        else
          var data := parse(questionsStr.value);
          if data.Err? then Err(data.error)
          else if IsMatching(quizType) then
            if data.value == JNull then Err("Cannot read properties of null")
            else
              var pairs := Get(data.value, "pairs");
              var answers := ParseAt(userMatchesStr, parse, JArr([]));
              if answers.Err? then Err(answers.error)
              else Ok(Review(quizType, results.value, if TruthyOpt(pairs) then pairs.value else JArr([]), answers.value))
          else
            var answers := ParseAt(userAnswersStr, parse, JArr([]));
            if answers.Err? then Err(answers.error)
            else Ok(Review(quizType, results.value, data.value, answers.value))
  }

  /**
   * The identification and multiple-choice pages store no questions of
   * their own: the stored questions are the ones the hub drew, in its
   * order, while the stored answers follow the page's shuffled order. Two
   * questions shown in swapped order and both answered right are both
   * listed as incorrect.
   */
  lemma ShuffledAnswersMisaligned()
    ensures var q0 := JObj(map["answer" := JStr("x")]);
      var q1 := JObj(map["answer" := JStr("y")]);
      IncorrectQuestions(Some(JStr("Identification")), JArr([q0, q1]), JArr([JStr("y"), JStr("x")]))
        == Ok([WrongAnswer(q0, Some(JStr("y")), 0), WrongAnswer(q1, Some(JStr("x")), 1)])
  {
    IdentificationGame.NormalOfLowerWord("x");
    IdentificationGame.NormalOfLowerWord("y");
    WrongStringAnswer("x", "y");
    WrongStringAnswer("y", "x");
    var q0 := JObj(map["answer" := JStr("x")]);
    var q1 := JObj(map["answer" := JStr("y")]);
    ListedTwoWrong(q0, q1, JStr("y"), JStr("x"));
  }

  /** A string answer whose normal form differs from the question's is wrong. */
  lemma WrongStringAnswer(answer: string, userAnswer: string)
    requires userAnswer != [] && IdentificationGame.Normal(answer) != IdentificationGame.Normal(userAnswer)
    ensures CheckAnswer(JObj(map["answer" := JStr(answer)]), Some(JStr(userAnswer))) == Ok(false)
  {
    var q := JObj(map["answer" := JStr(answer)]);
    assert Get(q, "answer") == Some(JStr(answer));
    assert !Has(q, "correctIndex");
  }

  /** Two questions, outside a matching quiz, both answered wrong are both listed in order. */
  lemma ListedTwoWrong(q0: JsonValue, q1: JsonValue, u0: JsonValue, u1: JsonValue)
    requires CheckAnswer(q0, Some(u0)) == Ok(false) && CheckAnswer(q1, Some(u1)) == Ok(false)
    ensures IncorrectQuestions(Some(JStr("Identification")), JArr([q0, q1]), JArr([u0, u1]))
      == Ok([WrongAnswer(q0, Some(u0), 0), WrongAnswer(q1, Some(u1), 1)])
  {
    var items := [q0, q1];
    var answers := JArr([u0, u1]);
    var w0 := WrongAnswer(q0, Some(u0), 0);
    var w1 := WrongAnswer(q1, Some(u1), 1);
    assert Verdict(false, items, answers, 0) == Ok(Some(w0));
    assert Verdict(false, items, answers, 1) == Ok(Some(w1));
    assert IncorrectUpTo(false, items, answers, 1) == Ok([] + [w0]);
    assert [] + [w0] == [w0];
    assert IncorrectUpTo(false, items, answers, 2) == Ok([w0] + [w1]);
    assert [w0] + [w1] == [w0, w1];
    assert !IsMatching(Some(JStr("Identification")));
  }

  // ---------------------------------------------------------------------
  // The summary
  // ---------------------------------------------------------------------

  datatype Tier = Excellent | Great | GoodEffort | KeepPracticing

  function TierRank(t: Tier): nat
  {
    match t
    case Excellent => 3
    case Great => 2
    case GoodEffort => 1
    case KeepPracticing => 0
  }

  /** `updateResultsTitle`: the thresholds 90, 70 and 50; a `NaN` percentage fails them all. */
  function ResultsTitle(percentage: Option<int>): (r: Tier)
    ensures r == Excellent <==> percentage.Some? && percentage.value >= 90
    ensures r == KeepPracticing <==> percentage.None? || percentage.value < 50
  {
    if percentage.None? then KeepPracticing
    else if percentage.value >= 90 then Excellent
    else if percentage.value >= 70 then Great
    else if percentage.value >= 50 then GoodEffort
    else KeepPracticing
  }

  /** A higher percentage never earns a lower title. */
  lemma ResultsTitleMonotone(p: int, q: int)
    requires p <= q
    ensures TierRank(ResultsTitle(Some(p))) <= TierRank(ResultsTitle(Some(q)))
  {
  }

  /** `formatTime`: a missing or zero time is shown as 0:00; otherwise minutes, a colon and two-digit seconds. */
  function FormatTime(seconds: Option<nat>): string
  {
    if seconds.None? || seconds.value == 0 then "0:00"
    else NatToString(seconds.value / 60) + ":" + PadTwo(NatToString(seconds.value % 60))
  }

  /** The number of seconds a displayed time stands for. */
  function TimeValue(s: string): Option<nat>
  {
    TimeOfParts(SplitChar(s, ':'))
  }

  /** Minutes and two-digit seconds below 60, as the pieces around the colon. */
  function TimeOfParts(parts: seq<string>): Option<nat>
  {
    if |parts| == 2 && |parts[1]| == 2 && AllDigits(parts[0]) && AllDigits(parts[1]) && DecimalValue(parts[1]) < 60
    then Some(DecimalValue(parts[0]) * 60 + DecimalValue(parts[1]))
    else None
  }

  predicate AllDigits(s: string)
  {
    forall k :: 0 <= k < |s| ==> IsDigit(s[k])
  }

  lemma {:induction false} DecimalLeadingZero(s: string)
    requires AllDigits(s)
    ensures AllDigits("0" + s)
    ensures DecimalValue("0" + s) == DecimalValue(s)
  {
    if s != [] {
      assert ("0" + s)[..|"0" + s| - 1] == "0" + s[..|s| - 1];
      DecimalLeadingZero(s[..|s| - 1]);
    }
  }

  /** The seconds part of a displayed time: two digits standing for the seconds. */
  lemma PaddedSeconds(x: nat)
    requires x < 60
    ensures AllDigits(PadTwo(NatToString(x)))
    ensures |PadTwo(NatToString(x))| == 2
    ensures DecimalValue(PadTwo(NatToString(x))) == x
  {
    var secs := NatToString(x);
    DecimalOfNatToString(x);
    if x < 10 {
      assert PadTwo(secs) == "0" + secs;
      DecimalLeadingZero(secs);
    } else {
      assert secs == NatToString(x / 10) + [DigitChar(x % 10)];
    }
  }

  /** Digits, a colon and two digits below 60 read back as minutes and seconds. */
  lemma TimeValueOfParts(mins: string, secs: string)
    requires AllDigits(mins) && AllDigits(secs) && |secs| == 2 && DecimalValue(secs) < 60
    ensures TimeValue(mins + ":" + secs) == Some(DecimalValue(mins) * 60 + DecimalValue(secs))
  {
    DigitsHaveNoColon(mins);
    DigitsHaveNoColon(secs);
    ColonSplit(mins, secs);
    TimeValueOfSplit(mins + ":" + secs, mins, secs);
  }

  lemma ColonSplit(a: string, b: string)
    requires ':' !in a && ':' !in b
    ensures SplitChar(a + ":" + b, ':') == [a, b]
  {
    SplitNone(b, ':');
    SplitCons(a, b, ':');
  }

  lemma TimeValueOfSplit(s: string, mins: string, secs: string)
    requires SplitChar(s, ':') == [mins, secs]
    requires AllDigits(mins) && AllDigits(secs) && |secs| == 2 && DecimalValue(secs) < 60
    ensures TimeValue(s) == Some(DecimalValue(mins) * 60 + DecimalValue(secs))
  {
    TimeOfTwoParts(mins, secs);
  }

  lemma TimeOfTwoParts(mins: string, secs: string)
    requires AllDigits(mins) && AllDigits(secs) && |secs| == 2 && DecimalValue(secs) < 60
    ensures TimeOfParts([mins, secs]) == Some(DecimalValue(mins) * 60 + DecimalValue(secs))
  {
  }

  lemma DigitsHaveNoColon(s: string)
    requires AllDigits(s)
    ensures ':' !in s
  {
  }

  lemma ZeroTimeReadsBack()
    ensures TimeValue("0:00") == Some(0)
  {
    assert "0:00" == "0" + ":" + "00";
    assert DecimalValue("00") == 0 by {
      assert "00"[..1] == "0";
    }
    TimeValueOfParts("0", "00");
  }

  /** The display reads back as the time shown, with seconds as two digits below 60. */
  lemma FormatTimeRoundTrip(seconds: nat)
    ensures TimeValue(FormatTime(Some(seconds))) == Some(seconds)
  {
    if seconds == 0 {
      ZeroTimeReadsBack();
    } else {
      DecimalOfNatToString(seconds / 60);
      PaddedSeconds(seconds % 60);
      TimeValueOfParts(NatToString(seconds / 60), PadTwo(NatToString(seconds % 60)));
    }
  }

  // ---------------------------------------------------------------------
  // Recording an answer
  // ---------------------------------------------------------------------

  /** `answers[i] = answer` on an array: holes before `i` are stored as `null`. */
  function SetAt(items: seq<JsonValue>, i: nat, answer: JsonValue): (r: seq<JsonValue>)
    ensures |r| == if i < |items| then |items| else i + 1
    ensures r[i] == answer
    ensures forall k :: 0 <= k < |r| && k != i ==> r[k] == if k < |items| then items[k] else JNull
  {
    if i < |items| then items[i := answer]
    else items + seq(i - |items|, _ => JNull) + [answer]
  }

  /**
   * `storeUserAnswer`: the stored answers (none stored read as an empty
   * array) with the answer set at the index; on an object the index names
   * a property; the assignment throws on `null` and is lost on any other
   * primitive.
   */
  function StoreUserAnswer(answersStr: Option<string>, parse: string -> Result<JsonValue>, questionIndex: nat,
                           answer: JsonValue): Result<JsonValue>
  {
    var answers := ParseAt(answersStr, parse, JArr([]));
    if answers.Err? then answers
    else match answers.value
      case JNull => Err("Cannot set properties of null")
      case JArr(items) => Ok(JArr(SetAt(items, questionIndex, answer)))
      case JObj(fields) => Ok(JObj(fields[NatToString(questionIndex) := answer]))
      case other => Ok(other)
  }

  /** After storing, reading the index gives the answer back, and every other index reads as before. */
  lemma StoreUserAnswerReads(answersStr: Option<string>, parse: string -> Result<JsonValue>, i: nat, answer: JsonValue, j: nat)
    requires var a := ParseAt(answersStr, parse, JArr([])); a.Ok? && (a.value.JArr? || a.value.JObj?)
    ensures var a := ParseAt(answersStr, parse, JArr([])).value;
      var r := StoreUserAnswer(answersStr, parse, i, answer);
      r.Ok? && ItemAt(r.value, i) == Ok(Some(answer))
      && (j != i ==> ItemAt(r.value, j) == (if a.JArr? && |a.items| <= j < i then Ok(Some(JNull)) else ItemAt(a, j)))
  {
    NatToStringInjective();
  }
}
