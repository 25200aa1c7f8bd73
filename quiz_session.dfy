/**
 * What the quiz pages share: reading the two strings the games hub stored
 * for them, and the results record each page stores when its quiz ends.
 * The time taken is read from the clock and is not part of the model.
 */
module QuizSession {
  import opened TextUtil
  import opened Json
  import Shuffle

  /**
   * `Math.round((score / total) * 100)`. `None` is the `NaN` of a quiz
   * without questions. The result is the integer nearest to
   * `100 * score / total`, halves rounded up.
   */
  function Percentage(score: nat, total: nat): (r: Option<int>)
    ensures r.None? <==> total == 0
    ensures r.Some? ==> 2 * total * r.value <= 200 * score + total < 2 * total * r.value + 2 * total
  {
    if total == 0 then None
    else
      var p := (200 * score + total) / (2 * total);
      DivBounds(200 * score + total, 2 * total);
      Some(p)
  }

  lemma DivBounds(a: nat, b: nat)
    requires b > 0
    ensures b * (a / b) <= a < b * (a / b) + b
  {
  }

  lemma SignOfMultiple(t: int, x: int)
    requires t > 0
    ensures t * x <= 0 ==> x <= 0
    ensures t * x >= 0 ==> x >= 0
  {
    if x > 0 {
      assert t * x >= t;
    } else if x < 0 {
      assert t * x <= -t;
    }
  }

  /**
   * A score within the question count gives a percentage from 0 to 100;
   * a full score gives 100 and no correct answer gives 0.
   */
  lemma PercentageRange(score: nat, total: nat)
    requires 0 < total && score <= total
    ensures Percentage(score, total).Some?
    ensures 0 <= Percentage(score, total).value <= 100
    ensures score == total ==> Percentage(score, total).value == 100
    ensures score == 0 ==> Percentage(score, total).value == 0
  {
    var p := Percentage(score, total).value;
    assert 2 * total * p <= 200 * score + total < 2 * total * p + 2 * total;
    assert total * (2 * p - 201) == 2 * total * p - 201 * total;
    SignOfMultiple(total, 2 * p - 201);
    assert total * (2 * p + 1) == 2 * total * p + total;
    SignOfMultiple(total, 2 * p + 1);
    if score == total {
      assert total * (2 * p - 199) == 2 * total * p - 199 * total;
      SignOfMultiple(total, 2 * p - 199);
    }
    if score == 0 {
      assert total * (2 * p - 1) == 2 * total * p - total;
      SignOfMultiple(total, 2 * p - 1);
    }
  }

  /** Rounding is not exact: with 200 questions, one wrong answer still reports 100 percent. */
  lemma NearlyAllRoundsToFull()
    ensures Percentage(199, 200) == Some(100)
  {
  }

  /** The record `endQuiz` stores under `quizResults`, without the time taken. */
  datatype QuizResults = QuizResults(quizType: string, difficulty: Option<JsonValue>, totalQuestions: nat,
                                     correctAnswers: nat, wrongAnswers: int, percentage: Option<int>,
                                     reason: string)

  function ResultsOf(quizType: string, difficulty: Option<JsonValue>, total: nat, correct: nat,
                     wrong: int, reason: string): QuizResults
  {
    QuizResults(quizType, difficulty, total, correct, wrong, Percentage(correct, total), reason)
  }

  /**
   * A results record built from a score within the question count, with
   * the remaining questions as wrong answers, adds up and has a percentage.
   */
  lemma ResultsConsistent(quizType: string, difficulty: Option<JsonValue>, total: nat, score: nat, reason: string)
    requires 0 < total && score <= total
    ensures var r := ResultsOf(quizType, difficulty, total, score, total - score, reason);
      r.correctAnswers + r.wrongAnswers == r.totalQuestions && r.wrongAnswers >= 0
      && r.percentage.Some? && 0 <= r.percentage.value <= 100
  {
    PercentageRange(score, total);
  }

  /**
   * The start of every quiz page's `loadQuizData`: the two strings must be
   * present and non-empty, both must parse, and neither parsed value may
   * be `null`, since reading a property of it (the quiz type, the length of
   * the questions, the pairs) throws and the page returns to the hub.
   */
  function ReadStored(configStr: Option<string>, questionsStr: Option<string>,
                      parse: string -> Result<JsonValue>): (r: Option<(JsonValue, JsonValue)>)
    ensures r.Some? <==>
      (configStr.Some? && configStr.value != [] && questionsStr.Some? && questionsStr.value != []
       && parse(configStr.value).Ok? && parse(questionsStr.value).Ok?
       && parse(configStr.value).value != JNull && parse(questionsStr.value).value != JNull)
    ensures r.Some? ==> r.value == (parse(configStr.value).value, parse(questionsStr.value).value)
  {
    if configStr.None? || configStr.value == [] || questionsStr.None? || questionsStr.value == [] then None
    else
      var config := parse(configStr.value);
      var questions := parse(questionsStr.value);
      if config.Err? || questions.Err? || config.value == JNull || questions.value == JNull then None
      else Some((config.value, questions.value))
  }

  datatype Loaded = Loaded(config: JsonValue, questions: seq<JsonValue>)

  /**
   * `loadQuizData` of the identification and multiple-choice pages, with
   * the page's own filter `valid`. The stored questions must be an array
   * (only arrays have `filter`), and a `null` element makes the filter
   * throw; the valid questions are shuffled with the given random draws.
   */
  function LoadFiltered(configStr: Option<string>, questionsStr: Option<string>,
                        parse: string -> Result<JsonValue>, valid: JsonValue -> bool,
                        draws: seq<nat>): Option<Loaded>
  {
    var stored := ReadStored(configStr, questionsStr, parse);
    if stored.None? || !stored.value.1.JArr? || JNull in stored.value.1.items then None
    else
      var kept := Filter(stored.value.1.items, valid);
      if kept == [] then None else Some(Loaded(stored.value.0, Shuffle.Permute(kept, draws)))
  }

  /**
   * A successful load holds at least one question, every one of them
   * valid, and exactly the valid stored questions, reordered; a stored array
   * without a valid question is refused.
   */
  lemma LoadFilteredShape(configStr: Option<string>, questionsStr: Option<string>,
                          parse: string -> Result<JsonValue>, valid: JsonValue -> bool, draws: seq<nat>)
    ensures var r := LoadFiltered(configStr, questionsStr, parse, valid, draws);
      var stored := ReadStored(configStr, questionsStr, parse);
      (r.Some? ==>
        stored.Some? && stored.value.1.JArr? && r.value.config == stored.value.0
        && r.value.questions != []
        && (forall k :: 0 <= k < |r.value.questions| ==> valid(r.value.questions[k]))
        && multiset(r.value.questions) == multiset(Filter(stored.value.1.items, valid)))
      && (stored.Some? && stored.value.1.JArr? && JNull !in stored.value.1.items
          && (forall k :: 0 <= k < |stored.value.1.items| ==> !valid(stored.value.1.items[k]))
          ==> r.None?)
  {
    var stored := ReadStored(configStr, questionsStr, parse);
    if stored.Some? && stored.value.1.JArr? && JNull !in stored.value.1.items {
      var kept := Filter(stored.value.1.items, valid);
      Shuffle.PermuteIsPermutation(kept, draws);
      var shuffled := Shuffle.Permute(kept, draws);
      forall k | 0 <= k < |shuffled|
        ensures valid(shuffled[k])
      {
        assert shuffled[k] in multiset(kept);
      }
    }
  }
}
