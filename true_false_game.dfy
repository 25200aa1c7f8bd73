/**
 * The true-or-false quiz page. Its stored questions are shuffled but never
 * checked, an answer is scored by strict equality with the stored
 * `answer`, and the page moves on by itself after each answer.
 */
module TrueFalseGame {
  import opened TextUtil
  import opened Json
  import opened QuizSession
  import Shuffle

  /**
   * `loadQuizData`: the stored questions spread into an array and
   * shuffled, whatever they hold; a value that cannot be spread ends the load.
   */
  function LoadQuizData(configStr: Option<string>, questionsStr: Option<string>,
                        parse: string -> Result<JsonValue>, draws: seq<nat>): (r: Option<Loaded>)
  {
    var stored := ReadStored(configStr, questionsStr, parse);
    if stored.None? then None
    else
      var spread := Spread(stored.value.1);
      if spread.Err? then None else Some(Loaded(stored.value.0, Shuffle.Permute(spread.value, draws)))
  }

  /** A stored array loads as a reordering of itself, an empty one included; only arrays and strings load. */
  lemma LoadQuizDataShape(configStr: Option<string>, questionsStr: Option<string>,
                          parse: string -> Result<JsonValue>, draws: seq<nat>)
    ensures var r := LoadQuizData(configStr, questionsStr, parse, draws);
      var stored := ReadStored(configStr, questionsStr, parse);
      (r.Some? <==> stored.Some? && (stored.value.1.JArr? || stored.value.1.JStr?))
      && (r.Some? && stored.value.1.JArr? ==>
            r.value.config == stored.value.0 && multiset(r.value.questions) == multiset(stored.value.1.items))
  {
    var stored := ReadStored(configStr, questionsStr, parse);
    if stored.Some? && stored.value.1.JArr? {
      Shuffle.PermuteIsPermutation(stored.value.1.items, draws);
    }
  }

  /** `answer === question.answer`. */
  predicate IsCorrect(q: JsonValue, answer: bool)
  {
    StrictEquals(Some(JBool(answer)), Get(q, "answer"))
  }

  /** Only a boolean `answer` can be matched: the string "true" is wrong whatever is chosen. */
  lemma StringAnswerNeverCorrect(q: JsonValue, answer: bool)
    requires Get(q, "answer").Some? && Get(q, "answer").value.JStr?
    ensures !IsCorrect(q, answer)
  {
  }

  /** A boolean `answer` is matched by exactly that choice. */
  lemma BooleanAnswerIff(q: JsonValue, answer: bool)
    requires Get(q, "answer").Some? && Get(q, "answer").value.JBool?
    ensures IsCorrect(q, answer) <==> Get(q, "answer").value.b == answer
  {
  }

  /** The keyboard shortcuts: left arrow or `f` for false, right arrow or `t` for true. */
  function KeyAnswer(key: string): (r: Option<bool>)
    ensures r == Some(false) <==> key in {"ArrowLeft", "f", "F"}
    ensures r == Some(true) <==> key in {"ArrowRight", "t", "T"}
  {
    if key == "ArrowLeft" || key == "f" || key == "F" then Some(false)
    else if key == "ArrowRight" || key == "t" || key == "T" then Some(true)
    else None
  }

  /**
   * The page's session after a successful load. `results` and
   * `storedQuestions` are what `endQuiz` stores when the quiz ends; the
   * page then leaves.
   */
  class Session {
    var difficulty: Option<JsonValue>
    var questions: seq<JsonValue>
    var currentQuestionIndex: nat
    var score: nat
    var userAnswers: seq<Option<bool>>
    var buttonsDisabled: bool
    var advancePending: bool
    var results: Option<QuizResults>
    var storedQuestions: Option<seq<JsonValue>>

    /**
     * The buttons are enabled only on a shown question that is not `null`
     * (showing a `null` question throws and leaves them disabled), and each
     * question scores at most once.
     */
    predicate Valid()
      reads this
    {
      |userAnswers| == |questions| && currentQuestionIndex <= |questions|
      && (results.None? && !buttonsDisabled ==>
            currentQuestionIndex < |questions| && questions[currentQuestionIndex] != JNull)
      && (advancePending ==> buttonsDisabled && currentQuestionIndex < |questions|)
      && score <= currentQuestionIndex + (if advancePending then 1 else 0)
      && (results.Some? ==> storedQuestions == Some(questions))
    }

    function Results(reason: string): (r: QuizResults)
      reads this
      requires Valid()
      ensures r.quizType == "True or False" && r.reason == reason
      ensures r.totalQuestions == |questions| && r.correctAnswers == score
      ensures r.correctAnswers + r.wrongAnswers == r.totalQuestions && r.wrongAnswers >= 0
      ensures r.percentage.None? <==> questions == []
      ensures questions != [] ==> 0 <= r.percentage.value <= 100
    {
      var r := ResultsOf("True or False", difficulty, |questions|, score, |questions| - score, reason);
      if questions == [] then r
      else ResultsConsistent("True or False", difficulty, |questions|, score, reason); r
    }

    /**
     * `initQuizUI`: the first question is shown. An empty array ends the
     * quiz at once, with no percentage (JavaScript's `NaN`).
     */
    constructor(loaded: Loaded)
      ensures Valid()
      ensures difficulty == Get(loaded.config, "difficulty") && questions == loaded.questions
      ensures currentQuestionIndex == 0 && score == 0 && !advancePending
      ensures userAnswers == seq(|loaded.questions|, _ => None)
      ensures loaded.questions == [] ==> results == Some(Results("completed")) && results.value.percentage.None?
      ensures loaded.questions != [] ==> results.None? && (buttonsDisabled <==> loaded.questions[0] == JNull)
    {
      difficulty := Get(loaded.config, "difficulty");
      questions := loaded.questions;
      currentQuestionIndex := 0;
      score := 0;
      userAnswers := seq(|loaded.questions|, _ => None);
      advancePending := false;
      results := None;
      storedQuestions := None;
      buttonsDisabled := true;
      new;
      if loaded.questions == [] {
        storedQuestions := Some(loaded.questions);
        results := Some(Results("completed"));
      } else {
        buttonsDisabled := loaded.questions[0] == JNull;
      }
    }

    /**
     * `selectAnswer(answer)` from an enabled button: the answer is recorded
     * at the current index, scores when it equals the stored `answer`, and
     * the buttons stay disabled until the page advances.
     */
    method SelectAnswer(answer: bool)
      requires Valid() && results.None? && !buttonsDisabled
      modifies this
      ensures Valid()
      ensures questions == old(questions) && difficulty == old(difficulty) && results == old(results)
      ensures currentQuestionIndex == old(currentQuestionIndex)
      ensures userAnswers == old(userAnswers)[currentQuestionIndex := Some(answer)]
      ensures score == old(score) + (if IsCorrect(questions[currentQuestionIndex], answer) then 1 else 0)
      ensures buttonsDisabled && advancePending
    {
      userAnswers := userAnswers[currentQuestionIndex := Some(answer)];
      if IsCorrect(questions[currentQuestionIndex], answer) {
        score := score + 1;
      }
      buttonsDisabled := true;
      advancePending := true;
    }

    /** The keyboard handler: a shortcut answers only while the buttons are enabled. */
    method KeyDown(key: string)
      requires Valid() && results.None?
      modifies this
      ensures Valid()
      ensures old(buttonsDisabled) || KeyAnswer(key).None? ==> unchanged(this)
      ensures !old(buttonsDisabled) && KeyAnswer(key).Some? ==>
        (questions == old(questions) && currentQuestionIndex == old(currentQuestionIndex)
         && userAnswers == old(userAnswers)[currentQuestionIndex := KeyAnswer(key)]
         && score == old(score) + (if IsCorrect(questions[currentQuestionIndex], KeyAnswer(key).value) then 1 else 0)
         && buttonsDisabled && advancePending)
    {
      var answer := KeyAnswer(key);
      if answer.Some? && !buttonsDisabled {
        SelectAnswer(answer.value);
      }
    }

    /**
     * The auto-advance 2.5 seconds after an answer: the index moves on and
     * `displayQuestion` either ends the quiz, once the index reaches the
     * question count, or shows the next question.
     */
    method Advance()
      requires Valid() && results.None? && advancePending
      modifies this
      ensures Valid()
      ensures questions == old(questions) && score == old(score) && userAnswers == old(userAnswers)
      ensures currentQuestionIndex == old(currentQuestionIndex) + 1 && !advancePending
      ensures currentQuestionIndex == |questions| ==>
        results == Some(Results("completed")) && storedQuestions == Some(questions)
      ensures currentQuestionIndex < |questions| ==>
        results.None? && (buttonsDisabled <==> questions[currentQuestionIndex] == JNull)
    {
      currentQuestionIndex := currentQuestionIndex + 1;
      advancePending := false;
      if currentQuestionIndex >= |questions| {
        storedQuestions := Some(questions);
        results := Some(Results("completed"));
      } else {
        buttonsDisabled := questions[currentQuestionIndex] == JNull;
      }
    }

    /** The countdown reaching zero ends the quiz wherever it stands. */
    method Timeout()
      requires Valid() && results.None?
      modifies this
      ensures Valid()
      ensures questions == old(questions) && score == old(score) && userAnswers == old(userAnswers)
      ensures currentQuestionIndex == old(currentQuestionIndex)
      ensures storedQuestions == Some(questions)
      ensures results == Some(Results("timeout"))
    {
      storedQuestions := Some(questions);
      results := Some(Results("timeout"));
    }
  }
}
