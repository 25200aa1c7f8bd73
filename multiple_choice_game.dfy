/**
 * The multiple-choice quiz page: one click or key per question picks one of
 * four options, and the page keeps the index, score and answers of the
 * session as it goes.
 */
module MultipleChoiceGame {
  import opened TextUtil
  import opened Json
  import opened QuizSession

  /** The load filter: a truthy `question`, an array of exactly four `options`, a numeric `correctIndex`. */
  predicate ValidQuestion(q: JsonValue)
  {
    TruthyOpt(Get(q, "question"))
    && Get(q, "options").Some? && Get(q, "options").value.JArr? && |Get(q, "options").value.items| == 4
    && Get(q, "correctIndex").Some? && Get(q, "correctIndex").value.JNum?
  }

  /** `answerIndex === question.correctIndex`. */
  predicate IsCorrect(q: JsonValue, answerIndex: nat)
  {
    StrictEquals(Some(JNum(answerIndex as real)), Get(q, "correctIndex"))
  }

  /** An answer is right exactly when the stored index is that number. */
  lemma IsCorrectIff(q: JsonValue, answerIndex: nat)
    requires ValidQuestion(q)
    ensures IsCorrect(q, answerIndex) <==> Get(q, "correctIndex").value.n == answerIndex as real
  {
  }

  /** The range of `correctIndex` is not checked: a question whose index is not 0 to 3 can never be answered right. */
  lemma OutOfRangeNeverCorrect(q: JsonValue, answerIndex: nat)
    requires ValidQuestion(q) && answerIndex < 4
    requires Get(q, "correctIndex").value.n !in {0.0, 1.0, 2.0, 3.0}
    ensures !IsCorrect(q, answerIndex)
  {
  }

  /** The keyboard shortcuts: `a`/`1` to `d`/`4`, in either case, pick options 0 to 3. */
  function KeyOption(key: string): (r: Option<nat>)
    ensures r.Some? ==> r.value < 4
  {
    var k := Lower(key);
    if k == "a" || k == "1" then Some(0)
    else if k == "b" || k == "2" then Some(1)
    else if k == "c" || k == "3" then Some(2)
    else if k == "d" || k == "4" then Some(3)
    else None
  }

  /** Upper- and lower-case letters and the digits select the same option, and nothing else selects one. */
  lemma KeyOptionIff(key: string, option: nat)
    ensures KeyOption(key) == Some(option) <==>
      (option < 4 && (Lower(key) == ["abcd"[option]] || key == ["1234"[option]]))
  {
    var k := Lower(key);
    if |key| == 1 {
      assert k == [LowerChar(key[0])];
    }
    if option < 4 && key == ["1234"[option]] {
      assert k == key;
    }
    if KeyOption(key).Some? {
      assert |k| == 1;
      if k[0] in "1234" {
        assert !IsUpper(key[0]);
        assert key == k;
      }
    }
  }

  /**
   * The page's session after a successful load. `results` is what
   * `endQuiz` stores when the quiz ends; the page then leaves.
   */
  class Session {
    var difficulty: Option<JsonValue>
    var questions: seq<JsonValue>
    var currentQuestionIndex: nat
    var score: nat
    var userAnswers: seq<Option<nat>>
    var selectedAnswer: Option<nat>
    var results: Option<QuizResults>

    /** Each question scores at most once: the score never passes the number of answered questions. */
    predicate Valid()
      reads this
    {
      questions != [] && (forall k :: 0 <= k < |questions| ==> ValidQuestion(questions[k]))
      && |userAnswers| == |questions| && currentQuestionIndex < |questions|
      && score <= currentQuestionIndex + (if selectedAnswer.Some? then 1 else 0)
    }

    /** `initQuizUI` after `loadQuizData`: no answers yet, the first question shown. */
    constructor(loaded: Loaded)
      requires loaded.questions != []
      requires forall k :: 0 <= k < |loaded.questions| ==> ValidQuestion(loaded.questions[k])
      ensures Valid()
      ensures difficulty == Get(loaded.config, "difficulty") && questions == loaded.questions
      ensures currentQuestionIndex == 0 && score == 0 && selectedAnswer.None? && results.None?
      ensures userAnswers == seq(|loaded.questions|, _ => None)
    {
      difficulty := Get(loaded.config, "difficulty");
      questions := loaded.questions;
      currentQuestionIndex := 0;
      score := 0;
      userAnswers := seq(|loaded.questions|, _ => None);
      selectedAnswer := None;
      results := None;
    }

    /** The results record for an end with the given reason. */
    function Results(reason: string): (r: QuizResults)
      reads this
      requires Valid()
      ensures r.quizType == "Multiple Choice" && r.reason == reason
      ensures r.totalQuestions == |questions| && r.correctAnswers == score
      ensures r.correctAnswers + r.wrongAnswers == r.totalQuestions && r.wrongAnswers >= 0
      ensures r.percentage.Some? && 0 <= r.percentage.value <= 100
    {
      ResultsConsistent("Multiple Choice", difficulty, |questions|, score, reason);
      ResultsOf("Multiple Choice", difficulty, |questions|, score, |questions| - score, reason)
    }

    /**
     * `selectAnswer(answerIndex)` for one of the four option buttons. Only
     * the first selection of a question counts; it is recorded and scores
     * when it is the stored index.
     */
    method SelectAnswer(answerIndex: nat)
      requires Valid() && results.None? && answerIndex < 4
      modifies this
      ensures Valid()
      ensures old(selectedAnswer).Some? ==> unchanged(this)
      ensures old(selectedAnswer).None? ==>
        (questions == old(questions) && difficulty == old(difficulty) && results == old(results)
         && currentQuestionIndex == old(currentQuestionIndex)
         && selectedAnswer == Some(answerIndex)
         && userAnswers == old(userAnswers)[currentQuestionIndex := Some(answerIndex)]
         && score == old(score) + (if IsCorrect(questions[currentQuestionIndex], answerIndex) then 1 else 0))
    {
      if selectedAnswer.Some? {
        return;
      }
      selectedAnswer := Some(answerIndex);
      userAnswers := userAnswers[currentQuestionIndex := Some(answerIndex)];
      if IsCorrect(questions[currentQuestionIndex], answerIndex) {
        score := score + 1;
      }
    }

    /** The keyboard handler: a shortcut answers only while the question is unanswered. */
    method KeyDown(key: string)
      requires Valid() && results.None?
      modifies this
      ensures Valid()
      ensures old(selectedAnswer).Some? || KeyOption(key).None? ==> unchanged(this)
      ensures old(selectedAnswer).None? && KeyOption(key).Some? ==>
        (selectedAnswer == KeyOption(key) && currentQuestionIndex == old(currentQuestionIndex)
         && userAnswers == old(userAnswers)[currentQuestionIndex := KeyOption(key)]
         && score == old(score) + (if IsCorrect(questions[currentQuestionIndex], KeyOption(key).value) then 1 else 0))
    {
      if selectedAnswer.Some? {
        return;
      }
      var option := KeyOption(key);
      if option.Some? {
        SelectAnswer(option.value);
      }
    }

    /**
     * `nextQuestion` after an answer that is not the last: by the Next
     * button or by the auto-advance, the next question is shown unanswered.
     */
    method NextQuestion()
      requires Valid() && results.None? && selectedAnswer.Some? && currentQuestionIndex < |questions| - 1
      modifies this
      ensures Valid()
      ensures questions == old(questions) && difficulty == old(difficulty) && results == old(results)
      ensures score == old(score) && userAnswers == old(userAnswers)
      ensures currentQuestionIndex == old(currentQuestionIndex) + 1 && selectedAnswer.None?
    {
      currentQuestionIndex := currentQuestionIndex + 1;
      selectedAnswer := None;
    }

    /** After the last answer the quiz ends as completed. */
    method Finish()
      requires Valid() && results.None? && selectedAnswer.Some? && currentQuestionIndex == |questions| - 1
      modifies this
      ensures Valid()
      ensures questions == old(questions) && score == old(score) && userAnswers == old(userAnswers)
      ensures currentQuestionIndex == old(currentQuestionIndex) && selectedAnswer == old(selectedAnswer)
      ensures results == Some(old(Results("completed")))
    {
      results := Some(Results("completed"));
    }

    /** The countdown reaching zero ends the quiz wherever it stands. */
    method Timeout()
      requires Valid() && results.None?
      modifies this
      ensures Valid()
      ensures questions == old(questions) && score == old(score) && userAnswers == old(userAnswers)
      ensures currentQuestionIndex == old(currentQuestionIndex) && selectedAnswer == old(selectedAnswer)
      ensures results == Some(old(Results("timeout")))
    {
      results := Some(Results("timeout"));
    }
  }
}
