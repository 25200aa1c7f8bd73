/**
 * The identification quiz page: the typed answer is graded by a forgiving
 * comparison built on the Levenshtein edit distance, and the page keeps the
 * index, score and answers of the session as it goes.
 */
module IdentificationGame {
  import opened TextUtil
  import opened Json
  import opened QuizSession

  // ---------------------------------------------------------------------
  // Edit distance
  // ---------------------------------------------------------------------

  function Min3(a: nat, b: nat, c: nat): (m: nat)
    ensures m <= a && m <= b && m <= c
    ensures m == a || m == b || m == c
  {
    if a <= b && a <= c then a else if b <= c then b else c
  }

  /**
   * The Levenshtein distance, with unit costs, between the first `i`
   * characters of `s` and the first `j` characters of `t`: the entry
   * `matrix[i][j]` of `getEditDistance`, whose rows follow its second
   * argument and whose columns follow its first.
   */
  function Cell(s: string, t: string, i: nat, j: nat): nat
    requires i <= |s| && j <= |t|
    decreases i + j
  {
    if i == 0 then j
    else if j == 0 then i
    else if s[i - 1] == t[j - 1] then Cell(s, t, i - 1, j - 1)
    else Min3(Cell(s, t, i - 1, j - 1) + 1, Cell(s, t, i, j - 1) + 1, Cell(s, t, i - 1, j) + 1)
  }

  /** The value `getEditDistance(str1, str2)` returns. */
  function EditDistance(str1: string, str2: string): nat
  {
    Cell(str2, str1, |str2|, |str1|)
  }

  /** `getEditDistance`: the matrix filled row by row. */
  method GetEditDistance(str1: string, str2: string) returns (d: nat)
    ensures d == EditDistance(str1, str2)
  {
    var matrix := new nat[|str2| + 1, |str1| + 1];
    var i := 0;
    while i <= |str2|
      invariant 0 <= i <= |str2| + 1
      invariant forall r :: 0 <= r < i ==> matrix[r, 0] == r
    {
      matrix[i, 0] := i;
      i := i + 1;
    }
    var j := 0;
    while j <= |str1|
      invariant 0 <= j <= |str1| + 1
      invariant forall r :: 0 <= r <= |str2| ==> matrix[r, 0] == r
      invariant forall c :: 0 <= c < j ==> matrix[0, c] == c
    {
      matrix[0, j] := j;
      j := j + 1;
    }
    i := 1;
    while i <= |str2|
      invariant 1 <= i <= |str2| + 1
      invariant forall r, c {:trigger matrix[r, c]} :: 0 <= r < i && 0 <= c <= |str1| ==> matrix[r, c] == Cell(str2, str1, r, c)
      invariant forall r :: i <= r <= |str2| ==> matrix[r, 0] == r
    {
      FillRow(matrix, str1, str2, i);
      i := i + 1;
    }
    d := matrix[|str2|, |str1|];
  }

  /** One row of the matrix, left to right, from the row above it. */
  method FillRow(matrix: array2<nat>, str1: string, str2: string, i: nat)
    requires matrix.Length0 == |str2| + 1 && matrix.Length1 == |str1| + 1
    requires 1 <= i <= |str2|
    requires forall r, c {:trigger matrix[r, c]} :: 0 <= r < i && 0 <= c <= |str1| ==> matrix[r, c] == Cell(str2, str1, r, c)
    requires forall r :: i <= r <= |str2| ==> matrix[r, 0] == r
    modifies matrix
    ensures forall r, c {:trigger matrix[r, c]} :: 0 <= r <= i && 0 <= c <= |str1| ==> matrix[r, c] == Cell(str2, str1, r, c)
    ensures forall r :: i < r <= |str2| ==> matrix[r, 0] == r
  {
    var j := 1;
    while j <= |str1|
      invariant 1 <= j <= |str1| + 1
      invariant forall r, c {:trigger matrix[r, c]} :: 0 <= r < i && 0 <= c <= |str1| ==> matrix[r, c] == Cell(str2, str1, r, c)
      invariant forall r :: i <= r <= |str2| ==> matrix[r, 0] == r
      invariant forall c {:trigger matrix[i, c]} :: 0 <= c < j ==> matrix[i, c] == Cell(str2, str1, i, c)
    {
      var diagonal := matrix[i - 1, j - 1];
      var left := matrix[i, j - 1];
      var above := matrix[i - 1, j];
      assert diagonal == Cell(str2, str1, i - 1, j - 1);
      assert left == Cell(str2, str1, i, j - 1);
      assert above == Cell(str2, str1, i - 1, j);
      var v := if str2[i - 1] == str1[j - 1] then diagonal else Min3(diagonal + 1, left + 1, above + 1);
      assert v == Cell(str2, str1, i, j);
      matrix[i, j] := v;
      j := j + 1;
    }
  }

  /** Every cell is the distance of two prefixes: zero exactly when they are equal. */
  lemma {:induction false} CellZeroIff(s: string, t: string, i: nat, j: nat)
    requires i <= |s| && j <= |t|
    ensures Cell(s, t, i, j) == 0 <==> i == j && s[..i] == t[..j]
    decreases i + j
  {
    if i == 0 || j == 0 {
    } else if s[i - 1] == t[j - 1] {
      CellZeroIff(s, t, i - 1, j - 1);
      assert s[..i] == s[..i - 1] + [s[i - 1]];
      assert t[..j] == t[..j - 1] + [t[j - 1]];
      if i == j && s[..i] == t[..j] {
        assert s[..i - 1] == s[..i][..i - 1];
        assert t[..j - 1] == t[..j][..j - 1];
      }
    } else {
      assert s[..i][i - 1] == s[i - 1] && t[..j][j - 1] == t[j - 1];
    }
  }

  /** Swapping the strings transposes the matrix. */
  lemma {:induction false} CellSymmetric(s: string, t: string, i: nat, j: nat)
    requires i <= |s| && j <= |t|
    ensures Cell(s, t, i, j) == Cell(t, s, j, i)
    decreases i + j
  {
    if i == 0 || j == 0 {
    } else if s[i - 1] == t[j - 1] {
      CellSymmetric(s, t, i - 1, j - 1);
    } else {
      CellSymmetric(s, t, i - 1, j - 1);
      CellSymmetric(s, t, i, j - 1);
      CellSymmetric(s, t, i - 1, j);
    }
  }

  function Gap(a: nat, b: nat): nat
  {
    if a >= b then a - b else b - a
  }

  /** A cell lies between the difference of the prefix lengths and the longer prefix length. */
  lemma {:induction false} CellBounds(s: string, t: string, i: nat, j: nat)
    requires i <= |s| && j <= |t|
    ensures Gap(i, j) <= Cell(s, t, i, j) <= Max(i, j)
    decreases i + j
  {
    if i == 0 || j == 0 {
    } else if s[i - 1] == t[j - 1] {
      CellBounds(s, t, i - 1, j - 1);
    } else {
      CellBounds(s, t, i - 1, j - 1);
      CellBounds(s, t, i, j - 1);
      CellBounds(s, t, i - 1, j);
      BoundsStep(i, j, Cell(s, t, i - 1, j - 1), Cell(s, t, i, j - 1), Cell(s, t, i - 1, j));
    }
  }

  /** The bounds of the three neighbouring cells carry over to the cell that takes their minimum plus one. */
  lemma BoundsStep(i: nat, j: nat, diagonal: nat, left: nat, up: nat)
    requires i >= 1 && j >= 1
    requires Gap(i - 1, j - 1) <= diagonal <= Max(i - 1, j - 1)
    requires Gap(i, j - 1) <= left && Gap(i - 1, j) <= up
    ensures Gap(i, j) <= Min3(diagonal + 1, left + 1, up + 1) <= Max(i, j)
  {
  }

  /** `getEditDistance` is a distance: zero exactly on equal strings, and symmetric. */
  lemma EditDistanceZeroIff(a: string, b: string)
    ensures EditDistance(a, b) == 0 <==> a == b
  {
    CellZeroIff(b, a, |b|, |a|);
    assert b[..|b|] == b && a[..|a|] == a;
  }

  lemma EditDistanceSymmetric(a: string, b: string)
    ensures EditDistance(a, b) == EditDistance(b, a)
  {
    CellSymmetric(b, a, |b|, |a|);
  }

  /** Against the empty string the distance is the other string's length. */
  lemma EditDistanceToEmpty(a: string)
    ensures EditDistance(a, "") == |a| && EditDistance("", a) == |a|
  {
  }

  /** The distance is at least the difference of the lengths and at most the longer length. */
  lemma EditDistanceBounds(a: string, b: string)
    ensures Gap(|a|, |b|) <= EditDistance(a, b) <= Max(|a|, |b|)
  {
    CellBounds(b, a, |b|, |a|);
  }

  // ---------------------------------------------------------------------
  // Similarity and the forgiving answer check
  // ---------------------------------------------------------------------

  /** The longer of the two strings, the second one on a tie, as `calculateSimilarity` picks it. */
  function Longer(str1: string, str2: string): string
  {
    if |str1| > |str2| then str1 else str2
  }

  function Shorter(str1: string, str2: string): string
  {
    if |str1| > |str2| then str2 else str1
  }

  /** `calculateSimilarity`: the share of the longer string that needs no edit. */
  function Similarity(str1: string, str2: string): real
  {
    var longer := Longer(str1, str2);
    if |longer| == 0 then 1.0
    else (|longer| - EditDistance(longer, Shorter(str1, str2))) as real / |longer| as real
  }

  /** The share lies between 0 and 1, and equal strings share everything. */
  lemma SimilarityRange(str1: string, str2: string)
    ensures 0.0 <= Similarity(str1, str2) <= 1.0
    ensures str1 == str2 ==> Similarity(str1, str2) == 1.0
  {
    var longer, shorter := Longer(str1, str2), Shorter(str1, str2);
    EditDistanceBounds(longer, shorter);
    EditDistanceZeroIff(longer, shorter);
    if |longer| > 0 {
      var x := (|longer| - EditDistance(longer, shorter)) as real;
      var l := |longer| as real;
      assert 0.0 <= x <= l;
      RatioAtMost(x, l);
    }
  }

  lemma RatioAtMost(x: real, l: real)
    requires l > 0.0
    ensures x / l <= 1.0 <==> x <= l
    ensures x >= 0.0 ==> x / l >= 0.0
  {
    var q := x / l;
    assert q * l == x;
    if q <= 1.0 {
      assert q * l <= 1.0 * l;
    } else {
      assert q * l > 1.0 * l;
    }
  }

  lemma SimilaritySymmetric(str1: string, str2: string)
    ensures Similarity(str1, str2) == Similarity(str2, str1)
  {
    EditDistanceSymmetric(str1, str2);
  }

  lemma RatioAtLeast(x: real, l: real)
    requires l > 0.0
    ensures x / l >= 0.8 <==> 5.0 * x >= 4.0 * l
  {
    var q := x / l;
    assert q * l == x;
    if q >= 0.8 {
      assert q * l >= 0.8 * l;
    } else {
      assert q * l < 0.8 * l;
    }
  }

  /**
   * The threshold `similarity >= 0.8` in integers: with `L` the longer length
   * and `d` the distance, five times the unedited characters reach four
   * times the length.
   */
  lemma SimilarityThreshold(str1: string, str2: string)
    ensures var l := |Longer(str1, str2)|;
      var d := EditDistance(Longer(str1, str2), Shorter(str1, str2));
      Similarity(str1, str2) >= 0.8 <==> 5 * (l - d) >= 4 * l
  {
    var longer := Longer(str1, str2);
    if |longer| > 0 {
      var d := EditDistance(longer, Shorter(str1, str2));
      RatioAtLeast((|longer| - d) as real, |longer| as real);
    }
  }

  /** The anchored `^(the|a|an)\s+` removed: the alternatives are tried in that order. */
  function DropArticle(s: string): string
  {
    if StartsWith(s, "the") && SpaceRun(s, 3) > 0 then s[3 + SpaceRun(s, 3)..]
    else if StartsWith(s, "a") && SpaceRun(s, 1) > 0 then s[1 + SpaceRun(s, 1)..]
    else if StartsWith(s, "an") && SpaceRun(s, 2) > 0 then s[2 + SpaceRun(s, 2)..]
    else s
  }

  /** The case- and space-normalised form both sides are compared in. */
  function Normal(s: string): string
  {
    Trim(Lower(s))
  }

  /** A word of lower-case letters is its own normal form. */
  lemma NormalOfLowerWord(s: string)
    requires forall i :: 0 <= i < |s| ==> 'a' <= s[i] <= 'z'
    ensures Normal(s) == s
  {
    assert Lower(s) == s;
    TrimStartOfTrimmed(s);
    TrimEndOfTrimmed(s);
  }

  /** `checkAnswer(correctAnswer, userAnswer)`. */
  function CheckAnswer(correctAnswer: string, userAnswer: string): bool
  {
    var correct := Normal(correctAnswer);
    var user := Normal(userAnswer);
    correct == user || DropArticle(correct) == DropArticle(user) || Similarity(correct, user) >= 0.8
  }

  /**
   * The check in integers: equal normal forms, equal after a leading
   * article, or at most a fifth of the longer normal form edited.
   */
  lemma CheckAnswerIff(correctAnswer: string, userAnswer: string)
    ensures var c, u := Normal(correctAnswer), Normal(userAnswer);
      var l := Max(|c|, |u|);
      CheckAnswer(correctAnswer, userAnswer) <==>
        (c == u || DropArticle(c) == DropArticle(u) || 5 * EditDistance(c, u) <= l)
  {
    var c, u := Normal(correctAnswer), Normal(userAnswer);
    SimilarityThreshold(c, u);
    EditDistanceSymmetric(c, u);
  }

  /** The check does not care which side is the expected answer. */
  lemma CheckAnswerSymmetric(correctAnswer: string, userAnswer: string)
    ensures CheckAnswer(correctAnswer, userAnswer) == CheckAnswer(userAnswer, correctAnswer)
  {
    SimilaritySymmetric(Normal(correctAnswer), Normal(userAnswer));
  }

  /** One typo in an answer of five or more characters is forgiven. */
  lemma OneTypoForgiven(correctAnswer: string, userAnswer: string)
    requires |Normal(correctAnswer)| >= 5
    requires EditDistance(Normal(correctAnswer), Normal(userAnswer)) <= 1
    ensures CheckAnswer(correctAnswer, userAnswer)
  {
    CheckAnswerIff(correctAnswer, userAnswer);
  }

  /** A leading "the " is forgiven, unless what follows starts with an article itself. */
  lemma ArticleForgiven(correctAnswer: string, userAnswer: string)
    requires Normal(correctAnswer) == "the " + Normal(userAnswer)
    requires Normal(userAnswer) != [] && DropArticle(Normal(userAnswer)) == Normal(userAnswer)
    ensures CheckAnswer(correctAnswer, userAnswer)
  {
    var u := Normal(userAnswer);
    var c := "the " + u;
    TrimIsTrimmed(Lower(userAnswer));
    assert !IsSpace(u[0]);
    assert c[3] == ' ' && c[4] == u[0];
    assert SpaceRun(c, 3) == 1 by {
      assert SpaceRun(c, 4) == 0;
    }
    assert c[..3] == "the";
    assert c[4..] == u;
  }

  // ---------------------------------------------------------------------
  // Loading and the session
  // ---------------------------------------------------------------------

  /** The load filter: a truthy `question` and an `answer` that is a non-empty string. */
  predicate ValidQuestion(q: JsonValue)
  {
    TruthyOpt(Get(q, "question")) && TruthyOpt(Get(q, "answer")) && Get(q, "answer").value.JStr?
  }

  /** The expected answer of a question that passed the filter. */
  function CorrectAnswer(q: JsonValue): (r: string)
    requires ValidQuestion(q)
    ensures r != []
  {
    Get(q, "answer").value.s
  }

  /**
   * The page's session after a successful load. `results` is what
   * `endQuiz` stores when the quiz ends; the page then leaves.
   */
  class Session {
    var difficulty: Option<JsonValue>
    var questions: seq<JsonValue>
    var currentQuestionIndex: nat
    var score: nat
    var userAnswers: seq<Option<string>>
    var inputDisabled: bool
    var results: Option<QuizResults>

    /** Each question scores at most once: the score never passes the number of submitted questions. */
    predicate Valid()
      reads this
    {
      questions != [] && (forall k :: 0 <= k < |questions| ==> ValidQuestion(questions[k]))
      && |userAnswers| == |questions| && currentQuestionIndex < |questions|
      && score <= currentQuestionIndex + (if inputDisabled then 1 else 0)
    }

    /** `initQuizUI` after `loadQuizData`: no answers yet, the first question shown. */
    constructor(loaded: Loaded)
      requires loaded.questions != []
      requires forall k :: 0 <= k < |loaded.questions| ==> ValidQuestion(loaded.questions[k])
      ensures Valid()
      ensures difficulty == Get(loaded.config, "difficulty") && questions == loaded.questions
      ensures currentQuestionIndex == 0 && score == 0 && !inputDisabled && results.None?
      ensures userAnswers == seq(|loaded.questions|, _ => None)
    {
      difficulty := Get(loaded.config, "difficulty");
      questions := loaded.questions;
      currentQuestionIndex := 0;
      score := 0;
      userAnswers := seq(|loaded.questions|, _ => None);
      inputDisabled := false;
      results := None;
    }

    /** The results record for an end with the given reason. */
    function Results(reason: string): (r: QuizResults)
      reads this
      requires Valid()
      ensures r.quizType == "Identification" && r.reason == reason
      ensures r.totalQuestions == |questions| && r.correctAnswers == score
      ensures r.correctAnswers + r.wrongAnswers == r.totalQuestions && r.wrongAnswers >= 0
      ensures r.percentage.Some? && 0 <= r.percentage.value <= 100
    {
      ResultsConsistent("Identification", difficulty, |questions|, score, reason);
      ResultsOf("Identification", difficulty, |questions|, score, |questions| - score, reason)
    }

    /**
     * `submitAnswer`, reachable by the Enter key or the submit button while
     * the input is enabled. A blank answer changes nothing; otherwise the
     * trimmed answer is recorded, scored with `CheckAnswer`, and the input
     * is disabled until the next question.
     */
    method SubmitAnswer(input: string)
      requires Valid() && !inputDisabled && results.None?
      modifies this
      ensures Valid()
      ensures Trim(input) == [] ==> unchanged(this)
      ensures Trim(input) != [] ==>
        (questions == old(questions) && difficulty == old(difficulty) && results == old(results)
         && currentQuestionIndex == old(currentQuestionIndex)
         && userAnswers == old(userAnswers)[currentQuestionIndex := Some(Trim(input))]
         && score == old(score) + (if CheckAnswer(CorrectAnswer(questions[currentQuestionIndex]), Trim(input)) then 1 else 0)
         && inputDisabled)
    {
      var userAnswer := Trim(input);
      if userAnswer == [] {
        return;
      }
      userAnswers := userAnswers[currentQuestionIndex := Some(userAnswer)];
      if CheckAnswer(CorrectAnswer(questions[currentQuestionIndex]), userAnswer) {
        score := score + 1;
      }
      inputDisabled := true;
    }

    /**
     * `nextQuestion`, behind the button shown after a submission: the next
     * question while one is left, otherwise the end of the quiz.
     */
    method NextQuestion()
      requires Valid() && inputDisabled && results.None?
      modifies this
      ensures Valid()
      ensures questions == old(questions) && difficulty == old(difficulty)
      ensures score == old(score) && userAnswers == old(userAnswers)
      ensures old(currentQuestionIndex) < |questions| - 1 ==>
        currentQuestionIndex == old(currentQuestionIndex) + 1 && !inputDisabled && results.None?
      ensures old(currentQuestionIndex) >= |questions| - 1 ==>
        (currentQuestionIndex == old(currentQuestionIndex) && inputDisabled
         && results == Some(old(Results("completed"))))
    {
      if currentQuestionIndex < |questions| - 1 {
        currentQuestionIndex := currentQuestionIndex + 1;
        inputDisabled := false;
      } else {
        results := Some(Results("completed"));
      }
    }

    /** The countdown reaching zero ends the quiz wherever it stands. */
    method Timeout()
      requires Valid() && results.None?
      modifies this
      ensures Valid()
      ensures questions == old(questions) && difficulty == old(difficulty) && score == old(score)
      ensures userAnswers == old(userAnswers) && currentQuestionIndex == old(currentQuestionIndex)
      ensures inputDisabled == old(inputDisabled)
      ensures results == Some(old(Results("timeout")))
    {
      results := Some(Results("timeout"));
    }
  }
}
