/**
 * The offline question generator of the upload page (`QuestionGenerator`):
 * true/false items from factual sentences and from definitions with a swapped
 * term, multiple-choice items whose distractors are other definitions,
 * identification items and one matching set, all built from the analyzer's
 * sentences and the key concepts. The generator never changes its inputs,
 * so they are parameters here; every shuffle takes its own random draws
 * (see the Shuffle module), so a result holds for every order the shuffle
 * can produce.
 */
module QuestionGenerator {
  import opened TextUtil
  import opened Shuffle
  import Concepts

  type Concept = Concepts.KeyConcept

  datatype TrueFalse = TrueFalse(question: string, answer: bool, explanation: string)
  datatype MultipleChoice = MultipleChoice(question: string, options: seq<string>, correctIndex: nat, explanation: string)
  datatype Identification = Identification(question: string, answer: string, hint: string)
  datatype Pair = Pair(left: string, right: string)
  datatype Matching = Matching(pairs: seq<Pair>, instruction: string)
  datatype Questions = Questions(trueFalse: seq<TrueFalse>, multipleChoice: seq<MultipleChoice>,
                                 identification: seq<Identification>, matching: Matching)

  /** The draws of the shuffles one call of `generateAllQuestions` makes: one per multiple-choice item. */
  datatype Draws = Draws(trueFalse: seq<nat>, options: seq<seq<nat>>, matching: seq<nat>)

  // ---------------------------------------------------------------------
  // Factual sentences
  // ---------------------------------------------------------------------

  const FactualVerbs: seq<string> := ["is", "are", "was", "were", "contains", "includes"]

  /** `\bw\b` with the `i` flag matches at `i`. */
  predicate VerbAt(s: string, i: nat, w: string)
  {
    i + |w| <= |s| && WordBoundary(s, i) && Lower(s[i..i + |w|]) == w && WordBoundary(s, i + |w|)
  }

  /** `/\b(is|are|was|were|contains|includes)\b/i.test(s)`. */
  predicate HasFactualVerb(s: string)
  {
    exists i, k | 0 <= i < |s| && 0 <= k < |FactualVerbs| :: VerbAt(s, i, FactualVerbs[k])
  }

  /** `isFactual(sentence)`: a linking verb, 8 to 30 space-separated pieces and no question mark. */
  predicate IsFactual(s: string)
  {
    HasFactualVerb(s) && 8 <= |SplitChar(s, ' ')| <= 30 && '?' !in s
  }

  /** The verb must stand as a whole word, in any letter case. */
  lemma VerbIsAWholeWord()
    ensures !HasFactualVerb("this")
    ensures HasFactualVerb("It IS")
  {
    assert VerbAt("It IS", 3, FactualVerbs[0]);
    forall i, k | 0 <= i < 4 && 0 <= k < |FactualVerbs| ensures !VerbAt("this", i, FactualVerbs[k]) {
      if i + |FactualVerbs[k]| <= 4 && WordBoundary("this", i) {
        assert i == 0;
        assert Lower("this"[0..|FactualVerbs[k]|]) != FactualVerbs[k];
      }
    }
  }

  /** `sentences.filter(s => this.isFactual(s))`. */
  function FactualSentences(sentences: seq<string>): (r: seq<string>)
    ensures |r| <= |sentences|
    ensures forall k :: 0 <= k < |r| ==> IsFactual(r[k]) && r[k] in sentences
  {
    if sentences == [] then []
    else (if IsFactual(sentences[0]) then [sentences[0]] else []) + FactualSentences(sentences[1..])
  }

  /** Every factual sentence is kept. */
  lemma {:induction false} FactualSentencesComplete(sentences: seq<string>, s: string)
    requires s in sentences && IsFactual(s)
    ensures s in FactualSentences(sentences)
  {
    if sentences[0] != s {
      FactualSentencesComplete(sentences[1..], s);
    }
  }

  // ---------------------------------------------------------------------
  // True/false items
  // ---------------------------------------------------------------------

  const TrueExplanation := "This statement is correct based on the material."

  /** `Math.ceil(n * 0.6)`; the floating-point product rounds to the same integer for the counts used. */
  function CeilThreeFifths(n: nat): (r: nat)
    ensures 5 * r >= 3 * n && 5 * r < 3 * n + 5
  {
    (3 * n + 4) / 5
  }

  /** `Math.floor(n * 0.4)`. */
  function FloorTwoFifths(n: nat): (r: nat)
    ensures 5 * r <= 2 * n && 2 * n < 5 * r + 5
  {
    (2 * n) / 5
  }

  predicate IsOther(c: Concept, concept: Concept)
  {
    c.term != concept.term && c.kind == concept.kind
  }

  /** `concepts.find(c => c.term !== concept.term && c.type === concept.type)`, as an index. */
  function FindOther(concepts: seq<Concept>, concept: Concept): (r: Option<nat>)
    ensures r.Some? ==> (r.value < |concepts| && IsOther(concepts[r.value], concept)
      && forall j :: 0 <= j < r.value ==> !IsOther(concepts[j], concept))
    ensures r.None? ==> forall j :: 0 <= j < |concepts| ==> !IsOther(concepts[j], concept)
  {
    if concepts == [] then None
    else if IsOther(concepts[0], concept) then Some(0)
    else
      var r := FindOther(concepts[1..], concept);
      if r.Some? then Some(r.value + 1) else None
  }

  /** `makeFalseStatement(concept)`. */
  function FalseStatement(concepts: seq<Concept>, concept: Concept): (r: Option<TrueFalse>)
    ensures r.None? <==> forall j :: 0 <= j < |concepts| ==> !IsOther(concepts[j], concept)
    ensures r.Some? ==> (!r.value.answer
      && exists j :: (0 <= j < |concepts| && IsOther(concepts[j], concept)
        && r.value.question == ReplaceFirst(concept.definition, concept.term, concepts[j].term)
        && r.value.explanation == "False. This describes " + concept.term + ", not " + concepts[j].term + "."))
  {
    var o := FindOther(concepts, concept);
    if o.None? then None
    else
      var other := concepts[o.value];
      Some(TrueFalse(ReplaceFirst(concept.definition, concept.term, other.term), false,
                     "False. This describes " + concept.term + ", not " + other.term + "."))
  }

  /** The true items pushed for the chosen factual sentences. */
  function TrueItems(factual: seq<string>): (r: seq<TrueFalse>)
    ensures |r| == |factual|
    ensures forall k :: 0 <= k < |r| ==> r[k] == TrueFalse(factual[k], true, TrueExplanation)
  {
    if factual == [] then [] else TrueItems(factual[..|factual| - 1]) + [TrueFalse(factual[|factual| - 1], true, TrueExplanation)]
  }

  /** The false items pushed for the chosen concepts: one for each concept that has another of its kind. */
  function FalseItems(concepts: seq<Concept>, picked: seq<Concept>): (r: seq<TrueFalse>)
    ensures |r| <= |picked|
    ensures forall k :: 0 <= k < |r| ==> !r[k].answer
  {
    if picked == [] then []
    else
      var f := FalseStatement(concepts, picked[|picked| - 1]);
      FalseItems(concepts, picked[..|picked| - 1]) + (if f.Some? then [f.value] else [])
  }

  function TrueFalseCandidates(sentences: seq<string>, concepts: seq<Concept>, count: nat): seq<TrueFalse>
  {
    TrueItems(Take(FactualSentences(sentences), CeilThreeFifths(count)))
      + FalseItems(concepts, Take(concepts, FloorTwoFifths(count)))
  }

  /** `generateTrueFalse(count)`. */
  function TrueFalseOf(sentences: seq<string>, concepts: seq<Concept>, count: nat, draws: seq<nat>): seq<TrueFalse>
  {
    Take(Permute(TrueFalseCandidates(sentences, concepts, count), draws), count)
  }

  method GenerateTrueFalse(sentences: seq<string>, concepts: seq<Concept>, count: nat, draws: seq<nat>)
    returns (r: seq<TrueFalse>)
    ensures r == TrueFalseOf(sentences, concepts, count, draws)
  {
    var trueQuestions := PushTrue(Take(FactualSentences(sentences), CeilThreeFifths(count)));
    var falseQuestions := PushFalse(concepts, Take(concepts, FloorTwoFifths(count)));
    r := ShuffleCopy(trueQuestions + falseQuestions, draws);
    r := Take(r, count);
  }

  /** `factual.forEach(sentence => questions.push(...))`. */
  method PushTrue(factual: seq<string>) returns (questions: seq<TrueFalse>)
    ensures questions == TrueItems(factual)
  {
    questions := [];
    var i := 0;
    while i < |factual|
      invariant 0 <= i <= |factual|
      invariant questions == TrueItems(factual[..i])
    {
      assert factual[..i + 1][..i] == factual[..i];
      questions := questions + [TrueFalse(factual[i], true, TrueExplanation)];
      i := i + 1;
    }
    assert factual[..i] == factual;
  }

  /** The pushes of `makeFalseStatement` results that are not null. */
  method PushFalse(concepts: seq<Concept>, picked: seq<Concept>) returns (questions: seq<TrueFalse>)
    ensures questions == FalseItems(concepts, picked)
  {
    questions := [];
    var i := 0;
    while i < |picked|
      invariant 0 <= i <= |picked|
      invariant questions == FalseItems(concepts, picked[..i])
    {
      var falseQ := FalseStatement(concepts, picked[i]);
      FalseItemsSnoc(concepts, picked, i);
      if falseQ.Some? {
        questions := questions + [falseQ.value];
      }
      i := i + 1;
    }
    assert picked[..i] == picked;
  }

  lemma FalseItemsSnoc(concepts: seq<Concept>, picked: seq<Concept>, i: nat)
    requires i < |picked|
    ensures var f := FalseStatement(concepts, picked[i]);
      FalseItems(concepts, picked[..i + 1]) == FalseItems(concepts, picked[..i]) + (if f.Some? then [f.value] else [])
  {
    assert picked[..i + 1][..i] == picked[..i];
  }

  /**
   * At most `count` items, drawn from the candidates without repetition:
   * at most ceil(0.6 count) true ones, each a factual sentence of the text,
   * and at most floor(0.4 count) false ones.
   */
  lemma TrueFalseShape(sentences: seq<string>, concepts: seq<Concept>, count: nat, draws: seq<nat>)
    ensures var r := TrueFalseOf(sentences, concepts, count, draws);
      var trues := TrueItems(Take(FactualSentences(sentences), CeilThreeFifths(count)));
      var falses := FalseItems(concepts, Take(concepts, FloorTwoFifths(count)));
      |r| <= count
      && multiset(r) <= multiset(trues) + multiset(falses)
      && |trues| <= CeilThreeFifths(count) && |falses| <= FloorTwoFifths(count)
      && (forall k :: 0 <= k < |trues| ==> trues[k].answer && IsFactual(trues[k].question) && trues[k].question in sentences)
      && (forall k :: 0 <= k < |falses| ==> !falses[k].answer)
  {
    var trues := TrueItems(Take(FactualSentences(sentences), CeilThreeFifths(count)));
    var falses := FalseItems(concepts, Take(concepts, FloorTwoFifths(count)));
    TakePermuted(TrueFalseCandidates(sentences, concepts, count), draws, count);
    assert multiset(TrueFalseCandidates(sentences, concepts, count)) == multiset(trues) + multiset(falses);
    TrueItemsFactual(sentences, CeilThreeFifths(count));
  }

  /** Every true item states a factual sentence of the text. */
  lemma TrueItemsFactual(sentences: seq<string>, n: nat)
    ensures var trues := TrueItems(Take(FactualSentences(sentences), n));
      |trues| <= n
      && forall k :: 0 <= k < |trues| ==> trues[k].answer && IsFactual(trues[k].question) && trues[k].question in sentences
  {
    var factual := Take(FactualSentences(sentences), n);
    forall k | 0 <= k < |factual| ensures IsFactual(factual[k]) && factual[k] in sentences {
      assert factual[k] == FactualSentences(sentences)[k];
    }
  }

  // ---------------------------------------------------------------------
  // Multiple-choice options
  // ---------------------------------------------------------------------

  const Filler := "A process that performs various biological functions"

  /** `concepts.filter(c => c.definition && c.definition !== correct)`. */
  function DistractorConcepts(concepts: seq<Concept>, correct: string): (r: seq<Concept>)
    ensures |r| <= |concepts|
    ensures forall k :: 0 <= k < |r| ==> r[k] in concepts && r[k].definition != [] && r[k].definition != correct
  {
    if concepts == [] then []
    else
      var c := concepts[0];
      (if c.definition != [] && c.definition != correct then [c] else []) + DistractorConcepts(concepts[1..], correct)
  }

  /** `.map(c => c.definition.substring(0, 100))`. */
  function Truncated(cs: seq<Concept>): (r: seq<string>)
    ensures |r| == |cs|
    ensures forall k :: 0 <= k < |r| ==> r[k] == Prefix(cs[k].definition, 100)
  {
    if cs == [] then [] else [Prefix(cs[0].definition, 100)] + Truncated(cs[1..])
  }

  /** The correct answer followed by at most three distractors. */
  function OptionBase(concepts: seq<Concept>, correct: string): (r: seq<string>)
    ensures 1 <= |r| <= 4 && r[0] == correct
  {
    [correct] + Take(Truncated(DistractorConcepts(concepts, correct)), 3)
  }

  /** The `while (options.length < 4)` loop: the filler fills up to four. */
  function Pad(options: seq<string>): (r: seq<string>)
    ensures |r| == if |options| >= 4 then |options| else 4
    decreases 4 - |options|
  {
    if |options| >= 4 then options else Pad(options + [Filler])
  }

  /** `makeOptions(correct)`, for the given draws of its shuffle. */
  function OptionsOf(concepts: seq<Concept>, correct: string, draws: seq<nat>): (r: seq<string>)
    ensures |r| == 4
  {
    Permute(Pad(OptionBase(concepts, correct)), draws)
  }

  method MakeOptions(concepts: seq<Concept>, correct: string, draws: seq<nat>) returns (r: seq<string>)
    ensures r == OptionsOf(concepts, correct, draws)
  {
    var options := OptionBase(concepts, correct);
    ghost var base := options;
    while |options| < 4
      invariant Pad(options) == Pad(base)
      decreases 4 - |options|
    {
      options := options + [Filler];
    }
    r := ShuffleCopy(options, draws);
  }

  /** Padding keeps the given options in front and adds only the filler, up to exactly four. */
  lemma {:induction false} PadShape(options: seq<string>)
    requires |options| <= 4
    ensures |Pad(options)| == 4
    ensures Pad(options)[..|options|] == options
    ensures forall k :: |options| <= k < 4 ==> Pad(options)[k] == Filler
    decreases 4 - |options|
  {
    if |options| < 4 {
      PadShape(options + [Filler]);
      assert Pad(options) == Pad(options + [Filler]);
      assert (options + [Filler])[..|options|] == options;
    }
  }

  /** A distractor is the truncated definition of another concept that has one. */
  predicate IsDistractor(concepts: seq<Concept>, correct: string, x: string)
  {
    exists c :: c in concepts && c.definition != [] && c.definition != correct && x == Prefix(c.definition, 100)
  }

  lemma DistractorsAreDistractors(concepts: seq<Concept>, correct: string, x: string)
    requires x in Truncated(DistractorConcepts(concepts, correct))
    ensures IsDistractor(concepts, correct, x) && |x| <= 100
  {
    var ds := Truncated(DistractorConcepts(concepts, correct));
    var j :| 0 <= j < |ds| && ds[j] == x;
    var c := DistractorConcepts(concepts, correct)[j];
    assert c in concepts && x == Prefix(c.definition, 100);
  }

  /** What the padded options before the shuffle hold. */
  lemma PaddedShape(concepts: seq<Concept>, correct: string)
    ensures var base := OptionBase(concepts, correct);
      Pad(base) == base + seq(4 - |base|, _ => Filler)
  {
    var base := OptionBase(concepts, correct);
    var padded := Pad(base);
    PadShape(base);
    var fill := seq(4 - |base|, _ => Filler);
    assert padded[..|base|] == base;
    assert padded[|base|..] == fill;
    assert padded == padded[..|base|] + padded[|base|..];
  }

  /**
   * Exactly four options, a permutation of the correct answer, at most
   * three truncated definitions of other concepts, and the filler.
   */
  lemma OptionsShape(concepts: seq<Concept>, correct: string, draws: seq<nat>)
    ensures var r := OptionsOf(concepts, correct, draws);
      var base := OptionBase(concepts, correct);
      |r| == 4
      && multiset(r) == multiset(base) + multiset(seq(4 - |base|, _ => Filler))
      && correct in r
      && forall k :: 0 <= k < 4 ==> r[k] == correct || r[k] == Filler || IsDistractor(concepts, correct, r[k])
  {
    var base := OptionBase(concepts, correct);
    var padded := Pad(base);
    PaddedShape(concepts, correct);
    PermuteIsPermutation(padded, draws);
    var r := OptionsOf(concepts, correct, draws);
    assert correct in multiset(r) by { assert padded[0] == correct; }
    forall k | 0 <= k < 4 ensures r[k] == correct || r[k] == Filler || IsDistractor(concepts, correct, r[k]) {
      assert r[k] in multiset(padded);
      OptionFromPadded(concepts, correct, r[k]);
    }
  }

  lemma OptionFromPadded(concepts: seq<Concept>, correct: string, x: string)
    requires x in Pad(OptionBase(concepts, correct))
    ensures x == correct || x == Filler || IsDistractor(concepts, correct, x)
  {
    var base := OptionBase(concepts, correct);
    PaddedShape(concepts, correct);
    var padded := Pad(base);
    var j :| 0 <= j < |padded| && padded[j] == x;
    if 1 <= j < |base| {
      assert x == Take(Truncated(DistractorConcepts(concepts, correct)), 3)[j - 1];
      DistractorsAreDistractors(concepts, correct, x);
    }
  }

  /**
   * `generateMultipleChoice` records `correctIndex` 0 whatever the shuffle
   * did: when the first draw sends the correct answer to the last place and
   * no other option equals it, option 0 is not the correct answer.
   */
  lemma CorrectIndexCanMiss(concepts: seq<Concept>, correct: string, draws: seq<nat>)
    requires Draw(draws, 0) % 4 == 0
    requires correct != Filler && correct !in Truncated(DistractorConcepts(concepts, correct))
    ensures OptionsOf(concepts, correct, draws)[3] == correct
    ensures OptionsOf(concepts, correct, draws)[0] != correct
  {
    var padded := Pad(OptionBase(concepts, correct));
    FirstDrawZeroSendsFirstToLast(padded, draws);
    PaddedRestDiffers(concepts, correct);
    OnlyOnceAtLast(padded, OptionsOf(concepts, correct, draws), draws);
  }

  /** When no distractor and not the filler equals the correct answer, only option 0 does before the shuffle. */
  lemma PaddedRestDiffers(concepts: seq<Concept>, correct: string)
    requires correct != Filler && correct !in Truncated(DistractorConcepts(concepts, correct))
    ensures var padded := Pad(OptionBase(concepts, correct));
      |padded| == 4 && padded[0] == correct && forall k :: 1 <= k < 4 ==> padded[k] != correct
  {
    var base := OptionBase(concepts, correct);
    var padded := Pad(base);
    PaddedShape(concepts, correct);
    var ds := Truncated(DistractorConcepts(concepts, correct));
    forall k | 1 <= k < 4 ensures padded[k] != correct {
      if k < |base| {
        assert padded[k] == base[k] == ds[k - 1];
      } else {
        assert padded[k] == Filler;
      }
    }
  }

  /** When the first of four options occurs nowhere else and is shuffled to the end, it is not at the front. */
  lemma OnlyOnceAtLast(padded: seq<string>, r: seq<string>, draws: seq<nat>)
    requires |padded| == 4 && r == Permute(padded, draws) && r[3] == padded[0]
    requires forall k :: 1 <= k < 4 ==> padded[k] != padded[0]
    ensures r[0] != padded[0]
  {
    PermuteIsPermutation(padded, draws);
    assert padded == [padded[0]] + padded[1..];
    assert padded[0] !in padded[1..];
    assert multiset(padded)[padded[0]] == 1;
    if r[0] == padded[0] {
      TwiceCounted(r, 0, 3);
    }
  }

  // ---------------------------------------------------------------------
  // Multiple-choice items
  // ---------------------------------------------------------------------

  /** `concepts.filter(c => c.definition && c.definition.length > n)`. */
  function LongerThan(concepts: seq<Concept>, n: nat): (r: seq<Concept>)
    ensures |r| <= |concepts|
    ensures forall k :: 0 <= k < |r| ==> r[k] in concepts && |r[k].definition| > n
  {
    if concepts == [] then []
    else (if |concepts[0].definition| > n then [concepts[0]] else []) + LongerThan(concepts[1..], n)
  }

  /** Every concept with a long enough definition is kept, in order. */
  lemma {:induction false} LongerThanComplete(concepts: seq<Concept>, n: nat, c: Concept)
    requires c in concepts && |c.definition| > n
    ensures c in LongerThan(concepts, n)
  {
    if concepts[0] != c {
      LongerThanComplete(concepts[1..], n, c);
    }
  }

  function OptionDraws(draws: seq<seq<nat>>, k: nat): seq<nat>
  {
    if k < |draws| then draws[k] else []
  }

  function ChoiceItem(concepts: seq<Concept>, c: Concept, draws: seq<nat>): MultipleChoice
  {
    MultipleChoice("What is " + c.term + "?", OptionsOf(concepts, c.definition, draws), 0, c.definition)
  }

  /** The items pushed for the chosen concepts; an item is kept only with four options or more. */
  function ChoicesFrom(concepts: seq<Concept>, picked: seq<Concept>, draws: seq<seq<nat>>): seq<MultipleChoice>
  {
    if picked == [] then []
    else
      var k := |picked| - 1;
      var item := ChoiceItem(concepts, picked[k], OptionDraws(draws, k));
      ChoicesFrom(concepts, picked[..k], draws) + (if |item.options| >= 4 then [item] else [])
  }

  /** `generateMultipleChoice(count)`; the k-th item's options are shuffled with `draws[k]`. */
  function MultipleChoiceOf(concepts: seq<Concept>, count: nat, draws: seq<seq<nat>>): seq<MultipleChoice>
  {
    Take(ChoicesFrom(concepts, Take(LongerThan(concepts, 20), count), draws), count)
  }

  method GenerateMultipleChoice(concepts: seq<Concept>, count: nat, draws: seq<seq<nat>>)
    returns (r: seq<MultipleChoice>)
    ensures r == MultipleChoiceOf(concepts, count, draws)
  {
    var questions := [];
    var picked := Take(LongerThan(concepts, 20), count);
    var i := 0;
    while i < |picked|
      invariant 0 <= i <= |picked|
      invariant questions == ChoicesFrom(concepts, picked[..i], draws)
    {
      ChoicesFromSnoc(concepts, picked, draws, i);
      var concept := picked[i];
      var options := MakeOptions(concepts, concept.definition, OptionDraws(draws, i));
      if |options| >= 4 {
        questions := questions + [MultipleChoice("What is " + concept.term + "?", options, 0, concept.definition)];
      }
      i := i + 1;
    }
    assert picked[..i] == picked;
    r := Take(questions, count);
  }

  lemma ChoicesFromSnoc(concepts: seq<Concept>, picked: seq<Concept>, draws: seq<seq<nat>>, i: nat)
    requires i < |picked|
    ensures var item := ChoiceItem(concepts, picked[i], OptionDraws(draws, i));
      ChoicesFrom(concepts, picked[..i + 1], draws) == ChoicesFrom(concepts, picked[..i], draws) + [item]
  {
    assert picked[..i + 1][..i] == picked[..i];
  }

  /** The items of the chosen concepts, in order. */
  predicate AllChosen(concepts: seq<Concept>, picked: seq<Concept>, draws: seq<seq<nat>>, r: seq<MultipleChoice>)
  {
    |r| == |picked| && forall k :: 0 <= k < |r| ==> r[k] == ChoiceItem(concepts, picked[k], OptionDraws(draws, k))
  }

  lemma ChoicesFromStep(concepts: seq<Concept>, picked: seq<Concept>, draws: seq<seq<nat>>)
    requires picked != []
    requires AllChosen(concepts, picked[..|picked| - 1], draws, ChoicesFrom(concepts, picked[..|picked| - 1], draws))
    ensures AllChosen(concepts, picked, draws, ChoicesFrom(concepts, picked, draws))
  {
    var k := |picked| - 1;
    var item := ChoiceItem(concepts, picked[k], OptionDraws(draws, k));
    var front := ChoicesFrom(concepts, picked[..k], draws);
    var r := ChoicesFrom(concepts, picked, draws);
    assert |item.options| == 4;
    assert r == front + [item];
    forall j | 0 <= j < |r| ensures r[j] == ChoiceItem(concepts, picked[j], OptionDraws(draws, j)) {
      if j < k {
        assert r[j] == front[j] && picked[..k][j] == picked[j];
      }
    }
  }

  /** Since the options always number four, every chosen concept gives its item. */
  lemma {:induction false} ChoicesFromAll(concepts: seq<Concept>, picked: seq<Concept>, draws: seq<seq<nat>>)
    ensures AllChosen(concepts, picked, draws, ChoicesFrom(concepts, picked, draws))
  {
    if picked != [] {
      ChoicesFromAll(concepts, picked[..|picked| - 1], draws);
      ChoicesFromStep(concepts, picked, draws);
    }
  }

  /**
   * One item for each of the first `count` concepts whose definition is
   * longer than 20 characters, each asking for that concept's term with
   * four options that include its definition, index 0 recorded.
   */
  lemma MultipleChoiceShape(concepts: seq<Concept>, count: nat, draws: seq<seq<nat>>)
    ensures var r := MultipleChoiceOf(concepts, count, draws);
      var picked := Take(LongerThan(concepts, 20), count);
      |r| == |picked| <= count
      && forall k :: 0 <= k < |r| ==>
        picked[k] in concepts
        && r[k].question == "What is " + picked[k].term + "?"
        && r[k].explanation == picked[k].definition && |r[k].explanation| > 20
        && |r[k].options| == 4 && r[k].explanation in r[k].options && r[k].correctIndex == 0
  {
    var eligible := LongerThan(concepts, 20);
    var picked := Take(eligible, count);
    ChoicesFromAll(concepts, picked, draws);
    forall k | 0 <= k < |picked|
      ensures picked[k] in concepts && |picked[k].definition| > 20
      ensures var o := OptionsOf(concepts, picked[k].definition, OptionDraws(draws, k)); |o| == 4 && picked[k].definition in o
    {
      assert picked[k] == eligible[k];
      OptionsShape(concepts, picked[k].definition, OptionDraws(draws, k));
    }
  }

  // ---------------------------------------------------------------------
  // Identification and matching
  // ---------------------------------------------------------------------

  function Hint(term: string): string
  {
    "Starts with \"" + FirstChar(term) + "\""
  }

  function Identifications(picked: seq<Concept>): (r: seq<Identification>)
    ensures |r| == |picked|
    ensures forall k :: 0 <= k < |r| ==> r[k] == Identification(picked[k].definition, picked[k].term, Hint(picked[k].term))
  {
    if picked == [] then [] else [Identification(picked[0].definition, picked[0].term, Hint(picked[0].term))] + Identifications(picked[1..])
  }

  /** `generateIdentification(count)`. */
  function IdentificationOf(concepts: seq<Concept>, count: nat): seq<Identification>
  {
    Identifications(Take(LongerThan(concepts, 15), count))
  }

  /** One item per chosen concept: its definition asks for its term, with the term's first letter as hint. */
  lemma IdentificationShape(concepts: seq<Concept>, count: nat)
    ensures var r := IdentificationOf(concepts, count);
      var eligible := LongerThan(concepts, 15);
      |r| == (if count <= |eligible| then count else |eligible|)
      && forall k :: 0 <= k < |r| ==>
        eligible[k] in concepts && |r[k].question| > 15
        && r[k].question == eligible[k].definition && r[k].answer == eligible[k].term
        && r[k].hint == "Starts with \"" + FirstChar(r[k].answer) + "\""
  {
  }

  const MatchingInstruction := "Match each term with its definition."

  function PairsOf(picked: seq<Concept>): (r: seq<Pair>)
    ensures |r| == |picked|
    ensures forall k :: 0 <= k < |r| ==> r[k] == Pair(picked[k].term, Prefix(picked[k].definition, 100))
  {
    if picked == [] then [] else [Pair(picked[0].term, Prefix(picked[0].definition, 100))] + PairsOf(picked[1..])
  }

  /** `generateMatching(count)`. */
  function MatchingOf(concepts: seq<Concept>, count: nat, draws: seq<nat>): Matching
  {
    Matching(Permute(PairsOf(Take(LongerThan(concepts, 0), count)), draws), MatchingInstruction)
  }

  /**
   * The pairs are a reordering of the term/definition pairs of the first
   * `count` concepts that have a definition, each definition cut to 100
   * characters.
   */
  lemma MatchingShape(concepts: seq<Concept>, count: nat, draws: seq<nat>)
    ensures var m := MatchingOf(concepts, count, draws);
      var unshuffled := PairsOf(Take(LongerThan(concepts, 0), count));
      |m.pairs| == |unshuffled| <= count
      && multiset(m.pairs) == multiset(unshuffled)
      && m.instruction == MatchingInstruction
      && forall k :: 0 <= k < |m.pairs| ==> (|m.pairs[k].right| <= 100
        && exists c :: c in concepts && c.definition != [] && m.pairs[k] == Pair(c.term, Prefix(c.definition, 100)))
  {
    var eligible := LongerThan(concepts, 0);
    var picked := Take(eligible, count);
    var unshuffled := PairsOf(picked);
    PermuteIsPermutation(unshuffled, draws);
    var m := MatchingOf(concepts, count, draws);
    forall k | 0 <= k < |m.pairs|
      ensures |m.pairs[k].right| <= 100
      ensures exists c :: c in concepts && c.definition != [] && m.pairs[k] == Pair(c.term, Prefix(c.definition, 100))
    {
      assert m.pairs[k] in multiset(unshuffled);
      var j :| 0 <= j < |unshuffled| && unshuffled[j] == m.pairs[k];
      PairOfConcept(concepts, picked[j]);
    }
  }

  /** The pair made from a concept with a definition is that concept's term and cut definition. */
  lemma PairOfConcept(concepts: seq<Concept>, c: Concept)
    requires c in concepts && |c.definition| > 0
    ensures var p := Pair(c.term, Prefix(c.definition, 100));
      |p.right| <= 100 && exists c' :: c' in concepts && c'.definition != [] && p == Pair(c'.term, Prefix(c'.definition, 100))
  {
  }

  // ---------------------------------------------------------------------
  // All questions
  // ---------------------------------------------------------------------

  /** `generateAllQuestions()`: 12 true/false, 12 multiple-choice, 10 identification, 8 matching pairs. */
  function AllQuestions(sentences: seq<string>, concepts: seq<Concept>, draws: Draws): Questions
  {
    Questions(TrueFalseOf(sentences, concepts, 12, draws.trueFalse),
              MultipleChoiceOf(concepts, 12, draws.options),
              IdentificationOf(concepts, 10),
              MatchingOf(concepts, 8, draws.matching))
  }

  method GenerateAllQuestions(sentences: seq<string>, concepts: seq<Concept>, draws: Draws) returns (q: Questions)
    ensures q == AllQuestions(sentences, concepts, draws)
  {
    var trueFalse := GenerateTrueFalse(sentences, concepts, 12, draws.trueFalse);
    var multipleChoice := GenerateMultipleChoice(concepts, 12, draws.options);
    q := Questions(trueFalse, multipleChoice, IdentificationOf(concepts, 10), MatchingOf(concepts, 8, draws.matching));
  }

  /** The per-type caps, and the split of the true/false candidates into at most 8 true and 4 false ones. */
  lemma AllQuestionsBounds(sentences: seq<string>, concepts: seq<Concept>, draws: Draws)
    ensures var q := AllQuestions(sentences, concepts, draws);
      |q.trueFalse| <= 12 && |q.multipleChoice| <= 12 && |q.identification| <= 10 && |q.matching.pairs| <= 8
      && |TrueItems(Take(FactualSentences(sentences), CeilThreeFifths(12)))| <= 8
      && |FalseItems(concepts, Take(concepts, FloorTwoFifths(12)))| <= 4
  {
    TrueFalseShape(sentences, concepts, 12, draws.trueFalse);
    MultipleChoiceShape(concepts, 12, draws.options);
    MatchingShape(concepts, 8, draws.matching);
  }
}
