/**
 * The games hub: the question bank it loads, the configuration modal with
 * its question-count stepper, and the questions `startQuiz` hands to a
 * quiz page.
 */
module GamesHub {
  import opened TextUtil
  import opened Json
  import Shuffle

  datatype QuizType = TrueFalse | MultipleChoice | Identification | Matching

  /** The property of the question bank that holds each quiz type. */
  function QuizTypeKey(t: QuizType): string
  {
    match t
    case TrueFalse => "trueFalse"
    case MultipleChoice => "multipleChoice"
    case Identification => "identification"
    case Matching => "matching"
  }

  datatype Difficulty = Easy | Medium | Hard

  function DifficultyName(d: Difficulty): string
  {
    match d
    case Easy => "easy"
    case Medium => "medium"
    case Hard => "hard"
  }

  /** `availableQuestions`: how many questions (or pairs) each tier holds. */
  datatype Availability = Availability(easy: nat, medium: nat, hard: nat)

  function Available(a: Availability, d: Difficulty): nat
  {
    match d
    case Easy => a.easy
    case Medium => a.medium
    case Hard => a.hard
  }

  /** The lower bound of the stepper: five, or the whole tier when it holds fewer. */
  function StepperMin(a: Availability, d: Difficulty): nat
  {
    Min(5, Available(a, d))
  }

  // ---------------------------------------------------------------------
  // Counting the bank
  // ---------------------------------------------------------------------

  /** The sum of `f` over the values of a map, in no particular order. */
  ghost function SumValues(m: map<string, JsonValue>, f: JsonValue -> nat): nat
    decreases |m.Keys|
  {
    if m == map[] then 0
    else
      var k :| k in m;
      assert (m - {k}).Keys == m.Keys - {k};
      f(m[k]) + SumValues(m - {k}, f)
  }

  /** The sum does not depend on the key taken first. */
  lemma {:induction false} SumValuesRemove(m: map<string, JsonValue>, f: JsonValue -> nat, k: string)
    requires k in m
    ensures SumValues(m, f) == f(m[k]) + SumValues(m - {k}, f)
    decreases |m.Keys|
  {
    var j :| j in m && SumValues(m, f) == f(m[j]) + SumValues(m - {j}, f);
    if j != k {
      var rest := m - {j};
      assert rest.Keys == m.Keys - {j};
      SumValuesRemove(rest, f, k);
      var both := rest - {k};
      assert both == (m - {k}) - {j};
      assert (m - {k}).Keys == m.Keys - {k};
      SumValuesRemove(m - {k}, f, j);
    }
  }

  /** The number of items `.flat()` makes of one value of `Object.values`. */
  function FlatItems(v: JsonValue): nat
  {
    if v.JArr? then |v.items| else 1
  }

  function SumFlat(items: seq<JsonValue>): nat
  {
    if items == [] then 0 else SumFlat(items[..|items| - 1]) + FlatItems(items[|items| - 1])
  }

  /**
   * `Object.values(x).flat().length`: an array or object contributes each
   * of its values, an array value counting its items; a string contributes
   * its characters; any other value nothing.
   */
  ghost function FlatLength(x: JsonValue): nat
  {
    match x
    case JArr(items) => SumFlat(items)
    case JObj(fields) => SumValues(fields, FlatItems)
    case JStr(s) => |s|
    case _ => 0
  }

  /**
   * `v.length` when it is a count: an array's items, a string's
   * characters, or an object's own `length` key holding a whole number
   * that is not negative.
   */
  function NatLength(v: JsonValue): Option<nat>
  {
    match v
    case JArr(items) => Some(|items|)
    case JStr(s) => Some(|s|)
    case JObj(fields) =>
      if "length" in fields && fields["length"].JNum? && fields["length"].n >= 0.0
         && fields["length"].n == fields["length"].n.Floor as real
      then Some(fields["length"].n.Floor)
      else None
    case _ => None
  }

  /** `m.pairs?.length || 0` on a value that is not `null`. */
  function PairsLength(m: JsonValue): nat
  {
    var pairs := Get(m, "pairs");
    if pairs.Some? && NatLength(pairs.value).Some? then NatLength(pairs.value).value else 0
  }

  /** A tier whose `pairs` is an object counts that object's `length` key. */
  lemma ObjectPairsLength(m: JsonValue, fields: map<string, JsonValue>, k: nat)
    requires Get(m, "pairs") == Some(JObj(fields))
    requires "length" in fields && fields["length"] == JNum(k as real)
    ensures PairsLength(m) == k
  {
    assert (k as real).Floor == k;
  }

  function SumPairs(items: seq<JsonValue>): nat
  {
    if items == [] then 0 else SumPairs(items[..|items| - 1]) + PairsLength(items[|items| - 1])
  }

  /** The pair counts over the values of `questions.matching`; a `null` value makes reading `pairs` throw. */
  ghost function MatchingPairs(x: JsonValue): Result<nat>
  {
    match x
    case JArr(items) => if JNull in items then Err("Cannot read properties of null") else Ok(SumPairs(items))
    case JObj(fields) =>
      if JNull in fields.Values then Err("Cannot read properties of null") else Ok(SumValues(fields, PairsLength))
    case JStr(s) => Ok(0)
    case _ => Ok(0)
  }

  function OrEmpty(v: Option<JsonValue>): JsonValue
  {
    if TruthyOpt(v) then v.value else JObj(map[])
  }

  /** `countTotalQuestions`. */
  ghost function CountTotalQuestions(questions: JsonValue): Result<nat>
  {
    if !Truthy(questions) then Ok(0)
    else
      var matching := MatchingPairs(OrEmpty(Get(questions, "matching")));
      if matching.Err? then Err(matching.error)
      else Ok(FlatLength(OrEmpty(Get(questions, "trueFalse"))) + FlatLength(OrEmpty(Get(questions, "multipleChoice")))
              + FlatLength(OrEmpty(Get(questions, "identification"))) + matching.value)
  }

  /** A bank of the shape the generator produces: each kind keyed by exactly the three tiers. */
  predicate TieredObject(v: JsonValue)
  {
    v.JObj? && v.fields.Keys == {"easy", "medium", "hard"}
  }

  predicate QuestionArray(v: JsonValue)
  {
    v.JArr? && forall k :: 0 <= k < |v.items| ==> !v.items[k].JArr?
  }

  predicate StandardKind(bank: JsonValue, key: string)
  {
    bank.JObj? && key in bank.fields && TieredObject(bank.fields[key])
    && QuestionArray(bank.fields[key].fields["easy"]) && QuestionArray(bank.fields[key].fields["medium"])
    && QuestionArray(bank.fields[key].fields["hard"])
  }

  predicate StandardMatching(bank: JsonValue)
  {
    bank.JObj? && "matching" in bank.fields && TieredObject(bank.fields["matching"])
    && bank.fields["matching"].fields["easy"] != JNull && bank.fields["matching"].fields["medium"] != JNull
    && bank.fields["matching"].fields["hard"] != JNull
  }

  predicate StandardBank(bank: JsonValue)
  {
    StandardKind(bank, "trueFalse") && StandardKind(bank, "multipleChoice") && StandardKind(bank, "identification")
    && StandardMatching(bank)
  }

  /** The questions of one tier of a standard bank. */
  function TierSize(bank: JsonValue, key: string, tier: string): nat
    requires bank.JObj? && key in bank.fields && bank.fields[key].JObj? && tier in bank.fields[key].fields
  {
    var v := bank.fields[key].fields[tier];
    if v.JArr? then |v.items| else 0
  }

  function KindSize(bank: JsonValue, key: string): nat
    requires bank.JObj? && key in bank.fields && TieredObject(bank.fields[key])
  {
    TierSize(bank, key, "easy") + TierSize(bank, key, "medium") + TierSize(bank, key, "hard")
  }

  function TierPairs(bank: JsonValue, tier: string): nat
    requires bank.JObj? && "matching" in bank.fields && TieredObject(bank.fields["matching"])
    requires tier in {"easy", "medium", "hard"}
  {
    PairsLength(bank.fields["matching"].fields[tier])
  }

  lemma SumFlatOfQuestions(items: seq<JsonValue>)
    requires forall k :: 0 <= k < |items| ==> !items[k].JArr?
    ensures SumFlat(items) == |items|
  {
  }

  lemma {:induction false} SumOfTiers(fields: map<string, JsonValue>, f: JsonValue -> nat)
    requires fields.Keys == {"easy", "medium", "hard"}
    ensures SumValues(fields, f) == f(fields["easy"]) + f(fields["medium"]) + f(fields["hard"])
  {
    SumValuesRemove(fields, f, "easy");
    var a := fields - {"easy"};
    assert a.Keys == {"medium", "hard"};
    SumValuesRemove(a, f, "medium");
    var b := a - {"medium"};
    assert b.Keys == {"hard"};
    SumValuesRemove(b, f, "hard");
    assert b - {"hard"} == map[];
  }

  lemma KindCount(bank: JsonValue, key: string)
    requires StandardKind(bank, key)
    ensures FlatLength(OrEmpty(Get(bank, key))) == KindSize(bank, key)
  {
    var tiers := bank.fields[key];
    assert TieredObject(tiers) && QuestionArray(tiers.fields["easy"])
      && QuestionArray(tiers.fields["medium"]) && QuestionArray(tiers.fields["hard"]);
    assert OrEmpty(Get(bank, key)) == tiers;
    SumOfTiers(tiers.fields, FlatItems);
    SumFlatOfQuestions(tiers.fields["easy"].items);
    SumFlatOfQuestions(tiers.fields["medium"].items);
    SumFlatOfQuestions(tiers.fields["hard"].items);
  }

  lemma MatchingCount(bank: JsonValue)
    requires StandardMatching(bank)
    ensures MatchingPairs(OrEmpty(Get(bank, "matching")))
      == Ok(TierPairs(bank, "easy") + TierPairs(bank, "medium") + TierPairs(bank, "hard"))
  {
    var matching := bank.fields["matching"];
    assert OrEmpty(Get(bank, "matching")) == matching;
    assert JNull !in matching.fields.Values by {
      forall v | v in matching.fields.Values ensures v != JNull {
        var tier :| tier in matching.fields && matching.fields[tier] == v;
        assert tier in {"easy", "medium", "hard"};
      }
    }
    SumOfTiers(matching.fields, PairsLength);
  }

  /**
   * On a bank of the generator's shape, the count is the number of
   * true/false, multiple-choice and identification questions in all three
   * tiers plus the matching pairs of all three tiers.
   */
  lemma CountStandardBank(bank: JsonValue)
    requires StandardBank(bank)
    ensures CountTotalQuestions(bank) == Ok(KindSize(bank, "trueFalse") + KindSize(bank, "multipleChoice")
      + KindSize(bank, "identification")
      + TierPairs(bank, "easy") + TierPairs(bank, "medium") + TierPairs(bank, "hard"))
  {
    KindCount(bank, "trueFalse");
    KindCount(bank, "multipleChoice");
    KindCount(bank, "identification");
    MatchingCount(bank);
  }

  lemma CountMissingBank(questions: JsonValue)
    requires !Truthy(questions)
    ensures CountTotalQuestions(questions) == Ok(0)
  {
  }

  /** A `null` matching tier makes the count throw. */
  lemma CountNullMatchingTier(bank: JsonValue)
    requires bank.JObj? && "matching" in bank.fields && bank.fields["matching"].JObj?
    requires "easy" in bank.fields["matching"].fields && bank.fields["matching"].fields["easy"] == JNull
    ensures CountTotalQuestions(bank).Err?
  {
    assert JNull in bank.fields["matching"].fields.Values;
  }

  /** A property that is neither `undefined` nor `null`, so reading through it does not throw. */
  predicate Present(v: Option<JsonValue>)
  {
    v.Some? && v.value != JNull
  }

  /**
   * `x.easy.length`, `x.medium.length` and `x.hard.length` (for matching,
   * `x.<tier>.pairs`) of one kind of the bank can all be read: the kind
   * and each of its three tiers are present.
   */
  predicate KindLoggable(q: JsonValue, t: QuizType)
  {
    var kind := Get(q, QuizTypeKey(t));
    Present(kind) && Present(Get(kind.value, "easy")) && Present(Get(kind.value, "medium"))
    && Present(Get(kind.value, "hard"))
  }

  /** `logQuestionCounts` runs without throwing exactly on a bank whose four kinds can all be read. */
  predicate CountsLoggable(q: JsonValue)
  {
    KindLoggable(q, TrueFalse) && KindLoggable(q, MultipleChoice) && KindLoggable(q, Identification)
    && KindLoggable(q, Matching)
  }

  /** The session holds questions that parse and that `logQuestionCounts` accepts. */
  predicate SessionUsable(sessionData: Option<string>, parse: string -> Result<JsonValue>)
  {
    sessionData.Some? && sessionData.value != [] && parse(sessionData.value).Ok?
    && CountsLoggable(parse(sessionData.value).value)
  }

  /** The fetched bank counts without throwing, holds at least one question and can be logged. */
  ghost predicate FetchUsable(fetched: Result<JsonValue>)
  {
    fetched.Ok? && CountTotalQuestions(fetched.value).Ok? && CountTotalQuestions(fetched.value).value > 0
    && CountsLoggable(fetched.value)
  }

  /**
   * `loadQuizQuestions`: a reviewer must be selected. Questions kept in the
   * session are used when they parse and `logQuestionCounts` can read every
   * tier; any throw there falls through to the request. The fetched bank is
   * used when the request succeeded, it counts at least one question and
   * its tiers can be logged. Every failure shows the not-ready message.
   */
  ghost function LoadQuizQuestions(reviewerId: Option<string>, sessionData: Option<string>,
                                   parse: string -> Result<JsonValue>, fetched: Result<JsonValue>): (r: Result<JsonValue>)
    ensures r.Ok? <==> reviewerId.Some? && reviewerId.value != [] && (SessionUsable(sessionData, parse) || FetchUsable(fetched))
    ensures r.Ok? ==> CountsLoggable(r.value)
    ensures r.Ok? && SessionUsable(sessionData, parse) ==> r == parse(sessionData.value)
    ensures r.Ok? && !SessionUsable(sessionData, parse) ==> r == fetched
  {
    if reviewerId.None? || reviewerId.value == [] then Err("No reviewer selected. Please open a reviewer first.")
    else if sessionData.Some? && sessionData.value != [] && parse(sessionData.value).Ok?
            && CountsLoggable(parse(sessionData.value).value) then parse(sessionData.value)
    else if fetched.Err? then Err("Quiz questions not available yet.")
    else
      var count := CountTotalQuestions(fetched.value);
      if count.Err? || count.value == 0 || !CountsLoggable(fetched.value) then Err("Quiz questions not available yet.")
      else fetched
  }

  /** A bank taken from the request counts at least one question and can be logged. */
  lemma LoadedBankNotEmpty(reviewerId: Option<string>, sessionData: Option<string>,
                           parse: string -> Result<JsonValue>, fetched: Result<JsonValue>)
    requires sessionData.None?
    requires LoadQuizQuestions(reviewerId, sessionData, parse, fetched).Ok?
    ensures fetched.Ok? && LoadQuizQuestions(reviewerId, sessionData, parse, fetched) == fetched
    ensures CountTotalQuestions(fetched.value).Ok? && CountTotalQuestions(fetched.value).value > 0
    ensures CountsLoggable(fetched.value)
  {
  }

  /**
   * Session questions that `logQuestionCounts` cannot read (`null`, `{}`, a
   * bank missing a kind or a tier) are dropped: the page loads exactly as
   * if the session held nothing.
   */
  lemma UnloggableSessionFallsBack(reviewerId: Option<string>, sessionData: string,
                                   parse: string -> Result<JsonValue>, fetched: Result<JsonValue>)
    requires parse(sessionData).Ok? && !CountsLoggable(parse(sessionData).value)
    ensures LoadQuizQuestions(reviewerId, Some(sessionData), parse, fetched)
      == LoadQuizQuestions(reviewerId, None, parse, fetched)
  {
  }

  /** `null` and `{}` kept in the session are such questions. */
  lemma NullAndEmptyUnloggable()
    ensures !CountsLoggable(JNull) && !CountsLoggable(JObj(map[]))
  {
  }

  /** A bank of the generator's shape can be logged, so a non-empty one loads from the request. */
  lemma StandardBankLoggable(bank: JsonValue)
    requires StandardBank(bank)
    ensures CountsLoggable(bank)
  {
    assert "easy" in bank.fields["trueFalse"].fields && "easy" in bank.fields["multipleChoice"].fields;
    assert "easy" in bank.fields["identification"].fields && "easy" in bank.fields["matching"].fields;
  }

  /** A fetched bank of the generator's shape with a question in some tier is used when the session holds nothing usable. */
  lemma StandardBankLoads(reviewerId: string, sessionData: Option<string>,
                          parse: string -> Result<JsonValue>, bank: JsonValue)
    requires reviewerId != [] && !SessionUsable(sessionData, parse)
    requires StandardBank(bank)
    requires KindSize(bank, "trueFalse") + KindSize(bank, "multipleChoice") + KindSize(bank, "identification")
      + TierPairs(bank, "easy") + TierPairs(bank, "medium") + TierPairs(bank, "hard") > 0
    ensures LoadQuizQuestions(Some(reviewerId), sessionData, parse, Ok(bank)) == Ok(bank)
  {
    CountStandardBank(bank);
    StandardBankLoggable(bank);
  }

  // ---------------------------------------------------------------------
  // The game cards
  // ---------------------------------------------------------------------

  /** `x.length` where the page needs a count; reading it off `null` or `undefined` throws. */
  function LengthOf(v: Option<JsonValue>): Result<nat>
  {
    if v.None? || v.value == JNull then Result<nat>.Err("Cannot read properties of undefined (reading 'length')")
    else if NatLength(v.value).Some? then Ok(NatLength(v.value).value)
    else Err("length is not a number")
  }

  /** What one tier offers on a card: its questions, or for matching the pairs it holds (none when `pairs` is falsy). */
  function TierCount(bank: JsonValue, t: QuizType, d: Difficulty): Result<nat>
  {
    var kind := Get(bank, QuizTypeKey(t));
    if kind.None? || kind.value == JNull then Err("Cannot read properties of undefined")
    else
      var tier := Get(kind.value, DifficultyName(d));
      if t != Matching then LengthOf(tier)
      else if tier.None? || tier.value == JNull then Err("Cannot read properties of undefined (reading 'pairs')")
      else
        var pairs := Get(tier.value, "pairs");
        if !TruthyOpt(pairs) then Ok(0) else LengthOf(pairs)
  }

  /** The availability a card click passes to `openQuizConfig`; without a loaded bank the click only alerts. */
  function CardAvailability(bank: Option<JsonValue>, t: QuizType): (r: Result<Availability>)
    ensures r.Ok? <==> bank.Some? && Truthy(bank.value) && forall d :: TierCount(bank.value, t, d).Ok?
    ensures r.Ok? ==> forall d :: TierCount(bank.value, t, d) == Ok(Available(r.value, d))
    ensures bank.None? || !Truthy(bank.value) ==> r == Err("Quiz questions not loaded yet!")
  {
    if bank.None? || !Truthy(bank.value) then Err("Quiz questions not loaded yet!")
    else
      var e := TierCount(bank.value, t, Easy);
      var m := TierCount(bank.value, t, Medium);
      var h := TierCount(bank.value, t, Hard);
      if e.Err? then Err(e.error)
      else if m.Err? then Err(m.error)
      else if h.Err? then Err(h.error)
      else Ok(Availability(e.value, m.value, h.value))
  }

  /** On a bank of the generator's shape, a question card offers each tier's number of questions. */
  lemma StandardBankCards(bank: JsonValue, t: QuizType)
    requires StandardBank(bank) && t != Matching
    ensures var key := QuizTypeKey(t);
      CardAvailability(Some(bank), t)
        == Ok(Availability(TierSize(bank, key, "easy"), TierSize(bank, key, "medium"), TierSize(bank, key, "hard")))
  {
    var key := QuizTypeKey(t);
    var tiers := bank.fields[key];
    forall d ensures TierCount(bank, t, d) == Ok(TierSize(bank, key, DifficultyName(d))) {
      assert DifficultyName(d) in tiers.fields;
      QuestionTierCount(bank, t, d);
    }
  }

  /** A tier that is an array offers its number of questions on a question card. */
  lemma QuestionTierCount(bank: JsonValue, t: QuizType, d: Difficulty)
    requires t != Matching && bank.JObj? && QuizTypeKey(t) in bank.fields
    requires bank.fields[QuizTypeKey(t)].JObj? && DifficultyName(d) in bank.fields[QuizTypeKey(t)].fields
    requires bank.fields[QuizTypeKey(t)].fields[DifficultyName(d)].JArr?
    ensures TierCount(bank, t, d) == Ok(TierSize(bank, QuizTypeKey(t), DifficultyName(d)))
  {
  }

  // ---------------------------------------------------------------------
  // Starting a quiz
  // ---------------------------------------------------------------------

  const DefaultInstruction := "Match each term with its definition."

  /** `quizQuestions[type][difficulty]`: the tier, `undefined` when absent; reading a tier of a missing kind throws. */
  function TierOf(bank: JsonValue, t: QuizType, d: Difficulty): Result<Option<JsonValue>>
  {
    var kind := Get(bank, QuizTypeKey(t));
    if kind.None? || kind.value == JNull then Err("Cannot read properties of undefined")
    else Ok(Get(kind.value, DifficultyName(d)))
  }

  /** `matchingData.pairs || []`. */
  function PairsOrEmpty(tier: JsonValue): JsonValue
  {
    var pairs := Get(tier, "pairs");
    if TruthyOpt(pairs) then pairs.value else JArr([])
  }

  /** What `startQuiz` spreads and shuffles: the tier itself, or for matching its pairs (none when `pairs` is falsy). */
  function Pool(tier: JsonValue, t: QuizType): JsonValue
  {
    if t == Matching then PairsOrEmpty(tier) else tier
  }

  /**
   * The questions `startQuiz` stores: the chosen tier shuffled and cut to
   * the requested number. For matching they are that tier's pairs (none
   * when `pairs` is falsy) with the tier's instruction, or the default one.
   */
  function Selection(bank: JsonValue, t: QuizType, d: Difficulty, n: nat, draws: seq<nat>): (r: Result<JsonValue>)
    ensures r.Ok? <==>
      (TierOf(bank, t, d).Ok? && TierOf(bank, t, d).value.Some?
       && (t == Matching ==> TierOf(bank, t, d).value.value != JNull)
       && Spread(Pool(TierOf(bank, t, d).value.value, t)).Ok?)
    ensures r.Ok? ==>
      var all := Spread(Pool(TierOf(bank, t, d).value.value, t)).value;
      (t != Matching ==> r.value.JArr?)
      && (t == Matching ==> r.value.JObj? && r.value.fields.Keys == {"pairs", "instruction"})
      && var chosen := if t == Matching then r.value.fields["pairs"] else r.value;
      chosen.JArr? && |chosen.items| == Min(n, |all|) && multiset(chosen.items) <= multiset(all)
  {
    var tier := TierOf(bank, t, d);
    if tier.Err? then Err(tier.error)
    else if t == Matching then
      if tier.value.None? || tier.value.value == JNull then Err("Cannot read properties of undefined (reading 'pairs')")
      else
        var all := Spread(PairsOrEmpty(tier.value.value));
        if all.Err? then Err(all.error)
        else
          Shuffle.TakePermuted(all.value, draws, n);
          var instruction := Get(tier.value.value, "instruction");
          Ok(JObj(map["pairs" := JArr(Take(Shuffle.Permute(all.value, draws), n)),
                      "instruction" := if TruthyOpt(instruction) then instruction.value else JStr(DefaultInstruction)]))
    else if tier.value.None? then Err("undefined is not iterable")
    else
      var all := Spread(tier.value.value);
      if all.Err? then Err(all.error)
      else
        Shuffle.TakePermuted(all.value, draws, n);
        Ok(JArr(Take(Shuffle.Permute(all.value, draws), n)))
  }

  /**
   * For a quiz type other than matching whose tier is an array, the stored
   * questions are `min(n, available)` of that tier's questions, none
   * repeated more often than it occurs there.
   */
  lemma SelectionTakesFromTier(bank: JsonValue, t: QuizType, d: Difficulty, n: nat, draws: seq<nat>)
    requires t != Matching
    requires Get(bank, QuizTypeKey(t)).Some? && Get(Get(bank, QuizTypeKey(t)).value, DifficultyName(d)).Some?
    requires Get(Get(bank, QuizTypeKey(t)).value, DifficultyName(d)).value.JArr?
    ensures var all := Get(Get(bank, QuizTypeKey(t)).value, DifficultyName(d)).value.items;
      var r := Selection(bank, t, d, n, draws);
      r.Ok? && |r.value.items| == Min(n, |all|) && multiset(r.value.items) <= multiset(all)
  {
    var all := Get(Get(bank, QuizTypeKey(t)).value, DifficultyName(d)).value.items;
    Shuffle.TakePermuted(all, draws, n);
  }

  /**
   * The same for matching: `min(n, available)` of the tier's pairs, where a
   * falsy `pairs` counts as none, so the stored quiz then has no pairs; the
   * default instruction when the tier has none.
   */
  lemma SelectionTakesPairs(bank: JsonValue, d: Difficulty, n: nat, draws: seq<nat>)
    requires Get(bank, "matching").Some? && Get(Get(bank, "matching").value, DifficultyName(d)).Some?
    requires var tier := Get(Get(bank, "matching").value, DifficultyName(d)).value;
      tier != JNull && (!TruthyOpt(Get(tier, "pairs")) || Get(tier, "pairs").value.JArr?)
    ensures var tier := Get(Get(bank, "matching").value, DifficultyName(d)).value;
      var all := if TruthyOpt(Get(tier, "pairs")) then Get(tier, "pairs").value.items else [];
      var r := Selection(bank, Matching, d, n, draws);
      r.Ok? && r.value.fields["pairs"].JArr?
      && |r.value.fields["pairs"].items| == Min(n, |all|) && multiset(r.value.fields["pairs"].items) <= multiset(all)
      && (!TruthyOpt(Get(tier, "pairs")) ==> r.value.fields["pairs"] == JArr([]))
      && (!TruthyOpt(Get(tier, "instruction")) ==> r.value.fields["instruction"] == JStr(DefaultInstruction))
  {
    var tier := Get(Get(bank, "matching").value, DifficultyName(d)).value;
    var all := if TruthyOpt(Get(tier, "pairs")) then Get(tier, "pairs").value.items else [];
    assert Get(bank, "matching").value != JNull;
    Shuffle.TakePermuted(all, draws, n);
  }

  // ---------------------------------------------------------------------
  // The configuration modal
  // ---------------------------------------------------------------------

  /** `quizConfig`, as the modal's handlers update it. */
  class QuizConfig {
    var quizType: QuizType
    var numberOfQuestions: int
    var difficulty: Difficulty
    var timerEnabled: bool
    var timerSeconds: Option<int>
    var available: Availability

    /** The stepper never leaves the chosen tier's count, nor goes below zero. */
    predicate Valid()
      reads this
    {
      0 <= numberOfQuestions <= Available(available, difficulty)
    }

    function TierMax(): nat
      reads this
    {
      Available(available, difficulty)
    }

    function TierMin(): nat
      reads this
    {
      StepperMin(available, difficulty)
    }

    /** `updateButtonStates`: which of the decrease and increase buttons are disabled. */
    function ButtonStates(): (bool, bool)
      reads this
    {
      (numberOfQuestions <= TierMin(), numberOfQuestions >= TierMax())
    }

    /** The configuration the page starts with. */
    constructor()
      ensures Valid()
      ensures quizType == TrueFalse && numberOfQuestions == 10 && difficulty == Easy
      ensures !timerEnabled && timerSeconds == Some(600)
      ensures available == Availability(15, 12, 10)
    {
      quizType := TrueFalse;
      numberOfQuestions := 10;
      difficulty := Easy;
      timerEnabled := false;
      timerSeconds := Some(600);
      available := Availability(15, 12, 10);
    }

    /** `openQuizConfig`: a card's quiz type and availability, ten questions or the whole easy tier, on easy. */
    method OpenQuizConfig(t: QuizType, a: Availability)
      modifies this
      ensures Valid()
      ensures quizType == t && available == a && difficulty == Easy
      ensures numberOfQuestions == Min(10, a.easy)
      ensures timerEnabled == old(timerEnabled) && timerSeconds == old(timerSeconds)
    {
      quizType := t;
      available := a;
      numberOfQuestions := Min(10, a.easy);
      difficulty := Easy;
      SelectDifficulty(Easy);
    }

    /**
     * `decreaseNumber`: one fewer, unless that would go below the lower
     * bound; the decrease button is disabled exactly when a click would
     * change nothing.
     */
    method DecreaseNumber()
      requires Valid()
      modifies this
      ensures Valid()
      ensures quizType == old(quizType) && difficulty == old(difficulty) && available == old(available)
      ensures timerEnabled == old(timerEnabled) && timerSeconds == old(timerSeconds)
      ensures numberOfQuestions == if old(numberOfQuestions) > TierMin() then old(numberOfQuestions) - 1 else old(numberOfQuestions)
      ensures old(ButtonStates().0) <==> numberOfQuestions == old(numberOfQuestions)
      ensures old(numberOfQuestions) >= TierMin() ==> numberOfQuestions >= TierMin()
    {
      if numberOfQuestions > TierMin() {
        numberOfQuestions := numberOfQuestions - 1;
      }
    }

    /**
     * `increaseNumber`: one more, unless that would exceed the tier; the
     * increase button is disabled exactly when a click would change nothing.
     */
    method IncreaseNumber()
      requires Valid()
      modifies this
      ensures Valid()
      ensures quizType == old(quizType) && difficulty == old(difficulty) && available == old(available)
      ensures timerEnabled == old(timerEnabled) && timerSeconds == old(timerSeconds)
      ensures numberOfQuestions == if old(numberOfQuestions) < TierMax() then old(numberOfQuestions) + 1 else old(numberOfQuestions)
      ensures old(ButtonStates().1) <==> numberOfQuestions == old(numberOfQuestions)
    {
      if numberOfQuestions < TierMax() {
        numberOfQuestions := numberOfQuestions + 1;
      }
    }

    /**
     * `selectDifficulty`: the count drops to the new tier's size when it
     * exceeds it, and is otherwise kept, even below that tier's lower bound.
     */
    method SelectDifficulty(d: Difficulty)
      requires 0 <= numberOfQuestions
      modifies this
      ensures Valid()
      ensures difficulty == d && quizType == old(quizType) && available == old(available)
      ensures timerEnabled == old(timerEnabled) && timerSeconds == old(timerSeconds)
      ensures numberOfQuestions == Min(old(numberOfQuestions), Available(available, d))
      ensures old(numberOfQuestions) <= Available(available, d) ==> numberOfQuestions == old(numberOfQuestions)
    {
      difficulty := d;
      var max := Available(available, d);
      if numberOfQuestions > max {
        numberOfQuestions := max;
      }
    }

    /** `toggleTimer`. */
    method ToggleTimer(checked: bool)
      modifies this
      ensures timerEnabled == checked
      ensures quizType == old(quizType) && numberOfQuestions == old(numberOfQuestions) && difficulty == old(difficulty)
      ensures timerSeconds == old(timerSeconds) && available == old(available)
    {
      timerEnabled := checked;
    }

    /** `selectTime`: the option's value as `parseInt` reads it, `NaN` when it holds no number. */
    method SelectTime(seconds: string)
      modifies this
      ensures timerSeconds == ParseInt(seconds)
      ensures quizType == old(quizType) && numberOfQuestions == old(numberOfQuestions) && difficulty == old(difficulty)
      ensures timerEnabled == old(timerEnabled) && available == old(available)
    {
      timerSeconds := ParseInt(seconds);
    }

    /** The configuration as `JSON.stringify` stores it; a `NaN` time becomes `null`. */
    function ConfigJson(): (r: JsonValue)
      reads this
      ensures Get(r, "difficulty") == Some(JStr(DifficultyName(difficulty)))
      ensures Get(r, "quizType") == Some(JStr(QuizTypeKey(quizType)))
    {
      JObj(map[
        "quizType" := JStr(QuizTypeKey(quizType)),
        "numberOfQuestions" := JNum(numberOfQuestions as real),
        "difficulty" := JStr(DifficultyName(difficulty)),
        "timerEnabled" := JBool(timerEnabled),
        "timerSeconds" := if timerSeconds.Some? then JNum(timerSeconds.value as real) else JNull,
        "availableQuestions" := JObj(map["easy" := JNum(available.easy as real),
                                         "medium" := JNum(available.medium as real),
                                         "hard" := JNum(available.hard as real)])])
    }

    /**
     * `startQuiz`: what it stores under `currentQuizConfig` and
     * `currentQuizQuestions` before leaving for the quiz page.
     */
    method StartQuiz(bank: JsonValue, draws: seq<nat>) returns (stored: Result<(JsonValue, JsonValue)>)
      requires Valid()
      ensures var s := Selection(bank, quizType, difficulty, numberOfQuestions, draws);
        stored == if s.Err? then Err(s.error) else Ok((ConfigJson(), s.value))
    {
      var s := Selection(bank, quizType, difficulty, numberOfQuestions, draws);
      if s.Err? {
        return Err(s.error);
      }
      stored := Ok((ConfigJson(), s.value));
    }
  }
}
