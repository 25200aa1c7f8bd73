# SciBrain core, modelled in Dafny

SciBrain turns study material into a reviewer and quizzes. A student uploads
a PDF, an image, plain text, pasted text or a camera scan. The backend asks a
language model for a reviewer (sections and key concepts) and for a bank of
quiz questions in three difficulty tiers, repairing and topping up whatever
the model returns. Offline, the upload page's content processor builds the
same things heuristically. Four quiz pages (true or false, multiple choice,
identification, match and connect) run a session over a selection from the
bank that the games hub makes, and the results page reviews the answers. The
reviewer page shows the reviewer with highlights, notes and bookmarks.

This project models the deterministic core of that pipeline, one Dafny module
per source component:

- `TextUtil`, `Json`, `Shuffle`: the JavaScript string primitives, the values
  `JSON.parse` produces with truthiness and strict equality, and random
  reordering with the draws of `Math.random()` as a parameter.
- `ResponseRepair`, `AiGeneration` (`backend/services/ollamaService.js`):
  repairing a model completion into JSON, assembling the reviewer, and the
  quiz bank's capped, topped-up and fallback cells.
- `Preprocessor`, `Cleaner`, `Patterns`, `Analyzer`, `Concepts`,
  `QuestionGenerator`, `ContentProcessing`
  (`src/pages/UploadPage/contentprocessor.js`): the offline content
  processor, from raw text to sections, key concepts and questions.
- `QuizSession`, `IdentificationGame`, `MultipleChoiceGame`, `TrueFalseGame`,
  `MatchConnect`, `GameResults`, `GamesHub`: grading, the quiz sessions as
  classes whose methods update the page's state one event at a time, and the
  hub's configuration stepper.
- `ReviewerPage`, `UploadPage`, `SignupPage`, `LoginPage`: page logic, with the
  annotation store and the upload form as classes.
- `Server`, `AuthService` (`backend/server.js`,
  `backend/services/authService.js`): CORS, bearer tokens, the routing
  guards, the sign-up and login checks, the e-mail check and the password
  hash format.

Inputs the code reads from outside become parameters: `JSON.parse` is a
function `string -> Result<JsonValue>` whose `Err` stands for a thrown
`SyntaxError`; random draws are a `seq<nat>`; storage reads, model
completions, text extractors, the database lookups and the key-derivation
function are parameters as well. Where the code behaves unexpectedly, the
model follows the code and a lemma states the behaviour (for example
`TrueFalseGame.StringAnswerNeverCorrect`, `Server.TenNetworkMissed`,
`GameResults.ShuffledAnswersMisaligned`, `Cleaner.EllipsisBecomesStop`).

Topping up can lower a tier's count: five or more model questions are kept
as they are, even when the fallback would have given more, and fewer are
topped up from the fallback to the cap (`AiGeneration.TopUpShape`).

Two passes interact in ways the model records. The list pass of
`preprocess` writes `•` bullets, but the junk filter at the start of the next
run replaces `•` by a space, so preprocessing a text twice can change it
again: "- apple pie" gives "• apple pie", which gives "apple pie"
(`Preprocessor.PreprocessNotIdempotent`). In `parseAIResponse` the trailing
commas are removed before an unfinished last object is cut away, so the
comma in front of that object survives: `[{"a":1},{"a":2` reaches
`JSON.parse` as `[{"a":1},` followed by a line break and `]`
(`ResponseRepair.TruncationKeepsComma`).

## Model

| member | source | states |
|---|---|---|
| TextUtil.Lower | backend/server.js:154 | `toLowerCase` keeps the length and maps every character to its lower-case form |
| TextUtil.Upper | src/pages/UploadPage/contentprocessor.js:169 | `toUpperCase` keeps the length and maps every character to its upper-case form |
| TextUtil.TrimStartSlice | src/pages/UploadPage/contentprocessor.js:237 | the leading part `trim` drops is all white space, and what is left is a suffix of the input |
| TextUtil.TrimEndSlice | src/pages/UploadPage/contentprocessor.js:237 | the trailing part `trim` drops is all white space, and what is left is a prefix of the input |
| TextUtil.TrimIsTrimmed | src/pages/SignUpPage/script.js:70 | the trimmed string has no white space at either end and is a slice of its input |
| TextUtil.TrimIdempotent | backend/services/authService.js:40 | trimming twice gives the same string as trimming once |
| TextUtil.TrimEmptyIffAllSpace | src/pages/UploadPage/contentprocessor.js:311 | a string trims to the empty string exactly when all its characters are white space |
| TextUtil.IndexOfFrom | backend/services/ollamaService.js:96 | `indexOf(t, from)` is -1 exactly when `t` does not occur at or after `from`, and otherwise is the first such occurrence |
| TextUtil.IndexOf | backend/services/ollamaService.js:44-45 | `indexOf(t)` is -1 exactly when `t` occurs nowhere, and otherwise is its first occurrence |
| TextUtil.MissingCharacter | src/pages/SignUpPage/script.js:240 | `includes(t)` is false when the string lacks one of the characters of `t` |
| TextUtil.IndexOfCharFrom | backend/services/ollamaService.js:96 | the first position of a character at or after `from`, or -1 exactly when there is none |
| TextUtil.IndexOfChar | backend/services/ollamaService.js:44 | the first position of a character, or -1 exactly when it does not occur |
| TextUtil.LastIndexOfChar | backend/services/ollamaService.js:63 | the last position of a character, or -1 exactly when it does not occur |
| TextUtil.SplitChar | backend/server.js:451 | `split` on one character always gives at least one piece |
| TextUtil.SplitPiecesFree | backend/services/authService.js:14 | no piece of a split contains the separator |
| TextUtil.SplitJoin | src/pages/UploadPage/contentprocessor.js:237 | splitting a join of separator-free pieces gives the pieces back |
| TextUtil.SplitString | src/pages/UploadPage/contentprocessor.js:150 | `split` on a literal separator always gives at least one piece |
| TextUtil.SpaceRun | backend/services/ollamaService.js:233 | the maximal run of white space at a position: all white space, followed by a non-space or the end |
| TextUtil.Run | backend/services/ollamaService.js:234 | the maximal run of characters of a class at a position, followed by one outside the class or the end |
| TextUtil.SplitSpaces | backend/services/ollamaService.js:233 | `split(/\s+/)` gives at least one piece, so the word count is at least one |
| TextUtil.SplitSentenceMarks | backend/services/ollamaService.js:234 | `split(/[.!?]+/)` gives at least one piece |
| TextUtil.SplitBlankLines | backend/services/ollamaService.js:235 | `split(/\n\n+/)` gives at least one piece |
| TextUtil.Take | backend/services/ollamaService.js:286 | `slice(0, n)` is the prefix of length `min(n, length)` |
| TextUtil.Filter | src/pages/UploadPage/contentprocessor.js:311 | `filter` keeps exactly the elements satisfying the predicate, at most as many as there were |
| TextUtil.FilterAppend | src/pages/UploadPage/contentprocessor.js:311 | filtering a concatenation is the concatenation of the filtered parts |
| TextUtil.NatToString | src/pages/GameResults/script.js:531-537 | the decimal form of a number: digits only, no leading zero |
| TextUtil.DecimalOfNatToString | src/pages/GameResults/script.js:531-537 | the decimal form reads back as the number it was made from |
| TextUtil.NatToStringInjective | src/pages/GameResults/script.js:531-537 | distinct numbers have distinct decimal forms |
| TextUtil.ParseIntOfNatToString | backend/server.js:451 | `parseInt` reads back the decimal form of every natural number |
| TextUtil.ReplaceWithoutHits | src/pages/UploadPage/contentprocessor.js:268-274 | a global `replace` whose pattern matches nowhere leaves the text unchanged |
| TextUtil.SubstitutePlain | src/pages/UploadPage/contentprocessor.js:780-782 | a replacement text without `$` is inserted literally |
| TextUtil.ReplaceFirstShape | src/pages/UploadPage/contentprocessor.js:780-782 | `replace` with a string pattern changes only the first occurrence, and nothing when there is none |
| TextUtil.MatchCountFirst | src/pages/UploadPage/contentprocessor.js:693-697 | a positive global match count consists of a first match and the count after it |
| Json.Spread | src/pages/TrueFalseGame/script.js:15-53 | `[...v]` succeeds exactly on arrays (their items) and strings (one element per character) |
| Json.ExponentMark | src/pages/ReviewerPage/script.js:460 | the position of the exponent mark of a numeric literal, if any |
| Json.DecimalFormsAreNumbers | src/pages/ReviewerPage/script.js:460 | `isNaN` is false on the decimal form of a number, signed or in a one-element array |
| Json.NaNExamples | src/pages/ReviewerPage/script.js:460 | `isNaN` is true on words, objects and lists of several values, false on blank strings and the empty list |
| Shuffle.Steps | src/pages/UploadPage/contentprocessor.js:849-856 | the Fisher-Yates swaps keep the length |
| Shuffle.Permute | src/pages/UploadPage/contentprocessor.js:849-856 | the shuffle keeps the length |
| Shuffle.StepsPermutes | src/pages/UploadPage/contentprocessor.js:851-854 | every run of Fisher-Yates swaps is a permutation |
| Shuffle.PermuteIsPermutation | src/pages/UploadPage/contentprocessor.js:849-856 | the shuffle keeps every element with its multiplicity, for every sequence of random draws |
| Shuffle.StepsKeepAbove | src/pages/UploadPage/contentprocessor.js:851-854 | the later iterations leave the positions above the current one alone |
| Shuffle.FirstDrawZeroSendsFirstToLast | src/pages/UploadPage/contentprocessor.js:852-853 | a first draw of zero moves the first element to the last position, where it stays |
| Shuffle.TakePermuted | src/pages/GamesHub/script.js:527 | a cut shuffle holds at most `n` elements, each no more often than in the input |
| Shuffle.SwapInPlace | src/pages/UploadPage/contentprocessor.js:853 | the destructuring swap exchanges two array cells and changes nothing else |
| Shuffle.ShuffleCopy | src/pages/UploadPage/contentprocessor.js:849-856 | the loop over a copy computes exactly the shuffle function, a permutation of its input |
| Shuffle.InsertDesc | src/pages/UploadPage/contentprocessor.js:630 | inserting adds exactly one element |
| Shuffle.SortDesc | src/pages/UploadPage/contentprocessor.js:630 | the sort is a permutation of its input |
| Shuffle.InsertDescSorted | src/pages/UploadPage/contentprocessor.js:630 | inserting into a descending sequence keeps it descending |
| Shuffle.SortDescSorted | src/pages/UploadPage/contentprocessor.js:630 | the sorted order is descending by the key |
| Shuffle.InsertDescDistinct | src/pages/UploadPage/contentprocessor.js:630 | inserting an element with a new name keeps names distinct |
| Shuffle.SortDescDistinct | src/pages/UploadPage/contentprocessor.js:630 | sorting keeps names distinct |
| Shuffle.InsertDescStable | src/pages/UploadPage/contentprocessor.js:630 | among elements of one key, the inserted element comes before those already there |
| Shuffle.SortDescStable | src/pages/UploadPage/contentprocessor.js:630 | the sort is stable: the elements of each key keep their input order and number |
| ResponseRepair.StripJsonFences | backend/services/ollamaService.js:41 | removing ```` ```json ```` fences never lengthens the text |
| ResponseRepair.StripFences | backend/services/ollamaService.js:41 | removing ```` ``` ```` fences never lengthens the text |
| ResponseRepair.FencesOnlyTouchBackticks | backend/services/ollamaService.js:41 | both fence removals leave a text without backticks unchanged |
| ResponseRepair.StripJsonFencesAppend | backend/services/ollamaService.js:41 | a backtick-free prefix passes through the ```` ```json ```` removal untouched |
| ResponseRepair.StripFencesAppend | backend/services/ollamaService.js:41 | a backtick-free prefix passes through the ```` ``` ```` removal untouched |
| ResponseRepair.JsonStart | backend/services/ollamaService.js:44-58 | the JSON start exists exactly when the text has a `[` or `{`, and is the first of them |
| ResponseRepair.CandidateFound | backend/services/ollamaService.js:61-86 | once a start is found the cut always succeeds; it ends at the LAST closer of the same kind, with nothing of that kind after it, and `\n` and the closer are appended exactly when no such closer follows the start |
| ResponseRepair.KeepSkipsRun | backend/services/ollamaService.js:90 | the white space between a trailing comma and its closer is kept, with the closer |
| ResponseRepair.RemoveTrailingCommasKeeps | backend/services/ollamaService.js:90 | the regular-expression pass drops exactly the commas followed by white space and a closer, and keeps every other character in order |
| ResponseRepair.NoTrailingCommaUnchanged | backend/services/ollamaService.js:90 | a text without trailing commas is unchanged |
| ResponseRepair.DoubledCommaSurvives | backend/services/ollamaService.js:90 | one pass leaves `,]` of `,,]`: the first comma of a doubled pair survives |
| ResponseRepair.RepairTruncatedCuts | backend/services/ollamaService.js:94-105 | a repair that changes the text cuts at the last `{`, which no brace closes, and may append `\n]` |
| ResponseRepair.RepairTruncatedCloses | backend/services/ollamaService.js:94-105 | a repaired text, trimmed, ends in `]` |
| ResponseRepair.LastCloserOfFenced | backend/services/ollamaService.js:63 | `lastIndexOf(']')` finds the closing bracket of a fenced array |
| ResponseRepair.ClosingFenceJson | backend/services/ollamaService.js:41 | the ```` ```json ```` pass leaves a bare closing fence alone |
| ResponseRepair.ClosingFence | backend/services/ollamaService.js:41 | the ```` ``` ```` pass removes a closing fence |
| ResponseRepair.OpeningFenceJson | backend/services/ollamaService.js:41 | an opening ```` ```json ```` fence and the line break after it are removed |
| ResponseRepair.UnfencedFenced | backend/services/ollamaService.js:38-41 | a fenced completion loses both of its fences |
| ResponseRepair.CandidateOfFenced | backend/services/ollamaService.js:44-86 | the cut of an unfenced array is the array itself |
| ResponseRepair.FencedArrayExtracted | backend/services/ollamaService.js:34-107 | a lead-in followed by a ```` ```json ```` fenced, complete array without trailing commas yields exactly that array |
| ResponseRepair.RepairedEndsWithCloser | backend/services/ollamaService.js:86-107 | the text handed to `JSON.parse`, trimmed, always ends in `]` or `}` |
| ResponseRepair.TruncationKeepsComma | backend/services/ollamaService.js:88-105 | the truncation repair runs after the comma repair: `[{"a":1},{"a":2` reaches `JSON.parse` as `[{"a":1},\n]`, with a trailing comma |
| ResponseRepair.ParseAIResponseErrors | backend/services/ollamaService.js:56-115 | every error is "Invalid JSON in <context>: …"; the structural error comes exactly from a text with no `[` or `{`; otherwise the result is whatever `JSON.parse` makes of the repaired text |
| AiGeneration.MarkersRewriteOnce | backend/services/ollamaService.js:164-167 | the three chained marker rewrites act as one: at most the first matching marker is rewritten |
| AiGeneration.MarkersKeepPlainLines | backend/services/ollamaService.js:163-167 | non-string lines and lines without a marker pass through unchanged |
| AiGeneration.RewriteSection | backend/services/ollamaService.js:161-168 | a section is rewritten exactly when its `content` is an array; the result keeps every other field and rewrites each line's marker in place |
| AiGeneration.RewriteSectionsFrom | backend/services/ollamaService.js:160-169 | the `map` succeeds exactly when every section has a `content` array, and then yields each section rewritten, in order |
| AiGeneration.ReviewerSections | backend/services/ollamaService.js:128-180 | a usable completion (it repairs, parses and every section has a `content` array) gives its sections rewritten one by one; any failure of the call, the repair, the parse or the shape gives the single overview section |
| AiGeneration.FirstOccurrences | backend/services/ollamaService.js:202-208 | the reference reading of the de-duplication keeps string terms |
| AiGeneration.DedupConcepts | backend/services/ollamaService.js:202-208 | the `Set`-based filter succeeds exactly when every term is a string, and then keeps each concept whose lower-cased term was not seen before |
| AiGeneration.KeysAppend | backend/services/ollamaService.js:204 | the lower-cased keys of a concatenation are the concatenated keys |
| AiGeneration.FirstOccurrencesKeys | backend/services/ollamaService.js:202-208 | the filter keeps one concept per lower-cased term, and every term survives |
| AiGeneration.CapitalWordAt | backend/services/ollamaService.js:496 | a capitalised word match ends after its start, inside the text |
| AiGeneration.BasicTermAt | backend/services/ollamaService.js:496 | a term match, one or two capitalised words, ends after its start, inside the text |
| AiGeneration.Bump | backend/services/ollamaService.js:502 | bumping a term's count adds at most one entry |
| AiGeneration.BumpCounts | backend/services/ollamaService.js:502 | bumping adds one to the bumped term's count, leaves other counts alone and keeps the terms distinct |
| AiGeneration.TallyAllCounts | backend/services/ollamaService.js:499-503 | tallying a list of terms adds each term's number of occurrences to its count |
| AiGeneration.TallyIsCounting | backend/services/ollamaService.js:497-503 | the `Map` of counts lists each distinct term once, with its number of matches in the text |
| AiGeneration.CountBasicTerms | backend/services/ollamaService.js:499-503 | the `exec` loop computes exactly the tally of all pattern matches from the start of the text |
| AiGeneration.Frequent | backend/services/ollamaService.js:505-506 | the kept terms were counted at least twice and are longer than four characters |
| AiGeneration.ExtractBasicConcepts | backend/services/ollamaService.js:494-518 | the method returns the concepts of the tally of its text |
| AiGeneration.BasicConceptsShape | backend/services/ollamaService.js:505-517 | between one and twenty concepts: "Main Topic" when no term qualifies, else frequent terms by descending count, each defined by its count |
| AiGeneration.ReviewerSectionsFallback | backend/services/ollamaService.js:177-224 | whenever the section step fails (call, repair, parse or a section without a `content` array), the reviewer has one "Overview" section of the first 500 characters |
| AiGeneration.NestedLineText | backend/services/ollamaService.js:223 | a nested array in a content line shows as its items joined by commas, `null` as nothing |
| AiGeneration.RawContentKeepsLines | backend/services/ollamaService.js:218-224 | a section of space-free string lines has a `rawContent` that splits back into those lines, and the first line as its summary |
| AiGeneration.ReviewerConceptList | backend/services/ollamaService.js:199-214 | a usable concept completion (an array whose every `term` is a string) is de-duplicated by lower-cased term; any other outcome gives the heuristic concepts |
| AiGeneration.ReviewerConceptsFallback | backend/services/ollamaService.js:211-214 | whenever the concept step fails (call, repair, parse, not an array, or a term that is not a string), the reviewer still lists one to twenty concepts, each with exactly a term and a definition |
| AiGeneration.ReviewerConceptsRanked | backend/services/ollamaService.js:225-231 | each concept's confidence is 0.95 minus 0.02 per position, strictly decreasing, occurrences within 2–6 |
| AiGeneration.FallbackTFShape | backend/services/ollamaService.js:520-541 | one question per concept up to 15, 12 and 10: easy all true, medium alternating from true, hard all false, each explained by its definition |
| AiGeneration.FallbackMCKeyed | backend/services/ollamaService.js:543-565 | every fallback multiple-choice question is keyed by its concept's definition, up to 15, 12 and 10 questions |
| AiGeneration.ModelCell | backend/services/ollamaService.js:286 | a cell taken from the model holds at most its cap of questions |
| AiGeneration.TopUpShape | backend/services/ollamaService.js:330-338 | the top-up keeps the model's questions first and stays within the cap; five or more model questions are kept as they are, fewer are topped up from the fallback |
| AiGeneration.FirstWordsCount | backend/services/ollamaService.js:461 | keeping the first `n` words keeps exactly `min(n, words)` words, unchanged |
| AiGeneration.IdentificationAnswersAreTerms | backend/services/ollamaService.js:448-465 | each identification question's answer is its concept's term; the question is the definition, its first 80 characters, or its first ten words |
| AiGeneration.MatchingPairsTerms | backend/services/ollamaService.js:472-485 | matching pairs join each of the first 10, 8 and 6 terms to its own definition, cut to 80 characters or eight words |
| AiGeneration.TrueFalseCellsShape | backend/services/ollamaService.js:265-343 | cells stay within 15, 12 and 10; any failed true/false completion replaces all three cells by the fallback |
| AiGeneration.MultipleChoiceCellsShape | backend/services/ollamaService.js:348-442 | cells stay within 15, 12 and 10; any failed multiple-choice completion replaces all three cells by the fallback |
| Preprocessor.LastLineEnd | src/pages/UploadPage/contentprocessor.js:31 | the last line break inside a stretch, if there is one |
| Preprocessor.HyphenBreakJoins | src/pages/UploadPage/contentprocessor.js:31 | a word, a hyphen at the line end and the next word are joined into one word |
| Preprocessor.LoneLNeverMatches | src/pages/UploadPage/contentprocessor.js:37 | the `l`-to-`I` correction never applies: `\b` after the `l` and a capital letter next cannot both hold |
| Preprocessor.ReplaceJunkKeeps | src/pages/UploadPage/contentprocessor.js:43 | the junk filter keeps the length, puts a space for every character outside the kept class and leaves kept ones in place |
| Preprocessor.FixExtractionIssuesClean | src/pages/UploadPage/contentprocessor.js:29-46 | after the extraction fixes every character is a word character, white space or a kept symbol |
| Preprocessor.CapitalisedCount | src/pages/UploadPage/contentprocessor.js:175 | the number of words starting with a capital is at most the number of words |
| Preprocessor.UpperOfShouted | src/pages/UploadPage/contentprocessor.js:169 | a line without lower-case letters equals its upper-case form |
| Preprocessor.HeadingShape | src/pages/UploadPage/contentprocessor.js:157-187 | a likely heading has 2 to 15 words, and every line of 2 to 10 words without lower-case letters is one, whatever its neighbours |
| Preprocessor.CapWordEnd | src/pages/UploadPage/contentprocessor.js:129 | a `[A-Z][a-z]+` match starts with a capital and is at least two characters long |
| Preprocessor.ChainFrom | src/pages/UploadPage/contentprocessor.js:129 | the repeated `\s+[A-Z][a-z]+` group never ends before it starts nor past the text |
| Preprocessor.TermChainEnd | src/pages/UploadPage/contentprocessor.js:129-139 | a term match starts with a capital and has at least two characters |
| Preprocessor.DefinitionEntryShape | src/pages/UploadPage/contentprocessor.js:129 | each definition match starts with a capital, holds a colon, and ends at the end of the line or just before a colon |
| Preprocessor.MultipleDefinitionsNeedThreeColons | src/pages/UploadPage/contentprocessor.js:127-132 | two definition matches need three colons: the greedy `[^:]{10,}` runs up to the next colon, so a line with two definitions counts only once |
| Preprocessor.LazyDefinitionEnd | src/pages/UploadPage/contentprocessor.js:139 | the lazy definition group ends at or after its first candidate position |
| Preprocessor.DefinitionAfterColon | src/pages/UploadPage/contentprocessor.js:139 | the definition group is non-empty and lies after the colon |
| Preprocessor.SplitEntryAt | src/pages/UploadPage/contentprocessor.js:139-146 | a `splitDefinitions` match is non-empty and inside the line |
| Preprocessor.SplitAtCutsFrom | src/pages/UploadPage/contentprocessor.js:150 | the sentence split always gives at least one piece |
| Preprocessor.NonBlankTrimmed | src/pages/UploadPage/contentprocessor.js:95-99 | the definitions kept are non-empty and trimmed |
| Preprocessor.AppendDefinitions | src/pages/UploadPage/contentprocessor.js:95-99 | the `forEach` appends exactly the trimmed non-blank definitions, in order |
| Preprocessor.RestoreLine | src/pages/UploadPage/contentprocessor.js:55-116 | one iteration of the loop performs one step of the reference rebuild |
| Preprocessor.RestoreParagraphStructure | src/pages/UploadPage/contentprocessor.js:48-125 | the loop computes exactly the reference paragraph rebuild |
| Preprocessor.JoinTrimmed | src/pages/UploadPage/contentprocessor.js:60 | joining non-empty trimmed lines with spaces gives a trimmed paragraph |
| Preprocessor.StepTrimmed | src/pages/UploadPage/contentprocessor.js:55-116 | each step keeps every written and every collected line trimmed |
| Preprocessor.RebuildTrimmed | src/pages/UploadPage/contentprocessor.js:54-122 | trimmed lines stay trimmed to the end of the rebuild |
| Preprocessor.RestoredLinesTrimmed | src/pages/UploadPage/contentprocessor.js:48-125 | every line the paragraph rebuild writes is trimmed |
| Preprocessor.FormatListLine | src/pages/UploadPage/contentprocessor.js:195-218 | one iteration pushes exactly the reference's lines for that line and updates the open-list flag as the reference does |
| Preprocessor.FormatListLines | src/pages/UploadPage/contentprocessor.js:194-219 | the loop computes exactly the reference list pass |
| Preprocessor.DetectAndFormatLists | src/pages/UploadPage/contentprocessor.js:189-222 | the method returns the reference list formatting of its text |
| Preprocessor.NonBlankAppend | src/pages/UploadPage/contentprocessor.js:197-218 | dropping blank lines distributes over concatenation |
| Preprocessor.ListLinesKeepContent | src/pages/UploadPage/contentprocessor.js:189-222 | apart from the blank lines around lists, the pass keeps every non-blank line, trimmed, in order, with list items rewritten |
| Preprocessor.NumberedItemKeepsStop | src/pages/UploadPage/contentprocessor.js:210-211 | only one marker character goes: a line opening with one digit, a full stop and a space is a list item whose digit alone is replaced by the bullet, so "1. X" becomes "• . X" |
| Preprocessor.TrimEach | src/pages/UploadPage/contentprocessor.js:237 | `map(line => line.trim())` trims each line and keeps the count |
| Preprocessor.CollapseNoDouble | src/pages/UploadPage/contentprocessor.js:231 | after `/ {2,}/g` no two spaces stand side by side |
| Preprocessor.CapKeepsNoDouble | src/pages/UploadPage/contentprocessor.js:234 | capping line breaks creates no double space |
| Preprocessor.TrimNoDouble | src/pages/UploadPage/contentprocessor.js:237-239 | trimming creates no double space |
| Preprocessor.JoinLinesNoDouble | src/pages/UploadPage/contentprocessor.js:237 | joining lines without double spaces by line breaks creates none |
| Preprocessor.CleanWhitespaceNoDoubleSpace | src/pages/UploadPage/contentprocessor.js:229-240 | after `cleanWhitespace` no two spaces stand side by side |
| Preprocessor.DropLeadingBlanks | src/pages/UploadPage/contentprocessor.js:239 | dropping the blank lines at the front leaves a suffix starting with a non-blank line |
| Preprocessor.DropTrailingBlanks | src/pages/UploadPage/contentprocessor.js:239 | dropping the blank lines at the end leaves a prefix ending with a non-blank line |
| Preprocessor.TrimStartJoin | src/pages/UploadPage/contentprocessor.js:239 | trimming the start of trimmed lines joined by line breaks drops the leading blank lines |
| Preprocessor.TrimEndJoin | src/pages/UploadPage/contentprocessor.js:239 | trimming the end of trimmed lines joined by line breaks drops the trailing blank lines |
| Preprocessor.TrimJoinedLines | src/pages/UploadPage/contentprocessor.js:237-239 | the final trim drops exactly the blank lines at both ends |
| Preprocessor.CleanWhitespaceIsJoin | src/pages/UploadPage/contentprocessor.js:229-240 | `cleanWhitespace` keeps the trimmed lines from the first non-blank one to the last |
| Preprocessor.CleanWhitespaceTrimmed | src/pages/UploadPage/contentprocessor.js:229-240 | the result and each of its lines have no white space at either end |
| Preprocessor.BlankLinesSurviveCap | src/pages/UploadPage/contentprocessor.js:234-237 | the cap runs before lines are trimmed, so "a\n \n \nb" keeps three line breaks |
| Preprocessor.Preprocess | src/pages/UploadPage/contentprocessor.js:9-27 | the four passes in order; the result is trimmed, line by line, with no double spaces |
| Preprocessor.FixExtractionDropsBullets | src/pages/UploadPage/contentprocessor.js:43 | the junk filter replaces every `•`, which is outside its kept class |
| Preprocessor.PreprocessNotIdempotent | src/pages/UploadPage/contentprocessor.js:9-27 | "- apple pie" preprocesses to "• apple pie", whose bullet the next run's junk filter blanks, giving "apple pie" |
| Cleaner.TrimNoPair | src/pages/UploadPage/contentprocessor.js:256 | the final trim introduces no forbidden pair of neighbours |
| Cleaner.NoiseMixClears | src/pages/UploadPage/contentprocessor.js:262 | after `/[;:,.'"\-_]{3,}/g` no three noise characters stand together |
| Cleaner.NoTripleNoDots | src/pages/UploadPage/contentprocessor.js:263 | a text without three noise characters together has no run of four full stops to shorten |
| Cleaner.NoiseRemoved | src/pages/UploadPage/contentprocessor.js:259-266 | after `removeNoisePatterns` no three noise characters stand together, and its last step changes nothing |
| Cleaner.EllipsisBecomesStop | src/pages/UploadPage/contentprocessor.js:261 | the same-character step turns "..." into a single full stop, although the comment means to keep ellipses |
| Cleaner.SpaceBeforeMarkGone | src/pages/UploadPage/contentprocessor.js:270 | after `/\s+([.,!?;:])/g` no white space stands before a punctuation mark |
| Cleaner.LetterSpacingKeeps | src/pages/UploadPage/contentprocessor.js:271 | inserting a space between a mark and a letter puts no white space before a mark |
| Cleaner.NormalizedNoSpaceBeforeMark | src/pages/UploadPage/contentprocessor.js:268-274 | after `normalizeWhitespace` no white space stands directly before `.`, `,`, `!`, `?`, `;` or `:` |
| Cleaner.RepeatCollapse | src/pages/UploadPage/contentprocessor.js:277-278 | collapsing repeats leaves no mark of the class doubled and keeps the first character |
| Cleaner.RepeatCollapseKeeps | src/pages/UploadPage/contentprocessor.js:277-278 | collapsing one class keeps the other class undoubled and adds no white space before a mark |
| Cleaner.DuplicatesRemoved | src/pages/UploadPage/contentprocessor.js:276-281 | after `removeDuplicatePunctuation` no mark of `!?.` or of `,;:` is doubled, and no space appears before a mark |
| Cleaner.CleanShape | src/pages/UploadPage/contentprocessor.js:248-257 | a cleaned text is trimmed, has no white space before punctuation and doubles none of `!?.,;:` |
| Patterns.Sentences | src/pages/UploadPage/contentprocessor.js:311 | the sentences kept are not blank |
| Patterns.NonBlankOnly | src/pages/UploadPage/contentprocessor.js:311 | the filter keeps only non-blank pieces, no more than there were |
| Patterns.ConnectorEnd | src/pages/UploadPage/contentprocessor.js:314-318 | the connector (`is a`, `are`, `means`, `refers to`, `:`) ends after it starts |
| Patterns.SecondGroup | src/pages/UploadPage/contentprocessor.js:314-318 | the second group `(.{10,200})` holds 10 to 200 characters after the connector |
| Patterns.MatchWithLength | src/pages/UploadPage/contentprocessor.js:314-318 | a match with a bounded first group has a first group of at least three characters and a second of 10 to 200 |
| Patterns.TemplateMatchFrom | src/pages/UploadPage/contentprocessor.js:323 | `match` gives a first group of 3 to 50 characters and a second of 10 to 200 after it |
| Patterns.StripArticle | src/pages/UploadPage/contentprocessor.js:331 | removing a leading article never lengthens the term |
| Patterns.DefinitionsIn | src/pages/UploadPage/contentprocessor.js:321-339 | at most one definition per sentence |
| Patterns.FindDefinitions | src/pages/UploadPage/contentprocessor.js:309-342 | at most one definition per sentence of the text |
| Patterns.TemplateDefinitionShape | src/pages/UploadPage/contentprocessor.js:324-334 | an accepted match has a definition of at least three words and at most 200 characters, a term of at most 50, and the trimmed sentence as full text |
| Patterns.FirstDefinitionIsFirst | src/pages/UploadPage/contentprocessor.js:322-337 | the definition of a sentence comes from the first template whose match passes the word check |
| Patterns.FirstDefinitionShape | src/pages/UploadPage/contentprocessor.js:322-337 | the definition chosen for a sentence passes the word check and its length bounds |
| Patterns.DefinitionsInShape | src/pages/UploadPage/contentprocessor.js:309-342 | every definition found passes the word check and comes from a sentence of the text |
| Patterns.KeywordSentences | src/pages/UploadPage/contentprocessor.js:351-359 | at most one entry per sentence, each with the first 100 characters of its sentence as excerpt |
| Patterns.KeywordSentencesSound | src/pages/UploadPage/contentprocessor.js:344-382 | every process or classification reported comes from a sentence containing one of its keywords |
| Patterns.KeywordSentencesComplete | src/pages/UploadPage/contentprocessor.js:344-382 | every sentence containing a keyword is reported |
| Patterns.Items | src/pages/UploadPage/contentprocessor.js:393 | one item per line of the run |
| Patterns.FindLists | src/pages/UploadPage/contentprocessor.js:384-414 | the loop computes exactly the reference list detection of the text |
| Patterns.FindListsIn | src/pages/UploadPage/contentprocessor.js:389-411 | the loop over the lines computes the reference lists of those lines |
| Patterns.ListLine | src/pages/UploadPage/contentprocessor.js:390-402 | one iteration extends the current run of items, or ends it, reporting it when it has two items, and keeps the run equal to the items of the lines it covers |
| Patterns.ListsFromBreak | src/pages/UploadPage/contentprocessor.js:394-402 | a non-list line ends the run, reporting it with its context when it has at least two items |
| Patterns.ListsOfShape | src/pages/UploadPage/contentprocessor.js:384-414 | every list reported is a maximal run of at least two list lines, with the line before it as context, or '' when the run reaches the end |
| Patterns.NumberedLineIsNotListLine | src/pages/UploadPage/contentprocessor.js:392 | "1. X" is not a list line: the class takes the digit and then wants white space at the full stop |
| Patterns.BulletLineIsListLine | src/pages/UploadPage/contentprocessor.js:392 | a dash, a space and text make a list line |
| Patterns.DetectPatterns | src/pages/UploadPage/contentprocessor.js:289-307 | the four detectors' results, with at most one definition per sentence and at least two items per list |
| Analyzer.KeptSentences | src/pages/UploadPage/contentprocessor.js:438-439 | the kept pieces are trimmed, long enough sentences, no more than there were pieces |
| Analyzer.ExtractSentences | src/pages/UploadPage/contentprocessor.js:434-440 | every sentence returned is trimmed, longer than 15 characters and has at least four words |
| Analyzer.OneSentence | src/pages/UploadPage/contentprocessor.js:434-440 | a text without a sentence mark followed by white space is the one sentence of its trimmed form, when that is long enough |
| Analyzer.NewContentAnalyzer | src/pages/UploadPage/contentprocessor.js:422-432 | the analysis of the preprocessed, cleaned text: non-blank lines without line breaks, non-blank paragraphs, and the extracted sentences |
| Analyzer.NonBlankOnlyKeeps | src/pages/UploadPage/contentprocessor.js:428 | filtering lines keeps only pieces of the split, so none holds a line break |
| Analyzer.HeadingBounds | src/pages/UploadPage/contentprocessor.js:497-512 | a heading is non-empty, at most 100 characters long and has 2 to 12 words |
| Analyzer.ShoutedLineIsHeading | src/pages/UploadPage/contentprocessor.js:497-518 | every line of 2 to 12 words and at most 100 characters without lower-case letters is a level-1 heading |
| Analyzer.HeadingLevel | src/pages/UploadPage/contentprocessor.js:514-518 | the level is 2 exactly when the line is neither numbered nor all upper case, and 1 otherwise |
| Analyzer.TrailingRun | src/pages/UploadPage/contentprocessor.js:525 | the maximal run of stops and colons at the end of a line |
| Analyzer.DropsArePieces | src/pages/UploadPage/contentprocessor.js:522-524 | the three marker removals only drop a prefix |
| Analyzer.CleanHeadingShape | src/pages/UploadPage/contentprocessor.js:520-527 | a cleaned heading is trimmed and a contiguous piece of its line |
| Analyzer.CleanHeadingDropsStops | src/pages/UploadPage/contentprocessor.js:525-526 | a title followed by stops and colons, without a marker in front, loses exactly those |
| Analyzer.SectionStep | src/pages/UploadPage/contentprocessor.js:449-480 | each paragraph leaves a section open, and either keeps the finished sections or adds the previous one |
| Analyzer.DetectSections | src/pages/UploadPage/contentprocessor.js:442-495 | the loop computes exactly the reference sections of the paragraphs |
| Analyzer.SectionsFilled | src/pages/UploadPage/contentprocessor.js:457-484 | every section returned has content |
| Analyzer.SectionsFromIntroduction | src/pages/UploadPage/contentprocessor.js:455-467 | once the first section is the introduction it stays first |
| Analyzer.SplitHasNonBlank | src/pages/UploadPage/contentprocessor.js:449 | a paragraph that is not blank has a line that is not blank |
| Analyzer.ParagraphHasLines | src/pages/UploadPage/contentprocessor.js:449 | a non-blank paragraph has lines |
| Analyzer.IntroductionOpens | src/pages/UploadPage/contentprocessor.js:455-467 | when the first paragraph does not start with a heading, the sections begin with an "Introduction" |
| Analyzer.KeyTermsOf | src/pages/UploadPage/contentprocessor.js:561-565 | every word kept is capitalised, at least four characters long and not a common word |
| Analyzer.ExtractKeyTerms | src/pages/UploadPage/contentprocessor.js:559-567 | at most three key terms, each capitalised, long enough and not common |
| Analyzer.CeilDiv | src/pages/UploadPage/contentprocessor.js:531 | `Math.ceil(m / p)`: the least number of parts of size `p` that cover `m` |
| Analyzer.Part | src/pages/UploadPage/contentprocessor.js:535-553 | a part holds the next `per` sentences, or the rest, at level 2 |
| Analyzer.SplitLargeSection | src/pages/UploadPage/contentprocessor.js:529-557 | the method returns the reference split of the section |
| Analyzer.PartsOf | src/pages/UploadPage/contentprocessor.js:534-554 | the loop stepping by `per` computes the reference parts |
| Analyzer.PartsContents | src/pages/UploadPage/contentprocessor.js:534-554 | the parts' contents, concatenated, are the sentences, in order |
| Analyzer.PartsCount | src/pages/UploadPage/contentprocessor.js:534 | there are `⌈n / per⌉` parts |
| Analyzer.PartsFilled | src/pages/UploadPage/contentprocessor.js:548-553 | every part has sentences and level 2 |
| Analyzer.CeilDivAtMost | src/pages/UploadPage/contentprocessor.js:531 | `⌈m / p⌉` is at most `k` when `m <= k p` |
| Analyzer.SplitLargeShape | src/pages/UploadPage/contentprocessor.js:529-557 | a section is kept whole or split into 2 to 4 non-empty level-2 parts, `⌈n / ⌈n/4⌉⌉` of them, covering its sentences in order; it is split exactly when it has at least two sentences |
| Concepts.TionAnywhere | src/pages/UploadPage/contentprocessor.js:672-674 | "tion" anywhere in a word makes it substantive: "rationale" counts |
| Concepts.MentOnlyAtEnd | src/pages/UploadPage/contentprocessor.js:672-674 | "ment" counts only at the end of a word: "momentum" is not substantive |
| Concepts.TermHit | src/pages/UploadPage/contentprocessor.js:694 | a whole-word match of the term covers exactly the term's length |
| Concepts.CountZero | src/pages/UploadPage/contentprocessor.js:693-697 | a term that occurs nowhere as a whole word, in any case, has no occurrences |
| Concepts.FindDefinitionFor | src/pages/UploadPage/contentprocessor.js:684-691 | either '' or the first 150 characters of a sentence that holds the term and a link word |
| Concepts.NextCapitalWord | src/pages/UploadPage/contentprocessor.js:597 | the next capitalised word of a phrase ends after the previous one |
| Concepts.CapitalPhraseAt | src/pages/UploadPage/contentprocessor.js:597 | a phrase match of one to three capitalised words ends after its start, inside the text |
| Concepts.CountedOnly | src/pages/UploadPage/contentprocessor.js:605-610 | only phrases that are unseen, uncommon and valid are counted |
| Concepts.CountCapitalPhrases | src/pages/UploadPage/contentprocessor.js:597-611 | the `exec` loop computes exactly the reference frequency map |
| Concepts.ScanStep | src/pages/UploadPage/contentprocessor.js:601-611 | one `exec` moves the search forward and adds the counted match, if any, to the frequencies |
| Concepts.SetNewConcept | src/pages/UploadPage/contentprocessor.js:585-618 | `Map.set` with a new term appends the concept |
| Concepts.ExtractKeyConcepts | src/pages/UploadPage/contentprocessor.js:569-635 | the method returns the reference key concepts of the analysed text |
| Concepts.DefinitionConcepts | src/pages/UploadPage/contentprocessor.js:576-594 | the loop over the definitions computes the reference definition phase |
| Concepts.FrequentConcepts | src/pages/UploadPage/contentprocessor.js:614-627 | the loop over the frequency map computes the reference frequency phase |
| Concepts.AddKeepsGood | src/pages/UploadPage/contentprocessor.js:584-593 | adding a valid, well-rated concept with a new lower-case term keeps the terms distinct up to case |
| Concepts.DefinitionPhaseGood | src/pages/UploadPage/contentprocessor.js:576-594 | the definition phase yields only definition concepts, distinct up to case, and records every accepted term as seen |
| Concepts.TallyAllCounted | src/pages/UploadPage/contentprocessor.js:601-611 | the frequency map holds only terms that passed the filter |
| Concepts.FrequencyStepGood | src/pages/UploadPage/contentprocessor.js:617-626 | each frequent term added is new, keeping the terms distinct up to case |
| Concepts.FrequentAddGood | src/pages/UploadPage/contentprocessor.js:618-625 | adding one frequent concept, counted three times or more with confidence `min(count/8, 0.8)`, keeps both invariants |
| Concepts.FrequencyPhaseGood | src/pages/UploadPage/contentprocessor.js:614-627 | the frequency phase keeps the earlier concepts and adds none whose term was seen |
| Concepts.SortTakeKeeps | src/pages/UploadPage/contentprocessor.js:629-631 | sorting and the cut to 25 keep every fact that held of each concept |
| Concepts.PhasesGood | src/pages/UploadPage/contentprocessor.js:576-627 | after both phases the terms are distinct up to case, and no frequent concept repeats a definition term |
| Concepts.RankedShape | src/pages/UploadPage/contentprocessor.js:629-631 | the ranked list has at most 25 concepts, sorted by confidence, distinct up to case, with definition concepts first |
| Concepts.KindsOrdered | src/pages/UploadPage/contentprocessor.js:588-630 | sorted by confidence, definition concepts (0.95) come before frequent ones (at most 0.8) |
| Concepts.KeyConceptsShape | src/pages/UploadPage/contentprocessor.js:569-635 | at most 25 concepts, sorted by descending confidence, pairwise distinct up to case, valid terms, definition concepts first, and no frequent concept repeating an accepted definition term |
| QuestionGenerator.VerbIsAWholeWord | src/pages/UploadPage/contentprocessor.js:771 | the verb must stand as a whole word, in any letter case: "this" has none, "It IS" has one |
| QuestionGenerator.FactualSentences | src/pages/UploadPage/contentprocessor.js:749-750 | only factual sentences of the analysis are kept |
| QuestionGenerator.FactualSentencesComplete | src/pages/UploadPage/contentprocessor.js:749-750 | every factual sentence is kept |
| QuestionGenerator.CeilThreeFifths | src/pages/UploadPage/contentprocessor.js:751 | `Math.ceil(n * 0.6)`: the least integer at least three fifths of `n` |
| QuestionGenerator.FloorTwoFifths | src/pages/UploadPage/contentprocessor.js:762 | `Math.floor(n * 0.4)`: the greatest integer at most two fifths of `n` |
| QuestionGenerator.FindOther | src/pages/UploadPage/contentprocessor.js:777 | `find` returns the first concept of the same kind with another term, or none exactly when there is no such concept |
| QuestionGenerator.FalseStatement | src/pages/UploadPage/contentprocessor.js:776-785 | null exactly when no other concept of the same kind exists; otherwise a false item whose question swaps in the other term and whose explanation names both |
| QuestionGenerator.TrueItems | src/pages/UploadPage/contentprocessor.js:753-759 | one true item per factual sentence, with the fixed explanation |
| QuestionGenerator.FalseItems | src/pages/UploadPage/contentprocessor.js:762-765 | at most one false item per chosen concept |
| QuestionGenerator.GenerateTrueFalse | src/pages/UploadPage/contentprocessor.js:745-768 | the method returns the reference true/false questions for the draws of its shuffle |
| QuestionGenerator.PushTrue | src/pages/UploadPage/contentprocessor.js:753-759 | the `forEach` pushes exactly the true items |
| QuestionGenerator.PushFalse | src/pages/UploadPage/contentprocessor.js:762-765 | the `forEach` pushes exactly the non-null false statements |
| QuestionGenerator.FalseItemsSnoc | src/pages/UploadPage/contentprocessor.js:763-764 | each further concept adds its false statement when there is one |
| QuestionGenerator.TrueFalseShape | src/pages/UploadPage/contentprocessor.js:745-768 | at most `count` items taken from the candidates without repetition: at most ⌈0.6 count⌉ true ones, each a factual sentence, and at most ⌊0.4 count⌋ false ones |
| QuestionGenerator.DistractorConcepts | src/pages/UploadPage/contentprocessor.js:810-811 | the distractor concepts have a definition other than the correct one |
| QuestionGenerator.Truncated | src/pages/UploadPage/contentprocessor.js:812 | each distractor is its definition cut to 100 characters |
| QuestionGenerator.OptionBase | src/pages/UploadPage/contentprocessor.js:809-815 | the correct answer first, then at most three distractors |
| QuestionGenerator.Pad | src/pages/UploadPage/contentprocessor.js:816-818 | the filler loop pads to at least four options |
| QuestionGenerator.OptionsOf | src/pages/UploadPage/contentprocessor.js:808-821 | there are always exactly four options |
| QuestionGenerator.MakeOptions | src/pages/UploadPage/contentprocessor.js:808-821 | the method returns the reference options for the draws of its shuffle |
| QuestionGenerator.PadShape | src/pages/UploadPage/contentprocessor.js:816-818 | padding keeps the options in front and adds only the filler, up to exactly four |
| QuestionGenerator.DistractorsAreDistractors | src/pages/UploadPage/contentprocessor.js:810-813 | every distractor is a truncated definition of another concept, at most 100 characters |
| QuestionGenerator.PaddedShape | src/pages/UploadPage/contentprocessor.js:809-818 | before the shuffle the options are the base followed by fillers |
| QuestionGenerator.OptionsShape | src/pages/UploadPage/contentprocessor.js:808-821 | four options, a permutation of the correct answer, at most three distractors and fillers; the correct answer is among them |
| QuestionGenerator.CorrectIndexCanMiss | src/pages/UploadPage/contentprocessor.js:794-799 | `correctIndex` 0 is recorded whatever the shuffle did: a first draw of zero puts the correct answer last, not first |
| QuestionGenerator.OnlyOnceAtLast | src/pages/UploadPage/contentprocessor.js:820 | an option that occurs once and is shuffled to the end is not at the front |
| QuestionGenerator.LongerThan | src/pages/UploadPage/contentprocessor.js:791 | the filter keeps concepts whose definition is longer than the bound |
| QuestionGenerator.LongerThanComplete | src/pages/UploadPage/contentprocessor.js:791 | every concept with a long enough definition is kept |
| QuestionGenerator.GenerateMultipleChoice | src/pages/UploadPage/contentprocessor.js:787-806 | the method returns the reference multiple-choice questions for the draws |
| QuestionGenerator.ChoicesFromSnoc | src/pages/UploadPage/contentprocessor.js:793-803 | each further concept adds its item |
| QuestionGenerator.ChoicesFromAll | src/pages/UploadPage/contentprocessor.js:795 | the options always number four, so every chosen concept gives an item |
| QuestionGenerator.MultipleChoiceShape | src/pages/UploadPage/contentprocessor.js:787-806 | one item per chosen concept with a definition over 20 characters: "What is <term>?", four options holding the definition, which is also the explanation, and `correctIndex` 0 |
| QuestionGenerator.Identifications | src/pages/UploadPage/contentprocessor.js:827-831 | one identification per chosen concept: its definition, term and hint |
| QuestionGenerator.IdentificationShape | src/pages/UploadPage/contentprocessor.js:823-832 | `min(count, eligible)` items, each asking with a definition over 15 characters for its own term, with the first letter as hint |
| QuestionGenerator.PairsOf | src/pages/UploadPage/contentprocessor.js:838-841 | one pair per chosen concept: its term and its definition cut to 100 characters |
| QuestionGenerator.MatchingShape | src/pages/UploadPage/contentprocessor.js:834-847 | the pairs are a reordering of the term/definition pairs of the first `count` concepts with a definition |
| QuestionGenerator.GenerateAllQuestions | src/pages/UploadPage/contentprocessor.js:725-743 | the method returns the reference question set for 12, 12, 10 and 8 questions |
| QuestionGenerator.AllQuestionsBounds | src/pages/UploadPage/contentprocessor.js:725-762 | the per-type caps, and at most 8 true and 4 false candidates |
| ContentProcessing.ReadTime | src/pages/UploadPage/contentprocessor.js:895 | `Math.ceil(words / 200)`: the least number of 200-word minutes covering the words |
| ContentProcessing.ProcessContentAdvanced | src/pages/UploadPage/contentprocessor.js:862-910 | the method returns the reference reviewer data of the text and title |
| ContentProcessing.ReviewerDataShape | src/pages/UploadPage/contentprocessor.js:862-910 | the title as given, sections with content, at most 25 concepts distinct up to case, the question caps, and a reading time that covers the word count |
| QuizSession.Percentage | src/pages/IdentificationGame/script.js:437 | `Math.round(score / total * 100)`: none (`NaN`) exactly for zero questions, otherwise the integer nearest to `100 score / total`, halves rounded up |
| QuizSession.PercentageRange | src/pages/IdentificationGame/script.js:437 | a score within the question count gives 0 to 100; a full score gives 100, no correct answer 0 |
| QuizSession.NearlyAllRoundsToFull | src/pages/IdentificationGame/script.js:437 | rounding is not exact: 199 of 200 reports 100 percent |
| QuizSession.ResultsConsistent | src/pages/IdentificationGame/script.js:431-440 | a results record adds up: correct plus wrong is the total, with a percentage from 0 to 100 |
| QuizSession.ReadStored | src/pages/IdentificationGame/script.js:19-31 | the stored config and questions are read exactly when both strings are present and non-empty and both parse to values other than `null` |
| QuizSession.LoadFilteredShape | src/pages/IdentificationGame/script.js:16-67 | a successful load holds at least one question, every one valid, a reordering of exactly the valid stored questions; stored questions of which none is valid give no quiz |
| IdentificationGame.Min3 | src/pages/IdentificationGame/script.js:359-363 | `Math.min` of three values is one of them and at most each |
| IdentificationGame.GetEditDistance | src/pages/IdentificationGame/script.js:343-369 | the matrix loop computes the reference edit distance |
| IdentificationGame.FillRow | src/pages/IdentificationGame/script.js:355-365 | one row of the matrix, filled from the row above, holds the reference distances of the prefixes |
| IdentificationGame.CellZeroIff | src/pages/IdentificationGame/script.js:354-366 | a matrix cell is zero exactly when the two prefixes are equal |
| IdentificationGame.CellSymmetric | src/pages/IdentificationGame/script.js:354-366 | swapping the strings transposes the matrix |
| IdentificationGame.CellBounds | src/pages/IdentificationGame/script.js:354-366 | a cell lies between the difference of the prefix lengths and the longer prefix length |
| IdentificationGame.EditDistanceZeroIff | src/pages/IdentificationGame/script.js:343-369 | the distance is zero exactly on equal strings |
| IdentificationGame.EditDistanceSymmetric | src/pages/IdentificationGame/script.js:343-369 | the distance is symmetric |
| IdentificationGame.EditDistanceToEmpty | src/pages/IdentificationGame/script.js:346-352 | against the empty string the distance is the other string's length |
| IdentificationGame.EditDistanceBounds | src/pages/IdentificationGame/script.js:343-369 | the distance is at least the difference of the lengths and at most the longer length |
| IdentificationGame.SimilarityRange | src/pages/IdentificationGame/script.js:333-341 | the similarity lies between 0 and 1, and equal strings have similarity 1 |
| IdentificationGame.SimilaritySymmetric | src/pages/IdentificationGame/script.js:333-341 | the similarity does not depend on the order of the strings |
| IdentificationGame.SimilarityThreshold | src/pages/IdentificationGame/script.js:325 | similarity at least 0.8 exactly when five times the unedited characters reach four times the longer length |
| IdentificationGame.CheckAnswerIff | src/pages/IdentificationGame/script.js:309-328 | an answer is accepted exactly when the lower-cased trimmed forms are equal, equal after a leading article, or at most a fifth of the longer form is edited |
| IdentificationGame.CheckAnswerSymmetric | src/pages/IdentificationGame/script.js:309-328 | the check does not care which side is the expected answer |
| IdentificationGame.OneTypoForgiven | src/pages/IdentificationGame/script.js:323-325 | one typo in an answer of five or more characters is forgiven |
| IdentificationGame.ArticleForgiven | src/pages/IdentificationGame/script.js:318-321 | a leading "the " is forgiven |
| IdentificationGame.CorrectAnswer | src/pages/IdentificationGame/script.js:41-45 | a question that passed the filter has a non-empty string answer |
| IdentificationGame.Session.constructor | src/pages/IdentificationGame/script.js:81-112 | the quiz starts at the first question with no score, no answers and the input enabled |
| IdentificationGame.Session.Results | src/pages/IdentificationGame/script.js:423-440 | the results record: "Identification", the question count, the score as correct answers, the rest wrong, a percentage from 0 to 100 |
| IdentificationGame.Session.SubmitAnswer | src/pages/IdentificationGame/script.js:251-304 | a blank answer changes nothing; otherwise the trimmed answer is stored, the score rises exactly when the check accepts it, and the input is disabled |
| IdentificationGame.Session.NextQuestion | src/pages/IdentificationGame/script.js:411-418 | the next question while one is left, otherwise the end with reason "completed" |
| IdentificationGame.Session.Timeout | src/pages/IdentificationGame/script.js:125-135 | the countdown reaching zero ends the quiz with reason "timeout", wherever it stands |
| MultipleChoiceGame.IsCorrectIff | src/pages/MultipleChoiceGame/script.js:229 | an answer is right exactly when the stored `correctIndex` is that number |
| MultipleChoiceGame.OutOfRangeNeverCorrect | src/pages/MultipleChoiceGame/script.js:229 | the load does not check the range of `correctIndex`: a question whose index is not 0 to 3 can never be answered right |
| MultipleChoiceGame.KeyOption | src/pages/MultipleChoiceGame/script.js:372-380 | a shortcut selects one of the four options |
| MultipleChoiceGame.KeyOptionIff | src/pages/MultipleChoiceGame/script.js:372-380 | `a`–`d` in either case and `1`–`4` select options 0 to 3, and no other key selects one |
| MultipleChoiceGame.Session.constructor | src/pages/MultipleChoiceGame/script.js:82-113 | the quiz starts at the first question, unanswered, with no score and no answers |
| MultipleChoiceGame.Session.Results | src/pages/MultipleChoiceGame/script.js:286-303 | the results record: "Multiple Choice", the question count, the score, the rest wrong, a percentage from 0 to 100 |
| MultipleChoiceGame.Session.SelectAnswer | src/pages/MultipleChoiceGame/script.js:220-233 | only the first selection of a question counts: it is recorded and scores exactly when it is the key |
| MultipleChoiceGame.Session.KeyDown | src/pages/MultipleChoiceGame/script.js:369-384 | a shortcut answers only while the question is unanswered, like the matching button |
| MultipleChoiceGame.Session.NextQuestion | src/pages/MultipleChoiceGame/script.js:264-281 | after an answer that is not the last, the next question is shown unanswered; score and answers are kept |
| MultipleChoiceGame.Session.Finish | src/pages/MultipleChoiceGame/script.js:269-271 | after the last answer the quiz ends with reason "completed" |
| MultipleChoiceGame.Session.Timeout | src/pages/MultipleChoiceGame/script.js:126-136 | the countdown reaching zero ends the quiz with reason "timeout" |
| TrueFalseGame.LoadQuizDataShape | src/pages/TrueFalseGame/script.js:15-53 | the quiz loads exactly when both items are stored and parse and the questions are an array or a string (there is no filter); an array, even an empty one, loads as a reordering of itself |
| TrueFalseGame.StringAnswerNeverCorrect | src/pages/TrueFalseGame/script.js:194 | the strict comparison never matches a string `answer`: "true" is wrong whatever is chosen |
| TrueFalseGame.BooleanAnswerIff | src/pages/TrueFalseGame/script.js:194 | a boolean `answer` is matched by exactly that choice |
| TrueFalseGame.KeyAnswer | src/pages/TrueFalseGame/script.js:292-297 | left arrow, `f` or `F` answer false; right arrow, `t` or `T` answer true; nothing else answers |
| TrueFalseGame.Session.Results | src/pages/TrueFalseGame/script.js:240-271 | the results record: "True or False", the score, the rest wrong, and no percentage (`NaN`) exactly for an empty quiz |
| TrueFalseGame.Session.constructor | src/pages/TrueFalseGame/script.js:67-148 | the first question is shown; an empty array ends the quiz at once, with no percentage |
| TrueFalseGame.Session.SelectAnswer | src/pages/TrueFalseGame/script.js:192-235 | the answer is recorded at the current index, scores exactly when it equals the stored `answer`, and the buttons are disabled until the advance |
| TrueFalseGame.Session.KeyDown | src/pages/TrueFalseGame/script.js:292-297 | a shortcut answers only while the buttons are enabled |
| TrueFalseGame.Session.Advance | src/pages/TrueFalseGame/script.js:144-234 | the index moves on; reaching the question count ends the quiz as completed and stores the questions, otherwise a `null` question leaves the buttons disabled |
| TrueFalseGame.Session.Timeout | src/pages/TrueFalseGame/script.js:111-121 | the countdown reaching zero ends the quiz with reason "timeout" |
| MatchConnect.DefIndexOfDefId | src/pages/MatchConnect/script.js:553 | the index `submitAnswers` reads back from a definition id `def-<i>` is the pair index `i` it was built from |
| MatchConnect.DefIdInjective | src/pages/MatchConnect/script.js:208 | two different pairs never share a definition id |
| MatchConnect.LoadPairs | src/pages/MatchConnect/script.js:13-57 | the quiz loads exactly when both items are stored and parse and the questions hold an array under `pairs`, and then the pairs are that array |
| MatchConnect.DefinitionItemsShape | src/pages/MatchConnect/script.js:199-225 | whatever the display order, there is one definition item per pair, each carrying its pair's index, its id and its `right` text |
| MatchConnect.KeysBelow | src/pages/MatchConnect/script.js:516-551 | `Object.keys(matches)` lists only matched term indices, all below the pair count |
| MatchConnect.KeysBelowComplete | src/pages/MatchConnect/script.js:551 | every matched term index below the pair count is among the keys |
| MatchConnect.KeysBelowFull | src/pages/MatchConnect/script.js:532 | the key count equals the pair count exactly when every term is matched |
| MatchConnect.KeysBelowAllMatched | src/pages/MatchConnect/script.js:532 | a full key count means every term is matched |
| MatchConnect.AllMatchedKeysBelow | src/pages/MatchConnect/script.js:532 | every term matched means a full key count |
| MatchConnect.Score | src/pages/MatchConnect/script.js:547-560 | each key counts once, as correct or incorrect |
| MatchConnect.ScoreAllCorrect | src/pages/MatchConnect/script.js:553-556 | matching every term to its own definition scores every key correct and none incorrect |
| MatchConnect.ScoreSnoc | src/pages/MatchConnect/script.js:551-560 | one more key adds one to the correct count when its definition is its own, else one to the incorrect count |
| MatchConnect.CountMatches | src/pages/MatchConnect/script.js:547-560 | the counting loop gives the counts of the score over the keys |
| MatchConnect.Session.constructor | src/pages/MatchConnect/script.js:27-48 | a loaded quiz whose board sets up (no `null` pair, whose `left` would throw at 178-186) starts with no matches, nothing marked matched and nothing stored |
| MatchConnect.Session.Drop | src/pages/MatchConnect/script.js:257-306 | the term now holds the dropped definition; its previous definition loses the matched mark and the dropped one gains it; every marked definition is still held by some term |
| MatchConnect.Session.TouchEnd | src/pages/MatchConnect/script.js:441-510 | over a drop zone the match is stored as a drop stores it, elsewhere nothing changes; since only unmarked definitions start a touch drag, touch keeps the matches one to one |
| MatchConnect.Session.AllMatched | src/pages/MatchConnect/script.js:528-534 | submitting is enabled exactly when every term holds a definition |
| MatchConnect.Session.SubmitAnswers | src/pages/MatchConnect/script.js:539-587 | the results "Match & Connect" count every matched term once, as correct or incorrect; they cover all pairs exactly when all terms are matched; the percentage is 0 to 100; the matches are stored with them, overwriting what an earlier submit stored |
| GameResults.AgreesWithTrueFalse | src/pages/GameResults/script.js:365-369 | on a question with a boolean `answer`, the results page judges a boolean choice exactly as the true/false page did |
| GameResults.StringTrueOnResultsPage | src/pages/GameResults/script.js:365-382 | a string answer `"true"` is wrong on the quiz page whatever is chosen, while the results page fails on a `true` choice and rejects `false` |
| GameResults.AgreesWithMultipleChoice | src/pages/GameResults/script.js:371-374 | on a well-formed multiple-choice question, the results page judges an option exactly as the quiz page did |
| GameResults.ForgivenArticleListedIncorrect | src/pages/GameResults/script.js:376-379 | an answer the identification page accepted only by dropping a leading "the" is listed as incorrect on the results page |
| GameResults.GetIncorrectQuestions | src/pages/GameResults/script.js:304-360 | the loop builds exactly the review list that the reference definition gives, or the same error |
| GameResults.IncorrectUpToErr | src/pages/GameResults/script.js:345-356 | once an item's check throws, building the list throws with that error |
| GameResults.IncorrectUpToErrStays | src/pages/GameResults/script.js:345-356 | a thrown error is not undone by later items |
| GameResults.IncorrectUpToSound | src/pages/GameResults/script.js:304-360 | every listed entry is an item before the bound whose own check listed exactly that entry |
| GameResults.IncorrectUpToOrdered | src/pages/GameResults/script.js:309-345 | entries come in item order, each item at most once |
| GameResults.IncorrectUpToComplete | src/pages/GameResults/script.js:304-360 | every item before the bound whose check lists it is listed, and none of them threw |
| GameResults.MatchesJsonAt | src/pages/GameResults/script.js:310 | the stored matches read back by term index give the definition id the term held, or nothing |
| GameResults.PairVerdictOfMatches | src/pages/GameResults/script.js:309-341 | on matches a matching session stored, a pair is left off the review exactly when its term held its own definition |
| GameResults.KeysBelowLast | src/pages/MatchConnect/script.js:551 | a matched last index is the last key |
| GameResults.ScoreBelowStep | src/pages/MatchConnect/script.js:551-560 | the correct count over the keys below `n` is the number of indices below `n` matched correctly, given that it is so below `n - 1` |
| GameResults.IncorrectPairsCount | src/pages/GameResults/script.js:309-341 | the first `n` pairs list exactly those not matched correctly |
| GameResults.MatchingReviewAgrees | src/pages/GameResults/script.js:304-342 | the review of a submitted matching quiz lists exactly the pairs not scored correct: the pair count less the page's correct count |
| GameResults.ScoreBelow | src/pages/MatchConnect/script.js:551-560 | the matching page's correct count over its keys is the number of indices matched correctly |
| GameResults.LoadReview | src/pages/GameResults/script.js:57-97 | no stored results is an error; no stored questions leaves an empty review |
| GameResults.ShuffledAnswersMisaligned | src/pages/GameResults/script.js:345-356 | answers stored in a shuffled order are compared with questions in the unshuffled order: two right answers shown swapped are both listed as incorrect |
| GameResults.ResultsTitle | src/pages/GameResults/script.js:222-243 | "Excellent" exactly from 90 percent, "Keep Practicing" exactly below 50 or for a `NaN` percentage |
| GameResults.ResultsTitleMonotone | src/pages/GameResults/script.js:226-242 | a higher percentage never earns a lower title |
| GameResults.DecimalLeadingZero | src/pages/GameResults/script.js:536 | padding with a leading zero keeps the digits' value |
| GameResults.PaddedSeconds | src/pages/GameResults/script.js:535-536 | the seconds part shows as exactly two digits standing for the seconds |
| GameResults.FormatTimeRoundTrip | src/pages/GameResults/script.js:531-537 | the displayed `m:ss` reads back as the number of seconds shown, `0:00` for none |
| GameResults.SetAt | src/pages/GameResults/script.js:576 | assigning past the end lengthens the array to the index, filling holes with `null`; other entries stay |
| GameResults.StoreUserAnswerReads | src/pages/GameResults/script.js:568-578 | after storing, the index reads back as the answer and every other index reads as before (holes as `null`) |
| GamesHub.SumValuesRemove | src/pages/GamesHub/script.js:132-135 | summing `Object.values` of a tier object does not depend on the order of its keys |
| GamesHub.SumFlatOfQuestions | src/pages/GamesHub/script.js:132-134 | `.flat()` of a tier holding no nested arrays keeps one entry per question |
| GamesHub.SumOfTiers | src/pages/GamesHub/script.js:132-135 | over a kind with exactly the tiers easy, medium and hard, the sum is the three tiers' sum |
| GamesHub.KindCount | src/pages/GamesHub/script.js:132-134 | for a kind of the generator's shape, the flattened length is its number of questions over all tiers |
| GamesHub.MatchingCount | src/pages/GamesHub/script.js:135 | for matching of the generator's shape, the count is the pairs of the three tiers |
| GamesHub.CountStandardBank | src/pages/GamesHub/script.js:129-138 | on a bank of the generator's shape the total is the true/false, multiple-choice and identification questions of all tiers plus all matching pairs |
| GamesHub.ObjectPairsLength | src/pages/GamesHub/script.js:135 | a tier whose `pairs` is an object counts that object's `length` key |
| GamesHub.CountMissingBank | src/pages/GamesHub/script.js:130 | a missing bank counts zero |
| GamesHub.CountNullMatchingTier | src/pages/GamesHub/script.js:135 | a `null` matching tier makes the count throw |
| GamesHub.LoadQuizQuestions | src/pages/GamesHub/script.js:56-163 | the bank loads exactly when a reviewer is selected and either the session holds questions that parse and whose every kind and tier `logQuestionCounts` can read, or the request gives such a bank counting at least one question; the session's questions win, and a loaded bank can always be logged |
| GamesHub.UnloggableSessionFallsBack | src/pages/GamesHub/script.js:72-83 | session questions whose counts cannot be logged are dropped, and the page loads exactly as with an empty session |
| GamesHub.NullAndEmptyUnloggable | src/pages/GamesHub/script.js:140-163 | `null` and `{}` cannot be logged |
| GamesHub.StandardBankLoggable | src/pages/GamesHub/script.js:140-163 | every bank of the generator's shape can be logged |
| GamesHub.StandardBankLoads | src/pages/GamesHub/script.js:85-114 | a fetched bank of the generator's shape holding a question loads when the session has nothing usable |
| GamesHub.LoadedBankNotEmpty | src/pages/GamesHub/script.js:85-114 | with nothing kept in the session, a bank is used only when the request succeeded, it counts at least one question and it can be logged |
| GamesHub.CardAvailability | src/pages/GamesHub/script.js:279-367 | the card opens exactly when a truthy bank is loaded and all three tiers can be counted, each tier's availability then being its length as the card reads it; a missing or falsy bank only alerts that the questions are not loaded |
| GamesHub.StandardBankCards | src/pages/GamesHub/script.js:279-343 | on a bank of the generator's shape, a true/false, multiple-choice or identification card offers each tier's number of questions |
| GamesHub.Selection | src/pages/GamesHub/script.js:499-535 | a selection is made exactly when the kind and tier can be read and the tier (for matching, its pairs, or none when `pairs` is falsy) can be spread; it holds `min(n, available)` of those items, none more often than there; for matching it is an object of exactly `pairs` and `instruction` |
| GamesHub.SelectionTakesFromTier | src/pages/GamesHub/script.js:522-534 | for a kind other than matching, `min(n, available)` questions of the chosen tier, none more often than in the tier |
| GamesHub.SelectionTakesPairs | src/pages/GamesHub/script.js:500-519 | for matching, `min(n, available)` of the tier's pairs, none repeated, no pairs at all when `pairs` is falsy, and the default instruction when the tier has none |
| GamesHub.QuizConfig.constructor | src/pages/GamesHub/script.js:21-28 | the defaults: true/false, ten questions, easy, no timer, 600 seconds, availability 15, 12 and 10 |
| GamesHub.QuizConfig.OpenQuizConfig | src/pages/GamesHub/script.js:372-393 | a card's type and availability are taken, the count reset to ten or the whole easy tier, on easy; the timer is kept |
| GamesHub.QuizConfig.DecreaseNumber | src/pages/GamesHub/script.js:399-431 | one fewer unless at the lower bound `min(5, tier)`; the decrease button is disabled exactly when a click would do nothing |
| GamesHub.QuizConfig.IncreaseNumber | src/pages/GamesHub/script.js:411-435 | one more unless at the tier size; the increase button is disabled exactly when a click would do nothing |
| GamesHub.QuizConfig.SelectDifficulty | src/pages/GamesHub/script.js:455-477 | a count above the new tier's size drops to it; any other count is kept, even below the lower bound |
| GamesHub.QuizConfig.ToggleTimer | src/pages/GamesHub/script.js:479-490 | the timer flag follows the toggle; nothing else changes |
| GamesHub.QuizConfig.SelectTime | src/pages/GamesHub/script.js:492-494 | the time becomes the option's value as `parseInt` reads it; nothing else changes |
| GamesHub.QuizConfig.ConfigJson | src/pages/GamesHub/script.js:518-533 | the stored configuration names the chosen difficulty and quiz type |
| GamesHub.QuizConfig.StartQuiz | src/pages/GamesHub/script.js:496-535 | what is stored is the configuration with the selection, or the error the selection throws |
| ReviewerPage.EntryPoint | src/pages/ReviewerPage/script.js:78-88 | a stored entry point is kept; otherwise the upload page is chosen exactly when the referrer names it and not the dashboard, and the dashboard in every other case |
| ReviewerPage.EntryPointSticky | src/pages/ReviewerPage/script.js:78-88 | once set, the entry point survives every later visit, whatever the referrer |
| ReviewerPage.ReadReviewerData | src/pages/ReviewerPage/script.js:96-116 | at most five reads; the loop stops at the first read that finds data, every earlier read found none, and it gives up only after the fifth |
| ReviewerPage.QuizRequest | src/pages/ReviewerPage/script.js:431-465 | no request for missing or short (under 100 characters) text or missing or empty concepts, and a request otherwise; the body holds the text and concepts, and the id exactly when it is truthy and numeric |
| ReviewerPage.QuizRequestNumericIds | src/pages/ReviewerPage/script.js:460-461 | a positive numeric id, or any id that is a decimal string, is sent |
| ReviewerPage.QuizRequestWordId | src/pages/ReviewerPage/script.js:460-465 | an id that reads as a word is left out of the request |
| ReviewerPage.SectionTitle | src/pages/ReviewerPage/script.js:1395 | the section heading's text when it has one, otherwise a non-empty placeholder |
| ReviewerPage.HighlightItems | src/pages/ReviewerPage/script.js:1511-1518 | one list item per highlight, in order |
| ReviewerPage.NoteItems | src/pages/ReviewerPage/script.js:1521-1528 | one list item per note, in order |
| ReviewerPage.BookmarkItems | src/pages/ReviewerPage/script.js:1531-1538 | one list item per bookmark, in order |
| ReviewerPage.SelectedMembers | src/pages/ReviewerPage/script.js:1509-1539 | the type filter keeps exactly the stored annotations of the selected kinds |
| ReviewerPage.AnnotationsListSpec | src/pages/ReviewerPage/script.js:1503-1554 | the panel lists exactly the annotations of the selected kinds matching the search term, newest first, each as often as it is stored: with no term a reordering of the whole selection, otherwise of the matching ones |
| ReviewerPage.Annotations.constructor | src/pages/ReviewerPage/script.js:587-629 | a page with nothing stored starts with no highlights, notes or bookmarks |
| ReviewerPage.Annotations.AddHighlight | src/pages/ReviewerPage/script.js:836 | the new highlight is appended; notes and bookmarks are unchanged |
| ReviewerPage.Annotations.AddNote | src/pages/ReviewerPage/script.js:1085-1118 | a new empty note is appended exactly when the note tool is active and the click is outside the page chrome; highlights and bookmarks are unchanged |
| ReviewerPage.Annotations.PlaceBookmark | src/pages/ReviewerPage/script.js:1390-1415 | a bookmark is appended exactly when the bookmark tool is active and no bookmark marks the section, so sections stay unique |
| ReviewerPage.Annotations.RemoveHighlight | src/pages/ReviewerPage/script.js:1008-1009 | every highlight with the id goes and the rest stay in order |
| ReviewerPage.Annotations.RemoveNote | src/pages/ReviewerPage/script.js:1334-1335 | every note with the id goes and the rest stay in order |
| ReviewerPage.Annotations.RemoveBookmark | src/pages/ReviewerPage/script.js:1444-1445 | every bookmark with the id goes, the rest stay in order, and sections stay unique |
| ReviewerPage.Annotations.RemoveAllHighlights | src/pages/ReviewerPage/script.js:1024-1038 | after confirmation there are no highlights; without it nothing changes |
| ReviewerPage.FilterById | src/pages/ReviewerPage/script.js:1009 | removing an id twice removes nothing more, and removing an id no entry has changes nothing |
| ReviewerPage.FilterKeepsUniqueSections | src/pages/ReviewerPage/script.js:1445 | removing bookmarks keeps one bookmark per section |
| ReviewerPage.DelimitedAt | src/pages/ReviewerPage/script.js:1786-1788 | a match found at `k` opens with the delimiter at `k` and encloses at least one character before its closing delimiter |
| ReviewerPage.NoDelimiterNoHit | src/pages/ReviewerPage/script.js:1786-1788 | text without the delimiter has no match anywhere |
| ReviewerPage.PlainTextUnchanged | src/pages/ReviewerPage/script.js:1785-1790 | text without `*` or `_` is shown unchanged |
| ReviewerPage.StarsAtStart | src/pages/ReviewerPage/script.js:1786 | `**a**` is matched whole by the bold rule |
| ReviewerPage.StarAtStart | src/pages/ReviewerPage/script.js:1788 | the single-star rule on `**a**` matches only `**a*`, and nothing after it |
| ReviewerPage.StrongPassExample | src/pages/ReviewerPage/script.js:1786 | the bold pass turns `**a**` into `<strong>a</strong>` |
| ReviewerPage.LaterPassesKeep | src/pages/ReviewerPage/script.js:1787-1788 | the later passes leave text without stars or underscores alone |
| ReviewerPage.BoldBeforeItalic | src/pages/ReviewerPage/script.js:1785-1790 | double stars are read as bold before single stars are read as italics |
| ReviewerPage.ItalicFirstSplitsStars | src/pages/ReviewerPage/script.js:1786-1788 | in the other order the single-star rule would split the double stars |
| ReviewerPage.RenderFormattedContent | src/pages/ReviewerPage/script.js:1720-1783 | the loop builds exactly the blocks of the reference grouping of the lines |
| ReviewerPage.EntriesAppend | src/pages/ReviewerPage/script.js:1729-1778 | appending a block adds its entries after the others |
| ReviewerPage.FlushEntries | src/pages/ReviewerPage/script.js:1782 | closing the open list adds its items after the blocks already done |
| ReviewerPage.ListItemEntries | src/pages/ReviewerPage/script.js:1746-1758 | an item of the open list's kind joins that list |
| ReviewerPage.NewListEntries | src/pages/ReviewerPage/script.js:1740-1755 | an item of another kind closes the open list and starts a new one |
| ReviewerPage.StepEntries | src/pages/ReviewerPage/script.js:1726-1780 | one line adds its entry to the flushed blocks, or nothing when it is blank |
| ReviewerPage.StateEntries | src/pages/ReviewerPage/script.js:1726-1782 | the blocks after any number of lines hold exactly those lines' entries |
| ReviewerPage.EveryLineOnce | src/pages/ReviewerPage/script.js:1720-1783 | each non-blank line becomes exactly one entry of one block, in line order; blank lines become nothing |
| ReviewerPage.FlushGrouped | src/pages/ReviewerPage/script.js:1782 | closing a grouped state never leaves two adjacent lists of one kind, and ends with the open list |
| ReviewerPage.StepGrouped | src/pages/ReviewerPage/script.js:1736-1779 | a non-empty line keeps the grouping |
| ReviewerPage.StateGrouped | src/pages/ReviewerPage/script.js:1726-1780 | without empty lines every state is grouped |
| ReviewerPage.AppendSingle | src/pages/ReviewerPage/script.js:1765-1778 | a paragraph or arrow block after separated lists keeps them separated and closes the last |
| ReviewerPage.ListsAreMaximal | src/pages/ReviewerPage/script.js:1720-1783 | without empty lines, consecutive items of one kind always share a list |
| ReviewerPage.BulletExamples | src/pages/ReviewerPage/script.js:1736-1748 | `- a` is a bulleted item `a`, and a line of spaces is blank |
| ReviewerPage.EmptyLineClosesList | src/pages/ReviewerPage/script.js:1727-1733 | an empty line closes the open list, so the next item starts another |
| ReviewerPage.BlankLineKeepsList | src/pages/ReviewerPage/script.js:1736-1737 | a line of spaces is skipped and leaves the list open |
| UploadPage.LastPiece | src/pages/UploadPage/script.js:442 | `split('.').pop()` is a dot-free piece that follows the last dot at the end of the name, or the whole name when it has no dot |
| UploadPage.CheckFile | src/pages/UploadPage/script.js:439-452 | a file is accepted exactly when its MIME type or its extension is listed and it is at most 10 MB; too large is reported only for a larger file |
| UploadPage.Dispatch | src/pages/UploadPage/script.js:422-434 | checked in the code's order on the lowercased name: the PDF extractor exactly for `.pdf`, else the image extractor exactly for `.jpg`, `.jpeg` or `.png`, else the text extractor exactly for `.txt`; "Unsupported file type" exactly when none of these suffixes is present |
| UploadPage.NoDotNoExtractor | src/pages/UploadPage/script.js:422-434 | a name without a dot selects no extractor |
| UploadPage.LowerSuffix | src/pages/UploadPage/script.js:423-442 | lowercasing a name and then taking the part from a dot gives the dot and the lowercased rest |
| UploadPage.ExtensionIsSuffix | src/pages/UploadPage/script.js:423-442 | for a name with a dot, the lowercased name ends with the extension `handleFile` computes |
| UploadPage.ListedExtensionDispatches | src/pages/UploadPage/script.js:422-444 | a file accepted for its listed extension has an extractor |
| UploadPage.AcceptedButUnsupported | src/pages/UploadPage/script.js:422-452 | a file accepted for its MIME type alone, or one named just `pdf`, passes the checks but has no extractor |
| UploadPage.UploadForm.constructor | src/pages/UploadPage/script.js:19-20 | the page starts on the upload tab with no file |
| UploadPage.UploadForm.HandleFile | src/pages/UploadPage/script.js:439-462 | the alert is the check's message, and the file is kept exactly when it passes both checks |
| UploadPage.UploadForm.RemoveFile | src/pages/UploadPage/script.js:464-470 | the file is dropped and the tab kept |
| UploadPage.UploadForm.SelectTab | src/pages/UploadPage/script.js:598-634 | the three tab names select their tab; any other name leaves the tab as it is; the file is kept |
| UploadPage.UploadForm.ButtonMatchesHandler | src/pages/UploadPage/script.js:480-561 | on the upload and paste tabs the generate button is enabled exactly when that tab's handler gets past its first checks; on the scan tab the button is enabled whenever the handler gets past them, and exactly then once an image was captured or retaken |
| UploadPage.UploadForm.EnabledBeforeFirstCapture | src/pages/UploadPage/script.js:494-498 | before the first capture `capturedImage` is `undefined`: with a title typed the scan tab's button is enabled, yet the handler refuses with the capture alert (its test at line 558 is truthiness) |
| UploadPage.Scanner.constructor | src/pages/UploadPage/CameraScanner.js:5-17 | a new scanner leaves `capturedImage` unset |
| UploadPage.Scanner.Capture | src/pages/UploadPage/script.js:725-743 | a truthy data URL from `captureImage()` is stored; a `null` one leaves the image as it was; only truthy data URLs are ever stored |
| UploadPage.Scanner.Retake | src/pages/UploadPage/script.js:747-759 | the retake button sets the image to `null` |
| UploadPage.PrefixDiffers | src/pages/UploadPage/script.js:591 | a message with one prefix differs from a message that starts differently |
| UploadPage.ScanErrorDiffers | src/pages/UploadPage/script.js:553-591 | a scan error is never mistaken for the missing-title or missing-image alert |
| UploadPage.UploadGeneration | src/pages/UploadPage/script.js:507-531 | the missing-file-or-title alert exactly when there is no file or the trimmed title is empty; a generation sends the trimmed title and at least 50 characters the file's extractor yielded |
| UploadPage.PasteGeneration | src/pages/UploadPage/script.js:533-548 | generation exactly for a non-empty trimmed title and trimmed content of at least 50 characters, sending both trimmed; the missing alert exactly when either is empty |
| UploadPage.ScanGeneration | src/pages/UploadPage/script.js:550-593 | the title alert exactly for an empty trimmed title, the image alert exactly when a title is given but the image is not a truthy data URL (unset, `null`); a generation sends the text recognised, at least 50 characters |
| UploadPage.CompleteData | src/pages/UploadPage/script.js:343-347 | the stored reviewer data is the server's fields with `title` replaced by the page's title and a `timestamp` added |
| Server.CorsFor | backend/server.js:79-101 | credentials exactly for a listed origin or a non-empty origin naming a private-network prefix, and then the origin is echoed; every other request gets `*` |
| Server.MarkerAnywhereEarnsCredentials | backend/server.js:95-98 | the prefix test is not anchored: `10.0.` anywhere in the origin earns credentials |
| Server.TenNetworkMissed | backend/server.js:95-100 | a 10.x origin outside 10.0.x is not recognised and gets `*` without credentials |
| Server.BearerToken | backend/server.js:62-65 | a token exactly for a header starting `Bearer `, and the header is that prefix followed by the token |
| Server.UserIdFromRequest | backend/server.js:61-74 | a user exactly when the bearer token names a session the lookup finds without throwing, and then it is that session's user |
| Server.BearerTokenIsRest | backend/server.js:63-69 | the token is whatever follows `Bearer `, and the user is its session's when the lookup finds one |
| Server.PathIdOfNumber | backend/server.js:451-519 | the id `parseInt` takes from the fourth path segment is the number written there |
| Server.PathIdMissing | backend/server.js:451 | a path ending after the resource name gives `NaN` |
| Server.PreflightShortCircuit | backend/server.js:106-111 | every `OPTIONS` request is answered 200 with no body, whatever its path |
| Server.DatabaseBeforeSession | backend/server.js:409-421 | without the database, the auth and database routes answer 503 before they look at the session |
| Server.GenerationChecksOnlySession | backend/server.js:318-371 | the generation routes answer 401 exactly without a session and go on with one, whether or not the database is available |
| Server.WorkRunsForSessionUser | backend/server.js:318-589 | database work and generation run only for the non-zero user of a live session, and database work only when the database is available |
| Server.GuardOrderDiffers | backend/server.js:318-421 | with neither database nor session, a database route answers 503 and a generation route 401 |
| Server.SignupReply | backend/server.js:141-191 | an account is created only from a body with every field truthy, a well-formed lowercased trimmed e-mail that no user has, and the sanitised name; refusals are 400, 409 or 500, and 409 only for a well-formed e-mail |
| Server.InvalidEmailSkipsLookup | backend/server.js:156-162 | a malformed e-mail is refused before the user table is consulted |
| Server.SignupNormalizesEmail | backend/server.js:154 | e-mails that differ only in case or surrounding white space sign up alike |
| Server.LoginReply | backend/server.js:206-255 | a session starts only for a body whose normalised e-mail names a user and whose password verifies against that user's hash; refusals are 400, 401 or 500 |
| Server.SignupThenLogin | backend/server.js:169-227 | an account stored with the hash of its password logs in with the same body, as that user |
| Server.WrongPasswordRefused | backend/server.js:227-231 | a password whose derived key differs from the stored one is refused with 401 "Invalid email or password" |
| AuthService.IsValidEmailMatchesPattern | backend/services/authService.js:32-35 | the scan accepts exactly the strings the pattern `^[^\s@]+@[^\s@]+\.[^\s@]+$` matches |
| AuthService.ScanMatchesPattern | backend/services/authService.js:33-34 | every string the scan accepts matches the pattern |
| AuthService.PatternPassesScan | backend/services/authService.js:33-34 | every string the pattern matches passes the scan |
| AuthService.EmailConditions | backend/services/authService.js:33 | valid exactly when there is no white space, one '@' after a non-empty local part, and a dot in the domain that neither starts nor ends it |
| AuthService.EmailExamples | backend/services/authService.js:33 | `a@b.co` is valid; an empty domain label, a trailing dot, an empty local part, two '@' and a space are not |
| AuthService.SanitizeInput | backend/services/authService.js:38-41 | non-strings pass through; a string becomes a trimmed piece of itself |
| AuthService.SanitizeIdempotent | backend/services/authService.js:38-41 | sanitising twice is sanitising once |
| AuthService.SanitizeExamples | backend/services/authService.js:38-41 | surrounding spaces are removed and a number passes unchanged |
| AuthService.HexDigit | backend/services/authService.js:7-21 | a nibble becomes a hexadecimal digit |
| AuthService.HexDigitValue | backend/services/authService.js:14-16 | a digit's value is a nibble |
| AuthService.Hex | backend/services/authService.js:7-21 | `toString('hex')` gives two hexadecimal digits per byte |
| AuthService.UnHexOfHex | backend/services/authService.js:7-21 | hex encoding loses nothing: decoding gives the bytes back |
| AuthService.HexInjective | backend/services/authService.js:15-16 | different bytes never share a hex form |
| AuthService.HashPassword | backend/services/authService.js:6-10 | 161 characters: 32 hex digits of the salt, a ':', then 128 hex digits of the key derived from the password and that hex salt |
| AuthService.VerifyPassword | backend/services/authService.js:13-17 | a stored form without ':' never verifies |
| AuthService.HashParts | backend/services/authService.js:9-14 | the stored form splits at its one ':' into the hex salt and the hex key |
| AuthService.VerifyOwnHash | backend/services/authService.js:6-17 | a password verifies against its own hash, whatever the salt and key function |
| AuthService.VerifyOtherPassword | backend/services/authService.js:6-17 | another password verifies exactly when the key function gives it the same key under that salt |
| AuthService.SessionToken | backend/services/authService.js:20-22 | 64 hexadecimal digits that decode to the 32 random bytes |
| SignupPage.ValidateFullName | src/pages/SignUpPage/script.js:69-78 | valid exactly for a trimmed name of 2 to 100 characters, with the message for too short or too long |
| SignupPage.ValidateEmail | src/pages/SignUpPage/script.js:80-88 | valid exactly when the trimmed e-mail matches the backend's pattern |
| SignupPage.ValidatePassword | src/pages/SignUpPage/script.js:90-99 | valid exactly for 6 to 100 characters as typed, with the message for too short or too long |
| SignupPage.ValidatePasswordMatch | src/pages/SignUpPage/script.js:101-106 | valid exactly when the confirmation equals the password |
| SignupPage.FirstFailure | src/pages/SignUpPage/script.js:152-188 | nothing exactly when every check passes, otherwise the message of the first failing check |
| SignupPage.FirstFailureCons | src/pages/SignUpPage/script.js:152-188 | a failing first check decides the alert; a passing one defers to the rest |
| SignupPage.HandleSignUp | src/pages/SignUpPage/script.js:140-200 | an alert exactly when some check fails, with the first failure's message; otherwise the trimmed name and e-mail and the password as typed are sent |
| SignupPage.SentFormIsValid | src/pages/SignUpPage/script.js:140-200 | a sent form has a trimmed name of 2 to 100 characters, a trimmed well-formed e-mail, a confirmed password of 6 to 100 and accepted terms |
| SignupPage.NameCheckedAsSent | src/pages/SignUpPage/script.js:69-158 | the name is checked as it is sent, since trimming twice changes nothing |
| SignupPage.ThrownMessage | src/pages/SignUpPage/script.js:209-211 | the server's error text when it has one, otherwise "Sign up failed" |
| SignupPage.FailureAlert | src/pages/SignUpPage/script.js:240-244 | a message about an existing account becomes the hint to sign in; any other is shown, with a fallback for an empty one |
| SignupPage.ExistingAccountAlert | src/pages/SignUpPage/script.js:209-244 | the backend's 409 text becomes the hint to sign in |
| SignupPage.OtherAlerts | src/pages/SignUpPage/script.js:209-244 | the backend's invalid-format text and the fallback text are shown as they are |
| LoginPage.ValidatePassword | src/pages/LoginPage/script.js:72-77 | valid exactly for a non-empty password |
| LoginPage.HandleLogin | src/pages/LoginPage/script.js:132-165 | the login is sent exactly for a well-formed trimmed e-mail and a non-empty password, with the trimmed e-mail; otherwise the e-mail alert comes first, then the password alert |
| LoginPage.RememberMe | src/pages/LoginPage/script.js:121-127 | ticking stores the e-mail, unticking removes it |
| LoginPage.LoadRememberedEmail | src/pages/LoginPage/script.js:111-119 | the form is prefilled and the box ticked exactly when a non-empty e-mail is stored |
| LoginPage.RememberedEmailReloads | src/pages/LoginPage/script.js:111-165 | after a successful login the next visit is prefilled with the trimmed e-mail exactly when "remember me" was ticked; otherwise what was remembered is forgotten |
| LoginPage.ThrownMessage | src/pages/LoginPage/script.js:176-178 | the server's error text when it has one, otherwise "Login failed" |
| LoginPage.FailureAlert | src/pages/LoginPage/script.js:210-214 | a message mentioning invalid or unknown credentials becomes the fixed alert, and only such a message does; others are shown, with a fallback for an empty one |
| LoginPage.FixedAlertContainsInvalid | src/pages/LoginPage/script.js:210-214 | the fixed alert itself mentions "Invalid" |
| LoginPage.FailureAlertExamples | src/pages/LoginPage/script.js:176-214 | the backend's 401 text becomes the fixed alert; its 500 text and the fallback are shown as they are |

## Left out

General:

- Network, storage, the DOM, navigation, alerts, the loading overlays, console logging and every `setTimeout`/`setInterval` timer are outside the model. Each event handler is a method or function called with the values it would read. Countdowns appear only as a `Timeout` method per quiz page.
- The timing race in the multiple-choice page between the Next button and the automatic advance is not modelled. Both are methods with their own preconditions, called one at a time.
- `callOllama`, its prompt texts and the language model itself: completions are input strings, or `Err` when the call fails.
- `JSON.parse` and `JSON.stringify` are not implemented. Parsing is the parameter `parse`, and stored values are kept as `JsonValue`s rather than as their text.
- Case mapping covers ASCII only. Strings are sequences of Unicode scalar values, so `length` differs from JavaScript's UTF-16 count outside the Basic Multilingual Plane.
- Floating point: confidences are exact reals, and `Math.round` of a percentage is computed exactly on integers. `NaN` is `None`.
- `Math.random`: every shuffle, including `sort(() => Math.random() - 0.5)`, is a Fisher-Yates pass driven by given draws. The random `occurrences` value of model-written concepts is a parameter.
- The clock: `Date.now`, ISO timestamps, `generatedAt`, `timeTaken`, session expiry and `formatDate` are parameters or left out.
- The database service and schema, the camera scanner, PDF.js and Tesseract: library and I/O code. The extractors' results are parameters.
- The home, dashboard and settings pages and the static file server are not part of this model.

Per component:

- Analyzer: the branch of `detectSections` that opens a "Content" section is kept as written, though no lemma shows it unreachable. The first paragraph always opens a section, so it looks dead.
- ContentProcessing: the simulated delays of `processContentAdvanced` are not modelled.
- QuizSession.ReadStored: `initQuizUI` reads `quizConfig.difficulty.charAt` outside any handler. A configuration without a string difficulty would throw there; the model starts the session anyway.
- GamesHub.CardAvailability: a tier's `length` counts only when it is a whole number that is not negative: an array's or string's length, or an object's `length` key holding such a number. For any other tier (a number, `true`, an object without such a key) the page opens the modal with that `length` (often `undefined`); the model reports an error instead.
- GamesHub: `showQuizNotReadyMessage`, `loadReviewerTitle` and `updateNumberHint` only write text. What `logQuestionCounts` writes to the console is not modelled; the reads that make it throw are (`CountsLoggable`). The bounds shown by the hint are `TierMin` and `TierMax`.
- GamesHub.LoadQuizQuestions: beyond what `logQuestionCounts` reads, questions kept in the session are not checked; the model returns them as parsed.
- GamesHub.LoadQuizQuestions: a matching tier's `pairs.length` that is truthy but not a whole number (a fraction, a string, `true`, an array or object) counts as 0. On the page `countTotalQuestions` would add that value as it is, giving a fraction or a string.
- AiGeneration.GenerateQuizQuestions: concepts are taken as a term and a definition that are both strings. The route passes the request body's `concepts` on unchecked (backend/server.js:377-381). On the page, a `null` concept, a term that is not a string among the first 15, or a definition that is not a string among the first 12 makes `generateQuizQuestions` throw at its `charAt`, `substring` or `split` calls (backend/services/ollamaService.js:451-483), and the route answers 500. The model does not represent that failure.
- AiGeneration.LineText: a non-integer number in a content line is written as the empty string, and integers of 1e21 and above as plain digits; JavaScript's number formatting is not modelled.
- MatchConnect.Session.constructor: a `null` pair makes the board's setup throw after the countdown has started. The model starts no session then, so a countdown submitting that half-built board is not modelled.
- MatchConnect: the drag-over highlighting, the auto-scroll during touch drags and the feedback colours are not modelled. The touch hit test is the parameter `dropZone`.
- GameResults: `saveQuizAttemptToDatabase` and the review elements' HTML are I/O. The review entries keep `selectedDefinition` as the page computes it.
- ReviewerPage: a highlight's range data and a note's screen position are not modelled, and neither is note editing in `openNoteEditor`. `loadAnnotations`, `saveAnnotations` and `applyAllAnnotations` only move the store to and from storage and the DOM.
- ReviewerPage.RenderFormattedContent: it takes a sequence of lines. The wrapping of a single non-array value into a one-line array is not modelled.
- ReviewerPage: reusing stored quiz questions, `window.currentReviewerId` and the retry of a failed quiz request after three seconds are not modelled.
- UploadPage.CompleteData: the server's reply is taken to be an object. Spreading any other value, and the `toString()` of the ids stored beside it, are not modelled.
- UploadPage: `formatFileSize` uses `Math.log` and is not modelled. Stopping the camera when the tab changes is not modelled either.
- UploadPage.UploadForm.ButtonMatchesHandler: input elements are assumed to exist, because the checks for a missing DOM element are not modelled.
- Server: `getLocalIPAddress` is not modelled; the local address is a parameter. The health check's JSON body, the `Access-Control-Allow-Methods` and `-Headers` values, and everything after the guards (database queries, generation, `Date.now` fallback ids, logout's `deleteSession`, the 500 handlers) are left out.
- Server.Handle: the verify route's session lookup has no error handler. When it throws, the request gets no reply, which the model writes as `Unanswered`.
- AuthService: PBKDF2 with SHA-512 is an arbitrary deterministic key function, and the random salt and token bytes are parameters. `generateSessionExpiry` reads the clock and is not modelled.
- AuthService.VerifyPassword: its own contract states only that a stored form without ':' never verifies. How it behaves on the forms `HashPassword` produces is stated by `VerifyOwnHash` and `VerifyOtherPassword`.
- SignupPage, LoginPage: `getBackendURL`, the password visibility toggle, storage writes, redirects, `handleForgotPassword` and the redirect of a user who is already logged in are not modelled. The DOM checks in `loadRememberedEmail` are not modelled either.
