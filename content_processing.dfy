/**
 * `processContentAdvanced(text, title)`: the upload page's offline pipeline.
 * It analyzes the text, detects its sections, extracts its key concepts,
 * generates the four kinds of questions and adds a few counts. The simulated
 * delays and the generation timestamp are not part of the model.
 */
module ContentProcessing {
  import opened TextUtil
  import Analyzer
  import Concepts
  import Patterns
  import QuestionGenerator
  import Shuffle

  const ProcessingVersion := "2.0-enhanced"

  datatype Metadata = Metadata(wordCount: nat, sentenceCount: nat, paragraphCount: nat,
                               estimatedReadTime: nat, processingVersion: string)

  datatype ReviewerData = ReviewerData(title: string, sections: seq<Analyzer.Section>,
                                       concepts: seq<Concepts.KeyConcept>, questions: QuestionGenerator.Questions,
                                       patterns: Patterns.ContentPatterns, metadata: Metadata)

  /** `Math.ceil(words / 200)`. */
  function ReadTime(words: nat): (r: nat)
    ensures 200 * r >= words && (r == 0 || 200 * (r - 1) < words)
  {
    (words + 199) / 200
  }

  function MetadataOf(a: Analyzer.Analysis): Metadata
  {
    var words := |SplitSpaces(a.text)|;
    Metadata(words, |a.sentences|, |a.paragraphs|, ReadTime(words), ProcessingVersion)
  }

  function ReviewerDataOf(text: string, title: string, draws: QuestionGenerator.Draws): ReviewerData
  {
    var a := Analyzer.AnalysisOf(text);
    var concepts := Concepts.KeyConcepts(a.text, a.patterns.definitions, a.sentences);
    ReviewerData(title, Analyzer.Sections(a.paragraphs), concepts,
                 QuestionGenerator.AllQuestions(a.sentences, concepts, draws), a.patterns, MetadataOf(a))
  }

  method ProcessContentAdvanced(text: string, title: string, draws: QuestionGenerator.Draws) returns (data: ReviewerData)
    ensures data == ReviewerDataOf(text, title, draws)
  {
    var analyzer := Analyzer.NewContentAnalyzer(text);
    var sections := Analyzer.DetectSections(analyzer);
    var concepts := Concepts.ExtractKeyConcepts(analyzer);
    var questions := QuestionGenerator.GenerateAllQuestions(analyzer.sentences, concepts, draws);
    data := ReviewerData(title, sections, concepts, questions, analyzer.patterns, MetadataOf(analyzer));
  }

  /**
   * What the stored reviewer data guarantees: the title as given, sections
   * with content, at most 25 distinct concepts, the question caps, and a
   * reading time of at least one minute that covers the word count at 200
   * words a minute.
   */
  lemma ReviewerDataShape(text: string, title: string, draws: QuestionGenerator.Draws)
    ensures var d := ReviewerDataOf(text, title, draws);
      d.title == title
      && Analyzer.AllFilled(d.sections)
      && |d.concepts| <= 25 && Shuffle.DistinctBy(d.concepts, Concepts.LowerTerm)
      && |d.questions.trueFalse| <= 12 && |d.questions.multipleChoice| <= 12
      && |d.questions.identification| <= 10 && |d.questions.matching.pairs| <= 8
      && d.metadata.wordCount >= 1 && d.metadata.estimatedReadTime >= 1
      && 200 * (d.metadata.estimatedReadTime - 1) < d.metadata.wordCount <= 200 * d.metadata.estimatedReadTime
  {
    var a := Analyzer.AnalysisOf(text);
    Analyzer.SectionsFilled(a.paragraphs);
    Concepts.KeyConceptsShape(a.text, a.patterns.definitions, a.sentences);
    var concepts := Concepts.KeyConcepts(a.text, a.patterns.definitions, a.sentences);
    QuestionGenerator.AllQuestionsBounds(a.sentences, concepts, draws);
  }
}
