/** The parts of QuizSpec and SearchSpec that the modelled code builds or inspects. */
module QuizSpecs {

  /** QuizSpec::QuizType: the anagram family named in the reschedule code, the
      unknown type, and every other quiz type under one constructor. */
  datatype QuizType =
    | UnknownQuizType
    | QuizAnagrams
    | QuizAnagramsWithHooks
    | QuizSubanagrams
    | QuizAnagramJumble
    | QuizSubanagramJumble
    | OtherQuizType(name: string)

  /** Quiz types whose questions are alphagrams rather than words. */
  predicate IsAnagramFamily(t: QuizType)
  {
    t.QuizAnagrams? || t.QuizAnagramsWithHooks? || t.QuizSubanagrams?
    || t.QuizAnagramJumble? || t.QuizSubanagramJumble?
  }

  /** SearchCondition::SearchType, reduced to the one value the word-file reader uses. */
  datatype ConditionType = InWordList | OtherConditionType(name: string)

  datatype SearchCondition = SearchCondition(kind: ConditionType, stringValue: string)

  datatype SearchSpec = SearchSpec(conditions: seq<SearchCondition>)

  datatype QuizSpec = QuizSpec(quizType: QuizType, lexicon: string, searchSpec: SearchSpec)
}
