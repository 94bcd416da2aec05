/** Lexicon names and the lexicon-style record the settings hold. */
module Lexicons {

  /** The lexicon-name constants the code compares against.  Their string values
      live in the program's Defs header, which is not part of this model, so they
      are carried as data. */
  datatype LexiconNames = LexiconNames(
    custom: string,
    owl: string, owl2: string, ospd4: string, wwf: string, volost: string,
    oswi: string, csw07: string, csw12: string, cd: string,
    ods4: string, ods5: string, fise2009: string, zinga: string
  )

  /** A word-list lexicon style: words of `lexicon` that are (or are not, according to
      `inCompareLexicon`) in `compareLexicon` are marked with `symbol`. */
  datatype LexiconStyle = LexiconStyle(
    lexicon: string,
    compareLexicon: string,
    inCompareLexicon: bool,
    symbol: string
  )
}
