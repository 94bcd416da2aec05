/** Reading a plain word-list file into an anagram quiz: one word per line, taken
    from the first space-separated field, upper-cased; blank and comment lines are
    skipped. */
module WordFile {
  import opened Optional
  import opened Text
  import opened QuizSpecs

  /** Upper case in the ASCII sense: no letter 'a'..'z'. */
  predicate IsUpperCase(s: string)
  {
    forall i :: 0 <= i < |s| ==> !('a' <= s[i] <= 'z')
  }

  /** The word one line contributes, if any. */
  function LineWord(line: string): Option<string>
  {
    var simple := Simplified(line);
    if |simple| == 0 || simple[0] == '#' then None
    else
      var word := Upper(FirstSection(simple));
      if |word| == 0 then None else Some(word)
  }

  /** A line is skipped exactly when it is blank or its first token starts with '#';
      otherwise its word is its first whitespace-delimited token, upper-cased. */
  lemma LineWordCharacterised(line: string)
    ensures LineWord(line).None? <==> |Tokens(line)| == 0 || Tokens(line)[0][0] == '#'
    ensures LineWord(line).Some? ==> LineWord(line).value == Upper(Tokens(line)[0])
  {
    SimplifiedShape(line);
    if |Tokens(line)| > 0 {
      FirstSectionOfSimplified(line);
    }
  }

  /** An upper-cased token is still a token. */
  lemma UpperToken(w: string)
    requires IsToken(w)
    ensures IsToken(Upper(w)) && IsUpperCase(Upper(w))
  {
  }

  /** The words of the file's lines, in file order. */
  function ReadWords(lines: seq<string>): (words: seq<string>)
    ensures |words| <= |lines|
    ensures forall i :: 0 <= i < |words| ==> IsToken(words[i]) && IsUpperCase(words[i])
  {
    if |lines| == 0 then []
    else
      var rest := ReadWords(lines[1..]);
      match LineWord(lines[0])
      case None => rest
      case Some(w) =>
        LineWordCharacterised(lines[0]);
        UpperToken(Tokens(lines[0])[0]);
        [w] + rest
  }

  /** The reader works line by line: the words of two consecutive parts of a file are
      the words of the first part followed by those of the second. */
  lemma {:induction false} ReadWordsAppend(a: seq<string>, b: seq<string>)
    ensures ReadWords(a + b) == ReadWords(a) + ReadWords(b)
  {
    if |a| > 0 {
      assert (a + b)[1..] == a[1..] + b;
      ReadWordsAppend(a[1..], b);
    } else {
      assert a + b == b;
    }
  }

  /** A file of skipped lines gives no words; a single line gives its word. */
  lemma ReadWordsSingle(line: string)
    ensures ReadWords([line]) == (match LineWord(line) case None => [] case Some(w) => [w])
  {
    assert [line][1..] == [];
  }

  /** MainWindow::newQuizFromWordFile: an anagram quiz in the default lexicon whose
      search is one in-word-list condition holding the words joined by spaces. */
  function WordFileQuiz(lines: seq<string>, defaultLexicon: string): (q: QuizSpec)
    ensures q.quizType == QuizAnagrams && q.lexicon == defaultLexicon
    ensures |q.searchSpec.conditions| == 1 && q.searchSpec.conditions[0].kind == InWordList
    ensures Tokens(q.searchSpec.conditions[0].stringValue) == ReadWords(lines)
    ensures Simplified(q.searchSpec.conditions[0].stringValue) == q.searchSpec.conditions[0].stringValue
  {
    var words := ReadWords(lines);
    TokensOfJoin(words);
    QuizSpec(QuizAnagrams, defaultLexicon, SearchSpec([SearchCondition(InWordList, Join(words, " "))]))
  }
}
