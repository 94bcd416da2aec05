/** Cardbox rescheduling as the main window prepares it: the reschedule dialog's
    handler picks the words and the parameter, then the request is routed to exactly
    one quiz-statistics store operation.  The store operations themselves (the date
    arithmetic) are not modelled; each is an opaque call whose result is a count. */
module CardboxReschedule {
  import opened Optional
  import opened Collections
  import opened Text
  import opened QuizSpecs

  /** CardboxRescheduleType. */
  datatype RescheduleType = RescheduleUnknown | ShiftDays | ShiftBacklog | ByCardbox

  /** The one QuizStatsDatabase operation a reschedule issues, with its arguments. */
  datatype StoreCall =
    | ShiftByDays(questions: seq<string>, days: int)
    | ShiftByBacklog(questions: seq<string>, backlogSize: int)
    | RescheduleByBoxLevel(questions: seq<string>)

  /** The code the reschedule path calls but whose bodies are elsewhere. */
  datatype Collaborators = Collaborators(
    quizTypeOf: string -> QuizType,                 // Auxil::stringToQuizType
    alphagram: string -> string,                    // Auxil::getAlphagram
    storeValid: (string, string) -> bool,           // QuizStatsDatabase(lexicon, quizType).isValid()
    run: (string, string, StoreCall) -> int,        // the store operation's returned count
    search: (string, SearchSpec) -> seq<string>     // WordEngine::search(lexicon, spec, true)
  )

  /** The reschedule type a store call belongs to. */
  function CallType(call: StoreCall): RescheduleType
  {
    match call
    case ShiftByDays(_, _) => ShiftDays
    case ShiftByBacklog(_, _) => ShiftBacklog
    case RescheduleByBoxLevel(_) => ByCardbox
  }

  /** The question keys handed to the store.  For anagram-family quizzes they are the
      distinct alphagrams of the words (the code collects them in a QSet, whose list
      order is unspecified; this model keeps first occurrences); for other quiz types
      they are the words themselves.  No words means "all questions". */
  function QuestionKeys(words: seq<string>, t: QuizType, alphagram: string -> string): (keys: seq<string>)
    ensures |words| == 0 ==> keys == []
    ensures !IsAnagramFamily(t) ==> keys == words
    ensures IsAnagramFamily(t) ==> NoDuplicates(keys) && |keys| <= |words|
    ensures IsAnagramFamily(t) ==> (set k | k in keys) == (set w | w in words :: alphagram(w))
  {
    if |words| == 0 then []
    else if IsAnagramFamily(t) then
      var alphagrams := seq(|words|, i requires 0 <= i < |words| => alphagram(words[i]));
      var keys := Distinct(alphagrams);
      assert (set k | k in keys) == (set w | w in words :: alphagram(w)) by {
        forall k | k in keys ensures k in (set w | w in words :: alphagram(w)) {
          var i :| 0 <= i < |alphagrams| && alphagrams[i] == k;
          assert words[i] in words;
        }
        forall k | k in (set w | w in words :: alphagram(w)) ensures k in keys {
          var w :| w in words && alphagram(w) == k;
          var i :| 0 <= i < |words| && words[i] == w;
          assert alphagrams[i] == k;
        }
      }
      keys
    else words
  }

  /** The number of anagram-family keys is the number of distinct alphagrams. */
  lemma QuestionKeysCount(words: seq<string>, t: QuizType, alphagram: string -> string)
    requires IsAnagramFamily(t)
    ensures |QuestionKeys(words, t, alphagram)| == |set w | w in words :: alphagram(w)|
  {
    DistinctCardinality(QuestionKeys(words, t, alphagram));
  }

  /** MainWindow::rescheduleCardbox up to the store call: None when it returns 0
      without touching the store, otherwise the single operation it invokes. */
  function PlanReschedule(words: seq<string>, lexicon: string, quizType: string,
                          rescheduleType: RescheduleType, value: int, c: Collaborators): (plan: Option<StoreCall>)
    ensures plan.None? <==>
      rescheduleType == RescheduleUnknown
      || c.quizTypeOf(quizType) == UnknownQuizType
      || !c.storeValid(lexicon, quizType)
    ensures plan.Some? ==> CallType(plan.value) == rescheduleType
    ensures plan.Some? ==> plan.value.questions == QuestionKeys(words, c.quizTypeOf(quizType), c.alphagram)
    ensures plan.Some? && plan.value.ShiftByDays? ==> plan.value.days == value
    ensures plan.Some? && plan.value.ShiftByBacklog? ==> plan.value.backlogSize == value
  {
    if rescheduleType == RescheduleUnknown then None
    else
      var t := c.quizTypeOf(quizType);
      if t == UnknownQuizType then None
      else
        var questions := QuestionKeys(words, t, c.alphagram);
        if !c.storeValid(lexicon, quizType) then None
        else
          match rescheduleType
          case ShiftDays => Some(ShiftByDays(questions, value))
          case ShiftBacklog => Some(ShiftByBacklog(questions, value))
          case ByCardbox => Some(RescheduleByBoxLevel(questions))
  }

  /** MainWindow::rescheduleCardbox: the count the chosen store operation returns, or 0. */
  function RescheduleCardbox(words: seq<string>, lexicon: string, quizType: string,
                             rescheduleType: RescheduleType, value: int, c: Collaborators): (n: int)
    ensures (rescheduleType == RescheduleUnknown || c.quizTypeOf(quizType) == UnknownQuizType
             || !c.storeValid(lexicon, quizType)) ==> n == 0
    ensures var questions := QuestionKeys(words, c.quizTypeOf(quizType), c.alphagram);
      (c.quizTypeOf(quizType) != UnknownQuizType && c.storeValid(lexicon, quizType)) ==>
      && (rescheduleType == ShiftDays ==> n == c.run(lexicon, quizType, ShiftByDays(questions, value)))
      && (rescheduleType == ShiftBacklog ==> n == c.run(lexicon, quizType, ShiftByBacklog(questions, value)))
      && (rescheduleType == ByCardbox ==> n == c.run(lexicon, quizType, RescheduleByBoxLevel(questions)))
  {
    match PlanReschedule(words, lexicon, quizType, rescheduleType, value, c)
    case None => 0
    case Some(call) => c.run(lexicon, quizType, call)
  }

  /** The guard clauses: an unknown reschedule type, an unknown quiz type or an
      invalid store gives 0 whatever the store would have answered. */
  lemma RescheduleGuardsGiveZero(words: seq<string>, lexicon: string, quizType: string,
                                 rescheduleType: RescheduleType, value: int, c: Collaborators)
    requires rescheduleType == RescheduleUnknown || c.quizTypeOf(quizType) == UnknownQuizType
             || !c.storeValid(lexicon, quizType)
    ensures RescheduleCardbox(words, lexicon, quizType, rescheduleType, value, c) == 0
  {
  }

  /** The value reaches only the two shifting operations: rescheduling by box level
      issues the same call whatever value is passed. */
  lemma ByCardboxIgnoresValue(words: seq<string>, lexicon: string, quizType: string,
                              v1: int, v2: int, c: Collaborators)
    ensures PlanReschedule(words, lexicon, quizType, ByCardbox, v1, c)
         == PlanReschedule(words, lexicon, quizType, ByCardbox, v2, c)
  {
  }

  // ---------------------------------------------------------------------------
  // The reschedule dialog handler

  /** What the reschedule dialog returns. */
  datatype RescheduleRequest = RescheduleRequest(
    accepted: bool,
    quizType: string,
    lexicon: string,
    rescheduleAll: bool,
    searchSpec: SearchSpec,
    rescheduleType: RescheduleType,
    numDays: int,
    backlogSize: int
  )

  /** What the handler does: nothing, stop because the search found nothing, or
      reschedule and report. */
  datatype RequestOutcome =
    | Dismissed
    | NoMatchingWords
    | Rescheduled(call: Option<StoreCall>, count: int, message: string)

  /** The single parameter the handler forwards: the day count for a day shift, the
      backlog size for a backlog shift, and 0 otherwise. */
  function RescheduleValue(t: RescheduleType, numDays: int, backlogSize: int): int
  {
    if t == ShiftDays then numDays
    else if t == ShiftBacklog then backlogSize
    else 0
  }

  /** "question" for exactly one, "questions" otherwise. */
  function QuestionNoun(n: int): (noun: string)
    ensures noun == "question" <==> n == 1
    ensures n != 1 ==> noun == "questions"
  {
    if n == 1 then "question" else "questions"
  }

  /** The information message shown after a reschedule. */
  function ReportMessage(n: int): string
  {
    IntToString(n) + " " + QuestionNoun(n) + " rescheduled."
  }

  /** MainWindow::rescheduleCardboxRequested. */
  function HandleRescheduleRequest(req: RescheduleRequest, c: Collaborators): (out: RequestOutcome)
    ensures !req.accepted <==> out.Dismissed?
    ensures out.NoMatchingWords? <==>
      req.accepted && !req.rescheduleAll && c.search(req.lexicon, req.searchSpec) == []
    ensures out.Rescheduled? ==>
      var words := if req.rescheduleAll then [] else c.search(req.lexicon, req.searchSpec);
      var value := RescheduleValue(req.rescheduleType, req.numDays, req.backlogSize);
      && out.call == PlanReschedule(words, req.lexicon, req.quizType, req.rescheduleType, value, c)
      && out.count == RescheduleCardbox(words, req.lexicon, req.quizType, req.rescheduleType, value, c)
      && out.message == ReportMessage(out.count)
  {
    if !req.accepted then Dismissed
    else
      var words := if req.rescheduleAll then [] else c.search(req.lexicon, req.searchSpec);
      if !req.rescheduleAll && words == [] then NoMatchingWords
      else
        var value := RescheduleValue(req.rescheduleType, req.numDays, req.backlogSize);
        var call := PlanReschedule(words, req.lexicon, req.quizType, req.rescheduleType, value, c);
        var count := RescheduleCardbox(words, req.lexicon, req.quizType, req.rescheduleType, value, c);
        Rescheduled(call, count, ReportMessage(count))
  }

  /** End to end: the store sees the dialog's day count in a day shift and its backlog
      size in a backlog shift; "reschedule all" sends an empty key list. */
  lemma DialogForwardsItsParameter(req: RescheduleRequest, c: Collaborators)
    requires HandleRescheduleRequest(req, c).Rescheduled?
    ensures var out := HandleRescheduleRequest(req, c);
      && (out.call.Some? && out.call.value.ShiftByDays? ==>
            req.rescheduleType == ShiftDays && out.call.value.days == req.numDays)
      && (out.call.Some? && out.call.value.ShiftByBacklog? ==>
            req.rescheduleType == ShiftBacklog && out.call.value.backlogSize == req.backlogSize)
      && (out.call.Some? && req.rescheduleAll ==> out.call.value.questions == [])
      && (out.call.None? ==> out.count == 0)
  {
  }

  /** The report reads back: its tokens are the count, the noun and "rescheduled.",
      the count parses to the number rescheduled, and the noun is singular iff it is 1. */
  lemma ReportMessageReadsBack(n: int)
    ensures Tokens(ReportMessage(n)) == [IntToString(n), QuestionNoun(n), "rescheduled."]
    ensures ParseInt(Tokens(ReportMessage(n))[0]) == Some(n)
    ensures Tokens(ReportMessage(n))[1] == "question" <==> n == 1
  {
    var parts := [IntToString(n), QuestionNoun(n), "rescheduled."];
    assert IsToken(IntToString(n)) by {
      if n < 0 {
        assert IntToString(n)[1..] == NatToString(-n);
        forall i | 1 <= i < |IntToString(n)| ensures !IsSpace(IntToString(n)[i]) {
          assert IntToString(n)[i] == NatToString(-n)[i - 1];
        }
      }
    }
    assert IsToken(QuestionNoun(n));
    assert IsToken("rescheduled.");
    assert Join(parts, " ") == ReportMessage(n) by {
      assert parts[1..] == [QuestionNoun(n), "rescheduled."];
      assert parts[1..][1..] == ["rescheduled."];
    }
    TokensOfJoin(parts);
    IntToStringRoundTrip(n);
  }
}
