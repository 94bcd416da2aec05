/** QuizResponse: the record a quiz keeps per answered question, with its
    four-valued status. */
module QuizResponses {
  import opened Optional

  /** The C++ `int` that holds the question index. */
  newtype Int32 = x: int | -0x8000_0000 <= x < 0x8000_0000

  /** QuizResponse::Status. */
  datatype Status = Incomplete | Correct | Missed | Incorrect

  /** The integer value of each enumerator as the header fixes it. */
  function StatusValue(s: Status): (v: int)
    ensures 0 <= v <= 3
    ensures s == Incomplete <==> v == 0
    ensures s == Correct <==> v == 1
    ensures s == Missed <==> v == 2
    ensures s == Incorrect <==> v == 3
  {
    match s
    case Incomplete => 0
    case Correct => 1
    case Missed => 2
    case Incorrect => 3
  }

  /** The enumerator with value `v`, if any. */
  function StatusFromValue(v: int): (r: Option<Status>)
    ensures r.Some? <==> 0 <= v <= 3
  {
    if v == 0 then Some(Incomplete)
    else if v == 1 then Some(Correct)
    else if v == 2 then Some(Missed)
    else if v == 3 then Some(Incorrect)
    else None
  }

  /** The values are distinct, so each one names exactly one status, in both directions. */
  lemma StatusValueRoundTrip(s: Status, v: int)
    ensures StatusFromValue(StatusValue(s)) == Some(s)
    ensures StatusFromValue(v) == Some(s) <==> StatusValue(s) == v
  {
  }

  lemma StatusValueInjective(a: Status, b: Status)
    ensures StatusValue(a) == StatusValue(b) <==> a == b
  {
  }

  /** A quiz response: question index, status and the question's name. */
  datatype QuizResponse = QuizResponse(questionIndex: Int32, status: Status, name: string)

  function GetQuestionIndex(r: QuizResponse): Int32 { r.questionIndex }
  function GetStatus(r: QuizResponse): Status { r.status }
  function GetName(r: QuizResponse): string { r.name }

  /** setQuestionIndex: the getter reports `i`, the other fields keep their values. */
  function SetQuestionIndex(r: QuizResponse, i: Int32): (r': QuizResponse)
    ensures GetQuestionIndex(r') == i
    ensures GetStatus(r') == GetStatus(r) && GetName(r') == GetName(r)
  {
    r.(questionIndex := i)
  }

  /** setStatus: the getter reports `s`, the other fields keep their values. */
  function SetStatus(r: QuizResponse, s: Status): (r': QuizResponse)
    ensures GetStatus(r') == s
    ensures GetQuestionIndex(r') == GetQuestionIndex(r) && GetName(r') == GetName(r)
  {
    r.(status := s)
  }

  /** setName: the getter reports `n`, the other fields keep their values. */
  function SetName(r: QuizResponse, n: string): (r': QuizResponse)
    ensures GetName(r') == n
    ensures GetQuestionIndex(r') == GetQuestionIndex(r) && GetStatus(r') == GetStatus(r)
  {
    r.(name := n)
  }

  /** The default-constructed response: no question yet, status Incomplete, and the
      null QString, which reads as empty. */
  function DefaultResponse(): (r: QuizResponse)
    ensures GetQuestionIndex(r) == -1
    ensures GetStatus(r) == Incomplete && StatusValue(GetStatus(r)) == 0
    ensures GetName(r) == ""
  {
    QuizResponse(-1, Incomplete, "")
  }

  /** The three setters touch disjoint fields, so they commute, and a response is
      fully determined by the three values last set. */
  lemma SettersCommute(r: QuizResponse, i: Int32, s: Status, n: string)
    ensures SetStatus(SetQuestionIndex(r, i), s) == SetQuestionIndex(SetStatus(r, s), i)
    ensures SetName(SetQuestionIndex(r, i), n) == SetQuestionIndex(SetName(r, n), i)
    ensures SetName(SetStatus(r, s), n) == SetStatus(SetName(r, n), s)
    ensures SetName(SetStatus(SetQuestionIndex(r, i), s), n) == QuizResponse(i, s, n)
  {
  }
}
