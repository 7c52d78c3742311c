/** The two endpoints that consult the question table: `get_questions_by_topic`
    and the validation in `create_attempt`. The table is a sequence of rows in
    the order the database returns them. */
module Questions {
  import opened Common

  /** A row of the `questions` table. */
  datatype Question = Question(questionId: int, topic: string, questionImg: string, answerImg: string)

  /** The `ErrorType` enumeration and its values. */
  datatype ErrorType = Silly | Concept | NoMistake

  function ErrorTypeValue(e: ErrorType): string
  {
    match e
    case Silly => "silly"
    case Concept => "concept"
    case NoMistake => "none"
  }

  /** `ErrorType(s)`: lookup by value, which fails for any other string. */
  function ParseErrorType(s: string): (r: Option<ErrorType>)
    ensures r.Some? ==> ErrorTypeValue(r.value) == s
    ensures r.None? ==> s != "silly" && s != "concept" && s != "none"
  {
    if s == "silly" then Some(Silly)
    else if s == "concept" then Some(Concept)
    else if s == "none" then Some(NoMistake)
    else None
  }

  /** Looking a member up by its own value gives the member back. */
  lemma ParseErrorTypeValue(e: ErrorType)
    ensures ParseErrorType(ErrorTypeValue(e)) == Some(e)
  {
  }

  /** `session.query(Question).filter(Question.question_id == id).first()`. */
  function FindQuestion(stored: seq<Question>, questionId: int): (r: Option<Question>)
    ensures r.Some? ==> r.value in stored && r.value.questionId == questionId
    ensures r.None? <==> forall q :: q in stored ==> q.questionId != questionId
  {
    if |stored| == 0 then None
    else if stored[0].questionId == questionId then Some(stored[0])
    else FindQuestion(stored[1..], questionId)
  }

  /** `.first()` gives the earliest matching row. */
  lemma {:induction false} FindQuestionFirst(stored: seq<Question>, questionId: int, i: nat)
    requires i < |stored| && stored[i].questionId == questionId
    requires forall j :: 0 <= j < i ==> stored[j].questionId != questionId
    ensures FindQuestion(stored, questionId) == Some(stored[i])
  {
    if i > 0 {
      FindQuestionFirst(stored[1..], questionId, i - 1);
    }
  }

  /** The row `create_attempt` would add: the question, the parsed error type
      (absent when none was given) and the explanation as sent. */
  datatype NewAttempt = NewAttempt(questionId: int, errorType: Option<ErrorType>, explanation: Option<string>)

  const QuestionNotFound: Failure := HttpFailure(404, "Question not found")
  const InvalidErrorType: Failure := HttpFailure(400, "Invalid error_type")

  /** The checks `create_attempt` makes before it stores an attempt. */
  function CreateAttempt(stored: seq<Question>, questionId: int,
                         errorType: Option<string>, explanation: Option<string>): (r: Result<NewAttempt>)
    // An unknown question is rejected, whatever the error type says.
    ensures r == Err(QuestionNotFound) <==> forall q :: q in stored ==> q.questionId != questionId
    // A known question with a non-empty error type outside the enumeration is rejected.
    ensures r == Err(InvalidErrorType) <==>
      (exists q :: q in stored && q.questionId == questionId)
      && errorType.Some? && errorType.value != ""
      && errorType.value !in {"silly", "concept", "none"}
    ensures r.Err? ==> r == Err(QuestionNotFound) || r == Err(InvalidErrorType)
    // Otherwise the attempt keeps the question and explanation, and its type is
    // the member whose value was sent, or none when the field was empty or missing.
    ensures r.Ok? ==> r.value.questionId == questionId && r.value.explanation == explanation
    ensures r.Ok? ==> (r.value.errorType.None? <==> errorType.None? || errorType.value == "")
    ensures r.Ok? && r.value.errorType.Some? ==>
      errorType.Some? && ErrorTypeValue(r.value.errorType.value) == errorType.value
  {
    if FindQuestion(stored, questionId).None? then Err(QuestionNotFound)
    else if errorType.Some? && errorType.value != "" then
      match ParseErrorType(errorType.value)
      case None => Err(InvalidErrorType)
      case Some(e) => Ok(NewAttempt(questionId, Some(e), explanation))
    else Ok(NewAttempt(questionId, None, explanation))
  }

  const NoQuestionsForTopic: Failure := HttpFailure(404, "No questions found for this topic")

  function HasTopic(topic: string): Question -> bool
  {
    (q: Question) => q.topic == topic
  }

  /** `get_questions_by_topic`: the rows with the topic, or 404 when there are none. */
  function QuestionsByTopic(stored: seq<Question>, topic: string): (r: Result<seq<Question>>)
    ensures r.Err? <==> forall q :: q in stored ==> q.topic != topic
    ensures r.Err? ==> r.failure == NoQuestionsForTopic
    ensures r.Ok? ==> |r.value| > 0
    ensures r.Ok? ==> forall q :: q in r.value ==> q.topic == topic && q in stored
    ensures r.Ok? ==> forall q :: q in stored && q.topic == topic ==> q in r.value
    ensures r.Ok? ==> |r.value| == Count(HasTopic(topic), stored)
  {
    CountIsFilterLength(HasTopic(topic), stored);
    var questions := Filter(HasTopic(topic), stored);
    if |questions| == 0 then Err(NoQuestionsForTopic)
    else
      assert questions[0] in stored && questions[0].topic == topic;
      Ok(questions)
  }

  /** The query has no ordering clause; the model takes the rows in the order
      of its table sequence, and the lookup keeps that order: over a table split
      anywhere, the result is the first part's matches, then the second's, and
      404 when neither part has one. */
  lemma QuestionsByTopicOrder(a: seq<Question>, b: seq<Question>, topic: string)
    ensures var rows := Filter(HasTopic(topic), a) + Filter(HasTopic(topic), b);
      QuestionsByTopic(a + b, topic) == if rows == [] then Err(NoQuestionsForTopic) else Ok(rows)
  {
    FilterAppend(HasTopic(topic), a, b);
  }
}
