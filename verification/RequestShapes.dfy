/**
  Interactive requests, the response shapes derived from them, and the two validators that a
  response passes.  Every request that is accepted can be answered.
 */
module RequestShapes {
  import opened Identifiers
  import opened Wrappers

  const MAX_QUESTIONS := 32
  const MAX_CHOICES := 64
  const MAX_ANSWER_LENGTH := 4096

  datatype RequestChoice = RequestChoice(choiceId: string, labelText: string)

  datatype Question = Question(
    questionId: string,
    prompt: string,
    choices: seq<RequestChoice>,
    allowsOther: bool,
    minAnswers: int,
    maxAnswers: int)

  /**
    The identities and the expiry that every request carries; `expiresInZone` says whether an expiry names a
    timezone.
   */
  datatype Envelope = Envelope(
    applicationId: string, requestId: string,
    turnApplicationId: string, projectId: string, threadId: string, turnId: string,
    expiresInZone: Option<bool>)

  datatype Request =
    | ApprovalRequest(envelope: Envelope, prompt: string, choices: seq<RequestChoice>)
    | UserInputRequest(envelope: Envelope, questions: seq<Question>)

  datatype QuestionShape = QuestionShape(
    questionId: string, choiceIds: seq<string>, allowsOther: bool, minAnswers: int, maxAnswers: int)

  datatype Shape =
    | ApprovalShape(choiceIds: seq<string>)
    | UserInputShape(questions: seq<QuestionShape>)

  datatype Response =
    | ApprovalResponse(choiceId: string)
    | UserInputResponse(answers: map<string, seq<string>>)

  // ---- The validators: true when the source raises nothing ----

  predicate Unique(ids: seq<string>) { forall i, j | 0 <= i < j < |ids| :: ids[i] != ids[j] }

  function ChoiceIds(choices: seq<RequestChoice>): (ids: seq<string>) {
    seq(|choices|, i requires 0 <= i < |choices| => choices[i].choiceId)
  }

  predicate ValidChoices(choices: seq<RequestChoice>) {
    && |choices| <= MAX_CHOICES
    && Unique(ChoiceIds(choices))
    && forall choice | choice in choices :: ValidIdentifier(choice.choiceId) && !IsBlank(choice.labelText)
  }

  predicate ValidEnvelope(e: Envelope) {
    && ValidIdentifier(e.applicationId) && ValidIdentifier(e.requestId)
    && ValidIdentifier(e.turnApplicationId) && ValidIdentifier(e.projectId)
    && ValidIdentifier(e.threadId) && ValidIdentifier(e.turnId)
    && e.applicationId == e.turnApplicationId
    && e.expiresInZone != Some(false)
  }

  predicate ValidQuestion(q: Question) {
    && ValidIdentifier(q.questionId)
    && !IsBlank(q.prompt)
    && ValidChoices(q.choices)
    && 0 <= q.minAnswers <= q.maxAnswers
    && 1 <= q.maxAnswers <= MAX_CHOICES
    && (q.choices != [] && !q.allowsOther ==> q.minAnswers <= |q.choices|)
    && (!q.allowsOther ==> q.maxAnswers <= |q.choices|)
  }

  predicate ValidRequest(request: Request) {
    && ValidEnvelope(request.envelope)
    && match request
       case ApprovalRequest(_, prompt, choices) =>
         !IsBlank(prompt) && choices != [] && ValidChoices(choices)
       case UserInputRequest(_, questions) =>
         && 0 < |questions| <= MAX_QUESTIONS
         && Unique(QuestionIds(questions))
         && forall q | q in questions :: ValidQuestion(q)
  }

  function QuestionIds(questions: seq<Question>): seq<string> {
    seq(|questions|, i requires 0 <= i < |questions| => questions[i].questionId)
  }

  function ShapeIds(questions: seq<QuestionShape>): seq<string> {
    seq(|questions|, i requires 0 <= i < |questions| => questions[i].questionId)
  }

  predicate ValidShapeIds(ids: seq<string>) {
    |ids| <= MAX_CHOICES && Unique(ids) && forall id | id in ids :: ValidIdentifier(id)
  }

  predicate ValidQuestionShape(q: QuestionShape) {
    && ValidIdentifier(q.questionId)
    && ValidShapeIds(q.choiceIds)
    && 0 <= q.minAnswers <= q.maxAnswers
    && 1 <= q.maxAnswers <= MAX_CHOICES
    && (!q.allowsOther ==> q.maxAnswers <= |q.choiceIds|)
  }

  predicate ValidShape(shape: Shape) {
    match shape
    case ApprovalShape(ids) => ids != [] && ValidShapeIds(ids)
    case UserInputShape(questions) =>
      && 0 < |questions| <= MAX_QUESTIONS
      && Unique(ShapeIds(questions))
      && forall q | q in questions :: ValidQuestionShape(q)
  }

  /** `derive_request_response_shape`: nothing is derived from a request that does not validate. */
  function DeriveShape(request: Request): Option<Shape> {
    if !ValidRequest(request) then None
    else
      match request
      case ApprovalRequest(_, _, choices) => Some(ApprovalShape(ChoiceIds(choices)))
      case UserInputRequest(_, questions) =>
        Some(UserInputShape(DeriveQuestions(questions)))
  }

  function DeriveQuestions(questions: seq<Question>): seq<QuestionShape> {
    seq(|questions|, i requires 0 <= i < |questions| => DeriveQuestion(questions[i]))
  }

  function DeriveQuestion(q: Question): QuestionShape {
    QuestionShape(q.questionId, ChoiceIds(q.choices), q.allowsOther, q.minAnswers, q.maxAnswers)
  }

  /** The bound on one response before it is copied or admitted. */
  predicate Admitted(response: Response) {
    match response
    case ApprovalResponse(choiceId) => ValidIdentifier(choiceId)
    case UserInputResponse(answers) =>
      && 0 < |answers| <= MAX_QUESTIONS
      && forall id | id in answers ::
           && ValidIdentifier(id)
           && 0 < |answers[id]| <= MAX_CHOICES
           && forall answer | answer in answers[id] :: 0 < |answer| <= MAX_ANSWER_LENGTH
  }

  /** An unanswered question counts as one with no answers. */
  function AnswersTo(answers: map<string, seq<string>>, questionId: string): seq<string> {
    if questionId in answers then answers[questionId] else []
  }

  predicate Answers(q: QuestionShape, answers: seq<string>) {
    && q.minAnswers <= |answers| <= q.maxAnswers
    && Unique(answers)
    && forall answer | answer in answers :: answer != "" && (answer in q.choiceIds || q.allowsOther)
  }

  predicate ValidResponse(response: Response, shape: Shape) {
    && ValidShape(shape)
    && Admitted(response)
    && match shape
       case ApprovalShape(ids) => response.ApprovalResponse? && response.choiceId in ids
       case UserInputShape(questions) =>
         && response.UserInputResponse?
         && (forall id | id in response.answers :: exists q | q in questions :: q.questionId == id)
         && (forall q | q in questions :: Answers(q, AnswersTo(response.answers, q.questionId)))
  }

  // ---- A response to every accepted request ----

  lemma DerivedShapeIsValid(request: Request)
    requires ValidRequest(request)
    ensures DeriveShape(request).Some? && ValidShape(DeriveShape(request).value)
  {
    match request
    case ApprovalRequest(_, _, choices) =>
      ChoiceIdsAreValid(choices);
    case UserInputRequest(_, questions) =>
      var derived := DeriveShape(request).value.questions;
      assert ShapeIds(derived) == QuestionIds(questions);
      forall q | q in derived ensures ValidQuestionShape(q) {
        var i :| 0 <= i < |derived| && derived[i] == q;
        assert questions[i] in questions;
        ChoiceIdsAreValid(questions[i].choices);
      }
  }

  lemma ChoiceIdsAreValid(choices: seq<RequestChoice>)
    requires ValidChoices(choices)
    ensures ValidShapeIds(ChoiceIds(choices))
  {
    forall id | id in ChoiceIds(choices) ensures ValidIdentifier(id) {
      var i :| 0 <= i < |choices| && ChoiceIds(choices)[i] == id;
      assert choices[i] in choices;
    }
  }

  /** n + 1 letters. */
  function Letters(n: nat): string { seq(n + 1, _ => 'a') }

  /** Free texts that differ in length. */
  function FreeTexts(count: nat): seq<string> { seq(count, i requires 0 <= i < count => Letters(i)) }

  lemma FreeTextsAreAnswers(count: nat)
    requires count <= MAX_CHOICES
    ensures Unique(FreeTexts(count))
    ensures forall text | text in FreeTexts(count) :: 0 < |text| <= MAX_ANSWER_LENGTH
  {
    forall i, j | 0 <= i < j < count ensures FreeTexts(count)[i] != FreeTexts(count)[j] {
      assert |FreeTexts(count)[i]| == i + 1 && |FreeTexts(count)[j]| == j + 1;
    }
  }

  /** As many answers as the question needs, and at least one, because an empty answer is not admitted. */
  function WitnessAnswers(q: QuestionShape): seq<string>
    requires ValidQuestionShape(q)
  {
    var count := if q.minAnswers == 0 then 1 else q.minAnswers;
    if q.allowsOther then FreeTexts(count) else q.choiceIds[..count]
  }

  lemma WitnessAnswersTheQuestion(q: QuestionShape)
    requires ValidQuestionShape(q)
    ensures var answers := WitnessAnswers(q);
            && Answers(q, answers)
            && 0 < |answers| <= MAX_CHOICES
            && forall answer | answer in answers :: 0 < |answer| <= MAX_ANSWER_LENGTH
  {
    var answers := WitnessAnswers(q);
    if q.allowsOther { FreeTextsAreAnswers(if q.minAnswers == 0 then 1 else q.minAnswers); }
    forall answer | answer in answers
      ensures 0 < |answer| <= MAX_ANSWER_LENGTH && (q.allowsOther || answer in q.choiceIds)
    {
      if !q.allowsOther { assert ValidIdentifier(answer); }
    }
  }

  function WitnessMap(questions: seq<QuestionShape>): (answers: map<string, seq<string>>)
    requires forall q | q in questions :: ValidQuestionShape(q)
  {
    if questions == [] then map[]
    else WitnessMap(questions[1..])[questions[0].questionId := WitnessAnswers(questions[0])]
  }

  lemma {:induction false} WitnessMapAnswers(questions: seq<QuestionShape>)
    requires Unique(ShapeIds(questions))
    requires forall q | q in questions :: ValidQuestionShape(q)
    ensures |WitnessMap(questions)| == |questions|
    ensures forall q | q in questions :: q.questionId in WitnessMap(questions)
                                         && WitnessMap(questions)[q.questionId] == WitnessAnswers(q)
    decreases |questions|
  {
    if questions != [] {
      var rest := questions[1..];
      WitnessMapKeys(rest);
      assert forall i | 0 <= i < |rest| :: ShapeIds(rest)[i] == ShapeIds(questions)[i + 1];
      WitnessMapAnswers(rest);
      forall q | q in rest ensures q.questionId != questions[0].questionId {
        var i :| 0 <= i < |rest| && rest[i] == q;
        assert ShapeIds(questions)[0] != ShapeIds(questions)[i + 1];
      }
    }
  }

  lemma {:induction false} WitnessMapKeys(questions: seq<QuestionShape>)
    requires forall q | q in questions :: ValidQuestionShape(q)
    ensures forall id | id in WitnessMap(questions) :: exists q | q in questions :: q.questionId == id
    decreases |questions|
  {
    if questions != [] {
      WitnessMapKeys(questions[1..]);
      forall id | id in WitnessMap(questions) ensures exists q | q in questions :: q.questionId == id {
        if id == questions[0].questionId {
          assert questions[0] in questions;
        } else {
          assert id in WitnessMap(questions[1..]);
          var q :| q in questions[1..] && q.questionId == id;
          assert q in questions;
        }
      }
    }
  }

  function WitnessResponse(shape: Shape): Response
    requires ValidShape(shape)
  {
    match shape
    case ApprovalShape(ids) => ApprovalResponse(ids[0])
    case UserInputShape(questions) => UserInputResponse(WitnessMap(questions))
  }

  lemma ValidShapeIsAnswerable(shape: Shape)
    requires ValidShape(shape)
    ensures Admitted(WitnessResponse(shape)) && ValidResponse(WitnessResponse(shape), shape)
  {
    if shape.UserInputShape? {
      var answers := WitnessMap(shape.questions);
      WitnessMapAnswers(shape.questions);
      WitnessMapKeys(shape.questions);
      forall q | q in shape.questions ensures Answers(q, AnswersTo(answers, q.questionId)) {
        WitnessAnswersTheQuestion(q);
      }
      forall id | id in answers
        ensures ValidIdentifier(id) && 0 < |answers[id]| <= MAX_CHOICES
        ensures forall answer | answer in answers[id] :: 0 < |answer| <= MAX_ANSWER_LENGTH
      {
        var q :| q in shape.questions && q.questionId == id;
        WitnessAnswersTheQuestion(q);
      }
    } else {
      assert shape.choiceIds[0] in shape.choiceIds;
    }
  }

  /**
    For every request the validator accepts, the derived shape passes its own validator and
    some response passes both response admission and response validation against it.
   */
  lemma AcceptedRequestIsAnswerable(request: Request)
    requires ValidRequest(request)
    ensures DeriveShape(request).Some? && ValidShape(DeriveShape(request).value)
    ensures exists response :: Admitted(response) && ValidResponse(response, DeriveShape(request).value)
  {
    DerivedShapeIsValid(request);
    ValidShapeIsAnswerable(DeriveShape(request).value);
  }

  // ---- A response says nothing that the request did not offer ----

  /** What an answer set may be, in the terms of the request's own question. */
  predicate OfferedBy(q: Question, answers: seq<string>) {
    && q.minAnswers <= |answers| <= q.maxAnswers
    && NoneRepeats(answers)
    && forall answer | answer in answers :: answer != "" && (Offers(q, answer) || q.allowsOther)
  }

  predicate NoneRepeats(answers: seq<string>) { forall i | 0 <= i < |answers| :: answers[i] !in answers[..i] }

  predicate Offers(q: Question, answer: string) { exists choice | choice in q.choices :: choice.choiceId == answer }

  /**
    A user-input response is valid for the derived shape exactly when it is admitted, names only
    questions of the request, and gives each question an answer set that the request offers.
   */
  lemma DerivedShapeIsExact(request: Request, answers: map<string, seq<string>>)
    requires ValidRequest(request) && request.UserInputRequest?
    ensures ValidResponse(UserInputResponse(answers), DeriveShape(request).value) <==>
            && Admitted(UserInputResponse(answers))
            && (forall id | id in answers :: id in QuestionIds(request.questions))
            && (forall q | q in request.questions :: OfferedBy(q, AnswersTo(answers, q.questionId)))
  {
    DerivedShapeIsValid(request);
    DerivedAnswersAreExact(request.questions, answers);
    DerivedIdsAreExact(request.questions, answers);
  }

  lemma DerivedAnswersAreExact(questions: seq<Question>, answers: map<string, seq<string>>)
    ensures (forall q | q in DeriveQuestions(questions) :: Answers(q, AnswersTo(answers, q.questionId)))
            <==> (forall q | q in questions :: OfferedBy(q, AnswersTo(answers, q.questionId)))
  {
    var derived := DeriveQuestions(questions);
    if forall q | q in derived :: Answers(q, AnswersTo(answers, q.questionId)) {
      forall q | q in questions ensures OfferedBy(q, AnswersTo(answers, q.questionId)) {
        var i :| 0 <= i < |questions| && questions[i] == q;
        assert derived[i] == DeriveQuestion(q);
        DerivedQuestionIsExact(q, AnswersTo(answers, q.questionId));
      }
    }
    if forall q | q in questions :: OfferedBy(q, AnswersTo(answers, q.questionId)) {
      forall d | d in derived ensures Answers(d, AnswersTo(answers, d.questionId)) {
        var i :| 0 <= i < |derived| && derived[i] == d;
        assert questions[i] in questions;
        DerivedQuestionIsExact(questions[i], AnswersTo(answers, d.questionId));
      }
    }
  }

  lemma DerivedIdsAreExact(questions: seq<Question>, answers: map<string, seq<string>>)
    ensures (forall id | id in answers :: exists q | q in DeriveQuestions(questions) :: q.questionId == id)
            <==> (forall id | id in answers :: id in QuestionIds(questions))
  {
    var derived := DeriveQuestions(questions);
    forall id ensures id in QuestionIds(questions) <==> exists q | q in derived :: q.questionId == id {
      if id in QuestionIds(questions) {
        var i :| 0 <= i < |questions| && QuestionIds(questions)[i] == id;
        assert derived[i].questionId == id;
      }
      if exists q | q in derived :: q.questionId == id {
        var i :| 0 <= i < |derived| && derived[i].questionId == id;
        assert QuestionIds(questions)[i] == id;
      }
    }
  }

  lemma DerivedQuestionIsExact(q: Question, answers: seq<string>)
    ensures Answers(DeriveQuestion(q), answers) <==> OfferedBy(q, answers)
  {
    UniqueMeansNoneRepeats(answers);
    forall answer ensures answer in ChoiceIds(q.choices) <==> Offers(q, answer) { OffersItsChoices(q, answer); }
  }

  lemma OffersItsChoices(q: Question, answer: string)
    ensures answer in ChoiceIds(q.choices) <==> Offers(q, answer)
  {
    if answer in ChoiceIds(q.choices) {
      var i :| 0 <= i < |q.choices| && ChoiceIds(q.choices)[i] == answer;
      assert q.choices[i] in q.choices && q.choices[i].choiceId == answer;
    }
    if Offers(q, answer) {
      var i :| 0 <= i < |q.choices| && q.choices[i].choiceId == answer;
      assert ChoiceIds(q.choices)[i] == answer;
    }
  }

  lemma UniqueMeansNoneRepeats(answers: seq<string>)
    ensures Unique(answers) <==> NoneRepeats(answers)
  {
    if NoneRepeats(answers) {
      forall i, j | 0 <= i < j < |answers| ensures answers[i] != answers[j] {
        assert answers[i] == answers[..j][i];
      }
    }
  }
}
