/** The two server actions: generating a questionnaire from a submitted job
    description, and generating interview questions from a résumé and a
    role. The language-model call is not modelled; its outcome is an input,
    and the result records which inputs the generator was called with. */
module Actions {
  import opened Text
  import opened Validation

  /** What `formData.get('jobDescription')` returns: no entry, or text. */
  datatype FormEntry = Absent | Entry(text: string)

  /** How the questionnaire generator ends: it returns an object whose
      `questionnaire` text may be empty, or it throws (a transport or model
      failure, or a null output whose field access throws). */
  datatype QuestionnaireOutcome = Generated(questionnaire: string) | Threw

  /** The state the questionnaire form holds: `{message, questionnaire?}`. */
  datatype QuestionnaireState = QuestionnaireState(message: string, questionnaire: Option<string>)

  datatype Option<T> = None | Some(value: T)

  /** What a call of the action returns, and the job descriptions the
      generator was called with during it. */
  datatype QuestionnaireReply = QuestionnaireReply(state: QuestionnaireState, generatorCalls: seq<string>)

  const MinJobDescription: nat := 50
  const TooShortMessage: string := "Job description must be at least 50 characters long."
  /** zod's message for a `null` where a string is expected. */
  const NotAStringMessage: string := "Expected string, received null"
  const ErrorPrefix: string := "Error: "
  const Success: string := "success"
  const EmptyResultMessage: string := ErrorPrefix + "Failed to generate questionnaire."
  const ServerErrorMessage: string := ErrorPrefix + "An unexpected error occurred on the server."

  /** `questionnaireSchema.safeParse`: the job description, or the field's
      error messages. */
  function ParseJobDescription(entry: FormEntry): (r: Result)
    ensures r.Valid? <==> entry.Entry? && |entry.text| >= MinJobDescription
    ensures r.Valid? ==> r.value == entry.text
    ensures entry.Absent? ==> r == Invalid([NotAStringMessage])
    ensures entry.Entry? && |entry.text| < MinJobDescription ==> r == Invalid([TooShortMessage])
  {
    match entry
    case Absent => Invalid([NotAStringMessage])
    case Entry(s) => if MinLength(s, MinJobDescription) then Valid(s) else Invalid([TooShortMessage])
  }

  datatype Result = Valid(value: string) | Invalid(errors: seq<string>)

  /** `fieldErrors.jobDescription?.join(', ')`. */
  function JoinMessages(messages: seq<string>): (s: string)
    ensures |messages| == 1 ==> s == messages[0]
    ensures messages != [] ==> StartsWith(s, messages[0])
    ensures |messages| >= 2 ==> |s| >= |messages[0]| + 2 && s[|messages[0]|..|messages[0]| + 2] == ", "
  {
    if messages == [] then []
    else if |messages| == 1 then messages[0]
    else messages[0] + ", " + JoinMessages(messages[1..])
  }

  /** `handleGenerateQuestionnaire(prevState, formData)`. The previous state
      is accepted and ignored, as in the action. */
  function HandleGenerateQuestionnaire(prev: QuestionnaireState, entry: FormEntry,
                                       generator: QuestionnaireOutcome): (r: QuestionnaireReply)
    // An invalid description never reaches the generator and gives an error.
    ensures ParseJobDescription(entry).Invalid? ==>
              r.generatorCalls == [] && StartsWith(r.state.message, ErrorPrefix) &&
              r.state.questionnaire == None
    ensures entry.Entry? && |entry.text| < MinJobDescription ==>
              r.state.message == ErrorPrefix + TooShortMessage
    // A valid description is passed to the generator exactly once, unchanged.
    ensures ParseJobDescription(entry).Valid? ==> r.generatorCalls == [entry.text]
    ensures ParseJobDescription(entry).Valid? && generator.Generated? && generator.questionnaire != [] ==>
              r.state == QuestionnaireState(Success, Some(generator.questionnaire))
    ensures ParseJobDescription(entry).Valid? && generator == Generated([]) ==>
              r.state == QuestionnaireState(EmptyResultMessage, None)
    ensures ParseJobDescription(entry).Valid? && generator.Threw? ==>
              r.state == QuestionnaireState(ServerErrorMessage, None)
  {
    match ParseJobDescription(entry)
    case Invalid(errors) =>
      QuestionnaireReply(QuestionnaireState(ErrorPrefix + JoinMessages(errors), None), [])
    case Valid(description) =>
      var state :=
        match generator
        case Generated(text) =>
          if text != [] then QuestionnaireState(Success, Some(text))
          else QuestionnaireState(EmptyResultMessage, None)
        case Threw => QuestionnaireState(ServerErrorMessage, None);
      QuestionnaireReply(state, [description])
  }

  /** Every reply either succeeds with a non-empty questionnaire or carries
      an error message and no questionnaire. */
  lemma ReplyShape(prev: QuestionnaireState, entry: FormEntry, generator: QuestionnaireOutcome)
    ensures var s := HandleGenerateQuestionnaire(prev, entry, generator).state;
            (s.message == Success || StartsWith(s.message, ErrorPrefix)) &&
            (s.questionnaire.Some? <==> s.message == Success) &&
            (s.questionnaire.Some? ==> s.questionnaire.value != [])
  {
    PrefixOfConcat(ErrorPrefix, "Failed to generate questionnaire.");
    PrefixOfConcat(ErrorPrefix, "An unexpected error occurred on the server.");
  }

  /** The reply does not depend on the previous state. */
  lemma PreviousStateIgnored(p1: QuestionnaireState, p2: QuestionnaireState,
                             entry: FormEntry, generator: QuestionnaireOutcome)
    ensures HandleGenerateQuestionnaire(p1, entry, generator) ==
            HandleGenerateQuestionnaire(p2, entry, generator)
  {
  }

  /** What a runtime value passed as `resume` or `role` is: a string, or
      anything else. */
  datatype Value = Str(s: string) | NotString

  datatype InterviewQuestionsInput = InterviewQuestionsInput(resume: Value, role: Value)

  /** How the interview-question generator ends. */
  datatype QuestionsOutcome = Questions(questions: seq<string>) | QuestionsThrew

  /** A call that returns a value or throws an error with a message. */
  datatype Completion<T> = Returned(value: T) | Thrown(message: string)

  const InvalidInputMessage: string := "Invalid input for generating interview questions."
  const FallbackQuestion: string := "There was an error generating questions. Please try again."

  /** `interviewQuestionsSchema.safeParse`: both fields are strings. */
  predicate ValidQuestionsInput(input: InterviewQuestionsInput) {
    input.resume.Str? && input.role.Str?
  }

  /** `handleGenerateInterviewQuestions(input)`. */
  function HandleGenerateInterviewQuestions(input: InterviewQuestionsInput,
                                            generator: QuestionsOutcome): (r: Completion<seq<string>>)
    ensures r.Thrown? <==> !ValidQuestionsInput(input)
    ensures r.Thrown? ==> r.message == InvalidInputMessage
    ensures ValidQuestionsInput(input) && generator.Questions? ==> r == Returned(generator.questions)
    ensures ValidQuestionsInput(input) && generator.QuestionsThrew? ==> r == Returned([FallbackQuestion])
  {
    if !ValidQuestionsInput(input) then Thrown(InvalidInputMessage)
    else
      match generator
      case Questions(qs) => Returned(qs)
      case QuestionsThrew => Returned([FallbackQuestion])
  }

  /** A failed generation cannot be told apart from a generator that really
      returned the one fallback sentence as its only question. */
  lemma FallbackIndistinguishable(input: InterviewQuestionsInput)
    requires ValidQuestionsInput(input)
    ensures HandleGenerateInterviewQuestions(input, QuestionsThrew) ==
            HandleGenerateInterviewQuestions(input, Questions([FallbackQuestion]))
  {
  }
}
