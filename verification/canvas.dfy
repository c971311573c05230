/**
 The pure helpers of the Canvas integration (canvas_integration.py): the
 clamp applied to a grade before it is sent back, and the mapping of a
 generated quiz onto Canvas's quiz-import shape. OAuth signing, HTTP and
 XML are not modelled.
 */
module Canvas {
  import opened Common
  import opened Text
  import opened QuizGen

  // ------------------------------------------------------------- score clamp

  /** `min(1.0, max(0.0, score))`, the score written into the outcome request. */
  function ClampScore(score: real): (r: real)
    ensures 0.0 <= r <= 1.0
    ensures r == score || (score < 0.0 && r == 0.0) || (score > 1.0 && r == 1.0)
  {
    MinReal(1.0, MaxReal(0.0, score))
  }

  /** The clamp changes exactly the scores outside [0, 1]. */
  lemma ClampScoreIdentity(score: real)
    ensures ClampScore(score) == score <==> 0.0 <= score <= 1.0
  {
  }

  /** A better score is never clamped to a worse one. */
  lemma ClampScoreMonotone(a: real, b: real)
    requires a <= b
    ensures ClampScore(a) <= ClampScore(b)
  {
  }

  // ---------------------------------------------------------------- questions

  datatype Answer = Answer(text: Option<string>, weight: int)

  /**
   One question in Canvas's shape. `answers` is `None` for an essay, whose
   dictionary has no answers key.
   */
  datatype CanvasQuestion = CanvasQuestion(
    name: Option<string>,
    text: Option<string>,
    pointsPossible: int,
    correctComments: string,
    incorrectComments: string,
    questionType: string,
    answers: Option<seq<Answer>>)

  const Points: int := 1
  const FullWeight: int := 100
  const NoWeight: int := 0
  const RetryComment: string := "Review this topic and try again."

  /** An answer weighted 100 exactly when the option starts with the correct answer. */
  function OptionAnswer(option: string, correct: string): Answer {
    Answer(Some(option), if StartsWith(option, correct) then FullWeight else NoWeight)
  }

  /**
   The answers of a multiple-choice question, one per option in order;
   `None` when there is an option but no correct answer, where the
   prefix test raises a TypeError.
   */
  function ChoiceAnswers(options: seq<string>, correct: Option<string>): (r: Option<seq<Answer>>)
    ensures r.None? <==> correct.None? && |options| > 0
    ensures r.Some? ==> |r.value| == |options|
    ensures r.Some? ==> forall i :: 0 <= i < |options| ==>
              && r.value[i].text == Some(options[i])
              && (r.value[i].weight == FullWeight <==> StartsWith(options[i], correct.value))
              && (r.value[i].weight == FullWeight || r.value[i].weight == NoWeight)
  {
    if |options| == 0 then Some([])
    else if correct.None? then None
    else Some(seq(|options|, i requires 0 <= i < |options| => OptionAnswer(options[i], correct.value)))
  }

  /** "True" then "False", the first weighted 100 exactly when the answer reads "true" in any case. */
  function TrueFalseAnswers(correct: Option<string>): (r: seq<Answer>)
    ensures |r| == 2 && r[0].text == Some("True") && r[1].text == Some("False")
    ensures r[0].weight == FullWeight <==> Lower(correct.GetOr("")) == "true"
    ensures (r[0].weight == FullWeight && r[1].weight == NoWeight) || (r[0].weight == NoWeight && r[1].weight == FullWeight)
  {
    var isTrue := Lower(correct.GetOr("")) == "true";
    [Answer(Some("True"), if isTrue then FullWeight else NoWeight),
     Answer(Some("False"), if isTrue then NoWeight else FullWeight)]
  }

  /**
   `_format_question`: the common fields, then answers by question type;
   any type other than the four known ones is treated as short answer.
   */
  function FormatQuestion(q: Question): (r: Option<CanvasQuestion>)
    ensures r.None? <==> q.kind == Some(MultipleChoice) && q.correctAnswer.None? && |q.options.GetOr([])| > 0
    ensures r.Some? ==> && r.value.name == q.id && r.value.text == q.text
                        && r.value.pointsPossible == Points
                        && r.value.correctComments == q.explanation.GetOr("")
    ensures r.Some? ==> (r.value.answers.None? <==> q.kind == Some("essay"))
    ensures r.Some? && q.kind != Some(MultipleChoice) && q.kind != Some("true_false") && q.kind != Some("essay") ==>
              r.value.answers == Some([Answer(q.correctAnswer, FullWeight)])
  {
    var base := CanvasQuestion(q.id, q.text, Points, q.explanation.GetOr(""), RetryComment, "", None);
    if q.kind == Some(MultipleChoice) then
      match ChoiceAnswers(q.options.GetOr([]), q.correctAnswer)
      case None => None
      case Some(answers) => Some(base.(questionType := "multiple_choice_question", answers := Some(answers)))
    else if q.kind == Some("true_false") then
      Some(base.(questionType := "true_false_question", answers := Some(TrueFalseAnswers(q.correctAnswer))))
    else if q.kind == Some("essay") then
      Some(base.(questionType := "essay_question"))
    else
      Some(base.(questionType := "short_answer_question", answers := Some([Answer(q.correctAnswer, FullWeight)])))
  }

  /** A true/false question always has exactly one right answer, whatever it stores. */
  lemma TrueFalseHasOneRightAnswer(q: Question)
    requires q.kind == Some("true_false")
    ensures FormatQuestion(q).Some?
    ensures var a := FormatQuestion(q).value.answers.value;
            |a| == 2 && (a[0].weight == FullWeight <==> a[1].weight == NoWeight)
  {
  }

  /**
   A multiple-choice question marks as right exactly the options that
   start with the stored answer.
   */
  lemma ChoiceWeights(q: Question, i: int)
    requires q.kind == Some(MultipleChoice) && q.correctAnswer.Some?
    requires 0 <= i < |q.options.GetOr([])|
    ensures FormatQuestion(q).Some?
    ensures var a := FormatQuestion(q).value.answers.value;
            |a| == |q.options.GetOr([])| &&
            (a[i].weight == FullWeight <==> StartsWith(q.options.value[i], q.correctAnswer.value))
  {
  }

  // -------------------------------------------------------------------- quizzes

  datatype CanvasQuiz = CanvasQuiz(
    title: string,
    description: string,
    quizType: string,
    timeLimit: int,
    shuffleAnswers: bool,
    showCorrectAnswers: bool,
    showCorrectAnswersAt: string,
    scoringPolicy: string,
    allowedAttempts: int,
    questions: seq<CanvasQuestion>)

  const DefaultTitle: string := "AI Generated Quiz"
  const DefaultTimeLimit: int := 30
  /** Canvas reads -1 as unlimited attempts. */
  const UnlimitedAttempts: int := -1

  /** Every question formatted in order; `None` as soon as one of them raises. */
  function FormatAll(qs: seq<Question>): (r: Option<seq<CanvasQuestion>>)
    ensures r.None? <==> exists i :: 0 <= i < |qs| && FormatQuestion(qs[i]).None?
    ensures r.Some? ==> |r.value| == |qs| && forall i :: 0 <= i < |qs| ==> FormatQuestion(qs[i]) == Some(r.value[i])
  {
    if |qs| == 0 then Some([])
    else
      match FormatQuestion(qs[0])
      case None => None
      case Some(first) =>
        match FormatAll(qs[1..])
        case None =>
          var i :| 0 <= i < |qs[1..]| && FormatQuestion(qs[1..][i]).None?;
          assert FormatQuestion(qs[i + 1]).None?;
          None
        case Some(rest) =>
          assert forall i :: 1 <= i < |qs| ==> qs[i] == qs[1..][i - 1];
          Some([first] + rest)
  }

  /**
   `format_quiz`: the quiz's title (default "AI Generated Quiz"), its
   description (default empty), the estimated time as time limit (default
   30 minutes), fixed settings, and the questions formatted one for one.
   */
  function FormatQuiz(quiz: Quiz): (r: Option<CanvasQuiz>)
    ensures r.None? <==> FormatAll(quiz.questions.GetOr([])).None?
    ensures r.Some? ==> && r.value.title == quiz.title.GetOr(DefaultTitle)
                        && r.value.description == quiz.description.GetOr("")
                        && r.value.allowedAttempts == UnlimitedAttempts
    ensures r.Some? && quiz.metadata.None? ==> r.value.timeLimit == DefaultTimeLimit
    ensures r.Some? && quiz.metadata.Some? ==> r.value.timeLimit == quiz.metadata.value.estimatedTime.GetOr(DefaultTimeLimit)
    ensures r.Some? ==> |r.value.questions| == |quiz.questions.GetOr([])|
    ensures r.Some? ==> forall i :: 0 <= i < |r.value.questions| ==>
              FormatQuestion(quiz.questions.GetOr([])[i]) == Some(r.value.questions[i])
  {
    var timeLimit := match quiz.metadata
      case None => DefaultTimeLimit
      case Some(m) => m.estimatedTime.GetOr(DefaultTimeLimit);
    match FormatAll(quiz.questions.GetOr([]))
    case None => None
    case Some(questions) =>
      Some(CanvasQuiz(quiz.title.GetOr(DefaultTitle), quiz.description.GetOr(""), "assignment", timeLimit,
                      true, true, "after_submission", "keep_highest", UnlimitedAttempts, questions))
  }

  // ----------------------------------------------------------- fallback quiz

  /**
   The fallback question as generated has options "Option A" to "Option D"
   and stored answer "A": none of the options starts with "A", so Canvas
   receives a multiple-choice question with no right answer.
   */
  lemma FallbackAsWrittenUnmarked(i: nat)
    ensures FormatQuestion(FallbackQuestionAsWritten(i)).Some?
    ensures var a := FormatQuestion(FallbackQuestionAsWritten(i)).value.answers.value;
            |a| == 4 && forall j :: 0 <= j < |a| ==> a[j].weight == NoWeight
  {
    var q := FallbackQuestionAsWritten(i);
    var a := FormatQuestion(q).value.answers.value;
    forall j | 0 <= j < |a|
      ensures a[j].weight == NoWeight
    {
      assert q.options.value[j][0] == 'O';
    }
  }

  /** With labelled options the fallback question has exactly one right answer, the first. */
  lemma FallbackMarked(i: nat)
    ensures FormatQuestion(FallbackQuestion(i)).Some?
    ensures var a := FormatQuestion(FallbackQuestion(i)).value.answers.value;
            |a| == 4 && a[0].weight == FullWeight && forall j :: 1 <= j < |a| ==> a[j].weight == NoWeight
  {
    var q := FallbackQuestion(i);
    var a := FormatQuestion(q).value.answers.value;
    assert StartsWith(q.options.value[0], FallbackAnswer);
    forall j | 1 <= j < |a|
      ensures a[j].weight == NoWeight
    {
      assert q.options.value[j][0] != 'A';
    }
  }

  /**
   The fallback quiz the generator returns converts, one Canvas question
   per fallback question, but no option of any of them is marked right.
   */
  lemma FallbackQuizConverts(numQuestions: Option<int>)
    ensures var quiz := FallbackQuiz(numQuestions);
            && FormatQuiz(quiz).Some?
            && |FormatQuiz(quiz).value.questions| == Max(0, numQuestions.GetOr(FallbackCount))
            && FormatQuiz(quiz).value.timeLimit == DefaultTimeLimit
            && forall i :: 0 <= i < |FormatQuiz(quiz).value.questions| ==>
                 var a := FormatQuiz(quiz).value.questions[i].answers.value;
                 |a| == 4 && forall j :: 0 <= j < |a| ==> a[j].weight == NoWeight
  {
    var quiz := FallbackQuiz(numQuestions);
    var qs := quiz.questions.value;
    forall i | 0 <= i < |qs|
      ensures FormatQuestion(qs[i]).Some?
      ensures var a := FormatQuestion(qs[i]).value.answers.value;
              |a| == 4 && forall j :: 0 <= j < |a| ==> a[j].weight == NoWeight
    {
      FallbackAsWrittenUnmarked(i + 1);
    }
  }

  /** The corrected fallback quiz converts with exactly the first option of every question marked right. */
  lemma CorrectedFallbackQuizConverts(numQuestions: Option<int>)
    ensures var quiz := FallbackQuizCorrected(numQuestions);
            && FormatQuiz(quiz).Some?
            && |FormatQuiz(quiz).value.questions| == Max(0, numQuestions.GetOr(FallbackCount))
            && FormatQuiz(quiz).value.timeLimit == DefaultTimeLimit
            && forall i :: 0 <= i < |FormatQuiz(quiz).value.questions| ==>
                 var a := FormatQuiz(quiz).value.questions[i].answers.value;
                 |a| == 4 && a[0].weight == FullWeight && forall j :: 1 <= j < |a| ==> a[j].weight == NoWeight
  {
    var quiz := FallbackQuizCorrected(numQuestions);
    var qs := quiz.questions.value;
    forall i | 0 <= i < |qs|
      ensures FormatQuestion(qs[i]).Some?
      ensures var a := FormatQuestion(qs[i]).value.answers.value;
              |a| == 4 && a[0].weight == FullWeight && forall j :: 1 <= j < |a| ==> a[j].weight == NoWeight
    {
      FallbackMarked(i + 1);
    }
  }
}
