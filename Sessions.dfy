/**
 * The interview endpoints (app.py, `start_interview`, `submit_answers` and
 * `next_round`) over the service's two in-memory stores: the questions
 * asked of each user (`QUESTIONS_DB`) and the evaluations of each user's
 * last answers (`RESPONSES_DB`), both keyed by user id and updated in place.
 *
 * The language model is a parameter: `questionModel(jobRole, resumeText)`
 * is the completion the question prompt receives, `evalModel(question,
 * answer)` the completion the evaluation prompt receives. Fresh
 * identifiers are parameters too.
 */
module Sessions {
  import opened Wrappers
  import opened Text
  import Questions
  import Evaluation
  import Report
  import Resume

  type Question = Questions.Question
  type EvaluationResult = Evaluation.EvaluationResult

  /** One submitted answer (app.py, `AnswerInput`). */
  datatype AnswerInput = AnswerInput(questionId: string, question: string, answer: string)

  /** An uploaded résumé: its file name, and the page or paragraph texts the
      extraction library finds in it. */
  datatype Upload = Upload(filename: string, parts: seq<string>)

  /** The completion the evaluation prompt receives for a question and an
      answer. */
  type EvalModel = (string, string) -> string

  /** The completion the question prompt receives for a job role and a
      résumé text. */
  type QuestionModel = (string, string) -> string

  /** `resume_text`: the résumé's text if one was uploaded, else nothing. */
  function ResumeTextOf(resume: Option<Upload>): string {
    match resume
    case None => ""
    case Some(u) => Resume.ResumeText(u.filename, u.parts)
  }

  /** `evaluate_answer` on one submitted answer. */
  function EvaluateOne(a: AnswerInput, evalModel: EvalModel): Result<EvaluationResult, Evaluation.EvalError> {
    Evaluation.Evaluate(a.questionId, CompletionLines(evalModel(a.question, a.answer)))
  }

  /** The outcome of `evaluate_answer` for each answer, in order. */
  function Outcomes(answers: seq<AnswerInput>, evalModel: EvalModel): (rs: seq<Result<EvaluationResult, Evaluation.EvalError>>)
    ensures |rs| == |answers|
  {
    seq(|answers|, k requires 0 <= k < |answers| => EvaluateOne(answers[k], evalModel))
  }

  /** The list comprehension of `submit_answers` over the answers'
      outcomes: every evaluation, in order, or the error of the first
      answer whose evaluation raises. */
  function Collect(rs: seq<Result<EvaluationResult, Evaluation.EvalError>>): Result<seq<EvaluationResult>, Evaluation.EvalError> {
    if |rs| == 0 then Success([])
    else
      match Collect(rs[..|rs| - 1])
      case Failure(e) => Failure(e)
      case Success(es) =>
        match rs[|rs| - 1]
        case Failure(e) => Failure(e)
        case Success(v) => Success(es + [v])
  }

  /** The comprehension succeeds exactly when every answer's evaluation
      does, and then yields one evaluation per answer, in order; when it
      fails, it reports the error of the first answer that failed. */
  lemma {:induction false} CollectIff(rs: seq<Result<EvaluationResult, Evaluation.EvalError>>)
    ensures Collect(rs).Success? <==> forall k :: 0 <= k < |rs| ==> rs[k].Success?
    ensures Collect(rs).Success? ==>
      |Collect(rs).value| == |rs| && forall k :: 0 <= k < |rs| ==> rs[k] == Success(Collect(rs).value[k])
    ensures Collect(rs).Failure? ==>
      exists j :: 0 <= j < |rs| && rs[j] == Failure(Collect(rs).error) && (forall k :: 0 <= k < j ==> rs[k].Success?)
  {
    if |rs| > 0 {
      var front := rs[..|rs| - 1];
      CollectIff(front);
      forall k | 0 <= k < |front| ensures front[k] == rs[k] {}
      if Collect(front).Failure? {
        var j :| 0 <= j < |front| && front[j] == Failure(Collect(front).error) && (forall k :: 0 <= k < j ==> front[k].Success?);
        assert rs[j] == front[j];
      }
    }
  }

  /** Once an answer's evaluation raises, later answers change nothing. */
  lemma {:induction false} FailureStays(rs: seq<Result<EvaluationResult, Evaluation.EvalError>>, i: nat)
    requires i <= |rs| && Collect(rs[..i]).Failure?
    ensures Collect(rs) == Collect(rs[..i])
    decreases |rs| - i
  {
    if i < |rs| {
      var longer := rs[..i + 1];
      assert longer[..i] == rs[..i];
      FailureStays(rs, i + 1);
    } else {
      assert rs[..i] == rs;
    }
  }

  /** One more outcome: its evaluation is appended, or its error ends the
      comprehension. */
  lemma CollectNext(rs: seq<Result<EvaluationResult, Evaluation.EvalError>>, i: nat)
    requires i < |rs| && Collect(rs[..i]).Success?
    ensures rs[i].Success? ==> Collect(rs[..i + 1]) == Success(Collect(rs[..i]).value + [rs[i].value])
    ensures rs[i].Failure? ==> Collect(rs[..i + 1]) == Failure(rs[i].error)
  {
    assert rs[..i + 1][..i] == rs[..i];
  }

  /** Every answer's evaluation, or the first error, as `submit_answers`
      computes them. */
  function EvaluateAll(answers: seq<AnswerInput>, evalModel: EvalModel): Result<seq<EvaluationResult>, Evaluation.EvalError> {
    Collect(Outcomes(answers, evalModel))
  }

  /** Why `submit_answers` raises: an answer's evaluation does, or there
      were no answers and the report divides by zero. */
  datatype SubmitError = Unreadable(error: Evaluation.EvalError) | NoAnswers

  /** The three payloads of `next_round`. */
  datatype Round = NoSession | FullRating | NextQuestions(questions: seq<Question>)

  /** The text of the error payload. */
  const NoSessionText: string := "No previous session found."

  /** The text of the full-rating message. */
  const FullRatingText: string := "You’ve achieved full rating! No more questions needed."

  /** The score the average must reach for the interview to end. */
  const FullRatingScore: real := 9.0

  /** The payload's text, for the two payloads that carry one. */
  function Payload(r: Round): string {
    match r
    case NoSession => NoSessionText
    case FullRating => FullRatingText
    case NextQuestions(_) => ""
  }

  /** `next_round`'s decision on the evaluations stored for the user: an
      error when there are none, the full-rating message when their average
      reaches 9.0, and otherwise a new round, with the questions generated
      for the generic role and no résumé. */
  function Decide(last: seq<EvaluationResult>, questionModel: QuestionModel, ids: nat -> string): Round {
    if |last| == 0 then NoSession
    else if Report.Average(last) >= FullRatingScore then FullRating
    else NextQuestions(Questions.GenerateQuestions(questionModel("generic", ""), ids))
  }

  /** The evaluations stored for a user, `RESPONSES_DB.get(user_id, [])`. */
  function Stored(responses: map<string, seq<EvaluationResult>>, userId: string): seq<EvaluationResult> {
    if userId in responses then responses[userId] else []
  }

  /** A user without stored evaluations, or with an empty list of them,
      gets the error payload. */
  lemma NoEvaluationsNoRound(responses: map<string, seq<EvaluationResult>>, userId: string,
                             questionModel: QuestionModel, ids: nat -> string)
    requires userId !in responses || responses[userId] == []
    ensures Decide(Stored(responses, userId), questionModel, ids) == NoSession
    ensures Payload(Decide(Stored(responses, userId), questionModel, ids)) == "No previous session found."
  {
  }

  /** Answers that all score 9 or more on every dimension end the
      interview. */
  lemma TopScoresEndInterview(last: seq<EvaluationResult>, questionModel: QuestionModel, ids: nat -> string)
    requires |last| > 0
    requires forall k, d: Report.Dimension :: 0 <= k < |last| ==> Report.ScoreOn(last[k], d) >= 9.0
    ensures Decide(last, questionModel, ids) == FullRating
    ensures Payload(Decide(last, questionModel, ids)) == "You’ve achieved full rating! No more questions needed."
  {
    Report.AverageAtLeast(last, 9.0);
  }

  /** Answers whose mean scores are all below 9 get a new round. */
  lemma LowScoresContinue(last: seq<EvaluationResult>, questionModel: QuestionModel, ids: nat -> string)
    requires |last| > 0
    requires forall k :: 0 <= k < |last| ==> Report.Mean(last[k]) < 9.0
    ensures Decide(last, questionModel, ids).NextQuestions?
  {
    var top := MaxMean(last);
    Report.AverageCeiling(last, top);
  }

  /** A new round need not hold any question: a blank completion for the
      generic role gives an empty round, which is stored all the same. */
  lemma EmptyRoundPossible(last: seq<EvaluationResult>, questionModel: QuestionModel, ids: nat -> string)
    requires |last| > 0 && Report.Average(last) < FullRatingScore
    requires AllSpace(questionModel("generic", ""))
    ensures Decide(last, questionModel, ids) == NextQuestions([])
  {
    Questions.BlankCompletion(questionModel("generic", ""), ids);
  }

  /** The highest of the answers' means. */
  function MaxMean(last: seq<EvaluationResult>): (m: real)
    requires |last| > 0
    ensures forall k :: 0 <= k < |last| ==> Report.Mean(last[k]) <= m
    ensures exists k :: 0 <= k < |last| && Report.Mean(last[k]) == m
  {
    if |last| == 1 then Report.Mean(last[0])
    else
      var rest := MaxMean(last[1..]);
      assert forall k :: 1 <= k < |last| ==> last[k] == last[1..][k - 1];
      if Report.Mean(last[0]) >= rest then Report.Mean(last[0]) else rest
  }

  /** The list comprehension of `submit_answers`: `evaluate_answer` on each
      answer in turn, stopping at the first that raises. */
  method EvaluateAnswers(answers: seq<AnswerInput>, evalModel: EvalModel)
    returns (r: Result<seq<EvaluationResult>, Evaluation.EvalError>)
    ensures r == EvaluateAll(answers, evalModel)
  {
    var evaluations: seq<EvaluationResult> := [];
    ghost var rs := Outcomes(answers, evalModel);
    var i := 0;
    while i < |answers|
      invariant 0 <= i <= |answers|
      invariant Collect(rs[..i]) == Success(evaluations)
    {
      var a := answers[i];
      var e := Evaluation.EvaluateAnswer(a.questionId, evalModel(a.question, a.answer));
      assert e == rs[i];
      CollectNext(rs, i);
      if e.Failure? {
        FailureStays(rs, i + 1);
        return Failure(e.error);
      }
      evaluations := evaluations + [e.value];
      i := i + 1;
    }
    assert rs[..i] == rs;
    r := Success(evaluations);
  }

  /** The two in-memory stores of the service. */
  class SessionStore {
    /** `QUESTIONS_DB`: the questions last generated for each user. */
    var questions: map<string, seq<Question>>
    /** `RESPONSES_DB`: the evaluations of each user's last answers. */
    var responses: map<string, seq<EvaluationResult>>

    /** Both stores start empty. */
    constructor ()
      ensures questions == map[] && responses == map[]
    {
      questions := map[];
      responses := map[];
    }

    /** `start_interview` for the fresh user id `userId`: generates the
        questions for the role and the résumé, stores them under the user,
        and returns them. */
    method StartInterview(userId: string, jobRole: string, resume: Option<Upload>,
                          questionModel: QuestionModel, ids: nat -> string)
      returns (qs: seq<Question>)
      modifies this
      ensures qs == Questions.GenerateQuestions(questionModel(jobRole, ResumeTextOf(resume)), ids)
      ensures questions == old(questions)[userId := qs]
      ensures responses == old(responses)
    {
      var resumeText := ResumeTextOf(resume);
      qs := Questions.GenerateQuestions(questionModel(jobRole, resumeText), ids);
      questions := questions[userId := qs];
    }

    /** `submit_answers`: evaluates every answer in order, stores the
        evaluations under the user, replacing what was there, and reports
        on them. An evaluation that raises stops it before anything is
        stored; with no answers the list is stored and the report raises. */
    method SubmitAnswers(userId: string, answers: seq<AnswerInput>, evalModel: EvalModel)
      returns (r: Result<Report.EvaluationReport, SubmitError>)
      modifies this
      ensures questions == old(questions)
      ensures EvaluateAll(answers, evalModel).Failure? ==>
        r == Failure(Unreadable(EvaluateAll(answers, evalModel).error)) && responses == old(responses)
      ensures EvaluateAll(answers, evalModel).Success? ==>
        var es := EvaluateAll(answers, evalModel).value;
        responses == old(responses)[userId := es]
        && r == (if |es| == 0 then Failure(NoAnswers) else Success(Report.SummaryReport(userId, es).value))
    {
      var evaluations := EvaluateAnswers(answers, evalModel);
      if evaluations.Failure? {
        return Failure(Unreadable(evaluations.error));
      }
      responses := responses[userId := evaluations.value];
      var report := Report.SummaryReport(userId, evaluations.value);
      if report.Failure? {
        return Failure(NoAnswers);
      }
      r := Success(report.value);
    }

    /** `next_round`: decides on the evaluations stored for the user; only
        a new round changes a store, replacing the user's questions. */
    method NextRound(userId: string, questionModel: QuestionModel, ids: nat -> string)
      returns (r: Round)
      modifies this
      ensures r == Decide(Stored(old(responses), userId), questionModel, ids)
      ensures responses == old(responses)
      ensures r.NextQuestions? ==> questions == old(questions)[userId := r.questions]
      ensures !r.NextQuestions? ==> questions == old(questions)
    {
      var last := if userId in responses then responses[userId] else [];
      if |last| == 0 {
        return NoSession;
      }
      var average := Report.Average(last);
      if average >= FullRatingScore {
        return FullRating;
      }
      var qs := Questions.GenerateQuestions(questionModel("generic", ""), ids);
      questions := questions[userId := qs];
      r := NextQuestions(qs);
    }
  }
}
