# AI Interview Coach — a verified model of its service logic

The AI Interview Coach is a small web service that runs a practice interview.
- `start_interview` asks a language model for questions about a job role and an optional résumé.
- `submit_answers` asks the model to score each answer and then summarises the scores in a report.
- `next_round` either ends the interview or asks for a new round of questions.

This project models the deterministic logic around those model calls, all of it from `app.py`, and proves what that logic does with whatever text the model returns.

The modules follow the parts of `app.py`:

- `Wrappers`: `Option` and `Result`.
- `Text`: the Python string operations the service relies on.
  - `strip()`, over Python's full whitespace set.
  - `split` on one character.
  - `join` and the substring test `in`.
  - "text after the first / last colon".
  - ASCII `lower()`.
- `Numbers`: a decimal grammar that stands for `float()` on a stripped score text.
- `Questions`: `generate_questions`. The completion is stripped and split into lines, and blank lines are dropped. Every other line becomes a question:
  - its text is the stripped line;
  - its category rotates over Technical, Behavioral, HR and Situational;
  - the rotation is indexed by the line's position *before* blank lines are dropped.
- `Evaluation`: `evaluate_answer`.
  - The imperative scan is modelled as a method with a loop over five accumulators.
  - That method is proved equal to a field-by-field specification: each field holds the value of the last line whose *first* marker names it, or its initial value if no line does.
  - Marker precedence is the `if`/`elif` order Confidence, Clarity, Relevance, Feedback, Expected.
  - The first score text that `float()` rejects makes the whole evaluation fail.
- `Report`: `generate_summary_report`.
  - The average of the per-answer means.
  - The strengths and weaknesses, taken in the fixed order Confidence, Clarity, Relevance.
  - The improvement plan.
- `Resume`: the extension logic of `parse_resume`. The extension is the lower-cased last `.`-piece of the name. The texts that the PDF and Word libraries would extract are a parameter.
- `Sessions`: the three endpoints, modelled as a class `SessionStore`.
  - Its two map fields are `QUESTIONS_DB` and `RESPONSES_DB`, updated in place.
  - The language model enters as two function parameters:
    - `questionModel(jobRole, resumeText)`;
    - `evalModel(question, answer)`.
  - Fresh identifiers are parameters too:
    - the user id;
    - `ids(k)` for the k-th generated question.

Two behaviours of the code a caller may not expect:
- When the average is below 9.0, `next_round` stores and returns whatever `generate_questions` yields, which may be no question at all (app.py:174-177, `Sessions.EmptyRoundPossible`).
- `submit_answers` with an empty list of answers first stores the empty list under the user and only then fails, dividing by zero in the report (app.py:162-163, `Sessions.SessionStore.SubmitAnswers`).

## Model

| member | source | states |
|---|---|---|
| Text.Strip | app.py:101 | what `strip()` returns is empty or has no whitespace at either end |
| Text.StripPadded | app.py:101 | `strip()` returns a slice of its input with only whitespace cut from the two ends |
| Text.StripEmpty | app.py:108 | a line strips to the empty string exactly when it is all whitespace |
| Text.StripIdempotent | app.py:106 | stripping a stripped text changes nothing |
| Text.Split | app.py:101 | `split` gives at least one piece and no piece holds the separator |
| Text.JoinSplit | app.py:101 | joining the pieces of a split with the separator gives back the text |
| Text.SplitJoin | app.py:92 | splitting a join of separator-free pieces gives back the pieces |
| Text.CompletionLines | app.py:113 | a stripped and split completion has at least one line and no line holds a line break |
| Text.IndexOf | app.py:124 | the position found holds the character and none comes before it; none is found exactly when it is absent |
| Text.AfterFirst | app.py:124 | `split(":", 1)[-1]` is the whole line without a colon, and otherwise what follows the first colon |
| Text.AfterLast | app.py:118 | `split(":")[-1]` is a colon-free suffix of the line, directly after a colon when the line has one, and the whole line otherwise |
| Text.AfterLastIsLastPiece | app.py:89 | the text after the last separator is the last piece of the split |
| Text.AfterLastOfTail | app.py:118 | whatever precedes the last colon, the text after it is what remains |
| Text.AfterFirstOfTail | app.py:124 | after a colon-free prefix and a colon, the rest is the text after the first colon |
| Text.Contains | app.py:117-125 | Python's `m in s`: `m` starts at some position of `s`; its properties are stated by `NotContainedWithoutHead` and `ContainsSkipsPrefix` |
| Text.Join | app.py:92 | `sep.join(parts)`; `JoinSplit`, `SplitJoin` and `JoinEnds` state what it gives |
| Text.ContainsSkipsPrefix | app.py:117-125 | a prefix without the marker's first letter cannot start a marker occurrence |
| Numbers.ParseDecimal | app.py:118 | a score text that `float()` accepts is non-empty and made of digits, a point and a sign |
| Numbers.NatRoundTrip | app.py:118 | the numeral of a whole number parses back to that number, with either sign |
| Numbers.FractionRoundTrip | app.py:118 | a numeral with a fractional part parses to its value |
| Numbers.NotANumber | app.py:118 | the empty text and a text with a foreign character are refused |
| Evaluation.Classify | app.py:117-126 | the field a line sets is the earliest marker in the `elif` chain that the line contains; there is none exactly when it holds no marker |
| Evaluation.EffectOf | app.py:117-126 | a line sets a score to the parsed text after its last colon, sets a text field to the stripped text after its first colon, raises on an unparsable score, or does nothing |
| Evaluation.FirstReject | app.py:118-122 | the reported failure is the first unparsable score line, and every earlier line parses |
| Evaluation.LastSet | app.py:116-126 | the line whose value survives for a field sets that field, and no later line does |
| Evaluation.ReadLine | app.py:117-126 | one pass of the loop body is the step its line's effect prescribes |
| Evaluation.ReadScore | app.py:118-122 | a score line stores the parsed number or raises with the refused text |
| Evaluation.ReadNote | app.py:123-126 | a text line stores the stripped text after its first colon |
| Evaluation.Evaluate | app.py:111-134 | the evaluation as field-by-field specification: each field is its last setting line's value, the first unparsable score fails; see `FailsIff`, `LaterLinesOverride`, `UnsetFieldsKeepDefaults`, `OneLineOneField` |
| Evaluation.EvaluateAnswer | app.py:111-134 | the scan over the completion's lines returns exactly the field-by-field specification `Evaluate` |
| Evaluation.ScanIsFinal | app.py:114-126 | with no unparsable score, line-by-line updating ends with each field at its last setting line's value |
| Evaluation.FailsIff | app.py:118-122 | the evaluation fails exactly when some score line does not parse |
| Evaluation.LaterLinesOverride | app.py:116-126 | once later lines set a field, earlier lines do not affect its value (last match wins) |
| Evaluation.UnsetFieldsKeepDefaults | app.py:114-115 | a field that no line sets keeps 0.0 or "", and the question id is passed through |
| Evaluation.OneLineOneField | app.py:116-126 | one more line changes only the field its first marker names, to that line's value |
| Evaluation.LabelledClassify | app.py:117-126 | a "Label: value" line with a marker-free value is classified under its own label |
| Evaluation.ScoreLineEffect | app.py:118-122 | a score line "Label: n" or "Label: n.digits" sets the score to the number written |
| Evaluation.NumeralRoundTrip | app.py:118 | a score written as whole digits, with or without a point and fraction digits, parses to its value |
| Evaluation.HalfPointScore | app.py:117-118 | "Confidence: 8.5" sets the confidence to 8.5 |
| Evaluation.NoteLineEffect | app.py:123-126 | "Feedback: text" and the like set the text field to that text |
| Evaluation.ExpectedLineStripped | app.py:113 | stripping the reply leaves its last line alone, or cuts it to the bare label "Expected:" when the expected answer is empty |
| Evaluation.ExpectedLineEffect | app.py:125-126 | the expected-answer line as read back sets the expected answer to the text written, the empty text included |
| Evaluation.ReplySplits | app.py:113 | the reply's stripped, split lines are its five lines, the last one stripped |
| Evaluation.ReplyRoundTrip | app.py:111-134 | a reply written in the prompt's five-line shape reads back as exactly the scores and texts written, fractional scores and an empty expected answer included |
| Questions.KeptPositions | app.py:108 | the positions the `if q.strip()` filter keeps are positions of the split lines; `KeptPositionsAre` states which |
| Questions.KeptPositionsAre | app.py:108 | the kept positions are exactly the non-blank lines, in increasing order |
| Questions.BuildFollowsKept | app.py:103-109 | the comprehension yields one question per kept line, in order, each with the stripped line and the category of its unfiltered position |
| Questions.Build | app.py:103-109 | the list comprehension over `enumerate(questions)`; `BuildFollowsKept` states what it yields |
| Questions.CategoryAtNamed | app.py:102-107 | the category of position i is reported as `categories[i % 4]`, and no other category has that name |
| Questions.GenerateQuestions | app.py:99-109 | the k-th question has the k-th fresh id, the k-th kept line stripped as text, and category `categories[i % 4]` for that line's unfiltered index i |
| Questions.QuestionTextsAreLines | app.py:106-108 | every question text is non-empty, one line, and unpadded |
| Questions.BlankCompletion | app.py:101-108 | an all-whitespace completion yields no question |
| Questions.ConsecutiveQuestions | app.py:101-108 | questions given on consecutive lines come back in order with categories Technical, Behavioral, HR, Situational, … |
| Questions.BlankLineSkipsCategory | app.py:102-108 | two questions separated by a blank line come back as Technical and HR: the blank line uses up Behavioral |
| Report.Average | app.py:137 | the sum of the per-answer means divided by their number; bounded by `AverageFloor` and `AverageCeiling` |
| Report.AverageFloor | app.py:137 | the average is at least any floor on the per-answer means |
| Report.AverageCeiling | app.py:137 | the average is at most any ceiling on the per-answer means |
| Report.AverageAtLeast | app.py:137 | answers scoring at least t on every dimension average at least t |
| Report.AnyScoreIff | app.py:138-139 | `any(...)` holds exactly when some answer's score passes the test |
| Report.FilterKeeps | app.py:138-139 | the comprehension keeps exactly the passing dimensions, in their order |
| Report.Strengths | app.py:138 | the dimensions some answer scores above 8.5; see `StrengthsAre` |
| Report.Weaknesses | app.py:139 | the dimensions some answer scores below 6.5; see `WeaknessesAre` |
| Report.StrengthsAre | app.py:138 | a dimension is a strength iff some answer scores it above 8.5; strengths are a sub-list of Confidence, Clarity, Relevance |
| Report.WeaknessesAre | app.py:139 | a dimension is a weakness iff some answer scores it below 6.5; weaknesses are a sub-list of Confidence, Clarity, Relevance |
| Report.StrongAndWeak | app.py:138-139 | one dimension can be both a strength and a weakness |
| Report.SummaryReport | app.py:136-148 | the report fails exactly on no evaluations, and otherwise carries the user, the evaluations, the average, the strengths, the weaknesses and the plan made from those weaknesses |
| Report.ImprovementPlan | app.py:140 | "Work on " and the weaknesses' names joined by ", ", or the praise; see `PlanPieces`, `PlanRoundTrip`, `PlanDeterminesWeaknesses` |
| Report.PlanPieces | app.py:140 | a plan with weaknesses is not the praise, starts with "Work on " and splits at commas into the names |
| Report.PlanRoundTrip | app.py:140 | the plan names exactly the weaknesses in order: reading it back gives the weaknesses, none for praise |
| Report.PlanDeterminesWeaknesses | app.py:140 | two weakness lists with the same plan are the same list |
| Resume.Extension | app.py:89 | the lower-cased last `.`-piece of the name; see `ExtensionAfterLastDot`, `OnlyLastPieceCounts`, `NoDotWholeName` |
| Resume.FormatOf | app.py:89-96 | "pdf" and "docx" select extraction, any other extension none; see `ExtensionCaseBlind`, `DispatchEdges` |
| Resume.ResumeText | app.py:88-96 | an unsupported extension yields ""; a PDF or Word file yields its parts joined so that its lines are the parts' lines in order |
| Resume.JoinedLines | app.py:92 | splitting the newline-joined parts gives the lines of each part in turn |
| Resume.ExtensionAfterLastDot | app.py:89 | the extension is the lower-cased text after the last dot |
| Resume.OnlyLastPieceCounts | app.py:89 | whatever precedes the last dot, only what follows it counts |
| Resume.NoDotWholeName | app.py:89 | a name without a dot is its own extension |
| Resume.ExtensionCaseBlind | app.py:89-95 | "….PDF" is read as a PDF and "….Docx" as a Word file |
| Resume.DispatchEdges | app.py:89-96 | a file called "pdf" is a PDF; a "….pdf.txt" file is not read |
| Sessions.Collect | app.py:161 | the comprehension over the answers' outcomes, stopping at the first raise; see `CollectIff` |
| Sessions.EvaluateAll | app.py:161 | `evaluate_answer` on every answer, collected; see `CollectIff` and `EvaluateAnswers` |
| Sessions.CollectIff | app.py:161 | the list of evaluations succeeds iff every answer's does, has one evaluation per answer in order, and otherwise reports the first failing answer's error |
| Sessions.FailureStays | app.py:161 | once an evaluation raises, later answers change nothing |
| Sessions.EvaluateAnswers | app.py:161 | the loop over the answers returns the comprehension's outcome `EvaluateAll` |
| Sessions.SessionStore.constructor | app.py:84-85 | both stores start empty |
| Sessions.SessionStore.StartInterview | app.py:151-157 | the generated questions are returned and stored under the new user, and nothing else changes |
| Sessions.SessionStore.SubmitAnswers | app.py:159-164 | an evaluation that raises stores nothing; otherwise only the user's evaluations are replaced, and the report is returned or fails for no answers |
| Sessions.SessionStore.NextRound | app.py:166-177 | the payload is the decision on the stored evaluations; the evaluations never change, and only a new round replaces the user's questions |
| Sessions.Decide | app.py:168-177 | the three-way decision of `next_round`; see `NoEvaluationsNoRound`, `TopScoresEndInterview`, `LowScoresContinue`, `EmptyRoundPossible` |
| Sessions.NoEvaluationsNoRound | app.py:168-170 | an unknown user, or one with no stored evaluations, gets the error payload "No previous session found." |
| Sessions.TopScoresEndInterview | app.py:171-173 | answers scoring 9 or more on every dimension end the interview with the full-rating message |
| Sessions.LowScoresContinue | app.py:171-177 | answers whose means are all below 9 get a new round |
| Sessions.EmptyRoundPossible | app.py:174-177 | a new round may hold no question when the model's completion is blank |

## Left out

- The language-model calls (`question_chain.run`, `eval_chain.run`) and prompt rendering: their completions are the parameters `questionModel` and `evalModel`.
- `uuid.uuid4()`: the user id and the question ids (`ids`) are parameters.
- PDF and DOCX text extraction (`fitz`, `python-docx`): the extracted page or paragraph texts are a parameter of `Resume.ResumeText`.
- FastAPI routing, CORS, form and file handling, and pydantic validation: these are web plumbing. The JSON payloads are the datatypes `Round` and `EvaluationReport`.
- Concurrent requests on the two global dictionaries: the store is a single-threaded object.
- IEEE floating point: scores, means and the average are reals, so rounding in the averages is not modelled.
- Numbers.ParseDecimal: accepts only a sign, digits and at most one point. It is weaker than Python's `float()`, which also takes exponents, "inf"/"nan", underscores between digits and non-ASCII digits. Such score texts are refused here where Python accepts them.
- Text.Lower: lower-cases ASCII letters only. No non-ASCII character lower-cases to a letter of "pdf" or "docx", so the dispatch on the extension is unaffected.
- Exceptions other than the ones the model names are not modelled. A failing `float()` is `Evaluation.InvalidNumber`. The division by zero over no evaluations is `Report.NoEvaluations` and `Sessions.NoAnswers`.
