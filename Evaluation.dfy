/**
 * The answer evaluator: reading the five labelled fields out of the text the
 * language model returned for one answer (app.py, `evaluate_answer`).
 *
 * Each line of the stripped completion is tested, case-sensitively, for the
 * markers "Confidence", "Clarity", "Relevance", "Feedback" and "Expected", in
 * that order; the first marker the line contains decides the one field the
 * line sets. Scores are read from the text after the last colon, feedback and
 * expected answer from the text after the first colon; a later line for the
 * same field overwrites an earlier one, and a score that does not parse
 * aborts the whole evaluation.
 */
module Evaluation {
  import opened Wrappers
  import opened Text
  import Numbers

  /** One scored answer (app.py, `EvaluationResult`). */
  datatype EvaluationResult = EvaluationResult(
    questionId: string,
    confidence: real,
    clarity: real,
    relevance: real,
    feedback: string,
    expectedAnswer: string)

  /** The `ValueError` that `float()` raises, with the text it refused. */
  datatype EvalError = InvalidNumber(text: string)

  /** The five fields a line of the completion can set. */
  datatype Field = Confidence | Clarity | Relevance | Feedback | Expected

  /** The marker looked for in a line, which is also the field's tag. */
  function Marker(f: Field): string {
    match f
    case Confidence => "Confidence"
    case Clarity => "Clarity"
    case Relevance => "Relevance"
    case Feedback => "Feedback"
    case Expected => "Expected"
  }

  /** The position of a field's test in the `if`/`elif` chain. */
  function Rank(f: Field): nat {
    match f
    case Confidence => 0
    case Clarity => 1
    case Relevance => 2
    case Feedback => 3
    case Expected => 4
  }

  /** The three scores, parsed as numbers; the other two are kept as text. */
  predicate IsScore(f: Field) {
    f.Confidence? || f.Clarity? || f.Relevance?
  }

  /** The field a line sets: the earliest marker in the chain that the line
      contains, or none when it contains no marker. */
  function Classify(line: string): (r: Option<Field>)
    ensures r.Some? ==>
      (Contains(line, Marker(r.value)) && forall g: Field :: Rank(g) < Rank(r.value) ==> !Contains(line, Marker(g)))
    ensures r.None? <==> forall g: Field :: !Contains(line, Marker(g))
  {
    if Contains(line, "Confidence") then Some(Confidence)
    else if Contains(line, "Clarity") then Some(Clarity)
    else if Contains(line, "Relevance") then Some(Relevance)
    else if Contains(line, "Feedback") then Some(Feedback)
    else if Contains(line, "Expected") then Some(Expected)
    else None
  }

  /** A score's text: `line.split(":")[-1].strip()`. */
  function ScoreText(line: string): string {
    Strip(AfterLast(line, ':'))
  }

  /** A text field's value: `line.split(":", 1)[-1].strip()`. */
  function NoteText(line: string): string {
    Strip(AfterFirst(line, ':'))
  }

  /** What one line does to the evaluation: nothing, set a score, set a
      text field, or abort with the score text `float()` refused. */
  datatype Effect = Skip | SetScore(field: Field, value: real) | SetNote(field: Field, text: string)
                  | Reject(refused: string)

  /** The one effect of a line: decided by its first marker alone. */
  function EffectOf(line: string): (e: Effect)
    ensures e.Skip? <==> Classify(line).None?
    ensures e.SetScore? ==>
      (Classify(line) == Some(e.field) && IsScore(e.field)
       && Numbers.ParseDecimal(ScoreText(line)) == Some(e.value))
    ensures e.SetNote? ==>
      (Classify(line) == Some(e.field) && !IsScore(e.field) && e.text == NoteText(line))
    ensures e.Reject? ==>
      (Classify(line).Some? && IsScore(Classify(line).value)
       && Numbers.ParseDecimal(ScoreText(line)).None? && e.refused == ScoreText(line))
  {
    match Classify(line)
    case None => Skip
    case Some(f) =>
      if IsScore(f) then
        match Numbers.ParseDecimal(ScoreText(line))
        case None => Reject(ScoreText(line))
        case Some(v) => SetScore(f, v)
      else SetNote(f, NoteText(line))
  }

  /** The effects of the lines, in order. */
  function Effects(lines: seq<string>): (es: seq<Effect>)
    ensures |es| == |lines|
  {
    if |lines| == 0 then []
    else Effects(lines[..|lines| - 1]) + [EffectOf(lines[|lines| - 1])]
  }

  /** The effect of each line is read off that line alone. */
  lemma {:induction false} EffectsAt(lines: seq<string>, k: nat)
    requires k < |lines|
    ensures Effects(lines)[k] == EffectOf(lines[k])
  {
    if k < |lines| - 1 {
      EffectsAt(lines[..|lines| - 1], k);
    }
  }

  /** The lines whose effect aborts are exactly the unparsable ones. */
  lemma EffectsReject(lines: seq<string>)
    ensures forall k :: 0 <= k < |lines| ==> (Effects(lines)[k].Reject? <==> Unparsable(lines[k]))
  {
    forall k | 0 <= k < |lines| ensures Effects(lines)[k].Reject? <==> Unparsable(lines[k]) {
      EffectsAt(lines, k);
    }
  }

  /** The effect sets field `f`. */
  predicate Sets(e: Effect, f: Field) {
    (e.SetScore? || e.SetNote?) && e.field == f
  }

  /** The first aborting line: where the scan raises. */
  function FirstReject(es: seq<Effect>): (r: Option<nat>)
    ensures r.Some? ==>
      (r.value < |es| && es[r.value].Reject? && forall k :: 0 <= k < r.value ==> !es[k].Reject?)
    ensures r.None? ==> forall k :: 0 <= k < |es| ==> !es[k].Reject?
  {
    if |es| == 0 then None
    else match FirstReject(es[..|es| - 1])
      case Some(j) => Some(j)
      case None => if es[|es| - 1].Reject? then Some(|es| - 1) else None
  }

  /** The last line that sets field `f`: the one whose value survives. */
  function LastSet(es: seq<Effect>, f: Field): (r: Option<nat>)
    ensures r.Some? ==>
      (r.value < |es| && Sets(es[r.value], f) && forall k :: r.value < k < |es| ==> !Sets(es[k], f))
    ensures r.None? ==> forall k :: 0 <= k < |es| ==> !Sets(es[k], f)
  {
    if |es| == 0 then None
    else if Sets(es[|es| - 1], f) then Some(|es| - 1)
    else LastSet(es[..|es| - 1], f)
  }

  /** The final value of score `f`: the last setting line's number, 0.0 if
      no line sets it. */
  function ScoreOf(es: seq<Effect>, f: Field): real {
    match LastSet(es, f)
    case None => 0.0
    case Some(j) => if es[j].SetScore? then es[j].value else 0.0
  }

  /** The final value of text field `f`: the last setting line's text, ""
      if no line sets it. */
  function NoteOf(es: seq<Effect>, f: Field): string {
    match LastSet(es, f)
    case None => ""
    case Some(j) => if es[j].SetNote? then es[j].text else ""
  }

  /** The five accumulators of the scan. */
  datatype Accumulators = Accumulators(
    confidence: real, clarity: real, relevance: real, feedback: string, expected: string)

  /** The accumulators after all of `es`, field by field: each holds the
      value of the last line that set it, or its initial value. */
  function Final(es: seq<Effect>): Accumulators {
    Accumulators(
      ScoreOf(es, Confidence),
      ScoreOf(es, Clarity),
      ScoreOf(es, Relevance),
      NoteOf(es, Feedback),
      NoteOf(es, Expected))
  }

  /** One line's update: its effect's field takes the new value and the
      other four keep theirs. */
  function Apply(a: Accumulators, e: Effect): Accumulators {
    match e
    case SetScore(Confidence, v) => a.(confidence := v)
    case SetScore(Clarity, v) => a.(clarity := v)
    case SetScore(Relevance, v) => a.(relevance := v)
    case SetNote(Feedback, s) => a.(feedback := s)
    case SetNote(Expected, s) => a.(expected := s)
    case _ => a
  }

  /** The outcome of a whole scan over the effects `es`. */
  function Combine(questionId: string, es: seq<Effect>): Result<EvaluationResult, EvalError> {
    match FirstReject(es)
    case Some(j) => Failure(InvalidNumber(es[j].refused))
    case None => Success(Result(questionId, Final(es)))
  }

  /** The evaluation the accumulators make up. */
  function Result(questionId: string, a: Accumulators): EvaluationResult {
    EvaluationResult(questionId, a.confidence, a.clarity, a.relevance, a.feedback, a.expected)
  }

  /** What `evaluate_answer` returns for a completion split into `lines`,
      stated field by field rather than as a scan. */
  function Evaluate(questionId: string, lines: seq<string>): Result<EvaluationResult, EvalError> {
    Combine(questionId, Effects(lines))
  }

  /** The evaluation fails exactly when some score line does not parse. */
  lemma FailsIff(questionId: string, lines: seq<string>)
    ensures Evaluate(questionId, lines).Failure? <==> exists k :: 0 <= k < |lines| && Unparsable(lines[k])
  {
    EffectsReject(lines);
  }

  /** A line that sets a score with text that is not a number. */
  predicate Unparsable(line: string) {
    Classify(line).Some? && IsScore(Classify(line).value)
    && Numbers.ParseDecimal(ScoreText(line)).None?
  }

  /** Adding one effect at the end: it becomes the last setter of its own
      field and leaves every other field's last setter where it was. */
  lemma LastSetStep(es: seq<Effect>, e: Effect, f: Field)
    ensures LastSet(es + [e], f) == if Sets(e, f) then Some(|es|) else LastSet(es, f)
  {
    assert (es + [e])[..|es|] == es;
  }

  /** The accumulators of the scan after the effects `es`, one effect
      applied after another. */
  function Scan(es: seq<Effect>): Accumulators {
    if |es| == 0 then Accumulators(0.0, 0.0, 0.0, "", "")
    else Apply(Scan(es[..|es| - 1]), es[|es| - 1])
  }

  /** Scanning the lines of a reply with no unparsable score ends with every
      field holding what its last setting line gave it, as `Final` states. */
  lemma {:induction false} ScanIsFinal(lines: seq<string>)
    requires forall k :: 0 <= k < |lines| ==> !Effects(lines)[k].Reject?
    ensures Scan(Effects(lines)) == Final(Effects(lines))
    ensures FirstReject(Effects(lines)).None?
  {
    if |lines| > 0 {
      var front := lines[..|lines| - 1];
      var es := Effects(lines);
      var e := EffectOf(lines[|lines| - 1]);
      assert es == Effects(front) + [e];
      forall k | 0 <= k < |front| ensures !Effects(front)[k].Reject? {
        assert es[k] == Effects(front)[k];
      }
      ScanIsFinal(front);
      assert es[..|es| - 1] == Effects(front);
      assert es[|es| - 1] == e;
      ScanStep(Effects(front), e);
    }
  }

  /** What one line does to the accumulators: `Failure` where `float()`
      raises, otherwise the accumulators updated by the line's effect. */
  function Step(a: Accumulators, e: Effect): Result<Accumulators, EvalError> {
    if e.Reject? then Failure(InvalidNumber(e.refused)) else Success(Apply(a, e))
  }

  /** One pass of the loop of `evaluate_answer`: the `if`/`elif` chain,
      which acts on the first marker the line contains. */
  method ReadLine(line: string, a: Accumulators) returns (r: Result<Accumulators, EvalError>)
    ensures r == Step(a, EffectOf(line))
  {
    if Contains(line, "Confidence") {
      r := ReadScore(line, Confidence, a);
    } else if Contains(line, "Clarity") {
      r := ReadScore(line, Clarity, a);
    } else if Contains(line, "Relevance") {
      r := ReadScore(line, Relevance, a);
    } else if Contains(line, "Feedback") {
      r := ReadNote(line, Feedback, a);
    } else if Contains(line, "Expected") {
      r := ReadNote(line, Expected, a);
    } else {
      r := Success(a);
    }
  }

  /** A score line: `float()` of the text after its last colon, stored in
      score `f`; a text that does not parse raises. */
  method ReadScore(line: string, f: Field, a: Accumulators) returns (r: Result<Accumulators, EvalError>)
    requires Classify(line) == Some(f) && IsScore(f)
    ensures r == Step(a, EffectOf(line))
  {
    var v := Numbers.ParseDecimal(ScoreText(line));
    if v.None? {
      return Failure(InvalidNumber(ScoreText(line)));
    }
    r := Success(Apply(a, SetScore(f, v.value)));
  }

  /** A text line: the text after its first colon, stripped, stored in
      text field `f`. */
  method ReadNote(line: string, f: Field, a: Accumulators) returns (r: Result<Accumulators, EvalError>)
    requires Classify(line) == Some(f) && !IsScore(f)
    ensures r == Step(a, EffectOf(line))
  {
    r := Success(Apply(a, SetNote(f, NoteText(line))));
  }

  /** The scan of `evaluate_answer`: five accumulators updated line by line,
      the first unparsable score raising. Its result is `Evaluate`'s. */
  method EvaluateAnswer(questionId: string, completion: string)
    returns (r: Result<EvaluationResult, EvalError>)
    ensures r == Evaluate(questionId, CompletionLines(completion))
  {
    var lines := CompletionLines(completion);
    ghost var es := Effects(lines);
    var a := Accumulators(0.0, 0.0, 0.0, "", "");
    var i := 0;
    while i < |lines|
      invariant 0 <= i <= |lines|
      invariant FirstReject(es[..i]).None?
      invariant a == Scan(es[..i])
    {
      var next := ReadLine(lines[i], a);
      EffectsAt(lines, i);
      assert es[..i + 1][..i] == es[..i];
      if next.Failure? {
        FirstRejectAt(es, i);
        return Failure(next.error);
      }
      a := next.value;
      i := i + 1;
    }
    assert es[..i] == es;
    ScanIsFinal(lines);
    r := Success(Result(questionId, a));
  }

  /** The first aborting effect after a clean prefix is the one reported. */
  lemma FirstRejectAt(es: seq<Effect>, i: nat)
    requires i < |es| && es[i].Reject?
    requires FirstReject(es[..i]).None?
    ensures FirstReject(es) == Some(i)
  {
    forall k | 0 <= k < i ensures !es[k].Reject? {
      assert es[k] == es[..i][k];
    }
  }

  /** Adding one effect at the end changes score `f` only if it sets `f`. */
  lemma ScoreStep(prefix: seq<Effect>, e: Effect, f: Field)
    ensures ScoreOf(prefix + [e], f)
      == if Sets(e, f) then (if e.SetScore? then e.value else 0.0) else ScoreOf(prefix, f)
  {
    LastSetStep(prefix, e, f);
    var j := LastSet(prefix, f);
    if j.Some? { assert (prefix + [e])[j.value] == prefix[j.value]; }
  }

  /** Adding one effect at the end changes text field `f` only if it sets `f`. */
  lemma NoteStep(prefix: seq<Effect>, e: Effect, f: Field)
    ensures NoteOf(prefix + [e], f)
      == if Sets(e, f) then (if e.SetNote? then e.text else "") else NoteOf(prefix, f)
  {
    LastSetStep(prefix, e, f);
    var j := LastSet(prefix, f);
    if j.Some? { assert (prefix + [e])[j.value] == prefix[j.value]; }
  }

  /** One more effect that does not abort: the prefix stays clean and the
      accumulators are those before it, updated by it. */
  lemma ScanStep(prefix: seq<Effect>, e: Effect)
    requires FirstReject(prefix).None? && !e.Reject?
    requires e.SetScore? ==> IsScore(e.field)
    requires e.SetNote? ==> !IsScore(e.field)
    ensures FirstReject(prefix + [e]).None?
    ensures Final(prefix + [e]) == Apply(Final(prefix), e)
  {
    var es := prefix + [e];
    forall k | 0 <= k < |es| ensures !es[k].Reject? {
      if k < |prefix| { assert es[k] == prefix[k]; }
    }
    ScoreStep(prefix, e, Confidence);
    ScoreStep(prefix, e, Clarity);
    ScoreStep(prefix, e, Relevance);
    NoteStep(prefix, e, Feedback);
    NoteStep(prefix, e, Expected);
  }

  // ----- Properties of the evaluator -----

  /** The effects of two stretches of lines, one after the other. */
  lemma {:induction false} EffectsAppend(pre: seq<string>, post: seq<string>)
    ensures Effects(pre + post) == Effects(pre) + Effects(post)
  {
    if |post| > 0 {
      var all := pre + post;
      var front := post[..|post| - 1];
      assert all[..|all| - 1] == pre + front;
      assert all[|all| - 1] == post[|post| - 1];
      EffectsAppend(pre, front);
    } else {
      assert pre + post == pre;
    }
  }

  /** A field set somewhere in the later stretch is last set there. */
  lemma {:induction false} LastSetAppend(a: seq<Effect>, b: seq<Effect>, f: Field)
    requires LastSet(b, f).Some?
    ensures LastSet(a + b, f) == Some(|a| + LastSet(b, f).value)
  {
    var ab := a + b;
    assert ab[|ab| - 1] == b[|b| - 1];
    if !Sets(b[|b| - 1], f) {
      assert ab[..|ab| - 1] == a + b[..|b| - 1];
      LastSetAppend(a, b[..|b| - 1], f);
    }
  }

  /** The value of field `f` in an evaluation. */
  predicate Agree(x: EvaluationResult, y: EvaluationResult, f: Field) {
    match f
    case Confidence => x.confidence == y.confidence
    case Clarity => x.clarity == y.clarity
    case Relevance => x.relevance == y.relevance
    case Feedback => x.feedback == y.feedback
    case Expected => x.expectedAnswer == y.expectedAnswer
  }

  /** Over effects: a field set in the later stretch takes its value there. */
  lemma OverrideValue(a: seq<Effect>, b: seq<Effect>, f: Field)
    requires LastSet(b, f).Some?
    ensures ScoreOf(a + b, f) == ScoreOf(b, f) && NoteOf(a + b, f) == NoteOf(b, f)
  {
    LastSetAppend(a, b, f);
    var m := LastSet(b, f).value;
    assert (a + b)[|a| + m] == b[m];
  }

  /** Over effects: with no abort in the whole, none in the later stretch,
      and the later stretch decides every field it sets. */
  lemma CombineOverride(questionId: string, a: seq<Effect>, b: seq<Effect>, f: Field)
    requires LastSet(b, f).Some?
    requires Combine(questionId, a + b).Success?
    ensures Combine(questionId, b).Success?
    ensures Agree(Combine(questionId, a + b).value, Combine(questionId, b).value, f)
  {
    var ab := a + b;
    forall k | 0 <= k < |b| ensures !b[k].Reject? {
      assert ab[|a| + k] == b[k];
    }
    OverrideValue(a, b, f);
  }

  /** Last match wins: once a field is set in a later stretch of lines,
      nothing the earlier lines said about it survives. */
  lemma LaterLinesOverride(questionId: string, pre: seq<string>, post: seq<string>, f: Field)
    requires exists k :: 0 <= k < |post| && Classify(post[k]) == Some(f)
    requires Evaluate(questionId, pre + post).Success?
    ensures Evaluate(questionId, post).Success?
    ensures Agree(Evaluate(questionId, pre + post).value, Evaluate(questionId, post).value, f)
  {
    var ps := Effects(post);
    var k :| 0 <= k < |post| && Classify(post[k]) == Some(f);
    assert !Unparsable(post[k]) by {
      FailsIff(questionId, pre + post);
      assert (pre + post)[|pre| + k] == post[k];
    }
    SetsSomewhere(post, k, f);
    EffectsAppend(pre, post);
    CombineOverride(questionId, Effects(pre), ps, f);
  }

  /** A line whose first marker names `f` and that parses sets `f`. */
  lemma SetsSomewhere(lines: seq<string>, k: nat, f: Field)
    requires k < |lines| && Classify(lines[k]) == Some(f) && !Unparsable(lines[k])
    ensures LastSet(Effects(lines), f).Some?
  {
    EffectsAt(lines, k);
    assert Sets(Effects(lines)[k], f);
  }

  /** The evaluation before any line has been read. */
  function Initial(questionId: string): EvaluationResult {
    EvaluationResult(questionId, 0.0, 0.0, 0.0, "", "")
  }

  /** Fields that no line sets keep their initial values. */
  lemma UnsetFieldsKeepDefaults(questionId: string, lines: seq<string>, f: Field)
    requires Evaluate(questionId, lines).Success?
    requires forall k :: 0 <= k < |lines| ==> Classify(lines[k]) != Some(f)
    ensures Evaluate(questionId, lines).value.questionId == questionId
    ensures Agree(Evaluate(questionId, lines).value, Initial(questionId), f)
  {
    var es := Effects(lines);
    forall j | 0 <= j < |es| ensures !Sets(es[j], f) {
      EffectsAt(lines, j);
    }
  }

  /** An update leaves every field it does not set as it was. */
  lemma ApplyKeepsOthers(questionId: string, a: Accumulators, e: Effect, g: Field)
    requires !Sets(e, g)
    ensures Agree(Result(questionId, a), Result(questionId, Apply(a, e)), g)
  {
  }

  /** One more line changes at most one field: the one its first marker
      names, which takes the line's value; every other field keeps its own. */
  lemma OneLineOneField(questionId: string, lines: seq<string>, line: string)
    requires Evaluate(questionId, lines + [line]).Success?
    ensures Evaluate(questionId, lines).Success?
    ensures var before, after := Evaluate(questionId, lines).value, Evaluate(questionId, lines + [line]).value;
      && (forall g: Field :: Classify(line) != Some(g) ==> Agree(before, after, g))
      && (Classify(line) == Some(Confidence) ==> Numbers.ParseDecimal(ScoreText(line)) == Some(after.confidence))
      && (Classify(line) == Some(Clarity) ==> Numbers.ParseDecimal(ScoreText(line)) == Some(after.clarity))
      && (Classify(line) == Some(Relevance) ==> Numbers.ParseDecimal(ScoreText(line)) == Some(after.relevance))
      && (Classify(line) == Some(Feedback) ==> after.feedback == NoteText(line))
      && (Classify(line) == Some(Expected) ==> after.expectedAnswer == NoteText(line))
  {
    EffectsAppend(lines, [line]);
    var es := Effects(lines);
    var e := EffectOf(line);
    EffectsAt([line], 0);
    assert Effects([line]) == [e];
    var all := es + [e];
    assert all[|es|] == e;
    forall k | 0 <= k < |es| ensures !es[k].Reject? {
      assert all[k] == es[k];
    }
    ScanStep(es, e);
    forall g: Field | Classify(line) != Some(g)
      ensures Agree(Result(questionId, Final(es)), Result(questionId, Final(all)), g)
    {
      ApplyKeepsOthers(questionId, Final(es), e, g);
    }
  }

  // ----- Round trip: a well-formed reply reads back exactly -----

  /** A labelled line of a reply, "Label: value". */
  function Labelled(f: Field, value: string): string {
    Marker(f) + ": " + value
  }

  /** Free text that can stand as a field's value in a reply: one line, no
      marker inside it, nothing for `strip()` to remove. */
  predicate PlainText(s: string) {
    && '\n' !in s
    && (forall g: Field :: !Contains(s, Marker(g)))
    && (s == [] || (!IsSpace(s[0]) && !IsSpace(s[|s| - 1])))
  }

  /** A score as a reply writes it: the whole part's digits, then a point
      and the fraction's digits unless the fraction is empty ("7", "8.5"). */
  datatype Numeral = Numeral(whole: nat, fraction: string)

  /** The fraction is written in decimal digits. */
  predicate WellFormed(n: Numeral) {
    Numbers.AllDigits(n.fraction)
  }

  /** The text of a numeral. */
  function Written(n: Numeral): string {
    var w := Numbers.NatToString(n.whole);
    if n.fraction == [] then w else w + "." + n.fraction
  }

  /** The number a numeral stands for. */
  function Value(n: Numeral): real
    requires WellFormed(n)
  {
    n.whole as real + Numbers.FractionValue(n.fraction)
  }

  /** A numeral's text parses to the number it stands for. */
  lemma NumeralRoundTrip(n: Numeral)
    requires WellFormed(n)
    ensures Numbers.ParseDecimal(Written(n)) == Some(Value(n))
  {
    if n.fraction == [] {
      Numbers.NatRoundTrip(n.whole);
    } else {
      Numbers.FractionRoundTrip(n.whole, n.fraction);
    }
  }

  /** A reply in the shape the evaluation prompt asks for. */
  function Reply(confidence: Numeral, clarity: Numeral, relevance: Numeral, feedback: string, expected: string): string {
    Join(ReplyLines(confidence, clarity, relevance, feedback, expected), "\n")
  }

  /** The lines of such a reply, one per field, in the prompt's order. */
  function ReplyLines(confidence: Numeral, clarity: Numeral, relevance: Numeral, feedback: string, expected: string): seq<string> {
    [Labelled(Confidence, Written(confidence)),
     Labelled(Clarity, Written(clarity)),
     Labelled(Relevance, Written(relevance)),
     Labelled(Feedback, feedback),
     Labelled(Expected, expected)]
  }

  /** The lines the reader gets back from such a reply: its own lines, the
      last one stripped, which takes the blank after an empty answer. */
  function ReadLines(confidence: Numeral, clarity: Numeral, relevance: Numeral, feedback: string, expected: string): seq<string> {
    [Labelled(Confidence, Written(confidence)),
     Labelled(Clarity, Written(clarity)),
     Labelled(Relevance, Written(relevance)),
     Labelled(Feedback, feedback),
     Strip(Labelled(Expected, expected))]
  }

  /** A labelled line is one line when its value is. */
  lemma LabelledOneLine(f: Field, value: string)
    requires '\n' !in value
    ensures '\n' !in Labelled(f, value)
  {
  }

  /** A numeral's text holds only digits and a point: no marker, no colon,
      no line break, no whitespace. */
  lemma WrittenIsPlain(n: Numeral)
    requires WellFormed(n)
    ensures ':' !in Written(n) && PlainText(Written(n))
  {
    var d := Written(n);
    var w := Numbers.NatToString(n.whole);
    forall k | 0 <= k < |d| ensures Numbers.IsDigit(d[k]) || d[k] == '.' {
      if n.fraction == [] || k < |w| {
        assert d[k] == w[k];
      } else if k > |w| {
        assert d[k] == n.fraction[k - |w| - 1];
      }
    }
    assert d[0] == w[0];
    if n.fraction != [] {
      assert d[|d| - 1] == n.fraction[|n.fraction| - 1];
    }
    forall g: Field ensures !Contains(d, Marker(g)) {
      NotContainedWithoutHead(d, Marker(g));
    }
  }

  /** Which markers a labelled line holds: its own, and none that comes
      before it in the chain. */
  lemma LabelledClassify(f: Field, value: string)
    requires forall g: Field :: !Contains(value, Marker(g))
    ensures Classify(Labelled(f, value)) == Some(f)
  {
    var line := Labelled(f, value);
    assert line == Marker(f) + (": " + value);
    assert IsPrefix(Marker(f), line);
    forall g: Field | Rank(g) < Rank(f) ensures !Contains(line, Marker(g)) {
      EarlierMarkerAbsent(f, g, value);
    }
  }

  /** The label of a line holds no marker tested before its own. */
  lemma EarlierMarkerAbsent(f: Field, g: Field, value: string)
    requires Rank(g) < Rank(f) && !Contains(value, Marker(g))
    ensures !Contains(Labelled(f, value), Marker(g))
  {
    var line := Labelled(f, value);
    var tag := Marker(f) + ": ";
    var m := Marker(g);
    assert line == tag + value;
    if f == Clarity {
      assert g == Confidence && m == "Confidence";
      if |m| <= |line| {
        assert line[..|m|][1] != m[1];
      }
      var rest := "larity: ";
      assert tag == ['C'] + rest;
      assert line[1..] == rest + value;
      ContainsSkipsPrefix(rest, value, m);
    } else {
      ContainsSkipsPrefix(tag, value, m);
    }
  }

  /** A score line reads back as the number written in it, "8.5" as 8.5. */
  lemma ScoreLineEffect(f: Field, n: Numeral)
    requires IsScore(f) && WellFormed(n)
    ensures EffectOf(Labelled(f, Written(n))) == SetScore(f, Value(n))
  {
    var d := Written(n);
    WrittenIsPlain(n);
    assert Classify(Labelled(f, d)) == Some(f) by {
      LabelledClassify(f, d);
    }
    assert ScoreText(Labelled(f, d)) == d by {
      assert Labelled(f, d) == Marker(f) + [':'] + ([' '] + d);
      AfterLastOfTail(Marker(f), [' '] + d, ':');
      StripLeadingSpace(d);
    }
    NumeralRoundTrip(n);
  }

  /** A half-point score, the kind the report's thresholds tell apart. */
  lemma HalfPointScore()
    ensures EffectOf("Confidence: 8.5") == SetScore(Confidence, 8.5)
  {
    var n := Numeral(8, "5");
    assert Written(n) == "8.5";
    assert Labelled(Confidence, Written(n)) == "Confidence: 8.5";
    ScoreLineEffect(Confidence, n);
  }

  /** A text line reads back as the text written in it. */
  lemma NoteLineEffect(f: Field, s: string)
    requires !IsScore(f) && PlainText(s)
    ensures EffectOf(Labelled(f, s)) == SetNote(f, s)
  {
    LabelledClassify(f, s);
    var line := Labelled(f, s);
    assert line == Marker(f) + [':'] + ([' '] + s);
    AfterFirstOfTail(Marker(f), [' '] + s, ':');
    StripLeadingSpace(s);
  }

  /** The expected-answer line after `strip()`: itself, or the bare label
      "Expected:" when the answer is empty. */
  lemma ExpectedLineStripped(s: string)
    requires PlainText(s)
    ensures Strip(Labelled(Expected, s)) == if s == [] then Marker(Expected) + ":" else Labelled(Expected, s)
  {
    var line := Labelled(Expected, s);
    if s == [] {
      assert line == (Marker(Expected) + ":") + [' '];
      StripTrailingSpace(Marker(Expected) + ":");
    } else {
      assert line[0] == 'E' && line[|line| - 1] == s[|s| - 1];
      StripUnpadded(line);
    }
  }

  /** The bare label "Expected:" sets the expected answer to the empty text. */
  lemma BareExpectedLabel()
    ensures EffectOf(Marker(Expected) + ":") == SetNote(Expected, [])
  {
    var bare := Marker(Expected) + ":";
    assert bare == "Expected:";
    assert IsPrefix(Marker(Expected), bare);
    forall g: Field | Rank(g) < Rank(Expected) ensures !Contains(bare, Marker(g)) {
      NotContainedWithoutHead(bare, Marker(g));
    }
    assert bare == Marker(Expected) + [':'] + [];
    AfterFirstOfTail(Marker(Expected), [], ':');
  }

  /** The expected-answer line, as the reader gets it, reads back as the
      answer written, the empty one included. */
  lemma ExpectedLineEffect(s: string)
    requires PlainText(s)
    ensures EffectOf(Strip(Labelled(Expected, s))) == SetNote(Expected, s)
  {
    ExpectedLineStripped(s);
    if s == [] {
      BareExpectedLabel();
    } else {
      NoteLineEffect(Expected, s);
    }
  }

  /** A score line of the reply is a single line. */
  lemma ScoreLineIsLine(f: Field, n: Numeral)
    requires WellFormed(n)
    ensures '\n' !in Labelled(f, Written(n))
  {
    WrittenIsPlain(n);
    LabelledOneLine(f, Written(n));
  }

  /** Each line read back from the reply is a single line. */
  lemma ReadLinesAreLines(confidence: Numeral, clarity: Numeral, relevance: Numeral, feedback: string, expected: string)
    requires WellFormed(confidence) && WellFormed(clarity) && WellFormed(relevance)
    requires PlainText(feedback) && PlainText(expected)
    ensures var lines := ReadLines(confidence, clarity, relevance, feedback, expected);
      forall k :: 0 <= k < |lines| ==> '\n' !in lines[k]
  {
    ScoreLineIsLine(Confidence, confidence);
    ScoreLineIsLine(Clarity, clarity);
    ScoreLineIsLine(Relevance, relevance);
    LabelledOneLine(Feedback, feedback);
    ExpectedLineStripped(expected);
    LabelledOneLine(Expected, expected);
  }

  /** Stripping the reply takes nothing but the blank after an empty
      expected answer: what is left is the join of the lines read back. */
  lemma ReplyStrips(confidence: Numeral, clarity: Numeral, relevance: Numeral, feedback: string, expected: string)
    requires PlainText(expected)
    ensures Strip(Reply(confidence, clarity, relevance, feedback, expected))
      == Join(ReadLines(confidence, clarity, relevance, feedback, expected), "\n")
  {
    var lines := ReplyLines(confidence, clarity, relevance, feedback, expected);
    var read := ReadLines(confidence, clarity, relevance, feedback, expected);
    ExpectedLineStripped(expected);
    assert read[0][0] == 'C';
    if expected == [] {
      assert read[4] == "Expected:" && lines[4] == read[4] + [' '];
      assert lines == read[..4] + [read[4] + [' ']];
      JoinExtendLast(read, "\n", [' ']);
      JoinEnds(read, "\n");
      StripTrailingSpace(Join(read, "\n"));
    } else {
      assert read == lines;
      assert read[4][|read[4]| - 1] == expected[|expected| - 1];
      JoinEnds(read, "\n");
      StripUnpadded(Join(read, "\n"));
    }
  }

  /** The reply's completion lines are the lines read back. */
  lemma ReplySplits(confidence: Numeral, clarity: Numeral, relevance: Numeral, feedback: string, expected: string)
    requires WellFormed(confidence) && WellFormed(clarity) && WellFormed(relevance)
    requires PlainText(feedback) && PlainText(expected)
    ensures CompletionLines(Reply(confidence, clarity, relevance, feedback, expected))
      == ReadLines(confidence, clarity, relevance, feedback, expected)
  {
    ReplyStrips(confidence, clarity, relevance, feedback, expected);
    ReadLinesAreLines(confidence, clarity, relevance, feedback, expected);
    SplitJoin(ReadLines(confidence, clarity, relevance, feedback, expected), '\n');
  }

  /** Each of the five lines read back sets its own field to the value
      written. */
  lemma ReplyEffects(confidence: Numeral, clarity: Numeral, relevance: Numeral, feedback: string, expected: string)
    requires WellFormed(confidence) && WellFormed(clarity) && WellFormed(relevance)
    requires PlainText(feedback) && PlainText(expected)
    ensures Effects(ReadLines(confidence, clarity, relevance, feedback, expected))
      == [SetScore(Confidence, Value(confidence)), SetScore(Clarity, Value(clarity)),
          SetScore(Relevance, Value(relevance)), SetNote(Feedback, feedback), SetNote(Expected, expected)]
  {
    var lines := ReadLines(confidence, clarity, relevance, feedback, expected);
    var es := Effects(lines);
    EffectsAt(lines, 0);
    ScoreLineEffect(Confidence, confidence);
    assert es[0] == SetScore(Confidence, Value(confidence));
    EffectsAt(lines, 1);
    ScoreLineEffect(Clarity, clarity);
    assert es[1] == SetScore(Clarity, Value(clarity));
    EffectsAt(lines, 2);
    ScoreLineEffect(Relevance, relevance);
    assert es[2] == SetScore(Relevance, Value(relevance));
    EffectsAt(lines, 3);
    NoteLineEffect(Feedback, feedback);
    assert es[3] == SetNote(Feedback, feedback);
    EffectsAt(lines, 4);
    ExpectedLineEffect(expected);
    assert es[4] == SetNote(Expected, expected);
    FiveEffects(es);
  }

  /** A sequence of five effects is the display of its elements. */
  lemma FiveEffects(es: seq<Effect>)
    requires |es| == 5
    ensures es == [es[0], es[1], es[2], es[3], es[4]]
  {
  }

  /** One effect per field, each field once: every field ends with its own. */
  lemma OnePerField(confidence: real, clarity: real, relevance: real, feedback: string, expected: string)
    ensures var es := [SetScore(Confidence, confidence), SetScore(Clarity, clarity),
                       SetScore(Relevance, relevance), SetNote(Feedback, feedback), SetNote(Expected, expected)];
      FirstReject(es).None? && Final(es) == Accumulators(confidence, clarity, relevance, feedback, expected)
  {
    var es := [SetScore(Confidence, confidence), SetScore(Clarity, clarity),
               SetScore(Relevance, relevance), SetNote(Feedback, feedback), SetNote(Expected, expected)];
    assert Sets(es[0], Confidence) && Sets(es[1], Clarity) && Sets(es[2], Relevance);
    assert Sets(es[3], Feedback) && Sets(es[4], Expected);
  }

  /** Reading a reply written in the prompt's shape gives back exactly the
      scores and texts written into it, fractional scores and an empty
      expected answer included. */
  lemma ReplyRoundTrip(questionId: string, confidence: Numeral, clarity: Numeral,
                       relevance: Numeral, feedback: string, expected: string)
    requires WellFormed(confidence) && WellFormed(clarity) && WellFormed(relevance)
    requires PlainText(feedback) && PlainText(expected)
    ensures Evaluate(questionId, CompletionLines(Reply(confidence, clarity, relevance, feedback, expected)))
      == Success(EvaluationResult(questionId, Value(confidence), Value(clarity), Value(relevance),
                                  feedback, expected))
  {
    ReplySplits(confidence, clarity, relevance, feedback, expected);
    ReplyEffects(confidence, clarity, relevance, feedback, expected);
    OnePerField(Value(confidence), Value(clarity), Value(relevance), feedback, expected);
  }
}
