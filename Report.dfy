/**
 * The summary report over a session's evaluations (app.py,
 * `generate_summary_report`): the average of the per-answer mean scores,
 * the dimensions some answer scored high on (strengths) or low on
 * (weaknesses), each listed in the fixed order Confidence, Clarity,
 * Relevance, and an improvement plan naming the weaknesses.
 */
module Report {
  import opened Wrappers
  import opened Text
  import Evaluation

  type EvaluationResult = Evaluation.EvaluationResult

  /** A scored dimension: one of the three score fields of an evaluation. */
  type Dimension = f: Evaluation.Field | Evaluation.IsScore(f) witness Evaluation.Confidence

  /** The dimensions in the order the report lists them. */
  const Dimensions: seq<Dimension> :=
    [Evaluation.Confidence, Evaluation.Clarity, Evaluation.Relevance]

  /** The dimension's name in the report, which is also its field's tag. */
  function Name(d: Dimension): string {
    Evaluation.Marker(d)
  }

  /** `getattr(e, cat.lower())`: the evaluation's score on a dimension. */
  function ScoreOn(e: EvaluationResult, d: Dimension): real {
    match d
    case Confidence => e.confidence
    case Clarity => e.clarity
    case Relevance => e.relevance
  }

  /** One answer's mean score, `(confidence + clarity + relevance) / 3`. */
  function Mean(e: EvaluationResult): real {
    (e.confidence + e.clarity + e.relevance) / 3.0
  }

  /** `sum(...)` of the answers' mean scores. */
  function Total(es: seq<EvaluationResult>): real {
    if |es| == 0 then 0.0 else Mean(es[0]) + Total(es[1..])
  }

  /** The average of the answers' mean scores; the source divides by the
      number of answers, so there must be one. */
  function Average(es: seq<EvaluationResult>): real
    requires |es| > 0
  {
    Total(es) / (|es| as real)
  }

  /** A total of means that are each at least `t`. */
  lemma {:induction false} TotalFloor(es: seq<EvaluationResult>, t: real)
    requires forall k :: 0 <= k < |es| ==> t <= Mean(es[k])
    ensures (|es| as real) * t <= Total(es)
  {
    if |es| > 0 {
      TotalFloor(es[1..], t);
      assert (|es| as real) * t == t + (|es[1..]| as real) * t;
    }
  }

  /** A total of means that are each at most `t`. */
  lemma {:induction false} TotalCeiling(es: seq<EvaluationResult>, t: real)
    requires forall k :: 0 <= k < |es| ==> Mean(es[k]) <= t
    ensures Total(es) <= (|es| as real) * t
  {
    if |es| > 0 {
      TotalCeiling(es[1..], t);
      assert (|es| as real) * t == t + (|es[1..]| as real) * t;
    }
  }

  /** The average is at least any floor on the answers' means. */
  lemma AverageFloor(es: seq<EvaluationResult>, t: real)
    requires |es| > 0
    requires forall k :: 0 <= k < |es| ==> t <= Mean(es[k])
    ensures Average(es) >= t
  {
    TotalFloor(es, t);
    var n := |es| as real;
    assert Total(es) / n * n == Total(es);
  }

  /** The average is at most any ceiling on the answers' means. */
  lemma AverageCeiling(es: seq<EvaluationResult>, t: real)
    requires |es| > 0
    requires forall k :: 0 <= k < |es| ==> Mean(es[k]) <= t
    ensures Average(es) <= t
  {
    TotalCeiling(es, t);
    var n := |es| as real;
    assert Total(es) / n * n == Total(es);
  }

  /** When every answer scores at least `t` on every dimension, so does the
      average. */
  lemma AverageAtLeast(es: seq<EvaluationResult>, t: real)
    requires |es| > 0
    requires forall k, d: Dimension :: 0 <= k < |es| ==> ScoreOn(es[k], d) >= t
    ensures Average(es) >= t
  {
    forall k | 0 <= k < |es| ensures t <= Mean(es[k]) {
      assert ScoreOn(es[k], Evaluation.Confidence) >= t;
      assert ScoreOn(es[k], Evaluation.Clarity) >= t;
      assert ScoreOn(es[k], Evaluation.Relevance) >= t;
    }
    AverageFloor(es, t);
  }

  /** `any(test(getattr(e, d)) for e in es)`, scanning the answers in order. */
  predicate AnyScore(es: seq<EvaluationResult>, d: Dimension, test: real -> bool) {
    |es| > 0 && (test(ScoreOn(es[0], d)) || AnyScore(es[1..], d, test))
  }

  /** The scan finds a score passing the test exactly when some answer has
      one. */
  lemma {:induction false} AnyScoreIff(es: seq<EvaluationResult>, d: Dimension, test: real -> bool)
    ensures AnyScore(es, d, test) <==> exists k :: 0 <= k < |es| && test(ScoreOn(es[k], d))
  {
    if |es| > 0 {
      AnyScoreIff(es[1..], d, test);
      if exists k :: 0 <= k < |es| && test(ScoreOn(es[k], d)) {
        var k :| 0 <= k < |es| && test(ScoreOn(es[k], d));
        if k > 0 { assert es[1..][k - 1] == es[k]; }
      }
      if exists k :: 0 <= k < |es[1..]| && test(ScoreOn(es[1..][k], d)) {
        var k :| 0 <= k < |es[1..]| && test(ScoreOn(es[1..][k], d));
        assert es[k + 1] == es[1..][k];
      }
    }
  }

  /** The score above which a dimension is a strength. */
  const StrongAbove: real := 8.5

  /** The score below which a dimension is a weakness. */
  const WeakBelow: real := 6.5

  /** The list comprehension over `dims` keeping those that pass `keep`. */
  function Filter(dims: seq<Dimension>, keep: Dimension -> bool): seq<Dimension> {
    if |dims| == 0 then []
    else if keep(dims[0]) then [dims[0]] + Filter(dims[1..], keep)
    else Filter(dims[1..], keep)
  }

  /** `a` is `b` with some elements left out and the rest kept in order. */
  predicate Subsequence(a: seq<Dimension>, b: seq<Dimension>) {
    if |a| == 0 then true
    else if |b| == 0 then false
    else if a[0] == b[0] then Subsequence(a[1..], b[1..])
    else Subsequence(a, b[1..])
  }

  /** Filtering keeps exactly the passing elements, in their order. */
  lemma {:induction false} FilterKeeps(dims: seq<Dimension>, keep: Dimension -> bool)
    ensures forall d :: d in Filter(dims, keep) <==> d in dims && keep(d)
    ensures Subsequence(Filter(dims, keep), dims)
  {
    if |dims| > 0 {
      FilterKeeps(dims[1..], keep);
      assert dims == [dims[0]] + dims[1..];
    }
  }

  /** The strengths: the dimensions, in order, on which some answer scored
      above 8.5. */
  function Strengths(es: seq<EvaluationResult>): seq<Dimension> {
    Filter(Dimensions, (d: Dimension) => AnyScore(es, d, s => s > StrongAbove))
  }

  /** The weaknesses: the dimensions, in order, on which some answer scored
      below 6.5. */
  function Weaknesses(es: seq<EvaluationResult>): seq<Dimension> {
    Filter(Dimensions, (d: Dimension) => AnyScore(es, d, s => s < WeakBelow))
  }

  /** A dimension is a strength exactly when some answer scored it above
      8.5; the strengths keep the order Confidence, Clarity, Relevance. */
  lemma StrengthsAre(es: seq<EvaluationResult>, d: Dimension)
    ensures d in Strengths(es) <==> exists k :: 0 <= k < |es| && ScoreOn(es[k], d) > 8.5
    ensures Subsequence(Strengths(es), Dimensions)
  {
    var test := s => s > StrongAbove;
    FilterKeeps(Dimensions, (d: Dimension) => AnyScore(es, d, test));
    AnyScoreIff(es, d, test);
    assert d in Dimensions;
  }

  /** A dimension is a weakness exactly when some answer scored it below
      6.5; the weaknesses keep the order Confidence, Clarity, Relevance. */
  lemma WeaknessesAre(es: seq<EvaluationResult>, d: Dimension)
    ensures d in Weaknesses(es) <==> exists k :: 0 <= k < |es| && ScoreOn(es[k], d) < 6.5
    ensures Subsequence(Weaknesses(es), Dimensions)
  {
    var test := s => s < WeakBelow;
    FilterKeeps(Dimensions, (d: Dimension) => AnyScore(es, d, test));
    AnyScoreIff(es, d, test);
    assert d in Dimensions;
  }

  /** The plan when there is nothing to work on. */
  const Praise: string := "You're doing great! Keep practicing."

  /** The plan's lead-in before the list of weaknesses. */
  const WorkOn: string := "Work on "

  /** The names of the dimensions, in order. */
  function Names(ds: seq<Dimension>): (r: seq<string>)
    ensures |r| == |ds| && forall k :: 0 <= k < |r| ==> r[k] == Name(ds[k])
  {
    if |ds| == 0 then [] else [Name(ds[0])] + Names(ds[1..])
  }

  /** The improvement plan: "Work on " and the weaknesses' names joined by
      ", ", or praise when there are none. */
  function ImprovementPlan(weaknesses: seq<Dimension>): string {
    if |weaknesses| > 0 then WorkOn + Join(Names(weaknesses), ", ") else Praise
  }

  /** One summary report (app.py, `EvaluationReport`). */
  datatype EvaluationReport = EvaluationReport(
    userId: string,
    evaluations: seq<EvaluationResult>,
    averageScore: real,
    strengths: seq<Dimension>,
    weaknesses: seq<Dimension>,
    improvementPlan: string)

  /** The `ZeroDivisionError` the average raises over no evaluations. */
  datatype ReportError = NoEvaluations

  /** `generate_summary_report`: fails on an empty list, where the source
      divides by zero, and otherwise reports the average, the strengths,
      the weaknesses and the plan built from the weaknesses. */
  function SummaryReport(userId: string, es: seq<EvaluationResult>): (r: Result<EvaluationReport, ReportError>)
    ensures r.Failure? <==> |es| == 0
    ensures r.Success? ==>
      (r.value.userId == userId && r.value.evaluations == es && r.value.averageScore == Average(es)
       && r.value.strengths == Strengths(es) && r.value.weaknesses == Weaknesses(es)
       && r.value.improvementPlan == ImprovementPlan(r.value.weaknesses))
  {
    if |es| == 0 then Failure(NoEvaluations)
    else
      var weaknesses := Weaknesses(es);
      Success(EvaluationReport(userId, es, Average(es), Strengths(es), weaknesses,
        ImprovementPlan(weaknesses)))
  }

  // ----- Reading the plan back -----

  /** The dimension a name in the plan stands for. */
  function Named(name: string): Option<Dimension> {
    if name == "Confidence" then Some(Evaluation.Confidence)
    else if name == "Clarity" then Some(Evaluation.Clarity)
    else if name == "Relevance" then Some(Evaluation.Relevance)
    else None
  }

  /** The dimensions named by comma-separated pieces of a plan. */
  function ReadNames(pieces: seq<string>): Option<seq<Dimension>> {
    if |pieces| == 0 then Some([])
    else match (Named(Strip(pieces[0])), ReadNames(pieces[1..]))
      case (Some(d), Some(ds)) => Some([d] + ds)
      case _ => None
  }

  /** The weaknesses a plan names: none for praise, the comma-separated
      names after "Work on " otherwise. */
  function ReadPlan(plan: string): Option<seq<Dimension>> {
    if plan == Praise then Some([])
    else if IsPrefix(WorkOn, plan) then ReadNames(Split(plan[|WorkOn|..], ','))
    else None
  }

  /** Each name after the first, with the blank the separator ", " leaves
      in front of it. */
  function Spaced(names: seq<string>): (r: seq<string>)
    ensures |r| == |names| && forall k :: 0 <= k < |r| ==> r[k] == " " + names[k]
  {
    if |names| == 0 then [] else [" " + names[0]] + Spaced(names[1..])
  }

  /** Joining with ", " is joining with "," the names after the first, each
      behind a blank. */
  lemma {:induction false} JoinCommaSpace(names: seq<string>)
    requires |names| > 0
    ensures Join(names, ", ") == Join([names[0]] + Spaced(names[1..]), ",")
  {
    if |names| > 1 {
      JoinCommaSpace(names[1..]);
      var rest := names[1..];
      assert [rest[0]] + Spaced(rest[1..]) == [rest[0]] + Spaced(rest)[1..];
      SpacedJoin(rest);
      assert ([names[0]] + Spaced(rest))[1..] == Spaced(rest);
    }
  }

  /** A blank in front of a ", "-join is a ","-join of blank-led names. */
  lemma {:induction false} SpacedJoin(names: seq<string>)
    requires |names| > 0
    ensures " " + Join(names, ", ") == Join(Spaced(names), ",")
  {
    if |names| > 1 {
      SpacedJoin(names[1..]);
      assert Spaced(names)[1..] == Spaced(names[1..]);
    }
  }

  /** The pieces of the plan's name list read back as the named dimensions. */
  lemma {:induction false} ReadSpacedNames(ds: seq<Dimension>)
    ensures ReadNames(Spaced(Names(ds))) == Some(ds)
  {
    if |ds| > 0 {
      ReadSpacedNames(ds[1..]);
      assert Names(ds)[1..] == Names(ds[1..]);
      assert Spaced(Names(ds))[1..] == Spaced(Names(ds[1..]));
      NameUnpadded(ds[0]);
      StripLeadingSpace(Name(ds[0]));
      var pieces := Spaced(Names(ds));
      assert pieces[0] == [' '] + Name(ds[0]);
      assert Named(Strip(pieces[0])) == Some(ds[0]);
      assert [ds[0]] + ds[1..] == ds;
    }
  }

  /** A dimension's name has no comma and no blank at either end, and
      names the dimension. */
  lemma NameUnpadded(d: Dimension)
    ensures var n := Name(d);
      ',' !in n && n != [] && !IsSpace(n[0]) && !IsSpace(n[|n| - 1]) && Named(n) == Some(d)
  {
  }

  /** The plan names exactly the weaknesses, in their order: reading it
      back gives the list it was built from. */
  lemma PlanRoundTrip(weaknesses: seq<Dimension>)
    ensures ReadPlan(ImprovementPlan(weaknesses)) == Some(weaknesses)
  {
    if |weaknesses| > 0 {
      PlanPieces(weaknesses);
      ReadPieces(weaknesses);
    }
  }

  /** The pieces of a plan with weaknesses, split at its commas. */
  function Pieces(weaknesses: seq<Dimension>): seq<string>
    requires |weaknesses| > 0
  {
    [Name(weaknesses[0])] + Spaced(Names(weaknesses[1..]))
  }

  /** A plan with weaknesses is not praise, starts with "Work on ", and
      splits at its commas into the pieces. */
  lemma PlanPieces(weaknesses: seq<Dimension>)
    requires |weaknesses| > 0
    ensures var plan := ImprovementPlan(weaknesses);
      plan != Praise && IsPrefix(WorkOn, plan) && Split(plan[|WorkOn|..], ',') == Pieces(weaknesses)
  {
    var names := Names(weaknesses);
    var pieces := Pieces(weaknesses);
    assert names[1..] == Names(weaknesses[1..]);
    JoinCommaSpace(names);
    forall k | 0 <= k < |pieces| ensures ',' !in pieces[k] {
      NameUnpadded(weaknesses[k]);
      if k > 0 { assert pieces[k] == " " + names[k]; }
    }
    SplitJoin(pieces, ',');
    var plan := ImprovementPlan(weaknesses);
    assert plan[|WorkOn|..] == Join(pieces, ",");
    assert plan[0] == 'W';
  }

  /** The pieces read back as the weaknesses. */
  lemma ReadPieces(weaknesses: seq<Dimension>)
    requires |weaknesses| > 0
    ensures ReadNames(Pieces(weaknesses)) == Some(weaknesses)
  {
    var pieces := Pieces(weaknesses);
    ReadSpacedNames(weaknesses[1..]);
    assert pieces[1..] == Spaced(Names(weaknesses[1..]));
    NameUnpadded(weaknesses[0]);
    StripUnpadded(Name(weaknesses[0]));
    assert [weaknesses[0]] + weaknesses[1..] == weaknesses;
  }

  /** Two weakness lists that give the same plan are the same list. */
  lemma PlanDeterminesWeaknesses(a: seq<Dimension>, b: seq<Dimension>)
    requires ImprovementPlan(a) == ImprovementPlan(b)
    ensures a == b
  {
    PlanRoundTrip(a);
    PlanRoundTrip(b);
  }

  /** One answer can make a dimension both a strength and a weakness with
      another: the lists are not exclusive. */
  lemma StrongAndWeak(high: EvaluationResult, low: EvaluationResult)
    requires high.confidence == 9.0 && low.confidence == 5.0
    ensures Evaluation.Confidence in Strengths([high, low])
    ensures Evaluation.Confidence in Weaknesses([high, low])
  {
    StrengthsAre([high, low], Evaluation.Confidence);
    WeaknessesAre([high, low], Evaluation.Confidence);
    assert ScoreOn([high, low][0], Evaluation.Confidence) > 8.5;
    assert ScoreOn([high, low][1], Evaluation.Confidence) < 6.5;
  }
}
