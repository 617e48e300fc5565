/** The closing report (app.py `conclude_interview`): the four per-dimension means
    over all recorded answers and the report text built around them. */
module Report {
  import opened External
  import opened Evaluator
  import opened Strings

  /** The four scored dimensions of an evaluation. */
  datatype Dimension = Overall | Technical | Completeness | Clarity

  function ScoreOf(e: Evaluation, d: Dimension): int {
    match d
    case Overall => e.score
    case Technical => e.technicalAccuracy
    case Completeness => e.completeness
    case Clarity => e.clarity
  }

  /** The scores one dimension received, answer by answer (the lists of app.py:275-278). */
  function DimensionScores(recs: seq<Record>, d: Dimension): seq<int> {
    seq(|recs|, k requires 0 <= k < |recs| => ScoreOf(recs[k].evaluation, d))
  }

  /** Python's `sum` over integers. */
  function Sum(xs: seq<int>): int {
    if |xs| == 0 then 0 else Sum(xs[..|xs| - 1]) + xs[|xs| - 1]
  }

  /** `sum(xs) / len(xs)` computed exactly; the caller must rule out an empty list. */
  function Mean(xs: seq<int>): (m: real)
    requires |xs| > 0
    ensures m * |xs| as real == Sum(xs) as real
  {
    Sum(xs) as real / |xs| as real
  }

  /** A sum of `n` scores, each within `[lo, hi]`, lies within `[n*lo, n*hi]`. */
  lemma {:induction false} SumBounds(xs: seq<int>, lo: int, hi: int)
    requires forall k :: 0 <= k < |xs| ==> lo <= xs[k] <= hi
    ensures |xs| * lo <= Sum(xs) <= |xs| * hi
  {
    if |xs| > 0 {
      SumBounds(xs[..|xs| - 1], lo, hi);
    }
  }

  /** A mean never leaves the range its scores lie in. */
  lemma MeanBounds(xs: seq<int>, lo: int, hi: int)
    requires |xs| > 0
    requires forall k :: 0 <= k < |xs| ==> lo <= xs[k] <= hi
    ensures lo as real <= Mean(xs) <= hi as real
  {
    SumBounds(xs, lo, hi);
    var n := |xs| as real;
    assert Mean(xs) * n >= lo as real * n;
    assert Mean(xs) * n <= hi as real * n;
  }

  /** The four means reported for an interview. */
  datatype Means = Means(overall: real, technical: real, completeness: real, clarity: real) {
    function Of(d: Dimension): real {
      match d
      case Overall => overall
      case Technical => technical
      case Completeness => completeness
      case Clarity => clarity
    }
  }

  /** The per-dimension means of app.py:280-283: each one, times the number of
      answers, is that dimension's total. */
  function Aggregate(recs: seq<Record>): (m: Means)
    requires |recs| > 0
    ensures forall d :: m.Of(d) * |recs| as real == Sum(DimensionScores(recs, d)) as real
  {
    Means(
      Mean(DimensionScores(recs, Overall)),
      Mean(DimensionScores(recs, Technical)),
      Mean(DimensionScores(recs, Completeness)),
      Mean(DimensionScores(recs, Clarity)))
  }

  /** When every score of every answer lies in `[1, 10]`, so does every mean. */
  lemma AggregateInScale(recs: seq<Record>)
    requires |recs| > 0
    requires forall k, d :: 0 <= k < |recs| ==> 1 <= ScoreOf(recs[k].evaluation, d) <= 10
    ensures forall d :: 1.0 <= Aggregate(recs).Of(d) <= 10.0
  {
    forall d: Dimension
      ensures 1.0 <= Aggregate(recs).Of(d) <= 10.0
    {
      MeanBounds(DimensionScores(recs, d), 1, 10);
    }
  }

  /** When every answer got the same evaluation, each mean is that evaluation's
      score: all answers falling back to the score-5 default report 5.0 throughout. */
  lemma AggregateOfUniform(recs: seq<Record>, e: Evaluation)
    requires |recs| > 0
    requires forall k :: 0 <= k < |recs| ==> recs[k].evaluation == e
    ensures forall d :: Aggregate(recs).Of(d) == ScoreOf(e, d) as real
  {
    forall d: Dimension
      ensures Aggregate(recs).Of(d) == ScoreOf(e, d) as real
    {
      var c := ScoreOf(e, d);
      MeanBounds(DimensionScores(recs, d), c, c);
    }
  }

  /** The header both versions of the report share: the time of completion and the
      four means, each rendered by `fmt` (the source's `:.1f`). */
  function ScoreSummary(clock: string, fmt: real -> string, m: Means): string {
    SummaryHead + (clock + (OverallLabel + (fmt(m.overall) + (TechnicalLabel + (fmt(m.technical)
    + (CompletenessLabel + (fmt(m.completeness) + (ClarityLabel + (fmt(m.clarity) + SummaryTail)))))))))
  }

  // Long texts are written as several shorter literals joined by `+`: the text is the
  // same, and proofs that unfold it stay cheap.
  const SummaryHead: string :=
    "\n"
    + Indent12 + "## \U{1F4CB} Final Interview Report\n"
    + Indent12 + "\n"
    + Indent12 + "**Interview Completed:** "
  const OverallLabel: string :=
    "\n"
    + Indent12 + "\n"
    + Indent12 + "### \U{1F4CA} Score Summary\n"
    + Indent12 + "- **Overall Score:** "
  const TechnicalLabel: string := "/10\n" + Indent12 + "- **Technical Accuracy:** "
  const CompletenessLabel: string := "/10\n" + Indent12 + "- **Response Completeness:** "
  const ClarityLabel: string := "/10\n" + Indent12 + "- **Communication Clarity:** "
  const SummaryTail: string :=
    "/10\n"
    + Indent12 + "\n"
    + Indent12 + "### \U{1F4DD} "

  /** The closing part when the model wrote the narrative. */
  function DetailedAssessment(narrative: string): string {
    DetailedHead + (narrative + DetailedTail)
  }

  const DetailedHead: string :=
    "Detailed Assessment\n"
    + Indent12 + "\n"
    + Indent12
  const DetailedTail: string :=
    "\n"
    + Indent12 + "\n"
    + Indent12 + "---\n"
    + Indent12 + "\n"
    + Indent12 + "Thank you for completing the " + "Excel Mock Interview! Use this " + "feedback to improve your Excel " + "skills.\n"
    + Indent12

  /** The closing part when the report call raised. */
  const FallbackAssessment: string :=
    "Assessment\n"
    + Indent12 + "Based on your responses, you " + "demonstrated solid Excel " + "knowledge with room for " + "improvement.\n"
    + Indent12 + "Focus on providing more " + "detailed explanations and " + "practical examples in your " + "answers.\n"
    + Indent12 + "\n"
    + Indent12 + "Thank you for completing the " + "interview!\n"
    + Indent12

  /** What follows the score summary: the model's narrative, or the static
      assessment when the report call raised. */
  function Closing(reply: Reply): string {
    match reply
    case Text(narrative) => DetailedAssessment(narrative)
    case Failure => FallbackAssessment
  }

  /** The report text: the score summary followed by the closing part. */
  function ReportText(clock: string, fmt: real -> string, m: Means, reply: Reply): (r: string)
    ensures ScoreSummary(clock, fmt, m) <= r
    ensures reply.Text? ==> Contains(r, reply.text)
  {
    var head := ScoreSummary(clock, fmt, m);
    var r := head + Closing(reply);
    PrefixOfConcat(head, Closing(reply));
    if reply.Text? then
      assert OccursAt(r, reply.text, |head| + |DetailedHead|);
      r
    else
      r
  }

  lemma PrefixOfConcat(a: string, b: string)
    ensures a <= a + b
    ensures (a + b)[|a|..] == b
  {
  }

  /** The numeric summary heads the report whether or not the narrative call
      succeeded, and the narrative follows it verbatim when it did. */
  lemma ReportKeepsSummary(clock: string, fmt: real -> string, m: Means, reply: Reply)
    ensures ScoreSummary(clock, fmt, m) <= ReportText(clock, fmt, m, reply)
    ensures reply.Text? ==> ReportText(clock, fmt, m, reply)[|ScoreSummary(clock, fmt, m)|..] == DetailedAssessment(reply.text)
  {
    PrefixOfConcat(ScoreSummary(clock, fmt, m), Closing(reply));
  }
}
