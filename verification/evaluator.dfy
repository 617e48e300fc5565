/** Scoring one answer (app.py `evaluate_response`): the generative model is asked for
    a JSON object, the object is cut out of the reply, and two fixed evaluations
    stand in when that fails. */
module Evaluator {
  import opened External
  import opened Strings

  /** The evaluation object: four scores and the qualitative parts. Scores are kept
      as the model gave them; no range is enforced. */
  datatype Evaluation = Evaluation(
    score: int,
    technicalAccuracy: int,
    completeness: int,
    clarity: int,
    strengths: seq<string>,
    weaknesses: seq<string>,
    feedback: string)

  /** One answered question: the recorded question text, the answer, its evaluation. */
  datatype Record = Record(question: string, response: string, evaluation: Evaluation)

  // Long texts are written as several shorter literals joined by `+`: the text is the
  // same, and proofs that unfold it stay cheap.

  /** Used when the model replied but no `{`...`}` span could be found. */
  const SoftDefault: Evaluation := Evaluation(
    7, 7, 6, 7,
    ["Provided relevant information"],
    ["Could provide more detail"],
    "Good response, consider adding " + "more specific examples.")

  /** Used when the model call raises or the span does not parse. */
  const HardDefault: Evaluation := Evaluation(
    5, 5, 5, 5,
    ["Attempted to answer the question"],
    ["Response needs more technical depth"],
    "Please provide more detailed " + "explanations with specific " + "examples.")

  /** The position of the first `c` in `s`, or `|s|` when there is none. */
  function IndexOf(s: string, c: char): (i: nat)
    ensures i <= |s|
    ensures i < |s| ==> s[i] == c
    ensures forall k :: 0 <= k < i ==> s[k] != c
  {
    if |s| == 0 then 0
    else if s[0] == c then 0
    else 1 + IndexOf(s[1..], c)
  }

  /** The position of the last `c` in `s`, or -1 when there is none. */
  function LastIndexOf(s: string, c: char): (j: int)
    ensures -1 <= j < |s|
    ensures j >= 0 ==> s[j] == c
    ensures forall k :: j < k < |s| ==> s[k] != c
  {
    if |s| == 0 then -1
    else if s[|s| - 1] == c then |s| - 1
    else LastIndexOf(s[..|s| - 1], c)
  }

  /** Some `{` comes before some `}` in `s`. */
  predicate HasBracePair(s: string) {
    exists i, j :: 0 <= i < j < |s| && s[i] == '{' && s[j] == '}'
  }

  /** `t` is the span of `s` starting at `i` that runs from the first `{` of `s` to
      the last `}` of `s`. */
  predicate OuterSpanAt(s: string, i: int, t: string) {
    && 0 <= i && i + |t| <= |s|
    && t == s[i..i + |t|]
    && |t| >= 2 && t[0] == '{' && t[|t| - 1] == '}'
    && (forall k :: 0 <= k < i ==> s[k] != '{')
    && (forall k :: i + |t| <= k < |s| ==> s[k] != '}')
  }

  /** `re.search(r'\{.*\}', s, re.DOTALL)`: the leftmost `{` with a `}` somewhere after
      it, through the last `}` (the greedy `.*` also crosses line feeds). */
  function JsonSpan(s: string): (r: Option<string>)
    ensures r.None? <==> !HasBracePair(s)
    ensures r.Some? ==> exists i :: OuterSpanAt(s, i, r.value)
  {
    var i := IndexOf(s, '{');
    var j := LastIndexOf(s, '}');
    if i < j then
      assert OuterSpanAt(s, i, s[i..j + 1]);
      Some(s[i..j + 1])
    else
      None
  }

  /** There is only one span from the first `{` to the last `}`. */
  lemma OuterSpanUnique(s: string, i: int, t: string, i': int, t': string)
    requires OuterSpanAt(s, i, t) && OuterSpanAt(s, i', t')
    ensures i == i' && t == t'
  {
    assert s[i] == t[0] && s[i'] == t'[0];
    assert s[i + |t| - 1] == t[|t| - 1] && s[i' + |t'| - 1] == t'[|t'| - 1];
  }

  /** Whitespace around a text adds no brace pair and removes none. */
  lemma BracePairPadding(a: string, r: string, b: string)
    requires AllSpace(a) && AllSpace(b)
    ensures HasBracePair(a + (r + b)) <==> HasBracePair(r)
  {
    var s := a + (r + b);
    if HasBracePair(s) {
      var i, j :| 0 <= i < j < |s| && s[i] == '{' && s[j] == '}';
      assert !IsSpace('{') && !IsSpace('}');
      assert |a| <= i && j < |a| + |r|;
      assert r[i - |a|] == s[i] && r[j - |a|] == s[j];
    }
    if HasBracePair(r) {
      var i, j :| 0 <= i < j < |r| && r[i] == '{' && r[j] == '}';
      assert s[i + |a|] == r[i] && s[j + |a|] == r[j];
    }
  }

  /** The span found in a padded text is the span found in the text itself. */
  lemma SpanPadding(a: string, r: string, b: string, t: string, i: int)
    requires AllSpace(a) && AllSpace(b)
    requires OuterSpanAt(r, i, t)
    ensures OuterSpanAt(a + (r + b), |a| + i, t)
  {
    var s := a + (r + b);
    assert s[|a| + i..|a| + i + |t|] == r[i..i + |t|];
    assert forall k :: 0 <= k < |a| ==> s[k] == a[k];
    assert forall k :: |a| <= k < |a| + i ==> s[k] == r[k - |a|];
    assert forall k :: |a| + |r| <= k < |s| ==> s[k] == b[k - |a| - |r|];
    assert forall k :: |a| + i + |t| <= k < |a| + |r| ==> s[k] == r[k - |a|];
  }

  /** Whitespace around a text never changes which span is found in it. */
  lemma JsonSpanPadding(a: string, r: string, b: string)
    requires AllSpace(a) && AllSpace(b)
    ensures JsonSpan(a + (r + b)) == JsonSpan(r)
  {
    var s := a + (r + b);
    BracePairPadding(a, r, b);
    if JsonSpan(s).Some? {
      var t := JsonSpan(s).value;
      var t' := JsonSpan(r).value;
      var i :| OuterSpanAt(s, i, t);
      var i' :| OuterSpanAt(r, i', t');
      SpanPadding(a, r, b, t', i');
      OuterSpanUnique(s, i, t, |a| + i', t');
    }
  }

  /** Stripping the reply first (app.py:189) never changes which span is found. */
  lemma JsonSpanIgnoresStrip(s: string)
    ensures JsonSpan(Strip(s)) == JsonSpan(s)
  {
    var a, b := StripPadding(s);
    JsonSpanPadding(a, Strip(s), b);
  }

  /** `evaluate_response`. `reply` is the model call and `parse` stands for
      `json.loads` followed by reading the fields (`None` when it raises). A raising
      call gives the hard default; a reply with no `{`...`}` span gives the soft
      default; otherwise the parse of the outermost span, or the hard default when
      the parse raises. */
  function Evaluate(reply: Reply, parse: string -> Option<Evaluation>): (e: Evaluation)
    ensures reply.Failure? ==> e == HardDefault
    ensures reply.Text? && !HasBracePair(reply.text) ==> e == SoftDefault
    ensures reply.Text? && HasBracePair(reply.text) ==>
              exists i, span :: OuterSpanAt(reply.text, i, span) && e == parse(span).GetOr(HardDefault)
  {
    match reply
    case Failure => HardDefault
    case Text(t) =>
      JsonSpanIgnoresStrip(t);
      match JsonSpan(Strip(t))
      case None => SoftDefault
      case Some(span) => parse(span).GetOr(HardDefault)
  }
}
