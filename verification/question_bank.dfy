/** The question bank: cleaning the generative model's reply into a list of questions
    (app.py `generate_question_bank`) and picking the next question to ask
    (app.py `get_next_question`, the filter and the random choice). */
module QuestionBank {
  import opened External
  import opened Strings
  import opened Filtering

  /** At most this many cleaned lines are kept (the `[:15]` slice). */
  const BankCap: nat := 15

  /** A stripped line is kept only when it is longer than this. */
  const MinLineLength: nat := 10

  // Long texts are written as several shorter literals joined by `+`: the text is the
  // same, and proofs that unfold it stay cheap.

  /** The bank used when the model call raises. */
  const FallbackQuestions: seq<string> := [Fallback1, Fallback2, Fallback3, Fallback4, Fallback5]

  const Fallback1: string := "Explain the difference between " + "VLOOKUP and INDEX-MATCH " + "functions."
  const Fallback2: string := "How would you remove duplicates " + "from a large dataset in Excel?"
  const Fallback3: string := "Describe how to create a " + "dynamic chart that updates " + "automatically."
  const Fallback4: string := "What are the key benefits of " + "using Pivot Tables for data " + "analysis?"
  const Fallback5: string := "How do you use conditional " + "formatting to highlight " + "specific data patterns?"

  /** The length of the run of digits that `s` begins with. */
  function DigitRun(s: string): (n: nat)
    ensures n <= |s| && AllDigits(s[..n])
    ensures n < |s| ==> !IsDigit(s[n])
  {
    if |s| > 0 && IsDigit(s[0]) then
      var n := 1 + DigitRun(s[1..]);
      assert s[..n] == [s[0]] + s[1..][..n - 1];
      n
    else
      0
  }

  /** `s` begins with `k` digits followed by a full stop. */
  predicate MarkerAt(s: string, k: int) {
    1 <= k < |s| && AllDigits(s[..k]) && s[k] == '.'
  }

  /** `s` begins with one or more digits followed by a full stop: the regular
      expression `^\d+\.` matches. */
  ghost predicate HasMarker(s: string) {
    exists k :: MarkerAt(s, k)
  }

  /** `p` is entirely one match of `\d+\.\s*`: digits, a full stop, whitespace. */
  ghost predicate MarkerShaped(p: string) {
    exists k :: MarkerAt(p, k) && AllSpace(p[k + 1..])
  }

  /** A numbering marker can only end where the leading run of digits ends. */
  lemma MarkerEndsDigitRun(s: string, k: int)
    requires MarkerAt(s, k)
    ensures k == DigitRun(s)
  {
    var d := DigitRun(s);
    assert forall j :: 0 <= j < k ==> s[..k][j] == s[j];
    assert forall j :: 0 <= j < d ==> s[..d][j] == s[j];
  }

  /** `re.sub(r'^\d+\.\s*', '', q)`: removes a leading numbering marker and the
      whitespace after it; `q` is returned unchanged when it has no marker. */
  function StripMarker(q: string): (r: string)
    ensures |r| <= |q| && r == q[|q| - |r|..]
    ensures !HasMarker(q) ==> r == q
    ensures HasMarker(q) ==> MarkerShaped(q[..|q| - |r|]) && (r == [] || !IsSpace(r[0]))
  {
    var d := DigitRun(q);
    if 0 < d < |q| && q[d] == '.' then
      var e := d + 1 + SpaceRun(q[d + 1..]);
      assert MarkerAt(q, d);
      MarkerRemoved(q, d, e);
      q[e..]
    else
      NoMarkerPastDigitRun(q);
      q
  }

  /** What the substitution removes when the digit run ends in a full stop: the
      digits, the full stop and the whitespace after it, up to the first character
      that is not whitespace. */
  lemma MarkerRemoved(q: string, d: nat, e: nat)
    requires MarkerAt(q, d) && e == d + 1 + SpaceRun(q[d + 1..])
    ensures e <= |q| && HasMarker(q) && MarkerShaped(q[..e])
    ensures e < |q| ==> !IsSpace(q[e])
  {
    var t := q[d + 1..];
    var k := SpaceRun(t);
    MarkerInPrefix(q, d, e);
    SliceOfPrefix(q, d + 1, e);
    assert AllSpace(q[..e][d + 1..]);
    if e < |q| {
      assert q[e] == t[k];
    }
  }

  /** A marker survives cutting the text after it. */
  lemma MarkerInPrefix(q: string, d: nat, n: nat)
    requires MarkerAt(q, d) && d < n <= |q|
    ensures MarkerAt(q[..n], d)
  {
    assert q[..n][..d] == q[..d];
  }

  /** Cutting at `n` and then dropping `i` characters is dropping `i` and then cutting. */
  lemma SliceOfPrefix(q: string, i: nat, n: nat)
    requires i <= n <= |q|
    ensures q[..n][i..] == q[i..][..n - i]
  {
  }

  /** Without a full stop right after the leading digit run, no marker matches. */
  lemma NoMarkerPastDigitRun(q: string)
    requires var d := DigitRun(q); !(0 < d < |q| && q[d] == '.')
    ensures !HasMarker(q)
  {
    if HasMarker(q) {
      var k :| MarkerAt(q, k);
      MarkerEndsDigitRun(q, k);
    }
  }

  /** A line of the reply survives cleaning when, once stripped, it is longer than
      `MinLineLength` characters. */
  predicate Qualifies(line: string) {
    |Strip(line)| > MinLineLength
  }

  /** What a surviving line becomes: stripped, then its numbering marker removed. */
  function Cleaned(line: string): string {
    StripMarker(Strip(line))
  }

  /** `generate_question_bank`: the fallback list when the model call raises, and
      otherwise the first `BankCap` kept lines of the stripped reply. */
  function GenerateBank(reply: Reply): (bank: seq<string>)
    ensures |bank| <= BankCap
    ensures reply.Failure? ==> bank == FallbackQuestions
  {
    match reply
    case Failure => FallbackQuestions
    case Text(t) =>
      var kept := FilterMap(Split(Strip(t), '\n'), Qualifies, Cleaned);
      if |kept| <= BankCap then kept else kept[..BankCap]
  }

  /** The lines of a successful reply: the stripped reply cut at line feeds. */
  function ReplyLines(t: string): (lines: seq<string>)
    ensures Join("\n", lines) == Strip(t)
    ensures forall k :: 0 <= k < |lines| ==> '\n' !in lines[k]
  {
    JoinSplit(Strip(t), '\n');
    Split(Strip(t), '\n')
  }

  /** A successful reply yields the cleaned forms of its first qualifying lines, in
      order: all of them when there are at most `BankCap`, otherwise the first
      `BankCap`, every later qualifying line being dropped. */
  lemma BankFromReply(t: string) returns (idx: seq<nat>)
    ensures var lines := ReplyLines(t);
            var bank := GenerateBank(Text(t));
            && |idx| == |bank| <= BankCap
            && (forall k :: 0 <= k < |idx| ==> idx[k] < |lines| && Qualifies(lines[idx[k]]) && bank[k] == Cleaned(lines[idx[k]]))
            && (forall k, m :: 0 <= k < m < |idx| ==> idx[k] < idx[m])
            && (forall i :: 0 <= i < |lines| && Qualifies(lines[i]) ==> i in idx || (0 < |idx| == BankCap && idx[BankCap - 1] < i))
  {
    idx := CappedSelects(Qualifies, Cleaned, ReplyLines(t), BankCap);
  }

  /** Stripping and removing the numbering marker only drop characters. */
  lemma CleanedKeepsOut(line: string, c: char)
    requires c !in line
    ensures c !in Cleaned(line)
  {
    var t := line[SpaceRun(line)..];
    assert Strip(line) == TrimRight(t);
    assert c !in t;
  }

  /** `s` holds no line feed. */
  predicate SingleLine(s: string) {
    forall i :: 0 <= i < |s| ==> s[i] != '\n'
  }

  /** The fallback questions are single lines. */
  lemma FallbackSingleLines()
    ensures forall b :: b in FallbackQuestions ==> SingleLine(b)
  {
    FirstFallbackSingleLines();
    LastFallbackSingleLines();
  }

  /** The first three fallback questions, checked character by character. */
  lemma FirstFallbackSingleLines()
    ensures SingleLine(Fallback1) && SingleLine(Fallback2) && SingleLine(Fallback3)
  {
  }

  /** The last two fallback questions, checked character by character. */
  lemma LastFallbackSingleLines()
    ensures SingleLine(Fallback4) && SingleLine(Fallback5)
  {
  }

  /** The entries cleaned from a reply are single lines: the reply is cut at line
      feeds before its lines are cleaned. */
  lemma ReplyBankSingleLines(t: string)
    ensures forall b :: b in GenerateBank(Text(t)) ==> SingleLine(b)
  {
    var idx := BankFromReply(t);
    var lines := ReplyLines(t);
    var bank := GenerateBank(Text(t));
    forall k | 0 <= k < |bank|
      ensures '\n' !in bank[k]
    {
      CleanedKeepsOut(lines[idx[k]], '\n');
    }
  }

  /** No bank entry spans two lines, whichever way the bank was built. */
  lemma GeneratedBankSingleLines(reply: Reply)
    ensures forall b :: b in GenerateBank(reply) ==> SingleLine(b)
  {
    match reply
    case Failure =>
      FallbackSingleLines();
    case Text(t) => ReplyBankSingleLines(t);
  }

  /** A successful reply no longer than `MinLineLength` characters has no qualifying
      line, so the bank is empty: the fallback list only replaces a raising call. */
  lemma ShortReplyGivesEmptyBank(t: string)
    requires |t| <= MinLineLength
    ensures GenerateBank(Text(t)) == []
  {
    var lines := Split(Strip(t), '\n');
    assert forall k :: 0 <= k < |lines| ==> |Strip(lines[k])| <= |lines[k]| <= |t|;
    NoneKept(lines, Qualifies, Cleaned);
  }

  /** The bank entries not among the questions already recorded, in bank order
      (the list comprehension of app.py:146). */
  function Available(bank: seq<string>, asked: seq<string>): (r: seq<string>)
    ensures |r| <= |bank|
    ensures forall q :: q in r <==> q in bank && q !in asked
  {
    if |bank| == 0 then []
    else
      var rest := Available(bank[1..], asked);
      assert forall q :: q in bank <==> q == bank[0] || q in bank[1..];
      (if bank[0] in asked then [] else [bank[0]]) + rest
  }

  /** Recording a string that is not a bank entry excludes nothing more. */
  lemma {:induction false} AvailableIgnoresForeign(bank: seq<string>, asked: seq<string>, x: string)
    requires x !in bank
    ensures Available(bank, asked + [x]) == Available(bank, asked)
  {
    if |bank| > 0 {
      assert bank[0] != x;
      assert bank[0] in asked + [x] <==> bank[0] in asked;
      assert x !in bank[1..];
      AvailableIgnoresForeign(bank[1..], asked, x);
    }
  }

  /** The list `random.choice` draws from: the unasked entries, or the whole bank
      once every entry has been asked. */
  function Candidates(bank: seq<string>, asked: seq<string>): (r: seq<string>)
    ensures forall q :: q in r ==> q in bank
    ensures |r| == 0 <==> |bank| == 0
    ensures (exists q :: q in bank && q !in asked) ==> forall q :: q in r <==> q in bank && q !in asked
    ensures (forall q :: q in bank ==> q in asked) ==> r == bank
  {
    var a := Available(bank, asked);
    if |a| == 0 then
      assert forall q :: q in bank ==> q in asked;
      bank
    else
      assert a[0] in bank && a[0] !in asked;
      a
  }

  /** `random.choice` with the random draw given as `pick`: `None` stands for the
      `IndexError` raised on an empty bank. */
  function Choose(bank: seq<string>, asked: seq<string>, pick: nat): (r: Option<string>)
    ensures r.None? <==> |bank| == 0
    ensures r.Some? ==> r.value in Candidates(bank, asked)
  {
    var c := Candidates(bank, asked);
    if |c| == 0 then None else Some(c[pick % |c|])
  }

  /** Every candidate is chosen by some draw, so the choice is not biased away from
      any of them. */
  lemma EveryCandidateReachable(bank: seq<string>, asked: seq<string>, q: string) returns (pick: nat)
    requires q in Candidates(bank, asked)
    ensures Choose(bank, asked, pick) == Some(q)
  {
    var c := Candidates(bank, asked);
    var k :| 0 <= k < |c| && c[k] == q;
    SmallRemainder(k, |c|);
    pick := k;
  }

  /** A draw below the length of the list indexes it directly. */
  lemma SmallRemainder(k: nat, n: nat)
    requires k < n
    ensures k % n == k
  {
  }
}
