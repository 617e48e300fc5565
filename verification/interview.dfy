/** The interview session (app.py `ExcelInterviewer`) as an immutable value and pure
    transitions. Every call to the generative model, the random draw, the clock and
    the number rendering are inputs of the transition that uses them. */
module Interview {
  import opened External
  import opened Strings
  import opened QuestionBank
  import opened Evaluator
  import opened Report

  /** The values `interview_state` takes. Only the web page sets `Ongoing`. */
  datatype Phase = NotStarted | Introduction | Ongoing | Completed

  datatype Speaker = AI | Human

  /** One `(speaker, message)` pair of `conversation_history`. */
  datatype Entry = Entry(speaker: Speaker, message: string)

  /** The interviewer's state: `interview_state`, `current_question_num`,
      `total_questions`, `conversation_history`, `candidate_responses` and
      `question_bank`. */
  datatype Session = Session(
    phase: Phase,
    questionNum: nat,
    totalQuestions: nat,
    history: seq<Entry>,
    responses: seq<Record>,
    bank: seq<string>)

  /** The result of a transition: the new state and the text returned, or the state
      at the point where `random.choice` raised `IndexError` on an empty bank. */
  datatype Outcome = Ok(session: Session, output: string) | Raised(session: Session)

  /** What the closing report needs from outside: the model's reply to the report
      prompt, the rendered completion time, and the `:.1f` rendering of a mean. */
  datatype ReportInputs = ReportInputs(reply: Reply, clock: string, fmt: real -> string)

  const DefaultTotalQuestions: nat := 5

  // Long texts are written as several shorter literals joined by `+`: the text is the
  // same, and proofs that unfold it stay cheap.

  const RetryMessage: string :=
    "Please provide a response to " + "continue with the interview."

  const NoResponsesMessage: string :=
    "Interview completed. No " + "responses to evaluate."

  const IntroMessage: string :=
    "\n"
    + Indent8 + "Hello! I'm your AI Excel " + "Interview Assistant. I'll be " + "conducting a structured " + "interview to assess your " + "Microsoft Excel skills.\n"
    + Indent8 + "\n"
    + Indent8 + "Here's how this will work:\n"
    + Indent8 + "\U{2022} I'll ask you 5 questions " + "covering different Excel topics\n"
    + Indent8 + "\U{2022} Please provide detailed " + "answers explaining your " + "approach\n"
    + Indent8 + "\U{2022} After each response, I'll " + "give you brief feedback\n"
    + Indent8 + "\U{2022} At the end, you'll receive a " + "comprehensive evaluation report\n"
    + Indent8 + "\n"
    + Indent8 + "The interview should take about " + "15-20 minutes. Are you ready to " + "begin?\n"
    + Indent8 + "\n"
    + Indent8 + "Let's start with your first " + "question!\n"
    + Indent8

  /** A freshly constructed interviewer. */
  function NewSession(): (r: Session)
    ensures CounterBounded(r) && r.questionNum == 0
    ensures r.history == [] && r.responses == [] && r.bank == []
  {
    Session(NotStarted, 0, DefaultTotalQuestions, [], [], [])
  }

  /** The counter invariant: never more questions asked than planned. */
  predicate CounterBounded(s: Session) {
    s.questionNum <= s.totalQuestions
  }

  const QuestionHead: string := "**Question "

  /** The history entry announcing question `n` of `total`. */
  function FormatQuestion(n: nat, total: nat, q: string): (r: string)
    ensures |r| > |q| && r[0] == '*' && '\n' in r
    ensures r[|r| - |q|..] == q
  {
    var counts := NatToString(n) + ("/" + (NatToString(total) + ":**"));
    var r := QuestionHead + (counts + ("\n\n" + q));
    assert r[|QuestionHead| + |counts|] == '\n';
    r
  }

  /** The feedback entry appended after each answer. */
  function FeedbackText(e: Evaluation): (r: string)
    ensures OccursAt(r, IntToString(e.score), |FeedbackHead|)
    ensures Contains(r, e.feedback)
  {
    var r := FeedbackHead + (IntToString(e.score) + (FeedbackMid + (e.feedback + FeedbackTail)));
    assert OccursAt(r, e.feedback, |FeedbackHead| + |IntToString(e.score)| + |FeedbackMid|);
    r
  }

  const FeedbackHead: string :=
    "\n"
    + Indent8 + "**Quick Feedback:**\n"
    + Indent8 + "\n"
    + Indent8 + "Score: "
  const FeedbackMid: string :=
    "/10\n"
    + Indent8 + "\n"
    + Indent8
  const FeedbackTail: string :=
    "\n"
    + Indent8 + "\n"
    + Indent8 + "---\n"
    + Indent8 + "\n"
    + Indent8

  /** The questions already recorded, as the filter of app.py:146 sees them. */
  function Asked(s: Session): seq<string> {
    seq(|s.responses|, k requires 0 <= k < |s.responses| => s.responses[k].question)
  }

  /** `start_interview`: enters the introduction, builds the bank from the model's
      reply and greets the candidate. The counter, the responses and any earlier
      history are left as they were. */
  function Start(s: Session, bankReply: Reply): (r: Outcome)
    ensures r.Ok? && r.output == IntroMessage
    ensures r.session.phase == Introduction
    ensures r.session.bank == GenerateBank(bankReply)
    ensures r.session.history == s.history + [Entry(AI, IntroMessage)]
    ensures r.session.questionNum == s.questionNum && r.session.totalQuestions == s.totalQuestions
    ensures r.session.responses == s.responses
  {
    Ok(s.(phase := Introduction, bank := GenerateBank(bankReply), history := s.history + [Entry(AI, IntroMessage)]),
       IntroMessage)
  }

  /** `conclude_interview`: always marks the interview completed. Without responses it
      returns a fixed message and records nothing; otherwise it appends one report
      entry built from the four means, and does so again on every further call. */
  function Conclude(s: Session, report: ReportInputs): (r: Outcome)
    ensures r.Ok? && r.session.phase == Completed
    ensures r.session.questionNum == s.questionNum && r.session.totalQuestions == s.totalQuestions
    ensures r.session.responses == s.responses && r.session.bank == s.bank
    ensures |s.responses| == 0 ==> r.session.history == s.history && r.output == NoResponsesMessage
    ensures |s.responses| > 0 ==>
              && r.session.history == s.history + [Entry(AI, r.output)]
              && r.output == ReportText(report.clock, report.fmt, Aggregate(s.responses), report.reply)
  {
    var done := s.(phase := Completed);
    if |s.responses| == 0 then
      Ok(done, NoResponsesMessage)
    else
      var text := ReportText(report.clock, report.fmt, Aggregate(s.responses), report.reply);
      Ok(done.(history := s.history + [Entry(AI, text)]), text)
  }

  /** `get_next_question`. At or past the planned number it delegates to
      `Conclude` without counting. Otherwise it draws from the unasked bank entries
      (the whole bank when none is left), counts the question and appends it to
      the history; an empty bank makes the draw raise. */
  function NextQuestion(s: Session, pick: nat, report: ReportInputs): (r: Outcome)
    ensures s.questionNum >= s.totalQuestions ==> r == Conclude(s, report)
    ensures s.questionNum < s.totalQuestions && |s.bank| == 0 ==> r == Raised(s)
    ensures s.questionNum < s.totalQuestions && |s.bank| > 0 ==>
              && r.Ok?
              && (exists q :: q in Candidates(s.bank, Asked(s)) && r.output == FormatQuestion(s.questionNum + 1, s.totalQuestions, q))
              && r.session == s.(questionNum := s.questionNum + 1, history := s.history + [Entry(AI, r.output)])
  {
    if s.questionNum >= s.totalQuestions then
      Conclude(s, report)
    else
      match Choose(s.bank, Asked(s), pick)
      case None => Raised(s)
      case Some(q) =>
        var text := FormatQuestion(s.questionNum + 1, s.totalQuestions, q);
        Ok(s.(questionNum := s.questionNum + 1, history := s.history + [Entry(AI, text)]), text)
  }

  /** An AI entry whose text contains `Question`: what app.py:229 takes for a question. */
  predicate IsQuestionEntry(e: Entry) {
    e.speaker == AI && Contains(e.message, "Question")
  }

  /** Entry `i` is the last question entry of `h`. */
  predicate LatestQuestionAt(h: seq<Entry>, i: int) {
    0 <= i < |h| && IsQuestionEntry(h[i]) && forall j :: i < j < |h| ==> !IsQuestionEntry(h[j])
  }

  /** The reverse scan of app.py:227-231: the text of the last question entry, or the
      empty string when there is none. */
  function LastQuestion(h: seq<Entry>): (q: string)
    ensures (forall i :: 0 <= i < |h| ==> !IsQuestionEntry(h[i])) ==> q == ""
    ensures (exists i :: 0 <= i < |h| && IsQuestionEntry(h[i])) ==> exists i :: LatestQuestionAt(h, i) && q == h[i].message
  {
    if |h| == 0 then ""
    else if IsQuestionEntry(h[|h| - 1]) then
      assert LatestQuestionAt(h, |h| - 1);
      h[|h| - 1].message
    else
      var q := LastQuestion(h[..|h| - 1]);
      assert forall i :: 0 <= i < |h| - 1 ==> h[..|h| - 1][i] == h[i];
      assert (exists i :: 0 <= i < |h| && IsQuestionEntry(h[i])) ==> exists i :: LatestQuestionAt(h, i) && q == h[i].message by {
        if exists i :: 0 <= i < |h| && IsQuestionEntry(h[i]) {
          var i :| LatestQuestionAt(h[..|h| - 1], i) && q == h[..|h| - 1][i].message;
          assert LatestQuestionAt(h, i);
        }
      }
      q
  }

  /** The bookkeeping of app.py:227-258 for a non-blank answer: the answer entry, the
      record of the answered question, and the feedback entry. */
  function RecordAnswer(s: Session, answer: string, e: Evaluation): (r: Session)
    ensures r.phase == s.phase && r.questionNum == s.questionNum && r.totalQuestions == s.totalQuestions
    ensures r.bank == s.bank
    ensures |r.history| == |s.history| + 2 && s.history <= r.history
    ensures |r.responses| == |s.responses| + 1 && s.responses <= r.responses
  {
    s.(history := s.history + [Entry(Human, answer), Entry(AI, FeedbackText(e))],
       responses := s.responses + [Record(LastQuestion(s.history), answer, e)])
  }

  /** `process_response`. */
  function ProcessResponse(s: Session, answer: string, evalReply: Reply, parse: string -> Option<Evaluation>,
                           pick: nat, report: ReportInputs): (r: Outcome)
    ensures AllSpace(answer) ==> r == Ok(s, RetryMessage)
    ensures r.session.bank == s.bank && r.session.totalQuestions == s.totalQuestions
  {
    if Strip(answer) == "" then
      Ok(s, RetryMessage)
    else
      var e := Evaluate(evalReply, parse);
      Continue(RecordAnswer(s, answer, e), FeedbackText(e), pick, report)
  }

  /** A non-blank answer is recorded against the latest question with its
      evaluation; the answer and its feedback are the next two history entries,
      whatever follows them; and the call raises exactly when a question is due
      from an empty bank. */
  lemma AnswerRecorded(s: Session, answer: string, evalReply: Reply, parse: string -> Option<Evaluation>,
                       pick: nat, report: ReportInputs)
    requires !AllSpace(answer)
    ensures var r := ProcessResponse(s, answer, evalReply, parse, pick, report);
            var e := Evaluate(evalReply, parse);
            && r.session.responses == s.responses + [Record(LastQuestion(s.history), answer, e)]
            && |r.session.history| >= |s.history| + 2
            && r.session.history[..|s.history| + 2] == s.history + [Entry(Human, answer), Entry(AI, FeedbackText(e))]
            && (r.Raised? <==> s.questionNum < s.totalQuestions && |s.bank| == 0)
  {
    var e := Evaluate(evalReply, parse);
    var s1 := RecordAnswer(s, answer, e);
    assert Strip(answer) != "";
    assert ProcessResponse(s, answer, evalReply, parse, pick, report) == Continue(s1, FeedbackText(e), pick, report);
  }

  /** What follows a recorded answer: the next question while questions remain,
      the report otherwise, with the feedback leading the output. It only appends
      to the history, and raises exactly when a question is due from an empty bank. */
  function Continue(s1: Session, feedback: string, pick: nat, report: ReportInputs): (r: Outcome)
    ensures |r.session.history| >= |s1.history| && r.session.history[..|s1.history|] == s1.history
    ensures r.session.responses == s1.responses
    ensures r.session.bank == s1.bank && r.session.totalQuestions == s1.totalQuestions
    ensures r.Raised? <==> s1.questionNum < s1.totalQuestions && |s1.bank| == 0
    ensures s1.questionNum < s1.totalQuestions && |s1.bank| > 0 ==>
              && r.Ok?
              && r.session.phase == s1.phase
              && r.session.questionNum == s1.questionNum + 1
              && |r.session.history| == |s1.history| + 1
              && r.output == feedback + r.session.history[|s1.history|].message
    ensures s1.questionNum >= s1.totalQuestions ==>
              && r.Ok?
              && r.session.phase == Completed
              && r.session.questionNum == s1.questionNum
              && r.output == feedback + Conclude(s1, report).output
  {
    if s1.questionNum < s1.totalQuestions then
      match NextQuestion(s1, pick, report)
      case Ok(s2, next) => Ok(s2, feedback + next)
      case Raised(s2) => Raised(s2)
    else
      var c := Conclude(s1, report);
      Ok(c.session, feedback + c.output)
  }

  /** An answer while questions remain: feedback, then exactly the next question
      entry, counted once, drawn from the bank entries not yet recorded, the record
      just made included. */
  lemma AnswerWhileQuestionsRemain(s: Session, answer: string, evalReply: Reply, parse: string -> Option<Evaluation>,
                                   pick: nat, report: ReportInputs)
    requires !AllSpace(answer) && s.questionNum < s.totalQuestions && |s.bank| > 0
    ensures var r := ProcessResponse(s, answer, evalReply, parse, pick, report);
            var n := |s.history|;
            && r.Ok?
            && r.session.phase == s.phase
            && r.session.questionNum == s.questionNum + 1
            && |r.session.history| == n + 3
            && r.session.history[n + 2].speaker == AI
            && r.output == FeedbackText(Evaluate(evalReply, parse)) + r.session.history[n + 2].message
            && exists q :: q in Candidates(s.bank, Asked(r.session))
                           && r.session.history[n + 2].message == FormatQuestion(s.questionNum + 1, s.totalQuestions, q)
  {
    var e := Evaluate(evalReply, parse);
    var s1 := RecordAnswer(s, answer, e);
    assert Strip(answer) != "";
    var r1 := NextQuestion(s1, pick, report);
    assert ProcessResponse(s, answer, evalReply, parse, pick, report) == Ok(r1.session, FeedbackText(e) + r1.output);
    assert Asked(r1.session) == Asked(s1);
  }

  /** An answer once the planned number of questions has been asked: feedback, then
      exactly one report entry over all responses including the new one, and the
      interview is completed without counting. */
  lemma AnswerAfterLastQuestion(s: Session, answer: string, evalReply: Reply, parse: string -> Option<Evaluation>,
                                pick: nat, report: ReportInputs)
    requires !AllSpace(answer) && s.questionNum >= s.totalQuestions
    ensures var r := ProcessResponse(s, answer, evalReply, parse, pick, report);
            var n := |s.history|;
            && r.Ok?
            && r.session.phase == Completed
            && r.session.questionNum == s.questionNum
            && |r.session.history| == n + 3
            && r.session.history[n + 2] == Entry(AI, ReportText(report.clock, report.fmt, Aggregate(r.session.responses), report.reply))
            && r.output == FeedbackText(Evaluate(evalReply, parse)) + r.session.history[n + 2].message
  {
    var e := Evaluate(evalReply, parse);
    var s1 := RecordAnswer(s, answer, e);
    assert Strip(answer) != "";
    var c := Conclude(s1, report);
    assert ProcessResponse(s, answer, evalReply, parse, pick, report) == Ok(c.session, FeedbackText(e) + c.output);
  }

  /** A formatted question announces itself: it starts with `*` and mentions
      `Question`, so the reverse scan of app.py:228-231 stops at it. */
  lemma FormatQuestionIsQuestionEntry(n: nat, total: nat, q: string)
    ensures var f := FormatQuestion(n, total, q);
            |f| > 0 && f[0] == '*' && IsQuestionEntry(Entry(AI, f))
  {
    var f := FormatQuestion(n, total, q);
    assert f[2..10] == QuestionHead[2..10] == "Question";
    assert OccursAt(f, "Question", 2);
  }

  /** When the last entry of the history is a formatted question, that is the
      question the next answer is recorded against. */
  lemma LastQuestionOfAsked(h: seq<Entry>, n: nat, total: nat, q: string)
    ensures LastQuestion(h + [Entry(AI, FormatQuestion(n, total, q))]) == FormatQuestion(n, total, q)
  {
    var h' := h + [Entry(AI, FormatQuestion(n, total, q))];
    FormatQuestionIsQuestionEntry(n, total, q);
    assert IsQuestionEntry(h'[|h'| - 1]);
  }

  /** Recording an answer adds exactly the latest question to the asked list. */
  lemma AskedAfterRecord(s: Session, answer: string, e: Evaluation)
    ensures Asked(RecordAnswer(s, answer, e)) == Asked(s) + [LastQuestion(s.history)]
  {
    var a := Asked(RecordAnswer(s, answer, e));
    assert forall k :: 0 <= k < |s.responses| ==> a[k] == s.responses[k].question;
  }

  /** Asking while questions remain and the bank is non-empty formats the drawn
      entry under the next number and appends it to the history. */
  lemma AskStep(s: Session, pick: nat, report: ReportInputs) returns (q: string)
    requires s.questionNum < s.totalQuestions
    requires |s.bank| > 0
    ensures Choose(s.bank, Asked(s), pick) == Some(q) && q in s.bank
    ensures var f := FormatQuestion(s.questionNum + 1, s.totalQuestions, q);
            NextQuestion(s, pick, report) == Ok(s.(questionNum := s.questionNum + 1, history := s.history + [Entry(AI, f)]), f)
  {
    q := Choose(s.bank, Asked(s), pick).value;
    assert q in Candidates(s.bank, Asked(s));
  }

  /** A non-blank answer while questions remain records the answer and continues
      with the next question, its output led by the feedback. */
  lemma AnswerStep(s: Session, answer: string, evalReply: Reply, parse: string -> Option<Evaluation>,
                   pick: nat, report: ReportInputs)
    requires !AllSpace(answer)
    requires s.questionNum < s.totalQuestions
    requires |s.bank| > 0
    ensures var e := Evaluate(evalReply, parse);
            var next := NextQuestion(RecordAnswer(s, answer, e), pick, report);
            ProcessResponse(s, answer, evalReply, parse, pick, report) == Ok(next.session, FeedbackText(e) + next.output)
  {
    assert Strip(answer) != "";
  }

  /** After the drawn entry is asked and answered, the same draw picks it again:
      the recorded question is the formatted entry, which holds a line feed and so is
      no bank entry. */
  lemma SameDrawAfterAnswer(s: Session, pick: nat, report: ReportInputs, q: string, answer: string, e: Evaluation)
    requires s.questionNum < s.totalQuestions
    requires forall b :: b in s.bank ==> SingleLine(b)
    requires Choose(s.bank, Asked(s), pick) == Some(q)
    ensures var s1 := s.(questionNum := s.questionNum + 1,
                         history := s.history + [Entry(AI, FormatQuestion(s.questionNum + 1, s.totalQuestions, q))]);
            Choose(s.bank, Asked(RecordAnswer(s1, answer, e)), pick) == Some(q)
  {
    var f := FormatQuestion(s.questionNum + 1, s.totalQuestions, q);
    var s1 := s.(questionNum := s.questionNum + 1, history := s.history + [Entry(AI, f)]);
    LastQuestionOfAsked(s.history, s.questionNum + 1, s.totalQuestions, q);
    assert f !in s.bank;
    AskedAfterRecord(s1, answer, e);
    AvailableIgnoresForeign(s.bank, Asked(s), f);
  }

  /** The no-repeat filter of app.py:146 compares bank entries with the recorded
      question, which is the whole formatted entry of app.py:154. So with a bank of
      single-line questions (every bank the interviewer builds), answering a question
      leaves it available, and the same draw asks it again as the next question. */
  lemma RepeatAfterAnswer(s: Session, pick: nat, report: ReportInputs, answer: string,
                          evalReply: Reply, parse: string -> Option<Evaluation>) returns (q: string)
    requires s.questionNum + 1 < s.totalQuestions
    requires |s.bank| > 0
    requires forall b :: b in s.bank ==> SingleLine(b)
    requires !AllSpace(answer)
    ensures var first := NextQuestion(s, pick, report);
            var second := ProcessResponse(first.session, answer, evalReply, parse, pick, report);
            && first.Ok? && second.Ok?
            && |second.session.history| > 0
            && q in s.bank
            && first.output == FormatQuestion(s.questionNum + 1, s.totalQuestions, q)
            && second.session.history[|second.session.history| - 1]
               == Entry(AI, FormatQuestion(s.questionNum + 2, s.totalQuestions, q))
  {
    q := AskStep(s, pick, report);
    var s1 := NextQuestion(s, pick, report).session;
    var e := Evaluate(evalReply, parse);
    SameDrawAfterAnswer(s, pick, report, q, answer, e);
    var s2 := RecordAnswer(s1, answer, e);
    var q2 := AskStep(s2, pick, report);
    AnswerStep(s1, answer, evalReply, parse, pick, report);
  }

  /** `conclude_interview` is not idempotent: with responses present, a second call
      appends a second report entry. */
  lemma ConcludeTwiceReportsTwice(s: Session, first: ReportInputs, second: ReportInputs)
    requires |s.responses| > 0
    ensures var m := Aggregate(s.responses);
            Conclude(Conclude(s, first).session, second).session.history
            == s.history + [Entry(AI, ReportText(first.clock, first.fmt, m, first.reply)),
                            Entry(AI, ReportText(second.clock, second.fmt, m, second.reply))]
  {
    var once := Conclude(s, first);
    var twice := Conclude(once.session, second);
    assert once.session.history == s.history + [Entry(AI, once.output)];
    assert twice.session.history == once.session.history + [Entry(AI, twice.output)];
    assert (s.history + [Entry(AI, once.output)]) + [Entry(AI, twice.output)]
           == s.history + [Entry(AI, once.output), Entry(AI, twice.output)];
  }

  /** When every recorded answer was scored by a failing model call, all four
      reported means are 5. */
  lemma FailingModelReportsFive(s: Session, report: ReportInputs)
    requires |s.responses| > 0
    requires forall k :: 0 <= k < |s.responses| ==> s.responses[k].evaluation == HardDefault
    ensures Conclude(s, report).output == ReportText(report.clock, report.fmt, Means(5.0, 5.0, 5.0, 5.0), report.reply)
  {
    AggregateOfUniform(s.responses, HardDefault);
    var m := Aggregate(s.responses);
    assert m.Of(Overall) == 5.0 && m.Of(Technical) == 5.0 && m.Of(Completeness) == 5.0 && m.Of(Clarity) == 5.0;
    assert m == Means(5.0, 5.0, 5.0, 5.0);
  }

  /** A successful bank reply no longer than `MinLineLength` characters leaves the
      bank empty (the fallback list is not used), and asking the first question
      then raises. */
  lemma ShortReplyRaises(s: Session, t: string, pick: nat, report: ReportInputs)
    requires |t| <= MinLineLength
    requires s.questionNum < s.totalQuestions
    ensures NextQuestion(Start(s, Text(t)).session, pick, report).Raised?
  {
    ShortReplyGivesEmptyBank(t);
    var s1 := Start(s, Text(t)).session;
    assert |s1.bank| == 0 && s1.questionNum < s1.totalQuestions;
  }

  /** One call into the interviewer, with the outside values that call consumes. */
  datatype Event =
    | Begin(bankReply: Reply)
    | Ask(pick: nat, report: ReportInputs)
    | Answer(text: string, evalReply: Reply, parse: string -> Option<Evaluation>, pick: nat, report: ReportInputs)
    | Finish(report: ReportInputs)

  /** The transition an event triggers. */
  function Apply(s: Session, ev: Event): Outcome {
    match ev
    case Begin(reply) => Start(s, reply)
    case Ask(pick, report) => NextQuestion(s, pick, report)
    case Answer(text, evalReply, parse, pick, report) => ProcessResponse(s, text, evalReply, parse, pick, report)
    case Finish(report) => Conclude(s, report)
  }

  /** The state an event leaves behind. A raising call leaves the object with the
      changes it made before the raise, and later calls start from there. */
  function Step(s: Session, ev: Event): Session {
    Apply(s, ev).session
  }

  /** The state after a sequence of calls, each made with `step`. */
  function RunWith(step: (Session, Event) -> Session, s: Session, evs: seq<Event>): Session
    decreases |evs|
  {
    if |evs| == 0 then s else RunWith(step, step(s, evs[0]), evs[1..])
  }

  /** The state after a sequence of calls to the interviewer. */
  function Run(s: Session, evs: seq<Event>): Session {
    RunWith(Step, s, evs)
  }

  /** What every transition keeps: the planned total, a counter that never goes
      back, and a history and a response list that only grow at the end. */
  predicate Advances(s: Session, t: Session) {
    && t.totalQuestions == s.totalQuestions
    && s.questionNum <= t.questionNum
    && s.history <= t.history
    && s.responses <= t.responses
  }

  /** `t` follows `s` by event `ev` the way every call does: it advances, keeps the
      counter within the planned total, and keeps the bank unless `ev` starts. */
  predicate StepKeeps(s: Session, ev: Event, t: Session) {
    && Advances(s, t)
    && (CounterBounded(s) ==> CounterBounded(t))
    && (!ev.Begin? ==> t.bank == s.bank)
  }

  /** Appending keeps what was there as a prefix. */
  lemma PrefixOfAppend<T>(a: seq<T>, b: seq<T>)
    ensures a <= a + b
  {
  }

  /** Starting is a step that advances the state and keeps a bounded counter bounded. */
  lemma BeginAdvances(s: Session, reply: Reply)
    ensures StepKeeps(s, Begin(reply), Start(s, reply).session)
  {
    PrefixOfAppend(s.history, [Entry(AI, IntroMessage)]);
  }

  /** Concluding is a step that advances the state, keeps a bounded counter bounded
      and keeps the bank. */
  lemma FinishAdvances(s: Session, report: ReportInputs)
    ensures StepKeeps(s, Finish(report), Conclude(s, report).session)
  {
    var t := Conclude(s, report).session;
    if |s.responses| > 0 {
      PrefixOfAppend(s.history, [Entry(AI, Conclude(s, report).output)]);
    }
  }

  /** Answering advances the state, keeps the counter within the planned total and
      leaves the bank alone, whether it continues, concludes or raises. */
  lemma AnswerAdvances(s: Session, text: string, evalReply: Reply, parse: string -> Option<Evaluation>,
                       pick: nat, report: ReportInputs)
    ensures var t := ProcessResponse(s, text, evalReply, parse, pick, report).session;
            && Advances(s, t)
            && (CounterBounded(s) ==> CounterBounded(t))
            && t.bank == s.bank
  {
    if !AllSpace(text) {
      var e := Evaluate(evalReply, parse);
      var s1 := RecordAnswer(s, text, e);
      assert Strip(text) != "";
      var r := ProcessResponse(s, text, evalReply, parse, pick, report);
      assert s.history <= s1.history && s.responses <= s1.responses;
      if s1.questionNum < s1.totalQuestions {
        assert r.session == NextQuestion(s1, pick, report).session;
      } else {
        assert r.session == Conclude(s1, report).session;
      }
    }
  }

  /** Asking advances the state, counting only while questions remain, and leaves
      the bank alone. */
  lemma AskAdvances(s: Session, pick: nat, report: ReportInputs)
    ensures var t := NextQuestion(s, pick, report).session;
            && Advances(s, t)
            && (CounterBounded(s) ==> CounterBounded(t))
            && t.bank == s.bank
  {
    var t := NextQuestion(s, pick, report).session;
    if s.questionNum >= s.totalQuestions {
      assert t == Conclude(s, report).session;
      assert s.history <= t.history;
    } else if |s.bank| > 0 {
      var q := AskStep(s, pick, report);
      assert s.history <= t.history;
    }
  }

  /** Each single call advances the state, keeps the counter within the planned
      total, and leaves the bank alone unless it is `start_interview`. */
  lemma StepAdvances(s: Session, ev: Event)
    ensures StepKeeps(s, ev, Step(s, ev))
  {
    if ev.Begin? {
      BeginEventKeeps(s, ev);
    } else if ev.Ask? {
      AskEventKeeps(s, ev);
    } else if ev.Answer? {
      AnswerEventKeeps(s, ev);
    } else {
      FinishEventKeeps(s, ev);
    }
  }

  /** `start_interview` as a step. */
  lemma BeginEventKeeps(s: Session, ev: Event)
    requires ev.Begin?
    ensures StepKeeps(s, ev, Step(s, ev))
  {
    BeginAdvances(s, ev.bankReply);
  }

  /** `get_next_question` as a step. */
  lemma AskEventKeeps(s: Session, ev: Event)
    requires ev.Ask?
    ensures StepKeeps(s, ev, Step(s, ev))
  {
    AskAdvances(s, ev.pick, ev.report);
  }

  /** `process_response` as a step. */
  lemma AnswerEventKeeps(s: Session, ev: Event)
    requires ev.Answer?
    ensures StepKeeps(s, ev, Step(s, ev))
  {
    AnswerAdvances(s, ev.text, ev.evalReply, ev.parse, ev.pick, ev.report);
  }

  /** `conclude_interview` as a step. */
  lemma FinishEventKeeps(s: Session, ev: Event)
    requires ev.Finish?
    ensures StepKeeps(s, ev, Step(s, ev))
  {
    FinishAdvances(s, ev.report);
  }

  /** Any sequence of calls made with a step that keeps `StepKeeps` advances the
      state and keeps the counter within the planned total; without a starting
      event the bank never changes. */
  lemma {:induction false} RunWithAdvances(step: (Session, Event) -> Session, s: Session, evs: seq<Event>)
    requires forall s', ev :: StepKeeps(s', ev, step(s', ev))
    ensures Advances(s, RunWith(step, s, evs))
    ensures CounterBounded(s) ==> CounterBounded(RunWith(step, s, evs))
    ensures (forall k :: 0 <= k < |evs| ==> !evs[k].Begin?) ==> RunWith(step, s, evs).bank == s.bank
    decreases |evs|
  {
    if |evs| > 0 {
      var t := step(s, evs[0]);
      assert StepKeeps(s, evs[0], t);
      RunWithAdvances(step, t, evs[1..]);
      assert (forall k :: 0 <= k < |evs| ==> !evs[k].Begin?) ==> (forall k :: 0 <= k < |evs[1..]| ==> !evs[1..][k].Begin?);
    }
  }

  /** Any sequence of calls to the interviewer advances the state and keeps the
      counter within the planned total; without `start_interview` the bank never
      changes. */
  lemma RunAdvances(s: Session, evs: seq<Event>)
    ensures Advances(s, Run(s, evs))
    ensures CounterBounded(s) ==> CounterBounded(Run(s, evs))
    ensures (forall k :: 0 <= k < |evs| ==> !evs[k].Begin?) ==> Run(s, evs).bank == s.bank
  {
    forall s', ev
      ensures StepKeeps(s', ev, Step(s', ev))
    {
      StepAdvances(s', ev);
    }
    RunWithAdvances(Step, s, evs);
  }

  /** From a fresh interviewer, the counter never exceeds the planned five
      questions, whatever the model, the draws and the candidate do. */
  lemma FreshRunBounded(evs: seq<Event>)
    ensures Run(NewSession(), evs).questionNum <= DefaultTotalQuestions
    ensures Run(NewSession(), evs).totalQuestions == DefaultTotalQuestions
  {
    RunAdvances(NewSession(), evs);
  }
}
