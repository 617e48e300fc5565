# Excel mock interviewer: session model

This project models the session logic of the `ExcelInterviewer` class in `app.py`, an
AI-driven mock interview for Microsoft Excel skills. The interviewer works as follows:

- It asks a generative model for a bank of questions and cleans the reply into at most 15 entries.
- It greets the candidate.
- It draws questions at random, then records and scores each answer.
- After the planned five questions it writes a closing report with four mean scores.
- The conversation can be exported as a plain-text transcript.

The model is a set of pure functions over immutable values. The outside world appears
only as parameters:

- Every call to the generative model is a `Reply`: `Failure` when the call raises, `Text(t)` otherwise.
- `json.loads`, together with reading the fields, is a parameter `parse: string -> Option<Evaluation>`.
- `random.choice` is a draw `pick: nat`, taken modulo the length of the candidate list.
- The clock and the `:.1f` rendering of a mean are a string and a `real -> string` function.
- An `IndexError` raised by `random.choice` on an empty bank is an explicit `Outcome.Raised`. It carries the state as it stood at the raise.

Modules, following the source's structure:

- `External`: `Option` and `Reply`.
- `Strings`: the Python string primitives used. This covers `strip`, `split('\n')`, `str.join`, the substring test `in`, and `str` of an integer.
- `Filtering`: an order-preserving filter-and-map and its characterisation.
- `QuestionBank`: `generate_question_bank`, and the candidate list and draw of `get_next_question`.
- `Evaluator`: the three tiers of `evaluate_response`.
- `Report`: the means and the report text of `conclude_interview`.
- `Interview`: the session state and the four transitions, plus sequences of calls.
- `Transcript`: the download text.

Behaviour of the code that the model keeps, though it may look unintended:

- Calling `conclude_interview` again appends another report. It is not idempotent.
- Questions can repeat while unused ones remain. The no-repeat filter compares bare bank entries with recorded questions, and a recorded question is the whole formatted `**Question n/t:**` entry.
- A successful reply with no usable line gives an empty bank, not the fallback list. The next draw then raises.
- Bank entries can be empty. For example, `12345678901.` qualifies by length and is empty once its numbering is removed.
- Scores are not coerced to integers. The model takes them as integers.

## Model

| member | source | states |
|---|---|---|
| Strings.Strip | app.py:99 | `str.strip()`: the result is no longer than the text, neither of its ends is whitespace, and it is empty exactly when the text is all whitespace |
| Strings.StripPadding | app.py:189 | every text is its stripped form with only whitespace before and after it |
| Strings.Split | app.py:95 | `split('\n')` always gives at least one piece, and no piece contains a line feed or is longer than the text |
| Strings.JoinSplit | app.py:95 | joining the pieces of `split('\n')` with line feeds gives back the text |
| Strings.SplitJoin | app.py:95 | splitting a join of line-feed-free pieces gives back those pieces |
| Strings.JoinSnoc | app.py:466 | joining one more part appends the separator and that part |
| Strings.Contains | app.py:229 | the substring test holds exactly when the word occurs at some position |
| Strings.NatToString | app.py:154 | the decimal rendering of a count is non-empty, all digits, and has no leading zero |
| Strings.NatToStringValue | app.py:154 | reading the rendered digits back gives the number |
| Strings.IntToString | app.py:250 | a score is rendered with a minus sign exactly when it is negative, followed by the digits of its magnitude |
| Filtering.FilterMapSelects | app.py:98-104 | the cleaned lines are the images of exactly the qualifying lines, in their original order |
| Filtering.NoneKept | app.py:100 | when no line qualifies, nothing is kept |
| Filtering.CappedSelects | app.py:98-106 | truncating to the cap keeps the first qualifying lines in order and drops only qualifying lines after the last kept one |
| QuestionBank.DigitRun | app.py:102 | the length of the leading run of digits: all digits, and not followed by a digit |
| QuestionBank.MarkerEndsDigitRun | app.py:102 | a `digits.` marker can only end where the leading run of digits ends |
| QuestionBank.StripMarker | app.py:102 | the result is a suffix of the line. Without a leading `digits.` marker the line is unchanged. Otherwise the removed prefix is exactly digits, a full stop and whitespace, and the result does not start with whitespace |
| QuestionBank.GenerateBank | app.py:93-115 | the bank has at most 15 entries, and is exactly the five fixed questions when the model call raises |
| QuestionBank.ReplyLines | app.py:95 | the lines of the reply rejoin to the stripped reply and contain no line feed |
| QuestionBank.BankFromReply | app.py:95-106 | for a successful reply, each bank entry is the cleaned form of a qualifying line, in line order. Every qualifying line is kept unless 15 earlier ones already were |
| QuestionBank.ShortReplyGivesEmptyBank | app.py:95-106 | a successful reply of at most 10 characters, the empty reply included, gives an empty bank rather than the fallback list |
| QuestionBank.CleanedKeepsOut | app.py:99-102 | cleaning a line only removes characters, so a character absent from the line is absent from its cleaned form |
| QuestionBank.GeneratedBankSingleLines | app.py:93-115 | no bank entry contains a line feed, whether the bank is the fallback list or was cleaned from a reply |
| QuestionBank.Available | app.py:146 | an entry is available exactly when it is in the bank and not among the recorded questions |
| QuestionBank.AvailableIgnoresForeign | app.py:146 | recording a string that is not a bank entry makes no entry unavailable |
| QuestionBank.Candidates | app.py:146-149 | the candidates are bank entries and are empty only for an empty bank. While some entry is unasked they are exactly the unasked entries; once every entry has been asked they are the whole bank |
| QuestionBank.Choose | app.py:151 | the draw fails exactly on an empty bank, and otherwise returns a candidate |
| QuestionBank.EveryCandidateReachable | app.py:151 | every candidate is returned by some draw |
| Evaluator.JsonSpan | app.py:192 | a span is found exactly when some `{` precedes some `}`, and it runs from the first `{` to the last `}` |
| Evaluator.OuterSpanUnique | app.py:192 | there is only one such span |
| Evaluator.JsonSpanIgnoresStrip | app.py:189-192 | stripping the reply first never changes the span found |
| Evaluator.Evaluate | app.py:186-219 | a raising call gives the 5/5/5/5 default. A reply with no `{`...`}` pair gives the 7/7/6/7 default. Otherwise the result is the parse of the first-`{`-to-last-`}` span, or the 5/5/5/5 default when the parse raises |
| Report.Mean | app.py:280-283 | the mean times the number of answers is the total |
| Report.SumBounds | app.py:280 | a total of scores within a range lies within the scaled range |
| Report.MeanBounds | app.py:280-283 | a mean lies within the range of its scores |
| Report.Aggregate | app.py:275-283 | each of the four means, times the number of answers, is that dimension's total |
| Report.AggregateInScale | app.py:275-283 | scores all within 1 to 10 give means within 1 to 10 |
| Report.AggregateOfUniform | app.py:275-283 | identical evaluations give means equal to their scores |
| Report.ReportText | app.py:314-353 | the score summary heads the report, and a narrative the model wrote appears in it verbatim |
| Report.ReportKeepsSummary | app.py:314-353 | the score summary heads the report whether or not the narrative call succeeded, and the narrative follows it verbatim when it did |
| Interview.NewSession | app.py:63-72 | a fresh interviewer has no history, responses or bank, has asked nothing, and satisfies the counter invariant |
| Interview.FormatQuestion | app.py:154 | a question entry starts with `*`, contains a line feed, and ends with the bank entry it announces |
| Interview.FeedbackText | app.py:247-256 | the feedback entry shows the rendered score after the fixed heading and carries the model's feedback text verbatim |
| Interview.RecordAnswer | app.py:227-258 | recording an answer changes only the history and the responses, appending two entries and one record |
| Interview.Start | app.py:117-137 | starting enters the introduction, installs the generated bank, appends exactly the greeting, and changes neither counter, total nor responses |
| Interview.Conclude | app.py:267-356 | concluding always marks the interview completed. With no responses it returns the fixed message and appends nothing. Otherwise it appends exactly one report entry built from the four means |
| Interview.NextQuestion | app.py:139-157 | at or past the total it concludes without counting. On an empty bank the draw raises. Otherwise the counter rises by one and exactly one entry is appended: the numbered question, drawn from the candidates |
| Interview.LastQuestion | app.py:227-231 | the answered question is the text of the last AI entry mentioning `Question`, or empty when there is none |
| Interview.ProcessResponse | app.py:221-224 | a whitespace-only answer changes nothing and returns the retry message. No answer changes the bank or the planned total |
| Interview.AnswerRecorded | app.py:226-265 | a non-blank answer is recorded against the last question with its evaluation, the answer and its feedback are the next two history entries whatever follows, and the call raises exactly when a question is due from an empty bank |
| Interview.Continue | app.py:260-265 | after the feedback, while questions remain and the bank is non-empty, exactly one entry is appended and counted, and the output is the feedback followed by that entry. At or past the total the interview is completed without counting, and the output is the feedback followed by the conclusion. Either way it only appends to the history, keeps the responses, bank and total, and raises exactly when a question is due from an empty bank |
| Interview.AnswerWhileQuestionsRemain | app.py:247-263 | while questions remain, an answer is followed by exactly one new question entry, counted once and drawn from the candidates, and the output is the feedback followed by that question |
| Interview.AnswerAfterLastQuestion | app.py:264-265 | after the last question, an answer is followed by exactly one report over all responses, the new one included, and the interview is completed |
| Interview.FormatQuestionIsQuestionEntry | app.py:154 | a formatted question starts with `*` and is recognised as a question entry |
| Interview.LastQuestionOfAsked | app.py:227-231 | the answer that follows a question is recorded against the whole formatted entry |
| Interview.AskedAfterRecord | app.py:240-244 | recording an answer adds exactly the latest question to the recorded questions |
| Interview.AskStep | app.py:146-156 | asking formats the drawn entry under the next number and appends it |
| Interview.AnswerStep | app.py:260-263 | a non-blank answer with questions remaining records the answer, then asks, and its output is led by the feedback |
| Interview.SameDrawAfterAnswer | app.py:146 | in a bank of single-line entries, after an entry is asked and answered, the same draw picks it again |
| Interview.RepeatAfterAnswer | app.py:146-156 | with single-line bank entries (every generated bank), answering a question leaves it available, and the same draw asks the same entry again as the next question |
| Interview.ConcludeTwiceReportsTwice | app.py:355 | concluding twice with responses appends exactly two report entries, in call order, both built from the same four means |
| Interview.FailingModelReportsFive | app.py:275-283 | when every answer was scored by a failing model call, all four means are 5 |
| Interview.ShortReplyRaises | app.py:151 | after a short successful bank reply, asking the first question raises |
| Interview.AnswerAdvances | app.py:221-265 | answering never lowers the counter, never lifts it past the total, only appends to history and responses, and keeps the bank |
| Interview.AskAdvances | app.py:139-157 | asking never lowers the counter, never lifts it past the total, only appends to history, and keeps the bank |
| Interview.BeginAdvances | app.py:117-137 | starting is a step of the session invariant: it keeps the total, does not lower the counter, keeps a bounded counter bounded, and only appends to history and responses |
| Interview.FinishAdvances | app.py:267-356 | concluding is a step of the session invariant: it keeps the total and the bank, does not lower the counter, keeps a bounded counter bounded, and only appends to history and responses |
| Interview.StepAdvances | app.py:117-283 | every call keeps the total, never lowers the counter, never lifts it past the total, and only appends to history and responses. Only starting changes the bank |
| Interview.RunWithAdvances | app.py:117-283 | when every single step advances the state, so does any sequence of steps. When no step in the sequence starts, the bank is unchanged |
| Interview.RunAdvances | app.py:117-283 | the same holds for any sequence of calls, raising ones included |
| Interview.FreshRunBounded | app.py:141-152 | from a fresh interviewer, the counter never exceeds the five planned questions |
| Transcript.Export | app.py:466 | every rendered entry is non-empty, so the transcript is empty exactly when the history is |
| Transcript.ExportStartsWithFirst | app.py:466 | the transcript opens with the first entry's line |
| Transcript.ExportSnoc | app.py:466 | appending an entry appends a blank line and that entry's line |
| Transcript.ExportExtends | app.py:466 | an earlier transcript is a prefix of any later one |
| Transcript.ExportTranscript | app.py:466 | building the transcript line by line gives the blank-line join |
| Transcript.ExportThree | app.py:466 | three entries export as their three lines, separated by blank lines |
| Transcript.ExportExample | app.py:466 | a concrete three-entry exchange, rendered |

## Left out

- The Streamlit page is not modelled. That covers configuration, styling, widgets, session wiring, the progress bar and the download button. It is presentation.
- The web page setting `Ongoing` (app.py:453) is not modelled. The phase exists in `Phase`, but no modelled transition sets it.
- The generative model is not modelled: its configuration, its construction, and the text of its prompts. Each call is an input `Reply`, and the report narrative is an uninterpreted string.
- `json.loads` and the reading of fields are an oracle `parse`. A parse that succeeds but lacks a field would raise `KeyError` when the feedback is rendered (app.py:250), after the record is appended. The model assumes `parse` returns all fields or `None`.
- `random.choice`: the draw is the parameter `pick`. Uniformity is not modelled, only that every candidate is reachable.
- `datetime.now()` is not modelled. The rendered time is the input `clock`.
- `:.1f` rendering is not modelled. It is the input `fmt`. The means are exact `real` values, not floating point.
- `st.error` side effects are not modelled. They do not change the session.
- Unicode whitespace and digits are not modelled. `strip`, `\s` and `\d` are treated as ASCII: whitespace is characters 9-13 and 28-32, digits are `0`-`9`.
- Scores are modelled as integers. The source accepts whatever numbers the parse yields.
- `Filtering.CappedSelects` requires a positive cap. The only cap used is 15.
- `Strings.Split` models only one-character separators, the only kind the source splits on.
