# Study-app backend: mistake formatting, fallback report and request guards

This project models the deterministic core of the study app's FastAPI backend
(`backend/src/backend.py`) and proves properties of it in Dafny 4.11:

- **Mistake formatter** (`format_attempts_for_ai`). A loop walks the attempt dicts
  of a `/generate-report` request. It keeps those whose `error_type` is truthy and
  not `'none'` and renders each as a four-line block
  (`Topic`, `Mistake Type`, `Explanation`, `Question ID`). Python's
  `dict.get(key, default)` substitutes the default only for a *missing* key. The
  blocks are joined with a newline, or a fixed sentence is returned when no attempt
  qualifies. An attempt dict is modelled key by key as `Absent | Present(value)`,
  with JSON scalars `null`, booleans, integers and strings. Each value is rendered
  the way Python's `str()` renders it (`None`, `True`, decimal digits).
- **Report endpoint** (`generate_report`). The formatted text goes to the language
  model (a parameter here). When the reply is missing or empty, a fixed template
  quotes the number of attempts and the numbers whose `error_type` is exactly
  `'silly'` and exactly `'concept'`.
- **Attempt validation** (`create_attempt`). An unknown question gives 404. An
  empty or missing `error_type` gives no enumeration member. Any other string must
  be one of the `ErrorType` values, or the request gets 400.
- **Topic lookup** (`get_questions_by_topic`). The question table is filtered by
  topic, and an empty result gives 404.

Files: `common.dfy` (Option/Result, failures, `Filter`, `Count`, `Join`),
`py_values.dfy` (JSON scalars, truthiness, `str()`, decimal digits),
`mistake_format.dfy`, `report.dfy`, `questions.dfy`.

Three behaviours of the code are modelled as the code has them:

- `attempt.get('question', {})` yields `None`, or another non-dict, when the key
  is present with such a value. The following `.get('topic', …)` then raises
  `AttributeError`. The model returns `Err(NotAMapping)` for this case. Only
  attempts that qualify as mistakes are inspected, so only they can raise. The
  raise happens before the report endpoint looks at the language model.
- `attempt.get('explanation', 'No explanation provided')` renders a present
  `null` as `None`, not as the default; the same holds for `question_id` and
  `topic`.
- The fallback counts compare the raw value with `'silly'` and `'concept'`. The
  formatter's test is different (truthy and not `'none'`). Every counted attempt
  is therefore also formatted, and both counts together never exceed the number
  of blocks.

The app's front end (practice session state machine, client-side report
statistics and page navigation) is not part of this model. Its source is not
among the files modelled here.

## Model

| member | source | states |
|---|---|---|
| `MistakeFormat.IsMistake` | backend/src/backend.py:125 | an attempt qualifies exactly when its `error_type` key is present with a value other than `None`, `False`, `0`, `""` and `'none'` |
| `MistakeFormat.Formatted` | backend/src/backend.py:120-141 | the specification of the formatter: the raise, the fixed sentence, or the joined blocks of the mistakes; a failure is always the `AttributeError`; its other properties are `FormattedFailsIff`, `NoMistakesIff`, `FormattedSingle`, `FormattedConcat`, `FormattedIgnoresNonMistakes` and `OneBlockPerMistake` |
| `MistakeFormat.LoopBlocks` | backend/src/backend.py:122-136 | the list `formatted_attempts` holds after the loop has walked a prefix: one appended block per mistake, so never longer than the prefix |
| `MistakeFormat.LoopBlocksAreBlocks` | backend/src/backend.py:122-136 | the list the loop builds is the list of blocks of the mistaken attempts, in input order, and all of those have a readable `question` |
| `MistakeFormat.FormattedFromLoop` | backend/src/backend.py:138-141 | after a loop that never raised, the fixed sentence is returned exactly when its list is empty, and otherwise the list joined by `"\n"` is the formatter's result |
| `MistakeFormat.FormatAttemptsForAi` | backend/src/backend.py:120-141 | the loop returns exactly `Formatted(attempts)`: the joined blocks of the mistaken attempts in input order, the fixed sentence when there are none, or the `AttributeError` at a mistaken attempt whose `question` is not a dict |
| `MistakeFormat.FormattedFailsIff` | backend/src/backend.py:124-126 | the formatter raises if and only if some attempt that is a mistake carries a non-dict `question`; other attempts are never inspected |
| `MistakeFormat.NoMistakesIff` | backend/src/backend.py:124-125 | the output is the sentence "No mistakes found in the provided attempts. All questions were answered correctly!" if and only if no attempt has a truthy `error_type` other than `'none'` |
| `MistakeFormat.FormattedSingle` | backend/src/backend.py:124-141 | for one attempt the output is its block when it is a mistake, the raise when its question is unreadable, and the fixed sentence otherwise |
| `MistakeFormat.FormattedConcat` | backend/src/backend.py:131-141 | formatting `a + b` gives the text of `a`, a newline, then the text of `b` when both contain mistakes: blocks keep input order and are separated by exactly one `"\n"` |
| `MistakeFormat.FormattedIgnoresNonMistakes` | backend/src/backend.py:124-125 | attempts that are not mistakes, wherever they stand, leave the output unchanged |
| `MistakeFormat.OneBlockPerMistake` | backend/src/backend.py:122-141 | the output is the join of exactly as many blocks as there are mistaken attempts, the j-th block being that of the j-th mistake |
| `MistakeFormat.Block` | backend/src/backend.py:131-136 | the f-string block for one attempt; its contract states only that it starts with a newline, its layout is its definition (see "Left out"), and `BlocksAt` ties the list entries to it |
| `MistakeFormat.Blocks` | backend/src/backend.py:122-136 | the list of blocks has one entry per kept attempt |
| `MistakeFormat.BlocksAt` | backend/src/backend.py:122-136 | entry j of the list of blocks is the four-line block of kept attempt j |
| `MistakeFormat.TopicText` | backend/src/backend.py:126 | the topic lookup fails (with `NotAMapping`) exactly when `question` is present but not a dict; it gives `Unknown` when `question` is missing or is a dict without `topic`, and `str(topic)` (via `GetOr`) for a dict with one |
| `PyValues.GetOr` | backend/src/backend.py:127-129 | `str(d.get(k, default))` gives the default for a missing key and `None` for a key present with `null` |
| `PyValues.Truthy` | backend/src/backend.py:125 | Python's `bool(v)` is false exactly for `None`, `False`, `0` and `""` |
| `PyValues.PyStr` | backend/src/backend.py:127-129 | `str(v)` in an f-string: empty only for the empty string, a string as itself, `None` as `None`, an integer as its digits with a minus sign exactly when negative; the digits (after the sign) read back to the integer's absolute value |
| `PyValues.GetValue` | backend/src/backend.py:125 | `d.get(k)` is `None` for a missing key |
| `PyValues.NatToDecimal` | backend/src/backend.py:318 | `str(n)` is a non-empty run of decimal digits with no leading zero |
| `PyValues.DecimalRoundTrip` | backend/src/backend.py:318 | reading back the digits of `str(n)` gives `n` |
| `PyValues.IntToDecimalInjective` | backend/src/backend.py:129 | two integers with the same `str()` rendering are equal, so a rendered `question_id` names one id |
| `Common.Filter` | backend/src/backend.py:125 | the keep-test of the formatter loop and the query filter at line 148: the result holds exactly the elements satisfying the test, never more of them than the input; order is `FilterAppend` |
| `Common.FilterAppend` | backend/src/backend.py:148 | filtering a concatenation is filtering each part, keeping the input order |
| `Common.Join` | backend/src/backend.py:141 | `"\n".join(parts)`; definition, its properties are in `JoinAppend` and `JoinStartsWithFirst` |
| `Common.JoinStartsWithFirst` | backend/src/backend.py:141 | the joined text of a non-empty list begins with its first part |
| `Common.Count` | backend/src/backend.py:314-315 | `sum(1 for … if …)` never exceeds the length of the list |
| `Common.JoinAppend` | backend/src/backend.py:141 | `"\n".join(xs + ys)` is the join of `xs`, one separator, then the join of `ys` |
| `Report.IsSilly` | backend/src/backend.py:314 | an attempt is counted as silly exactly when `error_type` is present with the string `'silly'`; every such attempt is a mistake |
| `Report.IsConcept` | backend/src/backend.py:315 | an attempt is counted as a concept error exactly when `error_type` is present with `'concept'`; such an attempt is a mistake and never silly |
| `Report.SillyCount` | backend/src/backend.py:314 | `silly_mistakes` is the number of silly attempts, at most `len(attempts)` |
| `Report.ConceptCount` | backend/src/backend.py:315 | `concept_errors` is the number of concept attempts, at most `len(attempts)` |
| `Report.FallbackCountsBounded` | backend/src/backend.py:314-318 | silly count plus concept count is at most the number of formatted mistakes, which is at most `len(attempts)`, the total the report quotes |
| `Report.ParseFallbackText` | backend/src/backend.py:317-333 | the filled-in fallback template can be read back into its three numbers (total, silly, concept) |
| `Report.FallbackReport` | backend/src/backend.py:312-333 | the fallback report for a list of attempts quotes `len(attempts)`, the number of `'silly'` and the number of `'concept'` attempts, which `ParseFallback` reads back exactly |
| `Report.ReplyTruthy` | backend/src/backend.py:312 | `not ai_response` fails exactly for a present, non-empty reply; definition, used by `GenerateReport`'s contract |
| `Report.GenerateReport` | backend/src/backend.py:303-335 | the endpoint fails exactly when the formatter raises; without a configured client the report is the fallback; with one it is the model's reply when that reply is non-empty and the fallback otherwise |
| `Questions.ErrorTypeValue` | backend/src/backend.py:50-53 | the value of each `ErrorType` member; definition, its round trip with the lookup is `ParseErrorTypeValue` |
| `Questions.ParseErrorType` | backend/src/backend.py:50-53 | `ErrorType(s)` yields a member whose value is `s`, and fails for every string other than `silly`, `concept`, `none` |
| `Questions.ParseErrorTypeValue` | backend/src/backend.py:50-53 | looking a member up by its value gives the member back |
| `Questions.FindQuestion` | backend/src/backend.py:172 | the lookup by id finds a stored question with that id, and finds none exactly when no stored question has it |
| `Questions.FindQuestionFirst` | backend/src/backend.py:172 | `.first()` yields the earliest row with the id |
| `Questions.CreateAttempt` | backend/src/backend.py:163-188 | 404 exactly when no stored question has the id, whatever the error type; 400 exactly when the question exists and a non-empty error type is outside {silly, concept, none}; otherwise the stored record keeps the id and explanation, has no type for an empty or missing one, and otherwise the member with the given value |
| `Questions.QuestionsByTopic` | backend/src/backend.py:144-161 | 404 exactly when no stored question has the topic; otherwise a non-empty list of stored questions, all with that topic, containing every stored question with it, one per matching row |
| `Questions.QuestionsByTopicOrder` | backend/src/backend.py:148-159 | the query has no `ORDER BY`, so the model fixes the table's row order; for a table split anywhere the lookup gives the first part's matches, then the second's, and 404 when neither part has one |

## Left out

- `generate_ai_response` and the Bedrock client (`backend/src/backend.py:33-45`, `95-118`): a network call that swallows its exceptions. It is the parameter `converse` of `Report.GenerateReport`, applied to the formatted text; the system prompt literal is inert text and is not modelled.
- `backend/src/ai_handler/experiment.py` is not part of this model; it is a standalone client for the same service.
- The database: engine, sessions, ORM classes, `add`/`commit`, the id the database assigns to a new attempt, `get_topics` with `distinct()`, `get_all_attempts`, and the seeding under `__main__`. The question table is a sequence in the database's row order. `CreateAttempt` returns the record that would be stored, without the storing.
- Timestamps (`datetime.utcnow().isoformat()`): clock-dependent.
- CORS, routing, and request validation by the framework: a missing `question_id`, or a non-string `error_type`, is rejected as 422 before the handler runs.
- Floats, lists and nested objects as values of `error_type`, `explanation`, `question_id` or `topic`. Python renders these with `repr`-like text; the model covers `null`, booleans, integers and strings.
- `MistakeFormat.Block`: its contract states only that a block starts with a newline. The full four-line layout is its definition, which `Blocks` and the formatter lemmas use.
