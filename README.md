# Chain-of-draft benchmark: evaluator and prompt registry

This project models two pieces of a small prompting benchmark and proves properties of
them in Dafny.

- The batch evaluator is `evaluate_dataset` in `frontend/evaluation.py`. It sends every
  dataset item to the inference backend once per strategy, in the fixed order `standard`,
  `cot`, `cod`. A request that raises is skipped. Every reply becomes one scored record.
- `run_evaluation` then appends the new records after the rows persisted by earlier runs.
  It groups the whole table by (dataset, method) and reports, per group, the accuracy in
  percent, the mean response time and the mean total token count.
- The backend's prompt registry is `PROMPTS` in `backend/app.py`. It is a constant table
  from strategy to template, and each template has one `{question}` slot. The question is
  substituted literally into that slot.

Files:

- `wrappers.dfy`: `Option`, which stands for a JSON field that may be absent.
- `text.dfy`: the three string operations the scoring relies on, on ASCII. They are
  `str.strip()`, `str.lower()` and the substring test `in`.
- `prompts.dfy`: the template table, substitution, and what can be read back off a
  rendered prompt.
- `evaluation.dfy`: the evaluation loop as two methods, an outer loop over items and an
  inner loop over strategies. Both are proved against specification functions, and the
  lemmas state what a run produces.
- `summary.dfy`: persisting the table, grouping it and computing its aggregates as exact
  rationals. `RunEvaluation` is the `run_evaluation` step for one dataset.

The backend is an oracle `backend: (nat, string) -> Call`. `backend(i, m)` is what the
request for item `i` with strategy `m` produced. It is either `Raised` or `Returned(reply,
elapsed)`, where `elapsed` is the end reading of the clock minus the start reading.

The records are specified in two layers:

- `ItemRequests` lists the requests that came back, in loop order, and says nothing about
  strings.
- `Build` turns each request into its record with `RecordOf`.

The structural facts (count, order, coverage) are proved on the requests and carried over
to the records by `Build`.

A HTTP 500 answer from the backend is still a JSON body, so the source turns it into a
record. Its response field is missing, so the response is empty and the record does not
score. The model follows the code here. Only a request that raises (a connection error,
the timeout, a body that is not JSON) is skipped.

## Model

| member | source | states |
|---|---|---|
| Text.StripSlice | frontend/evaluation.py:36 | Stripping keeps a contiguous slice of the text. Only whitespace lies before and after the slice, and the slice neither starts nor ends with whitespace. |
| Text.StripIdempotent | frontend/evaluation.py:48 | Stripping a stripped text changes nothing. |
| Text.LowerChars | frontend/evaluation.py:55 | Lowering maps each upper-case letter to its lower-case letter and keeps every other character. No upper-case letter is left. |
| Text.LowerIdempotent | frontend/evaluation.py:55 | Lowering twice is lowering once. |
| Text.LowerAppend | frontend/evaluation.py:55 | Lowering distributes over concatenation. |
| Text.IsSubstringIff | frontend/evaluation.py:55 | The recursive substring search holds exactly when the needle occurs at some position of the haystack. |
| Evaluation.ResponseTime | frontend/evaluation.py:61 | The reported inference time is used when it is present and non-zero. Otherwise (absent or zero) the measured elapsed time is used. |
| Evaluation.EvaluateDataset | frontend/evaluation.py:32-76 | The outer loop returns exactly `Results`: the records built, in loop order, from the requests that came back. |
| Evaluation.EvaluateItem | frontend/evaluation.py:35-75 | The inner loop on item `i` returns the records of that item's requests that came back, in the order of `Methods`. A raised request is skipped and the loop continues. |
| Evaluation.BuildRecord | frontend/evaluation.py:48-75 | The record built from a reply is `RecordOf` for that request. The response is stripped, the score follows the rule, the token counts are copied and the duration is chosen. |
| Evaluation.ScoreRule | frontend/evaluation.py:52-55 | An empty reference never scores. A non-empty reference scores exactly when its lower-case form occurs in the lower-case response (both directions). |
| Evaluation.ScoreContains | frontend/evaluation.py:53-55 | A non-empty reference embedded anywhere in the response scores, whatever surrounds it. |
| Evaluation.ScoreIgnoresCase | frontend/evaluation.py:55 | Lowering the reference or the response beforehand does not change the score. |
| Evaluation.ScoreExample | frontend/evaluation.py:53-55 | Reference "42" scores against "The answer is 42.". |
| Evaluation.Rank | frontend/evaluation.py:12 | Each strategy has a position in `Methods`, and that position holds it. |
| Evaluation.MethodsDistinct | frontend/evaluation.py:12 | No strategy is listed twice in `Methods`. |
| Evaluation.MethodsMatchRegistry | frontend/evaluation.py:12 | The evaluator's strategies are exactly the keys of the backend's template table. |
| Evaluation.AttemptShape | frontend/evaluation.py:41-45 | A request that raised contributes nothing. One that returned contributes itself, for its item and strategy, taken from the dataset and the backend. |
| Evaluation.EvaluationCount | frontend/evaluation.py:38-45 | There are 3 records per item, less one per raised request. A run with no raised request has exactly 3 per item. |
| Evaluation.EvaluationRecords | frontend/evaluation.py:58-75 | Every record is built from its own item and its own reply. Its dataset is the given name, its index is an item position and its strategy is in `Methods`. Its question, reference, response and score are derived as the source does. Its token counts are copied unchanged (absent ones stay absent). Its duration is chosen by `ResponseTime`. |
| Evaluation.EvaluationOrder | frontend/evaluation.py:34-38 | Records come out item-major, and within an item in the order standard, cot, cod. No (item, strategy) pair has two records. |
| Evaluation.EvaluationComplete | frontend/evaluation.py:38-63 | A record for item `i` and strategy `m` exists exactly when `i` is an item position, `m` is in `Methods` and that request did not raise. |
| Evaluation.ItemRequestsCount | frontend/evaluation.py:41-45 | Over the first `n` items, the requests that came back plus those that raised number 3 per item. |
| Summary.Persist | frontend/evaluation.py:91-94 | The saved table has N + M rows. The first N are the old rows in order, followed by the M new records. With no file yet, the table is the new records. |
| Summary.PersistKeepsDuplicates | frontend/evaluation.py:93 | No row is merged or dropped: the table's multiset of rows is the old multiset plus the new one. |
| Summary.PersistAccumulates | frontend/evaluation.py:91-94 | Two runs one after the other leave the same table as one run over both batches. |
| Summary.RunEvaluation | frontend/evaluation.py:84-94 | A run evaluates the dataset and returns the persisted table, old rows followed by the run's records. |
| Summary.Tally | frontend/evaluation.py:98-101 | A group's tallies are consistent. There are no more correct records or token counts than rows, and no token sum without a token count. The group is no larger than the table. |
| Summary.Group | frontend/evaluation.py:98 | A group holds only rows of the table with its dataset and method. |
| Summary.GroupComplete | frontend/evaluation.py:98 | Every row with the group's key is in the group, as many times as it is in the table, and no row with another key is. |
| Summary.TallyCountsGroup | frontend/evaluation.py:98 | A group's size is the number of rows it collects. It is zero exactly when no row has its key. |
| Summary.TallyIsGroupSum | frontend/evaluation.py:98-101 | A group's tallies are the sums over exactly the rows that group collects. |
| Summary.TallyAppend | frontend/evaluation.py:93-98 | The tallies of a concatenated table are the sums of the tallies of its parts. |
| Summary.TallyPersist | frontend/evaluation.py:91-98 | The tallies of the saved table combine those of the old rows and those of the new records. |
| Summary.Percent | frontend/evaluation.py:99 | `100 * c / n` exactly. It lies in [0, 100] when c ≤ n, is 100 when every row counts and 0 when none does. |
| Summary.Mean | frontend/evaluation.py:100-101 | The exact, non-negative mean of `n` values with the given sum. |
| Summary.Accuracy | frontend/evaluation.py:99 | A group's accuracy exists exactly when the group has rows. It is 100 × correct / size and lies in [0, 100]. |
| Summary.AverageTime | frontend/evaluation.py:100 | The mean response time exists exactly when the group has rows, and equals time sum / size. |
| Summary.AverageTokens | frontend/evaluation.py:101 | The token mean is taken over the rows whose total token count is present. It exists exactly when at least one is present. |
| Summary.StatisticsDefined | frontend/evaluation.py:98-101 | Accuracy and mean time exist exactly for the keys that occur in the table. A token mean exists only for such a key. |
| Summary.AccuracyExtremes | frontend/evaluation.py:99 | An all-correct group has accuracy 100. A group with none correct has accuracy 0. |
| Summary.AccuracyExample | frontend/evaluation.py:99 | Two gsm8k/cod rows, one correct and one not, give accuracy 50. |
| Summary.BuildTally | frontend/evaluation.py:98 | The records built for a run under dataset `name` fall in group (d, m) once per request with strategy m when d is `name`, and never otherwise. |
| Summary.ItemRequestsStrategy | frontend/evaluation.py:38-45 | Over the first `n` items, strategy m contributes one request per item on which it returned. |
| Summary.ResultsOtherGroups | frontend/evaluation.py:63-67 | A run's records fall only in groups of the evaluated dataset and a strategy in `Methods`. |
| Summary.RunGroupSizes | frontend/evaluation.py:85-98 | After a run, group (d, m) grows by the number of items on which m returned when d is the evaluated dataset and m is in `Methods`. Every other group keeps its size. |
| Prompts.TemplateShape | backend/app.py:18-31 | Every template is a non-empty, brace-free preamble followed by "Q: {question}\nA:". The preambles start with different letters. |
| Prompts.StandardShape | backend/app.py:18-21 | The standard template is a brace-free preamble followed by the question line. |
| Prompts.CotShape | backend/app.py:22-26 | The chain-of-thought template is a brace-free preamble followed by the question line. |
| Prompts.CodShape | backend/app.py:27-31 | The chain-of-draft template is a brace-free preamble followed by the question line. |
| Prompts.TemplateHasOneSlot | backend/app.py:18-31 | Every template holds `{question}` exactly once and no other brace, and ends with the question line. |
| Prompts.SlotsFramed | backend/app.py:20 | A brace-free preamble followed by the question line holds exactly one slot. |
| Prompts.BracesFramed | backend/app.py:20 | A brace-free preamble followed by the question line holds exactly two braces, the slot's. |
| Prompts.SubstituteFramed | backend/app.py:20 | Substituting into such a template gives preamble ++ "Q: " ++ question ++ "\nA:". |
| Prompts.RenderShape | backend/app.py:17-32 | The rendered prompt is the preamble, then "Q: ", the question verbatim and "\nA:". The question is a substring of the prompt. |
| Prompts.RenderLeavesNoPlaceholder | backend/app.py:17-32 | A question without braces leaves no brace and no slot in the prompt. |
| Prompts.CotAsksForMarker | backend/app.py:23-24 | The chain-of-thought template contains the stop marker "####". |
| Prompts.CodAsksForMarker | backend/app.py:28-29 | The chain-of-draft template contains the stop marker "####". |
| Prompts.StandardOmitsMarker | backend/app.py:18-21 | The standard template does not contain "####". |
| Prompts.NotFramed | backend/app.py:18-31 | A prompt whose first character differs from a preamble's does not have that template's frame. |
| Prompts.RenderFramed | backend/app.py:17-32 | A rendered prompt has its template's frame, and the text inside the frame is the question. |
| Prompts.ParseRender | backend/app.py:17-32 | Parsing a rendered prompt gives back the strategy and the question. |
| Prompts.RenderInjective | backend/app.py:17-32 | Different strategies or different questions never render to the same prompt. |
| Prompts.TemplatesDistinct | backend/app.py:18-31 | No two strategies share a template. |

## Left out

- The HTTP call to the backend and its 60-second timeout are not modelled. The call is the `backend` oracle, and `Raised` stands for every exception the `try` block catches.
- The clock is not modelled. Its two readings appear only as their difference `elapsed`, a natural number.
- Durations and token counts are naturals. Fractional seconds are not modelled.
- Loading the JSON dataset, reading and writing the CSV file, and creating the plots directory are not modelled. The persisted table is a sequence of records that is passed in (`None` when there is no file) and returned. The types a CSV round trip gives back are not modelled.
- The printed summaries, the matplotlib charts and the error message printed when a request raises (frontend/evaluation.py:44) are not modelled: they are output only.
- pandas' floating-point means are computed as exact rationals (`real`) from natural-number tallies.
- pandas' failure on an empty table is not modelled: grouping a table with no rows has no `dataset` column and raises. The model gives every key an empty group instead.
- `str.strip()` and `str.lower()` are modelled on ASCII only: the whitespace set is Python's for code points below 128, and only A–Z are lowered. Unicode case mapping and Unicode whitespace are left out.
- Dataset fields and the reply's `response` field are modelled as strings or absent. The reply's token counts and reported time are optional naturals, and a JSON `null` there is modelled: `resp.get` gives `None`, as for a missing key.
- A `null` or non-string `answer` (frontend/evaluation.py:36) or `response` (frontend/evaluation.py:48) is not modelled. `.strip()` raises on it outside the `try` block and ends the run.
- A `null` question does not raise: Python sends and stores `None`. The model merges it with a missing question, which gives `""`.
- A reply body that is not a JSON object is not modelled.
- The string the evaluator sends is not modelled. The oracle is indexed by item position and strategy, which covers any backend answering each request independently.
- The inner loop is a separate method, `Evaluation.EvaluateItem`. In the source it sits inside `evaluate_dataset`. Behaviour and order are the same.
- The call that fills the `{question}` slot is not part of this model, because the shown text ends with the table. `Prompts.Render` replaces the slot literally, and since the templates hold no other brace this matches `str.format`.
- `Prompts.Render` gives `None` for a key outside the table. The backend's fallback to the chain-of-draft strategy, its lower-casing of the strategy name, the request handler, the model call, the handling of "####" in the output and the interaction log are not part of this model.
- The longer template literals are written as concatenations of shorter literals. Every string is unchanged.
- `frontend/app.py`, the interactive client, is not part of this model.
- Concurrency is not modelled: the shown code is sequential.
