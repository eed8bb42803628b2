# LoCoMo question-answering evaluation, modelled in Dafny

The repository evaluates a language model on the LoCoMo long-conversation
benchmark with a pipeline of scripts. This project models four of them:

- `json_to_nl.py` turns each dataset sample into a plain-text prompt (a header
  naming both speakers, the dialogue sessions sorted by their formatted date,
  three instruction lines, and the numbered questions that are not of category
  5) and an answer key `answers_<i>.json`. The output directory is chosen by
  `get_output_dir`.
- `merge.py` pairs each `answers_<n>.json` with its `prediction_<n>.json` by the
  number in the file name. It takes the first `{...}` block of the model's reply
  as the predictions, attaches each prediction to its answer entry as
  `response`, and numbers all entries `"0"`, `"1"`, ... in one merged dict.
- `score.py` judges every complete merged item one at a time with an LLM. It
  reuses a stored `llm_score`, rewrites the results file after every item, and
  reports per-category and overall means.
- `batch_score.py` does the same judging in batches of `batch_size` keys with one
  LLM call per batch. It skips items already judged, so an interrupted run can
  be resumed. It then coerces the score fields and reports as `score.py` does.

The model is one Dafny module per concern:

- **Shared modules.**
  - `Wrappers`: `Option`, `Result`.
  - `Text`: `str.strip`, `startswith`, `join`, `str(n)`, and string comparison.
  - `Dicts`: an insertion-ordered Python dict.
  - `Json`: JSON values and Python's `str`, `int` and `float` of them.
  - `Runtime`: the collaborators that are not modelled, passed in as arbitrary
    functions.
  - `Items`: the merged-answers store.
- **Helper modules.**
  - `BraceScan`: the regular expression `\{[\s\S]*?\}`.
  - `Aggregate`: the pandas `groupby`/`mean` report.
  - `SessionSort`: the stable `list.sort` by time string.
  - `PosixPath`: `os.path.isabs`, `dirname` and `join`.
- **Script modules.** `BatchScore`, `Score`, `Merge` and `JsonToNl`, one per script.

Loops in the scripts are `method`s with loop invariants, each proved equal to a
recursive specification function. The properties are lemmas about those
functions. The session sort is an in-place insertion sort on an `array`.

The model follows the code as written, also where it departs from what the code evidently intends:

- `convert_scores_to_numeric_or_raise` does raise, with `KeyError`, on a record that
  lacks `bleu_score`, `f1_score` or `llm_score`: its exception handler reads the
  missing field again (`BatchScore.ConvertRecord`).
- A batch item whose judgement failed is stored with `llm_score` 0, and since only
  the presence of `llm_score` is tested, a failed 0 cannot be told from a judged 0
  and a resumed run never judges that item again (`BatchScore.UntouchedKeys`).
- When `send_to_llm` raises inside `evaluate_llm_judge_batch_with_id`, the handler's
  `print` reads `response`, which was never assigned, so the run ends with
  `UnboundLocalError`. The handler's own comment (src/batch_score.py:49) says it returns
  an empty result of the batch's length, that is `None` for every id, which it does
  only when the failure comes after `response` is bound (`BatchScore.JudgeBatch`).
- `score.py` reads `config['is_azure_openai']` with no default at each judge call (src/score.py:91), where
  `batch_score.py` uses `config.get("is_azure_openai", 1)` (src/batch_score.py:85). Without the flag,
  `score.py` ends with `KeyError` at the first complete item that has no stored `llm_score`, after
  rewriting the records of the reused items before it (`Score.MissingAzureFlagStops`).
- `format_datetime` writes dates as `"%B %d, %Y at %I:%M %p"` and the sessions are sorted by that
  text, so they come in alphabetical order of month name (April before January), and by the
  12-hour clock, not in date order (`SessionSort.MonthNamesSortAlphabetically`).
- `get_output_dir` reads `config_path`, which is not in its scope: a relative
  `output_dir` ends the conversion with `NameError` (`JsonToNl.OutputDirCases`).

## Model

| member | source | states |
|---|---|---|
| Text.Strip | src/batch_score.py:42 | `str.strip()`: the result is the input with its leading and trailing white space removed, and no more |
| Text.StripBy | src/batch_score.py:42 | `strip(chars)`: removes exactly the leading and trailing characters of the given set |
| Text.JoinPartAt | src/batch_score.py:34 | every part of `sep.join(parts)` stands at its offset, in input order |
| Text.JoinOffsetsOrdered | src/batch_score.py:34 | the next part starts one separator after the end of the previous one |
| Text.FramedJoinAt | src/batch_score.py:34 | a join wrapped in a head and a tail starts with the head, ends with the tail, and keeps each part at its offset |
| Text.JoinSnoc | src/json_to_nl.py:117 | joining one more line appends the separator and that line |
| Text.Decimal | src/merge.py:58 | `str(n)` is a non-empty run of decimal digits |
| Text.DecimalInjective | src/merge.py:58 | different numbers have different `str` spellings, so the merged keys never collide |
| Text.LexTotal | src/json_to_nl.py:77 | Python's string order is total |
| Text.LexLessTransitive | src/json_to_nl.py:77 | Python's string order is transitive |
| Text.LexLessAsymmetric | src/json_to_nl.py:77 | Python's string order is asymmetric |
| Text.LexLessIrreflexive | src/json_to_nl.py:77 | no string is below itself |
| Dicts.Put | src/merge.py:58 | `d[k] = v`: a new key goes to the end of the key order, an existing key keeps its place, and the stored value is `v` |
| Dicts.Values | src/batch_score.py:146 | `list(d.values())` lists the values in key order, one per key |
| Dicts.DistinctCard | src/batch_score.py:155 | a dict's key list has as many entries as it has keys |
| Json.Truncate | src/batch_score.py:65 | `int` of a float truncates toward zero, for both signs |
| Json.ToInt | src/batch_score.py:65 | `int(v)` keeps an integer and raises on `None`, lists and dicts |
| Json.ToFloat | src/batch_score.py:55 | `float(v)` keeps a float and raises on `None`, lists and dicts |
| BraceScan.CloseFrom | src/batch_score.py:43 | the first `}` at or after a position, or none when there is none |
| BraceScan.ScanFrom | src/batch_score.py:43 | the regex scan from a position finds the first `{` that a later `}` can close, with no `}` between them, and fails exactly when no such pair exists |
| BraceScan.FirstBraceBlock | src/batch_score.py:43-44 | `re.findall(r'\{[\s\S]*?\}', s)[0]` starts with `{`, ends with the first `}` after it, holds no other `}`, and is absent exactly when no `{` has a `}` after it |
| BraceScan.LeftmostSpanUnique | src/batch_score.py:43 | the leftmost match is unique |
| BraceScan.BlockOfLeftmost | src/batch_score.py:43-44 | the first match is the text of the leftmost span, braces included |
| BraceScan.BlockIgnoresBracelessEdges | src/merge.py:18-21 | text without braces on either side does not change the first block |
| BraceScan.StripKeepsBlock | src/batch_score.py:42-43 | stripping characters other than braces from both ends keeps the first block |
| BraceScan.StripOfBlock | src/batch_score.py:45 | `content.strip()` leaves a block as it is |
| Aggregate.Tally | src/batch_score.py:156 | the overall statistics count every row once, and no column counts more numeric cells than there are rows |
| Aggregate.GroupIsTallyOfCategory | src/batch_score.py:150-155 | `groupby("category")` has a group exactly for each category some row has, and that group holds the statistics of exactly those rows |
| Aggregate.FindMissingColumn | src/batch_score.py:148-153 | names a column that no row has, or finds that every column is present |
| Aggregate.FirstNotNumericScore | src/batch_score.py:150-153 | names a score column with a non-numeric cell, or finds that every score cell is numeric or missing |
| Aggregate.AggregateRows | src/batch_score.py:146-156 | the report succeeds exactly when every column exists, every category is numeric and every score cell is a number or missing; its overall row and groups are then the statistics of all rows and of each category's rows |
| Aggregate.CategoryCheckedFirst | src/batch_score.py:147-153 | `to_numeric` on the categories runs before `agg`: with a `category` column, a non-numeric category is the error whatever the score columns, and a missing `category` column is the error exactly when no row has one |
| Aggregate.ScoreErrorHasCell | src/batch_score.py:150-153 | a failure on a score column points at a row with a non-numeric cell there |
| Aggregate.NotNumericCellFails | src/batch_score.py:150-153 | one non-numeric score cell makes the report fail |
| Aggregate.CountIsRecordsInCategory | src/batch_score.py:155 | `count` per category is the number of stored records in that category |
| Aggregate.OverallCountsEveryRecord | src/batch_score.py:156 | the overall means run over every stored record |
| PosixPath.SlashEnd | src/json_to_nl.py:29 | the position just past the last slash, or 0 when there is none |
| PosixPath.DirNameShape | src/json_to_nl.py:29 | `dirname` is empty, all slashes, or does not end with a slash |
| PosixPath.JoinedIsBeside | src/json_to_nl.py:29 | `dirname(join(dirname(p), name))` is `dirname(p)` for a plain name |
| SessionSort.MonthNamesSortAlphabetically | src/json_to_nl.py:6-9 | with times written by `format_datetime` and sorted as text at line 77, two sessions of the same year, in January and in April, come out with April first |
| SessionSort.SortSorted | src/json_to_nl.py:77 | the sorted sessions are in ascending order of their time strings |
| SessionSort.SortStable | src/json_to_nl.py:77 | sessions with equal time strings keep their original order |
| SessionSort.SortPermutes | src/json_to_nl.py:77 | the sort neither adds nor drops a session |
| SessionSort.InsertSorted | src/json_to_nl.py:77 | inserting into a sorted list keeps it sorted |
| SessionSort.InsertPlace | src/json_to_nl.py:77 | the shifting loop puts the session right after those not moved |
| SessionSort.InsertLast | src/json_to_nl.py:77 | one pass of the in-place sort inserts `a[i]` into the sorted prefix and changes nothing after it |
| SessionSort.SortSessions | src/json_to_nl.py:77 | the in-place sort leaves the array as the stable sort by time of its old contents |
| Score.Verdict | src/score.py:30-44 | the judge returns the string "1", the string "0", `None`, or the integer 0; the integer 0 exactly when the call or the content lookup raises |
| Score.StrippedStartsWith | src/score.py:32-36 | the stripped reply starts with a non-space character exactly when that character is its first non-space character |
| Score.VerdictByFirstCharacter | src/score.py:32-40 | the verdict is "1", "0" or `None` exactly as the reply's first non-space character is `1`, `0` or something else |
| Score.ItemRecord | src/score.py:93-101 | the record written for an item has exactly the seven fields, with the item's question and category and the `llm_score` given |
| Score.ScoreItem | src/score.py:75-103 | an incomplete item is skipped; a complete one is judged only when it has no stored `llm_score`, its record is replaced, and the file is rewritten once |
| Score.ScoreRunAppend | src/score.py:74 | the loop over two runs of keys is the loop over their concatenation |
| Score.ScoreRunKeeps | src/score.py:74-77 | a key that is not a complete item keeps its record, or stays absent |
| Score.ScoreRunCounts | src/score.py:87-103 | the judge is called once per complete item without a stored `llm_score`, and the file is written once per complete item |
| Score.ScoreRunRecord | src/score.py:87-101 | a complete item's record is built from its fields and from its stored `llm_score`, or else from the verdict of the call made for it |
| Score.ScoreRunJudges | src/score.py:88-100 | every complete item ends with an `llm_score` |
| Score.ScoreRunSettles | src/score.py:88-101 | after a run, every complete item's record is the one rebuilt from its own `llm_score` |
| Score.SettledRunIsStable | src/score.py:88-89 | from a settled store a run makes no judge call and changes no record |
| Score.LlmJudgeIndexFree | src/score.py:31 | a `send_to_llm` that answers a prompt the same way each time gives a judge that does too |
| Score.ScoreFromSameStore | src/score.py:68-101 | with such a judge, two runs from the same store end in the same store |
| Score.ScoreResume | src/score.py:68-103 | a run stopped after any item and restarted from the store it last wrote ends in the store of the uninterrupted run |
| Score.EvaluateEffect | src/score.py:74-101 | after `main`, every complete item has an `llm_score` and every other key's record is as it was on disk |
| Score.EvaluateCounts | src/score.py:87-103 | `main` calls the judge once per complete item not yet judged and writes the file once per complete item |
| Score.RescoreChangesNothing | src/score.py:68-125 | scoring again from the store a run left makes no judge call, changes no record, and reports the same |
| Score.TextScoreSpoilsReport | src/score.py:106-114 | a stored textual `llm_score` makes the report raise |
| Score.TextVerdictSpoilsReport | src/score.py:34-37 | as written, a model that answers `1` or `0` for a new item makes the report raise |
| Score.NumericVerdict | src/score.py:34-44 | the corrected verdict is always the integer 1, the integer 0, or `None` |
| Score.NumericVerdictAgrees | src/score.py:34-44 | the corrected verdict says what the textual one says, in each of its cases |
| Score.NumericJudgeKeepsScoresNumeric | src/score.py:88-100 | a judge that answers with numbers keeps every stored `llm_score` numeric |
| Score.NumericLlmJudgeIsNumeric | src/score.py:31-44 | the judge with the corrected verdict answers with numbers only |
| Score.NumericVerdictsReport | src/score.py:106-114 | with the corrected verdict, the `llm_score` column never makes the report fail |
| Score.FirstFresh | src/score.py:74-91 | the position of the first complete item with no stored `llm_score`: none before it is such an item, and it is one unless it is the end |
| Score.JudgedBefore | src/score.py:88 | over distinct keys, the store built before a key has its `llm_score` exactly when the store read from disk does |
| Score.MissingAzureFlagStops | src/score.py:88-91 | without `is_azure_openai` in `config`, the run fails exactly when some complete item has no stored `llm_score` |
| Score.MissingAzureFlagUnread | src/score.py:88-91 | a run without the flag that does not fail is the run with it and makes no judge call |
| Score.ScoreKey | src/score.py:75-103 | one pass of the loop body moves the specified run on by one key, or stops at the first fresh item when the flag is missing |
| Score.ScoreLoop | src/score.py:74-103 | the item loop computes the specified run: store, judge calls and writes; without the flag it stops, after the same writes, at the first fresh item |
| Score.RunScoring | src/score.py:68-125 | `main` gives the specified outcome, with or without `is_azure_openai`: the writes, the judge calls and the report, or the `KeyError` after the writes made before it |
| BatchScore.PromptLayout | src/batch_score.py:18-34 | the prompt starts with the header, ends with the example suffix, and holds each item's block at its offset, one newline apart |
| BatchScore.CleanKeepsBlock | src/batch_score.py:42-43 | the fence and white-space stripping never changes the first brace block of the reply |
| BatchScore.JudgeBatch | src/batch_score.py:37-49 | a raised call ends the run, because `response` is unbound in the handler; a reply without content, without a block, or whose block is not JSON gives `None` for every item; otherwise the parsed block |
| BatchScore.StoredVerdict | src/batch_score.py:126-138 | a missing or `None` verdict is stored as 0, any other goes through `int`, which may raise, and a verdict map that is not a dict ends the run |
| BatchScore.FailedJudgementScoresZero | src/batch_score.py:49 | after a failed judgement every item of the batch is stored as 0 |
| BatchScore.Pending | src/batch_score.py:105-115 | a batch has no more pending items than keys |
| BatchScore.PendingExactlyEligible | src/batch_score.py:105-115 | exactly the complete keys without a stored `llm_score` are pending, each once, in slice order, built from the item |
| BatchScore.NothingEligibleNothingPending | src/batch_score.py:117-118 | a slice with nothing eligible has no pending items |
| BatchScore.NewRecord | src/batch_score.py:131-139 | the new record has exactly the seven fields and the stored verdict as `llm_score` |
| BatchScore.ApplyOutcome | src/batch_score.py:122-139 | the write loop succeeds exactly when every item's write does |
| BatchScore.ApplyKeeps | src/batch_score.py:122-139 | a key is in the new store exactly when it was stored or is pending, and a key not pending keeps its record |
| BatchScore.ApplyWrites | src/batch_score.py:131-139 | each pending key holds the record its write produced |
| BatchScore.BatchSkipped | src/batch_score.py:117-118 | a slice makes no call and no write exactly when none of its keys is eligible |
| BatchScore.BatchFails | src/batch_score.py:120-139 | a slice ends the run exactly when it was judged and the judge failed or some verdict cannot be stored |
| BatchScore.BatchWrites | src/batch_score.py:120-142 | after a judged slice, each eligible key holds the record built from its verdict |
| BatchScore.BatchKeeps | src/batch_score.py:102-142 | a key not eligible in a slice keeps its record, or stays absent |
| BatchScore.RunSlices | src/batch_score.py:102-142 | the writes only grow; the store is the last one written; the judge calls are one per write plus the call that crashed |
| BatchScore.Step | src/batch_score.py:102-142 | one slice writes at most once; a crash writes nothing and stops every later slice |
| BatchScore.CrashSticks | src/batch_score.py:102-142 | once the run has crashed, later slices change nothing |
| BatchScore.SlicesFlatten | src/batch_score.py:102-103 | the slices `keys[i:i + n]`, put together, are the key list |
| BatchScore.SlicesSizes | src/batch_score.py:102-103 | each slice has between 1 and `n` keys, and only the last may be short |
| BatchScore.KeyInOneSlice | src/batch_score.py:102-103 | every key lies in exactly one slice |
| BatchScore.SlicesWithin | src/batch_score.py:102-103 | each slice is made of distinct keys of the list |
| BatchScore.SlicesAppend | src/batch_score.py:102-103 | cutting the key list after a whole number of slices cuts the slice list there |
| BatchScore.ConvertRecord | src/batch_score.py:53-68 | coercing a record fails exactly when it lacks a score field |
| BatchScore.ConvertRecordEffect | src/batch_score.py:53-68 | coercion keeps the fields, converts `f1_score`, converts `llm_score` or else leaves it and sets `bleu_score` to 0 |
| BatchScore.ConvertKeysOutcome | src/batch_score.py:53-70 | the coercion loop fails exactly when some record does, and names such a record |
| BatchScore.ConvertKeysAt | src/batch_score.py:53-70 | after the loop, a visited record holds its coerced value and any other is unchanged |
| BatchScore.ConvertAllEffect | src/batch_score.py:52-70 | coercion keeps the keys, replaces each record by its coercion, and fails exactly when some record lacks a score field |
| BatchScore.ConvertRecordIdempotent | src/batch_score.py:53-68 | coercing a coerced record changes nothing |
| BatchScore.ConvertAllIdempotent | src/batch_score.py:52-70 | coercing a coerced store changes nothing |
| BatchScore.StepKeeps | src/batch_score.py:105-139 | a slice leaves every key it does not find eligible alone |
| BatchScore.StepJudges | src/batch_score.py:105-139 | a slice that does not crash leaves each of its complete keys judged |
| BatchScore.RunKeeps | src/batch_score.py:102-142 | a key that is never eligible keeps its record, or stays absent, through the run |
| BatchScore.RunJudgesAll | src/batch_score.py:102-142 | a run that does not crash leaves every complete key judged |
| BatchScore.RunSkipsJudged | src/batch_score.py:113-118 | over slices whose complete keys are all judged, the run changes nothing |
| BatchScore.RunAppend | src/batch_score.py:102 | running two lists of slices in turn is running their concatenation |
| BatchScore.LlmJudgeIndexFree | src/batch_score.py:38-40 | a `send_to_llm` that answers a prompt the same way each time gives a batch judge that does too |
| BatchScore.RunFromSameStore | src/batch_score.py:102-142 | with such a judge, two runs from the same store end alike and append the same writes |
| BatchScore.EveryCompleteItemJudged | src/batch_score.py:102-142 | after a run without a crash, every complete item has a judged record |
| BatchScore.UntouchedKeys | src/batch_score.py:107-114 | a key that is not a complete item, or was judged before (a failed 0 included), keeps its record through the loop |
| BatchScore.RerunChangesNothing | src/batch_score.py:93-163 | running again on the store a crash-free run left makes no call, writes nothing, and reports the same |
| BatchScore.RestartSkipsPrefix | src/batch_score.py:113-118 | a run restarted from the store of its first slices skips those slices |
| BatchScore.SlicedResume | src/batch_score.py:93-142 | a run resumed after any slice ends where the uninterrupted run ends, and the two parts make its calls and writes |
| BatchScore.ResumeAfterInterruption | src/batch_score.py:93-142 | `main` stopped after any slice and restarted from the file it last wrote ends with the same store and crash, and together makes the same calls and writes |
| BatchScore.ResumedRunReportsTheSame | src/batch_score.py:145-163 | the resumed run reports what the uninterrupted run reports |
| BatchScore.CollectPending | src/batch_score.py:103-115 | the inner key loop builds exactly the pending items |
| BatchScore.ApplyVerdicts | src/batch_score.py:122-139 | the write loop computes the specified store or crash |
| BatchScore.ProcessSlice | src/batch_score.py:103-139 | one slice: collect, judge and write, as specified |
| BatchScore.CoerceRecord | src/batch_score.py:54-68 | the three `try` blocks compute the specified coercion of one record |
| BatchScore.ConvertScores | src/batch_score.py:52-70 | the coercion loop computes the specified store, or names the record that raises |
| BatchScore.Report | src/batch_score.py:145-156 | coercion then the report, as specified |
| BatchScore.NextSlice | src/batch_score.py:103-142 | the body of the slice loop is one step of the specified run |
| BatchScore.RunLoop | src/batch_score.py:99-142 | the slice loop, stopping at the first crash, ends in the state of the specified run over the slices `keys[i:i + n]` |
| BatchScore.RunEvaluation | src/batch_score.py:84-163 | `main` gives the specified outcome; a zero batch size raises and a negative one runs no slice |
| Merge.RemoveEscapedQuotes | src/merge.py:14 | `replace('\\"', '')` never lengthens the content |
| Merge.NoEscapedQuoteUnchanged | src/merge.py:14 | content without a backslash-quote pair is unchanged |
| Merge.RemovalKeepsOthers | src/merge.py:14 | only backslashes and quotes are removed; every other character survives, in order |
| Merge.RemovalSplits | src/merge.py:14 | removal works piece by piece unless the pieces meet in a backslash-quote pair |
| Merge.WrappedObjectExtracted | src/merge.py:14-22 | a flat object in text without braces is what gets parsed |
| Merge.NestedObjectTruncated | src/merge.py:18-21 | a nested object is cut at its first `}`, so the outer object is never closed |
| Merge.FirstDigit | src/merge.py:39 | the position of the first digit at or after a position, or none when there is none |
| Merge.DecimalReadsBack | src/merge.py:39 | reading back `str(n)` as digits gives `n` |
| Merge.NumberOfName | src/merge.py:39 | a name of non-digits, `str(n)`, and text not starting with a digit has number `n` |
| Merge.NumberMap | src/merge.py:40-41 | every number maps to the position of a file in the list |
| Merge.NumberMapBuilt | src/merge.py:39-41 | the map is built exactly when every name carries a number |
| Merge.NumberMapLastWins | src/merge.py:40-41 | the file kept for a number carries it, and no later file does |
| Merge.NumberMapCovers | src/merge.py:40-41 | every number a name carries is in the map |
| Merge.SortedIds | src/merge.py:46 | `sorted(set)` is strictly ascending and holds exactly the set's elements |
| Merge.Least | src/merge.py:46 | the least element of a non-empty set |
| Merge.SampleEntries | src/merge.py:54-57 | a sample that succeeds gives one entry per answer key |
| Merge.SampleEntryAt | src/merge.py:54-57 | each entry is its answer entry, with `response` set to the prediction under its key where there is one and untouched otherwise |
| Merge.Sample | src/merge.py:48-57 | a paired sample gives one entry per answer key |
| Merge.UnreadablePredictionsFail | src/merge.py:50-55 | predictions that cannot be read stop the script, unless the answers file is empty |
| Merge.ConcatLayout | src/merge.py:46-59 | a merge that succeeds holds each sample's entries after those of the samples before it |
| Merge.SampleEntryMerged | src/merge.py:54-57 | an entry of a sample that succeeds gets the prediction under its key, where there is one |
| Merge.MergedEntryAt | src/merge.py:46-59 | entry `i` of sample `j` is placed after the entries of the samples before `j` |
| Merge.Indices | src/merge.py:58 | the keys "0" to "n-1", in order |
| Merge.NumberedFresh | src/merge.py:58-59 | the next `global_idx` is not yet a key |
| Merge.NumberedKeys | src/merge.py:58-59 | the merged keys are "0", "1", ... in order |
| Merge.NumberedAt | src/merge.py:58-59 | entry `i` is stored under `str(i)` |
| Merge.PairedWhenNumbered | src/merge.py:39-41 | pairing fails exactly when some file name has no number |
| Merge.PairedNumbers | src/merge.py:46 | the paired numbers are strictly ascending |
| Merge.PairedFiles | src/merge.py:46-48 | pair `j` joins the last answers file and the last prediction file carrying the `j`-th number |
| Merge.PairedCovers | src/merge.py:46 | a number both an answers file and a prediction file carry is paired |
| Merge.PairedOnlyCommon | src/merge.py:46 | every paired number is carried by an answers file and by a prediction file |
| Merge.MergedKeysContiguous | src/merge.py:43-59 | the merged dict holds exactly the keys "0" to "n-1", `n` being the paired entry count, and `global_idx` ends at `n` |
| Merge.MergedEntryPlaced | src/merge.py:54-59 | entry `i` of sample `j` is stored under `str` of the count of entries before it, with its response attached |
| Merge.UnreadablePredictionsStopMerge | src/merge.py:52-56 | unreadable predictions for a non-empty answers file make the merge fail |
| Merge.AddEntry | src/merge.py:55-59 | the inner loop body stores the entry, with its response, under `str(global_idx)` |
| Merge.MergeEntries | src/merge.py:54-59 | the loop over one answers file numbers its entries on from `global_idx` |
| Merge.MergeSample | src/merge.py:47-59 | one paired sample, read and merged, as specified |
| Merge.MergeFiles | src/merge.py:33-59 | `main`'s pairing and merge loop compute the specified merge |
| JsonToNl.Lookup | src/json_to_nl.py:61-62 | `v[key]` succeeds exactly on a dict holding the key, and gives its value |
| JsonToNl.OutputDirCases | src/json_to_nl.py:17-31 | succeeds exactly for an absolute configured directory, which is kept, or for no configured directory and a string dataset path, giving `locomo10_output` beside the dataset; a relative directory raises `NameError` |
| JsonToNl.FormatDate | src/json_to_nl.py:72 | `format_datetime` fails only with its own error |
| JsonToNl.Collect | src/json_to_nl.py:66-74 | the session collection fails only on a date that does not format |
| JsonToNl.SelectedMembers | src/json_to_nl.py:67-71 | a key is collected exactly when it is a `session_` key, not a `_date_time` key, and its date is stored |
| JsonToNl.CollectOk | src/json_to_nl.py:66-74 | the collection succeeds exactly when every selected date formats, with one session per selected key |
| JsonToNl.CollectAt | src/json_to_nl.py:70-74 | session `i` holds the formatted date and the dialogue of the `i`-th selected key |
| JsonToNl.CollectStops | src/json_to_nl.py:67-74 | a failed date ends the collection |
| JsonToNl.Flatten | src/json_to_nl.py:80-91 | the lines fail only with a failure of the sample's content |
| JsonToNl.FlattenOk | src/json_to_nl.py:80-91 | the lines of a run of parts exist exactly when every part's do |
| JsonToNl.FlattenFirstError | src/json_to_nl.py:80-91 | the failure is that of the first failing part |
| JsonToNl.ImageLines | src/json_to_nl.py:89-90 | one `img(url) (caption)` line per url, in order |
| JsonToNl.MessageLines | src/json_to_nl.py:83-90 | a message fails only with a failure of the sample's content |
| JsonToNl.MessageShape | src/json_to_nl.py:83-90 | a message's lines are its `speaker：text` line, then image lines, present only for a truthy `img_url` |
| JsonToNl.SessionLines | src/json_to_nl.py:80-91 | a session fails only with a failure of the sample's content |
| JsonToNl.SessionFramed | src/json_to_nl.py:81-91 | a session's lines open with its date and close with an empty line |
| JsonToNl.QaStep | src/json_to_nl.py:102-112 | one question fails only with a failure of the sample's content |
| JsonToNl.Kept | src/json_to_nl.py:101-104 | the asked positions are ascending positions of the list |
| JsonToNl.KeptMembers | src/json_to_nl.py:101-104 | a position is asked exactly when its question is not of category 5 |
| JsonToNl.QaKeys | src/json_to_nl.py:101-112 | one line and one answer key entry per asked question, the keys being their positions |
| JsonToNl.QaAt | src/json_to_nl.py:105-112 | the `i`-th asked question's line is `idx:question`, and its entry under `str(idx)` holds its category, answer and question |
| JsonToNl.QaSkipsCategoryFive | src/json_to_nl.py:102-108 | a question has an answer key entry exactly when its category is not 5, integer or float |
| JsonToNl.QaObjects | src/json_to_nl.py:102 | the QA loop completes only when every QA pair is a dict |
| JsonToNl.QaStops | src/json_to_nl.py:101-112 | a failing question ends the QA loop |
| JsonToNl.HeaderLine | src/json_to_nl.py:60-63 | the header fails only on a missing speaker |
| JsonToNl.SampleLines | src/json_to_nl.py:57-112 | a sample fails only with a failure of its content |
| JsonToNl.SampleLayout | src/json_to_nl.py:57-112 | the header naming both speakers comes first, the three instruction lines come just before the questions, and the questions come last, each starting with its answer key |
| JsonToNl.TextOpensWithHeader | src/json_to_nl.py:60-63 | the text opens with the header and its own newline |
| JsonToNl.FilesDistinct | src/json_to_nl.py:115-122 | no two files of a run share a path |
| JsonToNl.WriteAllOutcome | src/json_to_nl.py:56-122 | the run writes the samples up to the first that raises and stops with its failure; it completes exactly when every sample converts |
| JsonToNl.WrittenAt | src/json_to_nl.py:115-122 | the `i`-th written pair is sample `i`'s text and answer key under `sample_i.txt` and `answers_i.json` |
| JsonToNl.WriteAllStops | src/json_to_nl.py:56-122 | once a sample has raised, the rest change nothing |
| JsonToNl.ConversionChecksFirst | src/json_to_nl.py:37-46 | a missing dataset and a dataset path that does not exist are reported exactly when they occur, and before any file is written |
| JsonToNl.CollectSessions | src/json_to_nl.py:66-74 | the key loop computes the specified sessions |
| JsonToNl.EmitMessage | src/json_to_nl.py:83-90 | the message body, image loop included, computes the specified lines |
| JsonToNl.EmitSession | src/json_to_nl.py:81-91 | one session's loop computes the specified lines |
| JsonToNl.EmitSessions | src/json_to_nl.py:80-91 | the session loop computes the specified lines |
| JsonToNl.CollectQa | src/json_to_nl.py:98-112 | the QA loop computes the specified lines and answer key |
| JsonToNl.ConvertOne | src/json_to_nl.py:57-117 | one pass of the sample loop, with the sort in place, computes the specified text and answer key |
| JsonToNl.Convert | src/json_to_nl.py:36-122 | the checks and the sample loop compute the specified run |

## Left out

- File I/O, `argparse`, `print`, `tqdm`, `time.sleep` and `os.makedirs` are not modelled. `load_config` and every `json.load` of a file are taken as already parsed inputs. The files written are the sequence of stores, or of text and answer-key pairs, handed out in order; the `json.dump` layout is not modelled.
- `send_to_llm`, `json.loads`, `calculate_metrics`, `calculate_bleu_scores`, `datetime.strptime`/`strftime` and Python's parsing of numbers are arbitrary functions passed in (`Runtime.Externals`). `repr` of floats, lists and dicts is one of them too. The network settings `model`, `api_url` and `api_key` are only arguments of `send_to_llm` and are left out. So is the value of `is_azure_openai`; only whether `score.py`'s `config` holds it is modelled (`Score.EvaluateConfig`).
- `sorted(output_dir.glob(...))` is taken as the given, already sorted file lists. `os.path.exists` is an arbitrary predicate on the `dataset` value.
- Floating point: scores and means are exact reals, and `round(4)` and the `to_string` layout of the report are not modelled. Pandas' dtype inference is reduced to three kinds of cell: number, missing, and not numeric.
- Merge.ExtractNumber: `\d` is limited to the ASCII digits; Python's `re` also matches other Unicode decimal digits.
- BatchScore.ResumeAfterInterruption: holds only for a `send_to_llm` that answers a prompt the same way every time (`SendIndexFree`), since a resumed run makes its calls at other positions of the call sequence. Score.ScoreResume has the same hypothesis.
- Every record of `data` and of the results file is taken to be a dict (`Items.Store`). For a record that is a string or a list, the `"question" in item` tests of src/batch_score.py:108-111 and src/score.py:75 would test for a substring or a list member, and the `item[...]` lookups after them would raise; those records are not modelled.
- A dataset sample is modelled as a conversation dict and a `qa` value, so a sample that is not a dict, or lacks `conversation` or `qa`, is not modelled.
- JsonToNl.Items: a non-empty dict is not iterated; the model fails with `NotIterable` where Python would run over its keys. For `qa` and a session's dialogue Python fails too, since each key is a string and `.get` or `["speaker"]` on it raises, only with another exception. For a dict-valued `img_url` Python writes one `img(key) (caption)` line per key, which the model does not capture: it stops the conversion there instead.
- JsonToNl.ConvertOne: the key order of the inner dicts written to the answer key is not modelled.
- JsonToNl.Instructions: the second line keeps the doubled braces `{{"0":"xx","1":"xx"}}` literally, as the script writes it without `format`.
- The configuration lookups made before the loops of `batch_score.py` and `score.py` (`config["model"]` and so on) and the `output_dir.rstrip("/")` path building are not modelled; the stores are inputs.
- `get_answer_from_llm.py` is not part of this model.

## Findings

| source | as written | input that shows it | evidently intended | confidence | as-written member | corrected member |
|---|---|---|---|---|---|---|
| src/score.py:34-37 | `evaluate_llm_judge` returns the strings "1" and "0", which `main` stores as `llm_score` | any run in which the model answers one new complete item with a reply starting with `1` or `0` | a numeric verdict, so that `mean` over `llm_score` can be taken | medium, not executed (pandas raises `TypeError` on the mean of an object column of strings) | Score.TextVerdictSpoilsReport | Score.NumericVerdictsReport |
