# Batched completion dispatch of `run.py`, modelled in Dafny

`run.py` (gpt-human-eval) runs a code-completion benchmark against a chat
completion service. The model covers its core:

- **Extraction** (`Extraction.dfy`). The pattern
  ```` ```(?:[Pp]ython|[Pp]y)\s*([\s\S]+?)\s*``` ```` (run.py:31) is searched
  for in a response, and `get_completion` keeps group 1 of the match, or the
  whole response when there is no match (run.py:41-49). The matcher follows
  the order in which Python's backtracking `re` engine tries things:
  - start positions from left to right;
  - `[Pp]ython` before `[Pp]y`;
  - the first `\s*` greedily;
  - the body lazily;
  - the second `\s*` greedily, so the closing fence must come right after
    the longest whitespace run that follows the body.

  `IsMatch` says declaratively what a match is. `Reported` says which match
  the engine reports. The lemmas show that the matcher returns exactly that
  match. `\s` is the set of characters for which Python's `str.isspace()`
  holds.
- **Worked responses** (`ExtractionExamples.dfy`). Concrete responses and
  what is kept from each.
- **Batching** (`Batching.dfy`). `Chunks` is the sequence of batches that
  `get_results` flushes. Every batch has 15 items except possibly the last.
- **Dispatch** (`Dispatch.dfy`). It models:
  - the retry policy `stop_after_attempt(6)`;
  - `get_completion` and `process_command`;
  - one flush: the thread pool, whose results are gathered in submission
    order, then the appends to the output file;
  - `get_results` itself, as an imperative method over a `ResultsFile`
    object.

  The method is proved against `RunBatches`, a function that states the
  outcome of the run. The lemmas about `RunBatches` then state what the run
  guarantees.

The completion service is a parameter of type `Service`. For a request and
an attempt number it gives the response content, or `None` when that attempt
raised. The item processor handed to `GetResults` is
`Processor(service, model)`, that is, `process_command` bound to one model.

Three points of `run.py`'s behaviour that a reader might expect otherwise:

- The label is case-flexible only in its first letter (`[Pp]ython`,
  `[Pp]y`). It is not matched case-insensitively: ```` ```PYTHON ```` does
  not open a block (`ExtractionExamples.UpperCaseLabelKept`).
- A call that fails six times raises out of `future.result()`. The batch
  then writes nothing, and the exception ends `get_results`. No item is
  skipped and the run does not go on. The model returns `ok == false` at
  that point.
- Results are written in submission order, which is input order, not in the
  order the calls complete. The list comprehension over the futures waits
  for each one in turn.

## Model

| member | source | states |
|---|---|---|
| Extraction.IsSpace | run.py:31 | `\s` in a `str` pattern: exactly the characters for which `str.isspace()` holds (tab to carriage return, the file, group, record and unit separators, space, U+0085, U+00A0, U+1680, U+2000-U+200A, U+2028, U+2029, U+202F, U+205F, U+3000) |
| Extraction.IsMatch | run.py:31 | What a match of the pattern is: a fence, then `[Pp]ython` or `[Pp]y`, whitespace only up to the body, a non-empty body, whitespace only up to a closing fence; `SearchReports` and `ReportedExists` tie the matcher to it |
| Extraction.Reported | run.py:31 | The engine's preference among matches: leftmost start, then the long label, then the longest leading whitespace, then the shortest body; `ReportedUnique` shows it picks one match |
| Extraction.SpaceRun | run.py:31 | A greedy `\s*` at i consumes only whitespace and stops at the end or at a non-whitespace character |
| Extraction.CloseFrom | run.py:31 | The lazy body with the trailing `\s*`: the result is the least body end at which the closing fence follows the whitespace run; no smaller end works |
| Extraction.ClosesAt | run.py:31 | The trailing `\s*` and the closing fence: a body ending at e is closed when the fence follows the longest whitespace run at e; `CloseAfterRun` shows no shorter run can close it |
| Extraction.BodyFrom | run.py:31 | The lazy `[\s\S]+?`: a body starting at b takes at least one character and ends at the first end `CloseFrom` accepts |
| Extraction.TrySpace | run.py:31 | Backtracking of the leading `\s*` from longest to shortest: the first body start, from the right, for which a body exists; no later start has one |
| Extraction.FromLabel | run.py:31 | The leading `\s*` after a label: backtracking starts from the longest whitespace run; `FromLabelIsMatch` and `FromLabelComplete` state what it yields |
| Extraction.MatchAt | run.py:31 | The attempt at position i, `[Pp]ython` tried before `[Pp]y`: what it returns is a match starting at i |
| Extraction.FromLabelIsMatch | run.py:31 | An attempt that gets past its label yields a match of the pattern |
| Extraction.SearchFrom | run.py:42 | `pattern.search`: the match found comes from the leftmost start at which an attempt succeeds; every earlier attempt fails |
| Extraction.Extract | run.py:42-47 | The kept text is the response itself or group 1 of a match |
| Extraction.CloseAfterRun | run.py:31 | A closing fence preceded only by whitespace sits exactly where the greedy `\s*` stops |
| Extraction.SpaceWithinRun | run.py:31 | Leading whitespace never reaches past the greedy run |
| Extraction.MatchAtComplete | run.py:31 | Every match is found by the attempt at its start, which prefers the long label, the longest leading whitespace and then the shortest body |
| Extraction.AttemptLong | run.py:31 | When `[Pp]ython` leads to a body, the attempt reports that match |
| Extraction.AttemptShort | run.py:31 | When only `[Pp]y` leads to a body, the attempt reports the short-label match |
| Extraction.FromLabelComplete | run.py:31 | After a label, a whitespace-prefixed body ending before a closing fence guarantees a result, with a start no earlier and, for the same start, an end no later |
| Extraction.SearchReports | run.py:42 | The match the search returns is the `Reported` one: leftmost, long label preferred, greedy leading space, lazy body |
| Extraction.ReportedUnique | run.py:31 | At most one match satisfies `Reported`: the preference order leaves no ambiguity |
| Extraction.ExtractMatched | run.py:42-45 | When a match is reported, the completion is its group 1, a non-empty slice strictly shorter than the response |
| Extraction.ReportedExists | run.py:42 | If the pattern matches anywhere, the search finds the reported match |
| Extraction.FallbackIff | run.py:42-47 | The response comes back unchanged exactly when the pattern has no match |
| ExtractionExamples.ExplainedFences | run.py:31 | The prose-then-block response has fences only at 15 and 43 |
| ExtractionExamples.ExplainedMatch | run.py:31 | The `python` block of that response is a match |
| ExtractionExamples.ExplainedCandidates | run.py:31 | Every other match of that response starts at the same fence and loses to it in the preference order |
| ExtractionExamples.ExplainedReported | run.py:42 | That block is the reported match |
| ExtractionExamples.ExplainedBody | run.py:45 | Its group 1 is `def f(): return 1` |
| ExtractionExamples.ExplainedKeepsCode | run.py:41-49 | Prose before a block is dropped; only the code is kept |
| ExtractionExamples.UnfencedNoMatch | run.py:42 | A response without a fence has no match |
| ExtractionExamples.UnfencedKept | run.py:46-47 | A response without a fence is kept unchanged |
| ExtractionExamples.UpperCaseNoMatch | run.py:31 | `PYTHON` is not a label: no match |
| ExtractionExamples.UpperCaseLabelKept | run.py:31-47 | A block labelled `PYTHON` is kept unchanged, fences included |
| ExtractionExamples.BareLabelReported | run.py:31 | In ```` ```python``` ```` the long label cannot match (the body is non-empty), so `[Pp]y` with body `thon` is reported |
| ExtractionExamples.BareLabelBody | run.py:45 | That body is `thon` |
| ExtractionExamples.BareLabelYieldsThon | run.py:41-49 | ```` ```python``` ```` yields `thon` |
| ExtractionExamples.NewlineOnlyCandidates | run.py:31 | In a block holding only a newline, every match starts at 0, and the long label gives the body start 9 |
| ExtractionExamples.NewlineOnlyReported | run.py:31 | The newline itself is the reported body, because the body may not be empty |
| ExtractionExamples.NewlineOnlyBlock | run.py:41-49 | A block holding only a newline yields that newline |
| ExtractionExamples.TwoBlocksMatch | run.py:31 | The first of two blocks is a match |
| ExtractionExamples.TwoBlocksCandidates | run.py:31 | A match at the first fence has the `py` label, and its body starts no later than the `x` |
| ExtractionExamples.TwoBlocksReported | run.py:42 | The first block is the reported match |
| ExtractionExamples.TwoBlocksBody | run.py:45 | Its group 1 is `x` |
| ExtractionExamples.FirstOfTwoBlocks | run.py:41-49 | Of two blocks, only the first one's code is kept |
| Batching.Chunks | run.py:71-101 | The batches `get_results` flushes, in order: runs of 15 consecutive items, the last possibly shorter; `ChunkAt`, `ChunkSizes` and `ChunksFlatten` state their shape |
| Batching.FlattenAppend | run.py:84-86 | Writing batches one after another writes their concatenation |
| Batching.ChunkAt | run.py:71-92 | There are ceil(N / 15) batches; batch k holds the items from 15k on, 15 of them or what is left |
| Batching.ChunkSizes | run.py:79-92 | Every batch but the last has exactly 15 items; the last has N mod 15, or 15 when that is 0 |
| Batching.ChunksFlatten | run.py:74-101 | The batches, in flush order, are the items in input order: none lost, none repeated |
| Batching.ChunksAppend | run.py:79-88 | Items after whole batches are cut the same way on their own |
| Batching.FlushedPrefix | run.py:79-89 | The first f batches are the batches of the first 15f items, and batch f starts right after them |
| Batching.WholeBatches | run.py:79-89 | 15f items make f batches |
| Batching.ChunksSplit | run.py:79-92 | Cutting at a batch boundary, or at the end, splits the batches |
| Batching.ChunksSnoc | run.py:77-92 | A batch of 1 to 15 items after whole batches is the next batch |
| Batching.SingleChunk | run.py:92-101 | At most 15 items make one batch |
| Batching.SixteenItems | run.py:71-101 | 16 items give two batches, of 15 and of 1 |
| Dispatch.RetryFrom | run.py:32 | From attempt k, the result is that of the first attempt up to the sixth that returns; None exactly when all of them raise |
| Dispatch.Ask | run.py:34-39 | The request sent for a prompt: the model name, the fixed system instruction, and the prompt as the user message |
| Dispatch.GetCompletion | run.py:32-49 | A completion exists exactly when one of the six attempts returns; it is the extraction of the first response that did |
| Dispatch.ProcessCommand | run.py:60-63 | The record exists exactly when the completion does; it carries the item's task id and that completion |
| Dispatch.Processor | run.py:81 | `process_command` bound to the model, as submitted to the pool for each item; `AllSucceed` states the run's result for it |
| Dispatch.RunBatch | run.py:80-82 | The pool's results: one per item, in submission order, each the item's own record; None exactly when some call failed |
| Dispatch.RunBatches | run.py:74-101 | The number of flushed batches never exceeds the number of batches; the run completes exactly when all were flushed |
| Dispatch.ResultsFile.Truncate | run.py:68-69 | Opening with `'w'` empties the file |
| Dispatch.ResultsFile.AppendAll | run.py:84-86 | The records are appended in order after the existing lines; nothing else changes |
| Dispatch.Flush | run.py:80-86 | One flush: the file grows by the batch's records when every call succeeds, and is untouched otherwise |
| Dispatch.GetResults | run.py:65-101 | The file holds the records `RunBatches` gives for `Chunks(items)`; `ok` says whether the run completed; the progress count is the number of records written, and the number of items when the run completed; the flushed batches are the leading batches |
| Dispatch.AddItem | run.py:74-89 | One loop turn keeps the loop state `Pending`, or ends the run with the outcome `RunBatches` gives |
| Dispatch.FlushRemainder | run.py:91-101 | The flush after the loop leaves the final outcome of the run |
| Dispatch.FlushBatch | run.py:79-86 | The batch is the next of `Chunks`; a success extends the run by its records; a failure fixes the outcome of the whole run |
| Dispatch.NextBatch | run.py:77-79 | The batch that has just filled, or is left over, is the next batch of `Chunks` |
| Dispatch.Flushed | run.py:84-86 | A flushed batch extends the output by its records |
| Dispatch.FullBatchFlushed | run.py:88-89 | After a full batch the loop starts over with an empty batch and the progress count equals the records written |
| Dispatch.Aborted | run.py:82 | Once a batch fails, the outcome of the run is fixed: later batches never run |
| Dispatch.FailedBatch | run.py:82 | A failing batch stops the run whatever batches follow |
| Dispatch.RunBatchesStops | run.py:82 | After a failed batch, adding batches changes nothing |
| Dispatch.RetryUsesSixAttempts | run.py:32 | The retry policy looks at no attempt after the sixth |
| Dispatch.RunBatchAppend | run.py:80-82 | Gathering is all-or-nothing over a concatenation as well |
| Dispatch.RunBatchesSpec | run.py:74-101 | What the run has written is exactly the records of the flushed batches, and an incomplete run stopped at a failing batch |
| Dispatch.RunOutcome | run.py:65-101 | The output holds the records of a prefix of the items, in order; the run completes exactly when every call succeeds, and then every item has its record; otherwise it stops at a batch boundary, before a batch that holds a failed call |
| Dispatch.RunCompleted | run.py:65-101 | A completed run wrote one record per item, in input order |
| Dispatch.RunStopped | run.py:79-89 | A stopped run wrote 15f records for f whole batches and stopped before a failed call in batch f |
| Dispatch.StoppedAt | run.py:79-89 | A stopped run wrote the records of its first 15f items, and batch f failed |
| Dispatch.FailedCall | run.py:82 | A failed batch holds a failed call |
| Dispatch.AllSucceed | run.py:60-101 | When every call succeeds, the file holds one record per item, in input order, each with the item's task id and its completion |

## Left out

- The OpenAI client, the `.env` loading, the API key and `HEADERS` (run.py:18-25, 33-39): network and credentials. The service is the `Service` parameter.
- A response whose content is null makes `pattern.search` raise, and tenacity retries it. The model does not separate this from a failed request: both are an attempt that gives `None`.
- The randomized exponential backoff between attempts (`wait_random_exponential`, run.py:32): it only adds wall-clock delay and never changes a result.
- The thread pool's concurrency (run.py:80-82, 93-95): the calls of a batch are independent and their results are gathered in submission order, so a sequential map gives the same results. The model does not capture timing, nor the calls of a failing batch that still run after the first failure.
- Reading the benchmark file and JSON parsing (`iter_hval`, run.py:52-58, 73-76): the items are given as a sequence of `WorkItem`. The file is read twice in the source, once for the progress total and once for the loop. The model assumes both reads give the same items.
- JSON serialisation of the output lines (run.py:86, 99): the file is modelled as its sequence of `Record`s.
- The output path (run.py:27-28, 66), the progress bar's display (only its count is kept) and the `__main__` block (run.py:103-108).
- Dispatch.RetryFrom: the service is a function of the request and the attempt number. Two items with the same prompt therefore get the same responses, and any service behaviour that depends on time or on other calls is outside the model.
- Dispatch.GetResults: instead of raising, it returns `ok == false`. Its parameter is the item processor, not the model name: `Processor(service, model)` binds `process_command` to a model. `Dispatch.AllSucceed` states the result for that processor.
