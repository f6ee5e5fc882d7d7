# JSON Lines helpers and the dataset download retry loop

This project models two small utilities of a PDF-processing toolkit:

- `json_file_processing.py`:
  - `save_to_jsonl` writes a list of dicts to a JSON Lines file. It writes one `json.dumps` line per element, in 'w' or 'a' mode.
  - `read_jsonl` reads such a file back, as a list or as a generator. It skips blank lines. A line that does not parse is raised or skipped, according to `error_handling` ("replace" also skips).
- `HF_data_download.py`: `download_dataset` calls `snapshot_download` in a `while True` loop. Each time the hub answers HTTP 429, it sleeps `RETRY_DELAY` seconds and counts an attempt. It gives up with `RuntimeError` once `MAX_RETRIES` attempts have been counted. Any other error is re-raised, and an `Exception` that is not an HTTP error is printed first. The exception is an HTTP error that carries no response: reading its status at line 31 raises `AttributeError` instead.

How the model represents each part:

- **Files.** A file is its text, a `string`.
  - `PyStr.Lines` is what `for line in f` yields: each line keeps its `'\n'`, and the last line may lack one.
  - `PyStr.Strip` is `str.strip()` over Python's whitespace characters.
- **JSON values.** They are a datatype, `Json.Value`. Python's `None` is `Json.Null`.
- **The `json` module.** Its two functions are parameters:
  - `dumps: Value -> Option<string>` (`None` when it raises);
  - `loads: string -> Option<Value>` (`None` for a `JSONDecodeError`).
- **Assumptions on the codec.** The properties that need `json` to behave assume it through the predicates `Json.EncodesLines` and `Json.Codec`:
  - a dumped dict is a single line with no surrounding whitespace;
  - `loads` inverts `dumps` on the dicts it is applied to.

  `json` maps only some dicts back to themselves, so the round-trip properties hold for those dicts and no others. "## Left out" names the dicts for which the program's round trip fails.
- **`snapshot_download`.** Each call is reduced to the `Outcome` it ends with: success, an HTTP status, an HTTP error without a response (`LocalEntryNotFoundError` is one: `snapshot_download` raises it when the hub is unreachable and nothing is cached), another `Exception`, or a `BaseException` that is not an `Exception` (`KeyboardInterrupt`, `SystemExit`). The environment is the sequence of those outcomes.
- **`print` and `time.sleep`.** They become events of a trace, which lets the fetches, the notices and the waits be counted.

Modules:

| file | module | contents |
|---|---|---|
| `wrappers.dfy` | `Wrappers` | `Option`, `Result` |
| `sequences.dfy` | `Sequences` | a generic fact about sequence concatenation |
| `pystr.dfy` | `PyStr` | `strip`, blank lines, splitting a text into lines |
| `json_value.dfy` | `Json` | values, the `dumps`/`loads` parameters and what is assumed of them |
| `jsonl.dfy` | `JsonFileProcessing` | `save_to_jsonl`, `process_line`, `read_jsonl` |
| `jsonl_properties.dfy` | `JsonlProperties` | write, read and round-trip properties |
| `download.dfy` | `HfDataDownload` | `download_dataset` and its loop |
| `download_properties.dfy` | `DownloadProperties` | how a run ends, and how many fetches and waits it makes |

## Model

| member | source | states |
|---|---|---|
| `PyStr.IsSpace` | json_file_processing.py:29 | The characters `str.strip()` removes, which are Python's `str.isspace` set. `PyStr.LStrip` and `PyStr.RStrip` state that exactly these are removed. |
| `PyStr.LStrip` | json_file_processing.py:29 | The result is a suffix of the input. Everything dropped is whitespace, and the result does not start with whitespace. |
| `PyStr.RStrip` | json_file_processing.py:29 | The result is a prefix of the input. Everything dropped is whitespace, and the result does not end with whitespace. |
| `PyStr.Strip` | json_file_processing.py:29 | `line.strip()` is `RStrip` of `LStrip`. What it removes is stated by `PyStr.LStrip` and `PyStr.RStrip`, and `PyStr.BlankIffAllSpace` says when nothing remains. |
| `PyStr.IsBlank` | json_file_processing.py:30 | `not stripped`. `PyStr.BlankIffAllSpace` characterises it as "every character is whitespace". |
| `PyStr.BlankIffAllSpace` | json_file_processing.py:29-30 | `not line.strip()` holds exactly when every character of the line is whitespace. |
| `PyStr.StripTerminatedToken` | json_file_processing.py:18 | Stripping a written line `s + '\n'` gives back `s` when `s` neither starts nor ends with whitespace. |
| `PyStr.Lines` | json_file_processing.py:53 | The lines `for line in f` yields. `PyStr.LinesPartition` states that they rejoin to the text and each ends at its only `'\n'`. `PyStr.LinesAppend` states how they split over a `'\n'`-terminated prefix. |
| `PyStr.LineLength` | json_file_processing.py:53 | The first line of a non-empty text is non-empty. It holds no `'\n'` before its end, and it ends in `'\n'` unless it is the whole text. |
| `PyStr.LinesPartition` | json_file_processing.py:53 | The lines of a text joined back give the text. Every line but the last ends in its only `'\n'`. |
| `PyStr.FirstLineOfAppend` | json_file_processing.py:18 | A text ending in `'\n'` keeps its first line, and the rest of it, when more text is written after it. |
| `PyStr.LinesAppend` | json_file_processing.py:18 | When the first text ends in `'\n'` (or is empty), the lines of the concatenation are the first text's lines followed by the second's. |
| `PyStr.SingleLine` | json_file_processing.py:18 | A string without `'\n'`, written with a trailing `'\n'`, reads back as exactly one line. |
| `JsonFileProcessing.Writable` | json_file_processing.py:13-17 | An element the loop can write: a dict that `json.dumps` encodes. `JsonlProperties.WriteStopsAtFirstBad` states that the loop stops at the first element that is not. |
| `JsonFileProcessing.RecordLine` | json_file_processing.py:17-18 | The line written for an element, `json.dumps(item) + '\n'`. `JsonlProperties.WrittenLines` states that the text written is these lines, in order. |
| `JsonFileProcessing.WriteRecords` | json_file_processing.py:11-19 | The loop writes a prefix of the list, all of whose elements are writable dicts. It completes exactly when it wrote every element, and otherwise stops at an element that is not writable. The text is empty exactly when nothing was written, and it ends in a line break. |
| `JsonFileProcessing.SaveToJsonl` | json_file_processing.py:1-25 | Errors and return values: a non-list raises `TypeError` and a bad mode raises `ValueError`, both before the file is touched. A failed open returns 0 and leaves the file unchanged. Otherwise the result is all-or-nothing: the list's length when every element is written, else 0. Append mode keeps the old text as a prefix. Write mode leaves exactly the text the loop wrote. |
| `JsonFileProcessing.ProcessLine` | json_file_processing.py:28-39 | A blank line gives `None`. The result is an error exactly when the stripped line does not parse under the "raise" policy, and the error carries the raw line. A non-`None` result is what `loads` made of the stripped line. |
| `JsonFileProcessing.ProcessLineParses` | json_file_processing.py:32-33 | A line that is not blank and that `loads` parses gives the parsed value, under any policy. |
| `JsonFileProcessing.Results` | json_file_processing.py:53-54 | `process_line` is applied to every line, in order. |
| `JsonFileProcessing.ResultsPointwise` | json_file_processing.py:53-54 | Result i is `process_line` of line i. |
| `JsonFileProcessing.Collect` | json_file_processing.py:53-56 | At most one record per result, and no record is `None`. A stop is one of the errors among the results. |
| `JsonFileProcessing.ReadLines` | json_file_processing.py:44-47 | At most one record per line, and none is `None`. A stop happens only under "raise", and it carries one of the file's lines. |
| `JsonFileProcessing.ReadJsonl` | json_file_processing.py:27-60 | A bad `return_type` raises `ValueError`, and only a bad one does. "generator" always returns a generator, which reports an unopenable file only when iterated. "list" on an unopenable file raises. A list has at most one record per line. |
| `JsonlProperties.WrittenLines` | json_file_processing.py:11-19 | The text written holds exactly one line per element written. Line i is the dump of element i plus `'\n'`. |
| `JsonlProperties.WriteStopsAtFirstBad` | json_file_processing.py:13-14 | If the first element that is not a writable dict is at index k, the loop writes exactly k elements and does not complete. |
| `JsonlProperties.SaveWritesEveryRecord` | json_file_processing.py:8-21 | A list of writable dicts returns its length. The file keeps the mode's starting text ('w': nothing, 'a': the old file), followed by exactly one record line per element, in order. |
| `JsonlProperties.SavePartialOnBadElement` | json_file_processing.py:9-25 | If element k is the first bad one, `save_to_jsonl` returns 0, yet the file keeps its starting text followed by the k lines written before the exception. |
| `JsonlProperties.ThenAssociative` | json_file_processing.py:53-56 | Sequencing two partial reads is associative. |
| `JsonlProperties.CollectAppend` | json_file_processing.py:53-56 | Reading the results of two line blocks in sequence is the first block's read followed by the second's. When the first block raised, the second is never reached. |
| `JsonlProperties.ResultsAppend` | json_file_processing.py:53-54 | `process_line` depends on the line alone: the results for `a + b` are the results for `a` followed by those for `b`. |
| `JsonlProperties.ReadLinesAppend` | json_file_processing.py:53-56 | The same holds for lines: reading `a + b` is reading `a`, then `b` unless `a` raised. |
| `JsonlProperties.ReadOneLine` | json_file_processing.py:45-47 | A single line reads as its `process_line` result: nothing for `None`, one record, or a stop. |
| `JsonlProperties.DropLine` | json_file_processing.py:54-56 | A line whose `process_line` result is `None` can be removed without changing the read. |
| `JsonlProperties.BlankLineIgnored` | json_file_processing.py:29-31 | A blank line, anywhere in the file, under any policy, does not change the read. |
| `JsonlProperties.NullLineDropped` | json_file_processing.py:46-47 | A line holding JSON `null` does not change the read, because its `None` is indistinguishable from a skipped line. |
| `JsonlProperties.MalformedLineDropped` | json_file_processing.py:37-39 | Under any policy other than "raise", a malformed line does not change the read. |
| `JsonlProperties.MalformedLineRaises` | json_file_processing.py:34-36 | Under "raise", a malformed line stops the read with `ValueError` carrying that line, right after the records of the lines before it. The exception is when an earlier line already raised, and then the read is that earlier one's. No later line is read. |
| `JsonlProperties.ResultsAgree` | json_file_processing.py:35-39 | `process_line` gives the same result for every line under any two policies other than "raise". |
| `JsonlProperties.NonRaisingPoliciesAgree` | json_file_processing.py:35-39 | "skip", "replace" and any other value besides "raise" give the same read. |
| `JsonlProperties.Consumed` | json_file_processing.py:53-56 | Every result before the returned index is a value, and the result at it, if any, is an error. |
| `JsonlProperties.ConsumedStops` | json_file_processing.py:53-56 | The read ends without an exception exactly when every line was consumed. Otherwise it stops with the error of the first line that raised. |
| `JsonlProperties.KeptIncreasing` | json_file_processing.py:53-56 | The positions of the kept lines are strictly increasing and lie among the consumed lines. |
| `JsonlProperties.KeptRecords` | json_file_processing.py:55-56 | The i-th record is the value of the i-th kept line, and it is not `None`. |
| `JsonlProperties.KeptComplete` | json_file_processing.py:55-56 | Every consumed line whose value is not `None` is kept. |
| `JsonlProperties.ProvenanceStop` | json_file_processing.py:34-36 | The read gets through a prefix of the lines. It ends without an exception exactly when that prefix is the whole file. Otherwise the next line is a non-blank, malformed line, and the read stops with `ValueError` carrying it. |
| `JsonlProperties.ProvenanceRecords` | json_file_processing.py:54-56 | Record i is what `loads` made of a consumed line that emits a record. The lines of successive records strictly increase. |
| `JsonlProperties.ProvenanceComplete` | json_file_processing.py:54-56 | Every consumed line that is neither blank nor malformed nor `null` gives a record. |
| `JsonlProperties.ReadProvenance` | json_file_processing.py:44-57 | The read consumes a prefix of the lines, and it is the whole file unless a malformed line raised right after it. The records are the decodings of exactly those consumed lines that are neither blank nor `null`, one per line, in file order. |
| `JsonlProperties.CollectRecords` | json_file_processing.py:53-56 | Results that are all non-`None` values collect to exactly those values, with no stop. |
| `JsonlProperties.ReadRecordLines` | json_file_processing.py:17-18 | Lines written by `save_to_jsonl` read back as the elements they encode, under any policy. |
| `JsonlProperties.RoundTrip` | json_file_processing.py:1-57 | For dicts `json` maps back to themselves (`Json.Codec`): saving a list of them in 'w' mode returns its length. Reading the file back gives the same list, both as a list and as a generator, whatever the file held before. |
| `JsonlProperties.ReadsAs` | json_file_processing.py:41-57 | A file whose lines read cleanly as some records gives those records under both return types. |
| `JsonlProperties.ListRead` | json_file_processing.py:50-57 | A list-mode read that does not raise returns exactly the records of the file's lines. |
| `JsonlProperties.ReadAfterPrior` | json_file_processing.py:53-56 | Record lines placed after a `'\n'`-terminated text that reads cleanly are read after that text's own records. |
| `JsonlProperties.AppendExtendsRead` | json_file_processing.py:1-57 | For dicts `json` maps back to themselves (`Json.Codec`): appending them to a file that is empty or ends in a line break, and that reads cleanly, adds the new records after the old ones. |
| `JsonlProperties.WriteThenAppend` | json_file_processing.py:1-57 | For dicts `json` maps back to themselves (`Json.Codec`): saving A in 'w' mode and then B in 'a' mode reads back as A followed by B. |
| `JsonlProperties.ListMatchesGenerator` | json_file_processing.py:41-57 | The list is what the generator yields. The list call raises exactly the exception that ends the generator's iteration. |
| `HfDataDownload.CountsAppend` | HF_data_download.py:16-37 | Fetches, waits and time asleep add up over consecutive parts of a run. |
| `HfDataDownload.BlockCounts` | HF_data_download.py:31-34 | A rate-limited attempt fetches once and sleeps once, for `RETRY_DELAY` seconds. |
| `HfDataDownload.Bounded` | HF_data_download.py:35 | The truthiness test `MAX_RETRIES and …`: `None` and 0 mean "no bound", and any other value, negative ones included, is a bound. `DownloadProperties.ExhaustedIff` states that `RuntimeError` happens only under it. |
| `HfDataDownload.Loop` | HF_data_download.py:16-43 | `attempts` never decreases. `RuntimeError` is raised only under a truthy bound, carrying that bound, once `attempts` has reached it. A re-raised error is never a 429, a success or an HTTP error without a response. `AttributeError` is raised only for an HTTP error without a response. |
| `HfDataDownload.LoopCounts` | HF_data_download.py:16-37 | Each counted attempt sleeps once. Fetches are the waits plus one, for the final fetch of a run that returns or re-raises. No outcome is fetched twice, and every outcome is fetched when the run is still waiting for more. |
| `HfDataDownload.ExhaustedCounts` | HF_data_download.py:31-36 | A 429 that reaches the bound ends the run after one fetch and one wait, with that attempt counted. |
| `HfDataDownload.RateLimitedCounts` | HF_data_download.py:31-37 | A 429 below the bound adds one fetch, one wait and one counted attempt to the rest of the run. |
| `HfDataDownload.FinalCounts` | HF_data_download.py:18-43 | A success, another HTTP status, an HTTP error without a response, another `Exception` or a `BaseException` outside `Exception` ends the run after one fetch, with no wait. |
| `HfDataDownload.LoopWaits` | HF_data_download.py:32-33 | Every wait lasts `RETRY_DELAY` seconds. |
| `HfDataDownload.UniformWaits` | HF_data_download.py:33 | When every wait lasts `delay`, the time asleep is `delay` times the number of waits. |
| `HfDataDownload.DownloadDataset` | HF_data_download.py:13-43 | From `attempts = 0`, the number of waits equals `attempts`, and the time asleep is `RETRY_DELAY * attempts`. `RuntimeError` needs a truthy `MAX_RETRIES`: with `None` or 0 the loop never gives up. |
| `DownloadProperties.BlocksCounts` | HF_data_download.py:31-37 | k rate-limited attempts make k fetches and k waits, each of the configured delay. |
| `DownloadProperties.BlocksSnoc` | HF_data_download.py:31-37 | The effects of k + 1 rate-limited attempts are those of k attempts followed by one more. |
| `DownloadProperties.RateLimitStep` | HF_data_download.py:31-37 | Below the bound, a 429 fetches, reports, sleeps and continues with one more attempt counted. |
| `DownloadProperties.Unroll` | HF_data_download.py:16-37 | k 429s below the bound produce k fetch-report-sleep blocks. The run then continues from the (k+1)-th outcome with k more attempts counted. |
| `DownloadProperties.SucceedsAfterRateLimits` | HF_data_download.py:16-37 | k 429s below the bound (any bound when k = 0) followed by a success give the whole run exactly: k blocks, the completion notice, k attempts, k + 1 fetches and k waits. |
| `DownloadProperties.ReraisesAfterRateLimits` | HF_data_download.py:30-43 | k 429s below the bound (any bound when k = 0) followed by any other error end the run after k waits and k + 1 fetches. The error is re-raised, except that an HTTP error without a response ends in `AttributeError` from line 31. Another HTTP status, and a `BaseException` that is not an `Exception` (which `except Exception` at line 41 does not catch), end the run silently, as does an HTTP error without a response. Only an `Exception` that is not an HTTP error is reported first. |
| `DownloadProperties.RateLimitsToExhaust` | HF_data_download.py:34-35 | The number of further 429s that trigger `RuntimeError` is at least one, and it brings `attempts` exactly to the bound when it is below it. |
| `DownloadProperties.ExhaustsAtLimit` | HF_data_download.py:31-36 | Under a truthy bound N ≥ 1, N consecutive 429s raise `RuntimeError(N)` after exactly N fetches and N waits. A bound below 1 raises after the first 429. |
| `DownloadProperties.ExhaustedOnlyAtLimit` | HF_data_download.py:31-36 | `RuntimeError` implies a truthy bound, with the outcomes starting with enough 429s to reach it. |
| `DownloadProperties.ExhaustedIff` | HF_data_download.py:35-36 | The download raises `RuntimeError` if and only if the bound is truthy and the outcomes start with enough 429s to reach it. |
| `DownloadProperties.FetchBound` | HF_data_download.py:14-37 | Under a bound N ≥ 1, starting with `attempts` below N, whatever the hub answers, `attempts` never exceeds N. At most N - attempts more fetches are made. |
| `DownloadProperties.DefaultConfiguration` | HF_data_download.py:10-36 | With `MAX_RETRIES = 20` and `RETRY_DELAY = 60`, twenty 429s in a row raise `RuntimeError(20)` after 20 fetches, 20 waits and 1200 seconds asleep. |

Behaviours of the code that are easy to miss, each modelled as written:

- **The "replace" policy.** The option's name suggests a placeholder for a bad line. But `process_line` returns `None` for it (json_file_processing.py:37-38), and the caller drops every `None` (:46, :55). So "replace" behaves exactly like "skip" (`JsonlProperties.NonRaisingPoliciesAgree`).
- **A line holding JSON `null`.** `json.loads` gives `None` for it, and the same `is not None` test drops it under every policy (`JsonlProperties.NullLineDropped`).
- **A list element that is not a dict.** The `TypeError` raised at json_file_processing.py:14 is inside the `try` opened at :9, so the `except` at :23-25 catches it. The call returns 0, and the lines written before the bad element stay in the file (`JsonlProperties.SavePartialOnBadElement`).
- **The retry count.** `attempts` is incremented after the sleep and compared with `>=`. With `MAX_RETRIES = 20`, the 20th 429 ends the loop, after 20 fetches and 20 sleeps. The sleep before the `RuntimeError` is real.
- **A negative bound.** A negative `MAX_RETRIES` is truthy, so the first 429 raises. `MaxRetries` is modelled as an `Option<int>` to cover `None`, 0 and negative bounds.

## Left out

- The PDF readability classifier is not part of this model.
- File I/O is reduced to a file's text. The following are not modelled:
  - encodings and the `encoding` argument;
  - newline translation;
  - partial writes;
  - a failure of `write` itself.
  `open` failing is a boolean (`opens`) for saving, and a missing text for reading.
- `Json.Codec`: dicts with non-string keys cannot be represented, since `Json.Value` objects are string-keyed, and `Other` carries no content to encode. `Json.Codec` requires `loads` to return every dumped dict unchanged. Real `json` does not do that for every dict `save_to_jsonl` writes: a tuple comes back as a list (`{"a": (1, 2)}` reads as `{"a": [1, 2]}`), and an int key comes back as a string (`{1: "a"}` reads as `{"1": "a"}`). For such dicts the program's round trip fails, and `JsonlProperties.RoundTrip`, `JsonlProperties.AppendExtendsRead` and `JsonlProperties.WriteThenAppend` say nothing about them.
- The JSON grammar, `ensure_ascii` and floats or NaN are not modelled. `json.dumps`/`json.loads` are parameters, and the properties that need them assume `Json.EncodesLines`/`Json.Codec`.
- `json_file_processing.py` never imports `json`. The model treats `json` as imported. With the file as written, every call that reaches `json.dumps` would raise `NameError`: `save_to_jsonl` would catch it and return 0, and `read_jsonl` would raise from its first non-blank line.
- `JsonFileProcessing.ReadJsonl`: the generator is modelled by the records it yields and the exception that ends its iteration. Laziness, and interleaving with file changes made while it is being consumed, are not modelled.
- The `print` calls in `save_to_jsonl` are not modelled. Those in `download_dataset` are trace events without their text.
- `snapshot_download` is reduced to its outcome. Its arguments, `repo_id`, `local_dir`, resumption, threads, timeouts and `HF_ENDPOINT` are not modelled.
- `time.sleep` is a trace event carrying its duration. No clock is modelled.
- A `KeyboardInterrupt` or other exception raised by `print` or `time.sleep` in the 429 branch (HF_data_download.py:32-33) is not modelled. Only exceptions raised by `snapshot_download` are `Outcome`s.
- The `__main__` block is not modelled.
- `HfDataDownload.Loop`: a run whose supplied outcomes run out ends as `Pending`. The real loop would keep fetching, so its statements cover every finite prefix of the hub's answers.
