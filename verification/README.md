# mgbench client, modelled in Dafny

This project models the core of the Memgraph benchmark client
`tests/mgbench/client.cpp`. The client reads queries, cuts them into
batches and runs each batch with a pool of worker threads. The workers
share a claim cursor and retry failing queries on their own Bolt
connections. After the join the client merges the workers' retry counters
and result rows, and writes one JSON summary line per batch.

The modules follow the program's structure:

- `Ints`: the fixed-width integers and the C++ conversions the client
  relies on. These are `static_cast<int64_t>` of a `uint64_t`, an `int`
  compared with a `uint64_t`, `FLAGS_max_retries` narrowed to `int`, and
  `uint64_t` addition.
- `Common`: the fatal-or-ok `Result`, the `Failure` kinds, and sequence
  helpers.
- `Values`: `JsonToBoltValue` and `BoltValueToJson`, between parsed JSON
  trees and Bolt values.
- `Retry`: `ExecuteNTimesTillSuccess`. The server is a function from the
  attempt number to an attempt outcome.
- `Cursor`: the shared `pos.fetch_add(1)` cursor. The threads are replaced
  by a schedule: the order in which the `fetch_add` calls take effect. At
  the join every worker still in its loop is run until it leaves.
- `Merge`: the single-threaded fold over the workers after the join.
- `Batching`: the batching loop of `main`, over abstract line entries.
- `Input`: how plain-text lines and JSON lines become entries.
- `Bench`: `Execute`, one batch from claims to the summary line.
- `Benchmark`: the whole run over all batches of the input.

A `LOG_FATAL` or an uncaught exception ends the process. Each one is
modelled as a `Fatal(failure)` result, and the run stops there.

The source declares `worker_retries`, `worker_meta`, `worker_dur`,
`worker_rows`, `ready`, `pos` and `size` twice in the same scope (lines
125-141). That does not compile. The model uses the declarations at lines
125-133, where `pos` is a `std::atomic<uint64_t>`, together with the
`run` flag of line 140.

Some behaviours of the code are worth noting:

- A batch with no queries still starts the workers and writes a summary
  with count 0 (`Bench.ExecuteEmptyBatch`).
- The input always ends with one more run of the current batch, even when
  that batch is empty. So a query line followed by an empty JSON value
  writes two summary lines, not one (`Benchmark.SingleQueryScenario`).
- With zero workers nothing is executed, yet the summary reports the whole
  batch size as its count (`Bench.ExecuteWithoutWorkers`).
- `FLAGS_max_retries` is an unsigned 64-bit flag passed as an `int`, so it
  is reduced modulo 2^32. A value of 2^32 allows no attempt at all
  (`Retry.BudgetOfFlag`).

## Model

| member | source | states |
|---|---|---|
| Ints.SignedOf | tests/mgbench/client.cpp:79 | the cast keeps the value modulo 2^64 and changes it exactly when it exceeds INT64_MAX |
| Ints.UnsignedOf | tests/mgbench/client.cpp:55 | an `int` operand converted to `uint64_t` is congruent to it modulo 2^64 |
| Ints.Narrow | tests/mgbench/client.cpp:157 | a `uint64_t` passed as `int` keeps its value modulo 2^32 |
| Ints.AddU64 | tests/mgbench/client.cpp:158 | the counter addition is the sum modulo 2^64 |
| Ints.SmallFlagKeepsValue | tests/mgbench/client.cpp:157 | a flag below 2^31 reaches the retry loop unchanged |
| Ints.HugeFlagBecomesZero | tests/mgbench/client.cpp:157 | a flag of 2^32 becomes an attempt bound of zero |
| Values.JsonToBoltValue | tests/mgbench/client.cpp:68-96 | every JSON kind maps to its Bolt kind (both directions per kind); booleans, signed integers, doubles and strings keep their value; an unsigned number becomes the int64 cast of its value; arrays convert element by element and objects value by value under the same keys; the result is always a value JSON can express |
| Values.BoltValueToJson | tests/mgbench/client.cpp:98-116 | the conversion succeeds exactly for values without an unsupported Bolt type; otherwise it fails with the unsupported-type error; each Bolt kind maps to its JSON kind and never to an unsigned number; booleans, integers, doubles and strings keep their value; lists convert element by element and maps value by value under the same keys |
| Values.ListToJson | tests/mgbench/client.cpp:105-109 | a list converts exactly when every element does, to the elements' conversions in order |
| Values.MapToJson | tests/mgbench/client.cpp:110-114 | a map converts exactly when every value does, to the values' conversions under the same keys |
| Values.JsonRoundTrip | tests/mgbench/client.cpp:68-116 | JSON without unsigned numbers comes back unchanged after JSON to Bolt to JSON |
| Values.BoltRoundTrip | tests/mgbench/client.cpp:68-116 | every Bolt value JSON can express comes back unchanged after Bolt to JSON to Bolt |
| Values.RoundTripUpToSignedness | tests/mgbench/client.cpp:76-79 | with unsigned numbers, the round trip keeps every mathematical value (a signed integer may stand for an equal unsigned one) exactly when no unsigned number exceeds INT64_MAX |
| Values.UnsignedWrapExample | tests/mgbench/client.cpp:78-79 | the unsigned number 2^63 comes back as -2^63, a different value |
| Retry.AttemptBound | tests/mgbench/client.cpp:54-55 | a non-negative `max_attempts` is the number of attempts; a negative one allows at least 2^63 |
| Retry.BudgetOfFlag | tests/mgbench/client.cpp:157 | the flag is reduced modulo 2^32: a remainder below 2^31 is the number of attempts, a larger one allows at least 2^63; so flags below 2^31 keep their value and a flag of 2^32 gives none |
| Retry.AttemptFrom | tests/mgbench/client.cpp:55-64 | from attempt i on: success returns the first successful attempt's answer with its index as the retry count, after only failures; exhaustion means every remaining attempt failed, quoting the last error |
| Retry.ExecuteNTimesTillSuccess | tests/mgbench/client.cpp:49-66 | succeeds exactly when some attempt within the bound succeeds; then the retry count is the index of the first success and its metadata and records are returned; otherwise the fatal message quotes the query, the bound and the last error |
| Retry.FirstAttemptSucceeds | tests/mgbench/client.cpp:55-58 | a first attempt that succeeds costs no retry |
| Retry.SucceedsAfterFailures | tests/mgbench/client.cpp:55-63 | k failures followed by a success within the bound give retry count k |
| Retry.Exhausted | tests/mgbench/client.cpp:55-61 | when all attempts fail the process stops with the last attempt's error |
| Retry.ZeroBudget | tests/mgbench/client.cpp:55-65 | with a bound of zero no attempt is made and the message has no error text |
| Retry.FailTwiceThenSucceed | tests/mgbench/client.cpp:55-63 | two failures then a success: three attempts give two retries, two attempts are fatal |
| Cursor.Start | tests/mgbench/client.cpp:131 | the cursor starts at zero, no worker has claimed or left, and the coordination invariant holds |
| Cursor.Claim | tests/mgbench/client.cpp:153-156 | one `fetch_add` hands out the cursor value and advances it; below `size` the worker claims that index, otherwise it leaves; no other worker changes; the invariant is kept |
| Cursor.ExitKeepsConsistent | tests/mgbench/client.cpp:155 | a draw at or past `size` keeps the invariant |
| Cursor.ClaimKeepsConsistent | tests/mgbench/client.cpp:154-156 | a draw below `size` keeps the invariant |
| Cursor.Run | tests/mgbench/client.cpp:153-161 | any schedule of draws keeps the invariant |
| Cursor.RunToExit | tests/mgbench/client.cpp:153-155 | a worker left alone draws until it leaves its loop, and no worker that had left comes back |
| Cursor.FinishFrom | tests/mgbench/client.cpp:166-168 | running every remaining worker to the end leaves all of them out of their loops |
| Cursor.Joined | tests/mgbench/client.cpp:144-168 | at the join every worker has left its loop and the invariant holds |
| Cursor.JoinedClaims | tests/mgbench/client.cpp:153-160 | one claim list per worker, every claimed index below `size` |
| Cursor.EmptyBatchClaimsNothing | tests/mgbench/client.cpp:154-155 | with `size` zero no worker claims anything |
| Cursor.ClaimsPartitionPrefix | tests/mgbench/client.cpp:153-156 | at any point the handed-out indices below `size` are split between the workers without overlap, each worker's in increasing order |
| Cursor.ClaimsPartitionAtJoin | tests/mgbench/client.cpp:153-168 | at the join each index below `size` is executed by exactly one worker, `size` in total |
| Merge.AppendRows | tests/mgbench/client.cpp:180-181 | the inner loops append every row of every query's list, in order |
| Merge.MergeFirst | tests/mgbench/client.cpp:176-182 | after w workers the total is their counters' sum modulo 2^64 and the rows are theirs in worker order |
| Merge.MergeResults | tests/mgbench/client.cpp:170-182 | the merged total is the counters' sum modulo 2^64 and the rows are all workers' rows in worker order |
| Merge.MergedRowCount | tests/mgbench/client.cpp:174-181 | the merged row count is the total number of rows the workers returned |
| Merge.MergedRetriesExact | tests/mgbench/client.cpp:172-178 | below 2^64 the merged total is the exact sum |
| Batching.DriveSpec | tests/mgbench/client.cpp:224-242 | the batching loop equals the reference split of the entries before the first malformed one; it stops at that entry without running the open batch |
| Batching.SplitEntriesWellFormed | tests/mgbench/client.cpp:224-242 | without malformed entries the loop runs exactly the reference batches and never stops early |
| Batching.SplitEntriesStops | tests/mgbench/client.cpp:233-239 | at the first malformed entry the loop stops, having run every batch closed before it |
| Batching.SplitCount | tests/mgbench/client.cpp:224-242 | one batch per boundary, plus the final one |
| Batching.SplitConcat | tests/mgbench/client.cpp:224-242 | joined, the batches are the input's queries in order |
| Batching.SplitAtBoundary | tests/mgbench/client.cpp:228 | a boundary splits the input into independently batched halves |
| Batching.SplitWithoutBoundary | tests/mgbench/client.cpp:224-242 | input without boundaries forms one batch holding all its queries |
| Input.TrimSpec | tests/mgbench/client.cpp:227 | trimming keeps one contiguous part of the line, drops only whitespace around it and leaves none at its ends |
| Input.PlainEntries | tests/mgbench/client.cpp:226-229 | each plain-text line becomes one entry, never a malformed one |
| Input.QueryLines | tests/mgbench/client.cpp:229 | no kept query line is a separator |
| Input.PlainBatches | tests/mgbench/client.cpp:224-242 | plain-text input never stops early |
| Input.PlainBatchesSpec | tests/mgbench/client.cpp:224-242 | one batch per separator line plus the last; joined, the batches are the non-separator lines, untrimmed and without parameters |
| Input.PlainSplitAtSeparator | tests/mgbench/client.cpp:228 | a separator line closes exactly the batch before it |
| Input.JsonEntry | tests/mgbench/client.cpp:234-239 | an empty JSON value is a boundary and a `[string, object, ...]` line is a query with that text and the converted parameters, each exactly when the line has that form |
| Input.JsonEntries | tests/mgbench/client.cpp:233-240 | each JSON line becomes its entry |
| Input.JsonBatchesSpec | tests/mgbench/client.cpp:231-242 | input of empty values and query lines gives one batch per empty value plus the last, holding the queries in order |
| Input.JsonBatchesStop | tests/mgbench/client.cpp:234-239 | the first line that is neither stops the run, after the batches closed before it and without the open one |
| Bench.Executions | tests/mgbench/client.cpp:153-157 | each claimed index's query is executed with retries on the worker's connection, in claim order |
| Bench.AddRetries | tests/mgbench/client.cpp:158 | the worker's counter is the sum of its retry counts modulo 2^64 |
| Bench.RunWorker | tests/mgbench/client.cpp:153-161 | a worker completes exactly when each claimed query completes; it keeps each query's records in claim order and its retries summed modulo 2^64; otherwise the first failing query's exhaustion stops the process |
| Bench.RowToJson | tests/mgbench/client.cpp:197-199 | a row converts exactly when all its cells convert, cell by cell |
| Bench.RowsToJson | tests/mgbench/client.cpp:195-201 | all rows convert exactly when every cell is expressible, row by row; otherwise the unsupported-type error |
| Bench.Workers | tests/mgbench/client.cpp:144-165 | each worker runs its own claims; a worker fails only by exhausting retries |
| Bench.Execute | tests/mgbench/client.cpp:118-203 | a completed batch reports the batch size as count and the configured worker count; its failures are exhausted retries or unsupported values |
| Bench.ExecuteMergesWorkers | tests/mgbench/client.cpp:170-201 | a completed batch reports the workers' retry counters summed modulo 2^64, and exactly the JSON of every worker's rows in worker order |
| Bench.ExecuteEmptyBatch | tests/mgbench/client.cpp:118-203 | an empty batch still writes a summary: count 0, no retries, no results |
| Bench.ExecuteQuietWorkers | tests/mgbench/client.cpp:170-201 | when every worker completes without retries or rows, the summary has the batch size, no retries and no results |
| Bench.IdleWorker | tests/mgbench/client.cpp:153-155 | a worker that claims nothing reports no retries and no rows |
| Bench.ExecuteWithoutWorkers | tests/mgbench/client.cpp:144-187 | with zero workers nothing runs, yet the count is the batch size |
| Bench.ExecuteOkWorkersOk | tests/mgbench/client.cpp:153-161 | a completed batch means every worker completed every query it claimed |
| Bench.ExecuteCompletesEveryQueryOnce | tests/mgbench/client.cpp:153-168 | with at least one worker, a completed batch executed every query successfully, each by the one worker that claimed it |
| Bench.ExecuteCompletes | tests/mgbench/client.cpp:150-201 | a batch writes its summary if and only if every query some worker claimed completes within its budget and every cell of every record those queries return can be written as JSON |
| Bench.ExecuteExhausted | tests/mgbench/client.cpp:150-161 | a failed batch reports exhausted retries exactly when some claimed query did not complete, and the failure reported is exactly that claimed query's own failure |
| Bench.ExecuteUnsupported | tests/mgbench/client.cpp:170-201 | a batch fails with an unsupported value only when every claimed query completed and some record holds a cell JSON cannot express |
| Bench.ExhaustedClaim | tests/mgbench/client.cpp:153-161 | when some worker stops, its failure is an exhausted budget, equal to the failure of a query it claimed, so not every claimed query completed |
| Bench.WorkersSucceed | tests/mgbench/client.cpp:153-161 | when every worker completes, every query any of them claimed completed |
| Bench.WorkerRowsRepresentable | tests/mgbench/client.cpp:153-161 | a completed worker's concatenated rows are all expressible in JSON exactly when the records of each of its claimed queries are |
| Bench.MergedRowsRepresentable | tests/mgbench/client.cpp:170-201 | when every worker completes, the merged rows convert to JSON exactly when every record of every claimed query is expressible |
| Bench.RowsToJsonOk | tests/mgbench/client.cpp:195-201 | the rows convert exactly when every row in them has only expressible cells |
| Bench.WorkerFirstTrySuccess | tests/mgbench/client.cpp:153-161 | when every first attempt succeeds without records, the worker completes with no retries and no rows |
| Bench.ExecuteFirstTrySuccess | tests/mgbench/client.cpp:118-203 | against such a server every batch completes with its size, no retries and no results |
| Benchmark.BatchOutcomes | tests/mgbench/client.cpp:224-242 | one outcome per batch, each the batch's `Execute` with its schedule, its server and the flag narrowed to `int`; completed ones carry their size and the worker count; none is a malformed-input failure |
| Benchmark.Collect | tests/mgbench/client.cpp:224-242 | summaries are written in order until the first failing batch, whose failure ends the run; when all complete the run ends with the malformed line, if any |
| Benchmark.RunBatches | tests/mgbench/client.cpp:224-242 | the summaries written are, in order, the completed `Execute` results of the first batches (so each has its batch's size, retries and rows); when a summary is missing, the process ends with exactly the failure `Execute` reports for the first batch without one; otherwise the run ends at the malformed line or at the end of input |
| Benchmark.RunPlain | tests/mgbench/client.cpp:224-242 | in plain-text mode a run without failure writes one summary per separator line plus one, and never fails on input |
| Benchmark.RunJsonStops | tests/mgbench/client.cpp:233-239 | in JSON mode a malformed line always ends the run with a failure, which is that line's unless a batch failed earlier |
| Benchmark.RunFirstTrySuccess | tests/mgbench/client.cpp:224-242 | with a usable flag and first-try successes, every batch writes its summary and the run ends only where the input does |
| Benchmark.SingleQueryScenario | tests/mgbench/client.cpp:231-242 | a query line then `[]`, with two workers and three attempts, writes two summaries: count 1, then count 0 |

## Left out

- Threads, the `ready`/`run` barrier and `join` are replaced by a schedule of `fetch_add` calls. The scheduler's freedom is the schedule parameter.
- `Timer`, the durations, the mean duration and the throughput are left out, because they are floating-point values of wall-clock time.
- The `Metadata` aggregator (`Append`, `+=`, `Export`) is left out: its class is not part of this model. The metadata of each execution is carried but never aggregated.
- Bolt client I/O, SSL, endpoints, connect and close are left out. The server is a parameter: what attempt `a` of query `i` on worker `w`'s connection returns.
- Command-line flags are left out, and so is reading the input from a file or stdin and writing the output to a file or stdout. The lines arrive as a sequence, and the summaries are returned instead of being written.
- JSON parsing and `dump()` are left out. Input lines arrive already parsed, so a line that does not parse is not modelled.
- `utils::Trim` is not part of this model. It is modelled as stripping C-locale `isspace` characters at both ends.
- Binary and discarded JSON values, and their `LOG_FATAL` at line 94, are left out: the parsed input never holds them.
- Doubles are opaque 64-bit patterns that are only copied. NaN and other floating-point semantics are not modelled.
- The `uint32_t` worker loop variables at lines 144 and 176 would wrap with 2^32 or more workers. The model treats the worker count as unbounded.
- Bench.Workers: when several workers fail, the model reports the failure of the lowest-numbered failing worker, at its first failing claim. The real process stops at whichever `LOG_FATAL` runs first.
- Bench.Execute: the summary has no duration, throughput or metadata fields. Its retries and results are stated by `Bench.ExecuteMergesWorkers`, and when it completes by `Bench.ExecuteCompletes`, `Bench.ExecuteExhausted` and `Bench.ExecuteUnsupported`, rather than by its own contract.
- Retry.AttemptFrom: when `max_attempts` is INT_MIN (any `--max_retries` congruent to 2^31 modulo 2^32), `max_attempts - 1` at line 60 overflows `int`, which is undefined behaviour in C++. The model gives that expression no value of its own. It takes the last attempt to be the loop bound minus one, 2^64 - 2^31 - 1, as it is for every other negative `max_attempts`. A build that wraps would get INT_MAX instead, and would stop with the error message after attempt 2^31 - 1.
- Benchmark.RunJson carries no contract of its own. Its behaviour is stated by `Benchmark.RunJsonStops`, `Benchmark.SingleQueryScenario` and `Input.JsonBatchesSpec`.
