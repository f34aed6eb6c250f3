/**
 `Execute`: one batch run by a pool of workers sharing the claim cursor,
 each retrying its queries on its own connection, followed by the merge and
 the conversion of every result cell to JSON.
 */
module Bench {
  import opened Ints
  import opened Common
  import opened Values
  import opened Retry
  import opened Cursor
  import opened Merge
  import opened Batching

  /** The server as seen by the workers: what attempt `a` of query `i` on worker `w`'s connection returns. */
  type Server = (nat, nat, nat) -> Attempt

  /** The summary line `Execute` writes (timings and metadata statistics are not modelled). */
  datatype BatchSummary = BatchSummary(count: nat, retries: uint64, numWorkers: nat, results: seq<seq<Json>>)

  /** Worker `w`'s connection while it executes query `i`. */
  function ConnectionOf(server: Server, w: nat, i: nat): nat -> Attempt
  {
    (a: nat) => server(w, i, a)
  }

  /** Query `i` executed by worker `w` with retries. */
  function RunQuery(queries: Batch, i: nat, w: nat, maxAttempts: int32, server: Server): Result<Executed>
    requires i < |queries|
  {
    ExecuteNTimesTillSuccess(queries[i].text, maxAttempts, ConnectionOf(server, w, i))
  }

  predicate ValidClaims(queries: Batch, claimed: seq<nat>)
  {
    forall k | 0 <= k < |claimed| :: claimed[k] < |queries|
  }

  /** The outcome of each claimed query, in claim order. */
  function Executions(queries: Batch, claimed: seq<nat>, w: nat, maxAttempts: int32, server: Server): (es: seq<Result<Executed>>)
    requires ValidClaims(queries, claimed)
    ensures |es| == |claimed|
    ensures forall k | 0 <= k < |claimed| :: es[k] == RunQuery(queries, claimed[k], w, maxAttempts, server)
  {
    seq(|claimed|, k requires 0 <= k < |claimed| => RunQuery(queries, claimed[k], w, maxAttempts, server))
  }

  /** Retries spent on each claimed query (zero for one that did not complete). */
  function RetriesSpent(queries: Batch, claimed: seq<nat>, w: nat, maxAttempts: int32, server: Server): (xs: seq<nat>)
    requires ValidClaims(queries, claimed)
    ensures |xs| == |claimed|
    ensures forall k | 0 <= k < |claimed| :: RunQuery(queries, claimed[k], w, maxAttempts, server).Ok? ==>
      xs[k] == RunQuery(queries, claimed[k], w, maxAttempts, server).value.retries
  {
    seq(|claimed|, k requires 0 <= k < |claimed| =>
      var e := RunQuery(queries, claimed[k], w, maxAttempts, server);
      if e.Ok? then e.value.retries else 0)
  }

  function RetryCounts(es: seq<Executed>): (xs: seq<nat>)
    ensures |xs| == |es| && forall k | 0 <= k < |es| :: xs[k] == es[k].retries
  {
    seq(|es|, k requires 0 <= k < |es| => es[k].retries)
  }

  /** `worker_retries[wid] += retr` over the executions, from the counter `acc`. */
  function AddRetries(acc: uint64, es: seq<Executed>): (total: uint64)
    ensures total == (acc + Sum(RetryCounts(es))) % TWO_64
    decreases |es|
  {
    if es == [] then acc
    else
      assert RetryCounts(es)[1..] == RetryCounts(es[1..]);
      ModAddLeft(acc + es[0].retries, Sum(RetryCounts(es[1..])));
      AddRetries(AddU64(acc, es[0].retries), es[1..])
  }

  /**
   One worker's loop over the indices it claimed, in claim order. It
   completes when every one of its queries completes, keeping each query's
   rows and adding up retries in `uint64_t`; otherwise the first failing
   query stops the process.
   */
  function RunWorker(queries: Batch, claimed: seq<nat>, w: nat, maxAttempts: int32, server: Server): (r: Result<WorkerResult>)
    requires ValidClaims(queries, claimed)
    ensures r.Ok? <==> forall k | 0 <= k < |claimed| :: RunQuery(queries, claimed[k], w, maxAttempts, server).Ok?
    ensures r.Ok? ==> |r.value.rows| == |claimed|
    ensures r.Ok? ==> forall k | 0 <= k < |claimed| ::
      r.value.rows[k] == RunQuery(queries, claimed[k], w, maxAttempts, server).value.records
    ensures r.Ok? ==> r.value.retries == Sum(RetriesSpent(queries, claimed, w, maxAttempts, server)) % TWO_64
    ensures r.Fatal? ==> r.failure.RetriesExhausted?
    ensures r.Fatal? ==> exists k :: (0 <= k < |claimed|
      && RunQuery(queries, claimed[k], w, maxAttempts, server) == Fatal(r.failure)
      && forall j | 0 <= j < k :: RunQuery(queries, claimed[j], w, maxAttempts, server).Ok?)
  {
    var outcomes := Executions(queries, claimed, w, maxAttempts, server);
    match AllOk(outcomes)
    case Fatal(f) => Fatal(f)
    case Ok(es) =>
      assert RetryCounts(es) == RetriesSpent(queries, claimed, w, maxAttempts, server);
      Ok(WorkerResult(AddRetries(0, es), seq(|es|, k requires 0 <= k < |es| => es[k].records)))
  }

  /** Every cell of one row converted to JSON. */
  function RowToJson(row: Row): (r: Result<seq<Json>>)
    ensures r.Ok? <==> forall c | 0 <= c < |row| :: Representable(row[c])
    ensures r.Ok? ==> |r.value| == |row| && forall c | 0 <= c < |row| :: BoltValueToJson(row[c]) == Ok(r.value[c])
    ensures r.Fatal? ==> r.failure == UnsupportedBoltType
  {
    var cells := seq(|row|, c requires 0 <= c < |row| => BoltValueToJson(row[c]));
    assert forall c | 0 <= c < |row| :: cells[c] == BoltValueToJson(row[c]);
    AllOk(cells)
  }

  /** Every cell of every row converted to JSON; a cell JSON cannot express stops the process. */
  function RowsToJson(rows: seq<Row>): (r: Result<seq<seq<Json>>>)
    ensures r.Ok? <==> forall k | 0 <= k < |rows| :: forall c | 0 <= c < |rows[k]| :: Representable(rows[k][c])
    ensures r.Ok? ==> |r.value| == |rows|
    ensures r.Ok? ==> forall k | 0 <= k < |rows| :: RowToJson(rows[k]) == Ok(r.value[k])
    ensures r.Fatal? ==> r.failure == UnsupportedBoltType
  {
    var converted := seq(|rows|, k requires 0 <= k < |rows| => RowToJson(rows[k]));
    assert forall k | 0 <= k < |rows| :: converted[k] == RowToJson(rows[k]);
    AllOk(converted)
  }

  /** Each worker's loop over its claims. */
  function Workers(queries: Batch, claims: seq<seq<nat>>, maxAttempts: int32, server: Server): (rs: seq<Result<WorkerResult>>)
    requires forall w | 0 <= w < |claims| :: ValidClaims(queries, claims[w])
    ensures |rs| == |claims|
    ensures forall w | 0 <= w < |claims| :: rs[w] == RunWorker(queries, claims[w], w, maxAttempts, server)
    ensures forall w | 0 <= w < |claims| :: rs[w].Fatal? ==> rs[w].failure.RetriesExhausted?
  {
    seq(|claims|, w requires 0 <= w < |claims| => RunWorker(queries, claims[w], w, maxAttempts, server))
  }

  /**
   One batch: workers claim indices from the shared cursor in the order of
   `schedule`, then every worker still running drains the cursor; after the
   join the results are merged and every result cell converted to JSON.
   The count reported is the batch size.
   */
  function Execute(queries: Batch, workers: nat, schedule: seq<nat>, maxAttempts: int32, server: Server): (r: Result<BatchSummary>)
    requires forall k | 0 <= k < |schedule| :: schedule[k] < workers
    ensures r.Ok? ==> r.value.count == |queries| && r.value.numWorkers == workers
    ensures r.Fatal? ==> !r.failure.MalformedInput?
  {
    var claims := JoinedClaims(workers, |queries|, schedule);
    match AllOk(Workers(queries, claims, maxAttempts, server))
    case Fatal(f) => Fatal(f)
    case Ok(results) =>
      var merged := MergeResults(results);
      match RowsToJson(merged.allRows)
      case Fatal(f) => Fatal(f)
      case Ok(json) => Ok(BatchSummary(|queries|, merged.totalRetries, workers, json))
  }

  /** A batch without queries still reports a summary: count zero, no retries, no rows. */
  lemma ExecuteEmptyBatch(workers: nat, schedule: seq<nat>, maxAttempts: int32, server: Server)
    requires forall k | 0 <= k < |schedule| :: schedule[k] < workers
    ensures Execute([], workers, schedule, maxAttempts, server) == Ok(BatchSummary(0, 0, workers, []))
  {
    var claims := JoinedClaims(workers, 0, schedule);
    EmptyBatchClaimsNothing(workers, schedule);
    forall w | 0 <= w < workers
      ensures QuietWorker([], claims, w, maxAttempts, server)
    {
      IdleWorker([], w, maxAttempts, server);
    }
    ExecuteQuietWorkers([], workers, schedule, maxAttempts, server);
  }

  /** Worker `w` completes its claims without retries and without rows. */
  ghost predicate QuietWorker(queries: Batch, claims: seq<seq<nat>>, w: nat, maxAttempts: int32, server: Server)
    requires w < |claims| && ValidClaims(queries, claims[w])
  {
    var r := RunWorker(queries, claims[w], w, maxAttempts, server);
    r.Ok? && r.value.retries == 0 && Concat(r.value.rows) == []
  }

  /** When every worker is quiet the batch reports its size, no retries and no rows. */
  lemma ExecuteQuietWorkers(queries: Batch, workers: nat, schedule: seq<nat>, maxAttempts: int32, server: Server)
    requires forall k | 0 <= k < |schedule| :: schedule[k] < workers
    requires forall w | 0 <= w < workers :: QuietWorker(queries, JoinedClaims(workers, |queries|, schedule), w, maxAttempts, server)
    ensures Execute(queries, workers, schedule, maxAttempts, server) == Ok(BatchSummary(|queries|, 0, workers, []))
  {
    var claims := JoinedClaims(workers, |queries|, schedule);
    var outcomes := Workers(queries, claims, maxAttempts, server);
    forall w | 0 <= w < workers
      ensures outcomes[w].Ok? && outcomes[w].value.retries == 0 && Concat(outcomes[w].value.rows) == []
    {
      assert QuietWorker(queries, claims, w, maxAttempts, server);
    }
    var results := AllOk(outcomes).value;
    SumOfZeros(RetriesOf(results));
    ConcatOfEmpties(RowsOf(results));
  }

  /** A worker that claimed nothing reports no retries and no rows. */
  lemma IdleWorker(queries: Batch, w: nat, maxAttempts: int32, server: Server)
    ensures RunWorker(queries, [], w, maxAttempts, server) == Ok(WorkerResult(0, []))
  {
    assert RetriesSpent(queries, [], w, maxAttempts, server) == [];
  }

  /**
   Without workers nothing is executed, yet the summary reports the full
   batch size as its count.
   */
  lemma ExecuteWithoutWorkers(queries: Batch, maxAttempts: int32, server: Server)
    ensures Execute(queries, 0, [], maxAttempts, server) == Ok(BatchSummary(|queries|, 0, 0, []))
  {
    assert AllOk(Workers(queries, JoinedClaims(0, |queries|, []), maxAttempts, server)) == Ok([]);
  }

  /**
   A completed batch reports the sum of the workers' retry counters modulo
   2^64, and one JSON row per record of every worker, in worker order and,
   within a worker, in claim order.
   */
  lemma ExecuteMergesWorkers(queries: Batch, workers: nat, schedule: seq<nat>, maxAttempts: int32, server: Server)
    requires forall k | 0 <= k < |schedule| :: schedule[k] < workers
    ensures Execute(queries, workers, schedule, maxAttempts, server).Ok? ==>
      AllOk(Workers(queries, JoinedClaims(workers, |queries|, schedule), maxAttempts, server)).Ok?
    ensures Execute(queries, workers, schedule, maxAttempts, server).Ok? ==>
      var results := AllOk(Workers(queries, JoinedClaims(workers, |queries|, schedule), maxAttempts, server)).value;
      var summary := Execute(queries, workers, schedule, maxAttempts, server).value;
      && summary.retries == Sum(RetriesOf(results)) % TWO_64
      && |summary.results| == TotalLength(RowsOf(results))
      && forall k | 0 <= k < |summary.results| :: RowToJson(Concat(RowsOf(results))[k]) == Ok(summary.results[k])
  {
    var claims := JoinedClaims(workers, |queries|, schedule);
    var outcomes := AllOk(Workers(queries, claims, maxAttempts, server));
    if outcomes.Ok? {
      ConcatLength(RowsOf(outcomes.value));
    }
  }

  /** Every cell of the row can be written as JSON. */
  predicate RowRepresentable(row: Row)
  {
    forall c | 0 <= c < |row| :: Representable(row[c])
  }

  /** Every query some worker claimed completes within its budget. */
  ghost predicate ClaimsSucceed(queries: Batch, claims: seq<seq<nat>>, maxAttempts: int32, server: Server)
    requires forall w, k | 0 <= w < |claims| && 0 <= k < |claims[w]| :: claims[w][k] < |queries|
  {
    forall w, k | 0 <= w < |claims| && 0 <= k < |claims[w]| :: RunQuery(queries, claims[w][k], w, maxAttempts, server).Ok?
  }

  /** Every record returned by a claimed query holds only cells JSON can express. */
  ghost predicate RecordsRepresentable(queries: Batch, claims: seq<seq<nat>>, maxAttempts: int32, server: Server)
    requires forall w, k | 0 <= w < |claims| && 0 <= k < |claims[w]| :: claims[w][k] < |queries|
    requires ClaimsSucceed(queries, claims, maxAttempts, server)
  {
    forall w, k, row | 0 <= w < |claims| && 0 <= k < |claims[w]| && row in RunQuery(queries, claims[w][k], w, maxAttempts, server).value.records ::
      RowRepresentable(row)
  }

  /**
   A batch writes its summary exactly when no fatal error fires: every
   claimed query completes within its budget and every cell of every record
   converts to JSON.
   */
  lemma ExecuteCompletes(queries: Batch, workers: nat, schedule: seq<nat>, maxAttempts: int32, server: Server)
    requires forall k | 0 <= k < |schedule| :: schedule[k] < workers
    ensures var claims := JoinedClaims(workers, |queries|, schedule);
      (Execute(queries, workers, schedule, maxAttempts, server).Ok?
       <==> ClaimsSucceed(queries, claims, maxAttempts, server) && RecordsRepresentable(queries, claims, maxAttempts, server))
  {
    var claims := JoinedClaims(workers, |queries|, schedule);
    var all := AllOk(Workers(queries, claims, maxAttempts, server));
    if all.Fatal? {
      ExhaustedClaim(queries, claims, maxAttempts, server);
    } else {
      MergedRowsRepresentable(queries, claims, maxAttempts, server, all.value);
    }
  }

  /**
   An exhausted budget stops a batch exactly when some claimed query fails,
   and the failure reported is that query's.
   */
  lemma ExecuteExhausted(queries: Batch, workers: nat, schedule: seq<nat>, maxAttempts: int32, server: Server)
    requires forall k | 0 <= k < |schedule| :: schedule[k] < workers
    ensures var claims := JoinedClaims(workers, |queries|, schedule);
      var r := Execute(queries, workers, schedule, maxAttempts, server);
      r.Fatal? ==> (r.failure.RetriesExhausted? <==> !ClaimsSucceed(queries, claims, maxAttempts, server))
    ensures var claims := JoinedClaims(workers, |queries|, schedule);
      var r := Execute(queries, workers, schedule, maxAttempts, server);
      r.Fatal? && r.failure.RetriesExhausted? ==>
        exists w, k :: 0 <= w < workers && 0 <= k < |claims[w]| && RunQuery(queries, claims[w][k], w, maxAttempts, server) == Fatal(r.failure)
  {
    var claims := JoinedClaims(workers, |queries|, schedule);
    var all := AllOk(Workers(queries, claims, maxAttempts, server));
    if all.Fatal? {
      ExhaustedClaim(queries, claims, maxAttempts, server);
    } else {
      WorkersSucceed(queries, claims, maxAttempts, server, all.value);
    }
  }

  /**
   An unsupported cell stops a batch only once every claimed query has
   completed, and only when some record holds a cell JSON cannot express.
   */
  lemma ExecuteUnsupported(queries: Batch, workers: nat, schedule: seq<nat>, maxAttempts: int32, server: Server)
    requires forall k | 0 <= k < |schedule| :: schedule[k] < workers
    ensures var claims := JoinedClaims(workers, |queries|, schedule);
      var r := Execute(queries, workers, schedule, maxAttempts, server);
      r.Fatal? && r.failure.UnsupportedBoltType? ==>
        ClaimsSucceed(queries, claims, maxAttempts, server) && !RecordsRepresentable(queries, claims, maxAttempts, server)
  {
    var claims := JoinedClaims(workers, |queries|, schedule);
    var all := AllOk(Workers(queries, claims, maxAttempts, server));
    ExecuteCompletes(queries, workers, schedule, maxAttempts, server);
    if all.Fatal? {
      ExhaustedClaim(queries, claims, maxAttempts, server);
    } else {
      WorkersSucceed(queries, claims, maxAttempts, server, all.value);
    }
  }

  /** When some worker stops, the failure is an exhausted budget, that of a query it claimed. */
  lemma ExhaustedClaim(queries: Batch, claims: seq<seq<nat>>, maxAttempts: int32, server: Server)
    requires forall w, k | 0 <= w < |claims| && 0 <= k < |claims[w]| :: claims[w][k] < |queries|
    requires forall w | 0 <= w < |claims| :: ValidClaims(queries, claims[w])
    ensures var all := AllOk(Workers(queries, claims, maxAttempts, server));
      all.Fatal? ==>
        && all.failure.RetriesExhausted?
        && !ClaimsSucceed(queries, claims, maxAttempts, server)
        && exists w, k :: 0 <= w < |claims| && 0 <= k < |claims[w]| && RunQuery(queries, claims[w][k], w, maxAttempts, server) == Fatal(all.failure)
  {
    var outcomes := Workers(queries, claims, maxAttempts, server);
    var all := AllOk(outcomes);
    if all.Fatal? {
      var w :| 0 <= w < |outcomes| && outcomes[w] == Fatal(all.failure);
      var k :| 0 <= k < |claims[w]| && RunQuery(queries, claims[w][k], w, maxAttempts, server) == Fatal(all.failure);
      assert !ClaimsSucceed(queries, claims, maxAttempts, server);
    }
  }

  /** The conversion of the rows succeeds exactly when every row is representable. */
  lemma RowsToJsonOk(rows: seq<Row>)
    ensures RowsToJson(rows).Ok? <==> forall row | row in rows :: RowRepresentable(row)
  {
    if RowsToJson(rows).Ok? {
      forall row | row in rows
        ensures RowRepresentable(row)
      {
        var j :| 0 <= j < |rows| && rows[j] == row;
      }
    } else {
      var j :| 0 <= j < |rows| && !RowRepresentable(rows[j]);
      assert rows[j] in rows;
    }
  }

  /** A completed worker's rows are representable exactly when the records of its claimed queries are. */
  lemma WorkerRowsRepresentable(queries: Batch, claimed: seq<nat>, w: nat, maxAttempts: int32, server: Server, result: WorkerResult)
    requires ValidClaims(queries, claimed)
    requires RunWorker(queries, claimed, w, maxAttempts, server) == Ok(result)
    ensures (forall row | row in Concat(result.rows) :: RowRepresentable(row))
      <==> (forall k, row | 0 <= k < |claimed| && row in RunQuery(queries, claimed[k], w, maxAttempts, server).value.records :: RowRepresentable(row))
  {
    ConcatAll(result.rows, RowRepresentable);
  }

  /** When every worker completes, so does every query it claimed. */
  lemma WorkersSucceed(queries: Batch, claims: seq<seq<nat>>, maxAttempts: int32, server: Server, results: seq<WorkerResult>)
    requires forall w, k | 0 <= w < |claims| && 0 <= k < |claims[w]| :: claims[w][k] < |queries|
    requires forall w | 0 <= w < |claims| :: ValidClaims(queries, claims[w])
    requires |results| == |claims|
    requires forall w | 0 <= w < |claims| :: RunWorker(queries, claims[w], w, maxAttempts, server) == Ok(results[w])
    ensures ClaimsSucceed(queries, claims, maxAttempts, server)
  {
    forall w, k | 0 <= w < |claims| && 0 <= k < |claims[w]|
      ensures RunQuery(queries, claims[w][k], w, maxAttempts, server).Ok?
    {
      assert RunWorker(queries, claims[w], w, maxAttempts, server).Ok?;
    }
  }

  /**
   When every worker completes, the merged rows are exactly the records of
   the claimed queries, so they all convert exactly when those records do.
   */
  lemma MergedRowsRepresentable(queries: Batch, claims: seq<seq<nat>>, maxAttempts: int32, server: Server, results: seq<WorkerResult>)
    requires forall w, k | 0 <= w < |claims| && 0 <= k < |claims[w]| :: claims[w][k] < |queries|
    requires forall w | 0 <= w < |claims| :: ValidClaims(queries, claims[w])
    requires |results| == |claims|
    requires forall w | 0 <= w < |claims| :: RunWorker(queries, claims[w], w, maxAttempts, server) == Ok(results[w])
    ensures ClaimsSucceed(queries, claims, maxAttempts, server)
    ensures RowsToJson(Concat(RowsOf(results))).Ok? <==> RecordsRepresentable(queries, claims, maxAttempts, server)
  {
    WorkersSucceed(queries, claims, maxAttempts, server, results);
    RowsToJsonOk(Concat(RowsOf(results)));
    ConcatAll(RowsOf(results), RowRepresentable);
    forall w | 0 <= w < |claims|
      ensures (forall row | row in RowsOf(results)[w] :: RowRepresentable(row))
        <==> (forall k, row | 0 <= k < |claims[w]| && row in RunQuery(queries, claims[w][k], w, maxAttempts, server).value.records :: RowRepresentable(row))
    {
      WorkerRowsRepresentable(queries, claims[w], w, maxAttempts, server, results[w]);
    }
  }

  /** Query `i` was claimed by worker `w`, which completed it. */
  ghost predicate CompletedBy(queries: Batch, claims: seq<seq<nat>>, i: nat, w: nat, maxAttempts: int32, server: Server)
  {
    && i < |queries|
    && w < |claims|
    && i in claims[w]
    && RunQuery(queries, i, w, maxAttempts, server).Ok?
  }

  /** Some worker claimed query `i` and completed it. */
  ghost predicate Completed(queries: Batch, claims: seq<seq<nat>>, i: nat, maxAttempts: int32, server: Server)
  {
    exists w :: CompletedBy(queries, claims, i, w, maxAttempts, server)
  }

  /** A batch completes only if every worker completed every query it claimed. */
  lemma ExecuteOkWorkersOk(queries: Batch, workers: nat, schedule: seq<nat>, maxAttempts: int32, server: Server)
    requires forall k | 0 <= k < |schedule| :: schedule[k] < workers
    ensures var claims := JoinedClaims(workers, |queries|, schedule);
      Execute(queries, workers, schedule, maxAttempts, server).Ok? ==>
      forall w, k | 0 <= w < workers && 0 <= k < |claims[w]| :: RunQuery(queries, claims[w][k], w, maxAttempts, server).Ok?
  {
    var claims := JoinedClaims(workers, |queries|, schedule);
    var outcomes := Workers(queries, claims, maxAttempts, server);
    assert Execute(queries, workers, schedule, maxAttempts, server).Ok? ==> AllOk(outcomes).Ok?;
  }

  /**
   A batch that completes with at least one worker has executed every one
   of its queries successfully, each by the one worker that claimed it.
   */
  lemma ExecuteCompletesEveryQueryOnce(queries: Batch, workers: nat, schedule: seq<nat>, maxAttempts: int32, server: Server)
    requires workers >= 1
    requires forall k | 0 <= k < |schedule| :: schedule[k] < workers
    ensures Disjoint(JoinedClaims(workers, |queries|, schedule))
    ensures Execute(queries, workers, schedule, maxAttempts, server).Ok? ==> forall i: nat | i < |queries| ::
      Completed(queries, JoinedClaims(workers, |queries|, schedule), i, maxAttempts, server)
  {
    var claims := JoinedClaims(workers, |queries|, schedule);
    ClaimsPartitionAtJoin(workers, |queries|, schedule);
    ExecuteOkWorkersOk(queries, workers, schedule, maxAttempts, server);
    forall i: nat | i < |queries| && Execute(queries, workers, schedule, maxAttempts, server).Ok?
      ensures Completed(queries, claims, i, maxAttempts, server)
    {
      assert Owned(claims, i);
      var w :| 0 <= w < |claims| && i in claims[w];
      var k :| 0 <= k < |claims[w]| && claims[w][k] == i;
      assert CompletedBy(queries, claims, i, w, maxAttempts, server);
    }
  }

  /** A worker whose every query succeeds at once with no records reports no retries and no rows. */
  lemma WorkerFirstTrySuccess(queries: Batch, claimed: seq<nat>, w: nat, maxAttempts: int32, server: Server)
    requires ValidClaims(queries, claimed)
    requires maxAttempts >= 1
    requires forall i: nat :: server(w, i, 0).Succeeded? && server(w, i, 0).records == []
    ensures RunWorker(queries, claimed, w, maxAttempts, server).Ok?
    ensures RunWorker(queries, claimed, w, maxAttempts, server).value.retries == 0
    ensures Concat(RunWorker(queries, claimed, w, maxAttempts, server).value.rows) == []
  {
    forall k | 0 <= k < |claimed|
      ensures RunQuery(queries, claimed[k], w, maxAttempts, server) == Ok(Executed(server(w, claimed[k], 0).metadata, [], 0))
    {
      FirstAttemptSucceeds(queries[claimed[k]].text, maxAttempts, ConnectionOf(server, w, claimed[k]));
    }
    SumOfZeros(RetriesSpent(queries, claimed, w, maxAttempts, server));
    ConcatOfEmpties(RunWorker(queries, claimed, w, maxAttempts, server).value.rows);
  }

  /**
   Against a server whose first answer to every query is a success without
   records (whatever its metadata),
   a batch completes with the batch size as its count, no retries and no rows.
   */
  lemma ExecuteFirstTrySuccess(queries: Batch, workers: nat, schedule: seq<nat>, maxAttempts: int32, server: Server)
    requires maxAttempts >= 1
    requires forall k | 0 <= k < |schedule| :: schedule[k] < workers
    requires forall w: nat, i: nat :: server(w, i, 0).Succeeded? && server(w, i, 0).records == []
    ensures Execute(queries, workers, schedule, maxAttempts, server) == Ok(BatchSummary(|queries|, 0, workers, []))
  {
    var claims := JoinedClaims(workers, |queries|, schedule);
    forall w | 0 <= w < workers
      ensures QuietWorker(queries, claims, w, maxAttempts, server)
    {
      WorkerFirstTrySuccess(queries, claims[w], w, maxAttempts, server);
    }
    ExecuteQuietWorkers(queries, workers, schedule, maxAttempts, server);
  }
}
