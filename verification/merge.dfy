/**
 The single-threaded merge after `join`: retry counters are added up in
 `uint64_t` and every worker's rows are appended, worker by worker, query by
 query.
 */
module Merge {
  import opened Ints
  import opened Common
  import opened Values

  /** What one worker leaves behind: its retry counter and the rows of each query it executed, in claim order. */
  datatype WorkerResult = WorkerResult(retries: uint64, rows: seq<seq<Row>>)

  datatype Merged = Merged(totalRetries: uint64, allRows: seq<Row>)

  /** The retry counters, one per worker. */
  function RetriesOf(results: seq<WorkerResult>): (xs: seq<nat>)
    ensures |xs| == |results|
  {
    seq(|results|, w requires 0 <= w < |results| => results[w].retries)
  }

  /** Each worker's rows joined into one list, one list per worker. */
  function RowsOf(results: seq<WorkerResult>): (xss: seq<seq<Row>>)
    ensures |xss| == |results|
  {
    seq(|results|, w requires 0 <= w < |results| => Concat(results[w].rows))
  }

  /** The inner loop: appends each row of each query's row list to `acc`. */
  function AppendRows(acc: seq<Row>, batches: seq<seq<Row>>): (r: seq<Row>)
    ensures r == acc + Concat(batches)
    decreases |batches|
  {
    if batches == [] then acc
    else
      assert acc + Concat(batches) == (acc + batches[0]) + Concat(batches[1..]);
      AppendRows(acc + batches[0], batches[1..])
  }

  /** The merge loop after it has folded in the first `n` workers. */
  function MergeFirst(results: seq<WorkerResult>, n: nat): (m: Merged)
    requires n <= |results|
    ensures m.totalRetries == Sum(RetriesOf(results[..n])) % TWO_64
    ensures m.allRows == Concat(RowsOf(results[..n]))
  {
    if n == 0 then Merged(0, [])
    else
      var m := MergeFirst(results, n - 1);
      var w := results[n - 1];
      assert RetriesOf(results[..n]) == RetriesOf(results[..n - 1]) + [w.retries];
      assert RowsOf(results[..n]) == RowsOf(results[..n - 1]) + [Concat(w.rows)];
      SumSnoc(RetriesOf(results[..n - 1]), w.retries);
      ConcatSnoc(RowsOf(results[..n - 1]), Concat(w.rows));
      ModAddLeft(Sum(RetriesOf(results[..n - 1])), w.retries);
      Merged(AddU64(m.totalRetries, w.retries), AppendRows(m.allRows, w.rows))
  }

  /**
   Merges all workers: the total is the sum of the per-worker counters modulo
   2^64, and the rows are every worker's rows in worker order.
   */
  function MergeResults(results: seq<WorkerResult>): (m: Merged)
    ensures m.totalRetries == Sum(RetriesOf(results)) % TWO_64
    ensures m.allRows == Concat(RowsOf(results))
  {
    assert results[..|results|] == results;
    MergeFirst(results, |results|)
  }

  /** The merged rows number as many as all queries of all workers returned. */
  lemma {:induction false} MergedRowCount(results: seq<WorkerResult>)
    ensures |MergeResults(results).allRows| == TotalLength(RowsOf(results))
    ensures forall w | 0 <= w < |results| :: |RowsOf(results)[w]| == TotalLength(results[w].rows)
  {
    ConcatLength(RowsOf(results));
    forall w | 0 <= w < |results|
      ensures |RowsOf(results)[w]| == TotalLength(results[w].rows)
    {
      ConcatLength(results[w].rows);
    }
  }

  /** While the sum stays below 2^64 the reported total is the exact sum. */
  lemma MergedRetriesExact(results: seq<WorkerResult>)
    requires Sum(RetriesOf(results)) < TWO_64
    ensures MergeResults(results).totalRetries == Sum(RetriesOf(results))
  {
  }
}
