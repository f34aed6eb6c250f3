/**
 The whole run of `main`: the batches cut from the input are executed in
 order, one summary line each, until the input ends or a fatal condition
 (exhausted retries, an unsupported result value, a malformed JSON line)
 stops the process.
 */
module Benchmark {
  import opened Ints
  import opened Common
  import opened Values
  import opened Retry
  import opened Batching
  import opened Input
  import opened Bench

  /** The summary lines written, and the condition that ended the process early, if any. */
  datatype Report = Report(summaries: seq<BatchSummary>, failure: Option<Failure>)

  /** Every schedule only names existing workers. */
  ghost predicate SchedulesValid(workers: nat, schedules: nat -> seq<nat>)
  {
    forall b: nat, k | 0 <= k < |schedules(b)| :: schedules(b)[k] < workers
  }

  /**
   What executing each batch would give: batch `b` uses `schedules(b)` and
   `servers(b)`, and every call passes `FLAGS_max_retries` narrowed to `int`.
   */
  function BatchOutcomes(batched: Batched, workers: nat, schedules: nat -> seq<nat>, maxRetries: uint64, servers: nat -> Server): (os: seq<Result<BatchSummary>>)
    requires SchedulesValid(workers, schedules)
    ensures |os| == |batched.batches|
    ensures forall b | 0 <= b < |os| ::
      os[b] == Execute(batched.batches[b], workers, schedules(b), Narrow(maxRetries), servers(b))
    ensures forall b | 0 <= b < |os| :: os[b].Ok? ==> os[b].value.count == |batched.batches[b]| && os[b].value.numWorkers == workers
    ensures forall b | 0 <= b < |os| :: os[b].Fatal? ==> !os[b].failure.MalformedInput?
  {
    var os := seq(|batched.batches|, b requires 0 <= b < |batched.batches| =>
      Execute(batched.batches[b], workers, schedules(b), Narrow(maxRetries), servers(b)));
    assert forall b | 0 <= b < |os| ::
      os[b] == Execute(batched.batches[b], workers, schedules(b), Narrow(maxRetries), servers(b));
    os
  }

  /**
   The batches run in order: a summary is written for each batch until the
   first one that fails, and that failure ends the process. When every batch
   succeeds, the process ends with `stoppedAt`'s malformed line, if any.
   */
  function Collect(outcomes: seq<Result<BatchSummary>>, stoppedAt: Option<nat>): (rep: Report)
    ensures |rep.summaries| <= |outcomes|
    ensures forall j | 0 <= j < |rep.summaries| :: outcomes[j] == Ok(rep.summaries[j])
    ensures |rep.summaries| < |outcomes| ==>
      outcomes[|rep.summaries|].Fatal? && rep.failure == Some(outcomes[|rep.summaries|].failure)
    ensures |rep.summaries| == |outcomes| ==>
      rep.failure == if stoppedAt.Some? then Some(MalformedInput(stoppedAt.value)) else None
  {
    if |outcomes| == 0 then
      Report([], if stoppedAt.Some? then Some(MalformedInput(stoppedAt.value)) else None)
    else
      match outcomes[0]
      case Fatal(f) => Report([], Some(f))
      case Ok(summary) =>
        var rest := Collect(outcomes[1..], stoppedAt);
        Report([summary] + rest.summaries, rest.failure)
  }

  function RunBatches(batched: Batched, workers: nat, schedules: nat -> seq<nat>, maxRetries: uint64, servers: nat -> Server): (rep: Report)
    requires SchedulesValid(workers, schedules)
    ensures |rep.summaries| <= |batched.batches|
    ensures forall j | 0 <= j < |rep.summaries| ::
      Execute(batched.batches[j], workers, schedules(j), Narrow(maxRetries), servers(j)) == Ok(rep.summaries[j])
    ensures forall j | 0 <= j < |rep.summaries| ::
      rep.summaries[j].count == |batched.batches[j]| && rep.summaries[j].numWorkers == workers
    ensures |rep.summaries| < |batched.batches| ==> rep.failure.Some? && !rep.failure.value.MalformedInput?
    ensures |rep.summaries| < |batched.batches| ==>
      var b := |rep.summaries|;
      rep.failure.Some? && Execute(batched.batches[b], workers, schedules(b), Narrow(maxRetries), servers(b)) == Fatal(rep.failure.value)
    ensures |rep.summaries| == |batched.batches| ==>
      rep.failure == if batched.stoppedAt.Some? then Some(MalformedInput(batched.stoppedAt.value)) else None
  {
    Collect(BatchOutcomes(batched, workers, schedules, maxRetries, servers), batched.stoppedAt)
  }

  /** `main` in plain-text mode. */
  function RunPlain(lines: seq<string>, workers: nat, schedules: nat -> seq<nat>, maxRetries: uint64, servers: nat -> Server): (rep: Report)
    requires SchedulesValid(workers, schedules)
    ensures rep.failure.None? ==> |rep.summaries| == CountSeparators(lines) + 1
    ensures rep.failure.Some? ==> !rep.failure.value.MalformedInput?
  {
    PlainBatchesSpec(lines);
    RunBatches(Batched(PlainBatches(lines), None), workers, schedules, maxRetries, servers)
  }

  /** `main` in JSON mode. */
  function RunJson(lines: seq<Json>, workers: nat, schedules: nat -> seq<nat>, maxRetries: uint64, servers: nat -> Server): (rep: Report)
    requires SchedulesValid(workers, schedules)
  {
    RunBatches(JsonBatches(lines), workers, schedules, maxRetries, servers)
  }

  /**
   In JSON mode a malformed line ends the run with `MalformedInput` unless a
   batch before it already failed; it is never reached when no line is malformed.
   */
  lemma RunJsonStops(lines: seq<Json>, k: nat, workers: nat, schedules: nat -> seq<nat>, maxRetries: uint64, servers: nat -> Server)
    requires SchedulesValid(workers, schedules)
    requires k < |lines| && !IsEmptyJson(lines[k]) && !IsQueryLine(lines[k])
    requires forall j | 0 <= j < k :: IsEmptyJson(lines[j]) || IsQueryLine(lines[j])
    ensures var rep := RunJson(lines, workers, schedules, maxRetries, servers);
      rep.failure.Some?
      && (|rep.summaries| == |JsonBatches(lines[..k]).batches| - 1 ==> rep.failure == Some(MalformedInput(k)))
  {
    JsonBatchesStop(lines, k);
  }

  /**
   Against servers that answer every first attempt with a success without
   records (whatever its metadata), and with a retry flag that survives the
   narrowing to `int`, every batch gets its summary line (its size, no
   retries, no results) and the run ends only where the input does.
   */
  lemma RunFirstTrySuccess(batched: Batched, workers: nat, schedules: nat -> seq<nat>, maxRetries: uint64, servers: nat -> Server)
    requires SchedulesValid(workers, schedules)
    requires 1 <= maxRetries < TWO_31
    requires forall b: nat, w: nat, i: nat :: servers(b)(w, i, 0).Succeeded? && servers(b)(w, i, 0).records == []
    ensures var rep := RunBatches(batched, workers, schedules, maxRetries, servers);
      && |rep.summaries| == |batched.batches|
      && (forall j | 0 <= j < |rep.summaries| :: rep.summaries[j] == BatchSummary(|batched.batches[j]|, 0, workers, []))
      && rep.failure == if batched.stoppedAt.Some? then Some(MalformedInput(batched.stoppedAt.value)) else None
  {
    var os := BatchOutcomes(batched, workers, schedules, maxRetries, servers);
    assert Narrow(maxRetries) == maxRetries;
    forall b | 0 <= b < |os|
      ensures os[b] == Ok(BatchSummary(|batched.batches[b]|, 0, workers, []))
    {
      ExecuteFirstTrySuccess(batched.batches[b], workers, schedules(b), maxRetries as int32, servers(b));
    }
  }

  /**
   A query line `[text, {}]` followed by the empty array `[]`, two workers,
   three attempts, and servers that always answer at once with metadata
   only (such as `{"rows": 5}`) and no records:
   two summary lines are written, the query's batch (count 1, no retries)
   and then the final batch, which is empty (count 0).
   The input is a parameter fixed by `requires` rather than a literal in the
   statement, so the verifier does not unfold every function on it eagerly;
   `ScenarioBatches` computes its batches once.
   */
  lemma SingleQueryScenario(text: string, lines: seq<Json>, schedules: nat -> seq<nat>, servers: nat -> Server)
    requires lines == [JArray([JString(text), JObject(map[])]), JArray([])]
    requires SchedulesValid(2, schedules)
    requires forall b: nat, w: nat, i: nat :: servers(b)(w, i, 0).Succeeded? && servers(b)(w, i, 0).records == []
    ensures var rep := RunJson(lines, 2, schedules, 3, servers);
      |rep.summaries| == 2 && rep.failure == None
      && rep.summaries[0] == BatchSummary(1, 0, 2, []) && rep.summaries[1] == BatchSummary(0, 0, 2, [])
  {
    var batched := ScenarioBatches(text, lines);
    RunFirstTrySuccess(batched, 2, schedules, 3, servers);
  }

  /** The batches of the scenario input: the query alone, then the empty final batch. */
  lemma ScenarioBatches(text: string, lines: seq<Json>) returns (batched: Batched)
    requires lines == [JArray([JString(text), JObject(map[])]), JArray([])]
    ensures JsonBatches(lines) == batched
    ensures |batched.batches| == 2 && batched.stoppedAt == None
    ensures |batched.batches[0]| == 1 && |batched.batches[1]| == 0
  {
    var q := Query(text, map[]);
    assert JsonToBoltValue(JObject(map[])).fields == map[];
    var es := JsonEntries(lines);
    assert es == [Item(q), Boundary] by {
      assert JsonEntry(lines[0]) == Item(q);
      assert JsonEntry(lines[1]) == Boundary;
    }
    SplitEntriesWellFormed(es);
    SplitCons(Boundary, []);
    SplitCons(Item(q), [Boundary]);
    assert [Boundary] == [Boundary] + [];
    assert es == [Item(q)] + [Boundary];
    batched := JsonBatches(lines);
  }
}
