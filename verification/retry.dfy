/**
 `ExecuteNTimesTillSuccess`: run one query on one connection, retrying
 immediately on failure, and stop the process once the attempt budget is spent.
 */
module Retry {
  import opened Ints
  import opened Common
  import opened Values

  /** What one call of `Client::Execute` does: fail with a message or return metadata and records. */
  datatype Attempt =
    | Failed(error: string)
    | Succeeded(metadata: map<string, Bolt>, records: seq<Row>)

  /** A successful execution and the number of failed attempts before it. */
  datatype Executed = Executed(metadata: map<string, Bolt>, records: seq<Row>, retries: uint64)

  /**
   How many attempts the loop makes: the `int` parameter is converted to
   `uint64_t` when compared with the loop counter, so a negative argument
   becomes a bound of at least 2^63.
   */
  function AttemptBound(maxAttempts: int32): (n: nat)
    ensures n < TWO_64
    ensures maxAttempts >= 0 ==> n == maxAttempts
    ensures maxAttempts < 0 ==> n >= TWO_63
  {
    UnsignedOf(maxAttempts)
  }

  /** The attempt budget a worker passes: `FLAGS_max_retries` narrowed to `int`. */
  function BudgetOfFlag(maxRetries: uint64): (n: nat)
    ensures maxRetries % TWO_32 < TWO_31 ==> n == maxRetries % TWO_32
    ensures maxRetries % TWO_32 >= TWO_31 ==> n >= TWO_63
    ensures maxRetries < TWO_31 ==> n == maxRetries
    ensures maxRetries == TWO_32 ==> n == 0
  {
    AttemptBound(Narrow(maxRetries))
  }

  /**
   The error quoted by the fatal message when the loop, started at attempt
   `i`, runs out: the final attempt's error, or none when no attempt is left.
   */
  function LastError(maxAttempts: int32, connection: nat -> Attempt, i: nat): Option<string>
  {
    var n := AttemptBound(maxAttempts);
    if i < n && connection(n - 1).Failed? then Some(connection(n - 1).error) else None
  }

  /**
   The retry loop from attempt `i` on. `connection(k)` is what the k-th call
   of `Execute` on this connection returns.
   */
  function AttemptFrom(query: string, maxAttempts: int32, connection: nat -> Attempt, i: nat): (r: Result<Executed>)
    requires i <= AttemptBound(maxAttempts)
    ensures r.Ok? ==> i <= r.value.retries < AttemptBound(maxAttempts)
    ensures r.Ok? ==> connection(r.value.retries) == Succeeded(r.value.metadata, r.value.records)
    ensures r.Ok? ==> forall k | i <= k < r.value.retries :: connection(k).Failed?
    ensures r.Fatal? ==> forall k | i <= k < AttemptBound(maxAttempts) :: connection(k).Failed?
    ensures r.Fatal? ==> r.failure == RetriesExhausted(query, maxAttempts, LastError(maxAttempts, connection, i))
    decreases AttemptBound(maxAttempts) - i
  {
    var n := AttemptBound(maxAttempts);
    if i < n then
      match connection(i)
      case Succeeded(md, rows) => Ok(Executed(md, rows, i))
      case Failed(e) =>
        if i == n - 1 then Fatal(RetriesExhausted(query, maxAttempts, Some(e)))
        else AttemptFrom(query, maxAttempts, connection, i + 1)
    else
      Fatal(RetriesExhausted(query, maxAttempts, None))
  }

  /**
   Executes `query` until an attempt succeeds. The retry count is the index
   of the first successful attempt; if none of the first `maxAttempts`
   attempts succeeds the process stops, quoting the last error when there
   was an attempt at all.
   */
  function ExecuteNTimesTillSuccess(query: string, maxAttempts: int32, connection: nat -> Attempt): (r: Result<Executed>)
    ensures r.Ok? <==> exists k :: 0 <= k < AttemptBound(maxAttempts) && connection(k).Succeeded?
    ensures r.Ok? ==> r.value.retries < AttemptBound(maxAttempts)
    ensures r.Ok? ==> forall k | 0 <= k < r.value.retries :: connection(k).Failed?
    ensures r.Ok? ==> connection(r.value.retries) == Succeeded(r.value.metadata, r.value.records)
    ensures r.Fatal? ==> r.failure == RetriesExhausted(query, maxAttempts, LastError(maxAttempts, connection, 0))
  {
    AttemptFrom(query, maxAttempts, connection, 0)
  }

  /** A first attempt that succeeds costs no retry. */
  lemma FirstAttemptSucceeds(query: string, maxAttempts: int32, connection: nat -> Attempt)
    requires AttemptBound(maxAttempts) > 0
    requires connection(0).Succeeded?
    ensures ExecuteNTimesTillSuccess(query, maxAttempts, connection)
         == Ok(Executed(connection(0).metadata, connection(0).records, 0))
  {
  }

  /** After exactly `k` failures and then a success within the budget, the retry count is `k`. */
  lemma {:induction false} SucceedsAfterFailures(query: string, maxAttempts: int32, connection: nat -> Attempt, k: nat)
    requires k < AttemptBound(maxAttempts)
    requires forall j | 0 <= j < k :: connection(j).Failed?
    requires connection(k).Succeeded?
    ensures ExecuteNTimesTillSuccess(query, maxAttempts, connection)
         == Ok(Executed(connection(k).metadata, connection(k).records, k))
  {
    SucceedsFrom(query, maxAttempts, connection, 0, k);
  }

  lemma {:induction false} SucceedsFrom(query: string, maxAttempts: int32, connection: nat -> Attempt, i: nat, k: nat)
    requires i <= k < AttemptBound(maxAttempts)
    requires forall j | i <= j < k :: connection(j).Failed?
    requires connection(k).Succeeded?
    ensures AttemptFrom(query, maxAttempts, connection, i)
         == Ok(Executed(connection(k).metadata, connection(k).records, k))
    decreases k - i
  {
    if i < k {
      SucceedsFrom(query, maxAttempts, connection, i + 1, k);
    }
  }

  /** When every attempt within the budget fails, the process stops with the last attempt's error. */
  lemma Exhausted(query: string, maxAttempts: int32, connection: nat -> Attempt)
    requires AttemptBound(maxAttempts) > 0
    requires forall j | 0 <= j < AttemptBound(maxAttempts) :: connection(j).Failed?
    ensures ExecuteNTimesTillSuccess(query, maxAttempts, connection)
         == Fatal(RetriesExhausted(query, maxAttempts, Some(connection(AttemptBound(maxAttempts) - 1).error)))
  {
    ExhaustedFrom(query, maxAttempts, connection, 0);
  }

  lemma {:induction false} ExhaustedFrom(query: string, maxAttempts: int32, connection: nat -> Attempt, i: nat)
    requires i < AttemptBound(maxAttempts)
    requires forall j | i <= j < AttemptBound(maxAttempts) :: connection(j).Failed?
    ensures AttemptFrom(query, maxAttempts, connection, i)
         == Fatal(RetriesExhausted(query, maxAttempts, Some(connection(AttemptBound(maxAttempts) - 1).error)))
    decreases AttemptBound(maxAttempts) - i
  {
    if i + 1 < AttemptBound(maxAttempts) {
      ExhaustedFrom(query, maxAttempts, connection, i + 1);
    }
  }

  /** With a budget of zero no attempt is made and the process stops without an error message. */
  lemma ZeroBudget(query: string, connection: nat -> Attempt)
    ensures ExecuteNTimesTillSuccess(query, 0, connection) == Fatal(RetriesExhausted(query, 0, None))
  {
  }

  /**
   A connection that fails twice and then succeeds: with three attempts the
   query completes after two retries, with two attempts the process stops.
   */
  lemma FailTwiceThenSucceed(query: string, md: map<string, Bolt>, rows: seq<Row>)
    ensures var connection := (k: nat) => if k < 2 then Failed("error") else Succeeded(md, rows);
      && ExecuteNTimesTillSuccess(query, 3, connection) == Ok(Executed(md, rows, 2))
      && ExecuteNTimesTillSuccess(query, 2, connection) == Fatal(RetriesExhausted(query, 2, Some("error")))
  {
    var connection := (k: nat) => if k < 2 then Failed("error") else Succeeded(md, rows);
    SucceedsAfterFailures(query, 3, connection, 2);
    Exhausted(query, 2, connection);
  }
}
