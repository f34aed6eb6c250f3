/**
 The shared claim cursor of `Execute`. Each worker repeatedly does
 `i = pos.fetch_add(1)` and stops once `i >= size`. The threads are replaced
 by a schedule: the sequence of worker ids in the order their `fetch_add`
 calls take effect.
 */
module Cursor {
  import opened Common

  /**
   The cursor and what it has handed out. `handedTo[i]` is the worker whose
   `fetch_add` returned `i`, so the cursor's current value is `|handedTo|`;
   `claims[w]` lists the indices below `size` that worker `w` executes;
   `exited[w]` records that `w` left its loop.
   */
  datatype State = State(handedTo: seq<nat>, claims: seq<seq<nat>>, exited: seq<bool>)
  {
    function Position(): nat { |handedTo| }
    function Workers(): nat { |claims| }
  }

  predicate Increasing(s: seq<nat>)
  {
    forall a, b | 0 <= a < b < |s| :: s[a] < s[b]
  }

  /** Fresh coordination state for `workers` threads: cursor at zero, nothing claimed. */
  function Start(workers: nat): (c: State)
    ensures c.Position() == 0 && c.Workers() == workers && |c.exited| == workers
    ensures forall w | 0 <= w < workers :: c.claims[w] == [] && !c.exited[w]
    ensures forall size: nat :: Consistent(c, size)
  {
    var c := State([], seq(workers, _ => []), seq(workers, _ => false));
    TotalLengthOfEmpties<nat>(c.claims);
    c
  }

  /** The facts that every reachable state satisfies. */
  ghost predicate Consistent(c: State, size: nat)
  {
    && |c.exited| == |c.claims|
    && (forall i | 0 <= i < |c.handedTo| :: c.handedTo[i] < |c.claims|)
    && (forall w, k | 0 <= w < |c.claims| && 0 <= k < |c.claims[w]| ::
          c.claims[w][k] < size && c.claims[w][k] < |c.handedTo| && c.handedTo[c.claims[w][k]] == w)
    && (forall w | 0 <= w < |c.claims| :: Increasing(c.claims[w]))
    && (forall i | 0 <= i < |c.handedTo| && i < size :: i in c.claims[c.handedTo[i]])
    && (forall w | 0 <= w < |c.claims| && c.exited[w] :: size < |c.handedTo|)
    && TotalLength(c.claims) == if |c.handedTo| < size then |c.handedTo| else size
  }

  /**
   One step of worker `w`: `fetch_add` hands it the cursor value; below `size`
   the worker executes that index, otherwise it leaves the loop. A worker
   that has left takes no further steps.
   */
  function Claim(c: State, size: nat, w: nat): (c': State)
    requires Consistent(c, size) && w < c.Workers()
    ensures Consistent(c', size) && c'.Workers() == c.Workers()
    ensures c.exited[w] ==> c' == c
    ensures !c.exited[w] ==> c'.Position() == c.Position() + 1
    ensures !c.exited[w] && c.Position() < size ==> c'.claims[w] == c.claims[w] + [c.Position()] && !c'.exited[w]
    ensures !c.exited[w] && c.Position() >= size ==> c'.claims == c.claims && c'.exited[w]
    ensures forall v | 0 <= v < c.Workers() && v != w :: c'.claims[v] == c.claims[v] && c'.exited[v] == c.exited[v]
  {
    if c.exited[w] then c
    else if |c.handedTo| >= size then
      ExitKeepsConsistent(c, size, w);
      c.(handedTo := c.handedTo + [w], exited := c.exited[w := true])
    else
      ClaimKeepsConsistent(c, size, w);
      c.(handedTo := c.handedTo + [w], claims := c.claims[w := c.claims[w] + [|c.handedTo|]])
  }

  /** A worker that draws a value at or past `size` leaves its loop without claiming. */
  lemma ExitKeepsConsistent(c: State, size: nat, w: nat)
    requires Consistent(c, size) && w < c.Workers() && |c.handedTo| >= size
    ensures Consistent(c.(handedTo := c.handedTo + [w], exited := c.exited[w := true]), size)
  {
    var c' := c.(handedTo := c.handedTo + [w], exited := c.exited[w := true]);
    forall v, k | 0 <= v < |c.claims| && 0 <= k < |c.claims[v]|
      ensures c'.handedTo[c.claims[v][k]] == v
    {
      assert c.claims[v][k] < |c.handedTo|;
    }
    forall i | 0 <= i < |c'.handedTo| && i < size
      ensures i in c'.claims[c'.handedTo[i]]
    {
      assert c'.handedTo[i] == c.handedTo[i];
    }
  }

  /** A worker that draws a value below `size` claims it. */
  lemma ClaimKeepsConsistent(c: State, size: nat, w: nat)
    requires Consistent(c, size) && w < c.Workers() && |c.handedTo| < size
    ensures Consistent(c.(handedTo := c.handedTo + [w], claims := c.claims[w := c.claims[w] + [|c.handedTo|]]), size)
  {
    var i := |c.handedTo|;
    var c' := c.(handedTo := c.handedTo + [w], claims := c.claims[w := c.claims[w] + [i]]);
    TotalLengthGrow<nat>(c.claims, w, i);
    ClaimKeepsOwners(c, size, w, c');
    ClaimKeepsOrder(c, size, w, c');
    ClaimKeepsCoverage(c, size, w, c');
  }

  lemma ClaimKeepsOwners(c: State, size: nat, w: nat, c': State)
    requires Consistent(c, size) && w < c.Workers() && |c.handedTo| < size
    requires c' == c.(handedTo := c.handedTo + [w], claims := c.claims[w := c.claims[w] + [|c.handedTo|]])
    ensures forall v, k | 0 <= v < |c'.claims| && 0 <= k < |c'.claims[v]| ::
      c'.claims[v][k] < size && c'.claims[v][k] < |c'.handedTo| && c'.handedTo[c'.claims[v][k]] == v
  {
    forall v, k | 0 <= v < |c'.claims| && 0 <= k < |c'.claims[v]|
      ensures c'.claims[v][k] < size && c'.claims[v][k] < |c'.handedTo| && c'.handedTo[c'.claims[v][k]] == v
    {
      if v != w || k < |c.claims[w]| {
        assert c'.claims[v][k] == c.claims[v][k];
      }
    }
  }

  lemma ClaimKeepsOrder(c: State, size: nat, w: nat, c': State)
    requires Consistent(c, size) && w < c.Workers() && |c.handedTo| < size
    requires c' == c.(handedTo := c.handedTo + [w], claims := c.claims[w := c.claims[w] + [|c.handedTo|]])
    ensures forall v | 0 <= v < |c'.claims| :: Increasing(c'.claims[v])
  {
    forall a, b | 0 <= a < b < |c'.claims[w]|
      ensures c'.claims[w][a] < c'.claims[w][b]
    {
      assert c.claims[w][a] < |c.handedTo|;
    }
    assert Increasing(c'.claims[w]);
  }

  lemma ClaimKeepsCoverage(c: State, size: nat, w: nat, c': State)
    requires Consistent(c, size) && w < c.Workers() && |c.handedTo| < size
    requires c' == c.(handedTo := c.handedTo + [w], claims := c.claims[w := c.claims[w] + [|c.handedTo|]])
    ensures forall j | 0 <= j < |c'.handedTo| && j < size :: j in c'.claims[c'.handedTo[j]]
  {
    forall j | 0 <= j < |c'.handedTo| && j < size
      ensures j in c'.claims[c'.handedTo[j]]
    {
      if j < |c.handedTo| {
        assert j in c.claims[c.handedTo[j]];
      } else {
        assert c'.claims[w][|c.claims[w]|] == j;
      }
    }
  }

  /** Replays a schedule of worker steps from `c`. */
  function Run(c: State, size: nat, schedule: seq<nat>): (c': State)
    requires Consistent(c, size)
    requires forall k | 0 <= k < |schedule| :: schedule[k] < c.Workers()
    ensures Consistent(c', size) && c'.Workers() == c.Workers()
    decreases |schedule|
  {
    if schedule == [] then c
    else Run(Claim(c, size, schedule[0]), size, schedule[1..])
  }

  /** Lets worker `w` claim until it leaves its loop. */
  function RunToExit(c: State, size: nat, w: nat): (c': State)
    requires Consistent(c, size) && w < c.Workers()
    ensures Consistent(c', size) && c'.Workers() == c.Workers()
    ensures c'.exited[w]
    ensures forall v | 0 <= v < c.Workers() && c.exited[v] :: c'.exited[v]
    decreases (if c.exited[w] then 0 else 1) + (if |c.handedTo| < size then size - |c.handedTo| else 0)
  {
    if c.exited[w] then c else RunToExit(Claim(c, size, w), size, w)
  }

  /** Runs every worker from `w` on, in id order, until it leaves its loop. */
  function FinishFrom(c: State, size: nat, w: nat): (c': State)
    requires Consistent(c, size) && w <= c.Workers()
    ensures Consistent(c', size) && c'.Workers() == c.Workers()
    ensures forall v | w <= v < c.Workers() :: c'.exited[v]
    ensures forall v | 0 <= v < c.Workers() && c.exited[v] :: c'.exited[v]
    decreases c.Workers() - w
  {
    if w == c.Workers() then c else FinishFrom(RunToExit(c, size, w), size, w + 1)
  }

  /**
   The state at `join`: the schedule, then every worker still in its loop
   run to the end. Every worker has left its loop.
   */
  function Joined(workers: nat, size: nat, schedule: seq<nat>): (c: State)
    requires forall k | 0 <= k < |schedule| :: schedule[k] < workers
    ensures Consistent(c, size) && c.Workers() == workers
    ensures forall w | 0 <= w < workers :: c.exited[w]
  {
    FinishFrom(Run(Start(workers), size, schedule), size, 0)
  }

  /** What each worker claimed by the time of `join`; every claimed index is below `size`. */
  function JoinedClaims(workers: nat, size: nat, schedule: seq<nat>): (claims: seq<seq<nat>>)
    requires forall k | 0 <= k < |schedule| :: schedule[k] < workers
    ensures |claims| == workers
    ensures forall w | 0 <= w < workers :: forall k | 0 <= k < |claims[w]| :: claims[w][k] < size
  {
    Joined(workers, size, schedule).claims
  }

  /** With nothing to execute every worker leaves its loop on its first draw, claiming nothing. */
  lemma EmptyBatchClaimsNothing(workers: nat, schedule: seq<nat>)
    requires forall k | 0 <= k < |schedule| :: schedule[k] < workers
    ensures forall w | 0 <= w < workers :: JoinedClaims(workers, 0, schedule)[w] == []
  {
    EmptiesOfTotalLength(Joined(workers, 0, schedule).claims);
  }

  /** No worker executes an index at or beyond `size`. */
  ghost predicate InRange(claims: seq<seq<nat>>, size: nat)
  {
    forall w, i | 0 <= w < |claims| && i in claims[w] :: i < size
  }

  /** No index is executed by two workers. */
  ghost predicate Disjoint(claims: seq<seq<nat>>)
  {
    forall w1, w2, i | 0 <= w1 < |claims| && 0 <= w2 < |claims| && i in claims[w1] && i in claims[w2] :: w1 == w2
  }

  /** Some worker executes index `i`. */
  ghost predicate Owned(claims: seq<seq<nat>>, i: nat)
  {
    exists w :: 0 <= w < |claims| && i in claims[w]
  }

  /** Every index below `size` is executed by some worker. */
  ghost predicate Covers(claims: seq<seq<nat>>, size: nat)
  {
    forall i: nat | i < size :: Owned(claims, i)
  }

  /**
   At any point of any schedule the indices handed out below `size` are
   split between the workers without overlap, each worker's in increasing
   order, and together they are exactly the cursor values below `size`.
   */
  lemma {:induction false} ClaimsPartitionPrefix(workers: nat, size: nat, schedule: seq<nat>)
    requires forall k | 0 <= k < |schedule| :: schedule[k] < workers
    ensures var c := Run(Start(workers), size, schedule);
      && InRange(c.claims, size)
      && Disjoint(c.claims)
      && (forall w | 0 <= w < workers :: Increasing(c.claims[w]))
      && (forall i: nat | i < size && i < c.Position() :: Owned(c.claims, i))
      && TotalLength(c.claims) == (if c.Position() < size then c.Position() else size)
  {
    var c := Run(Start(workers), size, schedule);
    PartitionOf(c, size);
  }

  /**
   Once every worker has left its loop, each index below `size` has been
   executed by exactly one worker, and the workers executed `size` queries
   in total. The cursor has been advanced once more by every worker.
   */
  lemma {:induction false} ClaimsPartitionAtJoin(workers: nat, size: nat, schedule: seq<nat>)
    requires workers >= 1
    requires forall k | 0 <= k < |schedule| :: schedule[k] < workers
    ensures var c := Joined(workers, size, schedule);
      && InRange(c.claims, size)
      && Disjoint(c.claims)
      && Covers(c.claims, size)
      && (forall w | 0 <= w < workers :: Increasing(c.claims[w]))
      && TotalLength(c.claims) == size
  {
    var c := Joined(workers, size, schedule);
    PartitionOf(c, size);
    assert c.exited[0];
  }

  lemma PartitionOf(c: State, size: nat)
    requires Consistent(c, size)
    ensures InRange(c.claims, size)
    ensures Disjoint(c.claims)
    ensures forall i: nat | i < size && i < c.Position() :: Owned(c.claims, i)
  {
    forall w1, w2, i | 0 <= w1 < |c.claims| && 0 <= w2 < |c.claims| && i in c.claims[w1] && i in c.claims[w2]
      ensures w1 == w2
    {
      var k1 :| 0 <= k1 < |c.claims[w1]| && c.claims[w1][k1] == i;
      var k2 :| 0 <= k2 < |c.claims[w2]| && c.claims[w2][k2] == i;
    }
    forall i: nat | i < size && i < c.Position()
      ensures Owned(c.claims, i)
    {
      assert i in c.claims[c.handedTo[i]];
    }
  }
}
