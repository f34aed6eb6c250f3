/**
 How `main` cuts the input into batches. Each line becomes an entry: a
 boundary that runs and clears the current batch, a query appended to it,
 or (JSON mode only) a malformed line that ends the process. After the last
 line the current batch is always run, even when it is empty.
 */
module Batching {
  import opened Common
  import opened Values

  datatype Query = Query(text: string, params: map<string, Bolt>)

  type Batch = seq<Query>

  /** What one input line means to the batching loop. */
  datatype Entry = Boundary | Item(query: Query) | Malformed

  /** The batches handed to `Execute`, in order, and the line at which the process stopped, if it did. */
  datatype Batched = Batched(batches: seq<Batch>, stoppedAt: Option<nat>)

  predicate WellFormed(entries: seq<Entry>)
  {
    forall k | 0 <= k < |entries| :: !entries[k].Malformed?
  }

  /** The queries of the entries, in order. */
  function Items(entries: seq<Entry>): seq<Query>
  {
    if entries == [] then []
    else if entries[0].Item? then [entries[0].query] + Items(entries[1..])
    else Items(entries[1..])
  }

  function CountBoundaries(entries: seq<Entry>): nat
  {
    if entries == [] then 0
    else (if entries[0].Boundary? then 1 else 0) + CountBoundaries(entries[1..])
  }

  /** The loop of `main` from line `i` on, with the batch being filled and the batches already run. */
  function Drive(entries: seq<Entry>, i: nat, current: Batch, emitted: seq<Batch>): Batched
    requires i <= |entries|
    decreases |entries| - i
  {
    if i == |entries| then Batched(emitted + [current], None)
    else
      match entries[i]
      case Boundary => Drive(entries, i + 1, [], emitted + [current])
      case Item(q) => Drive(entries, i + 1, current + [q], emitted)
      case Malformed => Batched(emitted, Some(i))
  }

  function SplitEntries(entries: seq<Entry>): Batched
  {
    Drive(entries, 0, [], [])
  }

  /**
   Reference definition of the batches of well-formed input, by recursion
   from the front: a boundary starts a new batch, a query joins the first.
   */
  function Split(entries: seq<Entry>): (bs: seq<Batch>)
    requires WellFormed(entries)
    ensures |bs| >= 1
  {
    if entries == [] then [[]]
    else
      var rest := Split(entries[1..]);
      if entries[0].Boundary? then [[]] + rest
      else [[entries[0].query] + rest[0]] + rest[1..]
  }

  /** `current` completed by the first batch of `bs`, after the batches already run. */
  function Attach(current: Batch, emitted: seq<Batch>, bs: seq<Batch>): seq<Batch>
    requires |bs| >= 1
  {
    emitted + [current + bs[0]] + bs[1..]
  }

  /** The index of the first malformed entry at or after `i`, or `|entries|`. */
  function FirstMalformed(entries: seq<Entry>, i: nat): (k: nat)
    requires i <= |entries|
    ensures i <= k <= |entries|
    ensures WellFormed(entries[i..k])
    ensures k < |entries| ==> entries[k].Malformed?
    decreases |entries| - i
  {
    if i == |entries| || entries[i].Malformed? then i
    else
      var k := FirstMalformed(entries, i + 1);
      assert entries[i..k] == [entries[i]] + entries[i + 1..k];
      k
  }

  lemma {:induction false} DriveSpec(entries: seq<Entry>, i: nat, current: Batch, emitted: seq<Batch>)
    requires i <= |entries|
    ensures var k := FirstMalformed(entries, i);
      var bs := Attach(current, emitted, Split(entries[i..k]));
      Drive(entries, i, current, emitted)
        == if k == |entries| then Batched(bs, None) else Batched(bs[..|bs| - 1], Some(k))
    decreases |entries| - i
  {
    var k := FirstMalformed(entries, i);
    if i == |entries| {
      assert entries[i..k] == [];
      assert current + [] == current;
      assert Attach(current, emitted, [[]]) == emitted + [current];
    } else if entries[i].Malformed? {
      assert entries[i..k] == [];
      var bs := Attach(current, emitted, [[]]);
      assert bs[..|bs| - 1] == emitted;
    } else {
      DriveSpec(entries, i + 1, if entries[i].Boundary? then [] else current + [entries[i].query],
        if entries[i].Boundary? then emitted + [current] else emitted);
      assert entries[i..k] == [entries[i]] + entries[i + 1..k];
      SplitCons(entries[i], entries[i + 1..k]);
      var rest := Split(entries[i + 1..k]);
      if entries[i].Boundary? {
        AttachBoundary(current, emitted, rest);
      } else {
        AttachItem(current, emitted, entries[i].query, rest);
      }
    }
  }

  /** A boundary in front: `current` is run as it is and the rest starts afresh. */
  lemma AttachBoundary(current: Batch, emitted: seq<Batch>, rest: seq<Batch>)
    requires |rest| >= 1
    ensures Attach(current, emitted, [[]] + rest) == Attach([], emitted + [current], rest)
  {
    assert current + [] == current;
    assert [] + rest[0] == rest[0];
    assert ([[]] + rest)[1..] == rest;
    assert rest == [rest[0]] + rest[1..];
  }

  /** A query in front joins `current`. */
  lemma AttachItem(current: Batch, emitted: seq<Batch>, q: Query, rest: seq<Batch>)
    requires |rest| >= 1
    ensures Attach(current, emitted, [[q] + rest[0]] + rest[1..]) == Attach(current + [q], emitted, rest)
  {
    assert current + ([q] + rest[0]) == (current + [q]) + rest[0];
    assert ([[q] + rest[0]] + rest[1..])[1..] == rest[1..];
  }

  /** Well-formed input: the loop produces exactly the reference batches and never stops early. */
  lemma SplitEntriesWellFormed(entries: seq<Entry>)
    requires WellFormed(entries)
    ensures SplitEntries(entries) == Batched(Split(entries), None)
  {
    DriveSpec(entries, 0, [], []);
    var k := FirstMalformed(entries, 0);
    if k < |entries| {
      assert false;
    }
    assert entries[0..k] == entries;
    var bs := Split(entries);
    assert [] + bs[0] == bs[0];
    assert bs == [bs[0]] + bs[1..];
    assert Attach([], [], bs) == bs;
  }

  /**
   A malformed entry at `k` with none before it: the process stops there,
   after running every batch the input before it closed; the batch still
   open is never run.
   */
  lemma SplitEntriesStops(entries: seq<Entry>, k: nat)
    requires k < |entries| && entries[k].Malformed?
    requires WellFormed(entries[..k])
    ensures var bs := Split(entries[..k]);
      SplitEntries(entries) == Batched(bs[..|bs| - 1], Some(k))
  {
    DriveSpec(entries, 0, [], []);
    var m := FirstMalformed(entries, 0);
    if m < k {
      assert false;
    }
    assert entries[0..k] == entries[..k];
    var bs := Split(entries[..k]);
    assert [] + bs[0] == bs[0];
    assert bs == [bs[0]] + bs[1..];
    assert Attach([], [], bs) == bs;
  }

  /** One batch per boundary, plus the final one. */
  lemma {:induction false} SplitCount(entries: seq<Entry>)
    requires WellFormed(entries)
    ensures |Split(entries)| == CountBoundaries(entries) + 1
  {
    if entries != [] {
      SplitCount(entries[1..]);
    }
  }

  /** The batches, joined, are the queries of the input in order. */
  lemma {:induction false} SplitConcat(entries: seq<Entry>)
    requires WellFormed(entries)
    ensures Concat(Split(entries)) == Items(entries)
  {
    if entries != [] {
      SplitConcat(entries[1..]);
      var rest := Split(entries[1..]);
      assert rest == [rest[0]] + rest[1..];
      if !entries[0].Boundary? {
        var q := entries[0].query;
        assert ([[q] + rest[0]] + rest[1..])[1..] == rest[1..];
        assert Concat(rest) == rest[0] + Concat(rest[1..]);
      }
    }
  }

  /** A boundary closes exactly the batch before it: what precedes and follows it split independently. */
  lemma {:induction false} SplitAtBoundary(before: seq<Entry>, after: seq<Entry>)
    requires WellFormed(before) && WellFormed(after)
    ensures WellFormed(before + [Boundary] + after)
    ensures Split(before + [Boundary] + after) == Split(before) + Split(after)
  {
    WellFormedAround(before, after);
    if before == [] {
      assert before + [Boundary] + after == [Boundary] + after;
      SplitCons(Boundary, after);
    } else {
      var e, tail := before[0], before[1..];
      var mid := tail + [Boundary] + after;
      WellFormedAround(tail, after);
      FrontOfConcat(before, [Boundary] + after);
      assert tail + [Boundary] + after == tail + ([Boundary] + after);
      assert before + [Boundary] + after == before + ([Boundary] + after);
      assert before == [e] + tail;
      SplitAtBoundary(tail, after);
      SplitCons(e, mid);
      SplitCons(e, tail);
      if e.Item? {
        JoinFirst(e.query, Split(tail), Split(after));
      } else {
        assert [[]] + (Split(tail) + Split(after)) == ([[]] + Split(tail)) + Split(after);
      }
    }
  }

  lemma FrontOfConcat<T>(a: seq<T>, b: seq<T>)
    requires |a| > 0
    ensures a + b == [a[0]] + (a[1..] + b)
  {
  }

  /** Adding a query to the first batch commutes with appending further batches. */
  lemma JoinFirst(q: Query, xs: seq<Batch>, ys: seq<Batch>)
    requires |xs| >= 1
    ensures [[q] + (xs + ys)[0]] + (xs + ys)[1..] == ([[q] + xs[0]] + xs[1..]) + ys
  {
    assert (xs + ys)[0] == xs[0];
    assert (xs + ys)[1..] == xs[1..] + ys;
  }

  lemma WellFormedAround(before: seq<Entry>, after: seq<Entry>)
    requires WellFormed(before) && WellFormed(after)
    ensures WellFormed(before + [Boundary] + after)
  {
    var all := before + [Boundary] + after;
    forall k | 0 <= k < |all|
      ensures !all[k].Malformed?
    {
      if k < |before| {
        assert all[k] == before[k];
      } else if k > |before| {
        assert all[k] == after[k - |before| - 1];
      }
    }
  }

  /** `Split` of a well-formed entry in front of a well-formed rest. */
  lemma SplitCons(e: Entry, es: seq<Entry>)
    requires !e.Malformed? && WellFormed(es)
    ensures WellFormed([e] + es)
    ensures Split([e] + es) == if e.Boundary? then [[]] + Split(es) else [[e.query] + Split(es)[0]] + Split(es)[1..]
  {
    assert ([e] + es)[1..] == es;
    assert forall k | 1 <= k < |[e] + es| :: ([e] + es)[k] == es[k - 1];
  }

  /** Input without boundaries forms one batch holding all of its queries. */
  lemma {:induction false} SplitWithoutBoundary(entries: seq<Entry>)
    requires WellFormed(entries)
    requires CountBoundaries(entries) == 0
    ensures Split(entries) == [Items(entries)]
  {
    if entries != [] {
      SplitWithoutBoundary(entries[1..]);
    }
  }
}
