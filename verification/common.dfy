/**
 Shared vocabulary: optional values, the fatal conditions of the client
 (every one ends the process through `LOG_FATAL` or an uncaught exception),
 and flattening of nested sequences.
 */
module Common {
  import opened Ints

  datatype Option<+T> = None | Some(value: T)

  /** The reasons the client terminates the whole process. */
  datatype Failure =
    | RetriesExhausted(query: string, maxAttempts: int32, lastError: Option<string>)
    | UnsupportedBoltType
    | MalformedInput(line: nat)

  /** A computation that either completes or stops the process fatally. */
  datatype Result<+T> = Ok(value: T) | Fatal(failure: Failure)

  /** All results if every one is `Ok`, otherwise the first fatal one. */
  function AllOk<T>(rs: seq<Result<T>>): (r: Result<seq<T>>)
    ensures r.Ok? <==> forall k | 0 <= k < |rs| :: rs[k].Ok?
    ensures r.Ok? ==> |r.value| == |rs| && forall k | 0 <= k < |rs| :: rs[k] == Ok(r.value[k])
    ensures r.Fatal? ==> exists k :: 0 <= k < |rs| && rs[k] == Fatal(r.failure) && forall j | 0 <= j < k :: rs[j].Ok?
  {
    if rs == [] then Ok([])
    else
      match rs[0]
      case Fatal(f) => Fatal(f)
      case Ok(x) =>
        match AllOk(rs[1..])
        case Fatal(f) =>
          assert forall k | 1 <= k < |rs| :: rs[k] == rs[1..][k - 1];
          Fatal(f)
        case Ok(xs) => Ok([x] + xs)
  }

  /** All inner sequences joined in order. */
  function Concat<T>(xss: seq<seq<T>>): seq<T>
  {
    if xss == [] then [] else xss[0] + Concat(xss[1..])
  }

  /** Sum of the lengths of the inner sequences. */
  function TotalLength<T>(xss: seq<seq<T>>): nat
  {
    if xss == [] then 0 else |xss[0]| + TotalLength(xss[1..])
  }

  function Sum(xs: seq<nat>): nat
  {
    if xs == [] then 0 else xs[0] + Sum(xs[1..])
  }

  lemma {:induction false} ConcatLength<T>(xss: seq<seq<T>>)
    ensures |Concat(xss)| == TotalLength(xss)
  {
    if xss != [] {
      ConcatLength(xss[1..]);
    }
  }

  lemma {:induction false} ConcatSnoc<T>(xss: seq<seq<T>>, ys: seq<T>)
    ensures Concat(xss + [ys]) == Concat(xss) + ys
  {
    if xss == [] {
      assert [ys][1..] == [];
    } else {
      assert (xss + [ys])[1..] == xss[1..] + [ys];
      ConcatSnoc(xss[1..], ys);
    }
  }

  /** An element of the joined sequence is exactly an element of one of the inner ones. */
  lemma {:induction false} ConcatMembers<T>(xss: seq<seq<T>>)
    ensures forall x :: x in Concat(xss) <==> exists i :: 0 <= i < |xss| && x in xss[i]
  {
    if xss != [] {
      ConcatMembers(xss[1..]);
      forall x
        ensures x in Concat(xss) <==> exists i :: 0 <= i < |xss| && x in xss[i]
      {
        if x in Concat(xss[1..]) {
          var i :| 0 <= i < |xss[1..]| && x in xss[1..][i];
          assert x in xss[i + 1];
        }
        if exists i :: 0 <= i < |xss| && x in xss[i] {
          var i :| 0 <= i < |xss| && x in xss[i];
          if i > 0 {
            assert x in xss[1..][i - 1];
          }
        }
      }
    }
  }

  /** A property holds on all of the joined sequence exactly when it holds on all of every inner one. */
  lemma ConcatAll<T>(xss: seq<seq<T>>, p: T -> bool)
    ensures (forall x | x in Concat(xss) :: p(x)) <==> (forall i, x | 0 <= i < |xss| && x in xss[i] :: p(x))
  {
    ConcatMembers(xss);
  }

  lemma {:induction false} SumSnoc(xs: seq<nat>, x: nat)
    ensures Sum(xs + [x]) == Sum(xs) + x
  {
    if xs == [] {
      assert [x][1..] == [];
    } else {
      assert (xs + [x])[1..] == xs[1..] + [x];
      SumSnoc(xs[1..], x);
    }
  }

  lemma {:induction false} TotalLengthOfEmpties<T>(xss: seq<seq<T>>)
    requires forall k | 0 <= k < |xss| :: xss[k] == []
    ensures TotalLength(xss) == 0
  {
    if xss != [] {
      TotalLengthOfEmpties(xss[1..]);
    }
  }

  /** Lists of total length zero are all empty. */
  lemma {:induction false} EmptiesOfTotalLength<T>(xss: seq<seq<T>>)
    requires TotalLength(xss) == 0
    ensures forall w | 0 <= w < |xss| :: xss[w] == []
  {
    if xss != [] {
      EmptiesOfTotalLength(xss[1..]);
      assert forall w | 1 <= w < |xss| :: xss[w] == xss[1..][w - 1];
    }
  }

  lemma {:induction false} SumOfZeros(xs: seq<nat>)
    requires forall k | 0 <= k < |xs| :: xs[k] == 0
    ensures Sum(xs) == 0
  {
    if xs != [] {
      SumOfZeros(xs[1..]);
    }
  }

  lemma ConcatOfEmpties<T>(xss: seq<seq<T>>)
    requires forall k | 0 <= k < |xss| :: xss[k] == []
    ensures Concat(xss) == []
  {
    TotalLengthOfEmpties(xss);
    ConcatLength(xss);
  }

  /** Growing one inner sequence by one element grows the total length by one. */
  lemma {:induction false} TotalLengthGrow<T>(xss: seq<seq<T>>, w: nat, x: T)
    requires w < |xss|
    ensures TotalLength(xss[w := xss[w] + [x]]) == TotalLength(xss) + 1
  {
    if w > 0 {
      assert xss[w := xss[w] + [x]][1..] == xss[1..][w - 1 := xss[w] + [x]];
      TotalLengthGrow(xss[1..], w - 1, x);
    } else {
      assert xss[w := xss[w] + [x]][1..] == xss[1..];
    }
  }
}
