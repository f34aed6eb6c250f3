/**
 The two input formats of `main`. In plain-text mode a line whose trimmed
 form is empty or `;` is a boundary and any other line is a query, kept
 untrimmed, without parameters. In JSON mode each line is one parsed JSON
 value: an empty value (null, `[]` or `{}`) is a boundary, and
 `[text, {params}, ...]` is a query; anything else makes `data[0]`,
 `get<std::string>()` or `ValueMap()` throw, which ends the process.
 */
module Input {
  import opened Common
  import opened Values
  import opened Batching

  /** The characters `std::isspace` accepts in the C locale. */
  predicate IsSpace(ch: char)
  {
    ch == ' ' || ch == '\t' || ch == '\n' || ch == '\r' || ch == '\U{B}' || ch == '\U{C}'
  }

  /** Every character of `s` from `i` up to `j` is whitespace. */
  predicate SpaceBetween(s: string, i: nat, j: nat)
    requires i <= j <= |s|
  {
    forall k | i <= k < j :: IsSpace(s[k])
  }

  /** The first position at or after `i` that is not whitespace, or `|s|`. */
  function SkipSpace(s: string, i: nat): (a: nat)
    requires i <= |s|
    ensures i <= a <= |s| && SpaceBetween(s, i, a)
    ensures a == |s| || !IsSpace(s[a])
    decreases |s| - i
  {
    if i < |s| && IsSpace(s[i]) then SkipSpace(s, i + 1) else i
  }

  /** The end of `s[lo..j]` once its trailing whitespace is dropped. */
  function SkipSpaceBack(s: string, lo: nat, j: nat): (b: nat)
    requires lo <= j <= |s|
    ensures lo <= b <= j && SpaceBetween(s, b, j)
    ensures b == lo || !IsSpace(s[b - 1])
  {
    if j > lo && IsSpace(s[j - 1]) then SkipSpaceBack(s, lo, j - 1) else j
  }

  /** `utils::Trim`: the line with whitespace removed at both ends. */
  function Trim(s: string): string
  {
    var a := SkipSpace(s, 0);
    s[a..SkipSpaceBack(s, a, |s|)]
  }

  /** `Trim` keeps one contiguous part of the line, drops only whitespace around it, and leaves none at its ends. */
  lemma TrimSpec(s: string)
    ensures exists a: nat, b: nat {:trigger SpaceBetween(s, 0, a), SpaceBetween(s, b, |s|)} :: (a <= b <= |s| && Trim(s) == s[a..b]
                            && SpaceBetween(s, 0, a) && SpaceBetween(s, b, |s|)
                            && (a < b ==> !IsSpace(s[a]) && !IsSpace(s[b - 1])))
  {
    var a := SkipSpace(s, 0);
    var b := SkipSpaceBack(s, a, |s|);
    assert Trim(s) == s[a..b];
    assert a < b ==> !IsSpace(s[a]) && !IsSpace(s[b - 1]);
    assert SpaceBetween(s, 0, a) && SpaceBetween(s, b, |s|);
  }

  /** A line that closes the current batch in plain-text mode. */
  predicate IsSeparator(line: string)
  {
    Trim(line) == "" || Trim(line) == ";"
  }

  function PlainEntry(line: string): Entry
  {
    if IsSeparator(line) then Boundary else Item(Query(line, map[]))
  }

  function PlainEntries(lines: seq<string>): (es: seq<Entry>)
    ensures |es| == |lines| && WellFormed(es)
    ensures forall k | 0 <= k < |lines| :: es[k] == PlainEntry(lines[k])
  {
    if lines == [] then [] else [PlainEntry(lines[0])] + PlainEntries(lines[1..])
  }

  lemma PlainEntriesAppend(a: seq<string>, b: seq<string>)
    ensures PlainEntries(a + b) == PlainEntries(a) + PlainEntries(b)
  {
    var l, r := PlainEntries(a + b), PlainEntries(a) + PlainEntries(b);
    forall k | 0 <= k < |l|
      ensures l[k] == r[k]
    {
      if k < |a| {
        assert (a + b)[k] == a[k];
      } else {
        assert (a + b)[k] == b[k - |a|];
      }
    }
  }

  /** The lines of plain-text input that are not separators, in order. */
  function QueryLines(lines: seq<string>): (ql: seq<string>)
    ensures forall k | 0 <= k < |ql| :: !IsSeparator(ql[k])
  {
    if lines == [] then []
    else if IsSeparator(lines[0]) then QueryLines(lines[1..])
    else [lines[0]] + QueryLines(lines[1..])
  }

  /** Each text as a query without parameters. */
  function AsQueries(texts: seq<string>): (qs: seq<Query>)
    ensures |qs| == |texts|
    ensures forall k | 0 <= k < |texts| :: qs[k] == Query(texts[k], map[])
  {
    if texts == [] then [] else [Query(texts[0], map[])] + AsQueries(texts[1..])
  }

  function CountSeparators(lines: seq<string>): nat
  {
    if lines == [] then 0
    else (if IsSeparator(lines[0]) then 1 else 0) + CountSeparators(lines[1..])
  }

  /** The batches `main` runs for plain-text input (plain-text mode never stops early). */
  function PlainBatches(lines: seq<string>): (bs: seq<Batch>)
    ensures SplitEntries(PlainEntries(lines)) == Batched(bs, None)
  {
    SplitEntriesWellFormed(PlainEntries(lines));
    SplitEntries(PlainEntries(lines)).batches
  }

  lemma {:induction false} PlainEntriesFacts(lines: seq<string>)
    ensures CountBoundaries(PlainEntries(lines)) == CountSeparators(lines)
    ensures Items(PlainEntries(lines)) == AsQueries(QueryLines(lines))
  {
    if lines != [] {
      PlainEntriesFacts(lines[1..]);
      assert PlainEntries(lines)[1..] == PlainEntries(lines[1..]);
    }
  }

  /**
   Plain-text batching: one batch per separator line plus the final batch;
   joined together the batches are the non-separator lines in order, each
   untrimmed and without parameters; no batch holds a separator line.
   */
  lemma PlainBatchesSpec(lines: seq<string>)
    ensures |PlainBatches(lines)| == CountSeparators(lines) + 1
    ensures Concat(PlainBatches(lines)) == AsQueries(QueryLines(lines))
    ensures forall b, q | b in PlainBatches(lines) && q in b :: !IsSeparator(q.text) && q.params == map[]
  {
    var es := PlainEntries(lines);
    SplitEntriesWellFormed(es);
    SplitCount(es);
    SplitConcat(es);
    PlainEntriesFacts(lines);
    forall b, q | b in PlainBatches(lines) && q in b
      ensures !IsSeparator(q.text) && q.params == map[]
    {
      ItemsOfBatches(es, b, q);
      var ql := QueryLines(lines);
      var k :| 0 <= k < |ql| && AsQueries(ql)[k] == q;
    }
  }

  /** A query in some batch is the query of some entry. */
  lemma ItemsOfBatches(es: seq<Entry>, b: Batch, q: Query)
    requires WellFormed(es)
    requires b in Split(es) && q in b
    ensures q in Items(es)
  {
    SplitConcat(es);
    ConcatMembers(Split(es));
  }

  /** A separator line closes exactly the batch before it. */
  lemma PlainSplitAtSeparator(before: seq<string>, sep: string, after: seq<string>)
    requires IsSeparator(sep)
    ensures PlainBatches(before + [sep] + after) == PlainBatches(before) + PlainBatches(after)
  {
    var es := PlainEntries(before + [sep] + after);
    PlainEntriesAppend(before + [sep], after);
    PlainEntriesAppend(before, [sep]);
    assert PlainEntries([sep]) == [Boundary];
    assert es == PlainEntries(before) + [Boundary] + PlainEntries(after);
    SplitAtBoundary(PlainEntries(before), PlainEntries(after));
    SplitEntriesWellFormed(es);
    SplitEntriesWellFormed(PlainEntries(before));
    SplitEntriesWellFormed(PlainEntries(after));
  }

  /** `data.empty()`: true for null and for an empty array or object, false for every other value. */
  predicate IsEmptyJson(j: Json)
  {
    j.JNull? || (j.JArray? && j.items == []) || (j.JObject? && j.fields == map[])
  }

  /** A JSON line `main` accepts as a query: an array whose first two elements are a string and an object. */
  predicate IsQueryLine(j: Json)
  {
    j.JArray? && |j.items| >= 2 && j.items[0].JString? && j.items[1].JObject?
  }

  function JsonEntry(j: Json): (e: Entry)
    ensures e.Boundary? <==> IsEmptyJson(j)
    ensures e.Item? <==> IsQueryLine(j)
    ensures e.Item? ==> e.query.text == j.items[0].s && e.query.params.Keys == j.items[1].fields.Keys
    ensures e.Item? ==> forall key | key in e.query.params :: e.query.params[key] == JsonToBoltValue(j.items[1].fields[key])
  {
    if IsEmptyJson(j) then Boundary
    else if IsQueryLine(j) then Item(Query(j.items[0].s, JsonToBoltValue(j.items[1]).fields))
    else Malformed
  }

  function JsonEntries(lines: seq<Json>): (es: seq<Entry>)
    ensures |es| == |lines|
    ensures forall k | 0 <= k < |lines| :: es[k] == JsonEntry(lines[k])
  {
    if lines == [] then [] else [JsonEntry(lines[0])] + JsonEntries(lines[1..])
  }

  /** The batches `main` runs for JSON input, and the line at which a malformed value stopped it. */
  function JsonBatches(lines: seq<Json>): Batched
  {
    SplitEntries(JsonEntries(lines))
  }

  function CountEmpty(lines: seq<Json>): nat
  {
    if lines == [] then 0
    else (if IsEmptyJson(lines[0]) then 1 else 0) + CountEmpty(lines[1..])
  }

  /** The queries of the query lines, in order. */
  function JsonQueries(lines: seq<Json>): seq<Query>
  {
    if lines == [] then []
    else if IsQueryLine(lines[0]) then [JsonEntry(lines[0]).query] + JsonQueries(lines[1..])
    else JsonQueries(lines[1..])
  }

  lemma {:induction false} JsonEntriesFacts(lines: seq<Json>)
    ensures CountBoundaries(JsonEntries(lines)) == CountEmpty(lines)
    ensures Items(JsonEntries(lines)) == JsonQueries(lines)
  {
    if lines != [] {
      JsonEntriesFacts(lines[1..]);
      assert JsonEntries(lines)[1..] == JsonEntries(lines[1..]);
    }
  }

  /**
   JSON batching of input whose every line is empty or a query line: one
   batch per empty value plus the final one, holding the queries in order.
   */
  lemma JsonBatchesSpec(lines: seq<Json>)
    requires forall k | 0 <= k < |lines| :: IsEmptyJson(lines[k]) || IsQueryLine(lines[k])
    ensures JsonBatches(lines).stoppedAt == None
    ensures |JsonBatches(lines).batches| == CountEmpty(lines) + 1
    ensures Concat(JsonBatches(lines).batches) == JsonQueries(lines)
  {
    var es := JsonEntries(lines);
    SplitEntriesWellFormed(es);
    SplitCount(es);
    SplitConcat(es);
    JsonEntriesFacts(lines);
  }

  /**
   The first line that is neither empty nor a query line stops the process:
   the batches closed before it have run, the open batch never does.
   */
  lemma JsonBatchesStop(lines: seq<Json>, k: nat)
    requires k < |lines| && !IsEmptyJson(lines[k]) && !IsQueryLine(lines[k])
    requires forall j | 0 <= j < k :: IsEmptyJson(lines[j]) || IsQueryLine(lines[j])
    ensures JsonBatches(lines).stoppedAt == Some(k)
    ensures |JsonBatches(lines[..k]).batches| >= 1
    ensures var bs := JsonBatches(lines[..k]).batches;
      JsonBatches(lines).batches == bs[..|bs| - 1]
  {
    var es := JsonEntries(lines);
    assert es[..k] == JsonEntries(lines[..k]);
    SplitEntriesStops(es, k);
    SplitEntriesWellFormed(es[..k]);
  }
}
