/**
 The value bridge between parsed JSON trees (as nlohmann::json classifies
 them) and Bolt protocol values: `JsonToBoltValue` for query parameters and
 `BoltValueToJson` for result cells.
 */
module Values {
  import opened Ints
  import opened Common

  /** An IEEE-754 double kept as its bit pattern: the bridge copies doubles and never computes with them. */
  type Float64 = uint64

  /** A JSON value. Non-negative integer literals parse as `JUnsigned`, negative ones as `JInt`. */
  datatype Json =
    | JNull
    | JBool(b: bool)
    | JInt(i: int64)
    | JUnsigned(u: uint64)
    | JFloat(f: Float64)
    | JString(s: string)
    | JArray(items: seq<Json>)
    | JObject(fields: map<string, Json>)

  /**
   A Bolt value. `Unsupported` stands for every Bolt type the bridge cannot
   express in JSON (vertices, edges, paths, temporal values).
   */
  datatype Bolt =
    | Null
    | Bool(b: bool)
    | Int(i: int64)
    | Double(d: Float64)
    | String(s: string)
    | List(items: seq<Bolt>)
    | Map(fields: map<string, Bolt>)
    | Unsupported(typeName: string)

  /** One result record: a row of Bolt values. */
  type Row = seq<Bolt>

  /** No node of the tree is an `Unsupported` value. */
  predicate Representable(v: Bolt)
  {
    match v
    case Unsupported(_) => false
    case List(items) => forall k | 0 <= k < |items| :: Representable(items[k])
    case Map(fields) => forall key | key in fields :: Representable(fields[key])
    case _ => true
  }

  /** No node of the tree is an unsigned number. */
  predicate NoUnsigned(j: Json)
  {
    match j
    case JUnsigned(_) => false
    case JArray(items) => forall k | 0 <= k < |items| :: NoUnsigned(items[k])
    case JObject(fields) => forall key | key in fields :: NoUnsigned(fields[key])
    case _ => true
  }

  /** Every unsigned number in the tree is at most INT64_MAX. */
  predicate UnsignedFit(j: Json)
  {
    match j
    case JUnsigned(u) => u < TWO_63
    case JArray(items) => forall k | 0 <= k < |items| :: UnsignedFit(items[k])
    case JObject(fields) => forall key | key in fields :: UnsignedFit(fields[key])
    case _ => true
  }

  /**
   The two trees hold the same mathematical values: a signed and an unsigned
   integer are the same when their values are equal; everything else compares
   structurally.
   */
  predicate SameJson(a: Json, b: Json)
  {
    match a
    case JInt(x) => (b.JInt? && b.i == x) || (b.JUnsigned? && b.u == x)
    case JUnsigned(x) => (b.JUnsigned? && b.u == x) || (b.JInt? && b.i == x)
    case JArray(xs) =>
      b.JArray? && |xs| == |b.items| && forall k | 0 <= k < |xs| :: SameJson(xs[k], b.items[k])
    case JObject(m) =>
      b.JObject? && m.Keys == b.fields.Keys && forall key | key in m :: SameJson(m[key], b.fields[key])
    case _ => a == b
  }

  /** Converts a parsed JSON value into the Bolt value sent as a query parameter. */
  function JsonToBoltValue(j: Json): (v: Bolt)
    ensures Representable(v)
    ensures v.Null? <==> j.JNull?
    ensures v.Bool? <==> j.JBool?
    ensures v.Int? <==> j.JInt? || j.JUnsigned?
    ensures v.Double? <==> j.JFloat?
    ensures v.String? <==> j.JString?
    ensures v.List? <==> j.JArray?
    ensures v.Map? <==> j.JObject?
    ensures j.JBool? ==> v == Bool(j.b)
    ensures j.JInt? ==> v == Int(j.i)
    ensures j.JUnsigned? ==> v == Int(SignedOf(j.u))
    ensures j.JFloat? ==> v == Double(j.f)
    ensures j.JString? ==> v == String(j.s)
    ensures j.JArray? ==> |v.items| == |j.items|
    ensures j.JArray? ==> forall k | 0 <= k < |j.items| :: v.items[k] == JsonToBoltValue(j.items[k])
    ensures j.JObject? ==> v.fields.Keys == j.fields.Keys
    ensures j.JObject? ==> forall key | key in j.fields :: v.fields[key] == JsonToBoltValue(j.fields[key])
  {
    match j
    case JNull => Null
    case JBool(b) => Bool(b)
    case JString(s) => String(s)
    case JInt(i) => Int(i)
    case JUnsigned(u) => Int(SignedOf(u))
    case JFloat(f) => Double(f)
    case JArray(items) =>
      List(seq(|items|, k requires 0 <= k < |items| => JsonToBoltValue(items[k])))
    case JObject(fields) =>
      Map(map key | key in fields :: JsonToBoltValue(fields[key]))
  }

  /** Converts a Bolt result value into JSON; a type JSON cannot express is fatal. */
  function BoltValueToJson(v: Bolt): (r: Result<Json>)
    ensures r.Ok? <==> Representable(v)
    ensures r.Fatal? ==> r.failure == UnsupportedBoltType
    ensures r.Ok? ==> (r.value.JNull? <==> v.Null?)
    ensures r.Ok? ==> (r.value.JBool? <==> v.Bool?)
    ensures r.Ok? ==> (r.value.JInt? <==> v.Int?) && !r.value.JUnsigned?
    ensures r.Ok? ==> (r.value.JFloat? <==> v.Double?)
    ensures r.Ok? ==> (r.value.JString? <==> v.String?)
    ensures r.Ok? ==> (r.value.JArray? <==> v.List?)
    ensures r.Ok? ==> (r.value.JObject? <==> v.Map?)
    ensures r.Ok? && v.Bool? ==> r.value == JBool(v.b)
    ensures r.Ok? && v.Int? ==> r.value == JInt(v.i)
    ensures r.Ok? && v.Double? ==> r.value == JFloat(v.d)
    ensures r.Ok? && v.String? ==> r.value == JString(v.s)
    ensures r.Ok? && v.List? ==> |r.value.items| == |v.items|
    ensures r.Ok? && v.List? ==> forall k | 0 <= k < |v.items| :: BoltValueToJson(v.items[k]) == Ok(r.value.items[k])
    ensures r.Ok? && v.Map? ==> r.value.fields.Keys == v.fields.Keys
    ensures r.Ok? && v.Map? ==> forall key | key in v.fields :: BoltValueToJson(v.fields[key]) == Ok(r.value.fields[key])
    decreases v, 1
  {
    match v
    case Null => Ok(JNull)
    case Bool(b) => Ok(JBool(b))
    case Int(i) => Ok(JInt(i))
    case Double(d) => Ok(JFloat(d))
    case String(s) => Ok(JString(s))
    case List(items) =>
      (match ListToJson(items)
       case Ok(js) => Ok(JArray(js))
       case Fatal(f) => Fatal(f))
    case Map(fields) =>
      (match MapToJson(fields)
       case Ok(js) => Ok(JObject(js))
       case Fatal(f) => Fatal(f))
    case Unsupported(_) => Fatal(UnsupportedBoltType)
  }

  /** The elements of a list, converted in order; the list converts exactly when every element does. */
  function ListToJson(items: seq<Bolt>): (r: Result<seq<Json>>)
    ensures r.Ok? <==> forall k | 0 <= k < |items| :: Representable(items[k])
    ensures r.Fatal? ==> r.failure == UnsupportedBoltType
    ensures r.Ok? ==> |r.value| == |items|
    ensures r.Ok? ==> forall k | 0 <= k < |items| :: BoltValueToJson(items[k]) == Ok(r.value[k])
    decreases items, 0
  {
    var rs := seq(|items|, k requires 0 <= k < |items| => BoltValueToJson(items[k]));
    if forall k | 0 <= k < |rs| :: rs[k].Ok? then
      assert forall k | 0 <= k < |items| :: rs[k] == BoltValueToJson(items[k]) && Representable(items[k]);
      Ok(seq(|rs|, k requires 0 <= k < |rs| && rs[k].Ok? => rs[k].value))
    else
      Fatal(UnsupportedBoltType)
  }

  /** The values of a map, converted under the same keys; the map converts exactly when every value does. */
  function MapToJson(fields: map<string, Bolt>): (r: Result<map<string, Json>>)
    ensures r.Ok? <==> forall key | key in fields :: Representable(fields[key])
    ensures r.Fatal? ==> r.failure == UnsupportedBoltType
    ensures r.Ok? ==> r.value.Keys == fields.Keys
    ensures r.Ok? ==> forall key | key in fields :: BoltValueToJson(fields[key]) == Ok(r.value[key])
    decreases Map(fields), 0
  {
    var rs := map key | key in fields :: BoltValueToJson(fields[key]);
    if forall key | key in rs :: rs[key].Ok? then
      assert forall key | key in fields :: rs[key] == BoltValueToJson(fields[key]) && Representable(fields[key]);
      Ok(map key | key in rs :: rs[key].value)
    else
      Fatal(UnsupportedBoltType)
  }

  /** A JSON tree without unsigned numbers survives JSON -> Bolt -> JSON exactly. */
  lemma {:induction false} JsonRoundTrip(j: Json)
    requires NoUnsigned(j)
    ensures BoltValueToJson(JsonToBoltValue(j)) == Ok(j)
  {
    match j
    case JArray(items) =>
      var bs := JsonToBoltValue(j).items;
      forall k | 0 <= k < |items|
        ensures BoltValueToJson(bs[k]) == Ok(items[k])
      {
        JsonRoundTrip(items[k]);
      }
      assert BoltValueToJson(List(bs)).value.items == items;
    case JObject(fields) =>
      var bs := JsonToBoltValue(j).fields;
      forall key | key in fields
        ensures BoltValueToJson(bs[key]) == Ok(fields[key])
      {
        JsonRoundTrip(fields[key]);
      }
      assert BoltValueToJson(Map(bs)).value.fields == fields;
    case _ =>
  }

  /** Every Bolt value JSON can express survives Bolt -> JSON -> Bolt exactly. */
  lemma {:induction false} BoltRoundTrip(v: Bolt)
    requires Representable(v)
    ensures BoltValueToJson(v).Ok?
    ensures JsonToBoltValue(BoltValueToJson(v).value) == v
  {
    match v
    case List(items) =>
      var js := BoltValueToJson(v).value.items;
      forall k | 0 <= k < |items|
        ensures JsonToBoltValue(js[k]) == items[k]
      {
        BoltRoundTrip(items[k]);
      }
      assert JsonToBoltValue(JArray(js)).items == items;
    case Map(fields) =>
      var js := BoltValueToJson(v).value.fields;
      forall key | key in fields
        ensures JsonToBoltValue(js[key]) == fields[key]
      {
        BoltRoundTrip(fields[key]);
      }
      assert JsonToBoltValue(JObject(js)).fields == fields;
    case _ =>
  }

  /**
   With unsigned numbers allowed, the round trip is faithful up to signedness
   exactly when no unsigned number exceeds INT64_MAX: larger ones come back
   negative after the cast to int64.
   */
  lemma {:induction false} RoundTripUpToSignedness(j: Json)
    ensures BoltValueToJson(JsonToBoltValue(j)).Ok?
    ensures SameJson(BoltValueToJson(JsonToBoltValue(j)).value, j) <==> UnsignedFit(j)
  {
    var back := BoltValueToJson(JsonToBoltValue(j)).value;
    match j
    case JArray(items) =>
      forall k | 0 <= k < |items|
        ensures back.items[k] == BoltValueToJson(JsonToBoltValue(items[k])).value
        ensures SameJson(back.items[k], items[k]) <==> UnsignedFit(items[k])
      {
        RoundTripUpToSignedness(items[k]);
      }
    case JObject(fields) =>
      forall key | key in fields
        ensures back.fields[key] == BoltValueToJson(JsonToBoltValue(fields[key])).value
        ensures SameJson(back.fields[key], fields[key]) <==> UnsignedFit(fields[key])
      {
        RoundTripUpToSignedness(fields[key]);
      }
    case _ =>
  }

  /** The unsigned number 2^63 comes back as the signed number -2^63, a different value. */
  lemma UnsignedWrapExample()
    ensures BoltValueToJson(JsonToBoltValue(JUnsigned(TWO_63))) == Ok(JInt(-TWO_63))
    ensures !SameJson(JInt(-TWO_63), JUnsigned(TWO_63))
  {
  }
}
