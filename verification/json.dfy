/**
 * The untyped JSON values that the decoders consume and the encoders produce.
 * Parsing and rendering text belong to the JSON library and are not part of this model.
 */
module Json {
  import opened Wrappers

  /** A coordinate. Exact reals stand in for IEEE doubles (no rounding, no NaN). */
  type Coord = real

  datatype Json =
    | JNull
    | JBool(b: bool)
    | JNumber(n: Coord)
    | JString(s: string)
    | JArray(items: seq<Json>)
    | JObject(members: seq<(string, Json)>)

  /** Position of the first member named `key`, if any. */
  function MemberIndex(members: seq<(string, Json)>, key: string): (r: Option<nat>)
    ensures r.Some? ==> r.value < |members| && members[r.value].0 == key
    ensures r.Some? ==> forall i :: 0 <= i < r.value ==> members[i].0 != key
    ensures r.None? <==> forall i :: 0 <= i < |members| ==> members[i].0 != key
  {
    if |members| == 0 then None
    else if members[0].0 == key then Some(0)
    else
      match MemberIndex(members[1..], key)
      case Some(i) => Some(i + 1)
      case None => None
  }

  /**
   * `json[key]`: the member's value, or None for the library's lookup error
   * (the value is not an object, or it has no member with that name).
   * The value found is structurally smaller than the object it came from.
   */
  function Lookup(json: Json, key: string): (r: Option<Json>)
    ensures r.Some? <==> json.JObject? && exists i :: 0 <= i < |json.members| && json.members[i].0 == key
    ensures r.Some? ==> r.value < json
    ensures r.Some? ==> exists i :: 0 <= i < |json.members| && json.members[i] == (key, r.value)
  {
    match json
    case JObject(members) =>
      (match MemberIndex(members, key)
       case Some(i) => Some(members[i].1)
       case None => None)
    case _ => None
  }

  /** `json[key]` as the decoders read it: a missing member reads as null. */
  function Field(json: Json, key: string): Json
  {
    match Lookup(json, key)
    case Some(value) => value
    case None => JNull
  }

  /**
   * The library's numeric coercion of one coordinate element. Numbers pass
   * through; any other value coerces to 0 here (see README, "Left out").
   */
  function DoubleValue(json: Json): Coord
  {
    match json
    case JNumber(n) => n
    case _ => 0.0
  }

  /**
   * True when `json` is numbers nested exactly `depth` arrays deep: the
   * canonical shape of coordinates (depth 1 for a point, 2 for a line
   * string, 3 for a polygon, 4 for a multi-polygon).
   */
  predicate NestedNumbers(json: Json, depth: nat)
  {
    if depth == 0 then json.JNumber?
    else json.JArray? && forall i :: 0 <= i < |json.items| ==> NestedNumbers(json.items[i], depth - 1)
  }

  /**
   * Decodes every element with `decode`, in order; the first element that
   * fails makes the whole sequence fail, and no partial result is kept.
   */
  function DecodeEach<T>(items: seq<Json>, decode: Json -> Option<T>): (r: Option<seq<T>>)
    ensures r.Some? <==> forall i :: 0 <= i < |items| ==> decode(items[i]).Some?
    ensures r.Some? ==> |r.value| == |items|
    ensures r.Some? ==> forall i :: 0 <= i < |items| ==> decode(items[i]) == Some(r.value[i])
  {
    if |items| == 0 then Some([])
    else
      match decode(items[0])
      case None => None
      case Some(x) =>
        match DecodeEach(items[1..], decode)
        case None => None
        case Some(xs) => Some([x] + xs)
  }

  /** Encodes every element with `encode` into a JSON array, in order. */
  function EncodeEach<T>(xs: seq<T>, encode: T -> Json): (json: Json)
    ensures json.JArray? && |json.items| == |xs|
    ensures forall i :: 0 <= i < |xs| ==> json.items[i] == encode(xs[i])
  {
    JArray(seq(|xs|, i requires 0 <= i < |xs| => encode(xs[i])))
  }

  /** Element-wise round trips lift to sequences. */
  lemma DecodeEachEncodeEach<T>(xs: seq<T>, encode: T -> Json, decode: Json -> Option<T>)
    requires forall i :: 0 <= i < |xs| ==> decode(encode(xs[i])) == Some(xs[i])
    ensures DecodeEach(EncodeEach(xs, encode).items, decode) == Some(xs)
  {
    var items := EncodeEach(xs, encode).items;
    var r := DecodeEach(items, decode);
    assert r.Some? by {
      forall i | 0 <= i < |items| ensures decode(items[i]).Some? {
        assert items[i] == encode(xs[i]);
      }
    }
    forall i | 0 <= i < |xs| ensures r.value[i] == xs[i] {
      assert decode(items[i]) == Some(r.value[i]);
    }
    assert r.value == xs;
  }
}
