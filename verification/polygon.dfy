/** Polygon (RFC 7946 section 3.1.6): an ordered sequence of linear rings; zero rings is a valid polygon. */
module Polygons {
  import opened Wrappers
  import opened Json
  import Points
  import LineStrings

  datatype Polygon = Polygon(linearRings: seq<LineStrings.LineString>) {

    predicate Valid()
    {
      forall i :: 0 <= i < |linearRings| ==> linearRings[i].Valid() && linearRings[i].IsLinearRing()
    }

    function Count(): nat
    {
      |linearRings|
    }
  }

  /** The member name under which a polygon's encoding is wrapped. */
  const Prefix: string := "coordinates"

  /** One ring: a line string that is also a linear ring. */
  function DecodeRing(json: Json): (r: Option<LineStrings.LineString>)
    ensures r.Some? <==> LineStrings.Decode(json).Some? && LineStrings.Decode(json).value.IsLinearRing()
    ensures r.Some? ==> r == LineStrings.Decode(json)
  {
    match LineStrings.Decode(json)
    case Some(ring) => if ring.IsLinearRing() then Some(ring) else None
    case None => None
  }

  /**
   * `Polygon(linearRings:)`: fails unless every ring is a linear ring. The
   * rings are line strings already built, so their points are valid.
   */
  function Make(linearRings: seq<LineStrings.LineString>): (r: Option<Polygon>)
    requires forall i :: 0 <= i < |linearRings| ==> linearRings[i].Valid()
    ensures r.Some? <==> forall i :: 0 <= i < |linearRings| ==> linearRings[i].IsLinearRing()
    ensures r.Some? ==> r.value.Valid() && r.value.linearRings == linearRings
  {
    if forall i :: 0 <= i < |linearRings| ==> linearRings[i].IsLinearRing() then Some(Polygon(linearRings))
    else None
  }

  /**
   * The value must be an array whose every element decodes as a line string
   * that is a linear ring; one element that is not rejects the whole polygon.
   */
  function Decode(json: Json): (r: Option<Polygon>)
    ensures r.Some? <==> json.JArray? && forall i :: 0 <= i < |json.items| ==> DecodeRing(json.items[i]).Some?
    ensures r.Some? ==> r.value.Valid() && r.value.Count() == |json.items|
    ensures r.Some? ==> forall i :: 0 <= i < |json.items| ==> LineStrings.Decode(json.items[i]) == Some(r.value.linearRings[i])
  {
    match json
    case JArray(items) =>
      (match DecodeEach(items, DecodeRing)
       case Some(rings) => Some(Polygon(rings))
       case None => None)
    case _ => None
  }

  /** The encoding: each ring's encoding, in order. */
  function Encode(p: Polygon): (json: Json)
    ensures json.JArray? && |json.items| == p.Count()
    ensures forall i :: 0 <= i < p.Count() ==> json.items[i] == LineStrings.Encode(p.linearRings[i])
  {
    EncodeEach(p.linearRings, LineStrings.Encode)
  }

  lemma DecodeEncode(p: Polygon)
    requires p.Valid()
    ensures Decode(Encode(p)) == Some(p)
  {
    forall i | 0 <= i < p.Count() ensures DecodeRing(LineStrings.Encode(p.linearRings[i])) == Some(p.linearRings[i]) {
      LineStrings.DecodeEncode(p.linearRings[i]);
    }
    DecodeEachEncodeEach(p.linearRings, LineStrings.Encode, DecodeRing);
  }

  /** A canonical input is reproduced by decoding then encoding it. */
  lemma EncodeDecode(json: Json)
    requires Decode(json).Some? && NestedNumbers(json, 3)
    ensures Encode(Decode(json).value) == json
  {
    var e := Encode(Decode(json).value);
    forall i | 0 <= i < |json.items| ensures e.items[i] == json.items[i] {
      LineStrings.EncodeDecode(json.items[i]);
    }
    assert e.items == json.items;
  }

  /** A decoded polygon is exactly the one `Polygon(linearRings:)` builds from its rings. */
  lemma DecodeAgreesWithMake(json: Json)
    requires Decode(json).Some?
    ensures Make(Decode(json).value.linearRings) == Decode(json)
  {
  }

  /**
   * A ring that decodes as a line string but is not a linear ring rejects
   * the polygon: it is not dropped.
   */
  lemma OpenRingRejects(items: seq<Json>, k: nat)
    requires k < |items|
    requires LineStrings.Decode(items[k]).Some? && !LineStrings.Decode(items[k]).value.IsLinearRing()
    ensures Decode(JArray(items)).None?
  {
    assert DecodeRing(items[k]).None?;
  }
}
