/** MultiPolygon (RFC 7946 section 3.1.7): an ordered sequence of polygons; zero polygons is valid. */
module MultiPolygons {
  import opened Wrappers
  import opened Json
  import LineStrings
  import Polygons

  datatype MultiPolygon = MultiPolygon(polygons: seq<Polygons.Polygon>) {

    predicate Valid()
    {
      forall i :: 0 <= i < |polygons| ==> polygons[i].Valid()
    }

    function Count(): nat
    {
      |polygons|
    }
  }

  /** The member name under which a multi-polygon's encoding is wrapped. */
  const Prefix: string := "coordinates"

  /** The value must be an array whose every element decodes as a polygon; one invalid polygon rejects all. */
  function Decode(json: Json): (r: Option<MultiPolygon>)
    ensures r.Some? <==> json.JArray? && forall i :: 0 <= i < |json.items| ==> Polygons.Decode(json.items[i]).Some?
    ensures r.Some? ==> r.value.Valid() && r.value.Count() == |json.items|
    ensures r.Some? ==> forall i :: 0 <= i < |json.items| ==> Polygons.Decode(json.items[i]) == Some(r.value.polygons[i])
  {
    match json
    case JArray(items) =>
      (match DecodeEach(items, Polygons.Decode)
       case Some(polygons) => Some(MultiPolygon(polygons))
       case None => None)
    case _ => None
  }

  /** The encoding: each polygon's encoding, in order. */
  function Encode(m: MultiPolygon): (json: Json)
    ensures json.JArray? && |json.items| == m.Count()
    ensures forall i :: 0 <= i < m.Count() ==> json.items[i] == Polygons.Encode(m.polygons[i])
  {
    EncodeEach(m.polygons, Polygons.Encode)
  }

  lemma DecodeEncode(m: MultiPolygon)
    requires m.Valid()
    ensures Decode(Encode(m)) == Some(m)
  {
    forall i | 0 <= i < m.Count() ensures Polygons.Decode(Polygons.Encode(m.polygons[i])) == Some(m.polygons[i]) {
      Polygons.DecodeEncode(m.polygons[i]);
    }
    DecodeEachEncodeEach(m.polygons, Polygons.Encode, Polygons.Decode);
  }

  /**
   * A canonical input is reproduced by decoding then encoding it: the
   * multi-polygon built from the decoded rings encodes back to the same
   * nested coordinate structure, polygon by polygon and ring by ring.
   */
  lemma EncodeDecode(json: Json)
    requires Decode(json).Some? && NestedNumbers(json, 4)
    ensures Encode(Decode(json).value) == json
  {
    var e := Encode(Decode(json).value);
    forall i | 0 <= i < |json.items| ensures e.items[i] == json.items[i] {
      Polygons.EncodeDecode(json.items[i]);
    }
    assert e.items == json.items;
  }
}
