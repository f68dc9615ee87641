/** LineString: an ordered sequence of points; it may be empty. */
module LineStrings {
  import opened Wrappers
  import opened Json
  import Points

  datatype LineString = LineString(points: seq<Points.Point>) {

    predicate Valid()
    {
      forall i :: 0 <= i < |points| ==> points[i].Valid()
    }

    function Count(): nat
    {
      |points|
    }

    /**
     * A linear ring (RFC 7946 section 3.1.6): at least four points, the first
     * equal to the last under point equality.
     */
    function IsLinearRing(): (r: bool)
      ensures r <==>
        && Count() >= 4
        && points[0].Count() == points[Count() - 1].Count()
        && forall i :: 0 <= i < points[0].Count() ==> points[0].At(i) == points[Count() - 1].At(i)
    {
      |points| >= 4 && (Points.SameCoordinates(points[0], points[|points| - 1]); points[0] == points[|points| - 1])
    }
  }

  /** The value must be an array whose every element decodes as a point; one bad element rejects it all. */
  function Decode(json: Json): (r: Option<LineString>)
    ensures r.Some? <==> json.JArray? && forall i :: 0 <= i < |json.items| ==> Points.Decode(json.items[i]).Some?
    ensures r.Some? ==> r.value.Valid() && r.value.Count() == |json.items|
    ensures r.Some? ==> forall i :: 0 <= i < |json.items| ==> Points.Decode(json.items[i]) == Some(r.value.points[i])
  {
    match json
    case JArray(items) =>
      (match DecodeEach(items, Points.Decode)
       case Some(points) => Some(LineString(points))
       case None => None)
    case _ => None
  }

  /** The encoding: each point's encoding, in order. */
  function Encode(l: LineString): (json: Json)
    ensures json.JArray? && |json.items| == l.Count()
    ensures forall i :: 0 <= i < l.Count() ==> json.items[i] == Points.Encode(l.points[i])
  {
    EncodeEach(l.points, Points.Encode)
  }

  lemma DecodeEncode(l: LineString)
    requires l.Valid()
    ensures Decode(Encode(l)) == Some(l)
  {
    forall i | 0 <= i < l.Count() ensures Points.Decode(Points.Encode(l.points[i])) == Some(l.points[i]) {
      Points.DecodeEncode(l.points[i]);
    }
    DecodeEachEncodeEach(l.points, Points.Encode, Points.Decode);
  }

  /** A canonical input is reproduced by decoding then encoding it. */
  lemma EncodeDecode(json: Json)
    requires Decode(json).Some? && NestedNumbers(json, 2)
    ensures Encode(Decode(json).value) == json
  {
    var e := Encode(Decode(json).value);
    forall i | 0 <= i < |json.items| ensures e.items[i] == json.items[i] {
      Points.EncodeDecode(json.items[i]);
    }
    assert e.items == json.items;
  }

  /** Fewer than four points, or a first point unlike the last, is never a linear ring. */
  lemma NotLinearRing(l: LineString)
    requires l.Count() < 4 || (l.Count() > 0 && l.points[0] != l.points[l.Count() - 1])
    ensures !l.IsLinearRing()
  {
  }
}
