/** MultiPoint: an ordered sequence of points; zero points is valid. */
module MultiPoints {
  import opened Wrappers
  import opened Json
  import Points

  datatype MultiPoint = MultiPoint(points: seq<Points.Point>) {

    predicate Valid()
    {
      forall i :: 0 <= i < |points| ==> points[i].Valid()
    }
  }

  /** The value must be an array whose every element decodes as a point. */
  function Decode(json: Json): (r: Option<MultiPoint>)
    ensures r.Some? <==> json.JArray? && forall i :: 0 <= i < |json.items| ==> Points.Decode(json.items[i]).Some?
    ensures r.Some? ==> r.value.Valid() && |r.value.points| == |json.items|
    ensures r.Some? ==> forall i :: 0 <= i < |json.items| ==> Points.Decode(json.items[i]) == Some(r.value.points[i])
  {
    match json
    case JArray(items) =>
      (match DecodeEach(items, Points.Decode)
       case Some(points) => Some(MultiPoint(points))
       case None => None)
    case _ => None
  }

  function Encode(m: MultiPoint): (json: Json)
    ensures json.JArray? && |json.items| == |m.points|
    ensures forall i :: 0 <= i < |m.points| ==> json.items[i] == Points.Encode(m.points[i])
  {
    EncodeEach(m.points, Points.Encode)
  }

  lemma DecodeEncode(m: MultiPoint)
    requires m.Valid()
    ensures Decode(Encode(m)) == Some(m)
  {
    forall i | 0 <= i < |m.points| ensures Points.Decode(Points.Encode(m.points[i])) == Some(m.points[i]) {
      Points.DecodeEncode(m.points[i]);
    }
    DecodeEachEncodeEach(m.points, Points.Encode, Points.Decode);
  }
}
