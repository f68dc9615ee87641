/** MultiLineString: an ordered sequence of line strings, with no ring constraint; zero is valid. */
module MultiLineStrings {
  import opened Wrappers
  import opened Json
  import LineStrings

  datatype MultiLineString = MultiLineString(lineStrings: seq<LineStrings.LineString>) {

    predicate Valid()
    {
      forall i :: 0 <= i < |lineStrings| ==> lineStrings[i].Valid()
    }
  }

  /** The value must be an array whose every element decodes as a line string. */
  function Decode(json: Json): (r: Option<MultiLineString>)
    ensures r.Some? <==> json.JArray? && forall i :: 0 <= i < |json.items| ==> LineStrings.Decode(json.items[i]).Some?
    ensures r.Some? ==> r.value.Valid() && |r.value.lineStrings| == |json.items|
    ensures r.Some? ==> forall i :: 0 <= i < |json.items| ==> LineStrings.Decode(json.items[i]) == Some(r.value.lineStrings[i])
  {
    match json
    case JArray(items) =>
      (match DecodeEach(items, LineStrings.Decode)
       case Some(lineStrings) => Some(MultiLineString(lineStrings))
       case None => None)
    case _ => None
  }

  function Encode(m: MultiLineString): (json: Json)
    ensures json.JArray? && |json.items| == |m.lineStrings|
    ensures forall i :: 0 <= i < |m.lineStrings| ==> json.items[i] == LineStrings.Encode(m.lineStrings[i])
  {
    EncodeEach(m.lineStrings, LineStrings.Encode)
  }

  lemma DecodeEncode(m: MultiLineString)
    requires m.Valid()
    ensures Decode(Encode(m)) == Some(m)
  {
    forall i | 0 <= i < |m.lineStrings| ensures LineStrings.Decode(LineStrings.Encode(m.lineStrings[i])) == Some(m.lineStrings[i]) {
      LineStrings.DecodeEncode(m.lineStrings[i]);
    }
    DecodeEachEncodeEach(m.lineStrings, LineStrings.Encode, LineStrings.Decode);
  }
}
