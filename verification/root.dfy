/**
 * The root GeoJSON object: reads the `type` discriminator and routes the same
 * input to exactly one variant's decoder. Any failure anywhere below makes the
 * whole object invalid. GeometryCollection and Feature live here because they
 * hold root objects themselves.
 */
module Root {
  import opened Wrappers
  import opened Json
  import Points
  import LineStrings
  import Polygons
  import MultiPoints
  import MultiLineStrings
  import MultiPolygons

  /** The discriminator values, and Unknown for an object that did not decode. */
  datatype GeoJsonType =
    | PointType | MultiPointType | LineStringType | MultiLineStringType | PolygonType | MultiPolygonType
    | GeometryCollectionType | FeatureType | FeatureCollectionType | UnknownType

  /** The text of a discriminator. */
  function Name(t: GeoJsonType): string
    requires t != UnknownType
  {
    match t
    case PointType => "Point"
    case MultiPointType => "MultiPoint"
    case LineStringType => "LineString"
    case MultiLineStringType => "MultiLineString"
    case PolygonType => "Polygon"
    case MultiPolygonType => "MultiPolygon"
    case GeometryCollectionType => "GeometryCollection"
    case FeatureType => "Feature"
    case FeatureCollectionType => "FeatureCollection"
  }

  /** The type a discriminator text names; Unknown when it names none. */
  function TypeNamed(name: string): (t: GeoJsonType)
    ensures t != UnknownType ==> Name(t) == name
    ensures t == UnknownType <==> forall k: GeoJsonType :: k != UnknownType ==> Name(k) != name
  {
    if name == "Point" then PointType
    else if name == "MultiPoint" then MultiPointType
    else if name == "LineString" then LineStringType
    else if name == "MultiLineString" then MultiLineStringType
    else if name == "Polygon" then PolygonType
    else if name == "MultiPolygon" then MultiPolygonType
    else if name == "GeometryCollection" then GeometryCollectionType
    else if name == "Feature" then FeatureType
    else if name == "FeatureCollection" then FeatureCollectionType
    else UnknownType
  }

  /** The type an input claims: its `type` member when that is a string, otherwise Unknown. */
  function TypeOf(json: Json): GeoJsonType
  {
    match Lookup(json, "type")
    case Some(JString(name)) => TypeNamed(name)
    case _ => UnknownType
  }

  /**
   * A decoded object: one case per kind, each holding its payload, or
   * InvalidObject, the single "invalid object" outcome (type Unknown, error set).
   */
  datatype GeoJson =
    | PointObject(point: Points.Point)
    | MultiPointObject(multiPoint: MultiPoints.MultiPoint)
    | LineStringObject(lineString: LineStrings.LineString)
    | MultiLineStringObject(multiLineString: MultiLineStrings.MultiLineString)
    | PolygonObject(polygon: Polygons.Polygon)
    | MultiPolygonObject(multiPolygon: MultiPolygons.MultiPolygon)
    | GeometryCollectionObject(geometryCollection: GeometryCollection)
    | FeatureObject(feature: Feature)
    | FeatureCollectionObject(featureCollection: FeatureCollection)
    | InvalidObject
  {

    function Type(): GeoJsonType
    {
      match this
      case PointObject(_) => PointType
      case MultiPointObject(_) => MultiPointType
      case LineStringObject(_) => LineStringType
      case MultiLineStringObject(_) => MultiLineStringType
      case PolygonObject(_) => PolygonType
      case MultiPolygonObject(_) => MultiPolygonType
      case GeometryCollectionObject(_) => GeometryCollectionType
      case FeatureObject(_) => FeatureType
      case FeatureCollectionObject(_) => FeatureCollectionType
      case InvalidObject => UnknownType
    }

    predicate HasError()
    {
      InvalidObject?
    }

    /**
     * `isGeometry()`: true for the geometry kinds, i.e. exactly when one of the
     * geometry accessors holds a payload; never for a failure or a feature.
     */
    function IsGeometry(): (r: bool)
      ensures r <==> AsPoint().Some? || AsMultiPoint().Some? || AsLineString().Some? || AsMultiLineString().Some?
                     || AsPolygon().Some? || AsMultiPolygon().Some? || AsGeometryCollection().Some?
      ensures r ==> !HasError()
    {
      Type() !in {FeatureType, FeatureCollectionType, UnknownType}
    }

    /** The kinds whose payload is a coordinate array under the `coordinates` member. */
    predicate HasCoordinates()
    {
      PointObject? || MultiPointObject? || LineStringObject? || MultiLineStringObject? || PolygonObject? || MultiPolygonObject?
    }

    /** The structural invariants every decoded object satisfies, all the way down. */
    predicate Valid()
    {
      match this
      case PointObject(p) => p.Valid()
      case MultiPointObject(m) => m.Valid()
      case LineStringObject(l) => l.Valid()
      case MultiLineStringObject(m) => m.Valid()
      case PolygonObject(p) => p.Valid()
      case MultiPolygonObject(m) => m.Valid()
      case GeometryCollectionObject(c) => c.Valid()
      case FeatureObject(f) => f.Valid()
      case FeatureCollectionObject(c) => c.Valid()
      case InvalidObject => false
    }

    /** The `point` accessor. */
    function AsPoint(): (r: Option<Points.Point>)
      ensures r.Some? <==> Type() == PointType
      ensures r.Some? ==> this == PointObject(r.value)
    {
      match this
      case PointObject(p) => Some(p)
      case _ => None
    }

    function AsMultiPoint(): (r: Option<MultiPoints.MultiPoint>)
      ensures r.Some? <==> Type() == MultiPointType
      ensures r.Some? ==> this == MultiPointObject(r.value)
    {
      match this
      case MultiPointObject(m) => Some(m)
      case _ => None
    }

    function AsLineString(): (r: Option<LineStrings.LineString>)
      ensures r.Some? <==> Type() == LineStringType
      ensures r.Some? ==> this == LineStringObject(r.value)
    {
      match this
      case LineStringObject(l) => Some(l)
      case _ => None
    }

    function AsMultiLineString(): (r: Option<MultiLineStrings.MultiLineString>)
      ensures r.Some? <==> Type() == MultiLineStringType
      ensures r.Some? ==> this == MultiLineStringObject(r.value)
    {
      match this
      case MultiLineStringObject(m) => Some(m)
      case _ => None
    }

    function AsPolygon(): (r: Option<Polygons.Polygon>)
      ensures r.Some? <==> Type() == PolygonType
      ensures r.Some? ==> this == PolygonObject(r.value)
    {
      match this
      case PolygonObject(p) => Some(p)
      case _ => None
    }

    function AsMultiPolygon(): (r: Option<MultiPolygons.MultiPolygon>)
      ensures r.Some? <==> Type() == MultiPolygonType
      ensures r.Some? ==> this == MultiPolygonObject(r.value)
    {
      match this
      case MultiPolygonObject(m) => Some(m)
      case _ => None
    }

    /** The `geometryCollection` accessor. */
    function AsGeometryCollection(): (r: Option<GeometryCollection>)
      ensures r.Some? <==> Type() == GeometryCollectionType
      ensures r.Some? ==> this == GeometryCollectionObject(r.value)
    {
      match this
      case GeometryCollectionObject(c) => Some(c)
      case _ => None
    }

    /** The `feature` accessor. */
    function AsFeature(): (r: Option<Feature>)
      ensures r.Some? <==> Type() == FeatureType
      ensures r.Some? ==> this == FeatureObject(r.value)
    {
      match this
      case FeatureObject(f) => Some(f)
      case _ => None
    }

    function AsFeatureCollection(): (r: Option<FeatureCollection>)
      ensures r.Some? <==> Type() == FeatureCollectionType
      ensures r.Some? ==> this == FeatureCollectionObject(r.value)
    {
      match this
      case FeatureCollectionObject(c) => Some(c)
      case _ => None
    }

    /** The member name under which the payload is encoded. */
    function Prefix(): string
      requires HasCoordinates()
    {
      match this
      case PolygonObject(_) => Polygons.Prefix
      case MultiPolygonObject(_) => MultiPolygons.Prefix
      case _ => "coordinates"
    }

    /** The payload's own encoding: nested coordinate arrays. */
    function EncodeCoordinates(): Json
      requires HasCoordinates()
    {
      match this
      case PointObject(p) => Points.Encode(p)
      case MultiPointObject(m) => MultiPoints.Encode(m)
      case LineStringObject(l) => LineStrings.Encode(l)
      case MultiLineStringObject(m) => MultiLineStrings.Encode(m)
      case PolygonObject(p) => Polygons.Encode(p)
      case MultiPolygonObject(m) => MultiPolygons.Encode(m)
    }
  }

  /** GeometryCollection (RFC 7946 section 3.1.8): an ordered sequence of root objects. */
  datatype GeometryCollection = GeometryCollection(geometries: seq<GeoJson>) {

    /**
     * Every member satisfies the decoder's invariants all the way down. On a
     * decoded collection this is no more than "no member is of type Unknown"
     * (see DecodeValid); a hand-built collection can miss it. Member kinds are
     * not otherwise restricted.
     */
    predicate Valid()
    {
      forall i :: 0 <= i < |geometries| ==> geometries[i].Valid()
    }

    /** `count`: the number of members; a collection of none is valid. */
    function Count(): (n: nat)
      ensures n == 0 ==> Valid()
      ensures n == 0 <==> geometries == []
    {
      |geometries|
    }

    /**
     * Subscript get (the requires stands for Swift's out-of-range trap): a
     * member read from a valid collection is itself valid, and putting it back
     * at its index rebuilds the collection.
     */
    function At(index: nat): (r: GeoJson)
      requires index < Count()
      ensures Valid() ==> r.Valid()
      ensures GeometryCollection(geometries[..index] + [r] + geometries[index + 1..]) == this
    {
      assert geometries == geometries[..index] + [geometries[index]] + geometries[index + 1..];
      geometries[index]
    }

    /** Subscript set: only the member at `index` changes, and nothing is validated again. */
    function Replace(index: nat, geometry: GeoJson): (c: GeometryCollection)
      requires index < Count()
      ensures c.Count() == Count()
      ensures c.At(index) == geometry
      ensures forall k :: 0 <= k < Count() && k != index ==> c.At(k) == At(k)
    {
      GeometryCollection(geometries[index := geometry])
    }
  }

  /**
   * Feature (RFC 7946 section 3.2): an optional geometry, the `properties`
   * value kept verbatim, and an optional string identifier.
   */
  datatype Feature = Feature(geometry: Option<GeoJson>, properties: Json, identifier: Option<string>) {

    /** Either no geometry, or a decoded object of a geometry kind. */
    predicate Valid()
    {
      geometry.None? || (geometry.value.IsGeometry() && geometry.value.Valid())
    }
  }

  /** FeatureCollection: an ordered sequence of features. */
  datatype FeatureCollection = FeatureCollection(features: seq<Feature>) {

    predicate Valid()
    {
      forall i :: 0 <= i < |features| ==> features[i].Valid()
    }
  }

  /**
   * The decoders of the coordinate kinds: each reads the `coordinates`
   * member; a missing member reads as null, which no decoder accepts.
   */
  function DecodeCoordinates(json: Json, t: GeoJsonType): (r: GeoJson)
    requires t in {PointType, MultiPointType, LineStringType, MultiLineStringType, PolygonType, MultiPolygonType}
    ensures !r.HasError() ==> r.Type() == t && r.HasCoordinates()
    ensures Lookup(json, "coordinates").None? ==> r.HasError()
    ensures r.AsPoint() == (if t == PointType then Points.Decode(Field(json, "coordinates")) else None)
    ensures r.AsMultiPoint() == (if t == MultiPointType then MultiPoints.Decode(Field(json, "coordinates")) else None)
    ensures r.AsLineString() == (if t == LineStringType then LineStrings.Decode(Field(json, "coordinates")) else None)
    ensures r.AsMultiLineString() == (if t == MultiLineStringType then MultiLineStrings.Decode(Field(json, "coordinates")) else None)
    ensures r.AsPolygon() == (if t == PolygonType then Polygons.Decode(Field(json, "coordinates")) else None)
    ensures r.AsMultiPolygon() == (if t == MultiPolygonType then MultiPolygons.Decode(Field(json, "coordinates")) else None)
  {
    var coordinates := Field(json, "coordinates");
    match t
    case PointType =>
      (match Points.Decode(coordinates)
       case Some(p) => PointObject(p)
       case None => InvalidObject)
    case MultiPointType =>
      (match MultiPoints.Decode(coordinates)
       case Some(m) => MultiPointObject(m)
       case None => InvalidObject)
    case LineStringType =>
      (match LineStrings.Decode(coordinates)
       case Some(l) => LineStringObject(l)
       case None => InvalidObject)
    case MultiLineStringType =>
      (match MultiLineStrings.Decode(coordinates)
       case Some(m) => MultiLineStringObject(m)
       case None => InvalidObject)
    case PolygonType =>
      (match Polygons.Decode(coordinates)
       case Some(p) => PolygonObject(p)
       case None => InvalidObject)
    case MultiPolygonType =>
      (match MultiPolygons.Decode(coordinates)
       case Some(m) => MultiPolygonObject(m)
       case None => InvalidObject)
  }

  /**
   * `GeoJSON(json:)`: dispatches on the discriminator to exactly one decoder
   * with the same input; an unknown or missing discriminator, or a failing
   * decoder, gives InvalidObject, with no fallback to another kind.
   */
  function Decode(json: Json): (r: GeoJson)
    decreases json, 3
    ensures !r.HasError() ==> r.Type() == TypeOf(json)
    ensures TypeOf(json) == UnknownType ==> r.HasError()
    ensures r.AsPoint() == (if TypeOf(json) == PointType then Points.Decode(Field(json, "coordinates")) else None)
    ensures r.AsMultiPoint() == (if TypeOf(json) == MultiPointType then MultiPoints.Decode(Field(json, "coordinates")) else None)
    ensures r.AsLineString() == (if TypeOf(json) == LineStringType then LineStrings.Decode(Field(json, "coordinates")) else None)
    ensures r.AsMultiLineString() == (if TypeOf(json) == MultiLineStringType then MultiLineStrings.Decode(Field(json, "coordinates")) else None)
    ensures r.AsPolygon() == (if TypeOf(json) == PolygonType then Polygons.Decode(Field(json, "coordinates")) else None)
    ensures r.AsMultiPolygon() == (if TypeOf(json) == MultiPolygonType then MultiPolygons.Decode(Field(json, "coordinates")) else None)
    ensures r.AsGeometryCollection() ==
      if TypeOf(json) == GeometryCollectionType && Lookup(json, "geometries").Some?
      then DecodeGeometryCollection(Lookup(json, "geometries").value) else None
    ensures r.AsFeature() == (if TypeOf(json) == FeatureType then DecodeFeature(json) else None)
    ensures r.AsFeatureCollection() ==
      if TypeOf(json) == FeatureCollectionType && Lookup(json, "features").Some?
      then DecodeFeatureCollection(Lookup(json, "features").value) else None
  {
    match TypeOf(json)
    case GeometryCollectionType => GeometryCollectionObjectOf(json)
    case FeatureType => FeatureObjectOf(json)
    case FeatureCollectionType => FeatureCollectionObjectOf(json)
    case UnknownType => InvalidObject
    case _ => DecodeCoordinates(json, TypeOf(json))
  }

  /** The `geometries` member decoded as a collection, wrapped as a root object. */
  function GeometryCollectionObjectOf(json: Json): (r: GeoJson)
    decreases json, 1
    ensures !r.HasError() ==> r.Type() == GeometryCollectionType
    ensures r.AsGeometryCollection() ==
      if Lookup(json, "geometries").Some? then DecodeGeometryCollection(Lookup(json, "geometries").value) else None
  {
    match Lookup(json, "geometries")
    case Some(geometries) =>
      (match DecodeGeometryCollection(geometries)
       case Some(c) => GeometryCollectionObject(c)
       case None => InvalidObject)
    case None => InvalidObject
  }

  /** The object decoded as a feature, wrapped as a root object. */
  function FeatureObjectOf(json: Json): (r: GeoJson)
    decreases json, 2
    ensures !r.HasError() ==> r.Type() == FeatureType
    ensures r.AsFeature() == DecodeFeature(json)
  {
    match DecodeFeature(json)
    case Some(f) => FeatureObject(f)
    case None => InvalidObject
  }

  /** The `features` member decoded as a feature collection, wrapped as a root object. */
  function FeatureCollectionObjectOf(json: Json): (r: GeoJson)
    decreases json, 1
    ensures !r.HasError() ==> r.Type() == FeatureCollectionType
    ensures r.AsFeatureCollection() ==
      if Lookup(json, "features").Some? then DecodeFeatureCollection(Lookup(json, "features").value) else None
  {
    match Lookup(json, "features")
    case Some(features) =>
      (match DecodeFeatureCollection(features)
       case Some(c) => FeatureCollectionObject(c)
       case None => InvalidObject)
    case None => InvalidObject
  }

  /**
   * `GeometryCollection.init?(json:)`: the value must be an array; every
   * element goes through the root decoder, in order, and the collection is
   * rejected as a whole if any element came out of type Unknown.
   */
  function DecodeGeometryCollection(json: Json): (r: Option<GeometryCollection>)
    decreases json, 1
    ensures r.Some? <==> json.JArray? && forall i :: 0 <= i < |json.items| ==> Decode(json.items[i]).Type() != UnknownType
    ensures r.Some? ==> r.value.Count() == |json.items| && forall i :: 0 <= i < |json.items| ==> r.value.At(i) == Decode(json.items[i])
  {
    match json
    case JArray(items) =>
      if forall i :: 0 <= i < |items| ==> Decode(items[i]).Type() != UnknownType then
        Some(GeometryCollection(seq(|items|, i requires 0 <= i < |items| => Decode(items[i]))))
      else None
    case _ => None
  }

  /** The `id` member when it is a string; anything else leaves the identifier unset. */
  function Identifier(json: Json): (r: Option<string>)
    ensures r.Some? <==> Lookup(json, "id").Some? && Lookup(json, "id").value.JString?
    ensures r.Some? ==> Lookup(json, "id").value == JString(r.value)
  {
    match Lookup(json, "id")
    case Some(JString(s)) => Some(s)
    case _ => None
  }

  /**
   * `Feature.init?(json:)`, guard by guard: `properties` must be present,
   * then `geometry` must be present; a null geometry means no geometry;
   * otherwise the geometry must decode without error and be a geometry kind.
   */
  function DecodeFeature(json: Json): (r: Option<Feature>)
    decreases json, 1
    ensures Lookup(json, "properties").None? ==> r.None?
    ensures Lookup(json, "geometry").None? ==> r.None?
    ensures r.Some? <==>
      && Lookup(json, "properties").Some?
      && Lookup(json, "geometry").Some?
      && (Lookup(json, "geometry").value.JNull?
          || (!Decode(Lookup(json, "geometry").value).HasError() && Decode(Lookup(json, "geometry").value).IsGeometry()))
    ensures r.Some? ==> r.value.properties == Lookup(json, "properties").value
    ensures r.Some? ==> r.value.identifier == Identifier(json)
    ensures r.Some? ==> (r.value.geometry.None? <==> Lookup(json, "geometry").value.JNull?)
    ensures r.Some? && r.value.geometry.Some? ==> r.value.geometry.value == Decode(Lookup(json, "geometry").value)
  {
    match Lookup(json, "properties")
    case None => None
    case Some(properties) =>
      match Lookup(json, "geometry")
      case None => None
      case Some(geometryJson) =>
        if geometryJson.JNull? then Some(Feature(None, properties, Identifier(json)))
        else
          var geometry := Decode(geometryJson);
          if geometry.HasError() then None
          else if !geometry.IsGeometry() then None
          else Some(Feature(Some(geometry), properties, Identifier(json)))
  }

  /** The value must be an array whose every element decodes as a feature. */
  function DecodeFeatureCollection(json: Json): (r: Option<FeatureCollection>)
    decreases json, 1
    ensures r.Some? <==> json.JArray? && forall i :: 0 <= i < |json.items| ==> DecodeFeature(json.items[i]).Some?
    ensures r.Some? ==> |r.value.features| == |json.items|
    ensures r.Some? ==> forall i :: 0 <= i < |json.items| ==> DecodeFeature(json.items[i]) == Some(r.value.features[i])
  {
    match json
    case JArray(items) =>
      if forall i :: 0 <= i < |items| ==> DecodeFeature(items[i]).Some? then
        Some(FeatureCollection(seq(|items|, i requires 0 <= i < |items| => DecodeFeature(items[i]).value)))
      else None
    case _ => None
  }

  /**
   * Fail closed: whatever decodes satisfies every structural invariant all
   * the way down (points with two or more coordinates, closed rings of four
   * or more points, collection members that decoded, feature geometries of a
   * geometry kind).
   */
  lemma {:induction false} DecodeValid(json: Json)
    decreases json, 2
    ensures Decode(json).HasError() || Decode(json).Valid()
  {
    match TypeOf(json) {
      case GeometryCollectionType =>
        if Lookup(json, "geometries").Some? {
          GeometryCollectionValid(Lookup(json, "geometries").value);
        }
      case FeatureType =>
        FeatureValid(json);
      case FeatureCollectionType =>
        if Lookup(json, "features").Some? {
          FeatureCollectionValid(Lookup(json, "features").value);
        }
      case _ =>
    }
  }

  lemma {:induction false} GeometryCollectionValid(json: Json)
    decreases json, 1
    ensures DecodeGeometryCollection(json).Some? ==> DecodeGeometryCollection(json).value.Valid()
  {
    if DecodeGeometryCollection(json).Some? {
      var c := DecodeGeometryCollection(json).value;
      forall i | 0 <= i < c.Count() ensures c.geometries[i].Valid() {
        DecodeValid(json.items[i]);
        assert c.At(i) == Decode(json.items[i]);
      }
    }
  }

  lemma {:induction false} FeatureValid(json: Json)
    decreases json, 1
    ensures DecodeFeature(json).Some? ==> DecodeFeature(json).value.Valid()
  {
    if DecodeFeature(json).Some? && DecodeFeature(json).value.geometry.Some? {
      DecodeValid(Lookup(json, "geometry").value);
    }
  }

  lemma {:induction false} FeatureCollectionValid(json: Json)
    decreases json, 1
    ensures DecodeFeatureCollection(json).Some? ==> DecodeFeatureCollection(json).value.Valid()
  {
    if DecodeFeatureCollection(json).Some? {
      var c := DecodeFeatureCollection(json).value;
      forall i | 0 <= i < |c.features| ensures c.features[i].Valid() {
        FeatureValid(json.items[i]);
      }
    }
  }

  /**
   * The wrapped encoding of a coordinate geometry: an object whose `type`
   * member is the discriminator and whose prefix member holds the payload's
   * own encoding.
   */
  function Encode(g: GeoJson): (json: Json)
    requires g.HasCoordinates()
    ensures Lookup(json, "type") == Some(JString(Name(g.Type())))
    ensures Lookup(json, g.Prefix()) == Some(g.EncodeCoordinates())
    ensures TypeOf(json) == g.Type()
  {
    var members := [("type", JString(Name(g.Type()))), (g.Prefix(), g.EncodeCoordinates())];
    assert MemberIndex(members[1..], g.Prefix()) == Some(0);
    JObject(members)
  }

  /** Decoding the encoding of a valid coordinate geometry gives it back; so encoding is idempotent through decode. */
  lemma DecodeEncode(g: GeoJson)
    requires g.HasCoordinates() && g.Valid()
    ensures Decode(Encode(g)) == g
    ensures Encode(Decode(Encode(g))) == Encode(g)
  {
    var json := Encode(g);
    assert Field(json, "coordinates") == g.EncodeCoordinates();
    match g
    case PointObject(p) => Points.DecodeEncode(p);
    case MultiPointObject(m) => MultiPoints.DecodeEncode(m);
    case LineStringObject(l) => LineStrings.DecodeEncode(l);
    case MultiLineStringObject(m) => MultiLineStrings.DecodeEncode(m);
    case PolygonObject(p) => Polygons.DecodeEncode(p);
    case MultiPolygonObject(m) => MultiPolygons.DecodeEncode(m);
  }

  /** Number of typed accessors that return a payload. */
  function PopulatedAccessors(g: GeoJson): nat
  {
    (if g.AsPoint().Some? then 1 else 0) + (if g.AsMultiPoint().Some? then 1 else 0)
    + (if g.AsLineString().Some? then 1 else 0) + (if g.AsMultiLineString().Some? then 1 else 0)
    + (if g.AsPolygon().Some? then 1 else 0) + (if g.AsMultiPolygon().Some? then 1 else 0)
    + (if g.AsGeometryCollection().Some? then 1 else 0) + (if g.AsFeature().Some? then 1 else 0)
    + (if g.AsFeatureCollection().Some? then 1 else 0)
  }

  /**
   * Every decode either fails or populates exactly one typed accessor, never
   * both and never neither; a geometry is never a failure, a feature or a
   * feature collection.
   */
  lemma DecodeOutcomeExclusive(json: Json)
    ensures PopulatedAccessors(Decode(json)) == if Decode(json).HasError() then 0 else 1
    ensures Decode(json).IsGeometry() ==> !Decode(json).HasError() && Decode(json).AsFeature().None? && Decode(json).AsFeatureCollection().None?
  {
  }

  /**
   * Subscript set on a collection does no validation: replacing a member of a
   * valid collection by an invalid object is accepted, and the collection no
   * longer satisfies the decoder's invariant.
   */
  lemma ReplaceDoesNotRevalidate(c: GeometryCollection, index: nat)
    requires c.Valid() && index < c.Count()
    ensures c.Replace(index, InvalidObject).Count() == c.Count()
    ensures !c.Replace(index, InvalidObject).Valid()
  {
    assert c.Replace(index, InvalidObject).geometries[index] == InvalidObject;
  }
}
