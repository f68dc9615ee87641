/**
 * The behaviour the Polygon and MultiPolygon tests pin down, stated on the
 * model's own decoders and encoders, plus the Feature and GeometryCollection
 * cases the format singles out.
 */
module Scenarios {
  import opened Wrappers
  import opened Json
  import Points
  import LineStrings
  import Polygons
  import MultiPolygons
  import opened Root

  /** A two-dimensional position as the input writes it. */
  function Position(x: Coord, y: Coord): Json
  {
    JArray([JNumber(x), JNumber(y)])
  }

  function Pt(x: Coord, y: Coord): Points.Point
  {
    Points.Point([x, y])
  }

  /** `{ "type": name, key: value }` */
  function Typed(name: string, key: string, value: Json): Json
  {
    JObject([("type", JString(name)), (key, value)])
  }

  /** `[[a, a], [a+1, a+1], [a+2, a+2], [a, a]]`: a closed ring of four points. */
  function RingJson(a: Coord): Json
  {
    JArray([Position(a, a), Position(a + 1.0, a + 1.0), Position(a + 2.0, a + 2.0), Position(a, a)])
  }

  function Ring(a: Coord): LineStrings.LineString
  {
    LineStrings.LineString([Pt(a, a), Pt(a + 1.0, a + 1.0), Pt(a + 2.0, a + 2.0), Pt(a, a)])
  }

  lemma RingDecodes(a: Coord)
    ensures LineStrings.Decode(RingJson(a)) == Some(Ring(a))
    ensures Ring(a).Valid() && Ring(a).IsLinearRing()
  {
    var items := RingJson(a).items;
    forall i | 0 <= i < 4 ensures Points.Decode(items[i]) == Some(Ring(a).points[i]) {
      assert Points.Decode(items[i]).value.coordinates == Ring(a).points[i].coordinates;
    }
    assert LineStrings.Decode(RingJson(a)).value.points == Ring(a).points;
  }

  lemma RingEncodes(a: Coord)
    ensures LineStrings.Encode(Ring(a)) == RingJson(a)
  {
    var e := LineStrings.Encode(Ring(a));
    forall i | 0 <= i < 4 ensures e.items[i] == RingJson(a).items[i] {
      assert Points.Encode(Ring(a).points[i]).items == RingJson(a).items[i].items;
    }
    assert e.items == RingJson(a).items;
  }

  /**
   * `{"type":"Polygon","coordinates":[[[0,0],[1,1],[2,2],[0,0]]]}` is a
   * geometry of type Polygon with one linear ring whose points keep their
   * coordinates and order.
   */
  lemma BasicPolygonDecodes()
    ensures Decode(Typed("Polygon", "coordinates", JArray([RingJson(0.0)]))) == PolygonObject(Polygons.Polygon([Ring(0.0)]))
    ensures Decode(Typed("Polygon", "coordinates", JArray([RingJson(0.0)]))).IsGeometry()
    ensures Ring(0.0).IsLinearRing()
    ensures Ring(0.0).points[2].Longitude() == 2.0 && Ring(0.0).points[2].Latitude() == 2.0
  {
    var json := Typed("Polygon", "coordinates", JArray([RingJson(0.0)]));
    RingDecodes(0.0);
    assert TypeOf(json) == PolygonType;
    assert Field(json, "coordinates") == JArray([RingJson(0.0)]);
    assert Polygons.DecodeRing(RingJson(0.0)) == Some(Ring(0.0));
    assert Polygons.Decode(JArray([RingJson(0.0)])).value.linearRings == [Ring(0.0)];
  }

  /** `coordinates: []` is a valid polygon with no rings; `Polygon(linearRings: [])` succeeds and encodes to `[]`. */
  lemma EmptyPolygon()
    ensures Decode(Typed("Polygon", "coordinates", JArray([]))) == PolygonObject(Polygons.Polygon([]))
    ensures Polygons.Make([]) == Some(Polygons.Polygon([]))
    ensures Polygons.Encode(Polygons.Polygon([])) == JArray([])
  {
    assert TypeOf(Typed("Polygon", "coordinates", JArray([]))) == PolygonType;
  }

  /** `[[0,0],[1,1],[2,2],[3,3]]`: four points, not closed. */
  function OpenRingJson(): Json
  {
    JArray([Position(0.0, 0.0), Position(1.0, 1.0), Position(2.0, 2.0), Position(3.0, 3.0)])
  }

  lemma OpenRingIsNoLinearRing()
    ensures LineStrings.Decode(OpenRingJson()).Some?
    ensures !LineStrings.Decode(OpenRingJson()).value.IsLinearRing()
  {
    var items := OpenRingJson().items;
    forall i | 0 <= i < 4 ensures Points.Decode(items[i]).Some? {
    }
    var l := LineStrings.Decode(OpenRingJson()).value;
    assert Points.Decode(items[0]) == Some(l.points[0]);
    assert Points.Decode(items[3]) == Some(l.points[3]);
    assert l.points[0].At(0) == 0.0 && l.points[3].At(0) == 3.0;
  }

  /** A four-point ring whose last point differs from its first rejects the polygon. */
  lemma OpenRingPolygonFails()
    ensures Decode(Typed("Polygon", "coordinates", JArray([OpenRingJson()]))).HasError()
  {
    OpenRingIsNoLinearRing();
    Polygons.OpenRingRejects([OpenRingJson()], 0);
    TypedPolygon(JArray([OpenRingJson()]));
  }

  /**
   * A `{"type": "Polygon", "coordinates": c}` object holds exactly what `c`
   * decodes to, and is an invalid object exactly when `c` does not decode.
   */
  lemma TypedPolygon(c: Json)
    ensures Decode(Typed("Polygon", "coordinates", c)).AsPolygon() == Polygons.Decode(c)
    ensures Decode(Typed("Polygon", "coordinates", c)).HasError() <==> Polygons.Decode(c).None?
  {
    var members := Typed("Polygon", "coordinates", c).members;
    assert members[0].0 != "coordinates";
    assert MemberIndex(members[1..], "coordinates") == Some(0);
    assert TypeOf(Typed("Polygon", "coordinates", c)) == PolygonType;
    assert Field(Typed("Polygon", "coordinates", c), "coordinates") == c;
  }

  /** `{"type":"Polygon"}` with no coordinates is an invalid object. */
  lemma PolygonWithoutCoordinatesFails()
    ensures Decode(JObject([("type", JString("Polygon"))])).HasError()
  {
    assert TypeOf(JObject([("type", JString("Polygon"))])) == PolygonType;
  }

  /** `coordinates: [[0.0, 1.0], {"invalid": 2.0}]`: elements that are not rings make the polygon invalid. */
  lemma IllFormedPolygonFails()
    ensures Decode(Typed("Polygon", "coordinates", JArray([Position(0.0, 1.0), JObject([("invalid", JNumber(2.0))])]))).HasError()
  {
    var items := [Position(0.0, 1.0), JObject([("invalid", JNumber(2.0))])];
    assert Points.Decode(JNumber(0.0)).None?;
    assert LineStrings.Decode(items[0]).None?;
    assert Polygons.DecodeRing(items[0]).None?;
    assert TypeOf(Typed("Polygon", "coordinates", JArray(items))) == PolygonType;
  }

  /**
   * The two-ring polygon encodes to its rings' point arrays in construction
   * order; wrapped as a GeoJSON object it carries `"type": "Polygon"` and the
   * same array under its prefix `coordinates`.
   */
  lemma TwoRingPolygonEncodes()
    ensures Polygons.Encode(Polygons.Polygon([Ring(0.0), Ring(10.0)])) == JArray([RingJson(0.0), RingJson(10.0)])
    ensures Polygons.Prefix == "coordinates"
    ensures Lookup(Encode(PolygonObject(Polygons.Polygon([Ring(0.0), Ring(10.0)]))), "type") == Some(JString("Polygon"))
    ensures Lookup(Encode(PolygonObject(Polygons.Polygon([Ring(0.0), Ring(10.0)]))), "coordinates") == Some(JArray([RingJson(0.0), RingJson(10.0)]))
  {
    RingEncodes(0.0);
    RingEncodes(10.0);
    assert Polygons.Encode(Polygons.Polygon([Ring(0.0), Ring(10.0)])).items == [RingJson(0.0), RingJson(10.0)];
  }

  /** The two-polygon fixture: each polygon one ring. */
  function TwoPolygonJson(): Json
  {
    JArray([JArray([RingJson(0.0)]), JArray([RingJson(10.0)])])
  }

  function TwoPolygons(): MultiPolygons.MultiPolygon
  {
    MultiPolygons.MultiPolygon([Polygons.Polygon([Ring(0.0)]), Polygons.Polygon([Ring(10.0)])])
  }

  lemma SingleRingPolygonDecodes(a: Coord)
    ensures Polygons.Decode(JArray([RingJson(a)])) == Some(Polygons.Polygon([Ring(a)]))
    ensures Polygons.Make([Ring(a)]) == Some(Polygons.Polygon([Ring(a)]))
  {
    RingDecodes(a);
    assert Polygons.DecodeRing(RingJson(a)) == Some(Ring(a));
    assert Polygons.Decode(JArray([RingJson(a)])).value.linearRings == [Ring(a)];
  }

  /**
   * The two-polygon multi-polygon decodes, as a geometry of type
   * MultiPolygon, to two polygons whose points keep their coordinates and order.
   */
  lemma BasicMultiPolygonDecodes()
    ensures Decode(Typed("MultiPolygon", "coordinates", TwoPolygonJson())) == MultiPolygonObject(TwoPolygons())
    ensures Decode(Typed("MultiPolygon", "coordinates", TwoPolygonJson())).IsGeometry()
  {
    var g := MultiPolygonObject(TwoPolygons());
    TwoPolygonsValid();
    TwoPolygonsWrapped();
    DecodeEncode(g);
  }

  lemma TwoPolygonsValid()
    ensures MultiPolygonObject(TwoPolygons()).Valid()
  {
    RingDecodes(0.0);
    RingDecodes(10.0);
  }

  lemma TwoPolygonsWrapped()
    ensures Encode(MultiPolygonObject(TwoPolygons())) == Typed("MultiPolygon", "coordinates", TwoPolygonJson())
  {
    BasicMultiPolygonEncodes();
  }

  /**
   * Encoding the multi-polygon built from the fixture's rings reproduces the
   * input's coordinates; wrapped, it carries `"type": "MultiPolygon"`.
   */
  lemma BasicMultiPolygonEncodes()
    ensures MultiPolygons.Encode(TwoPolygons()) == TwoPolygonJson()
    ensures MultiPolygons.Prefix == "coordinates"
    ensures Lookup(Encode(MultiPolygonObject(TwoPolygons())), "type") == Some(JString("MultiPolygon"))
    ensures Lookup(Encode(MultiPolygonObject(TwoPolygons())), "coordinates") == Some(TwoPolygonJson())
  {
    var items := TwoPolygonJson().items;
    RingEncodes(0.0);
    RingEncodes(10.0);
    assert Polygons.Encode(Polygons.Polygon([Ring(0.0)])).items == [RingJson(0.0)];
    assert Polygons.Encode(Polygons.Polygon([Ring(10.0)])).items == [RingJson(10.0)];
    assert MultiPolygons.Encode(TwoPolygons()).items == items;
  }

  /** The nonhomogeneous fixture's coordinates: a two-ring polygon, then a one-ring polygon. */
  function NonhomogeneousJson(): Json
  {
    JArray([JArray([RingJson(0.0), RingJson(0.5)]), JArray([RingJson(10.0)])])
  }

  lemma NonhomogeneousCoordinatesDecode()
    ensures MultiPolygons.Decode(NonhomogeneousJson())
         == Some(MultiPolygons.MultiPolygon([Polygons.Polygon([Ring(0.0), Ring(0.5)]), Polygons.Polygon([Ring(10.0)])]))
  {
    TwoRingPolygonDecodes(0.0, 0.5);
    SingleRingPolygonDecodes(10.0);
    assert MultiPolygons.Decode(NonhomogeneousJson()).value.polygons
        == [Polygons.Polygon([Ring(0.0), Ring(0.5)]), Polygons.Polygon([Ring(10.0)])];
  }

  /**
   * Per-polygon ring counts are kept: the root object's multi-polygon
   * accessor holds two polygons, of two rings and then one.
   */
  lemma NonhomogeneousMultiPolygonDecodes()
    ensures Decode(Typed("MultiPolygon", "coordinates", NonhomogeneousJson())).AsMultiPolygon().Some?
    ensures Decode(Typed("MultiPolygon", "coordinates", NonhomogeneousJson())).AsMultiPolygon().value.Count() == 2
    ensures Decode(Typed("MultiPolygon", "coordinates", NonhomogeneousJson())).AsMultiPolygon().value.polygons[0].Count() == 2
    ensures Decode(Typed("MultiPolygon", "coordinates", NonhomogeneousJson())).AsMultiPolygon().value.polygons[1].Count() == 1
  {
    TypedMultiPolygon(NonhomogeneousJson());
    NonhomogeneousCoordinatesDecode();
  }

  /** A `{"type": "MultiPolygon", "coordinates": c}` object holds exactly what `c` decodes to. */
  lemma TypedMultiPolygon(c: Json)
    ensures Decode(Typed("MultiPolygon", "coordinates", c)).AsMultiPolygon() == MultiPolygons.Decode(c)
  {
    var members := Typed("MultiPolygon", "coordinates", c).members;
    assert members[0].0 != "coordinates";
    assert MemberIndex(members[1..], "coordinates") == Some(0);
    assert TypeOf(Typed("MultiPolygon", "coordinates", c)) == MultiPolygonType;
    assert Field(Typed("MultiPolygon", "coordinates", c), "coordinates") == c;
  }

  lemma TwoRingPolygonDecodes(a: Coord, b: Coord)
    ensures Polygons.Decode(JArray([RingJson(a), RingJson(b)])) == Some(Polygons.Polygon([Ring(a), Ring(b)]))
  {
    RingDecodes(a);
    RingDecodes(b);
    assert Polygons.DecodeRing(RingJson(a)) == Some(Ring(a));
    assert Polygons.DecodeRing(RingJson(b)) == Some(Ring(b));
    assert Polygons.Decode(JArray([RingJson(a), RingJson(b)])).value.linearRings == [Ring(a), Ring(b)];
  }

  /** `coordinates: []` is a multi-polygon of no polygons, and the empty multi-polygon encodes to `[]`. */
  lemma EmptyMultiPolygon()
    ensures Decode(Typed("MultiPolygon", "coordinates", JArray([]))) == MultiPolygonObject(MultiPolygons.MultiPolygon([]))
    ensures MultiPolygons.Encode(MultiPolygons.MultiPolygon([])) == JArray([])
  {
    assert TypeOf(Typed("MultiPolygon", "coordinates", JArray([]))) == MultiPolygonType;
  }

  /** A multi-polygon without coordinates is an invalid object. */
  lemma MultiPolygonWithoutCoordinatesFails()
    ensures Decode(JObject([("type", JString("MultiPolygon"))])).HasError()
  {
    assert TypeOf(JObject([("type", JString("MultiPolygon"))])) == MultiPolygonType;
  }

  /** An inner polygon `[[0.0, 0.0]]`, whose only ring is a single position, makes the multi-polygon invalid. */
  lemma InvalidInnerPolygonFails()
    ensures Decode(Typed("MultiPolygon", "coordinates", JArray([JArray([Position(0.0, 0.0)])]))).HasError()
  {
    var inner := JArray([Position(0.0, 0.0)]);
    assert Points.Decode(JNumber(0.0)).None?;
    assert LineStrings.Decode(Position(0.0, 0.0)).None?;
    assert Polygons.DecodeRing(Position(0.0, 0.0)).None?;
    assert Polygons.Decode(inner).None?;
    assert TypeOf(Typed("MultiPolygon", "coordinates", JArray([inner]))) == MultiPolygonType;
  }

  /** Coordinates mixing a position and an object are an invalid object. */
  lemma IllFormedMultiPolygonFails()
    ensures Decode(Typed("MultiPolygon", "coordinates", JArray([Position(0.0, 1.0), JObject([("invalid", JNumber(2.0))])]))).HasError()
  {
    assert Polygons.Decode(Position(0.0, 1.0)).None? by {
      assert Polygons.DecodeRing(JNumber(0.0)).None?;
    }
    assert TypeOf(Typed("MultiPolygon", "coordinates", JArray([Position(0.0, 1.0), JObject([("invalid", JNumber(2.0))])]))) == MultiPolygonType;
  }

  /** `{"type":"Feature","geometry":null,"properties":{}}` is a feature with no geometry and empty properties. */
  lemma NullGeometryFeature()
    ensures Decode(JObject([("type", JString("Feature")), ("geometry", JNull), ("properties", JObject([]))]))
         == FeatureObject(Feature(None, JObject([]), None))
  {
    var json := JObject([("type", JString("Feature")), ("geometry", JNull), ("properties", JObject([]))]);
    assert TypeOf(json) == FeatureType;
    assert Lookup(json, "properties") == Some(JObject([]));
    assert Lookup(json, "geometry") == Some(JNull);
    assert Identifier(json) == None;
  }

  /** A geometry collection checks only that its members decoded: a feature member is accepted. */
  lemma CollectionAcceptsFeature()
    ensures DecodeGeometryCollection(JArray([JObject([("type", JString("Feature")), ("geometry", JNull), ("properties", JObject([]))])])).Some?
  {
    NullGeometryFeature();
  }

  /** A member whose type is unknown rejects the whole collection. */
  lemma CollectionRejectsUnknown()
    ensures DecodeGeometryCollection(JArray([JObject([("type", JString("Circle"))])])).None?
  {
    var circle := JObject([("type", JString("Circle"))]);
    assert TypeNamed("Circle") == UnknownType;
    assert TypeOf(circle) == UnknownType;
    assert Decode(JArray([circle]).items[0]).Type() == UnknownType;
  }

  /**
   * A member that names a known type but fails to decode (a polygon without
   * coordinates) comes out of type Unknown, so it rejects the collection.
   */
  lemma CollectionRejectsFailedMember()
    ensures DecodeGeometryCollection(JArray([JObject([("type", JString("Polygon"))])])).None?
  {
    PolygonWithoutCoordinatesFails();
    assert Decode(JArray([JObject([("type", JString("Polygon"))])]).items[0]).Type() == UnknownType;
  }

  /** An empty array is a valid collection of no geometries. */
  lemma EmptyCollection()
    ensures DecodeGeometryCollection(JArray([])) == Some(GeometryCollection([]))
    ensures DecodeGeometryCollection(JArray([])).value.Count() == 0
  {
  }
}
