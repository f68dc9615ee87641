# GeoJSON typed decoding and validation, modelled in Dafny

This project models the core of a Swift GeoJSON library. An untyped JSON value goes in. Either a strongly-typed geometry or feature comes out, or the single "invalid object" outcome. The format follows RFC 7946: positions (section 3.1.1), linear rings and polygons (section 3.1.6), multi-polygons (section 3.1.7), geometry collections (section 3.1.8) and features (section 3.2).

Modules, leaves first:

- `Wrappers`: the `Option` datatype. `None` is the invalid-object outcome.
- `Json`: the untyped value as an inductive datatype (null, bool, number, string, array, object). It also holds member lookup (`json[key]`, which fails when the value is not an object or lacks the key), the numeric coercion of coordinates, and the fail-closed element-wise decoder `DecodeEach` that every container uses.
- `Points`: `Point.init?(json:)`, the longitude/latitude/altitude accessors, subscript get and set, the encoding, and the `==` operator. `==` is written as the source's index loop with early exit, and it is proved to agree with structural equality.
- `LineStrings`, `Polygons`, `MultiPolygons`: decode, encode and the linear-ring predicate. Their Swift sources are not part of this model, so their behaviour follows the Polygon and MultiPolygon tests:
  - A polygon is a sequence of line strings, and each one must be a linear ring.
  - A linear ring has at least four points, and its first point equals its last under point equality.
  - A multi-polygon is a sequence of valid polygons.
  - An empty sequence is valid for both.
- `MultiPoints`, `MultiLineStrings`: the two remaining coordinate kinds. They are included so that the root union is closed.
- `Root`: the root union (`GeoJson`, one case per kind plus `InvalidObject`), the discriminator dispatch, `GeometryCollection`, `Feature` and `FeatureCollection`. The typed accessors are pattern matches, not dynamic casts. The wrapped encoding of coordinate geometries is here too. GeometryCollection and Feature live in this module because they hold root objects themselves.
- `Scenarios`: the concrete cases the tests pin down, stated as lemmas.

Main properties proved:

- **Decoding fails closed.** Anything that decodes satisfies every structural invariant all the way down: `Root.DecodeValid` and the lemmas beside it. One bad descendant rejects the whole ancestor chain: `Json.DecodeEach`, `Polygons.OpenRingRejects`.
- **Round trip.** `Decode(Encode(x)) == x` holds for every valid coordinate geometry at every level. `Encode(Decode(j)) == j` holds for canonical coordinate arrays of points, line strings, polygons and multi-polygons (arrays of numbers nested to the right depth). No such lemma is stated for wrapped root objects, whose member order and extra members are not kept.
- **One outcome, from one decoder.** The root decoder passes the input to the one decoder its discriminator names, and the matching accessor holds exactly that decoder's result. Every decode populates exactly one typed accessor or is a failure.
- **Field-by-field guards.** The guards of the Feature and GeometryCollection decoders are proved one by one.

Coordinates are exact reals (`Json.Coord`), not IEEE doubles.

Where the code is narrower or looser than RFC 7946, the model follows the code:

- RFC 7946 section 3.1.8 makes every member of a geometry collection a Geometry object. The code only rejects members whose type is Unknown (`GeometryCollection.swift:41-47`). It never asks whether a member is a geometry, so a Feature inside a collection is accepted (`Scenarios.CollectionAcceptsFeature`).
- The GeometryCollection and Feature encoders are stubs that return an empty string. The model therefore defines the wrapped encoding only for the coordinate kinds.

## Model

| member | source | states |
|---|---|---|
| Points.Decode | GeoJSON/Geometry/Point.swift:44-55 | decode succeeds iff the input is an array of at least 2 elements; on success the point is valid, has the same count, and coordinate i is the coerced element i |
| Points.DecodedAccessors | GeoJSON/Geometry/Point.swift:32-41 | on a decoded point, longitude and easting read input element 0, latitude and northing read element 1, and altitude exists exactly when a third element does and reads it |
| Points.Point.Count | GeoJSON/Geometry/Point.swift:61 | `count` is the number of coordinates; a point is valid iff it has at least two |
| Points.Point.At | GeoJSON/Geometry/Point.swift:64 | subscript get reads one of the coordinates, and writing it back at its index rebuilds the same point; the requires stands for Swift's out-of-range trap |
| Points.Point.Replace | GeoJSON/Geometry/Point.swift:63-66 | subscript set: the count is unchanged, the given index holds the new value, and every other coordinate is unchanged |
| Points.ReplaceKeepsValid | GeoJSON/Geometry/Point.swift:63-66 | a coordinate update keeps a point valid, and writing back the old value restores the original point |
| Points.Equals | GeoJSON/Geometry/Point.swift:69-80 | the count check plus the index loop with early false returns true iff the two points are structurally equal; different counts (2D vs 3D) are never equal |
| Points.Encode | GeoJSONTests/Geometry/PolygonTests.swift:102-110 | a point encodes to an array of numbers with the same length and order as its coordinates |
| Points.DecodeEncode | GeoJSONTests/Geometry/PolygonTests.swift:102-110 | decoding the encoding of a valid point gives the same point |
| Points.EncodeDecode | GeoJSONTests/Geometry/MultiPolygonTests.swift:126-134 | an array of at least two numbers is reproduced exactly by decoding then encoding |
| Root.GeoJson.AsPoint | GeoJSON/Geometry/Point.swift:85-92 | the point accessor has a payload iff the type is Point, and that payload is the object's point |
| Json.MemberIndex | GeoJSON/Feature.swift:46-50 | finds the first member with the key, or reports that no member has it |
| Json.Lookup | GeoJSON/Feature.swift:46-50 | member lookup succeeds iff the value is an object with a member of that name; the value found is that member's and is structurally smaller |
| Json.DecodeEach | GeoJSONTests/Geometry/MultiPolygonTests.swift:176-186 | element-wise decode succeeds iff every element decodes; on success the length is the same and element i is the decode of input i |
| Json.EncodeEach | GeoJSONTests/Geometry/PolygonTests.swift:102-110 | element-wise encode gives an array of the same length, element i being the encoding of element i |
| Json.DecodeEachEncodeEach | GeoJSONTests/Geometry/MultiPolygonTests.swift:126-134 | element round trips lift to sequences: decoding the encoded sequence gives it back |
| LineStrings.Decode | GeoJSONTests/Geometry/PolygonTests.swift:164-174 | a line string decodes iff the input is an array whose every element decodes as a point; points are kept in order |
| LineStrings.Encode | GeoJSONTests/Geometry/PolygonTests.swift:102-110 | a line string encodes to its points' encodings, in order |
| LineStrings.DecodeEncode | GeoJSONTests/Geometry/PolygonTests.swift:102-110 | decoding the encoding of a valid line string gives it back |
| LineStrings.EncodeDecode | GeoJSONTests/Geometry/PolygonTests.swift:83-99 | canonical ring input is reproduced by decoding then encoding |
| LineStrings.LineString.IsLinearRing | GeoJSONTests/Geometry/PolygonTests.swift:152-162 | a line string is a linear ring iff it has at least four points and its first and last points have the same count and agree coordinate by coordinate |
| Points.SameCoordinates | GeoJSON/Geometry/Point.swift:69-80 | two points are equal iff their counts agree and their coordinates agree index by index |
| LineStrings.NotLinearRing | GeoJSONTests/Geometry/PolygonTests.swift:152-162 | fewer than four points, or a first point unlike the last, is never a linear ring |
| Polygons.DecodeRing | GeoJSONTests/Geometry/PolygonTests.swift:152-162 | a ring decodes iff it decodes as a line string that is a linear ring |
| Polygons.Make | GeoJSONTests/Geometry/PolygonTests.swift:112-120 | the polygon constructor succeeds iff every ring is a linear ring, and keeps the rings as given (so the empty polygon succeeds) |
| Polygons.Decode | GeoJSONTests/Geometry/PolygonTests.swift:83-99 | a polygon decodes iff the input is an array whose every element is a linear ring; on success it is valid, has one ring per element, and keeps the order |
| Polygons.Encode | GeoJSONTests/Geometry/PolygonTests.swift:102-110 | a polygon encodes to its rings' encodings in construction order |
| Polygons.DecodeEncode | GeoJSONTests/Geometry/PolygonTests.swift:102-110 | decoding the encoding of a valid polygon gives it back |
| Polygons.EncodeDecode | GeoJSONTests/Geometry/PolygonTests.swift:83-99 | canonical polygon input is reproduced by decoding then encoding |
| Polygons.DecodeAgreesWithMake | GeoJSONTests/Geometry/PolygonTests.swift:39-53 | a decoded polygon is exactly what the polygon constructor builds from its rings |
| Polygons.OpenRingRejects | GeoJSONTests/Geometry/PolygonTests.swift:152-162 | a ring that is a line string but not a linear ring rejects the whole polygon rather than being dropped |
| MultiPolygons.Decode | GeoJSONTests/Geometry/MultiPolygonTests.swift:176-198 | a multi-polygon decodes iff the input is an array whose every element decodes as a polygon; on success it is valid and keeps count and order |
| MultiPolygons.Encode | GeoJSONTests/Geometry/MultiPolygonTests.swift:126-144 | a multi-polygon encodes to its polygons' encodings, in order |
| MultiPolygons.DecodeEncode | GeoJSONTests/Geometry/MultiPolygonTests.swift:36-55 | decoding the encoding of a valid multi-polygon gives it back |
| MultiPolygons.EncodeDecode | GeoJSONTests/Geometry/MultiPolygonTests.swift:126-134 | canonical input is reproduced by decoding then encoding; polygon count and rings per polygon are kept |
| Root.TypeNamed | GeoJSONTests/Geometry/PolygonTests.swift:65-67 | a discriminator text maps to the type with that name, and to Unknown iff no type has that name |
| Root.DecodeCoordinates | GeoJSONTests/Geometry/PolygonTests.swift:140-150 | the accessor of the requested kind holds exactly that kind's decoder applied to `coordinates`, and every other accessor is empty; a missing `coordinates` member gives an error; a success has the requested type |
| Root.Decode | GeoJSONTests/Geometry/PolygonTests.swift:65-71 | a success has exactly the type the discriminator names; an unknown or missing discriminator gives an error; for each kind, the accessor of that kind holds the result of that kind's decoder (on `coordinates`, on the `geometries` or `features` member, or on the whole object for a feature) when the discriminator names it, and is empty otherwise |
| Root.GeoJson.IsGeometry | GeoJSONTests/Geometry/PolygonTests.swift:69-71 | an object is a geometry iff one of the seven geometry accessors holds a payload; a geometry is never a failure |
| Root.DecodeValid | GeoJSON/Feature.swift:52-58 | whatever decodes satisfies every structural invariant all the way down |
| Root.GeometryCollectionValid | GeoJSON/Geometry/GeometryCollection.swift:41-47 | a decoded geometry collection has only members that decoded, each valid |
| Root.FeatureValid | GeoJSON/Feature.swift:52-58 | a decoded feature has no geometry, or a valid object of a geometry kind |
| Root.DecodeGeometryCollection | GeoJSON/Geometry/GeometryCollection.swift:35-51 | a collection decodes iff the input is an array and no element's root decode has type Unknown; member i is the root decode of element i, same count and order; an empty array is a valid empty collection |
| Root.GeoJson.AsGeometryCollection | GeoJSON/Geometry/GeometryCollection.swift:70-78 | the collection accessor has a payload iff the type is GeometryCollection |
| Root.GeometryCollection.Count | GeoJSON/Geometry/GeometryCollection.swift:59 | `count` is the number of members; an empty collection is valid |
| Root.GeometryCollection.At | GeoJSON/Geometry/GeometryCollection.swift:62 | subscript get reads a member, valid whenever the collection is, and writing it back rebuilds the collection; the requires stands for Swift's out-of-range trap |
| Root.GeometryCollection.Replace | GeoJSON/Geometry/GeometryCollection.swift:61-64 | subscript set replaces only the given member and keeps the count |
| Root.ReplaceDoesNotRevalidate | GeoJSON/Geometry/GeometryCollection.swift:61-64 | subscript set does not revalidate: an invalid member can be put into a valid collection |
| Root.DecodeFeature | GeoJSON/Feature.swift:44-62 | missing properties or a missing geometry fails; a null geometry gives a feature without geometry; otherwise the geometry must decode without error and be a geometry kind; properties are kept verbatim and the identifier is the string id |
| Root.Identifier | GeoJSON/Feature.swift:60-61 | the identifier is set iff `id` is present and a string, and is then that string verbatim |
| Root.GeoJson.AsFeature | GeoJSON/Feature.swift:70-78 | the feature accessor has a payload iff the type is Feature |
| Root.GeoJson.AsPolygon | GeoJSONTests/Geometry/PolygonTests.swift:73-81 | the polygon accessor has a payload iff the type is Polygon |
| Root.GeoJson.AsMultiPolygon | GeoJSONTests/Geometry/MultiPolygonTests.swift:75-84 | the multi-polygon accessor has a payload iff the type is MultiPolygon |
| Root.Encode | GeoJSONTests/Geometry/PolygonTests.swift:126-136 | the wrapped encoding has a `type` member naming the kind, and the payload's encoding under the kind's prefix |
| Root.DecodeEncode | GeoJSONTests/Geometry/MultiPolygonTests.swift:150-160 | decoding the wrapped encoding of a valid coordinate geometry gives it back, and re-encoding is idempotent |
| Root.DecodeOutcomeExclusive | GeoJSON/Geometry/Point.swift:85-92 | every decode populates exactly one typed accessor, or none when it failed; a geometry is never a failure, a feature or a feature collection |
| Scenarios.RingDecodes | GeoJSONTests/Geometry/PolygonTests.swift:39-51 | the fixture rings decode point by point and are linear rings |
| Scenarios.RingEncodes | GeoJSONTests/Geometry/PolygonTests.swift:102-110 | the fixture rings encode to the literal position arrays |
| Scenarios.BasicPolygonDecodes | GeoJSONTests/Geometry/PolygonTests.swift:83-99 | the single-ring fixture decodes to a Polygon geometry with one linear ring whose coordinates are kept |
| Scenarios.EmptyPolygon | GeoJSONTests/Geometry/PolygonTests.swift:112-120 | empty coordinates decode to a polygon of zero rings, and the empty polygon is constructed and encodes to an empty array |
| Scenarios.OpenRingIsNoLinearRing | GeoJSONTests/Geometry/PolygonTests.swift:152-162 | the unclosed four-point ring decodes as a line string but is not a linear ring |
| Scenarios.OpenRingPolygonFails | GeoJSONTests/Geometry/PolygonTests.swift:152-162 | a polygon with the unclosed ring is an invalid object |
| Scenarios.TypedPolygon | GeoJSONTests/Geometry/PolygonTests.swift:152-162 | a `Polygon`-typed object's polygon accessor holds exactly what its coordinates decode to, and the object is invalid exactly when they do not decode |
| Scenarios.PolygonWithoutCoordinatesFails | GeoJSONTests/Geometry/PolygonTests.swift:140-150 | a polygon without coordinates is an invalid object |
| Scenarios.IllFormedPolygonFails | GeoJSONTests/Geometry/PolygonTests.swift:164-174 | coordinates whose elements are not rings give an invalid object |
| Scenarios.TwoRingPolygonEncodes | GeoJSONTests/Geometry/PolygonTests.swift:122-136 | the two-ring polygon encodes to its rings in order, its prefix is `coordinates`, and the wrapped encoding carries type Polygon |
| Scenarios.SingleRingPolygonDecodes | GeoJSONTests/Geometry/MultiPolygonTests.swift:52-53 | a one-ring array decodes to the polygon of that ring, and the polygon constructor builds that same polygon from the ring |
| Scenarios.BasicMultiPolygonDecodes | GeoJSONTests/Geometry/MultiPolygonTests.swift:86-110 | the two-polygon fixture decodes to a MultiPolygon geometry of two polygons with coordinates kept |
| Scenarios.BasicMultiPolygonEncodes | GeoJSONTests/Geometry/MultiPolygonTests.swift:126-160 | the multi-polygon built from the fixture rings encodes back to the fixture's coordinates, its prefix is `coordinates`, and the wrapped form carries type MultiPolygon |
| Scenarios.NonhomogeneousMultiPolygonDecodes | GeoJSONTests/Geometry/MultiPolygonTests.swift:112-123 | through the root object's multi-polygon accessor, two polygons come out and their ring counts are kept: two, then one |
| Scenarios.TypedMultiPolygon | GeoJSONTests/Geometry/MultiPolygonTests.swift:114-119 | a `MultiPolygon`-typed object's multi-polygon accessor holds exactly what its coordinates decode to |
| Scenarios.EmptyMultiPolygon | GeoJSONTests/Geometry/MultiPolygonTests.swift:75-84 | empty coordinates decode to zero polygons, and the empty multi-polygon encodes to an empty array |
| Scenarios.MultiPolygonWithoutCoordinatesFails | GeoJSONTests/Geometry/MultiPolygonTests.swift:164-174 | a multi-polygon without coordinates is an invalid object |
| Scenarios.InvalidInnerPolygonFails | GeoJSONTests/Geometry/MultiPolygonTests.swift:176-186 | an inner polygon whose ring is a single position makes the whole multi-polygon an invalid object |
| Scenarios.IllFormedMultiPolygonFails | GeoJSONTests/Geometry/MultiPolygonTests.swift:188-198 | coordinates mixing a position and an object give an invalid object |
| Scenarios.NullGeometryFeature | GeoJSON/Feature.swift:52-53 | a feature with a null geometry and empty properties decodes, with no geometry and no identifier |
| Scenarios.CollectionAcceptsFeature | GeoJSON/Geometry/GeometryCollection.swift:41-43 | a collection whose member is a Feature is accepted: member kinds are not checked |
| Scenarios.CollectionRejectsUnknown | GeoJSON/Geometry/GeometryCollection.swift:41-47 | a member of unknown type rejects the whole collection |
| Scenarios.CollectionRejectsFailedMember | GeoJSON/Geometry/GeometryCollection.swift:41-47 | a member that names a known type but fails to decode (a polygon without coordinates) rejects the whole collection |
| Scenarios.EmptyCollection | GeoJSON/Geometry/GeometryCollection.swift:35-47 | an empty array is a valid collection of count 0 |

## Left out

- Parsing JSON text and rendering it (including writing `0.0` as `0`) belong to the JSON library. Encodings are compared as JSON values, not as text.
- IEEE double semantics (rounding, NaN, the tests' equality tolerances) are not modelled. Coordinates are exact reals.
- Json.DoubleValue: the JSON library's coercion of a non-numeric coordinate element (booleans, numeric strings) is not modelled. Such elements read as 0 here. Every statement here about non-numeric elements (through `Points.Decode` and `Points.DecodedAccessors`) concerns this stand-in only. For example, a numeric string such as `"1.5"` reads as 0 here, where the library would parse it.
- Json.Lookup: when an object has the same key twice, lookup takes the first member. Which one the JSON library keeps is not modelled.
- The GeometryCollection and Feature encoders (`prefix`/`json()`) are stubs returning an empty string (`GeometryCollection.swift:52-53`, `Feature.swift:63-64`). Root.Encode is therefore defined only for the coordinate kinds.
- The setters of the `geometryCollection` and `feature` accessors depend on internals of the root type, which is not part of this model.
- Points.Point.Replace: subscript set is modelled on values. It returns the updated point instead of updating a shared reference-type object in place. Aliasing (one point object stored in several rings, changing everywhere at once) is therefore not captured. The decoded tree is a value, so that decode/encode round trips can be stated as structural equality.
- Root.GeometryCollection.Replace: the same holds for the collection's subscript set. It is modelled on values, without in-place update or aliasing.
- Root.DecodeFeature: the public mutable `identifier` of a constructed feature (plain assignment after decoding) is not modelled. Only the value decoding gives it is.
- A failed decode is modelled as `InvalidObject`: its type is Unknown and its error is set, so "type is Unknown" and "has an error" coincide. The root type's own file is not part of this model, so this is a modelling choice. It agrees with the accessor setters, which assign only the stored object and never a separate type or error (`GeometryCollection.swift:79-81`, `Feature.swift:79-81`). Its consequence is for the geometry collection decoder: a member that names a known type but fails to decode, such as `{"type": "Polygon"}`, counts as Unknown and rejects the collection (`Scenarios.CollectionRejectsFailedMember`). If the root type kept the declared type on failure, such a member would be accepted.
- The root object's record of the discriminator text it actually saw, and the error's domain and code, are not modelled. The error is the single `InvalidObject` outcome.
- The Swift sources of LineString, Polygon, MultiPolygon, MultiPoint, MultiLineString, FeatureCollection and the root GeoJSON type are not part of this model. The first three follow their tests. The `Point(coordinates:)` and `MultiPolygon(polygons:)` initialisers are modelled as the datatype constructors. MultiPoint, MultiLineString and FeatureCollection decode their arrays element by element and fail as a whole. FeatureCollection sends each element through the Feature decoder.
- Recursion depth and resource exhaustion on deeply nested input are outside the model.
