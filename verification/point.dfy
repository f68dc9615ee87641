/**
 * Point: a position (RFC 7946 section 3.1.1), a coordinate sequence of length
 * at least 2: index 0 is longitude/easting, 1 is latitude/northing and the
 * optional index 2 is altitude.
 */
module Points {
  import opened Wrappers
  import opened Json

  datatype Point = Point(coordinates: seq<Coord>) {

    /** Every point the decoder builds, and every coordinate update of one, has at least two coordinates. */
    predicate Valid()
    {
      |coordinates| >= 2
    }

    /** `count`: the number of coordinates; a point is valid exactly when it has at least two. */
    function Count(): (n: nat)
      ensures Valid() <==> n >= 2
      ensures n == 0 <==> coordinates == []
    {
      |coordinates|
    }

    /**
     * Subscript get (the requires stands for Swift's out-of-range trap): one
     * of the coordinates, and putting it back at its index rebuilds the point.
     */
    function At(index: nat): (r: Coord)
      requires index < Count()
      ensures r in coordinates
      ensures Point(coordinates[..index] + [r] + coordinates[index + 1..]) == this
    {
      assert coordinates == coordinates[..index] + [coordinates[index]] + coordinates[index + 1..];
      coordinates[index]
    }

    function Longitude(): Coord
      requires Valid()
    {
      coordinates[0]
    }

    function Easting(): Coord
      requires Valid()
    {
      coordinates[0]
    }

    function Latitude(): Coord
      requires Valid()
    {
      coordinates[1]
    }

    function Northing(): Coord
      requires Valid()
    {
      coordinates[1]
    }

    /** Only a point with a third coordinate has an altitude. */
    function Altitude(): Coord
      requires Count() >= 3
    {
      coordinates[2]
    }

    /**
     * Subscript set: the coordinate at `index` becomes `value`; the count and
     * every other coordinate stay as they were.
     */
    function Replace(index: nat, value: Coord): (p: Point)
      requires index < Count()
      ensures p.Count() == Count()
      ensures p.At(index) == value
      ensures forall k :: 0 <= k < Count() && k != index ==> p.At(k) == At(k)
    {
      Point(coordinates[index := value])
    }
  }

  /**
   * `Point.init?(json:)`: the value must be an array of at least two
   * elements; each element is coerced to a coordinate, in order.
   */
  function Decode(json: Json): (r: Option<Point>)
    ensures r.Some? <==> json.JArray? && |json.items| >= 2
    ensures r.Some? ==> r.value.Valid() && r.value.Count() == |json.items|
    ensures r.Some? ==> forall i :: 0 <= i < |json.items| ==> r.value.At(i) == DoubleValue(json.items[i])
  {
    match json
    case JArray(items) =>
      if |items| < 2 then None
      else Some(Point(seq(|items|, i requires 0 <= i < |items| => DoubleValue(items[i]))))
    case _ => None
  }

  /** The encoding: the coordinates as an array of numbers, in order and with the same length. */
  function Encode(p: Point): (json: Json)
    ensures json.JArray? && |json.items| == p.Count() && NestedNumbers(json, 1)
    ensures forall i :: 0 <= i < p.Count() ==> json.items[i] == JNumber(p.At(i))
  {
    JArray(seq(|p.coordinates|, i requires 0 <= i < |p.coordinates| => JNumber(p.coordinates[i])))
  }

  /** Decoding an encoded valid point gives the point back. */
  lemma DecodeEncode(p: Point)
    requires p.Valid()
    ensures Decode(Encode(p)) == Some(p)
  {
    var q := Decode(Encode(p)).value;
    assert q.coordinates == p.coordinates by {
      forall i | 0 <= i < p.Count() ensures q.At(i) == p.At(i) {
        assert Encode(p).items[i] == JNumber(p.At(i));
      }
    }
  }

  /** A canonical input (an array of at least two numbers) is reproduced by decoding then encoding it. */
  lemma EncodeDecode(json: Json)
    requires Decode(json).Some? && NestedNumbers(json, 1)
    ensures Encode(Decode(json).value) == json
  {
    var e := Encode(Decode(json).value);
    assert e.items == json.items by {
      forall i | 0 <= i < |json.items| ensures e.items[i] == json.items[i] {
        assert NestedNumbers(json.items[i], 0);
      }
    }
  }

  /**
   * The named accessors of a decoded point read the input's positions:
   * longitude and easting element 0, latitude and northing element 1, and
   * altitude element 2 exactly when the input had a third element.
   */
  lemma DecodedAccessors(json: Json, p: Point)
    requires Decode(json) == Some(p)
    ensures p.Longitude() == p.Easting() == DoubleValue(json.items[0])
    ensures p.Latitude() == p.Northing() == DoubleValue(json.items[1])
    ensures p.Count() >= 3 <==> |json.items| >= 3
    ensures p.Count() >= 3 ==> p.Altitude() == DoubleValue(json.items[2])
  {
  }

  /** A coordinate update keeps a valid point valid: it never changes the count. */
  lemma ReplaceKeepsValid(p: Point, index: nat, value: Coord)
    requires p.Valid() && index < p.Count()
    ensures p.Replace(index, value).Valid()
    ensures p.Replace(index, value).Replace(index, p.At(index)) == p
  {
  }

  /** Two points are equal exactly when their counts agree and their coordinates agree index by index. */
  lemma SameCoordinates(p: Point, q: Point)
    ensures p == q <==> p.Count() == q.Count() && forall i :: 0 <= i < p.Count() ==> p.At(i) == q.At(i)
  {
    if p.Count() == q.Count() && forall i :: 0 <= i < p.Count() ==> p.At(i) == q.At(i) {
      forall i | 0 <= i < p.Count() ensures p.coordinates[i] == q.coordinates[i] {
        assert p.At(i) == q.At(i);
      }
      assert p.coordinates == q.coordinates;
    }
  }

  /**
   * The `==` operator on points: different counts are never equal, otherwise
   * the coordinates are compared index by index and the first difference
   * answers false. It agrees with structural equality of the points.
   */
  method Equals(lhs: Point, rhs: Point) returns (equal: bool)
    ensures equal <==> lhs == rhs
    ensures lhs.Count() != rhs.Count() ==> !equal
  {
    if lhs.Count() != rhs.Count() {
      return false;
    }
    for index := 0 to lhs.Count()
      invariant lhs.coordinates[..index] == rhs.coordinates[..index]
    {
      if lhs.At(index) != rhs.At(index) {
        return false;
      }
    }
    assert lhs.coordinates == lhs.coordinates[..lhs.Count()];
    return true;
  }
}
