/** GeoJSON as the field-delineation service returns it: WGS84 positions,
    polygon and multipolygon geometries, features, and the closed longitude /
    latitude rectangle used both for bounding-box queries and for Leaflet's
    `LatLngBounds`. Coordinates are only compared, so they are `real`. */
module Geo {
  import opened Common

  datatype Position = Position(lng: real, lat: real)

  type Ring = seq<Position>

  /** `Polygon.coordinates` is a list of rings (outer ring first);
      `MultiPolygon.coordinates` is a list of polygons; any other geometry
      type (`Point`, `LineString`, ...) only contributes its type name here. */
  datatype Geometry =
    | Polygon(rings: seq<Ring>)
    | MultiPolygon(polygons: seq<seq<Ring>>)
    | OtherGeometry(kind: string)

  /** A GeoJSON feature: `properties.id` (missing or not) and `geometry`
      (which GeoJSON allows to be `null`). */
  datatype Feature = Feature(id: Option<string>, geometry: Option<Geometry>)

  /** `[minLong, minLat, maxLong, maxLat]`, as the bbox query and the
      component's `lastBbox` store it. */
  datatype Bbox = Bbox(minLong: real, minLat: real, maxLong: real, maxLat: real)

  /** The closed-rectangle test used by the inclusive filter and by
      `LatLngBounds.contains` on a point. */
  predicate Inside(p: Position, b: Bbox)
  {
    b.minLong <= p.lng <= b.maxLong && b.minLat <= p.lat <= b.maxLat
  }

  /** The `features` member of a FeatureCollection reply, as the components
      test it: missing (or a `null` body), present but not an array, or a list. */
  datatype FeaturesField = Missing | NotAList | FeatureList(items: seq<Feature>)

  /** `!data || !data.features || !Array.isArray(data.features) || data.features.length === 0` */
  predicate NoFeatures(ff: FeaturesField)
  {
    !ff.FeatureList? || |ff.items| == 0
  }

  // ---------------------------------------------------------------------------
  // Bounds of a drawn layer: the smallest rectangle holding all its positions.

  function Concat<T>(xss: seq<seq<T>>): (r: seq<T>)
    ensures |xss| == 0 ==> r == []
  {
    if |xss| == 0 then [] else xss[0] + Concat(xss[1..])
  }

  /** Every position of a geometry, holes included, in document order. */
  function Positions(g: Geometry): seq<Position>
  {
    match g
    case Polygon(rings) => Concat(rings)
    case MultiPolygon(polygons) => Concat(seq(|polygons|, i requires 0 <= i < |polygons| => Concat(polygons[i])))
    case OtherGeometry(_) => []
  }

  function Min(a: real, b: real): real { if a <= b then a else b }
  function Max(a: real, b: real): real { if a <= b then b else a }

  /** Grows a rectangle so that it also holds `p` (Leaflet's `LatLngBounds.extend`). */
  function Extend(b: Bbox, p: Position): (r: Bbox)
    ensures Inside(p, r)
    ensures forall q :: Inside(q, b) ==> Inside(q, r)
  {
    Bbox(Min(b.minLong, p.lng), Min(b.minLat, p.lat), Max(b.maxLong, p.lng), Max(b.maxLat, p.lat))
  }

  /** The envelope of a list of positions; none for an empty list. */
  function Envelope(ps: seq<Position>): (r: Option<Bbox>)
    ensures r.Some? <==> |ps| > 0
    ensures r.Some? ==> forall i :: 0 <= i < |ps| ==> Inside(ps[i], r.value)
    ensures r.Some? ==> exists i :: 0 <= i < |ps| && ps[i].lng == r.value.minLong
    ensures r.Some? ==> exists i :: 0 <= i < |ps| && ps[i].lat == r.value.minLat
    ensures r.Some? ==> exists i :: 0 <= i < |ps| && ps[i].lng == r.value.maxLong
    ensures r.Some? ==> exists i :: 0 <= i < |ps| && ps[i].lat == r.value.maxLat
    decreases |ps|
  {
    if |ps| == 0 then None
    else if |ps| == 1 then Some(Bbox(ps[0].lng, ps[0].lat, ps[0].lng, ps[0].lat))
    else
      var rest := Envelope(ps[1..]);
      assert forall i :: 1 <= i < |ps| ==> ps[i] == ps[1..][i - 1];
      Some(Extend(rest.value, ps[0]))
  }
}
