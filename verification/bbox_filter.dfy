/** The field filter of the bounding-box view: in `exclusive` mode every
    fetched feature is drawn; in `inclusive` mode a feature is kept when every
    element of its probe list passes the closed-box comparison.

    The probe list is what the code destructures as `[lng, lat]`:
    - for a `Polygon` it is the outer ring `coordinates[0]`, a list of positions;
    - for a `MultiPolygon` it is `coordinates.flat(1)`, which is a list of
      RINGS, not positions;
    - for any other geometry it is the empty list.
    Destructuring a ring as `[lng, lat]` yields two arrays (or `undefined`), and
    every relational comparison of those with a number is false, so a ring
    never passes. */
module BboxFilter {
  import opened Common
  import opened Geo

  datatype Mode = Exclusive | Inclusive

  /** One element of the list the `every` callback is applied to. */
  datatype Probe = PositionProbe(position: Position) | RingProbe(ring: Ring)

  /** The callback of `coords.every`: only a genuine position can pass. */
  predicate ProbeInside(pr: Probe, b: Bbox)
  {
    match pr
    case PositionProbe(p) => Inside(p, b)
    case RingProbe(_) => false
  }

  /** `coordinates.flat(1)` of a MultiPolygon: exactly the rings of its
      polygons, the first polygon's rings leading in their own order. */
  function FlatRings(polygons: seq<seq<Ring>>): (r: seq<Ring>)
    ensures forall rg :: rg in r <==> exists i :: 0 <= i < |polygons| && rg in polygons[i]
    ensures |polygons| > 0 ==> |polygons[0]| <= |r| && r[..|polygons[0]|] == polygons[0]
    decreases |polygons|
  {
    if |polygons| == 0 then [] else polygons[0] + FlatRings(polygons[1..])
  }

  /** The rings of a MultiPolygon are flattened away only when no polygon has one. */
  lemma {:induction false} FlatRingsEmpty(polygons: seq<seq<Ring>>)
    ensures |FlatRings(polygons)| == 0 <==> forall i :: 0 <= i < |polygons| ==> |polygons[i]| == 0
    decreases |polygons|
  {
    if |polygons| > 0 {
      FlatRingsEmpty(polygons[1..]);
      assert forall i :: 1 <= i < |polygons| ==> polygons[i] == polygons[1..][i - 1];
    }
  }

  /** The list `coords` the filter walks. A Polygon without rings has no
      `coordinates[0]`, and calling `every` on `undefined` throws a TypeError. */
  function Probes(g: Geometry): (r: Result<seq<Probe>>)
    ensures r.Err? <==> g.Polygon? && |g.rings| == 0
    ensures g.Polygon? && r.Ok? ==>
              |r.value| == |g.rings[0]| && forall i :: 0 <= i < |r.value| ==> r.value[i] == PositionProbe(g.rings[0][i])
    ensures g.MultiPolygon? ==>
              |r.value| == |FlatRings(g.polygons)|
              && forall i :: 0 <= i < |r.value| ==> r.value[i] == RingProbe(FlatRings(g.polygons)[i])
    ensures g.OtherGeometry? ==> r == Ok([])
  {
    match g
    case Polygon(rings) =>
      if |rings| == 0 then Err("TypeError")
      else Ok(seq(|rings[0]|, i requires 0 <= i < |rings[0]| => PositionProbe(rings[0][i])))
    case MultiPolygon(polygons) =>
      var rings := FlatRings(polygons);
      Ok(seq(|rings|, i requires 0 <= i < |rings| => RingProbe(rings[i])))
    case OtherGeometry(_) => Ok([])
  }

  /** The filter callback for one feature. A feature whose `geometry` is `null`
      throws on `feature.geometry.type`. */
  function Keep(f: Feature, b: Bbox): (r: Result<bool>)
    ensures r.Err? <==> f.geometry.None? || (f.geometry.value.Polygon? && |f.geometry.value.rings| == 0)
    ensures r.Ok? && f.geometry.value.Polygon? ==>
              (r.value <==> forall j :: 0 <= j < |f.geometry.value.rings[0]| ==> Inside(f.geometry.value.rings[0][j], b))
    ensures r.Ok? && f.geometry.value.MultiPolygon? ==> (r.value <==> |FlatRings(f.geometry.value.polygons)| == 0)
  {
    if f.geometry.None? then Err("TypeError")
    else
      match Probes(f.geometry.value)
      case Err(m) => Err(m)
      case Ok(probes) =>
        assert f.geometry.value.MultiPolygon? && |probes| > 0 ==> !ProbeInside(probes[0], b);
        Ok(forall i :: 0 <= i < |probes| ==> ProbeInside(probes[i], b))
  }

  /** A Polygon is kept exactly when every position of its outer ring lies in
      the closed box; its inner rings play no part. */
  lemma PolygonKeptIffOuterRingInside(id: Option<string>, rings: seq<Ring>, b: Bbox)
    requires |rings| > 0
    ensures Keep(Feature(id, Some(Polygon(rings))), b)
            == Ok(forall j :: 0 <= j < |rings[0]| ==> Inside(rings[0][j], b))
  {
    var probes := Probes(Polygon(rings)).value;
    assert forall j :: 0 <= j < |rings[0]| ==> probes[j] == PositionProbe(rings[0][j]);
  }

  /** A MultiPolygon is kept exactly when none of its polygons has a ring,
      wherever its vertices lie. */
  lemma MultiPolygonKeptIffNoRings(id: Option<string>, polygons: seq<seq<Ring>>, b: Bbox)
    ensures Keep(Feature(id, Some(MultiPolygon(polygons))), b)
            == Ok(forall i :: 0 <= i < |polygons| ==> |polygons[i]| == 0)
  {
    FlatRingsEmpty(polygons);
    var probes := Probes(MultiPolygon(polygons)).value;
    if |probes| > 0 {
      assert !ProbeInside(probes[0], b);
    }
  }

  /** A geometry that is neither a Polygon nor a MultiPolygon is always kept. */
  lemma OtherGeometryAlwaysKept(id: Option<string>, kind: string, b: Bbox)
    ensures Keep(Feature(id, Some(OtherGeometry(kind))), b) == Ok(true)
  {
  }

  /** A MultiPolygon lying wholly inside the box is still excluded. */
  lemma InsideMultiPolygonExcluded()
    ensures Keep(Feature(None, Some(MultiPolygon([[[Position(1.0, 1.0)]]]))), Bbox(0.0, 0.0, 2.0, 2.0))
            == Ok(false)
  {
    var polygons: seq<seq<Ring>> := [[[Position(1.0, 1.0)]]];
    MultiPolygonKeptIffNoRings(None, polygons, Bbox(0.0, 0.0, 2.0, 2.0));
    assert |polygons[0]| != 0;
  }

  // ---------------------------------------------------------------------------
  // The filter over the whole list.

  /** `xs` is `ys` with some elements dropped, order kept. */
  ghost predicate Subsequence<T>(xs: seq<T>, ys: seq<T>)
    decreases |ys|
  {
    if |xs| == 0 then true
    else if |ys| == 0 then false
    else (xs[0] == ys[0] && Subsequence(xs[1..], ys[1..])) || Subsequence(xs, ys[1..])
  }

  lemma {:induction false} SubsequenceReflexive<T>(xs: seq<T>)
    ensures Subsequence(xs, xs)
    decreases |xs|
  {
    if |xs| > 0 {
      SubsequenceReflexive(xs[1..]);
    }
  }

  /** No callback throws on any feature. */
  ghost predicate AllDecided(fs: seq<Feature>, b: Bbox)
  {
    forall i :: 0 <= i < |fs| ==> Keep(fs[i], b).Ok?
  }

  /** `features.filter(keep)`: a throwing callback aborts the whole filter. */
  function InclusiveFilter(fs: seq<Feature>, b: Bbox): (r: Result<seq<Feature>>)
    ensures r.Ok? <==> AllDecided(fs, b)
    ensures r.Ok? ==> Subsequence(r.value, fs)
    ensures r.Ok? ==> forall i :: 0 <= i < |r.value| ==> Keep(r.value[i], b) == Ok(true)
    ensures r.Ok? ==> forall f :: multiset(r.value)[f] == if Keep(f, b) == Ok(true) then multiset(fs)[f] else 0
    decreases |fs|
  {
    if |fs| == 0 then Ok([])
    else
      assert fs == [fs[0]] + fs[1..];
      assert forall i :: 1 <= i < |fs| ==> fs[i] == fs[1..][i - 1];
      match Keep(fs[0], b)
      case Err(m) => Err(m)
      case Ok(k) =>
        match InclusiveFilter(fs[1..], b)
        case Err(m) => Err(m)
        case Ok(rest) =>
          if k then
            assert AllDecided(fs, b) by {
              forall i | 0 <= i < |fs| ensures Keep(fs[i], b).Ok? {
                if i > 0 { assert Keep(fs[1..][i - 1], b).Ok?; }
              }
            }
            assert ([fs[0]] + rest)[1..] == rest;
            Ok([fs[0]] + rest)
          else
            assert AllDecided(fs, b) by {
              forall i | 0 <= i < |fs| ensures Keep(fs[i], b).Ok? {
                if i > 0 { assert Keep(fs[1..][i - 1], b).Ok?; }
              }
            }
            Ok(rest)
  }

  /** The list the view draws from the fetched features in the given mode. */
  function Select(mode: Mode, fs: seq<Feature>, b: Bbox): (r: Result<seq<Feature>>)
    ensures mode == Exclusive ==> r == Ok(fs)
    ensures mode == Inclusive ==> r == InclusiveFilter(fs, b)
    ensures mode == Inclusive ==> (r.Ok? <==> AllDecided(fs, b))
    ensures r.Ok? ==> Subsequence(r.value, fs)
    ensures r.Ok? && mode == Inclusive ==> forall i :: 0 <= i < |r.value| ==> Keep(r.value[i], b) == Ok(true)
  {
    if mode == Inclusive then InclusiveFilter(fs, b)
    else
      SubsequenceReflexive(fs);
      Ok(fs)
  }

  /** Inclusive mode draws an order-preserving sub-list of what exclusive mode draws. */
  lemma InclusiveWithinExclusive(fs: seq<Feature>, b: Bbox)
    requires Select(Inclusive, fs, b).Ok?
    ensures Select(Exclusive, fs, b).Ok?
    ensures Subsequence(Select(Inclusive, fs, b).value, Select(Exclusive, fs, b).value)
  {
  }

  /** Every Polygon drawn in inclusive mode has its whole outer ring in the box. */
  lemma InclusiveOuterRingsInside(fs: seq<Feature>, b: Bbox)
    requires Select(Inclusive, fs, b).Ok?
    ensures forall f :: f in Select(Inclusive, fs, b).value && f.geometry.Some? && f.geometry.value.Polygon? ==>
              |f.geometry.value.rings| > 0 &&
              forall j :: 0 <= j < |f.geometry.value.rings[0]| ==> Inside(f.geometry.value.rings[0][j], b)
  {
    var kept := Select(Inclusive, fs, b).value;
    forall f | f in kept && f.geometry.Some? && f.geometry.value.Polygon?
      ensures |f.geometry.value.rings| > 0
      ensures forall j :: 0 <= j < |f.geometry.value.rings[0]| ==> Inside(f.geometry.value.rings[0][j], b)
    {
      var i :| 0 <= i < |kept| && kept[i] == f;
      assert Keep(f, b) == Ok(true);
      PolygonKeptIffOuterRingInside(f.id, f.geometry.value.rings, b);
    }
  }

  /** No MultiPolygon with a ring survives the inclusive filter. */
  lemma InclusiveDropsMultiPolygons(fs: seq<Feature>, b: Bbox)
    requires Select(Inclusive, fs, b).Ok?
    ensures forall f :: f in Select(Inclusive, fs, b).value && f.geometry.Some? && f.geometry.value.MultiPolygon? ==>
              forall i :: 0 <= i < |f.geometry.value.polygons| ==> |f.geometry.value.polygons[i]| == 0
  {
    var kept := Select(Inclusive, fs, b).value;
    forall f | f in kept && f.geometry.Some? && f.geometry.value.MultiPolygon?
      ensures forall i :: 0 <= i < |f.geometry.value.polygons| ==> |f.geometry.value.polygons[i]| == 0
    {
      var i :| 0 <= i < |kept| && kept[i] == f;
      assert Keep(f, b) == Ok(true);
      MultiPolygonKeptIffNoRings(f.id, f.geometry.value.polygons, b);
    }
  }
}
