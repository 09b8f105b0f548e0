/**
 * Polygon geometry as the services hand it to Google Maps: rings of
 * `{lat, lng}` points decoded from GeoJSON (positions are `[lon, lat, ...]`,
 * RFC 7946 section 3.1.1) or from Overpass `out geom` point lists, and the
 * vertex-mean centre of a district.
 */
module Geometry {
  import opened Wrappers

  datatype LatLng = LatLng(lat: real, lng: real)

  /** A GeoJSON position: longitude, latitude, then optional extra values. */
  type Position = seq<real>

  /** One closed-by-convention ring of map points. */
  type Ring = seq<LatLng>

  /** The decoded `geojson` member of a Nominatim candidate, by its `type`:
      Polygon (RFC 7946 section 3.1.6), MultiPolygon (section 3.1.7) or any
      other geometry type. A missing `coordinates` member is an empty list. */
  datatype GeoJson =
    | Polygon(rings: seq<seq<Position>>)
    | MultiPolygon(polygons: seq<seq<seq<Position>>>)
    | OtherGeometry(kind: string)

  // ---------------------------------------------------------------------
  // GeoJSON rings
  // ---------------------------------------------------------------------

  predicate Usable(p: Position)
  {
    |p| >= 2
  }

  /** `{'lat': point[1], 'lng': point[0]}`. */
  function ToLatLng(p: Position): LatLng
    requires Usable(p)
  {
    LatLng(p[1], p[0])
  }

  /** The list comprehension of services.py:198: every usable position of the
      ring, swapped into `{lat, lng}`, in order. */
  function ConvertRing(ring: seq<Position>): (r: Ring)
    ensures |r| <= |ring|
    ensures (forall j :: 0 <= j < |ring| ==> Usable(ring[j])) ==>
              |r| == |ring| && forall j :: 0 <= j < |ring| ==> r[j] == ToLatLng(ring[j])
  {
    if |ring| == 0 then []
    else
      var last := ring[|ring| - 1];
      ConvertRing(ring[..|ring| - 1]) + (if Usable(last) then [ToLatLng(last)] else [])
  }

  /** The indices of the usable positions of a ring, in increasing order. */
  ghost function UsableIndices(ring: seq<Position>): (ix: seq<nat>)
    ensures forall k :: 0 <= k < |ix| ==> ix[k] < |ring| && Usable(ring[ix[k]])
    ensures forall k, l :: 0 <= k < l < |ix| ==> ix[k] < ix[l]
    ensures forall j :: 0 <= j < |ring| && Usable(ring[j]) ==> j in ix
  {
    if |ring| == 0 then []
    else
      var ix := UsableIndices(ring[..|ring| - 1]);
      assert forall k :: 0 <= k < |ix| ==> ring[..|ring| - 1][ix[k]] == ring[ix[k]];
      assert forall j :: 0 <= j < |ring| - 1 ==> ring[..|ring| - 1][j] == ring[j];
      if Usable(ring[|ring| - 1]) then ix + [|ring| - 1] else ix
  }

  /** A decoded ring is exactly the usable positions of the input ring, each
      swapped from `[lon, lat]` to `{lat, lng}`, in their original order. */
  lemma {:induction false} ConvertRingIsUsablePositions(ring: seq<Position>)
    ensures |ConvertRing(ring)| == |UsableIndices(ring)|
    ensures forall k :: 0 <= k < |ConvertRing(ring)| ==>
              ConvertRing(ring)[k] == ToLatLng(ring[UsableIndices(ring)[k]])
  {
    if |ring| > 0 {
      var init := ring[..|ring| - 1];
      ConvertRingIsUsablePositions(init);
      var c, u := ConvertRing(init), UsableIndices(init);
      var c', u' := ConvertRing(ring), UsableIndices(ring);
      assert c' == c + (if Usable(ring[|ring| - 1]) then [ToLatLng(ring[|ring| - 1])] else []);
      assert u' == u + (if Usable(ring[|ring| - 1]) then [|ring| - 1] else []);
      forall k | 0 <= k < |c'|
        ensures c'[k] == ToLatLng(ring[u'[k]])
      {
        if k < |c| {
          assert c'[k] == c[k] && u'[k] == u[k];
          assert init[u[k]] == ring[u[k]];
        }
      }
    }
  }

  /** One ring of a Polygon's coordinate list, kept when it has at least three
      positions and at least three of them are usable. */
  function KeepRing(ring: seq<Position>): (r: seq<Ring>)
    ensures |r| <= 1
    ensures forall k :: 0 <= k < |r| ==> |r[k]| >= 3 && r[k] == ConvertRing(ring)
  {
    if |ring| > 0 && |ring| >= 3 then
      var coords := ConvertRing(ring);
      if |coords| >= 3 then [coords] else []
    else []
  }

  /** The rings of one polygon: services.py:195-200. */
  function PolygonRings(rings: seq<seq<Position>>): (r: seq<Ring>)
    ensures |r| <= |rings|
    ensures forall k :: 0 <= k < |r| ==> |r[k]| >= 3
  {
    if |rings| == 0 then []
    else PolygonRings(rings[..|rings| - 1]) + KeepRing(rings[|rings| - 1])
  }

  /** The rings of every polygon of a MultiPolygon: services.py:203-208. */
  function MultiPolygonRings(polygons: seq<seq<seq<Position>>>): (r: seq<Ring>)
    ensures forall k :: 0 <= k < |r| ==> |r[k]| >= 3
  {
    if |polygons| == 0 then []
    else MultiPolygonRings(polygons[..|polygons| - 1]) + PolygonRings(polygons[|polygons| - 1])
  }

  /** What `_convert_geojson_to_googlemaps` returns for a geometry. */
  function GeoJsonRings(g: GeoJson): (r: seq<Ring>)
    ensures forall k :: 0 <= k < |r| ==> |r[k]| >= 3
    ensures g.OtherGeometry? ==> r == []
  {
    match g
    case Polygon(rings) => PolygonRings(rings)
    case MultiPolygon(polygons) => MultiPolygonRings(polygons)
    case OtherGeometry(_) => []
  }

  /** Every decoded ring is the conversion of one input ring. */
  lemma {:induction false} PolygonRingsProvenance(rings: seq<seq<Position>>, k: nat)
    requires k < |PolygonRings(rings)|
    ensures exists j :: 0 <= j < |rings| && PolygonRings(rings)[k] == ConvertRing(rings[j])
  {
    var init := rings[..|rings| - 1];
    if k < |PolygonRings(init)| {
      PolygonRingsProvenance(init, k);
      var j :| 0 <= j < |init| && PolygonRings(init)[k] == ConvertRing(init[j]);
      assert init[j] == rings[j];
    } else {
      assert PolygonRings(rings)[k] == KeepRing(rings[|rings| - 1])[0];
    }
  }

  /** Decoding polygon rings distributes over concatenation of the ring lists. */
  lemma {:induction false} PolygonRingsAppend(a: seq<seq<Position>>, b: seq<seq<Position>>)
    ensures PolygonRings(a + b) == PolygonRings(a) + PolygonRings(b)
    decreases |b|
  {
    if |b| > 0 {
      var b' := b[..|b| - 1];
      assert (a + b)[..|a + b| - 1] == a + b';
      PolygonRingsAppend(a, b');
    } else {
      assert a + b == a;
    }
  }

  /** A MultiPolygon decodes to the concatenation of its polygons' rings:
      polygon lists concatenate... */
  lemma {:induction false} MultiPolygonAppend(p: seq<seq<seq<Position>>>, q: seq<seq<seq<Position>>>)
    ensures MultiPolygonRings(p + q) == MultiPolygonRings(p) + MultiPolygonRings(q)
    decreases |q|
  {
    if |q| > 0 {
      var q' := q[..|q| - 1];
      assert (p + q)[..|p + q| - 1] == p + q';
      assert (p + q)[|p + q| - 1] == q[|q| - 1];
      MultiPolygonAppend(p, q');
    } else {
      assert p + q == p;
    }
  }

  /** ... and a single polygon decodes to that polygon's rings. */
  lemma MultiPolygonSingle(p: seq<seq<Position>>)
    ensures MultiPolygonRings([p]) == PolygonRings(p)
  {
    assert [p][..0] == [];
  }

  /** Appends the kept rings of one polygon: the ring loop of services.py:195-200
      and its copy at services.py:204-208. */
  lemma PolygonRingsStep(rings: seq<seq<Position>>, i: nat)
    requires i < |rings|
    ensures PolygonRings(rings[..i + 1]) == PolygonRings(rings[..i]) + KeepRing(rings[i])
  {
    assert rings[..i + 1][..i] == rings[..i];
  }

  lemma AppendAssociates(a: seq<Ring>, b: seq<Ring>, c: seq<Ring>)
    ensures a + b + c == a + (b + c)
  {
  }

  method AppendPolygonRings(coords: seq<Ring>, rings: seq<seq<Position>>) returns (coords': seq<Ring>)
    ensures coords' == coords + PolygonRings(rings)
  {
    coords' := coords;
    for i := 0 to |rings|
      invariant coords' == coords + PolygonRings(rings[..i])
    {
      PolygonRingsStep(rings, i);
      var ring := rings[i];
      ghost var before := PolygonRings(rings[..i]);
      if |ring| > 0 && |ring| >= 3 {
        var converted := ConvertRing(ring);
        if |converted| >= 3 {
          assert KeepRing(ring) == [converted];
          AppendAssociates(coords, before, [converted]);
          coords' := coords' + [converted];
        } else {
          assert KeepRing(ring) == [];
          assert before + [] == before;
        }
      } else {
        assert KeepRing(ring) == [];
        assert before + [] == before;
      }
    }
    assert rings[..|rings|] == rings;
  }

  /** `_convert_geojson_to_googlemaps` (services.py:186-215). */
  method ConvertGeoJson(g: GeoJson) returns (coords: seq<Ring>)
    ensures coords == GeoJsonRings(g)
    ensures forall k :: 0 <= k < |coords| ==> |coords[k]| >= 3
  {
    coords := [];
    match g {
      case Polygon(rings) =>
        coords := AppendPolygonRings(coords, rings);
      case MultiPolygon(polygons) =>
        for i := 0 to |polygons|
          invariant coords == MultiPolygonRings(polygons[..i])
        {
          assert polygons[..i + 1][..i] == polygons[..i];
          coords := AppendPolygonRings(coords, polygons[i]);
        }
        assert polygons[..|polygons|] == polygons;
      case OtherGeometry(_) =>
    }
  }

  // ---------------------------------------------------------------------
  // Overpass relation geometry
  // ---------------------------------------------------------------------

  /** The Overpass point list as a ring, or None when a point lacks `lat` or
      `lon` (the KeyError of services.py:287). */
  function PointsToRing(points: seq<map<string, real>>): (r: Option<Ring>)
    ensures r.Some? <==> forall k :: 0 <= k < |points| ==> "lat" in points[k] && "lon" in points[k]
    ensures r.Some? ==> (|r.value| == |points| &&
              forall k :: 0 <= k < |points| ==> r.value[k] == LatLng(points[k]["lat"], points[k]["lon"]))
  {
    if |points| == 0 then Some([])
    else
      var last := points[|points| - 1];
      var init := points[..|points| - 1];
      assert forall k :: 0 <= k < |init| ==> init[k] == points[k];
      match PointsToRing(init)
      case None => None
      case Some(ring) =>
        if "lat" in last && "lon" in last then Some(ring + [LatLng(last["lat"], last["lon"])])
        else None
  }

  /** A point with both coordinate keys. */
  predicate HasLatLon(point: map<string, real>)
  {
    "lat" in point && "lon" in point
  }

  /** `_extract_relation_geometry_for_googlemaps` (services.py:276-291):
      one ring exactly when there are at least 3 points, all with `lat` and
      `lon`; None, the KeyError, exactly when the first point has both keys
      and a later one lacks one; no ring otherwise. */
  function RelationRings(geometry: Option<seq<map<string, real>>>): (r: Option<seq<Ring>>)
    ensures r.Some? ==> |r.value| <= 1
    ensures r.Some? && |r.value| == 1 ==>
              geometry.Some? && var points := geometry.value;
              |points| >= 3 && HasLatLon(points[0]) &&
              PointsToRing(points) == Some(r.value[0])
    ensures geometry.Some? && |geometry.value| >= 3 &&
            (forall k :: 0 <= k < |geometry.value| ==> HasLatLon(geometry.value[k])) ==>
              r == Some([PointsToRing(geometry.value).value])
    ensures r.None? <==>
              geometry.Some? && |geometry.value| > 0 && HasLatLon(geometry.value[0]) &&
              exists k :: 0 < k < |geometry.value| && !HasLatLon(geometry.value[k])
    ensures geometry.None? || |geometry.value| == 0 || !HasLatLon(geometry.value[0]) ==> r == Some([])
    ensures geometry.Some? && |geometry.value| < 3 &&
            (forall k :: 0 <= k < |geometry.value| ==> HasLatLon(geometry.value[k])) ==>
              r == Some([])
  {
    match geometry
    case None => Some([])
    case Some(points) =>
      if |points| > 0 && "lat" in points[0] && "lon" in points[0] then
        match PointsToRing(points)
        case None => None
        case Some(ring) => if |ring| >= 3 then Some([ring]) else Some([])
      else Some([])
  }

  /** The loop of services.py:285-289. */
  method ExtractRelationGeometry(geometry: Option<seq<map<string, real>>>) returns (r: Option<seq<Ring>>)
    ensures r == RelationRings(geometry)
  {
    if geometry.None? || |geometry.value| == 0 {
      return Some([]);
    }
    var points := geometry.value;
    if !("lat" in points[0] && "lon" in points[0]) {
      return Some([]);
    }
    var current: Ring := [];
    for k := 0 to |points|
      invariant PointsToRing(points[..k]) == Some(current)
    {
      assert points[..k + 1][..k] == points[..k];
      if !("lat" in points[k] && "lon" in points[k]) {
        assert PointsToRing(points).None?;
        return None;
      }
      current := current + [LatLng(points[k]["lat"], points[k]["lon"])];
    }
    assert points[..|points|] == points;
    if |current| >= 3 {
      return Some([current]);
    }
    return Some([]);
  }

  // ---------------------------------------------------------------------
  // Centre
  // ---------------------------------------------------------------------

  /** Every vertex of every ring, ring by ring. */
  function AllPoints(rings: seq<Ring>): (ps: seq<LatLng>)
  {
    if |rings| == 0 then [] else AllPoints(rings[..|rings| - 1]) + rings[|rings| - 1]
  }

  function Sum(xs: seq<real>): real
  {
    if |xs| == 0 then 0.0 else Sum(xs[..|xs| - 1]) + xs[|xs| - 1]
  }

  function Lats(ps: seq<LatLng>): (r: seq<real>)
    ensures |r| == |ps| && forall k :: 0 <= k < |ps| ==> r[k] == ps[k].lat
  {
    seq(|ps|, k requires 0 <= k < |ps| => ps[k].lat)
  }

  function Lngs(ps: seq<LatLng>): (r: seq<real>)
    ensures |r| == |ps| && forall k :: 0 <= k < |ps| ==> r[k] == ps[k].lng
  {
    seq(|ps|, k requires 0 <= k < |ps| => ps[k].lng)
  }

  /** The unweighted mean of all vertices, or the sentinel (0.0, 0.0) when
      there is none. */
  function MeanCenter(rings: seq<Ring>): LatLng
  {
    var ps := AllPoints(rings);
    if |ps| == 0 then LatLng(0.0, 0.0)
    else LatLng(Sum(Lats(ps)) / |ps| as real, Sum(Lngs(ps)) / |ps| as real)
  }

  /** `_calculate_polygon_center` (services.py:294-316). The `[lat, lng]` list
      fallback of services.py:307 never applies: every ring here holds
      `{lat, lng}` points. */
  method PolygonCenter(rings: seq<Ring>) returns (c: LatLng)
    ensures c == MeanCenter(rings)
  {
    if |rings| == 0 {
      return LatLng(0.0, 0.0);
    }
    var allLats: seq<real> := [];
    var allLngs: seq<real> := [];
    for i := 0 to |rings|
      invariant allLats == Lats(AllPoints(rings[..i]))
      invariant allLngs == Lngs(AllPoints(rings[..i]))
    {
      assert rings[..i + 1][..i] == rings[..i];
      var polygon := rings[i];
      for j := 0 to |polygon|
        invariant allLats == Lats(AllPoints(rings[..i]) + polygon[..j])
        invariant allLngs == Lngs(AllPoints(rings[..i]) + polygon[..j])
      {
        assert (AllPoints(rings[..i]) + polygon[..j + 1]) == (AllPoints(rings[..i]) + polygon[..j]) + [polygon[j]];
        allLats := allLats + [polygon[j].lat];
        allLngs := allLngs + [polygon[j].lng];
      }
      assert polygon[..|polygon|] == polygon;
    }
    assert rings[..|rings|] == rings;
    if |allLats| > 0 && |allLngs| > 0 {
      return LatLng(Sum(allLats) / |allLats| as real, Sum(allLngs) / |allLngs| as real);
    }
    return LatLng(0.0, 0.0);
  }

  /** A sum of values between `lo` and `hi` lies between n * lo and n * hi. */
  lemma {:induction false} SumBounds(xs: seq<real>, lo: real, hi: real)
    requires forall k :: 0 <= k < |xs| ==> lo <= xs[k] <= hi
    ensures |xs| as real * lo <= Sum(xs) <= |xs| as real * hi
  {
    if |xs| > 0 {
      var init := xs[..|xs| - 1];
      assert forall k :: 0 <= k < |init| ==> init[k] == xs[k];
      SumBounds(init, lo, hi);
    }
  }

  /** The mean lies between the smallest and the largest value. */
  lemma MeanBounds(xs: seq<real>, lo: real, hi: real)
    requires |xs| > 0
    requires forall k :: 0 <= k < |xs| ==> lo <= xs[k] <= hi
    ensures lo <= Sum(xs) / |xs| as real <= hi
  {
    SumBounds(xs, lo, hi);
    var n := |xs| as real;
    assert Sum(xs) / n * n == Sum(xs);
  }

  /** The centre lies inside the latitude/longitude box of the vertices. With
      no vertex at all it is the sentinel (0.0, 0.0). */
  lemma CenterWithinVertices(rings: seq<Ring>, south: real, north: real, west: real, east: real)
    requires forall p :: p in AllPoints(rings) ==> south <= p.lat <= north && west <= p.lng <= east
    ensures AllPoints(rings) == [] ==> MeanCenter(rings) == LatLng(0.0, 0.0)
    ensures AllPoints(rings) != [] ==>
              south <= MeanCenter(rings).lat <= north && west <= MeanCenter(rings).lng <= east
  {
    var ps := AllPoints(rings);
    if |ps| > 0 {
      assert forall k :: 0 <= k < |ps| ==> ps[k] in ps;
      MeanBounds(Lats(ps), south, north);
      MeanBounds(Lngs(ps), west, east);
    }
  }

  /** The square with corners (0,0), (0,2), (2,2), (2,0) has centre (1,1):
      the baseline `RepeatedVertexMovesCenter` compares against. */
  lemma SquareCenter()
    ensures MeanCenter([[LatLng(0.0, 0.0), LatLng(0.0, 2.0), LatLng(2.0, 2.0), LatLng(2.0, 0.0)]]) == LatLng(1.0, 1.0)
  {
    var ring := [LatLng(0.0, 0.0), LatLng(0.0, 2.0), LatLng(2.0, 2.0), LatLng(2.0, 0.0)];
    assert [ring][..0] == [];
    assert AllPoints([ring]) == ring;
    SumOfFour(Lats(ring), 0.0, 0.0, 2.0, 2.0);
    SumOfFour(Lngs(ring), 0.0, 2.0, 2.0, 0.0);
  }

  /** The centre is a vertex mean, not an area centroid: repeating a corner
      of the same square moves it. */
  lemma RepeatedVertexMovesCenter()
    ensures MeanCenter([[LatLng(0.0, 0.0), LatLng(0.0, 0.0), LatLng(0.0, 2.0), LatLng(2.0, 2.0), LatLng(2.0, 0.0)]]) == LatLng(0.8, 0.8)
  {
    var ring := [LatLng(0.0, 0.0), LatLng(0.0, 0.0), LatLng(0.0, 2.0), LatLng(2.0, 2.0), LatLng(2.0, 0.0)];
    assert [ring][..0] == [];
    assert AllPoints([ring]) == ring;
    var lats := Lats(ring);
    assert lats[..4] == [0.0, 0.0, 0.0, 2.0];
    SumOfFour(lats[..4], 0.0, 0.0, 0.0, 2.0);
    var lngs := Lngs(ring);
    assert lngs[..4] == [0.0, 0.0, 2.0, 2.0];
    SumOfFour(lngs[..4], 0.0, 0.0, 2.0, 2.0);
  }

  lemma SumOfFour(xs: seq<real>, a: real, b: real, c: real, d: real)
    requires xs == [a, b, c, d]
    ensures Sum(xs) == a + b + c + d
  {
    var x3, x2, x1 := xs[..3], xs[..3][..2], xs[..3][..2][..1];
    assert x3 == [a, b, c] && x2 == [a, b] && x1 == [a] && x1[..0] == [];
    assert Sum(x1) == a;
    assert Sum(x2) == a + b;
    assert Sum(x3) == a + b + c;
  }
}
