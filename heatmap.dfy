/**
 * `generate_gradient_heatmap_data` (building_optimizer/services.py:543-607):
 * a centre point and fifteen satellites per district, then one point per
 * residential building and per commercial place.  The random draws and
 * the cosine and sine of each random angle are parameters, constrained to
 * the ranges `random.uniform` and the unit circle give them.
 */
module Heatmap {
  import opened Wrappers
  import opened Geometry
  import opened Osm
  import opened Districts
  import opened Features

  datatype HeatPoint = HeatPoint(lat: real, lng: real, weight: real)

  /** The draws for one satellite: `distance = uniform(0.005, 0.025)`, the
      cosine and sine of `angle = uniform(0, 2*pi)`, and the factor
      `uniform(0.3, 0.9)`. */
  datatype SatelliteDraw = SatelliteDraw(distance: real, cos: real, sin: real, jitter: real)

  const SatellitesPerDistrict := 15
  const PointsPerDistrict := SatellitesPerDistrict + 1

  /** The greatest satellite distance, which the weight falls off against. */
  const MaxSatelliteDistance := 0.025

  predicate IsSatelliteDraw(s: SatelliteDraw)
  {
    0.005 <= s.distance <= MaxSatelliteDistance &&
    s.cos * s.cos + s.sin * s.sin == 1.0 &&
    0.3 <= s.jitter <= 0.9
  }

  /** Fifteen well-formed draws for each district. */
  predicate AreSatelliteDraws(sats: seq<seq<SatelliteDraw>>)
  {
    forall k :: 0 <= k < |sats| ==>
      |sats[k]| == SatellitesPerDistrict &&
      forall j :: 0 <= j < |sats[k]| ==> IsSatelliteDraw(sats[k][j])
  }

  /** Each building's draw of `uniform(0.6, 1.4)`. */
  predicate AreResidentialJitters(rj: seq<real>)
  {
    forall i :: 0 <= i < |rj| ==> 0.6 <= rj[i] <= 1.4
  }

  /** Each place's draw of `uniform(0.8, 1.3)`. */
  predicate AreCommercialJitters(cj: seq<real>)
  {
    forall i :: 0 <= i < |cj| ==> 0.8 <= cj[i] <= 1.3
  }

  function Min(a: real, b: real): real { if a <= b then a else b }
  function Max(a: real, b: real): real { if a >= b then a else b }

  /** `min(density / 1000, 2.0)`. */
  function CentreWeight(density: int): (w: real)
    ensures w <= 2.0
    ensures density >= 2000 ==> w == 2.0
    ensures density <= 2000 ==> w == density as real / 1000.0
  {
    Min(density as real / 1000.0, 2.0)
  }

  /** The centre weight grows with the density. */
  lemma CentreWeightMonotone(d1: int, d2: int)
    requires d1 <= d2
    ensures CentreWeight(d1) <= CentreWeight(d2)
  {
  }

  /** A district of density below 100 has a centre point lighter than the
      0.1 floor the satellites get. */
  lemma LightCentre()
    ensures CentreWeight(50) == 0.05
    ensures CentreWeight(50) < 0.1
  {
  }

  /** `(1 - distance / 0.025) * factor`: at most 0.8 times at most 0.9. */
  function Attenuation(s: SatelliteDraw): (f: real)
    ensures IsSatelliteDraw(s) ==> 0.0 <= f <= 0.72
  {
    var falloff := 1.0 - s.distance / MaxSatelliteDistance;
    if IsSatelliteDraw(s) then ProductBound(falloff, s.jitter); falloff * s.jitter
    else falloff * s.jitter
  }

  lemma ProductBound(x: real, y: real)
    requires 0.0 <= x <= 0.8 && 0.0 <= y <= 0.9
    ensures 0.0 <= x * y <= 0.72
  {
    NonNegativeProduct(x, y);
    NonNegativeProduct(0.8 - x, y);
    assert (0.8 - x) * y == 0.8 * y - x * y;
  }

  lemma NonNegativeProduct(a: real, b: real)
    requires 0.0 <= a && 0.0 <= b
    ensures 0.0 <= a * b
  {
  }

  /** `max(base * (1 - distance / 0.025) * factor, 0.1)`. */
  function SatelliteWeight(base: real, s: SatelliteDraw): (w: real)
    ensures w >= 0.1
  {
    Max(base * Attenuation(s), 0.1)
  }

  lemma MaxMonotone(a: real, b: real, c: real)
    requires a <= b
    ensures Max(a, c) <= Max(b, c)
  {
  }

  /** A satellite weighs at most 72% of its centre, unless the 0.1 floor
      lifts it; the floor is all a non-positive centre gives. */
  lemma SatelliteWeightBound(base: real, s: SatelliteDraw)
    requires IsSatelliteDraw(s)
    ensures 0.0 <= base ==> SatelliteWeight(base, s) <= Max(0.72 * base, 0.1)
    ensures base <= 0.0 ==> SatelliteWeight(base, s) == 0.1
  {
    var f := Attenuation(s);
    if 0.0 <= base {
      assert base * f <= base * 0.72;
      assert base * 0.72 == 0.72 * base;
      MaxMonotone(base * f, 0.72 * base, 0.1);
    } else {
      assert base * f <= 0.0;
    }
  }

  function CentrePoint(d: District): (p: HeatPoint)
  {
    HeatPoint(d.center.lat, d.center.lng, CentreWeight(d.density))
  }

  /** A satellite at `distance` from the centre along the drawn angle. */
  function SatellitePoint(c: LatLng, base: real, s: SatelliteDraw): (p: HeatPoint)
    ensures p.weight >= 0.1
  {
    HeatPoint(c.lat + s.distance * s.cos, c.lng + s.distance * s.sin, SatelliteWeight(base, s))
  }

  /** Every satellite lies on the circle of its drawn radius. */
  lemma SatelliteOnCircle(c: LatLng, base: real, s: SatelliteDraw)
    requires IsSatelliteDraw(s)
    ensures var p := SatellitePoint(c, base, s);
            (p.lat - c.lat) * (p.lat - c.lat) + (p.lng - c.lng) * (p.lng - c.lng) == s.distance * s.distance
  {
    var d := s.distance;
    var p := SatellitePoint(c, base, s);
    assert p.lat - c.lat == d * s.cos && p.lng - c.lng == d * s.sin;
    assert (d * s.cos) * (d * s.cos) + (d * s.sin) * (d * s.sin) == d * d * (s.cos * s.cos + s.sin * s.sin);
  }

  /** `min(intensity * uniform(0.6, 1.4), 2.0)` at the building: a
      building of intensity at least 0.5 weighs at least 0.3. */
  function ResidentialPoint(r: Residential, jitter: real): (p: HeatPoint)
    ensures p.lat == r.lat && p.lng == r.lng && p.weight <= 2.0
    ensures 0.5 <= r.intensity && 0.6 <= jitter ==> p.weight >= 0.3
  {
    ScaledFloor(r.intensity, 0.5, jitter, 0.6);
    HeatPoint(r.lat, r.lng, Min(r.intensity * jitter, 2.0))
  }

  /** `min(intensity * uniform(0.8, 1.3), 2.5)` at the place: a place of
      intensity at least 0.4 weighs at least 0.32. */
  function CommercialPoint(c: Commercial, jitter: real): (p: HeatPoint)
    ensures p.lat == c.lat && p.lng == c.lng && p.weight <= 2.5
    ensures 0.4 <= c.intensity && 0.8 <= jitter ==> p.weight >= 0.32
  {
    ScaledFloor(c.intensity, 0.4, jitter, 0.8);
    HeatPoint(c.lat, c.lng, Min(c.intensity * jitter, 2.5))
  }

  /** Raising both non-negative factors does not lower a product. */
  lemma ScaledFloor(x: real, lx: real, y: real, ly: real)
    ensures 0.0 <= lx <= x && 0.0 <= ly <= y ==> lx * ly <= x * y
  {
    if 0.0 <= lx <= x && 0.0 <= ly <= y {
      NonNegativeProduct(x - lx, y);
      NonNegativeProduct(lx, y - ly);
      assert x * y - lx * ly == (x - lx) * y + lx * (y - ly);
    }
  }

  /** The satellites drawn around one centre, in drawing order. */
  function Satellites(c: LatLng, base: real, sats: seq<SatelliteDraw>): (ps: seq<HeatPoint>)
    ensures |ps| == |sats|
  {
    if |sats| == 0 then []
    else Satellites(c, base, sats[..|sats| - 1]) + [SatellitePoint(c, base, sats[|sats| - 1])]
  }

  lemma {:induction false} SatellitesAt(c: LatLng, base: real, sats: seq<SatelliteDraw>, j: nat)
    requires j < |sats|
    ensures Satellites(c, base, sats)[j] == SatellitePoint(c, base, sats[j])
  {
    var n := |sats| - 1;
    if j < n {
      SatellitesAt(c, base, sats[..n], j);
      assert sats[..n][j] == sats[j];
    }
  }

  /** The points of one district: its centre, then its satellites. */
  function Cluster(d: District, sats: seq<SatelliteDraw>): (ps: seq<HeatPoint>)
    ensures |ps| == 1 + |sats|
    ensures ps[0] == CentrePoint(d)
  {
    [CentrePoint(d)] + Satellites(d.center, CentreWeight(d.density), sats)
  }

  /** No point of a cluster weighs more than 2.0, and with a density of at
      least 100 none weighs less than 0.1. */
  lemma ClusterWeights(d: District, sats: seq<SatelliteDraw>, i: nat)
    requires forall j :: 0 <= j < |sats| ==> IsSatelliteDraw(sats[j])
    requires i <= |sats|
    ensures Cluster(d, sats)[i].weight <= 2.0
    ensures d.density >= 100 ==> Cluster(d, sats)[i].weight >= 0.1
  {
    if i > 0 {
      var base := CentreWeight(d.density);
      SatellitesAt(d.center, base, sats, i - 1);
      SatelliteWeightBound(base, sats[i - 1]);
    }
  }

  /** The concatenation of blocks, in order. */
  function Flatten<T>(xss: seq<seq<T>>): seq<T>
  {
    if |xss| == 0 then [] else Flatten(xss[..|xss| - 1]) + xss[|xss| - 1]
  }

  predicate AreBlocks<T>(xss: seq<seq<T>>)
  {
    forall k :: 0 <= k < |xss| ==> |xss[k]| == PointsPerDistrict
  }

  lemma {:induction false} FlattenLength<T>(xss: seq<seq<T>>)
    requires AreBlocks(xss)
    ensures |Flatten(xss)| == PointsPerDistrict * |xss|
  {
    if |xss| > 0 {
      var init := xss[..|xss| - 1];
      assert forall k :: 0 <= k < |init| ==> init[k] == xss[k];
      FlattenLength(init);
    }
  }

  /** Flattening blocks of sixteen puts element `j` of block `k` at
      `16 * k + j`. */
  lemma {:induction false} FlattenAt<T>(xss: seq<seq<T>>, k: nat, j: nat)
    requires AreBlocks(xss) && k < |xss| && j < PointsPerDistrict
    ensures PointsPerDistrict * k + j < |Flatten(xss)|
    ensures Flatten(xss)[PointsPerDistrict * k + j] == xss[k][j]
  {
    var n := |xss| - 1;
    var init := xss[..n];
    assert forall m :: 0 <= m < n ==> init[m] == xss[m];
    FlattenLength(init);
    FlattenLength(xss);
    if k < n {
      FlattenAt(init, k, j);
    }
  }

  /** One cluster per district. */
  function Clusters(ds: seq<District>, sats: seq<seq<SatelliteDraw>>): (xss: seq<seq<HeatPoint>>)
    requires |sats| == |ds|
    ensures |xss| == |ds|
    ensures AreSatelliteDraws(sats) ==> AreBlocks(xss)
  {
    seq(|ds|, k requires 0 <= k < |ds| => Cluster(ds[k], sats[k]))
  }

  /** The whole heatmap as a function of the draws. */
  function HeatmapPoints(ds: seq<District>, rs: seq<Residential>, cs: seq<Commercial>,
                         sats: seq<seq<SatelliteDraw>>, rj: seq<real>, cj: seq<real>): (ps: seq<HeatPoint>)
    requires |sats| == |ds| && AreSatelliteDraws(sats)
    requires |rj| == |rs| && |cj| == |cs| && AreResidentialJitters(rj) && AreCommercialJitters(cj)
    ensures |ps| == PointsPerDistrict * |ds| + |rs| + |cs|
    ensures forall i :: 0 <= i < |rs| ==> ps[PointsPerDistrict * |ds| + i] == ResidentialPoint(rs[i], rj[i])
    ensures forall i :: 0 <= i < |cs| ==> ps[PointsPerDistrict * |ds| + |rs| + i] == CommercialPoint(cs[i], cj[i])
  {
    FlattenLength(Clusters(ds, sats));
    Flatten(Clusters(ds, sats))
      + seq(|rs|, i requires 0 <= i < |rs| => ResidentialPoint(rs[i], rj[i]))
      + seq(|cs|, i requires 0 <= i < |cs| => CommercialPoint(cs[i], cj[i]))
  }

  /** The district points come first, block by block. */
  lemma HeatmapDistrictPoint(ds: seq<District>, rs: seq<Residential>, cs: seq<Commercial>,
                             sats: seq<seq<SatelliteDraw>>, rj: seq<real>, cj: seq<real>, k: nat, j: nat)
    requires |sats| == |ds| && AreSatelliteDraws(sats)
    requires |rj| == |rs| && |cj| == |cs| && AreResidentialJitters(rj) && AreCommercialJitters(cj)
    requires k < |ds| && j < PointsPerDistrict
    ensures HeatmapPoints(ds, rs, cs, sats, rj, cj)[PointsPerDistrict * k + j] == Cluster(ds[k], sats[k])[j]
  {
    var xss := Clusters(ds, sats);
    FlattenAt(xss, k, j);
    var f := Flatten(xss);
    var rest := seq(|rs|, i requires 0 <= i < |rs| => ResidentialPoint(rs[i], rj[i]));
    var tail := seq(|cs|, i requires 0 <= i < |cs| => CommercialPoint(cs[i], cj[i]));
    assert HeatmapPoints(ds, rs, cs, sats, rj, cj) == f + rest + tail;
    assert (f + rest + tail)[PointsPerDistrict * k + j] == f[PointsPerDistrict * k + j];
  }

  /** Each district contributes its centre and then its fifteen satellites,
      all before any building or place. */
  lemma HeatmapDistrictLayout(ds: seq<District>, rs: seq<Residential>, cs: seq<Commercial>,
                              sats: seq<seq<SatelliteDraw>>, rj: seq<real>, cj: seq<real>, k: nat, j: nat)
    requires |sats| == |ds| && AreSatelliteDraws(sats)
    requires |rj| == |rs| && |cj| == |cs| && AreResidentialJitters(rj) && AreCommercialJitters(cj)
    requires k < |ds| && j < SatellitesPerDistrict
    ensures var ps := HeatmapPoints(ds, rs, cs, sats, rj, cj);
            ps[PointsPerDistrict * k] == CentrePoint(ds[k]) &&
            ps[PointsPerDistrict * k + 1 + j] == SatellitePoint(ds[k].center, CentreWeight(ds[k].density), sats[k][j])
  {
    HeatmapDistrictPoint(ds, rs, cs, sats, rj, cj, k, 0);
    HeatmapDistrictPoint(ds, rs, cs, sats, rj, cj, k, 1 + j);
    SatellitesAt(ds[k].center, CentreWeight(ds[k].density), sats[k], j);
  }

  /** The point at index `i` past the district blocks is building
      `i - 16|ds|`, or place `i - 16|ds| - |rs|` after the buildings. */
  lemma HeatmapTailPoint(ds: seq<District>, rs: seq<Residential>, cs: seq<Commercial>,
                         sats: seq<seq<SatelliteDraw>>, rj: seq<real>, cj: seq<real>, i: nat)
    requires |sats| == |ds| && AreSatelliteDraws(sats)
    requires |rj| == |rs| && |cj| == |cs| && AreResidentialJitters(rj) && AreCommercialJitters(cj)
    requires PointsPerDistrict * |ds| <= i < PointsPerDistrict * |ds| + |rs| + |cs|
    ensures var n := PointsPerDistrict * |ds|;
            i < n + |rs| ==> HeatmapPoints(ds, rs, cs, sats, rj, cj)[i] == ResidentialPoint(rs[i - n], rj[i - n])
    ensures var n := PointsPerDistrict * |ds|;
            n + |rs| <= i ==> HeatmapPoints(ds, rs, cs, sats, rj, cj)[i] == CommercialPoint(cs[i - n - |rs|], cj[i - n - |rs|])
  {
    var n := PointsPerDistrict * |ds|;
    var ps := HeatmapPoints(ds, rs, cs, sats, rj, cj);
    if i < n + |rs| {
      assert ps[n + (i - n)] == ResidentialPoint(rs[i - n], rj[i - n]);
    } else {
      assert ps[n + |rs| + (i - n - |rs|)] == CommercialPoint(cs[i - n - |rs|], cj[i - n - |rs|]);
    }
  }

  /** No point weighs more than 2.5 and no district or residential point
      more than 2.0.  With a density of at least 100, no point of that
      district weighs less than 0.1; a building of intensity at least 0.5
      weighs at least 0.3, and a place of intensity at least 0.4 at least
      0.32. */
  lemma HeatmapWeights(ds: seq<District>, rs: seq<Residential>, cs: seq<Commercial>,
                       sats: seq<seq<SatelliteDraw>>, rj: seq<real>, cj: seq<real>, i: nat)
    requires |sats| == |ds| && AreSatelliteDraws(sats)
    requires |rj| == |rs| && |cj| == |cs| && AreResidentialJitters(rj) && AreCommercialJitters(cj)
    requires i < PointsPerDistrict * |ds| + |rs| + |cs|
    ensures HeatmapPoints(ds, rs, cs, sats, rj, cj)[i].weight <= 2.5
    ensures i < PointsPerDistrict * |ds| + |rs| ==> HeatmapPoints(ds, rs, cs, sats, rj, cj)[i].weight <= 2.0
    ensures i < PointsPerDistrict * |ds| && ds[i / PointsPerDistrict].density >= 100 ==>
              HeatmapPoints(ds, rs, cs, sats, rj, cj)[i].weight >= 0.1
    ensures PointsPerDistrict * |ds| <= i < PointsPerDistrict * |ds| + |rs| &&
            rs[i - PointsPerDistrict * |ds|].intensity >= 0.5 ==>
              HeatmapPoints(ds, rs, cs, sats, rj, cj)[i].weight >= 0.3
    ensures PointsPerDistrict * |ds| + |rs| <= i &&
            cs[i - PointsPerDistrict * |ds| - |rs|].intensity >= 0.4 ==>
              HeatmapPoints(ds, rs, cs, sats, rj, cj)[i].weight >= 0.32
  {
    var n := PointsPerDistrict * |ds|;
    if i < n {
      var k := i / PointsPerDistrict;
      var j := i % PointsPerDistrict;
      assert PointsPerDistrict * k + j == i;
      HeatmapDistrictPoint(ds, rs, cs, sats, rj, cj, k, j);
      ClusterWeights(ds[k], sats[k], j);
    } else {
      HeatmapTailPoint(ds, rs, cs, sats, rj, cj, i);
    }
  }

  /** With districts of density at least 100, buildings of intensity at
      least 0.5 and places of intensity at least 0.4, no point of the
      heatmap weighs less than 0.1. */
  lemma HeatmapFloor(ds: seq<District>, rs: seq<Residential>, cs: seq<Commercial>,
                     sats: seq<seq<SatelliteDraw>>, rj: seq<real>, cj: seq<real>, i: nat)
    requires |sats| == |ds| && AreSatelliteDraws(sats)
    requires |rj| == |rs| && |cj| == |cs| && AreResidentialJitters(rj) && AreCommercialJitters(cj)
    requires forall k :: 0 <= k < |ds| ==> ds[k].density >= 100
    requires forall k :: 0 <= k < |rs| ==> rs[k].intensity >= 0.5
    requires forall k :: 0 <= k < |cs| ==> cs[k].intensity >= 0.4
    requires i < PointsPerDistrict * |ds| + |rs| + |cs|
    ensures HeatmapPoints(ds, rs, cs, sats, rj, cj)[i].weight >= 0.1
  {
    HeatmapWeights(ds, rs, cs, sats, rj, cj, i);
    var n := PointsPerDistrict * |ds|;
    if i < n {
      assert i / PointsPerDistrict < |ds|;
    }
  }

  /** On the buildings and places the fetchers return, every point of the
      heatmap weighs at least 0.1, short of the centre of a district whose
      density is below 100 (`LightCentre`). */
  lemma FetchedHeatmapFloor(ds: seq<District>, cityReply: Option<seq<NominatimItem>>,
                            residentialReply: Option<seq<Element>>, commercialReply: Option<seq<Element>>,
                            sats: seq<seq<SatelliteDraw>>, rj: seq<real>, cj: seq<real>, i: nat)
    requires |sats| == |ds| && AreSatelliteDraws(sats)
    requires forall k :: 0 <= k < |ds| ==> ds[k].density >= 100
    requires |rj| == |ResidentialBuildings(cityReply, residentialReply)| && AreResidentialJitters(rj)
    requires |cj| == |CommercialPlaces(cityReply, commercialReply)| && AreCommercialJitters(cj)
    requires i < PointsPerDistrict * |ds| + |ResidentialBuildings(cityReply, residentialReply)| +
                 |CommercialPlaces(cityReply, commercialReply)|
    ensures HeatmapPoints(ds, ResidentialBuildings(cityReply, residentialReply),
                          CommercialPlaces(cityReply, commercialReply), sats, rj, cj)[i].weight >= 0.1
  {
    var rs := ResidentialBuildings(cityReply, residentialReply);
    var cs := CommercialPlaces(cityReply, commercialReply);
    assert forall k :: 0 <= k < |rs| ==> rs[k].intensity >= 0.5 by {
      forall k | 0 <= k < |rs| ensures rs[k].intensity >= 0.5 {
        assert rs[k] in rs;
      }
    }
    assert forall k :: 0 <= k < |cs| ==> cs[k].intensity >= 0.4 by {
      forall k | 0 <= k < |cs| ensures cs[k].intensity >= 0.4 {
        assert cs[k] in cs;
      }
    }
    HeatmapFloor(ds, rs, cs, sats, rj, cj, i);
  }

  /** The centre point and the inner loop over the satellite draws. */
  method ClusterPoints(d: District, sats: seq<SatelliteDraw>) returns (cluster: seq<HeatPoint>)
    ensures cluster == Cluster(d, sats)
  {
    var base := CentreWeight(d.density);
    cluster := [CentrePoint(d)];
    for j := 0 to |sats|
      invariant cluster == [CentrePoint(d)] + Satellites(d.center, base, sats[..j])
    {
      assert sats[..j + 1][..j] == sats[..j];
      cluster := cluster + [SatellitePoint(d.center, base, sats[j])];
    }
    assert sats[..|sats|] == sats;
  }

  /** The loops of services.py:548-604. */
  method GenerateHeatmap(ds: seq<District>, rs: seq<Residential>, cs: seq<Commercial>,
                         sats: seq<seq<SatelliteDraw>>, rj: seq<real>, cj: seq<real>)
    returns (points: seq<HeatPoint>)
    requires |sats| == |ds| && AreSatelliteDraws(sats)
    requires |rj| == |rs| && |cj| == |cs| && AreResidentialJitters(rj) && AreCommercialJitters(cj)
    ensures points == HeatmapPoints(ds, rs, cs, sats, rj, cj)
  {
    ghost var xss := Clusters(ds, sats);
    points := [];
    for k := 0 to |ds|
      invariant points == Flatten(xss[..k])
    {
      var cluster := ClusterPoints(ds[k], sats[k]);
      assert xss[..k + 1][..k] == xss[..k];
      points := points + cluster;
    }
    assert xss[..|ds|] == xss;
    ghost var dp := points;
    for i := 0 to |rs|
      invariant points == dp + seq(i, m requires 0 <= m < i => ResidentialPoint(rs[m], rj[m]))
    {
      points := points + [ResidentialPoint(rs[i], rj[i])];
    }
    ghost var rp := points;
    for i := 0 to |cs|
      invariant points == rp + seq(i, m requires 0 <= m < i => CommercialPoint(cs[m], cj[m]))
    {
      points := points + [CommercialPoint(cs[i], cj[i])];
    }
  }
}
