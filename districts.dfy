/**
 * City lookup and district discovery of `OpenStreetMapService`
 * (building_optimizer/services.py:14-316): choosing the city item of a
 * Nominatim reply, turning its bounding box into an Overpass filter,
 * normalising district names, assigning densities, and the two district
 * sources (per-district Nominatim searches, then one Overpass query as a
 * fallback).  Every network reply is a parameter; `None` stands for a
 * request that failed, a non-2xx status or a body that is not JSON.
 */
module Districts {
  import opened Wrappers
  import opened Text
  import opened Geometry
  import opened Osm

  // ---------------------------------------------------------------------
  // City lookup: get_city_boundaries
  // ---------------------------------------------------------------------

  /** A relation tagged as an administrative boundary of level 4. */
  predicate IsStateBoundary(item: NominatimItem)
  {
    item.osmType == "relation" && item.osmClass == "boundary" &&
    item.kind == "administrative" && item.adminLevel == "4"
  }

  predicate IsSettlement(item: NominatimItem)
  {
    item.kind in {"city", "town", "village"}
  }

  predicate IsCityCandidate(item: NominatimItem)
  {
    IsStateBoundary(item) || IsSettlement(item)
  }

  /** The first index at or after `from` holding a city candidate. */
  function FirstCandidate(data: seq<NominatimItem>, from: nat): (r: Option<nat>)
    ensures r.Some? ==> from <= r.value < |data| && IsCityCandidate(data[r.value])
    ensures r.Some? ==> forall j :: from <= j < r.value ==> !IsCityCandidate(data[j])
    ensures r.None? ==> forall j :: from <= j < |data| ==> !IsCityCandidate(data[j])
    decreases |data| - from
  {
    if from >= |data| then None
    else if IsCityCandidate(data[from]) then Some(from)
    else FirstCandidate(data, from + 1)
  }

  /** The item `get_city_boundaries` returns for a Nominatim reply: the
      first candidate, else the first item; nothing for a failed request
      or an empty list. */
  function CitySelection(reply: Option<seq<NominatimItem>>): (r: Option<NominatimItem>)
    ensures r.None? <==> reply.None? || |reply.value| == 0
    ensures r.Some? ==> r.value in reply.value
    ensures reply.Some? ==>
              forall i :: (0 <= i < |reply.value| && IsCityCandidate(reply.value[i]) &&
                           (forall j :: 0 <= j < i ==> !IsCityCandidate(reply.value[j]))) ==>
                            r == Some(reply.value[i])
    ensures reply.Some? && |reply.value| > 0 &&
            (forall i :: 0 <= i < |reply.value| ==> !IsCityCandidate(reply.value[i])) ==>
              r == Some(reply.value[0])
  {
    match reply
    case None => None
    case Some(data) =>
      if |data| == 0 then None
      else
        match FirstCandidate(data, 0)
        case Some(i) => Some(data[i])
        case None => Some(data[0])
  }

  /** The scan of services.py:35-45. */
  method GetCityBoundaries(reply: Option<seq<NominatimItem>>) returns (city: Option<NominatimItem>)
    ensures city == CitySelection(reply)
  {
    if reply.None? || |reply.value| == 0 {
      return None;
    }
    var data := reply.value;
    for i := 0 to |data|
      invariant forall j :: 0 <= j < i ==> !IsCityCandidate(data[j])
    {
      var item := data[i];
      if IsStateBoundary(item) {
        return Some(item);
      } else if IsSettlement(item) {
        return Some(item);
      }
    }
    return Some(data[0]);
  }

  // ---------------------------------------------------------------------
  // Bounding box
  // ---------------------------------------------------------------------

  /** A bounding box in Nominatim's order of fields. */
  datatype BBox = BBox(south: real, north: real, west: real, east: real)

  /** The `boundingbox` check every Overpass caller repeats: the city must
      have been found, the box must have exactly four entries, and each
      must be a number. No relation between the entries is checked. */
  function CityBBox(city: Option<NominatimItem>): (r: Option<BBox>)
    ensures r.Some? <==>
              city.Some? && city.value.boundingbox.Some? &&
              |city.value.boundingbox.value| == 4 &&
              forall k :: 0 <= k < 4 ==> city.value.boundingbox.value[k].Some?
    ensures r.Some? ==>
              var bb := city.value.boundingbox.value;
              r.value.south == bb[0].value && r.value.north == bb[1].value &&
              r.value.west == bb[2].value && r.value.east == bb[3].value
  {
    if city.None? || city.value.boundingbox.None? then None
    else
      var bb := city.value.boundingbox.value;
      if |bb| != 4 then None
      else if bb[0].None? || bb[1].None? || bb[2].None? || bb[3].None? then None
      else Some(BBox(bb[0].value, bb[1].value, bb[2].value, bb[3].value))
  }

  /** The `(south,west,north,east)` suffix of an Overpass query. */
  function OverpassFilter(b: BBox): seq<real>
  {
    [b.south, b.west, b.north, b.east]
  }

  /** The Overpass filter swaps the middle two of Nominatim's four entries. */
  lemma OverpassFilterReorders(city: Option<NominatimItem>)
    requires CityBBox(city).Some?
    ensures var bb := city.value.boundingbox.value;
            OverpassFilter(CityBBox(city).value) == [bb[0].value, bb[2].value, bb[1].value, bb[3].value]
  {
  }

  // ---------------------------------------------------------------------
  // District names: _extract_district_name
  // ---------------------------------------------------------------------

  const Leninsky := "Ленинский район"
  const Oktyabrsky := "Октябрьский район"
  const Pervomaisky := "Первомайский район"
  const Sverdlovsky := "Свердловский район"

  /** One of the four canonical (Russian) district names. */
  predicate IsCanonicalDistrict(n: string)
  {
    n == Leninsky || n == Oktyabrsky || n == Pervomaisky || n == Sverdlovsky
  }

  /** The patterns, in the order they are tried: Russian and Kyrgyz form
      of each district. */
  const DistrictPatterns: seq<string> := [
    "Ленинский район", "Ленин району",
    "Октябрьский район", "Октябрь району",
    "Первомайский район", "Биринчи май району",
    "Свердловский район", "Свердлов району"]

  /** The canonical name each pattern stands for. */
  const PatternDistricts: seq<string> := [
    Leninsky, Leninsky, Oktyabrsky, Oktyabrsky,
    Pervomaisky, Pervomaisky, Sverdlovsky, Sverdlovsky]

  /** The `if`/`elif` chain applied to a lower-cased pattern. */
  function CanonicalFor(pattern: string): (r: Option<string>)
    ensures r.Some? ==> IsCanonicalDistrict(r.value)
  {
    if Contains(pattern, "ленин") then Some(Leninsky)
    else if Contains(pattern, "октябр") then Some(Oktyabrsky)
    else if Contains(pattern, "первомай") || Contains(pattern, "биринчи май") then Some(Pervomaisky)
    else if Contains(pattern, "свердлов") then Some(Sverdlovsky)
    else None
  }

  /** The canonical name of the first pattern, from index `i` on, that
      occurs in `text` and that the chain recognises. */
  function MatchPatterns(text: string, patterns: seq<string>, i: nat): (r: Option<string>)
    requires i <= |patterns|
    ensures r.Some? ==> IsCanonicalDistrict(r.value)
    decreases |patterns| - i
  {
    if i == |patterns| then None
    else
      var p := Lower(patterns[i]);
      if Contains(text, p) && CanonicalFor(p).Some? then CanonicalFor(p)
      else MatchPatterns(text, patterns, i + 1)
  }

  /** The text searched: display name and name, lower-cased. */
  function SearchText(item: NominatimItem): string
  {
    Lower(item.displayName + " " + item.name)
  }

  /** The normalised district name of a Nominatim item. */
  function DistrictNameOf(item: NominatimItem): (n: string)
    ensures IsCanonicalDistrict(n) || n == item.name
  {
    match MatchPatterns(SearchText(item), DistrictPatterns, 0)
    case Some(c) => c
    case None => item.name
  }

  /** The loop of services.py:170-181. */
  method ExtractDistrictName(item: NominatimItem) returns (n: string)
    ensures n == DistrictNameOf(item)
  {
    var text := SearchText(item);
    for i := 0 to |DistrictPatterns|
      invariant MatchPatterns(text, DistrictPatterns, i) == MatchPatterns(text, DistrictPatterns, 0)
    {
      var p := Lower(DistrictPatterns[i]);
      if Contains(text, p) {
        if Contains(p, "ленин") {
          return Leninsky;
        } else if Contains(p, "октябр") {
          return Oktyabrsky;
        } else if Contains(p, "первомай") || Contains(p, "биринчи май") {
          return Pervomaisky;
        } else if Contains(p, "свердлов") {
          return Sverdlovsky;
        }
      }
    }
    return item.name;
  }

  /** The lower-cased patterns, written out. */
  const LoweredPatterns: seq<string> := [
    "ленинский район", "ленин району",
    "октябрьский район", "октябрь району",
    "первомайский район", "биринчи май району",
    "свердловский район", "свердлов району"]

  lemma LowerPattern0()
    ensures Lower(DistrictPatterns[0]) == LoweredPatterns[0]
  {
  }

  lemma LowerPattern1()
    ensures Lower(DistrictPatterns[1]) == LoweredPatterns[1]
  {
  }

  lemma LowerPattern2()
    ensures Lower(DistrictPatterns[2]) == LoweredPatterns[2]
  {
  }

  lemma LowerPattern3()
    ensures Lower(DistrictPatterns[3]) == LoweredPatterns[3]
  {
  }

  lemma LowerPattern4()
    ensures Lower(DistrictPatterns[4]) == LoweredPatterns[4]
  {
  }

  lemma LowerPattern5()
    ensures Lower(DistrictPatterns[5]) == LoweredPatterns[5]
  {
  }

  lemma LowerPattern6()
    ensures Lower(DistrictPatterns[6]) == LoweredPatterns[6]
  {
  }

  lemma LowerPattern7()
    ensures Lower(DistrictPatterns[7]) == LoweredPatterns[7]
  {
  }

  // Each branch of the chain, for any text whose characters rule out the
  // earlier branches.

  lemma ChainLenin(p: string)
    requires |p| >= 5 && p[..5] == "ленин"
    ensures CanonicalFor(p) == Some(Leninsky)
  {
    ContainsAt(p, "ленин", 0);
  }

  lemma ChainOktyabr(p: string)
    requires 'л' !in p
    requires |p| >= 6 && p[..6] == "октябр"
    ensures CanonicalFor(p) == Some(Oktyabrsky)
  {
    NotContainsByChar(p, "ленин", 0);
    ContainsAt(p, "октябр", 0);
  }

  lemma ChainPervomai(p: string)
    requires 'л' !in p && 'т' !in p
    requires (|p| >= 8 && p[..8] == "первомай") || (|p| >= 11 && p[..11] == "биринчи май")
    ensures CanonicalFor(p) == Some(Pervomaisky)
  {
    NotContainsByChar(p, "ленин", 0);
    NotContainsByChar(p, "октябр", 2);
    if |p| >= 8 && p[..8] == "первомай" {
      ContainsAt(p, "первомай", 0);
    } else {
      ContainsAt(p, "биринчи май", 0);
    }
  }

  lemma ChainSverdlov(p: string)
    requires forall i :: 0 <= i < |p| - 1 && p[i] == 'л' ==> p[i + 1] != 'е'
    requires 'т' !in p && 'п' !in p && 'б' !in p
    requires |p| >= 8 && p[..8] == "свердлов"
    ensures CanonicalFor(p) == Some(Sverdlovsky)
  {
    NotContainsByPair(p, "ленин", 0);
    NotContainsByChar(p, "октябр", 2);
    NotContainsByChar(p, "первомай", 0);
    NotContainsByChar(p, "биринчи май", 0);
    ContainsAt(p, "свердлов", 0);
  }

  lemma Pattern0()
    ensures CanonicalFor(Lower(DistrictPatterns[0])) == Some(PatternDistricts[0])
  {
    LowerPattern0();
    ChainLenin(LoweredPatterns[0]);
  }

  lemma Pattern1()
    ensures CanonicalFor(Lower(DistrictPatterns[1])) == Some(PatternDistricts[1])
  {
    LowerPattern1();
    ChainLenin(LoweredPatterns[1]);
  }

  lemma Pattern2()
    ensures CanonicalFor(Lower(DistrictPatterns[2])) == Some(PatternDistricts[2])
  {
    LowerPattern2();
    ChainOktyabr(LoweredPatterns[2]);
  }

  lemma Pattern3()
    ensures CanonicalFor(Lower(DistrictPatterns[3])) == Some(PatternDistricts[3])
  {
    LowerPattern3();
    ChainOktyabr(LoweredPatterns[3]);
  }

  lemma Pattern4()
    ensures CanonicalFor(Lower(DistrictPatterns[4])) == Some(PatternDistricts[4])
  {
    LowerPattern4();
    ChainPervomai(LoweredPatterns[4]);
  }

  lemma Pattern5()
    ensures CanonicalFor(Lower(DistrictPatterns[5])) == Some(PatternDistricts[5])
  {
    LowerPattern5();
    ChainPervomai(LoweredPatterns[5]);
  }

  lemma Pattern6()
    ensures CanonicalFor(Lower(DistrictPatterns[6])) == Some(PatternDistricts[6])
  {
    LowerPattern6();
    ChainSverdlov(LoweredPatterns[6]);
  }

  lemma Pattern7()
    ensures CanonicalFor(Lower(DistrictPatterns[7])) == Some(PatternDistricts[7])
  {
    LowerPattern7();
    ChainSverdlov(LoweredPatterns[7]);
  }

  lemma PatternAt(i: nat)
    requires i < |DistrictPatterns|
    ensures CanonicalFor(Lower(DistrictPatterns[i])) == Some(PatternDistricts[i])
  {
    if i == 0 { Pattern0(); }
    else if i == 1 { Pattern1(); }
    else if i == 2 { Pattern2(); }
    else if i == 3 { Pattern3(); }
    else if i == 4 { Pattern4(); }
    else if i == 5 { Pattern5(); }
    else if i == 6 { Pattern6(); }
    else { Pattern7(); }
  }

  /** Every pattern is recognised by the chain, and names the district
      it was written for: no pattern is ever passed over. */
  lemma PatternCanonicalNames()
    ensures forall i :: 0 <= i < |DistrictPatterns| ==>
              CanonicalFor(Lower(DistrictPatterns[i])) == Some(PatternDistricts[i])
  {
    forall i | 0 <= i < |DistrictPatterns|
      ensures CanonicalFor(Lower(DistrictPatterns[i])) == Some(PatternDistricts[i])
    {
      PatternAt(i);
    }
  }

  lemma MatchPatternsSkip(text: string, patterns: seq<string>, from: nat)
    requires from < |patterns|
    requires !Contains(text, Lower(patterns[from]))
    ensures MatchPatterns(text, patterns, from) == MatchPatterns(text, patterns, from + 1)
  {
  }

  lemma MatchPatternsHit(text: string, patterns: seq<string>, i: nat)
    requires i < |patterns|
    requires Contains(text, Lower(patterns[i])) && CanonicalFor(Lower(patterns[i])).Some?
    ensures MatchPatterns(text, patterns, i) == CanonicalFor(Lower(patterns[i]))
  {
  }

  /** Patterns absent from the text are passed over. */
  lemma {:induction false} MatchPatternsSkipRun(text: string, patterns: seq<string>, from: nat, i: nat)
    requires from <= i <= |patterns|
    requires forall j :: from <= j < i ==> !Contains(text, Lower(patterns[j]))
    ensures MatchPatterns(text, patterns, from) == MatchPatterns(text, patterns, i)
    decreases i - from
  {
    if from < i {
      MatchPatternsSkip(text, patterns, from);
      MatchPatternsSkipRun(text, patterns, from + 1, i);
    }
  }

  lemma {:induction false} MatchPatternsNone(text: string, patterns: seq<string>, from: nat)
    requires from <= |patterns|
    requires forall j :: from <= j < |patterns| ==> !Contains(text, Lower(patterns[j]))
    ensures MatchPatterns(text, patterns, from).None?
    decreases |patterns| - from
  {
    if from < |patterns| {
      MatchPatternsSkip(text, patterns, from);
      MatchPatternsNone(text, patterns, from + 1);
    }
  }

  /** The first pattern found in the search text decides the name. */
  lemma DistrictNameFirstMatch(item: NominatimItem, i: nat)
    requires i < |DistrictPatterns|
    requires Contains(SearchText(item), Lower(DistrictPatterns[i]))
    requires forall j :: 0 <= j < i ==> !Contains(SearchText(item), Lower(DistrictPatterns[j]))
    ensures DistrictNameOf(item) == PatternDistricts[i]
  {
    PatternAt(i);
    MatchPatternsSkipRun(SearchText(item), DistrictPatterns, 0, i);
    MatchPatternsHit(SearchText(item), DistrictPatterns, i);
  }

  /** Without any pattern in the search text the raw name is kept. */
  lemma DistrictNameNoMatch(item: NominatimItem)
    requires forall j :: 0 <= j < |DistrictPatterns| ==> !Contains(SearchText(item), Lower(DistrictPatterns[j]))
    ensures DistrictNameOf(item) == item.name
  {
    MatchPatternsNone(SearchText(item), DistrictPatterns, 0);
  }

  // ---------------------------------------------------------------------
  // Densities
  // ---------------------------------------------------------------------

  /** `temp_densities`, in insertion order. */
  const DensityTable: seq<(string, int)> := [
    ("Ленинский", 4500), ("Ленин", 4500),
    ("Октябрьский", 3800), ("Октябрь", 3800),
    ("Первомайский", 5200), ("Биринчи май", 5200),
    ("Свердловский", 3000), ("Свердлов", 3000)]

  /** The bounds of `random.randint(3000, 5000)`. */
  predicate IsDensityDraw(draw: int)
  {
    3000 <= draw <= 5000
  }

  /** The index of the first table key that is a substring of `name`. */
  function DensityKey(name: string, i: nat): (r: Option<nat>)
    requires i <= |DensityTable|
    ensures r.Some? ==> i <= r.value < |DensityTable| && Contains(name, DensityTable[r.value].0)
    ensures r.Some? ==> forall j :: i <= j < r.value ==> !Contains(name, DensityTable[j].0)
    ensures r.None? ==> forall j :: i <= j < |DensityTable| ==> !Contains(name, DensityTable[j].0)
    decreases |DensityTable| - i
  {
    if i == |DensityTable| then None
    else if Contains(name, DensityTable[i].0) then Some(i)
    else DensityKey(name, i + 1)
  }

  /** The density given to a district: the value of the first key its name
      contains, or the random draw when it contains none. */
  function DistrictDensity(name: string, draw: int): (d: int)
    ensures DensityKey(name, 0).None? ==> d == draw
    ensures DensityKey(name, 0).Some? ==> d in {3000, 3800, 4500, 5200}
    ensures IsDensityDraw(draw) ==> 3000 <= d <= 5200
  {
    match DensityKey(name, 0)
    case Some(k) => DensityTable[k].1
    case None => draw
  }

  /** The density is the value of the first key, in table order, that the
      name contains. */
  lemma DensityByFirstKey(name: string, draw: int, k: nat)
    requires k < |DensityTable| && Contains(name, DensityTable[k].0)
    requires forall j :: 0 <= j < k ==> !Contains(name, DensityTable[j].0)
    ensures DistrictDensity(name, draw) == DensityTable[k].1
  {
    var r := DensityKey(name, 0);
    assert r.Some? && r.value == k;
  }

  lemma DensityOfOktyabr(name: string, draw: int)
    requires 'Л' !in name
    requires |name| >= 11 && name[..11] == "Октябрьский"
    ensures DistrictDensity(name, draw) == 3800
  {
    NotContainsByChar(name, "Ленинский", 0);
    NotContainsByChar(name, "Ленин", 0);
    ContainsAt(name, "Октябрьский", 0);
    DensityByFirstKey(name, draw, 2);
  }

  lemma DensityOfPervomai(name: string, draw: int)
    requires 'Л' !in name && 'О' !in name
    requires |name| >= 12 && name[..12] == "Первомайский"
    ensures DistrictDensity(name, draw) == 5200
  {
    NotContainsByChar(name, "Ленинский", 0);
    NotContainsByChar(name, "Ленин", 0);
    NotContainsByChar(name, "Октябрьский", 0);
    NotContainsByChar(name, "Октябрь", 0);
    ContainsAt(name, "Первомайский", 0);
    DensityByFirstKey(name, draw, 4);
  }

  lemma DensityOfSverdlov(name: string, draw: int)
    requires 'Л' !in name && 'О' !in name && 'П' !in name && 'Б' !in name
    requires |name| >= 12 && name[..12] == "Свердловский"
    ensures DistrictDensity(name, draw) == 3000
  {
    NotContainsByChar(name, "Ленинский", 0);
    NotContainsByChar(name, "Ленин", 0);
    NotContainsByChar(name, "Октябрьский", 0);
    NotContainsByChar(name, "Октябрь", 0);
    NotContainsByChar(name, "Первомайский", 0);
    NotContainsByChar(name, "Биринчи май", 0);
    ContainsAt(name, "Свердловский", 0);
    DensityByFirstKey(name, draw, 6);
  }

  /** The four canonical names get their fixed densities; the draw is
      never used for them. */
  lemma LeninskyDensity(name: string, draw: int)
    requires name == Leninsky
    ensures DistrictDensity(name, draw) == 4500
  {
    ContainsAt(name, "Ленинский", 0);
    DensityByFirstKey(name, draw, 0);
  }

  lemma OktyabrskyDensity(name: string, draw: int)
    requires name == Oktyabrsky
    ensures DistrictDensity(name, draw) == 3800
  {
    DensityOfOktyabr(name, draw);
  }

  lemma PervomaiskyDensity(name: string, draw: int)
    requires name == Pervomaisky
    ensures DistrictDensity(name, draw) == 5200
  {
    DensityOfPervomai(name, draw);
  }

  lemma SverdlovskyDensity(name: string, draw: int)
    requires name == Sverdlovsky
    ensures DistrictDensity(name, draw) == 3000
  {
    DensityOfSverdlov(name, draw);
  }

  // ---------------------------------------------------------------------
  // Districts from Nominatim: _get_districts_via_nominatim
  // ---------------------------------------------------------------------

  /** A district as the services return it. */
  datatype District = District(
    name: string,
    center: LatLng,
    density: int,
    geometry: seq<Ring>,
    osmId: int)

  /** What every district of either source satisfies: a non-empty geometry
      of rings with at least three points, its vertex mean as centre, and
      a density in the range the sources produce. */
  ghost predicate WellFormedDistrict(d: District)
  {
    && d.geometry != []
    && (forall k :: 0 <= k < |d.geometry| ==> |d.geometry[k]| >= 3)
    && d.center == MeanCenter(d.geometry)
    && 3000 <= d.density <= 5200
  }

  /** The eight search strings, in the order they are tried. */
  const DistrictQueries: seq<string> := [
    "Ленинский район, Бишкек", "Октябрьский район, Бишкек",
    "Первомайский район, Бишкек", "Свердловский район, Бишкек",
    "Ленин району, Бишкек", "Октябрь району, Бишкек",
    "Биринчи май району, Бишкек", "Свердлов району, Бишкек"]

  /** The most districts the Nominatim search collects. */
  const MaxDistricts := 4

  predicate IsDistrictBoundary(item: NominatimItem)
  {
    item.osmType == "relation" && item.osmClass == "boundary" && item.kind == "administrative"
  }

  /** The district one item yields, given the names found so far. */
  function DistrictFromItem(item: NominatimItem, found: set<string>, draw: int): Option<District>
  {
    var name := DistrictNameOf(item);
    if IsDistrictBoundary(item) && name != "" && name !in found && item.geojson.Some? then
      var rings := GeoJsonRings(item.geojson.value);
      if rings != [] then
        Some(District(name, MeanCenter(rings), DistrictDensity(name, draw), rings, item.osmId))
      else None
    else None
  }

  /** The first district the items of one reply yield. */
  function ScanReply(items: seq<NominatimItem>, found: set<string>, draw: int): (r: Option<District>)
    requires IsDensityDraw(draw)
    ensures r.Some? ==> r.value.name != "" && r.value.name !in found && WellFormedDistrict(r.value)
    ensures r.Some? ==> r.value.density == DistrictDensity(r.value.name, draw)
  {
    if |items| == 0 then None
    else
      match DistrictFromItem(items[0], found, draw)
      case Some(d) => Some(d)
      case None => ScanReply(items[1..], found, draw)
  }

  /** An item found in the rest of a reply whose first item yields nothing
      is found in the reply, one place on. */
  lemma ScanReplyShift(items: seq<NominatimItem>, found: set<string>, draw: int, k: nat)
    requires IsDensityDraw(draw) && |items| > 0 && DistrictFromItem(items[0], found, draw).None?
    requires k < |items| - 1 && DistrictFromItem(items[1..][k], found, draw) == ScanReply(items[1..], found, draw)
    requires forall j :: 0 <= j < k ==> DistrictFromItem(items[1..][j], found, draw).None?
    ensures DistrictFromItem(items[k + 1], found, draw) == ScanReply(items, found, draw)
    ensures forall j :: 0 <= j < k + 1 ==> DistrictFromItem(items[j], found, draw).None?
  {
    var rest := items[1..];
    assert rest[k] == items[k + 1];
    assert forall j :: 1 <= j < k + 1 ==> rest[j - 1] == items[j];
  }

  /** The reply's district is that of its first item that yields one. */
  lemma {:induction false} ScanReplyFirst(items: seq<NominatimItem>, found: set<string>, draw: int) returns (k: nat)
    requires IsDensityDraw(draw) && ScanReply(items, found, draw).Some?
    ensures k < |items| && DistrictFromItem(items[k], found, draw) == ScanReply(items, found, draw)
    ensures forall j :: 0 <= j < k ==> DistrictFromItem(items[j], found, draw).None?
  {
    if DistrictFromItem(items[0], found, draw).Some? {
      k := 0;
    } else {
      var k' := ScanReplyFirst(items[1..], found, draw);
      ScanReplyShift(items, found, draw, k');
      k := k' + 1;
    }
  }

  /** A reply yields no district only when none of its items does. */
  lemma {:induction false} ScanReplyNone(items: seq<NominatimItem>, found: set<string>, draw: int)
    requires IsDensityDraw(draw) && ScanReply(items, found, draw).None?
    ensures forall k :: 0 <= k < |items| ==> DistrictFromItem(items[k], found, draw).None?
  {
    if |items| > 0 {
      var rest := items[1..];
      ScanReplyNone(rest, found, draw);
      assert forall k :: 1 <= k < |items| ==> rest[k - 1] == items[k];
    }
  }

  /** The density rule of the Nominatim search: the value of the first
      table key the name contains, else some `randint(3000, 5000)`. */
  ghost predicate FollowsDensityRule(d: District)
  {
    match DensityKey(d.name, 0)
    case Some(k) => d.density == DensityTable[k].1
    case None => IsDensityDraw(d.density)
  }

  /** The districts collected so far and their names. */
  datatype Progress = Progress(districts: seq<District>, found: set<string>)

  predicate AreDensityDraws(draws: seq<int>)
  {
    forall k :: 0 <= k < |draws| ==> IsDensityDraw(draws[k])
  }

  /** At most four districts with distinct, recorded, non-empty names, each
      well formed. */
  ghost predicate ValidProgress(p: Progress)
  {
    && |p.districts| == |p.found| <= MaxDistricts
    && (forall k :: 0 <= k < |p.districts| ==> p.districts[k].name in p.found)
    && (forall k, l :: 0 <= k < l < |p.districts| ==> p.districts[k].name != p.districts[l].name)
    && (forall k :: 0 <= k < |p.districts| ==> p.districts[k].name != "" && WellFormedDistrict(p.districts[k]))
    && (forall k :: 0 <= k < |p.districts| ==> FollowsDensityRule(p.districts[k]))
  }

  lemma AddDistrict(p: Progress, d: District)
    requires ValidProgress(p) && |p.found| < MaxDistricts
    requires d.name != "" && d.name !in p.found && WellFormedDistrict(d) && FollowsDensityRule(d)
    ensures ValidProgress(Progress(p.districts + [d], p.found + {d.name}))
  {
  }

  /** One search of services.py:97-155 on the state before it: nothing once
      four districts are found or when the request failed, else the reply's
      district, if any, appended. */
  function Advance(p: Progress, reply: Option<seq<NominatimItem>>, draw: int): (q: Progress)
    requires ValidProgress(p) && IsDensityDraw(draw)
    ensures ValidProgress(q)
    ensures |p.found| >= MaxDistricts || reply.None? ==> q == p
    ensures q == p || (|q.districts| == |p.districts| + 1 && q.districts[..|p.districts|] == p.districts)
  {
    if |p.found| >= MaxDistricts then p
    else
      match reply
      case None => p
      case Some(items) =>
        match ScanReply(items, p.found, draw)
        case None => p
        case Some(d) =>
          AddDistrict(p, d);
          assert (p.districts + [d])[..|p.districts|] == p.districts;
          Progress(p.districts + [d], p.found + {d.name})
  }

  /** The state after the first `n` queries; `replies[k]` is the reply to
      `DistrictQueries[k]` and `draws[k]` the `randint` drawn for it. */
  function NominatimProgress(replies: seq<Option<seq<NominatimItem>>>, draws: seq<int>, n: nat): (p: Progress)
    requires n <= |replies| == |draws| && AreDensityDraws(draws)
    ensures ValidProgress(p)
    ensures |p.districts| <= n
  {
    if n == 0 then Progress([], {})
    else Advance(NominatimProgress(replies, draws, n - 1), replies[n - 1], draws[n - 1])
  }

  lemma NominatimHalts(replies: seq<Option<seq<NominatimItem>>>, draws: seq<int>, n: nat)
    requires n < |replies| == |draws| && AreDensityDraws(draws)
    requires |NominatimProgress(replies, draws, n).found| >= MaxDistricts
    ensures NominatimProgress(replies, draws, n + 1) == NominatimProgress(replies, draws, n)
  {
  }

  /** Once four districts are found, later replies change nothing. */
  lemma {:induction false} NominatimSaturates(replies: seq<Option<seq<NominatimItem>>>, draws: seq<int>, n: nat, m: nat)
    requires n <= m <= |replies| == |draws| && AreDensityDraws(draws)
    requires |NominatimProgress(replies, draws, n).found| >= MaxDistricts
    ensures NominatimProgress(replies, draws, m) == NominatimProgress(replies, draws, n)
    decreases m - n
  {
    if n < m {
      NominatimHalts(replies, draws, n);
      NominatimSaturates(replies, draws, n + 1, m);
    }
  }

  /** Each query adds at most one district, to the end: the result keeps
      query order. */
  lemma NominatimStep(replies: seq<Option<seq<NominatimItem>>>, draws: seq<int>, n: nat)
    requires n < |replies| == |draws| && AreDensityDraws(draws)
    ensures var before := NominatimProgress(replies, draws, n).districts;
            var after := NominatimProgress(replies, draws, n + 1).districts;
            after == before || (|after| == |before| + 1 && after[..|before|] == before)
  {
  }

  /** A query whose request failed adds nothing. */
  lemma NominatimFailedQuery(replies: seq<Option<seq<NominatimItem>>>, draws: seq<int>, n: nat)
    requires n < |replies| == |draws| && AreDensityDraws(draws)
    requires replies[n].None?
    ensures NominatimProgress(replies, draws, n + 1) == NominatimProgress(replies, draws, n)
  {
  }

  /** The districts found by the eight searches. */
  function NominatimDistricts(replies: seq<Option<seq<NominatimItem>>>, draws: seq<int>): (ds: seq<District>)
    requires |replies| == |draws| && AreDensityDraws(draws)
    ensures |ds| <= MaxDistricts && |ds| <= |replies|
    ensures forall k, l :: 0 <= k < l < |ds| ==> ds[k].name != ds[l].name
    ensures forall k :: 0 <= k < |ds| ==> ds[k].name != "" && WellFormedDistrict(ds[k])
    ensures forall k :: 0 <= k < |ds| ==> FollowsDensityRule(ds[k])
  {
    NominatimProgress(replies, draws, |replies|).districts
  }

  /** The item loop of services.py:121-149. */
  method ScanItems(items: seq<NominatimItem>, found: set<string>, draw: int) returns (d: Option<District>)
    requires IsDensityDraw(draw)
    ensures d == ScanReply(items, found, draw)
  {
    for j := 0 to |items|
      invariant ScanReply(items, found, draw) == ScanReply(items[j..], found, draw)
    {
      assert items[j..][1..] == items[j + 1..];
      var item := items[j];
      if IsDistrictBoundary(item) {
        var name := ExtractDistrictName(item);
        if name != "" && name !in found && item.geojson.Some? {
          var coords := ConvertGeoJson(item.geojson.value);
          if coords != [] {
            var center := PolygonCenter(coords);
            return Some(District(name, center, DistrictDensity(name, draw), coords, item.osmId));
          }
        }
      }
    }
    return None;
  }

  /** The query loop of services.py:97-155. */
  method DistrictsViaNominatim(replies: seq<Option<seq<NominatimItem>>>, draws: seq<int>) returns (districts: seq<District>)
    requires |replies| == |DistrictQueries| == |draws| && AreDensityDraws(draws)
    ensures districts == NominatimDistricts(replies, draws)
  {
    districts := [];
    var found: set<string> := {};
    var i := 0;
    while i < |DistrictQueries|
      invariant 0 <= i <= |DistrictQueries|
      invariant Progress(districts, found) == NominatimProgress(replies, draws, i)
    {
      if |found| >= MaxDistricts {
        NominatimSaturates(replies, draws, i, |replies|);
        return;
      }
      ghost var before := Progress(districts, found);
      assert NominatimProgress(replies, draws, i + 1) == Advance(before, replies[i], draws[i]);
      if replies[i].Some? {
        var d := ScanItems(replies[i].value, found, draws[i]);
        if d.Some? {
          districts := districts + [d.value];
          found := found + {d.value.name};
        }
      }
      assert Progress(districts, found) == Advance(before, replies[i], draws[i]);
      i := i + 1;
    }
  }

  // ---------------------------------------------------------------------
  // Districts from Overpass: _get_districts_via_overpass
  // ---------------------------------------------------------------------

  const UnknownDistrict := "Неизвестный район"
  const FallbackDensity := 4000

  /** `tags.get('name:ru') or tags.get('name', 'Неизвестный район')`. */
  function RelationName(tags: map<string, string>): (n: string)
    ensures "name:ru" in tags && tags["name:ru"] != "" ==> n == tags["name:ru"]
    ensures ("name:ru" !in tags || tags["name:ru"] == "") ==> n == Tag(tags, "name", UnknownDistrict)
  {
    if "name:ru" in tags && tags["name:ru"] != "" then tags["name:ru"]
    else Tag(tags, "name", UnknownDistrict)
  }

  /** The loop body of services.py:252-267 for one element. */
  function RelationDistrictOf(e: Element): Mapped<District>
  {
    match e.kind
    case None => Raise
    case Some(k) =>
      if k == "relation" && e.tags.Some? then
        match RelationRings(e.geometry)
        case None => Raise
        case Some(rings) =>
          if rings == [] then Skip
          else Keep(District(RelationName(e.tags.value), MeanCenter(rings), FallbackDensity, rings, e.id))
      else Skip
  }

  /** A district of the fallback: one ring, the fixed density. */
  ghost predicate IsFallbackDistrict(d: District)
  {
    WellFormedDistrict(d) && d.density == FallbackDensity && |d.geometry| == 1
  }

  lemma RelationDistrictShape(e: Element)
    requires RelationDistrictOf(e).Keep?
    ensures IsFallbackDistrict(RelationDistrictOf(e).value)
  {
  }

  /** What a fetcher built on the city bounding box returns: nothing when
      the city or its box is unusable or the Overpass request fails,
      otherwise what the element loop collects, or nothing when that loop
      raises. */
  function BoxedQuery<T>(cityReply: Option<seq<NominatimItem>>, reply: Option<seq<Element>>,
                         f: Element -> Mapped<T>): (r: seq<T>)
    ensures CityBBox(CitySelection(cityReply)).None? || reply.None? ==> r == []
    ensures reply.Some? && (exists k :: 0 <= k < |reply.value| && f(reply.value[k]).Raise?) ==> r == []
    ensures CityBBox(CitySelection(cityReply)).Some? && reply.Some? &&
            (forall k :: 0 <= k < |reply.value| ==> !f(reply.value[k]).Raise?) ==>
              r == Kept(reply.value, f)
  {
    if CityBBox(CitySelection(cityReply)).None? || reply.None? then []
    else Collect(reply.value, f).GetOr([])
  }

  /** The districts of the Overpass fallback. */
  function OverpassDistricts(cityReply: Option<seq<NominatimItem>>, reply: Option<seq<Element>>): (ds: seq<District>)
    ensures CityBBox(CitySelection(cityReply)).None? || reply.None? ==> ds == []
    ensures reply.Some? ==> |ds| <= |reply.value|
    ensures forall k :: 0 <= k < |ds| ==> IsFallbackDistrict(ds[k])
  {
    var ds := BoxedQuery(cityReply, reply, RelationDistrictOf);
    assert forall d :: d in ds ==> IsFallbackDistrict(d) by {
      if CityBBox(CitySelection(cityReply)).Some? && reply.Some? {
        var es := reply.value;
        forall d | d in ds
          ensures IsFallbackDistrict(d)
        {
          var k :| 0 <= k < |es| && RelationDistrictOf(es[k]) == Keep(d);
          RelationDistrictShape(es[k]);
        }
      }
    }
    ds
  }

  /** The fallback neither deduplicates nor caps: when every element is a
      usable relation, each becomes a district, even under the same name. */
  lemma OverpassKeepsAll(cityReply: Option<seq<NominatimItem>>, es: seq<Element>)
    requires CityBBox(CitySelection(cityReply)).Some?
    requires forall k :: 0 <= k < |es| ==> RelationDistrictOf(es[k]).Keep?
    ensures |OverpassDistricts(cityReply, Some(es))| == |es|
    ensures forall k :: 0 <= k < |es| ==> OverpassDistricts(cityReply, Some(es))[k] == RelationDistrictOf(es[k]).value
  {
    CollectKeepsEveryRecord(es, RelationDistrictOf);
  }

  /** The body of the element loop of services.py:252-267. */
  method RelationElement(e: Element) returns (m: Mapped<District>)
    ensures m == RelationDistrictOf(e)
  {
    if e.kind.None? {
      return Raise;
    }
    if e.kind.value == "relation" && e.tags.Some? {
      var name := RelationName(e.tags.value);
      var coords := ExtractRelationGeometry(e.geometry);
      if coords.None? {
        return Raise;
      }
      if coords.value != [] {
        var center := PolygonCenter(coords.value);
        return Keep(District(name, center, FallbackDensity, coords.value, e.id));
      }
    }
    return Skip;
  }

  /** services.py:218-273. */
  method DistrictsViaOverpass(cityReply: Option<seq<NominatimItem>>, reply: Option<seq<Element>>)
    returns (districts: seq<District>)
    ensures districts == OverpassDistricts(cityReply, reply)
  {
    var city := GetCityBoundaries(cityReply);
    if CityBBox(city).None? || reply.None? {
      return [];
    }
    var es := reply.value;
    districts := [];
    for k := 0 to |es|
      invariant Collect(es[..k], RelationDistrictOf) == Some(districts)
    {
      CollectStep(es, RelationDistrictOf, k);
      var m := RelationElement(es[k]);
      match m {
        case Raise =>
          return [];
        case Skip =>
        case Keep(d) =>
          districts := districts + [d];
      }
    }
    assert es[..|es|] == es;
  }

  // ---------------------------------------------------------------------
  // get_districts_in_city
  // ---------------------------------------------------------------------

  /** Nominatim's districts when it finds any, the Overpass fallback's
      otherwise. */
  function CityDistricts(replies: seq<Option<seq<NominatimItem>>>, draws: seq<int>,
                         cityReply: Option<seq<NominatimItem>>, overpassReply: Option<seq<Element>>): (ds: seq<District>)
    requires |replies| == |draws| && AreDensityDraws(draws)
    ensures forall k :: 0 <= k < |ds| ==> WellFormedDistrict(ds[k])
    ensures NominatimDistricts(replies, draws) != [] ==> |ds| <= MaxDistricts
  {
    var primary := NominatimDistricts(replies, draws);
    if primary != [] then primary else OverpassDistricts(cityReply, overpassReply)
  }

  /** services.py:53-71. */
  method DistrictsInCity(replies: seq<Option<seq<NominatimItem>>>, draws: seq<int>,
                         cityReply: Option<seq<NominatimItem>>, overpassReply: Option<seq<Element>>)
    returns (districts: seq<District>)
    requires |replies| == |DistrictQueries| == |draws| && AreDensityDraws(draws)
    ensures districts == CityDistricts(replies, draws, cityReply, overpassReply)
  {
    districts := DistrictsViaNominatim(replies, draws);
    if districts == [] {
      districts := DistrictsViaOverpass(cityReply, overpassReply);
    }
  }
}
