/**
 * The element loops of the three Overpass fetchers of
 * building_optimizer/services.py: schools (319-378), residential buildings
 * (381-448) and commercial places (451-540).  Each element becomes a
 * record, is skipped, or raises a `KeyError`; the `except` around each
 * loop turns a raise into an empty result.
 */
module Features {
  import opened Wrappers
  import opened Text
  import opened Geometry
  import opened Osm
  import opened Districts

  datatype School = School(name: string, lat: real, lng: real)

  datatype Residential = Residential(lat: real, lng: real, buildingType: string, intensity: real)

  datatype Commercial = Commercial(lat: real, lng: real, placeType: string, intensity: real, name: string)

  const UnknownSchool := "Неизвестная школа"

  predicate IsWayOrRelation(kind: string)
  {
    kind == "way" || kind == "relation"
  }

  /** `{'lat': m['lat'], 'lng': m[lngKey]}`, raising when a key is absent. */
  function LookupLatLng(m: map<string, real>, lngKey: string): (r: Mapped<LatLng>)
    ensures r.Keep? <==> "lat" in m && lngKey in m
    ensures r.Keep? ==> r.value == LatLng(m["lat"], m[lngKey])
    ensures !r.Keep? ==> r.Raise?
  {
    if "lat" in m && lngKey in m then Keep(LatLng(m["lat"], m[lngKey])) else Raise
  }

  /** Where an element's record is placed: a node at its own `lat`/`lon`,
      a way or relation that has a `center` at that centre's `lat` and
      `centreLngKey`; any other element is skipped.  An element without
      `type` raises. */
  function Placement(e: Element, centreLngKey: string): (r: Mapped<LatLng>)
    ensures e.kind.None? ==> r.Raise?
    ensures e.kind == Some("node") ==> r == LookupLatLng(e.point, "lon")
    ensures e.kind.Some? && IsWayOrRelation(e.kind.value) && e.center.Some? ==>
              r == LookupLatLng(e.center.value, centreLngKey)
    ensures r.Skip? <==>
              e.kind.Some? && e.kind.value != "node" &&
              !(IsWayOrRelation(e.kind.value) && e.center.Some?)
  {
    match e.kind
    case None => Raise
    case Some(k) =>
      if k == "node" then LookupLatLng(e.point, "lon")
      else if IsWayOrRelation(k) && e.center.Some? then LookupLatLng(e.center.value, centreLngKey)
      else Skip
  }

  /** The school record of one element (services.py:357-371). */
  function SchoolOf(e: Element): (r: Mapped<School>)
    ensures r.Keep? <==> Placement(e, "lon").Keep?
    ensures r.Raise? <==> Placement(e, "lon").Raise?
    ensures r.Keep? ==> r.value.lat == Placement(e, "lon").value.lat && r.value.lng == Placement(e, "lon").value.lng
    ensures r.Keep? ==> r.value.name == Tag(TagsOf(e), "name", UnknownSchool)
  {
    match Placement(e, "lon")
    case Raise => Raise
    case Skip => Skip
    case Keep(p) => Keep(School(Tag(TagsOf(e), "name", UnknownSchool), p.lat, p.lng))
  }

  /** `0.8 if building_type == 'apartments' else 0.5`. */
  function BuildingIntensity(buildingType: string): (v: real)
    ensures v == 0.8 <==> buildingType == "apartments"
    ensures v == 0.5 <==> buildingType != "apartments"
  {
    if buildingType == "apartments" then 0.8 else 0.5
  }

  /** The residential record of one element (services.py:420-441); a
      missing `building` tag counts as `residential`. */
  function ResidentialOf(e: Element): (r: Mapped<Residential>)
    ensures r.Keep? <==> Placement(e, "lon").Keep?
    ensures r.Raise? <==> Placement(e, "lon").Raise?
    ensures r.Keep? ==> r.value.lat == Placement(e, "lon").value.lat && r.value.lng == Placement(e, "lon").value.lng
    ensures r.Keep? ==> r.value.buildingType == Tag(TagsOf(e), "building", "residential")
    ensures r.Keep? ==> (r.value.intensity == 0.8 <==> Tag(TagsOf(e), "building", "residential") == "apartments")
  {
    var buildingType := Tag(TagsOf(e), "building", "residential");
    match Placement(e, "lon")
    case Raise => Raise
    case Skip => Skip
    case Keep(p) => Keep(Residential(p.lat, p.lng, buildingType, BuildingIntensity(buildingType)))
  }

  /** `intensity_map` of services.py:497-505 and 514. */
  const CommercialIntensity: map<string, real> := map[
    "mall" := 1.0, "supermarket" := 0.8, "marketplace" := 0.9, "hospital" := 0.7,
    "restaurant" := 0.6, "cafe" := 0.4, "bank" := 0.5]

  /** `intensity_map.get(place_type, 0.5)`. */
  function PlaceIntensity(placeType: string): (v: real)
    ensures placeType in CommercialIntensity ==> v == CommercialIntensity[placeType]
    ensures placeType !in CommercialIntensity ==> v == 0.5
    ensures 0.4 <= v <= 1.0
  {
    if placeType in CommercialIntensity then CommercialIntensity[placeType] else 0.5
  }

  /** `amenity or shop`. */
  function PlaceType(tags: map<string, string>): (t: string)
    ensures Tag(tags, "amenity", "") != "" ==> t == tags["amenity"]
    ensures Tag(tags, "amenity", "") == "" ==> t == Tag(tags, "shop", "")
  {
    var amenity := Tag(tags, "amenity", "");
    if amenity != "" then amenity else Tag(tags, "shop", "")
  }

  /** The commercial record of one element (services.py:507-533).  As in
      the source, the way/relation branch reads the centre's `lng` key,
      which an Overpass `out center` reply does not carry. */
  function CommercialOf(e: Element): (r: Mapped<Commercial>)
    ensures r.Keep? <==> Placement(e, "lng").Keep?
    ensures r.Raise? <==> Placement(e, "lng").Raise?
    ensures r.Keep? ==> r.value.lat == Placement(e, "lng").value.lat && r.value.lng == Placement(e, "lng").value.lng
    ensures r.Keep? ==> r.value.placeType == PlaceType(TagsOf(e)) && r.value.intensity == PlaceIntensity(PlaceType(TagsOf(e)))
    ensures r.Keep? ==> r.value.name == Tag(TagsOf(e), "name", Title(PlaceType(TagsOf(e))))
  {
    var tags := TagsOf(e);
    var placeType := PlaceType(tags);
    match Placement(e, "lng")
    case Raise => Raise
    case Skip => Skip
    case Keep(p) =>
      Keep(Commercial(p.lat, p.lng, placeType, PlaceIntensity(placeType), Tag(tags, "name", Title(placeType))))
  }

  /** A way or relation placed by an Overpass centre, which has `lat` and
      `lon` but no `lng`. */
  predicate HasOverpassCentre(e: Element)
  {
    e.kind.Some? && IsWayOrRelation(e.kind.value) && e.center.Some? &&
    "lat" in e.center.value && "lon" in e.center.value && "lng" !in e.center.value
  }

  /** Such an element gives a school and a residential record, but makes
      the commercial loop raise. */
  lemma CentreKeyMismatch(e: Element)
    requires HasOverpassCentre(e)
    ensures SchoolOf(e).Keep? && ResidentialOf(e).Keep?
    ensures CommercialOf(e).Raise?
  {
  }

  /** The commercial places a fetch returns. */
  function CommercialPlaces(cityReply: Option<seq<NominatimItem>>, reply: Option<seq<Element>>): (cs: seq<Commercial>)
    ensures CityBBox(CitySelection(cityReply)).None? || reply.None? ==> cs == []
    ensures reply.Some? && (exists k :: 0 <= k < |reply.value| && CommercialOf(reply.value[k]).Raise?) ==> cs == []
    ensures CityBBox(CitySelection(cityReply)).Some? && reply.Some? &&
            (forall k :: 0 <= k < |reply.value| ==> !CommercialOf(reply.value[k]).Raise?) ==>
              cs == Kept(reply.value, CommercialOf)
    ensures forall c :: c in cs ==> 0.4 <= c.intensity <= 1.0
  {
    BoxedQuery(cityReply, reply, CommercialOf)
  }

  /** One way or relation with an Overpass centre anywhere in the reply
      empties the whole commercial list, whatever the other elements are. */
  lemma CommercialListLost(cityReply: Option<seq<NominatimItem>>, es: seq<Element>, k: nat)
    requires k < |es| && HasOverpassCentre(es[k])
    ensures CommercialPlaces(cityReply, Some(es)) == []
  {
    CentreKeyMismatch(es[k]);
  }

  /** The schools a fetch returns. */
  function Schools(cityReply: Option<seq<NominatimItem>>, reply: Option<seq<Element>>): (ss: seq<School>)
    ensures reply.Some? ==> |ss| <= |reply.value|
    ensures CityBBox(CitySelection(cityReply)).None? || reply.None? ==> ss == []
    ensures reply.Some? && (exists k :: 0 <= k < |reply.value| && SchoolOf(reply.value[k]).Raise?) ==> ss == []
    ensures CityBBox(CitySelection(cityReply)).Some? && reply.Some? &&
            (forall k :: 0 <= k < |reply.value| ==> !SchoolOf(reply.value[k]).Raise?) ==>
              ss == Kept(reply.value, SchoolOf)
  {
    BoxedQuery(cityReply, reply, SchoolOf)
  }

  /** The residential buildings a fetch returns. */
  function ResidentialBuildings(cityReply: Option<seq<NominatimItem>>, reply: Option<seq<Element>>): (rs: seq<Residential>)
    ensures CityBBox(CitySelection(cityReply)).None? || reply.None? ==> rs == []
    ensures reply.Some? && (exists k :: 0 <= k < |reply.value| && ResidentialOf(reply.value[k]).Raise?) ==> rs == []
    ensures CityBBox(CitySelection(cityReply)).Some? && reply.Some? &&
            (forall k :: 0 <= k < |reply.value| ==> !ResidentialOf(reply.value[k]).Raise?) ==>
              rs == Kept(reply.value, ResidentialOf)
    ensures forall r :: r in rs ==> r.intensity == 0.8 || r.intensity == 0.5
  {
    BoxedQuery(cityReply, reply, ResidentialOf)
  }

  /** When every element is a way or relation with an Overpass centre,
      every element becomes a school at its centre, in order. */
  lemma SchoolsFromCentres(cityReply: Option<seq<NominatimItem>>, es: seq<Element>)
    requires CityBBox(CitySelection(cityReply)).Some?
    requires forall k :: 0 <= k < |es| ==> HasOverpassCentre(es[k])
    ensures |Schools(cityReply, Some(es))| == |es|
    ensures forall k :: 0 <= k < |es| ==>
              HasOverpassCentre(es[k]) &&
              Schools(cityReply, Some(es))[k].lat == es[k].center.value["lat"] &&
              Schools(cityReply, Some(es))[k].lng == es[k].center.value["lon"]
  {
    CollectKeepsEveryRecord(es, SchoolOf);
  }

  /** An element of another type next to a node is skipped, and the node
      still gives its school. */
  lemma SchoolsSkipOtherTypes(cityReply: Option<seq<NominatimItem>>, other: Element, node: Element)
    requires CityBBox(CitySelection(cityReply)).Some?
    requires other.kind.Some? && other.kind.value != "node" && !IsWayOrRelation(other.kind.value)
    requires node.kind == Some("node") && "lat" in node.point && "lon" in node.point
    ensures Schools(cityReply, Some([other, node])) ==
              [School(Tag(TagsOf(node), "name", UnknownSchool), node.point["lat"], node.point["lon"])]
  {
    var es := [other, node];
    assert forall k :: 0 <= k < |es| ==> !SchoolOf(es[k]).Raise?;
    KeptSkips([], other, [node], SchoolOf);
    assert [] + [other] + [node] == es;
    assert [] + [node] == [node];
    KeptSingle(node, SchoolOf);
  }

  /** The part of each fetcher after the city lookup: the bounding-box
      check, then the element loop. */
  method FetchSchools(cityReply: Option<seq<NominatimItem>>, reply: Option<seq<Element>>) returns (schools: seq<School>)
    ensures schools == Schools(cityReply, reply)
  {
    var city := GetCityBoundaries(cityReply);
    if CityBBox(city).None? || reply.None? {
      return [];
    }
    var r := CollectElements(reply.value, SchoolOf);
    schools := r.GetOr([]);
  }

  method FetchResidentialBuildings(cityReply: Option<seq<NominatimItem>>, reply: Option<seq<Element>>)
    returns (buildings: seq<Residential>)
    ensures buildings == ResidentialBuildings(cityReply, reply)
  {
    var city := GetCityBoundaries(cityReply);
    if CityBBox(city).None? || reply.None? {
      return [];
    }
    var r := CollectElements(reply.value, ResidentialOf);
    buildings := r.GetOr([]);
  }

  method FetchCommercialPlaces(cityReply: Option<seq<NominatimItem>>, reply: Option<seq<Element>>)
    returns (places: seq<Commercial>)
    ensures places == CommercialPlaces(cityReply, reply)
  {
    var city := GetCityBoundaries(cityReply);
    if CityBBox(city).None? || reply.None? {
      return [];
    }
    var r := CollectElements(reply.value, CommercialOf);
    places := r.GetOr([]);
  }
}
