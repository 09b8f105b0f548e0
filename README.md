# urbanAI building optimizer: a Dafny model of its data-shaping core

urbanAI suggests where to place a new building in a city (Bishkek, by
default). It takes district polygons and population densities from
OpenStreetMap, and schools, housing and shops from Overpass. It builds a
heatmap from them, keeps the districts in a `PopulationData` table, and asks
Gemini for school details drawn from a registry XML file.

This project models the deterministic part of that pipeline in Dafny:

- `Districts` (`districts.dfy`):
  - picks the city item of a Nominatim reply;
  - admits its bounding box and reorders it into an Overpass filter;
  - normalises district names onto the four canonical Bishkek districts;
  - assigns densities;
  - runs the eight-query Nominatim district search with its stop at four;
  - provides the Overpass fallback.
- `Geometry` (`geometry.dfy`):
  - decodes GeoJSON Polygon and MultiPolygon rings (positions `[lon, lat]`, RFC 7946 section 3.1.1) into `{lat, lng}` rings;
  - turns Overpass `out geom` point lists into rings;
  - computes the vertex-mean district centre.
- `Osm` (`osm.dfy`):
  - holds the reply records;
  - holds the element loop shared by every Overpass fetcher, where a `KeyError` ends the loop and the `except` empties the list.
- `Features` (`features.dfy`): the school, residential and commercial records built from Overpass elements.
- `Heatmap` (`heatmap.dfy`): the gradient heatmap, with 16 points per district, then one per building and one per place.
- `Population` (`population.dfy`): the `PopulationData` table as a class. It holds a map keyed by `(district_name, city)` and the keys in creation order. `get_or_create_population_data` reconciles it with the fetched districts.
- `Gemini` (`gemini.dfy`):
  - `EnhancedGeminiService` as a class holding the truncated XML;
  - Markdown fence removal from the model's reply;
  - the `has_registry_data` annotation and the fallback record;
  - the cruder fence removal of `GeminiService.get_building_suggestion`, modelled for contrast.
- `Text` (`text.dfy`): the Python string builtins the core relies on (`in`, `split`, `replace`, `strip`, `lower`, `title`), with their laws.
- `Wrappers` (`wrappers.dfy`): `Option`.

Network replies, the model's reply, `json.loads`, the random draws and the
trigonometry of random angles are all parameters, as follows:

- A reply is `None` when the request fails, returns a non-2xx status or a body that is not JSON.
- `json.loads` is a partial function returning an `Option`.
- A random draw is a value constrained to the range of its `random.uniform` or `randint` call.

Each imperative piece of the source is a method with loops:

- the Nominatim query loop and its item loop;
- the fetchers' element loops;
- the vertex accumulation of the centre;
- the heatmap loops;
- the table updates.

Each method is proved equal to a specification function. The properties of
the source are proved about those functions.

Points of the code worth knowing, all modelled as written:

- **Bounding box.** The code only checks that there are four numeric entries; it never compares `south` with `north` or `west` with `east` (`Districts.CityBBox`).
- **Heatmap weights.** The code floors only the satellites at 0.1. A centre's weight is `min(density/1000, 2.0)`, which is below 0.1 when the density is under 100 (`Heatmap.LightCentre`). Buildings and places from the fetchers weigh at least 0.3 and 0.32 through their intensities and jitter ranges (`Heatmap.FetchedHeatmapFloor`).
- **Ring sizes.** The code drops positions shorter than 2 and then requires 3 usable points, so a ring can come out shorter than its input (`Geometry.ConvertRingIsUsablePositions`).
- **Commercial centres.** The commercial fetcher reads `center['lng']`, which an Overpass `out center` reply does not carry. The resulting `KeyError` empties the whole commercial list. The model reproduces this (`Features.CentreKeyMismatch`, `Features.CommercialListLost`).

## Model

| member | source | states |
|---|---|---|
| Text.Contains | building_optimizer/services.py:173 | no contract; Python `t in s`, specified by `Text.FindFrom` (an occurrence exists exactly when the search finds one) |
| Text.FindFrom | building_optimizer/services.py:173 | the first occurrence of a substring at or after a start; none before it; no result only when no occurrence exists (Python `in`) |
| Text.Split | building_optimizer/enhanced_gemini_service.py:128 | Python `s.split(sep)`: at least one piece, and two or more exactly when `sep` occurs; further specified by `Text.JoinSplit`, `Text.SplitPiecesFree` and `Text.SplitFirstPieces` |
| Text.JoinSplit | building_optimizer/enhanced_gemini_service.py:128 | joining the pieces of `split(sep)` with `sep` gives back the string |
| Text.SplitPiecesFree | building_optimizer/enhanced_gemini_service.py:128 | no piece of `split(sep)` contains `sep` |
| Text.SplitFirstPieces | building_optimizer/enhanced_gemini_service.py:128-130 | `split(sep)[0]` is the text before the first `sep`, and `split(sep)[1]` the text between the first and second |
| Text.BeforeFirst | building_optimizer/enhanced_gemini_service.py:128 | the text before the first separator is a prefix free of it, followed by the separator when there is one |
| Text.Replace | building_optimizer/services.py:665 | no contract; Python `s.replace(target, replacement)`, specified by `Text.ReplaceAbsent` and `Text.ReplaceOnce` |
| Text.ReplaceAbsent | building_optimizer/services.py:665 | `replace` of a target that does not occur changes nothing |
| Text.ReplaceOnce | building_optimizer/services.py:665 | `replace` of a target that occurs once substitutes exactly that occurrence |
| Text.Strip | building_optimizer/enhanced_gemini_service.py:122 | `strip` keeps the slice between the leading and trailing whitespace; the result neither starts nor ends with whitespace |
| Text.StripUnique | building_optimizer/enhanced_gemini_service.py:122 | whitespace around a core that has no outer whitespace strips to that core |
| Text.StripPadding | building_optimizer/services.py:665 | whitespace added on either side does not change the stripped result; the two fence cleanings agree through it |
| Text.Lower | building_optimizer/services.py:170 | `lower` keeps the length and lowers each letter |
| Text.Title | building_optimizer/services.py:523 | no contract; Python `s.title()`, specified by `Text.TitleChars` |
| Text.TitleChars | building_optimizer/services.py:523 | `title` keeps the length; a cased letter is lowered after a cased character and raised otherwise, the first character counting as following an uncased one; other characters are kept |
| Geometry.ConvertRing | building_optimizer/services.py:198 | a ring whose positions all have two entries converts point by point to `{lat: p[1], lng: p[0]}`, same length |
| Geometry.ConvertRingIsUsablePositions | building_optimizer/services.py:198 | the converted ring is exactly the usable positions, swapped, in their original order |
| Geometry.KeepRing | building_optimizer/services.py:197-200 | at most one ring, of 3 or more points, and that ring is the conversion of the input ring |
| Geometry.PolygonRings | building_optimizer/services.py:195-200 | every ring kept has at least 3 points; at most one ring per input ring |
| Geometry.PolygonRingsProvenance | building_optimizer/services.py:195-200 | every kept ring is the conversion of some input ring |
| Geometry.PolygonRingsAppend | building_optimizer/services.py:195-200 | the rings of a concatenation are the concatenation of the rings |
| Geometry.MultiPolygonRings | building_optimizer/services.py:203-208 | every ring has 3 or more points; further specified by `Geometry.MultiPolygonAppend` and `Geometry.MultiPolygonSingle` |
| Geometry.MultiPolygonAppend | building_optimizer/services.py:203-208 | a MultiPolygon's rings are its polygons' rings, concatenated in order |
| Geometry.MultiPolygonSingle | building_optimizer/services.py:203-208 | a one-polygon MultiPolygon gives that polygon's rings |
| Geometry.GeoJsonRings | building_optimizer/services.py:191-211 | every output ring has at least 3 points; any geometry type other than Polygon and MultiPolygon gives no ring |
| Geometry.AppendPolygonRings | building_optimizer/services.py:195-200 | the ring loop appends exactly the polygon's kept rings |
| Geometry.ConvertGeoJson | building_optimizer/services.py:186-215 | the conversion loop returns the specified rings, each of at least 3 points |
| Geometry.PointsToRing | building_optimizer/services.py:285-287 | a point list converts point by point to `{lat, lng: lon}` exactly when every point has `lat` and `lon` |
| Geometry.RelationRings | building_optimizer/services.py:276-291 | at most one ring; exactly the converted ring when there are 3 or more points all with `lat` and `lon`; the `KeyError` outcome exactly when the first point has both keys and a later one lacks one; no ring when the geometry is absent or empty, the first point lacks a key, or fewer than 3 points all carry both |
| Geometry.ExtractRelationGeometry | building_optimizer/services.py:276-291 | the point loop returns the specified ring, or the `KeyError` outcome |
| Geometry.PolygonCenter | building_optimizer/services.py:294-316 | the accumulation loop returns the vertex mean of the rings, or `(0.0, 0.0)` |
| Geometry.MeanCenter | building_optimizer/services.py:294-316 | no contract; the vertex mean of all rings, (0, 0) when there is no vertex, specified by `Geometry.CenterWithinVertices`, `Geometry.SquareCenter`, `Geometry.RepeatedVertexMovesCenter` and computed by `Geometry.PolygonCenter` |
| Geometry.MeanBounds | building_optimizer/services.py:312-313 | a mean lies between the bounds of the values averaged |
| Geometry.CenterWithinVertices | building_optimizer/services.py:294-316 | the centre lies in every box holding all vertices; it is `(0.0, 0.0)` when there is no vertex |
| Geometry.SquareCenter | building_optimizer/services.py:311-314 | an illustration: the centre of the square with corners (0,0) and (2,2) is (1,1), the baseline for `RepeatedVertexMovesCenter` |
| Geometry.RepeatedVertexMovesCenter | building_optimizer/services.py:302-313 | repeating a vertex moves the centre: it is a vertex mean, not an area centroid |
| Osm.Tag | building_optimizer/services.py:360 | `tags.get(key, default)` |
| Osm.Kept | building_optimizer/services.py:357-374 | the reference filter: no more records than elements, each the kept value of some element |
| Osm.KeptAppend | building_optimizer/services.py:357-374 | the filter of a concatenation is the concatenation of the filters |
| Osm.KeptSkips | building_optimizer/services.py:357-374 | a skipped element leaves no record and no gap, wherever it stands |
| Osm.Collect | building_optimizer/services.py:357-378 | the element loop yields nothing exactly when some element raises; otherwise exactly the kept values in element order (`Kept`) |
| Osm.CollectKeepsEveryRecord | building_optimizer/services.py:357-374 | when every element is kept, record `k` is element `k`'s record |
| Osm.CollectElements | building_optimizer/services.py:357-378 | the element loop with its `except` computes the specified list |
| Districts.FirstCandidate | building_optimizer/services.py:36-42 | the first item, in list order, that is an `admin_level` 4 boundary relation or a city, town or village |
| Districts.CitySelection | building_optimizer/services.py:35-47 | the first candidate if any, else `data[0]`; nothing only for an empty reply or a failed request |
| Districts.GetCityBoundaries | building_optimizer/services.py:30-50 | the selection loop returns the specified item |
| Districts.CityBBox | building_optimizer/services.py:226-233 | a box exactly when there are four numeric entries, read as south, north, west and east |
| Districts.OverpassFilter | building_optimizer/services.py:237 | no contract; the `(south,west,north,east)` suffix, specified by `Districts.OverpassFilterReorders` |
| Districts.OverpassFilterReorders | building_optimizer/services.py:237 | the filter is `(south, west, north, east)` of Nominatim's `[south, north, west, east]` |
| Districts.CanonicalFor | building_optimizer/services.py:174-181 | the `if`/`elif` chain gives only canonical names; each pattern's own name is given by `Districts.PatternCanonicalNames` |
| Districts.SearchText | building_optimizer/services.py:170 | no contract; `(display_name + ' ' + name).lower()`, used by `Districts.DistrictNameFirstMatch` and `Districts.DistrictNameNoMatch` |
| Districts.MatchPatterns | building_optimizer/services.py:172-181 | the pattern scan yields only canonical district names |
| Districts.PatternCanonicalNames | building_optimizer/services.py:163-181 | each of the eight patterns maps to its own canonical district through the keyword chain |
| Districts.DistrictNameOf | building_optimizer/services.py:158-183 | the result is one of the four canonical names or the item's raw `name` |
| Districts.DistrictNameFirstMatch | building_optimizer/services.py:170-181 | the first pattern, in list order, found in the lowered `display_name + ' ' + name` decides the name |
| Districts.DistrictNameNoMatch | building_optimizer/services.py:183 | with no pattern found, the name is the raw `name` |
| Districts.ExtractDistrictName | building_optimizer/services.py:158-183 | the early-return loop computes the specified name |
| Districts.DensityKey | building_optimizer/services.py:136 | the first table key, in table order, that occurs in the name |
| Districts.DistrictDensity | building_optimizer/services.py:136-137 | the key's value (3000, 3800, 4500 or 5200), else the draw from `randint(3000, 5000)` |
| Districts.DensityByFirstKey | building_optimizer/services.py:136-137 | the first key found decides the density |
| Districts.LeninskyDensity | building_optimizer/services.py:89-94 | Ленинский район has density 4500 |
| Districts.OktyabrskyDensity | building_optimizer/services.py:89-94 | Октябрьский район has density 3800 |
| Districts.PervomaiskyDensity | building_optimizer/services.py:89-94 | Первомайский район has density 5200 |
| Districts.SverdlovskyDensity | building_optimizer/services.py:89-94 | Свердловский район has density 3000 |
| Districts.DistrictFromItem | building_optimizer/services.py:121-147 | no contract; the loop body for one Nominatim item, specified by `Districts.ScanReply`, `Districts.ScanReplyFirst` and `Districts.ScanReplyNone` |
| Districts.ScanReply | building_optimizer/services.py:121-149 | a district found in a reply has a new non-empty name, non-empty geometry of rings of 3 or more points, its vertex-mean centre, and the density rule's value |
| Districts.ScanReplyFirst | building_optimizer/services.py:121-149 | the reply's district is that of its first item yielding one |
| Districts.ScanReplyNone | building_optimizer/services.py:121-149 | a reply yields no district only when no item does |
| Districts.ScanItems | building_optimizer/services.py:121-149 | the item loop with its `break` returns the specified district |
| Districts.Advance | building_optimizer/services.py:99-153 | one query changes nothing once four districts are found or when it fails; otherwise it appends at most one district |
| Districts.NominatimProgress | building_optimizer/services.py:97-153 | after any number of queries: at most four districts, pairwise distinct, recorded in the found set, each well formed and following the density rule |
| Districts.NominatimHalts | building_optimizer/services.py:100-101 | a query made with four districts found changes nothing |
| Districts.NominatimSaturates | building_optimizer/services.py:100-101 | once four districts are found, no later query changes the result |
| Districts.NominatimStep | building_optimizer/services.py:139-149 | each query adds at most one district, at the end, so the result is in query order |
| Districts.NominatimFailedQuery | building_optimizer/services.py:151-153 | a failed query adds nothing |
| Districts.NominatimDistricts | building_optimizer/services.py:97-155 | at most four districts and at most one per query, with distinct non-empty names, non-empty geometry and the density rule |
| Districts.DistrictsViaNominatim | building_optimizer/services.py:97-155 | the query loop with its stop at four computes the specified districts |
| Districts.RelationName | building_optimizer/services.py:254 | `name:ru` if non-empty, else `name`, else `Неизвестный район` |
| Districts.RelationDistrictShape | building_optimizer/services.py:252-267 | a fallback district has density 4000 and one ring of 3 or more points |
| Districts.RelationDistrictOf | building_optimizer/services.py:252-267 | no contract; the loop body for one Overpass element, specified by `Districts.RelationDistrictShape` and `Districts.OverpassKeepsAll` |
| Districts.BoxedQuery | building_optimizer/services.py:319-378 | no records without a city box or a reply, none when some element raises, otherwise exactly the kept records (`Osm.Kept`) in element order |
| Districts.OverpassDistricts | building_optimizer/services.py:218-273 | no districts without a usable box or reply; no more districts than elements; every one a fallback district |
| Districts.OverpassKeepsAll | building_optimizer/services.py:252-269 | without a cap or dedupe, every usable relation becomes district `k`, in order |
| Districts.DistrictsViaOverpass | building_optimizer/services.py:218-273 | the fallback's element loop computes the specified districts |
| Districts.CityDistricts | building_optimizer/services.py:53-71 | the Nominatim districts if any (then at most four), else the Overpass ones; every district well formed |
| Districts.DistrictsInCity | building_optimizer/services.py:53-71 | `get_districts_in_city` computes the specified districts |
| Features.LookupLatLng | building_optimizer/services.py:361-362 | a pair exactly when both keys are present, otherwise the `KeyError` outcome |
| Features.Placement | building_optimizer/services.py:358-371 | a node at its `lat`/`lon`; a way or relation only with a `center`; anything else skipped; no `type` raises |
| Features.SchoolOf | building_optimizer/services.py:357-371 | a school at the element's placement, named by its `name` tag or `Неизвестная школа` |
| Features.BuildingIntensity | building_optimizer/services.py:424 | 0.8 exactly for `apartments`, else 0.5 |
| Features.ResidentialOf | building_optimizer/services.py:420-441 | a building at the element's placement; intensity 0.8 exactly when its `building` tag (default `residential`) is `apartments` |
| Features.PlaceType | building_optimizer/services.py:513 | `amenity` if non-empty, else `shop` |
| Features.PlaceIntensity | building_optimizer/services.py:514 | the table value, default 0.5; always between 0.4 and 1.0 |
| Features.CommercialOf | building_optimizer/services.py:507-533 | a place at its placement, reading the centre's `lng`; its type, intensity and name as specified |
| Features.CentreKeyMismatch | building_optimizer/services.py:525-528 | an element with an Overpass centre gives a school and a building, but makes the commercial loop raise |
| Features.CommercialListLost | building_optimizer/services.py:525-540 | one such element anywhere empties the whole commercial list |
| Features.CommercialPlaces | building_optimizer/services.py:451-540 | no places without a box or a reply, or when some element raises; otherwise exactly the kept place records in element order; every intensity is between 0.4 and 1.0 |
| Features.Schools | building_optimizer/services.py:319-378 | no schools without a box or a reply, or when some element raises; otherwise exactly the kept school records in element order; never more schools than elements |
| Features.SchoolsSkipOtherTypes | building_optimizer/services.py:358-371 | an element of another type beside a node is skipped, and the node still gives its school |
| Features.ResidentialBuildings | building_optimizer/services.py:381-448 | no buildings without a box or a reply, or when some element raises; otherwise exactly the kept building records in element order; every intensity is 0.8 or 0.5 |
| Features.SchoolsFromCentres | building_optimizer/services.py:365-371 | way and relation elements with centres each give a school at that centre, in order |
| Features.FetchSchools | building_optimizer/services.py:319-378 | the fetcher after the city lookup returns the specified schools |
| Features.FetchResidentialBuildings | building_optimizer/services.py:381-448 | the fetcher returns the specified buildings |
| Features.FetchCommercialPlaces | building_optimizer/services.py:451-540 | the fetcher returns the specified places |
| Heatmap.CentreWeight | building_optimizer/services.py:554 | `min(density/1000, 2.0)`: 2.0 from density 2000 on, else density/1000 |
| Heatmap.CentreWeightMonotone | building_optimizer/services.py:554 | a denser district never has a lighter centre |
| Heatmap.LightCentre | building_optimizer/services.py:554-561 | a district of density 50 has a centre weight below 0.1 |
| Heatmap.Attenuation | building_optimizer/services.py:574-575 | the distance falloff times the random factor lies in [0, 0.72] |
| Heatmap.SatelliteWeight | building_optimizer/services.py:575-580 | every satellite weight is at least 0.1 |
| Heatmap.SatelliteWeightBound | building_optimizer/services.py:574-580 | a satellite weighs at most `max(0.72 * centre, 0.1)`, and exactly 0.1 for a non-positive centre |
| Heatmap.SatelliteOnCircle | building_optimizer/services.py:566-571 | each satellite lies on the circle of its drawn radius around the centre |
| Heatmap.ResidentialPoint | building_optimizer/services.py:584-593 | a building's point keeps its coordinates and weighs at most 2.0, and at least 0.3 for an intensity of at least 0.5 and a draw of at least 0.6 |
| Heatmap.CommercialPoint | building_optimizer/services.py:596-604 | a place's point keeps its coordinates and weighs at most 2.5, and at least 0.32 for an intensity of at least 0.4 and a draw of at least 0.8 |
| Heatmap.Satellites | building_optimizer/services.py:564-581 | one satellite point per draw; further specified by `Heatmap.SatellitesAt` |
| Heatmap.SatellitesAt | building_optimizer/services.py:564-581 | satellite `j` is built from draw `j` |
| Heatmap.Cluster | building_optimizer/services.py:548-581 | a district gives its centre point followed by one point per satellite draw |
| Heatmap.Clusters | building_optimizer/services.py:548-581 | one cluster per district, each of 16 points when the draws are well formed; placed by `Heatmap.HeatmapDistrictLayout` |
| Heatmap.ClusterWeights | building_optimizer/services.py:554-581 | every point of a cluster weighs at most 2.0, and at least 0.1 when the density is 100 or more |
| Heatmap.HeatmapPoints | building_optimizer/services.py:543-607 | `16·districts + buildings + places` points: the clusters, then the buildings' points, then the places', each in input order |
| Heatmap.HeatmapDistrictLayout | building_optimizer/services.py:548-581 | point `16k` is district `k`'s centre, and point `16k+1+j` its satellite `j` |
| Heatmap.HeatmapWeights | building_optimizer/services.py:548-604 | every weight is at most 2.5; those before the places at most 2.0; district points at least 0.1 when the density is 100 or more; a building of intensity at least 0.5 at least 0.3; a place of intensity at least 0.4 at least 0.32 |
| Heatmap.FetchedHeatmapFloor | building_optimizer/services.py:548-604 | with the fetchers' buildings and places and districts of density 100 or more, every weight is at least 0.1 |
| Heatmap.ClusterPoints | building_optimizer/services.py:548-581 | the 15-step satellite loop builds the specified cluster |
| Heatmap.GenerateHeatmap | building_optimizer/services.py:543-607 | the three loops build the specified point list |
| Population.Created | building_optimizer/services.py:696-700 | a created row is keyed by the district's name and the city |
| Population.Reconcile | building_optimizer/services.py:702-707 | a reconciled row keeps its key and takes the fetched density |
| Population.Upsert | building_optimizer/services.py:693-707 | the district's row ends with the fetched density; other keys and rows are untouched; creation order only grows; the table invariant is kept |
| Population.UpsertAll | building_optimizer/services.py:692-707 | every fetched district has a row; the invariant is kept |
| Population.UpsertAllOthers | building_optimizer/services.py:692-707 | a key no fetched district names keeps its row, or its absence |
| Population.UpsertAllLastDensity | building_optimizer/services.py:692-707 | a district's row ends with the density of the last fetched district of that name |
| Population.UpsertCreates | building_optimizer/services.py:693-700 | an absent key gets a row from the district's own values, listed last |
| Population.UpsertOverwrites | building_optimizer/services.py:702-707 | a row whose density differs takes the fetched density, lat and lng, and keeps its place |
| Population.UpsertIgnoresCoordinates | building_optimizer/services.py:702-703 | a row with the same density is left alone, whatever its coordinates |
| Population.ToResponse | building_optimizer/services.py:709-717 | a response entry copies the row and the given geometry |
| Population.FetchedResponse | building_optimizer/services.py:692-717 | one response entry per fetched district |
| Population.FetchedResponseAt | building_optimizer/services.py:709-717 | entry `i` reports district `i`'s name, the city, its density and its geometry |
| Population.StoredRows | building_optimizer/services.py:719-729 | only the city's stored rows, with empty geometry |
| Population.StoredRowsComplete | building_optimizer/services.py:719-729 | every stored row of the city is listed |
| Population.Response | building_optimizer/services.py:684-731 | no contract; the list returned, specified by `Population.ResponseShape`, `Population.FetchedResponseAt`, `Population.StoredRowsComplete` and `Population.PopulationStore.GetOrCreate` |
| Population.ResponseShape | building_optimizer/services.py:684-731 | with nothing fetched, the table is unchanged and the stored rows are returned; otherwise one entry per district |
| Population.PopulationStore.UpsertDistrict | building_optimizer/services.py:693-707 | `get_or_create` and the conditional update leave the table as specified and return the stored row |
| Population.PopulationStore.StoredResponse | building_optimizer/services.py:719-729 | the loop over the stored rows returns the specified list |
| Population.PopulationStore.UpsertFetched | building_optimizer/services.py:692-717 | the district loop updates the table and builds the response as specified |
| Population.PopulationStore.GetOrCreate | building_optimizer/services.py:684-731 | the whole operation keeps the table invariant and yields the specified table and response |
| Gemini.TruncateXml | building_optimizer/enhanced_gemini_service.py:42-44 | text over 800000 characters becomes its first 800000 followed by `\n</root>`; shorter text is unchanged |
| Gemini.LoadXml | building_optimizer/enhanced_gemini_service.py:17-55 | XML exactly when the file could be read, and then the truncated text |
| Gemini.HasXml | building_optimizer/enhanced_gemini_service.py:62 | no contract; `self.xml_data` is truthy, used by `Gemini.SchoolInfoFallback` and `Gemini.EnhancedGeminiService.GenerateEnhancedSchoolInfo` |
| Gemini.StripFences | building_optimizer/enhanced_gemini_service.py:122-130 | no contract; the reply cleaning, specified by `Gemini.JsonFencePayload`, `Gemini.PlainFencePayload`, `Gemini.NoFenceUnchanged`, `Gemini.FencesRemoved` and `Gemini.OtherTagStays` |
| Gemini.JsonFencePayload | building_optimizer/enhanced_gemini_service.py:127-128 | with a json fence, the payload is the text after the first ```` ```json ````, cut at the next ```` ```json ````, then at the first ```` ``` ````, and stripped |
| Gemini.PlainFencePayload | building_optimizer/enhanced_gemini_service.py:129-130 | with only plain fences, the payload is the stripped text between the first and second fence, or to the end |
| Gemini.NoFenceUnchanged | building_optimizer/enhanced_gemini_service.py:122-130 | a reply with no fence is only stripped |
| Gemini.FencesRemoved | building_optimizer/enhanced_gemini_service.py:127-130 | a fenced reply's payload holds no fence |
| Gemini.OtherTagStays | building_optimizer/enhanced_gemini_service.py:129-130 | a language tag other than json stays in the payload |
| Gemini.EnhancedOnJsonBlock | building_optimizer/enhanced_gemini_service.py:127-128 | a json block's payload is its stripped body |
| Gemini.CrudeStrip | building_optimizer/services.py:665 | no contract; the blind fence replacements, specified by `Gemini.CrudeOnJsonBlock`, `Gemini.CleaningsAgree` and `Gemini.CrudeKeepsOtherFence` |
| Gemini.CrudeOnJsonBlock | building_optimizer/services.py:665 | the blind replacements also turn a json block into its stripped body |
| Gemini.CleaningsAgree | building_optimizer/services.py:665 | on a json block the two cleanings agree |
| Gemini.CrudeKeepsOtherFence | building_optimizer/services.py:665 | on a block with another tag the blind replacements leave a fence, which the enhanced cleaning removes |
| Gemini.Found | building_optimizer/enhanced_gemini_service.py:144 | `found` if present, else false |
| Gemini.Annotate | building_optimizer/enhanced_gemini_service.py:144 | a parsed object gains `has_registry_data` equal to its `found`; its other fields are untouched; a non-object is not annotated |
| Gemini.Fallback | building_optimizer/enhanced_gemini_service.py:158-170 | the nine fixed fields, `has_registry_data` false, a text description |
| Gemini.FallbackNamesSchool | building_optimizer/enhanced_gemini_service.py:168 | the description contains the school name |
| Gemini.SchoolInfo | building_optimizer/enhanced_gemini_service.py:57-156 | the result is always an object carrying `has_registry_data` |
| Gemini.SchoolInfoFallback | building_optimizer/enhanced_gemini_service.py:57-156 | no XML, a failed call, a payload that does not parse or a non-object payload gives the fallback record |
| Gemini.SchoolInfoParsed | building_optimizer/enhanced_gemini_service.py:135-151 | a parsed object is returned annotated: exactly its keys plus `has_registry_data`, that key equal to its `found`, its other fields unchanged |
| Gemini.EnhancedGeminiService.constructor | building_optimizer/enhanced_gemini_service.py:10-15 | the service holds the loaded, truncated XML |
| Gemini.EnhancedGeminiService.GenerateEnhancedSchoolInfo | building_optimizer/enhanced_gemini_service.py:57-156 | the model is contacted exactly when XML is loaded; the result is the specified record |

## Left out

- **HTTP and throttling.** The HTTP requests to Nominatim and Overpass, `raise_for_status`, the headers and the `time.sleep` throttling are left out. Each reply is a parameter, and `None` stands for any failure.
- **Gemini calls.** The Gemini client set-up, including the `GEMINI_API_KEY` check that raises `ValueError` (building_optimizer/enhanced_gemini_service.py:10-14, building_optimizer/services.py:613-617), is left out. So is the model call itself. The model's reply is a parameter.
- **Prompts.** The prompt texts (building_optimizer/enhanced_gemini_service.py:67-117, building_optimizer/services.py:622-661) are left out. They only reach the model.
- **Building suggestion.** `GeminiService.get_building_suggestion` is modelled only for its fence removal at line 665. Its parse and its error record (building_optimizer/services.py:667-677) are not modelled.
- **JSON parsing.** `json.loads` is the parameter `parse`, a partial function. JSON object key order is not modelled: objects are maps.
- **Random draws and trigonometry.** `random.uniform`, `random.randint`, `math.cos` and `math.sin` are parameters. Each is constrained to the range its call gives.
- **Floating point.** Coordinates, weights and intensities are `real`, so IEEE rounding is not modelled.
- **Heatmap.Attenuation:** the satellite weight is computed as `centre * (falloff * factor)`. The source computes `(centre * falloff) * factor`. The two are equal over reals and may differ in the last bit of a float.
- **Case mapping.** `Text.Lower`, `Text.UpperChar` and `Text.Title` cover only ASCII and the Cyrillic letters used in Russian and Kyrgyz. Other Unicode case mappings and `title`'s rules for other scripts are left out.
- **XML loading.** Reading the XML file (`os.path.exists`, `open`) is left out: the file's contents are a parameter, `None` when absent or unreadable. Counting the `<org_N>` elements is left out; it only feeds the log.
- **Exceptions on malformed input.** The `except` around `_convert_geojson_to_googlemaps` (building_optimizer/services.py:213-215) is left out. So are the `isinstance` checks at building_optimizer/services.py:283-284 and 304-309. Replies are typed records here, so these cannot fail or differ. The `[lat, lng]` list fallback at building_optimizer/services.py:307-309 never applies, because every ring holds `{lat, lng}` points.
- **Bounding-box entries.** `float(bbox[k])` is modelled by the entries' types: an entry is a number, or `None` for text that `float` rejects.
- **Population table.** The Django ORM, `save()` and the lazy evaluation of `existing_data` are left out. The model assumes the following:
  - `(district_name, city)` is unique;
  - `PopulationData.objects.filter(city=city)` lists rows in creation order;
  - when nothing is fetched the table is unchanged, which is why reading the stored rows after the loop gives the same result as reading them before it.
- **Logging.** `print` and `traceback` logging is left out; it has no effect on any result.
- **Other files.** `views.py`, `advanced_analysis.py`, `gemini_service.py`, the models, admin, URL configuration, the seeding command and `run.py` are not part of this model.
