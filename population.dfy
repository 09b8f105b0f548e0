/**
 * `PopulationService.get_or_create_population_data`
 * (building_optimizer/services.py:684-731): the `PopulationData` table as a
 * store of rows keyed by `(district_name, city)`, reconciled with the
 * districts just fetched for one city.  The table lists its rows in the
 * order they were created.
 */
module Population {
  import opened Geometry
  import opened Districts

  /** `(district_name, city)`, the lookup of `get_or_create`. */
  type Key = (string, string)

  /** One `PopulationData` row. */
  datatype Row = Row(districtName: string, lat: real, lng: real, density: int, city: string)

  /** One entry of `population_data_for_response`. */
  datatype ResponseRow = ResponseRow(
    districtName: string, name: string, lat: real, lng: real, density: int, city: string,
    geometry: seq<Ring>)

  /** The rows, and the keys in creation order. */
  datatype Table = Table(rows: map<Key, Row>, order: seq<Key>)

  function KeyOf(r: Row): Key
  {
    (r.districtName, r.city)
  }

  /** Every key is listed once, every listed key has a row, and every row
      is stored under its own name and city. */
  ghost predicate ValidTable(t: Table)
  {
    (forall i, j :: 0 <= i < j < |t.order| ==> t.order[i] != t.order[j]) &&
    (forall k :: k in t.rows <==> k in t.order) &&
    (forall k :: k in t.rows ==> KeyOf(t.rows[k]) == k)
  }

  /** The `defaults` of `get_or_create`. */
  function Created(city: string, d: District): (r: Row)
    ensures KeyOf(r) == (d.name, city)
  {
    Row(d.name, d.center.lat, d.center.lng, d.density, city)
  }

  /** An existing row meets a fetched district: density, lat and lng are
      overwritten only when the density differs. */
  function Reconcile(r: Row, d: District): (u: Row)
    ensures KeyOf(u) == KeyOf(r) && u.density == d.density
  {
    if r.density != d.density then r.(density := d.density, lat := d.center.lat, lng := d.center.lng) else r
  }

  /** The database side of one iteration of the loop at services.py:692-707. */
  function Upsert(t: Table, city: string, d: District): (u: Table)
    ensures (d.name, city) in u.rows && u.rows[(d.name, city)].density == d.density
    ensures forall k :: k != (d.name, city) ==>
              (k in u.rows <==> k in t.rows) && (k in t.rows ==> u.rows[k] == t.rows[k])
    ensures t.order <= u.order
    ensures ValidTable(t) ==> ValidTable(u)
  {
    var k := (d.name, city);
    if k in t.rows then Table(t.rows[k := Reconcile(t.rows[k], d)], t.order)
    else Table(t.rows[k := Created(city, d)], t.order + [k])
  }

  /** The table after the loop over every fetched district. */
  function UpsertAll(t: Table, city: string, ds: seq<District>): (u: Table)
    ensures forall i :: 0 <= i < |ds| ==> (ds[i].name, city) in u.rows
    ensures t.order <= u.order
    ensures ValidTable(t) ==> ValidTable(u)
  {
    if |ds| == 0 then t
    else
      var n := |ds| - 1;
      var prev := UpsertAll(t, city, ds[..n]);
      assert forall i :: 0 <= i < n ==> ds[..n][i] == ds[i];
      Upsert(prev, city, ds[n])
  }

  lemma UpsertAllLast(t: Table, city: string, ds: seq<District>)
    requires |ds| > 0
    ensures UpsertAll(t, city, ds) == Upsert(UpsertAll(t, city, ds[..|ds| - 1]), city, ds[|ds| - 1])
  {
  }

  /** A key no fetched district names keeps its row, or its absence. */
  lemma {:induction false} UpsertAllOthers(t: Table, city: string, ds: seq<District>, k: Key)
    requires forall i :: 0 <= i < |ds| ==> (ds[i].name, city) != k
    ensures k in UpsertAll(t, city, ds).rows <==> k in t.rows
    ensures k in t.rows ==> UpsertAll(t, city, ds).rows[k] == t.rows[k]
  {
    if |ds| > 0 {
      var n := |ds| - 1;
      var prefix := ds[..n];
      assert forall i :: 0 <= i < n ==> prefix[i] == ds[i];
      UpsertAllOthers(t, city, prefix, k);
      UpsertAllLast(t, city, ds);
    }
  }

  /** A fetched district's row ends with the density of the last fetched
      district of that name. */
  lemma {:induction false} UpsertAllLastDensity(t: Table, city: string, ds: seq<District>, i: nat)
    requires i < |ds|
    requires forall j :: i < j < |ds| ==> ds[j].name != ds[i].name
    ensures UpsertAll(t, city, ds).rows[(ds[i].name, city)].density == ds[i].density
  {
    var n := |ds| - 1;
    if i < n {
      assert forall j :: 0 <= j < n ==> ds[..n][j] == ds[j];
      UpsertAllLastDensity(t, city, ds[..n], i);
    }
  }

  /** A district not yet stored gets a new row from its own values, listed
      last. */
  lemma UpsertCreates(t: Table, city: string, d: District)
    requires (d.name, city) !in t.rows
    ensures Upsert(t, city, d).rows[(d.name, city)] == Row(d.name, d.center.lat, d.center.lng, d.density, city)
    ensures Upsert(t, city, d).order == t.order + [(d.name, city)]
  {
  }

  /** A stored row whose density differs takes the fetched density and
      coordinates; the row keeps its place in the order. */
  lemma UpsertOverwrites(t: Table, city: string, d: District)
    requires (d.name, city) in t.rows && t.rows[(d.name, city)].density != d.density
    ensures Upsert(t, city, d).rows[(d.name, city)].lat == d.center.lat
    ensures Upsert(t, city, d).rows[(d.name, city)].lng == d.center.lng
    ensures Upsert(t, city, d).order == t.order
  {
  }

  /** A stored row whose density is unchanged is left alone, however its
      coordinates differ from the fetched ones. */
  lemma UpsertIgnoresCoordinates(t: Table, city: string, d: District)
    requires (d.name, city) in t.rows && t.rows[(d.name, city)].density == d.density
    ensures Upsert(t, city, d) == t
  {
    var k := (d.name, city);
    assert t.rows[k := t.rows[k]] == t.rows;
  }

  function ToResponse(r: Row, geometry: seq<Ring>): (x: ResponseRow)
    ensures x.districtName == r.districtName && x.name == r.districtName && x.city == r.city
    ensures x.lat == r.lat && x.lng == r.lng && x.density == r.density && x.geometry == geometry
  {
    ResponseRow(r.districtName, r.districtName, r.lat, r.lng, r.density, r.city, geometry)
  }

  /** The response rows of the fetched districts: the row as it stands
      after the district's own update, with the district's geometry. */
  function FetchedResponse(t: Table, city: string, ds: seq<District>): (xs: seq<ResponseRow>)
    ensures |xs| == |ds|
  {
    if |ds| == 0 then []
    else
      var n := |ds| - 1;
      FetchedResponse(t, city, ds[..n]) + [ToResponse(UpsertAll(t, city, ds).rows[(ds[n].name, city)], ds[n].geometry)]
  }

  /** Response row `i` reports fetched district `i`: its name, the city,
      its density and its geometry. */
  lemma {:induction false} FetchedResponseAt(t: Table, city: string, ds: seq<District>, i: nat)
    requires ValidTable(t) && i < |ds|
    ensures var x := FetchedResponse(t, city, ds)[i];
            x.districtName == ds[i].name && x.name == ds[i].name && x.city == city &&
            x.density == ds[i].density && x.geometry == ds[i].geometry
  {
    var n := |ds| - 1;
    if i < n {
      FetchedResponseAt(t, city, ds[..n], i);
      assert ds[..n][i] == ds[i];
    } else {
      var u := UpsertAll(t, city, ds);
      assert KeyOf(u.rows[(ds[n].name, city)]) == (ds[n].name, city);
    }
  }

  /** `PopulationData.objects.filter(city=city)` as response rows with no
      geometry, in table order. */
  function StoredRows(order: seq<Key>, rows: map<Key, Row>, city: string): (xs: seq<ResponseRow>)
    ensures |xs| <= |order|
    ensures forall x :: x in xs ==> x.city == city && x.geometry == []
    ensures forall x :: x in xs ==> exists k :: k in rows && x == ToResponse(rows[k], [])
  {
    if |order| == 0 then []
    else
      var n := |order| - 1;
      var k := order[n];
      StoredRows(order[..n], rows, city) + (if k in rows && rows[k].city == city then [ToResponse(rows[k], [])] else [])
  }

  /** Every stored row of the city is in the fallback response. */
  lemma {:induction false} StoredRowsComplete(order: seq<Key>, rows: map<Key, Row>, city: string, j: nat)
    requires j < |order| && order[j] in rows && rows[order[j]].city == city
    ensures ToResponse(rows[order[j]], []) in StoredRows(order, rows, city)
  {
    var n := |order| - 1;
    if j < n {
      StoredRowsComplete(order[..n], rows, city, j);
    }
  }

  /** What `get_or_create_population_data` returns. */
  function Response(t: Table, city: string, ds: seq<District>): seq<ResponseRow>
    requires ValidTable(t)
  {
    if |ds| == 0 then StoredRows(t.order, t.rows, city) else FetchedResponse(t, city, ds)
  }

  /** With nothing fetched the table is unchanged and the response lists the
      city's stored rows with empty geometry; with something fetched, one
      response row per fetched district, in order. */
  lemma ResponseShape(t: Table, city: string, ds: seq<District>)
    requires ValidTable(t)
    ensures |ds| == 0 ==> UpsertAll(t, city, ds) == t && Response(t, city, ds) == StoredRows(t.order, t.rows, city)
    ensures |ds| > 0 ==> |Response(t, city, ds)| == |ds|
  {
  }

  /** The `PopulationData` table. */
  class PopulationStore {
    var rows: map<Key, Row>
    var order: seq<Key>

    function Contents(): Table
      reads this
    {
      Table(rows, order)
    }

    ghost predicate Valid()
      reads this
    {
      ValidTable(Contents())
    }

    constructor()
      ensures Valid() && rows == map[] && order == []
    {
      rows := map[];
      order := [];
    }

    /** The database side of one iteration of services.py:692-707: the row
        `get_or_create` returns, after any update. */
    method UpsertDistrict(city: string, d: District) returns (row: Row)
      requires Valid()
      modifies this
      ensures Valid()
      ensures Contents() == Upsert(old(Contents()), city, d)
      ensures row == rows[(d.name, city)]
    {
      var key := (d.name, city);
      if key in rows {
        row := rows[key];
        if row.density != d.density {
          row := row.(density := d.density, lat := d.center.lat, lng := d.center.lng);
          rows := rows[key := row];
        }
      } else {
        row := Row(d.name, d.center.lat, d.center.lng, d.density, city);
        rows := rows[key := row];
        order := order + [key];
      }
    }

    /** The loop at services.py:719-729 over the city's stored rows. */
    method StoredResponse(city: string) returns (response: seq<ResponseRow>)
      ensures response == StoredRows(order, rows, city)
    {
      response := [];
      for j := 0 to |order|
        invariant response == StoredRows(order[..j], rows, city)
      {
        var k := order[j];
        assert order[..j + 1][..j] == order[..j];
        if k in rows && rows[k].city == city {
          var r := rows[k];
          response := response + [ResponseRow(r.districtName, r.districtName, r.lat, r.lng, r.density, r.city, [])];
        }
      }
      assert order[..|order|] == order;
    }

    /** The loop at services.py:692-717 over the fetched districts: one
        response row per district, from the row as it stands after that
        district's update. */
    method UpsertFetched(city: string, fetched: seq<District>) returns (response: seq<ResponseRow>)
      requires Valid()
      modifies this
      ensures Valid()
      ensures Contents() == UpsertAll(old(Contents()), city, fetched)
      ensures response == FetchedResponse(old(Contents()), city, fetched)
    {
      ghost var t0 := Contents();
      response := [];
      for i := 0 to |fetched|
        invariant Contents() == UpsertAll(t0, city, fetched[..i])
        invariant response == FetchedResponse(t0, city, fetched[..i])
      {
        var d := fetched[i];
        var row := UpsertDistrict(city, d);
        ghost var upTo := fetched[..i + 1];
        assert upTo[..i] == fetched[..i] && upTo[i] == d;
        assert Contents() == UpsertAll(t0, city, upTo) by {
          UpsertAllLast(t0, city, upTo);
        }
        response := response + [ResponseRow(row.districtName, row.districtName, row.lat, row.lng,
                                            row.density, row.city, d.geometry)];
        assert response == FetchedResponse(t0, city, upTo);
      }
      assert fetched[..|fetched|] == fetched;
    }

    /** services.py:684-731. */
    method GetOrCreate(city: string, fetched: seq<District>) returns (response: seq<ResponseRow>)
      requires Valid()
      modifies this
      ensures Valid()
      ensures Contents() == UpsertAll(old(Contents()), city, fetched)
      ensures response == Response(old(Contents()), city, fetched)
    {
      response := UpsertFetched(city, fetched);
      if |fetched| == 0 {
        response := StoredResponse(city);
      }
    }
  }
}
