/**
 * The JSON replies of the two OpenStreetMap services as typed records:
 * a Nominatim search result item and an Overpass element.  A missing
 * string key of a Nominatim item is the empty string (every read of one in
 * services.py is `item.get(key)` compared with a literal, or
 * `item.get(key, '')`); a missing optional key of an Overpass element is
 * `None`.
 */
module Osm {
  import opened Wrappers
  import opened Geometry

  /** One item of a Nominatim `/search` reply. */
  datatype NominatimItem = NominatimItem(
    osmType: string,        // 'osm_type'
    osmClass: string,       // 'class'
    kind: string,           // 'type'
    adminLevel: string,     // 'admin_level'
    /** 'boundingbox': its entries as numbers, `None` for a string that
        `float` rejects. */
    boundingbox: Option<seq<Option<real>>>,
    displayName: string,    // 'display_name'
    name: string,           // 'name'
    geojson: Option<GeoJson>,
    osmId: int)             // 'osm_id', 0 when absent

  /** One element of an Overpass `elements` list. */
  datatype Element = Element(
    kind: Option<string>,                     // 'type'
    point: map<string, real>,                 // the top-level 'lat' and 'lon'
    center: Option<map<string, real>>,        // 'center' of `out center`
    tags: Option<map<string, string>>,
    geometry: Option<seq<map<string, real>>>, // 'geometry' of `out geom`
    id: int)                                  // 'id', 0 when absent

  /** What a loop body does with one element: append a record, skip the
      element, or raise a `KeyError` that ends the whole loop. */
  datatype Mapped<T> = Keep(value: T) | Skip | Raise

  /** `dict.get(key, default)` on a tag map. */
  function Tag(tags: map<string, string>, key: string, default: string): (v: string)
    ensures key in tags ==> v == tags[key]
    ensures key !in tags ==> v == default
  {
    if key in tags then tags[key] else default
  }

  /** `element.get('tags', {})`. */
  function TagsOf(e: Element): map<string, string>
  {
    e.tags.GetOr(map[])
  }

  /** The record one element contributes: its kept value, or nothing. */
  function KeptOne<T>(m: Mapped<T>): seq<T>
  {
    if m.Keep? then [m.value] else []
  }

  /** The kept values of the elements, in element order: the reference
      filter the loop is measured against. */
  function Kept<T>(es: seq<Element>, f: Element -> Mapped<T>): (r: seq<T>)
    ensures |r| <= |es|
    ensures forall x :: x in r ==> exists k :: 0 <= k < |es| && f(es[k]) == Keep(x)
  {
    if |es| == 0 then [] else KeptOne(f(es[0])) + Kept(es[1..], f)
  }

  /** Filtering distributes over concatenation. */
  lemma {:induction false} KeptAppend<T>(a: seq<Element>, b: seq<Element>, f: Element -> Mapped<T>)
    ensures Kept(a + b, f) == Kept(a, f) + Kept(b, f)
  {
    if |a| == 0 {
      assert a + b == b;
    } else {
      assert (a + b)[0] == a[0];
      assert (a + b)[1..] == a[1..] + b;
      KeptAppend(a[1..], b, f);
    }
  }

  /** The filter of a sequence is the filter of its front, then the last
      element's record. */
  lemma KeptLast<T>(es: seq<Element>, f: Element -> Mapped<T>)
    requires |es| > 0
    ensures Kept(es, f) == Kept(es[..|es| - 1], f) + KeptOne(f(es[|es| - 1]))
  {
    var n := |es| - 1;
    var init := es[..n];
    assert init + [es[n]] == es;
    KeptAppend(init, [es[n]], f);
    KeptSingle(es[n], f);
  }

  lemma KeptSingle<T>(e: Element, f: Element -> Mapped<T>)
    ensures Kept([e], f) == KeptOne(f(e))
  {
    assert [e][1..] == [];
  }

  /** The records a `for element in elements` loop appends, or `None` when
      the body raises for some element: the `except` clause around the
      loop then discards everything gathered so far.  When no element
      raises, the records are exactly the kept values in element order,
      skipped elements leaving no gap. */
  function Collect<T>(es: seq<Element>, f: Element -> Mapped<T>): (r: Option<seq<T>>)
    ensures r.None? <==> exists k :: 0 <= k < |es| && f(es[k]).Raise?
    ensures r.Some? ==> r.value == Kept(es, f)
  {
    if |es| == 0 then Some([])
    else
      var init := es[..|es| - 1];
      assert forall k :: 0 <= k < |init| ==> init[k] == es[k];
      KeptLast(es, f);
      match Collect(init, f)
      case None => None
      case Some(rs) =>
        match f(es[|es| - 1])
        case Raise => None
        case Skip => Some(rs)
        case Keep(x) => Some(rs + [x])
  }

  /** An element the loop skips leaves no record and no gap, wherever it
      stands. */
  lemma KeptSkips<T>(a: seq<Element>, e: Element, b: seq<Element>, f: Element -> Mapped<T>)
    requires f(e).Skip?
    ensures Kept(a + [e] + b, f) == Kept(a + b, f)
  {
    var ae := a + [e];
    KeptAppend(ae, b, f);
    KeptAppend(a, [e], f);
    KeptAppend(a, b, f);
    KeptSingle(e, f);
  }

  /** One more element: the loop either stops with the `KeyError` or
      appends that element's record, if any. */
  lemma CollectStep<T>(es: seq<Element>, f: Element -> Mapped<T>, k: nat)
    requires k < |es|
    ensures Collect(es[..k], f).None? || f(es[k]).Raise? ==> Collect(es[..k + 1], f).None?
    ensures Collect(es[..k], f).Some? && f(es[k]).Skip? ==> Collect(es[..k + 1], f) == Collect(es[..k], f)
    ensures Collect(es[..k], f).Some? && f(es[k]).Keep? ==>
              Collect(es[..k + 1], f) == Some(Collect(es[..k], f).value + [f(es[k]).value])
  {
    var s := es[..k + 1];
    assert s[..|s| - 1] == es[..k];
    assert s[|s| - 1] == es[k];
  }

  /** When every element is kept, the filter keeps one record per element. */
  lemma {:induction false} KeptEvery<T>(es: seq<Element>, f: Element -> Mapped<T>)
    requires forall k :: 0 <= k < |es| ==> f(es[k]).Keep?
    ensures |Kept(es, f)| == |es|
    ensures forall k :: 0 <= k < |es| ==> Kept(es, f)[k] == f(es[k]).value
  {
    if |es| > 0 {
      var tail := es[1..];
      assert forall k :: 0 <= k < |tail| ==> tail[k] == es[k + 1];
      KeptEvery(tail, f);
      assert Kept(es, f) == [f(es[0]).value] + Kept(tail, f);
    }
  }

  /** With no element raising, every kept element contributes exactly one
      record: the loop neither deduplicates nor caps its output. */
  lemma CollectKeepsEveryRecord<T>(es: seq<Element>, f: Element -> Mapped<T>)
    requires forall k :: 0 <= k < |es| ==> f(es[k]).Keep?
    ensures Collect(es, f).Some?
    ensures |Collect(es, f).value| == |es|
    ensures forall k :: 0 <= k < |es| ==> Collect(es, f).value[k] == f(es[k]).value
  {
    KeptEvery(es, f);
  }

  /** The `for element in data.get('elements', [])` loop shared by the
      Overpass fetchers. */
  method CollectElements<T>(es: seq<Element>, f: Element -> Mapped<T>) returns (r: Option<seq<T>>)
    ensures r == Collect(es, f)
  {
    var acc: seq<T> := [];
    for k := 0 to |es|
      invariant Collect(es[..k], f) == Some(acc)
    {
      CollectStep(es, f, k);
      match f(es[k]) {
        case Raise =>
          return None;
        case Skip =>
        case Keep(x) =>
          acc := acc + [x];
      }
    }
    assert es[..|es|] == es;
    return Some(acc);
  }
}
