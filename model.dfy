/**
 * The request layer (cubedash/_model.py): fetching a summary for a page, the
 * list of products that have summaries, the footprint of a period as a
 * GeoJSON Feature and the per-region dataset counts as a GeoJSON
 * FeatureCollection.
 */
module Model {
  import opened Wrappers
  import opened Geo
  import opened Counters
  import opened Datacube
  import opened Overview
  import opened Store

  /**
   * What `get_summary` returns and leaves behind: without a day it only
   * reads the store; with a day it returns the stored summary if there is
   * one and otherwise what `update` computes (and, for keys that are not
   * days, stores).
   */
  twostate predicate Fetched(store: SummaryStore, key: Key, new r: Option<TimePeriodOverview>, geo: Shapely, clock: Clock)
    reads store
  {
    && store.Valid()
    && (key.day.None? ==>
          && r == old(store.Get(key))
          && store.summaries == old(store.summaries)
          && store.announced == old(store.announced))
    && (key.day.Some? ==>
          && r.Some?
          && (key in old(store.summaries) ==>
                && r.value == old(store.summaries)[key]
                && store.summaries == old(store.summaries)
                && store.announced == old(store.announced))
          && (key !in old(store.summaries) ==> store.UpdatedBy(key, r.value, geo, clock)))
  }

  /** `get_summary(product_name, year, month, day)` */
  method GetSummary(store: SummaryStore, key: Key, geo: Shapely, clock: Clock) returns (r: Option<TimePeriodOverview>)
    requires store.Valid()
    modifies store
    ensures Fetched(store, key, r, geo, clock)
  {
    if key.day.Some? {
      var summary := store.GetOrUpdate(key, geo, clock);
      return Some(summary);
    }
    return store.Get(key);
  }

  /** `{p.name: p for p in products}`: a later product with the same name replaces an earlier one. */
  function ProductsByName(products: seq<Product>): (m: map<string, Product>)
    ensures forall i | 0 <= i < |products| :: products[i].name in m
    ensures forall n | n in m :: m[n].name == n && m[n] in products
    ensures |products| > 0 ==> m[products[|products| - 1].name] == products[|products| - 1]
  {
    if products == [] then map[]
    else
      var init := products[..|products| - 1];
      var last := products[|products| - 1];
      var m := ProductsByName(init)[last.name := last];
      assert products == init + [last];
      m
  }

  /** The product a name maps to is the last one with that name. */
  lemma {:induction false} LastNamedWins(products: seq<Product>, i: nat)
    requires i < |products|
    requires forall j | i < j < |products| :: products[j].name != products[i].name
    ensures ProductsByName(products)[products[i].name] == products[i]
  {
    if i < |products| - 1 {
      var init := products[..|products| - 1];
      assert init[i] == products[i];
      assert forall j | i < j < |init| :: init[j] == products[j];
      LastNamedWins(init, i);
    }
  }

  /** Every listed product is a product of the index and has its whole-product summary. */
  lemma ListedProductsKnown(store: SummaryStore)
    ensures forall n | n in store.ListCompleteProducts() ::
      n in ProductsByName(store.index.products) && ProductKey(n) in store.summaries
  {
    var names := store.ListCompleteProducts();
    var byName := ProductsByName(store.index.products);
    forall n | n in names ensures n in byName {
      assert n in store.index.Names();
      var i :| 0 <= i < |store.index.Names()| && store.index.Names()[i] == n;
      assert store.index.products[i].name == n;
    }
  }

  const NoReports: string := "No product reports. Run `python -m cubedash.generate --all` to generate some."

  /**
   * `get_products_with_summaries()`: each complete product, in the sorted
   * order `list_complete_products` gives, with its index entry and its
   * whole-product summary; `RuntimeError` when there is none.
   */
  function ProductsWithSummaries(store: SummaryStore): (r: Result<seq<(Product, TimePeriodOverview)>>)
    reads store
    ensures r.Raised? <==> store.ListCompleteProducts() == []
    ensures r.Raised? ==> r.error == RuntimeError(NoReports)
    ensures r.Ok? ==>
      var names := store.ListCompleteProducts();
      && |r.value| == |names|
      && forall i | 0 <= i < |names| ::
           && r.value[i].0.name == names[i]
           && r.value[i].0 in store.index.products
           && ProductKey(names[i]) in store.summaries
           && r.value[i].1 == store.summaries[ProductKey(names[i])]
  {
    var names := store.ListCompleteProducts();
    var byName := ProductsByName(store.index.products);
    var summaries := store.summaries;
    ListedProductsKnown(store);
    if names == [] then Raised(RuntimeError(NoReports))
    else
      Ok(seq(|names|, i requires 0 <= i < |names| => (byName[names[i]], summaries[ProductKey(names[i])])))
  }

  /**
   * `_get_footprint(period)`: nothing for a period without datasets or
   * without a (non-empty) footprint, otherwise the footprint reprojected
   * to EPSG:4326.  The period is a tuple, so `not period` never holds.
   */
  function Footprint(period: TimePeriodOverview, geo: Shapely): (r: Option<Geometry>)
    ensures r.None? <==> period.datasetCount == 0 || !geo.Truthy(period.footprintGeometry)
    ensures r.Some? ==> r.value == geo.reproject(period.footprintCrs, period.footprintGeometry.value)
  {
    if period.datasetCount == 0 then None
    else if !geo.Truthy(period.footprintGeometry) then None
    else Some(geo.reproject(period.footprintCrs, period.footprintGeometry.value))
  }

  /** `properties` of the footprint Feature. */
  datatype FootprintProperties = FootprintProperties(datasetCount: Option<nat>, productName: string, timeSpec: seq<Option<int>>)

  /** `{'type': 'Feature', 'geometry': ..., 'properties': ...}` */
  datatype FootprintFeature = FootprintFeature(geometry: Geometry, properties: FootprintProperties)

  /** The body of `get_footprint_geojson` after fetching the period. */
  function FootprintGeojson(period: Option<TimePeriodOverview>, key: Key, geo: Shapely): (r: Option<FootprintFeature>)
    requires key.product.Some?
    ensures r.None? <==> period.None? || !geo.Truthy(Footprint(period.value, geo))
    ensures r.Some? ==>
      && period.Some? && period.value.datasetCount > 0 && geo.Truthy(period.value.footprintGeometry)
      && r.value.geometry == Footprint(period.value, geo).value
      && r.value.properties.datasetCount == period.value.footprintCount
      && r.value.properties.productName == key.product.value
      && r.value.properties.timeSpec == [key.year, key.month, key.day]
  {
    if period.None? then None
    else
      var footprint := Footprint(period.value, geo);
      if !geo.Truthy(footprint) then None
      else
        Some(FootprintFeature(
          footprint.value,
          FootprintProperties(period.value.footprintCount, key.product.value, [key.year, key.month, key.day])))
  }

  /** `get_footprint_geojson(product_name, year, month, day)` */
  method GetFootprintGeojson(store: SummaryStore, key: Key, geo: Shapely, clock: Clock)
    returns (r: Option<FootprintFeature>, ghost period: Option<TimePeriodOverview>)
    requires store.Valid() && key.product.Some?
    modifies store
    ensures Fetched(store, key, period, geo, clock)
    ensures r == FootprintGeojson(period, key, geo)
  {
    var summary := GetSummary(store, key, geo, clock);
    period := summary;
    r := FootprintGeojson(summary, key, geo);
  }

  /**
   * `_region_geometry_function(region_info, footprint)`: without a
   * footprint it is the extent function itself (possibly `None`); with one
   * it is the closure `region_geometry_cut` over the extent, the footprint
   * and its boundary.
   */
  datatype RegionGeometry =
    | Extent(extent: string -> Geometry)
    | Cut(regionShape: Option<string -> Geometry>, footprint: Geometry, boundary: Geometry)

  function RegionGeometryFunction(info: RegionInfo, footprint: Option<Geometry>, geo: Shapely): (r: Option<RegionGeometry>)
    ensures r.None? <==> footprint.None? && info.geographicExtent.None?
    ensures footprint.None? && r.Some? ==> r.value.Extent? && r.value.extent == info.geographicExtent.value
    ensures footprint.Some? ==> r.value.Cut? && r.value.regionShape == info.geographicExtent && r.value.footprint == footprint.value
  {
    if footprint.None? then
      (if info.geographicExtent.None? then None else Some(Extent(info.geographicExtent.value)))
    else
      Some(Cut(info.geographicExtent, footprint.value, geo.boundary(footprint.value)))
  }

  /** Calling the region geometry function on one region code. */
  function GeometryAt(g: RegionGeometry, code: string, geo: Shapely): (r: Result<Geometry>)
    ensures r.Raised? <==> g.Cut? && g.regionShape.None?
    ensures g.Extent? ==> r == Ok(g.extent(code))
  {
    match g
    case Extent(extent) => Ok(extent(code))
    case Cut(regionShape, footprint, boundary) =>
      if regionShape.None? then Raised(TypeError("'NoneType' object is not callable"))
      else
        var shape := regionShape.value(code);
        if geo.intersects(boundary, shape) then Ok(geo.intersection(footprint, shape)) else Ok(shape)
  }

  /**
   * A region the footprint's boundary does not cross gets its extent
   * unchanged, as does every region when there is no footprint; only the
   * regions on the boundary are cut.
   */
  lemma {:induction false} CheapPathKeepsExtent(info: RegionInfo, footprint: Option<Geometry>, code: string, geo: Shapely)
    requires info.geographicExtent.Some?
    requires footprint.Some? ==> !geo.intersects(geo.boundary(footprint.value), info.geographicExtent.value(code))
    ensures RegionGeometryFunction(info, footprint, geo).Some?
    ensures GeometryAt(RegionGeometryFunction(info, footprint, geo).value, code, geo) == Ok(info.geographicExtent.value(code))
  {
  }

  /** Where the boundary does cross it, the region is cut down to the footprint. */
  lemma {:induction false} BoundaryRegionIsCut(info: RegionInfo, footprint: Geometry, code: string, geo: Shapely)
    requires info.geographicExtent.Some?
    requires geo.intersects(geo.boundary(footprint), info.geographicExtent.value(code))
    ensures GeometryAt(RegionGeometryFunction(info, Some(footprint), geo).value, code, geo)
            == Ok(geo.intersection(footprint, info.geographicExtent.value(code)))
  {
  }

  /**
   * If an intersection always lies within both its operands and a geometry
   * within itself, every region geometry lies within its region's extent.
   */
  lemma {:induction false} RegionWithinExtent(info: RegionInfo, footprint: Option<Geometry>, code: string, geo: Shapely)
    requires info.geographicExtent.Some?
    requires forall a, b :: geo.within(geo.intersection(a, b), b)
    requires forall a :: geo.within(a, a)
    ensures RegionGeometryFunction(info, footprint, geo).Some?
    ensures var g := GeometryAt(RegionGeometryFunction(info, footprint, geo).value, code, geo);
            g.Ok? && geo.within(g.value, info.geographicExtent.value(code))
  {
    var shape := info.geographicExtent.value(code);
    assert geo.within(shape, shape);
    if footprint.Some? {
      assert geo.within(geo.intersection(footprint.value, shape), shape);
    }
  }

  datatype RegionFeature = RegionFeature(geometry: Geometry, code: string, caption: string, count: nat)

  /** `{'type': 'FeatureCollection', 'properties': {...}, 'features': [...]}` */
  datatype RegionCollection = RegionCollection(
    regionType: string,
    unitLabel: string,
    minCount: nat,
    maxCount: nat,
    features: seq<RegionFeature>)

  /** `min(region_counts.values())` */
  function MinValue(c: Counter<string>): (r: nat)
    requires c != []
    ensures exists i | 0 <= i < |c| :: c[i].1 == r
    ensures forall i | 0 <= i < |c| :: r <= c[i].1
  {
    if |c| == 1 then c[0].1
    else
      var rest := MinValue(c[1..]);
      assert forall i | 1 <= i < |c| :: c[i] == c[1..][i - 1];
      if c[0].1 <= rest then c[0].1 else rest
  }

  /** `max(region_counts.values())` */
  function MaxValue(c: Counter<string>): (r: nat)
    requires c != []
    ensures exists i | 0 <= i < |c| :: c[i].1 == r
    ensures forall i | 0 <= i < |c| :: c[i].1 <= r
  {
    if |c| == 1 then c[0].1
    else
      var rest := MaxValue(c[1..]);
      assert forall i | 1 <= i < |c| :: c[i] == c[1..][i - 1];
      if c[0].1 >= rest then c[0].1 else rest
  }

  /** The features of the regions, one per counter entry in order; the first failing geometry call raises. */
  function RegionFeatures(counts: Counter<string>, entries: Counter<string>, g: RegionGeometry, info: RegionInfo, geo: Shapely)
    : (r: Result<seq<RegionFeature>>)
    ensures r.Raised? <==> entries != [] && g.Cut? && g.regionShape.None?
    ensures r.Ok? ==> |r.value| == |entries| && forall i | 0 <= i < |entries| ::
      && r.value[i].code == entries[i].0
      && r.value[i].caption == info.regionLabel(entries[i].0)
      && r.value[i].count == Count(counts, entries[i].0)
      && Ok(r.value[i].geometry) == GeometryAt(g, entries[i].0, geo)
  {
    if entries == [] then Ok([])
    else
      var code := entries[0].0;
      var shape := GeometryAt(g, code, geo);
      if shape.Raised? then Raised(shape.error)
      else
        var rest := RegionFeatures(counts, entries[1..], g, info, geo);
        if rest.Raised? then rest
        else Ok([RegionFeature(shape.value, code, info.regionLabel(code), Count(counts, code))] + rest.value)
  }

  /**
   * `_get_regions_geojson(region_counts, footprint, region_info)`: nothing
   * when there is no geometry function; otherwise the collection with the
   * least and greatest count and one feature per region code.  `min()` of
   * no counts raises `ValueError`.
   */
  function RegionsFeatureCollection(counts: Counter<string>, footprint: Option<Geometry>, info: RegionInfo, geo: Shapely)
    : (r: Result<Option<RegionCollection>>)
    ensures r == Ok(None) <==> footprint.None? && info.geographicExtent.None?
    ensures r.Raised? <==> (footprint.Some? || info.geographicExtent.Some?) && (counts == [] || (footprint.Some? && info.geographicExtent.None?))
    ensures r.Ok? && r.value.Some? ==>
      var fc := r.value.value;
      && fc.regionType == info.name
      && fc.unitLabel == info.unitLabel
      && fc.minCount <= fc.maxCount
      && (forall i | 0 <= i < |counts| :: fc.minCount <= counts[i].1 <= fc.maxCount)
      && (exists i | 0 <= i < |counts| :: counts[i].1 == fc.minCount)
      && (exists i | 0 <= i < |counts| :: counts[i].1 == fc.maxCount)
      && |fc.features| == |counts|
      && forall i | 0 <= i < |counts| ::
           && fc.features[i].code == counts[i].0
           && fc.features[i].caption == info.regionLabel(counts[i].0)
           && fc.features[i].count == Count(counts, counts[i].0)
           && Ok(fc.features[i].geometry) == GeometryAt(RegionGeometryFunction(info, footprint, geo).value, counts[i].0, geo)
  {
    var g := RegionGeometryFunction(info, footprint, geo);
    if g.None? then Ok(None)
    else if counts == [] then Raised(ValueError("min() arg is an empty sequence"))
    else
      var features := RegionFeatures(counts, counts, g.value, info, geo);
      if features.Raised? then Raised(features.error)
      else Ok(Some(RegionCollection(info.name, info.unitLabel, MinValue(counts), MaxValue(counts), features.value)))
  }

  /**
   * A counter has distinct keys, so the collection has exactly one feature
   * per region code, counting that region's datasets.
   */
  lemma OneFeaturePerRegion(counts: Counter<string>, footprint: Option<Geometry>, info: RegionInfo, geo: Shapely)
    requires Distinct(counts)
    requires RegionsFeatureCollection(counts, footprint, info, geo).Ok?
    requires RegionsFeatureCollection(counts, footprint, info, geo).value.Some?
    ensures var fs := RegionsFeatureCollection(counts, footprint, info, geo).value.value.features;
      && (forall i, j | 0 <= i < j < |fs| :: fs[i].code != fs[j].code)
      && (set i | 0 <= i < |fs| :: fs[i].code) == Keys(counts)
      && forall i | 0 <= i < |fs| :: fs[i].count == counts[i].1
  {
    FeaturesMatchEntries(counts, RegionsFeatureCollection(counts, footprint, info, geo).value.value.features);
  }

  lemma FeaturesMatchEntries(counts: Counter<string>, fs: seq<RegionFeature>)
    requires Distinct(counts)
    requires |fs| == |counts|
    requires forall i | 0 <= i < |counts| :: fs[i].code == counts[i].0 && fs[i].count == Count(counts, counts[i].0)
    ensures forall i, j | 0 <= i < j < |fs| :: fs[i].code != fs[j].code
    ensures (set i | 0 <= i < |fs| :: fs[i].code) == Keys(counts)
    ensures forall i | 0 <= i < |fs| :: fs[i].count == counts[i].1
  {
    forall i | 0 <= i < |fs| ensures fs[i].count == counts[i].1 {
      CountOfDistinct(counts, i);
    }
  }

  /** The body of `get_regions_geojson` after fetching the period. */
  function RegionsGeojson(period: Option<TimePeriodOverview>, name: string, index: Index, geo: Shapely)
    : (r: Result<Option<RegionCollection>>)
    ensures period.None? ==> r == Ok(None)
    ensures period.Some? && index.ProductByName(name).None? ==> r.Raised? && r.error.RuntimeError?
    ensures period.Some? && index.ProductByName(name).Some? ==>
      var product := index.ProductByName(name).value;
      && (period.value.regionDatasetCounts == [] ==> r == Ok(None))
      && (product.regions.None? ==> r == Ok(None))
      && (period.value.regionDatasetCounts != [] && product.regions.Some? ==>
            r == RegionsFeatureCollection(period.value.regionDatasetCounts, Footprint(period.value, geo), product.regions.value, geo))
    ensures r.Raised? ==> !r.error.ValueError?
  {
    if period.None? then Ok(None)
    else
      var product := index.ProductByName(name);
      if product.None? then Raised(RuntimeError("Unknown product despite having a summary?"))
      else if period.value.regionDatasetCounts == [] then Ok(None)
      else if product.value.regions.None? then Ok(None)
      else RegionsFeatureCollection(period.value.regionDatasetCounts, Footprint(period.value, geo), product.value.regions.value, geo)
  }

  /** `get_regions_geojson(product_name, year, month, day)` */
  method GetRegionsGeojson(store: SummaryStore, key: Key, geo: Shapely, clock: Clock)
    returns (r: Result<Option<RegionCollection>>, ghost period: Option<TimePeriodOverview>)
    requires store.Valid() && key.product.Some?
    modifies store
    ensures Fetched(store, key, period, geo, clock)
    ensures r == RegionsGeojson(period, key.product.value, store.index, geo)
  {
    var summary := GetSummary(store, key, geo, clock);
    period := summary;
    r := RegionsGeojson(summary, key.product.value, store.index, geo);
  }

  /**
   * A summary counting two regions 1 and 2, for a product whose region
   * scheme has geometries: two features, in counter order, with the least
   * count 1, the greatest 2 and the scheme's name.
   */
  lemma TwoRegions(period: TimePeriodOverview, name: string, index: Index, info: RegionInfo, geo: Shapely)
    requires period.regionDatasetCounts == [("r1", 1), ("r2", 2)]
    requires index.ProductByName(name).Some? && index.ProductByName(name).value.regions == Some(info)
    requires info.geographicExtent.Some?
    ensures var r := RegionsGeojson(Some(period), name, index, geo);
      && r.Ok? && r.value.Some?
      && r.value.value.regionType == info.name
      && |r.value.value.features| == 2
      && r.value.value.features[0].code == "r1" && r.value.value.features[0].count == 1
      && r.value.value.features[1].code == "r2" && r.value.value.features[1].count == 2
      && r.value.value.minCount == 1 && r.value.value.maxCount == 2
  {
    var c: Counter<string> := [("r1", 1), ("r2", 2)];
    assert c[1..] == [("r2", 2)];
    assert c[1..][1..] == [];
    assert "r1" != "r2" by { assert "r1"[1] != "r2"[1]; }
  }

  /** A summary without region counts has no region collection. */
  lemma NoRegionCounts(period: TimePeriodOverview, name: string, index: Index, geo: Shapely)
    requires period.regionDatasetCounts == []
    requires index.ProductByName(name).Some?
    ensures RegionsGeojson(Some(period), name, index, geo) == Ok(None)
  {
  }
}
