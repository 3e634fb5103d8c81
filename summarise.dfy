/**
 * The counting core of `SummaryStore.calculate_summary`
 * (cubedash/summary/_summarise.py): a summary of the datasets one index
 * search found.
 */
module Summarise {
  import opened Wrappers
  import opened Geo
  import opened Counters
  import opened Datacube
  import opened Overview

  /** `SummaryStore.MAX_DATASETS_TO_DISPLAY_INDIVIDUALLY` */
  const MaxDatasetsToDisplayIndividually: nat := 600

  /** Python truthiness of a dataset's shape, as `if shape and not shape.is_empty`. */
  predicate HasShape(d: IndexedDataset, geo: Shapely) {
    geo.Truthy(d.shape)
  }

  /** `dataset_shapes`: the non-empty shapes of the datasets, in order. */
  function DatasetShapes(datasets: seq<IndexedDataset>, geo: Shapely): (r: seq<Geometry>)
    ensures |r| <= |datasets|
    ensures forall i | 0 <= i < |r| :: !geo.isEmpty(r[i])
    ensures r == [] <==> forall i | 0 <= i < |datasets| :: !HasShape(datasets[i], geo)
  {
    if datasets == [] then []
    else
      var rest := DatasetShapes(datasets[1..], geo);
      assert forall i | 1 <= i < |datasets| :: datasets[i] == datasets[1..][i - 1];
      if HasShape(datasets[0], geo) then [datasets[0].shape.value] + rest else rest
  }

  /** A geometry is a footprint exactly when some dataset has it as its non-empty shape. */
  lemma {:induction false} DatasetShapesMembers(datasets: seq<IndexedDataset>, geo: Shapely)
    ensures forall g :: g in DatasetShapes(datasets, geo) <==>
      exists i | 0 <= i < |datasets| :: HasShape(datasets[i], geo) && datasets[i].shape.value == g
  {
    if datasets != [] {
      var tail := datasets[1..];
      DatasetShapesMembers(tail, geo);
      forall g | g in DatasetShapes(tail, geo)
        ensures exists i | 0 <= i < |datasets| :: HasShape(datasets[i], geo) && datasets[i].shape.value == g
      {
        var j :| 0 <= j < |tail| && HasShape(tail[j], geo) && tail[j].shape.value == g;
        assert datasets[j + 1] == tail[j];
      }
      forall i | 1 <= i < |datasets| ensures datasets[i] == tail[i - 1] { }
    }
  }

  /** The datasets with a non-empty shape, in order. */
  function ShapedDatasets(datasets: seq<IndexedDataset>, geo: Shapely): (r: seq<IndexedDataset>)
    ensures forall x | x in r :: x in datasets && HasShape(x, geo)
    ensures forall x | x in datasets && HasShape(x, geo) :: x in r
  {
    if datasets == [] then []
    else
      var rest := ShapedDatasets(datasets[1..], geo);
      assert forall x | x in datasets :: x == datasets[0] || x in datasets[1..];
      if HasShape(datasets[0], geo) then [datasets[0]] + rest else rest
  }

  /** The footprints are the shapes of the datasets that have one, in the same order. */
  lemma {:induction false} ShapesOfShapedDatasets(datasets: seq<IndexedDataset>, geo: Shapely)
    ensures |DatasetShapes(datasets, geo)| == |ShapedDatasets(datasets, geo)|
    ensures forall i | 0 <= i < |ShapedDatasets(datasets, geo)| ::
      ShapedDatasets(datasets, geo)[i].shape.Some? && DatasetShapes(datasets, geo)[i] == ShapedDatasets(datasets, geo)[i].shape.value
  {
    if datasets != [] {
      ShapesOfShapedDatasets(datasets[1..], geo);
    }
  }

  /** How many datasets have a shape, counted from the last one back. */
  function ShapedCount(datasets: seq<IndexedDataset>, geo: Shapely): nat {
    if datasets == [] then 0
    else ShapedCount(datasets[..|datasets| - 1], geo) + (if HasShape(datasets[|datasets| - 1], geo) then 1 else 0)
  }

  lemma {:induction false} DatasetShapesAppend(a: seq<IndexedDataset>, b: seq<IndexedDataset>, geo: Shapely)
    ensures DatasetShapes(a + b, geo) == DatasetShapes(a, geo) + DatasetShapes(b, geo)
  {
    if a == [] {
      assert a + b == b;
    } else {
      assert (a + b)[0] == a[0];
      assert (a + b)[1..] == a[1..] + b;
      DatasetShapesAppend(a[1..], b, geo);
    }
  }

  /** `footprint_count = len(dataset_shapes)` is the number of datasets with a shape. */
  lemma {:induction false} DatasetShapesCount(datasets: seq<IndexedDataset>, geo: Shapely)
    ensures |DatasetShapes(datasets, geo)| == ShapedCount(datasets, geo)
  {
    if datasets != [] {
      var init := datasets[..|datasets| - 1];
      var last := datasets[|datasets| - 1];
      assert datasets == init + [last];
      DatasetShapesAppend(init, [last], geo);
      DatasetShapesCount(init, geo);
      assert [last][1..] == [];
    }
  }

  /** How many of the datasets fall on the local date `d`. */
  function DatasetsOn(datasets: seq<IndexedDataset>, d: Date): nat {
    if datasets == [] then 0
    else DatasetsOn(datasets[..|datasets| - 1], d) + (if datasets[|datasets| - 1].localDate == d then 1 else 0)
  }

  function LocalDates(datasets: seq<IndexedDataset>): set<Date> {
    set x | x in datasets :: x.localDate
  }

  /** `_dataset_to_feature` for a dataset that has a shape. */
  function DatasetToFeature(d: IndexedDataset): (f: DatasetFeature)
    requires d.shape.Some?
    ensures f.id == d.id && f.geometry == d.shape.value
    ensures f.validExtent == d.shapeValid && f.startTime == d.begin
  {
    DatasetFeature(d.id, d.shape.value, d.shapeValid, d.begin)
  }

  /**
   * `_datasets_to_feature` as evidently intended: one feature for each
   * dataset that has a shape, so exactly as many as `dataset_shapes` holds.
   */
  function DatasetsToFeature(datasets: seq<IndexedDataset>, geo: Shapely): (r: DatasetCollection)
    ensures |r.features| == |DatasetShapes(datasets, geo)|
    ensures forall i | 0 <= i < |r.features| :: r.features[i].geometry == DatasetShapes(datasets, geo)[i]
    ensures forall i | 0 <= i < |r.features| :: !geo.isEmpty(r.features[i].geometry)
    ensures forall f | f in r.features :: exists x | x in datasets :: HasShape(x, geo) && f == DatasetToFeature(x)
    ensures forall x | x in datasets && HasShape(x, geo) :: DatasetToFeature(x) in r.features
  {
    var shaped := ShapedDatasets(datasets, geo);
    ShapesOfShapedDatasets(datasets, geo);
    var features := seq(|shaped|, i requires 0 <= i < |shaped| => DatasetToFeature(shaped[i]));
    assert forall i | 0 <= i < |shaped| :: features[i] == DatasetToFeature(shaped[i]);
    DatasetCollection(features)
  }

  /**
   * `_datasets_to_feature` as written: its filter `if ds[1]` tests the
   * `(shape, valid_extent)` pair, which is never falsy, so every dataset is
   * turned into a feature, and `shape.__geo_interface__` raises
   * `AttributeError` for a dataset without a shape.
   */
  function DatasetsToFeatureAsWritten(datasets: seq<IndexedDataset>): (r: Result<DatasetCollection>)
    ensures r.Raised? <==> exists i | 0 <= i < |datasets| :: datasets[i].shape.None?
    ensures r.Ok? ==> |r.value.features| == |datasets|
    ensures r.Ok? ==> forall i | 0 <= i < |datasets| ::
      datasets[i].shape.Some? && r.value.features[i] == DatasetToFeature(datasets[i])
  {
    if datasets == [] then Ok(DatasetCollection([]))
    else if datasets[0].shape.None? then Raised(AttributeError("'NoneType' object has no attribute '__geo_interface__'"))
    else
      var rest := DatasetsToFeatureAsWritten(datasets[1..]);
      assert forall i | 1 <= i < |datasets| :: datasets[i] == datasets[1..][i - 1];
      if rest.Raised? then rest
      else Ok(DatasetCollection([DatasetToFeature(datasets[0])] + rest.value.features))
  }

  /**
   * A search that finds one dataset with a shape and one without passes the
   * guard `0 < len(dataset_shapes) < 600`, yet the function as written raises;
   * the intended one yields the single feature.
   */
  lemma ShapelessDatasetRaises(geo: Shapely, g: Geometry, a: IndexedDataset, b: IndexedDataset)
    requires !geo.isEmpty(g)
    requires a.shape == Some(g) && b.shape.None?
    ensures 0 < |DatasetShapes([a, b], geo)| < MaxDatasetsToDisplayIndividually
    ensures DatasetsToFeatureAsWritten([a, b]).Raised?
    ensures |DatasetsToFeature([a, b], geo).features| == 1
  {
    assert [a, b][1..] == [b];
    assert DatasetShapes([b], geo) == [];
    assert DatasetShapes([a, b], geo) == [g];
  }

  function CreationTimes(datasets: seq<IndexedDataset>): seq<Option<int>> {
    seq(|datasets|, i requires 0 <= i < |datasets| => datasets[i].created)
  }

  /**
   * `max((_dataset_created(dataset) for ...), default=None)` as written: it
   * does not drop absent times, and comparing `None` with a datetime (or with
   * `None`) raises `TypeError` as soon as there are two values to compare.
   */
  function NewestCreatedAsWritten(times: seq<Option<int>>): (r: Result<Option<int>>)
    ensures r.Raised? <==> |times| >= 2 && exists i | 0 <= i < |times| :: times[i].None?
    ensures r.Ok? ==> r.value == MaxPresent(times)
  {
    if |times| <= 1 then
      Ok(if times == [] then None else times[0])
    else if exists i | 0 <= i < |times| :: times[i].None? then
      Raised(TypeError("'>' not supported between instances of 'NoneType' and 'datetime.datetime'"))
    else Ok(MaxPresent(times))
  }

  /** A dataset without a creation time beside one with a time makes the code as written raise. */
  lemma UndatedDatasetRaises(t: int)
    ensures NewestCreatedAsWritten([Some(t), None]).Raised?
    ensures MaxPresent([Some(t), None]) == Some(t)
  {
    assert [Some(t), None][1] == None;
    assert MaxPresent([Some(t), None][1..]) == None by { assert [Some(t), None][1..] == [None]; }
  }

  /** `day_counts` after counting the given datasets into `Counter({d: 0 for d in days})`. */
  function Tallied(days: seq<Date>, datasets: seq<IndexedDataset>): Counter<Date> {
    if datasets == [] then Zeros(days)
    else Increment(Tallied(days, datasets[..|datasets| - 1]), datasets[|datasets| - 1].localDate, 1)
  }

  /** `day_counts` has every requested day, every dataset's date, and counts each dataset once. */
  lemma {:induction false} TalliedCounts(days: seq<Date>, datasets: seq<IndexedDataset>)
    ensures Distinct(Tallied(days, datasets))
    ensures Keys(Tallied(days, datasets)) == (set d | d in days) + LocalDates(datasets)
    ensures forall d :: Count(Tallied(days, datasets), d) == DatasetsOn(datasets, d)
    ensures Total(Tallied(days, datasets)) == |datasets|
  {
    if datasets != [] {
      var init := datasets[..|datasets| - 1];
      TalliedCounts(days, init);
      assert datasets == init + [datasets[|datasets| - 1]];
      assert LocalDates(datasets) == LocalDates(init) + {datasets[|datasets| - 1].localDate};
    }
  }

  /**
   * What `calculate_summary` returns for a search: every dataset counted, on
   * its local date, into a counter that also holds every requested day; the
   * footprint is the union of the non-empty shapes and counts them; the
   * individual features are kept only for between 1 and 599 shapes; the
   * period is 'day'; the newest creation time is the latest one known.
   */
  ghost predicate Summarises(r: TimePeriodOverview, search: Search, geo: Shapely, now: int) {
    var datasets := search.datasets;
    var shapes := DatasetShapes(datasets, geo);
    && r.datasetCount == |datasets|
    && r.datasetCounts.Some?
    && Distinct(r.datasetCounts.value)
    && Keys(r.datasetCounts.value) == (set d | d in search.days) + LocalDates(datasets)
    && (forall d :: Count(r.datasetCounts.value, d) == DatasetsOn(datasets, d))
    && Total(r.datasetCounts.value) == |datasets|
    && r.datasetsGeojson
       == (if 0 < |shapes| < MaxDatasetsToDisplayIndividually then Some(DatasetsToFeature(datasets, geo)) else None)
    && r.period == Some("day")
    && r.timeRange == Some(search.time)
    && r.footprintGeometry == (if shapes == [] then None else Some(geo.unaryUnion(shapes)))
    && r.footprintCount == Some(|shapes|)
    && r.newestDatasetCreationTime == MaxPresent(CreationTimes(datasets))
    && r.summaryGenTime == Some(now)
    && r.footprintCrs.None?
    && r.regionDatasetCounts == []
  }

  /** The record `calculate_summary` returns once `day_counts` is complete. */
  function SummaryRecord(search: Search, geo: Shapely, now: int, dayCounts: Counter<Date>): TimePeriodOverview {
    var datasets := search.datasets;
    var shapes := DatasetShapes(datasets, geo);
    TimePeriodOverview(
      |datasets|,
      Some(dayCounts),
      if 0 < |shapes| < MaxDatasetsToDisplayIndividually then Some(DatasetsToFeature(datasets, geo)) else None,
      Some("day"),
      Some(search.time),
      if shapes == [] then None else Some(geo.unaryUnion(shapes)),
      Some(|shapes|),
      MaxPresent(CreationTimes(datasets)),
      Some(now),
      None,
      [])
  }

  /** With every dataset counted, the record is the summary of the search. */
  lemma SummaryRecordSummarises(search: Search, geo: Shapely, now: int)
    ensures Summarises(SummaryRecord(search, geo, now, Tallied(search.days, search.datasets)), search, geo, now)
  {
    TalliedCounts(search.days, search.datasets);
  }

  /** `SummaryStore.calculate_summary`, given the search's results and the current time. */
  method CalculateSummary(search: Search, geo: Shapely, now: int) returns (r: TimePeriodOverview)
    ensures Summarises(r, search, geo, now)
  {
    var datasets := search.datasets;
    var dayCounts := Zeros(search.days);
    for i := 0 to |datasets|
      invariant dayCounts == Tallied(search.days, datasets[..i])
    {
      assert datasets[..i + 1][..i] == datasets[..i];
      dayCounts := Increment(dayCounts, datasets[i].localDate, 1);
    }
    assert datasets[..|datasets|] == datasets;
    r := SummaryRecord(search, geo, now, dayCounts);
    SummaryRecordSummarises(search, geo, now);
  }

  /**
   * A day or month summary never counts more footprints than datasets, keeps
   * its features exactly when it has between 1 and 599 footprints, and is
   * well formed.
   */
  lemma SummaryBounds(r: TimePeriodOverview, search: Search, geo: Shapely, now: int)
    requires Summarises(r, search, geo, now)
    ensures r.footprintCount.Some? && r.footprintCount.value <= r.datasetCount
    ensures r.datasetsGeojson.Some? <==> 0 < r.footprintCount.value < MaxDatasetsToDisplayIndividually
    ensures r.datasetsGeojson.Some? ==> |r.datasetsGeojson.value.features| == r.footprintCount.value
    ensures r.footprintGeometry.Some? <==> r.footprintCount.value > 0
    ensures WellFormed(r)
  {
  }
}
