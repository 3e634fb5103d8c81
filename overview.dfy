/**
 * `TimePeriodOverview` and `TimePeriodOverview.add_periods`
 * (cubedash/summary/_summarise.py): one summary of a product over a period of
 * time, and the fold of several period summaries into one.
 */
module Overview {
  import opened Wrappers
  import opened Geo
  import opened Counters
  import opened Datacube

  /** One dataset as a GeoJSON Feature (`_dataset_to_feature`); its label is not modelled. */
  datatype DatasetFeature = DatasetFeature(id: string, geometry: Geometry, validExtent: bool, startTime: int)

  /** `{'type': 'FeatureCollection', 'features': [...]}` of individual datasets. */
  datatype DatasetCollection = DatasetCollection(features: seq<DatasetFeature>)

  /**
   * The summary record.  Fields that the empty overview sets to `None` are
   * optional.  `footprintCrs` and `regionDatasetCounts` are read by the web
   * layer but never set by the summariser itself: it leaves them absent and
   * empty.
   */
  datatype TimePeriodOverview = TimePeriodOverview(
    datasetCount: nat,
    datasetCounts: Option<Counter<Date>>,
    datasetsGeojson: Option<DatasetCollection>,
    period: Option<string>,
    timeRange: Option<Range>,
    footprintGeometry: Option<Geometry>,
    footprintCount: Option<nat>,
    newestDatasetCreationTime: Option<int>,
    summaryGenTime: Option<int>,
    footprintCrs: Option<string>,
    regionDatasetCounts: Counter<string>)

  /** `TimePeriodOverview(0, None, None, None, None, None, None, None, None)` */
  const Nothing := TimePeriodOverview(0, None, None, None, None, None, None, None, None, None, [])

  /** A summary with datasets always knows its time range (`add_periods` reads it). */
  predicate WellFormed(p: TimePeriodOverview) {
    p.datasetCount > 0 ==> p.timeRange.Some?
  }

  /** `[p for p in periods if p.dataset_count > 0]` */
  function NonEmpty(periods: seq<TimePeriodOverview>): (r: seq<TimePeriodOverview>)
    ensures |r| <= |periods|
    ensures forall p :: p in r <==> p in periods && p.datasetCount > 0
    ensures (forall p | p in periods :: WellFormed(p)) ==> forall p | p in r :: p.timeRange.Some?
  {
    if periods == [] then []
    else (if periods[0].datasetCount > 0 then [periods[0]] else []) + NonEmpty(periods[1..])
  }

  /** `counter.update(p.dataset_counts)` ignores a `None` counter. */
  function CountsOf(p: TimePeriodOverview): Counter<Date> {
    if p.datasetCounts.Some? then p.datasetCounts.value else []
  }

  /** `sum(p.dataset_count for p in periods)` */
  function SumDatasetCounts(periods: seq<TimePeriodOverview>): nat {
    if periods == [] then 0 else periods[0].datasetCount + SumDatasetCounts(periods[1..])
  }

  /** The count of one date summed over the periods' counters. */
  function CountAcross(periods: seq<TimePeriodOverview>, k: Date): nat {
    if periods == [] then 0
    else CountAcross(periods[..|periods| - 1], k) + Count(CountsOf(periods[|periods| - 1]), k)
  }

  /** The counts of one month summed over the periods' counters. */
  function MonthCountAcross(periods: seq<TimePeriodOverview>, ms: Date): nat {
    if periods == [] then 0
    else MonthCountAcross(periods[..|periods| - 1], ms) + MonthCount(CountsOf(periods[|periods| - 1]), ms)
  }

  /** The totals of the periods' counters, summed. */
  function TotalAcross(periods: seq<TimePeriodOverview>): nat {
    if periods == [] then 0
    else TotalAcross(periods[..|periods| - 1]) + Total(CountsOf(periods[|periods| - 1]))
  }

  /** `min(r.time_range.begin for r in periods)` */
  function MinBegin(periods: seq<TimePeriodOverview>): (r: int)
    requires periods != [] && forall p | p in periods :: p.timeRange.Some?
    ensures exists i | 0 <= i < |periods| :: r == periods[i].timeRange.value.begin
    ensures forall i | 0 <= i < |periods| :: r <= periods[i].timeRange.value.begin
  {
    var b := periods[0].timeRange.value.begin;
    if |periods| == 1 then b
    else
      var rest := MinBegin(periods[1..]);
      assert forall i | 1 <= i < |periods| :: periods[i] == periods[1..][i - 1];
      if b <= rest then b else rest
  }

  /** `max(r.time_range.end for r in periods)` */
  function MaxEnd(periods: seq<TimePeriodOverview>): (r: int)
    requires periods != [] && forall p | p in periods :: p.timeRange.Some?
    ensures exists i | 0 <= i < |periods| :: r == periods[i].timeRange.value.end
    ensures forall i | 0 <= i < |periods| :: periods[i].timeRange.value.end <= r
  {
    var e := periods[0].timeRange.value.end;
    if |periods| == 1 then e
    else
      var rest := MaxEnd(periods[1..]);
      assert forall i | 1 <= i < |periods| :: periods[i] == periods[1..][i - 1];
      if rest <= e then e else rest
  }

  /** `max((v for v in s if v is not None), default=None)` */
  function MaxPresent(s: seq<Option<int>>): (r: Option<int>)
    ensures r.None? <==> forall i | 0 <= i < |s| :: s[i].None?
    ensures r.Some? ==> r in s && forall i | 0 <= i < |s| && s[i].Some? :: s[i].value <= r.value
  {
    if s == [] then None
    else
      var rest := MaxPresent(s[1..]);
      assert forall i | 1 <= i < |s| :: s[i] == s[1..][i - 1];
      if s[0].None? then rest
      else if rest.None? || rest.value <= s[0].value then s[0]
      else rest
  }

  /** `min((v for v in s if v is not None), default=None)` */
  function MinPresent(s: seq<Option<int>>): (r: Option<int>)
    ensures r.None? <==> forall i | 0 <= i < |s| :: s[i].None?
    ensures r.Some? ==> r in s && forall i | 0 <= i < |s| && s[i].Some? :: r.value <= s[i].value
  {
    if s == [] then None
    else
      var rest := MinPresent(s[1..]);
      assert forall i | 1 <= i < |s| :: s[i] == s[1..][i - 1];
      if s[0].None? then rest
      else if rest.None? || s[0].value <= rest.value then s[0]
      else rest
  }

  function NewestTimes(periods: seq<TimePeriodOverview>): seq<Option<int>> {
    seq(|periods|, i requires 0 <= i < |periods| => periods[i].newestDatasetCreationTime)
  }

  function GenTimes(periods: seq<TimePeriodOverview>): seq<Option<int>> {
    seq(|periods|, i requires 0 <= i < |periods| => periods[i].summaryGenTime)
  }

  /**
   * `p.footprint_count and p.footprint_geometry and p.footprint_geometry.is_valid
   *  and not p.footprint_geometry.is_empty`
   */
  predicate HasValidFootprint(p: TimePeriodOverview, geo: Shapely) {
    && p.footprintCount.Some? && p.footprintCount.value != 0
    && geo.Truthy(p.footprintGeometry)
    && geo.isValid(p.footprintGeometry.value)
    && !geo.isEmpty(p.footprintGeometry.value)
  }

  /** `with_valid_geometries` */
  function WithValidGeometries(periods: seq<TimePeriodOverview>, geo: Shapely): (r: seq<TimePeriodOverview>)
    ensures forall p :: p in r <==> p in periods && HasValidFootprint(p, geo)
  {
    if periods == [] then []
    else (if HasValidFootprint(periods[0], geo) then [periods[0]] else []) + WithValidGeometries(periods[1..], geo)
  }

  /** The footprint geometries of the periods that have one. */
  function Footprints(periods: seq<TimePeriodOverview>): seq<Geometry> {
    if periods == [] then []
    else
      var head := if periods[0].footprintGeometry.Some? then [periods[0].footprintGeometry.value] else [];
      head + Footprints(periods[1..])
  }

  /** `[g.buffer(0.001) for g in gs]` */
  function Buffered(gs: seq<Geometry>, geo: Shapely): seq<Geometry> {
    seq(|gs|, i requires 0 <= i < |gs| => geo.buffered(gs[i]))
  }

  /**
   * `unary_union` of the valid footprints, `None` when there are none; when
   * the first union raises `ValueError` the union of the slightly buffered
   * footprints is taken instead.
   */
  function FootprintUnion(valid: seq<TimePeriodOverview>, geo: Shapely): (r: Option<Geometry>)
    ensures r.None? <==> valid == []
    ensures valid != [] && !geo.unionRaises(Footprints(valid)) ==> r == Some(geo.unaryUnion(Footprints(valid)))
    ensures valid != [] && geo.unionRaises(Footprints(valid)) ==> r == Some(geo.unaryUnion(Buffered(Footprints(valid), geo)))
  {
    if valid == [] then None
    else
      var gs := Footprints(valid);
      if geo.unionRaises(gs) then Some(geo.unaryUnion(Buffered(gs, geo))) else Some(geo.unaryUnion(gs))
  }

  /** `sum(p.footprint_count for p in periods)`, an absent count adding nothing. */
  function SumFootprints(periods: seq<TimePeriodOverview>): nat {
    if periods == [] then 0
    else
      var head := if periods[0].footprintCount.Some? then periods[0].footprintCount.value else 0;
      head + SumFootprints(periods[1..])
  }

  /**
   * What `add_periods(periods, group_by_month)` returns.  Empty periods are
   * dropped; with none left the result is the empty overview.  Otherwise the
   * dataset counts add up, the per-day counters add up key by key (or, when
   * grouped by month, month by month under the month's first day), the period
   * is the last one's (or 'month'), the time range spans all ranges, the
   * footprint is the union of the valid ones and counts only their datasets,
   * and the timestamps are the latest creation and the earliest generation.
   */
  ghost predicate Aggregates(r: TimePeriodOverview, periods: seq<TimePeriodOverview>, groupByMonth: bool, geo: Shapely)
    requires forall p | p in periods :: WellFormed(p)
  {
    var ne := NonEmpty(periods);
    if ne == [] then r == Nothing
    else
      var valid := WithValidGeometries(ne, geo);
      && r.datasetCount == SumDatasetCounts(ne)
      && r.datasetCounts.Some?
      && Distinct(r.datasetCounts.value)
      && Total(r.datasetCounts.value) == TotalAcross(ne)
      && (if groupByMonth then
            && (forall i | 0 <= i < |r.datasetCounts.value| :: r.datasetCounts.value[i].0.day == 1)
            && Positive(r.datasetCounts.value)
            && (forall ms :: Count(r.datasetCounts.value, ms) == MonthCountAcross(ne, ms))
          else
            && Keys(r.datasetCounts.value) == KeysAcross(ne)
            && forall k :: Count(r.datasetCounts.value, k) == CountAcross(ne, k))
      && r.datasetsGeojson.None?
      && r.period == (if groupByMonth then Some("month") else ne[|ne| - 1].period)
      && r.timeRange == Some(Range(MinBegin(ne), MaxEnd(ne)))
      && r.footprintGeometry == FootprintUnion(valid, geo)
      && r.footprintCount == Some(SumFootprints(valid))
      && r.newestDatasetCreationTime == MaxPresent(NewestTimes(ne))
      && r.summaryGenTime == MinPresent(GenTimes(ne))
      && r.footprintCrs.None?
      && r.regionDatasetCounts == []
  }

  /** Every date some period's counter holds, zero counts included. */
  function KeysAcross(periods: seq<TimePeriodOverview>): set<Date> {
    if periods == [] then {}
    else KeysAcross(periods[..|periods| - 1]) + Keys(CountsOf(periods[|periods| - 1]))
  }

  /** The counter after `counter.update(p.dataset_counts)` for each period in turn. */
  function Combined(periods: seq<TimePeriodOverview>): Counter<Date> {
    if periods == [] then []
    else UpdateWith(Combined(periods[..|periods| - 1]), CountsOf(periods[|periods| - 1]))
  }

  /** The combined counter is the key-by-key (and month-by-month) sum of the periods' counters. */
  lemma {:induction false} CombinedCounts(periods: seq<TimePeriodOverview>)
    ensures Keys(Combined(periods)) == KeysAcross(periods)
    ensures Distinct(Combined(periods))
    ensures Total(Combined(periods)) == TotalAcross(periods)
    ensures forall k :: Count(Combined(periods), k) == CountAcross(periods, k)
    ensures forall ms :: MonthCount(Combined(periods), ms) == MonthCountAcross(periods, ms)
  {
    if periods != [] {
      var init, last := periods[..|periods| - 1], periods[|periods| - 1];
      CombinedCounts(init);
      forall ms ensures MonthCount(Combined(periods), ms) == MonthCountAcross(periods, ms) {
        MonthCountUpdateWith(Combined(init), CountsOf(last), ms);
      }
    }
  }

  /** The record `add_periods` returns for non-empty periods, given the final counter and period. */
  function Folded(ne: seq<TimePeriodOverview>, counter: Counter<Date>, period: Option<string>, geo: Shapely): TimePeriodOverview
    requires ne != [] && forall p | p in ne :: p.timeRange.Some?
  {
    var valid := WithValidGeometries(ne, geo);
    TimePeriodOverview(
      SumDatasetCounts(ne),
      Some(counter),
      None,
      period,
      Some(Range(MinBegin(ne), MaxEnd(ne))),
      FootprintUnion(valid, geo),
      Some(SumFootprints(valid)),
      MaxPresent(NewestTimes(ne)),
      MinPresent(GenTimes(ne)),
      None,
      [])
  }

  /** The merged counter, regrouped by month or not, with the matching period, makes the aggregate. */
  lemma FoldedAggregates(periods: seq<TimePeriodOverview>, groupByMonth: bool, geo: Shapely)
    requires forall p | p in periods :: WellFormed(p)
    requires NonEmpty(periods) != []
    ensures var ne := NonEmpty(periods);
      Aggregates(
        Folded(ne,
               if groupByMonth then GroupByMonth(Combined(ne)) else Combined(ne),
               if groupByMonth then Some("month") else ne[|ne| - 1].period,
               geo),
        periods, groupByMonth, geo)
  {
    CombinedCounts(NonEmpty(periods));
  }

  /** `TimePeriodOverview.add_periods(periods, group_by_month)` */
  method AddPeriods(periods: seq<TimePeriodOverview>, groupByMonth: bool, geo: Shapely) returns (r: TimePeriodOverview)
    requires forall p | p in periods :: WellFormed(p)
    ensures Aggregates(r, periods, groupByMonth, geo)
  {
    var ne := NonEmpty(periods);
    if ne == [] {
      return Nothing;
    }
    var counter: Counter<Date> := [];
    var period: Option<string> := None;
    for i := 0 to |ne|
      invariant counter == Combined(ne[..i])
      invariant period == if i == 0 then None else ne[i - 1].period
    {
      assert ne[..i + 1][..i] == ne[..i];
      counter := UpdateWith(counter, CountsOf(ne[i]));
      period := ne[i].period;
    }
    assert ne[..|ne|] == ne;
    if groupByMonth {
      counter := GroupByMonth(counter);
      period := Some("month");
    }
    r := Folded(ne, counter, period, geo);
    FoldedAggregates(periods, groupByMonth, geo);
  }

  /** Dropping the empty periods loses no datasets. */
  lemma {:induction false} NonEmptyKeepsDatasetCount(periods: seq<TimePeriodOverview>)
    ensures SumDatasetCounts(NonEmpty(periods)) == SumDatasetCounts(periods)
  {
    if periods != [] {
      NonEmptyKeepsDatasetCount(periods[1..]);
      var head := if periods[0].datasetCount > 0 then [periods[0]] else [];
      SumDatasetCountsAppend(head, NonEmpty(periods[1..]));
    }
  }

  lemma {:induction false} SumDatasetCountsAppend(a: seq<TimePeriodOverview>, b: seq<TimePeriodOverview>)
    ensures SumDatasetCounts(a + b) == SumDatasetCounts(a) + SumDatasetCounts(b)
  {
    if a != [] {
      assert (a + b)[0] == a[0] && (a + b)[1..] == a[1..] + b;
      SumDatasetCountsAppend(a[1..], b);
    } else {
      assert a + b == b;
    }
  }

  lemma {:induction false} SumFootprintsAppend(a: seq<TimePeriodOverview>, b: seq<TimePeriodOverview>)
    ensures SumFootprints(a + b) == SumFootprints(a) + SumFootprints(b)
  {
    if a != [] {
      assert (a + b)[0] == a[0] && (a + b)[1..] == a[1..] + b;
      SumFootprintsAppend(a[1..], b);
    } else {
      assert a + b == b;
    }
  }

  lemma {:induction false} NonEmptyFootprints(periods: seq<TimePeriodOverview>)
    ensures SumFootprints(NonEmpty(periods)) <= SumFootprints(periods)
  {
    if periods != [] {
      NonEmptyFootprints(periods[1..]);
      SumFootprintsAppend(if periods[0].datasetCount > 0 then [periods[0]] else [], NonEmpty(periods[1..]));
    }
  }

  lemma {:induction false} ValidFootprints(periods: seq<TimePeriodOverview>, geo: Shapely)
    ensures SumFootprints(WithValidGeometries(periods, geo)) <= SumFootprints(periods)
  {
    if periods != [] {
      ValidFootprints(periods[1..], geo);
      SumFootprintsAppend(if HasValidFootprint(periods[0], geo) then [periods[0]] else [],
                          WithValidGeometries(periods[1..], geo));
    }
  }

  /**
   * The footprint count of a fold never exceeds the inputs' footprint counts
   * together; its dataset count is that of all inputs, empty or not.
   */
  lemma AggregateCounts(r: TimePeriodOverview, periods: seq<TimePeriodOverview>, groupByMonth: bool, geo: Shapely)
    requires forall p | p in periods :: WellFormed(p)
    requires Aggregates(r, periods, groupByMonth, geo)
    ensures r.datasetCount == SumDatasetCounts(periods)
    ensures r.footprintCount.Some? ==> r.footprintCount.value <= SumFootprints(periods)
  {
    NonEmptyKeepsDatasetCount(periods);
    NonEmptyFootprints(periods);
    ValidFootprints(NonEmpty(periods), geo);
  }

  /** The fold's time range contains the range of every non-empty input. */
  lemma AggregateTimeRange(r: TimePeriodOverview, periods: seq<TimePeriodOverview>, groupByMonth: bool, geo: Shapely, p: TimePeriodOverview)
    requires forall q | q in periods :: WellFormed(q)
    requires Aggregates(r, periods, groupByMonth, geo)
    requires p in periods && p.datasetCount > 0
    ensures r.timeRange.Some?
    ensures r.timeRange.value.begin <= p.timeRange.value.begin
    ensures p.timeRange.value.end <= r.timeRange.value.end
  {
    var ne := NonEmpty(periods);
    var i :| 0 <= i < |ne| && ne[i] == p;
  }

  /** A fold is itself well formed, so folds can be folded again. */
  lemma AggregateWellFormed(r: TimePeriodOverview, periods: seq<TimePeriodOverview>, groupByMonth: bool, geo: Shapely)
    requires forall p | p in periods :: WellFormed(p)
    requires Aggregates(r, periods, groupByMonth, geo)
    ensures WellFormed(r)
  {
  }

  /**
   * Grouped by month, the aggregate counter holds exactly the month starts
   * whose months have datasets: `elements()` drops the zero counts.
   */
  lemma GroupedKeys(r: TimePeriodOverview, periods: seq<TimePeriodOverview>, geo: Shapely)
    requires forall p | p in periods :: WellFormed(p)
    requires Aggregates(r, periods, true, geo) && NonEmpty(periods) != []
    ensures forall ms :: ms in Keys(r.datasetCounts.value) <==> MonthCountAcross(NonEmpty(periods), ms) > 0
  {
    var c := r.datasetCounts.value;
    forall ms ensures ms in Keys(c) <==> Count(c, ms) > 0 {
      if ms in Keys(c) {
        var j :| 0 <= j < |c| && c[j].0 == ms;
        PositiveCount(c, j);
      } else {
        CountAbsent(c, ms);
      }
    }
  }

  /** Grouping by month regroups the same datasets: the counters' totals agree. */
  lemma GroupingKeepsTotal(grouped: TimePeriodOverview, daily: TimePeriodOverview, periods: seq<TimePeriodOverview>, geo: Shapely)
    requires forall p | p in periods :: WellFormed(p)
    requires Aggregates(grouped, periods, true, geo)
    requires Aggregates(daily, periods, false, geo)
    ensures grouped.datasetCounts.Some? <==> daily.datasetCounts.Some?
    ensures grouped.datasetCounts.Some? ==> Total(grouped.datasetCounts.value) == Total(daily.datasetCounts.value)
  {
  }
}
