# Summary bookkeeping of the datacube explorer, in Dafny

The datacube explorer (cubedash) shows products of an Open Data Cube index.
For each product it shows summaries: how many datasets exist per day, the
combined footprint, and the region counts. It works at several levels: a day,
a month, a year, the whole product, or everything. This project models two
layers of the explorer and proves what they promise.

- **Summaries and their store** (`cubedash/summary/_summarise.py`).
  - A `TimePeriodOverview` is one summary. `add_periods` folds several
    summaries into one.
  - `calculate_summary` counts the datasets of one index search, day by day.
  - `SummaryStore` is a cache keyed by `(product, year, month, day)`.
    `update` decides from the key how to produce a summary: compute it from
    the index, or aggregate the summaries one level down. It stores the
    result and announces it to the update listeners.
- **The request layer** (`cubedash/_model.py`).
  - `get_summary` fetches a page's summary.
  - `get_products_with_summaries` lists the products that have summaries.
  - `get_footprint_geojson` builds the footprint Feature.
  - `get_regions_geojson` builds the per-region FeatureCollection. Each region
    is clipped to the footprint only where the footprint's boundary crosses it.

Modules, in dependency order:

| file | module | what |
|---|---|---|
| `wrappers.dfy` | `Wrappers` | `Option`, and `Result` for the Python exceptions the code raises |
| `geo.dfy` | `Geo` | an abstract `Geometry` and the shapely/pyproj operations as uninterpreted functions |
| `counters.dfy` | `Counters` | `collections.Counter` as an insertion-ordered association list |
| `datacube.dfy` | `Datacube` | what the core reads from the index: products, region schemes, search results |
| `overview.dfy` | `Overview` | `TimePeriodOverview` and `add_periods` |
| `summarise.dfy` | `Summarise` | the counting core of `calculate_summary` and the dataset feature list |
| `strings.dfy` | `Strings` | Python's string order and `sorted()` |
| `store.dfy` | `Store` | `SummaryStore` as a class over a key→summary map and a log of listener calls |
| `model.dfy` | `Model` | the request-level functions of `_model.py` |

How the source is modelled:

- **Python truthiness.**
  - A year, month or day is set when it is present and not 0.
  - A product name is set when it is present and not empty.
  - A geometry is truthy when it is present and not empty.
  - A `TimePeriodOverview` is a non-empty tuple, so it is always truthy.
- **Counters.** A `Counter` is a list of `(key, count)` pairs in insertion
  order. Zero counts are kept. Every operation keeps the keys distinct.
- **The store.** The backend's `get` and `put` are a map.
- **Aggregation.** The three aggregate branches of `update` share one loop
  over the key's parts (`Store.Children`).
- **Store contracts.** `update` and `get_or_update` are mutually recursive.
  Their contracts state six things:
  - the result at every level;
  - that no summary stored earlier is lost (`get_or_update` never recomputes one);
  - that nothing is stored outside the key's own subtree;
  - that a newly stored key is the key itself, or a part of the key or of
    another newly stored key, so only missing parts are computed and stored
    (`Store.SummaryStore.OnlyMissingParts`);
  - that every summary newly stored for another key is what `update`
    computes for that key: a month from the index, an aggregate from its
    stored parts (`Store.SummaryStore.Settled`);
  - that the last listener calls announce the result to every listener, in
    registration order, and each earlier new call announces a newly stored
    part with its stored summary.
- **The clock.** `datetime.utcnow()` (line 280) and `datetime.today().year`
  (line 204) are the parameter `Clock`.

The footprint Feature's `dataset_count` property holds the period's
`footprint_count` (cubedash/_model.py:126), not its dataset count.

## Model

| member | source | states |
|---|---|---|
| Counters.Increment | cubedash/summary/_summarise.py:264-267 | counting one more dataset on a date raises that date's count by one and no other; the total count rises by one, the keys gain the date, keys stay distinct and positive counts stay positive |
| Counters.UpdateWith | cubedash/summary/_summarise.py:57-58 | `Counter.update` with a counter adds counts key by key; totals add up, keys are the union, keys stay distinct |
| Counters.GroupByMonth | cubedash/summary/_summarise.py:61-65 | regrouping by month counts under each month's first day all that month's datasets; the total is preserved; every key is a first day of a month; keys are distinct and counts positive |
| Counters.GroupByMonthKeys | cubedash/summary/_summarise.py:62-65 | every key of the regrouped counter is the first day of a month with a positive count in the original |
| Counters.Zeros | cubedash/summary/_summarise.py:261-263 | the initial day counter has exactly the requested days as keys, all counted 0 |
| Counters.CountOfDistinct | cubedash/_model.py:215 | with distinct keys, looking a key up gives that entry's count |
| Datacube.Index.ProductByName | cubedash/_model.py:143-145 | finds a product with the given name, or reports that the index has none |
| Overview.NonEmpty | cubedash/summary/_summarise.py:50 | the kept periods are exactly the inputs with datasets |
| Overview.MinBegin | cubedash/summary/_summarise.py:94 | the earliest begin is one of the begins and no begin is earlier |
| Overview.MaxEnd | cubedash/summary/_summarise.py:95 | the latest end is one of the ends and no end is later |
| Overview.MaxPresent | cubedash/summary/_summarise.py:99-105 | the latest present time, absent exactly when no time is present |
| Overview.MinPresent | cubedash/summary/_summarise.py:106-112 | the earliest present time, absent exactly when no time is present |
| Overview.WithValidGeometries | cubedash/summary/_summarise.py:68-71 | keeps exactly the periods with a footprint count and a valid, non-empty footprint |
| Overview.CombinedCounts | cubedash/summary/_summarise.py:57-58 | the accumulated counter holds exactly the dates of all the periods' counters, zero counts included, and is their key-by-key and month-by-month sum, with distinct keys and the summed total |
| Overview.AddPeriods | cubedash/summary/_summarise.py:48-113 | empty periods are dropped; with none left the result is the empty overview; otherwise counts add up, counters merge keeping every input date (or regroup by month with period 'month', keeping only months with datasets), the period is the last one's, the range spans all ranges, the footprint is the union of the valid footprints and counts only theirs, the newest creation is the latest and the generation time the earliest |
| Overview.FoldedAggregates | cubedash/summary/_summarise.py:57-113 | the record built from the merged counter (regrouped by month when asked) and the last period's name is the aggregate of the periods |
| Overview.FootprintUnion | cubedash/summary/_summarise.py:73-86 | absent exactly when no period has a valid footprint; otherwise the union of the valid footprints, or of their buffered forms when the first union raises `ValueError` |
| Overview.NonEmptyKeepsDatasetCount | cubedash/summary/_summarise.py:50 | dropping empty periods loses no datasets |
| Overview.ValidFootprints | cubedash/summary/_summarise.py:68-71 | keeping only valid footprints never raises the footprint sum |
| Overview.AggregateCounts | cubedash/summary/_summarise.py:89 | an aggregate's dataset count is the sum over all inputs, and its footprint count is at most the inputs' footprint counts summed (line 98) |
| Overview.AggregateTimeRange | cubedash/summary/_summarise.py:93-96 | an aggregate's time range contains every non-empty input's range |
| Overview.AggregateWellFormed | cubedash/summary/_summarise.py:88-96 | an aggregate with datasets has a time range, so aggregates can be aggregated again |
| Overview.GroupedKeys | cubedash/summary/_summarise.py:61-66 | grouped by month, the aggregate counter holds exactly the month starts whose months have datasets |
| Overview.GroupingKeepsTotal | cubedash/summary/_summarise.py:61-66 | grouping by month or not, the aggregate counters hold the same total |
| Summarise.DatasetShapes | cubedash/summary/_summarise.py:253-256 | the footprints are non-empty, no more than the datasets, and none only if no dataset has a shape |
| Summarise.DatasetShapesMembers | cubedash/summary/_summarise.py:253-256 | a geometry is a footprint exactly when some dataset has it as its non-empty shape |
| Summarise.ShapedDatasets | cubedash/summary/_summarise.py:307 | the datasets kept for features are exactly those with a non-empty shape |
| Summarise.ShapesOfShapedDatasets | cubedash/summary/_summarise.py:253-256 | the footprints are the shapes of the kept datasets, one each, in the same order |
| Summarise.DatasetShapesAppend | cubedash/summary/_summarise.py:253-256 | the footprints of two runs of datasets are the footprints of the first followed by those of the second |
| Summarise.DatasetShapesCount | cubedash/summary/_summarise.py:253-256 | there are exactly as many footprints as datasets with a non-empty shape |
| Summarise.DatasetToFeature | cubedash/summary/_summarise.py:311-322 | the feature carries the dataset's id, its shape as geometry, its valid-extent flag and its start time |
| Summarise.DatasetsToFeature | cubedash/summary/_summarise.py:304-308 | one feature per footprint, in order, whose geometry is that footprint; every feature is the feature of a dataset with a non-empty shape, and every such dataset's feature is present |
| Summarise.DatasetsToFeatureAsWritten | cubedash/summary/_summarise.py:304-315 | as written, a dataset without a shape raises `AttributeError`; otherwise feature i is the feature of dataset i, for every dataset |
| Summarise.ShapelessDatasetRaises | cubedash/summary/_summarise.py:272-273 | one dataset with a shape and one without pass the display guard, yet the feature list as written raises |
| Summarise.NewestCreatedAsWritten | cubedash/summary/_summarise.py:278-279 | as written, `TypeError` is raised exactly when there are two or more creation times and one is absent; otherwise the latest time |
| Summarise.UndatedDatasetRaises | cubedash/summary/_summarise.py:278-279 | a dated and an undated dataset make the creation-time maximum as written raise, where the latest present time exists |
| Summarise.TalliedCounts | cubedash/summary/_summarise.py:260-267 | the day counter has every requested day and every dataset's date as keys, counts each dataset once on its date and totals the number of datasets |
| Summarise.SummaryRecordSummarises | cubedash/summary/_summarise.py:269-287 | the record built once every dataset is counted is the search's summary |
| Summarise.CalculateSummary | cubedash/summary/_summarise.py:235-287 | the summary of a search: every dataset counted on its local date, every requested day present, footprint the union of the non-empty shapes counting them, features kept only for 1 to 599 shapes, period 'day', the search's time range, the latest creation time |
| Summarise.SummaryBounds | cubedash/summary/_summarise.py:269-281 | a computed summary has footprint count ≤ dataset count, features exactly when 0 < footprint count < 600 (as many as footprints), a footprint exactly when the count is positive, and is well formed |
| Strings.StrLeTotal | cubedash/summary/_summarise.py:223-228 | any two names are ordered one way or the other |
| Strings.StrLeTransitive | cubedash/summary/_summarise.py:223-228 | string order is transitive |
| Strings.StrLeAntisymmetric | cubedash/summary/_summarise.py:223-228 | names ordered both ways are equal |
| Strings.Insert | cubedash/summary/_summarise.py:223-228 | inserting into a sorted list keeps it sorted and adds exactly the one name |
| Strings.Sort | cubedash/summary/_summarise.py:223-228 | `sorted()` returns a sorted permutation of its input |
| Strings.SortedUnique | cubedash/summary/_summarise.py:223-228 | a sorted permutation is unique, so the sorted list is determined by its names |
| Store.Children | cubedash/summary/_summarise.py:196-210 | the parts of a year, product or everything lie one level further down and are never days |
| Store.BeneathChild | cubedash/summary/_summarise.py:196-210 | a key a part may store is also one its aggregate may store |
| Store.BeneathLower | cubedash/summary/_summarise.py:196-210 | with non-empty product names, every other key an aggregate may store lies at a lower level, so the recursion ends |
| Store.EmptyNameAsksForItself | cubedash/summary/_summarise.py:201-210 | as written, a product named "" has the all-products key's level, and updating it asks for its own key again |
| Store.NoChildIsSelf | cubedash/summary/_summarise.py:196-210 | with non-empty product names, no key is among its own parts |
| Store.IntendedChildren | cubedash/summary/_summarise.py:186-210 | under the intended dispatch, where a key naming any product, "" included, is that product's summary, every part lies strictly lower for every list of names, so the recursion ends |
| Store.IntendedAgreesWhenNamed | cubedash/summary/_summarise.py:186-210 | for keys without a product or with a non-empty name, the intended dispatch and its parts are the written ones |
| Store.GrowsTransitive | cubedash/summary/_summarise.py:163-178 | two steps that each keep what was stored and store only beneath the key make one such step |
| Store.SummaryStore.constructor | cubedash/summary/_summarise.py:117-120 | a new store over an index with non-empty product names is valid, holds no summaries and has announced nothing |
| Store.SummaryStore.Get | cubedash/summary/_summarise.py:139-145 | finds the summary stored under the key, absent when there is none |
| Store.SummaryStore.Has | cubedash/summary/_summarise.py:156-161 | holds exactly when `get` finds a summary |
| Store.SummaryStore.Put | cubedash/summary/_summarise.py:147-154 | stores the summary under the key, replacing any old one, and changes nothing else |
| Store.SummaryStore.Announcements | cubedash/summary/_summarise.py:213-214 | one call per listener, in registration order, each with the key and the summary |
| Store.SummaryStore.Notify | cubedash/summary/_summarise.py:213-214 | appends exactly those calls to the log and leaves the summaries alone |
| Store.SummaryStore.GetOrUpdate | cubedash/summary/_summarise.py:163-178 | a stored summary is returned without any change; otherwise the result and effects are those of `update`; no stored summary is lost, a non-day result is stored under the key, every newly stored summary and new listener call is one `update` computes, and only the key and parts missing before are stored |
| Store.SummaryStore.Update | cubedash/summary/_summarise.py:180-216 | a day is computed from the index and neither stored nor announced; a month is computed, stored under its key alone and announced once to each listener; a year, a product or everything is `add_periods` of its parts' stored summaries, stored and announced last; every other newly stored summary is the month or aggregate computed for its key, and every earlier new call announces such a part with its stored summary; summaries stored earlier survive, and a newly stored key is the key itself or a part of the key or of another newly stored key, so parts already stored are not computed again |
| Store.SummaryStore.UpdateMonth | cubedash/summary/_summarise.py:191-195 | a month is computed from the index, stored under its key alone and announced once to each listener (lines 212-214) |
| Store.SummaryStore.UpdateAggregate | cubedash/summary/_summarise.py:196-216 | a year, product or everything is `add_periods` of its parts' stored summaries, stored under its key and announced last; every part newly stored on the way is the month or aggregate computed for it, and announced only with its stored summary; earlier summaries survive and only parts missing before are stored |
| Store.SummaryStore.MissingPartsTransitive | cubedash/summary/_summarise.py:196-210 | two runs that each store only missing parts of the key make one such run |
| Store.SummaryStore.MissingPartOfChild | cubedash/summary/_summarise.py:163-178 | a part's `get_or_update` stores something only when the part was missing, and then only missing parts beneath it |
| Store.SummaryStore.MissingPartsStoring | cubedash/summary/_summarise.py:212 | storing the aggregate after its missing parts still stores only missing parts |
| Store.SummaryStore.ComputedStable | cubedash/summary/_summarise.py:191-210 | what `update` computes for a key depends only on its parts' stored summaries, so storing elsewhere leaves it computed |
| Store.SummaryStore.SettledTransitive | cubedash/summary/_summarise.py:196-214 | two runs of part updates that each store and announce only computed summaries make one such run |
| Store.SummaryStore.SettledBeneath | cubedash/summary/_summarise.py:196-212 | storing the aggregate under its own key, above parts that never store it, leaves every part computed |
| Store.SummaryStore.SettledByUpdate | cubedash/summary/_summarise.py:170-178 | after `update` of a key not stored before, every new summary, the key's own included, and every new call is a computed one |
| Store.SummaryStore.NewKeyComputed | cubedash/summary/_summarise.py:212 | a computed summary newly stored under the key joins the parts' computed summaries |
| Store.SummaryStore.NewKeyAnnounced | cubedash/summary/_summarise.py:213-214 | the key's own listener calls, after the parts' calls, announce only newly stored keys with their stored summaries |
| Store.SummaryStore.MonthsComputed | cubedash/summary/_summarise.py:196-200 | the months a year stores in an empty store are each computed from the index |
| Store.SummaryStore.YearFromEmptyStore | cubedash/summary/_summarise.py:196-200 | updating a year in an empty store stores every month computed from the index, aggregates exactly those, and announces the year only in the last calls |
| Store.GrowsByStoring | cubedash/summary/_summarise.py:212 | storing the aggregate itself on top of what its parts stored keeps every earlier summary but the aggregate's own and stores nothing outside its subtree |
| Store.SummaryStore.StillAggregated | cubedash/summary/_summarise.py:196-212 | storing the aggregate under its own key leaves its parts' summaries, and so the aggregate relation, unchanged |
| Store.SummaryStore.StoredAggregate | cubedash/summary/_summarise.py:212-214 | an aggregate stored under its key, with the listener calls appended, is the outcome `update` promises |
| Store.SummaryStore.SummarisePart | cubedash/summary/_summarise.py:196-210 | one part's `get_or_update` keeps the stored summaries, stores the part's own summary, and stores and announces only summaries `update` computes for parts missing before |
| Store.SummaryStore.SummariseParts | cubedash/summary/_summarise.py:196-210 | afterwards every part has a stored summary, the collected summaries are those stored summaries in order, nothing stored is lost, the aggregate's own entry is not touched, every new summary and call is a computed one, and only missing parts are stored |
| Store.SummaryStore.Complete | cubedash/summary/_summarise.py:224-226 | the index names that have a whole-product summary, each as often as the index lists it |
| Store.SummaryStore.ListCompleteProducts | cubedash/summary/_summarise.py:218-229 | sorted, and a name is listed exactly when it is an index product's name with a whole-product summary, as often as the index lists it |
| Model.GetSummary | cubedash/_model.py:46-56 | with no day only the stored summary is read and nothing changes; with a day the result is present: the stored one if any (nothing changes), else `update`'s |
| Model.ProductsByName | cubedash/_model.py:94 | every product's name maps to a product of that name |
| Model.LastNamedWins | cubedash/_model.py:94 | a name maps to the last product that has it |
| Model.ListedProductsKnown | cubedash/_model.py:94-103 | every complete product listed has an index product of that name and a stored whole-product summary, so the lookups cannot fail |
| Model.ProductsWithSummaries | cubedash/_model.py:89-105 | `RuntimeError` exactly when no product is complete; otherwise one pair per listed name, in that order, with an index product of that name and its stored whole-product summary |
| Model.Footprint | cubedash/_model.py:166-187 | absent exactly when the period has no datasets or no non-empty footprint; otherwise the reprojected footprint |
| Model.FootprintGeojson | cubedash/_model.py:114-130 | absent exactly when there is no summary or no truthy reprojected footprint; otherwise a Feature with the footprint, `dataset_count` = the footprint count, the product name and the time spec `[year, month, day]` |
| Model.GetFootprintGeojson | cubedash/_model.py:108-130 | the Feature built from what `get_summary` fetched |
| Model.RegionGeometryFunction | cubedash/_model.py:222-243 | without a footprint: the extent function itself, absent exactly when the scheme has none; with a footprint: the cut closure over the extent and the footprint |
| Model.GeometryAt | cubedash/_model.py:230-241 | raises exactly when a footprint is given but the scheme has no extents; the plain extent is returned unchanged |
| Model.CheapPathKeepsExtent | cubedash/_model.py:225-241 | with no footprint, or a region the footprint's boundary does not cross, the region's extent comes back unchanged |
| Model.BoundaryRegionIsCut | cubedash/_model.py:238-239 | a region crossed by the boundary is cut to footprint ∩ extent |
| Model.RegionWithinExtent | cubedash/_model.py:228-241 | whenever intersections lie within their operands, each region's geometry lies within its extent |
| Model.MinValue | cubedash/_model.py:199 | the least count is one of the counts and no count is lower |
| Model.MaxValue | cubedash/_model.py:199 | the greatest count is one of the counts and no count is higher |
| Model.RegionFeatures | cubedash/_model.py:208-218 | one feature per counter entry in order, with its code, label, count and geometry; raises exactly when a geometry call raises |
| Model.RegionsFeatureCollection | cubedash/_model.py:190-219 | nothing exactly when there is no geometry function; `ValueError` for no counts; otherwise scheme name and unit label copied, min ≤ max, both attained and bounding every count, one feature per entry with its code, label, count and geometry |
| Model.OneFeaturePerRegion | cubedash/_model.py:208-218 | the feature codes are distinct and are exactly the counter's region codes, each with its own count |
| Model.FeaturesMatchEntries | cubedash/_model.py:208-218 | features that follow a distinct-keyed counter entry by entry have distinct codes, cover exactly its keys and carry each entry's count |
| Model.RegionsGeojson | cubedash/_model.py:139-163 | nothing for no summary; `RuntimeError` for an unknown product; nothing for empty region counts or a product without a region scheme; otherwise the region collection; never the `ValueError` of `min()` |
| Model.GetRegionsGeojson | cubedash/_model.py:133-163 | the region collection built from what `get_summary` fetched |
| Model.TwoRegions | cubedash/_model.py:199-218 | regions counted 1 and 2 give two features in order, min 1, max 2, and the scheme's name |
| Model.NoRegionCounts | cubedash/_model.py:147-148 | a summary without region counts gives no region collection |

## Left out

- Geometry is not computed. `unary_union`, `is_valid`, `is_empty`, `buffer(0.001)`, `boundary`, `prepared.prep`, `intersects`, `intersection` and the pyproj transform are uninterpreted functions. They are floating-point geometry in foreign libraries.
- `add_periods` retries the union on `ValueError` with buffered footprints. The model only records whether the first union raises, and takes the second union's result. A second `ValueError` is not modelled.
- `SummaryStore.init`, which does nothing, and `get_last_updated`, which returns `None` in the base class, are not modelled.
- `calculate_summary`'s index query, `_utils.as_time_range`, `pandas.date_range` and the conversion to the Australia/Darwin zone are not modelled. A `Search` supplies the time range, the requested days and each dataset's local date, shape and creation time.
- `_dataset_created`'s metadata parsing is not modelled. A dataset's creation time is an input.
- A dataset feature has no `label`, because `_utils.dataset_label` is not part of this model. `__geo_interface__` is the geometry itself.
- Update listeners are the abstract type `Listener`. A call to one is recorded in the `announced` log, not run. The source registers listeners in code that is not part of this model, so they are passed to the constructor.
- `index.datasets.types.get_all()`, used by `list_complete_products`, is taken to list the same products as `index.products.get_all()`.
- The model assumes every index product has a non-empty name (part of `Store.SummaryStore.Valid`). For a product named "", the all-products aggregate asks for itself and never ends (see "## Findings"). The store keeps the written dispatch (`Store.Children`); with non-empty names it is the intended one (`Store.IntendedAgreesWhenNamed`).
- Store.SummaryStore.Update: one `Clock` serves a whole update. The source calls `datetime.utcnow()` once per computed month (line 280), so months computed in one update get different `summary_gen_time` values. It also reads the year afresh for every product (line 204).
- Store.SummaryStore.Update, Store.SummaryStore.UpdateAggregate, Store.SummaryStore.SummariseParts, Store.SummaryStore.SummarisePart, Store.SummaryStore.GetOrUpdate: every earlier new listener call is for a newly stored part, with its stored summary. These contracts do not state that every new part is announced, how many times, or in what order.
- Summarise.CalculateSummary: the `unary_union` of the footprints at line 258 has no `try`, unlike lines 73-86. The model takes it never to raise: the footprint is the union even where `unionRaises` holds, so the `ValueError` that would pass out of `update`, `get_or_update` and `get_summary` is not modelled.
- Summarise.CalculateSummary: it follows the corrected feature list (`Summarise.DatasetsToFeature`) and the corrected creation-time maximum (`Overview.MaxPresent`). The as-written forms raise `AttributeError` and `TypeError` (see "## Findings"). `Store.SummaryStore.Update`, `GetOrUpdate` and `Model.GetSummary` build on it, so they never model those exceptions.
- `RegionInfo.for_product` is the product's `regions` field.
- `flask_caching` memoization, the Flask app, the module-level `STORE` connection, `get_datasets_geojson`, structlog logging and `time.time()` timing are not modelled. They are plumbing or pass-throughs to code that is not shown.
- `Model.GetSummary`: the memoization cache is not modelled, so two calls may differ if the store changed in between.

## Findings

| source | as written | input that shows it | evidently intended | confidence | as-written member | corrected member |
|---|---|---|---|---|---|---|
| cubedash/summary/_summarise.py:307 | `if ds[1]` tests the `(shape, valid_extent)` pair, which is never falsy, so a dataset without a shape reaches `shape.__geo_interface__` | a search finding one dataset with a non-empty shape and one with no shape: `0 < len(dataset_shapes) < 600` holds and `AttributeError` is raised | keep only datasets whose shape is truthy, one feature per footprint | high, not executed | Summarise.DatasetsToFeatureAsWritten, Summarise.ShapelessDatasetRaises | Summarise.DatasetsToFeature |
| cubedash/summary/_summarise.py:278-279 | `max(_dataset_created(...), default=None)` does not drop `None`, and comparing `None` with a datetime raises | two datasets, one with creation time t and one whose metadata has none: `TypeError` | the latest creation time among those known, as `add_periods` computes at lines 99-105 | medium, not executed | Summarise.NewestCreatedAsWritten, Summarise.UndatedDatasetRaises | Overview.MaxPresent |
| cubedash/summary/_summarise.py:201-210 | a product named "" is falsy, so `update` for it takes the all-products branch, which calls `get_or_update` for every product, itself among them | an index with a product whose name is "": `update("", None, None, None)` recurses until `RecursionError` | a product's summary is the aggregate of its years, whatever its name | medium, not executed | Store.EmptyNameAsksForItself | Store.IntendedChildren |
