/**
 * What the summariser and the web layer read from the datacube index.  The
 * index itself (its queries, `_utils.as_time_range`, `pandas.date_range`, the
 * conversion of centre times to the Australia/Darwin zone and
 * `_dataset_created`) is not modelled: a search hands over its results.
 */
module Datacube {
  import opened Wrappers
  import opened Geo
  import opened Counters

  /** `datacube.model.Range` of two datetimes, kept as timestamps. */
  datatype Range = Range(begin: int, end: int)

  /**
   * `cubedash.summary._extents.RegionInfo`, as far as the web layer uses it:
   * the scheme name, the unit label, a label for each region code and, when
   * the scheme has one, the geometry of each region in display coordinates.
   */
  datatype RegionInfo = RegionInfo(
    name: string,
    unitLabel: string,
    regionLabel: string -> string,
    geographicExtent: Option<string -> Geometry>)

  /** A product of the index, with `RegionInfo.for_product(product)`. */
  datatype Product = Product(name: string, regions: Option<RegionInfo>)

  /**
   * One dataset a search finds, with what `calculate_summary` reads of it:
   * the local date of its centre time, `_utils.dataset_shape` (shape and
   * whether its extent was valid), `_dataset_created` and `time.begin`.
   */
  datatype IndexedDataset = IndexedDataset(
    id: string,
    localDate: Date,
    shape: Option<Geometry>,
    shapeValid: bool,
    created: Option<int>,
    begin: int)

  /** The time range of a search, the days it spans, and the datasets found. */
  datatype Search = Search(time: Range, days: seq<Date>, datasets: seq<IndexedDataset>)

  datatype Index = Index(
    /** `index.products.get_all()`, also what `index.datasets.types.get_all()` lists */
    products: seq<Product>,
    /** `index.datasets.search(product=..., time=as_time_range(year, month[, day]))` */
    search: (Option<string>, int, int, Option<int>) -> Search)
  {
    /** `[p.name for p in index.products.get_all()]` */
    function Names(): seq<string> {
      seq(|products|, i requires 0 <= i < |products| => products[i].name)
    }

    /** `index.products.get_by_name(name)` */
    function ProductByName(name: string): (r: Option<Product>)
      ensures r.Some? ==> r.value.name == name && exists i | 0 <= i < |products| :: products[i] == r.value
      ensures r.None? ==> forall i | 0 <= i < |products| :: products[i].name != name
    {
      FirstNamed(products, name)
    }
  }

  function FirstNamed(products: seq<Product>, name: string): (r: Option<Product>)
    ensures r.Some? ==> r.value.name == name && exists i | 0 <= i < |products| :: products[i] == r.value
    ensures r.None? ==> forall i | 0 <= i < |products| :: products[i].name != name
  {
    if products == [] then None
    else if products[0].name == name then Some(products[0])
    else
      var r := FirstNamed(products[1..], name);
      assert r.Some? ==> exists i | 0 <= i < |products| :: products[i] == r.value by {
        if r.Some? {
          var i :| 0 <= i < |products[1..]| && products[1..][i] == r.value;
          assert products[i + 1] == r.value;
        }
      }
      assert r.None? ==> forall i | 0 <= i < |products| :: products[i].name != name by {
        if r.None? {
          forall i | 0 <= i < |products| ensures products[i].name != name {
            if i > 0 { assert products[i] == products[1..][i - 1]; }
          }
        }
      }
      r
  }
}
