/** The elevation service over a digital surface model: a lazily opened
    raster dataset, single-point lookups and gridded reads. Opening the
    raster, sampling it at a point and reading a resampled window are I/O:
    their outcomes enter the operations as parameters. */
module Elevation {
  import opened Common
  import Geometry
  import opened Arith

  /** The raster's geographic extent (rasterio's left/bottom/right/top). */
  datatype RasterBounds = RasterBounds(left: real, bottom: real, right: real, top: real)

  /** An opened raster dataset: its extent and its nodata value. */
  class Dataset {
    const bounds: RasterBounds
    const nodata: Option<real>
    var isOpen: bool

    constructor Open(bounds: RasterBounds, nodata: Option<real>)
      ensures this.bounds == bounds && this.nodata == nodata && isOpen
    {
      this.bounds := bounds;
      this.nodata := nodata;
      isOpen := true;
    }

    method Close()
      modifies this
      ensures !isOpen
    {
      isOpen := false;
    }
  }

  /** What `next(dataset.sample([(lon, lat)]))[0]` produced: no sample at
      all (StopIteration), an exception, or a value that may be null. */
  datatype Sample = NoSample | Raised | Value(value: Option<real>)

  /** _is_point_in_bounds: both ends of both ranges are included. */
  predicate IsPointInBounds(b: RasterBounds, lat: real, lon: real): (r: bool)
    // no point is inside an empty extent
    ensures r ==> b.left <= b.right && b.bottom <= b.top
  {
    b.left <= lon <= b.right && b.bottom <= lat <= b.top
  }

  /** The four corners of a non-empty extent are inside it. */
  lemma CornersAreInBounds(b: RasterBounds)
    requires b.left <= b.right && b.bottom <= b.top
    ensures IsPointInBounds(b, b.bottom, b.left) && IsPointInBounds(b, b.top, b.right)
    ensures IsPointInBounds(b, b.top, b.left) && IsPointInBounds(b, b.bottom, b.right)
  {
  }

  /** _is_nodata: a defined nodata value equal to the sampled value. */
  predicate IsNodata(nodata: Option<real>, value: Option<real>): (r: bool)
    // a raster without a nodata value has no nodata sample, and a null
    // sample is never nodata
    ensures nodata.None? || value.None? ==> !r
    ensures r ==> value.value == nodata.value
  {
    nodata.Some? && value == Some(nodata.value)
  }

  /** get_point_elevation once the dataset is at hand: None when the point
      is outside the raster, when nothing or an exception came back from
      sampling, when the value is nodata and when it is null. */
  function PointElevation(b: RasterBounds, nodata: Option<real>, lat: real, lon: real, sample: Sample): (r: Option<real>)
    ensures r.Some? <==>
      IsPointInBounds(b, lat, lon) && sample.Value? && sample.value.Some? && nodata != sample.value
    ensures r.Some? ==> sample == Value(r)
    ensures !IsPointInBounds(b, lat, lon) ==> r == None
  {
    if !IsPointInBounds(b, lat, lon) then None
    else match sample
      case NoSample => None
      case Raised => None
      case Value(value) =>
        if IsNodata(nodata, value) then None
        else if value.None? then None
        else Some(value.value)
  }

  /** A raster value as a grid elevation: None when it equals a defined
      nodata value, the value itself otherwise. */
  function ToElevation(val: real, nodata: Option<real>): (e: Option<real>)
    ensures e.None? <==> nodata == Some(val)
    ensures e.Some? ==> e.value == val
    ensures nodata.None? ==> e == Some(val)
  {
    if nodata.Some? && val == nodata.value then None else Some(val)
  }

  /** numpy.linspace, which get_elevation_grid uses: unlike the geometry
      helper it gives no value for a count of 0 and `start` (not the
      midpoint) for a count of 1. */
  function NumpyLinspace(start: real, stop: real, num: nat): (r: seq<real>)
    ensures |r| == num
    ensures num >= 1 ==> r[0] == start
    ensures num >= 2 ==> r[num - 1] == stop
    ensures num >= 2 ==> forall i :: 0 <= i < num - 1 ==> r[i + 1] - r[i] == Geometry.Step(start, stop, num)
  {
    if num == 0 then []
    else if num == 1 then [start]
    else Geometry.Linspace(start, stop, num)
  }

  /** A raster window of `res` rows of `res` values each. */
  predicate IsWindow(raster: seq<seq<real>>, res: nat)
  {
    |raster| == res && forall row :: row in raster ==> |row| == res
  }

  /** The grid entry for latitude index i and longitude index j: its
      elevation comes from raster row res - 1 - i, column j. */
  function GridEntry(lats: seq<real>, lons: seq<real>, raster: seq<seq<real>>, nodata: Option<real>, res: nat, i: nat, j: nat): ElevationSample
    requires |lats| == |lons| == res && IsWindow(raster, res) && i < res && j < res
  {
    assert raster[res - 1 - i] in raster;
    ElevationSample(lats[i], lons[j], ToElevation(raster[res - 1 - i][j], nodata))
  }

  /** The first n entries of grid row i. */
  function GridRow(lats: seq<real>, lons: seq<real>, raster: seq<seq<real>>, nodata: Option<real>, res: nat, i: nat, n: nat): (r: seq<ElevationSample>)
    requires |lats| == |lons| == res && IsWindow(raster, res) && i < res && n <= res
    ensures |r| == n
  {
    if n == 0 then [] else GridRow(lats, lons, raster, nodata, res, i, n - 1) + [GridEntry(lats, lons, raster, nodata, res, i, n - 1)]
  }

  /** Grid rows 0 .. m - 1, one after the other. */
  function GridRows(lats: seq<real>, lons: seq<real>, raster: seq<seq<real>>, nodata: Option<real>, res: nat, m: nat): (r: seq<ElevationSample>)
    requires |lats| == |lons| == res && IsWindow(raster, res) && m <= res
  {
    if m == 0 then [] else GridRows(lats, lons, raster, nodata, res, m - 1) + GridRow(lats, lons, raster, nodata, res, m - 1, res)
  }

  lemma {:induction false} GridRowAt(lats: seq<real>, lons: seq<real>, raster: seq<seq<real>>, nodata: Option<real>, res: nat, i: nat, n: nat, j: nat)
    requires |lats| == |lons| == res && IsWindow(raster, res) && i < res && j < n <= res
    ensures GridRow(lats, lons, raster, nodata, res, i, n)[j] == GridEntry(lats, lons, raster, nodata, res, i, j)
  {
    if j < n - 1 {
      GridRowAt(lats, lons, raster, nodata, res, i, n - 1, j);
    }
  }

  /** Rows 0 .. m - 1 hold m * res entries, entry (i, j) at i * res + j. */
  lemma {:induction false} GridRowsAt(lats: seq<real>, lons: seq<real>, raster: seq<seq<real>>, nodata: Option<real>, res: nat, m: nat, i: nat, j: nat)
    requires |lats| == |lons| == res && IsWindow(raster, res) && m <= res
    ensures |GridRows(lats, lons, raster, nodata, res, m)| == RowStart(res, m)
    ensures i < m && j < res ==>
      Cell(res, i, j) < RowStart(res, m) &&
      GridRows(lats, lons, raster, nodata, res, m)[Cell(res, i, j)] == GridEntry(lats, lons, raster, nodata, res, i, j)
  {
    if m > 0 {
      GridRowsAt(lats, lons, raster, nodata, res, m - 1, i, j);
      var earlier := GridRows(lats, lons, raster, nodata, res, m - 1);
      var last := GridRow(lats, lons, raster, nodata, res, m - 1, res);
      assert GridRows(lats, lons, raster, nodata, res, m) == earlier + last;
      if i < m && j < res {
        RowMajorBound(res, i, j, m);
        if i == m - 1 {
          GridRowAt(lats, lons, raster, nodata, res, i, res, j);
          AppendIndexRight(earlier, last, j);
        } else {
          AppendIndexLeft(earlier, last, Cell(res, i, j));
        }
      }
    }
  }

  /** The whole grid: res * res entries, (i, j) at i * res + j. */
  lemma GridRowsEntries(lats: seq<real>, lons: seq<real>, raster: seq<seq<real>>, nodata: Option<real>, res: nat)
    requires |lats| == |lons| == res && IsWindow(raster, res)
    ensures |GridRows(lats, lons, raster, nodata, res, res)| == RowStart(res, res)
    ensures forall i: nat, j: nat :: i < res && j < res ==>
      Cell(res, i, j) < RowStart(res, res) &&
      GridRows(lats, lons, raster, nodata, res, res)[Cell(res, i, j)] == GridEntry(lats, lons, raster, nodata, res, i, j)
  {
    GridRowsAt(lats, lons, raster, nodata, res, res, 0, 0);
    forall i: nat, j: nat | i < res && j < res
      ensures Cell(res, i, j) < RowStart(res, res) &&
        GridRows(lats, lons, raster, nodata, res, res)[Cell(res, i, j)] == GridEntry(lats, lons, raster, nodata, res, i, j)
    {
      GridRowsAt(lats, lons, raster, nodata, res, res, i, j);
    }
  }

  /** Why get_elevation_grid raised. */
  datatype GridError = NegativeResolution | DatasetUnavailable

  /** The service: a DSM path and the dataset opened from it, kept once
      opened until Close. */
  class ElevationService {
    const dsmPath: string
    var dataset: Option<Dataset>

    constructor(dsmPath: string)
      ensures this.dsmPath == dsmPath && dataset == None
    {
      this.dsmPath := dsmPath;
      dataset := None;
    }

    /** _get_dataset: opens the dataset only while none is cached and
        returns the cached one afterwards. `opening` is what opening the
        DSM path yields (None when rasterio.open raises). */
    method GetDataset(opening: Option<Dataset>) returns (r: Option<Dataset>)
      modifies this
      ensures old(dataset).Some? ==> dataset == old(dataset)
      ensures old(dataset).None? ==> dataset == opening
      ensures r == dataset
    {
      if dataset.None? {
        dataset := opening;
      }
      r := dataset;
    }

    /** close: closes and forgets the cached dataset; nothing to do when
        none is cached. */
    method Close()
      modifies this, if dataset.Some? then {dataset.value} else {}
      ensures dataset == None
      ensures old(dataset).Some? ==> !old(dataset).value.isOpen
    {
      if dataset.Some? {
        dataset.value.Close();
        dataset := None;
      }
    }

    /** get_point_elevation: the lookup chain on the cached (or newly
        opened) dataset; any exception, an open that fails included, gives
        None. `sample` is what sampling the dataset at (lon, lat) yields. */
    method GetPointElevation(lat: real, lon: real, opening: Option<Dataset>, sample: Sample) returns (e: Option<real>)
      modifies this
      ensures old(dataset).Some? ==> dataset == old(dataset)
      ensures old(dataset).None? ==> dataset == opening
      ensures dataset.None? ==> e == None
      ensures dataset.Some? ==> e == PointElevation(dataset.value.bounds, dataset.value.nodata, lat, lon, sample)
    {
      var d := GetDataset(opening);
      if d.None? {
        return None;
      }
      var ds := d.value;
      if !IsPointInBounds(ds.bounds, lat, lon) {
        return None;
      }
      if sample.NoSample? || sample.Raised? {
        return None;
      }
      var value := sample.value;
      if IsNodata(ds.nodata, value) {
        return None;
      }
      if value.None? {
        return None;
      }
      return Some(value.value);
    }

    /** get_elevation_grid: a resolution x resolution grid, row i at the
        i-th latitude and column j at the j-th longitude, its elevation read
        from raster row resolution - 1 - i (the window's rows run from north
        to south) and nodata mapped to None. `raster` is the window that
        reading the dataset with out_shape (resolution, resolution) yields. */
    method GetElevationGrid(bounds: GeoBounds, resolution: int, opening: Option<Dataset>, raster: seq<seq<real>>)
      returns (r: Result<(seq<ElevationSample>, int, int), GridError>)
      requires resolution >= 0 ==> IsWindow(raster, resolution)
      modifies this
      ensures resolution < 0 ==> r == Err(NegativeResolution) && dataset == old(dataset)
      ensures resolution >= 0 && old(dataset).Some? ==> dataset == old(dataset)
      ensures resolution >= 0 && old(dataset).None? ==> dataset == opening
      ensures resolution >= 0 ==> (r.Err? <==> dataset.None?)
      ensures r.Ok? ==> resolution >= 0 && r.value.1 == resolution && r.value.2 == resolution
      ensures r.Ok? ==> |r.value.0| == RowStart(resolution as nat, resolution as nat)
      ensures r.Ok? ==>
        var res := resolution as nat;
        var lats := NumpyLinspace(bounds.minLatitude, bounds.maxLatitude, res);
        var lons := NumpyLinspace(bounds.minLongitude, bounds.maxLongitude, res);
        forall i: nat, j: nat :: i < res && j < res ==>
          Cell(res, i, j) < |r.value.0| &&
          r.value.0[Cell(res, i, j)] == GridEntry(lats, lons, raster, dataset.value.nodata, res, i, j)
    {
      if resolution < 0 {
        return Err(NegativeResolution);
      }
      var res := resolution as nat;
      var latVals := NumpyLinspace(bounds.minLatitude, bounds.maxLatitude, res);
      var lonVals := NumpyLinspace(bounds.minLongitude, bounds.maxLongitude, res);
      var d := GetDataset(opening);
      if d.None? {
        return Err(DatasetUnavailable);
      }
      var results := ReadGrid(latVals, lonVals, raster, d.value.nodata, res);
      GridRowsEntries(latVals, lonVals, raster, d.value.nodata, res);
      return Ok((results, res, res));
    }
  }

  /** The grid loop of get_elevation_grid: latitude index i outer,
      longitude index j inner, each entry read from raster row res - 1 - i. */
  method ReadGrid(latVals: seq<real>, lonVals: seq<real>, raster: seq<seq<real>>, nodata: Option<real>, res: nat)
    returns (results: seq<ElevationSample>)
    requires |latVals| == |lonVals| == res && IsWindow(raster, res)
    ensures results == GridRows(latVals, lonVals, raster, nodata, res, res)
  {
    results := [];
    for i := 0 to res
      invariant results == GridRows(latVals, lonVals, raster, nodata, res, i)
    {
      results := ReadGridRow(latVals, lonVals, raster, nodata, res, i, results);
    }
  }

  /** One pass of the outer loop: the inner loop over the longitudes
      appends the entries of grid row i to the results so far. */
  method ReadGridRow(latVals: seq<real>, lonVals: seq<real>, raster: seq<seq<real>>, nodata: Option<real>, res: nat, i: nat,
                     before: seq<ElevationSample>)
    returns (results: seq<ElevationSample>)
    requires |latVals| == |lonVals| == res && IsWindow(raster, res) && i < res
    ensures results == before + GridRow(latVals, lonVals, raster, nodata, res, i, res)
  {
    results := before;
    var row := res - i - 1;
    assert raster[row] in raster;
    for j := 0 to res
      invariant results == before + GridRow(latVals, lonVals, raster, nodata, res, i, j)
    {
      var val := raster[row][j];
      var elevation := if nodata.Some? && val == nodata.value then None else Some(val);
      results := results + [ElevationSample(latVals[i], lonVals[j], elevation)];
    }
  }
}
