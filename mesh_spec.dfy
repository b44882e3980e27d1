/** What generate_stl builds, stage by stage, as functions of its inputs:
    the terrain surface, the base, the walls joining the terrain's rim to
    the base, and the track ribbon. Vertices are numbered in the order they
    are appended; terrain vertex (i, j) of a grid `width` samples wide is
    number Cell(width, i, j), that is i * width + j. */
module MeshSpec {
  import opened Common
  import opened Extremes
  import opened Arith

  /** A point of the model, in millimetres. */
  datatype Vertex = Vertex(x: real, y: real, z: real)

  /** A triangle, as three vertex numbers. */
  datatype Face = Face(a: int, b: int, c: int)

  /** The generation options of generate_stl. pathRadiusMm is accepted but
      has no effect on the mesh. */
  datatype Settings = Settings(
    baseThicknessMm: real,
    modelWidthMm: real,
    altitudeMultiplier: real,
    pathElevationMm: real,
    pathRadiusMm: real)

  /** The two ValueErrors raised on invalid input, and what the source, as
      written, raises on a grid holding a None elevation: ZeroDivisionError
      for the scale when the longitude span is zero, TypeError from the
      minimum elevation otherwise. */
  datatype MeshError = InvalidElevationGrid | TrackPointsRequired | ZeroGeoWidth | ElevationsNotComparable

  /** Corner j (0, 1 or 2) of a face. */
  function Corner(f: Face, j: int): int
    requires 0 <= j < 3
  {
    if j == 0 then f.a else if j == 1 then f.b else f.c
  }

  /** All three corners of f are vertex numbers below n. */
  predicate FaceWithin(f: Face, n: int)
  {
    0 <= f.a < n && 0 <= f.b < n && 0 <= f.c < n
  }

  predicate FacesWithin(fs: seq<Face>, n: int)
  {
    forall k :: 0 <= k < |fs| ==> FaceWithin(fs[k], n)
  }

  // ---------------------------------------------------------------------
  // The frame: origin, elevation floor and scale shared by every vertex

  function GridLatitudes(grid: seq<ElevationSample>): seq<real>
  {
    seq(|grid|, k requires 0 <= k < |grid| => grid[k].latitude)
  }

  function GridLongitudes(grid: seq<ElevationSample>): seq<real>
  {
    seq(|grid|, k requires 0 <= k < |grid| => grid[k].longitude)
  }

  predicate HasElevation(grid: seq<ElevationSample>)
  {
    exists k :: 0 <= k < |grid| && grid[k].elevation.Some?
  }

  /** The elevations that are present, in grid order (what numpy's nanmin
      looks at). */
  function PresentElevations(grid: seq<ElevationSample>): (r: seq<real>)
    ensures forall k :: 0 <= k < |grid| && grid[k].elevation.Some? ==> grid[k].elevation.value in r
    ensures forall e :: e in r ==> exists k :: 0 <= k < |grid| && grid[k].elevation == Some(e)
  {
    if |grid| == 0 then []
    else
      var rest := PresentElevations(grid[1..]);
      assert forall k :: 1 <= k < |grid| ==> grid[k] == grid[1..][k - 1];
      if grid[0].elevation.Some? then [grid[0].elevation.value] + rest else rest
  }

  /** The grid can be drawn: it has samples, at least one elevation and a
      positive longitude span (the divisor of the scale). */
  predicate Drawable(grid: seq<ElevationSample>)
  {
    |grid| > 0 && HasElevation(grid) && MinOf(GridLongitudes(grid)) < MaxOf(GridLongitudes(grid))
  }

  /** The lowest elevation present in the grid. */
  function MinElevation(grid: seq<ElevationSample>): (m: real)
    requires HasElevation(grid)
    ensures forall k :: 0 <= k < |grid| && grid[k].elevation.Some? ==> m <= grid[k].elevation.value
    ensures exists k :: 0 <= k < |grid| && grid[k].elevation == Some(m)
  {
    var k :| 0 <= k < |grid| && grid[k].elevation.Some?;
    var present := PresentElevations(grid);
    assert grid[k].elevation.value in present;
    var m := MinOf(present);
    assert forall e :: e in present ==> m <= e;
    m
  }

  /** As written, np.nanmin does not skip a None elevation: a None entry
      makes the grid an object array, where only values unequal to
      themselves (NaN) are masked, and ordering None against any other
      entry raises TypeError. A single sample is never compared. */
  predicate NanMinRaises(grid: seq<ElevationSample>): (r: bool)
    // it raises exactly when some pair of distinct entries involves a None
    ensures r <==> exists j, k :: 0 <= j < k < |grid| && (grid[j].elevation.None? || grid[k].elevation.None?)
  {
    if |grid| >= 2 && HoldsNone(grid) then
      var k :| 0 <= k < |grid| && grid[k].elevation.None?;
      var other := if k == 0 then 1 else 0;
      assert other != k && (grid[other].elevation.None? || grid[k].elevation.None?);
      assert if other < k then 0 <= other < k < |grid| else 0 <= k < other < |grid|;
      true
    else
      false
  }

  predicate HoldsNone(grid: seq<ElevationSample>)
  {
    exists k :: 0 <= k < |grid| && grid[k].elevation.None?
  }

  /** As written, the scale's division raises ZeroDivisionError on a grid
      holding a None elevation whose longitude span is zero: in an object
      array np.max and np.min give Python floats, and Python's division by
      0.0 raises (an all-number grid divides numpy floats instead, which
      gives infinity). This happens before the minimum elevation is taken. */
  predicate ScaleRaises(grid: seq<ElevationSample>): (r: bool)
    ensures r ==> |grid| > 0 && !Drawable(grid)
  {
    |grid| > 0 && HoldsNone(grid) && MinOf(GridLongitudes(grid)) == MaxOf(GridLongitudes(grid))
  }

  /** Where vertex coordinates are measured from and how they are scaled. */
  datatype Frame = Frame(minLongitude: real, minLatitude: real, minElevation: real, scale: real)

  /** The model width divided by the longitude span. */
  function FrameOf(grid: seq<ElevationSample>, modelWidthMm: real): (f: Frame)
    requires Drawable(grid)
    ensures modelWidthMm > 0.0 ==> f.scale > 0.0
  {
    var lons := GridLongitudes(grid);
    Frame(MinOf(lons), MinOf(GridLatitudes(grid)), MinElevation(grid), ScaleFor(modelWidthMm, MaxOf(lons) - MinOf(lons)))
  }

  /** The frame maps the grid's east edge to the model width. */
  lemma FrameSpansWidth(grid: seq<ElevationSample>, modelWidthMm: real)
    requires Drawable(grid)
    ensures var f := FrameOf(grid, modelWidthMm);
      Stretch(f.scale, MaxOf(GridLongitudes(grid)) - f.minLongitude) == modelWidthMm
  {
    var lons := GridLongitudes(grid);
    var span := MaxOf(lons) - MinOf(lons);
    var f := FrameOf(grid, modelWidthMm);
    assert f.scale == ScaleFor(modelWidthMm, span) && f.minLongitude == MinOf(lons);
  }

  /** No sample lies west or south of the frame's origin. */
  lemma FrameBelowGrid(grid: seq<ElevationSample>, modelWidthMm: real, k: nat)
    requires Drawable(grid) && k < |grid|
    ensures var f := FrameOf(grid, modelWidthMm);
      f.minLongitude <= grid[k].longitude && f.minLatitude <= grid[k].latitude
  {
    assert GridLongitudes(grid)[k] == grid[k].longitude;
    assert GridLatitudes(grid)[k] == grid[k].latitude;
  }

  /** The scale that stretches a longitude span to the model width. */
  function ScaleFor(modelWidthMm: real, span: real): (scale: real)
    requires span > 0.0
    ensures Stretch(scale, span) == modelWidthMm
    ensures modelWidthMm > 0.0 ==> scale > 0.0
  {
    ScaleSpan(modelWidthMm, span);
    PositiveScale(modelWidthMm, span);
    modelWidthMm / span
  }

  // ---------------------------------------------------------------------
  // Terrain

  /** The elevation used for a sample: its own, or the floor when missing. */
  function SampleElevation(s: ElevationSample, f: Frame): real
  {
    if s.elevation.None? then f.minElevation else s.elevation.value
  }

  function TerrainVertex(s: ElevationSample, f: Frame, altitudeMultiplier: real): (v: Vertex)
    ensures s.elevation.None? ==> v.z == 0.0
  {
    Vertex(Stretch(f.scale, s.longitude - f.minLongitude),
           Stretch(f.scale, s.latitude - f.minLatitude),
           Stretch(f.scale, SampleElevation(s, f) - f.minElevation) * altitudeMultiplier)
  }

  /** One terrain vertex per sample, in grid order. */
  function TerrainVertices(samples: seq<ElevationSample>, f: Frame, altitudeMultiplier: real): (r: seq<Vertex>)
    ensures |r| == |samples|
    ensures forall k :: 0 <= k < |samples| ==> r[k] == TerrainVertex(samples[k], f, altitudeMultiplier)
  {
    seq(|samples|, k requires 0 <= k < |samples| => TerrainVertex(samples[k], f, altitudeMultiplier))
  }

  /** The two triangles of grid cell (i, j): its corners v1 = (i, j),
      v2 = (i, j + 1), v3 = (i + 1, j), v4 = (i + 1, j + 1) joined as
      [v1, v2, v3] and [v2, v4, v3]. */
  function CellFaces(width: nat, i: nat, j: nat): seq<Face>
  {
    var v1 := Cell(width, i, j);
    var v3 := Cell(width, i + 1, j);
    [Face(v1, v1 + 1, v3), Face(v1 + 1, v3 + 1, v3)]
  }

  /** The faces added while visiting samples (i, 0) .. (i, n - 1): a cell's
      two triangles for every sample that is not in the last row or the
      last column. */
  function TerrainRowFaces(width: nat, height: nat, i: nat, n: nat): seq<Face>
  {
    if n == 0 then []
    else
      TerrainRowFaces(width, height, i, n - 1) +
      (if i < height - 1 && n - 1 < width - 1 then CellFaces(width, i, n - 1) else [])
  }

  /** The faces added while visiting rows 0 .. m - 1. */
  function TerrainRowsFaces(width: nat, height: nat, m: nat): seq<Face>
  {
    if m == 0 then []
    else TerrainRowsFaces(width, height, m - 1) + TerrainRowFaces(width, height, m - 1, width)
  }

  function TerrainFaces(width: nat, height: nat): seq<Face>
  {
    TerrainRowsFaces(width, height, height)
  }

  // ---------------------------------------------------------------------
  // Base

  /** The four corners of the base rectangle at height baseZ: the model is
      modelWidthMm wide and modelWidthMm * height / width deep. */
  function BaseVertices(modelWidthMm: real, width: nat, height: nat, baseZ: real): (r: seq<Vertex>)
    requires width > 0
    ensures |r| == 4 && forall k :: 0 <= k < 4 ==> r[k].z == baseZ
  {
    var depth := modelWidthMm * height as real / width as real;
    [Vertex(0.0, 0.0, baseZ), Vertex(modelWidthMm, 0.0, baseZ),
     Vertex(0.0, depth, baseZ), Vertex(modelWidthMm, depth, baseZ)]
  }

  /** The base's two triangles, its corners numbered from b. */
  function BaseFaces(b: int): seq<Face>
  {
    [Face(b, b + 1, b + 2), Face(b + 1, b + 3, b + 2)]
  }

  // ---------------------------------------------------------------------
  // Perimeter and walls

  /** For rows 0 .. n - 1: the row's first and last terrain vertex. */
  function Sides(width: nat, n: nat): (r: seq<int>)
    ensures |r| == 2 * n
  {
    if n == 0 then []
    else Sides(width, n - 1) + [RowStart(width, n - 1), RowStart(width, n - 1) + width - 1]
  }

  /** For columns 1 .. m: the column's vertex in the first row, then in
      the last row. */
  function Caps(width: nat, height: nat, m: nat): (r: seq<int>)
    requires height >= 1
    ensures |r| == 2 * m
  {
    if m == 0 then []
    else Caps(width, height, m - 1) + [m, RowStart(width, height - 1) + m]
  }

  /** perimeter_indices: both sides row by row, then the top and bottom
      rows without their corners. */
  function Perimeter(width: nat, height: nat): seq<int>
    requires height >= 1
  {
    Sides(width, height) + Caps(width, height, if width >= 2 then width - 2 else 0)
  }

  /** Two vertex numbers are taken to be neighbours when they differ by 1 or
      by the grid width. */
  predicate Adjacent(a: int, b: int, width: nat): (r: bool)
    ensures r <==> b == a + 1 || b == a - 1 || b == a + width || b == a - width
  {
    var d := if a >= b then a - b else b - a;
    d == 1 || d == width
  }

  /** The walled pairs among the consecutive pairs (p[t], p[t + 1]) for
      t < n, in order. */
  function WallsUpTo(p: seq<int>, width: nat, n: nat): (r: seq<(int, int)>)
    requires n == 0 || n < |p|
    ensures |r| <= n
  {
    if n == 0 then []
    else
      var rest := WallsUpTo(p, width, n - 1);
      if Adjacent(p[n - 1], p[n], width) then rest + [(p[n - 1], p[n])] else rest
  }

  /** The walled pairs of a whole perimeter list. */
  function Walls(p: seq<int>, width: nat): seq<(int, int)>
  {
    WallsUpTo(p, width, if |p| > 0 then |p| - 1 else 0)
  }

  predicate PairsWithin(pairs: seq<(int, int)>, n: int)
  {
    forall k :: 0 <= k < |pairs| ==> 0 <= pairs[k].0 < n && 0 <= pairs[k].1 < n
  }

  /** For every wall, the two terrain vertices' x and y dropped to baseZ. */
  function WallVertices(pairs: seq<(int, int)>, vs: seq<Vertex>, baseZ: real): (r: seq<Vertex>)
    requires PairsWithin(pairs, |vs|)
    ensures |r| == 2 * |pairs|
  {
    if |pairs| == 0 then []
    else
      var (v1, v2) := pairs[|pairs| - 1];
      WallVertices(pairs[..|pairs| - 1], vs, baseZ) +
      [Vertex(vs[v1].x, vs[v1].y, baseZ), Vertex(vs[v2].x, vs[v2].y, baseZ)]
  }

  /** For every wall (v1, v2) whose dropped copies are b1 and b2:
      [v1, v2, b1] and [v2, b2, b1]; the copies are numbered from start. */
  function WallFaces(pairs: seq<(int, int)>, start: int): (r: seq<Face>)
    ensures |r| == 2 * |pairs|
  {
    if |pairs| == 0 then []
    else
      var (v1, v2) := pairs[|pairs| - 1];
      var b1 := start + 2 * (|pairs| - 1);
      WallFaces(pairs[..|pairs| - 1], start) + [Face(v1, v2, b1), Face(v2, b1 + 1, b1)]
  }

  // ---------------------------------------------------------------------
  // Track

  /** The elevation used for track point k: its own when there is one,
      the floor otherwise. */
  function TrackElevation(trackElevations: seq<Option<real>>, k: nat, f: Frame): real
  {
    if k < |trackElevations| && trackElevations[k].Some? then trackElevations[k].value else f.minElevation
  }

  function TrackVertex(p: TrackPoint, trackElevations: seq<Option<real>>, k: nat, f: Frame, settings: Settings): (v: Vertex)
    ensures (k >= |trackElevations| || trackElevations[k].None?) ==> v.z == settings.pathElevationMm
  {
    Vertex(Stretch(f.scale, p.longitude - f.minLongitude),
           Stretch(f.scale, p.latitude - f.minLatitude),
           Stretch(f.scale, TrackElevation(trackElevations, k, f) - f.minElevation) * settings.altitudeMultiplier
             + settings.pathElevationMm)
  }

  /** Track point k projected like the terrain and lifted by the path
      elevation. */
  function TrackVertices(track: seq<TrackPoint>, trackElevations: seq<Option<real>>, f: Frame, settings: Settings): (r: seq<Vertex>)
    ensures |r| == |track|
    ensures forall k :: 0 <= k < |track| ==> r[k] == TrackVertex(track[k], trackElevations, k, f, settings)
  {
    seq(|track|, k requires 0 <= k < |track| => TrackVertex(track[k], trackElevations, k, f, settings))
  }

  /** Copies of track vertices t and t + 1 for every segment t < n. */
  function RibbonVerticesUpTo(tv: seq<Vertex>, n: nat): (r: seq<Vertex>)
    requires n == 0 || n < |tv|
    ensures |r| == 2 * n
  {
    if n == 0 then [] else RibbonVerticesUpTo(tv, n - 1) + [tv[n - 1], tv[n]]
  }

  /** One face per segment t < n: its two copies (numbered from start) and
      the first base corner. */
  function RibbonFacesUpTo(n: nat, start: int, baseStart: int): (r: seq<Face>)
    ensures |r| == n
  {
    if n == 0 then []
    else
      var v1 := start + 2 * (n - 1);
      RibbonFacesUpTo(n - 1, start, baseStart) + [Face(v1, v1 + 1, baseStart)]
  }

  /** The number of ribbon segments for n track points: n - 1, and none
      for fewer than two points. */
  function Segments(n: nat): nat
  {
    if n >= 2 then n - 1 else 0
  }

  function RibbonVertices(tv: seq<Vertex>): seq<Vertex>
  {
    RibbonVerticesUpTo(tv, Segments(|tv|))
  }

  function RibbonFaces(trackLength: nat, start: int, baseStart: int): seq<Face>
  {
    RibbonFacesUpTo(Segments(trackLength), start, baseStart)
  }

  // ---------------------------------------------------------------------
  // The whole mesh

  /** The walls of a grid's perimeter. */
  function GridWalls(width: nat, height: nat): seq<(int, int)>
    requires height >= 1
  {
    Walls(Perimeter(width, height), width)
  }

  /** The vertex list once the base corners are added after the terrain,
      placed by the frame f. */
  function VerticesWithBase(grid: seq<ElevationSample>, f: Frame, width: nat, height: nat, settings: Settings): seq<Vertex>
    requires 0 < |grid| == RowStart(width, height)
  {
    RowStartPositive(width, height);
    TerrainVertices(grid, f, settings.altitudeMultiplier) + BaseVertices(settings.modelWidthMm, width, height, -settings.baseThicknessMm)
  }

  /** The vertex list `vs`, which starts with the terrain, followed by the
      dropped copies of the perimeter walls' ends, read from `vs`. */
  function WithWalls(vs: seq<Vertex>, width: nat, height: nat, baseZ: real): seq<Vertex>
    requires 0 < RowStart(width, height) <= |vs|
  {
    RowStartPositive(width, height);
    PerimeterWithin(width, height);
    WallsWithin(Perimeter(width, height), width, |vs|);
    vs + WallVertices(GridWalls(width, height), vs, baseZ)
  }

  /** The vertex list once the dropped wall copies are added; the copies
      are read from the list as it stands after the base. */
  function VerticesWithWalls(grid: seq<ElevationSample>, f: Frame, width: nat, height: nat, settings: Settings): seq<Vertex>
    requires 0 < |grid| == RowStart(width, height)
  {
    WithWalls(VerticesWithBase(grid, f, width, height, settings), width, height, -settings.baseThicknessMm)
  }

  /** The vertex list generate_stl assembles for valid input: terrain,
      base corners, dropped wall copies, ribbon copies, all placed by the
      grid's frame. */
  function MeshVertices(grid: seq<ElevationSample>, track: seq<TrackPoint>, trackElevations: seq<Option<real>>,
                        width: nat, height: nat, settings: Settings): seq<Vertex>
    requires Drawable(grid) && |grid| == RowStart(width, height)
  {
    var f := FrameOf(grid, settings.modelWidthMm);
    VerticesWithWalls(grid, f, width, height, settings) + RibbonVertices(TrackVertices(track, trackElevations, f, settings))
  }

  /** The face list once the base's two triangles are added. */
  function FacesWithBase(width: nat, height: nat): seq<Face>
  {
    TerrainFaces(width, height) + BaseFaces(RowStart(width, height))
  }

  /** The number of the first dropped wall copy: after the terrain
      vertices and the four base corners. */
  function WallStart(width: nat, height: nat): nat
  {
    RowStart(width, height) + 4
  }

  /** The number of the first ribbon vertex: after the two dropped copies
      of every wall. */
  function RibbonStart(width: nat, height: nat): nat
    requires height >= 1
  {
    WallStart(width, height) + 2 * |GridWalls(width, height)|
  }

  /** The face list once the walls' triangles are added. */
  function FacesWithWalls(width: nat, height: nat): seq<Face>
    requires height >= 1
  {
    FacesWithBase(width, height) + WallFaces(GridWalls(width, height), WallStart(width, height))
  }

  /** The face list generate_stl assembles: it depends only on the grid's
      dimensions and the number of track points. */
  function MeshFaces(width: nat, height: nat, trackLength: nat): seq<Face>
    requires height >= 1
  {
    FacesWithWalls(width, height) + RibbonFaces(trackLength, RibbonStart(width, height), RowStart(width, height))
  }

  /** Every perimeter entry numbers a terrain vertex. */
  lemma PerimeterWithin(width: nat, height: nat)
    requires width >= 1 && height >= 1
    ensures forall k :: 0 <= k < |Perimeter(width, height)| ==> 0 <= Perimeter(width, height)[k] < RowStart(width, height)
  {
    SidesWithin(width, height, height);
    CapsWithin(width, height, if width >= 2 then width - 2 else 0);
  }

  lemma {:induction false} SidesWithin(width: nat, height: nat, n: nat)
    requires width >= 1 && n <= height
    ensures forall k :: 0 <= k < |Sides(width, n)| ==> 0 <= Sides(width, n)[k] < RowStart(width, height)
  {
    if n > 0 {
      SidesWithin(width, height, n - 1);
      RowStartMono(width, n, height);
    }
  }

  lemma {:induction false} CapsWithin(width: nat, height: nat, m: nat)
    requires m == 0 || m + 2 <= width
    requires height >= 1
    ensures forall k :: 0 <= k < |Caps(width, height, m)| ==> 0 <= Caps(width, height, m)[k] < RowStart(width, height)
  {
    if m > 0 {
      CapsWithin(width, height, m - 1);
      RowMajorBound(width, 0, m, height);
      RowMajorBound(width, height - 1, m, height);
    }
  }

  /** Walls join perimeter entries, so they stay within whatever bounds the
      entries. */
  lemma WallsWithin(p: seq<int>, width: nat, n: int)
    requires forall k :: 0 <= k < |p| ==> 0 <= p[k] < n
    ensures PairsWithin(Walls(p, width), n)
  {
    WallsUpToWithin(p, width, if |p| > 0 then |p| - 1 else 0, n);
  }

  lemma {:induction false} WallsUpToWithin(p: seq<int>, width: nat, m: nat, n: int)
    requires m == 0 || m < |p|
    requires forall k :: 0 <= k < |p| ==> 0 <= p[k] < n
    ensures PairsWithin(WallsUpTo(p, width, m), n)
  {
    if m > 0 {
      WallsUpToWithin(p, width, m - 1, n);
      var rest := WallsUpTo(p, width, m - 1);
      if Adjacent(p[m - 1], p[m], width) {
        assert WallsUpTo(p, width, m) == rest + [(p[m - 1], p[m])];
        assert forall k :: 0 <= k < |rest| ==> (rest + [(p[m - 1], p[m])])[k] == rest[k];
      }
    }
  }

  /** Every wall joins two vertices whose numbers differ by 1 or by the
      grid width. */
  lemma {:induction false} WallsUpToAdjacent(p: seq<int>, width: nat, m: nat)
    requires m == 0 || m < |p|
    ensures forall k :: 0 <= k < |WallsUpTo(p, width, m)| ==>
      Adjacent(WallsUpTo(p, width, m)[k].0, WallsUpTo(p, width, m)[k].1, width)
  {
    if m > 0 {
      WallsUpToAdjacent(p, width, m - 1);
      var rest := WallsUpTo(p, width, m - 1);
      if Adjacent(p[m - 1], p[m], width) {
        assert WallsUpTo(p, width, m) == rest + [(p[m - 1], p[m])];
        assert forall k :: 0 <= k < |rest| ==> (rest + [(p[m - 1], p[m])])[k] == rest[k];
      }
    }
  }
}
