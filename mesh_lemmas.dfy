/** What the assembled mesh satisfies: how many faces the terrain gets and
    where each cell's triangles sit, which perimeter pairs become walls,
    how the ribbon is laid out, that every face names an existing vertex,
    and where the terrain vertices lie in model space. */
module MeshProperties {
  import opened Common
  import opened Extremes
  import opened Arith
  import opened MeshSpec

  // ---------------------------------------------------------------------
  // Faces within a vertex count

  lemma FacesWithinConcat(a: seq<Face>, b: seq<Face>, n: int)
    ensures FacesWithin(a + b, n) <==> FacesWithin(a, n) && FacesWithin(b, n)
  {
    if FacesWithin(a, n) && FacesWithin(b, n) {
      forall k | 0 <= k < |a + b|
        ensures FaceWithin((a + b)[k], n)
      {
        if k >= |a| {
          assert (a + b)[k] == b[k - |a|];
        }
      }
    }
    if FacesWithin(a + b, n) {
      forall k | 0 <= k < |a|
        ensures FaceWithin(a[k], n)
      {
        assert (a + b)[k] == a[k];
      }
      forall k | 0 <= k < |b|
        ensures FaceWithin(b[k], n)
      {
        assert (a + b)[|a| + k] == b[k];
      }
    }
  }

  lemma FacesWithinMono(fs: seq<Face>, m: int, n: int)
    requires FacesWithin(fs, m) && m <= n
    ensures FacesWithin(fs, n)
  {
  }

  // ---------------------------------------------------------------------
  // Terrain faces

  lemma {:induction false} TerrainRowFacesAt(width: nat, height: nat, i: nat, n: nat, j: nat)
    requires width >= 1
    ensures |TerrainRowFaces(width, height, i, n)| == if i < height - 1 then 2 * (if n < width - 1 then n else width - 1) else 0
    ensures i < height - 1 && j < n && j < width - 1 ==>
      TerrainRowFaces(width, height, i, n)[2 * j] == CellFaces(width, i, j)[0] &&
      TerrainRowFaces(width, height, i, n)[2 * j + 1] == CellFaces(width, i, j)[1]
  {
    if n > 0 {
      TerrainRowFacesAt(width, height, i, n - 1, j);
    }
  }

  lemma {:induction false} TerrainRowsFacesLength(width: nat, height: nat, m: nat)
    requires width >= 1 && height >= 1 && m <= height
    ensures |TerrainRowsFaces(width, height, m)| == 2 * RowStart(width - 1, if m < height - 1 then m else height - 1)
  {
    if m > 0 {
      var prev := TerrainRowsFaces(width, height, m - 1);
      var row := TerrainRowFaces(width, height, m - 1, width);
      assert TerrainRowsFaces(width, height, m) == prev + row;
      TerrainRowsFacesLength(width, height, m - 1);
      TerrainRowFacesAt(width, height, m - 1, width, 0);
      if m - 1 < height - 1 {
        assert |row| == 2 * (width - 1);
        assert RowStart(width - 1, m) == RowStart(width - 1, m - 1) + (width - 1);
      } else {
        assert |row| == 0;
      }
    }
  }

  lemma {:induction false} TerrainRowsFacesAt(width: nat, height: nat, m: nat, i: nat, j: nat)
    requires width >= 1 && height >= 1 && m <= height
    requires i < m && i < height - 1 && j < width - 1
    ensures 2 * Cell(width - 1, i, j) + 1 < |TerrainRowsFaces(width, height, m)|
    ensures TerrainRowsFaces(width, height, m)[2 * Cell(width - 1, i, j)] == CellFaces(width, i, j)[0]
    ensures TerrainRowsFaces(width, height, m)[2 * Cell(width - 1, i, j) + 1] == CellFaces(width, i, j)[1]
  {
    var prev := TerrainRowsFaces(width, height, m - 1);
    var row := TerrainRowFaces(width, height, m - 1, width);
    assert TerrainRowsFaces(width, height, m) == prev + row;
    var k := 2 * Cell(width - 1, i, j);
    if i < m - 1 {
      TerrainRowsFacesAt(width, height, m - 1, i, j);
      AppendIndexLeft(prev, row, k);
      AppendIndexLeft(prev, row, k + 1);
    } else {
      TerrainRowsFacesLength(width, height, m - 1);
      TerrainRowFacesAt(width, height, m - 1, width, j);
      assert k == |prev| + 2 * j;
      AppendIndexRight(prev, row, 2 * j);
      AppendIndexRight(prev, row, 2 * j + 1);
    }
  }

  /** The terrain gets two triangles for each of the (width - 1) *
      (height - 1) cells, and the triangles of cell (i, j) are the pair at
      positions 2 * k and 2 * k + 1 where k numbers the cell row-major:
      [v1, v2, v3] then [v2, v4, v3] with v1 = i * width + j,
      v2 = v1 + 1, v3 = v1 + width, v4 = v3 + 1. */
  lemma TerrainFacesLayout(width: nat, height: nat, i: nat, j: nat)
    requires width >= 1 && height >= 1
    ensures |TerrainFaces(width, height)| == 2 * (width - 1) * (height - 1)
    ensures i < height - 1 && j < width - 1 ==>
      var k := Cell(width - 1, i, j);
      var v1 := Cell(width, i, j);
      var v3 := Cell(width, i + 1, j);
      v3 == v1 + width &&
      2 * k + 1 < |TerrainFaces(width, height)| &&
      TerrainFaces(width, height)[2 * k] == Face(v1, v1 + 1, v3) &&
      TerrainFaces(width, height)[2 * k + 1] == Face(v1 + 1, v3 + 1, v3)
  {
    TerrainRowsFacesLength(width, height, height);
    if i < height - 1 && j < width - 1 {
      TerrainRowsFacesAt(width, height, height, i, j);
    }
    RowStartIsProduct(width - 1, height - 1);
  }

  lemma {:induction false} TerrainRowFacesWithin(width: nat, height: nat, i: nat, n: nat)
    requires width >= 1 && i < height && n <= width
    ensures FacesWithin(TerrainRowFaces(width, height, i, n), RowStart(width, height))
  {
    if n > 0 {
      TerrainRowFacesWithin(width, height, i, n - 1);
      if i < height - 1 && n - 1 < width - 1 {
        RowMajorBound(width, i + 1, n, height);
      }
      FacesWithinConcat(TerrainRowFaces(width, height, i, n - 1),
        if i < height - 1 && n - 1 < width - 1 then CellFaces(width, i, n - 1) else [], RowStart(width, height));
    }
  }

  lemma {:induction false} TerrainRowsFacesWithin(width: nat, height: nat, m: nat)
    requires width >= 1 && m <= height
    ensures FacesWithin(TerrainRowsFaces(width, height, m), RowStart(width, height))
  {
    if m > 0 {
      TerrainRowsFacesWithin(width, height, m - 1);
      TerrainRowFacesWithin(width, height, m - 1, width);
      FacesWithinConcat(TerrainRowsFaces(width, height, m - 1), TerrainRowFaces(width, height, m - 1, width), RowStart(width, height));
    }
  }

  /** Terrain faces only use terrain vertices. */
  lemma TerrainFacesWithin(width: nat, height: nat)
    requires width >= 1
    ensures FacesWithin(TerrainFaces(width, height), RowStart(width, height))
  {
    TerrainRowsFacesWithin(width, height, height);
  }

  // ---------------------------------------------------------------------
  // Perimeter

  lemma {:induction false} SidesAt(width: nat, n: nat, i: nat)
    requires i < n
    ensures Sides(width, n)[2 * i] == RowStart(width, i)
    ensures Sides(width, n)[2 * i + 1] == RowStart(width, i) + width - 1
  {
    if i < n - 1 {
      SidesAt(width, n - 1, i);
    }
  }

  lemma {:induction false} CapsAt(width: nat, height: nat, m: nat, j: nat)
    requires height >= 1 && 1 <= j <= m
    ensures Caps(width, height, m)[2 * (j - 1)] == j
    ensures Caps(width, height, m)[2 * (j - 1) + 1] == RowStart(width, height - 1) + j
  {
    if j < m {
      CapsAt(width, height, m - 1, j);
    }
  }

  /** perimeter_indices has 2 * height + 2 * (width - 2) entries: first
      the first and last vertex of every row i at positions 2 * i and
      2 * i + 1, then for every column j strictly between the corners its
      vertex in the first and in the last row at positions
      2 * height + 2 * (j - 1) and the next one; each entry numbers a
      terrain vertex. */
  lemma PerimeterLayout(width: nat, height: nat, i: nat, j: nat)
    requires width >= 2 && height >= 1
    ensures |Perimeter(width, height)| == 2 * height + 2 * (width - 2)
    ensures i < height ==>
      Perimeter(width, height)[2 * i] == Cell(width, i, 0) &&
      Perimeter(width, height)[2 * i + 1] == Cell(width, i, width - 1)
    ensures 1 <= j <= width - 2 ==>
      Perimeter(width, height)[2 * height + 2 * (j - 1)] == Cell(width, 0, j) &&
      Perimeter(width, height)[2 * height + 2 * (j - 1) + 1] == Cell(width, height - 1, j)
    ensures forall k :: 0 <= k < |Perimeter(width, height)| ==> 0 <= Perimeter(width, height)[k] < RowStart(width, height)
  {
    if i < height {
      SidesAt(width, height, i);
    }
    if 1 <= j <= width - 2 {
      CapsAt(width, height, width - 2, j);
    }
    PerimeterWithin(width, height);
  }

  // ---------------------------------------------------------------------
  // Walls

  /** The pair joining the last vertex of row t to the first of row t + 1. */
  function RowLink(width: nat, t: nat): (int, int)
  {
    (RowStart(width, t) + width - 1, RowStart(width, t + 1))
  }

  lemma {:induction false} SideWalls(width: nat, height: nat, i: nat)
    requires width >= 3 && height >= 1 && i <= height - 1
    ensures |WallsUpTo(Perimeter(width, height), width, 2 * i + 1)| == i
    ensures forall t :: 0 <= t < i ==>
      WallsUpTo(Perimeter(width, height), width, 2 * i + 1)[t] == RowLink(width, t)
  {
    var p := Perimeter(width, height);
    SidesAt(width, height, i);
    if i > 0 {
      SideWalls(width, height, i - 1);
      SidesAt(width, height, i - 1);
    }
  }

  /** The two perimeter entries of inner column c: top row, then bottom row. */
  function CapPair(p: seq<int>, height: nat, c: nat): (int, int)
    requires 1 <= c && 2 * height + 2 * (c - 1) + 1 < |p|
  {
    (p[2 * height + 2 * (c - 1)], p[2 * height + 2 * (c - 1) + 1])
  }

  /** No wall starts in the cap part of a perimeter list laid out as
      perimeter_indices lays it out, `last` numbering the first vertex of
      the last row. */
  lemma {:induction false} CapWallsOf(p: seq<int>, width: nat, height: nat, last: int, j: nat)
    requires width >= 3 && height >= 1 && j <= width - 2 && |p| == 2 * height + 2 * (width - 2)
    requires last >= 2 * width && p[2 * height - 1] == last + width - 1
    requires forall c :: 1 <= c <= width - 2 ==> CapPair(p, height, c) == (c, last + c)
    ensures WallsUpTo(p, width, 2 * height - 1 + 2 * j) == WallsUpTo(p, width, 2 * height - 1)
  {
    if j > 0 {
      CapWallsOf(p, width, height, last, j - 1);
      var n := 2 * height - 1 + 2 * j;
      assert CapPair(p, height, j) == (j, last + j);
      assert p[n - 1] == j && p[n] == last + j;
      if j > 1 {
        assert CapPair(p, height, j - 1) == (j - 1, last + j - 1);
      }
      assert p[n - 2] == last + (if j == 1 then width - 1 else j - 1);
      assert WallsUpTo(p, width, n - 1) == WallsUpTo(p, width, n - 2);
      assert WallsUpTo(p, width, n) == WallsUpTo(p, width, n - 1);
    }
  }

  lemma CapWalls(width: nat, height: nat)
    requires width >= 3 && height >= 3
    ensures Walls(Perimeter(width, height), width) == WallsUpTo(Perimeter(width, height), width, 2 * height - 1)
  {
    var p := Perimeter(width, height);
    var last := RowStart(width, height - 1);
    RowStartMono(width, 2, height - 1);
    assert RowStart(width, 2) == 2 * width by {
      assert RowStart(width, 1) == width;
    }
    PerimeterLayout(width, height, height - 1, 0);
    forall c | 1 <= c <= width - 2
      ensures CapPair(p, height, c) == (c, last + c)
    {
      PerimeterLayout(width, height, 0, c);
    }
    CapWallsOf(p, width, height, last, width - 2);
  }

  /** On a grid of at least 3 x 3 the rule "consecutive perimeter entries
      that differ by 1 or by width" walls exactly height - 1 pairs: the
      last vertex of row t with the first vertex of row t + 1. */
  lemma LargeGridWalls(width: nat, height: nat)
    requires width >= 3 && height >= 3
    ensures |Walls(Perimeter(width, height), width)| == height - 1
    ensures forall t :: 0 <= t < height - 1 ==>
      Walls(Perimeter(width, height), width)[t] == RowLink(width, t)
  {
    CapWalls(width, height);
    SideWalls(width, height, height - 1);
  }

  lemma {:induction false} WallVerticesAt(pairs: seq<(int, int)>, vs: seq<Vertex>, baseZ: real, t: nat)
    requires PairsWithin(pairs, |vs|) && t < |pairs|
    ensures WallVertices(pairs, vs, baseZ)[2 * t] == Vertex(vs[pairs[t].0].x, vs[pairs[t].0].y, baseZ)
    ensures WallVertices(pairs, vs, baseZ)[2 * t + 1] == Vertex(vs[pairs[t].1].x, vs[pairs[t].1].y, baseZ)
  {
    if t < |pairs| - 1 {
      WallVerticesAt(pairs[..|pairs| - 1], vs, baseZ, t);
    }
  }

  /** Wall vertices only look at the vertices their pairs name, so vertices
      appended after those do not change them. */
  lemma {:induction false} WallVerticesPrefix(pairs: seq<(int, int)>, vs: seq<Vertex>, more: seq<Vertex>, baseZ: real)
    requires PairsWithin(pairs, |vs|)
    ensures WallVertices(pairs, vs + more, baseZ) == WallVertices(pairs, vs, baseZ)
  {
    if |pairs| > 0 {
      var init := pairs[..|pairs| - 1];
      assert PairsWithin(init, |vs|) by {
        forall k | 0 <= k < |init| ensures 0 <= init[k].0 < |vs| && 0 <= init[k].1 < |vs| {
          assert init[k] == pairs[k];
        }
      }
      WallVerticesPrefix(init, vs, more, baseZ);
      var (v1, v2) := pairs[|pairs| - 1];
      assert (vs + more)[v1] == vs[v1] && (vs + more)[v2] == vs[v2];
    }
  }

  lemma {:induction false} WallFacesAt(pairs: seq<(int, int)>, start: int, t: nat)
    requires t < |pairs|
    ensures WallFaces(pairs, start)[2 * t] == Face(pairs[t].0, pairs[t].1, start + 2 * t)
    ensures WallFaces(pairs, start)[2 * t + 1] == Face(pairs[t].1, start + 2 * t + 1, start + 2 * t)
  {
    if t < |pairs| - 1 {
      WallFacesAt(pairs[..|pairs| - 1], start, t);
    }
  }

  /** Wall t drops its two terrain vertices to the base (same x and y) as
      vertices start + 2 * t and start + 2 * t + 1 and closes the strip
      with [v1, v2, b1] and [v2, b2, b1]. */
  lemma WallLayout(pairs: seq<(int, int)>, vs: seq<Vertex>, baseZ: real, start: int, t: nat)
    requires PairsWithin(pairs, |vs|) && t < |pairs|
    ensures
      var (v1, v2) := pairs[t];
      var b1 := start + 2 * t;
      WallVertices(pairs, vs, baseZ)[2 * t] == Vertex(vs[v1].x, vs[v1].y, baseZ) &&
      WallVertices(pairs, vs, baseZ)[2 * t + 1] == Vertex(vs[v2].x, vs[v2].y, baseZ) &&
      WallFaces(pairs, start)[2 * t] == Face(v1, v2, b1) &&
      WallFaces(pairs, start)[2 * t + 1] == Face(v2, b1 + 1, b1)
  {
    WallVerticesAt(pairs, vs, baseZ, t);
    WallFacesAt(pairs, start, t);
  }

  lemma {:induction false} WallFacesWithin(pairs: seq<(int, int)>, start: int)
    requires start >= 0 && PairsWithin(pairs, start)
    ensures FacesWithin(WallFaces(pairs, start), start + 2 * |pairs|)
  {
    if |pairs| > 0 {
      var init := pairs[..|pairs| - 1];
      assert PairsWithin(init, start) by {
        forall k | 0 <= k < |init| ensures 0 <= init[k].0 < start && 0 <= init[k].1 < start {
          assert init[k] == pairs[k];
        }
      }
      WallFacesWithin(init, start);
      var (v1, v2) := pairs[|pairs| - 1];
      var b1 := start + 2 * (|pairs| - 1);
      FacesWithinConcat(WallFaces(init, start), [Face(v1, v2, b1), Face(v2, b1 + 1, b1)], start + 2 * |pairs|);
    }
  }

  // ---------------------------------------------------------------------
  // Ribbon

  lemma {:induction false} RibbonVerticesAt(tv: seq<Vertex>, n: nat, t: nat)
    requires n < |tv| && t < n
    ensures RibbonVerticesUpTo(tv, n)[2 * t] == tv[t]
    ensures RibbonVerticesUpTo(tv, n)[2 * t + 1] == tv[t + 1]
  {
    if t < n - 1 {
      RibbonVerticesAt(tv, n - 1, t);
    }
  }

  lemma {:induction false} RibbonFacesAt(n: nat, start: int, baseStart: int, t: nat)
    requires t < n
    ensures RibbonFacesUpTo(n, start, baseStart)[t] == Face(start + 2 * t, start + 2 * t + 1, baseStart)
  {
    if t < n - 1 {
      RibbonFacesAt(n - 1, start, baseStart, t);
    }
  }

  /** With n >= 2 track vertices the ribbon has n - 1 segments; segment t
      copies track vertices t and t + 1 to start + 2 * t and
      start + 2 * t + 1 and joins them to the first base corner. Fewer than
      two track vertices give no ribbon at all. */
  lemma RibbonLayout(tv: seq<Vertex>, start: int, baseStart: int, t: nat)
    ensures |tv| < 2 ==> RibbonVertices(tv) == [] && RibbonFaces(|tv|, start, baseStart) == []
    ensures |tv| >= 2 ==>
      |RibbonVertices(tv)| == 2 * (|tv| - 1) && |RibbonFaces(|tv|, start, baseStart)| == |tv| - 1
    ensures t < Segments(|tv|) ==>
      RibbonVertices(tv)[2 * t] == tv[t] && RibbonVertices(tv)[2 * t + 1] == tv[t + 1] &&
      RibbonFaces(|tv|, start, baseStart)[t] == Face(start + 2 * t, start + 2 * t + 1, baseStart)
  {
    if t < Segments(|tv|) {
      RibbonVerticesAt(tv, Segments(|tv|), t);
      RibbonFacesAt(Segments(|tv|), start, baseStart, t);
    }
  }

  lemma {:induction false} RibbonFacesWithin(n: nat, start: int, baseStart: int)
    requires 0 <= baseStart < start
    ensures FacesWithin(RibbonFacesUpTo(n, start, baseStart), start + 2 * n)
  {
    if n > 0 {
      RibbonFacesWithin(n - 1, start, baseStart);
      var v1 := start + 2 * (n - 1);
      FacesWithinConcat(RibbonFacesUpTo(n - 1, start, baseStart), [Face(v1, v1 + 1, baseStart)], start + 2 * n);
    }
  }

  // ---------------------------------------------------------------------
  // The whole mesh

  lemma MeshVerticesCount(grid: seq<ElevationSample>, track: seq<TrackPoint>, trackElevations: seq<Option<real>>,
                          width: nat, height: nat, settings: Settings)
    requires Drawable(grid) && |grid| == RowStart(width, height)
    ensures width >= 1 && height >= 1
    ensures |MeshVertices(grid, track, trackElevations, width, height, settings)| ==
      |grid| + 4 + 2 * |GridWalls(width, height)| + 2 * Segments(|track|)
  {
    RowStartPositive(width, height);
  }

  /** The number of vertices MeshVertices holds for a grid of these
      dimensions and a track of this length. */
  function VertexCount(width: nat, height: nat, trackLength: nat): nat
    requires height >= 1
  {
    RowStart(width, height) + 4 + 2 * |GridWalls(width, height)| + 2 * Segments(trackLength)
  }

  lemma MeshFacesCount(width: nat, height: nat, trackLength: nat)
    requires height >= 1
    ensures |MeshFaces(width, height, trackLength)| ==
      |TerrainFaces(width, height)| + 2 + 2 * |GridWalls(width, height)| + Segments(trackLength)
  {
  }

  /** Walls only join terrain vertices. */
  lemma GridWallsWithin(width: nat, height: nat)
    requires width >= 1 && height >= 1
    ensures PairsWithin(GridWalls(width, height), RowStart(width, height))
  {
    PerimeterWithin(width, height);
    WallsWithin(Perimeter(width, height), width, RowStart(width, height));
  }

  lemma WallGroupWithin(walls: seq<(int, int)>, n: int, total: int)
    requires n >= 0 && PairsWithin(walls, n) && n + 4 + 2 * |walls| <= total
    ensures FacesWithin(WallFaces(walls, n + 4), total)
  {
    WallFacesWithin(walls, n + 4);
    FacesWithinMono(WallFaces(walls, n + 4), n + 4 + 2 * |walls|, total);
  }

  lemma TerrainGroupWithin(width: nat, height: nat, total: int)
    requires width >= 1 && RowStart(width, height) <= total
    ensures FacesWithin(TerrainFaces(width, height), total)
  {
    TerrainFacesWithin(width, height);
    FacesWithinMono(TerrainFaces(width, height), RowStart(width, height), total);
  }

  lemma MeshFacesWithin(width: nat, height: nat, trackLength: nat)
    requires width >= 1 && height >= 1
    ensures FacesWithin(MeshFaces(width, height, trackLength), VertexCount(width, height, trackLength))
  {
    var n := RowStart(width, height);
    var walls := GridWalls(width, height);
    var total := VertexCount(width, height, trackLength);
    var tf := TerrainFaces(width, height);
    var bf := BaseFaces(n);
    var wf := WallFaces(walls, n + 4);
    var rf := RibbonFaces(trackLength, n + 4 + 2 * |walls|, n);
    assert MeshFaces(width, height, trackLength) == tf + bf + wf + rf;
    TerrainGroupWithin(width, height, total);
    assert FacesWithin(bf, total);
    GridWallsWithin(width, height);
    WallGroupWithin(walls, n, total);
    RibbonFacesWithin(Segments(trackLength), n + 4 + 2 * |walls|, n);
    FacesWithinConcat(tf, bf, total);
    FacesWithinConcat(tf + bf, wf, total);
    FacesWithinConcat(tf + bf + wf, rf, total);
  }

  /** The mesh has the terrain's width * height vertices, the 4 base
      corners, 2 per wall and 2 per ribbon segment; its faces are the
      2 * (width - 1) * (height - 1) terrain triangles, the 2 base
      triangles, 2 per wall and 1 per ribbon segment; and every face names
      a vertex of the mesh, so the facet lookup never misses. */
  lemma MeshLayout(grid: seq<ElevationSample>, track: seq<TrackPoint>, trackElevations: seq<Option<real>>,
                   width: nat, height: nat, settings: Settings)
    requires Drawable(grid) && |grid| == RowStart(width, height)
    ensures width >= 1 && height >= 1 && |grid| == width * height
    ensures
      var vs := MeshVertices(grid, track, trackElevations, width, height, settings);
      var fs := MeshFaces(width, height, |track|);
      var walls := GridWalls(width, height);
      var segments := if |track| >= 2 then |track| - 1 else 0;
      |vs| == width * height + 4 + 2 * |walls| + 2 * segments &&
      |fs| == 2 * (width - 1) * (height - 1) + 2 + 2 * |walls| + segments &&
      FacesWithin(fs, |vs|)
  {
    MeshVertexTotal(grid, track, trackElevations, width, height, settings);
    MeshFaceTotal(width, height, |track|);
    MeshVerticesCount(grid, track, trackElevations, width, height, settings);
    MeshFacesWithin(width, height, |track|);
  }

  lemma MeshVertexTotal(grid: seq<ElevationSample>, track: seq<TrackPoint>, trackElevations: seq<Option<real>>,
                        width: nat, height: nat, settings: Settings)
    requires Drawable(grid) && |grid| == RowStart(width, height)
    ensures width >= 1 && height >= 1 && |grid| == width * height
    ensures |MeshVertices(grid, track, trackElevations, width, height, settings)| ==
      width * height + 4 + 2 * |GridWalls(width, height)| + 2 * (if |track| >= 2 then |track| - 1 else 0)
  {
    MeshVerticesCount(grid, track, trackElevations, width, height, settings);
    RowStartIsProduct(width, height);
  }

  lemma MeshFaceTotal(width: nat, height: nat, trackLength: nat)
    requires width >= 1 && height >= 1
    ensures |MeshFaces(width, height, trackLength)| ==
      2 * (width - 1) * (height - 1) + 2 + 2 * |GridWalls(width, height)| + (if trackLength >= 2 then trackLength - 1 else 0)
  {
    MeshFacesCount(width, height, trackLength);
    TerrainFacesLayout(width, height, 0, 0);
  }

  /** On grids of at least 3 x 3 the counts are fixed by the dimensions
      and the track length alone. */
  lemma LargeGridMeshCounts(grid: seq<ElevationSample>, track: seq<TrackPoint>, trackElevations: seq<Option<real>>,
                            width: nat, height: nat, settings: Settings)
    requires Drawable(grid) && |grid| == RowStart(width, height) && width >= 3 && height >= 3
    ensures
      var segments := if |track| >= 2 then |track| - 1 else 0;
      |MeshVertices(grid, track, trackElevations, width, height, settings)| ==
        width * height + 4 + 2 * (height - 1) + 2 * segments &&
      |MeshFaces(width, height, |track|)| == 2 * (width - 1) * (height - 1) + 2 + 2 * (height - 1) + segments
  {
    MeshLayout(grid, track, trackElevations, width, height, settings);
    LargeGridWalls(width, height);
  }

  // ---------------------------------------------------------------------
  // Terrain in model space

  /** With a positive model width and a non-negative altitude multiplier
      every terrain vertex lies in the slab 0 <= x <= model width, y >= 0,
      z >= 0: the grid's west edge maps to x = 0, its east edge to the
      model width, and its lowest elevation (and every missing one) to
      z = 0. */
  lemma TerrainVertexBounds(grid: seq<ElevationSample>, settings: Settings, k: nat)
    requires Drawable(grid) && k < |grid|
    requires settings.modelWidthMm > 0.0 && settings.altitudeMultiplier >= 0.0
    ensures var f := FrameOf(grid, settings.modelWidthMm);
      var v := TerrainVertex(grid[k], f, settings.altitudeMultiplier);
      0.0 <= v.x <= settings.modelWidthMm && 0.0 <= v.y && 0.0 <= v.z
  {
    var f := FrameOf(grid, settings.modelWidthMm);
    var lons := GridLongitudes(grid);
    FrameSpansWidth(grid, settings.modelWidthMm);
    FrameBelowGrid(grid, settings.modelWidthMm, k);
    assert lons[k] == grid[k].longitude;
    VertexInSlab(grid[k], f, settings.altitudeMultiplier, MaxOf(lons), settings.modelWidthMm);
  }

  /** A sample inside the frame's extent lands inside the slab. */
  lemma VertexInSlab(s: ElevationSample, f: Frame, alt: real, maxLongitude: real, modelWidthMm: real)
    requires f.scale >= 0.0 && alt >= 0.0
    requires f.minLongitude <= s.longitude <= maxLongitude && f.minLatitude <= s.latitude
    requires f.minElevation <= SampleElevation(s, f)
    requires Stretch(f.scale, maxLongitude - f.minLongitude) == modelWidthMm
    ensures var v := TerrainVertex(s, f, alt);
      0.0 <= v.x <= modelWidthMm && 0.0 <= v.y && 0.0 <= v.z
  {
    StretchMono(f.scale, 0.0, s.longitude - f.minLongitude);
    StretchMono(f.scale, s.longitude - f.minLongitude, maxLongitude - f.minLongitude);
    StretchMono(f.scale, 0.0, s.latitude - f.minLatitude);
    StretchMono(f.scale, 0.0, SampleElevation(s, f) - f.minElevation);
    StretchZero(f.scale);
    NonNegativeProduct(Stretch(f.scale, SampleElevation(s, f) - f.minElevation), alt);
  }

  /** The bounds above are reached: some terrain vertex sits at x = 0, one
      at x = model width and one at z = 0. */
  lemma TerrainVertexExtremes(grid: seq<ElevationSample>, settings: Settings)
    requires Drawable(grid)
    ensures var f := FrameOf(grid, settings.modelWidthMm);
      (exists k :: 0 <= k < |grid| && TerrainVertex(grid[k], f, settings.altitudeMultiplier).x == 0.0) &&
      (exists k :: 0 <= k < |grid| && TerrainVertex(grid[k], f, settings.altitudeMultiplier).x == settings.modelWidthMm) &&
      (exists k :: 0 <= k < |grid| && TerrainVertex(grid[k], f, settings.altitudeMultiplier).z == 0.0)
  {
    var f := FrameOf(grid, settings.modelWidthMm);
    var alt := settings.altitudeMultiplier;
    var lons := GridLongitudes(grid);
    var west :| 0 <= west < |grid| && lons[west] == MinOf(lons);
    VertexAtOrigin(grid[west], f, alt);
    var east :| 0 <= east < |grid| && lons[east] == MaxOf(lons);
    FrameSpansWidth(grid, settings.modelWidthMm);
    VertexAtFarEdge(grid[east], f, alt, MaxOf(lons), settings.modelWidthMm);
    var low :| 0 <= low < |grid| && grid[low].elevation == Some(f.minElevation);
    VertexAtFloor(grid[low], f, alt);
  }

  lemma VertexAtOrigin(s: ElevationSample, f: Frame, alt: real)
    requires s.longitude == f.minLongitude
    ensures TerrainVertex(s, f, alt).x == 0.0
  {
    StretchZero(f.scale);
  }

  lemma VertexAtFarEdge(s: ElevationSample, f: Frame, alt: real, maxLongitude: real, modelWidthMm: real)
    requires s.longitude == maxLongitude && Stretch(f.scale, maxLongitude - f.minLongitude) == modelWidthMm
    ensures TerrainVertex(s, f, alt).x == modelWidthMm
  {
  }

  lemma VertexAtFloor(s: ElevationSample, f: Frame, alt: real)
    requires s.elevation == Some(f.minElevation)
    ensures TerrainVertex(s, f, alt).z == 0.0
  {
    StretchZero(f.scale);
  }

  // ---------------------------------------------------------------------
  // A grid the source, as written, cannot draw

  /** A 2 x 2 grid with one None elevation, as get_elevation_grid returns
      for a nodata cell: it passes validation and can be drawn, so
      ModelGenerator.GenerateStl builds its mesh, while as written the
      source raises. */
  lemma NoneElevationRaisesAsWritten()
    ensures var grid := [ElevationSample(0.0, 0.0, None), ElevationSample(0.0, 1.0, Some(5.0)),
                         ElevationSample(1.0, 0.0, Some(3.0)), ElevationSample(1.0, 1.0, Some(4.0))];
      |grid| == 2 * 2 && Drawable(grid) && !ScaleRaises(grid) && NanMinRaises(grid)
  {
    var grid := [ElevationSample(0.0, 0.0, None), ElevationSample(0.0, 1.0, Some(5.0)),
                 ElevationSample(1.0, 0.0, Some(3.0)), ElevationSample(1.0, 1.0, Some(4.0))];
    var lons := GridLongitudes(grid);
    assert grid[1].elevation.Some?;
    assert grid[0].elevation.None?;
    assert MinOf(lons) <= lons[0] == 0.0;
    assert 1.0 == lons[1] <= MaxOf(lons);
  }

  /** A 1 x 2 grid with one None elevation and both samples on the same
      meridian: both failures are possible, and the scale's division,
      which comes first, is the one the source raises. */
  lemma ZeroSpanRaisesAtScale()
    ensures var grid := [ElevationSample(0.0, 0.0, None), ElevationSample(1.0, 0.0, Some(5.0))];
      |grid| == 1 * 2 && ScaleRaises(grid) && NanMinRaises(grid)
  {
    var grid := [ElevationSample(0.0, 0.0, None), ElevationSample(1.0, 0.0, Some(5.0))];
    var lons := GridLongitudes(grid);
    assert grid[0].elevation.None?;
    assert lons == [0.0, 0.0];
  }
}
