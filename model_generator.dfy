/** ModelGenerator.generate_stl: it validates its input, appends the
    terrain, base, wall and ribbon vertices and faces to two growing lists,
    and finally copies the corners of every face into an array of facets.
    Each stage is a loop method proved to append exactly what the matching
    function of MeshSpec describes. */
module ModelGenerator {
  import opened Common
  import opened Arith
  import opened MeshSpec
  import opened MeshProperties

  /** The terrain loop: for every sample (i, j) in row-major order, its
      vertex, and for every sample off the last row and column the two
      triangles of its cell. */
  method AddTerrain(grid: seq<ElevationSample>, width: nat, height: nat, f: Frame, altitudeMultiplier: real)
    returns (vertices: seq<Vertex>, faces: seq<Face>)
    requires |grid| == RowStart(width, height)
    ensures vertices == TerrainVertices(grid, f, altitudeMultiplier)
    ensures faces == TerrainFaces(width, height)
  {
    vertices := [];
    faces := [];
    for i := 0 to height
      invariant RowStart(width, i) <= |grid|
      invariant vertices == TerrainVertices(grid[..RowStart(width, i)], f, altitudeMultiplier)
      invariant faces == TerrainRowsFaces(width, height, i)
    {
      RowStartMono(width, i + 1, height);
      for j := 0 to width
        invariant vertices == TerrainVertices(grid[..Cell(width, i, j)], f, altitudeMultiplier)
        invariant faces == TerrainRowsFaces(width, height, i) + TerrainRowFaces(width, height, i, j)
      {
        RowMajorBound(width, i, j, height);
        vertices, faces := TerrainPass(grid, width, height, f, altitudeMultiplier, i, j, vertices, faces);
      }
    }
    assert grid[..RowStart(width, height)] == grid;
  }

  /** One pass of the terrain loop, over sample (i, j): its vertex, and
      the two triangles of its cell when it is off the last row and
      column. */
  method TerrainPass(grid: seq<ElevationSample>, width: nat, height: nat, f: Frame, altitudeMultiplier: real,
                     i: nat, j: nat, vertices: seq<Vertex>, faces: seq<Face>)
    returns (vertices': seq<Vertex>, faces': seq<Face>)
    requires i < height && j < width && |grid| == RowStart(width, height) && Cell(width, i, j) < |grid|
    requires vertices == TerrainVertices(grid[..Cell(width, i, j)], f, altitudeMultiplier)
    requires faces == TerrainRowsFaces(width, height, i) + TerrainRowFaces(width, height, i, j)
    ensures vertices' == TerrainVertices(grid[..Cell(width, i, j + 1)], f, altitudeMultiplier)
    ensures faces' == TerrainRowsFaces(width, height, i) + TerrainRowFaces(width, height, i, j + 1)
  {
    var sample := grid[Cell(width, i, j)];
    var elev := if sample.elevation.None? then f.minElevation else sample.elevation.value;
    var x := Stretch(f.scale, sample.longitude - f.minLongitude);
    var y := Stretch(f.scale, sample.latitude - f.minLatitude);
    var z := Stretch(f.scale, elev - f.minElevation) * altitudeMultiplier;
    assert Vertex(x, y, z) == TerrainVertex(sample, f, altitudeMultiplier);
    TerrainVerticesStep(grid, Cell(width, i, j), f, altitudeMultiplier);
    vertices' := vertices + [Vertex(x, y, z)];
    faces' := faces;
    if i < height - 1 && j < width - 1 {
      var v1 := Cell(width, i, j);
      var v2 := v1 + 1;
      var v3 := Cell(width, i + 1, j);
      var v4 := v3 + 1;
      faces' := faces + [Face(v1, v2, v3), Face(v2, v4, v3)];
    }
    AppendAssoc(TerrainRowsFaces(width, height, i), TerrainRowFaces(width, height, i, j),
                if i < height - 1 && j < width - 1 then CellFaces(width, i, j) else []);
  }

  /** The perimeter list: both ends of every row, then the inner columns'
      vertices in the first and last row. */
  method PerimeterIndices(width: nat, height: nat) returns (perimeter: seq<int>)
    requires height >= 1
    ensures perimeter == Perimeter(width, height)
  {
    perimeter := [];
    for i := 0 to height
      invariant perimeter == Sides(width, i)
    {
      perimeter := perimeter + [RowStart(width, i), RowStart(width, i) + width - 1];
    }
    var inner := if width >= 2 then width - 2 else 0;
    for j := 1 to inner + 1
      invariant perimeter == Sides(width, height) + Caps(width, height, j - 1)
    {
      perimeter := perimeter + [j, RowStart(width, height - 1) + j];
    }
  }

  /** The wall loop: every consecutive perimeter pair that differs by 1 or
      by the width gets two dropped copies of its vertices and two faces. */
  method AddWalls(vertices: seq<Vertex>, faces: seq<Face>, perimeter: seq<int>, width: nat, baseZ: real)
    returns (vertices': seq<Vertex>, faces': seq<Face>)
    requires forall k :: 0 <= k < |perimeter| ==> 0 <= perimeter[k] < |vertices|
    ensures PairsWithin(Walls(perimeter, width), |vertices|)
    ensures vertices' == vertices + WallVertices(Walls(perimeter, width), vertices, baseZ)
    ensures faces' == faces + WallFaces(Walls(perimeter, width), |vertices|)
  {
    vertices' := vertices;
    faces' := faces;
    var k := 0;
    while k + 1 < |perimeter|
      invariant k == 0 || k < |perimeter|
      invariant PairsWithin(WallsUpTo(perimeter, width, k), |vertices|)
      invariant vertices' == vertices + WallVertices(WallsUpTo(perimeter, width, k), vertices, baseZ)
      invariant faces' == faces + WallFaces(WallsUpTo(perimeter, width, k), |vertices|)
    {
      vertices', faces' := WallPass(vertices, faces, perimeter, width, baseZ, k, vertices', faces');
      k := k + 1;
    }
  }

  /** One pass of the wall loop, over the pair (perimeter[k],
      perimeter[k + 1]): the lists so far hold the walls among the first k
      pairs, and afterwards those among the first k + 1. */
  method WallPass(vertices: seq<Vertex>, faces: seq<Face>, perimeter: seq<int>, width: nat, baseZ: real, k: nat,
                  current: seq<Vertex>, currentFaces: seq<Face>)
    returns (next: seq<Vertex>, nextFaces: seq<Face>)
    requires k + 1 < |perimeter|
    requires forall t :: 0 <= t < |perimeter| ==> 0 <= perimeter[t] < |vertices|
    requires PairsWithin(WallsUpTo(perimeter, width, k), |vertices|)
    requires current == vertices + WallVertices(WallsUpTo(perimeter, width, k), vertices, baseZ)
    requires currentFaces == faces + WallFaces(WallsUpTo(perimeter, width, k), |vertices|)
    ensures PairsWithin(WallsUpTo(perimeter, width, k + 1), |vertices|)
    ensures next == vertices + WallVertices(WallsUpTo(perimeter, width, k + 1), vertices, baseZ)
    ensures nextFaces == faces + WallFaces(WallsUpTo(perimeter, width, k + 1), |vertices|)
  {
    ghost var walls := WallsUpTo(perimeter, width, k);
    var v1 := perimeter[k];
    var v2 := perimeter[k + 1];
    var dist := if v1 >= v2 then v1 - v2 else v2 - v1;
    if dist == 1 || dist == width {
      var b1 := |current|;
      var b2 := |current| + 1;
      var p1 := current[v1];
      var p2 := current[v2];
      WallsUpToStep(perimeter, width, k);
      WallVerticesStep(walls, v1, v2, vertices, current, baseZ);
      WallFacesStep(walls, v1, v2, |vertices|, |current|, faces, currentFaces);
      next := current + [Vertex(p1.x, p1.y, baseZ), Vertex(p2.x, p2.y, baseZ)];
      nextFaces := currentFaces + [Face(v1, v2, b1), Face(v2, b2, b1)];
    } else {
      assert WallsUpTo(perimeter, width, k + 1) == walls;
      next, nextFaces := current, currentFaces;
    }
  }

  /** The track loop: every track point projected into model space. */
  method ProjectTrack(track: seq<TrackPoint>, trackElevations: seq<Option<real>>, f: Frame, settings: Settings)
    returns (trackVertices: seq<Vertex>)
    ensures trackVertices == TrackVertices(track, trackElevations, f, settings)
  {
    trackVertices := [];
    for i := 0 to |track|
      invariant |trackVertices| == i
      invariant forall k :: 0 <= k < i ==> trackVertices[k] == TrackVertex(track[k], trackElevations, k, f, settings)
    {
      var point := track[i];
      var elev := if i < |trackElevations| && trackElevations[i].Some? then trackElevations[i].value else f.minElevation;
      var x := Stretch(f.scale, point.longitude - f.minLongitude);
      var y := Stretch(f.scale, point.latitude - f.minLatitude);
      var z := Stretch(f.scale, elev - f.minElevation) * settings.altitudeMultiplier + settings.pathElevationMm;
      trackVertices := trackVertices + [Vertex(x, y, z)];
    }
  }

  /** The ribbon loop: for two or more track vertices, a copy of every
      consecutive pair and one face joining it to the first base corner. */
  method AddRibbon(vertices: seq<Vertex>, faces: seq<Face>, trackVertices: seq<Vertex>, baseStart: int)
    returns (vertices': seq<Vertex>, faces': seq<Face>)
    ensures vertices' == vertices + RibbonVertices(trackVertices)
    ensures faces' == faces + RibbonFaces(|trackVertices|, |vertices|, baseStart)
  {
    vertices' := vertices;
    faces' := faces;
    if |trackVertices| >= 2 {
      for i := 0 to |trackVertices| - 1
        invariant vertices' == vertices + RibbonVerticesUpTo(trackVertices, i)
        invariant faces' == faces + RibbonFacesUpTo(i, |vertices|, baseStart)
      {
        var v1 := |vertices'|;
        var v2 := |vertices'| + 1;
        vertices' := vertices' + [trackVertices[i], trackVertices[i + 1]];
        faces' := faces' + [Face(v1, v2, baseStart)];
      }
    }
  }

  /** The terrain vertices of one more sample. */
  lemma TerrainVerticesStep(grid: seq<ElevationSample>, c: nat, f: Frame, altitudeMultiplier: real)
    requires c < |grid|
    ensures TerrainVertices(grid[..c + 1], f, altitudeMultiplier) ==
      TerrainVertices(grid[..c], f, altitudeMultiplier) + [TerrainVertex(grid[c], f, altitudeMultiplier)]
  {
    assert grid[..c + 1] == grid[..c] + [grid[c]];
    TerrainVerticesSnoc(grid[..c], grid[c], f, altitudeMultiplier);
  }

  lemma TerrainVerticesSnoc(samples: seq<ElevationSample>, s: ElevationSample, f: Frame, altitudeMultiplier: real)
    ensures TerrainVertices(samples + [s], f, altitudeMultiplier) ==
      TerrainVertices(samples, f, altitudeMultiplier) + [TerrainVertex(s, f, altitudeMultiplier)]
  {
    var a := TerrainVertices(samples + [s], f, altitudeMultiplier);
    var b := TerrainVertices(samples, f, altitudeMultiplier) + [TerrainVertex(s, f, altitudeMultiplier)];
    assert forall k :: 0 <= k < |a| ==> a[k] == b[k] by {
      assert forall k :: 0 <= k < |samples| ==> (samples + [s])[k] == samples[k];
    }
  }

  /** The next walled pair: an adjacent (perimeter[k], perimeter[k + 1])
      extends the walls found so far. */
  lemma WallsUpToStep(perimeter: seq<int>, width: nat, k: nat)
    requires k + 1 < |perimeter| && Adjacent(perimeter[k], perimeter[k + 1], width)
    ensures WallsUpTo(perimeter, width, k + 1) == WallsUpTo(perimeter, width, k) + [(perimeter[k], perimeter[k + 1])]
  {
  }

  /** One pass of the wall loop over the pair (v1, v2): appending the
      dropped copies of the current vertices v1 and v2 keeps the vertex list
      equal to the walls so far. */
  lemma WallVerticesStep(walls: seq<(int, int)>, v1: int, v2: int, vertices: seq<Vertex>, current: seq<Vertex>, baseZ: real)
    requires PairsWithin(walls, |vertices|) && 0 <= v1 < |vertices| && 0 <= v2 < |vertices|
    requires current == vertices + WallVertices(walls, vertices, baseZ)
    ensures PairsWithin(walls + [(v1, v2)], |vertices|)
    ensures current + [Vertex(current[v1].x, current[v1].y, baseZ), Vertex(current[v2].x, current[v2].y, baseZ)] ==
      vertices + WallVertices(walls + [(v1, v2)], vertices, baseZ)
  {
    WallSnoc(walls, (v1, v2), vertices, baseZ, |vertices|);
    var w := WallVertices(walls, vertices, baseZ);
    AppendIndexLeft(vertices, w, v1);
    AppendIndexLeft(vertices, w, v2);
    var dropped := [Vertex(vertices[v1].x, vertices[v1].y, baseZ), Vertex(vertices[v2].x, vertices[v2].y, baseZ)];
    AppendAssoc(vertices, w, dropped);
  }

  /** One pass of the wall loop over the pair (v1, v2): its two faces,
      numbered after the current vertices, keep the face list equal to the
      walls so far. */
  lemma WallFacesStep(walls: seq<(int, int)>, v1: int, v2: int, start: nat, current: nat, faces: seq<Face>, currentFaces: seq<Face>)
    requires current == start + 2 * |walls|
    requires currentFaces == faces + WallFaces(walls, start)
    ensures currentFaces + [Face(v1, v2, current), Face(v2, current + 1, current)] ==
      faces + WallFaces(walls + [(v1, v2)], start)
  {
    var added := [Face(v1, v2, current), Face(v2, current + 1, current)];
    assert (walls + [(v1, v2)])[..|walls|] == walls;
    assert WallFaces(walls + [(v1, v2)], start) == WallFaces(walls, start) + added;
    assert currentFaces + added == faces + (WallFaces(walls, start) + added);
  }

  /** Appending a wall appends its two dropped copies and its two faces. */
  lemma WallSnoc(pairs: seq<(int, int)>, pair: (int, int), vs: seq<Vertex>, baseZ: real, start: int)
    requires PairsWithin(pairs, |vs|) && 0 <= pair.0 < |vs| && 0 <= pair.1 < |vs|
    ensures PairsWithin(pairs + [pair], |vs|)
    ensures WallVertices(pairs + [pair], vs, baseZ) ==
      WallVertices(pairs, vs, baseZ) + [Vertex(vs[pair.0].x, vs[pair.0].y, baseZ), Vertex(vs[pair.1].x, vs[pair.1].y, baseZ)]
    ensures WallFaces(pairs + [pair], start) ==
      WallFaces(pairs, start) + [Face(pair.0, pair.1, start + 2 * |pairs|), Face(pair.1, start + 2 * |pairs| + 1, start + 2 * |pairs|)]
  {
    assert (pairs + [pair])[..|pairs|] == pairs;
    assert forall k :: 0 <= k < |pairs| ==> (pairs + [pair])[k] == pairs[k];
  }

  /** The terrain and the base, placed by the frame f: vertices and faces
      up to the walls. */
  method AddTerrainAndBase(grid: seq<ElevationSample>, f: Frame, width: nat, height: nat, settings: Settings)
    returns (vertices: seq<Vertex>, faces: seq<Face>)
    requires 0 < |grid| == RowStart(width, height)
    ensures vertices == VerticesWithBase(grid, f, width, height, settings)
    ensures faces == FacesWithBase(width, height)
  {
    RowStartPositive(width, height);
    var terrain, terrainFaces := AddTerrain(grid, width, height, f, settings.altitudeMultiplier);
    var baseZ := -settings.baseThicknessMm;
    var baseStart := |terrain|;
    vertices := terrain + BaseVertices(settings.modelWidthMm, width, height, baseZ);
    faces := terrainFaces + [Face(baseStart, baseStart + 1, baseStart + 2), Face(baseStart + 1, baseStart + 3, baseStart + 2)];
  }

  /** The perimeter walls appended to the terrain and base. */
  method AddGridWalls(grid: seq<ElevationSample>, f: Frame, width: nat, height: nat, settings: Settings,
                      vertices: seq<Vertex>, faces: seq<Face>)
    returns (vertices': seq<Vertex>, faces': seq<Face>)
    requires 0 < |grid| == RowStart(width, height)
    requires vertices == VerticesWithBase(grid, f, width, height, settings)
    requires faces == FacesWithBase(width, height)
    ensures height >= 1
    ensures vertices' == VerticesWithWalls(grid, f, width, height, settings)
    ensures faces' == FacesWithWalls(width, height)
  {
    RowStartPositive(width, height);
    assert |vertices| == WallStart(width, height);
    vertices', faces' := AddPerimeterWalls(vertices, faces, width, height, -settings.baseThicknessMm);
  }

  /** The walls along the perimeter of the grid whose terrain vertices
      start `vertices`, appended after them. */
  method AddPerimeterWalls(vertices: seq<Vertex>, faces: seq<Face>, width: nat, height: nat, baseZ: real)
    returns (vertices': seq<Vertex>, faces': seq<Face>)
    requires 0 < RowStart(width, height) <= |vertices|
    ensures height >= 1
    ensures vertices' == WithWalls(vertices, width, height, baseZ)
    ensures faces' == faces + WallFaces(GridWalls(width, height), |vertices|)
  {
    RowStartPositive(width, height);
    var perimeter := PerimeterIndices(width, height);
    PerimeterWithin(width, height);
    vertices', faces' := AddWalls(vertices, faces, perimeter, width, baseZ);
  }

  /** All vertex and face stages of generate_stl in their order, on input
      that passed validation. */
  method AssembleMesh(grid: seq<ElevationSample>, track: seq<TrackPoint>, trackElevations: seq<Option<real>>,
                      width: nat, height: nat, settings: Settings)
    returns (vertices: seq<Vertex>, faces: seq<Face>)
    requires Drawable(grid) && |grid| == RowStart(width, height)
    ensures width >= 1 && height >= 1
    ensures vertices == MeshVertices(grid, track, trackElevations, width, height, settings)
    ensures faces == MeshFaces(width, height, |track|)
  {
    RowStartPositive(width, height);
    var f := FrameOf(grid, settings.modelWidthMm);
    vertices, faces := AddTerrainAndBase(grid, f, width, height, settings);
    vertices, faces := AddGridWalls(grid, f, width, height, settings, vertices, faces);
    var trackVertices := ProjectTrack(track, trackElevations, f, settings);
    var baseStart := |grid|;
    assert |vertices| == RibbonStart(width, height);
    vertices, faces := AddRibbon(vertices, faces, trackVertices, baseStart);
  }

  /** Facet i, corner j is vertex faces[i][j] for every face and corner. */
  predicate IsFacetArray(vectors: array2<Vertex>, vertices: seq<Vertex>, faces: seq<Face>)
    reads vectors
  {
    vectors.Length0 == |faces| && vectors.Length1 == 3 && FacesWithin(faces, |vertices|) &&
    forall i, j :: 0 <= i < |faces| && 0 <= j < 3 ==> vectors[i, j] == vertices[Corner(faces[i], j)]
  }

  /** The facet loop: a zeroed array of one facet per face, filled corner
      by corner from the vertex list. */
  method FillFacets(vertices: seq<Vertex>, faces: seq<Face>) returns (vectors: array2<Vertex>)
    requires FacesWithin(faces, |vertices|)
    ensures fresh(vectors)
    ensures IsFacetArray(vectors, vertices, faces)
  {
    vectors := new Vertex[|faces|, 3]((_, _) => Vertex(0.0, 0.0, 0.0));
    for i := 0 to |faces|
      invariant forall i', j :: 0 <= i' < i && 0 <= j < 3 ==> vectors[i', j] == vertices[Corner(faces[i'], j)]
    {
      var face := faces[i];
      for j := 0 to 3
        invariant forall i', j' :: 0 <= i' < i && 0 <= j' < 3 ==> vectors[i', j'] == vertices[Corner(faces[i'], j')]
        invariant forall j' :: 0 <= j' < j ==> vectors[i, j'] == vertices[Corner(face, j')]
      {
        vectors[i, j] := vertices[Corner(face, j)];
      }
    }
  }

  /** generate_stl: an empty grid or one whose length is not
      width * height is an invalid grid, an empty track is refused next;
      otherwise the facets of the assembled mesh, one per face in face
      order. */
  method GenerateStl(grid: seq<ElevationSample>, track: seq<TrackPoint>, trackElevations: seq<Option<real>>,
                     width: nat, height: nat, settings: Settings)
    returns (r: Result<array2<Vertex>, MeshError>)
    requires |grid| > 0 && |grid| == width * height && |track| > 0 ==> Drawable(grid)
    ensures r == Err(InvalidElevationGrid) <==> |grid| == 0 || |grid| != width * height
    ensures r == Err(TrackPointsRequired) <==> |grid| > 0 && |grid| == width * height && |track| == 0
    ensures r.Err? ==> r.error == InvalidElevationGrid || r.error == TrackPointsRequired
    ensures r.Ok? ==> fresh(r.value)
    ensures r.Ok? ==>
      width >= 1 && height >= 1 && |grid| == RowStart(width, height) &&
      IsFacetArray(r.value, MeshVertices(grid, track, trackElevations, width, height, settings), MeshFaces(width, height, |track|))
  {
    if |grid| == 0 || |grid| != width * height {
      return Err(InvalidElevationGrid);
    }
    if |track| == 0 {
      return Err(TrackPointsRequired);
    }
    RowStartIsProduct(width, height);
    var vertices, faces := AssembleMesh(grid, track, trackElevations, width, height, settings);
    MeshVerticesCount(grid, track, trackElevations, width, height, settings);
    MeshFacesWithin(width, height, |track|);
    var vectors := FillFacets(vertices, faces);
    return Ok(vectors);
  }

  /** generate_stl as written: past validation, a grid holding a None
      elevation raises before any vertex is made, at the scale's division
      when its longitude span is zero and at np.nanmin otherwise, so the
      missing-elevation fallback of the terrain loop is never reached for
      it. GenerateStl is the intended behaviour, where a None elevation
      falls back to the minimum. */
  method GenerateStlAsWritten(grid: seq<ElevationSample>, track: seq<TrackPoint>, trackElevations: seq<Option<real>>,
                              width: nat, height: nat, settings: Settings)
    returns (r: Result<array2<Vertex>, MeshError>)
    requires |grid| > 0 && |grid| == width * height && |track| > 0 && !HoldsNone(grid) ==> Drawable(grid)
    ensures r == Err(InvalidElevationGrid) <==> |grid| == 0 || |grid| != width * height
    ensures r == Err(TrackPointsRequired) <==> |grid| > 0 && |grid| == width * height && |track| == 0
    ensures r == Err(ZeroGeoWidth) <==>
      |grid| > 0 && |grid| == width * height && |track| > 0 && ScaleRaises(grid)
    ensures r == Err(ElevationsNotComparable) <==>
      |grid| > 0 && |grid| == width * height && |track| > 0 && !ScaleRaises(grid) && NanMinRaises(grid)
    ensures r.Ok? ==> fresh(r.value)
    ensures r.Ok? ==>
      width >= 1 && height >= 1 && |grid| == RowStart(width, height) &&
      IsFacetArray(r.value, MeshVertices(grid, track, trackElevations, width, height, settings), MeshFaces(width, height, |track|))
  {
    if |grid| == 0 || |grid| != width * height {
      return Err(InvalidElevationGrid);
    }
    if |track| == 0 {
      return Err(TrackPointsRequired);
    }
    if ScaleRaises(grid) {
      return Err(ZeroGeoWidth);
    }
    if NanMinRaises(grid) {
      return Err(ElevationsNotComparable);
    }
    r := GenerateStl(grid, track, trackElevations, width, height, settings);
  }
}
