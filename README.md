# Mercury terrain model: a Dafny model of its core

Mercury turns a region of a digital surface model (DSM) plus a GPX track
into a printable STL terrain model. This project models four parts of the
backend and proves what each promises:

- **Mesh assembly** (`ModelGenerator.generate_stl`). The methods in
  `model_generator.dfy` append to the `vertices` and `faces` lists in the
  source's order and with its loops:
  - terrain vertices in row-major order, with two triangles per grid cell;
  - four base corners and the base's two triangles;
  - the perimeter index list, and the wall pairs chosen by the rule "differ
    by 1 or by `width`";
  - the projected track points, and the ribbon triangles that all point at
    the first base corner;
  - the facet array, one facet per face.

  Each method is proved equal to a specification function in
  `mesh_spec.dfy`. `mesh_lemmas.dfy` proves the layout of those functions:
  - the counts of vertices and faces;
  - the index of cell (i, j)'s triangles;
  - which perimeter pairs become walls;
  - the ribbon layout;
  - every face index naming an existing vertex;
  - the bounds of terrain coordinates in model space.
- **Elevation service** (`ElevationService`). The class caches a lazily
  opened dataset. The model covers the row-inverting grid loop with nodata
  mapped to missing, the early-return chain of a single-point lookup, and
  the bounds and nodata predicates.
- **GPX parser** (`GpxParser`). The model covers the namespace prefix taken
  from the root tag and the track → route → waypoint fallback. It works
  over an element tree whose `.//` search is a preorder walk. It also covers
  the padded, centred bounding box.
- **linspace** (`utils/geometry.py`).

Files:
- `common.dfy`: shared records; minimum and maximum of a sequence.
- `arith.dfy`: row-major numbering without nonlinear arithmetic, and the
  scaling of a length.
- `geometry.dfy`, `gpx_parser.dfy`, `elevation.dfy`: one file per service.
- `mesh_spec.dfy`, `model_generator.dfy`, `mesh_lemmas.dfy`: mesh assembly.

Three points where the behaviour differs from what one might expect of a
terrain-model generator; the model keeps the code's behaviour:
- **Walls.** Walls do not run along every edge of the grid, nor only
  between its four corners. The code walls every consecutive pair of
  perimeter entries whose vertex numbers differ by 1 or by `width`.
  `MeshProperties.LargeGridWalls` shows what that means on grids of at
  least 3 × 3: `height - 1` walls, each joining the last vertex of row t
  to the first vertex of row t + 1.
- **Errors.** `parse_gpx` reports every failure as a `ValueError`, and
  `generate_stl`'s input validation raises `ValueError`. Other failures
  keep their own exception:
  - `get_elevation_grid` re-raises whatever numpy or rasterio raised;
  - `get_point_elevation` turns every failure into `None`;
  - a `None` grid elevation makes `generate_stl` raise `TypeError`, or
    `ZeroDivisionError` when the longitude span is zero (see
    "## Findings").
- **Coordinates.** There is no latitude correction. One `scale` serves
  x, y and z.

## Model

| member | source | states |
|---|---|---|
| ModelGenerator.GenerateStl | backend/app/services/model_generator.py:62-223 | an empty grid, or one whose length is not width * height, is rejected as an invalid grid (exactly then); an empty track is rejected next (exactly then); no other error occurs; otherwise the result is a fresh array with one facet per face of the assembled mesh, facet i corner j being vertex faces[i][j]. This is the intended behaviour, where a None elevation falls back to the minimum (see "## Findings") |
| ModelGenerator.GenerateStlAsWritten | backend/app/services/model_generator.py:62-80 | as written: the two validation errors as above; then, for a grid holding a None elevation, ZeroDivisionError at the scale (:77) exactly when its longitude span is zero, and otherwise the TypeError of the minimum elevation (:80) exactly when it has two or more samples; otherwise the same facet array as GenerateStl |
| MeshProperties.NoneElevationRaisesAsWritten | backend/app/services/model_generator.py:70-80 | a concrete 2 x 2 grid with one None elevation passes validation and can be drawn (so GenerateStl builds its mesh), yet as written the source raises TypeError for it at the minimum elevation |
| MeshProperties.ZeroSpanRaisesAtScale | backend/app/services/model_generator.py:70-80 | a concrete 1 x 2 grid with one None elevation on a single meridian meets both failure conditions; the division at :77 comes first |
| MeshSpec.NanMinRaises | backend/app/services/model_generator.py:70-80 | np.nanmin over the elevations, as written, raises exactly when some pair of distinct entries involves a None, which it cannot order |
| MeshSpec.ScaleRaises | backend/app/services/model_generator.py:70-77 | the scale's division raises only on a non-empty grid that could not be drawn anyway: it holds a None and has a zero longitude span |
| ModelGenerator.AssembleMesh | backend/app/services/model_generator.py:76-215 | the vertex and face lists after all stages are the terrain, base, walls and ribbon of the grid's frame, in that order |
| ModelGenerator.AddTerrainAndBase | backend/app/services/model_generator.py:89-140 | placed by the given frame, vertices are the terrain vertices followed by the four base corners, faces the terrain triangles followed by the two base triangles |
| ModelGenerator.AddTerrain | backend/app/services/model_generator.py:89-119 | the nested i/j loop appends exactly one terrain vertex per sample in grid order (sample (i, j), at i * width + j, gets vertex i * width + j) and exactly the cell triangles of TerrainFaces |
| ModelGenerator.TerrainPass | backend/app/services/model_generator.py:90-117 | one pass for sample (i, j) extends the vertices by that sample's vertex and the faces by cell (i, j)'s triangles when i < height - 1 and j < width - 1, by nothing otherwise |
| ModelGenerator.PerimeterIndices | backend/app/services/model_generator.py:144-154 | the two loops build exactly the perimeter list: each row's first and last vertex, then each inner column's top and bottom vertex |
| ModelGenerator.AddWalls | backend/app/services/model_generator.py:157-179 | the wall loop appends, for every consecutive perimeter pair differing by 1 or width, the pair's x/y dropped to base_z and its two triangles, and every wall pair names an existing vertex |
| ModelGenerator.WallPass | backend/app/services/model_generator.py:158-179 | one iteration of the wall loop either skips the pair or appends its two dropped copies, read from the list as it has grown, and its two triangles numbered from len(vertices) |
| ModelGenerator.AddPerimeterWalls | backend/app/services/model_generator.py:143-179 | the walls of the grid's perimeter appended after any vertex list that starts with the terrain |
| ModelGenerator.AddGridWalls | backend/app/services/model_generator.py:143-179 | the walls appended to the terrain and base give the wall stage of the mesh, the first copy numbered width * height + 4 |
| ModelGenerator.ProjectTrack | backend/app/services/model_generator.py:183-200 | the track loop projects point k with its own elevation when k is in range and not None, the grid's minimum otherwise, lifted by the path elevation |
| ModelGenerator.AddRibbon | backend/app/services/model_generator.py:204-215 | with two or more track vertices, each consecutive pair is copied and joined to the first base corner; otherwise nothing is added |
| ModelGenerator.FillFacets | backend/app/services/model_generator.py:218-223 | a fresh len(faces) x 3 array whose entry (i, j) is vertices[faces[i][j]] |
| MeshSpec.FrameOf | backend/app/services/model_generator.py:76-80 | a positive model width gives a positive scale |
| MeshSpec.ScaleFor | backend/app/services/model_generator.py:76-77 | model_width_mm / geo_width stretches the longitude span to exactly the model width |
| MeshSpec.FrameSpansWidth | backend/app/services/model_generator.py:76-77 | the grid's easternmost longitude maps to x = model width |
| MeshSpec.FrameBelowGrid | backend/app/services/model_generator.py:100-101 | no sample is west or south of the frame's origin (the minimum longitude and latitude) |
| MeshSpec.MinElevation | backend/app/services/model_generator.py:80 | the minimum ignoring missing values: no present elevation is lower and some sample has it |
| MeshSpec.TerrainVertex | backend/app/services/model_generator.py:96-102 | a missing elevation is replaced by the minimum, so its vertex has z = 0 |
| MeshSpec.TerrainVertices | backend/app/services/model_generator.py:89-104 | one vertex per sample, vertex k being sample k's |
| MeshSpec.BaseVertices | backend/app/services/model_generator.py:122-131 | four base corners, all at z = base_z |
| MeshSpec.TrackVertex | backend/app/services/model_generator.py:189-198 | a track point without an elevation (index out of range or None) sits at exactly the path elevation |
| MeshSpec.TrackVertices | backend/app/services/model_generator.py:184-200 | one model-space vertex per track point, in order |
| MeshSpec.WallVertices | backend/app/services/model_generator.py:166-175 | each wall adds exactly two vertices |
| MeshSpec.WallFaces | backend/app/services/model_generator.py:176-179 | each wall adds exactly two faces |
| MeshSpec.PerimeterWithin | backend/app/services/model_generator.py:144-154 | every perimeter entry is the number of a terrain vertex |
| MeshSpec.WallsWithin | backend/app/services/model_generator.py:157-168 | walls join perimeter entries, so vertices[v1] and vertices[v2] exist |
| MeshSpec.Adjacent | backend/app/services/model_generator.py:161-164 | two vertex numbers are walled exactly when one is the other plus or minus 1, or plus or minus width |
| MeshSpec.WallsUpToAdjacent | backend/app/services/model_generator.py:161-164 | every wall joins two vertex numbers differing by 1 or by width |
| MeshProperties.TerrainFacesLayout | backend/app/services/model_generator.py:107-117 | the terrain has exactly 2 * (width - 1) * (height - 1) faces; cell (i, j) has [v1, v2, v3] at 2k and [v2, v4, v3] at 2k + 1, with k its row-major cell number, v1 = i * width + j, v2 = v1 + 1, v3 = v1 + width, v4 = v3 + 1 |
| MeshProperties.TerrainFacesWithin | backend/app/services/model_generator.py:107-117 | terrain faces only use terrain vertices |
| MeshProperties.PerimeterLayout | backend/app/services/model_generator.py:144-154 | the perimeter list has 2 * height + 2 * (width - 2) entries: row i's first and last vertex at 2i and 2i + 1, then column j's top and bottom vertex |
| MeshProperties.SideWalls | backend/app/services/model_generator.py:157-164 | over the side part of the perimeter (width >= 3), the rule walls exactly the links from the end of row t to the start of row t + 1 |
| MeshProperties.CapWalls | backend/app/services/model_generator.py:150-164 | on grids of at least 3 x 3 no wall starts in the top/bottom part of the perimeter list |
| MeshProperties.LargeGridWalls | backend/app/services/model_generator.py:144-164 | on grids of at least 3 x 3 the rule as written produces exactly height - 1 walls, wall t joining (t * width + width - 1, (t + 1) * width) |
| MeshProperties.WallLayout | backend/app/services/model_generator.py:166-179 | wall t's copies keep x and y of its two terrain vertices at z = base_z, numbered start + 2t and start + 2t + 1, with faces [v1, v2, b1] and [v2, b2, b1] |
| MeshProperties.WallVerticesPrefix | backend/app/services/model_generator.py:167-168 | reading the wall ends from the list as it grows gives the same copies as reading the list before the walls |
| MeshProperties.WallFacesWithin | backend/app/services/model_generator.py:170-179 | wall faces name terrain vertices or their own copies, all below the new length |
| MeshProperties.RibbonLayout | backend/app/services/model_generator.py:204-215 | with n >= 2 track vertices the ribbon has 2(n - 1) vertices and n - 1 faces, segment t copying track vertices t and t + 1 and forming [v1, v2, base_vertex_start]; with fewer it is empty |
| MeshProperties.RibbonFacesWithin | backend/app/services/model_generator.py:206-215 | ribbon faces name their own copies and the first base corner, all below the new length |
| MeshProperties.MeshVerticesCount | backend/app/services/model_generator.py:89-212 | the vertex count is the grid size + 4 + 2 per wall + 2 per segment |
| MeshProperties.MeshFacesCount | backend/app/services/model_generator.py:107-215 | the face count is the terrain faces + 2 + 2 per wall + 1 per segment |
| MeshProperties.MeshFacesWithin | backend/app/services/model_generator.py:218-223 | every index of every face is below the final number of vertices, so the facet loop never misses |
| MeshProperties.MeshLayout | backend/app/services/model_generator.py:63-215 | on valid input: width * height + 4 + 2 per wall + 2 per segment vertices, 2(width - 1)(height - 1) + 2 + 2 per wall + 1 per segment faces, every face within the vertices |
| MeshProperties.MeshVertexTotal | backend/app/services/model_generator.py:63-212 | the vertex total written with width * height |
| MeshProperties.MeshFaceTotal | backend/app/services/model_generator.py:107-215 | the face total written with 2 * (width - 1) * (height - 1) |
| MeshProperties.LargeGridMeshCounts | backend/app/services/model_generator.py:89-215 | on grids of at least 3 x 3 the counts depend only on width, height and the track length |
| MeshProperties.TerrainVertexBounds | backend/app/services/model_generator.py:96-102 | with a positive model width and a non-negative altitude multiplier every terrain vertex has 0 <= x <= model width, y >= 0 and z >= 0 |
| MeshProperties.TerrainVertexExtremes | backend/app/services/model_generator.py:76-102 | those bounds are reached: some terrain vertex has x = 0, one x = model width, one z = 0 |
| Arith.RowStartIsProduct | backend/app/services/model_generator.py:63 | the row-major count of height rows of width samples is width * height |
| Arith.RowMajorBound | backend/app/services/model_generator.py:107-110 | i * width + j is below k * width for i < k and j < width |
| Geometry.Linspace | backend/app/utils/geometry.py:6-11 | for num <= 1 the single midpoint of start and stop; otherwise exactly num values, the first start and the last stop, neighbours (stop - start) / (num - 1) apart |
| Geometry.LinspaceConstant | backend/app/utils/geometry.py:8-11 | equal ends give every element equal to start |
| Elevation.Dataset.Open | backend/app/services/elevation.py:57 | an opened dataset carries the raster's bounds and nodata value and is open |
| Elevation.Dataset.Close | backend/app/services/elevation.py:214 | closing leaves the dataset closed |
| Elevation.IsPointInBounds | backend/app/services/elevation.py:175-190 | a point in bounds implies a non-empty extent: no point is inside an extent whose left is past its right or whose bottom is above its top |
| Elevation.IsNodata | backend/app/services/elevation.py:192-203 | never nodata when the raster defines no nodata value or the sample is null; when nodata, the sample equals the nodata value |
| Elevation.CornersAreInBounds | backend/app/services/elevation.py:187-190 | both ends of both ranges are inside: all four corners of the extent are in bounds |
| Elevation.PointElevation | backend/app/services/elevation.py:72-106 | a value is returned exactly when the point is in bounds, a sample came back with a non-null value, and that value is not the nodata value; it is then the sampled value; out of bounds always gives None |
| Elevation.ToElevation | backend/app/services/elevation.py:162-164 | missing exactly when a nodata value is defined and equals the raster value; otherwise the value itself; no nodata filters nothing |
| Elevation.NumpyLinspace | backend/app/services/elevation.py:134-135 | resolution values from min to max, both included, evenly spaced; start alone for 1 and nothing for 0 |
| Elevation.GridRowsEntries | backend/app/services/elevation.py:158-167 | the grid has resolution * resolution entries; entry i * resolution + j has the i-th latitude, the j-th longitude and the elevation of raster row resolution - 1 - i, column j |
| Elevation.ReadGrid | backend/app/services/elevation.py:158-167 | the nested loop builds exactly the row-major grid with inverted raster rows |
| Elevation.ReadGridRow | backend/app/services/elevation.py:159-167 | one pass of the outer loop appends exactly grid row i, read from raster row res - 1 - i, to the results so far |
| Elevation.ElevationService.constructor | backend/app/services/elevation.py:31-41 | a new service keeps its path and has no dataset cached |
| Elevation.ElevationService.GetDataset | backend/app/services/elevation.py:43-59 | with a dataset cached it is kept and returned; with none, the newly opened one is cached and returned |
| Elevation.ElevationService.Close | backend/app/services/elevation.py:205-215 | afterwards nothing is cached; a dataset that was cached is closed; nothing happens when none was |
| Elevation.ElevationService.GetPointElevation | backend/app/services/elevation.py:61-106 | goes through the cache; None when no dataset could be opened, otherwise the lookup chain on the cached dataset |
| Elevation.ElevationService.GetElevationGrid | backend/app/services/elevation.py:108-173 | a negative resolution fails without touching the cache; otherwise it fails exactly when no dataset is available, and on success returns resolution twice and the row-major grid with inverted raster rows and nodata as missing |
| GpxParser.BeforeFirst | backend/app/services/gpx_parser.py:38 | split("}")[0]: the text before the first "}", all of it when there is none |
| GpxParser.TrimStart | backend/app/services/gpx_parser.py:38 | strip("{") on the left: only "{" characters are removed and the result does not start with one |
| GpxParser.TrimEnd | backend/app/services/gpx_parser.py:38 | strip("{") on the right: only "{" characters are removed and the result does not end with one |
| GpxParser.NamespacePrefix | backend/app/services/gpx_parser.py:38-39 | empty when the root tag has no "}", otherwise a prefix of the form "{...}" |
| GpxParser.NamespacePrefixOfClarkTag | backend/app/services/gpx_parser.py:38-39 | a root tag "{uri}local" gives exactly the prefix "{uri}" |
| GpxParser.FindAllMember | backend/app/services/gpx_parser.py:45-47 | findall(".//tag") returns exactly the descendants carrying that tag |
| GpxParser.PreorderTransitive | backend/app/services/gpx_parser.py:45-47 | a descendant of a descendant is a descendant |
| GpxParser.Coordinates | backend/app/services/gpx_parser.py:48-50 | a tier yields its points, one per element in order, exactly when every element has numeric lat and lon; otherwise it fails |
| GpxParser.ParseGpxSpec | backend/app/services/gpx_parser.py:32-75 | malformed XML is "Invalid GPX data"; success always has at least one point; any trkpt element makes the track tier decide the result; the route tier decides only when there is no trkpt, the waypoints only when there is no rtept either; "no track points" exactly when all three tiers are empty |
| GpxParser.ParsedPointsComeFromDocument | backend/app/services/gpx_parser.py:45-65 | every point returned is the position of a trkpt, rtept or wpt element below the root |
| GpxParser.TrackPointElementBelowRoot | backend/app/services/gpx_parser.py:45-47 | a trkpt found through trk and trkseg is a trkpt below the root |
| GpxParser.RoutePointElementBelowRoot | backend/app/services/gpx_parser.py:54-55 | an rtept found through rte is an rtept below the root |
| GpxParser.AppendPoints | backend/app/services/gpx_parser.py:62-65 | the point loop appends every element's position in order, or fails at a bad coordinate |
| GpxParser.AppendFlatMap | backend/app/services/gpx_parser.py:45-58 | the nested loops append the positions of the found points of every container in order, or fail |
| GpxParser.CollectTrackPoints | backend/app/services/gpx_parser.py:45-50 | the trk/trkseg/trkpt loops collect exactly the track tier's points |
| GpxParser.CollectRoutePoints | backend/app/services/gpx_parser.py:53-58 | the rte/rtept loops collect exactly the route tier's points |
| GpxParser.ParseGpx | backend/app/services/gpx_parser.py:19-75 | the method with its fallbacks and error wrapping returns exactly ParseGpxSpec |
| GpxParser.Pad | backend/app/services/gpx_parser.py:108-122 | the padded interval has the same centre, width (hi - lo)(1 + 2 * padding) and is the interval itself for zero padding |
| GpxParser.CalculateBounds | backend/app/services/gpx_parser.py:94-123 | fails exactly on an empty track; otherwise the box is centred on the raw min/max box, each extent is the raw one times (1 + 2 * padding_factor), and zero padding gives the raw box |
| GpxParser.BoundsContainTrack | backend/app/services/gpx_parser.py:98-122 | with non-negative padding every track point lies inside the box |
| GpxParser.PadContains | backend/app/services/gpx_parser.py:114-122 | non-negative padding never shrinks the interval |
| Extremes.MinOf | backend/app/services/gpx_parser.py:102 | min(lats) is one of the values and no value is below it |
| Extremes.MaxOf | backend/app/services/gpx_parser.py:103 | max(lats) is one of the values and no value is above it |
| Common.Latitudes | backend/app/services/gpx_parser.py:98 | the latitudes of the points, one per point in order |
| Common.Longitudes | backend/app/services/gpx_parser.py:99 | the longitudes of the points, one per point in order |

## Left out

- Numbers are exact reals. Floating-point rounding, NaN and infinity are
  not modelled. A missing elevation is Python's None, what
  get_elevation_grid produces for nodata. NaN cannot occur in the model.
  In the source, a NaN in an all-float grid is skipped by nanmin and
  replaced by the minimum, which is what GenerateStl does with None.
- GenerateStl: models the intended handling of a None grid elevation
  (replaced by the minimum, so z = 0). As written, the source raises
  ZeroDivisionError at model_generator.py:77 for such a grid when its
  longitude span is zero (a single sample, or all samples on one
  meridian), and TypeError at model_generator.py:80 otherwise.
  GenerateStlAsWritten models both; see "## Findings".
- GenerateStl: requires a positive longitude span and at least one
  present elevation whenever the input passes validation. The source
  divides by the span without a guard and takes nanmin of the elevations;
  in floating point those cases give infinite or NaN coordinates, which a
  model over reals cannot represent.
- AssembleMesh: has the same precondition as GenerateStl, for the same
  reason.
- GenerateStl: width and height are natural numbers. With two negative
  dimensions whose product is the grid length, the numpy reshape raises;
  that case is not modelled.
- STL output: the ASCII text, the normals and the save to a byte buffer
  are not modelled. The model stops at the facet array.
- The path radius option is accepted and, as in the source, has no
  effect.
- GenerateStl: takes the grid as (latitude, longitude, elevation)
  records. That is the form generate_stl documents and indexes at
  model_generator.py:70-73. The only caller, routes/gpx_to_stl.py:59-80,
  does not meet this: it passes get_elevation_grid's dictionaries
  unchanged, and the column indexing at :71 would reject them. The model
  assumes the documented form.
- rasterio I/O is not modelled:
  - Opening the raster, sampling a point and reading a resampled window
    enter as parameters (`opening`, `sample`, `raster`).
  - The window computed by from_bounds and the nearest-neighbour
    resampling are what produced `raster`, and are not modelled.
- GetElevationGrid: an exception while reading the window is not
  modelled. Only two failures are: a negative resolution, which numpy's
  linspace refuses, and a dataset that cannot be opened. In the source
  both are re-raised.
- ElevationService: the destructor that calls close, and the logger, are
  not modelled.
- XML parsing is not modelled. A document is either malformed or a
  parsed element tree.
  - A "lat"/"lon" attribute is a number or absent. An absent or
    non-numeric attribute stands for a float() call that raises.
  - Exceptions other than these two, which in the source also become
    "Error parsing GPX data", are not modelled.
- CalculateBounds: the padding factor is a parameter, and its default of
  0.2 is not modelled. The error is only the message string.
- GenerateStl: every setting is passed explicitly. The defaults of
  generate_stl at model_generator.py:35-39 are not modelled: base
  thickness 2.0 mm, model width 100.0 mm, altitude multiplier 1.0, path
  elevation 0.5 mm and path radius 0.5 mm. Dafny methods have no default
  arguments. The only caller, routes/gpx_to_stl.py:72-80, leaves the base
  thickness, path elevation and path radius at these defaults.
- HTTP routes, application wiring, configuration and logging are not part
  of this model.
- Row-major positions are written i * width + j through `Arith.Cell` and
  `Arith.RowStart`, which are defined by repeated addition.
  `Arith.RowStartIsProduct` ties them to the product width * height.

## Findings

| source | as written | input that shows it | evidently intended | confidence | as-written member | corrected member |
|---|---|---|---|---|---|---|
| backend/app/services/model_generator.py:70-97 | a None elevation turns the grid into an object array, where np.nanmin at :80 does not skip None and raises TypeError when ordering it against another entry, so the `elev is None` fallback at :96-97 is never reached for grid input; when the longitude span is zero the division at :77 raises ZeroDivisionError first, as np.max and np.min of an object array give Python floats (MeshProperties.ZeroSpanRaisesAtScale) | a 2 x 2 grid, longitudes 0 and 1, elevations None, 5, 3, 4 (a nodata cell from get_elevation_grid) | a missing elevation is replaced by the minimum of the present ones, giving z = 0 | high for the object-array behaviour of numpy's nanmin; not executed | ModelGenerator.GenerateStlAsWritten, MeshProperties.NoneElevationRaisesAsWritten | ModelGenerator.GenerateStl, MeshSpec.TerrainVertex, MeshSpec.MinElevation |
