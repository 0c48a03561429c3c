# InsarViz map interaction, modelled in Dafny

InsarViz shows a stack of InSAR displacement rasters, one band per date. The
user can pan and zoom the map. With the mouse they can pick points, trace
profiles and choose a reference zone, and the time series of what they
picked are plotted. This project models the logic between the raster loader
and the OpenGL and plotting widgets:

- **Pixel geometry** (`bresenham.dfy`, `utils.dfy`, `coords.dfy`):
  - the integer Bresenham line that traces profiles;
  - the reference rectangle;
  - the Chebyshev neighbourhood used for highlighting;
  - the nearest-value lookup.
- **The map model** (`mapmodel.dfy`, `camera.dfy`, `selection.dfy`, `subsample.dfy`):
  - the band-texture cache with its normalisation and validity channel;
  - the camera: centre and zoom, the screen-to-texel mapping, `zoom` and `pan`;
  - the selection marker layer drawn by `show_points`, `show_profile` and `show_ref`;
  - the arc-length subsampling of long profiles.
- **The event state machines**:
  - press, move and release of the map view (`mapview.dfy`), across the points, profile, reference, pan and zoom tools;
  - the minimap's own drag and zoom machine and its orbit symbol (`minimapview.dfy`);
  - the running colour bounds both views keep (`abstractview.dfy`);
  - the interaction codes (`interaction.dfy`).
- **The plot model's point buffer** (`plotmodel.dfy`):
  - the sliding window of picked points;
  - the profile slots;
  - the reference average;
  - the GPS plot's choice of series.
- **The loader's pure rules** (`loader.dfy`, `text.dfy`):
  - row flipping and nodata per driver;
  - date labels;
  - metadata parsing;
  - directory stacking;
  - GPS station placement.
- **The fragment shaders' decision table** (`shaders.dfy`). It gives the markers their colours and inverts the map model's normalisation.

Every Python exception is an `Err` of a `Result` (`outcomes.dfy`) naming the
exception class. Under PyQt5 an exception that escapes a slot or an event
handler aborts the application, so no state after an error is modelled. Each operation is a
pure function from the old fields to the new ones.

Things the model cannot compute are taken as parameters, each with the
property the proofs need:

- `exp`, the exponential `zoom` applies to its argument: always positive.
- `dist`, the Euclidean distance of two pixels: non-negative, and its square is the sum of squared differences.
- `inner`, the 5th and 95th percentiles.
- `subsample`, `subsample_profile` as the map view sees it: it returns `nMaxPoints` points.

Five behaviours of the code are easy to miss, and the model keeps them:

- Bresenham's minor offset `m` at step `k` satisfies `-d < 2dm - 2ek <= d`. A tie steps the minor axis, so the bound's strict side is the lower one.
- A reference click on any pixel already in the reference changes nothing, whichever of its pixels it is.
- A highlight (2) is drawn red, like a point.
- `show_points` takes the index from `np.max(np.nonzero(rows))`. That flattens row and column indices together, so the marked row is not always the last filled one.
- A profile click hands the map's samples array itself to the plots (MapView.py:320-321), and numpy arrays are bound by reference. The screen state carries a `shared` flag for this. While it holds, every write the plots make in place also changes the map's samples: the profile copy at PlotModel.py:277 and the free-slot fill at PlotModel.py:213. Binding a new array ends the sharing: the first pixel of a trace, a one-pixel profile, `np.concatenate` at capacity, and `clear_data`.

## Model

| member | source | states |
|---|---|---|
| Bresenham.WalkIsIdeal | build/lib/insarviz/bresenham.py:46-54 | the loop keeps its decision variable at `D == 2e(k+1) - d(2m+1)`, and the pixel it emits at step `k` is the one whose minor offset is `e*k/d` rounded to the nearest integer, halves rounded up |
| Bresenham.LineIsIdeal | build/lib/insarviz/bresenham.py:32-55 | `line` equals the independent reference rasterisation `Ideal`: `k` major steps and the rounded `e*k/d` minor steps, for `k` from 0 to `d` |
| Bresenham.LineWithinHalfPixel | build/lib/insarviz/bresenham.py:46-53 | every pixel lies within half a pixel of the ideal segment: `-d < 2dm - 2ek <= d` for major step `k` and minor offset `m` |
| Bresenham.LineLength | build/lib/insarviz/bresenham.py:38-49 | the result has `max(|x1-x0|, |y1-y0|) + 1` pixels |
| Bresenham.FrameReachesEnd | build/lib/insarviz/bresenham.py:35-44 | `d` steps along the major axis and `e` along the minor one, in the deltas' signs, lead from the first endpoint to the second |
| Bresenham.LineEnds | build/lib/insarviz/bresenham.py:46-55 | the first pixel is `(x0, y0)` and the last is `(x1, y1)` |
| Bresenham.LineOfPoint | build/lib/insarviz/bresenham.py:46-55 | coincident endpoints give the single pixel `[(x0, y0)]` |
| Bresenham.LineSteps | build/lib/insarviz/bresenham.py:35-53 | consecutive pixels move exactly one step, in the delta's sign, along the major axis and zero or one step, in the delta's sign, along the other; y is major when `|dx| <= |dy|` |
| Bresenham.LineInBox | build/lib/insarviz/bresenham.py:32-55 | every pixel lies in the axis-aligned box spanned by the two endpoints |
| Bresenham.LineExample | build/lib/insarviz/bresenham.py:24-29 | `line(x, y, x+4, y+3)` is the documented list `(0,0),(1,1),(2,2),(3,2),(4,3)`, shifted to `(x, y)` |
| Bresenham.LineNotReversible | build/lib/insarviz/bresenham.py:50-53 | a tie steps the minor axis, so `line(0,0,2,1) = [(0,0),(1,1),(2,1)]` and `line(2,1,0,0) = [(2,1),(1,0),(0,0)]`, which are not reverses of each other |
| Utils.NearestIndex | env/lib/python3.9/site-packages/insarviz/utils.py:44 | the index returned is the argmin: no value is nearer to `value`, and every earlier value is strictly farther |
| Utils.FirstNearestUnique | env/lib/python3.9/site-packages/insarviz/utils.py:44 | the first nearest index is unique, so `argmin` is fully determined |
| Utils.GetNearest | env/lib/python3.9/site-packages/insarviz/utils.py:43-45 | a non-empty array gives `(array[idx], idx)` with `idx` the first nearest index; an empty one raises `ValueError` |
| Utils.GetNearestExamples | env/lib/python3.9/site-packages/insarviz/utils.py:23-28 | `get_nearest((1,5,13,7), 8) = (7, 3)` and `get_nearest((1,5,13,7), 1.23) = (1, 0)` |
| Utils.KeepInGrid | env/lib/python3.9/site-packages/insarviz/utils.py:100-102 | the comprehension's filter keeps exactly the pairs inside the array, in their order |
| Utils.RemoveFirst | env/lib/python3.9/site-packages/insarviz/utils.py:103 | `list.remove` drops exactly the occurrence of the target, keeping order, and fails when the target is absent |
| Utils.WindowIsBall | env/lib/python3.9/site-packages/insarviz/utils.py:100-101 | the pairs the two nested ranges walk are exactly the Chebyshev ball of the radius around the target, in row-major increasing order |
| Utils.Neighbors | env/lib/python3.9/site-packages/insarviz/utils.py:99-104 | `get_neighbors_idxs` succeeds exactly for an in-grid target and a non-negative radius, and returns exactly the in-grid pairs within Chebyshev distance `radius`, the target excepted, in row-major increasing order |
| Utils.Unzip | env/lib/python3.9/site-packages/insarviz/utils.py:104 | `tuple(zip(*neighbors))` splits the pairs into a row list and a column list of the same length, position by position |
| Utils.NeighborsInteriorCount | env/lib/python3.9/site-packages/insarviz/utils.py:99-104 | away from the border a target has `(2 radius + 1)^2 - 1` neighbours |
| Utils.KeepAllInGrid | env/lib/python3.9/site-packages/insarviz/utils.py:100-102 | the filter keeps a list that is already inside the grid whole |
| Utils.DocNeighborsBall | env/lib/python3.9/site-packages/insarviz/utils.py:67-73 | the 19 documented indices are increasing and are exactly the in-grid radius-2 ball around `(1, 2)` on a 6 x 6 array, the target excepted |
| Utils.NeighborsExample | env/lib/python3.9/site-packages/insarviz/utils.py:67-73 | `get_neighbors_idxs` on a 6 x 6 array with target `(1, 2)` and radius 2 yields the 19 documented indices |
| Utils.NeighborsOutside | env/lib/python3.9/site-packages/insarviz/utils.py:103 | a target outside the array makes `remove` raise |
| Utils.Rectangle | env/lib/python3.9/site-packages/insarviz/utils.py:150-158 | `get_rectangle` is the x-major product of the two coordinate ranges: it has `(|dx|+1)(|dy|+1)` points, holds exactly the pairs of the box between the corners, contains both corners and is increasing |
| Utils.RectangleSymmetric | env/lib/python3.9/site-packages/insarviz/utils.py:130-131 | `get_rectangle(p, q) == get_rectangle(q, p)` |
| Utils.RectangleOfPoint | env/lib/python3.9/site-packages/insarviz/utils.py:133-134 | `get_rectangle(p, p) == [p]` |
| Utils.DocRectangleBox | env/lib/python3.9/site-packages/insarviz/utils.py:116-128 | the documented list of twelve pairs is increasing and holds exactly the 3 x 4 box |
| Utils.RectangleExample | env/lib/python3.9/site-packages/insarviz/utils.py:116-128 | `get_rectangle([0,0],[2,3])` is the documented list of twelve pairs, shifted to any `(x, y)` |
| Coords.Range | env/lib/python3.9/site-packages/insarviz/utils.py:155-156 | `range(lo, hi)` lists the integers from `lo` up to `hi`, exclusive, and is empty when `hi <= lo` |
| Coords.Product | env/lib/python3.9/site-packages/insarviz/utils.py:158 | `itertools.product(xs, ys)` has `|xs| * |ys|` pairs |
| Coords.ProductMembers | env/lib/python3.9/site-packages/insarviz/utils.py:158 | the product holds exactly the pairs of a member of `xs` and a member of `ys` |
| Coords.ProductIncreasing | env/lib/python3.9/site-packages/insarviz/utils.py:155-158 | strictly sorted factors give a product in strictly increasing row-major order |
| Shaders.UnitsDistinct | insarviz/map/Shaders.py:7 | the data, selection and palette texture units are 0, 1 and 2, pairwise distinct |
| Shaders.Normalize | env/lib/python3.9/site-packages/insarviz/map/MapModel.py:128 | the normalised value `(band - v_i) / (v_a - v_i)` is defined exactly when the bounds differ, and then scales back to `band - v_i` |
| Shaders.DenormalizeInvertsNormalize | insarviz/map/Shaders.py:19-23 | `v()`'s `t.x * (v_a - v_i) + v_i` gives back the original value of a texel that the map model normalised with the same bounds |
| Shaders.NormalizeInvertsDenormalize | insarviz/map/Shaders.py:19-23 | normalising what `v()` returns gives back the texel |
| Shaders.NormalizeInUnit | env/lib/python3.9/site-packages/insarviz/map/MapModel.py:127-128 | a value between the bounds normalises into `[0, 1]` |
| Shaders.PaletteCoord | insarviz/map/Shaders.py:31-33 | the palette coordinate `(v - v_0) / (v_1 - v_0)` is defined exactly when `v_1 != v_0`, and maps back to `v` |
| Shaders.PaletteCoordEnds | insarviz/map/Shaders.py:31-33 | `v_0` samples the palette at 0 and `v_1` at 1 |
| Shaders.MapFragment | insarviz/map/Shaders.py:45-73 | a map fragment is discarded exactly when it is outside the unit texture square or its validity alpha is below `1 - 1e-6`; otherwise it is red for a marker in `(0, 2]`, white above 2, green below 0, and the palette colour for 0 |
| Shaders.MarkerColours | insarviz/map/Shaders.py:62-71 | point (1) and highlight (2) render red, subsample (5) white, reference (-1) green, and an unmarked texel keeps its palette colour |
| Shaders.NodataDiscarded | insarviz/map/Shaders.py:55-56 | a nodata texel, whose validity alpha is 0, is discarded whatever its marker |
| Shaders.MinimapFragment | insarviz/map/Shaders.py:79-90 | a minimap fragment is discarded exactly when its validity alpha is off, and otherwise gets the palette colour |
| Shaders.MinimapAgreesWithMap | insarviz/map/Shaders.py:45-90 | inside the texture and without a marker, the map and the minimap draw the same fragment |
| Loader.FlipUD | insarviz/Loader.py:165 | `np.flipud` reverses the row order: returned row `r` is file row `h - 1 - r` |
| Loader.FlipInvolution | insarviz/Loader.py:164-173 | flipping twice restores the band |
| Loader.FlipRowInvolution | insarviz/Loader.py:206-212 | `load_profile`'s row map `h - (j + 1)` is an involution and maps `[0, h)` onto itself |
| Loader.LoadBand | insarviz/Loader.py:154-173 | `load_band(i)` indexes the bands Python-style, raising `IndexError` out of range; GTiff and ENVI return the band flipped, with the profile's nodata for GTiff and 0.0 for ENVI; any other driver returns `None` |
| Loader.LoadProfile | insarviz/Loader.py:199-221 | without an open dataset `load_profile` returns `[]`; otherwise one value per band from file row `h - (j + 1)` (GTiff, ENVI) or row `j` (other drivers), with nodata values as NaN; a window outside the raster raises |
| Loader.ProfileMatchesBand | insarviz/Loader.py:164-221 | `load_profile(i, j)[k]` is the value `load_band(k)` shows at row `j`, column `i`, with nodata masked |
| Loader.DatesOf | insarviz/Loader.py:119-130 | `_dates`: a missing description gives `range(count)`, except an ENVI dataset with eight digits in its name, which gives those digits alone; otherwise each label is the last eight characters of its description |
| Loader.GetMetadata | insarviz/Loader.py:243-251 | `get_metadata` reads the file named by the text before the first dot plus `.meta`; a missing file gives an empty dictionary; otherwise every line is parsed and stored in order |
| Loader.Store | insarviz/Loader.py:247-249 | storing the parsed lines succeeds exactly when every line has a `": "` separator, and a line without one raises `ValueError` from the unpacking |
| Loader.StoreKeys | insarviz/Loader.py:247-249 | the keys of the dictionary are those stored before and the keys of the lines |
| Loader.StoreLastWins | insarviz/Loader.py:247-249 | a key repeated in the file takes the value of its last line |
| Loader.StoreUntouched | insarviz/Loader.py:247-249 | a key no line mentions keeps the value it had |
| Loader.ParseLines | insarviz/Loader.py:247-248 | every line of the file is parsed on its own, in order |
| Loader.ParseLineRoundTrip | insarviz/Loader.py:248-249 | a line written as `key: value`, with no `": "` inside the key, reads back as the key and the stripped value |
| Loader.MetaFileNameExample | insarviz/Loader.py:243 | `cube.v2.tiff` has its metadata in `cube.meta`: the name is cut at the first dot |
| Loader.MetaFileNameOfRelativePath | insarviz/Loader.py:243 | a path starting with `./` is cut at that first dot, so its metadata file is `.meta` |
| Loader.Layers | insarviz/Loader.py:52 | the listing keeps exactly the names in which `\d{8}T\d{6}.*bin$` matches |
| Loader.StampHasDate | insarviz/Loader.py:52-68 | every name kept has an eight-digit run, so the label search of line 68 succeeds |
| Loader.StackFiles | insarviz/Loader.py:52-55 | the files of a directory stack are the matching names in sorted order; with no matching name `file_list[0]` raises `IndexError` |
| Loader.StackDirectory | insarviz/Loader.py:52-69 | band `k` of the stack is the `k`-th sorted file, described by the first eight-digit run of its name |
| Loader.StackFilesHaveDates | insarviz/Loader.py:52-68 | every file of the stack has a date in its name |
| Loader.LabelFromDirectory | insarviz/Loader.py:68 | the date search runs over the whole path, so eight digits in the directory name label every band |
| Loader.Stacked | insarviz/Loader.py:59-74 | the stacked dataset describes every band and reports nodata 0.0 |
| Loader.StackDatesAreLabels | insarviz/Loader.py:119-130 | the dates of a stacked directory are the labels taken from its file names |
| Loader.GpsFileCell | insarviz/Loader.py:323-324 | a station's file column is `int((east - c) / a)` and its file row `int((f - north) / |e|)`, truncated toward zero; a zero `a` or `e` raises `ZeroDivisionError` |
| Loader.GpsRasterAsWritten | insarviz/Loader.py:319-332 | as written, a station with both coordinates non-zero lands on map row `height - r` for file row `r`; any other station gets `(0, 0)` |
| Loader.GpsRowOffByOne | insarviz/Loader.py:326 | as written, a station in file row 0 lands on map row `height`, which `load_profile` cannot read |
| Loader.GpsRaster | insarviz/Loader.py:319-332 | corrected placement: file row `r` is map row `height - (r + 1)`, the row flip `load_band` uses |
| Loader.GpsRasterReadsStation | insarviz/Loader.py:319-332 | under the corrected placement, `load_profile` at a station's map cell reads that station's own file cell |
| Text.FindDate | insarviz/Loader.py:123-124 | the leftmost position where `\d{8}` matches, or none when it matches nowhere |
| Text.FindStamp | insarviz/Loader.py:52 | the leftmost position where `\d{8}T\d{6}` matches, or none when it matches nowhere |
| Text.FirstDate | insarviz/Loader.py:123-124 | `re.search(r"\d{8}", s)[0]` is defined exactly when eight digits occur in a row, and is eight digits |
| Text.StackLayerTest | insarviz/Loader.py:52 | testing the leftmost stamp decides whether some stamp is followed by a `bin` ending |
| Text.LastEight | insarviz/Loader.py:128 | `d[-8:]` is a suffix of `d` of length `min(8, |d|)` |
| Text.SplitOnce | insarviz/Loader.py:248 | `split(sep=': ', maxsplit=1)` cuts at the first separator: the parts joined by it give back the line; without a separator there is no second part |
| Text.BeforeFirstDot | insarviz/Loader.py:243 | `split('.')[0]` is the dot-free prefix that ends at the first dot or at the end |
| Text.BeforeFirstDotOfStem | insarviz/Loader.py:243 | a name made of a dot-free stem, a dot and anything else is cut at the stem |
| Text.Strip | insarviz/Loader.py:249 | `strip()` returns a slice of its input with only whitespace, in the sense of `str.isspace`, cut off either end, and leaves none at either end |
| Text.StripIsSlice | insarviz/Loader.py:249 | removing leading and then trailing whitespace leaves a slice of the input that only whitespace surrounds |
| Text.StripTrimmed | insarviz/Loader.py:249 | a string with no whitespace at either end is returned unchanged |
| Text.StripIdempotent | insarviz/Loader.py:249 | stripping twice is stripping once |
| Text.StrLeIsPythonOrder | insarviz/Loader.py:53 | the scan that compares strings decides Python's string order: code points, a proper prefix first |
| Text.StrLeTrans | insarviz/Loader.py:53 | the string order is transitive |
| Text.StrLeTotal | insarviz/Loader.py:53 | the string order is total |
| Text.InsertSorted | insarviz/Loader.py:53 | inserting into a sorted list keeps it sorted |
| Text.Sort | insarviz/Loader.py:53 | `list.sort()` returns a sorted permutation of its input |
| Camera.Initial | env/lib/python3.9/site-packages/insarviz/map/MapModel.py:43-61 | before any band is shown the camera is centred on texel `(256, 256)` of the default 512 x 512 texture, at zoom 1 |
| Camera.TexelAt | env/lib/python3.9/site-packages/insarviz/map/MapModel.py:446-447 | the untruncated texel under a y-up screen point is `(x - w//2) / z + cx`, `(y - h//2) / z + cy`, stated as the texel's offset from the centre times `z` |
| Camera.Zoom | env/lib/python3.9/site-packages/insarviz/map/MapModel.py:397-404 | `zoom` multiplies `z` by `dz > 0`, so `z` stays positive, and without a focal point leaves the centre where it is |
| Camera.ZoomKeepsFocalTexel | env/lib/python3.9/site-packages/insarviz/map/MapModel.py:397-404 | the untruncated texel under the focal point is the same before and after the zoom |
| Camera.ZoomAtCentre | env/lib/python3.9/site-packages/insarviz/map/MapModel.py:400-403 | a focal point at the centre of the view zooms exactly like no focal point |
| Camera.ZoomUndo | env/lib/python3.9/site-packages/insarviz/map/MapModel.py:397-404 | zooming by `dz` and then by `1 / dz` about the same focal point restores the camera |
| Camera.Pan | env/lib/python3.9/site-packages/insarviz/map/MapModel.py:423-424 | `pan(dx, dy)` moves the centre against the drag by `(dx, dy) / z` and keeps `z` |
| Camera.PanUndo | env/lib/python3.9/site-packages/insarviz/map/MapModel.py:423-424 | `pan(-dx, -dy)` undoes `pan(dx, dy)` |
| Camera.PanMovesContent | env/lib/python3.9/site-packages/insarviz/map/MapModel.py:423-424 | after `pan(dx, dy)` the texel under `(x + dx, y + dy)` is the one that was under `(x, y)` |
| Camera.TextureCoordinate | env/lib/python3.9/site-packages/insarviz/map/MapModel.py:444-449 | `get_texture_coordinate` turns y upward with the map height and truncates each coordinate of the texel under the point toward zero |
| Camera.LeftOfTextureIsColumnZero | env/lib/python3.9/site-packages/insarviz/map/MapModel.py:449 | truncation toward zero reports a point less than one texel left of the texture as column 0 |
| Camera.ScreenOfTexel | insarviz/map/MapView.py:220-242 | `draw_gps_station` draws texel `(i, j)` at `(w/2 - (cx - i) z, h/2 + (cy - j) z)` |
| Camera.ScreenOfTexelRoundTrip | insarviz/map/MapView.py:220-242 | on a view of even width and height, the texel under the point where a station is drawn is the station's own texel |
| Camera.ScreenOfTexelOddWidth | insarviz/map/MapView.py:220-242 | on a view of odd width a station is drawn half a screen pixel right of its texel, because drawing uses `w / 2` and the mapping `w // 2` |
| Camera.Viewport | insarviz/map/MinimapView.py:124-128 | the minimap's outline is centred on `(cx, cy)` and spans `map_width / z` by `map_height / z` texels |
| Camera.ViewportIsVisibleArea | insarviz/map/MinimapView.py:124-128 | on a map view of even size the outline's corners are the texels under the map view's corners |
| Camera.AspectCorrected | insarviz/map/MinimapView.py:277-284 | the drag delta along the axis on which the texture is relatively longer is stretched by the ratio of the two aspect ratios |
| Camera.MinimapDrag | insarviz/map/MinimapView.py:276-290 | a minimap drag moves the map centre by the aspect-corrected delta times `tex_width / width` and `tex_height / height`, keeps `z`, and divides by zero on any zero size |
| Camera.MinimapDragIgnoresZoom | insarviz/map/MinimapView.py:285-290 | the centre a minimap drag reaches does not depend on the zoom |
| Camera.WheelArgs | insarviz/map/AbstractMapView.py:180-182 | the wheel zooms by `angleDelta.y / 8` about the pointer, with y turned up |
| Camera.WheelKeepsPointerTexel | insarviz/map/AbstractMapView.py:180-182 | the wheel keeps the texel under the pointer where it is |
| MinimapView.Press | insarviz/map/MinimapView.py:239-245 | a press acts only with a band shown and the minimap idle: it stores the point with y turned up, and a left press starts a drag and a right press a zoom |
| MinimapView.Move | insarviz/map/MinimapView.py:267-293 | an idle move changes nothing; a drag pans the map by the minimap drag; a zoom zooms by `dx - dy` about the stored point; then the stored point follows the pointer |
| MinimapView.Release | insarviz/map/MinimapView.py:314-319 | release returns to idle exactly when the button is the one that started the drag or the zoom, and otherwise changes nothing |
| MinimapView.PressReleaseIdle | insarviz/map/MinimapView.py:239-319 | a press and the release of the same button bring an idle minimap back to idle |
| MinimapView.ZoomDragKeepsAnchor | insarviz/map/MinimapView.py:291-292 | a zoom drag keeps the map texel under the stored point |
| MinimapView.OrbitSymbol | insarviz/map/MinimapView.py:352-371 | the orbit and line-of-sight points for ASCENDING and DESCENDING with RIGHT and LEFT, offset from the centre as listed; a missing key raises `KeyError` and any other direction or side leaves a point unbound |
| MinimapView.OrbitSymbolSymmetric | insarviz/map/MinimapView.py:352-367 | the orbit arrow is centred on the symbol's centre, the two sides' line-of-sight ends mirror each other through it, and a descending orbit is an ascending one flipped vertically |
| AbstractView.UpdateVs | insarviz/map/AbstractMapView.py:100-109 | the shader gets the band's own bounds; the running bounds become `min(v_i, tex_vi)` and `max(v_a, tex_va)`; `vs_changed` is emitted exactly when the running pair moved |
| AbstractView.UpdateVsStraddles | insarviz/map/AbstractMapView.py:61-109 | the bounds start at 0.0 and every update keeps `v_i <= 0 <= v_a` |
| AbstractView.UpdateVsRepeatSilent | insarviz/map/AbstractMapView.py:102-109 | showing the same band twice changes nothing the second time and emits nothing |
| AbstractView.Fold | insarviz/map/AbstractMapView.py:106-107 | after a sequence of bands the running bounds are at least as wide as the starting ones and as every band's |
| AbstractView.FoldAttained | insarviz/map/AbstractMapView.py:106-107 | each running bound is either the starting value or a bound of some band drawn |
| Interaction.ModeOf | insarviz/map/AbstractMapView.py:50 | the codes 0 to 5 stand for idle, drag, zoom, points, live and profile, one to one |
| Interaction.CodeRoundTrip | insarviz/map/AbstractMapView.py:50 | a state with a code reads back from that code |
| Interaction.SetChecked | env/lib/python3.9/site-packages/insarviz/map/MapModel.py:451-454 | a setter stores the code and fails its assertion exactly when the code is not one it accepts |
| PlotModel.Init | insarviz/PlotModel.py:39-65 | a new plot model has no trace, no points on it, idle state and an empty graph |
| PlotModel.InitGood | insarviz/PlotModel.py:39-65 | the new plot model satisfies the plot invariant |
| PlotModel.CumSum | insarviz/PlotModel.py:253 | `np.cumsum` keeps the length, starts with the first value and adds each value to the previous total |
| PlotModel.CumSumIsPrefixSum | insarviz/PlotModel.py:309 | entry `k` of `cumdistances` is the sum of the first `k + 1` distances |
| PlotModel.RowAssign | insarviz/PlotModel.py:299-300 | assigning a series to a graph row copies a series of the row's length, broadcasts a single value, and raises `ValueError` for any other length |
| PlotModel.LoadRows | insarviz/PlotModel.py:298-300 | the graph rows of the first `n` pixels are their `load_profile` series, stored row by row; the first failing read or assignment fails the whole |
| PlotModel.UpdatePointerValues | insarviz/PlotModel.py:113-134 | `update_pointer_values` stores the pixel's series at every date and, for the tooltip, its value at the shown band with Python indexing; everything else stays |
| PlotModel.TooltipIsBandValue | insarviz/PlotModel.py:125-133 | the tooltip value is the value the shown band has at the pixel, NaN where that is nodata |
| PlotModel.StartTrace | insarviz/PlotModel.py:191-203 | the first point allocates `nMaxPoints` zero rows with the pointer in row 0, zero distances, `pts_on_trace = 1`, the pointer's series in temporal row 0 and NaN in the others |
| PlotModel.UpdatePoints | insarviz/PlotModel.py:189-257 | points mode: the first point starts a trace; a pixel equal to any stored row, unused zero rows included, is ignored; below capacity the pixel fills row `pts_on_trace` with its distance to the row before; at capacity the pixel is appended, distances and rows shift left and `distances[0] = 0`; each accepted point adds exactly 1 to `pts_on_trace` |
| PlotModel.FillRow | insarviz/PlotModel.py:210-254 | below capacity the pixel takes slot `pts_on_trace`, its series that row, and its distance is to the pixel before it |
| PlotModel.SlideRows | insarviz/PlotModel.py:230-254 | at capacity the array gets `nMaxPoints + 1` rows, rows and distances shift left by one, the first distance becomes 0 and the last is the step from the previous last pixel |
| PlotModel.OriginIgnoredWhileRoomLeft | insarviz/PlotModel.py:194-208 | while rows are left unfilled, a point at `(0, 0)` matches a zero row and is ignored |
| PlotModel.WindowSlides | insarviz/PlotModel.py:248-251 | at capacity the oldest row drops out and the new series takes the last row |
| PlotModel.ProfileDistances | insarviz/PlotModel.py:303-308 | distance `k`, for `1 <= k < pts_on_trace`, is the step between profile pixels `k - 1` and `k`; the others are left as they were |
| PlotModel.Reload | insarviz/PlotModel.py:295-309 | reading a trace of `n` pixels afresh: the first `n` rows are their series and the rest NaN, the distances between consecutive pixels are recomputed and `cumdistances` follows |
| PlotModel.PadRows | insarviz/PlotModel.py:295-300 | the rows read come first and NaN rows fill the graph up to `nMaxPoints` |
| PlotModel.UpdateProfile | insarviz/PlotModel.py:259-314 | profile mode: one pixel starts a trace; at most `nMaxPoints` pixels are copied over the front of `all_pointer_ij` and `pts_on_trace` becomes their number; more leave the stored pixels and `pts_on_trace = nMaxPoints`; then the rows and distances are read afresh; without stored pixels the copy raises `TypeError` |
| PlotModel.ShortProfilePlotted | insarviz/PlotModel.py:275-300 | a profile that fits is plotted pixel for pixel: the trace starts with it and row `k` is the series of its pixel `k` |
| PlotModel.UpdateLive | insarviz/PlotModel.py:316-323 | live mode with no tool selected plots the pointer's series alone with `pts_on_trace = 1`; with a tool selected nothing changes |
| PlotModel.UpdateValues | insarviz/PlotModel.py:168-326 | `update_values` dispatches on the plot state to points, profile or live mode; in profile mode without a profile `len(None)` raises; every outcome keeps the plot invariant |
| PlotModel.Spatial | insarviz/PlotModel.py:256-257 | the spatial data is the transpose of the temporal data: entry `[d][k]` is row `k`'s value at date `d` |
| PlotModel.SpatialTwice | insarviz/PlotModel.py:313-314 | transposing twice gives the rows back |
| PlotModel.Mean | insarviz/PlotModel.py:165 | a date's mean over the pixels is NaN exactly when a value is NaN or there is no pixel, and otherwise times the number of pixels is their sum |
| PlotModel.RefValues | insarviz/PlotModel.py:153-165 | one reference pixel's series is the reference; with several, the date-by-date mean over the pixels |
| PlotModel.UniformAreaReference | insarviz/PlotModel.py:158-165 | over an area whose pixels share one series the reference is that series |
| PlotModel.UpdateRefValues | insarviz/PlotModel.py:136-166 | `update_ref_values` stores the reference series and changes nothing else |
| PlotModel.ClearData | insarviz/PlotModel.py:329-346 | `clear_data` drops the trace, the graph rows and the running distances, and leaves `pts_on_trace` and the distances as they were |
| PlotModel.ClearThenPointRestarts | insarviz/PlotModel.py:329-346 | the next point after clearing starts a new trace with `pts_on_trace = 1`, whatever the count was |
| PlotModel.SetPlotInteraction | insarviz/PlotModel.py:348-352 | `set_plot_interaction` accepts exactly the idle, points, live and profile codes, changes only the state, and fails its assertion otherwise |
| PlotModel.GpsLoadProfile | insarviz/Loader.py:414-420 | `Loader_gps.load_profile` returns a known station's series in the order date, north, east, up, and raises `KeyError` for an unknown one |
| PlotModel.GpsSeriesAsWritten | insarviz/PlotModel.py:543-613 | as written, the unpacking swaps east and north, so "east" plots the north series and "north" the east one; any other choice keeps the previous series |
| PlotModel.GpsSeries | insarviz/PlotModel.py:608-613 | corrected: each menu choice plots the station's own component of that name |
| PlotModel.GpsEastShowsNorth | insarviz/PlotModel.py:543 | wherever a station's east and north series differ, the code as written plots the wrong one under "east" |
| PlotModel.GpsUpdateValues | insarviz/PlotModel.py:592-618 | `PlotModel_gps.update_values` plots the pointer's series alone with `pts_on_trace = 1` and the station's chosen component beside it |
| Selection.Zeros | env/lib/python3.9/site-packages/insarviz/map/MapModel.py:331-333 | a new selection layer has the texture's shape and every marker empty |
| Selection.ZerosSum | env/lib/python3.9/site-packages/insarviz/map/MapModel.py:331-333 | a new selection layer sums to zero, so the first profile click takes the first-point branch |
| Selection.PointAndReferenceCancel | env/lib/python3.9/site-packages/insarviz/map/MapModel.py:256 | the sum tested by `show_profile` counts each marker twice and a reference pixel as -1, so a point and a reference pixel together sum to 0 |
| Selection.Target | env/lib/python3.9/site-packages/insarviz/map/MapModel.py:208 | `selection[y, x]` addresses a cell exactly when both indices lie in Python's range `-n <= i < n`, and that cell lies in the layer |
| Selection.Put | env/lib/python3.9/site-packages/insarviz/map/MapModel.py:208 | a marker write changes exactly the addressed cell, and raises `IndexError` when no cell is addressed |
| Selection.MarkAll | env/lib/python3.9/site-packages/insarviz/map/MapModel.py:267-270 | marking a list of points succeeds exactly when every point addresses a cell, and keeps the layer's shape |
| Selection.MarkAllCells | env/lib/python3.9/site-packages/insarviz/map/MapModel.py:267-270 | after marking a list, a cell holds the marker exactly when some point of the list addresses it, and its old marker otherwise |
| Selection.MarkAllMarks | env/lib/python3.9/site-packages/insarviz/map/MapModel.py:267-270 | every point of a marked list carries the marker afterwards |
| Selection.ClearHighlights | env/lib/python3.9/site-packages/insarviz/map/MapModel.py:205 | clearing highlights turns every 2 into 0 and leaves every other marker as it was |
| Selection.LastNonzeroRow | env/lib/python3.9/site-packages/insarviz/map/MapModel.py:213-214 | the index found is the last row that is not `(0, 0)`, and there is none exactly when every row is `(0, 0)` |
| Selection.NonzeroMax | env/lib/python3.9/site-packages/insarviz/map/MapModel.py:213-214 | `np.max(np.nonzero(rows))` is the largest of the row and column indices of the non-zero entries, and exists exactly when some row is not `(0, 0)` |
| Selection.Chosen | env/lib/python3.9/site-packages/insarviz/map/MapModel.py:207-215 | the point `show_points` marks is the tuple given, the last row beyond `nMaxPoints` rows, and otherwise the row at `np.max(np.nonzero(...))`, raising when there is none or it is out of range |
| Selection.NonzeroPicksColumnIndex | env/lib/python3.9/site-packages/insarviz/map/MapModel.py:213-215 | with only the first row non-zero and its y non-zero, the index taken is the column index 1, so the zero row below is marked or the lookup raises |
| Selection.MarkPoints | env/lib/python3.9/site-packages/insarviz/map/MapModel.py:207-215 | the chosen point is marked 1, beyond `nMaxPoints` rows the first row's cell is then cleared, and nothing else changes |
| Selection.HighlightAround | env/lib/python3.9/site-packages/insarviz/map/MapModel.py:219-229 | the highlight marks 2 on the neighbour cells of the highlighted row's point except those holding 1; a tuple cannot be indexed and an out-of-range row raises |
| Selection.HighlightIsRing | env/lib/python3.9/site-packages/insarviz/map/MapModel.py:219-229 | on a layer of more than one cell, the highlighted cells are exactly those within Chebyshev distance 2 of the point, the point itself and cells holding 1 excluded |
| Selection.ShowPoints | env/lib/python3.9/site-packages/insarviz/map/MapModel.py:204-231 | after `show_points` without a highlight no cell holds 2, and unless the window slid the chosen point's cell holds 1 |
| Selection.ShowRef | env/lib/python3.9/site-packages/insarviz/map/MapModel.py:317-321 | after `show_ref` a cell holds -1 exactly when a reference pixel addresses it or it held -1 already, and cells no reference pixel addresses keep their marker |
| Selection.Extend | env/lib/python3.9/site-packages/insarviz/map/MapModel.py:257-258 | a later profile click keeps the traced pixels, ends them at the click, and joins the last traced pixel to the click by a chain of distinct 8-neighbours |
| Selection.Trace | env/lib/python3.9/site-packages/insarviz/map/MapModel.py:256-270 | a later profile click, corrected, marks every traced pixel 1 or 5 and every sample 5, resamples only beyond `nMaxPoints` pixels, and raises `IndexError` exactly when a pixel or sample is off the layer |
| Selection.TraceAsWritten | env/lib/python3.9/site-packages/insarviz/map/MapModel.py:269-270 | as the code has it, the later-click branch raises whenever no samples exist yet, and otherwise agrees with `Trace` |
| Selection.ShortProfileRaises | env/lib/python3.9/site-packages/insarviz/map/MapModel.py:261-270 | as written, a second profile click whose trace stays within `nMaxPoints` pixels always raises, while the corrected branch draws it whenever the pixels lie on the layer |
| Selection.TraceReachesClick | env/lib/python3.9/site-packages/insarviz/map/MapModel.py:257-268 | a successful trace keeps the earlier pixels, ends at the click and marks the click's pixel |
| Selection.ShowProfile | env/lib/python3.9/site-packages/insarviz/map/MapModel.py:251-277 | after `show_profile` the profile keeps its earlier pixels and ends at the click, whose pixel is marked; a first click only appends it; samples change only to a resampling of the profile |
| Subsample.Linspace | env/lib/python3.9/site-packages/insarviz/map/MapModel.py:304 | `np.linspace(0, 1, n)` gives `n` strictly increasing values in `[0, 1]`, the first 0 and, from two values on, the last 1, evenly spaced `1 / (n - 1)` apart |
| Subsample.RoundHalfEven | env/lib/python3.9/site-packages/insarviz/map/MapModel.py:305-306 | `np.round` lands within one half of its argument, picks the even integer on a tie, and keeps integers as they are |
| Subsample.RoundBetween | env/lib/python3.9/site-packages/insarviz/map/MapModel.py:305-306 | a value between two integers rounds to an integer between them |
| Subsample.DistinctPositive | env/lib/python3.9/site-packages/insarviz/map/MapModel.py:299 | the Euclidean step between two distinct pixels is positive |
| Subsample.Cumulative | env/lib/python3.9/site-packages/insarviz/map/MapModel.py:299 | the arc length starts at 0 and grows by each step's Euclidean length |
| Subsample.CumulativeIncreasing | env/lib/python3.9/site-packages/insarviz/map/MapModel.py:299 | along a profile whose neighbouring pixels differ, the arc length strictly increases |
| Subsample.Fractions | env/lib/python3.9/site-packages/insarviz/map/MapModel.py:300 | dividing by the total arc length keeps the order, starts at 0, ends at 1, and scales back to the arc length |
| Subsample.SearchLeft | env/lib/python3.9/site-packages/insarviz/map/MapModel.py:302 | the segment search returns the first index whose node is at least the argument |
| Subsample.Interp | env/lib/python3.9/site-packages/insarviz/map/MapModel.py:302 | `interp1d` returns the value on the straight line through the two nodes that bracket the argument |
| Subsample.Segment | env/lib/python3.9/site-packages/insarviz/map/MapModel.py:302 | the segment used brackets the argument between two neighbouring nodes |
| Subsample.InterpAtNode | env/lib/python3.9/site-packages/insarviz/map/MapModel.py:302 | linear interpolation passes through every node |
| Subsample.InterpBetween | env/lib/python3.9/site-packages/insarviz/map/MapModel.py:302 | an interpolated value lies between the values at the ends of its segment |
| Subsample.Xs | env/lib/python3.9/site-packages/insarviz/map/MapModel.py:296 | the `x` column holds each point's first coordinate |
| Subsample.Ys | env/lib/python3.9/site-packages/insarviz/map/MapModel.py:297 | the `y` column holds each point's second coordinate |
| Subsample.ProfileFractions | env/lib/python3.9/site-packages/insarviz/map/MapModel.py:296-300 | the arc-length fractions of a profile of two or more pixels strictly increase from 0 to 1 |
| Subsample.SampleAtEnds | env/lib/python3.9/site-packages/insarviz/map/MapModel.py:302-306 | the first and last samples are the first and last pixels of the profile |
| Subsample.SampleInBox | env/lib/python3.9/site-packages/insarviz/map/MapModel.py:302-306 | every sample lies in the bounding box of two neighbouring pixels of the profile |
| Subsample.Subsample | env/lib/python3.9/site-packages/insarviz/map/MapModel.py:296-308 | `subsample_profile` gives `nMaxPoints` samples, starting and ending at the profile's ends, each between two neighbouring profile pixels; fewer than two pixels raise |
| MapModel.Init | env/lib/python3.9/site-packages/insarviz/map/MapModel.py:42-90 | a new map model has no band shown, an empty cache, no selection layer, idle state, and a valid camera centred on texel (256, 256) at zoom 1 |
| MapModel.InitGood | env/lib/python3.9/site-packages/insarviz/map/MapModel.py:42-90 | the new map model satisfies the invariants the map's operations keep |
| MapModel.ValidValues | env/lib/python3.9/site-packages/insarviz/map/MapModel.py:122-127 | `band[~bg]` holds exactly the pixel values that are not the nodata value |
| MapModel.RowValid | env/lib/python3.9/site-packages/insarviz/map/MapModel.py:122-127 | one row's valid values are exactly its values other than nodata |
| MapModel.SeqMin | env/lib/python3.9/site-packages/insarviz/map/MapModel.py:127 | the 0th percentile of the valid values is one of them and no larger than any |
| MapModel.SeqMax | env/lib/python3.9/site-packages/insarviz/map/MapModel.py:127 | the 100th percentile of the valid values is one of them and no smaller than any |
| MapModel.TextureOf | env/lib/python3.9/site-packages/insarviz/map/MapModel.py:128-133 | each texel holds the pixel's normalised value, with validity 0 exactly on background pixels and 1 on the others |
| MapModel.MakeEntry | env/lib/python3.9/site-packages/insarviz/map/MapModel.py:117-170 | a cache miss raises for a missing band, a dtype other than float32, a band without a nodata value and a band without valid pixels; otherwise the entry has the fresh texture name, the band's size, and bounds that are attained valid values enclosing all of them |
| MapModel.TextureDrawsValidPixels | env/lib/python3.9/site-packages/insarviz/map/MapModel.py:122-133 | a valid pixel of a band with a non-zero range gets a texel value in `[0, 1]`, and the map shader discards every background texel |
| MapModel.AllocateSelection | env/lib/python3.9/site-packages/insarviz/map/MapModel.py:329-333 | the first selection update makes a zero layer of the texture's size under a fresh name; later ones keep the layer |
| MapModel.CacheBand | env/lib/python3.9/site-packages/insarviz/map/MapModel.py:107-170 | a cached band is shown from the cache; an uncached one is loaded into a new entry; other entries are untouched and the shown band's fields equal its entry |
| MapModel.ShowBand | env/lib/python3.9/site-packages/insarviz/map/MapModel.py:107-187 | `show_band(i)` makes band `i` current and cached; while one band is cached the camera is centred on it at zoom 1 and the selection layer exists; afterwards the camera and the layer stay |
| MapModel.ShowBandCached | env/lib/python3.9/site-packages/insarviz/map/MapModel.py:110-115 | showing a band again reads nothing and leaves the cache, the band's fields and the layer as they were |
| MapModel.ShowOnlyBandRecentres | env/lib/python3.9/site-packages/insarviz/map/MapModel.py:178-181 | with a single band cached, showing it resets the camera to its centre at zoom 1, wherever it had been moved |
| MapModel.ShowBandKeepsCamera | env/lib/python3.9/site-packages/insarviz/map/MapModel.py:178-187 | with two bands cached, showing either leaves the camera where it was |
| MapModel.ModelShowPoints | env/lib/python3.9/site-packages/insarviz/map/MapModel.py:189-231 | `show_points` changes only the selection layer, and raises before the first band has made one |
| MapModel.ModelShowProfile | env/lib/python3.9/site-packages/insarviz/map/MapModel.py:233-277 | `show_profile` changes only the layer, the profile and the samples; the profile keeps its pixels and ends at the click; the first click starts it |
| MapModel.ModelShowRef | env/lib/python3.9/site-packages/insarviz/map/MapModel.py:310-321 | `show_ref` changes only the selection layer, where every reference pixel then holds -1 |
| MapModel.SetMapInteraction | env/lib/python3.9/site-packages/insarviz/map/MapModel.py:451-454 | the map accepts the codes 0, 1, 2, 3 and 5 and fails its assertion on any other, so it never enters the live state |
| MapModel.Resized | env/lib/python3.9/site-packages/insarviz/map/MapModel.py:356-371 | a resize records the new map size and keeps the camera's centre and zoom |
| MapView.StartSynced | insarviz/map/MapView.py:281-361 | the map and plot models as the application creates them satisfy the invariant every mouse event keeps, with no array shared between them |
| MapView.ClearProfiles | insarviz/ts_viz.py:751-769 | "Clear profiles" drops the plots' trace and empties the map's selection, profile and reference but leaves the map's samples, no longer shared with the plots; showing the cached band again recentres the camera at zoom 1 while it is the only band cached and otherwise keeps it; checking "Interactive" leaves no tool on in either model, and the models' modes are kept; the result still satisfies the invariant the mouse events keep, so they accept it |
| MapView.SyncedWithPlot | insarviz/map/MapView.py:302-303 | a plot update that keeps the plot model sound, its capacity and its trace, and leaves a trace shared with the map alone, keeps the invariant |
| MapView.NextRefs | insarviz/map/MapView.py:329-345 | the first reference click takes the pixel alone; a click on a pixel already in the reference changes nothing; any other click takes the rectangle from the last reference pixel to the click; the clicked pixel is always in the result |
| MapView.RefClickTwice | insarviz/map/MapView.py:331-333 | clicking the same pixel twice leaves the reference as the first click made it |
| MapView.RefSecondClick | insarviz/map/MapView.py:334-339 | a second click off the first pixel gives the rectangle with the two clicks as opposite corners |
| MapView.PointsPress | insarviz/map/MapView.py:305-312 | a points press puts both models in points mode, stores the pixel in the plots' trace and marks it 1 on the map; while the trace is the map's samples array, a pixel written into its free slot `pts` appears in the map's samples at that slot; a new trace array ends the sharing and leaves the samples as they were |
| MapView.ProfilePress | insarviz/map/MapView.py:314-324 | a profile press puts both models in profile mode and extends the map's profile by `show_profile`; when the map holds samples the plots adopt that very array, so unless a one-pixel profile binds a new one the map's samples are the plots' trace afterwards; otherwise the samples are those `show_profile` left; the invariant is kept |
| MapView.ReadProfile | insarviz/map/MapView.py:319-324 | after a profile click the plots, given the map's samples when there are any, read the profile and are left tracing; a one-pixel profile restarts the trace whatever was adopted, and otherwise the result is `update_values` on the adopted plots |
| MapView.StaleSamplesForgotten | insarviz/PlotModel.py:259-271 | samples adopted by plots without a trace, as after clearing, do not change the trace a first profile pixel starts |
| MapView.ProfilePressExtends | insarviz/map/MapView.py:314-318 | a profile press keeps the earlier clicks and ends the map's profile at the clicked pixel |
| MapView.ProfileOverwritesSamples | insarviz/PlotModel.py:274-278 | a profile click of two to `nMaxPoints` pixels on a map holding samples, as after "Clear profiles", copies the profile into the first rows of the array the plots share with the map, so the map's samples begin with the profile and keep their remaining rows |
| MapView.ProfileSamplesFit | insarviz/map/MapView.py:319-321 | the samples the map holds after a profile click number at least `nMaxPoints`; new samples appear only on a later click, when the plots already trace |
| MapView.AdoptSamples | insarviz/map/MapView.py:319-321 | the plots take the map's samples as their trace when there are any and otherwise keep their trace, and nothing else in the plot model changes; that the two then share one array is stated on `MapView.ProfilePress` |
| MapView.RefPress | insarviz/map/MapView.py:326-350 | a reference press puts both models in reference mode, updates the reference by `NextRefs`, and the plots hold the reference series of exactly those pixels |
| MapView.Tool | insarviz/map/MapView.py:305-354 | a left press uses points if that tool is on, else profile, else reference, and pans when none is on |
| MapView.LeftPress | insarviz/map/MapView.py:301-356 | a left press on the texture points the plots at the pixel and leaves the map in the mode the tools pick; a pan press changes nothing else |
| MapView.Press | insarviz/map/MapView.py:290-361 | a press does nothing before a band is shown or while the map is busy; otherwise it records the press point; off the texture nothing more happens, a right press starts a zoom and a left press acts with the tool |
| MapView.PointsMove | insarviz/map/MapView.py:411-424 | a move in points mode changes the map's marks and, while the trace is the map's samples array, writes a pixel stored in a free slot into the map's samples too; a trace at capacity is a new array, no longer shared; a full trace keeps exactly `nMaxPoints` pixels as the oldest drops out |
| MapView.MoveCamera | insarviz/map/MapView.py:446-464 | while idle a move leaves the camera alone; a drag pans by the pointer's travel since the last move; a zoom zooms about the press point by `dx - dy`; the last position follows the pointer |
| MapView.ToolMove | insarviz/map/MapView.py:411-440 | in points mode the move extends the trace; in profile mode or with the reference tool on it does nothing; otherwise the plots update; the map keeps all but its marks and the samples it shares with the plots, which change only while shared |
| MapView.Hover | insarviz/map/MapView.py:405-440 | a move over the texture points the plots at the hovered pixel, and the map keeps all but its marks and the samples it shares with the plots, which change only while shared |
| MapView.MoveOver | insarviz/map/MapView.py:403-464 | a move over the texture keeps the map's mode, profile and reference, and points the plots at the pixel |
| MapView.Move | insarviz/map/MapView.py:401-466 | a move does nothing before a band is shown or off the texture, and keeps the invariant |
| MapView.DragFollowsPointer | insarviz/map/MapView.py:456-461 | during a drag the texel under the last pointer position is under the new one |
| MapView.Release | insarviz/map/MapView.py:501-509 | a release idles the map, idles the plots when the points tool is on and makes them live otherwise, and changes nothing else |
| MapView.ReleaseThenPressActs | insarviz/map/MapView.py:501-509 | after a release the next press is taken and records its own press point |
| MapView.StyleOf | insarviz/map/MapView.py:220-226 | the selected station is drawn red and every other one yellow with a green label, always with a black shadow |
| MapView.StationSquare | insarviz/map/MapView.py:241-247 | a station's 6 by 6 square is centred on the screen point of its texel |
| MapView.OneRedStation | insarviz/map/MapView.py:224-226 | at most one station is drawn red |

## Left out

- OpenGL and Qt: texture uploads, mipmaps, uniforms, painting, signals, tooltips and cursor overrides are not modelled. Signals are only named where a member states when one is emitted.
- Floating point: reals are exact. `exp`, `sqrt` (as `dist`) and the 5th and 95th percentiles are parameters. NaN is modelled as a missing value.
- `interp1d` and `np.round` are written out for points inside the profile. Their float rounding is not modelled.
- Subsample.Subsample: states the count, the endpoints and that each sample lies between two neighbouring profile pixels, not that samples are evenly spaced in arc length. Rounding makes the spacing inexact.
- MapView.Press: the map view's callers pass a `subsample` that returns `nMaxPoints` points, the precondition `Fills`, for every input. `Subsample.Subsample` proves this count only for stepping profiles of two or more pixels under a Euclidean `dist`, so for other inputs it is an assumption about `subsample_profile`.
- MapView.ReleaseThenPressActs: states only that the next press is taken and records its point. What the press then does is stated on `MapView.Press`.
- MapView.MoveOver: a drag's effect on the camera is stated on `MapView.MoveCamera`, and `MapView.DragFollowsPointer` proves it, rather than on the whole event.
- MapModel.SetMapInteraction: on a rejected code the source has already stored the value when the assertion fails. The model returns only the error, since an error aborts the application.
- The `ready_for_*` setters of the map model only store a flag. The model carries the flags as a `Ready` value.
- `insarviz/Interaction.py` is not part of this model. The codes of idle, drag, zoom, points, live and profile (0 to 5) are inferred from the setters' assertions and the import order, and the reference state has no known code.
- The plot model's `ref_pointers` and `ref_curve_id` are not stored. The reference series is computed directly from the pixels the map view passes.
- Selection.ShowProfile: a later click uses the corrected `Selection.Trace`. At MapModel.py:269 the source raises `TypeError` when no samples exist yet; the model returns the traced layer instead. `Selection.TraceAsWritten` and `Selection.ShortProfileRaises` state the source's behaviour.
- MapModel.ModelShowProfile: inherits the corrected trace from `Selection.ShowProfile`, so a short later profile click succeeds where the source raises `TypeError`.
- MapView.ProfilePress: inherits the corrected trace, so a short later profile click, and with it `MapView.LeftPress` and `MapView.Press`, succeeds where the source raises `TypeError` at MapView.py:318.
- PlotModel.GpsUpdateValues: plots the corrected `PlotModel.GpsSeries`. The source's swapped unpacking, which shows the north series under "east" and the reverse, is stated by `PlotModel.GpsSeriesAsWritten` and `PlotModel.GpsEastShowsNorth`.
- Text.FindDate: `\d` is taken as the ASCII digits 0 to 9. Python's `\d` on a `str` pattern also matches every other Unicode decimal digit.
- Text.FindStamp: `\d` is taken as the ASCII digits, as for `Text.FindDate`.
- Text.FirstDate: `\d` is taken as the ASCII digits, as for `Text.FindDate`.
- Text.StackLayerTest: `\d` is taken as the ASCII digits, and names are taken to hold no line break. In the source `.` stops at a newline and `$` also matches before a final newline, which the model does not follow.
- MapView.ClearProfiles: requires a band to have been shown, since the model keeps a selection layer only alongside its texture name. The clearing of the plot widgets is not modelled, nor is `plot_interaction = 1` (ts_viz.py:752), which sets an attribute nothing reads.
- Loader.LoadProfile: a window outside the raster is modelled as `ValueError`. The exact error rasterio raises is not modelled.
- Loader_gps parsing: reading station files, time stamps via `time.mktime` (local time zone) and float columns is not modelled. A station's coordinates and series are inputs.
- Histograms built with `ImageItem` in `show_band` are not modelled.
- The main window, menus and file dialogs (`ts_viz.py`, apart from the "Clear profiles" handler `MapView.ClearProfiles` models), the plot widgets (`PlotView.py`), the palette widget, shader compilation, the stale build copy of the loader, tests, scripts and packaging are not part of this model.
- The class-level `profile_points` list is shared by all instances in the source. The model keeps it per instance, which is how the application uses its single map model.

## Findings

| source | as written | input that shows it | evidently intended | confidence | as-written member | corrected member |
|---|---|---|---|---|---|---|
| insarviz/Loader.py:326 | a station in file row `r` is put on map row `height - r` | a station in file row 0 lands on map row `height`, one past the last row, so reading its profile there fails | map row `height - 1 - r`, the inverse of the row flip `load_band` and `load_profile` use | not executed | Loader.GpsRasterAsWritten | Loader.GpsRaster |
| insarviz/PlotModel.py:543 | `Loader_gps.load_profile` returns the series as date, north, east, up, and they are unpacked as date, east, north, up | a station whose east and north series differ: choosing "east" plots the north series | each orientation plots the station's series of that name | not executed | PlotModel.GpsSeriesAsWritten | PlotModel.GpsSeries |
| env/lib/python3.9/site-packages/insarviz/map/MapModel.py:269 | after a later profile click, `all_pointers_ij` is iterated even while it is still `None` | a second profile click whose traced line has at most `nMaxPoints` pixels raises `TypeError` | mark samples only when there are any | not executed | Selection.TraceAsWritten | Selection.Trace |
