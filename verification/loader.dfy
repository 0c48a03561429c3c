/** The pure parts of the raster loader: band and profile reads with their
    row flip and nodata rules, date labels, metadata parsing, the naming of
    a stacked directory, and the raster placement of GPS stations. The file
    system and the raster library are replaced by values: a `Dataset` holds
    the bands as stored in the file, and files are a map from name to lines. */
module Loader {
  import opened Outcomes
  import opened Coords
  import opened Text

  datatype Driver = GTiff | ENVI | OtherDriver(name: string)

  /** A band as stored in the file: rows from the top (north) down. */
  type Raster = seq<seq<real>>

  /** An open dataset: its name, driver, the profile's `nodata` value, its
      shape, and per band its data, `dtype` and description. */
  datatype Dataset = Dataset(
    name: string,
    driver: Driver,
    nodata: Option<real>,
    height: nat,
    width: nat,
    bands: seq<Raster>,
    dtypes: seq<string>,
    descriptions: seq<Option<string>>)

  predicate WellFormed(ds: Dataset) {
    |ds.dtypes| == |ds.bands| && |ds.descriptions| == |ds.bands|
    && (forall k :: 0 <= k < |ds.bands| ==> |ds.bands[k]| == ds.height)
    && (forall k, r :: 0 <= k < |ds.bands| && 0 <= r < ds.height ==> |ds.bands[k][r]| == ds.width)
  }

  /** `np.flipud`: the row order reversed. */
  function FlipUD(rows: Raster): (r: Raster)
    ensures |r| == |rows|
    ensures forall k :: 0 <= k < |rows| ==> r[k] == rows[|rows| - 1 - k]
  {
    Reverse(rows)
  }

  /** Flipping twice restores the band. */
  lemma FlipInvolution(rows: Raster)
    ensures FlipUD(FlipUD(rows)) == rows
  {
  }

  /** The map row of file row `r` (and the file row of map row `r`). */
  function FlipRow(height: nat, r: int): int { height - (r + 1) }

  lemma FlipRowInvolution(height: nat, r: int)
    ensures FlipRow(height, FlipRow(height, r)) == r
    ensures 0 <= r < height <==> 0 <= FlipRow(height, r) < height
  {
  }

  /** What `load_band` returns: the band in map row order, its nodata value
      and its dtype. */
  datatype Band = Band(rows: Raster, nodata: Option<real>, dtype: string)

  /** `load_band(i)`: band `indexes[i]` (Python indexing), flipped for the
      GTiff and ENVI drivers; GTiff reports the profile's nodata, ENVI the
      constant 0.0, and any other driver falls off the end and returns `None`. */
  function LoadBand(ds: Dataset, i: int): (r: Result<Option<Band>>)
    requires WellFormed(ds)
    ensures r.Ok? <==> -|ds.bands| <= i < |ds.bands|
    ensures r.Err? ==> r.fault == IndexError
    ensures r.Ok? ==> (r.value.None? <==> ds.driver.OtherDriver?)
    ensures r.Ok? && r.value.Some? ==>
              var k := if i >= 0 then i else i + |ds.bands|;
              && r.value.value.rows == FlipUD(ds.bands[k])
              && r.value.value.dtype == ds.dtypes[k]
              && r.value.value.nodata == (if ds.driver == ENVI then Some(0.0) else ds.nodata)
  {
    match PyIndex(i, |ds.bands|)
    case None => Err(IndexError)
    case Some(k) =>
      match ds.driver
      case GTiff => Ok(Some(Band(FlipUD(ds.bands[k]), ds.nodata, ds.dtypes[k])))
      case ENVI => Ok(Some(Band(FlipUD(ds.bands[k]), Some(0.0), ds.dtypes[k])))
      case OtherDriver(_) => Ok(None)
  }

  /** A raw value as `load_profile` reports it: `None` (NaN) where it equals
      the profile's nodata value. */
  function Masked(v: real, nodata: Option<real>): Option<real> {
    if nodata == Some(v) then None else Some(v)
  }

  /** `load_profile(i, j)`: the value of every band at column `i`, map row
      `j`. Without an open dataset it returns `[]`. For GTiff and ENVI the map
      row is turned into file row `h - (j + 1)`. A window outside the raster
      reads nothing and the reshape to one value per band raises. */
  function LoadProfile(ods: Option<Dataset>, i: int, j: int): (r: Result<seq<Option<real>>>)
    requires ods.Some? ==> WellFormed(ods.value)
    ensures ods.None? ==> r == Ok([])
    ensures ods.Some? ==>
              var ds := ods.value;
              var row := if ds.driver.OtherDriver? then j else FlipRow(ds.height, j);
              && (r.Ok? <==> 0 <= row < ds.height && 0 <= i < ds.width)
              && (r.Err? ==> r.fault == ValueError)
              && (r.Ok? ==>
                    |r.value| == |ds.bands|
                    && forall k :: 0 <= k < |ds.bands| ==> r.value[k] == Masked(ds.bands[k][row][i], ds.nodata))
  {
    match ods
    case None => Ok([])
    case Some(ds) =>
      var row := if ds.driver.OtherDriver? then j else FlipRow(ds.height, j);
      if !(0 <= row < ds.height && 0 <= i < ds.width) then Err(ValueError)
      else Ok(seq(|ds.bands|, k requires 0 <= k < |ds.bands| => Masked(ds.bands[k][row][i], ds.nodata)))
  }

  /** The profile at `(i, j)` is the value `load_band(k)` shows at row `j`,
      column `i`, for every band `k`, with nodata turned into NaN. */
  lemma ProfileMatchesBand(ds: Dataset, i: int, j: int, k: nat)
    requires WellFormed(ds) && (ds.driver == GTiff || ds.driver == ENVI)
    requires 0 <= i < ds.width && 0 <= j < ds.height && k < |ds.bands|
    ensures LoadProfile(Some(ds), i, j).Ok? && LoadBand(ds, k).Ok? && LoadBand(ds, k).value.Some?
    ensures LoadProfile(Some(ds), i, j).value[k] == Masked(LoadBand(ds, k).value.value.rows[j][i], ds.nodata)
  {
    FlipRowInvolution(ds.height, j);
    assert FlipRow(ds.height, j) == ds.height - 1 - j;
  }

  // ---------------------------------------------------------------------------
  // _dates

  /** What `_dates` returns: `range(n)` or a list of labels. */
  datatype Dates = Indices(n: nat) | Labels(labels: seq<string>)

  /** `_dates()`: without a description for some band, the band numbers,
      except that an ENVI dataset whose name holds eight digits gets the
      single label of the first such run; otherwise the last eight
      characters of every description. */
  function DatesOf(ds: Dataset): (r: Dates)
    requires WellFormed(ds)
    ensures None in ds.descriptions && !(ds.driver == ENVI && FirstDate(ds.name).Some?) ==> r == Indices(|ds.bands|)
    ensures None in ds.descriptions && ds.driver == ENVI && FirstDate(ds.name).Some? ==> r == Labels([FirstDate(ds.name).value])
    ensures None !in ds.descriptions ==> r.Labels? && |r.labels| == |ds.bands|
    ensures None !in ds.descriptions ==> forall k :: 0 <= k < |ds.bands| ==>
              var d := ds.descriptions[k].value;
              EndsWith(d, r.labels[k]) && |r.labels[k]| == (if |d| < 8 then |d| else 8)
  {
    if None in ds.descriptions then
      if ds.driver == ENVI && FirstDate(ds.name).Some? then Labels([FirstDate(ds.name).value])
      else Indices(|ds.bands|)
    else
      assert forall k :: 0 <= k < |ds.descriptions| ==> ds.descriptions[k] in ds.descriptions;
      Labels(seq(|ds.descriptions|, k requires 0 <= k < |ds.descriptions| => LastEight(ds.descriptions[k].value)))
  }

  // ---------------------------------------------------------------------------
  // get_metadata

  /** `filename.split('.')[0] + '.meta'`. */
  function MetaFileName(filename: string): string {
    BeforeFirstDot(filename) + ".meta"
  }

  /** One metadata line `key: value`: split at the first `": "`, value
      stripped; `None` when the line has no `": "`. */
  function ParseLine(line: string): Option<(string, string)> {
    match SplitOnce(line, ": ")
    case None => None
    case Some((k, v)) => Some((k, Strip(v)))
  }

  /** Every parse succeeded. */
  predicate AllSome(es: seq<Option<(string, string)>>) {
    forall n :: 0 <= n < |es| ==> es[n].Some?
  }

  /** Entry `n` holds the last occurrence of its key. */
  predicate LastWithKey(es: seq<Option<(string, string)>>, n: nat)
    requires AllSome(es) && n < |es|
  {
    forall m :: n < m < |es| ==> es[m].value.0 != es[n].value.0
  }

  /** The loop of `get_metadata` over the parsed lines, with the entries
      stored so far in `acc`: a line without `": "` makes the two-name
      unpacking raise `ValueError`; each entry is stored over any earlier
      one. */
  function Store(es: seq<Option<(string, string)>>, acc: map<string, string>): (r: Result<map<string, string>>)
    ensures r.Ok? <==> AllSome(es)
    ensures r.Err? ==> r.fault == ValueError
  {
    if es == [] then Ok(acc)
    else
      match es[0]
      case None => Err(ValueError)
      case Some((k, v)) =>
        assert forall n :: 1 <= n < |es| ==> es[n] == es[1..][n - 1];
        Store(es[1..], acc[k := v])
  }

  /** The keys stored are those stored before and those of the entries. */
  lemma {:induction false} StoreKeys(es: seq<Option<(string, string)>>, acc: map<string, string>)
    requires AllSome(es)
    ensures forall key :: key in Store(es, acc).value <==>
              key in acc || exists n :: 0 <= n < |es| && es[n].value.0 == key
  {
    if es != [] {
      var (k, v) := es[0].value;
      assert forall n :: 1 <= n < |es| ==> es[n] == es[1..][n - 1];
      StoreKeys(es[1..], acc[k := v]);
      forall key | exists n :: 0 <= n < |es| && es[n].value.0 == key
        ensures key in Store(es, acc).value
      {
        var n :| 0 <= n < |es| && es[n].value.0 == key;
        if n > 0 { assert es[1..][n - 1].value.0 == key; }
      }
    }
  }

  /** A key takes the value of its last entry. */
  lemma {:induction false} StoreLastWins(es: seq<Option<(string, string)>>, acc: map<string, string>, n: nat)
    requires AllSome(es) && n < |es| && LastWithKey(es, n)
    ensures es[n].value.0 in Store(es, acc).value
    ensures Store(es, acc).value[es[n].value.0] == es[n].value.1
  {
    var (k, v) := es[0].value;
    assert forall m :: 1 <= m < |es| ==> es[m] == es[1..][m - 1];
    if n == 0 {
      StoreUntouched(es[1..], acc[k := v], k);
    } else {
      assert LastWithKey(es[1..], n - 1);
      StoreLastWins(es[1..], acc[k := v], n - 1);
    }
  }

  /** A key no entry mentions keeps the value it had. */
  lemma {:induction false} StoreUntouched(es: seq<Option<(string, string)>>, acc: map<string, string>, key: string)
    requires AllSome(es) && key in acc
    requires forall n :: 0 <= n < |es| ==> es[n].value.0 != key
    ensures key in Store(es, acc).value && Store(es, acc).value[key] == acc[key]
  {
    if es != [] {
      var (k, v) := es[0].value;
      assert forall m :: 1 <= m < |es| ==> es[m] == es[1..][m - 1];
      assert es[0].value.0 != key;
      StoreUntouched(es[1..], acc[k := v], key);
    }
  }

  /** The parse of every line of a file. */
  function ParseLines(lines: seq<string>): (r: seq<Option<(string, string)>>)
    ensures |r| == |lines|
    ensures forall n :: 0 <= n < |lines| ==> r[n] == ParseLine(lines[n])
  {
    seq(|lines|, n requires 0 <= n < |lines| => ParseLine(lines[n]))
  }

  /** `get_metadata(filename)`: the entries of the `.meta` file named after
      the text before the first dot; an absent file gives no entries. */
  function GetMetadata(filename: string, files: map<string, seq<string>>): (r: Result<map<string, string>>)
    ensures MetaFileName(filename) !in files ==> r == Ok(map[])
    ensures MetaFileName(filename) in files ==> r == Store(ParseLines(files[MetaFileName(filename)]), map[])
  {
    var meta := MetaFileName(filename);
    if meta !in files then Ok(map[]) else Store(ParseLines(files[meta]), map[])
  }

  /** The metadata file of a dotted name sits beside it, named by its stem. */
  lemma MetaFileNameExample()
    ensures MetaFileName("cube.v2.tiff") == "cube.meta"
  {
    assert "cube.v2.tiff" == "cube" + "." + "v2.tiff";
    BeforeFirstDotOfStem("cube", "v2.tiff");
  }

  /** A path with a dot before the file name, such as a relative `./`,
      loses everything after that dot. */
  lemma MetaFileNameOfRelativePath(rest: string)
    ensures MetaFileName("./" + rest) == ".meta"
  {
  }

  /** An entry written as `key: value` reads back with its value stripped. */
  lemma ParseLineRoundTrip(key: string, value: string)
    requires forall q: nat :: !SepAt(key + ": ", ": ", q) || q >= |key|
    ensures ParseLine(key + ": " + value) == Some((key, Strip(value)))
  {
    var line := key + ": " + value;
    assert SepAt(line, ": ", |key|) by {
      assert line[|key|..|key| + 2] == ": ";
    }
    forall q: nat | q < |key| ensures !SepAt(line, ": ", q) {
      assert !SepAt(key + ": ", ": ", q);
      if q + 2 <= |line| {
        assert line[q..q + 2] == (key + ": ")[q..q + 2];
      }
    }
    var p := Find(line, ": ", 0).value;
    assert p == |key|;
    assert line[..p] == key;
    assert line[p + 2..] == value;
  }

  // ---------------------------------------------------------------------------
  // Opening a directory

  /** The names `glob` found that the stack regex accepts, in the order found. */
  function Layers(paths: seq<string>): (r: seq<string>)
    ensures forall x :: x in r <==> x in paths && IsStackLayer(x)
    ensures multiset(r) <= multiset(paths)
  {
    if paths == [] then []
    else
      var rest := Layers(paths[1..]);
      assert paths == [paths[0]] + paths[1..];
      if StackLayerTest(paths[0]) then [paths[0]] + rest else rest
  }

  /** A stamp starts with eight digits, so a layer's name has a date. */
  lemma StampHasDate(s: string)
    requires IsStackLayer(s)
    ensures FirstDate(s).Some?
  {
    var p: nat :| StampAt(s, p) && p + 18 <= |s|;
    assert DateAt(s, p);
  }

  /** `file_list` of a directory: the matching names in sorted order;
      `file_list[0]` raises when there is none. */
  function StackFiles(paths: seq<string>): (r: Result<seq<string>>)
    ensures r.Ok? <==> exists x :: x in paths && IsStackLayer(x)
    ensures r.Err? ==> r.fault == IndexError
    ensures r.Ok? ==> SortedStrings(r.value) && multiset(r.value) == multiset(Layers(paths))
  {
    var files := Sort(Layers(paths));
    if files == [] then
      assert forall x :: x in Layers(paths) ==> x in multiset(files);
      Err(IndexError)
    else
      assert files[0] in multiset(Layers(paths));
      assert files[0] in Layers(paths);
      Ok(files)
  }

  /** Opening a directory: the stacked files in order, each with the band
      description it gets, the first eight-digit run of its path. */
  function StackDirectory(paths: seq<string>): (r: Result<seq<(string, string)>>)
    ensures r.Ok? <==> StackFiles(paths).Ok?
    ensures r.Err? ==> r == Err(IndexError)
    ensures r.Ok? ==> |r.value| == |StackFiles(paths).value|
    ensures r.Ok? ==> forall k :: 0 <= k < |r.value| ==>
              r.value[k].0 == StackFiles(paths).value[k] && FirstDate(r.value[k].0) == Some(r.value[k].1)
  {
    match StackFiles(paths)
    case Err(f) => Err(f)
    case Ok(files) =>
      StackFilesHaveDates(files, paths);
      Ok(seq(|files|, k requires 0 <= k < |files| => (files[k], FirstDate(files[k]).value)))
  }

  lemma StackFilesHaveDates(files: seq<string>, paths: seq<string>)
    requires multiset(files) == multiset(Layers(paths))
    ensures forall k :: 0 <= k < |files| ==> FirstDate(files[k]).Some?
  {
    forall k | 0 <= k < |files| ensures FirstDate(files[k]).Some? {
      assert files[k] in multiset(Layers(paths));
      StampHasDate(files[k]);
    }
  }

  /** The search runs over the whole path, so eight digits in a row in the
      directory's name label every band of the stack alike. */
  lemma LabelFromDirectory(dir: string, rest: string)
    requires FirstDate(dir).Some?
    ensures FirstDate(dir + rest) == FirstDate(dir)
  {
    var p := FindDate(dir, 0).value;
    var s := dir + rest;
    assert DateAt(s, p) by {
      forall k | p <= k < p + 8 ensures IsDigit(s[k]) { assert s[k] == dir[k]; }
    }
    forall q | 0 <= q < p ensures !DateAt(s, q) {
      if DateAt(s, q) {
        assert DateAt(dir, q) by {
          forall k | q <= k < q + 8 ensures IsDigit(dir[k]) { assert s[k] == dir[k]; }
        }
      }
    }
    assert FindDate(s, 0) == Some(p);
    assert s[p..p + 8] == dir[p..p + 8];
  }

  /** The stacked dataset: the layers in order, every band described by its
      label. */
  function Stacked(name: string, driver: Driver, height: nat, width: nat,
                   layers: seq<(string, string)>, bands: seq<Raster>, dtype: string): (ds: Dataset)
    requires |bands| == |layers|
    ensures |ds.descriptions| == |layers| && None !in ds.descriptions
    ensures ds.nodata == Some(0.0)
  {
    Dataset(name, driver, Some(0.0), height, width, bands,
            seq(|layers|, k requires 0 <= k < |layers| => dtype),
            seq(|layers|, k requires 0 <= k < |layers| => Some(layers[k].1)))
  }

  /** The dates of a stacked directory are its labels. */
  lemma StackDatesAreLabels(paths: seq<string>, name: string, driver: Driver, height: nat, width: nat,
                            bands: seq<Raster>, dtype: string)
    requires StackDirectory(paths).Ok? && |bands| == |StackDirectory(paths).value|
    requires WellFormed(Stacked(name, driver, height, width, StackDirectory(paths).value, bands, dtype))
    ensures DatesOf(Stacked(name, driver, height, width, StackDirectory(paths).value, bands, dtype))
         == Labels(seq(|bands|, k requires 0 <= k < |bands| => StackDirectory(paths).value[k].1))
  {
    var layers := StackDirectory(paths).value;
    var ds := Stacked(name, driver, height, width, layers, bands, dtype);
    var d := DatesOf(ds);
    forall k | 0 <= k < |layers| ensures d.labels[k] == layers[k].1 {
      assert FirstDate(layers[k].0) == Some(layers[k].1);
      assert ds.descriptions[k] == Some(layers[k].1);
    }
  }

  // ---------------------------------------------------------------------------
  // Loader_gps

  /** The affine transform's coefficients used for placement:
      `x = c + a * col`, `y = f + e * row`. */
  datatype Transform = Transform(a: real, c: real, e: real, f: real)

  /** The file row and column of a station at `(east, north)`:
      `int((east - c) / a)` and `int((f - north) / |e|)`. */
  function GpsFileCell(t: Transform, east: real, north: real): (r: Result<Pair>)
    ensures r.Ok? <==> t.a != 0.0 && t.e != 0.0
    ensures r.Err? ==> r.fault == ZeroDivisionError
    ensures r.Ok? ==> r.value == (Trunc((east - t.c) / t.a), Trunc((t.f - north) / AbsReal(t.e)))
  {
    if t.a == 0.0 || t.e == 0.0 then Err(ZeroDivisionError)
    else Ok((Trunc((east - t.c) / t.a), Trunc((t.f - north) / AbsReal(t.e))))
  }

  /** `Loader_gps`'s placement as written: a station with both coordinates
      non-zero gets column `int((east - c) / a)` and map row
      `height - int((f - north) / |e|)`; any other station gets `(0, 0)`. */
  function GpsRasterAsWritten(height: nat, t: Transform, east: real, north: real): (r: Result<Pair>)
    ensures east == 0.0 || north == 0.0 ==> r == Ok((0, 0))
    ensures east != 0.0 && north != 0.0 ==>
              (r.Ok? <==> GpsFileCell(t, east, north).Ok?)
              && (r.Ok? ==>
                    r.value.0 == GpsFileCell(t, east, north).value.0
                    && r.value.1 + GpsFileCell(t, east, north).value.1 == height)
  {
    if east != 0.0 && north != 0.0 then
      match GpsFileCell(t, east, north)
      case Err(f) => Err(f)
      case Ok((col, row)) => Ok((col, height - row))
    else Ok((0, 0))
  }

  /** The placement with the row flip `load_band` and `load_profile` use:
      file row `r` is map row `height - (r + 1)`. */
  function GpsRaster(height: nat, t: Transform, east: real, north: real): (r: Result<Pair>)
    ensures east == 0.0 || north == 0.0 ==> r == Ok((0, 0))
    ensures east != 0.0 && north != 0.0 ==>
              (r.Ok? <==> GpsFileCell(t, east, north).Ok?)
              && (r.Ok? ==>
                    r.value.0 == GpsFileCell(t, east, north).value.0
                    && FlipRow(height, r.value.1) == GpsFileCell(t, east, north).value.1)
  {
    if east != 0.0 && north != 0.0 then
      match GpsFileCell(t, east, north)
      case Err(f) => Err(f)
      case Ok((col, row)) => Ok((col, FlipRow(height, row)))
    else Ok((0, 0))
  }

  /** As written, a station in the northernmost file row lands on map row
      `height`, outside the map, so the profile under it cannot be read;
      in general the map row is one above the one whose profile is the
      station's. */
  lemma GpsRowOffByOne(ds: Dataset, t: Transform, east: real, north: real)
    requires WellFormed(ds) && ds.driver == GTiff && 0 < ds.width
    requires east != 0.0 && north != 0.0 && GpsFileCell(t, east, north) == Ok((0, 0))
    ensures GpsRasterAsWritten(ds.height, t, east, north) == Ok((0, ds.height))
    ensures LoadProfile(Some(ds), 0, ds.height).Err?
  {
  }

  /** The corrected placement reads back the station's own file cell. */
  lemma GpsRasterReadsStation(ds: Dataset, t: Transform, east: real, north: real)
    requires WellFormed(ds) && (ds.driver == GTiff || ds.driver == ENVI)
    requires east != 0.0 && north != 0.0 && GpsFileCell(t, east, north).Ok?
    requires var (col, row) := GpsFileCell(t, east, north).value; 0 <= col < ds.width && 0 <= row < ds.height
    ensures GpsRaster(ds.height, t, east, north).Ok?
    ensures var (col, row) := GpsFileCell(t, east, north).value;
            var (i, j) := GpsRaster(ds.height, t, east, north).value;
            LoadProfile(Some(ds), i, j) == Ok(seq(|ds.bands|, k requires 0 <= k < |ds.bands| => Masked(ds.bands[k][row][col], ds.nodata)))
  {
    var (col, row) := GpsFileCell(t, east, north).value;
    FlipRowInvolution(ds.height, row);
  }
}
