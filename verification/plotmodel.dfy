/** `PlotModel`: the series the temporal and spatial plots draw. It keeps the
    pointer's displacement at every date, the picked points or the profile
    samples with the distances between them, the rows of the temporal graph,
    and the reference series. `PlotModel_gps` adds a GPS station's series.

    Displacements are `seq<Option<real>>`, one value per date, with `None`
    for NaN. Distances come from a parameter `dist` standing for the
    Euclidean distance of two pixels. */
module PlotModel {
  import opened Outcomes
  import opened Coords
  import opened Loader
  import opened Interaction

  /** A displacement series, one value per date; `None` is NaN. */
  type Series = seq<Option<real>>

  function NaNs(n: nat): (r: Series)
    ensures |r| == n && forall k :: 0 <= k < n ==> r[k].None?
  {
    seq(n, k => None)
  }

  /** `data_for_temporal_graph`: `nMax` rows of series while points or a
      profile are plotted, the pointer's series alone in live mode, and the
      empty list after clearing. */
  datatype Temporal = Rows(rows: seq<Series>) | Flat(series: Series) | Cleared

  datatype Plot = Plot(
    ds: Option<Dataset>,
    /** `number_of_dates`. */
    dates: nat,
    /** `date_number`: the band the map shows. */
    dateNumber: int,
    nMax: nat,
    /** `pointer_ij` with `thispoint_disp` and `thispoint_thisdate_disp`. */
    pointer: Pair,
    disp: Series,
    dispNow: Option<real>,
    /** `all_pointer_ij`. */
    pointers: Option<seq<Pair>>,
    distances: seq<real>,
    cumdistances: seq<real>,
    temporal: Temporal,
    /** `pts_on_trace`. */
    pts: nat,
    refData: Option<Series>,
    state: Mode,
    ready: Ready)

  /** The plot model as `__init__` leaves it. */
  function Init(ds: Option<Dataset>, dates: nat, nMax: nat): (p: Plot)
    ensures p.pointers.None? && p.pts == 0 && p.state == Idle && p.temporal == Cleared
  {
    Plot(ds, dates, 0, nMax, (0, 0), [], None, None, [], [], Cleared, 0, None, Idle, Ready(false, false, false))
  }

  // ---------------------------------------------------------------------------
  // Helpers of numpy

  /** `np.cumsum`. */
  function CumSum(s: seq<real>): (r: seq<real>)
    ensures |r| == |s|
    ensures |s| > 0 ==> r[0] == s[0]
    ensures forall k :: 0 < k < |s| ==> r[k] == r[k - 1] + s[k]
  {
    if s == [] then []
    else
      var c := CumSum(s[..|s| - 1]);
      assert forall k :: 0 <= k < |s| - 1 ==> s[..|s| - 1][k] == s[k];
      c + [(if c == [] then 0.0 else c[|c| - 1]) + s[|s| - 1]]
  }

  /** The sum of the first `n` elements. */
  function Sum(s: seq<real>, n: nat): real
    requires n <= |s|
  {
    if n == 0 then 0.0 else Sum(s, n - 1) + s[n - 1]
  }

  /** The running total at `k` is the sum of everything up to `k`. */
  lemma {:induction false} CumSumIsPrefixSum(s: seq<real>, k: nat)
    requires k < |s|
    ensures CumSum(s)[k] == Sum(s, k + 1)
  {
    if k > 0 {
      CumSumIsPrefixSum(s, k - 1);
    }
  }

  /** `row[:] = np.array(values)`: values of the row's length are copied, a
      single value is broadcast, any other length raises. */
  function RowAssign(values: Series, n: nat): (r: Result<Series>)
    ensures r.Ok? <==> |values| == n || |values| == 1
    ensures r.Err? ==> r.fault == ValueError
    ensures r.Ok? ==> |r.value| == n
    ensures r.Ok? ==> forall k :: 0 <= k < n ==> r.value[k] == if |values| == n then values[k] else values[0]
  {
    if |values| == n then Ok(values)
    else if |values| == 1 then Ok(seq(n, k => values[0]))
    else Err(ValueError)
  }

  /** The profile of each of the first `n` pixels, stored as rows of `dates`
      values. */
  function LoadRows(ds: Option<Dataset>, ps: seq<Pair>, n: nat, dates: nat): (r: Result<seq<Series>>)
    requires ds.Some? ==> WellFormed(ds.value)
    requires n <= |ps|
    ensures r.Ok? <==> forall k :: 0 <= k < n ==>
              LoadProfile(ds, ps[k].0, ps[k].1).Ok? && RowAssign(LoadProfile(ds, ps[k].0, ps[k].1).value, dates).Ok?
    ensures r.Err? ==> r.fault == ValueError
    ensures r.Ok? ==> |r.value| == n && forall k :: 0 <= k < n ==>
              r.value[k] == RowAssign(LoadProfile(ds, ps[k].0, ps[k].1).value, dates).value
  {
    if n == 0 then Ok([])
    else
      match LoadRows(ds, ps, n - 1, dates)
      case Err(f) => Err(f)
      case Ok(rows) =>
        match LoadProfile(ds, ps[n - 1].0, ps[n - 1].1)
        case Err(f) => Err(f)
        case Ok(values) =>
          match RowAssign(values, dates)
          case Err(f) => Err(f)
          case Ok(row) => Ok(rows + [row])
  }

  // ---------------------------------------------------------------------------
  // Invariant

  predicate RowsOf(rows: seq<Series>, n: nat, dates: nat) {
    |rows| == n && forall k :: 0 <= k < n ==> |rows[k]| == dates
  }

  /** What every reachable plot model keeps: the rows of the temporal
      graph, when it has rows, are `nMax` rows of `dates` values, and while
      points or a profile are traced there are `nMax` distances with their
      running totals and at least `nMax` pixels. */
  predicate Good(p: Plot) {
    && (p.ds.Some? ==> WellFormed(p.ds.value))
    && (p.temporal.Rows? ==> RowsOf(p.temporal.rows, p.nMax, p.dates))
    && (p.pointers.Some? ==>
          && p.nMax >= 1
          && |p.pointers.value| >= p.nMax
          && |p.distances| == p.nMax
          && p.cumdistances == CumSum(p.distances))
  }

  /** The error `data_for_temporal_graph[i, :]` raises when the graph holds
      no rows: a live series (a 1-D array, or `[]` without a dataset) or
      the list left by clearing. */
  function NotRows(p: Plot): Fault {
    if p.temporal.Flat? && p.ds.Some? then IndexError else TypeError
  }

  /** Everything but the trace is as it was: the dataset, the dates, the
      capacity, the pointer and its values, the reference and the states. */
  predicate SameSetting(p: Plot, q: Plot) {
    && q.ds == p.ds && q.dates == p.dates && q.dateNumber == p.dateNumber && q.nMax == p.nMax
    && q.pointer == p.pointer && q.disp == p.disp && q.dispNow == p.dispNow
    && q.refData == p.refData && q.state == p.state && q.ready == p.ready
  }

  lemma InitGood(ds: Option<Dataset>, dates: nat, nMax: nat)
    requires ds.Some? ==> WellFormed(ds.value)
    ensures Good(Init(ds, dates, nMax))
  {
  }

  // ---------------------------------------------------------------------------
  // update_pointer_values

  /** `update_pointer_values()` after `pointer_ij = pointer`: every date's
      value at the pixel, and the one of the band shown for the tooltip;
      without a dataset there is no value and indexing raises. */
  function UpdatePointerValues(p: Plot, pointer: Pair): (r: Result<Plot>)
    requires Good(p)
    ensures var lp := LoadProfile(p.ds, pointer.0, pointer.1);
            r.Ok? <==> lp.Ok? && PyIndex(p.dateNumber, |lp.value|).Some?
    ensures r.Ok? ==> Good(r.value)
    ensures r.Ok? ==>
              && r.value.disp == LoadProfile(p.ds, pointer.0, pointer.1).value
              && r.value.dispNow == r.value.disp[PyIndex(p.dateNumber, |r.value.disp|).value]
              && r.value == p.(pointer := pointer, disp := r.value.disp, dispNow := r.value.dispNow)
  {
    match LoadProfile(p.ds, pointer.0, pointer.1)
    case Err(f) => Err(f)
    case Ok(disp) =>
      match PyIndex(p.dateNumber, |disp|)
      case None => Err(IndexError)
      case Some(k) => Ok(p.(pointer := pointer, disp := disp, dispNow := disp[k]))
  }

  /** The tooltip's value is the value the map shows at the pixel in the
      current band, NaN where that is nodata. */
  lemma TooltipIsBandValue(p: Plot, i: nat, j: nat)
    requires Good(p) && p.ds.Some? && (p.ds.value.driver == GTiff || p.ds.value.driver == ENVI)
    requires i < p.ds.value.width && j < p.ds.value.height && 0 <= p.dateNumber < |p.ds.value.bands|
    ensures UpdatePointerValues(p, (i, j)).Ok?
    ensures var ds := p.ds.value;
            UpdatePointerValues(p, (i, j)).value.dispNow ==
              Masked(LoadBand(ds, p.dateNumber).value.value.rows[j][i], ds.nodata)
  {
    ProfileMatchesBand(p.ds.value, i, j, p.dateNumber);
  }

  // ---------------------------------------------------------------------------
  // update_values: the first point of a trace

  /** The first point of points or a profile: room for `nMax` pixels, the
      pointer in row 0, zero distances, one plotted row and NaN below it.
      With `nMax` 0 there is no row 0. Whatever trace the plots held is
      overwritten, so only the dataset needs to be sound. */
  function StartTrace(p: Plot): (r: Result<Plot>)
    requires p.ds.Some? ==> WellFormed(p.ds.value)
    ensures r.Ok? <==> p.nMax >= 1 && RowAssign(p.disp, p.dates).Ok?
    ensures r.Ok? ==> Good(r.value)
    ensures r.Ok? ==> SameSetting(p, r.value)
    ensures r.Ok? ==>
              var q := r.value;
              && q.pointers.Some? && q.temporal.Rows? && |q.temporal.rows| == p.nMax
              && |q.distances| == p.nMax && |q.cumdistances| == p.nMax
              && q.pts == 1 && |q.pointers.value| == p.nMax && q.pointers.value[0] == p.pointer
              && (forall k :: 1 <= k < p.nMax ==> q.pointers.value[k] == (0, 0))
              && q.temporal.rows[0] == RowAssign(p.disp, p.dates).value
              && (forall k :: 1 <= k < p.nMax ==> q.temporal.rows[k] == NaNs(p.dates))
              && (forall k :: 0 <= k < p.nMax ==> q.distances[k] == 0.0 && q.cumdistances[k] == 0.0)
              && q == p.(pointers := q.pointers, distances := q.distances, cumdistances := q.cumdistances,
                         pts := 1, temporal := q.temporal)
  {
    if p.nMax == 0 then Err(IndexError)
    else
      match RowAssign(p.disp, p.dates)
      case Err(f) => Err(f)
      case Ok(row) =>
        var zeros := seq(p.nMax, k => 0.0);
        ZeroCumSum(zeros);
        Ok(p.(pointers := Some([p.pointer] + seq(p.nMax - 1, k => (0, 0))),
              distances := zeros, cumdistances := CumSum(zeros), pts := 1,
              temporal := Rows([row] + seq(p.nMax - 1, k => NaNs(p.dates)))))
  }

  lemma ZeroCumSum(s: seq<real>)
    requires forall k :: 0 <= k < |s| ==> s[k] == 0.0
    ensures forall k :: 0 <= k < |s| ==> CumSum(s)[k] == 0.0
  {
    var c := CumSum(s);
    forall k | 0 <= k < |s| ensures c[k] == 0.0 {
      ZeroCumSumAt(s, k);
    }
  }

  lemma {:induction false} ZeroCumSumAt(s: seq<real>, k: nat)
    requires k < |s| && forall i :: 0 <= i < |s| ==> s[i] == 0.0
    ensures CumSum(s)[k] == 0.0
  {
    if k > 0 {
      ZeroCumSumAt(s, k - 1);
    }
  }

  // ---------------------------------------------------------------------------
  // update_values in points mode

  /** `ps[i - 1]` with Python's indexing: at `i == 0` it is the last pixel. */
  function Before(ps: seq<Pair>, i: nat): Pair
    requires i < |ps|
  {
    if i == 0 then ps[|ps| - 1] else ps[i - 1]
  }

  /** The pointer is one of the stored pixels, `(pointer_ij ==
      all_pointer_ij).all(1).any()`; the zero rows not yet filled count. */
  predicate Stored(ps: seq<Pair>, q: Pair) {
    exists k :: 0 <= k < |ps| && ps[k] == q
  }

  /** `update_values()` in points mode. The first point starts a trace; a
      pixel already stored is ignored; below `nMax` points the next row is
      filled; beyond, every series moves up one row, the new one takes the
      last, and the pixel is appended (the map view then drops the oldest). */
  function UpdatePoints(p: Plot, dist: (Pair, Pair) -> real): (r: Result<Plot>)
    requires Good(p)
    ensures p.pointers.None? ==> r == StartTrace(p)
    ensures p.pointers.Some? && Stored(p.pointers.value, p.pointer) ==> r == Ok(p)
    ensures p.pointers.Some? ==>
              (r.Ok? <==> Stored(p.pointers.value, p.pointer) || (p.temporal.Rows? && RowAssign(p.disp, p.dates).Ok?))
    ensures p.pointers.Some? && !Stored(p.pointers.value, p.pointer) && !p.temporal.Rows? ==> r == Err(NotRows(p))
    ensures r.Ok? ==> Good(r.value)
    ensures r.Ok? ==> SameSetting(p, r.value) && r.value.pointers.Some?
    ensures r.Ok? && p.pointers.Some? && !Stored(p.pointers.value, p.pointer) ==>
              var q := r.value;
              var ps := p.pointers.value;
              var row := RowAssign(p.disp, p.dates).value;
              && q.pts == p.pts + 1
              && q.pointers.Some? && q.temporal.Rows? && Stored(q.pointers.value, p.pointer)
              && (p.pts < p.nMax ==>
                    && q.pointers.value == ps[p.pts := p.pointer]
                    && q.temporal.rows == p.temporal.rows[p.pts := row]
                    && q.distances == p.distances[p.pts := dist(p.pointer, Before(ps[p.pts := p.pointer], p.pts))])
              && (p.pts >= p.nMax ==>
                    && q.pointers.value == ps + [p.pointer]
                    && q.temporal.rows == p.temporal.rows[1..] + [row]
                    && q.distances[0] == 0.0
                    && (p.nMax >= 2 ==> q.distances[p.nMax - 1] == dist(p.pointer, ps[|ps| - 1]))
                    && forall k :: 1 <= k < p.nMax - 1 ==> q.distances[k] == p.distances[k + 1])
  {
    match p.pointers
    case None => StartTrace(p)
    case Some(ps) =>
      if Stored(ps, p.pointer) then Ok(p)
      else if !p.temporal.Rows? then Err(NotRows(p))
      else
        match RowAssign(p.disp, p.dates)
        case Err(f) => Err(f)
        case Ok(row) =>
          if p.pts < p.nMax then Ok(FillRow(p, ps, row, dist)) else Ok(SlideRows(p, ps, row, dist))
  }

  /** Below capacity: the pixel takes slot `pts`, its series the row `pts`,
      and its distance is to the pixel before it. */
  function FillRow(p: Plot, ps: seq<Pair>, row: Series, dist: (Pair, Pair) -> real): (q: Plot)
    requires Good(p) && p.pointers == Some(ps) && p.temporal.Rows? && |row| == p.dates && p.pts < p.nMax
    ensures Good(q) && SameSetting(p, q) && q.pts == p.pts + 1
    ensures q.pointers == Some(ps[p.pts := p.pointer]) && Stored(q.pointers.value, p.pointer)
    ensures q.temporal == Rows(p.temporal.rows[p.pts := row])
    ensures q.distances == p.distances[p.pts := dist(p.pointer, Before(ps[p.pts := p.pointer], p.pts))]
  {
    var i := p.pts;
    var ps' := ps[i := p.pointer];
    var ds' := p.distances[i := dist(ps'[i], Before(ps', i))];
    assert ps'[i] == p.pointer;
    p.(pointers := Some(ps'), distances := ds', cumdistances := CumSum(ds'),
       temporal := Rows(p.temporal.rows[i := row]), pts := p.pts + 1)
  }

  /** At capacity: every series moves up one row and the new one takes the
      last; the distances shift down, the first becomes 0 and the last is
      to the previous last pixel; the pixel is appended. */
  function SlideRows(p: Plot, ps: seq<Pair>, row: Series, dist: (Pair, Pair) -> real): (q: Plot)
    requires Good(p) && p.pointers == Some(ps) && p.temporal.Rows? && |row| == p.dates && p.pts >= p.nMax
    ensures Good(q) && SameSetting(p, q) && q.pts == p.pts + 1
    ensures q.pointers == Some(ps + [p.pointer]) && Stored(q.pointers.value, p.pointer)
    ensures q.temporal == Rows(p.temporal.rows[1..] + [row])
    ensures q.distances[0] == 0.0
    ensures p.nMax >= 2 ==> q.distances[p.nMax - 1] == dist(p.pointer, ps[|ps| - 1])
    ensures forall k :: 1 <= k < p.nMax - 1 ==> q.distances[k] == p.distances[k + 1]
  {
    var ps' := ps + [p.pointer];
    var d := dist(ps'[|ps'| - 1], ps'[|ps'| - 2]);
    var ds' := (p.distances + [d])[1..][0 := 0.0];
    assert ps'[|ps'| - 1] == p.pointer;
    p.(pointers := Some(ps'), distances := ds', cumdistances := CumSum(ds'),
       temporal := Rows(p.temporal.rows[1..] + [row]), pts := p.pts + 1)
  }

  /** The unfilled rows of the trace are `(0, 0)`, so while there is room
      left a click on the pixel `(0, 0)` is taken for a stored point and
      ignored. */
  lemma OriginIgnoredWhileRoomLeft(p: Plot, dist: (Pair, Pair) -> real, first: Pair)
    requires Good(p) && p.pointers.None? && p.nMax >= 2 && StartTrace(p.(pointer := first)).Ok?
    ensures var q := StartTrace(p.(pointer := first)).value.(pointer := (0, 0));
            UpdatePoints(q, dist) == Ok(q)
  {
    var q := StartTrace(p.(pointer := first)).value.(pointer := (0, 0));
    assert q.pointers.value[1] == (0, 0);
  }

  /** After `n` accepted points the oldest remembered series is the one of
      the point `n - nMax + 1` ago: filling past `nMax` slides the window. */
  lemma WindowSlides(p: Plot, dist: (Pair, Pair) -> real)
    requires Good(p) && p.pointers.Some? && p.pts >= p.nMax && !Stored(p.pointers.value, p.pointer)
    requires UpdatePoints(p, dist).Ok?
    ensures var q := UpdatePoints(p, dist).value;
            && |q.temporal.rows| == p.nMax
            && (p.nMax >= 2 ==> q.temporal.rows[0] == p.temporal.rows[1])
            && q.temporal.rows[p.nMax - 1] == RowAssign(p.disp, p.dates).value
  {
  }

  // ---------------------------------------------------------------------------
  // update_values in profile mode

  /** The distances after a profile is loaded: entry `k` for `1 <= k < n`
      is the step from pixel `k - 1` to pixel `k`; the others stay. */
  function ProfileDistances(prev: seq<real>, ps: seq<Pair>, n: nat, dist: (Pair, Pair) -> real): (r: seq<real>)
    requires n <= |prev| && n <= |ps|
    ensures |r| == |prev|
    ensures forall k :: 0 <= k < |prev| ==> r[k] == if 1 <= k < n then dist(ps[k], ps[k - 1]) else prev[k]
  {
    seq(|prev|, k requires 0 <= k < |prev| => if 1 <= k < n then dist(ps[k], ps[k - 1]) else prev[k])
  }

  /** The rows and distances of a trace of `n` pixels read afresh: the
      first `n` rows are their pixels' series and the rest NaN, and the
      distances between consecutive pixels are recomputed. */
  function Reload(p: Plot, ps: seq<Pair>, n: nat, dist: (Pair, Pair) -> real): (r: Result<Plot>)
    requires Good(p) && p.pointers.Some? && |ps| >= p.nMax && n <= p.nMax
    ensures r.Ok? <==> LoadRows(p.ds, ps, n, p.dates).Ok?
    ensures r.Ok? ==> Good(r.value)
    ensures r.Ok? ==> SameSetting(p, r.value)
    ensures r.Ok? ==>
              var q := r.value;
              && q.pts == n && q.pointers == Some(ps)
              && q.temporal.Rows? && |q.temporal.rows| == p.nMax
              && (forall k :: 0 <= k < n ==>
                    q.temporal.rows[k] == RowAssign(LoadProfile(p.ds, ps[k].0, ps[k].1).value, p.dates).value)
              && (forall k :: n <= k < p.nMax ==> q.temporal.rows[k] == NaNs(p.dates))
              && (forall k :: 1 <= k < n ==> q.distances[k] == dist(ps[k], ps[k - 1]))
  {
    match LoadRows(p.ds, ps, n, p.dates)
    case Err(f) => Err(f)
    case Ok(rows) =>
      var ds' := ProfileDistances(p.distances, ps, n, dist);
      assert forall k :: 0 <= k < n ==> |rows[k]| == p.dates;
      Ok(p.(pointers := Some(ps), pts := n, distances := ds', cumdistances := CumSum(ds'),
            temporal := Rows(PadRows(rows, p.nMax, p.dates))))
  }

  /** The rows read, then NaN rows up to `n`. */
  function PadRows(rows: seq<Series>, n: nat, dates: nat): (r: seq<Series>)
    requires |rows| <= n && forall k :: 0 <= k < |rows| ==> |rows[k]| == dates
    ensures RowsOf(r, n, dates)
    ensures forall k :: 0 <= k < |rows| ==> r[k] == rows[k]
    ensures forall k :: |rows| <= k < n ==> r[k] == NaNs(dates)
  {
    rows + seq(n - |rows|, k => NaNs(dates))
  }

  /** `update_values(profile_points)` in profile mode. One traced pixel
      starts a trace. Otherwise a profile of at most `nMax` pixels is copied
      over the front of the stored pixels and a longer one is left to the
      stored samples; then the trace is read afresh. Without stored pixels
      the copy, or the first read, raises. */
  function UpdateProfile(p: Plot, profile: seq<Pair>, dist: (Pair, Pair) -> real): (r: Result<Plot>)
    requires Good(p)
    ensures |profile| == 1 ==> r == StartTrace(p)
    ensures |profile| != 1 && p.pointers.None? && (|profile| <= p.nMax || p.nMax > 0) ==> r == Err(TypeError)
    ensures r.Ok? ==> Good(r.value)
    ensures r.Ok? ==> SameSetting(p, r.value)
    ensures r.Ok? && (|profile| == 1 || p.pointers.Some?) ==> r.value.pointers.Some?
    ensures |profile| != 1 && p.pointers.Some? && |profile| <= p.nMax ==>
              r == Reload(p, profile + p.pointers.value[|profile|..], |profile|, dist)
    ensures |profile| != 1 && p.pointers.Some? && |profile| > p.nMax ==>
              r == Reload(p, p.pointers.value, p.nMax, dist)
  {
    if |profile| == 1 then StartTrace(p)
    else if p.pointers.None? then
      if |profile| <= p.nMax || p.nMax > 0 then Err(TypeError)
      else
        // `nMax` is 0: no pixel is read and no row is made
        Ok(p.(pts := 0, temporal := Rows([]), cumdistances := CumSum(p.distances)))
    else if |profile| <= p.nMax then
      Reload(p, profile + p.pointers.value[|profile|..], |profile|, dist)
    else
      Reload(p, p.pointers.value, p.nMax, dist)
  }

  /** A profile that fits is plotted pixel for pixel: the trace starts with
      the profile, and row `k` is the series of the profile's pixel `k`. */
  lemma ShortProfilePlotted(p: Plot, profile: seq<Pair>, dist: (Pair, Pair) -> real)
    requires Good(p) && p.pointers.Some? && 2 <= |profile| <= p.nMax
    requires UpdateProfile(p, profile, dist).Ok?
    ensures var q := UpdateProfile(p, profile, dist).value;
            && q.pts == |profile| && q.pointers.value[..|profile|] == profile
            && forall k :: 0 <= k < |profile| ==>
                 q.temporal.rows[k] == RowAssign(LoadProfile(p.ds, profile[k].0, profile[k].1).value, p.dates).value
  {
    var ps := profile + p.pointers.value[|profile|..];
    assert ps[..|profile|] == profile;
    assert forall k :: 0 <= k < |profile| ==> ps[k] == profile[k];
  }

  // ---------------------------------------------------------------------------
  // update_values in live mode, and the dispatch

  /** `update_values()` in live mode: with no tool selected the plots follow
      the pointer alone; with a tool selected nothing changes. */
  function UpdateLive(p: Plot): (r: Plot)
    ensures AnyReady(p.ready) ==> r == p
    ensures !AnyReady(p.ready) ==> r.pts == 1 && r.temporal == Flat(p.disp) && r.pointers == p.pointers
  {
    if AnyReady(p.ready) then p else p.(pts := 1, temporal := Flat(p.disp))
  }

  /** `update_values(profile_points)`: by the plot's interaction state. In
      profile mode `len(None)` raises. */
  function UpdateValues(p: Plot, profile: Option<seq<Pair>>, dist: (Pair, Pair) -> real): (r: Result<Plot>)
    requires Good(p)
    ensures p.state == Points ==> r == UpdatePoints(p, dist)
    ensures p.state == Profile && profile.None? ==> r == Err(TypeError)
    ensures p.state == Profile && profile.Some? ==> r == UpdateProfile(p, profile.value, dist)
    ensures p.state == Live ==> r == Ok(UpdateLive(p))
    ensures p.state !in {Points, Profile, Live} ==> r == Ok(p)
    ensures r.Ok? ==> Good(r.value) && SameSetting(p, r.value)
    ensures r.Ok? && (p.pointers.Some? || p.state == Points) ==> r.value.pointers.Some?
  {
    match p.state
    case Points => UpdatePoints(p, dist)
    case Profile => if profile.None? then Err(TypeError) else UpdateProfile(p, profile.value, dist)
    case Live => Ok(UpdateLive(p))
    case _ => Ok(p)
  }

  /** `data_for_spatial_graph`: the rows of the temporal graph transposed,
      one series of `nMax` values per date. */
  function Spatial(rows: seq<Series>, dates: nat): (r: seq<seq<Option<real>>>)
    requires forall k :: 0 <= k < |rows| ==> |rows[k]| == dates
    ensures |r| == dates && forall d :: 0 <= d < dates ==> |r[d]| == |rows|
    ensures forall d, k :: 0 <= d < dates && 0 <= k < |rows| ==> r[d][k] == rows[k][d]
  {
    seq(dates, d requires 0 <= d < dates => seq(|rows|, k requires 0 <= k < |rows| => rows[k][d]))
  }

  /** Transposing twice gives the rows back. */
  lemma SpatialTwice(rows: seq<Series>, dates: nat)
    requires forall k :: 0 <= k < |rows| ==> |rows[k]| == dates
    ensures Spatial(Spatial(rows, dates), |rows|) == rows
  {
    var s := Spatial(Spatial(rows, dates), |rows|);
    assert forall k :: 0 <= k < |rows| ==> s[k] == rows[k];
  }

  // ---------------------------------------------------------------------------
  // References

  /** A column's mean, `None` when any value is NaN or there is no value. */
  function Mean(rows: seq<Series>, d: nat): (r: Option<real>)
    requires forall k :: 0 <= k < |rows| ==> d < |rows[k]|
    ensures r.None? <==> |rows| == 0 || exists k :: 0 <= k < |rows| && rows[k][d].None?
    ensures r.Some? ==> r.value * (|rows| as real) == ColumnSum(rows, d, |rows|)
  {
    if |rows| == 0 || exists k :: 0 <= k < |rows| && rows[k][d].None? then None
    else Some(ColumnSum(rows, d, |rows|) / (|rows| as real))
  }

  function ColumnSum(rows: seq<Series>, d: nat, n: nat): real
    requires n <= |rows| && forall k :: 0 <= k < |rows| ==> d < |rows[k]|
  {
    if n == 0 then 0.0
    else ColumnSum(rows, d, n - 1) + (if rows[n - 1][d].Some? then rows[n - 1][d].value else 0.0)
  }

  /** `update_ref_values(ref_pointers)`: one pixel's series as it is read,
      or the date-by-date mean over the pixels of a rectangle. */
  function RefValues(ds: Option<Dataset>, refs: seq<Pair>, dates: nat): (r: Result<Series>)
    requires ds.Some? ==> WellFormed(ds.value)
    ensures |refs| == 1 ==> r == LoadProfile(ds, refs[0].0, refs[0].1)
    ensures |refs| != 1 ==> (r.Ok? <==> LoadRows(ds, refs, |refs|, dates).Ok?)
    ensures |refs| != 1 && r.Ok? ==>
              var rows := LoadRows(ds, refs, |refs|, dates).value;
              |r.value| == dates && forall d :: 0 <= d < dates ==> r.value[d] == Mean(rows, d)
  {
    if |refs| == 1 then LoadProfile(ds, refs[0].0, refs[0].1)
    else
      match LoadRows(ds, refs, |refs|, dates)
      case Err(f) => Err(f)
      case Ok(rows) => Ok(seq(dates, d requires 0 <= d < dates => Mean(rows, d)))
  }

  /** The mean of `n` copies of a value is that value. */
  lemma {:induction false} ColumnSumOfCopies(rows: seq<Series>, d: nat, n: nat, v: real)
    requires n <= |rows| && forall k :: 0 <= k < |rows| ==> d < |rows[k]| && rows[k][d] == Some(v)
    ensures ColumnSum(rows, d, n) == (n as real) * v
  {
    if n > 0 {
      ColumnSumOfCopies(rows, d, n - 1, v);
    }
  }

  /** Over an area where every pixel has the same series, the reference is
      that series. */
  lemma UniformAreaReference(ds: Option<Dataset>, refs: seq<Pair>, dates: nat, s: seq<real>)
    requires ds.Some? ==> WellFormed(ds.value)
    requires |refs| >= 2 && |s| == dates && LoadRows(ds, refs, |refs|, dates).Ok?
    requires forall k :: 0 <= k < |refs| ==> LoadRows(ds, refs, |refs|, dates).value[k] == seq(dates, d requires 0 <= d < dates => Some(s[d]))
    ensures RefValues(ds, refs, dates).Ok?
    ensures forall d :: 0 <= d < dates ==> RefValues(ds, refs, dates).value[d] == Some(s[d])
  {
    var rows := LoadRows(ds, refs, |refs|, dates).value;
    forall d | 0 <= d < dates ensures Mean(rows, d) == Some(s[d]) {
      assert forall k :: 0 <= k < |rows| ==> rows[k][d] == Some(s[d]);
      ColumnSumOfCopies(rows, d, |rows|, s[d]);
      var m := Mean(rows, d).value;
      assert m * (|rows| as real) == (|rows| as real) * s[d];
    }
  }

  function UpdateRefValues(p: Plot, refs: seq<Pair>): (r: Result<Plot>)
    requires Good(p)
    ensures r.Ok? <==> RefValues(p.ds, refs, p.dates).Ok?
    ensures r.Ok? ==> Good(r.value) && r.value == p.(refData := Some(RefValues(p.ds, refs, p.dates).value))
  {
    match RefValues(p.ds, refs, p.dates)
    case Err(f) => Err(f)
    case Ok(s) => Ok(p.(refData := Some(s)))
  }

  // ---------------------------------------------------------------------------
  // clear_data and the interaction state

  /** `clear_data()`: the trace, the plotted rows and the running distances
      go; `pts_on_trace` and the distances themselves are left as they were. */
  function ClearData(p: Plot): (r: Plot)
    requires Good(p)
    ensures Good(r) && r.pointers.None? && r.temporal == Cleared && r.cumdistances == []
    ensures r.pts == p.pts && r.distances == p.distances && r.disp == p.disp
  {
    p.(pointers := None, temporal := Cleared, cumdistances := [])
  }

  /** The next point after clearing starts a new trace with a count of 1,
      whatever the count was. */
  lemma ClearThenPointRestarts(p: Plot, dist: (Pair, Pair) -> real)
    requires Good(p) && p.nMax >= 1 && |p.disp| == p.dates
    ensures UpdatePoints(ClearData(p), dist).Ok? && UpdatePoints(ClearData(p), dist).value.pts == 1
  {
  }

  /** The codes `set_plot_interaction` accepts. */
  const PlotCodes: set<int> := {0, 3, 4, 5}

  /** `set_plot_interaction(val)`: stored, then asserted to be idle, points,
      live or profile. */
  function SetPlotInteraction(p: Plot, code: int): (r: Result<Plot>)
    ensures r.Ok? <==> code in PlotCodes
    ensures r.Err? ==> r.fault == AssertionError
    ensures r.Ok? ==> r.value == p.(state := r.value.state) && CodeOf(r.value.state) == Some(code)
    ensures r.Ok? ==> r.value.state in {Idle, Points, Live, Profile}
  {
    match SetChecked(code, PlotCodes)
    case Err(f) => Err(f)
    case Ok(s) => Ok(p.(state := s))
  }

  // ---------------------------------------------------------------------------
  // PlotModel_gps

  /** A station's series as `gps_data[station]` holds them. */
  datatype Station = Station(date: seq<string>, east: seq<real>, north: seq<real>, up: seq<real>)

  /** `Loader_gps.load_profile(station)`: returns the series in the order
      date, north, east, up. */
  function GpsLoadProfile(data: map<string, Station>, name: string): (r: Result<(seq<string>, seq<real>, seq<real>, seq<real>)>)
    ensures r.Ok? <==> name in data
    ensures r.Err? ==> r.fault == KeyError
    ensures r.Ok? ==> r.value == (data[name].date, data[name].north, data[name].east, data[name].up)
  {
    if name in data then
      var s := data[name];
      Ok((s.date, s.north, s.east, s.up))
    else Err(KeyError)
  }

  /** The series `update_values` plots for a menu choice; any other choice
      keeps the previous one. */
  function Choose(orientation: string, east: seq<real>, north: seq<real>, up: seq<real>,
                  previous: Option<seq<real>>): Option<seq<real>> {
    if orientation == "east" then Some(east)
    else if orientation == "north" then Some(north)
    else if orientation == "up" then Some(up)
    else previous
  }

  /** The GPS series as the code plots it: `update_pointer_values` unpacks
      the loader's tuple as date, east, north, up, so east and north trade
      places. */
  function GpsSeriesAsWritten(data: map<string, Station>, name: string, orientation: string,
                              previous: Option<seq<real>>): (r: Result<Option<seq<real>>>)
    ensures r.Ok? <==> name in data
    ensures r.Ok? && orientation == "east" ==> r.value == Some(data[name].north)
    ensures r.Ok? && orientation == "north" ==> r.value == Some(data[name].east)
    ensures r.Ok? && orientation == "up" ==> r.value == Some(data[name].up)
    ensures r.Ok? && orientation !in {"east", "north", "up"} ==> r.value == previous
  {
    match GpsLoadProfile(data, name)
    case Err(f) => Err(f)
    case Ok((date, east, north, up)) => Ok(Choose(orientation, east, north, up, previous))
  }

  /** The GPS series as intended: the chosen component of the station. */
  function GpsSeries(data: map<string, Station>, name: string, orientation: string,
                     previous: Option<seq<real>>): (r: Result<Option<seq<real>>>)
    ensures r.Ok? <==> name in data
    ensures r.Ok? && orientation == "east" ==> r.value == Some(data[name].east)
    ensures r.Ok? && orientation == "north" ==> r.value == Some(data[name].north)
    ensures r.Ok? && orientation == "up" ==> r.value == Some(data[name].up)
    ensures r.Ok? && orientation !in {"east", "north", "up"} ==> r.value == previous
  {
    match GpsLoadProfile(data, name)
    case Err(f) => Err(f)
    case Ok((date, north, east, up)) => Ok(Choose(orientation, east, north, up, previous))
  }

  /** Wherever a station's east and north series differ, the code shows the
      north series under "east" and the corrected model the east one. */
  lemma GpsEastShowsNorth(data: map<string, Station>, name: string, previous: Option<seq<real>>)
    requires name in data && data[name].east != data[name].north
    ensures GpsSeriesAsWritten(data, name, "east", previous) == Ok(Some(data[name].north))
    ensures GpsSeries(data, name, "east", previous) == Ok(Some(data[name].east))
    ensures GpsSeriesAsWritten(data, name, "east", previous) != GpsSeries(data, name, "east", previous)
  {
  }

  /** `PlotModel_gps.update_values()`: the pointer's series alone, with the
      station's chosen component beside it. */
  function GpsUpdateValues(p: Plot, data: map<string, Station>, name: string, orientation: string,
                           previous: Option<seq<real>>): (r: Result<(Plot, Option<seq<real>>)>)
    ensures r.Ok? <==> name in data
    ensures r.Ok? ==> r.value.0 == p.(pts := 1, temporal := Flat(p.disp))
    ensures r.Ok? ==> r.value.1 == GpsSeries(data, name, orientation, previous).value
  {
    match GpsSeries(data, name, orientation, previous)
    case Err(f) => Err(f)
    case Ok(s) => Ok((p.(pts := 1, temporal := Flat(p.disp)), s))
  }
}
