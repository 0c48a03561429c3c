/** `MapView`: the main map's mouse events. A press picks the tool by the
    toggles' priority (points, then profile, then reference, else panning),
    a move feeds the chosen tool or moves the camera, and a release returns
    both the map and the plots to rest. The view also places the GPS
    stations on screen.

    Each event is a function from the map model, the plot model and the
    view's pointer positions to their new values. An exception makes the
    event's result `Err`. `dist` stands for the Euclidean distance of two pixels,
    `subsample` for `subsample_profile` and `exp` for the exponential `zoom`
    takes of its argument. */
module MapView {
  import opened Outcomes
  import opened Coords
  import opened Interaction
  import opened Camera
  import opened Utils
  import Selection
  import MapModel
  import PlotModel
  import Loader

  /** The two models the view drives, with `p` (the press point) and `p0`
      (the last pointer position), both with y turned up. `shared` records
      that the plots' `all_pointer_ij` is the very array the map holds as
      `all_pointers_ij`, as a profile click leaves it: numpy arrays are
      bound by reference, so while it holds, every write the plots make in
      place is a write to the map's samples as well. */
  datatype Screen = Screen(model: MapModel.Model, plot: PlotModel.Plot, p: (real, real), p0: (real, real),
                           shared: bool)

  /** What every event keeps: both models are sound, they agree on the
      capacity, a profile on the map implies a trace in the plots, and the
      map's samples fill the plots' rows exactly. The samples may outlive
      the plots' trace: clearing the profiles empties the map's profile and
      drops the plots' trace but leaves `all_pointers_ij`. While the array
      is shared, the map's samples are the plots' trace. */
  predicate Synced(s: Screen) {
    && MapModel.Good(s.model) && PlotModel.Good(s.plot)
    && s.model.nMax == s.plot.nMax
    && (s.model.profilePoints != [] ==> s.plot.pointers.Some?)
    && (s.model.samples.Some? ==> |s.model.samples.value| == s.model.nMax)
    && (s.shared ==> s.model.samples.Some? && s.plot.pointers == s.model.samples)
  }

  /** `subsample_profile` returns `nMax` points. */
  ghost predicate Fills(subsample: seq<Pair> -> seq<Pair>, nMax: nat) {
    forall pts :: |subsample(pts)| == nMax
  }

  /** The two models as the application starts them, over a dataset whose
      plots have `dates` values. */
  lemma StartSynced(nMax: nat, mapW: nat, mapH: nat, ds: Option<Loader.Dataset>, dates: nat)
    requires ds.Some? ==> Loader.WellFormed(ds.value)
    ensures Synced(Screen(MapModel.Init(nMax, mapW, mapH), PlotModel.Init(ds, dates, nMax), (0.0, 0.0), (0.0, 0.0), false))
  {
    MapModel.InitGood(nMax, mapW, mapH);
    PlotModel.InitGood(ds, dates, nMax);
  }

  /** "Clear profiles" in the main window: the plots drop their trace, the
      map gets an empty selection layer, profile and reference, keeps its
      samples, and shows its band again. The band is cached, so nothing is
      read; while it is the only band cached, showing it recentres the
      camera at zoom 1. `inner` is the percentile pair `show_band` takes.
      Last, checking "Interactive" unchecks the tool that was on: the tools
      form an exclusive group whose `toggled(False)` clears that tool's
      flag on both models, so no tool is left on. The plots' trace is a
      fresh `None`, so nothing is shared with the map any more. */
  function ClearProfiles(s: Screen, inner: seq<real> -> (real, real)): (r: Screen)
    requires Synced(s) && s.model.selId != 0 && s.model.current in s.model.textures
    ensures Synced(r)
    ensures r.plot.pointers.None? && r.model.profilePoints == [] && r.model.refPointers.None?
    ensures !AnyReady(r.model.ready) && !AnyReady(r.plot.ready) && !r.shared
    ensures r.model.state == s.model.state && r.plot.state == s.plot.state
    ensures r.model.samples == s.model.samples
    ensures r.model.selection == Some(Selection.Zeros(s.model.tex.h, s.model.tex.w))
    ensures r.model.textures == s.model.textures && r.model.current == s.model.current
    ensures |s.model.textures| == 1 ==>
              r.model.view == s.model.view.(cx := Half(s.model.tex.w), cy := Half(s.model.tex.h), z := 1.0)
    ensures |s.model.textures| != 1 ==> r.model.view == s.model.view
  {
    var m1 := s.model.(selection := Some(Selection.Zeros(s.model.tex.h, s.model.tex.w)),
                       profilePoints := [], refPointers := None);
    var m2 := MapModel.ShowBand(m1, m1.current, Ok(None), inner).value;
    var off := Ready(false, false, false);
    s.(plot := PlotModel.ClearData(s.plot).(ready := off), model := m2.(ready := off), shared := false)
  }

  /** The plots may change freely while they stay sound, keep the capacity,
      keep a trace they had and leave a shared trace alone. */
  lemma SyncedWithPlot(s: Screen, plot: PlotModel.Plot)
    requires Synced(s) && PlotModel.Good(plot) && plot.nMax == s.plot.nMax
    requires s.plot.pointers.Some? ==> plot.pointers.Some?
    requires s.shared ==> plot.pointers == s.plot.pointers
    ensures Synced(s.(plot := plot))
  {
  }

  /** Whether `update_values` keeps the array the plots hold, writing into
      it or leaving it alone, rather than binding a new one. A new array is
      bound for the first pixel of a trace and for a one-pixel profile
      (`np.zeros`) and for a points trace already at capacity
      (`np.concatenate`); a profile of more pixels is copied into the
      array's first rows. */
  predicate KeepsArray(p: PlotModel.Plot, profile: Option<seq<Pair>>) {
    match p.state
    case Points => p.pointers.Some? && (PlotModel.Stored(p.pointers.value, p.pointer) || p.pts < p.nMax)
    case Profile => profile.Some? && |profile.value| != 1
    case _ => true
  }

  /** The screen once the plots' update has left them as `plot`: if the
      update kept a shared array, the map's samples are that array as the
      plots left it; if it bound a new one, the sharing ends and the map's
      samples stay as they were. */
  function Written(s: Screen, plot: PlotModel.Plot, kept: bool): (r: Screen)
    requires Synced(s) && PlotModel.Good(plot) && plot.nMax == s.plot.nMax
    requires s.plot.pointers.Some? ==> plot.pointers.Some?
    requires s.shared && kept ==> plot.pointers.Some? && |plot.pointers.value| == s.plot.nMax
    ensures Synced(r)
    ensures r.plot == plot && r.p == s.p && r.p0 == s.p0 && r.shared == (s.shared && kept)
    ensures r.shared ==> r.model.samples == plot.pointers
    ensures r.model == s.model.(samples := r.model.samples)
    ensures !r.shared ==> r.model.samples == s.model.samples
  {
    var shared := s.shared && kept;
    s.(plot := plot, shared := shared,
       model := if shared then s.model.(samples := plot.pointers) else s.model)
  }

  /** The Qt point `(ex, ey)` with y turned up. */
  function Upward(s: Screen, ex: int, ey: int): (real, real) {
    (ex as real, (s.model.view.mapH - ey) as real)
  }

  /** The texel is on the band shown. */
  predicate OnTexture(s: Screen, ij: Pair) {
    0 <= ij.0 < s.model.tex.w && 0 <= ij.1 < s.model.tex.h
  }

  // ---------------------------------------------------------------------------
  // Reference clicks

  /** The reference pixels after a click on `ij`: the first click takes the
      pixel alone; a click on any pixel already in the set changes nothing;
      any other click takes the rectangle from the last pixel of the set to
      the click. An empty set has no last pixel. */
  function NextRefs(refs: Option<seq<Pair>>, ij: Pair): (r: Result<seq<Pair>>)
    ensures refs.None? ==> r == Ok([ij])
    ensures refs.Some? && ij in refs.value ==> r == Ok(refs.value)
    ensures refs.Some? && ij !in refs.value ==>
              if refs.value == [] then r == Err(IndexError)
              else r == Ok(Rectangle(refs.value[|refs.value| - 1], ij))
    ensures r.Ok? ==> ij in r.value
  {
    match refs
    case None => Ok([ij])
    case Some(rs) =>
      if ij in rs then Ok(rs)
      else if rs == [] then Err(IndexError)
      else Ok(Rectangle(rs[|rs| - 1], ij))
  }

  /** Clicking the same pixel again leaves the reference as it is. */
  lemma RefClickTwice(refs: Option<seq<Pair>>, ij: Pair)
    requires NextRefs(refs, ij).Ok?
    ensures NextRefs(Some(NextRefs(refs, ij).value), ij) == NextRefs(refs, ij)
  {
  }

  /** A second click off the first pixel makes the rectangle with the two
      clicks as opposite corners. */
  lemma RefSecondClick(a: Pair, b: Pair)
    requires a != b
    ensures NextRefs(Some(NextRefs(None, a).value), b) == Ok(Rectangle(a, b))
    ensures a in Rectangle(a, b) && b in Rectangle(a, b)
  {
  }

  // ---------------------------------------------------------------------------
  // mousePressEvent

  /** A left press in points mode: both models enter points mode, the plots
      take the pixel, and the map marks it. A pixel written into a shared
      trace's free slot lands in the map's samples too. */
  function PointsPress(s: Screen, ij: Pair, dist: (Pair, Pair) -> real): (r: Result<Screen>)
    requires Synced(s) && s.plot.pointer == ij
    ensures r.Ok? ==> Synced(r.value)
    ensures r.Ok? ==> r.value.model.state == Points && r.value.plot.state == Points
    ensures r.Ok? ==> r.value.p == s.p && r.value.p0 == s.p0 && r.value.plot.pointer == s.plot.pointer
    ensures r.Ok? ==> r.value.plot.pointers.Some? && PlotModel.Stored(r.value.plot.pointers.value, ij)
    ensures r.Ok? ==> r.value.model.selection.Some? &&
                      var g := r.value.model.selection.value;
                      Selection.Target(g.h, g.w, ij).Some? &&
                      var (row, col) := Selection.Target(g.h, g.w, ij).value;
                      g.cells[row][col] == Selection.Point
    ensures r.Ok? ==> r.value.model.(samples := s.model.samples, selection := s.model.selection) == s.model.(state := Points)
    ensures r.Ok? ==> r.value.shared == (s.shared && KeepsArray(s.plot.(state := Points), None))
    ensures r.Ok? && !r.value.shared ==> r.value.model.samples == s.model.samples
    ensures r.Ok? && s.shared && !PlotModel.Stored(s.plot.pointers.value, ij) && s.plot.pts < s.plot.nMax ==>
              r.value.shared && r.value.model.samples == Some(s.model.samples.value[s.plot.pts := ij])
  {
    var plot2 := s.plot.(state := Points);
    match PlotModel.UpdateValues(plot2, None, dist)
    case Err(f) => Err(f)
    case Ok(plot3) =>
      match MapModel.ModelShowPoints(s.model.(state := Points), Selection.Tuple(ij), None)
      case Err(f) => Err(f)
      case Ok(model2) =>
        assert PlotModel.Stored(plot3.pointers.value, ij) by {
          var ps := plot2.pointers;
          if ps.None? {
            assert plot3.pointers.value[0] == ij;
          } else if !PlotModel.Stored(ps.value, ij) {
            assert plot3.pointers.value == PlotModel.UpdatePoints(plot2, dist).value.pointers.value;
          }
        }
        Ok(Written(s.(model := model2), plot3, KeepsArray(plot2, None)))
  }

  /** A left press in profile mode: both models enter profile mode, the map
      extends the profile to the click, the plots adopt the map's samples
      when there are any, and then re-read the profile. Adopting shares the
      map's array: unless a one-pixel profile then binds a new one, the
      profile the plots copy into that array is copied into the map's
      samples as well, and the two stay shared. */
  function ProfilePress(s: Screen, ij: Pair, dist: (Pair, Pair) -> real, subsample: seq<Pair> -> seq<Pair>): (r: Result<Screen>)
    requires Synced(s) && Fills(subsample, s.model.nMax)
    ensures r.Ok? ==> Synced(r.value)
    ensures r.Ok? ==> r.value.model.state == Profile && r.value.plot.state == Profile
    ensures r.Ok? ==> r.value.p == s.p && r.value.p0 == s.p0 && r.value.plot.pointer == s.plot.pointer
    ensures r.Ok? ==> var m2 := MapModel.ModelShowProfile(s.model.(state := Profile), ij, subsample);
                      && m2.Ok? && r.value.model == m2.value.(samples := r.value.model.samples)
                      && r.value.shared == (m2.value.samples.Some? && |m2.value.profilePoints| != 1)
                      && (!r.value.shared ==> r.value.model.samples == m2.value.samples)
    ensures r.Ok? && r.value.shared ==> r.value.model.samples == r.value.plot.pointers
  {
    var m := s.model.(state := Profile);
    match MapModel.ModelShowProfile(m, ij, subsample)
    case Err(f) => Err(f)
    case Ok(model2) =>
      ProfileSamplesFit(s, ij, subsample);
      match ReadProfile(model2, s.plot.(state := Profile), dist)
      case Err(f) => Err(f)
      case Ok(plot4) =>
        var shared := model2.samples.Some? && |model2.profilePoints| != 1;
        Ok(s.(model := if shared then model2.(samples := plot4.pointers) else model2, plot := plot4, shared := shared))
  }

  /** A profile click of at most `nMaxPoints` pixels on a map that holds
      samples, as a click after clearing the profiles does, copies the
      profile into the first rows of the shared array: the map's samples
      then begin with the profile and keep the rest of what they held. */
  lemma ProfileOverwritesSamples(s: Screen, ij: Pair, dist: (Pair, Pair) -> real, subsample: seq<Pair> -> seq<Pair>)
    requires Synced(s) && Fills(subsample, s.model.nMax)
    ensures var m2 := MapModel.ModelShowProfile(s.model.(state := Profile), ij, subsample);
            var r := ProfilePress(s, ij, dist, subsample);
            r.Ok? && m2.value.samples.Some? && 1 < |m2.value.profilePoints| <= s.model.nMax ==>
              var pp := m2.value.profilePoints;
              r.value.model.samples == Some(pp + m2.value.samples.value[|pp|..])
  {
    var m2 := MapModel.ModelShowProfile(s.model.(state := Profile), ij, subsample);
    var r := ProfilePress(s, ij, dist, subsample);
    if r.Ok? && m2.value.samples.Some? && 1 < |m2.value.profilePoints| <= s.model.nMax {
      ProfileSamplesFit(s, ij, subsample);
      var plot2 := s.plot.(state := Profile);
      var plot3 := AdoptSamples(plot2, m2.value.samples);
      var pp := m2.value.profilePoints;
      assert r.value.plot == PlotModel.UpdateProfile(plot3, pp, dist).value;
      assert plot3.pointers == m2.value.samples;
    }
  }

  /** The plots' side of a profile click: they adopt the map's samples when
      there are any and re-read the profile, which leaves them tracing. A
      profile of one pixel starts a new trace, whatever was adopted. */
  function ReadProfile(model: MapModel.Model, plot: PlotModel.Plot, dist: (Pair, Pair) -> real): (r: Result<PlotModel.Plot>)
    requires PlotModel.Good(plot) && plot.state == Profile
    requires model.samples.Some? ==> |model.samples.value| >= plot.nMax
    requires |model.profilePoints| == 1 || plot.pointers.Some?
    ensures |model.profilePoints| == 1 ==> r == PlotModel.StartTrace(plot)
    ensures |model.profilePoints| != 1 ==>
              r == PlotModel.UpdateProfile(AdoptSamples(plot, model.samples), model.profilePoints, dist)
    ensures PlotModel.Good(AdoptSamples(plot, model.samples)) ==>
              r == PlotModel.UpdateValues(AdoptSamples(plot, model.samples), Some(model.profilePoints), dist)
    ensures r.Ok? ==> PlotModel.Good(r.value) && PlotModel.SameSetting(plot, r.value) && r.value.pointers.Some?
  {
    var plot3 := AdoptSamples(plot, model.samples);
    if |model.profilePoints| == 1 then
      StaleSamplesForgotten(plot, model.samples);
      PlotModel.StartTrace(plot3)
    else
      PlotModel.UpdateValues(plot3, Some(model.profilePoints), dist)
  }

  /** Samples adopted by plots without a trace, as after clearing the
      profiles, change nothing once the first pixel restarts the trace. */
  lemma StaleSamplesForgotten(p: PlotModel.Plot, samples: Option<seq<Pair>>)
    requires PlotModel.Good(p) && (samples.Some? ==> |samples.value| >= p.nMax)
    ensures PlotModel.StartTrace(AdoptSamples(p, samples)) == PlotModel.StartTrace(p)
  {
  }

  /** A profile click extends the map's profile by the clicked pixel and
      keeps the clicks before it. */
  lemma ProfilePressExtends(s: Screen, ij: Pair, dist: (Pair, Pair) -> real, subsample: seq<Pair> -> seq<Pair>)
    requires Synced(s) && Fills(subsample, s.model.nMax)
    ensures var r := ProfilePress(s, ij, dist, subsample);
            r.Ok? ==> var pts := r.value.model.profilePoints;
                      |pts| > 0 && pts[|pts| - 1] == ij
                      && |pts| >= |s.model.profilePoints| && pts[..|s.model.profilePoints|] == s.model.profilePoints
  {
    var r := ProfilePress(s, ij, dist, subsample);
    if r.Ok? {
      var model2 := MapModel.ModelShowProfile(s.model.(state := Profile), ij, subsample).value;
      assert r.value.model.profilePoints == model2.profilePoints;
      assert model2.profilePoints[..|s.model.profilePoints|] == s.model.profilePoints;
    }
  }

  /** The samples a profile click leaves on the map are at least `nMax`
      pixels; fresh samples come only from a later click, when the plots
      already trace. */
  lemma ProfileSamplesFit(s: Screen, ij: Pair, subsample: seq<Pair> -> seq<Pair>)
    requires Synced(s) && Fills(subsample, s.model.nMax)
    ensures var r := MapModel.ModelShowProfile(s.model.(state := Profile), ij, subsample);
            r.Ok? ==> && (r.value.samples.Some? ==> |r.value.samples.value| >= s.plot.nMax)
                      && (r.value.samples != s.model.samples ==> s.plot.pointers.Some?)
                      && (|r.value.profilePoints| == 1 || s.plot.pointers.Some?)
  {
    var r := MapModel.ModelShowProfile(s.model.(state := Profile), ij, subsample);
    if r.Ok? {
      var model2 := r.value;
      if model2.samples.Some? && model2.samples != s.model.samples {
        assert model2.samples == Some(subsample(model2.profilePoints));
      }
    }
  }

  /** `plot.all_pointer_ij = model.all_pointers_ij`: the plots trace the
      map's samples when there are any. */
  function AdoptSamples(p: PlotModel.Plot, samples: Option<seq<Pair>>): (r: PlotModel.Plot)
    requires PlotModel.Good(p) && (samples.Some? ==> |samples.value| >= p.nMax)
    ensures p.pointers.Some? || samples.None? ==> PlotModel.Good(r)
    ensures PlotModel.SameSetting(p, r) && r.pointers.Some? == (p.pointers.Some? || samples.Some?)
    ensures r.pointers == if samples.Some? then samples else p.pointers
    ensures r == p.(pointers := r.pointers)
  {
    if samples.Some? then p.(pointers := samples) else p
  }

  /** A left press in reference mode: both models enter reference mode, the
      reference pixels follow `NextRefs`, the map marks them and the plots
      read the reference series. */
  function RefPress(s: Screen, ij: Pair): (r: Result<Screen>)
    requires Synced(s)
    ensures NextRefs(s.model.refPointers, ij).Err? ==> r.Err?
    ensures r.Ok? ==> Synced(r.value)
    ensures r.Ok? ==> r.value.model.state == Ref && r.value.plot.state == Ref
    ensures r.Ok? ==> r.value.p == s.p && r.value.p0 == s.p0 && r.value.plot.pointer == s.plot.pointer
    ensures r.Ok? ==> r.value.model.refPointers == Some(NextRefs(s.model.refPointers, ij).value)
    ensures r.Ok? ==> var refs := NextRefs(s.model.refPointers, ij).value;
                      PlotModel.RefValues(s.plot.ds, refs, s.plot.dates).Ok? &&
                      r.value.plot.refData == Some(PlotModel.RefValues(s.plot.ds, refs, s.plot.dates).value)
  {
    match NextRefs(s.model.refPointers, ij)
    case Err(f) => Err(f)
    case Ok(refs) =>
      match MapModel.ModelShowRef(s.model.(state := Ref, refPointers := Some(refs)))
      case Err(f) => Err(f)
      case Ok(model2) =>
        match PlotModel.UpdateRefValues(s.plot.(state := Ref), refs)
        case Err(f) => Err(f)
        case Ok(plot2) => Ok(s.(model := model2, plot := plot2))
  }

  /** The tool a left press picks: points, then profile, then reference,
      else panning. */
  function Tool(ready: Ready): (m: Mode)
    ensures m in {Points, Profile, Ref, Drag}
    ensures m == Points <==> ready.points
    ensures m == Profile <==> !ready.points && ready.profile
    ensures m == Ref <==> !ready.points && !ready.profile && ready.ref
    ensures m == Drag <==> !AnyReady(ready)
  {
    if ready.points then Points
    else if ready.profile then Profile
    else if ready.ref then Ref
    else Drag
  }

  /** A left press on the texture: the plots read the pixel's values, then
      the tool picked by `Tool` acts. */
  function LeftPress(s: Screen, ij: Pair, dist: (Pair, Pair) -> real, subsample: seq<Pair> -> seq<Pair>): (r: Result<Screen>)
    requires Synced(s) && Fills(subsample, s.model.nMax)
    ensures r.Ok? ==> Synced(r.value)
    ensures r.Ok? ==> r.value.model.state == Tool(s.model.ready)
    ensures r.Ok? ==> r.value.plot.pointer == ij
    ensures r.Ok? ==> r.value.p == s.p && r.value.p0 == s.p0
    ensures r.Ok? && Tool(s.model.ready) != Drag ==> r.value.plot.state == Tool(s.model.ready)
    ensures r.Ok? && Tool(s.model.ready) == Drag ==>
              r.value.plot.state == s.plot.state && r.value.model == s.model.(state := Drag)
  {
    match PlotModel.UpdatePointerValues(s.plot, ij)
    case Err(f) => Err(f)
    case Ok(plot1) =>
      SyncedWithPlot(s, plot1);
      var s1 := s.(plot := plot1);
      match Tool(s.model.ready)
      case Points => PointsPress(s1, ij, dist)
      case Profile => ProfilePress(s1, ij, dist, subsample)
      case Ref => RefPress(s1, ij)
      case _ => Ok(s1.(model := s1.model.(state := Drag)))
  }

  /** `mousePressEvent`. Nothing happens before a band is shown or while
      the map is not idle. Otherwise `p` and `p0` take the press point; a
      press off the texture stops there; on it, the left button acts with a
      tool and the right button starts a zoom whatever the tool. */
  function Press(s: Screen, ex: int, ey: int, b: Button, dist: (Pair, Pair) -> real,
                 subsample: seq<Pair> -> seq<Pair>): (r: Result<Screen>)
    requires Synced(s) && Fills(subsample, s.model.nMax)
    ensures s.model.current <= -1 || s.model.state != Idle ==> r == Ok(s)
    ensures r.Ok? ==> Synced(r.value)
    ensures s.model.current > -1 && s.model.state == Idle ==>
              var pt := Upward(s, ex, ey);
              var ij := TextureCoordinate(s.model.view, ex, ey);
              && (r.Ok? ==> r.value.p == pt && r.value.p0 == pt)
              && (!OnTexture(s, ij) || b == MiddleButton ==> r == Ok(s.(p := pt, p0 := pt)))
              && (OnTexture(s, ij) && b == RightButton ==> r == Ok(s.(p := pt, p0 := pt, model := s.model.(state := Zoom))))
              && (OnTexture(s, ij) && b == LeftButton && r.Ok? ==>
                    r.value.model.state == Tool(s.model.ready) && r.value.plot.pointer == ij)
  {
    if s.model.current <= -1 || s.model.state != Idle then Ok(s)
    else
      var pt := Upward(s, ex, ey);
      var s1 := s.(p := pt, p0 := pt);
      var ij := TextureCoordinate(s.model.view, ex, ey);
      if !OnTexture(s, ij) then Ok(s1)
      else
        match b
        case LeftButton => LeftPress(s1, ij, dist, subsample)
        case RightButton => Ok(s1.(model := s1.model.(state := Zoom)))
        case MiddleButton => Ok(s1)
  }

  // ---------------------------------------------------------------------------
  // mouseMoveEvent

  /** A move in points mode: the plots take the hovered pixel, the map marks
      the newest pixel of the trace and unmarks the oldest, and the trace
      drops its first pixel once it holds more than `nMax`. While the trace
      is the map's samples, a pixel written into a free slot is written
      there too; a trace at capacity is a new array, no longer shared. */
  function PointsMove(s: Screen, dist: (Pair, Pair) -> real): (r: Result<Screen>)
    requires Synced(s)
    ensures r.Ok? ==> Synced(r.value)
    ensures r.Ok? ==> r.value.model == s.model.(selection := r.value.model.selection, samples := r.value.model.samples)
    ensures r.Ok? ==> r.value.shared == (s.shared && KeepsArray(s.plot, None))
    ensures r.Ok? && !r.value.shared ==> r.value.model.samples == s.model.samples
    ensures r.Ok? && s.shared && s.plot.state == Points && !PlotModel.Stored(s.plot.pointers.value, s.plot.pointer)
                  && s.plot.pts < s.plot.nMax ==>
              r.value.shared && r.value.model.samples == Some(s.model.samples.value[s.plot.pts := s.plot.pointer])
    ensures r.Ok? ==> r.value.plot.pointers.Some? && |r.value.plot.pointers.value| >= s.model.nMax
    ensures r.Ok? && s.plot.state == Points && s.plot.pointers.Some? && |s.plot.pointers.value| == s.model.nMax ==>
              |r.value.plot.pointers.value| == s.model.nMax
  {
    match PlotModel.UpdateValues(s.plot, None, dist)
    case Err(f) => Err(f)
    case Ok(plot2) =>
      match plot2.pointers
      case None => Err(TypeError)
      case Some(ps) =>
        match MapModel.ModelShowPoints(s.model, Selection.Array(ps), None)
        case Err(f) => Err(f)
        case Ok(model2) =>
          var plot3 := if |ps| > plot2.nMax then plot2.(pointers := Some(ps[1..])) else plot2;
          Ok(Written(s.(model := model2), plot3, KeepsArray(s.plot, None)))
  }

  /** The camera part of a move: idle shows a tooltip and changes nothing;
      otherwise a drag pans by the delta since `p0`, a zoom zooms by
      `dx - dy` about the press point `p`, and `p0` follows the pointer. */
  function MoveCamera(s: Screen, ex: int, ey: int, exp: real -> real): (r: Screen)
    requires Synced(s) && forall x :: exp(x) > 0.0
    ensures Synced(r)
    ensures s.model.state == Idle ==> r == s
    ensures s.model.state != Idle ==>
              var p1 := Upward(s, ex, ey);
              var dx, dy := p1.0 - s.p0.0, p1.1 - s.p0.1;
              && r.p0 == p1 && r.p == s.p && r.plot == s.plot
              && r.model == s.model.(view := r.model.view)
              && (s.model.state == Drag ==> r.model.view == Pan(s.model.view, dx, dy))
              && (s.model.state == Zoom ==> r.model.view == Camera.Zoom(s.model.view, exp(dx - dy), Some(s.p)))
              && (s.model.state !in {Drag, Zoom} ==> r.model.view == s.model.view)
  {
    if s.model.state == Idle then s
    else
      var p1 := Upward(s, ex, ey);
      var dx, dy := p1.0 - s.p0.0, p1.1 - s.p0.1;
      var v := s.model.view;
      var v1 := if s.model.state == Drag then Pan(v, dx, dy)
                else if s.model.state == Zoom then Camera.Zoom(v, exp(dx - dy), Some(s.p))
                else v;
      s.(model := s.model.(view := v1), p0 := p1)
  }

  /** The tool part of a move: in points mode the trace takes the pixel, in
      profile mode or with the reference tool on nothing happens, and
      otherwise the plots update by their own state. The map keeps
      everything but its marks and the samples it shares with the plots,
      the plots keep the pointer. */
  function ToolMove(s: Screen, dist: (Pair, Pair) -> real): (r: Result<Screen>)
    requires Synced(s)
    ensures r.Ok? ==> Synced(r.value)
    ensures r.Ok? ==> r.value.model == s.model.(selection := r.value.model.selection, samples := r.value.model.samples)
    ensures r.Ok? ==> r.value.shared ==
                        (s.shared && ((s.model.state != Points && (s.model.state == Profile || s.model.ready.ref))
                                      || KeepsArray(s.plot, None)))
    ensures r.Ok? && !r.value.shared ==> r.value.model.samples == s.model.samples
    ensures r.Ok? ==> r.value.plot.pointer == s.plot.pointer && r.value.p == s.p && r.value.p0 == s.p0
    ensures s.model.state == Points ==> r == PointsMove(s, dist)
    ensures s.model.state != Points && (s.model.state == Profile || s.model.ready.ref) ==> r == Ok(s)
  {
    if s.model.state == Points then PointsMove(s, dist)
    else if s.model.state == Profile || s.model.ready.ref then Ok(s)
    else
      match PlotModel.UpdateValues(s.plot, None, dist)
      case Err(f) => Err(f)
      case Ok(plot2) => Ok(Written(s, plot2, KeepsArray(s.plot, None)))
  }

  /** The plots read the hovered pixel, then the tool part runs. */
  function Hover(s: Screen, ij: Pair, dist: (Pair, Pair) -> real): (r: Result<Screen>)
    requires Synced(s)
    ensures r.Ok? ==> Synced(r.value)
    ensures r.Ok? ==> r.value.model == s.model.(selection := r.value.model.selection, samples := r.value.model.samples)
    ensures r.Ok? && !r.value.shared ==> r.value.model.samples == s.model.samples
    ensures r.Ok? ==> r.value.plot.pointer == ij && r.value.p == s.p && r.value.p0 == s.p0
  {
    match PlotModel.UpdatePointerValues(s.plot, ij)
    case Err(f) => Err(f)
    case Ok(plot1) =>
      SyncedWithPlot(s, plot1);
      ToolMove(s.(plot := plot1), dist)
  }

  /** A move over texel `ij` of the shown band: the plots read the pixel,
      the tool part runs, then the camera part. */
  function MoveOver(s: Screen, ij: Pair, ex: int, ey: int, dist: (Pair, Pair) -> real, exp: real -> real): (r: Result<Screen>)
    requires Synced(s) && forall x :: exp(x) > 0.0
    ensures r.Ok? ==> Synced(r.value)
    ensures r.Ok? ==> r.value.model.state == s.model.state && r.value.model.refPointers == s.model.refPointers
    ensures r.Ok? ==> r.value.plot.pointer == ij
    ensures r.Ok? ==> r.value.model.profilePoints == s.model.profilePoints
    ensures r.Ok? ==> Hover(s, ij, dist).Ok? && r.value == MoveCamera(Hover(s, ij, dist).value, ex, ey, exp)
  {
    match Hover(s, ij, dist)
    case Err(f) => Err(f)
    case Ok(s3) => Ok(MoveCamera(s3, ex, ey, exp))
  }

  /** `mouseMoveEvent`. Nothing happens before a band is shown or off the
      texture. On it, the plots read the hovered pixel; in points mode the
      trace takes it, in profile mode nothing more happens, and otherwise,
      unless the reference tool is on, the plots update; then the camera
      part runs. */
  function Move(s: Screen, ex: int, ey: int, dist: (Pair, Pair) -> real, exp: real -> real): (r: Result<Screen>)
    requires Synced(s) && forall x :: exp(x) > 0.0
    ensures r.Ok? ==> Synced(r.value)
    ensures s.model.current <= -1 || !OnTexture(s, TextureCoordinate(s.model.view, ex, ey)) ==> r == Ok(s)
    ensures s.model.current > -1 && OnTexture(s, TextureCoordinate(s.model.view, ex, ey)) ==>
              r == MoveOver(s, TextureCoordinate(s.model.view, ex, ey), ex, ey, dist, exp)
  {
    if s.model.current <= -1 then Ok(s)
    else
      var ij := TextureCoordinate(s.model.view, ex, ey);
      if !OnTexture(s, ij) then Ok(s)
      else MoveOver(s, ij, ex, ey, dist, exp)
  }

  /** A drag keeps the map under the pointer: the texel that was under
      `p0` is under the new pointer position. */
  lemma DragFollowsPointer(s: Screen, ex: int, ey: int, exp: real -> real)
    requires Synced(s) && (forall x :: exp(x) > 0.0) && s.model.state == Drag
    ensures var r := MoveCamera(s, ex, ey, exp);
            TexelAt(r.model.view, r.p0.0, r.p0.1) == TexelAt(s.model.view, s.p0.0, s.p0.1)
  {
    var p1 := Upward(s, ex, ey);
    PanMovesContent(s.model.view, p1.0 - s.p0.0, p1.1 - s.p0.1, s.p0.0, s.p0.1);
  }

  // ---------------------------------------------------------------------------
  // mouseReleaseEvent

  /** `mouseReleaseEvent`: the map goes idle; the plots go idle while the
      points tool is on and live otherwise. */
  function Release(s: Screen): (r: Screen)
    requires Synced(s)
    ensures Synced(r)
    ensures r.model == s.model.(state := Idle)
    ensures r.plot == s.plot.(state := if s.model.ready.points then Idle else Live)
    ensures r.p == s.p && r.p0 == s.p0
  {
    s.(model := s.model.(state := Idle), plot := s.plot.(state := if s.model.ready.points then Idle else Live))
  }

  /** After any release the map accepts the next press. */
  lemma ReleaseThenPressActs(s: Screen, ex: int, ey: int, b: Button, dist: (Pair, Pair) -> real,
                             subsample: seq<Pair> -> seq<Pair>)
    requires Synced(s) && Fills(subsample, s.model.nMax) && s.model.current > -1
    ensures var r := Press(Release(s), ex, ey, b, dist, subsample);
            r.Ok? ==> r.value.p == Upward(s, ex, ey)
  {
  }

  // ---------------------------------------------------------------------------
  // GPS stations

  datatype Colour = Yellow | Black | Green | Red

  /** How `draw_gps_station` draws a station: the square's colour, the
      label's shadow and the label's colour. */
  datatype StationStyle = StationStyle(square: Colour, shadow: Colour, caption: Colour)

  /** The selected station is drawn red, every other one yellow with a
      green label; the shadow is always black. */
  function StyleOf(name: string, current: Option<string>): (r: StationStyle)
    ensures r.shadow == Black
    ensures r.square == Red <==> current == Some(name)
    ensures r.caption == Red <==> current == Some(name)
    ensures current != Some(name) ==> r.square == Yellow && r.caption == Green
  {
    if current == Some(name) then StationStyle(Red, Black, Red) else StationStyle(Yellow, Black, Green)
  }

  /** The 6 by 6 square drawn for the station at texel `(i, j)`, as its
      top-left corner: 3 pixels up and left of the station's point. */
  function StationSquare(v: View, i: real, j: real): (r: (real, real))
    requires Camera.Valid(v)
    ensures var c := ScreenOfTexel(v, i, j); r.0 + 3.0 == c.0 && r.1 + 3.0 == c.1
  {
    var c := ScreenOfTexel(v, i, j);
    (c.0 - 3.0, c.1 - 3.0)
  }

  /** At most one station is drawn red. */
  lemma OneRedStation(a: string, b: string, current: Option<string>)
    requires StyleOf(a, current).square == Red && StyleOf(b, current).square == Red
    ensures a == b
  {
  }
}
