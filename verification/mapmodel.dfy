/** `MapModel`: the band textures it caches, the camera, the selection layer
    and the map's interaction state. OpenGL calls are left out; a texture
    name from `glGenTextures` is drawn from a counter that starts at 1 (the
    name 0 is never returned). */
module MapModel {
  import opened Outcomes
  import opened Coords
  import opened Loader
  import Shaders
  import opened Camera
  import opened Selection
  import opened Interaction

  /** What `textures[i]` caches for band `i`: `(tex_id, tex_width,
      tex_height, tex_vi, tex_v5, tex_v95, tex_va)`. */
  datatype Entry = Entry(texId: nat, w: nat, h: nat, v0: real, v5: real, v95: real, v100: real)

  /** The class defaults: a 512 by 512 texture with bounds 0 and 1. */
  const DefaultEntry: Entry := Entry(0, DefaultTexSize, DefaultTexSize, 0.0, 0.0, 0.0, 1.0)

  datatype Model = Model(
    textures: map<int, Entry>,
    /** `i`: the band shown, -1 before any. */
    current: int,
    /** The fields `tex_id` .. `tex_va` of the band shown. */
    tex: Entry,
    view: View,
    selId: nat,
    selection: Option<Grid>,
    /** The next name `glGenTextures` hands out. */
    nextName: nat,
    profilePoints: seq<Pair>,
    samples: Option<seq<Pair>>,
    refPointers: Option<seq<Pair>>,
    state: Mode,
    ready: Ready,
    nMax: nat)

  /** The model as `__init__` leaves it. */
  function Init(nMax: nat, mapW: nat, mapH: nat): (m: Model)
    ensures m.current == -1 && m.textures == map[] && m.selection.None? && m.state == Idle
    ensures Camera.Valid(m.view) && m.view.z == 1.0 && m.view.cx == m.view.cy == 256.0
  {
    Model(map[], -1, DefaultEntry, Initial(mapW, mapH), 0, None, 1, [], None, None, Idle,
          Ready(false, false, false), nMax)
  }

  /** The invariants every reachable model keeps: the shown band's fields
      are its cache entry, every cached texture and the selection layer
      have names below the counter, and the layer matches the texture
      size it was made for. */
  predicate Good(m: Model) {
    && Camera.Valid(m.view)
    && m.nextName >= 1
    && (m.current in m.textures ==> m.tex == m.textures[m.current])
    && (forall k :: k in m.textures ==> 1 <= m.textures[k].texId < m.nextName)
    && (m.selId != 0 <==> m.selection.Some?)
    && m.selId < m.nextName
    && (m.selection.Some? ==> Shaped(m.selection.value))
  }

  lemma InitGood(nMax: nat, mapW: nat, mapH: nat)
    ensures Good(Init(nMax, mapW, mapH))
  {
  }

  // ---------------------------------------------------------------------------
  // Band textures

  /** A pixel is background when it equals the nodata value. */
  predicate Background(v: real, nodata: Option<real>) {
    nodata == Some(v)
  }

  /** `band[~bg]` in row-major order. */
  function ValidValues(rows: Raster, nodata: Option<real>): (r: seq<real>)
    ensures forall x :: x in r <==>
              exists row, col :: 0 <= row < |rows| && 0 <= col < |rows[row]| && rows[row][col] == x
                                 && !Background(x, nodata)
  {
    if rows == [] then []
    else
      var here := RowValid(rows[0], nodata);
      var rest := ValidValues(rows[1..], nodata);
      assert forall x :: x in rest <==>
               exists row, col :: 1 <= row < |rows| && 0 <= col < |rows[row]| && rows[row][col] == x
                                  && !Background(x, nodata) by {
        forall x | x in rest
          ensures exists row, col :: 1 <= row < |rows| && 0 <= col < |rows[row]| && rows[row][col] == x
                                     && !Background(x, nodata)
        {
          var row, col :| 0 <= row < |rows[1..]| && 0 <= col < |rows[1..][row]| && rows[1..][row][col] == x
                          && !Background(x, nodata);
          assert rows[row + 1][col] == x;
        }
        forall x, row, col | 1 <= row < |rows| && 0 <= col < |rows[row]| && rows[row][col] == x && !Background(x, nodata)
          ensures x in rest
        {
          assert rows[1..][row - 1][col] == x;
        }
      }
      here + rest
  }

  function RowValid(row: seq<real>, nodata: Option<real>): (r: seq<real>)
    ensures forall x :: x in r <==> x in row && !Background(x, nodata)
  {
    if row == [] then []
    else (if Background(row[0], nodata) then [] else [row[0]]) + RowValid(row[1..], nodata)
  }

  /** The smallest and the largest value: `np.percentile` at 0 and 100. */
  function SeqMin(s: seq<real>): (r: real)
    requires s != []
    ensures r in s && forall k :: 0 <= k < |s| ==> r <= s[k]
  {
    if |s| == 1 then s[0]
    else
      var m := SeqMin(s[1..]);
      assert forall k :: 1 <= k < |s| ==> s[k] == s[1..][k - 1];
      if s[0] <= m then s[0] else m
  }

  function SeqMax(s: seq<real>): (r: real)
    requires s != []
    ensures r in s && forall k :: 0 <= k < |s| ==> s[k] <= r
  {
    if |s| == 1 then s[0]
    else
      var m := SeqMax(s[1..]);
      assert forall k :: 1 <= k < |s| ==> s[k] == s[1..][k - 1];
      if s[0] >= m then s[0] else m
  }

  /** One texel of the data texture: channel 0 the normalised value (`None`
      where a zero range makes it non-finite), channel 1 the validity. */
  datatype Texel = Texel(value: Option<real>, validity: real)

  /** The array `z` uploaded as the data texture. */
  function TextureOf(rows: Raster, nodata: Option<real>, v0: real, v100: real): (t: seq<seq<Texel>>)
    ensures |t| == |rows| && forall r :: 0 <= r < |rows| ==> |t[r]| == |rows[r]|
    ensures forall r, c :: 0 <= r < |rows| && 0 <= c < |rows[r]| ==>
              (t[r][c].validity == 0.0 <==> Background(rows[r][c], nodata))
              && (t[r][c].validity == 1.0 <==> !Background(rows[r][c], nodata))
              && t[r][c].value == Shaders.Normalize(rows[r][c], v0, v100)
  {
    seq(|rows|, r requires 0 <= r < |rows| =>
      seq(|rows[r]|, c requires 0 <= c < |rows[r]| =>
        Texel(Shaders.Normalize(rows[r][c], v0, v100), if Background(rows[r][c], nodata) then 0.0 else 1.0)))
  }

  /** A rectangular raster: `band.shape` is `(h, w)`. */
  predicate Rectangular(rows: Raster) {
    forall r :: 0 <= r < |rows| ==> |rows[r]| == |rows[0]|
  }

  function Width(rows: Raster): nat {
    if rows == [] then 0 else |rows[0]|
  }

  /** The cache miss of `show_band`: the entry and the texture of a freshly
      loaded band, named `name`. `None` from the loader cannot be unpacked,
      a dtype other than float32 fails the assertion, without a nodata value
      the mask is the float array `zeros_like(band)`, which `~` rejects, and
      a band with no valid pixel has no percentiles. `inner` stands for the
      5th and 95th percentiles. */
  function MakeEntry(loaded: Option<Band>, name: nat, inner: seq<real> -> (real, real)): (r: Result<(Entry, seq<seq<Texel>>)>)
    ensures loaded.None? ==> r == Err(TypeError)
    ensures loaded.Some? && loaded.value.dtype != "float32" ==> r == Err(AssertionError)
    ensures loaded.Some? && loaded.value.dtype == "float32" && loaded.value.nodata.None? ==> r == Err(TypeError)
    ensures loaded.Some? && loaded.value.dtype == "float32" && loaded.value.nodata.Some? ==>
              (r.Err? <==> ValidValues(loaded.value.rows, loaded.value.nodata) == [])
              && (r.Err? ==> r.fault == IndexError)
    ensures r.Ok? ==>
              var b := loaded.value;
              var (e, t) := r.value;
              && e.texId == name && e.h == |b.rows| && e.w == Width(b.rows)
              && (forall x :: x in ValidValues(b.rows, b.nodata) ==> e.v0 <= x <= e.v100)
              && e.v0 in ValidValues(b.rows, b.nodata) && e.v100 in ValidValues(b.rows, b.nodata)
              && t == TextureOf(b.rows, b.nodata, e.v0, e.v100)
  {
    match loaded
    case None => Err(TypeError)
    case Some(b) =>
      if b.dtype != "float32" then Err(AssertionError)
      else if b.nodata.None? then Err(TypeError)
      else
        var valid := ValidValues(b.rows, b.nodata);
        if valid == [] then Err(IndexError)
        else
          var v0, v100 := SeqMin(valid), SeqMax(valid);
          var (v5, v95) := inner(valid);
          Ok((Entry(name, Width(b.rows), |b.rows|, v0, v5, v95, v100), TextureOf(b.rows, b.nodata, v0, v100)))
  }

  /** Every valid texel of a band with a non-zero range holds a value in the
      unit interval, and a background texel is never drawn. */
  lemma TextureDrawsValidPixels(loaded: Option<Band>, name: nat, inner: seq<real> -> (real, real), r: nat, c: nat)
    requires MakeEntry(loaded, name, inner).Ok?
    requires r < |loaded.value.rows| && c < |loaded.value.rows[r]|
    ensures var (e, t) := MakeEntry(loaded, name, inner).value;
            var b := loaded.value;
            && (!Background(b.rows[r][c], b.nodata) && e.v0 < e.v100 ==>
                  t[r][c].value.Some? && 0.0 <= t[r][c].value.value <= 1.0)
            && (Background(b.rows[r][c], b.nodata) ==>
                  forall s, tt, sel, u :: Shaders.MapFragment(Shaders.MapInput(s, tt, 0.0, t[r][c].validity, sel), u) == Shaders.Discard)
  {
    var (e, t) := MakeEntry(loaded, name, inner).value;
    var b := loaded.value;
    if !Background(b.rows[r][c], b.nodata) && e.v0 < e.v100 {
      assert b.rows[r][c] in ValidValues(b.rows, b.nodata);
      Shaders.NormalizeInUnit(b.rows[r][c], e.v0, e.v100);
    }
  }

  /** `update_selection`'s allocation: the first call makes a zero layer of
      the current texture size under a fresh name; later calls keep it. */
  function AllocateSelection(m: Model): (r: Model)
    ensures r.selId != 0 || m.selId == 0
    ensures m.selId == 0 ==>
              r.selId == m.nextName && r.nextName == m.nextName + 1 && r.selection == Some(Zeros(m.tex.h, m.tex.w))
    ensures m.selId != 0 ==> r == m
  {
    if m.selId == 0 then
      m.(selId := m.nextName, selection := Some(Zeros(m.tex.h, m.tex.w)), nextName := m.nextName + 1)
    else m
  }

  /** The cache step of `show_band(i)`: a cached band becomes current as
      it is; otherwise the loaded band gets a texture under a fresh name. */
  function CacheBand(m: Model, i: int, loaded: Result<Option<Band>>, inner: seq<real> -> (real, real)): (r: Result<Model>)
    requires Good(m)
    ensures i in m.textures ==> r == Ok(m.(current := i, tex := m.textures[i]))
    ensures i !in m.textures && loaded.Err? ==> r == Err(loaded.fault)
    ensures i !in m.textures && loaded.Ok? ==> (r.Err? <==> MakeEntry(loaded.value, m.nextName, inner).Err?)
    ensures r.Ok? ==> Good(r.value)
    ensures r.Ok? ==> r.value.current == i && i in r.value.textures && r.value.tex == r.value.textures[i]
    ensures r.Ok? ==> forall k :: k in m.textures ==> k in r.value.textures && r.value.textures[k] == m.textures[k]
    ensures r.Ok? ==> r.value.textures.Keys == m.textures.Keys + {i}
    ensures r.Ok? && i !in m.textures ==> r.value.tex == MakeEntry(loaded.value, m.nextName, inner).value.0
    ensures r.Ok? ==> r.value == m.(current := i, tex := r.value.tex, textures := r.value.textures,
                                    nextName := r.value.nextName)
  {
    if i in m.textures then Ok(m.(current := i, tex := m.textures[i]))
    else
      match loaded
      case Err(f) => Err(f)
      case Ok(ob) =>
        match MakeEntry(ob, m.nextName, inner)
        case Err(f) => Err(f)
        case Ok((e, _)) =>
          Ok(m.(current := i, tex := e, textures := m.textures[i := e], nextName := m.nextName + 1))
  }

  /** `show_band(i)` with `loaded` the loader's answer for band `i`, which
      a cached band does not use. While a single band is cached (the first
      band, or it again) the camera is centred on it at zoom 1 and the
      selection layer is made if there is none. */
  function ShowBand(m: Model, i: int, loaded: Result<Option<Band>>, inner: seq<real> -> (real, real)): (r: Result<Model>)
    requires Good(m)
    ensures i in m.textures ==> r.Ok?
    ensures i !in m.textures && loaded.Err? ==> r == Err(loaded.fault)
    ensures i !in m.textures && loaded.Ok? ==> (r.Err? <==> MakeEntry(loaded.value, m.nextName, inner).Err?)
    ensures r.Ok? ==> Good(r.value)
    ensures r.Ok? ==> r.value.current == i && i in r.value.textures && r.value.tex == r.value.textures[i]
    ensures r.Ok? ==> forall k :: k in m.textures ==> k in r.value.textures && r.value.textures[k] == m.textures[k]
    ensures r.Ok? ==> r.value.textures.Keys == m.textures.Keys + {i}
    ensures r.Ok? && i !in m.textures ==> r.value.tex == MakeEntry(loaded.value, m.nextName, inner).value.0
    ensures r.Ok? && |r.value.textures| == 1 ==>
              && r.value.view == m.view.(cx := Half(r.value.tex.w), cy := Half(r.value.tex.h), z := 1.0)
              && r.value.selection.Some?
    ensures r.Ok? && |r.value.textures| != 1 ==> r.value.view == m.view && r.value.selection == m.selection
    ensures r.Ok? && m.selection.Some? ==> r.value.selection == m.selection
    ensures r.Ok? ==> r.value.profilePoints == m.profilePoints && r.value.state == m.state
  {
    match CacheBand(m, i, loaded, inner)
    case Err(f) => Err(f)
    case Ok(m1) =>
      if |m1.textures| == 1 then
        var m2 := m1.(view := m1.view.(cx := Half(m1.tex.w), cy := Half(m1.tex.h), z := 1.0));
        Ok(AllocateSelection(m2))
      else Ok(m1)
  }

  /** Showing a band a second time takes it from the cache: nothing is
      loaded and the cache and the band's fields stay as they were. */
  lemma ShowBandCached(m: Model, i: int, loaded: Result<Option<Band>>, again: Result<Option<Band>>,
                       inner: seq<real> -> (real, real))
    requires Good(m) && ShowBand(m, i, loaded, inner).Ok?
    ensures var m1 := ShowBand(m, i, loaded, inner).value;
            && ShowBand(m1, i, again, inner).Ok?
            && ShowBand(m1, i, again, inner).value.textures == m1.textures
            && ShowBand(m1, i, again, inner).value.tex == m1.tex
            && ShowBand(m1, i, again, inner).value.selection == m1.selection
  {
  }

  /** While a single band is cached, showing it again puts the camera back
      on its centre at zoom 1, wherever it was panned or zoomed to. */
  lemma ShowOnlyBandRecentres(m: Model, i: int, loaded: Result<Option<Band>>, inner: seq<real> -> (real, real))
    requires Good(m) && m.textures.Keys == {i}
    ensures ShowBand(m, i, loaded, inner).Ok?
    ensures var v := ShowBand(m, i, loaded, inner).value.view;
            v.z == 1.0 && v.cx == Half(m.textures[i].w) && v.cy == Half(m.textures[i].h)
  {
    assert |m.textures.Keys| == 1;
  }

  /** Once a second band is cached, showing a band leaves the camera alone. */
  lemma ShowBandKeepsCamera(m: Model, i: int, j: int, loaded: Result<Option<Band>>, inner: seq<real> -> (real, real))
    requires Good(m) && i != j && i in m.textures && j in m.textures
    ensures ShowBand(m, i, loaded, inner).Ok? && ShowBand(m, i, loaded, inner).value.view == m.view
  {
    var r := ShowBand(m, i, loaded, inner).value;
    assert {i, j} <= r.textures.Keys;
    assert |{i, j}| == 2;
    SubsetCard({i, j}, r.textures.Keys);
  }

  lemma SubsetCard(a: set<int>, b: set<int>)
    requires a <= b
    ensures |a| <= |b|
  {
    assert b == a + (b - a);
  }

  // ---------------------------------------------------------------------------
  // The selection layer through the model

  /** `show_points(pointers, highlight)` on the model's layer; with no layer
      yet, `self.selection == 2` compares `None` and indexing raises. */
  function ModelShowPoints(m: Model, ptrs: Pointers, highlight: Option<int>): (r: Result<Model>)
    requires Good(m)
    ensures m.selection.None? ==> r == Err(TypeError)
    ensures r.Ok? ==> Good(r.value) && r.value.selection.Some?
    ensures r.Ok? ==> r.value == m.(selection := r.value.selection)
    ensures r.Ok? ==> ShowPoints(m.selection.value, ptrs, highlight, m.nMax) == Ok(r.value.selection.value)
  {
    match m.selection
    case None => Err(TypeError)
    case Some(g) =>
      match ShowPoints(g, ptrs, highlight, m.nMax)
      case Err(f) => Err(f)
      case Ok(g1) => Ok(m.(selection := Some(g1)))
  }

  /** `show_profile(click)` on the model's layer and profile. */
  function ModelShowProfile(m: Model, click: Pair, subsample: seq<Pair> -> seq<Pair>): (r: Result<Model>)
    requires Good(m)
    ensures m.selection.None? ==> r == Err(TypeError)
    ensures r.Ok? ==> Good(r.value)
    ensures r.Ok? ==> |r.value.profilePoints| > 0 && r.value.profilePoints[|r.value.profilePoints| - 1] == click
    ensures r.Ok? ==> |r.value.profilePoints| >= |m.profilePoints|
                      && r.value.profilePoints[..|m.profilePoints|] == m.profilePoints
    ensures r.Ok? ==> r.value.samples == m.samples || r.value.samples == Some(subsample(r.value.profilePoints))
    ensures r.Ok? && m.profilePoints == [] ==> r.value.profilePoints == [click] && r.value.samples == m.samples
    ensures r.Ok? ==> r.value == m.(selection := r.value.selection, profilePoints := r.value.profilePoints,
                                    samples := r.value.samples)
  {
    match m.selection
    case None => Err(TypeError)
    case Some(g) =>
      match ShowProfile(ProfileLayer(g, m.profilePoints, m.samples), click, m.nMax, subsample)
      case Err(f) => Err(f)
      case Ok(p) => Ok(m.(selection := Some(p.grid), profilePoints := p.points, samples := p.samples))
  }

  /** `show_ref()`: the reference pixels marked on the layer. */
  function ModelShowRef(m: Model): (r: Result<Model>)
    requires Good(m)
    ensures m.selection.None? || m.refPointers.None? ==> r == Err(TypeError)
    ensures r.Ok? ==> Good(r.value) && r.value == m.(selection := r.value.selection)
    ensures r.Ok? ==> forall k :: 0 <= k < |m.refPointers.value| ==>
              var g := r.value.selection.value;
              Target(g.h, g.w, m.refPointers.value[k]).Some? &&
              var (row, col) := Target(g.h, g.w, m.refPointers.value[k]).value;
              g.cells[row][col] == Reference
  {
    match (m.selection, m.refPointers)
    case (Some(g), Some(refs)) =>
      (match ShowRef(g, refs)
       case Err(f) => Err(f)
       case Ok(g1) =>
         forall k | 0 <= k < |refs|
           ensures Target(g.h, g.w, refs[k]).Some?
           ensures var (row, col) := Target(g.h, g.w, refs[k]).value; g1.cells[row][col] == Reference
         {
           var (row, col) := Target(g.h, g.w, refs[k]).value;
           assert Hits(g.h, g.w, refs, row, col);
         }
         Ok(m.(selection := Some(g1))))
    case _ => Err(TypeError)
  }

  // ---------------------------------------------------------------------------
  // Interaction state

  /** The codes `set_map_interaction` accepts. */
  const MapCodes: set<int> := {0, 1, 2, 3, 5}

  /** `set_map_interaction(val)`: the value is stored, then asserted to be
      one of 0, 1, 2, 3, 5; any other code ends in an assertion error. The
      map never takes the live state through it. */
  function SetMapInteraction(m: Model, code: int): (r: Result<Model>)
    ensures r.Ok? <==> code in MapCodes
    ensures r.Err? ==> r.fault == AssertionError
    ensures r.Ok? ==> r.value == m.(state := r.value.state) && CodeOf(r.value.state) == Some(code)
    ensures r.Ok? ==> r.value.state != Live && r.value.state != Ref
  {
    match SetChecked(code, MapCodes)
    case Err(f) => Err(f)
    case Ok(s) => Ok(m.(state := s))
  }

  /** `resized(width, height)`: the map view's new size; the camera's centre
      and zoom stay. */
  function Resized(m: Model, width: nat, height: nat): (r: Model)
    requires Good(m)
    ensures Good(r) && r.view.mapW == width && r.view.mapH == height
    ensures r.view.cx == m.view.cx && r.view.cy == m.view.cy && r.view.z == m.view.z
    ensures r == m.(view := r.view)
  {
    m.(view := m.view.(mapW := width, mapH := height))
  }
}
