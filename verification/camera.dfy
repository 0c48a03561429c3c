/** The camera of the map: which texel sits at the centre of the map view
    and how many screen pixels a texel spans. It covers the screen-to-texel
    mapping, `zoom`, `pan`, the placement of GPS stations on screen, the
    viewport rectangle the minimap draws, the minimap's drag, and the
    arguments of a wheel zoom.

    Screen points are in the map view's OpenGL frame (y up from the bottom)
    unless a member says it takes Qt coordinates (y down from the top). */
module Camera {
  import opened Outcomes
  import opened Coords

  /** `cx, cy, z` of `MapModel` with the map view's size `map_width`,
      `map_height`. */
  datatype View = View(cx: real, cy: real, z: real, mapW: nat, mapH: nat)

  /** The zoom only ever starts at 1 and is multiplied by an exponential,
      so it stays positive. */
  predicate Valid(v: View) { v.z > 0.0 }

  /** `n // 2` as a float. */
  function Half(n: nat): real { (n / 2) as real }

  /** The texture size before any band is shown. */
  const DefaultTexSize: nat := 512

  /** The camera before any band is shown: centred on the default texture
      at zoom 1. */
  function Initial(mapW: nat, mapH: nat): (v: View)
    ensures Valid(v) && v.cx == v.cy == 256.0
  {
    View(Half(DefaultTexSize), Half(DefaultTexSize), 1.0, mapW, mapH)
  }

  /** The texel, before truncation, under the point `(x, y)`:
      `(x - w // 2) / z + cx`, likewise for y. */
  function TexelAt(v: View, x: real, y: real): (r: (real, real))
    requires Valid(v)
    ensures (r.0 - v.cx) * v.z == x - Half(v.mapW)
    ensures (r.1 - v.cy) * v.z == y - Half(v.mapH)
  {
    ((x - Half(v.mapW)) / v.z + v.cx, (y - Half(v.mapH)) / v.z + v.cy)
  }

  lemma ScaleCancel(a: real, z: real, dz: real)
    requires z != 0.0 && dz != 0.0
    ensures a / (z * dz) * dz == a / z
  {
    var q := a / (z * dz);
    assert q * (z * dz) == a;
    assert (q * dz) * z == a;
  }

  /** Halving an even size loses nothing to the floor division. */
  lemma EvenHalf(n: nat)
    requires n % 2 == 0
    ensures Half(n) == n as real / 2.0
  {
    assert n == 2 * (n / 2);
  }

  lemma NegateDiv(a: real, z: real)
    requires z != 0.0
    ensures (0.0 - a) / z == 0.0 - a / z
  {
  }

  lemma MulDivCancel(a: real, z: real)
    requires z != 0.0
    ensures a * z / z == a
  {
  }

  // ---------------------------------------------------------------------------
  // zoom and pan

  /** `zoom(ds, x, y)` with `dz = exp(0.01 * ds)` given: the zoom is
      multiplied by `dz`, and with a focal point the centre moves by
      `(x - w // 2) / z * (dz - 1)` with the new `z`. */
  function Zoom(v: View, dz: real, focal: Option<(real, real)>): (r: View)
    requires Valid(v) && dz > 0.0
    ensures Valid(r) && r.z == v.z * dz
    ensures r.mapW == v.mapW && r.mapH == v.mapH
    ensures focal.None? ==> r.cx == v.cx && r.cy == v.cy
  {
    var z := v.z * dz;
    match focal
    case None => v.(z := z)
    case Some((x, y)) =>
      v.(z := z,
         cx := v.cx + (x - Half(v.mapW)) / z * (dz - 1.0),
         cy := v.cy + (y - Half(v.mapH)) / z * (dz - 1.0))
  }

  /** The texel under the focal point stays under it. */
  lemma ZoomKeepsFocalTexel(v: View, dz: real, x: real, y: real)
    requires Valid(v) && dz > 0.0
    ensures TexelAt(Zoom(v, dz, Some((x, y))), x, y) == TexelAt(v, x, y)
  {
    var r := Zoom(v, dz, Some((x, y)));
    var a, b := x - Half(v.mapW), y - Half(v.mapH);
    assert r.z == v.z * dz;
    ScaleCancel(a, v.z, dz);
    ScaleCancel(b, v.z, dz);
    assert a / r.z + a / r.z * (dz - 1.0) == a / r.z * dz == a / v.z;
    assert b / r.z + b / r.z * (dz - 1.0) == b / r.z * dz == b / v.z;
    assert TexelAt(r, x, y).0 == a / r.z + (v.cx + a / r.z * (dz - 1.0));
    assert TexelAt(r, x, y).1 == b / r.z + (v.cy + b / r.z * (dz - 1.0));
  }

  /** Zooming about the centre of the view leaves the centre where it is. */
  lemma ZoomAtCentre(v: View, dz: real)
    requires Valid(v) && dz > 0.0
    ensures Zoom(v, dz, Some((Half(v.mapW), Half(v.mapH)))) == Zoom(v, dz, None)
  {
  }

  /** Zooming by `dz` and then by `1 / dz` about the same point, as
      `zoom(ds)` followed by `zoom(-ds)` does, restores the camera. */
  lemma ZoomUndo(v: View, dz: real, focal: Option<(real, real)>)
    requires Valid(v) && dz > 0.0
    ensures Zoom(Zoom(v, dz, focal), 1.0 / dz, focal) == v
  {
    MulInverse(v.z, dz);
    if focal.Some? {
      ZoomUndoAbout(v, dz, focal.value.0, focal.value.1);
    }
  }

  lemma ZoomUndoAbout(v: View, dz: real, x: real, y: real)
    requires Valid(v) && dz > 0.0
    ensures Zoom(Zoom(v, dz, Some((x, y))), 1.0 / dz, Some((x, y))) == v
  {
    MulInverse(v.z, dz);
    UndoCentre(v.cx, x - Half(v.mapW), v.z, dz);
    UndoCentre(v.cy, y - Half(v.mapH), v.z, dz);
  }

  /** The centre coordinate `c` after the two shifts of a zoom and its undo. */
  lemma UndoCentre(c: real, a: real, z: real, dz: real)
    requires z > 0.0 && dz > 0.0
    ensures c + a / (z * dz) * (dz - 1.0) + a / (z * dz * (1.0 / dz)) * (1.0 / dz - 1.0) == c
  {
    UndoShift(a, z, dz);
  }

  lemma MulInverse(z: real, dz: real)
    requires dz != 0.0
    ensures z * dz * (1.0 / dz) == z
  {
    assert dz * (1.0 / dz) == 1.0;
    assert z * dz * (1.0 / dz) == z * (dz * (1.0 / dz));
  }

  lemma UndoShift(a: real, z: real, dz: real)
    requires z > 0.0 && dz > 0.0
    ensures a / (z * dz) * (dz - 1.0) + a / (z * dz * (1.0 / dz)) * (1.0 / dz - 1.0) == 0.0
  {
    assert z * dz * (1.0 / dz) == z;
    var q := a / (z * dz);
    assert q * (z * dz) == a;
    assert a / z * (1.0 / dz - 1.0) == q * (1.0 - dz) by {
      assert a / z == q * dz by { ScaleCancel(a, z, dz); }
    }
  }

  /** `pan(dx, dy)`: the centre moves against the drag, by `(dx, dy) / z`. */
  function Pan(v: View, dx: real, dy: real): (r: View)
    requires Valid(v)
    ensures Valid(r) && r.z == v.z && r.mapW == v.mapW && r.mapH == v.mapH
    ensures (v.cx - r.cx) * v.z == dx && (v.cy - r.cy) * v.z == dy
  {
    v.(cx := v.cx - dx / v.z, cy := v.cy - dy / v.z)
  }

  /** Panning back by the opposite delta restores the camera. */
  lemma PanUndo(v: View, dx: real, dy: real)
    requires Valid(v)
    ensures Pan(Pan(v, dx, dy), -dx, -dy) == v
  {
  }

  /** The texel that was under `(x, y)` is under `(x + dx, y + dy)` after
      `pan(dx, dy)`: the map follows the pointer. */
  lemma PanMovesContent(v: View, dx: real, dy: real, x: real, y: real)
    requires Valid(v)
    ensures TexelAt(Pan(v, dx, dy), x + dx, y + dy) == TexelAt(v, x, y)
  {
    var w := Pan(v, dx, dy);
    var a, b := x - Half(v.mapW), y - Half(v.mapH);
    DivAdd(a, dx, v.z);
    DivAdd(b, dy, v.z);
    assert TexelAt(w, x + dx, y + dy).0 == (a + dx) / v.z + (v.cx - dx / v.z);
    assert TexelAt(w, x + dx, y + dy).1 == (b + dy) / v.z + (v.cy - dy / v.z);
  }

  lemma DivAdd(a: real, d: real, z: real)
    requires z != 0.0
    ensures (a + d) / z == a / z + d / z
  {
  }

  // ---------------------------------------------------------------------------
  // Screen and texture coordinates

  /** `get_texture_coordinate(e)` for the Qt point `(ex, ey)`: y is turned
      upward with the map height, and each coordinate of the texel under it
      is truncated toward zero by `int()`. */
  function TextureCoordinate(v: View, ex: int, ey: int): (r: Pair)
    requires Valid(v)
    ensures var t := TexelAt(v, ex as real, (v.mapH - ey) as real);
            && (t.0 >= 0.0 ==> r.0 as real <= t.0 < r.0 as real + 1.0)
            && (t.0 < 0.0 ==> r.0 as real - 1.0 < t.0 <= r.0 as real)
            && (t.1 >= 0.0 ==> r.1 as real <= t.1 < r.1 as real + 1.0)
            && (t.1 < 0.0 ==> r.1 as real - 1.0 < t.1 <= r.1 as real)
  {
    var t := TexelAt(v, ex as real, (v.mapH - ey) as real);
    (Trunc(t.0), Trunc(t.1))
  }

  /** Truncation toward zero reports a point up to one texel left of the
      texture as column 0, so the on-texture test `0 <= i` accepts it. */
  lemma LeftOfTextureIsColumnZero(v: View, ex: int, ey: int)
    requires Valid(v)
    ensures -1.0 < TexelAt(v, ex as real, (v.mapH - ey) as real).0 < 0.0 ==> TextureCoordinate(v, ex, ey).0 == 0
  {
  }

  /** `draw_gps_station`: the Qt point where texel `(i, j)` is drawn,
      `(w / 2 - (cx - i) * z, h / 2 + (cy - j) * z)`. */
  function ScreenOfTexel(v: View, i: real, j: real): (r: (real, real))
    requires Valid(v)
    ensures r.0 - v.mapW as real / 2.0 == (i - v.cx) * v.z
    ensures v.mapH as real / 2.0 - r.1 == (j - v.cy) * v.z
  {
    (v.mapW as real / 2.0 - (v.cx - i) * v.z, v.mapH as real / 2.0 + (v.cy - j) * v.z)
  }

  /** On a view of even width and height the station is drawn exactly over
      its texel. */
  lemma ScreenOfTexelRoundTrip(v: View, i: real, j: real)
    requires Valid(v) && v.mapW % 2 == 0 && v.mapH % 2 == 0
    ensures var s := ScreenOfTexel(v, i, j);
            TexelAt(v, s.0, v.mapH as real - s.1) == (i, j)
  {
    var s := ScreenOfTexel(v, i, j);
    assert Half(v.mapW) == v.mapW as real / 2.0;
    assert Half(v.mapH) == v.mapH as real / 2.0;
    assert s.0 - Half(v.mapW) == (i - v.cx) * v.z;
    assert v.mapH as real - s.1 - Half(v.mapH) == (j - v.cy) * v.z;
    MulDivCancel(i - v.cx, v.z);
    MulDivCancel(j - v.cy, v.z);
  }

  /** On a view of odd width the station is drawn half a screen pixel right
      of its texel, since the drawing uses `w / 2` and the mapping `w // 2`. */
  lemma ScreenOfTexelOddWidth(v: View, i: real, j: real)
    requires Valid(v) && v.mapW % 2 == 1
    ensures var s := ScreenOfTexel(v, i, j);
            TexelAt(v, s.0, v.mapH as real - s.1).0 == i + 0.5 / v.z
  {
    var s := ScreenOfTexel(v, i, j);
    assert s.0 - Half(v.mapW) == (i - v.cx) * v.z + 0.5;
    MulDivCancel(i - v.cx, v.z);
    assert ((i - v.cx) * v.z + 0.5) / v.z == (i - v.cx) * v.z / v.z + 0.5 / v.z;
  }

  // ---------------------------------------------------------------------------
  // The minimap

  /** The rectangle the minimap outlines, in texels:
      `cx -+ map_width / 2 / z`, `cy -+ map_height / 2 / z`. */
  datatype Rect = Rect(x1: real, x2: real, y1: real, y2: real)

  function Viewport(v: View): (r: Rect)
    requires Valid(v)
    ensures r.x1 + r.x2 == 2.0 * v.cx && r.y1 + r.y2 == 2.0 * v.cy
    ensures (r.x2 - r.x1) * v.z == v.mapW as real && (r.y2 - r.y1) * v.z == v.mapH as real
  {
    var hw, hh := v.mapW as real / 2.0 / v.z, v.mapH as real / 2.0 / v.z;
    Rect(v.cx - hw, v.cx + hw, v.cy - hh, v.cy + hh)
  }

  /** On a view of even size the rectangle spans exactly the texels under
      the map view's corners. */
  lemma ViewportIsVisibleArea(v: View)
    requires Valid(v) && v.mapW % 2 == 0 && v.mapH % 2 == 0
    ensures TexelAt(v, 0.0, 0.0) == (Viewport(v).x1, Viewport(v).y1)
    ensures TexelAt(v, v.mapW as real, v.mapH as real) == (Viewport(v).x2, Viewport(v).y2)
  {
    EvenHalf(v.mapW);
    EvenHalf(v.mapH);
    var hw, hh := v.mapW as real / 2.0, v.mapH as real / 2.0;
    NegateDiv(hw, v.z);
    NegateDiv(hh, v.z);
    assert v.mapW as real - hw == hw;
    assert v.mapH as real - hh == hh;
  }

  /** The minimap's aspect correction of a drag: the delta along the
      axis on which the texture is relatively longer is stretched by the
      ratio of the two aspect ratios. */
  function AspectCorrected(dx: real, dy: real, ww: nat, wh: nat, tw: nat, th: nat): (r: (real, real))
    requires ww > 0 && wh > 0 && tw > 0 && th > 0
    ensures var wr, tr := ww as real / wh as real, tw as real / th as real;
            && (tr > wr ==> r.0 == dx && r.1 * wr == dy * tr)
            && (tr <= wr ==> r.1 == dy && r.0 * tr == dx * wr)
  {
    var wr, tr := ww as real / wh as real, tw as real / th as real;
    if tr > wr then (dx, dy * (tr / wr)) else (dx * (wr / tr), dy)
  }

  /** Panning by `-k z` moves a centre coordinate by `k`. */
  lemma PanBack(c: real, k: real, z: real)
    requires z != 0.0
    ensures c - (0.0 - k * z) / z == c + k
  {
    NegateDiv(k * z, z);
    MulDivCancel(k, z);
  }

  /** A minimap drag by `(dx, dy)` on a `ww` by `wh` minimap over a `tw` by
      `th` texture: the corrected delta is scaled by `tw / ww * z` and
      `th / wh * z` and panned in reverse. Any zero size divides by zero. */
  function MinimapDrag(v: View, dx: real, dy: real, ww: nat, wh: nat, tw: nat, th: nat): (r: Result<View>)
    requires Valid(v)
    ensures r.Ok? <==> ww > 0 && wh > 0 && tw > 0 && th > 0
    ensures r.Err? ==> r.fault == ZeroDivisionError
    ensures r.Ok? ==> r.value.z == v.z && r.value.mapW == v.mapW && r.value.mapH == v.mapH
    ensures r.Ok? ==>
              var a := AspectCorrected(dx, dy, ww, wh, tw, th);
              && r.value.cx == v.cx + a.0 * (tw as real / ww as real)
              && r.value.cy == v.cy + a.1 * (th as real / wh as real)
  {
    if ww == 0 || wh == 0 || tw == 0 || th == 0 then Err(ZeroDivisionError)
    else
      var a := AspectCorrected(dx, dy, ww, wh, tw, th);
      var kx, ky := a.0 * (tw as real / ww as real), a.1 * (th as real / wh as real);
      PanBack(v.cx, kx, v.z);
      PanBack(v.cy, ky, v.z);
      Ok(Pan(v, 0.0 - kx * v.z, 0.0 - ky * v.z))
  }

  /** The distance a minimap drag moves the map does not depend on the zoom. */
  lemma MinimapDragIgnoresZoom(v: View, z: real, dx: real, dy: real, ww: nat, wh: nat, tw: nat, th: nat)
    requires Valid(v) && z > 0.0 && ww > 0 && wh > 0 && tw > 0 && th > 0
    ensures var r, s := MinimapDrag(v, dx, dy, ww, wh, tw, th), MinimapDrag(v.(z := z), dx, dy, ww, wh, tw, th);
            r.value.cx == s.value.cx && r.value.cy == s.value.cy
  {
  }

  // ---------------------------------------------------------------------------
  // The wheel

  /** `wheelEvent`'s call: `ds = angleDelta().y() / 8` and the focal point
      `(x, height - y)` of the Qt point `(ex, ey)`. */
  function WheelArgs(ex: int, ey: int, angleY: int, height: nat): (r: (real, (real, real)))
    ensures r.0 * 8.0 == angleY as real
    ensures r.1.0 == ex as real && r.1.1 + ey as real == height as real
  {
    (angleY as real / 8.0, (ex as real, (height - ey) as real))
  }

  /** The wheel zooms about the pointer: the texel under the pointer stays. */
  lemma WheelKeepsPointerTexel(v: View, ex: int, ey: int, angleY: int, dz: real)
    requires Valid(v) && dz > 0.0
    ensures var f := WheelArgs(ex, ey, angleY, v.mapH).1;
            TexelAt(Zoom(v, dz, Some(f)), ex as real, (v.mapH - ey) as real)
              == TexelAt(v, ex as real, (v.mapH - ey) as real)
  {
    ZoomKeepsFocalTexel(v, dz, ex as real, (v.mapH - ey) as real);
  }
}
