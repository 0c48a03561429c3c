/** The fragment shaders of the map and the minimap as pure decision
    functions: what colour (if any) a fragment gets from its texture
    coordinate, its data texel, its selection marker and the uniforms. */
module Shaders {
  import opened Outcomes

  /** `DATA_UNIT, SEL_UNIT, PALETTE_UNIT = range(3)`. */
  const DataUnit: nat := 0
  const SelUnit: nat := 1
  const PaletteUnit: nat := 2

  /** The texture units of the three layers are pairwise distinct. */
  lemma UnitsDistinct()
    ensures DataUnit != SelUnit && SelUnit != PaletteUnit && DataUnit != PaletteUnit
    ensures {DataUnit, SelUnit, PaletteUnit} == {0, 1, 2}
  {
  }

  /** The validity tolerance of `if(1. - v.y > 1.e-6) { discard; }`. */
  const Tolerance: real := 0.000001

  /** The normalisation `(band - v_i) / (v_a - v_i)` that produces the data
      texel; `None` stands for the non-finite value a zero range gives. */
  function Normalize(x: real, vi: real, va: real): (r: Option<real>)
    ensures r.Some? <==> va != vi
    ensures r.Some? ==> r.value * (va - vi) == x - vi
  {
    if va == vi then None else Some((x - vi) / (va - vi))
  }

  /** `v()`: `t.x * (v_a - v_i) + v_i`, the original value of a texel. */
  function Denormalize(t: real, vi: real, va: real): real {
    t * (va - vi) + vi
  }

  /** `v()` undoes the normalisation when it is given the same bounds. */
  lemma DenormalizeInvertsNormalize(x: real, vi: real, va: real)
    requires va != vi
    ensures Normalize(x, vi, va).Some?
    ensures Denormalize(Normalize(x, vi, va).value, vi, va) == x
  {
  }

  /** ... and the normalisation undoes `v()`. */
  lemma NormalizeInvertsDenormalize(t: real, vi: real, va: real)
    requires va != vi
    ensures Normalize(Denormalize(t, vi, va), vi, va) == Some(t)
  {
    var d := va - vi;
    assert Denormalize(t, vi, va) - vi == t * d;
    DivCancel(t, d);
  }

  lemma DivCancel(t: real, d: real)
    requires d != 0.0
    ensures (t * d) / d == t
  {
  }

  /** Values between the bounds normalise into the unit interval. */
  lemma NormalizeInUnit(x: real, vi: real, va: real)
    requires vi < va && vi <= x <= va
    ensures 0.0 <= Normalize(x, vi, va).value <= 1.0
  {
    var t, d := Normalize(x, vi, va).value, va - vi;
    assert t * d == x - vi;
    NonnegFactor(t, d);
    assert (1.0 - t) * d == va - x;
    NonnegFactor(1.0 - t, d);
  }

  lemma NonnegFactor(t: real, d: real)
    requires d > 0.0 && t * d >= 0.0
    ensures t >= 0.0
  {
  }

  /** `colormap(v)` samples the palette at `(v - v_0) / (v_1 - v_0)`; `None`
      stands for the non-finite coordinate of an empty palette range. */
  function PaletteCoord(v: real, v0: real, v1: real): (r: Option<real>)
    ensures r.Some? <==> v1 != v0
    ensures r.Some? ==> v0 + r.value * (v1 - v0) == v
  {
    if v1 == v0 then None else Some((v - v0) / (v1 - v0))
  }

  /** The ends of the palette range map to the ends of the palette. */
  lemma PaletteCoordEnds(v0: real, v1: real)
    requires v0 != v1
    ensures PaletteCoord(v0, v0, v1) == Some(0.0)
    ensures PaletteCoord(v1, v0, v1) == Some(1.0)
  {
    DivCancel(1.0, v1 - v0);
  }

  /** What a fragment shader does with a fragment. */
  datatype Fragment =
    | Discard
      /** `gl_Color * vec4(colormap(v).rgb, alpha)`: the palette sampled at `coord`. */
    | Palette(coord: Option<real>, alpha: real)
    | Red
    | White
    | Green

  /** The inputs of one map fragment: the texture coordinate `(s, t)`, the
      data texel `(x, a)` (normalised value, validity alpha) and the alpha of
      the selection texel. */
  datatype MapInput = MapInput(s: real, t: real, x: real, a: real, sel: real)

  /** The uniforms: data bounds `v_i`, `v_a` and palette bounds `v_0`, `v_1`. */
  datatype Uniforms = Uniforms(vi: real, va: real, v0: real, v1: real)

  predicate InUnitSquare(s: real, t: real) {
    0.0 <= s <= 1.0 && 0.0 <= t <= 1.0
  }

  predicate Valid(a: real) {
    1.0 - a <= Tolerance
  }

  function PaletteOf(x: real, a: real, u: Uniforms): Fragment {
    Palette(PaletteCoord(Denormalize(x, u.vi, u.va), u.v0, u.v1), a)
  }

  /** `MAP_SHADER`'s `main`: crop to the unit square, drop invalid texels,
      colour by the palette, then let the selection marker override it in
      order: `> 0` red, `> 2` white, `< 0` green. */
  function MapFragment(i: MapInput, u: Uniforms): (r: Fragment)
    ensures r == Discard <==> !InUnitSquare(i.s, i.t) || !Valid(i.a)
    ensures r.Palette? <==> InUnitSquare(i.s, i.t) && Valid(i.a) && i.sel == 0.0
    ensures r.Palette? ==> r == PaletteOf(i.x, i.a, u)
    ensures r == Red <==> InUnitSquare(i.s, i.t) && Valid(i.a) && 0.0 < i.sel <= 2.0
    ensures r == White <==> InUnitSquare(i.s, i.t) && Valid(i.a) && i.sel > 2.0
    ensures r == Green <==> InUnitSquare(i.s, i.t) && Valid(i.a) && i.sel < 0.0
  {
    if i.s < 0.0 || i.s > 1.0 || i.t < 0.0 || i.t > 1.0 then Discard
    else if 1.0 - i.a > Tolerance then Discard
    else
      var c := PaletteOf(i.x, i.a, u);
      var c := if i.sel > 0.0 then Red else c;
      var c := if i.sel > 2.0 then White else c;
      if i.sel < 0.0 then Green else c
  }

  /** The marker values of the selection grid and the colours they get on a
      valid texel inside the texture: a point (1) and a highlight (2) are both
      red, a subsample (5) is white, a reference (-1) is green and an empty
      cell (0) shows the data. */
  lemma MarkerColours(s: real, t: real, x: real, a: real, u: Uniforms)
    requires InUnitSquare(s, t) && Valid(a)
    ensures MapFragment(MapInput(s, t, x, a, 1.0), u) == Red
    ensures MapFragment(MapInput(s, t, x, a, 2.0), u) == Red
    ensures MapFragment(MapInput(s, t, x, a, 5.0), u) == White
    ensures MapFragment(MapInput(s, t, x, a, -1.0), u) == Green
    ensures MapFragment(MapInput(s, t, x, a, 0.0), u) == PaletteOf(x, a, u)
  {
  }

  /** A nodata texel (validity alpha 0) is never drawn, whatever its marker. */
  lemma NodataDiscarded(i: MapInput, u: Uniforms)
    requires i.a == 0.0
    ensures MapFragment(i, u) == Discard
  {
  }

  /** `MINIMAP_SHADER`'s `main`: the same validity test and palette, with no
      crop and no selection layer. */
  function MinimapFragment(x: real, a: real, u: Uniforms): (r: Fragment)
    ensures r == Discard <==> !Valid(a)
    ensures r != Discard ==> r == PaletteOf(x, a, u)
  {
    if 1.0 - a > Tolerance then Discard else PaletteOf(x, a, u)
  }

  /** Inside the texture and without a marker, the map and the minimap agree. */
  lemma MinimapAgreesWithMap(i: MapInput, u: Uniforms)
    requires InUnitSquare(i.s, i.t) && i.sel == 0.0
    ensures MapFragment(i, u) == MinimapFragment(i.x, i.a, u)
  {
  }
}
