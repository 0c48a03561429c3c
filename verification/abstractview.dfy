/** `AbstractMapView`: what the map and the minimap views share. Each keeps
    the running bounds `v_i`, `v_a` of every band it has drawn, and gives
    the shader the current band's own bounds. */
module AbstractView {
  import opened Coords
  import opened Interaction

  /** The running minimum `v_i` and maximum `v_a`. */
  datatype Bounds = Bounds(vi: real, va: real)

  /** Both bounds start at 0.0. */
  const InitialBounds: Bounds := Bounds(0.0, 0.0)

  /** A view starts idle. */
  const InitialInteraction: Mode := Idle

  /** The bounds always straddle zero. */
  predicate Straddles(b: Bounds) { b.vi <= 0.0 <= b.va }

  /** What `update_vs` does with the band's `tex_vi`, `tex_va`. */
  datatype VsUpdate = VsUpdate(bounds: Bounds, uniformVi: real, uniformVa: real, changed: bool)

  function MinReal(a: real, b: real): real { if a <= b then a else b }
  function MaxReal(a: real, b: real): real { if a >= b then a else b }

  /** `update_vs()`: the shader gets the band's own bounds, the running
      bounds widen to take them in, and `vs_changed` is emitted exactly when
      the running pair moved. */
  function UpdateVs(b: Bounds, texVi: real, texVa: real): (r: VsUpdate)
    ensures r.uniformVi == texVi && r.uniformVa == texVa
    ensures r.bounds.vi <= b.vi && r.bounds.vi <= texVi && (r.bounds.vi == b.vi || r.bounds.vi == texVi)
    ensures r.bounds.va >= b.va && r.bounds.va >= texVa && (r.bounds.va == b.va || r.bounds.va == texVa)
    ensures r.changed <==> r.bounds != b
  {
    var nb := Bounds(MinReal(b.vi, texVi), MaxReal(b.va, texVa));
    VsUpdate(nb, texVi, texVa, nb != b)
  }

  /** The initial bounds straddle zero, and every update keeps them so. */
  lemma UpdateVsStraddles(b: Bounds, texVi: real, texVa: real)
    requires Straddles(b)
    ensures Straddles(InitialBounds)
    ensures Straddles(UpdateVs(b, texVi, texVa).bounds)
  {
  }

  /** Showing the same band again changes nothing and emits nothing. */
  lemma UpdateVsRepeatSilent(b: Bounds, texVi: real, texVa: real)
    ensures var once := UpdateVs(b, texVi, texVa).bounds;
            UpdateVs(once, texVi, texVa).bounds == once && !UpdateVs(once, texVi, texVa).changed
  {
  }

  /** The bounds after a sequence of bands are the extremes over them, with
      0.0 folded in. */
  function Fold(b: Bounds, bands: seq<(real, real)>): (r: Bounds)
    ensures r.vi <= b.vi && r.va >= b.va
    ensures forall k :: 0 <= k < |bands| ==> r.vi <= bands[k].0 && r.va >= bands[k].1
    decreases |bands|
  {
    if bands == [] then b
    else Fold(UpdateVs(b, bands[0].0, bands[0].1).bounds, bands[1..])
  }

  /** The running bounds are attained: each is 0.0 or a bound of some band
      drawn. */
  lemma {:induction false} FoldAttained(b: Bounds, bands: seq<(real, real)>)
    ensures var r := Fold(b, bands);
            && (r.vi == b.vi || exists k :: 0 <= k < |bands| && r.vi == bands[k].0)
            && (r.va == b.va || exists k :: 0 <= k < |bands| && r.va == bands[k].1)
    decreases |bands|
  {
    if bands != [] {
      var b1 := UpdateVs(b, bands[0].0, bands[0].1).bounds;
      FoldAttained(b1, bands[1..]);
      var r := Fold(b, bands);
      if r.vi != b1.vi {
        var k :| 0 <= k < |bands[1..]| && r.vi == bands[1..][k].0;
        assert r.vi == bands[k + 1].0;
      } else if b1.vi != b.vi {
        assert r.vi == bands[0].0;
      }
      if r.va != b1.va {
        var k :| 0 <= k < |bands[1..]| && r.va == bands[1..][k].1;
        assert r.va == bands[k + 1].1;
      } else if b1.va != b.va {
        assert r.va == bands[0].1;
      }
    }
  }
}
