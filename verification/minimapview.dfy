/** `MinimapView`: the overview of the whole band. Its mouse events drive the
    map's camera through their own small state machine (idle, drag, zoom),
    and it draws a symbol for the satellite's orbit and line of sight. */
module MinimapView {
  import opened Outcomes
  import opened Coords
  import opened Interaction
  import opened Camera

  /** The minimap's own fields: its interaction state, the last pointer
      position `p0` (y up) and its widget size. */
  datatype Minimap = Minimap(state: Mode, p0: (real, real), width: nat, height: nat)

  /** `mousePressEvent`: only with a band shown and while idle; the press
      point is stored with y turned up, a left press starts a drag and a
      right press a zoom. */
  function Press(mm: Minimap, shown: bool, ex: int, ey: int, b: Button): (r: Minimap)
    ensures !shown || mm.state != Idle ==> r == mm
    ensures shown && mm.state == Idle ==>
              && r.p0 == (ex as real, (mm.height - ey) as real)
              && r.width == mm.width && r.height == mm.height
              && r.state == (match b case LeftButton => Drag case RightButton => Zoom case MiddleButton => Idle)
  {
    if shown && mm.state == Idle then
      var p0 := (ex as real, (mm.height - ey) as real);
      match b
      case LeftButton => mm.(p0 := p0, state := Drag)
      case RightButton => mm.(p0 := p0, state := Zoom)
      case MiddleButton => mm.(p0 := p0)
    else mm
  }

  /** `mouseMoveEvent` over a texture of `tw` by `th`, with `exp` standing
      for the exponential `zoom` takes of its argument: idle does nothing; a
      drag moves the map's centre by the aspect-corrected delta in texels; a
      zoom zooms by `dx - dy` about `p0`; then `p0` follows the pointer. */
  function Move(mm: Minimap, v: View, ex: int, ey: int, tw: nat, th: nat, exp: real -> real): (r: Result<(Minimap, View)>)
    requires Camera.Valid(v) && forall x :: exp(x) > 0.0
    ensures mm.state == Idle ==> r == Ok((mm, v))
    ensures r.Ok? ==> Camera.Valid(r.value.1)
    ensures mm.state != Idle && r.Ok? ==> r.value.0 == mm.(p0 := (ex as real, (mm.height - ey) as real))
    ensures mm.state == Drag ==>
              var d := (ex as real - mm.p0.0, (mm.height - ey) as real - mm.p0.1);
              var drag := MinimapDrag(v, d.0, d.1, mm.width, mm.height, tw, th);
              (r.Ok? <==> drag.Ok?) && (r.Ok? ==> r.value.1 == drag.value)
    ensures r.Err? ==> r.fault == ZeroDivisionError
    ensures mm.state == Zoom ==>
              var d := (ex as real - mm.p0.0, (mm.height - ey) as real - mm.p0.1);
              r.Ok? && r.value.1 == Camera.Zoom(v, exp(d.0 - d.1), Some(mm.p0))
    ensures mm.state !in {Idle, Drag, Zoom} ==> r.Ok? && r.value.1 == v
  {
    if mm.state == Idle then Ok((mm, v))
    else
      var p1 := (ex as real, (mm.height - ey) as real);
      var dx, dy := p1.0 - mm.p0.0, p1.1 - mm.p0.1;
      var mm1 := mm.(p0 := p1);
      if mm.state == Drag then
        match MinimapDrag(v, dx, dy, mm.width, mm.height, tw, th)
        case Err(f) => Err(f)
        case Ok(v1) => Ok((mm1, v1))
      else if mm.state == Zoom then Ok((mm1, Camera.Zoom(v, exp(dx - dy), Some(mm.p0))))
      else Ok((mm1, v))
  }

  /** `mouseReleaseEvent`: a drag ends only on the left button, a zoom only
      on the right one. */
  function Release(mm: Minimap, b: Button): (r: Minimap)
    ensures r == mm.(state := r.state)
    ensures r.state == Idle <==> mm.state == Idle || (mm.state == Drag && b == LeftButton) || (mm.state == Zoom && b == RightButton)
    ensures r.state != Idle ==> r.state == mm.state
  {
    if (mm.state == Drag && b == LeftButton) || (mm.state == Zoom && b == RightButton) then mm.(state := Idle)
    else mm
  }

  /** A press and the release of the same button bring an idle minimap back
      to idle. */
  lemma PressReleaseIdle(mm: Minimap, shown: bool, ex: int, ey: int, b: Button)
    requires mm.state == Idle
    ensures Release(Press(mm, shown, ex, ey, b), b).state == Idle
  {
  }

  /** A zoom drag leaves the map's texel under `p0` where it was. */
  lemma ZoomDragKeepsAnchor(mm: Minimap, v: View, ex: int, ey: int, tw: nat, th: nat, exp: real -> real)
    requires Camera.Valid(v) && (forall x :: exp(x) > 0.0) && mm.state == Zoom
    ensures var r := Move(mm, v, ex, ey, tw, th, exp);
            r.Ok? && TexelAt(r.value.1, mm.p0.0, mm.p0.1) == TexelAt(v, mm.p0.0, mm.p0.1)
  {
    var d := (ex as real - mm.p0.0, (mm.height - ey) as real - mm.p0.1);
    ZoomKeepsFocalTexel(v, exp(d.0 - d.1), mm.p0.0, mm.p0.1);
  }

  // ---------------------------------------------------------------------------
  // The orbit and line-of-sight symbol

  /** `make_orbit_LOS_symbol(center)`: the start and end of the orbit arrow
      and the end of the line-of-sight arrow, in Qt coordinates. */
  datatype Symbol = Symbol(orbStart: Pair, orbEnd: Pair, losEnd: Pair)

  function Offset(c: Pair, dx: int, dy: int): Pair { (c.0 + dx, c.1 + dy) }

  /** The symbol for the metadata's `Orbit_direction` and `Antenna_side`.
      A missing key raises `KeyError`; a direction or side other than the
      ones named leaves a point unbound at the `return`. */
  function OrbitSymbol(metadata: map<string, string>, c: Pair): (r: Result<Symbol>)
    ensures "Orbit_direction" !in metadata ==> r == Err(KeyError)
    ensures r.Ok? <==> && "Orbit_direction" in metadata && "Antenna_side" in metadata
                       && metadata["Orbit_direction"] in {"ASCENDING", "DESCENDING"}
                       && metadata["Antenna_side"] in {"RIGHT", "LEFT"}
    ensures r.Err? ==> r.fault in {KeyError, UnboundLocalError}
    ensures r.Ok? && metadata["Orbit_direction"] == "ASCENDING" ==>
              && r.value.orbStart == Offset(c, 4, 15) && r.value.orbEnd == Offset(c, -4, -15)
              && r.value.losEnd == if metadata["Antenna_side"] == "RIGHT" then Offset(c, 3, -1) else Offset(c, -3, 1)
    ensures r.Ok? && metadata["Orbit_direction"] == "DESCENDING" ==>
              && r.value.orbStart == Offset(c, 4, -15) && r.value.orbEnd == Offset(c, -4, 15)
              && r.value.losEnd == if metadata["Antenna_side"] == "RIGHT" then Offset(c, -3, -1) else Offset(c, 3, 1)
  {
    if "Orbit_direction" !in metadata then Err(KeyError)
    else
      var dir := metadata["Orbit_direction"];
      if dir != "ASCENDING" && dir != "DESCENDING" then Err(UnboundLocalError)
      else if "Antenna_side" !in metadata then Err(KeyError)
      else
        var side := metadata["Antenna_side"];
        if side != "RIGHT" && side != "LEFT" then Err(UnboundLocalError)
        else
          var sy := if dir == "ASCENDING" then 1 else -1;
          var los := if side == "RIGHT" then (3 * sy, -1) else (-3 * sy, 1);
          Ok(Symbol(Offset(c, 4, 15 * sy), Offset(c, -4, -15 * sy), Offset(c, los.0, los.1)))
  }

  /** The orbit arrow is centred on the symbol's centre, the two sides'
      line-of-sight ends are mirror images through it, and the descending
      orbit is the ascending one flipped upside down. */
  lemma OrbitSymbolSymmetric(metadata: map<string, string>, c: Pair)
    requires OrbitSymbol(metadata, c).Ok?
    ensures var s := OrbitSymbol(metadata, c).value;
            s.orbStart.0 + s.orbEnd.0 == 2 * c.0 && s.orbStart.1 + s.orbEnd.1 == 2 * c.1
    ensures var other := metadata["Antenna_side" := if metadata["Antenna_side"] == "RIGHT" then "LEFT" else "RIGHT"];
            var s, t := OrbitSymbol(metadata, c).value, OrbitSymbol(other, c).value;
            s.losEnd.0 + t.losEnd.0 == 2 * c.0 && s.losEnd.1 + t.losEnd.1 == 2 * c.1
    ensures var flipped := metadata["Orbit_direction" := if metadata["Orbit_direction"] == "ASCENDING" then "DESCENDING" else "ASCENDING"];
            var s, t := OrbitSymbol(metadata, c).value, OrbitSymbol(flipped, c).value;
            s.orbStart.0 == t.orbStart.0 && s.orbStart.1 - c.1 == c.1 - t.orbStart.1
  {
  }
}
