/** The interaction states the map, the minimap and the plots move through.
    The constants behind them live in a module that is not part of this
    model; the codes below are the ones the state setters' assertions
    accept, read in the order the states are declared and imported. */
module Interaction {
  import opened Outcomes

  datatype Mode = Idle | Drag | Zoom | Points | Live | Profile | Ref

  /** The mouse button of a press or release event. */
  datatype Button = LeftButton | RightButton | MiddleButton

  /** The tool toggles `ready_for_POINTS`, `ready_for_PROFILE` and
      `ready_for_REF`. */
  datatype Ready = Ready(points: bool, profile: bool, ref: bool)

  predicate AnyReady(r: Ready) { r.points || r.profile || r.ref }

  /** The integer code of a state, where one is known. */
  function CodeOf(m: Mode): Option<int> {
    match m
    case Idle => Some(0)
    case Drag => Some(1)
    case Zoom => Some(2)
    case Points => Some(3)
    case Live => Some(4)
    case Profile => Some(5)
    case Ref => None
  }

  /** The state a known code stands for. */
  function ModeOf(code: int): (r: Option<Mode>)
    ensures r.Some? <==> 0 <= code <= 5
    ensures r.Some? ==> CodeOf(r.value) == Some(code)
  {
    if code == 0 then Some(Idle)
    else if code == 1 then Some(Drag)
    else if code == 2 then Some(Zoom)
    else if code == 3 then Some(Points)
    else if code == 4 then Some(Live)
    else if code == 5 then Some(Profile)
    else None
  }

  /** Codes and states correspond one to one. */
  lemma CodeRoundTrip(m: Mode)
    ensures CodeOf(m).Some? ==> ModeOf(CodeOf(m).value) == Some(m)
  {
  }

  /** A setter that stores `code` and then asserts it is in `allowed`. */
  function SetChecked(code: int, allowed: set<int>): (r: Result<Mode>)
    requires allowed <= {0, 1, 2, 3, 4, 5}
    ensures r.Ok? <==> code in allowed
    ensures r.Err? ==> r.fault == AssertionError
    ensures r.Ok? ==> CodeOf(r.value) == Some(code)
  {
    if code in allowed then Ok(ModeOf(code).value) else Err(AssertionError)
  }
}
