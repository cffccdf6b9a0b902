/**
 * The two per-sample classifiers of `process_move`, as pure functions of the
 * displacement (dx, dy) from each classifier's own baseline. Screen y grows
 * downwards, so dy > 0 is a downward motion.
 */
module Classify {
  import opened Options
  import opened Strokes

  /** `DELTA_MIN`: a displacement must be longer than this to count. */
  const DELTA_MIN: int := 10

  /** `AXES_PROXIMITY_THREADSHOLD`: one axis must dominate the other by this factor. */
  const AXES_PROXIMITY_THRESHOLD: int := 4

  /** C's `abs`. */
  function Abs(n: int): nat
  {
    if n < 0 then -n else n
  }

  function Sign(n: int): int
  {
    if n > 0 then 1 else if n < 0 then -1 else 0
  }

  /** The squared distance exceeds DELTA_MIN squared. */
  predicate Beyond(dx: int, dy: int)
  {
    dx * dx + dy * dy > DELTA_MIN * DELTA_MIN
  }

  /** A stroke's direction agrees in sign with the displacement on every axis it moves along. */
  predicate Agrees(s: Stroke, dx: int, dy: int)
  {
    (StepX(s) == 0 || StepX(s) == Sign(dx)) && (StepY(s) == 0 || StepY(s) == Sign(dy))
  }

  /** `fabs(axes_proximity_value) >= AXES_PROXIMITY_THREADSHOLD`, where the value is
      forced to the threshold when either delta is 0 and is dx / dy otherwise. */
  predicate HorizontalRatio(dx: int, dy: int)
  {
    dx == 0 || dy == 0 || Abs(dx) >= AXES_PROXIMITY_THRESHOLD * Abs(dy)
  }

  /** `fabs(axes_proximity_value) * AXES_PROXIMITY_THREADSHOLD <= 1`. */
  predicate VerticalRatio(dx: int, dy: int)
  {
    dx != 0 && dy != 0 && AXES_PROXIMITY_THRESHOLD * Abs(dx) <= Abs(dy)
  }

  /**
   * The "accurate" classifier. A stroke is produced exactly when the motion is
   * long enough and dx is not 0 (a purely vertical motion takes the horizontal
   * branch, which has no sign of dx to go by). It is horizontal exactly when
   * |dx| >= 4|dy|, vertical exactly when 4|dx| <= |dy|, otherwise diagonal, and
   * always points the way the motion goes.
   */
  function ClassifyAccurate(dx: int, dy: int): (r: Option<Stroke>)
    ensures r.Some? <==> Beyond(dx, dy) && dx != 0
    ensures r.Some? ==> (IsHorizontal(r.value) <==> Abs(dx) >= 4 * Abs(dy))
    ensures r.Some? ==> (IsVertical(r.value) <==> 4 * Abs(dx) <= Abs(dy))
    ensures r.Some? ==> Agrees(r.value, dx, dy)
  {
    if !Beyond(dx, dy) then None
    else if HorizontalRatio(dx, dy) then
      if dx > 0 then Some(Right) else if dx < 0 then Some(Left) else None
    else if VerticalRatio(dx, dy) then
      if dy > 0 then Some(Down) else if dy < 0 then Some(Up) else None
    else if dy < 0 then
      if dx < 0 then Some(Seven) else if dx > 0 then Some(Nine) else None
    else if dy > 0 then
      if dx < 0 then Some(One) else if dx > 0 then Some(Three) else None
    else None
  }

  /**
   * The "fuzzy" classifier. It fires exactly when the motion is long enough,
   * never yields a diagonal, is vertical exactly when dx^2 <= dy^2, and points
   * the way the motion goes.
   */
  function ClassifyFuzzy(dx: int, dy: int): (r: Option<Stroke>)
    ensures r.Some? <==> Beyond(dx, dy)
    ensures r.Some? ==> !IsDiagonal(r.value)
    ensures r.Some? ==> (IsVertical(r.value) <==> dx * dx <= dy * dy)
    ensures r.Some? ==> Agrees(r.value, dx, dy)
  {
    var squareDistance := dx * dx + dy * dy;
    if DELTA_MIN * DELTA_MIN < squareDistance then
      if 2 * dx * dx <= squareDistance then
        if dy > 0 then Some(Down) else Some(Up)
      else
        if dx > 0 then Some(Right) else Some(Left)
    else None
  }

  function OppositeOf(r: Option<Stroke>): Option<Stroke>
  {
    match r
    case None => None
    case Some(s) => Some(Opposite(s))
  }

  /** Reversing a motion reverses the accurate stroke. */
  lemma AccurateMirror(dx: int, dy: int)
    ensures ClassifyAccurate(-dx, -dy) == OppositeOf(ClassifyAccurate(dx, dy))
  {
  }

  /** Reversing a motion reverses the fuzzy stroke. */
  lemma FuzzyMirror(dx: int, dy: int)
    ensures ClassifyFuzzy(-dx, -dy) == OppositeOf(ClassifyFuzzy(dx, dy))
  {
  }

  /** Wherever both classifiers fire on the same displacement with a clear axis, they agree. */
  lemma ClassifiersAgreeOnAxes(dx: int, dy: int)
    requires Beyond(dx, dy) && dx != 0
    requires Abs(dx) >= 4 * Abs(dy) || 4 * Abs(dx) <= Abs(dy)
    ensures ClassifyAccurate(dx, dy) == ClassifyFuzzy(dx, dy)
  {
  }
}
