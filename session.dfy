/**
 * The capture session of `grabbing.c` as a pure state machine: the state of
 * its globals, what a press (`start_grab`), a motion sample (`process_move`)
 * and a release (`stop_grab`) do to it, and properties of whole drags.
 */
module Session {
  import opened Options
  import opened Strokes
  import opened Classify

  /** A pointer position in root-window coordinates. */
  datatype Point = Point(x: int, y: int)

  /** Root-window coordinates are non-negative and, here, below 32767; with the
      initial baseline -1 every displacement then stays within 32767 on each axis. */
  const SCREEN_LIMIT: int := 32767

  /** The largest C `int`. */
  const INT_MAX: int := 0x7FFF_FFFF

  predicate OnScreen(p: Point)
  {
    0 <= p.x < SCREEN_LIMIT && 0 <= p.y < SCREEN_LIMIT
  }

  /** A baseline coordinate: the initial -1 or a coordinate taken from a sample. */
  predicate InRange(c: int)
  {
    -1 <= c < SCREEN_LIMIT
  }

  /** The globals of the capture session: both stroke stacks (oldest first), the
      accurate classifier's baseline (oldX, oldY) and the fuzzy one's (oldX2, oldY2). */
  datatype SessionState = SessionState(
    accurate: seq<Stroke>, fuzzy: seq<Stroke>,
    oldX: int, oldY: int, oldX2: int, oldY2: int)

  /** What holds of every reachable state: no neighbouring repeats in either
      stack, no diagonal in the fuzzy one, baselines in range. */
  predicate Inv(st: SessionState)
  {
    && NoRepeats(st.accurate) && NoRepeats(st.fuzzy)
    && (forall k :: 0 <= k < |st.fuzzy| ==> !IsDiagonal(st.fuzzy[k]))
    && InRange(st.oldX) && InRange(st.oldY) && InRange(st.oldX2) && InRange(st.oldY2)
  }

  /** The globals before any event: empty stacks, baselines at -1. */
  function Initial(): (st: SessionState)
    ensures Inv(st) && st.accurate == [] && st.fuzzy == []
  {
    SessionState([], [], -1, -1, -1, -1)
  }

  /** `start_grab`: empty both stacks and put both baselines on the press point. */
  function Press(p: Point): (st: SessionState)
    requires OnScreen(p)
    ensures Inv(st) && st.accurate == [] && st.fuzzy == []
    ensures st.oldX == st.oldX2 == p.x && st.oldY == st.oldY2 == p.y
  {
    SessionState([], [], p.x, p.y, p.x, p.y)
  }

  function PushedOpt(s: seq<Stroke>, r: Option<Stroke>): seq<Stroke>
  {
    match r
    case None => s
    case Some(x) => Pushed(s, x)
  }

  /** The accurate baseline moves to the sample when either coordinate shrinks in absolute value. */
  predicate AccurateBaselineResets(st: SessionState, p: Point)
  {
    Abs(p.x) < Abs(st.oldX) || Abs(p.y) < Abs(st.oldY)
  }

  /** `process_move` for one sample `p`. */
  function Move(st: SessionState, p: Point): SessionState
  {
    var accurate := PushedOpt(st.accurate, ClassifyAccurate(p.x - st.oldX, p.y - st.oldY));
    var fuzzyStroke := ClassifyFuzzy(p.x - st.oldX2, p.y - st.oldY2);
    SessionState(
      accurate, PushedOpt(st.fuzzy, fuzzyStroke),
      if AccurateBaselineResets(st, p) then p.x else st.oldX,
      if AccurateBaselineResets(st, p) then p.y else st.oldY,
      if fuzzyStroke.Some? then p.x else st.oldX2,
      if fuzzyStroke.Some? then p.y else st.oldY2)
  }

  /** Motion samples, oldest first. */
  function Drive(st: SessionState, ps: seq<Point>): SessionState
    decreases |ps|
  {
    if ps == [] then st else Drive(Move(st, ps[0]), ps[1..])
  }

  predicate AllOnScreen(ps: seq<Point>)
  {
    forall i :: 0 <= i < |ps| ==> OnScreen(ps[i])
  }

  /** The decision of `stop_grab`: a plain click or a dispatch of both strings. */
  datatype Outcome = Click | Dispatch(accurate: string, fuzzy: string)

  /** `stop_grab`'s decision: click exactly when both stacks are empty, otherwise
      dispatch both strings, accurate first. */
  function Release(st: SessionState): (o: Outcome)
    ensures o.Click? <==> st.accurate == [] && st.fuzzy == []
    ensures o.Dispatch? ==> o.accurate == StrokeString(st.accurate) && o.fuzzy == StrokeString(st.fuzzy)
  {
    var accurateStr := StrokeString(st.accurate);
    var fuzzyStr := StrokeString(st.fuzzy);
    if fuzzyStr == "" && accurateStr == "" then Click else Dispatch(accurateStr, fuzzyStr)
  }

  /** For on-screen samples and in-range baselines the squared distances of
      `process_move` fit in a C `int`, and so does the doubled square of the x delta
      that the fuzzy test computes. */
  lemma SquareDistanceFitsInt(p: Point, baseX: int, baseY: int)
    requires OnScreen(p) && InRange(baseX) && InRange(baseY)
    ensures (p.x - baseX) * (p.x - baseX) + (p.y - baseY) * (p.y - baseY) <= INT_MAX
    ensures 2 * (p.x - baseX) * (p.x - baseX) <= INT_MAX
  {
    SquareBound(p.x - baseX);
    SquareBound(p.y - baseY);
  }

  lemma SquareBound(d: int)
    requires -SCREEN_LIMIT <= d <= SCREEN_LIMIT
    ensures d * d <= SCREEN_LIMIT * SCREEN_LIMIT
  {
    var a := Abs(d);
    assert d * d == a * a;
    MulMono(a, a, SCREEN_LIMIT);
  }

  lemma MulMono(a: nat, b: nat, m: nat)
    requires a <= m && b <= m
    ensures a * b <= m * m
  {
    assert a * b <= a * m;
    assert a * m <= m * m;
  }

  /** A motion sample keeps the invariant. */
  lemma MoveInv(st: SessionState, p: Point)
    requires Inv(st) && OnScreen(p)
    ensures Inv(Move(st, p))
  {
    var st' := Move(st, p);
    match ClassifyAccurate(p.x - st.oldX, p.y - st.oldY)
    case None =>
    case Some(x) => PushedNoRepeats(st.accurate, x);
    match ClassifyFuzzy(p.x - st.oldX2, p.y - st.oldY2)
    case None =>
    case Some(x) => PushedNoRepeats(st.fuzzy, x);
  }

  /** One sample adds at most one stroke to each stack and never removes any. */
  lemma MoveGrowsByAtMostOne(st: SessionState, p: Point)
    ensures st.accurate <= Move(st, p).accurate && |Move(st, p).accurate| <= |st.accurate| + 1
    ensures st.fuzzy <= Move(st, p).fuzzy && |Move(st, p).fuzzy| <= |st.fuzzy| + 1
  {
  }

  /** Any drag of on-screen samples keeps the invariant; each stack grows by at
      most one stroke per sample and keeps what it had. */
  lemma {:induction false} DriveInv(st: SessionState, ps: seq<Point>)
    requires Inv(st) && AllOnScreen(ps)
    ensures Inv(Drive(st, ps))
    ensures st.accurate <= Drive(st, ps).accurate && |Drive(st, ps).accurate| <= |st.accurate| + |ps|
    ensures st.fuzzy <= Drive(st, ps).fuzzy && |Drive(st, ps).fuzzy| <= |st.fuzzy| + |ps|
    decreases |ps|
  {
    if ps != [] {
      MoveInv(st, ps[0]);
      MoveGrowsByAtMostOne(st, ps[0]);
      DriveInv(Move(st, ps[0]), ps[1..]);
    }
  }

  /** A press followed directly by a release is a plain click. */
  lemma PressReleaseClicks(p: Point)
    requires OnScreen(p)
    ensures Release(Press(p)) == Click
  {
  }

  /** Samples that never go left of or above the press point and stay within
      DELTA_MIN of it leave both stacks empty: the release is a plain click. */
  lemma {:induction false} SmallMotionClicks(press: Point, ps: seq<Point>)
    requires OnScreen(press)
    requires forall i :: 0 <= i < |ps| ==> press.x <= ps[i].x && press.y <= ps[i].y && !Beyond(ps[i].x - press.x, ps[i].y - press.y)
    ensures Drive(Press(press), ps) == Press(press)
    ensures Release(Drive(Press(press), ps)) == Click
    decreases |ps|
  {
    if ps != [] {
      assert Move(Press(press), ps[0]) == Press(press);
      SmallMotionClicks(press, ps[1..]);
    }
  }

  /** Because the accurate baseline follows any shrinking coordinate, a wiggle
      that never leaves DELTA_MIN of the press point can still yield a stroke. */
  lemma WiggleWithinDeltaMinYieldsStroke()
    ensures Drive(Press(Point(100, 100)), [Point(90, 100), Point(110, 100)]).accurate == [Right]
  {
  }

  /** State of a rightward drag along the row `y0` from the press column `x0`:
      the accurate baseline stays on the press point, the fuzzy one on the row
      and no further right than the next sample, and both stacks are [] or [Right]. */
  predicate RightwardDragState(st: SessionState, x0: int, y0: int, nextX: int)
  {
    && st.oldX == x0 && st.oldY == y0 && st.oldY2 == y0
    && x0 <= st.oldX2 <= nextX
    && (st.accurate == [] || st.accurate == [Right])
    && (st.fuzzy == [] || st.fuzzy == [Right])
    && (st.fuzzy == [] ==> st.oldX2 == x0)
  }

  lemma {:induction false} RightwardDragSteps(st: SessionState, x0: int, y0: int, ps: seq<Point>)
    requires 0 <= x0
    requires ps != [] && RightwardDragState(st, x0, y0, ps[0].x)
    requires forall i :: 0 <= i < |ps| ==> ps[i].y == y0
    requires forall i, j :: 0 <= i < j < |ps| ==> ps[i].x <= ps[j].x
    requires ps[|ps| - 1].x > x0 + DELTA_MIN
    ensures Drive(st, ps).accurate == [Right] && Drive(st, ps).fuzzy == [Right]
    ensures Drive(st, ps).oldX == x0 && Drive(st, ps).oldY == y0
    decreases |ps|
  {
    var st' := Move(st, ps[0]);
    if |ps| == 1 {
      assert Drive(st, ps) == Drive(st', []) == st';
    } else {
      assert ps[0].x <= ps[1].x;
      assert RightwardDragState(st', x0, y0, ps[1].x);
      RightwardDragSteps(st', x0, y0, ps[1..]);
    }
  }

  /** A release with one stroke on each stack dispatches the two one-letter strings. */
  lemma ReleaseSingleStrokes(st: SessionState, a: Stroke, f: Stroke)
    requires st.accurate == [a] && st.fuzzy == [f]
    ensures Release(st) == Dispatch([Letter(a)], [Letter(f)])
  {
  }

  /** A straight rightward drag from the press point, sampled along its row at
      non-decreasing x and ending more than DELTA_MIN to the right, gives "R" from
      both classifiers and is dispatched. */
  lemma StraightRightwardDrag(press: Point, ps: seq<Point>)
    requires OnScreen(press) && ps != []
    requires forall i :: 0 <= i < |ps| ==> ps[i].y == press.y
    requires press.x <= ps[0].x
    requires forall i, j :: 0 <= i < j < |ps| ==> ps[i].x <= ps[j].x
    requires ps[|ps| - 1].x > press.x + DELTA_MIN
    ensures Drive(Press(press), ps).accurate == [Right] && Drive(Press(press), ps).fuzzy == [Right]
    ensures Release(Drive(Press(press), ps)) == Dispatch("R", "R")
  {
    RightwardDragSteps(Press(press), press.x, press.y, ps);
    ReleaseSingleStrokes(Drive(Press(press), ps), Right, Right);
    LetterTable(Right, Right);
  }

  /** State of a downward drag down the column `x0` from the press row `y0`: the
      accurate baseline stays on the press point and its stack empty, the fuzzy
      baseline stays in the column no further down than the next sample, and the
      fuzzy stack is [] or [Down]. */
  predicate DownwardDragState(st: SessionState, x0: int, y0: int, nextY: int)
  {
    && st.oldX == x0 && st.oldY == y0 && st.oldX2 == x0
    && y0 <= st.oldY2 <= nextY
    && st.accurate == []
    && (st.fuzzy == [] || st.fuzzy == [Down])
    && (st.fuzzy == [] ==> st.oldY2 == y0)
  }

  lemma {:induction false} DownwardDragSteps(st: SessionState, x0: int, y0: int, ps: seq<Point>)
    requires 0 <= y0
    requires ps != [] && DownwardDragState(st, x0, y0, ps[0].y)
    requires forall i :: 0 <= i < |ps| ==> ps[i].x == x0
    requires forall i, j :: 0 <= i < j < |ps| ==> ps[i].y <= ps[j].y
    requires ps[|ps| - 1].y > y0 + DELTA_MIN
    ensures Drive(st, ps).accurate == [] && Drive(st, ps).fuzzy == [Down]
    decreases |ps|
  {
    var st' := Move(st, ps[0]);
    if |ps| == 1 {
      assert Drive(st, ps) == Drive(st', []) == st';
    } else {
      assert ps[0].y <= ps[1].y;
      assert DownwardDragState(st', x0, y0, ps[1].y);
      DownwardDragSteps(st', x0, y0, ps[1..]);
    }
  }

  /** A straight downward drag gives no accurate stroke at all (dx stays 0) and
      "D" from the fuzzy classifier, so it is still dispatched. */
  lemma StraightDownwardDrag(press: Point, ps: seq<Point>)
    requires OnScreen(press) && ps != []
    requires forall i :: 0 <= i < |ps| ==> ps[i].x == press.x
    requires press.y <= ps[0].y
    requires forall i, j :: 0 <= i < j < |ps| ==> ps[i].y <= ps[j].y
    requires ps[|ps| - 1].y > press.y + DELTA_MIN
    ensures Drive(Press(press), ps).accurate == [] && Drive(Press(press), ps).fuzzy == [Down]
    ensures Release(Drive(Press(press), ps)) == Dispatch("", "D")
  {
    DownwardDragSteps(Press(press), press.x, press.y, ps);
    ReleaseEmptyAndSingle(Drive(Press(press), ps), Down);
    LetterTable(Down, Down);
  }

  /** A release with an empty accurate stack and one fuzzy stroke dispatches "" and that stroke's letter. */
  lemma ReleaseEmptyAndSingle(st: SessionState, f: Stroke)
    requires st.accurate == [] && st.fuzzy == [f]
    ensures Release(st) == Dispatch("", [Letter(f)])
  {
  }
}
