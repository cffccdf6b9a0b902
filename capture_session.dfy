/**
 * The capture session as `grabbing.c` runs it: the globals `old_x`, `old_y`,
 * `old_x_2`, `old_y_2` and the two stroke stacks, updated in place by
 * `start_grab`, `process_move` and `stop_grab`. Each method is tied to the
 * pure transition of module Session that it implements.
 */
module Grabbing {
  import opened Options
  import opened Strokes
  import opened Classify
  import opened Session
  import opened StrokeStacks

  class CaptureSession {
    /** Baseline of the accurate classifier (algorithm 1). */
    var oldX: int
    var oldY: int
    /** Baseline of the fuzzy classifier (algorithm 2). */
    var oldX2: int
    var oldY2: int
    /** `accurate_stroke_sequence` and `fuzzy_stroke_sequence`. */
    const accurate: StrokeStack
    const fuzzy: StrokeStack

    /** The session's globals as a value. */
    function State(): SessionState
      reads this, accurate, fuzzy
    {
      SessionState(accurate.items, fuzzy.items, oldX, oldY, oldX2, oldY2)
    }

    ghost predicate Valid()
      reads this, accurate, fuzzy
    {
      accurate != fuzzy && Inv(State())
    }

    /** The globals' initial values: both baselines at -1, both stacks empty. */
    constructor ()
      ensures Valid() && State() == Initial()
      ensures fresh(accurate) && fresh(fuzzy)
    {
      oldX, oldY := -1, -1;
      oldX2, oldY2 := -1, -1;
      accurate := new StrokeStack();
      fuzzy := new StrokeStack();
    }

    /** `start_grab`: clear both stacks and put both baselines on the press point. */
    method StartGrab(press: Point)
      requires Valid() && OnScreen(press)
      modifies this, accurate, fuzzy
      ensures Valid() && State() == Press(press)
    {
      ClearStrokeSequence(accurate);
      ClearStrokeSequence(fuzzy);
      oldX, oldY := press.x, press.y;
      oldX2, oldY2 := press.x, press.y;
    }

    /** `process_move`: classify the sample against each baseline, push what
        fires, then move the baselines. */
    method ProcessMove(p: Point)
      requires Valid() && OnScreen(p)
      modifies this, accurate, fuzzy
      ensures Valid() && State() == Move(old(State()), p)
    {
      ghost var st := State();
      var newX, newY := p.x, p.y;
      var accurateStroke := ClassifyAccurate(newX - oldX, newY - oldY);
      if accurateStroke.Some? {
        var _ := PushStroke(accurateStroke.value, accurate);
      }
      assert accurate.items == PushedOpt(st.accurate, accurateStroke);
      if Abs(newX) < Abs(oldX) || Abs(newY) < Abs(oldY) {
        oldX, oldY := newX, newY;
      }
      var fuzzyStroke := ClassifyFuzzy(newX - oldX2, newY - oldY2);
      if fuzzyStroke.Some? {
        var _ := PushStroke(fuzzyStroke.value, fuzzy);
        oldX2, oldY2 := newX, newY;
      }
      assert fuzzy.items == PushedOpt(st.fuzzy, fuzzyStroke);
      MoveInv(st, p);
    }

    /** `stop_grab`: turn both stacks into strings (emptying them) and decide
        between a plain click and a dispatch of both strings. */
    method StopGrab() returns (outcome: Outcome)
      requires Valid()
      modifies accurate, fuzzy
      ensures outcome == Release(old(State()))
      ensures Valid() && State() == old(State()).(accurate := [], fuzzy := [])
    {
      var accurateStr := StrokeSequenceToStr(accurate);
      var fuzzyStr := StrokeSequenceToStr(fuzzy);
      if fuzzyStr == "" && accurateStr == "" {
        outcome := Click;
      } else {
        outcome := Dispatch(accurateStr, fuzzyStr);
      }
    }
  }
}
