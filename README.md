# mygestures gesture capture, modelled in Dafny

This project models the gesture-capture session of mygestures (`src/grabbing.c`):
the part that turns mouse motion, drawn while a button is held, into two strings of
stroke symbols and decides on release whether the press was a plain click or a
gesture to dispatch.

- **Strokes** (`strokes.dfy`): the eight strokes of `enum STROKES` (LEFT = 1 … NINE = 8),
  their letters from `gesture_names` (`L R U D 1 3 7 9`), the de-duplicating append of
  `push_stroke` on a stack seen as a sequence, and the stack-to-string conversion.
- **Stroke stacks** (`stroke_stack.dfy`): `push_stroke`, `clear_stroke_sequence` and
  `stroke_sequence_to_str` as methods that change a stack object in place; the last one
  fills a character buffer from the end while popping, as the C code does.
- **Classifiers** (`classify.dfy`): the two per-sample decisions of `process_move`.
  The accurate one (`DELTA_MIN` 10, axis ratio 4) can emit diagonals; the fuzzy one is
  axis-only.
- **Session** (`session.dfy`, `capture_session.dfy`): the globals `old_x/old_y`,
  `old_x_2/old_y_2` and the two stacks, with `start_grab`, `process_move` and the
  decision part of `stop_grab`. They appear both as a pure transition system (used by the
  lemmas about whole drags) and as a `CaptureSession` class whose methods are proved to
  perform exactly those transitions.
- **Modifiers** (`modifiers.dfy`): `create_masks` (every combination of the seven
  modifier masks) and `str_to_modifier` (case-insensitive prefix lookup).

Behaviour worth knowing, all proved:
- The accurate baseline moves to the current sample exactly when `|x|` or `|y|` shrinks.
  It does not move merely because a stroke fires. So a wiggle that never leaves 10 pixels of the
  press point can still yield a stroke (`Session.WiggleWithinDeltaMinYieldsStroke`).
- The accurate classifier never fires when `dx == 0`. The ratio is then forced to the
  horizontal threshold, and the horizontal branch has no sign of `dx` to go by. So a
  perfectly vertical drag gives an empty accurate string and `"D"` from the fuzzy
  classifier (`Session.StraightDownwardDrag`).
- Neither stack has a length cap: `Strokes.Pushed` appends to a stack of any length.

Constants and control as the code has them: the movement threshold `DELTA_MIN` is 10
(`grabbing.c:48`) and the axis ratio is 4 (`grabbing.c:266`). The stacks have no length
cap. The accurate baseline resets on a shrinking coordinate (`grabbing.c:319-324`). There
is no state flag: a motion sample is processed whenever it arrives.

Integer model of the float test. `process_move` compares `fabs(dx / dy)` (as `float`)
with 4 and `fabs(dx / dy) * 4` with 1. Here these are `|dx| >= 4|dy|` and `4|dx| <= |dy|`.
The two forms agree whenever `|dx|, |dy| < 2^16`. If the exact quotient is below 4, it is
below by at least `1/|dy| > 2^-16`, and the gap between floats just below 4 is `2^-22`.
So rounding cannot reach 4. The same argument holds at 1/4. The model therefore assumes
that samples lie on screen, at `0 <= x, y < 32767`. Baselines are `-1` (the globals'
initial value) or a past sample. Under that bound every delta is at most 32767 in
absolute value. `Session.SquareDistanceFitsInt` shows that the squared distances and
the doubled square `2 * x_delta_2 * x_delta_2` then fit in a C `int`.

The stack library (`helpers.h`) is not part of this model. `StrokeStacks.StrokeStack`
stands in for it: `push` puts on top, `pop` removes the top, and `peek` on an empty stack
yields 0 (NONE). `push_stroke` relies on that last fact: since no stroke has code 0, the
first stroke of a gesture is always pushed.

## Model

| member | source | states |
|---|---|---|
| `Strokes.Code` | src/grabbing.c:61-63 | every stroke's enumerator value lies in 1..8, above NONE = 0 |
| `Strokes.CodeInjective` | src/gestures.h:35-37 | different strokes have different enumerator values |
| `Strokes.LetterTable` | src/grabbing.c:66-67 | the first letters of `gesture_names` are L R U D 1 3 7 9, all distinct |
| `Strokes.Top` | src/grabbing.c:139 | `peek` yields NONE exactly when the stack is empty |
| `Strokes.Pushed` | src/grabbing.c:138-146 | the stroke is appended unless the top already equals it, in which case the stack is unchanged |
| `Strokes.PushedIdempotent` | src/grabbing.c:138-146 | pushing the same stroke twice is the same as pushing it once |
| `Strokes.PushedNoRepeats` | src/grabbing.c:138-146 | the append keeps neighbouring entries distinct |
| `Strokes.RepeatedPushAddsOnce` | src/grabbing.c:138-146 | pushing one stroke n >= 1 times equals pushing it once: at most one entry is added |
| `Strokes.RepeatedPushFromEmpty` | src/grabbing.c:138-146 | n >= 1 pushes of one stroke onto an empty stack leave exactly that one stroke |
| `Strokes.PushAllShape` | src/grabbing.c:138-146 | any series of pushes keeps earlier entries, adds at most one entry per push, and never creates neighbouring repeats |
| `Strokes.Letter` | src/grabbing.c:189 | the first character of the stroke's entry in `gesture_names`; it has no contract of its own, and `Strokes.LetterTable` states its values and that they are distinct |
| `Strokes.StrokeString` | src/grabbing.c:179-196 | the string has one character per stored stroke, in push order, each the stroke's letter |
| `Strokes.StrokeStringInjective` | src/grabbing.c:186-190 | different stroke sequences give different strings |
| `StrokeStacks.PushStroke` | src/grabbing.c:138-146 | the stack becomes the de-duplicated append; the result is 1 exactly when the stroke was pushed and 0 exactly when the stack is unchanged |
| `StrokeStacks.ClearStrokeSequence` | src/grabbing.c:129-133 | popping until empty leaves the stack empty |
| `StrokeStacks.StrokeSequenceToStr` | src/grabbing.c:179-196 | the result is the letters of the stored strokes in push order, and the stack is left empty |
| `Classify.ClassifyAccurate` | src/grabbing.c:255-316 | a stroke fires exactly when dx²+dy² > 100 and dx != 0; it is horizontal exactly when abs(dx) >= 4·abs(dy), vertical exactly when 4·abs(dx) <= abs(dy), diagonal otherwise, and it points the way the motion goes on each axis |
| `Classify.ClassifyFuzzy` | src/grabbing.c:326-349 | a stroke fires exactly when dx²+dy² > 100; it is never diagonal, is vertical exactly when dx² <= dy², and points the way the motion goes |
| `Classify.AccurateMirror` | src/grabbing.c:279-314 | reversing the motion reverses the accurate stroke (L/R, U/D, 1/9, 3/7) |
| `Classify.FuzzyMirror` | src/grabbing.c:333-349 | reversing the motion reverses the fuzzy stroke |
| `Classify.ClassifiersAgreeOnAxes` | src/grabbing.c:262-349 | when the accurate classifier fires on a clearly horizontal or vertical motion, the fuzzy one gives the same stroke |
| `Session.Initial` | src/grabbing.c:102-117 | before any event both stacks are empty and the state satisfies the invariant |
| `Session.Press` | src/grabbing.c:152-166 | after a press both stacks are empty and both baselines sit on the press point |
| `Session.Release` | src/grabbing.c:209-230 | the outcome is a click exactly when both stacks are empty, otherwise a dispatch of the accurate and the fuzzy string |
| `Session.SquareDistanceFitsInt` | src/grabbing.c:255-335 | for on-screen samples and in-range baselines the squared distance and `2 * x_delta_2 * x_delta_2` fit in a C int |
| `Session.Move` | src/grabbing.c:246-357 | one `process_move` step on the session's value; it has no contract of its own, and `Session.MoveInv`, `Session.MoveGrowsByAtMostOne` and `Session.DriveInv` carry its properties |
| `Session.MoveInv` | src/grabbing.c:276-355 | a motion sample keeps both stacks free of neighbouring repeats, keeps the fuzzy stack free of diagonals, and keeps the baselines in range |
| `Session.MoveGrowsByAtMostOne` | src/grabbing.c:276-355 | one sample adds at most one stroke to each stack and removes none |
| `Session.DriveInv` | src/grabbing.c:235-358 | over any series of samples the invariant holds and each stack grows by at most one stroke per sample |
| `Session.PressReleaseClicks` | src/grabbing.c:213-221 | a press followed directly by a release is a plain click |
| `Session.SmallMotionClicks` | src/grabbing.c:262-333 | samples never left of or above the press point and within 10 pixels of it leave the state as after the press, so the release is a click |
| `Session.WiggleWithinDeltaMinYieldsStroke` | src/grabbing.c:319-324 | moving 10 pixels left and then 10 pixels right of the press point yields an accurate RIGHT, because the baseline followed the shrinking x |
| `Session.RightwardDragSteps` | src/grabbing.c:262-355 | along a rightward drag the accurate baseline stays on the press point and both stacks end as [RIGHT] |
| `Session.StraightRightwardDrag` | src/grabbing.c:262-355 | a straight rightward drag longer than 10 pixels yields "R" from both classifiers and a dispatch of ("R", "R") |
| `Session.DownwardDragSteps` | src/grabbing.c:262-355 | along a downward drag in one column the accurate stack stays empty and the fuzzy stack ends as [DOWN] |
| `Session.StraightDownwardDrag` | src/grabbing.c:268-269 | a straight downward drag yields no accurate stroke and "D" from the fuzzy classifier, and is dispatched as ("", "D") |
| `Session.ReleaseSingleStrokes` | src/grabbing.c:209-228 | one stroke on each stack dispatches the two one-letter strings |
| `Session.ReleaseEmptyAndSingle` | src/grabbing.c:209-228 | an empty accurate stack and one fuzzy stroke dispatch "" and that stroke's letter |
| `Grabbing.CaptureSession.constructor` | src/grabbing.c:102-117 | the globals start with baselines at -1 and empty stacks |
| `Grabbing.CaptureSession.StartGrab` | src/grabbing.c:152-166 | the session becomes the press state: both stacks empty, both baselines on the press point |
| `Grabbing.CaptureSession.ProcessMove` | src/grabbing.c:246-357 | the session takes exactly the step `Session.Move`: each classifier's stroke is pushed with de-duplication, the accurate baseline moves iff a coordinate shrinks, the fuzzy baseline moves iff it fired; the invariant is kept |
| `Grabbing.CaptureSession.StopGrab` | src/grabbing.c:209-230 | the outcome is `Session.Release` of the state before the call, both stacks are left empty and the baselines unchanged |
| `Modifiers.CreateMasks` | src/grabbing.c:466-480 | every entry i < 128 becomes the OR of the modifier masks whose bits are set in i; entries beyond are untouched |
| `Modifiers.CombineEntry` | src/grabbing.c:470-475 | one entry becomes the OR of the masks selected by its index; no other entry changes |
| `Modifiers.MaskOf` | src/grabbing.c:470-475 | the OR of the masks the inner loop selects for index i; it has no contract of its own, and `Modifiers.MaskOfNone`, `Modifiers.MaskOfSingle` and `Modifiers.MaskOfUnion` carry its properties |
| `Modifiers.MaskOfNone` | src/grabbing.c:466-480 | the entry for no modifiers is 0 |
| `Modifiers.MaskOfSingle` | src/grabbing.c:466-480 | the entry for the single bit 1 << j is exactly `valid_masks[j]` |
| `Modifiers.MaskOfUnion` | src/grabbing.c:466-480 | the entry for i OR k is the entry for i OR the entry for k |
| `Modifiers.StrToModifier` | src/grabbing.c:505-522 | no string gives the exit path; a string starting with "AnyModifier" gives AnyModifier; otherwise the mask of the first modifier name that starts the string, or the SHIFT mask when none does; all comparisons ignore ASCII case |

## Left out

- X11 plumbing is not modelled: `XNextEvent` and the `event_loop` switch, `grab_pointer`,
  `XGrabButton`, `XUngrabButton`, `mouseClick`, `XSync`, `x_key_mask_get` and
  `init_masks`. The click and the dispatch are modelled only as the `Outcome` value.
  The modifier masks the server reports are a parameter of the mask functions.
- Saving the press event in `first_click` is not modelled. It is used only to reach the
  display in the dispatch call.
- Brush and backing-store drawing in `start_grab`, `process_move` and `stop_grab` is not
  modelled. It is rendering only.
- `getWindowInfo`, `process_movement_sequences` and everything behind them are not part of
  this model: context resolution, regular-expression gesture matching and action
  execution. The model stops at the dispatch: a dispatch is the pair of strings.
- `init`, `end`, `main`, `handle_args`, `usage`, `daemonize`, `sighup`, `sigchld`,
  `parse_brush_color` and `print_bin` are not modelled. They handle start-up, the command
  line, signals and debug output.
- `Classify.ClassifyAccurate`: the float ratio and `fabs` are replaced by exact integer
  comparisons. These agree with the float code at least for deltas below 2^16 in absolute
  value (the argument above is not proved). The on-screen requires of `ProcessMove`
  keeps every delta at most 32767 in absolute value, below 2^15.
- `Grabbing.CaptureSession.ProcessMove`: requires the sample to be on screen
  (0 <= x, y < 32767). That bound makes the integer model of the float test exact and
  keeps C `int` arithmetic free of overflow; C overflow itself is not modelled.
- `Grabbing.CaptureSession.StartGrab`: requires the press point to be on screen, for the
  same reason.
- The stack library behind `push`, `pop`, `peek`, `is_empty` and `stack_size` is not part
  of this model. `StrokeStacks.StrokeStack` states the behaviour the code relies on.
  `malloc` and the NUL terminator of the returned string are not modelled.
