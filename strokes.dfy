/**
 * Stroke symbols, their one-letter names, and the de-duplicating append
 * (`push_stroke`) on a stroke sequence, as pure values.
 */
module Strokes {

  /** The eight strokes of `enum STROKES`. The diagonals carry the digit of the
      numeric keypad key in that direction, with screen y growing downwards:
      Seven is up-left, Nine up-right, One down-left, Three down-right. */
  datatype Stroke = Left | Right | Up | Down | One | Three | Seven | Nine

  /** The enumerator NONE: never stored, but what `peek` yields on an empty stack. */
  const NONE: int := 0

  /** The enumerator value of a stroke (LEFT = 1 ... NINE = 8). */
  function Code(s: Stroke): (c: int)
    ensures NONE < c <= 8
  {
    match s
    case Left => 1
    case Right => 2
    case Up => 3
    case Down => 4
    case One => 5
    case Three => 6
    case Seven => 7
    case Nine => 8
  }

  /** `gesture_names`, indexed by enumerator value. */
  const GestureNames: seq<string> := ["NULL", "LEFT", "RIGHT", "UP", "DOWN", "1", "3", "7", "9"]

  /** The character a stroke contributes to a stroke string: the first letter of its name. */
  function Letter(s: Stroke): char
  {
    GestureNames[Code(s)][0]
  }

  /** Horizontal component of a stroke's direction: -1 left, 1 right, 0 none. */
  function StepX(s: Stroke): int
  {
    match s
    case Left | One | Seven => -1
    case Right | Three | Nine => 1
    case Up | Down => 0
  }

  /** Vertical component of a stroke's direction (screen y grows downwards). */
  function StepY(s: Stroke): int
  {
    match s
    case Up | Seven | Nine => -1
    case Down | One | Three => 1
    case Left | Right => 0
  }

  predicate IsHorizontal(s: Stroke) { StepY(s) == 0 }
  predicate IsVertical(s: Stroke) { StepX(s) == 0 }
  predicate IsDiagonal(s: Stroke) { !IsHorizontal(s) && !IsVertical(s) }

  /** The stroke pointing the other way. */
  function Opposite(s: Stroke): (o: Stroke)
    ensures StepX(o) == -StepX(s) && StepY(o) == -StepY(s)
  {
    match s
    case Left => Right
    case Right => Left
    case Up => Down
    case Down => Up
    case One => Nine
    case Nine => One
    case Three => Seven
    case Seven => Three
  }

  /** Different strokes have different enumerator values. */
  lemma CodeInjective()
    ensures forall a, b :: Code(a) == Code(b) ==> a == b
  {
  }

  /** The name table gives the letters L R U D 1 3 7 9, all different. */
  lemma LetterTable(a: Stroke, b: Stroke)
    ensures Letter(Left) == 'L' && Letter(Right) == 'R' && Letter(Up) == 'U' && Letter(Down) == 'D'
    ensures Letter(One) == '1' && Letter(Three) == '3' && Letter(Seven) == '7' && Letter(Nine) == '9'
    ensures Letter(a) == Letter(b) ==> a == b
  {
  }

  /** What `peek` yields on a stack holding `s` (newest last): the newest
      stroke's code, or NONE when the stack is empty. */
  function Top(s: seq<Stroke>): (t: int)
    ensures t == NONE <==> s == []
  {
    if s == [] then NONE else Code(s[|s| - 1])
  }

  /** `push_stroke`: append `x` unless `peek` already shows it. */
  function Pushed(s: seq<Stroke>, x: Stroke): (r: seq<Stroke>)
    ensures r == if s != [] && s[|s| - 1] == x then s else s + [x]
  {
    CodeInjective();
    if Top(s) != Code(x) then s + [x] else s
  }

  /** No two neighbouring strokes are equal. */
  predicate NoRepeats(s: seq<Stroke>)
  {
    forall i :: 0 < i < |s| ==> s[i - 1] != s[i]
  }

  /** Feeding `xs` through `push_stroke`, oldest first. */
  function PushAll(s: seq<Stroke>, xs: seq<Stroke>): seq<Stroke>
    decreases |xs|
  {
    if xs == [] then s else PushAll(Pushed(s, xs[0]), xs[1..])
  }

  function Repeat(x: Stroke, n: nat): (r: seq<Stroke>)
    ensures |r| == n && forall k :: 0 <= k < n ==> r[k] == x
  {
    if n == 0 then [] else [x] + Repeat(x, n - 1)
  }

  /** A stroke repeated on top of itself is dropped. */
  lemma PushedIdempotent(s: seq<Stroke>, x: Stroke)
    ensures Pushed(Pushed(s, x), x) == Pushed(s, x)
  {
  }

  /** De-duplication keeps the sequence free of neighbouring repeats. */
  lemma PushedNoRepeats(s: seq<Stroke>, x: Stroke)
    requires NoRepeats(s)
    ensures NoRepeats(Pushed(s, x))
  {
  }

  /** Pushing one stroke n >= 1 times adds at most one entry: the same as pushing it once. */
  lemma {:induction false} RepeatedPushAddsOnce(s: seq<Stroke>, x: Stroke, n: nat)
    ensures PushAll(s, Repeat(x, n)) == if n == 0 then s else Pushed(s, x)
    decreases n
  {
    if n > 0 {
      assert Repeat(x, n)[0] == x && Repeat(x, n)[1..] == Repeat(x, n - 1);
      RepeatedPushAddsOnce(Pushed(s, x), x, n - 1);
      PushedIdempotent(s, x);
    }
  }

  /** From an empty stack, any number n >= 1 of the same stroke leaves exactly one entry. */
  lemma RepeatedPushFromEmpty(x: Stroke, n: nat)
    requires n >= 1
    ensures PushAll([], Repeat(x, n)) == [x]
  {
    RepeatedPushAddsOnce([], x, n);
  }

  /** Feeding strokes into any repeat-free stack keeps that stack as a prefix, creates no
      neighbouring repeats and adds at most one entry per stroke fed. */
  lemma {:induction false} PushAllShape(s: seq<Stroke>, xs: seq<Stroke>)
    requires NoRepeats(s)
    ensures NoRepeats(PushAll(s, xs))
    ensures s <= PushAll(s, xs) && |PushAll(s, xs)| <= |s| + |xs|
    decreases |xs|
  {
    if xs != [] {
      PushedNoRepeats(s, xs[0]);
      PushAllShape(Pushed(s, xs[0]), xs[1..]);
    }
  }

  /** `stroke_sequence_to_str`'s result for a stack holding `s`: one letter per stroke, oldest first. */
  function StrokeString(s: seq<Stroke>): (r: string)
    ensures |r| == |s|
    ensures forall k :: 0 <= k < |s| ==> r[k] == Letter(s[k])
  {
    if s == [] then "" else StrokeString(s[..|s| - 1]) + [Letter(s[|s| - 1])]
  }

  /** Different stroke sequences give different strings: the string loses nothing. */
  lemma StrokeStringInjective(a: seq<Stroke>, b: seq<Stroke>)
    requires StrokeString(a) == StrokeString(b)
    ensures a == b
  {
    forall k | 0 <= k < |a|
      ensures a[k] == b[k]
    {
      LetterTable(a[k], b[k]);
    }
  }
}
