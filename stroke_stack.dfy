/**
 * The two stroke stacks of `grabbing.c` and the three routines that work on
 * them in place: `push_stroke`, `clear_stroke_sequence` and
 * `stroke_sequence_to_str`.
 *
 * The stack library itself (`helpers.h`) is not part of this model; StrokeStack
 * stands in for it with the behaviour the routines rely on: `push` puts a
 * stroke on top, `pop` removes and returns the top, `peek` returns the top's
 * value or 0 (NONE) when the stack is empty, `is_empty` and `stack_size`.
 */
module StrokeStacks {
  import opened Strokes

  class StrokeStack {
    /** The stored strokes, oldest first; the top of the stack is the last one. */
    var items: seq<Stroke>

    constructor ()
      ensures items == []
    {
      items := [];
    }

    /** `peek`: the top's enumerator value, NONE when empty. */
    function Peek(): int
      reads this
    {
      Top(items)
    }

    function IsEmpty(): bool
      reads this
    {
      items == []
    }

    function Size(): nat
      reads this
    {
      |items|
    }

    method Push(x: Stroke)
      modifies this
      ensures items == old(items) + [x]
    {
      items := items + [x];
    }

    method Pop() returns (x: Stroke)
      requires items != []
      modifies this
      ensures old(items) == items + [x]
    {
      x := items[|items| - 1];
      items := items[..|items| - 1];
    }
  }

  /** `push_stroke`: push `stroke` unless it is already on top; returns 1 if it pushed, else 0. */
  method PushStroke(stroke: Stroke, stack: StrokeStack) returns (changed: int)
    modifies stack
    ensures stack.items == Pushed(old(stack.items), stroke)
    ensures changed == 1 <==> stack.items == old(stack.items) + [stroke]
    ensures changed == 0 <==> stack.items == old(stack.items)
  {
    var lastStroke := stack.Peek();
    if lastStroke != Code(stroke) {
      stack.Push(stroke);
      changed := 1;
    } else {
      changed := 0;
    }
  }

  /** `clear_stroke_sequence`: pop until empty. */
  method ClearStrokeSequence(stack: StrokeStack)
    modifies stack
    ensures stack.items == []
  {
    while !stack.IsEmpty()
      invariant stack.items <= old(stack.items)
      decreases |stack.items|
    {
      var _ := stack.Pop();
    }
  }

  /** `stroke_sequence_to_str`: pops every stroke, newest first, writing its
      letter from the end of the buffer backwards, so the string lists the
      strokes in push order; the stack is left empty. */
  method StrokeSequenceToStr(stack: StrokeStack) returns (str: string)
    modifies stack
    ensures str == StrokeString(old(stack.items))
    ensures stack.items == []
  {
    ghost var strokes := stack.items;
    var gestNum := stack.Size();
    var gestStr := new char[gestNum](_ => '\0');
    var i := 0;
    while i < gestNum && !stack.IsEmpty()
      invariant 0 <= i <= gestNum
      invariant stack.items == strokes[..gestNum - i]
      invariant forall k :: gestNum - i <= k < gestNum ==> gestStr[k] == Letter(strokes[k])
    {
      var stroke := stack.Pop();
      gestStr[gestNum - i - 1] := Letter(stroke);
      i := i + 1;
    }
    str := gestStr[..];
  }
}
