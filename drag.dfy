/**
 * The drag-to-progress controller shared by the cube-net, cylinder-net and
 * cone-net pages. A mouse or touch press records its y coordinate and the
 * current progress as a baseline; every move while the press lasts sets
 * progress to the baseline plus the upward distance dragged, divided by 200
 * pixels, clamped to [0, 1]; release only stops the drag. Mouse and touch handlers are identical and are modelled once.
 */
module Drag {
  import opened Geometry

  /** Pixels of vertical drag for a full 0 -> 1 traversal. */
  const DragScale: real := 200.0

  /** `Math.max(0, Math.min(1, x))` */
  function Clamp(x: real): (r: real)
    ensures 0.0 <= r <= 1.0
    ensures 0.0 <= x <= 1.0 ==> r == x
    ensures x < 0.0 ==> r == 0.0
    ensures x > 1.0 ==> r == 1.0
  {
    Max(0.0, Min(1.0, x))
  }

  /** The progress a move to `y` produces, given the press baseline. */
  function DragProgress(startProgress: real, dragStartY: real, y: real): (r: real)
    ensures 0.0 <= r <= 1.0
    ensures 0.0 <= startProgress + (dragStartY - y) / DragScale <= 1.0 ==>
              r == startProgress + (dragStartY - y) / DragScale
    ensures startProgress + (dragStartY - y) / DragScale > 1.0 ==> r == 1.0
    ensures startProgress + (dragStartY - y) / DragScale < 0.0 ==> r == 0.0
  {
    Clamp(startProgress + (dragStartY - y) / DragScale)
  }

  /** The controller's state: the drag flag, the two baseline refs and the progress. */
  datatype DragState = DragState(
    isDragging: bool,
    dragStartY: real,
    startProgress: real,
    unfoldProgress: real)

  /** Mouse and touch events: press (mouse down / touch start), move, release (mouse up or leave / touch end). */
  datatype Event = Down(y: real) | Move(y: real) | Up

  /** The state a page starts in: not dragging, both refs 0, the page's initial progress. */
  function Initial(progress: real): DragState
  {
    DragState(false, 0.0, 0.0, progress)
  }

  ghost predicate InRange(s: DragState)
  {
    0.0 <= s.startProgress <= 1.0 && 0.0 <= s.unfoldProgress <= 1.0
  }

  /**
   * One handler invocation. A press starts a drag from the current progress
   * and a release ends it; only a move during a drag changes the progress,
   * to the clamped value for the distance dragged.
   */
  function Step(s: DragState, e: Event): (r: DragState)
    ensures r.isDragging <==> e.Down? || (e.Move? && s.isDragging)
    ensures !(e.Move? && s.isDragging) ==> r.unfoldProgress == s.unfoldProgress
    ensures e.Move? && s.isDragging ==>
      r.unfoldProgress == DragProgress(s.startProgress, s.dragStartY, e.y)
    ensures e.Down? ==> r.dragStartY == e.y && r.startProgress == s.unfoldProgress
    ensures !e.Down? ==> r.dragStartY == s.dragStartY && r.startProgress == s.startProgress
  {
    match e
    case Down(y) => s.(isDragging := true, dragStartY := y, startProgress := s.unfoldProgress)
    case Move(y) =>
      if !s.isDragging then s
      else s.(unfoldProgress := DragProgress(s.startProgress, s.dragStartY, y))
    case Up => s.(isDragging := false)
  }

  /** A sequence of handler invocations, in order. */
  function Run(s: DragState, es: seq<Event>): DragState
    decreases |es|
  {
    if es == [] then s else Run(Step(s, es[0]), es[1..])
  }

  lemma StepKeepsRange(s: DragState, e: Event)
    requires InRange(s)
    ensures InRange(Step(s, e))
  {
  }

  /** Whatever events arrive, in whatever order, progress never leaves [0, 1]. */
  lemma {:induction false} RunKeepsRange(s: DragState, es: seq<Event>)
    requires InRange(s)
    ensures InRange(Run(s, es))
    decreases |es|
  {
    if es != [] {
      StepKeepsRange(s, es[0]);
      RunKeepsRange(Step(s, es[0]), es[1..]);
    }
  }

  /** Running two event sequences one after the other is running their concatenation. */
  lemma {:induction false} RunConcat(s: DragState, es: seq<Event>, fs: seq<Event>)
    ensures Run(s, es + fs) == Run(Run(s, es), fs)
    decreases |es|
  {
    if es == [] {
      assert es + fs == fs;
    } else {
      assert (es + fs)[0] == es[0];
      assert (es + fs)[1..] == es[1..] + fs;
      RunConcat(Step(s, es[0]), es[1..], fs);
    }
  }

  /** A move with no press in progress changes nothing. */
  lemma MoveWhileIdleIsNoOp(s: DragState, y: real)
    requires !s.isDragging
    ensures Step(s, Move(y)) == s
  {
  }

  /** Release keeps the progress reached: there is no snapping. */
  lemma UpKeepsProgress(s: DragState)
    ensures Step(s, Up).unfoldProgress == s.unfoldProgress
    ensures !Step(s, Up).isDragging
  {
  }

  /** Only the last move counts: moves do not accumulate. */
  lemma MovesDoNotAccumulate(s: DragState, a: real, b: real)
    ensures Step(Step(s, Move(a)), Move(b)) == Step(s, Move(b))
  {
  }

  /** A second press resets the baseline to the current progress; presses do not drift. */
  lemma PressesDoNotAccumulate(s: DragState, a: real, b: real)
    ensures Step(Step(s, Down(a)), Down(b)) == Step(s, Down(b))
  {
  }

  /** Pressing and moving back to the press point restores the progress held before the press. */
  lemma PressAndHoldKeepsProgress(s: DragState, y: real)
    requires InRange(s)
    ensures Step(Step(s, Down(y)), Move(y)).unfoldProgress == s.unfoldProgress
  {
  }

  /** Scenario: from a baseline of 0, a 200-pixel upward drag gives exactly 1. */
  lemma FullDragFromFolded(y0: real)
    ensures Run(Initial(0.0), [Down(y0), Move(y0 - 200.0)]).unfoldProgress == 1.0
  {
    var es := [Down(y0), Move(y0 - 200.0)];
    var s1 := Step(Initial(0.0), Down(y0));
    assert es[1..] == [Move(y0 - 200.0)];
    assert Run(Initial(0.0), es) == Run(s1, [Move(y0 - 200.0)]);
    assert Run(s1, [Move(y0 - 200.0)]) == Step(s1, Move(y0 - 200.0));
  }

  /** Drags of 10000 pixels up or down clamp to 1 and 0, from any baseline in range. */
  lemma HugeDragsClamp(s: DragState, y0: real)
    requires InRange(s)
    ensures Step(Step(s, Down(y0)), Move(y0 - 10000.0)).unfoldProgress == 1.0
    ensures Step(Step(s, Down(y0)), Move(y0 + 10000.0)).unfoldProgress == 0.0
  {
  }

  /** Dragging further up never lowers the progress. */
  lemma HigherDragMoreProgress(base: real, y0: real, y1: real, y2: real)
    requires y2 <= y1
    ensures DragProgress(base, y0, y1) <= DragProgress(base, y0, y2)
  {
  }

  /** The status badge every page shows: "unfolding" above one half, "folding" otherwise. */
  predicate ShowsUnfolded(progress: real)
    ensures ShowsUnfolded(progress) <==> ProgressPercent(progress) > 50.0
  {
    progress > 0.5
  }

  /** Width of the progress bar, in percent of its track. */
  function ProgressPercent(progress: real): (r: real)
    ensures 0.0 <= progress <= 1.0 ==> 0.0 <= r <= 100.0
    ensures progress == 0.0 ==> r == 0.0
    ensures progress == 1.0 ==> r == 100.0
  {
    progress * 100.0
  }

  /** The badge is monotone in the progress: once it reads "unfolding", any higher progress reads so too. */
  lemma StatusMonotone(p: real, q: real)
    requires p <= q
    ensures ShowsUnfolded(p) ==> ShowsUnfolded(q)
    ensures !ShowsUnfolded(q) ==> !ShowsUnfolded(p)
    ensures ShowsUnfolded(1.0) && !ShowsUnfolded(0.0) && !ShowsUnfolded(0.5)
  {
  }

  /** The bar grows with progress. */
  lemma PercentMonotone(p: real, q: real)
    requires p <= q
    ensures ProgressPercent(p) <= ProgressPercent(q)
  {
  }

  /**
   * The controller as the pages hold it: `isDragging` is React state,
   * `dragStartY` and `startProgress` are refs, `unfoldProgress` is React
   * state. A state update is taken to be visible to the next event.
   */
  class DragController {
    var isDragging: bool
    var dragStartY: real
    var startProgress: real
    var unfoldProgress: real

    function State(): DragState
      reads this
    {
      DragState(isDragging, dragStartY, startProgress, unfoldProgress)
    }

    ghost predicate Valid()
      reads this
    {
      InRange(State())
    }

    constructor (initialProgress: real)
      requires 0.0 <= initialProgress <= 1.0
      ensures Valid()
      ensures State() == Initial(initialProgress)
    {
      isDragging := false;
      dragStartY := 0.0;
      startProgress := 0.0;
      unfoldProgress := initialProgress;
    }

    /** handleMouseDown / handleTouchStart */
    method PressAt(y: real)
      requires Valid()
      modifies this
      ensures Valid()
      ensures State() == Step(old(State()), Down(y))
    {
      isDragging := true;
      dragStartY := y;
      startProgress := unfoldProgress;
    }

    /** handleMouseMove / handleTouchMove */
    method MoveTo(y: real)
      requires Valid()
      modifies this
      ensures Valid()
      ensures State() == Step(old(State()), Move(y))
    {
      if !isDragging {
        return;
      }
      var deltaY := dragStartY - y;
      var newProgress := Max(0.0, Min(1.0, startProgress + deltaY / DragScale));
      unfoldProgress := newProgress;
    }

    /** handleMouseUp (also on mouse leave) / handleTouchEnd */
    method Release()
      requires Valid()
      modifies this
      ensures Valid()
      ensures State() == Step(old(State()), Up)
    {
      isDragging := false;
    }

    /** Feeds a whole event sequence to the handlers, one event at a time. */
    method HandleAll(es: seq<Event>)
      requires Valid()
      modifies this
      ensures Valid()
      ensures State() == Run(old(State()), es)
    {
      var i := 0;
      while i < |es|
        invariant 0 <= i <= |es|
        invariant Valid()
        invariant Run(old(State()), es) == Run(State(), es[i..])
      {
        assert es[i..] == [es[i]] + es[i + 1..];
        match es[i] {
          case Down(y) => PressAt(y);
          case Move(y) => MoveTo(y);
          case Up => Release();
        }
        i := i + 1;
      }
      assert es[i..] == [];
    }
  }
}
