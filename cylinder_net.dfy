/**
 * The cylinder-net page: dragging moves progress between 0 (a closed
 * cylinder) and 1 (its net). The side shrinks sideways while a flat
 * rectangle standing for the unrolled side fades in, and the two circular
 * bases slide away from the side, one up and one down.
 */
module CylinderNet {
  import opened Geometry
  import Drag

  const Radius: real := 1.2
  const Height: real := 2.5

  /** Horizontal scale of the rolled side: 1 closed, 0.02 (almost flat) open. */
  function SideScaleX(progress: real): (r: real)
    ensures r == Lerp(1.0, 0.02, progress)
    ensures 0.0 <= progress <= 1.0 ==> 0.02 <= r <= 1.0
  {
    1.0 - progress * 0.98
  }

  const TopFoldedY: real := Height / 2.0
  const TopUnfoldedY: real := Height / 2.0 + Radius + 0.8

  /** Height of the top base: resting on the side when closed, lifted clear of it when open. */
  function TopY(progress: real): (r: real)
    ensures r == Lerp(TopFoldedY, TopUnfoldedY, progress)
  {
    TopFoldedY + progress * (TopUnfoldedY - TopFoldedY)
  }

  const BottomFoldedY: real := -Height / 2.0
  const BottomUnfoldedY: real := -Height / 2.0 - Radius - 0.8

  /** Height of the bottom base. */
  function BottomY(progress: real): (r: real)
    ensures r == Lerp(BottomFoldedY, BottomUnfoldedY, progress)
  {
    BottomFoldedY + progress * (BottomUnfoldedY - BottomFoldedY)
  }

  /** The flat rectangle is drawn only past the half-way point. */
  predicate RectVisible(progress: real)
    ensures RectVisible(progress) <==> Drag.ShowsUnfolded(progress)
  {
    progress > 0.5
  }

  /** The rectangle's opacity: half the progress. */
  function RectOpacity(progress: real): (r: real)
    ensures 0.0 <= progress <= 1.0 ==> 0.0 <= r <= 0.5
  {
    0.5 * progress
  }

  /** The bases start on the side's rims (1.25 and -1.25) and end 2 units further out (3.25 and -3.25). */
  lemma BaseEndPoints()
    ensures TopY(0.0) == 1.25 && TopY(1.0) == 3.25
    ensures BottomY(0.0) == -1.25 && BottomY(1.0) == -3.25
  {
  }

  /** The two bases move as mirror images of each other through the side's middle. */
  lemma BasesMirror(progress: real)
    ensures BottomY(progress) == -TopY(progress)
  {
  }

  /** Further along, the top base is higher, the bottom base lower and the side narrower. */
  lemma MovesApartAsItOpens(p: real, q: real)
    requires p <= q
    ensures TopY(p) <= TopY(q)
    ensures BottomY(q) <= BottomY(p)
    ensures SideScaleX(q) <= SideScaleX(p)
  {
    LerpMonotone(TopFoldedY, TopUnfoldedY, p, q);
    LerpMonotone(BottomFoldedY, BottomUnfoldedY, p, q);
    LerpMonotone(1.0, 0.02, p, q);
  }

  /** Whenever the rectangle is drawn it is already more than half way to its full opacity. */
  lemma RectFadedInWhenShown(progress: real)
    requires progress <= 1.0
    ensures RectVisible(progress) ==> 0.25 < RectOpacity(progress) <= 0.5
  {
  }

  /** The page: only the drag controller, starting folded. */
  class CylinderNetPage {
    const drag: Drag.DragController

    ghost predicate Valid()
      reads this, drag
    {
      drag.Valid()
    }

    constructor ()
      ensures Valid() && fresh(drag)
      ensures drag.State() == Drag.Initial(0.0)
    {
      drag := new Drag.DragController(0.0);
    }

    /** The pose drawn now: side scale, top and bottom heights. */
    function Shape(): (r: (real, real, real))
      reads this, drag
      requires Valid()
      ensures 0.02 <= r.0 <= 1.0
      ensures TopFoldedY <= r.1 <= TopUnfoldedY
      ensures BottomUnfoldedY <= r.2 <= BottomFoldedY
      ensures r.2 == -r.1
    {
      var p := drag.unfoldProgress;
      (SideScaleX(p), TopY(p), BottomY(p))
    }
  }

  /** A fresh page draws the closed cylinder: full-width side, bases on its rims, no rectangle. */
  method OpenedPageIsFolded() returns (scale: real, top: real, bottom: real, rect: bool)
    ensures scale == 1.0 && top == Height / 2.0 && bottom == -Height / 2.0 && !rect
  {
    var page := new CylinderNetPage();
    var s := page.Shape();
    scale, top, bottom := s.0, s.1, s.2;
    rect := RectVisible(page.drag.unfoldProgress);
  }
}
