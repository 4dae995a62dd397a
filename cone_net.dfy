/**
 * The cone-net page: dragging moves progress between 0 (a closed cone) and 1
 * (its net). The side shrinks while a flat sector standing for the unrolled
 * side fades in, and the circular base slides down away from the cone.
 *
 * The sector is a triangle fan: an apex vertex and segments + 1 rim
 * vertices, joined by one triangle per segment. Cosine and sine are taken
 * as parameters, so the model fixes which angle each rim vertex is computed
 * from, not the irrational coordinates themselves.
 */
module ConeNet {
  import opened Geometry
  import Drag

  const Radius: real := 1.2
  const Height: real := 3.0

  /** Number of segments of the sector the page builds. */
  const PageSegments: nat := 32

  /** The angle of rim vertex i: the rim runs from -angle/2 to angle/2 in equal steps. */
  function RimAngle(angle: real, segments: nat, i: nat): (r: real)
    requires segments > 0
    ensures i == 0 ==> r == -angle / 2.0
    ensures i == segments ==> r == angle / 2.0
  {
    var angleStep := angle / segments as real;
    assert segments as real * angleStep == angle;
    var startAngle := -angle / 2.0;
    startAngle + i as real * angleStep
  }

  /** The rim starts at -angle/2, ends at angle/2 and turns the same way throughout. */
  lemma RimAngleSpan(angle: real, segments: nat, i: nat, j: nat)
    requires segments > 0
    requires i <= j
    ensures RimAngle(angle, segments, 0) == -angle / 2.0
    ensures RimAngle(angle, segments, segments) == angle / 2.0
    ensures angle >= 0.0 ==> RimAngle(angle, segments, i) <= RimAngle(angle, segments, j)
  {
    var n := segments as real;
    assert n * (angle / n) == angle;
    if angle >= 0.0 {
      var step := angle / n;
      assert step >= 0.0;
      assert RimAngle(angle, segments, j) - RimAngle(angle, segments, i) == (j as real - i as real) * step;
      MulNonNegative(j as real - i as real, step);
    }
  }

  /** The vertex buffer is rim point i at coordinates 3 + 3i .. 5 + 3i. */
  ghost predicate RimVertex(vertices: seq<real>, radius: real, angle: real, segments: nat,
                            cos: real -> real, sin: real -> real, i: nat)
    requires segments > 0 && 3 * i + 5 < |vertices|
  {
    && vertices[3 * i + 3] == cos(RimAngle(angle, segments, i)) * radius
    && vertices[3 * i + 4] == sin(RimAngle(angle, segments, i)) * radius
    && vertices[3 * i + 5] == 0.0
  }

  /** Triangle t of the fan joins the apex with rim points t and t + 1. */
  ghost predicate FanTriangle(indices: seq<nat>, t: nat)
    requires 3 * t + 2 < |indices|
  {
    indices[3 * t] == 0 && indices[3 * t + 1] == t + 1 && indices[3 * t + 2] == t + 2
  }

  /** Pushing more numbers keeps the rim points already written. */
  lemma RimVertexKept(v: seq<real>, extra: seq<real>, radius: real, angle: real, segments: nat,
                      cos: real -> real, sin: real -> real, i: nat)
    requires segments > 0 && 3 * i + 5 < |v|
    requires RimVertex(v, radius, angle, segments, cos, sin, i)
    ensures RimVertex(v + extra, radius, angle, segments, cos, sin, i)
  {
    var w := v + extra;
    assert w[3 * i + 3] == v[3 * i + 3] && w[3 * i + 4] == v[3 * i + 4] && w[3 * i + 5] == v[3 * i + 5];
  }

  /** Pushing more indices keeps the triangles already written. */
  lemma FanTriangleKept(s: seq<nat>, extra: seq<nat>, t: nat)
    requires 3 * t + 2 < |s| && FanTriangle(s, t)
    ensures FanTriangle(s + extra, t)
  {
    var w := s + extra;
    assert w[3 * t] == s[3 * t] && w[3 * t + 1] == s[3 * t + 1] && w[3 * t + 2] == s[3 * t + 2];
  }

  /**
   * The two buffers of the sector: three numbers for the apex and for each of
   * the segments + 1 rim points, and three vertex indices per triangle, every
   * one naming a vertex that exists.
   */
  method CreateSectorGeometry(radius: real, angle: real, segments: nat, cos: real -> real, sin: real -> real)
    returns (vertices: seq<real>, indices: seq<nat>)
    requires segments > 0
    ensures |vertices| == 3 * (segments + 2)
    ensures vertices[..3] == [0.0, 0.0, 0.0]
    ensures forall i :: 0 <= i <= segments ==> RimVertex(vertices, radius, angle, segments, cos, sin, i)
    ensures |indices| == 3 * segments
    ensures forall t :: 0 <= t < segments ==> FanTriangle(indices, t)
    ensures forall k :: 0 <= k < |indices| ==> indices[k] < |vertices| / 3
  {
    vertices := [0.0, 0.0, 0.0];
    indices := [];

    var angleStep := angle / segments as real;
    var startAngle := -angle / 2.0;

    var i := 0;
    while i <= segments
      invariant 0 <= i <= segments + 1
      invariant |vertices| == 3 * (i + 1)
      invariant vertices[..3] == [0.0, 0.0, 0.0]
      invariant forall k :: 0 <= k < i ==> RimVertex(vertices, radius, angle, segments, cos, sin, k)
    {
      var theta := startAngle + i as real * angleStep;
      assert theta == RimAngle(angle, segments, i);
      ghost var prev := vertices;
      vertices := vertices + [cos(theta) * radius, sin(theta) * radius, 0.0];
      forall k | 0 <= k < i
        ensures RimVertex(vertices, radius, angle, segments, cos, sin, k)
      {
        RimVertexKept(prev, [cos(theta) * radius, sin(theta) * radius, 0.0], radius, angle, segments, cos, sin, k);
      }
      i := i + 1;
    }

    i := 0;
    while i < segments
      invariant 0 <= i <= segments
      invariant |indices| == 3 * i
      invariant forall t :: 0 <= t < i ==> FanTriangle(indices, t)
      invariant forall k :: 0 <= k < |indices| ==> indices[k] < i + 2
    {
      ghost var prev := indices;
      indices := indices + [0, i + 1, i + 2];
      forall t | 0 <= t < i
        ensures FanTriangle(indices, t)
      {
        FanTriangleKept(prev, [0, i + 1, i + 2], t);
      }
      i := i + 1;
    }
  }

  /** The sector the page draws: 32 segments, 34 vertices (102 numbers) and 96 indices. */
  method PageSector(slantHeight: real, sectorAngle: real, cos: real -> real, sin: real -> real)
    returns (vertexCount: nat, indexCount: nat)
    ensures vertexCount == 102 && indexCount == 96
  {
    var vertices, indices := CreateSectorGeometry(slantHeight, sectorAngle, PageSegments, cos, sin);
    vertexCount, indexCount := |vertices|, |indices|;
  }

  /** Scale of the side, the same along x and y: 1 closed, 0.02 open. */
  function SideScale(progress: real): (r: (real, real))
    ensures r.0 == r.1 == Lerp(1.0, 0.02, progress)
    ensures 0.0 <= progress <= 1.0 ==> 0.02 <= r.0 <= 1.0
  {
    (1.0 - progress * 0.98, 1.0 - progress * 0.98)
  }

  const BaseFoldedY: real := -Height / 2.0
  const BaseUnfoldedY: real := -Height / 2.0 - Radius - 1.0

  /** Height of the base: under the cone when closed, lowered clear of it when open. */
  function BaseY(progress: real): (r: real)
    ensures r == Lerp(BaseFoldedY, BaseUnfoldedY, progress)
  {
    BaseFoldedY + progress * (BaseUnfoldedY - BaseFoldedY)
  }

  /** The base starts at -1.5, ends at -3.7 and only goes down as the cone opens. */
  lemma BaseMovesDown(p: real, q: real)
    requires p <= q
    ensures BaseY(0.0) == -1.5 && BaseY(1.0) == -3.7
    ensures BaseY(q) <= BaseY(p)
  {
    LerpMonotone(BaseFoldedY, BaseUnfoldedY, p, q);
  }

  /** The flat sector is drawn from 0.3 on; its opacity is half the progress. */
  predicate SectorVisible(progress: real)
    ensures Drag.ShowsUnfolded(progress) ==> SectorVisible(progress)
  {
    progress > 0.3
  }

  function SectorOpacity(progress: real): (r: real)
    ensures 0.0 <= progress <= 1.0 ==> 0.0 <= r <= 0.5
  {
    0.5 * progress
  }

  /** The sector appears before the badge switches to "unfolding", and stays while it reads so. */
  lemma SectorBeforeStatus(progress: real)
    ensures Drag.ShowsUnfolded(progress) ==> SectorVisible(progress)
    ensures SectorVisible(0.4) && !Drag.ShowsUnfolded(0.4)
  {
  }

  /** The page: only the drag controller, starting folded. */
  class ConeNetPage {
    const drag: Drag.DragController

    ghost predicate Valid()
      reads this, drag
    {
      drag.Valid()
    }

    constructor ()
      ensures Valid() && fresh(drag)
      ensures drag.State() == Drag.Initial(0.0)
    {
      drag := new Drag.DragController(0.0);
    }

    /** The base height drawn now, always between its folded and unfolded heights. */
    function CurrentBaseY(): (r: real)
      reads this, drag
      requires Valid()
      ensures BaseUnfoldedY <= r <= BaseFoldedY
    {
      BaseY(drag.unfoldProgress)
    }
  }
}
