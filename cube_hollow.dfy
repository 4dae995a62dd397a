/**
 * The hollow-cube lesson: a 3 x 3 x 3 cube from which one 1 x 1 x 1 cube is
 * dug out at a corner, on an edge or at the centre of a face. The page looks
 * up, per kind of hollow, the change in surface area, how many unit faces are
 * removed and added, where the small cube sits, which of its faces show in
 * the hollow and which of them were part of the big cube's surface.
 */
module CubeHollow {
  import opened Geometry

  datatype HollowType = None | Corner | Edge | Face

  const CubeSize: int := 3
  const SmallCubeSize: int := 1

  /** The numbers of the calculation panel (its text is not modelled). */
  datatype AreaInfo = AreaInfo(change: int, newArea: int, removedFaces: nat, addedFaces: nat)

  function OriginalArea(): int
  {
    6 * CubeSize * CubeSize
  }

  /**
   * The lookup behind the calculation panel. Digging out a small cube removes
   * some unit squares of the surface and exposes others; the area changes by
   * their difference, never goes down, and digging always touches all six
   * faces of the small cube.
   */
  function SurfaceAreaInfo(t: HollowType): (r: AreaInfo)
    ensures r.newArea == OriginalArea() + r.change
    ensures r.change == (r.addedFaces - r.removedFaces) * SmallCubeSize * SmallCubeSize
    ensures r.change >= 0
    ensures t != None ==> r.removedFaces + r.addedFaces == 6 && r.removedFaces >= 1
    ensures t == None ==> r.removedFaces == 0 && r.addedFaces == 0
  {
    var originalArea := OriginalArea();
    match t
    case Corner => AreaInfo(0, originalArea, 3, 3)
    case Edge =>
      var edgeAdd := 2 * SmallCubeSize * SmallCubeSize;
      AreaInfo(edgeAdd, originalArea + edgeAdd, 2, 4)
    case Face =>
      var faceAdd := 4 * SmallCubeSize * SmallCubeSize;
      AreaInfo(faceAdd, originalArea + faceAdd, 1, 5)
    case None => AreaInfo(0, originalArea, 0, 0)
  }

  /** The areas the selector buttons advertise: 54, 54, 56 and 58. */
  lemma AreaValues()
    ensures OriginalArea() == 54
    ensures SurfaceAreaInfo(None).newArea == 54
    ensures SurfaceAreaInfo(Corner).newArea == 54
    ensures SurfaceAreaInfo(Edge).newArea == 56
    ensures SurfaceAreaInfo(Face).newArea == 58
  {
  }

  /** The fewer faces of the big cube a hollow touches, the more area it adds. */
  lemma FewerRemovedMoreArea(s: HollowType, t: HollowType)
    requires s != None && t != None
    requires SurfaceAreaInfo(s).removedFaces < SurfaceAreaInfo(t).removedFaces
    ensures SurfaceAreaInfo(s).newArea > SurfaceAreaInfo(t).newArea
  {
  }

  /**
   * Centre of the small cube for each kind of hollow: the corner and edge
   * hollows are flush with the front face, the face hollow rests on it.
   */
  function SmallCubePosition(t: HollowType): (r: Vec3)
    ensures t == None ==> r == Origin
    ensures t == Corner || t == Edge ==>
      r.z + SmallCubeSize as real / 2.0 == CubeSize as real / 2.0
    ensures t == Face ==> r.z - SmallCubeSize as real / 2.0 == CubeSize as real / 2.0
  {
    var c := CubeSize as real / 2.0;
    var h := SmallCubeSize as real / 2.0;
    match t
    case Corner => Vec3(c - h, c - h, c - h)
    case Edge => Vec3(0.0, c - h, c - h)
    case Face => Vec3(0.0, 0.0, c + h)
    case None => Vec3(0.0, 0.0, 0.0)
  }

  /** The small cube lies wholly inside the big one along an axis. */
  ghost predicate InsideAlong(centre: real)
  {
    -(CubeSize as real) / 2.0 <= centre - SmallCubeSize as real / 2.0 &&
    centre + SmallCubeSize as real / 2.0 <= CubeSize as real / 2.0
  }

  /**
   * The corner and edge hollows sit inside the big cube, flush with two or
   * three of its faces. The face hollow is centred half a unit outside the
   * front face instead: the small cube rests on the face, it is not sunk
   * into it.
   */
  lemma SmallCubePlacement()
    ensures var p := SmallCubePosition(Corner);
      InsideAlong(p.x) && InsideAlong(p.y) && InsideAlong(p.z) && p.x == p.y == p.z == 1.0
    ensures var p := SmallCubePosition(Edge);
      InsideAlong(p.x) && InsideAlong(p.y) && InsideAlong(p.z) && p.x == 0.0 && p.y == p.z == 1.0
    ensures var p := SmallCubePosition(Face);
      p.z == 2.0 && !InsideAlong(p.z) && p.z - SmallCubeSize as real / 2.0 == CubeSize as real / 2.0
  {
  }

  /**
   * Faces of the small cube by index: 0 front (+z), 1 back (-z), 2 right
   * (+x), 3 left (-x), 4 top (+y), 5 bottom (-y).
   */
  const SmallCubeFaceCount: nat := 6

  /** The coordinate of p along the axis face i of the small cube faces (0 x, 1 y, 2 z). */
  function AlongNormal(p: Vec3, i: nat): real
  {
    if i < 2 then p.z else if i < 4 then p.x else p.y
  }

  /** +1 for the faces that face the positive direction of their axis (the even ones), -1 otherwise. */
  function NormalSign(i: nat): real
  {
    if i % 2 == 0 then 1.0 else -1.0
  }

  /**
   * Face i of a small cube centred at p lies in the big cube's outer
   * surface, facing outwards.
   */
  ghost predicate OnBigSurface(p: Vec3, i: nat)
  {
    NormalSign(i) * AlongNormal(p, i) + SmallCubeSize as real / 2.0 == CubeSize as real / 2.0
  }

  /**
   * The faces of the small cube the source draws in the hollow, as new
   * faces. The table has the right length but lists the faces that lie in
   * the outer surface (see HollowTableAsWrittenOverlapsOriginal).
   */
  function VisibleSmallFacesAsWritten(t: HollowType): (r: seq<nat>)
    ensures ValidIndexList(r) && |r| == SurfaceAreaInfo(t).addedFaces
  {
    match t
    case Corner => [0, 2, 4]
    case Edge => [0, 2, 4, 5]
    case Face => [0, 2, 3, 4, 5]
    case None => []
  }

  /**
   * The source's hollow table paints new faces over the outer surface: for
   * every hollow it lists the front face, which lies in the surface and which
   * the extracted cube colours as original; for a corner it is the table of
   * original faces itself. The back face, which the extracted cube colours as
   * new, is never drawn in the hollow.
   */
  lemma HollowTableAsWrittenOverlapsOriginal(t: HollowType)
    requires t != None
    ensures 0 in VisibleSmallFacesAsWritten(t) && IsOriginalFace(t, 0)
    ensures 1 !in VisibleSmallFacesAsWritten(t) && !IsOriginalFace(t, 1)
    ensures t == Corner ==> VisibleSmallFacesAsWritten(t) == OriginalFaceIndices(t)
    ensures t == Corner ==> OnBigSurface(SmallCubePosition(t), 0)
  {
  }

  /**
   * The faces of the small cube drawn in the hollow, as new faces: the walls
   * the hollow exposes, which are the faces that were not part of the big
   * cube's surface. The list has as many entries as the panel adds faces,
   * and the hollow and the surface share none of the six faces.
   */
  function VisibleSmallFaces(t: HollowType): (r: seq<nat>)
    ensures ValidIndexList(r) && |r| == SurfaceAreaInfo(t).addedFaces
    ensures r == [] <==> t == None
  {
    match t
    case Corner => [1, 3, 5]
    case Edge => [1, 2, 3, 5]
    case Face => [1, 2, 3, 4, 5]
    case None => []
  }

  /** The faces of the dug-out cube that were part of the big cube's surface. */
  function OriginalFaceIndices(t: HollowType): (r: seq<nat>)
    ensures ValidIndexList(r) && |r| == SurfaceAreaInfo(t).removedFaces
    ensures r == [] <==> t == None
  {
    match t
    case Corner => [0, 2, 4]
    case Edge => [0, 4]
    case Face => [0]
    case None => []
  }

  ghost predicate ValidIndexList(s: seq<nat>)
  {
    && (forall i :: 0 <= i < |s| ==> s[i] < SmallCubeFaceCount)
    && DistinctSeq(s)
  }

  /**
   * For the corner and the edge hollow, the table of original faces lists
   * exactly the faces of the small cube that lie in the big cube's outer
   * surface.
   */
  lemma OriginalFacesOnSurface(t: HollowType, i: nat)
    requires t == Corner || t == Edge
    requires i < SmallCubeFaceCount
    ensures IsOriginalFace(t, i) <==> OnBigSurface(SmallCubePosition(t), i)
  {
    if i == 0 {
    } else if i == 1 {
    } else if i == 2 {
    } else if i == 3 {
    } else if i == 4 {
    } else {
    }
  }

  /**
   * The hollow and the surface split the six faces of the small cube: each
   * face is either drawn in the hollow or listed as original, never both.
   */
  lemma HollowTablesPartitionFaces(t: HollowType, i: nat)
    requires t != None
    requires i < SmallCubeFaceCount
    ensures i in VisibleSmallFaces(t) <==> !IsOriginalFace(t, i)
  {
  }

  /**
   * The tables nest. From corner to edge to face the hollow touches fewer
   * faces of the big cube and shows more new faces.
   */
  lemma IndexTablesNest()
    ensures Elements(OriginalFaceIndices(Face)) < Elements(OriginalFaceIndices(Edge))
    ensures Elements(OriginalFaceIndices(Edge)) < Elements(OriginalFaceIndices(Corner))
    ensures Elements(VisibleSmallFaces(Corner)) < Elements(VisibleSmallFaces(Edge))
    ensures Elements(VisibleSmallFaces(Edge)) < Elements(VisibleSmallFaces(Face))
  {
    assert 4 in Elements(OriginalFaceIndices(Edge)) && 2 in Elements(OriginalFaceIndices(Corner));
    assert 2 in Elements(VisibleSmallFaces(Edge)) && 4 in Elements(VisibleSmallFaces(Face));
  }

  function Elements(s: seq<nat>): (r: set<nat>)
    ensures forall x :: x in r <==> x in s
  {
    set x | x in s
  }

  /** A face of the dug-out cube is drawn in the "original" colour exactly when the table lists it. */
  predicate IsOriginalFace(t: HollowType, i: nat)
  {
    i in OriginalFaceIndices(t)
  }

  /** The faces among the first n of the dug-out cube that are drawn in the "new" colour. */
  ghost function NewFaceSet(t: HollowType, n: nat): set<nat>
  {
    set i: nat | i < n && !IsOriginalFace(t, i)
  }

  /** How many of the first n faces of the dug-out cube are drawn in the "new" colour. */
  function CountNewFaces(t: HollowType, n: nat): (r: nat)
    ensures r == |NewFaceSet(t, n)|
    decreases n
  {
    if n == 0 then
      assert NewFaceSet(t, 0) == {};
      0
    else
      var r := CountNewFaces(t, n - 1);
      var last: set<nat> := if IsOriginalFace(t, n - 1) then {} else {n - 1};
      assert NewFaceSet(t, n) == NewFaceSet(t, n - 1) + last;
      assert n - 1 !in NewFaceSet(t, n - 1);
      r + (if IsOriginalFace(t, n - 1) then 0 else 1)
  }

  /**
   * Taken out of the hollow, the small cube colours as new exactly the faces
   * the hollow shows, as many as the panel says were added; the rest are
   * original.
   */
  lemma ExtractedCubeColouring(t: HollowType)
    ensures t != None ==> NewFaceSet(t, SmallCubeFaceCount) == Elements(VisibleSmallFaces(t))
    ensures t != None ==> CountNewFaces(t, SmallCubeFaceCount) == SurfaceAreaInfo(t).addedFaces
    ensures CountNewFaces(t, SmallCubeFaceCount) == SmallCubeFaceCount - |OriginalFaceIndices(t)|
  {
    forall i: nat | t != None && i < SmallCubeFaceCount
      ensures i in NewFaceSet(t, SmallCubeFaceCount) <==> i in Elements(VisibleSmallFaces(t))
    {
      HollowTablesPartitionFaces(t, i);
    }
    var n := CountNewFaces(t, SmallCubeFaceCount);
  }

  /**
   * The offset of the dug-out cube: none while it is in place, and up, to
   * the right and towards the viewer when it is extracted.
   */
  function ExtractedOffset(isExtracted: bool): (r: Vec3)
    ensures !isExtracted ==> r == Origin
    ensures isExtracted ==> r.x > 0.0 && r.y > 0.0 && r.z > 0.0
  {
    if isExtracted then Vec3(2.5, 1.5, 2.0) else Vec3(0.0, 0.0, 0.0)
  }

  /**
   * Where the dug-out cube is drawn: in the hollow while in place; when it is
   * extracted, displaced by the offset, which puts it wholly to the right of
   * the big cube.
   */
  function ExtractedCubePosition(t: HollowType, isExtracted: bool): (r: Vec3)
    ensures !isExtracted ==> r == SmallCubePosition(t)
    ensures isExtracted ==> r == Add(SmallCubePosition(t), Vec3(2.5, 1.5, 2.0))
    ensures isExtracted && t != None ==>
      r.x - SmallCubeSize as real / 2.0 >= CubeSize as real / 2.0
  {
    Add(SmallCubePosition(t), ExtractedOffset(isExtracted))
  }

  /** The page's state: which hollow is shown, whether the small cube is out, whether the panel is open. */
  class HollowPage {
    var hollowType: HollowType
    var isExtracted: bool
    var showCalculation: bool

    constructor ()
      ensures hollowType == None && !isExtracted && showCalculation
    {
      hollowType := None;
      isExtracted := false;
      showCalculation := true;
    }

    /** A selector button: a new kind of hollow always starts with its small cube in place. */
    method ChangeType(t: HollowType)
      modifies this
      ensures hollowType == t && !isExtracted
      ensures showCalculation == old(showCalculation)
    {
      hollowType := t;
      isExtracted := false;
    }

    /** The extract button, which is only shown while there is a hollow. */
    method ToggleExtracted()
      requires hollowType != None
      modifies this
      ensures isExtracted == !old(isExtracted)
      ensures hollowType == old(hollowType) && showCalculation == old(showCalculation)
    {
      isExtracted := !isExtracted;
    }

    /** The panel's show/hide button. */
    method ToggleCalculation()
      modifies this
      ensures showCalculation == !old(showCalculation)
      ensures hollowType == old(hollowType) && isExtracted == old(isExtracted)
    {
      showCalculation := !showCalculation;
    }

    /** Where the dug-out cube is drawn in the current state. */
    function CubePosition(): (r: Vec3)
      reads this
      ensures !isExtracted ==> r == SmallCubePosition(hollowType)
    {
      ExtractedCubePosition(hollowType, isExtracted)
    }
  }
}
