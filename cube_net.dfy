/**
 * The two-state cube-net demo: a cross-shaped net of six faces that two
 * buttons fold into a cube and unfold again. Faces are 2 wide in the page's
 * coordinates, which are the units of the Nets module (a unit is 1).
 */
module CubeNet {
  import opened Geometry
  import opened Nets
  import CubeNetAll

  /** The table's coordinates are in Nets units already. */
  const Unit: real := 1.0

  /**
   *      top
   * left front right back
   *      bottom
   */
  const Faces: seq<NetFace> := [
    NetFace("前", IVec(0, 0, 0), Zero, IVec(0, 0, 1), IVec(0, 0, 0)),
    NetFace("上", IVec(0, 2, 0), Zero, IVec(0, 1, 0), IVec(-1, 0, 0)),
    NetFace("下", IVec(0, -2, 0), Zero, IVec(0, -1, 0), IVec(1, 0, 0)),
    NetFace("左", IVec(-2, 0, 0), Zero, IVec(-1, 0, 0), IVec(0, -1, 0)),
    NetFace("右", IVec(2, 0, 0), Zero, IVec(1, 0, 0), IVec(0, 1, 0)),
    NetFace("后", IVec(4, 0, 0), Zero, IVec(0, 0, -1), IVec(0, 2, 0))
  ]

  /** The pose a face animates towards: the folded one when folded, the unfolded one otherwise. */
  function TargetPose(isFolded: bool, f: NetFace): (r: Pose)
    ensures r == FaceAt(f, Unit, if isFolded then 0.0 else 1.0)
  {
    if isFolded then FoldedPose(f, Unit) else UnfoldedPose(f, Unit)
  }

  lemma CrossFolds()
    ensures FoldsOntoCube(Faces) && DistinctCells(Faces)
  {
    FoldsOntoCubeOfSix(Faces);
    DistinctCellsOfSix(Faces);
  }

  /** Every face hangs off the front face, except the back face, which hangs off the right one. */
  lemma CrossConnected()
    ensures Connected(Faces)
  {
    SpanningTreeOfSix(Faces, [0, 0, 0, 0, 0, 4], [0, 1, 1, 1, 1, 2]);
    TreeConnected(Faces, [0, 0, 0, 0, 0, 4], [0, 1, 1, 1, 1, 2]);
  }

  /** The cross meets `IsCubeNet`. */
  lemma CrossIsCubeNet()
    ensures IsCubeNet(Faces)
  {
    CrossFolds();
    CrossConnected();
    CubeNetFromParts(Faces);
  }

  /** Opposite faces of the cube are never neighbours in the cross. */
  lemma CrossKeepsOppositesApart()
    ensures OppositesApart(Faces)
  {
    OppositesApartOfSix(Faces);
  }

  /** Each face carries its own label. */
  lemma LabelsDistinct()
    ensures forall i, j :: 0 <= i < j < |Faces| ==> Faces[i].tag != Faces[j].tag
  {
  }

  /**
   * The cross is entry 5 of the eleven-net registry (a 1-4-1 net with its
   * top and bottom cells over the second cell of the row), shifted one unit
   * right and listed in another order: each face keeps its folded pose.
   */
  lemma CrossIsRegistryEntryFive()
    ensures CubeNetAll.CubeNetTypes[4].id == 5
    ensures forall i :: 0 <= i < 6 ==>
      var g := CubeNetAll.CubeNetTypes[4].layout[[2, 0, 5, 1, 3, 4][i]];
      && Faces[i].pos == IVec(g.pos.x + 1, g.pos.y, g.pos.z)
      && Faces[i].foldedPos == g.foldedPos
      && Faces[i].foldedRot == g.foldedRot
  {
    CubeNetAll.BadgeMatchesEntry(4);
    var e := CubeNetAll.CubeNet141[4].layout;
    assert Faces[0].pos == IVec(e[2].pos.x + 1, e[2].pos.y, e[2].pos.z);
  }

  /**
   * Folded, the six faces sit on six different centres of the cube, one unit
   * from the middle; unfolded, they lie flat and unrotated.
   */
  lemma TargetPoses(i: nat, j: nat)
    requires i < 6 && j < 6 && i != j
    ensures exists c :: (0 <= c < 6 &&
      TargetPose(true, Faces[i]) == Pose(ToReal(CubeFaces[c].0, Unit), ToReal(CubeFaces[c].1, 1.0)))
    ensures TargetPose(true, Faces[i]).position != TargetPose(true, Faces[j]).position
    ensures TargetPose(false, Faces[i]).position.z == 0.0
    ensures TargetPose(false, Faces[i]).rotation == Origin
  {
    CrossIsCubeNet();
    NetEndPoses(Faces, Unit, i, j);
  }

  /**
   * The pose each face group is created with, before any animation: the
   * net's flat layout, the pose the interpolation reaches at progress 1.
   */
  function MountPose(f: NetFace): (r: Pose)
    ensures r == FaceAt(f, Unit, 1.0)
  {
    UnfoldedPose(f, Unit)
  }

  /**
   * A freshly opened page sends every face to the pose it is mounted at, so
   * nothing moves on load.
   */
  method MountedAtTarget() returns (targets: seq<Pose>)
    ensures |targets| == |Faces|
    ensures forall i :: 0 <= i < |Faces| ==> targets[i] == MountPose(Faces[i])
  {
    var page := new CubeNetPage();
    var folded := page.isFolded;
    targets := seq(|Faces|, i requires 0 <= i < |Faces| => TargetPose(folded, Faces[i]));
  }

  datatype Button = UnfoldButton | FoldButton

  /** The state after a press: each button sets an absolute value. */
  function AfterPress(isFolded: bool, b: Button): (r: bool)
    ensures r <==> b == FoldButton
  {
    match b
    case UnfoldButton => false
    case FoldButton => true
  }

  /** Pressing a button twice is pressing it once, and only the last press counts. */
  lemma PressesDoNotToggle(s: bool, a: Button, b: Button)
    ensures AfterPress(AfterPress(s, b), b) == AfterPress(s, b)
    ensures AfterPress(AfterPress(s, a), b) == AfterPress(s, b)
    ensures AfterPress(s, FoldButton) && !AfterPress(s, UnfoldButton)
  {
  }

  /** The page's one piece of state; it opens unfolded. */
  class CubeNetPage {
    var isFolded: bool

    constructor ()
      ensures !isFolded
    {
      isFolded := false;
    }

    /** A click on the "unfold" or the "fold" button. */
    method Press(b: Button)
      modifies this
      ensures isFolded == AfterPress(old(isFolded), b)
    {
      match b {
        case UnfoldButton => isFolded := false;
        case FoldButton => isFolded := true;
      }
    }
  }
}
