/**
 * Cube nets as static tables of faces. Each face has an unfolded pose (a cell
 * of the flat net) and a folded pose (a face of the assembled cube).
 *
 * Units: positions are integers counted in half face widths, so a face is 2
 * units wide, neighbouring cells of the net are 2 apart and the face centres
 * of the folded cube sit at +-1 on one axis. Rotations are integers counted in
 * quarter turns (k stands for k * pi/2 radians). Both registries of the
 * source fit these units: the 11 nets take face width 1 (so a unit is 0.5)
 * and the cross of the two-state demo takes face width 2 (a unit is 1).
 */
module Nets {
  import opened Geometry

  datatype IVec = IVec(x: int, y: int, z: int)

  const Zero: IVec := IVec(0, 0, 0)


  /** One face: its text, its unfolded pose and its folded pose. */
  datatype NetFace = NetFace(tag: string, pos: IVec, rot: IVec, foldedPos: IVec, foldedRot: IVec)

  /**
   * The six face centres of the assembled cube, each with the Euler rotation
   * (in quarter turns) that turns a face lying in the z = 0 plane outward
   * onto it: top (-pi/2 about x), left (-pi/2 about y), front (none),
   * right (pi/2 about y), back (pi about y), bottom (pi/2 about x).
   */
  const CubeFaces: seq<(IVec, IVec)> := [
    (IVec(0, 1, 0), IVec(-1, 0, 0)),
    (IVec(-1, 0, 0), IVec(0, -1, 0)),
    (IVec(0, 0, 1), IVec(0, 0, 0)),
    (IVec(1, 0, 0), IVec(0, 1, 0)),
    (IVec(0, 0, -1), IVec(0, 2, 0)),
    (IVec(0, -1, 0), IVec(1, 0, 0))
  ]

  function FoldedPoses(fs: seq<NetFace>): (r: seq<(IVec, IVec)>)
    ensures |r| == |fs|
    ensures forall i :: 0 <= i < |fs| ==> r[i] == (fs[i].foldedPos, fs[i].foldedRot)
  {
    seq(|fs|, i requires 0 <= i < |fs| => (fs[i].foldedPos, fs[i].foldedRot))
  }

  /**
   * Folding sends the faces one to one onto the cube's faces: every folded
   * pose is one of the cube's six, and no two faces land on the same centre.
   * With six faces this makes the folded poses a permutation of the cube's
   * (FoldsOntoCubeIsPermutation).
   */
  ghost predicate FoldsOntoCube(fs: seq<NetFace>)
  {
    && |fs| == |CubeFaces|
    && (forall i :: 0 <= i < |fs| ==> (fs[i].foldedPos, fs[i].foldedRot) in CubeFaces)
    && (forall i, j :: 0 <= i < j < |fs| ==> fs[i].foldedPos != fs[j].foldedPos)
  }

  /** Every unfolded pose lies in the z = 0 plane with no rotation. */
  ghost predicate Flat(fs: seq<NetFace>)
  {
    forall i :: 0 <= i < |fs| ==> fs[i].pos.z == 0 && fs[i].rot == Zero
  }

  /** All unfolded cells sit on one grid whose spacing is a face width. */
  ghost predicate OnGrid(fs: seq<NetFace>)
  {
    forall i :: 0 <= i < |fs| ==>
      (fs[i].pos.x - fs[0].pos.x) % 2 == 0 && (fs[i].pos.y - fs[0].pos.y) % 2 == 0
  }

  /** No two faces share a cell of the flat net. */
  ghost predicate DistinctCells(fs: seq<NetFace>)
  {
    forall i, j :: 0 <= i < j < |fs| ==> fs[i].pos != fs[j].pos
  }

  /** Two cells of the grid share an edge. */
  predicate Adjacent(a: IVec, b: IVec)
  {
    || (a.y == b.y && a.z == b.z && (a.x - b.x == 2 || b.x - a.x == 2))
    || (a.x == b.x && a.z == b.z && (a.y - b.y == 2 || b.y - a.y == 2))
  }

  /** A walk through the net: a sequence of face indices, each step to an edge neighbour. */
  ghost predicate Walk(fs: seq<NetFace>, w: seq<nat>)
  {
    && |w| > 0
    && (forall k :: 0 <= k < |w| ==> w[k] < |fs|)
    && (forall k :: 0 <= k < |w| - 1 ==> Adjacent(fs[w[k]].pos, fs[w[k + 1]].pos))
  }

  ghost predicate Reachable(fs: seq<NetFace>, i: nat)
  {
    exists w :: Walk(fs, w) && w[0] == 0 && w[|w| - 1] == i
  }

  /** The net is one piece: every face can be reached from the first by crossing edges. */
  ghost predicate Connected(fs: seq<NetFace>)
  {
    forall i: nat :: i < |fs| ==> Reachable(fs, i)
  }

  /** Every face shares an edge with at least one other face. */
  ghost predicate EveryFaceHasNeighbour(fs: seq<NetFace>)
  {
    forall i :: 0 <= i < |fs| ==> HasNeighbour(fs, i)
  }

  ghost predicate HasNeighbour(fs: seq<NetFace>, i: int)
    requires 0 <= i < |fs|
  {
    exists j :: 0 <= j < |fs| && j != i && Adjacent(fs[i].pos, fs[j].pos)
  }

  /**
   * The conditions the tables of a cube net meet: six distinct flat cells on
   * one grid, in one piece, labelled one to one with the poses of the cube's
   * faces. Nothing here relates a cell to the pose it is labelled with, so
   * this does not say that folding the layout produces those poses.
   */
  ghost predicate IsCubeNet(fs: seq<NetFace>)
  {
    && |fs| == 6
    && FoldsOntoCube(fs)
    && Flat(fs)
    && OnGrid(fs)
    && DistinctCells(fs)
    && Connected(fs)
  }

  /** Two faces: if they share an edge in the net, they do not fold onto opposite faces. */
  predicate ApartIfOpposite(a: NetFace, b: NetFace)
  {
    Adjacent(a.pos, b.pos) ==>
      || b.foldedPos.x != -a.foldedPos.x
      || b.foldedPos.y != -a.foldedPos.y
      || b.foldedPos.z != -a.foldedPos.z
  }

  /**
   * Faces that are opposite on the cube (their folded centres mirror each
   * other through the cube's centre) never share an edge in the net. Both
   * relations are symmetric, so each unordered pair is looked at once.
   */
  ghost predicate OppositesApart(fs: seq<NetFace>)
  {
    forall i, j :: 0 <= i < j < |fs| ==> ApartIfOpposite(fs[i], fs[j])
  }

  // The lemmas below reduce a property of a six-face table to facts about
  // its faces at fixed indices, which are cheap to check on a literal table.

  lemma FoldsOntoCubeOfSix(fs: seq<NetFace>)
    requires |fs| == 6
    requires (fs[0].foldedPos, fs[0].foldedRot) in CubeFaces && (fs[1].foldedPos, fs[1].foldedRot) in CubeFaces
    requires (fs[2].foldedPos, fs[2].foldedRot) in CubeFaces && (fs[3].foldedPos, fs[3].foldedRot) in CubeFaces
    requires (fs[4].foldedPos, fs[4].foldedRot) in CubeFaces && (fs[5].foldedPos, fs[5].foldedRot) in CubeFaces
    requires fs[0].foldedPos != fs[1].foldedPos && fs[0].foldedPos != fs[2].foldedPos && fs[0].foldedPos != fs[3].foldedPos
    requires fs[0].foldedPos != fs[4].foldedPos && fs[0].foldedPos != fs[5].foldedPos && fs[1].foldedPos != fs[2].foldedPos
    requires fs[1].foldedPos != fs[3].foldedPos && fs[1].foldedPos != fs[4].foldedPos && fs[1].foldedPos != fs[5].foldedPos
    requires fs[2].foldedPos != fs[3].foldedPos && fs[2].foldedPos != fs[4].foldedPos && fs[2].foldedPos != fs[5].foldedPos
    requires fs[3].foldedPos != fs[4].foldedPos && fs[3].foldedPos != fs[5].foldedPos && fs[4].foldedPos != fs[5].foldedPos
    ensures FoldsOntoCube(fs)
  {
    forall i | 0 <= i < 6
      ensures (fs[i].foldedPos, fs[i].foldedRot) in CubeFaces
    {
      if i == 0 { } else if i == 1 { } else if i == 2 { } else if i == 3 { } else if i == 4 { } else { }
    }
    DistinctFoldedOfSix(fs);
  }

  lemma DistinctFoldedOfSix(fs: seq<NetFace>)
    requires |fs| == 6
    requires fs[0].foldedPos != fs[1].foldedPos && fs[0].foldedPos != fs[2].foldedPos && fs[0].foldedPos != fs[3].foldedPos
    requires fs[0].foldedPos != fs[4].foldedPos && fs[0].foldedPos != fs[5].foldedPos && fs[1].foldedPos != fs[2].foldedPos
    requires fs[1].foldedPos != fs[3].foldedPos && fs[1].foldedPos != fs[4].foldedPos && fs[1].foldedPos != fs[5].foldedPos
    requires fs[2].foldedPos != fs[3].foldedPos && fs[2].foldedPos != fs[4].foldedPos && fs[2].foldedPos != fs[5].foldedPos
    requires fs[3].foldedPos != fs[4].foldedPos && fs[3].foldedPos != fs[5].foldedPos && fs[4].foldedPos != fs[5].foldedPos
    ensures forall i, j :: 0 <= i < j < |fs| ==> fs[i].foldedPos != fs[j].foldedPos
  {
  }

  lemma DistinctCellsOfSix(fs: seq<NetFace>)
    requires |fs| == 6
    requires fs[0].pos != fs[1].pos && fs[0].pos != fs[2].pos && fs[0].pos != fs[3].pos
    requires fs[0].pos != fs[4].pos && fs[0].pos != fs[5].pos && fs[1].pos != fs[2].pos
    requires fs[1].pos != fs[3].pos && fs[1].pos != fs[4].pos && fs[1].pos != fs[5].pos
    requires fs[2].pos != fs[3].pos && fs[2].pos != fs[4].pos && fs[2].pos != fs[5].pos
    requires fs[3].pos != fs[4].pos && fs[3].pos != fs[5].pos && fs[4].pos != fs[5].pos
    ensures DistinctCells(fs)
  {
  }

  lemma OppositesApartOfSix(fs: seq<NetFace>)
    requires |fs| == 6
    requires ApartIfOpposite(fs[0], fs[1]) && ApartIfOpposite(fs[0], fs[2]) && ApartIfOpposite(fs[0], fs[3])
    requires ApartIfOpposite(fs[0], fs[4]) && ApartIfOpposite(fs[0], fs[5]) && ApartIfOpposite(fs[1], fs[2])
    requires ApartIfOpposite(fs[1], fs[3]) && ApartIfOpposite(fs[1], fs[4]) && ApartIfOpposite(fs[1], fs[5])
    requires ApartIfOpposite(fs[2], fs[3]) && ApartIfOpposite(fs[2], fs[4]) && ApartIfOpposite(fs[2], fs[5])
    requires ApartIfOpposite(fs[3], fs[4]) && ApartIfOpposite(fs[3], fs[5]) && ApartIfOpposite(fs[4], fs[5])
    ensures OppositesApart(fs)
  {
  }

  /**
   * A spanning tree of the net rooted at face 0: every other face has a parent
   * it shares an edge with, one level closer to the root.
   */
  ghost predicate SpanningTree(fs: seq<NetFace>, parent: seq<nat>, depth: seq<nat>)
  {
    && |fs| > 0 && |parent| == |fs| && |depth| == |fs|
    && depth[0] == 0
    && forall i :: 0 < i < |fs| ==>
         parent[i] < |fs| && depth[i] == depth[parent[i]] + 1 && Adjacent(fs[parent[i]].pos, fs[i].pos)
  }

  lemma TreeReaches(fs: seq<NetFace>, parent: seq<nat>, depth: seq<nat>, i: nat)
    requires SpanningTree(fs, parent, depth)
    requires i < |fs|
    ensures Reachable(fs, i)
    decreases depth[i]
  {
    if i == 0 {
      assert Walk(fs, [0]);
    } else {
      var p := parent[i];
      TreeReaches(fs, parent, depth, p);
      var w :| Walk(fs, w) && w[0] == 0 && w[|w| - 1] == p;
      var w' := w + [i];
      assert w'[|w'| - 2] == p;
      assert Walk(fs, w');
    }
  }

  /** A spanning tree witnesses that the net is one piece. */
  lemma TreeConnected(fs: seq<NetFace>, parent: seq<nat>, depth: seq<nat>)
    requires SpanningTree(fs, parent, depth)
    ensures Connected(fs)
  {
    forall i: nat | i < |fs|
      ensures Reachable(fs, i)
    {
      TreeReaches(fs, parent, depth, i);
    }
  }

  lemma SpanningTreeOfSix(fs: seq<NetFace>, parent: seq<nat>, depth: seq<nat>)
    requires |fs| == 6 && |parent| == 6 && |depth| == 6 && depth[0] == 0
    requires parent[1] < 6 && depth[1] == depth[parent[1]] + 1 && Adjacent(fs[parent[1]].pos, fs[1].pos)
    requires parent[2] < 6 && depth[2] == depth[parent[2]] + 1 && Adjacent(fs[parent[2]].pos, fs[2].pos)
    requires parent[3] < 6 && depth[3] == depth[parent[3]] + 1 && Adjacent(fs[parent[3]].pos, fs[3].pos)
    requires parent[4] < 6 && depth[4] == depth[parent[4]] + 1 && Adjacent(fs[parent[4]].pos, fs[4].pos)
    requires parent[5] < 6 && depth[5] == depth[parent[5]] + 1 && Adjacent(fs[parent[5]].pos, fs[5].pos)
    ensures SpanningTree(fs, parent, depth)
  {
  }

  /**
   * What has to be checked of a six-face table for `IsCubeNet`: its folded
   * poses cover the cube, it lies flat, has no overlap and is one piece;
   * being on one grid follows.
   */
  lemma CubeNetFromParts(fs: seq<NetFace>)
    requires |fs| == 6 && FoldsOntoCube(fs) && Flat(fs) && DistinctCells(fs) && Connected(fs)
    ensures IsCubeNet(fs)
  {
    ConnectedOnGrid(fs);
  }

  /** In a connected net of two or more faces, no face is left dangling on its own. */
  lemma ConnectedHasNeighbours(fs: seq<NetFace>)
    requires Connected(fs) && |fs| >= 2
    ensures EveryFaceHasNeighbour(fs)
  {
    forall i | 0 <= i < |fs|
      ensures HasNeighbour(fs, i)
    {
      var target: nat := if i == 0 then 1 else i;
      assert Reachable(fs, target);
      var w :| Walk(fs, w) && w[0] == 0 && w[|w| - 1] == target;
      assert |w| >= 2;
      var j := if i == 0 then w[1] else w[|w| - 2];
      if i == 0 {
        assert Adjacent(fs[w[0]].pos, fs[w[1]].pos);
      } else {
        var k := |w| - 2;
        assert Adjacent(fs[w[k]].pos, fs[w[k + 1]].pos);
      }
      assert 0 <= j < |fs| && j != i && Adjacent(fs[i].pos, fs[j].pos);
    }
  }

  /** Each step of a walk moves by a whole face width, so a walk never leaves the grid of its start. */
  lemma {:induction false} WalkStaysOnGrid(fs: seq<NetFace>, w: seq<nat>, k: nat)
    requires Walk(fs, w) && k < |w|
    ensures (fs[w[k]].pos.x - fs[w[0]].pos.x) % 2 == 0
    ensures (fs[w[k]].pos.y - fs[w[0]].pos.y) % 2 == 0
  {
    if k > 0 {
      WalkStaysOnGrid(fs, w, k - 1);
      var a, b, c := fs[w[k - 1]].pos, fs[w[k]].pos, fs[w[0]].pos;
      assert Adjacent(a, b);
      assert b.x - c.x == (a.x - c.x) + (b.x - a.x);
      assert b.y - c.y == (a.y - c.y) + (b.y - a.y);
    }
  }

  /** A connected net needs no separate grid check: every cell is a whole number of steps from the first. */
  lemma ConnectedOnGrid(fs: seq<NetFace>)
    requires Connected(fs)
    ensures OnGrid(fs)
  {
    forall i | 0 <= i < |fs|
      ensures (fs[i].pos.x - fs[0].pos.x) % 2 == 0 && (fs[i].pos.y - fs[0].pos.y) % 2 == 0
    {
      assert Reachable(fs, i);
      var w :| Walk(fs, w) && w[0] == 0 && w[|w| - 1] == i;
      WalkStaysOnGrid(fs, w, |w| - 1);
    }
  }

  /** The cube's face poses pair each centre with one rotation only. */
  lemma CentreFixesRotation(c: IVec, r1: IVec, r2: IVec)
    requires (c, r1) in CubeFaces && (c, r2) in CubeFaces
    ensures r1 == r2
  {
  }

  /**
   * Two duplicate-free sequences of the same length, the first drawn from the
   * second, hold the same elements: the first is a permutation of the second.
   */
  lemma {:induction false} DistinctCover<T>(s: seq<T>, t: seq<T>)
    requires DistinctSeq(s) && DistinctSeq(t) && |s| == |t|
    requires forall i :: 0 <= i < |s| ==> s[i] in t
    ensures multiset(s) == multiset(t)
    decreases |s|
  {
    if |s| > 0 {
      var x := s[0];
      var k :| 0 <= k < |t| && t[k] == x;
      var t' := RemoveAt(t, k);
      forall i | 0 <= i < |s[1..]|
        ensures s[1..][i] in t'
      {
        assert s[1..][i] == s[i + 1] != s[0];
      }
      DistinctCover(s[1..], t');
      assert s == [x] + s[1..];
    }
  }

  /** `t` with the element at index k taken out. */
  function RemoveAt<T>(t: seq<T>, k: nat): (r: seq<T>)
    requires k < |t| && DistinctSeq(t)
    ensures |r| == |t| - 1 && DistinctSeq(r)
    ensures multiset(t) == multiset(r) + multiset{t[k]}
    ensures forall y :: y in t && y != t[k] ==> y in r
  {
    var r := t[..k] + t[k + 1..];
    assert t == t[..k] + [t[k]] + t[k + 1..];
    forall i, j | 0 <= i < j < |r|
      ensures r[i] != r[j]
    {
      var i' := if i < k then i else i + 1;
      var j' := if j < k then j else j + 1;
      assert r[i] == t[i'] && r[j] == t[j'];
    }
    r
  }

  /**
   * Folding onto the cube makes the folded poses a permutation of the cube's
   * six face poses: every face of the cube is covered by exactly one face.
   */
  lemma FoldsOntoCubeIsPermutation(fs: seq<NetFace>)
    requires FoldsOntoCube(fs)
    ensures multiset(FoldedPoses(fs)) == multiset(CubeFaces)
    ensures forall c :: c in CubeFaces ==> exists i :: 0 <= i < |fs| && FoldedPoses(fs)[i] == c
  {
    var s := FoldedPoses(fs);
    forall i, j | 0 <= i < j < |s|
      ensures s[i] != s[j]
    {
      assert s[i].0 == fs[i].foldedPos && s[j].0 == fs[j].foldedPos;
    }
    DistinctCover(s, CubeFaces);
    forall c | c in CubeFaces
      ensures exists i :: 0 <= i < |fs| && s[i] == c
    {
      assert c in multiset(s);
    }
  }

  // Conversion of a table face to the real-valued poses the interpolator works on.

  function ToReal(v: IVec, unit: real): Vec3
  {
    Vec3(v.x as real * unit, v.y as real * unit, v.z as real * unit)
  }

  function FoldedPose(f: NetFace, unit: real): Pose
  {
    Pose(ToReal(f.foldedPos, unit), ToReal(f.foldedRot, 1.0))
  }

  function UnfoldedPose(f: NetFace, unit: real): Pose
  {
    Pose(ToReal(f.pos, unit), ToReal(f.rot, 1.0))
  }

  /**
   * The pose a face is shown at for progress p (Face3D's effect). At p = 0
   * each face of a valid net sits on a centre of the assembled cube; at p = 1
   * it lies flat in the z = 0 plane, unrotated.
   */
  function FaceAt(f: NetFace, unit: real, p: real): (r: Pose)
    ensures p == 0.0 ==> r == FoldedPose(f, unit)
    ensures p == 1.0 ==> r == UnfoldedPose(f, unit)
  {
    Interpolate(FoldedPose(f, unit), UnfoldedPose(f, unit), p)
  }

  /**
   * At progress 0 the faces of a cube net sit on the centres of the assembled
   * cube, two faces never on the same one; at progress 1 they lie flat in the
   * z = 0 plane, unrotated.
   */
  lemma NetEndPoses(fs: seq<NetFace>, unit: real, i: int, j: int)
    requires IsCubeNet(fs) && 0 <= i < |fs| && 0 <= j < |fs| && i != j
    ensures exists k :: (0 <= k < 6 &&
      FaceAt(fs[i], unit, 0.0) == Pose(ToReal(CubeFaces[k].0, unit), ToReal(CubeFaces[k].1, 1.0)))
    ensures unit != 0.0 ==> FaceAt(fs[i], unit, 0.0).position != FaceAt(fs[j], unit, 0.0).position
    ensures FaceAt(fs[i], unit, 1.0).position.z == 0.0
    ensures FaceAt(fs[i], unit, 1.0).rotation == Origin
  {
    var k :| 0 <= k < 6 && CubeFaces[k] == (fs[i].foldedPos, fs[i].foldedRot);
    var a, b := fs[i].foldedPos, fs[j].foldedPos;
    assert a != b by {
      if i < j { } else { }
    }
    if unit != 0.0 && ToReal(a, unit) == ToReal(b, unit) {
      ScaleCancels(a.x as real, b.x as real, unit);
      ScaleCancels(a.y as real, b.y as real, unit);
      ScaleCancels(a.z as real, b.z as real, unit);
    }
  }

  lemma ScaleCancels(a: real, b: real, c: real)
    requires c != 0.0 && a * c == b * c
    ensures a == b
  {
    assert (a - b) * c == 0.0;
  }
}
