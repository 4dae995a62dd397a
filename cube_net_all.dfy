/**
 * The registry of the eleven cube nets and the page that shows them. Each
 * net is a table of six faces in the units of the Nets module: face width 1
 * in the page's own coordinates, so a unit is 0.5 there. The registry is the
 * concatenation of four families named after the number of cells in each
 * row of the net, top to bottom (1-4-1, 2-3-1, 2-2-2, 3-3).
 */
module CubeNetAll {
  import opened Geometry
  import opened Nets
  import Drag

  /** One entry of the registry: its id, its name and its six faces. */
  datatype CubeNetLayout = CubeNetLayout(id: nat, name: string, layout: seq<NetFace>)

  /** Length of one unit of the tables in the page's coordinates. */
  const Unit: real := 0.5

  const CubeNet141: seq<CubeNetLayout> := [
    CubeNetLayout(1, "141型-1", [
      NetFace("1", IVec(-3, 2, 0), IVec(0, 0, 0), IVec(0, 1, 0), IVec(-1, 0, 0)),
      NetFace("2", IVec(-3, 0, 0), IVec(0, 0, 0), IVec(-1, 0, 0), IVec(0, -1, 0)),
      NetFace("3", IVec(-1, 0, 0), IVec(0, 0, 0), IVec(0, 0, 1), IVec(0, 0, 0)),
      NetFace("4", IVec(1, 0, 0), IVec(0, 0, 0), IVec(1, 0, 0), IVec(0, 1, 0)),
      NetFace("5", IVec(3, 0, 0), IVec(0, 0, 0), IVec(0, 0, -1), IVec(0, 2, 0)),
      NetFace("6", IVec(-3, -2, 0), IVec(0, 0, 0), IVec(0, -1, 0), IVec(1, 0, 0))]),
    CubeNetLayout(2, "141型-2", [
      NetFace("1", IVec(-3, 2, 0), IVec(0, 0, 0), IVec(0, 1, 0), IVec(-1, 0, 0)),
      NetFace("2", IVec(-3, 0, 0), IVec(0, 0, 0), IVec(-1, 0, 0), IVec(0, -1, 0)),
      NetFace("3", IVec(-1, 0, 0), IVec(0, 0, 0), IVec(0, 0, 1), IVec(0, 0, 0)),
      NetFace("4", IVec(1, 0, 0), IVec(0, 0, 0), IVec(1, 0, 0), IVec(0, 1, 0)),
      NetFace("5", IVec(3, 0, 0), IVec(0, 0, 0), IVec(0, 0, -1), IVec(0, 2, 0)),
      NetFace("6", IVec(-1, -2, 0), IVec(0, 0, 0), IVec(0, -1, 0), IVec(1, 0, 0))]),
    CubeNetLayout(3, "141型-3", [
      NetFace("1", IVec(-3, 2, 0), IVec(0, 0, 0), IVec(0, 1, 0), IVec(-1, 0, 0)),
      NetFace("2", IVec(-3, 0, 0), IVec(0, 0, 0), IVec(-1, 0, 0), IVec(0, -1, 0)),
      NetFace("3", IVec(-1, 0, 0), IVec(0, 0, 0), IVec(0, 0, 1), IVec(0, 0, 0)),
      NetFace("4", IVec(1, 0, 0), IVec(0, 0, 0), IVec(1, 0, 0), IVec(0, 1, 0)),
      NetFace("5", IVec(3, 0, 0), IVec(0, 0, 0), IVec(0, 0, -1), IVec(0, 2, 0)),
      NetFace("6", IVec(1, -2, 0), IVec(0, 0, 0), IVec(0, -1, 0), IVec(1, 0, 0))]),
    CubeNetLayout(4, "141型-4", [
      NetFace("1", IVec(-3, 2, 0), IVec(0, 0, 0), IVec(0, 1, 0), IVec(-1, 0, 0)),
      NetFace("2", IVec(-3, 0, 0), IVec(0, 0, 0), IVec(-1, 0, 0), IVec(0, -1, 0)),
      NetFace("3", IVec(-1, 0, 0), IVec(0, 0, 0), IVec(0, 0, 1), IVec(0, 0, 0)),
      NetFace("4", IVec(1, 0, 0), IVec(0, 0, 0), IVec(1, 0, 0), IVec(0, 1, 0)),
      NetFace("5", IVec(3, 0, 0), IVec(0, 0, 0), IVec(0, 0, -1), IVec(0, 2, 0)),
      NetFace("6", IVec(3, -2, 0), IVec(0, 0, 0), IVec(0, -1, 0), IVec(1, 0, 0))]),
    CubeNetLayout(5, "141型-5", [
      NetFace("1", IVec(-1, 2, 0), IVec(0, 0, 0), IVec(0, 1, 0), IVec(-1, 0, 0)),
      NetFace("2", IVec(-3, 0, 0), IVec(0, 0, 0), IVec(-1, 0, 0), IVec(0, -1, 0)),
      NetFace("3", IVec(-1, 0, 0), IVec(0, 0, 0), IVec(0, 0, 1), IVec(0, 0, 0)),
      NetFace("4", IVec(1, 0, 0), IVec(0, 0, 0), IVec(1, 0, 0), IVec(0, 1, 0)),
      NetFace("5", IVec(3, 0, 0), IVec(0, 0, 0), IVec(0, 0, -1), IVec(0, 2, 0)),
      NetFace("6", IVec(-1, -2, 0), IVec(0, 0, 0), IVec(0, -1, 0), IVec(1, 0, 0))]),
    CubeNetLayout(6, "141型-6", [
      NetFace("1", IVec(-1, 2, 0), IVec(0, 0, 0), IVec(0, 1, 0), IVec(-1, 0, 0)),
      NetFace("2", IVec(-3, 0, 0), IVec(0, 0, 0), IVec(-1, 0, 0), IVec(0, -1, 0)),
      NetFace("3", IVec(-1, 0, 0), IVec(0, 0, 0), IVec(0, 0, 1), IVec(0, 0, 0)),
      NetFace("4", IVec(1, 0, 0), IVec(0, 0, 0), IVec(1, 0, 0), IVec(0, 1, 0)),
      NetFace("5", IVec(3, 0, 0), IVec(0, 0, 0), IVec(0, 0, -1), IVec(0, 2, 0)),
      NetFace("6", IVec(1, -2, 0), IVec(0, 0, 0), IVec(0, -1, 0), IVec(1, 0, 0))])
  ]

  const CubeNet231: seq<CubeNetLayout> := [
    CubeNetLayout(7, "231型-1", [
      NetFace("1", IVec(-2, 2, 0), IVec(0, 0, 0), IVec(0, 1, 0), IVec(-1, 0, 0)),
      NetFace("2", IVec(0, 2, 0), IVec(0, 0, 0), IVec(0, 0, -1), IVec(0, 2, 0)),
      NetFace("3", IVec(0, 0, 0), IVec(0, 0, 0), IVec(-1, 0, 0), IVec(0, -1, 0)),
      NetFace("4", IVec(2, 0, 0), IVec(0, 0, 0), IVec(0, 0, 1), IVec(0, 0, 0)),
      NetFace("5", IVec(4, 0, 0), IVec(0, 0, 0), IVec(1, 0, 0), IVec(0, 1, 0)),
      NetFace("6", IVec(0, -2, 0), IVec(0, 0, 0), IVec(0, -1, 0), IVec(1, 0, 0))]),
    CubeNetLayout(8, "231型-2", [
      NetFace("1", IVec(-2, 2, 0), IVec(0, 0, 0), IVec(0, 1, 0), IVec(-1, 0, 0)),
      NetFace("2", IVec(0, 2, 0), IVec(0, 0, 0), IVec(0, 0, -1), IVec(0, 2, 0)),
      NetFace("3", IVec(0, 0, 0), IVec(0, 0, 0), IVec(-1, 0, 0), IVec(0, -1, 0)),
      NetFace("4", IVec(2, 0, 0), IVec(0, 0, 0), IVec(0, 0, 1), IVec(0, 0, 0)),
      NetFace("5", IVec(4, 0, 0), IVec(0, 0, 0), IVec(1, 0, 0), IVec(0, 1, 0)),
      NetFace("6", IVec(2, -2, 0), IVec(0, 0, 0), IVec(0, -1, 0), IVec(1, 0, 0))]),
    CubeNetLayout(9, "231型-3", [
      NetFace("1", IVec(-2, 2, 0), IVec(0, 0, 0), IVec(0, 1, 0), IVec(-1, 0, 0)),
      NetFace("2", IVec(0, 2, 0), IVec(0, 0, 0), IVec(0, 0, -1), IVec(0, 2, 0)),
      NetFace("3", IVec(0, 0, 0), IVec(0, 0, 0), IVec(-1, 0, 0), IVec(0, -1, 0)),
      NetFace("4", IVec(2, 0, 0), IVec(0, 0, 0), IVec(0, 0, 1), IVec(0, 0, 0)),
      NetFace("5", IVec(4, 0, 0), IVec(0, 0, 0), IVec(1, 0, 0), IVec(0, 1, 0)),
      NetFace("6", IVec(4, -2, 0), IVec(0, 0, 0), IVec(0, -1, 0), IVec(1, 0, 0))])
  ]

  const CubeNet222: seq<CubeNetLayout> := [
    CubeNetLayout(10, "222型-阶梯", [
      NetFace("1", IVec(-2, 2, 0), IVec(0, 0, 0), IVec(0, 1, 0), IVec(-1, 0, 0)),
      NetFace("2", IVec(0, 2, 0), IVec(0, 0, 0), IVec(0, 0, -1), IVec(0, 2, 0)),
      NetFace("3", IVec(0, 0, 0), IVec(0, 0, 0), IVec(-1, 0, 0), IVec(0, -1, 0)),
      NetFace("4", IVec(2, 0, 0), IVec(0, 0, 0), IVec(0, 0, 1), IVec(0, 0, 0)),
      NetFace("5", IVec(2, -2, 0), IVec(0, 0, 0), IVec(1, 0, 0), IVec(0, 1, 0)),
      NetFace("6", IVec(4, -2, 0), IVec(0, 0, 0), IVec(0, -1, 0), IVec(1, 0, 0))])
  ]

  const CubeNet33: seq<CubeNetLayout> := [
    CubeNetLayout(11, "33型-日字", [
      NetFace("1", IVec(-2, 1, 0), IVec(0, 0, 0), IVec(0, 1, 0), IVec(-1, 0, 0)),
      NetFace("2", IVec(0, 1, 0), IVec(0, 0, 0), IVec(0, 0, -1), IVec(0, 2, 0)),
      NetFace("3", IVec(2, 1, 0), IVec(0, 0, 0), IVec(1, 0, 0), IVec(0, 1, 0)),
      NetFace("4", IVec(2, -1, 0), IVec(0, 0, 0), IVec(-1, 0, 0), IVec(0, -1, 0)),
      NetFace("5", IVec(4, -1, 0), IVec(0, 0, 0), IVec(0, 0, 1), IVec(0, 0, 0)),
      NetFace("6", IVec(6, -1, 0), IVec(0, 0, 0), IVec(0, -1, 0), IVec(1, 0, 0))])
  ]

  const CubeNetTypes: seq<CubeNetLayout> := CubeNet141 + CubeNet231 + CubeNet222 + CubeNet33

  datatype Family = F141 | F231 | F222 | F33

  /**
   * The family badge shown for the entry at a registry index: the family
   * whose block of entries starts last at or before the index.
   */
  function FamilyOf(index: nat): (r: Family)
    ensures FamilyStart(r) <= index
    ensures forall f :: FamilyStart(f) <= index ==> FamilyStart(f) <= FamilyStart(r)
  {
    if index < 6 then F141 else if index < 9 then F231 else if index < 10 then F222 else F33
  }

  function BadgeText(f: Family): string
  {
    match f
    case F141 => "141型"
    case F231 => "231型"
    case F222 => "222型"
    case F33 => "33型"
  }

  /** The source array each family's entries come from. */
  function FamilyArray(f: Family): seq<CubeNetLayout>
  {
    match f
    case F141 => CubeNet141
    case F231 => CubeNet231
    case F222 => CubeNet222
    case F33 => CubeNet33
  }

  /** The offset of a family's array inside the registry. */
  function FamilyStart(f: Family): nat
  {
    match f
    case F141 => 0
    case F231 => 6
    case F222 => 9
    case F33 => 10
  }

  /** Six nets of the 1-4-1 family, three of 2-3-1, one of each other family; ids count 1 to 11. */
  lemma RegistryShape()
    ensures |CubeNet141| == 6 && |CubeNet231| == 3 && |CubeNet222| == 1 && |CubeNet33| == 1
    ensures |CubeNetTypes| == 11
    ensures forall k :: 0 <= k < |CubeNetTypes| ==> CubeNetTypes[k].id == k + 1
  {
  }

  /** The badge at an index names the family of the array the entry came from, and its name starts with it. */
  lemma BadgeMatchesEntry(k: nat)
    requires k < |CubeNetTypes|
    ensures FamilyStart(FamilyOf(k)) <= k < FamilyStart(FamilyOf(k)) + |FamilyArray(FamilyOf(k))|
    ensures CubeNetTypes[k] == FamilyArray(FamilyOf(k))[k - FamilyStart(FamilyOf(k))]
    ensures BadgeText(FamilyOf(k)) <= CubeNetTypes[k].name
  {
  }

  /** Every entry labels its faces "1" to "6" in order. */
  lemma LabelsInOrder()
    ensures forall k, i :: 0 <= k < |CubeNetTypes| && 0 <= i < |CubeNetTypes[k].layout| ==>
      CubeNetTypes[k].layout[i].tag == [('1' as int + i) as char]
  {
  }

  /** The 141 entries fold one to one onto the cube, lie flat and have no overlap. */
  lemma Family141Folds()
    ensures forall k :: 0 <= k < |CubeNet141| ==> FoldsOntoCube(CubeNet141[k].layout)
    ensures forall k :: 0 <= k < |CubeNet141| ==> Flat(CubeNet141[k].layout) && DistinctCells(CubeNet141[k].layout)
  {
    forall k | 0 <= k < |CubeNet141|
      ensures FoldsOntoCube(CubeNet141[k].layout)
      ensures Flat(CubeNet141[k].layout) && DistinctCells(CubeNet141[k].layout)
    {
      if k == 0 {
        FoldsOntoCubeOfSix(CubeNet141[0].layout);
        DistinctCellsOfSix(CubeNet141[0].layout);
      } else if k == 1 {
        FoldsOntoCubeOfSix(CubeNet141[1].layout);
        DistinctCellsOfSix(CubeNet141[1].layout);
      } else if k == 2 {
        FoldsOntoCubeOfSix(CubeNet141[2].layout);
        DistinctCellsOfSix(CubeNet141[2].layout);
      } else if k == 3 {
        FoldsOntoCubeOfSix(CubeNet141[3].layout);
        DistinctCellsOfSix(CubeNet141[3].layout);
      } else if k == 4 {
        FoldsOntoCubeOfSix(CubeNet141[4].layout);
        DistinctCellsOfSix(CubeNet141[4].layout);
      } else {
        FoldsOntoCubeOfSix(CubeNet141[5].layout);
        DistinctCellsOfSix(CubeNet141[5].layout);
      }
    }
  }

  /** The 141 entries are each one piece, shown by a spanning tree rooted at face "1". */
  lemma Family141Connected()
    ensures forall k :: 0 <= k < |CubeNet141| ==> Connected(CubeNet141[k].layout)
  {
    forall k | 0 <= k < |CubeNet141|
      ensures Connected(CubeNet141[k].layout)
    {
      if k == 0 {
        SpanningTreeOfSix(CubeNet141[0].layout, [0, 0, 1, 2, 3, 1], [0, 1, 2, 3, 4, 2]);
        TreeConnected(CubeNet141[0].layout, [0, 0, 1, 2, 3, 1], [0, 1, 2, 3, 4, 2]);
      } else if k == 1 {
        SpanningTreeOfSix(CubeNet141[1].layout, [0, 0, 1, 2, 3, 2], [0, 1, 2, 3, 4, 3]);
        TreeConnected(CubeNet141[1].layout, [0, 0, 1, 2, 3, 2], [0, 1, 2, 3, 4, 3]);
      } else if k == 2 {
        SpanningTreeOfSix(CubeNet141[2].layout, [0, 0, 1, 2, 3, 3], [0, 1, 2, 3, 4, 4]);
        TreeConnected(CubeNet141[2].layout, [0, 0, 1, 2, 3, 3], [0, 1, 2, 3, 4, 4]);
      } else if k == 3 {
        SpanningTreeOfSix(CubeNet141[3].layout, [0, 0, 1, 2, 3, 4], [0, 1, 2, 3, 4, 5]);
        TreeConnected(CubeNet141[3].layout, [0, 0, 1, 2, 3, 4], [0, 1, 2, 3, 4, 5]);
      } else if k == 4 {
        SpanningTreeOfSix(CubeNet141[4].layout, [0, 2, 0, 2, 3, 2], [0, 2, 1, 2, 3, 2]);
        TreeConnected(CubeNet141[4].layout, [0, 2, 0, 2, 3, 2], [0, 2, 1, 2, 3, 2]);
      } else {
        SpanningTreeOfSix(CubeNet141[5].layout, [0, 2, 0, 2, 3, 3], [0, 2, 1, 2, 3, 3]);
        TreeConnected(CubeNet141[5].layout, [0, 2, 0, 2, 3, 3], [0, 2, 1, 2, 3, 3]);
      }
    }
  }

  /** The 231 entries fold one to one onto the cube, lie flat and have no overlap. */
  lemma Family231Folds()
    ensures forall k :: 0 <= k < |CubeNet231| ==> FoldsOntoCube(CubeNet231[k].layout)
    ensures forall k :: 0 <= k < |CubeNet231| ==> Flat(CubeNet231[k].layout) && DistinctCells(CubeNet231[k].layout)
  {
    forall k | 0 <= k < |CubeNet231|
      ensures FoldsOntoCube(CubeNet231[k].layout)
      ensures Flat(CubeNet231[k].layout) && DistinctCells(CubeNet231[k].layout)
    {
      if k == 0 {
        FoldsOntoCubeOfSix(CubeNet231[0].layout);
        DistinctCellsOfSix(CubeNet231[0].layout);
      } else if k == 1 {
        FoldsOntoCubeOfSix(CubeNet231[1].layout);
        DistinctCellsOfSix(CubeNet231[1].layout);
      } else {
        FoldsOntoCubeOfSix(CubeNet231[2].layout);
        DistinctCellsOfSix(CubeNet231[2].layout);
      }
    }
  }

  /** The 231 entries are each one piece, shown by a spanning tree rooted at face "1". */
  lemma Family231Connected()
    ensures forall k :: 0 <= k < |CubeNet231| ==> Connected(CubeNet231[k].layout)
  {
    forall k | 0 <= k < |CubeNet231|
      ensures Connected(CubeNet231[k].layout)
    {
      if k == 0 {
        SpanningTreeOfSix(CubeNet231[0].layout, [0, 0, 1, 2, 3, 2], [0, 1, 2, 3, 4, 3]);
        TreeConnected(CubeNet231[0].layout, [0, 0, 1, 2, 3, 2], [0, 1, 2, 3, 4, 3]);
      } else if k == 1 {
        SpanningTreeOfSix(CubeNet231[1].layout, [0, 0, 1, 2, 3, 3], [0, 1, 2, 3, 4, 4]);
        TreeConnected(CubeNet231[1].layout, [0, 0, 1, 2, 3, 3], [0, 1, 2, 3, 4, 4]);
      } else {
        SpanningTreeOfSix(CubeNet231[2].layout, [0, 0, 1, 2, 3, 4], [0, 1, 2, 3, 4, 5]);
        TreeConnected(CubeNet231[2].layout, [0, 0, 1, 2, 3, 4], [0, 1, 2, 3, 4, 5]);
      }
    }
  }

  /** The 222 entries fold one to one onto the cube, lie flat and have no overlap. */
  lemma Family222Folds()
    ensures forall k :: 0 <= k < |CubeNet222| ==> FoldsOntoCube(CubeNet222[k].layout)
    ensures forall k :: 0 <= k < |CubeNet222| ==> Flat(CubeNet222[k].layout) && DistinctCells(CubeNet222[k].layout)
  {
    forall k | 0 <= k < |CubeNet222|
      ensures FoldsOntoCube(CubeNet222[k].layout)
      ensures Flat(CubeNet222[k].layout) && DistinctCells(CubeNet222[k].layout)
    {
      FoldsOntoCubeOfSix(CubeNet222[0].layout);
      DistinctCellsOfSix(CubeNet222[0].layout);
    }
  }

  /** The 222 entries are each one piece, shown by a spanning tree rooted at face "1". */
  lemma Family222Connected()
    ensures forall k :: 0 <= k < |CubeNet222| ==> Connected(CubeNet222[k].layout)
  {
    forall k | 0 <= k < |CubeNet222|
      ensures Connected(CubeNet222[k].layout)
    {
      SpanningTreeOfSix(CubeNet222[0].layout, [0, 0, 1, 2, 3, 4], [0, 1, 2, 3, 4, 5]);
      TreeConnected(CubeNet222[0].layout, [0, 0, 1, 2, 3, 4], [0, 1, 2, 3, 4, 5]);
    }
  }

  /** The 33 entries fold one to one onto the cube, lie flat and have no overlap. */
  lemma Family33Folds()
    ensures forall k :: 0 <= k < |CubeNet33| ==> FoldsOntoCube(CubeNet33[k].layout)
    ensures forall k :: 0 <= k < |CubeNet33| ==> Flat(CubeNet33[k].layout) && DistinctCells(CubeNet33[k].layout)
  {
    forall k | 0 <= k < |CubeNet33|
      ensures FoldsOntoCube(CubeNet33[k].layout)
      ensures Flat(CubeNet33[k].layout) && DistinctCells(CubeNet33[k].layout)
    {
      FoldsOntoCubeOfSix(CubeNet33[0].layout);
      DistinctCellsOfSix(CubeNet33[0].layout);
    }
  }

  /** The 33 entries are each one piece, shown by a spanning tree rooted at face "1". */
  lemma Family33Connected()
    ensures forall k :: 0 <= k < |CubeNet33| ==> Connected(CubeNet33[k].layout)
  {
    forall k | 0 <= k < |CubeNet33|
      ensures Connected(CubeNet33[k].layout)
    {
      SpanningTreeOfSix(CubeNet33[0].layout, [0, 0, 1, 2, 3, 4], [0, 1, 2, 3, 4, 5]);
      TreeConnected(CubeNet33[0].layout, [0, 0, 1, 2, 3, 4], [0, 1, 2, 3, 4, 5]);
    }
  }

  /** Each of the eleven entries meets `IsCubeNet`: its folded poses cover all six faces, it lies flat, is one piece, no overlap. */
  lemma AllLayoutsAreCubeNets()
    ensures forall k :: 0 <= k < |CubeNetTypes| ==> IsCubeNet(CubeNetTypes[k].layout)
  {
    Family141Folds();
    Family231Folds();
    Family222Folds();
    Family33Folds();
    Family141Connected();
    Family231Connected();
    Family222Connected();
    Family33Connected();
    forall k | 0 <= k < |CubeNetTypes|
      ensures IsCubeNet(CubeNetTypes[k].layout)
    {
      BadgeMatchesEntry(k);
      CubeNetFromParts(CubeNetTypes[k].layout);
    }
  }

  lemma Family141OppositesApart()
    ensures forall k :: 0 <= k < |CubeNet141| ==> OppositesApart(CubeNet141[k].layout)
  {
    forall k | 0 <= k < |CubeNet141|
      ensures OppositesApart(CubeNet141[k].layout)
    {
      if k == 0 {
        OppositesApartOfSix(CubeNet141[0].layout);
      } else if k == 1 {
        OppositesApartOfSix(CubeNet141[1].layout);
      } else if k == 2 {
        OppositesApartOfSix(CubeNet141[2].layout);
      } else if k == 3 {
        OppositesApartOfSix(CubeNet141[3].layout);
      } else if k == 4 {
        OppositesApartOfSix(CubeNet141[4].layout);
      } else {
        OppositesApartOfSix(CubeNet141[5].layout);
      }
    }
  }

  lemma Family231OppositesApart()
    ensures forall k :: 0 <= k < |CubeNet231| ==> OppositesApart(CubeNet231[k].layout)
  {
    forall k | 0 <= k < |CubeNet231|
      ensures OppositesApart(CubeNet231[k].layout)
    {
      if k == 0 {
        OppositesApartOfSix(CubeNet231[0].layout);
      } else if k == 1 {
        OppositesApartOfSix(CubeNet231[1].layout);
      } else {
        OppositesApartOfSix(CubeNet231[2].layout);
      }
    }
  }

  lemma Family222OppositesApart()
    ensures forall k :: 0 <= k < |CubeNet222| ==> OppositesApart(CubeNet222[k].layout)
  {
    forall k | 0 <= k < |CubeNet222|
      ensures OppositesApart(CubeNet222[k].layout)
    {
      OppositesApartOfSix(CubeNet222[0].layout);
    }
  }

  /**
   * The rule the page teaches for reading a net: faces that end up opposite
   * never share an edge. The first ten entries keep it.
   */
  lemma OppositesApartInFirstTen()
    ensures forall k :: 0 <= k < 10 ==> OppositesApart(CubeNetTypes[k].layout)
  {
    Family141OppositesApart();
    Family231OppositesApart();
    Family222OppositesApart();
    forall k | 0 <= k < 10
      ensures OppositesApart(CubeNetTypes[k].layout)
    {
      BadgeMatchesEntry(k);
    }
  }

  /**
   * The 3-3 entry breaks that rule as its table is written: face "3" folds
   * onto the right face and face "4", directly below it, onto the left face.
   */
  lemma LastEntryBreaksOppositesRule()
    ensures !OppositesApart(CubeNetTypes[10].layout)
    ensures CubeNetTypes[10].layout[2].foldedPos == IVec(1, 0, 0)
    ensures CubeNetTypes[10].layout[3].foldedPos == IVec(-1, 0, 0)
    ensures Adjacent(CubeNetTypes[10].layout[2].pos, CubeNetTypes[10].layout[3].pos)
  {
    var fs := CubeNetTypes[10].layout;
    assert !ApartIfOpposite(fs[2], fs[3]);
  }

  /**
   * What the page draws: folded (progress 0) every entry assembles into a
   * closed cube, its six faces on six different face centres half a unit
   * from the middle; unfolded (progress 1) it lies flat in the z = 0 plane.
   */
  lemma RegistryEndPoses(k: nat, i: nat, j: nat)
    requires k < |CubeNetTypes| && i < 6 && j < 6 && i != j
    ensures exists c :: (0 <= c < 6 &&
      FaceAt(CubeNetTypes[k].layout[i], Unit, 0.0) ==
        Pose(ToReal(CubeFaces[c].0, Unit), ToReal(CubeFaces[c].1, 1.0)))
    ensures FaceAt(CubeNetTypes[k].layout[i], Unit, 0.0).position !=
            FaceAt(CubeNetTypes[k].layout[j], Unit, 0.0).position
    ensures FaceAt(CubeNetTypes[k].layout[i], Unit, 1.0).position.z == 0.0
    ensures FaceAt(CubeNetTypes[k].layout[i], Unit, 1.0).rotation == Origin
  {
    AllLayoutsAreCubeNets();
    NetEndPoses(CubeNetTypes[k].layout, Unit, i, j);
  }

  /** The page: the drag controller, starting unfolded, and the selected entry, starting at the first. */
  class CubeNetAllPage {
    const drag: Drag.DragController
    var currentType: nat

    ghost predicate Valid()
      reads this, drag
    {
      drag.Valid() && currentType < |CubeNetTypes|
    }

    constructor ()
      ensures Valid() && fresh(drag)
      ensures currentType == 0
      ensures drag.State() == Drag.Initial(1.0)
    {
      drag := new Drag.DragController(1.0);
      currentType := 0;
    }

    /** A click on the button of entry `index`: the drag state, and with it the progress, is kept. */
    method SelectType(index: nat)
      requires Valid() && index < |CubeNetTypes|
      modifies this
      ensures Valid()
      ensures currentType == index
      ensures drag.State() == old(drag.State())
    {
      currentType := index;
    }

    /** The entry shown: its id is one more than its position, which the counter displays out of 11. */
    function CurrentNet(): (r: CubeNetLayout)
      reads this
      requires currentType < |CubeNetTypes|
      ensures r.id == currentType + 1 && r.id <= |CubeNetTypes|
      ensures IsCubeNet(r.layout)
      ensures BadgeText(FamilyOf(currentType)) <= r.name
    {
      RegistryShape();
      AllLayoutsAreCubeNets();
      BadgeMatchesEntry(currentType);
      CubeNetTypes[currentType]
    }
  }
}
