# beibei-math solids: a Dafny model

beibei-math is a React teaching app for fifth-grade solid geometry. This
project models its core. That core has four parts:

- the drag-to-progress controller shared by the cube-net, cylinder-net and
  cone-net pages (`Drag`);
- the pose interpolation that moves every face or part of a solid between
  its folded pose (progress 0) and its unfolded pose (progress 1)
  (`Geometry`, `Nets`);
- the data and page state of each lesson: the eleven cube nets
  (`CubeNetAll`), the cross-shaped net with its fold/unfold buttons
  (`CubeNet`), the hollowed cube (`CubeHollow`), and the cylinder and cone
  nets with the cone's sector mesh (`CylinderNet`, `ConeNet`);
- the answer check of the login page (`LoginPage`).

There is one module per source file. Two shared modules hold the poses and
interpolation (`Geometry`) and the conditions a table of six faces meets as a
cube net (`Nets.IsCubeNet`: six distinct flat cells on one grid, in one
piece, labelled one to one with the poses of the cube's faces).

Units:

- Arithmetic is on exact `real`s.
- Net coordinates are integers counted in half face widths. The tables of
  `CubeNetAll.tsx` (face width 1) are written doubled; those of `CubeNet.tsx`
  (face width 2) are taken as they are. `ToReal` converts back with the page's
  unit.
- Rotations are integer quarter turns: k stands for k·π/2 radians.
  Interpolation is linear, so it commutes with that change of unit
  (`Geometry.LerpScales`).

Page state that the source updates in place is modelled as a class:

- `Drag.DragController` has the fields `isDragging`, `dragStartY`,
  `startProgress` and `unfoldProgress`. Each handler method is proved to
  perform one step of the pure transition function `Drag.Step`.
- `CubeNetAll.CubeNetAllPage`, `CubeNet.CubeNetPage`, `CubeHollow.HollowPage`,
  `CylinderNet.CylinderNetPage`, `ConeNet.ConeNetPage` and
  `LoginPage.LoginForm` are the other pages.

A React state update is taken to be visible to the next event handler.

`ConeNet.CreateSectorGeometry` keeps the source's two `for` loops and is proved
against the exact contents of both buffers.

The page states a reading rule: opposite faces never share an edge in a net
(`src/App.tsx:215`). The registry keeps this rule for entries 1 to 10
(`CubeNetAll.OppositesApartInFirstTen`). The 3-3 entry breaks it as its table
is written (`CubeNetAll.LastEntryBreaksOppositesRule`): face "3" folds onto the
right face, and face "4", directly below it, folds onto the left face. The
model keeps the table as written. It claims the rule only where it holds.

The table of faces drawn in the hollow (`src/components/CubeHollow.tsx:118-129`)
names faces of the small cube that lie in the big cube's outer surface. The
model keeps that table as written (`CubeHollow.VisibleSmallFacesAsWritten`)
and uses the intended one, the faces not on the surface
(`CubeHollow.VisibleSmallFaces`); see "## Findings".

The face hollow of `CubeHollow` does not sit inside the big cube. It is
centred at z = 2, outside the cube's half width of 1.5, and rests on the front
face (`CubeHollow.SmallCubePlacement`). The model states this as the source's
behaviour.

## Model

| member | source | states |
|---|---|---|
| Geometry.Lerp | src/components/CubeNetAll.tsx:24-34 | the interpolated value is the folded value at progress 0, the unfolded value at progress 1, and stays between the two for progress in [0, 1] |
| Geometry.LerpMonotone | src/components/CubeNetAll.tsx:24-34 | as progress grows the value moves towards the unfolded end and never back |
| Geometry.LerpScales | src/components/CubeNetAll.tsx:30-34 | interpolating angles in quarter turns and converting to radians gives the same result as interpolating radians |
| Geometry.LerpVec | src/components/CubeNetAll.tsx:24-28 | a componentwise position lerp that is exact at both ends |
| Geometry.Interpolate | src/components/CubeNetAll.tsx:24-34 | the displayed pose is the folded pose at 0, the unfolded pose at 1, and every coordinate and angle lies between its two end values in between |
| Drag.Clamp | src/components/CubeNetAll.tsx:314 | `Math.max(0, Math.min(1, x))` lies in [0, 1], is x inside it, 0 below it and 1 above it |
| Drag.DragProgress | src/components/CubeNetAll.tsx:311-316 | a move sets progress to the baseline plus the upward distance over 200 pixels, clamped to [0, 1], in all three cases |
| Drag.Step | src/components/CubeNetAll.tsx:305-320 | a press starts a drag from the current progress and a release ends it; only a move during a drag changes progress, to the clamped value for the distance dragged |
| Drag.StepKeepsRange | src/components/CubeNetAll.tsx:305-337 | any single press, move or release keeps progress and baseline in [0, 1] |
| Drag.RunKeepsRange | src/components/ConeNet.tsx:169-201 | any sequence of mouse and touch events keeps progress in [0, 1] |
| Drag.RunConcat | src/components/CylinderNet.tsx:172-204 | handling two event sequences one after the other is handling their concatenation |
| Drag.MoveWhileIdleIsNoOp | src/components/CubeNetAll.tsx:311-312 | a move with no press in progress changes no state |
| Drag.UpKeepsProgress | src/components/CubeNetAll.tsx:318-320 | release ends the drag and keeps the progress reached: no snapping |
| Drag.MovesDoNotAccumulate | src/components/CubeNetAll.tsx:311-316 | two moves in a row give the state of the last move alone |
| Drag.PressesDoNotAccumulate | src/components/CubeNetAll.tsx:305-309 | two presses in a row give the state of the last press alone |
| Drag.PressAndHoldKeepsProgress | src/components/CubeNetAll.tsx:305-316 | pressing and moving back to the press point restores the progress held before the press |
| Drag.FullDragFromFolded | src/components/CylinderNet.tsx:167-183 | from a folded page, a 200-pixel upward drag gives progress exactly 1 |
| Drag.HugeDragsClamp | src/components/CubeNetAll.tsx:313-314 | from any baseline, a drag of 10000 pixels up gives 1 and one of 10000 pixels down gives 0 |
| Drag.HigherDragMoreProgress | src/components/CubeNetAll.tsx:313-314 | dragging further up never lowers the progress |
| Drag.ProgressPercent | src/components/CubeNetAll.tsx:386 | the progress bar's width is 0 % folded, 100 % unfolded, and within 0-100 % in between |
| Drag.PercentMonotone | src/components/CubeNetAll.tsx:386 | the bar grows with progress |
| Drag.ShowsUnfolded | src/components/CubeNetAll.tsx:409-410 | the status badge reads "unfolding" exactly when the progress bar is past 50 % |
| Drag.StatusMonotone | src/components/CubeNetAll.tsx:409-410 | the badge is monotone in progress: once it reads "unfolding", any higher progress does too; it reads "folding" at 0 and at one half and "unfolding" at 1 |
| Drag.DragController.constructor | src/components/CubeNetAll.tsx:297-301 | a page starts not dragging, with both refs 0 and its initial progress |
| Drag.DragController.PressAt | src/components/CubeNetAll.tsx:305-309 | mouse down or touch start records the y coordinate and the current progress, and starts the drag |
| Drag.DragController.MoveTo | src/components/CubeNetAll.tsx:311-316 | mouse or touch move performs exactly the `Step` for a move and keeps progress in [0, 1] |
| Drag.DragController.Release | src/components/CubeNetAll.tsx:318-320 | mouse up, mouse leave or touch end only clears the drag flag |
| Drag.DragController.HandleAll | src/components/CubeNetAll.tsx:341-349 | dispatching a whole event sequence to the handlers ends in the state `Run` specifies, with progress in [0, 1] |
| Nets.FoldsOntoCubeIsPermutation | src/components/CubeNet.tsx:109-150 | the folded poses of a net are a permutation of the cube's six face poses, so every face of the cube is covered exactly once |
| Nets.CentreFixesRotation | src/components/CubeNet.tsx:109-150 | each face centre of the cube has one folded rotation only |
| Nets.ConnectedOnGrid | src/components/CubeNet.tsx:98-102 | the cells of a connected net lie on one grid of face-width spacing |
| Nets.ConnectedHasNeighbours | src/components/CubeNet.tsx:98-102 | in a connected net every face shares an edge with another face |
| Nets.FaceAt | src/components/CubeNetAll.tsx:24-34 | a face is shown at its folded pose at progress 0 and at its unfolded pose at progress 1 |
| Nets.NetEndPoses | src/components/CubeNetAll.tsx:24-34 | for a valid net, progress 0 puts each face on a centre of the cube, never two faces on one centre, and progress 1 lays every face flat and unrotated |
| CubeNetAll.RegistryShape | src/components/CubeNetAll.tsx:86-253 | the registry holds 6 + 3 + 1 + 1 = 11 entries with ids 1 to 11 in order |
| CubeNetAll.FamilyOf | src/components/CubeNetAll.tsx:395 | the badge shown for an index is the family whose block of entries starts last at or before it |
| CubeNetAll.BadgeMatchesEntry | src/components/CubeNetAll.tsx:394-396 | the family badge shown for an index names the array the entry comes from, and the entry's name starts with it |
| CubeNetAll.LabelsInOrder | src/components/CubeNetAll.tsx:86-250 | every entry labels its six faces "1" to "6" in order |
| CubeNetAll.Family141Folds | src/components/CubeNetAll.tsx:86-165 | each 1-4-1 entry folds one to one onto the cube, lies flat and has no two faces in one cell |
| CubeNetAll.Family141Connected | src/components/CubeNetAll.tsx:86-165 | each 1-4-1 entry is one piece |
| CubeNetAll.Family231Folds | src/components/CubeNetAll.tsx:169-212 | each 2-3-1 entry folds one to one onto the cube, lies flat and has no overlap |
| CubeNetAll.Family231Connected | src/components/CubeNetAll.tsx:169-212 | each 2-3-1 entry is one piece |
| CubeNetAll.Family222Folds | src/components/CubeNetAll.tsx:216-231 | the 2-2-2 entry folds one to one onto the cube, lies flat and has no overlap |
| CubeNetAll.Family222Connected | src/components/CubeNetAll.tsx:216-231 | the 2-2-2 entry is one piece |
| CubeNetAll.Family33Folds | src/components/CubeNetAll.tsx:235-250 | the 3-3 entry folds one to one onto the cube, lies flat and has no overlap |
| CubeNetAll.Family33Connected | src/components/CubeNetAll.tsx:235-250 | the 3-3 entry is one piece |
| CubeNetAll.AllLayoutsAreCubeNets | src/components/CubeNetAll.tsx:86-253 | every one of the eleven entries has six distinct flat grid cells in one piece, labelled one to one with the cube's faces |
| CubeNetAll.Family141OppositesApart | src/components/CubeNetAll.tsx:86-165 | in every 1-4-1 entry opposite faces never share an edge |
| CubeNetAll.Family231OppositesApart | src/components/CubeNetAll.tsx:169-212 | in every 2-3-1 entry opposite faces never share an edge |
| CubeNetAll.Family222OppositesApart | src/components/CubeNetAll.tsx:216-231 | in the 2-2-2 entry opposite faces never share an edge |
| CubeNetAll.OppositesApartInFirstTen | src/components/CubeNetAll.tsx:86-231 | entries 1 to 10 keep the rule that opposite faces never share an edge |
| CubeNetAll.LastEntryBreaksOppositesRule | src/components/CubeNetAll.tsx:235-250 | entry 11 breaks that rule: its faces "3" (right) and "4" (left) share an edge |
| CubeNetAll.RegistryEndPoses | src/components/CubeNetAll.tsx:255-277 | every entry drawn at progress 0 assembles a closed cube, six faces on six different centres, and at progress 1 lies flat and unrotated |
| CubeNetAll.CubeNetAllPage.constructor | src/components/CubeNetAll.tsx:296-303 | the page opens unfolded (progress 1), not dragging, on the first entry |
| CubeNetAll.CubeNetAllPage.SelectType | src/components/CubeNetAll.tsx:358-364 | a type button selects its entry and leaves the drag state and progress alone |
| CubeNetAll.CubeNetAllPage.CurrentNet | src/components/CubeNetAll.tsx:392-397 | the entry shown has six distinct flat grid cells in one piece, labelled one to one with the cube's faces; its id is the position shown out of 11, and its name starts with the family badge |
| CubeNet.TargetPose | src/components/CubeNet.tsx:23-24 | the pose a face moves to is its folded pose when folded and its unfolded pose otherwise |
| CubeNet.CrossFolds | src/components/CubeNet.tsx:103-152 | the six faces fold one to one onto the cube and sit in different cells |
| CubeNet.CrossConnected | src/components/CubeNet.tsx:98-152 | the cross is one piece |
| CubeNet.CrossIsCubeNet | src/components/CubeNet.tsx:98-152 | the cross has six distinct flat grid cells in one piece, labelled one to one with the cube's faces |
| CubeNet.CrossKeepsOppositesApart | src/components/CubeNet.tsx:103-152 | in the cross, front/back, top/bottom and left/right never share an edge |
| CubeNet.LabelsDistinct | src/components/CubeNet.tsx:103-152 | the six labels 前 上 下 左 右 后 are pairwise different |
| CubeNet.CrossIsRegistryEntryFive | src/components/CubeNet.tsx:103-152 | the cross is entry 5 of the registry shifted half a face width (one unit) to the right, each face keeping its folded pose |
| CubeNet.TargetPoses | src/components/CubeNet.tsx:103-152 | folded, the six faces sit on six different centres of the cube; unfolded, they lie flat and unrotated |
| CubeNet.MountPose | src/components/CubeNet.tsx:45 | each face group is created at the net's flat layout, the pose the interpolation reaches at progress 1 |
| CubeNet.MountedAtTarget | src/components/CubeNet.tsx:210 | a freshly opened page sends every face to the pose it was mounted at, so nothing moves on load |
| CubeNet.AfterPress | src/components/CubeNet.tsx:226-236 | after a press the page is folded exactly when the button pressed was "fold", whatever it was before |
| CubeNet.PressesDoNotToggle | src/components/CubeNet.tsx:226-236 | the buttons set absolute values: pressing twice is pressing once, and only the last press counts |
| CubeNet.CubeNetPage.constructor | src/components/CubeNet.tsx:210 | the page opens unfolded |
| CubeNet.CubeNetPage.Press | src/components/CubeNet.tsx:226-236 | "unfold" sets the folded flag to false and "fold" sets it to true |
| CubeHollow.SurfaceAreaInfo | src/components/CubeHollow.tsx:34-81 | new area = 54 + change; change = (added − removed) unit squares and never negative; a hollow touches all six faces of the small cube, at least one of them on the surface |
| CubeHollow.AreaValues | src/components/CubeHollow.tsx:380-384 | the areas the buttons advertise, 54, 54, 56 and 58, are those the lookup computes |
| CubeHollow.FewerRemovedMoreArea | src/components/CubeHollow.tsx:34-81 | the fewer surface faces a hollow removes, the more area it ends with |
| CubeHollow.SmallCubePlacement | src/components/CubeHollow.tsx:94-105 | corner and edge hollows lie inside the big cube, flush with its faces; the face hollow rests on the front face, outside it |
| CubeHollow.SmallCubePosition | src/components/CubeHollow.tsx:94-105 | the corner and edge small cubes are flush with the big cube's front face, the face small cube rests on it, and with no hollow it sits at the origin |
| CubeHollow.VisibleSmallFacesAsWritten | src/components/CubeHollow.tsx:118-129 | the source's hollow table names distinct faces 0-5, as many as the panel adds |
| CubeHollow.HollowTableAsWrittenOverlapsOriginal | src/components/CubeHollow.tsx:118-152 | the source's hollow table, as written, draws the front face, which lies in the big cube's surface, as new; it never draws the back face; for a corner it is the table of original faces itself |
| CubeHollow.VisibleSmallFaces | src/components/CubeHollow.tsx:117-129 | corrected table: the faces the hollow should draw as new, the literal complement of `OriginalFaceIndices` (so `HollowTablesPartitionFaces` holds by construction): distinct faces 0-5, as many as the panel adds, none when there is no hollow |
| CubeHollow.OriginalFaceIndices | src/components/CubeHollow.tsx:138-152 | the faces of the dug-out cube that were on the surface: distinct faces 0-5, as many as the panel removes, none when there is no hollow |
| CubeHollow.OriginalFacesOnSurface | src/components/CubeHollow.tsx:94-152 | the independent reference for the original-face table, for the corner and edge hollows only: a face is listed as original exactly when it lies in the big cube's outer surface |
| CubeHollow.HollowTablesPartitionFaces | src/components/CubeHollow.tsx:117-152 | corrected table: every face of the small cube is either in `VisibleSmallFaces` or listed as original, never both; this holds by construction, since the corrected table is the complement |
| CubeHollow.IndexTablesNest | src/components/CubeHollow.tsx:117-152 | from corner to edge to face the original faces shrink and the visible faces grow, each set strictly inside the next |
| CubeHollow.CountNewFaces | src/components/CubeHollow.tsx:260-263 | counts exactly the faces among the first n of the dug-out cube that are drawn in the "new" colour |
| CubeHollow.ExtractedCubeColouring | src/components/CubeHollow.tsx:253-263 | corrected table: the dug-out cube colours as new exactly the faces of `VisibleSmallFaces`, as many as the panel's added count; the others are original (the source's hollow, as written, shows other faces; see "## Findings") |
| CubeHollow.ExtractedOffset | src/components/CubeHollow.tsx:134 | no offset in place; extracted, the cube moves up, right and towards the viewer |
| CubeHollow.ExtractedCubePosition | src/components/CubeHollow.tsx:244-250 | the dug-out cube is in the hollow when in place; extracted, it is offset by (2.5, 1.5, 2) and lies wholly to the right of the big cube |
| CubeHollow.HollowPage.constructor | src/components/CubeHollow.tsx:376-378 | the page opens on the whole cube, small cube in place, panel open |
| CubeHollow.HollowPage.ChangeType | src/components/CubeHollow.tsx:387-390 | choosing a hollow puts its small cube back and keeps the panel as it was |
| CubeHollow.HollowPage.ToggleExtracted | src/components/CubeHollow.tsx:418-421 | the extract button, offered only when there is a hollow, flips the extracted flag alone |
| CubeHollow.HollowPage.ToggleCalculation | src/components/CubeHollow.tsx:436 | the panel button flips the panel flag alone |
| CubeHollow.HollowPage.CubePosition | src/components/CubeHollow.tsx:244-250 | while in place the dug-out cube is drawn exactly at the hollow |
| CylinderNet.SideScaleX | src/components/CylinderNet.tsx:26-30 | the side's horizontal scale runs from 1 closed to 0.02 open, and stays between them |
| CylinderNet.TopY | src/components/CylinderNet.tsx:34-36 | the top base is interpolated from the side's top rim to 2 units above it |
| CylinderNet.BottomY | src/components/CylinderNet.tsx:44-46 | the bottom base is interpolated from the side's bottom rim to 2 units below it |
| CylinderNet.RectOpacity | src/components/CylinderNet.tsx:82 | the rectangle's opacity stays within [0, 0.5] |
| CylinderNet.BaseEndPoints | src/components/CylinderNet.tsx:32-46 | the bases start at 1.25 and −1.25 and end at 3.25 and −3.25 |
| CylinderNet.BasesMirror | src/components/CylinderNet.tsx:34-46 | the two bases are mirror images through the side's middle at every progress |
| CylinderNet.MovesApartAsItOpens | src/components/CylinderNet.tsx:25-46 | further along, the top is higher, the bottom lower and the side narrower |
| CylinderNet.RectVisible | src/components/CylinderNet.tsx:77 | the rectangle is drawn exactly when the status badge reads "unfolding" |
| CylinderNet.RectFadedInWhenShown | src/components/CylinderNet.tsx:77-82 | whenever the rectangle is drawn its opacity is above 0.25 and at most 0.5 |
| CylinderNet.CylinderNetPage.constructor | src/components/CylinderNet.tsx:167-170 | the page opens folded, not dragging |
| CylinderNet.CylinderNetPage.Shape | src/components/CylinderNet.tsx:21-52 | the drawn side scale and base heights stay within their end values, and the bases mirror each other |
| CylinderNet.OpenedPageIsFolded | src/components/CylinderNet.tsx:21-52 | a fresh page draws the closed cylinder: full-width side, bases on its rims, no rectangle |
| ConeNet.RimAngle | src/components/ConeNet.tsx:17-21 | rim vertex 0 is at −angle/2 and rim vertex `segments` at angle/2 |
| ConeNet.RimAngleSpan | src/components/ConeNet.tsx:17-21 | the rim runs from −angle/2 to angle/2 and, for a non-negative angle, turns one way throughout |
| ConeNet.CreateSectorGeometry | src/components/ConeNet.tsx:12-38 | the buffers hold the apex, then rim point i at the cosine and sine of its angle for i = 0..segments, then triangle t joining the apex with rim points t and t + 1; every index names an existing vertex |
| ConeNet.PageSector | src/components/ConeNet.tsx:81 | the page's 32-segment sector has 102 vertex coordinates and 96 indices |
| ConeNet.SideScale | src/components/ConeNet.tsx:55-60 | the side scales equally in x and y, from 1 closed to 0.02 open |
| ConeNet.BaseY | src/components/ConeNet.tsx:64-66 | the base is interpolated from under the cone to lowered clear of it |
| ConeNet.BaseMovesDown | src/components/ConeNet.tsx:62-66 | the base starts at −1.5, ends at −3.7 and only goes down as the cone opens |
| ConeNet.SectorOpacity | src/components/ConeNet.tsx:108 | the sector's opacity stays within [0, 0.5] |
| ConeNet.SectorVisible | src/components/ConeNet.tsx:100-101 | whenever the badge reads "unfolding" the sector is drawn |
| ConeNet.SectorBeforeStatus | src/components/ConeNet.tsx:100-101 | the sector appears (above 0.3) before the badge reads "unfolding" (above 0.5) and stays while it does |
| ConeNet.ConeNetPage.constructor | src/components/ConeNet.tsx:164-167 | the page opens folded, not dragging |
| ConeNet.ConeNetPage.CurrentBaseY | src/components/ConeNet.tsx:62-66 | the drawn base height lies between its folded and unfolded heights |
| LoginPage.LeadingSpaces | src/components/LoginPage.tsx:46 | counts the white space before the first non-space character |
| LoginPage.TrailingSpaces | src/components/LoginPage.tsx:46 | counts the white space after the last non-space character |
| LoginPage.Trim | src/components/LoginPage.tsx:46 | the trimmed answer is empty or starts and ends with a non-space |
| LoginPage.Accepts | src/components/LoginPage.tsx:46 | the submit test; an accepted answer has at least the two characters of "12" (`AcceptsIff` gives the exact condition) |
| LoginPage.TrimStartSkipsSpaces | src/components/LoginPage.tsx:46 | leading white space never survives trimming |
| LoginPage.TrimEndSkipsSpaces | src/components/LoginPage.tsx:46 | trailing white space never survives trimming |
| LoginPage.TrimKeepsInner | src/components/LoginPage.tsx:46 | a string with non-spaces at both ends trims to itself |
| LoginPage.TrimIdempotent | src/components/LoginPage.tsx:46 | trimming twice is trimming once |
| LoginPage.AcceptsPadded | src/components/LoginPage.tsx:46 | "12" with any white space before and after is accepted |
| LoginPage.AcceptedIsPadded | src/components/LoginPage.tsx:46 | an accepted answer is "12" with only white space around it |
| LoginPage.AcceptsIff | src/components/LoginPage.tsx:46 | an answer is accepted if and only if it is "12" surrounded by white space only |
| LoginPage.BareAnswerAccepted | src/components/LoginPage.tsx:46 | "12" is accepted |
| LoginPage.SpacePaddedAnswerAccepted | src/components/LoginPage.tsx:46 | " 12 " is accepted |
| LoginPage.TabAndNewlinePaddedAnswerAccepted | src/components/LoginPage.tsx:46 | a tab before and a line break after "12" are forgiven |
| LoginPage.NearMissesRejected | src/components/LoginPage.tsx:46 | "1 2", "", "012" and "12." are rejected: interior white space is not forgiven |
| LoginPage.LoginForm.constructor | src/components/LoginPage.tsx:40-42 | the form opens empty, with no error and no shake |
| LoginPage.LoginForm.SetAnswer | src/components/LoginPage.tsx:117-120 | typing replaces the answer and nothing else |
| LoginPage.LoginForm.HandleSubmit | src/components/LoginPage.tsx:44-50 | an accepted answer calls onLogin once and leaves error and shake alone; a rejected one sets error and shake and does not call onLogin |
| LoginPage.PaddedAnswerLogsIn | src/components/LoginPage.tsx:44-47 | submitting " 12 " on a fresh form logs in once and shows no error |
| LoginPage.InteriorSpaceIsRejected | src/components/LoginPage.tsx:44-50 | submitting "1 2" shows the error, shakes the form and does not log in |

## Left out

- Rendering: the three.js, react-three-fiber and drei scene code carries no logic to state. This covers meshes, materials, lights, orbit controls, labels, colours, hover highlights and the per-frame wobble driven by `Math.sin` of the clock.
- gsap tweening: durations and easing curves belong to a foreign library. The model gives the target value handed to `gsap.to` and the pose reached at each progress, not the frames in between.
- ConeNet.CreateSectorGeometry: cosine and sine are parameters, so the model fixes each rim point's angle and not its irrational coordinates. The slant height (`Math.sqrt`) and the sector angle (1.3·π) are parameters too. The buffers are sequences of reals; their conversion to a `Float32BufferAttribute` and `computeVertexNormals` are left out.
- ConeNet.CreateSectorGeometry: requires at least one segment. With zero segments the step `angle / segments` is infinite or NaN, so the single rim vertex the first loop still pushes has NaN coordinates (vertices 0, 0, 0, NaN, NaN, 0) and the index buffer stays empty. Exact reals cannot express NaN. The page always passes 32.
- Nets.IsCubeNet: does not check that folding a layout along its shared edges produces the folded poses its table lists; it checks the cells and the poses separately. Entry 11 of the registry meets it although its folded poses cannot come from folding its layout (`CubeNetAll.LastEntryBreaksOppositesRule`).
- CylinderNet: the unrolled width 2πr is irrational and drawn only, so it is not modelled.
- Floating point: all progress and pose arithmetic is exact, not IEEE double.
- Angles are integer quarter turns instead of radians. `Geometry.LerpScales` shows this changes nothing for the interpolation.
- LoginPage.LoginForm.HandleSubmit: the two `setTimeout` calls that clear shake after 500 ms and error after 2000 ms are time-based UI. They are not modelled, so shake and error stay on once set.
- LoginPage.LoginForm: `onLogin` is the parent's callback. It is modelled as a call counter; what the parent then shows is not part of this model.
- Event dispatch: successive handler calls are taken to see each other's state updates. React's batching of updates within one event is not modelled.
- Static text: the formulas, descriptions, rhymes and status texts are display strings and are not modelled. The family badge prefix of each entry's name is.
- `src/App.tsx` (tab and shape routing) and `src/components/Unit3Geometry.tsx` (static lesson content) are not part of this model. `src/App.tsx:215` serves only as the statement of the opposite-face rule.

## Findings

| source | as written | input that shows it | evidently intended | confidence | as-written member | corrected member |
|---|---|---|---|---|---|---|
| src/components/CubeHollow.tsx:118-129 | the faces drawn in red in the hollow are [0, 2, 4] for a corner, [0, 2, 4, 5] for an edge and [0, 2, 3, 4, 5] for a face hollow; each list contains the front face 0, which lies in the big cube's outer surface and which the extracted cube colours as original (lines 141-152, 262) | hollowType 'corner': both tables are [0, 2, 4], so the hollow paints the three outer faces and none of the three inner walls 1, 3, 5 that the extracted cube colours as new | the hollow shows the walls it exposes, the faces not on the surface: [1, 3, 5], [1, 2, 3, 5], [1, 2, 3, 4, 5]; these are exactly the faces the extracted cube colours as new (`CubeHollow.HollowTablesPartitionFaces`, `CubeHollow.ExtractedCubeColouring`) | medium, not executed | CubeHollow.HollowTableAsWrittenOverlapsOriginal | CubeHollow.VisibleSmallFaces |
