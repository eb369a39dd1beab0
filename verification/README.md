# Window management of labwc, modelled and verified in Dafny

labwc is a stacking Wayland compositor. This project models the part of it that decides where windows are,
in which order they are stacked, who has the focus and who owns what, and proves what that code is for.
`dafny verify dfyconfig.toml` checks everything.

Event handlers and in-place algorithms are methods on classes or arrays. Each is proved equal to a function
of the old state, or directly against the property it is written for; the lemmas then reason about those
functions over all inputs, all orders of events and all runs. The modules named `...Laws` say what each operation
computes in terms of edges, pixels, order and membership, so that the functions are not their own measure. `wl_list` is a sequence, the static records of
the C files are objects, and pointers to views, surfaces, outputs and workspaces are numbers.

| modules | subject | main results |
|---|---|---|
| `Geometry`, `Overlap`, `Grid`, `PlacementGrid`, `Placement`, `PlacementScore`, `PlacementBest`, `PlacementLaws` | least-overlap placement | `PlacementBest.FindBest`: trying four corners per grid cell finds a global optimum over all positions; `Grid.EntryCountsEveryPixel`: the bitmap is pixel counting; `PlacementLaws.FreePlaceIsUsed` |
| `Edges`, `Snap`, `Resistance`, `ResizeResistance` | edges of other windows and outputs | `Snap.MoveToEdge`, `Snap.RunsStopEverywhere`, `Resistance.MoveApply`, `Resistance.MovesShortIff`, `ResizeResistance.ResizeApply` |
| `SnapConstraints`, `Grow`, `Shrink`, `SnapLaws`, `XdgShell`, `ShellLaws`, `ShellRuns`, `StickyEdge`, `StickyShrink`, `StickyMixed` | resizing against the configure protocol of xdg-shell | `ShellRuns.RunsStaySynced`, `ShellRuns.LeftDragPinsRightIff`, `StickyEdge.PressesReachTheEdge`, `StickyShrink.SqueezesReachTheLeast`, `StickyMixed.GrowingTakesBackIff` |
| `Order`, `Stacking`, `StackingLaws`, `ShowDesktop`, `ShowDesktopLaws`, `ShowDesktopTwice`, `ShowDesktopBehind` | stacking of families, minimizing, show-desktop | `Stacking.RestackingKeepsFamilies`, `StackingLaws.RaisedIsTheOnly`, `ShowDesktopBehind.TwiceRestoresIff`, `ShowDesktopTwice.TwiceIsRoundTrip` |
| `FloatingGeometry`, `FloatingLaws`, `LayoutChanges`, `Cascade`, `Pixels`, `Regions`, `RegionRuns`, `RegionLaws` | special states, changes of the layout, cascading placement, snap regions | `FloatingGeometry.NeverLostIff`, `LayoutChanges.ComesBackIff`, `Cascade.Settle`, `Regions.ReconfigureReattaches`, `RegionRuns.RunsKeepRegionsLive` |
| `GpuBinds`, `GpuRuns`, `GpuLaws` | the buffer table shared between threads | `GpuRuns.InterleavingsAreSafe`, `GpuRuns.TeardownBalances` |
| `OutputIds`, `Outputs`, `OutputLaws` | output ids | `Outputs.RunsKeepIdsDistinct`, `Outputs.FullIffSixtyFour` |
| `Workspaces`, `WorkspaceRuns`, `WorkspaceLaws` | workspaces | `WorkspaceRuns.ReconfigureKeeps`, `WorkspaceRuns.AdjacentOccupied` |
| `SessionLock`, `SessionRuns`, `SessionLaws`, `SessionCallbacks` | session lock and keyboard focus | `SessionRuns.RunsStaySound`, `SessionRuns.LockTakesFocusIff`, `SessionCallbacks.PromptRunsNeverFail` |

## Where the code does not do what one would expect

- Show-desktop brings back what it hid only if the active view, if any, belongs to the frontmost family and no
  visible view has a minimized relative (`ShowDesktopBehind.TwiceRestoresIff`); the failing family is
  `ShowDesktopBehind.BehindLosesEverything`, an instance `ShowDesktopTwice.ActiveBehindLosesViews`. The view
  that was active is active again only if it was what focusing its root would have selected before the first
  toggle: a plain dialog loses the focus to its parent (`ShowDesktopTwice.RefocusesIff`,
  `ShowDesktopTwice.PlainDialogLosesFocus`).
- The floating geometry of a window survives maximizing, fullscreen and tiling only under two conditions
  (`FloatingGeometry.NeverLostIff`). A window that is on screen but partly past the left or top edge of the
  usable area is moved when it is unmaximized (`FloatingGeometry.NotComingBackLoses`), and a window that meets
  the output only under a panel loses the free axis when it is maximized along one axis first
  (`FloatingGeometry.FreeAxisLoses`).
- While the left or top edge is dragged, a timeout moves the edge that should stay if the client has another
  size than the request (`ShellRuns.TimeoutKeepsRightIff`, `ShellRuns.LeftDragPinsRightIff`). The requests that
  follow have the edge of the grabbed box again, and the window is off that edge until a commit acknowledges one
  of them or has a new size (`ShellRuns.LeftDragAnchorsIff`, `ShellRuns.LeftDragReturnsIff`); with a client that
  does neither it stays off (`ShellRuns.SlowClientLeavesEdge`).
- After a resize by the left edge has ended, a late commit can move the right edge
  (`ShellRuns.LateCommitKeepsRightIff`), as the comment in `src/view-impl-common.c:84-96` admits.
- Shrinking can enlarge a view: one that is below the least size, and, however large, one whose client has rounded
  an earlier request down past another edge. The search starts from the remembered edge, so an edge between the
  actual and the remembered size comes first (`Shrink.ShrinksIff`, `Shrink.EnlargesIff`,
  `StickyShrink.SqueezingEnlarges`).
- Growing does not take shrinking back unless the window stood at the edge of a neighbour or the output
  (`StickyMixed.GrowingTakesBackIff`).
- A change of the layout can move a floating window whose title bar starts outside the usable area, or whose midpoint
  is past the right or bottom end of it, even if the window's own output does not change
  (`LayoutChanges.ComesBackIff`). A move by the user while the output cannot be used is undone by the next change
  (`LayoutChanges.MoveWithoutOutputIsForgotten`).
- A session lock requested during an interactive mode, or while a layer surface has exclusive keyboard focus,
  does not take the focus away from the surface that has it until a lock surface is shown
  (`SessionRuns.LockTakesFocusIff`, `SessionRuns.FirstMapTakesFocus`).
- The idle callback of a mapped lock surface uses the surface of its cover without a check. It follows a dead
  pointer if the surface is destroyed first and nothing else takes the focus, or if the lock is undone first
  (`SessionCallbacks.CallbackFailsIff`, `SessionCallbacks.DestroyedEarlyFails`,
  `SessionCallbacks.UnlockedEarlyFails`).
- A fullscreen or maximized view stays on the name of a lost region after a reconfiguration
  (`Regions.ReconfigureReattaches`), until it leaves that state (`RegionRuns.LeavingReattaches`).
- A segment that is larger by one pixel than the one it is centred in starts a pixel before it; a still larger one
  starts where it does (`Geometry.CenterAxisCentres`).
- If a family has several modal dialogs, the one furthest back gets the focus (`ShowDesktopLaws.FocusTargetIs`).
- Cascading looks at whether the new view is minimized (`src/view.c:1023`), not whether the other one is;
  so does the model.

## Model

| member | source | states |
|---|---|---|
| `PlacementGrid.CountViews` | src/placement.c:44-67 | The count is the number of windows that placement must avoid; an unusable output has none. |
| `PlacementGrid.OrderGrid` | src/placement.c:70-90 | In place, the array prefix becomes strictly increasing and holds exactly the values it held before. |
| `PlacementGrid.DedupePrefix` | src/placement.c:70-90 | The in-place compaction keeps one element of every run of equal ones. |
| `PlacementGrid.DedupeAll` | src/placement.c:70-90 | Compacting any sorted rearrangement gives a strictly increasing list with the original set of values. |
| `PlacementGrid.CollectLines` | src/placement.c:100-192 | Both line arrays fit in two entries per window plus two, so the bounds asserts of the source cannot fire, and hold the lines of both axes. |
| `PlacementGrid.AxisLinesCollect` | src/placement.c:100-192 | The collected lines stay inside the usable area, contain both of its ends, and contain every window edge strictly inside it. |
| `PlacementGrid.OverlapBitmap.BuildGrid` | src/placement.c:100-192 | The lines are a grid for all windows that count, one zeroed counter per cell; without such windows or without a usable output the grid is empty. |
| `Placement.FindInterval` | src/placement.c:194-221 | The result separates the lines at or below the value from those above it, -1 if none is at or below. |
| `Placement.Span` | src/placement.c:271-288 | The two searches perturbed by a half, clipped, select exactly the intervals that the window covers, for windows inside, across or outside the area. |
| `Placement.BumpBlock` | src/placement.c:290-299 | Exactly the counters of one block of cells grow by one. |
| `Placement.CountedStep` | src/placement.c:290-299 | Counting one more window keeps every entry equal to the number of windows over its cell. |
| `Placement.BuildOverlap` | src/placement.c:223-301 | After all windows each entry is the number of windows over the cell's corner pixel. |
| `Grid.CellUncut` | src/placement.c:92-100 | No window edge crosses a cell of the grid. |
| `Grid.EntryCountsEveryPixel` | src/placement.c:223-228 | The bitmap refines plain counting: an entry is the number of windows that cover any single pixel of its cell. |
| `Overlap.TotalIsPixelCount` | src/placement.c:311-316 | The overlap, a sum of intersection areas, is the number of (window, pixel) pairs counted one by one. |
| `PlacementScore.WalkRow` | src/placement.c:346-373 | Walking one row adds the overlap of one horizontal slice, or reports that width is left over exactly if the rectangle leaves the grid. |
| `PlacementScore.WalkRows` | src/placement.c:335-381 | Walking the rows adds the overlap of the part seen so far in either vertical direction. |
| `PlacementScore.ComputeOverlap` | src/placement.c:303-389 | In each of the four directions the value is the sum of intersection areas over all windows, or INT_MAX exactly if the rectangle leaves the grid that way; `single` implies that the rectangle is no larger than the cell. |
| `Overlap.TotalAffine` | src/placement.c:435-457 | The total overlap is affine in the position wherever no edge of the window meets an edge of another. |
| `Overlap.BestOnLine` | src/placement.c:435-457 | Moving along one axis, some position that touches a grid line overlaps no more than any given position. |
| `Overlap.BestOnRow` | src/placement.c:435-457 | The same for the other axis. |
| `Grid.CornerIsAsGood` | src/placement.c:435-457 | For every position inside the usable area some corner alignment of some cell scores at most its overlap. |
| `Grid.SmallScoresSame` | src/placement.c:450-457 | A window no larger than the cell scores the same in all four directions. |
| `PlacementBest.SkipRest` | src/placement.c:508-514 | Leaving out the remaining directions after a single-cell score loses no better candidate. |
| `PlacementBest.LeastIsOptimal` | src/placement.c:458-517 | The least score over all cells and directions is a lower bound for every position inside the usable area. |
| `PlacementBest.TotalIsExact` | src/placement.c:430-483 | The overlap of a window that fits stays below the value that stands for `does not fit`. |
| `PlacementBest.TryCell` | src/placement.c:460-515 | Trying one cell keeps the running minimum, and the position recorded with it, exact. |
| `PlacementBest.Search` | src/placement.c:430-519 | If the window fits, the recorded position is inside the area and no position inside the area overlaps less. |
| `PlacementBest.FindBest` | src/placement.c:391-522 | Global optimality: a window that fits, gaps and decorations included, is put where its total overlap with the other windows is least among all positions of the usable area; otherwise in the corner; fails exactly on an unusable output. |
| `PlacementBest.FreeIffZero` | src/placement.c:503-506 | Overlap zero means that no pixel is covered by another window, and conversely. |
| `PlacementBest.FreeSpotIsFound` | src/placement.c:503-506 | If any position is free of other windows, an optimal position is free too. |
| `PlacementLaws.CountIsWindows` | src/placement.c:243-268 | The obstacles cover a pixel as often as there are focusable windows of the workspace and output, other than the new one, whose decorated box has it; a shaded window is all decoration. |
| `PlacementLaws.ClearIffFree` | src/placement.c:311-316 | No obstacle is under the inflated view exactly if none of these windows has a pixel there. |
| `PlacementLaws.BestOfAll` | src/placement.c:391-522 | A view that fits with its gap is placed inside the usable area where its decorated box overlaps least of all places there. |
| `PlacementLaws.FreePlaceIsUsed` | src/placement.c:391-522 | If any place in the area lets the decorated view and its gap touch no window, it touches none where it is placed. |
| `Edges.ClippedAdd` | include/edges.h:16-26 | Addition saturates at the two limits of an int. |
| `Edges.ClippedSub` | include/edges.h:28-38 | Subtraction saturates at the two limits of an int. |
| `Edges.FindNeighbors` | src/edges.c:371-426 | The loop over windows is the validator folded over the neighbours in stacking order; nothing changes on an unusable output. |
| `Edges.FindOutputs` | src/edges.c:428-470 | The loop over outputs is the validator folded over the usable areas that the motion touches. |
| `Edges.FoldBySide` | src/edges.c:131-152 | The four sides are searched independently of each other. |
| `Edges.NeighborsIff` | src/edges.c:371-426 | A region is offered exactly if it is the decorated box of a window that is shown on the current workspace and shares an output with the view, with its visible sides or all of them. |
| `Edges.NearOutputsIff` | src/edges.c:428-464 | An area is searched exactly if it is that of a usable output that the motion touches, and the one asked for if one is. |
| `Snap.FoldFindsFirst` | src/snap.c:14-52 | For any neighbours in any order the fold leaves the first offered edge on the way, or the untouched sentinel if there is none. |
| `Snap.BetterOfTwo` | src/edges.c:472-524 | Of the candidates of the leading and the trailing edge the nearer one to the start wins, whatever mixture of sentinels they are. |
| `Snap.AxisRests` | src/edges.c:472-524 | The adjusted coordinate is ahead, is an alignment or the target, and no alignment ahead is nearer. |
| `Snap.LimitByWindows` | src/snap.c:103-133 | The windows limit the motion to the nearest of all opposing and aligned edges of the leading and the trailing side. |
| `Snap.MoveToEdge` | src/snap.c:54-134 | The view moves along one axis only, to the nearest alignment ahead or to where its decorations lie a gap inside the output's edge; not at all if that is not ahead or the output is unusable. |
| `Snap.TargetIsFlush` | src/snap.c:75-101 | The goal is the one coordinate at which the decorated window lies a gap inside the edge of its output, in each direction, shaded or not. |
| `Snap.TargetAheadIff` | src/snap.c:75-101 | The command moves the view exactly if its decorations are more than a gap inside that edge. |
| `Snap.StopIff` | src/snap.c:103-133 | A coordinate is a stop exactly if there the decorated view is a gap before or after, or flush with, the decorated box of a window in its way. |
| `Snap.RunsEnd` | src/snap.c:54-134 | Each repetition of the command comes strictly closer to the output's edge, so a run has at most as many moves as the initial distance. |
| `Snap.RunsStopEverywhere` | src/snap.c:54-134 | A run that reaches the output's edge has stopped at every alignment on its way. |
| `Resistance.CheckTakesIff` | src/resistance.c:11-75 | The check takes an edge exactly if the side leads or is attracted, starts at or before the edge, would end in its zone and crosses it; saturation makes no difference. |
| `Resistance.CheckChooses` | src/resistance.c:11-75 | Checking one more edge keeps the candidate the nearest to the start of those that hold the side. |
| `Resistance.FoldsChoose` | src/resistance.c:123-145 | After outputs and windows have been searched each side holds the nearest edge that holds it, or a sentinel if none does. |
| `Resistance.FindEdges` | src/resistance.c:123-150 | The two searches choose right on all four sides. |
| `Resistance.MoveApply` | src/resistance.c:123-156 | Each coordinate ends where the first obstacle holds the view, or where it was asked to go if none does; so it is within the larger strength of that, and puts an edge on an offered one if it differs. |
| `Resistance.MovesShortIff` | src/resistance.c:123-156 | A coordinate differs from the requested one exactly if an obstacle holds the view elsewhere before one holds it there. |
| `Resistance.ResistsIff` | src/resistance.c:41-75 | Without attraction: exactly if any obstacle holds it. |
| `Resistance.TraversesIff` | src/edges.c:567-635 | The interpolation decides whether the side overlaps the obstacle at the moment it is at the obstacle's position. |
| `Resistance.DraggedLeftIff` | src/resistance.c:41-75 | An output's left edge holds a window dragged straight to the left exactly if its decorations and gap start inside, would end outside by at most the strength, and are level with the output. |
| `Resistance.DraggedRightIff` | src/resistance.c:41-75 | The same for its right edge. |
| `Resistance.DraggedUpIff` | src/resistance.c:41-75 | The same for its upper edge. |
| `Resistance.DraggedDownIff` | src/resistance.c:41-75 | The same for its lower edge. |
| `ResizeResistance.AdjustedHeld` | src/edges.c:526-565 | The dragged side ends where it is held first, or as requested if it is not held. |
| `ResizeResistance.SideHeldIff` | src/resistance.c:158-193 | A dragged side differs from the request exactly if it is held, and not first of all where it is asked to go. |
| `ResizeResistance.ResizeApply` | src/resistance.c:158-193 | Each dragged edge ends where the first obstacle holds it or as requested, within the larger strength; near edges that are not dragged stay, far ones are those of the request or the actual geometry; the cache records the result. |
| `Grow.GrowToNextEdge` | src/snap.c:136-214 | The request and the cache after the command; nothing changes if the view would shrink, keep its size or has no usable output. |
| `Grow.SnappedIsNextStop` | src/snap.c:186-214 | Three edges of the request are those of the view, the fourth is the nearest offered edge ahead of the remembered one, or the output's edge. |
| `Grow.LimitIsFlush` | src/snap.c:146-172 | The limit is the one place of the moving edge at which the decorated window lies a gap inside the output's edge. |
| `SnapLaws.GrownIff` | src/snap.c:174-214 | A request is made exactly if that place is outside the window on the side that grows. |
| `SnapLaws.GrowStopIff` | src/snap.c:186-214 | A growing side stops exactly where its decorations are a gap from the opposite side of a window in the way, or flush with the same side of it. |
| `Shrink.ShrinkToNextEdge` | src/snap.c:216-284 | The request and the cache after the command, in each of the four directions. |
| `Shrink.ShrunkIsNextStop` | src/snap.c:252-284 | Three edges stay; the fourth stops at the first edge of the output or a neighbour on its way inwards, or half way. |
| `Shrink.ShrinksIff` | src/snap.c:223-264 | For any cache: the request is smaller than the view exactly if the view exceeds the least size and no edge lies from its actual up to its remembered size, or it is below the least size and an edge lies between a smaller remembered size and the actual one. |
| `Shrink.EnlargesIff` | src/snap.c:223-264 | And it is larger exactly in the mirrored cases. |
| `Shrink.ShrinksIffLarger` | src/snap.c:223-264 | Without a remembered edge the view gets smaller exactly if it exceeds the least size, never below half; a view below the least size is enlarged instead. |
| `Shrink.FoldFurther` | src/edges.c:371-426 | Searching windows after outputs finds the first edge of both together. |
| `SnapLaws.HalvedIs` | src/snap.c:223-246 | The side moves in to half the size or the least one; the opposite side and the other axis stay. |
| `SnapLaws.SearchedAreaIff` | src/snap.c:252-262 | Of all outputs only the view's own is searched, if the motion touches its usable area. |
| `SnapLaws.AreaOfferIff` | src/snap.c:252-262 | A shrinking side can stop at the same side of that area. |
| `SnapLaws.RecordedValidIff` | src/snap-constraints.c:57-131 | A recorded hit is valid for the view, the sides and the geometry it was recorded for, and no others. |
| `SnapLaws.ValidNeeds` | src/snap-constraints.c:57-95 | A hit is of no use for a resize by opposite sides or by none, nor without a proper coordinate. |
| `SnapLaws.AnswerValidIff` | src/snap-constraints.c:140-166 | After an answer it is valid for the actual geometry exactly if the answer is to the recorded request of that view, or the geometry is as recorded. |
| `SnapLaws.EffectiveIs` | src/snap-constraints.c:168-206 | The geometry to search from has the recorded edges on the moved sides: near ones shift it, far ones stretch it. |
| `StickyEdge.AnswerSettles` | src/xdg.c:322-340 | After the answer, no larger than requested, the edge opposite to the moving one and the near edge of the other axis are where they were, the geometries agree and the cache belongs to the actual geometry. |
| `StickyEdge.PressMovesOn` | src/snap.c:186-214 | One command and its answer advance the remembered edge to the next stop, whatever size the client settles for. |
| `StickyEdge.PressAtLimit` | src/snap.c:176-187 | A view that touches the output's edge is left alone. |
| `StickyEdge.PressAdvances` | src/snap.c:136-214 | Every ready state leads to a ready state whose remembered edge is the next stop. |
| `StickyEdge.PressesReachTheEdge` | src/snap-constraints.c:57-206 | Sticky-edge freedom: the remembered edge gets strictly closer with each command until it is the output's edge, then stays, and the opposite edge never moves. |
| `StickyEdge.NoEdgeIsSkipped` | src/snap-constraints.c:168-206 | On the way every neighbouring edge is remembered once. |
| `StickyShrink.RequestedSize` | src/snap.c:223-284 | The size asked for is at least the least one, below the remembered one unless that is the least, and passes over no neighbour. |
| `StickyShrink.SqueezeMovesOn` | src/snap.c:216-284 | One command and its answer bring the remembered size down to the next stop; the opposite edge stays. |
| `StickyShrink.SqueezesReachTheLeast` | src/snap-constraints.c:57-206 | Repeated shrinking against a rounding client: the remembered size falls strictly until it or the window has the least size, and then stays. |
| `StickyShrink.NoSizeIsSkipped` | src/snap-constraints.c:168-206 | On the way every neighbouring edge is remembered once. |
| `StickyShrink.SqueezeShrinksIff` | src/snap.c:223-284 | In the states that repeated shrinking reaches, the request is smaller than the window exactly if no edge lies between the actual and the remembered size. |
| `StickyShrink.SqueezingEnlarges` | src/snap.c:223-284 | A run that enlarges: from 900 to a neighbour's edge at 500, rounded to 480, and then to 495. |
| `StickyMixed.PressKeepsReady` | src/snap.c:136-214 | Growing a side leads from a state in which it can be grown and shrunk to another one, with the next stop remembered and the opposite edge where it was. |
| `StickyMixed.SqueezeKeepsReady` | src/snap.c:216-284 | So does shrinking it; the remembered edge moves in, unless the least size is reached, and passes over no window's edge. |
| `StickyMixed.MixedRunsStayReady` | src/snap.c:136-284 | In every mixed run of both commands on one side, with any sizes from the client: the opposite edge never moves, and the remembered edge stays between the window's and the output's and at or above the least size. |
| `StickyMixed.GrowingTakesBackIff` | src/snap.c:136-284 | After n commands that shrink, n that grow bring the remembered edge back exactly if it was at the output's edge or each of the n started at a window's edge; otherwise it ends further out. |
| `StickyMixed.ShrinkingTakesBackIff` | src/snap.c:136-284 | Shrinking once takes growing once back exactly if the old edge is a stop inwards, no other comes first, and it is not below half of what the client settled for. |
| `XdgShell.XdgView.HandleCommit` | src/xdg.c:211-363 | The state after a commit of any size and any acknowledged serial, the outdated-geometry workaround included. |
| `XdgShell.XdgView.HandleTimeout` | src/xdg.c:365-433 | After a timeout nothing is outstanding and the request gives way to the actual geometry. |
| `ShellLaws.CommittedSize` | src/xdg.c:276-305 | The actual size is that of the committed window geometry, unless the surface has exactly the requested size, and then it is that. |
| `ShellLaws.CommittedSizeIff` | src/xdg.c:276-305 | So it is the committed or the requested one, and the latter alone exactly if the surface has it and the window geometry does not. |
| `ShellLaws.CommittedPosition` | src/view-impl-common.c:71-118 | A commit that changes anything puts the window at the requested position, or at the requested far edge where a resize keeps that. |
| `ShellLaws.CommittedRequest` | src/xdg.c:307-340 | The request is over exactly when it is acknowledged, and a change without one is a request of its own. |
| `ShellLaws.FirstCommitPlaces` | src/xdg.c:266-285 | The first commit with a size shows the view in that size at its initial position. |
| `ShellLaws.EmptyCommitWaits` | src/xdg.c:266-285 | A commit without a size looks for no position. |
| `ShellLaws.FirstCommitConstrains` | src/xdg.c:127-154 | A first size that is too large is shown at the initial position while a smaller one is requested. |
| `ShellLaws.ConfiguredIff` | src/xdg.c:608-640 | A request becomes outstanding exactly if it has a new size and the surface is ready; otherwise the window moves at once, unless another one is outstanding. |
| `ShellLaws.TimedOutIs` | src/xdg.c:365-433 | A timeout keeps the size, moves the window to the requested or the fallback position, and ends the request. |
| `ShellLaws.FullscreenIsCentred` | src/xdg.c:169-184 | A fullscreen window of any size is centred on its output after every change and every timeout. |
| `Geometry.CenterAxisCentres` | src/common/box.c:38-55 | Centring is exact to a pixel where there is room; a larger segment starts where the other does, and one that is larger by a pixel ends where it ends. |
| `ShellRuns.RunsStaySynced` | src/xdg.c:211-446 | Over all runs, with grab, output and fullscreen state changing at will, the timer is armed exactly while a request is outstanding, and with none outstanding the requested geometry is the actual one or leaves the size to the client. |
| `ShellRuns.RequestAgreesIff` | src/input/cursor.c:339-371 | A request of the pointer, whose right edge is that of the grabbed box, leaves the window on it exactly if the window is there or takes the request over at once. |
| `ShellRuns.RequestAgreesBelowIff` | src/input/cursor.c:339-371 | The same for the bottom edge. |
| `ShellRuns.CommitAgreesIff` | src/xdg.c:276-363 | A commit leaves the window on the requested right edge exactly if it was there, or the commit acknowledges the request or has a new size. |
| `ShellRuns.CommitAgreesBelowIff` | src/xdg.c:276-363 | The same for the bottom edge. |
| `ShellRuns.LeftDragAnchorsIff` | src/view-impl-common.c:71-118 | Over a whole drag of the left edge, timeouts and what follows them included, the actual right edge is always the requested one if and only if each request finds the window at the edge of the grabbed box or is taken over at once. |
| `ShellRuns.TopDragAnchorsIff` | src/view-impl-common.c:71-118 | The same for the top edge and the bottom. |
| `ShellRuns.TimeoutKeepsRightIff` | src/xdg.c:365-433 | A timeout during the drag keeps the right edge exactly if the client already has the requested width. |
| `ShellRuns.TimeoutKeepsBottomIff` | src/xdg.c:365-433 | The same for the bottom edge and the height. |
| `ShellRuns.LeftDragPinsRightIff` | src/xdg.c:211-433 | Over a whole drag of the left edge, requests after a timeout included, the right edge never leaves that of the grabbed box if and only if no timeout gives up a request of another width. |
| `ShellRuns.TopDragPinsBottomIff` | src/xdg.c:211-433 | The same for the top edge and the bottom. |
| `ShellRuns.LeftDragReturnsIff` | src/xdg.c:211-363 | However a timeout has left the window: after the next request, up to the next timeout, its right edge is back on that of the grabbed box exactly once a commit acknowledges a request or has a new size, or a request is taken over at once. |
| `ShellRuns.TopDragReturnsIff` | src/xdg.c:211-363 | The same for the top edge and the bottom. |
| `ShellRuns.SlowClientLeavesEdge` | src/xdg.c:365-433 | A drag that ends with the window's right edge at 50 although every request has it at 100. |
| `ShellRuns.LateCommitKeepsRightIff` | src/view-impl-common.c:84-105 | After the button is released a late commit keeps the right edge exactly if the requested position still differs or the width is the requested one. |
| `ShellRuns.LateCommitKeepsBottomIff` | src/view-impl-common.c:106-114 | The same for the bottom edge and the height. |
| `ShellRuns.StaleCommitsKeepRequest` | src/xdg.c:308-340 | Commits with other serials change neither the request nor the cache. |
| `ShellRuns.RequestIsHonoured` | src/xdg.c:211-363 | A client that finally answers with the requested size ends up in exactly the requested box, whatever came in between. |
| `Stacking.Stack.AppendChildren` | src/xdg.c:716-738 | The children are the mapped other members of the family, from back to front. |
| `Stacking.Stack.AllToFront` | src/view.c:2153-2173 | Moving views to the front one by one reverses their order and keeps that of the others. |
| `Stacking.Stack.AllToBack` | src/view.c:2153-2181 | Moving views to the back one by one keeps their order and that of the others. |
| `Stacking.Stack.Raise` | src/view.c:2189-2230 | The new order is the view, its mapped relatives in their old order, the root, everything else in its old order; unchanged if the view or its descendant is in front. |
| `Stacking.Stack.Lower` | src/view.c:2232-2244 | Everything else in its old order, the mapped relatives reversed, the root last. |
| `Stacking.RaisePermutes` | src/view.c:2189-2230 | Raising neither loses nor duplicates a view. |
| `Stacking.LowerPermutes` | src/view.c:2232-2244 | Lowering neither loses nor duplicates a view. |
| `Stacking.RaiseKeepsTogether` | src/view.c:2183-2230 | Raising keeps the mapped members of every family adjacent, the root lowest. |
| `Stacking.LowerKeepsTogether` | src/view.c:2183-2244 | Lowering does too. |
| `Stacking.RestackingKeepsFamilies` | src/view.c:2183-2244 | So does any sequence of raises and lowers, and it permutes the views. |
| `StackingLaws.LoweredIff` | src/view.c:2232-2244 | After lowering, for any two views: everything else is in front of the relatives, these of the root; relatives have changed their order and all others have kept it. |
| `StackingLaws.LoweredIsTheOnly` | src/view.c:2232-2244 | Lowering is the only rearrangement with that order. |
| `StackingLaws.RaisedInFront` | src/view.c:2194-2205 | A view that is in front, or whose descendant is, stays where it is. |
| `StackingLaws.RaisedIff` | src/view.c:2207-2215 | After raising any other view: the view is in front of its relatives, these of the root, this of everything else, and each kind keeps its order. |
| `StackingLaws.RaisedIsTheOnly` | src/view.c:2189-2230 | Raising is the only rearrangement with that order. |
| `StackingLaws.GetRoot` | src/xdg.c:697-714 | The walk up the parents ends at the view without a parent that the chain leads to. |
| `StackingLaws.RootsAreTops` | src/xdg.c:697-714 | Roots recorded so are sound: a view has its parent's root, and one without a parent is its own. |
| `ShowDesktop.Desktop.FocusView` | src/desktop.c:113-173 | Focusing raises the family, focuses the modal dialog if there is one, and clears the show-desktop flags. |
| `ShowDesktop.Desktop.FocusTopmost` | src/desktop.c:200-226 | The frontmost view that is not minimized is focused, or none. |
| `ShowDesktop.Desktop.Minimize` | src/view.c:729-815 | A whole family is minimized or restored, with one change of focus at the end if it is needed. |
| `ShowDesktop.MinimizedKeeps` | src/view.c:729-815 | The new minimized set is the old one plus or minus the family, whatever focusing did in between. |
| `ShowDesktop.Desktop.MinimizeViews` | src/show-desktop.c:11-18 | The views are handled from the last to the first, and none leaves the stack. |
| `ShowDesktopLaws.FocusTargetIs` | src/desktop.c:161-170 | Focus goes to the view if it is modal or its family has no modal dialog, and else to the mapped modal dialog furthest back. |
| `ShowDesktopLaws.FocusedIs` | src/desktop.c:113-173 | Focusing raises the family, selects that view and ends the show-desktop state; nothing is minimized or restored. |
| `ShowDesktopLaws.FocusedTopmostIs` | src/desktop.c:200-226 | The view focused is the one in front of all others that are not minimized; the focus is lost if there is none. |
| `ShowDesktopLaws.MinimizedIs` | src/view.c:722-815 | Exactly the family is minimized, and the focus moves on exactly if the active view is hidden by that. |
| `ShowDesktopLaws.RestoredIs` | src/view.c:722-815 | Exactly the family is shown again, and the view is focused exactly if that brings back any of it. |
| `ShowDesktopLaws.ShownDesktopIsEmpty` | src/show-desktop.c:22-42 | The first toggle leaves every view minimized. |
| `ShowDesktopLaws.RestoredDesktopIs` | src/show-desktop.c:44-61 | The second brings back exactly the families with a flagged view, and forgets the flags. |
| `ShowDesktopTwice.HiddenDesk` | src/show-desktop.c:20-39 | If the active view is in the frontmost family, the flags survive the loop: exactly the views that were visible are flagged, and their families minimized. |
| `ShowDesktopTwice.TwiceRestoresMinimizedIff` | src/show-desktop.c:20-57 | Then two toggles restore the minimized set if and only if no visible view has a minimized relative. |
| `ShowDesktopTwice.RestoringFamilies` | src/show-desktop.c:41-57 | Families come back one after the other, each above the earlier ones, although focusing clears the flags inside the loop. |
| `ShowDesktopTwice.TwiceIsRoundTrip` | src/show-desktop.c:20-67 | Two toggles keep the relative order of the views that come back, restore the minimized set and reset the flags. |
| `ShowDesktopTwice.RefocusesIff` | src/desktop.c:146-173 | The old active view is active again exactly if, before the first toggle, it was what focusing its root selects: the backmost modal dialog of its family, or the root without one. |
| `ShowDesktopTwice.ChildrenKeepOrder` | src/show-desktop.c:20-57 | Two toggles leave the order of relatives within a visible family as it was. |
| `ShowDesktopTwice.PlainDialogLosesFocus` | src/show-desktop.c:41-57 | An active dialog that is not modal loses the focus to its parent. |
| `ShowDesktopTwice.ActiveBehindLosesViews` | src/show-desktop.c:20-57 | A desktop of two windows, the active one behind, on which the second toggle brings nothing back. |
| `ShowDesktopBehind.BehindClears` | src/desktop.c:200-226 | If another family is in front of the active view, hiding moves the focus while something is still visible, which clears every flag. |
| `ShowDesktopBehind.BehindLosesEverything` | src/show-desktop.c:20-67 | Then everything stays minimized after the second toggle. |
| `ShowDesktopBehind.TwiceRestoresIff` | src/show-desktop.c:20-67 | In every idle state two toggles restore the minimized set if and only if the active view belongs to the frontmost family and no visible view has a minimized relative. |
| `FloatingGeometry.XdgView.SnapToEdge` | src/view.c:2022-2095 | State, geometry and output after tiling to an edge, combined corners and the step to the adjacent output included. |
| `FloatingGeometry.OpKeeps` | src/view.c:1412-1461 | Each operation keeps, for a geometry g that survives on the output: a floating view is at g, any other remembers g, and one maximized along one axis still shows the other half of g. |
| `FloatingGeometry.FloatingGeometryIsNeverLost` | src/view.c:1206-1323 | After any sequence of maximizing, fullscreen, tiling, also across outputs, and unsnapping, a surviving geometry is in place whenever the view floats, and stored whenever it does not. |
| `FloatingGeometry.UnmaximizeRestoresIff` | src/view.c:847-905 | Maximizing and unmaximizing gives the geometry back exactly if the window is pinned, or its title bar starts inside the usable area of the output it meets, or it is placed where it was. |
| `FloatingGeometry.MaximizeTwiceRemembersIff` | src/view.c:1270-1300 | Maximizing one axis and then both remembers the other axis exactly if the window meets the usable area or is centred on that axis anyway. |
| `FloatingGeometry.NotComingBackLoses` | src/view.c:864-893 | A sequence that loses the geometry whenever the first condition fails: there and back. |
| `FloatingGeometry.FreeAxisLoses` | src/view.c:1270-1300 | A sequence that loses it whenever the second one fails: one axis first. |
| `FloatingGeometry.NeverLostIff` | src/view.c:1206-1323 | Every sequence of operations on one output keeps the geometry if and only if both conditions, readable off the geometry and the output, hold. |
| `FloatingLaws.MaximizedSpans` | src/view.c:1259-1301 | The decorations of a maximized window end at the edges of the usable area along its axes. |
| `FloatingLaws.MaximizedFreeHalf` | src/view.c:1269-1299 | Along the free axis a visible window stays as it is, and another one keeps its size and is centred. |
| `FloatingLaws.MaximizedStores` | src/view.c:1413-1460 | Maximizing remembers the floating geometry, or that which another state has remembered. |
| `FloatingLaws.FullscreenCovers` | src/view.c:1246-1257 | A fullscreen window covers its output. |
| `FloatingLaws.LeavingFullscreen` | src/view.c:1693-1726 | Leaving fullscreen shows the maximized or tiled state below, which has its own geometry. |
| `FloatingLaws.AdjustedTitle` | src/view.c:847-905 | A floating window that meets its output is moved right and down no further than its title bar needs; another one is placed anew. |
| `FloatingLaws.TiledIs` | src/view.c:2023-2095 | Tiling ends every other state, remembers the floating geometry and gives the box of the edge. |
| `FloatingLaws.CombinedTiles` | src/view.c:2067-2080 | With combination a half becomes a corner, and a corner its other half. |
| `FloatingLaws.ReplacedTiles` | src/view.c:2041-2081 | From every other tiling the edge is taken as it is. |
| `FloatingLaws.CornersAreTaken` | src/view.c:2041-2081 | Tiling to a corner or the centre is never combined and never leaves the output. |
| `FloatingLaws.CornerAndBack` | src/view.c:2067-2080 | Tiling a half to a corner and back gives the half again. |
| `FloatingLaws.TiledAcross` | src/view.c:2055-2066 | Tiling to the same edge once more sends the window to the near edge of the next output, or leaves it if there is none. |
| `FloatingLaws.RegionIs` | src/view.c:2097-2135 | The same for a region. |
| `FloatingLaws.UnsnappedFloats` | src/action.c:1430-1441 | Unsnapping lets a window float, in the remembered geometry if that comes back. |
| `FloatingLaws.HalvesMeet` | src/view.c:400-439 | Opposite halves lie a gap inside the usable area and a gap apart, and are as large as each other to a pixel. |
| `FloatingLaws.CornerIsOverlap` | src/view.c:400-439 | The pixels of a corner are those of both its halves; the centre fills the area. |
| `LayoutChanges.XdgView.SaveLastPlacement` | src/view.c:1728-1745 | The geometry is saved in layout and in output coordinates with the name of the output, if that can be used. |
| `LayoutChanges.XdgView.AdjustFloatingGeometry` | src/view.c:847-905 | With midpoint visibility: a pinned window stays, a title bar is moved in, and a window whose midpoint is not on the screen is placed by the policy. |
| `LayoutChanges.XdgView.AdjustForLayoutChange` | src/view.c:1756-1801 | A floating window goes to its relative place on the recorded output, or else to its old place in the layout on the nearest one, adjusted there; no placement is saved. |
| `LayoutChanges.PlacementIsKept` | src/view.c:572-593 | No run of layout changes and of commits, timeouts and other unsaved writes changes the saved placement. |
| `LayoutChanges.OnlyTheLastLayoutCounts` | src/view.c:1756-1801 | After any two such runs that end with the same layout, the window is at the same place on the same output. |
| `LayoutChanges.ComesBackIff` | src/view.c:1766-1774 | After any such run a window is back at its relative place on the output of the recorded name, wherever that is now, exactly if it is left undisturbed there. |
| `LayoutChanges.StaysWithoutOutputIff` | src/view.c:1775-1788 | While no output has the recorded name, it keeps its place in the layout exactly if it is left undisturbed there, or no output can be used. |
| `LayoutChanges.MoveWithoutOutputIsForgotten` | src/view.c:1728-1736 | A move by the user while the window's output cannot be used leaves no trace after the next layout change. |
| `LayoutChanges.SameNameIff` | src/output.c:1134-1147 | Names are the same if they have the same letters, in upper or lower case. |
| `LayoutChanges.AdjustedIs` | src/view.c:861-905 | A window is nudged so that its title bar starts inside, if its middle is then on the screen, and else placed by the policy from there. |
| `LayoutChanges.AdjustedKeepsIff` | src/view.c:861-905 | It is left alone exactly if it is pinned, on the screen, or placed where it is. |
| `LayoutChanges.EvacuatedToNearest` | src/view.c:441-460 | Without its output a window is given to the one nearest to its middle. |
| `LayoutChanges.MoveIsSaved` | src/view.c:572-593 | A move saves the place, the name of the output and the place on it, if that can be used. |
| `Cascade.CoveredIsBoundingBox` | src/common/box.c:17-36 | The area taken as covered is the least box around the windows that meet the candidate, and empty without any. |
| `Cascade.FirstHidden` | src/view.c:1014-1059 | The scan finds the first window from the top that the candidate hides and whose top-left corner is not in the covered area. |
| `Cascade.KeptMoves` | src/view.c:1030-1052 | A shift moves the candidate right and down by at least the offsets. |
| `Cascade.PathIsKept` | src/view.c:1030-1052 | Every place reached from the centre by shifts has its size and lies inside the usable area, right and below; there are at most as many shifts as offsets fit the width. |
| `Cascade.Settle` | src/view.c:1009-1061 | Termination; the result is the end of the path of shifts from the centre, each taken from the first hidden window, if nothing is hidden there, and the centred box if the next shift leads outside. |
| `Cascade.SettledPlace` | src/view.c:1009-1061 | The result has the size of the centred box, and is it or lies inside the usable area, right and below by at least the offsets. |
| `Cascade.PathIsUnique` | src/view.c:1009-1061 | The path is determined by centre, area and windows. |
| `Pixels.HidesIff` | src/view.c:1011-1058 | A window is hidden exactly if all of its pixels are in the candidate, and some box around the windows above it that meet the candidate leaves its corner free. |
| `Pixels.ShiftedIff` | src/view.c:1030-1034 | The next place has the size of the candidate and its corner off that of the topmost hidden window by the offsets. |
| `Pixels.LeadsOutIff` | src/view.c:1035-1048 | The search gives up exactly where that place would not lie in the usable area. |
| `Pixels.IntersectsIff` | src/common/box.c:6-15 | Boxes intersect exactly if they share a pixel. |
| `GpuBinds.Table.Store` | src/embed.c:96-137 | The slot of the same key is replaced, a new one appended, or the call fails on bad arguments or a full table; the reference counts move with it. |
| `GpuBinds.Table.Take` | src/embed.c:534-552 | The slot of the surface leaves the table together with its reference. |
| `GpuBinds.Table.Shift` | src/embed.c:545-548 | Closing the gap keeps the order of the other slots. |
| `GpuBinds.Table.Snapshot` | src/embed.c:351-359 | The copy is the table, and one reference is taken for each buffer in it. |
| `GpuBinds.Table.Clear` | src/embed.c:810-815 | The table is empty and exactly the references of its slots are given up. |
| `GpuRuns.StoreKeepsTable` | src/embed.c:96-137 | Storing keeps the keys unique and every slot occupied. |
| `GpuRuns.StoreAccounts` | src/embed.c:96-137 | Storing keeps every reference with exactly one owner, also when it replaces a buffer. |
| `GpuRuns.ForgetAccounts` | src/embed.c:534-556 | Between the critical section and the release the reference belongs to the pending release. |
| `GpuRuns.CopyAccounts` | src/embed.c:351-359 | A copy of the table owns one reference for each of its buffers. |
| `GpuRuns.StepKeeps` | src/embed.c:87-403 | Every atomic step keeps keys unique and references accounted for. |
| `GpuRuns.InterleavingsAreSafe` | src/embed.c:340-403 | In every interleaving each buffer that a slot, a presentation in flight or a pending release uses is still referenced, even if replaced or forgotten meanwhile. |
| `GpuRuns.TeardownBalances` | src/embed.c:810-815 | After teardown, with nothing in flight, only the callers' own references are left. |
| `GpuRuns.ForgetRemovesSurface` | src/embed.c:534-552 | After forget no slot names the surface, although the loop stops at the first match. |
| `GpuRuns.StoreIsFound` | src/embed.c:104-125 | A successful store is found under its key with its own arguments. |
| `GpuLaws.StoreSucceedsIff` | src/embed.c:104-122 | A store succeeds exactly with a buffer that has a size, if its surface, or without one its window, has a slot already or one of the eight is free. |
| `GpuLaws.StoredIs` | src/embed.c:107-136 | The bind takes its owner's slot, or the end of the table, and all other slots stay. |
| `GpuLaws.StoredCounts` | src/embed.c:124-126 | The new buffer gains a reference and the old one loses one. |
| `GpuLaws.ForgottenIs` | src/embed.c:534-570 | The surface's slot and no other is taken out, in order. |
| `GpuLaws.CopyHoldsTable` | src/embed.c:341-375 | A copy holds every buffer of the table, and each has gained a reference. |
| `GpuLaws.SyncStepsAre` | src/embed.c:341-400 | The later steps of a presentation change its own copy only, and each release gives up one of its references. |
| `OutputIds.PositionOfRotation` | src/output.c:615-617 | Rotating a single bit n times moves it n places, going round at 64. |
| `OutputIds.RotationReaches` | src/output.c:615-617 | Every single bit is reached from every other one by fewer than 64 rotations. |
| `OutputIds.LowestFreeIsFree` | src/output.c:605-607 | Unless all bits are used there is a single unused one. |
| `OutputIds.FreeWithin64` | src/output.c:615-617 | So fewer than 64 rotations of any single bit reach an unused one, unless none is unused. |
| `OutputIds.PositionRotates` | src/output.c:615-617 | A rotation moves the bit one place up, from the top to the bottom. |
| `Outputs.UsedIsHeld` | src/output.c:599-603 | A single bit is in the union of used bits exactly if some output has it. |
| `Outputs.RotateToFree` | src/output.c:608-617 | The loop halts at the first unused bit from the cursor on, within 64 steps. |
| `Outputs.Manager.IsKnown` | src/output.c:641-652 | A repeated announcement of an output is recognized. |
| `Outputs.Manager.CollectUsed` | src/output.c:599-603 | The loop collects the bits of all live outputs. |
| `Outputs.Manager.UnusedIdBit` | src/output.c:596-629 | Zero and an unchanged cursor if all bits are used, else the first unused bit with the cursor one place past it. |
| `Outputs.Manager.Add` | src/output.c:632-703 | A known output changes nothing; a new one gets a bit, and is listed only if it is a desktop output that can be set up. |
| `Outputs.AllocatedIsNew` | src/output.c:596-629 | Allocation fails exactly if all bits are used; otherwise the id is a single bit that no live output has. |
| `Outputs.RunsKeepIdsDistinct` | src/output.c:596-703 | In every run live outputs have pairwise different single-bit ids, and the cursor is a single bit, as the source asserts. |
| `Outputs.FullIffSixtyFour` | src/output.c:605-607 | At most 64 outputs are live, and no bit is left exactly when there are 64. |
| `OutputLaws.KnownIsIgnored` | src/output.c:632-660 | An output announced again changes nothing. |
| `OutputLaws.NewIsListedIff` | src/output.c:597-631 | A new output is listed exactly if it is to be shown and fewer than 64 are; it has a single bit that no other has. |
| `OutputLaws.EndedIsFree` | src/output.c:289-330 | An output that ends leaves the list, the others stay, and its bit is free again. |
| `Workspaces.Manager.SwitchTo` | src/workspaces.c:434-501 | The new state: windows that follow the switch are on the target, the old workspace is the last one. |
| `Workspaces.Manager.MoveAll` | src/workspaces.c:605-611 | Exactly the windows of one workspace are moved to another. |
| `Workspaces.Manager.Rename` | src/workspaces.c:557-590 | The loop leaves the configured names in place as far as it got, renames nothing else, and adds new workspaces only after the old ones. |
| `Workspaces.RenamedAll` | src/workspaces.c:557-595 | With enough names the renaming loop is the whole reconfiguration; otherwise the surplus workspaces are still there. |
| `Workspaces.Manager.DestroyNext` | src/workspaces.c:599-625 | One doomed workspace is emptied, left and removed, without a dangling reference even though leaving it made it the last one. |
| `Workspaces.Manager.Reconfigure` | src/workspaces.c:557-626 | The state after reconfiguring in closed form: prefix kept, names as configured, windows of destroyed workspaces on the first. |
| `Workspaces.EmptiedMore` | src/workspaces.c:599-625 | Destroying one more workspace composes with those destroyed before. |
| `WorkspaceRuns.ReconfigureKeeps` | src/workspaces.c:557-626 | Names equal the configuration in order, common workspaces keep their objects, no window is lost, all references are to listed workspaces, a surviving current workspace stays current. |
| `WorkspaceRuns.OthersStay` | src/workspaces.c:599-625 | A window is moved exactly if its workspace is destroyed or it follows the switch from a destroyed current one. |
| `WorkspaceRuns.SwitchKeeps` | src/workspaces.c:434-501 | Switching keeps all references live and remembers where it came from. |
| `WorkspaceRuns.SwitchBack` | src/workspaces.c:434-501 | Switching away and back moves only the windows that follow. |
| `WorkspaceRuns.StepKeepsLive` | src/workspaces.c:434-626 | Switching, reconfiguring, opening, moving, closing and dragging windows keep every reference live. |
| `WorkspaceRuns.RunsStayLive` | src/workspaces.c:434-626 | In every run the current workspace, the last one and every window's workspace are listed. |
| `WorkspaceRuns.HasViews` | src/workspaces.c:282-293 | A workspace is occupied if a focusable window that is not omnipresent is on it. |
| `WorkspaceRuns.AdjacentOccupied` | src/workspaces.c:295-336 | The result is the nearest other occupied workspace in the direction, around the list only with wrap; none exactly if there is none. |
| `WorkspaceLaws.SwitchTakesAlong` | src/workspaces.c:435-480 | A switch takes along windows for all workspaces and the dragged one, leaves all others, and changes nothing else about any. |
| `WorkspaceLaws.EverywhereStaysSeen` | src/workspaces.c:435-624 | Over runs of switches and reconfigurations, windows for all workspaces stay on the current one. |
| `WorkspaceLaws.CurrentAfter` | src/workspaces.c:557-624 | After a reconfiguration the current and the last workspace are the old ones if they survive, and else the first. |
| `WorkspaceLaws.NamesAfter` | src/workspaces.c:557-624 | The list is renamed in place, and extended or cut at its end. |
| `WorkspaceLaws.OccupiedIff` | src/workspaces.c:282-294 | A workspace counts as free exactly if every focusable window on it is for all workspaces. |
| `WorkspaceLaws.OccupiedAwayIs` | src/workspaces.c:282-345 | What the search accepts is another workspace, in reach, with a focusable window of its own. |
| `WorkspaceLaws.AwayIs` | src/workspaces.c:295-345 | The search goes round the list of workspaces modulo its length. |
| `WorkspaceLaws.DraggedStays` | src/view.c:2519-2525 | The dragged window stays the dragged one when others come and go. |
| `SessionLock.Session.Refocus` | src/session-lock.c:37-56 | If the focus was on this cover's surface it goes to the first mapped surface of another cover, or to none. |
| `SessionLock.Session.DestroyLock` | src/session-lock.c:256-269 | Destroying the covers one after the other ends with no cover and no lock focus. |
| `SessionLock.Session.FindCover` | src/session-lock.c:110-121 | The cover of an output, if it has one. |
| `SessionLock.Session.CoverOutputs` | src/session-lock.c:329-332 | Every output gets a cover in turn. |
| `SessionLock.Session.HandleNewLock` | src/session-lock.c:306-346 | A second lock is refused, an abandoned one replaced, and every output covered; the source's assert that no cover is left holds. |
| `SessionLock.CoverLostShown` | src/session-lock.c:37-56 | Losing a cover leaves the lock focus on a live cover's surface or on none, and moves it only to a mapped one. |
| `SessionRuns.CoverAllCovers` | src/session-lock.c:329-332 | Covering all outputs of a cleared list gives each exactly one cover. |
| `SessionRuns.StepKeeps` | src/session-lock.c:30-346 | Every event keeps the manager sound, and while locked none takes the keyboard from the lock. |
| `SessionRuns.RunsStaySound` | src/session-lock.c:30-346 | In every run: unlocked means no lock object, covers or lock focus; locked means exactly one cover for each output of the layout; the lock focus is none or a live cover's surface, and then has the keyboard. |
| `SessionRuns.LockedRunsStayGuarded` | src/seat.c:804-811 | While the session stays locked the keyboard stays with nobody or a live lock surface. |
| `SessionRuns.LockTakesFocusIff` | src/session-lock.c:325-327 | From locking on that holds exactly if nothing had the focus, or no interactive mode and no exclusive layer was in the way. |
| `SessionRuns.FirstMapTakesFocus` | src/session-lock.c:58-66 | In any sound state the callback of a mapped lock surface that is still there leaves the keyboard with a live lock surface. |
| `SessionRuns.LockedFocusIsDeaf` | src/seat.c:779-879 | While locked no request of clients, layers or interactive modes moves the focus. |
| `SessionLaws.SurfaceFocusIff` | src/seat.c:794-860 | A client's surface gets the keyboard exactly if nothing is locked, no layer is exclusive and no interactive mode holds it. |
| `SessionLaws.ForcedFocusIff` | src/seat.c:780-792 | A forced focus minds the lock only. |
| `SessionLaws.LayerFocusIff` | src/seat.c:868-905 | A layer takes the keyboard unless it is locked, and is noted as exclusive in any case. |
| `SessionLaws.OverrideIs` | src/seat.c:911-952 | An interactive mode takes a free keyboard away and gives it back where it is told to. |
| `SessionLaws.SurfaceLostIs` | src/session-lock.c:37-96 | When a lock surface goes, lock and keyboard pass to the first other mapped one, or to none, if they were with it. |
| `SessionLaws.CoverLostIs` | src/session-lock.c:156-169 | A cover that goes takes no other with it, and its callbacks. |
| `SessionLaws.CoverLostPasses` | src/session-lock.c:156-169 | It passes lock and keyboard on as its surface would. |
| `SessionLaws.NewLockIs` | src/session-lock.c:306-346 | A second lock is refused; another one covers each live output once, and takes the keyboard from where it may. |
| `SessionLaws.UnlockedIs` | src/session-lock.c:256-289 | Unlocking removes all covers, and the focus that one of them had. |
| `SessionLaws.NewSurfaceIs` | src/session-lock.c:110-154 | A lock surface is shown by the cover of its output and no other. |
| `SessionLaws.MappedIsHandled` | src/session-lock.c:68-83 | Mapping queues one callback, which is done when it has run. |
| `SessionLaws.HandledTakesFocus` | src/session-lock.c:58-66 | Then the surface takes lock and keyboard, unless another one has them. |
| `SessionLaws.EnabledIs` | src/output.c:405-441 | An output that joins the layout of a locked session is covered, once. |
| `SessionLaws.OutputLostIs` | src/session-lock.c:171-176 | A lost output leaves the layout with its cover and no other. |
| `SessionLaws.PlainEventsAre` | src/session-lock.c:290-304 | Unmapping, abandoning and the end of a layer or of a client's surface change one thing only. |
| `SessionCallbacks.CallbackFailsIff` | src/session-lock.c:58-82 | An idle callback follows a dead pointer exactly if its cover is gone, or has no surface while nothing is focused. |
| `SessionCallbacks.DestroyedEarlyFails` | src/session-lock.c:58-91 | A run that fails: a lock surface destroyed between being mapped and the next idle moment. |
| `SessionCallbacks.UnlockedEarlyFails` | src/session-lock.c:58-82 | Another one: an unlock in between. |
| `SessionCallbacks.EarlyDestroyFailsIff` | src/session-lock.c:37-91 | A surface destroyed while its callback is queued makes the callback fail exactly if nothing was focused, or it was and no other lock surface is mapped. |
| `SessionCallbacks.PromptRunsNeverFail` | src/session-lock.c:58-176 | No run fails in which no event takes the surface or the cover from a queued callback. |
| `Regions.Named` | src/regions.c:32-44 | The first region of that name, none earlier in the list having it; none exactly if there is none. |
| `Regions.Desktop.Evacuate` | src/regions.c:147-157 | Exactly the windows on regions of this output remember the name instead of the region. |
| `Regions.Desktop.ReconfigureOutput` | src/regions.c:76-100 | The output has new regions for the configured names, and no window refers to an old one. |
| `Regions.Desktop.LoseOutput` | src/regions.c:147-172 | An output that ends takes its regions along after its windows have been evacuated. |
| `Regions.Desktop.ArrangeAll` | src/desktop.c:28-47 | Every window with a size is adjusted. |
| `Regions.Desktop.Reconfigure` | src/regions.c:102-114 | All outputs are rebuilt, then all windows are adjusted. |
| `Regions.RebuiltIsSound` | src/regions.c:76-100 | Rebuilding one output leaves no window on a dead region. |
| `Regions.ReconfigureReattaches` | src/view.c:1206-1233 | A window that was tiled to a region ends on the new region of that name, or floats in its natural geometry, exactly if it is arranged and neither fullscreen nor maximized; otherwise it keeps the name. |
| `Regions.AllRebuiltIsSound` | src/regions.c:102-110 | Nor does rebuilding all of them. |
| `RegionRuns.RunsKeepRegionsLive` | src/regions.c:76-172 | After any run a window's region is none or live, at most one of edge, region and remembered name is set, and every usable output has a region of the same name. |
| `RegionRuns.LeavingReattaches` | src/view.c:1206-1233 | A window that kept a name behind a fullscreen or maximized state gets the region of that name when it leaves it, or floats in its natural geometry if the name is gone. |
| `RegionRuns.OutputEventKeeps` | src/output.c:901-928 | Enabling, disabling and losing an output keep that. |
| `RegionLaws.GoneOutputIs` | src/regions.c:147-158 | An output that goes or is disabled sends the windows on its regions away with the name of their region, and no others. |
| `RegionLaws.EnabledOutputIs` | src/regions.c:76-100 | An enabled output has one new region for each configured name, in order. |
| `RegionLaws.ArrangedIs` | src/view.c:1755-1801 | What arranging does to a window: where it belongs, and from what its geometry is taken. |
| `RegionLaws.ReshapedIs` | src/view.c:1303-1323 | What entering or leaving a maximized or fullscreen state does. |
| `RegionLaws.AllArranged` | src/desktop.c:28-47 | Exactly the windows with a size are arranged. |
| `RegionLaws.TiledIs` | src/view.c:2023-2135 | Tiling to a region or an edge ends every other tiling; a fullscreen window is left alone. |
| `RegionLaws.UntiledIs` | src/view.c:1395-1410 | Untiling leaves no tiling of any kind. |

## Left out

Not modelled:

- Rendering, the scene graph, themes, on-screen displays, input devices, configuration parsing, Xwayland and all other protocol glue: drawing and foreign libraries.
- Allocation failure and threads other than the critical sections of `src/embed.c`.
- `edges_calculate_visibility`: the visible sides of a neighbour are an arbitrary input, since they depend on pixman.
- The rounding of `edges_traverse_edge`: the results about resistance hold for any answer of it, and `Resistance.TraversesIff` is about exact arithmetic.
- `resistance_unsnap_apply`: it would add no harder property than its neighbours.
- `gpu_resolve_bind`: which buffers of a copy are shown; those that are shown are among the buffers the copy holds. References that the backend takes itself are not counted.
- `workspaces_find` and the relative workspaces without the occupied filter: easy members.
- The on-screen part of regions (`regions_update_geometry`, `regions_from_cursor`).

Assumptions and weaker statements:

- PlacementGrid.OrderGrid: `qsort` is a sort with the same contract, and the overflow of its comparison function for far apart coordinates is not modelled.
- PlacementGrid.OverlapBitmap.BuildGrid: the usable area has no negative size, as outputs report it.
- PlacementBest.FindBest: the number of windows times the area of the inflated window stays below INT_MAX; beyond that the int arithmetic of the source overflows. `+0.5` and `-0.5` are exact reals.
- Snap.MoveToEdge: coordinates, decorations and gap are below 2^28 in absolute value so that C int arithmetic is exact; the sentinels and the saturating operations are modelled as they are.
- Resistance.MoveApply: the same bound on coordinates; strengths are ints other than INT_MIN.
- ResizeResistance.ResizeApply: the same bounds; the requested box differs from the actual one at dragged sides only, as `src/input/cursor.c:340-356` makes it.
- Grow.SnappedIsNextStop: the same bound on coordinates.
- Shrink.ShrinkToNextEdge: only on a usable output; on an unusable one no edge is searched and the size is halved.
- StickyShrink.SqueezesReachTheLeast: as for StickyEdge.PressesReachTheEdge, from a window whose size, or whose remembered size, is at least the least one.
- StickyEdge.PressesReachTheEdge: neighbours stay, no interactive resize, not fullscreen, every request gets an answer that acknowledges it with a size of at least one and at most the requested one, and the cache is unusable or remembers an edge between the window and the output's edge at the start.
- ShellLaws.CommittedSize: for a view with a requested size; the commit that first gives one is `ShellLaws.FirstCommitPlaces`. Positions and requests are stated outside fullscreen.
- ShellRuns.RunsStaySynced: the view is mapped; the initial commit, wrap-around of serials and the size that wlroots keeps for later requests are not modelled, and the position chosen by `set_initial_position` is an input.
- StickyMixed.MixedRunsStayReady: as for StickyEdge.PressesReachTheEdge; both commands move the same side.
- ShellRuns.LeftDragPinsRightIff: no fullscreen state during a drag, commits with a size, and the pointer makes all requests.
- Stacking.Stack.Raise: xdg-shell views, whose families have one level below the root.
- Stacking.RestackingKeepsFamilies: adjacency is about mapped views, since unmapped relatives are not moved along.
- ShowDesktop.Desktop.Toggle: the views are the mapped, focusable ones of the current workspace; windows of other workspaces are not touched by it. The window switcher is not active.
- FloatingGeometry.NeverLostIff: outputs and decorations stay as they are and the client takes every size; shading and interactive moves are not modelled, and the formulas for edge boxes (`FloatingLaws.EdgeBox`) and region boxes, the placement policy (a function of the geometry here) and the made-up natural geometry are inputs.
- LayoutChanges.ComesBackIff: for a window that floats at the last change; what happens to it while it does not float is a write that saves no placement. The output nearest to a point and the position that the placement policy finds are inputs, and outputs have distinct numbers.
- Cascade.Settle: the centred box and the decorated boxes of the others are inputs; the offsets are positive, as the source makes them.
- GpuRuns.InterleavingsAreSafe: critical sections and single releases are atomic, and a caller of store holds a reference of its own during the call.
- Outputs.Manager.Add: whether an output is a desktop output and can be initialized is an input; the rest of its construction is not modelled.
- Workspaces.Manager.Reconfigure: the configuration names at least one workspace, as the configuration reader guarantees (`src/config/rcxml.c:1880-1894`); the focus change and the display at the end of a switch are not modelled.
- WorkspaceRuns.RunsStayLive: windows are opened on the current workspace and moved to listed ones, as all callers do.
- SessionRuns.RunsStaySound: a lock object has at most one surface for each output, as wlroots makes sure, and outputs are identified by distinct numbers; which view is focused after unlocking is a later focus event. Nothing happens after a callback has failed.
- Regions.ReconfigureReattaches: a pending geometry is reduced to whether it is empty and what it was last taken from; the output that a window belongs on after the change is an input.
- RegionRuns.RunsKeepRegionsLive: an output that ends keeps its place in the list as an unusable one without regions.
