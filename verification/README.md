# Onyrion Core in Dafny

Onyrion Core is a Wayland compositor whose window model is state of its own: outputs show workspaces, a
workspace has a binary split tree whose leaves are the tiles of groups, and a group holds an ordered list
of windows. This project models that state, the operations on it, and three small protocols beside it,
and proves what the operations keep, what they mean, and which of them undo each other.

The parts, from the files they belong to:

- **Layout** (`LayoutTree`, `LayoutHandle`, `Geometry`, `PointerResize`, `Navigation` on values; `Desktop`,
  `LayoutShape`, `Layout`, `LayoutSpine`, `LayoutResize`, `LayoutNavigation`, `LayoutGroups`, `LayoutRuns`
  on the heap).
  Nodes, tiles, groups and workspaces are objects whose pointers the operations rewrite. Every heap
  operation is proved to keep the layout invariant and to be one edit of the tree as a value; what the
  edits mean, that resize handles keep naming their split, and the geometry are proved on that value.
  The branches in which the compositor aborts appear as `assert false`.
- **Windows, groups, workspaces, outputs** (`Desk*`, `WindowCycle`, `Tabs`, `Server`). `Desk` is the state
  as a value with its invariants; `DeskSteps` to `DeskRuns` define the operations and prove what they
  keep, over every run from start-up. `DeskHandover`, `DeskSeats`, `DeskMembers`, `DeskAssignments`,
  `DeskTargets` and `DeskGuards` say where everything ends up, what becomes active and what is refused, by
  places in lists and by what was declared, without the searches that find it. `Server` performs the operations step by step on tables it
  updates, loops included, and each method is proved equal to the operation on the value.
- **Session lock** (`SessionLock`, `LockProgress`, `LockController`). The controller as a state machine
  against outputs that commit frames and report presentations late and in any order, with 32-bit sequence
  numbers: when it may tell the locker, and what makes it do so; and the controller as it runs, on objects,
  proved to be that machine.
- **Floating geometry** (`FloatingGeometry`), step-by-step clamps proved against what they are for.
- **Standalone Super key** (`StandaloneSuper`, `SuperRecogniser`). The flags of the recogniser are proved to
  agree with a predicate over the whole history of events.

## Reading the model

- Doubles are reals and pixel coordinates mathematical integers; sequence numbers are 32 bits wide and
  wrap. Allocation succeeds. Ids are plain integers.
- A policy is taken as validated: `0 < min <= initial <= max < 1` and gaps not negative. Split ratios then
  stay between 0 and 1, and the branch at core/src/layout.c:449 that repairs others is kept in the model
  though never needed.
- The usable box of an output, the name and number of outputs, client size wishes, and whether desktop
  actions are allowed are parameters or events: they come from the layer shell, wlroots or the shell.
- Intrusive lists are sequences held in fields. A method that looks an entry up also returns its index,
  which stands for the entry's own link.
- A workspace's layout is a tree with the registry of its leaves (`LayoutTree.TreeLayout`): of group ids in
  `Desk`, and of the groups themselves when the heap is read by `LayoutRuns.View`. The heap operations and
  those of `Desk` are tied to the same functions on it, `Entered`, `Departed`, `Relocate`, `Exchange` and
  `Reframe`, with the same anchor.
- Transients follow their parent's workspace through the separate operation `TransientMoved`, which may
  happen at any time; which transients follow which parent is not fixed by the model.

## Where the code does less than one would expect

- An unclamped pointer resize lands within the pixel left of the pointer exactly when the pointer leaves the
  first child at least one pixel (`PointerResize.DragLands`, `DragMeaning`); `DragCanMiss` is a case that
  does not.
- Resizing to the current midpoint leaves every tile alone exactly when the split's span lies between the
  spans of the policy's limits, or the ratio asked for barely differs from the one in use
  (`DragToMiddle`, `DragToMiddleIsStill`). That covers every ratio within the limits;
  `DragToMiddleCanMove` is a case outside, which a reload that narrows the limits can produce.
- A presentation is recognised as late only while fewer than 2^31 commits were made since it;
  `SessionLock.LateByOneTooMany` is a run that ends in the first number that fails.
- A drop on a layout zone beside a floating group creates a group and destroys it again. Although the
  operation reports failure, the group created last becomes the active one of the workspace;
  `DeskZones.RefusedDropIsSilent` says exactly when nothing changes, `RefusedDropCanShow` is a case in which
  something does.

## Model

| member | source | states |
|---|---|---|
| LayoutTree.AddMeaning | core/src/layout.c:1783-1924 | adding a group inserts its leaf right after the anchor in the order of leaves; every other split keeps orientation and ratio |
| LayoutTree.RemoveMeaning | core/src/layout.c:1926-2034 | removing a group deletes exactly its leaf and its parent split; the order of the others and all other frames stay |
| LayoutTree.RelocateMeaning | core/src/layout.c:2270-2479 | a relative move reinserts the leaf right before (left, up) or after (right, down) the target, also between siblings, and only the two splits involved change |
| LayoutTree.SeatMeaning | core/src/layout.c:2270-2479 | seating a detached leaf beside a target: its place in the order, and the frame of the one new split |
| LayoutTree.ExchangeMeaning | core/src/layout.c:907-973 | trading two leaves renames them in the order and touches no split |
| LayoutTree.ReframeMeaning | core/src/layout.c:1660-1765 | rewriting one split's frame changes no leaf and no other split |
| LayoutTree.RemoveUndoesAdd | core/src/layout.c:1783-2034 | adding a group and removing it again restores the tree, ratios included |
| LayoutTree.RelocateIdempotent | core/src/layout.c:2270-2479 | a relative move done twice is the move done once |
| LayoutTree.ExchangeInvolutive | core/src/layout.c:907-973 | a directional exchange done twice is undone |
| LayoutHandle.ResolveIsMeet | core/src/layout.c:1470-1521 | the upward search finds the split at which the two leaves meet, exactly when that split has the handle's orientation |
| LayoutHandle.HandleResolves | core/src/layout.c:1089-1120 | a handle read off a split, its two leftmost leaves, resolves to exactly that split |
| LayoutHandle.EditKeepsMeet | core/src/layout.c:1926-2479 | one edit that moves neither leaf of a handle never frees their meeting split, nor changes its orientation unless it flips it |
| LayoutHandle.RunKeepsMeet | core/src/layout.c:1783-2479 | the same over any run of edits: two leaves that none of them moves keep their meeting split |
| LayoutHandle.HandleSurvivesRun | core/src/layout.c:1455-1521 | a handle still resolves to its split after any run of adds, removals, moves, exchanges and resizes of other leaves |
| LayoutGroups.HandleSurvives | core/src/layout.c:1339-1521 | the same for handles named by group ids, between well-formed workspaces |
| LayoutGroups.AddIsEdit | core/src/layout.c:1783-1924 | what adding does to the nodes is an insertion in the tree of groups |
| LayoutGroups.RemoveIsEdit | core/src/layout.c:1926-2034 | what removing does to the nodes is a deletion in the tree of groups |
| LayoutGroups.RelocateIsEdit | core/src/layout.c:2270-2479 | what a relative move does to the nodes is a relocation in the tree of groups |
| LayoutGroups.ReframeIsEdit | core/src/layout.c:2481-2545 | what resizing and flipping do to the nodes is a change of one frame in the tree of groups |
| LayoutGroups.SwapTiles | core/src/layout.c:907-973 | giving two tiles each other's group keeps the layout invariant and exchanges the groups in the tree |
| LayoutGroups.SwapDirection | core/src/layout.c:907-973 | directional move: exchanges with the group on the first best tile, and reports none exactly when there is no candidate |
| LayoutRuns.AnchorAgrees | core/src/layout.c:126-146 | the anchor's group is the one that registry and active group determine, as in the desk |
| LayoutTree.AnchorMeaning | core/src/layout.c:126-146 | the anchor is the active leaf while that is registered, else the leaf that entered last, and there is none only when nothing is registered |
| DeskSteps.AnchorReadsLayout | core/src/layout.c:126-146 | and the desk's anchor is determined the same way |
| LayoutRuns.Bring | core/src/layout.c:1783-1924 | adding a group does to tree and registry by groups what the desk's `Entered` does, after the anchor the desk would take |
| LayoutRuns.Drop | core/src/layout.c:1926-2034 | removing a group does what the desk's `Departed` does |
| LayoutRuns.MoveBeside | core/src/layout.c:2270-2479 | a relative move relocates in the tree of groups and keeps the registry |
| LayoutRuns.Flip | core/src/layout.c:2481-2545 | flipping changes one orientation in the tree of groups and nothing else |
| LayoutRuns.StepSize | core/src/layout.c:1660-1765 | a keyboard step changes one ratio in the tree of groups and nothing else |
| LayoutRuns.Swap | core/src/layout.c:907-973 | a directional exchange trades two groups in tree and registry |
| LayoutRuns.PerformAll | core/src/layout.c:126-2545 | any sequence of layout operations on a workspace keeps nodes, tiles, registry, groups and the active group in agreement, so an anchor always exists and no aborting branch is reached |
| Geometry.GapLeavesTwo | core/src/layout.c:358-373 | the inner gap never takes more than leaves two pixels of the span |
| Geometry.DivideShares | core/src/layout.c:408-552 | where the border lies: the first child has the whole pixels of its share of what the gap leaves, at least one, and a ratio outside of (0, 1) stands for the policy's initial one |
| Geometry.DivideFits | core/src/layout.c:408-552 | the children of a split lie inside its box, span it, and are exactly the bounded gap apart; from two pixels on both get at least one |
| Geometry.InsetFits | core/src/layout.c:375-406 | the inset box is non-empty and inside the box it came from |
| Geometry.InsetExactly | core/src/layout.c:375-406 | the exact inset: on each axis the same margin on both sides, the widest up to the gap that leaves a pixel, so the gap itself exactly when twice the gap is less than the span |
| Geometry.InsetLeavesLines | core/src/layout.c:375-406 | a box of one column or one row is left alone on both axes |
| Geometry.TilesKeepOuterGap | core/src/layout.c:554-607 | where the outer gap fits, every tile of a laid out tree keeps it from that side of the usable area |
| Geometry.CornerAttainsOuterGap | core/src/layout.c:554-607 | and some tile is exactly that far away |
| Geometry.LeafInside | core/src/layout.c:408-552 | every leaf rectangle lies inside the box the tree was laid out in, for any tree, ratios and gaps |
| Geometry.LeavesDisjoint | core/src/layout.c:408-552 | no pixel belongs to two leaves |
| Geometry.PixelsCovered | core/src/layout.c:408-552 | with zero inner gap every pixel of the box belongs to a leaf, which with disjointness is exactly one |
| Geometry.BoundsReadBack | core/src/layout.c:1000-1087 | when every tile has positive size the bounding box read back of a subtree is the box reflow handed to it, and otherwise nothing is read back |
| PointerResize.DragLands | core/src/layout.c:1523-1658 | an unclamped drag puts the new border middle in (x-1, x] exactly when the pointer leaves the first child a pixel |
| PointerResize.DragToMiddle | core/src/layout.c:1523-1658 | dragging a border to its own middle, small differences ignored as the code does, changes neither child exactly when the span lies between those of the policy's limits or the ratio asked for differs from the one in use by less than 1e-9 |
| PointerResize.LegalRatioLegalSpan | core/src/layout.c:1523-1658 | a ratio within the policy's limits always gives such a span |
| PointerResize.DragMeaning | core/src/layout.c:1523-1658 | the same for a split anywhere in a laid out tree, measured on the tiles: its box stays, and the border lands within the pixel exactly under that condition |
| PointerResize.DragToMiddleIsStill | core/src/layout.c:1523-1658 | for a split anywhere in a laid out tree, the drag of its border to its own middle leaves every tile where the next layout puts it, exactly under that condition |
| PointerResize.LegalRatioStays | core/src/layout.c:1523-1658 | every ratio within the policy's limits meets the condition |
| PointerResize.DragToMiddleCanMove | core/src/layout.c:1523-1658 | a laid out tree in which that drag moves tiles |
| PointerResize.DragToMiddleBarelyStays | core/src/layout.c:1523-1658 | a laid out tree whose ratio misses the limits by less than the difference the code ignores: nothing moves |
| PointerResize.DragCanMiss | core/src/layout.c:1523-1658 | a laid out tree and an unclamped drag that leaves the first child less than a pixel: the border lands right of the pointer |
| LayoutShape.SeatIsSound | core/src/layout.c:1783-1924 | hanging a leaf and its neighbour below a new split leaves parents, children, kinds and workspaces of all nodes in agreement |
| LayoutShape.CutIsSound | core/src/layout.c:1926-2034 | collapsing a leaf's parent onto the sibling leaves all nodes in agreement, at the root as well |
| Layout.AnchorExists | core/src/layout.c:126-146 | a non-empty tree always has an anchor, and it is one of its leaves, so the aborting branch is unreachable |
| Layout.CreateTileLeaf | core/src/layout.c:148-192 | the new tile and leaf name each other, the group and its workspace |
| Layout.ReplaceNode | core/src/layout.c:221-265 | redirects the one pointer at which the node hangs, the root or a side of its parent, and refuses only a node that hangs nowhere |
| Layout.SplitBoxes | core/src/layout.c:408-552 | the boxes of the two children are those of the pure division |
| Layout.LayoutBelow | core/src/layout.c:408-552 | every tile below a node receives the box its leaf gets, and no other tile is touched |
| Layout.ReflowWorkspace | core/src/layout.c:554-607 | every tile carries the box of its leaf in the inset area, and so, on each side where the outer gap fits, all tiles keep it and one attains it; nothing changes when the output has no usable area |
| Layout.LaidOutIsLaid | core/src/layout.c:554-607 | the boxes on the tiles after reflow are those the geometry lemmas speak about |
| Layout.AddGroup | core/src/layout.c:1783-1924 | keeps the layout invariant; the tree becomes the old one with the group added after the anchor, the registry grows at its end; a group with a tile is left alone |
| Layout.RemoveGroup | core/src/layout.c:1926-2034 | keeps the layout invariant; the group's leaf leaves tree and registry and nothing else does |
| Layout.MoveGroupRelative | core/src/layout.c:2270-2479 | keeps the layout invariant; the tree becomes the relocated one; refused without effect exactly for untiled, equal or separated groups |
| Layout.MoveGroupToWorkspace | core/src/layout.c:2036-2268 | keeps both layout invariants; the leaf is deleted from one tree and added after the anchor of the other, registries alike; both workspaces are laid out again; refused without effect otherwise |
| Layout.WorkspacesApart | core/src/layout.c:2036-2268 | two well-formed workspaces share no node, tile or group |
| LayoutSpine.ClimbResolves | core/src/layout.c:1455-1521 | the split found while climbing parent pointers is the one the handle names in the tree, and none is found exactly when it names none |
| LayoutSpine.ClimbFindsNearest | core/src/layout.c:975-998 | the climb by orientation finds the lowest split of that orientation above the tile |
| LayoutResize.IsAncestor | core/src/layout.c:1455-1467 | answers whether a node is the leaf or above it in the tree |
| LayoutResize.FindResizeSplit | core/src/layout.c:975-998 | the lowest split of the orientation above the tile, or none |
| LayoutResize.ResolveSplit | core/src/layout.c:1470-1521 | the heap search returns exactly the split the handle names |
| LayoutResize.GroupById | core/src/layout.c:1438-1453 | the first group of the list with the id, or none if no group has it |
| LayoutResize.HandleTiles | core/src/layout.c:1470-1521 | the two tiles of the first groups with the handle's ids, exactly when both exist and are tiled in one workspace |
| LayoutResize.FlipActiveSplit | core/src/layout.c:2481-2545 | turns the orientation of the split right above the group's tile and keeps its ratio; refuses a tile that is the whole tree |
| LayoutResize.StepMoves | core/src/layout.c:1660-1765 | a keyboard step moves the ratio strictly the asked way and stays within the limits |
| LayoutResize.StepExactly | core/src/layout.c:1660-1765 | how far a keyboard step goes: the policy's step, or what is left up to the limit if that is less, and none exactly when the limit is reached |
| LayoutResize.StepIsNearest | core/src/layout.c:1660-1765 | also from outside the limits a step lands on the ratio within them that is nearest to the one asked for |
| LayoutResize.StepBack | core/src/layout.c:1660-1765 | a full step is undone by a step in the opposite direction |
| LayoutResize.ResizeDirection | core/src/layout.c:1660-1765 | steps the nearest split on the direction's axis, keeps the layout invariant, and changes nothing when it reports failure |
| LayoutResize.NodeBounds | core/src/layout.c:1000-1087 | the recursive box reader over the heap returns the bounding box of the subtree |
| LayoutResize.DragSplit | core/src/layout.c:1523-1658 | a drag of a split on the heap is the pure drag measured on the tiles as they stand |
| LayoutResize.DragHandle | core/src/layout.c:1523-1658 | a drag of a handle resolves it, drags that split, and changes nothing when the handle names no split or a tile is empty |
| LayoutResize.DragTarget | core/src/layout.c:1470-1658 | a drag of a handle given by two group ids looks both up, drags in their workspace, and changes nothing when the ids name no two tiles of one workspace |
| Navigation.RankMeaning | core/src/layout.c:629-873 | a tile has a rank exactly when its centre lies on the side asked for; the rank says whether it shares a lane, how far its edge is, and how far its centre is across and along |
| Navigation.RankPrefers | core/src/layout.c:629-873 | ranks compare as the boxes do: lane, then edge distance, then centre across, then centre along, nearer being better |
| Navigation.TouchingIsNearest | core/src/layout.c:629-873 | a tile touching the source's edge lies on that side, shares a lane, and has no edge distance |
| Navigation.NearestTouches | core/src/layout.c:629-873 | among boxes that do not overlap only touching ones are that near |
| Navigation.NeighbourTouches | core/src/layout.c:629-873 | without inner gap a tile not on the workspace edge has a tile touching it on that side |
| Navigation.BestTouches | core/src/layout.c:629-873 | hence a best candidate touches the source on that side |
| LayoutNavigation.FindDirectionalTile | core/src/layout.c:629-873 | finds the first tile of the registry to which no other candidate is preferred, said of the boxes and not of the ranks computed on the way, and none exactly when no tile is a candidate |
| LayoutNavigation.ChoiceMeaning | core/src/layout.c:629-873 | the choice spelled out: a shared lane if any candidate shares one, then the nearest edge in that lane class, then the centre nearest across, then nearest along, then the earliest in the registry |
| LayoutNavigation.FocusLandsNextDoor | core/src/layout.c:629-905 | on the heap: in a reflowed layout with zero inner gap and every group showing a mapped window, the search from a tile not on the edge finds a tile that touches it with positive overlap |
| SessionLock.PrecedesIsOrder | core/src/session_lock.c:430-434 | the signed 32-bit comparison of sequence numbers orders the commits themselves while they are at most 2^31 apart |
| SessionLock.PrecedesBeyondBounds | core/src/session_lock.c:430-434 | and the bounds cannot be widened on either side |
| SessionLock.AcceptedIsFresh | core/src/session_lock.c:420-439 | a presentation that is accepted is of a commit made after the lock began to wait for the output |
| SessionLock.StepSafe | core/src/session_lock.c:126-162 | every event, hotplug, failed and skipped commits included, keeps each flag backed by a fresh commit |
| SessionLock.LockedMeansProven | core/src/session_lock.c:134-139 | the event that sends `locked` finds, for every registered output, an arrived presentation of a commit made since the lock began to wait |
| SessionLock.LockedIsSafe | core/src/session_lock.c:134-149 | the same over whole runs, and the session is secured and the lock was not sent `locked` before |
| SessionLock.StepConsistent | core/src/session_lock.c:88-280 | every event keeps the controller consistent: outputs differ, `locked` once per lock, sent as soon as all outputs presented, focus on an active lock surface or nowhere |
| SessionLock.ExitEdges | core/src/session_lock.c:164-256 | a step ends the secured state if and only if it unlocks a lock that was sent `locked` or destroys one that was not |
| SessionLock.LeftOnlySo | core/src/session_lock.c:164-256 | the exits over whole runs |
| SessionLock.ReachableStates | core/src/input.c:1085-1117 | in every reachable state no lock was told twice, all outputs presented implies told, and while secured the keyboard is on an active lock surface or nowhere |
| SessionLock.LateByOneTooMany | core/src/session_lock.c:430-434 | a run from start-up after which a presentation with 2^31 commits made since is accepted, and `locked` is sent without a fresh presentation: the bound is exact |
| LockProgress.StepWaits | core/src/session_lock.c:141-149 | every event keeps: an output that has not settled awaits the first commit announced to it since its epoch, and nothing before one is announced |
| LockProgress.AcceptsExactly | core/src/session_lock.c:420-439 | an output that has not settled accepts exactly the commits from the first announced one on, up to 2^31 - 1 commits later |
| LockProgress.FreshPresentationCounts | core/src/session_lock.c:388-439 | in every reachable secured state the presentation of any commit from the first announced one on, with fewer than 2^31 commits made since that one, settles the output, and sends locked if it was the last one waited for |
| LockProgress.LateCommitIsDropped | core/src/session_lock.c:430-434 | and that bound is exact: reports of later commits are dropped until numbers repeat |
| LockProgress.FrameAsks | core/src/session_lock.c:388-418 | a frame that does not fail announces a commit when none is announced |
| LockProgress.FirstActiveIsFirst | core/src/session_lock.c:97-106 | the surface focused as a fallback is the active one at the least index |
| LockProgress.NewSurfaceFocused | core/src/session_lock.c:200-232 | in every reachable secured state a new lock surface joins the list and takes the focus when nothing has it; a focus on a lock surface stays |
| LockProgress.SurfaceGone | core/src/session_lock.c:184-198 | when a lock surface goes while secured, the focus goes to the first active one left, or to none |
| LockProgress.LockChanges | core/src/session_lock.c:234-280 | the lock changes at a request while there is none and at its end, and at no other event |
| LockProgress.SecureChanges | core/src/session_lock.c:151-174 | a session is secured exactly by a lock that begins while there is none, and on leaving no lock surface stays active |
| LockController.Controller.FindOutput | core/src/session_lock.c:53-59 | finds the entry of an output exactly when it is registered |
| LockController.Controller.SurfaceIsCurrent | core/src/session_lock.c:88-95 | whether an active lock surface has this surface |
| LockController.Controller.OutputsPresented | core/src/session_lock.c:126-132 | whether every output has presented |
| LockController.Controller.MaybeSendLocked | core/src/session_lock.c:134-139 | the heap update is the transition the run lemmas are about |
| LockController.Controller.ScheduleLockedFrames | core/src/session_lock.c:141-149 | resets every output object and then tells the locker if no output is left to wait for |
| LockController.Controller.DeactivateSurfaces | core/src/session_lock.c:117-124 | every lock surface becomes inactive and nothing else changes |
| LockController.Controller.FocusSurface | core/src/input.c:1085-1117 | while secured only an active lock surface, or none, receives the focus |
| LockController.Controller.FocusFirst | core/src/session_lock.c:97-106 | focuses the first active lock surface, or none |
| LockController.Controller.EnterSecure | core/src/session_lock.c:151-162 | the entry transition on the heap |
| LockController.Controller.LeaveSecure | core/src/session_lock.c:164-174 | the exit transition on the heap |
| LockController.Controller.HandleNewLock | core/src/session_lock.c:258-280 | accepts a lock only when there is none |
| LockController.Controller.HandleUnlock | core/src/session_lock.c:234-238 | leaves only when the lock was sent `locked` |
| LockController.Controller.HandleLockDestroy | core/src/session_lock.c:240-256 | leaves when the lock was not sent `locked`, and otherwise stays secured and waits for all outputs anew |
| LockController.Controller.HandleNewSurface | core/src/session_lock.c:200-232 | a new lock surface takes the focus when no active lock surface has it |
| LockController.Controller.HandleSurfaceDestroy | core/src/session_lock.c:184-198 | the focus moves to the first remaining active surface, or to none |
| LockController.Controller.OutputAdd | core/src/session_lock.c:357-375 | a new output counts as presented exactly when the session is not secured |
| LockController.Controller.OutputRemove | core/src/session_lock.c:377-386 | a removed output no longer holds back `locked` |
| LockController.Controller.OutputCommitPending | core/src/session_lock.c:388-401 | notes the announced commit of a waiting output, once |
| LockController.Controller.OutputCommitFailed | core/src/session_lock.c:403-418 | withdraws exactly the announced commit |
| LockController.Controller.OutputPresented | core/src/session_lock.c:420-439 | accepts a presentation no older than the announced commit |
| LockController.Controller.HandleFrame | core/src/output.c:104-144 | announces the next commit and withdraws it when the commit fails |
| LockController.OnlyAt | core/src/session_lock.c:53-59 | an event for one output changes at most the entry found for it |
| StandaloneSuper.HeldAgrees | core/src/input.c:948-1056 | the `down` flag and key code agree with the history of presses and releases |
| StandaloneSuper.ArmedStep | core/src/input.c:646-688 | one event arms a slot, or keeps it armed unless the event is one of the listed interruptions |
| StandaloneSuper.ArmedIsOnItsOwn | core/src/input.c:948-1056 | `armed` holds exactly when the last accepted press found no other Super held, was bound and allowed, and nothing interrupted since; the action is the one bound at that press |
| StandaloneSuper.AtMostOneArmed | core/src/input.c:976-979 | at most one slot of all keyboards is armed |
| StandaloneSuper.PendingIsQueued | core/src/input.c:859-946 | a release is pending on a keyboard exactly when an armed, allowed press ended there and nothing disposed of it since |
| StandaloneSuper.PendingAction | core/src/input.c:859-946 | what is pending is the action the slot carried at its release |
| StandaloneSuper.ActionsRun | core/src/input.c:805-857 | an event runs an action exactly when it is the timer of a keyboard with such a release and actions are allowed |
| StandaloneSuper.TheBoundActionRuns | core/src/input.c:805-857 | the action that runs is the one bound to the key when it was pressed |
| SuperRecogniser.Keyboard.QueueRelease | core/src/input.c:859-946 | one pending release per keyboard: a new one replaces the old |
| SuperRecogniser.DisarmAll | core/src/input.c:646-688 | disarms both slots of every keyboard and leaves keys held |
| SuperRecogniser.Recogniser.CancelArms | core/src/input.c:646-688 | no slot stays armed, nothing else changes |
| SuperRecogniser.Recogniser.OtherModifierDown | core/src/input.c:690-720 | whether any other slot of any keyboard is held |
| SuperRecogniser.Recogniser.HandleModifierPress | core/src/input.c:948-1021 | the press transition on the keyboards' records |
| SuperRecogniser.Recogniser.HandleModifierRelease | core/src/input.c:1023-1056 | the release transition on the keyboards' records |
| SuperRecogniser.Recogniser.HandleKey | core/src/input.c:4225-4300 | every key event is one step of the history machine |
| SuperRecogniser.Recogniser.HandleButton | core/src/input.c:2933-2949 | a pointer button cancels |
| SuperRecogniser.Recogniser.HandleAxis | core/src/input.c:3606-3625 | a nonzero axis event cancels, a zero one does not |
| SuperRecogniser.Recogniser.HandleGestureBegin | core/src/input.c:3761-3771 | a swipe or pinch that begins cancels |
| SuperRecogniser.Recogniser.DispatchTimer | core/src/input.c:805-857 | the timer consumes the pending release and runs it only when allowed |
| SuperRecogniser.Recogniser.ResetAll | core/src/input.c:1058-1083 | every slot and pending release is reset |
| SuperRecogniser.Recogniser.ApplyKeyboardPolicy | core/src/input.c:4566-4577 | applying a keyboard policy resets all keyboards |
| SuperRecogniser.Recogniser.HandleKeyboardDestroy | core/src/input.c:4453-4494 | a removed keyboard takes its slots and its pending release along |
| FloatingGeometry.ContentLimitsMeaning | core/src/window.c:185-233 | compatible client wishes are all honoured; otherwise exactly one size is left |
| FloatingGeometry.LimitsFit | core/src/window.c:286-294 | the outer limits are ordered, positive and fit the usable area |
| FloatingGeometry.OuterLimitsMeaning | core/src/window.c:278-294 | an outer size is admitted exactly when it fits the area and the content, without the overhead, is within the content limits; when not even the least content fits, exactly the whole area is |
| FloatingGeometry.PlaceIsNearest | core/src/window.c:235-326 | for any request the stored extent is inside the area with an admissible size, nearest to what was asked |
| FloatingGeometry.PlaceKeepsLegal | core/src/window.c:235-326 | an extent is stored unchanged exactly when it is legal |
| FloatingGeometry.DragIsNearest | core/src/window.c:328-482 | from a legal extent the opposite edge stays, the dragged edge is the legal position nearest the pointer, and the second clamp changes nothing |
| FloatingGeometry.DragBackRestores | core/src/window.c:328-482 | a drag back to the start restores the extent |
| FloatingGeometry.DragEdge | core/src/window.c:391-475 | the step-by-step clamps of one axis compute that drag |
| FloatingGeometry.FloatingGroup.FloatingSizeConstraints | core/src/window.c:185-233 | the step-by-step limits are the content limits of both axes |
| FloatingGeometry.FloatingGroup.OuterConstraints | core/src/window.c:278-294 | adding the overhead gives the outer limits of both axes |
| FloatingGeometry.FloatingGroup.SetFloatingGeometry | core/src/window.c:235-326 | stores a legal box for any positive request on a movable group, and otherwise changes nothing |
| FloatingGeometry.FloatingGroup.ResizeFloatingFromEdges | core/src/window.c:328-482 | from a legal box it succeeds with exactly the drag of both axes; from any box it stores a legal one or changes nothing |
| Tabs.TabsPartition | core/src/group.c:610-616 | for any strip and any number of tabs the widths fill the strip exactly, each column is in one tab, and widths differ by at most one |
| Tabs.HandleLeavesColumn | core/src/group.c:490-506 | the handle is as wide as 24 columns and one column for the tabs allow |
| Tabs.DrawTabs | core/src/group.c:522-703 | the running offset draws exactly the tabs of the division that are at least one column wide |
| Tabs.TabSlotAt | core/src/group.c:784-867 | hits the tab of the division under the column, or none on the handle and outside |
| Tabs.HitIsDrawn | core/src/group.c:784-867 | the tab hit on a column is drawn there |
| Tabs.DrawnIsHit | core/src/group.c:522-703 | a drawn tab covers only columns on which it is hit |
| Tabs.CountMapped | core/src/group.c:142-161 | the number of mapped windows |
| Tabs.InsertTargetAt | core/src/group.c:896-956 | a drop goes beside the hit tab, on the side of the half it falls in |
| Tabs.ContentBox | core/src/group.c:257-301 | for any insets the content box is non-empty and inside the group's box, and exact when the insets fit |
| Tabs.ContentBoxMeaning | core/src/group.c:205-301 | insets that do not fit are cut: the left and the top one to the widest that leaves a pixel, the right and the bottom one to the widest that leaves a pixel of what remains |
| WindowCycle.FindAdjacentMapped | core/src/group.c:99-140 | the nearest other mapped window in the given direction around the list, or none when there is none |
| WindowCycle.CycleReturns | core/src/group.c:1382-1424 | going to the next window and then to the previous one returns to the start |
| DeskState.LeaveUndoesEnter | core/src/layout.c:1783-2034 | adding and then removing a group restores tree and registry of its workspace |
| DeskSteps.FocusWindowSound | core/src/group.c:1250-1318 | focusing a window keeps all list, membership, activity and layout invariants |
| DeskSeats.FocusMeaning | core/src/group.c:1250-1318 | a mapped member of a group on a shown workspace takes the focus with its group, workspace and output; any other window is refused without effect |
| DeskSeats.UnfullscreenMeaning | core/src/group.c:958-1015 | exactly the window that had the focus on the same workspace stops being fullscreen |
| DeskSteps.LeaveSound | core/src/group.c:2571-2605 | leaving a group keeps all list, membership, activity and layout invariants |
| DeskHandover.LastMappedIsLast | core/src/group.c:20-35 | the window the search returns is the mapped one at the greatest index of the list, and it returns none exactly when no member is mapped |
| DeskHandover.LastInIsLast | core/src/group.c:37-53 | the group the search returns is the one of the workspace at the greatest index of the server's list, and it returns none exactly when there is none |
| DeskHandover.LeaveHandsOver | core/src/group.c:1438-1468 | when a window leaves its group, the mapped member other than it that is latest in the list becomes active, or none if there is none; if it was not the active one nothing changes |
| DeskHandover.UnmapHandsOver | core/src/group.c:1220-1248 | the same when a window is unmapped |
| DeskHandover.RemoveHandsOver | core/src/group.c:2571-2605 | the same when a window goes; its group goes exactly when it was the only member |
| DeskHandover.MoveHandsOver | core/src/group.c:1426-1477 | the same for the group a window moved out of; in the group it joins it is active exactly when it is mapped and the workspace is shown |
| DeskHandover.DestroyHandsOver | core/src/group.c:1017-1081 | when a group is destroyed, its workspace goes to the other group there that was created last, and with it the server's activity; other workspaces stay |
| DeskHandover.RemoveLeavesWorkspace | core/src/group.c:2571-2605 | a window that goes changes its workspace's active group only if it was alone in it |
| DeskHandover.MoveTiledHandsOver | core/src/group.c:2348-2505 | a tiled group that moves leaves its workspace, and the server's activity, to the other group there that was created last, and becomes active on the target exactly if no group was |
| DeskHandover.MoveFloatingHandsOver | core/src/group.c:2171-2244 | the same for a floating group, which may keep the server's activity |
| DeskSteps.AddWindowSound | core/src/group.c:1163-1203 | so does a window joining a group |
| DeskSteps.AnchorInRegistry | core/src/layout.c:126-146 | a registry that is not empty contains an anchor |
| DeskSteps.CreateGroupSound | core/src/group.c:1089-1151 | creating a group keeps them, the empty group aside |
| DeskSteps.DestroyGroupSound | core/src/group.c:1017-1081 | destroying an empty group keeps them, with the last remaining group taking over the activity |
| DeskMoves.FloatedSound | core/src/group.c:2000-2066 | floating a group takes it out of the layout and keeps all invariants |
| DeskMoves.TiledAgainSound | core/src/group.c:2068-2127 | tiling a group gives it a leaf and keeps all invariants |
| DeskMoves.MoveFloatingSound | core/src/group.c:2171-2244 | moving a floating group to another workspace keeps them on both |
| DeskMoves.MoveTiledSound | core/src/group.c:2348-2505 | moving a tiled group to another workspace keeps them on both |
| DeskWindows.MoveWindowLists | core/src/group.c:1426-1477 | moving a window appends it to the target, takes only it from the source, destroys a source left empty, and changes no other list or layout |
| DeskWindows.MoveWindowsLists | core/src/group.c:1426-1477 | moving a list of members appends exactly that list in order; nothing is lost or duplicated |
| DeskOutputs.MoveWindowKeeps | core/src/group.c:1426-1477 | moving a window keeps every invariant, and an empty target is no longer empty |
| DeskOutputs.FloatKeeps | core/src/group.c:2000-2066 | floating keeps every invariant and clears a pin |
| DeskOutputs.TileKeeps | core/src/group.c:2068-2127 | tiling keeps every invariant and clears a pin |
| DeskSeats.FloatMeaning | core/src/group.c:2000-2066 | floating takes exactly a tiled group that does not cover the screen out of the order of its workspace, where it floats unpinned with its members and becomes the active one if that is shown; anything else is refused without effect |
| DeskSeats.TileMeaning | core/src/group.c:2068-2127 | tiling seats exactly a floating group that does not cover the screen right after the anchor, unpinned, and makes it the active one if its workspace is shown; anything else is refused without effect |
| DeskSeats.MoveTiledMeaning | core/src/group.c:2348-2505 | a tiled group arrives on another assigned workspace: it leaves the one order and comes right after the anchor of the other, members along; anything else is refused without effect |
| DeskSeats.MoveUnpinnedMeaning | core/src/group.c:2348-2505 | a floating group without a pin arrives on another assigned workspace, no layout changes, and its activity stays with the workspace left; a pinned one is refused without effect |
| DeskSeats.SetPinnedMeaning | core/src/group.c:2246-2293 | pinning puts a floating group on the workspace its output shows, unpinning leaves it where it is, and nothing else changes |
| DeskSeats.RelocateGroupMeaning | core/src/layout.c:2270-2479 | a relative move of a group puts it right before or right after the target in the order of the workspace, only for two tiled groups of one workspace |
| DeskSeats.RelocateGroupFrames | core/src/layout.c:2270-2479 | and makes one new split along the direction in place of the one above the group; all other splits keep orientation and ratio |
| DeskSeats.SwapGroupsMeaning | core/src/layout.c:907-973 | an exchange gives two tiled groups of a workspace each other's place in the order and in the registry, and touches no split |
| DeskSeats.ReframeSplitMeaning | core/src/layout.c:2481-2545 | resizing or turning a split changes its frame, no other split, and no place in the order |
| DeskSwitch.FollowEffects | core/src/group.c:2295-2327 | following moves exactly the groups pinned to the output, and no list, layout or other group changes |
| DeskSwitch.SwitchKeeps | core/src/workspace.c:341-406 | switching the shown workspace keeps every invariant |
| DeskSwitch.PinnedComeAlong | core/src/workspace.c:341-406 | after switching, the output shows the target, the groups pinned to it are there, and no other group moved |
| DeskGuards.ActivateExactly | core/src/workspace.c:698-717 | activating a workspace shows it on its output, which gets the focus together with the workspace's active group, or does nothing when it is on no output |
| DeskSwitch.FocusVisibleEffects | core/src/workspace.c:303-339 | focusing the shown workspace changes only what is active and fullscreen |
| DeskPolicy.AssignHoused | core/src/workspace.c:279-301 | assigning keeps lists and back-pointers in agreement |
| DeskPolicy.AddOutputKeeps | core/src/workspace.c:437-546 | connecting an output keeps every invariant, so it gets and shows a workspace |
| DeskAssignments.AddOutputMeaning | core/src/workspace.c:437-546 | a new output has exactly the unassigned workspaces that ask for it, and those without a preference if no output had the focus, in the server's order, or else one of its own; it shows the first of them marked to start visible, else the first, and no other output changes |
| DeskPolicy.RemoveOutputKeeps | core/src/workspace.c:548-604 | removing an output keeps every invariant, so its pins and assignments are gone |
| DeskAssignments.RemoveOutputMeaning | core/src/workspace.c:548-604 | removing an output unassigns exactly its workspaces, clears exactly the pins to it, leaves the others as they are, and hands the focus to the first output left and to what it shows |
| DeskPolicy.NextWorkspaceKeeps | core/src/workspace.c:622-662 | going to the next workspace, new at the end of the list, keeps every invariant |
| DeskAssignments.NextMeaning | core/src/workspace.c:622-662 | going to the next workspace shows the one right after the shown one in the output's list, and after the last one a new one appended to it |
| DeskPolicy.PreviousWorkspaceKeeps | core/src/workspace.c:664-696 | going to the previous workspace keeps every invariant |
| DeskAssignments.PreviousMeaning | core/src/workspace.c:664-696 | going to the previous workspace shows the one right before, and at the first one nothing happens |
| DeskAssignments.PreviousUndoesNext | core/src/workspace.c:622-696 | going to the next workspace and back shows the first one again |
| DeskReload.DeclaredOnce | core/src/workspace.c:736-763 | equal counts and every current id found imply that the same ids are declared, each once |
| DeskReload.RehomeAllEffects | core/src/workspace.c:845-919 | the first phase puts every workspace where validation planned it and keeps every invariant but those of outputs left without a shown workspace |
| DeskReload.SettleAllKeeps | core/src/workspace.c:937-965 | the last phase gives every output with a workspace one to show and moves no workspace |
| DeskReload.AcceptedPolicyApplies | core/src/workspace.c:719-977 | applying an accepted policy puts every workspace where validation planned it, with all invariants intact |
| DeskTargets.AcceptedExactly | core/src/workspace.c:719-843 | a policy is accepted exactly when it declares the workspaces declared now, each once and all live, and every output is where some workspace is declared to be or stays |
| DeskTargets.PlannedLands | core/src/workspace.c:234-260 | what validation plans is what the declarations promise: the first output in order with the preferred name, or none without one; without a preference the workspace's own output, else the focused one, else the first; and an undeclared workspace stays |
| DeskTargets.ReloadMeaning | core/src/workspace.c:845-919 | after an accepted reload every declared workspace is where its declaration promises and has its preference and mark; an undeclared one keeps place and marks |
| DeskTargets.ReloadShows | core/src/workspace.c:937-965 | after an accepted reload an output shows what it showed if that is still its own, else the first of its workspaces, and has kept its name |
| DeskTargets.ReloadFocus | core/src/workspace.c:937-965 | a reload leaves the focus on its output, and the active group too unless the workspace shown there moves away; when no other output loses what it shows, the active group of the workspace it then shows takes over |
| DeskTargets.ReloadOrder | core/src/workspace.c:845-919 | after an accepted reload an output lists the workspaces that stay in their old order and then those that come in the order of the policy |
| DeskReload.EmptyOutputStaysEmpty | core/src/workspace.c:790-840 | an output validation would find empty is left without a workspace, so validation has to refuse it |
| DeskOps.CreateWindowKeeps | core/src/window.c:2204-2393 | a new window joins the active group of the focused workspace or a new one, keeping every invariant |
| DeskMembers.CreateMeaning | core/src/group.c:1089-1151 | a new group is empty, tiled right after the anchor, listed last and active on its workspace |
| DeskMembers.CreateWindowMeaning | core/src/window.c:2204-2393 | a new window is unmapped and stands at the end of the active group of the workspace shown on the focused output, or alone in a new group there |
| DeskOps.MapWindowKeeps | core/src/group.c:1205-1218 | mapping keeps every invariant |
| DeskMembers.MapMeaning | core/src/group.c:1205-1218 | mapping a member gives it the focus exactly when its workspace is shown |
| DeskMembers.FocusTransientMeaning | core/src/window.c:750-830 | a mapped transient on a shown workspace takes the focus to that workspace and changes nothing else |
| DeskMembers.UnmapTransientMeaning | core/src/window.c:1832-1883 | unmapping a transient gives the focus to its parent if that can take it |
| DeskOps.FocusOutputKeeps | core/src/output.c:78-102 | the pointer giving an output the focus keeps every invariant |
| DeskOps.UnmapWindowKeeps | core/src/group.c:1220-1248 | unmapping keeps every invariant: the active window is none or mapped |
| DeskOps.RemoveWindowKeeps | core/src/group.c:2571-2605 | removing a window keeps every invariant and leaves no empty group |
| DeskOps.DestroyWindowKeeps | core/src/window.c:1549-1644 | destroying a window keeps every invariant |
| DeskMembers.DestroyMeaning | core/src/window.c:1549-1644 | a destroyed window is gone from its list and no other window changes; its group is gone, also from the layout, exactly when nothing is left there |
| DeskMembers.MoveWindowIdMeaning | core/src/group.c:1479-1510 | a window moves to the end of another group of its workspace; anything else is refused without effect |
| DeskOps.PlacedIsBeside | core/src/group.c:1567-1580 | a relative move puts the window directly on the asked side of the reference |
| DeskOps.PlacedMembers | core/src/group.c:1567-1580 | and loses or duplicates no member |
| DeskOps.MoveRelativeMeaning | core/src/group.c:1512-1601 | the whole move: the source's list loses exactly the window, the target's list is the others in order around the window and its reference on the asked side, a source left empty is destroyed, and every other list and layout stays |
| DeskGuards.MoveRelativeExactly | core/src/group.c:1512-1601 | a window moves beside another one exactly when both are mapped members of groups on one workspace; otherwise nothing happens |
| DeskOps.AroundExists | core/src/group.c:1512-1601 | there is always such a place: without the window the list falls into the parts before and after the reference |
| DeskOps.InPlaceIsFixed | core/src/group.c:1543-1553 | a window already in place is where the move would put it, so refusing changes nothing |
| DeskOps.MoveRelativeKeeps | core/src/group.c:1512-1601 | relative moves keep every invariant |
| DeskGroups.MoveToLayoutZoneKeeps | core/src/group.c:1603-1697 | a layout drop keeps every invariant, also when a floating target makes it fail and the created group is destroyed |
| DeskZones.ZoneRefused | core/src/group.c:1667-1672 | an allowed drop is refused exactly when the target has no tile |
| DeskZones.RefusedDrop | core/src/group.c:1603-1697 | what a refused drop leaves: the group created last on the workspace is its active one, and two ids are used up; nothing else changes |
| DeskZones.RefusedDropIsSilent | core/src/group.c:1603-1697 | a refused drop leaves the desk as it was, the ids aside, if and only if the group created last was the active one already |
| DeskZones.RefusedDropCanShow | core/src/group.c:1603-1697 | a desk on which a refused drop moves the activity to another group |
| DeskZones.ZoneReadyMeaning | core/src/group.c:1656-1672 | a drop beside a tiled group seats a new, empty group right beside it: the tree is the old one with that leaf grafted on, as if the group had never been seated elsewhere, and no list changes |
| DeskZones.AcceptedDrop | core/src/group.c:1674-1697 | then exactly the window moves into it, and its old group is destroyed when it was the last there |
| DeskGuards.DropExactly | core/src/group.c:1603-1697 | a window is dropped beside a group exactly when it is a mapped member on the same workspace and not alone in that very group, and a floating target leaves all lists and seats; otherwise nothing happens |
| DeskGroups.RelocateGroupKeeps | core/src/layout.c:2270-2479 | a relative move of a group keeps every invariant |
| DeskGroups.SwapGroupsKeeps | core/src/layout.c:907-973 | exchanging two groups keeps every invariant, registry included |
| DeskGroups.MergeMeaning | core/src/group.c:1699-1759 | merging yields the target's windows followed by the source's, destroys the source, and leaves every other group as it was |
| DeskGuards.MergeExactly | core/src/group.c:1699-1759 | two different groups merge exactly when they are on the same workspace; otherwise nothing happens |
| DeskGroups.RangeIsSlice | core/src/group.c:1876-1960 | a range is the contiguous slice, and empty exactly when its last window precedes its first |
| DeskGroups.MoveRangeMeaning | core/src/group.c:1876-1998 | a range move appends exactly the slice and keeps the rest in order; with last before first nothing changes |
| DeskGuards.MoveRangeExactly | core/src/group.c:1876-1998 | a range moves exactly when its ends are in one other group of the target's workspace and in order; otherwise nothing happens |
| DeskPlacement.FocusWindowIdEffects | core/src/group.c:1349-1380 | focusing by id shows the workspace, gives the window the focus, and moves no tiled group and no window |
| DeskGuards.FocusByIdExactly | core/src/group.c:1349-1380 | focusing a member by id gives it and its workspace the focus exactly when it is mapped and the workspace is on an output; otherwise nothing happens |
| DeskMembers.FocusGroupMeaning | core/src/group.c:1320-1347 | focusing a group by id gives the focus to its active window on the shown workspace, or does nothing |
| DeskPlacement.SplitWindowKeeps | core/src/group.c:1761-1791 | splitting off a window keeps every invariant |
| DeskMembers.SplitWindowMeaning | core/src/group.c:1761-1791 | splitting a mapped window off a tiled group of several focuses it and leaves it alone in a new tiled group of its workspace; anything else is refused without effect |
| DeskMembers.SplitActiveMeaning | core/src/layout.c:2547-2598 | the same for the active window, on the workspace that has the focus |
| DeskPlacement.SplitActiveKeeps | core/src/layout.c:2547-2598 | splitting the active window off keeps every invariant, also when another output has the focus |
| DeskPlacement.SplitAtMeaning | core/src/group.c:1793-1874 | splitting at a window moves it and all after it, in order, to a new group placed right after theirs |
| DeskGuards.SplitAtExactly | core/src/group.c:1793-1874 | a group is split at a window exactly when that is mapped and not the first, and the group is tiled on a workspace that is on an output; otherwise nothing happens |
| DeskPlacement.SplitAtSucceeds | core/src/group.c:1838-1864 | once allowed and focused the range to move is never refused, so the created group is never destroyed again |
| DeskPlacement.MergeUndoesSplitAt | core/src/group.c:1699-1874 | merging the new group back restores the window order of every group, and every tree and registry |
| DeskPlacement.SetPinnedKeeps | core/src/group.c:2246-2293 | pinning keeps every invariant: the group ends up on the shown workspace with the pin that was asked for |
| DeskPlacement.MoveGroupToWorkspaceKeeps | core/src/group.c:2348-2505 | moving a group keeps every invariant; pinned groups stay |
| DeskPlacement.MoveWindowToWorkspaceKeeps | core/src/group.c:2507-2569 | moving a window to another workspace keeps every invariant |
| DeskMembers.WindowToWorkspaceMeaning | core/src/group.c:2507-2569 | a window sent to an assigned workspace joins the active group there at the end, or is alone in a new group; anything else is refused without effect |
| DeskPlacement.MakeTransientKeeps | core/src/window.c:857-909 | becoming a transient keeps every invariant |
| DeskMembers.MakeTransientMeaning | core/src/window.c:857-909 | a window that becomes a transient is in no group and on its parent's workspace, has left its old group, and takes the focus to that workspace if it is mapped and the workspace is shown |
| DeskPlacement.MakeTiledKeeps | core/src/window.c:911-1010 | becoming tiled keeps every invariant |
| DeskMembers.MakeTiledMeaning | core/src/window.c:911-1010 | a member that becomes tiled takes its group along if it is alone there, and gets a new tiled group on the same workspace otherwise |
| DeskMembers.LooseBecomesTiled | core/src/window.c:911-1010 | a window without a group joins the tiled active group of its workspace at the end, or is alone in a new one |
| DeskMembers.LooseTakesFocus | core/src/window.c:911-1010 | and takes the focus there if it is mapped and the workspace is shown |
| DeskPlacement.MakeFloatingKeeps | core/src/window.c:1012-1065 | becoming floating keeps every invariant |
| DeskMembers.MakeFloatingMeaning | core/src/window.c:1012-1065 | a window that becomes floating stands alone in a floating group on the same workspace; without room to float there it still gets a group of its own, which stays tiled |
| DeskRuns.StepKeeps | core/src/group.c:1089-2605 | every public operation keeps every invariant |
| DeskRuns.DeclaredMeaning | core/src/workspace.c:408-435 | start-up creates exactly the declared workspaces, in the order of the policy and with its preferences and marks |
| DeskRuns.ReachableInv | core/src/workspace.c:408-435 | from start-up, after any sequence of operations, every invariant holds |
| DeskRuns.ReachableGroups | core/src/group.c:1163-2605 | in every reachable state: count is the list length, each window is in exactly its group's list, active is none or a mapped member, workspace and placement agree, tiled iff it has a tile, no group is empty, a pinned group floats on the shown workspace |
| DeskRuns.ReachableWorkspaces | core/src/layout.c:1783-2479 | in every reachable state: the registry lists exactly the leaves, which are exactly the tiled groups; an active group exists exactly when a group does |
| DeskRuns.ReachableOutputs | core/src/workspace.c:279-977 | in every reachable state: lists and back-pointers agree, no output is empty, and each shows one of its own workspaces |
| Server.Server.FindLastMapped | core/src/group.c:20-35 | the loop returns the mapped window at the greatest index of the list, and none exactly when no member is mapped |
| Server.Server.FindLastGroupIn | core/src/group.c:37-53 | the loop returns the group of the workspace at the greatest index of the server's list, and none exactly when there is none |
| Server.Server.FocusGroupWindow | core/src/group.c:1250-1318 | the field updates are the focus step of the desk |
| Server.Server.UnlinkWindow | core/src/group.c:1438-1468 | unlinking with its hand-over of the active window |
| Server.Server.CreateIn | core/src/group.c:1089-1151 | the new group is tiled after the anchor and active |
| Server.Server.Destroy | core/src/group.c:1017-1081 | the group leaves layout and list, and the activity falls back |
| Server.Server.RemoveFromGroup | core/src/group.c:2571-2605 | a window leaves its group, and a group left empty is destroyed |
| Server.Server.MoveTo | core/src/group.c:1426-1477 | the move of one window |
| Server.Server.Merge | core/src/group.c:1699-1759 | the loop that moves the head of the source computes the merge, and reports it exactly when allowed |
| Server.Server.CollectRange | core/src/group.c:1911-1969 | the scan finds a range exactly when the last window does not precede the first, and collects it |
| Server.Server.MoveRangeIds | core/src/group.c:1876-1998 | the loop over the collected windows computes the range move, and reports it exactly when allowed and not empty |
| Server.Server.Float | core/src/group.c:2000-2066 | floating with the loop over the members, refused without effect otherwise |
| Server.Server.Tile | core/src/group.c:2068-2127 | tiling with the loop over the members, refused without effect otherwise |
| Server.Server.MoveFloatingTo | core/src/group.c:2171-2244 | the move of a floating group with both workspaces' active groups |
| Server.Server.FollowPinnedGroups | core/src/group.c:2295-2327 | the loop over all groups computes the following |
| Server.Server.SwitchOutputWorkspace | core/src/workspace.c:341-406 | the switch of the shown workspace, reported exactly when the workspace is the output's |
| Server.Server.FocusVisibleWorkspace | core/src/workspace.c:303-339 | the focus of the shown workspace |
| Server.Server.PopulateOutput | core/src/workspace.c:437-503 | which workspaces a new output receives |
| Server.Server.OutputAdded | core/src/workspace.c:437-546 | the new output shows its startup workspace, else its first; every invariant holds |
| Server.Server.OutputRemoved | core/src/workspace.c:548-604 | the loops over pins and assignments; every invariant holds |
| Server.Server.SplitAtWindow | core/src/group.c:1793-1874 | the split at a window, keeping every invariant, reported exactly when allowed |
| Server.Server.MoveWindowRelative | core/src/group.c:1512-1601 | the relative move, keeping every invariant, reported exactly when allowed and the window is not in place already |
| Server.Server.SetGroupPinned | core/src/group.c:2246-2293 | the pin, keeping every invariant, reported exactly when the group floats on an output |
| Server.Server.ValidatePolicy | core/src/workspace.c:719-843 | the counting loops accept exactly the acceptable policies |
| Server.Server.ApplyRuntimePolicy | core/src/workspace.c:845-977 | the three loops compute the application of the policy |
| Server.Server.ReloadPolicy | core/src/workspace.c:719-977 | accepts exactly a policy that declares the current workspaces, each once and all live, and leaves no output empty; then every workspace is where the policy declares it, and otherwise nothing changes; every invariant holds after it |

## Left out

- Groups, windows, workspaces and outputs of `Server` are records in tables keyed by id, not objects; the pointers between them are ids. What pointers add there, sharing and identity, is not modelled; in the layout and in the session lock the objects are modelled as objects.
- Operations without a loop of their own are given for `Desk` as functions; `Server` repeats those that loop, and those the loops are built from.
- Mapping rules (core/src/window.c:1690-1785) are the sequence of the operations they call.
- Scene nodes, surfaces, listeners, cursors, colours and logging: foreign state, and nothing here depends on it.
- Keyboard focus outside the lock: which surface the seat focuses is modelled only for the session lock; for windows the model has the active group and the active window.
- `normal_enabled`, the scene trees hidden while locked, and the lock's own scene tree: visibility of scene nodes only.
- Refocusing after an unlock (core/src/session_lock.c:164-174) is a later focus event of the environment, not part of the unlock step.
- `find_resize_border_in_node` and its search for the closest border (core/src/layout.c:1122-1337): its tolerance is not transitive, so "closest" is not a property it has; a handle is taken from any split instead.
- A workspace whose output has no usable area keeps the boxes of its tiles; nothing is claimed about those boxes.
- Floating boxes in `Desk`: floating, tiling and moving a group do not track its box there; `FloatingGeometry` has the box.
- Tab hit tests at columns that are not integers: truncation toward zero left of the origin makes them depend on the sign.
- KDL parsing, the wire protocols of the shell, actions, layer shell, popups, transients' geometry, fallback and recovery: parsing, dispatch and object lifetime around library objects, which would add only easy members.
