/** Runs of the desk: whatever sequence of operations is performed, every invariant holds after each. */
module DeskRuns {
  import opened Seqs
  import opened LayoutTree
  import opened DeskState
  import opened DeskMoves
  import opened DeskWindows
  import opened DeskOutputs
  import opened DeskSwitch
  import opened DeskPolicy
  import opened DeskReload
  import opened DeskOps
  import opened DeskGroups
  import opened DeskPlacement

  // Operations by what they are about.  `r` is the policy's initial split ratio, `room` says whether a
  // usable area is known, and `current` lists the workspaces declared by the policy in force.

  datatype WindowOp =
    | WindowCreated(r: real)
    | WindowMapped(w: Id)
    | WindowUnmapped(w: Id, parent: Option<Id>)
    | WindowDestroyed(w: Id)
    | Fullscreen(w: Id, on: bool)
    | WindowToGroup(w: Id, g: Id)
    | WindowBeside(w: Id, reference: Id, side: Side)
    | WindowToZone(w: Id, g: Id, dir: Direction, r: real)

  datatype PlacementOp =
    | WindowToWorkspace(w: Id, ws: Id, r: real)
    | WindowTransient(w: Id, of: Id)
    | TransientMoved(w: Id, ws: Id)
    | WindowTiled(w: Id, r: real)
    | WindowFloated(w: Id, room: bool, r: real)

  datatype ListOp =
    | RangeToGroup(first: Id, last: Id, g: Id)
    | GroupsMerged(source: Id, target: Id)
    | ActiveSplit(o: Orientation, r: real)
    | GroupSplit(w: Id, o: Orientation, r: real)
    | GroupSplitAt(w: Id, o: Orientation, r: real)

  datatype SeatOp =
    | GroupFloated(g: Id, room: bool)
    | GroupTiled(g: Id, r: real)
    | GroupPinned(g: Id, pinned: bool)
    | GroupToWorkspace(g: Id, ws: Id, r: real)

  datatype LayoutOp =
    | GroupRelocated(g: Id, target: Id, dir: Direction, r: real)
    | GroupsSwapped(a: Id, b: Id)
    | SplitReframed(ws: Id, k: Id, f: Frame)

  datatype FocusOp =
    | FocusOn(w: Id)
    | FocusOnWindowId(w: Id)
    | FocusOnGroupId(g: Id)
    | OutputFocused(output: Id)
    | WorkspaceActivated(ws: Id)
    | WorkspaceNext
    | WorkspacePrevious

  datatype OutputOp =
    | OutputAdded(output: Id, name: Id)
    | OutputRemoved(output: Id)
    | PolicyReloaded(current: seq<Id>, policy: seq<Item>)

  datatype Op =
    | OnWindow(window: WindowOp)
    | OnPlacement(placement: PlacementOp)
    | OnLists(lists: ListOp)
    | OnSeats(seats: SeatOp)
    | OnLayout(layout: LayoutOp)
    | OnFocus(focus: FocusOp)
    | OnOutputs(outputs: OutputOp)

  ghost function Reload(d: Desk, current: seq<Id>, policy: seq<Item>): Desk {
    if NoDup(current) && Acceptable(d, current, policy) then ApplyPolicy(d, policy) else d
  }

  ghost function WindowStep(d: Desk, op: WindowOp): Desk {
    match op
    case WindowCreated(r) => CreateWindow(d, r)
    case WindowMapped(w) => MapWindow(d, w)
    case WindowUnmapped(w, parent) => UnmapWindow(d, w, parent)
    case WindowDestroyed(w) => DestroyWindow(d, w)
    case Fullscreen(w, on) => SetFullscreen(d, w, on)
    case WindowToGroup(w, g) => MoveWindowId(d, w, g)
    case WindowBeside(w, reference, side) => MoveRelative(d, w, reference, side)
    case WindowToZone(w, g, dir, r) => MoveToLayoutZone(d, w, g, dir, r)
  }

  ghost function PlacementStep(d: Desk, op: PlacementOp): Desk {
    match op
    case WindowToWorkspace(w, ws, r) => MoveWindowToWorkspace(d, w, ws, r)
    case WindowTransient(w, of) => MakeTransient(d, w, of)
    case TransientMoved(w, ws) => Stand(d, w, Some(ws), Transient)
    case WindowTiled(w, r) => MakeTiled(d, w, r)
    case WindowFloated(w, room, r) => MakeFloating(d, w, room, r)
  }

  ghost function ListStep(d: Desk, op: ListOp): Desk {
    match op
    case RangeToGroup(first, last, g) => MoveRange(d, first, last, g)
    case GroupsMerged(source, target) => MergeGroups(d, source, target)
    case ActiveSplit(o, r) => SplitActive(d, o, r)
    case GroupSplit(w, o, r) => SplitWindow(d, w, o, r)
    case GroupSplitAt(w, o, r) => SplitAt(d, w, o, r)
  }

  ghost function SeatStep(d: Desk, op: SeatOp): Desk {
    match op
    case GroupFloated(g, room) => FloatGroup(d, g, room)
    case GroupTiled(g, r) => TileGroup(d, g, r)
    case GroupPinned(g, pinned) => SetPinned(d, g, pinned)
    case GroupToWorkspace(g, ws, r) => MoveGroupToWorkspace(d, g, ws, r)
  }

  ghost function LayoutStep(d: Desk, op: LayoutOp): Desk {
    match op
    case GroupRelocated(g, target, dir, r) => RelocateGroup(d, g, target, dir, r)
    case GroupsSwapped(a, b) => SwapGroups(d, a, b)
    case SplitReframed(ws, k, f) => ReframeSplit(d, ws, k, f)
  }

  ghost function FocusStep(d: Desk, op: FocusOp): Desk {
    match op
    case FocusOn(w) => FocusAny(d, w)
    case FocusOnWindowId(w) => FocusWindowId(d, w)
    case FocusOnGroupId(g) => FocusGroupId(d, g)
    case OutputFocused(output) => FocusOutput(d, output)
    case WorkspaceActivated(ws) => Activate(d, ws)
    case WorkspaceNext => NextWorkspace(d)
    case WorkspacePrevious => PreviousWorkspace(d)
  }

  ghost function OutputStep(d: Desk, op: OutputOp): Desk {
    match op
    case OutputAdded(output, name) => AddOutput(d, output, name)
    case OutputRemoved(output) => RemoveOutput(d, output)
    case PolicyReloaded(current, policy) => Reload(d, current, policy)
  }

  ghost function Step(d: Desk, op: Op): Desk {
    match op
    case OnWindow(x) => WindowStep(d, x)
    case OnPlacement(x) => PlacementStep(d, x)
    case OnLists(x) => ListStep(d, x)
    case OnSeats(x) => SeatStep(d, x)
    case OnLayout(x) => LayoutStep(d, x)
    case OnFocus(x) => FocusStep(d, x)
    case OnOutputs(x) => OutputStep(d, x)
  }

  lemma RangeKeeps(d: Desk, first: Id, last: Id, g: Id)
    requires Inv(d, {})
    ensures Inv(MoveRange(d, first, last, g), {})
  {
    if first in d.windows && last in d.windows && g in d.groups && d.windows[first].group.Some?
       && d.windows[first].group == d.windows[last].group && d.windows[first].group != Some(g) {
      var source := d.windows[first].group.value;
      SoundWindow(d, first);
      SoundWindow(d, last);
      SoundGroup(d, source);
      if d.groups[source].workspace == d.groups[g].workspace {
        var list := d.groups[source].windows;
        var i :| 0 <= i < |list| && list[i] == first;
        var j :| 0 <= j < |list| && list[j] == last;
        MoveRangeMeaning(d, source, i, j, g);
      }
    }
  }

  lemma MergeKeeps(d: Desk, source: Id, target: Id)
    requires Inv(d, {})
    ensures Inv(MergeGroups(d, source, target), {})
  {
    if CanMerge(d, source, target) {
      MergeMeaning(d, source, target);
    }
  }

  lemma FocusGroupIdKeeps(d: Desk, g: Id)
    requires Inv(d, {})
    ensures Inv(FocusGroupId(d, g), {})
  {
    if g in d.groups && d.groups[g].active.Some? {
      FocusWindowIdKeeps(d, d.groups[g].active.value, {});
    }
  }

  lemma ReloadKeeps(d: Desk, current: seq<Id>, policy: seq<Item>)
    requires Inv(d, {})
    ensures Inv(Reload(d, current, policy), {})
  {
    if NoDup(current) && Acceptable(d, current, policy) {
      AcceptedPolicyApplies(d, current, policy);
    }
  }

  lemma WindowStepKeeps(d: Desk, op: WindowOp)
    requires Inv(d, {})
    ensures Inv(WindowStep(d, op), {})
  {
    match op
    case WindowCreated(r) => CreateWindowKeeps(d, r);
    case WindowMapped(w) => MapWindowKeeps(d, w, {});
    case WindowUnmapped(w, parent) => UnmapWindowKeeps(d, w, parent, {});
    case WindowDestroyed(w) => DestroyWindowKeeps(d, w);
    case Fullscreen(w, on) => SetFullscreenKeeps(d, w, on);
    case WindowToGroup(w, g) => MoveWindowIdKeeps(d, w, g);
    case WindowBeside(w, reference, side) => MoveRelativeKeeps(d, w, reference, side);
    case WindowToZone(w, g, dir, r) => MoveToLayoutZoneKeeps(d, w, g, dir, r);
  }

  lemma PlacementStepKeeps(d: Desk, op: PlacementOp)
    requires Inv(d, {})
    ensures Inv(PlacementStep(d, op), {})
  {
    match op
    case WindowToWorkspace(w, ws, r) => MoveWindowToWorkspaceKeeps(d, w, ws, r);
    case WindowTransient(w, of) => MakeTransientKeeps(d, w, of);
    case TransientMoved(w, ws) => StandKeeps(d, w, Some(ws), Transient);
    case WindowTiled(w, r) => MakeTiledKeeps(d, w, r);
    case WindowFloated(w, room, r) => MakeFloatingKeeps(d, w, room, r);
  }

  lemma ListStepKeeps(d: Desk, op: ListOp)
    requires Inv(d, {})
    ensures Inv(ListStep(d, op), {})
  {
    match op
    case RangeToGroup(first, last, g) => RangeKeeps(d, first, last, g);
    case GroupsMerged(source, target) => MergeKeeps(d, source, target);
    case ActiveSplit(o, r) => SplitActiveKeeps(d, o, r);
    case GroupSplit(w, o, r) => SplitWindowKeeps(d, w, o, r);
    case GroupSplitAt(w, o, r) => SplitAtKeeps(d, w, o, r);
  }

  lemma SeatStepKeeps(d: Desk, op: SeatOp)
    requires Inv(d, {})
    ensures Inv(SeatStep(d, op), {})
  {
    match op
    case GroupFloated(g, room) => FloatKeeps(d, g, room, {});
    case GroupTiled(g, r) => TileKeeps(d, g, r, {});
    case GroupPinned(g, pinned) => SetPinnedKeeps(d, g, pinned);
    case GroupToWorkspace(g, ws, r) => MoveGroupToWorkspaceKeeps(d, g, ws, r);
  }

  lemma LayoutStepKeeps(d: Desk, op: LayoutOp)
    requires Inv(d, {})
    ensures Inv(LayoutStep(d, op), {})
  {
    match op
    case GroupRelocated(g, target, dir, r) => RelocateGroupKeeps(d, g, target, dir, r, {});
    case GroupsSwapped(a, b) => SwapGroupsKeeps(d, a, b, {});
    case SplitReframed(ws, k, f) => ReframeSplitKeeps(d, ws, k, f, {});
  }

  lemma FocusStepKeeps(d: Desk, op: FocusOp)
    requires Inv(d, {})
    ensures Inv(FocusStep(d, op), {})
  {
    match op
    case FocusOn(w) => FocusAnyKeeps(d, w, {});
    case FocusOnWindowId(w) => FocusWindowIdKeeps(d, w, {});
    case FocusOnGroupId(g) => FocusGroupIdKeeps(d, g);
    case OutputFocused(output) => FocusOutputKeeps(d, output, {});
    case WorkspaceActivated(ws) => ActivateKeeps(d, ws, {});
    case WorkspaceNext => NextWorkspaceKeeps(d, {});
    case WorkspacePrevious => PreviousWorkspaceKeeps(d, {});
  }

  lemma OutputStepKeeps(d: Desk, op: OutputOp)
    requires Inv(d, {})
    ensures Inv(OutputStep(d, op), {})
  {
    match op
    case OutputAdded(output, name) => AddOutputKeeps(d, output, name, {});
    case OutputRemoved(output) => RemoveOutputKeeps(d, output, {});
    case PolicyReloaded(current, policy) => ReloadKeeps(d, current, policy);
  }

  lemma StepKeeps(d: Desk, op: Op)
    requires Inv(d, {})
    ensures Inv(Step(d, op), {})
  {
    match op
    case OnWindow(x) => WindowStepKeeps(d, x);
    case OnPlacement(x) => PlacementStepKeeps(d, x);
    case OnLists(x) => ListStepKeeps(d, x);
    case OnSeats(x) => SeatStepKeeps(d, x);
    case OnLayout(x) => LayoutStepKeeps(d, x);
    case OnFocus(x) => FocusStepKeeps(d, x);
    case OnOutputs(x) => OutputStepKeeps(d, x);
  }

  // ----- from the start

  ghost const Nothing: Desk := Desk(map[], map[], [], None, map[], [], map[], [], None, 1, 1, 1, 0)

  ghost function Declare(d: Desk, item: Item): Desk {
    d.(workspaces := d.workspaces[item.id := Workspace(None, item.affinity, item.startup, None, Tiling(None, []))],
       workspaceOrder := d.workspaceOrder + [item.id],
       nextWorkspace := if item.id >= d.nextWorkspace then item.id + 1 else d.nextWorkspace)
  }

  /** Start-up creates the declared workspaces, or one when none is declared. */
  ghost function Declared(d: Desk, policy: seq<Item>): Desk
    decreases |policy|
  {
    if policy == [] then d else Declared(Declare(d, policy[0]), policy[1..])
  }

  ghost function Start(policy: seq<Item>): Desk {
    if policy == [] then CreateWorkspace(Nothing) else Declared(Nothing, policy)
  }

  /** Only workspaces exist, none of them assigned. */
  ghost predicate Bootstrapping(d: Desk) {
    && d.windows == map[] && d.groups == map[] && d.groupOrder == [] && d.activeGroup == None
    && d.outputs == map[] && d.outputOrder == [] && d.focusedOutput == None
    && NoDup(d.workspaceOrder) && (forall ws :: ws in d.workspaceOrder <==> ws in d.workspaces)
    && forall ws :: ws in d.workspaces ==>
      && ws < d.nextWorkspace
      && d.workspaces[ws].output == None
      && d.workspaces[ws].active == None
      && d.workspaces[ws].layout == Tiling(None, [])
  }

  lemma BootstrappingInv(d: Desk)
    requires Bootstrapping(d)
    ensures Inv(d, {})
  {
    assert Homes(d.workspaces).Keys == d.workspaces.Keys;
  }

  lemma {:induction false} DeclaredBoots(d: Desk, policy: seq<Item>)
    requires Bootstrapping(d) && NoDup(Ids(policy))
    requires forall i :: 0 <= i < |policy| ==> policy[i].id !in d.workspaces
    ensures Bootstrapping(Declared(d, policy))
    decreases |policy|
  {
    if policy != [] {
      RestDeclaredOnce(policy);
      NoDupAppend(d.workspaceOrder, policy[0].id);
      var rest := policy[1..];
      forall i | 0 <= i < |rest| ensures rest[i].id != policy[0].id && rest[i].id !in d.workspaces {
        assert Ids(rest)[i] == rest[i].id && rest[i] == policy[i + 1];
      }
      DeclaredBoots(Declare(d, policy[0]), rest);
    }
  }

  /** Start-up creates exactly the declared workspaces, in the order of the policy and with its preferences
      and marks, and sees to it that new ids are larger than theirs. */
  lemma {:induction false} DeclaredMeaning(d: Desk, policy: seq<Item>)
    requires NoDup(Ids(policy)) && forall i :: 0 <= i < |policy| ==> policy[i].id !in d.workspaces
    ensures var e := Declared(d, policy);
      && e.workspaceOrder == d.workspaceOrder + Ids(policy) && e.nextWorkspace >= d.nextWorkspace
      && (forall ws :: ws in d.workspaces ==> ws in e.workspaces && e.workspaces[ws] == d.workspaces[ws])
      && (forall ws :: ws in e.workspaces ==> ws in d.workspaces || ws in Ids(policy))
      && forall i :: 0 <= i < |policy| ==>
        && policy[i].id in e.workspaces && policy[i].id < e.nextWorkspace
        && e.workspaces[policy[i].id] == Workspace(None, policy[i].affinity, policy[i].startup, None, Tiling(None, []))
    decreases |policy|
  {
    if policy != [] {
      var id, rest := policy[0].id, policy[1..];
      RestDeclaredOnce(policy);
      assert Ids(policy) == [id] + Ids(rest);
      forall i | 0 <= i < |rest| ensures rest[i].id != id && rest[i].id !in d.workspaces {
        assert Ids(rest)[i] == rest[i].id && rest[i] == policy[i + 1];
      }
      DeclaredMeaning(Declare(d, policy[0]), rest);
      assert d.workspaceOrder + [id] + Ids(rest) == d.workspaceOrder + Ids(policy);
      assert forall i :: 0 < i < |policy| ==> policy[i] == rest[i - 1];
    }
  }

  ghost function Run(d: Desk, ops: seq<Op>): Desk
    decreases |ops|
  {
    if ops == [] then d else Step(Run(d, ops[..|ops| - 1]), ops[|ops| - 1])
  }

  lemma {:induction false} RunKeeps(d: Desk, ops: seq<Op>)
    requires Inv(d, {})
    ensures Inv(Run(d, ops), {})
    decreases |ops|
  {
    if ops != [] {
      RunKeeps(d, ops[..|ops| - 1]);
      StepKeeps(Run(d, ops[..|ops| - 1]), ops[|ops| - 1]);
    }
  }

  /** Main result.  From start-up, after any sequence of operations, all invariants hold. */
  lemma ReachableInv(policy: seq<Item>, ops: seq<Op>)
    requires NoDup(Ids(policy))
    ensures Inv(Run(Start(policy), ops), {})
  {
    if policy == [] {
      BootstrappingInv(Start(policy));
    } else {
      DeclaredBoots(Nothing, policy);
      BootstrappingInv(Start(policy));
    }
    RunKeeps(Start(policy), ops);
  }

  /** What the invariants say, spelled out for a reachable state: lists, counts, members, active windows,
      tiles and pins of every group. */
  lemma ReachableGroups(policy: seq<Item>, ops: seq<Op>, g: Id)
    requires NoDup(Ids(policy)) && g in Run(Start(policy), ops).groups
    ensures var d := Run(Start(policy), ops); var x := d.groups[g];
      && x.windowCount == |x.windows| > 0 && NoDup(x.windows)
      && (forall w :: w in x.windows <==> w in d.windows && d.windows[w].group == Some(g))
      && (forall w :: w in x.windows ==> d.windows[w].workspace == Some(x.workspace) && d.windows[w].standing == Within(x.placement))
      && (x.active.Some? ==> x.active.value in x.windows && x.active.value in d.windows && d.windows[x.active.value].mapped)
      && x.workspace in d.workspaces && (x.placement.Tiled? <==> x.hasTile)
      && (x.hasTile <==> g in d.workspaces[x.workspace].layout.tiles)
      && (x.pin.Some? ==> x.placement.Floating? && x.pin.value in d.outputs && d.outputs[x.pin.value].visible == Some(x.workspace))
  {
    ReachableInv(policy, ops);
    var d := Run(Start(policy), ops);
    SoundGroup(d, g);
    OneListKept(d, g, {});
    StanceSound(d, g);
    forall w | w in d.windows && d.windows[w].group == Some(g) ensures w in d.groups[g].windows {
      SoundWindow(d, w);
    }
  }

  /** The same for workspaces: the registry lists exactly the leaves of the tree, which are exactly the
      tiled groups of the workspace; and there is an active group exactly when there is a group. */
  lemma ReachableWorkspaces(policy: seq<Item>, ops: seq<Op>, ws: Id)
    requires NoDup(Ids(policy)) && ws in Run(Start(policy), ops).workspaces
    ensures var d := Run(Start(policy), ops); var x := d.workspaces[ws];
      && NoDup(x.layout.tiles)
      && (forall g :: g in x.layout.tiles <==> g in d.groups && d.groups[g].workspace == ws && d.groups[g].placement.Tiled?)
      && (x.layout.tree.None? <==> x.layout.tiles == [])
      && (x.layout.tree.Some? ==> Distinct(x.layout.tree.value) && forall g: Id :: g in LeafSet<Id, Id>(x.layout.tree.value) <==> g in x.layout.tiles)
      && (x.active.None? <==> forall g :: g in d.groups ==> d.groups[g].workspace != ws)
      && (x.active.Some? ==> x.active.value in d.groups && d.groups[x.active.value].workspace == ws)
      && (x.output.Some? ==> x.output.value in d.outputs && ws in d.outputs[x.output.value].assignments)
  {
    ReachableInv(policy, ops);
    var d := Run(Start(policy), ops);
    var x := d.workspaces[ws];
    SoundWorkspace(d, ws);
    forall g | g in d.groups && d.groups[g].workspace == ws && d.groups[g].placement.Tiled? ensures g in x.layout.tiles {
      SoundGroup(d, g);
    }
    forall g | g in x.layout.tiles ensures g in d.groups && d.groups[g].placement.Tiled? {
      SoundGroup(d, g);
    }
    if x.layout.tree.Some? {
      FirstLeafLeads(x.layout.tree.value);
      var leaf: Id := FirstLeaf(x.layout.tree.value);
      assert leaf in x.layout.tiles;
    }
    if x.active.Some? {
      var active: Id := x.active.value;
      assert active in d.groups && d.groups[active].workspace == ws;
    }
    if x.output.Some? {
      OutputIsLive(d, ws);
    }
  }

  /** The same for outputs: an output has workspaces, each of which names it, and shows one of them. */
  lemma ReachableOutputs(policy: seq<Item>, ops: seq<Op>, o: Id)
    requires NoDup(Ids(policy)) && o in Run(Start(policy), ops).outputs
    ensures var d := Run(Start(policy), ops); var x := d.outputs[o];
      && NoDup(x.assignments) && x.visible.Some? && x.visible.value in x.assignments
      && forall ws :: ws in x.assignments <==> ws in d.workspaces && d.workspaces[ws].output == Some(o)
  {
    ReachableInv(policy, ops);
    var d := Run(Start(policy), ops);
    assert OutputHoused(Homes(d.workspaces), o, d.outputs[o]);
    forall ws ensures ws in d.outputs[o].assignments <==> ws in d.workspaces && d.workspaces[ws].output == Some(o) {
      if ws in d.outputs[o].assignments {
        AssignedHere(d, o, ws);
      } else if ws in d.workspaces && d.workspaces[ws].output == Some(o) {
        OutputIsLive(d, ws);
      }
    }
  }
}
