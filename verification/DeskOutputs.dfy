/** Outputs, the workspaces assigned to them, and groups pinned to them; with these the invariants
that hold between operations are complete. */
module DeskOutputs {
  import opened Seqs
  import opened LayoutTree
  import opened DeskState
  import opened DeskSteps
  import opened DeskMoves
  import opened DeskWindows

  ghost predicate OutputHoused(homes: map<Id, Workspace>, id: Id, o: Output) {
    && NoDup(o.assignments)
    && (forall ws :: ws in o.assignments ==> ws in homes && homes[ws].output == Some(id))
    && (o.visible.Some? ==> o.visible.value in o.assignments)
  }

  ghost predicate WorkspaceHoused(outputs: map<Id, Output>, id: Id, w: Workspace) {
    w.output.Some? ==> w.output.value in outputs && id in outputs[w.output.value].assignments
  }

  ghost predicate Listing(order: seq<Id>, keys: set<Id>) {
    NoDup(order) && forall x :: x in order <==> x in keys
  }

  /** Assignment lists and back-pointers agree, and an output shows one of its own workspaces. */
  ghost predicate Housed(d: Desk) {
    var homes := Homes(d.workspaces);
    && Listing(d.outputOrder, d.outputs.Keys) && Listing(d.workspaceOrder, homes.Keys)
    && (d.focusedOutput.Some? ==> d.focusedOutput.value in d.outputs)
    && (forall o :: o in d.outputs ==> OutputHoused(homes, o, d.outputs[o]))
    && forall ws :: ws in homes ==> WorkspaceHoused(d.outputs, ws, homes[ws])
  }

  /** Every output shows a workspace, so it has one. */
  ghost predicate Settled(d: Desk) {
    forall o :: o in d.outputs ==> d.outputs[o].visible.Some?
  }

  /** A pinned group floats on the workspace its output shows. */
  ghost predicate PinSound(outputs: map<Id, Output>, s: Stance) {
    s.pin.Some? ==> s.placement.Floating? && s.pin.value in outputs && outputs[s.pin.value].visible == Some(s.workspace)
  }

  ghost predicate PinsSound(d: Desk) {
    var stances := Stances(d.groups);
    forall g :: g in stances ==> PinSound(d.outputs, stances[g])
  }

  /** What holds between operations, but groups of `spare` may still be empty. */
  ghost predicate Inv(d: Desk, spare: set<Id>) {
    Sound(d) && NonEmptyBut(d, spare) && Housed(d) && Settled(d) && PinsSound(d)
  }

  // ----- the steps keep it

  lemma RefocusedKeeps(d: Desk, e: Desk, spare: set<Id>)
    requires Inv(d, spare) && Refocused(d, e) && Sound(e)
    ensures Inv(e, spare)
  {
  }

  /** Lists, stances and outputs are all that the invariants beyond `Sound` depend on. */
  lemma StandingKeeps(d: Desk, e: Desk, spare: set<Id>)
    requires Inv(d, spare) && Sound(e) && SameOutputs(d, e)
    requires Lists(e.groups) == Lists(d.groups) && Stances(e.groups) == Stances(d.groups)
    ensures Inv(e, spare)
  {
  }

  lemma FocusKeeps(d: Desk, w: Id, spare: set<Id>)
    requires Inv(d, spare)
    ensures Inv(FocusWindow(d, w), spare)
  {
    FocusWindowSound(d, w);
    FocusRefocuses(d, w);
    RefocusedKeeps(d, FocusWindow(d, w), spare);
  }

  lemma FocusActiveKeeps(d: Desk, g: Id, spare: set<Id>)
    requires Inv(d, spare)
    ensures Inv(FocusActive(d, g), spare)
  {
    if g in d.groups && d.groups[g].active.Some? {
      FocusKeeps(d, d.groups[g].active.value, spare);
    }
  }

  /** Steps that change the lists and stances of one group. */
  lemma GroupStepKeeps(d: Desk, e: Desk, spare: set<Id>, g: Id, list: seq<Id>, stance: Stance, spare': set<Id>)
    requires Inv(d, spare) && Sound(e) && SameOutputs(d, e) && spare <= spare' + {g}
    requires Lists(e.groups) == Lists(d.groups)[g := list] && (list == [] ==> g in spare')
    requires Stances(e.groups) == Stances(d.groups)[g := stance] && PinSound(d.outputs, stance)
    ensures Inv(e, spare')
  {
  }

  lemma StanceUpdate(groups: map<Id, Group>, g: Id, x: Group)
    ensures Stances(groups[g := x]) == Stances(groups)[g := StanceOf(x)]
  {
  }

  lemma SameHomes(workspaces: map<Id, Workspace>, ws: Id, x: Workspace)
    requires ws in workspaces && x.output == workspaces[ws].output
    requires x.affinity == workspaces[ws].affinity && x.startup == workspaces[ws].startup
    ensures Homes(workspaces[ws := x]) == Homes(workspaces)
  {
  }

  lemma AddKeeps(d: Desk, g: Id, w: Id, spare: set<Id>)
    requires Inv(d, spare) && g in d.groups && w in d.windows && d.windows[w].group.None?
    ensures Inv(AddWindow(d, g, w), spare - {g})
  {
    var e := AddWindow(d, g, w);
    AddWindowSound(d, g, w);
    GroupUpdate(d.groups, g, e.groups[g]);
    StanceUpdate(d.groups, g, e.groups[g]);
    StanceSound(d, g);
    GroupStepKeeps(d, e, spare, g, e.groups[g].windows, StanceOf(e.groups[g]), spare - {g});
  }

  lemma StanceSound(d: Desk, g: Id)
    requires PinsSound(d) && g in d.groups
    ensures PinSound(d.outputs, StanceOf(d.groups[g]))
  {
    assert Stances(d.groups)[g] == StanceOf(d.groups[g]);
  }

  lemma LeaveKeeps(d: Desk, w: Id, spare: set<Id>)
    requires Inv(d, spare) && w in d.windows && d.windows[w].group.Some?
    ensures Inv(Leave(d, w), spare + {d.windows[w].group.value})
  {
    var e, g := Leave(d, w), d.windows[w].group.value;
    SoundWindow(d, w);
    LeaveSound(d, w);
    GroupUpdate(d.groups, g, e.groups[g]);
    StanceUpdate(d.groups, g, e.groups[g]);
    StanceSound(d, g);
    GroupStepKeeps(d, e, spare, g, e.groups[g].windows, StanceOf(e.groups[g]), spare + {g});
  }

  lemma CreateKeeps(d: Desk, ws: Id, o: Orientation, r: real, spare: set<Id>)
    requires Inv(d, spare) && ws in d.workspaces
    ensures Inv(CreateGroup(d, ws, o, r), spare + {d.nextGroup})
  {
    var e, g := CreateGroup(d, ws, o, r), d.nextGroup;
    CreateGroupSound(d, ws, o, r);
    GroupUpdate(d.groups, g, e.groups[g]);
    StanceUpdate(d.groups, g, e.groups[g]);
    SameHomes(d.workspaces, ws, e.workspaces[ws]);
    GroupStepKeeps(d, e, spare, g, [], StanceOf(e.groups[g]), spare + {g});
  }

  lemma DestroyKeeps(d: Desk, g: Id, spare: set<Id>)
    requires Inv(d, spare) && g in d.groups && d.groups[g].windows == []
    ensures Inv(DestroyGroup(d, g), spare - {g})
  {
    DestroyGroupSound(d, g);
    SoundGroup(d, g);
    DestroyLists(d, g);
  }

  lemma ListsMovedKeeps(d: Desk, e: Desk, source: Id, rest: seq<Id>, target: Id, moved: seq<Id>, spare: set<Id>)
    requires Inv(d, spare) && Sound(e) && source in d.groups && target in d.groups && source != target
    requires ListsMoved(d, e, source, rest, target, moved) && moved != []
    ensures Inv(e, spare - {target})
  {
    hide Sound, Homes;
    assert d.groups[target].windows + moved != [];
  }

  lemma MoveWindowKeeps(d: Desk, w: Id, target: Id, spare: set<Id>)
    requires Inv(d, spare)
    ensures Inv(MoveWindow(d, w, target), if CanMoveWindow(d, w, target) then spare - {target} else spare)
  {
    MoveWindowSound(d, w, target);
    if CanMoveWindow(d, w, target) {
      var source := d.windows[w].group.value;
      MoveWindowLists(d, w, target);
      ListsMovedKeeps(d, MoveWindow(d, w, target), source, Without(d.groups[source].windows, w), target, [w], spare);
    }
  }

  lemma MoveWindowsKeeps(d: Desk, list: seq<Id>, source: Id, target: Id, spare: set<Id>)
    requires Inv(d, spare) && source in d.groups && target in d.groups && source != target
    requires NoDup(list) && list != [] && forall w :: w in list ==> w in d.groups[source].windows
    ensures Inv(MoveWindows(d, list, target), spare - {target})
  {
    MoveWindowsSound(d, list, target);
    MoveWindowsLists(d, list, source, target);
    ListsMovedKeeps(d, MoveWindows(d, list, target), source, WithoutAll(d.groups[source].windows, list), target, list,
        spare);
  }

  // ----- a group gets another seat

  lemma FloatKeeps(d: Desk, g: Id, room: bool, spare: set<Id>)
    requires Inv(d, spare)
    ensures Inv(FloatGroup(d, g, room), spare)
  {
    if CanFloat(d, g) && room {
      var e, ws := Floated(d, g), d.groups[g].workspace;
      FloatedSound(d, g);
      GroupUpdate(d.groups, g, e.groups[g]);
      StanceUpdate(d.groups, g, e.groups[g]);
      SameHomes(d.workspaces, ws, e.workspaces[ws]);
      OneListKept(d, g, spare);
      GroupStepKeeps(d, e, spare, g, d.groups[g].windows, StanceOf(e.groups[g]), spare);
      FocusActiveKeeps(e, g, spare);
    }
  }

  lemma OneListKept(d: Desk, g: Id, spare: set<Id>)
    requires NonEmptyBut(d, spare) && g in d.groups
    ensures d.groups[g].windows == [] ==> g in spare
  {
    assert Lists(d.groups)[g] == d.groups[g].windows;
  }

  lemma TileKeeps(d: Desk, g: Id, r: real, spare: set<Id>)
    requires Inv(d, spare)
    ensures Inv(TileGroup(d, g, r), spare)
  {
    if CanTile(d, g) {
      var e, ws := TiledAgain(d, g, r), d.groups[g].workspace;
      TiledAgainSound(d, g, r);
      GroupUpdate(d.groups, g, e.groups[g]);
      StanceUpdate(d.groups, g, e.groups[g]);
      SameHomes(d.workspaces, ws, e.workspaces[ws]);
      OneListKept(d, g, spare);
      GroupStepKeeps(d, e, spare, g, d.groups[g].windows, StanceOf(e.groups[g]), spare);
      FocusActiveKeeps(e, g, spare);
    }
  }

  /** The two workspaces of a move keep their outputs. */
  lemma MovedHomes(workspaces: map<Id, Workspace>, a: Id, x: Workspace, b: Id, y: Workspace)
    requires a in workspaces && b in workspaces && a != b
    requires
      x.(active := None, layout := Tiling(None, [])) == workspaces[a].(active := None, layout := Tiling(None, []))
    requires
      y.(active := None, layout := Tiling(None, [])) == workspaces[b].(active := None, layout := Tiling(None, []))
    ensures Homes(workspaces[a := x][b := y]) == Homes(workspaces)
  {
  }

  lemma MoveFloatingEffects(d: Desk, g: Id, target: Id, follow: bool)
    requires CanMoveFloating(d, g, target)
    ensures var e := MoveFloating(d, g, target, follow);
      && Lists(e.groups) == Lists(d.groups)
      && Stances(e.groups) == Stances(d.groups)[g := StanceOf(Carried(d, g, target))]
      && SameOutputs(d, e) && e.groupOrder == d.groupOrder && Layouts(e.workspaces) == Layouts(d.workspaces)
  {
    var e, source := MoveFloating(d, g, target, follow), d.groups[g].workspace;
    GroupUpdate(d.groups, g, Carried(d, g, target));
    StanceUpdate(d.groups, g, Carried(d, g, target));
    MovedHomes(d.workspaces, source, e.workspaces[source], target, e.workspaces[target]);
    assert Lists(d.groups)[g := d.groups[g].windows] == Lists(d.groups);
  }

  lemma MoveTiledKeeps(d: Desk, g: Id, target: Id, r: real, spare: set<Id>)
    requires Inv(d, spare)
    ensures Inv(MoveTiled(d, g, target, r), spare)
  {
    if CanMoveTiled(d, g, target) {
      var e, source, x := MoveTiled(d, g, target, r), d.groups[g].workspace, d.groups[g].(workspace := target);
      MoveTiledSound(d, g, target, r);
      GroupUpdate(d.groups, g, x);
      StanceUpdate(d.groups, g, x);
      MovedHomes(d.workspaces, source, e.workspaces[source], target, e.workspaces[target]);
      OneListKept(d, g, spare);
      StanceSound(d, g);
      GroupStepKeeps(d, e, spare, g, d.groups[g].windows, StanceOf(x), spare);
    }
  }

  /** A group without a pin may be moved freely; one that stays on the shown workspace as well. */
  lemma MoveFloatingKeeps(d: Desk, g: Id, target: Id, follow: bool, spare: set<Id>)
    requires Inv(d, spare)
    requires CanMoveFloating(d, g, target) ==> PinSound(d.outputs, StanceOf(Carried(d, g, target)))
    ensures Inv(MoveFloating(d, g, target, follow), spare)
  {
    hide Sound;
    if CanMoveFloating(d, g, target) {
      MoveFloatingSound(d, g, target, follow);
      MoveFloatingEffects(d, g, target, follow);
      OneListKept(d, g, spare);
      assert Lists(d.groups)[g := d.groups[g].windows] == Lists(d.groups);
      GroupStepKeeps(d, MoveFloating(d, g, target, follow), spare, g, d.groups[g].windows,
          StanceOf(Carried(d, g, target)), spare);
    }
  }
}
