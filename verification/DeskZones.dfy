/** What a drop beside a floating group does: it is refused, but not without a trace. */
module DeskZones {
  import opened Seqs
  import opened LayoutTree
  import opened DeskState
  import opened DeskSteps
  import opened DeskWindows
  import opened DeskOutputs
  import opened DeskGroups

  /** The desk with another active group on workspace `ws`, which is the server's too when the workspace
      has the focus. */
  ghost function WithActive(d: Desk, ws: Id, active: Option<Id>): Desk
    requires ws in d.workspaces
  {
    d.(workspaces := d.workspaces[ws := d.workspaces[ws].(active := active)],
       activeGroup := if FocusedWorkspace(d) == Some(ws) then active else d.activeGroup)
  }

  /** What creating a group adds, and destroying it takes away again. */
  lemma CreatedParts(d: Desk, ws: Id, o: Orientation, r: real)
    requires Sound(d) && ws in d.workspaces
    ensures var e, g := CreateGroup(d, ws, o, r), d.nextGroup;
      && g !in d.groups && e.groups - {g} == d.groups && Without(e.groupOrder, g) == d.groupOrder
      && d.activeGroup != Some(g)
      && Departed(e.workspaces[ws].layout, g) == d.workspaces[ws].layout
  {
    var e, g, l := CreateGroup(d, ws, o, r), d.nextGroup, d.workspaces[ws].layout;
    FreshGroup(d, ws);
    SoundWorkspace(d, ws);
    AnchorInRegistry(d, ws);
    LeaveUndoesEnter(l, Anchor(d, ws), g, d.nextSplit, o, r, d.nextSplit);
    WithoutConcat(d.groupOrder, [g], g);
    WithoutElsewhere(d.groupOrder, g);
    assert e.groups - {g} == d.groups;
  }

  /** Destroying a group right after creating it restores everything but the active group of its
      workspace, which becomes the group created last there. */
  lemma DestroyAfterCreate(d: Desk, ws: Id, o: Orientation, r: real)
    requires Sound(d) && ws in d.workspaces
    ensures DestroyGroup(CreateGroup(d, ws, o, r), d.nextGroup)
      == WithActive(d, ws, LastIn(d.groups, d.groupOrder, ws)).(nextGroup := d.nextGroup + 1,
          nextSplit := d.nextSplit + 1)
  {
    var e, g := CreateGroup(d, ws, o, r), d.nextGroup;
    CreatedParts(d, ws, o, r);
    var x := d.workspaces[ws].(active := LastIn(d.groups, d.groupOrder, ws));
    DestroyActive(e, g, ws, d.groups, d.groupOrder, x);
    Overwritten(d.workspaces, ws, e.workspaces[ws], x);
  }

  /** Destroying a tiled group that is active on its workspace. */
  lemma DestroyActive(e: Desk, g: Id, ws: Id, rest: map<Id, Group>, order: seq<Id>, x: Workspace)
    requires g in e.groups && e.groups[g].workspace == ws && e.groups[g].hasTile && ws in e.workspaces
    requires e.workspaces[ws].active == Some(g) && e.groups - {g} == rest && Without(e.groupOrder, g) == order
    requires x == e.workspaces[ws].(layout := Departed(e.workspaces[ws].layout, g), active := LastIn(rest, order, ws))
    ensures DestroyGroup(e, g) == e.(groups := rest, groupOrder := order, workspaces := e.workspaces[ws := x],
      activeGroup := if e.activeGroup == Some(g) then x.active else e.activeGroup)
  {
  }

  /** The drop is refused exactly when `target` has no tile. */
  lemma ZoneRefused(d: Desk, w: Id, target: Id, o: Orientation, r: real)
    requires Inv(d, {}) && ZoneAllowed(d, w, target)
    ensures d.groups[target].workspace in d.workspaces
    ensures CanRelocate(CreateGroup(d, d.groups[target].workspace, o, r), d.nextGroup, target) <==> d.groups[target].hasTile
  {
    SoundGroup(d, target);
    CreatedGroup(d, d.groups[target].workspace, o, r);
  }

  /** A refused drop makes the group created last on the workspace its active one, and uses up two ids. */
  lemma RefusedDrop(d: Desk, w: Id, target: Id, dir: Direction, r: real)
    requires Inv(d, {}) && ZoneAllowed(d, w, target) && !d.groups[target].hasTile
    ensures var ws := d.groups[target].workspace;
      && ws in d.workspaces
      && MoveToLayoutZone(d, w, target, dir, r)
         == WithActive(d, ws, LastIn(d.groups, d.groupOrder, ws)).(nextGroup := d.nextGroup + 1,
             nextSplit := d.nextSplit + 1)
  {
    ZoneRefused(d, w, target, dir.Axis(), r);
    DestroyAfterCreate(d, d.groups[target].workspace, dir.Axis(), r);
  }

  /** A refused drop leaves the desk as it was, the ids used up aside, exactly when the active group of the
      workspace is the one created last there, and is the server's if the workspace has the focus. */
  lemma RefusedDropIsSilent(d: Desk, w: Id, target: Id, dir: Direction, r: real)
    requires Inv(d, {}) && ZoneAllowed(d, w, target) && !d.groups[target].hasTile
    ensures d.groups[target].workspace in d.workspaces
    ensures var ws := d.groups[target].workspace; var last := LastIn(d.groups, d.groupOrder, ws);
      MoveToLayoutZone(d, w, target, dir, r).(nextGroup := d.nextGroup, nextSplit := d.nextSplit) == d <==>
      d.workspaces[ws].active == last && (FocusedWorkspace(d) == Some(ws) ==> d.activeGroup == last)
  {
    var ws := d.groups[target].workspace;
    var last := LastIn(d.groups, d.groupOrder, ws);
    RefusedDrop(d, w, target, dir, r);
    SameActive(d, ws, last);
  }

  lemma SameActive(d: Desk, ws: Id, active: Option<Id>)
    requires ws in d.workspaces
    ensures WithActive(d, ws, active) == d <==>
      d.workspaces[ws].active == active && (FocusedWorkspace(d) == Some(ws) ==> d.activeGroup == active)
  {
    var e := WithActive(d, ws, active);
    if d.workspaces[ws].active == active {
      assert d.workspaces[ws].(active := active) == d.workspaces[ws];
      assert e.workspaces == d.workspaces;
    } else {
      assert e.workspaces[ws] != d.workspaces[ws];
    }
  }

  // ----- a drop that goes through

  /** Placing a leaf anywhere and then moving it beside `target` seats it beside `target` right away. */
  lemma SeatedDirectly(t: Tree<Id, Id>, anchor: Id, g: Id, target: Id, dir: Direction, k: Id, k': Id, r: real)
    requires Distinct(t) && anchor in LeafSet(t) && g !in LeafSet(t)
    ensures Relocate(Add(t, anchor, g, k, dir.Axis(), r), g, target, dir, k', r) == Graft(t, target, Beside(g, target, dir, k', r))
  {
    RemoveUndoesAdd(t, anchor, g, k, dir.Axis(), r);
  }

  /** The desk with the new, still empty group seated beside `target`. */
  ghost function ZoneReady(d: Desk, target: Id, dir: Direction, r: real): Desk
    requires target in d.groups
  {
    RelocateGroup(CreateGroup(d, d.groups[target].workspace, dir.Axis(), r), d.nextGroup, target, dir, r)
  }

  lemma ZoneReadyMeaning(d: Desk, target: Id, dir: Direction, r: real)
    requires Inv(d, {}) && target in d.groups && d.groups[target].hasTile
    ensures d.groups[target].workspace in d.workspaces && d.workspaces[d.groups[target].workspace].layout.tree.Some?
    ensures var ws, g, c := d.groups[target].workspace, d.nextGroup, ZoneReady(d, target, dir, r);
      var l := d.workspaces[ws].layout;
      && g !in d.groups && Inv(c, {} + {g}) && c.windows == d.windows && Lists(c.groups) == Lists(d.groups)[g := []]
      && Layouts(c.workspaces) == Layouts(d.workspaces)[ws :=
           Tiling(Some(Graft(l.tree.value, target, Beside(g, target, dir, d.nextSplit + 1, r))), l.tiles + [g])]
  {
    var ws, g := d.groups[target].workspace, d.nextGroup;
    SoundGroup(d, target);
    SoundWorkspace(d, ws);
    CreatedGroup(d, ws, dir.Axis(), r);
    RelocateGroupKeeps(CreateGroup(d, ws, dir.Axis(), r), g, target, dir, r, {} + {g});
    hide Inv, Sound, Graft;
    ZoneLayout(d, target, dir, r);
    ZoneReadyViews(d, ws, target, dir, r);
  }

  lemma ZoneReadyViews(d: Desk, ws: Id, target: Id, dir: Direction, r: real)
    requires ws in d.workspaces && target in d.groups && d.groups[target].workspace == ws && d.groups[target].hasTile
    requires target != d.nextGroup && CreateGroup(d, ws, dir.Axis(), r).workspaces[ws].layout.tree.Some?
    ensures var g, c := d.nextGroup, ZoneReady(d, target, dir, r);
      var m := CreateGroup(d, ws, dir.Axis(), r).workspaces[ws].layout;
      && c.windows == d.windows && Lists(c.groups) == Lists(d.groups)[g := []]
      && Layouts(c.workspaces) == Layouts(d.workspaces)[ws :=
           m.(tree := Some(Relocate(m.tree.value, g, target, dir, d.nextSplit + 1, r)))]
  {
    var e, g := CreateGroup(d, ws, dir.Axis(), r), d.nextGroup;
    GroupUpdate(d.groups, g, e.groups[g]);
    Overwritten(d.workspaces, ws, e.workspaces[ws], ZoneReady(d, target, dir, r).workspaces[ws]);
  }

  lemma ZoneLayout(d: Desk, target: Id, dir: Direction, r: real)
    requires Sound(d) && target in d.groups && d.groups[target].hasTile && d.groups[target].workspace in d.workspaces
    requires d.workspaces[d.groups[target].workspace].layout.tree.Some?
    ensures var ws, g := d.groups[target].workspace, d.nextGroup;
      var l, m := d.workspaces[ws].layout, CreateGroup(d, ws, dir.Axis(), r).workspaces[ws].layout;
      && m.tree.Some? && m.tiles == l.tiles + [g]
      && Relocate(m.tree.value, g, target, dir, d.nextSplit + 1, r)
         == Graft(l.tree.value, target, Beside(g, target, dir, d.nextSplit + 1, r))
  {
    var ws := d.groups[target].workspace;
    SoundGroup(d, target);
    SoundWorkspace(d, ws);
    FreshGroup(d, ws);
    AnchorInRegistry(d, ws);
    SeatedDirectly(d.workspaces[ws].layout.tree.value, Anchor(d, ws).value, d.nextGroup, target, dir, d.nextSplit,
                   d.nextSplit + 1, r);
  }

  /** A drop beside a tiled group seats a new group right beside it, as if it had never been elsewhere, and
      moves the window into it; its old group is destroyed when it was the last there. */
  lemma AcceptedDrop(d: Desk, w: Id, target: Id, dir: Direction, r: real)
    requires Inv(d, {}) && ZoneAllowed(d, w, target) && d.groups[target].hasTile
    ensures var c, source, g := ZoneReady(d, target, dir, r), d.windows[w].group.value, d.nextGroup;
      && source in c.groups && c.groups[source].windows == d.groups[source].windows && g in c.groups
      && ListsMoved(c, MoveToLayoutZone(d, w, target, dir, r), source, Without(d.groups[source].windows, w), g, [w])
  {
    var c, source, g := ZoneReady(d, target, dir, r), d.windows[w].group.value, d.nextGroup;
    ZoneReadyMeaning(d, target, dir, r);
    ZoneRefused(d, w, target, dir.Axis(), r);
    KeysOf(d, c);
    assert source in Lists(c.groups) && g in Lists(c.groups);
    MoveWindowLists(c, w, g);
  }

  /** Two floating groups on the shown workspace, the older of them active. */
  ghost const TwoFloating: Desk := Desk(
    map[1 := Window(Some(1), Some(1), Within(Floating), true, false),
        2 := Window(Some(2), Some(1), Within(Floating), true, false)],
    map[1 := Group(1, Floating, [1], 1, Some(1), false, None), 2 := Group(1, Floating, [2], 1, Some(2), false, None)],
    [1, 2], Some(1), map[1 := Workspace(Some(1), None, false, Some(1), Tiling(None, []))], [1],
    map[1 := Output(1, Some(1), [1])], [1], Some(1), 3, 3, 2, 0)

  /** There a refused drop moves the activity from the older group to the newer one. */
  lemma RefusedDropCanShow(dir: Direction, r: real)
    ensures Inv(TwoFloating, {}) && ZoneAllowed(TwoFloating, 1, 2)
    ensures TwoFloating.activeGroup == Some(1) && MoveToLayoutZone(TwoFloating, 1, 2, dir, r).activeGroup == Some(2)
  {
    var d := TwoFloating;
    TwoFloatingInv();
    RefusedDrop(d, 1, 2, dir, r);
    assert LastIn(d.groups, d.groupOrder, 1) == Some(2);
  }

  lemma TwoFloatingInv()
    ensures Inv(TwoFloating, {})
  {
    TwoFloatingGroups();
    TwoFloatingWindows();
    TwoFloatingOutputs();
  }

  lemma TwoFloatingGroups()
    ensures GroupsSound(TwoFloating)
  {
    var d := TwoFloating;
    assert Roles(d.windows) == d.windows;
    assert Registries(d.workspaces) == map[1 := []];
    forall g | g in d.groups
      ensures GroupSound(d.windows, map[1 := []], 3, g, d.groups[g])
    {
      assert d.groups[g] == Group(1, Floating, [g], 1, Some(g), false, None);
    }
  }

  lemma TwoFloatingWindows()
    ensures WindowsSound(TwoFloating) && WorkspacesSound(TwoFloating)
  {
    var d := TwoFloating;
    assert Lists(d.groups) == map[1 := [1], 2 := [2]];
    assert Seats(d.groups) == map[1 := Seat(1, false), 2 := Seat(1, false)];
  }

  lemma TwoFloatingOutputs()
    ensures Housed(TwoFloating) && PinsSound(TwoFloating)
  {
    var d := TwoFloating;
    assert Homes(d.workspaces).Keys == {1};
    assert Stances(d.groups) == map[1 := Stance(1, Floating, false, None), 2 := Stance(1, Floating, false, None)];
  }
}
