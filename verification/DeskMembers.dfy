/** Where single windows end up: new windows, windows that go, and windows that change their group, their
workspace or what they are part of. */
module DeskMembers {
  import opened Seqs
  import opened LayoutTree
  import opened DeskState
  import opened DeskSteps
  import opened DeskMoves
  import opened DeskWindows
  import opened DeskOutputs
  import opened DeskSwitch
  import opened DeskOps
  import opened DeskPlacement
  import opened DeskHandover
  import opened DeskSeats

  // ----- transients

  /** Main result.  A mapped transient on a shown workspace takes the focus to that workspace, and nothing
      else changes; any other transient is refused without effect. */
  lemma FocusTransientMeaning(d: Desk, w: Id, ws: Id)
    requires Inv(d, {}) && w in d.windows && d.windows[w].group.None? && d.windows[w].standing.Transient?
    requires d.windows[w].workspace == Some(ws)
    ensures var e := FocusAny(d, w);
      if d.windows[w].mapped && Visible(d, ws) then
        FocusedWorkspace(e) == Some(ws) && e == d.(focusedOutput := e.focusedOutput)
      else e == d
  {
  }

  /** Main result.  Unmapping a transient gives the focus to its parent, if that can take it. */
  lemma UnmapTransientMeaning(d: Desk, w: Id, parent: Id)
    requires Inv(d, {}) && w in d.windows && d.windows[w].group.None? && d.windows[w].standing.Transient? && w != parent
    requires parent in d.windows && d.windows[parent].group.Some? && d.windows[parent].mapped
    ensures var e, g := UnmapWindow(d, w, Some(parent)), d.windows[parent].group.value;
      && w in e.windows && !e.windows[w].mapped && g in d.groups
      && (Visible(d, d.groups[g].workspace) ==> HasFocus(e, parent))
      && (!Visible(d, d.groups[g].workspace) ==> e == d.(windows := d.windows[w := d.windows[w].(mapped := false)]))
  {
    hide Sound, FocusWindow;
    UnmapLoose(d, w, {});
    SoundWindow(d, parent);
    FocusMeaning(SetMapped(d, w, false), parent);
    FocusRefocuses(SetMapped(d, w, false), parent);
    RefocusedGroups(SetMapped(d, w, false), FocusWindow(SetMapped(d, w, false), parent));
  }

  /** Main result.  A window moves to another group of its workspace, at the end of the list; anything else
      is refused without effect. */
  lemma MoveWindowIdMeaning(d: Desk, w: Id, target: Id)
    requires Inv(d, {}) && w in d.windows && d.windows[w].group.Some? && target in d.groups
    ensures var e, source := MoveWindowId(d, w, target), d.windows[w].group.value;
      && source in d.groups
      && if source != target && d.groups[source].workspace == d.groups[target].workspace then
           ListsMoved(d, e, source, Without(d.groups[source].windows, w), target, [w])
         else e == d
  {
    SoundWindow(d, w);
    if CanMoveWindow(d, w, target) {
      MoveWindowLists(d, w, target);
    }
  }

  // ----- new groups and new windows

  /** `e` is `d` with the new, empty and tiled group `d.nextGroup` on `ws`, which is active there, and the
      server's active one if the workspace has the focus. */
  ghost predicate GroupAdded(d: Desk, e: Desk, ws: Id, f: Frame)
    requires ws in d.workspaces
  {
    var g := d.nextGroup;
    && g !in d.groups && Lists(e.groups) == Lists(d.groups)[g := []]
    && Stances(e.groups) == Stances(d.groups)[g := Stance(ws, Tiled, true, None)]
    && e.groupOrder == d.groupOrder + [g] && e.windows == d.windows && SameOutputs(d, e)
    && ws in e.workspaces && Layouts(e.workspaces) == Layouts(d.workspaces)[ws := e.workspaces[ws].layout]
    && Joins(d.workspaces[ws].layout, e.workspaces[ws].layout, g, d.workspaces[ws].active, d.nextSplit, f)
    && e.workspaces[ws].active == Some(g)
    && e.activeGroup == if FocusedWorkspace(d) == Some(ws) then Some(g) else d.activeGroup
  }

  lemma CreateMeaning(d: Desk, ws: Id, o: Orientation, r: real)
    requires Sound(d) && ws in d.workspaces
    ensures GroupAdded(d, CreateGroup(d, ws, o, r), ws, Frame(o, r))
    ensures CreateGroup(d, ws, o, r).nextGroup == d.nextGroup + 1
  {
    hide Joins;
    var e, g := CreateGroup(d, ws, o, r), d.nextGroup;
    FreshGroup(d, ws);
    EnteredJoins(d, ws, g, o, r);
    GroupUpdate(d.groups, g, e.groups[g]);
    StanceUpdate(d.groups, g, e.groups[g]);
    SameHomes(d.workspaces, ws, e.workspaces[ws]);
    LayoutUpdate(d.workspaces, ws, e.workspaces[ws]);
  }

  /** Main result.  A new window is unmapped and stands at the end of the active group of the workspace
      shown on the focused output, or alone in a new group there. */
  lemma CreateWindowMeaning(d: Desk, r: real, ws: Id)
    requires Inv(d, {}) && FocusedWorkspace(d) == Some(ws)
    ensures var e, w := CreateWindow(d, r), d.nextWindow;
      && ws in d.workspaces && w !in d.windows && e.windows.Keys == d.windows.Keys + {w}
      && !e.windows[w].mapped && e.windows[w].group.Some? && var g := e.windows[w].group.value;
      && (forall v :: v in d.windows ==> e.windows[v] == d.windows[v])
      && g == (if d.workspaces[ws].active.Some? then d.workspaces[ws].active.value else d.nextGroup)
      && (g in d.groups <==> d.workspaces[ws].active.Some?)
      && (g in d.groups ==> Lists(e.groups) == Lists(d.groups)[g := d.groups[g].windows + [w]]
                            && Stances(e.groups) == Stances(d.groups) && e.workspaces == d.workspaces)
      && (g !in d.groups ==> Lists(e.groups) == Lists(d.groups)[g := [w]]
                             && Stances(e.groups) == Stances(d.groups)[g := Stance(ws, Tiled, true, None)])
  {
    hide Sound, AddWindow, CreateGroup;
    NewWindowKeeps(d, {});
    FocusedIsLive(d, ws);
    SoundWorkspace(d, ws);
    FreshGroup(d, ws);
    if d.workspaces[ws].active.Some? {
      AddedLists(NewWindow(d), d.workspaces[ws].active.value, d.nextWindow);
    } else {
      AddedAlone(NewWindow(d), ws, d.nextWindow, r);
    }
  }

  /** A window without a group alone in a new one. */
  lemma AddedAlone(d: Desk, ws: Id, w: Id, r: real)
    requires Sound(d) && ws in d.workspaces && w in d.windows
    ensures var e, g := AddWindow(CreateGroup(d, ws, Horizontal, r), d.nextGroup, w), d.nextGroup;
      && g !in d.groups && Lists(e.groups) == Lists(d.groups)[g := [w]]
      && Stances(e.groups) == Stances(d.groups)[g := Stance(ws, Tiled, true, None)]
      && e.windows.Keys == d.windows.Keys && e.windows[w].group == Some(g) && e.windows[w].mapped == d.windows[w].mapped
      && forall v :: v in d.windows && v != w ==> e.windows[v] == d.windows[v]
  {
    hide Sound, Joins, AddWindow;
    var c, g := CreateGroup(d, ws, Horizontal, r), d.nextGroup;
    CreateMeaning(d, ws, Horizontal, r);
    assert c.groups[g].windows == [] && [] + [w] == [w];
    hide CreateGroup;
    KeysOf(d, c);
    AddedLists(c, g, w);
    Overwritten(Lists(d.groups), g, [], [w]);
  }

  lemma FocusedIsLive(d: Desk, ws: Id)
    requires Inv(d, {}) && FocusedWorkspace(d) == Some(ws)
    ensures ws in d.workspaces
  {
    var o := d.focusedOutput.value;
    assert OutputHoused(Homes(d.workspaces), o, d.outputs[o]);
  }

  lemma AddedLists(d: Desk, g: Id, w: Id)
    requires g in d.groups && w in d.windows
    ensures var e := AddWindow(d, g, w);
      && Lists(e.groups) == Lists(d.groups)[g := d.groups[g].windows + [w]] && Stances(e.groups) == Stances(d.groups)
      && e.workspaces == d.workspaces && e.windows.Keys == d.windows.Keys && e.windows[w].group == Some(g)
      && e.windows[w].mapped == d.windows[w].mapped
      && forall v :: v in d.windows && v != w ==> e.windows[v] == d.windows[v]
  {
    GroupUpdate(d.groups, g, AddWindow(d, g, w).groups[g]);
    StanceUpdate(d.groups, g, AddWindow(d, g, w).groups[g]);
    assert Stances(d.groups)[g := StanceOf(d.groups[g])] == Stances(d.groups);
  }

  /** Main result.  Mapping a member of a group gives it the focus if its workspace is shown, and changes
      nothing else about the groups. */
  lemma MapMeaning(d: Desk, w: Id)
    requires Sound(d) && w in d.windows && d.windows[w].group.Some?
    ensures var e, g := MapWindow(d, w), d.windows[w].group.value;
      && w in e.windows && e.windows[w].mapped && g in d.groups
      && (Visible(d, d.groups[g].workspace) ==>
            e.activeGroup == Some(g) && e.groups == d.groups[g := d.groups[g].(active := Some(w))])
      && (!Visible(d, d.groups[g].workspace) ==> e == d.(windows := d.windows[w := d.windows[w].(mapped := true)]))
  {
    SoundWindow(d, w);
    SoundGroup(d, d.windows[w].group.value);
  }

  /** Main result.  A window that is destroyed is gone and no other window changes; it leaves the list it was
      in, and the group is gone, also from the layout, exactly when nothing is left there. */
  lemma DestroyMeaning(d: Desk, w: Id, g: Id)
    requires Inv(d, {}) && w in d.windows && d.windows[w].group == Some(g)
    ensures var e := DestroyWindow(d, w);
      && g in d.groups && e.windows == d.windows - {w}
      && var rest, ws := Without(d.groups[g].windows, w), d.groups[g].workspace;
      && (rest != [] ==> Lists(e.groups) == Lists(d.groups)[g := rest] && Stances(e.groups) == Stances(d.groups)
                         && e.workspaces == d.workspaces)
      && (rest == [] ==> Lists(e.groups) == Lists(d.groups) - {g} && Stances(e.groups) == Stances(d.groups) - {g}
                         && ws in d.workspaces && ws in e.workspaces
                         && Layouts(e.workspaces) == Layouts(d.workspaces)[ws := e.workspaces[ws].layout]
                         && (d.groups[g].placement.Tiled? ==>
                               Quits(d.workspaces[ws].layout, e.workspaces[ws].layout, g)))
  {
    hide Sound, Quits, DestroyGroup;
    SoundWindow(d, w);
    SoundGroup(d, g);
    LastLeaves(d.groups[g].windows, w);
    LeaveLists(d, w, g);
    var l := Leave(d, w);
    assert d.windows[w := d.windows[w].(group := None)] - {w} == d.windows - {w};
    if Without(d.groups[g].windows, w) == [] {
      DestroyedGroup(l, g);
      assert Lists(d.groups)[g := []] - {g} == Lists(d.groups) - {g};
    }
  }

  lemma LeaveLists(d: Desk, w: Id, g: Id)
    requires Sound(d) && w in d.windows && d.windows[w].group == Some(g) && g in d.groups
    ensures var e := Leave(d, w);
      && Lists(e.groups) == Lists(d.groups)[g := Without(d.groups[g].windows, w)]
      && Stances(e.groups) == Stances(d.groups)
      && e.workspaces == d.workspaces && e.windows == d.windows[w := d.windows[w].(group := None)]
      && Sound(e) && e.groups[g].windowCount == |d.groups[g].windows| - 1
      && e.groups[g].workspace == d.groups[g].workspace && e.groups[g].placement == d.groups[g].placement
  {
    hide Sound;
    LeaveSound(d, w);
    SoundGroup(d, g);
    GroupUpdate(d.groups, g, Leave(d, w).groups[g]);
    StanceUpdate(d.groups, g, Leave(d, w).groups[g]);
    assert Stances(d.groups)[g := StanceOf(d.groups[g])] == Stances(d.groups);
  }

  lemma DestroyedGroup(d: Desk, g: Id)
    requires Sound(d) && g in d.groups
    ensures var e, ws := DestroyGroup(d, g), d.groups[g].workspace;
      && e.windows == d.windows && Lists(e.groups) == Lists(d.groups) - {g}
      && Stances(e.groups) == Stances(d.groups) - {g}
      && ws in d.workspaces && ws in e.workspaces
      && Layouts(e.workspaces) == Layouts(d.workspaces)[ws := e.workspaces[ws].layout]
      && (d.groups[g].placement.Tiled? ==> Quits(d.workspaces[ws].layout, e.workspaces[ws].layout, g))
  {
    hide Quits, Sound;
    SoundGroup(d, g);
    SoundWorkspace(d, d.groups[g].workspace);
    DestroyLists(d, g);
    LayoutUpdate(d.workspaces, d.groups[g].workspace, DestroyGroup(d, g).workspaces[d.groups[g].workspace]);
    if d.groups[g].placement.Tiled? {
      DepartedQuits(d.workspaces[d.groups[g].workspace].layout, g, d.nextSplit);
    }
  }

  // ----- to a new group

  /** `w` alone is in the new tiled group `d.nextGroup` on `ws`, created in the layout as `c` shows; its old
      group keeps the others, or is gone when there were none; nothing else about lists, seats and layouts
      changed. */
  ghost predicate Alone(d: Desk, c: Desk, e: Desk, w: Id, ws: Id)
    requires w in d.windows && d.windows[w].group.Some? && d.windows[w].group.value in d.groups
  {
    var source, g := d.windows[w].group.value, d.nextGroup;
    var rest := Without(d.groups[source].windows, w);
    var gone := if rest == [] then {source} else {};
    && g !in d.groups && Lists(e.groups) == Lists(d.groups)[source := rest][g := [w]] - gone
    && Stances(e.groups) == Stances(d.groups)[g := Stance(ws, Tiled, true, None)] - gone
    && w in e.windows && e.windows[w].group == Some(g)
    && source in c.groups && Layouts(e.workspaces) == LayoutsAfter(c, source, rest == [])
    && (d.windows[w].mapped && Visible(d, ws) ==> HasFocus(e, w))
  }

  lemma IsolatedMeaning(d: Desk, w: Id, ws: Id, o: Orientation, r: real)
    requires Inv(d, {}) && ws in d.workspaces && w in d.windows && d.windows[w].group.Some?
    ensures d.windows[w].group.value in d.groups
    ensures GroupAdded(d, CreateGroup(d, ws, o, r), ws, Frame(o, r))
    ensures Alone(d, CreateGroup(d, ws, o, r), Isolated(d, w, ws, o, r), w, ws)
  {
    hide Sound, Joins;
    var c, source, g := CreateGroup(d, ws, o, r), d.windows[w].group.value, d.nextGroup;
    SoundWindow(d, w);
    CreateMeaning(d, ws, o, r);
    CreateGroupSound(d, ws, o, r);
    KeysOf(d, c);
    MoveWindowLists(c, w, g);
    IsolatedFocus(c, w, g);
    IsolatedLists(d, c, MoveWindow(c, w, g), w, source, ws, Frame(o, r));
  }

  lemma IsolatedFocus(c: Desk, w: Id, g: Id)
    requires Sound(c) && CanMoveWindow(c, w, g) && c.groups[g].windows == []
    ensures var e := MoveWindow(c, w, g);
      c.windows[w].mapped && Visible(c, c.groups[g].workspace) ==> HasFocus(e, w)
  {
    hide IsLast, Sound;
    MoveHandsOver(c, w, g, g);
    MoveWindowLists(c, w, g);
  }

  lemma IsolatedLists(d: Desk, c: Desk, e: Desk, w: Id, source: Id, ws: Id, f: Frame)
    requires w in d.windows && d.windows[w].group == Some(source) && source in d.groups && ws in d.workspaces
    requires GroupAdded(d, c, ws, f) && source in c.groups && d.nextGroup in c.groups
    requires c.groups[d.nextGroup].windows == []
    requires ListsMoved(c, e, source, Without(d.groups[source].windows, w), d.nextGroup, [w])
    requires d.windows[w].mapped && Visible(d, ws) ==> HasFocus(e, w)
    ensures Alone(d, c, e, w, ws)
  {
    var g, rest := d.nextGroup, Without(d.groups[source].windows, w);
    assert [] + [w] == [w];
    assert Lists(d.groups)[g := []][source := rest][g := [w]] == Lists(d.groups)[source := rest][g := [w]];
  }

  /** Main result.  A window sent to a workspace that is on an output joins the active group there at the
      end, or, when there is none, is alone in a new group; otherwise nothing happens. */
  lemma WindowToWorkspaceMeaning(d: Desk, w: Id, ws: Id, r: real)
    requires Inv(d, {}) && w in d.windows && d.windows[w].group.Some?
    ensures d.windows[w].group.value in d.groups
    ensures var e, source := MoveWindowToWorkspace(d, w, ws, r), d.windows[w].group.value;
      if OutputOf(d, ws).Some? && d.groups[source].workspace != ws then
        && ws in d.workspaces
        && match d.workspaces[ws].active
           case Some(h) =>
             && h in d.groups && d.groups[h].workspace == ws
             && ListsMoved(d, e, source, Without(d.groups[source].windows, w), h, [w])
           case None => Alone(d, CreateGroup(d, ws, Horizontal, r), e, w, ws)
      else e == d
  {
    SoundWindow(d, w);
    if OutputOf(d, ws).Some? && d.groups[d.windows[w].group.value].workspace != ws {
      SoundWorkspace(d, ws);
      if d.workspaces[ws].active.Some? {
        MoveWindowLists(d, w, d.workspaces[ws].active.value);
      } else {
        IsolatedMeaning(d, w, ws, Horizontal, r);
      }
    }
  }

  /** Main result.  Splitting off the active window of a group of several puts it alone into a new tiled
      group on the workspace that has the focus. */
  lemma SplitActiveMeaning(d: Desk, g: Id, w: Id, o: Orientation, r: real)
    requires Inv(d, {}) && d.activeGroup == Some(g) && g in d.groups && d.groups[g].active == Some(w)
    requires FocusedWorkspace(d).Some?
    ensures w in d.windows && d.windows[w].group == Some(g)
    ensures var e := SplitActive(d, o, r);
      var ws := FocusedWorkspace(d).value;
      if |d.groups[g].windows| >= 2 then Alone(d, CreateGroup(d, ws, o, r), e, w, ws) else e == d
  {
    SoundGroup(d, g);
    FocusedIsLive(d, FocusedWorkspace(d).value);
    IsolatedMeaning(d, w, FocusedWorkspace(d).value, o, r);
  }

  /** Showing the window's workspace and focusing the window gives its workspace the focus. */
  lemma FocusShowsWorkspace(d: Desk, w: Id)
    requires Inv(d, {}) && FocusableById(d, w)
    ensures FocusedWorkspace(FocusWindowId(d, w)) == Some(d.groups[d.windows[w].group.value].workspace)
  {
    hide Sound, SwitchWorkspace;
    var ws := d.groups[d.windows[w].group.value].workspace;
    var o, a := OutputOf(d, ws).value, Activate(d, ws);
    SoundGroup(d, d.windows[w].group.value);
    OutputShows(d, ws);
    ActivateEffects(d, o, ws, d.windows[w].group.value);
    ActivateKeeps(d, ws, {});
    FocusMeaning(a, w);
    FocusRefocuses(a, w);
  }

  /** Main result.  Splitting a mapped window off a tiled group of several focuses the window and puts it alone
      into a new tiled group on its workspace; what is split is what was there before the focus. */
  lemma SplitWindowMeaning(d: Desk, w: Id, g: Id, o: Orientation, r: real)
    requires Inv(d, {}) && w in d.windows && d.windows[w].group == Some(g)
    ensures g in d.groups
    ensures var e, f := SplitWindow(d, w, o, r), FocusWindowId(d, w);
      if && d.windows[w].mapped && d.groups[g].placement.Tiled? && |d.groups[g].windows| >= 2
         && OutputOf(d, d.groups[g].workspace).Some?
      then
        && Lists(f.groups) == Lists(d.groups) && w in f.windows && f.windows[w].group == Some(g) && g in f.groups
        && Alone(f, CreateGroup(f, d.groups[g].workspace, o, r), e, w, d.groups[g].workspace)
      else e == d
  {
    hide Sound, SplitActive, Alone, FocusWindowId;
    SoundWindow(d, w);
    SoundGroup(d, g);
    if CanSplit(d, w) {
      if FocusableById(d, w) {
        var f := FocusWindowId(d, w);
        FocusWindowIdEffects(d, w);
        FocusShowsWorkspace(d, w);
        KeysOf(d, f);
        SplitActiveMeaning(f, g, w, o, r);
      } else {
        NotFocused(d, w);
      }
    }
  }

  lemma NotFocused(d: Desk, w: Id)
    requires !FocusableById(d, w)
    ensures FocusWindowId(d, w) == d
  {
  }

  /** Main result.  Focusing a group by id gives the focus to its active window on the shown workspace, or does
      nothing when it has none or is on no output. */
  lemma FocusGroupMeaning(d: Desk, g: Id)
    requires Inv(d, {}) && g in d.groups
    ensures var e, ws := FocusGroupId(d, g), d.groups[g].workspace;
      if d.groups[g].active.Some? && OutputOf(d, ws).Some? then
        HasFocus(e, d.groups[g].active.value) && e.activeGroup == Some(g) && FocusedWorkspace(e) == Some(ws)
      else e == d
  {
    hide Sound, FocusWindowId, FocusedWorkspace;
    SoundGroup(d, g);
    if d.groups[g].active.Some? && OutputOf(d, d.groups[g].workspace).Some? {
      FocusWindowIdEffects(d, d.groups[g].active.value);
      FocusShowsWorkspace(d, d.groups[g].active.value);
    }
  }

  // ----- what a window is part of

  /** Main result.  A window that becomes a transient of another one is in no group, stands on the
      other's workspace, and has left the group it was in, which is gone if the window was alone there. */
  lemma MakeTransientMeaning(d: Desk, w: Id, parent: Id)
    requires Inv(d, {}) && w in d.windows && parent in d.windows
    ensures var e := MakeTransient(d, w, parent);
      if w != parent && d.windows[parent].workspace.Some? then
        && w in e.windows && e.windows[w].group.None? && e.windows[w].standing == Transient
        && e.windows[w].workspace == d.windows[parent].workspace && Lists(e.groups) == Lists(RemoveWindow(d, w).groups)
        && (d.windows[w].mapped && Visible(d, d.windows[parent].workspace.value) ==>
              FocusedWorkspace(e) == d.windows[parent].workspace)
      else e == d
  {
    if w != parent && d.windows[parent].workspace.Some? {
      var ws := d.windows[parent].workspace;
      RemoveWindowKeeps(d, w);
      RemovedView(d, w, ws.value);
      var e := Stand(RemoveWindow(d, w), w, ws, Transient);
      hide RemoveWindow;
      StandKeeps(RemoveWindow(d, w), w, ws, Transient);
      hide Inv, FocusAny;
      FocusTransientMeaning(e, w, ws.value);
    }
  }

  lemma RemovedView(d: Desk, w: Id, ws: Id)
    requires Sound(d) && w in d.windows
    ensures var e := RemoveWindow(d, w);
      && (Visible(e, ws) <==> Visible(d, ws)) && w in e.windows && e.windows[w].mapped == d.windows[w].mapped
  {
    if d.windows[w].group.Some? {
      SoundWindow(d, w);
      SoundGroup(d, d.windows[w].group.value);
    }
    hide Sound;
  }

  /** Main result.  A member that becomes tiled stands in a tiled group afterwards: one alone in a floating
      group is tiled with it, and one of several gets a new group on the same workspace. */
  lemma MakeTiledMeaning(d: Desk, w: Id, r: real)
    requires Inv(d, {}) && w in d.windows && d.windows[w].group.Some?
    ensures d.windows[w].group.value in d.groups
    ensures var e, g := MakeTiled(d, w, r), d.windows[w].group.value;
      if d.groups[g].placement.Tiled? || d.windows[w].fullscreen then e == d
      else if d.groups[g].windows == [w] then Reseated(d, e, g, Stance(d.groups[g].workspace, Tiled, true, None))
      else Alone(d, CreateGroup(d, d.groups[g].workspace, Horizontal, r), e, w, d.groups[g].workspace)
  {
    hide Sound, Reseated, Alone, TileGroup, Isolated;
    SoundWindow(d, w);
    var g := d.windows[w].group.value;
    SoundGroup(d, g);
    LastLeaves(d.groups[g].windows, w);
    if d.groups[g].windows == [w] {
      AloneCovers(d, g, w);
    }
    TileMeaning(d, g, r);
    IsolatedMeaning(d, w, d.groups[g].workspace, Horizontal, r);
  }

  /** Where a window without a group stands: on its workspace, else on the one that has the focus. */
  ghost function HomeFor(d: Desk, w: Id): Option<Id>
    requires w in d.windows
  {
    if d.windows[w].workspace.Some? then d.windows[w].workspace else FocusedWorkspace(d)
  }

  /** Main result.  A window without a group that becomes tiled joins the active group of its workspace at
      the end, if that is tiled, or is alone in a new group there. */
  lemma LooseBecomesTiled(d: Desk, w: Id, r: real, ws: Id)
    requires Inv(d, {}) && w in d.windows && d.windows[w].group.None? && HomeFor(d, w) == Some(ws) && ws in d.workspaces
    ensures var e, active := MakeTiled(d, w, r), d.workspaces[ws].active;
      if active.Some? && active.value in d.groups && d.groups[active.value].placement.Tiled? then
        && Lists(e.groups) == Lists(d.groups)[active.value := d.groups[active.value].windows + [w]]
        && Stances(e.groups) == Stances(d.groups)
      else
        && d.nextGroup !in d.groups && Lists(e.groups) == Lists(d.groups)[d.nextGroup := [w]]
        && Stances(e.groups) == Stances(d.groups)[d.nextGroup := Stance(ws, Tiled, true, None)]
  {
    hide Sound, AddWindow, CreateGroup, FocusWindow;
    var active, j := d.workspaces[ws].active, JoinTiled(d, w, ws, r);
    if active.Some? && active.value in d.groups && d.groups[active.value].placement.Tiled? {
      AddedLists(d, active.value, w);
    } else {
      AddedAlone(d, ws, w, r);
    }
    FocusRefocuses(j, w);
  }

  /** Mapped and on a shown workspace, it takes the focus there. */
  lemma LooseTakesFocus(d: Desk, w: Id, r: real, ws: Id)
    requires Inv(d, {}) && w in d.windows && d.windows[w].group.None? && HomeFor(d, w) == Some(ws) && ws in d.workspaces
    requires d.windows[w].mapped && Visible(d, ws)
    ensures HasFocus(MakeTiled(d, w, r), w)
  {
    hide Inv, Sound;
    var j := JoinTiled(d, w, ws, r);
    JoinTiledKeeps(d, w, ws, r);
    JoinedThere(d, w, ws, r);
    hide JoinTiled, Visible;
    FocusesThere(j, w);
    FocusRefocuses(j, w);
    RefocusedGroups(j, FocusWindow(j, w));
  }

  lemma FocusesThere(d: Desk, w: Id)
    requires Inv(d, {}) && w in d.windows && d.windows[w].mapped && d.windows[w].group.Some?
    requires d.windows[w].group.value in d.groups && Visible(d, d.groups[d.windows[w].group.value].workspace)
    ensures HasFocus(FocusWindow(d, w), w)
  {
  }

  lemma JoinedThere(d: Desk, w: Id, ws: Id, r: real)
    requires Inv(d, {}) && w in d.windows && ws in d.workspaces
    ensures var j := JoinTiled(d, w, ws, r);
      && w in j.windows && j.windows[w].mapped == d.windows[w].mapped && j.windows[w].group.Some?
      && j.windows[w].group.value in j.groups && j.groups[j.windows[w].group.value].workspace == ws
      && (Visible(j, ws) <==> Visible(d, ws))
  {
    SoundWorkspace(d, ws);
    hide Sound, Entered;
  }

  lemma AloneCovers(d: Desk, g: Id, w: Id)
    requires Sound(d) && g in d.groups && w in d.windows && d.groups[g].windows == [w]
    ensures CoversScreen(d, g) ==> d.windows[w].fullscreen
  {
    SoundGroup(d, g);
  }

  /** Main result.  A window that becomes floating stands alone in a floating group on the same workspace
      afterwards; without room to float there it still gets a group of its own, which stays tiled. */
  lemma MakeFloatingMeaning(d: Desk, w: Id, room: bool, r: real)
    requires Inv(d, {}) && w in d.windows && d.windows[w].group.Some?
    ensures d.windows[w].group.value in d.groups
    ensures var e, g := MakeFloating(d, w, room, r), d.windows[w].group.value;
      var ws := d.groups[g].workspace;
      if d.groups[g].placement.Floating? || d.windows[w].fullscreen || (!room && d.groups[g].windows == [w]) then e == d
      else if d.groups[g].windows == [w] then Reseated(d, e, g, Stance(ws, Floating, false, None))
      else if !room then Alone(d, CreateGroup(d, ws, Horizontal, r), e, w, ws)
      else d.nextGroup in e.groups && e.groups[d.nextGroup].windows == [w]
           && StanceOf(e.groups[d.nextGroup]) == Stance(ws, Floating, false, None)
  {
    hide Sound, Reseated, Isolated, CreateGroup, Alone;
    SoundWindow(d, w);
    var g := d.windows[w].group.value;
    SoundGroup(d, g);
    LastLeaves(d.groups[g].windows, w);
    if d.groups[g].placement.Tiled? && !d.windows[w].fullscreen {
      if d.groups[g].windows == [w] {
        AloneCovers(d, g, w);
        FloatMeaning(d, g, room);
      } else if room {
        FloatsAlone(d, w, d.groups[g].workspace, r);
      } else {
        IsolatedMeaning(d, w, d.groups[g].workspace, Horizontal, r);
      }
    }
  }

  lemma FloatsAlone(d: Desk, w: Id, ws: Id, r: real)
    requires Inv(d, {}) && w in d.windows && d.windows[w].group.Some? && d.windows[w].group.value in d.groups
    requires ws in d.workspaces && !d.windows[w].fullscreen
    requires Without(d.groups[d.windows[w].group.value].windows, w) != []
    ensures var e, g := FloatGroup(Isolated(d, w, ws, Horizontal, r), d.nextGroup, true), d.nextGroup;
      g in e.groups && e.groups[g].windows == [w] && StanceOf(e.groups[g]) == Stance(ws, Floating, false, None)
  {
    hide Sound, FloatGroup;
    var c, g := Isolated(d, w, ws, Horizontal, r), d.nextGroup;
    var e := FloatGroup(c, g, true);
    IsolatedKeeps(d, w, ws, Horizontal, r);
    IsolatedMeaning(d, w, ws, Horizontal, r);
    IsolatedCovers(d, w, ws, r);
    hide Isolated;
    KeysOf(c, e);
    AloneCovers(c, g, w);
    FloatMeaning(c, g, true);
  }

  /** Moving into a new group makes no window fullscreen. */
  lemma IsolatedCovers(d: Desk, w: Id, ws: Id, r: real)
    requires Sound(d) && w in d.windows && ws in d.workspaces && !d.windows[w].fullscreen
    ensures var e := Isolated(d, w, ws, Horizontal, r);
      w in e.windows ==> !e.windows[w].fullscreen
  {
    hide Sound;
  }
}
