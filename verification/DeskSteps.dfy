/** The steps that the operations on groups and windows are made of; each keeps the state sound. */
module DeskSteps {
  import opened Seqs
  import opened LayoutTree
  import opened DeskState

  // ----- what an update changes for the others

  lemma GroupUpdate(groups: map<Id, Group>, g: Id, x: Group)
    ensures Seats(groups[g := x]) == Seats(groups)[g := Seat(x.workspace, x.hasTile)]
    ensures Lists(groups[g := x]) == Lists(groups)[g := x.windows]
  {
  }

  lemma GroupDrop(groups: map<Id, Group>, g: Id)
    ensures Seats(groups - {g}) == Seats(groups) - {g} && Lists(groups - {g}) == Lists(groups) - {g}
  {
  }

  lemma WindowUpdate(windows: map<Id, Window>, w: Id, x: Window)
    ensures Roles(windows[w := x]) == Roles(windows)[w := x.(fullscreen := false)]
  {
  }

  lemma WorkspaceUpdate(workspaces: map<Id, Workspace>, ws: Id, x: Workspace)
    ensures Registries(workspaces[ws := x]) == Registries(workspaces)[ws := x.layout.tiles]
  {
  }

  // ----- activation and focus

  ghost function SetActive(d: Desk, g: Id, active: Option<Id>): Desk {
    if g in d.groups then WithGroup(d, g, d.groups[g].(active := active)) else d
  }

  /** Changing which window is active in one group changes nothing the others depend on. */
  lemma ActiveOnly(groups: map<Id, Group>, g: Id, active: Option<Id>)
    requires g in groups
    ensures var e := groups[g := groups[g].(active := active)];
      Seats(e) == Seats(groups) && Lists(e) == Lists(groups) && e.Keys == groups.Keys
  {
  }

  /** The window that stops being fullscreen when window `w` on workspace `ws` gets the focus. */
  ghost function Unfullscreened(d: Desk, w: Id, ws: Id): map<Id, Window> {
    if d.activeGroup.Some? && d.activeGroup.value in d.groups && d.groups[d.activeGroup.value].active.Some? then
      var p := d.groups[d.activeGroup.value].active.value;
      if && p != w && p in d.windows && d.windows[p].fullscreen && d.windows[p].group.Some?
         && d.windows[p].group.value in d.groups && d.groups[d.windows[p].group.value].workspace == ws
      then d.windows[p := d.windows[p].(fullscreen := false)]
      else d.windows
    else d.windows
  }

  /** Only a mapped window of a group on a visible workspace takes the focus. */
  ghost predicate Focusable(d: Desk, w: Id) {
    && w in d.windows && d.windows[w].mapped && d.windows[w].group.Some? && d.windows[w].group.value in d.groups
    && Visible(d, d.groups[d.windows[w].group.value].workspace)
  }

  ghost function FocusWindow(d: Desk, w: Id): Desk {
    if !Focusable(d, w) then d
    else
      var g := d.windows[w].group.value;
      var ws := d.groups[g].workspace;
      d.(windows := Unfullscreened(d, w, ws),
         groups := d.groups[g := d.groups[g].(active := Some(w))], activeGroup := Some(g),
         workspaces := d.workspaces[ws := d.workspaces[ws].(active := Some(g))],
         focusedOutput := d.workspaces[ws].output)
  }

  lemma UnfullscreenedRoles(d: Desk, w: Id, ws: Id)
    ensures Roles(Unfullscreened(d, w, ws)) == Roles(d.windows)
    ensures forall x :: x in d.windows ==> Unfullscreened(d, w, ws)[x].group == d.windows[x].group
  {
  }

  lemma WorkspaceActiveOnly(d: Desk, ws: Id, active: Option<Id>)
    requires ws in d.workspaces
    ensures Registries(d.workspaces[ws := d.workspaces[ws].(active := active)]) == Registries(d.workspaces)
  {
  }

  lemma FocusWindowSound(d: Desk, w: Id)
    requires Sound(d)
    ensures Sound(FocusWindow(d, w))
  {
    if Focusable(d, w) {
      FocusGroups(d, w);
      FocusWindows(d, w);
      FocusWorkspaces(d, w);
    }
  }

  lemma FocusGroups(d: Desk, w: Id)
    requires Sound(d) && Focusable(d, w)
    ensures GroupsSound(FocusWindow(d, w))
  {
    var g := d.windows[w].group.value;
    var ws := d.groups[g].workspace;
    SoundWindow(d, w);
    UnfullscreenedRoles(d, w, ws);
    WorkspaceActiveOnly(d, ws, Some(g));
    forall h | h in d.groups
      ensures GroupSound(Roles(d.windows), Registries(d.workspaces), d.nextGroup, h, FocusWindow(d, w).groups[h])
    {
      assert GroupSound(Roles(d.windows), Registries(d.workspaces), d.nextGroup, h, d.groups[h]);
    }
  }

  lemma FocusWindows(d: Desk, w: Id)
    requires Sound(d) && Focusable(d, w)
    ensures WindowsSound(FocusWindow(d, w))
  {
    var g := d.windows[w].group.value;
    ActiveOnly(d.groups, g, Some(w));
    UnfullscreenedRoles(d, w, d.groups[g].workspace);
    forall v | v in d.windows
      ensures WindowSound(Lists(d.groups), d.nextWindow, v, FocusWindow(d, w).windows[v])
    {
      assert WindowSound(Lists(d.groups), d.nextWindow, v, d.windows[v]);
    }
  }

  lemma FocusWorkspaces(d: Desk, w: Id)
    requires Sound(d) && Focusable(d, w)
    ensures WorkspacesSound(FocusWindow(d, w))
  {
    var g := d.windows[w].group.value;
    var ws := d.groups[g].workspace;
    ActiveOnly(d.groups, g, Some(w));
    forall v | v in d.workspaces
      ensures WorkspaceSound(Seats(d.groups), d.nextWorkspace, d.nextSplit, v, FocusWindow(d, w).workspaces[v])
    {
      assert WorkspaceSound(Seats(d.groups), d.nextWorkspace, d.nextSplit, v, d.workspaces[v]);
    }
  }

  // ----- membership

  /** A window leaves its group's list; if it was the active one, the last mapped window takes over. */
  ghost function Leave(d: Desk, w: Id): Desk {
    if w in d.windows && d.windows[w].group.Some? && d.windows[w].group.value in d.groups then
      var g := d.windows[w].group.value;
      var x := d.groups[g];
      var rest := Without(x.windows, w);
      d.(windows := d.windows[w := d.windows[w].(group := None)],
         groups := d.groups[g := x.(windows := rest, windowCount := x.windowCount - 1,
           active := if x.active == Some(w) then LastMapped(d.windows, rest) else x.active)])
    else d
  }

  lemma {:induction false} WithoutOne<T>(s: seq<T>, x: T)
    requires NoDup(s) && x in s
    ensures |Without(s, x)| == |s| - 1
  {
    if s[0] == x {
      assert x !in s[1..];
      WithoutElsewhere(s[1..], x);
    } else {
      WithoutOne(s[1..], x);
    }
  }

  lemma {:induction false} WithoutMembers<T>(s: seq<T>, x: T)
    ensures forall y :: y in Without<T>(s, x) <==> y in s && y != x
  {
    forall y ensures y in Without<T>(s, x) <==> y in s && y != x {
      WithoutMember(s, x, y);
    }
  }

  lemma LeaveGroup(roles: map<Id, Window>, registries: map<Id, seq<Id>>, next: Id, g: Id, x: Group, w: Id,
                   active: Option<Id>)
    requires GroupSound(roles, registries, next, g, x) && w in x.windows && w in roles
    requires active.Some? ==>
      active.value in Without(x.windows, w) && active.value in roles && roles[active.value].mapped
    ensures GroupSound(roles[w := roles[w].(group := None)], registries, next, g,
      x.(windows := Without(x.windows, w), windowCount := x.windowCount - 1, active := active))
  {
    WithoutMembers(x.windows, w);
    WithoutNoDup(x.windows, w);
    WithoutOne(x.windows, w);
  }

  lemma GroupWithout(roles: map<Id, Window>, registries: map<Id, seq<Id>>, next: Id, g: Id, x: Group, w: Id,
                     role: Window)
    requires GroupSound(roles, registries, next, g, x) && w !in x.windows
    ensures GroupSound(roles[w := role], registries, next, g, x)
  {
  }

  lemma NotMember(d: Desk, h: Id, w: Id)
    requires Sound(d) && h in d.groups && w in d.windows && d.windows[w].group != Some(h)
    ensures w !in d.groups[h].windows
  {
    SoundGroup(d, h);
  }

  lemma LeaveGroups(d: Desk, w: Id, g: Id)
    requires Sound(d) && w in d.windows && d.windows[w].group == Some(g) && g in d.groups && w in d.groups[g].windows
    ensures GroupsSound(Leave(d, w))
  {
    var e := Leave(d, w);
    var x, role := d.groups[g], d.windows[w].(group := None, fullscreen := false);
    WindowUpdate(d.windows, w, e.windows[w]);
    forall h | h in e.groups
      ensures GroupSound(Roles(e.windows), Registries(e.workspaces), e.nextGroup, h, e.groups[h])
    {
      if h == g {
        WithoutMembers(x.windows, w);
        SoundGroup(d, g);
        var active := e.groups[g].active;
        assert active.Some? ==> active.value in d.windows && Roles(d.windows)[active.value].mapped;
        LeaveGroup(Roles(d.windows), Registries(d.workspaces), d.nextGroup, g, x, w, e.groups[g].active);
      } else {
        NotMember(d, h, w);
        GroupWithout(Roles(d.windows), Registries(d.workspaces), d.nextGroup, h, d.groups[h], w, role);
      }
    }
  }

  lemma LeaveSound(d: Desk, w: Id)
    requires Sound(d)
    ensures Sound(Leave(d, w))
  {
    if w in d.windows && d.windows[w].group.Some? {
      SoundWindow(d, w);
      var g := d.windows[w].group.value;
      LeaveGroups(d, w, g);
      LeaveWindows(d, w, g);
      SameSeats(d.groups, g, Leave(d, w).groups[g]);
    }
  }

  lemma SameSeats(groups: map<Id, Group>, g: Id, x: Group)
    requires g in groups && x.workspace == groups[g].workspace && x.hasTile == groups[g].hasTile
    ensures Seats(groups[g := x]) == Seats(groups) && groups[g := x].Keys == groups.Keys
  {
  }

  lemma WindowStays(lists: map<Id, seq<Id>>, next: Id, v: Id, x: Window, g: Id, w: Id)
    requires WindowSound(lists, next, v, x) && v != w && g in lists
    ensures WindowSound(lists[g := Without(lists[g], w)], next, v, x)
  {
    WithoutMember(lists[g], w, v);
  }

  lemma LeaveWindows(d: Desk, w: Id, g: Id)
    requires Sound(d) && w in d.windows && d.windows[w].group == Some(g) && g in d.groups
    ensures WindowsSound(Leave(d, w))
  {
    GroupUpdate(d.groups, g, Leave(d, w).groups[g]);
    forall v | v in d.windows
      ensures WindowSound(Lists(d.groups)[g := Without(d.groups[g].windows, w)], d.nextWindow, v,
          Leave(d, w).windows[v])
    {
      assert WindowSound(Lists(d.groups), d.nextWindow, v, d.windows[v]);
      if v != w {
        WindowStays(Lists(d.groups), d.nextWindow, v, d.windows[v], g, w);
      }
    }
  }

  /** A window without a group joins the end of a group's list. */
  ghost function AddWindow(d: Desk, g: Id, w: Id): Desk {
    if g in d.groups && w in d.windows then
      var x := d.groups[g];
      d.(windows := d.windows[w := d.windows[w].(group := Some(g), workspace := Some(x.workspace),
          standing := Within(x.placement))],
         groups := d.groups[g := x.(windows := x.windows + [w], windowCount := x.windowCount + 1)])
    else d
  }

  lemma JoinGroup(roles: map<Id, Window>, registries: map<Id, seq<Id>>, next: Id, g: Id, x: Group, w: Id, role: Window)
    requires GroupSound(roles, registries, next, g, x) && w !in x.windows && Belongs(role, g, x)
    ensures GroupSound(roles[w := role], registries, next, g,
        x.(windows := x.windows + [w], windowCount := x.windowCount + 1))
  {
    NoDupConcat(x.windows, [w]);
  }

  lemma AddWindowGroups(d: Desk, g: Id, w: Id)
    requires Sound(d) && g in d.groups && w in d.windows && d.windows[w].group.None?
    ensures GroupsSound(AddWindow(d, g, w))
  {
    var e := AddWindow(d, g, w);
    var role := e.windows[w].(fullscreen := false);
    WindowUpdate(d.windows, w, e.windows[w]);
    forall h | h in e.groups
      ensures GroupSound(Roles(e.windows), Registries(e.workspaces), e.nextGroup, h, e.groups[h])
    {
      NotMember(d, h, w);
      if h == g {
        JoinGroup(Roles(d.windows), Registries(d.workspaces), d.nextGroup, g, d.groups[g], w, role);
      } else {
        GroupWithout(Roles(d.windows), Registries(d.workspaces), d.nextGroup, h, d.groups[h], w, role);
      }
    }
  }

  lemma AddWindowSound(d: Desk, g: Id, w: Id)
    requires Sound(d) && g in d.groups && w in d.windows && d.windows[w].group.None?
    ensures Sound(AddWindow(d, g, w))
  {
    AddWindowGroups(d, g, w);
    AddWindowWindows(d, g, w);
    SameSeats(d.groups, g, AddWindow(d, g, w).groups[g]);
  }

  lemma AddWindowWindows(d: Desk, g: Id, w: Id)
    requires Sound(d) && g in d.groups && w in d.windows && d.windows[w].group.None?
    ensures WindowsSound(AddWindow(d, g, w))
  {
    var e := AddWindow(d, g, w);
    GroupUpdate(d.groups, g, e.groups[g]);
    forall v | v in e.windows
      ensures WindowSound(Lists(e.groups), e.nextWindow, v, e.windows[v])
    {
      SoundWindow(d, v);
    }
  }

  // ----- creating and destroying groups

  ghost function CreateGroup(d: Desk, ws: Id, o: Orientation, r: real): Desk {
    if ws !in d.workspaces then d
    else
      var g := d.nextGroup;
      var w := d.workspaces[ws];
      d.(groups := d.groups[g := Group(ws, Tiled, [], 0, None, true, None)], groupOrder := d.groupOrder + [g],
         workspaces := d.workspaces[ws :=
           w.(layout := Entered(w.layout, Anchor(d, ws), g, d.nextSplit, o, r), active := Some(g))],
         activeGroup := if FocusedWorkspace(d) == Some(ws) then Some(g) else d.activeGroup,
         nextGroup := g + 1, nextSplit := d.nextSplit + 1)
  }

  /** A non-empty registry always has an anchor in it. */
  lemma AnchorInRegistry(d: Desk, ws: Id)
    requires Sound(d) && ws in d.workspaces
    ensures var l := d.workspaces[ws].layout;
      l.tiles != [] ==> Anchor(d, ws).Some? && Anchor(d, ws).value in l.tiles
  {
    SoundWorkspace(d, ws);
    var w := d.workspaces[ws];
    if w.active.Some? {
      SoundGroup(d, w.active.value);
    }
  }

  /** The anchor can be read off the layout and the active group. */
  lemma AnchorReadsLayout(d: Desk, ws: Id)
    requires Sound(d) && ws in d.workspaces
    ensures Anchor(d, ws) == AnchorIn(d.workspaces[ws].layout, d.workspaces[ws].active)
  {
    SoundWorkspace(d, ws);
    if d.workspaces[ws].active.Some? {
      SoundGroup(d, d.workspaces[ws].active.value);
    }
  }

  lemma CreateGroupGroups(d: Desk, ws: Id, o: Orientation, r: real)
    requires Sound(d) && ws in d.workspaces && d.nextGroup !in d.groups && d.nextGroup !in d.workspaces[ws].layout.tiles
    requires var l := CreateGroup(d, ws, o, r).workspaces[ws].layout;
      forall h :: h in l.tiles <==> h in d.workspaces[ws].layout.tiles || h == d.nextGroup
    ensures GroupsSound(CreateGroup(d, ws, o, r))
  {
    var e := CreateGroup(d, ws, o, r);
    WorkspaceUpdate(d.workspaces, ws, e.workspaces[ws]);
    forall h | h in e.groups
      ensures GroupSound(Roles(e.windows), Registries(e.workspaces), e.nextGroup, h, e.groups[h])
    {
      if h != d.nextGroup {
        assert GroupSound(Roles(d.windows), Registries(d.workspaces), d.nextGroup, h, d.groups[h]);
        GroupInRegistries(d, h, ws, e.workspaces[ws], d.nextGroup);
      }
    }
  }

  /** A group does not notice that another one entered or left the registry of its workspace. */
  lemma GroupInRegistries(d: Desk, h: Id, ws: Id, x: Workspace, g: Id)
    requires h in d.groups && h != g && ws in d.workspaces
    requires GroupSound(Roles(d.windows), Registries(d.workspaces), d.nextGroup, h, d.groups[h])
    requires h in x.layout.tiles <==> h in d.workspaces[ws].layout.tiles
    ensures GroupSound(Roles(d.windows), Registries(d.workspaces[ws := x]), d.nextGroup + 1, h, d.groups[h])
    ensures GroupSound(Roles(d.windows), Registries(d.workspaces[ws := x]), d.nextGroup, h, d.groups[h])
  {
    WorkspaceUpdate(d.workspaces, ws, x);
  }

  lemma FreshGroup(d: Desk, ws: Id)
    requires Sound(d) && ws in d.workspaces
    ensures d.nextGroup !in d.groups && d.nextGroup !in d.workspaces[ws].layout.tiles && d.nextGroup !in d.groupOrder
  {
    if d.nextGroup in d.groups {
      SoundGroup(d, d.nextGroup);
    }
    SoundWorkspace(d, ws);
  }

  lemma CreateGroupSound(d: Desk, ws: Id, o: Orientation, r: real)
    requires Sound(d) && ws in d.workspaces
    ensures Sound(CreateGroup(d, ws, o, r))
  {
    SoundWorkspace(d, ws);
    FreshGroup(d, ws);
    AnchorInRegistry(d, ws);
    EnteredSound(d.workspaces[ws].layout, Anchor(d, ws), d.nextGroup, d.nextSplit, o, r);
    CreateGroupGroups(d, ws, o, r);
    CreateGroupWorkspaces(d, ws, o, r);
    CreateGroupRest(d, ws, o, r);
  }

  lemma CreateGroupRest(d: Desk, ws: Id, o: Orientation, r: real)
    requires Sound(d) && ws in d.workspaces && d.nextGroup !in d.groups && d.nextGroup !in d.groupOrder
    ensures var e := CreateGroup(d, ws, o, r);
      WindowsSound(e) && OrderSound(e.groupOrder, e.groups.Keys, e.activeGroup)
  {
    var e := CreateGroup(d, ws, o, r);
    NoDupConcat(d.groupOrder, [d.nextGroup]);
    GroupUpdate(d.groups, d.nextGroup, e.groups[d.nextGroup]);
    forall v | v in e.windows
      ensures WindowSound(Lists(e.groups), e.nextWindow, v, e.windows[v])
    {
      assert WindowSound(Lists(d.groups), d.nextWindow, v, d.windows[v]);
    }
  }

  lemma CreateGroupWorkspaces(d: Desk, ws: Id, o: Orientation, r: real)
    requires Sound(d) && ws in d.workspaces && d.nextGroup !in d.groups
    requires var l := CreateGroup(d, ws, o, r).workspaces[ws].layout;
      LayoutSound(l, d.nextSplit + 1) && forall h :: h in l.tiles <==> h in d.workspaces[ws].layout.tiles || h == d.nextGroup
    ensures WorkspacesSound(CreateGroup(d, ws, o, r))
  {
    var e := CreateGroup(d, ws, o, r);
    GroupUpdate(d.groups, d.nextGroup, e.groups[d.nextGroup]);
    forall v | v in e.workspaces
      ensures WorkspaceSound(Seats(e.groups), e.nextWorkspace, e.nextSplit, v, e.workspaces[v])
    {
      assert WorkspaceSound(Seats(d.groups), d.nextWorkspace, d.nextSplit, v, d.workspaces[v]);
    }
  }

  ghost function DestroyGroup(d: Desk, g: Id): Desk {
    if g !in d.groups || d.groups[g].workspace !in d.workspaces then d
    else
      var x := d.groups[g];
      var w := d.workspaces[x.workspace];
      var rest, order := d.groups - {g}, Without(d.groupOrder, g);
      var fallback := if w.active == Some(g) then LastIn(rest, order, x.workspace) else None;
      d.(groups := rest, groupOrder := order,
         workspaces := d.workspaces[x.workspace :=
           w.(layout := if x.hasTile then Departed(w.layout, g) else w.layout,
              active := if w.active == Some(g) then fallback else w.active)],
         activeGroup := if d.activeGroup == Some(g) then fallback else d.activeGroup)
  }

  lemma DestroyGroupSound(d: Desk, g: Id)
    requires Sound(d) && g in d.groups && d.groups[g].windows == []
    ensures Sound(DestroyGroup(d, g))
  {
    var ws := d.groups[g].workspace;
    SoundGroup(d, g);
    SoundWorkspace(d, ws);
    if d.groups[g].hasTile {
      DepartedSound(d.workspaces[ws].layout, g, d.nextSplit);
    }
    WithoutMembers(d.groupOrder, g);
    WithoutNoDup(d.groupOrder, g);
    DestroyGroupWorkspaces(d, g);
    DestroyGroupGroups(d, g);
    DestroyGroupWindows(d, g);
  }

  lemma DestroyGroupGroups(d: Desk, g: Id)
    requires Sound(d) && g in d.groups && d.groups[g].workspace in d.workspaces
    requires var ws := d.groups[g].workspace; var l := DestroyGroup(d, g).workspaces[ws].layout;
      forall h :: h in l.tiles <==> h in d.workspaces[ws].layout.tiles && h != g
    ensures GroupsSound(DestroyGroup(d, g))
  {
    var e, ws := DestroyGroup(d, g), d.groups[g].workspace;
    forall h | h in e.groups
      ensures GroupSound(Roles(e.windows), Registries(e.workspaces), e.nextGroup, h, e.groups[h])
    {
      GroupInRegistries(d, h, ws, e.workspaces[ws], g);
    }
  }

  lemma DestroyGroupWindows(d: Desk, g: Id)
    requires Sound(d) && g in d.groups && d.groups[g].windows == []
    ensures WindowsSound(DestroyGroup(d, g))
  {
    GroupDrop(d.groups, g);
    forall v | v in d.windows
      ensures WindowSound(Lists(d.groups) - {g}, d.nextWindow, v, d.windows[v])
    {
      SoundWindow(d, v);
    }
  }

  lemma DestroyGroupWorkspaces(d: Desk, g: Id)
    requires Sound(d) && g in d.groups && d.groups[g].workspace in d.workspaces
    requires var ws := d.groups[g].workspace; var l := DestroyGroup(d, g).workspaces[ws].layout;
      LayoutSound(l, d.nextSplit) && forall h :: h in l.tiles <==> h in d.workspaces[ws].layout.tiles && h != g
    requires forall h :: h in DestroyGroup(d, g).groupOrder <==> h in d.groups && h != g
    ensures WorkspacesSound(DestroyGroup(d, g))
  {
    var e := DestroyGroup(d, g);
    GroupDrop(d.groups, g);
    forall v | v in e.workspaces
      ensures WorkspaceSound(Seats(e.groups), e.nextWorkspace, e.nextSplit, v, e.workspaces[v])
    {
      assert WorkspaceSound(Seats(d.groups), d.nextWorkspace, d.nextSplit, v, d.workspaces[v]);
      if v == d.groups[g].workspace {
        DestroyGroupActive(d, g);
      } else {
        WorkspaceWithout(Seats(d.groups), d.nextWorkspace, d.nextSplit, v, d.workspaces[v], g);
      }
    }
  }

  lemma WorkspaceWithout(seats: map<Id, Seat>, next: Id, splits: Id, v: Id, ws: Workspace, g: Id)
    requires WorkspaceSound(seats, next, splits, v, ws) && g in seats && seats[g].workspace != v
    ensures WorkspaceSound(seats - {g}, next, splits, v, ws)
  {
  }

  lemma DestroyGroupActive(d: Desk, g: Id)
    requires g in d.groups && d.groups[g].workspace in d.workspaces
    requires var ws := d.groups[g].workspace; var l := DestroyGroup(d, g).workspaces[ws].layout;
      && WorkspaceSound(Seats(d.groups), d.nextWorkspace, d.nextSplit, ws, d.workspaces[ws])
      && LayoutSound(l, d.nextSplit) && forall h :: h in l.tiles <==> h in d.workspaces[ws].layout.tiles && h != g
    requires forall h :: h in DestroyGroup(d, g).groupOrder <==> h in d.groups && h != g
    ensures var ws := d.groups[g].workspace;
      WorkspaceSound(Seats(d.groups) - {g}, d.nextWorkspace, d.nextSplit, ws, DestroyGroup(d, g).workspaces[ws])
  {
    var ws := d.groups[g].workspace;
    WorkspaceHandsOver(Seats(d.groups), d.nextWorkspace, d.nextSplit, ws, d.workspaces[ws], g,
        DestroyGroup(d, g).workspaces[ws]);
  }

  lemma WorkspaceHandsOver(seats: map<Id, Seat>, next: Id, splits: Id, v: Id, ws: Workspace, g: Id, x: Workspace)
    requires WorkspaceSound(seats, next, splits, v, ws) && g in seats
    requires LayoutSound(x.layout, splits) && forall h :: h in x.layout.tiles <==> h in ws.layout.tiles && h != g
    requires if ws.active == Some(g) then
      && (x.active.Some? ==> x.active.value in seats && x.active.value != g && seats[x.active.value].workspace == v)
      && (x.active.None? ==> forall h :: h in seats && h != g ==> seats[h].workspace != v)
      else x.active == ws.active
    ensures WorkspaceSound(seats - {g}, next, splits, v, x)
  {
  }
}
