/** Steps that give a whole group another seat: floating, tiling, and moving to another workspace. */
module DeskMoves {
  import opened Seqs
  import opened LayoutTree
  import opened DeskState
  import opened DeskSteps

  /** The members of a group follow its workspace and placement. */
  ghost function Following(windows: map<Id, Window>, g: Group): map<Id, Window> {
    map w | w in windows ::
      if w in g.windows then windows[w].(workspace := Some(g.workspace), standing := Within(g.placement))
      else windows[w]
  }

  /** Group `g` becomes `x`, which differs in workspace, placement, tile and pin only. */
  ghost function Reseat(d: Desk, g: Id, x: Group): Desk {
    d.(groups := d.groups[g := x], windows := Following(d.windows, x))
  }

  ghost predicate SameMembers(x: Group, y: Group) {
    x.windows == y.windows && x.windowCount == y.windowCount && x.active == y.active
  }

  lemma FollowingRoles(windows: map<Id, Window>, x: Group)
    ensures Roles(Following(windows, x)) == Following(Roles(windows), x)
  {
  }

  lemma MembersFollow(roles: map<Id, Window>, regs: map<Id, seq<Id>>, regs': map<Id, seq<Id>>, next: Id, g: Id,
                      x: Group, y: Group)
    requires GroupSound(roles, regs, next, g, x) && SameMembers(x, y)
    requires (y.hasTile <==> y.placement.Tiled?) && y.workspace in regs' && (y.hasTile <==> g in regs'[y.workspace])
    ensures GroupSound(Following(roles, y), regs', next, g, y)
  {
  }

  lemma OthersStay(roles: map<Id, Window>, regs: map<Id, seq<Id>>, regs': map<Id, seq<Id>>, next: Id, h: Id, x: Group,
                   y: Group)
    requires GroupSound(roles, regs, next, h, x) && (forall w :: w in y.windows ==> w !in x.windows)
    requires x.workspace in regs' && (h in regs'[x.workspace] <==> h in regs[x.workspace])
    ensures GroupSound(Following(roles, y), regs', next, h, x)
  {
  }

  lemma ListsApart(d: Desk, g: Id, h: Id)
    requires Sound(d) && g in d.groups && h in d.groups && g != h
    ensures forall w :: w in d.groups[g].windows ==> w !in d.groups[h].windows
  {
    SoundGroup(d, g);
    SoundGroup(d, h);
  }

  /** Registries that differ only in the place of group `g`. */
  ghost predicate OnlyMoves(regs: map<Id, seq<Id>>, regs': map<Id, seq<Id>>, g: Id) {
    regs'.Keys == regs.Keys && forall ws, h :: ws in regs && h != g ==> (h in regs'[ws] <==> h in regs[ws])
  }

  lemma ReseatGroups(d: Desk, g: Id, x: Group, workspaces: map<Id, Workspace>)
    requires Sound(d) && g in d.groups && SameMembers(d.groups[g], x)
    requires OnlyMoves(Registries(d.workspaces), Registries(workspaces), g)
    requires (x.hasTile <==> x.placement.Tiled?) && x.workspace in workspaces
    requires x.hasTile <==> g in workspaces[x.workspace].layout.tiles
    ensures GroupsSound(Reseat(d, g, x).(workspaces := workspaces))
  {
    var roles, regs, regs' := Roles(d.windows), Registries(d.workspaces), Registries(workspaces);
    FollowingRoles(d.windows, x);
    forall h | h in d.groups
      ensures GroupSound(Following(roles, x), regs', d.nextGroup, h, d.groups[g := x][h])
    {
      assert GroupSound(roles, regs, d.nextGroup, h, d.groups[h]);
      if h == g {
        MembersFollow(roles, regs, regs', d.nextGroup, g, d.groups[g], x);
      } else {
        ListsApart(d, g, h);
        OthersStay(roles, regs, regs', d.nextGroup, h, d.groups[h], x);
      }
    }
  }

  lemma ReseatWindows(d: Desk, g: Id, x: Group)
    requires Sound(d) && g in d.groups && SameMembers(d.groups[g], x)
    ensures WindowsSound(Reseat(d, g, x))
  {
    GroupUpdate(d.groups, g, x);
    assert Lists(d.groups)[g := x.windows] == Lists(d.groups);
    forall v | v in d.windows
      ensures WindowSound(Lists(d.groups), d.nextWindow, v, Following(d.windows, x)[v])
    {
      assert WindowSound(Lists(d.groups), d.nextWindow, v, d.windows[v]);
    }
  }

  // ----- floating and tiling

  ghost predicate ShowsFullscreen(d: Desk, g: Group) {
    g.active.Some? && g.active.value in d.windows && d.windows[g.active.value].fullscreen
  }

  /** The active window of a group takes the focus if it can. */
  ghost function FocusActive(d: Desk, g: Id): Desk {
    if g in d.groups && d.groups[g].active.Some? then FocusWindow(d, d.groups[g].active.value) else d
  }

  ghost predicate CanFloat(d: Desk, g: Id) {
    && g in d.groups && d.groups[g].workspace in d.workspaces && d.groups[g].placement.Tiled? && d.groups[g].hasTile
    && !ShowsFullscreen(d, d.groups[g])
  }

  ghost function Floated(d: Desk, g: Id): Desk
    requires CanFloat(d, g)
  {
    var ws := d.groups[g].workspace;
    var w := d.workspaces[ws];
    Reseat(d, g, d.groups[g].(placement := Floating, hasTile := false, pin := None))
      .(workspaces := d.workspaces[ws := w.(layout := Departed(w.layout, g))])
  }

  /** `room` says whether the workspace has a usable area to place the floating box in. */
  ghost function FloatGroup(d: Desk, g: Id, room: bool): Desk {
    if !CanFloat(d, g) || !room then d else FocusActive(Floated(d, g), g)
  }

  ghost predicate CanTile(d: Desk, g: Id) {
    && g in d.groups && d.groups[g].workspace in d.workspaces && d.groups[g].placement.Floating? && !d.groups[g].hasTile
    && !ShowsFullscreen(d, d.groups[g])
  }

  ghost function TiledAgain(d: Desk, g: Id, r: real): Desk
    requires CanTile(d, g)
  {
    var ws := d.groups[g].workspace;
    var w := d.workspaces[ws];
    Reseat(d, g, d.groups[g].(placement := Tiled, hasTile := true, pin := None))
      .(workspaces := d.workspaces[ws := w.(layout := Entered(w.layout, Anchor(d, ws), g, d.nextSplit, Horizontal, r))],
        nextSplit := d.nextSplit + 1)
  }

  ghost function TileGroup(d: Desk, g: Id, r: real): Desk {
    if !CanTile(d, g) then d else FocusActive(TiledAgain(d, g, r), g)
  }

  /** Workspaces after group `g` got another seat on its workspace `ws`. */
  lemma SeatedWorkspaces(d: Desk, g: Id, x: Group, ws: Id, w: Workspace, splits: Id)
    requires WorkspacesSound(d) && g in d.groups && ws in d.workspaces && d.groups[g].workspace == ws == x.workspace
    requires LayoutSound(w.layout, splits) && w.active == d.workspaces[ws].active && splits >= d.nextSplit
    requires forall h :: h in w.layout.tiles <==> (if h == g then x.hasTile else h in d.workspaces[ws].layout.tiles)
    ensures WorkspacesSound(d.(groups := d.groups[g := x], workspaces := d.workspaces[ws := w], nextSplit := splits))
  {
    GroupUpdate(d.groups, g, x);
    forall v | v in d.workspaces
      ensures WorkspaceSound(Seats(d.groups)[g := Seat(ws, x.hasTile)], d.nextWorkspace, splits, v,
          d.workspaces[ws := w][v])
    {
      assert WorkspaceSound(Seats(d.groups), d.nextWorkspace, d.nextSplit, v, d.workspaces[v]);
      if v == ws {
        WorkspaceReseats(Seats(d.groups), d.nextWorkspace, d.nextSplit, v, d.workspaces[v], g, x.hasTile, w, splits);
      } else {
        WorkspaceElsewhere(Seats(d.groups), d.nextWorkspace, d.nextSplit, v, d.workspaces[v], g, Seat(ws, x.hasTile),
            splits);
      }
    }
  }

  lemma WorkspaceReseats(seats: map<Id, Seat>, next: Id, splits: Id, v: Id, w: Workspace, g: Id, tiled: bool,
                         y: Workspace, more: Id)
    requires WorkspaceSound(seats, next, splits, v, w) && g in seats && seats[g].workspace == v && more >= splits
    requires LayoutSound(y.layout, more) && y.active == w.active
    requires forall h :: h in y.layout.tiles <==> (if h == g then tiled else h in w.layout.tiles)
    ensures WorkspaceSound(seats[g := Seat(v, tiled)], next, more, v, y)
  {
  }

  lemma LayoutSoundMore(l: Tiling, splits: Id, more: Id)
    requires LayoutSound(l, splits) && more >= splits
    ensures LayoutSound(l, more)
  {
  }

  lemma WorkspaceElsewhere(seats: map<Id, Seat>, next: Id, splits: Id, v: Id, w: Workspace, g: Id, seat: Seat, more: Id)
    requires WorkspaceSound(seats, next, splits, v, w) && g in seats && seats[g].workspace != v && seat.workspace != v
    requires more >= splits
    ensures WorkspaceSound(seats[g := seat], next, more, v, w)
  {
    LayoutSoundMore(w.layout, splits, more);
  }

  lemma FloatedSound(d: Desk, g: Id)
    requires Sound(d) && CanFloat(d, g)
    ensures Sound(Floated(d, g))
  {
    var ws := d.groups[g].workspace;
    var w := d.workspaces[ws];
    var x, y := d.groups[g].(placement := Floating, hasTile := false, pin := None), w.(layout := Departed(w.layout, g));
    SoundGroup(d, g);
    SoundWorkspace(d, ws);
    DepartedSound(w.layout, g, d.nextSplit);
    WorkspaceUpdate(d.workspaces, ws, y);
    ReseatGroups(d, g, x, d.workspaces[ws := y]);
    ReseatWindows(d, g, x);
    SeatedWorkspaces(d, g, x, ws, y, d.nextSplit);
  }

  /** The layout with a place for the group. */
  lemma TiledLayout(d: Desk, g: Id, ws: Id, r: real)
    requires Sound(d) && ws in d.workspaces && g !in d.workspaces[ws].layout.tiles
    ensures var l := Entered(d.workspaces[ws].layout, Anchor(d, ws), g, d.nextSplit, Horizontal, r);
      LayoutSound(l, d.nextSplit + 1) && forall h :: h in l.tiles <==> h in d.workspaces[ws].layout.tiles || h == g
  {
    SoundWorkspace(d, ws);
    AnchorInRegistry(d, ws);
    EnteredSound(d.workspaces[ws].layout, Anchor(d, ws), g, d.nextSplit, Horizontal, r);
  }

  lemma TiledAgainSound(d: Desk, g: Id, r: real)
    requires Sound(d) && CanTile(d, g)
    ensures Sound(TiledAgain(d, g, r))
  {
    var ws := d.groups[g].workspace;
    var w := d.workspaces[ws];
    var x := d.groups[g].(placement := Tiled, hasTile := true, pin := None);
    var y := w.(layout := Entered(w.layout, Anchor(d, ws), g, d.nextSplit, Horizontal, r));
    SoundGroup(d, g);
    TiledLayout(d, g, ws, r);
    WorkspaceUpdate(d.workspaces, ws, y);
    ReseatGroups(d, g, x, d.workspaces[ws := y]);
    ReseatWindows(d, g, x);
    SeatedWorkspaces(d, g, x, ws, y, d.nextSplit + 1);
  }

  // ----- to another workspace

  ghost function OutputOf(d: Desk, ws: Id): Option<Id> {
    if ws in d.workspaces then d.workspaces[ws].output else None
  }

  ghost predicate CanMoveFloating(d: Desk, g: Id, target: Id) {
    && g in d.groups && d.groups[g].placement.Floating? && d.groups[g].workspace in d.workspaces
    && target in d.workspaces && d.workspaces[target].output.Some? && d.groups[g].workspace != target
  }

  /** The group with its new seat; crossing outputs drops a pin to another output than the target's. */
  ghost function Carried(d: Desk, g: Id, target: Id): Group
    requires g in d.groups
  {
    var x := d.groups[g];
    x.(workspace := target,
       pin := if OutputOf(d, x.workspace) != OutputOf(d, target) && x.pin != OutputOf(d, target) then None else x.pin)
  }

  /** The workspace a group left: if the group was active there, the last other group takes over. */
  ghost function Deserted(d: Desk, g: Id, groups: map<Id, Group>, ws: Id): Workspace
    requires ws in d.workspaces
  {
    var w := d.workspaces[ws];
    if w.active == Some(g) then w.(active := LastIn(groups, d.groupOrder, ws)) else w
  }

  ghost function Occupied(w: Workspace, g: Id): Workspace {
    if w.active.None? then w.(active := Some(g)) else w
  }

  /** `follow` keeps the group the server's active one; otherwise activity stays on the workspace left. */
  ghost function MoveFloating(d: Desk, g: Id, target: Id, follow: bool): Desk {
    if !CanMoveFloating(d, g, target) then d
    else
      var source := d.groups[g].workspace;
      var e := Reseat(d, g, Carried(d, g, target));
      var s := Deserted(d, g, e.groups, source);
      e.(workspaces := d.workspaces[source := s][target := Occupied(d.workspaces[target], g)],
         activeGroup := if d.activeGroup == Some(g) && !follow then s.active else d.activeGroup)
  }

  ghost predicate CanMoveTiled(d: Desk, g: Id, target: Id) {
    && g in d.groups && d.groups[g].placement.Tiled? && d.groups[g].hasTile && d.groups[g].workspace in d.workspaces
    && target in d.workspaces && d.workspaces[target].output.Some? && d.groups[g].workspace != target
  }

  ghost function MoveTiled(d: Desk, g: Id, target: Id, r: real): Desk {
    if !CanMoveTiled(d, g, target) then d
    else
      var source := d.groups[g].workspace;
      var e := Reseat(d, g, d.groups[g].(workspace := target));
      var s, t := Deserted(d, g, e.groups, source), Occupied(d.workspaces[target], g);
      e.(workspaces := d.workspaces
           [source := s.(layout := Departed(s.layout, g))]
           [target := t.(layout := Entered(t.layout, Anchor(d, target), g, d.nextSplit, Horizontal, r))],
         activeGroup := if d.activeGroup == Some(g) then LastIn(e.groups, d.groupOrder, source) else d.activeGroup,
         nextSplit := d.nextSplit + 1)
  }

  /** Workspaces after group `g` moved from `source` to `target`. */
  lemma MovedWorkspaces(d: Desk, g: Id, x: Group, source: Id, s: Workspace, target: Id, t: Workspace, splits: Id)
    requires WorkspacesSound(d) && OrderSound(d.groupOrder, d.groups.Keys, d.activeGroup)
    requires g in d.groups && source in d.workspaces && target in d.workspaces && source != target
    requires splits >= d.nextSplit
    requires d.groups[g].workspace == source && x.workspace == target && x.hasTile == d.groups[g].hasTile
    requires LayoutSound(s.layout, splits) && LayoutSound(t.layout, splits)
    requires forall h :: h in s.layout.tiles <==> h in d.workspaces[source].layout.tiles && h != g
    requires forall h :: h in t.layout.tiles <==> h in d.workspaces[target].layout.tiles || (h == g && x.hasTile)
    requires s.active == Deserted(d, g, d.groups[g := x], source).active
    requires t.active == Occupied(d.workspaces[target], g).active
    ensures WorkspacesSound(d.(groups := d.groups[g := x], workspaces := d.workspaces[source := s][target := t],
        nextSplit := splits))
  {
    GroupUpdate(d.groups, g, x);
    var seats := Seats(d.groups)[g := Seat(target, x.hasTile)];
    forall v | v in d.workspaces
      ensures WorkspaceSound(seats, d.nextWorkspace, splits, v, d.workspaces[source := s][target := t][v])
    {
      assert WorkspaceSound(Seats(d.groups), d.nextWorkspace, d.nextSplit, v, d.workspaces[v]);
      if v == source {
        WorkspaceLosesSeat(Seats(d.groups), d.nextWorkspace, d.nextSplit, v, d.workspaces[v], g, seats[g], s, splits);
      } else if v == target {
        WorkspaceGainsSeat(Seats(d.groups), d.nextWorkspace, d.nextSplit, v, d.workspaces[v], g, x.hasTile, t, splits);
      } else {
        WorkspaceElsewhere(Seats(d.groups), d.nextWorkspace, d.nextSplit, v, d.workspaces[v], g, seats[g], splits);
      }
    }
  }

  lemma WorkspaceGainsSeat(seats: map<Id, Seat>, next: Id, splits: Id, v: Id, w: Workspace, g: Id, tiled: bool,
                           t: Workspace, more: Id)
    requires WorkspaceSound(seats, next, splits, v, w) && g in seats && seats[g].workspace != v
    requires LayoutSound(t.layout, more) && t.active == (if w.active.None? then Some(g) else w.active)
    requires forall h :: h in t.layout.tiles <==> h in w.layout.tiles || (h == g && tiled)
    ensures WorkspaceSound(seats[g := Seat(v, tiled)], next, more, v, t)
  {
  }

  lemma WorkspaceLosesSeat(seats: map<Id, Seat>, next: Id, splits: Id, v: Id, w: Workspace, g: Id, seat: Seat,
                           s: Workspace, more: Id)
    requires WorkspaceSound(seats, next, splits, v, w) && g in seats && seat.workspace != v
    requires LayoutSound(s.layout, more) && forall h :: h in s.layout.tiles <==> h in w.layout.tiles && h != g
    requires if w.active == Some(g) then
      && (s.active.Some? ==> s.active.value in seats && s.active.value != g && seats[s.active.value].workspace == v)
      && (s.active.None? ==> forall h :: h in seats && h != g ==> seats[h].workspace != v)
      else s.active == w.active
    ensures WorkspaceSound(seats[g := seat], next, more, v, s)
  {
  }

  lemma MoveFloatingSound(d: Desk, g: Id, target: Id, follow: bool)
    requires Sound(d)
    ensures Sound(MoveFloating(d, g, target, follow))
  {
    if CanMoveFloating(d, g, target) {
      var source, x := d.groups[g].workspace, Carried(d, g, target);
      var s, t := Deserted(d, g, d.groups[g := x], source), Occupied(d.workspaces[target], g);
      var workspaces := d.workspaces[source := s][target := t];
      SoundGroup(d, g);
      SoundWorkspace(d, source);
      SoundWorkspace(d, target);
      assert Registries(workspaces) == Registries(d.workspaces);
      ReseatGroups(d, g, x, workspaces);
      ReseatWindows(d, g, x);
      MovedWorkspaces(d, g, x, source, s, target, t, d.nextSplit);
    }
  }

  /** The layouts of the two workspaces after a tiled group went from one to the other. */
  lemma MovedLayouts(d: Desk, g: Id, source: Id, target: Id, r: real)
    requires Sound(d) && g in d.groups && source in d.workspaces && target in d.workspaces && source != target
    requires d.groups[g].workspace == source && d.groups[g].hasTile
    ensures var l, m := Departed(d.workspaces[source].layout, g),
        Entered(d.workspaces[target].layout, Anchor(d, target), g, d.nextSplit, Horizontal, r);
      && LayoutSound(l, d.nextSplit + 1) && LayoutSound(m, d.nextSplit + 1)
      && (forall h :: h in l.tiles <==> h in d.workspaces[source].layout.tiles && h != g)
      && (forall h :: h in m.tiles <==> h in d.workspaces[target].layout.tiles || h == g)
  {
    SoundGroup(d, g);
    SoundWorkspace(d, source);
    SoundWorkspace(d, target);
    DepartedSound(d.workspaces[source].layout, g, d.nextSplit);
    LayoutSoundMore(Departed(d.workspaces[source].layout, g), d.nextSplit, d.nextSplit + 1);
    AnchorInRegistry(d, target);
    EnteredSound(d.workspaces[target].layout, Anchor(d, target), g, d.nextSplit, Horizontal, r);
  }

  lemma MoveTiledSound(d: Desk, g: Id, target: Id, r: real)
    requires Sound(d)
    ensures Sound(MoveTiled(d, g, target, r))
  {
    if CanMoveTiled(d, g, target) {
      var e, source, x := MoveTiled(d, g, target, r), d.groups[g].workspace, d.groups[g].(workspace := target);
      SoundGroup(d, g);
      MovedLayouts(d, g, source, target, r);
      MovedRegistries(d, g, source, e.workspaces[source], target, e.workspaces[target]);
      ReseatGroups(d, g, x, e.workspaces);
      ReseatWindows(d, g, x);
      MovedWorkspaces(d, g, x, source, e.workspaces[source], target, e.workspaces[target], d.nextSplit + 1);
    }
  }

  lemma MovedRegistries(d: Desk, g: Id, source: Id, s: Workspace, target: Id, t: Workspace)
    requires source in d.workspaces && target in d.workspaces && source != target
    requires forall h :: h in s.layout.tiles <==> h in d.workspaces[source].layout.tiles && h != g
    requires forall h :: h in t.layout.tiles <==> h in d.workspaces[target].layout.tiles || h == g
    ensures OnlyMoves(Registries(d.workspaces), Registries(d.workspaces[source := s][target := t]), g)
  {
    WorkspaceUpdate(d.workspaces, source, s);
    WorkspaceUpdate(d.workspaces[source := s], target, t);
  }
}
