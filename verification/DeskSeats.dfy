/** Where whole groups end up: floating, tiling, pinning, moving to another workspace and within the
layout, each said by the lists, the seats and the order of the tiles afterwards. */
module DeskSeats {
  import opened Seqs
  import opened LayoutTree
  import opened DeskState
  import opened DeskSteps
  import opened DeskMoves
  import opened DeskWindows
  import opened DeskOutputs
  import opened DeskGroups
  import opened DeskPlacement

  // ----- focus

  /** Main result.  A mapped member of a group on a shown workspace takes the focus: its group and
      workspace go with it, and the window that had it before stops being fullscreen if it is on the same
      workspace.  Any other window is refused without effect. */
  lemma FocusMeaning(d: Desk, w: Id)
    requires Sound(d) && w in d.windows && d.windows[w].group.Some?
    ensures var e, g := FocusWindow(d, w), d.windows[w].group.value;
      g in d.groups && var ws := d.groups[g].workspace;
      if d.windows[w].mapped && Visible(d, ws) then
        && e.activeGroup == Some(g) && e.groups == d.groups[g := d.groups[g].(active := Some(w))]
        && ws in d.workspaces && e.workspaces == d.workspaces[ws := d.workspaces[ws].(active := Some(g))]
        && e.focusedOutput == d.workspaces[ws].output
      else e == d
  {
    SoundWindow(d, w);
    SoundGroup(d, d.windows[w].group.value);
  }

  /** The window that had the focus: the active one of the active group. */
  ghost predicate HadFocus(d: Desk, v: Id) {
    d.activeGroup.Some? && d.activeGroup.value in d.groups && d.groups[d.activeGroup.value].active == Some(v)
  }

  lemma UnfullscreenMeaning(d: Desk, w: Id, v: Id)
    requires Sound(d) && Focusable(d, w) && v in d.windows
    ensures var e, ws := FocusWindow(d, w), d.groups[d.windows[w].group.value].workspace;
      && v in e.windows
      && e.windows[v] == if v != w && HadFocus(d, v) && d.windows[v].workspace == Some(ws)
                         then d.windows[v].(fullscreen := false) else d.windows[v]
  {
    if d.activeGroup.Some? && d.activeGroup.value in d.groups {
      SoundGroup(d, d.activeGroup.value);
    }
  }

  /** The active window of a group takes the focus when the workspace of the group is shown, which makes
      the group the active one there and of the server. */
  lemma FocusActiveMeaning(d: Desk, g: Id)
    requires Sound(d) && g in d.groups
    ensures var e, ws := FocusActive(d, g), d.groups[g].workspace;
      && ws in d.workspaces
      && if d.groups[g].active.Some? && Visible(d, ws) then
           && e.activeGroup == Some(g) && e.groups == d.groups && e.focusedOutput == d.workspaces[ws].output
           && e.workspaces == d.workspaces[ws := d.workspaces[ws].(active := Some(g))]
         else e == d
  {
    SoundGroup(d, g);
    if d.groups[g].active.Some? {
      FocusMeaning(d, d.groups[g].active.value);
      assert d.groups[g := d.groups[g].(active := d.groups[g].active)] == d.groups;
    }
  }

  // ----- layouts

  /** The groups of a layout from left to right and top to bottom. */
  ghost function OrderOf(l: Tiling): seq<Id> {
    if l.tree.None? then [] else Leaves(l.tree.value)
  }

  ghost function FrameIn(l: Tiling, k: Id): Option<Frame> {
    if l.tree.None? then None else FrameOf(l.tree.value, k)
  }

  /** The split right above a group's tile. */
  ghost function Above(l: Tiling, g: Id): Option<Id> {
    if l.tree.None? then None else ParentOf(l.tree.value, g)
  }

  /** The group left the registry and the order, in which nothing else moved, and the split above it is gone. */
  ghost predicate Quits(l: Tiling, m: Tiling, g: Id) {
    && m.tiles == Without(l.tiles, g) && OrderOf(m) == Without(OrderOf(l), g)
    && forall k :: FrameIn(m, k) == if Above(l, g) == Some(k) then None else FrameIn(l, k)
  }

  /** The group was registered last, and comes right after the active group in the order, or, when that has
      no tile, right after the group that was registered last; they share the new split `split`, and all
      other splits keep orientation and ratio. */
  ghost predicate Joins(l: Tiling, m: Tiling, g: Id, active: Option<Id>, split: Id, f: Frame) {
    && m.tiles == l.tiles + [g]
    && (forall k :: FrameIn(m, k) == if k == split && l.tiles != [] then Some(f) else FrameIn(l, k))
    && (l.tiles == [] ==> OrderOf(m) == [g])
    && (l.tiles != [] ==>
          OrderOf(m) == InsertAfter(OrderOf(l),
            if active.Some? && active.value in l.tiles then active.value else l.tiles[|l.tiles| - 1], g))
  }

  lemma EnteredJoins(d: Desk, ws: Id, g: Id, o: Orientation, r: real)
    requires Sound(d) && ws in d.workspaces && g !in d.workspaces[ws].layout.tiles
    ensures var w := d.workspaces[ws];
      Joins(w.layout, Entered(w.layout, Anchor(d, ws), g, d.nextSplit, o, r), g, w.active, d.nextSplit, Frame(o, r))
  {
    var l := d.workspaces[ws].layout;
    SoundWorkspace(d, ws);
    AnchorReadsLayout(d, ws);
    AnchorInRegistry(d, ws);
    if l.tree.Some? {
      FirstLeafLeads(l.tree.value);
      var leaf: Id := FirstLeaf(l.tree.value);
      assert leaf in l.tiles;
      AddMeaning(l.tree.value, Anchor(d, ws).value, g, d.nextSplit, o, r, d.nextSplit);
      forall k ensures
        FrameOf(Add(l.tree.value, Anchor(d, ws).value, g, d.nextSplit, o, r), k)
        == if k == d.nextSplit then Some(Frame(o, r)) else FrameOf(l.tree.value, k)
      {
        AddMeaning(l.tree.value, Anchor(d, ws).value, g, d.nextSplit, o, r, k);
      }
    }
  }

  lemma DepartedQuits(l: Tiling, g: Id, splits: Id)
    requires LayoutSound(l, splits) && g in l.tiles
    ensures Quits(l, Departed(l, g), g)
  {
    var t := l.tree.value;
    RemoveEmpties(t, g);
    if t != Leaf(g) {
      RemoveMeaning(t, g, 0);
      forall k ensures FrameOf(Remove(t, g).value, k) == if k == ParentOf(t, g).value then None else FrameOf(t, k) {
        RemoveMeaning(t, g, k);
      }
    } else {
      assert Without([g], g) == [];
    }
  }

  /** Only group `g` has another seat; its members follow it and the other windows stay what they are. */
  ghost predicate Reseated(d: Desk, e: Desk, g: Id, s: Stance)
    requires g in d.groups
  {
    && Lists(e.groups) == Lists(d.groups) && Stances(e.groups) == Stances(d.groups)[g := s]
    && e.groupOrder == d.groupOrder && SameOutputs(d, e)
    && Roles(e.windows) == MembersAt(Roles(d.windows), d.groups[g].windows, s)
  }

  /** No group has another active window. */
  ghost predicate SameActives(d: Desk, e: Desk) {
    e.groups.Keys == d.groups.Keys && forall h :: h in d.groups ==> e.groups[h].active == d.groups[h].active
  }

  ghost predicate SameFocus(d: Desk, e: Desk) {
    e.activeGroup == d.activeGroup && e.focusedOutput == d.focusedOutput
  }

  /** The group is the active one of its workspace, which has the focus. */
  ghost predicate Activated(d: Desk, e: Desk, g: Id)
    requires g in d.groups
  {
    var ws := d.groups[g].workspace;
    && ws in d.workspaces && ws in e.workspaces && e.activeGroup == Some(g) && e.workspaces[ws].active == Some(g)
    && e.focusedOutput == d.workspaces[ws].output
  }

  /** A group with a mapped member that is active, on a shown workspace. */
  ghost predicate CanActivate(d: Desk, g: Id)
    requires g in d.groups
  {
    d.groups[g].active.Some? && Visible(d, d.groups[g].workspace)
  }

  ghost function MembersAt(roles: map<Id, Window>, members: seq<Id>, s: Stance): map<Id, Window> {
    map w | w in roles ::
      if w in members then roles[w].(workspace := Some(s.workspace), standing := Within(s.placement)) else roles[w]
  }

  lemma ReseatMembers(d: Desk, g: Id, x: Group)
    requires g in d.groups && x.windows == d.groups[g].windows
    ensures var e := Reseat(d, g, x);
      && Lists(e.groups) == Lists(d.groups) && Stances(e.groups) == Stances(d.groups)[g := StanceOf(x)]
      && Roles(e.windows) == MembersAt(Roles(d.windows), d.groups[g].windows, StanceOf(x))
  {
    GroupUpdate(d.groups, g, x);
    StanceUpdate(d.groups, g, x);
    FollowingRoles(d.windows, x);
    assert Lists(d.groups)[g := d.groups[g].windows] == Lists(d.groups);
  }

  lemma RefocusedSeat(d: Desk, e: Desk, f: Desk, g: Id, s: Stance)
    requires g in d.groups && Reseated(d, e, g, s) && Refocused(e, f)
    ensures Reseated(d, f, g, s) && Layouts(f.workspaces) == Layouts(e.workspaces)
  {
  }

  lemma FocusActiveRefocuses(d: Desk, g: Id)
    ensures Refocused(d, FocusActive(d, g))
  {
    if g in d.groups && d.groups[g].active.Some? {
      FocusRefocuses(d, d.groups[g].active.value);
    }
  }

  /** The active window of the group is fullscreen. */
  ghost predicate CoversScreen(d: Desk, g: Id)
    requires g in d.groups
  {
    exists w :: w in d.windows && d.groups[g].active == Some(w) && d.windows[w].fullscreen
  }

  lemma CoversIsShown(d: Desk, g: Id)
    requires g in d.groups
    ensures CoversScreen(d, g) <==> ShowsFullscreen(d, d.groups[g])
  {
    if ShowsFullscreen(d, d.groups[g]) {
      var w := d.groups[g].active.value;
      assert w in d.windows && d.groups[g].active == Some(w) && d.windows[w].fullscreen;
    }
  }

  // ----- floating and tiling

  /** Main result.  Floating takes exactly a tiled group that does not cover the screen out of the layout
      of its workspace, where it floats, unpinned; everything else is refused without effect. */
  lemma FloatMeaning(d: Desk, g: Id, room: bool)
    requires Inv(d, {})
    ensures var e := FloatGroup(d, g, room);
      if g in d.groups && d.groups[g].placement.Tiled? && !CoversScreen(d, g) && room then
        var ws := d.groups[g].workspace;
        && ws in d.workspaces && ws in e.workspaces && Reseated(d, e, g, Stance(ws, Floating, false, None))
        && Layouts(e.workspaces) == Layouts(d.workspaces)[ws := e.workspaces[ws].layout]
        && Quits(d.workspaces[ws].layout, e.workspaces[ws].layout, g)
        && SameActives(d, e) && (if CanActivate(d, g) then Activated(d, e, g) else SameFocus(d, e))
      else e == d
  {
    if g in d.groups {
      CoversIsShown(d, g);
    }
    if g in d.groups && d.groups[g].placement.Tiled? && !CoversScreen(d, g) && room {
      SoundGroup(d, g);
      FloatedSeat(d, g);
      FloatedFocus(d, g);
      hide Floated, Activated, SameFocus, SameActives;
      FocusActiveRefocuses(Floated(d, g), g);
      RefocusedSeat(d, Floated(d, g), FocusActive(Floated(d, g), g), g,
          Stance(d.groups[g].workspace, Floating, false, None));
      LayoutsAt(Floated(d, g), FocusActive(Floated(d, g), g), d.groups[g].workspace);
    }
  }

  lemma FloatedSeat(d: Desk, g: Id)
    requires Sound(d) && CanFloat(d, g)
    ensures var e, ws := Floated(d, g), d.groups[g].workspace;
      && Reseated(d, e, g, Stance(ws, Floating, false, None)) && ws in e.workspaces
      && Layouts(e.workspaces) == Layouts(d.workspaces)[ws := e.workspaces[ws].layout]
      && Quits(d.workspaces[ws].layout, e.workspaces[ws].layout, g)
  {
    hide Quits;
    var e, ws := Floated(d, g), d.groups[g].workspace;
    SoundGroup(d, g);
    SoundWorkspace(d, ws);
    DepartedQuits(d.workspaces[ws].layout, g, d.nextSplit);
    ReseatMembers(d, g, e.groups[g]);
    SameHomes(d.workspaces, ws, e.workspaces[ws]);
    LayoutUpdate(d.workspaces, ws, e.workspaces[ws]);
  }

  lemma FloatedFocus(d: Desk, g: Id)
    requires Sound(d) && CanFloat(d, g)
    ensures var e := FocusActive(Floated(d, g), g);
      SameActives(d, e) && if CanActivate(d, g) then Activated(d, e, g) else SameFocus(d, e)
  {
    FloatedSound(d, g);
    FocusActiveMeaning(Floated(d, g), g);
    hide Sound;
  }

  lemma LayoutUpdate(workspaces: map<Id, Workspace>, ws: Id, x: Workspace)
    ensures Layouts(workspaces[ws := x]) == Layouts(workspaces)[ws := x.layout]
  {
  }

  /** Main result.  Tiling seats exactly a floating group that does not cover the screen in the layout of
      its workspace, and clears its pin. */
  lemma TileMeaning(d: Desk, g: Id, r: real)
    requires Inv(d, {})
    ensures var e := TileGroup(d, g, r);
      if g in d.groups && d.groups[g].placement.Floating? && !CoversScreen(d, g) then
        var ws := d.groups[g].workspace;
        && ws in d.workspaces && ws in e.workspaces && Reseated(d, e, g, Stance(ws, Tiled, true, None))
        && Layouts(e.workspaces) == Layouts(d.workspaces)[ws := e.workspaces[ws].layout]
        && Joins(d.workspaces[ws].layout, e.workspaces[ws].layout, g, d.workspaces[ws].active, d.nextSplit,
             Frame(Horizontal, r))
        && SameActives(d, e) && (if CanActivate(d, g) then Activated(d, e, g) else SameFocus(d, e))
      else e == d
  {
    if g in d.groups {
      CoversIsShown(d, g);
    }
    if g in d.groups && d.groups[g].placement.Floating? && !CoversScreen(d, g) {
      SoundGroup(d, g);
      TiledSeat(d, g, r);
      TiledFocus(d, g, r);
      hide TiledAgain, Activated, SameFocus, SameActives;
      FocusActiveRefocuses(TiledAgain(d, g, r), g);
      RefocusedSeat(d, TiledAgain(d, g, r), FocusActive(TiledAgain(d, g, r), g), g,
          Stance(d.groups[g].workspace, Tiled, true, None));
      LayoutsAt(TiledAgain(d, g, r), FocusActive(TiledAgain(d, g, r), g), d.groups[g].workspace);
    }
  }

  lemma TiledSeat(d: Desk, g: Id, r: real)
    requires Sound(d) && CanTile(d, g)
    ensures var e, ws := TiledAgain(d, g, r), d.groups[g].workspace;
      && Reseated(d, e, g, Stance(ws, Tiled, true, None)) && ws in e.workspaces
      && Layouts(e.workspaces) == Layouts(d.workspaces)[ws := e.workspaces[ws].layout]
      && Joins(d.workspaces[ws].layout, e.workspaces[ws].layout, g, d.workspaces[ws].active, d.nextSplit,
             Frame(Horizontal, r))
  {
    hide Joins;
    var e, ws := TiledAgain(d, g, r), d.groups[g].workspace;
    SoundGroup(d, g);
    EnteredJoins(d, ws, g, Horizontal, r);
    ReseatMembers(d, g, e.groups[g]);
    SameHomes(d.workspaces, ws, e.workspaces[ws]);
    LayoutUpdate(d.workspaces, ws, e.workspaces[ws]);
  }

  lemma TiledFocus(d: Desk, g: Id, r: real)
    requires Sound(d) && CanTile(d, g)
    ensures var e := FocusActive(TiledAgain(d, g, r), g);
      SameActives(d, e) && if CanActivate(d, g) then Activated(d, e, g) else SameFocus(d, e)
  {
    TiledAgainSound(d, g, r);
    FocusActiveMeaning(TiledAgain(d, g, r), g);
    hide Sound;
  }

  // ----- to another workspace

  /** Main result.  A tiled group arrives on another workspace that is on an output: it leaves the one
      layout and joins the other; everything else is refused without effect. */
  lemma MoveTiledMeaning(d: Desk, g: Id, target: Id, r: real)
    requires Inv(d, {}) && g in d.groups && d.groups[g].placement.Tiled?
    ensures var e, source := MoveTiled(d, g, target, r), d.groups[g].workspace;
      if OutputOf(d, target).Some? && source != target then
        && source in d.workspaces && source in e.workspaces && target in e.workspaces
        && Reseated(d, e, g, Stance(target, Tiled, true, d.groups[g].pin))
        && Layouts(e.workspaces) ==
             Layouts(d.workspaces)[source := e.workspaces[source].layout][target := e.workspaces[target].layout]
        && SameActives(d, e) && e.focusedOutput == d.focusedOutput
        && Quits(d.workspaces[source].layout, e.workspaces[source].layout, g)
        && Joins(d.workspaces[target].layout, e.workspaces[target].layout, g, d.workspaces[target].active, d.nextSplit,
             Frame(Horizontal, r))
      else e == d
  {
    hide Quits, Joins, Sound;
    SoundGroup(d, g);
    if OutputOf(d, target).Some? && d.groups[g].workspace != target {
      MovedSeat(d, g, target, r);
      MovedFocus(d, g, target, r);
      hide MoveTiled, Reseated, SameActives;
    }
  }

  lemma MovedSeat(d: Desk, g: Id, target: Id, r: real)
    requires Sound(d) && CanMoveTiled(d, g, target)
    ensures var e, source := MoveTiled(d, g, target, r), d.groups[g].workspace;
      && source in e.workspaces && target in e.workspaces
      && Reseated(d, e, g, Stance(target, Tiled, true, d.groups[g].pin))
      && Layouts(e.workspaces) ==
           Layouts(d.workspaces)[source := e.workspaces[source].layout][target := e.workspaces[target].layout]
      && Quits(d.workspaces[source].layout, e.workspaces[source].layout, g)
      && Joins(d.workspaces[target].layout, e.workspaces[target].layout, g, d.workspaces[target].active, d.nextSplit,
           Frame(Horizontal, r))
  {
    SoundGroup(d, g);
    var e, source := MoveTiled(d, g, target, r), d.groups[g].workspace;
    SoundWorkspace(d, source);
    SoundWorkspace(d, target);
    hide Quits, Joins, Sound, LayoutSound, LastIn;
    DepartedQuits(d.workspaces[source].layout, g, d.nextSplit);
    EnteredJoins(d, target, g, Horizontal, r);
    ReseatMembers(d, g, d.groups[g].(workspace := target));
    MovedHomes(d.workspaces, source, e.workspaces[source], target, e.workspaces[target]);
    LayoutUpdate(d.workspaces, source, e.workspaces[source]);
    LayoutUpdate(d.workspaces[source := e.workspaces[source]], target, e.workspaces[target]);
  }

  lemma MovedFocus(d: Desk, g: Id, target: Id, r: real)
    requires CanMoveTiled(d, g, target)
    ensures var e := MoveTiled(d, g, target, r);
      SameActives(d, e) && e.focusedOutput == d.focusedOutput
  {
  }

  /** Main result.  A floating group without a pin arrives on another workspace that is on an output, and
      no layout changes; a pinned one, and everything else, is refused without effect. */
  lemma MoveUnpinnedMeaning(d: Desk, g: Id, target: Id, r: real)
    requires Inv(d, {}) && g in d.groups && d.groups[g].placement.Floating?
    ensures var e := MoveGroupToWorkspace(d, g, target, r);
      if d.groups[g].pin.None? && OutputOf(d, target).Some? && d.groups[g].workspace != target then
        && Reseated(d, e, g, Stance(target, Floating, false, None))
        && Layouts(e.workspaces) == Layouts(d.workspaces)
        && SameActives(d, e) && e.focusedOutput == d.focusedOutput && d.groups[g].workspace in e.workspaces
        && (d.activeGroup != Some(g) ==> e.activeGroup == d.activeGroup)
        && (d.activeGroup == Some(g) ==> e.activeGroup == e.workspaces[d.groups[g].workspace].active)
      else e == d
  {
    hide Sound;
    SoundGroup(d, g);
    if d.groups[g].pin.None? && OutputOf(d, target).Some? && d.groups[g].workspace != target {
      MoveFloatingEffects(d, g, target, false);
      ReseatMembers(d, g, Carried(d, g, target));
    }
  }

  // ----- pins

  /** Main result.  Pinning a floating group of an output puts it on the workspace that the output shows;
      unpinning leaves it where it is; no layout and no other group changes. */
  lemma SetPinnedMeaning(d: Desk, g: Id, pinned: bool)
    requires Inv(d, {}) && g in d.groups
    ensures var e, o := SetPinned(d, g, pinned), OutputOf(d, d.groups[g].workspace);
      if d.groups[g].placement.Floating? && o.Some? then
        && o.value in d.outputs && d.outputs[o.value].visible.Some?
        && Reseated(d, e, g, if pinned then Stance(d.outputs[o.value].visible.value, Floating, false, o)
                             else Stance(d.groups[g].workspace, Floating, false, None))
        && Layouts(e.workspaces) == Layouts(d.workspaces) && SameActives(d, e) && SameFocus(d, e)
      else e == d
  {
    hide Sound;
    SoundGroup(d, g);
    var o := OutputOf(d, d.groups[g].workspace);
    if d.groups[g].placement.Floating? && o.Some? {
      OutputShows(d, d.groups[g].workspace);
      AssignedVisible(d, o.value);
      PinOnly(d, g, if pinned then o else None);
      if pinned && d.outputs[o.value].visible != Some(d.groups[g].workspace) {
        PinCarries(d, g, d.outputs[o.value].visible.value);
      }
    }
  }

  lemma PinOnly(d: Desk, g: Id, pin: Option<Id>)
    requires Sound(d) && g in d.groups
    ensures var e := WithGroup(d, g, d.groups[g].(pin := pin));
      Reseated(d, e, g, StanceOf(d.groups[g]).(pin := pin)) && Layouts(e.workspaces) == Layouts(d.workspaces)
  {
    var s := StanceOf(d.groups[g]).(pin := pin);
    PinOnlySound(d, g, pin);
    SoundGroup(d, g);
    assert forall w :: w in d.windows ==> Roles(d.windows)[w] == d.windows[w].(fullscreen := false);
    assert Roles(d.windows) == MembersAt(Roles(d.windows), d.groups[g].windows, s);
  }

  lemma PinCarries(d: Desk, g: Id, v: Id)
    requires Sound(d) && g in d.groups && d.groups[g].placement.Floating? && d.groups[g].workspace != v
    requires OutputOf(d, v).Some? && OutputOf(d, v) == OutputOf(d, d.groups[g].workspace)
    ensures var o := OutputOf(d, v);
      var e := MoveFloating(WithGroup(d, g, d.groups[g].(pin := o)), g, v, true);
      Reseated(d, e, g, Stance(v, Floating, false, o)) && Layouts(e.workspaces) == Layouts(d.workspaces)
  {
    hide Sound;
    SoundGroup(d, g);
    var p := WithGroup(d, g, d.groups[g].(pin := OutputOf(d, v)));
    MoveFloatingEffects(p, g, v, true);
    ReseatMembers(p, g, Carried(p, g, v));
    GroupUpdate(d.groups, g, p.groups[g]);
    StanceUpdate(d.groups, g, p.groups[g]);
    assert Lists(d.groups)[g := d.groups[g].windows] == Lists(d.groups);
    Overwritten(Stances(d.groups), g, StanceOf(p.groups[g]), StanceOf(Carried(p, g, v)));
  }

  // ----- within the layout

  /** Only the layout of one workspace changes, and there the registry stays. */
  ghost predicate OnlyOrder(d: Desk, e: Desk, ws: Id, order: seq<Id>)
    requires ws in d.workspaces
  {
    && e.groups == d.groups && e.windows == d.windows && e.groupOrder == d.groupOrder && SameOutputs(d, e)
    && ws in e.workspaces && Layouts(e.workspaces) == Layouts(d.workspaces)[ws := e.workspaces[ws].layout]
    && OrderOf(e.workspaces[ws].layout) == order
    && SameFocus(d, e) && e.workspaces[ws].active == d.workspaces[ws].active
  }

  lemma WithLayoutOnly(d: Desk, ws: Id, l: Tiling, splits: Id)
    requires ws in d.workspaces
    ensures OnlyOrder(d, WithLayout(d, ws, l, splits), ws, OrderOf(l))
  {
    var e := WithLayout(d, ws, l, splits);
    SameHomes(d.workspaces, ws, e.workspaces[ws]);
    LayoutUpdate(d.workspaces, ws, e.workspaces[ws]);
  }

  /** Two different tiled groups of one workspace. */
  ghost predicate Neighbours(d: Desk, a: Id, b: Id)
    requires a in d.groups && b in d.groups
  {
    && a != b && d.groups[a].workspace == d.groups[b].workspace
    && d.groups[a].placement.Tiled? && d.groups[b].placement.Tiled?
  }

  lemma NeighboursMove(d: Desk, a: Id, b: Id)
    requires Sound(d) && a in d.groups && b in d.groups
    ensures CanRelocate(d, a, b) <==> Neighbours(d, a, b)
    ensures Neighbours(d, a, b) ==>
      var ws := d.groups[a].workspace;
      && ws in d.workspaces && LayoutSound(d.workspaces[ws].layout, d.nextSplit) && d.workspaces[ws].layout.tree.Some?
      && a in d.workspaces[ws].layout.tiles && b in d.workspaces[ws].layout.tiles
  {
    SoundGroup(d, a);
    SoundGroup(d, b);
    SoundWorkspace(d, d.groups[a].workspace);
  }

  lemma RelocatedOrder(l: Tiling, g: Id, target: Id, dir: Direction, splits: Id, r: real)
    requires LayoutSound(l, splits) && l.tree.Some? && g in l.tiles && target in l.tiles && g != target
    ensures var others := Without(OrderOf(l), g);
      Leaves(Relocate(l.tree.value, g, target, dir, splits, r))
      == if dir == Left || dir == Up then InsertBefore(others, target, g) else InsertAfter(others, target, g)
  {
    RelocateMeaning(l.tree.value, g, target, dir, splits, r, 0);
  }

  /** Main result.  A relative move puts a tiled group right before the target in the order, going left or
      up, and right after it going right or down; without two tiled groups of one workspace nothing happens. */
  lemma RelocateGroupMeaning(d: Desk, g: Id, target: Id, dir: Direction, r: real)
    requires Inv(d, {}) && g in d.groups && target in d.groups
    ensures var e, ws := RelocateGroup(d, g, target, dir, r), d.groups[g].workspace;
      if Neighbours(d, g, target) then
        && ws in d.workspaces
        && var others := Without(OrderOf(d.workspaces[ws].layout), g);
        && OnlyOrder(d, e, ws, if dir == Left || dir == Up then InsertBefore(others, target, g)
                               else InsertAfter(others, target, g))
        && e.workspaces[ws].layout.tiles == d.workspaces[ws].layout.tiles
      else e == d
  {
    hide Sound, OnlyOrder;
    NeighboursMove(d, g, target);
    if Neighbours(d, g, target) {
      var ws := d.groups[g].workspace;
      var l := d.workspaces[ws].layout;
      RelocatedOrder(l, g, target, dir, d.nextSplit, r);
      WithLayoutOnly(d, ws, l.(tree := Some(Relocate(l.tree.value, g, target, dir, d.nextSplit, r))), d.nextSplit + 1);
    }
  }

  /** A relative move makes one new split, split along the direction, in place of the one above the group;
      all other splits keep orientation and ratio. */
  lemma RelocateGroupFrames(d: Desk, g: Id, target: Id, dir: Direction, r: real, k: Id)
    requires Inv(d, {}) && g in d.groups && target in d.groups && Neighbours(d, g, target)
    ensures var e, ws := RelocateGroup(d, g, target, dir, r), d.groups[g].workspace;
      && ws in d.workspaces && ws in e.workspaces
      && FrameIn(e.workspaces[ws].layout, k) ==
         if k == d.nextSplit then Some(Frame(if dir == Left || dir == Right then Horizontal else Vertical, r))
         else if Above(d.workspaces[ws].layout, g) == Some(k) then None
         else FrameIn(d.workspaces[ws].layout, k)
  {
    hide Sound;
    NeighboursMove(d, g, target);
    RelocateMeaning(d.workspaces[d.groups[g].workspace].layout.tree.value, g, target, dir, d.nextSplit, r, k);
  }

  lemma ExchangedOrder(l: Tiling, a: Id, b: Id, splits: Id)
    requires LayoutSound(l, splits) && l.tree.Some?
    ensures Leaves(Exchange(l.tree.value, a, b)) == Renamed(OrderOf(l), a, b)
    ensures forall k: Id :: FrameOf(Exchange(l.tree.value, a, b), k) == FrameOf(l.tree.value, k)
  {
    ExchangeMeaning(l.tree.value, a, b, 0);
    forall k: Id ensures FrameOf(Exchange(l.tree.value, a, b), k) == FrameOf(l.tree.value, k) {
      ExchangeMeaning(l.tree.value, a, b, k);
    }
  }

  /** Main result.  Exchanging two tiled groups of a workspace gives each the other's place in the order and
      in the registry, and touches no split. */
  lemma SwapGroupsMeaning(d: Desk, a: Id, b: Id)
    requires Inv(d, {}) && a in d.groups && b in d.groups
    ensures var e, ws := SwapGroups(d, a, b), d.groups[a].workspace;
      if Neighbours(d, a, b) then
        && ws in d.workspaces && OnlyOrder(d, e, ws, Renamed(OrderOf(d.workspaces[ws].layout), a, b))
        && e.workspaces[ws].layout.tiles == Renamed(d.workspaces[ws].layout.tiles, a, b)
        && forall k :: FrameIn(e.workspaces[ws].layout, k) == FrameIn(d.workspaces[ws].layout, k)
      else e == d
  {
    hide Sound, OnlyOrder;
    NeighboursMove(d, a, b);
    if Neighbours(d, a, b) {
      var ws := d.groups[a].workspace;
      var l := d.workspaces[ws].layout;
      ExchangedOrder(l, a, b, d.nextSplit);
      WithLayoutOnly(d, ws, Tiling(Some(Exchange(l.tree.value, a, b)), Renamed(l.tiles, a, b)), d.nextSplit);
    }
  }

  /** Main result.  Resizing or turning a split changes its frame, no other split, and no place in the order. */
  lemma ReframeSplitMeaning(d: Desk, ws: Id, k: Id, f: Frame, j: Id)
    requires Inv(d, {}) && ws in d.workspaces
    ensures var e, l := ReframeSplit(d, ws, k, f), d.workspaces[ws].layout;
      && OnlyOrder(d, e, ws, OrderOf(l)) && e.workspaces[ws].layout.tiles == l.tiles
      && FrameIn(e.workspaces[ws].layout, j) == if j == k && FrameIn(l, k).Some? then Some(f) else FrameIn(l, j)
  {
    hide OnlyOrder;
    SoundWorkspace(d, ws);
    var l := d.workspaces[ws].layout;
    if l.tree.Some? {
      ReframeMeaning(l.tree.value, k, f, j);
      FramesAreSplitSet(l.tree.value, k);
      WithLayoutOnly(d, ws, l.(tree := Some(Reframe(l.tree.value, k, f))), d.nextSplit);
    } else {
      NothingReframed(d, ws, k, f);
    }
  }

  lemma NothingReframed(d: Desk, ws: Id, k: Id, f: Frame)
    requires ws in d.workspaces && d.workspaces[ws].layout.tree.None?
    ensures OnlyOrder(d, ReframeSplit(d, ws, k, f), ws, [])
  {
  }
}
