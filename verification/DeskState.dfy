/** Windows, groups, workspaces and outputs as one state, and the invariants that hold between
operations.  Objects are named by their ids; the lists of the compositor are sequences of ids. */
module DeskState {
  import opened Seqs
  import opened LayoutTree

  type Id = int

  datatype Placement = Tiled | Floating

  /** Where a window stands: in a group of some placement, or as a transient of another window. */
  datatype Standing = Within(placement: Placement) | Transient

  datatype Window = Window(group: Option<Id>, workspace: Option<Id>, standing: Standing, mapped: bool, fullscreen: bool)

  datatype Group = Group(
    workspace: Id, placement: Placement, windows: seq<Id>, windowCount: int,
    active: Option<Id>, hasTile: bool, pin: Option<Id>)

  /** The tree of a workspace by groups, and its tile registry, which lists the groups of the tiles. */
  type Tiling = TreeLayout<Id, Id>

  datatype Workspace = Workspace(
    output: Option<Id>, affinity: Option<Id>, startup: bool, active: Option<Id>, layout: Tiling)

  datatype Output = Output(name: Id, visible: Option<Id>, assignments: seq<Id>)

  datatype Desk = Desk(
    windows: map<Id, Window>,
    groups: map<Id, Group>, groupOrder: seq<Id>, activeGroup: Option<Id>,
    workspaces: map<Id, Workspace>, workspaceOrder: seq<Id>,
    outputs: map<Id, Output>, outputOrder: seq<Id>, focusedOutput: Option<Id>,
    nextWindow: Id, nextGroup: Id, nextWorkspace: Id, nextSplit: Id)

  // ----- invariants

  ghost predicate LayoutSound(l: Tiling, splits: Id) {
    && NoDup(l.tiles)
    && match l.tree
       case None => l.tiles == []
       case Some(t) =>
         && Distinct(t) && (forall g: Id :: g in LeafSet<Id, Id>(t) <==> g in l.tiles)
         && forall k: Id :: k in SplitSet<Id, Id>(t) ==> k < splits
  }

  // What one kind of object needs to know about the others.

  datatype Seat = Seat(workspace: Id, hasTile: bool)

  ghost function Seats(groups: map<Id, Group>): map<Id, Seat> {
    map g | g in groups :: Seat(groups[g].workspace, groups[g].hasTile)
  }

  ghost function Lists(groups: map<Id, Group>): map<Id, seq<Id>> {
    map g | g in groups :: groups[g].windows
  }

  ghost function Registries(workspaces: map<Id, Workspace>): map<Id, seq<Id>> {
    map ws | ws in workspaces :: workspaces[ws].layout.tiles
  }

  ghost function Roles(windows: map<Id, Window>): map<Id, Window> {
    map w | w in windows :: windows[w].(fullscreen := false)
  }

  ghost predicate Belongs(w: Window, id: Id, g: Group) {
    w.group == Some(id) && w.workspace == Some(g.workspace) && w.standing == Within(g.placement)
  }

  /** A group's list, count, members, active window, workspace and tile agree. */
  ghost predicate GroupSound(windows: map<Id, Window>, registries: map<Id, seq<Id>>, next: Id, id: Id, g: Group) {
    && id < next && g.windowCount == |g.windows| && NoDup(g.windows)
    && (forall w :: w in g.windows ==> w in windows && Belongs(windows[w], id, g))
    && (g.active.Some? ==> g.active.value in g.windows && windows[g.active.value].mapped)
    && (g.hasTile <==> g.placement.Tiled?)
    && g.workspace in registries && (g.hasTile <==> id in registries[g.workspace])
  }

  /** A window that has a group is in that group's list. */
  ghost predicate WindowSound(lists: map<Id, seq<Id>>, next: Id, id: Id, w: Window) {
    id < next && (w.group.Some? ==> w.group.value in lists && id in lists[w.group.value])
  }

  /** A workspace's registry lists exactly its tiled groups, and it has an active group exactly when it
      has a group. */
  ghost predicate WorkspaceSound(seats: map<Id, Seat>, next: Id, splits: Id, id: Id, ws: Workspace) {
    && id < next && LayoutSound(ws.layout, splits)
    && (forall g :: g in ws.layout.tiles ==> g in seats && seats[g] == Seat(id, true))
    && (ws.active.Some? ==> ws.active.value in seats && seats[ws.active.value].workspace == id)
    && (ws.active.None? ==> forall g :: g in seats ==> seats[g].workspace != id)
  }

  ghost predicate OrderSound(order: seq<Id>, groups: set<Id>, active: Option<Id>) {
    && NoDup(order) && (forall g :: g in order <==> g in groups)
    && (active.Some? ==> active.value in groups)
  }

  ghost predicate GroupsSound(d: Desk) {
    forall g :: g in d.groups ==> GroupSound(Roles(d.windows), Registries(d.workspaces), d.nextGroup, g, d.groups[g])
  }

  ghost predicate WindowsSound(d: Desk) {
    forall w :: w in d.windows ==> WindowSound(Lists(d.groups), d.nextWindow, w, d.windows[w])
  }

  ghost predicate WorkspacesSound(d: Desk) {
    forall ws :: ws in d.workspaces ==>
      WorkspaceSound(Seats(d.groups), d.nextWorkspace, d.nextSplit, ws, d.workspaces[ws])
  }

  ghost predicate Sound(d: Desk) {
    && OrderSound(d.groupOrder, d.groups.Keys, d.activeGroup)
    && GroupsSound(d) && WindowsSound(d) && WorkspacesSound(d)
  }

  /** What `Sound` says of one group and its members. */
  lemma SoundGroup(d: Desk, g: Id)
    requires Sound(d) && g in d.groups
    ensures var x := d.groups[g];
      && g < d.nextGroup && x.windowCount == |x.windows| && NoDup(x.windows)
      && (forall w :: w in x.windows ==> w in d.windows && Belongs(d.windows[w], g, x))
      && (x.active.Some? ==> x.active.value in x.windows && x.active.value in d.windows && d.windows[x.active.value].mapped)
      && (x.hasTile <==> x.placement.Tiled?)
      && x.workspace in d.workspaces && (x.hasTile <==> g in d.workspaces[x.workspace].layout.tiles)
  {
    assert GroupSound(Roles(d.windows), Registries(d.workspaces), d.nextGroup, g, d.groups[g]);
    assert forall w :: w in d.windows ==> Roles(d.windows)[w] == d.windows[w].(fullscreen := false);
  }

  lemma SoundWindow(d: Desk, w: Id)
    requires Sound(d) && w in d.windows
    ensures w < d.nextWindow
    ensures d.windows[w].group.Some? ==>
      d.windows[w].group.value in d.groups && w in d.groups[d.windows[w].group.value].windows
  {
    assert WindowSound(Lists(d.groups), d.nextWindow, w, d.windows[w]);
  }

  lemma SoundWorkspace(d: Desk, ws: Id)
    requires Sound(d) && ws in d.workspaces
    ensures var x := d.workspaces[ws];
      && ws < d.nextWorkspace && LayoutSound(x.layout, d.nextSplit)
      && (forall g :: g in x.layout.tiles ==> g in d.groups && d.groups[g].workspace == ws && d.groups[g].hasTile)
      && (x.active.Some? ==> x.active.value in d.groups && d.groups[x.active.value].workspace == ws)
      && (x.active.None? ==> forall g :: g in d.groups ==> d.groups[g].workspace != ws)
  {
    assert WorkspaceSound(Seats(d.groups), d.nextWorkspace, d.nextSplit, ws, d.workspaces[ws]);
    assert forall g :: g in d.groups ==> Seats(d.groups)[g] == Seat(d.groups[g].workspace, d.groups[g].hasTile);
  }

  /** No group is empty, except possibly those of `spare`. */
  ghost predicate NonEmptyBut(d: Desk, spare: set<Id>) {
    var lists := Lists(d.groups);
    forall g :: g in lists && g !in spare ==> lists[g] != []
  }

  // ----- searches

  /** The last mapped window of a list. */
  ghost function LastMapped(windows: map<Id, Window>, list: seq<Id>): (r: Option<Id>)
    ensures r.Some? ==> r.value in list && r.value in windows && windows[r.value].mapped
  {
    if list == [] then None
    else
      var w := list[|list| - 1];
      if w in windows && windows[w].mapped then Some(w) else LastMapped(windows, list[..|list| - 1])
  }

  /** The group of the workspace that was created last. */
  ghost function LastIn(groups: map<Id, Group>, order: seq<Id>, ws: Id): (r: Option<Id>)
    ensures r.Some? ==> r.value in order && r.value in groups && groups[r.value].workspace == ws
    ensures r.None? ==> forall g :: g in order && g in groups ==> groups[g].workspace != ws
  {
    if order == [] then None
    else
      var g := order[|order| - 1];
      if g in groups && groups[g].workspace == ws then Some(g) else LastIn(groups, order[..|order| - 1], ws)
  }

  ghost predicate Visible(d: Desk, ws: Id) {
    && ws in d.workspaces && d.workspaces[ws].output.Some? && d.workspaces[ws].output.value in d.outputs
    && d.outputs[d.workspaces[ws].output.value].visible == Some(ws)
  }

  ghost function FocusedWorkspace(d: Desk): Option<Id> {
    if d.focusedOutput.Some? && d.focusedOutput.value in d.outputs then d.outputs[d.focusedOutput.value].visible
    else None
  }

  // ----- small updates

  ghost function WithGroup(d: Desk, id: Id, g: Group): Desk {
    d.(groups := d.groups[id := g])
  }

  ghost function WithWindow(d: Desk, id: Id, w: Window): Desk {
    d.(windows := d.windows[id := w])
  }

  ghost function WithWorkspace(d: Desk, id: Id, ws: Workspace): Desk {
    d.(workspaces := d.workspaces[id := ws])
  }

  // ----- layouts

  /** The tile a new one is placed after: the active group's, else the last registered one. */
  function Anchor(d: Desk, ws: Id): Option<Id>
    requires ws in d.workspaces
  {
    var w := d.workspaces[ws];
    if w.active.Some? && w.active.value in d.groups && d.groups[w.active.value].hasTile then w.active
    else if w.layout.tiles == [] then None
    else Some(w.layout.tiles[|w.layout.tiles| - 1])
  }

  lemma EnteredSound(l: Tiling, anchor: Option<Id>, g: Id, split: Id, o: Orientation, r: real)
    requires LayoutSound(l, split) && g !in l.tiles
    requires l.tiles != [] ==> anchor.Some? && anchor.value in l.tiles
    ensures LayoutSound(Entered(l, anchor, g, split, o, r), split + 1)
    ensures forall h :: h in Entered(l, anchor, g, split, o, r).tiles <==> h in l.tiles || h == g
  {
    if l.tree.Some? {
      var t := l.tree.value;
      FirstLeafLeads(t);
      var leaf: Id := FirstLeaf(t);
      assert leaf in l.tiles;
      AddMeaning(t, anchor.value, g, split, o, r, split);
    }
    NoDupConcat(l.tiles, [g]);
  }

  lemma DepartedSound(l: Tiling, g: Id, splits: Id)
    requires LayoutSound(l, splits) && g in l.tiles
    ensures LayoutSound(Departed(l, g), splits)
    ensures forall h :: h in Departed(l, g).tiles <==> h in l.tiles && h != g
  {
    var t := l.tree.value;
    forall h ensures h in Without(l.tiles, g) <==> h in l.tiles && h != g {
      WithoutMember(l.tiles, g, h);
    }
    WithoutNoDup(l.tiles, g);
    RemoveEmpties(t, g);
    if t != Leaf(g) {
      RemoveMeaning(t, g, 0);
    } else if Without(l.tiles, g) != [] {
      HeadIsMember(Without(l.tiles, g));
    }
  }

  /** Adding and then removing a group restores tree and registry. */
  lemma LeaveUndoesEnter(l: Tiling, anchor: Option<Id>, g: Id, split: Id, o: Orientation, r: real, splits: Id)
    requires LayoutSound(l, splits) && g !in l.tiles
    requires l.tiles != [] ==> anchor.Some? && anchor.value in l.tiles
    ensures Departed(Entered(l, anchor, g, split, o, r), g) == l
  {
    WithoutConcat(l.tiles, [g], g);
    WithoutElsewhere(l.tiles, g);
    if l.tree.Some? {
      FirstLeafLeads(l.tree.value);
      var leaf: Id := FirstLeaf(l.tree.value);
      assert leaf in l.tiles;
      RemoveUndoesAdd(l.tree.value, anchor.value, g, split, o, r);
    }
  }
}
