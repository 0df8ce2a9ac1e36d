/** Moving windows between groups: what happens to the lists, the groups and the layouts. */
module DeskWindows {
  import opened Seqs
  import opened LayoutTree
  import opened DeskState
  import opened DeskSteps

  // ----- what a step leaves alone

  datatype Stance = Stance(workspace: Id, placement: Placement, hasTile: bool, pin: Option<Id>)

  ghost function StanceOf(g: Group): Stance {
    Stance(g.workspace, g.placement, g.hasTile, g.pin)
  }

  ghost function Stances(groups: map<Id, Group>): map<Id, Stance> {
    map g | g in groups :: StanceOf(groups[g])
  }

  ghost function Layouts(workspaces: map<Id, Workspace>): map<Id, Tiling> {
    map ws | ws in workspaces :: workspaces[ws].layout
  }

  /** The output a workspace is assigned to, its affinity and whether it starts up visible. */
  ghost function Homes(workspaces: map<Id, Workspace>): map<Id, Workspace> {
    map ws | ws in workspaces :: workspaces[ws].(active := None, layout := Tiling(None, []))
  }

  ghost predicate SameOutputs(d: Desk, e: Desk) {
    && e.outputs == d.outputs && e.outputOrder == d.outputOrder
    && Homes(e.workspaces) == Homes(d.workspaces) && e.workspaceOrder == d.workspaceOrder
    && (e.focusedOutput == d.focusedOutput || (e.focusedOutput.Some? && e.focusedOutput.value in e.outputs))
  }

  /** `e` differs from `d` only in which groups and windows are active, what is fullscreen, and which
      output has the focus. */
  ghost predicate Refocused(d: Desk, e: Desk) {
    && Lists(e.groups) == Lists(d.groups) && Stances(e.groups) == Stances(d.groups) && e.groupOrder == d.groupOrder
    && Roles(e.windows) == Roles(d.windows) && Layouts(e.workspaces) == Layouts(d.workspaces) && SameOutputs(d, e)
    && e.nextGroup == d.nextGroup && e.nextSplit == d.nextSplit && e.nextWorkspace == d.nextWorkspace
  }

  lemma FocusRefocuses(d: Desk, w: Id)
    ensures Refocused(d, FocusWindow(d, w))
  {
    if Focusable(d, w) {
      UnfullscreenedRoles(d, w, d.groups[d.windows[w].group.value].workspace);
    }
  }

  lemma RefocusedGroups(d: Desk, e: Desk)
    requires Refocused(d, e)
    ensures e.groups.Keys == d.groups.Keys && e.windows.Keys == d.windows.Keys && e.workspaces.Keys == d.workspaces.Keys
    ensures forall g :: g in d.groups ==>
      e.groups[g].windows == d.groups[g].windows && StanceOf(e.groups[g]) == StanceOf(d.groups[g])
    ensures forall w :: w in d.windows ==> e.windows[w].(fullscreen := false) == d.windows[w].(fullscreen := false)
    ensures forall ws :: ws in d.workspaces ==> e.workspaces[ws].layout == d.workspaces[ws].layout
  {
    assert forall g :: g in d.groups ==> g in Lists(d.groups) && g in Stances(d.groups);
    assert Lists(e.groups).Keys == e.groups.Keys && Lists(d.groups).Keys == d.groups.Keys;
    assert Roles(e.windows).Keys == e.windows.Keys && Roles(d.windows).Keys == d.windows.Keys;
    assert Layouts(e.workspaces).Keys == e.workspaces.Keys && Layouts(d.workspaces).Keys == d.workspaces.Keys;
    assert forall g :: g in d.groups ==> Lists(e.groups)[g] == Lists(d.groups)[g] && Stances(e.groups)[g] == Stances(d.groups)[g];
    assert forall w :: w in d.windows ==> Roles(e.windows)[w] == Roles(d.windows)[w];
    assert forall ws :: ws in d.workspaces ==> Layouts(e.workspaces)[ws] == Layouts(d.workspaces)[ws];
  }

  // ----- moving one window

  ghost predicate CanMoveWindow(d: Desk, w: Id, target: Id) {
    && w in d.windows && d.windows[w].group.Some? && d.windows[w].group != Some(target)
    && d.windows[w].group.value in d.groups && target in d.groups
  }

  /** The window changes lists, and its old group is destroyed when it was the last member. */
  ghost function Transferred(d: Desk, w: Id, target: Id): Desk
    requires CanMoveWindow(d, w, target)
  {
    var source := d.windows[w].group.value;
    var e := AddWindow(Leave(d, w), target, w);
    if source in e.groups && e.groups[source].windowCount == 0 then DestroyGroup(e, source) else e
  }

  ghost function MoveWindow(d: Desk, w: Id, target: Id): Desk {
    if !CanMoveWindow(d, w, target) then d
    else
      var e := Transferred(d, w, target);
      if d.windows[w].mapped then FocusWindow(e, w) else e
  }

  lemma TransferredSound(d: Desk, w: Id, target: Id)
    requires Sound(d) && CanMoveWindow(d, w, target)
    ensures Sound(Transferred(d, w, target))
  {
    var source, e := d.windows[w].group.value, AddWindow(Leave(d, w), target, w);
    LeaveSound(d, w);
    AddWindowSound(Leave(d, w), target, w);
    if e.groups[source].windowCount == 0 {
      SoundGroup(e, source);
      DestroyGroupSound(e, source);
    }
  }

  lemma MoveWindowSound(d: Desk, w: Id, target: Id)
    requires Sound(d)
    ensures Sound(MoveWindow(d, w, target))
  {
    if CanMoveWindow(d, w, target) {
      TransferredSound(d, w, target);
      FocusWindowSound(Transferred(d, w, target), w);
    }
  }

  ghost predicate WindowsMoved(windows: map<Id, Window>, windows': map<Id, Window>, target: Id, moved: seq<Id>) {
    && windows'.Keys == windows.Keys
    && (forall w :: w in windows ==> windows'[w].mapped == windows[w].mapped)
    && (forall w :: w in windows && w in moved ==> windows'[w].group == Some(target))
    && (forall w :: w in windows && w !in moved ==> windows'[w].group == windows[w].group)
  }

  /** `e` is `d` after the windows `moved` left `source`, keeping `rest` there, and joined the end of
      `target`; a source without windows is destroyed and leaves the layout. */
  ghost predicate ListsMoved(d: Desk, e: Desk, source: Id, rest: seq<Id>, target: Id, moved: seq<Id>)
    requires source in d.groups && target in d.groups
  {
    var gone := if rest == [] then {source} else {};
    && Lists(e.groups) == Lists(d.groups)[source := rest][target := d.groups[target].windows + moved] - gone
    && Stances(e.groups) == Stances(d.groups) - gone
    && e.groupOrder == (if rest == [] then Without(d.groupOrder, source) else d.groupOrder)
    && Layouts(e.workspaces) == LayoutsAfter(d, source, rest == [])
    && SameOutputs(d, e) && WindowsMoved(d.windows, e.windows, target, moved)
    && e.nextGroup == d.nextGroup && e.nextSplit == d.nextSplit && e.nextWorkspace == d.nextWorkspace
  }

  ghost function LayoutsAfter(d: Desk, source: Id, destroyed: bool): map<Id, Tiling>
    requires source in d.groups
  {
    var ws := d.groups[source].workspace;
    if destroyed && d.groups[source].hasTile && ws in d.workspaces
    then Layouts(d.workspaces)[ws := Departed(d.workspaces[ws].layout, source)]
    else Layouts(d.workspaces)
  }

  /** With windows left in the source nothing leaves the desk and the layouts stay. */
  lemma SourceSurvives(d: Desk, e: Desk, source: Id, rest: seq<Id>, target: Id, moved: seq<Id>)
    requires source in d.groups && target in d.groups && ListsMoved(d, e, source, rest, target, moved) && rest != []
    ensures Lists(e.groups) == Lists(d.groups)[source := rest][target := d.groups[target].windows + moved]
    ensures Stances(e.groups) == Stances(d.groups) && Layouts(e.workspaces) == Layouts(d.workspaces)
  {
    var gone: set<Id> := {};
    var lists := Lists(d.groups)[source := rest][target := d.groups[target].windows + moved];
    assert lists - gone == lists && Stances(d.groups) - gone == Stances(d.groups);
  }

  lemma LeaveAddLists(d: Desk, w: Id, target: Id)
    requires Sound(d) && CanMoveWindow(d, w, target)
    ensures var source := d.windows[w].group.value; var e := AddWindow(Leave(d, w), target, w);
      && Lists(e.groups) == Lists(d.groups)[source := Without(d.groups[source].windows, w)][target := d.groups[target].windows + [w]]
      && Stances(e.groups) == Stances(d.groups)
      && e.groups[source].windowCount == |Without(d.groups[source].windows, w)|
  {
    var source := d.windows[w].group.value;
    SoundWindow(d, w);
    SoundGroup(d, source);
    WithoutOne(d.groups[source].windows, w);
    var e := AddWindow(Leave(d, w), target, w);
    TwoLists(d.groups, source, e.groups[source], target, e.groups[target]);
  }

  /** Two groups get other lists and keep their stances. */
  lemma TwoLists(groups: map<Id, Group>, a: Id, x: Group, b: Id, y: Group)
    requires a in groups && b in groups && a != b && StanceOf(x) == StanceOf(groups[a]) && StanceOf(y) == StanceOf(groups[b])
    ensures Lists(groups[a := x][b := y]) == Lists(groups)[a := x.windows][b := y.windows]
    ensures Stances(groups[a := x][b := y]) == Stances(groups)
  {
  }

  lemma DestroyLists(d: Desk, g: Id)
    requires g in d.groups && d.groups[g].workspace in d.workspaces
    ensures var e := DestroyGroup(d, g);
      && Lists(e.groups) == Lists(d.groups) - {g} && Stances(e.groups) == Stances(d.groups) - {g}
      && e.groupOrder == Without(d.groupOrder, g) && Layouts(e.workspaces) == LayoutsAfter(d, g, true)
      && SameOutputs(d, e)
  {
  }

  lemma DestroyedLists(d: Desk, e: Desk, source: Id, target: Id, moved: seq<Id>)
    requires source in d.groups && target in d.groups && source in e.groups
    requires e.groups[source].workspace in e.workspaces
    requires Lists(e.groups) == Lists(d.groups)[source := []][target := d.groups[target].windows + moved]
    requires Stances(e.groups) == Stances(d.groups) && e.groupOrder == d.groupOrder && e.workspaces == d.workspaces
    requires SameOutputs(d, e) && WindowsMoved(d.windows, e.windows, target, moved)
    requires e.nextGroup == d.nextGroup && e.nextSplit == d.nextSplit && e.nextWorkspace == d.nextWorkspace
    ensures ListsMoved(d, DestroyGroup(e, source), source, [], target, moved)
  {
    DestroyLists(e, source);
    assert Stances(d.groups)[source] == Stances(e.groups)[source];
  }

  lemma TransferredLists(d: Desk, w: Id, target: Id)
    requires Sound(d) && CanMoveWindow(d, w, target)
    ensures var source := d.windows[w].group.value;
      ListsMoved(d, Transferred(d, w, target), source, Without(d.groups[source].windows, w), target, [w])
  {
    hide Sound, Homes;
    var source, e := d.windows[w].group.value, AddWindow(Leave(d, w), target, w);
    LeaveAddLists(d, w, target);
    SoundGroup(d, source);
    if e.groups[source].windowCount == 0 {
      DestroyedLists(d, e, source, target, [w]);
    }
  }

  lemma RefocusedAfter(d: Desk, e: Desk, f: Desk, source: Id, rest: seq<Id>, target: Id, moved: seq<Id>)
    requires source in d.groups && target in d.groups && ListsMoved(d, e, source, rest, target, moved)
    requires Refocused(e, f)
    ensures ListsMoved(d, f, source, rest, target, moved)
  {
    RefocusedGroups(e, f);
  }

  /** What moving one window does, the focus it may take aside. */
  lemma MoveWindowLists(d: Desk, w: Id, target: Id)
    requires Sound(d) && CanMoveWindow(d, w, target)
    ensures var source := d.windows[w].group.value;
      ListsMoved(d, MoveWindow(d, w, target), source, Without(d.groups[source].windows, w), target, [w])
  {
    var source, e := d.windows[w].group.value, Transferred(d, w, target);
    TransferredLists(d, w, target);
    if d.windows[w].mapped {
      FocusRefocuses(e, w);
      RefocusedAfter(d, e, MoveWindow(d, w, target), source, Without(d.groups[source].windows, w), target, [w]);
    }
  }

  // ----- moving several windows

  ghost function MoveWindows(d: Desk, list: seq<Id>, target: Id): Desk
    decreases |list|
  {
    if list == [] then d else MoveWindows(MoveWindow(d, list[0], target), list[1..], target)
  }

  lemma {:induction false} MoveWindowsSound(d: Desk, list: seq<Id>, target: Id)
    requires Sound(d)
    ensures Sound(MoveWindows(d, list, target))
    decreases |list|
  {
    if list != [] {
      MoveWindowSound(d, list[0], target);
      MoveWindowsSound(MoveWindow(d, list[0], target), list[1..], target);
    }
  }

  /** The list without any of the windows of `gone`. */
  ghost function WithoutAll(s: seq<Id>, gone: seq<Id>): seq<Id>
    decreases |gone|
  {
    if gone == [] then s else WithoutAll(Without(s, gone[0]), gone[1..])
  }

  lemma {:induction false} WithoutAllMember(s: seq<Id>, gone: seq<Id>, x: Id)
    ensures x in WithoutAll(s, gone) <==> x in s && x !in gone
    decreases |gone|
  {
    if gone != [] {
      WithoutMember(s, gone[0], x);
      WithoutAllMember(Without(s, gone[0]), gone[1..], x);
      assert gone == [gone[0]] + gone[1..];
    }
  }

  lemma ListsMovedTwice(d: Desk, e: Desk, f: Desk, source: Id, rest: seq<Id>, target: Id, w: Id, rest': seq<Id>,
                        moved: seq<Id>)
    requires source in d.groups && target in d.groups && source != target && rest != []
    requires ListsMoved(d, e, source, rest, target, [w])
    requires source in e.groups && target in e.groups && ListsMoved(e, f, source, rest', target, moved)
    ensures ListsMoved(d, f, source, rest', target, [w] + moved)
  {
    hide Lists;
    SourceStays(d, e, source, rest, target, w);
    assert d.groups[target].windows + [w] + moved == d.groups[target].windows + ([w] + moved);
    assert WindowsMoved(d.windows, f.windows, target, [w] + moved);
  }

  lemma SourceStays(d: Desk, e: Desk, source: Id, rest: seq<Id>, target: Id, w: Id)
    requires source in d.groups && target in d.groups && source != target && rest != []
    requires ListsMoved(d, e, source, rest, target, [w])
    ensures source in e.groups && e.groups[source].windows == rest
    ensures target in e.groups && e.groups[target].windows == d.groups[target].windows + [w]
    ensures forall b :: LayoutsAfter(e, source, b) == LayoutsAfter(d, source, b)
    ensures Stances(e.groups) == Stances(d.groups) && Layouts(e.workspaces) == Layouts(d.workspaces)
  {
    KeysOf(d, e);
    assert Stances(e.groups)[source] == Stances(d.groups)[source];
    LayoutsAt(d, e, d.groups[source].workspace);
  }

  lemma KeysOf(d: Desk, e: Desk)
    ensures Lists(e.groups).Keys == e.groups.Keys == Stances(e.groups).Keys
    ensures Lists(d.groups).Keys == d.groups.Keys == Stances(d.groups).Keys
    ensures forall g :: g in d.groups ==>
      Lists(d.groups)[g] == d.groups[g].windows && Stances(d.groups)[g] == StanceOf(d.groups[g])
    ensures forall g :: g in e.groups ==>
      Lists(e.groups)[g] == e.groups[g].windows && Stances(e.groups)[g] == StanceOf(e.groups[g])
  {
  }

  lemma LayoutsAt(d: Desk, e: Desk, ws: Id)
    requires Layouts(e.workspaces) == Layouts(d.workspaces)
    ensures ws in d.workspaces <==> ws in e.workspaces
    ensures ws in d.workspaces ==> e.workspaces[ws].layout == d.workspaces[ws].layout
  {
    assert Layouts(e.workspaces).Keys == e.workspaces.Keys && Layouts(d.workspaces).Keys == d.workspaces.Keys;
    assert ws in d.workspaces ==> Layouts(e.workspaces)[ws] == Layouts(d.workspaces)[ws];
  }

  /** Moving a list of members one after the other appends exactly that list to the target, in order,
      takes exactly them from the source, and destroys the source when nothing is left. */
  lemma {:induction false} MoveWindowsLists(d: Desk, list: seq<Id>, source: Id, target: Id)
    requires Sound(d) && source in d.groups && target in d.groups && source != target
    requires NoDup(list) && list != [] && forall w :: w in list ==> w in d.groups[source].windows
    ensures ListsMoved(d, MoveWindows(d, list, target), source, WithoutAll(d.groups[source].windows, list), target,
        list)
    decreases |list|
  {
    var w, others := list[0], list[1..];
    assert list == [w] + others;
    var e := MoveWindow(d, w, target);
    if others == [] {
      assert list == [w];
      FirstMoves(d, w, source, target);
    } else {
      FirstMoves(d, w, source, target);
      var rest := Without(d.groups[source].windows, w);
      OthersRemain(d.groups[source].windows, w, others);
      SourceStays(d, e, source, rest, target, w);
      MoveWindowsLists(e, others, source, target);
      ListsMovedTwice(d, e, MoveWindows(e, others, target), source, rest, target, w, WithoutAll(rest, others), others);
    }
  }

  lemma FirstMoves(d: Desk, w: Id, source: Id, target: Id)
    requires Sound(d) && source in d.groups && target in d.groups && source != target && w in d.groups[source].windows
    ensures Sound(MoveWindow(d, w, target))
    ensures ListsMoved(d, MoveWindow(d, w, target), source, Without(d.groups[source].windows, w), target, [w])
  {
    SoundGroup(d, source);
    MoveWindowLists(d, w, target);
    MoveWindowSound(d, w, target);
  }

  lemma OthersRemain(s: seq<Id>, w: Id, others: seq<Id>)
    requires others != [] && NoDup([w] + others) && forall v :: v in [w] + others ==> v in s
    ensures Without(s, w) != [] && NoDup(others) && forall v :: v in others ==> v in Without(s, w)
  {
    var list := [w] + others;
    assert others == list[1..];
    forall v | v in others ensures v in Without(s, w) {
      var i :| 0 <= i < |others| && others[i] == v;
      assert list[i + 1] == v && list[0] == w;
      WithoutMember(s, w, v);
    }
    HeadIsMember(others);
  }
}
