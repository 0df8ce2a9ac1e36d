/** Splitting groups, pinning them, moving them and their windows to other workspaces, and changing what
a window is part of. */
module DeskPlacement {
  import opened Seqs
  import opened LayoutTree
  import opened DeskState
  import opened DeskSteps
  import opened DeskMoves
  import opened DeskWindows
  import opened DeskOutputs
  import opened DeskSwitch
  import opened DeskOps
  import opened DeskGroups

  // ----- focus by id

  ghost predicate FocusableById(d: Desk, w: Id) {
    && w in d.windows && d.windows[w].mapped && d.windows[w].group.Some? && d.windows[w].group.value in d.groups
    && OutputOf(d, d.groups[d.windows[w].group.value].workspace).Some?
  }

  /** The window's workspace is shown, then the window takes the focus. */
  ghost function FocusWindowId(d: Desk, w: Id): Desk {
    if FocusableById(d, w) then FocusWindow(Activate(d, d.groups[d.windows[w].group.value].workspace), w) else d
  }

  ghost function FocusGroupId(d: Desk, g: Id): Desk {
    if g in d.groups && d.groups[g].active.Some? && FocusableById(d, d.groups[g].active.value)
    then FocusWindowId(d, d.groups[g].active.value)
    else d
  }

  lemma FocusWindowIdKeeps(d: Desk, w: Id, spare: set<Id>)
    requires Inv(d, spare)
    ensures Inv(FocusWindowId(d, w), spare)
  {
    if FocusableById(d, w) {
      var ws := d.groups[d.windows[w].group.value].workspace;
      ActivateKeeps(d, ws, spare);
      FocusKeeps(Activate(d, ws), w, spare);
    }
  }

  /** The focus went where it was asked to go. */
  ghost predicate HasFocus(d: Desk, w: Id) {
    && w in d.windows && d.windows[w].group.Some? && d.activeGroup == d.windows[w].group
    && d.windows[w].group.value in d.groups && d.groups[d.windows[w].group.value].active == Some(w)
  }

  // ----- a new group for one window

  /** The window moves to a new group on the workspace of its own. */
  ghost function Isolated(d: Desk, w: Id, ws: Id, o: Orientation, r: real): Desk {
    MoveWindow(CreateGroup(d, ws, o, r), w, d.nextGroup)
  }

  lemma IsolatedKeeps(d: Desk, w: Id, ws: Id, o: Orientation, r: real)
    requires Inv(d, {}) && ws in d.workspaces && w in d.windows && d.windows[w].group.Some?
    ensures Inv(Isolated(d, w, ws, o, r), {})
  {
    CreatedGroup(d, ws, o, r);
    EmptySpare(d.nextGroup);
    SoundWindow(d, w);
    MoveWindowKeeps(CreateGroup(d, ws, o, r), w, d.nextGroup, {} + {d.nextGroup});
  }

  ghost predicate CanSplit(d: Desk, w: Id) {
    && w in d.windows && d.windows[w].group.Some? && d.windows[w].mapped && d.windows[w].group.value in d.groups
    && d.groups[d.windows[w].group.value].placement.Tiled? && d.groups[d.windows[w].group.value].hasTile
    && d.groups[d.windows[w].group.value].windowCount >= 2
  }

  ghost function SplitActive(d: Desk, o: Orientation, r: real): Desk {
    if && d.activeGroup.Some? && d.activeGroup.value in d.groups && d.groups[d.activeGroup.value].active.Some?
       && d.groups[d.activeGroup.value].windowCount >= 2
       && FocusedWorkspace(d).Some? && FocusedWorkspace(d).value in d.workspaces
    then Isolated(d, d.groups[d.activeGroup.value].active.value, FocusedWorkspace(d).value, o, r)
    else d
  }

  ghost function SplitWindow(d: Desk, w: Id, o: Orientation, r: real): Desk {
    if !CanSplit(d, w) then d
    else
      var e := FocusWindowId(d, w);
      if FocusableById(d, w) && HasFocus(e, w) then SplitActive(e, o, r) else e
  }

  lemma SplitActiveKeeps(d: Desk, o: Orientation, r: real)
    requires Inv(d, {})
    ensures Inv(SplitActive(d, o, r), {})
  {
    if d.activeGroup.Some? && d.activeGroup.value in d.groups && d.groups[d.activeGroup.value].active.Some?
       && FocusedWorkspace(d).Some? && FocusedWorkspace(d).value in d.workspaces {
      SoundGroup(d, d.activeGroup.value);
      IsolatedKeeps(d, d.groups[d.activeGroup.value].active.value, FocusedWorkspace(d).value, o, r);
    }
  }

  lemma SplitWindowKeeps(d: Desk, w: Id, o: Orientation, r: real)
    requires Inv(d, {})
    ensures Inv(SplitWindow(d, w, o, r), {})
  {
    if CanSplit(d, w) {
      var e := FocusWindowId(d, w);
      FocusWindowIdKeeps(d, w, {});
      if HasFocus(e, w) && FocusedWorkspace(e).Some? && FocusedWorkspace(e).value in e.workspaces {
        IsolatedKeeps(e, w, FocusedWorkspace(e).value, o, r);
      }
    }
  }

  // ----- splitting at a window

  ghost predicate CanSplitAt(d: Desk, w: Id) {
    && CanSplit(d, w)
    && d.groups[d.windows[w].group.value].windows != []
    && d.groups[d.windows[w].group.value].windows[0] != w
  }

  /** The windows from `w` on move to a new group placed after theirs. */
  ghost function SplitAt(d: Desk, w: Id, o: Orientation, r: real): Desk {
    if !CanSplitAt(d, w) then d
    else
      var source := d.windows[w].group.value;
      var list := d.groups[source].windows;
      var e := FocusWindowId(d, w);
      if FocusableById(d, w) && HasFocus(e, w) && source in e.groups then
        MoveRange(CreateGroup(e, e.groups[source].workspace, o, r), w, list[|list| - 1], e.nextGroup)
      else e
  }

  /** Focusing by id moves no tiled group and no window: lists, tiled stances and layouts stay. */
  lemma FocusWindowIdEffects(d: Desk, w: Id)
    requires Inv(d, {}) && FocusableById(d, w)
    ensures var e := FocusWindowId(d, w); var g := d.windows[w].group.value;
      && Inv(e, {}) && Lists(e.groups) == Lists(d.groups) && Layouts(e.workspaces) == Layouts(d.workspaces)
      && e.windows.Keys == d.windows.Keys && e.nextGroup == d.nextGroup && e.nextSplit == d.nextSplit
      && (forall v :: v in d.windows ==> e.windows[v].group == d.windows[v].group && e.windows[v].mapped == d.windows[v].mapped)
      && g in e.groups && StanceOf(e.groups[g]) == StanceOf(d.groups[g])
      && HasFocus(e, w) && e.workspaces[d.groups[g].workspace].active == Some(g)
  {
    var g := d.windows[w].group.value;
    var ws := d.groups[g].workspace;
    var o := OutputOf(d, ws).value;
    SoundGroup(d, g);
    OutputShows(d, ws);
    FocusWindowIdKeeps(d, w, {});
    ActivateEffects(d, o, ws, g);
    ActivateKeeps(d, ws, {});
    var a := Activate(d, ws);
    FocusRefocuses(a, w);
    RefocusedGroups(a, FocusWindow(a, w));
  }

  lemma OutputShows(d: Desk, ws: Id)
    requires Inv(d, {}) && OutputOf(d, ws).Some?
    ensures OutputOf(d, ws).value in d.outputs
  {
    assert ws in Homes(d.workspaces) && Homes(d.workspaces)[ws].output == d.workspaces[ws].output;
    assert WorkspaceHoused(d.outputs, ws, Homes(d.workspaces)[ws]);
  }

  ghost predicate SameWindows(d: Desk, e: Desk) {
    && e.windows.Keys == d.windows.Keys
    && forall v :: v in d.windows ==> e.windows[v].group == d.windows[v].group && e.windows[v].mapped == d.windows[v].mapped
  }

  lemma RefocusedWindows(d: Desk, e: Desk)
    requires Refocused(d, e)
    ensures SameWindows(d, e) && (forall ws :: OutputOf(e, ws) == OutputOf(d, ws))
    ensures e.workspaces.Keys == d.workspaces.Keys
  {
    RefocusedGroups(d, e);
    forall ws ensures OutputOf(e, ws) == OutputOf(d, ws) {
      HomeOf(d, e, ws);
    }
  }

  /** Showing a workspace keeps lists and layouts, and a group on it keeps its stance. */
  lemma ActivateEffects(d: Desk, o: Id, ws: Id, g: Id)
    requires Inv(d, {}) && OutputOf(d, ws) == Some(o) && o in d.outputs && g in d.groups && d.groups[g].workspace == ws
    ensures var e := Activate(d, ws);
      && Lists(e.groups) == Lists(d.groups) && Layouts(e.workspaces) == Layouts(d.workspaces) && SameWindows(d, e)
      && e.nextGroup == d.nextGroup && e.nextSplit == d.nextSplit && g in e.groups
      && StanceOf(e.groups[g]) == StanceOf(d.groups[g])
      && o in e.outputs && e.outputs[o].visible == Some(ws) && OutputOf(e, ws) == Some(o)
  {
    var shown := if d.outputs[o].visible == Some(ws) then d else Shown(d, o, ws);
    if d.outputs[o].visible != Some(ws) {
      SwitchSound(d, o, ws);
      ShownStance(d, o, ws, g);
      FollowEffects(d, d.groupOrder, o, ws);
      HomeOf(d, shown, ws);
    }
    FocusVisibleEffects(shown, o);
    RefocusedGroups(shown, FocusVisible(shown, o));
    RefocusedWindows(shown, FocusVisible(shown, o));
  }

  /** What creating a group in the workspace of a tiled active group does. */
  lemma CreateAfter(d: Desk, ws: Id, source: Id, o: Orientation, r: real)
    requires Inv(d, {}) && ws in d.workspaces && source in d.groups && d.groups[source].hasTile
    requires d.groups[source].workspace == ws && d.workspaces[ws].active == Some(source)
    ensures var e, g := CreateGroup(d, ws, o, r), d.nextGroup;
      && Inv(e, {} + {g}) && g !in d.groups && Lists(e.groups) == Lists(d.groups)[g := []] && e.windows == d.windows
      && g in e.groups && StanceOf(e.groups[g]) == Stance(ws, Tiled, true, None)
      && source in e.groups && e.groups[source] == d.groups[source]
      && Layouts(e.workspaces) == Layouts(d.workspaces)[ws := Entered(d.workspaces[ws].layout, Some(source), g, d.nextSplit, o, r)]
  {
    hide Inv;
    CreatedGroup(d, ws, o, r);
    GroupUpdate(d.groups, d.nextGroup, Group(ws, Tiled, [], 0, None, true, None));
  }

  /** The part of a list from its `i`-th window on. */
  lemma TailOf(list: seq<Id>, i: nat)
    requires NoDup(list) && i < |list|
    ensures RangeOf(list, list[i], list[|list| - 1]) == list[i..] && WithoutAll(list, list[i..]) == list[..i]
    ensures NoDup(list[i..]) && list[i..] != [] && forall w :: w in list[i..] ==> w in list
  {
    var n := |list| - 1;
    RangeIsSlice(list, i, n);
    SliceOf(list, i, n);
    assert list[i..n + 1] == list[i..] && list[..i] + list[n + 1..] == list[..i];
  }

  /** Moving members that leave `rest` behind. */
  lemma MoveTail(c: Desk, source: Id, g: Id, tail: seq<Id>, rest: seq<Id>)
    requires Inv(c, {} + {g}) && g in c.groups && c.groups[g].windows == [] && source in c.groups && source != g
    requires NoDup(tail) && tail != [] && forall w :: w in tail ==> w in c.groups[source].windows
    requires WithoutAll(c.groups[source].windows, tail) == rest && rest != []
    ensures var e := MoveWindows(c, tail, g);
      && Inv(e, {}) && Lists(e.groups) == Lists(c.groups)[source := rest][g := tail]
      && Stances(e.groups) == Stances(c.groups) && Layouts(e.workspaces) == Layouts(c.workspaces)
  {
    MoveWindowsKeeps(c, tail, source, g, {} + {g});
    EmptySpare(g);
    MoveTailLists(c, source, g, tail, rest);
  }

  lemma MoveTailLists(c: Desk, source: Id, g: Id, tail: seq<Id>, rest: seq<Id>)
    requires Sound(c) && g in c.groups && c.groups[g].windows == [] && source in c.groups && source != g
    requires NoDup(tail) && tail != [] && forall w :: w in tail ==> w in c.groups[source].windows
    requires WithoutAll(c.groups[source].windows, tail) == rest && rest != []
    ensures var e := MoveWindows(c, tail, g);
      && Lists(e.groups) == Lists(c.groups)[source := rest][g := tail]
      && Stances(e.groups) == Stances(c.groups) && Layouts(e.workspaces) == Layouts(c.workspaces)
  {
    assert [] + tail == tail;
    MoveWindowsLists(c, tail, source, g);
    SourceSurvives(c, MoveWindows(c, tail, g), source, rest, g, tail);
  }

  /** Moving the end of a group to a new, still empty one. */
  lemma RangeToNew(c: Desk, source: Id, g: Id, i: nat)
    requires Inv(c, {} + {g}) && g in c.groups && c.groups[g].windows == [] && source in c.groups && source != g
    requires c.groups[g].workspace == c.groups[source].workspace
    requires 0 < i < |c.groups[source].windows|
    ensures var list := c.groups[source].windows; var e := MoveRange(c, list[i], list[|list| - 1], g);
      && Inv(e, {}) && Lists(e.groups) == Lists(c.groups)[source := list[..i]][g := list[i..]]
      && Stances(e.groups) == Stances(c.groups) && Layouts(e.workspaces) == Layouts(c.workspaces)
  {
    var list := c.groups[source].windows;
    SoundGroup(c, source);
    TailOf(list, i);
    MembersKnown(c, source, list[i]);
    MembersKnown(c, source, list[|list| - 1]);
    MoveTail(c, source, g, list[i..], list[..i]);
  }

  lemma MembersKnown(c: Desk, source: Id, w: Id)
    requires Sound(c) && source in c.groups && w in c.groups[source].windows
    ensures w in c.windows && c.windows[w].group == Some(source)
  {
    SoundGroup(c, source);
  }

  /** The layout after a group was placed after `source`. */
  ghost function LayoutSplit(d: Desk, source: Id, o: Orientation, r: real): Tiling
    requires source in d.groups && d.groups[source].workspace in d.workspaces
  {
    Entered(d.workspaces[d.groups[source].workspace].layout, Some(source), d.nextGroup, d.nextSplit, o, r)
  }

  /** After the focus step the group to split is the active one of its workspace. */
  ghost predicate FocusedToSplit(d: Desk, f: Desk, source: Id)
    requires source in d.groups
  {
    var ws := d.groups[source].workspace;
    && Inv(f, {}) && Lists(f.groups) == Lists(d.groups) && Layouts(f.workspaces) == Layouts(d.workspaces)
    && f.nextGroup == d.nextGroup && f.nextSplit == d.nextSplit && ws in d.workspaces && ws in f.workspaces
    && source in f.groups && StanceOf(f.groups[source]) == StanceOf(d.groups[source])
    && f.groups[source].windows == d.groups[source].windows
    && f.workspaces[ws].active == Some(source) && f.workspaces[ws].layout == d.workspaces[ws].layout
  }

  /** The group `g` was created for the end of `source`, which has not moved yet. */
  ghost predicate ReadyToSplit(d: Desk, c: Desk, source: Id, g: Id, l: Tiling)
    requires source in d.groups
  {
    var ws := d.groups[source].workspace;
    && g !in d.groups && Inv(c, {} + {g}) && Lists(c.groups) == Lists(d.groups)[g := []]
    && Layouts(c.workspaces) == Layouts(d.workspaces)[ws := l]
    && g in c.groups && StanceOf(c.groups[g]) == Stance(ws, Tiled, true, None) && c.groups[g].windows == []
    && source in c.groups && StanceOf(c.groups[source]) == StanceOf(d.groups[source])
    && c.groups[source].windows == d.groups[source].windows
  }

  /** The new group received the end of the source from its `i`-th window on. */
  ghost predicate SplitOff(d: Desk, e: Desk, source: Id, g: Id, i: nat, l: Tiling)
    requires source in d.groups && i <= |d.groups[source].windows|
  {
    var ws, list := d.groups[source].workspace, d.groups[source].windows;
    && g !in d.groups && Inv(e, {}) && Lists(e.groups) == Lists(d.groups)[g := []][source := list[..i]][g := list[i..]]
    && Layouts(e.workspaces) == Layouts(d.workspaces)[ws := l]
    && g in e.groups && StanceOf(e.groups[g]) == Stance(ws, Tiled, true, None)
    && source in e.groups && StanceOf(e.groups[source]) == StanceOf(d.groups[source])
  }

  lemma SplitFocuses(d: Desk, w: Id, source: Id)
    requires Inv(d, {}) && CanSplitAt(d, w) && FocusableById(d, w) && d.windows[w].group == Some(source)
    ensures FocusedToSplit(d, FocusWindowId(d, w), source) && HasFocus(FocusWindowId(d, w), w)
  {
    SoundGroup(d, source);
    FocusWindowIdEffects(d, w);
    LayoutsAt(d, FocusWindowId(d, w), d.groups[source].workspace);
    KeysOf(d, FocusWindowId(d, w));
  }

  lemma SplitPrepares(d: Desk, f: Desk, source: Id, o: Orientation, r: real)
    requires Sound(d) && source in d.groups && d.groups[source].hasTile && FocusedToSplit(d, f, source)
    ensures ReadyToSplit(d, CreateGroup(f, d.groups[source].workspace, o, r), source, d.nextGroup,
        LayoutSplit(d, source, o, r))
  {
    CreateAfter(f, d.groups[source].workspace, source, o, r);
    FreshGroup(d, d.groups[source].workspace);
    KeysOf(f, CreateGroup(f, d.groups[source].workspace, o, r));
  }

  lemma SplitAtFinishes(d: Desk, c: Desk, source: Id, g: Id, i: nat, l: Tiling)
    requires source in d.groups && 0 < i < |d.groups[source].windows| && ReadyToSplit(d, c, source, g, l)
    ensures var list := d.groups[source].windows;
      SplitOff(d, MoveRange(c, list[i], list[|list| - 1], g), source, g, i, l)
  {
    var list := d.groups[source].windows;
    RangeToNew(c, source, g, i);
    SplitStances(c, MoveRange(c, list[i], list[|list| - 1], g), g, source);
  }

  /** The operation after its focus step. */
  ghost function SplitFrom(f: Desk, ws: Id, first: Id, last: Id, o: Orientation, r: real): Desk {
    MoveRange(CreateGroup(f, ws, o, r), first, last, f.nextGroup)
  }

  lemma SplitAtUnfolds(d: Desk, w: Id, source: Id, o: Orientation, r: real)
    requires CanSplitAt(d, w) && FocusableById(d, w) && d.windows[w].group == Some(source)
    requires HasFocus(FocusWindowId(d, w), w)
    requires source in FocusWindowId(d, w).groups
    ensures var list := d.groups[source].windows; var f := FocusWindowId(d, w);
      SplitAt(d, w, o, r) == SplitFrom(f, f.groups[source].workspace, w, list[|list| - 1], o, r)
  {
  }

  lemma SplitFromMeaning(d: Desk, f: Desk, source: Id, i: nat, o: Orientation, r: real)
    requires Sound(d) && source in d.groups && d.groups[source].hasTile && FocusedToSplit(d, f, source)
    requires 0 < i < |d.groups[source].windows|
    ensures var list := d.groups[source].windows;
      SplitOff(d, SplitFrom(f, f.groups[source].workspace, list[i], list[|list| - 1], o, r), source, d.nextGroup, i,
          LayoutSplit(d, source, o, r))
  {
    SplitPrepares(d, f, source, o, r);
    SplitAtFinishes(d, CreateGroup(f, d.groups[source].workspace, o, r), source, d.nextGroup, i,
        LayoutSplit(d, source, o, r));
  }

  /** Splitting a group at its `i`-th window: that window and those after it form a new group, placed
      right after theirs. */
  lemma SplitAtMeaning(d: Desk, source: Id, i: nat, o: Orientation, r: real)
    requires Inv(d, {}) && source in d.groups && 0 < i < |d.groups[source].windows|
    requires var w := d.groups[source].windows[i]; CanSplitAt(d, w) && FocusableById(d, w) && d.windows[w].group == Some(source)
    ensures d.groups[source].workspace in d.workspaces
    ensures SplitOff(d, SplitAt(d, d.groups[source].windows[i], o, r), source, d.nextGroup, i,
        LayoutSplit(d, source, o, r))
  {
    var w := d.groups[source].windows[i];
    SplitFocuses(d, w, source);
    SplitAtUnfolds(d, w, source, o, r);
    SplitFromMeaning(d, FocusWindowId(d, w), source, i, o, r);
  }

  /** After the focus step and the creation of the group, the range to move is never empty. */
  lemma SplitRangeAllowed(d: Desk, c: Desk, source: Id, g: Id, i: nat, l: Tiling)
    requires source in d.groups && 0 < i < |d.groups[source].windows| && ReadyToSplit(d, c, source, g, l)
    ensures var list := d.groups[source].windows; CanMoveRange(c, list[i], list[|list| - 1], g)
  {
    assert c.groups[g].workspace == StanceOf(c.groups[g]).workspace == d.groups[source].workspace;
    assert c.groups[source].workspace == StanceOf(c.groups[source]).workspace == StanceOf(d.groups[source]).workspace;
    RangeInside(c, source, i, g);
  }

  lemma RangeInside(c: Desk, source: Id, i: nat, g: Id)
    requires Sound(c) && source in c.groups && g in c.groups && source != g
    requires c.groups[source].workspace == c.groups[g].workspace
    requires i < |c.groups[source].windows|
    ensures var list := c.groups[source].windows; CanMoveRange(c, list[i], list[|list| - 1], g)
  {
    RangeAllowed(c, source, i, |c.groups[source].windows| - 1, g);
  }

  lemma SplitFromGoes(d: Desk, f: Desk, source: Id, i: nat, o: Orientation, r: real)
    requires Sound(d) && source in d.groups && d.groups[source].hasTile && FocusedToSplit(d, f, source)
    requires 0 < i < |d.groups[source].windows|
    ensures var list := d.groups[source].windows;
      CanMoveRange(CreateGroup(f, d.groups[source].workspace, o, r), list[i], list[|list| - 1], d.nextGroup)
  {
    SplitPrepares(d, f, source, o, r);
    SplitRangeAllowed(d, CreateGroup(f, d.groups[source].workspace, o, r), source, d.nextGroup, i,
        LayoutSplit(d, source, o, r));
  }

  /** Once allowed and focused, splitting at a window always goes through. */
  lemma SplitAtSucceeds(d: Desk, w: Id, source: Id, o: Orientation, r: real)
    requires Inv(d, {}) && CanSplitAt(d, w) && FocusableById(d, w) && d.windows[w].group == Some(source)
    ensures FocusedToSplit(d, FocusWindowId(d, w), source) && HasFocus(FocusWindowId(d, w), w)
    ensures var list := d.groups[source].windows;
      CanMoveRange(CreateGroup(FocusWindowId(d, w), d.groups[source].workspace, o, r), w, list[|list| - 1], d.nextGroup)
  {
    SplitFocuses(d, w, source);
    SoundWindow(d, w);
    var list := d.groups[source].windows;
    var i :| 0 <= i < |list| && list[i] == w;
    SplitFromGoes(d, FocusWindowId(d, w), source, i, o, r);
  }

  lemma SplitStances(c: Desk, e: Desk, g: Id, source: Id)
    requires Stances(e.groups) == Stances(c.groups) && g in c.groups && source in c.groups
    ensures g in e.groups && StanceOf(e.groups[g]) == StanceOf(c.groups[g])
    ensures source in e.groups && StanceOf(e.groups[source]) == StanceOf(c.groups[source])
  {
    StancesAt(c, e, g);
    StancesAt(c, e, source);
  }

  lemma StancesAt(d: Desk, e: Desk, g: Id)
    requires Stances(e.groups) == Stances(d.groups)
    ensures g in d.groups <==> g in e.groups
    ensures g in d.groups ==> StanceOf(e.groups[g]) == StanceOf(d.groups[g])
  {
    KeysOf(d, e);
    assert g in d.groups ==> Stances(e.groups)[g] == Stances(d.groups)[g];
  }

  /** Round trip: splitting a group at a window and merging the new group back restores the order of the
      windows in every group, and every layout with its registry. */
  lemma MergeUndoesSplitAt(d: Desk, w: Id, o: Orientation, r: real)
    requires Inv(d, {}) && CanSplitAt(d, w) && FocusableById(d, w)
    ensures var e := MergeGroups(SplitAt(d, w, o, r), d.nextGroup, d.windows[w].group.value);
      Inv(e, {}) && Lists(e.groups) == Lists(d.groups) && Layouts(e.workspaces) == Layouts(d.workspaces)
  {
    var source := d.windows[w].group.value;
    SoundGroup(d, source);
    SoundWindow(d, w);
    var list := d.groups[source].windows;
    var i :| 0 <= i < |list| && list[i] == w;
    SplitAtMeaning(d, source, i, o, r);
    MergeRestores(d, SplitAt(d, w, o, r), source, d.nextGroup, i, o, r);
  }

  lemma MergeRestores(d: Desk, s: Desk, source: Id, g: Id, i: nat, o: Orientation, r: real)
    requires Sound(d) && source in d.groups && d.groups[source].hasTile && 0 < i < |d.groups[source].windows|
    requires g == d.nextGroup
    requires d.groups[source].workspace in d.workspaces && SplitOff(d, s, source, g, i, LayoutSplit(d, source, o, r))
    ensures var e := MergeGroups(s, g, source);
      Inv(e, {}) && Lists(e.groups) == Lists(d.groups) && Layouts(e.workspaces) == Layouts(d.workspaces)
  {
    var ws, list := d.groups[source].workspace, d.groups[source].windows;
    SplitLists(d, s, source, g, list, i);
    SoundGroup(s, g);
    MergeMeaning(s, g, source);
    ListsRestored(Lists(d.groups), source, g, list, i);
    LayoutRestored(d, s, source, g, ws, o, r);
  }

  lemma SplitLists(d: Desk, s: Desk, source: Id, g: Id, list: seq<Id>, i: nat)
    requires source != g && 0 < i < |list|
    requires Lists(s.groups) == Lists(d.groups)[g := []][source := list[..i]][g := list[i..]]
    ensures g in s.groups && s.groups[g].windows == list[i..] && source in s.groups
    ensures s.groups[source].windows == list[..i]
    ensures s.groups[g].windows != []
  {
    KeysOf(d, s);
  }

  lemma ListsRestored(lists: map<Id, seq<Id>>, source: Id, g: Id, list: seq<Id>, i: nat)
    requires source in lists && lists[source] == list && g !in lists && i <= |list|
    ensures lists[g := []][source := list[..i]][g := list[i..]][source := list[..i] + list[i..]] - {g} == lists
  {
    assert list[..i] + list[i..] == list;
  }

  lemma LayoutRestored(d: Desk, s: Desk, source: Id, g: Id, ws: Id, o: Orientation, r: real)
    requires Sound(d) && source in d.groups && d.groups[source].workspace == ws && d.groups[source].hasTile
    requires ws in d.workspaces
    requires g == d.nextGroup && g in s.groups && StanceOf(s.groups[g]) == Stance(ws, Tiled, true, None)
    requires Layouts(s.workspaces) == Layouts(d.workspaces)[ws := Entered(d.workspaces[ws].layout, Some(source), g,
        d.nextSplit, o, r)]
    ensures LayoutsAfter(s, g, true) == Layouts(d.workspaces)
  {
    var l := d.workspaces[ws].layout;
    SoundGroup(d, source);
    SoundWorkspace(d, ws);
    FreshGroup(d, ws);
    LeaveUndoesEnter(l, Some(source), g, d.nextSplit, o, r, d.nextSplit);
    assert ws in Layouts(s.workspaces) && Layouts(s.workspaces)[ws] == s.workspaces[ws].layout;
    assert Layouts(d.workspaces)[ws] == l;
  }

  lemma SplitAtKeeps(d: Desk, w: Id, o: Orientation, r: real)
    requires Inv(d, {})
    ensures Inv(SplitAt(d, w, o, r), {})
  {
    if CanSplitAt(d, w) {
      FocusWindowIdKeeps(d, w, {});
      if FocusableById(d, w) {
        var source := d.windows[w].group.value;
        SoundWindow(d, w);
        SoundGroup(d, source);
        var list := d.groups[source].windows;
        var i :| 0 <= i < |list| && list[i] == w;
        SplitAtMeaning(d, source, i, o, r);
      }
    }
  }

  // ----- pins

  ghost predicate CanPin(d: Desk, g: Id) {
    && g in d.groups && d.groups[g].placement.Floating? && OutputOf(d, d.groups[g].workspace).Some?
    && OutputOf(d, d.groups[g].workspace).value in d.outputs
  }

  /** Pinning brings the group to the workspace its output shows. */
  ghost function SetPinned(d: Desk, g: Id, pinned: bool): Desk {
    if !CanPin(d, g) then d
    else
      var o := OutputOf(d, d.groups[g].workspace);
      var e := WithGroup(d, g, d.groups[g].(pin := if pinned then o else None));
      var visible := d.outputs[o.value].visible;
      if pinned && visible.Some? && visible != Some(d.groups[g].workspace) then MoveFloating(e, g, visible.value, true) else e
  }

  lemma PinOnlySound(d: Desk, g: Id, pin: Option<Id>)
    requires Sound(d) && g in d.groups
    ensures var e := WithGroup(d, g, d.groups[g].(pin := pin));
      && Sound(e)
      && Lists(e.groups) == Lists(d.groups)
      && Stances(e.groups) == Stances(d.groups)[g := StanceOf(e.groups[g])]
  {
    var x := d.groups[g].(pin := pin);
    GroupUpdate(d.groups, g, x);
    StanceUpdate(d.groups, g, x);
    SameSeats(d.groups, g, x);
    assert GroupSound(Roles(d.windows), Registries(d.workspaces), d.nextGroup, g, d.groups[g]);
    assert GroupSound(Roles(d.windows), Registries(d.workspaces), d.nextGroup, g, x);
    assert Lists(d.groups)[g := x.windows] == Lists(d.groups);
  }

  lemma SetPinnedKeeps(d: Desk, g: Id, pinned: bool)
    requires Inv(d, {})
    ensures Inv(SetPinned(d, g, pinned), {})
    ensures var e := SetPinned(d, g, pinned);
      g in d.groups && d.groups[g].placement.Floating? && OutputOf(d, d.groups[g].workspace).Some? ==>
        g in e.groups && e.groups[g].pin == (if pinned then OutputOf(d, d.groups[g].workspace) else None)
  {
    if g in d.groups && d.groups[g].placement.Floating? && OutputOf(d, d.groups[g].workspace).Some? {
      var ws := d.groups[g].workspace;
      OutputShows(d, ws);
      var o := OutputOf(d, ws);
      var pin, visible := if pinned then o else None, d.outputs[o.value].visible;
      var e := WithGroup(d, g, d.groups[g].(pin := pin));
      PinOnlySound(d, g, pin);
      OneListKept(d, g, {});
      if pinned && visible != Some(ws) {
        AssignedVisible(d, o.value);
        PinMoved(d, e, g, visible.value);
      } else {
        GroupStepKeeps(d, e, {}, g, e.groups[g].windows, StanceOf(e.groups[g]), {});
      }
    }
  }

  lemma AssignedVisible(d: Desk, o: Id)
    requires Inv(d, {}) && o in d.outputs
    ensures d.outputs[o].visible.Some? && OutputOf(d, d.outputs[o].visible.value) == Some(o)
  {
    var homes := Homes(d.workspaces);
    assert OutputHoused(homes, o, d.outputs[o]);
    var v := d.outputs[o].visible.value;
    assert v in homes && homes[v].output == d.workspaces[v].output;
  }

  lemma PinMoved(d: Desk, e: Desk, g: Id, v: Id)
    requires Inv(d, {}) && g in d.groups && Sound(e) && d.groups[g].placement.Floating? && d.groups[g].windows != []
    requires e == WithGroup(d, g, d.groups[g].(pin := OutputOf(d, d.groups[g].workspace)))
    requires OutputOf(d, v).Some? && OutputOf(d, v) == OutputOf(d, d.groups[g].workspace) && d.groups[g].workspace != v
    requires OutputOf(d, v).value in d.outputs && d.outputs[OutputOf(d, v).value].visible == Some(v)
    requires Lists(e.groups) == Lists(d.groups)
    ensures var f := MoveFloating(e, g, v, true);
      Inv(f, {}) && g in f.groups && f.groups[g].pin == OutputOf(d, d.groups[g].workspace)
  {
    hide Sound, Lists;
    SoundGroup(d, g);
    MoveFloatingSound(e, g, v, true);
    MoveFloatingEffects(e, g, v, true);
    StanceUpdate(d.groups, g, e.groups[g]);
    var x := Carried(e, g, v);
    assert Stances(d.groups)[g := StanceOf(e.groups[g])][g := StanceOf(x)] == Stances(d.groups)[g := StanceOf(x)];
    SeatStepKeeps(d, MoveFloating(e, g, v, true), g, StanceOf(x));
  }

  lemma SeatStepKeeps(d: Desk, e: Desk, g: Id, stance: Stance)
    requires Inv(d, {}) && Sound(e) && SameOutputs(d, e) && g in d.groups && d.groups[g].windows != []
    requires Lists(e.groups) == Lists(d.groups) && Stances(e.groups) == Stances(d.groups)[g := stance]
    requires PinSound(d.outputs, stance)
    ensures Inv(e, {})
  {
    hide Inv;
    assert Lists(d.groups)[g := d.groups[g].windows] == Lists(d.groups);
    GroupStepKeeps(d, e, {}, g, d.groups[g].windows, stance, {});
  }

  // ----- to other workspaces

  ghost function MoveGroupToWorkspace(d: Desk, g: Id, ws: Id, r: real): Desk {
    if g !in d.groups then d
    else if d.groups[g].placement.Floating? then
      if d.groups[g].pin.Some? then d else MoveFloating(d, g, ws, false)
    else MoveTiled(d, g, ws, r)
  }

  lemma MoveGroupToWorkspaceKeeps(d: Desk, g: Id, ws: Id, r: real)
    requires Inv(d, {})
    ensures Inv(MoveGroupToWorkspace(d, g, ws, r), {})
  {
    MoveTiledKeeps(d, g, ws, r, {});
    if g in d.groups && d.groups[g].pin.None? {
      MoveFloatingKeeps(d, g, ws, false, {});
    }
  }

  ghost function MoveWindowToWorkspace(d: Desk, w: Id, ws: Id, r: real): Desk {
    if !(w in d.windows && d.windows[w].group.Some? && d.windows[w].group.value in d.groups
         && OutputOf(d, ws).Some? && d.groups[d.windows[w].group.value].workspace != ws) then d
    else if d.workspaces[ws].active.Some? then MoveWindow(d, w, d.workspaces[ws].active.value)
    else Isolated(d, w, ws, Horizontal, r)
  }

  lemma MoveWindowToWorkspaceKeeps(d: Desk, w: Id, ws: Id, r: real)
    requires Inv(d, {})
    ensures Inv(MoveWindowToWorkspace(d, w, ws, r), {})
  {
    if w in d.windows && d.windows[w].group.Some? && OutputOf(d, ws).Some? {
      if d.workspaces[ws].active.Some? {
        MoveWindowKeeps(d, w, d.workspaces[ws].active.value, {});
        assert {} - {d.workspaces[ws].active.value} == {};
      } else {
        IsolatedKeeps(d, w, ws, Horizontal, r);
      }
    }
  }

  // ----- what a window is part of

  /** A window without a group changes where it stands. */
  ghost function Stand(d: Desk, w: Id, workspace: Option<Id>, standing: Standing): Desk {
    if w in d.windows && d.windows[w].group.None? then
      WithWindow(d, w, d.windows[w].(workspace := workspace, standing := standing))
    else d
  }

  lemma StandKeeps(d: Desk, w: Id, workspace: Option<Id>, standing: Standing)
    requires Inv(d, {})
    ensures Inv(Stand(d, w, workspace, standing), {})
  {
    hide Homes, GroupSound, WorkspaceHoused;
    if w in d.windows && d.windows[w].group.None? {
      var e := Stand(d, w, workspace, standing);
      WindowUpdate(d.windows, w, e.windows[w]);
      forall g | g in d.groups
        ensures GroupSound(Roles(e.windows), Registries(d.workspaces), d.nextGroup, g, d.groups[g])
      {
        NotMember(d, g, w);
        GroupWithout(Roles(d.windows), Registries(d.workspaces), d.nextGroup, g, d.groups[g], w,
            e.windows[w].(fullscreen := false));
      }
      forall v | v in e.windows
        ensures WindowSound(Lists(d.groups), d.nextWindow, v, e.windows[v])
      {
        assert WindowSound(Lists(d.groups), d.nextWindow, v, d.windows[v]);
      }
    }
  }

  ghost function MakeTransient(d: Desk, w: Id, parent: Id): Desk {
    if w !in d.windows || parent !in d.windows || d.windows[parent].workspace.None? || w == parent then d
    else
      var e := Stand(RemoveWindow(d, w), w, d.windows[parent].workspace, Transient);
      if d.windows[w].mapped then FocusAny(e, w) else e
  }

  lemma MakeTransientKeeps(d: Desk, w: Id, parent: Id)
    requires Inv(d, {})
    ensures Inv(MakeTransient(d, w, parent), {})
  {
    if w in d.windows && parent in d.windows {
      RemoveWindowKeeps(d, w);
      var e := Stand(RemoveWindow(d, w), w, d.windows[parent].workspace, Transient);
      StandKeeps(RemoveWindow(d, w), w, d.windows[parent].workspace, Transient);
      FocusAnyKeeps(e, w, {});
    }
  }

  /** A loose window joins the tiled active group of its workspace, or a new one. */
  ghost function JoinTiled(d: Desk, w: Id, ws: Id, r: real): Desk
    requires ws in d.workspaces
  {
    var g := d.workspaces[ws].active;
    if g.Some? && g.value in d.groups && d.groups[g.value].placement.Tiled? then AddWindow(d, g.value, w)
    else AddWindow(CreateGroup(d, ws, Horizontal, r), d.nextGroup, w)
  }

  ghost function MakeTiled(d: Desk, w: Id, r: real): Desk {
    if w !in d.windows then d
    else if d.windows[w].group.Some? then
      var g := d.windows[w].group.value;
      if g !in d.groups || d.groups[g].placement.Tiled? || d.windows[w].fullscreen then d
      else if d.groups[g].windowCount == 1 then TileGroup(d, g, r)
      else if d.groups[g].workspace in d.workspaces then Isolated(d, w, d.groups[g].workspace, Horizontal, r)
      else d
    else
      var ws := if d.windows[w].workspace.Some? then d.windows[w].workspace else FocusedWorkspace(d);
      if ws.None? || ws.value !in d.workspaces then d
      else
        var e := JoinTiled(d, w, ws.value, r);
        if d.windows[w].mapped then FocusWindow(e, w) else e
  }

  lemma JoinTiledKeeps(d: Desk, w: Id, ws: Id, r: real)
    requires Inv(d, {}) && ws in d.workspaces && w in d.windows && d.windows[w].group.None?
    ensures Inv(JoinTiled(d, w, ws, r), {})
  {
    var g := d.workspaces[ws].active;
    if g.Some? && g.value in d.groups && d.groups[g.value].placement.Tiled? {
      AddKeeps(d, g.value, w, {});
      assert {} - {g.value} == {};
    } else {
      CreatedGroup(d, ws, Horizontal, r);
      AddKeeps(CreateGroup(d, ws, Horizontal, r), d.nextGroup, w, {} + {d.nextGroup});
      EmptySpare(d.nextGroup);
    }
  }

  lemma MakeTiledKeeps(d: Desk, w: Id, r: real)
    requires Inv(d, {})
    ensures Inv(MakeTiled(d, w, r), {})
  {
    hide TileGroup, Sound, Isolated;
    if w in d.windows {
      if d.windows[w].group.Some? {
        var g := d.windows[w].group.value;
        SoundWindow(d, w);
        SoundGroup(d, g);
        TileKeeps(d, g, r, {});
        IsolatedKeeps(d, w, d.groups[g].workspace, Horizontal, r);
      } else {
        var ws := if d.windows[w].workspace.Some? then d.windows[w].workspace else FocusedWorkspace(d);
        if ws.Some? && ws.value in d.workspaces {
          JoinTiledKeeps(d, w, ws.value, r);
          FocusKeeps(JoinTiled(d, w, ws.value, r), w, {});
        }
      }
    }
  }

  ghost function MakeFloating(d: Desk, w: Id, room: bool, r: real): Desk {
    if !(w in d.windows && d.windows[w].group.Some? && !d.windows[w].standing.Transient? && !d.windows[w].fullscreen
         && d.windows[w].group.value in d.groups) then d
    else
      var g := d.windows[w].group.value;
      if d.groups[g].placement.Floating? then d
      else if d.groups[g].windowCount == 1 then FloatGroup(d, g, room)
      else if d.groups[g].workspace in d.workspaces then
        FloatGroup(Isolated(d, w, d.groups[g].workspace, Horizontal, r), d.nextGroup, room)
      else d
  }

  lemma MakeFloatingKeeps(d: Desk, w: Id, room: bool, r: real)
    requires Inv(d, {})
    ensures Inv(MakeFloating(d, w, room, r), {})
  {
    if w in d.windows && d.windows[w].group.Some? {
      var g := d.windows[w].group.value;
      SoundWindow(d, w);
      SoundGroup(d, g);
      FloatKeeps(d, g, room, {});
      IsolatedKeeps(d, w, d.groups[g].workspace, Horizontal, r);
      FloatKeeps(Isolated(d, w, d.groups[g].workspace, Horizontal, r), d.nextGroup, room, {});
    }
  }

  ghost function SetFullscreen(d: Desk, w: Id, fullscreen: bool): Desk {
    if w in d.windows then WithWindow(d, w, d.windows[w].(fullscreen := fullscreen)) else d
  }

  lemma SetFullscreenKeeps(d: Desk, w: Id, fullscreen: bool)
    requires Inv(d, {})
    ensures Inv(SetFullscreen(d, w, fullscreen), {})
  {
    if w in d.windows {
      var e := SetFullscreen(d, w, fullscreen);
      assert Roles(e.windows) == Roles(d.windows);
      forall v | v in e.windows
        ensures WindowSound(Lists(d.groups), d.nextWindow, v, e.windows[v])
      {
        assert WindowSound(Lists(d.groups), d.nextWindow, v, d.windows[v]);
      }
    }
  }
}
