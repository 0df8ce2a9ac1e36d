/** The server as it runs: tables of windows, groups, workspaces and outputs that the operations update
step by step.  Each method is the operation of the same meaning on `View()`. */
module Server {
  import opened Seqs
  import opened LayoutTree
  import opened DeskState
  import opened DeskSteps
  import opened DeskMoves
  import opened DeskWindows
  import opened DeskOutputs
  import opened DeskSwitch
  import opened DeskPolicy
  import opened DeskReload
  import opened DeskTargets
  import opened DeskHandover
  import opened DeskOps
  import opened DeskGroups
  import opened DeskPlacement

  class Server {
    var windows: map<Id, Window>
    var groups: map<Id, Group>
    var groupOrder: seq<Id>
    var activeGroup: Option<Id>
    var workspaces: map<Id, Workspace>
    var workspaceOrder: seq<Id>
    var outputs: map<Id, Output>
    var outputOrder: seq<Id>
    var focusedOutput: Option<Id>
    var nextWindow: Id
    var nextGroup: Id
    var nextWorkspace: Id
    var nextSplit: Id
    /** The policy's initial split ratio. */
    const initialRatio: real

    constructor (initialRatio: real)
      ensures View() == Desk(map[], map[], [], None, map[], [], map[], [], None, 1, 1, 1, 0)
      ensures this.initialRatio == initialRatio
    {
      this.initialRatio := initialRatio;
      windows, groups, groupOrder, activeGroup := map[], map[], [], None;
      workspaces, workspaceOrder, outputs, outputOrder, focusedOutput := map[], [], map[], [], None;
      nextWindow, nextGroup, nextWorkspace, nextSplit := 1, 1, 1, 0;
    }

    ghost function View(): Desk
      reads this
    {
      Desk(windows, groups, groupOrder, activeGroup, workspaces, workspaceOrder, outputs, outputOrder, focusedOutput,
           nextWindow, nextGroup, nextWorkspace, nextSplit)
    }

    // ----- searches

    method FindLastMapped(list: seq<Id>) returns (result: Option<Id>)
      requires forall w :: w in list ==> w in windows
      ensures result == LastMapped(windows, list) && IsLast(list, MappedOnes(windows), result)
    {
      result := None;
      for i := 0 to |list|
        invariant result == LastMapped(windows, list[..i])
      {
        assert list[..i + 1][..i] == list[..i];
        var w := list[i];
        assert w in list;
        if windows[w].mapped {
          result := Some(w);
        }
      }
      assert list[..|list|] == list;
      LastMappedIsLast(windows, list);
    }

    method FindLastGroupIn(ws: Id) returns (result: Option<Id>)
      requires forall g :: g in groupOrder ==> g in groups
      ensures result == LastIn(groups, groupOrder, ws) && IsLast(groupOrder, GroupsOn(groups, ws), result)
    {
      result := None;
      for i := 0 to |groupOrder|
        invariant result == LastIn(groups, groupOrder[..i], ws)
      {
        assert groupOrder[..i + 1][..i] == groupOrder[..i];
        var g := groupOrder[i];
        assert g in groupOrder;
        if groups[g].workspace == ws {
          result := Some(g);
        }
      }
      assert groupOrder[..|groupOrder|] == groupOrder;
      LastInIsLast(groups, groupOrder, ws);
    }

    method IsVisible(ws: Id) returns (visible: bool)
      ensures visible == Visible(View(), ws)
    {
      if ws !in workspaces || workspaces[ws].output.None? {
        return false;
      }
      var o := workspaces[ws].output.value;
      return o in outputs && outputs[o].visible == Some(ws);
    }

    // ----- focus

    method SetActiveWindow(g: Id, active: Option<Id>)
      requires g in groups
      modifies `groups
      ensures View() == SetActive(old(View()), g, active)
    {
      groups := groups[g := groups[g].(active := active)];
    }

    /** The fullscreen window that had the focus on the same workspace stops being fullscreen. */
    method LeaveFullscreen(w: Id, ws: Id)
      modifies `windows
      ensures windows == Unfullscreened(old(View()), w, ws)
    {
      if activeGroup.None? || activeGroup.value !in groups || groups[activeGroup.value].active.None? {
        return;
      }
      var previous := groups[activeGroup.value].active.value;
      if previous == w || previous !in windows || !windows[previous].fullscreen || windows[previous].group.None? {
        return;
      }
      var g := windows[previous].group.value;
      if g in groups && groups[g].workspace == ws {
        windows := windows[previous := windows[previous].(fullscreen := false)];
      }
    }

    method FocusGroupWindow(w: Id)
      modifies `windows, `groups, `workspaces, `activeGroup, `focusedOutput
      ensures View() == FocusWindow(old(View()), w)
    {
      if w !in windows || !windows[w].mapped || windows[w].group.None? || windows[w].group.value !in groups {
        return;
      }
      var g := windows[w].group.value;
      var ws := groups[g].workspace;
      var visible := IsVisible(ws);
      if !visible {
        return;
      }
      focusedOutput := workspaces[ws].output;
      LeaveFullscreen(w, ws);
      workspaces := workspaces[ws := workspaces[ws].(active := Some(g))];
      activeGroup := Some(g);
      SetActiveWindow(g, Some(w));
    }

    // ----- membership

    method AppendWindow(g: Id, w: Id)
      requires g in groups && w in windows
      modifies `windows, `groups
      ensures View() == AddWindow(old(View()), g, w)
    {
      var x := groups[g];
      windows := windows[w := windows[w].(group := Some(g), workspace := Some(x.workspace),
          standing := Within(x.placement))];
      groups := groups[g := x.(windows := x.windows + [w], windowCount := x.windowCount + 1)];
    }

    method UnlinkWindow(w: Id)
      requires Sound(View()) && w in windows && windows[w].group.Some?
      modifies `windows, `groups
      ensures View() == Leave(old(View()), w)
    {
      hide Without, WorkspacesSound, Sound, Belongs;
      SoundWindow(View(), w);
      var g := windows[w].group.value;
      SoundGroup(View(), g);
      var wasActive := groups[g].active == Some(w);
      var rest := Without(groups[g].windows, w);
      WithoutMembers(groups[g].windows, w);
      var last := FindLastMapped(rest);
      windows := windows[w := windows[w].(group := None)];
      groups := groups[g := groups[g].(windows := rest, windowCount := groups[g].windowCount - 1)];
      if wasActive {
        SetActiveWindow(g, last);
      }
    }

    method CreateIn(ws: Id, o: Orientation) returns (g: Id)
      requires ws in workspaces
      modifies `groups, `groupOrder, `workspaces, `activeGroup, `nextGroup, `nextSplit
      ensures View() == CreateGroup(old(View()), ws, o, initialRatio) && g == old(nextGroup)
    {
      g := nextGroup;
      var anchor := FindAnchor(ws);
      var w := workspaces[ws];
      w := w.(layout := Entered(w.layout, anchor, g, nextSplit, o, initialRatio));
      nextSplit := nextSplit + 1;
      Enlist(g, ws);
      w := w.(active := Some(g));
      workspaces := workspaces[ws := w];
      if focusedOutput.Some? && focusedOutput.value in outputs && outputs[focusedOutput.value].visible == Some(ws) {
        activeGroup := Some(g);
      }
    }

    method Enlist(g: Id, ws: Id)
      modifies `groups, `groupOrder, `nextGroup
      ensures groups == old(groups)[g := Group(ws, Tiled, [], 0, None, true, None)]
      ensures groupOrder == old(groupOrder) + [g] && nextGroup == old(nextGroup) + 1
    {
      groups := groups[g := Group(ws, Tiled, [], 0, None, true, None)];
      groupOrder := groupOrder + [g];
      nextGroup := nextGroup + 1;
    }

    method FindAnchor(ws: Id) returns (anchor: Option<Id>)
      requires ws in workspaces
      ensures anchor == Anchor(View(), ws)
    {
      var active := workspaces[ws].active;
      if active.Some? && active.value in groups && groups[active.value].hasTile {
        return active;
      }
      var tiles := workspaces[ws].layout.tiles;
      return if tiles == [] then None else Some(tiles[|tiles| - 1]);
    }

    method Destroy(g: Id)
      requires g in groups && groups[g].workspace in workspaces && forall h :: h in groupOrder ==> h in groups
      modifies `groups, `groupOrder, `workspaces, `activeGroup
      ensures View() == DestroyGroup(old(View()), g)
    {
      var ws := groups[g].workspace;
      var w := workspaces[ws];
      var wasWorkspaceActive, wasServerActive := w.active == Some(g), activeGroup == Some(g);
      if groups[g].hasTile {
        w := w.(layout := Departed(w.layout, g));
      }
      UnlinkGroup(g);
      var fallback := None;
      if wasWorkspaceActive {
        fallback := FindLastGroupIn(ws);
        w := w.(active := fallback);
      }
      workspaces := workspaces[ws := w];
      if wasServerActive {
        activeGroup := fallback;
      }
    }

    method UnlinkGroup(g: Id)
      requires forall h :: h in groupOrder ==> h in groups
      modifies `groups, `groupOrder
      ensures groups == old(groups) - {g} && groupOrder == Without(old(groupOrder), g)
      ensures forall h :: h in groupOrder ==> h in groups
    {
      WithoutMembers(groupOrder, g);
      groups := groups - {g};
      groupOrder := Without(groupOrder, g);
    }

    method MoveTo(w: Id, target: Id)
      requires Sound(View())
      modifies this
      ensures View() == MoveWindow(old(View()), w, target) && Sound(View())
    {
      MoveWindowSound(View(), w, target);
      if w !in windows || windows[w].group.None? || windows[w].group == Some(target) || target !in groups {
        return;
      }
      var source := windows[w].group.value;
      SoundWindow(View(), w);
      TransferredSound(View(), w, target);
      LeaveSound(View(), w);
      AddWindowSound(Leave(View(), w), target, w);
      UnlinkWindow(w);
      AppendWindow(target, w);
      if groups[source].windowCount == 0 {
        SoundGroup(View(), source);
        Destroy(source);
      }
      if windows[w].mapped {
        FocusGroupWindow(w);
      }
    }

    // ----- several windows

    method Merge(source: Id, target: Id) returns (merged: bool)
      requires Sound(View())
      modifies this
      ensures merged == CanMerge(old(View()), source, target) && View() == MergeGroups(old(View()), source, target)
    {
      if source !in groups || target !in groups || source == target || groups[source].workspace != groups[target].workspace
         || groups[source].windowCount == 0 {
        return false;
      }
      SoundGroup(View(), source);
      ghost var was, list := View(), groups[source].windows;
      var count := |groups[source].windows|;
      for i := 0 to count
        invariant Sound(View()) && target in groups
        invariant i < count ==> source in groups && groups[source].windows == list[i..]
        invariant MoveWindows(View(), list[i..], target) == MoveWindows(was, list, target)
      {
        var w := groups[source].windows[0];
        HeadMoves(View(), source, target, list[i..]);
        assert list[i..][1..] == list[i + 1..];
        MoveTo(w, target);
      }
      assert list[count..] == [];
      return true;
    }

    /** The windows from `first` up to `last` in a list, counted and then collected. */
    method CollectRange(list: seq<Id>, first: Id, last: Id) returns (found: bool, range: seq<Id>)
      requires NoDup(list)
      ensures found == (RangeOf(list, first, last) != []) && (found ==> range == RangeOf(list, first, last))
    {
      var inRange := false;
      found, range := false, [];
      var i := 0;
      while i < |list| && !found
        invariant 0 <= i <= |list|
        invariant !inRange ==> !found && range == [] && RangeOf(list, first, last) == RangeOf(list[i..], first, last)
        invariant inRange && !found ==>
          RangeOf(list, first, last) == (if UpTo(list[i..], last) == [] then [] else range + UpTo(list[i..], last))
        invariant found ==> range != [] && range == RangeOf(list, first, last)
        decreases |list| - i, !found
      {
        assert list[i..] == [list[i]] + list[i + 1..];
        if list[i] == first {
          inRange := true;
        }
        if inRange {
          range := range + [list[i]];
          found := list[i] == last;
        }
        i := i + 1;
      }
      assert !found ==> list[i..] == [];
    }

    method MoveRangeIds(first: Id, last: Id, target: Id) returns (moved: bool)
      requires Sound(View())
      modifies this
      ensures moved == CanMoveRange(old(View()), first, last, target)
      ensures View() == MoveRange(old(View()), first, last, target) && Sound(View())
    {
      ghost var was := View();
      if first !in windows || last !in windows || target !in groups || windows[first].group.None?
         || windows[first].group != windows[last].group || windows[first].group == Some(target)
         || windows[first].group.value !in groups || groups[windows[first].group.value].workspace != groups[target].workspace {
        return false;
      }
      SoundGroup(View(), windows[first].group.value);
      var found, range := CollectRange(groups[windows[first].group.value].windows, first, last);
      if !found {
        return false;
      }
      for i := 0 to |range|
        invariant Sound(View())
        invariant MoveWindows(View(), range[i..], target) == MoveWindows(was, range, target)
      {
        assert range[i..][0] == range[i] && range[i..][1..] == range[i + 1..];
        MoveTo(range[i], target);
      }
      assert range[|range|..] == [];
      return true;
    }

    // ----- placement

    /** The members of a group take over its workspace and placement. */
    method MembersFollow(g: Id)
      requires g in groups && forall w :: w in groups[g].windows ==> w in windows
      modifies `windows
      ensures windows == Following(old(windows), groups[g])
    {
      var x := groups[g];
      ghost var was := windows;
      assert FollowingOf(was, x.windows[..0], x) == was;
      for i := 0 to |x.windows|
        invariant windows == FollowingOf(was, x.windows[..i], x)
      {
        var w := x.windows[i];
        assert w in x.windows && x.windows[..i + 1] == x.windows[..i] + [w];
        windows := windows[w := windows[w].(workspace := Some(x.workspace), standing := Within(x.placement))];
      }
      assert x.windows[..|x.windows|] == x.windows;
    }

    /** The group gets another seat, and its members with it. */
    method Settle(g: Id, x: Group)
      requires g in groups && x.windows == groups[g].windows && forall w :: w in x.windows ==> w in windows
      modifies `groups, `windows
      ensures groups == old(groups)[g := x] && windows == Following(old(windows), x)
    {
      groups := groups[g := x];
      MembersFollow(g);
    }

    method FocusActiveOf(g: Id)
      requires g in groups
      modifies `windows, `groups, `workspaces, `activeGroup, `focusedOutput
      ensures View() == FocusActive(old(View()), g)
    {
      if groups[g].active.Some? {
        FocusGroupWindow(groups[g].active.value);
      }
    }

    method Float(g: Id, room: bool) returns (floated: bool)
      requires Sound(View())
      modifies this
      ensures floated == (CanFloat(old(View()), g) && room) && View() == FloatGroup(old(View()), g, room)
    {
      hide Sound;
      if g !in groups || groups[g].placement.Floating? || !groups[g].hasTile {
        return false;
      }
      SoundGroup(View(), g);
      var active := groups[g].active;
      if (active.Some? && windows[active.value].fullscreen) || !room {
        return false;
      }
      var ws := groups[g].workspace;
      workspaces := workspaces[ws := workspaces[ws].(layout := Departed(workspaces[ws].layout, g))];
      Settle(g, groups[g].(placement := Floating, hasTile := false, pin := None));
      FocusActiveOf(g);
      return true;
    }

    /** The group gets a place in the layout of its workspace. */
    method EnterLayout(g: Id)
      requires g in groups && groups[g].workspace in workspaces
      modifies `workspaces, `nextSplit
      ensures var ws := groups[g].workspace; workspaces == old(workspaces)[ws := old(workspaces[ws]).(
        layout := Entered(old(workspaces[ws]).layout, old(Anchor(View(), ws)), g, old(nextSplit), Horizontal,
            initialRatio))]
      ensures nextSplit == old(nextSplit) + 1
    {
      var ws := groups[g].workspace;
      var anchor := FindAnchor(ws);
      var w := workspaces[ws];
      w := w.(layout := Entered(w.layout, anchor, g, nextSplit, Horizontal, initialRatio));
      workspaces := workspaces[ws := w];
      nextSplit := nextSplit + 1;
    }

    method Tile(g: Id) returns (tiled: bool)
      requires Sound(View())
      modifies this
      ensures tiled == CanTile(old(View()), g) && View() == TileGroup(old(View()), g, initialRatio)
    {
      hide Sound;
      if g !in groups || groups[g].placement.Tiled? || groups[g].hasTile {
        return false;
      }
      SoundGroup(View(), g);
      var active := groups[g].active;
      if active.Some? && windows[active.value].fullscreen {
        return false;
      }
      ghost var was := View();
      EnterLayout(g);
      Settle(g, groups[g].(placement := Tiled, hasTile := true, pin := None));
      assert View() == TiledAgain(was, g, initialRatio);
      FocusActiveOf(g);
      return true;
    }

    // ----- to other workspaces

    /** The group left `source`; whoever comes last there takes over if it was active. */
    method LeaveWorkspace(g: Id, source: Id, ghost was: Desk)
      requires source in workspaces && was.groupOrder == groupOrder && was.workspaces == workspaces
      requires forall h :: h in groupOrder ==> h in groups
      modifies `workspaces
      ensures workspaces == old(workspaces)[source := Deserted(was, g, groups, source)]
    {
      if workspaces[source].active == Some(g) {
        var last := FindLastGroupIn(source);
        workspaces := workspaces[source := workspaces[source].(active := last)];
      }
    }

    method EnterWorkspace(g: Id, target: Id)
      requires target in workspaces
      modifies `workspaces
      ensures workspaces == old(workspaces)[target := Occupied(old(workspaces[target]), g)]
    {
      if workspaces[target].active.None? {
        workspaces := workspaces[target := workspaces[target].(active := Some(g))];
      }
    }

    method MoveFloatingTo(g: Id, target: Id, follow: bool)
      requires Sound(View())
      modifies this
      ensures View() == MoveFloating(old(View()), g, target, follow)
    {
      if g !in groups || groups[g].placement.Tiled? || groups[g].workspace !in workspaces || target !in workspaces
         || workspaces[target].output.None? || groups[g].workspace == target {
        return;
      }
      SoundGroup(View(), g);
      var from, to := workspaces[groups[g].workspace].output, workspaces[target].output;
      var x := groups[g].(workspace := target);
      if from != to && x.pin != to {
        x := x.(pin := None);
      }
      MoveFloatingParts(View(), g, target, follow);
      Carry(g, x, target, follow);
    }

    /** The group takes its new seat; without `follow` activity stays on the workspace it left. */
    method Carry(g: Id, x: Group, target: Id, follow: bool)
      requires g in groups && x.windows == groups[g].windows && forall w :: w in x.windows ==> w in windows
      requires groups[g].workspace in workspaces && target in workspaces && groups[g].workspace != target
      requires forall h :: h in groupOrder ==> h in groups
      modifies `groups, `windows, `workspaces, `activeGroup
      ensures groups == old(groups)[g := x] && windows == Following(old(windows), x)
      ensures var source := old(groups[g].workspace); var s := Deserted(old(View()), g, groups, source);
        && workspaces == old(workspaces)[source := s][target := Occupied(old(workspaces[target]), g)]
        && activeGroup == if old(activeGroup) == Some(g) && !follow then s.active else old(activeGroup)
    {
      var source, wasServerActive := groups[g].workspace, activeGroup == Some(g);
      Settle(g, x);
      HandOver(g, source, target);
      if wasServerActive && !follow {
        activeGroup := workspaces[source].active;
      }
    }

    /** The workspace the group left and the one it entered choose their active groups. */
    method HandOver(g: Id, source: Id, target: Id)
      requires source in workspaces && target in workspaces && source != target
      requires forall h :: h in groupOrder ==> h in groups
      modifies `workspaces
      ensures workspaces ==
        old(workspaces)[source := Deserted(old(View()), g, groups, source)][target := Occupied(old(workspaces[target]), g)]
    {
      LeaveWorkspace(g, source, View());
      EnterWorkspace(g, target);
    }

    /** Groups pinned to an output move to the workspace it is about to show. */
    method FollowPinnedGroups(o: Id, target: Id)
      requires Sound(View())
      modifies this
      ensures View() == FollowPinned(old(View()), o, target) && Sound(View())
    {
      if target !in workspaces || workspaces[target].output != Some(o) {
        return;
      }
      ghost var was := View();
      var list := groupOrder;
      for i := 0 to |list|
        invariant Sound(View())
        invariant Follow(View(), list[i..], o, target) == Follow(was, list, o, target)
      {
        var g := list[i];
        assert list[i..][0] == g && list[i..][1..] == list[i + 1..];
        if g in groups && groups[g].placement.Floating? && groups[g].pin == Some(o) && groups[g].workspace != target {
          MoveFloatingSound(View(), g, target, true);
          MoveFloatingTo(g, target, true);
        }
      }
      assert list[|list|..] == [];
    }

    method FocusVisibleWorkspace(o: Id)
      modifies `windows, `groups, `workspaces, `activeGroup, `focusedOutput
      ensures View() == FocusVisible(old(View()), o)
    {
      if o !in outputs || outputs[o].visible.None? || outputs[o].visible.value !in workspaces {
        return;
      }
      focusedOutput := Some(o);
      var active := workspaces[outputs[o].visible.value].active;
      if active.Some? && active.value in groups && groups[active.value].active.Some? {
        var w := groups[active.value].active.value;
        if w in windows && windows[w].mapped {
          FocusGroupWindow(w);
          return;
        }
      }
      activeGroup := active;
    }

    method SwitchOutputWorkspace(o: Id, target: Id, focus: bool) returns (switched: bool)
      requires Sound(View())
      modifies this
      ensures switched == CanSwitch(old(View()), o, target)
      ensures View() == SwitchWorkspace(old(View()), o, target, focus)
    {
      if o !in outputs || target !in workspaces || workspaces[target].output != Some(o) {
        return false;
      }
      if outputs[o].visible != Some(target) {
        ghost var was := View();
        FollowEffects(was, was.groupOrder, o, target);
        FollowPinnedGroups(o, target);
        outputs := outputs[o := outputs[o].(visible := Some(target))];
      }
      if focus {
        FocusVisibleWorkspace(o);
      }
      return true;
    }

    // ----- hotplug

    method AssignWorkspace(o: Id, ws: Id)
      requires o in outputs && ws in workspaces
      modifies `workspaces, `outputs
      ensures View() == Assign(old(View()), o, ws)
    {
      if workspaces[ws].output.Some? {
        return;
      }
      workspaces := workspaces[ws := workspaces[ws].(output := Some(o))];
      outputs := outputs[o := outputs[o].(assignments := outputs[o].assignments + [ws])];
    }

    method AssignMatching(o: Id, want: Option<Id>)
      requires o in outputs && forall ws :: ws in workspaceOrder ==> ws in workspaces
      modifies `workspaces, `outputs
      ensures View() == AssignAll(old(View()), o, workspaceOrder, want)
      ensures o in outputs && forall ws :: ws in workspaceOrder ==> ws in workspaces
    {
      ghost var was := View();
      for i := 0 to |workspaceOrder|
        invariant o in outputs && forall ws :: ws in workspaceOrder ==> ws in workspaces
        invariant AssignAll(View(), o, workspaceOrder[i..], want) == AssignAll(was, o, workspaceOrder, want)
        invariant View() == was.(workspaces := workspaces, outputs := outputs)
      {
        var ws := workspaceOrder[i];
        assert ws in workspaceOrder;
        assert workspaceOrder[i..][0] == ws && workspaceOrder[i..][1..] == workspaceOrder[i + 1..];
        if workspaces[ws].affinity == want {
          AssignWorkspace(o, ws);
        }
      }
      assert workspaceOrder[|workspaceOrder|..] == [];
    }

    method FindUnassignedWorkspace() returns (found: Option<Id>)
      requires forall ws :: ws in workspaceOrder ==> ws in workspaces
      ensures found == FindUnassigned(View(), workspaceOrder)
    {
      for i := 0 to |workspaceOrder|
        invariant FindUnassigned(View(), workspaceOrder[i..]) == FindUnassigned(View(), workspaceOrder)
      {
        var ws := workspaceOrder[i];
        assert ws in workspaceOrder;
        assert workspaceOrder[i..][0] == ws && workspaceOrder[i..][1..] == workspaceOrder[i + 1..];
        if workspaces[ws].output.None? && workspaces[ws].affinity.None? {
          return Some(ws);
        }
      }
      assert workspaceOrder[|workspaceOrder|..] == [];
      return None;
    }

    method NewWorkspace() returns (ws: Id)
      modifies `workspaces, `workspaceOrder, `nextWorkspace
      ensures View() == CreateWorkspace(old(View())) && ws == old(nextWorkspace)
    {
      ws := nextWorkspace;
      nextWorkspace := nextWorkspace + 1;
      workspaces := workspaces[ws := Workspace(None, None, false, None, Tiling(None, []))];
      workspaceOrder := workspaceOrder + [ws];
    }

    /** The output gets the workspaces that prefer it; the first output of all gets those without a
        preference too; and an output left without any gets one of its own. */
    method PopulateOutput(o: Id, name: Id)
      requires Inv(View(), {}) && o !in outputs
      modifies this
      ensures View() == Populated(old(View()), o, name)
    {
      ghost var was := View();
      assert Homes(workspaces).Keys == workspaces.Keys;
      var first := focusedOutput.None?;
      outputs := outputs[o := Output(name, None, [])];
      outputOrder := outputOrder + [o];
      AssignMatching(o, Some(name));
      if first {
        AssignMatching(o, None);
      }
      if outputs[o].assignments == [] {
        var ws := FindUnassignedWorkspace();
        FoundUnassigned(View(), workspaceOrder);
        if ws.Some? {
          AssignWorkspace(o, ws.value);
        } else {
          var created := NewWorkspace();
          AssignWorkspace(o, created);
        }
      }
    }

    method FindStartup(list: seq<Id>) returns (startup: Option<Id>)
      requires forall ws :: ws in list ==> ws in workspaces
      ensures startup == StartupOf(View(), list)
    {
      for i := 0 to |list|
        invariant StartupOf(View(), list[i..]) == StartupOf(View(), list)
      {
        var ws := list[i];
        assert ws in list && list[i..][0] == ws && list[i..][1..] == list[i + 1..];
        if workspaces[ws].startup {
          return Some(ws);
        }
      }
      assert list[|list|..] == [];
      return None;
    }

    method OutputAdded(o: Id, name: Id)
      requires Inv(View(), {}) && o !in outputs
      modifies this
      ensures View() == AddOutput(old(View()), o, name) && Inv(View(), {})
    {
      AddOutputKeeps(View(), o, name, {});
      PopulatedKeeps(View(), o, name, {});
      var first := focusedOutput.None?;
      PopulateOutput(o, name);
      var list := outputs[o].assignments;
      AllHoused(View(), o);
      var startup := FindStartup(list);
      var target := if startup.Some? then startup.value else list[0];
      var _ := SwitchOutputWorkspace(o, target, first);
    }

    method ClearPins(o: Id)
      requires forall g :: g in groupOrder ==> g in groups
      modifies `groups
      ensures groups == Unpinned(old(groups), groupOrder, o)
    {
      ghost var was := groups;
      assert Unpinned(was, groupOrder[..0], o) == was;
      for i := 0 to |groupOrder|
        invariant groups == Unpinned(was, groupOrder[..i], o)
      {
        var g := groupOrder[i];
        assert g in groupOrder && groupOrder[..i + 1] == groupOrder[..i] + [g];
        if groups[g].pin == Some(o) {
          groups := groups[g := groups[g].(pin := None)];
        }
      }
      assert groupOrder[..|groupOrder|] == groupOrder;
    }

    method OutputRemoved(o: Id)
      requires Inv(View(), {}) && o in outputs
      modifies this
      ensures View() == RemoveOutput(old(View()), o) && Inv(View(), {})
    {
      hide Inv;
      RemoveOutputKeeps(View(), o, {});
      var wasFocused := focusedOutput == Some(o);
      Disconnect(o);
      if wasFocused {
        if outputOrder != [] {
          FocusVisibleWorkspace(outputOrder[0]);
        } else {
          activeGroup := None;
        }
      }
    }

    /** The output is gone, and with it its pins and assignments. */
    method Disconnect(o: Id)
      requires Inv(View(), {}) && o in outputs
      modifies `outputs, `outputOrder, `groups, `workspaces, `focusedOutput
      ensures View() == Disconnected(old(View()), o)
    {
      ghost var was := View();
      DisconnectedParts(was, o);
      outputOrder := Without(outputOrder, o);
      ClearPins(o);
      ReleaseWorkspaces(outputs[o].assignments);
      outputs := outputs - {o};
      if focusedOutput == Some(o) {
        focusedOutput := None;
      }
      assert View() == Disconnected(was, o);
    }

    /** The workspaces of an output become unassigned. */
    method ReleaseWorkspaces(list: seq<Id>)
      requires forall ws :: ws in list ==> ws in workspaces
      modifies `workspaces
      ensures workspaces == Released(old(workspaces), list)
    {
      ghost var was := workspaces;
      assert Released(was, list[..0]) == was;
      for i := 0 to |list|
        invariant workspaces == Released(was, list[..i])
      {
        var ws := list[i];
        assert ws in list && list[..i + 1] == list[..i] + [ws];
        workspaces := workspaces[ws := workspaces[ws].(output := None)];
      }
      assert list[..|list|] == list;
    }

    method ActivateWorkspace(ws: Id) returns (activated: bool)
      requires Sound(View())
      modifies this
      ensures activated == (OutputOf(old(View()), ws).Some? && OutputOf(old(View()), ws).value in old(outputs))
      ensures View() == Activate(old(View()), ws)
    {
      if ws !in workspaces || workspaces[ws].output.None? {
        return false;
      }
      activated := SwitchOutputWorkspace(workspaces[ws].output.value, ws, true);
    }

    method FocusWindowById(w: Id) returns (focused: bool)
      requires Sound(View())
      modifies this
      ensures View() == FocusWindowId(old(View()), w)
      ensures focused == (FocusableById(old(View()), w) && HasFocus(View(), w))
    {
      if w !in windows || windows[w].group.None? || !windows[w].mapped || windows[w].group.value !in groups
         || groups[windows[w].group.value].workspace !in workspaces {
        return false;
      }
      var ws := groups[windows[w].group.value].workspace;
      if workspaces[ws].output.None? {
        return false;
      }
      var _ := ActivateWorkspace(ws);
      FocusGroupWindow(w);
      if w !in windows || windows[w].group.None? || windows[w].group.value !in groups {
        return false;
      }
      return activeGroup == windows[w].group && groups[windows[w].group.value].active == Some(w);
    }

    /** Splits a group at a window: that window and those after it move to a new group. */
    method SplitAtWindow(w: Id, o: Orientation) returns (split: bool)
      requires Inv(View(), {})
      modifies this
      ensures split == (CanSplitAt(old(View()), w) && FocusableById(old(View()), w))
      ensures View() == SplitAt(old(View()), w, o, initialRatio) && Inv(View(), {})
    {
      SplitAtKeeps(View(), w, o, initialRatio);
      if w !in windows || windows[w].group.None? || !windows[w].mapped || windows[w].group.value !in groups {
        return false;
      }
      var source := windows[w].group.value;
      var x := groups[source];
      SoundGroup(View(), source);
      if x.placement.Floating? || !x.hasTile || x.windowCount < 2 || x.windows[0] == w {
        return false;
      }
      var last := x.windows[|x.windows| - 1];
      split := SplitTail(source, w, last, o);
    }

    /** Focuses the window and moves it and those after it to a new group. */
    method SplitTail(source: Id, w: Id, last: Id, o: Orientation) returns (split: bool)
      requires Inv(View(), {}) && CanSplitAt(View(), w) && windows[w].group == Some(source)
      requires last == groups[source].windows[|groups[source].windows| - 1]
      modifies this
      ensures split == FocusableById(old(View()), w) && View() == SplitAt(old(View()), w, o, initialRatio)
    {
      hide SplitAt, Sound, FocusWindowId;
      SplitAtCases(View(), w, source, o, initialRatio);
      var focused := FocusWindowById(w);
      if !focused || source !in groups {
        return false;
      }
      SoundGroup(View(), source);
      CreateGroupSound(View(), groups[source].workspace, o, initialRatio);
      var target := CreateIn(groups[source].workspace, o);
      split := MoveRangeIds(w, last, target);
    }

    /** A window leaves its group; an empty group is destroyed. */
    method RemoveFromGroup(w: Id)
      requires Sound(View())
      modifies this
      ensures View() == RemoveWindow(old(View()), w)
    {
      if w !in windows || windows[w].group.None? {
        return;
      }
      SoundWindow(View(), w);
      LeaveSound(View(), w);
      var g := windows[w].group.value;
      UnlinkWindow(w);
      if groups[g].windowCount == 0 {
        SoundGroup(View(), g);
        Destroy(g);
      }
    }

    /** `w` stands on the given side of `reference` already. */
    method AlreadyPlaced(list: seq<Id>, w: Id, reference: Id, side: Side) returns (placed: bool)
      ensures placed == StandsBeside(list, w, reference, side)
    {
      if list == [] {
        return false;
      }
      for i := 0 to |list| - 1
        invariant forall j :: 0 <= j < i ==>
          !(if side.Before? then list[j] == w && list[j + 1] == reference else list[j] == reference && list[j + 1] == w)
      {
        if side.Before? && list[i] == w && list[i + 1] == reference {
          return true;
        }
        if side.After? && list[i] == reference && list[i + 1] == w {
          return true;
        }
      }
      return false;
    }

    method MoveWindowRelative(w: Id, reference: Id, side: Side) returns (moved: bool)
      requires Inv(View(), {})
      modifies this
      ensures moved == MovesRelative(old(View()), w, reference, side)
      ensures View() == MoveRelative(old(View()), w, reference, side) && Inv(View(), {})
    {
      MoveRelativeKeeps(View(), w, reference, side);
      if w !in windows || reference !in windows || w == reference || windows[w].group.None? || windows[reference].group.None?
         || !windows[w].mapped || !windows[reference].mapped || windows[w].group.value !in groups
         || windows[reference].group.value !in groups
         || groups[windows[w].group.value].workspace != groups[windows[reference].group.value].workspace {
        return false;
      }
      var target := windows[reference].group.value;
      if windows[w].group == Some(target) {
        var placed := AlreadyPlaced(groups[target].windows, w, reference, side);
        if placed {
          return false;
        }
      } else {
        StaysMember(View(), w, reference, target);
        MoveTo(w, target);
      }
      PlaceBeside(w, reference, side, target);
      return true;
    }

    method PlaceBeside(w: Id, reference: Id, side: Side, g: Id)
      requires g in groups && reference in windows && windows[reference].group == Some(g)
      modifies `groups
      ensures View() == Reposition(old(View()), w, reference, side)
    {
      groups := groups[g := groups[g].(windows := Placed(groups[g].windows, w, reference, side))];
    }

    /** Pinning brings a floating group to the workspace its output shows. */
    method SetGroupPinned(g: Id, pinned: bool) returns (done: bool)
      requires Inv(View(), {})
      modifies this
      ensures done == CanPin(old(View()), g)
      ensures View() == SetPinned(old(View()), g, pinned) && Inv(View(), {})
    {
      SetPinnedKeeps(View(), g, pinned);
      if g !in groups || groups[g].placement.Tiled? || groups[g].workspace !in workspaces
         || workspaces[groups[g].workspace].output.None? || workspaces[groups[g].workspace].output.value !in outputs {
        return false;
      }
      var o := workspaces[groups[g].workspace].output;
      PinOnlySound(View(), g, if pinned then o else None);
      groups := groups[g := groups[g].(pin := if pinned then o else None)];
      var visible := outputs[o.value].visible;
      if pinned && visible.Some? && visible.value != groups[g].workspace {
        MoveFloatingTo(g, visible.value, true);
      }
      return true;
    }

    // ----- the workspace policy

    method FindPolicy(policy: seq<Item>, id: Id) returns (item: Option<Item>)
      ensures item == FindItem(policy, id)
    {
      if id == 0 {
        return None;
      }
      for i := 0 to |policy|
        invariant FindItem(policy[i..], id) == FindItem(policy, id)
      {
        assert policy[i..][0] == policy[i] && policy[i..][1..] == policy[i + 1..];
        if policy[i].id == id {
          return Some(policy[i]);
        }
      }
      assert policy[|policy|..] == [];
      return None;
    }

    method FindOutputByName(name: Id) returns (found: Option<Id>)
      ensures found == OutputNamed(View(), outputOrder, name)
    {
      for i := 0 to |outputOrder|
        invariant OutputNamed(View(), outputOrder[i..], name) == OutputNamed(View(), outputOrder, name)
      {
        var o := outputOrder[i];
        assert outputOrder[i..][0] == o && outputOrder[i..][1..] == outputOrder[i + 1..];
        if o in outputs && outputs[o].name == name {
          return Some(o);
        }
      }
      assert outputOrder[|outputOrder|..] == [];
      return None;
    }

    method PolicyTarget(item: Item) returns (target: Option<Id>)
      requires item.id in workspaces
      ensures target == TargetOutput(View(), item)
    {
      if item.affinity.Some? {
        target := FindOutputByName(item.affinity.value);
      } else if workspaces[item.id].output.Some? {
        target := workspaces[item.id].output;
      } else if focusedOutput.Some? {
        target := focusedOutput;
      } else {
        target := if outputOrder == [] then None else Some(outputOrder[0]);
      }
    }

    /** Counts the workspaces that would be on output `o`. */
    method CountTargets(policy: seq<Item>, o: Id) returns (count: nat)
      requires forall ws :: ws in workspaceOrder ==> ws in workspaces
      ensures count > 0 <==> exists ws :: ws in workspaceOrder && Planned(View(), policy, ws) == Some(o)
    {
      count := 0;
      for i := 0 to |workspaceOrder|
        invariant count > 0 <==> exists ws :: ws in workspaceOrder[..i] && Planned(View(), policy, ws) == Some(o)
      {
        var ws := workspaceOrder[i];
        assert ws in workspaceOrder && workspaceOrder[..i + 1] == workspaceOrder[..i] + [ws];
        var item := FindPolicy(policy, ws);
        var target := workspaces[ws].output;
        if item.Some? {
          FoundIsDeclared(policy, ws);
          target := PolicyTarget(item.value);
        }
        assert target == Planned(View(), policy, ws);
        if target == Some(o) {
          assert ws in workspaceOrder[..i + 1];
          count := count + 1;
        }
      }
      assert workspaceOrder[..|workspaceOrder|] == workspaceOrder;
    }

    method ValidatePolicy(current: seq<Id>, policy: seq<Item>) returns (accepted: bool)
      requires forall ws :: ws in workspaceOrder ==> ws in workspaces
      ensures accepted == Acceptable(View(), current, policy)
    {
      if |current| != |policy| {
        return false;
      }
      for i := 0 to |current|
        invariant forall j :: 0 <= j < i ==> FindItem(policy, current[j]).Some?
      {
        var item := FindPolicy(policy, current[i]);
        if item.None? {
          return false;
        }
      }
      for i := 0 to |policy|
        invariant forall j :: 0 <= j < i ==> Live(View(), policy[j].id)
      {
        if policy[i].id == 0 || policy[i].id !in workspaces {
          return false;
        }
      }
      for i := 0 to |outputOrder|
        invariant forall o :: o in outputOrder[..i] ==>
          exists ws :: ws in workspaceOrder && Planned(View(), policy, ws) == Some(o)
      {
        var o := outputOrder[i];
        assert o in outputOrder && outputOrder[..i + 1] == outputOrder[..i] + [o];
        var count := CountTargets(policy, o);
        if count == 0 {
          return false;
        }
      }
      assert outputOrder[..|outputOrder|] == outputOrder;
      return true;
    }

    method UnassignWorkspace(ws: Id)
      requires ws in workspaces && (workspaces[ws].output.Some? ==> workspaces[ws].output.value in outputs)
      modifies `workspaces, `outputs
      ensures View() == Unassign(old(View()), ws)
    {
      if workspaces[ws].output.None? {
        return;
      }
      var previous := workspaces[ws].output.value;
      var o := outputs[previous];
      if o.visible == Some(ws) {
        o := o.(visible := None);
      }
      o := o.(assignments := Without(o.assignments, ws));
      outputs := outputs[previous := o];
      workspaces := workspaces[ws := workspaces[ws].(output := None)];
    }

    method Rehome(item: Item)
      requires Housed(View())
      modifies `workspaces, `outputs
      ensures View() == Rehomed(old(View()), item)
    {
      if item.id == 0 || item.id !in workspaces {
        return;
      }
      var target := PolicyTarget(item);
      TargetExists(View(), item);
      if workspaces[item.id].output == target {
        return;
      }
      if workspaces[item.id].output.Some? {
        OutputIsLive(View(), item.id);
      }
      UnassignWorkspace(item.id);
      if target.Some? {
        AssignWorkspace(target.value, item.id);
      }
    }

    method RehomeWorkspaces(policy: seq<Item>)
      requires Sound(View()) && Housed(View())
      modifies `workspaces, `outputs
      ensures View() == RehomeAll(old(View()), policy) && Sound(View())
    {
      ghost var was := View();
      for i := 0 to |policy|
        invariant Sound(View()) && Housed(View())
        invariant RehomeAll(View(), policy[i..]) == RehomeAll(was, policy)
      {
        assert policy[i..][0] == policy[i] && policy[i..][1..] == policy[i + 1..];
        RehomedSound(View(), policy[i]);
        Rehome(policy[i]);
      }
      assert policy[|policy|..] == [];
    }

    method DescribeWorkspaces(policy: seq<Item>)
      requires Sound(View())
      modifies `workspaces
      ensures View() == DescribeAll(old(View()), policy) && Sound(View())
    {
      ghost var was := View();
      for i := 0 to |policy|
        invariant Sound(View())
        invariant DescribeAll(View(), policy[i..]) == DescribeAll(was, policy)
      {
        var item := policy[i];
        assert policy[i..][0] == item && policy[i..][1..] == policy[i + 1..];
        if item.id != 0 && item.id in workspaces {
          SameDeskSound(View(), Described(View(), item));
          workspaces := workspaces[item.id := workspaces[item.id].(affinity := item.affinity, startup := item.startup)];
        }
      }
      assert policy[|policy|..] == [];
    }

    /** Outputs that lost the workspace they showed show the first one they have. */
    method SettleOutputs()
      requires Sound(View())
      modifies this
      ensures View() == SettleAll(old(View()), old(outputOrder))
    {
      ghost var was := View();
      var list := outputOrder;
      for i := 0 to |list|
        invariant Sound(View())
        invariant SettleAll(View(), list[i..]) == SettleAll(was, list)
      {
        var o := list[i];
        assert list[i..][0] == o && list[i..][1..] == list[i + 1..];
        if o in outputs {
          var visible := outputs[o].visible;
          var own := visible.Some? && visible.value in workspaces && workspaces[visible.value].output == Some(o);
          if !own && outputs[o].assignments != [] {
            SwitchedSound(View(), o, outputs[o].assignments[0], focusedOutput == Some(o));
            var _ := SwitchOutputWorkspace(o, outputs[o].assignments[0], focusedOutput == Some(o));
          }
        }
      }
      assert list[|list|..] == [];
    }

    /** Applies a policy: workspaces move, their descriptions change, and outputs settle. */
    method ApplyRuntimePolicy(policy: seq<Item>)
      requires Inv(View(), {})
      modifies this
      ensures View() == ApplyPolicy(old(View()), policy)
    {
      ghost var was := View();
      RehomeWorkspaces(policy);
      DescribeWorkspaces(policy);
      SettleOutputs();
    }

    /** A reload validates the candidate first, and applies it only when it declares the current
        workspaces, all of them live, and leaves no output empty.  Then every workspace is where the policy
        declares it. */
    method ReloadPolicy(current: seq<Id>, policy: seq<Item>) returns (accepted: bool)
      requires Inv(View(), {}) && NoDup(current)
      modifies this
      ensures accepted <==> SameDeclared(old(View()), current, policy) && NoneLeftOut(old(View()), policy)
      ensures Inv(View(), {}) && View() == if accepted then ApplyPolicy(old(View()), policy) else old(View())
      ensures accepted ==> forall ws :: ws in old(workspaces) ==> Lands(old(View()), policy, ws, OutputOf(View(), ws))
    {
      assert Homes(workspaces).Keys == workspaces.Keys;
      accepted := ValidatePolicy(current, policy);
      AcceptedExactly(View(), current, policy);
      if accepted {
        AcceptedPolicyApplies(View(), current, policy);
        AllLand(View(), current, policy);
        ApplyRuntimePolicy(policy);
      }
    }
  }

  ghost function FollowingOf(windows: map<Id, Window>, list: seq<Id>, g: Group): map<Id, Window> {
    map w | w in windows ::
      if w in list then windows[w].(workspace := Some(g.workspace), standing := Within(g.placement)) else windows[w]
  }

  ghost function Unpinned(groups: map<Id, Group>, list: seq<Id>, o: Id): map<Id, Group> {
    map g | g in groups :: if g in list && groups[g].pin == Some(o) then groups[g].(pin := None) else groups[g]
  }

  ghost function Released(workspaces: map<Id, Workspace>, list: seq<Id>): map<Id, Workspace> {
    map ws | ws in workspaces :: if ws in list then workspaces[ws].(output := None) else workspaces[ws]
  }

  /** Moving a window into a group leaves the other members where they are. */
  lemma StaysMember(d: Desk, w: Id, reference: Id, target: Id)
    requires Sound(d) && CanMoveWindow(d, w, target) && reference in d.windows && reference != w
    requires d.windows[reference].group == Some(target)
    ensures var e := MoveWindow(d, w, target);
      reference in e.windows && e.windows[reference].group == Some(target) && target in e.groups
  {
    MoveWindowLists(d, w, target);
    MoveWindowSound(d, w, target);
    SoundWindow(MoveWindow(d, w, target), reference);
  }

  lemma UnassignSound(d: Desk, ws: Id)
    requires Sound(d) && Housed(d)
    ensures Sound(Unassign(d, ws)) && Housed(Unassign(d, ws))
  {
    UnassignHoused(d, ws);
    SameDeskSound(d, Unassign(d, ws));
  }

  lemma AssignSound(d: Desk, o: Id, ws: Id)
    requires Sound(d) && Housed(d)
    ensures Sound(Assign(d, o, ws)) && Housed(Assign(d, o, ws))
  {
    AssignHoused(d, o, ws);
    SameDeskSound(d, Assign(d, o, ws));
  }

  lemma RehomedSound(d: Desk, item: Item)
    requires Sound(d) && Housed(d)
    ensures Sound(Rehomed(d, item)) && Housed(Rehomed(d, item))
  {
    UnassignSound(d, item.id);
    if TargetOutput(d, item).Some? {
      AssignSound(Unassign(d, item.id), TargetOutput(d, item).value, item.id);
    }
  }

  lemma SwitchedSound(d: Desk, o: Id, target: Id, focus: bool)
    requires Sound(d)
    ensures Sound(SwitchWorkspace(d, o, target, focus))
  {
    if o in d.outputs && OutputOf(d, target) == Some(o) {
      FollowEffects(d, d.groupOrder, o, target);
      FocusVisibleEffects(if d.outputs[o].visible == Some(target) then d else Shown(d, o, target), o);
    }
  }

  lemma DisconnectedParts(d: Desk, o: Id)
    requires Inv(d, {}) && o in d.outputs
    ensures Unpinned(d.groups, d.groupOrder, o) == Disconnected(d, o).groups
    ensures Released(d.workspaces, d.outputs[o].assignments) == Disconnected(d, o).workspaces
    ensures forall ws :: ws in d.outputs[o].assignments ==> ws in d.workspaces
  {
    hide GroupsSound, WorkspacesSound, Housed;
    AllHoused(d, o);
    var e, groups, workspaces := Disconnected(d, o), Unpinned(d.groups, d.groupOrder, o), Released(d.workspaces,
        d.outputs[o].assignments);
    assert groups.Keys == d.groups.Keys == e.groups.Keys && workspaces.Keys == d.workspaces.Keys == e.workspaces.Keys;
    assert forall g :: g in d.groups ==> groups[g] == e.groups[g];
    assert forall ws :: ws in d.workspaces ==> workspaces[ws] == e.workspaces[ws];
  }

  /** The assignment list of an output names exactly the workspaces that name it. */
  lemma AllHoused(d: Desk, o: Id)
    requires Housed(d) && o in d.outputs
    ensures forall ws :: ws in d.outputs[o].assignments <==> ws in d.workspaces && d.workspaces[ws].output == Some(o)
  {
    forall ws ensures ws in d.outputs[o].assignments <==> ws in d.workspaces && d.workspaces[ws].output == Some(o) {
      if ws in d.outputs[o].assignments {
        AssignedHere(d, o, ws);
      } else if ws in d.workspaces && d.workspaces[ws].output == Some(o) {
        OutputIsLive(d, ws);
      }
    }
  }

  /** The head of a source's list moves and the rest stays, so the next head is the next of the list. */
  lemma HeadMoves(d: Desk, source: Id, target: Id, list: seq<Id>)
    requires Sound(d) && source in d.groups && target in d.groups && source != target
    requires d.groups[source].windows == list && list != []
    ensures var e := MoveWindow(d, list[0], target);
      target in e.groups && (|list| > 1 ==> source in e.groups && e.groups[source].windows == list[1..])
  {
    SoundGroup(d, source);
    HeadWithout(list);
    FirstMoves(d, list[0], source, target);
    var e := MoveWindow(d, list[0], target);
    if |list| > 1 {
      SourceStays(d, e, source, list[1..], target, list[0]);
    } else {
      KeysOf(d, e);
    }
  }

  lemma HeadWithout(list: seq<Id>)
    requires NoDup(list) && list != []
    ensures Without(list, list[0]) == list[1..]
  {
    assert list == [] + [list[0]] + list[1..];
    TakenOut([], list[0], list[1..]);
    assert [] + list[1..] == list[1..];
  }

  /** The parts in which moving a floating group differs from the state before. */
  lemma MoveFloatingParts(d: Desk, g: Id, target: Id, follow: bool)
    requires CanMoveFloating(d, g, target)
    ensures var source, x := d.groups[g].workspace, Carried(d, g, target);
      var s := Deserted(d, g, d.groups[g := x], source);
      MoveFloating(d, g, target, follow) == d.(
        groups := d.groups[g := x], windows := Following(d.windows, x),
        workspaces := d.workspaces[source := s][target := Occupied(d.workspaces[target], g)],
        activeGroup := if d.activeGroup == Some(g) && !follow then s.active else d.activeGroup)
  {
  }

  /** A window that can be focused is split off with those after it; else only the focus step is taken. */
  lemma SplitAtCases(d: Desk, w: Id, source: Id, o: Orientation, r: real)
    requires Inv(d, {}) && CanSplitAt(d, w) && d.windows[w].group == Some(source)
    ensures var f, list := FocusWindowId(d, w), d.groups[source].windows;
      && Sound(f) && (FocusableById(d, w) ==> HasFocus(f, w) && source in f.groups)
      && SplitAt(d, w, o, r) == (
        if FocusableById(d, w) then SplitFrom(f, f.groups[source].workspace, w, list[|list| - 1], o, r) else f)
      && (FocusableById(d, w) ==>
        CanMoveRange(CreateGroup(f, f.groups[source].workspace, o, r), w, list[|list| - 1], f.nextGroup))
  {
    FocusWindowIdKeeps(d, w, {});
    if FocusableById(d, w) {
      SplitAtSucceeds(d, w, source, o, r);
      SplitAtUnfolds(d, w, source, o, r);
    }
  }
}
