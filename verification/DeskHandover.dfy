/** Who becomes active when the active window or group goes: the one latest in the list that can be, said
by its place in the list and not by the search for it. */
module DeskHandover {
  import opened Seqs
  import opened DeskState
  import opened DeskSteps
  import opened DeskMoves
  import opened DeskWindows
  import opened DeskOps

  /** The greatest index of the list that holds one of `chosen`. */
  ghost predicate LastAt(list: seq<Id>, chosen: set<Id>, i: int) {
    0 <= i < |list| && list[i] in chosen && forall j :: i < j < |list| ==> list[j] !in chosen
  }

  /** `r` is the one of `chosen` that is latest in the list, or none when the list holds none of them. */
  ghost predicate IsLast(list: seq<Id>, chosen: set<Id>, r: Option<Id>) {
    if r.None? then forall j :: 0 <= j < |list| ==> list[j] !in chosen
    else exists i :: LastAt(list, chosen, i) && list[i] == r.value
  }

  ghost function MappedOnes(windows: map<Id, Window>): set<Id> {
    set w | w in windows && windows[w].mapped
  }

  ghost function GroupsOn(groups: map<Id, Group>, ws: Id): set<Id> {
    set g | g in groups && groups[g].workspace == ws
  }

  lemma OnlyLast(list: seq<Id>, chosen: set<Id>, a: Option<Id>, b: Option<Id>)
    requires IsLast(list, chosen, a) && IsLast(list, chosen, b)
    ensures a == b
  {
    if a.Some? && b.Some? {
      var i :| LastAt(list, chosen, i) && list[i] == a.value;
      var k :| LastAt(list, chosen, k) && list[k] == b.value;
      assert !(i < k) && !(k < i);
    }
  }

  lemma LastAdded(list: seq<Id>, x: Id, chosen: set<Id>, r: Option<Id>)
    requires IsLast(list, chosen, r)
    ensures IsLast(list + [x], chosen, if x in chosen then Some(x) else r)
  {
    var longer := list + [x];
    if x in chosen {
      assert LastAt(longer, chosen, |list|);
    } else if r.Some? {
      var i :| LastAt(list, chosen, i) && list[i] == r.value;
      assert LastAt(longer, chosen, i);
    }
  }

  lemma {:induction false} LastMappedIsLast(windows: map<Id, Window>, list: seq<Id>)
    ensures IsLast(list, MappedOnes(windows), LastMapped(windows, list))
    decreases |list|
  {
    if list != [] {
      var front, w := list[..|list| - 1], list[|list| - 1];
      assert list == front + [w];
      LastMappedIsLast(windows, front);
      LastAdded(front, w, MappedOnes(windows), LastMapped(windows, front));
    }
  }

  lemma {:induction false} LastInIsLast(groups: map<Id, Group>, order: seq<Id>, ws: Id)
    ensures IsLast(order, GroupsOn(groups, ws), LastIn(groups, order, ws))
    decreases |order|
  {
    if order != [] {
      var front, g := order[..|order| - 1], order[|order| - 1];
      assert order == front + [g];
      LastInIsLast(groups, front, ws);
      LastAdded(front, g, GroupsOn(groups, ws), LastIn(groups, front, ws));
    }
  }

  /** Deleting `x` from the list is the same as not choosing it. */
  lemma {:induction false} LastWithout(list: seq<Id>, x: Id, chosen: set<Id>, r: Option<Id>)
    requires IsLast(Without(list, x), chosen, r)
    ensures IsLast(list, chosen - {x}, r)
    decreases |list|
  {
    if list != [] {
      var front, y := list[..|list| - 1], list[|list| - 1];
      assert list == front + [y];
      WithoutConcat(front, [y], x);
      var rest := Without(front, x);
      if y == x {
        assert Without([y], x) == [] && Without(list, x) == rest;
        LastWithout(front, x, chosen, r);
        LastAdded(front, y, chosen - {x}, r);
      } else {
        assert Without([y], x) == [y] && Without(list, x) == rest + [y];
        var s := SomeLast(rest, chosen);
        LastAdded(rest, y, chosen, s);
        OnlyLast(rest + [y], chosen, r, if y in chosen then Some(y) else s);
        LastWithout(front, x, chosen, s);
        LastAdded(front, y, chosen - {x}, s);
      }
    }
  }

  lemma {:induction false} SomeLast(list: seq<Id>, chosen: set<Id>) returns (r: Option<Id>)
    ensures IsLast(list, chosen, r)
    decreases |list|
  {
    r := None;
    if list != [] {
      var front, y := list[..|list| - 1], list[|list| - 1];
      assert list == front + [y];
      var s := SomeLast(front, chosen);
      LastAdded(front, y, chosen, s);
      r := if y in chosen then Some(y) else s;
    }
  }

  // ----- windows

  /** The active window of group `h` once `w` no longer can be: unchanged if it was another one, else the
      mapped member other than `w` that is latest in the list, or none when there is none. */
  ghost predicate HandedOver(d: Desk, w: Id, h: Id, r: Option<Id>)
    requires h in d.groups
  {
    if d.groups[h].active == Some(w) then IsLast(d.groups[h].windows, MappedOnes(d.windows) - {w}, r)
    else r == d.groups[h].active
  }

  lemma ActiveInGroup(d: Desk, w: Id, h: Id)
    requires Sound(d) && h in d.groups && w in d.windows && d.groups[h].active == Some(w)
    ensures d.windows[w].group == Some(h)
  {
    SoundGroup(d, h);
  }

  lemma LeaveHandsOver(d: Desk, w: Id, h: Id)
    requires Sound(d) && w in d.windows && d.windows[w].group.Some? && h in d.groups
    ensures h in Leave(d, w).groups && HandedOver(d, w, h, Leave(d, w).groups[h].active)
  {
    SoundWindow(d, w);
    if d.groups[h].active == Some(w) {
      ActiveInGroup(d, w, h);
      var list := d.groups[h].windows;
      LastMappedIsLast(d.windows, Without(list, w));
      LastWithout(list, w, MappedOnes(d.windows), LastMapped(d.windows, Without(list, w)));
    }
  }

  lemma UnmappedOnes(windows: map<Id, Window>, w: Id)
    requires w in windows
    ensures MappedOnes(windows[w := windows[w].(mapped := false)]) == MappedOnes(windows) - {w}
  {
  }

  /** Main result.  Unmapping a member hands its group over, and no other group notices. */
  lemma UnmapHandsOver(d: Desk, w: Id, parent: Option<Id>, h: Id)
    requires Sound(d) && w in d.windows && d.windows[w].group.Some? && h in d.groups
    ensures var e := UnmapWindow(d, w, parent);
      && e.groups.Keys == d.groups.Keys && HandedOver(d, w, h, e.groups[h].active)
      && e.groups[h] == d.groups[h].(active := e.groups[h].active)
      && e.windows == d.windows[w := d.windows[w].(mapped := false)]
  {
    hide MappedOnes, IsLast, Sound;
    SoundWindow(d, w);
    UnmappedOnes(d.windows, w);
    LastMappedIsLast(SetMapped(d, w, false).windows, d.groups[h].windows);
    if d.groups[h].active == Some(w) {
      ActiveInGroup(d, w, h);
    }
  }

  /** Main result.  When a window goes, its group goes exactly when the window was the only member, and
      every group that stays is handed over. */
  lemma RemoveHandsOver(d: Desk, w: Id, h: Id)
    requires Sound(d) && w in d.windows && d.windows[w].group.Some? && h in d.groups
    ensures var e := RemoveWindow(d, w);
      && (h in e.groups <==> d.groups[h].windows != [w])
      && (h in e.groups ==>
            && HandedOver(d, w, h, e.groups[h].active)
            && e.groups[h].windows == Without(d.groups[h].windows, w))
  {
    var g := d.windows[w].group.value;
    SoundWindow(d, w);
    SoundGroup(d, g);
    SoundGroup(d, h);
    LeaveHandsOver(d, w, h);
    var list := d.groups[h].windows;
    if h == g {
      LastLeaves(list, w);
    } else {
      NotMember(d, h, w);
      WithoutElsewhere(list, w);
      assert [w][0] == w;
    }
  }

  lemma LastLeaves(list: seq<Id>, w: Id)
    requires NoDup(list) && w in list
    ensures |list| == 1 <==> list == [w]
    ensures |list| == |Without(list, w)| + 1
  {
    WithoutOne(list, w);
  }

  /** Which window of group `h` is active once `w` joined it: `w` if it can take the focus. */
  ghost function ActiveAfter(d: Desk, w: Id, h: Id): Option<Id>
    requires w in d.windows && h in d.groups
  {
    if d.windows[w].mapped && Visible(d, d.groups[h].workspace) then Some(w) else d.groups[h].active
  }

  /** Main result.  The group a window moved out of goes exactly when the window was its only member, and is
      handed over otherwise; in the group it joined it is active if it takes the focus, and nothing else
      changes which window is active. */
  lemma MoveHandsOver(d: Desk, w: Id, target: Id, h: Id)
    requires Sound(d) && CanMoveWindow(d, w, target) && h in d.groups
    ensures var e := MoveWindow(d, w, target);
      && (h in e.groups <==> d.groups[h].windows != [w])
      && (h in e.groups && h != target ==> HandedOver(d, w, h, e.groups[h].active))
      && (h == target ==> e.groups[h].active == ActiveAfter(d, w, h))
      && (d.windows[w].mapped && Visible(d, d.groups[target].workspace) ==> e.activeGroup == Some(target))
  {
    hide IsLast, MappedOnes;
    TransferHandsOver(d, w, target, h);
    FocusTransferred(d, w, target);
  }

  lemma TransferHandsOver(d: Desk, w: Id, target: Id, h: Id)
    requires Sound(d) && CanMoveWindow(d, w, target) && h in d.groups
    ensures var e := Transferred(d, w, target);
      && (h in e.groups <==> d.groups[h].windows != [w])
      && (h in e.groups ==> HandedOver(d, w, h, e.groups[h].active))
      && (h == target ==> h in e.groups && e.groups[h].active == d.groups[h].active)
  {
    hide IsLast, MappedOnes, Without;
    var source := d.windows[w].group.value;
    SoundWindow(d, w);
    SoundGroup(d, source);
    SoundGroup(d, h);
    LeaveHandsOver(d, w, h);
    if h == source {
      LastLeaves(d.groups[h].windows, w);
    } else {
      NotMember(d, h, w);
      assert [w][0] == w;
    }
  }

  lemma TransferredWindow(d: Desk, w: Id, target: Id)
    requires Sound(d) && CanMoveWindow(d, w, target)
    ensures var e := Transferred(d, w, target);
      && w in e.windows && e.windows[w].group == Some(target) && e.windows[w].mapped == d.windows[w].mapped
      && target in e.groups && e.groups[target].workspace == d.groups[target].workspace
      && (Visible(e, d.groups[target].workspace) <==> Visible(d, d.groups[target].workspace))
  {
    hide Without;
    SoundGroup(d, target);
  }

  /** The window takes the focus in its new group exactly when it is mapped and the workspace is shown. */
  lemma FocusTransferred(d: Desk, w: Id, target: Id)
    requires Sound(d) && CanMoveWindow(d, w, target)
    ensures var e, f := Transferred(d, w, target), MoveWindow(d, w, target);
      && target in e.groups
      && (d.windows[w].mapped && Visible(d, d.groups[target].workspace) ==>
            f.groups == e.groups[target := e.groups[target].(active := Some(w))] && f.activeGroup == Some(target))
      && (!(d.windows[w].mapped && Visible(d, d.groups[target].workspace)) ==> f == e)
  {
    hide Transferred, Sound, Visible;
    TransferredWindow(d, w, target);
  }

  // ----- groups

  /** The active group of workspace `ws` once `g` no longer is there: unchanged if it was another one, else
      the other group there that was created last, or none when there is none. */
  ghost predicate Succeeded(d: Desk, g: Id, ws: Id, r: Option<Id>)
    requires ws in d.workspaces
  {
    if d.workspaces[ws].active == Some(g) then IsLast(d.groupOrder, GroupsOn(d.groups, ws) - {g}, r)
    else r == d.workspaces[ws].active
  }

  lemma ActiveOnWorkspace(d: Desk, g: Id, ws: Id)
    requires Sound(d) && ws in d.workspaces && d.workspaces[ws].active == Some(g)
    ensures g in d.groups && d.groups[g].workspace == ws
  {
    SoundWorkspace(d, ws);
  }

  lemma GroupsLeft(groups: map<Id, Group>, g: Id, ws: Id)
    ensures GroupsOn(groups - {g}, ws) == GroupsOn(groups, ws) - {g}
    ensures forall x: Group :: x.workspace != ws ==> GroupsOn(groups[g := x], ws) == GroupsOn(groups, ws) - {g}
  {
  }

  /** The search for a successor among the groups that are left finds the one created last. */
  lemma FallbackIsLast(d: Desk, g: Id, ws: Id)
    ensures IsLast(d.groupOrder, GroupsOn(d.groups, ws) - {g}, LastIn(d.groups - {g}, Without(d.groupOrder, g), ws))
  {
    hide IsLast, GroupsOn;
    GroupsLeft(d.groups, g, ws);
    LastInIsLast(d.groups - {g}, Without(d.groupOrder, g), ws);
    LastWithout(d.groupOrder, g, GroupsOn(d.groups, ws) - {g}, LastIn(d.groups - {g}, Without(d.groupOrder, g), ws));
    assert GroupsOn(d.groups, ws) - {g} - {g} == GroupsOn(d.groups, ws) - {g};
  }

  /** Main result.  When a group is destroyed its workspace goes to the other group created last there, and
      so does the server's activity if the group had both; no other workspace notices. */
  lemma DestroyHandsOver(d: Desk, g: Id, ws: Id)
    requires Sound(d) && g in d.groups && ws in d.workspaces
    ensures var e, home := DestroyGroup(d, g), d.groups[g].workspace;
      && home in d.workspaces && ws in e.workspaces && Succeeded(d, g, ws, e.workspaces[ws].active)
      && (d.activeGroup != Some(g) ==> e.activeGroup == d.activeGroup)
      && (d.activeGroup == Some(g) && d.workspaces[home].active == Some(g) ==>
            IsLast(d.groupOrder, GroupsOn(d.groups, home) - {g}, e.activeGroup))
      && (d.activeGroup == Some(g) && d.workspaces[home].active != Some(g) ==> e.activeGroup == None)
  {
    hide IsLast, GroupsOn;
    SoundGroup(d, g);
    FallbackIsLast(d, g, d.groups[g].workspace);
    if d.workspaces[ws].active == Some(g) {
      ActiveOnWorkspace(d, g, ws);
    }
  }

  /** The search among the groups with `g` reseated elsewhere finds the other one created last. */
  lemma ReseatedIsLast(d: Desk, g: Id, x: Group, ws: Id)
    requires x.workspace != ws
    ensures IsLast(d.groupOrder, GroupsOn(d.groups, ws) - {g}, LastIn(d.groups[g := x], d.groupOrder, ws))
  {
    hide IsLast;
    GroupsLeft(d.groups, g, ws);
    LastInIsLast(d.groups[g := x], d.groupOrder, ws);
  }

  /** Main result.  A tiled group that moves leaves its workspace to the other group created last there, and
      with it the server's activity; the workspace it comes to keeps its active group if it has one. */
  lemma MoveTiledHandsOver(d: Desk, g: Id, target: Id, r: real, ws: Id)
    requires Sound(d) && CanMoveTiled(d, g, target) && ws in d.workspaces
    ensures var e, source := MoveTiled(d, g, target, r), d.groups[g].workspace;
      && ws in e.workspaces
      && (ws != target ==> Succeeded(d, g, ws, e.workspaces[ws].active))
      && (ws == target && d.workspaces[ws].active.None? ==> e.workspaces[ws].active == Some(g))
      && (ws == target && d.workspaces[ws].active.Some? ==> e.workspaces[ws].active == d.workspaces[ws].active)
      && (d.activeGroup != Some(g) ==> e.activeGroup == d.activeGroup)
      && (d.activeGroup == Some(g) ==> IsLast(d.groupOrder, GroupsOn(d.groups, source) - {g}, e.activeGroup))
  {
    hide IsLast, GroupsOn;
    SoundGroup(d, g);
    ReseatedIsLast(d, g, d.groups[g].(workspace := target), d.groups[g].workspace);
    if d.workspaces[ws].active == Some(g) {
      ActiveOnWorkspace(d, g, ws);
    }
  }

  /** Main result.  The same for a floating group; the server's activity goes to the active group of the
      workspace left, unless the group keeps it. */
  lemma MoveFloatingHandsOver(d: Desk, g: Id, target: Id, follow: bool, ws: Id)
    requires Sound(d) && CanMoveFloating(d, g, target) && ws in d.workspaces
    ensures var e, source := MoveFloating(d, g, target, follow), d.groups[g].workspace;
      && ws in e.workspaces && source in e.workspaces
      && (ws != target ==> Succeeded(d, g, ws, e.workspaces[ws].active))
      && (ws == target && d.workspaces[ws].active.None? ==> e.workspaces[ws].active == Some(g))
      && (ws == target && d.workspaces[ws].active.Some? ==> e.workspaces[ws].active == d.workspaces[ws].active)
      && e.activeGroup == if d.activeGroup == Some(g) && !follow then e.workspaces[source].active else d.activeGroup
  {
    hide IsLast, GroupsOn;
    SoundGroup(d, g);
    ReseatedIsLast(d, g, Carried(d, g, target), d.groups[g].workspace);
    if d.workspaces[ws].active == Some(g) {
      ActiveOnWorkspace(d, g, ws);
    }
  }

  lemma LeaveKeepsSeats(d: Desk, w: Id, ws: Id)
    requires w in d.windows && d.windows[w].group.Some? && d.windows[w].group.value in d.groups
    ensures GroupsOn(Leave(d, w).groups, ws) == GroupsOn(d.groups, ws)
  {
  }

  /** Main result.  What a window that goes does to the workspaces: nothing, unless it was the only member
      of its group; then the group's workspace is handed over. */
  lemma RemoveLeavesWorkspace(d: Desk, w: Id, ws: Id)
    requires Sound(d) && w in d.windows && d.windows[w].group.Some? && ws in d.workspaces
    ensures var e, g := RemoveWindow(d, w), d.windows[w].group.value;
      && g in d.groups && ws in e.workspaces
      && (d.groups[g].windows == [w] ==> Succeeded(d, g, ws, e.workspaces[ws].active))
      && (d.groups[g].windows != [w] ==> e.workspaces[ws] == d.workspaces[ws] && e.activeGroup == d.activeGroup)
  {
    hide IsLast, GroupsOn;
    SoundWindow(d, w);
    var g, e := d.windows[w].group.value, Leave(d, w);
    SoundGroup(d, g);
    LastLeaves(d.groups[g].windows, w);
    LeaveSound(d, w);
    LeaveKeepsSeats(d, w, ws);
    DestroyHandsOver(e, g, ws);
  }
}
