/** The public operations on windows and groups, each of which keeps every invariant. */
module DeskOps {
  import opened Seqs
  import opened LayoutTree
  import opened DeskState
  import opened DeskSteps
  import opened DeskWindows
  import opened DeskOutputs

  // ----- windows appear, map, unmap and go

  ghost function NewWindow(d: Desk): Desk {
    d.(windows := d.windows[d.nextWindow := Window(None, FocusedWorkspace(d), Within(Tiled), false, false)],
       nextWindow := d.nextWindow + 1)
  }

  /** A new window joins the active group of the focused workspace, or a new group there. */
  ghost function CreateWindow(d: Desk, r: real): Desk {
    if FocusedWorkspace(d).None? || FocusedWorkspace(d).value !in d.workspaces then d.(nextWindow := d.nextWindow + 1)
    else
      var e, ws := NewWindow(d), FocusedWorkspace(d).value;
      if d.workspaces[ws].active.Some? then AddWindow(e, d.workspaces[ws].active.value, d.nextWindow)
      else AddWindow(CreateGroup(e, ws, Horizontal, r), d.nextGroup, d.nextWindow)
  }

  lemma NewWindowKeeps(d: Desk, spare: set<Id>)
    requires Inv(d, spare)
    ensures Inv(NewWindow(d), spare) && d.nextWindow !in d.windows
  {
    var w, e := d.nextWindow, NewWindow(d);
    if w in d.windows {
      SoundWindow(d, w);
    }
    WindowUpdate(d.windows, w, e.windows[w]);
    forall g | g in d.groups
      ensures GroupSound(Roles(e.windows), Registries(d.workspaces), d.nextGroup, g, d.groups[g])
    {
      assert GroupSound(Roles(d.windows), Registries(d.workspaces), d.nextGroup, g, d.groups[g]);
      SoundGroup(d, g);
      GroupWithout(Roles(d.windows), Registries(d.workspaces), d.nextGroup, g, d.groups[g], w,
          e.windows[w].(fullscreen := false));
    }
    forall v | v in e.windows
      ensures WindowSound(Lists(d.groups), e.nextWindow, v, e.windows[v])
    {
      assert v in d.windows ==> WindowSound(Lists(d.groups), d.nextWindow, v, d.windows[v]);
    }
  }

  lemma CreateWindowKeeps(d: Desk, r: real)
    requires Inv(d, {})
    ensures Inv(CreateWindow(d, r), {})
  {
    NewWindowKeeps(d, {});
    if FocusedWorkspace(d).Some? && FocusedWorkspace(d).value in d.workspaces {
      var e, ws, w := NewWindow(d), FocusedWorkspace(d).value, d.nextWindow;
      SoundWorkspace(d, ws);
      if d.workspaces[ws].active.Some? {
        AddKeeps(e, d.workspaces[ws].active.value, w, {});
      } else {
        CreateKeeps(e, ws, Horizontal, r, {});
        AddKeeps(CreateGroup(e, ws, Horizontal, r), d.nextGroup, w, {} + {e.nextGroup});
        assert {} + {e.nextGroup} - {d.nextGroup} == {};
      }
      assert {} - {d.workspaces[ws].active} == {};
    }
  }

  /** A transient window on a visible workspace takes the focus to its output. */
  ghost function FocusTransient(d: Desk, w: Id): Desk {
    if && w in d.windows && d.windows[w].mapped && d.windows[w].standing.Transient? && d.windows[w].workspace.Some?
       && Visible(d, d.windows[w].workspace.value)
    then d.(focusedOutput := d.workspaces[d.windows[w].workspace.value].output)
    else d
  }

  ghost function FocusAny(d: Desk, w: Id): Desk {
    if w in d.windows && d.windows[w].group.Some? then FocusWindow(d, w) else FocusTransient(d, w)
  }

  lemma FocusAnyKeeps(d: Desk, w: Id, spare: set<Id>)
    requires Inv(d, spare)
    ensures Inv(FocusAny(d, w), spare)
  {
    FocusKeeps(d, w, spare);
    RefocusedKeeps(d, FocusTransient(d, w), spare);
  }

  /** The pointer on an output gives it the focus; which group and windows are active stays. */
  ghost function FocusOutput(d: Desk, o: Id): Desk {
    if o in d.outputs then d.(focusedOutput := Some(o)) else d
  }

  lemma FocusOutputKeeps(d: Desk, o: Id, spare: set<Id>)
    requires Inv(d, spare)
    ensures Inv(FocusOutput(d, o), spare)
  {
    RefocusedKeeps(d, FocusOutput(d, o), spare);
  }

  ghost function SetMapped(d: Desk, w: Id, mapped: bool): Desk {
    if w in d.windows then WithWindow(d, w, d.windows[w].(mapped := mapped)) else d
  }

  ghost function MapWindow(d: Desk, w: Id): Desk {
    FocusAny(SetMapped(d, w, true), w)
  }

  lemma MapWindowKeeps(d: Desk, w: Id, spare: set<Id>)
    requires Inv(d, spare)
    ensures Inv(SetMapped(d, w, true), spare) && Inv(MapWindow(d, w), spare)
  {
    if w in d.windows {
      var e := SetMapped(d, w, true);
      WindowUpdate(d.windows, w, e.windows[w]);
      forall g | g in d.groups
        ensures GroupSound(Roles(e.windows), Registries(d.workspaces), d.nextGroup, g, d.groups[g])
      {
        assert GroupSound(Roles(d.windows), Registries(d.workspaces), d.nextGroup, g, d.groups[g]);
      }
      forall v | v in e.windows
        ensures WindowSound(Lists(d.groups), d.nextWindow, v, e.windows[v])
      {
        assert WindowSound(Lists(d.groups), d.nextWindow, v, d.windows[v]);
      }
    }
    FocusAnyKeeps(SetMapped(d, w, true), w, spare);
  }

  /** Unmapping the active window hands over to the last mapped one; unmapping a transient focuses its
      parent. */
  ghost function UnmapWindow(d: Desk, w: Id, parent: Option<Id>): Desk {
    if w !in d.windows then d
    else
      var e := SetMapped(d, w, false);
      var g := d.windows[w].group;
      if g.Some? && g.value in d.groups then
        if d.groups[g.value].active == Some(w)
        then SetActive(e, g.value, LastMapped(e.windows, d.groups[g.value].windows))
        else e
      else if d.windows[w].standing.Transient? && parent.Some? then FocusAny(e, parent.value)
      else e
  }

  lemma UnmapWindowSound(d: Desk, w: Id)
    requires Sound(d) && w in d.windows && d.windows[w].group.Some?
    ensures Sound(UnmapWindow(d, w, None))
  {
    var e, g := UnmapWindow(d, w, None), d.windows[w].group.value;
    SoundWindow(d, w);
    ActiveOnly(d.groups, g, e.groups[g].active);
    forall h | h in d.groups
      ensures GroupSound(Roles(e.windows), Registries(d.workspaces), d.nextGroup, h, e.groups[h])
    {
      UnmapGroup(d, w, h);
    }
    UnmapWindows(d, w);
  }

  lemma UnmapWindows(d: Desk, w: Id)
    requires Sound(d) && w in d.windows
    ensures var e := SetMapped(d, w, false);
      forall v :: v in e.windows ==> WindowSound(Lists(d.groups), d.nextWindow, v, e.windows[v])
  {
    var e := SetMapped(d, w, false);
    forall v | v in e.windows
      ensures WindowSound(Lists(d.groups), d.nextWindow, v, e.windows[v])
    {
      assert WindowSound(Lists(d.groups), d.nextWindow, v, d.windows[v]);
    }
  }

  lemma UnmappedRole(roles: map<Id, Window>, registries: map<Id, seq<Id>>, next: Id, h: Id, x: Group, w: Id, active: Option<Id>)
    requires GroupSound(roles, registries, next, h, x) && w in roles
    requires active.Some? ==> active.value in x.windows && active.value != w && roles[active.value].mapped
    ensures GroupSound(roles[w := roles[w].(mapped := false)], registries, next, h, x.(active := active))
  {
  }

  /** No group keeps the unmapped window as its active one. */
  lemma UnmapActive(d: Desk, w: Id, h: Id)
    requires Sound(d) && w in d.windows && d.windows[w].group.Some? && d.windows[w].group.value in d.groups && h in d.groups
    ensures var e := UnmapWindow(d, w, None);
      && h in e.groups && e.groups[h] == d.groups[h].(active := e.groups[h].active)
      && var active := e.groups[h].active;
      active.Some? ==>
        && active.value in d.groups[h].windows && active.value != w
        && active.value in d.windows && d.windows[active.value].mapped
  {
    SoundGroup(d, h);
  }

  lemma UnmapGroup(d: Desk, w: Id, h: Id)
    requires Sound(d) && w in d.windows && d.windows[w].group.Some? && d.windows[w].group.value in d.groups && h in d.groups
    ensures var e := UnmapWindow(d, w, None);
      h in e.groups && GroupSound(Roles(e.windows), Registries(d.workspaces), d.nextGroup, h, e.groups[h])
  {
    var e := UnmapWindow(d, w, None);
    UnmapActive(d, w, h);
    WindowUpdate(d.windows, w, e.windows[w]);
    assert GroupSound(Roles(d.windows), Registries(d.workspaces), d.nextGroup, h, d.groups[h]);
    UnmappedRole(Roles(d.windows), Registries(d.workspaces), d.nextGroup, h, d.groups[h], w, e.groups[h].active);
  }

  lemma UnmapStanding(d: Desk, w: Id)
    requires w in d.windows && d.windows[w].group.Some? && d.windows[w].group.value in d.groups
    ensures var e := UnmapWindow(d, w, None);
      Lists(e.groups) == Lists(d.groups) && Stances(e.groups) == Stances(d.groups) && SameOutputs(d, e)
  {
    var e, g := UnmapWindow(d, w, None), d.windows[w].group.value;
    ActiveOnly(d.groups, g, LastMapped(e.windows, d.groups[g].windows));
    ActiveStances(d.groups, g, LastMapped(e.windows, d.groups[g].windows));
  }

  lemma ActiveStances(groups: map<Id, Group>, g: Id, active: Option<Id>)
    requires g in groups
    ensures Stances(groups[g := groups[g].(active := active)]) == Stances(groups)
  {
  }

  lemma UnmapMemberKeeps(d: Desk, w: Id, spare: set<Id>)
    requires Inv(d, spare) && w in d.windows && d.windows[w].group.Some?
    ensures Inv(UnmapWindow(d, w, None), spare)
  {
    SoundWindow(d, w);
    UnmapWindowSound(d, w);
    UnmapStanding(d, w);
    StandingKeeps(d, UnmapWindow(d, w, None), spare);
  }

  lemma UnmapWindowKeeps(d: Desk, w: Id, parent: Option<Id>, spare: set<Id>)
    requires Inv(d, spare)
    ensures Inv(UnmapWindow(d, w, parent), spare)
  {
    if w in d.windows {
      if d.windows[w].group.Some? {
        SoundWindow(d, w);
        UnmapMemberKeeps(d, w, spare);
      } else {
        UnmapLoose(d, w, spare);
        if parent.Some? {
          FocusAnyKeeps(SetMapped(d, w, false), parent.value, spare);
        }
      }
    }
  }

  lemma UnmapLoose(d: Desk, w: Id, spare: set<Id>)
    requires Inv(d, spare) && w in d.windows && d.windows[w].group.None?
    ensures Inv(SetMapped(d, w, false), spare)
  {
    var e := SetMapped(d, w, false);
    WindowUpdate(d.windows, w, e.windows[w]);
    forall g | g in d.groups
      ensures GroupSound(Roles(e.windows), Registries(d.workspaces), d.nextGroup, g, d.groups[g])
    {
      NotMember(d, g, w);
      GroupWithout(Roles(d.windows), Registries(d.workspaces), d.nextGroup, g, d.groups[g], w,
          e.windows[w].(fullscreen := false));
    }
    forall v | v in e.windows
      ensures WindowSound(Lists(d.groups), d.nextWindow, v, e.windows[v])
    {
      assert WindowSound(Lists(d.groups), d.nextWindow, v, d.windows[v]);
    }
  }

  /** A window leaves its group for good; an empty group is destroyed. */
  ghost function RemoveWindow(d: Desk, w: Id): Desk {
    if w in d.windows && d.windows[w].group.Some? && d.windows[w].group.value in d.groups then
      var g, e := d.windows[w].group.value, Leave(d, w);
      if g in e.groups && e.groups[g].windowCount == 0 then DestroyGroup(e, g) else e
    else d
  }

  lemma RemoveWindowKeeps(d: Desk, w: Id)
    requires Inv(d, {})
    ensures Inv(RemoveWindow(d, w), {})
    ensures var e := RemoveWindow(d, w);
      e.windows.Keys == d.windows.Keys && (w in e.windows ==> e.windows[w].group.None?)
  {
    if w in d.windows && d.windows[w].group.Some? {
      var g, e := d.windows[w].group.value, Leave(d, w);
      SoundWindow(d, w);
      LeaveKeeps(d, w, {});
      SoundGroup(e, g);
      if e.groups[g].windowCount == 0 {
        DestroyKeeps(e, g, {} + {g});
        assert {} + {g} - {g} == {};
      } else {
        NoneSpare(e, g);
      }
    }
  }

  lemma NoneSpare(d: Desk, g: Id)
    requires NonEmptyBut(d, {} + {g}) && g in d.groups && d.groups[g].windows != []
    ensures NonEmptyBut(d, {})
  {
    assert Lists(d.groups)[g] != [];
  }

  ghost function DestroyWindow(d: Desk, w: Id): Desk {
    var e := RemoveWindow(d, w);
    e.(windows := e.windows - {w})
  }

  lemma DestroyWindowKeeps(d: Desk, w: Id)
    requires Inv(d, {})
    ensures Inv(DestroyWindow(d, w), {})
  {
    RemoveWindowKeeps(d, w);
    var e := RemoveWindow(d, w);
    ForgetKeeps(e, w);
  }

  lemma ForgetKeeps(d: Desk, w: Id)
    requires Inv(d, {}) && (w in d.windows ==> d.windows[w].group.None?)
    ensures Inv(d.(windows := d.windows - {w}), {})
  {
    var rest := d.windows - {w};
    assert Roles(rest) == Roles(d.windows) - {w};
    forall g | g in d.groups
      ensures GroupSound(Roles(d.windows) - {w}, Registries(d.workspaces), d.nextGroup, g, d.groups[g])
    {
      assert GroupSound(Roles(d.windows), Registries(d.workspaces), d.nextGroup, g, d.groups[g]);
      if w in d.windows {
        NotMember(d, g, w);
      } else {
        SoundGroup(d, g);
      }
    }
    forall v | v in rest
      ensures WindowSound(Lists(d.groups), d.nextWindow, v, rest[v])
    {
      assert WindowSound(Lists(d.groups), d.nextWindow, v, d.windows[v]);
    }
  }

  // ----- windows between groups

  ghost function MoveWindowId(d: Desk, w: Id, target: Id): Desk {
    if CanMoveWindow(d, w, target) && d.groups[d.windows[w].group.value].workspace == d.groups[target].workspace
    then MoveWindow(d, w, target)
    else d
  }

  datatype Side = Before | After

  function Placed(list: seq<Id>, w: Id, reference: Id, side: Side): seq<Id> {
    if side.Before? then InsertBefore(Without(list, w), reference, w) else InsertAfter(Without(list, w), reference, w)
  }

  ghost function Reposition(d: Desk, w: Id, reference: Id, side: Side): Desk {
    if reference in d.windows && d.windows[reference].group.Some? && d.windows[reference].group.value in d.groups then
      var g := d.windows[reference].group.value;
      WithGroup(d, g, d.groups[g].(windows := Placed(d.groups[g].windows, w, reference, side)))
    else d
  }

  /** `w` stands right before or right after `reference`. */
  ghost predicate StandsBeside(list: seq<Id>, w: Id, reference: Id, side: Side) {
    exists i :: 0 <= i < |list| - 1 &&
      if side.Before? then list[i] == w && list[i + 1] == reference else list[i] == reference && list[i + 1] == w
  }

  ghost predicate CanPlace(d: Desk, w: Id, reference: Id) {
    && w in d.windows && reference in d.windows && w != reference
    && d.windows[w].group.Some? && d.windows[reference].group.Some? && d.windows[w].mapped
    && d.windows[reference].mapped
    && d.windows[w].group.value in d.groups && d.windows[reference].group.value in d.groups
    && d.groups[d.windows[w].group.value].workspace == d.groups[d.windows[reference].group.value].workspace
  }

  /** The operation is allowed, and the window is not yet where it shall be. */
  ghost predicate MovesRelative(d: Desk, w: Id, reference: Id, side: Side) {
    && CanPlace(d, w, reference)
    && (d.windows[w].group == d.windows[reference].group ==>
          !StandsBeside(d.groups[d.windows[reference].group.value].windows, w, reference, side))
  }

  ghost function MoveRelative(d: Desk, w: Id, reference: Id, side: Side): Desk {
    if !CanPlace(d, w, reference) then d
    else
      var target := d.windows[reference].group.value;
      if d.windows[w].group == Some(target) then
        if StandsBeside(d.groups[target].windows, w, reference, side) then d else Reposition(d, w, reference, side)
      else Reposition(MoveWindow(d, w, target), w, reference, side)
  }

  lemma {:induction false} ExpandOnce(s: seq<Id>, x: Id, y: Id, block: seq<Id>)
    requires NoDup(s) && x in s && y !in s && (block == [x, y] || block == [y, x])
    ensures NoDup(Expand(s, x, block)) && |Expand(s, x, block)| == |s| + 1
    ensures forall z :: z in Expand(s, x, block) <==> z in s || z == y
  {
    var rest := s[1..];
    assert s == [s[0]] + rest;
    if s[0] == x {
      assert x !in rest;
      ExpandElsewhere(rest, x, block);
      NoDupConcat(block, rest);
    } else {
      ExpandOnce(rest, x, y, block);
      NoDupConcat([s[0]], Expand(rest, x, block));
    }
  }

  lemma PlacedMembers(list: seq<Id>, w: Id, reference: Id, side: Side)
    requires NoDup(list) && w in list && reference in list && w != reference
    ensures NoDup(Placed(list, w, reference, side)) && |Placed(list, w, reference, side)| == |list|
    ensures forall z :: z in Placed(list, w, reference, side) <==> z in list
  {
    WithoutMembers(list, w);
    WithoutNoDup(list, w);
    WithoutOne(list, w);
    ExpandOnce(Without(list, w), reference, w, if side.Before? then [w, reference] else [reference, w]);
  }

  lemma WithoutPair(x: Id, y: Id)
    requires x != y
    ensures Without([x, y], x) == [y] && Without([y, x], x) == [y]
  {
    assert [x, y] == [x] + [y] && [y, x] == [y] + [x];
    WithoutConcat([x], [y], x);
    WithoutConcat([y], [x], x);
    WithoutElsewhere([y], x);
  }

  /** A relative move that finds the window already in place would change nothing. */
  lemma {:induction false} InPlaceIsFixed(list: seq<Id>, w: Id, reference: Id, side: Side)
    requires NoDup(list) && w != reference && StandsBeside(list, w, reference, side)
    ensures Placed(list, w, reference, side) == list
  {
    var block := if side.Before? then [w, reference] else [reference, w];
    var i :| 0 <= i < |list| - 1 &&
      if side.Before? then list[i] == w && list[i + 1] == reference else list[i] == reference && list[i + 1] == w;
    var a, b := list[..i], list[i + 2..];
    assert list == a + block + b;
    assert w !in a && w !in b && reference !in a && reference !in b;
    WithoutConcat(a + block, b, w);
    WithoutConcat(a, block, w);
    WithoutElsewhere(a, w);
    WithoutElsewhere(b, w);
    WithoutPair(w, reference);
    ExpandAround(a, reference, b, block);
  }

  /** A repositioned window stands where it was asked for; with `InPlaceIsFixed`, repositioning twice is
      repositioning once. */
  lemma PlacedIsBeside(list: seq<Id>, w: Id, reference: Id, side: Side)
    requires NoDup(list) && w in list && reference in list && w != reference
    ensures StandsBeside(Placed(list, w, reference, side), w, reference, side)
  {
    WithoutMembers(list, w);
    WithoutNoDup(list, w);
    var rest, block := Without(list, w), if side.Before? then [w, reference] else [reference, w];
    var i :| 0 <= i < |rest| && rest[i] == reference;
    var a, b := rest[..i], rest[i + 1..];
    assert rest == a + [reference] + b;
    assert reference !in a && reference !in b;
    ExpandAround(a, reference, b, block);
    var r := Placed(list, w, reference, side);
    assert r == a + block + b;
    assert r[i] == block[0] && r[i + 1] == block[1];
  }

  lemma ReorderedGroup(roles: map<Id, Window>, registries: map<Id, seq<Id>>, next: Id, g: Id, x: Group, list: seq<Id>)
    requires GroupSound(roles, registries, next, g, x) && NoDup(list) && |list| == |x.windows|
    requires forall z :: z in list <==> z in x.windows
    ensures GroupSound(roles, registries, next, g, x.(windows := list))
  {
    forall z | z in list ensures z in roles && Belongs(roles[z], g, x) {
    }
    if x.active.Some? {
      var active: Id := x.active.value;
      assert active in x.windows && active in list;
    }
  }

  lemma RepositionSound(d: Desk, g: Id, list: seq<Id>)
    requires Sound(d) && g in d.groups && NoDup(list) && |list| == |d.groups[g].windows|
    requires forall z :: z in list <==> z in d.groups[g].windows
    ensures Sound(WithGroup(d, g, d.groups[g].(windows := list)))
  {
    var x := d.groups[g].(windows := list);
    GroupUpdate(d.groups, g, x);
    SameSeats(d.groups, g, x);
    assert GroupSound(Roles(d.windows), Registries(d.workspaces), d.nextGroup, g, d.groups[g]);
    ReorderedGroup(Roles(d.windows), Registries(d.workspaces), d.nextGroup, g, d.groups[g], list);
    forall v | v in d.windows
      ensures WindowSound(Lists(d.groups)[g := list], d.nextWindow, v, d.windows[v])
    {
      assert WindowSound(Lists(d.groups), d.nextWindow, v, d.windows[v]);
    }
  }

  lemma RepositionKeeps(d: Desk, w: Id, reference: Id, side: Side, spare: set<Id>)
    requires Inv(d, spare) && reference in d.windows && w in d.windows && w != reference
    requires d.windows[reference].group.Some? && d.windows[w].group == d.windows[reference].group
    ensures Inv(Reposition(d, w, reference, side), spare)
  {
    var e, g := Reposition(d, w, reference, side), d.windows[reference].group.value;
    SoundWindow(d, w);
    SoundWindow(d, reference);
    SoundGroup(d, g);
    PlacedMembers(d.groups[g].windows, w, reference, side);
    RepositionSound(d, g, e.groups[g].windows);
    GroupUpdate(d.groups, g, e.groups[g]);
    StanceUpdate(d.groups, g, e.groups[g]);
    StanceSound(d, g);
    OneListKept(d, g, spare);
    GroupStepKeeps(d, e, spare, g, e.groups[g].windows, StanceOf(e.groups[g]), spare);
  }

  lemma MoveWindowIdKeeps(d: Desk, w: Id, target: Id)
    requires Inv(d, {})
    ensures Inv(MoveWindowId(d, w, target), {})
  {
    MoveWindowKeeps(d, w, target, {});
    assert {} - {target} == {};
  }

  lemma MoveThenPlaceKeeps(d: Desk, w: Id, reference: Id, side: Side, target: Id)
    requires Inv(d, {}) && reference in d.windows && d.windows[reference].group == Some(target) && w != reference
    requires CanMoveWindow(d, w, target)
    ensures Inv(Reposition(MoveWindow(d, w, target), w, reference, side), {})
  {
    var e := MoveWindow(d, w, target);
    MoveWindowKeeps(d, w, target, {});
    assert {} - {target} == {};
    MoveWindowLists(d, w, target);
    RepositionKeeps(e, w, reference, side, {});
  }

  lemma MoveRelativeKeeps(d: Desk, w: Id, reference: Id, side: Side)
    requires Inv(d, {})
    ensures Inv(MoveRelative(d, w, reference, side), {})
  {
    if CanPlace(d, w, reference) {
      var target := d.windows[reference].group.value;
      if d.windows[w].group == Some(target) {
        RepositionKeeps(d, w, reference, side, {});
      } else {
        MoveThenPlaceKeeps(d, w, reference, side, target);
      }
    }
  }

  // ----- what a relative move does to the lists

  function Block(w: Id, reference: Id, side: Side): seq<Id> {
    if side.Before? then [w, reference] else [reference, w]
  }

  /** Taking `w` out of a list leaves `reference` between `a` and `b`. */
  ghost predicate Around(list: seq<Id>, w: Id, reference: Id, a: seq<Id>, b: seq<Id>) {
    Without(list, w) == a + [reference] + b
  }

  lemma PlacedAround(list: seq<Id>, w: Id, reference: Id, side: Side, a: seq<Id>, b: seq<Id>)
    requires NoDup(list) && Around(list, w, reference, a, b)
    ensures Placed(list, w, reference, side) == a + Block(w, reference, side) + b
  {
    WithoutNoDup(list, w);
    NoDupAround(a, reference, b);
    ExpandAround(a, reference, b, Block(w, reference, side));
  }

  /** The reference itself is always somewhere. */
  lemma AroundExists(list: seq<Id>, w: Id, reference: Id) returns (a: seq<Id>, b: seq<Id>)
    requires reference in list && w != reference
    ensures Around(list, w, reference, a, b)
  {
    WithoutMember(list, w, reference);
    var rest := Without(list, w);
    var i :| 0 <= i < |rest| && rest[i] == reference;
    a, b := rest[..i], rest[i + 1..];
  }

  /** The lists after `w` moved from `source` to its place beside `reference` in `target`; a source left
      empty is destroyed and leaves the layout. */
  ghost predicate MovedBeside(d: Desk, e: Desk, source: Id, target: Id, w: Id, list: seq<Id>)
    requires source in d.groups
  {
    var rest := Without(d.groups[source].windows, w);
    var gone := if source != target && rest == [] then {source} else {};
    && Lists(e.groups) == Lists(d.groups)[source := rest][target := list] - gone
    && Stances(e.groups) == Stances(d.groups) - gone
    && Layouts(e.workspaces) == LayoutsAfter(d, source, gone != {})
  }

  lemma RepositionLists(d: Desk, g: Id, w: Id, reference: Id, side: Side)
    requires reference in d.windows && d.windows[reference].group == Some(g) && g in d.groups
    ensures var e := Reposition(d, w, reference, side);
      && Lists(e.groups) == Lists(d.groups)[g := Placed(d.groups[g].windows, w, reference, side)]
      && Stances(e.groups) == Stances(d.groups) && e.workspaces == d.workspaces
  {
    var x := d.groups[g].(windows := Placed(d.groups[g].windows, w, reference, side));
    GroupUpdate(d.groups, g, x);
    StanceUpdate(d.groups, g, x);
    assert Stances(d.groups)[g := StanceOf(x)] == Stances(d.groups);
  }

  lemma MovedWithin(d: Desk, e: Desk, g: Id, w: Id, list: seq<Id>)
    requires g in d.groups && Lists(e.groups) == Lists(d.groups)[g := list]
    requires Stances(e.groups) == Stances(d.groups) && Layouts(e.workspaces) == Layouts(d.workspaces)
    ensures MovedBeside(d, e, g, g, w, list)
  {
    var none: set<Id> := {};
    assert Lists(d.groups)[g := Without(d.groups[g].windows, w)][g := list] - none == Lists(d.groups)[g := list];
    assert Stances(d.groups) - none == Stances(d.groups);
  }

  lemma RelativeWithin(d: Desk, w: Id, reference: Id, side: Side, g: Id, list: seq<Id>)
    requires Sound(d) && CanPlace(d, w, reference) && d.windows[w].group == d.windows[reference].group == Some(g)
    requires list == Placed(d.groups[g].windows, w, reference, side)
    ensures MovedBeside(d, MoveRelative(d, w, reference, side), g, g, w, list)
  {
    SoundGroup(d, g);
    if StandsBeside(d.groups[g].windows, w, reference, side) {
      InPlaceIsFixed(d.groups[g].windows, w, reference, side);
      assert Lists(d.groups)[g := list] == Lists(d.groups);
      MovedWithin(d, d, g, w, list);
    } else {
      RepositionLists(d, g, w, reference, side);
      MovedWithin(d, Reposition(d, w, reference, side), g, w, list);
    }
  }

  lemma MovedAcross(d: Desk, m: Desk, e: Desk, source: Id, target: Id, w: Id, list: seq<Id>)
    requires source in d.groups && target in d.groups && source != target
    requires ListsMoved(d, m, source, Without(d.groups[source].windows, w), target, [w])
    requires Lists(e.groups) == Lists(m.groups)[target := list] && Stances(e.groups) == Stances(m.groups)
    requires e.workspaces == m.workspaces
    ensures MovedBeside(d, e, source, target, w, list)
  {
    PlaceInMoved(Lists(d.groups), source, Without(d.groups[source].windows, w), target, d.groups[target].windows + [w],
        list);
  }

  lemma PlaceInMoved(lists: map<Id, seq<Id>>, source: Id, rest: seq<Id>, target: Id, list: seq<Id>, list': seq<Id>)
    requires source != target
    ensures var gone := if rest == [] then {source} else {};
      (lists[source := rest][target := list] - gone)[target := list'] == lists[source := rest][target := list'] - gone
  {
  }

  lemma WithoutJoined(list: seq<Id>, w: Id)
    requires w !in list
    ensures Without(list, w) == list && Without(list + [w], w) == list
  {
    WithoutElsewhere(list, w);
    WithoutConcat(list, [w], w);
  }

  /** Where a window that changed groups is found afterwards. */
  lemma MovedMember(d: Desk, m: Desk, source: Id, rest: seq<Id>, target: Id, w: Id, reference: Id)
    requires source in d.groups && target in d.groups && source != target && w != reference
    requires ListsMoved(d, m, source, rest, target, [w])
    requires reference in d.windows && d.windows[reference].group == Some(target)
    ensures target in m.groups && m.groups[target].windows == d.groups[target].windows + [w]
    ensures reference in m.windows && m.windows[reference].group == Some(target)
  {
    KeysOf(d, m);
    assert target in Lists(m.groups);
  }

  lemma RelativeAcross(d: Desk, w: Id, reference: Id, side: Side, source: Id, target: Id, a: seq<Id>, b: seq<Id>)
    requires Sound(d) && CanPlace(d, w, reference) && source != target
    requires d.windows[w].group == Some(source) && d.windows[reference].group == Some(target)
    requires Around(d.groups[target].windows, w, reference, a, b)
    ensures MovedBeside(d, MoveRelative(d, w, reference, side), source, target, w, a + Block(w, reference, side) + b)
  {
    var m, list := MoveWindow(d, w, target), d.groups[target].windows;
    SoundGroup(d, target);
    NotMember(d, target, w);
    MoveWindowLists(d, w, target);
    MovedMember(d, m, source, Without(d.groups[source].windows, w), target, w, reference);
    RepositionLists(m, target, w, reference, side);
    WithoutJoined(list, w);
    NoDupConcat(list, [w]);
    PlacedAround(list + [w], w, reference, side, a, b);
    MovedAcross(d, m, MoveRelative(d, w, reference, side), source, target, w, a + Block(w, reference, side) + b);
  }

  /** Main result on relative moves.  The window leaves its list, where the others keep their order, and
      stands on the asked side of the reference, around which the others keep theirs; every other list
      and layout stays. */
  lemma MoveRelativeMeaning(d: Desk, w: Id, reference: Id, side: Side, a: seq<Id>, b: seq<Id>)
    requires Inv(d, {}) && CanPlace(d, w, reference)
    requires Around(d.groups[d.windows[reference].group.value].windows, w, reference, a, b)
    ensures MovedBeside(d, MoveRelative(d, w, reference, side), d.windows[w].group.value,
        d.windows[reference].group.value, w,
      a + Block(w, reference, side) + b)
  {
    var source, target := d.windows[w].group.value, d.windows[reference].group.value;
    if source == target {
      SoundGroup(d, target);
      PlacedAround(d.groups[target].windows, w, reference, side, a, b);
      RelativeWithin(d, w, reference, side, target, a + Block(w, reference, side) + b);
    } else {
      RelativeAcross(d, w, reference, side, source, target, a, b);
    }
  }
}
