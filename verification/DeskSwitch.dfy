/** Switching the workspace an output shows: groups pinned to the output come along first. */
module DeskSwitch {
  import opened Seqs
  import opened DeskState
  import opened DeskSteps
  import opened DeskMoves
  import opened DeskWindows
  import opened DeskOutputs

  ghost predicate PinnedTo(s: Stance, o: Id) {
    s.placement.Floating? && s.pin == Some(o)
  }

  /** Every group of `list` that is pinned to `o` and elsewhere moves to `target`. */
  ghost function Follow(d: Desk, list: seq<Id>, o: Id, target: Id): Desk
    decreases |list|
  {
    if list == [] then d
    else
      var g := list[0];
      var e := (if g in d.groups && PinnedTo(StanceOf(d.groups[g]), o) && d.groups[g].workspace != target
        then MoveFloating(d, g, target, true) else d);
      Follow(e, list[1..], o, target)
  }

  ghost function FollowPinned(d: Desk, o: Id, target: Id): Desk {
    if OutputOf(d, target) == Some(o) then Follow(d, d.groupOrder, o, target) else d
  }

  /** Where the groups of `list` stand after following. */
  ghost function Followed(stances: map<Id, Stance>, list: seq<Id>, o: Id, target: Id): map<Id, Stance> {
    map g | g in stances :: if g in list && PinnedTo(stances[g], o) then stances[g].(workspace := target) else stances[g]
  }

  /** All of `d` except stances and which groups are active. */
  ghost predicate OnlyStances(d: Desk, e: Desk) {
    && Lists(e.groups) == Lists(d.groups) && e.groupOrder == d.groupOrder && SameOutputs(d, e)
    && Layouts(e.workspaces) == Layouts(d.workspaces) && e.windows.Keys == d.windows.Keys
    && (forall w :: w in d.windows ==> e.windows[w].group == d.windows[w].group && e.windows[w].mapped == d.windows[w].mapped)
    && e.nextGroup == d.nextGroup && e.nextSplit == d.nextSplit && e.nextWorkspace == d.nextWorkspace
    && e.focusedOutput == d.focusedOutput
  }

  lemma OnlyStancesTwice(d: Desk, e: Desk, f: Desk)
    requires OnlyStances(d, e) && OnlyStances(e, f)
    ensures OnlyStances(d, f)
  {
  }

  lemma HomeOf(d: Desk, e: Desk, ws: Id)
    requires Homes(e.workspaces) == Homes(d.workspaces)
    ensures OutputOf(e, ws) == OutputOf(d, ws) && (ws in e.workspaces <==> ws in d.workspaces)
  {
    assert Homes(e.workspaces).Keys == e.workspaces.Keys && Homes(d.workspaces).Keys == d.workspaces.Keys;
    assert ws in d.workspaces ==> Homes(e.workspaces)[ws].output == Homes(d.workspaces)[ws].output;
  }

  lemma MoveFollows(d: Desk, g: Id, o: Id, target: Id)
    requires Sound(d) && g in d.groups && PinnedTo(StanceOf(d.groups[g]), o) && OutputOf(d, target) == Some(o)
    requires d.groups[g].workspace != target
    ensures var e := MoveFloating(d, g, target, true);
      && CanMoveFloating(d, g, target) && OnlyStances(d, e) && Sound(e) && e.activeGroup == d.activeGroup
      && Stances(e.groups) == Stances(d.groups)[g := StanceOf(d.groups[g]).(workspace := target)]
  {
    hide Sound;
    SoundGroup(d, g);
    MoveFloatingEffects(d, g, target, true);
    MoveFloatingSound(d, g, target, true);
  }

  lemma FollowedHead(stances: map<Id, Stance>, g: Id, rest: seq<Id>, o: Id, target: Id)
    requires g in stances && PinnedTo(stances[g], o)
    ensures
      Followed(stances[g := stances[g].(workspace := target)], rest, o, target) == Followed(stances, [g] + rest, o, target)
  {
  }

  lemma FollowedSkip(stances: map<Id, Stance>, g: Id, rest: seq<Id>, o: Id, target: Id)
    requires g in stances && PinnedTo(stances[g], o) ==> stances[g].workspace == target
    ensures Followed(stances, rest, o, target) == Followed(stances, [g] + rest, o, target)
  {
  }

  /** Following moves exactly the pinned groups of the list, and nothing else. */
  lemma {:induction false} FollowEffects(d: Desk, list: seq<Id>, o: Id, target: Id)
    requires Sound(d) && OutputOf(d, target) == Some(o)
    ensures var e := Follow(d, list, o, target);
      Sound(e) && OnlyStances(d, e) && Stances(e.groups) == Followed(Stances(d.groups), list, o, target)
      && e.activeGroup == d.activeGroup
    decreases |list|
  {
    if list == [] {
      assert Followed(Stances(d.groups), list, o, target) == Stances(d.groups);
    } else {
      var g := list[0];
      assert list == [g] + list[1..];
      assert Stances(d.groups).Keys == d.groups.Keys;
      if g in d.groups && PinnedTo(StanceOf(d.groups[g]), o) && d.groups[g].workspace != target {
        var e := MoveFloating(d, g, target, true);
        MoveFollows(d, g, o, target);
        HomeOf(d, e, target);
        FollowEffects(e, list[1..], o, target);
        OnlyStancesTwice(d, e, Follow(d, list, o, target));
        FollowedHead(Stances(d.groups), g, list[1..], o, target);
      } else {
        FollowEffects(d, list[1..], o, target);
        FollowedSkip(Stances(d.groups), g, list[1..], o, target);
      }
    }
  }

  // ----- focus of the shown workspace

  ghost function FocusVisible(d: Desk, o: Id): Desk {
    if o !in d.outputs || d.outputs[o].visible.None? || d.outputs[o].visible.value !in d.workspaces then d
    else
      var w := d.workspaces[d.outputs[o].visible.value];
      var e := d.(focusedOutput := Some(o));
      if && w.active.Some? && w.active.value in d.groups && d.groups[w.active.value].active.Some?
         && d.groups[w.active.value].active.value in d.windows
         && d.windows[d.groups[w.active.value].active.value].mapped
      then FocusWindow(e, d.groups[w.active.value].active.value)
      else e.(activeGroup := w.active)
  }

  lemma FocusVisibleEffects(d: Desk, o: Id)
    requires Sound(d)
    ensures Sound(FocusVisible(d, o)) && Refocused(d, FocusVisible(d, o))
  {
    if o in d.outputs && d.outputs[o].visible.Some? && d.outputs[o].visible.value in d.workspaces {
      var e := d.(focusedOutput := Some(o));
      var ws := d.outputs[o].visible.value;
      SoundWorkspace(d, ws);
      if d.workspaces[ws].active.Some? && d.groups[d.workspaces[ws].active.value].active.Some? {
        var w := d.groups[d.workspaces[ws].active.value].active.value;
        FocusWindowSound(e, w);
        FocusRefocuses(e, w);
      }
    }
  }

  // ----- switching

  ghost function Shown(d: Desk, o: Id, target: Id): Desk
    requires o in d.outputs
  {
    var e := FollowPinned(d, o, target);
    e.(outputs := d.outputs[o := d.outputs[o].(visible := Some(target))])
  }

  ghost predicate CanSwitch(d: Desk, o: Id, target: Id) {
    o in d.outputs && OutputOf(d, target) == Some(o)
  }

  ghost function SwitchWorkspace(d: Desk, o: Id, target: Id, focus: bool): Desk {
    if !CanSwitch(d, o, target) then d
    else
      var e := if d.outputs[o].visible == Some(target) then d else Shown(d, o, target);
      if focus then FocusVisible(e, o) else e
  }

  /** Every invariant but those about the outputs of `open`: these may show nothing, and groups pinned
      to them float anywhere. */
  ghost predicate Unsettled(d: Desk, open: set<Id>, spare: set<Id>) {
    var stances := Stances(d.groups);
    && Sound(d) && NonEmptyBut(d, spare) && Housed(d) && open <= d.outputs.Keys
    && (forall p :: p in d.outputs && p !in open ==> d.outputs[p].visible.Some?)
    && forall g :: g in stances ==> PinLoose(d.outputs, open, stances[g])
  }

  ghost predicate PinLoose(outputs: map<Id, Output>, open: set<Id>, s: Stance) {
    if s.pin.Some? && s.pin.value in open then s.placement.Floating? else PinSound(outputs, s)
  }

  lemma HousedSame(d: Desk, e: Desk)
    requires Housed(d) && SameOutputs(d, e)
    ensures Housed(e)
  {
  }

  lemma ShownHoused(d: Desk, o: Id, target: Id)
    requires Housed(d) && o in d.outputs && OutputOf(d, target) == Some(o)
    ensures Housed(d.(outputs := d.outputs[o := d.outputs[o].(visible := Some(target))]))
  {
    var homes := Homes(d.workspaces);
    assert target in homes && homes[target].output == Some(o);
    assert WorkspaceHoused(d.outputs, target, homes[target]);
    assert OutputHoused(homes, o, d.outputs[o]);
    var outputs := d.outputs[o := d.outputs[o].(visible := Some(target))];
    forall ws | ws in homes ensures WorkspaceHoused(outputs, ws, homes[ws]) {
      assert WorkspaceHoused(d.outputs, ws, homes[ws]);
    }
  }

  /** Showing a workspace settles the output and brings its pinned groups along. */
  lemma ShownSettles(d: Desk, o: Id, target: Id, open: set<Id>, spare: set<Id>)
    requires Unsettled(d, open, spare) && OutputOf(d, target) == Some(o) && o in open
    ensures Unsettled(Shown(d, o, target), open - {o}, spare)
  {
    ShownHousing(d, o, target);
    ShownMembers(d, o, target, spare);
    ShownPins(d, o, target, open, spare);
  }

  lemma ShownHousing(d: Desk, o: Id, target: Id)
    requires Sound(d) && Housed(d) && o in d.outputs && OutputOf(d, target) == Some(o)
    ensures Housed(Shown(d, o, target))
  {
    var e := Follow(d, d.groupOrder, o, target);
    FollowEffects(d, d.groupOrder, o, target);
    HomeOf(d, e, target);
    HousedSame(d, e);
    ShownHoused(e, o, target);
  }

  lemma ShownMembers(d: Desk, o: Id, target: Id, spare: set<Id>)
    requires Sound(d) && NonEmptyBut(d, spare) && o in d.outputs && OutputOf(d, target) == Some(o)
    ensures Sound(Shown(d, o, target)) && NonEmptyBut(Shown(d, o, target), spare)
  {
    FollowEffects(d, d.groupOrder, o, target);
  }

  lemma ShownPins(d: Desk, o: Id, target: Id, open: set<Id>, spare: set<Id>)
    requires Unsettled(d, open, spare) && OutputOf(d, target) == Some(o) && o in open
    ensures var e := Shown(d, o, target); var stances := Stances(e.groups);
      forall g :: g in stances ==> PinLoose(e.outputs, open - {o}, stances[g])
  {
    FollowEffects(d, d.groupOrder, o, target);
    assert Stances(d.groups).Keys == d.groups.Keys;
    FollowedPins(d.outputs, Stances(d.groups), d.groupOrder, o, target, open);
  }

  lemma FollowedPins(outputs: map<Id, Output>, stances: map<Id, Stance>, list: seq<Id>, o: Id, target: Id,
                     open: set<Id>)
    requires o in outputs && o in open && forall g :: g in stances ==> g in list
    requires forall g :: g in stances ==> PinLoose(outputs, open, stances[g])
    ensures var followed := Followed(stances, list, o, target);
      forall g :: g in followed ==> PinLoose(outputs[o := outputs[o].(visible := Some(target))], open - {o}, followed[g])
  {
  }

  lemma SwitchKeeps(d: Desk, o: Id, target: Id, focus: bool, spare: set<Id>)
    requires Inv(d, spare)
    ensures Inv(SwitchWorkspace(d, o, target, focus), spare)
  {
    if o in d.outputs && OutputOf(d, target) == Some(o) {
      var e := if d.outputs[o].visible == Some(target) then d else Shown(d, o, target);
      if d.outputs[o].visible != Some(target) {
        InvUnsettled(d, {o}, spare);
        ShownSettles(d, o, target, {o}, spare);
        assert {o} - {o} == {};
        UnsettledInv(e, spare);
      }
      FocusVisibleEffects(e, o);
      RefocusedKeeps(e, FocusVisible(e, o), spare);
    }
  }

  lemma InvUnsettled(d: Desk, open: set<Id>, spare: set<Id>)
    requires Inv(d, spare) && open <= d.outputs.Keys
    ensures Unsettled(d, open, spare)
  {
  }

  lemma UnsettledInv(d: Desk, spare: set<Id>)
    requires Unsettled(d, {}, spare)
    ensures Inv(d, spare)
  {
  }

  ghost function Activate(d: Desk, ws: Id): Desk {
    if OutputOf(d, ws).Some? then SwitchWorkspace(d, OutputOf(d, ws).value, ws, true) else d
  }

  lemma ActivateKeeps(d: Desk, ws: Id, spare: set<Id>)
    requires Inv(d, spare)
    ensures Inv(Activate(d, ws), spare)
  {
    if OutputOf(d, ws).Some? {
      SwitchKeeps(d, OutputOf(d, ws).value, ws, true, spare);
    }
  }

  /** After switching, every group pinned to the output is on the workspace it now shows, and no other
      group has changed its workspace. */
  lemma PinnedComeAlong(d: Desk, o: Id, target: Id, focus: bool, g: Id)
    requires Inv(d, {}) && o in d.outputs && OutputOf(d, target) == Some(o) && g in d.groups
    ensures var e := SwitchWorkspace(d, o, target, focus);
      && g in e.groups && e.outputs[o].visible == Some(target)
      && e.groups[g].workspace == (if d.groups[g].pin == Some(o) then target else d.groups[g].workspace)
      && e.groups[g].pin == d.groups[g].pin
  {
    var shown := if d.outputs[o].visible == Some(target) then d else Shown(d, o, target);
    StanceSound(d, g);
    if d.outputs[o].visible != Some(target) {
      ShownStance(d, o, target, g);
      SwitchSound(d, o, target);
    }
    FocusVisibleEffects(shown, o);
    RefocusedGroups(shown, FocusVisible(shown, o));
  }

  lemma ShownStance(d: Desk, o: Id, target: Id, g: Id)
    requires Inv(d, {}) && o in d.outputs && OutputOf(d, target) == Some(o) && g in d.groups
    ensures var e := Shown(d, o, target);
      && g in e.groups && o in e.outputs && e.outputs[o].visible == Some(target)
      && StanceOf(e.groups[g]) == (if d.groups[g].pin == Some(o) then StanceOf(d.groups[g]).(workspace := target) else StanceOf(d.groups[g]))
  {
    hide GroupsSound, WorkspacesSound, Follow;
    StanceSound(d, g);
    FollowEffects(d, d.groupOrder, o, target);
    var e := Shown(d, o, target);
    assert Stances(d.groups).Keys == d.groups.Keys && Stances(e.groups).Keys == e.groups.Keys;
    assert Stances(e.groups)[g] == Followed(Stances(d.groups), d.groupOrder, o, target)[g];
  }

  lemma SwitchSound(d: Desk, o: Id, target: Id)
    requires Inv(d, {}) && o in d.outputs && OutputOf(d, target) == Some(o)
    ensures Sound(Shown(d, o, target))
  {
    InvUnsettled(d, {o}, {});
    ShownSettles(d, o, target, {o}, {});
  }
}
