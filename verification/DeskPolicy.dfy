/** Assigning workspaces to outputs: hotplug, and a workspace policy that is validated and then applied
to the running desk. */
module DeskPolicy {
  import opened Seqs
  import opened LayoutTree
  import opened DeskState
  import opened DeskSteps
  import opened DeskMoves
  import opened DeskWindows
  import opened DeskOutputs
  import opened DeskSwitch

  // ----- assigning

  ghost function Assign(d: Desk, o: Id, ws: Id): Desk {
    if o in d.outputs && ws in d.workspaces && d.workspaces[ws].output.None? then
      d.(workspaces := d.workspaces[ws := d.workspaces[ws].(output := Some(o))],
         outputs := d.outputs[o := d.outputs[o].(assignments := d.outputs[o].assignments + [ws])])
    else d
  }

  ghost function Unassign(d: Desk, ws: Id): Desk {
    if ws in d.workspaces && d.workspaces[ws].output.Some? && d.workspaces[ws].output.value in d.outputs then
      var o := d.workspaces[ws].output.value;
      var was := d.outputs[o];
      d.(workspaces := d.workspaces[ws := d.workspaces[ws].(output := None)],
         outputs := d.outputs[o := was.(
           assignments := Without(was.assignments, ws),
           visible := if was.visible == Some(ws) then None else was.visible)])
    else d
  }

  /** Group and window state does not depend on where workspaces are assigned. */
  ghost predicate SameDesk(d: Desk, e: Desk) {
    && e.windows == d.windows && e.groups == d.groups && e.groupOrder == d.groupOrder && e.activeGroup == d.activeGroup
    && e.nextGroup == d.nextGroup && e.nextWindow == d.nextWindow && e.nextSplit == d.nextSplit
    && e.nextWorkspace == d.nextWorkspace && e.workspaces.Keys == d.workspaces.Keys
    && forall ws :: ws in d.workspaces ==>
      e.workspaces[ws].layout == d.workspaces[ws].layout && e.workspaces[ws].active == d.workspaces[ws].active
  }

  lemma SameDeskSound(d: Desk, e: Desk)
    requires Sound(d) && SameDesk(d, e)
    ensures Sound(e)
  {
    forall ws | ws in d.workspaces
      ensures e.workspaces[ws].layout.tiles == d.workspaces[ws].layout.tiles
      ensures WorkspaceSound(Seats(e.groups), e.nextWorkspace, e.nextSplit, ws, e.workspaces[ws])
    {
      assert WorkspaceSound(Seats(d.groups), d.nextWorkspace, d.nextSplit, ws, d.workspaces[ws]);
    }
    assert Registries(e.workspaces) == Registries(d.workspaces);
  }

  ghost function Bare(w: Workspace): Workspace {
    w.(active := None, layout := Tiling(None, []))
  }

  lemma HomesUpdate(workspaces: map<Id, Workspace>, ws: Id, x: Workspace)
    ensures Homes(workspaces[ws := x]) == Homes(workspaces)[ws := Bare(x)]
  {
  }

  lemma AssignHoused(d: Desk, o: Id, ws: Id)
    requires Housed(d)
    ensures Housed(Assign(d, o, ws))
  {
    if o in d.outputs && ws in d.workspaces && d.workspaces[ws].output.None? {
      var homes := Homes(d.workspaces);
      HomesUpdate(d.workspaces, ws, d.workspaces[ws].(output := Some(o)));
      assert homes[ws].output.None?;
      var e := Assign(d, o, ws);
      var homes' := homes[ws := Bare(e.workspaces[ws])];
      forall p | p in d.outputs ensures OutputHoused(homes', p, e.outputs[p]) {
        assert OutputHoused(homes, p, d.outputs[p]);
        NoDupAppend(d.outputs[p].assignments, ws);
      }
      forall v | v in homes ensures WorkspaceHoused(e.outputs, v, homes'[v]) {
        assert WorkspaceHoused(d.outputs, v, homes[v]);
      }
      assert homes'.Keys == homes.Keys;
    }
  }

  lemma NoDupAppend(s: seq<Id>, x: Id)
    requires NoDup(s)
    ensures x !in s ==> NoDup(s + [x])
  {
  }

  lemma UnassignHoused(d: Desk, ws: Id)
    requires Housed(d)
    ensures Housed(Unassign(d, ws))
  {
    if ws in d.workspaces && d.workspaces[ws].output.Some? && d.workspaces[ws].output.value in d.outputs {
      var homes, o := Homes(d.workspaces), d.workspaces[ws].output.value;
      HomesUpdate(d.workspaces, ws, d.workspaces[ws].(output := None));
      var e := Unassign(d, ws);
      var homes' := homes[ws := Bare(e.workspaces[ws])];
      WithoutMembers(d.outputs[o].assignments, ws);
      forall p | p in d.outputs ensures OutputHoused(homes', p, e.outputs[p]) {
        assert OutputHoused(homes, p, d.outputs[p]);
        WithoutNoDup(d.outputs[p].assignments, ws);
      }
      forall v | v in homes ensures WorkspaceHoused(e.outputs, v, homes'[v]) {
        assert WorkspaceHoused(d.outputs, v, homes[v]);
      }
      assert homes'.Keys == homes.Keys;
    }
  }

  lemma AssignKeeps(d: Desk, o: Id, ws: Id, open: set<Id>, spare: set<Id>)
    requires Unsettled(d, open, spare)
    ensures Unsettled(Assign(d, o, ws), open, spare)
  {
    AssignHoused(d, o, ws);
    SameDeskSound(d, Assign(d, o, ws));
  }

  /** Taking the shown workspace away opens its output. */
  lemma UnassignKeeps(d: Desk, ws: Id, open: set<Id>, spare: set<Id>)
    requires Unsettled(d, open, spare)
    ensures Unsettled(Unassign(d, ws), open + Opened(d, ws), spare)
  {
    hide Sound;
    UnassignHoused(d, ws);
    SameDeskSound(d, Unassign(d, ws));
  }

  ghost function Opened(d: Desk, ws: Id): set<Id> {
    set o | o in d.outputs && d.outputs[o].visible == Some(ws)
  }

  // ----- creating workspaces

  ghost function CreateWorkspace(d: Desk): Desk {
    d.(workspaces := d.workspaces[d.nextWorkspace := Workspace(None, None, false, None, Tiling(None, []))],
       workspaceOrder := d.workspaceOrder + [d.nextWorkspace], nextWorkspace := d.nextWorkspace + 1)
  }

  lemma CreateWorkspaceGroups(d: Desk)
    requires Sound(d) && d.nextWorkspace !in d.workspaces
    ensures GroupsSound(CreateWorkspace(d))
  {
    var n, e := d.nextWorkspace, CreateWorkspace(d);
    WorkspaceUpdate(d.workspaces, n, e.workspaces[n]);
    forall g | g in d.groups
      ensures GroupSound(Roles(d.windows), Registries(e.workspaces), d.nextGroup, g, d.groups[g])
    {
      SoundGroup(d, g);
      assert GroupSound(Roles(d.windows), Registries(d.workspaces), d.nextGroup, g, d.groups[g]);
    }
  }

  lemma CreateWorkspaceWorkspaces(d: Desk)
    requires Sound(d) && d.nextWorkspace !in d.workspaces
    ensures WorkspacesSound(CreateWorkspace(d))
  {
    var n, e := d.nextWorkspace, CreateWorkspace(d);
    forall ws | ws in e.workspaces
      ensures WorkspaceSound(Seats(d.groups), e.nextWorkspace, d.nextSplit, ws, e.workspaces[ws])
    {
      if ws == n {
        NoSeats(d, n);
      } else {
        assert WorkspaceSound(Seats(d.groups), d.nextWorkspace, d.nextSplit, ws, d.workspaces[ws]);
      }
    }
  }

  lemma CreateWorkspaceKeeps(d: Desk, open: set<Id>, spare: set<Id>)
    requires Unsettled(d, open, spare)
    ensures Unsettled(CreateWorkspace(d), open, spare) && d.nextWorkspace !in d.workspaces
  {
    var n := d.nextWorkspace;
    if n in d.workspaces {
      SoundWorkspace(d, n);
    }
    CreateWorkspaceGroups(d);
    CreateWorkspaceWorkspaces(d);
    CreateWorkspaceHoused(d);
  }

  lemma NoSeats(d: Desk, ws: Id)
    requires Sound(d) && ws !in d.workspaces
    ensures forall g :: g in Seats(d.groups) ==> Seats(d.groups)[g].workspace != ws
  {
    forall g | g in d.groups ensures d.groups[g].workspace != ws {
      SoundGroup(d, g);
    }
  }

  lemma CreateWorkspaceHoused(d: Desk)
    requires Housed(d) && d.nextWorkspace !in d.workspaces
    ensures Housed(CreateWorkspace(d))
  {
    var n, e := d.nextWorkspace, CreateWorkspace(d);
    var homes := Homes(d.workspaces);
    HomesUpdate(d.workspaces, n, e.workspaces[n]);
    NoDupAppend(d.workspaceOrder, n);
    assert n !in homes;
    var homes' := homes[n := Bare(e.workspaces[n])];
    forall p | p in d.outputs ensures OutputHoused(homes', p, d.outputs[p]) {
      assert OutputHoused(homes, p, d.outputs[p]);
    }
    forall v | v in homes' ensures WorkspaceHoused(d.outputs, v, homes'[v]) {
      assert v in homes ==> WorkspaceHoused(d.outputs, v, homes[v]);
    }
  }

  // ----- the next and the previous workspace

  ghost function SuccessorIn(list: seq<Id>, x: Id): Option<Id>
    decreases |list|
  {
    if |list| < 2 then None else if list[0] == x then Some(list[1]) else SuccessorIn(list[1..], x)
  }

  ghost function PredecessorIn(list: seq<Id>, x: Id): Option<Id>
    decreases |list|
  {
    if |list| < 2 then None else if list[1] == x then Some(list[0]) else PredecessorIn(list[1..], x)
  }

  ghost function NextWorkspace(d: Desk): Desk {
    if d.focusedOutput.Some? && FocusedWorkspace(d).Some? then
      var o := d.focusedOutput.value;
      match SuccessorIn(d.outputs[o].assignments, FocusedWorkspace(d).value)
      case Some(ws) => SwitchWorkspace(d, o, ws, true)
      case None => SwitchWorkspace(Assign(CreateWorkspace(d), o, d.nextWorkspace), o, d.nextWorkspace, true)
    else d
  }

  ghost function PreviousWorkspace(d: Desk): Desk {
    if d.focusedOutput.Some? && FocusedWorkspace(d).Some? then
      var o := d.focusedOutput.value;
      match PredecessorIn(d.outputs[o].assignments, FocusedWorkspace(d).value)
      case Some(ws) => SwitchWorkspace(d, o, ws, true)
      case None => d
    else d
  }

  lemma PreviousWorkspaceKeeps(d: Desk, spare: set<Id>)
    requires Inv(d, spare)
    ensures Inv(PreviousWorkspace(d), spare)
  {
    if d.focusedOutput.Some? && FocusedWorkspace(d).Some? {
      var o, ws := d.focusedOutput.value, FocusedWorkspace(d).value;
      var previous := PredecessorIn(d.outputs[o].assignments, ws);
      if previous.Some? {
        SwitchKeeps(d, o, previous.value, true, spare);
      }
    }
  }

  lemma NextWorkspaceKeeps(d: Desk, spare: set<Id>)
    requires Inv(d, spare)
    ensures Inv(NextWorkspace(d), spare)
  {
    if d.focusedOutput.Some? && FocusedWorkspace(d).Some? {
      var o, ws := d.focusedOutput.value, FocusedWorkspace(d).value;
      var next := SuccessorIn(d.outputs[o].assignments, ws);
      if next.Some? {
        SwitchKeeps(d, o, next.value, true, spare);
      } else {
        InvUnsettled(d, {}, spare);
        CreateWorkspaceKeeps(d, {}, spare);
        AssignKeeps(CreateWorkspace(d), o, d.nextWorkspace, {}, spare);
        var e := Assign(CreateWorkspace(d), o, d.nextWorkspace);
        UnsettledInv(e, spare);
        SwitchKeeps(e, o, d.nextWorkspace, true, spare);
      }
    }
  }

  // ----- outputs come and go

  /** Assigns the unassigned workspaces of the list that have the affinity `want`. */
  ghost function AssignAll(d: Desk, o: Id, list: seq<Id>, want: Option<Id>): Desk
    decreases |list|
  {
    if list == [] then d
    else
      var ws := list[0];
      var e := if ws in d.workspaces && d.workspaces[ws].affinity == want then Assign(d, o, ws) else d;
      AssignAll(e, o, list[1..], want)
  }

  ghost function FindUnassigned(d: Desk, list: seq<Id>): Option<Id>
    decreases |list|
  {
    if list == [] then None
    else if list[0] in d.workspaces && d.workspaces[list[0]].output.None? && d.workspaces[list[0]].affinity.None? then Some(list[0])
    else FindUnassigned(d, list[1..])
  }

  /** An output without workspaces gets an unassigned one, new if need be. */
  ghost function EnsureWorkspace(d: Desk, o: Id): Desk {
    if o !in d.outputs || d.outputs[o].assignments != [] then d
    else
      match FindUnassigned(d, d.workspaceOrder)
      case Some(ws) => Assign(d, o, ws)
      case None => Assign(CreateWorkspace(d), o, d.nextWorkspace)
  }

  ghost function StartupOf(d: Desk, list: seq<Id>): Option<Id>
    decreases |list|
  {
    if list == [] then None
    else if list[0] in d.workspaces && d.workspaces[list[0]].startup then Some(list[0])
    else StartupOf(d, list[1..])
  }

  ghost function Connected(d: Desk, o: Id, name: Id): Desk {
    d.(outputs := d.outputs[o := Output(name, None, [])], outputOrder := d.outputOrder + [o])
  }

  ghost function Populated(d: Desk, o: Id, name: Id): Desk {
    var e := AssignAll(Connected(d, o, name), o, d.workspaceOrder, Some(name));
    EnsureWorkspace(if d.focusedOutput.None? then AssignAll(e, o, d.workspaceOrder, None) else e, o)
  }

  ghost function AddOutput(d: Desk, o: Id, name: Id): Desk {
    if o in d.outputs then d
    else
      var e := Populated(d, o, name);
      if o in e.outputs && e.outputs[o].assignments != [] then
        var list := e.outputs[o].assignments;
        var startup := StartupOf(e, list);
        SwitchWorkspace(e, o, if startup.Some? then startup.value else list[0], d.focusedOutput.None?)
      else e
  }

  lemma ConnectedKeeps(d: Desk, o: Id, name: Id, spare: set<Id>)
    requires Inv(d, spare) && o !in d.outputs
    ensures Unsettled(Connected(d, o, name), {o}, spare)
  {
    hide Sound;
    var e := Connected(d, o, name);
    SameDeskSound(d, e);
    NoDupAppend(d.outputOrder, o);
    var homes := Homes(d.workspaces);
    forall p | p in e.outputs ensures OutputHoused(homes, p, e.outputs[p]) {
      assert p in d.outputs ==> OutputHoused(homes, p, d.outputs[p]);
    }
    forall ws | ws in homes ensures WorkspaceHoused(e.outputs, ws, homes[ws]) {
      assert WorkspaceHoused(d.outputs, ws, homes[ws]);
    }
  }

  lemma {:induction false} AssignAllKeeps(d: Desk, o: Id, list: seq<Id>, want: Option<Id>, open: set<Id>,
                                          spare: set<Id>)
    requires Unsettled(d, open, spare) && o in d.outputs
    ensures Unsettled(AssignAll(d, o, list, want), open, spare) && o in AssignAll(d, o, list, want).outputs
    decreases |list|
  {
    if list != [] {
      var ws := list[0];
      AssignKeeps(d, o, ws, open, spare);
      var e := if ws in d.workspaces && d.workspaces[ws].affinity == want then Assign(d, o, ws) else d;
      AssignAllKeeps(e, o, list[1..], want, open, spare);
    }
  }

  lemma {:induction false} FoundUnassigned(d: Desk, list: seq<Id>)
    ensures var r := FindUnassigned(d, list);
      r.Some? ==> r.value in d.workspaces && d.workspaces[r.value].output.None?
    decreases |list|
  {
    if list != [] {
      FoundUnassigned(d, list[1..]);
    }
  }

  lemma EnsureWorkspaceKeeps(d: Desk, o: Id, open: set<Id>, spare: set<Id>)
    requires Unsettled(d, open, spare) && o in d.outputs
    ensures var e := EnsureWorkspace(d, o);
      Unsettled(e, open, spare) && o in e.outputs && e.outputs[o].assignments != []
  {
    FoundUnassigned(d, d.workspaceOrder);
    match FindUnassigned(d, d.workspaceOrder)
    case Some(ws) =>
      AssignKeeps(d, o, ws, open, spare);
    case None =>
      CreateWorkspaceKeeps(d, open, spare);
      AssignKeeps(CreateWorkspace(d), o, d.nextWorkspace, open, spare);
  }

  lemma PopulatedKeeps(d: Desk, o: Id, name: Id, spare: set<Id>)
    requires Inv(d, spare) && o !in d.outputs
    ensures var e := Populated(d, o, name);
      Unsettled(e, {o}, spare) && o in e.outputs && e.outputs[o].assignments != []
  {
    var c := Connected(d, o, name);
    ConnectedKeeps(d, o, name, spare);
    AssignAllKeeps(c, o, d.workspaceOrder, Some(name), {o}, spare);
    var e := AssignAll(c, o, d.workspaceOrder, Some(name));
    AssignAllKeeps(e, o, d.workspaceOrder, None, {o}, spare);
    EnsureWorkspaceKeeps(if d.focusedOutput.None? then AssignAll(e, o, d.workspaceOrder, None) else e, o, {o}, spare);
  }

  lemma {:induction false} StartupListed(d: Desk, list: seq<Id>)
    ensures StartupOf(d, list).Some? ==> StartupOf(d, list).value in list
    decreases |list|
  {
    if list != [] {
      StartupListed(d, list[1..]);
    }
  }

  lemma AssignedHere(d: Desk, o: Id, ws: Id)
    requires Housed(d) && o in d.outputs && ws in d.outputs[o].assignments
    ensures OutputOf(d, ws) == Some(o)
  {
    assert OutputHoused(Homes(d.workspaces), o, d.outputs[o]);
    assert Homes(d.workspaces).Keys == d.workspaces.Keys && Homes(d.workspaces)[ws].output == d.workspaces[ws].output;
  }

  /** Settling an open output on one of its workspaces. */
  lemma SwitchSettles(d: Desk, o: Id, ws: Id, focus: bool, open: set<Id>, spare: set<Id>)
    requires Unsettled(d, open, spare) && o in open && d.outputs[o].visible.None? && ws in d.outputs[o].assignments
    ensures Unsettled(SwitchWorkspace(d, o, ws, focus), open - {o}, spare)
    ensures OnlyShows(d, SwitchWorkspace(d, o, ws, focus), o, ws)
  {
    AssignedHere(d, o, ws);
    var e := Shown(d, o, ws);
    ShownSettles(d, o, ws, open, spare);
    FollowEffects(d, d.groupOrder, o, ws);
    FocusVisibleEffects(e, o);
  }

  ghost predicate OnlyShows(d: Desk, e: Desk, o: Id, ws: Id)
    requires o in d.outputs
  {
    && e.outputs == d.outputs[o := d.outputs[o].(visible := Some(ws))] && e.outputOrder == d.outputOrder
    && Homes(e.workspaces) == Homes(d.workspaces)
  }

  lemma AddOutputKeeps(d: Desk, o: Id, name: Id, spare: set<Id>)
    requires Inv(d, spare)
    ensures Inv(AddOutput(d, o, name), spare)
  {
    if o !in d.outputs {
      var e := Populated(d, o, name);
      PopulatedKeeps(d, o, name, spare);
      var list := e.outputs[o].assignments;
      StartupListed(e, list);
      var startup := StartupOf(e, list);
      var target := if startup.Some? then startup.value else list[0];
      var focus := d.focusedOutput.None?;
      PopulatedShowsNothing(d, o, name);
      SwitchSettles(e, o, target, focus, {o}, spare);
      assert {o} - {o} == {};
      UnsettledInv(SwitchWorkspace(e, o, target, focus), spare);
    }
  }

  lemma {:induction false} AssignAllShows(d: Desk, o: Id, list: seq<Id>, want: Option<Id>)
    requires o in d.outputs && d.outputs[o].visible.None?
    ensures var e := AssignAll(d, o, list, want);
      o in e.outputs && e.outputs[o].visible.None?
    decreases |list|
  {
    if list != [] {
      var ws := list[0];
      var e := if ws in d.workspaces && d.workspaces[ws].affinity == want then Assign(d, o, ws) else d;
      AssignAllShows(e, o, list[1..], want);
    }
  }

  lemma PopulatedShowsNothing(d: Desk, o: Id, name: Id)
    ensures var e := Populated(d, o, name);
      o in e.outputs && e.outputs[o].visible.None?
  {
    var c := Connected(d, o, name);
    AssignAllShows(c, o, d.workspaceOrder, Some(name));
    AssignAllShows(AssignAll(c, o, d.workspaceOrder, Some(name)), o, d.workspaceOrder, None);
  }

  /** The output leaves: its pins are cleared and its workspaces are unassigned. */
  ghost function Disconnected(d: Desk, o: Id): Desk {
    d.(groups := map g | g in d.groups :: if d.groups[g].pin == Some(o) then d.groups[g].(pin := None) else d.groups[g],
       workspaces := map ws | ws in d.workspaces ::
         if d.workspaces[ws].output == Some(o) then d.workspaces[ws].(output := None) else d.workspaces[ws],
       outputs := d.outputs - {o}, outputOrder := Without(d.outputOrder, o),
       focusedOutput := if d.focusedOutput == Some(o) then None else d.focusedOutput)
  }

  ghost function RemoveOutput(d: Desk, o: Id): Desk {
    if o !in d.outputs then d
    else
      var e := Disconnected(d, o);
      if d.focusedOutput != Some(o) then e
      else if e.outputOrder == [] then e.(activeGroup := None)
      else FocusVisible(e, e.outputOrder[0])
  }

  lemma DisconnectedViews(d: Desk, o: Id)
    ensures var e := Disconnected(d, o);
      && Seats(e.groups) == Seats(d.groups) && Lists(e.groups) == Lists(d.groups) && e.groups.Keys == d.groups.Keys
      && Registries(e.workspaces) == Registries(d.workspaces) && e.windows == d.windows
  {
  }

  lemma DisconnectedGroups(d: Desk, o: Id)
    requires GroupsSound(d)
    ensures GroupsSound(Disconnected(d, o))
  {
    var e := Disconnected(d, o);
    DisconnectedViews(d, o);
    forall g | g in e.groups
      ensures GroupSound(Roles(e.windows), Registries(e.workspaces), e.nextGroup, g, e.groups[g])
    {
      assert GroupSound(Roles(d.windows), Registries(d.workspaces), d.nextGroup, g, d.groups[g]);
    }
  }

  lemma DisconnectedSound(d: Desk, o: Id)
    requires Sound(d)
    ensures Sound(Disconnected(d, o))
  {
    var e := Disconnected(d, o);
    DisconnectedViews(d, o);
    DisconnectedGroups(d, o);
    forall ws | ws in e.workspaces
      ensures WorkspaceSound(Seats(e.groups), e.nextWorkspace, e.nextSplit, ws, e.workspaces[ws])
    {
      assert WorkspaceSound(Seats(d.groups), d.nextWorkspace, d.nextSplit, ws, d.workspaces[ws]);
    }
  }

  lemma DisconnectedHoused(d: Desk, o: Id)
    requires Housed(d)
    ensures Housed(Disconnected(d, o))
  {
    var e := Disconnected(d, o);
    var homes, homes' := Homes(d.workspaces), Homes(e.workspaces);
    WithoutMembers(d.outputOrder, o);
    WithoutNoDup(d.outputOrder, o);
    assert homes'.Keys == homes.Keys;
    assert forall ws :: ws in homes ==> homes'[ws].output == if homes[ws].output == Some(o) then None else homes[ws].output;
    forall p | p in e.outputs ensures OutputHoused(homes', p, e.outputs[p]) {
      assert OutputHoused(homes, p, d.outputs[p]);
    }
    forall ws | ws in homes' ensures WorkspaceHoused(e.outputs, ws, homes'[ws]) {
      assert WorkspaceHoused(d.outputs, ws, homes[ws]);
    }
  }

  lemma RemoveOutputKeeps(d: Desk, o: Id, spare: set<Id>)
    requires Inv(d, spare)
    ensures Inv(RemoveOutput(d, o), spare)
  {
    if o in d.outputs {
      var e := Disconnected(d, o);
      DisconnectedSound(d, o);
      DisconnectedHoused(d, o);
      assert Lists(e.groups) == Lists(d.groups);
      DisconnectedPins(d, o);
      if d.focusedOutput == Some(o) && e.outputOrder != [] {
        FocusVisibleEffects(e, e.outputOrder[0]);
        RefocusedKeeps(e, FocusVisible(e, e.outputOrder[0]), spare);
      }
    }
  }

  lemma DisconnectedPins(d: Desk, o: Id)
    requires PinsSound(d)
    ensures PinsSound(Disconnected(d, o))
  {
    var e := Disconnected(d, o);
    forall g | g in d.groups ensures PinSound(e.outputs, StanceOf(e.groups[g])) {
      StanceSound(d, g);
    }
  }
}
