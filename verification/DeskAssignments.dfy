/** Which workspaces an output receives and which one it shows: on connection, on removal, and when going
to the next or the previous one. */
module DeskAssignments {
  import opened Seqs
  import opened DeskState
  import opened DeskMoves
  import opened DeskWindows
  import opened DeskOutputs
  import opened DeskSwitch
  import opened DeskPolicy

  // ----- going to the next and to the previous workspace

  lemma {:induction false} SuccessorMeaning(list: seq<Id>, i: nat)
    requires NoDup(list) && i < |list|
    ensures SuccessorIn(list, list[i]) == if i + 1 < |list| then Some(list[i + 1]) else None
    decreases i
  {
    if i > 0 {
      assert list[1..][i - 1] == list[i];
      SuccessorMeaning(list[1..], i - 1);
    } else if |list| >= 2 {
      assert list[0] == list[i];
    }
  }

  lemma {:induction false} PredecessorMeaning(list: seq<Id>, i: nat)
    requires NoDup(list) && i < |list|
    ensures PredecessorIn(list, list[i]) == if i > 0 then Some(list[i - 1]) else None
    decreases |list|
  {
    if |list| >= 2 {
      if i == 0 {
        NoPredecessor(list);
      } else if i > 1 {
        assert list[1..][i - 1] == list[i];
        PredecessorMeaning(list[1..], i - 1);
      }
    }
  }

  lemma NoPredecessor(list: seq<Id>)
    requires NoDup(list) && |list| > 0
    ensures PredecessorIn(list, list[0]).None?
  {
    NotPreceded(list, list[0]);
  }

  lemma {:induction false} NotPreceded(list: seq<Id>, x: Id)
    requires forall i :: 0 < i < |list| ==> list[i] != x
    ensures PredecessorIn(list, x).None?
    decreases |list|
  {
    if |list| >= 2 {
      assert forall i :: 0 < i < |list[1..]| ==> list[1..][i] == list[i + 1];
      NotPreceded(list[1..], x);
    }
  }

  /** The `i`-th workspace of the output that has the focus is the one shown there. */
  ghost predicate ShownAt(d: Desk, o: Id, i: nat) {
    && d.focusedOutput == Some(o) && o in d.outputs && i < |d.outputs[o].assignments|
    && d.outputs[o].visible == Some(d.outputs[o].assignments[i])
  }

  /** In a state between operations the focused output shows one of its workspaces. */
  lemma SomethingShown(d: Desk, o: Id) returns (i: nat)
    requires Inv(d, {}) && d.focusedOutput == Some(o)
    ensures ShownAt(d, o, i)
  {
    assert OutputHoused(Homes(d.workspaces), o, d.outputs[o]);
    i :| i < |d.outputs[o].assignments| && d.outputs[o].assignments[i] == d.outputs[o].visible.value;
  }

  /** `e` shows the workspace `ws` on output `o`, which has the focus together with the active group of the
      workspace, if there is one; no other output has changed. */
  ghost predicate Switched(d: Desk, e: Desk, o: Id, ws: Id, list: seq<Id>)
    requires o in d.outputs
  {
    e.outputs == d.outputs[o := d.outputs[o].(visible := Some(ws), assignments := list)] && e.focusedOutput == Some(o)
    && e.outputOrder == d.outputOrder && ws in e.workspaces && e.activeGroup == e.workspaces[ws].active
  }

  /** Focusing the workspace an output shows makes its active group, or none, the server's active one, and
      changes no group and no workspace. */
  lemma FocusVisibleLands(d: Desk, o: Id)
    requires Sound(d) && o in d.outputs && d.outputs[o].visible.Some?
    requires OutputOf(d, d.outputs[o].visible.value) == Some(o)
    ensures var e, ws := FocusVisible(d, o), d.outputs[o].visible.value;
      && e.focusedOutput == Some(o) && e.outputs == d.outputs && e.outputOrder == d.outputOrder
      && ws in d.workspaces && e.activeGroup == d.workspaces[ws].active
      && e.groups == d.groups && e.workspaces == d.workspaces
  {
    var ws := d.outputs[o].visible.value;
    SoundWorkspace(d, ws);
    if d.workspaces[ws].active.Some? && d.groups[d.workspaces[ws].active.value].active.Some? {
      SoundGroup(d, d.workspaces[ws].active.value);
    }
  }

  /** Switching with focus shows the target on its output, which gets the focus. */
  lemma SwitchLands(d: Desk, o: Id, ws: Id)
    requires Inv(d, {}) && o in d.outputs && OutputOf(d, ws) == Some(o)
    ensures Switched(d, SwitchWorkspace(d, o, ws, true), o, ws, d.outputs[o].assignments)
  {
    hide FocusVisible, Inv, Sound;
    var e := if d.outputs[o].visible == Some(ws) then d else Shown(d, o, ws);
    ShownOnly(d, o, ws);
    FocusVisibleLands(e, o);
  }

  lemma ShownOnly(d: Desk, o: Id, ws: Id)
    requires Inv(d, {}) && o in d.outputs && OutputOf(d, ws) == Some(o)
    ensures var e := if d.outputs[o].visible == Some(ws) then d else Shown(d, o, ws);
      && Sound(e) && e.outputs == d.outputs[o := d.outputs[o].(visible := Some(ws))] && OutputOf(e, ws) == Some(o)
      && e.outputOrder == d.outputOrder
  {
    hide Follow;
    if d.outputs[o].visible != Some(ws) {
      SwitchSound(d, o, ws);
      FollowEffects(d, d.groupOrder, o, ws);
      HomeOf(d, Follow(d, d.groupOrder, o, ws), ws);
    }
  }

  /** Main result.  Going to the next workspace shows the one right after the shown one in the output's
      list; after the last one a new workspace is appended and shown. */
  lemma NextMeaning(d: Desk, o: Id, i: nat)
    requires Inv(d, {}) && ShownAt(d, o, i)
    ensures var e, list := NextWorkspace(d), d.outputs[o].assignments;
      && (i + 1 < |list| ==> Switched(d, e, o, list[i + 1], list))
      && (i + 1 == |list| ==>
            d.nextWorkspace !in d.workspaces && Switched(d, e, o, d.nextWorkspace, list + [d.nextWorkspace]))
  {
    hide SwitchWorkspace, Sound;
    var list := d.outputs[o].assignments;
    AssignmentsOnce(d, o);
    SuccessorMeaning(list, i);
    if i + 1 < |list| {
      AssignedHere(d, o, list[i + 1]);
      SwitchLands(d, o, list[i + 1]);
    } else {
      NewWorkspaceReady(d, o);
      SwitchLands(Assign(CreateWorkspace(d), o, d.nextWorkspace), o, d.nextWorkspace);
    }
  }

  lemma AssignmentsOnce(d: Desk, o: Id)
    requires Housed(d) && o in d.outputs
    ensures NoDup(d.outputs[o].assignments)
  {
    assert OutputHoused(Homes(d.workspaces), o, d.outputs[o]);
  }

  lemma NewWorkspaceReady(d: Desk, o: Id)
    requires Inv(d, {}) && o in d.outputs
    ensures var e, n := Assign(CreateWorkspace(d), o, d.nextWorkspace), d.nextWorkspace;
      && Inv(e, {}) && n !in d.workspaces && OutputOf(e, n) == Some(o) && e.outputOrder == d.outputOrder
      && e.outputs == d.outputs[o := d.outputs[o].(assignments := d.outputs[o].assignments + [n])]
  {
    InvUnsettled(d, {}, {});
    CreateWorkspaceKeeps(d, {}, {});
    AssignKeeps(CreateWorkspace(d), o, d.nextWorkspace, {}, {});
    UnsettledInv(Assign(CreateWorkspace(d), o, d.nextWorkspace), {});
  }

  /** Main result.  Going to the previous workspace shows the one right before; at the first one nothing
      happens. */
  lemma PreviousMeaning(d: Desk, o: Id, i: nat)
    requires Inv(d, {}) && ShownAt(d, o, i)
    ensures var e, list := PreviousWorkspace(d), d.outputs[o].assignments;
      && (i > 0 ==> Switched(d, e, o, list[i - 1], list)) && (i == 0 ==> e == d)
  {
    hide SwitchWorkspace, Sound;
    var list := d.outputs[o].assignments;
    AssignmentsOnce(d, o);
    PredecessorMeaning(list, i);
    if i > 0 {
      AssignedHere(d, o, list[i - 1]);
      SwitchLands(d, o, list[i - 1]);
    }
  }

  /** Going to the next workspace and back shows the first one again. */
  lemma PreviousUndoesNext(d: Desk, o: Id)
    requires Inv(d, {}) && d.focusedOutput == Some(o)
    ensures var e := PreviousWorkspace(NextWorkspace(d));
      o in e.outputs && e.outputs[o].visible == d.outputs[o].visible
  {
    hide NextWorkspace, PreviousWorkspace, Inv;
    var i := SomethingShown(d, o);
    NextMeaning(d, o, i);
    NextWorkspaceKeeps(d, {});
    assert ShownAt(NextWorkspace(d), o, i + 1);
    PreviousMeaning(NextWorkspace(d), o, i + 1);
  }

  // ----- a new output

  /** The elements of the list that are chosen, in the order of the list. */
  ghost function Among(list: seq<Id>, chosen: set<Id>): seq<Id>
    decreases |list|
  {
    if list == [] then []
    else (if list[0] in chosen then [list[0]] else []) + Among(list[1..], chosen)
  }

  /** The unassigned workspaces with exactly this preference. */
  ghost function Wanting(d: Desk, want: Option<Id>): set<Id> {
    set ws | ws in d.workspaces && d.workspaces[ws].output.None? && d.workspaces[ws].affinity == want
  }

  lemma {:induction false} AmongOthers(list: seq<Id>, chosen: set<Id>, x: Id)
    requires x !in list
    ensures Among(list, chosen - {x}) == Among(list, chosen)
    decreases |list|
  {
    if list != [] {
      assert list == [list[0]] + list[1..];
      AmongOthers(list[1..], chosen, x);
    }
  }

  /** `e` is `d` with the workspaces `list` assigned to the end of `o`. */
  ghost predicate Assigned(d: Desk, e: Desk, o: Id, list: seq<Id>)
    requires o in d.outputs
  {
    && e.outputs == d.outputs[o := d.outputs[o].(assignments := d.outputs[o].assignments + list)]
    && e.outputOrder == d.outputOrder && e.focusedOutput == d.focusedOutput && e.workspaceOrder == d.workspaceOrder
    && e.nextWorkspace == d.nextWorkspace && e.workspaces.Keys == d.workspaces.Keys
    && forall ws :: ws in d.workspaces ==>
      e.workspaces[ws] == if ws in list then d.workspaces[ws].(output := Some(o)) else d.workspaces[ws]
  }

  lemma AssignedNothing(d: Desk, o: Id)
    requires o in d.outputs
    ensures Assigned(d, d, o, [])
  {
    assert d.outputs[o].assignments + [] == d.outputs[o].assignments;
  }

  lemma AssignedFirst(d: Desk, e: Desk, f: Desk, o: Id, ws: Id, list: seq<Id>)
    requires o in d.outputs && ws in d.workspaces && d.workspaces[ws].output.None? && e == Assign(d, o, ws)
    requires Assigned(e, f, o, list)
    ensures Assigned(d, f, o, [ws] + list)
  {
    assert d.outputs[o].assignments + [ws] + list == d.outputs[o].assignments + ([ws] + list);
  }

  /** Assigning all that want it assigns exactly the unassigned workspaces with that preference, in order. */
  lemma {:induction false} AssignAllMeaning(d: Desk, o: Id, list: seq<Id>, want: Option<Id>)
    requires NoDup(list) && o in d.outputs
    ensures Assigned(d, AssignAll(d, o, list, want), o, Among(list, Wanting(d, want)))
    decreases |list|
  {
    hide Assigned;
    if list == [] {
      AssignedNothing(d, o);
    } else {
      var ws, rest := list[0], list[1..];
      assert list == [ws] + rest;
      if ws in Wanting(d, want) {
        var e := Assign(d, o, ws);
        assert Wanting(e, want) == Wanting(d, want) - {ws};
        AssignAllMeaning(e, o, rest, want);
        AmongOthers(rest, Wanting(d, want), ws);
        AssignedFirst(d, e, AssignAll(e, o, rest, want), o, ws, Among(rest, Wanting(e, want)));
      } else {
        SkipUnwanted(d, o, list, want);
        AssignAllMeaning(d, o, rest, want);
        assert [] + Among(rest, Wanting(d, want)) == Among(rest, Wanting(d, want));
      }
    }
  }

  lemma SkipUnwanted(d: Desk, o: Id, list: seq<Id>, want: Option<Id>)
    requires list != [] && list[0] !in Wanting(d, want)
    ensures AssignAll(d, o, list, want) == AssignAll(d, o, list[1..], want)
  {
  }

  lemma AssignedTwice(d: Desk, e: Desk, f: Desk, o: Id, list: seq<Id>, more: seq<Id>)
    requires o in d.outputs && Assigned(d, e, o, list) && Assigned(e, f, o, more)
    ensures Assigned(d, f, o, list + more)
  {
    assert d.outputs[o].assignments + list + more == d.outputs[o].assignments + (list + more);
  }

  lemma {:induction false} AmongMember(list: seq<Id>, chosen: set<Id>, x: Id)
    ensures x in Among(list, chosen) <==> x in list && x in chosen
    decreases |list|
  {
    if list != [] {
      assert list == [list[0]] + list[1..];
      AmongMember(list[1..], chosen, x);
    }
  }

  /** What a new output named `name` receives: the unassigned workspaces that ask for it, and, when no
      output had the focus, those without a preference as well, each kind in the order of the server's list. */
  ghost function Received(d: Desk, name: Id): seq<Id> {
    Among(d.workspaceOrder, Wanting(d, Some(name)))
    + if d.focusedOutput.None? then Among(d.workspaceOrder, Wanting(d, None)) else []
  }

  lemma {:induction false} FindUnassignedMeaning(d: Desk, list: seq<Id>)
    ensures var free := Among(list, Wanting(d, None));
      FindUnassigned(d, list) == if free == [] then None else Some(free[0])
    decreases |list|
  {
    if list != [] {
      FindUnassignedMeaning(d, list[1..]);
      assert [] + Among(list[1..], Wanting(d, None)) == Among(list[1..], Wanting(d, None));
    }
  }

  lemma ReceivesAll(d: Desk, o: Id, name: Id)
    requires Housed(d) && o !in d.outputs
    ensures var c := Connected(d, o, name);
      var e := AssignAll(c, o, d.workspaceOrder, Some(name));
      var f := if d.focusedOutput.None? then AssignAll(e, o, d.workspaceOrder, None) else e;
      Assigned(c, f, o, Received(d, name)) && Wanting(c, None) == Wanting(d, None)
  {
    var c := Connected(d, o, name);
    assert NoDup(d.workspaceOrder);
    hide AssignAll, Among, Housed;
    AssignAllMeaning(c, o, d.workspaceOrder, Some(name));
    var e := AssignAll(c, o, d.workspaceOrder, Some(name));
    assert Wanting(c, Some(name)) == Wanting(d, Some(name)) && Wanting(c, None) == Wanting(d, None);
    WantingLeft(c, e, o, Some(name));
    if d.focusedOutput.None? {
      AssignAllMeaning(e, o, d.workspaceOrder, None);
      AssignedTwice(c, e, AssignAll(e, o, d.workspaceOrder, None), o, Among(d.workspaceOrder, Wanting(d, Some(name))),
          Among(d.workspaceOrder, Wanting(d, None)));
    } else {
      assert Received(d, name) == Among(d.workspaceOrder, Wanting(d, Some(name)));
    }
  }

  /** Those that ask for the output by name are not among those without a preference. */
  lemma WantingLeft(c: Desk, e: Desk, o: Id, want: Option<Id>)
    requires o in c.outputs && want.Some? && Assigned(c, e, o, Among(c.workspaceOrder, Wanting(c, want)))
    ensures Wanting(e, None) == Wanting(c, None)
  {
    forall ws ensures ws in Wanting(e, None) <==> ws in Wanting(c, None) {
      AmongMember(c.workspaceOrder, Wanting(c, want), ws);
    }
  }

  /** All the workspaces of the new output: those it receives, or else the first unassigned one without a
      preference, or else a new one. */
  ghost function FirstList(d: Desk, name: Id): seq<Id> {
    var free := Among(d.workspaceOrder, Wanting(d, None));
    if Received(d, name) != [] then Received(d, name) else if free != [] then [free[0]] else [d.nextWorkspace]
  }

  ghost function Marked(d: Desk): set<Id> {
    set ws | ws in d.workspaces && d.workspaces[ws].startup
  }

  /** The first of them that is marked to start visible, or else the first. */
  ghost function ShownFirst(d: Desk, list: seq<Id>): Id
    requires list != []
  {
    var marked := Among(list, Marked(d));
    if marked == [] then list[0] else marked[0]
  }

  lemma {:induction false} StartupMeaning(d: Desk, list: seq<Id>)
    ensures var marked := Among(list, Marked(d));
      StartupOf(d, list) == if marked == [] then None else Some(marked[0])
    decreases |list|
  {
    if list != [] {
      StartupMeaning(d, list[1..]);
      assert [] + Among(list[1..], Marked(d)) == Among(list[1..], Marked(d));
    }
  }

  lemma AssignedMarks(d: Desk, e: Desk, o: Id, list: seq<Id>)
    requires o in d.outputs && Assigned(d, e, o, list)
    ensures Marked(e) == Marked(d)
  {
    forall ws ensures ws in Marked(e) <==> ws in Marked(d) {
      assert ws in e.workspaces.Keys <==> ws in d.workspaces.Keys;
    }
  }

  /** The new output with its list, showing nothing yet. */
  lemma PopulatedMeaning(d: Desk, o: Id, name: Id)
    requires Inv(d, {}) && o !in d.outputs
    ensures var e := Populated(d, o, name);
      && e.outputs == d.outputs[o := Output(name, None, FirstList(d, name))] && e.outputOrder == d.outputOrder + [o]
      && e.focusedOutput == d.focusedOutput && Marked(e) == Marked(d)
  {
    hide AssignAll, Among, Sound;
    var c := Connected(d, o, name);
    var e := AssignAll(c, o, d.workspaceOrder, Some(name));
    var f := if d.focusedOutput.None? then AssignAll(e, o, d.workspaceOrder, None) else e;
    ReceivesAll(d, o, name);
    AssignedMarks(c, f, o, Received(d, name));
    assert [] + Received(d, name) == Received(d, name);
    if Received(d, name) == [] {
      FindUnassignedMeaning(f, f.workspaceOrder);
      StillWanting(c, f, o);
      NextIsNew(d);
      FirstAssigned(f, o);
    }
  }

  lemma StillWanting(c: Desk, f: Desk, o: Id)
    requires o in c.outputs && Assigned(c, f, o, [])
    ensures Wanting(f, None) == Wanting(c, None)
  {
    forall ws ensures ws in Wanting(f, None) <==> ws in Wanting(c, None) {
      assert ws in f.workspaces.Keys <==> ws in c.workspaces.Keys;
    }
  }

  lemma NextIsNew(d: Desk)
    requires Sound(d)
    ensures d.nextWorkspace !in d.workspaces
  {
    if d.nextWorkspace in d.workspaces {
      SoundWorkspace(d, d.nextWorkspace);
    }
  }

  /** An output without workspaces gets the first free one, or a new one. */
  lemma FirstAssigned(d: Desk, o: Id)
    requires o in d.outputs && d.outputs[o].assignments == [] && d.nextWorkspace !in d.workspaces
    ensures var e, free := EnsureWorkspace(d, o), Among(d.workspaceOrder, Wanting(d, None));
      && e.outputs == d.outputs[o := d.outputs[o].(assignments := [if free == [] then d.nextWorkspace else free[0]])]
      && e.outputOrder == d.outputOrder && e.focusedOutput == d.focusedOutput && Marked(e) == Marked(d)
  {
    var free := Among(d.workspaceOrder, Wanting(d, None));
    FindUnassignedMeaning(d, d.workspaceOrder);
    if free != [] {
      AmongMember(d.workspaceOrder, Wanting(d, None), free[0]);
      assert [] + [free[0]] == [free[0]];
    } else {
      assert [] + [d.nextWorkspace] == [d.nextWorkspace];
    }
  }

  /** Main result.  A new output has exactly the workspaces it receives, shows the first of them that is
      marked to start visible, or else the first, and takes the focus when no output had it; no other
      output changes. */
  lemma AddOutputMeaning(d: Desk, o: Id, name: Id)
    requires Inv(d, {}) && o !in d.outputs
    ensures var e, list := AddOutput(d, o, name), FirstList(d, name);
      && list != [] && e.outputs == d.outputs[o := Output(name, Some(ShownFirst(d, list)), list)]
      && e.outputOrder == d.outputOrder + [o]
      && e.focusedOutput == if d.focusedOutput.None? then Some(o) else d.focusedOutput
  {
    hide Populated, Received, SwitchWorkspace, Inv;
    var e, list := Populated(d, o, name), FirstList(d, name);
    PopulatedKeeps(d, o, name, {});
    PopulatedMeaning(d, o, name);
    StartupMeaning(e, list);
    var target := ShownFirst(d, list);
    AmongMember(list, Marked(d), target);
    SwitchSettles(e, o, target, d.focusedOutput.None?, {o}, {});
    SwitchFocuses(e, o, target, d.focusedOutput.None?);
  }

  lemma SwitchFocuses(d: Desk, o: Id, ws: Id, focus: bool)
    requires Unsettled(d, {o}, {}) && o in d.outputs && d.outputs[o].visible.None? && ws in d.outputs[o].assignments
    ensures SwitchWorkspace(d, o, ws, focus).focusedOutput == if focus then Some(o) else d.focusedOutput
  {
    hide Sound, FocusVisible, Follow;
    AssignedHere(d, o, ws);
    ShownSettles(d, o, ws, {o}, {});
    FollowEffects(d, d.groupOrder, o, ws);
    HomeOf(d, Follow(d, d.groupOrder, o, ws), ws);
    FocusVisibleLands(Shown(d, o, ws), o);
  }

  // ----- an output goes

  ghost function Unpinned(s: Stance, o: Id): Stance {
    if s.pin == Some(o) then s.(pin := None) else s
  }

  /** The active group after output `o` went: if it had the focus, the active one of the workspace that the
      first output left shows, or none without an output. */
  ghost function ActiveLeft(d: Desk, e: Desk, o: Id): Option<Id> {
    if d.focusedOutput != Some(o) then d.activeGroup
    else if e.outputOrder == [] || e.outputOrder[0] !in e.outputs || e.outputs[e.outputOrder[0]].visible.None? then None
    else
      var ws := e.outputs[e.outputOrder[0]].visible.value;
      if ws in e.workspaces then e.workspaces[ws].active else None
  }

  /** Main result.  Removing an output leaves the others as they are, unassigns exactly its workspaces,
      clears exactly the pins to it, and hands a focus on it to the first output left, if there is one. */
  lemma RemoveOutputMeaning(d: Desk, o: Id)
    requires Inv(d, {}) && o in d.outputs
    ensures var e := RemoveOutput(d, o);
      && e.outputs == d.outputs - {o} && e.outputOrder == Without(d.outputOrder, o)
      && e.focusedOutput == (if d.focusedOutput != Some(o) then d.focusedOutput
                             else if e.outputOrder == [] then None
                             else Some(e.outputOrder[0]))
      && e.activeGroup == ActiveLeft(d, e, o)
      && (forall ws :: OutputOf(e, ws) == if OutputOf(d, ws) == Some(o) then None else OutputOf(d, ws))
      && e.groups.Keys == d.groups.Keys
      && forall g :: g in d.groups ==>
        StanceOf(e.groups[g]) == Unpinned(StanceOf(d.groups[g]), o)
  {
    hide FocusVisible, Inv, Sound, Disconnected;
    var e := Disconnected(d, o);
    DisconnectedReady(d, o);
    DisconnectedMeaning(d, o);
    if d.focusedOutput == Some(o) && e.outputOrder != [] {
      var first := e.outputOrder[0];
      assert first in e.outputOrder;
      AlreadyShown(e, first);
      FocusVisibleLands(e, first);
      FocusVisibleEffects(e, first);
      RefocusedGroups(e, FocusVisible(e, first));
      forall ws ensures OutputOf(FocusVisible(e, first), ws) == OutputOf(e, ws) {
        HomeOf(e, FocusVisible(e, first), ws);
      }
    }
  }

  lemma DisconnectedReady(d: Desk, o: Id)
    requires Inv(d, {}) && o in d.outputs
    ensures var e := Disconnected(d, o);
      && Sound(e) && Housed(e) && (forall p :: p in e.outputOrder ==> p in e.outputs)
      && forall p :: p in e.outputs ==> e.outputs[p].visible.Some?
  {
    DisconnectedSound(d, o);
    DisconnectedHoused(d, o);
  }

  lemma DisconnectedMeaning(d: Desk, o: Id)
    ensures var e := Disconnected(d, o);
      && e.outputs == d.outputs - {o} && e.outputOrder == Without(d.outputOrder, o)
      && e.focusedOutput == (if d.focusedOutput == Some(o) then None else d.focusedOutput)
      && e.activeGroup == d.activeGroup
      && (forall ws :: OutputOf(e, ws) == if OutputOf(d, ws) == Some(o) then None else OutputOf(d, ws))
      && e.groups.Keys == d.groups.Keys
      && forall g :: g in d.groups ==>
        StanceOf(e.groups[g]) == Unpinned(StanceOf(d.groups[g]), o)
  {
  }

  lemma AlreadyShown(d: Desk, o: Id)
    requires Housed(d) && o in d.outputs && d.outputs[o].visible.Some?
    ensures OutputOf(d, d.outputs[o].visible.value) == Some(o)
  {
    assert OutputHoused(Homes(d.workspaces), o, d.outputs[o]);
    AssignedHere(d, o, d.outputs[o].visible.value);
  }
}
