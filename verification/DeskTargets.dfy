/** Where a reloaded policy puts the workspaces, said without the search that computes it, and exactly
which policies are accepted. */
module DeskTargets {
  import opened Seqs
  import opened DeskState
  import opened DeskMoves
  import opened DeskWindows
  import opened DeskOutputs
  import opened DeskSwitch
  import opened DeskPolicy
  import opened DeskReload
  import opened DeskAssignments

  /** The `i`-th output of the list is the first one with this name. */
  ghost predicate NamedAt(d: Desk, list: seq<Id>, name: Id, i: int) {
    && 0 <= i < |list| && list[i] in d.outputs && d.outputs[list[i]].name == name
    && forall j :: 0 <= j < i && list[j] in d.outputs ==> d.outputs[list[j]].name != name
  }

  /** `o` is the first output of the list with this name, or none when no output has it. */
  ghost predicate FirstNamed(d: Desk, list: seq<Id>, name: Id, o: Option<Id>) {
    if o.None? then forall p :: p in list && p in d.outputs ==> d.outputs[p].name != name
    else exists i :: NamedAt(d, list, name, i) && list[i] == o.value
  }

  /** What a declaration promises its workspace: the first output of the preferred name; without a
      preference its own output, else the focused one, else the first. */
  ghost predicate GoesTo(d: Desk, item: Item, o: Option<Id>) {
    var own := if item.id in d.workspaces then d.workspaces[item.id].output else None;
    && (item.affinity.Some? ==> FirstNamed(d, d.outputOrder, item.affinity.value, o))
    && (item.affinity.None? && own.Some? ==> o == own)
    && (item.affinity.None? && own.None? && d.focusedOutput.Some? ==> o == d.focusedOutput)
    && (item.affinity.None? && own.None? && d.focusedOutput.None? ==>
          if d.outputOrder == [] then o == None else o == Some(d.outputOrder[0]))
  }

  lemma {:induction false} NamedIsFirst(d: Desk, list: seq<Id>, name: Id)
    ensures FirstNamed(d, list, name, OutputNamed(d, list, name))
    decreases |list|
  {
    var o := OutputNamed(d, list, name);
    if list != [] {
      var rest := list[1..];
      assert list == [list[0]] + rest;
      NamedIsFirst(d, rest, name);
      if list[0] in d.outputs && d.outputs[list[0]].name == name {
        assert NamedAt(d, list, name, 0);
      } else if o.Some? {
        var i :| NamedAt(d, rest, name, i) && rest[i] == o.value;
        assert list[i + 1] == o.value;
        forall j | 0 <= j < i + 1 && list[j] in d.outputs ensures d.outputs[list[j]].name != name {
          assert j > 0 ==> list[j] == rest[j - 1];
        }
        assert NamedAt(d, list, name, i + 1);
      }
    }
  }

  lemma TargetIsPromised(d: Desk, item: Item)
    ensures GoesTo(d, item, TargetOutput(d, item))
  {
    if item.affinity.Some? {
      NamedIsFirst(d, d.outputOrder, item.affinity.value);
    }
  }

  /** A declaration promises one place only. */
  lemma OnePlace(d: Desk, item: Item, o: Option<Id>, p: Option<Id>)
    requires GoesTo(d, item, o) && GoesTo(d, item, p)
    ensures o == p
  {
    if item.affinity.Some? && o.Some? && p.Some? {
      var i :| NamedAt(d, d.outputOrder, item.affinity.value, i) && d.outputOrder[i] == o.value;
      var k :| NamedAt(d, d.outputOrder, item.affinity.value, k) && d.outputOrder[k] == p.value;
      assert !(i < k) && !(k < i);
    }
  }

  /** The first declaration of a workspace. */
  ghost predicate DeclaredAt(policy: seq<Item>, item: Item, i: int) {
    0 <= i < |policy| && policy[i] == item && forall j :: 0 <= j < i ==> policy[j].id != item.id
  }

  ghost predicate Declares(policy: seq<Item>, item: Item) {
    exists i :: DeclaredAt(policy, item, i)
  }

  ghost predicate Undeclared(policy: seq<Item>, ws: Id) {
    forall i :: 0 <= i < |policy| ==> policy[i].id != ws
  }

  /** The workspace is declared to be on `o`, or is not declared and there already. */
  ghost predicate Lands(d: Desk, policy: seq<Item>, ws: Id, o: Option<Id>) {
    || (Undeclared(policy, ws) && ws in d.workspaces && d.workspaces[ws].output == o)
    || exists item: Item :: Declares(policy, item) && item.id == ws && GoesTo(d, item, o)
  }

  lemma {:induction false} FindIsFirst(policy: seq<Item>, id: Id)
    requires id != 0
    ensures FindItem(policy, id).None? <==> Undeclared(policy, id)
    ensures FindItem(policy, id).Some? ==>
      FindItem(policy, id).value.id == id && Declares(policy, FindItem(policy, id).value)
    decreases |policy|
  {
    if policy != [] {
      var rest := policy[1..];
      assert policy == [policy[0]] + rest;
      FindIsFirst(rest, id);
      if policy[0].id == id {
        assert DeclaredAt(policy, policy[0], 0);
      } else if FindItem(policy, id).Some? {
        var item := FindItem(policy, id).value;
        var i :| DeclaredAt(rest, item, i);
        assert policy[i + 1] == item;
        forall j | 0 <= j < i + 1 ensures policy[j].id != item.id {
          assert j > 0 ==> policy[j] == rest[j - 1];
        }
        assert DeclaredAt(policy, item, i + 1);
      } else {
        forall i | 0 <= i < |policy| ensures policy[i].id != id {
          assert i > 0 ==> policy[i] == rest[i - 1];
        }
      }
    }
  }

  lemma OneDeclaration(policy: seq<Item>, a: Item, b: Item)
    requires Declares(policy, a) && Declares(policy, b) && a.id == b.id
    ensures a == b
  {
    var i :| DeclaredAt(policy, a, i);
    var k :| DeclaredAt(policy, b, k);
    assert !(i < k) && !(k < i);
  }

  /** What validation plans for a live workspace is exactly where it lands. */
  lemma PlannedLands(d: Desk, policy: seq<Item>, ws: Id, o: Option<Id>)
    requires ws in d.workspaces && (ws != 0 || Undeclared(policy, ws))
    ensures Planned(d, policy, ws) == o <==> Lands(d, policy, ws, o)
  {
    if ws != 0 {
      FindIsFirst(policy, ws);
    }
    var item := FindItem(policy, ws);
    if item.Some? {
      TargetIsPromised(d, item.value);
      if Lands(d, policy, ws, o) {
        var other: Item :| Declares(policy, other) && other.id == ws && GoesTo(d, other, o);
        OneDeclaration(policy, item.value, other);
        OnePlace(d, item.value, o, TargetOutput(d, item.value));
      }
    }
  }

  // ----- which policies are accepted

  /** The policy declares exactly the workspaces declared now, each once and all of them live. */
  ghost predicate SameDeclared(d: Desk, current: seq<Id>, policy: seq<Item>) {
    && NoDup(Ids(policy)) && (forall id :: id in current <==> id in Ids(policy))
    && forall id :: id in current ==> id != 0 && id in d.workspaces
  }

  lemma DeclaredInIds(policy: seq<Item>, id: Id)
    ensures Undeclared(policy, id) <==> id !in Ids(policy)
  {
    if id in Ids(policy) {
      var i :| 0 <= i < |Ids(policy)| && Ids(policy)[i] == id;
      assert policy[i].id == id;
    }
    forall i | id !in Ids(policy) && 0 <= i < |policy| ensures policy[i].id != id {
      assert Ids(policy)[i] == policy[i].id;
    }
  }

  lemma CountsAgree(d: Desk, current: seq<Id>, policy: seq<Item>)
    requires NoDup(current)
    ensures SameDeclared(d, current, policy) <==>
      && |current| == |policy| && (forall i :: 0 <= i < |current| ==> FindItem(policy, current[i]).Some?)
      && forall i :: 0 <= i < |policy| ==> Live(d, policy[i].id)
  {
    if SameDeclared(d, current, policy) {
      ManyElements(current);
      ManyElements(Ids(policy));
      assert Elements(current) == Elements(Ids(policy));
      forall i | 0 <= i < |current| ensures FindItem(policy, current[i]).Some? {
        assert current[i] in current;
        DeclaredInIds(policy, current[i]);
        FindIsFirst(policy, current[i]);
      }
      forall i | 0 <= i < |policy| ensures Live(d, policy[i].id) {
        assert Ids(policy)[i] in Ids(policy);
      }
    } else if && |current| == |policy| && (forall i :: 0 <= i < |current| ==> FindItem(policy, current[i]).Some?)
              && forall i :: 0 <= i < |policy| ==> Live(d, policy[i].id) {
      DeclaredOnce(current, policy);
      forall id | id in current ensures id != 0 && id in d.workspaces {
        var i :| 0 <= i < |Ids(policy)| && Ids(policy)[i] == id;
        assert Live(d, policy[i].id);
      }
    }
  }

  /** Every output has a workspace that lands on it. */
  ghost predicate NoneLeftOut(d: Desk, policy: seq<Item>) {
    forall o :: o in d.outputs ==> exists ws :: ws in d.workspaces && Lands(d, policy, ws, Some(o))
  }

  lemma FilledAgree(d: Desk, policy: seq<Item>)
    requires Housed(d) && forall id :: id in Ids(policy) ==> id != 0
    ensures NoneLeftOut(d, policy) <==>
      forall o :: o in d.outputOrder ==> exists ws :: ws in d.workspaceOrder && Planned(d, policy, ws) == Some(o)
  {
    assert Homes(d.workspaces).Keys == d.workspaces.Keys;
    DeclaredInIds(policy, 0);
    if NoneLeftOut(d, policy) {
      forall o | o in d.outputOrder ensures exists ws :: ws in d.workspaceOrder && Planned(d, policy, ws) == Some(o) {
        var ws :| ws in d.workspaces && Lands(d, policy, ws, Some(o));
        PlannedLands(d, policy, ws, Some(o));
      }
    }
    forall o | o in d.outputs && exists ws :: ws in d.workspaceOrder && Planned(d, policy, ws) == Some(o)
      ensures exists ws :: ws in d.workspaces && Lands(d, policy, ws, Some(o))
    {
      var ws :| ws in d.workspaceOrder && Planned(d, policy, ws) == Some(o);
      PlannedLands(d, policy, ws, Some(o));
    }
  }

  /** A policy is accepted exactly when it declares the workspaces declared now, all of them live, and
      leaves every output with a workspace. */
  lemma AcceptedExactly(d: Desk, current: seq<Id>, policy: seq<Item>)
    requires Inv(d, {}) && NoDup(current)
    ensures Acceptable(d, current, policy) <==> SameDeclared(d, current, policy) && NoneLeftOut(d, policy)
  {
    CountsAgree(d, current, policy);
    if SameDeclared(d, current, policy) {
      FilledAgree(d, policy);
    }
  }

  // ----- what an accepted policy does

  /** Preference and startup mark of a workspace are the same. */
  ghost predicate SameMarks(d: Desk, e: Desk, ws: Id) {
    && ws in d.workspaces && ws in e.workspaces
    && e.workspaces[ws].affinity == d.workspaces[ws].affinity && e.workspaces[ws].startup == d.workspaces[ws].startup
  }

  lemma {:induction false} RehomeMarks(d: Desk, policy: seq<Item>, ws: Id)
    requires ws in d.workspaces
    ensures SameMarks(d, RehomeAll(d, policy), ws)
    decreases |policy|
  {
    if policy != [] {
      RehomeMarks(Rehomed(d, policy[0]), policy[1..], ws);
    }
  }

  lemma {:induction false} DescribeMarks(d: Desk, policy: seq<Item>, ws: Id)
    requires ws in d.workspaces && ws != 0 && NoDup(Ids(policy))
    ensures var e := DescribeAll(d, policy);
      && ws in e.workspaces && (Undeclared(policy, ws) ==> SameMarks(d, e, ws))
      && forall i :: 0 <= i < |policy| && policy[i].id == ws ==>
        e.workspaces[ws].affinity == policy[i].affinity && e.workspaces[ws].startup == policy[i].startup
    decreases |policy|
  {
    if policy != [] {
      var e, rest := Described(d, policy[0]), policy[1..];
      RestDeclaredOnce(policy);
      DeclaredInIds(rest, policy[0].id);
      DescribeMarks(e, rest, ws);
      forall i | 0 <= i < |policy| && policy[i].id == ws
        ensures var f := DescribeAll(d, policy);
          f.workspaces[ws].affinity == policy[i].affinity && f.workspaces[ws].startup == policy[i].startup
      {
        if i > 0 {
          assert policy[i] == rest[i - 1];
        }
      }
      assert Undeclared(policy, ws) ==> Undeclared(rest, ws);
    }
  }

  /** Workspace id 0 is never declared, and describing leaves it alone. */
  lemma {:induction false} DescribeOthers(d: Desk, policy: seq<Item>, ws: Id)
    requires ws in d.workspaces && Undeclared(policy, ws)
    ensures SameMarks(d, DescribeAll(d, policy), ws)
    decreases |policy|
  {
    if policy != [] {
      assert policy[0].id != ws;
      assert forall i :: 0 <= i < |policy[1..]| ==> policy[1..][i] == policy[i + 1];
      DescribeOthers(Described(d, policy[0]), policy[1..], ws);
    }
  }

  /** Settling moves no workspace and changes no mark; the outputs that showed nothing show their first
      workspace, the others what they showed. */
  lemma {:induction false} SettleAllShows(d: Desk, list: seq<Id>, open: set<Id>, spare: set<Id>)
    requires Unsettled(d, open, spare) && NoneEmpty(d)
    requires forall o :: o in open ==> d.outputs[o].visible.None? && o in list
    ensures var e := SettleAll(d, list);
      && Homes(e.workspaces) == Homes(d.workspaces) && e.outputs.Keys == d.outputs.Keys
      && forall o :: o in d.outputs ==>
        e.outputs[o] == if o in open then d.outputs[o].(visible := Some(d.outputs[o].assignments[0])) else d.outputs[o]
    decreases |list|
  {
    if list == [] {
      assert forall o :: o !in open;
    } else {
      var o, rest := list[0], list[1..];
      assert list == [o] + rest;
      if o in open {
        var ws := d.outputs[o].assignments[0];
        SettleOne(d, o, open, spare);
        SwitchSettles(d, o, ws, d.focusedOutput == Some(o), open, spare);
        SettleAllShows(SwitchWorkspace(d, o, ws, d.focusedOutput == Some(o)), rest, open - {o}, spare);
      } else {
        if o in d.outputs {
          AlreadySettled(d, o);
        }
        SettleAllShows(d, rest, open, spare);
      }
    }
  }

  /** The desk after workspaces moved and were described, before the outputs settle. */
  ghost function Rearranged(d: Desk, policy: seq<Item>): Desk {
    DescribeAll(RehomeAll(d, policy), policy)
  }

  lemma RearrangedReady(d: Desk, current: seq<Id>, policy: seq<Item>)
    requires Inv(d, {}) && NoDup(current) && Acceptable(d, current, policy)
    ensures var a, b := RehomeAll(d, policy), Rearranged(d, policy);
      && Unsettled(b, OpenOutputs(a), {}) && NoneEmpty(b) && b.outputs == a.outputs && b.outputOrder == d.outputOrder
      && b.workspaces.Keys == d.workspaces.Keys
      && (forall o :: o in OpenOutputs(a) ==> b.outputs[o].visible.None? && o in d.outputOrder)
      && (forall ws :: OutputOf(b, ws) == OutputOf(a, ws)) && NoDup(Ids(policy))
  {
    DeclaredOnce(current, policy);
    InvUnsettled(d, {}, {});
    NoneOpen(d);
    RehomeAllEffects(d, policy, {});
    var a := RehomeAll(d, policy);
    DescribeAllKeeps(a, policy, OpenOutputs(a), {});
    PlannedOutputsFilled(d, a, current, policy);
  }

  lemma AppliedMarks(d: Desk, current: seq<Id>, policy: seq<Item>, ws: Id)
    requires Inv(d, {}) && NoDup(current) && Acceptable(d, current, policy) && ws in d.workspaces
    ensures SameMarks(Rearranged(d, policy), ApplyPolicy(d, policy), ws)
  {
    RearrangedReady(d, current, policy);
    var a, b := RehomeAll(d, policy), Rearranged(d, policy);
    SettleAllShows(b, d.outputOrder, OpenOutputs(a), {});
    var e := ApplyPolicy(d, policy);
    assert Homes(e.workspaces).Keys == e.workspaces.Keys && Homes(b.workspaces).Keys == b.workspaces.Keys;
    assert Homes(e.workspaces)[ws] == Homes(b.workspaces)[ws];
  }

  /** Main result.  After an accepted reload every declared workspace is where its declaration promises, and
      carries the declaration's preference and startup mark; a workspace without a declaration keeps its
      place and its marks. */
  lemma ReloadMeaning(d: Desk, current: seq<Id>, policy: seq<Item>, ws: Id)
    requires Inv(d, {}) && NoDup(current) && Acceptable(d, current, policy) && ws in d.workspaces
    ensures var e := ApplyPolicy(d, policy);
      && ws in e.workspaces
      && (forall i :: 0 <= i < |policy| && policy[i].id == ws ==>
            && GoesTo(d, policy[i], e.workspaces[ws].output)
            && e.workspaces[ws].affinity == policy[i].affinity && e.workspaces[ws].startup == policy[i].startup)
      && (Undeclared(policy, ws) ==> SameMarks(d, e, ws) && e.workspaces[ws].output == d.workspaces[ws].output)
  {
    AcceptedPolicyApplies(d, current, policy);
    AcceptedExactly(d, current, policy);
    AppliedMarks(d, current, policy, ws);
    RehomeMarks(d, policy, ws);
    DeclaredInIds(policy, ws);
    var e := ApplyPolicy(d, policy);
    if Undeclared(policy, ws) {
      DescribeOthers(RehomeAll(d, policy), policy, ws);
      PlannedLands(d, policy, ws, d.workspaces[ws].output);
    } else {
      assert ws != 0;
      DescribeMarks(RehomeAll(d, policy), policy, ws);
      LandsDeclared(d, policy, ws);
    }
  }

  lemma LandsDeclared(d: Desk, policy: seq<Item>, ws: Id)
    requires ws in d.workspaces && ws != 0 && NoDup(Ids(policy))
    ensures forall i :: 0 <= i < |policy| && policy[i].id == ws ==> GoesTo(d, policy[i], Planned(d, policy, ws))
  {
    forall i | 0 <= i < |policy| && policy[i].id == ws ensures GoesTo(d, policy[i], Planned(d, policy, ws)) {
      FindIsFirst(policy, ws);
      forall j | 0 <= j < i ensures policy[j].id != ws {
        assert Ids(policy)[j] == policy[j].id && Ids(policy)[i] == policy[i].id;
      }
      assert DeclaredAt(policy, policy[i], i);
      OneDeclaration(policy, policy[i], FindItem(policy, ws).value);
      TargetIsPromised(d, policy[i]);
    }
  }

  lemma {:induction false} RehomeLeaves(d: Desk, policy: seq<Item>, o: Id, v: Id)
    requires o in d.outputs && d.outputs[o].visible.None? && v !in Ids(policy)
    ensures var e := RehomeAll(d, policy);
      && o in e.outputs && e.outputs[o].visible.None? && e.outputs[o].name == d.outputs[o].name
      && OutputOf(e, v) == OutputOf(d, v)
    decreases |policy|
  {
    if policy != [] {
      assert Ids(policy)[0] == policy[0].id;
      assert forall i :: 0 <= i < |policy[1..]| ==> Ids(policy[1..])[i] == Ids(policy)[i + 1];
      RehomeLeaves(Rehomed(d, policy[0]), policy[1..], o, v);
    }
  }

  /** An output goes on showing its workspace unless that is moved off, and then shows nothing. */
  lemma {:induction false} RehomeShows(d: Desk, policy: seq<Item>, o: Id, v: Id)
    requires o in d.outputs && d.outputs[o].visible == Some(v) && OutputOf(d, v) == Some(o) && NoDup(Ids(policy))
    ensures var e := RehomeAll(d, policy);
      && o in e.outputs && e.outputs[o].name == d.outputs[o].name
      && e.outputs[o].visible == if OutputOf(e, v) == Some(o) then Some(v) else None
    decreases |policy|
  {
    if policy != [] {
      var e := Rehomed(d, policy[0]);
      RestDeclaredOnce(policy);
      if e.outputs[o].visible.None? {
        RehomeLeaves(e, policy[1..], o, v);
      } else {
        RehomeShows(e, policy[1..], o, v);
      }
    }
  }

  /** After an accepted reload an output has kept its name, and shows what it showed if that workspace is
      still its own, else the first of its workspaces. */
  lemma ReloadShows(d: Desk, current: seq<Id>, policy: seq<Item>, o: Id)
    requires Inv(d, {}) && NoDup(current) && Acceptable(d, current, policy) && o in d.outputs
    ensures var e := ApplyPolicy(d, policy);
      && o in e.outputs && e.outputs[o].assignments != [] && e.outputs[o].name == d.outputs[o].name
      && d.outputs[o].visible.Some? && var v := d.outputs[o].visible.value;
      && e.outputs[o].visible == if OutputOf(e, v) == Some(o) then Some(v) else Some(e.outputs[o].assignments[0])
  {
    hide Inv, Unsettled, Acceptable, SettleAll, RehomeAll, DescribeAll;
    ShowsItsOwn(d, o);
    var v := d.outputs[o].visible.value;
    RearrangedReady(d, current, policy);
    var a, b, e := RehomeAll(d, policy), Rearranged(d, policy), ApplyPolicy(d, policy);
    RehomeShows(d, policy, o, v);
    SettleAllShows(b, d.outputOrder, OpenOutputs(a), {});
    HomeOf(b, e, v);
  }

  lemma ShowsItsOwn(d: Desk, o: Id)
    requires Inv(d, {}) && o in d.outputs
    ensures d.outputs[o].visible.Some? && OutputOf(d, d.outputs[o].visible.value) == Some(o)
  {
    AlreadySettled(d, o);
  }

  /** Every live workspace is where the policy declares it, or where it was if it is not declared. */
  lemma AllLand(d: Desk, current: seq<Id>, policy: seq<Item>)
    requires Inv(d, {}) && NoDup(current) && Acceptable(d, current, policy)
    ensures var e := ApplyPolicy(d, policy);
      forall ws :: ws in d.workspaces ==> Lands(d, policy, ws, OutputOf(e, ws))
  {
    AcceptedPolicyApplies(d, current, policy);
    AcceptedExactly(d, current, policy);
    DeclaredInIds(policy, 0);
    forall ws | ws in d.workspaces ensures Lands(d, policy, ws, OutputOf(ApplyPolicy(d, policy), ws)) {
      PlannedLands(d, policy, ws, Planned(d, policy, ws));
    }
  }

  // ----- what is active afterwards

  /** The active group is that of the workspace the output shows. */
  ghost predicate ShowsActive(d: Desk, o: Id) {
    && o in d.outputs && d.outputs[o].visible.Some? && d.outputs[o].visible.value in d.workspaces
    && d.activeGroup == d.workspaces[d.outputs[o].visible.value].active
  }

  /** Showing a workspace without focus leaves the focus and the active group; with focus the workspace's
      active group becomes the active one. */
  lemma SettledFocus(d: Desk, o: Id, open: set<Id>, spare: set<Id>)
    requires Unsettled(d, open, spare) && NoneEmpty(d) && o in open && d.outputs[o].visible.None?
    ensures var ws := d.outputs[o].assignments[0];
      var e := SwitchWorkspace(d, o, ws, d.focusedOutput == Some(o));
      && e.focusedOutput == d.focusedOutput
      && (d.focusedOutput != Some(o) ==> e.activeGroup == d.activeGroup)
      && (d.focusedOutput == Some(o) ==> ShowsActive(e, o))
  {
    var ws := d.outputs[o].assignments[0];
    AssignedHere(d, o, ws);
    ShownSettles(d, o, ws, open, spare);
    hide Sound, FocusVisible, Follow;
    FollowEffects(d, d.groupOrder, o, ws);
    HomeOf(d, Follow(d, d.groupOrder, o, ws), ws);
    if d.focusedOutput == Some(o) {
      FocusVisibleLands(Shown(d, o, ws), o);
    }
  }

  lemma {:induction false} SettleAllFocus(d: Desk, list: seq<Id>, open: set<Id>, spare: set<Id>)
    requires Unsettled(d, open, spare) && NoneEmpty(d)
    requires forall o :: o in open ==> d.outputs[o].visible.None? && o in list
    ensures var e := SettleAll(d, list);
      && e.focusedOutput == d.focusedOutput
      && ((d.focusedOutput.None? || d.focusedOutput.value !in open) ==> e.activeGroup == d.activeGroup)
      && (d.focusedOutput.Some? && open == {d.focusedOutput.value} ==> ShowsActive(e, d.focusedOutput.value))
    decreases |list|
  {
    hide SwitchWorkspace, Housed, Sound;
    if list == [] {
      assert forall o :: o !in open;
    } else {
      var o, rest := list[0], list[1..];
      assert list == [o] + rest;
      if o in open {
        SettleOne(d, o, open, spare);
        SettledFocus(d, o, open, spare);
        var e := SwitchWorkspace(d, o, d.outputs[o].assignments[0], d.focusedOutput == Some(o));
        SettleAllFocus(e, rest, open - {o}, spare);
        if open == {o} {
          assert open - {o} == {};
          NothingToSettle(e, rest, spare);
        }
      } else {
        if o in d.outputs {
          AlreadySettled(d, o);
        }
        SettleAllFocus(d, rest, open, spare);
      }
    }
  }

  lemma {:induction false} NothingToSettle(d: Desk, list: seq<Id>, spare: set<Id>)
    requires Unsettled(d, {}, spare)
    ensures SettleAll(d, list) == d
    decreases |list|
  {
    if list != [] {
      if list[0] in d.outputs {
        AlreadySettled(d, list[0]);
      }
      NothingToSettle(d, list[1..], spare);
    }
  }

  lemma {:induction false} RehomeFocus(d: Desk, policy: seq<Item>)
    ensures var e := RehomeAll(d, policy); e.focusedOutput == d.focusedOutput && e.activeGroup == d.activeGroup
    decreases |policy|
  {
    if policy != [] {
      RehomeFocus(Rehomed(d, policy[0]), policy[1..]);
    }
  }

  lemma {:induction false} DescribeFocus(d: Desk, policy: seq<Item>)
    ensures var e := DescribeAll(d, policy); e.focusedOutput == d.focusedOutput && e.activeGroup == d.activeGroup
    decreases |policy|
  {
    if policy != [] {
      DescribeFocus(Described(d, policy[0]), policy[1..]);
    }
  }

  /** Main result.  A reload leaves the focus on its output, and leaves the active group as well unless the
      workspace shown there is moved away; when that is the only output which loses what it shows, the active
      group of the workspace it then shows becomes the active one. */
  lemma ReloadFocus(d: Desk, current: seq<Id>, policy: seq<Item>, o: Id)
    requires Inv(d, {}) && NoDup(current) && Acceptable(d, current, policy) && d.focusedOutput == Some(o)
    ensures var e := ApplyPolicy(d, policy);
      && e.focusedOutput == Some(o) && o in d.outputs && o in e.outputs
      && (KeepsShown(d, e, o) ==> e.activeGroup == d.activeGroup)
      && (!KeepsShown(d, e, o) && (forall p :: p in d.outputs && p != o ==> KeepsShown(d, e, p)) ==>
            ShowsActive(e, o))
  {
    hide Inv, Unsettled, Acceptable, SettleAll, RehomeAll, DescribeAll;
    FocusedOutputLives(d, o);
    var a, b, e := RehomeAll(d, policy), Rearranged(d, policy), ApplyPolicy(d, policy);
    RearrangedReady(d, current, policy);
    RehomeFocus(d, policy);
    DescribeFocus(a, policy);
    SettleAllFocus(b, d.outputOrder, OpenOutputs(a), {});
    SettleAllShows(b, d.outputOrder, OpenOutputs(a), {});
    forall p | p in d.outputs ensures p in a.outputs && (p in OpenOutputs(a) <==> !KeepsShown(d, e, p)) {
      OpenIsLost(d, a, b, e, policy, p);
    }
    if !KeepsShown(d, e, o) && forall p :: p in d.outputs && p != o ==> KeepsShown(d, e, p) {
      OnlyOpen(d, a, policy, o, current);
    }
  }

  /** The workspace the output showed is still its own. */
  ghost predicate KeepsShown(d: Desk, e: Desk, o: Id)
    requires o in d.outputs
  {
    d.outputs[o].visible.Some? && OutputOf(e, d.outputs[o].visible.value) == Some(o)
  }

  lemma FocusedOutputLives(d: Desk, o: Id)
    requires Inv(d, {}) && d.focusedOutput == Some(o)
    ensures o in d.outputs
  {
  }

  lemma OpenIsLost(d: Desk, a: Desk, b: Desk, e: Desk, policy: seq<Item>, p: Id)
    requires Inv(d, {}) && p in d.outputs && a == RehomeAll(d, policy) && NoDup(Ids(policy))
    requires Homes(e.workspaces) == Homes(b.workspaces) && forall ws :: OutputOf(b, ws) == OutputOf(a, ws)
    ensures p in a.outputs && (p in OpenOutputs(a) <==> !KeepsShown(d, e, p))
  {
    ShowsItsOwn(d, p);
    RehomeShows(d, policy, p, d.outputs[p].visible.value);
    HomeOf(b, e, d.outputs[p].visible.value);
  }

  lemma OnlyOpen(d: Desk, a: Desk, policy: seq<Item>, o: Id, current: seq<Id>)
    requires Inv(d, {}) && NoDup(current) && Acceptable(d, current, policy) && a == RehomeAll(d, policy)
    requires o in OpenOutputs(a) && forall p :: p in d.outputs && p != o ==> p !in OpenOutputs(a)
    ensures OpenOutputs(a) == {o}
  {
    DeclaredOnce(current, policy);
    InvUnsettled(d, {}, {});
    assert forall i :: 0 <= i < |policy| ==> Live(d, policy[i].id);
    NoneOpen(d);
    hide Inv, Acceptable, Unsettled, RehomeAll;
    RehomeAllEffects(d, policy, {});
    forall p ensures p in OpenOutputs(a) <==> p == o {
      assert p in a.outputs.Keys <==> p in d.outputs.Keys;
    }
  }

  // ----- the order of the lists

  lemma {:induction false} AmongConcat(a: seq<Id>, b: seq<Id>, chosen: set<Id>)
    ensures Among(a + b, chosen) == Among(a, chosen) + Among(b, chosen)
    decreases |a|
  {
    if a == [] {
      assert a + b == b;
    } else {
      var head := if a[0] in chosen then [a[0]] else [];
      assert a + b == [a[0]] + (a[1..] + b);
      AmongConcat(a[1..], b, chosen);
      AmongHead(a, chosen);
      AmongHead(a + b, chosen);
      assert head + (Among(a[1..], chosen) + Among(b, chosen)) == head + Among(a[1..], chosen) + Among(b, chosen);
    }
  }

  lemma AmongHead(list: seq<Id>, chosen: set<Id>)
    requires list != []
    ensures Among(list, chosen) == (if list[0] in chosen then [list[0]] else []) + Among(list[1..], chosen)
  {
  }

  lemma {:induction false} AmongWithout(list: seq<Id>, x: Id, chosen: set<Id>)
    requires x !in chosen
    ensures Among(Without(list, x), chosen) == Among(list, chosen)
    decreases |list|
  {
    if list != [] {
      AmongWithout(list[1..], x, chosen);
      if list[0] != x {
        AmongConcat([list[0]], Without(list[1..], x), chosen);
        assert Among([list[0]], chosen) == if list[0] in chosen then [list[0]] else [];
      }
    }
  }

  /** The workspaces that shall be on `o`, and those of them that are not there yet. */
  ghost function Bound(d: Desk, policy: seq<Item>, o: Id): set<Id> {
    set ws | ws in d.workspaces && Planned(d, policy, ws) == Some(o)
  }

  ghost function Coming(d: Desk, policy: seq<Item>, o: Id): set<Id> {
    set ws | ws in d.workspaces && Planned(d, policy, ws) == Some(o) && OutputOf(d, ws) != Some(o)
  }

  ghost function ListAfter(d: Desk, policy: seq<Item>, o: Id): seq<Id>
    requires o in d.outputs
  {
    Among(d.outputs[o].assignments, Bound(d, policy, o)) + Among(Ids(policy), Coming(d, policy, o))
  }

  lemma {:induction false} AmongAll(list: seq<Id>, chosen: set<Id>)
    requires forall i :: 0 <= i < |list| ==> list[i] in chosen
    ensures Among(list, chosen) == list
    decreases |list|
  {
    if list != [] {
      AmongAll(list[1..], chosen);
      assert list == [list[0]] + list[1..];
    }
  }

  /** One declaration carried out leaves the list that is aimed at the same. */
  lemma RehomedAims(d: Desk, policy: seq<Item>, o: Id)
    requires Housed(d) && policy != [] && NoDup(Ids(policy)) && Live(d, policy[0].id) && o in d.outputs
    ensures var d1 := Rehomed(d, policy[0]);
      o in d1.outputs && ListAfter(d1, policy[1..], o) == ListAfter(d, policy, o)
  {
    hide Housed, Planned, Among, TargetOutput;
    var id, rest, d1 := policy[0].id, policy[1..], Rehomed(d, policy[0]);
    RehomedEffects(d, policy[0]);
    RestDeclaredOnce(policy);
    AimsKept(d, d1, policy, o);
    PlannedFirst(d, policy);
    assert Ids(policy) == [id] + Ids(rest);
    AmongConcat([id], Ids(rest), Coming(d, policy, o));
    AmongOne(id, Coming(d, policy, o));
    AmongOthers(Ids(rest), Coming(d, policy, o), id);
    ListStep(d, policy[0], o, Bound(d, policy, o));
  }

  lemma AmongOne(x: Id, chosen: set<Id>)
    ensures Among([x], chosen) == if x in chosen then [x] else []
  {
  }

  lemma PlannedFirst(d: Desk, policy: seq<Item>)
    requires policy != [] && Live(d, policy[0].id)
    ensures Planned(d, policy, policy[0].id) == TargetOutput(d, policy[0])
  {
  }

  lemma AimsKept(d: Desk, d1: Desk, policy: seq<Item>, o: Id)
    requires policy != [] && NoDup(Ids(policy)) && Live(d, policy[0].id)
    requires SameNames(d, d1) && d1.workspaces.Keys == d.workspaces.Keys
    requires OutputOf(d1, policy[0].id) == TargetOutput(d, policy[0])
    requires forall v :: v != policy[0].id ==> OutputOf(d1, v) == OutputOf(d, v)
    ensures Bound(d1, policy[1..], o) == Bound(d, policy, o)
    ensures Coming(d1, policy[1..], o) == Coming(d, policy, o) - {policy[0].id}
  {
    PlannedFirst(d, policy);
    hide Planned, TargetOutput, Live;
    forall ws | ws in d.workspaces ensures Planned(d1, policy[1..], ws) == Planned(d, policy, ws) {
      PlannedStep(d, d1, policy, ws);
    }
  }

  /** What one declaration does to the list of `o`. */
  lemma ListStep(d: Desk, item: Item, o: Id, bound: set<Id>)
    requires Housed(d) && Live(d, item.id) && o in d.outputs
    requires item.id in bound <==> TargetOutput(d, item) == Some(o)
    ensures var d1, id := Rehomed(d, item), item.id;
      && o in d1.outputs
      && Among(d1.outputs[o].assignments, bound) == Among(d.outputs[o].assignments, bound)
        + if id in bound && OutputOf(d, id) != Some(o) then [id] else []
  {
    hide Housed, TargetOutput, Among;
    var list, id := d.outputs[o].assignments, item.id;
    AmongConcat(list, [id], bound);
    AmongOne(id, bound);
    AmongWithout(list, id, if id in bound then {} else bound);
    if OutputOf(d, id).Some? {
      OutputIsLive(d, id);
    }
    TargetExists(d, item);
    assert Among(list, bound) + [] == Among(list, bound);
  }

  lemma {:induction false} RehomeOrder(d: Desk, policy: seq<Item>, o: Id)
    requires Unsettled(d, OpenOutputs(d), {}) && NoDup(Ids(policy)) && o in d.outputs
    requires forall i :: 0 <= i < |policy| ==> Live(d, policy[i].id)
    ensures o in RehomeAll(d, policy).outputs && RehomeAll(d, policy).outputs[o].assignments == ListAfter(d, policy, o)
    decreases |policy|
  {
    if policy == [] {
      StayersOnly(d, o);
    } else {
      RehomedKeeps(d, policy[0], {});
      RehomedEffects(d, policy[0]);
      RestDeclaredOnce(policy);
      RehomedAims(d, policy, o);
      RehomeOrder(Rehomed(d, policy[0]), policy[1..], o);
    }
  }

  lemma StayersOnly(d: Desk, o: Id)
    requires Housed(d) && o in d.outputs
    ensures ListAfter(d, [], o) == d.outputs[o].assignments
  {
    var list := d.outputs[o].assignments;
    forall i | 0 <= i < |list| ensures list[i] in Bound(d, [], o) {
      AssignedHere(d, o, list[i]);
    }
    AmongAll(list, Bound(d, [], o));
    assert Ids([]) == [];
    assert Among([], Coming(d, [], o)) == [];
  }

  /** Main result.  After an accepted reload the list of an output holds the workspaces that stay, in their
      old order, and then those that come, in the order in which they are declared. */
  lemma ReloadOrder(d: Desk, current: seq<Id>, policy: seq<Item>, o: Id)
    requires Inv(d, {}) && NoDup(current) && Acceptable(d, current, policy) && o in d.outputs
    ensures var e := ApplyPolicy(d, policy);
      o in e.outputs && e.outputs[o].assignments == ListAfter(d, policy, o)
    ensures forall ws :: ws in Bound(d, policy, o) <==> ws in d.workspaces && Lands(d, policy, ws, Some(o))
    ensures forall ws :: ws in Coming(d, policy, o) <==> ws in Bound(d, policy, o) && d.workspaces[ws].output != Some(o)
  {
    AcceptedExactly(d, current, policy);
    DeclaredInIds(policy, 0);
    forall ws | ws in d.workspaces ensures Planned(d, policy, ws) == Some(o) <==> Lands(d, policy, ws, Some(o)) {
      PlannedLands(d, policy, ws, Some(o));
    }
    hide Inv, Unsettled, Acceptable, SettleAll, RehomeAll, DescribeAll, Lands, Planned;
    RearrangedReady(d, current, policy);
    OrderReady(d, current, policy, o);
    SettleAllShows(Rearranged(d, policy), d.outputOrder, OpenOutputs(RehomeAll(d, policy)), {});
  }

  lemma OrderReady(d: Desk, current: seq<Id>, policy: seq<Item>, o: Id)
    requires Inv(d, {}) && NoDup(current) && Acceptable(d, current, policy) && o in d.outputs
    ensures o in RehomeAll(d, policy).outputs && RehomeAll(d, policy).outputs[o].assignments == ListAfter(d, policy, o)
  {
    DeclaredOnce(current, policy);
    InvUnsettled(d, {}, {});
    NoneOpen(d);
    RehomeOrder(d, policy, o);
  }
}
