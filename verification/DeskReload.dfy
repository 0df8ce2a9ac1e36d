/** Reloading the workspace policy of a running desk: validation computes where every workspace would
go, and applying the policy puts it there. */
module DeskReload {
  import opened Seqs
  import opened DeskState
  import opened DeskMoves
  import opened DeskWindows
  import opened DeskOutputs
  import opened DeskSwitch
  import opened DeskPolicy

  /** One declaration: the workspace it is about, the output it prefers, and whether it starts visible. */
  datatype Item = Item(id: Id, affinity: Option<Id>, startup: bool)

  ghost function Ids(policy: seq<Item>): seq<Id> {
    seq(|policy|, i requires 0 <= i < |policy| => policy[i].id)
  }

  ghost function FindItem(policy: seq<Item>, id: Id): Option<Item>
    decreases |policy|
  {
    if policy == [] || id == 0 then None
    else if policy[0].id == id then Some(policy[0])
    else FindItem(policy[1..], id)
  }

  ghost predicate Live(d: Desk, id: Id) {
    id != 0 && id in d.workspaces
  }

  ghost function OutputNamed(d: Desk, list: seq<Id>, name: Id): Option<Id>
    decreases |list|
  {
    if list == [] then None
    else if list[0] in d.outputs && d.outputs[list[0]].name == name then Some(list[0])
    else OutputNamed(d, list[1..], name)
  }

  /** The output a declaration asks for; without a preference a workspace stays where it is. */
  ghost function TargetOutput(d: Desk, item: Item): Option<Id> {
    if item.affinity.Some? then OutputNamed(d, d.outputOrder, item.affinity.value)
    else if OutputOf(d, item.id).Some? then OutputOf(d, item.id)
    else if d.focusedOutput.Some? then d.focusedOutput
    else if d.outputOrder == [] then None
    else Some(d.outputOrder[0])
  }

  /** Where validation expects a workspace to be. */
  ghost function Planned(d: Desk, policy: seq<Item>, ws: Id): Option<Id> {
    var item := FindItem(policy, ws);
    if item.Some? then TargetOutput(d, item.value) else OutputOf(d, ws)
  }

  /** Validation: the same workspaces are declared, all of them live, and no output would be empty. */
  ghost predicate Acceptable(d: Desk, current: seq<Id>, policy: seq<Item>) {
    && |current| == |policy|
    && (forall i :: 0 <= i < |current| ==> FindItem(policy, current[i]).Some?)
    && (forall i :: 0 <= i < |policy| ==> Live(d, policy[i].id))
    && forall o :: o in d.outputOrder ==> exists ws :: ws in d.workspaceOrder && Planned(d, policy, ws) == Some(o)
  }

  // ----- applying

  ghost function Rehomed(d: Desk, item: Item): Desk {
    if !Live(d, item.id) || OutputOf(d, item.id) == TargetOutput(d, item) then d
    else
      var e := Unassign(d, item.id);
      if TargetOutput(d, item).Some? then Assign(e, TargetOutput(d, item).value, item.id) else e
  }

  ghost function RehomeAll(d: Desk, policy: seq<Item>): Desk
    decreases |policy|
  {
    if policy == [] then d else RehomeAll(Rehomed(d, policy[0]), policy[1..])
  }

  ghost function Described(d: Desk, item: Item): Desk {
    if !Live(d, item.id) then d
    else WithWorkspace(d, item.id, d.workspaces[item.id].(affinity := item.affinity, startup := item.startup))
  }

  ghost function DescribeAll(d: Desk, policy: seq<Item>): Desk
    decreases |policy|
  {
    if policy == [] then d else DescribeAll(Described(d, policy[0]), policy[1..])
  }

  ghost predicate ShowsOwn(d: Desk, o: Id)
    requires o in d.outputs
  {
    d.outputs[o].visible.Some? && OutputOf(d, d.outputs[o].visible.value) == Some(o)
  }

  ghost function SettleAll(d: Desk, list: seq<Id>): Desk
    decreases |list|
  {
    if list == [] then d
    else
      var o := list[0];
      var e := (if o !in d.outputs || ShowsOwn(d, o) || d.outputs[o].assignments == [] then d
        else SwitchWorkspace(d, o, d.outputs[o].assignments[0], d.focusedOutput == Some(o)));
      SettleAll(e, list[1..])
  }

  ghost function ApplyPolicy(d: Desk, policy: seq<Item>): Desk {
    SettleAll(DescribeAll(RehomeAll(d, policy), policy), d.outputOrder)
  }

  // ----- an accepted policy declares every workspace once

  ghost function Elements(s: seq<Id>): set<Id> {
    set x | x in s
  }

  lemma {:induction false} FewElements(s: seq<Id>)
    ensures |Elements(s)| <= |s|
    ensures |Elements(s)| == |s| ==> NoDup(s)
    decreases |s|
  {
    if s == [] {
      assert Elements(s) == {};
    } else {
      FewElements(s[1..]);
      assert s == [s[0]] + s[1..];
      assert Elements(s) == Elements(s[1..]) + {s[0]};
      if s[0] in s[1..] {
        assert Elements(s) == Elements(s[1..]);
      }
    }
  }

  lemma {:induction false} ManyElements(s: seq<Id>)
    requires NoDup(s)
    ensures |Elements(s)| == |s|
    decreases |s|
  {
    if s == [] {
      assert Elements(s) == {};
    } else {
      ManyElements(s[1..]);
      assert s == [s[0]] + s[1..];
      assert s[0] !in s[1..];
      assert Elements(s) == Elements(s[1..]) + {s[0]};
    }
  }

  lemma SmallerSubset(a: set<Id>, b: set<Id>)
    requires a <= b && |b| <= |a|
    ensures a == b
  {
    assert |b - a| == |b| - |a|;
  }

  lemma {:induction false} FoundIsDeclared(policy: seq<Item>, id: Id)
    requires FindItem(policy, id).Some?
    ensures id in Ids(policy) && FindItem(policy, id).value in policy && FindItem(policy, id).value.id == id
    decreases |policy|
  {
    if policy[0].id == id {
      assert Ids(policy)[0] == id;
    } else {
      FoundIsDeclared(policy[1..], id);
      var i :| 0 <= i < |Ids(policy[1..])| && Ids(policy[1..])[i] == id;
      assert Ids(policy)[i + 1] == id;
    }
  }

  /** Counting is enough: the declared ids are exactly the current ones, each declared once. */
  lemma DeclaredOnce(current: seq<Id>, policy: seq<Item>)
    requires NoDup(current) && |current| == |policy|
    requires forall i :: 0 <= i < |current| ==> FindItem(policy, current[i]).Some?
    ensures NoDup(Ids(policy)) && forall id :: id in current <==> id in Ids(policy)
  {
    var a, b := Elements(current), Elements(Ids(policy));
    forall x | x in a ensures x in b {
      var i :| 0 <= i < |current| && current[i] == x;
      FoundIsDeclared(policy, current[i]);
    }
    ManyElements(current);
    FewElements(Ids(policy));
    SmallerSubset(a, b);
    assert forall id :: (id in current <==> id in a) && (id in Ids(policy) <==> id in b);
  }

  // ----- rehoming puts every workspace where it was planned

  /** Targets depend only on this much of the outputs. */
  ghost predicate SameNames(d: Desk, e: Desk) {
    && e.outputOrder == d.outputOrder && e.focusedOutput == d.focusedOutput && e.outputs.Keys == d.outputs.Keys
    && forall o :: o in d.outputs ==> e.outputs[o].name == d.outputs[o].name
  }

  lemma {:induction false} SameNamed(d: Desk, e: Desk, list: seq<Id>, name: Id)
    requires SameNames(d, e)
    ensures OutputNamed(e, list, name) == OutputNamed(d, list, name)
    decreases |list|
  {
    if list != [] {
      var o := list[0];
      assert o in e.outputs.Keys <==> o in d.outputs.Keys;
      assert o in d.outputs ==> e.outputs[o].name == d.outputs[o].name;
      SameNamed(d, e, list[1..], name);
    }
  }

  lemma SameTarget(d: Desk, e: Desk, item: Item)
    requires SameNames(d, e) && OutputOf(e, item.id) == OutputOf(d, item.id)
    ensures TargetOutput(e, item) == TargetOutput(d, item)
  {
    if item.affinity.Some? {
      SameNamed(d, e, d.outputOrder, item.affinity.value);
    }
  }

  lemma {:induction false} NamedIsListed(d: Desk, list: seq<Id>, name: Id)
    ensures OutputNamed(d, list, name).Some? ==> OutputNamed(d, list, name).value in d.outputs
    decreases |list|
  {
    if list != [] {
      NamedIsListed(d, list[1..], name);
    }
  }

  lemma TargetExists(d: Desk, item: Item)
    requires Housed(d)
    ensures TargetOutput(d, item).Some? ==> TargetOutput(d, item).value in d.outputs
  {
    if item.affinity.Some? {
      NamedIsListed(d, d.outputOrder, item.affinity.value);
    } else if OutputOf(d, item.id).Some? {
      OutputIsLive(d, item.id);
    } else if d.outputOrder != [] {
      var first := d.outputOrder[0];
      assert first in d.outputOrder;
    }
  }

  lemma OutputIsLive(d: Desk, ws: Id)
    requires Housed(d) && OutputOf(d, ws).Some?
    ensures OutputOf(d, ws).value in d.outputs && ws in d.outputs[OutputOf(d, ws).value].assignments
  {
    assert ws in Homes(d.workspaces) && Homes(d.workspaces)[ws].output == d.workspaces[ws].output;
    assert WorkspaceHoused(d.outputs, ws, Homes(d.workspaces)[ws]);
  }

  lemma RehomedEffects(d: Desk, item: Item)
    requires Housed(d) && Live(d, item.id)
    ensures var e := Rehomed(d, item);
      && SameNames(d, e) && e.workspaces.Keys == d.workspaces.Keys && OutputOf(e, item.id) == TargetOutput(d, item)
      && forall ws :: ws != item.id ==> OutputOf(e, ws) == OutputOf(d, ws)
  {
    hide Housed, TargetOutput;
    TargetExists(d, item);
    if OutputOf(d, item.id).Some? {
      OutputIsLive(d, item.id);
    }
  }

  ghost function OpenOutputs(d: Desk): set<Id> {
    set o | o in d.outputs && d.outputs[o].visible.None?
  }

  lemma NoneOpen(d: Desk)
    requires Settled(d)
    ensures OpenOutputs(d) == {}
  {
    forall o ensures o !in OpenOutputs(d) {
    }
  }

  lemma RehomedKeeps(d: Desk, item: Item, spare: set<Id>)
    requires Unsettled(d, OpenOutputs(d), spare)
    ensures Unsettled(Rehomed(d, item), OpenOutputs(Rehomed(d, item)), spare)
  {
    if Live(d, item.id) && OutputOf(d, item.id) != TargetOutput(d, item) {
      var e := Unassign(d, item.id);
      UnassignKeeps(d, item.id, OpenOutputs(d), spare);
      UnassignOpens(d, item.id);
      if TargetOutput(d, item).Some? {
        var o := TargetOutput(d, item).value;
        AssignKeeps(e, o, item.id, OpenOutputs(e), spare);
        assert OpenOutputs(Assign(e, o, item.id)) == OpenOutputs(e);
      }
    }
  }

  lemma UnassignOpens(d: Desk, ws: Id)
    requires Housed(d)
    ensures OpenOutputs(d) + Opened(d, ws) == OpenOutputs(Unassign(d, ws))
  {
    forall o | o in d.outputs && d.outputs[o].visible == Some(ws)
      ensures OutputOf(d, ws) == Some(o)
    {
      assert OutputHoused(Homes(d.workspaces), o, d.outputs[o]);
      AssignedHere(d, o, ws);
    }
    if OutputOf(d, ws).Some? {
      OutputIsLive(d, ws);
    }
  }

  /** Workspaces declared in `policy` go where they were planned, the others stay. */
  lemma {:induction false} RehomeAllEffects(d: Desk, policy: seq<Item>, spare: set<Id>)
    requires Unsettled(d, OpenOutputs(d), spare) && NoDup(Ids(policy))
    requires forall i :: 0 <= i < |policy| ==> Live(d, policy[i].id)
    ensures var e := RehomeAll(d, policy);
      && Unsettled(e, OpenOutputs(e), spare) && SameNames(d, e) && e.workspaces.Keys == d.workspaces.Keys
      && forall ws :: ws in d.workspaces ==> OutputOf(e, ws) == Planned(d, policy, ws)
    decreases |policy|
  {
    if policy != [] {
      var item, rest := policy[0], policy[1..];
      var d1 := Rehomed(d, item);
      RehomedKeeps(d, item, spare);
      RehomedEffects(d, item);
      RestDeclaredOnce(policy);
      RehomeAllEffects(d1, rest, spare);
      forall ws | ws in d.workspaces
        ensures Planned(d1, rest, ws) == Planned(d, policy, ws)
      {
        PlannedStep(d, d1, policy, ws);
      }
    }
  }

  lemma RestDeclaredOnce(policy: seq<Item>)
    requires policy != [] && NoDup(Ids(policy))
    ensures NoDup(Ids(policy[1..])) && policy[0].id !in Ids(policy[1..])
  {
    var rest := policy[1..];
    assert forall i :: 0 <= i < |rest| ==> Ids(rest)[i] == Ids(policy)[i + 1];
    assert Ids(policy)[0] == policy[0].id;
  }

  lemma PlannedStep(d: Desk, d1: Desk, policy: seq<Item>, ws: Id)
    requires policy != [] && NoDup(Ids(policy)) && Live(d, policy[0].id) && ws in d.workspaces
    requires SameNames(d, d1) && OutputOf(d1, policy[0].id) == TargetOutput(d, policy[0])
    requires forall v :: v != policy[0].id ==> OutputOf(d1, v) == OutputOf(d, v)
    ensures Planned(d1, policy[1..], ws) == Planned(d, policy, ws)
  {
    RestDeclaredOnce(policy);
    var found := FindItem(policy[1..], ws);
    if found.Some? {
      FoundIsDeclared(policy[1..], ws);
      SameTarget(d, d1, found.value);
    }
  }

  // ----- metadata and settling

  lemma DescribedKeeps(d: Desk, item: Item, open: set<Id>, spare: set<Id>)
    requires Unsettled(d, open, spare)
    ensures var e := Described(d, item);
      && Unsettled(e, open, spare) && e.outputs == d.outputs && e.outputOrder == d.outputOrder
      && e.workspaces.Keys == d.workspaces.Keys && forall ws :: OutputOf(e, ws) == OutputOf(d, ws)
  {
    hide Sound;
    if Live(d, item.id) {
      var e := Described(d, item);
      SameDeskSound(d, e);
      var homes := Homes(d.workspaces);
      HomesUpdate(d.workspaces, item.id, e.workspaces[item.id]);
      var homes' := homes[item.id := Bare(e.workspaces[item.id])];
      assert homes'.Keys == homes.Keys;
      forall o | o in d.outputs ensures OutputHoused(homes', o, d.outputs[o]) {
        assert OutputHoused(homes, o, d.outputs[o]);
      }
      forall ws | ws in homes' ensures WorkspaceHoused(d.outputs, ws, homes'[ws]) {
        assert WorkspaceHoused(d.outputs, ws, homes[ws]);
      }
    }
  }

  lemma {:induction false} DescribeAllKeeps(d: Desk, policy: seq<Item>, open: set<Id>, spare: set<Id>)
    requires Unsettled(d, open, spare)
    ensures var e := DescribeAll(d, policy);
      && Unsettled(e, open, spare) && e.outputs == d.outputs && e.outputOrder == d.outputOrder
      && e.workspaces.Keys == d.workspaces.Keys && forall ws :: OutputOf(e, ws) == OutputOf(d, ws)
    decreases |policy|
  {
    if policy != [] {
      DescribedKeeps(d, policy[0], open, spare);
      DescribeAllKeeps(Described(d, policy[0]), policy[1..], open, spare);
    }
  }

  /** No output is left without a workspace of its own. */
  ghost predicate NoneEmpty(d: Desk) {
    forall o :: o in d.outputs ==> d.outputs[o].assignments != []
  }

  ghost predicate SamePlaces(d: Desk, e: Desk) {
    && e.workspaces.Keys == d.workspaces.Keys && e.outputs.Keys == d.outputs.Keys
    && forall ws :: OutputOf(e, ws) == OutputOf(d, ws)
  }

  lemma SettleOne(d: Desk, o: Id, open: set<Id>, spare: set<Id>)
    requires Unsettled(d, open, spare) && NoneEmpty(d) && o in open && d.outputs[o].visible.None?
    ensures var e := SwitchWorkspace(d, o, d.outputs[o].assignments[0], d.focusedOutput == Some(o));
      && Unsettled(e, open - {o}, spare) && NoneEmpty(e) && SamePlaces(d, e)
      && forall p :: p in d.outputs && p != o ==> e.outputs[p] == d.outputs[p]
  {
    var ws := d.outputs[o].assignments[0];
    var e := SwitchWorkspace(d, o, ws, d.focusedOutput == Some(o));
    SwitchSettles(d, o, ws, d.focusedOutput == Some(o), open, spare);
    assert Homes(e.workspaces).Keys == e.workspaces.Keys && Homes(d.workspaces).Keys == d.workspaces.Keys;
    forall v ensures OutputOf(e, v) == OutputOf(d, v) {
      HomeOf(d, e, v);
    }
  }

  lemma AlreadySettled(d: Desk, o: Id)
    requires Housed(d) && o in d.outputs && d.outputs[o].visible.Some?
    ensures ShowsOwn(d, o)
  {
    assert OutputHoused(Homes(d.workspaces), o, d.outputs[o]);
    AssignedHere(d, o, d.outputs[o].visible.value);
  }

  lemma {:induction false} SettleAllKeeps(d: Desk, list: seq<Id>, open: set<Id>, spare: set<Id>)
    requires Unsettled(d, open, spare) && NoneEmpty(d)
    requires forall o :: o in open ==> d.outputs[o].visible.None? && o in list
    ensures Unsettled(SettleAll(d, list), {}, spare) && SamePlaces(d, SettleAll(d, list))
    decreases |list|
  {
    hide SwitchWorkspace, Housed;
    if list == [] {
      forall o ensures o !in open {
      }
      assert open == {};
    } else {
      var o, rest := list[0], list[1..];
      assert list == [o] + rest;
      if o in open {
        SettleOne(d, o, open, spare);
        SettleAllKeeps(SwitchWorkspace(d, o, d.outputs[o].assignments[0], d.focusedOutput == Some(o)), rest, open - {o},
            spare);
      } else {
        if o in d.outputs {
          AlreadySettled(d, o);
        }
        SettleAllKeeps(d, rest, open, spare);
      }
    }
  }

  lemma PlannedOutputsFilled(d: Desk, e: Desk, current: seq<Id>, policy: seq<Item>)
    requires Acceptable(d, current, policy) && Housed(d) && Housed(e)
    requires SameNames(d, e) && forall ws :: ws in d.workspaces ==> OutputOf(e, ws) == Planned(d, policy, ws)
    ensures NoneEmpty(e)
  {
    forall o | o in e.outputs ensures e.outputs[o].assignments != [] {
      var ws :| ws in d.workspaceOrder && Planned(d, policy, ws) == Some(o);
      assert Homes(d.workspaces).Keys == d.workspaces.Keys;
      OutputIsLive(e, ws);
    }
  }

  /** Main result.  When validation accepts a policy, applying it puts every workspace on the output
      validation computed for it, with all invariants intact: lists and back-pointers agree, no output
      is empty, every output shows one of its own workspaces, and pinned groups are shown. */
  lemma AcceptedPolicyApplies(d: Desk, current: seq<Id>, policy: seq<Item>)
    requires Inv(d, {}) && NoDup(current) && Acceptable(d, current, policy)
    ensures var e := ApplyPolicy(d, policy);
      && Inv(e, {}) && e.workspaces.Keys == d.workspaces.Keys && e.outputs.Keys == d.outputs.Keys
      && forall ws :: ws in d.workspaces ==> OutputOf(e, ws) == Planned(d, policy, ws)
  {
    DeclaredOnce(current, policy);
    InvUnsettled(d, {}, {});
    NoneOpen(d);
    RehomeAllEffects(d, policy, {});
    var a := RehomeAll(d, policy);
    DescribeAllKeeps(a, policy, OpenOutputs(a), {});
    PlannedOutputsFilled(d, a, current, policy);
    var b := DescribeAll(a, policy);
    SettleAllKeeps(b, d.outputOrder, OpenOutputs(a), {});
    UnsettledInv(ApplyPolicy(d, policy), {});
  }

  /** The condition is needed: when validation would report an output as empty, applying leaves that
      output without a workspace. */
  lemma EmptyOutputStaysEmpty(d: Desk, policy: seq<Item>, o: Id)
    requires Inv(d, {}) && NoDup(Ids(policy)) && o in d.outputs
    requires forall i :: 0 <= i < |policy| ==> Live(d, policy[i].id)
    requires forall ws :: ws in d.workspaces ==> Planned(d, policy, ws) != Some(o)
    ensures RehomeAll(d, policy).outputs.Keys == d.outputs.Keys && RehomeAll(d, policy).outputs[o].assignments == []
  {
    InvUnsettled(d, {}, {});
    NoneOpen(d);
    RehomeAllEffects(d, policy, {});
    EmptyIfUnplanned(d, RehomeAll(d, policy), policy, o);
  }

  lemma EmptyIfUnplanned(d: Desk, e: Desk, policy: seq<Item>, o: Id)
    requires Housed(e) && SameNames(d, e) && o in d.outputs && e.workspaces.Keys == d.workspaces.Keys
    requires forall ws :: ws in d.workspaces ==> OutputOf(e, ws) == Planned(d, policy, ws) != Some(o)
    ensures e.outputs[o].assignments == []
  {
    if e.outputs[o].assignments != [] {
      AssignedHere(e, o, e.outputs[o].assignments[0]);
    }
  }
}
