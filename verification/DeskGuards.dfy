/** Exactly when the operations on several windows and on places act, between operations: what the
remaining guards come to when lists, members and seats agree, and that a refusal changes nothing. */
module DeskGuards {
  import opened Seqs
  import opened LayoutTree
  import opened DeskState
  import opened DeskMoves
  import opened DeskWindows
  import opened DeskOutputs
  import opened DeskSwitch
  import opened DeskOps
  import opened DeskGroups
  import opened DeskZones
  import opened DeskPlacement
  import opened DeskAssignments
  import opened DeskMembers

  /** Main result.  Two different groups merge exactly when they are on the same workspace. */
  lemma MergeExactly(d: Desk, source: Id, target: Id)
    requires Inv(d, {}) && source in d.groups && target in d.groups
    ensures var e := MergeGroups(d, source, target);
      if source != target && d.groups[source].workspace == d.groups[target].workspace then
        ListsMoved(d, e, source, [], target, d.groups[source].windows)
      else e == d
  {
    hide Sound, ListsMoved, MoveWindows;
    SoundGroup(d, source);
    OneListKept(d, source, {});
    if CanMerge(d, source, target) {
      MergeMeaning(d, source, target);
    }
  }

  /** Two windows delimit a range that may move to `target`: they are in one other group of its workspace. */
  ghost predicate Delimit(d: Desk, first: Id, last: Id, target: Id)
    requires target in d.groups
  {
    && first in d.windows && last in d.windows && d.windows[first].group.Some?
    && d.windows[last].group == d.windows[first].group && d.windows[first].group != Some(target)
    && d.windows[first].group.value in d.groups
    && d.groups[d.windows[first].group.value].workspace == d.groups[target].workspace
  }

  /** Main result.  A range moves exactly when its ends delimit one and are in order. */
  lemma MoveRangeExactly(d: Desk, first: Id, last: Id, target: Id)
    requires Inv(d, {}) && target in d.groups
    ensures !Delimit(d, first, last, target) ==> MoveRange(d, first, last, target) == d
    ensures Delimit(d, first, last, target) ==>
      var source := d.windows[first].group.value;
      var list := d.groups[source].windows;
      && first in list && last in list
      && forall i, j :: 0 <= i < |list| && 0 <= j < |list| && list[i] == first && list[j] == last ==>
        if i <= j then
          ListsMoved(d, MoveRange(d, first, last, target), source, list[..i] + list[j + 1..], target, list[i..j + 1])
        else MoveRange(d, first, last, target) == d
  {
    hide Sound, ListsMoved, RangeOf, MoveWindows;
    if Delimit(d, first, last, target) {
      var source := d.windows[first].group.value;
      var list := d.groups[source].windows;
      SoundWindow(d, first);
      SoundWindow(d, last);
      forall i, j | 0 <= i < |list| && 0 <= j < |list| && list[i] == first && list[j] == last
        ensures
          if i <= j then
            ListsMoved(d, MoveRange(d, first, last, target), source, list[..i] + list[j + 1..], target, list[i..j + 1])
          else MoveRange(d, first, last, target) == d
      {
        MoveRangeMeaning(d, source, i, j, target);
      }
    }
  }

  /** Main result.  A window moves beside another one exactly when both are mapped members of groups on one
      workspace; `a` and `b` are what surrounds the reference, the window aside. */
  lemma MoveRelativeExactly(d: Desk, w: Id, reference: Id, side: Side, a: seq<Id>, b: seq<Id>)
    requires Inv(d, {}) && w in d.windows && reference in d.windows && w != reference
    requires d.windows[w].group.Some? && d.windows[reference].group.Some?
    ensures d.windows[w].group.value in d.groups && d.windows[reference].group.value in d.groups
    ensures var source, target := d.windows[w].group.value, d.windows[reference].group.value;
      var e := MoveRelative(d, w, reference, side);
      if && d.windows[w].mapped && d.windows[reference].mapped
         && d.groups[source].workspace == d.groups[target].workspace
      then
        Around(d.groups[target].windows, w, reference, a, b) ==>
          MovedBeside(d, e, source, target, w, a + (if side.Before? then [w, reference] else [reference, w]) + b)
      else e == d
  {
    hide Sound, MovedBeside, Reposition, MoveWindow;
    SoundWindow(d, w);
    SoundWindow(d, reference);
    var target := d.windows[reference].group.value;
    if CanPlace(d, w, reference) && Around(d.groups[target].windows, w, reference, a, b) {
      MoveRelativeMeaning(d, w, reference, side, a, b);
    }
  }

  /** Main result.  A group is split at its `i`-th window exactly when that is mapped and not the first, and
      the group is tiled on a workspace that is on an output. */
  lemma SplitAtExactly(d: Desk, source: Id, i: nat, o: Orientation, r: real)
    requires Inv(d, {}) && source in d.groups && i < |d.groups[source].windows|
    ensures d.groups[source].workspace in d.workspaces && d.groups[source].windows[i] in d.windows
    ensures var w := d.groups[source].windows[i];
      var e := SplitAt(d, w, o, r);
      if && d.windows[w].mapped && d.groups[source].placement.Tiled? && i > 0
         && OutputOf(d, d.groups[source].workspace).Some?
      then SplitOff(d, e, source, d.nextGroup, i, LayoutSplit(d, source, o, r))
      else e == d
  {
    hide Sound, SplitOff, FocusWindowId, MoveRange;
    var w := d.groups[source].windows[i];
    SoundGroup(d, source);
    if CanSplitAt(d, w) {
      if FocusableById(d, w) {
        SplitAtMeaning(d, source, i, o, r);
      } else {
        NotFocused(d, w);
      }
    }
  }

  /** Main result.  A window may be dropped beside a group exactly when it is a mapped member of a group on
      the same workspace and is not alone in the very group it is dropped beside; otherwise nothing happens. */
  lemma DropExactly(d: Desk, w: Id, target: Id, dir: Direction, r: real)
    requires Inv(d, {}) && w in d.windows && target in d.groups && d.windows[w].group.Some?
    ensures d.windows[w].group.value in d.groups
    ensures var source, e := d.windows[w].group.value, MoveToLayoutZone(d, w, target, dir, r);
      if && d.windows[w].mapped && d.groups[source].workspace == d.groups[target].workspace
         && d.groups[target].windows != [w]
      then
        && (d.groups[target].placement.Tiled? ==>
              var c := ZoneReady(d, target, dir, r);
              && source in c.groups && d.nextGroup in c.groups
              && ListsMoved(c, e, source, Without(d.groups[source].windows, w), d.nextGroup, [w]))
        && (d.groups[target].placement.Floating? ==>
              Lists(e.groups) == Lists(d.groups) && Stances(e.groups) == Stances(d.groups))
      else e == d
  {
    hide Sound, ListsMoved;
    SoundWindow(d, w);
    SoundGroup(d, target);
    AloneOrTwo(d.groups[target].windows, w);
    if ZoneAllowed(d, w, target) {
      if d.groups[target].hasTile {
        AcceptedDrop(d, w, target, dir, r);
      } else {
        RefusedDrop(d, w, target, dir, r);
      }
    }
  }

  lemma AloneOrTwo(list: seq<Id>, w: Id)
    ensures list == [w] ==> |list| == 1 && w in list
    ensures |list| < 2 && w in list ==> list == [w]
  {
    assert [w][0] == w;
  }

  /** Main result.  Activating a workspace shows it on its output, which gets the focus, or does nothing when
      it is on none. */
  lemma ActivateExactly(d: Desk, ws: Id)
    requires Inv(d, {})
    ensures match OutputOf(d, ws)
      case Some(o) => o in d.outputs && Switched(d, Activate(d, ws), o, ws, d.outputs[o].assignments)
      case None => Activate(d, ws) == d
  {
    hide SwitchWorkspace, Sound;
    if OutputOf(d, ws).Some? {
      OutputShows(d, ws);
      SwitchLands(d, OutputOf(d, ws).value, ws);
    }
  }

  /** Main result.  Focusing a member by id gives it and its workspace the focus exactly when it is mapped and
      the workspace is on an output. */
  lemma FocusByIdExactly(d: Desk, w: Id)
    requires Inv(d, {}) && w in d.windows && d.windows[w].group.Some?
    ensures d.windows[w].group.value in d.groups
    ensures var e, ws := FocusWindowId(d, w), d.groups[d.windows[w].group.value].workspace;
      if d.windows[w].mapped && OutputOf(d, ws).Some? then HasFocus(e, w) && FocusedWorkspace(e) == Some(ws) else e == d
  {
    hide Sound, FocusedWorkspace;
    SoundWindow(d, w);
    if FocusableById(d, w) {
      hide FocusWindowId;
      FocusWindowIdEffects(d, w);
      FocusShowsWorkspace(d, w);
    }
  }
}
