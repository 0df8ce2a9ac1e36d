/** The operations on whole groups: layout edits, merging and splitting, pinning, and changing what a
window is part of. */
module DeskGroups {
  import opened Seqs
  import opened LayoutTree
  import opened DeskState
  import opened DeskSteps
  import opened DeskMoves
  import opened DeskWindows
  import opened DeskOutputs

  // ----- edits of the layout alone

  ghost function WithLayout(d: Desk, ws: Id, l: Tiling, splits: Id): Desk
    requires ws in d.workspaces
  {
    d.(workspaces := d.workspaces[ws := d.workspaces[ws].(layout := l)], nextSplit := splits)
  }

  lemma WithLayoutKeeps(d: Desk, ws: Id, l: Tiling, splits: Id, spare: set<Id>)
    requires Inv(d, spare) && ws in d.workspaces && splits >= d.nextSplit && LayoutSound(l, splits)
    requires forall g :: g in l.tiles <==> g in d.workspaces[ws].layout.tiles
    ensures Inv(WithLayout(d, ws, l, splits), spare)
  {
    var e := WithLayout(d, ws, l, splits);
    WithLayoutSound(d, ws, l, splits);
    SameHomes(d.workspaces, ws, e.workspaces[ws]);
  }

  lemma WithLayoutSound(d: Desk, ws: Id, l: Tiling, splits: Id)
    requires Sound(d) && ws in d.workspaces && splits >= d.nextSplit && LayoutSound(l, splits)
    requires forall g :: g in l.tiles <==> g in d.workspaces[ws].layout.tiles
    ensures Sound(WithLayout(d, ws, l, splits))
  {
    var e := WithLayout(d, ws, l, splits);
    WorkspaceUpdate(d.workspaces, ws, e.workspaces[ws]);
    forall g | g in d.groups
      ensures GroupSound(Roles(d.windows), Registries(e.workspaces), d.nextGroup, g, d.groups[g])
    {
      assert GroupSound(Roles(d.windows), Registries(d.workspaces), d.nextGroup, g, d.groups[g]);
    }
    forall v | v in e.workspaces
      ensures WorkspaceSound(Seats(d.groups), d.nextWorkspace, splits, v, e.workspaces[v])
    {
      assert WorkspaceSound(Seats(d.groups), d.nextWorkspace, d.nextSplit, v, d.workspaces[v]);
      LayoutSoundMore(d.workspaces[v].layout, d.nextSplit, splits);
    }
  }

  ghost predicate CanRelocate(d: Desk, g: Id, target: Id) {
    && g in d.groups && target in d.groups && g != target && d.groups[g].workspace == d.groups[target].workspace
    && d.groups[g].hasTile && d.groups[target].hasTile
    && d.groups[g].workspace in d.workspaces && d.workspaces[d.groups[g].workspace].layout.tree.Some?
  }

  /** A group takes the place beside another one of its workspace. */
  ghost function RelocateGroup(d: Desk, g: Id, target: Id, dir: Direction, r: real): Desk {
    if !CanRelocate(d, g, target) then d
    else
      var ws := d.groups[g].workspace;
      var l := d.workspaces[ws].layout;
      WithLayout(d, ws, l.(tree := Some(Relocate(l.tree.value, g, target, dir, d.nextSplit, r))), d.nextSplit + 1)
  }

  lemma RelocatedSound(l: Tiling, g: Id, target: Id, dir: Direction, k: Id, r: real)
    requires LayoutSound(l, k) && l.tree.Some? && g in l.tiles && target in l.tiles && g != target
    ensures LayoutSound(l.(tree := Some(Relocate(l.tree.value, g, target, dir, k, r))), k + 1)
  {
    var t := l.tree.value;
    RelocateMeaning(t, g, target, dir, k, r, k);
  }

  lemma RelocateGroupKeeps(d: Desk, g: Id, target: Id, dir: Direction, r: real, spare: set<Id>)
    requires Inv(d, spare)
    ensures Inv(RelocateGroup(d, g, target, dir, r), spare)
  {
    if CanRelocate(d, g, target) {
      var ws := d.groups[g].workspace;
      var l := d.workspaces[ws].layout;
      SoundGroup(d, g);
      SoundGroup(d, target);
      SoundWorkspace(d, ws);
      RelocatedSound(l, g, target, dir, d.nextSplit, r);
      WithLayoutKeeps(d, ws, l.(tree := Some(Relocate(l.tree.value, g, target, dir, d.nextSplit, r))), d.nextSplit + 1,
          spare);
    }
  }

  /** Two tiled groups of a workspace trade their tiles. */
  ghost function SwapGroups(d: Desk, a: Id, b: Id): Desk {
    if !CanRelocate(d, a, b) then d
    else
      var ws := d.groups[a].workspace;
      var l := d.workspaces[ws].layout;
      WithLayout(d, ws, Tiling(Some(Exchange(l.tree.value, a, b)), Renamed(l.tiles, a, b)), d.nextSplit)
  }

  lemma RenamedMember(list: seq<Id>, a: Id, b: Id, x: Id)
    ensures x in Renamed(list, a, b) <==> SwapName(x, a, b) in list
  {
    var r := Renamed(list, a, b);
    if x in r {
      var i :| 0 <= i < |r| && r[i] == x;
      assert SwapName(x, a, b) == list[i];
    }
    if SwapName(x, a, b) in list {
      var i :| 0 <= i < |list| && list[i] == SwapName(x, a, b);
      assert r[i] == x;
    }
  }

  lemma SwappedSound(l: Tiling, a: Id, b: Id, splits: Id)
    requires LayoutSound(l, splits) && l.tree.Some? && a in l.tiles && b in l.tiles && a != b
    ensures LayoutSound(Tiling(Some(Exchange(l.tree.value, a, b)), Renamed(l.tiles, a, b)), splits)
    ensures forall g :: g in Renamed(l.tiles, a, b) <==> g in l.tiles
  {
    var t, r := l.tree.value, Renamed(l.tiles, a, b);
    ExchangeMeaning(t, a, b, 0);
    forall g: Id ensures (g in LeafSet<Id, Id>(Exchange(t, a, b)) <==> g in r) && (g in r <==> g in l.tiles) {
      ExchangeRenames(t, a, b, g);
      RenamedMember(l.tiles, a, b, g);
    }
  }

  lemma SwapGroupsKeeps(d: Desk, a: Id, b: Id, spare: set<Id>)
    requires Inv(d, spare)
    ensures Inv(SwapGroups(d, a, b), spare)
  {
    if CanRelocate(d, a, b) {
      var ws := d.groups[a].workspace;
      var l := d.workspaces[ws].layout;
      SoundGroup(d, a);
      SoundGroup(d, b);
      SoundWorkspace(d, ws);
      SwappedSound(l, a, b, d.nextSplit);
      WithLayoutKeeps(d, ws, Tiling(Some(Exchange(l.tree.value, a, b)), Renamed(l.tiles, a, b)), d.nextSplit, spare);
    }
  }

  /** A split of a workspace gets another ratio or orientation. */
  ghost function ReframeSplit(d: Desk, ws: Id, k: Id, f: Frame): Desk {
    if ws !in d.workspaces || d.workspaces[ws].layout.tree.None? then d
    else
      var l := d.workspaces[ws].layout;
      WithLayout(d, ws, l.(tree := Some(Reframe(l.tree.value, k, f))), d.nextSplit)
  }

  lemma ReframeSplitKeeps(d: Desk, ws: Id, k: Id, f: Frame, spare: set<Id>)
    requires Inv(d, spare)
    ensures Inv(ReframeSplit(d, ws, k, f), spare)
  {
    if ws in d.workspaces && d.workspaces[ws].layout.tree.Some? {
      var l := d.workspaces[ws].layout;
      SoundWorkspace(d, ws);
      ReframeMeaning(l.tree.value, k, f, 0);
      WithLayoutKeeps(d, ws, l.(tree := Some(Reframe(l.tree.value, k, f))), d.nextSplit, spare);
    }
  }

  // ----- a window dropped beside a group

  ghost predicate ZoneAllowed(d: Desk, w: Id, target: Id) {
    && w in d.windows && d.windows[w].mapped && d.windows[w].group.Some? && d.windows[w].group.value in d.groups
    && target in d.groups && d.groups[d.windows[w].group.value].workspace == d.groups[target].workspace
    && !(d.windows[w].group == Some(target) && d.groups[target].windowCount < 2)
  }

  /** The group created for the window is placed beside `target` and receives the window.  A floating
      target has no place beside it, and the created group is destroyed again. */
  ghost function Zoned(e: Desk, created: Id, w: Id, target: Id, dir: Direction, r: real): Desk {
    if CanRelocate(e, created, target) then MoveWindow(RelocateGroup(e, created, target, dir, r), w, created)
    else DestroyGroup(e, created)
  }

  ghost function MoveToLayoutZone(d: Desk, w: Id, target: Id, dir: Direction, r: real): Desk {
    if !ZoneAllowed(d, w, target) then d
    else Zoned(CreateGroup(d, d.groups[target].workspace, dir.Axis(), r), d.nextGroup, w, target, dir, r)
  }

  lemma EmptySpare(g: Id)
    ensures {} + {g} - {g} == {}
  {
  }

  lemma CreatedGroup(d: Desk, ws: Id, o: Orientation, r: real)
    requires Inv(d, {}) && ws in d.workspaces
    ensures var e, g := CreateGroup(d, ws, o, r), d.nextGroup;
      && Inv(e, {} + {g}) && g !in d.groups && g in e.groups && e.groups[g] == Group(ws, Tiled, [], 0, None, true, None)
      && e.windows == d.windows && (forall h :: h in d.groups ==> h in e.groups && e.groups[h] == d.groups[h])
      && e.workspaces.Keys == d.workspaces.Keys && e.workspaces[ws].layout.tree.Some?
  {
    CreateKeeps(d, ws, o, r, {});
    FreshGroup(d, ws);
  }

  lemma ZonedKeeps(e: Desk, w: Id, created: Id, target: Id, dir: Direction, r: real)
    requires Inv(e, {} + {created}) && created in e.groups && e.groups[created].windows == []
    requires w in e.windows && e.windows[w].group.Some? && e.windows[w].group != Some(created)
    ensures Inv(Zoned(e, created, w, target, dir, r), {})
  {
    EmptySpare(created);
    if CanRelocate(e, created, target) {
      SoundWindow(e, w);
      RelocateGroupKeeps(e, created, target, dir, r, {} + {created});
      MoveWindowKeeps(RelocateGroup(e, created, target, dir, r), w, created, {} + {created});
    } else {
      DestroyKeeps(e, created, {} + {created});
    }
  }

  lemma MoveToLayoutZoneKeeps(d: Desk, w: Id, target: Id, dir: Direction, r: real)
    requires Inv(d, {})
    ensures Inv(MoveToLayoutZone(d, w, target, dir, r), {})
  {
    if ZoneAllowed(d, w, target) {
      var ws := d.groups[target].workspace;
      SoundGroup(d, target);
      CreatedGroup(d, ws, dir.Axis(), r);
      ZonedKeeps(CreateGroup(d, ws, dir.Axis(), r), w, d.nextGroup, target, dir, r);
    }
  }

  // ----- several windows

  ghost predicate CanMerge(d: Desk, source: Id, target: Id) {
    && source in d.groups && target in d.groups && source != target
    && d.groups[source].workspace == d.groups[target].workspace && d.groups[source].windowCount != 0
  }

  ghost function MergeGroups(d: Desk, source: Id, target: Id): Desk {
    if CanMerge(d, source, target) then MoveWindows(d, d.groups[source].windows, target) else d
  }

  lemma {:induction false} WithoutAllOfItself(s: seq<Id>)
    requires NoDup(s)
    ensures WithoutAll(s, s) == []
  {
    var r := WithoutAll(s, s);
    if r != [] {
      WithoutAllMember(s, s, r[0]);
      HeadIsMember(r);
    }
  }

  /** Moving some members, of which `rest` is what remains. */
  lemma MoveMembers(d: Desk, list: seq<Id>, source: Id, rest: seq<Id>, target: Id)
    requires Inv(d, {}) && source in d.groups && target in d.groups && source != target
    requires NoDup(list) && list != [] && forall w :: w in list ==> w in d.groups[source].windows
    requires WithoutAll(d.groups[source].windows, list) == rest
    ensures Inv(MoveWindows(d, list, target), {})
    ensures ListsMoved(d, MoveWindows(d, list, target), source, rest, target, list)
  {
    MoveWindowsLists(d, list, source, target);
    MoveWindowsKeeps(d, list, source, target, {});
    assert {} - {target} == {};
  }

  /** Merging appends the source's windows to the target in their order, destroys the source, and leaves
      every other group as it was. */
  lemma MergeMeaning(d: Desk, source: Id, target: Id)
    requires Inv(d, {}) && CanMerge(d, source, target)
    ensures Inv(MergeGroups(d, source, target), {})
    ensures ListsMoved(d, MergeGroups(d, source, target), source, [], target, d.groups[source].windows)
    ensures Lists(MergeGroups(d, source, target).groups)
      == Lists(d.groups)[target := d.groups[target].windows + d.groups[source].windows] - {source}
  {
    SoundGroup(d, source);
    WithoutAllOfItself(d.groups[source].windows);
    MoveMembers(d, d.groups[source].windows, source, [], target);
    DropOverwritten(Lists(d.groups), source, target, d.groups[target].windows + d.groups[source].windows);
  }

  lemma DropOverwritten(lists: map<Id, seq<Id>>, source: Id, target: Id, list: seq<Id>)
    requires source != target
    ensures lists[source := []][target := list] - {source} == lists[target := list] - {source}
  {
  }

  /** The windows from `first` to `last`, or nothing when `last` does not come after `first`. */
  ghost function RangeOf(list: seq<Id>, first: Id, last: Id): seq<Id>
    decreases |list|
  {
    if list == [] then []
    else if list[0] == first then UpTo(list, last)
    else RangeOf(list[1..], first, last)
  }

  ghost function UpTo(list: seq<Id>, last: Id): seq<Id>
    decreases |list|
  {
    if list == [] then []
    else if list[0] == last then [last]
    else
      var rest := UpTo(list[1..], last);
      if rest == [] then [] else [list[0]] + rest
  }

  ghost predicate CanMoveRange(d: Desk, first: Id, last: Id, target: Id) {
    && first in d.windows && last in d.windows && target in d.groups && d.windows[first].group.Some?
    && d.windows[first].group == d.windows[last].group && d.windows[first].group != Some(target)
    && d.windows[first].group.value in d.groups
    && d.groups[d.windows[first].group.value].workspace == d.groups[target].workspace
    && RangeOf(d.groups[d.windows[first].group.value].windows, first, last) != []
  }

  ghost function MoveRange(d: Desk, first: Id, last: Id, target: Id): Desk {
    if !CanMoveRange(d, first, last, target) then d
    else MoveWindows(d, RangeOf(d.groups[d.windows[first].group.value].windows, first, last), target)
  }

  lemma {:induction false} UpToIsPrefix(list: seq<Id>, last: Id)
    requires NoDup(list)
    ensures last in list ==>
      exists j :: 0 <= j < |list| && list[j] == last && UpTo(list, last) == list[..j + 1]
    ensures last !in list ==> UpTo(list, last) == []
  {
    if list != [] {
      var rest := list[1..];
      assert list == [list[0]] + rest;
      UpToIsPrefix(rest, last);
      if list[0] == last {
        assert list[0] == last && UpTo(list, last) == list[..0 + 1];
      } else if last in rest {
        var j :| 0 <= j < |rest| && rest[j] == last && UpTo(rest, last) == rest[..j + 1];
        assert list[j + 1] == last && UpTo(list, last) == list[..j + 1 + 1];
      }
    }
  }

  /** A range is the contiguous slice from its first to its last window, and empty exactly when the last
      window precedes the first. */
  lemma {:induction false} RangeIsSlice(list: seq<Id>, i: nat, j: nat)
    requires NoDup(list) && i < |list| && j < |list|
    ensures RangeOf(list, list[i], list[j]) == if i <= j then list[i..j + 1] else []
  {
    if i == 0 {
      UpToIsPrefix(list, list[j]);
      var k :| 0 <= k < |list| && list[k] == list[j] && UpTo(list, list[j]) == list[..k + 1];
      assert k == j;
    } else {
      var rest := list[1..];
      assert list == [list[0]] + rest;
      if j > 0 {
        RangeIsSlice(rest, i - 1, j - 1);
        assert i <= j ==> rest[i - 1..j] == list[i..j + 1];
      } else {
        RangeWithoutLast(rest, list[i], list[0]);
      }
    }
  }

  lemma {:induction false} RangeWithoutLast(list: seq<Id>, first: Id, last: Id)
    requires NoDup(list) && last !in list
    ensures RangeOf(list, first, last) == []
  {
    if list != [] && list[0] == first {
      UpToIsPrefix(list, last);
    } else if list != [] {
      RangeWithoutLast(list[1..], first, last);
    }
  }

  lemma {:induction false} WithoutAllSlice(a: seq<Id>, b: seq<Id>, c: seq<Id>)
    requires NoDup(a + b + c)
    ensures WithoutAll(a + b + c, b) == a + c
    decreases |b|
  {
    if b == [] {
      assert a + b + c == a + c;
    } else {
      var x, rest := b[0], b[1..];
      assert b == [x] + rest && a + b + c == (a + [x]) + (rest + c);
      TakenOut(a, x, rest + c);
      assert Without(a + b + c, x) == a + rest + c;
      assert NoDup(a + rest + c) by {
        WithoutNoDup(a + b + c, x);
      }
      WithoutAllSlice(a, rest, c);
    }
  }

  lemma TakenOut(a: seq<Id>, x: Id, c: seq<Id>)
    requires NoDup((a + [x]) + c)
    ensures Without((a + [x]) + c, x) == a + c
  {
    var s := (a + [x]) + c;
    forall i | 0 <= i < |a| ensures a[i] != x {
      assert s[i] == a[i] && s[|a|] == x;
    }
    forall i | 0 <= i < |c| ensures c[i] != x {
      assert s[|a| + 1 + i] == c[i] && s[|a|] == x;
    }
    WithoutConcat(a + [x], c, x);
    WithoutConcat(a, [x], x);
    WithoutElsewhere(a, x);
    WithoutElsewhere(c, x);
  }

  lemma RangeAllowed(d: Desk, source: Id, i: nat, j: nat, target: Id)
    requires Sound(d) && source in d.groups && target in d.groups && source != target
    requires d.groups[source].workspace == d.groups[target].workspace
    requires i < |d.groups[source].windows| && j < |d.groups[source].windows|
    ensures var list := d.groups[source].windows;
      && (CanMoveRange(d, list[i], list[j], target) <==> i <= j)
      && MoveRange(d, list[i], list[j], target) == if i <= j then MoveWindows(d, list[i..j + 1], target) else d
  {
    SoundGroup(d, source);
    RangeIsSlice(d.groups[source].windows, i, j);
  }

  /** Moving a range appends exactly the contiguous slice to the target and leaves the rest of the source
      in order; a range whose last window precedes its first changes nothing. */
  lemma MoveRangeMeaning(d: Desk, source: Id, i: nat, j: nat, target: Id)
    requires Inv(d, {}) && source in d.groups && target in d.groups && source != target
    requires d.groups[source].workspace == d.groups[target].workspace
    requires i < |d.groups[source].windows| && j < |d.groups[source].windows|
    ensures var list := d.groups[source].windows; var e := MoveRange(d, list[i], list[j], target);
      if i <= j then Inv(e, {}) && ListsMoved(d, e, source, list[..i] + list[j + 1..], target, list[i..j + 1])
      else e == d
  {
    RangeAllowed(d, source, i, j, target);
    if i <= j {
      MoveSlice(d, source, i, j, target);
    }
  }

  lemma MoveSlice(d: Desk, source: Id, i: nat, j: nat, target: Id)
    requires Inv(d, {}) && source in d.groups && target in d.groups && source != target
    requires i <= j < |d.groups[source].windows|
    ensures var list := d.groups[source].windows; var e := MoveWindows(d, list[i..j + 1], target);
      Inv(e, {}) && ListsMoved(d, e, source, list[..i] + list[j + 1..], target, list[i..j + 1])
  {
    var list := d.groups[source].windows;
    SoundGroup(d, source);
    SliceOf(list, i, j);
    MoveMembers(d, list[i..j + 1], source, list[..i] + list[j + 1..], target);
  }

  lemma SliceOf(list: seq<Id>, i: nat, j: nat)
    requires NoDup(list) && i <= j < |list|
    ensures var slice := list[i..j + 1];
      && NoDup(slice) && slice != [] && (forall w :: w in slice ==> w in list)
      && WithoutAll(list, slice) == list[..i] + list[j + 1..]
  {
    assert list == list[..i] + list[i..j + 1] + list[j + 1..];
    WithoutAllSlice(list[..i], list[i..j + 1], list[j + 1..]);
  }
}
