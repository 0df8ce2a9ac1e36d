/** Runs of the layout operations on one workspace: whatever is done in whatever order, nodes, tiles,
registry, groups and the active group stay in agreement. */
module LayoutRuns {
  import opened Seqs
  import opened LayoutTree
  import opened Geometry
  import opened Desktop
  import opened LayoutShape
  import opened LayoutSpine
  import opened Layout
  import opened LayoutResize
  import opened LayoutHandle
  import opened PointerResize
  import opened LayoutGroups

  /** The layout invariant, and what it needs to know of the groups: `groups` are all groups of the
      workspace, the tiled ones are registered, no others are, and the active group is one of them. */
  ghost predicate Tended(ws: Workspace, groups: set<Group>)
    reads ws, ws.tree.records.Keys, groups, (set k | k in ws.tiles), (set k | k in ws.tiles :: k.group)
    reads (set g | g in groups && g.tile != null :: g.tile)
  {
    && LayoutOk(ws)
    && (forall g :: g in groups ==> g.workspace == ws && Enlisted(g))
    && (forall k :: k in ws.tiles ==> k.group in groups)
    && (ws.activeGroup == null || ws.activeGroup in groups)
  }

  /** With the groups in order the active one is seated, so a non-empty tree has its anchor. */
  lemma TendedSeats(ws: Workspace, groups: set<Group>)
    requires Tended(ws, groups)
    ensures ActiveSeated(ws)
    ensures ws.tree.shape.Some? ==> AnchorOf(ws) != null && RefOf(AnchorOf(ws)) in LeafSet(ws.tree.shape.value)
  {
    if ws.tree.shape.Some? {
      AnchorExists(ws);
    }
  }

  lemma SeatedTile(ws: Workspace, k: Tile)
    requires LayoutOk(ws) && k in ws.tiles
    ensures k.group.tile == k && k.group.workspace == ws
  {
    assert Seated(RefOf(k), ws);
  }

  // ----- the workspace as a layout of groups

  ghost function GroupsOf(tiles: seq<Tile>): (groups: seq<Group>)
    reads (set k | k in tiles)`group
    ensures |groups| == |tiles| && forall i :: 0 <= i < |tiles| ==> groups[i] == tiles[i].group
  {
    if tiles == [] then [] else [tiles[0].group] + GroupsOf(tiles[1..])
  }

  ghost function ByGroups(t: Option<Shape>): Option<GroupTree> {
    if t.Some? then Some(ByGroup(t.value)) else None
  }

  /** The tree and the registry of the workspace, by groups. */
  ghost function View(ws: Workspace): TreeLayout<LayoutNode, Group>
    reads ws`tree, ws`tiles, (set k | k in ws.tiles)`group
  {
    Tiling(ByGroups(ws.tree.shape), GroupsOf(ws.tiles))
  }

  ghost function ActiveOf(ws: Workspace): Option<Group>
    reads ws`activeGroup
  {
    if ws.activeGroup == null then None else Some(ws.activeGroup)
  }

  /** The anchor's group is the one that layout and active group determine. */
  lemma AnchorAgrees(ws: Workspace, groups: set<Group>)
    requires Tended(ws, groups)
    ensures AnchorIn(View(ws), ActiveOf(ws)) == if AnchorOf(ws) == null then None else Some(AnchorOf(ws).group)
  {
    var g := ws.activeGroup;
    if g != null {
      if g.tile != null {
        var i :| 0 <= i < |ws.tiles| && ws.tiles[i] == g.tile;
        assert View(ws).tiles[i] == g;
      } else if g in View(ws).tiles {
        var i :| 0 <= i < |ws.tiles| && ws.tiles[i].group == g;
        SeatedTile(ws, ws.tiles[i]);
      }
    }
  }

  lemma TreeByGroup(ws: Workspace)
    requires LayoutOk(ws) && ws.tree.shape.Some?
    ensures var t := ws.tree.shape.value;
      && Distinct(t) && GroupsApart(t) && SplitSet(t) <= ws.tree.records.Keys
      && forall g: Group :: g in LeafSet<LayoutNode, Group>(ByGroup(t)) ==> g.tile != null
  {
    var t := ws.tree.shape.value;
    LayoutGroupsApart(ws);
    forall k | k in SplitSet(t) ensures k in ws.tree.records {
      SplitIsNode(t, k);
    }
    forall g: Group | g in LeafSet<LayoutNode, Group>(ByGroup(t)) ensures g.tile != null {
      GroupFromTree(t, g);
      var l :| l in LeafSet(t) && l.group == g;
      assert Seated(l, ws);
    }
  }

  lemma {:induction false} SplitIsNode(t: Shape, k: LayoutNode)
    requires k in SplitSet(t)
    ensures k in Nodes(t)
  {
    if t.id != k {
      if k in SplitSet(t.first) {
        SplitIsNode(t.first, k);
      } else {
        SplitIsNode(t.second, k);
      }
    }
  }

  // ----- the operations

  lemma EnteredByGroup(t: Option<Shape>, at: Option<LeafRef>, leaf: LeafRef, split: LayoutNode, o: Orientation, r: real)
    requires t.Some? ==> at.Some? && Distinct(t.value) && GroupsApart(t.value) && at.value in LeafSet(t.value)
    requires t.Some? ==> split !in SplitSet(t.value) && leaf.group !in LeafSet(ByGroup(t.value))
    ensures ByGroups(Some(if t.Some? then Add(t.value, at.value, leaf, split, o, r) else Leaf(leaf)))
      == Entered(Tiling(ByGroups(t), []), if at.Some? then Some(at.value.group) else None, leaf.group, split, o, r).tree
  {
    if t.Some? {
      AddIsEdit(t.value, at.value, leaf, split, o, r);
    }
  }

  // The edits bring no nodes but the new ones.

  lemma {:induction false} GraftNodesIn(t: Shape, at: LeafRef, u: Shape)
    ensures Nodes(Graft(t, at, u)) <= Nodes(t) + Nodes(u)
  {
    if t.Split? {
      GraftNodesIn(t.first, at, u);
      GraftNodesIn(t.second, at, u);
    }
  }

  lemma AddNodes(t: Shape, at: LeafRef, leaf: LeafRef, split: LayoutNode, o: Orientation, r: real)
    requires at.node in Nodes(t)
    ensures Nodes(Add(t, at, leaf, split, o, r)) <= Nodes(t) + {split, leaf.node}
  {
    GraftNodesIn(t, at, Split(split, o, r, Leaf(at), Leaf(leaf)));
  }

  lemma {:induction false} RemoveNodesIn(t: Shape, l: LeafRef)
    ensures Remove(t, l).Some? ==> Nodes(Remove(t, l).value) <= Nodes(t)
  {
    if t.Split? {
      RemoveNodesIn(t.first, l);
      RemoveNodesIn(t.second, l);
    }
  }

  lemma GroupsGrow(tiles: seq<Tile>, groups: seq<Group>, k: Tile)
    requires |groups| == |tiles| && forall i :: 0 <= i < |tiles| ==> tiles[i].group == groups[i]
    ensures GroupsOf(tiles + [k]) == groups + [k.group]
  {
  }

  /** The new tile, as `Bring` leaves it. */
  method Seat(ws: Workspace, groups: set<Group>, g: Group, o: Orientation, p: LayoutPolicy, usable: Box)
    returns (ghost leaf: LeafRef, ghost split: LayoutNode)
    requires Tended(ws, groups) && g in groups && g.tile == null
    modifies ws, ws.tree.records.Keys, groups, (set k | k in ws.tiles)
    ensures Tended(ws, groups) && leaf.group == g && fresh(split) && ws.activeGroup == old(ws.activeGroup)
    ensures ws.tiles == old(ws.tiles) + [leaf.tile] && leaf.tile.group == g
    ensures forall n :: n in ws.tree.records ==> n in old(ws.tree.records) || fresh(n)
    ensures forall k :: k in ws.tiles ==> k in old(ws.tiles) || fresh(k)
    ensures forall k :: k in old(ws.tiles) ==> k.group == old(k.group)
    ensures old(ws.tree.shape).None? ==> ws.tree.shape == Some(Leaf(leaf))
    ensures old(ws.tree.shape).Some? ==>
      && old(AnchorOf(ws)) != null
      && ws.tree.shape == Some(Add(old(ws.tree.shape).value, old(RefOf(AnchorOf(ws))), leaf, split, o, p.initialRatio))
  {
    hide LayoutOk, LaidOut;
    TendedSeats(ws, groups);
    ghost var w := ws.tree;
    if w.shape.Some? {
      LeafNodeIsNode(w.shape.value, RefOf(AnchorOf(ws)));
    }
    var added, l, k := AddGroup(g, o, p, usable);
    leaf, split := l.value, if w.shape.Some? then k.value else l.value.node;
    if w.shape.Some? {
      AddNodes(w.shape.value, old(RefOf(AnchorOf(ws))), leaf, split, o, p.initialRatio);
    }
  }

  /** Gives a group without a tile a place in the layout: the very `Entered` of the desk. */
  method Bring(ws: Workspace, groups: set<Group>, g: Group, o: Orientation, p: LayoutPolicy, usable: Box)
    returns (ghost split: LayoutNode?)
    requires Tended(ws, groups) && g in groups
    modifies ws, ws.tree.records.Keys, groups, (set k | k in ws.tiles)
    ensures Tended(ws, groups)
    ensures forall n :: n in ws.tree.records ==> n in old(ws.tree.records) || fresh(n)
    ensures forall k :: k in ws.tiles ==> k in old(ws.tiles) || fresh(k)
    ensures old(g.tile) != null ==> View(ws) == old(View(ws))
    ensures old(g.tile) == null ==>
      && split != null
      && View(ws) == Entered(old(View(ws)), old(AnchorIn(View(ws), ActiveOf(ws))), g, split, o, p.initialRatio)
  {
    hide Tended;
    if g.tile != null {
      return null;
    }
    hide Tended, LayoutOk, LaidOut;
    ghost var t, anchor, tiles, members := ws.tree.shape, AnchorOf(ws), ws.tiles, GroupsOf(ws.tiles);
    BringStarts(ws, groups, g);
    ghost var at := if anchor == null then None else Some(RefOf(anchor));
    ghost var leaf;
    leaf, split := Seat(ws, groups, g, o, p, usable);
    GroupsGrow(tiles, members, leaf.tile);
    EnteredByGroup(t, at, leaf, split, o, p.initialRatio);
  }

  lemma BringStarts(ws: Workspace, groups: set<Group>, g: Group)
    requires Tended(ws, groups) && g in groups && g.tile == null
    ensures AnchorIn(View(ws), ActiveOf(ws)) == if AnchorOf(ws) == null then None else Some(AnchorOf(ws).group)
    ensures ws.tree.shape.Some? ==>
      var t := ws.tree.shape.value;
      && AnchorOf(ws) != null && RefOf(AnchorOf(ws)) in LeafSet(t)
      && Distinct(t) && GroupsApart(t) && SplitSet(t) <= ws.tree.records.Keys && g !in LeafSet(ByGroup(t))
  {
    AnchorAgrees(ws, groups);
    TendedSeats(ws, groups);
    if ws.tree.shape.Some? {
      TreeByGroup(ws);
    }
  }

  lemma GroupsShrink(tiles: seq<Tile>, groups: seq<Group>, k: Tile, g: Group)
    requires |groups| == |tiles| && forall i :: 0 <= i < |tiles| ==> tiles[i].group == groups[i]
    requires forall i :: 0 <= i < |tiles| ==> (groups[i] == g <==> tiles[i] == k)
    ensures GroupsOf(Without<Tile>(tiles, k)) == Without(groups, g)
  {
    if tiles != [] {
      GroupsShrink(tiles[1..], groups[1..], k, g);
    }
  }

  lemma DepartedByGroup(t: Shape, l: LeafRef)
    requires Distinct(t) && GroupsApart(t) && l in LeafSet(t)
    ensures ByGroups(Remove(t, l)) == Remove(ByGroup(t), l.group)
  {
    ByGroupRemove(t, l);
  }

  /** The group's tile leaves tree and registry, as `Drop` leaves them. */
  method Unseat(ws: Workspace, groups: set<Group>, g: Group, p: LayoutPolicy, usable: Box)
    requires Tended(ws, groups) && g in groups && g.tile != null
    modifies ws, ws.tree.records.Keys, groups, (set k | k in ws.tiles)
    ensures Tended(ws, groups) && old(ws.tree.shape).Some?
    ensures forall n :: n in ws.tree.records ==> n in old(ws.tree.records) || fresh(n)
    ensures forall k :: k in ws.tiles ==> k in old(ws.tiles) || fresh(k)
    ensures forall k :: k in old(ws.tiles) ==> k.group == old(k.group)
    ensures ws.tiles == Without<Tile>(old(ws.tiles), old(g.tile))
    ensures ws.tree.shape == Remove(old(ws.tree.shape).value, old(RefOf(g.tile)))
  {
    hide LayoutOk, LaidOut;
    ghost var w, tiles, l := ws.tree, ws.tiles, RefOf(g.tile);
    ghost var tile := g.tile;
    RemoveGroup(g, p, usable);
    RemoveNodesIn(w.shape.value, l);
    forall k ensures k in ws.tiles <==> k in tiles && k != tile {
      WithoutMember<Tile>(tiles, tile, k);
    }
  }

  lemma TiledGroup(ws: Workspace, groups: set<Group>, g: Group)
    requires Tended(ws, groups) && g in groups && g.tile != null
    ensures ws.tree.shape.Some? && RefOf(g.tile) in LeafSet(ws.tree.shape.value) && g.tile in ws.tiles
    ensures g.tile.group == g
    ensures Distinct(ws.tree.shape.value) && GroupsApart(ws.tree.shape.value)
    ensures forall k :: k in ws.tiles ==> (k.group == g <==> k == g.tile)
  {
    TreeByGroup(ws);
    forall k | k in ws.tiles ensures k.group == g <==> k == g.tile {
      SeatedTile(ws, k);
    }
  }

  /** Takes a group out of the layout: the very `Departed` of the desk. */
  method Drop(ws: Workspace, groups: set<Group>, g: Group, p: LayoutPolicy, usable: Box)
    requires Tended(ws, groups) && g in groups
    modifies ws, ws.tree.records.Keys, groups, (set k | k in ws.tiles)
    ensures Tended(ws, groups)
    ensures forall n :: n in ws.tree.records ==> n in old(ws.tree.records) || fresh(n)
    ensures forall k :: k in ws.tiles ==> k in old(ws.tiles) || fresh(k)
    ensures View(ws) == if old(g.tile) == null then old(View(ws)) else Departed(old(View(ws)), g)
  {
    if g.tile == null {
      return;
    }
    hide Tended, LayoutOk, LaidOut;
    TiledGroup(ws, groups, g);
    ghost var t, l, tiles, members := ws.tree.shape.value, RefOf(g.tile), ws.tiles, GroupsOf(ws.tiles);
    Unseat(ws, groups, g, p, usable);
    GroupsShrink(tiles, members, l.tile, g);
    DepartedByGroup(t, l);
  }

  lemma GroupsStay(tiles: seq<Tile>, groups: seq<Group>)
    requires |groups| == |tiles| && forall i :: 0 <= i < |tiles| ==> tiles[i].group == groups[i]
    ensures GroupsOf(tiles) == groups
  {
  }

  lemma RelocateNodes(t: Shape, source: LeafRef, target: LeafRef, d: Direction, split: LayoutNode, r: real)
    requires source.node in Nodes(t) && target.node in Nodes(t)
    ensures Nodes(Relocate(t, source, target, d, split, r)) <= Nodes(t) + {split}
  {
    RemoveNodesIn(t, source);
    if Remove(t, source).Some? {
      GraftNodesIn(Remove(t, source).value, target, Beside(source, target, d, split, r));
    }
  }

  /** The group's tile moves, as `MoveBeside` leaves it. */
  method Reseat(ws: Workspace, groups: set<Group>, g: Group, target: Group, d: Direction, p: LayoutPolicy, usable: Box)
    returns (ghost split: LayoutNode)
    requires Tended(ws, groups) && g in groups && target in groups && g != target && g.tile != null
    requires target.tile != null
    modifies ws, ws.tree.records.Keys, groups, (set k | k in ws.tiles)
    ensures Tended(ws, groups) && fresh(split) && ws.tiles == old(ws.tiles) && old(ws.tree.shape).Some?
    ensures forall n :: n in ws.tree.records ==> n in old(ws.tree.records) || fresh(n)
    ensures forall k :: k in ws.tiles ==> k in old(ws.tiles) || fresh(k)
    ensures forall k :: k in ws.tiles ==> k.group == old(k.group)
    ensures ws.tree.shape ==
      Some(Relocate(old(ws.tree.shape).value, old(RefOf(g.tile)), old(RefOf(target.tile)), d, split, p.initialRatio))
  {
    hide LayoutOk, LaidOut, RefOf;
    TiledGroup(ws, groups, g);
    TiledGroup(ws, groups, target);
    ghost var t, x, y := ws.tree.shape.value, RefOf(g.tile), RefOf(target.tile);
    LeafNodeIsNode(t, x);
    LeafNodeIsNode(t, y);
    var moved, k := MoveGroupRelative(g, target, d, p, usable);
    split := k.value;
    RelocateNodes(t, x, y, d, split, p.initialRatio);
  }

  /** The layout after `g` was moved beside `target`. */
  ghost function Relocated(v: TreeLayout<LayoutNode, Group>, g: Group, target: Group, d: Direction, split: LayoutNode,
                           r: real)
    : TreeLayout<LayoutNode, Group>
  {
    if v.tree.Some? then v.(tree := Some(Relocate(v.tree.value, g, target, d, split, r))) else v
  }

  /** Moves a group beside another one: the relocation of the tree of groups, the registry as it was. */
  method MoveBeside(ws: Workspace, groups: set<Group>, g: Group, target: Group, d: Direction, p: LayoutPolicy,
                    usable: Box)
    returns (ghost split: LayoutNode?)
    requires Tended(ws, groups) && g in groups && target in groups
    modifies ws, ws.tree.records.Keys, groups, (set k | k in ws.tiles)
    ensures Tended(ws, groups)
    ensures forall n :: n in ws.tree.records ==> n in old(ws.tree.records) || fresh(n)
    ensures forall k :: k in ws.tiles ==> k in old(ws.tiles) || fresh(k)
    ensures old(g == target || g.tile == null || target.tile == null) ==> View(ws) == old(View(ws))
    ensures old(g != target && g.tile != null && target.tile != null) ==>
      && split != null
      && old(View(ws)).tree.Some?
      && View(ws) == Relocated(old(View(ws)), g, target, d, split, p.initialRatio)
  {
    if g == target || g.tile == null || target.tile == null {
      return null;
    }
    hide Tended, LayoutOk, LaidOut;
    TiledGroup(ws, groups, g);
    TiledGroup(ws, groups, target);
    SplitsAreNodes(ws, groups);
    ghost var t, members, x, y := ws.tree.shape.value, GroupsOf(ws.tiles), RefOf(g.tile), RefOf(target.tile);
    split := Reseat(ws, groups, g, target, d, p, usable);
    GroupsStay(ws.tiles, members);
    RelocateIsEdit(t, x, y, d, split, p.initialRatio);
  }

  lemma SplitsAreNodes(ws: Workspace, groups: set<Group>)
    requires Tended(ws, groups) && ws.tree.shape.Some?
    ensures SplitSet(ws.tree.shape.value) <= ws.tree.records.Keys
  {
    TreeByGroup(ws);
  }

  // ----- frames

  /** The layout after split `k` got frame `f`. */
  ghost function WithFrame(v: TreeLayout<LayoutNode, Group>, k: LayoutNode, f: Frame): TreeLayout<LayoutNode, Group> {
    if v.tree.Some? then v.(tree := Some(Reframe(v.tree.value, k, f))) else v
  }

  /** Turns the orientation of the split above the group. */
  method Flip(ws: Workspace, groups: set<Group>, g: Group, p: LayoutPolicy, usable: Box)
    returns (ghost k: Option<LayoutNode>)
    requires Tended(ws, groups) && g in groups
    modifies ws, ws.tree.records.Keys, groups, (set k | k in ws.tiles)
    ensures Tended(ws, groups)
    ensures forall n :: n in ws.tree.records ==> n in old(ws.tree.records) || fresh(n)
    ensures forall k :: k in ws.tiles ==> k in old(ws.tiles) || fresh(k)
    ensures k == None ==> View(ws) == old(View(ws))
    ensures k.Some? ==>
      var v := old(View(ws));
      && v.tree.Some? && FrameOf(v.tree.value, k.value).Some?
      && View(ws) == WithFrame(v, k.value, Turned(FrameOf(v.tree.value, k.value).value))
  {
    hide LayoutOk, LaidOut, GroupsOf, Turned, Divide, NoDup, Seated;
    ghost var shape, members := ws.tree.shape, GroupsOf(ws.tiles);
    if g.tile != null {
      TiledGroup(ws, groups, g);
    }
    var flipped := FlipActiveSplit(g, p, usable);
    GroupsStay(ws.tiles, members);
    k := None;
    if flipped {
      k := ParentOf(shape.value, RefOf(g.tile));
      FrameByGroup(shape.value, k.value, Turned(FrameOf(shape.value, k.value).value));
    }
  }

  lemma FrameByGroup(t: Shape, k: LayoutNode, f: Frame)
    requires FrameOf(t, k).Some?
    ensures FrameOf(ByGroup(t), k) == FrameOf(t, k) && ByGroup(Reframe(t, k, f)) == Reframe(ByGroup(t), k, f)
    ensures Nodes(Reframe(t, k, f)) == Nodes(t)
  {
    ByGroupSplits(t, k);
    ByGroupReframe(t, k, f);
    ReframedNodes(t, k, f);
  }

  lemma {:induction false} ReframedNodes(t: Shape, k: LayoutNode, f: Frame)
    ensures Nodes(Reframe(t, k, f)) == Nodes(t)
  {
    if t.Split? && t.id != k {
      ReframedNodes(t.first, k, f);
      ReframedNodes(t.second, k, f);
    }
  }

  /** Moves the ratio of the nearest split on the axis by one step. */
  method StepSize(ws: Workspace, groups: set<Group>, g: Group, d: Direction, p: LayoutPolicy, usable: Box)
    returns (ghost k: Option<LayoutNode>)
    requires Tended(ws, groups) && g in groups
    modifies ws, ws.tree.records.Keys, groups, (set k | k in ws.tiles)
    ensures Tended(ws, groups)
    ensures forall n :: n in ws.tree.records ==> n in old(ws.tree.records) || fresh(n)
    ensures forall k :: k in ws.tiles ==> k in old(ws.tiles) || fresh(k)
    ensures k == None ==> View(ws) == old(View(ws))
    ensures k.Some? ==>
      var v := old(View(ws));
      && v.tree.Some? && FrameOf(v.tree.value, k.value).Some?
      && var f := FrameOf(v.tree.value, k.value).value;
      && SteppedRatio(f.ratio, d, p).Some?
      && View(ws) == WithFrame(v, k.value, f.(ratio := SteppedRatio(f.ratio, d, p).value))
  {
    hide LayoutOk, LaidOut, SteppedRatio, GroupsOf;
    ghost var shape, members := ws.tree.shape, GroupsOf(ws.tiles);
    if g.tile != null {
      TiledGroup(ws, groups, g);
    }
    var resized := ResizeDirection(g, d, p, usable);
    GroupsStay(ws.tiles, members);
    k := None;
    if resized {
      k := NearestSplit(shape.value, RefOf(g.tile), d.Axis());
      ghost var f := FrameOf(shape.value, k.value).value;
      FrameByGroup(shape.value, k.value, f.(ratio := SteppedRatio(f.ratio, d, p).value));
    }
  }

  lemma DragNodes(t: Shape, boxes: map<LeafRef, Box>, p: LayoutPolicy, k: LayoutNode, pos: real)
    ensures Drag(t, boxes, p, k, pos).Some? ==> Nodes(Drag(t, boxes, p, k, pos).value.1) == Nodes(t)
  {
    var drag := Drag(t, boxes, p, k, pos);
    if drag.Some? {
      var u := SubtreeAt(t, k).value;
      var (a, b) := (Bounds(u.first, boxes).value, Bounds(u.second, boxes).value);
      ReframedNodes(t, k, Frame(u.orientation, DragSides(u.orientation, u.ratio, a, b, p, pos).value.1));
    }
  }

  lemma DragOfNodes(t: Shape, x: LeafRef, y: LeafRef, o: Orientation, px: real, py: real, p: LayoutPolicy)
    ensures Nodes(DragOf(t, x, y, o, px, py, p).1) == Nodes(t)
  {
    var k := Resolve(t, x, y, o);
    if k.Some? {
      DragNodes(t, TileBoxes(t), p, k.value, if o == Horizontal then px else py);
    }
  }

  /** Drags the border named by two groups and an orientation. */
  method Pull(ws: Workspace, groups: set<Group>, g: Group, other: Group, o: Orientation, px: real, py: real,
              p: LayoutPolicy, usable: Box)
    requires Tended(ws, groups) && g in groups && other in groups
    modifies ws, ws.tree.records.Keys, groups, (set k | k in ws.tiles)
    ensures Tended(ws, groups)
    ensures forall n :: n in ws.tree.records ==> n in old(ws.tree.records) || fresh(n)
    ensures forall k :: k in ws.tiles ==> k in old(ws.tiles) || fresh(k)
  {
    hide LayoutOk, Mirrors;
    if g.tile == null || other.tile == null {
      return;
    }
    hide LayoutOk, LaidOut, DragOf;
    TiledGroup(ws, groups, g);
    DragOfNodes(ws.tree.shape.value, RefOf(g.tile), RefOf(other.tile), o, px, py, p);
    var _ := DragHandle(ws, g.tile, other.tile, o, px, py, p, usable);
  }

  // ----- exchanging

  lemma GroupsTraded(tiles: seq<Tile>, groups: seq<Group>, source: Tile, target: Tile, a: Group, b: Group)
    requires |groups| == |tiles| && forall i :: 0 <= i < |tiles| ==>
      tiles[i].group == (if tiles[i] == source then b else if tiles[i] == target then a else groups[i])
    requires forall i :: 0 <= i < |tiles| ==>
      (groups[i] == a <==> tiles[i] == source) && (groups[i] == b <==> tiles[i] == target)
    ensures GroupsOf(tiles) == Renamed(groups, a, b)
  {
  }

  /** The layout after `a` and `b` traded places. */
  ghost function Exchanged(v: TreeLayout<LayoutNode, Group>, a: Group, b: Group): TreeLayout<LayoutNode, Group> {
    if v.tree.Some? then Tiling(Some(Exchange(v.tree.value, a, b)), Renamed(v.tiles, a, b)) else v
  }

  /** The exchange, as `Swap` leaves tiles and groups. */
  method Trade(ws: Workspace, groups: set<Group>, source: Tile, d: Direction) returns (target: Tile?)
    requires Tended(ws, groups) && source in ws.tiles
    modifies ws, ws.tree.records.Keys, groups, (set k | k in ws.tiles)
    ensures Tended(ws, groups) && ws.tiles == old(ws.tiles) && ws.tree.records == old(ws.tree.records)
    ensures target == null ==> ws.tree == old(ws.tree) && forall k :: k in ws.tiles ==> k.group == old(k.group)
    ensures target != null ==>
      && target in ws.tiles && old(ws.tree.shape).Some? && ws.tree.shape.Some?
      && source.group == old(target.group) && target.group == old(source.group)
      && (forall k :: k in ws.tiles && k != source && k != target ==> k.group == old(k.group))
      && ByGroup(ws.tree.shape.value) == Exchange(ByGroup(old(ws.tree.shape).value), old(source.group), old(target.group))
  {
    hide LayoutOk, ByGroup;
    target := SwapDirection(ws, source, d);
    forall k | k in ws.tiles ensures k.group.tile == k && k.group.workspace == ws {
      SeatedTile(ws, k);
    }
  }

  /** The group trades places with the one the directional search finds. */
  method Swap(ws: Workspace, groups: set<Group>, g: Group, d: Direction)
    returns (ghost other: Option<Group>)
    requires Tended(ws, groups) && g in groups
    modifies ws, ws.tree.records.Keys, groups, (set k | k in ws.tiles)
    ensures Tended(ws, groups)
    ensures forall n :: n in ws.tree.records ==> n in old(ws.tree.records) || fresh(n)
    ensures forall k :: k in ws.tiles ==> k in old(ws.tiles) || fresh(k)
    ensures other == None ==> View(ws) == old(View(ws))
    ensures other.Some? ==> old(View(ws)).tree.Some? && View(ws) == Exchanged(old(View(ws)), g, other.value)
  {
    if g.tile == null {
      return None;
    }
    hide Tended, LayoutOk, ByGroup;
    TiledGroup(ws, groups, g);
    TradeStarts(ws, groups);
    ghost var members, source := GroupsOf(ws.tiles), g.tile;
    var target := Trade(ws, groups, g.tile, d);
    if target == null {
      GroupsStay(ws.tiles, members);
      return None;
    }
    other := Some(old(target.group));
    GroupsTraded(ws.tiles, members, source, target, g, other.value);
  }

  lemma TradeStarts(ws: Workspace, groups: set<Group>)
    requires Tended(ws, groups)
    ensures forall k, h :: k in ws.tiles && h in ws.tiles ==> (k.group == h.group <==> k == h)
  {
    forall k, h | k in ws.tiles && h in ws.tiles ensures k.group == h.group <==> k == h {
      SeatedTile(ws, k);
      SeatedTile(ws, h);
    }
  }

  // ----- runs

  datatype LayoutOp =
    | Arrival(g: Group, o: Orientation)
    | Departure(g: Group)
    | Relocation(g: Group, target: Group, d: Direction)
    | Turn(g: Group)
    | Growth(g: Group, d: Direction)
    | Dragging(g: Group, other: Group, o: Orientation, px: real, py: real)
    | Exchanging(g: Group, d: Direction)
    | Activation(g: Group)
  {
    ghost predicate Within(groups: set<Group>) {
      g in groups && (Relocation? ==> target in groups) && (Dragging? ==> other in groups)
    }
  }

  method Perform(ws: Workspace, groups: set<Group>, op: LayoutOp, p: LayoutPolicy, usable: Box)
    requires Tended(ws, groups) && op.Within(groups)
    modifies ws, ws.tree.records.Keys, groups, (set k | k in ws.tiles)
    ensures Tended(ws, groups)
    ensures forall n :: n in ws.tree.records ==> n in old(ws.tree.records) || fresh(n)
    ensures forall k :: k in ws.tiles ==> k in old(ws.tiles) || fresh(k)
  {
    match op
    case Arrival(g, o) =>
      hide Tended;
      ghost var _ := Bring(ws, groups, g, o, p, usable);
    case Departure(g) =>
      hide Tended;
      Drop(ws, groups, g, p, usable);
    case Relocation(g, target, d) =>
      hide Tended;
      ghost var _ := MoveBeside(ws, groups, g, target, d, p, usable);
    case Turn(g) =>
      hide Tended;
      ghost var _ := Flip(ws, groups, g, p, usable);
    case Growth(g, d) =>
      hide Tended;
      ghost var _ := StepSize(ws, groups, g, d, p, usable);
    case Dragging(g, other, o, px, py) =>
      hide Tended;
      Pull(ws, groups, g, other, o, px, py, p, usable);
    case Exchanging(g, d) =>
      hide Tended;
      ghost var _ := Swap(ws, groups, g, d);
    case Activation(g) =>
      ws.activeGroup := g;
  }

  /** Main result.  Whatever is done to the layout of a workspace, in whatever order, everything stays in
      agreement. */
  method PerformAll(ws: Workspace, groups: set<Group>, ops: seq<LayoutOp>, p: LayoutPolicy, usable: Box)
    requires Tended(ws, groups) && forall op :: op in ops ==> op.Within(groups)
    modifies ws, ws.tree.records.Keys, groups, (set k | k in ws.tiles)
    ensures Tended(ws, groups)
  {
    hide Tended;
    for i := 0 to |ops|
      invariant Tended(ws, groups)
      invariant forall n :: n in ws.tree.records ==> n in old(ws.tree.records) || fresh(n)
      invariant forall k :: k in ws.tiles ==> k in old(ws.tiles) || fresh(k)
    {
      Perform(ws, groups, ops[i], p, usable);
    }
  }
}
