/** The layout seen by group: each heap edit of the tree of leaves is the same edit of the tree of
groups, so what is proved about handles over runs of edits holds for handles named by groups. */
module LayoutGroups {
  import opened Seqs
  import opened LayoutTree
  import opened LayoutHandle
  import opened Desktop
  import opened LayoutShape
  import opened Layout
  import opened LayoutNavigation

  type GroupTree = Tree<LayoutNode, Group>

  ghost function ByGroup(t: Shape): GroupTree {
    match t
    case Leaf(l) => Leaf(l.group)
    case Split(id, o, r, a, b) => Split(id, o, r, ByGroup(a), ByGroup(b))
  }

  /** No group has two leaves. */
  ghost predicate GroupsApart(t: Shape) {
    forall l, m :: l in LeafSet(t) && m in LeafSet(t) && l.group == m.group ==> l == m
  }

  lemma LayoutGroupsApart(ws: Workspace)
    requires LayoutOk(ws) && ws.tree.shape.Some?
    ensures GroupsApart(ws.tree.shape.value) && Distinct(ws.tree.shape.value)
  {
    var t := ws.tree.shape.value;
    ApartIsDistinct(t);
    forall l, m | l in LeafSet(t) && m in LeafSet(t) && l.group == m.group
      ensures l == m
    {
      assert Seated(l, ws) && Seated(m, ws);
    }
  }

  lemma GroupsApartInside(t: Shape)
    requires GroupsApart(t) && t.Split?
    ensures GroupsApart(t.first) && GroupsApart(t.second)
  {
  }

  lemma {:induction false} GroupInTree(t: Shape, l: LeafRef)
    requires l in LeafSet(t)
    ensures l.group in LeafSet(ByGroup(t))
  {
    if t.Split? {
      if l in LeafSet(t.first) {
        GroupInTree(t.first, l);
      } else {
        GroupInTree(t.second, l);
      }
    }
  }

  lemma {:induction false} GroupFromTree(t: Shape, g: Group)
    requires g in LeafSet(ByGroup(t))
    ensures exists l :: l in LeafSet(t) && l.group == g
  {
    if t.Split? {
      if g in LeafSet(ByGroup(t.first)) {
        GroupFromTree(t.first, g);
      } else {
        GroupFromTree(t.second, g);
      }
    } else {
      assert t.leaf in LeafSet(t);
    }
  }

  lemma GroupOnlyIn(t: Shape, l: LeafRef, side: Shape)
    requires GroupsApart(t) && l in LeafSet(t) && LeafSet(side) <= LeafSet(t) && l !in LeafSet(side)
    ensures l.group !in LeafSet(ByGroup(side))
  {
    if l.group in LeafSet(ByGroup(side)) {
      GroupFromTree(side, l.group);
    }
  }

  lemma {:induction false} ByGroupSplits(t: Shape, k: LayoutNode)
    ensures SplitSet(ByGroup(t)) == SplitSet(t) && FrameOf(ByGroup(t), k) == FrameOf(t, k)
  {
    if t.Split? {
      ByGroupSplits(t.first, k);
      ByGroupSplits(t.second, k);
    }
  }

  lemma {:induction false} ByGroupDistinct(t: Shape)
    requires Distinct(t) && GroupsApart(t)
    ensures Distinct(ByGroup(t))
  {
    if t.Split? {
      GroupsApartInside(t);
      ByGroupDistinct(t.first);
      ByGroupDistinct(t.second);
      ByGroupSplits(t.first, t.id);
      ByGroupSplits(t.second, t.id);
      forall g | g in LeafSet(ByGroup(t.first)) ensures g !in LeafSet(ByGroup(t.second)) {
        GroupFromTree(t.first, g);
        var l :| l in LeafSet(t.first) && l.group == g;
        GroupOnlyIn(t, l, t.second);
      }
    }
  }

  lemma {:induction false} ByGroupGraft(t: Shape, at: LeafRef, u: Shape)
    requires Distinct(t) && GroupsApart(t) && at in LeafSet(t)
    ensures ByGroup(Graft(t, at, u)) == Graft(ByGroup(t), at.group, ByGroup(u))
  {
    if t.Split? {
      GroupsApartInside(t);
      if at in LeafSet(t.first) {
        ByGroupGraft(t.first, at, u);
        GraftElsewhere(t.second, at, u);
        GroupOnlyIn(t, at, t.second);
        GraftElsewhere(ByGroup(t.second), at.group, ByGroup(u));
      } else {
        ByGroupGraft(t.second, at, u);
        GraftElsewhere(t.first, at, u);
        GroupOnlyIn(t, at, t.first);
        GraftElsewhere(ByGroup(t.first), at.group, ByGroup(u));
      }
    }
  }

  lemma {:induction false} ByGroupRemove(t: Shape, l: LeafRef)
    requires Distinct(t) && GroupsApart(t) && l in LeafSet(t)
    ensures Remove(ByGroup(t), l.group) ==
      match Remove(t, l) case None => None case Some(rest) => Some(ByGroup(rest))
  {
    if t.Split? {
      GroupsApartInside(t);
      if l in LeafSet(t.first) {
        ByGroupRemove(t.first, l);
        RemoveElsewhere(t.second, l);
        GroupOnlyIn(t, l, t.second);
        RemoveElsewhere(ByGroup(t.second), l.group);
      } else {
        ByGroupRemove(t.second, l);
        RemoveElsewhere(t.first, l);
        GroupOnlyIn(t, l, t.first);
        RemoveElsewhere(ByGroup(t.first), l.group);
      }
    }
  }

  lemma {:induction false} ByGroupReframe(t: Shape, k: LayoutNode, f: Frame)
    ensures ByGroup(Reframe(t, k, f)) == Reframe(ByGroup(t), k, f)
  {
    if t.Split? {
      ByGroupReframe(t.first, k, f);
      ByGroupReframe(t.second, k, f);
    }
  }

  lemma ByGroupMember(t: Shape, l: LeafRef, side: Shape)
    requires GroupsApart(t) && l in LeafSet(t) && LeafSet(side) <= LeafSet(t)
    ensures l.group in LeafSet(ByGroup(side)) <==> l in LeafSet(side)
  {
    if l in LeafSet(side) {
      GroupInTree(side, l);
    } else {
      GroupOnlyIn(t, l, side);
    }
  }

  /** A handle resolves alike by leaves and by groups, in any part of the tree. */
  lemma {:induction false} ResolveSide(t: Shape, side: Shape, x: LeafRef, y: LeafRef, o: Orientation)
    requires GroupsApart(t) && x in LeafSet(t) && y in LeafSet(t) && LeafSet(side) <= LeafSet(t)
    ensures Resolve(ByGroup(side), x.group, y.group, o) == Resolve(side, x, y, o)
    decreases side
  {
    if side.Split? {
      ByGroupMember(t, x, side.first);
      ByGroupMember(t, x, side.second);
      ByGroupMember(t, y, side.second);
      ResolveSide(t, side.first, x, y, o);
      ResolveSide(t, side.second, x, y, o);
    }
  }

  // ----- the heap edits as edits of the tree of groups

  /** What `Layout.AddGroup` and an arriving `Layout.MoveGroupToWorkspace` do to the tree is an `Adding`. */
  lemma AddIsEdit(t: Shape, at: LeafRef, leaf: LeafRef, split: LayoutNode, o: Orientation, r: real)
    requires Distinct(t) && GroupsApart(t) && at in LeafSet(t) && split !in SplitSet(t)
    requires leaf.group !in LeafSet(ByGroup(t))
    ensures var e := Adding(at.group, leaf.group, split, o, r);
      e.Fits(ByGroup(t)) && ByGroup(Add(t, at, leaf, split, o, r)) == e.Apply(ByGroup(t))
  {
    GroupInTree(t, at);
    ByGroupSplits(t, split);
    ByGroupGraft(t, at, Split(split, o, r, Leaf(at), Leaf(leaf)));
  }

  /** What `Layout.RemoveGroup` and a departing `Layout.MoveGroupToWorkspace` do is a `Removing`. */
  lemma RemoveIsEdit(t: Shape, l: LeafRef)
    requires Distinct(t) && GroupsApart(t) && l in LeafSet(t) && t != Leaf(l)
    ensures var e := Removing(l.group);
      && Remove(t, l).Some? && e.Fits(ByGroup(t)) && ByGroup(Remove(t, l).value) == e.Apply(ByGroup(t))
  {
    RemoveEmpties(t, l);
    GroupInTree(t, l);
    ByGroupRemove(t, l);
  }

  /** What `Layout.MoveGroupRelative` does is a `Relocating`. */
  lemma RelocateIsEdit(t: Shape, source: LeafRef, target: LeafRef, d: Direction, split: LayoutNode, r: real)
    requires Distinct(t) && GroupsApart(t) && source in LeafSet(t) && target in LeafSet(t) && source != target
    requires split !in SplitSet(t)
    ensures var e := Relocating(source.group, target.group, d, split, r);
      e.Fits(ByGroup(t)) && ByGroup(Relocate(t, source, target, d, split, r)) == e.Apply(ByGroup(t))
  {
    RemoveEmpties(t, source);
    RemoveContents(t, source);
    RemoveDistinct(t, source);
    GroupInTree(t, source);
    GroupInTree(t, target);
    ByGroupSplits(t, split);
    ByGroupRemove(t, source);
    ByGroupGraft(Remove(t, source).value, target, Beside(source, target, d, split, r));
  }

  /** What resizing and flipping do are a `Resizing` and a `Flipping`. */
  lemma ReframeIsEdit(t: Shape, k: LayoutNode, r: real)
    requires FrameOf(t, k).Some? && k in SplitSet(t)
    ensures var e: Edit<LayoutNode, Group> := Resizing(k, r);
      && e.Fits(ByGroup(t))
      && ByGroup(Reframe(t, k, FrameOf(t, k).value.(ratio := r))) == e.Apply(ByGroup(t))
    ensures var e: Edit<LayoutNode, Group> := Flipping(k); var f := FrameOf(t, k).value;
      && e.Fits(ByGroup(t))
      && ByGroup(Reframe(t, k, f.(orientation := f.orientation.Flipped()))) == e.Apply(ByGroup(t))
  {
    ByGroupSplits(t, k);
    ByGroupReframe(t, k, FrameOf(t, k).value.(ratio := r));
    ByGroupReframe(t, k, FrameOf(t, k).value.(orientation := FrameOf(t, k).value.orientation.Flipped()));
  }

  // ----- exchanging two groups

  /** The tree after tiles `a` and `b` were given the groups `ga` and `gb`. */
  ghost function Regroup(t: Shape, a: Tile, ga: Group, b: Tile, gb: Group): Shape {
    match t
    case Leaf(l) => Leaf(Reassigned(l, a, ga, b, gb))
    case Split(id, o, r, x, y) => Split(id, o, r, Regroup(x, a, ga, b, gb), Regroup(y, a, ga, b, gb))
  }

  ghost function Reassigned(l: LeafRef, a: Tile, ga: Group, b: Tile, gb: Group): LeafRef {
    l.(group := if l.tile == a then ga else if l.tile == b then gb else l.group)
  }

  lemma {:induction false} RegroupLinks(m: Records, t: Shape, parent: LayoutNode?, a: Tile, ga: Group, b: Tile,
                                        gb: Group)
    requires Apart(t) && Linked(m, t, parent)
    ensures var u := Regroup(t, a, ga, b, gb);
      Apart(u) && Nodes(u) == Nodes(t) && Root(u) == Root(t) && Linked(m, u, parent)
  {
    if t.Split? {
      RegroupLinks(m, t.first, t.id, a, ga, b, gb);
      RegroupLinks(m, t.second, t.id, a, ga, b, gb);
    }
  }

  lemma {:induction false} RegroupLeaf(t: Shape, a: Tile, ga: Group, b: Tile, gb: Group, l: LeafRef)
    ensures l in LeafSet(t) ==> Reassigned(l, a, ga, b, gb) in LeafSet(Regroup(t, a, ga, b, gb))
    ensures l in LeafSet(Regroup(t, a, ga, b, gb)) ==> exists m :: m in LeafSet(t) && l == Reassigned(m, a, ga, b, gb)
  {
    if t.Split? {
      RegroupLeaf(t.first, a, ga, b, gb, l);
      RegroupLeaf(t.second, a, ga, b, gb, l);
    } else {
      assert t.leaf in LeafSet(t);
    }
  }

  ghost function Regrouped(w: SoundTree, a: Tile, ga: Group, b: Tile, gb: Group): (w': SoundTree)
    requires w.shape.Some?
    ensures w'.shape == Some(Regroup(w.shape.value, a, ga, b, gb)) && w'.records == w.records && w'.Top() == w.Top()
  {
    RegroupLinks(w.records, w.shape.value, null, a, ga, b, gb);
    WorkspaceTree(Some(Regroup(w.shape.value, a, ga, b, gb)), w.records)
  }

  /** Giving two tiles each other's group exchanges the two groups in the tree of groups. */
  lemma {:induction false} RegroupIsExchange(t: Shape, a: Tile, ga: Group, b: Tile, gb: Group)
    requires forall l :: l in LeafSet(t) ==>
      (l.tile == a <==> l.group == ga) && (l.tile == b <==> l.group == gb)
    requires a != b
    ensures ByGroup(Regroup(t, a, gb, b, ga)) == Exchange(ByGroup(t), ga, gb)
  {
    match t
    case Leaf(l) =>
      assert l in LeafSet(t);
    case Split(_, _, _, x, y) =>
      RegroupIsExchange(x, a, ga, b, gb);
      RegroupIsExchange(y, a, ga, b, gb);
  }

  /** What a leaf of the old tree has become after tiles `a` and `b` received the groups `ga` and `gb`. */
  ghost predicate Traded(l: LeafRef, ws: Workspace, a: Tile, ga: Group, b: Tile, gb: Group)
    reads l.tile`node, l.tile`group, l.tile`workspace, l.group`tile, l.group`workspace, ga`tile, gb`tile
  {
    && l.tile.node == l.node && l.tile.workspace == ws && l.group.workspace == ws
    && l.tile.group == Reassigned(l, a, ga, b, gb).group
    && (l.tile == a <==> l.group == gb) && (l.tile == b <==> l.group == ga)
    && ga.tile == a && gb.tile == b && (l.tile != a && l.tile != b ==> l.group.tile == l.tile)
  }

  lemma TradedIsRegistered(ws: Workspace, t: Shape, tiles: seq<Tile>, a: Tile, ga: Group, b: Tile, gb: Group)
    requires NoDup(tiles) && a != b && ga.workspace == ws && gb.workspace == ws
    requires forall l :: l in LeafSet(t) ==> l.tile in tiles && Traded(l, ws, a, ga, b, gb)
    requires forall k :: k in tiles ==> exists l :: l in LeafSet(t) && l.tile == k
    ensures RegisteredAs(ws, LeafSet(Regroup(t, a, ga, b, gb)), tiles)
  {
    var leaves := LeafSet(Regroup(t, a, ga, b, gb));
    forall l | l in leaves
      ensures l.tile in tiles && l.tile.group == l.group && Seated(l, ws)
    {
      RegroupLeaf(t, a, ga, b, gb, l);
      var m :| m in LeafSet(t) && l == Reassigned(m, a, ga, b, gb);
      assert Traded(m, ws, a, ga, b, gb);
    }
    forall k | k in tiles
      ensures k.group.workspace == ws && LeafRef(k.node, k, k.group) in leaves
    {
      var m :| m in LeafSet(t) && m.tile == k;
      assert Traded(m, ws, a, ga, b, gb);
      RegroupLeaf(t, a, ga, b, gb, m);
    }
  }

  /** The four assignments of the exchange. */
  method Trade(ghost ws: Workspace, source: Tile, target: Tile, ghost t: Shape)
    requires NoDup(ws.tiles) && source in ws.tiles && target in ws.tiles && source != target
    requires RegisteredAs(ws, LeafSet(t), ws.tiles)
    modifies source`group, target`group, source.group`tile, target.group`tile
    ensures source.group == old(target.group) && target.group == old(source.group)
    ensures source.group.tile == source && target.group.tile == target
    ensures RegisteredAs(ws, LeafSet(Regroup(t, source, old(target.group), target, old(source.group))), ws.tiles)
  {
    var activeGroup, targetGroup := source.group, target.group;
    forall l | l in LeafSet(t)
      ensures (l.tile == source <==> l.group == activeGroup) && (l.tile == target <==> l.group == targetGroup)
    {
      assert Seated(l, ws) && Seated(RefOf(source), ws) && Seated(RefOf(target), ws);
    }
    source.group := targetGroup;
    target.group := activeGroup;
    targetGroup.tile := source;
    activeGroup.tile := target;
    forall l | l in LeafSet(t)
      ensures l.tile in ws.tiles && Traded(l, ws, source, targetGroup, target, activeGroup)
    {
      assert old(Seated(l, ws));
    }
    forall k | k in ws.tiles
      ensures exists l :: l in LeafSet(t) && l.tile == k
    {
      assert old(RefOf(k)) in LeafSet(t);
    }
    TradedIsRegistered(ws, t, ws.tiles, source, targetGroup, target, activeGroup);
  }

  lemma EachHasItsGroup(ws: Workspace, t: Shape, a: Tile, b: Tile)
    requires RegisteredAs(ws, LeafSet(t), ws.tiles) && a in ws.tiles && b in ws.tiles && a != b
    ensures a.group != b.group
    ensures forall l :: l in LeafSet(t) ==>
      (l.tile == a <==> l.group == a.group) && (l.tile == b <==> l.group == b.group)
  {
    assert Seated(RefOf(a), ws) && Seated(RefOf(b), ws);
    forall l | l in LeafSet(t)
      ensures (l.tile == a <==> l.group == a.group) && (l.tile == b <==> l.group == b.group)
    {
      assert Seated(l, ws);
    }
  }

  /** Two tiles of a workspace trade their groups. */
  method SwapTiles(ws: Workspace, source: Tile, target: Tile)
    requires LayoutOk(ws) && source in ws.tiles && target in ws.tiles && source != target
    modifies ws`tree, source`group, target`group, source.group`tile, target.group`tile
    ensures LayoutOk(ws)
    ensures source.group == old(target.group) && target.group == old(source.group)
    ensures source.group.tile == source && target.group.tile == target
    ensures old(ws.tree.shape).Some? && ws.tree.shape.Some? && ws.tree.records == old(ws.tree.records)
    ensures ByGroup(ws.tree.shape.value) == Exchange(ByGroup(old(ws.tree.shape).value), old(source.group),
        old(target.group))
  {
    ghost var activeGroup, targetGroup := source.group, target.group;
    assert RefOf(source) in ws.tree.Refs();
    ghost var w := ws.tree;
    ghost var t := w.shape.value;
    EachHasItsGroup(ws, t, source, target);
    RegroupIsExchange(t, source, activeGroup, target, targetGroup);
    Trade(ws, source, target, t);
    ws.tree := Regrouped(w, source, targetGroup, target, activeGroup);
  }

  /** Directional move: the group trades places with the one on the tile the directional search finds. */
  method SwapDirection(ws: Workspace, source: Tile, d: Direction) returns (target: Tile?)
    requires LayoutOk(ws) && source in ws.tiles
    modifies ws`tree, (set k | k in ws.tiles)`group, (set k | k in ws.tiles :: k.group)`tile
    ensures LayoutOk(ws)
    ensures target == null ==> unchanged(set k | k in ws.tiles) && unchanged(set k | k in ws.tiles :: k.group)
    ensures forall k :: k in ws.tiles && k != source && k != target ==> k.group == old(k.group)
    ensures target == null ==> ws.tree == old(ws.tree) && old(forall k :: k in ws.tiles ==> !Candidate(k, source, d))
    ensures target != null ==> old(target in ws.tiles && FirstBest(ws.tiles, target, source, d) && ws.tree.shape.Some?)
    ensures target != null ==> source.group == old(target.group) && target.group == old(source.group)
    ensures target != null ==> ws.tree.shape.Some? && ws.tree.records == old(ws.tree.records)
    ensures target != null ==>
      ByGroup(ws.tree.shape.value) == Exchange(ByGroup(old(ws.tree.shape).value), old(source.group), old(target.group))
  {
    hide Mirrors, BestAt;
    target := FindDirectionalTile(ws, source, d);
    if target != null {
      assert RefOf(source) in ws.tree.Refs();
      SwapTiles(ws, source, target);
    }
  }

  // ----- handles named by groups

  lemma {:induction false} ByGroupSubtree(t: Shape, k: LayoutNode)
    requires k in SplitSet(t)
    ensures SubtreeAt(t, k).Some? && SubtreeAt(ByGroup(t), k) == Some(ByGroup(SubtreeAt(t, k).value))
  {
    SubtreeIsInside(t, k);
    if t.id != k {
      SubtreeIsInside(t.first, k);
      SubtreeIsInside(t.second, k);
      ByGroupSplits(t.first, k);
      SubtreeIsInside(ByGroup(t.first), k);
      if k in SplitSet(t.first) {
        ByGroupSubtree(t.first, k);
      } else {
        ByGroupSubtree(t.second, k);
      }
    }
  }

  lemma {:induction false} ByGroupFirst(t: Shape)
    ensures FirstLeaf(ByGroup(t)) == FirstLeaf(t).group
  {
    if t.Split? {
      ByGroupFirst(t.first);
    }
  }

  /** The two groups and the orientation a resize handle records for a split. */
  ghost function HandleOf(t: Shape, k: LayoutNode): Option<(Group, Group, Orientation)> {
    match SubtreeAt(t, k)
    case Some(Split(_, o, _, a, b)) => Some((FirstLeaf(a).group, FirstLeaf(b).group, o))
    case _ => None
  }

  /** Main result on handles.  Let `t` and `u` be trees of well-formed workspaces, and let any run of
      edits lead from the groups of `t` to those of `u` without moving the two groups of the handle of
      split `k` or flipping `k`.  Then looking the two groups up in `u` resolves the handle to `k`. */
  lemma HandleSurvives(t: Shape, k: LayoutNode, es: seq<Edit<LayoutNode, Group>>, u: Shape, x: LeafRef, y: LeafRef)
    requires Distinct(t) && GroupsApart(t) && Distinct(u) && GroupsApart(u) && k in SplitSet(t)
    requires Run(ByGroup(t), es, ByGroup(u))
    requires HandleOf(t, k).Some? && x in LeafSet(u) && y in LeafSet(u)
    requires HandleOf(t, k).value.0 == x.group && HandleOf(t, k).value.1 == y.group
    requires forall e :: e in es ==> !e.Moves(x.group) && !e.Moves(y.group) && e != Flipping(k)
    ensures Resolve(u, x, y, HandleOf(t, k).value.2) == Some(k)
  {
    ByGroupSubtree(t, k);
    ByGroupSplits(t, k);
    ByGroupDistinct(t);
    var h := SubtreeAt(t, k).value;
    ByGroupFirst(h.first);
    ByGroupFirst(h.second);
    HandleSurvivesRun(ByGroup(t), k, es, ByGroup(u));
    ResolveSide(u, u, x, y, h.orientation);
  }
}
