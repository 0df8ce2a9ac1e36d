/** The layout operations on the heap, each proved to be one edit of the workspace tree.

Every method keeps `LayoutOk`, so none of the branches in which the compositor aborts can be
reached; those branches appear as `assert false`.  `usable` stands for the usable box of the
workspace's output, which the layer shell computes.  */
module Layout {
  import opened Seqs
  import opened LayoutTree
  import opened Geometry
  import opened Desktop
  import opened LayoutShape

  /** The heap nodes of the workspace have the contents recorded in its tree. */
  ghost predicate Mirrors(ws: Workspace)
    reads ws`layoutRoot, ws`tree, ws.tree.records.Keys
  {
    && ws.layoutRoot == ws.tree.Top()
    && forall n :: n in ws.tree.records ==> Record(n) == ws.tree.records[n] && n.workspace == ws
  }

  /** Tile, node and group of a leaf name each other and the workspace. */
  ghost predicate Seated(l: LeafRef, ws: Workspace)
    reads l.tile`node, l.tile`group, l.tile`workspace, l.group`tile, l.group`workspace
  {
    && l.tile.node == l.node && l.tile.group == l.group && l.tile.workspace == ws
    && l.group.tile == l.tile && l.group.workspace == ws
  }

  /** The registry `tiles` lists exactly the tiles of `leaves`, once each, and every leaf's tile, node
      and group name each other. */
  ghost predicate RegisteredAs(ws: Workspace, leaves: set<LeafRef>, tiles: seq<Tile>)
    reads (set k | k in tiles)`node, (set k | k in tiles)`group, (set k | k in tiles)`workspace
    reads (set k | k in tiles :: k.group)`tile, (set k | k in tiles :: k.group)`workspace
  {
    && NoDup(tiles)
    && (forall l :: l in leaves ==> l.tile in tiles && l.tile.group == l.group && Seated(l, ws))
    && (forall k :: k in tiles ==> k.group.workspace == ws && LeafRef(k.node, k, k.group) in leaves)
  }

  /** The layout invariant of a workspace.  That `ws.tree` is a sound tree is part of its type. */
  ghost predicate LayoutOk(ws: Workspace)
    reads ws`layoutRoot, ws`tree, ws.tree.records.Keys, ws`tiles
    reads (set k | k in ws.tiles)`node, (set k | k in ws.tiles)`group, (set k | k in ws.tiles)`workspace
    reads (set k | k in ws.tiles :: k.group)`tile, (set k | k in ws.tiles :: k.group)`workspace
  {
    Mirrors(ws) && RegisteredAs(ws, ws.tree.Refs(), ws.tiles)
  }

  /** The registered leaf of a tile. */
  ghost function RefOf(k: Tile): LeafRef
    reads k`node, k`group
  {
    LeafRef(k.node, k, k.group)
  }

  /** A tiled active group has its tile in the workspace's registry. */
  ghost predicate ActiveSeated(ws: Workspace)
    reads ws`activeGroup, ws`tiles
    reads if ws.activeGroup == null then {} else {ws.activeGroup}
  {
    ws.activeGroup != null && ws.activeGroup.tile != null ==> ws.activeGroup.tile in ws.tiles
  }

  /** The tile a new tile is placed after: the active group's, else the last registered one. */
  ghost function AnchorOf(ws: Workspace): Tile?
    reads ws`activeGroup, ws`tiles
    reads if ws.activeGroup == null then {} else {ws.activeGroup}
  {
    if ws.activeGroup != null && ws.activeGroup.tile != null then ws.activeGroup.tile
    else if ws.tiles == [] then null
    else ws.tiles[|ws.tiles| - 1]
  }

  method FindAnchorTile(ws: Workspace) returns (anchor: Tile?)
    ensures anchor == AnchorOf(ws)
  {
    if ws.activeGroup != null && ws.activeGroup.tile != null {
      return ws.activeGroup.tile;
    }
    if ws.tiles == [] {
      return null;
    }
    return ws.tiles[|ws.tiles| - 1];
  }

  // ----- facts about a well-formed layout

  lemma SomeLeaf(t: Shape)
    ensures FirstLeaf(t) in LeafSet(t)
  {
    FirstLeafLeads(t);
  }

  /** A non-empty tree always has an anchor, and the anchor is one of its leaves. */
  lemma AnchorExists(ws: Workspace)
    requires LayoutOk(ws) && ActiveSeated(ws) && ws.layoutRoot != null
    ensures ws.tree.shape.Some? && AnchorOf(ws) != null && AnchorOf(ws) in ws.tiles
    ensures RefOf(AnchorOf(ws)) in LeafSet(ws.tree.shape.value)
  {
    SomeLeaf(ws.tree.shape.value);
  }

  // ----- reflow

  /** Every leaf's tile carries the box the layout hands to it. */
  ghost predicate LaidOut(t: Shape, box: Box, p: LayoutPolicy)
    reads (set l | l in LeafSet(t) :: l.tile)`box
  {
    match t
    case Leaf(l) => l.tile.box == box
    case Split(_, o, r, a, b) =>
      var (fst, snd) := Divide(o, r, p, box);
      LaidOut(a, fst, p) && LaidOut(b, snd, p)
  }

  ghost function TileBoxes(t: Shape): map<LeafRef, Box>
    reads (set l | l in LeafSet(t) :: l.tile)`box
  {
    map l | l in LeafSet(t) :: l.tile.box
  }

  lemma {:induction false} LaidOutIsLaid(t: Shape, part: Shape, box: Box, p: LayoutPolicy)
    requires LeafSet(part) <= LeafSet(t)
    ensures LaidOut(part, box, p) <==> Laid(part, box, p, TileBoxes(t))
  {
    if part.Split? {
      var (fst, snd) := Divide(part.orientation, part.ratio, p, box);
      LaidOutIsLaid(t, part.first, fst, p);
      LaidOutIsLaid(t, part.second, snd, p);
    }
  }

  lemma TilesDiffer(t: Shape, ws: Workspace)
    requires t.Split? && Apart(t)
    requires forall l :: l in LeafSet(t) ==> Seated(l, ws)
    ensures forall l, m :: l in LeafSet(t.first) && m in LeafSet(t.second) ==> l.tile != m.tile
  {
    forall l, m | l in LeafSet(t.first) && m in LeafSet(t.second)
      ensures l.tile != m.tile
    {
      assert l in LeafSet(t) && Seated(l, ws);
      assert m in LeafSet(t) && Seated(m, ws);
      LeafNodeIsNode(t.first, l);
      LeafNodeIsNode(t.second, m);
    }
  }

  method SplitSpan(available: int, ratio: real) returns (span: int)
    ensures span == FirstSpan(available, ratio)
  {
    span := Truncate(available as real * ratio);
    if available > 1 {
      if span < 1 {
        span := 1;
      }
      if span >= available {
        span := available - 1;
      }
    }
  }

  /** Divides the box of a split node between its children. */
  method SplitBoxes(node: LayoutNode, box: Box, p: LayoutPolicy) returns (firstBox: Box, secondBox: Box)
    ensures (firstBox, secondBox) == Divide(node.orientation, node.ratio, p, box)
  {
    var ratio := node.ratio;
    if ratio <= 0.0 || ratio >= 1.0 {
      ratio := p.initialRatio;
    }
    firstBox, secondBox := box, box;
    if node.orientation == Horizontal {
      var gap := BoundedGap(p.innerGap, box.width);
      var available := box.width - gap;
      var firstWidth := SplitSpan(available, ratio);
      firstBox := firstBox.(width := firstWidth);
      secondBox := secondBox.(x := box.x + firstWidth + gap, width := available - firstWidth);
    } else {
      var gap := BoundedGap(p.innerGap, box.height);
      var available := box.height - gap;
      var firstHeight := SplitSpan(available, ratio);
      firstBox := firstBox.(height := firstHeight);
      secondBox := secondBox.(y := box.y + firstHeight + gap, height := available - firstHeight);
    }
  }

  method LayoutBelow(node: LayoutNode, box: Box, p: LayoutPolicy, ghost t: Shape, ghost parent: LayoutNode?,
                     ghost m: Records, ghost ws: Workspace, ghost tiles: set<Tile>)
    requires node == Root(t) && Apart(t) && Linked(m, t, parent)
    requires forall n :: n in m ==> Record(n) == m[n]
    requires forall l :: l in LeafSet(t) ==> l.tile in tiles && Seated(l, ws)
    modifies (set l | l in LeafSet(t) :: l.tile)`box
    ensures LaidOut(t, box, p)
    decreases t, 1
  {
    assert Record(node) == m[node];
    if node.kind == TileNode {
      node.tile.box := box;
      return;
    }
    var first := node.first;
    var second := node.second;
    var firstBox, secondBox := SplitBoxes(node, box, p);
    TilesDiffer(t, ws);
    LayoutSides(first, firstBox, second, secondBox, p, t, m, ws, tiles);
  }

  /** The two sides of a split, one after the other. */
  method LayoutSides(first: LayoutNode, firstBox: Box, second: LayoutNode, secondBox: Box, p: LayoutPolicy,
                     ghost t: Shape, ghost m: Records, ghost ws: Workspace, ghost tiles: set<Tile>)
    requires t.Split? && first == Root(t.first) && second == Root(t.second) && Apart(t.first) && Apart(t.second)
    requires Linked(m, t.first, t.id) && Linked(m, t.second, t.id) && forall n :: n in m ==> Record(n) == m[n]
    requires forall l :: l in LeafSet(t.first) ==> l.tile in tiles && Seated(l, ws)
    requires forall l :: l in LeafSet(t.second) ==> l.tile in tiles && Seated(l, ws)
    requires forall l, k :: l in LeafSet(t.first) && k in LeafSet(t.second) ==> l.tile != k.tile
    modifies (set l | l in LeafSet(t.first) :: l.tile)`box, (set l | l in LeafSet(t.second) :: l.tile)`box
    ensures LaidOut(t.first, firstBox, p) && LaidOut(t.second, secondBox, p)
    decreases t, 0
  {
    LayoutBelow(first, firstBox, p, t.first, t.id, m, ws, tiles);
    LayoutBelow(second, secondBox, p, t.second, t.id, m, ws, tiles);
  }

  /** On each side where the outer gap fits, every tile keeps it from the usable area, and some tile is
      exactly that far away. */
  ghost predicate OuterGapKept(ws: Workspace, usable: Box, gap: int)
    reads ws`tiles, (set k | k in ws.tiles)`box
  {
    forall d: Direction :: 2 * gap < SpanAlong(usable, d) ==>
      && (forall k :: k in ws.tiles ==> Reach(k.box, usable, d) >= gap)
      && exists k :: k in ws.tiles && Reach(k.box, usable, d) == gap
  }

  lemma LaidOutKeepsGap(ws: Workspace, usable: Box, p: LayoutPolicy)
    requires LayoutOk(ws) && ws.tree.shape.Some? && p.Validated() && usable.width > 1 && usable.height > 1
    requires LaidOut(ws.tree.shape.value, InsetOuterGap(p.outerGap, usable), p)
    ensures OuterGapKept(ws, usable, p.outerGap)
  {
    var t, box := ws.tree.shape.value, InsetOuterGap(p.outerGap, usable);
    ApartIsDistinct(t);
    LaidOutIsLaid(t, t, box, p);
    forall d: Direction | 2 * p.outerGap < SpanAlong(usable, d)
      ensures forall k :: k in ws.tiles ==> Reach(k.box, usable, d) >= p.outerGap
      ensures exists k :: k in ws.tiles && Reach(k.box, usable, d) == p.outerGap
    {
      forall k | k in ws.tiles ensures Reach(k.box, usable, d) >= p.outerGap {
        LaidAt(t, box, p, TileBoxes(t), RefOf(k));
        TilesKeepOuterGap(t, usable, p, RefOf(k), d);
      }
      CornerAttainsOuterGap(t, usable, p, d);
      var l := CornerLeaf(t, d);
      LaidAt(t, box, p, TileBoxes(t), l);
      assert Seated(l, ws) && Reach(l.tile.box, usable, d) == p.outerGap;
    }
  }

  /** Recomputes every tile's box; an unusable output leaves them all as they were. */
  method ReflowWorkspace(ws: Workspace, usable: Box, p: LayoutPolicy)
    requires LayoutOk(ws)
    modifies (set k | k in ws.tiles)`box
    ensures LayoutOk(ws)
    ensures ws.tree.shape.Some? && usable.Positive() ==>
      LaidOut(ws.tree.shape.value, InsetOuterGap(p.outerGap, usable), p)
    ensures ws.tree.shape.Some? && usable.width > 1 && usable.height > 1 && p.Validated() ==>
      OuterGapKept(ws, usable, p.outerGap)
    ensures !usable.Positive() ==> forall k :: k in ws.tiles ==> k.box == old(k.box)
  {
    if ws.layoutRoot == null {
      return;
    }
    if usable.width <= 0 || usable.height <= 0 {
      return;
    }
    var box := InsetOuterGap(p.outerGap, usable);
    LayoutBelow(ws.layoutRoot, box, p, ws.tree.shape.value, null, ws.tree.records, ws, set k | k in ws.tiles);
    if usable.width > 1 && usable.height > 1 && p.Validated() {
      LaidOutKeepsGap(ws, usable, p);
    }
  }

  // ----- pointer surgery

  /** The node hangs at the root of the workspace or on one side of its parent. */
  ghost predicate Hangs(ws: Workspace, n: LayoutNode)
    reads ws`layoutRoot, n`parent, if n.parent == null then {} else {n.parent}
  {
    if n.parent == null then ws.layoutRoot == n
    else n.parent.kind == SplitNode && (n.parent.first == n || n.parent.second == n)
  }

  /** Puts `now` where `was` hangs; refuses when `was` hangs nowhere. */
  method ReplaceNode(ws: Workspace, was: LayoutNode, now: LayoutNode) returns (ok: bool)
    requires now != was && now != was.parent
    modifies ws`layoutRoot, now`parent
    modifies (if was.parent == null then {} else {was.parent})`first
    modifies (if was.parent == null then {} else {was.parent})`second
    ensures ok == old(Hangs(ws, was)) && Record(now) == old(Record(now)).(parent := old(was.parent))
    ensures ws.layoutRoot == if ok && was.parent == null then now else old(ws.layoutRoot)
    ensures was.parent != null ==>
      Record(was.parent) == (if !ok then old(Record(was.parent))
                             else if old(was.parent.first) == was then old(Record(was.parent)).(first := now)
                             else old(Record(was.parent)).(second := now))
  {
    var parent := was.parent;
    now.parent := parent;
    if parent == null {
      if ws.layoutRoot != was {
        return false;
      }
      ws.layoutRoot := now;
      return true;
    }
    if parent.kind != SplitNode {
      return false;
    }
    if parent.first == was {
      parent.first := now;
      return true;
    }
    if parent.second == was {
      parent.second := now;
      return true;
    }
    return false;
  }

  method CreateTileLeaf(group: Group) returns (leaf: LayoutNode, tile: Tile)
    modifies group`tile, group.workspace`tiles
    ensures fresh(leaf) && fresh(tile)
    ensures Record(leaf) == NodeRecord(TileNode, group.workspace, null, tile, leaf.orientation, leaf.ratio, null, null)
    ensures tile.node == leaf && tile.group == group && tile.workspace == group.workspace && group.tile == tile
    ensures group.workspace.tiles == old(group.workspace.tiles) + [tile]
  {
    leaf := new LayoutNode.TileLeaf(group.workspace);
    tile := new Tile(group.workspace, group, leaf);
    leaf.tile := tile;
    group.workspace.tiles := group.workspace.tiles + [tile];
    group.tile := tile;
  }

  /** Puts the new node `split` in the place of `atNode`, seen from every node of `m`. */
  method PlaceSplit(ws: Workspace, atNode: LayoutNode, split: LayoutNode, ghost m: Records)
    requires forall n :: n in m ==> Record(n) == m[n] && n.workspace == ws
    requires atNode in m && split !in m && (atNode.parent == null ==> ws.layoutRoot == atNode)
    requires atNode.parent != null ==>
      var q := atNode.parent;
      && q in m && q != atNode && q.kind == SplitNode && q.first != q.second
      && (q.first == atNode || q.second == atNode)
    modifies ws`layoutRoot, split`parent, m.Keys`first, m.Keys`second
    ensures Record(split) == old(Record(split)).(parent := m[atNode].parent)
    ensures forall n :: n in m ==>
      Record(n) == (if n == m[atNode].parent then m[n].Redirected(atNode, split) else m[n]) && n.workspace == ws
    ensures ws.layoutRoot == if m[atNode].parent == null then split else old(ws.layoutRoot)
  {
    assert Record(atNode) == m[atNode];
    var replaced := ReplaceNode(ws, atNode, split);
    if !replaced {
      assert false;
    }
    forall n | n in m
      ensures Record(n) == (if n == m[atNode].parent then m[n].Redirected(atNode, split) else m[n]) && n.workspace == ws
    {
      assert old(Record(n)) == m[n];
    }
  }

  /** Points `atNode` and `leafNode` up to the placed split. */
  method HangBelow(ws: Workspace, atNode: LayoutNode, leafNode: LayoutNode, split: LayoutNode, ghost m: Records)
    requires atNode in m && atNode != m[atNode].parent && leafNode !in m && split !in m && split != leafNode
    requires forall n :: n in m ==>
      Record(n) == (if n == m[atNode].parent then m[n].Redirected(atNode, split) else m[n]) && n.workspace == ws
    modifies atNode`parent, leafNode`parent
    ensures Record(leafNode) == old(Record(leafNode)).(parent := split)
    ensures forall n :: n in m ==> Record(n) == Hooked(m, n, atNode, split) && n.workspace == ws
  {
    atNode.parent := split;
    leafNode.parent := split;
    forall n | n in m
      ensures Record(n) == Hooked(m, n, atNode, split) && n.workspace == ws
    {
      assert old(Record(n)) == (if n == m[atNode].parent then m[n].Redirected(atNode, split) else m[n]);
    }
  }

  /** Hangs `atNode` and `leafNode` below a new split that takes `atNode`'s place. */
  method HookSplit(ws: Workspace, atNode: LayoutNode, leafNode: LayoutNode, d: Direction, r: real, ghost m: Records)
    returns (split: LayoutNode)
    requires forall n :: n in m ==> Record(n) == m[n] && n.workspace == ws
    requires atNode in m && leafNode !in m && leafNode.workspace == ws
    requires atNode.parent == null ==> ws.layoutRoot == atNode
    requires atNode.parent != null ==>
      var q := atNode.parent;
      && q in m && q != atNode && q.kind == SplitNode && q.first != q.second
      && (q.first == atNode || q.second == atNode)
    modifies ws`layoutRoot, m.Keys`parent, m.Keys`first, m.Keys`second, leafNode`parent
    ensures fresh(split)
    ensures Record(split) == NodeRecord(SplitNode, ws, m[atNode].parent, null, d.Axis(), r,
      if d.SourceFirst() then leafNode else atNode, if d.SourceFirst() then atNode else leafNode)
    ensures Record(leafNode) == old(Record(leafNode)).(parent := split)
    ensures forall n :: n in m ==> Record(n) == Hooked(m, n, atNode, split) && n.workspace == ws
    ensures ws.layoutRoot == if m[atNode].parent == null then split else old(ws.layoutRoot)
  {
    var first := if d.SourceFirst() then leafNode else atNode;
    var second := if d.SourceFirst() then atNode else leafNode;
    split := new LayoutNode.SplitOf(ws, d.Axis(), r, first, second);
    PlaceSplit(ws, atNode, split, m);
    assert Record(atNode) == m[atNode];
    HangBelow(ws, atNode, leafNode, split, m);
  }

  lemma SeatMirrors(ws: Workspace, w: SoundTree, at: LeafRef, leaf: LeafRef, leafRecord: NodeRecord, split: LayoutNode,
                    d: Direction, r: real)
    requires at in w.Refs() && leaf.node !in w.records && split !in w.records && split != leaf.node
    requires leafRecord.kind == TileNode && leafRecord.tile == leaf.tile
    requires at.node in w.records
    requires ws.tree == Seat(w, at, leaf, leafRecord, split, ws, d, r)
    requires ws.layoutRoot == if w.records[at.node].parent == null then split else w.Top()
    requires Record(split) == NodeRecord(SplitNode, ws, w.records[at.node].parent, null, d.Axis(), r,
      if d.SourceFirst() then leaf.node else at.node, if d.SourceFirst() then at.node else leaf.node)
    requires Record(leaf.node) == leafRecord.(parent := split) && leaf.node.workspace == ws
    requires forall n :: n in w.records ==> Record(n) == Hooked(w.records, n, at.node, split) && n.workspace == ws
    ensures Mirrors(ws)
  {
  }

  /** The node of a leaf in the tree it is part of, as the heap has it. */
  lemma NodePlace(ws: Workspace, w: SoundTree, at: LeafRef)
    requires Mirrors(ws) && w == ws.tree && at in w.Refs()
    ensures w.shape.Some? && at in LeafSet(w.shape.value) && at.node in w.records
    ensures at.node.kind == TileNode && (at.node.parent == null ==> ws.layoutRoot == at.node)
    ensures at.node.parent != null ==>
      var q := at.node.parent;
      && q in w.records && q != at.node && q.kind == SplitNode && q.first != q.second
      && (q.first == at.node || q.second == at.node)
  {
    LeafPlace(w, at);
    assert Record(at.node) == w.records[at.node];
    if at.node.parent != null {
      assert Record(at.node.parent) == w.records[at.node.parent];
    }
  }

  /** Seats the detached leaf `leafNode` beside `atNode`, below a new split that takes the place of
      `atNode` in the tree. */
  method SeatBeside(ws: Workspace, atNode: LayoutNode, leafNode: LayoutNode, d: Direction, r: real,
                    ghost at: LeafRef, ghost leaf: LeafRef) returns (split: LayoutNode)
    requires Mirrors(ws) && at in ws.tree.Refs() && at.node == atNode
    requires leaf.node == leafNode && leafNode !in ws.tree.records
    requires leafNode.kind == TileNode && leafNode.workspace == ws && leafNode.tile == leaf.tile
    modifies ws`layoutRoot, ws`tree, ws.tree.records.Keys`parent, ws.tree.records.Keys`first
    modifies ws.tree.records.Keys`second, leafNode`parent
    ensures Mirrors(ws) && fresh(split)
    ensures ws.tree == Seat(old(ws.tree), at, leaf, old(Record(leafNode)), split, ws, d, r)
  {
    hide Hooked, Seat;
    ghost var w, leafRecord := ws.tree, Record(leafNode);
    NodePlace(ws, w, at);
    split := HookSplit(ws, atNode, leafNode, d, r, w.records);
    ws.tree := Seat(w, at, leaf, leafRecord, split, ws, d, r);
    assert Mirrors(ws) by {
      SeatMirrors(ws, w, at, leaf, leafRecord, split, d, r);
    }
  }

  // ----- taking a leaf out

  /** Takes `node` out: its sibling `s` moves up into the place of their parent. */
  method HookSibling(ws: Workspace, node: LayoutNode, ghost m: Records, ghost s: LayoutNode)
    requires forall n :: n in m ==> Record(n) == m[n] && n.workspace == ws
    requires node in m && s in m && s != node && node.parent != null && s != node.parent
    requires var q := node.parent;
      && q in m && q.kind == SplitNode && q != node
      && ((q.first == node && q.second == s) || (q.second == node && q.first == s))
      && (q.parent == null ==> ws.layoutRoot == q)
    requires node.parent.parent != null ==>
      var q := node.parent; var g := q.parent;
      && g in m
      && g != q
      && g != node
      && g != s
      && g.kind == SplitNode
      && g.first != g.second
      && (g.first == q || g.second == q)
    modifies ws`layoutRoot, m.Keys`parent, m.Keys`first, m.Keys`second
    ensures var q := m[node].parent;
      && q != null && q in m
      && (forall n :: n in m && n != node && n != q ==>
            Record(n) == Unhooked(m, n, q, s, m[q].parent) && n.workspace == ws)
      && ws.layoutRoot == if m[q].parent == null then s else old(ws.layoutRoot)
    ensures Record(node) == m[node]
  {
    assert Record(node) == m[node];
    var parent := node.parent;
    assert Record(parent) == m[parent];
    if parent.kind != SplitNode {
      assert false;
    }
    var sibling: LayoutNode?;
    if parent.first == node {
      sibling := parent.second;
    } else if parent.second == node {
      sibling := parent.first;
    } else {
      assert false;
    }
    if sibling == null {
      assert false;
    }
    var replaced := ReplaceNode(ws, parent, sibling);
    if !replaced {
      assert false;
    }
    forall n | n in m && n != node && n != parent
      ensures Record(n) == Unhooked(m, n, parent, s, m[parent].parent) && n.workspace == ws
    {
      assert old(Record(n)) == m[n];
      if n != s && n != m[parent].parent {
        assert Record(n) == old(Record(n));
      }
    }
  }

  lemma CutMirrors(ws: Workspace, w: SoundTree, l: LeafRef)
    requires l in w.Refs() && w.shape.value != Leaf(l)
    requires l.node in w.records && w.records[l.node].parent != null && w.records[l.node].parent in w.records
    requires ws.tree == Cut(w, l)
    requires var q := w.records[l.node].parent; var s := Root(SiblingOf(w.shape.value, l));
      && ws.layoutRoot == (if w.records[q].parent == null then s else w.Top())
      && forall n :: n in w.records && n != l.node && n != q ==>
           Record(n) == Unhooked(w.records, n, q, s, w.records[q].parent) && n.workspace == ws
    ensures Mirrors(ws)
  {
    LeafRelatives(w, l);
    CutIsSound(w, l);
  }

  /** Takes a leaf out of the tree of its workspace. */
  method CutLeaf(ws: Workspace, node: LayoutNode, ghost l: LeafRef)
    requires Mirrors(ws) && l in ws.tree.Refs() && l.node == node
    modifies ws`layoutRoot, ws`tree, ws.tree.records.Keys`parent, ws.tree.records.Keys`first
    modifies ws.tree.records.Keys`second
    ensures Mirrors(ws)
    ensures ws.tree == Cut(old(ws.tree), l)
    ensures Record(node) == old(Record(node))
  {
    ghost var w := ws.tree;
    LeafPlace(w, l);
    assert Record(node) == w.records[node];
    if node.parent == null {
      if ws.layoutRoot != node {
        assert false;
      }
      ws.layoutRoot := null;
      ws.tree := NoTree;
      ApartIsDistinct(w.shape.value);
    } else {
      LeafRelatives(w, l);
      assert Record(node.parent) == w.records[node.parent];
      assert node.parent.parent != null ==> Record(node.parent.parent) == w.records[node.parent.parent];
      HookSibling(ws, node, w.records, Root(SiblingOf(w.shape.value, l)));
      ws.tree := Cut(w, l);
      CutMirrors(ws, w, l);
    }
  }

  // ----- the registry

  /** A registry grows by a new leaf. */
  lemma RegistryGrows(ws: Workspace, leaves: set<LeafRef>, tiles: seq<Tile>, leaf: LeafRef)
    requires RegisteredAs(ws, leaves, tiles) && leaf.tile !in tiles
    requires leaf.tile.group == leaf.group && Seated(leaf, ws)
    ensures RegisteredAs(ws, leaves + {leaf}, tiles + [leaf.tile])
  {
  }

  /** A registry shrinks by a leaf. */
  lemma RegistryShrinks(ws: Workspace, leaves: set<LeafRef>, tiles: seq<Tile>, leaf: LeafRef)
    requires NoDup(tiles)
    requires forall l :: l in leaves && l != leaf ==> l.tile in tiles && l.tile.group == l.group && Seated(l, ws)
    requires forall k :: k in tiles && k != leaf.tile ==>
      k.group.workspace == ws && LeafRef(k.node, k, k.group) in leaves
    requires forall l :: l in leaves && l.tile == leaf.tile ==> l == leaf
    ensures RegisteredAs(ws, leaves - {leaf}, Without<Tile>(tiles, leaf.tile))
  {
    var rest := Without<Tile>(tiles, leaf.tile);
    WithoutNoDup<Tile>(tiles, leaf.tile);
    forall l | l in leaves - {leaf}
      ensures l.tile in rest
    {
      WithoutMember<Tile>(tiles, leaf.tile, l.tile);
    }
    forall k | k in rest
      ensures k.group.workspace == ws && LeafRef(k.node, k, k.group) in leaves - {leaf}
    {
      WithoutMember<Tile>(tiles, leaf.tile, k);
    }
  }

  /** No registered tile belongs to a group without a tile. */
  lemma UntiledElsewhere(ws: Workspace, group: Group)
    requires LayoutOk(ws) && group.tile == null
    ensures forall k :: k in ws.tiles ==> k.group != group
  {
    forall k | k in ws.tiles ensures k.group != group {
      assert Seated(LeafRef(k.node, k, k.group), ws);
    }
  }

  // ----- adding and removing groups

  /** The direction in which a new tile joins its anchor: after it, along the split's axis. */
  function After(o: Orientation): Direction {
    if o == Horizontal then Right else Down
  }

  lemma JoinIsAdd(t: Shape, at: LeafRef, leaf: LeafRef, split: LayoutNode, o: Orientation, r: real)
    ensures Graft(t, at, Beside(leaf, at, After(o), split, r)) == Add(t, at, leaf, split, o, r)
  {
  }

  /** The first tile of a workspace. */
  method AttachFirst(group: Group) returns (ghost leaf: LeafRef)
    requires LayoutOk(group.workspace) && group.tile == null && group.workspace.layoutRoot == null
    modifies group`tile, group.workspace`tiles, group.workspace`layoutRoot, group.workspace`tree
    ensures LayoutOk(group.workspace)
    ensures leaf.group == leaf.tile.group == group && fresh(leaf.node) && fresh(leaf.tile) && group.tile == leaf.tile
    ensures group.workspace.tiles == old(group.workspace.tiles) + [leaf.tile]
    ensures old(group.workspace.tree.shape) == None && group.workspace.tree.shape == Some(Leaf(leaf))
  {
    var ws := group.workspace;
    var node, tile := CreateTileLeaf(group);
    ws.layoutRoot := node;
    leaf := LeafRef(node, tile, group);
    ws.tree := WorkspaceTree(Some(Leaf(leaf)), map[node := Record(node)]);
  }

  /** Seats a registered but detached leaf beside another. */
  method SeatLeaf(ws: Workspace, atNode: LayoutNode, leafNode: LayoutNode, d: Direction, r: real,
                  ghost at: LeafRef, ghost leaf: LeafRef) returns (split: LayoutNode)
    requires Mirrors(ws) && RegisteredAs(ws, ws.tree.Refs() + {leaf}, ws.tiles)
    requires at in ws.tree.Refs() && at.node == atNode && leaf.node == leafNode && leafNode !in ws.tree.records
    requires leafNode.kind == TileNode && leafNode.workspace == ws && leafNode.tile == leaf.tile
    modifies ws`layoutRoot, ws`tree, ws.tree.records.Keys`parent, ws.tree.records.Keys`first
    modifies ws.tree.records.Keys`second, leafNode`parent
    ensures LayoutOk(ws) && fresh(split)
    ensures ws.tree.shape == Some(Graft(old(ws.tree.shape).value, at, Beside(leaf, at, d, split, r)))
  {
    hide Mirrors;
    ghost var leaves := ws.tree.Refs() + {leaf};
    split := SeatBeside(ws, atNode, leafNode, d, r, at, leaf);
    assert ws.tree.Refs() == leaves;
  }

  /** A tile and leaf node for the group, registered but not yet in the tree. */
  method RegisterLeaf(group: Group) returns (node: LayoutNode, ghost leaf: LeafRef)
    requires LayoutOk(group.workspace) && group.tile == null
    modifies group`tile, group.workspace`tiles
    ensures var ws := group.workspace;
      && Mirrors(ws) && RegisteredAs(ws, ws.tree.Refs() + {leaf}, ws.tiles)
      && ws.tiles == old(ws.tiles) + [leaf.tile] && node !in ws.tree.records
    ensures leaf.node == node && leaf.group == group && fresh(node) && fresh(leaf.tile) && group.tile == leaf.tile
    ensures leaf.tile.group == group
    ensures node.kind == TileNode && node.workspace == group.workspace && node.tile == leaf.tile
  {
    var ws := group.workspace;
    ghost var tiles := ws.tiles;
    UntiledElsewhere(ws, group);
    var tile;
    node, tile := CreateTileLeaf(group);
    leaf := LeafRef(node, tile, group);
    assert RegisteredAs(ws, ws.tree.Refs(), tiles);
    RegistryGrows(ws, ws.tree.Refs(), tiles, leaf);
  }

  /** A further tile, seated after the anchor. */
  method AttachBeside(group: Group, o: Orientation, r: real) returns (ghost leaf: LeafRef, split: LayoutNode)
    requires LayoutOk(group.workspace) && ActiveSeated(group.workspace)
    requires group.tile == null && group.workspace.layoutRoot != null
    modifies group`tile, group.workspace`tiles, group.workspace`layoutRoot, group.workspace`tree
    modifies group.workspace.tree.records.Keys`parent, group.workspace.tree.records.Keys`first
    modifies group.workspace.tree.records.Keys`second
    ensures LayoutOk(group.workspace)
    ensures leaf.group == leaf.tile.group == group && fresh(leaf.node) && fresh(leaf.tile) && group.tile == leaf.tile
    ensures fresh(split)
    ensures group.workspace.tiles == old(group.workspace.tiles) + [leaf.tile]
    ensures var ws := group.workspace;
      && old(ws.tree.shape).Some? && old(AnchorOf(ws)) != null
      && ws.tree.shape == Some(Add(old(ws.tree.shape).value, old(RefOf(AnchorOf(ws))), leaf, split, o, r))
  {
    hide LayoutOk, RegisteredAs;
    var ws := group.workspace;
    var anchor := FindAnchorTile(ws);
    AnchorExists(ws);
    ghost var at := RefOf(anchor);
    var anchorNode := anchor.node;
    var node;
    node, leaf := RegisterLeaf(group);
    split := SeatLeaf(ws, anchorNode, node, After(o), r, at, leaf);
    JoinIsAdd(old(ws.tree.shape).value, at, leaf, split, o, r);
  }

  /** Gives the group a tile: the only one of an empty workspace, or the second child of a new split
      that takes the anchor's place.  A group that already has a tile is left alone. */
  method AddGroup(group: Group, o: Orientation, p: LayoutPolicy, usable: Box)
    returns (added: bool, ghost leaf: Option<LeafRef>, ghost split: Option<LayoutNode>)
    requires LayoutOk(group.workspace) && ActiveSeated(group.workspace)
    modifies group`tile, group.workspace`tiles, group.workspace`layoutRoot, group.workspace`tree
    modifies group.workspace.tree.records.Keys`parent, group.workspace.tree.records.Keys`first
    modifies group.workspace.tree.records.Keys`second, (set k | k in group.workspace.tiles)`box
    ensures added == (old(group.tile) == null)
    ensures LayoutOk(group.workspace)
    ensures var ws := group.workspace; !added ==>
      ws.tree == old(ws.tree) && ws.tiles == old(ws.tiles) && group.tile == old(group.tile)
    ensures var ws := group.workspace; added ==>
      && leaf.Some? && leaf.value.group == group && fresh(leaf.value.node) && fresh(leaf.value.tile)
      && group.tile == leaf.value.tile && group.tile.group == group && ws.tiles == old(ws.tiles) + [leaf.value.tile]
      && (old(ws.tree.shape) == None ==> ws.tree.shape == Some(Leaf(leaf.value)))
      && (old(ws.tree.shape).Some? ==>
            && old(AnchorOf(ws)) != null && split.Some? && fresh(split.value)
            && ws.tree.shape == Some(Add(old(ws.tree.shape).value, old(RefOf(AnchorOf(ws))), leaf.value, split.value, o, p.initialRatio)))
      && (usable.Positive() ==> LaidOut(ws.tree.shape.value, InsetOuterGap(p.outerGap, usable), p))
  {
    leaf, split := None, None;
    added := group.tile == null;
    if added {
      if group.workspace.layoutRoot == null {
        ghost var l := AttachFirst(group);
        leaf := Some(l);
      } else {
        var l, k := AttachBeside(group, o, p.initialRatio);
        leaf, split := Some(l), Some(k);
      }
      ReflowWorkspace(group.workspace, usable, p);
    }
  }

  /** Drops a tile from the registry. */
  method UnlinkTile(ws: Workspace, tile: Tile, ghost l: LeafRef)
    requires RegisteredAs(ws, ws.tree.Refs() + {l}, ws.tiles) && l !in ws.tree.Refs() && l == RefOf(tile)
    requires forall m :: m in ws.tree.Refs() ==> m.tile != tile
    modifies ws`tiles
    ensures RegisteredAs(ws, ws.tree.Refs(), ws.tiles)
    ensures ws.tiles == Without<Tile>(old(ws.tiles), tile) && tile !in ws.tiles
    ensures forall k :: k in ws.tiles ==> k.group != tile.group
  {
    RegistryShrinks(ws, ws.tree.Refs() + {l}, ws.tiles, l);
    assert ws.tree.Refs() + {l} - {l} == ws.tree.Refs();
    WithoutMember<Tile>(ws.tiles, tile, tile);
    forall k | k in Without<Tile>(ws.tiles, tile) ensures k.group != tile.group {
      WithoutMember<Tile>(ws.tiles, tile, k);
      assert Seated(RefOf(k), ws) && Seated(l, ws);
    }
    ws.tiles := Without<Tile>(ws.tiles, tile);
  }

  /** Takes the leaf of a tile out of tree and registry; the leaf itself stays as it is. */
  method DetachLeaf(ws: Workspace, tile: Tile)
    requires LayoutOk(ws) && tile in ws.tiles
    modifies ws`tiles, ws`layoutRoot, ws`tree, ws.tree.records.Keys`parent, ws.tree.records.Keys`first
    modifies ws.tree.records.Keys`second
    ensures LayoutOk(ws)
    ensures var l := RefOf(tile);
      && l in old(ws.tree.Refs()) && ws.tree == Cut(old(ws.tree), l)
      && Record(tile.node) == old(Record(tile.node)) && tile.node.kind == TileNode && tile.node.tile == tile
    ensures ws.tiles == Without<Tile>(old(ws.tiles), tile) && tile !in ws.tiles
    ensures forall k :: k in ws.tiles ==> k.group != tile.group
  {
    hide Cut, LeafSet, Without;
    var node := tile.node;
    ghost var l, leaves := RefOf(tile), ws.tree.Refs();
    LeafPlace(ws.tree, l);
    assert Record(node) == ws.tree.records[node];
    if node.kind != TileNode {
      assert false;
    }
    assert forall m :: m in leaves && m != l ==> m.tile != tile;
    CutLeaf(ws, node, l);
    assert ws.tree.Refs() + {l} == leaves;
    UnlinkTile(ws, tile, l);
  }

  /** Takes the group's tile away; a group without a tile is left alone. */
  method RemoveGroup(group: Group, p: LayoutPolicy, usable: Box)
    requires LayoutOk(group.workspace)
    requires group.tile != null ==> group.tile in group.workspace.tiles && group.tile.group == group
    modifies group`tile, group.workspace`tiles, group.workspace`layoutRoot, group.workspace`tree
    modifies group.workspace.tree.records.Keys`parent, group.workspace.tree.records.Keys`first
    modifies group.workspace.tree.records.Keys`second, (set k | k in group.workspace.tiles)`box
    ensures group.tile == null && LayoutOk(group.workspace)
    ensures var ws := group.workspace; old(group.tile) == null ==>
      ws.tree == old(ws.tree) && ws.tiles == old(ws.tiles)
    ensures var ws := group.workspace; old(group.tile) != null ==>
      && old(ws.tree.shape).Some?
      && ws.tree.shape == Remove(old(ws.tree.shape).value, old(RefOf(group.tile)))
      && ws.tiles == Without<Tile>(old(ws.tiles), old(RefOf(group.tile)).tile)
      && (ws.tree.shape.Some? && usable.Positive() ==> LaidOut(ws.tree.shape.value, InsetOuterGap(p.outerGap, usable), p))
  {
    hide Mirrors;
    if group.tile == null {
      return;
    }
    DetachLeaf(group.workspace, group.tile);
    group.tile := null;
    ReflowWorkspace(group.workspace, usable, p);
  }

  // ----- moving a group within its workspace

  /** A group's tile, when it has one, is registered in its workspace under that group. */
  ghost predicate Enlisted(group: Group)
    reads group, group.workspace`tiles, if group.tile == null then {} else {group.tile}
  {
    group.tile != null ==> group.tile in group.workspace.tiles && group.tile.group == group
  }

  lemma NeverAlone(w: SoundTree, l: LeafRef, m: LeafRef)
    requires l in w.Refs() && m in w.Refs() && l != m
    ensures w.shape.value != Leaf(l) && m in Cut(w, l).Refs()
  {
    ApartIsDistinct(w.shape.value);
    RemoveEmpties(w.shape.value, l);
  }

  /** Takes a leaf out of the tree but leaves it registered. */
  method LiftLeaf(ws: Workspace, tile: Tile)
    requires LayoutOk(ws) && tile in ws.tiles
    modifies ws`layoutRoot, ws`tree, ws.tree.records.Keys`parent, ws.tree.records.Keys`first
    modifies ws.tree.records.Keys`second
    ensures var l := RefOf(tile);
      && l in old(ws.tree.Refs()) && ws.tree == Cut(old(ws.tree), l)
      && Mirrors(ws) && RegisteredAs(ws, ws.tree.Refs() + {l}, ws.tiles)
    ensures tile.node.kind == TileNode && tile.node.workspace == ws && tile.node.tile == tile
    ensures tile.node.parent == null
  {
    ghost var leaves, l := ws.tree.Refs(), RefOf(tile);
    var leaf := tile.node;
    LeafPlace(ws.tree, l);
    assert Record(leaf) == ws.tree.records[leaf];
    CutLeaf(ws, leaf, l);
    leaf.parent := null;
    assert ws.tree.Refs() + {l} == leaves;
  }

  /** Takes a leaf out and seats it again beside `target`. */
  method ReseatLeaf(ws: Workspace, tile: Tile, target: Tile, d: Direction, r: real) returns (split: LayoutNode)
    requires LayoutOk(ws) && tile in ws.tiles && target in ws.tiles && tile != target
    modifies ws`layoutRoot, ws`tree, ws.tree.records.Keys`parent, ws.tree.records.Keys`first
    modifies ws.tree.records.Keys`second
    ensures LayoutOk(ws) && fresh(split)
    ensures old(ws.tree.shape).Some?
    ensures ws.tree.shape == Some(Relocate(old(ws.tree.shape).value, RefOf(tile), RefOf(target), d, split, r))
  {
    ghost var l, at := RefOf(tile), RefOf(target);
    NeverAlone(ws.tree, l, at);
    LeafPlace(ws.tree, l);
    LiftLeaf(ws, tile);
    split := SeatLeaf(ws, target.node, tile.node, d, r, at, l);
  }

  /** Moves the group's tile beside the target's: before it for left and up, after it for right and
      down.  Refused without effect unless both are tiled, distinct and in one workspace. */
  method MoveGroupRelative(group: Group, target: Group, d: Direction, p: LayoutPolicy, usable: Box)
    returns (moved: bool, ghost split: Option<LayoutNode>)
    requires LayoutOk(group.workspace) && Enlisted(group) && Enlisted(target)
    modifies group.workspace`layoutRoot, group.workspace`tree, group.workspace.tree.records.Keys`parent
    modifies group.workspace.tree.records.Keys`first, group.workspace.tree.records.Keys`second
    modifies (set k | k in group.workspace.tiles)`box
    ensures LayoutOk(group.workspace)
    ensures moved == (group != target && group.workspace == target.workspace && group.tile != null && target.tile != null)
    ensures !moved ==> group.workspace.tree == old(group.workspace.tree)
    ensures var ws := group.workspace; moved ==>
      && old(ws.tree.shape).Some? && split.Some? && fresh(split.value)
      && ws.tree.shape == Some(Relocate(old(ws.tree.shape).value, RefOf(group.tile), RefOf(target.tile), d, split.value, p.initialRatio))
      && (usable.Positive() ==> LaidOut(ws.tree.shape.value, InsetOuterGap(p.outerGap, usable), p))
  {
    split := None;
    if group == target || group.workspace != target.workspace || group.tile == null || target.tile == null {
      return false, None;
    }
    var k := ReseatLeaf(group.workspace, group.tile, target.tile, d, p.initialRatio);
    ReflowWorkspace(group.workspace, usable, p);
    return true, Some(k);
  }

  // ----- moving a group to another workspace

  /** Nodes, tiles and groups of two workspaces are distinct. */
  lemma WorkspacesApart(a: Workspace, b: Workspace)
    requires LayoutOk(a) && LayoutOk(b) && a != b
    ensures a.tree.records.Keys !! b.tree.records.Keys
    ensures forall k :: k in a.tiles ==> k !in b.tiles
    ensures forall k, j :: k in a.tiles && j in b.tiles ==> k.group != j.group
  {
    forall n | n in a.tree.records ensures n !in b.tree.records {
      assert n.workspace == a;
    }
    forall k | k in a.tiles ensures k !in b.tiles {
      assert Seated(RefOf(k), a);
    }
  }

  /** Hands a detached leaf over to another workspace and registers it there. */
  method Rehome(group: Group, tile: Tile, target: Workspace)
    requires tile.group == group && group.tile == tile && tile.node.kind == TileNode && tile.node.tile == tile
    requires LayoutOk(target) && tile.node !in target.tree.records && tile !in target.tiles
    requires forall k :: k in target.tiles ==> k.group != group
    modifies group`workspace, tile`workspace, tile.node`parent, tile.node`workspace, target`tiles
    ensures group.workspace == target
    ensures Mirrors(target) && RegisteredAs(target, target.tree.Refs() + {RefOf(tile)}, target.tiles)
    ensures target.tiles == old(target.tiles) + [tile]
    ensures Record(tile.node) == old(Record(tile.node)).(workspace := target, parent := null)
  {
    ghost var tiles := target.tiles;
    group.workspace := target;
    tile.workspace := target;
    tile.node.workspace := target;
    tile.node.parent := null;
    assert RegisteredAs(target, target.tree.Refs(), tiles);
    RegistryGrows(target, target.tree.Refs(), tiles, RefOf(tile));
    target.tiles := target.tiles + [tile];
  }

  /** The tree after `leaf` arrived in a workspace whose anchor is `anchor`. */
  ghost function Arrived(shape: Option<Shape>, anchor: Option<LeafRef>, leaf: LeafRef, split: Option<LayoutNode>,
                         o: Orientation, r: real): Option<Shape>
  {
    match (shape, anchor, split)
    case (None, _, _) => Some(Leaf(leaf))
    case (Some(t), Some(at), Some(k)) => Some(Add(t, at, leaf, k, o, r))
    case _ => None
  }

  ghost function AnchorRef(anchor: Tile?): Option<LeafRef>
    reads (if anchor == null then {} else {anchor})`node, (if anchor == null then {} else {anchor})`group
  {
    if anchor == null then None else Some(RefOf(anchor))
  }

  /** Seats a leaf that arrived from another workspace: as the whole tree, or after the anchor. */
  method ReceiveLeaf(ws: Workspace, tile: Tile, anchor: Tile?, o: Orientation, r: real)
    returns (ghost split: Option<LayoutNode>)
    requires Mirrors(ws) && RegisteredAs(ws, ws.tree.Refs() + {RefOf(tile)}, ws.tiles)
    requires tile.node.kind == TileNode && tile.node.workspace == ws && tile.node.tile == tile
    requires tile.node.parent == null
    requires tile.node !in ws.tree.records
    requires if ws.layoutRoot == null then anchor == null else anchor != null && RefOf(anchor) in ws.tree.Refs()
    modifies ws`layoutRoot, ws`tree, ws.tree.records.Keys`parent, ws.tree.records.Keys`first
    modifies ws.tree.records.Keys`second, tile.node`parent
    ensures LayoutOk(ws)
    ensures ws.tree.shape == Arrived(old(ws.tree.shape), AnchorRef(anchor), RefOf(tile), split, o, r)
    ensures ws.tree.shape.Some? && (split.Some? ==> fresh(split.value))
  {
    if anchor == null {
      assert ws.tree.Refs() + {RefOf(tile)} == {RefOf(tile)};
      ws.layoutRoot := tile.node;
      ws.tree := WorkspaceTree(Some(Leaf(RefOf(tile))), map[tile.node := Record(tile.node)]);
      split := None;
    } else {
      var k := SeatLeaf(ws, anchor.node, tile.node, After(o), r, RefOf(anchor), RefOf(tile));
      JoinIsAdd(old(ws.tree.shape).value, RefOf(anchor), RefOf(tile), k, o, r);
      split := Some(k);
    }
  }

  /** `DetachLeaf`, with another workspace left in order. */
  method DetachLeafBeside(ws: Workspace, tile: Tile, ghost other: Workspace)
    requires LayoutOk(ws) && LayoutOk(other) && ws != other && tile in ws.tiles
    modifies ws`tiles, ws`layoutRoot, ws`tree, ws.tree.records.Keys`parent, ws.tree.records.Keys`first
    modifies ws.tree.records.Keys`second
    ensures LayoutOk(ws) && LayoutOk(other)
    ensures var l := RefOf(tile);
      && l in old(ws.tree.Refs()) && ws.tree == Cut(old(ws.tree), l)
      && tile.node.kind == TileNode && tile.node.tile == tile && tile.node in old(ws.tree.records)
    ensures ws.tiles == Without<Tile>(old(ws.tiles), tile) && tile !in ws.tiles
    ensures forall k :: k in ws.tiles ==> k.group != tile.group
  {
    WorkspacesApart(ws, other);
    LeafPlace(ws.tree, RefOf(tile));
    DetachLeaf(ws, tile);
  }

  /** `Rehome`, with another workspace left in order. */
  method RehomeBeside(group: Group, tile: Tile, target: Workspace, ghost other: Workspace)
    requires tile.group == group && group.tile == tile && tile.node.kind == TileNode && tile.node.tile == tile
    requires LayoutOk(target) && tile.node !in target.tree.records && tile !in target.tiles
    requires forall k :: k in target.tiles ==> k.group != group
    requires LayoutOk(other) && target != other && tile.node !in other.tree.records && tile !in other.tiles
    requires forall k :: k in other.tiles ==> k.group != group
    modifies group`workspace, tile`workspace, tile.node`parent, tile.node`workspace, target`tiles
    ensures group.workspace == target && LayoutOk(other)
    ensures Mirrors(target) && RegisteredAs(target, target.tree.Refs() + {RefOf(tile)}, target.tiles)
    ensures target.tiles == old(target.tiles) + [tile]
    ensures tile.node.kind == TileNode && tile.node.workspace == target && tile.node.tile == tile
    ensures tile.node.parent == null
  {
    Rehome(group, tile, target);
  }

  /** `ReceiveLeaf`, with another workspace left in order. */
  method ReceiveLeafBeside(ws: Workspace, tile: Tile, anchor: Tile?, o: Orientation, r: real, ghost other: Workspace)
    returns (ghost split: Option<LayoutNode>)
    requires Mirrors(ws) && RegisteredAs(ws, ws.tree.Refs() + {RefOf(tile)}, ws.tiles)
    requires tile.node.kind == TileNode && tile.node.workspace == ws && tile.node.tile == tile
    requires tile.node.parent == null
    requires tile.node !in ws.tree.records
    requires if ws.layoutRoot == null then anchor == null else anchor != null && RefOf(anchor) in ws.tree.Refs()
    requires LayoutOk(other) && ws != other && tile.node !in other.tree.records
    modifies ws`layoutRoot, ws`tree, ws.tree.records.Keys`parent, ws.tree.records.Keys`first
    modifies ws.tree.records.Keys`second, tile.node`parent
    ensures LayoutOk(ws) && LayoutOk(other)
    ensures ws.tree.shape == Arrived(old(ws.tree.shape), AnchorRef(anchor), RefOf(tile), split, o, r)
    ensures ws.tree.shape.Some? && (split.Some? ==> fresh(split.value))
  {
    hide RegisteredAs;
    forall n | n in other.tree.records ensures n !in ws.tree.records {
      assert n.workspace == other;
    }
    split := ReceiveLeaf(ws, tile, anchor, o, r);
  }

  /** Takes the group's leaf out of its workspace and registers it in `target`. */
  method Depart(group: Group, tile: Tile, source: Workspace, target: Workspace)
    requires group.workspace == source && LayoutOk(source) && LayoutOk(target) && source != target
    requires group.tile == tile && tile in source.tiles && tile.group == group
    modifies group`workspace, source`tiles, source`layoutRoot, source`tree, source.tree.records.Keys`parent
    modifies source.tree.records.Keys`first, source.tree.records.Keys`second
    modifies tile`workspace, tile.node`workspace, target`tiles
    ensures group.workspace == target && LayoutOk(source)
    ensures RefOf(tile) in old(source.tree.Refs()) && source.tree == Cut(old(source.tree), RefOf(tile))
    ensures source.tiles == Without<Tile>(old(source.tiles), tile) && tile.node !in source.tree.records
    ensures Mirrors(target) && RegisteredAs(target, target.tree.Refs() + {RefOf(tile)}, target.tiles)
    ensures target.tiles == old(target.tiles) + [tile] && tile.node !in target.tree.records
    ensures tile.node.kind == TileNode && tile.node.workspace == target && tile.node.tile == tile
    ensures tile.node.parent == null
    ensures tile.node in old(source.tree.records)
  {
    WorkspacesApart(source, target);
    LeafPlace(source.tree, RefOf(tile));
    DetachLeafBeside(source, tile, target);
    RehomeBeside(group, tile, target, source);
  }

  /** A workspace without a tree has no registered tile. */
  lemma EmptyRegistry(ws: Workspace)
    requires LayoutOk(ws) && ws.layoutRoot == null
    ensures ws.tree.shape == None && ws.tiles == []
  {
    HeadIsMember(ws.tiles);
  }

  /** The anchor a migrating tile is seated after; none in an empty workspace. */
  method MigrationAnchor(ws: Workspace) returns (anchor: Tile?)
    requires LayoutOk(ws) && ActiveSeated(ws)
    ensures anchor == AnchorOf(ws) && (anchor == null <==> ws.layoutRoot == null)
    ensures (anchor == null <==> ws.tree.shape == None)
    ensures anchor != null ==> RefOf(anchor) in ws.tree.Refs()
  {
    if ws.layoutRoot == null {
      EmptyRegistry(ws);
      return null;
    }
    AnchorExists(ws);
    anchor := FindAnchorTile(ws);
  }

  /** Takes the group's leaf out of its workspace and seats it in `target`. */
  method Migrate(group: Group, tile: Tile, source: Workspace, target: Workspace, o: Orientation, r: real)
    returns (ghost at: Option<LeafRef>, ghost split: Option<LayoutNode>)
    requires group.workspace == source && LayoutOk(source) && LayoutOk(target) && ActiveSeated(target)
    requires source != target
    requires group.tile == tile && tile in source.tiles && tile.group == group
    modifies group`workspace, source`tiles, source`layoutRoot, source`tree, source.tree.records.Keys`parent
    modifies source.tree.records.Keys`first, source.tree.records.Keys`second
    modifies tile`workspace, tile.node`workspace, target`tiles, target`layoutRoot, target`tree
    modifies target.tree.records.Keys`parent, target.tree.records.Keys`first, target.tree.records.Keys`second
    ensures LayoutOk(source) && LayoutOk(target)
    ensures RefOf(tile) == old(RefOf(tile)) && old(RefOf(tile)) in old(source.tree.Refs())
    ensures (source.tree, source.tiles, group.workspace) ==
            (Cut(old(source.tree), old(RefOf(tile))), Without<Tile>(old(source.tiles), tile), target)
    ensures (target.tiles, at) == (old(target.tiles) + [tile], old(AnchorRef(AnchorOf(target))))
    ensures target.tree.shape.Some? && (split.Some? ==> fresh(split.value))
    ensures target.tree.shape == Arrived(old(target.tree.shape), at, old(RefOf(tile)), split, o, r)
  {
    hide Mirrors, Arrived;
    var anchor := MigrationAnchor(target);
    at := AnchorRef(anchor);
    Depart(group, tile, source, target);
    split := ReceiveLeafBeside(target, tile, anchor, o, r, source);
  }

  /** The workspace is laid out in what `usable` leaves inside the outer gap; nothing is claimed of one
      without a tree or without a usable area. */
  ghost predicate LaidOutIn(ws: Workspace, usable: Box, p: LayoutPolicy)
    reads ws`tree, if ws.tree.shape.None? then {} else (set l | l in LeafSet(ws.tree.shape.value) :: l.tile)
  {
    ws.tree.shape.Some? && usable.Positive() ==> LaidOut(ws.tree.shape.value, InsetOuterGap(p.outerGap, usable), p)
  }

  /** Lays out `ws` without disturbing the layout of `other`. */
  method ReflowBeside(ws: Workspace, other: Workspace, usable: Box, ghost usableOther: Box, p: LayoutPolicy)
    requires LayoutOk(ws) && LayoutOk(other) && ws != other && LaidOutIn(other, usableOther, p)
    modifies (set k | k in ws.tiles)`box
    ensures LayoutOk(ws) && LayoutOk(other) && LaidOutIn(ws, usable, p) && LaidOutIn(other, usableOther, p)
  {
    WorkspacesApart(ws, other);
    assert forall l :: l in other.tree.Refs() ==> l.tile in other.tiles;
    ReflowWorkspace(ws, usable, p);
  }

  method ReflowBoth(source: Workspace, target: Workspace, usableSource: Box, usableTarget: Box, p: LayoutPolicy)
    requires LayoutOk(source) && LayoutOk(target) && source != target
    modifies (set k | k in source.tiles)`box, (set k | k in target.tiles)`box
    ensures LayoutOk(source) && LayoutOk(target)
    ensures LaidOutIn(source, usableSource, p) && LaidOutIn(target, usableTarget, p)
  {
    ReflowWorkspace(source, usableSource, p);
    ReflowBeside(target, source, usableTarget, usableSource, p);
  }

  /** `Migrate`, then both workspaces laid out again. */
  method MigrateAndReflow(group: Group, tile: Tile, source: Workspace, target: Workspace, o: Orientation,
      p: LayoutPolicy,
                          usableSource: Box, usableTarget: Box)
    returns (ghost at: Option<LeafRef>, ghost split: Option<LayoutNode>)
    requires group.workspace == source && LayoutOk(source) && LayoutOk(target) && ActiveSeated(target)
    requires source != target
    requires group.tile == tile && tile in source.tiles && tile.group == group
    modifies group`workspace, source`tiles, source`layoutRoot, source`tree
    modifies source.tree.records.Keys`parent, source.tree.records.Keys`first, source.tree.records.Keys`second
    modifies (set k | k in source.tiles :: k.node)`workspace, (set k | k in source.tiles)`workspace
    modifies (set k | k in source.tiles)`box
    modifies target`tiles, target`layoutRoot, target`tree
    modifies target.tree.records.Keys`parent, target.tree.records.Keys`first, target.tree.records.Keys`second
    modifies (set k | k in target.tiles)`box
    ensures LayoutOk(source) && LayoutOk(target)
    ensures RefOf(tile) == old(RefOf(tile)) && old(RefOf(tile)) in old(source.tree.Refs())
    ensures (source.tree, source.tiles, group.workspace) ==
            (Cut(old(source.tree), old(RefOf(tile))), Without<Tile>(old(source.tiles), tile), target)
    ensures (target.tiles, at) == (old(target.tiles) + [tile], old(AnchorRef(AnchorOf(target))))
    ensures target.tree.shape.Some? && (split.Some? ==> fresh(split.value))
    ensures target.tree.shape == Arrived(old(target.tree.shape), at, old(RefOf(tile)), split, o, p.initialRatio)
    ensures LaidOutIn(source, usableSource, p) && LaidOutIn(target, usableTarget, p)
  {
    at, split := Migrate(group, tile, source, target, o, p.initialRatio);
    ReflowBoth(source, target, usableSource, usableTarget, p);
  }

  /** Moves a tiled group, tile and all, to another workspace: deleted from its tree, and added after
      the anchor of the other.  Refused without effect for a group without a tile or already there. */
  method MoveGroupToWorkspace(group: Group, target: Workspace, o: Orientation, p: LayoutPolicy,
                              usableSource: Box, usableTarget: Box)
    returns (moved: bool, ghost at: Option<LeafRef>, ghost split: Option<LayoutNode>)
    requires LayoutOk(group.workspace) && LayoutOk(target) && ActiveSeated(target) && Enlisted(group)
    modifies group`workspace, group.workspace`tiles, group.workspace`layoutRoot, group.workspace`tree
    modifies group.workspace.tree.records.Keys`parent, group.workspace.tree.records.Keys`first
    modifies group.workspace.tree.records.Keys`second
    modifies (set k | k in group.workspace.tiles :: k.node)`workspace, (set k | k in group.workspace.tiles)`workspace
    modifies (set k | k in group.workspace.tiles)`box
    modifies target`tiles, target`layoutRoot, target`tree
    modifies target.tree.records.Keys`parent, target.tree.records.Keys`first, target.tree.records.Keys`second
    modifies (set k | k in target.tiles)`box
    ensures moved == (old(group.tile) != null && old(group.workspace) != target)
    ensures LayoutOk(old(group.workspace)) && LayoutOk(target) && group.tile == old(group.tile)
    ensures !moved ==>
      ((group.workspace, target.tree, group.workspace.tree, target.tiles) ==
       old((group.workspace, target.tree, group.workspace.tree, target.tiles)))
    ensures moved ==> RefOf(group.tile) in old(group.workspace.tree.Refs()) && group.workspace == target
    ensures moved ==>
      (old(group.workspace).tree, old(group.workspace).tiles) ==
      (Cut(old(group.workspace.tree), RefOf(group.tile)),
          Without<Tile>(old(group.workspace.tiles), RefOf(group.tile).tile))
    ensures moved ==>
      (target.tiles, at) == (old(target.tiles) + [RefOf(group.tile).tile], old(AnchorRef(AnchorOf(target))))
    ensures moved ==> target.tree.shape.Some? && (split.Some? ==> fresh(split.value))
    ensures moved ==>
      target.tree.shape == Arrived(old(target.tree.shape), at, RefOf(group.tile), split, o, p.initialRatio)
    ensures moved ==> LaidOutIn(old(group.workspace), usableSource, p) && LaidOutIn(target, usableTarget, p)
  {
    at, split := None, None;
    moved := group.tile != null && group.workspace != target;
    if moved {
      at, split := MigrateAndReflow(group, group.tile, group.workspace, target, o, p, usableSource, usableTarget);
    }
  }
}
