/** Changing ratios and orientations, exchanging groups, and resolving resize handles, on the heap. */
module LayoutResize {
  import opened Seqs
  import opened LayoutTree
  import opened LayoutHandle
  import opened Geometry
  import opened PointerResize
  import opened Desktop
  import opened LayoutShape
  import opened LayoutSpine
  import opened Layout

  // ----- climbing

  /** Whether `ancestor` is `node` or above it. */
  method IsAncestor(ws: Workspace, ancestor: LayoutNode?, node: LayoutNode, ghost l: LeafRef) returns (above: bool)
    requires Mirrors(ws) && l in ws.tree.Refs() && l.node == node
    ensures above == Over(ws.tree.shape.value, ancestor, l)
  {
    ghost var s := Spine(ws.tree.shape.value, l);
    SpineLinks(ws.tree.records, ws.tree.shape.value, null, l);
    assert Record(node) == ws.tree.records[node];
    if node == ancestor {
      return true;
    }
    var at := node.parent;
    ghost var i := |s|;
    while at != null
      invariant 0 <= i <= |s| && at == if i == 0 then null else s[i - 1]
      invariant forall j :: i <= j < |s| ==> s[j] != ancestor
      decreases i
    {
      if at == ancestor {
        return true;
      }
      assert Record(at) == ws.tree.records[at];
      at := at.parent;
      i := i - 1;
    }
    return false;
  }

  /** The lowest split of orientation `o` above a tile. */
  method FindResizeSplit(ws: Workspace, tile: Tile, o: Orientation) returns (found: LayoutNode?)
    requires Mirrors(ws) && RefOf(tile) in ws.tree.Refs()
    ensures NearestSplit(ws.tree.shape.value, RefOf(tile), o) == if found == null then None else Some(found)
  {
    ghost var t, l := ws.tree.shape.value, RefOf(tile);
    ghost var s := Spine(t, l);
    SpineLinks(ws.tree.records, t, null, l);
    assert Record(tile.node) == ws.tree.records[tile.node];
    var node := tile.node.parent;
    ghost var i := |s|;
    while node != null
      invariant 0 <= i <= |s| && node == if i == 0 then null else s[i - 1]
      invariant forall j :: i <= j < |s| ==> ws.tree.records[s[j]].orientation != o
      decreases i
    {
      assert Record(node) == ws.tree.records[node];
      if node.kind == SplitNode && node.orientation == o {
        ClimbFindsNearest(ws.tree.records, t, null, l, o, i);
        return node;
      }
      node := node.parent;
      i := i - 1;
    }
    ClimbFindsNearest(ws.tree.records, t, null, l, o, 0);
    return null;
  }

  /** A resize handle: the groups first met in the two sides of a split, and its orientation. */
  datatype ResizeTarget = ResizeTarget(first: nat, second: nat, orientation: Orientation)

  /** `g` is the first group of the list with the id; null when there is none. */
  ghost predicate FirstById(groups: seq<Group>, id: nat, g: Group?)
    reads (set h | h in groups)`id
  {
    if g == null then forall h :: h in groups ==> h.id != id
    else exists i :: 0 <= i < |groups| && groups[i] == g && g.id == id && forall j :: 0 <= j < i ==> groups[j].id != id
  }

  method GroupById(groups: seq<Group>, id: nat) returns (found: Group?)
    ensures FirstById(groups, id, found)
  {
    for i := 0 to |groups|
      invariant forall j :: 0 <= j < i ==> groups[j].id != id
    {
      if groups[i].id == id {
        return groups[i];
      }
    }
    return null;
  }

  /** The split a handle names, looked for upwards from the first group. */
  method ResolveSplit(ws: Workspace, x: Tile, y: Tile, o: Orientation) returns (found: LayoutNode?)
    requires Mirrors(ws) && RefOf(x) in ws.tree.Refs() && RefOf(y) in ws.tree.Refs()
    ensures Resolve(ws.tree.shape.value, RefOf(x), RefOf(y), o) == if found == null then None else Some(found)
  {
    ghost var t, l, k := ws.tree.shape.value, RefOf(x), RefOf(y);
    ghost var s := Spine(t, l);
    SpineLinks(ws.tree.records, t, null, l);
    SpineInside(t, l);
    assert Record(x.node) == ws.tree.records[x.node];
    var node := x.node.parent;
    ghost var i := |s|;
    while node != null
      invariant 0 <= i <= |s| && node == if i == 0 then null else s[i - 1]
      invariant forall j :: i <= j < |s| ==> !Separates(t, s[j], l, k, o)
      decreases i
    {
      assert Record(node) == ws.tree.records[node];
      SubtreeLinks(ws.tree.records, t, null, node);
      SidesAreOver(t, node, l);
      SidesAreOver(t, node, k);
      if node.kind == SplitNode && node.orientation == o {
        var below := IsAncestor(ws, node.first, x.node, l);
        if below {
          below := IsAncestor(ws, node.second, y.node, k);
          if below {
            ClimbResolves(t, l, k, o, Some(node));
            return node;
          }
        }
      }
      node := node.parent;
      i := i - 1;
    }
    ClimbResolves(t, l, k, o, None);
    return null;
  }

  // ----- rewriting one split

  lemma {:induction false} ReframeLinks(m: Records, t: Shape, parent: LayoutNode?, k: LayoutNode, f: Frame)
    requires Apart(t) && Linked(m, t, parent) && k in SplitSet(t) && k in m
    ensures Linked(m[k := m[k].(orientation := f.orientation, ratio := f.ratio)], Reframe(t, k, f), parent)
    ensures Root(Reframe(t, k, f)) == Root(t)
  {
    var m' := m[k := m[k].(orientation := f.orientation, ratio := f.ratio)];
    var a, b := t.first, t.second;
    SplitsAreNodes(a);
    SplitsAreNodes(b);
    NodesRecorded(m, a, t.id);
    NodesRecorded(m, b, t.id);
    if t.id == k {
      LinksCarryOver(m, m', a, k);
      LinksCarryOver(m, m', b, k);
    } else if k in SplitSet(a) {
      ReframeLinks(m, a, t.id, k, f);
      ReframeElsewhere(b, k, f);
      LinksCarryOver(m, m', b, t.id);
    } else {
      ReframeElsewhere(a, k, f);
      LinksCarryOver(m, m', a, t.id);
      ReframeLinks(m, b, t.id, k, f);
    }
  }

  lemma {:induction false} NodesRecorded(m: Records, t: Shape, parent: LayoutNode?)
    requires Linked(m, t, parent)
    ensures forall n :: n in Nodes(t) ==> n in m
  {
    if t.Split? {
      NodesRecorded(m, t.first, t.id);
      NodesRecorded(m, t.second, t.id);
    }
  }

  lemma {:induction false} ReframeNodes(t: Shape, k: LayoutNode, f: Frame)
    requires Apart(t)
    ensures Apart(Reframe(t, k, f)) && Nodes(Reframe(t, k, f)) == Nodes(t) && LeafSet(Reframe(t, k, f)) == LeafSet(t)
  {
    if t.Split? && t.id != k {
      ReframeNodes(t.first, k, f);
      ReframeNodes(t.second, k, f);
    }
  }

  lemma {:induction false} ReframeSame<S, L>(t: Tree<S, L>, k: S)
    requires Distinct(t) && FrameOf(t, k).Some?
    ensures Reframe(t, k, FrameOf(t, k).value) == t
  {
    if t.id != k {
      FramesAreSplitSet(t.first, k);
      FramesAreSplitSet(t.second, k);
      if FrameOf(t.first, k).Some? {
        ReframeSame(t.first, k);
        ReframeElsewhere(t.second, k, FrameOf(t, k).value);
      } else {
        ReframeElsewhere(t.first, k, FrameOf(t, k).value);
        ReframeSame(t.second, k);
      }
    }
  }

  /** The tree with another frame on split `k`. */
  ghost function Reframed(w: SoundTree, k: LayoutNode, f: Frame): (w': SoundTree)
    requires w.shape.Some? && k in SplitSet(w.shape.value)
    ensures w'.shape == Some(Reframe(w.shape.value, k, f)) && w'.Refs() == w.Refs() && w'.Top() == w.Top()
    ensures k in w.records
    ensures w'.records == w.records[k := w.records[k].(orientation := f.orientation, ratio := f.ratio)]
  {
    SubtreeLinks(w.records, w.shape.value, null, k);
    ReframeNodes(w.shape.value, k, f);
    ReframeLinks(w.records, w.shape.value, null, k, f);
    WorkspaceTree(Some(Reframe(w.shape.value, k, f)),
                  w.records[k := w.records[k].(orientation := f.orientation, ratio := f.ratio)])
  }

  lemma ReframedOk(ws: Workspace, w: SoundTree, split: LayoutNode, f: Frame)
    requires w.shape.Some? && split in SplitSet(w.shape.value) && split in w.records
    requires ws.tree == Reframed(w, split, f) && ws.layoutRoot == w.Top() && RegisteredAs(ws, w.Refs(), ws.tiles)
    requires Record(split) == w.records[split].(orientation := f.orientation, ratio := f.ratio) && split.workspace == ws
    requires forall n :: n in w.records && n != split ==> Record(n) == w.records[n] && n.workspace == ws
    ensures LayoutOk(ws)
  {
  }

  method WriteFrame(split: LayoutNode, f: Frame)
    modifies split`orientation, split`ratio
    ensures Record(split) == old(Record(split)).(orientation := f.orientation, ratio := f.ratio)
  {
    split.orientation := f.orientation;
    split.ratio := f.ratio;
  }

  method SetFrame(ws: Workspace, split: LayoutNode, f: Frame)
    requires LayoutOk(ws) && ws.tree.shape.Some? && split in SplitSet(ws.tree.shape.value)
    modifies ws`tree, split`orientation, split`ratio
    ensures LayoutOk(ws) && ws.tree == Reframed(old(ws.tree), split, f)
  {
    hide Reframe, SplitSet;
    ghost var w := ws.tree;
    SubtreeLinks(w.records, w.shape.value, null, split);
    assert Record(split) == w.records[split];
    WriteFrame(split, f);
    ws.tree := Reframed(w, split, f);
    ReframedOk(ws, w, split, f);
  }

  /** Writes a split's frame and lays the workspace out again. */
  method Rewrite(ws: Workspace, split: LayoutNode, f: Frame, p: LayoutPolicy, usable: Box)
    requires LayoutOk(ws) && ws.tree.shape.Some? && split in SplitSet(ws.tree.shape.value)
    modifies ws`tree, split`orientation, split`ratio, (set k | k in ws.tiles)`box
    ensures LayoutOk(ws) && ws.tree.shape == Some(Reframe(old(ws.tree.shape).value, split, f))
    ensures usable.Positive() ==> LaidOut(ws.tree.shape.value, InsetOuterGap(p.outerGap, usable), p)
  {
    SetFrame(ws, split, f);
    ReflowWorkspace(ws, usable, p);
  }

  /** The split right above a tile, with its frame; none for a tile that is the whole tree. */
  method SplitAbove(ws: Workspace, tile: Tile) returns (split: Option<LayoutNode>)
    requires LayoutOk(ws) && tile in ws.tiles
    ensures ws.tree.shape.Some? && ParentOf(ws.tree.shape.value, RefOf(tile)) == split
    ensures split.Some? ==>
      && split.value in SplitSet(ws.tree.shape.value) && split.value in ws.tree.records && split.value.kind == SplitNode
      && FrameOf(ws.tree.shape.value, split.value) == Some(Frame(split.value.orientation, split.value.ratio))
  {
    ghost var t, l := ws.tree.shape.value, RefOf(tile);
    LeafPlace(ws.tree, l);
    assert Record(tile.node) == ws.tree.records[l.node];
    var parent := tile.node.parent;
    if parent == null {
      return None;
    }
    LeafRelatives(ws.tree, l);
    RelativesInside(t, l, null);
    SubtreeLinks(ws.tree.records, t, null, parent);
    assert Record(parent) == ws.tree.records[parent];
    return Some(parent);
  }

  /** The frame with the orientation turned. */
  function Turned(f: Frame): Frame {
    f.(orientation := f.orientation.Flipped())
  }

  /** Flips the split right above the active group's tile; its ratio stays. */
  method FlipActiveSplit(group: Group, p: LayoutPolicy, usable: Box) returns (flipped: bool)
    requires LayoutOk(group.workspace) && Enlisted(group)
    modifies group.workspace`tree, group.workspace.tree.records.Keys`orientation
    modifies group.workspace.tree.records.Keys`ratio
    modifies (set k | k in group.workspace.tiles)`box
    ensures LayoutOk(group.workspace)
    ensures flipped ==> group.tile != null
    ensures !flipped ==> group.workspace.tree == old(group.workspace.tree)
    ensures !flipped && group.tile != null ==>
      group.workspace.tree.shape.Some? && ParentOf(group.workspace.tree.shape.value, RefOf(group.tile)) == None
    ensures flipped ==>
      var t := old(group.workspace.tree.shape).value;
      var k := ParentOf(t, RefOf(group.tile));
      && k.Some? && FrameOf(t, k.value).Some?
      && group.workspace.tree.shape == Some(Reframe(t, k.value, Turned(FrameOf(t, k.value).value)))
    ensures flipped && usable.Positive() ==>
      LaidOut(group.workspace.tree.shape.value, InsetOuterGap(p.outerGap, usable), p)
  {
    hide LayoutOk;
    if group.tile == null {
      return false;
    }
    var split := SplitAbove(group.workspace, group.tile);
    if split == None || split.value.kind != SplitNode {
      return false;
    }
    var orientation := if split.value.orientation == Horizontal then Vertical else Horizontal;
    Rewrite(group.workspace, split.value, Frame(orientation, split.value.ratio), p, usable);
    return true;
  }

  // ----- resizing by a step

  /** The ratio one step in direction `d` asks for, or none when the ratio is at that limit already. */
  function SteppedRatio(ratio: real, d: Direction, p: LayoutPolicy): Option<real> {
    var r := UsedRatio(ratio, p);
    var sign := if d == Left || d == Up then -1.0 else 1.0;
    var next := ClampRatio(r + sign * p.resizeStep, p);
    if (sign < 0.0 && r <= p.resizeMin + 0.000000000001) || (sign > 0.0 && r >= p.resizeMax - 0.000000000001) then None
    else Some(next)
  }

  /** A step moves the ratio strictly the asked way and lands inside the limits, for a ratio inside them. */
  lemma StepMoves(ratio: real, d: Direction, p: LayoutPolicy)
    requires p.Validated() && p.resizeMin <= ratio <= p.resizeMax && SteppedRatio(ratio, d, p).Some?
    ensures var next := SteppedRatio(ratio, d, p).value;
      && p.resizeMin <= next <= p.resizeMax
      && (if d == Left || d == Up then ratio - p.resizeStep <= next < ratio else ratio < next <= ratio + p.resizeStep)
  {
  }

  /** What is left between the ratio and the limit in direction `d`. */
  function RoomLeft(ratio: real, d: Direction, p: LayoutPolicy): real {
    if d == Left || d == Up then ratio - p.resizeMin else p.resizeMax - ratio
  }

  function MovedBy(ratio: real, next: real, d: Direction): real {
    if d == Left || d == Up then ratio - next else next - ratio
  }

  /** How far a step goes, exactly: none when the limit is reached, else the policy's step, or what is left
      up to the limit if that is less. */
  lemma StepExactly(ratio: real, d: Direction, p: LayoutPolicy)
    requires p.Validated() && p.resizeMin <= ratio <= p.resizeMax
    ensures var next, room := SteppedRatio(ratio, d, p), RoomLeft(ratio, d, p);
      && (next.None? <==> room <= 0.000000000001)
      && (next.Some? ==> MovedBy(ratio, next.value, d) == if p.resizeStep <= room then p.resizeStep else room)
  {
  }

  /** A ratio outside the limits steps to the ratio within them that is nearest to the one asked for. */
  lemma StepIsNearest(ratio: real, d: Direction, p: LayoutPolicy, other: real)
    requires p.Validated() && 0.0 < ratio < 1.0 && SteppedRatio(ratio, d, p).Some?
    requires p.resizeMin <= other <= p.resizeMax
    ensures var next := SteppedRatio(ratio, d, p).value;
      var asked := if d == Left || d == Up then ratio - p.resizeStep else ratio + p.resizeStep;
      && p.resizeMin <= next <= p.resizeMax
      && (if next <= asked then asked - next else next - asked)
         <= if other <= asked then asked - other else other - asked
  {
  }

  /** A full step is undone by a step in the opposite direction. */
  lemma StepBack(ratio: real, d: Direction, e: Direction, p: LayoutPolicy)
    requires p.Validated() && p.resizeMin <= ratio <= p.resizeMax
    requires e == match d case Left => Right case Right => Left case Up => Down case Down => Up
    requires RoomLeft(ratio, d, p) >= p.resizeStep > 0.000000000001
    ensures SteppedRatio(ratio, d, p).Some? && SteppedRatio(SteppedRatio(ratio, d, p).value, e, p) == Some(ratio)
  {
    StepExactly(ratio, d, p);
    StepExactly(SteppedRatio(ratio, d, p).value, e, p);
  }

  method StepRatio(current: real, d: Direction, p: LayoutPolicy) returns (stepped: Option<real>)
    ensures stepped == SteppedRatio(current, d, p)
  {
    var sign := if d == Left || d == Up then -1.0 else 1.0;
    var ratio := current;
    if ratio <= 0.0 || ratio >= 1.0 {
      ratio := p.initialRatio;
    }
    var next := ratio + sign * p.resizeStep;
    if next < p.resizeMin {
      next := p.resizeMin;
    }
    if next > p.resizeMax {
      next := p.resizeMax;
    }
    var atLimit := (sign < 0.0 && ratio <= p.resizeMin + 0.000000000001)
                || (sign > 0.0 && ratio >= p.resizeMax - 0.000000000001);
    if atLimit {
      return None;
    }
    return Some(next);
  }

  /** Moves the ratio of the nearest split on the direction's axis by one step. */
  method ResizeDirection(group: Group, d: Direction, p: LayoutPolicy, usable: Box) returns (resized: bool)
    requires LayoutOk(group.workspace) && Enlisted(group)
    modifies group.workspace`tree, group.workspace.tree.records.Keys`orientation
    modifies group.workspace.tree.records.Keys`ratio
    modifies (set k | k in group.workspace.tiles)`box
    ensures LayoutOk(group.workspace)
    ensures resized ==> group.tile != null && old(group.workspace.tree.shape).Some?
    ensures !resized ==> group.workspace.tree == old(group.workspace.tree)
    ensures !resized && group.tile != null ==>
      var t := group.workspace.tree.shape;
      && t.Some?
      && (NearestSplit(t.value, RefOf(group.tile), d.Axis()).Some? ==>
            var f := FrameOf(t.value, NearestSplit(t.value, RefOf(group.tile), d.Axis()).value);
            f.Some? && SteppedRatio(f.value.ratio, d, p).None?)
    ensures resized ==>
      var t := old(group.workspace.tree.shape).value;
      var k := NearestSplit(t, RefOf(group.tile), d.Axis());
      && k.Some? && FrameOf(t, k.value).Some? && SteppedRatio(FrameOf(t, k.value).value.ratio, d, p).Some?
      && group.workspace.tree.shape ==
           Some(Reframe(t, k.value, FrameOf(t, k.value).value.(ratio := SteppedRatio(FrameOf(t, k.value).value.ratio, d,
               p).value)))
    ensures resized && usable.Positive() ==>
      LaidOut(group.workspace.tree.shape.value, InsetOuterGap(p.outerGap, usable), p)
  {
    hide LayoutOk;
    if group.tile == null {
      return false;
    }
    var nearest := NearestWithFrame(group.workspace, group.tile, d.Axis());
    if nearest == None {
      return false;
    }
    var split := nearest.value;
    var next := StepRatio(split.ratio, d, p);
    if next == None {
      return false;
    }
    Rewrite(group.workspace, split, Frame(split.orientation, next.value), p, usable);
    return true;
  }

  /** `FindResizeSplit`, with the frame of what it found. */
  method NearestWithFrame(ws: Workspace, tile: Tile, o: Orientation) returns (split: Option<LayoutNode>)
    requires LayoutOk(ws) && tile in ws.tiles
    ensures ws.tree.shape.Some? && NearestSplit(ws.tree.shape.value, RefOf(tile), o) == split
    ensures split.Some? ==>
      && split.value in SplitSet(ws.tree.shape.value) && split.value in ws.tree.records
      && FrameOf(ws.tree.shape.value, split.value) == Some(Frame(split.value.orientation, split.value.ratio))
  {
    var node := FindResizeSplit(ws, tile, o);
    if node == null {
      return None;
    }
    NearestIsSplit(ws.tree.shape.value, RefOf(tile), o);
    SubtreeLinks(ws.tree.records, ws.tree.shape.value, null, node);
    assert Record(node) == ws.tree.records[node];
    return Some(node);
  }

  lemma {:induction false} NearestIsSplit(t: Shape, l: LeafRef, o: Orientation)
    ensures NearestSplit(t, l, o).Some? ==> NearestSplit(t, l, o).value in SplitSet(t)
  {
    if t.Split? {
      NearestIsSplit(t.first, l, o);
      NearestIsSplit(t.second, l, o);
    }
  }

  // ----- resizing by pointer

  /** The bounding box of a subtree, read back from its tiles. */
  method NodeBounds(node: LayoutNode, ghost t: Shape, ghost parent: LayoutNode?, ghost m: Records,
                    ghost tiles: set<Tile>, ghost full: Shape) returns (box: Option<Box>)
    requires node == Root(t) && Linked(m, t, parent) && LeafSet(t) <= LeafSet(full)
    requires forall n :: n in m ==> Record(n) == m[n]
    requires forall l :: l in LeafSet(full) ==> l.tile in tiles
    ensures box == Bounds(t, TileBoxes(full))
    decreases t
  {
    assert Record(node) == m[node];
    if node.kind == TileNode {
      var tile := node.tile;
      if tile.box.width <= 0 || tile.box.height <= 0 {
        return None;
      }
      return Some(tile.box);
    }
    var first := NodeBounds(node.first, t.first, t.id, m, tiles, full);
    var second := NodeBounds(node.second, t.second, t.id, m, tiles, full);
    if first == None || second == None {
      return None;
    }
    var hull := Hull(first.value, second.value);
    return if hull.width > 0 && hull.height > 0 then Some(hull) else None;
  }

  /** The boxes of the two sides of a split. */
  method SideBounds(ws: Workspace, split: LayoutNode) returns (sides: Option<(Box, Box)>)
    requires LayoutOk(ws) && ws.tree.shape.Some? && split in SplitSet(ws.tree.shape.value)
    ensures var t := ws.tree.shape.value;
      && SubtreeAt(t, split).Some? && SubtreeAt(t, split).value.Split?
      && FrameOf(t, split) == Some(Frame(split.orientation, split.ratio))
      && SubtreeAt(t, split).value.orientation == split.orientation && SubtreeAt(t, split).value.ratio == split.ratio
      && sides == (match (Bounds(SubtreeAt(t, split).value.first, TileBoxes(t)), Bounds(SubtreeAt(t, split).value.second, TileBoxes(t)))
                   case (Some(a), Some(b)) => Some((a, b))
                   case _ => None)
  {
    ghost var t := ws.tree.shape.value;
    SubtreeLinks(ws.tree.records, t, null, split);
    SubtreeNodes(t, split);
    ghost var u := SubtreeAt(t, split).value;
    assert Record(split) == ws.tree.records[split];
    var first := NodeBounds(split.first, u.first, split, ws.tree.records, (set k | k in ws.tiles), t);
    var second := NodeBounds(split.second, u.second, split, ws.tree.records, (set k | k in ws.tiles), t);
    if first == None || second == None {
      return None;
    }
    return Some((first.value, second.value));
  }

  /** The ratio a drag asks for and the ratio it leaves. */
  method DragRatio(o: Orientation, ratio: real, a: Box, b: Box, p: LayoutPolicy,
                   pos: real) returns (drag: Option<(real, real)>)
    ensures drag == DragSides(o, ratio, a, b, p, pos)
  {
    var near := if o == Horizontal then a.x else a.y;
    var gap := if o == Horizontal then b.x - (a.x + a.width) else b.y - (a.y + a.height);
    var available := if o == Horizontal then a.width + b.width else a.height + b.height;
    if available <= 0 {
      return None;
    }
    var next := (pos - near as real - gap as real * 0.5) / available as real;
    if next < p.resizeMin {
      next := p.resizeMin;
    }
    if next > p.resizeMax {
      next := p.resizeMax;
    }
    var previous := ratio;
    if previous <= 0.0 || previous >= 1.0 {
      previous := p.initialRatio;
    }
    var delta := next - previous;
    if delta < 0.000000001 && delta > -0.000000001 {
      return Some((next, ratio));
    }
    return Some((next, next));
  }

  /** Drags the border of a split to the pointer. */
  method DragSplit(ws: Workspace, split: LayoutNode, px: real, py: real, p: LayoutPolicy, usable: Box)
    returns (ratio: Option<real>)
    requires LayoutOk(ws) && ws.tree.shape.Some? && split in SplitSet(ws.tree.shape.value)
    modifies ws`tree, split`orientation, split`ratio, (set k | k in ws.tiles)`box
    ensures LayoutOk(ws)
    ensures var t := old(ws.tree.shape).value;
      var drag := Drag(t, old(TileBoxes(ws.tree.shape.value)), p, split,
          if old(split.orientation) == Horizontal then px else py);
      && (drag == None ==> ratio == None && ws.tree.shape == Some(t))
      && (drag != None ==> ratio == Some(drag.value.0) && ws.tree.shape == Some(drag.value.1))
    ensures ws.tree.shape.Some? && ws.tree.shape != old(ws.tree.shape) && usable.Positive() ==>
      LaidOut(ws.tree.shape.value, InsetOuterGap(p.outerGap, usable), p)
  {
    hide Mirrors, Bounds;
    ghost var t := ws.tree.shape.value;
    var sides := SideBounds(ws, split);
    ApartIsDistinct(t);
    ReframeSame(t, split);
    if sides == None {
      return None;
    }
    var (a, b) := sides.value;
    var drag := DragRatio(split.orientation, split.ratio, a, b, p, if split.orientation == Horizontal then px else py);
    if drag == None {
      return None;
    }
    var (next, written) := drag.value;
    if written != split.ratio {
      Rewrite(ws, split, Frame(split.orientation, written), p, usable);
    }
    return Some(next);
  }

  /** The ratio reported for a drag of the handle of two leaves, and the tree it leaves: unchanged when
      the handle names no split, or a tile below that split is empty. */
  ghost function DragOf(t: Shape, x: LeafRef, y: LeafRef, o: Orientation, px: real, py: real,
                        p: LayoutPolicy): (Option<real>, Shape)
    reads (set l | l in LeafSet(t) :: l.tile)`box
  {
    match Resolve(t, x, y, o)
    case None => (None, t)
    case Some(k) =>
      match Drag(t, TileBoxes(t), p, k, if o == Horizontal then px else py)
      case None => (None, t)
      case Some((next, t')) => (Some(next), t')
  }

  /** Takes a pointer drag of a handle: the two tiles of its groups, and its orientation.  Refused
      without effect when the handle names no split, or a tile below that split is empty. */
  method DragHandle(ws: Workspace, x: Tile, y: Tile, o: Orientation, px: real, py: real, p: LayoutPolicy, usable: Box)
    returns (ratio: Option<real>)
    requires LayoutOk(ws) && x in ws.tiles && y in ws.tiles
    modifies ws`tree, ws.tree.records.Keys`orientation, ws.tree.records.Keys`ratio, (set k | k in ws.tiles)`box
    ensures LayoutOk(ws) && old(ws.tree.shape).Some? && ws.tree.shape.Some?
    ensures (ratio, ws.tree.shape.value) == old(DragOf(ws.tree.shape.value, RefOf(x), RefOf(y), o, px, py, p))
    ensures ws.tree.shape.Some? && ws.tree.shape != old(ws.tree.shape) && usable.Positive() ==>
      LaidOut(ws.tree.shape.value, InsetOuterGap(p.outerGap, usable), p)
  {
    var node := ResolveSplit(ws, x, y, o);
    if node == null {
      return None;
    }
    ResolvedIsSplit(ws.tree.shape.value, RefOf(x), RefOf(y), o);
    SubtreeLinks(ws.tree.records, ws.tree.shape.value, null, node);
    assert Record(node) == ws.tree.records[node];
    ratio := DragSplit(ws, node, px, py, p, usable);
  }

  lemma ResolvedIsSplit(t: Shape, x: LeafRef, y: LeafRef, o: Orientation)
    requires Apart(t)
    ensures var k := Resolve(t, x, y, o);
      k.Some? ==> k.value in SplitSet(t) && FrameOf(t, k.value).Some? && FrameOf(t, k.value).value.orientation == o
  {
    ApartIsDistinct(t);
    ResolveIsMeet(t, x, y, o);
    MeetIsSplit(t, x, y);
  }

  /** The two tiles a handle stands for: those of the first groups with its ids, if both are tiled in
      one workspace. */
  method HandleTiles(groups: seq<Group>, target: ResizeTarget)
    returns (tiles: Option<(Tile, Tile)>, ghost first: Group?, ghost second: Group?)
    ensures FirstById(groups, target.first, first) && FirstById(groups, target.second, second)
    ensures tiles == TilesOf(first, second)
  {
    var g := GroupById(groups, target.first);
    var h := GroupById(groups, target.second);
    first, second := g, h;
    if g == null || h == null || g.tile == null || h.tile == null || g.workspace != h.workspace {
      return None, g, h;
    }
    return Some((g.tile, h.tile)), g, h;
  }

  ghost function TilesOf(g: Group?, h: Group?): Option<(Tile, Tile)>
    reads if g == null then {} else {g}, if h == null then {} else {h}
  {
    if g == null || h == null || g.tile == null || h.tile == null || g.workspace != h.workspace then None
    else Some((g.tile, h.tile))
  }

  /** Takes a pointer drag of a handle given by two group ids: refused without effect when the ids name
      no two tiles of one workspace, else the drag of `DragHandle` in that workspace. */
  method DragTarget(groups: seq<Group>, target: ResizeTarget, px: real, py: real, p: LayoutPolicy, usable: Box)
    returns (ratio: Option<real>, ghost first: Group?, ghost second: Group?)
    requires forall g :: g in groups ==> LayoutOk(g.workspace) && (g.tile != null ==> g.tile in g.workspace.tiles)
    modifies (set g | g in groups :: g.workspace)`tree
    modifies (set g, n | g in groups && n in g.workspace.tree.records :: n)`orientation
    modifies (set g, n | g in groups && n in g.workspace.tree.records :: n)`ratio
    modifies (set g, k | g in groups && k in g.workspace.tiles :: k)`box
    ensures FirstById(groups, target.first, first) && FirstById(groups, target.second, second)
    ensures old(TilesOf(first, second)) == None ==>
      ratio == None && forall g :: g in groups ==> g.workspace.tree == old(g.workspace.tree)
    ensures old(TilesOf(first, second)) != None ==>
      var ws := first.workspace;
      && LayoutOk(ws) && old(ws.tree.shape).Some?
      && (ratio, ws.tree.shape.value) ==
         old(DragOf(ws.tree.shape.value, RefOf(first.tile), RefOf(second.tile), target.orientation, px, py, p))
  {
    hide Mirrors, DragSides;
    var tiles;
    tiles, first, second := HandleTiles(groups, target);
    if tiles == None {
      return None, first, second;
    }
    var (x, y) := tiles.value;
    assert x in x.workspace.tiles;
    ratio := DragHandle(x.workspace, x, y, target.orientation, px, py, p, usable);
  }
}
