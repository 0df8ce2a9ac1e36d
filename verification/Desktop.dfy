/** The heap objects of the tiling layout: workspaces, the nodes of their trees, tiles and groups. */
module Desktop {
  import opened Seqs
  import opened LayoutTree
  import opened Geometry

  datatype NodeKind = TileNode | SplitNode

  class LayoutNode {
    var kind: NodeKind
    var workspace: Workspace
    var parent: LayoutNode?
    // a tile node
    var tile: Tile?
    // a split node
    var orientation: Orientation
    var ratio: real
    var first: LayoutNode?
    var second: LayoutNode?

    constructor TileLeaf(ws: Workspace)
      ensures Record(this) == NodeRecord(TileNode, ws, null, null, Horizontal, 0.0, null, null)
    {
      kind, workspace, parent, tile := TileNode, ws, null, null;
      orientation, ratio, first, second := Horizontal, 0.0, null, null;
    }

    constructor SplitOf(ws: Workspace, o: Orientation, r: real, a: LayoutNode, b: LayoutNode)
      ensures Record(this) == NodeRecord(SplitNode, ws, null, null, o, r, a, b)
    {
      kind, workspace, parent, tile := SplitNode, ws, null, null;
      orientation, ratio, first, second := o, r, a, b;
    }
  }

  class Tile {
    var workspace: Workspace
    var group: Group
    var node: LayoutNode
    var box: Box

    constructor (ws: Workspace, g: Group, n: LayoutNode)
      ensures workspace == ws && group == g && node == n
    {
      workspace, group, node := ws, g, n;
      box := Box(0, 0, 0, 0);
    }
  }

  class Group {
    var id: nat
    var workspace: Workspace
    var tile: Tile?
    /** The group has an active window, and that window is mapped. */
    var activeMapped: bool

    constructor (id: nat, ws: Workspace)
      ensures this.id == id && workspace == ws && tile == null && !activeMapped
    {
      this.id, workspace, tile, activeMapped := id, ws, null, false;
    }
  }

  class Workspace {
    var tiles: seq<Tile>
    var layoutRoot: LayoutNode?
    var activeGroup: Group?
    /** The tree that hangs off `layoutRoot`, with the contents of its nodes. */
    ghost var tree: SoundTree

    constructor ()
      ensures tiles == [] && layoutRoot == null && activeGroup == null && tree == NoTree
    {
      tiles, layoutRoot, activeGroup, tree := [], null, null, NoTree;
    }
  }

  /** A leaf of the tree: the node, its tile and the tile's group. */
  datatype LeafRef = LeafRef(node: LayoutNode, tile: Tile, group: Group)

  type Shape = Tree<LayoutNode, LeafRef>

  // ----- node contents as values

  datatype NodeRecord = NodeRecord(
    kind: NodeKind, workspace: Workspace, parent: LayoutNode?, tile: Tile?,
    orientation: Orientation, ratio: real, first: LayoutNode?, second: LayoutNode?)
  {
    /** Every child pointer to `was` now points to `now`. */
    ghost function Redirected(was: LayoutNode, now: LayoutNode): NodeRecord {
      this.(first := if first == was then now else first, second := if second == was then now else second)
    }
  }

  type Records = map<LayoutNode, NodeRecord>

  ghost function Record(n: LayoutNode): NodeRecord
    reads n
  {
    NodeRecord(n.kind, n.workspace, n.parent, n.tile, n.orientation, n.ratio, n.first, n.second)
  }

  ghost function Root(t: Shape): LayoutNode {
    match t
    case Leaf(l) => l.node
    case Split(id, _, _, _, _) => id
  }

  ghost function Nodes(t: Shape): set<LayoutNode> {
    match t
    case Leaf(l) => {l.node}
    case Split(id, _, _, a, b) => {id} + Nodes(a) + Nodes(b)
  }

  /** No node is used twice. */
  ghost predicate Apart(t: Shape) {
    match t
    case Leaf(_) => true
    case Split(id, _, _, a, b) =>
      Apart(a) && Apart(b) && Nodes(a) !! Nodes(b) && id !in Nodes(a) && id !in Nodes(b)
  }

  /** The nodes of `t` carry its structure: kinds, children, frames, and parents up to `parent`. */
  ghost predicate Linked(m: Records, t: Shape, parent: LayoutNode?) {
    && Root(t) in m && m[Root(t)].parent == parent
    && match t
       case Leaf(l) => m[l.node].kind == TileNode && m[l.node].tile == l.tile
       case Split(id, o, r, a, b) =>
         && m[id].kind == SplitNode && m[id].orientation == o && m[id].ratio == r
         && m[id].first == Root(a) && m[id].second == Root(b)
         && Linked(m, a, id) && Linked(m, b, id)
  }

  /** The tree of a workspace: its shape and the contents of its nodes. */
  datatype WorkspaceTree = WorkspaceTree(shape: Option<Shape>, records: Records)
  {
    /** The nodes form exactly the tree `shape`. */
    ghost predicate Sound() {
      match shape
      case None => records == map[]
      case Some(t) => Apart(t) && Nodes(t) == records.Keys && Linked(records, t, null)
    }

    ghost function Top(): LayoutNode? {
      if shape.Some? then Root(shape.value) else null
    }

    ghost function Refs(): set<LeafRef> {
      if shape.Some? then LeafSet(shape.value) else {}
    }
  }

  ghost const NoTree: WorkspaceTree := WorkspaceTree(None, map[])

  type SoundTree = w: WorkspaceTree | w.Sound() ghost witness WorkspaceTree(None, map[])
}
