/** What the links of the nodes say about the tree, and what the pointer surgery of the layout does
to it.  All of it is stated on the contents of the nodes as values.  */
module LayoutShape {
  import opened Seqs
  import opened LayoutTree
  import opened Desktop

  // ----- the tree as a set of nodes

  lemma {:induction false} LeafNodeIsNode(t: Shape, l: LeafRef)
    requires l in LeafSet(t)
    ensures l.node in Nodes(t)
  {
    if t.Split? {
      if l in LeafSet(t.first) {
        LeafNodeIsNode(t.first, l);
      } else {
        LeafNodeIsNode(t.second, l);
      }
    }
  }

  lemma {:induction false} SplitsAreNodes(t: Shape)
    ensures SplitSet(t) <= Nodes(t) && Root(t) in Nodes(t)
  {
    if t.Split? {
      SplitsAreNodes(t.first);
      SplitsAreNodes(t.second);
    }
  }

  lemma {:induction false} ApartIsDistinct(t: Shape)
    requires Apart(t)
    ensures Distinct(t)
  {
    if t.Split? {
      ApartIsDistinct(t.first);
      ApartIsDistinct(t.second);
      SplitsAreNodes(t.first);
      SplitsAreNodes(t.second);
      forall l | l in LeafSet(t.first) ensures l !in LeafSet(t.second) {
        LeafNodeIsNode(t.first, l);
        if l in LeafSet(t.second) {
          LeafNodeIsNode(t.second, l);
        }
      }
    }
  }

  /** A leaf's node is no split and no other leaf's node. */
  lemma {:induction false} LeafNodeUnique(t: Shape, l: LeafRef, m: LeafRef)
    requires Apart(t) && l in LeafSet(t)
    ensures l.node !in SplitSet(t)
    ensures m in LeafSet(t) && m.node == l.node ==> m == l
  {
    if t.Split? {
      SplitsAreNodes(t.first);
      SplitsAreNodes(t.second);
      if l in LeafSet(t.first) {
        LeafNodeIsNode(t.first, l);
        LeafNodeUnique(t.first, l, m);
        if m in LeafSet(t.second) {
          LeafNodeIsNode(t.second, m);
        }
      } else {
        LeafNodeIsNode(t.second, l);
        LeafNodeUnique(t.second, l, m);
        if m in LeafSet(t.first) {
          LeafNodeIsNode(t.first, m);
        }
      }
    }
  }

  lemma {:induction false} GraftNodes(t: Shape, at: LeafRef, u: Shape)
    requires Apart(t) && Apart(u) && at in LeafSet(t)
    requires Nodes(u) !! (Nodes(t) - {at.node})
    ensures Apart(Graft(t, at, u))
    ensures Nodes(Graft(t, at, u)) == Nodes(t) - {at.node} + Nodes(u)
  {
    if t.Split? {
      var a, b := t.first, t.second;
      if at in LeafSet(a) {
        LeafNodeIsNode(a, at);
        ApartIsDistinct(t);
        GraftElsewhere(b, at, u);
        GraftNodes(a, at, u);
      } else {
        LeafNodeIsNode(b, at);
        GraftElsewhere(a, at, u);
        GraftNodes(b, at, u);
      }
    }
  }

  lemma {:induction false} RemoveNodes(t: Shape, l: LeafRef)
    requires Apart(t) && l in LeafSet(t) && t != Leaf(l)
    ensures Remove(t, l).Some? && ParentOf(t, l).Some?
    ensures Apart(Remove(t, l).value)
    ensures Nodes(Remove(t, l).value) == Nodes(t) - {l.node, ParentOf(t, l).value}
  {
    ApartIsDistinct(t);
    var a, b := t.first, t.second;
    RemoveEmpties(a, l);
    RemoveEmpties(b, l);
    SplitsAreNodes(a);
    SplitsAreNodes(b);
    if l in LeafSet(a) {
      LeafNodeIsNode(a, l);
      RemoveElsewhere(b, l);
      ParentElsewhere(b, l);
      if a != Leaf(l) {
        RemoveNodes(a, l);
        RemoveContents(a, l);
        TakenFromSide(Nodes(a), Nodes(b), t.id, l.node, ParentOf(a, l).value);
      }
    } else {
      LeafNodeIsNode(b, l);
      RemoveElsewhere(a, l);
      ParentElsewhere(a, l);
      if b != Leaf(l) {
        RemoveNodes(b, l);
        RemoveContents(b, l);
        TakenFromSide(Nodes(b), Nodes(a), t.id, l.node, ParentOf(b, l).value);
      }
    }
  }

  lemma TakenFromSide(a: set<LayoutNode>, b: set<LayoutNode>, id: LayoutNode, x: LayoutNode, y: LayoutNode)
    requires a !! b && id !in a && x in a && y in a
    ensures {id} + (a - {x, y}) + b == {id} + a + b - {x, y} && {id} + b + (a - {x, y}) == {id} + b + a - {x, y}
  {
  }

  lemma LeafElsewhere(a: Shape, b: Shape, l: LeafRef)
    requires Nodes(a) !! Nodes(b) && l in LeafSet(a)
    ensures l !in LeafSet(b)
  {
    LeafNodeIsNode(a, l);
    if l in LeafSet(b) {
      LeafNodeIsNode(b, l);
    }
  }

  // ----- what the links say about one node

  /** The node above leaf `l`, `parent` being above the root. */
  ghost function Above(t: Shape, l: LeafRef, parent: LayoutNode?): LayoutNode? {
    match t
    case Leaf(_) => parent
    case Split(id, _, _, a, b) => if l in LeafSet(a) then Above(a, l, id) else Above(b, l, id)
  }

  lemma {:induction false} AboveIsParent(t: Shape, l: LeafRef, parent: LayoutNode?)
    requires Apart(t) && l in LeafSet(t)
    ensures if t == Leaf(l) then Above(t, l, parent) == parent
            else ParentOf(t, l).Some? && Above(t, l, parent) == ParentOf(t, l).value && ParentOf(t, l).value in SplitSet(t)
  {
    if t.Split? {
      if l in LeafSet(t.first) {
        AboveIsParent(t.first, l, t.id);
        LeafElsewhere(t.first, t.second, l);
      } else {
        AboveIsParent(t.second, l, t.id);
        ParentElsewhere(t.first, l);
      }
    }
  }

  /** The parent pointer of a leaf. */
  lemma {:induction false} LeafParent(m: Records, t: Shape, parent: LayoutNode?, l: LeafRef)
    requires Linked(m, t, parent) && l in LeafSet(t)
    ensures l.node in m && m[l.node].kind == TileNode && m[l.node].tile == l.tile
    ensures m[l.node].parent == Above(t, l, parent)
  {
    if t.Split? {
      if l in LeafSet(t.first) {
        LeafParent(m, t.first, t.id, l);
      } else {
        LeafParent(m, t.second, t.id, l);
      }
    }
  }

  /** A split of the tree is a split node with two children, and is either the root or a child of
      another split. */
  lemma {:induction false} SplitLinks(m: Records, t: Shape, parent: LayoutNode?, k: LayoutNode)
    requires Apart(t) && Linked(m, t, parent) && k in SplitSet(t)
    ensures k in m && m[k].kind == SplitNode
    ensures m[k].first != null && m[k].first in Nodes(t) && m[k].second != null && m[k].second in Nodes(t)
    ensures m[k].first != m[k].second && m[k].first != k && m[k].second != k
    ensures k == Root(t) ==> m[k].parent == parent
    ensures k != Root(t) ==>
      var q := m[k].parent;
      && q != null && q in SplitSet(t) && q != k && q in m && (m[q].first == k || m[q].second == k)
  {
    SplitsAreNodes(t.first);
    SplitsAreNodes(t.second);
    if k in SplitSet(t.first) {
      SplitLinks(m, t.first, t.id, k);
    } else if k in SplitSet(t.second) {
      SplitLinks(m, t.second, t.id, k);
    }
  }

  /** The children of a leaf's parent are that leaf and its sibling. */
  lemma {:induction false} SiblingLinks(m: Records, t: Shape, parent: LayoutNode?, l: LeafRef)
    requires Apart(t) && Linked(m, t, parent) && l in LeafSet(t) && t != Leaf(l) && parent !in Nodes(t)
    ensures ParentOf(t, l).Some? && ParentOf(t, l).value in m && ParentOf(t, l).value in SplitSet(t)
    ensures var q := m[ParentOf(t, l).value]; var s := Root(SiblingOf(t, l));
      && ((q.first == l.node && q.second == s) || (q.second == l.node && q.first == s))
      && q.parent == Grandparent(t, l, parent)
      && Grandparent(t, l, parent) !in Nodes(SiblingOf(t, l))
  {
    LeafNodeIsNode(t, l);
    RemoveSide(t, l);
    SplitsAreNodes(t.first);
    SplitsAreNodes(t.second);
    if l in LeafSet(t.first) {
      if t.first != Leaf(l) {
        RelativesInside(t.first, l, t.id);
        SiblingLinks(m, t.first, t.id, l);
      }
    } else if t.second != Leaf(l) {
      RelativesInside(t.second, l, t.id);
      SiblingLinks(m, t.second, t.id, l);
    }
  }

  // ----- pointer surgery

  lemma {:induction false} LinksCarryOver(m: Records, m': Records,
                                          t: Shape, parent: LayoutNode?)
    requires Linked(m, t, parent)
    requires forall n :: n in Nodes(t) ==> n in m && n in m' && m'[n] == m[n]
    ensures Linked(m', t, parent)
  {
    if t.Split? {
      LinksCarryOver(m, m', t.first, t.id);
      LinksCarryOver(m, m', t.second, t.id);
    }
  }

  /** Redirecting the parent of leaf `at` to a block `u` linked below that parent grafts `u` there. */
  lemma {:induction false} GraftLinks(m: Records, m': Records,
                                      t: Shape, parent: LayoutNode?, at: LeafRef, u: Shape)
    requires Apart(t) && at in LeafSet(t) && Linked(m, t, parent)
    requires forall n :: n in Nodes(t) && n != at.node ==>
      n in m && n in m' && m'[n] == if n == Above(t, at, parent) then m[n].Redirected(at.node, Root(u)) else m[n]
    requires Linked(m', u, Above(t, at, parent))
    ensures Linked(m', Graft(t, at, u), parent)
  {
    if t.Split? {
      var a, b := t.first, t.second;
      SplitsAreNodes(a);
      SplitsAreNodes(b);
      if at in LeafSet(a) {
        AboveIsParent(a, at, t.id);
        LeafNodeIsNode(a, at);
        LeafElsewhere(a, b, at);
        GraftElsewhere(b, at, u);
        GraftLinks(m, m', a, t.id, at, u);
        LinksCarryOver(m, m', b, t.id);
      } else {
        AboveIsParent(b, at, t.id);
        LeafNodeIsNode(b, at);
        GraftElsewhere(a, at, u);
        GraftLinks(m, m', b, t.id, at, u);
        LinksCarryOver(m, m', a, t.id);
      }
    }
  }

  /** The sibling of leaf `l`: the other child of its parent. */
  ghost function SiblingOf(t: Shape, l: LeafRef): Shape
    requires t != Leaf(l) && l in LeafSet(t)
  {
    if t.first == Leaf(l) then t.second
    else if l in LeafSet(t.first) then SiblingOf(t.first, l)
    else if t.second == Leaf(l) then t.first
    else SiblingOf(t.second, l)
  }

  /** The node above the parent of leaf `l`. */
  ghost function Grandparent(t: Shape, l: LeafRef, parent: LayoutNode?): LayoutNode?
    requires t != Leaf(l) && l in LeafSet(t)
  {
    if t.first == Leaf(l) || t.second == Leaf(l) then parent
    else if l in LeafSet(t.first) then Grandparent(t.first, l, t.id)
    else Grandparent(t.second, l, t.id)
  }

  /** The parent `p` of leaf `l` is cut out: its other child `s` hangs below `g` instead. */
  ghost predicate Spliced(m: Records, m': Records, ns: set<LayoutNode>,
                          l: LeafRef, p: LayoutNode, s: LayoutNode, g: LayoutNode?)
  {
    forall n :: n in ns && n != l.node && n != p ==>
      n in m && n in m' && m'[n] ==
        if n == s then m[n].(parent := g)
        else if n == g then m[n].Redirected(p, s)
        else m[n]
  }

  /** Handing the sibling of `l` to the node above their parent removes `l` from the tree. */
  lemma {:induction false} RemoveLinks(m: Records, m': Records,
                                       t: Shape, parent: LayoutNode?, l: LeafRef)
    requires Apart(t) && l in LeafSet(t) && t != Leaf(l) && Linked(m, t, parent)
    requires ParentOf(t, l).Some? && parent !in Nodes(t)
    requires Spliced(m, m', Nodes(t), l, ParentOf(t, l).value, Root(SiblingOf(t, l)), Grandparent(t, l, parent))
    ensures Remove(t, l).Some? && Linked(m', Remove(t, l).value, parent)
    decreases t, 1
  {
    RemoveSide(t, l);
    SplitsAreNodes(t.first);
    SplitsAreNodes(t.second);
    if l in LeafSet(t.first) {
      LeafNodeIsNode(t.first, l);
      if t.first == Leaf(l) {
        ReparentLinks(m, m', t.second, t.id, parent);
      } else {
        RemoveLinksFirst(m, m', t, parent, l);
      }
    } else {
      LeafNodeIsNode(t.second, l);
      if t.second == Leaf(l) {
        ReparentLinks(m, m', t.first, t.id, parent);
      } else {
        RemoveLinksSecond(m, m', t, parent, l);
      }
    }
  }

  lemma {:induction false} RemoveLinksFirst(m: Records, m': Records,
                                            t: Shape, parent: LayoutNode?, l: LeafRef)
    requires Apart(t) && Linked(m, t, parent) && t.Split? && l in LeafSet(t.first) && t.first != Leaf(l)
    requires ParentOf(t, l).Some? && t.second != Leaf(l) && parent !in Nodes(t)
    requires Spliced(m, m', Nodes(t), l, ParentOf(t, l).value, Root(SiblingOf(t, l)), Grandparent(t, l, parent))
    ensures Remove(t, l).Some? && Linked(m', Remove(t, l).value, parent)
    decreases t, 0
  {
    RemoveSide(t, l);
    SplitsAreNodes(t.first);
    LeafNodeIsNode(t.first, l);
    RelativesInside(t.first, l, t.id);
    RemovedRoot(t.first, l);
    SplitsAreNodes(SiblingOf(t.first, l));
    RemoveLinks(m, m', t.first, t.id, l);
    LinksCarryOver(m, m', t.second, t.id);
  }

  lemma {:induction false} RemoveLinksSecond(m: Records, m': Records,
                                             t: Shape, parent: LayoutNode?, l: LeafRef)
    requires Apart(t) && Linked(m, t, parent) && t.Split? && l in LeafSet(t.second) && t.second != Leaf(l)
    requires ParentOf(t, l).Some? && l !in LeafSet(t.first) && t.first != Leaf(l) && parent !in Nodes(t)
    requires Spliced(m, m', Nodes(t), l, ParentOf(t, l).value, Root(SiblingOf(t, l)), Grandparent(t, l, parent))
    ensures Remove(t, l).Some? && Linked(m', Remove(t, l).value, parent)
    decreases t, 0
  {
    RemoveSide(t, l);
    SplitsAreNodes(t.second);
    LeafNodeIsNode(t.second, l);
    RelativesInside(t.second, l, t.id);
    RemovedRoot(t.second, l);
    SplitsAreNodes(SiblingOf(t.second, l));
    RemoveLinks(m, m', t.second, t.id, l);
    LinksCarryOver(m, m', t.first, t.id);
  }

  /** Removal works in the child that holds the leaf, or keeps just the other child. */
  lemma RemoveSide(t: Shape, l: LeafRef)
    requires Apart(t) && l in LeafSet(t) && t != Leaf(l)
    ensures t.first == Leaf(l) ==> Remove(t, l) == Some(t.second) && ParentOf(t, l) == Some(t.id)
    ensures t.second == Leaf(l) ==> Remove(t, l) == Some(t.first) && ParentOf(t, l) == Some(t.id)
    ensures t.first != Leaf(l) && l in LeafSet(t.first) ==>
      && Remove(t.first, l).Some? && Remove(t, l) == Some(t.(first := Remove(t.first, l).value))
      && ParentOf(t, l) == ParentOf(t.first, l) && l !in LeafSet(t.second)
    ensures t.second != Leaf(l) && l !in LeafSet(t.first) ==>
      && Remove(t.second, l).Some? && Remove(t, l) == Some(t.(second := Remove(t.second, l).value))
      && ParentOf(t, l) == ParentOf(t.second, l)
  {
    ApartIsDistinct(t);
    RemoveEmpties(t.first, l);
    RemoveEmpties(t.second, l);
    if l in LeafSet(t.first) {
      RemoveElsewhere(t.second, l);
      ParentElsewhere(t.second, l);
      if t.first != Leaf(l) {
        RemoveContents(t.first, l);
      }
    } else {
      RemoveElsewhere(t.first, l);
      ParentElsewhere(t.first, l);
    }
  }

  lemma RemovedRoot(t: Shape, l: LeafRef)
    requires Apart(t) && l in LeafSet(t) && t != Leaf(l)
    ensures Remove(t, l).Some?
    ensures Root(Remove(t, l).value) == if ParentOf(t, l) == Some(Root(t)) then Root(SiblingOf(t, l)) else Root(t)
  {
    RemoveSide(t, l);
    SplitsAreNodes(t.first);
    SplitsAreNodes(t.second);
    if l in LeafSet(t.first) {
      if t.first != Leaf(l) {
        RelativesInside(t.first, l, t.id);
      }
    } else {
      if t.second != Leaf(l) {
        RelativesInside(t.second, l, t.id);
      }
    }
  }

  lemma {:induction false} RelativesInside(t: Shape, l: LeafRef, parent: LayoutNode?)
    requires Apart(t) && l in LeafSet(t) && t != Leaf(l)
    ensures Nodes(SiblingOf(t, l)) <= Nodes(t) - {l.node} && Apart(SiblingOf(t, l))
    ensures ParentOf(t, l).Some? && ParentOf(t, l).value in SplitSet(t)
    ensures ParentOf(t, l).value !in Nodes(SiblingOf(t, l))
    ensures ParentOf(t, l) == Some(Root(t)) ==>
      Grandparent(t, l, parent) == parent && SiblingOf(t, l) in {t.first, t.second}
    ensures ParentOf(t, l) != Some(Root(t)) ==> Grandparent(t, l, parent) in SplitSet(t)
  {
    var a, b := t.first, t.second;
    SplitsAreNodes(a);
    SplitsAreNodes(b);
    if l in LeafSet(a) {
      LeafNodeIsNode(a, l);
      LeafElsewhere(a, b, l);
      if a != Leaf(l) {
        RelativesInside(a, l, t.id);
      }
    } else {
      LeafNodeIsNode(b, l);
      ParentElsewhere(a, l);
      if b != Leaf(l) {
        RelativesInside(b, l, t.id);
      }
    }
  }

  lemma ReparentLinks(m: Records, m': Records,
                      t: Shape, was: LayoutNode?, now: LayoutNode?)
    requires Apart(t) && Linked(m, t, was)
    requires forall n :: n in Nodes(t) ==>
      n in m && n in m' && m'[n] == if n == Root(t) then m[n].(parent := now) else m[n]
    ensures Linked(m', t, now)
  {
    if t.Split? {
      SplitsAreNodes(t.first);
      SplitsAreNodes(t.second);
      LinksCarryOver(m, m', t.first, t.id);
      LinksCarryOver(m, m', t.second, t.id);
    }
  }

  // ----- the two surgeries on a whole workspace tree

  /** What the layout knows about the place of a leaf: the root, or one of the two children of a split. */
  lemma LeafPlace(w: SoundTree, at: LeafRef)
    requires w.shape.Some? && at in LeafSet(w.shape.value)
    ensures at.node in w.records && w.records[at.node].kind == TileNode && w.records[at.node].tile == at.tile
    ensures var t := w.shape.value; var q := w.records[at.node].parent;
      && q == Above(t, at, null)
      && (t == Leaf(at) ==> q == null && w.Top() == at.node)
      && (t != Leaf(at) ==>
            && q != null && q in w.records && q != at.node && ParentOf(t, at) == Some(q)
            && w.records[q].kind == SplitNode && w.records[q].first != w.records[q].second
            && (w.records[q].first == at.node || w.records[q].second == at.node))
  {
    var t := w.shape.value;
    LeafParent(w.records, t, null, at);
    LeafNodeIsNode(t, at);
    LeafNodeUnique(t, at, at);
    AboveIsParent(t, at, null);
    if t != Leaf(at) {
      SiblingLinks(w.records, t, null, at);
      SplitLinks(w.records, t, null, ParentOf(t, at).value);
    }
  }

  /** Node `n` after `at` and the new leaf were hung below `split`, in the place of `at`. */
  ghost function Hooked(m: Records, n: LayoutNode, at: LayoutNode, split: LayoutNode): NodeRecord
    requires n in m && at in m
  {
    if n == at then m[n].(parent := split)
    else if n == m[at].parent then m[n].Redirected(at, split)
    else m[n]
  }

  /** The tree with `leaf` seated beside `at`, below the new split. */
  ghost function Seat(w: SoundTree, at: LeafRef, leaf: LeafRef, leafRecord: NodeRecord, split: LayoutNode,
                      ws: Workspace, d: Direction, r: real): (w': SoundTree)
    requires w.shape.Some? && at in LeafSet(w.shape.value)
    requires leaf.node !in w.records && split !in w.records && split != leaf.node
    requires leafRecord.kind == TileNode && leafRecord.tile == leaf.tile
    ensures w'.shape == Some(Graft(w.shape.value, at, Beside(leaf, at, d, split, r)))
    ensures w'.Refs() == w.Refs() + {leaf} && w'.records.Keys == w.records.Keys + {split, leaf.node}
    ensures at.node in w.records && w'.Top() == if w.records[at.node].parent == null then split else w.Top()
  {
    LeafPlace(w, at);
    SeatIsSound(w, at, leaf, leafRecord, split, ws, d, r);
    WorkspaceTree(Some(Graft(w.shape.value, at, Beside(leaf, at, d, split, r))),
                  SeatRecords(w.records, at.node, leaf.node, leafRecord, split, ws, d, r))
  }

  ghost function SeatRecords(m: Records, at: LayoutNode, leaf: LayoutNode, leafRecord: NodeRecord, split: LayoutNode,
                             ws: Workspace, d: Direction, r: real): Records
    requires at in m
  {
    map n | n in m.Keys + {split, leaf} ::
      if n == split then
        NodeRecord(SplitNode, ws, m[at].parent, null, d.Axis(), r,
                   if d.SourceFirst() then leaf else at, if d.SourceFirst() then at else leaf)
      else if n == leaf then leafRecord.(parent := split)
      else Hooked(m, n, at, split)
  }

  lemma SeatIsSound(w: SoundTree, at: LeafRef, leaf: LeafRef, leafRecord: NodeRecord, split: LayoutNode,
                    ws: Workspace, d: Direction, r: real)
    requires w.shape.Some? && at in LeafSet(w.shape.value) && at.node in w.records
    requires leaf.node !in w.records && split !in w.records && split != leaf.node
    requires leafRecord.kind == TileNode && leafRecord.tile == leaf.tile
    ensures var t := w.shape.value; var u := Graft(t, at, Beside(leaf, at, d, split, r));
      && WorkspaceTree(Some(u), SeatRecords(w.records, at.node, leaf.node, leafRecord, split, ws, d, r)).Sound()
      && LeafSet(u) == LeafSet(t) + {leaf}
      && Root(u) == if w.records[at.node].parent == null then split else Root(t)
  {
    var t := w.shape.value;
    LeafNodeIsNode(t, at);
    LeafParent(w.records, t, null, at);
    AboveIsParent(t, at, null);
    SeatContents(t, at, leaf, split, d, r);
    SeatLinks(w.records, t, at, leaf, leafRecord, split, ws, d, r);
  }

  lemma SeatContents(t: Shape, at: LeafRef, leaf: LeafRef, split: LayoutNode, d: Direction, r: real)
    requires Apart(t) && at in LeafSet(t) && leaf.node !in Nodes(t) && split !in Nodes(t) && split != leaf.node
    ensures var u := Graft(t, at, Beside(leaf, at, d, split, r));
      && Apart(u) && Nodes(u) == Nodes(t) + {split, leaf.node} && LeafSet(u) == LeafSet(t) + {leaf}
      && Root(u) == if t == Leaf(at) then split else Root(t)
  {
    hide LeafSet, Nodes;
    ApartIsDistinct(t);
    LeafNodeIsNode(t, at);
    var b := Beside(leaf, at, d, split, r);
    BesideContents(at, leaf, split, d, r);
    GraftNodes(t, at, b);
    GraftContents(t, at, b);
  }

  lemma BesideContents(at: LeafRef, leaf: LeafRef, split: LayoutNode, d: Direction, r: real)
    requires leaf.node != at.node && split != at.node && split != leaf.node
    ensures var b := Beside(leaf, at, d, split, r);
      && Apart(b) && Root(b) == split
      && Nodes(b) == {split} + {leaf.node} + {at.node} && LeafSet(b) == {leaf} + {at}
  {
  }

  lemma SeatLinks(m: Records, t: Shape, at: LeafRef, leaf: LeafRef, leafRecord: NodeRecord, split: LayoutNode,
                  ws: Workspace, d: Direction, r: real)
    requires Apart(t) && at in LeafSet(t) && Nodes(t) == m.Keys && Linked(m, t, null) && at.node in m
    requires leaf.node !in m && split !in m && split != leaf.node
    requires leafRecord.kind == TileNode && leafRecord.tile == leaf.tile
    ensures Linked(SeatRecords(m, at.node, leaf.node, leafRecord, split, ws, d, r),
                   Graft(t, at, Beside(leaf, at, d, split, r)), null)
  {
    LeafParent(m, t, null, at);
    GraftLinks(m, SeatRecords(m, at.node, leaf.node, leafRecord, split, ws, d, r), t, null, at,
        Beside(leaf, at, d, split, r));
  }

  /** What the layout knows about the parent of a leaf: a split with the leaf on one side and its
      sibling on the other, hanging at the root or below another split. */
  lemma LeafRelatives(w: SoundTree, l: LeafRef)
    requires w.shape.Some? && l in LeafSet(w.shape.value) && w.shape.value != Leaf(l)
    ensures l.node in w.records && ParentOf(w.shape.value, l).Some?
    ensures var t := w.shape.value; var q := ParentOf(t, l).value; var s := Root(SiblingOf(t, l));
      && w.records[l.node].parent == q && q in w.records && q != l.node && w.records[q].kind == SplitNode
      && s in w.records && s != l.node && s != q
      && ((w.records[q].first == l.node && w.records[q].second == s) || (w.records[q].second == l.node && w.records[q].first == s))
      && w.records[q].parent == Grandparent(t, l, null)
      && (Grandparent(t, l, null) == null ==> w.Top() == q)
    ensures var t := w.shape.value; var q := ParentOf(t, l).value; var g := Grandparent(t, l, null);
      g != null ==>
        && g in w.records && g != q && g != l.node && g != Root(SiblingOf(t, l)) && w.records[g].kind == SplitNode
        && w.records[g].first != w.records[g].second && (w.records[g].first == q || w.records[g].second == q)
  {
    var t := w.shape.value;
    LeafPlace(w, l);
    LeafNodeUnique(t, l, l);
    SplitsAreNodes(t);
    RelativesInside(t, l, null);
    SplitsAreNodes(SiblingOf(t, l));
    SiblingLinks(w.records, t, null, l);
    SplitLinks(w.records, t, null, ParentOf(t, l).value);
    if Grandparent(t, l, null) != null {
      SplitLinks(w.records, t, null, Grandparent(t, l, null));
    }
  }

  /** Node `n` after the sibling `s` moved up into the place of the parent `q`, below `g`. */
  ghost function Unhooked(m: Records, n: LayoutNode, q: LayoutNode, s: LayoutNode, g: LayoutNode?): NodeRecord
    requires n in m
  {
    if n == s then m[n].(parent := g)
    else if n == g then m[n].Redirected(q, s)
    else m[n]
  }

  /** The tree without leaf `l`. */
  ghost function Cut(w: SoundTree, l: LeafRef): (w': SoundTree)
    requires w.shape.Some? && l in LeafSet(w.shape.value)
    ensures w'.shape == Remove(w.shape.value, l) && w'.Refs() == w.Refs() - {l}
    ensures w'.records.Keys <= w.records.Keys && l.node !in w'.records
  {
    var t := w.shape.value;
    ApartIsDistinct(t);
    RemoveEmpties(t, l);
    if t == Leaf(l) then NoTree
    else
      LeafRelatives(w, l);
      CutIsSound(w, l);
      WorkspaceTree(Remove(t, l), CutRecords(w.records, l.node, ParentOf(t, l).value, Root(SiblingOf(t, l)),
          Grandparent(t, l, null)))
  }

  ghost function CutRecords(m: Records, l: LayoutNode, q: LayoutNode, s: LayoutNode, g: LayoutNode?): Records {
    map n | n in m.Keys - {l, q} :: Unhooked(m, n, q, s, g)
  }

  lemma CutIsSound(w: SoundTree, l: LeafRef)
    requires w.shape.Some? && l in LeafSet(w.shape.value) && w.shape.value != Leaf(l)
    ensures ParentOf(w.shape.value, l).Some?
    ensures var t := w.shape.value;
      var m' := CutRecords(w.records, l.node, ParentOf(t, l).value, Root(SiblingOf(t, l)), Grandparent(t, l, null));
      && Remove(t, l).Some? && WorkspaceTree(Remove(t, l), m').Sound()
      && LeafSet(Remove(t, l).value) == LeafSet(t) - {l}
      && Root(Remove(t, l).value) == if Grandparent(t, l, null) == null then Root(SiblingOf(t, l)) else Root(t)
  {
    var t := w.shape.value;
    RemoveNodes(t, l);
    RemovedRoot(t, l);
    ApartIsDistinct(t);
    RemoveContents(t, l);
    RelativesInside(t, l, null);
    var m' := CutRecords(w.records, l.node, ParentOf(t, l).value, Root(SiblingOf(t, l)), Grandparent(t, l, null));
    RemoveLinks(w.records, m', t, null, l);
  }
}
