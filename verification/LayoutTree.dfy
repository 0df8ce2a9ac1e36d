/** The split tree of a workspace, as a value.

The compositor keeps one binary tree per workspace: leaves carry tiles, inner
nodes carry an orientation and a ratio.  This module defines the tree, the edits
the layout performs on it, and what each edit means for the left-to-right order of
the leaves and for the table of surviving splits.

A split is named by an identity of type `S`, a leaf by one of type `L`; the heap
model in `Layout` uses node references for both.  */
module LayoutTree {
  import opened Seqs

  datatype Orientation = Horizontal | Vertical
  {
    function Flipped(): Orientation {
      if this == Horizontal then Vertical else Horizontal
    }
  }

  datatype Direction = Left | Right | Up | Down
  {
    /** Left and right act on horizontal splits, up and down on vertical ones. */
    function Axis(): Orientation {
      if this == Left || this == Right then Horizontal else Vertical
    }

    /** Left and up place the moved leaf first. */
    predicate SourceFirst() {
      this == Left || this == Up
    }
  }

  datatype Tree<+S, +L> =
    | Leaf(leaf: L)
    | Split(id: S, orientation: Orientation, ratio: real, first: Tree<S, L>, second: Tree<S, L>)

  /** What a split carries besides its children. */
  datatype Frame = Frame(orientation: Orientation, ratio: real)

  // ----- reading a tree

  function Leaves<S, L>(t: Tree<S, L>): seq<L> {
    match t
    case Leaf(l) => [l]
    case Split(_, _, _, a, b) => Leaves(a) + Leaves(b)
  }

  function LeafSet<S, L(==)>(t: Tree<S, L>): set<L> {
    match t
    case Leaf(l) => {l}
    case Split(_, _, _, a, b) => LeafSet(a) + LeafSet(b)
  }

  function SplitSet<S(==), L(==)>(t: Tree<S, L>): set<S> {
    match t
    case Leaf(_) => {}
    case Split(id, _, _, a, b) => {id} + SplitSet(a) + SplitSet(b)
  }

  /** The orientation and ratio of split `k`, if the tree has it. */
  function FrameOf<S(==), L>(t: Tree<S, L>, k: S): Option<Frame> {
    match t
    case Leaf(_) => None
    case Split(id, o, r, a, b) =>
      if id == k then Some(Frame(o, r))
      else if FrameOf(a, k).Some? then FrameOf(a, k)
      else FrameOf(b, k)
  }

  /** No leaf and no split occurs twice. */
  ghost predicate Distinct<S, L>(t: Tree<S, L>) {
    match t
    case Leaf(_) => true
    case Split(id, _, _, a, b) =>
      && Distinct(a) && Distinct(b)
      && LeafSet(a) !! LeafSet(b)
      && SplitSet(a) !! SplitSet(b)
      && id !in SplitSet(a) && id !in SplitSet(b)
  }

  function FirstLeaf<S, L>(t: Tree<S, L>): L {
    match t
    case Leaf(l) => l
    case Split(_, _, _, a, _) => FirstLeaf(a)
  }

  // ----- the edits

  /** Puts `u` where leaf `at` is. */
  function Graft<S(==), L(==)>(t: Tree<S, L>, at: L, u: Tree<S, L>): Tree<S, L> {
    match t
    case Leaf(l) => if l == at then u else t
    case Split(id, o, r, a, b) => Split(id, o, r, Graft(a, at, u), Graft(b, at, u))
  }

  /** A new leaf becomes the second child of a new split that takes the anchor's place. */
  function Add<S(==), L(==)>(t: Tree<S, L>, anchor: L, leaf: L, id: S, o: Orientation, r: real): Tree<S, L> {
    Graft(t, anchor, Split(id, o, r, Leaf(anchor), Leaf(leaf)))
  }

  /** Removing a leaf collapses its parent onto the sibling; removing the only leaf empties the tree. */
  function Remove<S(==), L(==)>(t: Tree<S, L>, l: L): Option<Tree<S, L>> {
    match t
    case Leaf(k) => if k == l then None else Some(t)
    case Split(id, o, r, a, b) =>
      match (Remove(a, l), Remove(b, l))
      case (None, _) => Some(b)
      case (_, None) => Some(a)
      case (Some(a'), Some(b')) => Some(Split(id, o, r, a', b'))
  }

  /** The split that seats `source` beside `target`. */
  function Beside<S, L>(source: L, target: L, d: Direction, id: S, r: real): Tree<S, L> {
    if d.SourceFirst() then Split(id, d.Axis(), r, Leaf(source), Leaf(target))
    else Split(id, d.Axis(), r, Leaf(target), Leaf(source))
  }

  /** A leaf leaves its place and is reinserted beside `target`. */
  function Relocate<S(==), L(==)>(t: Tree<S, L>, source: L, target: L, d: Direction, id: S, r: real): Tree<S, L> {
    match Remove(t, source)
    case None => t
    case Some(rest) => Graft(rest, target, Beside(source, target, d, id, r))
  }

  /** Two leaves trade places. */
  function Exchange<S, L(==)>(t: Tree<S, L>, x: L, y: L): Tree<S, L> {
    match t
    case Leaf(l) => Leaf(if l == x then y else if l == y then x else l)
    case Split(id, o, r, a, b) => Split(id, o, r, Exchange(a, x, y), Exchange(b, x, y))
  }

  /** One split's orientation and ratio change, nothing else. */
  function Reframe<S(==), L>(t: Tree<S, L>, id: S, f: Frame): Tree<S, L> {
    match t
    case Leaf(_) => t
    case Split(k, o, r, a, b) =>
      if k == id then Split(k, f.orientation, f.ratio, a, b)
      else Split(k, o, r, Reframe(a, id, f), Reframe(b, id, f))
  }

  // ----- first facts

  lemma {:induction false} LeavesAreLeafSet<S, L>(t: Tree<S, L>, l: L)
    ensures l in Leaves(t) <==> l in LeafSet(t)
  {
    if t.Split? {
      LeavesAreLeafSet(t.first, l);
      LeavesAreLeafSet(t.second, l);
    }
  }

  lemma {:induction false} FirstLeafLeads<S, L>(t: Tree<S, L>)
    ensures |Leaves(t)| >= 1 && Leaves(t)[0] == FirstLeaf(t)
    ensures FirstLeaf(t) in LeafSet(t)
  {
    if t.Split? {
      FirstLeafLeads(t.first);
    }
  }

  lemma {:induction false} FramesAreSplitSet<S, L>(t: Tree<S, L>, k: S)
    ensures FrameOf(t, k).Some? <==> k in SplitSet(t)
  {
    if t.Split? {
      FramesAreSplitSet(t.first, k);
      FramesAreSplitSet(t.second, k);
    }
  }

  lemma {:induction false} DistinctLeaves<S, L>(t: Tree<S, L>)
    requires Distinct(t)
    ensures NoDup(Leaves(t))
  {
    if t.Split? {
      DistinctLeaves(t.first);
      DistinctLeaves(t.second);
      forall l | l in Leaves(t.first) ensures l !in Leaves(t.second) {
        LeavesAreLeafSet(t.first, l);
        LeavesAreLeafSet(t.second, l);
      }
      NoDupConcat(Leaves(t.first), Leaves(t.second));
    }
  }

  // ----- grafting

  lemma {:induction false} GraftElsewhere<S, L>(t: Tree<S, L>, at: L, u: Tree<S, L>)
    requires at !in LeafSet(t)
    ensures Graft(t, at, u) == t
  {
    if t.Split? {
      GraftElsewhere(t.first, at, u);
      GraftElsewhere(t.second, at, u);
    }
  }

  /** Grafting keeps every leaf but the one replaced and every split, and adds exactly those of `u`. */
  lemma {:induction false} GraftContents<S, L>(t: Tree<S, L>, at: L, u: Tree<S, L>)
    requires Distinct(t) && at in LeafSet(t)
    ensures LeafSet(Graft(t, at, u)) == LeafSet(t) - {at} + LeafSet(u)
    ensures SplitSet(Graft(t, at, u)) == SplitSet(t) + SplitSet(u)
  {
    match t
    case Leaf(_) =>
    case Split(id, o, r, a, b) =>
      if at in LeafSet(a) {
        GraftContents(a, at, u);
        GraftElsewhere(b, at, u);
      } else {
        GraftElsewhere(a, at, u);
        GraftContents(b, at, u);
      }
  }

  /** Every split of `t` keeps its orientation and ratio under a graft. */
  lemma {:induction false} GraftFrames<S, L>(t: Tree<S, L>, at: L, u: Tree<S, L>, k: S)
    requires Distinct(t) && at in LeafSet(t) && SplitSet(u) !! SplitSet(t)
    ensures FrameOf(Graft(t, at, u), k) == if k in SplitSet(t) then FrameOf(t, k) else FrameOf(u, k)
  {
    match t
    case Leaf(_) =>
    case Split(id, o, r, a, b) =>
      FramesAreSplitSet(a, k);
      FramesAreSplitSet(b, k);
      FramesAreSplitSet(u, k);
      if at in LeafSet(a) {
        GraftFrames(a, at, u, k);
        GraftElsewhere(b, at, u);
      } else {
        GraftElsewhere(a, at, u);
        GraftFrames(b, at, u, k);
      }
  }

  lemma {:induction false} GraftDistinct<S, L>(t: Tree<S, L>, at: L, u: Tree<S, L>)
    requires Distinct(t) && Distinct(u) && at in LeafSet(t)
    requires LeafSet(u) !! (LeafSet(t) - {at}) && SplitSet(u) !! SplitSet(t)
    ensures Distinct(Graft(t, at, u))
  {
    match t
    case Leaf(_) =>
    case Split(id, o, r, a, b) =>
      if at in LeafSet(a) {
        GraftDistinct(a, at, u);
        GraftContents(a, at, u);
        GraftElsewhere(b, at, u);
      } else {
        GraftElsewhere(a, at, u);
        GraftDistinct(b, at, u);
        GraftContents(b, at, u);
      }
  }

  /** In order, the leaves of `u` stand where `at` stood. */
  lemma {:induction false} GraftLeaves<S, L>(t: Tree<S, L>, at: L, u: Tree<S, L>)
    requires Distinct(t) && at in LeafSet(t)
    ensures Leaves(Graft(t, at, u)) == Expand(Leaves(t), at, Leaves(u))
  {
    match t
    case Leaf(_) =>
      assert Leaves(t) == [at];
    case Split(id, o, r, a, b) =>
      LeavesAreLeafSet(a, at);
      LeavesAreLeafSet(b, at);
      ExpandConcat(Leaves(a), Leaves(b), at, Leaves(u));
      if at in LeafSet(a) {
        GraftLeaves(a, at, u);
        GraftElsewhere(b, at, u);
        ExpandElsewhere(Leaves(b), at, Leaves(u));
      } else {
        GraftElsewhere(a, at, u);
        GraftLeaves(b, at, u);
        ExpandElsewhere(Leaves(a), at, Leaves(u));
      }
  }

  // ----- removing

  lemma {:induction false} RemoveElsewhere<S, L>(t: Tree<S, L>, l: L)
    requires l !in LeafSet(t)
    ensures Remove(t, l) == Some(t)
  {
    if t.Split? {
      RemoveElsewhere(t.first, l);
      RemoveElsewhere(t.second, l);
    }
  }

  /** The tree empties exactly when the removed leaf was the whole tree. */
  lemma {:induction false} RemoveEmpties<S, L>(t: Tree<S, L>, l: L)
    requires Distinct(t)
    ensures Remove(t, l).None? <==> t == Leaf(l)
  {
  }

  /** The split that removing `l` frees: the parent of `l`. */
  function ParentOf<S(==), L(==)>(t: Tree<S, L>, l: L): Option<S> {
    match t
    case Leaf(_) => None
    case Split(id, _, _, a, b) =>
      if a == Leaf(l) || b == Leaf(l) then Some(id)
      else if ParentOf(a, l).Some? then ParentOf(a, l)
      else ParentOf(b, l)
  }

  /** Removal deletes one leaf and its parent split, nothing else. */
  lemma {:induction false} RemoveContents<S, L>(t: Tree<S, L>, l: L)
    requires Distinct(t) && l in LeafSet(t) && t != Leaf(l)
    ensures ParentOf(t, l).Some? && ParentOf(t, l).value in SplitSet(t)
    ensures var rest := Remove(t, l).value;
      && LeafSet(rest) == LeafSet(t) - {l}
      && SplitSet(rest) == SplitSet(t) - {ParentOf(t, l).value}
  {
    var a, b := t.first, t.second;
    RemoveEmpties(a, l);
    RemoveEmpties(b, l);
    if l in LeafSet(a) {
      RemoveElsewhere(b, l);
      ParentElsewhere(b, l);
      if a != Leaf(l) {
        RemoveContents(a, l);
      }
    } else {
      RemoveElsewhere(a, l);
      ParentElsewhere(a, l);
      if b != Leaf(l) {
        RemoveContents(b, l);
      }
    }
  }

  lemma {:induction false} RemoveDistinct<S, L>(t: Tree<S, L>, l: L)
    requires Distinct(t) && l in LeafSet(t) && t != Leaf(l)
    ensures Distinct(Remove(t, l).value)
  {
    var a, b := t.first, t.second;
    RemoveEmpties(a, l);
    RemoveEmpties(b, l);
    if l in LeafSet(a) {
      RemoveElsewhere(b, l);
      if a != Leaf(l) {
        RemoveContents(a, l);
        RemoveDistinct(a, l);
      }
    } else {
      RemoveElsewhere(a, l);
      if b != Leaf(l) {
        RemoveContents(b, l);
        RemoveDistinct(b, l);
      }
    }
  }

  /** Every surviving split keeps its orientation and ratio. */
  lemma {:induction false} RemoveFrames<S, L>(t: Tree<S, L>, l: L, k: S)
    requires Distinct(t) && l in LeafSet(t) && t != Leaf(l)
    ensures FrameOf(Remove(t, l).value, k) == if ParentOf(t, l) == Some(k) then None else FrameOf(t, k)
  {
    var a, b := t.first, t.second;
    RemoveEmpties(a, l);
    RemoveEmpties(b, l);
    FramesAreSplitSet(a, k);
    FramesAreSplitSet(b, k);
    if l in LeafSet(a) {
      RemoveElsewhere(b, l);
      ParentElsewhere(b, l);
      if a != Leaf(l) {
        RemoveContents(a, l);
        RemoveFrames(a, l, k);
      }
    } else {
      RemoveElsewhere(a, l);
      ParentElsewhere(a, l);
      if b != Leaf(l) {
        RemoveContents(b, l);
        RemoveFrames(b, l, k);
      }
    }
  }

  lemma {:induction false} ParentElsewhere<S, L>(t: Tree<S, L>, l: L)
    requires l !in LeafSet(t)
    ensures ParentOf(t, l).None?
  {
    if t.Split? {
      ParentElsewhere(t.first, l);
      ParentElsewhere(t.second, l);
    }
  }

  lemma {:induction false} RemoveLeaves<S, L>(t: Tree<S, L>, l: L)
    requires Distinct(t) && t != Leaf(l)
    ensures Remove(t, l).Some? && Leaves(Remove(t, l).value) == Without(Leaves(t), l)
  {
    match t
    case Leaf(_) =>
    case Split(id, o, r, a, b) =>
      RemoveEmpties(a, l);
      RemoveEmpties(b, l);
      WithoutConcat(Leaves(a), Leaves(b), l);
      if a == Leaf(l) {
        LeavesAreLeafSet(b, l);
        WithoutElsewhere(Leaves(b), l);
        assert Leaves(a) == [l];
        assert Without(Leaves(a), l) == [];
      } else if b == Leaf(l) {
        LeavesAreLeafSet(a, l);
        WithoutElsewhere(Leaves(a), l);
        assert Leaves(b) == [l];
        assert Without(Leaves(b), l) == [];
        assert Leaves(a) + [] == Leaves(a);
      } else {
        RemoveLeaves(a, l);
        RemoveLeaves(b, l);
      }
  }

  // ----- what each edit means

  /** Adding puts the new leaf right after the anchor; no split changes, one appears. */
  lemma AddMeaning<S, L>(t: Tree<S, L>, anchor: L, leaf: L, id: S, o: Orientation, r: real, k: S)
    requires Distinct(t) && anchor in LeafSet(t) && leaf !in LeafSet(t) && id !in SplitSet(t)
    ensures var u := Add(t, anchor, leaf, id, o, r);
      && Distinct(u)
      && Leaves(u) == InsertAfter(Leaves(t), anchor, leaf)
      && LeafSet(u) == LeafSet(t) + {leaf}
      && SplitSet(u) == SplitSet(t) + {id}
      && FrameOf(u, k) == if k == id then Some(Frame(o, r)) else FrameOf(t, k)
  {
    var b := Split(id, o, r, Leaf(anchor), Leaf(leaf));
    GraftDistinct(t, anchor, b);
    GraftContents(t, anchor, b);
    GraftLeaves(t, anchor, b);
    GraftFrames(t, anchor, b, k);
    FramesAreSplitSet(t, k);
    assert Leaves(b) == [anchor, leaf];
  }

  /** Removing deletes the leaf from the order and frees only its parent split. */
  lemma RemoveMeaning<S, L>(t: Tree<S, L>, l: L, k: S)
    requires Distinct(t) && l in LeafSet(t) && t != Leaf(l)
    ensures Remove(t, l).Some? && ParentOf(t, l).Some?
    ensures var u := Remove(t, l).value;
      && Distinct(u)
      && Leaves(u) == Without(Leaves(t), l)
      && LeafSet(u) == LeafSet(t) - {l}
      && SplitSet(u) == SplitSet(t) - {ParentOf(t, l).value}
      && FrameOf(u, k) == if k == ParentOf(t, l).value then None else FrameOf(t, k)
  {
    RemoveContents(t, l);
    RemoveDistinct(t, l);
    RemoveLeaves(t, l);
    RemoveFrames(t, l, k);
  }

  /** Seating a new leaf beside a target. */
  lemma SeatMeaning<S, L>(t: Tree<S, L>, source: L, target: L, d: Direction, id: S, r: real, k: S)
    requires Distinct(t) && target in LeafSet(t) && source !in LeafSet(t) && id !in SplitSet(t)
    ensures var u := Graft(t, target, Beside(source, target, d, id, r));
      && Distinct(u)
      && Leaves(u) == (if d.SourceFirst() then InsertBefore(Leaves(t), target, source)
                       else InsertAfter(Leaves(t), target, source))
      && LeafSet(u) == LeafSet(t) + {source}
      && SplitSet(u) == SplitSet(t) + {id}
      && FrameOf(u, k) == if k == id then Some(Frame(d.Axis(), r)) else FrameOf(t, k)
  {
    hide Expand;
    var b := Beside(source, target, d, id, r);
    GraftDistinct(t, target, b);
    GraftContents(t, target, b);
    GraftLeaves(t, target, b);
    GraftFrames(t, target, b, k);
    FramesAreSplitSet(t, k);
    assert Leaves(b) == if d.SourceFirst() then [source, target] else [target, source];
  }

  /** Relocation deletes the source from the order and reinserts it immediately beside the
      target, siblings or not; every surviving split keeps its orientation and ratio. */
  lemma RelocateMeaning<S, L>(t: Tree<S, L>, source: L, target: L, d: Direction, id: S, r: real, k: S)
    requires Distinct(t) && source in LeafSet(t) && target in LeafSet(t) && source != target
    requires id !in SplitSet(t)
    ensures ParentOf(t, source).Some?
    ensures var u := Relocate(t, source, target, d, id, r);
      && Distinct(u)
      && Leaves(u) == (if d.SourceFirst() then InsertBefore(Without(Leaves(t), source), target, source)
                       else InsertAfter(Without(Leaves(t), source), target, source))
      && LeafSet(u) == LeafSet(t)
      && SplitSet(u) == SplitSet(t) - {ParentOf(t, source).value} + {id}
      && FrameOf(u, k) == if k == id then Some(Frame(d.Axis(), r))
                          else if k == ParentOf(t, source).value then None
                          else FrameOf(t, k)
  {
    RemoveMeaning(t, source, k);
    SeatMeaning(Remove(t, source).value, source, target, d, id, r, k);
  }

  function SwapName<L(==)>(l: L, x: L, y: L): L {
    if l == x then y else if l == y then x else l
  }

  lemma {:induction false} ExchangeRenames<S, L>(t: Tree<S, L>, x: L, y: L, l: L)
    ensures l in LeafSet(Exchange(t, x, y)) <==> SwapName(l, x, y) in LeafSet(t)
  {
    if t.Split? {
      ExchangeRenames(t.first, x, y, l);
      ExchangeRenames(t.second, x, y, l);
    }
  }

  /** Exchanging two leaves renames them in the order and touches no split. */
  lemma {:induction false} ExchangeMeaning<S, L>(t: Tree<S, L>, x: L, y: L, k: S)
    requires Distinct(t)
    ensures var u := Exchange(t, x, y);
      && Distinct(u)
      && |Leaves(u)| == |Leaves(t)|
      && (forall i :: 0 <= i < |Leaves(t)| ==> Leaves(u)[i] == SwapName(Leaves(t)[i], x, y))
      && SplitSet(u) == SplitSet(t)
      && FrameOf(u, k) == FrameOf(t, k)
  {
    if t.Split? {
      ExchangeMeaning(t.first, x, y, k);
      ExchangeMeaning(t.second, x, y, k);
      forall l | l in LeafSet(Exchange(t.first, x, y))
        ensures l !in LeafSet(Exchange(t.second, x, y))
      {
        ExchangeRenames(t.first, x, y, l);
        ExchangeRenames(t.second, x, y, l);
      }
    }
  }

  lemma {:induction false} ReframeMeaning<S, L>(t: Tree<S, L>, id: S, f: Frame, k: S)
    requires Distinct(t)
    ensures var u := Reframe(t, id, f);
      && Distinct(u)
      && Leaves(u) == Leaves(t) && LeafSet(u) == LeafSet(t) && SplitSet(u) == SplitSet(t)
      && FrameOf(u, k) == if k == id && k in SplitSet(t) then Some(f) else FrameOf(t, k)
  {
    if t.Split? {
      FramesAreSplitSet(t.first, k);
      FramesAreSplitSet(t.second, k);
      ReframeMeaning(t.first, id, f, k);
      ReframeMeaning(t.second, id, f, k);
    }
  }

  // ----- round trips

  /** If removing `l` from the grafted block leaves just the old leaf, removing it from the whole
      tree undoes the graft. */
  lemma {:induction false} RemoveUndoesGraft<S, L>(t: Tree<S, L>, at: L, u: Tree<S, L>, l: L)
    requires Distinct(t) && at in LeafSet(t) && l !in LeafSet(t)
    requires Remove(u, l) == Some(Leaf(at))
    ensures Remove(Graft(t, at, u), l) == Some(t)
  {
    if t.Split? {
      RemoveElsewhere(t.first, l);
      RemoveElsewhere(t.second, l);
      if at in LeafSet(t.first) {
        RemoveUndoesGraft(t.first, at, u, l);
        GraftElsewhere(t.second, at, u);
      } else {
        GraftElsewhere(t.first, at, u);
        RemoveUndoesGraft(t.second, at, u, l);
      }
    }
  }

  /** Adding a leaf and removing it again restores the tree exactly, ratios included. */
  lemma RemoveUndoesAdd<S, L>(t: Tree<S, L>, anchor: L, leaf: L, id: S, o: Orientation, r: real)
    requires Distinct(t) && anchor in LeafSet(t) && leaf !in LeafSet(t)
    ensures Remove(Add(t, anchor, leaf, id, o, r), leaf) == Some(t)
  {
    RemoveUndoesGraft(t, anchor, Split(id, o, r, Leaf(anchor), Leaf(leaf)), leaf);
  }

  /** Relocating twice to the same place is relocating once; only the fresh split's name differs. */
  lemma RelocateIdempotent<S, L>(t: Tree<S, L>, source: L, target: L, d: Direction, id1: S, id2: S, r: real)
    requires Distinct(t) && source in LeafSet(t) && target in LeafSet(t) && source != target
    ensures Relocate(Relocate(t, source, target, d, id1, r), source, target, d, id2, r)
         == Relocate(t, source, target, d, id2, r)
  {
    RemoveEmpties(t, source);
    RemoveContents(t, source);
    RemoveDistinct(t, source);
    RemoveUndoesGraft(Remove(t, source).value, target, Beside(source, target, d, id1, r), source);
  }

  lemma {:induction false} ExchangeInvolutive<S, L>(t: Tree<S, L>, x: L, y: L)
    ensures Exchange(Exchange(t, x, y), x, y) == t
  {
    if t.Split? {
      ExchangeInvolutive(t.first, x, y);
      ExchangeInvolutive(t.second, x, y);
    }
  }

  // ----- a tree with its registry

  /** A tree and the registry of its leaves, in the order in which they came. */
  datatype TreeLayout<S, L> = Tiling(tree: Option<Tree<S, L>>, tiles: seq<L>)

  /** The layout after `g` came, seated right after the anchor. */
  function Entered<S(==), L(==)>(l: TreeLayout<S, L>, anchor: Option<L>, g: L, split: S, o: Orientation,
                                 r: real): TreeLayout<S, L> {
    match l.tree
    case None => Tiling(Some(Leaf(g)), l.tiles + [g])
    case Some(t) => Tiling(Some(if anchor.Some? then Add(t, anchor.value, g, split, o, r) else t), l.tiles + [g])
  }

  /** The layout after `g` left. */
  function Departed<S(==), L(==)>(l: TreeLayout<S, L>, g: L): TreeLayout<S, L> {
    match l.tree
    case None => l
    case Some(t) => Tiling(Remove(t, g), Without(l.tiles, g))
  }

  /** A list with two names exchanged. */
  function Renamed<L(==)>(list: seq<L>, a: L, b: L): seq<L> {
    seq(|list|, i requires 0 <= i < |list| => SwapName(list[i], a, b))
  }

  /** The leaf a new one is seated after: the active one if it is registered, else the last registered. */
  function AnchorIn<S, L(==)>(l: TreeLayout<S, L>, active: Option<L>): Option<L> {
    if active.Some? && active.value in l.tiles then active
    else if l.tiles == [] then None
    else Some(l.tiles[|l.tiles| - 1])
  }

  /** The anchor is the active leaf while that is registered; else it is the leaf that entered last, and
      there is none only when nothing is registered. */
  lemma AnchorMeaning<S, L>(l: TreeLayout<S, L>, active: Option<L>, anchor: Option<L>, g: L, split: S, o: Orientation,
                            r: real)
    ensures active.Some? && active.value in l.tiles ==> AnchorIn(l, active) == active
    ensures AnchorIn(l, active).None? <==> l.tiles == []
    ensures var e := Entered(l, anchor, g, split, o, r);
      !(active.Some? && active.value in e.tiles) ==> AnchorIn(e, active) == Some(g)
  {
    var e := Entered(l, anchor, g, split, o, r);
    assert e.tiles[|e.tiles| - 1] == g;
  }
}
