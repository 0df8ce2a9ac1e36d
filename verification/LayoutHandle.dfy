/** Resize handles.

A drag on a border is remembered as the leftmost groups of the two sides of a split.
This module shows that such a pair names its split, and keeps naming it however the
layout is edited, as long as neither of the two groups itself moves.  */
module LayoutHandle {
  import opened Seqs
  import opened LayoutTree

  /** The subtree rooted at split `k`. */
  function SubtreeAt<S(==), L>(t: Tree<S, L>, k: S): Option<Tree<S, L>> {
    match t
    case Leaf(_) => None
    case Split(id, _, _, a, b) =>
      if id == k then Some(t)
      else if SubtreeAt(a, k).Some? then SubtreeAt(a, k)
      else SubtreeAt(b, k)
  }

  /** The split with `x` below its first child and `y` below its second. */
  function Meet<S, L(==)>(t: Tree<S, L>, x: L, y: L): Option<S> {
    match t
    case Leaf(_) => None
    case Split(id, _, _, a, b) =>
      if x in LeafSet(a) && y in LeafSet(b) then Some(id)
      else if Meet(a, x, y).Some? then Meet(a, x, y)
      else Meet(b, x, y)
  }

  /** The search of the compositor: climbing from `x`, the first split of orientation `o`
      that has `x` below its first child and `y` below its second. */
  function Resolve<S, L(==)>(t: Tree<S, L>, x: L, y: L, o: Orientation): Option<S> {
    match t
    case Leaf(_) => None
    case Split(id, k, _, a, b) =>
      if x in LeafSet(a) then
        if Resolve(a, x, y, o).Some? then Resolve(a, x, y, o)
        else if k == o && y in LeafSet(b) then Some(id)
        else None
      else if x in LeafSet(b) then Resolve(b, x, y, o)
      else None
  }

  lemma {:induction false} MeetElsewhere<S, L>(t: Tree<S, L>, x: L, y: L)
    requires x !in LeafSet(t) || y !in LeafSet(t)
    ensures Meet(t, x, y).None?
  {
    if t.Split? {
      MeetElsewhere(t.first, x, y);
      MeetElsewhere(t.second, x, y);
    }
  }

  lemma {:induction false} MeetIsSplit<S, L>(t: Tree<S, L>, x: L, y: L)
    ensures Meet(t, x, y).Some? ==> Meet(t, x, y).value in SplitSet(t) && x in LeafSet(t) && y in LeafSet(t)
  {
    if t.Split? {
      MeetIsSplit(t.first, x, y);
      MeetIsSplit(t.second, x, y);
    }
  }

  /** The climb finds the meeting split exactly when that split has the orientation asked for. */
  lemma {:induction false} ResolveIsMeet<S, L>(t: Tree<S, L>, x: L, y: L, o: Orientation)
    requires Distinct(t)
    ensures Resolve(t, x, y, o) ==
      (if Meet(t, x, y).Some? && FrameOf(t, Meet(t, x, y).value).Some?
          && FrameOf(t, Meet(t, x, y).value).value.orientation == o
       then Meet(t, x, y) else None)
  {
    match t
    case Leaf(_) =>
    case Split(id, k, r, a, b) =>
      ResolveIsMeet(a, x, y, o);
      ResolveIsMeet(b, x, y, o);
      MeetIsSplit(a, x, y);
      MeetIsSplit(b, x, y);
      if x in LeafSet(a) {
        MeetElsewhere(b, x, y);
      } else {
        MeetElsewhere(a, x, y);
      }
      if y in LeafSet(b) {
        MeetElsewhere(a, x, y);
      }
      if Meet(t, x, y).Some? {
        FramesAreSplitSet(a, Meet(t, x, y).value);
        FramesAreSplitSet(b, Meet(t, x, y).value);
      }
  }

  lemma {:induction false} SubtreeIsInside<S, L>(t: Tree<S, L>, k: S)
    ensures SubtreeAt(t, k).Some? <==> k in SplitSet(t)
    ensures SubtreeAt(t, k).Some? ==>
      var u := SubtreeAt(t, k).value; u.Split? && u.id == k && LeafSet(u) <= LeafSet(t)
  {
    if t.Split? {
      SubtreeIsInside(t.first, k);
      SubtreeIsInside(t.second, k);
    }
  }

  /** The leftmost leaves of a split's two children meet at that split, and the split still has
      the orientation recorded with them. */
  lemma {:induction false} HandleMeets<S, L>(t: Tree<S, L>, k: S)
    requires Distinct(t) && k in SplitSet(t)
    ensures SubtreeAt(t, k).Some? && SubtreeAt(t, k).value.Split?
    ensures var u := SubtreeAt(t, k).value;
      && Meet(t, FirstLeaf(u.first), FirstLeaf(u.second)) == Some(k)
      && FrameOf(t, k) == Some(Frame(u.orientation, u.ratio))
  {
    SubtreeIsInside(t, k);
    FramesAreSplitSet(t, k);
    var u := SubtreeAt(t, k).value;
    FirstLeafLeads(u.first);
    FirstLeafLeads(u.second);
    if t.id != k {
      SubtreeIsInside(t.first, k);
      SubtreeIsInside(t.second, k);
      FramesAreSplitSet(t.first, k);
      FramesAreSplitSet(t.second, k);
      if k in SplitSet(t.first) {
        HandleMeets(t.first, k);
      } else {
        HandleMeets(t.second, k);
        MeetElsewhere(t.first, FirstLeaf(u.first), FirstLeaf(u.second));
      }
    }
  }

  /** A handle read off a split resolves to exactly that split. */
  lemma HandleResolves<S, L>(t: Tree<S, L>, k: S)
    requires Distinct(t) && k in SplitSet(t)
    ensures SubtreeAt(t, k).Some? && SubtreeAt(t, k).value.Split?
    ensures var u := SubtreeAt(t, k).value;
      Resolve(t, FirstLeaf(u.first), FirstLeaf(u.second), u.orientation) == Some(k)
  {
    HandleMeets(t, k);
    var u := SubtreeAt(t, k).value;
    ResolveIsMeet(t, FirstLeaf(u.first), FirstLeaf(u.second), u.orientation);
  }

  // ----- edits keep the meeting split

  lemma {:induction false} MeetAfterGraft<S, L>(t: Tree<S, L>, at: L, u: Tree<S, L>, x: L, y: L)
    requires Distinct(t) && at in LeafSet(t) && at in LeafSet(u)
    requires LeafSet(u) !! (LeafSet(t) - {at})
    requires Meet(t, x, y).Some?
    ensures Meet(Graft(t, at, u), x, y) == Meet(t, x, y)
  {
    match t
    case Leaf(_) =>
    case Split(id, o, r, a, b) =>
      MeetIsSplit(t, x, y);
      if at in LeafSet(a) {
        GraftContents(a, at, u);
        GraftElsewhere(b, at, u);
      } else {
        GraftElsewhere(a, at, u);
        GraftContents(b, at, u);
      }
      if x in LeafSet(a) && y in LeafSet(b) {
      } else if Meet(a, x, y).Some? {
        MeetIsSplit(a, x, y);
        if at in LeafSet(a) {
          MeetAfterGraft(a, at, u, x, y);
        }
      } else {
        MeetIsSplit(b, x, y);
        MeetElsewhere(Graft(a, at, u), x, y);
        if at in LeafSet(b) {
          MeetAfterGraft(b, at, u, x, y);
        }
      }
  }

  lemma {:induction false} MeetAfterRemove<S, L>(t: Tree<S, L>, l: L, x: L, y: L)
    requires Distinct(t) && l in LeafSet(t) && l != x && l != y
    requires Meet(t, x, y).Some?
    ensures Remove(t, l).Some? && Meet(Remove(t, l).value, x, y) == Meet(t, x, y)
    ensures ParentOf(t, l) != Meet(t, x, y)
  {
    match t
    case Leaf(_) =>
    case Split(id, o, r, a, b) =>
      MeetIsSplit(t, x, y);
      MeetIsSplit(a, x, y);
      MeetIsSplit(b, x, y);
      RemoveEmpties(a, l);
      RemoveEmpties(b, l);
      if l in LeafSet(a) {
        RemoveElsewhere(b, l);
        ParentElsewhere(b, l);
        if a != Leaf(l) {
          RemoveContents(a, l);
          if Meet(a, x, y).Some? {
            MeetAfterRemove(a, l, x, y);
          } else {
            MeetElsewhere(Remove(a, l).value, x, y);
          }
        }
      } else {
        RemoveElsewhere(a, l);
        ParentElsewhere(a, l);
        if b != Leaf(l) {
          RemoveContents(b, l);
          if Meet(b, x, y).Some? {
            MeetAfterRemove(b, l, x, y);
          }
        }
      }
  }

  lemma {:induction false} MeetAfterExchange<S, L>(t: Tree<S, L>, a: L, b: L, x: L, y: L)
    requires x != a && x != b && y != a && y != b
    ensures Meet(Exchange(t, a, b), x, y) == Meet(t, x, y)
  {
    if t.Split? {
      MeetAfterExchange(t.first, a, b, x, y);
      MeetAfterExchange(t.second, a, b, x, y);
      ExchangeRenames(t.first, a, b, x);
      ExchangeRenames(t.second, a, b, y);
    }
  }

  lemma {:induction false} MeetAfterReframe<S, L>(t: Tree<S, L>, k: S, f: Frame, x: L, y: L)
    requires Distinct(t)
    ensures Meet(Reframe(t, k, f), x, y) == Meet(t, x, y)
  {
    if t.Split? {
      ReframeMeaning(t.first, k, f, k);
      ReframeMeaning(t.second, k, f, k);
      MeetAfterReframe(t.first, k, f, x, y);
      MeetAfterReframe(t.second, k, f, x, y);
    }
  }

  // ----- whole runs of edits

  /** One edit of a workspace tree.  A group migrating away is a `Removing`, a group migrating
      in is an `Adding`. */
  datatype Edit<S, L> =
    | Adding(anchor: L, leaf: L, id: S, o: Orientation, r: real)
    | Removing(leaf: L)
    | Relocating(source: L, target: L, d: Direction, id: S, r: real)
    | Exchanging(a: L, b: L)
    | Resizing(id: S, r: real)
    | Flipping(id: S)
  {
    /** What the compositor guarantees of an edit: it names leaves of the tree, new leaves and
        new splits are fresh, and the tree does not empty. */
    ghost predicate Fits(t: Tree<S, L>) {
      match this
      case Adding(anchor, leaf, id, _, _) => anchor in LeafSet(t) && leaf !in LeafSet(t) && id !in SplitSet(t)
      case Removing(leaf) => leaf in LeafSet(t) && t != Leaf(leaf)
      case Relocating(source, target, _, id, _) =>
        source in LeafSet(t) && target in LeafSet(t) && source != target && id !in SplitSet(t)
      case Exchanging(a, b) => a in LeafSet(t) && b in LeafSet(t) && a != b
      case Resizing(id, _) => id in SplitSet(t)
      case Flipping(id) => id in SplitSet(t)
    }

    /** The edit takes leaf `l` itself away from its place. */
    ghost predicate Moves(l: L) {
      match this
      case Removing(leaf) => leaf == l
      case Relocating(source, _, _, _, _) => source == l
      case Exchanging(a, b) => a == l || b == l
      case _ => false
    }

    ghost function Apply(t: Tree<S, L>): Tree<S, L>
      requires Fits(t)
    {
      match this
      case Adding(anchor, leaf, id, o, r) => Add(t, anchor, leaf, id, o, r)
      case Removing(leaf) => if Remove(t, leaf).Some? then Remove(t, leaf).value else t
      case Relocating(source, target, d, id, r) => Relocate(t, source, target, d, id, r)
      case Exchanging(a, b) => Exchange(t, a, b)
      case Resizing(id, r) =>
        if FrameOf(t, id).Some? then Reframe(t, id, FrameOf(t, id).value.(ratio := r)) else t
      case Flipping(id) =>
        if FrameOf(t, id).Some?
        then Reframe(t, id, FrameOf(t, id).value.(orientation := FrameOf(t, id).value.orientation.Flipped()))
        else t
    }
  }

  /** `es` can be carried out from `t`, one after the other, and ends in `u`. */
  ghost predicate Run<S, L>(t: Tree<S, L>, es: seq<Edit<S, L>>, u: Tree<S, L>)
    decreases |es|
  {
    if es == [] then u == t
    else es[0].Fits(t) && Run(es[0].Apply(t), es[1..], u)
  }

  lemma EditKeepsDistinct<S, L>(t: Tree<S, L>, e: Edit<S, L>)
    requires Distinct(t) && e.Fits(t)
    ensures Distinct(e.Apply(t))
  {
    match e
    case Adding(anchor, leaf, id, o, r) => AddMeaning(t, anchor, leaf, id, o, r, id);
    case Removing(leaf) => RemoveEmpties(t, leaf); RemoveDistinct(t, leaf);
    case Relocating(source, target, d, id, r) => RelocateMeaning(t, source, target, d, id, r, id);
    case Exchanging(a, b) =>
      if t.Split? {
        ExchangeMeaning(t, a, b, t.id);
      }
    case Resizing(id, r) =>
      FramesAreSplitSet(t, id);
      ReframeMeaning(t, id, FrameOf(t, id).value.(ratio := r), id);
    case Flipping(id) =>
      FramesAreSplitSet(t, id);
      ReframeMeaning(t, id, FrameOf(t, id).value.(orientation := FrameOf(t, id).value.orientation.Flipped()), id);
  }

  /** One edit that moves neither leaf keeps their meeting split, and its orientation unless the
      edit flips that very split. */
  lemma EditKeepsMeet<S, L>(t: Tree<S, L>, e: Edit<S, L>, x: L, y: L)
    requires Distinct(t) && e.Fits(t) && !e.Moves(x) && !e.Moves(y)
    requires Meet(t, x, y).Some?
    ensures Meet(e.Apply(t), x, y) == Meet(t, x, y)
    ensures var k := Meet(t, x, y).value;
      && FrameOf(t, k).Some? && FrameOf(e.Apply(t), k).Some?
      && FrameOf(e.Apply(t), k).value.orientation ==
           if e == Flipping(k) then FrameOf(t, k).value.orientation.Flipped()
           else FrameOf(t, k).value.orientation
  {
    MeetIsSplit(t, x, y);
    var k := Meet(t, x, y).value;
    FramesAreSplitSet(t, k);
    match e
    case Adding(anchor, leaf, id, o, r) =>
      AddMeaning(t, anchor, leaf, id, o, r, k);
      MeetAfterGraft(t, anchor, Split(id, o, r, Leaf(anchor), Leaf(leaf)), x, y);
    case Removing(leaf) =>
      RemoveMeaning(t, leaf, k);
      MeetAfterRemove(t, leaf, x, y);
    case Relocating(source, target, d, id, r) =>
      RelocateMeaning(t, source, target, d, id, r, k);
      RemoveMeaning(t, source, k);
      MeetAfterRemove(t, source, x, y);
      MeetAfterGraft(Remove(t, source).value, target, Beside(source, target, d, id, r), x, y);
    case Exchanging(a, b) =>
      ExchangeMeaning(t, a, b, k);
      MeetAfterExchange(t, a, b, x, y);
    case Resizing(id, r) =>
      FramesAreSplitSet(t, id);
      ReframeMeaning(t, id, FrameOf(t, id).value.(ratio := r), k);
      MeetAfterReframe(t, id, FrameOf(t, id).value.(ratio := r), x, y);
    case Flipping(id) =>
      FramesAreSplitSet(t, id);
      var f := FrameOf(t, id).value.(orientation := FrameOf(t, id).value.orientation.Flipped());
      ReframeMeaning(t, id, f, k);
      MeetAfterReframe(t, id, f, x, y);
  }

  lemma {:induction false} RunKeepsMeet<S, L>(t: Tree<S, L>, es: seq<Edit<S, L>>, u: Tree<S, L>, x: L, y: L)
    requires Distinct(t) && Run(t, es, u)
    requires Meet(t, x, y).Some?
    requires forall e :: e in es ==> !e.Moves(x) && !e.Moves(y) && e != Flipping(Meet(t, x, y).value)
    ensures Distinct(u) && Meet(u, x, y) == Meet(t, x, y)
    ensures var k := Meet(t, x, y).value;
      FrameOf(t, k).Some? && FrameOf(u, k).Some? && FrameOf(u, k).value.orientation == FrameOf(t, k).value.orientation
    decreases |es|
  {
    MeetIsSplit(t, x, y);
    FramesAreSplitSet(t, Meet(t, x, y).value);
    if es != [] {
      EditKeepsDistinct(t, es[0]);
      EditKeepsMeet(t, es[0], x, y);
      RunKeepsMeet(es[0].Apply(t), es[1..], u, x, y);
    }
  }

  /** A handle read off split `k` still resolves to `k` after any run of edits that moves neither
      of its two leaves and does not flip `k`. */
  lemma HandleSurvivesRun<S, L>(t: Tree<S, L>, k: S, es: seq<Edit<S, L>>, u: Tree<S, L>)
    requires Distinct(t) && k in SplitSet(t) && Run(t, es, u)
    requires SubtreeAt(t, k).Some? && SubtreeAt(t, k).value.Split?
    requires var h := SubtreeAt(t, k).value;
      forall e :: e in es ==> !e.Moves(FirstLeaf(h.first)) && !e.Moves(FirstLeaf(h.second)) && e != Flipping(k)
    ensures var h := SubtreeAt(t, k).value;
      Resolve(u, FirstLeaf(h.first), FirstLeaf(h.second), h.orientation) == Some(k)
  {
    HandleMeets(t, k);
    var h := SubtreeAt(t, k).value;
    RunKeepsMeet(t, es, u, FirstLeaf(h.first), FirstLeaf(h.second));
    ResolveIsMeet(u, FirstLeaf(h.first), FirstLeaf(h.second), h.orientation);
  }
}
