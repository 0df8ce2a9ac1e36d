/** The way up from a leaf to the root, and the searches of the layout that climb it. */
module LayoutSpine {
  import opened Seqs
  import opened LayoutTree
  import opened LayoutHandle
  import opened Desktop
  import opened LayoutShape

  /** The splits above leaf `l`, from the root down. */
  ghost function Spine(t: Shape, l: LeafRef): seq<LayoutNode> {
    match t
    case Leaf(_) => []
    case Split(id, _, _, a, b) => if l in LeafSet(a) then [id] + Spine(a, l) else [id] + Spine(b, l)
  }

  /** Climbing parent pointers from a leaf walks its spine backwards. */
  lemma {:induction false} SpineLinks(m: Records, t: Shape, parent: LayoutNode?, l: LeafRef)
    requires Linked(m, t, parent) && l in LeafSet(t)
    ensures var s := Spine(t, l);
      && l.node in m && m[l.node].parent == (if s == [] then parent else s[|s| - 1])
      && forall i :: 0 <= i < |s| ==>
           s[i] in m && m[s[i]].kind == SplitNode && m[s[i]].parent == if i == 0 then parent else s[i - 1]
  {
    if t.Split? {
      if l in LeafSet(t.first) {
        SpineLinks(m, t.first, t.id, l);
      } else {
        SpineLinks(m, t.second, t.id, l);
      }
    }
  }

  lemma {:induction false} SpineInside(t: Shape, l: LeafRef)
    requires l in LeafSet(t)
    ensures forall i :: 0 <= i < |Spine(t, l)| ==> Spine(t, l)[i] in SplitSet(t)
    ensures t.Split? ==> |Spine(t, l)| > 0 && Spine(t, l)[0] == t.id
  {
    if t.Split? {
      if l in LeafSet(t.first) {
        SpineInside(t.first, l);
      } else {
        SpineInside(t.second, l);
      }
    }
  }

  // ----- which side of a split a leaf is on

  /** Node `n` is the leaf itself or a split above it. */
  ghost predicate Over(t: Shape, n: LayoutNode?, l: LeafRef) {
    n == l.node || exists i :: 0 <= i < |Spine(t, l)| && Spine(t, l)[i] == n
  }

  lemma OverStaysInside(t: Shape, n: LayoutNode, l: LeafRef)
    requires l in LeafSet(t) && Over(t, n, l)
    ensures n in Nodes(t)
  {
    LeafNodeIsNode(t, l);
    SpineInside(t, l);
    SplitsAreNodes(t);
  }

  lemma RootIsOver(t: Shape, l: LeafRef)
    requires l in LeafSet(t)
    ensures Over(t, Root(t), l)
  {
    SpineInside(t, l);
  }

  lemma OverInChild(t: Shape, n: LayoutNode, l: LeafRef)
    requires t.Split? && Apart(t) && l in LeafSet(t) && n != t.id
    ensures l in LeafSet(t.first) ==> (Over(t, n, l) <==> Over(t.first, n, l))
    ensures l !in LeafSet(t.first) ==> (Over(t, n, l) <==> Over(t.second, n, l))
  {
    var s := Spine(t, l);
    var u := if l in LeafSet(t.first) then Spine(t.first, l) else Spine(t.second, l);
    assert s == [t.id] + u;
    assert forall i :: 0 <= i < |u| ==> s[i + 1] == u[i];
    assert forall i :: 1 <= i < |s| ==> u[i - 1] == s[i];
  }

  /** The children of split `k` are over exactly the leaves on their side. */
  lemma {:induction false} SidesAreOver(t: Shape, k: LayoutNode, l: LeafRef)
    requires Apart(t) && k in SplitSet(t) && l in LeafSet(t)
    ensures SubtreeAt(t, k).Some? && SubtreeAt(t, k).value.Split?
    ensures var u := SubtreeAt(t, k).value;
      && (Over(t, Root(u.first), l) <==> l in LeafSet(u.first))
      && (Over(t, Root(u.second), l) <==> l in LeafSet(u.second))
  {
    SubtreeIsInside(t, k);
    SplitsAreNodes(t.first);
    SplitsAreNodes(t.second);
    var u := SubtreeAt(t, k).value;
    if t.id == k {
      OverInChild(t, Root(t.first), l);
      OverInChild(t, Root(t.second), l);
      if l in LeafSet(t.first) {
        RootIsOver(t.first, l);
        LeafElsewhere(t.first, t.second, l);
        if Over(t.first, Root(t.second), l) {
          OverStaysInside(t.first, Root(t.second), l);
        }
      } else {
        RootIsOver(t.second, l);
        if Over(t.second, Root(t.first), l) {
          OverStaysInside(t.second, Root(t.first), l);
        }
      }
    } else {
      SubtreeIsInside(t.first, k);
      SubtreeIsInside(t.second, k);
      var side, other := if k in SplitSet(t.first) then t.first else t.second, if k in SplitSet(t.first) then t.second else t.first;
      SubtreeNodes(side, k);
      OverInChild(t, Root(u.first), l);
      OverInChild(t, Root(u.second), l);
      if l in LeafSet(side) {
        LeafElsewhere(side, other, l);
        SidesAreOver(side, k, l);
      } else {
        if Over(other, Root(u.first), l) {
          OverStaysInside(other, Root(u.first), l);
        }
        if Over(other, Root(u.second), l) {
          OverStaysInside(other, Root(u.second), l);
        }
      }
    }
  }

  lemma {:induction false} SubtreeNodes(t: Shape, k: LayoutNode)
    requires k in SplitSet(t)
    ensures SubtreeAt(t, k).Some? && SubtreeAt(t, k).value.Split?
    ensures var u := SubtreeAt(t, k).value;
      && Nodes(u) <= Nodes(t) && Root(u.first) in Nodes(t) && Root(u.second) in Nodes(t)
      && LeafSet(u) <= LeafSet(t)
  {
    SubtreeIsInside(t, k);
    SplitsAreNodes(SubtreeAt(t, k).value.first);
    SplitsAreNodes(SubtreeAt(t, k).value.second);
    if t.id != k {
      SubtreeIsInside(t.first, k);
      SubtreeIsInside(t.second, k);
      if k in SplitSet(t.first) {
        SubtreeNodes(t.first, k);
      } else {
        SubtreeNodes(t.second, k);
      }
    }
  }

  /** The links of a split are those of its subtree. */
  lemma {:induction false} SubtreeLinks(m: Records, t: Shape, parent: LayoutNode?, k: LayoutNode)
    requires Apart(t) && Linked(m, t, parent) && k in SplitSet(t)
    ensures SubtreeAt(t, k).Some? && SubtreeAt(t, k).value.Split? && Apart(SubtreeAt(t, k).value)
    ensures var u := SubtreeAt(t, k).value;
      && k in m && m[k].kind == SplitNode && m[k].first == Root(u.first) && m[k].second == Root(u.second)
      && m[k].orientation == u.orientation && m[k].ratio == u.ratio
      && FrameOf(t, k) == Some(Frame(u.orientation, u.ratio))
      && Linked(m, u.first, k) && Linked(m, u.second, k)
  {
    ApartIsDistinct(t);
    HandleMeets(t, k);
    if t.id != k {
      SubtreeIsInside(t.first, k);
      SubtreeIsInside(t.second, k);
      FramesAreSplitSet(t.first, k);
      if k in SplitSet(t.first) {
        SubtreeLinks(m, t.first, t.id, k);
      } else {
        SubtreeLinks(m, t.second, t.id, k);
      }
    }
  }

  // ----- climbing searches

  /** Split `k` has orientation `o`, with `x` on its first and `y` on its second side. */
  ghost predicate Separates(t: Shape, k: LayoutNode, x: LeafRef, y: LeafRef, o: Orientation) {
    match SubtreeAt(t, k)
    case Some(Split(_, q, _, a, b)) => q == o && x in LeafSet(a) && y in LeafSet(b)
    case _ => false
  }

  lemma {:induction false} SeparatingMeets(t: Shape, k: LayoutNode, x: LeafRef, y: LeafRef, o: Orientation)
    requires Apart(t) && Separates(t, k, x, y, o)
    ensures Meet(t, x, y) == Some(k) && FrameOf(t, k).Some? && FrameOf(t, k).value.orientation == o
  {
    ApartIsDistinct(t);
    SubtreeIsInside(t, k);
    HandleMeets(t, k);
    if t.id != k {
      SubtreeIsInside(t.first, k);
      SubtreeIsInside(t.second, k);
      if k in SplitSet(t.first) {
        SeparatingMeets(t.first, k, x, y, o);
      } else {
        SeparatingMeets(t.second, k, x, y, o);
        MeetElsewhere(t.first, x, y);
      }
    }
  }

  lemma {:induction false} MeetingSeparates(t: Shape, x: LeafRef, y: LeafRef)
    requires Apart(t) && Meet(t, x, y).Some?
    ensures var k := Meet(t, x, y).value;
      && FrameOf(t, k).Some? && Separates(t, k, x, y, FrameOf(t, k).value.orientation)
      && exists i :: 0 <= i < |Spine(t, x)| && Spine(t, x)[i] == k
  {
    ApartIsDistinct(t);
    MeetIsSplit(t, x, y);
    var k := Meet(t, x, y).value;
    FramesAreSplitSet(t, k);
    if x in LeafSet(t.first) && y in LeafSet(t.second) {
      assert Spine(t, x)[0] == t.id;
    } else {
      var side := if Meet(t.first, x, y).Some? then t.first else t.second;
      MeetIsSplit(side, x, y);
      SubtreeIsInside(t.first, k);
      SubtreeIsInside(t.second, k);
      FramesAreSplitSet(t.first, k);
      FramesAreSplitSet(t.second, k);
      MeetingSeparates(side, x, y);
      var i :| 0 <= i < |Spine(side, x)| && Spine(side, x)[i] == k;
      assert Spine(t, x) == [t.id] + Spine(side, x);
      assert Spine(t, x)[i + 1] == k;
    }
  }

  /** A split found on the way up from `x` that separates `x` from `y` is what `Resolve` names; if
      there is none, `Resolve` names nothing. */
  lemma ClimbResolves(t: Shape, x: LeafRef, y: LeafRef, o: Orientation, found: Option<LayoutNode>)
    requires Apart(t)
    requires found.Some? ==> Separates(t, found.value, x, y, o)
    requires found.None? ==> forall i :: 0 <= i < |Spine(t, x)| ==> !Separates(t, Spine(t, x)[i], x, y, o)
    ensures Resolve(t, x, y, o) == found
  {
    ApartIsDistinct(t);
    ResolveIsMeet(t, x, y, o);
    if found.Some? {
      SeparatingMeets(t, found.value, x, y, o);
    } else if Meet(t, x, y).Some? {
      MeetingSeparates(t, x, y);
    }
  }

  /** The lowest split of orientation `o` above leaf `l`. */
  ghost function NearestSplit(t: Shape, l: LeafRef, o: Orientation): Option<LayoutNode> {
    match t
    case Leaf(_) => None
    case Split(id, k, _, a, b) =>
      var below := if l in LeafSet(a) then NearestSplit(a, l, o) else NearestSplit(b, l, o);
      if below.Some? then below else if k == o then Some(id) else None
  }

  /** A split of orientation `o` on the spine, with none of that orientation further down, is the
      nearest; if the whole spine has none, there is no nearest. */
  lemma {:induction false} ClimbFindsNearest(m: Records, t: Shape, parent: LayoutNode?, l: LeafRef, o: Orientation,
                                             i: nat)
    requires Linked(m, t, parent) && l in LeafSet(t) && i <= |Spine(t, l)|
    requires forall j :: 0 <= j < |Spine(t, l)| ==> Spine(t, l)[j] in m
    requires forall j :: i <= j < |Spine(t, l)| ==> m[Spine(t, l)[j]].orientation != o
    requires i > 0 ==> m[Spine(t, l)[i - 1]].orientation == o
    ensures NearestSplit(t, l, o) == if i == 0 then None else Some(Spine(t, l)[i - 1])
  {
    if t.Split? {
      var side := if l in LeafSet(t.first) then t.first else t.second;
      var s := Spine(side, l);
      assert Spine(t, l) == [t.id] + s;
      assert Spine(t, l)[0] == t.id && m[t.id].orientation == t.orientation;
      assert forall j :: 0 <= j < |s| ==> s[j] == Spine(t, l)[j + 1];
      ClimbFindsNearest(m, side, t.id, l, o, if i == 0 then 0 else i - 1);
    }
  }
}
