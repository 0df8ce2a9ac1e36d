/** Boxes, gaps and the division of a box among the leaves of a split tree. */
module Geometry {
  import opened Seqs
  import opened LayoutTree

  datatype Box = Box(x: int, y: int, width: int, height: int)
  {
    function Right(): int { x + width }
    function Bottom(): int { y + height }

    predicate Positive() { width > 0 && height > 0 }

    /** The pixel at column `px`, row `py` belongs to the box. */
    predicate Has(px: int, py: int) {
      x <= px < Right() && y <= py < Bottom()
    }

    predicate Inside(outer: Box) {
      outer.x <= x && Right() <= outer.Right() && outer.y <= y && Bottom() <= outer.Bottom()
    }
  }

  /** The layout part of a validated policy. */
  datatype LayoutPolicy = LayoutPolicy(
    initialRatio: real, resizeStep: real, resizeMin: real, resizeMax: real, innerGap: int, outerGap: int)
  {
    ghost predicate Validated() {
      && 0.0 < resizeMin <= initialRatio <= resizeMax < 1.0
      && resizeStep > 0.0 && innerGap >= 0 && outerGap >= 0
    }
  }

  /** A floating point value converted to an integer: the fraction is dropped. */
  function Truncate(r: real): int {
    if r >= 0.0 then r.Floor else -((-r).Floor)
  }

  function BoundedGap(requested: int, span: int): int {
    if requested <= 0 || span <= 2 then 0
    else if requested < span - 2 then requested
    else span - 2
  }

  function InsetOuterGap(gap: int, box: Box): Box {
    if gap <= 0 || box.width <= 1 || box.height <= 1 then box
    else
      var maxX := (box.width - 1) / 2;
      var maxY := (box.height - 1) / 2;
      var dx := if gap < maxX then gap else maxX;
      var dy := if gap < maxY then gap else maxY;
      Box(box.x + dx, box.y + dy, box.width - dx * 2, box.height - dy * 2)
  }

  /** The ratio the layout divides by: out-of-range ratios fall back to the policy's. */
  function UsedRatio(ratio: real, p: LayoutPolicy): real {
    if ratio <= 0.0 || ratio >= 1.0 then p.initialRatio else ratio
  }

  function FirstSpan(available: int, ratio: real): int {
    var span := Truncate(available as real * ratio);
    if available > 1 then
      var atLeast := if span < 1 then 1 else span;
      if atLeast >= available then available - 1 else atLeast
    else span
  }

  /** The boxes handed to the two children of a split. */
  function Divide(o: Orientation, ratio: real, p: LayoutPolicy, box: Box): (Box, Box) {
    if o == Horizontal then
      var gap := BoundedGap(p.innerGap, box.width);
      var span := FirstSpan(box.width - gap, UsedRatio(ratio, p));
      (box.(width := span),
       box.(x := box.x + span + gap, width := box.width - gap - span))
    else
      var gap := BoundedGap(p.innerGap, box.height);
      var span := FirstSpan(box.height - gap, UsedRatio(ratio, p));
      (box.(height := span),
       box.(y := box.y + span + gap, height := box.height - gap - span))
  }

  /** The box that reaches leaf `l` when `t` is laid out in `box`. */
  function BoxOf<S, L(==)>(t: Tree<S, L>, box: Box, p: LayoutPolicy, l: L): Box {
    match t
    case Leaf(_) => box
    case Split(_, o, r, a, b) =>
      var (fst, snd) := Divide(o, r, p, box);
      if l in LeafSet(a) then BoxOf(a, fst, p, l) else BoxOf(b, snd, p, l)
  }

  /** The box that reaches split `k`. */
  function BoxAt<S(==), L>(t: Tree<S, L>, box: Box, p: LayoutPolicy, k: S): Option<Box> {
    match t
    case Leaf(_) => None
    case Split(id, o, r, a, b) =>
      if id == k then Some(box)
      else
        var (fst, snd) := Divide(o, r, p, box);
        if BoxAt(a, fst, p, k).Some? then BoxAt(a, fst, p, k) else BoxAt(b, snd, p, k)
  }

  // ----- one split

  lemma FloorProduct(n: int, r: real)
    requires n >= 0 && 0.0 < r < 1.0
    ensures 0 <= (n as real * r).Floor <= n
    ensures n > 0 ==> (n as real * r).Floor < n
  {
    if n > 0 {
      assert 0.0 < n as real * r < n as real;
    } else {
      assert n as real * r == 0.0;
    }
  }

  /** The gap never eats more than the span can spare: two pixels always remain. */
  lemma GapLeavesTwo(requested: int, span: int)
    requires span >= 0
    ensures var g := BoundedGap(requested, span);
      && 0 <= g <= span
      && (span >= 2 ==> span - g >= 2)
      && (requested >= 0 && span >= 2 ==> g == if requested <= span - 2 then requested else span - 2)
  {
  }

  /** A span divides into a nonnegative first part, the gap, and a nonnegative rest; from two
      pixels on both parts get at least one. */
  lemma SpanDivides(span: int, p: LayoutPolicy, ratio: real)
    requires span >= 0 && p.Validated()
    ensures var gap := BoundedGap(p.innerGap, span);
      var f := FirstSpan(span - gap, UsedRatio(ratio, p));
      && 0 <= f <= span - gap
      && (span >= 2 ==> 1 <= f < span - gap)
  {
    GapLeavesTwo(p.innerGap, span);
    FloorProduct(span - BoundedGap(p.innerGap, span), UsedRatio(ratio, p));
  }

  /** The two children lie inside the box, span it fully across, and are exactly the bounded gap
      apart along the split. */
  lemma DivideFits(o: Orientation, ratio: real, p: LayoutPolicy, box: Box)
    requires box.width >= 0 && box.height >= 0 && p.Validated()
    ensures var (a, b) := Divide(o, ratio, p, box);
      && a.width >= 0 && a.height >= 0 && b.width >= 0 && b.height >= 0
      && a.Inside(box) && b.Inside(box)
      && a.x == box.x && a.y == box.y && b.Right() == box.Right() && b.Bottom() == box.Bottom()
      && (o == Horizontal ==>
            && a.height == b.height == box.height
            && b.x - a.Right() == BoundedGap(p.innerGap, box.width)
            && (box.width >= 2 ==> a.width >= 1 && b.width >= 1))
      && (o == Vertical ==>
            && a.width == b.width == box.width
            && b.y - a.Bottom() == BoundedGap(p.innerGap, box.height)
            && (box.height >= 2 ==> a.height >= 1 && b.height >= 1))
  {
    SpanDivides(box.width, p, ratio);
    SpanDivides(box.height, p, ratio);
    GapLeavesTwo(p.innerGap, box.width);
    GapLeavesTwo(p.innerGap, box.height);
  }

  lemma FirstSpanShare(available: int, ratio: real)
    requires available >= 2 && 0.0 < available as real * ratio < available as real
    ensures var span, share := FirstSpan(available, ratio), available as real * ratio;
      if share >= 1.0 then span as real <= share < span as real + 1.0 else span == 1
  {
  }

  /** Where the border comes to lie: the first part has the whole pixels of its share of what the gap
      leaves, but at least one.  A ratio outside of (0, 1) stands for the policy's initial one. */
  lemma DivideShares(o: Orientation, ratio: real, p: LayoutPolicy, box: Box, used: real)
    requires p.Validated() && used == if 0.0 < ratio < 1.0 then ratio else p.initialRatio
    requires (if o == Horizontal then box.width else box.height) >= 2
    ensures var (a, _) := Divide(o, ratio, p, box);
      var whole := if o == Horizontal then box.width else box.height;
      var span := if o == Horizontal then a.width else a.height;
      var share := (whole - BoundedGap(p.innerGap, whole)) as real * used;
      if share >= 1.0 then span as real <= share < span as real + 1.0 else span == 1
  {
    hide FirstSpan, BoundedGap;
    var whole := if o == Horizontal then box.width else box.height;
    GapLeavesTwo(p.innerGap, whole);
    ShareInside(whole - BoundedGap(p.innerGap, whole), used);
    FirstSpanShare(whole - BoundedGap(p.innerGap, whole), used);
  }

  lemma ShareInside(n: int, r: real)
    requires n > 0 && 0.0 < r < 1.0
    ensures 0.0 < n as real * r < n as real
  {
  }

  /** The outer gap shrinks a nonempty box symmetrically and leaves it nonempty. */
  lemma InsetFits(gap: int, box: Box)
    requires box.Positive() && gap >= 0
    ensures var r := InsetOuterGap(gap, box);
      && r.Positive() && r.Inside(box)
      && r.x - box.x == box.Right() - r.Right() <= gap
      && r.y - box.y == box.Bottom() - r.Bottom() <= gap
  {
  }

  /** A margin of `n` pixels on both sides, no wider than the gap, leaves a pixel of the span. */
  ghost predicate MarginFits(n: int, gap: int, span: int) {
    0 <= n <= gap && 2 * n < span
  }

  ghost predicate WidestMargin(n: int, gap: int, span: int) {
    MarginFits(n, gap, span) && forall m :: MarginFits(m, gap, span) ==> m <= n
  }

  /** The exact inset: on each axis the same margin on both sides, the widest that fits; it is the gap
      itself exactly when twice the gap leaves a pixel. */
  lemma InsetExactly(gap: int, box: Box)
    requires gap >= 0 && box.width > 1 && box.height > 1
    ensures var r := InsetOuterGap(gap, box);
      && r.x - box.x == box.Right() - r.Right() && WidestMargin(r.x - box.x, gap, box.width)
      && r.y - box.y == box.Bottom() - r.Bottom() && WidestMargin(r.y - box.y, gap, box.height)
      && (r.x - box.x == gap <==> 2 * gap < box.width) && (r.y - box.y == gap <==> 2 * gap < box.height)
  {
  }

  /** A box of one column or one row is left alone on both axes, however wide it is on the other. */
  lemma InsetLeavesLines(gap: int, box: Box)
    requires box.Positive() && (box.width == 1 || box.height == 1)
    ensures InsetOuterGap(gap, box) == box
  {
  }

  // ----- whole trees

  /** Every leaf's box lies inside the box of the tree. */
  lemma {:induction false} LeafInside<S, L>(t: Tree<S, L>, box: Box, p: LayoutPolicy, l: L)
    requires box.width >= 0 && box.height >= 0 && p.Validated()
    ensures var b := BoxOf(t, box, p, l); b.Inside(box) && b.width >= 0 && b.height >= 0
  {
    if t.Split? {
      DivideFits(t.orientation, t.ratio, p, box);
      var (fst, snd) := Divide(t.orientation, t.ratio, p, box);
      if l in LeafSet(t.first) {
        LeafInside(t.first, fst, p, l);
      } else {
        LeafInside(t.second, snd, p, l);
      }
    }
  }

  /** No pixel belongs to two leaves. */
  lemma {:induction false} LeavesDisjoint<S, L>(t: Tree<S, L>, box: Box, p: LayoutPolicy, l: L, m: L, px: int, py: int)
    requires Distinct(t) && l in LeafSet(t) && m in LeafSet(t)
    requires box.width >= 0 && box.height >= 0 && p.Validated()
    requires BoxOf(t, box, p, l).Has(px, py) && BoxOf(t, box, p, m).Has(px, py)
    ensures l == m
  {
    if t.Split? {
      DivideFits(t.orientation, t.ratio, p, box);
      GapLeavesTwo(p.innerGap, box.width);
      GapLeavesTwo(p.innerGap, box.height);
      var (fst, snd) := Divide(t.orientation, t.ratio, p, box);
      if l in LeafSet(t.first) {
        LeafInside(t.first, fst, p, l);
      } else {
        LeafInside(t.second, snd, p, l);
      }
      if m in LeafSet(t.first) {
        LeafInside(t.first, fst, p, m);
      } else {
        LeafInside(t.second, snd, p, m);
      }
      if l in LeafSet(t.first) && m in LeafSet(t.first) {
        LeavesDisjoint(t.first, fst, p, l, m, px, py);
      } else if l in LeafSet(t.second) && m in LeafSet(t.second) {
        LeavesDisjoint(t.second, snd, p, l, m, px, py);
      }
    }
  }

  /** The leaf a pixel belongs to. */
  function LeafAt<S, L(==)>(t: Tree<S, L>, box: Box, p: LayoutPolicy, px: int, py: int): L {
    match t
    case Leaf(l) => l
    case Split(_, o, r, a, b) =>
      var (fst, snd) := Divide(o, r, p, box);
      if fst.Has(px, py) then LeafAt(a, fst, p, px, py) else LeafAt(b, snd, p, px, py)
  }

  /** Without an inner gap every pixel of the box belongs to a leaf; by `LeavesDisjoint`, to one. */
  lemma {:induction false} PixelsCovered<S, L>(t: Tree<S, L>, box: Box, p: LayoutPolicy, px: int, py: int)
    requires Distinct(t) && p.Validated() && p.innerGap == 0
    requires box.Has(px, py)
    ensures LeafAt(t, box, p, px, py) in LeafSet(t)
    ensures BoxOf(t, box, p, LeafAt(t, box, p, px, py)).Has(px, py)
  {
    if t.Split? {
      DivideFits(t.orientation, t.ratio, p, box);
      var (fst, snd) := Divide(t.orientation, t.ratio, p, box);
      if fst.Has(px, py) {
        PixelsCovered(t.first, fst, p, px, py);
      } else {
        PixelsCovered(t.second, snd, p, px, py);
      }
    }
  }

  // ----- the margin around the tiles

  /** How far side `d` of a box is from the same side of the box around it. */
  function Reach(a: Box, outer: Box, d: Direction): int {
    match d
    case Left => a.x - outer.x
    case Right => outer.Right() - a.Right()
    case Up => a.y - outer.y
    case Down => outer.Bottom() - a.Bottom()
  }

  /** `a` reaches the side `d` of `outer`. */
  predicate AtEdge(a: Box, outer: Box, d: Direction) {
    Reach(a, outer, d) == 0
  }

  function SpanAlong(box: Box, d: Direction): int {
    if d == Left || d == Right then box.width else box.height
  }

  /** The leaf in the corner of the tree that lies on side `d`. */
  function CornerLeaf<S, L>(t: Tree<S, L>, d: Direction): L {
    match t
    case Leaf(l) => l
    case Split(_, _, _, a, b) => CornerLeaf(if d == Left || d == Up then a else b, d)
  }

  lemma {:induction false} CornerReaches<S, L>(t: Tree<S, L>, box: Box, p: LayoutPolicy, d: Direction)
    requires Distinct(t) && box.width >= 0 && box.height >= 0 && p.Validated()
    ensures CornerLeaf(t, d) in LeafSet(t) && AtEdge(BoxOf(t, box, p, CornerLeaf(t, d)), box, d)
  {
    if t.Split? {
      DivideFits(t.orientation, t.ratio, p, box);
      var (fst, snd) := Divide(t.orientation, t.ratio, p, box);
      if d == Left || d == Up {
        CornerReaches(t.first, fst, p, d);
      } else {
        CornerReaches(t.second, snd, p, d);
      }
    }
  }

  /** Where the outer gap fits, every tile keeps it from each side of the usable area. */
  lemma TilesKeepOuterGap<S, L>(t: Tree<S, L>, usable: Box, p: LayoutPolicy, l: L, d: Direction)
    requires p.Validated() && usable.width > 1 && usable.height > 1 && 2 * p.outerGap < SpanAlong(usable, d)
    ensures Reach(BoxOf(t, InsetOuterGap(p.outerGap, usable), p, l), usable, d) >= p.outerGap
  {
    InsetFits(p.outerGap, usable);
    InsetExactly(p.outerGap, usable);
    LeafInside(t, InsetOuterGap(p.outerGap, usable), p, l);
  }

  /** And on each side some tile is no farther away than that. */
  lemma CornerAttainsOuterGap<S, L>(t: Tree<S, L>, usable: Box, p: LayoutPolicy, d: Direction)
    requires Distinct(t) && p.Validated()
    requires usable.width > 1 && usable.height > 1 && 2 * p.outerGap < SpanAlong(usable, d)
    ensures CornerLeaf(t, d) in LeafSet(t)
    ensures Reach(BoxOf(t, InsetOuterGap(p.outerGap, usable), p, CornerLeaf(t, d)), usable, d) == p.outerGap
  {
    InsetFits(p.outerGap, usable);
    InsetExactly(p.outerGap, usable);
    CornerReaches(t, InsetOuterGap(p.outerGap, usable), p, d);
  }

  // ----- reading boxes back

  /** Every leaf has the box that laying `t` out in `box` gives it. */
  ghost predicate Laid<S, L>(t: Tree<S, L>, box: Box, p: LayoutPolicy, boxes: map<L, Box>) {
    match t
    case Leaf(l) => l in boxes && boxes[l] == box
    case Split(_, o, r, a, b) =>
      var (fst, snd) := Divide(o, r, p, box);
      Laid(a, fst, p, boxes) && Laid(b, snd, p, boxes)
  }

  ghost predicate AllPositive<S, L>(t: Tree<S, L>, boxes: map<L, Box>) {
    match t
    case Leaf(l) => l in boxes && boxes[l].Positive()
    case Split(_, _, _, a, b) => AllPositive(a, boxes) && AllPositive(b, boxes)
  }

  function Hull(a: Box, b: Box): Box {
    var left := if a.x < b.x then a.x else b.x;
    var top := if a.y < b.y then a.y else b.y;
    var right := if a.Right() > b.Right() then a.Right() else b.Right();
    var bottom := if a.Bottom() > b.Bottom() then a.Bottom() else b.Bottom();
    Box(left, top, right - left, bottom - top)
  }

  /** The bounding box of a subtree, read back from the leaves; none when a leaf is empty. */
  function Bounds<S, L(==)>(t: Tree<S, L>, boxes: map<L, Box>): Option<Box> {
    match t
    case Leaf(l) => if l in boxes && boxes[l].Positive() then Some(boxes[l]) else None
    case Split(_, _, _, a, b) =>
      match (Bounds(a, boxes), Bounds(b, boxes))
      case (Some(fst), Some(snd)) =>
        var hull := Hull(fst, snd);
        if hull.Positive() then Some(hull) else None
      case _ => None
  }

  lemma {:induction false} LaidAt<S, L>(t: Tree<S, L>, box: Box, p: LayoutPolicy, boxes: map<L, Box>, l: L)
    requires Distinct(t) && l in LeafSet(t) && Laid(t, box, p, boxes)
    ensures l in boxes && boxes[l] == BoxOf(t, box, p, l)
  {
    if t.Split? {
      var (fst, snd) := Divide(t.orientation, t.ratio, p, box);
      if l in LeafSet(t.first) {
        LaidAt(t.first, fst, p, boxes, l);
      } else {
        LaidAt(t.second, snd, p, boxes, l);
      }
    }
  }

  /** The bounding box read back is exactly the box that was handed out, as long as no leaf is empty;
      when one is, nothing is read back. */
  lemma {:induction false} BoundsReadBack<S, L>(t: Tree<S, L>, box: Box, p: LayoutPolicy, boxes: map<L, Box>)
    requires Laid(t, box, p, boxes) && box.width >= 0 && box.height >= 0 && p.Validated()
    ensures Bounds(t, boxes) == if AllPositive(t, boxes) then Some(box) else None
  {
    if t.Split? {
      DivideFits(t.orientation, t.ratio, p, box);
      GapLeavesTwo(p.innerGap, box.width);
      GapLeavesTwo(p.innerGap, box.height);
      var (fst, snd) := Divide(t.orientation, t.ratio, p, box);
      BoundsReadBack(t.first, fst, p, boxes);
      BoundsReadBack(t.second, snd, p, boxes);
      if AllPositive(t, boxes) {
        PositiveHandedDown(t.first, fst, p, boxes);
        PositiveHandedDown(t.second, snd, p, boxes);
        assert Hull(fst, snd) == box;
      }
    }
  }

  lemma {:induction false} PositiveHandedDown<S, L>(t: Tree<S, L>, box: Box, p: LayoutPolicy, boxes: map<L, Box>)
    requires Laid(t, box, p, boxes) && box.width >= 0 && box.height >= 0 && p.Validated()
    requires AllPositive(t, boxes)
    ensures box.Positive()
  {
    if t.Split? {
      DivideFits(t.orientation, t.ratio, p, box);
      var (fst, snd) := Divide(t.orientation, t.ratio, p, box);
      PositiveHandedDown(t.first, fst, p, boxes);
    }
  }
}
