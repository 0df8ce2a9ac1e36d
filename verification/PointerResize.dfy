/** Dragging a border: from a pointer position to a split ratio and back to pixels. */
module PointerResize {
  import opened Seqs
  import opened LayoutTree
  import opened LayoutHandle
  import opened Geometry

  function Near(o: Orientation, b: Box): int { if o == Horizontal then b.x else b.y }

  function Far(o: Orientation, b: Box): int { if o == Horizontal then b.Right() else b.Bottom() }

  function Extent(o: Orientation, b: Box): int { if o == Horizontal then b.width else b.height }

  /** The middle of the gap between two sibling boxes. */
  function BorderMiddle(o: Orientation, a: Box, b: Box): real {
    (Far(o, a) + Near(o, b)) as real / 2.0
  }

  /** The ratio that a pointer at `pos` asks for, measured on the sibling boxes as they stand. */
  function AskedRatio(o: Orientation, a: Box, b: Box, pos: real): Option<real> {
    var gap := Near(o, b) - Far(o, a);
    var available := Extent(o, a) + Extent(o, b);
    if available <= 0 then None
    else Some((pos - Near(o, a) as real - gap as real * 0.5) / available as real)
  }

  function ClampRatio(r: real, p: LayoutPolicy): real {
    var raised := if r < p.resizeMin then p.resizeMin else r;
    if raised > p.resizeMax then p.resizeMax else raised
  }

  /** Ratios so close that a drag does not write the new one. */
  predicate Barely(r: real, s: real) { -0.000000001 < r - s < 0.000000001 }

  /** The ratio a drag leaves on a split whose sides are `a` and `b`: asked, clamped, and written
      unless it barely differs from the ratio in use. */
  function DragSides(o: Orientation, ratio: real, a: Box, b: Box, p: LayoutPolicy, pos: real): Option<(real, real)> {
    match AskedRatio(o, a, b, pos)
    case None => None
    case Some(asked) =>
      var next := ClampRatio(asked, p);
      Some((next, if Barely(next, UsedRatio(ratio, p)) then ratio else next))
  }

  // ----- one split

  lemma ProductMonotone(n: int, r: real, s: real)
    requires n >= 0 && r <= s
    ensures n as real * r <= n as real * s
  {
  }

  lemma {:induction false} SpanMonotone(available: int, r: real, s: real)
    requires available >= 0 && 0.0 < r <= s < 1.0
    ensures FirstSpan(available, r) <= FirstSpan(available, s)
  {
    ProductMonotone(available, r, s);
    FloorProduct(available, r);
    FloorProduct(available, s);
    FloorMonotone(available as real * r, available as real * s);
  }

  lemma FloorMonotone(x: real, y: real)
    requires x <= y
    ensures x.Floor <= y.Floor
  {
  }

  /** The drag arithmetic on one axis, free of boxes. */
  lemma MiddleWithinPixel(near: int, gap: int, available: int, pos: real, next: real)
    requires available >= 2 && 0.0 < next < 1.0
    requires next == (pos - near as real - gap as real * 0.5) / available as real
    ensures var middle := near as real + FirstSpan(available, next) as real + gap as real * 0.5;
      (pos - 1.0 < middle <= pos) <==> pos >= near as real + 1.0 + gap as real * 0.5
  {
    var offset := pos - near as real - gap as real * 0.5;
    QuotientProduct(available, offset);
    FloorProduct(available, next);
    assert available as real * next == offset;
  }

  lemma QuotientProduct(n: int, q: real)
    requires n > 0
    ensures n as real * (q / n as real) == q
  {
  }

  /** Siblings as the layout hands them out, read on the axis of their split. */
  lemma DivideOnAxis(o: Orientation, ratio: real, p: LayoutPolicy, box: Box)
    requires box.width >= 0 && box.height >= 0 && p.Validated()
    ensures var (a, b) := Divide(o, ratio, p, box);
      var gap := BoundedGap(p.innerGap, Extent(o, box));
      && Extent(o, a) == FirstSpan(Extent(o, box) - gap, UsedRatio(ratio, p))
      && Near(o, a) == Near(o, box)
      && Near(o, b) - Far(o, a) == gap
      && Extent(o, a) + Extent(o, b) == Extent(o, box) - gap
  {
    DivideFits(o, ratio, p, box);
  }

  lemma MiddleOnAxis(o: Orientation, ratio: real, p: LayoutPolicy, box: Box)
    requires box.width >= 0 && box.height >= 0 && p.Validated()
    ensures var (a, b) := Divide(o, ratio, p, box);
      var gap := BoundedGap(p.innerGap, Extent(o, box));
      && Near(o, a) == Near(o, box)
      && Near(o, b) - Far(o, a) == gap
      && Extent(o, a) + Extent(o, b) == Extent(o, box) - gap
      && BorderMiddle(o, a, b) == Near(o, box) as real
           + FirstSpan(Extent(o, box) - gap, UsedRatio(ratio, p)) as real + gap as real * 0.5
  {
    DivideOnAxis(o, ratio, p, box);
  }

  /** After an unclamped drag the new border middle lies within the pixel left of the pointer,
      exactly when the pointer leaves at least one pixel to the first child. */
  lemma DragLands(o: Orientation, ratio: real, p: LayoutPolicy, box: Box, pos: real)
    requires box.width >= 0 && box.height >= 0 && p.Validated()
    requires var (a, b) := Divide(o, ratio, p, box); Extent(o, a) > 0 && Extent(o, b) > 0
    requires var (a, b) := Divide(o, ratio, p, box);
      AskedRatio(o, a, b, pos).Some? && p.resizeMin <= AskedRatio(o, a, b, pos).value <= p.resizeMax
    ensures var (a, b) := Divide(o, ratio, p, box);
      var next := AskedRatio(o, a, b, pos).value;
      var (a', b') := Divide(o, next, p, box);
      var gap := Near(o, b) - Far(o, a);
      (pos - 1.0 < BorderMiddle(o, a', b') <= pos) <==> pos >= Near(o, a) as real + 1.0 + gap as real * 0.5
  {
    var (a, b) := Divide(o, ratio, p, box);
    var next := AskedRatio(o, a, b, pos).value;
    MiddleOnAxis(o, ratio, p, box);
    MiddleOnAxis(o, next, p, box);
    MiddleWithinPixel(Near(o, a), Near(o, b) - Far(o, a), Extent(o, a) + Extent(o, b), pos, next);
  }

  /** Clamping the ratio that a border's own middle asks for keeps the present division, exactly when
      the present span lies between the spans of the policy's smallest and largest ratio. */
  lemma ClampedMiddle(o: Orientation, ratio: real, p: LayoutPolicy, box: Box)
    requires box.width >= 0 && box.height >= 0 && p.Validated()
    requires var (a, b) := Divide(o, ratio, p, box); Extent(o, a) > 0 && Extent(o, b) > 0
    ensures var (a, b) := Divide(o, ratio, p, box);
      var available := Extent(o, a) + Extent(o, b);
      && AskedRatio(o, a, b, BorderMiddle(o, a, b)) == Some(Extent(o, a) as real / available as real)
      && (Divide(o, ClampRatio(AskedRatio(o, a, b, BorderMiddle(o, a, b)).value, p), p, box) == (a, b) <==>
          FirstSpan(available, p.resizeMin) <= Extent(o, a) <= FirstSpan(available, p.resizeMax))
  {
    var (a, b) := Divide(o, ratio, p, box);
    var available := Extent(o, a) + Extent(o, b);
    DivideOnAxis(o, ratio, p, box);
    var asked := Extent(o, a) as real / available as real;
    var next := ClampRatio(asked, p);
    DivideOnAxis(o, next, p, box);
    QuotientProduct(available, Extent(o, a) as real);
    SpanOfQuotient(available, Extent(o, a));
    SpanMonotone(available, p.resizeMin, p.resizeMax);
    if asked < p.resizeMin {
      SpanMonotone(available, asked, p.resizeMin);
    } else if asked > p.resizeMax {
      SpanMonotone(available, p.resizeMax, asked);
    } else {
      SpanMonotone(available, p.resizeMin, asked);
      SpanMonotone(available, asked, p.resizeMax);
    }
    var (a', b') := Divide(o, next, p, box);
    assert (a', b') == (a, b) <==> Extent(o, a') == Extent(o, a);
  }

  lemma ScaleMonotone(a: real, b: real, y: real)
    requires a <= b && y >= 0.0
    ensures a * y <= b * y
  {
  }

  lemma QuotientBetween(x: real, y: real)
    requires 0.0 < x < y
    ensures 0.0 < x / y < 1.0
  {
    var q := x / y;
    assert q * y == x;
    if q >= 1.0 {
      ScaleMonotone(1.0, q, y);
    } else if q <= 0.0 {
      ScaleMonotone(q, 0.0, y);
    }
  }

  lemma SpanOfQuotient(available: int, span: int)
    requires 0 < span < available
    ensures 0.0 < span as real / available as real < 1.0
    ensures FirstSpan(available, span as real / available as real) == span
  {
    QuotientProduct(available, span as real);
    QuotientBetween(span as real, available as real);
  }

  /** A ratio inside the policy's limits always gives a span inside the limits' spans, so for it
      dragging to the middle is harmless whatever the box. */
  lemma LegalRatioLegalSpan(o: Orientation, ratio: real, p: LayoutPolicy, box: Box)
    requires box.width >= 0 && box.height >= 0 && p.Validated()
    requires p.resizeMin <= ratio <= p.resizeMax
    ensures var (a, b) := Divide(o, ratio, p, box);
      var available := Extent(o, a) + Extent(o, b);
      FirstSpan(available, p.resizeMin) <= Extent(o, a) <= FirstSpan(available, p.resizeMax)
  {
    DivideOnAxis(o, ratio, p, box);
    GapLeavesTwo(p.innerGap, Extent(o, box));
    var available := Extent(o, box) - BoundedGap(p.innerGap, Extent(o, box));
    SpanMonotone(available, p.resizeMin, ratio);
    SpanMonotone(available, ratio, p.resizeMax);
  }

  /** The border of a split with this ratio, whose first side has `span` of `available` pixels, stays
      where it is when dragged to its own middle: the span lies between the spans of the policy's
      limits, or the ratio asked for barely differs from the one in use. */
  predicate MiddleStays(p: LayoutPolicy, ratio: real, span: int, available: int)
    requires available > 0
  {
    || FirstSpan(available, p.resizeMin) <= span <= FirstSpan(available, p.resizeMax)
    || Barely(ClampRatio(span as real / available as real, p), UsedRatio(ratio, p))
  }

  /** Dragging a border to its own middle changes neither child, exactly when `MiddleStays`. */
  lemma DragToMiddle(o: Orientation, ratio: real, p: LayoutPolicy, box: Box)
    requires box.width >= 0 && box.height >= 0 && p.Validated()
    requires var (a, b) := Divide(o, ratio, p, box); Extent(o, a) > 0 && Extent(o, b) > 0
    ensures var (a, b) := Divide(o, ratio, p, box);
      var drag := DragSides(o, ratio, a, b, p, BorderMiddle(o, a, b));
      && drag.Some?
      && (Divide(o, drag.value.1, p, box) == (a, b) <==> MiddleStays(p, ratio, Extent(o, a), Extent(o, a) + Extent(o, b)))
  {
    ClampedMiddle(o, ratio, p, box);
  }

  // ----- inside a whole layout

  lemma {:induction false} BoxAtExists<S, L>(t: Tree<S, L>, box: Box, p: LayoutPolicy, k: S)
    ensures BoxAt(t, box, p, k).Some? <==> k in SplitSet(t)
  {
    if t.Split? {
      var (fst, snd) := Divide(t.orientation, t.ratio, p, box);
      BoxAtExists(t.first, fst, p, k);
      BoxAtExists(t.second, snd, p, k);
    }
  }

  /** The subtree of a split is laid out in the box that reaches the split. */
  lemma {:induction false} SubtreeLaid<S, L>(t: Tree<S, L>, box: Box, p: LayoutPolicy, boxes: map<L, Box>, k: S)
    requires Distinct(t) && k in SplitSet(t) && Laid(t, box, p, boxes)
    requires box.width >= 0 && box.height >= 0 && p.Validated()
    ensures BoxAt(t, box, p, k).Some? && SubtreeAt(t, k).Some? && SubtreeAt(t, k).value.Split?
    ensures var at := BoxAt(t, box, p, k).value; at.width >= 0 && at.height >= 0
    ensures Laid(SubtreeAt(t, k).value, BoxAt(t, box, p, k).value, p, boxes)
    ensures AllPositive(t, boxes) ==> AllPositive(SubtreeAt(t, k).value, boxes)
  {
    SubtreeIsInside(t, k);
    BoxAtExists(t, box, p, k);
    if t.id != k {
      DivideFits(t.orientation, t.ratio, p, box);
      var (fst, snd) := Divide(t.orientation, t.ratio, p, box);
      SubtreeIsInside(t.first, k);
      SubtreeIsInside(t.second, k);
      BoxAtExists(t.first, fst, p, k);
      BoxAtExists(t.second, snd, p, k);
      if k in SplitSet(t.first) {
        SubtreeLaid(t.first, fst, p, boxes, k);
      } else {
        SubtreeLaid(t.second, snd, p, boxes, k);
      }
    }
  }

  /** A split's own frame has no influence on the box that reaches it. */
  lemma {:induction false} ReframeKeepsBoxAt<S, L>(t: Tree<S, L>, box: Box, p: LayoutPolicy, k: S, f: Frame)
    requires Distinct(t) && k in SplitSet(t)
    ensures BoxAt(Reframe(t, k, f), box, p, k) == BoxAt(t, box, p, k)
  {
    if t.id != k {
      var (fst, snd) := Divide(t.orientation, t.ratio, p, box);
      BoxAtExists(t.first, fst, p, k);
      ReframeMeaning(t.first, k, f, k);
      BoxAtExists(Reframe(t.first, k, f), fst, p, k);
      if k in SplitSet(t.first) {
        ReframeKeepsBoxAt(t.first, fst, p, k, f);
      } else {
        ReframeKeepsBoxAt(t.second, snd, p, k, f);
      }
    }
  }

  lemma {:induction false} ReframeElsewhere<S, L>(t: Tree<S, L>, k: S, f: Frame)
    requires k !in SplitSet(t)
    ensures Reframe(t, k, f) == t
  {
    if t.Split? {
      ReframeElsewhere(t.first, k, f);
      ReframeElsewhere(t.second, k, f);
    }
  }

  /** Changing a frame moves no tile when the split still divides its box the same way. */
  lemma {:induction false} SameDivisionStaysLaid<S, L>(
      t: Tree<S, L>, box: Box, p: LayoutPolicy, boxes: map<L, Box>, k: S, f: Frame)
    requires Distinct(t) && k in SplitSet(t) && Laid(t, box, p, boxes)
    requires BoxAt(t, box, p, k).Some? && FrameOf(t, k).Some?
    requires var at := BoxAt(t, box, p, k).value; var g := FrameOf(t, k).value;
      Divide(f.orientation, f.ratio, p, at) == Divide(g.orientation, g.ratio, p, at)
    ensures Laid(Reframe(t, k, f), box, p, boxes)
  {
    if t.id != k {
      var (fst, snd) := Divide(t.orientation, t.ratio, p, box);
      BoxAtExists(t.first, fst, p, k);
      FramesAreSplitSet(t.first, k);
      if k in SplitSet(t.first) {
        ReframeElsewhere(t.second, k, f);
        SameDivisionStaysLaid(t.first, fst, p, boxes, k, f);
      } else {
        ReframeElsewhere(t.first, k, f);
        SameDivisionStaysLaid(t.second, snd, p, boxes, k, f);
      }
    }
  }

  /** Below a split whose frame changes the tree stays what it was. */
  lemma {:induction false} ReframedSubtree<S, L>(t: Tree<S, L>, k: S, f: Frame)
    requires Distinct(t) && k in SplitSet(t)
    ensures Distinct(Reframe(t, k, f)) && k in SplitSet(Reframe(t, k, f)) && LeafSet(Reframe(t, k, f)) == LeafSet(t)
    ensures SplitSet(Reframe(t, k, f)) == SplitSet(t)
    ensures SubtreeAt(t, k).Some? && SubtreeAt(t, k).value.Split?
    ensures SubtreeAt(Reframe(t, k, f), k) == Some(SubtreeAt(t, k).value.(orientation := f.orientation,
        ratio := f.ratio))
  {
    SubtreeIsInside(t, k);
    if t.id != k {
      SubtreeIsInside(t.first, k);
      SubtreeIsInside(t.second, k);
      if k in SplitSet(t.first) {
        ReframeElsewhere(t.second, k, f);
        ReframedSubtree(t.first, k, f);
      } else {
        ReframeElsewhere(t.first, k, f);
        ReframedSubtree(t.second, k, f);
      }
    }
  }

  lemma {:induction false} PositiveByLeaf<S, L>(t: Tree<S, L>, k: S, f: Frame, boxes: map<L, Box>)
    ensures AllPositive(Reframe(t, k, f), boxes) == AllPositive(t, boxes)
  {
    if t.Split? && t.id != k {
      PositiveByLeaf(t.first, k, f, boxes);
      PositiveByLeaf(t.second, k, f, boxes);
    }
  }

  /** What a pointer drag of split `k` to `pos` does to the tree: measure the two sides on the
      tiles, ask for a ratio, clamp it, and write it unless it barely differs. */
  function Drag<S(==), L(==)>(t: Tree<S, L>, boxes: map<L, Box>, p: LayoutPolicy, k: S, pos: real): Option<(real,
      Tree<S, L>)> {
    match SubtreeAt(t, k)
    case Some(Split(_, o, r, fst, snd)) =>
      (match (Bounds(fst, boxes), Bounds(snd, boxes))
       case (Some(a), Some(b)) =>
         (match DragSides(o, r, a, b, p, pos)
          case None => None
          case Some((next, written)) => Some((next, Reframe(t, k, Frame(o, written)))))
       case _ => None)
    case _ => None
  }

  /** In a laid out tree without empty tiles, the sides of a split are measured as the boxes the
      layout handed to them. */
  lemma SidesMeasured<S, L>(t: Tree<S, L>, box: Box, p: LayoutPolicy, boxes: map<L, Box>, k: S)
    requires Distinct(t) && k in SplitSet(t) && Laid(t, box, p, boxes) && AllPositive(t, boxes)
    requires box.width >= 0 && box.height >= 0 && p.Validated()
    ensures SubtreeAt(t, k).Some? && SubtreeAt(t, k).value.Split? && BoxAt(t, box, p, k).Some?
    ensures var u := SubtreeAt(t, k).value; var at := BoxAt(t, box, p, k).value;
      var (a, b) := Divide(u.orientation, u.ratio, p, at);
      && at.width >= 0 && at.height >= 0 && a.Positive() && b.Positive()
      && Bounds(u.first, boxes) == Some(a) && Bounds(u.second, boxes) == Some(b)
      && FrameOf(t, k) == Some(Frame(u.orientation, u.ratio))
  {
    SubtreeLaid(t, box, p, boxes, k);
    HandleMeets(t, k);
    var u, at := SubtreeAt(t, k).value, BoxAt(t, box, p, k).value;
    DivideFits(u.orientation, u.ratio, p, at);
    var (a, b) := Divide(u.orientation, u.ratio, p, at);
    BoundsReadBack(u.first, a, p, boxes);
    BoundsReadBack(u.second, b, p, boxes);
    PositiveHandedDown(u.first, a, p, boxes);
    PositiveHandedDown(u.second, b, p, boxes);
  }

  /** In a laid out tree without empty tiles a drag writes one ratio on split `k`, worked out from
      the boxes the layout handed to its sides. */
  lemma DragWrites<S, L>(t: Tree<S, L>, box: Box, p: LayoutPolicy, boxes: map<L, Box>, k: S, pos: real)
    requires Distinct(t) && k in SplitSet(t) && Laid(t, box, p, boxes) && AllPositive(t, boxes)
    requires box.width >= 0 && box.height >= 0 && p.Validated()
    ensures FrameOf(t, k).Some? && BoxAt(t, box, p, k).Some?
    ensures var g := FrameOf(t, k).value; var at := BoxAt(t, box, p, k).value;
      var (a, b) := Divide(g.orientation, g.ratio, p, at);
      var sides := DragSides(g.orientation, g.ratio, a, b, p, pos);
      && at.width >= 0 && at.height >= 0 && a.Positive() && b.Positive() && sides.Some?
      && Drag(t, boxes, p, k, pos) == Some((sides.value.0, Reframe(t, k, Frame(g.orientation, sides.value.1))))
  {
    SidesMeasured(t, box, p, boxes, k);
  }

  /** Main result on drags.  In a laid out tree without empty tiles, an unclamped drag that writes a
      new ratio leaves the split its box and puts its border, as the next layout divides that box,
      within the pixel left of the pointer, exactly when the pointer leaves the first side a pixel. */
  lemma DragMeaning<S, L>(t: Tree<S, L>, box: Box, p: LayoutPolicy, boxes: map<L, Box>, k: S, pos: real)
    requires Distinct(t) && k in SplitSet(t) && Laid(t, box, p, boxes) && AllPositive(t, boxes)
    requires box.width >= 0 && box.height >= 0 && p.Validated()
    requires Drag(t, boxes, p, k, pos).Some?
    requires p.resizeMin < Drag(t, boxes, p, k, pos).value.0 < p.resizeMax
    requires FrameOf(Drag(t, boxes, p, k, pos).value.1, k) != FrameOf(t, k)
    ensures FrameOf(t, k).Some? && BoxAt(t, box, p, k).Some?
    ensures var t' := Drag(t, boxes, p, k, pos).value.1;
      var at := BoxAt(t, box, p, k).value;
      var g := FrameOf(t, k).value;
      var next := Drag(t, boxes, p, k, pos).value.0;
      var (a, b) := Divide(g.orientation, g.ratio, p, at);
      var (a', b') := Divide(g.orientation, next, p, at);
      && BoxAt(t', box, p, k) == Some(at)
      && FrameOf(t', k) == Some(Frame(g.orientation, next))
      && ((pos - 1.0 < BorderMiddle(g.orientation, a', b') <= pos) <==>
           pos >= Near(g.orientation, a) as real + 1.0 + (Near(g.orientation, b) - Far(g.orientation, a)) as real * 0.5)
  {
    DragWrites(t, box, p, boxes, k, pos);
    var g, at := FrameOf(t, k).value, BoxAt(t, box, p, k).value;
    var (a, b) := Divide(g.orientation, g.ratio, p, at);
    var (next, written) := DragSides(g.orientation, g.ratio, a, b, p, pos).value;
    FramesAreSplitSet(t, k);
    ReframeKeepsBoxAt(t, box, p, k, Frame(g.orientation, written));
    ReframeMeaning(t, k, Frame(g.orientation, written), k);
    DragLands(g.orientation, g.ratio, p, at, pos);
  }

  /** The tiles of a laid out tree are where laying it out with another ratio on split `k` puts them,
      exactly when the split divides its box the same way: read back, they show both its sides. */
  lemma StaysLaidIff<S, L>(t: Tree<S, L>, box: Box, p: LayoutPolicy, boxes: map<L, Box>, k: S, r: real)
    requires Distinct(t) && k in SplitSet(t) && Laid(t, box, p, boxes) && AllPositive(t, boxes)
    requires box.width >= 0 && box.height >= 0 && p.Validated()
    ensures FrameOf(t, k).Some? && BoxAt(t, box, p, k).Some?
    ensures var g := FrameOf(t, k).value; var at := BoxAt(t, box, p, k).value;
      Laid(Reframe(t, k, Frame(g.orientation, r)), box, p, boxes) <==>
      Divide(g.orientation, r, p, at) == Divide(g.orientation, g.ratio, p, at)
  {
    SidesMeasured(t, box, p, boxes, k);
    var g, at := FrameOf(t, k).value, BoxAt(t, box, p, k).value;
    var f := Frame(g.orientation, r);
    if Divide(g.orientation, r, p, at) == Divide(g.orientation, g.ratio, p, at) {
      SameDivisionStaysLaid(t, box, p, boxes, k, f);
    } else if Laid(Reframe(t, k, f), box, p, boxes) {
      ReframedSubtree(t, k, f);
      PositiveByLeaf(t, k, f, boxes);
      ReframeKeepsBoxAt(t, box, p, k, f);
      SidesMeasured(Reframe(t, k, f), box, p, boxes, k);
      assert false;
    }
  }

  /** A drag moves no tile exactly when the ratio it leaves divides the split's box as before. */
  lemma DragIsStill<S, L>(t: Tree<S, L>, box: Box, p: LayoutPolicy, boxes: map<L, Box>, k: S, pos: real, g: Frame,
                          at: Box)
    requires Distinct(t) && k in SplitSet(t) && Laid(t, box, p, boxes) && AllPositive(t, boxes)
    requires box.width >= 0 && box.height >= 0 && p.Validated()
    requires FrameOf(t, k) == Some(g) && BoxAt(t, box, p, k) == Some(at)
    ensures var sides := Divide(g.orientation, g.ratio, p, at);
      var drag := DragSides(g.orientation, g.ratio, sides.0, sides.1, p, pos);
      && at.width >= 0 && at.height >= 0 && sides.0.Positive() && sides.1.Positive()
      && drag.Some? && Drag(t, boxes, p, k, pos).Some?
      && (Laid(Drag(t, boxes, p, k, pos).value.1, box, p, boxes) <==> Divide(g.orientation, drag.value.1, p, at) == sides)
  {
    DragWrites(t, box, p, boxes, k, pos);
    var (a, b) := Divide(g.orientation, g.ratio, p, at);
    StaysLaidIff(t, box, p, boxes, k, DragSides(g.orientation, g.ratio, a, b, p, pos).value.1);
  }

  /** Main result on the middle.  Dragging a border to its own middle moves no tile of the workspace,
      exactly when `MiddleStays`: the tiles are where the next layout puts them. */
  lemma DragToMiddleIsStill<S, L>(t: Tree<S, L>, box: Box, p: LayoutPolicy, boxes: map<L, Box>, k: S, g: Frame, at: Box)
    requires Distinct(t) && k in SplitSet(t) && Laid(t, box, p, boxes) && AllPositive(t, boxes)
    requires box.width >= 0 && box.height >= 0 && p.Validated()
    requires FrameOf(t, k) == Some(g) && BoxAt(t, box, p, k) == Some(at)
    ensures var sides := Divide(g.orientation, g.ratio, p, at);
      var drag := Drag(t, boxes, p, k, BorderMiddle(g.orientation, sides.0, sides.1));
      var span, rest := Extent(g.orientation, sides.0), Extent(g.orientation, sides.1);
      && drag.Some? && span > 0 && rest > 0
      && (Laid(drag.value.1, box, p, boxes) <==> MiddleStays(p, g.ratio, span, span + rest))
  {
    var sides := Divide(g.orientation, g.ratio, p, at);
    DragIsStill(t, box, p, boxes, k, BorderMiddle(g.orientation, sides.0, sides.1), g, at);
    DragToMiddle(g.orientation, g.ratio, p, at);
  }

  /** For a ratio inside the policy's limits the middle is always still. */
  lemma LegalRatioStays(o: Orientation, ratio: real, p: LayoutPolicy, box: Box)
    requires box.width >= 0 && box.height >= 0 && p.Validated() && p.resizeMin <= ratio <= p.resizeMax
    requires var (a, b) := Divide(o, ratio, p, box); Extent(o, a) + Extent(o, b) > 0
    ensures var (a, b) := Divide(o, ratio, p, box);
      MiddleStays(p, ratio, Extent(o, a), Extent(o, a) + Extent(o, b))
  {
    LegalRatioLegalSpan(o, ratio, p, box);
  }

  // ----- where a drag does less

  function Pair(ratio: real): Tree<nat, nat> { Split(0, Horizontal, ratio, Leaf(0), Leaf(1)) }

  /** Outside the limits a drag to the middle can move tiles: a ratio below the policy's minimum is
      pulled up to it. */
  lemma DragToMiddleCanMove()
    ensures var p, box := LayoutPolicy(0.5, 0.05, 0.2, 0.8, 0, 0), Box(0, 0, 100, 10);
      var a, b := Box(0, 0, 10, 10), Box(10, 0, 90, 10);
      var boxes: map<nat, Box> := map[0 := a, 1 := b];
      && p.Validated() && Laid(Pair(0.1), box, p, boxes) && AllPositive(Pair(0.1), boxes)
      && Drag(Pair(0.1), boxes, p, 0, BorderMiddle(Horizontal, a, b)) == Some((0.2, Pair(0.2)))
      && !Laid(Pair(0.2), box, p, boxes)
  {
    assert (100 as real * 0.1).Floor == 10;
    assert (100 as real * 0.2).Floor == 20;
  }

  /** Outside the limits a ratio that barely misses them is left alone, though its span does not lie
      between theirs. */
  lemma DragToMiddleBarelyStays()
    ensures var p, box, r := LayoutPolicy(0.5, 0.05, 0.2, 0.8, 0, 0), Box(0, 0, 100, 10), 0.1999999995;
      var a, b := Box(0, 0, 19, 10), Box(19, 0, 81, 10);
      var boxes: map<nat, Box> := map[0 := a, 1 := b];
      && p.Validated() && Laid(Pair(r), box, p, boxes) && AllPositive(Pair(r), boxes)
      && FirstSpan(100, p.resizeMin) == 20
      && Drag(Pair(r), boxes, p, 0, BorderMiddle(Horizontal, a, b)) == Some((0.2, Pair(r)))
  {
    assert (100 as real * 0.1999999995).Floor == 19;
    assert (100 as real * 0.2).Floor == 20;
    assert 19 as real / 100 as real == 0.19;
  }

  /** A pointer that leaves the first side less than a pixel misses the border: the drag is not
      clamped, the side keeps its one pixel and the border lies right of the pointer. */
  lemma DragCanMiss()
    ensures var p, box, pos := LayoutPolicy(0.5, 0.05, 0.05, 0.95, 0, 0), Box(0, 0, 10, 10), 0.6;
      var boxes: map<nat, Box> := map[0 := Box(0, 0, 5, 10), 1 := Box(5, 0, 5, 10)];
      var (a, b) := Divide(Horizontal, 0.06, p, box);
      && p.Validated() && Laid(Pair(0.5), box, p, boxes) && AllPositive(Pair(0.5), boxes)
      && Drag(Pair(0.5), boxes, p, 0, pos) == Some((0.06, Pair(0.06)))
      && p.resizeMin < 0.06 < p.resizeMax && BorderMiddle(Horizontal, a, b) > pos
  {
    assert (10 as real * 0.5).Floor == 5;
    assert (10 as real * 0.06).Floor == 0;
  }
}
