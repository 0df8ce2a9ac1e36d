/** Floating geometry: clamping a box to the usable area and the client's size limits, and resizing it
by dragging its edges.  Both axes obey the same rules, so the rules are stated for one axis. */
module FloatingGeometry {
  import opened Geometry

  const FLOATING_MIN_SIZE := 64

  /** The extent of a box along one axis. */
  datatype Span = Span(start: int, size: int)
  {
    function End(): int { start + size }
  }

  datatype Limits = Limits(least: int, most: int)
  {
    predicate Admits(size: int) { least <= size <= most }
  }

  /** A client's wishes along one axis; zero or less means none. */
  datatype Wishes = Wishes(least: int, most: int)

  datatype Grip = Neither | LowEdge | HighEdge

  function Horizontally(b: Box): Span { Span(b.x, b.width) }

  function Vertically(b: Box): Span { Span(b.y, b.height) }

  function Boxed(h: Span, v: Span): Box { Box(h.start, v.start, h.size, v.size) }

  function Clamp(value: int, minimum: int, maximum: int): int {
    if value < minimum then minimum else if value > maximum then maximum else value
  }

  /** The limits on a window's content in an area of size `room`. */
  function ContentLimits(w: Wishes, room: int): Limits {
    var most := if 0 < w.most < room then w.most else room;
    var least := if w.least > FLOATING_MIN_SIZE then w.least else FLOATING_MIN_SIZE;
    Limits(if most < least then most else least, most)
  }

  /** The limits on the outer box, which adds `overhead` to the content. */
  function OuterLimits(w: Wishes, overhead: int, room: int): Limits {
    var inner := ContentLimits(w, room);
    Limits(if inner.least + overhead > room then room else inner.least + overhead,
           if inner.most + overhead > room then room else inner.most + overhead)
  }

  /** Inside the usable area, with a size the limits admit. */
  predicate Legal(s: Span, area: Span, l: Limits) {
    area.start <= s.start && s.End() <= area.End() && l.Admits(s.size)
  }

  function Place(s: Span, area: Span, l: Limits): Span {
    var size := Clamp(s.size, l.least, l.most);
    Span(if s.start < area.start then area.start
         else if s.start > area.End() - size then area.End() - size
         else s.start, size)
  }

  function Drag(s: Span, g: Grip, delta: int, area: Span, l: Limits): Span {
    match g
    case Neither => s
    case LowEdge =>
      var minimum := if s.End() - l.most > area.start then s.End() - l.most else area.start;
      var low := Clamp(s.start + delta, minimum, s.End() - l.least);
      Span(low, s.End() - low)
    case HighEdge =>
      var maximum := if s.start + l.most < area.End() then s.start + l.most else area.End();
      var high := Clamp(s.End() + delta, s.start + l.least, maximum);
      Span(s.start, high - s.start)
  }

  // ----- limits

  /** Compatible wishes are all honoured; otherwise exactly the largest admissible size is left. */
  lemma ContentLimitsMeaning(w: Wishes, room: int, size: int)
    requires room > 0
    ensures var l := ContentLimits(w, room); var wanted := if 0 < w.most < room then w.most else room;
      if FLOATING_MIN_SIZE <= wanted && w.least <= wanted then
        (l.Admits(size) <==>
          FLOATING_MIN_SIZE <= size <= room && w.least <= size && (w.most > 0 ==> size <= w.most))
      else l.Admits(size) <==> size == wanted
  {
  }

  lemma LimitsFit(w: Wishes, overhead: int, room: int)
    requires room > 0 && overhead >= 0
    ensures var l := OuterLimits(w, overhead, room);
      0 < l.least <= l.most <= room
  {
  }

  /** The outer limits say of the content, the outer size without the overhead, what the content limits
      say, as long as the least content fits the area with its overhead; otherwise the area is filled. */
  lemma OuterLimitsMeaning(w: Wishes, overhead: int, room: int, size: int)
    requires room > 0 && overhead >= 0
    ensures var inner := ContentLimits(w, room);
      if inner.least + overhead <= room then
        OuterLimits(w, overhead, room).Admits(size) <==> size <= room && inner.Admits(size - overhead)
      else OuterLimits(w, overhead, room).Admits(size) <==> size == room
  {
  }

  // ----- placing

  /** Whatever is asked for, the placed extent is legal; its size is the admissible size nearest to the
      one asked for, and its start the nearest that keeps this size inside the area. */
  lemma PlaceIsNearest(s: Span, area: Span, l: Limits)
    requires 0 < l.least <= l.most <= area.size
    ensures var r := Place(s, area, l);
      && Legal(r, area, l)
      && (forall size :: l.Admits(size) ==> Distance(r.size, s.size) <= Distance(size, s.size))
      && (forall start :: Legal(Span(start, r.size), area, l) ==> Distance(r.start, s.start) <= Distance(start, s.start))
  {
  }

  function Distance(a: int, b: int): int {
    if a < b then b - a else a - b
  }

  /** An extent is left alone exactly when it is legal. */
  lemma PlaceKeepsLegal(s: Span, area: Span, l: Limits)
    requires 0 < l.least <= l.most <= area.size
    ensures Place(s, area, l) == s <==> Legal(s, area, l)
  {
    PlaceIsNearest(s, area, l);
  }

  // ----- dragging an edge

  /** The edge opposite to the dragged one. */
  function Anchored(s: Span, g: Grip): int {
    if g.LowEdge? then s.End() else s.start
  }

  function Dragged(s: Span, g: Grip): int {
    if g.LowEdge? then s.start else s.End()
  }

  /** The extent with the same opposite edge whose dragged edge is at `at`. */
  function WithEdgeAt(s: Span, g: Grip, at: int): Span {
    if g.LowEdge? then Span(at, s.End() - at) else Span(s.start, at - s.start)
  }

  /** Dragging an edge of a legal extent keeps the opposite edge, puts the dragged edge at the legal
      position nearest to the pointer, and leaves an extent that placing does not change again. */
  lemma DragIsNearest(s: Span, g: Grip, delta: int, area: Span, l: Limits)
    requires 0 < l.least <= l.most <= area.size && Legal(s, area, l)
    ensures var r := Drag(s, g, delta, area, l);
      && Legal(r, area, l) && Place(r, area, l) == r
      && (g.Neither? ==> r == s)
      && (!g.Neither? ==>
        && Anchored(r, g) == Anchored(s, g)
        && forall at :: Legal(WithEdgeAt(s, g, at), area, l) ==>
          Distance(Dragged(r, g), Dragged(s, g) + delta) <= Distance(at, Dragged(s, g) + delta))
  {
    PlaceKeepsLegal(Drag(s, g, delta, area, l), area, l);
  }

  /** Moving the pointer back to where the drag began restores the box. */
  lemma DragBackRestores(s: Span, g: Grip, area: Span, l: Limits)
    requires 0 < l.least <= l.most <= area.size && Legal(s, area, l)
    ensures Drag(s, g, 0, area, l) == s
  {
    DragIsNearest(s, g, 0, area, l);
    assert WithEdgeAt(s, g, Dragged(s, g)) == s;
  }

  method DragEdge(start: int, size: int, low: bool, high: bool, delta: int, areaStart: int, areaSize: int, least: int,
                  most: int)
    returns (first: int, last: int)
    requires !(low && high)
    ensures Span(first, last - first) == Drag(Span(start, size),
        if low then LowEdge else if high then HighEdge else Neither,
      delta, Span(areaStart, areaSize), Limits(least, most))
  {
    first, last := start, start + size;
    if low {
      var minimum := if last - most > areaStart then last - most else areaStart;
      first := Clamp(start + delta, minimum, last - least);
    } else if high {
      var areaEnd := areaStart + areaSize;
      var maximum := if start + most < areaEnd then start + most else areaEnd;
      last := Clamp(last + delta, start + least, maximum);
    }
  }

  // ----- a floating group

  datatype Edges = Edges(top: bool, bottom: bool, left: bool, right: bool, unknown: bool)
  {
    predicate Proper() {
      (top || bottom || left || right) && !(left && right) && !(top && bottom) && !unknown
    }

    function Sideways(): Grip { if left then LowEdge else if right then HighEdge else Neither }

    function Upright(): Grip { if top then LowEdge else if bottom then HighEdge else Neither }
  }

  /** A floating group and its active window. */
  class FloatingGroup {
    var groupFloating: bool
    var windowFloating: bool
    var fullscreen: bool
    var widthWishes: Wishes
    var heightWishes: Wishes
    var overheadWidth: nat
    var overheadHeight: nat
    var box: Box

    constructor (box: Box, widthWishes: Wishes, heightWishes: Wishes)
      ensures this.box == box && groupFloating && windowFloating && !fullscreen
      ensures this.widthWishes == widthWishes && this.heightWishes == heightWishes
    {
      this.box, this.widthWishes, this.heightWishes := box, widthWishes, heightWishes;
      groupFloating, windowFloating, fullscreen, overheadWidth, overheadHeight := true, true, false, 0, 0;
    }

    predicate Movable()
      reads this
    {
      groupFloating && windowFloating && !fullscreen
    }

    function WidthLimits(area: Box): Limits
      reads this
    {
      OuterLimits(widthWishes, overheadWidth, area.width)
    }

    function HeightLimits(area: Box): Limits
      reads this
    {
      OuterLimits(heightWishes, overheadHeight, area.height)
    }

    /** The box lies in the usable area and its size is within the limits. */
    predicate LegalBox(b: Box, area: Box)
      reads this
    {
      && Legal(Horizontally(b), Horizontally(area), WidthLimits(area))
      && Legal(Vertically(b), Vertically(area), HeightLimits(area))
    }

    method FloatingSizeConstraints(area: Box) returns (minWidth: int, maxWidth: int, minHeight: int, maxHeight: int)
      ensures Limits(minWidth, maxWidth) == ContentLimits(widthWishes, area.width)
      ensures Limits(minHeight, maxHeight) == ContentLimits(heightWishes, area.height)
    {
      minWidth, minHeight := FLOATING_MIN_SIZE, FLOATING_MIN_SIZE;
      maxWidth, maxHeight := area.width, area.height;
      if widthWishes.least > minWidth { minWidth := widthWishes.least; }
      if heightWishes.least > minHeight { minHeight := heightWishes.least; }
      if widthWishes.most > 0 && widthWishes.most < maxWidth { maxWidth := widthWishes.most; }
      if heightWishes.most > 0 && heightWishes.most < maxHeight { maxHeight := heightWishes.most; }
      if maxWidth < minWidth { minWidth := maxWidth; }
      if maxHeight < minHeight { minHeight := maxHeight; }
    }

    method OuterConstraints(area: Box) returns (minWidth: int, maxWidth: int, minHeight: int, maxHeight: int)
      ensures Limits(minWidth, maxWidth) == WidthLimits(area)
      ensures Limits(minHeight, maxHeight) == HeightLimits(area)
    {
      minWidth, maxWidth, minHeight, maxHeight := FloatingSizeConstraints(area);
      minWidth, maxWidth := minWidth + overheadWidth, maxWidth + overheadWidth;
      minHeight, maxHeight := minHeight + overheadHeight, maxHeight + overheadHeight;
      if minWidth > area.width { minWidth := area.width; }
      if maxWidth > area.width { maxWidth := area.width; }
      if minHeight > area.height { minHeight := area.height; }
      if maxHeight > area.height { maxHeight := area.height; }
    }

    /** Any box asked for is stored as the placed one, which is legal. */
    method SetFloatingGeometry(area: Box, x: int, y: int, width: int, height: int) returns (ok: bool)
      modifies `box
      ensures ok == (Movable() && area.Positive() && width > 0 && height > 0)
      ensures !ok ==> box == old(box)
      ensures ok ==> LegalBox(box, area) && box == Boxed(
        Place(Span(x, width), Horizontally(area), WidthLimits(area)),
        Place(Span(y, height), Vertically(area), HeightLimits(area)))
    {
      if !Movable() || width <= 0 || height <= 0 || !area.Positive() {
        return false;
      }
      var minWidth, maxWidth, minHeight, maxHeight := OuterConstraints(area);
      var w, h := Clamp(width, minWidth, maxWidth), Clamp(height, minHeight, maxHeight);
      var left, top := x, y;
      var maxX, maxY := area.x + area.width - w, area.y + area.height - h;
      if left < area.x {
        left := area.x;
      } else if left > maxX {
        left := maxX;
      }
      if top < area.y {
        top := area.y;
      } else if top > maxY {
        top := maxY;
      }
      LimitsFit(widthWishes, overheadWidth, area.width);
      LimitsFit(heightWishes, overheadHeight, area.height);
      box := Box(left, top, w, h);
      return true;
    }

    /** Resizing from a legal origin stores the dragged box itself; resizing from any origin stores a
        legal box or fails and stores nothing. */
    method ResizeFloatingFromEdges(area: Box, origin: Box, edges: Edges, dx: int, dy: int) returns (ok: bool)
      modifies `box
      ensures !ok ==> box == old(box)
      ensures ok ==> Movable() && origin.Positive() && edges.Proper() && area.Positive() && LegalBox(box, area)
      ensures Movable() && origin.Positive() && edges.Proper() && area.Positive() && LegalBox(origin, area) ==>
        && ok
        && Horizontally(box) ==
          Drag(Horizontally(origin), edges.Sideways(), dx, Horizontally(area), WidthLimits(area))
        && Vertically(box) ==
          Drag(Vertically(origin), edges.Upright(), dy, Vertically(area), HeightLimits(area))
    {
      hide Clamp, OuterLimits;
      if !Movable() || !origin.Positive() || !edges.Proper() || !area.Positive() {
        return false;
      }
      var minWidth, maxWidth, minHeight, maxHeight := OuterConstraints(area);
      var left, right := DragEdge(origin.x, origin.width, edges.left, edges.right, dx, area.x, area.width, minWidth,
          maxWidth);
      var top, bottom := DragEdge(origin.y, origin.height, edges.top, edges.bottom, dy, area.y, area.height, minHeight,
          maxHeight);
      if LegalBox(origin, area) {
        LimitsFit(widthWishes, overheadWidth, area.width);
        LimitsFit(heightWishes, overheadHeight, area.height);
        DragIsNearest(Horizontally(origin), edges.Sideways(), dx, Horizontally(area), WidthLimits(area));
        DragIsNearest(Vertically(origin), edges.Upright(), dy, Vertically(area), HeightLimits(area));
      }
      ok := SetFloatingGeometry(area, left, top, right - left, bottom - top);
    }
  }
}
