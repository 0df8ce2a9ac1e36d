/** Directional focus: how candidate tiles are ranked, and where the best one lies in a tiled layout. */
module Navigation {
  import opened Seqs
  import opened LayoutTree
  import opened Geometry

  /** Compared lexicographically: same lane first, then the nearest edge, then the closest centre
      across the direction, then the closest centre along it. */
  datatype Rank = Rank(lane: int, edge: int, across: int, along: int)
  {
    predicate Below(r: Rank) {
      || lane < r.lane
      || (lane == r.lane && edge < r.edge)
      || (lane == r.lane && edge == r.edge && across < r.across)
      || (lane == r.lane && edge == r.edge && across == r.across && along < r.along)
    }
  }

  function Max(a: int, b: int): int { if a > b then a else b }
  function Min(a: int, b: int): int { if a < b then a else b }
  function Abs(a: int): int { if a < 0 then -a else a }

  /** Common rows of two boxes, negative when apart. */
  function RowOverlap(a: Box, b: Box): int {
    Min(a.Bottom(), b.Bottom()) - Max(a.y, b.y)
  }

  function ColumnOverlap(a: Box, b: Box): int {
    Min(a.Right(), b.Right()) - Max(a.x, b.x)
  }

  /** The rank of a candidate seen from the source; none when its centre is not on that side. */
  function RankOf(source: Box, candidate: Box, d: Direction): Option<Rank> {
    var dx := candidate.x + candidate.Right() - (source.x + source.Right());
    var dy := candidate.y + candidate.Bottom() - (source.y + source.Bottom());
    var rowLane := if RowOverlap(source, candidate) > 0 then 0 else 1;
    var columnLane := if ColumnOverlap(source, candidate) > 0 then 0 else 1;
    match d
    case Left =>
      if dx >= 0 then None
      else Some(Rank(rowLane, Max(source.x - candidate.Right(), 0), Abs(dy), -dx))
    case Right =>
      if dx <= 0 then None
      else Some(Rank(rowLane, Max(candidate.x - source.Right(), 0), Abs(dy), dx))
    case Up =>
      if dy >= 0 then None
      else Some(Rank(columnLane, Max(source.y - candidate.Bottom(), 0), Abs(dx), -dy))
    case Down =>
      if dy <= 0 then None
      else Some(Rank(columnLane, Max(candidate.y - source.Bottom(), 0), Abs(dx), dy))
  }

  // ----- the same said of the boxes

  predicate Sideways(d: Direction) { d == Left || d == Right }

  /** Twice the centre of the box on the axis of `d`. */
  function CentreAlong(b: Box, d: Direction): int {
    if Sideways(d) then b.x + b.Right() else b.y + b.Bottom()
  }

  function CentreAcross(b: Box, d: Direction): int {
    if Sideways(d) then b.y + b.Bottom() else b.x + b.Right()
  }

  /** The box covers row `n`, or column `n` when the direction is up or down. */
  predicate OnLane(b: Box, d: Direction, n: int) {
    if Sideways(d) then b.y <= n < b.Bottom() else b.x <= n < b.Right()
  }

  /** The centre of `b` lies on side `d` of the centre of `a`. */
  predicate OnSide(a: Box, b: Box, d: Direction) {
    if d == Left || d == Up then CentreAlong(b, d) < CentreAlong(a, d) else CentreAlong(b, d) > CentreAlong(a, d)
  }

  ghost predicate SharesLane(a: Box, b: Box, d: Direction) {
    exists n :: OnLane(a, d, n) && OnLane(b, d, n)
  }

  /** Pixels between side `d` of `a` and the opposite side of `b`. */
  function EdgeGap(a: Box, b: Box, d: Direction): int {
    match d
    case Left => if b.Right() < a.x then a.x - b.Right() else 0
    case Right => if a.Right() < b.x then b.x - a.Right() else 0
    case Up => if b.Bottom() < a.y then a.y - b.Bottom() else 0
    case Down => if a.Bottom() < b.y then b.y - a.Bottom() else 0
  }

  function Distance(m: int, n: int): (r: int)
    ensures r >= 0 && (n == m + r || n == m - r)
  {
    if m < n then n - m else m - n
  }

  /** Seen from `a`, `b` is preferred to `c`: it alone shares a lane with `a`; or its edge is nearer, or, for
      edges equally near, its centre is nearer across the direction, or, for those too, along it. */
  ghost predicate Preferred(a: Box, b: Box, c: Box, d: Direction) {
    var same := SharesLane(a, b, d) <==> SharesLane(a, c, d);
    var edge := EdgeGap(a, b, d) - EdgeGap(a, c, d);
    var across := Distance(CentreAcross(a, d), CentreAcross(b, d)) - Distance(CentreAcross(a, d), CentreAcross(c, d));
    var along := Distance(CentreAlong(a, d), CentreAlong(b, d)) - Distance(CentreAlong(a, d), CentreAlong(c, d));
    || (SharesLane(a, b, d) && !SharesLane(a, c, d))
    || (same && edge < 0)
    || (same && edge == 0 && across < 0)
    || (same && edge == 0 && across == 0 && along < 0)
  }

  lemma LanesOverlap(a: Box, b: Box, d: Direction)
    ensures SharesLane(a, b, d) <==> (if Sideways(d) then RowOverlap(a, b) else ColumnOverlap(a, b)) > 0
  {
    if Sideways(d) && RowOverlap(a, b) > 0 {
      assert OnLane(a, d, Max(a.y, b.y)) && OnLane(b, d, Max(a.y, b.y));
    } else if !Sideways(d) && ColumnOverlap(a, b) > 0 {
      assert OnLane(a, d, Max(a.x, b.x)) && OnLane(b, d, Max(a.x, b.x));
    }
  }

  /** The rank computed for a box exists exactly when its centre lies on the side asked for, and says how
      far away it is. */
  lemma RankMeaning(a: Box, b: Box, d: Direction)
    ensures RankOf(a, b, d).Some? <==> OnSide(a, b, d)
    ensures OnSide(a, b, d) ==>
      && (RankOf(a, b, d).value.lane == 0 <==> SharesLane(a, b, d)) && 0 <= RankOf(a, b, d).value.lane <= 1
      && RankOf(a, b, d).value.edge == EdgeGap(a, b, d)
      && RankOf(a, b, d).value.across == Distance(CentreAcross(a, d), CentreAcross(b, d))
      && RankOf(a, b, d).value.along == Distance(CentreAlong(a, d), CentreAlong(b, d))
  {
    LanesOverlap(a, b, d);
  }

  /** Ranks compare as the boxes do. */
  lemma RankPrefers(a: Box, b: Box, c: Box, d: Direction)
    requires RankOf(a, b, d).Some? && RankOf(a, c, d).Some?
    ensures RankOf(a, b, d).value.Below(RankOf(a, c, d).value) <==> Preferred(a, b, c, d)
  {
    hide RankOf, SharesLane;
    RankMeaning(a, b, d);
    RankMeaning(a, c, d);
  }

  /** `b` starts exactly where `a` ends on side `d`, and they share part of that edge. */
  ghost predicate Touches(a: Box, b: Box, d: Direction) {
    && SharesLane(a, b, d)
    && match d
       case Left => b.Right() == a.x
       case Right => a.Right() == b.x
       case Up => b.Bottom() == a.y
       case Down => a.Bottom() == b.y
  }

  ghost predicate Overlap(a: Box, b: Box) {
    RowOverlap(a, b) > 0 && ColumnOverlap(a, b) > 0
  }

  /** A touching box lies on that side, in the same lane, with nothing between. */
  lemma TouchingIsNearest(a: Box, b: Box, d: Direction)
    requires a.Positive() && b.Positive() && Touches(a, b, d)
    ensures OnSide(a, b, d) && SharesLane(a, b, d) && EdgeGap(a, b, d) == 0
  {
  }

  /** Among boxes that do not overlap, only touching ones are that near. */
  lemma NearestTouches(a: Box, b: Box, d: Direction)
    requires a.Positive() && b.Positive() && !Overlap(a, b)
    requires OnSide(a, b, d) && SharesLane(a, b, d) && EdgeGap(a, b, d) == 0
    ensures Touches(a, b, d)
  {
    LanesOverlap(a, b, d);
  }

  /** Tiles of one layout never overlap. */
  lemma TilesDoNotOverlap<S, L>(t: Tree<S, L>, box: Box, p: LayoutPolicy, l: L, m: L)
    requires Distinct(t) && l in LeafSet(t) && m in LeafSet(t) && l != m
    requires box.width >= 0 && box.height >= 0 && p.Validated()
    ensures !Overlap(BoxOf(t, box, p, l), BoxOf(t, box, p, m))
  {
    var a, b := BoxOf(t, box, p, l), BoxOf(t, box, p, m);
    if Overlap(a, b) {
      LeavesDisjoint(t, box, p, l, m, Max(a.x, b.x), Max(a.y, b.y));
    }
  }

  /** A pixel just outside side `d` of a box. */
  function Outside(a: Box, d: Direction): (int, int) {
    match d
    case Left => (a.x - 1, a.y)
    case Right => (a.Right(), a.y)
    case Up => (a.x, a.y - 1)
    case Down => (a.x, a.Bottom())
  }

  /** Without an inner gap, a tile that does not reach the edge of the workspace has a touching tile. */
  lemma NeighbourTouches<S, L>(t: Tree<S, L>, box: Box, p: LayoutPolicy, source: L, d: Direction)
    requires Distinct(t) && source in LeafSet(t) && p.Validated() && p.innerGap == 0
    requires box.width >= 0 && box.height >= 0 && BoxOf(t, box, p, source).Positive()
    requires !AtEdge(BoxOf(t, box, p, source), box, d)
    ensures var n := LeafAt(t, box, p, Outside(BoxOf(t, box, p, source), d).0, Outside(BoxOf(t, box, p, source), d).1);
      && n in LeafSet(t) && n != source && BoxOf(t, box, p, n).Positive()
      && Touches(BoxOf(t, box, p, source), BoxOf(t, box, p, n), d)
  {
    var a := BoxOf(t, box, p, source);
    LeafInside(t, box, p, source);
    var (px, py) := Outside(a, d);
    PixelsCovered(t, box, p, px, py);
    var n := LeafAt(t, box, p, px, py);
    TilesDoNotOverlap(t, box, p, source, n);
    LanesOverlap(a, BoxOf(t, box, p, n), d);
  }

  /** Main result on directional focus.  In a layout without inner gap and without empty tiles, a best
      candidate for a source that does not reach the workspace edge on side `d` touches the source
      on that side. */
  lemma BestTouches<S, L>(t: Tree<S, L>, box: Box, p: LayoutPolicy, source: L, best: L, d: Direction)
    requires Distinct(t) && source in LeafSet(t) && best in LeafSet(t) && source != best
    requires p.Validated() && p.innerGap == 0 && box.width >= 0 && box.height >= 0
    requires BoxOf(t, box, p, best).Positive() && BoxOf(t, box, p, source).Positive()
    requires !AtEdge(BoxOf(t, box, p, source), box, d)
    requires OnSide(BoxOf(t, box, p, source), BoxOf(t, box, p, best), d)
    requires forall l :: l in LeafSet(t) && l != source && OnSide(BoxOf(t, box, p, source), BoxOf(t, box, p, l), d) ==>
      !Preferred(BoxOf(t, box, p, source), BoxOf(t, box, p, l), BoxOf(t, box, p, best), d)
    ensures Touches(BoxOf(t, box, p, source), BoxOf(t, box, p, best), d)
  {
    var a, b := BoxOf(t, box, p, source), BoxOf(t, box, p, best);
    var (px, py) := Outside(a, d);
    var n := LeafAt(t, box, p, px, py);
    NeighbourTouches(t, box, p, source, d);
    TouchingIsNearest(a, BoxOf(t, box, p, n), d);
    TilesDoNotOverlap(t, box, p, source, best);
    NearestTouches(a, b, d);
  }
}
