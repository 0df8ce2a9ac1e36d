/** Directional focus and directional exchange on the heap. */
module LayoutNavigation {
  import opened Seqs
  import opened LayoutTree
  import opened Geometry
  import opened Navigation
  import opened Desktop
  import opened LayoutShape
  import opened Layout

  /** A tile the focus may move to: another one, of a group with a mapped active window, whose centre
      lies on side `d`. */
  ghost predicate Candidate(k: Tile, source: Tile, d: Direction)
    reads k`box, k`group, k.group`activeMapped, source`box
  {
    k != source && k.group.activeMapped && OnSide(source.box, k.box, d)
  }

  /** `best` is the first tile of the registry to which no other candidate is preferred. */
  ghost predicate FirstBest(tiles: seq<Tile>, best: Tile, source: Tile, d: Direction)
    reads best, best.group, source, (set k | k in tiles), (set k | k in tiles :: k.group)
  {
    && Candidate(best, source, d)
    && exists i :: 0 <= i < |tiles| && tiles[i] == best && BestAt(tiles, i, source, d)
  }

  ghost predicate BestAt(tiles: seq<Tile>, i: nat, source: Tile, d: Direction)
    requires i < |tiles|
    reads source, (set k | k in tiles), (set k | k in tiles :: k.group)
  {
    forall j :: 0 <= j < |tiles| && Candidate(tiles[j], source, d) ==>
      && !Preferred(source.box, tiles[j].box, tiles[i].box, d)
      && (j < i ==> Preferred(source.box, tiles[i].box, tiles[j].box, d))
  }

  /** The choice spelled out: every other candidate is in no better lane; is no nearer edge to edge in the
      same lane class; is no nearer across at the same edge distance; no nearer along at the same distance
      across too; and not earlier in the registry when all of that is equal. */
  lemma ChoiceMeaning(tiles: seq<Tile>, i: nat, j: nat, source: Tile, d: Direction)
    requires i < |tiles| && j < |tiles| && BestAt(tiles, i, source, d) && Candidate(tiles[j], source, d)
    ensures var a, best, other := source.box, tiles[i].box, tiles[j].box;
      var across := CentreAcross(a, d);
      var along := CentreAlong(a, d);
      && (SharesLane(a, other, d) ==> SharesLane(a, best, d))
      && ((SharesLane(a, other, d) <==> SharesLane(a, best, d)) ==>
        && EdgeGap(a, best, d) <= EdgeGap(a, other, d)
        && (EdgeGap(a, best, d) == EdgeGap(a, other, d) ==>
          && Distance(across, CentreAcross(best, d)) <= Distance(across, CentreAcross(other, d))
          && (Distance(across, CentreAcross(best, d)) == Distance(across, CentreAcross(other, d)) ==>
            && Distance(along, CentreAlong(best, d)) <= Distance(along, CentreAlong(other, d))
            && (Distance(along, CentreAlong(best, d)) == Distance(along, CentreAlong(other, d)) ==> i <= j))))
  {
    hide SharesLane, Distance, EdgeGap;
  }

  lemma RanksAgree(tiles: seq<Tile>, at: nat, source: Tile, d: Direction)
    requires at < |tiles| && RankOf(source.box, tiles[at].box, d).Some?
    requires forall j :: 0 <= j < |tiles| && Candidate(tiles[j], source, d) ==>
      && RankOf(source.box, tiles[j].box, d).Some?
      && var r, q := RankOf(source.box, tiles[j].box, d).value, RankOf(source.box, tiles[at].box, d).value;
      !r.Below(q) && (j < at ==> q.Below(r))
    ensures BestAt(tiles, at, source, d)
  {
    forall j | 0 <= j < |tiles| && Candidate(tiles[j], source, d)
      ensures !Preferred(source.box, tiles[j].box, tiles[at].box, d)
      ensures j < at ==> Preferred(source.box, tiles[at].box, tiles[j].box, d)
    {
      RankPrefers(source.box, tiles[j].box, tiles[at].box, d);
      RankPrefers(source.box, tiles[at].box, tiles[j].box, d);
    }
  }

  /** Looks through the registry for the best tile in direction `d`. */
  method FindDirectionalTile(ws: Workspace, source: Tile, d: Direction) returns (best: Tile?)
    ensures best == null ==> forall k :: k in ws.tiles ==> !Candidate(k, source, d)
    ensures best != null ==> best in ws.tiles && FirstBest(ws.tiles, best, source, d)
  {
    best := null;
    var bestRank := Rank(2, 0, 0, 0);
    ghost var at := 0;
    for i := 0 to |ws.tiles|
      invariant best == null ==> forall j :: 0 <= j < i ==> !Candidate(ws.tiles[j], source, d)
      invariant best != null ==>
        && 0 <= at < i && ws.tiles[at] == best && Candidate(best, source, d)
        && RankOf(source.box, best.box, d) == Some(bestRank)
        && forall j :: 0 <= j < i && Candidate(ws.tiles[j], source, d) ==>
             && RankOf(source.box, ws.tiles[j].box, d).Some?
             && var r := RankOf(source.box, ws.tiles[j].box, d).value;
             !r.Below(bestRank) && (j < at ==> bestRank.Below(r))
    {
      var candidate := ws.tiles[i];
      if candidate == source || !candidate.group.activeMapped {
        continue;
      }
      var rank := RankOf(source.box, candidate.box, d);
      RankMeaning(source.box, candidate.box, d);
      if rank.None? {
        continue;
      }
      if best == null || rank.value.Below(bestRank) {
        best, bestRank, at := candidate, rank.value, i;
      }
    }
    if best != null {
      RanksAgree(ws.tiles, at, source, d);
    }
  }

  /** The workspace is laid out in `box` with no empty tile and every group showing a mapped window. */
  ghost predicate Presentable(ws: Workspace, box: Box, p: LayoutPolicy)
    reads ws`tree, ws`tiles
    reads (set l | l in ws.tree.Refs() :: l.tile)`box, (set k | k in ws.tiles)`box, (set k | k in ws.tiles)`group
    reads (set k | k in ws.tiles :: k.group)`activeMapped
  {
    && ws.tree.shape.Some? && LaidOut(ws.tree.shape.value, box, p)
    && forall k :: k in ws.tiles ==> k.box.Positive() && k.group.activeMapped
  }

  lemma TileBoxIsBoxOf(ws: Workspace, box: Box, p: LayoutPolicy, k: Tile)
    requires LayoutOk(ws) && Presentable(ws, box, p) && k in ws.tiles
    ensures RefOf(k) in LeafSet(ws.tree.shape.value)
    ensures k.box == BoxOf(ws.tree.shape.value, box, p, RefOf(k))
  {
    var t := ws.tree.shape.value;
    ApartIsDistinct(t);
    LaidOutIsLaid(t, t, box, p);
    LaidAt(t, box, p, TileBoxes(t), RefOf(k));
  }

  /** In a presentable workspace without inner gap, a tile that does not reach the edge on side `d`
      has a candidate there, and the first best candidate touches it on that side. */
  lemma FocusLandsNextDoor(ws: Workspace, box: Box, p: LayoutPolicy, source: Tile, d: Direction)
    requires LayoutOk(ws) && Presentable(ws, box, p) && source in ws.tiles
    requires p.Validated() && p.innerGap == 0 && box.width >= 0 && box.height >= 0
    requires !AtEdge(source.box, box, d)
    ensures exists k :: k in ws.tiles && Candidate(k, source, d)
    ensures forall best :: best in ws.tiles && FirstBest(ws.tiles, best, source, d) ==> Touches(source.box, best.box, d)
  {
    var t, s := ws.tree.shape.value, RefOf(source);
    ApartIsDistinct(t);
    TileBoxIsBoxOf(ws, box, p, source);
    NeighbourTouches(t, box, p, s, d);
    var n := LeafAt(t, box, p, Outside(source.box, d).0, Outside(source.box, d).1);
    assert Seated(n, ws);
    TileBoxIsBoxOf(ws, box, p, n.tile);
    TouchingIsNearest(source.box, n.tile.box, d);
    assert Candidate(n.tile, source, d);
    forall best | best in ws.tiles && FirstBest(ws.tiles, best, source, d)
      ensures Touches(source.box, best.box, d)
    {
      TileBoxIsBoxOf(ws, box, p, best);
      TilesDoNotOverlap(t, box, p, s, RefOf(best));
      var j :| 0 <= j < |ws.tiles| && ws.tiles[j] == n.tile;
      NearestTouches(source.box, best.box, d);
    }
  }
}
