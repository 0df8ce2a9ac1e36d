/** The tab strip of a group: how its columns are divided among the mapped windows, what is drawn there
and which tab the pointer hits. */
module Tabs {
  import opened Seqs
  import opened Geometry

  const HANDLE_WIDTH := 24
  const CHROME_HEIGHT := 24

  datatype Window = Window(id: nat, mapped: bool)

  datatype TabRect = TabRect(window: nat, x: int, width: int)
  {
    predicate Covers(column: int) { x <= column < x + width }
  }

  /** The ids of the mapped windows, in order. */
  function Mapped(windows: seq<Window>): seq<nat> {
    if windows == [] then []
    else
      var last := windows[|windows| - 1];
      Mapped(windows[..|windows| - 1]) + if last.mapped then [last.id] else []
  }

  function HandleWidth(width: int): int {
    if width <= 1 then 0 else if HANDLE_WIDTH < width - 1 then HANDLE_WIDTH else width - 1
  }

  /** The handle has 24 columns, or as many as leave one column to the tabs. */
  lemma HandleLeavesColumn(width: nat, n: nat)
    requires width > 0 && n < width && n <= 24
    ensures n <= HandleWidth(width) <= 24 && HandleWidth(width) < width
  {
  }

  /** The division of a strip: every tab gets `base` columns, the first `remainder` tabs one more. */
  datatype Shares = Shares(base: nat, remainder: nat)
  {
    function Width(i: nat): nat {
      base + if i < remainder then 1 else 0
    }

    function Start(i: nat): nat {
      if i == 0 then 0 else Start(i - 1) + Width(i - 1)
    }

    predicate Holds(i: nat, column: int) {
      Start(i) <= column < Start(i) + Width(i)
    }
  }

  function SharesOf(strip: nat, count: nat): Shares
    requires count > 0
  {
    Shares(strip / count, strip % count)
  }

  // ----- the strip is divided exactly

  lemma {:induction false} StartClosed(t: Shares, i: nat)
    ensures t.Start(i) == i * t.base + if i < t.remainder then i else t.remainder
  {
    if i > 0 {
      StartClosed(t, i - 1);
      assert i * t.base == (i - 1) * t.base + t.base;
    }
  }

  lemma StripFilled(strip: nat, count: nat)
    requires count > 0
    ensures SharesOf(strip, count).Start(count) == strip
  {
    StartClosed(SharesOf(strip, count), count);
    assert count * (strip / count) + strip % count == strip;
  }

  lemma {:induction false} StartsGrow(t: Shares, i: nat, j: nat)
    requires i < j
    ensures t.Start(i) + t.Width(i) <= t.Start(j)
  {
    if i < j - 1 {
      StartsGrow(t, i, j - 1);
    }
  }

  /** The tab of a column, found by walking the tabs from the right. */
  function TabOf(t: Shares, column: nat, n: nat): (i: nat)
    requires column < t.Start(n)
    ensures i < n && t.Holds(i, column)
  {
    if column < t.Start(n - 1) then TabOf(t, column, n - 1) else n - 1
  }

  lemma OneTab(t: Shares, i: nat, j: nat, column: int)
    requires t.Holds(i, column) && t.Holds(j, column)
    ensures i == j
  {
    if i < j {
      StartsGrow(t, i, j);
    } else if j < i {
      StartsGrow(t, j, i);
    }
  }

  /** The tabs partition the strip: they fill it exactly, every column lies in one tab and in no other,
      and the widths of two tabs differ by at most one column. */
  lemma TabsPartition(strip: nat, count: nat, column: nat, i: nat, j: nat)
    requires count > 0
    ensures var t := SharesOf(strip, count);
      && t.Start(count) == strip
      && (column < strip ==> TabOf(t, column, count) < count && t.Holds(TabOf(t, column, count), column))
      && (i < count && t.Holds(i, column) ==> column < strip && i == TabOf(t, column, count))
      && t.Width(i) <= t.Width(j) + 1
  {
    var t := SharesOf(strip, count);
    StripFilled(strip, count);
    if i < count && t.Holds(i, column) {
      StartsGrow(t, i, count);
      OneTab(t, i, TabOf(t, column, count), column);
    }
  }

  // ----- drawing and hit testing

  lemma {:induction false} MappedGrows(windows: seq<Window>, k: nat)
    requires k <= |windows|
    ensures Mapped(windows[..k]) <= Mapped(windows)
    decreases |windows| - k
  {
    if k == |windows| {
      assert windows[..k] == windows;
    } else {
      MappedGrows(windows, k + 1);
      assert windows[..k + 1][..k] == windows[..k];
    }
  }

  method CountMapped(windows: seq<Window>) returns (count: nat)
    ensures count == |Mapped(windows)|
  {
    count := 0;
    for k := 0 to |windows|
      invariant count == |Mapped(windows[..k])|
    {
      assert windows[..k + 1][..k] == windows[..k];
      if windows[k].mapped {
        count := count + 1;
      }
    }
    assert windows[..|windows|] == windows;
  }

  /** Tab `i` of the strip right of the handle. */
  function RectOf(tabs: seq<nat>, t: Shares, handle: nat, i: nat): TabRect
    requires i < |tabs|
  {
    TabRect(tabs[i], handle + t.Start(i), t.Width(i))
  }

  /** The first `n` tabs as they are drawn: those at least one column wide. */
  function Drawn(tabs: seq<nat>, t: Shares, handle: nat, n: nat): seq<TabRect>
    requires n <= |tabs|
  {
    if n == 0 then []
    else Drawn(tabs, t, handle, n - 1) + if t.Width(n - 1) > 0 then [RectOf(tabs, t, handle, n - 1)] else []
  }

  lemma {:induction false} DrawnIsTab(tabs: seq<nat>, t: Shares, handle: nat, n: nat, r: TabRect) returns (i: nat)
    requires n <= |tabs| && r in Drawn(tabs, t, handle, n)
    ensures i < n && t.Width(i) > 0 && r == RectOf(tabs, t, handle, i)
  {
    if r in Drawn(tabs, t, handle, n - 1) {
      i := DrawnIsTab(tabs, t, handle, n - 1, r);
    } else {
      i := n - 1;
    }
  }

  lemma {:induction false} TabIsDrawn(tabs: seq<nat>, t: Shares, handle: nat, n: nat, i: nat)
    requires i < n <= |tabs| && t.Width(i) > 0
    ensures RectOf(tabs, t, handle, i) in Drawn(tabs, t, handle, n)
  {
    if i < n - 1 {
      TabIsDrawn(tabs, t, handle, n - 1, i);
    }
  }

  method DrawTabs(windows: seq<Window>, width: nat) returns (rects: seq<TabRect>)
    requires width > 0
    ensures var tabs := Mapped(windows); var handle := HandleWidth(width);
      rects == if tabs == [] then [] else Drawn(tabs, SharesOf(width - handle, |tabs|), handle, |tabs|)
  {
    rects := [];
    var count := CountMapped(windows);
    if count == 0 {
      return;
    }
    ghost var tabs := Mapped(windows);
    var handle := HandleWidth(width);
    var base, remainder := (width - handle) / count, (width - handle) % count;
    ghost var t := SharesOf(width - handle, count);
    var offset, index := handle, 0;
    for k := 0 to |windows|
      invariant index == |Mapped(windows[..k])| <= count
      invariant offset == handle + t.Start(index)
      invariant rects == Drawn(tabs, t, handle, index)
    {
      NextMapped(windows, k);
      if windows[k].mapped {
        var tabWidth := base + if index < remainder then 1 else 0;
        if tabWidth > 0 {
          rects := rects + [TabRect(windows[k].id, offset, tabWidth)];
        }
        offset := offset + tabWidth;
        index := index + 1;
      }
    }
    assert windows[..|windows|] == windows;
  }

  lemma NextMapped(windows: seq<Window>, k: nat)
    requires k < |windows|
    ensures var n := |Mapped(windows[..k])|;
      if windows[k].mapped then
        |Mapped(windows[..k + 1])| == n + 1 <= |Mapped(windows)| && Mapped(windows)[n] == windows[k].id
      else |Mapped(windows[..k + 1])| == n
  {
    assert windows[..k + 1][..k] == windows[..k];
    MappedGrows(windows, k + 1);
  }

  /** The tab under a column of the group's box, with its start and width in the strip. */
  method TabSlotAt(windows: seq<Window>, width: nat, column: int) returns (hit: Option<TabRect>)
    requires width > 0
    ensures var tabs := Mapped(windows); var handle := HandleWidth(width);
      if tabs == [] || column < handle || column >= width then hit == None
      else
        var t := SharesOf(width - handle, |tabs|);
        t.Start(|tabs|) == width - handle && hit == Some(RectOf(tabs, t, 0, TabOf(t, column - handle, |tabs|)))
  {
    var count := CountMapped(windows);
    if count == 0 {
      return None;
    }
    ghost var tabs := Mapped(windows);
    var handle := HandleWidth(width);
    assert 0 <= handle < width;
    hide HandleWidth;
    var localX := column - handle;
    if localX < 0 {
      return None;
    }
    var base, remainder := (width - handle) / count, (width - handle) % count;
    ghost var t := SharesOf(width - handle, count);
    StripFilled(width - handle, count);
    var offset, index := 0, 0;
    for k := 0 to |windows|
      invariant index == |Mapped(windows[..k])| <= count
      invariant offset == t.Start(index) <= localX
    {
      NextMapped(windows, k);
      if windows[k].mapped {
        var tabWidth := base + if index < remainder then 1 else 0;
        if tabWidth > 0 && localX >= offset && localX < offset + tabWidth {
          StartsGrow(t, index, count);
          OneTab(t, index, TabOf(t, localX, count), localX);
          return Some(TabRect(windows[k].id, offset, tabWidth));
        }
        offset := offset + tabWidth;
        index := index + 1;
      }
    }
    assert windows[..|windows|] == windows;
    return None;
  }

  /** On every column right of the handle, the tab that is hit there is drawn there. */
  lemma HitIsDrawn(tabs: seq<nat>, t: Shares, handle: nat, column: nat)
    requires handle <= column < handle + t.Start(|tabs|)
    ensures var r := RectOf(tabs, t, handle, TabOf(t, column - handle, |tabs|));
      r in Drawn(tabs, t, handle, |tabs|) && r.Covers(column)
  {
    TabIsDrawn(tabs, t, handle, |tabs|, TabOf(t, column - handle, |tabs|));
  }

  /** A drawn tab covers only columns right of the handle and inside the strip, and only columns on
      which it is the tab that is hit. */
  lemma DrawnIsHit(tabs: seq<nat>, t: Shares, handle: nat, column: nat, r: TabRect)
    requires r in Drawn(tabs, t, handle, |tabs|) && r.Covers(column)
    ensures handle <= column < handle + t.Start(|tabs|)
    ensures r == RectOf(tabs, t, handle, TabOf(t, column - handle, |tabs|))
  {
    var i := DrawnIsTab(tabs, t, handle, |tabs|, r);
    StartsGrow(t, i, |tabs|);
    OneTab(t, i, TabOf(t, column - handle, |tabs|), column - handle);
  }

  // ----- where a dropped tab goes

  datatype Insertion = Before | After

  /** A tab dropped on a column goes beside the tab hit there, on the side of the half it falls in. */
  method InsertTargetAt(windows: seq<Window>, width: nat, column: int) returns (target: Option<(nat, Insertion)>)
    requires width > 0
    ensures var tabs := Mapped(windows); var handle := HandleWidth(width);
      if tabs == [] || column < handle || column >= width then target == None
      else
        var t := SharesOf(width - handle, |tabs|);
        && t.Start(|tabs|) == width - handle
        && var i := TabOf(t, column - handle, |tabs|);
          target == Some((tabs[i], if column - handle - t.Start(i) < t.Width(i) / 2 then Before else After))
  {
    var hit := TabSlotAt(windows, width, column);
    if hit.None? {
      return None;
    }
    var localX := column - HandleWidth(width);
    return Some((hit.value.window, if localX - hit.value.x < hit.value.width / 2 then Before else After));
  }

  // ----- the content below the strip

  function Inset(size: int, low: int, high: int): (int, int) {
    var l := if low < 0 then 0 else low;
    var h := if high < 0 then 0 else high;
    var start := if l >= size then size - 1 else l;
    (start, if h >= size - start then size - start - 1 else h)
  }

  /** Whatever insets the shell asks for, the content box is non-empty and inside the group's box. */
  function ContentBox(outer: Box, top: int, right: int, bottom: int, left: int): (content: Box)
    requires outer.Positive()
    ensures content.Positive() && content.Inside(outer)
    ensures left >= 0 && right >= 0 && left + right < outer.width ==>
      content.x == outer.x + left && content.Right() == outer.Right() - right
    ensures top >= 0 && bottom >= 0 && top + bottom < outer.height ==>
      content.y == outer.y + top && content.Bottom() == outer.Bottom() - bottom
  {
    var (l, r) := Inset(outer.width, left, right);
    var (t, b) := Inset(outer.height, top, bottom);
    Box(outer.x + l, outer.y + t, outer.width - l - r, outer.height - t - b)
  }

  /** An inset of `n` is no more than asked for and leaves a pixel of the span. */
  ghost predicate InsetFits(n: int, asked: int, span: int) {
    0 <= n < span && (n <= asked || n == 0)
  }

  ghost predicate WidestInset(n: int, asked: int, span: int) {
    InsetFits(n, asked, span) && forall m :: InsetFits(m, asked, span) ==> m <= n
  }

  /** Insets that do not fit are cut: the left and the top one to the widest that leaves a pixel, the right
      and the bottom one to the widest that leaves a pixel of what remains. */
  lemma ContentBoxMeaning(outer: Box, top: int, right: int, bottom: int, left: int)
    requires outer.Positive()
    ensures var c := ContentBox(outer, top, right, bottom, left);
      && WidestInset(c.x - outer.x, left, outer.width)
      && WidestInset(outer.Right() - c.Right(), right, outer.Right() - c.x)
      && WidestInset(c.y - outer.y, top, outer.height)
      && WidestInset(outer.Bottom() - c.Bottom(), bottom, outer.Bottom() - c.y)
  {
  }
}
