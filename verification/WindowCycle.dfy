/** Cycling through the mapped windows of a group, forwards and backwards. */
module WindowCycle {

  datatype Window = Window(id: int, mapped: bool)

  /** The index `s` places after `k` in a circle of `n`. */
  function Ahead(k: nat, s: nat, n: nat): (i: nat)
    requires k < n && s <= n
    ensures i < n
  {
    if k + s < n then k + s else k + s - n
  }

  function Behind(k: nat, s: nat, n: nat): (i: nat)
    requires k < n && s <= n
    ensures i < n
  {
    if s <= k then k - s else k - s + n
  }

  function Along(k: nat, s: nat, n: nat, forward: bool): (i: nat)
    requires k < n && s <= n
    ensures i < n
  {
    if forward then Ahead(k, s, n) else Behind(k, s, n)
  }

  /** The window `s` places along is the first mapped one after the active window. */
  ghost predicate FirstMappedAt(windows: seq<Window>, k: nat, s: nat, forward: bool)
    requires k < |windows|
  {
    && 1 <= s < |windows| && windows[Along(k, s, |windows|, forward)].mapped
    && forall t :: 1 <= t < s ==> !windows[Along(k, t, |windows|, forward)].mapped
  }

  /** The nearest other mapped window in the given direction, going round the list once. */
  method FindAdjacentMapped(windows: seq<Window>, active: nat, forward: bool) returns (found: bool, at: nat)
    requires active < |windows|
    ensures found ==> exists s: nat :: FirstMappedAt(windows, active, s, forward) && at == Along(active, s, |windows|, forward)
    ensures !found ==> forall t :: 1 <= t < |windows| ==> !windows[Along(active, t, |windows|, forward)].mapped
  {
    var n := |windows|;
    at := active;
    if n < 2 {
      return false, at;
    }
    for i := 0 to n
      invariant at == Along(active, i, n, forward)
      invariant forall t :: 1 <= t <= i && t < n ==> !windows[Along(active, t, n, forward)].mapped
    {
      if forward {
        at := if at == n - 1 then 0 else at + 1;
      } else {
        at := if at == 0 then n - 1 else at - 1;
      }
      if at != active && windows[at].mapped {
        assert FirstMappedAt(windows, active, i + 1, forward);
        return true, at;
      }
    }
    return false, at;
  }

  /** Going one way and then the other returns to the active window. */
  lemma CycleReturns(windows: seq<Window>, k: nat, s: nat, forward: bool)
    requires k < |windows| && windows[k].mapped && FirstMappedAt(windows, k, s, forward)
    ensures var n := |windows|; var there := Along(k, s, n, forward);
      FirstMappedAt(windows, there, s, !forward) && Along(there, s, n, !forward) == k
  {
    var n := |windows|;
    var there := Along(k, s, n, forward);
    var back := !forward;
    forall t: nat | 1 <= t < s
      ensures !windows[Along(there, t, n, back)].mapped
    {
      assert Along(there, t, n, back) == Along(k, s - t, n, forward);
    }
  }
}
