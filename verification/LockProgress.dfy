/** What counts for the session lock: an output settles as soon as any commit is presented that is no
older than the first one announced to it since the lock began to wait for it, and the last output to
settle tells the locker. */
module LockProgress {
  import opened Seqs
  import opened SessionLock

  /** While an output has not settled, it awaits the first commit announced to it, and nothing before one
      is announced.  Numbers repeat after 2^32 commits. */
  ghost predicate WaitsFor(asked: Option<nat>, commits: nat, s: OutputState) {
    !s.presented ==>
      && (asked.None? ==> !s.pending)
      && (asked.Some? ==> asked.value <= commits + 1)
      && (asked.Some? && commits + 1 < asked.value + WRAP ==> s.pending && s.number == ToWire(asked.value))
  }

  ghost function AskedOf(w: World, output: nat): Option<nat> {
    if output in w.asked then Some(w.asked[output]) else None
  }

  ghost predicate OutputWaits(w: World, s: OutputState) {
    WaitsFor(AskedOf(w, s.output), Count(w.commits, s.output), s)
  }

  ghost predicate Waits(w: World) {
    w.c.secure ==> forall i :: 0 <= i < |w.c.outputs| ==> OutputWaits(w, w.c.outputs[i])
  }

  lemma WireOfNext(n: nat)
    ensures Successor(ToWire(n)) == ToWire(n + 1)
  {
  }

  lemma WiresDiffer(m: nat, n: nat)
    requires m < n < m + WRAP
    ensures ToWire(m) != ToWire(n)
  {
    assert m == WRAP * (m / WRAP) + ToWire(m) && n == WRAP * (n / WRAP) + ToWire(n);
    assert n - m == WRAP * (n / WRAP - m / WRAP) + (ToWire(n) - ToWire(m));
  }

  ghost function Tried(s: OutputState, number: Wire, outcome: Outcome): OutputState {
    if outcome.Rejected? then s.After(Asked(number)).After(Failed(number)) else s.After(Asked(number))
  }

  lemma FrameEntry(c: LockState, commits: nat, o: nat, outcome: Outcome, i: nat)
    requires c.secure && i < |c.outputs|
    ensures var v, s := Frame(c, commits, o, outcome), c.outputs[i];
      |v.outputs| == |c.outputs| && v.outputs[i] == if s.output == o then Tried(s, ToWire(commits + 1), outcome) else s
  {
    WireOfNext(commits);
  }

  /** What a frame does to the first announcement and to the number of commits. */
  lemma TriedWaits(asked: Option<nat>, commits: nat, s: OutputState, outcome: Outcome)
    requires WaitsFor(asked, commits, s)
    ensures WaitsFor(
      if outcome.Rejected? then if asked == Some(commits + 1) then None else asked
      else if asked.Some? then asked
      else Some(commits + 1),
      if outcome.Committed? then commits + 1 else commits, Tried(s, ToWire(commits + 1), outcome))
  {
    if asked.Some? && asked.value < commits + 1 < asked.value + WRAP {
      WiresDiffer(asked.value, commits + 1);
    }
    hide ToWire;
  }

  lemma FrameAsksOnly(w: World, o: nat, outcome: Outcome, p: nat)
    ensures var v, asked := Next(w, FrameDue(o, outcome)), AskedOf(w, p);
      var next := Count(w.commits, o) + 1;
      && AskedOf(v, p) == (if p != o then asked
                           else if outcome.Rejected? then if asked == Some(next) then None else asked
                           else if asked.Some? then asked
                           else Some(next))
      && Count(v.commits, p) == if p == o && outcome.Committed? then next else Count(w.commits, p)
  {
    hide Frame;
  }

  lemma FrameWaits(w: World, o: nat, outcome: Outcome, i: nat)
    requires Waits(w) && w.c.secure && i < |w.c.outputs|
    ensures var v := Next(w, FrameDue(o, outcome));
      i < |v.c.outputs| && OutputWaits(v, v.c.outputs[i])
  {
    var s, n := w.c.outputs[i], Count(w.commits, o);
    assert OutputWaits(w, s);
    hide Frame, Waits, ToWire, WaitsFor, AskedOf;
    FrameEntry(w.c, n, o, outcome, i);
    FrameAsksOnly(w, o, outcome, s.output);
    if s.output == o {
      TriedWaits(AskedOf(w, o), n, s, outcome);
    }
  }

  lemma StepWaits(w: World, e: Event)
    requires Waits(w)
    ensures Waits(Next(w, e))
  {
    var v := Next(w, e);
    if v.c.secure {
      forall i | 0 <= i < |v.c.outputs| ensures OutputWaits(v, v.c.outputs[i]) {
        if Restarts(w.c, e) {
          RestartWaits(w, e, i);
        } else if e.FrameDue? {
          FrameWaits(w, e.output, e.outcome, i);
        } else {
          QuietWaits(w, e, i);
        }
      }
    }
  }

  lemma RestartWaits(w: World, e: Event, i: nat)
    requires Restarts(w.c, e) && Next(w, e).c.secure && i < |Next(w, e).c.outputs|
    ensures OutputWaits(Next(w, e), Next(w, e).c.outputs[i])
  {
  }

  lemma QuietWaits(w: World, e: Event, i: nat)
    requires Waits(w) && !Restarts(w.c, e) && !e.FrameDue? && Next(w, e).c.secure && i < |Next(w, e).c.outputs|
    ensures OutputWaits(Next(w, e), Next(w, e).c.outputs[i])
  {
    var v := Next(w, e);
    var s := v.c.outputs[i];
    if s in w.c.outputs {
      var j :| 0 <= j < |w.c.outputs| && w.c.outputs[j] == s;
      assert OutputWaits(w, w.c.outputs[j]);
    }
  }

  /** Which presentations an output that has not settled accepts, exactly: those of commits from the first
      one announced on, fewer than 2^31 commits later. */
  lemma AcceptsExactly(w: World, s: OutputState, n: nat)
    requires OutputWaits(w, s) && !s.presented
    requires s.output in w.asked ==>
      w.asked[s.output] - HALF <= n <= Count(w.commits, s.output) < w.asked[s.output] + WRAP - 1
    ensures s.Accepts(ToWire(n)) <==> s.output in w.asked && w.asked[s.output] <= n < w.asked[s.output] + HALF
  {
    if s.output in w.asked {
      var base := w.asked[s.output];
      if n < base + HALF {
        PrecedesIsOrder(n, base);
      } else {
        BeyondHalf(n, base);
      }
    }
  }

  lemma BeyondHalf(n: nat, base: nat)
    requires base + HALF <= n < base + WRAP
    ensures Precedes(ToWire(n), ToWire(base))
  {
    assert n == WRAP * (n / WRAP) + ToWire(n) && base == WRAP * (base / WRAP) + ToWire(base);
    assert n - base == ToWire(n) - ToWire(base) + WRAP * (n / WRAP - base / WRAP);
    assert (ToWire(n) - ToWire(base)) % WRAP == (n - base) % WRAP;
  }

  lemma {:induction false} RunWaits(es: seq<Event>)
    ensures Waits(Run(Initial, es))
    decreases |es|
  {
    if es != [] {
      RunWaits(es[..|es| - 1]);
      StepWaits(Run(Initial, es[..|es| - 1]), es[|es| - 1]);
    }
  }

  ghost predicate Settled(c: LockState, output: nat) {
    forall i :: 0 <= i < |c.outputs| && c.outputs[i].output == output ==> c.outputs[i].presented
  }

  /** Main result on progress.  In every reachable secured state, when a commit is reported as presented
      that is no older than the first one announced to the output since the lock began to wait for it,
      with fewer than 2^31 commits made since that one, the output settles; and if all others had settled
      and the locker is still waiting, this very event sends `locked`. */
  lemma FreshPresentationCounts(es: seq<Event>, output: nat, n: nat)
    requires Feasible(es) && Run(Initial, es).c.secure && output in Run(Initial, es).asked
    requires var w := Run(Initial, es);
      w.asked[output] <= n <= Count(w.commits, output) < w.asked[output] + HALF
    ensures var w, v := Run(Initial, es), Next(Run(Initial, es), PresentArrived(output, n, true));
      && Settled(v.c, output)
      && (forall o :: Settled(w.c, o) ==> Settled(v.c, o))
      && (w.c.lock.Some? && w.c.lock.value !in w.c.sent && (forall o :: o != output ==> Settled(w.c, o)) ==>
            v.c.sent == w.c.sent + [w.c.lock.value])
  {
    var w, e := Run(Initial, es), PresentArrived(output, n, true);
    RunWaits(es);
    RunHolds(es);
    var v := Next(w, e);
    forall i | 0 <= i < |w.c.outputs| && w.c.outputs[i].output == output && !w.c.outputs[i].presented
      ensures w.c.outputs[i].Accepts(ToWire(n))
    {
      assert OutputWaits(w, w.c.outputs[i]);
      AcceptsExactly(w, w.c.outputs[i], n);
    }
    SettledByPresentation(w.c, output, ToWire(n));
    if w.c.lock.Some? && w.c.lock.value !in w.c.sent && forall o :: o != output ==> Settled(w.c, o) {
      LastOneSends(w.c, w.locks, output, ToWire(n));
    }
  }

  lemma SettledByPresentation(c: LockState, output: nat, number: Wire)
    requires c.secure
    requires forall i :: 0 <= i < |c.outputs| && c.outputs[i].output == output && !c.outputs[i].presented ==>
      c.outputs[i].Accepts(number)
    ensures var v := Presented(c, output, number, true);
      Settled(v, output) && forall o :: Settled(c, o) ==> Settled(v, o)
  {
  }

  lemma LastOneSends(c: LockState, locks: nat, output: nat, number: Wire)
    requires Consistent(c, locks) && c.secure && c.lock.Some? && c.lock.value !in c.sent
    requires forall o :: o != output ==> Settled(c, o)
    requires forall i :: 0 <= i < |c.outputs| && c.outputs[i].output == output && !c.outputs[i].presented ==>
      c.outputs[i].Accepts(number)
    ensures Presented(c, output, number, true).sent == c.sent + [c.lock.value]
  {
    assert !AllPresented(c.outputs);
    var i :| 0 <= i < |c.outputs| && !c.outputs[i].presented;
    assert !Settled(c, c.outputs[i].output);
    assert c.outputs[i].Accepts(number);
    var shown := Only(c.outputs, output, Shown(number));
    forall j | 0 <= j < |shown| ensures shown[j].presented {
      assert c.outputs[j].output != output ==> Settled(c, c.outputs[j].output);
    }
  }

  /** The bound is exact: the report of a commit made 2^31 commits after the first one announced, and of
      any later one until numbers repeat, is dropped. */
  lemma LateCommitIsDropped(es: seq<Event>, output: nat, n: nat)
    requires Feasible(es) && Run(Initial, es).c.secure && output in Run(Initial, es).asked
    requires var w := Run(Initial, es);
      w.asked[output] + HALF <= n <= Count(w.commits, output) < w.asked[output] + WRAP - 1
    ensures Next(Run(Initial, es), PresentArrived(output, n, true)).c == Run(Initial, es).c
  {
    var w := Run(Initial, es);
    RunWaits(es);
    forall i | 0 <= i < |w.c.outputs| && w.c.outputs[i].output == output ensures !w.c.outputs[i].Accepts(ToWire(n)) {
      assert OutputWaits(w, w.c.outputs[i]);
      if !w.c.outputs[i].presented {
        AcceptsExactly(w, w.c.outputs[i], n);
      }
    }
  }

  /** An output that is waited for and has nothing announced is asked by its next frame, unless the commit
      fails: so every output that goes on committing and reporting settles. */
  lemma FrameAsks(w: World, output: nat, outcome: Outcome)
    requires !outcome.Rejected? && output !in w.asked
    ensures var v := Next(w, FrameDue(output, outcome));
      output in v.asked && v.asked[output] == Count(w.commits, output) + 1
  {
  }

  // ----- surfaces

  /** The surface at `i` is the first active one of the list. */
  ghost predicate FirstAt(s: seq<SurfaceState>, i: int) {
    0 <= i < |s| && s[i].active && forall j :: 0 <= j < i ==> !s[j].active
  }

  ghost predicate IsFirstActive(s: seq<SurfaceState>, r: Option<nat>) {
    if r.None? then forall i :: 0 <= i < |s| ==> !s[i].active
    else exists i :: FirstAt(s, i) && s[i].surface == r.value
  }

  lemma {:induction false} FirstActiveIsFirst(s: seq<SurfaceState>)
    ensures IsFirstActive(s, FirstActive(s))
    decreases |s|
  {
    if s != [] {
      var r, rest := FirstActive(s), s[1..];
      assert s == [s[0]] + rest;
      if s[0].active {
        assert FirstAt(s, 0);
      } else {
        FirstActiveIsFirst(rest);
        if r.Some? {
          var i :| FirstAt(rest, i) && rest[i].surface == r.value;
          assert s[i + 1] == rest[i];
          forall j | 0 <= j < i + 1 ensures !s[j].active {
            assert j > 0 ==> s[j] == rest[j - 1];
          }
          assert FirstAt(s, i + 1);
        }
      }
    }
  }

  lemma NewSurfaceTakesFocus(c: LockState, surface: nat)
    requires c.secure && c.lock.Some? && (c.focus.Some? ==> Current(c.surfaces, c.focus.value))
    ensures var v := NewSurface(c, surface, true);
      && v.surfaces == c.surfaces + [SurfaceState(surface, true)]
      && v.focus == if c.focus.Some? then c.focus else if c.keyboard then Some(surface) else None
  {
    var grown := c.surfaces + [SurfaceState(surface, true)];
    assert grown[|c.surfaces|] == SurfaceState(surface, true);
    if c.focus.Some? {
      var i :| 0 <= i < |c.surfaces| && c.surfaces[i].active && c.surfaces[i].surface == c.focus.value;
      assert grown[i] == c.surfaces[i];
    }
  }

  /** In every reachable secured state a new lock surface joins the list and takes the keyboard focus when
      nothing has it; a focus on a lock surface stays. */
  lemma NewSurfaceFocused(es: seq<Event>, surface: nat)
    requires Feasible(es) && Run(Initial, es).c.secure && Run(Initial, es).c.lock.Some?
    ensures var c, v := Run(Initial, es).c, Next(Run(Initial, es), SurfaceCreated(surface, true)).c;
      && v.surfaces == c.surfaces + [SurfaceState(surface, true)]
      && v.focus == if c.focus.Some? then c.focus else if c.keyboard then Some(surface) else None
  {
    hide NewSurface;
    RunHolds(es);
    NewSurfaceTakesFocus(Run(Initial, es).c, surface);
  }

  /** When a lock surface goes while secured, the focus goes to the first active one that is left, or to
      nothing when none is. */
  lemma SurfaceGone(c: LockState, i: nat)
    requires c.secure && c.keyboard && i < |c.surfaces|
    ensures var v := DestroySurface(c, i);
      && v.surfaces == c.surfaces[..i] + c.surfaces[i + 1..] && IsFirstActive(v.surfaces, v.focus)
  {
    var rest := c.surfaces[..i] + c.surfaces[i + 1..];
    FirstActiveIsFirst(rest);
    FirstActiveIsCurrent(rest);
  }

  // ----- when the state changes

  /** The lock changes at these events and no others. */
  lemma LockChanges(w: World, e: Event)
    ensures var v := Next(w, e);
      && (v.c.lock != w.c.lock <==> (e.LockRequested? && w.c.lock.None?) || (e.LockDestroyed? && w.c.lock.Some?))
      && (v.c.lock.Some? ==> v.c.lock == if w.c.lock.Some? then w.c.lock else Some(w.locks))
  {
    hide FirstActive, AllPresented, Current, Only, Each, Dropped, Deactivated, Knows;
  }

  /** The session is secured by a lock that begins while there is none, and by nothing else; on leaving, no
      lock surface stays active. */
  lemma SecureChanges(w: World, e: Event)
    ensures var v := Next(w, e);
      && (!w.c.secure ==> (v.c.secure <==> e.LockRequested? && w.c.lock.None?))
      && (w.c.secure && !v.c.secure ==> forall i :: 0 <= i < |v.c.surfaces| ==> !v.c.surfaces[i].active)
  {
    hide FirstActive, AllPresented, Current, Only, Each, Dropped, Knows;
  }
}
