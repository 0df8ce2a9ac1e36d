/** The session lock seen as a state machine, and its environment: outputs that commit frames and
report, late and in any order, which commit was presented.

`locked` tells the locker that nothing of the session is visible any more.  The main result is that it
is sent only after every registered output has presented a frame committed since the lock began. */
module SessionLock {
  import opened Seqs

  // ----- sequence numbers

  const WRAP := 0x1_0000_0000
  const HALF := 0x8000_0000

  type Wire = n: int | 0 <= n < WRAP

  /** The 32-bit number an output reports for its `n`-th commit. */
  function ToWire(n: nat): Wire {
    n % WRAP
  }

  function Successor(number: Wire): Wire {
    (number + 1) % WRAP
  }

  /** The difference of two sequence numbers, read as a signed 32-bit number, is negative. */
  predicate Precedes(number: Wire, base: Wire) {
    (number - base) % WRAP >= HALF
  }

  /** Comparing sequence numbers compares the commits themselves as long as they are close enough;
      the bounds cannot be widened on either side. */
  lemma PrecedesIsOrder(n: nat, base: nat)
    requires base - HALF <= n < base + HALF
    ensures Precedes(ToWire(n), ToWire(base)) <==> n < base
  {
    assert (ToWire(n) - ToWire(base)) % WRAP == (n - base) % WRAP by {
      assert n == WRAP * (n / WRAP) + ToWire(n) && base == WRAP * (base / WRAP) + ToWire(base);
      assert n - base == ToWire(n) - ToWire(base) + WRAP * (n / WRAP - base / WRAP);
    }
  }

  lemma PrecedesBeyondBounds(n: nat)
    ensures Precedes(ToWire(n + HALF), ToWire(n)) && !Precedes(ToWire(n), ToWire(n + HALF + 1))
  {
    assert (ToWire(n + HALF) - ToWire(n)) % WRAP == HALF;
    assert (ToWire(n) - ToWire(n + HALF + 1)) % WRAP == HALF - 1;
  }

  // ----- one output

  datatype OutputState = OutputState(output: nat, presented: bool, pending: bool, number: Wire)
  {
    function After(e: OutputEvent): OutputState {
      match e
      case Reset => this.(presented := false, pending := false)
      case Asked(n) => if presented || pending then this else this.(number := n, pending := true)
      case Failed(n) => if pending && number == n then this.(pending := false) else this
      case Shown(n) => if Accepts(n) then this.(presented := true, pending := false) else this
    }

    /** A presentation of commit `n` settles the output. */
    predicate Accepts(n: Wire) {
      !presented && pending && !Precedes(n, this.number)
    }
  }

  datatype OutputEvent = Reset | Asked(number: Wire) | Failed(number: Wire) | Shown(number: Wire)

  ghost function Each(s: seq<OutputState>, e: OutputEvent): seq<OutputState> {
    seq(|s|, i requires 0 <= i < |s| => s[i].After(e))
  }

  ghost function Only(s: seq<OutputState>, output: nat, e: OutputEvent): seq<OutputState> {
    seq(|s|, i requires 0 <= i < |s| => if s[i].output == output then s[i].After(e) else s[i])
  }

  ghost predicate Knows(s: seq<OutputState>, output: nat) {
    exists i :: 0 <= i < |s| && s[i].output == output
  }

  ghost predicate AllPresented(s: seq<OutputState>) {
    forall i :: 0 <= i < |s| ==> s[i].presented
  }

  ghost predicate OutputsDiffer(s: seq<OutputState>) {
    forall i, j :: 0 <= i < j < |s| ==> s[i].output != s[j].output
  }

  // ----- the controller

  datatype SurfaceState = SurfaceState(surface: nat, active: bool)

  ghost function Deactivated(s: seq<SurfaceState>): seq<SurfaceState> {
    seq(|s|, i requires 0 <= i < |s| => s[i].(active := false))
  }

  ghost predicate Current(s: seq<SurfaceState>, surface: nat) {
    exists i :: 0 <= i < |s| && s[i].active && s[i].surface == surface
  }

  /** The first active lock surface. */
  ghost function FirstActive(s: seq<SurfaceState>): Option<nat> {
    if s == [] then None
    else if s[0].active then Some(s[0].surface)
    else FirstActive(s[1..])
  }

  lemma {:induction false} FirstActiveIsCurrent(s: seq<SurfaceState>)
    ensures FirstActive(s).Some? ==> Current(s, FirstActive(s).value)
    ensures FirstActive(s).None? ==> forall i :: 0 <= i < |s| ==> !s[i].active
  {
    if s != [] && !s[0].active {
      FirstActiveIsCurrent(s[1..]);
      if FirstActive(s).Some? {
        var i :| 0 <= i < |s[1..]| && s[1..][i].active && s[1..][i].surface == FirstActive(s).value;
        assert s[i + 1] == s[1..][i];
      }
      forall i | FirstActive(s).None? && 0 <= i < |s| ensures !s[i].active {
        assert i > 0 ==> s[i] == s[1..][i - 1];
      }
    }
  }

  /** `sent` lists the locks that were sent `locked`; `keyboard` and `focus` are the seat's. */
  datatype LockState = LockState(
    lock: Option<nat>, outputs: seq<OutputState>, surfaces: seq<SurfaceState>,
    secure: bool, lockedSent: bool, sent: seq<nat>, keyboard: bool, focus: Option<nat>)

  ghost function MaybeSendLocked(c: LockState): LockState {
    if c.lock.Some? && !c.lockedSent && c.secure && AllPresented(c.outputs) then
      c.(lockedSent := true, sent := c.sent + [c.lock.value])
    else c
  }

  ghost function ScheduleLockedFrames(c: LockState): LockState {
    MaybeSendLocked(c.(outputs := Each(c.outputs, Reset)))
  }

  /** Every change of keyboard focus goes through this guard. */
  ghost function FocusSurface(c: LockState, surface: Option<nat>): LockState {
    if surface.None? then c.(focus := None)
    else if c.secure && !Current(c.surfaces, surface.value) then c
    else if !c.keyboard then c
    else c.(focus := surface)
  }

  ghost function EnterSecure(c: LockState): LockState {
    var entered := if c.secure then c else FocusSurface(c.(secure := true), None);
    ScheduleLockedFrames(entered.(lockedSent := false))
  }

  ghost function LeaveSecure(c: LockState): LockState {
    if !c.secure then c
    else c.(surfaces := Deactivated(c.surfaces), secure := false, lockedSent := false)
  }

  ghost function NewLock(c: LockState, lock: nat): LockState {
    if c.lock.Some? then c else EnterSecure(c.(lock := Some(lock)))
  }

  ghost function Unlock(c: LockState): LockState {
    if c.lock.Some? && c.lockedSent then LeaveSecure(c) else c
  }

  ghost function DestroyLock(c: LockState): LockState {
    if c.lock.None? then c
    else
      var rest := c.(lock := None, lockedSent := false, surfaces := Deactivated(c.surfaces));
      if !c.lockedSent then LeaveSecure(rest) else ScheduleLockedFrames(FocusSurface(rest, None))
  }

  ghost function NewSurface(c: LockState, surface: nat, usable: bool): LockState {
    if c.lock.None? || !usable then c
    else
      var grown := c.(surfaces := c.surfaces + [SurfaceState(surface, true)]);
      if grown.secure && !(grown.focus.Some? && Current(grown.surfaces, grown.focus.value)) then
        FocusSurface(grown, Some(surface))
      else grown
  }

  ghost function DestroySurface(c: LockState, i: nat): LockState {
    if i >= |c.surfaces| then c
    else
      var cleared := if c.focus == Some(c.surfaces[i].surface) then FocusSurface(c, None) else c;
      var rest := cleared.(surfaces := c.surfaces[..i] + c.surfaces[i + 1..]);
      if rest.secure then FocusSurface(rest, FirstActive(rest.surfaces)) else rest
  }

  ghost function AddOutput(c: LockState, output: nat, usable: bool): LockState {
    if Knows(c.outputs, output) || !usable then c
    else c.(outputs := c.outputs + [OutputState(output, !c.secure, false, 0)])
  }

  ghost function RemoveOutput(c: LockState, output: nat): LockState {
    if Knows(c.outputs, output) then MaybeSendLocked(c.(outputs := Dropped(c.outputs, output))) else c
  }

  ghost function Dropped(s: seq<OutputState>, output: nat): (r: seq<OutputState>)
    ensures forall e :: e in r <==> e in s && e.output != output
  {
    if s == [] then []
    else if s[0].output == output then Dropped(s[1..], output)
    else [s[0]] + Dropped(s[1..], output)
  }

  ghost function CommitPending(c: LockState, output: nat, number: Wire): LockState {
    if c.secure then c.(outputs := Only(c.outputs, output, Asked(number))) else c
  }

  ghost function CommitFailed(c: LockState, output: nat, number: Wire): LockState {
    if c.secure then c.(outputs := Only(c.outputs, output, Failed(number))) else c
  }

  ghost function Presented(c: LockState, output: nat, number: Wire, presented: bool): LockState {
    if c.secure && presented && exists i :: 0 <= i < |c.outputs| && c.outputs[i].output == output && c.outputs[i].Accepts(number) then
      MaybeSendLocked(c.(outputs := Only(c.outputs, output, Shown(number))))
    else c
  }

  // ----- the environment

  datatype Outcome = Committed | Rejected | Skipped

  datatype Event =
    | LockRequested
    | UnlockRequested
    | LockDestroyed
    | SurfaceCreated(surface: nat, usable: bool)
    | SurfaceDestroyed(index: nat)
    | OutputAdded(output: nat, usable: bool)
    | OutputRemoved(output: nat)
    | FrameDue(output: nat, outcome: Outcome)
    | OtherCommit(output: nat)
    | PresentArrived(output: nat, commit: nat, presented: bool)
    | FocusRequested(target: Option<nat>)
    | KeyboardsChanged(present: bool)

  /** `commits` counts every output's commits, `epoch` remembers that count from the moment the lock
      last began to wait for the output, `asked` the first commit announced to the output since then, and
      `arrived` collects the commits reported as presented. */
  datatype World = World(
    c: LockState, locks: nat, commits: map<nat, nat>, epoch: map<nat, nat>, asked: map<nat, nat>,
    arrived: set<(nat, nat)>)

  ghost const Initial: World :=
    World(LockState(None, [], [], false, false, [], false, None), 0, map[], map[], map[], {})

  ghost function Count(m: map<nat, nat>, output: nat): nat {
    if output in m then m[output] else 0
  }

  ghost function OneMore(m: map<nat, nat>, output: nat): map<nat, nat> {
    m[output := Count(m, output) + 1]
  }

  /** A lock begins, or its locker dies after the lock was confirmed: all outputs must prove themselves. */
  ghost predicate Restarts(c: LockState, e: Event) {
    || (e.LockRequested? && c.lock.None?)
    || (e.LockDestroyed? && c.lock.Some? && c.lockedSent)
  }

  /** The frame handler: announce the next commit, try it, and withdraw the announcement if it fails. */
  ghost function Frame(c: LockState, commits: nat, output: nat, outcome: Outcome): LockState {
    var next := Successor(ToWire(commits));
    var asked := CommitPending(c, output, next);
    if outcome.Rejected? then CommitFailed(asked, output, next) else asked
  }

  ghost function React(w: World, e: Event): LockState {
    match e
    case LockRequested => NewLock(w.c, w.locks)
    case UnlockRequested => Unlock(w.c)
    case LockDestroyed => DestroyLock(w.c)
    case SurfaceCreated(s, usable) => NewSurface(w.c, s, usable)
    case SurfaceDestroyed(i) => DestroySurface(w.c, i)
    case OutputAdded(o, usable) => AddOutput(w.c, o, usable)
    case OutputRemoved(o) => RemoveOutput(w.c, o)
    case FrameDue(o, outcome) => Frame(w.c, Count(w.commits, o), o, outcome)
    case OtherCommit(_) => w.c
    case PresentArrived(o, n, presented) => Presented(w.c, o, ToWire(n), presented)
    case FocusRequested(s) => FocusSurface(w.c, s)
    case KeyboardsChanged(present) => w.c.(keyboard := present)
  }

  /** A frame announces the commit it tries.  The first one announced since the epoch is remembered, until
      a commit of that number fails, or the output has to prove itself anew. */
  ghost function NextAsked(w: World, e: Event): map<nat, nat> {
    if Restarts(w.c, e) then map[]
    else
      match e
      case OutputAdded(o, _) => if Knows(w.c.outputs, o) then w.asked else w.asked - {o}
      case FrameDue(o, outcome) =>
        var next := Count(w.commits, o) + 1;
        if outcome.Rejected? then if o in w.asked && w.asked[o] == next then w.asked - {o} else w.asked
        else if o in w.asked then w.asked
        else w.asked[o := next]
      case _ => w.asked
  }

  ghost function Next(w: World, e: Event): World {
    World(
      React(w, e),
      if e.LockRequested? then w.locks + 1 else w.locks,
      if e.OtherCommit? || (e.FrameDue? && e.outcome.Committed?) then OneMore(w.commits, e.output) else w.commits,
      if Restarts(w.c, e) then w.commits
      else if e.OutputAdded? && !Knows(w.c.outputs, e.output) then w.epoch[e.output := Count(w.commits, e.output)]
      else w.epoch,
      NextAsked(w, e),
      if e.PresentArrived? && e.presented then w.arrived + {(e.output, e.commit)} else w.arrived)
  }

  /** A presentation reports a commit that was made, with fewer than 2^31 commits made since. */
  ghost predicate Possible(w: World, e: Event) {
    e.PresentArrived? ==> 1 <= e.commit <= Count(w.commits, e.output) < e.commit + HALF
  }

  // ----- safety of `locked`

  /** A commit made since the lock began to wait for the output has been presented. */
  ghost predicate Proven(w: World, output: nat) {
    exists n :: (output, n) in w.arrived && n > Count(w.epoch, output)
  }

  /** The announced number belongs to a commit after the epoch, at the latest the next one. */
  ghost predicate Awaits(w: World, s: OutputState) {
    exists n: nat :: ToWire(n) == s.number && Count(w.epoch, s.output) < n <= Count(w.commits, s.output) + 1
  }

  ghost predicate OutputSafe(w: World, s: OutputState) {
    (s.presented ==> Proven(w, s.output)) && (s.pending ==> Awaits(w, s))
  }

  ghost predicate Safe(w: World) {
    w.c.secure ==> forall i :: 0 <= i < |w.c.outputs| ==> OutputSafe(w, w.c.outputs[i])
  }

  lemma AwaitsAcross(w: World, v: World, s: OutputState)
    requires Awaits(w, s) && Count(v.epoch, s.output) == Count(w.epoch, s.output)
    requires Count(v.commits, s.output) >= Count(w.commits, s.output)
    ensures Awaits(v, s)
  {
    var n: nat :| ToWire(n) == s.number && Count(w.epoch, s.output) < n <= Count(w.commits, s.output) + 1;
    assert ToWire(n) == s.number && Count(v.epoch, s.output) < n <= Count(v.commits, s.output) + 1;
  }

  lemma OutputSafeAcross(w: World, v: World, s: OutputState)
    requires OutputSafe(w, s) && Count(v.epoch, s.output) == Count(w.epoch, s.output)
    requires Count(v.commits, s.output) >= Count(w.commits, s.output) && w.arrived <= v.arrived
    ensures OutputSafe(v, s)
  {
    if s.pending {
      AwaitsAcross(w, v, s);
    }
  }

  /** An accepted presentation is of a commit made after the epoch. */
  lemma AcceptedIsFresh(w: World, s: OutputState, n: nat)
    requires s.pending && Awaits(w, s) && s.Accepts(ToWire(n))
    requires n <= Count(w.commits, s.output) < n + HALF
    ensures n > Count(w.epoch, s.output)
  {
    var p: nat :| ToWire(p) == s.number && Count(w.epoch, s.output) < p <= Count(w.commits, s.output) + 1;
    if n < p {
      PrecedesIsOrder(n, p);
    }
  }

  lemma FrameAwaits(w: World, output: nat, number: Wire)
    requires number == Successor(ToWire(Count(w.commits, output)))
    requires Count(w.epoch, output) <= Count(w.commits, output)
    ensures Awaits(w, OutputState(output, false, true, number))
  {
    var n := Count(w.commits, output) + 1;
    assert ToWire(n) == number;
  }

  ghost predicate EpochsPast(w: World) {
    forall o :: Count(w.epoch, o) <= Count(w.commits, o)
  }

  lemma FrameSafe(w: World, v: World, output: nat, outcome: Outcome, i: nat)
    requires Safe(w) && EpochsPast(w) && w.c.secure && i < |w.c.outputs|
    requires v.c == Frame(w.c, Count(w.commits, output), output, outcome)
    requires v.epoch == w.epoch && v.arrived == w.arrived
    requires forall o :: Count(v.commits, o) >= Count(w.commits, o)
    ensures OutputSafe(v, v.c.outputs[i])
  {
    var was, s := w.c.outputs[i], v.c.outputs[i];
    OutputSafeAcross(w, v, was);
    if was.output == output && s.pending && !was.pending {
      FrameAwaits(w, output, Successor(ToWire(Count(w.commits, output))));
      AwaitsAcross(w, v, OutputState(output, false, true, s.number));
    }
  }

  lemma PresentSafe(w: World, v: World, output: nat, n: nat, i: nat)
    requires Safe(w) && w.c.secure && i < |w.c.outputs|
    requires n <= Count(w.commits, output) < n + HALF
    requires v.c == Presented(w.c, output, ToWire(n), true)
    requires v.epoch == w.epoch && v.commits == w.commits && v.arrived == w.arrived + {(output, n)}
    ensures OutputSafe(v, v.c.outputs[i])
  {
    var was, s := w.c.outputs[i], v.c.outputs[i];
    OutputSafeAcross(w, v, was);
    if s != was {
      AcceptedIsFresh(w, was, n);
      assert (output, n) in v.arrived;
    }
  }

  /** Steps that only add or drop outputs, or leave them alone. */
  lemma QuietSafe(w: World, v: World, s: OutputState)
    requires Safe(w) && w.c.secure && v.commits == w.commits && v.arrived == w.arrived
    requires s in w.c.outputs && Count(v.epoch, s.output) == Count(w.epoch, s.output)
    ensures OutputSafe(v, s)
  {
    var i :| 0 <= i < |w.c.outputs| && w.c.outputs[i] == s;
    assert OutputSafe(w, w.c.outputs[i]);
    OutputSafeAcross(w, v, s);
  }

  lemma CommitsGrow(w: World, e: Event)
    ensures forall o :: Count(Next(w, e).commits, o) >= Count(w.commits, o)
  {
  }

  lemma FrameStepSafe(w: World, o: nat, outcome: Outcome, i: nat)
    requires Safe(w) && EpochsPast(w) && w.c.secure && i < |React(w, FrameDue(o, outcome)).outputs|
    ensures var v := Next(w, FrameDue(o, outcome)); OutputSafe(v, v.c.outputs[i])
  {
    CommitsGrow(w, FrameDue(o, outcome));
    FrameSafe(w, Next(w, FrameDue(o, outcome)), o, outcome, i);
  }

  lemma PresentStepSafe(w: World, o: nat, n: nat, presented: bool, i: nat)
    requires Safe(w) && w.c.secure && Possible(w, PresentArrived(o, n, presented))
    requires i < |React(w, PresentArrived(o, n, presented)).outputs|
    ensures var v := Next(w, PresentArrived(o, n, presented)); OutputSafe(v, v.c.outputs[i])
  {
    var v := Next(w, PresentArrived(o, n, presented));
    if presented {
      PresentSafe(w, v, o, n, i);
    } else {
      QuietSafe(w, v, v.c.outputs[i]);
    }
  }

  lemma CommitStepSafe(w: World, o: nat, i: nat)
    requires Safe(w) && w.c.secure && i < |w.c.outputs|
    ensures var v := Next(w, OtherCommit(o)); OutputSafe(v, v.c.outputs[i])
  {
    assert OutputSafe(w, w.c.outputs[i]);
    CommitsGrow(w, OtherCommit(o));
    OutputSafeAcross(w, Next(w, OtherCommit(o)), w.c.outputs[i]);
  }

  lemma StepOutputSafe(w: World, e: Event, i: nat)
    requires Safe(w) && EpochsPast(w) && Possible(w, e) && w.c.secure && !Restarts(w.c, e)
    requires i < |React(w, e).outputs|
    ensures OutputSafe(Next(w, e), Next(w, e).c.outputs[i])
  {
    match e
    case FrameDue(o, outcome) =>
      FrameStepSafe(w, o, outcome, i);
    case PresentArrived(o, n, presented) =>
      PresentStepSafe(w, o, n, presented, i);
    case OtherCommit(o) =>
      CommitStepSafe(w, o, i);
    case OutputAdded(o, _) =>
      if i < |w.c.outputs| {
        QuietSafe(w, Next(w, e), Next(w, e).c.outputs[i]);
      }
    case _ =>
      QuietStepSafe(w, e, i);
  }

  lemma QuietStepSafe(w: World, e: Event, i: nat)
    requires Safe(w) && w.c.secure && !Restarts(w.c, e) && i < |React(w, e).outputs|
    requires !e.FrameDue? && !e.PresentArrived? && !e.OtherCommit? && !e.OutputAdded?
    ensures OutputSafe(Next(w, e), Next(w, e).c.outputs[i])
  {
    QuietSafe(w, Next(w, e), Next(w, e).c.outputs[i]);
  }

  lemma RestartSafe(w: World, e: Event, i: nat)
    requires Next(w, e).c.secure && (Restarts(w.c, e) || !w.c.secure) && i < |React(w, e).outputs|
    ensures OutputSafe(Next(w, e), Next(w, e).c.outputs[i])
  {
  }

  lemma StepSafe(w: World, e: Event)
    requires Safe(w) && EpochsPast(w) && Possible(w, e)
    ensures Safe(Next(w, e)) && EpochsPast(Next(w, e))
  {
    var v := Next(w, e);
    if v.c.secure {
      forall i | 0 <= i < |v.c.outputs|
        ensures OutputSafe(v, v.c.outputs[i])
      {
        if w.c.secure && !Restarts(w.c, e) {
          StepOutputSafe(w, e, i);
        } else {
          RestartSafe(w, e, i);
        }
      }
    }
  }

  /** `e` makes the controller send `locked`. */
  ghost predicate Sends(w: World, e: Event) {
    Next(w, e).c.sent != w.c.sent
  }

  /** Main result, one step: `locked` is sent only when every registered output has presented a commit
      made since the lock began to wait for it. */
  lemma LockedMeansProven(w: World, e: Event)
    requires Safe(w) && EpochsPast(w) && Possible(w, e) && Sends(w, e)
    ensures forall s :: s in Next(w, e).c.outputs ==> Proven(Next(w, e), s.output)
  {
    hide Proven, Safe, Deactivated, Possible;
    StepSafe(w, e);
    var v := Next(w, e);
    forall s | s in v.c.outputs
      ensures Proven(v, s.output)
    {
      assert AllPresented(v.c.outputs);
      var i :| 0 <= i < |v.c.outputs| && v.c.outputs[i] == s;
      assert OutputSafe(v, v.c.outputs[i]);
    }
  }

  // ----- invariants of the controller

  ghost predicate Consistent(c: LockState, locks: nat) {
    && NoDup(c.sent) && OutputsDiffer(c.outputs)
    && (forall l :: l in c.sent ==> l < locks) && (c.lock.Some? ==> c.lock.value < locks)
    && (c.lockedSent ==> c.lock.Some? && c.secure && c.lock.value in c.sent)
    && (c.lock.Some? && c.secure && c.lock.value in c.sent ==> c.lockedSent)
    && (c.lock.Some? && c.secure && AllPresented(c.outputs) ==> c.lockedSent)
    && (c.secure && c.focus.Some? ==> Current(c.surfaces, c.focus.value))
  }

  lemma MaybeSendKeeps(c: LockState, locks: nat)
    requires NoDup(c.sent) && OutputsDiffer(c.outputs)
    requires forall l :: l in c.sent ==> l < locks
    requires c.lock.Some? ==> c.lock.value < locks
    requires c.lockedSent ==> c.lock.Some? && c.secure && c.lock.value in c.sent
    requires c.lock.Some? && c.secure && c.lock.value in c.sent ==> c.lockedSent
    requires c.secure && c.focus.Some? ==> Current(c.surfaces, c.focus.value)
    ensures Consistent(MaybeSendLocked(c), locks)
  {
  }

  lemma {:induction false} DroppedDiffer(s: seq<OutputState>, output: nat)
    requires OutputsDiffer(s)
    ensures OutputsDiffer(Dropped(s, output))
  {
    if s != [] {
      DroppedDiffer(s[1..], output);
      forall e | e in Dropped(s[1..], output) ensures e.output != s[0].output {
        assert e in s[1..];
      }
    }
  }

  lemma DestroySurfaceKeeps(c: LockState, locks: nat, i: nat)
    requires Consistent(c, locks)
    ensures Consistent(DestroySurface(c, i), locks)
  {
    if i < |c.surfaces| {
      var rest := c.surfaces[..i] + c.surfaces[i + 1..];
      FirstActiveIsCurrent(rest);
      if c.secure && c.focus.Some? && c.focus != Some(c.surfaces[i].surface) {
        var j :| 0 <= j < |c.surfaces| && c.surfaces[j].active && c.surfaces[j].surface == c.focus.value;
        assert rest[if j < i then j else j - 1] == c.surfaces[j];
      }
    }
  }

  lemma NewSurfaceKeeps(c: LockState, locks: nat, surface: nat, usable: bool)
    requires Consistent(c, locks)
    ensures Consistent(NewSurface(c, surface, usable), locks)
  {
    var grown := c.surfaces + [SurfaceState(surface, true)];
    assert grown[|c.surfaces|] == SurfaceState(surface, true);
    if c.secure && c.focus.Some? {
      var j :| 0 <= j < |c.surfaces| && c.surfaces[j].active && c.surfaces[j].surface == c.focus.value;
      assert grown[j] == c.surfaces[j];
    }
  }

  lemma OnlyKeepsFlags(s: seq<OutputState>, output: nat, e: OutputEvent)
    requires e.Asked? || e.Failed?
    ensures AllPresented(Only(s, output, e)) <==> AllPresented(s)
    ensures OutputsDiffer(s) ==> OutputsDiffer(Only(s, output, e))
  {
    var r := Only(s, output, e);
    assert forall i :: 0 <= i < |s| ==> r[i].presented == s[i].presented && r[i].output == s[i].output;
  }

  lemma CommitKeeps(c: LockState, locks: nat, output: nat, number: Wire)
    requires Consistent(c, locks)
    ensures Consistent(CommitPending(c, output, number), locks) && Consistent(CommitFailed(c, output, number), locks)
  {
    OnlyKeepsFlags(c.outputs, output, Asked(number));
    OnlyKeepsFlags(c.outputs, output, Failed(number));
  }

  lemma OutputsKeep(c: LockState, locks: nat, output: nat, usable: bool)
    requires Consistent(c, locks)
    ensures Consistent(AddOutput(c, output, usable), locks) && Consistent(RemoveOutput(c, output), locks)
  {
    DroppedDiffer(c.outputs, output);
    var v := AddOutput(c, output, usable);
    if v.outputs != c.outputs && v.lock.Some? && v.secure {
      assert !v.outputs[|c.outputs|].presented;
    }
  }

  lemma ResetDiffers(s: seq<OutputState>)
    requires OutputsDiffer(s)
    ensures OutputsDiffer(Each(s, Reset))
  {
    var r := Each(s, Reset);
    assert forall i :: 0 <= i < |s| ==> r[i].output == s[i].output;
  }

  lemma LockKeeps(c: LockState, locks: nat)
    requires Consistent(c, locks)
    ensures Consistent(NewLock(c, locks), locks + 1) && Consistent(Unlock(c), locks)
    ensures Consistent(DestroyLock(c), locks)
  {
    ResetDiffers(c.outputs);
    if c.lock.None? {
      var entered := (if c.secure then c else c.(secure := true, focus := None));
      MaybeSendKeeps(entered.(lock := Some(locks), lockedSent := false, outputs := Each(c.outputs, Reset)), locks + 1);
    }
  }

  lemma PresentKeeps(c: LockState, locks: nat, output: nat, number: Wire, presented: bool)
    requires Consistent(c, locks)
    ensures Consistent(Presented(c, output, number, presented), locks)
  {
    var r := Only(c.outputs, output, Shown(number));
    assert forall i :: 0 <= i < |r| ==> r[i].output == c.outputs[i].output;
    MaybeSendKeeps(c.(outputs := r), locks);
  }

  lemma StepConsistent(w: World, e: Event)
    requires Consistent(w.c, w.locks)
    ensures Consistent(Next(w, e).c, Next(w, e).locks)
  {
    match e
    case SurfaceCreated(s, usable) =>
      NewSurfaceKeeps(w.c, w.locks, s, usable);
    case SurfaceDestroyed(i) =>
      DestroySurfaceKeeps(w.c, w.locks, i);
    case OutputRemoved(o) =>
      OutputsKeep(w.c, w.locks, o, true);
    case OutputAdded(o, usable) =>
      OutputsKeep(w.c, w.locks, o, usable);
    case FrameDue(o, _) =>
      var next := Successor(ToWire(Count(w.commits, o)));
      CommitKeeps(w.c, w.locks, o, next);
      CommitKeeps(CommitPending(w.c, o, next), w.locks, o, next);
    case PresentArrived(o, n, presented) =>
      PresentKeeps(w.c, w.locks, o, ToWire(n), presented);
    case FocusRequested(_) =>
    case KeyboardsChanged(_) =>
    case OtherCommit(_) =>
    case _ =>
      LockKeeps(w.c, w.locks);
  }

  /** The only ways out of a secured session: unlocking a lock that was sent `locked`, and the end of a
      lock that was not. */
  lemma ExitEdges(w: World, e: Event)
    requires Consistent(w.c, w.locks) && w.c.secure
    ensures !Next(w, e).c.secure <==>
      && w.c.lock.Some?
      && ((e.UnlockRequested? && w.c.lock.value in w.c.sent) || (e.LockDestroyed? && w.c.lock.value !in w.c.sent))
  {
  }

  lemma SendsOnce(w: World, e: Event)
    requires Consistent(w.c, w.locks) && Sends(w, e)
    ensures var c := Next(w, e).c;
      c.secure && c.lock.Some? && c.sent == w.c.sent + [c.lock.value] && c.lock.value !in w.c.sent
  {
    hide Consistent;
    StepConsistent(w, e);
    var c := Next(w, e).c;
    assert c.sent == w.c.sent + [c.lock.value];
    LastIsNew(w.c.sent, c.lock.value);
  }

  // ----- whole runs

  ghost function Run(w: World, es: seq<Event>): World
    decreases |es|
  {
    if es == [] then w else Next(Run(w, es[..|es| - 1]), es[|es| - 1])
  }

  ghost predicate Feasible(es: seq<Event>) {
    forall i :: 0 <= i < |es| ==> Possible(Run(Initial, es[..i]), es[i])
  }

  lemma {:induction false} RunHolds(es: seq<Event>)
    requires Feasible(es)
    ensures var w := Run(Initial, es);
      Safe(w) && EpochsPast(w) && Consistent(w.c, w.locks)
    decreases |es|
  {
    if es != [] {
      var prefix, e := es[..|es| - 1], es[|es| - 1];
      forall i | 0 <= i < |prefix| ensures Possible(Run(Initial, prefix[..i]), prefix[i]) {
        assert prefix[..i] == es[..i];
      }
      RunHolds(prefix);
      StepSafe(Run(Initial, prefix), e);
      StepConsistent(Run(Initial, prefix), e);
    }
  }

  /** Main result, whole runs.  Whatever happens, in whatever order, at every event that makes the
      controller send `locked` every registered output has presented a commit made since the lock began
      to wait for it; the lock is sent `locked` for the first time; and the session is secured. */
  lemma LockedIsSafe(es: seq<Event>, e: Event)
    requires Feasible(es) && Possible(Run(Initial, es), e) && Sends(Run(Initial, es), e)
    ensures var w, v := Run(Initial, es), Next(Run(Initial, es), e);
      && (forall s :: s in v.c.outputs ==> Proven(v, s.output))
      && v.c.secure && v.c.lock.Some? && v.c.sent == w.c.sent + [v.c.lock.value] && v.c.lock.value !in w.c.sent
  {
    RunHolds(es);
    LockedMeansProven(Run(Initial, es), e);
    SendsOnce(Run(Initial, es), e);
  }

  /** In every reachable state: no lock was sent `locked` twice; a secured session whose outputs have all
      been presented has told its locker so; and while secured the keyboard is on an active lock surface
      or nowhere. */
  lemma ReachableStates(es: seq<Event>)
    requires Feasible(es)
    ensures var c := Run(Initial, es).c;
      && NoDup(c.sent)
      && (c.lock.Some? && c.secure ==> (AllPresented(c.outputs) ==> c.lock.value in c.sent))
      && (c.secure && c.focus.Some? ==> Current(c.surfaces, c.focus.value))
  {
    RunHolds(es);
  }

  /** In every run, a secured session is left only by unlocking a lock that was sent `locked`, or by the
      end of a lock that was not. */
  lemma LeftOnlySo(es: seq<Event>, e: Event)
    requires Feasible(es) && Run(Initial, es).c.secure && !Next(Run(Initial, es), e).c.secure
    ensures var c := Run(Initial, es).c;
      && c.lock.Some?
      && ((e.UnlockRequested? && c.lock.value in c.sent) || (e.LockDestroyed? && c.lock.value !in c.sent))
  {
    RunHolds(es);
    ExitEdges(Run(Initial, es), e);
  }

  // ----- the bound on late presentations

  ghost function Burst(output: nat, k: nat): seq<Event> {
    if k == 0 then [] else Burst(output, k - 1) + [OtherCommit(output)]
  }

  /** An output commits `k` frames, then a lock begins and waits for the output's next commit. */
  ghost function LateRun(output: nat, k: nat): seq<Event> {
    [OutputAdded(output, true)] + Burst(output, k) + [LockRequested] + [FrameDue(output, Skipped)]
  }

  lemma RunOneMore(w: World, es: seq<Event>, e: Event)
    ensures Run(w, es + [e]) == Next(Run(w, es), e)
  {
    assert (es + [e])[..|es|] == es;
  }

  lemma {:induction false} BurstRun(w: World, es: seq<Event>, output: nat, k: nat)
    ensures var r, v := Run(w, es + Burst(output, k)), Run(w, es);
      && r.c == v.c
      && r.locks == v.locks
      && r.arrived == v.arrived
      && Count(r.commits, output) == Count(v.commits, output) + k
  {
    if k == 0 {
      assert es + Burst(output, k) == es;
    } else {
      BurstRun(w, es, output, k - 1);
      assert es + Burst(output, k) == es + Burst(output, k - 1) + [OtherCommit(output)];
      RunOneMore(w, es + Burst(output, k - 1), OtherCommit(output));
    }
  }

  /** Nothing but the output is there, and it made `k` commits. */
  lemma AfterBurst(output: nat, k: nat)
    ensures var w := Run(Initial, [OutputAdded(output, true)] + Burst(output, k));
      && w.c == Initial.c.(outputs := [OutputState(output, true, false, 0)]) && w.locks == 0 && w.arrived == {}
      && Count(w.commits, output) == k
  {
    assert [] + [OutputAdded(output, true)] == [OutputAdded(output, true)];
    RunOneMore(Initial, [], OutputAdded(output, true));
    BurstRun(Initial, [OutputAdded(output, true)], output, k);
  }

  /** A lock begins while one output is known, which is then asked for a frame. */
  lemma LockThenFrame(w: World, output: nat, k: nat)
    requires w.c == Initial.c.(outputs := [OutputState(output, true, false, 0)]) && Count(w.commits, output) == k
    ensures var v := Next(Next(w, LockRequested), FrameDue(output, Skipped));
      && v.c.secure && v.c.lock == Some(w.locks) && !v.c.lockedSent && v.c.sent == [] && v.arrived == w.arrived
      && v.c.outputs == [OutputState(output, false, true, Successor(ToWire(k)))]
      && v.commits == w.commits && v.epoch == w.commits
  {
    var locked := Next(w, LockRequested);
    assert locked.c.outputs == [OutputState(output, false, false, 0)];
    assert !locked.c.outputs[0].presented;
  }

  lemma LateRunState(output: nat, k: nat)
    ensures var w := Run(Initial, LateRun(output, k));
      && w.c.secure && w.c.lock == Some(0) && !w.c.lockedSent && w.arrived == {} && w.c.sent == []
      && w.c.outputs == [OutputState(output, false, true, Successor(ToWire(k)))]
      && Count(w.commits, output) == k && Count(w.epoch, output) == k
  {
    var burst := [OutputAdded(output, true)] + Burst(output, k);
    AfterBurst(output, k);
    RunOneMore(Initial, burst, LockRequested);
    RunOneMore(Initial, burst + [LockRequested], FrameDue(output, Skipped));
    LockThenFrame(Run(Initial, burst), output, k);
  }

  lemma {:induction false} BurstQuiet(output: nat, k: nat)
    ensures forall e :: e in Burst(output, k) ==> e.OtherCommit?
  {
    if k > 0 {
      BurstQuiet(output, k - 1);
    }
  }

  lemma LateRunFeasible(output: nat, k: nat)
    ensures Feasible(LateRun(output, k))
  {
    var es := LateRun(output, k);
    BurstQuiet(output, k);
    forall i | 0 <= i < |es| ensures Possible(Run(Initial, es[..i]), es[i]) {
      assert es[i] in es && !es[i].PresentArrived?;
    }
  }

  /** The bound on late presentations is exact: there is a run in which 2^31 further commits were made when
      the output's first commit is reported as presented, that report is taken for the one awaited, and
      `locked` is sent although no commit made since the lock began was presented. */
  lemma LateByOneTooMany(output: nat, k: nat)
    requires k == HALF + 1
    ensures Feasible(LateRun(output, k))
    ensures var w := Run(Initial, LateRun(output, k)); var e := PresentArrived(output, 1, true);
      && Count(w.commits, output) == 1 + HALF && Sends(w, e)
      && Next(w, e).c.outputs[0].presented && !Proven(Next(w, e), output)
  {
    LateRunFeasible(output, k);
    LateRunState(output, k);
    LateIsTaken(Run(Initial, LateRun(output, k)), output);
  }

  lemma LateIsTaken(w: World, output: nat)
    requires w.c.secure && w.c.lock.Some? && !w.c.lockedSent && w.arrived == {}
    requires w.c.outputs == [OutputState(output, false, true, Successor(ToWire(HALF + 1)))]
    requires Count(w.epoch, output) == HALF + 1
    ensures var v := Next(w, PresentArrived(output, 1, true));
      && v.c.sent == w.c.sent + [w.c.lock.value]
      && v.c.outputs == [OutputState(output, true, false, w.c.outputs[0].number)]
      && !Proven(v, output)
  {
    PrecedesBeyondBounds(1);
    assert w.c.outputs[0].Accepts(ToWire(1));
    assert AllPresented(Only(w.c.outputs, output, Shown(ToWire(1))));
  }
}
