/** The daemon among its event sources: a queue, a clock, the timer tasks, and other programs that
    write or remove the request file. A run is any interleaving of their steps. */
module SuspendRuns {
  import opened Prelude
  import opened Fsm
  import opened Suspend

  datatype Sys = Sys(d: Daemon, now: nat, queue: seq<Event>)

  datatype Action =
    | Deliver(ev: Event)
    | TimerSends
    | TimerEnds
    | WatchSends
    | Elapse(dt: nat)
    | OthersWrite(file: Request)
    | Handle(e: Env)

  /** Only the grace timer sends `TimerExpired`, and only the daemon writes its own token. An aborted
      timer never sends; what it sent before stays in the queue. */
  predicate Enabled(s: Sys, a: Action) {
    match a
    case Deliver(ev) => !ev.TimerExpired?
    case TimerSends =>
      s.d.m.graceTimer.Some? && s.d.m.graceTimer.value.Sleeping? && s.d.m.graceTimer.value.deadline <= s.now
    case TimerEnds => s.d.m.graceTimer == Some(Sent)
    case WatchSends => s.d.m.claimWatch == Some(Watching)
    case Elapse(_) => true
    case OthersWrite(file) => file != BatteryLow
    case Handle(e) => s.queue != [] && e.now == s.now
  }

  function Next(s: Sys, a: Action): Sys
    requires Enabled(s, a)
  {
    var q := s.d.(fx := []);
    match a
    case Deliver(ev) => Sys(q, s.now, s.queue + [ev])
    case TimerSends => Sys(q.(m := q.m.(graceTimer := Some(Sent))), s.now, s.queue + [TimerExpired])
    case TimerEnds => Sys(q.(m := q.m.(graceTimer := Some(Finished))), s.now, s.queue)
    case WatchSends =>
      Sys(q.(m := q.m.(claimWatch := Some(WatchEnded))), s.now, s.queue + [Inhibitor(true, false)])
    case Elapse(dt) => Sys(q, s.now + dt, s.queue)
    case OthersWrite(file) => Sys(q.(file := file), s.now, s.queue)
    case Handle(e) => Sys(Dispatch(q, s.queue[0], e), s.now, s.queue[1..])
  }

  /** What a step adds behind the queue. */
  function Added(a: Action): seq<Event> {
    match a
    case Deliver(ev) => [ev]
    case TimerSends => [TimerExpired]
    case WatchSends => [Inhibitor(true, false)]
    case _ => []
  }

  /** Startup up to the event loop: a leftover request is cleared, if its removal succeeds, and a low
      battery may ask at once. */
  function Prepared(conf: Conf, inputs: Inputs, leftover: Request, e: Env): Daemon {
    var m := Machine(LidOpen, None, None, None);
    BatteryLowCheck(ClearRequest(Daemon(conf, inputs.(suspendRequested := false), m, leftover, []), e), e).0
  }

  /** The state the world names is entered. */
  function Started(d: Daemon, e: Env): Daemon {
    OnEnter(WorldState(d.W()), Fresh, EnterState(d, WorldState(d.W())), e).0
  }

  function Boot(conf: Conf, inputs: Inputs, leftover: Request, e: Env): Sys {
    Sys(Started(Prepared(conf, inputs, leftover, e), e), e.now, [MonitorsChanged, PowerOverrideChanged])
  }

  datatype Run = Run(conf: Conf, inputs: Inputs, leftover: Request, boot: Env, states: seq<Sys>, actions: seq<Action>) {
    ghost predicate Valid() {
      && |states| == |actions| + 1
      && states[0] == Boot(conf, inputs, leftover, boot)
      && forall i | 0 <= i < |actions| :: Steps(i)
    }

    ghost predicate Steps(i: nat)
      requires i < |actions| && i + 1 < |states|
    {
      Enabled(states[i], actions[i]) && states[i + 1] == Next(states[i], actions[i])
    }

    /** Step `i` dispatches `ev`. */
    ghost predicate Dispatches(i: nat, ev: Event)
      requires i < |actions| && i + 1 < |states|
    {
      actions[i].Handle? && states[i].queue != [] && states[i].queue[0] == ev
    }
  }

  // ---- what can be reached ----

  ghost predicate Reachable(s: Sys) {
    exists run: Run :: Ends(run, s)
  }

  ghost predicate Ends(run: Run, s: Sys) {
    run.Valid() && run.states[|run.actions|] == s
  }

  lemma BootIsReachable(conf: Conf, inputs: Inputs, leftover: Request, e: Env)
    ensures Reachable(Boot(conf, inputs, leftover, e))
  {
    var s := Boot(conf, inputs, leftover, e);
    assert Ends(Run(conf, inputs, leftover, e, [s], []), s);
  }

  lemma NextIsReachable(s: Sys, a: Action)
    requires Reachable(s) && Enabled(s, a)
    ensures Reachable(Next(s, a))
  {
    hide Next, Enabled, Boot;
    var run :| Ends(run, s);
    var more := run.(states := run.states + [Next(s, a)], actions := run.actions + [a]);
    forall i | 0 <= i < |more.actions| ensures more.Steps(i) {
      assert i < |run.actions| ==> run.Steps(i);
    }
    assert Ends(more, Next(s, a));
  }

  // ---- the countdown is never parked ----

  /** A grace timer is held exactly in Countdown, and a claim watch only in Deferred. */
  predicate HandlesMatch(m: Machine) {
    && (m.graceTimer.Some? <==> m.state == Countdown)
    && (m.claimWatch.Some? ==> m.state == Deferred)
  }

  predicate NeverParked(s: Sys) {
    && HandlesMatch(s.d.m)
    && (s.d.m.state == Countdown ==> s.d.m.graceTimer.value.Sleeping? || TimerExpired in s.queue)
  }

  /** The timer a step leaves behind in Countdown: one it started, or the live one it found. */
  predicate TimerKeptOrStarted(was: Machine, now: Machine, expiry: bool) {
    now.state == Countdown ==>
      || (now.graceTimer.Some? && now.graceTimer.value.Sleeping?)
      || (was.state == Countdown && now.graceTimer == was.graceTimer && !expiry)
  }

  lemma OnEnterKeepsHandles(state: State, entry: Entry, d: Daemon, e: Env)
    requires state != Suspending
    ensures var d1 := OnEnter(state, entry, d, e).0;
      && HandlesMatch(d1.m.(state := state))
      && d1.m.state == d.m.state
      && TimerKeptOrStarted(d.m.(state := Countdown), d1.m.(state := state), false)
      && (entry == Fresh ==> TimerKeptOrStarted(d.m, d1.m.(state := state), true))
  {
  }

  lemma EvaluateKeepsHandles(d: Daemon, kind: EventKind, e: Env)
    requires HandlesMatch(d.m)
    ensures HandlesMatch(EvaluateFsms(d, kind, e).m)
    ensures TimerKeptOrStarted(d.m, EvaluateFsms(d, kind, e).m, kind.TimerExpiry?)
  {
    var next := DesiredState(d.m.state, kind, d.W());
    if next.Some? && next.value != d.m.state && next.value != Suspending {
      OnEnterKeepsHandles(next.value, Fresh, EnterState(d, next.value), e);
    }
  }

  lemma ReassertedKeepsHandles(d: Daemon, e: Env)
    requires HandlesMatch(d.m)
    ensures HandlesMatch(Reasserted(d, e).m) && TimerKeptOrStarted(d.m, Reasserted(d, e).m, false)
  {
    if d.m.state != Suspending {
      OnEnterKeepsHandles(d.m.state, Reassert, AdoptProfile(d, e), e);
    }
  }

  /** The tail of a tick touches neither the state nor the timers. */
  lemma TickTailKeepsMachine(d: Daemon, snap: Snapshot, e: Env)
    ensures Reconciled(d, snap, e).m.(lastCursor := None) == RepairAndDrive(d, snap, e).m.(lastCursor := None)
    ensures RepairInputs(d, snap, e).m == d.m
  {
    hide EvaluateFsms;
  }

  lemma ReconciledKeepsHandles(d: Daemon, snap: Snapshot, e: Env)
    requires HandlesMatch(d.m)
    ensures HandlesMatch(Reconciled(d, snap, e).m) && TimerKeptOrStarted(d.m, Reconciled(d, snap, e).m, false)
  {
    TickTailKeepsMachine(d, snap, e);
    var d1 := RepairInputs(d, snap, e);
    EvaluateKeepsHandles(d1, CtxRepaired, e);
  }

  lemma AbsorbKeepsMachine(d: Daemon, ev: Event, e: Env)
    ensures Absorb(d, ev, e).0.m == d.m && Absorb(d, ev, e).0.conf == d.conf
    ensures ev.TimerExpired? ==> Absorb(d, ev, e).1
  {
  }

  /** These events concern profiles, the keyboard and the backlight only. */
  lemma PassiveEventsChangeNothing(d: Daemon, ev: Event, e: Env)
    requires ev.ProfilesChanged? || ev.BacklightHotplug? || ev.GoingToSleep? || ev.Keyboard?
    ensures Dispatch(d, ev, e) == d
  {
  }

  lemma DispatchKeepsHandles(d: Daemon, ev: Event, e: Env)
    requires HandlesMatch(d.m)
    ensures HandlesMatch(Dispatch(d, ev, e).m)
    ensures TimerKeptOrStarted(d.m, Dispatch(d, ev, e).m, ev.TimerExpired?)
  {
    hide EvaluateFsms, Absorb, Reconciled, Reasserted;
    if ev.ReconcileTick? {
      ReconciledKeepsHandles(d, ev.snap, e);
    } else if ev.ConfigReloaded? || ev.ProfileApplied? {
      ReassertedKeepsHandles(d, e);
    } else if !ev.MonitorsChanged? {
      AbsorbKeepsMachine(d, ev, e);
      EvaluateKeepsHandles(Absorb(d, ev, e).0, Kind(ev), e);
    }
  }

  lemma NextKeepsNeverParked(s: Sys, a: Action)
    requires Enabled(s, a) && NeverParked(s)
    ensures NeverParked(Next(s, a))
  {
    if a.Handle? {
      DispatchKeepsHandles(s.d.(fx := []), s.queue[0], a.e);
    }
  }

  lemma BootNeverParked(conf: Conf, inputs: Inputs, leftover: Request, e: Env)
    ensures NeverParked(Boot(conf, inputs, leftover, e))
  {
    var d := Prepared(conf, inputs, leftover, e);
    var state := WorldState(d.W());
    OnEnterKeepsHandles(state, Fresh, EnterState(d, state), e);
  }

  lemma {:induction false} CountdownIsNeverParked(run: Run, i: nat)
    requires run.Valid() && i < |run.states|
    ensures NeverParked(run.states[i])
  {
    if i == 0 {
      BootNeverParked(run.conf, run.inputs, run.leftover, run.boot);
    } else {
      CountdownIsNeverParked(run, i - 1);
      assert run.Steps(i - 1);
      NextKeepsNeverParked(run.states[i - 1], run.actions[i - 1]);
    }
  }
}
