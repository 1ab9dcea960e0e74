/** Reachable states in which an expectation about the daemon fails: a grace cut short, a request
    overwritten, and the ways of falling out of step. */
module Witnesses {
  import opened Prelude
  import opened Fsm
  import opened Suspend
  import opened SuspendRuns
  import opened SuspendSafety
  import opened RequestFile

  /** One answer for every dispatch: nothing else changes, the locker is live, logind accepts. */
  function Calm(now: nat): Env {
    Env(now, None, 0, None, true, true, true, true, true, true, true)
  }

  /** An open laptop on battery with nothing going on. */
  const QUIET: Inputs := Inputs(false, 0, false, false, false, false, false, false, false, Auto)

  // ---- one step further ----

  lemma Hears(s: Sys, ev: Event, t: Sys)
    requires Reachable(s) && !ev.TimerExpired? && t == Sys(s.d.(fx := []), s.now, s.queue + [ev])
    ensures Reachable(t)
  {
    NextIsReachable(s, Deliver(ev));
  }

  lemma Writes(s: Sys, file: Request, t: Sys)
    requires Reachable(s) && file != BatteryLow && t == Sys(s.d.(fx := [], file := file), s.now, s.queue)
    ensures Reachable(t)
  {
    NextIsReachable(s, OthersWrite(file));
  }

  lemma Passes(s: Sys, dt: nat, t: Sys)
    requires Reachable(s) && t == Sys(s.d.(fx := []), s.now + dt, s.queue)
    ensures Reachable(t)
  {
    NextIsReachable(s, Elapse(dt));
  }

  lemma Fires(s: Sys, t: Sys)
    requires Reachable(s) && Enabled(s, TimerSends)
    requires t == Sys(s.d.(fx := [], m := s.d.m.(graceTimer := Some(Sent))), s.now, s.queue + [TimerExpired])
    ensures Reachable(t)
  {
    NextIsReachable(s, TimerSends);
  }

  lemma Handles(s: Sys, e: Env, t: Sys)
    requires Reachable(s) && s.queue != [] && e.now == s.now
    requires t == Sys(Dispatch(s.d.(fx := []), s.queue[0], e), s.now, s.queue[1..])
    ensures Reachable(t)
  {
    NextIsReachable(s, Handle(e));
  }

  // ---- started ----

  /** Started, with the events startup sends handled. */
  function Booted(conf: Conf, inputs: Inputs): Sys {
    Sys(Boot(conf, inputs, Absent, Calm(0)).d.(fx := []), 0, [])
  }

  lemma BootedIsReachable(conf: Conf, inputs: Inputs)
    ensures Reachable(Booted(conf, inputs)) && InStep(Booted(conf, inputs).d)
  {
    hide Dispatch, Boot, InStep, Reachable;
    var s := Boot(conf, inputs, Absent, Calm(0));
    var t := Sys(s.d.(fx := []), 0, [PowerOverrideChanged]);
    BootIsReachable(conf, inputs, Absent, Calm(0));
    BootShape(conf, inputs, Absent, Calm(0));
    assert InStep(s.d) by { InStepOf(s.d); }
    BootQueue(conf, inputs);
    ProfileNoticeIsIdle(t.d);
    Handles(s, Calm(0), t);
    assert InStep(t.d) by { SameStep(s.d); }
    OverrideNoticeIsIdle(t.d);
    Handles(t, Calm(0), Booted(conf, inputs));
  }

  lemma BootQueue(conf: Conf, inputs: Inputs)
    ensures Boot(conf, inputs, Absent, Calm(0)).queue == [MonitorsChanged, PowerOverrideChanged]
    ensures Boot(conf, inputs, Absent, Calm(0)).now == 0
  {
  }

  lemma InStepOf(d: Daemon)
    requires d.m.state == WorldState(d.W())
    ensures InStep(d)
  {
  }

  lemma SameStep(d: Daemon)
    requires InStep(d)
    ensures InStep(d.(fx := []))
  {
  }

  lemma ProfileNoticeIsIdle(d: Daemon)
    ensures Dispatch(d, MonitorsChanged, Calm(0)) == d
  {
  }

  lemma OverrideNoticeIsIdle(d: Daemon)
    requires InStep(d)
    ensures Dispatch(d, PowerOverrideChanged, Calm(0)) == d
  {
  }

  // ---- a grace cut short ----

  function LidConf(grace: nat): Conf {
    Conf(true, grace, false, 0)
  }

  function Lidded(state: State, timer: Option<Timer>, lidClosed: bool, fx: seq<Effect>, grace: nat): Daemon {
    Daemon(LidConf(grace), QUIET.(lidClosed := lidClosed), Machine(state, timer, None, None), Absent, fx)
  }

  /** The lid was opened while the timer ran out, and shut again; the loop has heard of the opening only. */
  function Opened(grace: nat): Sys {
    Sys(Lidded(LidOpen, None, false, [PanelSet(true)], grace), grace, [Lid(true), TimerExpired])
  }

  lemma OpenedIsReachable(grace: nat)
    ensures Reachable(Opened(grace))
  {
    hide Dispatch, Boot, Reachable;
    var s0 := Booted(LidConf(grace), QUIET.(lidClosed := true));
    BootedIsReachable(LidConf(grace), QUIET.(lidClosed := true));
    LidBoots(grace);
    var s1 := s0.(queue := [Lid(false)]);
    var s2 := s0.(queue := [Lid(false), Lid(true)]);
    var s3 := s2.(now := grace);
    var s4 := Sys(Lidded(Countdown, Some(Sent), true, [], grace), grace, [Lid(false), Lid(true), TimerExpired]);
    Hears(s0, Lid(false), s1);
    Hears(s1, Lid(true), s2);
    Passes(s2, grace, s3);
    Fires(s3, s4);
    LidOpens(grace);
    Handles(s4, Calm(grace), Opened(grace));
  }

  lemma LidBoots(grace: nat)
    ensures Booted(LidConf(grace), QUIET.(lidClosed := true))
         == Sys(Lidded(Countdown, Some(Sleeping(grace)), true, [], grace), 0, [])
  {
  }

  lemma LidOpens(grace: nat)
    ensures Dispatch(Lidded(Countdown, Some(Sent), true, [], grace), Lid(false), Calm(grace)) == Opened(grace).d
  {
  }

  lemma LidShuts(grace: nat)
    ensures Dispatch(Lidded(LidOpen, None, false, [], grace), Lid(true), Calm(grace))
         == Lidded(Countdown, Some(Sleeping(grace + grace)), true, [], grace)
  {
  }

  /** For every window: a countdown opens with its deadline a full window away, and the very next step
      suspends. */
  lemma NothingGuaranteesTheGrace(grace: nat)
    ensures var s, a := Opened(grace), Handle(Calm(grace));
      && Reachable(s) && s.d.m.state == LidOpen && Enabled(s, a)
      && var t := Next(s, a);
         && t.d.m.state == Countdown && t.d.m.graceTimer == Some(Sleeping(t.now + grace))
         && Enabled(t, a) && SuspendCalled(true) in Next(t, a).d.fx
  {
    hide Dispatch, WantsSuspend;
    OpenedIsReachable(grace);
    LidShuts(grace);
    var d := Lidded(Countdown, Some(Sleeping(grace + grace)), true, [], grace);
    assert WantsSuspend(d) by { LidAsks(grace); }
    ExpirySuspends(d, Calm(grace));
    var fx := Dispatch(d, TimerExpired, Calm(grace)).fx;
    assert fx[|fx| - 1] in fx;
  }

  lemma LidAsks(grace: nat)
    ensures WantsSuspend(Lidded(Countdown, Some(Sleeping(grace + grace)), true, [], grace))
  {
  }

  // ---- a request overwritten ----

  function LowConf(threshold: nat): Conf {
    Conf(true, 30, false, threshold)
  }

  /** An idle request was written while a low reading waited in the queue; its notification waits behind. */
  function Unheard(threshold: nat, pct: real): Sys {
    Sys(Booted(LowConf(threshold), QUIET).d.(file := Idle), 0, [BatteryPercent(pct), SuspendRequestChanged(true)])
  }

  lemma UnheardIsReachable(threshold: nat, pct: real)
    ensures Reachable(Unheard(threshold, pct))
  {
    hide Dispatch, Boot, Reachable;
    var s0 := Booted(LowConf(threshold), QUIET);
    BootedIsReachable(LowConf(threshold), QUIET);
    var s1 := s0.(queue := [BatteryPercent(pct)]);
    Hears(s0, BatteryPercent(pct), s1);
    var s2 := s1.(d := s1.d.(file := Idle));
    Writes(s1, Idle, s2);
    Hears(s2, SuspendRequestChanged(true), Unheard(threshold, pct));
  }

  /** For every threshold: a low reading overwrites the idle request in a reachable state. */
  lemma AnIdleRequestIsLost(threshold: nat, pct: real)
    requires pct <= threshold as real
    ensures var s, a := Unheard(threshold, pct), Handle(Calm(0));
      Reachable(s) && s.d.file == Idle && Enabled(s, a) && Next(s, a).d.file == BatteryLow
  {
    hide Dispatch;
    UnheardIsReachable(threshold, pct);
    IdleRequestIsLostExactlyWhen(Unheard(threshold, pct).d, BatteryPercent(pct), Calm(0));
  }

  // ---- out of step ----

  /** The machine is in step, and the event at the head of the queue leaves it where its inputs do not point. */
  ghost predicate FallsBehind(s: Sys, e: Env) {
    && Reachable(s) && InStep(s.d) && s.d.m.state != Suspending
    && Enabled(s, Handle(e))
    && !InStep(Next(s, Handle(e)).d) && Next(s, Handle(e)).d.m.state != Suspending
  }

  lemma Behind(s: Sys)
    requires Reachable(s) && InStep(s.d) && s.d.m.state != Suspending && s.d.fx == [] && s.queue != []
    requires LeavesBehind(s.d, s.queue[0], Calm(s.now))
    ensures FallsBehind(s, Calm(s.now))
  {
    hide Dispatch, LeavesBehind, InStep, Reachable;
    assert s.d.(fx := []) == s.d;
    OutOfStepExactlyWhen(s.d, s.queue[0], Calm(s.now));
  }

  /** A resume that interrupts no suspend: it forgets the request and leaves the countdown standing. */
  lemma ResumeFallsBehind()
    ensures exists s, e :: FallsBehind(s, e) && s.queue[0] == Resumed
  {
    hide Dispatch, Boot, InStep, LeavesBehind, FallsBehind, Reachable;
    var s0 := Booted(LowConf(10), QUIET.(lowBattery := true));
    BootedIsReachable(LowConf(10), QUIET.(lowBattery := true));
    LowBoots();
    var s1 := s0.(queue := [Resumed]);
    Hears(s0, Resumed, s1);
    assert s1.d == s0.d;
    assert InStep(s1.d);
    Behind(s1);
    assert FallsBehind(s1, Calm(0)) && s1.queue[0] == Resumed;
  }

  lemma LowBoots()
    ensures var d := Booted(LowConf(10), QUIET.(lowBattery := true)).d;
      d.m.state == Countdown && LeavesBehind(d, Resumed, Calm(0))
  {
  }

  /** A tick that repairs the charger alone, under `lid-ac = defer`: the hold is gone and the lid stays
      parked. */
  lemma TickFallsBehind()
    ensures exists s, e :: FallsBehind(s, e) && s.queue[0].ReconcileTick?
  {
    hide Dispatch, Boot, InStep, LeavesBehind, FallsBehind, Reachable;
    var conf, inputs := Conf(true, 30, true, 10), QUIET.(lidClosed := true, onAc := true, onAcSettled := true);
    var snap := Snapshot(true, 0, false, None, None, Some(false), None, None, None);
    var s0 := Booted(conf, inputs);
    BootedIsReachable(conf, inputs);
    HeldBoots(conf, inputs);
    UnpluggedIsLeftBehind(snap);
    var s1 := s0.(queue := [ReconcileTick(snap)]);
    Hears(s0, ReconcileTick(snap), s1);
    Behind(s1);
    assert FallsBehind(s1, Calm(0)) && s1.queue[0].ReconcileTick?;
  }

  lemma HeldBoots(conf: Conf, inputs: Inputs)
    requires conf == Conf(true, 30, true, 10)
    requires inputs == QUIET.(lidClosed := true, onAc := true, onAcSettled := true)
    ensures Booted(conf, inputs) == Sys(Held(), 0, [])
  {
  }

  function Held(): Daemon {
    Daemon(Conf(true, 30, true, 10), QUIET.(lidClosed := true, onAc := true, onAcSettled := true),
           Machine(Deferred, None, None, None), Absent, [])
  }

  lemma UnpluggedIsLeftBehind(snap: Snapshot)
    requires snap == Snapshot(true, 0, false, None, None, Some(false), None, None, None)
    ensures LeavesBehind(Held(), ReconcileTick(snap), Calm(0))
  {
  }

  /** Deferred on a claim with an idle request that was deleted unheard, and an old expiry next. */
  function Parked(): Sys {
    Sys(Claimed(Deferred, None, true, Absent), 30, [TimerExpired])
  }

  function Claimed(state: State, timer: Option<Timer>, requested: bool, file: Request): Daemon {
    Daemon(LowConf(10), QUIET.(logindInhibitor := true, suspendRequested := requested),
           Machine(state, timer, None, None), file, [])
  }

  function Waiting(timer: Timer, now: nat, queue: seq<Event>): Sys {
    Sys(Daemon(LowConf(10), QUIET.(suspendRequested := true), Machine(Countdown, Some(timer), None, None), Idle, []),
        now, queue)
  }

  lemma WaitingIsReachable()
    ensures Reachable(Waiting(Sleeping(30), 0, []))
  {
    hide Dispatch, Boot, InStep, Reachable;
    var s0 := Booted(LowConf(10), QUIET);
    BootedIsReachable(LowConf(10), QUIET);
    RequestCounts();
    var s1 := s0.(d := s0.d.(file := Idle));
    Writes(s0, Idle, s1);
    var s2 := s1.(queue := [SuspendRequestChanged(true)]);
    Hears(s1, SuspendRequestChanged(true), s2);
    Handles(s2, Calm(0), Waiting(Sleeping(30), 0, []));
  }

  lemma RequestCounts()
    ensures Dispatch(Booted(LowConf(10), QUIET).d.(file := Idle), SuspendRequestChanged(true), Calm(0))
         == Waiting(Sleeping(30), 0, []).d
  {
  }

  lemma ParkedIsReachable()
    ensures Reachable(Parked())
  {
    hide Dispatch, Reachable;
    var claim := Inhibitor(false, true);
    WaitingIsReachable();
    Hears(Waiting(Sleeping(30), 0, []), claim, Waiting(Sleeping(30), 0, [claim]));
    Passes(Waiting(Sleeping(30), 0, [claim]), 30, Waiting(Sleeping(30), 30, [claim]));
    Fires(Waiting(Sleeping(30), 30, [claim]), Waiting(Sent, 30, [claim, TimerExpired]));
    ClaimDefers();
    var s := Sys(Claimed(Deferred, None, true, Idle).Did(MediaPaused), 30, [TimerExpired]);
    Handles(Waiting(Sent, 30, [claim, TimerExpired]), Calm(30), s);
    Writes(s, Absent, Parked());
  }

  lemma ClaimDefers()
    ensures Dispatch(Waiting(Sent, 30, []).d, Inhibitor(false, true), Calm(30))
         == Claimed(Deferred, None, true, Idle).Did(MediaPaused)
  {
  }

  lemma ParkedIsLeftBehind()
    ensures InStep(Parked().d) && LeavesBehind(Parked().d, TimerExpired, Calm(30))
  {
  }

  /** An expiry that finds no countdown: it drops the deleted request and leaves the machine parked. */
  lemma ExpiryFallsBehind()
    ensures exists s, e :: FallsBehind(s, e) && s.queue[0] == TimerExpired
  {
    hide Dispatch, InStep, LeavesBehind, FallsBehind;
    var s := Parked();
    ParkedIsReachable();
    ParkedIsLeftBehind();
    Behind(s);
    assert FallsBehind(s, Calm(30)) && s.queue[0] == TimerExpired;
  }
}
