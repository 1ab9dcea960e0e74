/** When the daemon suspends, and what a dispatch does to the state: for every dispatch, then for
    every run. */
module SuspendSafety {
  import opened Prelude
  import opened Fsm
  import opened Suspend
  import opened SuspendRuns

  ghost predicate SuspendIn(fx: seq<Effect>) {
    exists k :: 0 <= k < |fx| && fx[k].SuspendCalled?
  }

  /** The lock is proven: read live at once, or asked for, seen to engage, and then read live. */
  predicate LockProven(locked: bool, e: Env) {
    e.liveFirst || (((locked && e.liveInWait) || e.lockSignalled) && e.liveLast)
  }

  /** A request whose file still exists, or the lid, asks for a suspend, and no claim governs. */
  predicate WantsSuspend(d: Daemon) {
    !ClaimGoverns(d.W()) && ((d.inputs.suspendRequested && d.file != Absent) || LidReason(d.W()))
  }

  // ---- shapes ----

  lemma OnEnterShape(state: State, entry: Entry, d: Daemon, e: Env)
    requires state != Suspending && !SuspendIn(d.fx)
    ensures var r := OnEnter(state, entry, d, e).0;
      && r.(m := d.m, fx := d.fx) == d
      && r.m.state == d.m.state
      && r.m.lastCursor == d.m.lastCursor
      && !SuspendIn(r.fx)
  {
  }

  lemma Snoc(fx: seq<Effect>, f: Effect)
    ensures SuspendIn(fx + [f]) <==> SuspendIn(fx) || f.SuspendCalled?
  {
    var more := fx + [f];
    assert more[|fx|] == f;
    assert forall k :: 0 <= k < |fx| ==> more[k] == fx[k];
  }

  /** The trace ends in its only suspend call, made straight after a live reading of the locker. */
  ghost predicate EndsInProvenSuspend(fx: seq<Effect>, accepted: bool) {
    && |fx| >= 2
    && !SuspendIn(fx[..|fx| - 1])
    && fx[|fx| - 1] == SuspendCalled(accepted)
    && fx[|fx| - 2] == LockerRead(true)
  }

  lemma ProvenSuspend(fx: seq<Effect>, accepted: bool)
    requires !SuspendIn(fx)
    ensures SuspendIn(fx + [LockerRead(true)] + [SuspendCalled(accepted)])
    ensures EndsInProvenSuspend(fx + [LockerRead(true)] + [SuspendCalled(accepted)], accepted)
  {
    Snoc(fx, LockerRead(true));
    Snoc(fx + [LockerRead(true)], SuspendCalled(accepted));
    var all := fx + [LockerRead(true)] + [SuspendCalled(accepted)];
    assert all[..|all| - 1] == fx + [LockerRead(true)];
  }

  /** The suspend attempt: what it reads, what it calls last, and what it leaves alone. */
  lemma TailShape(d: Daemon, e: Env)
    requires !SuspendIn(d.fx)
    ensures var (r, ok) := SuspendingTail(d, e);
      && r.(fx := d.fx) == d
      && ok == (LockProven(d.inputs.locked, e) && e.suspendAccepted)
      && (SuspendIn(r.fx) <==> LockProven(d.inputs.locked, e))
      && (SuspendIn(r.fx) ==> EndsInProvenSuspend(r.fx, e.suspendAccepted))
  {
    var (r, ok) := SuspendingTail(d, e);
    if e.liveFirst {
      ProvenSuspend(d.fx, e.suspendAccepted);
    } else {
      Snoc(d.fx, LockerRead(false));
      var fx2 := d.fx + [LockerRead(false)] + [LockRequested];
      Snoc(d.fx + [LockerRead(false)], LockRequested);
      Snoc(fx2, LockerRead(e.liveInWait));
      var fx3 := if d.inputs.locked then fx2 + [LockerRead(e.liveInWait)] else fx2;
      if LockProven(d.inputs.locked, e) {
        ProvenSuspend(fx3, e.suspendAccepted);
      } else {
        Snoc(fx3, LockerRead(false));
      }
    }
  }

  /** Startup may ask for a suspend; it calls none, and starts in step. */
  lemma BootShape(conf: Conf, inputs: Inputs, leftover: Request, e: Env)
    ensures var p, d := Prepared(conf, inputs, leftover, e), Boot(conf, inputs, leftover, e).d;
      && d.(m := p.m, fx := p.fx) == p
      && d.m.state == WorldState(p.W()) == WorldState(d.W())
      && d.m.lastCursor == None
      && !SuspendIn(d.fx)
  {
    hide OnEnter, WorldState, Prepared;
    var p := Prepared(conf, inputs, leftover, e);
    PreparedShape(conf, inputs, leftover, e);
    OnEnterShape(WorldState(p.W()), Fresh, EnterState(p, WorldState(p.W())), e);
  }

  lemma PreparedShape(conf: Conf, inputs: Inputs, leftover: Request, e: Env)
    ensures var p := Prepared(conf, inputs, leftover, e);
      !SuspendIn(p.fx) && p.m == Machine(LidOpen, None, None, None)
  {
  }

  lemma EvaluateShape(d: Daemon, kind: EventKind, e: Env)
    requires !SuspendIn(d.fx)
    ensures var r := EvaluateFsms(d, kind, e);
      var next := DesiredState(d.m.state, kind, d.W());
      && r.(m := d.m, fx := d.fx) == d
      && r.m.lastCursor == d.m.lastCursor
      && (next == None ==> r == d)
      && (next.Some? && next.value != Suspending ==> r.m.state == next.value && !SuspendIn(r.fx))
      && (next == Some(Suspending) ==>
            && (SuspendIn(r.fx) <==> LockProven(d.inputs.locked, e))
            && (SuspendIn(r.fx) ==> EndsInProvenSuspend(r.fx, e.suspendAccepted))
            && r.m.state == if LockProven(d.inputs.locked, e) && e.suspendAccepted then Suspending else Countdown)
  {
    var next := DesiredState(d.m.state, kind, d.W());
    if next == Some(Suspending) {
      TailShape(CancelGrace(SetClaimWatch(d, false)), e);
    } else if next.Some? && next.value != d.m.state {
      OnEnterShape(next.value, Fresh, EnterState(d, next.value), e);
    }
  }

  lemma AbsorbShape(d: Daemon, ev: Event, e: Env)
    requires !SuspendIn(d.fx)
    ensures !SuspendIn(Absorb(d, ev, e).0.fx)
    ensures Absorb(d, ev, e).0.conf == d.conf && Absorb(d, ev, e).0.m == d.m
    ensures ev.Resumed? || ev.TimerExpired? ==> Absorb(d, ev, e).1
  {
    var r := Absorb(d, ev, e).0;
    assert r.fx != d.fx ==> r.fx == d.fx + [r.fx[|r.fx| - 1]] && !r.fx[|r.fx| - 1].SuspendCalled?;
  }

  lemma RepairShape(d: Daemon, snap: Snapshot, e: Env)
    requires !SuspendIn(d.fx)
    ensures !SuspendIn(RepairInputs(d, snap, e).fx)
    ensures RepairInputs(d, snap, e).m == d.m && RepairInputs(d, snap, e).conf == d.conf
  {
    Snoc(d.fx, RequestWritten);
    Snoc(d.fx, RequestRemoved(d.file));
  }

  lemma PanelShape(d: Daemon, disabled: Option<bool>)
    requires !SuspendIn(d.fx)
    ensures !SuspendIn(EnforcePanel(d, disabled).fx)
    ensures EnforcePanel(d, disabled).(fx := d.fx) == d
  {
    Snoc(d.fx, PanelSet(true));
    Snoc(d.fx, PanelSet(false));
  }

  lemma DpmsShape(d: Daemon, snap: Snapshot)
    requires !SuspendIn(d.fx)
    ensures !SuspendIn(RepairDpms(d, snap).fx)
    ensures RepairDpms(d, snap).(fx := d.fx) == d.(m := d.m.(lastCursor := snap.cursor))
  {
    Snoc(d.fx, DpmsOn);
  }

  /** The tail of a tick shows and hides panels; it decides nothing. */
  lemma TailOfTickShape(d: Daemon, snap: Snapshot, e: Env)
    requires !SuspendIn(d.fx)
    ensures var r := RepairDpms(EnforcePanel(AdoptProfile(d, e), snap.edpDisabled), snap);
      && !SuspendIn(r.fx)
      && r.inputs.(edpPolicy := d.inputs.edpPolicy) == d.inputs
      && r.m == d.m.(lastCursor := snap.cursor)
      && r.file == d.file && r.conf == d.conf
  {
    hide EnforcePanel, RepairDpms;
    var d1 := AdoptProfile(d, e);
    PanelShape(d1, snap.edpDisabled);
    DpmsShape(EnforcePanel(d1, snap.edpDisabled), snap);
  }

  lemma TickShape(d: Daemon, snap: Snapshot, e: Env)
    requires !SuspendIn(d.fx)
    ensures var r := Reconciled(d, snap, e);
      var d0 := RepairInputs(d, snap, e);
      && !SuspendIn(r.fx)
      && r.inputs.(edpPolicy := d0.inputs.edpPolicy) == d0.inputs
      && r.conf == d.conf
      && r.file == d0.file
      && r.m.state == RepairAndDrive(d, snap, e).m.state
      && (d.m.state == Suspending <==> r.m.state == Suspending)
      && r.m.lastCursor == if d.m.state == Suspending then d.m.lastCursor else snap.cursor
  {
    hide RepairInputs, EvaluateFsms, EnforcePanel, RepairDpms;
    RepairShape(d, snap, e);
    EvaluateShape(RepairInputs(d, snap, e), CtxRepaired, e);
    var d1 := RepairAndDrive(d, snap, e);
    if d1.m.state != Suspending {
      TailOfTickShape(d1, snap, e);
    }
  }

  // ---- one dispatch ----

  /** Suspend is called exactly on an expiry in Countdown that still wants one, with the lock proven;
      the call is the dispatch's last effect and comes straight after a live reading of the locker. */
  lemma ExpirySuspends(d: Daemon, e: Env)
    requires d.fx == []
    ensures var r := Dispatch(d, TimerExpired, e);
      && (SuspendIn(r.fx) <==> d.m.state == Countdown && WantsSuspend(d) && LockProven(d.inputs.locked, e))
      && (SuspendIn(r.fx) ==> EndsInProvenSuspend(r.fx, e.suspendAccepted))
      && (r.m.state == Suspending <==>
            d.m.state == Suspending || (SuspendIn(r.fx) && e.suspendAccepted))
  {
    hide EvaluateFsms;
    var d1 := Absorb(d, TimerExpired, e).0;
    AbsorbShape(d, TimerExpired, e);
    EvaluateShape(d1, TimerExpiry, e);
    assert WorldState(d1.W()) == Countdown <==> WantsSuspend(d);
  }

  /** No other event suspends; only a resume leaves Suspending. */
  lemma OthersNeverSuspend(d: Daemon, ev: Event, e: Env)
    requires d.fx == [] && !ev.TimerExpired?
    ensures !SuspendIn(Dispatch(d, ev, e).fx)
    ensures Dispatch(d, ev, e).m.state == Suspending <==> d.m.state == Suspending && !ev.Resumed?
  {
    hide EvaluateFsms, OnEnter, Reconciled, Absorb;
    if ev.ReconcileTick? {
      TickShape(d, ev.snap, e);
    } else if ev.ConfigReloaded? || ev.ProfileApplied? {
      if d.m.state != Suspending {
        OnEnterShape(d.m.state, Reassert, AdoptProfile(d, e), e);
      }
    } else if !ev.MonitorsChanged? {
      AbsorbShape(d, ev, e);
      EvaluateShape(Absorb(d, ev, e).0, Kind(ev), e);
    }
  }

  /** A wake goes where the world without its old request points, whoever wrote that request; so it
      counts down again only for the lid. */
  lemma ResumeForgetsTheRequest(d: Daemon, e: Env)
    requires d.fx == [] && d.m.state == Suspending
    ensures var r := Dispatch(d, Resumed, e);
      && !r.inputs.suspendRequested
      && r.m.state == WorldState(d.W().(suspendRequested := false))
      && (r.m.state == Countdown <==> LidReason(d.W()))
  {
    hide EvaluateFsms;
    AbsorbShape(d, Resumed, e);
    EvaluateShape(Absorb(d, Resumed, e).0, Resume, e);
  }

  // ---- convergence ----

  /** The dispatch runs the machine on what it absorbed. */
  predicate Drives(d: Daemon, ev: Event, e: Env) {
    match ev
    case ReconcileTick(snap) => FsmDrift(d.inputs, Repaired(d.conf.lidPresent, d.inputs, snap, d.file != Absent))
    case ConfigReloaded => false
    case ProfileApplied => false
    case MonitorsChanged => false
    case _ => Absorb(d, ev, e).1
  }

  predicate InStep(d: Daemon) {
    d.m.state == WorldState(d.W())
  }

  lemma DrivenTickConverges(d: Daemon, snap: Snapshot, e: Env)
    requires d.fx == [] && d.m.state != Suspending && Drives(d, ReconcileTick(snap), e)
    ensures InStep(Reconciled(d, snap, e))
  {
    hide EvaluateFsms, RepairInputs;
    TickShape(d, snap, e);
    RepairShape(d, snap, e);
    EvaluateShape(RepairInputs(d, snap, e), CtxRepaired, e);
  }

  /** Any dispatch that drives the machine ends where the final inputs point, unless a suspend was
      accepted. */
  lemma DrivenDispatchConverges(d: Daemon, ev: Event, e: Env)
    requires d.fx == [] && d.m.state != Suspending && Drives(d, ev, e)
    requires !ev.Resumed? && (ev.TimerExpired? ==> d.m.state == Countdown)
    ensures var r := Dispatch(d, ev, e);
      || InStep(r)
      || (r.m.state == Suspending && ev.TimerExpired? && SuspendIn(r.fx) && e.suspendAccepted)
  {
    hide EvaluateFsms, Absorb, RepairInputs;
    if ev.ReconcileTick? {
      DrivenTickConverges(d, ev.snap, e);
    } else {
      var d1 := Absorb(d, ev, e).0;
      AbsorbShape(d, ev, e);
      EvaluateShape(d1, Kind(ev), e);
      assert Dispatch(d, ev, e) == EvaluateFsms(d1, Kind(ev), e);
    }
  }

  /** A machine in step falls out of step in three ways only: a resume that interrupts no suspend, an
      expiry that finds no countdown, and a tick that repairs the charger alone. */
  lemma OnlyThreeWaysOutOfStep(d: Daemon, ev: Event, e: Env)
    requires d.fx == [] && d.m.state != Suspending && InStep(d)
    ensures var r := Dispatch(d, ev, e);
      InStep(r) || r.m.state == Suspending || ev.Resumed? || (ev.TimerExpired? && d.m.state != Countdown)
      || (ev.ReconcileTick? && !Drives(d, ev, e)
          && ev.snap.onAc.Some? && ev.snap.onAc.value != d.inputs.onAc)
  {
    hide EvaluateFsms, Absorb, OnEnter, RepairInputs;
    if Drives(d, ev, e) {
      if !ev.Resumed? && (ev.TimerExpired? ==> d.m.state == Countdown) {
        DrivenDispatchConverges(d, ev, e);
      }
    } else if ev.ReconcileTick? {
      if ev.snap.onAc.None? || ev.snap.onAc.value == d.inputs.onAc {
        UndrivenTick(d, ev.snap, e);
      }
    } else if ev.ConfigReloaded? || ev.ProfileApplied? {
      OnEnterShape(d.m.state, Reassert, AdoptProfile(d, e), e);
    } else if ev.MonitorsChanged? {
      assert AdoptProfile(d, e).W() == d.W();
    } else {
      StoppedEventsChangeNothing(d, ev, e);
      AbsorbShape(d, ev, e);
      assert Dispatch(d, ev, e) == Absorb(d, ev, e).0;
    }
  }

  /** What a dispatch leaves in force without telling the machine. */
  predicate LeavesBehind(d: Daemon, ev: Event, e: Env) {
    match ev
    case Resumed => d.m.state != WorldState(d.W().(suspendRequested := false))
    case TimerExpired =>
      && d.m.state != Countdown
      && d.m.state != WorldState(d.W().(suspendRequested := d.inputs.suspendRequested && d.file != Absent))
    case ReconcileTick(snap) =>
      && !Drives(d, ev, e) && snap.onAc.Some? && snap.onAc.value != d.inputs.onAc
      && d.m.state != WorldState(RepairInputs(d, snap, e).W())
    case _ => false
  }

  /** From a machine in step, a dispatch ends out of step exactly when it is one of the three and the
      inputs it leaves name another state. */
  lemma OutOfStepExactlyWhen(d: Daemon, ev: Event, e: Env)
    requires d.fx == [] && d.m.state != Suspending && InStep(d)
    ensures !InStep(Dispatch(d, ev, e)) && Dispatch(d, ev, e).m.state != Suspending <==> LeavesBehind(d, ev, e)
  {
    hide Dispatch, Drives, WorldState;
    OnlyThreeWaysOutOfStep(d, ev, e);
    if ev.Resumed? || (ev.TimerExpired? && d.m.state != Countdown) {
      DroppedEventIsAbsorbed(d, ev, e);
    } else if ev.ReconcileTick? {
      if !Drives(d, ev, e) {
        UndrivenTickIsRepair(d, ev.snap, e);
      } else {
        DrivenDispatchConverges(d, ev, e);
      }
    }
  }

  lemma DroppedEventIsAbsorbed(d: Daemon, ev: Event, e: Env)
    requires d.fx == []
    requires if ev.Resumed? then d.m.state != Suspending else ev.TimerExpired? && d.m.state != Countdown
    ensures var r := Dispatch(d, ev, e);
      && r.m.state == d.m.state
      && r.W() == d.W().(suspendRequested := ev.TimerExpired? && d.inputs.suspendRequested && d.file != Absent)
  {
    hide EvaluateFsms;
    AbsorbShape(d, ev, e);
    EvaluateShape(Absorb(d, ev, e).0, Kind(ev), e);
  }

  lemma UndrivenTickIsRepair(d: Daemon, snap: Snapshot, e: Env)
    requires d.fx == [] && !Drives(d, ReconcileTick(snap), e)
    ensures var r := Dispatch(d, ReconcileTick(snap), e);
      r.m.state == d.m.state && r.W() == RepairInputs(d, snap, e).W()
  {
    hide Reconciled, RepairInputs, EvaluateFsms;
    TickShape(d, snap, e);
    RepairShape(d, snap, e);
  }

  /** A tick that found no drift in the machine's inputs can still have moved the charger. */
  lemma UndrivenTick(d: Daemon, snap: Snapshot, e: Env)
    requires d.fx == [] && !Drives(d, ReconcileTick(snap), e)
    requires snap.onAc.None? || snap.onAc.value == d.inputs.onAc
    ensures Reconciled(d, snap, e).W() == d.W() && Reconciled(d, snap, e).m.state == d.m.state
  {
    hide EvaluateFsms, Reconciled, WorldState, BatteryLowCheck;
    TickShape(d, snap, e);
  }

  /** An event that stops before the machine leaves the world it reads as it was. */
  lemma StoppedEventsChangeNothing(d: Daemon, ev: Event, e: Env)
    requires !Absorb(d, ev, e).1
    ensures Absorb(d, ev, e).0.W() == d.W()
  {
  }

  // ---- every run ----

  /** In every run, each suspend call is the last effect of dispatching an expiry in Countdown, right
      after the locker was read live, with a standing request or the lid asking and no claim governing. */
  lemma SuspendIsAlwaysJustified(run: Run, i: nat, k: nat)
    requires run.Valid() && i < |run.actions|
    requires k < |run.states[i + 1].d.fx| && run.states[i + 1].d.fx[k].SuspendCalled?
    ensures run.Dispatches(i, TimerExpired)
    ensures run.states[i].d.m.state == Countdown && WantsSuspend(run.states[i].d)
    ensures k + 1 == |run.states[i + 1].d.fx| && k > 0 && run.states[i + 1].d.fx[k - 1] == LockerRead(true)
  {
    hide Dispatch;
    assert run.Steps(i);
    var s, a := run.states[i], run.actions[i];
    assert SuspendIn(run.states[i + 1].d.fx);
    assert a.Handle?;
    var d := s.d.(fx := []);
    if s.queue[0] != TimerExpired {
      OthersNeverSuspend(d, s.queue[0], a.e);
    } else {
      ExpirySuspends(d, a.e);
      var fx := run.states[i + 1].d.fx;
      assert forall j :: 0 <= j < |fx| - 1 ==> fx[..|fx| - 1][j] == fx[j];
    }
  }

  /** What the run's history says: an accepted suspend with no resume dispatched after it. */
  ghost predicate AsleepSince(run: Run, n: nat)
    requires run.Valid() && n < |run.states|
  {
    n > 0 &&
    if run.Dispatches(n - 1, Resumed) then false
    else SuspendCalled(true) in run.states[n].d.fx || AsleepSince(run, n - 1)
  }

  lemma {:induction false} SuspendingIffAsleep(run: Run, n: nat)
    requires run.Valid() && n < |run.states|
    ensures run.states[n].d.m.state == Suspending <==> AsleepSince(run, n)
  {
    if n == 0 {
      BootShape(run.conf, run.inputs, run.leftover, run.boot);
    } else {
      SuspendingIffAsleep(run, n - 1);
      assert run.Steps(n - 1);
      StepMovesSuspending(run.states[n - 1], run.actions[n - 1]);
    }
  }

  lemma StepMovesSuspending(s: Sys, a: Action)
    requires Enabled(s, a)
    ensures Next(s, a).d.m.state == Suspending <==>
      !(a.Handle? && s.queue[0] == Resumed)
      && (SuspendCalled(true) in Next(s, a).d.fx || s.d.m.state == Suspending)
  {
    hide Dispatch;
    if a.Handle? {
      var d := s.d.(fx := []);
      var fx := Next(s, a).d.fx;
      assert SuspendCalled(true) in fx ==> SuspendIn(fx);
      if s.queue[0] == TimerExpired {
        ExpirySuspends(d, a.e);
        if SuspendIn(fx) {
          assert fx[|fx| - 1] in fx;
          assert forall j :: 0 <= j < |fx| - 1 ==> fx[..|fx| - 1][j] == fx[j];
        }
      } else {
        OthersNeverSuspend(d, s.queue[0], a.e);
      }
    }
  }

  /** The run's step `i` drives the machine, by an event that is neither a resume nor an expiry. */
  ghost predicate Driven(run: Run, i: nat)
    requires run.Valid() && i < |run.actions|
  {
    && run.actions[i].Handle? && run.states[i].queue != []
    && run.states[i].d.m.state != Suspending
    && var ev := run.states[i].queue[0];
       !ev.Resumed? && !ev.TimerExpired? && Drives(run.states[i].d.(fx := []), ev, run.actions[i].e)
  }

  lemma DrivenStepsEndInStep(run: Run, i: nat)
    requires run.Valid() && i < |run.actions| && Driven(run, i)
    ensures InStep(run.states[i + 1].d)
  {
    hide Dispatch, Drives;
    assert run.Steps(i);
    DrivenDispatchConverges(run.states[i].d.(fx := []), run.states[i].queue[0], run.actions[i].e);
  }

  /** Two runs that each end on a driven dispatch, however long and in whatever order, end in the same
      state once their inputs agree. */
  lemma EqualInputsEqualState(r1: Run, i: nat, r2: Run, j: nat)
    requires r1.Valid() && i < |r1.actions| && Driven(r1, i)
    requires r2.Valid() && j < |r2.actions| && Driven(r2, j)
    requires r1.states[i + 1].d.W() == r2.states[j + 1].d.W()
    ensures r1.states[i + 1].d.m.state == r2.states[j + 1].d.m.state
  {
    DrivenStepsEndInStep(r1, i);
    DrivenStepsEndInStep(r2, j);
  }
}
