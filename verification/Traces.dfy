/** The trace of a whole run. A dispatch adds to the trace it is given and reads none of it, so what holds of
    single dispatches holds of a daemon whose trace goes on growing. */
module Traces {
  import opened Prelude
  import opened Fsm
  import opened Suspend
  import opened SuspendRuns
  import opened SuspendSafety

  /** The same daemon with an earlier trace in front. */
  function Since(past: seq<Effect>, d: Daemon): Daemon {
    d.(fx := past + d.fx)
  }

  lemma DidSince(past: seq<Effect>, d: Daemon, f: Effect)
    ensures Since(past, d).Did(f) == Since(past, d.Did(f))
  {
    assert past + d.fx + [f] == past + (d.fx + [f]);
  }

  lemma SetEdpSince(past: seq<Effect>, d: Daemon, on: bool)
    ensures SetEdp(Since(past, d), on) == Since(past, SetEdp(d, on))
  {
    DidSince(past, d, PanelSet(true));
    DidSince(past, d, PanelSet(false));
  }

  lemma TailSince(past: seq<Effect>, d: Daemon, e: Env)
    ensures SuspendingTail(Since(past, d), e) == (Since(past, SuspendingTail(d, e).0), SuspendingTail(d, e).1)
  {
    hide CallSuspend;
    var d1 := d.Did(LockerRead(e.liveFirst));
    var d2 := d1.Did(LockRequested);
    var d3 := if d.inputs.locked then d2.Did(LockerRead(e.liveInWait)) else d2;
    DidSince(past, d, LockerRead(e.liveFirst));
    DidSince(past, d1, LockRequested);
    DidSince(past, d2, LockerRead(e.liveInWait));
    DidSince(past, d3, LockerRead(e.liveLast));
    CallSuspendSince(past, d1, e);
    CallSuspendSince(past, d3.Did(LockerRead(e.liveLast)), e);
  }

  lemma CallSuspendSince(past: seq<Effect>, d: Daemon, e: Env)
    ensures CallSuspend(Since(past, d), e) == (Since(past, CallSuspend(d, e).0), CallSuspend(d, e).1)
  {
    DidSince(past, d, SuspendCalled(e.suspendAccepted));
  }

  lemma OnEnterSince(past: seq<Effect>, state: State, entry: Entry, d: Daemon, e: Env)
    ensures OnEnter(state, entry, Since(past, d), e)
         == (Since(past, OnEnter(state, entry, d, e).0), OnEnter(state, entry, d, e).1)
  {
    hide SetEdp, SuspendingTail;
    var d1 := SetClaimWatch(d, state == Deferred && d.inputs.waylandInhibitor);
    SetEdpSince(past, d1, false);
    SetEdpSince(past, CancelGrace(d1), true);
    SetEdpSince(past, CancelGrace(d1), false);
    DidSince(past, SetEdp(CancelGrace(d1), false), MediaPaused);
    TailSince(past, CancelGrace(d1), e);
  }

  lemma EvaluateSince(past: seq<Effect>, d: Daemon, kind: EventKind, e: Env)
    ensures EvaluateFsms(Since(past, d), kind, e) == Since(past, EvaluateFsms(d, kind, e))
  {
    hide OnEnter, DesiredState;
    var next := DesiredState(d.m.state, kind, d.W());
    assert Since(past, d).W() == d.W();
    if next.Some? {
      OnEnterSince(past, next.value, Fresh, d, e);
      OnEnterSince(past, next.value, Fresh, EnterState(d, next.value), e);
    }
  }

  lemma BatteryLowCheckSince(past: seq<Effect>, d: Daemon, e: Env)
    ensures BatteryLowCheck(Since(past, d), e) == (Since(past, BatteryLowCheck(d, e).0), BatteryLowCheck(d, e).1)
  {
    hide BatteryLowActionFor;
    DidSince(past, d.(inputs := d.inputs.(suspendRequested := true), file := BatteryLow), RequestWritten);
    DidSince(past, d.(inputs := d.inputs.(suspendRequested := false), file := Absent), RequestRemoved(d.file));
  }

  lemma AbsorbSince(past: seq<Effect>, d: Daemon, ev: Event, e: Env)
    ensures Absorb(Since(past, d), ev, e) == (Since(past, Absorb(d, ev, e).0), Absorb(d, ev, e).1)
  {
    hide BatteryLowCheck, BatteryLowStep, RefreshClaim, ClearRequest;
    var i := d.inputs;
    if ev.AcChanged? {
      BatteryLowCheckSince(past, d.(inputs := i.(onAc := ev.plugged)), e);
    } else if ev.PowerAcSettled? {
      BatteryLowCheckSince(past, d.(inputs := i.(onAcSettled := i.onAc)), e);
    } else if ev.BatteryPercent? {
      var low := BatteryLowStep(i.lowBattery, ev.pct, d.conf.batteryLowPct);
      BatteryLowCheckSince(past, d.(inputs := i.(lowBattery := low)), e);
    } else if ev.Resumed? {
      ClearRequestSince(past, d.(inputs := i.(suspendRequested := false)), e);
    }
  }

  lemma ClearRequestSince(past: seq<Effect>, d: Daemon, e: Env)
    ensures ClearRequest(Since(past, d), e) == Since(past, ClearRequest(d, e))
  {
    DidSince(past, d.(file := Absent), RequestRemoved(d.file));
  }

  lemma TickSince(past: seq<Effect>, d: Daemon, snap: Snapshot, e: Env)
    ensures Reconciled(Since(past, d), snap, e) == Since(past, Reconciled(d, snap, e))
  {
    hide EvaluateFsms, RepairInputs, EnforcePanel, RepairDpms;
    RepairInputsSince(past, d, snap, e);
    EvaluateSince(past, RepairInputs(d, snap, e), CtxRepaired, e);
    var d1 := AdoptProfile(RepairAndDrive(d, snap, e), e);
    EnforcePanelSince(past, d1, snap.edpDisabled);
    RepairDpmsSince(past, EnforcePanel(d1, snap.edpDisabled), snap);
  }

  lemma RepairInputsSince(past: seq<Effect>, d: Daemon, snap: Snapshot, e: Env)
    ensures RepairInputs(Since(past, d), snap, e) == Since(past, RepairInputs(d, snap, e))
  {
    hide BatteryLowCheck, Repaired, PowerDrift;
    var i := Repaired(d.conf.lidPresent, d.inputs, snap, d.file != Absent);
    BatteryLowCheckSince(past, d.(inputs := i.(onAcSettled := i.onAc)), e);
  }

  lemma EnforcePanelSince(past: seq<Effect>, d: Daemon, disabled: Option<bool>)
    ensures EnforcePanel(Since(past, d), disabled) == Since(past, EnforcePanel(d, disabled))
  {
    SetEdpSince(past, d, PanelShouldBeOn(d));
  }

  lemma RepairDpmsSince(past: seq<Effect>, d: Daemon, snap: Snapshot)
    ensures RepairDpms(Since(past, d), snap) == Since(past, RepairDpms(d, snap))
  {
    DidSince(past, d.(m := d.m.(lastCursor := snap.cursor)), DpmsOn);
  }

  /** A dispatch does the same whatever trace it starts from, and only adds to it. */
  lemma DispatchSince(past: seq<Effect>, d: Daemon, ev: Event, e: Env)
    ensures Dispatch(Since(past, d), ev, e) == Since(past, Dispatch(d, ev, e))
  {
    hide EvaluateFsms, Reconciled, OnEnter, Absorb;
    if ev.ReconcileTick? {
      TickSince(past, d, ev.snap, e);
    } else if ev.ConfigReloaded? || ev.ProfileApplied? {
      OnEnterSince(past, d.m.state, Reassert, AdoptProfile(d, e), e);
    } else if !ev.MonitorsChanged? {
      AbsorbSince(past, d, ev, e);
      EvaluateSince(past, Absorb(d, ev, e).0, Kind(ev), e);
    }
  }

  // ---- the trace of a run ----

  /** Everything the daemon has done by the end of step `n`. */
  ghost function Trace(run: Run, n: nat): seq<Effect>
    requires run.Valid() && n < |run.states|
  {
    if n == 0 then run.states[0].d.fx else Trace(run, n - 1) + run.states[n].d.fx
  }

  /** Every suspend call stands directly behind a live reading of the locker. */
  ghost predicate Proven(fx: seq<Effect>) {
    forall k | 0 <= k < |fx| && fx[k].SuspendCalled? :: k > 0 && fx[k - 1] == LockerRead(true)
  }

  lemma {:induction false} TraceIsProven(run: Run, n: nat)
    requires run.Valid() && n < |run.states|
    ensures Proven(Trace(run, n))
  {
    hide Next, Enabled, WantsSuspend;
    if n == 0 {
      BootShape(run.conf, run.inputs, run.leftover, run.boot);
    } else {
      TraceIsProven(run, n - 1);
      var fx := run.states[n].d.fx;
      forall k | 0 <= k < |fx| && fx[k].SuspendCalled? ensures k > 0 && fx[k - 1] == LockerRead(true) {
        SuspendIsAlwaysJustified(run, n - 1, k);
      }
    }
  }
}
