/** What the daemon does to the screens over runs: it lights a dark output only where it may, and never
    asks for the last lit panel to go off. */
module Screens {
  import opened Prelude
  import opened Fsm
  import opened Suspend
  import opened SuspendRuns
  import opened SuspendSafety

  /** A snapshot as the reconciler gathers it: the cursor is sampled only while an output is dark. */
  predicate Gathered(snap: Snapshot) {
    snap.cursor.Some? ==> snap.dpmsOff == Some(true)
  }

  predicate Shows(s: State) {
    s == LidOpen || s == Docked
  }

  /** Adding `more` to the trace lights no output and hides no panel unless an external is there. */
  predicate Modest(more: seq<Effect>, extMonCount: nat) {
    DpmsOn !in more && (PanelSet(false) in more ==> extMonCount > 0)
  }

  lemma OnEnterIsModest(state: State, entry: Entry, d: Daemon, e: Env)
    requires Modest(d.fx, d.inputs.extMonCount)
    ensures Modest(OnEnter(state, entry, d, e).0.fx, d.inputs.extMonCount)
  {
    if state == Suspending {
      TailIsModest(CancelGrace(SetClaimWatch(d, false)), e);
    }
  }

  lemma TailIsModest(d: Daemon, e: Env)
    requires Modest(d.fx, d.inputs.extMonCount)
    ensures Modest(SuspendingTail(d, e).0.fx, d.inputs.extMonCount)
  {
  }

  lemma EvaluateIsModest(d: Daemon, kind: EventKind, e: Env)
    requires Modest(d.fx, d.inputs.extMonCount)
    ensures Modest(EvaluateFsms(d, kind, e).fx, d.inputs.extMonCount)
  {
    var next := DesiredState(d.m.state, kind, d.W());
    if next.Some? && next.value != d.m.state {
      OnEnterIsModest(next.value, Fresh, d, e);
      OnEnterIsModest(next.value, Fresh, EnterState(d, next.value), e);
    }
  }

  /** A tick lights the outputs exactly when one is dark, the state shows something, and the session is
      unlocked or the cursor moved since the tick before. */
  lemma TickLights(d: Daemon, snap: Snapshot, e: Env)
    requires d.fx == []
    ensures var r := Reconciled(d, snap, e);
      && (DpmsOn in r.fx <==>
            && snap.dpmsOff == Some(true) && Shows(r.m.state)
            && (r.inputs.locked ==> CursorMoved(d.m.lastCursor, snap.cursor)))
      && (PanelSet(false) in r.fx ==> r.inputs.extMonCount > 0)
  {
    hide EvaluateFsms, RepairInputs, EnforcePanel, RepairDpms, Modest;
    TickShape(d, snap, e);
    var d0 := RepairInputs(d, snap, e);
    RepairIsModest(d, snap, e);
    RepairShape(d, snap, e);
    EvaluateShape(d0, CtxRepaired, e);
    EvaluateIsModest(d0, CtxRepaired, e);
    var d1 := RepairAndDrive(d, snap, e);
    if d1.m.state == Suspending {
      ModestMeans(d1.fx, d1.inputs.extMonCount);
    } else {
      var d2 := AdoptProfile(d1, e);
      PanelIsModest(d2, snap.edpDisabled);
      PanelShape(d2, snap.edpDisabled);
      DpmsLights(EnforcePanel(d2, snap.edpDisabled), snap);
    }
  }

  lemma ModestMeans(fx: seq<Effect>, extMonCount: nat)
    requires Modest(fx, extMonCount)
    ensures DpmsOn !in fx && (PanelSet(false) in fx ==> extMonCount > 0)
  {
  }

  lemma RepairIsModest(d: Daemon, snap: Snapshot, e: Env)
    requires d.fx == []
    ensures Modest(RepairInputs(d, snap, e).fx, RepairInputs(d, snap, e).inputs.extMonCount)
  {
  }

  lemma PanelIsModest(d: Daemon, disabled: Option<bool>)
    requires Modest(d.fx, d.inputs.extMonCount)
    ensures Modest(EnforcePanel(d, disabled).fx, d.inputs.extMonCount)
  {
  }

  lemma DpmsLights(d: Daemon, snap: Snapshot)
    requires Modest(d.fx, d.inputs.extMonCount)
    ensures DpmsOn in RepairDpms(d, snap).fx <==>
      && snap.dpmsOff == Some(true) && Shows(d.m.state)
      && (d.inputs.locked ==> CursorMoved(d.m.lastCursor, snap.cursor))
    ensures PanelSet(false) in RepairDpms(d, snap).fx ==> d.inputs.extMonCount > 0
  {
  }

  lemma OthersLightNothing(d: Daemon, ev: Event, e: Env)
    requires d.fx == [] && !ev.ReconcileTick?
    ensures Modest(Dispatch(d, ev, e).fx, Dispatch(d, ev, e).inputs.extMonCount)
    ensures Dispatch(d, ev, e).m.lastCursor == d.m.lastCursor
  {
    hide EvaluateFsms, OnEnter, Absorb, Modest;
    NothingIsModest(d.inputs.extMonCount);
    if ev.ConfigReloaded? || ev.ProfileApplied? {
      if d.m.state != Suspending {
        OnEnterIsModest(d.m.state, Reassert, AdoptProfile(d, e), e);
        OnEnterShape(d.m.state, Reassert, AdoptProfile(d, e), e);
      }
    } else if !ev.MonitorsChanged? {
      AbsorbShape(d, ev, e);
      AbsorbIsModest(d, ev, e);
      EvaluateShape(Absorb(d, ev, e).0, Kind(ev), e);
      EvaluateIsModest(Absorb(d, ev, e).0, Kind(ev), e);
    }
  }

  lemma NothingIsModest(extMonCount: nat)
    ensures Modest([], extMonCount)
  {
  }

  lemma AbsorbIsModest(d: Daemon, ev: Event, e: Env)
    requires d.fx == []
    ensures Modest(Absorb(d, ev, e).0.fx, Absorb(d, ev, e).0.inputs.extMonCount)
  {
  }

  // ---- every run ----

  /** Step `k` handles a reconcile pass outside Suspending. */
  ghost predicate HandlesPass(run: Run, k: nat)
    requires run.Valid() && k < |run.actions|
  {
    run.actions[k].Handle? && run.states[k].queue != [] && run.states[k].queue[0].ReconcileTick?
    && run.states[k].d.m.state != Suspending
  }

  /** The snapshot of the last pass handled before step `n`. */
  ghost function LastPass(run: Run, n: nat): Option<Snapshot>
    requires run.Valid() && n < |run.states|
  {
    if n == 0 then None
    else if HandlesPass(run, n - 1) then Some(run.states[n - 1].queue[0].snap)
    else LastPass(run, n - 1)
  }

  lemma {:induction false} BaselineIsTheLastPass(run: Run, n: nat)
    requires run.Valid() && n < |run.states|
    ensures run.states[n].d.m.lastCursor == match LastPass(run, n) case None => None case Some(snap) => snap.cursor
  {
    hide Next, Boot;
    if n == 0 {
      BootIsModest(run.conf, run.inputs, run.leftover, run.boot);
    } else {
      BaselineIsTheLastPass(run, n - 1);
      assert run.Steps(n - 1);
      StepMovesBaseline(run.states[n - 1], run.actions[n - 1]);
    }
  }

  lemma BootIsModest(conf: Conf, inputs: Inputs, leftover: Request, e: Env)
    ensures var d := Boot(conf, inputs, leftover, e).d;
      d.m.lastCursor == None && Modest(d.fx, d.inputs.extMonCount)
  {
    hide OnEnter, WorldState, Modest, Prepared;
    var d := Prepared(conf, inputs, leftover, e);
    PreparedIsModest(conf, inputs, leftover, e);
    OnEnterIsModest(WorldState(d.W()), Fresh, EnterState(d, WorldState(d.W())), e);
    BootShape(conf, inputs, leftover, e);
  }

  lemma PreparedIsModest(conf: Conf, inputs: Inputs, leftover: Request, e: Env)
    ensures Modest(Prepared(conf, inputs, leftover, e).fx, inputs.extMonCount)
    ensures Prepared(conf, inputs, leftover, e).inputs.extMonCount == inputs.extMonCount
  {
    hide BatteryLowActionFor;
  }

  /** The baseline moves exactly with a pass handled outside Suspending. */
  lemma StepMovesBaseline(s: Sys, a: Action)
    requires Enabled(s, a)
    ensures Next(s, a).d.m.lastCursor ==
      if a.Handle? && s.queue[0].ReconcileTick? && s.d.m.state != Suspending then s.queue[0].snap.cursor
      else s.d.m.lastCursor
  {
    hide Reconciled, Reasserted, FellThrough, Modest, OnEnter;
    if a.Handle? {
      if s.queue[0].ReconcileTick? {
        TickShape(s.d.(fx := []), s.queue[0].snap, a.e);
      } else {
        OthersLightNothing(s.d.(fx := []), s.queue[0], a.e);
      }
    }
  }

  /** Outputs are lit only by a pass that saw one dark, in a state that shows something. On a locked
      session the pass before it was dark as well and saw the cursor elsewhere; a position from an
      earlier dark episode never counts. */
  lemma LightsOnlyWhatNobodyOwns(run: Run, i: nat)
    requires run.Valid() && i < |run.actions| && DpmsOn in run.states[i + 1].d.fx
    requires forall k | 0 <= k < i && HandlesPass(run, k) :: Gathered(run.states[k].queue[0].snap)
    ensures HandlesPass(run, i)
    ensures run.states[i].queue[0].snap.dpmsOff == Some(true) && Shows(run.states[i + 1].d.m.state)
    ensures run.states[i + 1].d.inputs.locked ==>
      && LastPass(run, i).Some?
      && LastPass(run, i).value.dpmsOff == Some(true)
      && CursorMoved(LastPass(run, i).value.cursor, run.states[i].queue[0].snap.cursor)
  {
    hide Reconciled, Reasserted, FellThrough, Modest;
    assert run.Steps(i);
    var s, a := run.states[i], run.actions[i];
    assert a.Handle?;
    if !s.queue[0].ReconcileTick? {
      OthersLightNothing(s.d.(fx := []), s.queue[0], a.e);
      ModestMeans(Dispatch(s.d.(fx := []), s.queue[0], a.e).fx, run.states[i + 1].d.inputs.extMonCount);
    } else {
      TickLights(s.d.(fx := []), s.queue[0].snap, a.e);
      TickShape(s.d.(fx := []), s.queue[0].snap, a.e);
      BaselineIsTheLastPass(run, i);
      LastPassIsHandled(run, i);
    }
  }

  lemma {:induction false} LastPassIsHandled(run: Run, n: nat)
    requires run.Valid() && n < |run.states|
    ensures LastPass(run, n).Some? ==>
      exists k :: 0 <= k < n && HandlesPass(run, k) && run.states[k].queue[0].snap == LastPass(run, n).value
  {
    if n > 0 && !HandlesPass(run, n - 1) {
      LastPassIsHandled(run, n - 1);
    }
  }

  /** In every run, startup included, the internal panel is asked to go off only while an external
      monitor is counted. */
  lemma TheLastPanelStaysOn(run: Run, n: nat)
    requires run.Valid() && n < |run.states| && PanelSet(false) in run.states[n].d.fx
    ensures run.states[n].d.inputs.extMonCount > 0
  {
    if n == 0 {
      BootIsModest(run.conf, run.inputs, run.leftover, run.boot);
    } else {
      hide Reconciled, Reasserted, FellThrough, Modest;
      assert run.Steps(n - 1);
      var s, a := run.states[n - 1], run.actions[n - 1];
      assert a.Handle?;
      if s.queue[0].ReconcileTick? {
        TickLights(s.d.(fx := []), s.queue[0].snap, a.e);
      } else {
        OthersLightNothing(s.d.(fx := []), s.queue[0], a.e);
        ModestMeans(run.states[n].d.fx, run.states[n].d.inputs.extMonCount);
      }
    }
  }
}
