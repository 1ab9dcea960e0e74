/** The suspend request: the flag in the context against the file every other program reads. */
module RequestFile {
  import opened Fsm
  import opened Suspend
  import opened SuspendRuns
  import opened SuspendSafety

  /** A notification that no longer says what the file says. */
  predicate StaleNotice(d: Daemon, ev: Event) {
    ev.SuspendRequestChanged? && ev.standing != (d.file != Absent)
  }

  /** A wake that could not remove the request it found. */
  predicate StuckFile(d: Daemon, ev: Event, e: Env) {
    ev.Resumed? && d.file != Absent && !e.removeOk
  }

  /** The flag and the file after the machine has run are those it was given. */
  lemma DispatchRequest(d: Daemon, ev: Event, e: Env)
    requires d.fx == []
    ensures var r := Dispatch(d, ev, e);
      var a := if ev.ReconcileTick? then RepairInputs(d, ev.snap, e) else Absorb(d, ev, e).0;
      r.file == a.file && r.inputs.suspendRequested == a.inputs.suspendRequested
  {
    hide EvaluateFsms, OnEnter, Reconciled, RepairInputs, RepairAndDrive;
    if ev.ReconcileTick? {
      TickShape(d, ev.snap, e);
    } else if ev.ConfigReloaded? || ev.ProfileApplied? {
      if d.m.state != Suspending {
        OnEnterShape(d.m.state, Reassert, AdoptProfile(d, e), e);
      }
    } else if !ev.MonitorsChanged? {
      AbsorbShape(d, ev, e);
      EvaluateShape(Absorb(d, ev, e).0, Kind(ev), e);
    }
  }

  lemma BatteryCheckKeepsAgreement(d: Daemon, e: Env)
    requires d.Agrees()
    ensures BatteryLowCheck(d, e).0.Agrees()
    ensures d.file == Idle ==> BatteryLowCheck(d, e).0.file == Idle
  {
  }

  /** Every tick ends in agreement, whatever it found. */
  lemma TickRestoresAgreement(d: Daemon, snap: Snapshot, e: Env)
    requires d.fx == []
    ensures Dispatch(d, ReconcileTick(snap), e).Agrees()
  {
    DispatchRequest(d, ReconcileTick(snap), e);
    var i := Repaired(d.conf.lidPresent, d.inputs, snap, d.file != Absent);
    BatteryCheckKeepsAgreement(d.(inputs := i.(onAcSettled := i.onAc)), e);
  }

  /** The battery-low check runs on this event, with the inputs it brings. */
  predicate ChecksBattery(ev: Event) {
    ev.AcChanged? || ev.PowerAcSettled? || ev.BatteryPercent?
  }

  lemma BatteryEventsKeepAgreement(d: Daemon, ev: Event, e: Env)
    requires d.Agrees() && ChecksBattery(ev)
    ensures Absorb(d, ev, e).0.Agrees()
    ensures d.file == Idle ==> Absorb(d, ev, e).0.file == Idle
  {
    var i := d.inputs;
    match ev
    case AcChanged(plugged) => BatteryCheckKeepsAgreement(d.(inputs := i.(onAc := plugged)), e);
    case PowerAcSettled => BatteryCheckKeepsAgreement(d.(inputs := i.(onAcSettled := i.onAc)), e);
    case BatteryPercent(pct) =>
      var low := BatteryLowStep(i.lowBattery, pct, d.conf.batteryLowPct);
      BatteryCheckKeepsAgreement(d.(inputs := i.(lowBattery := low)), e);
  }

  lemma AbsorbKeepsAgreement(d: Daemon, ev: Event, e: Env)
    requires d.Agrees()
    ensures Absorb(d, ev, e).0.Agrees() <==> !StaleNotice(d, ev) && !StuckFile(d, ev, e)
    ensures d.file == Idle ==> (Absorb(d, ev, e).0.file != Idle <==> ev.Resumed? && e.removeOk)
  {
    hide Absorb;
    if ChecksBattery(ev) {
      BatteryEventsKeepAgreement(d, ev, e);
    } else {
      OtherEventsKeepAgreement(d, ev, e);
    }
  }

  lemma OtherEventsKeepAgreement(d: Daemon, ev: Event, e: Env)
    requires d.Agrees() && !ChecksBattery(ev)
    ensures Absorb(d, ev, e).0.Agrees() <==> !StaleNotice(d, ev) && !StuckFile(d, ev, e)
    ensures d.file == Idle ==> (Absorb(d, ev, e).0.file != Idle <==> ev.Resumed? && e.removeOk)
  {
    hide Absorb;
    if ev.Resumed? {
      AfterResume(d, e);
    } else if ev.SuspendRequestChanged? {
      AfterNotice(d, ev.standing, e);
    } else if ev.TimerExpired? {
      AfterExpiry(d, e);
    } else {
      OthersLeaveTheRequest(d, ev, e);
    }
  }

  lemma AfterResume(d: Daemon, e: Env)
    ensures var r := Absorb(d, Resumed, e).0;
      r.file == (if e.removeOk then Absent else d.file) && !r.inputs.suspendRequested
  {
  }

  lemma AfterNotice(d: Daemon, standing: bool, e: Env)
    ensures var r := Absorb(d, SuspendRequestChanged(standing), e).0;
      r.file == d.file && r.inputs.suspendRequested == standing
  {
  }

  lemma AfterExpiry(d: Daemon, e: Env)
    ensures var r := Absorb(d, TimerExpired, e).0;
      r.file == d.file && r.inputs.suspendRequested == (d.inputs.suspendRequested && d.file != Absent)
  {
  }

  lemma OthersLeaveTheRequest(d: Daemon, ev: Event, e: Env)
    requires !ChecksBattery(ev) && !ev.Resumed? && !ev.SuspendRequestChanged? && !ev.TimerExpired?
    ensures var r := Absorb(d, ev, e).0;
      r.file == d.file && r.inputs.suspendRequested == d.inputs.suspendRequested
  {
    hide BatteryLowCheck, BatteryLowStep, ClearRequest;
  }

  /** From agreement, a dispatch loses it exactly by delivering a stale notification or by waking with
      a file it cannot remove; and only a wake removes or rewrites somebody else's request. */
  lemma DispatchKeepsAgreement(d: Daemon, ev: Event, e: Env)
    requires d.fx == [] && d.Agrees()
    ensures Dispatch(d, ev, e).Agrees() <==> !StaleNotice(d, ev) && !StuckFile(d, ev, e)
    ensures d.file == Idle ==> (Dispatch(d, ev, e).file != Idle <==> ev.Resumed? && e.removeOk)
  {
    DispatchRequest(d, ev, e);
    if ev.ReconcileTick? {
      TickRestoresAgreement(d, ev.snap, e);
      var i := Repaired(d.conf.lidPresent, d.inputs, ev.snap, d.file != Absent);
      BatteryCheckKeepsAgreement(d.(inputs := i.(onAcSettled := i.onAc)), e);
    } else {
      AbsorbKeepsAgreement(d, ev, e);
    }
  }

  /** The battery-low check runs on this event, and asks unless a request is known to stand. */
  predicate Asks(d: Daemon, ev: Event) {
    var i := d.inputs;
    match ev
    case BatteryPercent(pct) =>
      BatteryLowStep(i.lowBattery, pct, d.conf.batteryLowPct) && !i.onAc && !i.onAcSettled
    case PowerAcSettled => i.lowBattery && !i.onAc
    case AcChanged(plugged) => i.onAc && !plugged && i.lowBattery && !i.onAcSettled
    case _ => false
  }

  /** Whatever the context knows: an idle request is lost exactly to a wake that removes it, or to a
      battery-low request written over one the context has not heard of. */
  lemma IdleRequestIsLostExactlyWhen(d: Daemon, ev: Event, e: Env)
    requires d.fx == [] && d.file == Idle
    ensures Dispatch(d, ev, e).file ==
      if ev.Resumed? && e.removeOk then Absent
      else if !d.inputs.suspendRequested && Asks(d, ev) && e.writeOk then BatteryLow
      else Idle
  {
    hide Dispatch;
    DispatchRequest(d, ev, e);
  }

  /** What was overwritten the daemon takes for its own: plugging in next removes it. */
  lemma OverwrittenRequestIsWithdrawn(d: Daemon, ev: Event, e: Env, later: Env)
    requires d.fx == [] && d.file == Idle && !d.inputs.suspendRequested && Asks(d, ev) && e.writeOk && later.removeOk
    ensures var r := Dispatch(d, ev, e).(fx := []);
      && r.file == BatteryLow
      && Dispatch(r, AcChanged(true), later).file == Absent
      && !Dispatch(r, AcChanged(true), later).inputs.suspendRequested
  {
    hide EvaluateFsms, Reconciled, Reasserted;
    IdleRequestIsLostExactlyWhen(d, ev, e);
    var d1 := Absorb(d, ev, e).0;
    AbsorbShape(d, ev, e);
    EvaluateShape(d1, Kind(ev), e);
    var r := Dispatch(d, ev, e).(fx := []);
    DispatchRequest(r, AcChanged(true), later);
  }

  /** Once a check's write or removal has succeeded, a second check holds; and nothing but a low battery
      off the charger stands in the file as the daemon's own. */
  lemma CheckSettles(d: Daemon, e: Env, later: Env)
    requires d.Agrees() && e.writeOk && e.removeOk
    ensures var r := BatteryLowCheck(d, e).0;
      && BatteryLowCheck(r, later) == (r, false)
      && (r.file == BatteryLow ==> r.inputs.lowBattery && !r.inputs.onAc)
      && (r.inputs.lowBattery && !r.inputs.onAc && !r.inputs.onAcSettled ==> r.file != Absent)
  {
  }

  /** Plugging in withdraws the daemon's own request at once: afterwards only the lid or somebody
      else's request can be counting down. */
  lemma PlugInWithdraws(d: Daemon, e: Env)
    requires d.fx == [] && d.Agrees() && !d.inputs.onAc && e.removeOk
    ensures var r := Dispatch(d, AcChanged(true), e);
      && r.Agrees()
      && r.file == (if d.file == BatteryLow then Absent else d.file)
      && (d.m.state != Suspending ==>
            (r.m.state == Countdown <==> !ClaimGoverns(r.W()) && (r.file == Idle || LidReason(r.W()))))
  {
    DispatchKeepsAgreement(d, AcChanged(true), e);
    DispatchRequest(d, AcChanged(true), e);
    if d.m.state != Suspending {
      DrivenDispatchConverges(d, AcChanged(true), e);
      OthersNeverSuspend(d, AcChanged(true), e);
    }
  }

  // ---- every run ----

  /** Step `k` leaves the request alone: nobody else touches the file, no stale notice lands, and a wake
      removes what it finds. */
  ghost predicate Undisturbed(run: Run, k: nat)
    requires run.Valid() && k < |run.actions|
  {
    match run.actions[k]
    case OthersWrite(file) => file == run.states[k].d.file
    case Handle(e) =>
      run.states[k].queue != []
      && !StaleNotice(run.states[k].d, run.states[k].queue[0]) && !StuckFile(run.states[k].d, run.states[k].queue[0], e)
    case _ => true
  }

  /** A leftover request that startup could not remove. */
  predicate StuckAtBoot(inputs: Inputs, leftover: Request, e: Env) {
    leftover != Absent && !e.removeOk && !(inputs.lowBattery && !inputs.onAc && !inputs.onAcSettled && e.writeOk)
  }

  /** Startup ends in agreement exactly when it removed what it found, or asked for a suspend itself. */
  lemma BootAgreesExactlyWhen(conf: Conf, inputs: Inputs, leftover: Request, e: Env)
    ensures Boot(conf, inputs, leftover, e).d.Agrees() <==> !StuckAtBoot(inputs, leftover, e)
  {
    hide Boot, Prepared, SuspendIn;
    PreparedAgreesExactlyWhen(conf, inputs, leftover, e);
    BootShape(conf, inputs, leftover, e);
  }

  lemma PreparedAgreesExactlyWhen(conf: Conf, inputs: Inputs, leftover: Request, e: Env)
    ensures Prepared(conf, inputs, leftover, e).Agrees() <==> !StuckAtBoot(inputs, leftover, e)
  {
  }

  ghost predicate TicksAt(run: Run, k: nat)
    requires run.Valid() && k < |run.actions|
  {
    run.actions[k].Handle? && run.states[k].queue != [] && run.states[k].queue[0].ReconcileTick?
  }

  /** From startup, and from any reconcile tick, flag and file agree for as long as the steps between
      are undisturbed. */
  lemma {:induction false} AgreementHoldsUntilDisturbed(run: Run, i: nat, j: nat)
    requires run.Valid() && i <= j < |run.states|
    requires if i == 0 then !StuckAtBoot(run.inputs, run.leftover, run.boot) else TicksAt(run, i - 1)
    requires forall k | i <= k < j :: Undisturbed(run, k)
    ensures run.states[j].d.Agrees()
  {
    if j == 0 {
      BootAgreesExactlyWhen(run.conf, run.inputs, run.leftover, run.boot);
    } else {
      assert run.Steps(j - 1);
      var s, a := run.states[j - 1], run.actions[j - 1];
      if i == j {
        TickRestoresAgreement(s.d.(fx := []), s.queue[0].snap, a.e);
      } else {
        AgreementHoldsUntilDisturbed(run, i, j - 1);
        assert Undisturbed(run, j - 1);
        if a.Handle? {
          DispatchKeepsAgreement(s.d.(fx := []), s.queue[0], a.e);
        }
      }
    }
  }
}
