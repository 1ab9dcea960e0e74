/** What one dispatch comes to, in the plain terms of the context: the inputs each event writes, the request
    and its file, the state, the timers, the panel and the media. Nothing here mentions how the dispatch
    is put together. */
module Transitions {
  import opened Prelude
  import opened Fsm
  import opened Suspend
  import opened SuspendRuns
  import opened SuspendSafety
  import opened RequestFile

  // ---- the inputs ----

  /** The seat: lid, monitors and lock. The lid exists only where the configuration says so. */
  lemma SeatAfter(d: Daemon, ev: Event, e: Env)
    requires d.fx == []
    ensures var r, i := Dispatch(d, ev, e).inputs, d.inputs;
      && r.lidClosed == (
           if !d.conf.lidPresent then i.lidClosed
           else match ev case Lid(closed) => closed case ReconcileTick(snap) => snap.lidClosed case _ => i.lidClosed)
      && r.extMonCount == (
           match ev
           case MonitorHotplug(_) => e.monitors
           case ReconcileTick(snap) => snap.extMonCount
           case _ => i.extMonCount)
      && r.locked == (
           match ev
           case LockChanged(now) => now
           case ReconcileTick(snap) => snap.locked.GetOr(i.locked)
           case _ => i.locked)
  {
    DispatchInputs(d, ev, e);
    hide Dispatch;
    if ev.ReconcileTick? {
      RepairedInputs(d, ev.snap, e);
    } else {
      AbsorbedSeat(d, ev, e);
    }
  }

  /** The keep-awake claims. A Wayland claim is sampled when the lid closes and when a request arrives. */
  lemma ClaimsAfter(d: Daemon, ev: Event, e: Env)
    requires d.fx == []
    ensures var r, i := Dispatch(d, ev, e).inputs, d.inputs;
      && r.logindInhibitor == (
           match ev
           case Inhibitor(wayland, active) => if wayland then i.logindInhibitor else active
           case ReconcileTick(snap) => snap.logindInhibitor
           case _ => i.logindInhibitor)
      && r.waylandInhibitor == (
           match ev
           case Inhibitor(wayland, active) => if wayland then active else i.waylandInhibitor
           case Lid(closed) =>
              if closed && d.conf.lidPresent then e.claim.GetOr(i.waylandInhibitor) else i.waylandInhibitor
           case SuspendRequestChanged(standing) =>
              if standing then e.claim.GetOr(i.waylandInhibitor) else i.waylandInhibitor
           case ReconcileTick(snap) => snap.waylandInhibitor.GetOr(i.waylandInhibitor)
           case _ => i.waylandInhibitor)
  {
    DispatchInputs(d, ev, e);
    hide Dispatch;
    if ev.ReconcileTick? {
      RepairedInputs(d, ev.snap, e);
    } else {
      AbsorbedClaims(d, ev, e);
    }
  }

  /** The charger and the battery. The settled axis follows the raw one when it has settled, when powerd
      appears, and when a tick repairs a power input. */
  lemma PowerAfter(d: Daemon, ev: Event, e: Env)
    requires d.fx == []
    ensures var r, i := Dispatch(d, ev, e).inputs, d.inputs;
      && r.onAc == (
           match ev
           case AcChanged(plugged) => plugged
           case ReconcileTick(snap) => snap.onAc.GetOr(i.onAc)
           case _ => i.onAc)
      && r.onAcSettled == (
           match ev
           case PowerAcSettled => i.onAc
           case PowerdAppeared => i.onAc
           case ReconcileTick(snap) =>
             if snap.extMonCount != i.extMonCount || snap.onAc.GetOr(i.onAc) != i.onAc then r.onAc else i.onAcSettled
           case _ => i.onAcSettled)
      && r.lowBattery == (
           match ev
           case BatteryPercent(pct) =>
             if i.lowBattery then pct < (d.conf.batteryLowPct + 3) as real else pct <= d.conf.batteryLowPct as real
           case _ => i.lowBattery)
  {
    DispatchInputs(d, ev, e);
    hide Dispatch;
    if ev.ReconcileTick? {
      RepairedInputs(d, ev.snap, e);
    } else {
      AbsorbedPower(d, ev, e);
    }
  }

  /** The panel policy is that of the profile found by whatever re-reads it; a suspending daemon reads none
      but the monitors'. */
  lemma PolicyAfter(d: Daemon, ev: Event, e: Env)
    requires d.fx == []
    ensures Dispatch(d, ev, e).inputs.edpPolicy ==
      if ev.MonitorsChanged?
         || (d.m.state != Suspending && (ev.ConfigReloaded? || ev.ProfileApplied? || ev.ReconcileTick?))
      then e.profile.GetOr(d.inputs.edpPolicy) else d.inputs.edpPolicy
  {
    hide EvaluateFsms, OnEnter, RepairInputs, EnforcePanel, RepairDpms;
    if ev.ReconcileTick? {
      TickPolicy(d, ev.snap, e);
    } else if ev.ConfigReloaded? || ev.ProfileApplied? {
      if d.m.state != Suspending {
        OnEnterShape(d.m.state, Reassert, AdoptProfile(d, e), e);
      }
    } else if !ev.MonitorsChanged? {
      AbsorbShape(d, ev, e);
      AbsorbWrites(d, ev, e);
      EvaluateShape(Absorb(d, ev, e).0, Kind(ev), e);
    }
  }

  lemma TickPolicy(d: Daemon, snap: Snapshot, e: Env)
    requires d.fx == []
    ensures Reconciled(d, snap, e).inputs.edpPolicy ==
      if d.m.state != Suspending then e.profile.GetOr(d.inputs.edpPolicy) else d.inputs.edpPolicy
  {
    hide EvaluateFsms, RepairInputs, EnforcePanel, RepairDpms;
    RepairShape(d, snap, e);
    RepairedPolicy(d, snap, e);
    EvaluateShape(RepairInputs(d, snap, e), CtxRepaired, e);
    var d2 := AdoptProfile(RepairAndDrive(d, snap, e), e);
    PanelShape(d2, snap.edpDisabled);
    DpmsShape(EnforcePanel(d2, snap.edpDisabled), snap);
  }

  lemma RepairedPolicy(d: Daemon, snap: Snapshot, e: Env)
    ensures RepairInputs(d, snap, e).inputs.edpPolicy == d.inputs.edpPolicy
  {
  }

  /** The machine writes no input but the panel policy. */
  lemma DispatchInputs(d: Daemon, ev: Event, e: Env)
    requires d.fx == []
    ensures var r := Dispatch(d, ev, e);
      var a := if ev.ReconcileTick? then RepairInputs(d, ev.snap, e) else Absorb(d, ev, e).0;
      r.inputs.(edpPolicy := a.inputs.edpPolicy) == a.inputs && r.file == a.file && r.conf == d.conf
  {
    hide EvaluateFsms, OnEnter, Reconciled, RepairInputs, Absorb, Reasserted, FellThrough;
    if ev.ReconcileTick? {
      TickShape(d, ev.snap, e);
      RepairShape(d, ev.snap, e);
    } else if ev.ConfigReloaded? || ev.ProfileApplied? {
      ReassertInputs(d, e);
      AbsorbNothing(d, ev, e);
    } else if ev.MonitorsChanged? {
      AbsorbNothing(d, ev, e);
    } else {
      FallThroughInputs(d, ev, e);
    }
  }

  lemma FallThroughInputs(d: Daemon, ev: Event, e: Env)
    requires d.fx == [] && !ev.ReconcileTick?
    ensures var r, a := FellThrough(d, ev, e), Absorb(d, ev, e).0;
      r.inputs == a.inputs && r.file == a.file && r.conf == d.conf
  {
    hide EvaluateFsms, Absorb, Kind;
    AbsorbShape(d, ev, e);
    EvaluateShape(Absorb(d, ev, e).0, Kind(ev), e);
  }

  lemma ReassertInputs(d: Daemon, e: Env)
    requires d.fx == []
    ensures var r := Reasserted(d, e);
      r.inputs.(edpPolicy := d.inputs.edpPolicy) == d.inputs && r.file == d.file && r.conf == d.conf
  {
    hide OnEnter;
    if d.m.state != Suspending {
      OnEnterShape(d.m.state, Reassert, AdoptProfile(d, e), e);
    }
  }

  lemma RepairedInputs(d: Daemon, snap: Snapshot, e: Env)
    ensures var r, i := RepairInputs(d, snap, e).inputs, d.inputs;
      && r.lidClosed == (if d.conf.lidPresent then snap.lidClosed else i.lidClosed)
      && r.extMonCount == snap.extMonCount && r.locked == snap.locked.GetOr(i.locked)
      && r.logindInhibitor == snap.logindInhibitor
      && r.waylandInhibitor == snap.waylandInhibitor.GetOr(i.waylandInhibitor)
      && r.onAc == snap.onAc.GetOr(i.onAc) && r.lowBattery == i.lowBattery
      && r.onAcSettled == if snap.extMonCount != i.extMonCount || r.onAc != i.onAc then r.onAc else i.onAcSettled
  {
    hide RepairInputs, Repaired;
    var i := Repaired(d.conf.lidPresent, d.inputs, snap, d.file != Absent);
    RepairedFields(d.conf.lidPresent, d.inputs, snap, d.file != Absent);
    RepairSettles(d, snap, e, i);
  }

  lemma RepairedFields(lidPresent: bool, i: Inputs, snap: Snapshot, standing: bool)
    ensures var r := Repaired(lidPresent, i, snap, standing);
      && r.lidClosed == (if lidPresent then snap.lidClosed else i.lidClosed)
      && r.extMonCount == snap.extMonCount && r.locked == snap.locked.GetOr(i.locked)
      && r.logindInhibitor == snap.logindInhibitor
      && r.waylandInhibitor == snap.waylandInhibitor.GetOr(i.waylandInhibitor)
      && r.onAc == snap.onAc.GetOr(i.onAc) && r.lowBattery == i.lowBattery && r.onAcSettled == i.onAcSettled
      && r.suspendRequested == standing && r.edpPolicy == i.edpPolicy
  {
  }

  lemma RepairSettles(d: Daemon, snap: Snapshot, e: Env, i: Inputs)
    requires i == Repaired(d.conf.lidPresent, d.inputs, snap, d.file != Absent)
    ensures RepairInputs(d, snap, e).inputs.(suspendRequested := i.suspendRequested) ==
      if d.inputs.extMonCount != i.extMonCount || d.inputs.onAc != i.onAc then i.(onAcSettled := i.onAc) else i
  {
    hide Repaired, BatteryLowCheck;
    CheckKeepsTheRest(d.(inputs := i.(onAcSettled := i.onAc)), e);
  }

  lemma CheckKeepsTheRest(d: Daemon, e: Env)
    ensures BatteryLowCheck(d, e).0.inputs.(suspendRequested := d.inputs.suspendRequested) == d.inputs
  {
  }

  lemma AbsorbedSeat(d: Daemon, ev: Event, e: Env)
    requires !ev.ReconcileTick?
    ensures var r, i := Absorb(d, ev, e).0.inputs, d.inputs;
      && r.lidClosed == (if ev.Lid? && d.conf.lidPresent then ev.closed else i.lidClosed)
      && r.extMonCount == (if ev.MonitorHotplug? then e.monitors else i.extMonCount)
      && r.locked == (if ev.LockChanged? then ev.nowLocked else i.locked)
  {
    AbsorbWrites(d, ev, e);
    hide Absorb;
  }

  lemma AbsorbedClaims(d: Daemon, ev: Event, e: Env)
    requires !ev.ReconcileTick?
    ensures var r, i := Absorb(d, ev, e).0.inputs, d.inputs;
      && r.logindInhibitor == (if ev.Inhibitor? && !ev.wayland then ev.active else i.logindInhibitor)
      && r.waylandInhibitor == (
           if ev.Inhibitor? && ev.wayland then ev.active
           else if (ev.Lid? && ev.closed && d.conf.lidPresent) || (ev.SuspendRequestChanged? && ev.standing)
           then e.claim.GetOr(i.waylandInhibitor)
           else i.waylandInhibitor)
  {
    AbsorbWrites(d, ev, e);
    hide Absorb;
  }

  lemma AbsorbedPower(d: Daemon, ev: Event, e: Env)
    requires !ev.ReconcileTick?
    ensures var r, i := Absorb(d, ev, e).0.inputs, d.inputs;
      && r.onAc == (if ev.AcChanged? then ev.plugged else i.onAc)
      && r.onAcSettled == (if ev.PowerAcSettled? || ev.PowerdAppeared? then i.onAc else i.onAcSettled)
      && r.lowBattery == (
           if ev.BatteryPercent? then
             if i.lowBattery then ev.pct < (d.conf.batteryLowPct + 3) as real
             else ev.pct <= d.conf.batteryLowPct as real
           else i.lowBattery)
  {
    AbsorbWrites(d, ev, e);
    hide Absorb;
  }

  /** What an event writes besides the request, by the part of the context it belongs to. */
  lemma AbsorbWrites(d: Daemon, ev: Event, e: Env)
    requires !ev.ReconcileTick?
    ensures var r, i := Absorb(d, ev, e).0.inputs, d.inputs;
      && r.lidClosed == (if ev.Lid? && d.conf.lidPresent then ev.closed else i.lidClosed)
      && r.extMonCount == (if ev.MonitorHotplug? then e.monitors else i.extMonCount)
      && r.locked == (if ev.LockChanged? then ev.nowLocked else i.locked)
      && r.logindInhibitor == (if ev.Inhibitor? && !ev.wayland then ev.active else i.logindInhibitor)
      && r.waylandInhibitor == (
           if ev.Inhibitor? && ev.wayland then ev.active
           else if (ev.Lid? && ev.closed && d.conf.lidPresent) || (ev.SuspendRequestChanged? && ev.standing)
           then e.claim.GetOr(i.waylandInhibitor)
           else i.waylandInhibitor)
      && r.onAc == (if ev.AcChanged? then ev.plugged else i.onAc)
      && r.onAcSettled == (if ev.PowerAcSettled? || ev.PowerdAppeared? then i.onAc else i.onAcSettled)
      && r.lowBattery == (
           if ev.BatteryPercent? then
             if i.lowBattery then ev.pct < (d.conf.batteryLowPct + 3) as real
             else ev.pct <= d.conf.batteryLowPct as real
           else i.lowBattery)
      && r.edpPolicy == i.edpPolicy
  {
    hide Absorb;
    match ev
    case Lid(closed) => AbsorbLid(d, closed, e);
    case MonitorHotplug(_) => AbsorbHotplug(d, ev, e);
    case Inhibitor(wayland, active) => AbsorbClaim(d, wayland, active, e);
    case LockChanged(now) => AbsorbLock(d, now, e);
    case AcChanged(plugged) => AbsorbAc(d, plugged, e);
    case PowerAcSettled => AbsorbSettled(d, e);
    case PowerdAppeared => AbsorbPowerd(d, e);
    case BatteryPercent(pct) => AbsorbPercent(d, pct, e);
    case SuspendRequestChanged(standing) => AbsorbNotice(d, standing, e);
    case TimerExpired => AbsorbRequestOnly(d, ev, e);
    case Resumed => AbsorbRequestOnly(d, ev, e);
    case _ => AbsorbNothing(d, ev, e);
  }

  lemma AbsorbLid(d: Daemon, closed: bool, e: Env)
    ensures Absorb(d, Lid(closed), e).0.inputs ==
      if !d.conf.lidPresent then d.inputs
      else if closed then d.inputs.(lidClosed := true, waylandInhibitor := e.claim.GetOr(d.inputs.waylandInhibitor))
      else d.inputs.(lidClosed := false)
  {
  }

  lemma AbsorbHotplug(d: Daemon, ev: Event, e: Env)
    requires ev.MonitorHotplug?
    ensures Absorb(d, ev, e).0.inputs == d.inputs.(extMonCount := e.monitors)
  {
  }

  lemma AbsorbClaim(d: Daemon, wayland: bool, active: bool, e: Env)
    ensures Absorb(d, Inhibitor(wayland, active), e).0.inputs ==
      if wayland then d.inputs.(waylandInhibitor := active) else d.inputs.(logindInhibitor := active)
  {
  }

  lemma AbsorbLock(d: Daemon, now: bool, e: Env)
    ensures Absorb(d, LockChanged(now), e).0.inputs == d.inputs.(locked := now)
  {
  }

  lemma AbsorbAc(d: Daemon, plugged: bool, e: Env)
    ensures var r := Absorb(d, AcChanged(plugged), e).0.inputs;
      r.(suspendRequested := d.inputs.suspendRequested) == d.inputs.(onAc := plugged)
  {
    hide BatteryLowCheck;
    if plugged == d.inputs.onAc {
      assert d.inputs.(onAc := plugged) == d.inputs;
    } else {
      CheckKeepsTheRest(d.(inputs := d.inputs.(onAc := plugged)), e);
    }
  }

  lemma AbsorbSettled(d: Daemon, e: Env)
    ensures var r := Absorb(d, PowerAcSettled, e).0.inputs;
      r.(suspendRequested := d.inputs.suspendRequested) == d.inputs.(onAcSettled := d.inputs.onAc)
  {
    hide BatteryLowCheck;
    CheckKeepsTheRest(d.(inputs := d.inputs.(onAcSettled := d.inputs.onAc)), e);
  }

  lemma AbsorbPowerd(d: Daemon, e: Env)
    ensures Absorb(d, PowerdAppeared, e).0.inputs == d.inputs.(onAcSettled := d.inputs.onAc)
  {
  }

  lemma AbsorbPercent(d: Daemon, pct: real, e: Env)
    ensures var r, low := Absorb(d, BatteryPercent(pct), e).0.inputs, d.inputs.lowBattery;
      r.(suspendRequested := d.inputs.suspendRequested) ==
        d.inputs.(lowBattery :=
          if low then pct < (d.conf.batteryLowPct + 3) as real else pct <= d.conf.batteryLowPct as real)
  {
    hide BatteryLowCheck, BatteryLowStep;
    var low := BatteryLowStep(d.inputs.lowBattery, pct, d.conf.batteryLowPct);
    CheckKeepsTheRest(d.(inputs := d.inputs.(lowBattery := low)), e);
    LatchInNumbers(d.inputs.lowBattery, pct, d.conf.batteryLowPct);
  }

  lemma LatchInNumbers(low: bool, pct: real, threshold: nat)
    ensures BatteryLowStep(low, pct, threshold) ==
      if low then pct < (threshold + 3) as real else pct <= threshold as real
  {
  }

  lemma AbsorbNotice(d: Daemon, standing: bool, e: Env)
    ensures Absorb(d, SuspendRequestChanged(standing), e).0.inputs ==
      if standing then d.inputs.(suspendRequested := true, waylandInhibitor := e.claim.GetOr(d.inputs.waylandInhibitor))
      else d.inputs.(suspendRequested := false)
  {
  }

  lemma AbsorbRequestOnly(d: Daemon, ev: Event, e: Env)
    requires ev.TimerExpired? || ev.Resumed?
    ensures var r := Absorb(d, ev, e).0.inputs;
      r == d.inputs || r == d.inputs.(suspendRequested := false)
  {
  }

  lemma AbsorbNothing(d: Daemon, ev: Event, e: Env)
    requires match ev
      case ConfigReloaded => true case ProfileApplied => true case MonitorsChanged => true case ProfilesChanged => true
      case PlatformProfileChanged => true case GpuOverrideChanged => true case PowerOverrideChanged => true
      case BacklightHotplug => true case GoingToSleep => true case Keyboard => true case ReconcileTick(_) => true
      case _ => false
    ensures Absorb(d, ev, e).0 == d
  {
  }

  // ---- the request and its file ----

  /** The flag before any battery-low check of this event. */
  function Heard(d: Daemon, ev: Event): bool {
    match ev
    case Resumed => false
    case SuspendRequestChanged(standing) => standing
    case TimerExpired => d.inputs.suspendRequested && d.file != Absent
    case ReconcileTick(_) => d.file != Absent
    case _ => d.inputs.suspendRequested
  }

  /** The events that run the battery-low check. */
  predicate Checks(d: Daemon, ev: Event) {
    match ev
    case AcChanged(plugged) => plugged != d.inputs.onAc
    case PowerAcSettled => true
    case BatteryPercent(_) => true
    case ReconcileTick(snap) =>
      snap.extMonCount != d.inputs.extMonCount || snap.onAc.GetOr(d.inputs.onAc) != d.inputs.onAc
    case _ => false
  }

  predicate Requests(d: Daemon, ev: Event, e: Env, now: Inputs) {
    Checks(d, ev) && !Heard(d, ev) && now.lowBattery && !now.onAc && !now.onAcSettled && e.writeOk
  }

  predicate Withdraws(d: Daemon, ev: Event, e: Env, now: Inputs) {
    Checks(d, ev) && Heard(d, ev) && (now.onAc || !now.lowBattery) && d.file == BatteryLow && e.removeOk
  }

  /** The request flag and the request file after every event, given the charger and battery it leaves. */
  lemma RequestAfter(d: Daemon, ev: Event, e: Env)
    requires d.fx == []
    ensures var r := Dispatch(d, ev, e);
      && r.inputs.suspendRequested ==
           (Requests(d, ev, e, r.inputs) || (Heard(d, ev) && !Withdraws(d, ev, e, r.inputs)))
      && r.file ==
           if Requests(d, ev, e, r.inputs) then BatteryLow
           else if Withdraws(d, ev, e, r.inputs) || (ev.Resumed? && e.removeOk) then Absent
           else d.file
  {
    DispatchInputs(d, ev, e);
    PowerAfter(d, ev, e);
    hide Dispatch;
    if ev.ReconcileTick? {
      RepairedRequest(d, ev.snap, e);
    } else if Checks(d, ev) {
      CheckedRequest(d, ev, e);
    } else {
      UncheckedRequest(d, ev, e);
    }
  }

  lemma CheckOutcome(d: Daemon, e: Env)
    ensures var r, i := BatteryLowCheck(d, e).0, d.inputs;
      var asks := !i.suspendRequested && i.lowBattery && !i.onAc && !i.onAcSettled && e.writeOk;
      var withdraws := i.suspendRequested && (i.onAc || !i.lowBattery) && d.file == BatteryLow && e.removeOk;
      && r.inputs.suspendRequested == (asks || (i.suspendRequested && !withdraws))
      && r.file == if asks then BatteryLow else if withdraws then Absent else d.file
  {
  }

  lemma RepairedRequest(d: Daemon, snap: Snapshot, e: Env)
    ensures var r := RepairInputs(d, snap, e);
      && r.inputs.suspendRequested ==
           (Requests(d, ReconcileTick(snap), e, r.inputs)
            || (Heard(d, ReconcileTick(snap)) && !Withdraws(d, ReconcileTick(snap), e, r.inputs)))
      && r.file ==
           if Requests(d, ReconcileTick(snap), e, r.inputs) then BatteryLow
           else if Withdraws(d, ReconcileTick(snap), e, r.inputs) then Absent
           else d.file
  {
    hide BatteryLowCheck, Repaired;
    var i := Repaired(d.conf.lidPresent, d.inputs, snap, d.file != Absent);
    var d1 := d.(inputs := i.(onAcSettled := i.onAc));
    RepairedFields(d.conf.lidPresent, d.inputs, snap, d.file != Absent);
    CheckOutcome(d1, e);
    CheckKeepsTheRest(d1, e);
  }

  lemma CheckedRequest(d: Daemon, ev: Event, e: Env)
    requires Checks(d, ev) && !ev.ReconcileTick?
    ensures var r := Absorb(d, ev, e).0;
      && r.inputs.suspendRequested ==
           (Requests(d, ev, e, r.inputs) || (Heard(d, ev) && !Withdraws(d, ev, e, r.inputs)))
      && r.file ==
           if Requests(d, ev, e, r.inputs) then BatteryLow
           else if Withdraws(d, ev, e, r.inputs) then Absent
           else d.file
  {
    hide BatteryLowCheck, BatteryLowStep;
    var i := d.inputs;
    var now :=
      if ev.AcChanged? then i.(onAc := ev.plugged)
      else if ev.PowerAcSettled? then i.(onAcSettled := i.onAc)
      else i.(lowBattery := BatteryLowStep(i.lowBattery, ev.pct, d.conf.batteryLowPct));
    CheckOutcome(d.(inputs := now), e);
    CheckKeepsTheRest(d.(inputs := now), e);
  }

  lemma UncheckedRequest(d: Daemon, ev: Event, e: Env)
    requires !Checks(d, ev) && !ev.ReconcileTick?
    ensures var r := Absorb(d, ev, e).0;
      && r.inputs.suspendRequested == Heard(d, ev)
      && r.file == if ev.Resumed? && e.removeOk then Absent else d.file
  {
    hide Absorb;
    if ev.Resumed? {
      AfterResume(d, e);
    } else if ev.SuspendRequestChanged? {
      AfterNotice(d, ev.standing, e);
    } else if ev.TimerExpired? {
      AfterExpiry(d, e);
    } else if ev.AcChanged? {
      RepeatIsDropped(d, ev.plugged, e);
    } else {
      OthersLeaveTheRequest(d, ev, e);
    }
  }

  lemma RepeatIsDropped(d: Daemon, plugged: bool, e: Env)
    requires plugged == d.inputs.onAc
    ensures Absorb(d, AcChanged(plugged), e) == (d, false)
  {
  }

  // ---- every run ----

  /** What the last dispatched event that says anything about it said, else what startup knew. */
  ghost function LastSaid<T>(run: Run, n: nat, said: (Conf, Event, Env) -> Option<T>, start: T): T
    requires run.Valid() && n < |run.states|
  {
    if n == 0 then start
    else
      var before := LastSaid(run, n - 1, said, start);
      if run.actions[n - 1].Handle? && run.states[n - 1].queue != []
      then said(run.conf, run.states[n - 1].queue[0], run.actions[n - 1].e).GetOr(before) else before
  }

  function LidSaid(conf: Conf, ev: Event, e: Env): Option<bool> {
    if !conf.lidPresent then None
    else match ev case Lid(closed) => Some(closed) case ReconcileTick(snap) => Some(snap.lidClosed) case _ => None
  }

  function MonitorsSaid(conf: Conf, ev: Event, e: Env): Option<nat> {
    match ev
    case MonitorHotplug(_) => Some(e.monitors)
    case ReconcileTick(snap) => Some(snap.extMonCount)
    case _ => None
  }

  function LockSaid(conf: Conf, ev: Event, e: Env): Option<bool> {
    match ev case LockChanged(now) => Some(now) case ReconcileTick(snap) => snap.locked case _ => None
  }

  function LogindSaid(conf: Conf, ev: Event, e: Env): Option<bool> {
    match ev
    case Inhibitor(wayland, active) => if wayland then None else Some(active)
    case ReconcileTick(snap) => Some(snap.logindInhibitor)
    case _ => None
  }

  function WaylandSaid(conf: Conf, ev: Event, e: Env): Option<bool> {
    match ev
    case Inhibitor(wayland, active) => if wayland then Some(active) else None
    case Lid(closed) => if closed && conf.lidPresent then e.claim else None
    case SuspendRequestChanged(standing) => if standing then e.claim else None
    case ReconcileTick(snap) => snap.waylandInhibitor
    case _ => None
  }

  /** In every reachable state the lid, the monitor count, the lock and both claims are what was last said
      about each of them; nothing else writes them. */
  lemma {:induction false} InputsAreWhatWasLastSaid(run: Run, n: nat)
    requires run.Valid() && n < |run.states|
    ensures var i, start := run.states[n].d.inputs, run.inputs;
      && i.lidClosed == LastSaid(run, n, LidSaid, start.lidClosed)
      && i.extMonCount == LastSaid(run, n, MonitorsSaid, start.extMonCount)
      && i.locked == LastSaid(run, n, LockSaid, start.locked)
      && i.logindInhibitor == LastSaid(run, n, LogindSaid, start.logindInhibitor)
      && i.waylandInhibitor == LastSaid(run, n, WaylandSaid, start.waylandInhibitor)
    ensures run.states[n].d.conf == run.conf
  {
    hide Next, Enabled, Boot, LidSaid, MonitorsSaid, LockSaid, LogindSaid, WaylandSaid;
    if n == 0 {
      BootSeesTheInputs(run);
    } else {
      InputsAreWhatWasLastSaid(run, n - 1);
      assert run.Steps(n - 1);
      StepSees(run.states[n - 1], run.actions[n - 1]);
      HandledHasEvent(run, n - 1);
    }
  }

  lemma HandledHasEvent(run: Run, k: nat)
    requires run.Valid() && k < |run.actions|
    ensures run.actions[k].Handle? ==> run.states[k].queue != []
  {
    hide Next;
    assert run.Steps(k);
  }

  lemma BootSeesTheInputs(run: Run)
    requires run.Valid()
    ensures var i, start := run.states[0].d.inputs, run.inputs;
      && i.lidClosed == start.lidClosed && i.extMonCount == start.extMonCount && i.locked == start.locked
      && i.logindInhibitor == start.logindInhibitor && i.waylandInhibitor == start.waylandInhibitor
    ensures run.states[0].d.conf == run.conf
  {
    hide Prepared;
    BootShape(run.conf, run.inputs, run.leftover, run.boot);
    PreparedSees(run.conf, run.inputs, run.leftover, run.boot);
  }

  lemma PreparedSees(conf: Conf, inputs: Inputs, leftover: Request, e: Env)
    ensures var p := Prepared(conf, inputs, leftover, e);
      p.inputs.(suspendRequested := false) == inputs.(suspendRequested := false) && p.conf == conf
  {
    var d := Daemon(conf, inputs.(suspendRequested := false), Machine(LidOpen, None, None, None), leftover, []);
    CheckKeepsTheRest(ClearRequest(d, e), e);
    assert ClearRequest(d, e).inputs == d.inputs;
    hide BatteryLowCheck, ClearRequest;
  }

  lemma StepSees(s: Sys, a: Action)
    requires Enabled(s, a)
    ensures if a.Handle? then s.queue != [] && Sees(s.d.conf, s.d.inputs, s.queue[0], a.e, Next(s, a).d.inputs)
            else Next(s, a).d.inputs == s.d.inputs
    ensures Next(s, a).d.conf == s.d.conf
  {
    hide Dispatch, Sees;
    if a.Handle? {
      DispatchSees(s.d.(fx := []), s.queue[0], a.e);
      DispatchInputs(s.d.(fx := []), s.queue[0], a.e);
    }
  }

  /** Each of the five takes what the event says of it, or stays. */
  predicate Sees(conf: Conf, i: Inputs, ev: Event, e: Env, r: Inputs) {
    && r.lidClosed == LidSaid(conf, ev, e).GetOr(i.lidClosed)
    && r.extMonCount == MonitorsSaid(conf, ev, e).GetOr(i.extMonCount)
    && r.locked == LockSaid(conf, ev, e).GetOr(i.locked)
    && r.logindInhibitor == LogindSaid(conf, ev, e).GetOr(i.logindInhibitor)
    && r.waylandInhibitor == WaylandSaid(conf, ev, e).GetOr(i.waylandInhibitor)
  }

  lemma DispatchSees(d: Daemon, ev: Event, e: Env)
    requires d.fx == []
    ensures Sees(d.conf, d.inputs, ev, e, Dispatch(d, ev, e).inputs)
  {
    hide Dispatch, LidSaid, MonitorsSaid, LockSaid, LogindSaid, WaylandSaid;
    SeesSeat(d, ev, e);
    SeesClaims(d, ev, e);
  }

  lemma SeesSeat(d: Daemon, ev: Event, e: Env)
    requires d.fx == []
    ensures var r, i := Dispatch(d, ev, e).inputs, d.inputs;
      && r.lidClosed == LidSaid(d.conf, ev, e).GetOr(i.lidClosed)
      && r.extMonCount == MonitorsSaid(d.conf, ev, e).GetOr(i.extMonCount)
      && r.locked == LockSaid(d.conf, ev, e).GetOr(i.locked)
  {
    hide Dispatch;
    SeatAfter(d, ev, e);
  }

  lemma SeesClaims(d: Daemon, ev: Event, e: Env)
    requires d.fx == []
    ensures var r, i := Dispatch(d, ev, e).inputs, d.inputs;
      && r.logindInhibitor == LogindSaid(d.conf, ev, e).GetOr(i.logindInhibitor)
      && r.waylandInhibitor == WaylandSaid(d.conf, ev, e).GetOr(i.waylandInhibitor)
  {
    hide Dispatch;
    ClaimsAfter(d, ev, e);
  }
}
