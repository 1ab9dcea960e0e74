/** What one dispatched event does to the daemon, as functions on values. The class in Dispatcher.dfy
    is proved to compute exactly these; the run theorems are about them. */
module Suspend {
  import opened Prelude
  import opened Fsm

  const GRACE_SECONDS: nat := 30
  const BATTERY_LOW_EXIT_DELTA: nat := 3

  datatype EdpPolicy = Auto | Enable | Disable

  /** The grace timer task behind the handle: asleep, past its send, or joined. */
  datatype Timer = Sleeping(deadline: nat) | Sent | Finished

  datatype Entry = Fresh | Reassert

  datatype Watch = Watching | WatchEnded

  /** The runtime request file. `Idle` stands for every body that lacks the daemon's own token. */
  datatype Request = Absent | Idle | BatteryLow

  type Cursor = (int, int)

  /** What power.conf fixes at startup. */
  datatype Conf = Conf(lidPresent: bool, lidGrace: nat, lidAcDefer: bool, batteryLowPct: nat)

  /** The sensed world, as the context holds it. */
  datatype Inputs = Inputs(
    lidClosed: bool,
    extMonCount: nat,
    logindInhibitor: bool,
    waylandInhibitor: bool,
    locked: bool,
    onAc: bool,
    onAcSettled: bool,
    lowBattery: bool,
    suspendRequested: bool,
    edpPolicy: EdpPolicy)

  function World(conf: Conf, i: Inputs): WorldInputs {
    WorldInputs(i.lidClosed, i.extMonCount, i.logindInhibitor || i.waylandInhibitor, i.suspendRequested,
                i.locked, i.lowBattery && !i.onAcSettled, conf.lidAcDefer && i.onAc)
  }

  /** The machine's own part of the context: its state and the timers it holds. */
  datatype Machine = Machine(
    state: State,
    graceTimer: Option<Timer>,
    claimWatch: Option<Watch>,
    lastCursor: Option<Cursor>)

  datatype Effect =
    | LockerRead(live: bool)
    | LockRequested
    | SuspendCalled(accepted: bool)
    | DpmsOn
    | PanelSet(on: bool)
    | MediaPaused
    | RequestWritten
    | RequestRemoved(was: Request)

  /** All that one handler may touch: its context, the request file, and the effects it has had. */
  datatype Daemon = Daemon(conf: Conf, inputs: Inputs, m: Machine, file: Request, fx: seq<Effect>) {
    function Did(f: Effect): Daemon {
      this.(fx := fx + [f])
    }

    function W(): WorldInputs {
      World(conf, inputs)
    }

    predicate Agrees() {
      inputs.suspendRequested <==> file != Absent
    }
  }

  datatype Snapshot = Snapshot(
    lidClosed: bool,
    extMonCount: nat,
    logindInhibitor: bool,
    waylandInhibitor: Option<bool>,
    locked: Option<bool>,
    onAc: Option<bool>,
    edpDisabled: Option<bool>,
    dpmsOff: Option<bool>,
    cursor: Option<Cursor>)

  datatype Event =
    | Lid(closed: bool)
    | MonitorHotplug(added: bool)
    | ConfigReloaded
    | ProfileApplied
    | MonitorsChanged
    | ProfilesChanged
    | Inhibitor(wayland: bool, active: bool)
    | LockChanged(nowLocked: bool)
    | AcChanged(plugged: bool)
    | PowerAcSettled
    | TimerExpired
    | Resumed
    | ReconcileTick(snap: Snapshot)
    | PlatformProfileChanged
    | GpuOverrideChanged
    | BatteryPercent(pct: real)
    | PowerOverrideChanged
    | SuspendRequestChanged(standing: bool)
    | PowerdAppeared
    | BacklightHotplug
    | GoingToSleep
    | Keyboard

  function Kind(ev: Event): EventKind {
    match ev
    case Lid(closed) => if closed then LidClose else LidOpened
    case MonitorHotplug(added) => if added then MonitorAdded else MonitorRemoved
    case ConfigReloaded => Reconcile
    case ProfileApplied => Reconcile
    case MonitorsChanged => MonitorSetChanged
    case ProfilesChanged => MonitorSetChanged
    case Inhibitor(_, active) => if active then InhibitorOn else InhibitorOff
    case LockChanged(l) => if l then LockEngaged else LockReleased
    case AcChanged(plugged) => if plugged then AcPlugged else AcUnplugged
    case PowerAcSettled => AcSettled
    case TimerExpired => TimerExpiry
    case Resumed => Resume
    case ReconcileTick(_) => CtxRepaired
    case PlatformProfileChanged => PlatformProfile
    case GpuOverrideChanged => GpuOverride
    case BatteryPercent(_) => BatteryLowEdge
    case PowerOverrideChanged => PowerOverride
    case SuspendRequestChanged(standing) => if standing then SuspendRequest else SuspendCancel
    case PowerdAppeared => AcSettled
    case BacklightHotplug => CtxRepaired
    case GoingToSleep => CtxRepaired
    case Keyboard => CtxRepaired
  }

  /** The answers the world gives during one dispatch: the clock, the compositor's claim and monitor
      count, a profile to adopt, the locker at each read, logind's answer, and the file operations. */
  datatype Env = Env(
    now: nat,
    claim: Option<bool>,
    monitors: nat,
    profile: Option<EdpPolicy>,
    liveFirst: bool,
    liveInWait: bool,
    lockSignalled: bool,
    liveLast: bool,
    suspendAccepted: bool,
    writeOk: bool,
    removeOk: bool)

  // ---- effectors ----

  function SetEdp(d: Daemon, on: bool): Daemon {
    var resolved := match d.inputs.edpPolicy case Disable => false case Enable => true case Auto => on;
    if !resolved && !EdpMayDisable(d.inputs.extMonCount) then d else d.Did(PanelSet(resolved))
  }

  function CancelGrace(d: Daemon): Daemon {
    d.(m := d.m.(graceTimer := None))
  }

  predicate GraceAlive(m: Machine) {
    m.graceTimer.Some? && !m.graceTimer.value.Finished?
  }

  /** A countdown with a request standing keeps the fixed window; only the lid's own uses `lidGrace`. */
  function GraceLength(conf: Conf, i: Inputs): nat {
    if i.suspendRequested then GRACE_SECONDS else conf.lidGrace
  }

  function StartGrace(d: Daemon, entry: Entry, now: nat): Daemon {
    if entry == Reassert && GraceAlive(d.m) then d
    else d.(m := d.m.(graceTimer := Some(Sleeping(now + GraceLength(d.conf, d.inputs)))))
  }

  function SetClaimWatch(d: Daemon, on: bool): Daemon {
    if on && d.m.claimWatch == Some(Watching) then d
    else d.(m := d.m.(claimWatch := if on then Some(Watching) else None))
  }

  /** Lock before suspend. A cached hint is no proof: the locker is read live, and read last. */
  function SuspendingTail(d: Daemon, e: Env): (Daemon, bool) {
    var d1 := d.Did(LockerRead(e.liveFirst));
    if e.liveFirst then CallSuspend(d1, e)
    else
      var d2 := d1.Did(LockRequested);
      var d3 := if d.inputs.locked then d2.Did(LockerRead(e.liveInWait)) else d2;
      if !((d.inputs.locked && e.liveInWait) || e.lockSignalled) then (d3, false)
      else
        var d4 := d3.Did(LockerRead(e.liveLast));
        if e.liveLast then CallSuspend(d4, e) else (d4, false)
  }

  function CallSuspend(d: Daemon, e: Env): (Daemon, bool) {
    (d.Did(SuspendCalled(e.suspendAccepted)), e.suspendAccepted)
  }

  function OnEnter(state: State, entry: Entry, d: Daemon, e: Env): (Daemon, bool) {
    var d1 := SetClaimWatch(d, state == Deferred && d.inputs.waylandInhibitor);
    match state
    case LidOpen => (SetEdp(CancelGrace(d1), true), true)
    case Docked => (SetEdp(CancelGrace(d1), false), true)
    case Deferred =>
      var d2 := SetEdp(CancelGrace(d1), false);
      (if ClaimGoverns(d.W()) then d2.Did(MediaPaused) else d2, true)
    case Countdown => (StartGrace(SetEdp(d1, false), entry, e.now), true)
    case Suspending => SuspendingTail(CancelGrace(d1), e)
  }

  // ---- the event loop ----

  function EnterState(d: Daemon, state: State): Daemon {
    d.(m := d.m.(state := state))
  }

  function EvaluateFsms(d: Daemon, kind: EventKind, e: Env): Daemon {
    match DesiredState(d.m.state, kind, d.W())
    case None => d
    case Some(next) =>
      if next == d.m.state then d
      else if next == Suspending then
        var (d1, entered) := OnEnter(Suspending, Fresh, d, e);
        if entered then EnterState(d1, Suspending) else StartGrace(d1, Fresh, e.now)
      else OnEnter(next, Fresh, EnterState(d, next), e).0
  }

  function RefreshClaim(i: Inputs, e: Env): Inputs {
    if e.claim.Some? then i.(waylandInhibitor := e.claim.value) else i
  }

  datatype BatteryLowAction = AskSuspend | Withdraw | Hold

  /** Ask only while genuinely discharging low; withdraw the moment the reason is gone. */
  function BatteryLowActionFor(low: bool, onAc: bool, onAcSettled: bool, standing: bool): (a: BatteryLowAction)
    ensures if standing then !a.AskSuspend? else !a.Withdraw?
    ensures a.Hold? <==> if standing then low && !onAc else !low || onAc || onAcSettled
  {
    if low && !onAc && !onAcSettled && !standing then AskSuspend
    else if standing && (onAc || !low) then Withdraw
    else Hold
  }

  function BatteryLowCheck(d: Daemon, e: Env): (Daemon, bool) {
    var i := d.inputs;
    match BatteryLowActionFor(i.lowBattery, i.onAc, i.onAcSettled, i.suspendRequested)
    case AskSuspend =>
      if e.writeOk
      then (d.(inputs := i.(suspendRequested := true), file := BatteryLow).Did(RequestWritten), true)
      else (d, false)
    case Withdraw =>
      if d.file == BatteryLow && e.removeOk
      then (d.(inputs := i.(suspendRequested := false), file := Absent).Did(RequestRemoved(d.file)), true)
      else (d, false)
    case Hold => (d, false)
  }

  /** Remove the request file whoever wrote it; a missing file is no failure. */
  function ClearRequest(d: Daemon, e: Env): Daemon {
    if d.file == Absent || !e.removeOk then d
    else d.(file := Absent).Did(RequestRemoved(d.file))
  }

  function BatteryLowStep(low: bool, pct: real, threshold: nat): bool {
    if !low && pct <= threshold as real then true
    else if low && pct >= (threshold + BATTERY_LOW_EXIT_DELTA) as real then false
    else low
  }

  /** The context updates that fall through to the machine. The flag says whether the event goes on. */
  function Absorb(d: Daemon, ev: Event, e: Env): (Daemon, bool) {
    var i := d.inputs;
    match ev
    case Lid(closed) =>
      if !d.conf.lidPresent then (d, false)
      else
        var i1 := i.(lidClosed := closed);
        (d.(inputs := if closed then RefreshClaim(i1, e) else i1), true)
    case MonitorHotplug(_) => (d.(inputs := i.(extMonCount := e.monitors)), true)
    case Inhibitor(wayland, active) =>
      (d.(inputs := if wayland then i.(waylandInhibitor := active) else i.(logindInhibitor := active)), true)
    case LockChanged(l) => (d.(inputs := i.(locked := l)), true)
    case AcChanged(plugged) =>
      if plugged == i.onAc then (d, false)
      else (BatteryLowCheck(d.(inputs := i.(onAc := plugged)), e).0, true)
    case PowerAcSettled => (BatteryLowCheck(d.(inputs := i.(onAcSettled := i.onAc)), e).0, true)
    case BatteryPercent(pct) =>
      var low := BatteryLowStep(i.lowBattery, pct, d.conf.batteryLowPct);
      var (d1, changed) := BatteryLowCheck(d.(inputs := i.(lowBattery := low)), e);
      (d1, low != i.lowBattery || changed)
    case PowerdAppeared => (d.(inputs := i.(onAcSettled := i.onAc)), true)
    case SuspendRequestChanged(standing) =>
      var i1 := i.(suspendRequested := standing);
      (d.(inputs := if standing then RefreshClaim(i1, e) else i1), true)
    case TimerExpired =>
      (if i.suspendRequested && d.file == Absent then d.(inputs := i.(suspendRequested := false)) else d, true)
    case Resumed => (ClearRequest(d.(inputs := i.(suspendRequested := false)), e), true)
    case PowerOverrideChanged => (d, true)
    case PlatformProfileChanged => (d, true)
    case GpuOverrideChanged => (d, true)
    case _ => (d, false)
  }

  function AdoptProfile(d: Daemon, e: Env): Daemon {
    d.(inputs := d.inputs.(edpPolicy := e.profile.GetOr(d.inputs.edpPolicy)))
  }

  // ---- the reconciler tick ----

  /** Every drifted input takes the snapshot's value; the request takes the file's existence. */
  function Repaired(lidPresent: bool, i: Inputs, snap: Snapshot, standing: bool): Inputs {
    i.(lidClosed := if lidPresent then snap.lidClosed else i.lidClosed,
       suspendRequested := standing,
       extMonCount := snap.extMonCount,
       logindInhibitor := snap.logindInhibitor,
       waylandInhibitor := snap.waylandInhibitor.GetOr(i.waylandInhibitor),
       locked := snap.locked.GetOr(i.locked),
       onAc := snap.onAc.GetOr(i.onAc))
  }

  /** Repaired inputs drive the machine, except that the raw AC axis alone does not. */
  predicate FsmDrift(was: Inputs, now: Inputs) {
    was.lidClosed != now.lidClosed || was.suspendRequested != now.suspendRequested
    || was.extMonCount != now.extMonCount || was.logindInhibitor != now.logindInhibitor
    || was.waylandInhibitor != now.waylandInhibitor || was.locked != now.locked
  }

  predicate PowerDrift(was: Inputs, now: Inputs) {
    was.extMonCount != now.extMonCount || was.onAc != now.onAc
  }

  predicate PanelShouldBeOn(d: Daemon) {
    d.inputs.edpPolicy.Enable? || (d.inputs.edpPolicy.Auto? && d.m.state == LidOpen)
  }

  function EnforcePanel(d: Daemon, disabled: Option<bool>): Daemon {
    var want := PanelShouldBeOn(d);
    if disabled.Some? && want == disabled.value then SetEdp(d, want) else d
  }

  predicate CursorMoved(was: Option<Cursor>, now: Option<Cursor>) {
    was.Some? && now.Some? && was != now
  }

  function RepairDpms(d: Daemon, snap: Snapshot): Daemon {
    var moved := CursorMoved(d.m.lastCursor, snap.cursor);
    var d1 := d.(m := d.m.(lastCursor := snap.cursor));
    if snap.dpmsOff.Some?
       && DpmsStuckOff(d.m.state, StuckScreenInputs(snap.dpmsOff.value, d.inputs.locked, moved))
    then d1.Did(DpmsOn)
    else d1
  }

  /** The inputs a tick leaves, with the battery-low request they call for. */
  function RepairInputs(d: Daemon, snap: Snapshot, e: Env): Daemon {
    var i := Repaired(d.conf.lidPresent, d.inputs, snap, d.file != Absent);
    if PowerDrift(d.inputs, i) then BatteryLowCheck(d.(inputs := i.(onAcSettled := i.onAc)), e).0
    else d.(inputs := i)
  }

  /** The first half of a tick: repair the inputs and let them drive the machine. */
  function RepairAndDrive(d: Daemon, snap: Snapshot, e: Env): Daemon {
    var d1 := RepairInputs(d, snap, e);
    if FsmDrift(d.inputs, Repaired(d.conf.lidPresent, d.inputs, snap, d.file != Absent))
    then EvaluateFsms(d1, CtxRepaired, e)
    else d1
  }

  function Reconciled(d: Daemon, snap: Snapshot, e: Env): Daemon {
    var d1 := RepairAndDrive(d, snap, e);
    if d1.m.state == Suspending then d1
    else RepairDpms(EnforcePanel(AdoptProfile(d1, e), snap.edpDisabled), snap)
  }

  function Reasserted(d: Daemon, e: Env): Daemon {
    if d.m.state == Suspending then d
    else
      var d1 := AdoptProfile(d, e);
      OnEnter(d1.m.state, Reassert, d1, e).0
  }

  function FellThrough(d: Daemon, ev: Event, e: Env): Daemon {
    var (d1, on) := Absorb(d, ev, e);
    if on then EvaluateFsms(d1, Kind(ev), e) else d1
  }

  function Dispatch(d: Daemon, ev: Event, e: Env): Daemon {
    match ev
    case ConfigReloaded => Reasserted(d, e)
    case ProfileApplied => Reasserted(d, e)
    case ReconcileTick(snap) => Reconciled(d, snap, e)
    case MonitorsChanged => AdoptProfile(d, e)
    case _ => FellThrough(d, ev, e)
  }
}
