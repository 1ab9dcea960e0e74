/** The pure lid and suspend machine: where the world says the daemon should be, and the transition
    one event makes. */
module Fsm {
  import opened Prelude

  datatype State = LidOpen | Docked | Deferred | Countdown | Suspending

  datatype EventKind =
    | LidClose | LidOpened | MonitorAdded | MonitorRemoved | InhibitorOn | InhibitorOff
    | LockEngaged | LockReleased | AcPlugged | AcUnplugged | TimerExpiry | Resume
    | SuspendRequest | SuspendCancel | Reconcile | MonitorSetChanged | CtxRepaired
    | PlatformProfile | GpuOverride | BatteryLowEdge | PowerOverride | AcSettled

  datatype WorldInputs = WorldInputs(
    lidClosed: bool,
    extMonCount: nat,
    inhibitor: bool,
    suspendRequested: bool,
    locked: bool,
    batteryLow: bool,
    lidAcHold: bool)

  /** A keep-awake claim has authority only on an unlocked machine that is not low on battery. */
  predicate ClaimGoverns(w: WorldInputs) {
    w.inhibitor && !w.locked && !w.batteryLow
  }

  /** The closed lid alone asks for a suspend: nothing external to show on, no claim, no charger hold. */
  predicate LidReason(w: WorldInputs) {
    w.lidClosed && w.extMonCount == 0 && !ClaimGoverns(w) && !w.lidAcHold
  }

  function WorldState(w: WorldInputs): (s: State)
    ensures s != Suspending
    ensures s == Countdown <==> !ClaimGoverns(w) && (w.suspendRequested || LidReason(w))
    ensures s == LidOpen <==> !w.lidClosed && !w.suspendRequested
    ensures s == Docked <==> w.lidClosed && w.extMonCount > 0 && !w.suspendRequested
    ensures s == Deferred <==>
      if w.suspendRequested then ClaimGoverns(w)
      else w.lidClosed && w.extMonCount == 0 && (ClaimGoverns(w) || w.lidAcHold)
  {
    var claim := ClaimGoverns(w);
    if w.suspendRequested then
      if claim then Deferred else Countdown
    else if w.lidClosed && w.extMonCount >= 1 then Docked
    else if !w.lidClosed then LidOpen
    else if claim || w.lidAcHold then Deferred
    else Countdown
  }

  /** `None` means stay put. Suspending is entered by an expiry only, and left by a resume only. */
  function DesiredState(state: State, ev: EventKind, w: WorldInputs): (r: Option<State>)
    ensures r == Some(Suspending) <==> ev.TimerExpiry? && state == Countdown && WorldState(w) == Countdown
    ensures r.Some? && state == Suspending ==> ev.Resume?
    ensures r.Some? && r.value != Suspending ==> r.value == WorldState(w)
    ensures r.None? && !ev.TimerExpiry? && !ev.Resume? && state != Suspending ==> state == WorldState(w)
  {
    if ev.TimerExpiry? then
      if state != Countdown then None
      else if WorldState(w) == Countdown then Some(Suspending)
      else Some(WorldState(w))
    else if ev.Resume? then
      if state == Suspending then Some(WorldState(w)) else None
    else if state == Suspending then None
    else if WorldState(w) != state then Some(WorldState(w))
    else None
  }

  datatype StuckScreenInputs = StuckScreenInputs(dpmsOff: bool, locked: bool, cursorMoved: bool)

  /** A dark output that nobody owns: shown only where something is meant to be shown, and on a locked
      session only with proof that a person is there. */
  predicate DpmsStuckOff(main: State, s: StuckScreenInputs) {
    s.dpmsOff && (main == LidOpen || main == Docked) && (!s.locked || s.cursorMoved)
  }

  /** The internal panel may go off only while another output is lit. */
  predicate EdpMayDisable(extMonCount: nat) {
    extMonCount > 0
  }
}
