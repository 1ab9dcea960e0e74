/** The daemon as it runs: one object whose handlers update its fields and hold its tasks. Each handler
    is proved to compute the function of the same name in Suspend. */
module Dispatcher {
  import opened Prelude
  import opened Fsm
  import S = Suspend
  import Runs = SuspendRuns
  import Safety = SuspendSafety
  import T = Traces

  class Context {
    const conf: S.Conf

    var lidClosed: bool
    var extMonCount: nat
    var logindInhibitor: bool
    var waylandInhibitor: bool
    var locked: bool
    var onAc: bool
    var onAcSettled: bool
    var lowBattery: bool
    var suspendRequested: bool
    var edpPolicy: S.EdpPolicy

    var state: State
    var graceTimer: Option<S.Timer>
    var claimWatch: Option<S.Watch>
    var lastCursor: Option<S.Cursor>

    /** The runtime request file, shared with every other program. */
    var file: S.Request

    /** What the world has been asked to do. */
    ghost var fx: seq<S.Effect>

    ghost function Inputs(): S.Inputs
      reads this
    {
      S.Inputs(lidClosed, extMonCount, logindInhibitor, waylandInhibitor, locked, onAc, onAcSettled, lowBattery,
               suspendRequested, edpPolicy)
    }

    ghost function View(): S.Daemon
      reads this
    {
      S.Daemon(conf, Inputs(), S.Machine(state, graceTimer, claimWatch, lastCursor), file, fx)
    }

    function World(): (w: WorldInputs)
      reads this
      ensures w == View().W()
    {
      WorldInputs(lidClosed, extMonCount, logindInhibitor || waylandInhibitor, suspendRequested, locked,
                  lowBattery && !onAcSettled, conf.lidAcDefer && onAc)
    }

    /** Startup: a leftover request is cleared, a low battery may ask at once, and the state the world
        names is entered. */
    constructor (conf: S.Conf, i: S.Inputs, leftover: S.Request, e: S.Env)
      ensures View() == Runs.Boot(conf, i, leftover, e).d
    {
      this.conf := conf;
      lidClosed, extMonCount := i.lidClosed, i.extMonCount;
      logindInhibitor, waylandInhibitor, locked := i.logindInhibitor, i.waylandInhibitor, i.locked;
      onAc, onAcSettled, lowBattery := i.onAc, i.onAcSettled, i.lowBattery;
      suspendRequested, edpPolicy := false, i.edpPolicy;
      state, graceTimer, claimWatch, lastCursor := LidOpen, None, None, None;
      file, fx := leftover, [];
      new;
      hide S.BatteryLowCheck, S.ClearRequest, Runs.Started;
      ClearSuspendRequest(e);
      var _ := BatteryLowRequestCheck(e);
      Start(e);
    }

    /** The first state is the one the world names. */
    method Start(e: S.Env)
      modifies this`fx, this`graceTimer, this`claimWatch, this`state
      ensures View() == Runs.Started(old(View()), e)
    {
      hide S.OnEnter, WorldState;
      state := WorldState(World());
      var _ := OnEnter(state, S.Fresh, e);
    }

    // ---- effectors ----

    method Effect(f: S.Effect)
      modifies this`fx
      ensures fx == old(fx) + [f]
    {
      fx := fx + [f];
    }

    method SetEdp(on: bool)
      modifies this`fx
      ensures View() == S.SetEdp(old(View()), on)
    {
      var resolved := on;
      match edpPolicy {
        case Disable => resolved := false;
        case Enable => resolved := true;
        case Auto =>
      }
      if !resolved && !EdpMayDisable(extMonCount) {
        return;
      }
      Effect(S.PanelSet(resolved));
    }

    method CancelGraceTimer()
      modifies this`graceTimer
      ensures View() == S.CancelGrace(old(View()))
    {
      graceTimer := None;
    }

    method StartGraceTimer(entry: S.Entry, now: nat)
      modifies this`graceTimer
      ensures View() == S.StartGrace(old(View()), entry, now)
    {
      if entry == S.Reassert && graceTimer.Some? && graceTimer.value != S.Finished {
        return;
      }
      CancelGraceTimer();
      var grace := conf.lidGrace;
      if suspendRequested {
        grace := S.GRACE_SECONDS;
      }
      graceTimer := Some(S.Sleeping(now + grace));
    }

    method StartClaimWatch()
      modifies this`claimWatch
      ensures View() == S.SetClaimWatch(old(View()), true)
    {
      if claimWatch == Some(S.Watching) {
        return;
      }
      claimWatch := Some(S.Watching);
    }

    method CancelClaimWatch()
      modifies this`claimWatch
      ensures View() == S.SetClaimWatch(old(View()), false)
    {
      claimWatch := None;
    }

    method RequestSuspend(e: S.Env) returns (written: bool)
      modifies this`file, this`fx
      ensures written == e.writeOk
      ensures file == (if written then S.BatteryLow else old(file))
      ensures fx == if written then old(fx) + [S.RequestWritten] else old(fx)
    {
      if !e.writeOk {
        return false;
      }
      file := S.BatteryLow;
      Effect(S.RequestWritten);
      return true;
    }

    /** Only the daemon's own request is withdrawn. */
    method ClearBatteryLowRequest(e: S.Env) returns (removed: bool)
      modifies this`file, this`fx
      ensures removed == (old(file) == S.BatteryLow && e.removeOk)
      ensures file == (if removed then S.Absent else old(file))
      ensures fx == if removed then old(fx) + [S.RequestRemoved(S.BatteryLow)] else old(fx)
    {
      if file != S.BatteryLow || !e.removeOk {
        return false;
      }
      Effect(S.RequestRemoved(file));
      file := S.Absent;
      return true;
    }

    method ClearSuspendRequest(e: S.Env)
      modifies this`file, this`fx
      ensures View() == S.ClearRequest(old(View()), e)
    {
      if file != S.Absent && e.removeOk {
        Effect(S.RequestRemoved(file));
        file := S.Absent;
      }
    }

    method DoSuspend(e: S.Env) returns (accepted: bool)
      modifies this`fx
      ensures accepted == e.suspendAccepted && fx == old(fx) + [S.SuspendCalled(accepted)]
    {
      accepted := e.suspendAccepted;
      Effect(S.SuspendCalled(accepted));
    }

    method LiveLocker(answer: bool) returns (live: bool)
      modifies this`fx
      ensures live == answer && fx == old(fx) + [S.LockerRead(answer)]
    {
      live := answer;
      Effect(S.LockerRead(live));
    }

    method WaitForLock(e: S.Env) returns (engaged: bool)
      modifies this`fx
      ensures engaged == ((locked && e.liveInWait) || e.lockSignalled)
      ensures fx == if locked then old(fx) + [S.LockerRead(e.liveInWait)] else old(fx)
    {
      if locked {
        var live := LiveLocker(e.liveInWait);
        if live {
          return true;
        }
      }
      return e.lockSignalled;
    }

    // ---- the handlers ----

    /** Lock before suspend: proceed only after a live locker is proven. */
    method SuspendingTail(e: S.Env) returns (entered: bool)
      modifies this`fx
      ensures (View(), entered) == S.SuspendingTail(old(View()), e)
    {
      var live := LiveLocker(e.liveFirst);
      if !live {
        Effect(S.LockRequested);
        var engaged := WaitForLock(e);
        if !engaged {
          return false;
        }
        live := LiveLocker(e.liveLast);
        if !live {
          return false;
        }
      }
      entered := DoSuspend(e);
    }

    method OnEnter(target: State, entry: S.Entry, e: S.Env) returns (entered: bool)
      modifies this`fx, this`graceTimer, this`claimWatch
      ensures (View(), entered) == S.OnEnter(target, entry, old(View()), e)
    {
      if target == Deferred && waylandInhibitor {
        StartClaimWatch();
      } else {
        CancelClaimWatch();
      }
      entered := true;
      match target {
        case LidOpen =>
          CancelGraceTimer();
          SetEdp(true);
        case Docked =>
          CancelGraceTimer();
          SetEdp(false);
        case Deferred =>
          CancelGraceTimer();
          SetEdp(false);
          if ClaimGoverns(World()) {
            Effect(S.MediaPaused);
          }
        case Countdown =>
          SetEdp(false);
          StartGraceTimer(entry, e.now);
        case Suspending =>
          CancelGraceTimer();
          entered := SuspendingTail(e);
      }
    }

    method EvaluateFsms(kind: EventKind, e: S.Env)
      modifies this`fx, this`graceTimer, this`claimWatch, this`state
      ensures View() == S.EvaluateFsms(old(View()), kind, e)
    {
      hide S.OnEnter, S.StartGrace, DesiredState, WorldState;
      var next := DesiredState(state, kind, World());
      if next.Some? && next.value != state {
        if next.value == Suspending {
          AttemptSuspend(e);
        } else {
          state := next.value;
          var _ := OnEnter(state, S.Fresh, e);
        }
      }
    }

    /** The one entry that can be turned down: the state changes only once the suspend is accepted. */
    method AttemptSuspend(e: S.Env)
      modifies this`fx, this`graceTimer, this`claimWatch, this`state
      ensures View() ==
        var (d, entered) := S.OnEnter(Suspending, S.Fresh, old(View()), e);
        if entered then S.EnterState(d, Suspending) else S.StartGrace(d, S.Fresh, e.now)
    {
      hide S.OnEnter, S.StartGrace;
      var entered := OnEnter(Suspending, S.Fresh, e);
      if entered {
        state := Suspending;
      } else {
        StartGraceTimer(S.Fresh, e.now);
      }
    }

    method RefreshWaylandClaim(e: S.Env)
      modifies this`waylandInhibitor
      ensures Inputs() == S.RefreshClaim(old(Inputs()), e)
    {
      if e.claim.Some? && e.claim.value != waylandInhibitor {
        waylandInhibitor := e.claim.value;
      }
    }

    method BatteryLowRequestCheck(e: S.Env) returns (changed: bool)
      modifies this`file, this`fx, this`suspendRequested
      ensures (View(), changed) == S.BatteryLowCheck(old(View()), e)
    {
      match S.BatteryLowActionFor(lowBattery, onAc, onAcSettled, suspendRequested) {
        case AskSuspend =>
          changed := RequestSuspend(e);
          if changed {
            suspendRequested := true;
          }
        case Withdraw =>
          changed := ClearBatteryLowRequest(e);
          if changed {
            suspendRequested := false;
          }
        case Hold =>
          changed := false;
      }
    }

    method IngestActiveProfile(e: S.Env)
      modifies this`edpPolicy
      ensures View() == S.AdoptProfile(old(View()), e)
    {
      if e.profile.Some? {
        edpPolicy := e.profile.value;
      }
    }

    /** Repair what drives the seat: the lid, the request by its file, and the monitor count. */
    method RepairSeat(snap: S.Snapshot) returns (fsmDrift: bool, powerDrift: bool)
      modifies this`lidClosed, this`extMonCount, this`suspendRequested
      ensures Inputs() == SeatRepaired(conf.lidPresent, old(Inputs()), snap, file != S.Absent)
      ensures fsmDrift <==> SeatDrift(old(Inputs()), Inputs())
      ensures powerDrift <==> extMonCount != old(Inputs()).extMonCount
    {
      fsmDrift, powerDrift := false, false;
      if conf.lidPresent && snap.lidClosed != lidClosed {
        lidClosed, fsmDrift := snap.lidClosed, true;
      }
      if (file != S.Absent) != suspendRequested {
        suspendRequested, fsmDrift := file != S.Absent, true;
      }
      if snap.extMonCount != extMonCount {
        extMonCount, fsmDrift, powerDrift := snap.extMonCount, true, true;
      }
    }

    /** Repair the keep-awake claims. */
    method RepairClaims(snap: S.Snapshot) returns (fsmDrift: bool)
      modifies this`logindInhibitor, this`waylandInhibitor
      ensures Inputs() == ClaimsRepaired(old(Inputs()), snap)
      ensures fsmDrift <==> ClaimDrift(old(Inputs()), Inputs())
    {
      fsmDrift := false;
      if snap.logindInhibitor != logindInhibitor {
        logindInhibitor, fsmDrift := snap.logindInhibitor, true;
      }
      if snap.waylandInhibitor.Some? && snap.waylandInhibitor.value != waylandInhibitor {
        waylandInhibitor, fsmDrift := snap.waylandInhibitor.value, true;
      }
    }

    /** Repair the lock and the charger; only the lock drives the machine. */
    method RepairLockAndCharger(snap: S.Snapshot) returns (fsmDrift: bool, powerDrift: bool)
      modifies this`locked, this`onAc
      ensures Inputs() == LockAndChargerRepaired(old(Inputs()), snap)
      ensures fsmDrift <==> Inputs().locked != old(Inputs()).locked
      ensures powerDrift <==> Inputs().onAc != old(Inputs()).onAc
    {
      fsmDrift, powerDrift := false, false;
      if snap.locked.Some? && snap.locked.value != locked {
        locked, fsmDrift := snap.locked.value, true;
      }
      if snap.onAc.Some? && snap.onAc.value != onAc {
        onAc, powerDrift := snap.onAc.value, true;
      }
    }

    /** Every drifted input takes the snapshot's value, the request its file's. Says whether the machine,
        and whether the power side, must hear of it. */
    method RepairDrift(snap: S.Snapshot) returns (fsmDrift: bool, powerDrift: bool)
      modifies this`lidClosed, this`extMonCount, this`suspendRequested, this`logindInhibitor, this`waylandInhibitor,
               this`locked, this`onAc
      ensures Inputs() == S.Repaired(conf.lidPresent, old(Inputs()), snap, file != S.Absent)
      ensures fsmDrift == S.FsmDrift(old(Inputs()), Inputs())
      ensures powerDrift == S.PowerDrift(old(Inputs()), Inputs())
    {
      hide S.Repaired, S.FsmDrift, S.PowerDrift, SeatRepaired, ClaimsRepaired, LockAndChargerRepaired, SeatDrift,
           ClaimDrift;
      ghost var was := Inputs();
      var seatDrift, dockDrift := RepairSeat(snap);
      ghost var seated := Inputs();
      var claimDrift := RepairClaims(snap);
      ghost var claimed := Inputs();
      var lockDrift, acDrift := RepairLockAndCharger(snap);
      fsmDrift, powerDrift := seatDrift || claimDrift || lockDrift, dockDrift || acDrift;
      DriftsTogether(conf.lidPresent, was, seated, claimed, Inputs(), snap, file != S.Absent);
    }

    method RepairInputs(snap: S.Snapshot, e: S.Env) returns (fsmDrift: bool)
      modifies this
      ensures View() == S.RepairInputs(old(View()), snap, e)
      ensures fsmDrift == S.FsmDrift(old(Inputs()),
                                     S.Repaired(conf.lidPresent, old(Inputs()), snap, old(file) != S.Absent))
    {
      hide S.FsmDrift, S.PowerDrift, S.Repaired, S.BatteryLowCheck;
      var powerDrift;
      fsmDrift, powerDrift := RepairDrift(snap);
      if powerDrift {
        onAcSettled := onAc;
        var _ := BatteryLowRequestCheck(e);
      }
    }

    /** Repair every input that drifted, and let the repaired ones drive the machine. */
    method RepairAndDrive(snap: S.Snapshot, e: S.Env)
      modifies this
      ensures View() == S.RepairAndDrive(old(View()), snap, e)
    {
      var fsmDrift := RepairInputs(snap, e);
      if fsmDrift {
        EvaluateFsms(CtxRepaired, e);
      }
    }

    method EnforcePanel(disabled: Option<bool>)
      modifies this`fx
      ensures View() == S.EnforcePanel(old(View()), disabled)
    {
      var shouldBeOn := edpPolicy.Enable? || (edpPolicy.Auto? && state == LidOpen);
      if disabled.Some? {
        if shouldBeOn && disabled.value {
          SetEdp(true);
        } else if !shouldBeOn && !disabled.value {
          SetEdp(false);
        }
      }
    }

    method RepairDpms(snap: S.Snapshot)
      modifies this`fx, this`lastCursor
      ensures View() == S.RepairDpms(old(View()), snap)
    {
      var cursorMoved := false;
      if lastCursor.Some? && snap.cursor.Some? {
        cursorMoved := lastCursor.value != snap.cursor.value;
      }
      lastCursor := snap.cursor;
      if snap.dpmsOff.Some? {
        if DpmsStuckOff(state, StuckScreenInputs(snap.dpmsOff.value, locked, cursorMoved)) {
          Effect(S.DpmsOn);
        }
      }
    }

    method HandleReconcileTick(snap: S.Snapshot, e: S.Env)
      modifies this
      ensures View() == S.Reconciled(old(View()), snap, e)
    {
      RepairAndDrive(snap, e);
      if state != Suspending {
        IngestActiveProfile(e);
        EnforcePanel(snap.edpDisabled);
        RepairDpms(snap);
      }
    }

    method OnLid(closed: bool, e: S.Env) returns (goesOn: bool)
      modifies this
      ensures (View(), goesOn) == S.Absorb(old(View()), S.Lid(closed), e)
    {
      if !conf.lidPresent {
        return false;
      }
      lidClosed := closed;
      if closed {
        RefreshWaylandClaim(e);
      }
      return true;
    }

    method OnInhibitor(wayland: bool, active: bool, e: S.Env) returns (goesOn: bool)
      modifies this`waylandInhibitor, this`logindInhibitor
      ensures (View(), goesOn) == S.Absorb(old(View()), S.Inhibitor(wayland, active), e)
    {
      if wayland {
        waylandInhibitor := active;
      } else {
        logindInhibitor := active;
      }
      return true;
    }

    method OnAcChanged(plugged: bool, e: S.Env) returns (goesOn: bool)
      modifies this
      ensures (View(), goesOn) == S.Absorb(old(View()), S.AcChanged(plugged), e)
    {
      if plugged == onAc {
        return false;
      }
      onAc := plugged;
      var _ := BatteryLowRequestCheck(e);
      return true;
    }

    method OnPowerAcSettled(e: S.Env) returns (goesOn: bool)
      modifies this
      ensures (View(), goesOn) == S.Absorb(old(View()), S.PowerAcSettled, e)
    {
      onAcSettled := onAc;
      var _ := BatteryLowRequestCheck(e);
      return true;
    }

    method OnBatteryPercent(pct: real, e: S.Env) returns (goesOn: bool)
      modifies this
      ensures (View(), goesOn) == S.Absorb(old(View()), S.BatteryPercent(pct), e)
    {
      hide S.BatteryLowCheck, S.BatteryLowStep;
      var low := S.BatteryLowStep(lowBattery, pct, conf.batteryLowPct);
      var flipped := low != lowBattery;
      lowBattery := low;
      var changed := BatteryLowRequestCheck(e);
      return flipped || changed;
    }

    method OnSuspendRequestChanged(standing: bool, e: S.Env) returns (goesOn: bool)
      modifies this
      ensures (View(), goesOn) == S.Absorb(old(View()), S.SuspendRequestChanged(standing), e)
    {
      suspendRequested := standing;
      if standing {
        RefreshWaylandClaim(e);
      }
      return true;
    }

    method OnResumed(e: S.Env) returns (goesOn: bool)
      modifies this
      ensures (View(), goesOn) == S.Absorb(old(View()), S.Resumed, e)
    {
      suspendRequested := false;
      ClearSuspendRequest(e);
      return true;
    }

    method AbsorbSeat(ev: S.Event, e: S.Env) returns (goesOn: bool)
      requires ev.Lid? || ev.MonitorHotplug? || ev.Inhibitor? || ev.LockChanged?
      modifies this
      ensures (View(), goesOn) == S.Absorb(old(View()), ev, e)
    {
      hide S.RefreshClaim, S.BatteryLowCheck, S.BatteryLowStep, S.ClearRequest;
      goesOn := true;
      match ev {
        case Lid(closed) => goesOn := OnLid(closed, e);
        case MonitorHotplug(_) => extMonCount := e.monitors;
        case Inhibitor(wayland, active) => goesOn := OnInhibitor(wayland, active, e);
        case LockChanged(nowLocked) => locked := nowLocked;
      }
    }

    method AbsorbPower(ev: S.Event, e: S.Env) returns (goesOn: bool)
      requires ev.AcChanged? || ev.PowerAcSettled? || ev.BatteryPercent? || ev.PowerdAppeared?
      modifies this
      ensures (View(), goesOn) == S.Absorb(old(View()), ev, e)
    {
      match ev {
        case AcChanged(plugged) => goesOn := OnAcChanged(plugged, e);
        case PowerAcSettled => goesOn := OnPowerAcSettled(e);
        case BatteryPercent(pct) => goesOn := OnBatteryPercent(pct, e);
        case PowerdAppeared =>
          onAcSettled := onAc;
          goesOn := true;
      }
    }

    method AbsorbRequest(ev: S.Event, e: S.Env) returns (goesOn: bool)
      requires ev.SuspendRequestChanged? || ev.TimerExpired? || ev.Resumed?
      modifies this
      ensures (View(), goesOn) == S.Absorb(old(View()), ev, e)
    {
      match ev {
        case SuspendRequestChanged(standing) => goesOn := OnSuspendRequestChanged(standing, e);
        case TimerExpired =>
          if suspendRequested && file == S.Absent {
            suspendRequested := false;
          }
          goesOn := true;
        case Resumed => goesOn := OnResumed(e);
      }
    }

    /** The context updates that fall through to the machine; the answer says whether the event goes on. */
    method Absorb(ev: S.Event, e: S.Env) returns (goesOn: bool)
      modifies this
      ensures (View(), goesOn) == S.Absorb(old(View()), ev, e)
    {
      if ev.Lid? || ev.MonitorHotplug? || ev.Inhibitor? || ev.LockChanged? {
        goesOn := AbsorbSeat(ev, e);
      } else if ev.AcChanged? || ev.PowerAcSettled? || ev.BatteryPercent? || ev.PowerdAppeared? {
        goesOn := AbsorbPower(ev, e);
      } else if ev.SuspendRequestChanged? || ev.TimerExpired? || ev.Resumed? {
        goesOn := AbsorbRequest(ev, e);
      } else {
        goesOn := ev.PowerOverrideChanged? || ev.PlatformProfileChanged? || ev.GpuOverrideChanged?;
      }
    }

    /** One event through the routing. */
    method Dispatch(ev: S.Event, e: S.Env)
      modifies this
      ensures View() == S.Dispatch(old(View()), ev, e)
    {
      hide S.Reconciled, S.Reasserted, S.FellThrough, S.AdoptProfile;
      match ev {
        case ConfigReloaded => Reassert(e);
        case ProfileApplied => Reassert(e);
        case ReconcileTick(snap) => HandleReconcileTick(snap, e);
        case MonitorsChanged => IngestActiveProfile(e);
        case ProfilesChanged => Runs.PassiveEventsChangeNothing(View(), ev, e);
        case BacklightHotplug => Runs.PassiveEventsChangeNothing(View(), ev, e);
        case GoingToSleep => Runs.PassiveEventsChangeNothing(View(), ev, e);
        case Keyboard => Runs.PassiveEventsChangeNothing(View(), ev, e);
        case _ => FallThrough(ev, e);
      }
    }

    /** The context update, and the machine if the event goes on to it. */
    method FallThrough(ev: S.Event, e: S.Env)
      modifies this
      ensures View() == S.FellThrough(old(View()), ev, e)
    {
      hide S.EvaluateFsms, S.Absorb, S.Kind;
      var goesOn := Absorb(ev, e);
      if goesOn {
        EvaluateFsms(S.Kind(ev), e);
      }
    }

    method Reassert(e: S.Env)
      modifies this
      ensures View() == S.Reasserted(old(View()), e)
    {
      if state != Suspending {
        IngestActiveProfile(e);
        var _ := OnEnter(state, S.Reassert, e);
      }
    }

    /** What others do between two dispatches. */
    method Meanwhile(a: Runs.Action)
      requires !a.Handle?
      modifies this`graceTimer, this`claimWatch, this`file
      ensures View() == Moved(old(View()), a, [])
    {
      match a {
        case TimerSends => graceTimer := Some(S.Sent);
        case TimerEnds => graceTimer := Some(S.Finished);
        case WatchSends => claimWatch := Some(S.WatchEnded);
        case OthersWrite(written) => file := written;
        case Deliver(_) =>
        case Elapse(_) =>
      }
    }

    /** The event loop, among everything else that goes on: its queue fills, time passes, timers send and
        end, other programs write the request file, and what is received is dispatched in order. The object
        goes through the states of the run, and its trace is the run's. */
    method Run(world: seq<Runs.Action>, started: nat, ghost run: Runs.Run)
      requires run.Valid() && run.actions == world && started == run.boot.now
      requires View() == run.states[0].d
      modifies this
      ensures View() == run.states[|world|].d.(fx := T.Trace(run, |world|))
      ensures T.Proven(fx)
      ensures graceTimer.Some? <==> state == Countdown
      ensures state == Suspending <==> Safety.AsleepSince(run, |world|)
    {
      hide Runs.Next, Runs.Enabled, Runs.Added, S.Dispatch, T.Proven, T.Trace;
      var queue := [S.MonitorsChanged, S.PowerOverrideChanged];
      var now := started;
      BootQueue(run);
      for k := 0 to |world|
        invariant View() == run.states[k].d.(fx := T.Trace(run, k))
        invariant queue == run.states[k].queue && now == run.states[k].now
      {
        assert run.Steps(k);
        StepEnabled(run.states[k], world[k]);
        StepTaken(run, k);
        if world[k].Handle? {
          var ev := queue[0];
          queue := queue[1..];
          Dispatch(ev, world[k].e);
        } else {
          Meanwhile(world[k]);
          queue := queue + Runs.Added(world[k]);
          now := now + if world[k].Elapse? then world[k].dt else 0;
        }
      }
      T.TraceIsProven(run, |world|);
      Runs.CountdownIsNeverParked(run, |world|);
      Safety.SuspendingIffAsleep(run, |world|);
    }
  }

  function SeatRepaired(lidPresent: bool, i: S.Inputs, snap: S.Snapshot, standing: bool): S.Inputs {
    i.(lidClosed := if lidPresent then snap.lidClosed else i.lidClosed,
       suspendRequested := standing,
       extMonCount := snap.extMonCount)
  }

  function ClaimsRepaired(i: S.Inputs, snap: S.Snapshot): S.Inputs {
    i.(logindInhibitor := snap.logindInhibitor, waylandInhibitor := snap.waylandInhibitor.GetOr(i.waylandInhibitor))
  }

  function LockAndChargerRepaired(i: S.Inputs, snap: S.Snapshot): S.Inputs {
    i.(locked := snap.locked.GetOr(i.locked), onAc := snap.onAc.GetOr(i.onAc))
  }

  predicate SeatDrift(was: S.Inputs, now: S.Inputs) {
    was.lidClosed != now.lidClosed || was.suspendRequested != now.suspendRequested || was.extMonCount != now.extMonCount
  }

  predicate ClaimDrift(was: S.Inputs, now: S.Inputs) {
    was.logindInhibitor != now.logindInhibitor || was.waylandInhibitor != now.waylandInhibitor
  }

  /** The parts of a repair make the whole. */
  lemma DriftsTogether(lidPresent: bool, was: S.Inputs, seated: S.Inputs, claimed: S.Inputs, now: S.Inputs,
                       snap: S.Snapshot, standing: bool)
    requires seated == SeatRepaired(lidPresent, was, snap, standing)
    requires claimed == ClaimsRepaired(seated, snap) && now == LockAndChargerRepaired(claimed, snap)
    ensures now == S.Repaired(lidPresent, was, snap, standing)
    ensures SeatDrift(was, seated) || ClaimDrift(seated, claimed) || now.locked != claimed.locked <==>
      S.FsmDrift(was, now)
    ensures seated.extMonCount != was.extMonCount || now.onAc != claimed.onAc <==> S.PowerDrift(was, now)
  {
    PartsKeepTheRest(lidPresent, was, seated, claimed, now, snap, standing);
    hide SeatRepaired, ClaimsRepaired, LockAndChargerRepaired, S.Repaired;
  }

  lemma PartsKeepTheRest(lidPresent: bool, was: S.Inputs, seated: S.Inputs, claimed: S.Inputs, now: S.Inputs,
                         snap: S.Snapshot, standing: bool)
    requires seated == SeatRepaired(lidPresent, was, snap, standing)
    requires claimed == ClaimsRepaired(seated, snap) && now == LockAndChargerRepaired(claimed, snap)
    ensures now == S.Repaired(lidPresent, was, snap, standing)
    ensures seated.logindInhibitor == was.logindInhibitor && seated.waylandInhibitor == was.waylandInhibitor
    ensures seated.locked == claimed.locked == was.locked && seated.onAc == claimed.onAc == was.onAc
    ensures now.lidClosed == seated.lidClosed && now.suspendRequested == seated.suspendRequested
    ensures now.extMonCount == seated.extMonCount
    ensures now.logindInhibitor == claimed.logindInhibitor && now.waylandInhibitor == claimed.waylandInhibitor
  {
  }

  lemma BootQueue(run: Runs.Run)
    requires run.Valid()
    ensures run.states[0].queue == [S.MonitorsChanged, S.PowerOverrideChanged] && run.states[0].now == run.boot.now
    ensures run.states[0].d.(fx := T.Trace(run, 0)) == run.states[0].d
  {
  }

  lemma StepEnabled(s: Runs.Sys, a: Runs.Action)
    requires Runs.Enabled(s, a)
    ensures a.Handle? ==> s.queue != []
  {
  }

  /** What a step makes of a daemon that keeps its trace. */
  ghost function Moved(d: S.Daemon, a: Runs.Action, queue: seq<S.Event>): S.Daemon
    requires a.Handle? ==> queue != []
  {
    match a
    case TimerSends => d.(m := d.m.(graceTimer := Some(S.Sent)))
    case TimerEnds => d.(m := d.m.(graceTimer := Some(S.Finished)))
    case WatchSends => d.(m := d.m.(claimWatch := Some(S.WatchEnded)))
    case OthersWrite(file) => d.(file := file)
    case Handle(e) => S.Dispatch(d, queue[0], e)
    case _ => d
  }

  lemma StepTaken(run: Runs.Run, k: nat)
    requires run.Valid() && k < |run.actions| && run.Steps(k)
    requires run.actions[k].Handle? ==> run.states[k].queue != []
    ensures var s, t, a := run.states[k], run.states[k + 1], run.actions[k];
      && t.d.(fx := T.Trace(run, k + 1)) == Moved(s.d.(fx := T.Trace(run, k)), a, s.queue)
      && t.now == s.now + (if a.Elapse? then a.dt else 0)
      && t.queue == if a.Handle? then s.queue[1..] else s.queue + Runs.Added(a)
  {
    hide S.Dispatch;
    var s, a, past := run.states[k], run.actions[k], T.Trace(run, k);
    if a.Handle? {
      T.DispatchSince(past, s.d.(fx := []), s.queue[0], a.e);
    }
    assert past + [] == past;
  }
}
