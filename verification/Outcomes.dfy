/** Where one dispatch ends and everything it does on the way, in the plain terms of the context. */
module Outcomes {
  import opened Prelude
  import opened Fsm
  import opened Suspend
  import opened SuspendRuns
  import opened SuspendSafety
  import opened Transitions

  // ---- the state ----

  /** Somebody keeps the machine awake: a claim, on an unlocked session that is not low off the charger. */
  predicate KeptAwake(i: Inputs) {
    (i.logindInhibitor || i.waylandInhibitor) && !i.locked && !(i.lowBattery && !i.onAcSettled)
  }

  /** A closed lid has nothing else to be shown on. */
  predicate Shut(i: Inputs) {
    i.lidClosed && i.extMonCount == 0
  }

  /** `s` is the waking state these inputs call for. */
  predicate Fits(s: State, conf: Conf, i: Inputs) {
    && (s == LidOpen <==> !i.lidClosed && !i.suspendRequested)
    && (s == Docked <==> i.lidClosed && i.extMonCount > 0 && !i.suspendRequested)
    && (s == Deferred <==>
          if i.suspendRequested then KeptAwake(i) else Shut(i) && (KeptAwake(i) || (conf.lidAcDefer && i.onAc)))
    && (s == Countdown <==>
          !KeptAwake(i) && (i.suspendRequested || (Shut(i) && !(conf.lidAcDefer && i.onAc))))
    && s != Suspending
  }

  lemma FitsTheWorld(s: State, conf: Conf, i: Inputs)
    ensures Fits(s, conf, i) <==> s == WorldState(World(conf, i))
  {
  }

  /** The machine is told of this event: `now` is what the dispatch left in the inputs. */
  predicate Told(d: Daemon, ev: Event, now: Inputs) {
    var was := d.inputs;
    match ev
    case Lid(_) => d.conf.lidPresent
    case MonitorHotplug(_) => true
    case Inhibitor(_, _) => true
    case LockChanged(_) => true
    case AcChanged(plugged) => plugged != was.onAc
    case PowerAcSettled => true
    case PowerdAppeared => true
    case BatteryPercent(_) => now.lowBattery != was.lowBattery || now.suspendRequested != was.suspendRequested
    case SuspendRequestChanged(_) => true
    case PlatformProfileChanged => true
    case GpuOverrideChanged => true
    case PowerOverrideChanged => true
    case TimerExpired => d.m.state == Countdown
    case Resumed => d.m.state == Suspending
    case ReconcileTick(_) =>
      || now.lidClosed != was.lidClosed || was.suspendRequested != (d.file != Absent)
      || now.extMonCount != was.extMonCount || now.locked != was.locked
      || now.logindInhibitor != was.logindInhibitor || now.waylandInhibitor != was.waylandInhibitor
    case _ => false
  }

  /** An expiry that finds its countdown still called for. */
  predicate Attempts(d: Daemon, ev: Event, now: Inputs) {
    ev.TimerExpired? && d.m.state == Countdown && Fits(Countdown, d.conf, now)
  }

  predicate LockIsProven(locked: bool, e: Env) {
    e.liveFirst || (((locked && e.liveInWait) || e.lockSignalled) && e.liveLast)
  }

  /** The state every dispatch ends in. */
  predicate EndsIn(s: State, d: Daemon, ev: Event, e: Env, now: Inputs) {
    if (d.m.state == Suspending && !ev.Resumed?) || !Told(d, ev, now) then s == d.m.state
    else if Attempts(d, ev, now) then
      s == if LockIsProven(now.locked, e) && e.suspendAccepted then Suspending else Countdown
    else Fits(s, d.conf, now)
  }

  lemma StateAfter(d: Daemon, ev: Event, e: Env)
    requires d.fx == []
    ensures EndsIn(Dispatch(d, ev, e).m.state, d, ev, e, Dispatch(d, ev, e).inputs)
  {
    hide EvaluateFsms, Absorb, Reconciled, Reasserted, Told, Fits;
    if ev.ReconcileTick? {
      TickStateAfter(d, ev.snap, e);
    } else if ev.ConfigReloaded? || ev.ProfileApplied? {
      ReassertKeepsState(d, e);
      NotTold(d, ev, Dispatch(d, ev, e).inputs);
    } else if ev.MonitorsChanged? {
      NotTold(d, ev, Dispatch(d, ev, e).inputs);
    } else {
      AbsorbShape(d, ev, e);
      AbsorbSaysOn(d, ev, e);
      if Absorb(d, ev, e).1 {
        TimersAndWakesAreTold(d, ev, Absorb(d, ev, e).0.inputs);
        EvaluateEndsIn(d, ev, Absorb(d, ev, e).0, e);
      }
    }
  }

  lemma TimersAndWakesAreTold(d: Daemon, ev: Event, now: Inputs)
    ensures ev.TimerExpired? ==> (Told(d, ev, now) <==> d.m.state == Countdown)
    ensures ev.Resumed? ==> (Told(d, ev, now) <==> d.m.state == Suspending)
  {
  }

  lemma NotTold(d: Daemon, ev: Event, now: Inputs)
    requires ev.ConfigReloaded? || ev.ProfileApplied? || ev.MonitorsChanged?
    ensures !Told(d, ev, now)
  {
  }

  lemma ReassertKeepsState(d: Daemon, e: Env)
    requires d.fx == []
    ensures Reasserted(d, e).m.state == d.m.state
  {
    hide OnEnter;
    if d.m.state != Suspending {
      OnEnterShape(d.m.state, Reassert, AdoptProfile(d, e), e);
    }
  }

  /** The machine, run on what an event left in the context. */
  lemma EvaluateEndsIn(d: Daemon, ev: Event, d1: Daemon, e: Env)
    requires !SuspendIn(d1.fx) && d1.m == d.m && d1.conf == d.conf && !ev.ReconcileTick?
    requires Told(d, ev, d1.inputs) <==>
      (ev.TimerExpired? ==> d.m.state == Countdown) && (ev.Resumed? ==> d.m.state == Suspending)
    ensures EvaluateFsms(d1, Kind(ev), e).inputs == d1.inputs
    ensures EndsIn(EvaluateFsms(d1, Kind(ev), e).m.state, d, ev, e, d1.inputs)
  {
    hide EvaluateFsms, Told, Fits;
    EvaluateShape(d1, Kind(ev), e);
    FitsTheWorld(EvaluateFsms(d1, Kind(ev), e).m.state, d.conf, d1.inputs);
    FitsTheWorld(Countdown, d.conf, d1.inputs);
  }

  /** An event goes on to the machine exactly as told, expiries and resumes always. */
  lemma AbsorbSaysOn(d: Daemon, ev: Event, e: Env)
    requires !ev.ReconcileTick? && !ev.ConfigReloaded? && !ev.ProfileApplied? && !ev.MonitorsChanged?
    ensures var (r, on) := Absorb(d, ev, e);
      on == (ev.TimerExpired? || ev.Resumed? || Told(d, ev, r.inputs))
  {
    hide BatteryLowCheck, BatteryLowStep, ClearRequest, RefreshClaim;
    if ev.BatteryPercent? {
      var low := BatteryLowStep(d.inputs.lowBattery, ev.pct, d.conf.batteryLowPct);
      CheckSaysWhatChanged(d.(inputs := d.inputs.(lowBattery := low)), e);
    }
  }

  lemma CheckSaysWhatChanged(d: Daemon, e: Env)
    ensures var (r, changed) := BatteryLowCheck(d, e);
      && changed == (r.inputs.suspendRequested != d.inputs.suspendRequested)
      && r.inputs.lowBattery == d.inputs.lowBattery
  {
  }

  lemma TickStateAfter(d: Daemon, snap: Snapshot, e: Env)
    requires d.fx == []
    ensures EndsIn(Reconciled(d, snap, e).m.state, d, ReconcileTick(snap), e, Reconciled(d, snap, e).inputs)
  {
    hide EvaluateFsms, RepairInputs, Reconciled, Fits, FsmDrift;
    TickShape(d, snap, e);
    RepairShape(d, snap, e);
    var d1, r := RepairInputs(d, snap, e), Reconciled(d, snap, e);
    EvaluateShape(d1, CtxRepaired, e);
    DriftIsTold(d, snap, e);
    FitsTheWorld(r.m.state, d.conf, d1.inputs);
    FitsWithoutPolicy(r.m.state, d.conf, d1.inputs, r.inputs);
  }

  lemma FitsWithoutPolicy(s: State, conf: Conf, i: Inputs, j: Inputs)
    requires j.(edpPolicy := i.edpPolicy) == i
    ensures Fits(s, conf, i) <==> Fits(s, conf, j)
  {
  }

  lemma DriftIsTold(d: Daemon, snap: Snapshot, e: Env)
    ensures var i := Repaired(d.conf.lidPresent, d.inputs, snap, d.file != Absent);
      FsmDrift(d.inputs, i) <==> Told(d, ReconcileTick(snap), RepairInputs(d, snap, e).inputs)
  {
    hide RepairInputs, Repaired;
    RepairedInputs(d, snap, e);
    RepairedFields(d.conf.lidPresent, d.inputs, snap, d.file != Absent);
  }

  // ---- what the state comes to ----

  /** Without a request the lid decides: open, it is LidOpen; shut beside an external it is Docked, whatever
      claim, lock, battery or charger hold says. */
  lemma NobodyAsksTheLidDecides(d: Daemon, ev: Event, e: Env)
    requires d.fx == [] && d.m.state != Suspending && Told(d, ev, Dispatch(d, ev, e).inputs)
    ensures var r := Dispatch(d, ev, e);
      !r.inputs.suspendRequested ==>
        && (!r.inputs.lidClosed ==> r.m.state == LidOpen)
        && (r.inputs.lidClosed && r.inputs.extMonCount > 0 ==> r.m.state == Docked)
  {
    hide Dispatch, Told;
    StateAfter(d, ev, e);
  }

  /** Locking ends a claim's authority: a shut laptop that was kept awake counts down at once. */
  lemma LockingEndsTheClaim(d: Daemon, e: Env)
    requires d.fx == [] && d.m.state == Deferred && Shut(d.inputs) && !(d.conf.lidAcDefer && d.inputs.onAc)
    ensures var r := Dispatch(d, LockChanged(true), e);
      r.m.state == Countdown
      && r.m.graceTimer == Some(Sleeping(e.now + if r.inputs.suspendRequested then 30 else d.conf.lidGrace))
  {
    hide Dispatch;
    StateAfter(d, LockChanged(true), e);
    SeatAfter(d, LockChanged(true), e);
    ClaimsAfter(d, LockChanged(true), e);
    PowerAfter(d, LockChanged(true), e);
    TimersAfter(d, LockChanged(true), e);
  }

  // ---- the timers ----

  /** This dispatch enters the state it ends in, or re-asserts it. */
  predicate Enters(d: Daemon, ev: Event, now: State) {
    now != d.m.state || (d.m.state != Suspending && (ev.ConfigReloaded? || ev.ProfileApplied?))
  }

  /** 30 seconds with a request standing, whatever the configured lid grace; the lid grace without one. */
  function FullWindow(conf: Conf, i: Inputs, now: nat): Option<Timer> {
    Some(Sleeping(now + if i.suspendRequested then 30 else conf.lidGrace))
  }

  /** A timer task that has not been joined: asleep, or past its send. */
  predicate Live(t: Option<Timer>) {
    t.Some? && (t.value == Sent || t.value.Sleeping?)
  }

  /** The grace timer and the claim watch after every dispatch. */
  lemma TimersAfter(d: Daemon, ev: Event, e: Env)
    requires d.fx == []
    ensures var r := Dispatch(d, ev, e);
      && r.m.graceTimer == (
           if Attempts(d, ev, r.inputs) && r.m.state == Countdown then FullWindow(d.conf, r.inputs, e.now)
           else if !Enters(d, ev, r.m.state) then d.m.graceTimer
           else if r.m.state != Countdown then None
           else if d.m.state == Countdown && Live(d.m.graceTimer) then d.m.graceTimer
           else FullWindow(d.conf, r.inputs, e.now))
      && r.m.claimWatch == (
           if Attempts(d, ev, r.inputs) then None
           else if !Enters(d, ev, r.m.state) then d.m.claimWatch
           else if r.m.state == Deferred && r.inputs.waylandInhibitor then Some(Watching)
           else None)
  {
    hide EvaluateFsms, Absorb, Reconciled, Reasserted, Fits, Attempts;
    if ev.ReconcileTick? {
      TickTimers(d, ev.snap, e);
    } else if ev.ConfigReloaded? || ev.ProfileApplied? {
      ReassertTimers(d, e);
      NeverAttempts(d, ev, Dispatch(d, ev, e).inputs);
    } else if ev.MonitorsChanged? {
      NeverAttempts(d, ev, Dispatch(d, ev, e).inputs);
    } else {
      AbsorbShape(d, ev, e);
      AbsorbSaysOn(d, ev, e);
      var d1 := Absorb(d, ev, e).0;
      EvaluateShape(d1, Kind(ev), e);
      AttemptIsProposed(d, ev, d1);
      EvaluateTimers(d1, Kind(ev), e);
      if !Absorb(d, ev, e).1 {
        NeverAttempts(d, ev, d1.inputs);
      }
    }
  }

  lemma NeverAttempts(d: Daemon, ev: Event, now: Inputs)
    requires !ev.TimerExpired?
    ensures !Attempts(d, ev, now)
  {
  }

  lemma AttemptIsProposed(d: Daemon, ev: Event, d1: Daemon)
    requires d1.m == d.m && d1.conf == d.conf && !ev.ReconcileTick?
    ensures Attempts(d, ev, d1.inputs) <==> DesiredState(d1.m.state, Kind(ev), d1.W()) == Some(Suspending)
  {
    hide Fits, WorldState;
    FitsTheWorld(Countdown, d.conf, d1.inputs);
  }

  lemma EntryTimers(state: State, entry: Entry, d: Daemon, e: Env)
    requires state != Suspending
    ensures var m := OnEnter(state, entry, d, e).0.m;
      && m.claimWatch == (if state == Deferred && d.inputs.waylandInhibitor then Some(Watching) else None)
      && m.graceTimer == (
           if state != Countdown then None
           else if entry == Reassert && Live(d.m.graceTimer) then d.m.graceTimer
           else FullWindow(d.conf, d.inputs, e.now))
  {
  }

  lemma EvaluateTimers(d: Daemon, kind: EventKind, e: Env)
    requires !SuspendIn(d.fx)
    ensures var r, next := EvaluateFsms(d, kind, e), DesiredState(d.m.state, kind, d.W());
      && r.m.graceTimer == (
           if next == Some(Suspending) && r.m.state == Countdown then FullWindow(d.conf, d.inputs, e.now)
           else if r.m.state == d.m.state then d.m.graceTimer
           else if r.m.state != Countdown then None
           else FullWindow(d.conf, d.inputs, e.now))
      && r.m.claimWatch == (
           if next == Some(Suspending) then None
           else if r.m.state == d.m.state then d.m.claimWatch
           else if r.m.state == Deferred && d.inputs.waylandInhibitor then Some(Watching)
           else None)
  {
    hide SuspendingTail, SetEdp, WorldState;
    var next := DesiredState(d.m.state, kind, d.W());
    if next == Some(Suspending) {
      TailShape(CancelGrace(SetClaimWatch(d, false)), e);
    } else if next.Some? && next.value != d.m.state {
      EntryTimers(next.value, Fresh, EnterState(d, next.value), e);
      OnEnterShape(next.value, Fresh, EnterState(d, next.value), e);
      hide OnEnter;
    }
  }

  lemma ReassertTimers(d: Daemon, e: Env)
    requires d.fx == []
    ensures var r := Reasserted(d, e);
      && r.m.state == d.m.state
      && r.inputs.(edpPolicy := d.inputs.edpPolicy) == d.inputs
      && r.m.graceTimer == (
           if d.m.state == Suspending then d.m.graceTimer
           else if d.m.state != Countdown then None
           else if Live(d.m.graceTimer) then d.m.graceTimer
           else FullWindow(d.conf, d.inputs, e.now))
      && r.m.claimWatch == (
           if d.m.state == Suspending then d.m.claimWatch
           else if d.m.state == Deferred && d.inputs.waylandInhibitor then Some(Watching)
           else None)
  {
    hide OnEnter;
    if d.m.state != Suspending {
      EntryTimers(d.m.state, Reassert, AdoptProfile(d, e), e);
      OnEnterShape(d.m.state, Reassert, AdoptProfile(d, e), e);
    }
  }

  lemma TickTimers(d: Daemon, snap: Snapshot, e: Env)
    requires d.fx == []
    ensures var r := Reconciled(d, snap, e);
      && !Attempts(d, ReconcileTick(snap), r.inputs)
      && r.m.graceTimer == (
           if r.m.state == d.m.state then d.m.graceTimer
           else if r.m.state != Countdown then None
           else FullWindow(d.conf, r.inputs, e.now))
      && r.m.claimWatch == (
           if r.m.state == d.m.state then d.m.claimWatch
           else if r.m.state == Deferred && r.inputs.waylandInhibitor then Some(Watching)
           else None)
  {
    TickTailKeepsMachine(d, snap, e);
    hide EvaluateFsms, RepairInputs, Reconciled, FsmDrift;
    TickShape(d, snap, e);
    RepairShape(d, snap, e);
    EvaluateShape(RepairInputs(d, snap, e), CtxRepaired, e);
    EvaluateTimers(RepairInputs(d, snap, e), CtxRepaired, e);
  }

  // ---- the trace ----

  function RequestPart(d: Daemon, ev: Event, e: Env, now: Inputs): seq<Effect> {
    if Requests(d, ev, e, now) then [RequestWritten]
    else if Withdraws(d, ev, e, now) then [RequestRemoved(BatteryLow)]
    else if ev.Resumed? && d.file != Absent && e.removeOk then [RequestRemoved(d.file)]
    else []
  }

  /** The panel goes by the profile's policy, else it is on with the lid open only; the last output stays on. */
  function PanelPart(policy: EdpPolicy, state: State, extMonCount: nat): seq<Effect> {
    if policy == Enable || (policy == Auto && state == LidOpen) then [PanelSet(true)]
    else if extMonCount > 0 then [PanelSet(false)]
    else []
  }

  /** Media are paused when a claim, and not a charger hold, parks the lid. */
  function MediaPart(state: State, i: Inputs): seq<Effect> {
    if state == Deferred && KeptAwake(i) then [MediaPaused] else []
  }

  /** One suspend attempt: a live reading; unless it proves the lock, a request, the wait and a last
      reading; and the call only once proven. */
  function AttemptPart(locked: bool, e: Env): seq<Effect> {
    if e.liveFirst then [LockerRead(true), SuspendCalled(e.suspendAccepted)]
    else
      [LockerRead(false), LockRequested] + (if locked then [LockerRead(e.liveInWait)] else [])
      + if (locked && e.liveInWait) || e.lockSignalled
        then [LockerRead(e.liveLast)] + (if e.liveLast then [SuspendCalled(e.suspendAccepted)] else [])
        else []
  }

  /** What a tick sets right: the panel where it is not as wanted, and outputs dark with nobody to wake them. */
  function CorrectPart(d: Daemon, snap: Snapshot, policy: EdpPolicy, state: State, extMonCount: nat): seq<Effect> {
    var wanted := policy == Enable || (policy == Auto && state == LidOpen);
    if state != Suspending && snap.edpDisabled == Some(wanted) then PanelPart(policy, state, extMonCount) else []
  }

  function LightPart(d: Daemon, snap: Snapshot, state: State, locked: bool): seq<Effect> {
    var moved := d.m.lastCursor.Some? && snap.cursor.Some? && d.m.lastCursor.value != snap.cursor.value;
    if snap.dpmsOff == Some(true) && (state == LidOpen || state == Docked) && (!locked || moved) then [DpmsOn] else []
  }

  /** Everything a dispatch does, in order, by what it found and what it left. The state is entered under the
      panel policy found; a re-assert and a tick's correction go by the policy just read. */
  function Does(d: Daemon, ev: Event, e: Env, state: State, now: Inputs): seq<Effect> {
    RequestPart(d, ev, e, now)
    + (if Attempts(d, ev, now) then AttemptPart(now.locked, e)
       else if Enters(d, ev, state)
       then PanelPart(if ev.ReconcileTick? then d.inputs.edpPolicy else now.edpPolicy, state, now.extMonCount)
            + MediaPart(state, now)
       else [])
    + match ev
      case ReconcileTick(snap) =>
        CorrectPart(d, snap, now.edpPolicy, state, now.extMonCount) + LightPart(d, snap, state, now.locked)
      case _ => []
  }

  lemma TraceAfter(d: Daemon, ev: Event, e: Env)
    requires d.fx == []
    ensures var r := Dispatch(d, ev, e);
      r.fx == Does(d, ev, e, r.m.state, r.inputs)
  {
    hide EvaluateFsms, Absorb, Reconciled, Reasserted, Fits, Attempts, RequestPart, PanelPart, MediaPart, AttemptPart,
         CorrectPart, LightPart;
    if ev.ReconcileTick? {
      TickTrace(d, ev.snap, e);
    } else if ev.ConfigReloaded? || ev.ProfileApplied? {
      ReassertTrace(d, ev, e);
      NeverAttempts(d, ev, Dispatch(d, ev, e).inputs);
    } else if ev.MonitorsChanged? {
      QuietRequest(d, ev, e, Dispatch(d, ev, e).inputs);
      NeverAttempts(d, ev, Dispatch(d, ev, e).inputs);
    } else {
      AbsorbShape(d, ev, e);
      AbsorbSaysOn(d, ev, e);
      var d1 := Absorb(d, ev, e).0;
      AbsorbTrace(d, ev, e);
      EvaluateShape(d1, Kind(ev), e);
      AttemptIsProposed(d, ev, d1);
      EvaluateTrace(d1, Kind(ev), e);
      if !Absorb(d, ev, e).1 {
        NeverAttempts(d, ev, d1.inputs);
      }
    }
  }

  lemma QuietRequest(d: Daemon, ev: Event, e: Env, now: Inputs)
    requires ev.ConfigReloaded? || ev.ProfileApplied? || ev.MonitorsChanged?
    ensures RequestPart(d, ev, e, now) == []
  {
  }

  lemma EntryTrace(state: State, entry: Entry, d: Daemon, e: Env)
    requires state != Suspending
    ensures OnEnter(state, entry, d, e).0.fx
         == d.fx + PanelPart(d.inputs.edpPolicy, state, d.inputs.extMonCount) + MediaPart(state, d.inputs)
  {
  }

  lemma TailTrace(d: Daemon, e: Env)
    ensures SuspendingTail(d, e).0.fx == d.fx + AttemptPart(d.inputs.locked, e)
  {
  }

  lemma EvaluateTrace(d: Daemon, kind: EventKind, e: Env)
    requires !SuspendIn(d.fx)
    ensures var r, next := EvaluateFsms(d, kind, e), DesiredState(d.m.state, kind, d.W());
      r.fx == d.fx
        + if next == Some(Suspending) then AttemptPart(d.inputs.locked, e)
          else if r.m.state != d.m.state
          then PanelPart(d.inputs.edpPolicy, r.m.state, d.inputs.extMonCount) + MediaPart(r.m.state, d.inputs)
          else []
  {
    hide SuspendingTail, SetEdp, WorldState, PanelPart, MediaPart, AttemptPart;
    var next := DesiredState(d.m.state, kind, d.W());
    if next == Some(Suspending) {
      TailTrace(CancelGrace(SetClaimWatch(d, false)), e);
    } else if next.Some? && next.value != d.m.state {
      EntryTrace(next.value, Fresh, EnterState(d, next.value), e);
      OnEnterShape(next.value, Fresh, EnterState(d, next.value), e);
      hide OnEnter;
    }
  }

  lemma ReassertTrace(d: Daemon, ev: Event, e: Env)
    requires d.fx == [] && (ev.ConfigReloaded? || ev.ProfileApplied?)
    ensures var r := Reasserted(d, e);
      && r.m.state == d.m.state
      && RequestPart(d, ev, e, r.inputs) == []
      && r.fx == if d.m.state == Suspending then []
                 else PanelPart(r.inputs.edpPolicy, d.m.state, r.inputs.extMonCount) + MediaPart(d.m.state, r.inputs)
  {
    hide OnEnter, PanelPart, MediaPart;
    if d.m.state != Suspending {
      EntryTrace(d.m.state, Reassert, AdoptProfile(d, e), e);
      OnEnterShape(d.m.state, Reassert, AdoptProfile(d, e), e);
    }
  }

  lemma CheckTrace(d: Daemon, e: Env)
    ensures var r, i := BatteryLowCheck(d, e).0, d.inputs;
      r.fx == d.fx
        + if !i.suspendRequested && i.lowBattery && !i.onAc && !i.onAcSettled && e.writeOk then [RequestWritten]
          else if i.suspendRequested && (i.onAc || !i.lowBattery) && d.file == BatteryLow && e.removeOk
          then [RequestRemoved(BatteryLow)] else []
  {
  }

  lemma AbsorbTrace(d: Daemon, ev: Event, e: Env)
    requires d.fx == [] && !ev.ReconcileTick?
    ensures Absorb(d, ev, e).0.fx == RequestPart(d, ev, e, Absorb(d, ev, e).0.inputs)
  {
    hide BatteryLowCheck, BatteryLowStep, RefreshClaim;
    var i := d.inputs;
    if ev.AcChanged? || ev.PowerAcSettled? || ev.BatteryPercent? {
      var now :=
        if ev.AcChanged? then i.(onAc := ev.plugged)
        else if ev.PowerAcSettled? then i.(onAcSettled := i.onAc)
        else i.(lowBattery := BatteryLowStep(i.lowBattery, ev.pct, d.conf.batteryLowPct));
      CheckTrace(d.(inputs := now), e);
      CheckKeepsTheRest(d.(inputs := now), e);
    }
  }

  lemma RepairTrace(d: Daemon, snap: Snapshot, e: Env)
    requires d.fx == []
    ensures RepairInputs(d, snap, e).fx == RequestPart(d, ReconcileTick(snap), e, RepairInputs(d, snap, e).inputs)
  {
    hide BatteryLowCheck, Repaired;
    var i := Repaired(d.conf.lidPresent, d.inputs, snap, d.file != Absent);
    var d1 := d.(inputs := i.(onAcSettled := i.onAc));
    RepairedFields(d.conf.lidPresent, d.inputs, snap, d.file != Absent);
    CheckTrace(d1, e);
    CheckKeepsTheRest(d1, e);
  }

  lemma CorrectTrace(d0: Daemon, d: Daemon, snap: Snapshot)
    requires d.m.state != Suspending
    ensures EnforcePanel(d, snap.edpDisabled).fx
         == d.fx + CorrectPart(d0, snap, d.inputs.edpPolicy, d.m.state, d.inputs.extMonCount)
  {
  }

  lemma LightTrace(d0: Daemon, d: Daemon, snap: Snapshot)
    requires d.m.lastCursor == d0.m.lastCursor
    ensures RepairDpms(d, snap).fx == d.fx + LightPart(d0, snap, d.m.state, d.inputs.locked)
  {
  }

  lemma TickTrace(d: Daemon, snap: Snapshot, e: Env)
    requires d.fx == []
    ensures var r := Reconciled(d, snap, e);
      r.fx == Does(d, ReconcileTick(snap), e, r.m.state, r.inputs)
  {
    hide EvaluateFsms, RepairAndDrive, EnforcePanel, RepairDpms, Attempts, RequestPart, PanelPart, MediaPart,
         AttemptPart, CorrectPart, LightPart;
    var d1, r := RepairAndDrive(d, snap, e), Reconciled(d, snap, e);
    NeverAttempts(d, ReconcileTick(snap), r.inputs);
    DriveTrace(d, snap, e);
    TailOfTickTrace(d, d1, snap, e);
    PartsWithoutPolicy(d, snap, e, d1.inputs, r.inputs, r.m.state);
  }

  /** The first half of a tick: repair and drive, under the panel policy found. */
  lemma DriveTrace(d: Daemon, snap: Snapshot, e: Env)
    requires d.fx == []
    ensures var d1 := RepairAndDrive(d, snap, e);
      && d1.inputs.edpPolicy == d.inputs.edpPolicy && d1.m.lastCursor == d.m.lastCursor && !SuspendIn(d1.fx)
      && d1.fx == RequestPart(d, ReconcileTick(snap), e, d1.inputs)
           + if d1.m.state != d.m.state
             then PanelPart(d.inputs.edpPolicy, d1.m.state, d1.inputs.extMonCount) + MediaPart(d1.m.state, d1.inputs)
             else []
  {
    hide EvaluateFsms, RepairInputs, FsmDrift, RequestPart, PanelPart, MediaPart, AttemptPart, WorldState;
    var d0 := RepairInputs(d, snap, e);
    RepairShape(d, snap, e);
    RepairTrace(d, snap, e);
    RepairedPolicy(d, snap, e);
    EvaluateShape(d0, CtxRepaired, e);
    EvaluateTrace(d0, CtxRepaired, e);
  }

  /** The second half: the correction under the policy just read, and the light. */
  lemma TailOfTickTrace(d: Daemon, d1: Daemon, snap: Snapshot, e: Env)
    requires !SuspendIn(d1.fx) && d1.m.lastCursor == d.m.lastCursor
    ensures var r := if d1.m.state == Suspending then d1
                     else RepairDpms(EnforcePanel(AdoptProfile(d1, e), snap.edpDisabled), snap);
      && r.m.state == d1.m.state && r.inputs == d1.inputs.(edpPolicy := r.inputs.edpPolicy)
      && r.fx == d1.fx + (CorrectPart(d, snap, r.inputs.edpPolicy, r.m.state, r.inputs.extMonCount)
                          + LightPart(d, snap, r.m.state, r.inputs.locked))
  {
    hide EnforcePanel, RepairDpms, CorrectPart, LightPart;
    if d1.m.state == Suspending {
      NothingInSleep(d, snap, d1.inputs);
    } else {
      var d2 := AdoptProfile(d1, e);
      PanelShape(d2, snap.edpDisabled);
      CorrectTrace(d, d2, snap);
      DpmsShape(EnforcePanel(d2, snap.edpDisabled), snap);
      LightTrace(d, EnforcePanel(d2, snap.edpDisabled), snap);
    }
  }

  lemma NothingInSleep(d: Daemon, snap: Snapshot, now: Inputs)
    ensures CorrectPart(d, snap, now.edpPolicy, Suspending, now.extMonCount) == []
    ensures LightPart(d, snap, Suspending, now.locked) == []
  {
  }

  lemma PartsWithoutPolicy(d: Daemon, snap: Snapshot, e: Env, i: Inputs, j: Inputs, s: State)
    ensures j == i.(edpPolicy := j.edpPolicy) ==>
      && RequestPart(d, ReconcileTick(snap), e, i) == RequestPart(d, ReconcileTick(snap), e, j)
      && MediaPart(s, i) == MediaPart(s, j)
  {
  }

  /** With the lid open or the machine docked nothing pauses the media. */
  lemma ShownMediaPlayOn(d: Daemon, ev: Event, e: Env)
    requires d.fx == []
    ensures var r := Dispatch(d, ev, e);
      (r.m.state == LidOpen || r.m.state == Docked) ==> MediaPaused !in r.fx
  {
    hide Dispatch, RequestPart, PanelPart, MediaPart, AttemptPart, CorrectPart, LightPart, Attempts, Enters;
    TraceAfter(d, ev, e);
    var r := Dispatch(d, ev, e);
    OnlyParkingPauses(d, ev, e, r.m.state, r.inputs);
  }

  lemma OnlyParkingPauses(d: Daemon, ev: Event, e: Env, state: State, now: Inputs)
    ensures MediaPaused !in RequestPart(d, ev, e, now) && MediaPaused !in AttemptPart(now.locked, e)
    ensures forall policy :: MediaPaused !in PanelPart(policy, state, now.extMonCount)
    ensures ev.ReconcileTick? ==> MediaPaused !in CorrectPart(d, ev.snap, now.edpPolicy, state, now.extMonCount)
    ensures ev.ReconcileTick? ==> MediaPaused !in LightPart(d, ev.snap, state, now.locked)
    ensures state != Deferred ==> MediaPart(state, now) == []
  {
    hide Requests, Withdraws, KeptAwake;
  }

  /** Startup: the whole daemon it leaves. */
  lemma BootAfter(conf: Conf, inputs: Inputs, leftover: Request, e: Env)
    ensures var d := Boot(conf, inputs, leftover, e).d;
      var asks := inputs.lowBattery && !inputs.onAc && !inputs.onAcSettled && e.writeOk;
      && d.conf == conf && d.inputs == inputs.(suspendRequested := asks)
      && d.file == (if asks then BatteryLow else if e.removeOk then Absent else leftover)
      && Fits(d.m.state, conf, d.inputs)
      && d.m.graceTimer == (if d.m.state == Countdown then FullWindow(conf, d.inputs, e.now) else None)
      && d.m.claimWatch == (if d.m.state == Deferred && inputs.waylandInhibitor then Some(Watching) else None)
      && d.m.lastCursor == None
      && d.fx == (if leftover != Absent && e.removeOk then [RequestRemoved(leftover)] else [])
               + (if asks then [RequestWritten] else [])
               + PanelPart(inputs.edpPolicy, d.m.state, inputs.extMonCount) + MediaPart(d.m.state, d.inputs)
  {
    hide Prepared, OnEnter, WorldState, Fits, PanelPart, MediaPart, FullWindow;
    var p := Prepared(conf, inputs, leftover, e);
    PreparedAfter(conf, inputs, leftover, e);
    BootShape(conf, inputs, leftover, e);
    var state := WorldState(p.W());
    EntryTimers(state, Fresh, EnterState(p, state), e);
    EntryTrace(state, Fresh, EnterState(p, state), e);
    FitsTheWorld(state, conf, p.inputs);
  }

  lemma PreparedAfter(conf: Conf, inputs: Inputs, leftover: Request, e: Env)
    ensures var p := Prepared(conf, inputs, leftover, e);
      var asks := inputs.lowBattery && !inputs.onAc && !inputs.onAcSettled && e.writeOk;
      && p.conf == conf && p.inputs == inputs.(suspendRequested := asks)
      && p.file == (if asks then BatteryLow else if e.removeOk then Absent else leftover)
      && p.fx == (if leftover != Absent && e.removeOk then [RequestRemoved(leftover)] else [])
               + (if asks then [RequestWritten] else [])
  {
    hide BatteryLowCheck, ClearRequest;
    var d := Daemon(conf, inputs.(suspendRequested := false), Machine(LidOpen, None, None, None), leftover, []);
    var c := ClearRequest(d, e);
    ClearOutcome(d, e);
    CheckOutcome(c, e);
    CheckTrace(c, e);
    CheckKeepsTheRest(c, e);
    CheckKeepsConf(c, e);
  }

  lemma ClearOutcome(d: Daemon, e: Env)
    ensures var c := ClearRequest(d, e);
      && c.inputs == d.inputs && c.conf == d.conf
      && c.file == (if e.removeOk then Absent else d.file)
      && c.fx == d.fx + if d.file != Absent && e.removeOk then [RequestRemoved(d.file)] else []
  {
  }

  lemma CheckKeepsConf(d: Daemon, e: Env)
    ensures BatteryLowCheck(d, e).0.conf == d.conf
  {
  }
}
