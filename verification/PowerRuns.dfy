/** The power policy over runs: how long an override lives, what is applied, and what becomes of the
    panel's brightness. */
module PowerRuns {
  import opened Prelude
  import opened Power
  import opened PowerPolicy

  // ---- one check ----

  lemma NeverExpiresAtOnce(base: BaseState)
    ensures !Expired(base, base)
  {
  }

  /** A second check on unchanged inputs changes nothing and emits nothing, whatever powerd and logind
      answer by then. */
  lemma CheckIsIdempotent(c: PowerCtx, base: BaseState, e1: Env, e2: Env)
    ensures Check(Check(c, base, e1), base, e2) == Check(c, base, e1)
  {
    hide StampOrExpire, Apply, Edge;
    var c1, r := StampOrExpire(c, base, e1), Check(c, base, e1);
    ApplyKeeps(c1, Wanted(c1, base), e1);
    StampSettles(c, base, e1, e2, r);
    ApplySettles(c1, Wanted(c1, base), e1, e2, r);
  }

  lemma StampSettles(c: PowerCtx, base: BaseState, e1: Env, e2: Env, r: PowerCtx)
    requires r.over == StampOrExpire(c, base, e1).over && r.overBase == StampOrExpire(c, base, e1).overBase
    ensures StampOrExpire(r, base, e2) == r
  {
    assert !Expired(base, base) by { NeverExpiresAtOnce(base); }
  }

  lemma ApplySettles(c: PowerCtx, p: Profile, e1: Env, e2: Env, r: PowerCtx)
    requires r.applied == Apply(c, p, e1).applied && r.available == Apply(c, p, e1).available
    ensures Apply(r, p, e2) == r
  {
  }

  lemma ApplyKeeps(c: PowerCtx, p: Profile, e: Env)
    ensures var r := Apply(c, p, e);
      r.over == c.over && r.overBase == c.overBase && r.overFile == c.overFile && r.policy == c.policy
  {
  }

  /** An echo is a no-op exactly when it says what the context already holds. */
  lemma EchoIsNoOpExactlyWhen(c: PowerCtx, word: Option<Profile>)
    requires c.over.None? ==> c.overBase.None?
    ensures Ingest(c, word) == c <==> word == c.over
  {
  }

  /** After an outage, the check that follows powerd's return calls it once, whatever was applied before,
      and leaves the wanted profile applied. */
  lemma ReturnReapplies(c: PowerCtx, base: BaseState, e: Env)
    requires !c.available && e.powerdOk
    ensures var wanted := StampOrExpire(c, base, e).over.GetOr(c.policy.ForBase(base));
      var r := Check(Appear(c), base, e);
      r.applied == Some(wanted) && r.fx == StampOrExpire(c, base, e).fx + [ApplyCalled(wanted, true)]
  {
  }

  // ---- the override over a run ----

  datatype Op = Tick(base: BaseState, e: Env) | Echo | Appears

  /** A policy check, the echo of what the override file holds, or powerd's return to the bus. */
  function Step(c: PowerCtx, op: Op): PowerCtx {
    match op
    case Tick(base, e) => Check(c, base, e)
    case Echo => Ingest(c, c.overFile)
    case Appears => Appear(c)
  }

  function Steps(c: PowerCtx, ops: seq<Op>): PowerCtx {
    if ops == [] then c else Step(Steps(c, ops[..|ops| - 1]), ops[|ops| - 1])
  }

  /** The context and the file say the same, and only a standing override has a stamp. */
  predicate Settled(c: PowerCtx) {
    c.over == c.overFile && (c.over.None? ==> c.overBase.None?)
  }

  /** The stamp is still good at every base checked so far. */
  predicate NeverExpired(stamp: BaseState, ops: seq<Op>) {
    forall k | 0 <= k < |ops| && ops[k].Tick? :: !Expired(stamp, ops[k].base)
  }

  /** A freshly taken override is stamped by its first check; from then on, through any checks and any
      echoes between them, it stands exactly while every base has had the stamp's side of the charger and
      has been low only if the stamp was. Once gone it stays gone. */
  lemma {:induction false} OverrideLifetime(c: PowerCtx, first: BaseState, e: Env, ops: seq<Op>)
    requires Settled(c) && c.over.Some? && c.overBase.None?
    requires forall k | 0 <= k < |ops| && ops[k].Tick? :: ops[k].e.fileOk
    ensures var r := Steps(Check(c, first, e), ops);
      && Settled(r)
      && r.over == (if NeverExpired(first, ops) then c.over else None)
      && r.overBase == (if NeverExpired(first, ops) then Some(first) else None)
  {
    hide Check, Step;
    if ops == [] {
      FirstCheckStamps(c, first, e);
    } else {
      var n := |ops| - 1;
      OverrideLifetime(c, first, e, ops[..n]);
      StepStands(Steps(Check(c, first, e), ops[..n]), c.over.value, first, NeverExpired(first, ops[..n]), ops[n]);
      NeverExpiredSnoc(first, ops);
    }
  }

  lemma NeverExpiredSnoc(stamp: BaseState, ops: seq<Op>)
    requires ops != []
    ensures var n := |ops| - 1;
      NeverExpired(stamp, ops) <==> NeverExpired(stamp, ops[..n]) && (ops[n].Tick? ==> !Expired(stamp, ops[n].base))
  {
    hide Expired;
  }

  lemma FirstCheckStamps(c: PowerCtx, first: BaseState, e: Env)
    requires Settled(c) && c.over.Some? && c.overBase.None?
    ensures Stands(Check(c, first, e), c.over.value, first, true)
  {
    hide Apply, PanelAfter;
    ApplyKeeps(StampOrExpire(c, first, e), Wanted(StampOrExpire(c, first, e), first), e);
  }

  /** The override `p` with its stamp, or nothing, in the context and in the file. */
  predicate Stands(c: PowerCtx, p: Profile, stamp: BaseState, alive: bool) {
    && Settled(c)
    && c.over == (if alive then Some(p) else None)
    && c.overBase == (if alive then Some(stamp) else None)
  }

  lemma StepStands(c: PowerCtx, p: Profile, stamp: BaseState, alive: bool, op: Op)
    requires Stands(c, p, stamp, alive) && (op.Tick? ==> op.e.fileOk)
    ensures Stands(Step(c, op), p, stamp, alive && (op.Tick? ==> !Expired(stamp, op.base)))
  {
    hide Apply, PanelAfter, Expired;
    if op.Tick? {
      var c1 := StampOrExpire(c, op.base, op.e);
      ApplyKeeps(c1, Wanted(c1, op.base), op.e);
    }
  }

  /** The files matter: an expired override comes back with an echo, to be stamped afresh, exactly when its
      file could not be removed. */
  lemma ExpiryIsFinalExactlyWhen(c: PowerCtx, base: BaseState, e: Env)
    requires Settled(c) && c.overBase.Some? && Expired(c.overBase.value, base)
    ensures var r := Check(c, base, e);
      && r.over == None
      && Step(r, Echo).over == (if e.fileOk then None else c.over)
      && Step(r, Echo).overBase == None
  {
  }

  /** powerd has answered every check since it was last seen to appear. */
  predicate Answering(up: bool, ops: seq<Op>) {
    if ops == [] then up
    else
      var last := ops[|ops| - 1];
      last.Appears? || (Answering(up, ops[..|ops| - 1]) && (last.Tick? ==> last.e.powerdOk))
  }

  /** Through any outages and returns: while powerd counts as reachable, and it does as long as it answers,
      every check leaves the live override applied, else the policy's choice for its base. */
  lemma {:induction false} EveryCheckApplies(c: PowerCtx, ops: seq<Op>)
    ensures var r := Steps(c, ops);
      && r.policy == c.policy
      && (Answering(c.available, ops) ==> r.available)
      && (r.available && ops != [] && ops[|ops| - 1].Tick? ==>
            r.applied == Some(r.over.GetOr(c.policy.ForBase(ops[|ops| - 1].base))))
  {
    if ops != [] {
      var n := |ops| - 1;
      EveryCheckApplies(c, ops[..n]);
      StepApplies(Steps(c, ops[..n]), ops[n]);
    }
  }

  lemma StepApplies(c: PowerCtx, op: Op)
    ensures var r := Step(c, op);
      && r.policy == c.policy
      && ((op.Appears? || (c.available && (op.Tick? ==> op.e.powerdOk))) ==> r.available)
      && (r.available && op.Tick? ==> r.applied == Some(r.over.GetOr(c.policy.ForBase(op.base))))
  {
    hide PanelAfter, Expired;
  }

  // ---- brightness over a run ----

  /** A check, with logind setting the brightness and powerd answering or not; or a wake. */
  datatype Turn = Base(base: BaseState, powerdOk: bool) | Wake

  /** Which side of the charger the last check saw, and whether the battery has been low since it left. */
  datatype Side = Charging | Discharging(seenLow: bool)

  function SideAfter(s: Side, t: Turn): Side {
    match t
    case Wake => s
    case Base(b, _) => if OnAcSide(b) then Charging else Discharging((s.Discharging? && s.seenLow) || b == BatteryLow)
  }

  function Turned(c: PowerCtx, t: Turn): PowerCtx {
    match t
    case Base(b, powerdOk) => Check(c, b, Env(powerdOk, true, true))
    case Wake => c.(panel := Rearm(c.panel))
  }

  function TurnedAll(c: PowerCtx, ts: seq<Turn>): PowerCtx {
    if ts == [] then c else Turned(TurnedAll(c, ts[..|ts| - 1]), ts[|ts| - 1])
  }

  function SideAll(ts: seq<Turn>): Side {
    if ts == [] then Charging else SideAfter(SideAll(ts[..|ts| - 1]), ts[|ts| - 1])
  }

  /** A level capped at one `parts`-th of the maximum; the write never goes below 1. */
  function Capped(level: nat, max: nat, parts: nat): (r: nat)
    requires parts > 0
    ensures r <= level
    ensures level >= 1 ==> r >= 1
    ensures r <= max / parts || r == 1
  {
    if level > max / parts then if max / parts >= 1 then max / parts else 1 else level
  }

  function Shown(start: nat, max: nat, s: Side): nat {
    match s
    case Charging => start
    case Discharging(low) =>
      var half := Capped(start, max, 2);
      if low then Capped(half, max, 4) else half
  }

  /** The panel is where the side says, and the daemon knows it. */
  predicate Tracks(c: PowerCtx, start: nat, s: Side) {
    && PanelTracks(c.panel, start, s)
    && c.lastBase.Some?
    && (OnAcSide(c.lastBase.value) <==> s.Charging?)
    && (s == Discharging(false) ==> c.lastBase.value != BatteryLow)
  }

  /** The panel part of `Tracks`. */
  predicate PanelTracks(p: Panel, start: nat, s: Side) {
    && p.present
    && p.level == Shown(start, p.max, s)
    && (p.lastSet.Some? ==> p.lastSet.value == p.level)
    && p.saved == (if s.Charging? then None else Some(start))
  }

  lemma DimShows(p: Panel, parts: nat, e: Env)
    requires p.present && e.writeOk && parts > 0 && 1 <= p.level <= p.max
    requires p.lastSet.Some? ==> p.lastSet.value == p.level
    ensures var r := Dim(p, parts, e);
      r == p.(level := Capped(p.level, p.max, parts), lastSet := r.lastSet)
      && (r.lastSet.Some? ==> r.lastSet.value == r.level)
  {
  }

  lemma EdgeTracks(p: Panel, start: nat, s: Side, prev: BaseState, base: BaseState, e: Env)
    requires PanelTracks(p, start, s) && 1 <= start <= p.max && e.writeOk
    requires prev != base && (OnAcSide(prev) <==> s.Charging?) && (s == Discharging(false) ==> prev != BatteryLow)
    ensures PanelTracks(Edge(p, prev, base, e), start, SideAfter(s, Base(base, e.powerdOk)))
    ensures Edge(p, prev, base, e).max == p.max
    ensures !OnAcSide(base) ==> Edge(p, prev, base, e).level <= p.level
  {
    var p1 := if OnAcSide(prev) && !OnAcSide(base) then SaveAndCap(p, e) else p;
    if OnAcSide(prev) && !OnAcSide(base) {
      DimShows(p.(saved := Some(p.level)), 2, e);
    }
    if base == BatteryLow && prev != BatteryLow {
      DimShows(p1, 4, e);
    }
  }

  lemma CheckTracks(p: Panel, prev: BaseState, start: nat, s: Side, base: BaseState, e: Env)
    requires PanelTracks(p, start, s) && 1 <= start <= p.max && e.writeOk
    requires (OnAcSide(prev) <==> s.Charging?) && (s == Discharging(false) ==> prev != BatteryLow)
    ensures var r := PanelAfter(p, Some(prev), base, e);
      && PanelTracks(r, start, SideAfter(s, Base(base, e.powerdOk)))
      && r.max == p.max
      && (!OnAcSide(base) ==> r.level <= p.level)
  {
    if prev != base {
      EdgeTracks(p, start, s, prev, base, e);
    }
  }

  /** Each check or wake keeps the panel where its side says; off the charger it never brightens. */
  lemma TurnTracks(c: PowerCtx, start: nat, s: Side, t: Turn)
    requires Tracks(c, start, s) && 1 <= start <= c.panel.max
    ensures Tracks(Turned(c, t), start, SideAfter(s, t))
    ensures Turned(c, t).panel.max == c.panel.max
    ensures SideAfter(s, t).Discharging? ==> Turned(c, t).panel.level <= c.panel.level
  {
    if t.Base? {
      var e := Env(t.powerdOk, true, true);
      CheckTracks(c.panel, c.lastBase.value, start, s, t.base, e);
      assert Turned(c, t).panel == PanelAfter(c.panel, c.lastBase, t.base, e);
    }
  }

  /** Brightness is conserved. With a panel only the daemon writes, over any sequence of base states and
      wakes that starts on the charger, every check on the charger shows the starting value again; off
      it, the panel shows the start capped at half, and at a quarter once the battery has been low. */
  lemma {:induction false} BrightnessIsConserved(c: PowerCtx, ts: seq<Turn>)
    requires Tracks(c, c.panel.level, Charging) && 1 <= c.panel.level <= c.panel.max
    ensures TurnedAll(c, ts).panel.max == c.panel.max
    ensures Tracks(TurnedAll(c, ts), c.panel.level, SideAll(ts))
  {
    if ts != [] {
      var n := |ts| - 1;
      BrightnessIsConserved(c, ts[..n]);
      TurnTracks(TurnedAll(c, ts[..n]), c.panel.level, SideAll(ts[..n]), ts[n]);
    }
  }

  /** A panel that started dark is the exception: pulling the charger and putting it back conserves the
      level exactly when it was at least 1. */
  lemma DarkPanelIsNotConserved(c: PowerCtx, e: Env)
    requires c.panel.present && c.panel.level <= c.panel.max && c.panel.max >= 1 && e.writeOk
    requires c.panel.lastSet.None? && c.panel.saved.None? && c.lastBase == Some(Ac)
    ensures Check(Check(c, Battery, e), Ac, e).panel.level == c.panel.level <==> c.panel.level >= 1
  {
    assert c.panel.max / 2 <= c.panel.max;
  }
}
