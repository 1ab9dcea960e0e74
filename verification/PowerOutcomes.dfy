/** One policy check in plain terms: the override, the profile and the calls it makes, and the panel, whoever
    moved it last. */
module PowerOutcomes {
  import opened Prelude
  import opened Power
  import opened PowerPolicy
  import opened PowerRuns

  predicate Plugged(b: BaseState) {
    b == Ac || b == DockedAc
  }

  // ---- the override, the profile and the calls ----

  /** The override's stamp no longer fits: the charger came or went, or the battery has turned low. */
  predicate Outlived(c: PowerCtx, base: BaseState) {
    && c.over.Some? && c.overBase.Some?
    && (Plugged(base) != Plugged(c.overBase.value) || (base == BatteryLow && c.overBase.value != BatteryLow))
  }

  function ChoiceOf(policy: Policy, base: BaseState): Profile {
    if base == DockedAc then policy.dockedAc
    else if base == Ac then policy.ac
    else if base == Battery then policy.battery
    else policy.batteryLow
  }

  /** Everything a check does but to the panel. */
  lemma CheckAfter(c: PowerCtx, base: BaseState, e: Env)
    ensures var r, ends := Check(c, base, e), Outlived(c, base);
      var wanted := if c.over.Some? && !ends then c.over.value else ChoiceOf(c.policy, base);
      var calls := c.available && c.applied != Some(wanted);
      && r.over == (if ends then None else c.over)
      && r.overBase == (if ends then None else if c.over.Some? && c.overBase.None? then Some(base) else c.overBase)
      && r.overFile == (if ends && e.fileOk then None else c.overFile)
      && r.applied == (if calls && e.powerdOk then Some(wanted) else c.applied)
      && r.available == (c.available && (calls ==> e.powerdOk))
      && r.lastBase == Some(base) && r.policy == c.policy
      && r.fx == c.fx
           + (if ends then (if e.fileOk then [OverrideFileRemoved] else []) + [Notified] else [])
           + (if calls then [ApplyCalled(wanted, e.powerdOk)] else [])
  {
    hide PanelAfter;
    StampAfter(c, base, e);
    hide StampOrExpire;
    ApplyAfter(StampOrExpire(c, base, e), Wanted(StampOrExpire(c, base, e), base), e);
    PolicyChooses(c.policy, base);
    hide Apply;
  }

  lemma PolicyChooses(policy: Policy, base: BaseState)
    ensures policy.ForBase(base) == ChoiceOf(policy, base)
  {
  }

  lemma StampAfter(c: PowerCtx, base: BaseState, e: Env)
    ensures var r, ends := StampOrExpire(c, base, e), Outlived(c, base);
      && r.over == (if ends then None else c.over)
      && r.overBase == (if ends then None else if c.over.Some? && c.overBase.None? then Some(base) else c.overBase)
      && r.overFile == (if ends && e.fileOk then None else c.overFile)
      && r.applied == c.applied && r.available == c.available && r.policy == c.policy
      && r.fx == c.fx + if ends then (if e.fileOk then [OverrideFileRemoved] else []) + [Notified] else []
  {
  }

  lemma ApplyAfter(c: PowerCtx, p: Profile, e: Env)
    ensures var r, calls := Apply(c, p, e), c.available && c.applied != Some(p);
      && r.applied == (if calls && e.powerdOk then Some(p) else c.applied)
      && r.available == (c.available && (calls ==> e.powerdOk))
      && r.over == c.over && r.overBase == c.overBase && r.overFile == c.overFile && r.policy == c.policy
      && r.fx == c.fx + if calls then [ApplyCalled(p, e.powerdOk)] else []
  {
  }

  /** A word that is news becomes the override and starts unstamped; the next check stamps it and, with
      powerd answering, applies it. */
  lemma NewOverrideIsStampedNext(c: PowerCtx, p: Profile, base: BaseState, e: Env)
    requires c.over != Some(p) && c.available && e.powerdOk
    ensures var d := Ingest(c, Some(p));
      && d.over == Some(p) && d.overBase == None
      && Check(d, base, e).over == Some(p) && Check(d, base, e).overBase == Some(base)
      && Check(d, base, e).applied == Some(p)
  {
    hide Check;
    CheckAfter(Ingest(c, Some(p)), base, e);
  }

  /** So does a profile set behind the daemon's back, even the one already standing. */
  lemma AdoptedProfileBecomesTheOverride(c: PowerCtx, p: Profile, now: Env, base: BaseState, e: Env)
    requires c.available && e.powerdOk
    ensures var d := Adopt(c, p, now);
      && d.over == Some(p) && d.overBase == None && d.overFile == (if now.fileOk then Some(p) else c.overFile)
      && Check(d, base, e).overBase == Some(base) && Check(d, base, e).applied == Some(p)
  {
    hide Check;
    CheckAfter(Adopt(c, p, now), base, e);
  }

  /** No word, no override: the next check goes by the policy. */
  lemma ClearedOverrideIsGone(c: PowerCtx, base: BaseState, e: Env)
    requires c.available && e.powerdOk
    ensures var d := Ingest(c, None);
      d.over == None && d.overBase == None && Check(d, base, e).applied == Some(ChoiceOf(c.policy, base))
  {
    hide Check;
    CheckAfter(Ingest(c, None), base, e);
  }

  // ---- the panel ----

  /** The panel is further from where the daemon put it than its slack, brighter or darker. */
  predicate Moved(p: Panel) {
    p.present && p.lastSet.Some? && (p.level > p.lastSet.value + p.slack || p.lastSet.value > p.level + p.slack)
  }

  function Lit(level: nat): nat {
    if level < 1 then 1 else level
  }

  /** The panel brought down to one `parts`-th of its maximum, if it is above and logind agrees. */
  function Lowered(p: Panel, parts: nat, e: Env): Panel
    requires parts > 0
  {
    if p.level > p.max / parts && e.writeOk
    then p.(level := Lit(p.max / parts), lastSet := Some(Lit(p.max / parts)))
    else p
  }

  /** The user's level stands: nothing to restore, and it counts as set. */
  function HandsOff(p: Panel): Panel {
    p.(saved := None, lastSet := Some(p.level))
  }

  function Unplugged(p: Panel, e: Env): Panel {
    if Moved(p) then HandsOff(p) else Lowered(p.(saved := Some(p.level)), 2, e)
  }

  function TurnedLow(p: Panel, e: Env): Panel {
    if Moved(p) then HandsOff(p) else Lowered(p, 4, e)
  }

  function PluggedIn(p: Panel, e: Env): Panel {
    if p.saved.None? then p
    else if Moved(p) then HandsOff(p)
    else
      var level := if p.saved.value > p.max then p.max else Lit(p.saved.value);
      if e.writeOk then p.(saved := None, level := level, lastSet := Some(level)) else p.(saved := None)
  }

  /** The panel after every check. */
  lemma PanelAfterCheck(c: PowerCtx, base: BaseState, e: Env)
    requires c.panel.present && c.panel.max >= 1
    ensures Check(c, base, e).panel ==
      if c.lastBase.None? || c.lastBase.value == base then c.panel
      else if Plugged(c.lastBase.value) then
        if Plugged(base) then c.panel
        else if base == BatteryLow then TurnedLow(Unplugged(c.panel, e), e)
        else Unplugged(c.panel, e)
      else
        if Plugged(base) then PluggedIn(c.panel, e)
        else if base == BatteryLow then TurnedLow(c.panel, e)
        else c.panel
  {
    assert Check(c, base, e).panel == PanelAfter(c.panel, c.lastBase, base, e);
    hide Check, SaveAndCap, Cap, Restore;
    SaveAndCapIs(c.panel, e);
    UnpluggedStays(c.panel, e);
    CapIs(c.panel, e);
    CapIs(Unplugged(c.panel, e), e);
    RestoreIs(c.panel, e);
  }

  lemma MovedIsTakenOver(p: Panel)
    ensures UserTookOver(p) <==> Moved(p)
  {
  }

  lemma LoweredIsDim(p: Panel, parts: nat, e: Env)
    requires p.present && p.max >= 1 && (parts == 2 || parts == 4)
    ensures Dim(p, parts, e) == Lowered(p, parts, e)
  {
    WriteIs(p, if parts == 2 then p.max / 2 else p.max / 4, e);
    hide Write;
  }

  lemma WriteIs(p: Panel, v: nat, e: Env)
    requires p.present && v <= p.max && p.max >= 1
    ensures Write(p, v, e) == if e.writeOk then p.(level := Lit(v), lastSet := Some(Lit(v))) else p
  {
  }

  lemma SaveAndCapIs(p: Panel, e: Env)
    requires p.present && p.max >= 1
    ensures SaveAndCap(p, e) == Unplugged(p, e)
  {
    hide UserTookOver, Moved, Dim, Lowered;
    MovedIsTakenOver(p);
    LoweredIsDim(p.(saved := Some(p.level)), 2, e);
  }

  lemma UnpluggedStays(p: Panel, e: Env)
    ensures Unplugged(p, e).present == p.present && Unplugged(p, e).max == p.max
  {
  }

  lemma CapIs(p: Panel, e: Env)
    requires p.present && p.max >= 1
    ensures Cap(p, e) == TurnedLow(p, e)
  {
    hide UserTookOver, Moved, Dim, Lowered;
    MovedIsTakenOver(p);
    LoweredIsDim(p, 4, e);
  }

  lemma RestoreIs(p: Panel, e: Env)
    requires p.present && p.max >= 1
    ensures Restore(p, e) == PluggedIn(p, e)
  {
    MovedIsTakenOver(p.(saved := None));
    assert Moved(p.(saved := None)) == Moved(p);
    hide UserTookOver, Moved;
  }

  /** Once the user has moved the panel, a charger or low edge leaves the level alone, with one exception:
      unplugging straight into a low battery yields, and then caps what it has just yielded to. */
  lemma UserLevelStandsExactlyWhen(c: PowerCtx, base: BaseState, e: Env)
    requires Moved(c.panel) && c.panel.max >= 1 && c.lastBase.Some?
    ensures var p, r := c.panel, Check(c, base, e).panel;
      var capped := Plugged(c.lastBase.value) && base == BatteryLow && e.writeOk && p.level > Lit(p.max / 4);
      && (r.level == p.level <==> !capped)
      && (c.lastBase.value != base && (Plugged(c.lastBase.value) != Plugged(base) || base == BatteryLow) ==>
            r.saved == None && (r.lastSet == Some(r.level) || (p.saved == None && r == p)))
  {
    hide Check;
    PanelAfterCheck(c, base, e);
  }

  /** Within the slack the panel is the daemon's: unplugging saves the level and plugging in shows it again,
      up to the maximum and never dark. */
  lemma UnmovedPanelIsRestored(c: PowerCtx, base: BaseState, e: Env)
    requires c.panel.present && !Moved(c.panel) && c.panel.max >= 1 && e.writeOk
    requires c.lastBase.Some? && Plugged(c.lastBase.value) != Plugged(base)
    ensures var p, r := c.panel, Check(c, base, e).panel;
      if Plugged(base) then
        && r.saved == None
        && r.level == (if p.saved.None? then p.level
                       else if p.saved.value > p.max then p.max else Lit(p.saved.value))
      else
        && r.saved == Some(p.level)
        && r.level == (var parts := if base == BatteryLow then 4 else 2;
                       if p.level > p.max / parts then Lit(p.max / parts) else p.level)
  {
    hide Check;
    PanelAfterCheck(c, base, e);
    if base == BatteryLow {
      HalfThenQuarter(c.panel, e);
    }
  }

  lemma HalfThenQuarter(p: Panel, e: Env)
    requires p.present && !Moved(p) && p.max >= 1 && e.writeOk
    ensures var r := TurnedLow(Unplugged(p, e), e);
      && r.saved == Some(p.level)
      && r.level == if p.level > p.max / 4 then Lit(p.max / 4) else p.level
  {
    assert p.max / 4 <= p.max / 2;
  }

  /** Nothing is left for a plug-in to write: the user moved the panel, or nothing is saved. */
  predicate LeavesAlone(p: Panel) {
    Moved(p) || p.saved == None
  }

  /** The exact condition for one plug-in. */
  lemma PlugInKeepsTheLevelExactlyWhen(c: PowerCtx, base: BaseState, e: Env)
    requires c.panel.present && c.panel.max >= 1
    requires c.lastBase.Some? && !Plugged(c.lastBase.value) && Plugged(base)
    ensures Check(c, base, e).panel.level == c.panel.level <==>
      || LeavesAlone(c.panel) || !e.writeOk
      || c.panel.level == (if c.panel.saved.value > c.panel.max then c.panel.max else Lit(c.panel.saved.value))
  {
    hide Check;
    PanelAfterCheck(c, base, e);
  }

  /** The checks of a stay off the charger. */
  ghost predicate StaysOff(ticks: seq<(BaseState, Env)>) {
    forall k | 0 <= k < |ticks| :: !Plugged(ticks[k].0)
  }

  function Checked(c: PowerCtx, ticks: seq<(BaseState, Env)>): PowerCtx {
    if ticks == [] then c
    else Check(Checked(c, ticks[..|ticks| - 1]), ticks[|ticks| - 1].0, ticks[|ticks| - 1].1)
  }

  lemma OffChargerCheckLeavesAlone(c: PowerCtx, base: BaseState, e: Env)
    requires c.panel.present && c.panel.max >= 1 && LeavesAlone(c.panel)
    requires c.lastBase.Some? && !Plugged(c.lastBase.value) && !Plugged(base)
    ensures var r := Check(c, base, e);
      r.panel.present && r.panel.max == c.panel.max && LeavesAlone(r.panel) && r.lastBase == Some(base)
  {
    PanelAfterCheck(c, base, e);
    CheckAfter(c, base, e);
    hide Check;
  }

  lemma {:induction false} StayLeavesAlone(c: PowerCtx, ticks: seq<(BaseState, Env)>)
    requires c.panel.present && c.panel.max >= 1 && LeavesAlone(c.panel)
    requires c.lastBase.Some? && !Plugged(c.lastBase.value) && StaysOff(ticks)
    ensures var r := Checked(c, ticks);
      r.panel.present && r.panel.max == c.panel.max && LeavesAlone(r.panel)
      && r.lastBase.Some? && !Plugged(r.lastBase.value)
  {
    hide Check, LeavesAlone;
    if ticks != [] {
      var n := |ticks| - 1;
      StayLeavesAlone(c, ticks[..n]);
      OffChargerCheckLeavesAlone(Checked(c, ticks[..n]), ticks[n].0, ticks[n].1);
    }
  }

  /** A level the user chose off the charger is not overwritten by the next plug-in, whatever checks come
      between and whatever logind and powerd answer. */
  lemma PlugInNeverOverwritesTheUser(c: PowerCtx, ticks: seq<(BaseState, Env)>, base: BaseState, e: Env)
    requires Moved(c.panel) && c.panel.max >= 1
    requires c.lastBase.Some? && !Plugged(c.lastBase.value) && StaysOff(ticks) && Plugged(base)
    ensures var before := Checked(c, ticks);
      Check(before, base, e).panel.level == before.panel.level && Check(before, base, e).panel.saved == None
  {
    hide Check;
    StayLeavesAlone(c, ticks);
    PlugInKeepsTheLevelExactlyWhen(Checked(c, ticks), base, e);
    PanelAfterCheck(Checked(c, ticks), base, e);
  }

  /** A wake in between takes the user's level for the panel's own drift: the plug-in after it writes the
      saved level again, and leaves the user's exactly when nothing was saved or the two agree. */
  lemma WakeForgetsTheUser(c: PowerCtx, base: BaseState, e: Env)
    requires Moved(c.panel) && c.panel.max >= 1 && e.writeOk
    requires c.lastBase.Some? && !Plugged(c.lastBase.value) && Plugged(base)
    ensures var woken := c.(panel := Rearm(c.panel));
      && woken.panel.lastSet == Some(c.panel.level) && woken.panel.level == c.panel.level
      && (Check(woken, base, e).panel.level == c.panel.level <==>
            || c.panel.saved == None
            || c.panel.level == (if c.panel.saved.value > c.panel.max then c.panel.max else Lit(c.panel.saved.value)))
  {
    hide Check;
    PlugInKeepsTheLevelExactlyWhen(c.(panel := Rearm(c.panel)), base, e);
  }

  /** A wake takes whatever the panel shows for the daemon's own; without a panel nothing happens. */
  lemma WakeTakesTheLevel(p: Panel)
    ensures Rearm(p) == if p.present then p.(lastSet := Some(p.level)) else p
  {
  }

  /** Without a panel a check saves, caps and restores nothing. */
  lemma NoPanelNoBrightness(c: PowerCtx, base: BaseState, e: Env)
    requires !c.panel.present
    ensures var r := Check(c, base, e).panel;
      r.(saved := c.panel.saved) == c.panel && (r.saved == c.panel.saved || r.saved == None)
  {
    assert Check(c, base, e).panel == PanelAfter(c.panel, c.lastBase, base, e);
    hide Check;
  }
}
