/** The power policy routine: stamp or expire the override, apply the profile, dim or restore the panel
    on base-state edges. First as functions on values, then as the object whose fields it updates. */
module PowerPolicy {
  import opened Prelude
  import opened Power

  /** The backlight: what it shows, what the daemon last set, and what it saved to restore. `slack` is
      the delta below which a change does not count as the user's. */
  datatype Panel = Panel(present: bool, max: nat, slack: nat, level: nat, lastSet: Option<nat>, saved: Option<nat>)

  datatype Effect = ApplyCalled(profile: Profile, answered: bool) | OverrideFileRemoved | Notified

  datatype PowerCtx = PowerCtx(
    policy: Policy,
    over: Option<Profile>,
    overBase: Option<BaseState>,
    overFile: Option<Profile>,
    applied: Option<Profile>,
    available: bool,
    lastBase: Option<BaseState>,
    panel: Panel,
    fx: seq<Effect>)

  /** Whether powerd answers, whether logind sets the brightness, and whether the override file can be
      written and removed. */
  datatype Env = Env(powerdOk: bool, writeOk: bool, fileOk: bool)

  // ---- brightness ----

  function Distance(a: nat, b: nat): nat {
    if a < b then b - a else a - b
  }

  predicate UserTookOver(p: Panel) {
    p.present && p.lastSet.Some? && Distance(p.level, p.lastSet.value) > p.slack
  }

  function Read(p: Panel): Option<nat> {
    if p.present then Some(p.level) else None
  }

  function Clamp(v: nat, max: nat): nat {
    if v < 1 then 1 else if v > max then max else v
  }

  function Write(p: Panel, v: nat, e: Env): Panel {
    if p.present && e.writeOk then p.(level := Clamp(v, p.max), lastSet := Some(Clamp(v, p.max))) else p
  }

  /** Hands off once the user has moved the panel. */
  function Yield(p: Panel): Panel {
    p.(saved := None, lastSet := Read(p))
  }

  function Dim(p: Panel, parts: nat, e: Env): Panel
    requires parts > 0
  {
    if p.level > p.max / parts then Write(p, p.max / parts, e) else p
  }

  function SaveAndCap(p: Panel, e: Env): Panel {
    if UserTookOver(p) then Yield(p)
    else if !p.present then p
    else Dim(p.(saved := Some(p.level)), 2, e)
  }

  function Cap(p: Panel, e: Env): Panel {
    if UserTookOver(p) then Yield(p)
    else if !p.present then p
    else Dim(p, 4, e)
  }

  function Restore(p: Panel, e: Env): Panel {
    if p.saved.None? then p
    else
      var q := p.(saved := None);
      if UserTookOver(q) then q.(lastSet := Read(q)) else Write(q, p.saved.value, e)
  }

  /** On resume the panel's own drift must not read as a user's change. */
  function Rearm(p: Panel): Panel {
    if p.present then p.(lastSet := Read(p)) else p
  }

  function Edge(p: Panel, prev: BaseState, base: BaseState, e: Env): Panel {
    var p1 := if OnAcSide(prev) && !OnAcSide(base) then SaveAndCap(p, e) else p;
    var p2 := if base == BatteryLow && prev != BatteryLow then Cap(p1, e) else p1;
    if !OnAcSide(prev) && OnAcSide(base) then Restore(p2, e) else p2
  }

  // ---- the override and the profile ----

  /** An override ends when the charger comes or goes, or when the battery turns low. */
  predicate Expired(stamp: BaseState, base: BaseState) {
    OnAcSide(base) != OnAcSide(stamp) || (base == BatteryLow && stamp != BatteryLow)
  }

  function StampOrExpire(c: PowerCtx, base: BaseState, e: Env): PowerCtx {
    if c.over.None? then c
    else if c.overBase.None? then c.(overBase := Some(base))
    else if Expired(c.overBase.value, base) then
      Clear(c, e).(fx := Clear(c, e).fx + [Notified])
    else c
  }

  /** The context forgets the override at once, whatever becomes of its file. */
  function Clear(c: PowerCtx, e: Env): PowerCtx {
    var d := c.(over := None, overBase := None);
    if e.fileOk then d.(overFile := None, fx := c.fx + [OverrideFileRemoved]) else d
  }

  function Apply(c: PowerCtx, p: Profile, e: Env): PowerCtx {
    if c.applied == Some(p) || !c.available then c
    else if e.powerdOk then c.(applied := Some(p), fx := c.fx + [ApplyCalled(p, true)])
    else c.(available := false, fx := c.fx + [ApplyCalled(p, false)])
  }

  function Wanted(c: PowerCtx, base: BaseState): Profile {
    c.over.GetOr(c.policy.ForBase(base))
  }

  /** Brightness moves on base-state edges only. */
  function PanelAfter(p: Panel, prev: Option<BaseState>, base: BaseState, e: Env): Panel {
    if prev.None? || prev.value == base then p else Edge(p, prev.value, base, e)
  }

  function Check(c: PowerCtx, base: BaseState, e: Env): PowerCtx {
    var c1 := StampOrExpire(c, base, e);
    Apply(c1, Wanted(c1, base), e).(lastBase := Some(base), panel := PanelAfter(c.panel, c.lastBase, base, e))
  }

  /** The override file changed: the word it holds now, or none. */
  function Ingest(c: PowerCtx, word: Option<Profile>): PowerCtx {
    match word
    case None => c.(over := None, overBase := None)
    case Some(p) => if c.over == Some(p) then c else c.(over := Some(p), overBase := None)
  }

  /** An outside write to platform_profile becomes the override, in the context and on disk. */
  function Adopt(c: PowerCtx, p: Profile, e: Env): PowerCtx {
    c.(over := Some(p), overBase := None, overFile := if e.fileOk then Some(p) else c.overFile, fx := c.fx + [Notified])
  }

  /** powerd is on the bus: after an outage everything is to be applied afresh. */
  function Appear(c: PowerCtx): PowerCtx {
    if c.available then c else c.(available := true, applied := None)
  }

  // ---- the object ----

  class PowerDaemon {
    const policy: Policy
    const slack: nat
    var over: Option<Profile>
    var overBase: Option<BaseState>
    var overFile: Option<Profile>
    var applied: Option<Profile>
    var available: bool
    var lastBase: Option<BaseState>
    var present: bool
    var max: nat
    var level: nat
    var lastSet: Option<nat>
    var saved: Option<nat>
    ghost var fx: seq<Effect>

    ghost function PanelView(): Panel
      reads this
    {
      Panel(present, max, slack, level, lastSet, saved)
    }

    ghost function View(): PowerCtx
      reads this
    {
      PowerCtx(policy, over, overBase, overFile, applied, available, lastBase, PanelView(), fx)
    }

    constructor (policy: Policy, slack: nat, panelMax: nat, shown: nat)
      ensures View() == PowerCtx(policy, None, None, None, None, true, None,
                                 Panel(panelMax > 0, panelMax, slack, shown, None, None), [])
    {
      this.policy, this.slack := policy, slack;
      over, overBase, overFile, applied, available, lastBase := None, None, None, None, true, None;
      present, max, level, lastSet, saved, fx := panelMax > 0, panelMax, shown, None, None, [];
    }

    method BrightnessUserTookOver() returns (took: bool)
      ensures took == UserTookOver(PanelView())
    {
      if lastSet.None? || !present {
        return false;
      }
      var delta := level - lastSet.value;
      if delta < 0 {
        delta := -delta;
      }
      return delta > slack;
    }

    method BrightnessRead() returns (r: Option<nat>)
      ensures r == Read(PanelView())
    {
      if present {
        return Some(level);
      }
      return None;
    }

    method BrightnessWrite(value: nat, e: Env)
      modifies this`level, this`lastSet
      ensures PanelView() == Write(old(PanelView()), value, e)
    {
      if !present {
        return;
      }
      var v := value;
      if v < 1 {
        v := 1;
      } else if v > max {
        v := max;
      }
      if e.writeOk {
        level, lastSet := v, Some(v);
      }
    }

    method BrightnessSaveAndCap(e: Env)
      modifies this`level, this`lastSet, this`saved
      ensures PanelView() == SaveAndCap(old(PanelView()), e)
    {
      var took := BrightnessUserTookOver();
      if took {
        saved := None;
        lastSet := BrightnessRead();
        return;
      }
      var cur := BrightnessRead();
      if cur.None? {
        return;
      }
      saved := cur;
      var cap := max / 2;
      if cur.value > cap {
        BrightnessWrite(cap, e);
      }
    }

    method BrightnessCap(e: Env)
      modifies this`level, this`lastSet, this`saved
      ensures PanelView() == Cap(old(PanelView()), e)
    {
      var took := BrightnessUserTookOver();
      if took {
        saved := None;
        lastSet := BrightnessRead();
        return;
      }
      var cur := BrightnessRead();
      if cur.None? {
        return;
      }
      var cap := max / 4;
      if cur.value > cap {
        BrightnessWrite(cap, e);
      }
    }

    method BrightnessRestore(e: Env)
      modifies this`level, this`lastSet, this`saved
      ensures PanelView() == Restore(old(PanelView()), e)
    {
      if saved.None? {
        return;
      }
      var value := saved.value;
      saved := None;
      var took := BrightnessUserTookOver();
      if took {
        lastSet := BrightnessRead();
        return;
      }
      BrightnessWrite(value, e);
    }

    method BrightnessRearm()
      modifies this`lastSet
      ensures PanelView() == Rearm(old(PanelView()))
    {
      if present {
        lastSet := BrightnessRead();
      }
    }

    method ClearPowerOverride(e: Env)
      modifies this`over, this`overBase, this`overFile, this`fx
      ensures View() == Clear(old(View()), e)
    {
      over, overBase := None, None;
      if e.fileOk {
        overFile := None;
        fx := fx + [OverrideFileRemoved];
      }
    }

    method AdoptPowerOverride(p: Profile, e: Env)
      modifies this`over, this`overBase, this`overFile, this`fx
      ensures View() == Adopt(old(View()), p, e)
    {
      over, overBase := Some(p), None;
      if e.fileOk {
        overFile := Some(p);
      }
      fx := fx + [Notified];
    }

    method PowerOverrideChanged(word: Option<Profile>)
      modifies this`over, this`overBase
      ensures View() == Ingest(old(View()), word)
    {
      match word {
        case None => over, overBase := None, None;
        case Some(p) =>
          if over != Some(p) {
            over, overBase := Some(p), None;
          }
      }
    }

    method ApplyPowerProfile(p: Profile, e: Env)
      modifies this`applied, this`available, this`fx
      ensures View() == Apply(old(View()), p, e)
    {
      if applied == Some(p) || !available {
        return;
      }
      fx := fx + [ApplyCalled(p, e.powerdOk)];
      if e.powerdOk {
        applied := Some(p);
      } else {
        available := false;
      }
    }

    method PowerdAppeared()
      modifies this`applied, this`available
      ensures View() == Appear(old(View()))
    {
      if !available {
        available := true;
        applied := None;
      }
    }

    method CheckOverride(base: BaseState, e: Env)
      modifies this`over, this`overBase, this`overFile, this`fx
      ensures View() == StampOrExpire(old(View()), base, e)
    {
      if over.Some? {
        if overBase.None? {
          overBase := Some(base);
        } else if Expired(overBase.value, base) {
          ClearPowerOverride(e);
          fx := fx + [Notified];
        }
      }
    }

    method CheckBrightness(prev: BaseState, base: BaseState, e: Env)
      modifies this`level, this`lastSet, this`saved
      ensures PanelView() == Edge(old(PanelView()), prev, base, e)
    {
      if OnAcSide(prev) && !OnAcSide(base) {
        BrightnessSaveAndCap(e);
      }
      if base == BatteryLow && prev != BatteryLow {
        BrightnessCap(e);
      }
      if !OnAcSide(prev) && OnAcSide(base) {
        BrightnessRestore(e);
      }
    }

    method PowerPolicyCheck(onAcSettled: bool, extMonCount: nat, lowBattery: bool, e: Env)
      modifies this
      ensures View() == Check(old(View()), PowerBaseState(onAcSettled, extMonCount, lowBattery), e)
    {
      var base := PowerBaseState(onAcSettled, extMonCount, lowBattery);
      CheckOverride(base, e);
      var desired := over.GetOr(policy.ForBase(base));
      ApplyPowerProfile(desired, e);
      var prev := lastBase;
      lastBase := Some(base);
      if prev.Some? && prev.value != base {
        CheckBrightness(prev.value, base, e);
      }
    }
  }
}
