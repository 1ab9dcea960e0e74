/** Power profiles and base states. */
module Power {
  datatype Profile = PowerSaver | Balanced | Performance

  datatype BaseState = DockedAc | Ac | Battery | BatteryLow

  /** The charger alone decides the side; docking and low battery refine it. */
  function PowerBaseState(onAcSettled: bool, extMonCount: nat, lowBattery: bool): (b: BaseState)
    ensures OnAcSide(b) <==> onAcSettled
    ensures b == BatteryLow <==> !onAcSettled && lowBattery
    ensures b == DockedAc <==> onAcSettled && extMonCount > 0
  {
    if onAcSettled then
      if extMonCount >= 1 then DockedAc else Ac
    else if lowBattery then BatteryLow
    else Battery
  }

  predicate OnAcSide(b: BaseState) {
    b == DockedAc || b == Ac
  }

  datatype Policy = Policy(dockedAc: Profile, ac: Profile, battery: Profile, batteryLow: Profile) {
    function ForBase(b: BaseState): Profile {
      match b
      case DockedAc => dockedAc
      case Ac => ac
      case Battery => battery
      case BatteryLow => batteryLow
    }
  }
}
