/** The battery-low latch over any sequence of readings. */
module BatteryLow {
  import opened Suspend

  /** The latch after every reading in turn. */
  function Latched(low: bool, readings: seq<real>, threshold: nat): bool {
    if readings == [] then low
    else BatteryLowStep(Latched(low, readings[..|readings| - 1], threshold), readings[|readings| - 1], threshold)
  }

  /** Some reading at or below the threshold has not been followed by one at the exit level. */
  ghost predicate FellLast(readings: seq<real>, threshold: nat) {
    exists k :: Fell(readings, threshold, k)
  }

  ghost predicate Fell(readings: seq<real>, threshold: nat, k: int) {
    0 <= k < |readings| && readings[k] <= threshold as real && NoExit(readings, threshold, k)
  }

  ghost predicate NoExit(readings: seq<real>, threshold: nat, from: int)
    requires 0 <= from <= |readings|
  {
    forall j | from <= j < |readings| :: readings[j] < (threshold + BATTERY_LOW_EXIT_DELTA) as real
  }

  /** The latch is a window of history, not a level: it is set exactly when the last reading to settle it
      was a low one, or when none has settled it and it was set to begin with. Readings inside the band
      never move it. */
  lemma {:induction false} LatchedExactlyWhen(low: bool, readings: seq<real>, threshold: nat)
    ensures Latched(low, readings, threshold) <==>
      FellLast(readings, threshold) || (low && NoExit(readings, threshold, 0))
  {
    if readings != [] {
      var n := |readings| - 1;
      var before, last := readings[..n], readings[n];
      LatchedExactlyWhen(low, before, threshold);
      if last <= threshold as real {
        assert Fell(readings, threshold, n);
      } else if last < (threshold + BATTERY_LOW_EXIT_DELTA) as real {
        assert forall k | 0 <= k < n :: Fell(before, threshold, k) <==> Fell(readings, threshold, k);
        assert NoExit(before, threshold, 0) <==> NoExit(readings, threshold, 0);
      }
    }
  }
}
