/** Keyboard backlight level arithmetic: a percent in `u8`, a raw LED value in `u32`. */
module Kbd {
  const STEP: int := 10
  const DEFAULT_LEVEL: nat := 50

  type U8 = n: nat | n < 0x100
  type U32 = n: nat | n < 0x1_0000_0000

  function ClampLevel(pct: int): U8 {
    if pct < 0 then 0 else if pct > 100 then 100 else pct
  }

  function StepLevel(level: U8, up: bool): U8 {
    ClampLevel(level + if up then STEP else -STEP)
  }

  /** Rounded to nearest; the cast to 32 bits keeps the low bits, and a lit level never rounds to off. */
  function LevelToRaw(pct: U8, max: U32): U32 {
    if pct == 0 || max == 0 then 0 else Narrowed(max * pct, max)
  }

  function Narrowed(exact: nat, max: U32): U32
    requires max > 0
  {
    var raw := (exact + 50) / 100 % 0x1_0000_0000;
    if raw < 1 then 1 else if raw > max then max else raw
  }

  // ---- what the user can reach ----

  datatype Press = Set(pct: int) | Up | Down

  function Pressed(level: U8, p: Press): U8 {
    match p
    case Set(pct) => ClampLevel(pct)
    case Up => StepLevel(level, true)
    case Down => StepLevel(level, false)
  }

  function After(level: U8, ps: seq<Press>): U8 {
    if ps == [] then level else Pressed(After(level, ps[..|ps| - 1]), ps[|ps| - 1])
  }

  lemma {:induction false} ReachableIsPercent(ps: seq<Press>)
    ensures After(DEFAULT_LEVEL, ps) <= 100
  {
    if ps != [] {
      ReachableIsPercent(ps[..|ps| - 1]);
    }
  }

  /** A press of up or down moves the level by ten, as far as the ends of the percent range allow; setting
      takes the word, kept in that range. */
  lemma PressesMove(ps: seq<Press>, pct: int)
    ensures var level := After(DEFAULT_LEVEL, ps) as int;
      && Pressed(After(DEFAULT_LEVEL, ps), Up) as int == (if level + 10 > 100 then 100 else level + 10)
      && Pressed(After(DEFAULT_LEVEL, ps), Down) as int == (if level - 10 < 0 then 0 else level - 10)
      && Pressed(After(DEFAULT_LEVEL, ps), Set(pct)) as int == (if pct < 0 then 0 else if pct > 100 then 100 else pct)
    ensures After(DEFAULT_LEVEL, []) == 50
  {
    ReachableIsPercent(ps);
  }

  lemma ScaleMonotone(a: nat, b: nat, m: nat)
    requires a <= b
    ensures m * a <= m * b
  {
    assert m * b - m * a == m * (b - a);
  }

  /** A percent never scales past the maximum, so the cast loses nothing. */
  lemma CastLosesNothing(pct: U8, max: U32)
    requires pct <= 100
    ensures (max * pct + 50) / 100 <= max
  {
    ScaleMonotone(pct, 100, max);
    assert max * pct <= max * 100;
  }

  /** The exact hundredfold value, rounded and kept within 1..max. */
  function Rounded(exact: nat, max: nat): nat {
    var raw := (exact + 50) / 100;
    if raw < 1 then 1 else if raw > max then max else raw
  }

  lemma RawRounds(pct: U8, max: U32)
    requires pct <= 100
    ensures LevelToRaw(pct, max) == if pct == 0 || max == 0 then 0 else Rounded(max * pct, max)
  {
    hide Narrowed, Rounded;
    CastLosesNothing(pct, max);
    if pct != 0 && max != 0 {
      NarrowedIsRounded(max * pct, max);
    }
  }

  lemma NarrowedIsRounded(exact: nat, max: U32)
    requires max > 0 && (exact + 50) / 100 <= max
    ensures Narrowed(exact, max) == Rounded(exact, max)
  {
  }

  lemma RoundedIsNear(exact: nat, max: nat)
    requires 0 < exact <= 100 * max
    ensures var raw := Rounded(exact, max);
      && 1 <= raw <= max
      && (exact == 100 * max ==> raw == max)
      && (exact >= 50 ==> -50 < 100 * raw - exact <= 50)
      && (exact < 50 ==> raw == 1)
  {
  }

  lemma RoundedIsMonotone(a: nat, b: nat, m: nat, n: nat)
    requires a <= b && 1 <= m <= n
    ensures Rounded(a, m) <= Rounded(b, n)
  {
  }

  /** Within 0..max, off exactly for level or maximum 0, full at 100, and within half a step of the exact
      value, halves up, once that reaches half a unit; below that the level still lights the LED at 1. */
  lemma RawIsTheNearestLitValue(pct: U8, max: U32)
    requires pct <= 100
    ensures var raw := LevelToRaw(pct, max);
      && raw <= max
      && (raw == 0 <==> pct == 0 || max == 0)
      && (pct == 100 ==> raw == max)
      && (max * pct >= 50 ==> -50 < 100 * raw - max * pct <= 50)
      && (0 < max * pct < 50 ==> raw == 1)
  {
    hide LevelToRaw, Rounded;
    RawRounds(pct, max);
    if pct == 0 || max == 0 {
      assert max * pct == 0;
    } else {
      ScaleMonotone(1, pct, max);
      ScaleMonotone(pct, 100, max);
      RoundedIsNear(max * pct, max);
    }
  }

  /** A level that is no percent stays in the LED's range too, and is full where the cast loses no bit. */
  lemma AnyLevelStaysInRange(pct: U8, max: U32)
    ensures var raw := LevelToRaw(pct, max);
      && raw <= max
      && (raw == 0 <==> pct == 0 || max == 0)
      && (pct >= 100 && (max * pct + 50) / 100 < 0x1_0000_0000 ==> raw == max)
  {
    if pct >= 100 {
      ScaleMonotone(100, pct, max);
      if max > 0 {
        OverfullIsFull(max * pct, max);
      }
    }
  }

  lemma OverfullIsFull(exact: nat, max: U32)
    requires max > 0 && exact >= max * 100
    ensures (exact + 50) / 100 < 0x1_0000_0000 ==> Narrowed(exact, max) == max
  {
  }

  lemma RawIsMonotone(p: U8, q: U8, m: U32, n: U32)
    requires p <= q <= 100 && m <= n
    ensures LevelToRaw(p, m) <= LevelToRaw(q, n)
  {
    hide LevelToRaw, Rounded;
    RawRounds(p, m);
    RawRounds(q, n);
    if p != 0 && m != 0 {
      ProductMonotone(p, q, m, n);
      RoundedIsMonotone(m * p, n * q, m, n);
    }
  }

  lemma ProductMonotone(p: nat, q: nat, m: nat, n: nat)
    requires p <= q && m <= n
    ensures m * p <= n * q
  {
    ScaleMonotone(p, q, m);
    ScaleMonotone(m, n, q);
    assert m * q == q * m && n * q == q * n;
  }

  /** A percent is exactly what the cast can take: above it, some maximum loses bits. */
  lemma CastIsSafeExactlyForPercents(pct: U8)
    ensures (forall max: U32 :: (max * pct + 50) / 100 < 0x1_0000_0000) <==> pct <= 100
  {
    if pct <= 100 {
      forall max: U32 ensures (max * pct + 50) / 100 < 0x1_0000_0000 { CastLosesNothing(pct, max); }
    } else {
      var top: U32 := 0xffff_ffff;
      ScaleMonotone(101, pct, top);
      assert (top * pct + 50) / 100 >= 0x1_0000_0000;
    }
  }

  /** For whatever was pressed: no bit is lost in the cast, the value written is off exactly for level or
      maximum 0, full at 100 and within half a step of exact, and a level set higher by any other presses,
      on an LED with no smaller maximum, never shines less. */
  lemma WrittenLevelFits(ps: seq<Press>, qs: seq<Press>, m: U32, n: U32)
    ensures var level, raw := After(DEFAULT_LEVEL, ps), LevelToRaw(After(DEFAULT_LEVEL, ps), m);
      && (m * level + 50) / 100 < 0x1_0000_0000
      && raw <= m && (raw == 0 <==> level == 0 || m == 0) && (level == 100 ==> raw == m)
      && (m * level >= 50 ==> -50 < 100 * raw - m * level <= 50)
      && (level <= After(DEFAULT_LEVEL, qs) && m <= n ==> raw <= LevelToRaw(After(DEFAULT_LEVEL, qs), n))
  {
    hide LevelToRaw;
    ReachableIsPercent(ps);
    ReachableIsPercent(qs);
    CastLosesNothing(After(DEFAULT_LEVEL, ps), m);
    RawIsTheNearestLitValue(After(DEFAULT_LEVEL, ps), m);
    if After(DEFAULT_LEVEL, ps) <= After(DEFAULT_LEVEL, qs) && m <= n {
      RawIsMonotone(After(DEFAULT_LEVEL, ps), After(DEFAULT_LEVEL, qs), m, n);
    }
  }
}
