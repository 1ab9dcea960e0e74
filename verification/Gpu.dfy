/** GPU-primary selection: classify the cards of a snapshot, rank the discrete ones, and list what the
    compositor may open, primary first. */
module Gpu {
  import opened Prelude

  /** One candidate: `path` is the stable key, `node` the device name that is emitted. */
  datatype Card = Card(path: string, node: string, bootVga: nat, vram: nat, external: nat, edp: nat) {
    predicate Connected() {
      external > 0 || edp > 0
    }
  }

  datatype Snapshot = Snapshot(cards: seq<Card>, nonPciDisplay: bool, lidClosed: bool)

  datatype Mode = Auto | Igpu | Dgpu | Off

  datatype Source = FromOverride | FromProfile | FromPlatform | FromDefault

  function SourceWord(s: Source): string {
    match s
    case FromOverride => "override"
    case FromProfile => "profile"
    case FromPlatform => "platform"
    case FromDefault => "default"
  }

  function Devnode(c: Card): string {
    "/dev/dri/" + c.node
  }

  // ---- the integrated card ----

  function MinVram(cards: seq<Card>): (v: nat)
    requires cards != []
    ensures forall c | c in cards :: v <= c.vram
    ensures exists c :: c in cards && c.vram == v
  {
    if |cards| == 1 then cards[0].vram
    else
      var rest := MinVram(cards[1..]);
      assert forall c | c in cards :: c == cards[0] || c in cards[1..];
      if cards[0].vram <= rest then cards[0].vram else rest
  }

  /** Every entry is an index into a vector of `n` cards. */
  predicate Below(s: seq<nat>, n: nat) {
    forall k | 0 <= k < |s| :: s[k] < n
  }

  /** The indices below `n` that satisfy `p`, ascending. */
  function Indices(n: nat, p: nat -> bool): (r: seq<nat>)
    ensures Below(r, n)
    ensures forall i: nat :: i in r <==> i < n && p(i)
    ensures forall j, k | 0 <= j < k < |r| :: r[j] < r[k]
  {
    if n == 0 then []
    else
      var rest := Indices(n - 1, p);
      if p(n - 1) then rest + [n - 1] else rest
  }

  /** boot_vga and the smallest VRAM must name the same card; anything else is ambiguous. */
  function IntegratedCard(cards: seq<Card>): (r: Option<nat>)
    ensures r.Some? ==> r.value < |cards|
  {
    if cards == [] then None
    else
      var least := MinVram(cards);
      var byVram := Indices(|cards|, (i: nat) => i < |cards| && cards[i].vram == least);
      var byVga := Indices(|cards|, (i: nat) => i < |cards| && cards[i].bootVga == 1);
      if |byVga| == 1 then
        if byVga[0] in byVram then Some(byVga[0]) else None
      else if byVga == [] && |byVram| == 1 then Some(byVram[0])
      else None
  }

  // ---- the ranking of the discrete cards ----

  predicate PathLess(a: string, b: string) {
    if a == [] then b != []
    else if b == [] then false
    else a[0] < b[0] || (a[0] == b[0] && PathLess(a[1..], b[1..]))
  }

  /** More externals first, then more VRAM, then the path. */
  predicate Before(a: Card, b: Card) {
    if a.external != b.external then a.external > b.external
    else if a.vram != b.vram then a.vram > b.vram
    else PathLess(a.path, b.path)
  }

  /** The library's stable sort, as insertion behind everything that is not greater. */
  function Insert(cards: seq<Card>, i: nat, sorted: seq<nat>): (r: seq<nat>)
    requires i < |cards| && Below(sorted, |cards|)
    ensures Below(r, |cards|)
    ensures |r| == |sorted| + 1
  {
    if sorted == [] then [i]
    else
      var last := sorted[|sorted| - 1];
      if Before(cards[i], cards[last]) then Insert(cards, i, sorted[..|sorted| - 1]) + [last]
      else sorted + [i]
  }

  function Sort(cards: seq<Card>, s: seq<nat>): (r: seq<nat>)
    requires Below(s, |cards|)
    ensures Below(r, |cards|)
    ensures |r| == |s|
  {
    if s == [] then []
    else
      Insert(cards, s[|s| - 1], Sort(cards, s[..|s| - 1]))
  }

  function Discretes(cards: seq<Card>, integrated: nat): (r: seq<nat>)
    requires integrated < |cards|
    ensures Below(r, |cards|)
    ensures |cards| >= 2 ==> r != []
  {
    var others := Indices(|cards|, (i: nat) => i != integrated);
    assert |cards| >= 2 ==> (if integrated == 0 then 1 else 0) in others;
    Sort(cards, others)
  }

  // ---- the selection ----

  function Primary(cards: seq<Card>, mode: Mode, integrated: nat, best: nat): (p: nat)
    requires integrated < |cards| && best < |cards|
    ensures p == integrated || p == best
  {
    match mode
    case Auto => if cards[best].Connected() then best else integrated
    case Dgpu => best
    case _ => integrated
  }

  function Reason(cards: seq<Card>, mode: Mode, source: Source, best: nat): string
    requires best < |cards|
  {
    match mode
    case Auto => if cards[best].Connected() then "dgpu-has-display" else "dgpu-idle-listed"
    case Dgpu => SourceWord(source) + "-dgpu"
    case _ => SourceWord(source) + "-igpu"
  }

  /** The discretes that follow: all of them in auto, else the connected ones; never the primary. */
  function Trailing(cards: seq<Card>, discretes: seq<nat>, primary: nat, keepIdle: bool): (r: seq<nat>)
    requires Below(discretes, |cards|)
    ensures Below(r, |cards|)
  {
    if discretes == [] then []
    else
      var n := |discretes| - 1;
      Trailing(cards, discretes[..n], primary, keepIdle)
      + if discretes[n] != primary && (keepIdle || cards[discretes[n]].Connected()) then [discretes[n]] else []
  }

  /** The primary, then the integrated card if that is another, then the rest. */
  function Led(primary: nat, integrated: nat, tail: seq<nat>, n: nat): (r: seq<nat>)
    requires primary < n && integrated < n && Below(tail, n)
    ensures Below(r, n)
  {
    [primary] + (if integrated != primary then [integrated] else []) + tail
  }

  function Listed(cards: seq<Card>, mode: Mode, integrated: nat): (r: seq<nat>)
    requires integrated < |cards| && |cards| >= 2
    ensures Below(r, |cards|)
  {
    var discretes := Discretes(cards, integrated);
    var primary := Primary(cards, mode, integrated, discretes[0]);
    Led(primary, integrated, Trailing(cards, discretes, primary, mode == Auto), |cards|)
  }

  predicate Usable(cards: seq<Card>, listed: seq<nat>, lidClosed: bool)
    requires Below(listed, |cards|)
  {
    (exists k :: 0 <= k < |listed| && cards[listed[k]].external > 0)
    || (!lidClosed && exists k :: 0 <= k < |listed| && cards[listed[k]].edp > 0)
  }

  function Nodes(cards: seq<Card>, listed: seq<nat>): (r: seq<string>)
    requires Below(listed, |cards|)
    ensures |r| == |listed|
    ensures forall k | 0 <= k < |r| :: r[k] == Devnode(cards[listed[k]])
  {
    seq(|listed|, k requires 0 <= k < |listed| => Devnode(cards[listed[k]]))
  }

  predicate AnyExternal(cards: seq<Card>) {
    exists c :: c in cards && c.external > 0
  }

  /** The selection once the integrated card is known. */
  function Selected(snap: Snapshot, mode: Mode, source: Source, integrated: nat): (Option<seq<string>>, string)
    requires integrated < |snap.cards| && |snap.cards| >= 2
  {
    if snap.lidClosed && !AnyExternal(snap.cards) then (None, "bailed-transient")
    else
      var listed := Listed(snap.cards, mode, integrated);
      if !Usable(snap.cards, listed, snap.lidClosed) then (None, "bailed-transient")
      else (Some(Nodes(snap.cards, listed)), Reason(snap.cards, mode, source, Discretes(snap.cards, integrated)[0]))
  }

  /** The selection once the classification is known. */
  function Choice(snap: Snapshot, mode: Mode, source: Source, found: Option<nat>): (Option<seq<string>>, string)
    requires found.Some? ==> found.value < |snap.cards|
  {
    if mode == Off then (None, "override-off")
    else if |snap.cards| < 2 then (None, "no-multi-gpu")
    else if snap.nonPciDisplay then (None, "non-pci-display-present")
    else if found.None? then (None, "ambiguous-integrated")
    else Selected(snap, mode, source, found.value)
  }

  /** The device list, primary first, and why; no list means the compositor's own defaults. */
  function Desired(snap: Snapshot, mode: Mode, source: Source): (Option<seq<string>>, string) {
    Choice(snap, mode, source, IntegratedCard(snap.cards))
  }

  /** The growing device vector: one pass over the ranked discretes. */
  method ListDevices(cards: seq<Card>, mode: Mode, integrated: nat) returns (devices: seq<nat>)
    requires integrated < |cards| && |cards| >= 2
    ensures devices == Listed(cards, mode, integrated)
  {
    hide Discretes, Primary;
    var discretes := Discretes(cards, integrated);
    var primary := Primary(cards, mode, integrated, discretes[0]);
    var keepIdle := mode == Auto;
    devices := [primary];
    if integrated != primary {
      devices := devices + [integrated];
    }
    ghost var head := devices;
    for k := 0 to |discretes|
      invariant devices == head + Trailing(cards, discretes[..k], primary, keepIdle)
    {
      var i := discretes[k];
      assert discretes[..k + 1][..k] == discretes[..k];
      if i != primary && (keepIdle || cards[i].Connected()) {
        devices := devices + [i];
      }
    }
    assert discretes[..|discretes|] == discretes;
  }

  /** The routine as it runs. */
  method GpuDesired(snap: Snapshot, mode: Mode, source: Source) returns (devices: Option<seq<string>>, reason: string)
    ensures (devices, reason) == Desired(snap, mode, source)
  {
    var cards := snap.cards;
    if mode == Off {
      return None, "override-off";
    }
    if |cards| < 2 {
      return None, "no-multi-gpu";
    }
    if snap.nonPciDisplay {
      return None, "non-pci-display-present";
    }
    var found := IntegratedCard(cards);
    if found.None? {
      return None, "ambiguous-integrated";
    }
    if snap.lidClosed && !AnyExternal(cards) {
      return None, "bailed-transient";
    }
    var list := ListDevices(cards, mode, found.value);
    if !Usable(cards, list, snap.lidClosed) {
      return None, "bailed-transient";
    }
    return Some(Nodes(cards, list)), Reason(cards, mode, source, Discretes(cards, found.value)[0]);
  }
}
