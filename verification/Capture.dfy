/** `profile save`: render the live monitor layout as a Lua profile with a directive header. */
module Capture {
  import opened Prelude
  import opened Text
  import opened Directives

  /** One monitor. `refresh` and `scale` are the number texts the formatter prints for them. */
  datatype Monitor = Monitor(
    name: string,
    description: string,
    width: nat,
    height: nat,
    refresh: string,
    x: int,
    y: int,
    scale: string,
    transform: nat,
    disabled: bool)
  {
    predicate Internal() {
      "eDP" <= name
    }
  }

  datatype CaptureError = NothingEnabled

  datatype CommaWarning = CommaWarning(name: string, description: string)

  predicate LeftOf(a: Monitor, b: Monitor) {
    a.x < b.x || (a.x == b.x && a.y < b.y)
  }

  /** The library's stable sort by position, as insertion behind everything that is not greater. */
  function Insert(m: Monitor, sorted: seq<Monitor>): (r: seq<Monitor>)
    ensures |r| == |sorted| + 1
  {
    if sorted == [] then [m]
    else
      var n := |sorted| - 1;
      if LeftOf(m, sorted[n]) then Insert(m, sorted[..n]) + [sorted[n]] else sorted + [m]
  }

  function SortByPosition(s: seq<Monitor>): (r: seq<Monitor>)
    ensures |r| == |s|
  {
    if s == [] then [] else Insert(s[|s| - 1], SortByPosition(s[..|s| - 1]))
  }

  function WithDisabled(ms: seq<Monitor>, disabled: bool): (r: seq<Monitor>)
    ensures r == [] <==> forall m | m in ms :: m.disabled != disabled
  {
    if ms == [] then []
    else
      assert ms == [ms[0]] + ms[1..];
      (if ms[0].disabled == disabled then [ms[0]] else []) + WithDisabled(ms[1..], disabled)
  }

  function Externals(ms: seq<Monitor>): seq<Monitor> {
    if ms == [] then [] else (if ms[0].Internal() then [] else [ms[0]]) + Externals(ms[1..])
  }

  function Descriptions(ms: seq<Monitor>): (r: seq<string>)
    ensures |r| == |ms|
    ensures forall k | 0 <= k < |r| :: r[k] == ms[k].description
  {
    seq(|ms|, k requires 0 <= k < |ms| => ms[k].description)
  }

  datatype Layout = Layout(enabled: seq<Monitor>, disabled: seq<Monitor>, matchDescs: seq<string>)

  /** Enabled monitors left to right, and what the profile matches on: the externals, so that it keeps
      matching with the lid closed, or the panel when there are none. */
  function CaptureLayout(ms: seq<Monitor>): (r: Result<Layout, CaptureError>)
    ensures r.Err? <==> forall m | m in ms :: m.disabled
    ensures r.Ok? ==> r.value.enabled != [] && r.value.matchDescs != []
  {
    var unsorted := WithDisabled(ms, false);
    if unsorted == [] then Err(NothingEnabled)
    else
      var enabled := SortByPosition(unsorted);
      var externals := Externals(enabled);
      Ok(Layout(enabled, WithDisabled(ms, true), Descriptions(if externals == [] then enabled else externals)))
  }

  function DirectiveLine(leader: string, key: string, val: string): string {
    leader + "@ " + key + " = " + val + "\n"
  }

  function MatchLines(leader: string, descs: seq<string>): string {
    if descs == [] then ""
    else MatchLines(leader, descs[..|descs| - 1]) + DirectiveLine(leader, "match", "desc:" + descs[|descs| - 1])
  }

  function GpuLine(leader: string, gpu: GpuPref): string {
    if gpu == GpuAuto then "" else DirectiveLine(leader, "gpu", GpuWord(gpu))
  }

  function PriorityLine(leader: string, priority: Option<int>): string {
    if priority.None? then "" else DirectiveLine(leader, "priority", IntText(priority.value))
  }

  function DirectivesText(leader: string, descs: seq<string>, edp: EdpPolicy, gpu: GpuPref, priority: Option<int>)
    : string
  {
    MatchLines(leader, descs) + DirectiveLine(leader, "edp", EdpWord(edp)) + GpuLine(leader, gpu)
    + PriorityLine(leader, priority)
  }

  method RenderDirectives(leader: string, descs: seq<string>, edp: EdpPolicy, gpu: GpuPref, priority: Option<int>)
    returns (out: string)
    ensures out == DirectivesText(leader, descs, edp, gpu, priority)
  {
    out := "";
    for k := 0 to |descs|
      invariant out == MatchLines(leader, descs[..k])
    {
      assert descs[..k + 1][..k] == descs[..k];
      out := out + DirectiveLine(leader, "match", "desc:" + descs[k]);
    }
    assert descs[..|descs|] == descs;
    out := out + DirectiveLine(leader, "edp", EdpWord(edp));
    ghost var upToEdp := out;
    if gpu != GpuAuto {
      out := out + DirectiveLine(leader, "gpu", GpuWord(gpu));
    }
    assert out == upToEdp + GpuLine(leader, gpu);
    ghost var upToGpu := out;
    if priority.Some? {
      out := out + DirectiveLine(leader, "priority", IntText(priority.value));
    }
    assert out == upToGpu + PriorityLine(leader, priority);
  }

  /** The panel by its name, externals by description; a comma would shatter the rule, so then by name. */
  function Selector(m: Monitor): string {
    if m.Internal() || ',' in m.description then m.name else "desc:" + m.description
  }

  function SelectorWarnings(m: Monitor): seq<CommaWarning> {
    if !m.Internal() && ',' in m.description then [CommaWarning(m.name, m.description)] else []
  }

  function TransformOn(m: Monitor): string {
    "\", transform = " + Decimal(m.transform) + ", disabled = false })"
  }

  function ScaleOn(m: Monitor): string {
    "\", scale = \"" + m.scale + TransformOn(m)
  }

  function PositionOn(m: Monitor): string {
    "\", position = \"" + IntText(m.x) + "x" + IntText(m.y) + ScaleOn(m)
  }

  function ModeOn(m: Monitor): string {
    "\", mode = \"" + Decimal(m.width) + "x" + Decimal(m.height) + "@" + m.refresh + PositionOn(m)
  }

  function EnabledLine(m: Monitor): string {
    "hl.monitor({ output = \"" + Selector(m) + ModeOn(m)
  }

  function DisabledLine(m: Monitor): string {
    "hl.monitor({ output = \"" + Selector(m) + "\", disabled = true })"
  }

  function EnabledRule(m: Monitor): string {
    EnabledLine(m) + "\n"
  }

  function DisabledRule(m: Monitor): string {
    DisabledLine(m) + "\n"
  }

  function Rules(ms: seq<Monitor>, enabled: bool): string {
    if ms == [] then ""
    else
      var n := |ms| - 1;
      Rules(ms[..n], enabled) + if enabled then EnabledRule(ms[n]) else DisabledRule(ms[n])
  }

  function CommaWarnings(ms: seq<Monitor>): seq<CommaWarning> {
    if ms == [] then [] else CommaWarnings(ms[..|ms| - 1]) + SelectorWarnings(ms[|ms| - 1])
  }

  function Banner(name: string, date: string): string {
    var who := name + " \U{2014} captured from the live layout (" + date;
    "-- Profile: " + who + ")."
  }

  const HINT: string := "-- Add workspace pinning if desired, e.g.:"
  const EXAMPLE: string := "-- hl.workspace_rule({ workspace = \"1\"" + ", monitor = \"desc:...\", default = true })"
  const FOOTER: string := "\n" + HINT + "\n" + EXAMPLE + "\n"

  function ProfileText(name: string, date: string, layout: Layout, edp: EdpPolicy, gpu: GpuPref, priority: Option<int>)
    : string
  {
    Banner(name, date) + "\n--\n" + DirectivesText("--", layout.matchDescs, edp, gpu, priority) + "\n"
    + Rules(layout.enabled, true) + Rules(layout.disabled, false) + FOOTER
  }

  function Rendered(name: string, date: string, ms: seq<Monitor>, edp: EdpPolicy, gpu: GpuPref, priority: Option<int>)
    : (r: Result<(string, seq<CommaWarning>), CaptureError>)
    ensures r.Err? <==> forall m | m in ms :: m.disabled
  {
    match CaptureLayout(ms)
    case Err(error) => Err(error)
    case Ok(layout) =>
      Ok((ProfileText(name, date, layout, edp, gpu, priority),
          CommaWarnings(layout.enabled) + CommaWarnings(layout.disabled)))
  }

  /** The rules of one half of the layout, with the warnings their selectors raise. */
  method RenderRules(ms: seq<Monitor>, enabled: bool) returns (out: string, warnings: seq<CommaWarning>)
    ensures out == Rules(ms, enabled) && warnings == CommaWarnings(ms)
  {
    out, warnings := "", [];
    for k := 0 to |ms|
      invariant out == Rules(ms[..k], enabled) && warnings == CommaWarnings(ms[..k])
    {
      assert ms[..k + 1][..k] == ms[..k];
      warnings := warnings + SelectorWarnings(ms[k]);
      if enabled {
        out := out + EnabledRule(ms[k]);
      } else {
        out := out + DisabledRule(ms[k]);
      }
    }
    assert ms[..|ms|] == ms;
  }

  /** The renderer as it runs. */
  method RenderProfileLua(name: string, date: string, ms: seq<Monitor>, edp: EdpPolicy, gpu: GpuPref,
                          priority: Option<int>)
    returns (r: Result<(string, seq<CommaWarning>), CaptureError>)
    ensures r == Rendered(name, date, ms, edp, gpu, priority)
  {
    var captured := CaptureLayout(ms);
    if captured.Err? {
      return Err(captured.error);
    }
    var layout := captured.value;
    var out := Banner(name, date) + "\n--\n";
    var header := RenderDirectives("--", layout.matchDescs, edp, gpu, priority);
    out := out + header;
    out := out + "\n";
    var on, onWarnings := RenderRules(layout.enabled, true);
    var off, offWarnings := RenderRules(layout.disabled, false);
    out := out + on + off + FOOTER;
    return Ok((out, onWarnings + offWarnings));
  }
}
