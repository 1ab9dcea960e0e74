/** The body of a captured profile, read by a reader of `hl.monitor` lines that knows nothing of how they were
    written. */
module CaptureBody {
  import opened Prelude
  import opened Text
  import opened Directives
  import opened Capture
  import opened CaptureRoundTrip

  datatype Rule =
    | Shown(output: string, width: nat, height: nat, refresh: string, x: int, y: int, scale: string, transform: nat)
    | Hidden(output: string)

  // ---- the reader ----

  /** What precedes the first `stop`, and the text from there on. */
  function Until(s: string, stop: char): Option<(string, string)> {
    match Find(s, stop)
    case None => None
    case Some(k) => Some((s[..k], s[k..]))
  }

  function ReadNat(s: string): Option<nat> {
    match ParseI64(s)
    case None => None
    case Some(v) => if v < 0 then None else Some(v)
  }

  function ReadTransform(s: string): Option<nat> {
    match StripPrefix(s, "\", transform = ")
    case None => None
    case Some(rest) =>
      match Until(rest, ',')
      case None => None
      case Some(t) => if t.1 == ", disabled = false })" then ReadNat(t.0) else None
  }

  function ReadScale(s: string): Option<(string, nat)> {
    match StripPrefix(s, "\", scale = \"")
    case None => None
    case Some(rest) =>
      match Until(rest, '"')
      case None => None
      case Some(t) => match ReadTransform(t.1) case None => None case Some(transform) => Some((t.0, transform))
  }

  function ReadPosition(s: string): Option<(int, int, string, nat)> {
    match StripPrefix(s, "\", position = \"")
    case None => None
    case Some(rest) =>
      match Until(rest, 'x')
      case None => None
      case Some(t) =>
        match Until(t.1[1..], '"')
        case None => None
        case Some(u) =>
          var x, y, more := ParseI64(t.0), ParseI64(u.0), ReadScale(u.1);
          if x.Some? && y.Some? && more.Some? then Some((x.value, y.value, more.value.0, more.value.1)) else None
  }

  function ReadMode(output: string, s: string): Option<Rule> {
    match StripPrefix(s, "\", mode = \"")
    case None => None
    case Some(rest) =>
      match Until(rest, 'x')
      case None => None
      case Some(t) =>
        match Until(t.1[1..], '@')
        case None => None
        case Some(u) =>
          match Until(u.1[1..], '"')
          case None => None
          case Some(v) =>
            var width, height, more := ReadNat(t.0), ReadNat(u.0), ReadPosition(v.1);
            if width.Some? && height.Some? && more.Some?
            then Some(Shown(output, width.value, height.value, v.0,
                            more.value.0, more.value.1, more.value.2, more.value.3))
            else None
  }

  function ReadRule(line: string): Option<Rule> {
    match StripPrefix(line, "hl.monitor({ output = \"")
    case None => None
    case Some(rest) =>
      match Until(rest, '"')
      case None => None
      case Some(t) =>
        if t.1 == "\", disabled = true })" then Some(Hidden(t.0)) else ReadMode(t.0, t.1)
  }

  predicate IsRule(line: string) {
    "hl.monitor(" <= line
  }

  /** Every rule of a profile, in order; nothing if one of them makes no sense. */
  function ReadRules(lines: seq<string>): Option<seq<Rule>> {
    if lines == [] then Some([])
    else
      var rest := ReadRules(lines[1..]);
      if !IsRule(lines[0]) then rest
      else
        var first := ReadRule(lines[0]);
        if first.Some? && rest.Some? then Some([first.value] + rest.value) else None
  }

  // ---- what was captured ----

  /** The panel and whatever has a comma in its description by name, everything else by description. */
  function OutputOf(m: Monitor): string {
    if "eDP" <= m.name || ',' in m.description then m.name else "desc:" + m.description
  }

  function RuleOf(m: Monitor): Rule {
    if m.disabled then Hidden(OutputOf(m))
    else Shown(OutputOf(m), m.width, m.height, m.refresh, m.x, m.y, m.scale, m.transform)
  }

  function RulesOf(ms: seq<Monitor>): (r: seq<Rule>)
    ensures |r| == |ms| && forall k | 0 <= k < |r| :: r[k] == RuleOf(ms[k])
  {
    seq(|ms|, k requires 0 <= k < |ms| => RuleOf(ms[k]))
  }

  predicate PlainText(s: string) {
    '"' !in s && '\n' !in s
  }

  /** Texts without a quote or newline, and numbers of the widths the compositor reports. */
  predicate Plain(m: Monitor) {
    && PlainText(m.name) && PlainText(m.description) && PlainText(m.refresh) && PlainText(m.scale)
    && m.width < 0x1_0000_0000 && m.height < 0x1_0000_0000 && m.transform < 0x100
    && -0x8000_0000 <= m.x < 0x8000_0000 && -0x8000_0000 <= m.y < 0x8000_0000
  }

  // ---- reading what was written ----

  lemma UntilReads(a: string, b: string, stop: char)
    requires stop !in a && b != [] && b[0] == stop
    ensures Until(a + b, stop) == Some((a, b))
  {
    assert a + b == a + [stop] + b[1..];
    FindsFirst(a, stop, b[1..]);
    assert (a + b)[..|a|] == a && (a + b)[|a|..] == b;
  }

  lemma PrefixReads(p: string, s: string)
    ensures StripPrefix(p + s, p) == Some(s)
  {
    assert (p + s)[..|p|] == p && (p + s)[|p|..] == s;
  }

  /** Numbers are written with digits and a sign only. */
  lemma NumbersArePlain(i: int, c: char)
    requires c != '-' && !IsDigit(c)
    ensures c !in IntText(i)
  {
  }

  lemma NatReads(n: nat)
    requires n <= I64_MAX
    ensures ReadNat(Decimal(n)) == Some(n)
  {
    IntRoundTrip(n);
    assert IntText(n) == Decimal(n);
  }

  lemma DecimalsArePlain(n: nat, c: char)
    requires !IsDigit(c)
    ensures c !in Decimal(n)
  {
  }

  lemma TransformReads(m: Monitor)
    requires Plain(m)
    ensures ReadTransform(TransformOn(m)) == Some(m.transform)
  {
    hide Decimal, ReadNat, Until, StripPrefix;
    var p, t, end := "\", transform = ", Decimal(m.transform), ", disabled = false })";
    assert p + t + end == p + (t + end);
    PrefixReads(p, t + end);
    DecimalsArePlain(m.transform, ',');
    UntilReads(t, end, ',');
    NatReads(m.transform);
  }

  lemma ScaleReads(m: Monitor)
    requires Plain(m)
    ensures ReadScale(ScaleOn(m)) == Some((m.scale, m.transform))
  {
    TransformBegins(m);
    hide ReadTransform, Until, StripPrefix, TransformOn;
    var p, rest := "\", scale = \"", TransformOn(m);
    assert p + m.scale + rest == p + (m.scale + rest);
    PrefixReads(p, m.scale + rest);
    UntilReads(m.scale, rest, '"');
    TransformReads(m);
  }

  lemma TransformBegins(m: Monitor)
    ensures TransformOn(m) != [] && TransformOn(m)[0] == '"'
  {
  }

  lemma ScaleBegins(m: Monitor)
    ensures ScaleOn(m) != [] && ScaleOn(m)[0] == '"'
  {
  }

  lemma PositionBegins(m: Monitor)
    ensures PositionOn(m) != [] && PositionOn(m)[0] == '"'
  {
  }

  lemma ModeBegins(m: Monitor)
    ensures ModeOn(m) != [] && ModeOn(m)[0] == '"'
    ensures ModeOn(m) != "\", disabled = true })"
  {
    hide PositionOn, Decimal;
    assert ModeOn(m)[3] == 'm';
    assert "\", disabled = true })"[3] == 'd';
  }

  lemma PositionReads(m: Monitor)
    requires Plain(m)
    ensures ReadPosition(PositionOn(m)) == Some((m.x, m.y, m.scale, m.transform))
  {
    ScaleBegins(m);
    hide ReadScale, Until, StripPrefix, ScaleOn, IntText, ParseI64;
    var p, x, y, rest := "\", position = \"", IntText(m.x), IntText(m.y), ScaleOn(m);
    assert p + x + "x" + y + rest == p + (x + ("x" + (y + rest)));
    PrefixReads(p, x + ("x" + (y + rest)));
    NumbersArePlain(m.x, 'x');
    UntilReads(x, "x" + (y + rest), 'x');
    assert ("x" + (y + rest))[1..] == y + rest;
    NumbersArePlain(m.y, '"');
    UntilReads(y, rest, '"');
    IntRoundTrip(m.x);
    IntRoundTrip(m.y);
    ScaleReads(m);
  }

  lemma ModeReads(m: Monitor, output: string)
    requires Plain(m)
    ensures ReadMode(output, ModeOn(m))
         == Some(Shown(output, m.width, m.height, m.refresh, m.x, m.y, m.scale, m.transform))
  {
    PositionBegins(m);
    hide ReadPosition, ReadNat, Until, StripPrefix, PositionOn, Decimal;
    var p, w, h, rest := "\", mode = \"", Decimal(m.width), Decimal(m.height), PositionOn(m);
    var afterWidth, afterHeight := "x" + (h + ("@" + (m.refresh + rest))), "@" + (m.refresh + rest);
    assert p + w + "x" + h + "@" + m.refresh + rest == p + (w + afterWidth);
    PrefixReads(p, w + afterWidth);
    DecimalsArePlain(m.width, 'x');
    UntilReads(w, afterWidth, 'x');
    assert afterWidth[1..] == h + afterHeight;
    DecimalsArePlain(m.height, '@');
    UntilReads(h, afterHeight, '@');
    assert afterHeight[1..] == m.refresh + rest;
    UntilReads(m.refresh, rest, '"');
    NatReads(m.width);
    NatReads(m.height);
    PositionReads(m);
  }

  lemma SelectorIsOutput(m: Monitor)
    requires Plain(m)
    ensures Selector(m) == OutputOf(m) && PlainText(OutputOf(m))
  {
  }

  function LineOf(m: Monitor): string {
    if m.disabled then DisabledLine(m) else EnabledLine(m)
  }

  lemma LineReads(m: Monitor)
    requires Plain(m)
    ensures ReadRule(LineOf(m)) == Some(RuleOf(m))
  {
    hide ModeOn, Selector, OutputOf, ReadRule, Plain;
    SelectorIsOutput(m);
    var output, end := OutputOf(m), "\", disabled = true })";
    if m.disabled {
      assert LineOf(m) == "hl.monitor({ output = \"" + (output + end);
      OutputReads(output, end);
    } else {
      ModeBegins(m);
      assert LineOf(m) == "hl.monitor({ output = \"" + (output + ModeOn(m));
      OutputReads(output, ModeOn(m));
      ModeReads(m, output);
    }
  }

  lemma OutputReads(output: string, rest: string)
    requires '"' !in output && rest != [] && rest[0] == '"'
    ensures ReadRule("hl.monitor({ output = \"" + (output + rest)) ==
      if rest == "\", disabled = true })" then Some(Hidden(output)) else ReadMode(output, rest)
  {
    hide ReadMode, Until, StripPrefix;
    PrefixReads("hl.monitor({ output = \"", output + rest);
    UntilReads(output, rest, '"');
  }

  /** A rule is one line, and looks like one. */
  lemma LineIsOneRule(m: Monitor)
    requires Plain(m)
    ensures '\n' !in LineOf(m) && IsRule(LineOf(m)) && StripCr(LineOf(m)) == LineOf(m)
  {
    SelectorIsOutput(m);
    ModeIsPlain(m);
    hide ModeOn, Selector, OutputOf, IsRule, StripCr;
    if m.disabled {
      OneRule("hl.monitor({ output = \"", OutputOf(m), "\", disabled = true })");
    } else {
      OneRule("hl.monitor({ output = \"", OutputOf(m), ModeOn(m));
    }
  }

  lemma OneRule(p: string, output: string, rest: string)
    requires "hl.monitor(" <= p && '\n' !in p && '\n' !in output && '\n' !in rest
    requires rest != [] && rest[|rest| - 1] == ')'
    ensures var line := p + output + rest;
      '\n' !in line && IsRule(line) && StripCr(line) == line
  {
    var line := p + output + rest;
    assert line[|line| - 1] == rest[|rest| - 1];
  }

  lemma ModeIsPlain(m: Monitor)
    requires Plain(m)
    ensures '\n' !in ModeOn(m) && ModeOn(m) != [] && ModeOn(m)[|ModeOn(m)| - 1] == ')'
  {
    PositionIsPlain(m);
    DecimalsArePlain(m.width, '\n');
    DecimalsArePlain(m.height, '\n');
    hide PositionOn, Decimal;
  }

  lemma PositionIsPlain(m: Monitor)
    requires Plain(m)
    ensures '\n' !in PositionOn(m) && PositionOn(m) != [] && PositionOn(m)[|PositionOn(m)| - 1] == ')'
  {
    ScaleIsPlain(m);
    NumbersArePlain(m.x, '\n');
    NumbersArePlain(m.y, '\n');
    hide ScaleOn, IntText;
  }

  lemma ScaleIsPlain(m: Monitor)
    requires Plain(m)
    ensures '\n' !in ScaleOn(m) && ScaleOn(m) != [] && ScaleOn(m)[|ScaleOn(m)| - 1] == ')'
  {
    DecimalsArePlain(m.transform, '\n');
    hide Decimal;
  }

  // ---- the whole profile ----

  function Prepend(first: seq<Rule>, rest: Option<seq<Rule>>): Option<seq<Rule>> {
    if rest.None? then None else Some(first + rest.value)
  }

  /** One rule in front of the text. */
  lemma RulePeels(m: Monitor, rest: string)
    requires Plain(m)
    ensures ReadRules(Lines(LineOf(m) + "\n" + rest)) == Prepend([RuleOf(m)], ReadRules(Lines(rest)))
  {
    hide LineOf, RuleOf, ReadRule, IsRule, Lines, Plain;
    LineIsOneRule(m);
    LineReads(m);
    FirstLine(LineOf(m), rest);
    assert ([LineOf(m)] + Lines(rest))[1..] == Lines(rest);
  }

  /** A line that is no rule in front of the text. */
  lemma OtherPeels(line: string, rest: string)
    requires '\n' !in line && (line == [] || line[0] != 'h')
    ensures ReadRules(Lines(line + "\n" + rest)) == ReadRules(Lines(rest))
  {
    hide ReadRule, Lines;
    FirstLine(line, rest);
    assert ([StripCr(line)] + Lines(rest))[1..] == Lines(rest);
    assert "hl.monitor("[0] == 'h';
  }

  lemma {:induction false} RulesPeel(ms: seq<Monitor>, enabled: bool, rest: string)
    requires forall m | m in ms :: Plain(m) && m.disabled != enabled
    ensures ReadRules(Lines(Rules(ms, enabled) + rest)) == Prepend(RulesOf(ms), ReadRules(Lines(rest)))
  {
    hide ReadRules, Lines, Plain, RuleOf, EnabledLine, DisabledLine;
    if ms == [] {
      assert Rules(ms, enabled) + rest == rest;
      assert forall r: seq<Rule> :: RulesOf(ms) + r == r;
    } else {
      var n := |ms| - 1;
      assert ms[n] in ms && forall m | m in ms[..n] :: m in ms;
      var line := LineOf(ms[n]);
      assert Rules(ms, enabled) + rest == Rules(ms[..n], enabled) + (line + "\n" + rest);
      RulesPeel(ms[..n], enabled, line + "\n" + rest);
      RulePeels(ms[n], rest);
      assert RulesOf(ms) == RulesOf(ms[..n]) + [RuleOf(ms[n])];
      assert forall r: seq<Rule> :: RulesOf(ms[..n]) + ([RuleOf(ms[n])] + r) == RulesOf(ms) + r;
    }
  }

  lemma DirectivePeels(key: string, val: string, rest: string)
    requires '\n' !in key && '\n' !in val
    ensures ReadRules(Lines(DirectiveLine("--", key, val) + rest)) == ReadRules(Lines(rest))
  {
    hide ReadRules, Lines;
    DirectiveLineIs(key, val);
    OtherPeels("--@ " + key + " = " + val, rest);
  }

  lemma {:induction false} MatchesPeel(descs: seq<string>, rest: string)
    requires forall d | d in descs :: '\n' !in d
    ensures ReadRules(Lines(MatchLines("--", descs) + rest)) == ReadRules(Lines(rest))
  {
    hide ReadRules, Lines, DirectiveLine;
    if descs == [] {
      assert MatchLines("--", descs) + rest == rest;
    } else {
      var n := |descs| - 1;
      var line := DirectiveLine("--", "match", "desc:" + descs[n]);
      assert MatchLines("--", descs) + rest == MatchLines("--", descs[..n]) + (line + rest);
      MatchesPeel(descs[..n], line + rest);
      DirectivePeels("match", "desc:" + descs[n], rest);
    }
  }

  lemma PoliciesPeel(edp: EdpPolicy, gpu: GpuPref, priority: Option<int>, rest: string)
    ensures ReadRules(Lines(DirectiveLine("--", "edp", EdpWord(edp))
                            + (GpuLine("--", gpu) + (PriorityLine("--", priority) + rest))))
         == ReadRules(Lines(rest))
  {
    hide ReadRules, Lines, DirectiveLine, IntText;
    WordsRead(edp, gpu);
    var g, p := GpuLine("--", gpu), PriorityLine("--", priority);
    DirectivePeels("edp", EdpWord(edp), g + (p + rest));
    if gpu == GpuAuto {
      assert g + (p + rest) == p + rest;
    } else {
      DirectivePeels("gpu", GpuWord(gpu), p + rest);
    }
    if priority.None? {
      assert p + rest == rest;
    } else {
      NumbersArePlain(priority.value, '\n');
      DirectivePeels("priority", IntText(priority.value), rest);
    }
  }

  lemma HeaderPeels(descs: seq<string>, edp: EdpPolicy, gpu: GpuPref, priority: Option<int>, rest: string)
    requires forall d | d in descs :: '\n' !in d
    ensures ReadRules(Lines(DirectivesText("--", descs, edp, gpu, priority) + rest)) == ReadRules(Lines(rest))
  {
    hide ReadRules, Lines, DirectiveLine, GpuLine, PriorityLine, MatchLines;
    var e, g, p := DirectiveLine("--", "edp", EdpWord(edp)), GpuLine("--", gpu), PriorityLine("--", priority);
    Regroup(MatchLines("--", descs), e, g, p, rest);
    MatchesPeel(descs, e + (g + (p + rest)));
    PoliciesPeel(edp, gpu, priority, rest);
  }

  lemma BannerPeels(name: string, date: string, rest: string)
    requires '\n' !in name && '\n' !in date
    ensures ReadRules(Lines(Banner(name, date) + "\n--\n" + rest)) == ReadRules(Lines(rest))
  {
    BannerShape(name, date);
    BannerOpens(name, date);
    hide ReadRules, Lines, Banner;
    assert Banner(name, date) + "\n--\n" + rest == Banner(name, date) + "\n" + ("--" + "\n" + rest);
    OtherPeels(Banner(name, date), "--" + "\n" + rest);
    OtherPeels("--", rest);
  }

  lemma BannerOpens(name: string, date: string)
    ensures Banner(name, date) != [] && Banner(name, date)[0] == '-'
  {
  }

  lemma FooterPeels()
    ensures ReadRules(Lines(FOOTER)) == Some([])
  {
    hide ReadRules, Lines;
    FooterIsComments();
    RegroupFooter(HINT, EXAMPLE);
    OtherPeels("", HINT + "\n" + (EXAMPLE + "\n" + ""));
    OtherPeels(HINT, EXAMPLE + "\n" + "");
    OtherPeels(EXAMPLE, "");
    NoLines();
  }

  lemma FooterIsComments()
    ensures '\n' !in HINT && HINT[0] == '-'
    ensures '\n' !in EXAMPLE && EXAMPLE[0] == '-'
  {
    HintIsAComment();
    ExampleIsAComment();
  }

  lemma HintIsAComment()
    ensures '\n' !in HINT && HINT[0] == '-'
  {
  }

  lemma ExampleIsAComment()
    ensures '\n' !in EXAMPLE && EXAMPLE[0] == '-'
  {
    var a, b := "-- hl.workspace_rule({ workspace = \"1\"", ", monitor = \"desc:...\", default = true })";
    assert EXAMPLE == a + b;
  }

  lemma RegroupFooter(a: string, b: string)
    ensures "\n" + a + "\n" + b + "\n" == "" + "\n" + (a + "\n" + (b + "\n" + ""))
  {
  }

  lemma NoLines()
    ensures ReadRules(Lines("")) == Some([])
  {
  }

  /** Reading the body of a captured profile gives back every monitor: the enabled ones left to right, each
      with its mode, position, scale and transform where they belong, then the disabled ones. */
  lemma BodyReadsBack(name: string, date: string, ms: seq<Monitor>, edp: EdpPolicy, gpu: GpuPref, priority: Option<int>)
    requires exists m :: m in ms && !m.disabled
    requires '\n' !in name && '\n' !in date && forall m | m in ms :: Plain(m)
    ensures Rendered(name, date, ms, edp, gpu, priority).Ok?
    ensures var layout := CaptureLayout(ms).value;
      ReadRules(Lines(Rendered(name, date, ms, edp, gpu, priority).value.0))
        == Some(RulesOf(layout.enabled) + RulesOf(layout.disabled))
  {
    hide ReadRules, Lines, ProfileText, RulesOf, Plain;
    PlainIsNewlineFree(ms);
    CapturesTheExternals(ms);
    CapturedDescriptionsAreNewlineFree(ms);
    LayoutIsPlain(ms);
    TextReadsBack(name, date, CaptureLayout(ms).value, edp, gpu, priority);
  }

  lemma TextReadsBack(name: string, date: string, layout: Layout, edp: EdpPolicy, gpu: GpuPref, priority: Option<int>)
    requires '\n' !in name && '\n' !in date && forall d | d in layout.matchDescs :: '\n' !in d
    requires forall m | m in layout.enabled :: Plain(m) && !m.disabled
    requires forall m | m in layout.disabled :: Plain(m) && m.disabled
    ensures ReadRules(Lines(ProfileText(name, date, layout, edp, gpu, priority)))
         == Some(RulesOf(layout.enabled) + RulesOf(layout.disabled))
  {
    hide ReadRules, Lines, Rules, Banner, DirectivesText, RulesOf, Plain;
    var header := DirectivesText("--", layout.matchDescs, edp, gpu, priority);
    var on, off := Rules(layout.enabled, true), Rules(layout.disabled, false);
    RegroupProfile(Banner(name, date) + "\n--\n", header, on, off, FOOTER);
    BannerPeels(name, date, header + ("" + "\n" + (on + (off + FOOTER))));
    HeaderPeels(layout.matchDescs, edp, gpu, priority, "" + "\n" + (on + (off + FOOTER)));
    OtherPeels("", on + (off + FOOTER));
    RulesPeel(layout.enabled, true, off + FOOTER);
    RulesPeel(layout.disabled, false, FOOTER);
    FooterPeels();
    assert RulesOf(layout.disabled) + [] == RulesOf(layout.disabled);
  }

  lemma RegroupProfile(banner: string, header: string, on: string, off: string, footer: string)
    ensures banner + header + "\n" + on + off + footer == banner + (header + ("" + "\n" + (on + (off + footer))))
  {
    TextRegroups(banner, header, "\n", on, off, footer);
    assert header + "\n" + on + (off + footer) == header + ("" + "\n" + (on + (off + footer)));
  }

  lemma PlainIsNewlineFree(ms: seq<Monitor>)
    requires forall m | m in ms :: Plain(m)
    ensures NewlineFree(ms)
  {
  }

  lemma LayoutIsPlain(ms: seq<Monitor>)
    requires CaptureLayout(ms).Ok? && forall m | m in ms :: Plain(m)
    ensures var l := CaptureLayout(ms).value;
      && (forall m | m in l.enabled :: Plain(m) && !m.disabled)
      && (forall m | m in l.disabled :: Plain(m) && m.disabled)
  {
    hide Plain, CaptureLayout;
    CapturesTheExternals(ms);
  }

  /** A comma warning names exactly the externals whose description holds one. */
  lemma {:induction false} CommasAreWarnedOf(ms: seq<Monitor>)
    ensures forall w :: w in CommaWarnings(ms) <==>
      exists m :: m in ms && !("eDP" <= m.name) && ',' in m.description && w == CommaWarning(m.name, m.description)
  {
    if ms != [] {
      var n := |ms| - 1;
      assert ms == ms[..n] + [ms[n]];
      CommasAreWarnedOf(ms[..n]);
    }
  }

  // ---- the layout ----

  /** The monitors that are off, in the order given. */
  function Off(ms: seq<Monitor>): seq<Monitor> {
    if ms == [] then []
    else
      var n := |ms| - 1;
      if ms[n].disabled then Off(ms[..n]) + [ms[n]] else Off(ms[..n])
  }

  /** Those at one position, in order, on or off as asked. */
  function At(ms: seq<Monitor>, x: int, y: int, disabled: bool): seq<Monitor> {
    if ms == [] then []
    else
      var n := |ms| - 1;
      if ms[n].x == x && ms[n].y == y && ms[n].disabled == disabled then At(ms[..n], x, y, disabled) + [ms[n]]
      else At(ms[..n], x, y, disabled)
  }

  lemma {:induction false} AtAdds(a: seq<Monitor>, b: seq<Monitor>, x: int, y: int, disabled: bool)
    ensures At(a + b, x, y, disabled) == At(a, x, y, disabled) + At(b, x, y, disabled)
  {
    if b == [] {
      assert a + b == a;
    } else {
      var n := |b| - 1;
      assert (a + b)[..|a + b| - 1] == a + b[..n];
      AtAdds(a, b[..n], x, y, disabled);
    }
  }

  lemma {:induction false} OffAdds(a: seq<Monitor>, b: seq<Monitor>)
    ensures Off(a + b) == Off(a) + Off(b)
  {
    if b == [] {
      assert a + b == a;
    } else {
      var n := |b| - 1;
      assert (a + b)[..|a + b| - 1] == a + b[..n];
      OffAdds(a, b[..n]);
    }
  }

  lemma {:induction false} DisabledAreOff(ms: seq<Monitor>)
    ensures WithDisabled(ms, true) == Off(ms)
  {
    if ms != [] {
      assert ms == [ms[0]] + ms[1..];
      DisabledAreOff(ms[1..]);
      OffAdds([ms[0]], ms[1..]);
      assert [ms[0]][..0] == [];
      assert Off([ms[0]]) == if ms[0].disabled then [ms[0]] else [];
      assert [] + WithDisabled(ms[1..], true) == WithDisabled(ms[1..], true);
      assert [] + Off(ms[1..]) == Off(ms[1..]);
    }
  }

  lemma {:induction false} EnabledKeepOrder(ms: seq<Monitor>, x: int, y: int)
    ensures At(WithDisabled(ms, false), x, y, false) == At(ms, x, y, false)
  {
    if ms != [] {
      assert ms == [ms[0]] + ms[1..];
      EnabledKeepOrder(ms[1..], x, y);
      AtAdds([ms[0]], ms[1..], x, y, false);
      AtAdds([ms[0]], WithDisabled(ms[1..], false), x, y, false);
      OneOfThem(ms[0], x, y);
      assert [] + WithDisabled(ms[1..], false) == WithDisabled(ms[1..], false);
      assert [] + At(ms[1..], x, y, false) == At(ms[1..], x, y, false);
      hide At;
    }
  }

  lemma {:induction false} InsertKeepsEquals(m: Monitor, sorted: seq<Monitor>, x: int, y: int)
    ensures At(Insert(m, sorted), x, y, false) == At(sorted + [m], x, y, false)
  {
    hide At, LeftOf;
    if sorted == [] {
      assert sorted + [m] == [m];
    } else {
      var n := |sorted| - 1;
      if LeftOf(m, sorted[n]) {
        InsertKeepsEquals(m, sorted[..n], x, y);
        assert sorted == sorted[..n] + [sorted[n]];
        AtAdds(Insert(m, sorted[..n]), [sorted[n]], x, y, false);
        AtAdds(sorted[..n], [m], x, y, false);
        AtAdds(sorted[..n], [sorted[n]], x, y, false);
        AtAdds(sorted, [m], x, y, false);
        ApartCommute(At(sorted[..n], x, y, false), m, sorted[n], x, y);
      }
    }
  }

  /** Two monitors at different positions are never both at one, so their order there does not matter. */
  lemma ApartCommute(before: seq<Monitor>, a: Monitor, b: Monitor, x: int, y: int)
    requires LeftOf(a, b)
    ensures before + At([a], x, y, false) + At([b], x, y, false) == before + At([b], x, y, false) + At([a], x, y, false)
  {
    OneOfThem(a, x, y);
    OneOfThem(b, x, y);
  }

  lemma OneOfThem(m: Monitor, x: int, y: int)
    ensures At([m], x, y, false) == if m.x == x && m.y == y && !m.disabled then [m] else []
  {
    assert [m][..0] == [];
  }

  lemma {:induction false} SortKeepsEquals(ms: seq<Monitor>, x: int, y: int)
    ensures At(SortByPosition(ms), x, y, false) == At(ms, x, y, false)
  {
    if ms != [] {
      var n := |ms| - 1;
      SortKeepsEquals(ms[..n], x, y);
      InsertKeepsEquals(ms[n], SortByPosition(ms[..n]), x, y);
      AtAdds(SortByPosition(ms[..n]), [ms[n]], x, y, false);
      AtAdds(ms[..n], [ms[n]], x, y, false);
      assert ms == ms[..n] + [ms[n]];
    }
  }

  predicate External(m: Monitor) {
    !("eDP" <= m.name)
  }

  lemma {:induction false} ExternalsInOrder(ms: seq<Monitor>)
    requires LeftToRight(ms)
    ensures LeftToRight(Externals(ms))
    ensures forall m :: multiset(Externals(ms))[m] == if External(m) then multiset(ms)[m] else 0
  {
    if ms != [] {
      assert ms == [ms[0]] + ms[1..];
      ExternalsInOrder(ms[1..]);
      ExternalsKeep(ms[1..]);
      var rest := Externals(ms[1..]);
      forall k | 0 <= k < |rest| ensures !LeftOf(rest[k], ms[0]) {
        assert rest[k] in rest;
        var j :| 0 < j < |ms| && ms[j] == rest[k];
      }
    }
  }

  /** The captured layout: the enabled monitors left to right, then top to bottom, those at one position as
      they were given; the disabled ones as they were given; and to match on, the enabled externals left to
      right, each as often as it occurs, or all that is enabled when none is external. */
  lemma LayoutIsExactly(ms: seq<Monitor>) returns (matched: seq<Monitor>)
    requires CaptureLayout(ms).Ok?
    ensures var l := CaptureLayout(ms).value;
      && (forall i, j | 0 <= i < j < |l.enabled| ::
            l.enabled[i].x < l.enabled[j].x || (l.enabled[i].x == l.enabled[j].x && l.enabled[i].y <= l.enabled[j].y))
      && (forall x, y :: At(l.enabled, x, y, false) == At(ms, x, y, false))
      && (forall m :: m in l.enabled <==> m in ms && !m.disabled)
      && l.disabled == Off(ms)
      && |matched| == |l.matchDescs| && (forall k | 0 <= k < |matched| :: l.matchDescs[k] == matched[k].description)
      && if exists m :: m in l.enabled && External(m)
         then LeftToRight(matched)
               && forall m :: multiset(matched)[m] == if External(m) then multiset(l.enabled)[m] else 0
         else matched == l.enabled
  {
    hide WithDisabled, SortByPosition, Externals, At, Off, External;
    var enabled := CaptureLayout(ms).value.enabled;
    CapturesTheExternals(ms);
    DisabledAreOff(ms);
    assert forall i, j | 0 <= i < j < |enabled| :: !LeftOf(enabled[j], enabled[i]);
    matched := if Externals(enabled) == [] then enabled else Externals(enabled);
    MatchedAre(enabled);
    forall x, y ensures At(enabled, x, y, false) == At(ms, x, y, false) {
      SortKeepsEquals(WithDisabled(ms, false), x, y);
      EnabledKeepOrder(ms, x, y);
    }
  }

  lemma MatchedAre(enabled: seq<Monitor>)
    requires LeftToRight(enabled)
    ensures Externals(enabled) == [] <==> forall m | m in enabled :: !External(m)
    ensures LeftToRight(Externals(enabled))
    ensures forall m :: multiset(Externals(enabled))[m] == if External(m) then multiset(enabled)[m] else 0
  {
    ExternalsInOrder(enabled);
    ExternalsKeep(enabled);
    hide Externals, LeftToRight;
    var s := Externals(enabled);
    assert s != [] ==> s[0] in s;
  }
}
