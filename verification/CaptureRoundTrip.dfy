/** A captured profile reads back as what was captured. */
module CaptureRoundTrip {
  import opened Prelude
  import opened Text
  import opened Directives
  import opened Capture

  /** The scan of what follows, given what the line before it came to. */
  function After(o: Outcome, h: Header, rest: seq<string>): Result<Header, ParseError> {
    match o
    case Goes(next) => Scan(next, rest)
    case BodyBegins => Ok(h)
    case Fails(error) => Err(error)
  }

  /** One more line in front of the text: the scan takes it first. */
  lemma Peel(h: Header, line: string, rest: string)
    requires '\n' !in line
    ensures Scan(h, Lines(line + "\n" + rest)) == After(Line(h, StripCr(line)), h, Lines(rest))
  {
    FirstLine(line, rest);
    assert ([StripCr(line)] + Lines(rest))[1..] == Lines(rest);
  }

  lemma TrimStartSpace(s: string)
    requires s != [] && !IsWhite(s[0])
    ensures TrimStart(" " + s) == s
  {
    assert (" " + s)[1..] == s;
  }

  lemma LeaderReads(rest: string)
    ensures AfterLeader("--@" + rest) == Some(rest)
  {
    var line := "--@" + rest;
    assert line[0] == '-';
    assert line[..3] == "--@" && line[3..] == rest;
  }

  lemma KeySplits(key: string, val: string)
    requires key != [] && KeyOk(key, false)
    ensures var rest := key + " = " + val;
      && Find(rest, '=') == Some(|key| + 1)
      && TrimEnd(rest[..|key| + 1]) == key
      && rest[|key| + 2..] == " " + val
  {
    var rest := key + " = " + val;
    assert rest == (key + " ") + ['='] + (" " + val);
    FindsFirst(key + " ", '=', " " + val);
    assert rest[..|key| + 1] == key + " ";
    assert (key + " ")[..|key|] == key;
    assert IsLower(key[|key| - 1]);
  }

  /** A rendered directive line gives back its key and its trimmed value. */
  lemma DirectiveReads(key: string, val: string)
    requires key != [] && KeyOk(key, false) && Trim(val) != []
    ensures ParseDirective("--@ " + key + " = " + val, false) == Some((key, Trim(val)))
  {
    hide AfterLeader, Find, TrimEnd, StripPrefix;
    var rest := key + " = " + val;
    assert "--@ " + key + " = " + val == "--@" + (" " + rest);
    LeaderReads(" " + rest);
    assert rest[0] == key[0] && IsLower(key[0]);
    TrimStartSpace(rest);
    KeySplits(key, val);
    assert (" " + val)[1..] == val;
    assert Trim(" " + val) == Trim(val);
  }

  /** Trimming a value that begins with ink undoes nothing but its tail. */
  lemma TrimInk(s: string)
    requires s != [] && !IsWhite(s[0])
    ensures Trim(s) == TrimEnd(s) && TrimEnd(s) != []
  {
  }

  lemma StripCrOfTail(a: string, b: string)
    requires b != []
    ensures StripCr(a + b) == a + StripCr(b)
  {
    assert (a + b)[|a + b| - 1] == b[|b| - 1];
  }

  /** What a rendered line does to the header. */
  lemma DirectiveActs(h: Header, key: string, val: string)
    requires key != [] && KeyOk(key, false) && val != [] && !IsWhite(val[0])
    ensures Line(h, StripCr("--@ " + key + " = " + val)) == Directive(h, key, TrimEnd(val))
  {
    var cut := StripCr(val);
    StripCrOfTail("--@ " + key + " = ", val);
    TrimEndForgetsCr(val);
    TrimInk(val);
    assert cut != [] by {
      assert IsWhite('\r') && TrimEnd([]) == [];
    }
    TrimInk(cut);
    DirectiveReads(key, cut);
    var line := "--@ " + key + " = " + cut;
    assert line[..3] == "--@";
  }

  lemma DirectiveLineIs(key: string, val: string)
    ensures DirectiveLine("--", key, val) == "--@ " + key + " = " + val + "\n"
  {
    assert "--" + "@ " == "--@ ";
  }

  /** A rendered line in front of the text, whatever comes after it. */
  lemma DirectiveScans(h: Header, key: string, val: string, rest: string)
    requires key != [] && KeyOk(key, false) && '\n' !in val && val != [] && !IsWhite(val[0])
    ensures Scan(h, Lines(DirectiveLine("--", key, val) + rest))
         == After(Directive(h, key, TrimEnd(val)), h, Lines(rest))
  {
    var line := "--@ " + key + " = " + val;
    DirectiveLineIs(key, val);
    assert '\n' !in key && '\n' !in line;
    DirectiveActs(h, key, val);
    Peel(h, line, rest);
  }

  lemma BannerShape(name: string, date: string)
    requires '\n' !in name && '\n' !in date
    ensures var line := Banner(name, date);
      && '\n' !in line
      && StripCr(line) == line
      && !IsDirective(line) && IsFiller(line)
  {
    var line := Banner(name, date);
    var who := name + " \U{2014} captured from the live layout (" + date;
    assert '\n' !in who;
    assert line == "-- Profile: " + who + ").";
    assert line[|line| - 1] == '.';
    assert line[0] == '-' && line[1] == '-' && line[2] == ' ';
    assert line[..2] == "--";
  }

  /** The banner and the bare comment line leave the header as it was. */
  lemma BannerScans(h: Header, name: string, date: string, rest: string)
    requires '\n' !in name && '\n' !in date
    ensures Scan(h, Lines(Banner(name, date) + "\n--\n" + rest)) == Scan(h, Lines(rest))
  {
    var line := Banner(name, date);
    BannerShape(name, date);
    assert line + "\n--\n" + rest == line + "\n" + ("--" + "\n" + rest);
    Peel(h, line, "--" + "\n" + rest);
    Peel(h, "--", rest);
    assert Line(h, "--") == Goes(h);
  }

  predicate BeginsBody(s: string) {
    |s| >= 2 && s[0] == 'h' && s[1] == 'l'
  }

  lemma StaysBody(a: string, b: string)
    requires BeginsBody(a)
    ensures BeginsBody(a + b)
  {
  }

  lemma EnabledLineBeginsTheBody(m: Monitor)
    ensures BeginsBody(EnabledLine(m))
  {
    hide ModeOn, Selector;
    StaysBody("hl.monitor({ output = \"", Selector(m));
    StaysBody("hl.monitor({ output = \"" + Selector(m), ModeOn(m));
  }

  lemma {:induction false} RulesBeginTheBody(ms: seq<Monitor>)
    requires ms != []
    ensures BeginsBody(Rules(ms, true))
  {
    hide ModeOn;
    var n := |ms| - 1;
    EnabledLineBeginsTheBody(ms[n]);
    StaysBody(EnabledLine(ms[n]), "\n");
    hide EnabledLine;
    if n > 0 {
      RulesBeginTheBody(ms[..n]);
      StaysBody(Rules(ms[..n], true), EnabledRule(ms[n]));
    } else {
      assert Rules(ms, true) == EnabledRule(ms[n]);
    }
  }

  lemma FirstLineOfBody(h: Header, body: string)
    requires BeginsBody(body)
    ensures Scan(h, Lines(body)) == Ok(h)
  {
    var first := Lines(body)[0];
    assert first != [] && first[0] == 'h';
    assert Line(h, first).BodyBegins?;
  }

  /** The blank line leaves the header open; the first rule ends it. */
  lemma BodyEndsTheHeader(h: Header, rules: string, rest: string)
    requires BeginsBody(rules)
    ensures Scan(h, Lines("\n" + rules + rest)) == Ok(h)
  {
    assert "\n" + rules + rest == "" + "\n" + (rules + rest);
    Peel(h, "", rules + rest);
    assert Line(h, "") == Goes(h);
    StaysBody(rules, rest);
    FirstLineOfBody(h, rules + rest);
  }

  /** What a rendered match line keeps of a description. */
  function MatchValue(desc: string): string {
    TrimEnd("desc:" + desc)
  }

  function MatchValues(descs: seq<string>): (r: seq<string>)
    ensures |r| == |descs|
    ensures forall k | 0 <= k < |r| :: r[k] == MatchValue(descs[k])
  {
    seq(|descs|, k requires 0 <= k < |descs| => MatchValue(descs[k]))
  }

  lemma {:induction false} MatchLinesScan(h: Header, descs: seq<string>, rest: string)
    requires forall d | d in descs :: '\n' !in d
    ensures Scan(h, Lines(MatchLines("--", descs) + rest))
         == Scan(h.(matches := h.matches + MatchValues(descs)), Lines(rest))
  {
    hide Lines, Scan, DirectiveLine, MatchValue;
    if descs == [] {
      assert MatchLines("--", descs) + rest == rest;
      assert h.matches + MatchValues(descs) == h.matches;
    } else {
      var n := |descs| - 1;
      var before, line := MatchLines("--", descs[..n]), DirectiveLine("--", "match", "desc:" + descs[n]);
      assert before + line + rest == before + (line + rest);
      MatchLinesScan(h, descs[..n], line + rest);
      var h1 := h.(matches := h.matches + MatchValues(descs[..n]));
      MatchScans(h1, descs[n], rest);
      assert h.matches + MatchValues(descs) == h1.matches + [MatchValue(descs[n])];
    }
  }

  lemma MatchScans(h: Header, desc: string, rest: string)
    requires '\n' !in desc
    ensures Scan(h, Lines(DirectiveLine("--", "match", "desc:" + desc) + rest))
         == Scan(h.(matches := h.matches + [MatchValue(desc)]), Lines(rest))
  {
    DirectiveScans(h, "match", "desc:" + desc, rest);
  }

  /** What the directive lines leave in the header. */
  function Told(descs: seq<string>, edp: EdpPolicy, gpu: GpuPref, priority: Option<int>): Header {
    Header(MatchValues(descs), [], edp, gpu, priority, [])
  }

  lemma WordsRead(edp: EdpPolicy, gpu: GpuPref)
    ensures ParseEdp(EdpWord(edp)) == Some(edp) && TrimEnd(EdpWord(edp)) == EdpWord(edp)
    ensures ParseGpu(GpuWord(gpu)) == Some(gpu) && TrimEnd(GpuWord(gpu)) == GpuWord(gpu)
    ensures EdpWord(edp) != [] && !IsWhite(EdpWord(edp)[0]) && '\n' !in EdpWord(edp)
    ensures GpuWord(gpu) != [] && !IsWhite(GpuWord(gpu)[0]) && '\n' !in GpuWord(gpu)
  {
  }

  lemma EdpScans(h: Header, edp: EdpPolicy, rest: string)
    ensures Scan(h, Lines(DirectiveLine("--", "edp", EdpWord(edp)) + rest)) == Scan(h.(edp := edp), Lines(rest))
  {
    WordsRead(edp, GpuAuto);
    DirectiveScans(h, "edp", EdpWord(edp), rest);
  }

  lemma GpuScans(h: Header, gpu: GpuPref, rest: string)
    requires h.gpu == GpuAuto
    ensures Scan(h, Lines(GpuLine("--", gpu) + rest)) == Scan(h.(gpu := gpu), Lines(rest))
  {
    if gpu == GpuAuto {
      assert GpuLine("--", gpu) + rest == rest;
    } else {
      WordsRead(EdpAuto, gpu);
      DirectiveScans(h, "gpu", GpuWord(gpu), rest);
    }
  }

  lemma PriorityScans(h: Header, priority: Option<int>, rest: string)
    requires h.priority == None && (priority.Some? ==> I64_MIN <= priority.value <= I64_MAX)
    ensures Scan(h, Lines(PriorityLine("--", priority) + rest)) == Scan(h.(priority := priority), Lines(rest))
  {
    hide Lines, IntText, ParseI64, Trim, TrimEnd, DirectiveLine;
    if priority.None? {
      assert PriorityLine("--", priority) + rest == rest;
    } else {
      IntTextIsPlain(priority.value);
      IntRoundTrip(priority.value);
      DirectiveScans(h, "priority", IntText(priority.value), rest);
    }
  }

  lemma Regroup(a: string, b: string, c: string, d: string, e: string)
    ensures a + b + c + d + e == a + (b + (c + (d + e)))
  {
  }

  lemma DirectivesScan(descs: seq<string>, edp: EdpPolicy, gpu: GpuPref, priority: Option<int>, rest: string)
    requires forall d | d in descs :: '\n' !in d
    requires priority.Some? ==> I64_MIN <= priority.value <= I64_MAX
    ensures Scan(EMPTY, Lines(DirectivesText("--", descs, edp, gpu, priority) + rest))
         == Scan(Told(descs, edp, gpu, priority), Lines(rest))
  {
    hide Scan, Lines, DirectiveLine, GpuLine, PriorityLine, MatchLines;
    var e, g, p := DirectiveLine("--", "edp", EdpWord(edp)), GpuLine("--", gpu), PriorityLine("--", priority);
    Regroup(MatchLines("--", descs), e, g, p, rest);
    MatchLinesScan(EMPTY, descs, e + (g + (p + rest)));
    assert [] + MatchValues(descs) == MatchValues(descs);
    var h := EMPTY.(matches := MatchValues(descs));
    EdpScans(h, edp, g + (p + rest));
    GpuScans(h.(edp := edp), gpu, p + rest);
    PriorityScans(h.(edp := edp, gpu := gpu), priority, rest);
  }

  // ---- the theorem ----

  predicate NewlineFree(ms: seq<Monitor>) {
    forall m | m in ms :: '\n' !in m.description
  }

  lemma {:induction false} InsertHas(m: Monitor, sorted: seq<Monitor>)
    ensures multiset(Insert(m, sorted)) == multiset(sorted) + multiset{m}
  {
    if sorted != [] {
      var n := |sorted| - 1;
      assert sorted == sorted[..n] + [sorted[n]];
      InsertHas(m, sorted[..n]);
    }
  }

  lemma {:induction false} SortHas(ms: seq<Monitor>)
    ensures multiset(SortByPosition(ms)) == multiset(ms)
  {
    if ms != [] {
      var n := |ms| - 1;
      assert ms == ms[..n] + [ms[n]];
      SortHas(ms[..n]);
      InsertHas(ms[n], SortByPosition(ms[..n]));
    }
  }

  ghost predicate LeftToRight(ms: seq<Monitor>) {
    forall i, j | 0 <= i < j < |ms| :: !LeftOf(ms[j], ms[i])
  }

  lemma NotLeftOfTransitive(a: Monitor, b: Monitor, c: Monitor)
    requires !LeftOf(b, a) && !LeftOf(c, b)
    ensures !LeftOf(c, a)
  {
  }

  lemma LeftOfAsymmetric(a: Monitor, b: Monitor)
    requires LeftOf(a, b)
    ensures !LeftOf(b, a)
  {
  }

  lemma {:induction false} InsertOrders(m: Monitor, sorted: seq<Monitor>)
    requires LeftToRight(sorted)
    ensures LeftToRight(Insert(m, sorted))
  {
    if sorted != [] {
      var n := |sorted| - 1;
      hide LeftOf;
      if LeftOf(m, sorted[n]) {
        InsertOrders(m, sorted[..n]);
        InsertHas(m, sorted[..n]);
        LeftOfAsymmetric(m, sorted[n]);
        var r := Insert(m, sorted[..n]);
        forall k | 0 <= k < |r| ensures !LeftOf(sorted[n], r[k]) {
          assert r[k] in multiset(r);
          if r[k] != m {
            assert r[k] in multiset(sorted[..n]);
            var j :| 0 <= j < n && sorted[j] == r[k];
          }
        }
      } else {
        forall k | 0 <= k < n ensures !LeftOf(m, sorted[k]) {
          NotLeftOfTransitive(sorted[k], sorted[n], m);
        }
      }
    }
  }

  lemma {:induction false} SortOrders(ms: seq<Monitor>)
    ensures LeftToRight(SortByPosition(ms))
  {
    if ms != [] {
      var n := |ms| - 1;
      SortOrders(ms[..n]);
      InsertOrders(ms[n], SortByPosition(ms[..n]));
    }
  }

  /** A captured profile reads back without warnings as what was captured: the match values of the
      externals left to right (of the panel when there are none), the policies, and the priority, which
      defaults to the match count. */
  lemma RoundTrip(fileName: string, name: string, date: string, ms: seq<Monitor>, edp: EdpPolicy, gpu: GpuPref,
                  priority: Option<int>)
    requires exists m :: m in ms && !m.disabled
    requires '\n' !in name && '\n' !in date && NewlineFree(ms)
    requires priority.Some? ==> I64_MIN <= priority.value <= I64_MAX
    ensures Rendered(name, date, ms, edp, gpu, priority).Ok?
    ensures var text := Rendered(name, date, ms, edp, gpu, priority).value.0;
      var matches := MatchValues(CaptureLayout(ms).value.matchDescs);
      Parsed(fileName, Lua, text) == Ok((Profile(fileName, Lua, matches, edp, gpu, [], priority.GetOr(|matches|)), []))
  {
    var layout := CaptureLayout(ms).value;
    CapturedDescriptionsAreNewlineFree(ms);
    HeaderReadsBack(name, date, layout, edp, gpu, priority);
  }

  lemma HeaderReadsBack(name: string, date: string, layout: Layout, edp: EdpPolicy, gpu: GpuPref, priority: Option<int>)
    requires layout.enabled != [] && forall d | d in layout.matchDescs :: '\n' !in d
    requires '\n' !in name && '\n' !in date
    requires priority.Some? ==> I64_MIN <= priority.value <= I64_MAX
    ensures Scan(EMPTY, Lines(ProfileText(name, date, layout, edp, gpu, priority)))
         == Ok(Told(layout.matchDescs, edp, gpu, priority))
  {
    var header := DirectivesText("--", layout.matchDescs, edp, gpu, priority);
    var rules := Rules(layout.enabled, true);
    var tail := Rules(layout.disabled, false) + FOOTER;
    var body := "\n" + rules + tail;
    TextRegroups(Banner(name, date) + "\n--\n", header, "\n", rules, Rules(layout.disabled, false), FOOTER);
    BannerScans(EMPTY, name, date, header + body);
    DirectivesScan(layout.matchDescs, edp, gpu, priority, body);
    RulesBeginTheBody(layout.enabled);
    BodyEndsTheHeader(Told(layout.matchDescs, edp, gpu, priority), rules, tail);
  }

  lemma TextRegroups(a: string, b: string, c: string, d: string, e: string, f: string)
    ensures a + b + c + d + e + f == a + (b + (c + d + (e + f)))
  {
  }

  lemma CapturedDescriptionsAreNewlineFree(ms: seq<Monitor>)
    requires NewlineFree(ms) && CaptureLayout(ms).Ok?
    ensures forall d | d in CaptureLayout(ms).value.matchDescs :: '\n' !in d
  {
    hide WithDisabled, SortByPosition, Externals;
    var unsorted := WithDisabled(ms, false);
    var enabled := SortByPosition(unsorted);
    WithDisabledKeeps(ms, false);
    SortHas(unsorted);
    ExternalsKeep(enabled);
    forall m | m in enabled ensures m in ms {
      assert m in multiset(enabled);
    }
  }

  lemma {:induction false} WithDisabledKeeps(ms: seq<Monitor>, disabled: bool)
    ensures forall m :: m in WithDisabled(ms, disabled) <==> m in ms && m.disabled == disabled
  {
    if ms != [] {
      assert ms == [ms[0]] + ms[1..];
      WithDisabledKeeps(ms[1..], disabled);
    }
  }

  lemma {:induction false} ExternalsKeep(ms: seq<Monitor>)
    ensures forall m :: m in Externals(ms) <==> m in ms && !m.Internal()
  {
    if ms != [] {
      assert ms == [ms[0]] + ms[1..];
      ExternalsKeep(ms[1..]);
    }
  }

  /** A description comes back unchanged exactly when it does not end in white space. */
  lemma DescriptionSurvivesExactlyWhen(desc: string)
    ensures MatchValue(desc) == "desc:" + desc <==> desc == [] || !IsWhite(desc[|desc| - 1])
  {
    var s := "desc:" + desc;
    assert desc != [] ==> s[|s| - 1] == desc[|desc| - 1];
  }

  /** The captured matches are those of the enabled externals, by position. */
  lemma CapturesTheExternals(ms: seq<Monitor>)
    requires CaptureLayout(ms).Ok?
    ensures var l := CaptureLayout(ms).value;
      && LeftToRight(l.enabled)
      && multiset(l.enabled) == multiset(WithDisabled(ms, false))
      && l.matchDescs == Descriptions(if Externals(l.enabled) == [] then l.enabled else Externals(l.enabled))
      && (forall m :: m in l.enabled <==> m in ms && !m.disabled)
      && (forall m :: m in l.disabled <==> m in ms && m.disabled)
  {
    var unsorted := WithDisabled(ms, false);
    SortOrders(unsorted);
    SortHas(unsorted);
    WithDisabledKeeps(ms, false);
    WithDisabledKeeps(ms, true);
    var enabled := SortByPosition(unsorted);
    assert forall m :: m in enabled <==> m in multiset(enabled);
  }
}
