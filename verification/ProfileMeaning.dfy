/** What a profile's header means: how a directive may be spelled, and what a whole file says, whatever the
    order of its lines. */
module ProfileMeaning {
  import opened Prelude
  import opened Text
  import opened Directives

  // ---- one directive ----

  predicate White(s: string) {
    forall k | 0 <= k < |s| :: IsWhite(s[k])
  }

  predicate KeyShape(key: string, hyphens: bool) {
    && key != []
    && forall k | 0 <= k < |key| :: 'a' <= key[k] <= 'z' || (hyphens && k > 0 && key[k] == '-')
  }

  /** The parts of a directive line: leader, key, equals sign and value, with white space anywhere between. */
  predicate Spells(line: string, lead: string, a: string, key: string, b: string, c: string, val: string, d: string,
                   hyphens: bool)
  {
    && (lead == "#@" || lead == "--@")
    && White(a) && White(b) && White(c) && White(d)
    && KeyShape(key, hyphens)
    && val != [] && !IsWhite(val[0]) && !IsWhite(val[|val| - 1])
    && line == lead + (a + (key + (b + ("=" + (c + (val + d))))))
  }

  ghost predicate IsSpelling(line: string, key: string, val: string, hyphens: bool) {
    exists lead, a, b, c, d :: Spells(line, lead, a, key, b, c, val, d, hyphens)
  }

  lemma {:induction false} TrimStartDrops(w: string, s: string)
    requires White(w) && (s == [] || !IsWhite(s[0]))
    ensures TrimStart(w + s) == s
  {
    if w == [] {
      assert w + s == s;
    } else {
      assert (w + s)[1..] == w[1..] + s;
      TrimStartDrops(w[1..], s);
    }
  }

  lemma {:induction false} TrimStartSplits(s: string) returns (w: string)
    ensures White(w) && s == w + TrimStart(s)
  {
    if s != [] && IsWhite(s[0]) {
      var rest := TrimStartSplits(s[1..]);
      w := [s[0]] + rest;
      assert s == [s[0]] + s[1..];
    } else {
      w := [];
    }
  }

  lemma {:induction false} TrimEndDrops(s: string, w: string)
    requires White(w) && (s == [] || !IsWhite(s[|s| - 1]))
    ensures TrimEnd(s + w) == s
  {
    if w == [] {
      assert s + w == s;
    } else {
      assert (s + w)[..|s + w| - 1] == s + w[..|w| - 1];
      TrimEndDrops(s, w[..|w| - 1]);
    }
  }

  lemma {:induction false} TrimEndSplits(s: string) returns (w: string)
    ensures White(w) && s == TrimEnd(s) + w
  {
    if s != [] && IsWhite(s[|s| - 1]) {
      var rest := TrimEndSplits(s[..|s| - 1]);
      w := rest + [s[|s| - 1]];
      assert s == s[..|s| - 1] + [s[|s| - 1]];
    } else {
      w := [];
    }
  }

  lemma LeaderIs(lead: string, rest: string)
    requires lead == "#@" || lead == "--@"
    ensures AfterLeader(lead + rest) == Some(rest)
  {
    var line := lead + rest;
    assert line[..|lead|] == lead && line[|lead|..] == rest && line[0] == lead[0];
  }

  lemma LeaderSplits(line: string) returns (lead: string)
    requires AfterLeader(line).Some?
    ensures (lead == "#@" || lead == "--@") && line == lead + AfterLeader(line).value
  {
    lead := if "#@" <= line then "#@" else "--@";
  }

  /** The text behind the leader, parsed. */
  function ParseRest(rest: string, hyphens: bool): Option<(string, string)> {
    match Find(rest, '=')
    case None => None
    case Some(eq) =>
      var key, val := TrimEnd(rest[..eq]), Trim(rest[eq + 1..]);
      if key == [] || val == [] || !KeyOk(key, hyphens) then None else Some((key, val))
  }

  lemma ParseIsParseRest(line: string, hyphens: bool)
    ensures ParseDirective(line, hyphens) ==
      if AfterLeader(line).None? then None else ParseRest(TrimStart(AfterLeader(line).value), hyphens)
  {
  }

  lemma KeysAreLetters(key: string, hyphens: bool)
    ensures key != [] && KeyOk(key, hyphens) <==> KeyShape(key, hyphens)
    ensures KeyShape(key, hyphens) ==> '=' !in key && !IsWhite(key[0]) && !IsWhite(key[|key| - 1])
  {
  }

  lemma RestReads(key: string, b: string, c: string, val: string, d: string, hyphens: bool)
    requires White(b) && White(c) && White(d) && KeyShape(key, hyphens)
    requires val != [] && !IsWhite(val[0]) && !IsWhite(val[|val| - 1])
    ensures ParseRest(key + (b + ("=" + (c + (val + d)))), hyphens) == Some((key, val))
  {
    hide TrimEnd, TrimStart, Find;
    KeysAreLetters(key, hyphens);
    var before, after := key + b, c + (val + d);
    var rest := key + (b + ("=" + after));
    assert '=' !in before;
    assert rest == before + ['='] + after;
    FindsFirst(before, '=', after);
    assert rest[..|before|] == before && rest[|before| + 1..] == after;
    TrimEndDrops(key, b);
    TrimStartDrops(c, val + d);
    TrimEndDrops(val, d);
  }

  lemma RestSplits(rest: string, key: string, val: string, hyphens: bool) returns (b: string, c: string, d: string)
    requires ParseRest(rest, hyphens) == Some((key, val))
    ensures White(b) && White(c) && White(d) && KeyShape(key, hyphens)
    ensures val != [] && !IsWhite(val[0]) && !IsWhite(val[|val| - 1])
    ensures rest == key + (b + ("=" + (c + (val + d))))
  {
    hide TrimEnd, TrimStart, Find, KeyOk, KeyShape, White;
    var eq := Find(rest, '=').value;
    KeysAreLetters(key, hyphens);
    b := TrimEndSplits(rest[..eq]);
    c := TrimStartSplits(rest[eq + 1..]);
    d := TrimEndSplits(TrimStart(rest[eq + 1..]));
    ValueInks(TrimStart(rest[eq + 1..]), val);
    SplitAround(rest, eq);
    Reassociate(key, b, "=" + rest[eq + 1..]);
  }

  lemma SplitAround(s: string, k: nat)
    requires k < |s| && s[k] == '='
    ensures s == s[..k] + ("=" + s[k + 1..])
  {
  }

  lemma Reassociate(a: string, b: string, c: string)
    ensures a + b + c == a + (b + c)
  {
  }

  lemma ValueInks(s: string, val: string)
    requires val == TrimEnd(s) && val != [] && (s == [] || !IsWhite(s[0]))
    ensures !IsWhite(val[0]) && !IsWhite(val[|val| - 1])
  {
  }

  /** A line parses as a key and a value exactly when it spells them, in either dialect. */
  lemma ParsesExactlyWhen(line: string, key: string, val: string, hyphens: bool)
    ensures ParseDirective(line, hyphens) == Some((key, val)) <==> IsSpelling(line, key, val, hyphens)
  {
    hide AfterLeader, TrimStart, ParseRest, White, KeyShape, ParseDirective;
    ParseIsParseRest(line, hyphens);
    if ParseDirective(line, hyphens) == Some((key, val)) {
      var lead := LeaderSplits(line);
      var a := TrimStartSplits(AfterLeader(line).value);
      var b, c, d := RestSplits(TrimStart(AfterLeader(line).value), key, val, hyphens);
      assert Spells(line, lead, a, key, b, c, val, d, hyphens);
    }
    if lead, a, b, c, d :| Spells(line, lead, a, key, b, c, val, d, hyphens) {
      var rest := key + (b + ("=" + (c + (val + d))));
      LeaderIs(lead, a + rest);
      KeysAreLetters(key, hyphens);
      assert rest[0] == key[0] by { KeyComesFirst(key, b + ("=" + (c + (val + d))), hyphens); }
      TrimStartDrops(a, rest);
      RestReads(key, b, c, val, d, hyphens);
    }
  }

  lemma KeyComesFirst(key: string, more: string, hyphens: bool)
    requires KeyShape(key, hyphens)
    ensures (key + more)[0] == key[0]
  {
  }

  // ---- the whole header ----

  /** A line that belongs to the header: a directive, a comment of either dialect, or a blank. */
  predicate OfHeader(line: string) {
    var t := TrimStart(line);
    "#@" <= line || "--@" <= line || t == [] || "#" <= t || "--" <= t
  }

  function Block(lines: seq<string>): seq<string> {
    if lines == [] || !OfHeader(lines[0]) then [] else [lines[0]] + Block(lines[1..])
  }

  /** The directives that are well formed, in order. */
  function Said(block: seq<string>): seq<(string, string)> {
    if block == [] then []
    else
      (match ParseDirective(block[0], false) case None => [] case Some(d) => [d]) + Said(block[1..])
  }

  function Values(said: seq<(string, string)>, key: string): seq<string> {
    if said == [] then [] else (if said[0].0 == key then [said[0].1] else []) + Values(said[1..], key)
  }

  function ErrorOf(key: string, val: string): Option<ParseError> {
    if key == "edp" && val != "auto" && val != "enable" && val != "disable" then Some(BadEdp(val))
    else if key == "gpu" && val != "auto" && val != "igpu" && val != "dgpu" then Some(BadGpu(val))
    else if key == "priority" && ParseI64(val).None? then Some(BadPriority(val))
    else None
  }

  function FirstError(said: seq<(string, string)>): Option<ParseError> {
    if said == [] then None
    else if ErrorOf(said[0].0, said[0].1).Some? then ErrorOf(said[0].0, said[0].1)
    else FirstError(said[1..])
  }

  function WarningsOf(block: seq<string>): seq<Warning> {
    if block == [] then []
    else
      (match ParseDirective(block[0], false)
       case None => if "#@" <= block[0] || "--@" <= block[0] then [MalformedDirective(block[0])] else []
       case Some(d) =>
         if d.0 == "match" || d.0 == "hook" || d.0 == "edp" || d.0 == "gpu" || d.0 == "priority" then []
         else [UnknownDirective(d.0)])
      + WarningsOf(block[1..])
  }

  /** The last word counts. */
  function EdpSaid(words: seq<string>, before: EdpPolicy): EdpPolicy {
    if words == [] then before
    else
      var word := words[|words| - 1];
      if word == "enable" then EdpEnable else if word == "disable" then EdpDisable else EdpAuto
  }

  function GpuSaid(words: seq<string>, before: GpuPref): GpuPref {
    if words == [] then before
    else
      var word := words[|words| - 1];
      if word == "igpu" then GpuIgpu else if word == "dgpu" then GpuDgpu else GpuAuto
  }

  function PrioritySaid(words: seq<string>, before: Option<int>): Option<int> {
    if words == [] then before else ParseI64(words[|words| - 1])
  }

  /** A header with a block of lines added. */
  function Extended(h: Header, block: seq<string>): Header {
    var said := Said(block);
    Header(h.matches + Values(said, "match"), h.hooks + Values(said, "hook"),
           EdpSaid(Values(said, "edp"), h.edp), GpuSaid(Values(said, "gpu"), h.gpu),
           PrioritySaid(Values(said, "priority"), h.priority), h.warnings + WarningsOf(block))
  }

  function Meaning(h: Header, block: seq<string>): Result<Header, ParseError> {
    match FirstError(Said(block))
    case Some(error) => Err(error)
    case None => Ok(Extended(h, block))
  }

  lemma OnlyLeadersParse(line: string)
    ensures ParseDirective(line, false).Some? ==> "#@" <= line || "--@" <= line
  {
    hide TrimStart, Find, TrimEnd;
  }

  /** What one line of the header does. */
  lemma LineMeans(h: Header, line: string)
    ensures if !OfHeader(line) then Line(h, line) == BodyBegins
            else match FirstError(Said([line]))
                 case Some(error) => Line(h, line) == Fails(error)
                 case None => Line(h, line) == Goes(Extended(h, [line]))
  {
    OnlyLeadersParse(line);
    hide TrimStart, ParseDirective, ParseI64;
    assert [line][1..] == [];
    var d := ParseDirective(line, false);
    if d.Some? {
      DirectiveMeans(h, line, d.value.0, d.value.1);
    } else {
      OnlyAWarning(h, line);
    }
  }

  lemma OnlyAWarning(h: Header, line: string)
    requires ParseDirective(line, false).None?
    ensures Said([line]) == [] && FirstError(Said([line])).None?
    ensures Extended(h, [line]) ==
      if "#@" <= line || "--@" <= line then h.(warnings := h.warnings + [MalformedDirective(line)]) else h
  {
    hide ParseDirective, ParseI64;
    assert [line][1..] == [];
    assert WarningsOf([line]) == if "#@" <= line || "--@" <= line then [MalformedDirective(line)] else [];
    assert h.matches + [] == h.matches && h.hooks + [] == h.hooks && h.warnings + [] == h.warnings;
  }

  /** A header with one directive added. */
  function With(h: Header, key: string, val: string): Header {
    Header(if key == "match" then h.matches + [val] else h.matches,
           if key == "hook" then h.hooks + [val] else h.hooks,
           if key == "edp" then EdpSaid([val], h.edp) else h.edp,
           if key == "gpu" then GpuSaid([val], h.gpu) else h.gpu,
           if key == "priority" then ParseI64(val) else h.priority,
           if key == "match" || key == "hook" || key == "edp" || key == "gpu" || key == "priority" then h.warnings
           else h.warnings + [UnknownDirective(key)])
  }

  lemma DirectiveMeans(h: Header, line: string, key: string, val: string)
    requires ParseDirective(line, false) == Some((key, val))
    ensures match FirstError(Said([line]))
            case Some(error) => Directive(h, key, val) == Fails(error)
            case None => Directive(h, key, val) == Goes(Extended(h, [line]))
  {
    hide Directive, Extended, Said, FirstError, With;
    OneDirectiveSaid(line, key, val);
    OneDirectiveExtends(h, line, key, val);
    DirectiveIsWith(h, key, val);
  }

  lemma OneDirectiveSaid(line: string, key: string, val: string)
    requires ParseDirective(line, false) == Some((key, val))
    ensures Said([line]) == [(key, val)] && FirstError(Said([line])) == ErrorOf(key, val)
    ensures WarningsOf([line]) ==
      if key == "match" || key == "hook" || key == "edp" || key == "gpu" || key == "priority" then []
      else [UnknownDirective(key)]
  {
    hide ParseDirective, ErrorOf;
    assert [line][1..] == [] && [(key, val)][1..] == [];
  }

  lemma OneValue(key: string, val: string, k: string)
    ensures Values([(key, val)], k) == if key == k then [val] else []
  {
    assert [(key, val)][1..] == [];
  }

  lemma OneDirectiveExtends(h: Header, line: string, key: string, val: string)
    requires ParseDirective(line, false) == Some((key, val))
    ensures Extended(h, [line]) == With(h, key, val)
  {
    hide ParseDirective, ParseI64, Said, Values, WarningsOf;
    OneDirectiveSaid(line, key, val);
    OneValue(key, val, "match");
    OneValue(key, val, "hook");
    OneValue(key, val, "edp");
    OneValue(key, val, "gpu");
    OneValue(key, val, "priority");
    assert h.matches + [] == h.matches && h.hooks + [] == h.hooks && h.warnings + [] == h.warnings;
  }

  lemma DirectiveIsWith(h: Header, key: string, val: string)
    ensures Directive(h, key, val) ==
      match ErrorOf(key, val) case Some(error) => Fails(error) case None => Goes(With(h, key, val))
  {
    hide ParseI64;
  }

  /** Taking a line first and the rest after comes to taking them together. */
  lemma MeaningsAdd(h: Header, line: string, rest: seq<string>)
    ensures Meaning(h, [line] + rest) ==
      match FirstError(Said([line]))
      case Some(error) => Err(error)
      case None => Meaning(Extended(h, [line]), rest)
  {
    hide ParseDirective, ParseI64, EdpSaid, GpuSaid, PrioritySaid, Said, Values, WarningsOf, FirstError;
    var block := [line] + rest;
    assert block[1..] == rest && [line][1..] == [];
    var first, more := Said([line]), Said(rest);
    SaidAdds(line, rest);
    WarningsAdd(line, rest);
    ValuesAdd(first, more, "match");
    ValuesAdd(first, more, "hook");
    ValuesAdd(first, more, "edp");
    ValuesAdd(first, more, "gpu");
    ValuesAdd(first, more, "priority");
    ErrorsAdd(first, more);
    LastWordsAdd(h, Values(first, "edp"), Values(more, "edp"), Values(first, "gpu"), Values(more, "gpu"),
                 Values(first, "priority"), Values(more, "priority"));
    assert h.matches + Values(first, "match") + Values(more, "match") == h.matches + Values(first + more, "match");
    assert h.hooks + Values(first, "hook") + Values(more, "hook") == h.hooks + Values(first + more, "hook");
    assert h.warnings + WarningsOf([line]) + WarningsOf(rest) == h.warnings + WarningsOf(block);
  }

  lemma SaidAdds(line: string, rest: seq<string>)
    ensures Said([line] + rest) == Said([line]) + Said(rest)
  {
    hide ParseDirective;
    assert ([line] + rest)[1..] == rest && [line][1..] == [];
    var own := match ParseDirective(line, false) case None => [] case Some(d) => [d];
    assert Said([line]) == own + Said([]) == own;
  }

  lemma WarningsAdd(line: string, rest: seq<string>)
    ensures WarningsOf([line] + rest) == WarningsOf([line]) + WarningsOf(rest)
  {
    hide ParseDirective;
    assert ([line] + rest)[1..] == rest && [line][1..] == [];
    assert WarningsOf([line]) + WarningsOf([]) == WarningsOf([line]);
  }

  lemma {:induction false} ValuesAdd(a: seq<(string, string)>, b: seq<(string, string)>, key: string)
    ensures Values(a + b, key) == Values(a, key) + Values(b, key)
  {
    if a == [] {
      assert a + b == b;
    } else {
      assert (a + b)[0] == a[0] && (a + b)[1..] == a[1..] + b;
      ValuesAdd(a[1..], b, key);
      var own := if a[0].0 == key then [a[0].1] else [];
      assert Values(a + b, key) == own + Values(a[1..] + b, key);
      Grouped(own, Values(a[1..], key), Values(b, key));
    }
  }

  lemma Grouped(a: seq<string>, b: seq<string>, c: seq<string>)
    ensures a + (b + c) == a + b + c
  {
  }

  lemma {:induction false} ErrorsAdd(a: seq<(string, string)>, b: seq<(string, string)>)
    ensures FirstError(a + b) == if FirstError(a).Some? then FirstError(a) else FirstError(b)
  {
    hide ErrorOf;
    if a == [] {
      assert a + b == b;
    } else {
      assert (a + b)[1..] == a[1..] + b;
      ErrorsAdd(a[1..], b);
    }
  }

  lemma LastWordsAdd(h: Header, e1: seq<string>, e2: seq<string>,
                     g1: seq<string>, g2: seq<string>, p1: seq<string>, p2: seq<string>)
    ensures EdpSaid(e1 + e2, h.edp) == EdpSaid(e2, EdpSaid(e1, h.edp))
    ensures GpuSaid(g1 + g2, h.gpu) == GpuSaid(g2, GpuSaid(g1, h.gpu))
    ensures PrioritySaid(p1 + p2, h.priority) == PrioritySaid(p2, PrioritySaid(p1, h.priority))
  {
    hide ParseI64;
    assert e2 == [] ==> e1 + e2 == e1;
    assert g2 == [] ==> g1 + g2 == g1;
    assert p2 == [] ==> p1 + p2 == p1;
  }

  lemma {:induction false} ScanMeans(h: Header, lines: seq<string>)
    ensures Scan(h, lines) == Meaning(h, Block(lines))
    decreases |lines|
  {
    hide Line, OfHeader, Meaning, Extended;
    if lines == [] {
      NothingSaid(h);
    } else {
      LineMeans(h, lines[0]);
      if OfHeader(lines[0]) {
        MeaningsAdd(h, lines[0], Block(lines[1..]));
        if FirstError(Said([lines[0]])).None? {
          ScanMeans(Extended(h, [lines[0]]), lines[1..]);
        }
      } else {
        NothingSaid(h);
      }
    }
  }

  lemma NothingSaid(h: Header)
    ensures Meaning(h, []) == Ok(h)
  {
    assert h.matches + [] == h.matches && h.hooks + [] == h.hooks && h.warnings + [] == h.warnings;
    assert Values([], "match") == [] && Values([], "hook") == [] && WarningsOf([]) == [];
  }

  /** A profile says what the well-formed directives of its header say, wherever they stand in it: matches
      and hooks in order, the last edp, gpu and priority; a bad word among them fails the whole profile, and
      so does a header without a match. */
  lemma ProfileMeans(name: string, format: Format, text: string)
    ensures var block := Block(Lines(text));
      var said := Said(block);
      var matches := Values(said, "match");
      Parsed(name, format, text) ==
        if FirstError(said).Some? then Err(FirstError(said).value)
        else if matches == [] then Err(NoMatches)
        else Ok((Profile(name, format, matches, EdpSaid(Values(said, "edp"), EdpAuto),
                         GpuSaid(Values(said, "gpu"), GpuAuto), Values(said, "hook"),
                         PrioritySaid(Values(said, "priority"), None).GetOr(|matches|)),
                 WarningsOf(block)))
  {
    hide Lines, Block, Said, Values, FirstError, WarningsOf, EdpSaid, GpuSaid, PrioritySaid, Scan;
    ScanMeans(EMPTY, Lines(text));
    var said := Said(Block(Lines(text)));
    assert [] + Values(said, "match") == Values(said, "match") && [] + Values(said, "hook") == Values(said, "hook");
    assert [] + WarningsOf(Block(Lines(text))) == WarningsOf(Block(Lines(text)));
  }
}
