/** The directive header of a monitor profile: one line, and a whole profile. */
module Directives {
  import opened Prelude
  import opened Text

  datatype Format = Conf | Lua

  datatype EdpPolicy = EdpAuto | EdpEnable | EdpDisable

  datatype GpuPref = GpuAuto | GpuIgpu | GpuDgpu

  datatype Profile = Profile(
    name: string,
    format: Format,
    matches: seq<string>,
    edp: EdpPolicy,
    gpu: GpuPref,
    hooks: seq<string>,
    priority: int)

  datatype Warning = MalformedDirective(line: string) | UnknownDirective(key: string)

  datatype ParseError = NoMatches | BadEdp(val: string) | BadGpu(val: string) | BadPriority(val: string)

  predicate IsLower(c: char) {
    'a' <= c <= 'z'
  }

  predicate KeyOk(key: string, allowHyphen: bool) {
    forall i | 0 <= i < |key| :: IsLower(key[i]) || (allowHyphen && i > 0 && key[i] == '-')
  }

  function AfterLeader(line: string): Option<string> {
    match StripPrefix(line, "#@")
    case Some(rest) => Some(rest)
    case None => StripPrefix(line, "--@")
  }

  /** `key = value` after either leader. */
  function ParseDirective(line: string, allowHyphen: bool): Option<(string, string)> {
    match AfterLeader(line)
    case None => None
    case Some(afterLeader) =>
      var rest := TrimStart(afterLeader);
      match Find(rest, '=')
      case None => None
      case Some(eq) =>
        var key, val := TrimEnd(rest[..eq]), Trim(rest[eq + 1..]);
        if key == [] || val == [] || !KeyOk(key, allowHyphen) then None else Some((key, val))
  }

  function EdpWord(p: EdpPolicy): string {
    match p case EdpAuto => "auto" case EdpEnable => "enable" case EdpDisable => "disable"
  }

  function GpuWord(p: GpuPref): string {
    match p case GpuAuto => "auto" case GpuIgpu => "igpu" case GpuDgpu => "dgpu"
  }

  function ParseEdp(val: string): Option<EdpPolicy> {
    if val == "auto" then Some(EdpAuto)
    else if val == "enable" then Some(EdpEnable)
    else if val == "disable" then Some(EdpDisable)
    else None
  }

  function ParseGpu(val: string): Option<GpuPref> {
    if val == "auto" then Some(GpuAuto)
    else if val == "igpu" then Some(GpuIgpu)
    else if val == "dgpu" then Some(GpuDgpu)
    else None
  }

  /** What the header has said so far. */
  datatype Header = Header(
    matches: seq<string>,
    hooks: seq<string>,
    edp: EdpPolicy,
    gpu: GpuPref,
    priority: Option<int>,
    warnings: seq<Warning>)

  const EMPTY: Header := Header([], [], EdpAuto, GpuAuto, None, [])

  predicate IsDirective(line: string) {
    "#@" <= line || "--@" <= line
  }

  /** A blank or plain comment line leaves the header open. */
  predicate IsFiller(line: string) {
    var t := TrimStart(line);
    t == [] || "#" <= t || "--" <= t
  }

  datatype Outcome = Goes(h: Header) | BodyBegins | Fails(error: ParseError)

  function Directive(h: Header, key: string, val: string): Outcome {
    if key == "match" then Goes(h.(matches := h.matches + [val]))
    else if key == "hook" then Goes(h.(hooks := h.hooks + [val]))
    else if key == "edp" then
      match ParseEdp(val) case Some(p) => Goes(h.(edp := p)) case None => Fails(BadEdp(val))
    else if key == "gpu" then
      match ParseGpu(val) case Some(p) => Goes(h.(gpu := p)) case None => Fails(BadGpu(val))
    else if key == "priority" then
      match ParseI64(val) case Some(n) => Goes(h.(priority := Some(n))) case None => Fails(BadPriority(val))
    else Goes(h.(warnings := h.warnings + [UnknownDirective(key)]))
  }

  function Line(h: Header, line: string): Outcome {
    if !IsDirective(line) then
      if IsFiller(line) then Goes(h) else BodyBegins
    else
      match ParseDirective(line, false)
      case None => Goes(h.(warnings := h.warnings + [MalformedDirective(line)]))
      case Some(d) => Directive(h, d.0, d.1)
  }

  function Scan(h: Header, lines: seq<string>): Result<Header, ParseError>
    decreases |lines|
  {
    if lines == [] then Ok(h)
    else
      match Line(h, lines[0])
      case Goes(next) => Scan(next, lines[1..])
      case BodyBegins => Ok(h)
      case Fails(error) => Err(error)
  }

  function Finish(h: Header, name: string, format: Format): Result<(Profile, seq<Warning>), ParseError> {
    if h.matches == [] then Err(NoMatches)
    else Ok((Profile(name, format, h.matches, h.edp, h.gpu, h.hooks, h.priority.GetOr(|h.matches|)), h.warnings))
  }

  function Parsed(name: string, format: Format, text: string): Result<(Profile, seq<Warning>), ParseError> {
    match Scan(EMPTY, Lines(text))
    case Err(error) => Err(error)
    case Ok(h) => Finish(h, name, format)
  }

  /** The parser as it runs: one pass over the lines, stopping where the body begins. */
  method ParseProfile(name: string, format: Format, text: string)
    returns (r: Result<(Profile, seq<Warning>), ParseError>)
    ensures r == Parsed(name, format, text)
  {
    var lines := Lines(text);
    var h := EMPTY;
    var k := 0;
    while k < |lines|
      invariant 0 <= k <= |lines|
      invariant Scan(h, lines[k..]) == Scan(EMPTY, lines)
    {
      var line := lines[k];
      assert lines[k..][1..] == lines[k + 1..];
      match Line(h, line) {
        case BodyBegins =>
          return Finish(h, name, format);
        case Fails(error) =>
          return Err(error);
        case Goes(next) =>
          h := next;
      }
      k := k + 1;
    }
    return Finish(h, name, format);
  }
}
