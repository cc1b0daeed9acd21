/**
  The keywords that name an event kind on the wire, as a closed enumeration.
 */
module EventKind {
  import opened Wrappers

  datatype Kind =
    | Workspace | CreateWorkspace | DestroyWorkspace | ActiveWindow | FocusedMon
    | FullScreen | MonitorAdded | MonitorRemoved | MoveWorkspace | OpenWindow
    | CloseWindow | MoveWindow | OpenLayer | CloseLayer | SubMap

  /** The exact, lower-case keyword of a kind. */
  /** The keyword that introduces each kind of event: a lower-case word,
      so it neither starts with whitespace nor holds a `>`. */
  function Name(k: Kind): (r: string)
    ensures |r| > 0 && 'a' <= r[0] <= 'z' && '>' !in r
  {
    match k
    case Workspace => "workspace"
    case CreateWorkspace => "createworkspace"
    case DestroyWorkspace => "destroyworkspace"
    case ActiveWindow => "activewindow"
    case FocusedMon => "focusedmon"
    case FullScreen => "fullscreen"
    case MonitorAdded => "monitoradded"
    case MonitorRemoved => "monitorremoved"
    case MoveWorkspace => "moveworkspace"
    case OpenWindow => "openwindow"
    case CloseWindow => "closewindow"
    case MoveWindow => "movewindow"
    case OpenLayer => "openlayer"
    case CloseLayer => "closelayer"
    case SubMap => "submap"
  }

  /** Exact, case-sensitive keyword lookup. */
  function Lookup(s: string): Option<Kind> {
    match s
    case "workspace" => Some(Workspace)
    case "createworkspace" => Some(CreateWorkspace)
    case "destroyworkspace" => Some(DestroyWorkspace)
    case "activewindow" => Some(ActiveWindow)
    case "focusedmon" => Some(FocusedMon)
    case "fullscreen" => Some(FullScreen)
    case "monitoradded" => Some(MonitorAdded)
    case "monitorremoved" => Some(MonitorRemoved)
    case "moveworkspace" => Some(MoveWorkspace)
    case "openwindow" => Some(OpenWindow)
    case "closewindow" => Some(CloseWindow)
    case "movewindow" => Some(MoveWindow)
    case "openlayer" => Some(OpenLayer)
    case "closelayer" => Some(CloseLayer)
    case "submap" => Some(SubMap)
    case _ => None
  }

  /** `Lookup` recognises a string exactly when it is the name of a kind, and then names that kind. */
  lemma LookupName(s: string, k: Kind)
    ensures Lookup(s) == Some(k) <==> s == Name(k)
  {
  }

  const Keywords: set<string> := set k: Kind :: Name(k)

  lemma LookupKeywords(s: string)
    ensures Lookup(s).Some? <==> s in Keywords
  {
    if Lookup(s).Some? {
      LookupName(s, Lookup(s).value);
    }
    if s in Keywords {
      var k :| Name(k) == s;
      LookupName(s, k);
    }
  }
}

/**
  The socket2 event-line parser: one trimmed line `<kind>>><payload>`
  becomes one `Command` or `ParseFailed`.
 */
module CommandParser {
  import opened Wrappers
  import opened Text
  import opened Numbers
  import EventKind
  /** One event of the stream. `windowClass` is the window's `class` field. */
  datatype Command =
    | Workspace(id: Usize)
    | ActiveWindow(title: string, windowClass: string)
    | CreateWorkspace(id: Usize)
    | DestroyWorkspace(id: Usize)
    | FocusedMon(monitor: string, workspace: Usize)
    | FullScreen(enabled: bool)
    | MonitorAdded(name: string)
    | MonitorRemoved(name: string)
    | MoveWorkspace(workspace: Usize, monitor: string)
    | OpenWindow(address: string, windowClass: string, title: string, workspace: Usize)
    | CloseWindow(address: string)
    | MoveWindow(address: string, workspace: Usize)
    | OpenLayer(layer: string)
    | CloseLayer(layer: string)
    | SubMap(name: string)

  /** Every failure collapses to the one error value. */
  datatype Error = ParseFailed


  /** The kind a command is announced under on the wire. */
  function KindOf(c: Command): EventKind.Kind {
    match c
    case Workspace(_) => EventKind.Workspace
    case ActiveWindow(_, _) => EventKind.ActiveWindow
    case CreateWorkspace(_) => EventKind.CreateWorkspace
    case DestroyWorkspace(_) => EventKind.DestroyWorkspace
    case FocusedMon(_, _) => EventKind.FocusedMon
    case FullScreen(_) => EventKind.FullScreen
    case MonitorAdded(_) => EventKind.MonitorAdded
    case MonitorRemoved(_) => EventKind.MonitorRemoved
    case MoveWorkspace(_, _) => EventKind.MoveWorkspace
    case OpenWindow(_, _, _, _) => EventKind.OpenWindow
    case CloseWindow(_) => EventKind.CloseWindow
    case MoveWindow(_, _) => EventKind.MoveWindow
    case OpenLayer(_) => EventKind.OpenLayer
    case CloseLayer(_) => EventKind.CloseLayer
    case SubMap(_) => EventKind.SubMap
  }

  function Keyword(c: Command): string {
    EventKind.Name(KindOf(c))
  }

  const Comma: string := [',']
  const Separator: string := ">>"

  function ParseWorkspace(payload: string): (r: Result<Command, Error>)
    ensures r.Ok? ==> KindOf(r.value) == EventKind.Workspace
  {
    match ParseUsize(payload)
    case Some(id) => Ok(Workspace(id))
    case None => Err(ParseFailed)
  }

  function ParseCreateWorkspace(payload: string): (r: Result<Command, Error>)
    ensures r.Ok? ==> KindOf(r.value) == EventKind.CreateWorkspace
  {
    match ParseUsize(payload)
    case Some(id) => Ok(CreateWorkspace(id))
    case None => Err(ParseFailed)
  }

  function ParseDestroyWorkspace(payload: string): (r: Result<Command, Error>)
    ensures r.Ok? ==> KindOf(r.value) == EventKind.DestroyWorkspace
  {
    match ParseUsize(payload)
    case Some(id) => Ok(DestroyWorkspace(id))
    case None => Err(ParseFailed)
  }

  /** Class before the first comma, title after it. */
  function ParseActiveWindow(payload: string): (r: Result<Command, Error>)
    ensures r.Ok? ==> KindOf(r.value) == EventKind.ActiveWindow
  {
    match SplitOnce(payload, Comma)
    case Some((windowClass, title)) => Ok(ActiveWindow(title, windowClass))
    case None => Err(ParseFailed)
  }

  function ParseFocusedMon(payload: string): (r: Result<Command, Error>)
    ensures r.Ok? ==> KindOf(r.value) == EventKind.FocusedMon
  {
    match SplitOnce(payload, Comma)
    case None => Err(ParseFailed)
    case Some((monitor, workspace)) =>
      match ParseUsize(workspace)
      case Some(w) => Ok(FocusedMon(monitor, w))
      case None => Err(ParseFailed)
  }

  /** The fullscreen flag is parsed as an `i32`: only the values 0 and 1 are accepted. */
  function ParseFullScreen(payload: string): (r: Result<Command, Error>)
    ensures r == Ok(FullScreen(false)) <==> ParseI32(payload) == Some(0)
    ensures r == Ok(FullScreen(true)) <==> ParseI32(payload) == Some(1)
    ensures r.Ok? || r == Err(ParseFailed)
    ensures r.Ok? ==> KindOf(r.value) == EventKind.FullScreen
  {
    match ParseI32(payload)
    case Some(v) =>
      if v == 0 then Ok(FullScreen(false))
      else if v == 1 then Ok(FullScreen(true))
      else Err(ParseFailed)
    case None => Err(ParseFailed)
  }

  function ParseMoveWorkspace(payload: string): (r: Result<Command, Error>)
    ensures r.Ok? ==> KindOf(r.value) == EventKind.MoveWorkspace
  {
    match SplitOnce(payload, Comma)
    case None => Err(ParseFailed)
    case Some((workspace, monitor)) =>
      match ParseUsize(workspace)
      case Some(w) => Ok(MoveWorkspace(w, monitor))
      case None => Err(ParseFailed)
  }

  /** Three successive first-comma splits: address, workspace, class, title. */
  function ParseOpenWindow(payload: string): (r: Result<Command, Error>)
    ensures r.Ok? ==> KindOf(r.value) == EventKind.OpenWindow
  {
    match SplitOnce(payload, Comma)
    case None => Err(ParseFailed)
    case Some((address, remain)) =>
      match SplitOnce(remain, Comma)
      case None => Err(ParseFailed)
      case Some((workspace, remain')) =>
        match SplitOnce(remain', Comma)
        case None => Err(ParseFailed)
        case Some((windowClass, title)) =>
          match ParseUsize(workspace)
          case Some(w) => Ok(OpenWindow(address, windowClass, title, w))
          case None => Err(ParseFailed)
  }

  function ParseMoveWindow(payload: string): (r: Result<Command, Error>)
    ensures r.Ok? ==> KindOf(r.value) == EventKind.MoveWindow
  {
    match SplitOnce(payload, Comma)
    case None => Err(ParseFailed)
    case Some((address, workspace)) =>
      match ParseUsize(workspace)
      case Some(w) => Ok(MoveWindow(address, w))
      case None => Err(ParseFailed)
  }

  /** The per-kind payload grammar. */
  function ParsePayload(k: EventKind.Kind, payload: string): (r: Result<Command, Error>)
    ensures r.Ok? ==> KindOf(r.value) == k
  {
    match k
    case Workspace => ParseWorkspace(payload)
    case CreateWorkspace => ParseCreateWorkspace(payload)
    case DestroyWorkspace => ParseDestroyWorkspace(payload)
    case ActiveWindow => ParseActiveWindow(payload)
    case FocusedMon => ParseFocusedMon(payload)
    case FullScreen => ParseFullScreen(payload)
    case MonitorAdded => Ok(Command.MonitorAdded(payload))
    case MonitorRemoved => Ok(Command.MonitorRemoved(payload))
    case MoveWorkspace => ParseMoveWorkspace(payload)
    case OpenWindow => ParseOpenWindow(payload)
    case CloseWindow => Ok(Command.CloseWindow(payload))
    case MoveWindow => ParseMoveWindow(payload)
    case OpenLayer => Ok(Command.OpenLayer(payload))
    case CloseLayer => Ok(Command.CloseLayer(payload))
    case SubMap => Ok(Command.SubMap(payload))
  }

  /** The dispatch on the kind keyword, given the text on each side of the first `>>`.
      Only the fifteen exact keywords are recognised. */
  function ParseEvent(kind: string, payload: string): (r: Result<Command, Error>)
    ensures r.Ok? ==> EventKind.Lookup(kind) == Some(KindOf(r.value))
  {
    match EventKind.Lookup(kind)
    case None => Err(ParseFailed)
    case Some(k) => ParsePayload(k, payload)
  }

  /** `Command::from_str`: trim, split at the first `>>`, dispatch on the kind. */
  function Parse(line: string): Result<Command, Error> {
    match SplitOnce(Trim(line), Separator)
    case None => Err(ParseFailed)
    case Some((kind, payload)) =>
      ParseEvent(kind, payload)
  }

  // ---------------------------------------------------------------------
  // The line: trimming and the first `>>`

  /** A line whose trimmed text has no `>>` is rejected. */
  lemma ParseNoSeparator(line: string)
    requires !Contains(Trim(line), Separator)
    ensures Parse(line) == Err(ParseFailed)
  {
    SplitOnceSpec(Trim(line), Separator);
  }

  /** The kind is exactly the text before the first `>>` of the trimmed line,
      and the payload everything after it, untrimmed. */
  lemma ParseSplitsAtFirstSeparator(line: string, kind: string, payload: string)
    requires IsFirstSplit(Trim(line), Separator, kind, payload)
    ensures Parse(line) == ParseEvent(kind, payload)
  {
    SplitOnceUnique(Trim(line), Separator, kind, payload);
  }

  /** A kind free of `>` followed by `>>` splits right after the kind. */
  lemma SeparatorAfterKind(kind: string, payload: string)
    requires '>' !in kind
    ensures IsFirstSplit(kind + Separator + payload, Separator, kind, payload)
  {
    var s := kind + Separator + payload;
    forall i | 0 <= i < |kind|
      ensures !OccursAt(s, Separator, i)
    {
      assert s[i] == kind[i];
      if i + 2 <= |s| {
        assert s[i..i + 2][0] == s[i];
      }
    }
  }

  /** `kind>>payload` is read as that kind and that payload, when trimming
      leaves it alone and the kind holds no `>`. */
  lemma ParseLine(kind: string, payload: string)
    requires '>' !in kind
    requires kind == [] || !IsWhitespace(kind[0])
    requires EndsClean(payload)
    ensures Parse(kind + Separator + payload) == ParseEvent(kind, payload)
  {
    var line := kind + Separator + payload;
    assert line[|line| - 1] == (if payload == [] then '>' else payload[|payload| - 1]);
    assert IsTrimmed(line);
    TrimOfTrimmed(line);
    SeparatorAfterKind(kind, payload);
    ParseSplitsAtFirstSeparator(line, kind, payload);
  }

  /** Whitespace around a line does not change how it parses. */
  lemma ParseIgnoresSurroundingWhitespace(pre: string, line: string, post: string)
    requires AllWhitespace(pre) && AllWhitespace(post)
    ensures Parse(pre + line + post) == Parse(line)
  {
    TrimSurrounding(pre, line, post);
  }

  // ---------------------------------------------------------------------
  // The kind

  /** A command is only ever produced under its own keyword. */
  lemma ParseEventKeyword(kind: string, payload: string)
    requires ParseEvent(kind, payload).Ok?
    ensures kind == Keyword(ParseEvent(kind, payload).value)
  {
    EventKind.LookupName(kind, KindOf(ParseEvent(kind, payload).value));
  }

  /** Anything but the fifteen exact keywords is rejected, whatever the payload. */
  lemma ParseEventUnknownKind(kind: string, payload: string)
    requires kind !in EventKind.Keywords
    ensures ParseEvent(kind, payload) == Err(ParseFailed)
  {
    EventKind.LookupKeywords(kind);
  }

  /** Keywords are lower-case, so a kind that does not start with a lower-case
      letter, the empty kind included, is rejected. */
  lemma ParseEventNotLowerCase(kind: string, payload: string)
    requires kind == [] || !('a' <= kind[0] <= 'z')
    ensures ParseEvent(kind, payload) == Err(ParseFailed)
  {
    if ParseEvent(kind, payload).Ok? {
      ParseEventKeyword(kind, payload);
    }
  }

  /** The keyword of a kind selects that kind's payload grammar. */
  lemma ParseEventDispatch(k: EventKind.Kind, payload: string)
    ensures ParseEvent(EventKind.Name(k), payload) == ParsePayload(k, payload)
  {
    EventKind.LookupName(EventKind.Name(k), k);
  }

  // ---------------------------------------------------------------------
  // The payload, kind by kind

  /** The three workspace events succeed exactly when the whole payload is a `usize`. */
  lemma IdEvents(payload: string, n: Usize)
    ensures ParseWorkspace(payload) == Ok(Workspace(n)) <==> UsizeText(payload, n)
    ensures ParseCreateWorkspace(payload) == Ok(CreateWorkspace(n)) <==> UsizeText(payload, n)
    ensures ParseDestroyWorkspace(payload) == Ok(DestroyWorkspace(n)) <==> UsizeText(payload, n)
    ensures ParseWorkspace(payload).Err? <==> ParseUsize(payload).None?
    ensures ParseCreateWorkspace(payload).Err? <==> ParseUsize(payload).None?
    ensures ParseDestroyWorkspace(payload).Err? <==> ParseUsize(payload).None?
  {
    ParseUsizeIff(payload, n);
  }

  /** `s` spells the integer `v` as an `i32` would: an optional sign that agrees
      with `v` (`-0` included), then `|v|` in decimal with any leading zeros. */
  ghost predicate FlagText(s: string, v: nat) {
    || PaddedDecimal(s, v)
    || (|s| > 0 && s[0] == '+' && PaddedDecimal(s[1..], v))
    || (v == 0 && |s| > 0 && s[0] == '-' && PaddedDecimal(s[1..], 0))
  }

  /** `fullscreen`: exactly the spellings of 1 turn it on and of 0 turn it off;
      everything else fails. */
  lemma FullScreenEvent(payload: string, enabled: bool)
    ensures ParseFullScreen(payload) == Ok(FullScreen(enabled)) <==> FlagText(payload, if enabled then 1 else 0)
    ensures ParseFullScreen(payload).Err? <==> !FlagText(payload, 0) && !FlagText(payload, 1)
  {
    ParseI32Iff(payload, 0);
    ParseI32Iff(payload, 1);
  }

  /** These kinds always succeed and carry the payload verbatim, commas, `>>` and all. */
  lemma VerbatimEvents(payload: string)
    ensures ParsePayload(EventKind.MonitorAdded, payload) == Ok(MonitorAdded(payload))
    ensures ParsePayload(EventKind.MonitorRemoved, payload) == Ok(MonitorRemoved(payload))
    ensures ParsePayload(EventKind.CloseWindow, payload) == Ok(CloseWindow(payload))
    ensures ParsePayload(EventKind.OpenLayer, payload) == Ok(OpenLayer(payload))
    ensures ParsePayload(EventKind.CloseLayer, payload) == Ok(CloseLayer(payload))
    ensures ParsePayload(EventKind.SubMap, payload) == Ok(SubMap(payload))
  {
  }

  /** The five comma-separated kinds reject a payload without a comma. */
  lemma NoCommaFails(payload: string)
    requires ',' !in payload
    ensures ParseActiveWindow(payload) == Err(ParseFailed)
    ensures ParseFocusedMon(payload) == Err(ParseFailed)
    ensures ParseMoveWorkspace(payload) == Err(ParseFailed)
    ensures ParseOpenWindow(payload) == Err(ParseFailed)
    ensures ParseMoveWindow(payload) == Err(ParseFailed)
  {
    CharSplitNone(payload, ',');
  }

  /** `activewindow`: class before the first comma, title after it, in that wire order. */
  lemma ActiveWindowEvent(payload: string, c: Command)
    ensures ParseActiveWindow(payload) == Ok(c) <==>
              && c.ActiveWindow?
              && payload == c.windowClass + Comma + c.title
              && ',' !in c.windowClass
  {
    SplitOnceSpec(payload, Comma);
    if c.ActiveWindow? && payload == c.windowClass + Comma + c.title && ',' !in c.windowClass {
      CharSplit(payload, ',', c.windowClass, c.title);
      SplitOnceUnique(payload, Comma, c.windowClass, c.title);
    }
    if ParseActiveWindow(payload) == Ok(c) {
      var split := SplitOnce(payload, Comma).value;
      CharSplit(payload, ',', split.0, split.1);
    }
  }

  /** `focusedmon`: the monitor, then a comma, then the workspace as a `usize`. */
  lemma FocusedMonEvent(monitor: string, rest: string)
    requires ',' !in monitor
    ensures ParseFocusedMon(monitor + Comma + rest).Ok? <==> ParseUsize(rest).Some?
    ensures ParseUsize(rest).Some? ==>
              ParseFocusedMon(monitor + Comma + rest) == Ok(FocusedMon(monitor, ParseUsize(rest).value))
  {
    CharSplit(monitor + Comma + rest, ',', monitor, rest);
    SplitOnceUnique(monitor + Comma + rest, Comma, monitor, rest);
  }

  lemma FocusedMonParsed(payload: string, c: Command)
    requires ParseFocusedMon(payload) == Ok(c)
    ensures c.FocusedMon? && ',' !in c.monitor
    ensures exists w :: ParseUsize(w) == Some(c.workspace) && payload == c.monitor + Comma + w
  {
    SplitOnceSpec(payload, Comma);
    var split := SplitOnce(payload, Comma).value;
    CharSplit(payload, ',', split.0, split.1);
    assert ParseUsize(split.1) == Some(c.workspace);
  }

  /** `moveworkspace`: the workspace first, then the monitor (the reverse of `focusedmon`). */
  lemma MoveWorkspaceEvent(workspace: string, monitor: string)
    requires ',' !in workspace
    ensures ParseMoveWorkspace(workspace + Comma + monitor).Ok? <==> ParseUsize(workspace).Some?
    ensures ParseUsize(workspace).Some? ==>
              ParseMoveWorkspace(workspace + Comma + monitor) == Ok(MoveWorkspace(ParseUsize(workspace).value, monitor))
  {
    CharSplit(workspace + Comma + monitor, ',', workspace, monitor);
    SplitOnceUnique(workspace + Comma + monitor, Comma, workspace, monitor);
  }

  lemma MoveWorkspaceParsed(payload: string, c: Command)
    requires ParseMoveWorkspace(payload) == Ok(c)
    ensures c.MoveWorkspace?
    ensures exists w :: ParseUsize(w) == Some(c.workspace) && ',' !in w && payload == w + Comma + c.monitor
  {
    SplitOnceSpec(payload, Comma);
    var split := SplitOnce(payload, Comma).value;
    CharSplit(payload, ',', split.0, split.1);
    assert ParseUsize(split.0) == Some(c.workspace);
  }

  /** `movewindow`: the address, then a comma, then the workspace as a `usize`. */
  lemma MoveWindowEvent(address: string, rest: string)
    requires ',' !in address
    ensures ParseMoveWindow(address + Comma + rest).Ok? <==> ParseUsize(rest).Some?
    ensures ParseUsize(rest).Some? ==>
              ParseMoveWindow(address + Comma + rest) == Ok(MoveWindow(address, ParseUsize(rest).value))
  {
    CharSplit(address + Comma + rest, ',', address, rest);
    SplitOnceUnique(address + Comma + rest, Comma, address, rest);
  }

  lemma MoveWindowParsed(payload: string, c: Command)
    requires ParseMoveWindow(payload) == Ok(c)
    ensures c.MoveWindow? && ',' !in c.address
    ensures exists w :: ParseUsize(w) == Some(c.workspace) && payload == c.address + Comma + w
  {
    SplitOnceSpec(payload, Comma);
    var split := SplitOnce(payload, Comma).value;
    CharSplit(payload, ',', split.0, split.1);
    assert ParseUsize(split.1) == Some(c.workspace);
  }

  /** `openwindow`: address, workspace, class, then the title with any further commas. */
  lemma OpenWindowEvent(address: string, workspace: string, windowClass: string, title: string)
    requires ',' !in address && ',' !in workspace && ',' !in windowClass
    ensures var payload := address + Comma + workspace + Comma + windowClass + Comma + title;
            && (ParseOpenWindow(payload).Ok? <==> ParseUsize(workspace).Some?)
            && (ParseUsize(workspace).Some? ==>
                  ParseOpenWindow(payload) == Ok(OpenWindow(address, windowClass, title, ParseUsize(workspace).value)))
  {
    var third := windowClass + Comma + title;
    var second := workspace + Comma + third;
    var payload := address + Comma + second;
    assert payload == address + Comma + workspace + Comma + windowClass + Comma + title;
    CharSplit(payload, ',', address, second);
    SplitOnceUnique(payload, Comma, address, second);
    CharSplit(second, ',', workspace, third);
    SplitOnceUnique(second, Comma, workspace, third);
    CharSplit(third, ',', windowClass, title);
    SplitOnceUnique(third, Comma, windowClass, title);
  }

  lemma OpenWindowParsed(payload: string, c: Command)
    requires ParseOpenWindow(payload) == Ok(c)
    ensures c.OpenWindow? && ',' !in c.address && ',' !in c.windowClass
    ensures exists w :: && ParseUsize(w) == Some(c.workspace) && ',' !in w
                        && payload == c.address + Comma + w + Comma + c.windowClass + Comma + c.title
  {
    CharSplitOnce(payload, ',');
    var (address, remain) := SplitOnce(payload, Comma).value;
    CharSplitOnce(remain, ',');
    var (workspace, remain') := SplitOnce(remain, Comma).value;
    CharSplitOnce(remain', ',');
    var (windowClass, title) := SplitOnce(remain', Comma).value;
    assert c == OpenWindow(address, windowClass, title, ParseUsize(workspace).value);
    JoinFields(payload, address, remain, workspace, remain', windowClass, title);
    assert ParseUsize(workspace) == Some(c.workspace) && ',' !in workspace;
  }

  lemma JoinFields(payload: string, a: string, r: string, b: string, r': string, c: string, d: string)
    requires payload == a + Comma + r && r == b + Comma + r' && r' == c + Comma + d
    ensures payload == a + Comma + b + Comma + c + Comma + d
  {
    assert r == b + Comma + (c + Comma + d);
    assert payload == a + Comma + (b + Comma + (c + Comma + d));
  }

  /** `openwindow` needs at least three commas. */
  lemma OpenWindowTooFewCommas(payload: string)
    requires multiset(payload)[','] < 3
    ensures ParseOpenWindow(payload) == Err(ParseFailed)
  {
    if ParseOpenWindow(payload).Ok? {
      OpenWindowParsed(payload, ParseOpenWindow(payload).value);
    }
  }
}
