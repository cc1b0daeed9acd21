/**
  A reference encoder for event lines, and the round trip with the parser:
  every command whose text fields the grammar can carry is written as one
  line that parses back to it, and every command the parser produces is of
  that kind.
 */
module WireFormat {
  import opened Wrappers
  import opened Text
  import opened Numbers
  import EventKind
  import opened CommandParser

  /** The payload of a command, in wire field order, numbers in canonical decimal. */
  function Payload(c: Command): string {
    match c
    case Workspace(id) => Decimal(id)
    case ActiveWindow(title, windowClass) => windowClass + Comma + title
    case CreateWorkspace(id) => Decimal(id)
    case DestroyWorkspace(id) => Decimal(id)
    case FocusedMon(monitor, workspace) => monitor + Comma + Decimal(workspace)
    case FullScreen(enabled) => if enabled then "1" else "0"
    case MonitorAdded(name) => name
    case MonitorRemoved(name) => name
    case MoveWorkspace(workspace, monitor) => Decimal(workspace) + Comma + monitor
    case OpenWindow(address, windowClass, title, workspace) =>
      address + Comma + Decimal(workspace) + Comma + windowClass + Comma + title
    case CloseWindow(address) => address
    case MoveWindow(address, workspace) => address + Comma + Decimal(workspace)
    case OpenLayer(layer) => layer
    case CloseLayer(layer) => layer
    case SubMap(name) => name
  }

  /** The event line of a command, without the trailing newline. */
  function Format(c: Command): string {
    Keyword(c) + Separator + Payload(c)
  }

  /** The grammar can carry the command: no field that a later comma split
      ends holds a comma, and the last text field, which trimming the line
      would shorten, does not end in whitespace. */
  ghost predicate Encodable(c: Command) {
    match c
    case ActiveWindow(title, windowClass) => ',' !in windowClass && EndsClean(title)
    case FocusedMon(monitor, _) => ',' !in monitor
    case MonitorAdded(name) => EndsClean(name)
    case MonitorRemoved(name) => EndsClean(name)
    case MoveWorkspace(_, monitor) => EndsClean(monitor)
    case OpenWindow(address, windowClass, title, _) => ',' !in address && ',' !in windowClass && EndsClean(title)
    case CloseWindow(address) => EndsClean(address)
    case MoveWindow(address, _) => ',' !in address
    case OpenLayer(layer) => EndsClean(layer)
    case CloseLayer(layer) => EndsClean(layer)
    case SubMap(name) => EndsClean(name)
    case _ => true
  }

  lemma EndsCleanAppend(a: string, b: string)
    requires EndsClean(b) && (b != [] || EndsClean(a))
    ensures EndsClean(a + b)
  {
    if b == [] {
      assert a + b == a;
    }
  }

  lemma EndsCleanSuffix(a: string, b: string)
    requires EndsClean(a + b)
    ensures EndsClean(b)
  {
    if b != [] {
      assert (a + b)[|a + b| - 1] == b[|b| - 1];
    }
  }

  lemma DecimalEndsClean(n: nat)
    ensures EndsClean(Decimal(n))
  {
    var d := Decimal(n);
    assert IsDigit(d[|d| - 1]);
  }

  lemma PayloadEndsClean(c: Command)
    requires Encodable(c)
    ensures EndsClean(Payload(c))
  {
    match c
    case Workspace(id) => DecimalEndsClean(id);
    case CreateWorkspace(id) => DecimalEndsClean(id);
    case DestroyWorkspace(id) => DecimalEndsClean(id);
    case ActiveWindow(title, windowClass) => EndsCleanAppend(windowClass + Comma, title);
    case FocusedMon(monitor, workspace) =>
      DecimalEndsClean(workspace);
      EndsCleanAppend(monitor + Comma, Decimal(workspace));
    case MoveWorkspace(workspace, monitor) => EndsCleanAppend(Decimal(workspace) + Comma, monitor);
    case OpenWindow(address, windowClass, title, workspace) =>
      EndsCleanAppend(address + Comma + Decimal(workspace) + Comma + windowClass + Comma, title);
    case MoveWindow(address, workspace) =>
      DecimalEndsClean(workspace);
      EndsCleanAppend(address + Comma, Decimal(workspace));
    case FullScreen(_) =>
    case MonitorAdded(_) =>
    case MonitorRemoved(_) =>
    case CloseWindow(_) =>
    case OpenLayer(_) =>
    case CloseLayer(_) =>
    case SubMap(_) =>
  }

  lemma IdPayloadRoundTrip(c: Command)
    requires c.Workspace? || c.CreateWorkspace? || c.DestroyWorkspace?
    ensures ParsePayload(KindOf(c), Payload(c)) == Ok(c)
  {
    ParseUsizeDecimal(c.id);
  }

  lemma FullScreenPayloadRoundTrip(enabled: bool)
    ensures ParsePayload(EventKind.FullScreen, Payload(FullScreen(enabled))) == Ok(FullScreen(enabled))
  {
    assert ParseI32("0") == Some(0) && ParseI32("1") == Some(1);
  }

  lemma VerbatimPayloadRoundTrip(c: Command)
    requires || c.MonitorAdded? || c.MonitorRemoved? || c.CloseWindow?
             || c.OpenLayer? || c.CloseLayer? || c.SubMap?
    ensures ParsePayload(KindOf(c), Payload(c)) == Ok(c)
  {
    VerbatimEvents(Payload(c));
  }

  lemma ActiveWindowPayloadRoundTrip(c: Command)
    requires c.ActiveWindow? && Encodable(c)
    ensures ParsePayload(EventKind.ActiveWindow, Payload(c)) == Ok(c)
  {
    ActiveWindowEvent(Payload(c), c);
  }

  lemma FocusedMonPayloadRoundTrip(c: Command)
    requires c.FocusedMon? && Encodable(c)
    ensures ParsePayload(EventKind.FocusedMon, Payload(c)) == Ok(c)
  {
    ParseUsizeDecimal(c.workspace);
    FocusedMonEvent(c.monitor, Decimal(c.workspace));
  }

  lemma MoveWorkspacePayloadRoundTrip(c: Command)
    requires c.MoveWorkspace? && Encodable(c)
    ensures ParsePayload(EventKind.MoveWorkspace, Payload(c)) == Ok(c)
  {
    ParseUsizeDecimal(c.workspace);
    MoveWorkspaceEvent(Decimal(c.workspace), c.monitor);
  }

  lemma MoveWindowPayloadRoundTrip(c: Command)
    requires c.MoveWindow? && Encodable(c)
    ensures ParsePayload(EventKind.MoveWindow, Payload(c)) == Ok(c)
  {
    ParseUsizeDecimal(c.workspace);
    MoveWindowEvent(c.address, Decimal(c.workspace));
  }

  lemma OpenWindowPayloadRoundTrip(c: Command)
    requires c.OpenWindow? && Encodable(c)
    ensures ParsePayload(EventKind.OpenWindow, Payload(c)) == Ok(c)
  {
    var w := Decimal(c.workspace);
    ParseUsizeDecimal(c.workspace);
    assert ',' !in w by {
      assert AllDigits(w);
    }
    OpenWindowEvent(c.address, w, c.windowClass, c.title);
  }

  /** Each kind's payload grammar reads back the payload written for it. */
  lemma ParsePayloadOfPayload(c: Command)
    requires Encodable(c)
    ensures ParsePayload(KindOf(c), Payload(c)) == Ok(c)
  {
    if c.Workspace? || c.CreateWorkspace? || c.DestroyWorkspace? {
      IdPayloadRoundTrip(c);
    } else if c.FullScreen? {
      FullScreenPayloadRoundTrip(c.enabled);
    } else if c.OpenWindow? {
      OpenWindowPayloadRoundTrip(c);
    } else if c.ActiveWindow? {
      ActiveWindowPayloadRoundTrip(c);
    } else if c.FocusedMon? {
      FocusedMonPayloadRoundTrip(c);
    } else if c.MoveWorkspace? {
      MoveWorkspacePayloadRoundTrip(c);
    } else if c.MoveWindow? {
      MoveWindowPayloadRoundTrip(c);
    } else {
      VerbatimPayloadRoundTrip(c);
    }
  }

  /** Round trip: the line written for a command parses back to that command. */
  lemma ParseFormat(c: Command)
    requires Encodable(c)
    ensures Parse(Format(c)) == Ok(c)
  {
    PayloadEndsClean(c);
    ParseLine(Keyword(c), Payload(c));
    ParseEventDispatch(KindOf(c), Payload(c));
    ParsePayloadOfPayload(c);
  }

  /** What a kind's payload grammar produces from a payload that does not end
      in whitespace is encodable. */
  lemma ParsedPayloadEncodable(payload: string, c: Command)
    requires ParsePayload(KindOf(c), payload) == Ok(c)
    requires EndsClean(payload)
    ensures Encodable(c)
  {
    match c
    case ActiveWindow(title, windowClass) =>
      ActiveWindowEvent(payload, c);
      EndsCleanSuffix(windowClass + Comma, title);
    case FocusedMon(_, _) => FocusedMonParsed(payload, c);
    case MoveWorkspace(workspace, monitor) =>
      MoveWorkspaceParsed(payload, c);
      var w :| ParseUsize(w) == Some(c.workspace) && ',' !in w && payload == w + Comma + c.monitor;
      EndsCleanSuffix(w + Comma, monitor);
    case OpenWindow(address, windowClass, title, workspace) =>
      OpenWindowParsed(payload, c);
      var w :| && ParseUsize(w) == Some(c.workspace) && ',' !in w
               && payload == c.address + Comma + w + Comma + c.windowClass + Comma + c.title;
      EndsCleanSuffix(address + Comma + w + Comma + windowClass + Comma, title);
    case MoveWindow(_, _) => MoveWindowParsed(payload, c);
    case MonitorAdded(_) => VerbatimEvents(payload);
    case MonitorRemoved(_) => VerbatimEvents(payload);
    case CloseWindow(_) => VerbatimEvents(payload);
    case OpenLayer(_) => VerbatimEvents(payload);
    case CloseLayer(_) => VerbatimEvents(payload);
    case SubMap(_) => VerbatimEvents(payload);
    case Workspace(_) =>
    case CreateWorkspace(_) =>
    case DestroyWorkspace(_) =>
    case FullScreen(_) =>
  }

  /** Everything the parser produces is encodable. */
  lemma ParsedEncodable(line: string, c: Command)
    requires Parse(line) == Ok(c)
    ensures Encodable(c)
  {
    var t := Trim(line);
    SplitOnceSpec(t, Separator);
    var (kind, payload) := SplitOnce(t, Separator).value;
    assert ParseEvent(kind, payload) == Ok(c);
    EndsCleanSuffix(kind + Separator, payload);
    ParseEventKeyword(kind, payload);
    ParseEventDispatch(KindOf(c), payload);
    ParsedPayloadEncodable(payload, c);
  }

  /** So every parsed line has a canonical form that parses to the same command. */
  lemma FormatCanonical(line: string, c: Command)
    requires Parse(line) == Ok(c)
    ensures Parse(Format(c)) == Ok(c)
  {
    ParsedEncodable(line, c);
    ParseFormat(c);
  }

  /** Distinct encodable commands are written as distinct lines. */
  lemma FormatInjective(c: Command, d: Command)
    requires Encodable(c) && Encodable(d)
    requires Format(c) == Format(d)
    ensures c == d
  {
    ParseFormat(c);
    ParseFormat(d);
  }
}
