# blaze-line event parser, modelled in Dafny

blaze-line listens on Hyprland's `socket2` IPC stream. Each line on that
stream is one event of the form `<kind>>><payload>`. `Command::from_str` in
`src/command.rs` turns such a line into one of fifteen `Command` variants,
or into the single error `Error::ParseFailed`. This project models that
parser and proves what it accepts and what it produces.

Module layout:

- `Wrappers` (`wrappers.dfy`) holds `Option` and `Result`.
- `Text` (`text.dfy`) models `str::trim` with Unicode `White_Space`.
  It also models `str::split_once`, which splits at the first occurrence.
  Each comes with a characterisation: `Trim` is the unique trimmed slice
  with whitespace-only margins, and `SplitOnce` splits at the leftmost
  occurrence and fails only when there is none.
- `Numbers` (`numbers.dfy`) models `str::parse::<usize>` and
  `str::parse::<i32>`. Both are characterised textually: an optional sign,
  then a zero-padded decimal. `Decimal` is a canonical decimal encoder with
  the round trip proved.
- `EventKind` and `CommandParser` (`command.dfy`) hold the following:
  - the `Command` and `Error` datatypes;
  - the fifteen keywords;
  - one function per payload grammar;
  - `Parse`, which trims, splits at the first `>>` and dispatches on the kind;
  - one lemma per branch stating exactly when that branch succeeds and with
    which fields.
- `WireFormat` (`wire_format.dfy`) is an independent reference encoder,
  `Format`. It comes with two proofs:
  - `Parse(Format(c)) == Ok(c)` for every command the grammar can carry;
  - every command `Parse` returns is such a command.
- `Scenarios` (`scenarios.dfy`) gives concrete lines and payloads with
  their results: documented examples, number spellings and near misses.

The Rust field name `class` is a Dafny keyword, so it is called
`windowClass` here. The wire order is class before title for
`activewindow`, and the model keeps that order. Where the documented
protocol says the fullscreen flag is the literal `0` or `1`, the code
parses an `i32` and matches the values 0 and 1. So it also accepts `+1`,
`00` and `-0`. The model follows the code.

## Model

| member | source | states |
|---|---|---|
| EventKind.Name | src/command.rs:53-155 | every keyword is non-empty, starts with a lower-case letter and contains no `>` |
| EventKind.LookupName | src/command.rs:53-155 | the keyword match recognises a string exactly when it is a kind's keyword, and then yields that kind (case-sensitive, no prefixes) |
| EventKind.LookupKeywords | src/command.rs:53-155 | the match succeeds exactly on the set of fifteen keywords |
| CommandParser.ParseEvent | src/command.rs:53-155 | a successful result is a command of the kind the keyword names |
| CommandParser.ParsePayload | src/command.rs:53-151 | each kind's grammar only produces commands of that kind |
| CommandParser.ParseNoSeparator | src/command.rs:157-159 | a line whose trimmed text contains no `>>` is rejected |
| CommandParser.ParseSplitsAtFirstSeparator | src/command.rs:52 | the kind is exactly the text before the first `>>` of the trimmed line, and the payload is everything after it, untrimmed |
| CommandParser.SeparatorAfterKind | src/command.rs:52 | for a kind without `>`, the first `>>` in `kind>>payload` is the one right after the kind |
| CommandParser.ParseLine | src/command.rs:52 | `kind>>payload` is parsed as that kind and payload when trimming leaves it intact |
| CommandParser.ParseIgnoresSurroundingWhitespace | src/command.rs:52 | whitespace added around a line never changes the result |
| CommandParser.ParseEventKeyword | src/command.rs:53-155 | a command is only produced under its own keyword |
| CommandParser.ParseEventUnknownKind | src/command.rs:152-155 | any kind outside the fifteen keywords is rejected, whatever the payload |
| CommandParser.ParseEventNotLowerCase | src/command.rs:152-155 | an empty kind, or one that does not start with a lower-case letter (e.g. `Workspace`), is rejected |
| CommandParser.ParseEventDispatch | src/command.rs:53-155 | a kind's keyword selects exactly that kind's payload grammar |
| CommandParser.ParseWorkspace | src/command.rs:54-61 | a successful result is a `Workspace` command (full relation in `IdEvents`) |
| CommandParser.ParseCreateWorkspace | src/command.rs:62-69 | a successful result is a `CreateWorkspace` command (full relation in `IdEvents`) |
| CommandParser.ParseDestroyWorkspace | src/command.rs:70-77 | a successful result is a `DestroyWorkspace` command (full relation in `IdEvents`) |
| CommandParser.IdEvents | src/command.rs:54-77 | the three workspace events yield id `n` iff the whole payload spells `n` as a `usize`, and fail iff it is not a `usize` |
| CommandParser.ParseActiveWindow | src/command.rs:78-88 | a successful result is an `ActiveWindow` command (full relation in `ActiveWindowEvent`) |
| CommandParser.ActiveWindowEvent | src/command.rs:78-88 | the result is `ActiveWindow(title, class)` iff the payload is `class,title` with no comma in the class; the title may contain commas |
| CommandParser.NoCommaFails | src/command.rs:78-148 | the five comma-separated kinds reject a payload without a comma |
| CommandParser.ParseFocusedMon | src/command.rs:89-104 | a successful result is a `FocusedMon` command |
| CommandParser.FocusedMonEvent | src/command.rs:89-104 | `monitor,rest` with a comma-free monitor succeeds iff `rest` is a `usize`, and then carries that monitor and workspace |
| CommandParser.FocusedMonParsed | src/command.rs:89-104 | every `FocusedMon` produced comes from `monitor,w`, with a comma-free monitor and `w` parsing to the workspace |
| CommandParser.ParseFullScreen | src/command.rs:105-112 | off iff the payload parses as the `i32` 0, on iff it parses as 1, otherwise `ParseFailed` |
| CommandParser.FullScreenEvent | src/command.rs:105-112 | the flag is set exactly by the `i32` spellings of 1 and cleared by those of 0 (`-0` included); every other payload fails |
| CommandParser.VerbatimEvents | src/command.rs:113-151 | the six verbatim kinds (lines 113-114, 137, 149-151) always succeed and carry the payload unchanged, commas and `>>` included |
| CommandParser.ParseMoveWorkspace | src/command.rs:115-125 | a successful result is a `MoveWorkspace` command |
| CommandParser.MoveWorkspaceEvent | src/command.rs:115-125 | `workspace,monitor` (workspace first) succeeds iff the workspace field is a `usize`, and then carries both fields |
| CommandParser.MoveWorkspaceParsed | src/command.rs:115-125 | every `MoveWorkspace` produced comes from `w,monitor`, with `w` comma-free and parsing to the workspace |
| CommandParser.ParseOpenWindow | src/command.rs:126-136 | a successful result is an `OpenWindow` command |
| CommandParser.OpenWindowEvent | src/command.rs:126-136 | `address,workspace,class,title` with the first three fields comma-free succeeds iff the workspace is a `usize`; the title keeps any further commas |
| CommandParser.OpenWindowParsed | src/command.rs:126-136 | every `OpenWindow` produced comes from such a four-field payload |
| CommandParser.OpenWindowTooFewCommas | src/command.rs:127-129 | a payload with fewer than three commas is rejected |
| CommandParser.ParseMoveWindow | src/command.rs:138-148 | a successful result is a `MoveWindow` command |
| CommandParser.MoveWindowEvent | src/command.rs:138-148 | `address,rest` with a comma-free address succeeds iff `rest` is a `usize`, and then carries both |
| CommandParser.MoveWindowParsed | src/command.rs:138-148 | every `MoveWindow` produced comes from `address,w`, with `w` parsing to the workspace |
| Text.Trim | src/command.rs:52 | the trimmed text neither starts nor ends with whitespace |
| Text.TrimStartSpec | src/command.rs:52 | trimming the front drops exactly the longest whitespace prefix |
| Text.TrimEndSpec | src/command.rs:52 | trimming the back drops exactly the longest whitespace suffix |
| Text.TrimSlice | src/command.rs:52 | the trimmed text is a contiguous slice whose margins are all whitespace |
| Text.TrimOfTrimmed | src/command.rs:52 | text that is already trimmed is left unchanged |
| Text.TrimSurrounding | src/command.rs:52 | whitespace around a string does not change its trimmed text |
| Text.TrimUnique | src/command.rs:52 | any trimmed slice with whitespace-only margins is the trimmed text |
| Text.TrimIdempotent | src/command.rs:52 | trimming twice is trimming once |
| Text.FindFrom | src/command.rs:52 | a found index is at or after the start and the separator occurs there |
| Text.FindFromSpec | src/command.rs:52 | a found index is the leftmost occurrence; nothing found means no occurrence |
| Text.SplitOnceSpec | src/command.rs:52 | a split is `head + sep + tail` with no earlier occurrence, and the split fails iff the separator does not occur |
| Text.SplitOnceUnique | src/command.rs:52 | any first split is the one `split_once` returns |
| Text.CharSplit | src/command.rs:79 | at a single character, a first split is a split whose head does not contain that character |
| Text.CharSplitOnce | src/command.rs:79 | splitting at a character gives `head + c + tail` with `c` not in the head, and fails iff `c` is absent |
| Text.CharSplitNone | src/command.rs:79 | splitting at a character fails exactly when the character is absent |
| Numbers.Decimal | src/command.rs:55 | the canonical decimal text is non-empty digits with no leading zero except for 0 itself |
| Numbers.DecimalValue | src/command.rs:55 | the digit value of the decimal text of `n` is `n` |
| Numbers.DecimalOfValue | src/command.rs:55 | digits without a leading zero are the decimal text of their value |
| Numbers.DigitsIff | src/command.rs:55 | a non-empty digit string has value `n` iff it is the decimal text of `n` with leading zeros |
| Numbers.ParseUsizeIff | src/command.rs:55 | `usize` parsing yields `n` iff the text is an optional `+` then `n` zero-padded, and `n` fits in 64 bits |
| Numbers.ParseI32Iff | src/command.rs:105 | `i32` parsing yields `v` iff the text is a sign agreeing with `v` (optional for `v >= 0`), then `abs(v)` zero-padded, and `v` fits in 32 bits |
| Numbers.ParseUsizeDecimal | src/command.rs:55 | the decimal text of `n` parses back to `n` exactly when `n` fits in 64 bits |
| WireFormat.PayloadEndsClean | src/command.rs:52 | the payload written for an encodable command survives trimming of the line |
| WireFormat.IdPayloadRoundTrip | src/command.rs:54-77 | the decimal id payload parses back to the same workspace command |
| WireFormat.FullScreenPayloadRoundTrip | src/command.rs:105-112 | `0` and `1` parse back to the flag they encode |
| WireFormat.VerbatimPayloadRoundTrip | src/command.rs:113-151 | a verbatim payload parses back to the same command |
| WireFormat.ActiveWindowPayloadRoundTrip | src/command.rs:78-88 | `class,title` parses back to the same window when the class has no comma |
| WireFormat.FocusedMonPayloadRoundTrip | src/command.rs:89-104 | `monitor,decimal` parses back when the monitor has no comma |
| WireFormat.MoveWorkspacePayloadRoundTrip | src/command.rs:115-125 | `decimal,monitor` parses back to the same command |
| WireFormat.MoveWindowPayloadRoundTrip | src/command.rs:138-148 | `address,decimal` parses back when the address has no comma |
| WireFormat.OpenWindowPayloadRoundTrip | src/command.rs:126-136 | `address,decimal,class,title` parses back when address and class have no comma |
| WireFormat.ParsePayloadOfPayload | src/command.rs:53-151 | every kind's grammar reads back the payload written for an encodable command |
| WireFormat.ParseFormat | src/command.rs:48-161 | round trip: the line written for an encodable command parses back to it |
| WireFormat.ParsedPayloadEncodable | src/command.rs:53-151 | what a payload grammar produces from a payload not ending in whitespace is encodable |
| WireFormat.ParsedEncodable | src/command.rs:48-161 | every command the parser produces is encodable |
| WireFormat.FormatCanonical | src/command.rs:48-161 | every parsed line has a canonical line that parses to the same command |
| WireFormat.FormatInjective | src/command.rs:48-161 | distinct encodable commands are written as distinct lines |
| Scenarios.WorkspaceLine | src/command.rs:54-56 | `workspace>>3` is `Workspace(3)` |
| Scenarios.WorkspaceLineWithNewline | src/command.rs:52 | ` workspace>>3` followed by a newline is also `Workspace(3)` |
| Scenarios.UsizePaddedSpellings | src/command.rs:55 | `007` and `+7` both parse as 7 |
| Scenarios.UsizeRejects | src/command.rs:55 | `-7`, `7a` and the empty string are not `usize` values |
| Scenarios.ActiveWindowLine | src/command.rs:78-83 | `activewindow>>kitty,vi a,b` has class `kitty` and title `vi a,b` |
| Scenarios.ActiveWindowPayload | src/command.rs:78-83 | `firefox,GitHub - Mozilla` has class `firefox` and title `GitHub - Mozilla` |
| Scenarios.ActiveWindowWithoutComma | src/command.rs:84-87 | `firefox` alone is rejected as an active-window payload |
| Scenarios.OpenWindowPayload | src/command.rs:126-135 | `0x55f,3,kitty,~/a,b` has address `0x55f`, workspace 3, class `kitty` and title `~/a,b` |
| Scenarios.OpenWindowBadWorkspace | src/command.rs:134 | a non-numeric workspace field fails the whole event |
| Scenarios.MoveWorkspacePayload | src/command.rs:115-121 | `4,DP-1` is workspace 4 on monitor `DP-1` |
| Scenarios.FocusedMonPayload | src/command.rs:89-99 | `DP-1,4` is monitor `DP-1` with workspace 4 |
| Scenarios.FullScreenFlags | src/command.rs:105-107 | `1` and `+1` turn fullscreen on; `0`, `-0` and `00` turn it off |
| Scenarios.FullScreenRejects | src/command.rs:108-111 | `2`, `-1` and `true` are rejected |
| Scenarios.SubMapLine | src/command.rs:151 | `submap>>a>>b` keeps `a>>b` as the submap name |
| Scenarios.CapitalisedKind | src/command.rs:152-155 | `Workspace>>1` is rejected |
| Scenarios.UnknownKind | src/command.rs:152-155 | `bogus>>x` is rejected |
| Scenarios.SeparatorOnlyLine | src/command.rs:152-155 | `>>` alone is rejected (empty kind) |
| Scenarios.NoSeparatorLines | src/command.rs:157-159 | the empty line and `workspace 3` are rejected |

## Left out

- `src/main.rs` is not part of this model. It covers argument parsing, logger setup, building the socket path from the environment, the socket read loop and the `handle` dispatcher. All of these are I/O, configuration or logging.
- The `error!` and `warn!` logging calls inside `from_str` are left out. They are side effects and do not affect the returned value.
- A richer error taxonomy (malformed line, unknown kind, missing field, invalid number, invalid boolean) is not modelled. The code collapses every failure into the one `ParseFailed`, and so does the model.
- `usize` is taken to be 64 bits wide (`USIZE_MAX` = 2^64 - 1). A 32-bit target would reject more workspace ids.
- Strings are sequences of Unicode scalar values, not UTF-8 bytes. `split_once` and `trim` only cut at character boundaries, so this gives the same results.
- `Format` has no counterpart in the source, which only parses. It is a model-side reference encoder used to state the round trip.
- CommandParser.Parse has no contract of its own. Its behaviour is stated by the line-level lemmas above and by the round trip with `Format`.
- CommandParser.ParseWorkspace, ParseActiveWindow and the other per-kind functions only state the kind of their result in their own contracts. The exact input/output relation of each is proved in the `...Event` and `...Parsed` lemmas listed with them.
