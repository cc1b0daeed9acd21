/**
  Concrete event lines and what the parser makes of them: the documented
  examples, the accepted spellings of numbers, and the near misses.
  Each line is a parameter fixed by the precondition, so that the proofs go
  through the general lemmas rather than by evaluating the parser.
 */
module Scenarios {
  import opened Wrappers
  import opened Text
  import opened Numbers
  import EventKind
  import opened CommandParser
  import opened WireFormat

  lemma WorkspaceLine(line: string)
    requires line == "workspace>>3"
    ensures Parse(line) == Ok(Workspace(3))
  {
    var kind, payload := "workspace", "3";
    assert line == kind + Separator + payload;
    ParseLine(kind, payload);
    ParseEventDispatch(EventKind.Workspace, payload);
    assert payload == Decimal(3);
    ParseUsizeDecimal(3);
  }

  /** The newline the socket reader leaves on a line, and any other surrounding whitespace, are ignored. */
  lemma WorkspaceLineWithNewline(line: string)
    requires line == " workspace>>3\n"
    ensures Parse(line) == Ok(Workspace(3))
  {
    var pre, core, post := " ", "workspace>>3", "\n";
    assert line == pre + core + post;
    ParseIgnoresSurroundingWhitespace(pre, core, post);
    WorkspaceLine(core);
  }

  /** Leading zeros and a `+` sign are accepted. */
  lemma UsizePaddedSpellings(padded: string, signed: string)
    requires padded == "007" && signed == "+7"
    ensures ParseUsize(padded) == Some(7)
    ensures ParseUsize(signed) == Some(7)
  {
    assert padded[2..] == Decimal(7) && padded[..2] == "00";
    PaddedWitness(padded, 7, 2);
    ParseUsizeIff(padded, 7);
    assert signed[1..][0..] == Decimal(7) && signed[1..][..0] == "";
    PaddedWitness(signed[1..], 7, 0);
    ParseUsizeIff(signed, 7);
  }

  /** A minus sign, a letter or nothing at all is not a `usize`. */
  lemma UsizeRejects(negative: string, letter: string)
    requires negative == "-7" && letter == "7a"
    ensures ParseUsize(negative) == None
    ensures ParseUsize(letter) == None
    ensures ParseUsize("") == None
  {
    assert !IsDigit(negative[0]);
    assert !IsDigit(letter[1]);
  }

  /** The window class comes first on the wire and the title may hold commas. */
  lemma ActiveWindowLine(line: string, c: Command)
    requires line == "activewindow>>kitty,vi a,b" && c == ActiveWindow("vi a,b", "kitty")
    ensures Parse(line) == Ok(c)
  {
    assert Format(c) == line;
    ParseFormat(c);
  }

  lemma ActiveWindowPayload(payload: string)
    requires payload == "firefox,GitHub - Mozilla"
    ensures ParseActiveWindow(payload) == Ok(ActiveWindow("GitHub - Mozilla", "firefox"))
  {
    var windowClass, title := "firefox", "GitHub - Mozilla";
    assert payload == windowClass + Comma + title;
    CharSplit(payload, ',', windowClass, title);
    SplitOnceUnique(payload, Comma, windowClass, title);
  }

  lemma ActiveWindowWithoutComma(payload: string)
    requires payload == "firefox"
    ensures ParseActiveWindow(payload) == Err(ParseFailed)
  {
    NoCommaFails(payload);
  }

  /** Fields split at the first three commas; the title keeps the rest. */
  lemma OpenWindowPayload(payload: string)
    requires payload == "0x55f,3,kitty,~/a,b"
    ensures ParseOpenWindow(payload) == Ok(OpenWindow("0x55f", "kitty", "~/a,b", 3))
  {
    assert payload == "0x55f" + Comma + "3" + Comma + "kitty" + Comma + "~/a,b";
    assert "3" == Decimal(3);
    ParseUsizeDecimal(3);
    OpenWindowEvent("0x55f", "3", "kitty", "~/a,b");
  }

  /** A workspace field that is not a number fails the whole event. */
  lemma OpenWindowBadWorkspace(payload: string)
    requires payload == "5f,x,kitty,t"
    ensures ParseOpenWindow(payload) == Err(ParseFailed)
  {
    assert payload == "5f" + Comma + "x" + Comma + "kitty" + Comma + "t";
    assert !IsDigit("x"[0]);
    OpenWindowEvent("5f", "x", "kitty", "t");
  }

  lemma MoveWorkspacePayload(payload: string)
    requires payload == "4,DP-1"
    ensures ParseMoveWorkspace(payload) == Ok(MoveWorkspace(4, "DP-1"))
  {
    assert payload == "4" + Comma + "DP-1";
    assert "4" == Decimal(4);
    ParseUsizeDecimal(4);
    MoveWorkspaceEvent("4", "DP-1");
  }

  lemma FocusedMonPayload(payload: string)
    requires payload == "DP-1,4"
    ensures ParseFocusedMon(payload) == Ok(FocusedMon("DP-1", 4))
  {
    assert payload == "DP-1" + Comma + "4";
    assert "4" == Decimal(4);
    ParseUsizeDecimal(4);
    FocusedMonEvent("DP-1", "4");
  }

  /** Any `i32` spelling of 0 or 1 is a flag. */
  lemma FullScreenFlags(plus: string, minusZero: string, zeros: string)
    requires plus == "+1" && minusZero == "-0" && zeros == "00"
    ensures ParseFullScreen("1") == Ok(FullScreen(true))
    ensures ParseFullScreen("0") == Ok(FullScreen(false))
    ensures ParseFullScreen(plus) == Ok(FullScreen(true))
    ensures ParseFullScreen(minusZero) == Ok(FullScreen(false))
    ensures ParseFullScreen(zeros) == Ok(FullScreen(false))
  {
    assert "1" == Decimal(1) && "0" == Decimal(0);
    assert ParseI32("1") == Some(1) && ParseI32("0") == Some(0);
    assert plus[1..] == "1" && minusZero[1..] == "0";
    assert zeros[..1] == "0";
  }

  /** Every other value, and anything that is not an integer, is rejected. */
  lemma FullScreenRejects(two: string, minusOne: string, word: string)
    requires two == "2" && minusOne == "-1" && word == "true"
    ensures ParseFullScreen(two) == Err(ParseFailed)
    ensures ParseFullScreen(minusOne) == Err(ParseFailed)
    ensures ParseFullScreen(word) == Err(ParseFailed)
  {
    assert two[..0] == [] && DigitsValue(two) == 2;
    assert minusOne[1..] == "1";
    assert ParseI32(minusOne) == Some(-1);
    assert !IsDigit(word[0]);
  }

  /** The payload of a verbatim kind is kept as it is, an inner `>>` included. */
  lemma SubMapLine(line: string, c: Command)
    requires line == "submap>>a>>b" && c == SubMap("a>>b")
    ensures Parse(line) == Ok(c)
  {
    assert Format(c) == line;
    ParseFormat(c);
  }

  /** Keywords are matched exactly, including case. */
  lemma CapitalisedKind(line: string)
    requires line == "Workspace>>1"
    ensures Parse(line) == Err(ParseFailed)
  {
    var kind, payload := "Workspace", "1";
    assert line == kind + Separator + payload;
    ParseLine(kind, payload);
    ParseEventNotLowerCase(kind, payload);
  }

  lemma UnknownKind(line: string)
    requires line == "bogus>>x"
    ensures Parse(line) == Err(ParseFailed)
  {
    var kind, payload := "bogus", "x";
    assert line == kind + Separator + payload;
    ParseLine(kind, payload);
    assert EventKind.Lookup(kind) == None;
  }

  /** A bare separator has an empty kind, which is no keyword. */
  lemma SeparatorOnlyLine(line: string)
    requires line == ">>"
    ensures Parse(line) == Err(ParseFailed)
  {
    assert line == [] + Separator + [];
    ParseLine([], []);
    ParseEventNotLowerCase([], []);
  }

  /** Lines without a `>>` are rejected, the empty line among them. */
  lemma NoSeparatorLines(line: string)
    requires line == "workspace 3"
    ensures Parse("") == Err(ParseFailed)
    ensures Parse(line) == Err(ParseFailed)
  {
    ParseNoSeparator("");
    assert IsTrimmed(line);
    TrimOfTrimmed(line);
    forall i | 0 <= i <= |line|
      ensures !OccursAt(line, Separator, i)
    {
      if i + 2 <= |line| {
        assert line[i..i + 2][0] == line[i];
      }
    }
    ParseNoSeparator(line);
  }
}
