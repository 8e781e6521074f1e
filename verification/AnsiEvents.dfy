/** What the ANSI parser emits (src/ansi.rs): text, styles and terminal operations,
    and the tables that read them off a control sequence's parameters. */
module AnsiEvents {
  import opened Options
  import opened Utf8
  import opened CsiParams

  datatype Profile = LineOriented | FullScreen

  datatype Color = Default | Rgb(r: Byte, g: Byte, b: Byte) | Indexed(n: Byte)

  datatype Underline = NoLine | Single | Double | Curly | Dotted | Dashed

  datatype Style = Style(fg: Color, bg: Color, bold: bool, italic: bool, underline: Underline, reverse: bool,
                         underlineColor: Color)

  const Plain := Style(Default, Default, false, false, NoLine, false, Default)

  datatype Erase = ToEnd | ToStart | All | Saved

  datatype Screen = Mode47 | Mode1047 | Mode1049

  datatype Mode = Insert | Origin | AutoWrap | ApplicationCursor | ApplicationKeypad | CursorVisible | BracketedPaste
    | FocusReporting | SynchronizedOutput | MouseX10 | MouseButton | MouseAny | MouseSgr

  datatype Slot = G0 | G1

  datatype Charset = Ascii | DecSpecialGraphics

  datatype Request = PrimaryAttributes | SecondaryAttributes | OperatingStatus | CursorPositionReport

  datatype Event =
    | Text(text: string)
    | SetStyle(style: Style)
    | CarriageReturn | Backspace | EraseToEol | EraseLine
    | SetTitle(title: string)
    | PromptStart | PromptEnd | CommandStart | OutputStart
    | BracketedPasteBegin | BracketedPasteEnd
    | AlternateScreenEnter | AlternateScreenExit
    | Bell | LineFeed | Index | NextLine | ReverseIndex | HorizontalTab
    | SetTabStop | ClearTabStop | ClearAllTabStops
    | CursorUp(n: nat) | CursorDown(n: nat) | CursorForward(n: nat) | CursorBackward(n: nat)
    | CursorNextLine(n: nat) | CursorPreviousLine(n: nat)
    | CursorHorizontalAbsolute(n: nat) | CursorVerticalAbsolute(n: nat)
    | CursorPosition(row: nat, col: nat)
    | EraseDisplay(erase: Erase) | EraseLineMode(erase: Erase)
    | EraseCharacters(n: nat) | InsertCharacters(n: nat) | DeleteCharacters(n: nat)
    | InsertLines(n: nat) | DeleteLines(n: nat) | ScrollUp(n: nat) | ScrollDown(n: nat)
    | SetScrollingRegion(top: nat, bottom: Option<nat>)
    | SaveCursor | RestoreCursor
    | AlternateScreen(screen: Screen, enabled: bool)
    | SetMode(mode: Mode, enabled: bool)
    | DesignateCharacterSet(slot: Slot, charset: Charset)
    | ShiftOut | ShiftIn
    | DeviceRequest(request: Request)

  // ----- parameters -----

  function ParamAt(params: seq<Param>, i: nat, default: nat): nat {
    if i >= |params| || params[i].main == 0 then default else params[i].main
  }

  function AtLeastOne(n: nat): nat {
    if n == 0 then 1 else n
  }

  function EraseOf(value: nat): Option<Erase> {
    if value == 0 then Some(ToEnd) else if value == 1 then Some(ToStart) else if value == 2 then Some(All)
    else if value == 3 then Some(Saved) else None
  }

  /** What setting or resetting a private mode does on a full screen. */
  function PrivateMode(value: nat, enabled: bool): seq<Event> {
    if value == 47 then [AlternateScreen(Mode47, enabled)]
    else if value == 1047 then [AlternateScreen(Mode1047, enabled)]
    else if value == 1049 then [AlternateScreen(Mode1049, enabled)]
    else if value == 1 then [SetMode(ApplicationCursor, enabled)]
    else if value == 6 then [SetMode(Origin, enabled)]
    else if value == 7 then [SetMode(AutoWrap, enabled)]
    else if value == 25 then [SetMode(CursorVisible, enabled)]
    else if value == 66 then [SetMode(ApplicationKeypad, enabled)]
    else if value == 1000 then [SetMode(MouseX10, enabled)]
    else if value == 1002 then [SetMode(MouseButton, enabled)]
    else if value == 1003 then [SetMode(MouseAny, enabled)]
    else if value == 1004 then [SetMode(FocusReporting, enabled)]
    else if value == 1006 then [SetMode(MouseSgr, enabled)]
    else if value == 2004 then [SetMode(BracketedPaste, enabled)]
    else if value == 2026 then [SetMode(SynchronizedOutput, enabled)]
    else []
  }

  function PrivateModes(params: seq<Param>, enabled: bool): seq<Event> {
    if params == [] then [] else PrivateMode(params[0].main, enabled) + PrivateModes(params[1..], enabled)
  }

  function InsertModes(params: seq<Param>, enabled: bool): seq<Event> {
    if params == [] then []
    else (if params[0].main == 4 then [SetMode(Insert, enabled)] else []) + InsertModes(params[1..], enabled)
  }

  // ----- styles -----

  function ToByte(n: nat): Byte {
    if n < 256 then n else 255
  }

  /** An extended colour, in subparameters or in the parameters after it, and how many
      of those it takes. */
  function ExtendedColor(p: Param, rest: seq<Param>): (r: Option<(Color, nat)>)
    ensures r.Some? ==> r.value.1 <= |rest|
  {
    if p.sub != [] then
      if p.sub[0] == 5 then if |p.sub| < 2 then None else Some((Indexed(ToByte(p.sub[1])), 0))
      else if p.sub[0] == 2 then
        if |p.sub| >= 5 then Some((Rgb(ToByte(p.sub[2]), ToByte(p.sub[3]), ToByte(p.sub[4])), 0))
        else if |p.sub| >= 4 then Some((Rgb(ToByte(p.sub[1]), ToByte(p.sub[2]), ToByte(p.sub[3])), 0))
        else None
      else None
    else if rest == [] then None
    else if rest[0].main == 5 then if |rest| < 2 then None else Some((Indexed(ToByte(rest[1].main)), 2))
    else if rest[0].main == 2 then
      if |rest| < 4 then None else Some((Rgb(ToByte(rest[1].main), ToByte(rest[2].main), ToByte(rest[3].main)), 4))
    else None
  }

  function UnderlineOf(sub: seq<nat>): Underline {
    if sub == [] then Single
    else if sub[0] == 0 then NoLine
    else if sub[0] == 2 then Double
    else if sub[0] == 3 then Curly
    else if sub[0] == 4 then Dotted
    else if sub[0] == 5 then Dashed
    else Single
  }

  /** The style after one parameter, and how many of the next it took. */
  function StyleOne(s: Style, p: Param, rest: seq<Param>, profile: Profile): (r: (Style, nat))
    ensures r.1 <= |rest|
  {
    var m := p.main;
    var color := ExtendedColor(p, rest);
    if m == 0 then (Plain, 0)
    else if m == 1 then (s.(bold := true), 0)
    else if m == 3 then (s.(italic := true), 0)
    else if m == 4 then (s.(underline := UnderlineOf(p.sub)), 0)
    else if (m == 5 || m == 6) && profile.LineOriented? then (s.(bold := true), 0)
    else if m == 7 then (s.(reverse := true), 0)
    else if m == 22 then (s.(bold := false), 0)
    else if m == 23 then (s.(italic := false), 0)
    else if m == 24 then (s.(underline := NoLine), 0)
    else if m == 27 then (s.(reverse := false), 0)
    else if 30 <= m <= 37 then (s.(fg := Indexed(m - 30)), 0)
    else if m == 38 then if color.Some? then (s.(fg := color.value.0), color.value.1) else (s, 0)
    else if m == 39 then (s.(fg := Default), 0)
    else if 40 <= m <= 47 then (s.(bg := Indexed(m - 40)), 0)
    else if m == 48 then if color.Some? then (s.(bg := color.value.0), color.value.1) else (s, 0)
    else if m == 49 then (s.(bg := Default), 0)
    else if m == 58 then if color.Some? then (s.(underlineColor := color.value.0), color.value.1) else (s, 0)
    else if m == 59 then (s.(underlineColor := Default), 0)
    else if 90 <= m <= 97 then (s.(fg := Indexed(m - 90 + 8)), 0)
    else if 100 <= m <= 107 then (s.(bg := Indexed(m - 100 + 8)), 0)
    else (s, 0)
  }

  /** The style after the parameters from one on. */
  function StyleFrom(s: Style, params: seq<Param>, i: nat, profile: Profile): Style
    requires i <= |params|
    decreases |params| - i
  {
    if i == |params| then s
    else
      var (s', extra) := StyleOne(s, params[i], params[i + 1..], profile);
      StyleFrom(s', params, i + 1 + extra, profile)
  }

  // ----- a full screen's control sequences -----

  function FullScreenEvents(marker: Option<Byte>, intermediates: Bytes, final: Byte, params: seq<Param>): seq<Event> {
    var count, first := AtLeastOne(ParamAt(params, 0, 1)), ParamAt(params, 0, 0);
    if intermediates != [] then []
    else if marker == Some(0x3F) then
      if final == 0x68 || final == 0x6C then PrivateModes(params, final == 0x68) else []
    else if marker == Some(0x3E) then if final == 0x63 then [DeviceRequest(SecondaryAttributes)] else []
    else if marker.Some? then []
    else if final == 0x41 then [CursorUp(count)]
    else if final == 0x42 then [CursorDown(count)]
    else if final == 0x43 || final == 0x61 then [CursorForward(count)]
    else if final == 0x44 then [CursorBackward(count)]
    else if final == 0x45 then [CursorNextLine(count)]
    else if final == 0x46 then [CursorPreviousLine(count)]
    else if final == 0x47 || final == 0x60 then [CursorHorizontalAbsolute(count)]
    else if final == 0x64 then [CursorVerticalAbsolute(count)]
    else if final == 0x48 || final == 0x66 then [CursorPosition(count, AtLeastOne(ParamAt(params, 1, 1)))]
    else if final == 0x4A then if EraseOf(first).Some? then [EraseDisplay(EraseOf(first).value)] else []
    else if final == 0x4B then if EraseOf(first).Some? then [EraseLineMode(EraseOf(first).value)] else []
    else if final == 0x58 then [EraseCharacters(count)]
    else if final == 0x40 then [InsertCharacters(count)]
    else if final == 0x50 then [DeleteCharacters(count)]
    else if final == 0x4C then [InsertLines(count)]
    else if final == 0x4D then [DeleteLines(count)]
    else if final == 0x53 then [ScrollUp(count)]
    else if final == 0x54 then [ScrollDown(count)]
    else if final == 0x72 then
      [SetScrollingRegion(count, if |params| > 1 && params[1].main != 0 then Some(params[1].main) else None)]
    else if final == 0x73 then [SaveCursor]
    else if final == 0x75 then [RestoreCursor]
    else if final == 0x67 then if first == 0 then [ClearTabStop] else if first == 3 then [ClearAllTabStops] else []
    else if final == 0x7E then if first == 200 then [BracketedPasteBegin] else if first == 201 then [BracketedPasteEnd]
    else []
    else if final == 0x68 || final == 0x6C then InsertModes(params, final == 0x68)
    else if final == 0x63 then [DeviceRequest(PrimaryAttributes)]
    else if final == 0x6E then
      if first == 5 then [DeviceRequest(OperatingStatus)] else if first == 6 then [DeviceRequest(CursorPositionReport)]
        else []
    else []
  }

  // ----- operating system commands -----

  function IndexOf(s: Bytes, b: Byte): (i: nat)
    ensures i <= |s|
  {
    if s == [] || s[0] == b then 0 else 1 + IndexOf(s[1..], b)
  }

  /** A decimal number, perhaps after a plus sign. */
  function Number(s: Bytes): Option<nat> {
    var digits := if s != [] && s[0] == 0x2B then s[1..] else s;
    if digits == [] || !AllDigits(digits) then None
    else if Value(digits) > Max then None
    else Some(Value(digits))
  }

  /** What an operating system command shows. */
  function OscEvents(body: Bytes): seq<Event> {
    var i := IndexOf(body, 0x3B);
    var n, tail := Number(body[..i]), if i < |body| then body[i + 1..] else [];
    if n == Some(133) then
      if tail == [] then []
      else if tail[0] == 0x41 then [PromptStart]
      else if tail[0] == 0x42 then [PromptEnd]
      else if tail[0] == 0x43 then [CommandStart]
      else if tail[0] == 0x44 then [OutputStart]
      else []
    else if n == Some(0) || n == Some(2) then [SetTitle(Lossy(tail))]
    else []
  }
}
