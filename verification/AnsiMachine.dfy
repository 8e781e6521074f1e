/** The ANSI parser's state machine as functions of its state (src/ansi.rs): one byte
    at a time, then a flush at the end of each feed. */
module AnsiMachine {
  import opened Options
  import opened Utf8
  import opened CsiParams
  import opened AnsiEvents
  import opened ByteSteps

  datatype State = Ground | Escape | EscapeIntermediate | EscapeIgnore | CsiEntry | CsiParam | CsiIntermediate
    | CsiIgnore | OscString | OscEscPending | OscIgnore | DcsEntry | DcsIgnore | SosPmApcString

  /** The state; the running style, and the one the consumer was last given; the bytes
      met in the sequence under way; the text run, and the start of a UTF-8 sequence
      after it; whether the alternate screen is on; what the sequence has collected. */
  datatype Parser = Parser(state: State, current: Style, emitted: Style, count: nat, run: string, pending: Bytes,
                           alt: bool,
                           csi: Collector, osc: Bytes, escape: Bytes, profile: Profile, limit: nat)

  function NewParser(profile: Profile, limit: nat): Parser {
    Parser(Ground, Plain, Plain, 0, "", [], false, NewCollector, [], [], profile, limit)
  }

  predicate Suppressed(p: Parser) {
    p.profile.LineOriented? && p.alt
  }

  function Visible(p: Parser, events: seq<Event>): seq<Event> {
    if Suppressed(p) then [] else events
  }

  function TextOf(run: string): seq<Event> {
    if run == "" then [] else [Text(run)]
  }

  /** The run with U+FFFD for the start of a sequence that something interrupts. */
  function Closed(p: Parser): string {
    if p.pending == [] then p.run else p.run + [Replacement]
  }

  /** Commit the text run. */
  function FlushEvents(p: Parser): seq<Event> {
    Visible(p, TextOf(Closed(p)))
  }

  function Flushed(p: Parser): Parser {
    p.(run := "", pending := [])
  }

  function To(p: Parser, state: State): Parser {
    p.(csi := NewCollector, osc := [], escape := [], count := 0, state := state)
  }

  /** Append a byte of text. */
  function PushText(p: Parser, b: Byte): Parser {
    if p.pending == [] && b < 0x80 then p.(run := p.run + [b as char])
    else var (t, rest) := Decode(p.pending + [b]); p.(run := p.run + t, pending := rest)
  }

  // ----- ground -----

  predicate IsText(profile: Profile, b: Byte) {
    0x20 <= b <= 0x7E || b >= 0x80 || (profile.LineOriented? && (b == 0x07 || 0x09 <= b <= 0x0C))
  }

  /** What a control byte among text does, if anything. */
  function Control(profile: Profile, b: Byte): Option<Event> {
    if b == 0x0D then Some(CarriageReturn)
    else if b == 0x08 then Some(Backspace)
    else if profile.LineOriented? then None
    else if b == 0x07 then Some(Bell)
    else if b == 0x09 then Some(HorizontalTab)
    else if 0x0A <= b <= 0x0C then Some(LineFeed)
    else if b == 0x0E then Some(ShiftOut)
    else if b == 0x0F then Some(ShiftIn)
    else None
  }

  function FeedGround(p: Parser, b: Byte): (Parser, seq<Event>) {
    var control := Control(p.profile, b);
    if control.Some? then (Flushed(p), FlushEvents(p) + Visible(p, [control.value]))
    else if IsText(p.profile, b) then (PushText(p, b), [])
    else (p, [])
  }

  // ----- escape sequences -----

  function EscapeEvent(b: Byte): Option<Event> {
    if b == 0x37 then Some(SaveCursor)
    else if b == 0x38 then Some(RestoreCursor)
    else if b == 0x44 then Some(Index)
    else if b == 0x45 then Some(NextLine)
    else if b == 0x48 then Some(SetTabStop)
    else if b == 0x4D then Some(ReverseIndex)
    else if b == 0x3D then Some(SetMode(ApplicationKeypad, true))
    else if b == 0x3E then Some(SetMode(ApplicationKeypad, false))
    else None
  }

  function FeedEscape(p: Parser, b: Byte): (Parser, seq<Event>) {
    if 0x20 <= b <= 0x2F then (p.(escape := p.escape + [b], state := EscapeIntermediate), [])
    else if b == 0x5B then (p.(csi := NewCollector, state := CsiEntry), [])
    else if b == 0x5D then (p.(osc := [], state := OscString), [])
    else if b == 0x50 then (p.(state := DcsEntry), [])
    else if b == 0x58 || b == 0x5E || b == 0x5F then (p.(state := SosPmApcString), [])
    else if EscapeEvent(b).Some? && p.profile.FullScreen? then (To(p, Ground), [EscapeEvent(b).value])
    else if 0x30 <= b <= 0x7E then (To(p, Ground), [])
    else (p, [])
  }

  function Designation(escape: Bytes, b: Byte): seq<Event> {
    if (escape == [0x28] || escape == [0x29]) && (b == 0x30 || b == 0x42) then
      [DesignateCharacterSet(if escape == [0x28] then G0 else G1, if b == 0x30 then DecSpecialGraphics else Ascii)]
    else []
  }

  function FeedEscapeIntermediate(p: Parser, b: Byte): (Parser, seq<Event>) {
    if 0x20 <= b <= 0x2F then (p.(escape := p.escape + [b]), [])
    else if 0x30 <= b <= 0x7E then (To(p, Ground), if p.profile.FullScreen? then Designation(p.escape, b) else [])
    else (p, [])
  }

  // ----- control sequences -----

  /** Emit the running style, unless the alternate screen hides it. */
  function EmitStyle(p: Parser): (Parser, seq<Event>) {
    if Suppressed(p) then (p, []) else (p.(emitted := p.current), [SetStyle(p.current)])
  }

  function DispatchSgr(p: Parser, params: seq<Param>): (Parser, seq<Event>) {
    EmitStyle(p.(current := if params == [] then Plain else StyleFrom(p.current, params, 0, p.profile)))
  }

  /** Enter or leave the alternate screen; leaving gives the consumer the style that
      ran on meanwhile. */
  function SwitchScreen(p: Parser, set_: bool): (Parser, seq<Event>) {
    if set_ && !p.alt then (p.(alt := true), [AlternateScreenEnter])
    else if !set_ && p.alt then
      var p' := p.(alt := false);
      if p'.current != p'.emitted then
        var (p'', e) := EmitStyle(p');
        (p'', [AlternateScreenExit] + e)
      else (p', [AlternateScreenExit])
    else (p, [])
  }

  function SwitchScreens(p: Parser, params: seq<Param>, set_: bool): (Parser, seq<Event>) {
    if params == [] then (p, [])
    else
      var n := |params| - 1;
      var (p1, e1) := SwitchScreens(p, params[..n], set_);
      if params[n].main == 1049 then var (p2, e2) := SwitchScreen(p1, set_); (p2, e1 + e2) else (p1, e1)
  }

  function LineEvents(marker: Option<Byte>, final: Byte, params: seq<Param>): seq<Event> {
    var first := ParamAt(params, 0, 0);
    if marker.Some? then []
    else if final == 0x4B then if first == 0 then [EraseToEol] else if first == 2 then [EraseLine] else []
    else if final == 0x7E then
      if first == 200 then [BracketedPasteBegin] else if first == 201 then [BracketedPasteEnd] else []
    else []
  }

  function DispatchCsi(p: Parser, final: Byte): (Parser, seq<Event>) {
    var params, marker := Finalize(p.csi), p.csi.marker;
    if marker.None? && final == 0x6D then DispatchSgr(p, params)
    else if p.profile.FullScreen? then (p, FullScreenEvents(marker, p.csi.intermediates, final, params))
    else if marker == Some(0x3F) && (final == 0x68 || final == 0x6C) then SwitchScreens(p, params, final == 0x68)
    else (p, Visible(p, LineEvents(marker, final, params)))
  }

  function EndCsi(p: Parser, final: Byte): (Parser, seq<Event>) {
    var (p', e) := DispatchCsi(p, final);
    (To(p', Ground), e)
  }

  function FeedCsi(p: Parser, b: Byte): (Parser, seq<Event>) {
    if p.state.CsiEntry? && 0x3C <= b <= 0x3F then (p.(csi := p.csi.(marker := Some(b)), state := CsiParam), [])
    else if !p.state.CsiIntermediate? && IsParam(b) then (p.(csi := Collect(p.csi, b), state := CsiParam), [])
    else if 0x20 <= b <= 0x2F then (p.(csi := p.csi.(intermediates := p.csi.intermediates + [b]),
                                       state := CsiIntermediate), [])
    else if 0x40 <= b <= 0x7E then EndCsi(p, b)
    else (p.(state := CsiIgnore), [])
  }

  // ----- operating system commands -----

  function EndOsc(p: Parser): (Parser, seq<Event>) {
    (To(p, Ground), Visible(p, OscEvents(p.osc)))
  }

  function FeedOsc(p: Parser, b: Byte): (Parser, seq<Event>) {
    if b == 0x07 then EndOsc(p)
    else if b == 0x1B then (p.(state := OscEscPending), [])
    else if b >= 0x20 then (p.(osc := p.osc + [b]), [])
    else (p, [])
  }

  // ----- a byte -----

  predicate Ignoring(s: State) {
    s.EscapeIgnore? || s.CsiIgnore? || s.OscIgnore? || s.DcsIgnore?
  }

  /** Where a sequence over its byte budget is waited out. */
  function IgnoreState(s: State): State {
    match s
    case OscString => OscIgnore
    case OscEscPending => OscIgnore
    case DcsEntry => DcsIgnore
    case SosPmApcString => DcsIgnore
    case Escape => EscapeIgnore
    case EscapeIntermediate => EscapeIgnore
    case CsiEntry => CsiIgnore
    case CsiParam => CsiIgnore
    case CsiIntermediate => CsiIgnore
    case _ => s
  }

  function OverBudget(p: Parser): Parser {
    p.(state := IgnoreState(p.state), count := 0,
       osc := if p.state.OscString? || p.state.OscEscPending? then [] else p.osc,
       escape := if p.state.Escape? || p.state.EscapeIntermediate? then [] else p.escape,
       csi := if p.state.CsiEntry? || p.state.CsiParam? || p.state.CsiIntermediate? then NewCollector else p.csi)
  }

  /** One byte in the state it finds, its budget counted. */
  function FeedState(p: Parser, b: Byte): (Parser, seq<Event>)
    requires !p.state.OscEscPending?
  {
    match p.state
    case Ground => FeedGround(p, b)
    case Escape => FeedEscape(p, b)
    case EscapeIntermediate => FeedEscapeIntermediate(p, b)
    case EscapeIgnore => (if 0x30 <= b <= 0x7E then To(p, Ground) else p, [])
    case CsiEntry => FeedCsi(p, b)
    case CsiParam => FeedCsi(p, b)
    case CsiIntermediate => FeedCsi(p, b)
    case CsiIgnore => (if 0x40 <= b <= 0x7E then To(p, Ground) else p, [])
    case OscString => FeedOsc(p, b)
    case OscIgnore => (if b == 0x07 then To(p, Ground) else p, [])
    case _ => (p, [])
  }

  function FeedByte(p: Parser, b: Byte): (Parser, seq<Event>)
    decreases p.state.OscEscPending?
  {
    if b == 0x1B && !p.state.OscString? && !p.state.OscEscPending? then (To(Flushed(p), Escape), FlushEvents(p))
    else if b == 0x18 || b == 0x1A then (To(Flushed(p), Ground), FlushEvents(p))
    else
      var counts := !p.state.Ground? && !Ignoring(p.state);
      var counted := if counts then p.(count := p.count + 1) else p;
      if counts && counted.count > p.limit then (OverBudget(counted), [])
      else if !p.state.OscEscPending? then FeedState(counted, b)
      else if b == 0x5C then EndOsc(counted)
      else FeedByte(counted.(osc := [], count := 0, state := Escape), b)
  }

  // ----- feeds -----

  function FeedBytes(p: Parser, s: Bytes): (Parser, seq<Event>) {
    Steps(FeedByte, p, s)
  }

  /** A feed ends by committing its text, but not the start of a UTF-8 sequence. */
  function Feed(p: Parser, s: Bytes): (Parser, seq<Event>) {
    var (p', e) := FeedBytes(p, s);
    (p'.(run := ""), e + Visible(p', TextOf(p'.run)))
  }

  /** The stream ends: what is pending is committed, and a consumer that mirrors the
      parser is brought back to a new parser's state. */
  function Finish(p: Parser): (Parser, seq<Event>) {
    (NewParser(p.profile, p.limit),
     FlushEvents(p) +
     if p.profile.LineOriented? then
       (if p.alt then [AlternateScreenExit] else []) + (if p.emitted != Plain then [SetStyle(Plain)] else [])
     else [])
  }
}
