/** The tables of the ANSI parser read the other way (src/ansi.rs): for each event the
    sequences that show it, and for each attribute of the style the codes that set it. */
module AnsiTables {
  import opened Options
  import opened Utf8
  import opened CsiParams
  import opened CsiGroups
  import opened AnsiEvents
  import opened AnsiMachine
  import opened AnsiControls
  import opened AnsiSequences
  import opened ByteSteps

  // ----- control sequences -----

  /** A parameter's value; zero where it is missing. */
  function ValueAt(params: seq<Param>, i: nat): nat {
    if i < |params| then params[i].main else 0
  }

  /** A count: one where it is missing or zero. */
  function CountAt(params: seq<Param>, i: nat): nat {
    if ValueAt(params, i) == 0 then 1 else ValueAt(params, i)
  }

  /** The sequence without marker that ends so, of a full screen, is the event's. */
  predicate Operates(e: Event, final: char, params: seq<Param>) {
    match e
    case CursorUp(n) => final == 'A' && n == CountAt(params, 0)
    case CursorDown(n) => final == 'B' && n == CountAt(params, 0)
    case CursorForward(n) => final in {'C', 'a'} && n == CountAt(params, 0)
    case CursorBackward(n) => final == 'D' && n == CountAt(params, 0)
    case CursorNextLine(n) => final == 'E' && n == CountAt(params, 0)
    case CursorPreviousLine(n) => final == 'F' && n == CountAt(params, 0)
    case CursorHorizontalAbsolute(n) => final in {'G', '`'} && n == CountAt(params, 0)
    case CursorVerticalAbsolute(n) => final == 'd' && n == CountAt(params, 0)
    case CursorPosition(row, col) => final in {'H', 'f'} && row == CountAt(params, 0) && col == CountAt(params, 1)
    case EraseDisplay(erase) => final == 'J' && Erases(erase, ValueAt(params, 0))
    case EraseLineMode(erase) => final == 'K' && Erases(erase, ValueAt(params, 0))
    case EraseCharacters(n) => final == 'X' && n == CountAt(params, 0)
    case InsertCharacters(n) => final == '@' && n == CountAt(params, 0)
    case DeleteCharacters(n) => final == 'P' && n == CountAt(params, 0)
    case InsertLines(n) => final == 'L' && n == CountAt(params, 0)
    case DeleteLines(n) => final == 'M' && n == CountAt(params, 0)
    case ScrollUp(n) => final == 'S' && n == CountAt(params, 0)
    case ScrollDown(n) => final == 'T' && n == CountAt(params, 0)
    case SetScrollingRegion(top, bottom) =>
      && final == 'r' && top == CountAt(params, 0)
      && bottom == if ValueAt(params, 1) == 0 then None else Some(ValueAt(params, 1))
    case SaveCursor => final == 's'
    case RestoreCursor => final == 'u'
    case ClearTabStop => final == 'g' && ValueAt(params, 0) == 0
    case ClearAllTabStops => final == 'g' && ValueAt(params, 0) == 3
    case BracketedPasteBegin => final == '~' && ValueAt(params, 0) == 200
    case BracketedPasteEnd => final == '~' && ValueAt(params, 0) == 201
    case DeviceRequest(request) =>
      if request == OperatingStatus then final == 'n' && ValueAt(params, 0) == 5
      else if request == CursorPositionReport then final == 'n' && ValueAt(params, 0) == 6
      else request == PrimaryAttributes && final == 'c'
    case _ => false
  }

  predicate Erases(erase: Erase, value: nat) {
    match erase
    case ToEnd => value == 0
    case ToStart => value == 1
    case All => value == 2
    case Saved => value == 3
  }

  /** The number that names a mode of a full screen. */
  predicate Names(e: Event, enabled: bool, value: nat) {
    match e
    case AlternateScreen(screen, on) =>
      on == enabled && value == (match screen case Mode47 => 47 case Mode1047 => 1047 case Mode1049 => 1049)
    case SetMode(mode, on) =>
      && on == enabled && mode != Insert
      && value == (match mode
                   case ApplicationCursor => 1
                   case Origin => 6
                   case AutoWrap => 7
                   case CursorVisible => 25
                   case ApplicationKeypad => 66
                   case MouseX10 => 1000
                   case MouseButton => 1002
                   case MouseAny => 1003
                   case FocusReporting => 1004
                   case MouseSgr => 1006
                   case BracketedPaste => 2004
                   case SynchronizedOutput => 2026
                   case Insert => 4)
    case _ => false
  }

  /** What a control sequence shows on a full screen, the setting of modes aside. */
  predicate Shows(marker: Option<Byte>, intermediates: Bytes, final: char, params: seq<Param>, e: Event) {
    && intermediates == []
    && if marker.None? then Operates(e, final, params)
       else marker.value as char == '>' && final == 'c' && e == DeviceRequest(SecondaryAttributes)
  }

  /** A control sequence that sets no modes shows on a full screen the event that its
      marker, its final byte and its parameters name. */
  lemma OperationShown(marker: Option<Byte>, intermediates: Bytes, final: Byte, params: seq<Param>, e: Event)
    requires final as char !in {'h', 'l'} && Shows(marker, intermediates, final as char, params, e)
    ensures FullScreenEvents(marker, intermediates, final, params) == [e]
  {
  }

  lemma UpperNamed(final: Byte, params: seq<Param>)
    requires final < 0x60
    ensures var events := FullScreenEvents(None, [], final, params);
      events == [] || (|events| == 1 && Operates(events[0], final as char, params))
  {
  }

  lemma LowerNamed(final: Byte, params: seq<Param>)
    requires final >= 0x60 && final as char !in {'h', 'l'}
    ensures var events := FullScreenEvents(None, [], final, params);
      events == [] || (|events| == 1 && Operates(events[0], final as char, params))
  {
  }

  /** And where they name none it shows nothing. */
  lemma OperationNamed(marker: Option<Byte>, intermediates: Bytes, final: Byte, params: seq<Param>)
    requires final as char !in {'h', 'l'}
    ensures var events := FullScreenEvents(marker, intermediates, final, params);
      events == [] || (|events| == 1 && Shows(marker, intermediates, final as char, params, events[0]))
  {
    if intermediates == [] && marker.None? {
      if final < 0x60 {
        UpperNamed(final, params);
      } else {
        LowerNamed(final, params);
      }
    }
  }

  /** Setting or resetting modes: insert mode without a marker, the private modes after a
      question mark. */
  lemma ModesShown(marker: Option<Byte>, intermediates: Bytes, enabled: bool, params: seq<Param>)
    ensures FullScreenEvents(marker, intermediates, if enabled then 'h' as nat else 'l' as nat, params) ==
      if intermediates != [] then []
      else if marker.None? then InsertModes(params, enabled)
      else if marker.value as char == '?' then PrivateModes(params, enabled)
      else []
  {
  }

  /** A number sets the one mode it names. */
  lemma ModeSet(value: nat, enabled: bool, e: Event)
    requires Names(e, enabled, value)
    ensures PrivateMode(value, enabled) == [e]
  {
  }

  /** And one that names none sets none. */
  lemma ModeNamed(value: nat, enabled: bool)
    ensures var events := PrivateMode(value, enabled);
      events == [] || (|events| == 1 && Names(events[0], enabled, value))
  {
  }

  /** Each parameter sets its own mode, in the order of the parameters. */
  lemma ModeAlone(x: Param, enabled: bool)
    ensures PrivateModes([x], enabled) == PrivateMode(x.main, enabled)
    ensures InsertModes([x], enabled) == if x.main == 4 then [SetMode(Insert, enabled)] else []
  {
    assert PrivateModes([x][1..], enabled) == [] && InsertModes([x][1..], enabled) == [];
  }

  lemma {:induction false} ModesInOrder(a: seq<Param>, b: seq<Param>, enabled: bool)
    ensures PrivateModes(a + b, enabled) == PrivateModes(a, enabled) + PrivateModes(b, enabled)
  {
    if a == [] {
      assert a + b == b;
    } else {
      assert (a + b)[1..] == a[1..] + b;
      ModesInOrder(a[1..], b, enabled);
    }
  }

  lemma {:induction false} InsertInOrder(a: seq<Param>, b: seq<Param>, enabled: bool)
    ensures InsertModes(a + b, enabled) == InsertModes(a, enabled) + InsertModes(b, enabled)
  {
    if a == [] {
      assert a + b == b;
    } else {
      assert (a + b)[1..] == a[1..] + b;
      InsertInOrder(a[1..], b, enabled);
    }
  }

  // ----- a line-oriented stream's control sequences -----

  /** A line-oriented stream erases and brackets pastes, and shows nothing else. */
  lemma LineShown(marker: Option<Byte>, final: Byte, params: seq<Param>, e: Event)
    ensures |LineEvents(marker, final, params)| <= 1
    ensures e in LineEvents(marker, final, params) <==>
      marker.None? && match e
        case EraseToEol => final as char == 'K' && ValueAt(params, 0) == 0
        case EraseLine => final as char == 'K' && ValueAt(params, 0) == 2
        case BracketedPasteBegin => final as char == '~' && ValueAt(params, 0) == 200
        case BracketedPasteEnd => final as char == '~' && ValueAt(params, 0) == 201
        case _ => false
  {
  }

  /** Naming the alternate screen turns to it or back, once, and coming back shows the
      style that ran on meanwhile; nothing else changes. */
  lemma {:induction false} SwitchesShown(p: Parser, params: seq<Param>, on: bool)
    ensures SwitchScreens(p, params, on) ==
      if !NamesScreen(params) || p.alt == on then (p, [])
      else if on then (p.(alt := true), [AlternateScreenEnter])
      else (p.(alt := false, emitted := p.current),
            [AlternateScreenExit] + if p.current == p.emitted then [] else [SetStyle(p.current)])
  {
    if params != [] {
      var before, x := params[..|params| - 1], params[|params| - 1];
      assert params == before + [x];
      SwitchesShown(p, before, on);
      NamesMore(before, x);
      var (p1, e1) := SwitchScreens(p, before, on);
      SwitchShown(p1, on);
      assert e1 + [] == e1 && [] + SwitchScreen(p1, on).1 == SwitchScreen(p1, on).1;
    }
  }

  lemma SwitchShown(p: Parser, on: bool)
    ensures SwitchScreen(p, on) ==
      if p.alt == on then (p, [])
      else if on then (p.(alt := true), [AlternateScreenEnter])
      else (p.(alt := false, emitted := p.current),
            [AlternateScreenExit] + if p.current == p.emitted then [] else [SetStyle(p.current)])
  {
    assert [AlternateScreenExit] + [] == [AlternateScreenExit];
  }

  /** What a control sequence does at its final byte: `m` sets the style; on a full screen
      any other shows events; in a line-oriented stream a private mode sequence turns the
      screen, and any other shows events unless the alternate screen is on. */
  lemma Dispatched(p: Parser, final: Byte)
    ensures var params, marker := Finalize(p.csi), p.csi.marker;
      DispatchCsi(p, final) ==
        if marker.None? && final as char == 'm' then
          var t := if params == [] then Plain else StyleFrom(p.current, params, 0, p.profile);
          if p.profile.LineOriented? && p.alt then (p.(current := t), [])
          else (p.(current := t, emitted := t), [SetStyle(t)])
        else match p.profile
          case FullScreen => (p, FullScreenEvents(marker, p.csi.intermediates, final, params))
          case LineOriented =>
            if marker.Some? && marker.value as char == '?' && final as char in {'h', 'l'}
            then SwitchScreens(p, params, final as char == 'h')
            else (p, if p.alt then [] else LineEvents(marker, final, params))
  {
  }

  /** And the parameters it has then are the groups its parameter bytes spell. */
  lemma GroupsRead(marker: Option<Byte>, params: Bytes, between: Bytes)
    requires Parts(marker, params, between)
    ensures var c := Gathered(Body(marker, params, between));
      Finalize(c) == Groups(params) && c.marker == marker && c.intermediates == between
  {
    GatheredIs(marker, params, between);
    CollectedGroups(params);
  }

  // ----- escape sequences -----

  /** What an escape sequence shows on a full screen; a line-oriented stream shows none. */
  lemma EscapeNamed(profile: Profile, between: Bytes, final: Byte, e: Event)
    ensures |EscapeShown(profile, between, final)| <= 1
    ensures e in EscapeShown(profile, between, final) <==>
      profile.FullScreen? && match e
        case SaveCursor => between == [] && final as char == '7'
        case RestoreCursor => between == [] && final as char == '8'
        case Index => between == [] && final as char == 'D'
        case NextLine => between == [] && final as char == 'E'
        case SetTabStop => between == [] && final as char == 'H'
        case ReverseIndex => between == [] && final as char == 'M'
        case SetMode(mode, on) =>
          mode == ApplicationKeypad && between == [] && final as char == if on then '=' else '>'
        case DesignateCharacterSet(slot, charset) =>
          && |between| == 1 && between[0] as char == (match slot case G0 => '(' case G1 => ')')
          && final as char == (match charset case Ascii => 'B' case DecSpecialGraphics => '0')
        case _ => false
  {
  }

  /** Where a byte after ESC leads: into a control sequence, a command, a string that is
      not shown, intermediate bytes, or back to the ground; any other is ignored. */
  lemma EscapeLeads(p: Parser, b: Byte)
    requires p.state.Escape? && p.count < p.limit && !Interrupts(b)
    ensures FeedByte(p, b).0.state ==
      if b as char == '[' then CsiEntry
      else if b as char == ']' then OscString
      else if b as char == 'P' then DcsEntry
      else if b as char in {'X', '^', '_'} then SosPmApcString
      else if ' ' <= b as char <= '/' then EscapeIntermediate
      else if '0' <= b as char <= '~' then Ground
      else Escape
  {
  }

  ghost predicate InString(state: State) {
    state.DcsEntry? || state.SosPmApcString? || state.DcsIgnore?
  }

  /** A string that is not a command shows nothing, whatever it holds, until ESC, CAN or
      SUB. */
  lemma {:induction false} StringSilent(p: Parser, s: Bytes)
    requires InString(p.state) && forall i :: 0 <= i < |s| ==> !Interrupts(s[i])
    ensures var (p', e) := FeedBytes(p, s);
      e == [] && InString(p'.state) && p'.run == p.run && p'.current == p.current && p'.alt == p.alt
  {
    if s != [] {
      var before, b := s[..|s| - 1], s[|s| - 1];
      assert s == before + [b];
      StringSilent(p, before);
      var p1 := FeedBytes(p, before).0;
      StringByte(p1, b);
      Silent(p, before, p1, [], b, FeedByte(p1, b).0);
    }
  }

  lemma StringByte(p: Parser, b: Byte)
    requires InString(p.state) && !Interrupts(b)
    ensures var (p', e) := FeedByte(p, b);
      e == [] && InString(p'.state) && p'.run == p.run && p'.current == p.current && p'.alt == p.alt
  {
  }

  // ----- operating system commands -----

  /** The number before the first semicolon: decimal digits, perhaps after a plus. */
  predicate Reads(s: Bytes, n: nat) {
    && n <= Max
    && if s != [] && s[0] as char == '+' then s[1..] != [] && AllDigits(s[1..]) && Value(s[1..]) == n
       else s != [] && AllDigits(s) && Value(s) == n
  }

  lemma NumberReads(s: Bytes, n: nat)
    ensures Number(s) == Some(n) <==> Reads(s, n)
  {
  }

  /** A number written out reads as itself, after a plus too. */
  lemma DecimalReads(n: nat)
    requires n <= Max
    ensures Reads(Decimal(n), n) && Reads([0x2B] + Decimal(n), n)
  {
    ValueOfDecimal(n);
    assert IsDigit(Decimal(n)[0]);
    assert ([0x2B] + Decimal(n))[1..] == Decimal(n);
  }

  lemma {:induction false} FirstSemicolon(number: Bytes, rest: Bytes)
    requires Semicolon !in number
    ensures AnsiEvents.IndexOf(number + rest, Semicolon) ==
      |number| + if rest != [] && rest[0] == Semicolon then 0 else AnsiEvents.IndexOf(rest, Semicolon)
  {
    if number == [] {
      assert number + rest == rest;
    } else {
      assert (number + rest)[1..] == number[1..] + rest;
      assert number[0] in number;
      FirstSemicolon(number[1..], rest);
    }
  }

  /** What the command with a number and a text after a semicolon shows. */
  predicate Commands(e: Event, number: Bytes, text: Bytes) {
    match e
    case SetTitle(title) => (Reads(number, 0) || Reads(number, 2)) && title == Lossy(text)
    case PromptStart => Reads(number, 133) && text != [] && text[0] as char == 'A'
    case PromptEnd => Reads(number, 133) && text != [] && text[0] as char == 'B'
    case CommandStart => Reads(number, 133) && text != [] && text[0] as char == 'C'
    case OutputStart => Reads(number, 133) && text != [] && text[0] as char == 'D'
    case _ => false
  }

  /** What a command is cut into at its first semicolon. */
  lemma CommandCut(number: Bytes, text: Bytes)
    requires Semicolon !in number
    ensures var body, n := number + [Semicolon] + text, |number|;
      AnsiEvents.IndexOf(body, Semicolon) == n < |body| && body[..n] == number && body[n + 1..] == text
    ensures AnsiEvents.IndexOf(number, Semicolon) == |number|
  {
    assert number + [Semicolon] + text == number + ([Semicolon] + text) && number + [] == number;
    FirstSemicolon(number, [Semicolon] + text);
    FirstSemicolon(number, []);
  }

  /** A command sets the title, or marks a prompt or a command's bounds, or shows nothing. */
  lemma CommandShown(number: Bytes, text: Bytes, e: Event)
    requires Semicolon !in number
    ensures var events := OscEvents(number + [Semicolon] + text);
      |events| <= 1 && (e in events <==> Commands(e, number, text))
  {
    CommandCut(number, text);
    NumberReads(number, 0);
    NumberReads(number, 2);
    NumberReads(number, 133);
  }

  /** One without a semicolon has no text. */
  lemma CommandWithout(number: Bytes, e: Event)
    requires Semicolon !in number
    ensures |OscEvents(number)| <= 1 && (e in OscEvents(number) <==> Commands(e, number, []))
  {
    CommandCut(number, []);
    assert number[..|number|] == number;
    NumberReads(number, 0);
    NumberReads(number, 2);
    NumberReads(number, 133);
  }

  // ----- styles -----

  function Clamp(n: nat): Byte {
    if n > 255 then 255 else n
  }

  /** The parameter names the colour, in its own subparameters or by taking `extra` of
      those after it. */
  predicate NamesColor(p: Param, rest: seq<Param>, c: Color, extra: nat) {
    match c
    case Default => false
    case Indexed(n) =>
      || (extra == 0 && |p.sub| >= 2 && p.sub[0] == 5 && n == Clamp(p.sub[1]))
      || (extra == 2 && p.sub == [] && |rest| >= 2 && rest[0].main == 5 && n == Clamp(rest[1].main))
    case Rgb(r, g, b) =>
      || (extra == 0 && |p.sub| == 4 && p.sub[0] == 2
          && [r, g, b] == [Clamp(p.sub[1]), Clamp(p.sub[2]), Clamp(p.sub[3])])
      || (extra == 0 && |p.sub| > 4 && p.sub[0] == 2
          && [r, g, b] == [Clamp(p.sub[2]), Clamp(p.sub[3]), Clamp(p.sub[4])])
      || (extra == 4 && p.sub == [] && |rest| >= 4 && rest[0].main == 2
          && [r, g, b] == [Clamp(rest[1].main), Clamp(rest[2].main), Clamp(rest[3].main)])
  }

  lemma ColorNamed(p: Param, rest: seq<Param>, c: Color, extra: nat)
    ensures ExtendedColor(p, rest) == Some((c, extra)) <==> NamesColor(p, rest, c, extra)
  {
  }

  /** The colour a code sets, were it the plain code `base` of its kind: eight basic
      colours, eight bright ones, an extended one, or the default; none for other codes. */
  ghost predicate Colors(p: Param, rest: seq<Param>, base: nat, c: Color, extra: nat) {
    || (base <= p.main <= base + 7 && c == Indexed(p.main - base) && extra == 0)
    || (base + 60 <= p.main <= base + 67 && c == Indexed(p.main - base - 52) && extra == 0)
    || (p.main == base + 8 && NamesColor(p, rest, c, extra))
    || (p.main == base + 9 && c == Default && extra == 0)
    || (p.main == 0 && c == Default && extra == 0)
  }

  ghost predicate Underlines(p: Param, rest: seq<Param>, c: Color, extra: nat) {
    || (p.main == 58 && NamesColor(p, rest, c, extra))
    || (p.main in {0, 59} && c == Default && extra == 0)
  }

  /** What one code does to each attribute of the style. */
  lemma FlagsSet(s: Style, p: Param, rest: seq<Param>, profile: Profile)
    ensures var t := StyleOne(s, p, rest, profile).0;
      && t.bold == (if p.main in {0, 22} then false
                    else if p.main == 1 || (p.main in {5, 6} && profile.LineOriented?) then true else s.bold)
      && t.italic == (if p.main in {0, 23} then false else if p.main == 3 then true else s.italic)
      && t.reverse == (if p.main in {0, 27} then false else if p.main == 7 then true else s.reverse)
      && t.underline == (if p.main in {0, 24} then NoLine else if p.main == 4 then LineNamed(p.sub) else s.underline)
  {
  }

  function LineNamed(sub: seq<nat>): Underline {
    if sub == [] || sub[0] !in {0, 2, 3, 4, 5} then Single
    else [NoLine, Single, Double, Curly, Dotted, Dashed][sub[0]]
  }

  lemma ColorSome(p: Param, rest: seq<Param>, c: Color, extra: nat)
    ensures NamesColor(p, rest, c, extra) <==> ExtendedColor(p, rest) == Some((c, extra))
    ensures ExtendedColor(p, rest).Some? ==>
      NamesColor(p, rest, ExtendedColor(p, rest).value.0, ExtendedColor(p, rest).value.1)
  {
    ColorNamed(p, rest, c, extra);
    if ExtendedColor(p, rest).Some? {
      ColorNamed(p, rest, ExtendedColor(p, rest).value.0, ExtendedColor(p, rest).value.1);
    }
  }

  /** And to its colours: a code that names one sets it, and takes as many of the
      parameters after it as that needs; any other leaves it as it was. */
  lemma ColorSet(s: Style, p: Param, rest: seq<Param>, profile: Profile, c: Color, extra: nat)
    ensures var (t, taken) := StyleOne(s, p, rest, profile);
      && (Colors(p, rest, 30, c, extra) ==> t.fg == c && taken == extra)
      && (t.fg != s.fg ==> Colors(p, rest, 30, t.fg, taken))
  {
    ColorSome(p, rest, c, extra);
  }

  lemma BackgroundSet(s: Style, p: Param, rest: seq<Param>, profile: Profile, c: Color, extra: nat)
    ensures var (t, taken) := StyleOne(s, p, rest, profile);
      && (Colors(p, rest, 40, c, extra) ==> t.bg == c && taken == extra)
      && (t.bg != s.bg ==> Colors(p, rest, 40, t.bg, taken))
  {
    ColorSome(p, rest, c, extra);
  }

  lemma UnderlineColorSet(s: Style, p: Param, rest: seq<Param>, profile: Profile, c: Color, extra: nat)
    ensures var (t, taken) := StyleOne(s, p, rest, profile);
      && (Underlines(p, rest, c, extra) ==> t.underlineColor == c && taken == extra)
      && (t.underlineColor != s.underlineColor ==> Underlines(p, rest, t.underlineColor, taken))
      && (taken > 0 ==> p.main in {38, 48, 58} && exists x :: NamesColor(p, rest, x, taken))
  {
    ColorSome(p, rest, c, extra);
  }
}
