/** The ANSI parser as it runs (src/ansi.rs): an object fed bytes, its fields updated in
    place, refining the machine's functions. */
module AnsiParser {
  import opened Options
  import opened Utf8
  import opened CsiParams
  import opened AnsiEvents
  import opened AnsiMachine
  import opened AnsiChunks
  import opened AnsiText
  import opened ByteSteps

  // ----- decoding a buffer -----

  /** Where decoding ends up from a run and the bytes after it. */
  function Resume(run: string, s: Bytes): (string, Bytes) {
    (run + Decode(s).0, Decode(s).1)
  }

  lemma ResumeValid(run: string, s: Bytes)
    ensures var n := ValidLength(s); Resume(run + Decode(s[..n]).0, s[n..]) == Resume(run, s)
  {
    var n := ValidLength(s);
    ValidIsWhole(s);
    DecodeMore(s[..n], s[n..]);
    assert s[..n] + s[n..] == s && [] + s[n..] == s[n..];
    var t, u := Decode(s[..n]).0, Decode(s[n..]).0;
    assert Decode(s) == (t + u, Decode(s[n..]).1);
    assert (run + t) + u == run + (t + u);
  }

  lemma ResumeInvalid(run: string, s: Bytes)
    requires s != [] && Scan(s).Invalid?
    ensures Resume(run + [Replacement], s[Scan(s).len..]) == Resume(run, s)
  {
    var t := Decode(s[Scan(s).len..]).0;
    assert (run + [Replacement]) + t == run + ([Replacement] + t);
  }

  lemma ResumePending(run: string, s: Bytes)
    requires s == [] || Scan(s).Incomplete?
    ensures Resume(run, s) == (run, s)
  {
    assert run + "" == run;
  }

  // ----- the collector -----

  class CsiCollector {
    var params: seq<Param>
    var currentMain: Option<nat>
    var currentSubs: seq<nat>
    var currentSubAcc: Option<nat>
    var inSubs: bool
    var privateMarker: Option<Byte>
    var intermediates: Bytes

    function View(): Collector
      reads this
    {
      Collector(params, currentMain, currentSubs, currentSubAcc, inSubs, privateMarker, intermediates)
    }

    constructor ()
      ensures View() == NewCollector
    {
      params, currentMain, currentSubs, currentSubAcc, inSubs, privateMarker, intermediates := [], None, [], None,
        false, None, [];
    }

    method Reset()
      modifies this
      ensures View() == NewCollector
    {
      params, currentMain, currentSubs, currentSubAcc, inSubs, privateMarker, intermediates := [], None, [], None,
        false, None, [];
    }

    method PushDigit(d: nat)
      modifies this
      ensures View() == CsiParams.PushDigit(old(View()), d)
    {
      if inSubs {
        currentSubAcc := Some(Saturated(Saturated(Or(currentSubAcc, 0) * 10) + d));
      } else {
        currentMain := Some(Saturated(Saturated(Or(currentMain, 0) * 10) + d));
      }
    }

    method PushColon()
      modifies this
      ensures View() == CsiParams.PushColon(old(View()))
    {
      if inSubs {
        currentSubs, currentSubAcc := currentSubs + [Or(currentSubAcc, 0)], None;
      } else {
        inSubs := true;
      }
    }

    method PushSemicolon()
      modifies this
      ensures View() == CsiParams.PushSemicolon(old(View()))
    {
      if inSubs {
        currentSubs, currentSubAcc := currentSubs + [Or(currentSubAcc, 0)], None;
      }
      params := params + [Param(Or(currentMain, 0), currentSubs)];
      currentSubs, currentMain, inSubs := [], None, false;
    }

    /** Collect a parameter byte. */
    method Push(b: Byte)
      requires IsParam(b)
      modifies this
      ensures View() == Collect(old(View()), b)
    {
      if IsDigit(b) {
        PushDigit(b - 0x30);
      } else if b == Colon {
        PushColon();
      } else {
        PushSemicolon();
      }
    }

    /** Take the parameters; what stands around them stays. */
    method Finish() returns (taken: seq<Param>)
      modifies this
      ensures taken == Finalize(old(View())) && privateMarker == old(privateMarker)
        && intermediates == old(intermediates)
    {
      if currentMain.Some? || inSubs || currentSubs != [] {
        if inSubs {
          currentSubs, currentSubAcc := currentSubs + [Or(currentSubAcc, 0)], None;
        }
        params := params + [Param(Or(currentMain, 0), currentSubs)];
        currentSubs := [];
      }
      taken := params;
      params := [];
    }
  }

  /** Apply parameters to a style, an extended colour taking those after it. */
  method ApplySgr(style: Style, params: seq<Param>, profile: Profile) returns (r: Style)
    ensures r == StyleFrom(style, params, 0, profile)
  {
    r := style;
    var i := 0;
    while i < |params|
      invariant i <= |params| && StyleFrom(r, params, i, profile) == StyleFrom(style, params, 0, profile)
    {
      var (s, extra) := StyleOne(r, params[i], params[i + 1..], profile);
      r, i := s, i + 1 + extra;
    }
  }

  // ----- the parser -----

  class AnsiParser {
    var state: State
    var currentStyle: Style
    var emittedStyle: Style
    var ignoreByteCount: nat
    var textRun: string
    var utf8Buf: Bytes
    var altScreenActive: bool
    const csi: CsiCollector
    var oscBody: Bytes
    var escapeIntermediates: Bytes
    const profile: Profile
    const limit: nat

    function View(): Parser
      reads this, csi
    {
      Parser(state, currentStyle, emittedStyle, ignoreByteCount, textRun, utf8Buf, altScreenActive, csi.View(), oscBody,
             escapeIntermediates, profile, limit)
    }

    constructor (profile: Profile, limit: nat)
      ensures View() == NewParser(profile, limit) && fresh(csi)
    {
      state, currentStyle, emittedStyle, ignoreByteCount := Ground, Plain, Plain, 0;
      textRun, utf8Buf, altScreenActive := "", [], false;
      csi := new CsiCollector();
      oscBody, escapeIntermediates := [], [];
      this.profile, this.limit := profile, limit;
    }

    /** Drop the sequence under way for a state at its start. */
    method Recover(to: State)
      modifies this, csi
      ensures View() == To(old(View()), to)
    {
      csi.Reset();
      oscBody, escapeIntermediates, ignoreByteCount, state := [], [], 0, to;
    }

    // ----- text -----

    /** Decode what can be decoded of the pending bytes. The eight bytes at which they
        would be given up are more than an incomplete sequence has. */
    method TryDecode()
      modifies this
      ensures var (run, rest) := Resume(old(textRun), old(utf8Buf)); View() == old(View()).(run := run, pending := rest)
    {
      while utf8Buf != []
        invariant Resume(textRun, utf8Buf) == old(Resume(textRun, utf8Buf))
        invariant View() == old(View()).(run := textRun, pending := utf8Buf)
        decreases |utf8Buf|
      {
        var valid := ValidLength(utf8Buf);
        ResumeValid(textRun, utf8Buf);
        ValidIsWhole(utf8Buf);
        textRun, utf8Buf := textRun + Decode(utf8Buf[..valid]).0, utf8Buf[valid..];
        if utf8Buf == [] || Scan(utf8Buf).Incomplete? {
          break;
        }
        ResumeInvalid(textRun, utf8Buf);
        textRun, utf8Buf := textRun + [Replacement], utf8Buf[Scan(utf8Buf).len..];
      }
      ResumePending(textRun, utf8Buf);
    }

    /** Append a byte of text. */
    method PushTextByte(b: Byte)
      modifies this
      ensures View() == PushText(old(View()), b)
    {
      if utf8Buf == [] && b < 0x80 {
        textRun := textRun + [b as char];
      } else {
        utf8Buf := utf8Buf + [b];
        TryDecode();
      }
    }

    predicate Hidden()
      reads this
    {
      profile.LineOriented? && altScreenActive
    }

    /** Commit the text run. */
    method FlushTextRun() returns (events: seq<Event>)
      modifies this
      ensures View() == Flushed(old(View())) && events == FlushEvents(old(View()))
    {
      if utf8Buf != [] {
        textRun, utf8Buf := textRun + [Replacement], [];
      }
      events := if textRun == "" || Hidden() then [] else [Text(textRun)];
      textRun := "";
    }

    method FeedGround(b: Byte) returns (events: seq<Event>)
      modifies this
      ensures (View(), events) == AnsiMachine.FeedGround(old(View()), b)
    {
      var control := Control(profile, b);
      events := [];
      if control.Some? {
        events := FlushTextRun();
        if !Hidden() {
          events := events + [control.value];
        }
        assert events == FlushEvents(old(View())) + Visible(old(View()), [control.value]);
      } else if IsText(profile, b) {
        PushTextByte(b);
      }
    }

    // ----- escape sequences -----

    method FeedEscape(b: Byte) returns (events: seq<Event>)
      modifies this, csi
      ensures (View(), events) == AnsiMachine.FeedEscape(old(View()), b)
    {
      events := [];
      if 0x20 <= b <= 0x2F {
        escapeIntermediates, state := escapeIntermediates + [b], EscapeIntermediate;
      } else if b == 0x5B {
        csi.Reset();
        state := CsiEntry;
      } else if b == 0x5D {
        oscBody, state := [], OscString;
      } else if b == 0x50 {
        state := DcsEntry;
      } else if b == 0x58 || b == 0x5E || b == 0x5F {
        state := SosPmApcString;
      } else if EscapeEvent(b).Some? && profile.FullScreen? {
        events := [EscapeEvent(b).value];
        Recover(Ground);
      } else if 0x30 <= b <= 0x7E {
        Recover(Ground);
      }
    }

    method FeedEscapeIntermediate(b: Byte) returns (events: seq<Event>)
      modifies this, csi
      ensures (View(), events) == AnsiMachine.FeedEscapeIntermediate(old(View()), b)
    {
      events := [];
      if 0x20 <= b <= 0x2F {
        escapeIntermediates := escapeIntermediates + [b];
      } else if 0x30 <= b <= 0x7E {
        if profile.FullScreen? {
          events := Designation(escapeIntermediates, b);
        }
        Recover(Ground);
      }
    }

    // ----- control sequences -----

    method EmitSetStyle() returns (events: seq<Event>)
      modifies this`emittedStyle
      ensures (View(), events) == EmitStyle(old(View()))
    {
      events := [];
      if !Hidden() {
        emittedStyle, events := currentStyle, [SetStyle(currentStyle)];
      }
    }

    method DispatchSgr(params: seq<Param>) returns (events: seq<Event>)
      modifies this`currentStyle, this`emittedStyle
      ensures (View(), events) == AnsiMachine.DispatchSgr(old(View()), params)
    {
      if params == [] {
        currentStyle := Plain;
      } else {
        currentStyle := ApplySgr(currentStyle, params, profile);
      }
      events := EmitSetStyle();
    }

    /** Private mode 1049, once for each parameter that names it. */
    method SwitchScreen(params: seq<Param>, on: bool) returns (events: seq<Event>)
      modifies this`altScreenActive, this`emittedStyle
      ensures (View(), events) == SwitchScreens(old(View()), params, on)
    {
      events := [];
      for i := 0 to |params|
        invariant (View(), events) == SwitchScreens(old(View()), params[..i], on)
      {
        assert params[..i + 1][..i] == params[..i];
        if params[i].main == 1049 {
          if on && !altScreenActive {
            altScreenActive, events := true, events + [AlternateScreenEnter];
          } else if !on && altScreenActive {
            altScreenActive, events := false, events + [AlternateScreenExit];
            if currentStyle != emittedStyle {
              ghost var before := events;
              var styled := EmitSetStyle();
              events := events + styled;
              assert events == before[..|before| - 1] + ([AlternateScreenExit] + styled);
            }
          } else {
            assert events == events + [];
          }
        }
      }
      assert params[..|params|] == params;
    }

    method DispatchCsi(final: Byte) returns (events: seq<Event>)
      modifies this`currentStyle, this`emittedStyle, this`altScreenActive, csi
      ensures events == AnsiMachine.DispatchCsi(old(View()), final).1
      ensures View().(csi := NewCollector) == AnsiMachine.DispatchCsi(old(View()), final).0.(csi := NewCollector)
    {
      var marker, intermediates := csi.privateMarker, csi.intermediates;
      ghost var was := View();
      var params := csi.Finish();
      csi.Reset();
      ghost var p := View();
      assert p == was.(csi := NewCollector);
      if marker.None? && final == 0x6D {
        events := DispatchSgr(params);
      } else if profile.FullScreen? {
        events := FullScreenEvents(marker, intermediates, final, params);
      } else if marker == Some(0x3F) && (final == 0x68 || final == 0x6C) {
        events := SwitchScreen(params, final == 0x68);
        SwitchAside(was, params, final == 0x68);
      } else {
        events := if Hidden() then [] else LineEvents(marker, final, params);
      }
    }

    method FeedCsi(b: Byte) returns (events: seq<Event>)
      modifies this, csi
      ensures (View(), events) == AnsiMachine.FeedCsi(old(View()), b)
    {
      events := [];
      if state.CsiEntry? && 0x3C <= b <= 0x3F {
        csi.privateMarker := Some(b);
        state := CsiParam;
      } else if !state.CsiIntermediate? && IsParam(b) {
        csi.Push(b);
        state := CsiParam;
      } else if 0x20 <= b <= 0x2F {
        csi.intermediates := csi.intermediates + [b];
        state := CsiIntermediate;
      } else if 0x40 <= b <= 0x7E {
        events := DispatchCsi(b);
        Recover(Ground);
      } else {
        state := CsiIgnore;
      }
    }

    // ----- operating system commands -----

    method DispatchOsc() returns (events: seq<Event>)
      modifies this, csi
      ensures (View(), events) == EndOsc(old(View()))
    {
      events := if Hidden() then [] else OscEvents(oscBody);
      Recover(Ground);
    }

    method FeedOsc(b: Byte) returns (events: seq<Event>)
      modifies this, csi
      ensures (View(), events) == AnsiMachine.FeedOsc(old(View()), b)
    {
      events := [];
      if b == 0x07 {
        events := DispatchOsc();
      } else if b == 0x1B {
        state := OscEscPending;
      } else if b >= 0x20 {
        oscBody := oscBody + [b];
      }
    }

    // ----- bytes -----

    /** A sequence over its budget is waited out with nothing retained. */
    method GiveUp()
      modifies this, csi
      ensures View() == OverBudget(old(View()))
    {
      match state {
        case OscString => oscBody := [];
        case OscEscPending => oscBody := [];
        case Escape => escapeIntermediates := [];
        case EscapeIntermediate => escapeIntermediates := [];
        case CsiEntry => csi.Reset();
        case CsiParam => csi.Reset();
        case CsiIntermediate => csi.Reset();
        case _ =>
      }
      state, ignoreByteCount := IgnoreState(state), 0;
    }

    method FeedInState(b: Byte) returns (events: seq<Event>)
      requires !state.OscEscPending?
      modifies this, csi
      ensures (View(), events) == FeedState(old(View()), b)
    {
      events := [];
      match state {
        case Ground => events := FeedGround(b);
        case Escape => events := FeedEscape(b);
        case EscapeIntermediate => events := FeedEscapeIntermediate(b);
        case EscapeIgnore => if 0x30 <= b <= 0x7E { Recover(Ground); }
        case CsiEntry => events := FeedCsi(b);
        case CsiParam => events := FeedCsi(b);
        case CsiIntermediate => events := FeedCsi(b);
        case CsiIgnore => if 0x40 <= b <= 0x7E { Recover(Ground); }
        case OscString => events := FeedOsc(b);
        case OscIgnore => if b == 0x07 { Recover(Ground); }
        case _ =>
      }
    }

    method FeedByte(b: Byte) returns (events: seq<Event>)
      modifies this, csi
      ensures (View(), events) == AnsiMachine.FeedByte(old(View()), b)
      decreases state.OscEscPending?
    {
      if b == 0x1B && !state.OscString? && !state.OscEscPending? {
        events := FlushTextRun();
        Recover(Escape);
      } else if b == 0x18 || b == 0x1A {
        events := FlushTextRun();
        Recover(Ground);
      } else {
        var counts := !state.Ground? && !Ignoring(state);
        if counts {
          ignoreByteCount := ignoreByteCount + 1;
        }
        if counts && ignoreByteCount > limit {
          GiveUp();
          events := [];
        } else if !state.OscEscPending? {
          events := FeedInState(b);
        } else if b == 0x5C {
          events := DispatchOsc();
        } else {
          oscBody, ignoreByteCount, state := [], 0, Escape;
          events := FeedByte(b);
        }
      }
    }

    /** Feed bytes; the text they end in is shown, the start of a UTF-8 sequence kept. */
    method Feed(bytes: Bytes) returns (events: seq<Event>)
      modifies this, csi
      ensures (View(), events) == AnsiMachine.Feed(old(View()), bytes)
    {
      events := [];
      for i := 0 to |bytes|
        invariant (View(), events) == FeedBytes(old(View()), bytes[..i])
      {
        StepsSnoc(AnsiMachine.FeedByte, old(View()), bytes[..i], bytes[i]);
        assert bytes[..i + 1] == bytes[..i] + [bytes[i]];
        var more := FeedByte(bytes[i]);
        events := events + more;
      }
      assert bytes[..|bytes|] == bytes;
      ghost var before := events;
      if textRun != "" {
        if !Hidden() {
          events := events + [Text(textRun)];
        }
        textRun := "";
      }
      assert events == before + if Hidden() then [] else TextOf(FeedBytes(old(View()), bytes).0.run);
    }

    /** The stream ends: the parser is as it was made. */
    method Finish() returns (events: seq<Event>)
      modifies this, csi
      ensures (View(), events) == AnsiMachine.Finish(old(View()))
    {
      var flushed := FlushTextRun();
      var leave: seq<Event>, reset: seq<Event> := [], [];
      if profile.LineOriented? {
        if altScreenActive {
          altScreenActive, leave := false, [AlternateScreenExit];
        }
        if emittedStyle != Plain {
          reset := [SetStyle(Plain)];
        }
      }
      events := flushed + (leave + reset);
      assert events == AnsiMachine.Finish(old(View())).1;
      altScreenActive, currentStyle, emittedStyle := false, Plain, Plain;
      Recover(Ground);
    }
  }

  /** Switching screens reads nothing of the collector. */
  lemma {:induction false} SwitchAside(p: Parser, params: seq<Param>, on: bool)
    ensures var (p1, e1), (p2, e2) := SwitchScreens(p, params, on), SwitchScreens(p.(csi := NewCollector), params, on);
      e1 == e2 && p1.(csi := NewCollector) == p2.(csi := NewCollector)
  {
    if params != [] {
      SwitchAside(p, params[..|params| - 1], on);
    }
  }
}
