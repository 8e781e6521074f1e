/** A style printed as a control sequence and fed to the parser comes back, and a printed
    switch of the alternate screen is made. */
module AnsiSequences {
  import opened Options
  import opened Utf8
  import opened CsiParams
  import opened AnsiEvents
  import opened AnsiMachine
  import opened AnsiControls

  // ----- printed sequences -----

  const Sgr: Byte := 0x6D

  function Sequence(params: seq<Param>, final: Byte): Bytes {
    [Esc, Bracket] + Print(params) + [final]
  }

  ghost predicate Printable(params: seq<Param>) {
    params != [] && forall i :: 0 <= i < |params| ==> InRange(params[i])
  }

  /** Printed parameters are collected, after a marker or none. */
  lemma PrintedHeld(marker: Option<Byte>, params: seq<Param>)
    requires Printable(params) && (marker.Some? ==> IsMarker(marker.value))
    ensures var body := Lead(marker) + Print(params);
      NoFinal(body) && Formed(body) && Finalize(Gathered(body)) == params && Gathered(body).marker == marker
  {
    var body := Lead(marker) + Print(params);
    assert body == Body(marker, Print(params), []);
    assert NoFinal(body) && Formed(body);
    GatheredIs(marker, Print(params), []);
    CollectPrinted(params);
    FinalizeMarked(CollectAll(NewCollector, Print(params)), marker);
  }

  lemma FinalizeMarked(c: Collector, marker: Option<Byte>)
    ensures Finalize(c.(marker := marker, intermediates := [])) == Finalize(c)
  {
  }

  /** A style sequence within the budget sets the style its parameters spell, and leaves
      the parser on the ground. */
  lemma SgrRead(p: Parser, params: seq<Param>)
    requires p.state.Ground? && Printable(params) && |Print(params)| + 2 <= p.limit
    ensures var t := StyleFrom(p.current, params, 0, p.profile);
      FeedBytes(p, Sequence(params, Sgr)) ==
        (To(Flushed(p).(current := t, emitted := if Suppressed(p) then p.emitted else t), Ground),
         FlushEvents(p) + Visible(p, [SetStyle(t)]))
  {
    var q := AtFinal(p, Print(params));
    PrintedHeld(None, params);
    assert Lead(None) + Print(params) == Print(params);
    CsiRead(p, Print(params), Sgr);
    assert DispatchCsi(q, Sgr) == DispatchSgr(q, params);
  }

  // ----- the alternate screen -----

  /** The bytes that set a private mode, or reset it. */
  function Switch(params: seq<Param>, on: bool): Bytes {
    [Esc, Bracket] + ([PrivateMarker] + Print(params)) + [if on then 0x68 else 0x6C]
  }

  const PrivateMarker: Byte := 0x3F

  ghost predicate NamesScreen(params: seq<Param>) {
    exists x :: x in params && x.main == 1049
  }

  lemma {:induction false} SwitchesMade(p: Parser, params: seq<Param>, on: bool)
    ensures SwitchScreens(p, params, on).0.alt == if NamesScreen(params) then on else p.alt
  {
    if params != [] {
      var before, x := params[..|params| - 1], params[|params| - 1];
      assert params == before + [x];
      SwitchesMade(p, before, on);
      NamesMore(before, x);
    }
  }

  lemma NamesMore(params: seq<Param>, x: Param)
    ensures NamesScreen(params + [x]) <==> NamesScreen(params) || x.main == 1049
  {
    if NamesScreen(params) {
      var y :| y in params && y.main == 1049;
      assert y in params + [x];
    }
    assert x in params + [x];
  }

  /** A private mode sequence switches the alternate screen exactly when it names it and
      is within the limit; one byte over, it leaves the parser ignoring what comes after. */
  lemma SwitchRead(p: Parser, params: seq<Param>, on: bool)
    requires p.state.Ground? && p.profile.LineOriented? && p.limit >= 1 && Printable(params)
    ensures var q, n := FeedBytes(p, Switch(params, on)).0, |Print(params)| + 3;
      && q.alt == (if NamesScreen(params) && n <= p.limit then on else p.alt)
      && q.state == if p.limit + 1 == n then CsiIgnore else Ground
  {
    var body, final: Byte := [PrivateMarker] + Print(params), if on then 0x68 else 0x6C;
    PrintedHeld(Some(PrivateMarker), params);
    CsiRead(p, body, final);
    SwitchDispatched(AtFinal(p, body), params, on);
  }

  lemma SwitchDispatched(q: Parser, params: seq<Param>, on: bool)
    requires q.profile.LineOriented? && Finalize(q.csi) == params && q.csi.marker == Some(PrivateMarker)
    ensures DispatchCsi(q, if on then 0x68 else 0x6C).0.alt == if NamesScreen(params) then on else q.alt
  {
    SwitchesMade(q, params, on);
  }

  // ----- styles as parameters -----

  /** Subparameters after colons, parameters after semicolons, or the short codes of the
      first sixteen colours where there are any. */
  datatype Form = Colons | Semicolons | Short

  function Code(n: nat): Param {
    Param(n, [])
  }

  /** A colour for what `base` sets: 38 the text, 48 the ground, 58 the underline. */
  function ColorCodes(base: nat, c: Color, form: Form): seq<Param>
    requires base >= 38
  {
    match c
    case Default => [Code(base + 1)]
    case Indexed(n) =>
      if form.Short? && base < 58 && n < 8 then [Code(base - 8 + n)]
      else if form.Short? && base < 58 && n < 16 then [Code(base + 52 + n - 8)]
      else if form.Colons? then [Param(base, [5, n])]
      else [Code(base), Code(5), Code(n)]
    case Rgb(r, g, b) =>
      if form.Colons? then [Param(base, [2, 0, r, g, b])] else [Code(base), Code(2), Code(r), Code(g), Code(b)]
  }

  function LineCode(u: Underline): Param {
    match u
    case NoLine => Code(24)
    case Single => Param(4, [1])
    case Double => Param(4, [2])
    case Curly => Param(4, [3])
    case Dotted => Param(4, [4])
    case Dashed => Param(4, [5])
  }

  function ColorsOf(t: Style, form: Form): seq<Param> {
    ColorCodes(38, t.fg, form) + (ColorCodes(48, t.bg, form) + ColorCodes(58, t.underlineColor, form))
  }

  function FlagsThen(t: Style, rest: seq<Param>): (params: seq<Param>)
    ensures params != []
  {
    [Code(if t.bold then 1 else 22)]
    + ([Code(if t.italic then 3 else 23)] + ([LineCode(t.underline)] + ([Code(if t.reverse then 7 else 27)] + rest)))
  }

  /** Every attribute of a style, said outright. */
  function Codes(t: Style, form: Form): (params: seq<Param>)
    ensures params != []
  {
    FlagsThen(t, ColorsOf(t, form))
  }

  function WithColor(s: Style, base: nat, c: Color): Style {
    if base == 38 then s.(fg := c) else if base == 48 then s.(bg := c) else s.(underlineColor := c)
  }

  /** A walk over parameters, each step taking some of those after it too. */
  function Walk<S>(step: (S, Param, seq<Param>) -> (S, nat), s: S, params: seq<Param>, i: nat): S
    requires i <= |params|
    decreases |params| - i
  {
    if i == |params| then s
    else
      var (s', extra) := step(s, params[i], params[i + 1..]);
      Walk(step, s', params, Least(i + 1 + extra, |params|))
  }

  function Least(a: nat, b: nat): nat {
    if a <= b then a else b
  }

  /** A walk from a parameter on is decided by the parameters from there. */
  lemma {:induction false} WalkShift<S>(step: (S, Param, seq<Param>) -> (S, nat), s: S, params: seq<Param>, k: nat,
                                        i: nat)
    requires k <= i <= |params|
    ensures Walk(step, s, params, i) == Walk(step, s, params[k..], i - k)
    decreases |params| - i
  {
    if i < |params| {
      assert params[k..][i - k] == params[i] && params[k..][i - k + 1..] == params[i + 1..];
      var (s', extra) := step(s, params[i], params[i + 1..]);
      WalkShift(step, s', params, k, Least(i + 1 + extra, |params|));
    }
  }

  function Stepper(profile: Profile): (Style, Param, seq<Param>) -> (Style, nat) {
    (s: Style, p: Param, rest: seq<Param>) => StyleOne(s, p, rest, profile)
  }

  lemma {:induction false} StyleWalks(s: Style, params: seq<Param>, i: nat, profile: Profile)
    requires i <= |params|
    ensures StyleFrom(s, params, i, profile) == Walk(Stepper(profile), s, params, i)
    decreases |params| - i
  {
    if i < |params| {
      var r := StyleOne(s, params[i], params[i + 1..], profile);
      StyleWalks(r.0, params, i + 1 + r.1, profile);
    }
  }

  lemma StyleShift(s: Style, params: seq<Param>, k: nat, profile: Profile)
    requires k <= |params|
    ensures StyleFrom(s, params, k, profile) == StyleFrom(s, params[k..], 0, profile)
  {
    StyleWalks(s, params, k, profile);
    StyleWalks(s, params[k..], 0, profile);
    WalkShift(Stepper(profile), s, params, k, k);
  }

  lemma StyleUnfolds(s: Style, params: seq<Param>, profile: Profile, p: Param, rest: seq<Param>, s': Style, extra: nat)
    requires params == [p] + rest && StyleOne(s, p, rest, profile) == (s', extra)
    ensures 1 + extra <= |params| && StyleFrom(s, params, 0, profile) == StyleFrom(s', params, 1 + extra, profile)
  {
    assert params[1..] == rest;
  }

  lemma StyleHead(s: Style, p: Param, rest: seq<Param>, profile: Profile, s': Style, extra: nat)
    requires StyleOne(s, p, rest, profile) == (s', extra)
    ensures extra <= |rest| && StyleFrom(s, [p] + rest, 0, profile) == StyleFrom(s', rest[extra..], 0, profile)
  {
    var params := [p] + rest;
    StyleUnfolds(s, params, profile, p, rest, s', extra);
    assert params[1 + extra..] == rest[extra..];
    StyleShift(s', params, 1 + extra, profile);
  }

  /** A colour's parameters set that colour, and take no more than their own. */
  lemma ColorRead(s: Style, base: nat, c: Color, form: Form, rest: seq<Param>, profile: Profile)
    requires base == 38 || base == 48 || base == 58
    ensures StyleFrom(s, ColorCodes(base, c, form) + rest, 0, profile) == StyleFrom(WithColor(s, base, c), rest, 0,
        profile)
  {
    var codes := ColorCodes(base, c, form);
    var more := codes[1..] + rest;
    assert codes + rest == [codes[0]] + more && more[|codes| - 1..] == rest;
    assert StyleOne(s, codes[0], more, profile) == (WithColor(s, base, c), |codes| - 1) by {
      ColorTaken(s, base, c, form, codes, more, profile);
    }
    StyleHead(s, codes[0], more, profile, WithColor(s, base, c), |codes| - 1);
  }

  lemma ColorTaken(s: Style, base: nat, c: Color, form: Form, codes: seq<Param>, more: seq<Param>, profile: Profile)
    requires (base == 38 || base == 48 || base == 58) && codes == ColorCodes(base, c, form) && codes[1..] <= more
    ensures StyleOne(s, codes[0], more, profile) == (WithColor(s, base, c), |codes| - 1)
  {
    if |codes| > 1 {
      assert more[0] == codes[1..][0] && more[1] == codes[1..][1];
      if |codes| > 3 {
        assert more[2] == codes[1..][2] && more[3] == codes[1..][3];
      }
      assert ExtendedColor(codes[0], more) == Some((c, |codes| - 1));
    } else if codes[0].sub != [] {
      assert ExtendedColor(codes[0], more) == Some((c, 0));
    }
  }

  lemma InOneRead(s: Style, p: Param, rest: seq<Param>, profile: Profile, t: Style)
    requires StyleOne(s, p, rest, profile) == (t, 0)
    ensures StyleFrom(s, [p] + rest, 0, profile) == StyleFrom(t, rest, 0, profile)
  {
    StyleHead(s, p, rest, profile, t, 0);
    assert rest[0..] == rest;
  }

  /** A style's parameters, whichever form they take, give that style from any other. */
  lemma CodesRead(s: Style, t: Style, form: Form, profile: Profile)
    ensures StyleFrom(s, Codes(t, form), 0, profile) == t
  {
    var s' := s.(bold := t.bold, italic := t.italic, underline := t.underline, reverse := t.reverse);
    FlagsRead(s, t, ColorsOf(t, form), profile);
    ColorsRead(s', t, form, profile);
  }

  lemma BoldRead(s: Style, on: bool, rest: seq<Param>, profile: Profile)
    ensures StyleFrom(s, [Code(if on then 1 else 22)] + rest, 0, profile) == StyleFrom(s.(bold := on), rest, 0, profile)
  {
    InOneRead(s, Code(if on then 1 else 22), rest, profile, s.(bold := on));
  }

  lemma ItalicRead(s: Style, on: bool, rest: seq<Param>, profile: Profile)
    ensures StyleFrom(s, [Code(if on then 3 else 23)] + rest, 0, profile) == StyleFrom(s.(italic := on), rest, 0,
        profile)
  {
    InOneRead(s, Code(if on then 3 else 23), rest, profile, s.(italic := on));
  }

  lemma LineRead(s: Style, u: Underline, rest: seq<Param>, profile: Profile)
    ensures StyleFrom(s, [LineCode(u)] + rest, 0, profile) == StyleFrom(s.(underline := u), rest, 0, profile)
  {
    InOneRead(s, LineCode(u), rest, profile, s.(underline := u));
  }

  lemma ReverseRead(s: Style, on: bool, rest: seq<Param>, profile: Profile)
    ensures StyleFrom(s, [Code(if on then 7 else 27)] + rest, 0, profile) == StyleFrom(s.(reverse := on), rest, 0,
        profile)
  {
    InOneRead(s, Code(if on then 7 else 27), rest, profile, s.(reverse := on));
  }

  lemma FlagsRead(s: Style, t: Style, rest: seq<Param>, profile: Profile)
    ensures StyleFrom(s, FlagsThen(t, rest), 0, profile) ==
      StyleFrom(s.(bold := t.bold, italic := t.italic, underline := t.underline, reverse := t.reverse), rest, 0,
                profile)
  {
    var reverse := [Code(if t.reverse then 7 else 27)] + rest;
    var line := [LineCode(t.underline)] + reverse;
    var s2 := s.(bold := t.bold, italic := t.italic);
    BoldRead(s, t.bold, [Code(if t.italic then 3 else 23)] + line, profile);
    ItalicRead(s.(bold := t.bold), t.italic, line, profile);
    LineRead(s2, t.underline, reverse, profile);
    ReverseRead(s2.(underline := t.underline), t.reverse, rest, profile);
  }

  lemma ColorsRead(s: Style, t: Style, form: Form, profile: Profile)
    ensures StyleFrom(s, ColorsOf(t, form), 0, profile) == s.(fg := t.fg, bg := t.bg,
                                                              underlineColor := t.underlineColor)
  {
    var lines := ColorCodes(58, t.underlineColor, form);
    var grounds := ColorCodes(48, t.bg, form) + lines;
    ColorRead(s, 38, t.fg, form, grounds, profile);
    ColorRead(s.(fg := t.fg), 48, t.bg, form, lines, profile);
    assert lines + [] == lines;
    ColorRead(s.(fg := t.fg, bg := t.bg), 58, t.underlineColor, form, [], profile);
  }

  lemma ColorPrintable(base: nat, c: Color, form: Form)
    requires base == 38 || base == 48 || base == 58
    ensures forall x :: x in ColorCodes(base, c, form) ==> InRange(x)
  {
  }

  lemma CodesPrintable(t: Style, form: Form)
    ensures Printable(Codes(t, form))
  {
    ColorPrintable(38, t.fg, form);
    ColorPrintable(48, t.bg, form);
    ColorPrintable(58, t.underlineColor, form);
    var codes := Codes(t, form);
    assert forall x :: x in ColorsOf(t, form) ==> InRange(x);
    assert forall x :: x in codes ==> InRange(x);
    forall i | 0 <= i < |codes| ensures InRange(codes[i]) {
      assert codes[i] in codes;
    }
  }

  /** Printed and fed to a parser, a style comes back: the consumer is given exactly it,
      or on a hidden alternate screen it runs on unseen. */
  lemma StyleComesBack(p: Parser, t: Style, form: Form)
    requires p.state.Ground? && |Print(Codes(t, form))| + 2 <= p.limit
    ensures FeedBytes(p, Sequence(Codes(t, form), Sgr)) ==
      (To(Flushed(p).(current := t, emitted := if Suppressed(p) then p.emitted else t), Ground),
       FlushEvents(p) + Visible(p, [SetStyle(t)]))
  {
    CodesPrintable(t, form);
    SgrRead(p, Codes(t, form));
    CodesRead(p.current, t, form, p.profile);
  }

  /** A lone zero, or nothing, is the plain style. */
  lemma ResetRead(s: Style, rest: seq<Param>, profile: Profile)
    ensures StyleFrom(s, [Code(0)] + rest, 0, profile) == StyleFrom(Plain, rest, 0, profile)
  {
    InOneRead(s, Code(0), rest, profile, Plain);
  }
}
