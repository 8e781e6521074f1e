/** Control sequences and escape sequences read whole, whatever their bytes and whatever
    the limit (src/ansi.rs; section 5.4 of ECMA-48). */
module AnsiControls {
  import opened Options
  import opened Utf8
  import opened CsiParams
  import opened AnsiEvents
  import opened AnsiMachine
  import opened ByteSteps

  const Esc: Byte := 0x1B
  const Bracket: Byte := 0x5B
  const Cancel: Byte := 0x18
  const Substitute: Byte := 0x1A

  predicate Interrupts(b: Byte) {
    b == Esc || b == Cancel || b == Substitute
  }

  predicate IsIntermediate(b: Byte) {
    0x20 <= b <= 0x2F
  }

  // ----- bytes that show nothing -----

  /** One more byte that shows nothing. */
  lemma Silent(p: Parser, s: Bytes, p1: Parser, e: seq<Event>, b: Byte, p2: Parser)
    requires FeedBytes(p, s) == (p1, e) && FeedByte(p1, b) == (p2, [])
    ensures FeedBytes(p, s + [b]) == (p2, e)
  {
    StepsSnoc(FeedByte, p, s, b);
    assert e + [] == e;
  }

  /** More bytes that show nothing. */
  lemma SilentAll(p: Parser, s: Bytes, p1: Parser, e: seq<Event>, u: Bytes, p2: Parser)
    requires FeedBytes(p, s) == (p1, e) && FeedBytes(p1, u) == (p2, [])
    ensures FeedBytes(p, s + u) == (p2, e)
  {
    StepsAppend(FeedByte, p, s, u);
    assert e + [] == e;
  }

  /** An ESC on the ground commits the text before it. */
  lemma EscBegins(p: Parser)
    requires p.state.Ground?
    ensures FeedBytes(p, [Esc]) == (To(Flushed(p), Escape), FlushEvents(p))
  {
    assert [Esc] == [] + [Esc] && [] + FlushEvents(p) == FlushEvents(p);
    StepsSnoc(FeedByte, p, [], Esc);
  }

  lemma Opens(p: Parser)
    requires p.state.Ground? && p.limit >= 1
    ensures FeedBytes(p, [Esc, Bracket]) == (To(Flushed(p), CsiEntry).(count := 1), FlushEvents(p))
  {
    EscBegins(p);
    assert FeedByte(To(Flushed(p), Escape), Bracket) == (To(Flushed(p), CsiEntry).(count := 1), []);
    Silent(p, [Esc], To(Flushed(p), Escape), FlushEvents(p), Bracket, To(Flushed(p), CsiEntry).(count := 1));
    assert [Esc, Bracket] == [Esc] + [Bracket];
  }

  // ----- what a control sequence may hold -----

  predicate IsFinal(b: Byte) {
    0x40 <= b <= 0x7E
  }

  predicate IsMarker(b: Byte) {
    0x3C <= b <= 0x3F
  }

  /** Nothing ends the sequence. */
  ghost predicate NoFinal(s: Bytes) {
    forall i :: 0 <= i < |s| ==> !IsFinal(s[i]) && !Interrupts(s[i])
  }

  /** Parameter bytes, after a private marker or none, and then intermediate bytes. */
  ghost predicate Formed(s: Bytes) {
    && (forall i :: 0 <= i < |s| ==> IsParam(s[i]) || IsIntermediate(s[i]) || (i == 0 && IsMarker(s[i])))
    && forall i, j :: 0 <= i < j < |s| && IsIntermediate(s[i]) ==> IsIntermediate(s[j])
  }

  /** The byte may come next. */
  predicate Fits(state: State, b: Byte) {
    (IsParam(b) && !state.CsiIntermediate?) || IsIntermediate(b) || (state.CsiEntry? && IsMarker(b))
  }

  function Phase(s: Bytes): State {
    if s == [] then CsiEntry else if IsIntermediate(s[|s| - 1]) then CsiIntermediate else CsiParam
  }

  lemma FormedBefore(s: Bytes, b: Byte)
    requires Formed(s + [b])
    ensures Formed(s) && Fits(Phase(s), b)
  {
    var t := s + [b];
    assert t[|s|] == b && forall i :: 0 <= i < |s| ==> t[i] == s[i];
    if s != [] && IsIntermediate(s[|s| - 1]) {
      assert IsIntermediate(t[|s| - 1]);
    }
  }

  lemma FormedSnoc(s: Bytes, b: Byte)
    ensures Formed(s + [b]) <==> Formed(s) && Fits(Phase(s), b)
  {
    var t := s + [b];
    assert t[|s|] == b && forall i :: 0 <= i < |s| ==> t[i] == s[i];
    if Formed(t) {
      FormedBefore(s, b);
    }
  }

  function Gather(c: Collector, b: Byte): Collector {
    if IsParam(b) then Collect(c, b)
    else if IsMarker(b) then c.(marker := Some(b))
    else c.(intermediates := c.intermediates + [b])
  }

  /** What a sequence's bytes have collected. */
  function Gathered(s: Bytes): Collector {
    if s == [] then NewCollector else Gather(Gathered(s[..|s| - 1]), s[|s| - 1])
  }

  function Lead(marker: Option<Byte>): Bytes {
    if marker.None? then [] else [marker.value]
  }

  /** The parts of a control sequence, in their order. */
  function Body(marker: Option<Byte>, params: Bytes, between: Bytes): Bytes {
    Lead(marker) + params + between
  }

  ghost predicate Parts(marker: Option<Byte>, params: Bytes, between: Bytes) {
    && (marker.Some? ==> IsMarker(marker.value)) && AllParam(params)
    && forall i :: 0 <= i < |between| ==> IsIntermediate(between[i])
  }

  /** One more byte that may come next. */
  lemma GatherMore(s: Bytes, b: Byte)
    requires Formed(s) && Fits(Phase(s), b)
    ensures Formed(s + [b]) && Gathered(s + [b]) == Gather(Gathered(s), b)
    ensures Phase(s + [b]) == if IsIntermediate(b) then CsiIntermediate else CsiParam
  {
    FormedSnoc(s, b);
    assert (s + [b])[..|s|] == s;
  }

  lemma CollectSnoc(s: Bytes, b: Byte)
    requires AllParam(s) && IsParam(b)
    ensures AllParam(s + [b]) && CollectAll(NewCollector, s + [b]) == Collect(CollectAll(NewCollector, s), b)
  {
    CollectAppend(NewCollector, s, [b]);
    CollectOne(CollectAll(NewCollector, s), b);
  }

  lemma GatheredLead(marker: Option<Byte>)
    requires marker.Some? ==> IsMarker(marker.value)
    ensures var body := Lead(marker);
      Formed(body) && !Phase(body).CsiIntermediate? && Gathered(body) == NewCollector.(marker := marker)
  {
    if marker.Some? {
      GatherMore([], marker.value);
      assert [] + [marker.value] == [marker.value];
    }
  }

  lemma GatherMarked(c: Collector, marker: Option<Byte>, b: Byte)
    requires IsParam(b)
    ensures Gather(c.(marker := marker), b) == Collect(c, b).(marker := marker)
  {
  }

  lemma GatheredParam(marker: Option<Byte>, params: Bytes, b: Byte, s: Bytes)
    requires AllParam(params) && IsParam(b) && Formed(s) && !Phase(s).CsiIntermediate?
      && Gathered(s) == CollectAll(NewCollector, params).(marker := marker)
    ensures AllParam(params + [b]) && Formed(s + [b]) && !Phase(s + [b]).CsiIntermediate?
      && Gathered(s + [b]) == CollectAll(NewCollector, params + [b]).(marker := marker)
  {
    GatherMore(s, b);
    CollectSnoc(params, b);
    GatherMarked(CollectAll(NewCollector, params), marker, b);
  }

  lemma {:induction false} GatheredParams(marker: Option<Byte>, params: Bytes)
    requires Parts(marker, params, [])
    ensures var body := Lead(marker) + params;
      Formed(body) && !Phase(body).CsiIntermediate?
      && Gathered(body) == CollectAll(NewCollector, params).(marker := marker)
  {
    if params == [] {
      assert Lead(marker) + params == Lead(marker);
      GatheredLead(marker);
    } else {
      var before, b := params[..|params| - 1], params[|params| - 1];
      assert Lead(marker) + params == Lead(marker) + before + [b] && params == before + [b];
      GatheredParams(marker, before);
      GatheredParam(marker, before, b, Lead(marker) + before);
    }
  }

  /** What is collected is the marker, the parameters read one by one, and the
      intermediates. */
  lemma {:induction false} GatheredIs(marker: Option<Byte>, params: Bytes, between: Bytes)
    requires Parts(marker, params, between)
    ensures var body := Body(marker, params, between);
      Formed(body) && Gathered(body) == CollectAll(NewCollector, params).(marker := marker, intermediates := between)
  {
    if between == [] {
      CollectAside(NewCollector, params);
      GatheredParams(marker, params);
      assert Body(marker, params, between) == Lead(marker) + params;
    } else {
      var before, b := between[..|between| - 1], between[|between| - 1];
      assert Body(marker, params, between) == Body(marker, params, before) + [b] && between == before + [b];
      GatheredIs(marker, params, before);
      GatherMore(Body(marker, params, before), b);
    }
  }

  lemma {:induction false} CollectAside(c: Collector, s: Bytes)
    requires AllParam(s)
    ensures CollectAll(c, s).marker == c.marker && CollectAll(c, s).intermediates == c.intermediates
    decreases |s|
  {
    if s != [] {
      CollectAside(Collect(c, s[0]), s[1..]);
    }
  }

  /** And every well-formed sequence has such parts. */
  lemma FormedSplits(s: Bytes) returns (marker: Option<Byte>, params: Bytes, between: Bytes)
    requires Formed(s)
    ensures Parts(marker, params, between) && s == Body(marker, params, between)
  {
    marker := if s != [] && IsMarker(s[0]) then Some(s[0]) else None;
    var m := |Lead(marker)|;
    var n := m;
    while n < |s| && IsParam(s[n])
      invariant m <= n <= |s| && forall i :: m <= i < n ==> IsParam(s[i])
    {
      n := n + 1;
    }
    params, between := s[m..n], s[n..];
    if n < |s| {
      assert IsIntermediate(s[n]);
    }
  }

  // ----- a control sequence, read whole -----

  /** The parser within its budget, `s` collected. */
  function Holding(p: Parser, s: Bytes): Parser {
    p.(csi := Gathered(s), count := p.count + |s|, state := Phase(s))
  }

  /** The sequence is given up: nothing of it is left but that it is waited out. */
  ghost predicate GivenUp(p: Parser, q: Parser) {
    q.state.CsiIgnore? && To(q, Ground) == To(p, Ground)
  }

  /** The parser once it has met a byte that does not end the sequence. */
  function Taken(p: Parser, b: Byte): Parser {
    if p.count >= p.limit then p.(csi := NewCollector, count := 0, state := CsiIgnore)
    else if Fits(p.state, b) then
      p.(csi := Gather(p.csi, b), count := p.count + 1,
         state := if IsIntermediate(b) then CsiIntermediate else CsiParam)
    else p.(count := p.count + 1, state := CsiIgnore)
  }

  lemma TakesByte(p: Parser, b: Byte)
    requires (p.state.CsiEntry? || p.state.CsiParam? || p.state.CsiIntermediate?) && !IsFinal(b) && !Interrupts(b)
    ensures FeedByte(p, b) == (Taken(p, b), [])
  {
    if p.count < p.limit {
      assert FeedByte(p, b) == FeedCsi(p.(count := p.count + 1), b);
    }
  }

  lemma HeldByte(p: Parser, s: Bytes, b: Byte)
    ensures var q := Taken(Holding(p, s), b);
      if Fits(Phase(s), b) && p.count + |s| < p.limit then q == Holding(p, s + [b]) else GivenUp(p, q)
  {
    assert (s + [b])[..|s|] == s;
  }

  lemma GivenUpByte(p: Parser, q: Parser, b: Byte)
    requires GivenUp(p, q) && !IsFinal(b) && !Interrupts(b)
    ensures FeedByte(q, b) == (q, [])
  {
  }

  /** A sequence within the budget is held; any other is given up. */
  lemma {:induction false} BodyHeld(p: Parser, s: Bytes)
    requires p.state.CsiEntry? && p.csi == NewCollector && p.count <= p.limit && NoFinal(s)
    ensures var r := FeedBytes(p, s);
      r.1 == [] && if Formed(s) && p.count + |s| <= p.limit then r.0 == Holding(p, s) else GivenUp(p, r.0)
  {
    if s != [] {
      var before, b := s[..|s| - 1], s[|s| - 1];
      assert s == before + [b];
      BodyHeld(p, before);
      FormedSnoc(before, b);
      var q := FeedBytes(p, before).0;
      if Formed(before) && p.count + |before| <= p.limit {
        TakesByte(q, b);
        HeldByte(p, before, b);
      } else {
        GivenUpByte(p, q, b);
      }
      Silent(p, before, q, [], b, FeedByte(q, b).0);
    }
  }

  /** The parser as a sequence meets its final byte. */
  function AtFinal(p: Parser, body: Bytes): Parser {
    Holding(To(Flushed(p), CsiEntry).(count := 2), body)
  }

  lemma HeldEnds(p: Parser, body: Bytes, final: Byte)
    requires IsFinal(final)
    ensures var h := Holding(To(Flushed(p), CsiEntry).(count := 1), body);
      FeedByte(h, final) == if |body| + 2 <= p.limit then EndCsi(AtFinal(p, body), final)
                            else (To(Flushed(p), CsiIgnore), [])
  {
  }

  lemma GivenUpEnds(p: Parser, q: Parser, final: Byte)
    requires GivenUp(p, q) && IsFinal(final)
    ensures FeedByte(q, final) == (To(p, Ground), [])
  {
  }

  /** A control sequence from the ground, whatever it holds. Within the limit and well
      formed it is dispatched on what it holds; else it does nothing but commit the text
      before it. It ends at its final byte, unless that is the one byte over the limit. */
  lemma CsiRead(p: Parser, body: Bytes, final: Byte)
    requires p.state.Ground? && p.limit >= 1 && NoFinal(body) && IsFinal(final)
    ensures FeedBytes(p, [Esc, Bracket] + body + [final]) ==
      if Formed(body) && |body| + 2 <= p.limit then
        var r := DispatchCsi(AtFinal(p, body), final);
        (To(r.0, Ground), FlushEvents(p) + r.1)
      else
        (To(Flushed(p), if Formed(body) && p.limit == |body| + 1 then CsiIgnore else Ground), FlushEvents(p))
  {
    var p1 := To(Flushed(p), CsiEntry).(count := 1);
    Opens(p);
    BodyHeld(p1, body);
    var q := FeedBytes(p1, body).0;
    SilentAll(p, [Esc, Bracket], p1, FlushEvents(p), body, q);
    StepsSnoc(FeedByte, p, [Esc, Bracket] + body, final);
    assert FlushEvents(p) + [] == FlushEvents(p);
    if Formed(body) && |body| + 1 <= p.limit {
      HeldEnds(p, body, final);
    } else {
      GivenUpEnds(p1, q, final);
    }
  }

  // ----- an escape sequence, read whole -----

  predicate EndsEscape(b: Byte) {
    0x30 <= b <= 0x7E
  }

  /** It opens a string or a control sequence. */
  predicate OpensString(b: Byte) {
    b == Bracket || b == 0x5D || b == 0x50 || b == 0x58 || b == 0x5E || b == 0x5F
  }

  ghost predicate NoEscapeEnd(s: Bytes) {
    forall i :: 0 <= i < |s| ==> !EndsEscape(s[i]) && !Interrupts(s[i])
  }

  /** The intermediate bytes among others. */
  function Between(s: Bytes): Bytes {
    if s == [] then []
    else Between(s[..|s| - 1]) + if IsIntermediate(s[|s| - 1]) then [s[|s| - 1]] else []
  }

  lemma BetweenMore(s: Bytes, b: Byte)
    ensures Between(s + [b]) == if IsIntermediate(b) then Between(s) + [b] else Between(s)
  {
    assert (s + [b])[..|s|] == s;
    assert Between(s) + [] == Between(s);
  }

  function EscapeHolding(p: Parser, s: Bytes): Parser {
    p.(escape := Between(s), count := |s|, state := if Between(s) == [] then Escape else EscapeIntermediate)
  }

  /** A byte of an escape sequence, other than one that ends it. */
  lemma EscapeStep(p: Parser, b: Byte)
    requires (p.state.Escape? || p.state.EscapeIntermediate?) && !EndsEscape(b) && !Interrupts(b)
    ensures FeedByte(p, b) ==
      (if p.count >= p.limit then p.(escape := [], count := 0, state := EscapeIgnore)
       else if IsIntermediate(b) then p.(escape := p.escape + [b], count := p.count + 1, state := EscapeIntermediate)
       else p.(count := p.count + 1), [])
  {
  }

  lemma EscapeByte(p: Parser, s: Bytes, b: Byte)
    requires !EndsEscape(b) && !Interrupts(b)
    ensures FeedByte(EscapeHolding(p, s), b) == if |s| < p.limit then (EscapeHolding(p, s + [b]), [])
      else (p.(escape := [], count := 0, state := EscapeIgnore), [])
  {
    BetweenMore(s, b);
    EscapeStep(EscapeHolding(p, s), b);
  }

  lemma {:induction false} EscapeHeld(p: Parser, s: Bytes)
    requires p == To(p, Escape) && NoEscapeEnd(s)
    ensures FeedBytes(p, s) == (if |s| <= p.limit then EscapeHolding(p, s) else To(p, EscapeIgnore), [])
  {
    if s != [] {
      var before, b := s[..|s| - 1], s[|s| - 1];
      assert s == before + [b];
      EscapeHeld(p, before);
      EscapeByte(p, before, b);
      Silent(p, before, FeedBytes(p, before).0, [], b, if |s| <= p.limit then EscapeHolding(p, s)
             else To(p, EscapeIgnore));
    }
  }

  /** What an escape sequence shows: one operation of a full screen, or nothing. */
  function EscapeShown(profile: Profile, between: Bytes, final: Byte): seq<Event> {
    if profile.LineOriented? then []
    else if between != [] then Designation(between, final)
    else if EscapeEvent(final).Some? then [EscapeEvent(final).value]
    else []
  }

  lemma EscapeWaitEnds(p: Parser, final: Byte)
    requires p.state.EscapeIgnore? && EndsEscape(final)
    ensures FeedByte(p, final) == (To(p, Ground), [])
  {
  }

  lemma EscapeEnds(p: Parser, body: Bytes, final: Byte)
    requires p == To(p, Escape) && EndsEscape(final)
    requires Between(body) == [] && |body| < p.limit ==> !OpensString(final)
    ensures FeedByte(EscapeHolding(p, body), final) == if |body| < p.limit then
      (To(p, Ground), EscapeShown(p.profile, Between(body), final)) else (To(p, EscapeIgnore), [])
  {
  }

  /** An escape sequence from the ground, likewise: within the limit it shows what its
      intermediate bytes and its last byte say, and it ends there unless that is the one
      byte over the limit. */
  lemma EscRead(p: Parser, body: Bytes, final: Byte)
    requires p.state.Ground? && NoEscapeEnd(body) && EndsEscape(final)
    requires Between(body) == [] && |body| < p.limit ==> !OpensString(final)
    ensures FeedBytes(p, [Esc] + body + [final]) ==
      if |body| < p.limit then (To(Flushed(p), Ground),
                                FlushEvents(p) + EscapeShown(p.profile, Between(body), final))
      else (To(Flushed(p), if p.limit == |body| then EscapeIgnore else Ground), FlushEvents(p))
  {
    var p1 := To(Flushed(p), Escape);
    EscBegins(p);
    EscapeHeld(p1, body);
    var q := FeedBytes(p1, body).0;
    SilentAll(p, [Esc], p1, FlushEvents(p), body, q);
    assert FeedByte(q, final) == if |body| < p.limit then (To(p1, Ground), EscapeShown(p.profile, Between(body), final))
        else (To(p1, if p.limit == |body| then EscapeIgnore else Ground), []) by {
      if |body| <= p.limit {
        EscapeEnds(p1, body, final);
      } else {
        EscapeWaitEnds(q, final);
      }
    }
    StepsSnoc(FeedByte, p, [Esc] + body, final);
    assert FlushEvents(p) + [] == FlushEvents(p);
  }
}
