/** Control strings longer than the byte limit: they are dropped, and what ends one is
    lost with it when it is the one byte too many. */
module AnsiOverruns {
  import opened Utf8
  import opened CsiParams
  import opened AnsiEvents
  import opened AnsiMachine
  import opened ByteSteps
  import opened AnsiControls

  const Bel: Byte := 0x07
  const OpenOsc: Byte := 0x5D
  const Backslash: Byte := 0x5C

  // ----- waiting a sequence out -----

  /** Whatever comes before a final byte is swallowed. */
  lemma {:induction false} WaitedOut(p: Parser, s: Bytes)
    requires p.state.CsiIgnore? && NoFinal(s)
    ensures FeedBytes(p, s) == (p, [])
  {
    if s != [] {
      var before, b := s[..|s| - 1], s[|s| - 1];
      assert s == before + [b];
      WaitedOut(p, before);
      assert FeedByte(p, b) == (p, []);
      Silent(p, before, p, [], b, p);
    }
  }

  lemma IgnoredEnds(p: Parser, final: Byte)
    requires p.state.CsiIgnore? && IsFinal(final)
    ensures FeedByte(p, final) == (To(p, Ground), [])
  {
  }

  /** A parser that ignores a sequence shows nothing up to the next final byte, and with
      it is on the ground. */
  lemma Swallows(p: Parser, s: Bytes, final: Byte)
    requires p.state.CsiIgnore? && NoFinal(s) && IsFinal(final)
    ensures FeedBytes(p, s) == (p, []) && FeedBytes(p, s + [final]) == (To(p, Ground), [])
  {
    WaitedOut(p, s);
    IgnoredEnds(p, final);
    Silent(p, s, p, [], final, To(p, Ground));
  }

  /** The text after a control sequence whose final byte is the one over the limit is
      lost, up to the next byte that could end a sequence, and that byte with it. */
  lemma TextAfterIsLost(p: Parser, body: Bytes, final: Byte, text: Bytes, next: Byte)
    requires p.state.Ground? && Formed(body) && IsFinal(final) && p.limit == |body| + 1 && NoFinal(text)
      && IsFinal(next)
    ensures FeedBytes(p, [Esc, Bracket] + body + [final] + (text + [next])) == (To(Flushed(p), Ground), FlushEvents(p))
  {
    var q := To(Flushed(p), CsiIgnore);
    CsiRead(p, body, final);
    Swallows(q, text, next);
    SilentAll(p, [Esc, Bracket] + body + [final], q, FlushEvents(p), text + [next], To(q, Ground));
  }

  // ----- waiting an escape sequence out -----

  lemma {:induction false} EscapeWaitedOut(p: Parser, s: Bytes)
    requires p.state.EscapeIgnore? && NoEscapeEnd(s)
    ensures FeedBytes(p, s) == (p, [])
  {
    if s != [] {
      var before, b := s[..|s| - 1], s[|s| - 1];
      assert s == before + [b];
      EscapeWaitedOut(p, before);
      assert FeedByte(p, b) == (p, []);
      Silent(p, before, p, [], b, p);
    }
  }

  /** Likewise for an escape sequence, whose text is lost up to the next byte that could
      end one. */
  lemma TextAfterEscapeIsLost(p: Parser, body: Bytes, final: Byte, text: Bytes, next: Byte)
    requires p.state.Ground? && NoEscapeEnd(body) && EndsEscape(final) && p.limit == |body| && NoEscapeEnd(text)
      && EndsEscape(next)
    ensures FeedBytes(p, [Esc] + body + [final] + (text + [next])) == (To(Flushed(p), Ground), FlushEvents(p))
  {
    var q := To(Flushed(p), EscapeIgnore);
    EscRead(p, body, final);
    EscapeWaitedOut(q, text);
    EscapeWaitEnds(q, next);
    Silent(q, text, q, [], next, To(q, Ground));
    SilentAll(p, [Esc] + body + [final], q, FlushEvents(p), text + [next], To(q, Ground));
  }

  // ----- operating system commands -----

  /** Nothing ends the command. */
  ghost predicate NoBel(s: Bytes) {
    forall i :: 0 <= i < |s| ==> s[i] != Bel && !Interrupts(s[i])
  }

  /** What is kept of a command: all but control bytes. */
  function Kept(s: Bytes): Bytes {
    if s == [] then [] else Kept(s[..|s| - 1]) + if s[|s| - 1] >= 0x20 then [s[|s| - 1]] else []
  }

  lemma OpensOsc(p: Parser)
    requires p.state.Ground? && p.limit >= 1
    ensures FeedBytes(p, [Esc, OpenOsc]) == (To(Flushed(p), OscString).(count := 1), FlushEvents(p))
  {
    var p1, p2 := To(Flushed(p), Escape), To(Flushed(p), OscString).(count := 1);
    EscBegins(p);
    assert FeedByte(p1, OpenOsc) == (p2, []);
    assert [Esc, OpenOsc] == [Esc] + [OpenOsc];
    Silent(p, [Esc], p1, FlushEvents(p), OpenOsc, p2);
  }

  /** The parser within its budget, the command's bytes kept. */
  function Gathering(p: Parser, s: Bytes): Parser {
    p.(osc := p.osc + Kept(s), count := p.count + |s|)
  }

  lemma GathersByte(p: Parser, s: Bytes, b: Byte)
    requires p.state.OscString? && b != Bel && !Interrupts(b) && p.count + |s| < p.limit
    ensures FeedByte(Gathering(p, s), b) == (Gathering(p, s + [b]), [])
  {
    assert (s + [b])[..|s|] == s && p.osc + (Kept(s) + [b]) == p.osc + Kept(s) + [b] && Kept(s) + [] == Kept(s);
  }

  /** Within its budget a command's body is kept. */
  lemma {:induction false} Gathers(p: Parser, s: Bytes)
    requires p.state.OscString? && NoBel(s) && p.count + |s| <= p.limit
    ensures FeedBytes(p, s) == (Gathering(p, s), [])
  {
    if s == [] {
      assert p.osc + [] == p.osc;
    } else {
      var before, b := s[..|s| - 1], s[|s| - 1];
      assert s == before + [b];
      Gathers(p, before);
      GathersByte(p, before, b);
      Silent(p, before, Gathering(p, before), [], b, Gathering(p, s));
    }
  }

  lemma BelEnds(p: Parser)
    requires p.state.OscString? && p.count + 1 <= p.limit
    ensures FeedByte(p, Bel) == (To(p, Ground), Visible(p, OscEvents(p.osc)))
  {
    assert FeedByte(p, Bel) == FeedOsc(p.(count := p.count + 1), Bel);
  }

  /** A command within the limit is shown, and leaves nothing behind. */
  lemma OscRead(p: Parser, body: Bytes)
    requires p.state.Ground? && NoBel(body) && |body| + 2 <= p.limit
    ensures FeedBytes(p, [Esc, OpenOsc] + body + [Bel]) == (To(Flushed(p), Ground),
                                                            FlushEvents(p) + Visible(p, OscEvents(Kept(body))))
  {
    var p3 := To(Flushed(p), OscString).(osc := Kept(body), count := 1 + |body|);
    OscHeld(p, body);
    BelEnds(p3);
    StepsSnoc(FeedByte, p, [Esc, OpenOsc] + body, Bel);
  }

  lemma StringEnds(p: Parser)
    requires p.state.OscEscPending? && p.count + 1 <= p.limit
    ensures FeedByte(p, Backslash) == (To(p, Ground), Visible(p, OscEvents(p.osc)))
  {
  }

  /** So it is when ESC and a backslash end it. */
  lemma StringRead(p: Parser, body: Bytes)
    requires p.state.Ground? && NoBel(body) && |body| + 3 <= p.limit
    ensures FeedBytes(p, [Esc, OpenOsc] + body + [Esc] + [Backslash]) ==
      (To(Flushed(p), Ground), FlushEvents(p) + Visible(p, OscEvents(Kept(body))))
  {
    var p3 := To(Flushed(p), OscString).(osc := Kept(body), count := 1 + |body|);
    var p4 := p3.(count := 2 + |body|, state := OscEscPending);
    OscHeld(p, body);
    assert FeedByte(p3, Esc) == (p4, []) by { EscPends(p3); }
    Silent(p, [Esc, OpenOsc] + body, p3, FlushEvents(p), Esc, p4);
    StringEnds(p4);
    StepsSnoc(FeedByte, p, [Esc, OpenOsc] + body + [Esc], Backslash);
  }

  /** Whatever comes before a BEL is swallowed. */
  lemma {:induction false} OscWaitedOut(p: Parser, s: Bytes)
    requires p.state.OscIgnore? && NoBel(s)
    ensures FeedBytes(p, s) == (p, [])
  {
    if s != [] {
      var before, b := s[..|s| - 1], s[|s| - 1];
      assert s == before + [b];
      OscWaitedOut(p, before);
      assert FeedByte(p, b) == (p, []);
      Silent(p, before, p, [], b, p);
    }
  }

  lemma OscIgnoredByte(p: Parser, b: Byte)
    requires p.state.OscIgnore? && p.run == "" && p.pending == [] && b != Cancel && b != Substitute
    ensures FeedByte(p, b) == (if b == Bel then To(p, Ground) else if b == Esc then To(p, Escape) else p, [])
  {
  }

  /** A parser that ignores a command shows nothing up to the next BEL or ESC; a BEL leads
      to the ground, an ESC to a new sequence. */
  lemma OscSwallows(p: Parser, s: Bytes)
    requires p.state.OscIgnore? && p.run == "" && p.pending == [] && NoBel(s)
    ensures FeedBytes(p, s) == (p, [])
    ensures FeedBytes(p, s + [Bel]) == (To(p, Ground), []) && FeedBytes(p, s + [Esc]) == (To(p, Escape), [])
  {
    OscWaitedOut(p, s);
    OscIgnoredByte(p, Bel);
    OscIgnoredByte(p, Esc);
    Silent(p, s, p, [], Bel, To(p, Ground));
    Silent(p, s, p, [], Esc, To(p, Escape));
  }

  lemma OscOneTooMany(p: Parser, b: Byte)
    requires (p.state.OscString? || p.state.OscEscPending?) && b != Cancel && b != Substitute && p.count >= p.limit
    ensures FeedByte(p, b) == (p.(osc := [], count := 0, state := OscIgnore), [])
  {
  }

  lemma OscRunsOver(p: Parser, s: Bytes)
    requires p.state.OscString? && NoBel(s) && p.count <= p.limit < p.count + |s|
    ensures FeedBytes(p, s) == (p.(osc := [], count := 0, state := OscIgnore), [])
  {
    var n := p.limit - p.count;
    var fits, over, rest := s[..n], s[n], s[n + 1..];
    assert s == fits + [over] + rest;
    Gathers(p, fits);
    var p1, q := FeedBytes(p, fits).0, p.(osc := [], count := 0, state := OscIgnore);
    assert FeedByte(p1, over) == (q, []) by { OscOneTooMany(p1, over); }
    Silent(p, fits, p1, [], over, q);
    OscWaitedOut(q, rest);
    SilentAll(p, fits + [over], q, [], rest, q);
  }

  /** A command whose body is within the limit, read up to its end. */
  lemma OscHeld(p: Parser, body: Bytes)
    requires p.state.Ground? && NoBel(body) && |body| + 1 <= p.limit
    ensures FeedBytes(p, [Esc, OpenOsc] + body) == (To(Flushed(p), OscString).(osc := Kept(body), count := 1 + |body|),
                                                    FlushEvents(p))
  {
    var p2 := To(Flushed(p), OscString).(count := 1);
    OpensOsc(p);
    assert FeedBytes(p2, body) == (p2.(osc := Kept(body), count := 1 + |body|), []) by {
      Gathers(p2, body);
      assert [] + Kept(body) == Kept(body);
    }
    SilentAll(p, [Esc, OpenOsc], p2, FlushEvents(p), body, p2.(osc := Kept(body), count := 1 + |body|));
  }

  /** And one whose body is not. */
  lemma OscDropped(p: Parser, body: Bytes)
    requires p.state.Ground? && NoBel(body) && 1 <= p.limit <= |body|
    ensures FeedBytes(p, [Esc, OpenOsc] + body) == (To(Flushed(p), OscIgnore), FlushEvents(p))
  {
    var p2 := To(Flushed(p), OscString).(count := 1);
    OpensOsc(p);
    OscRunsOver(p2, body);
    SilentAll(p, [Esc, OpenOsc], p2, FlushEvents(p), body, To(Flushed(p), OscIgnore));
  }

  /** A command over the limit shows nothing. When the BEL that ends it is the one too
      many the parser goes on ignoring. */
  lemma OscTooLong(p: Parser, body: Bytes)
    requires p.state.Ground? && NoBel(body) && 1 <= p.limit < |body| + 2
    ensures FeedBytes(p, [Esc, OpenOsc] + body + [Bel]) ==
      (To(Flushed(p), if p.limit == |body| + 1 then OscIgnore else Ground), FlushEvents(p))
  {
    var q := To(Flushed(p), OscIgnore);
    if p.limit == |body| + 1 {
      var p3 := To(Flushed(p), OscString).(osc := Kept(body), count := 1 + |body|);
      OscHeld(p, body);
      OscOneTooMany(p3, Bel);
      Silent(p, [Esc, OpenOsc] + body, p3, FlushEvents(p), Bel, q);
    } else {
      OscDropped(p, body);
      OscIgnoredByte(q, Bel);
      Silent(p, [Esc, OpenOsc] + body, q, FlushEvents(p), Bel, To(Flushed(p), Ground));
    }
  }

  /** So it is when the command ends by ESC and a backslash and either is the one too
      many. */
  lemma StringTooLong(p: Parser, body: Bytes)
    requires p.state.Ground? && NoBel(body) && 1 <= p.limit < |body| + 3
    ensures FeedBytes(p, [Esc, OpenOsc] + body + [Esc] + [Backslash]) ==
      (To(Flushed(p), if p.limit <= |body| then Ground else OscIgnore), FlushEvents(p))
  {
    if p.limit <= |body| {
      DroppedRestarts(p, body);
    } else if p.limit == |body| + 1 {
      EscTooMany(p, body);
    } else {
      BackslashTooMany(p, body);
    }
  }

  lemma DroppedRestarts(p: Parser, body: Bytes)
    requires p.state.Ground? && NoBel(body) && 1 <= p.limit <= |body|
    ensures FeedBytes(p, [Esc, OpenOsc] + body + [Esc] + [Backslash]) == (To(Flushed(p), Ground), FlushEvents(p))
  {
    var head, q, r := [Esc, OpenOsc] + body, To(Flushed(p), OscIgnore), To(Flushed(p), Escape);
    OscDropped(p, body);
    OscIgnoredByte(q, Esc);
    Silent(p, head, q, FlushEvents(p), Esc, r);
    assert FeedByte(r, Backslash) == (To(r, Ground), []) by { EscapeEnds(r, [], Backslash); }
    Silent(p, head + [Esc], r, FlushEvents(p), Backslash, To(Flushed(p), Ground));
  }

  lemma EscTooMany(p: Parser, body: Bytes)
    requires p.state.Ground? && NoBel(body) && p.limit == |body| + 1
    ensures FeedBytes(p, [Esc, OpenOsc] + body + [Esc] + [Backslash]) == (To(Flushed(p), OscIgnore), FlushEvents(p))
  {
    var head, q := [Esc, OpenOsc] + body, To(Flushed(p), OscIgnore);
    var p3 := To(Flushed(p), OscString).(osc := Kept(body), count := 1 + |body|);
    OscHeld(p, body);
    OscOneTooMany(p3, Esc);
    Silent(p, head, p3, FlushEvents(p), Esc, q);
    OscIgnoredByte(q, Backslash);
    Silent(p, head + [Esc], q, FlushEvents(p), Backslash, q);
  }

  lemma BackslashTooMany(p: Parser, body: Bytes)
    requires p.state.Ground? && NoBel(body) && p.limit == |body| + 2
    ensures FeedBytes(p, [Esc, OpenOsc] + body + [Esc] + [Backslash]) == (To(Flushed(p), OscIgnore), FlushEvents(p))
  {
    var head, q := [Esc, OpenOsc] + body, To(Flushed(p), OscIgnore);
    var p3 := To(Flushed(p), OscString).(osc := Kept(body), count := 1 + |body|);
    var p4 := p3.(count := 2 + |body|, state := OscEscPending);
    OscHeld(p, body);
    assert FeedByte(p3, Esc) == (p4, []) by { EscPends(p3); }
    Silent(p, head, p3, FlushEvents(p), Esc, p4);
    OscOneTooMany(p4, Backslash);
    Silent(p, head + [Esc], p4, FlushEvents(p), Backslash, q);
  }

  lemma EscPends(p: Parser)
    requires p.state.OscString? && p.count + 1 <= p.limit
    ensures FeedByte(p, Esc) == (p.(count := p.count + 1, state := OscEscPending), [])
  {
    assert FeedByte(p, Esc) == FeedOsc(p.(count := p.count + 1), Esc);
  }

  /** The text after a command one byte too long is lost, up to the next BEL. */
  lemma TextAfterOscIsLost(p: Parser, body: Bytes, text: Bytes)
    requires p.state.Ground? && NoBel(body) && p.limit == |body| + 1 && NoBel(text)
    ensures FeedBytes(p, [Esc, OpenOsc] + body + [Bel] + (text + [Bel])) == (To(Flushed(p), Ground), FlushEvents(p))
  {
    var q := To(Flushed(p), OscIgnore);
    OscTooLong(p, body);
    OscSwallows(q, text);
    SilentAll(p, [Esc, OpenOsc] + body + [Bel], q, FlushEvents(p), text + [Bel], To(q, Ground));
  }

  /** So it is after one ended by ESC and a backslash, either of them the byte too many. */
  lemma TextAfterStringIsLost(p: Parser, body: Bytes, text: Bytes)
    requires p.state.Ground? && NoBel(body) && |body| < p.limit < |body| + 3 && NoBel(text)
    ensures FeedBytes(p, [Esc, OpenOsc] + body + [Esc] + [Backslash] + (text + [Bel])) ==
      (To(Flushed(p), Ground), FlushEvents(p))
  {
    var q := To(Flushed(p), OscIgnore);
    StringTooLong(p, body);
    OscSwallows(q, text);
    SilentAll(p, [Esc, OpenOsc] + body + [Esc] + [Backslash], q, FlushEvents(p), text + [Bel], To(q, Ground));
  }
}
