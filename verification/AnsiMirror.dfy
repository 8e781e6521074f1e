/** A consumer that follows a line-oriented parser's events (src/ansi.rs): it always knows
    the screen the parser is on and the style it was last given. */
module AnsiMirror {
  import opened Options
  import opened Utf8
  import opened CsiParams
  import opened AnsiEvents
  import opened AnsiMachine
  import opened AnsiChunks
  import opened ByteSteps

  /** What a consumer keeps: whether the alternate screen is on, and the style. */
  datatype Mirror = Mirror(alt: bool, style: Style)

  const NewMirror := Mirror(false, Plain)

  function Follow(m: Mirror, e: Event): Mirror {
    match e
    case AlternateScreenEnter => m.(alt := true)
    case AlternateScreenExit => m.(alt := false)
    case SetStyle(s) => m.(style := s)
    case _ => m
  }

  function FollowAll(m: Mirror, es: seq<Event>): Mirror {
    if es == [] then m else Follow(FollowAll(m, es[..|es| - 1]), es[|es| - 1])
  }

  /** The event may come where the consumer stands: on the alternate screen, only the
      end of it; off it, anything but that. */
  predicate Fits(m: Mirror, e: Event) {
    if m.alt then e.AlternateScreenExit? else !e.AlternateScreenExit?
  }

  /** Every event fits where it comes, so entering and leaving alternate, and nothing
      comes between them. */
  predicate AllFit(m: Mirror, es: seq<Event>) {
    es == [] || (AllFit(m, es[..|es| - 1]) && Fits(FollowAll(m, es[..|es| - 1]), es[|es| - 1]))
  }

  lemma {:induction false} FollowAppend(m: Mirror, a: seq<Event>, b: seq<Event>)
    ensures FollowAll(m, a + b) == FollowAll(FollowAll(m, a), b)
    ensures AllFit(m, a + b) <==> AllFit(m, a) && AllFit(FollowAll(m, a), b)
  {
    if b == [] {
      assert a + b == a;
    } else {
      var n := |b| - 1;
      assert (a + b)[..|a + b| - 1] == a + b[..n];
      FollowAppend(m, a, b[..n]);
    }
  }

  lemma FollowOne(m: Mirror, e: Event)
    ensures FollowAll(m, [e]) == Follow(m, e) && (AllFit(m, [e]) <==> Fits(m, e))
  {
    assert [e][..0] == [];
    assert AllFit(m, []);
  }

  lemma FollowTwo(m: Mirror, e: Event, f: Event)
    ensures FollowAll(m, [e] + [f]) == Follow(Follow(m, e), f)
    ensures AllFit(m, [e] + [f]) <==> Fits(m, e) && Fits(Follow(m, e), f)
  {
    FollowAppend(m, [e], [f]);
    FollowOne(m, e);
    FollowOne(Follow(m, e), f);
  }

  // ----- the parser and its consumer -----

  /** What the parser thinks its consumer knows. */
  function View(p: Parser): Mirror {
    Mirror(p.alt, p.emitted)
  }

  /** Off the alternate screen the consumer has the running style. */
  ghost predicate Synced(p: Parser) {
    p.profile.LineOriented? && (!p.alt ==> p.emitted == p.current)
  }

  /** A step the consumer followed. */
  ghost predicate Followed(p: Parser, r: (Parser, seq<Event>)) {
    Synced(r.0) && FollowAll(View(p), r.1) == View(r.0) && AllFit(View(p), r.1)
  }

  /** Nothing of the screens or styles changes, and nothing is said of them. */
  ghost predicate Same(p: Parser, p': Parser) {
    p'.profile == p.profile && p'.alt == p.alt && p'.current == p.current && p'.emitted == p.emitted
  }

  /** The event is about neither screen nor style. */
  ghost predicate Neutral(e: Event) {
    !e.AlternateScreenEnter? && !e.AlternateScreenExit? && !e.SetStyle?
  }

  lemma FollowedNone(p: Parser, p': Parser)
    requires Synced(p) && Same(p, p')
    ensures Followed(p, (p', []))
  {
  }

  lemma FollowedOne(p: Parser, p': Parser, e: Event)
    requires Synced(p) && Same(p, p') && Neutral(e)
    ensures Followed(p, (p', Visible(p, [e])))
  {
    FollowOne(View(p), e);
  }

  lemma FollowedThen(p: Parser, p1: Parser, e1: seq<Event>, p2: Parser, e2: seq<Event>)
    requires Followed(p, (p1, e1)) && Followed(p1, (p2, e2))
    ensures Followed(p, (p2, e1 + e2))
  {
    FollowAppend(View(p), e1, e2);
  }

  lemma FlushFollowed(p: Parser, p': Parser)
    requires Synced(p) && Same(p, p')
    ensures Followed(p, (p', FlushEvents(p)))
  {
    if Closed(p) != "" {
      FollowedOne(p, p', Text(Closed(p)));
    }
  }

  lemma GroundFollowed(p: Parser, b: Byte)
    requires Synced(p)
    ensures Followed(p, FeedGround(p, b))
  {
    var control := Control(p.profile, b);
    if control.Some? {
      FlushFollowed(p, Flushed(p));
      FollowedOne(Flushed(p), Flushed(p), control.value);
      FollowedThen(p, Flushed(p), FlushEvents(p), Flushed(p), Visible(p, [control.value]));
    } else {
      FollowedNone(p, FeedGround(p, b).0);
    }
  }

  lemma SwitchFollowed(p: Parser, on: bool)
    requires Synced(p)
    ensures Followed(p, SwitchScreen(p, on))
  {
    if on && !p.alt {
      FollowOne(View(p), AlternateScreenEnter);
    } else if !on && p.alt {
      if p.current != p.emitted {
        FollowTwo(View(p), AlternateScreenExit, SetStyle(p.current));
      } else {
        FollowOne(View(p), AlternateScreenExit);
      }
    }
  }

  lemma {:induction false} SwitchesFollowed(p: Parser, params: seq<Param>, on: bool)
    requires Synced(p)
    ensures Followed(p, SwitchScreens(p, params, on))
  {
    if params != [] {
      var n := |params| - 1;
      SwitchesFollowed(p, params[..n], on);
      var (p1, e1) := SwitchScreens(p, params[..n], on);
      if params[n].main == 1049 {
        SwitchFollowed(p1, on);
        var (p2, e2) := SwitchScreen(p1, on);
        FollowedThen(p, p1, e1, p2, e2);
      }
    }
  }

  lemma StyleFollowed(p: Parser, style: Style)
    requires Synced(p)
    ensures Followed(p, EmitStyle(p.(current := style)))
  {
    if !p.alt {
      FollowOne(View(p), SetStyle(style));
    }
  }

  lemma DispatchFollowed(p: Parser, final: Byte)
    requires Synced(p)
    ensures Followed(p, DispatchCsi(p, final))
  {
    var params, marker := Finalize(p.csi), p.csi.marker;
    if marker.None? && final == 0x6D {
      StyleFollowed(p, if params == [] then Plain else StyleFrom(p.current, params, 0, p.profile));
    } else if marker == Some(0x3F) && (final == 0x68 || final == 0x6C) {
      SwitchesFollowed(p, params, final == 0x68);
    } else {
      var es := LineEvents(marker, final, params);
      if es != [] {
        assert es == [es[0]];
        FollowedOne(p, p, es[0]);
      }
    }
  }

  lemma CsiFollowed(p: Parser, b: Byte)
    requires Synced(p)
    ensures Followed(p, FeedCsi(p, b))
  {
    var (p', e) := FeedCsi(p, b);
    if 0x40 <= b <= 0x7E {
      DispatchFollowed(p, b);
    } else {
      FollowedNone(p, p');
    }
  }

  lemma OscFollowed(p: Parser)
    requires Synced(p)
    ensures Followed(p, EndOsc(p))
  {
    var es := OscEvents(p.osc);
    if es == [] {
      FollowedNone(p, EndOsc(p).0);
    } else {
      assert es == [es[0]];
      FollowedOne(p, EndOsc(p).0, es[0]);
    }
  }

  lemma StateFollowed(p: Parser, b: Byte)
    requires Synced(p) && !p.state.OscEscPending?
    ensures Followed(p, FeedState(p, b))
  {
    if p.state.Ground? {
      GroundFollowed(p, b);
    } else if p.state.CsiEntry? || p.state.CsiParam? || p.state.CsiIntermediate? {
      CsiFollowed(p, b);
    } else if p.state.OscString? && b == 0x07 {
      OscFollowed(p);
    } else {
      FollowedNone(p, FeedState(p, b).0);
    }
  }

  lemma FollowedFrom(p: Parser, q: Parser, r: (Parser, seq<Event>))
    requires Same(p, q) && Followed(q, r)
    ensures Followed(p, r)
  {
  }

  /** One byte: its events fit and tell the consumer what changed. */
  lemma ByteFollowed(p: Parser, b: Byte)
    requires Synced(p)
    ensures Followed(p, FeedByte(p, b))
    decreases p.state.OscEscPending?
  {
    var counts := !p.state.Ground? && !Ignoring(p.state);
    var counted := if counts then p.(count := p.count + 1) else p;
    if (b == 0x1B && !p.state.OscString? && !p.state.OscEscPending?) || b == 0x18 || b == 0x1A {
      FlushFollowed(p, FeedByte(p, b).0);
    } else if counts && counted.count > p.limit {
      FollowedNone(p, FeedByte(p, b).0);
    } else if !p.state.OscEscPending? {
      StateFollowed(counted, b);
      FollowedFrom(p, counted, FeedByte(p, b));
    } else if b == 0x5C {
      OscFollowed(counted);
      FollowedFrom(p, counted, FeedByte(p, b));
    } else {
      ByteFollowed(counted.(osc := [], count := 0, state := Escape), b);
      FollowedFrom(p, counted.(osc := [], count := 0, state := Escape), FeedByte(p, b));
    }
  }

  lemma {:induction false} BytesFollowed(p: Parser, s: Bytes)
    requires Synced(p)
    ensures Followed(p, FeedBytes(p, s))
  {
    if s == [] {
      FollowedNone(p, p);
    } else {
      var n := |s| - 1;
      BytesFollowed(p, s[..n]);
      var (p1, e1) := FeedBytes(p, s[..n]);
      ByteFollowed(p1, s[n]);
      var (p2, e2) := FeedByte(p1, s[n]);
      FollowedThen(p, p1, e1, p2, e2);
    }
  }

  /** A feed: the consumer ends where the parser thinks it is, every event fitted where
      it came, and off the alternate screen the consumer has the running style. */
  lemma FeedFollowed(p: Parser, s: Bytes)
    requires Synced(p)
    ensures Followed(p, Feed(p, s))
  {
    BytesFollowed(p, s);
    var (p', e) := FeedBytes(p, s);
    if p'.run == "" {
      FollowedNone(p', p'.(run := ""));
    } else {
      FollowedOne(p', p'.(run := ""), Text(p'.run));
    }
    FollowedThen(p, p', e, p'.(run := ""), Visible(p', TextOf(p'.run)));
  }

  /** The end of the stream brings the consumer back to where it began, leaves a new
      parser, and says nothing the second time. */
  lemma FinishFollowed(p: Parser)
    requires Synced(p)
    ensures Finish(p).0 == NewParser(p.profile, p.limit)
    ensures FollowAll(View(p), Finish(p).1) == NewMirror && AllFit(View(p), Finish(p).1)
    ensures Finish(Finish(p).0) == (Finish(p).0, [])
  {
    FlushFollowed(p, p);
    var leave := if p.alt then [AlternateScreenExit] else [];
    var reset := if p.emitted != Plain then [SetStyle(Plain)] else [];
    assert Finish(p).1 == FlushEvents(p) + (leave + reset);
    FollowAppend(View(p), FlushEvents(p), leave + reset);
    FollowAppend(View(p), leave, reset);
    FollowOne(View(p), AlternateScreenExit);
    FollowOne(FollowAll(View(p), leave), SetStyle(Plain));
    assert Finish(Finish(p).0).1 == [];
  }

  // ----- whole streams -----

  /** Streams of feeds, each of which ends. */
  function Streams(p: Parser, streams: seq<seq<Bytes>>): (Parser, seq<Event>) {
    if streams == [] then (p, [])
    else
      var (p1, e1) := Streams(p, streams[..|streams| - 1]);
      var (p2, e2) := FeedChunks(p1, streams[|streams| - 1]);
      var (p3, e3) := Finish(p2);
      (p3, e1 + e2 + e3)
  }

  lemma {:induction false} FeedsFollowed(p: Parser, feeds: seq<Bytes>)
    requires Synced(p)
    ensures Followed(p, FeedChunks(p, feeds)) && FeedChunks(p, feeds).0.profile == p.profile
      && FeedChunks(p, feeds).0.limit == p.limit
  {
    if feeds == [] {
      FollowedNone(p, p);
    } else {
      var n := |feeds| - 1;
      FeedsFollowed(p, feeds[..n]);
      var (p1, e1) := FeedChunks(p, feeds[..n]);
      FeedFollowed(p1, feeds[n]);
      LimitKept(p1, feeds[n]);
      FollowedThen(p, p1, e1, Feed(p1, feeds[n]).0, Feed(p1, feeds[n]).1);
    }
  }

  lemma ByteLimit(p: Parser, b: Byte)
    ensures FeedByte(p, b).0.limit == p.limit
    decreases p.state.OscEscPending?
  {
    if p.state.OscEscPending? && b != 0x18 && b != 0x1A && p.count + 1 <= p.limit && b != 0x5C {
      ByteLimit(p.(count := 0, osc := [], state := Escape), b);
    } else {
      SwitchRun(p.(count := p.count + 1), Finalize(p.csi), b == 0x68);
    }
  }

  lemma {:induction false} LimitKept(p: Parser, s: Bytes)
    ensures FeedBytes(p, s).0.limit == p.limit && Feed(p, s).0.limit == p.limit
  {
    if s != [] {
      LimitKept(p, s[..|s| - 1]);
      ByteLimit(FeedBytes(p, s[..|s| - 1]).0, s[|s| - 1]);
    }
  }

  /** Over any streams, fed in any way, the consumer follows; after each it is where it
      began, and so is the parser. */
  lemma {:induction false} StreamsFollowed(limit: nat, streams: seq<seq<Bytes>>)
    ensures var p := NewParser(LineOriented, limit);
      && Streams(p, streams).0 == p && FollowAll(NewMirror, Streams(p, streams).1) == NewMirror
      && AllFit(NewMirror, Streams(p, streams).1)
  {
    var p := NewParser(LineOriented, limit);
    if streams != [] {
      var n := |streams| - 1;
      StreamsFollowed(limit, streams[..n]);
      var e1 := Streams(p, streams[..n]).1;
      FeedsFollowed(p, streams[n]);
      var (p2, e2) := FeedChunks(p, streams[n]);
      FinishFollowed(p2);
      var e3 := Finish(p2).1;
      FollowAppend(NewMirror, e1, e2);
      FollowAppend(NewMirror, e1 + e2, e3);
    }
  }
}
