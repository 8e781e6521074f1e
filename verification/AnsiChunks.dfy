/** How a stream is cut into feeds decides nothing (src/ansi.rs): the same bytes leave
    the parser in the same state and emit the same events, adjacent texts joined. */
module AnsiChunks {
  import opened Utf8
  import opened CsiParams
  import opened AnsiEvents
  import opened AnsiMachine
  import opened ByteSteps

  // ----- texts joined -----

  /** Join adjacent texts. */
  function Merge(es: seq<Event>): seq<Event> {
    if |es| < 2 then es
    else
      Joined(es[0], Merge(es[1..]))
  }

  /** An event, or one character of a text. */
  datatype Atom = Char(c: char) | Op(e: Event)

  function Chars(s: string): (r: seq<Atom>)
    ensures |r| == |s|
  {
    seq(|s|, i requires 0 <= i < |s| => Char(s[i]))
  }

  function Atoms(e: Event): seq<Atom> {
    if e.Text? then Chars(e.text) else [Op(e)]
  }

  function Flat(es: seq<Event>): seq<Atom> {
    if es == [] then [] else Atoms(es[0]) + Flat(es[1..])
  }

  lemma {:induction false} FlatAppend(a: seq<Event>, b: seq<Event>)
    ensures Flat(a + b) == Flat(a) + Flat(b)
  {
    if a == [] {
      assert a + b == b;
    } else {
      assert (a + b)[1..] == a[1..] + b;
      FlatAppend(a[1..], b);
    }
  }

  ghost predicate NoEmptyText(es: seq<Event>) {
    forall i :: 0 <= i < |es| && es[i].Text? ==> es[i].text != ""
  }

  /** No text is empty or next to another. */
  ghost predicate Normal(es: seq<Event>) {
    NoEmptyText(es) && forall i :: 0 <= i < |es| - 1 ==> !(es[i].Text? && es[i + 1].Text?)
  }

  lemma {:induction false} MergeIs(es: seq<Event>)
    requires NoEmptyText(es)
    ensures Flat(Merge(es)) == Flat(es) && Normal(Merge(es))
    ensures es != [] ==> Merge(es) != [] && (Merge(es)[0].Text? <==> es[0].Text?)
  {
    if |es| >= 2 {
      MergeIs(es[1..]);
      assert NoEmptyText([es[0]]);
      JoinedNormal(es[0], Merge(es[1..]));
      JoinedFlat(es[0], Merge(es[1..]));
      FlatCons(es[0], es[1..]);
      assert [es[0]] + es[1..] == es;
    }
  }

  /** An event put before merged ones. */
  function Joined(e: Event, rest: seq<Event>): seq<Event> {
    if e.Text? && rest != [] && rest[0].Text? then [Text(e.text + rest[0].text)] + rest[1..] else [e] + rest
  }

  lemma FlatCons(e: Event, rest: seq<Event>)
    ensures Flat([e] + rest) == Atoms(e) + Flat(rest)
  {
    assert ([e] + rest)[1..] == rest;
  }

  lemma JoinedFlat(e: Event, rest: seq<Event>)
    ensures Flat(Joined(e, rest)) == Atoms(e) + Flat(rest)
  {
    if e.Text? && rest != [] && rest[0].Text? {
      FlatCons(Text(e.text + rest[0].text), rest[1..]);
      CharsAppend(e.text, rest[0].text);
      assert (Chars(e.text) + Chars(rest[0].text)) + Flat(rest[1..])
          == Chars(e.text) + (Chars(rest[0].text) + Flat(rest[1..]));
    } else {
      FlatCons(e, rest);
    }
  }

  lemma JoinedNormal(e: Event, rest: seq<Event>)
    requires NoEmptyText([e]) && Normal(rest)
    ensures Normal(Joined(e, rest))
  {
    var r := Joined(e, rest);
    var k := |rest| + 1 - |r|;
    forall i | 0 < i < |r| ensures r[i] == rest[i - 1 + k] {
    }
    assert [e][0] == e;
    forall i | 0 <= i < |r| - 1 ensures !(r[i].Text? && r[i + 1].Text?) {
      assert r[i + 1] == rest[i + k];
      if i > 0 {
        assert r[i] == rest[i - 1 + k] && !(rest[i - 1 + k].Text? && rest[i - 1 + k + 1].Text?);
      }
    }
  }

  /** What stands first, seen in the flattened list. */
  lemma FlatHead(es: seq<Event>)
    requires NoEmptyText(es) && es != []
    ensures Flat(es) != [] && (Flat(es)[0].Char? <==> es[0].Text?)
  {
  }

  lemma FlatTail(a: seq<Atom>, b: seq<Atom>, u: seq<Atom>, v: seq<Atom>)
    requires a + u == b + v && |a| == |b|
    ensures a == b && u == v
  {
    assert (a + u)[..|a|] == a && (b + v)[..|b|] == b;
    assert (a + u)[|a|..] == u && (b + v)[|b|..] == v;
  }

  /** The character right after a text of a normal list is none. */
  lemma AfterText(es: seq<Event>)
    requires Normal(es) && es != [] && es[0].Text?
    ensures Flat(es)[..|es[0].text|] == Chars(es[0].text) && Flat(es)[|es[0].text|..] == Flat(es[1..])
    ensures |Flat(es)| > |es[0].text| ==> Flat(es)[|es[0].text|].Op?
  {
    if |es| > 1 {
      assert !es[1].Text?;
      assert es[1..][0] == es[1];
      assert NoEmptyText(es[1..]);
      FlatHead(es[1..]);
    }
  }

  lemma SameText(a: seq<Event>, b: seq<Event>)
    requires Normal(a) && Normal(b) && a != [] && b != [] && a[0].Text? && b[0].Text? && Flat(a) == Flat(b)
    ensures a[0].text == b[0].text
  {
    AfterText(a);
    AfterText(b);
    var x, y := a[0].text, b[0].text;
    assert |x| == |y|;
    assert Chars(x) == Chars(y);
    forall i | 0 <= i < |x| ensures x[i] == y[i] {
      assert Chars(x)[i] == Char(x[i]) && Chars(y)[i] == Char(y[i]);
    }
  }

  /** A normal list is what it flattens to. */
  lemma {:induction false} NormalUnique(a: seq<Event>, b: seq<Event>)
    requires Normal(a) && Normal(b) && Flat(a) == Flat(b)
    ensures a == b
  {
    if a == [] || b == [] {
      if a != [] { FlatHead(a); }
      if b != [] { FlatHead(b); }
    } else {
      FlatHead(a);
      FlatHead(b);
      if a[0].Text? {
        SameText(a, b);
      }
      FlatTail(Atoms(a[0]), Atoms(b[0]), Flat(a[1..]), Flat(b[1..]));
      assert Normal(a[1..]) && Normal(b[1..]);
      NormalUnique(a[1..], b[1..]);
      assert a == [a[0]] + a[1..] && b == [b[0]] + b[1..];
    }
  }

  lemma SameMerged(a: seq<Event>, b: seq<Event>)
    requires NoEmptyText(a) && NoEmptyText(b) && Flat(a) == Flat(b)
    ensures Merge(a) == Merge(b)
  {
    MergeIs(a);
    MergeIs(b);
    NormalUnique(Merge(a), Merge(b));
  }

  // ----- the pending run -----

  /** Outside ground no text is pending; within it, at most the start of one UTF-8
      sequence. */
  ghost predicate Calm(p: Parser) {
    && (!p.state.Ground? ==> p.run == "" && p.pending == [])
    && (p.pending == [] || Scan(p.pending).Incomplete?)
  }

  lemma StepCalm(p: Parser, b: Byte)
    requires Calm(p)
    ensures Calm(FeedByte(p, b).0)
    decreases p.state.OscEscPending?
  {
    if p.state.OscEscPending? && b != 0x18 && b != 0x1A && p.count + 1 <= p.limit && b != 0x5C {
      StepCalm(p.(count := 0, osc := [], state := Escape), b);
    } else if p.state.CsiEntry? || p.state.CsiParam? || p.state.CsiIntermediate? {
      CsiRun(p, b);
    }
  }

  lemma {:induction false} SwitchRun(p: Parser, params: seq<Param>, on: bool)
    ensures var p' := SwitchScreens(p, params, on).0;
      p'.run == p.run && p'.pending == p.pending && p'.profile == p.profile && p'.limit == p.limit
  {
    if params != [] {
      SwitchRun(p, params[..|params| - 1], on);
    }
  }

  lemma DispatchRun(p: Parser, b: Byte)
    ensures var p' := DispatchCsi(p, b).0;
      p'.run == p.run && p'.pending == p.pending && p'.profile == p.profile && p'.limit == p.limit
  {
    SwitchRun(p, Finalize(p.csi), b == 0x68);
  }

  lemma CsiRun(p: Parser, b: Byte)
    requires p.run == "" && p.pending == []
    ensures FeedCsi(p.(count := p.count + 1), b).0.run == "" && FeedCsi(p.(count := p.count + 1), b).0.pending == []
  {
    DispatchRun(p.(count := p.count + 1), b);
  }

  /** What the consumer is about to see of the run. */
  function Shown(p: Parser): seq<Atom> {
    if Suppressed(p) then [] else Chars(p.run)
  }

  function Bare(p: Parser): Parser {
    p.(run := "")
  }

  lemma FlatText(run: string)
    ensures Flat(TextOf(run)) == Chars(run)
  {
    if run != "" {
      assert [Text(run)][1..] == [];
      assert Chars(run) + [] == Chars(run);
    }
  }

  lemma CharsAppend(a: string, b: string)
    ensures Chars(a + b) == Chars(a) + Chars(b)
  {
  }

  lemma FlushBare(p: Parser)
    ensures Flat(FlushEvents(p)) == Shown(p) + Flat(FlushEvents(Bare(p)))
  {
    var tail := if p.pending == [] then "" else [Replacement];
    assert Closed(p) == p.run + tail && Closed(Bare(p)) == tail;
    FlatText(Closed(p));
    FlatText(tail);
    CharsAppend(p.run, tail);
  }

  lemma ControlBare(p: Parser, e: seq<Event>)
    ensures Flat(FlushEvents(p) + e) == Shown(p) + Flat(FlushEvents(Bare(p)) + e)
  {
    var x, y := FlushEvents(p), FlushEvents(Bare(p));
    assert Flat(x) == Shown(p) + Flat(y) by { FlushBare(p); }
    assert Flat(x + e) == Flat(x) + Flat(e) by { FlatAppend(x, e); }
    assert Flat(y + e) == Flat(y) + Flat(e) by { FlatAppend(y, e); }
    Regroup(Shown(p), Flat(y), Flat(e));
  }

  lemma Regroup(a: seq<Atom>, b: seq<Atom>, c: seq<Atom>)
    ensures (a + b) + c == a + (b + c)
  {
  }

  lemma NoRunShown(p: Parser)
    requires p.run == ""
    ensures Shown(p) == []
  {
    assert Chars("") == [];
  }

  lemma Shows(a: seq<Atom>, b: seq<Atom>)
    ensures a + [] == a && [] + a == a && a + ([] + b) == a + b
  {
  }

  /** What happens to a run before a byte: it is shown first, and the byte does the same
      without it. */
  ghost predicate Aside(p: Parser, r: (Parser, seq<Event>), q: (Parser, seq<Event>)) {
    Bare(r.0) == Bare(q.0) && Flat(r.1) + Shown(r.0) == Shown(p) + (Flat(q.1) + Shown(q.0))
  }

  /** A byte of ground text, or a control byte that commits it. */
  lemma GroundBare(p: Parser, b: Byte)
    ensures Aside(p, FeedGround(p, b), FeedGround(Bare(p), b))
  {
    var control := Control(p.profile, b);
    if control.Some? {
      var e := Visible(p, [control.value]);
      FlushedBare(p, Flushed(p), e);
      assert FeedGround(p, b) == (Flushed(p), FlushEvents(p) + e);
      assert FeedGround(Bare(p), b) == (Flushed(Bare(p)), FlushEvents(Bare(p)) + e);
    } else if IsText(p.profile, b) {
      PushBare(p, b);
      Shows(Shown(PushText(p, b)), []);
      Shows(Shown(p), Shown(PushText(Bare(p), b)));
    } else {
      NoRunShown(Bare(p));
      Shows(Shown(p), []);
    }
  }

  lemma FlushedBare(p: Parser, p': Parser, e: seq<Event>)
    requires p'.run == ""
    ensures Aside(p, (p', FlushEvents(p) + e), (p', FlushEvents(Bare(p)) + e))
  {
    ControlBare(p, e);
    NoRunShown(p');
    Shows(Flat(FlushEvents(p) + e), []);
    Shows(Flat(FlushEvents(Bare(p)) + e), []);
  }

  lemma PushBare(p: Parser, b: Byte)
    ensures var p', q := PushText(p, b), PushText(Bare(p), b);
      Bare(p') == Bare(q) && Suppressed(p') == Suppressed(p) && Suppressed(q) == Suppressed(p)
      && Shown(p') == Shown(p) + Shown(q)
  {
    var p', q := PushText(p, b), PushText(Bare(p), b);
    assert "" + q.run == q.run;
    assert p'.run == p.run + q.run by {
      if p.pending == [] && b < 0x80 {
        assert "" + [b as char] == [b as char];
      } else {
        assert "" + Decode(p.pending + [b]).0 == Decode(p.pending + [b]).0;
      }
    }
    CharsAppend(p.run, q.run);
  }

  /** A byte does the same whatever run came before it, which it leaves to be shown
      first. */
  lemma ByteBare(p: Parser, b: Byte)
    requires Calm(p)
    ensures Aside(p, FeedByte(p, b), FeedByte(Bare(p), b))
  {
    if !p.state.Ground? {
      assert Bare(p) == p;
      NoRunShown(p);
      Shows(Flat(FeedByte(p, b).1) + Shown(FeedByte(p, b).0), []);
    } else if b == 0x1B || b == 0x18 || b == 0x1A {
      var p' := To(Flushed(p), if b == 0x1B then Escape else Ground);
      FlushedBare(p, p', []);
      assert FlushEvents(p) + [] == FlushEvents(p) && FlushEvents(Bare(p)) + [] == FlushEvents(Bare(p));
      assert FeedByte(p, b) == (p', FlushEvents(p)) && FeedByte(Bare(p), b) == (p', FlushEvents(Bare(p)));
    } else {
      GroundBare(p, b);
      assert FeedByte(p, b) == FeedGround(p, b) && FeedByte(Bare(p), b) == FeedGround(Bare(p), b);
    }
  }

  // ----- no text is empty -----

  ghost predicate NoText(es: seq<Event>) {
    forall i :: 0 <= i < |es| ==> !es[i].Text?
  }

  lemma {:induction false} ModesNoText(params: seq<Param>, enabled: bool)
    ensures NoText(PrivateModes(params, enabled)) && NoText(InsertModes(params, enabled))
  {
    if params != [] {
      ModesNoText(params[1..], enabled);
    }
  }

  lemma {:induction false} SwitchNoText(p: Parser, params: seq<Param>, on: bool)
    ensures NoText(SwitchScreens(p, params, on).1)
  {
    if params != [] {
      SwitchNoText(p, params[..|params| - 1], on);
    }
  }

  lemma DispatchNoText(p: Parser, b: Byte)
    ensures NoText(DispatchCsi(p, b).1)
  {
    ModesNoText(Finalize(p.csi), b == 0x68);
    SwitchNoText(p, Finalize(p.csi), b == 0x68);
  }

  lemma FlushNoEmptyText(p: Parser, e: Event)
    requires !e.Text?
    ensures NoEmptyText(FlushEvents(p)) && NoEmptyText(FlushEvents(p) + Visible(p, [e]))
  {
  }

  lemma GroundNoEmptyText(p: Parser, b: Byte)
    ensures NoEmptyText(FeedGround(p, b).1)
  {
    var control := Control(p.profile, b);
    if control.Some? {
      FlushNoEmptyText(p, control.value);
    }
  }

  lemma StateNoEmptyText(p: Parser, b: Byte)
    requires !p.state.OscEscPending?
    ensures NoEmptyText(FeedState(p, b).1)
  {
    if p.state.Ground? {
      GroundNoEmptyText(p, b);
    } else if p.state.CsiEntry? || p.state.CsiParam? || p.state.CsiIntermediate? {
      DispatchNoText(p, b);
    } else {
      assert NoText(FeedState(p, b).1);
    }
  }

  lemma StepNoEmptyText(p: Parser, b: Byte)
    ensures NoEmptyText(FeedByte(p, b).1)
    decreases p.state.OscEscPending?
  {
    FlushNoEmptyText(p, Bell);
    var counts := !p.state.Ground? && !Ignoring(p.state);
    var counted := if counts then p.(count := p.count + 1) else p;
    if !p.state.OscEscPending? {
      StateNoEmptyText(counted, b);
    } else if b != 0x18 && b != 0x1A && counted.count <= p.limit && b != 0x5C {
      StepNoEmptyText(p.(count := 0, osc := [], state := Escape), b);
    } else {
      assert NoText(EndOsc(counted).1);
    }
  }

  // ----- feeds -----

  lemma {:induction false} BytesCalm(p: Parser, s: Bytes)
    requires Calm(p)
    ensures Calm(FeedBytes(p, s).0) && NoEmptyText(FeedBytes(p, s).1)
  {
    if s != [] {
      var n := |s| - 1;
      BytesCalm(p, s[..n]);
      StepCalm(FeedBytes(p, s[..n]).0, s[n]);
      StepNoEmptyText(FeedBytes(p, s[..n]).0, s[n]);
    }
  }

  /** What a byte adds to what is shown, a run before it aside. */
  function Added(p: Parser, b: Byte): seq<Atom> {
    Flat(FeedByte(Bare(p), b).1) + Shown(FeedByte(Bare(p), b).0)
  }

  lemma ByteAdds(p: Parser, b: Byte)
    requires Calm(p)
    ensures Bare(FeedByte(p, b).0) == Bare(FeedByte(Bare(p), b).0)
    ensures Flat(FeedByte(p, b).1) + Shown(FeedByte(p, b).0) == Shown(p) + Added(p, b)
  {
    ByteBare(p, b);
  }

  /** Bytes do the same whatever run came before them. */
  lemma {:induction false} BytesBare(p: Parser, s: Bytes)
    requires Calm(p)
    ensures var (p', e), (q, f) := FeedBytes(p, s), FeedBytes(Bare(p), s);
      Bare(p') == Bare(q) && Flat(e) + Shown(p') == Shown(p) + (Flat(f) + Shown(q))
  {
    if s == [] {
      assert Chars("") == [];
    } else {
      var n := |s| - 1;
      BytesBare(p, s[..n]);
      BytesCalm(p, s[..n]);
      BytesCalm(Bare(p), s[..n]);
      var (p1, e1) := FeedBytes(p, s[..n]);
      var (q1, f1) := FeedBytes(Bare(p), s[..n]);
      ByteAdds(p1, s[n]);
      ByteAdds(q1, s[n]);
      var (p2, e2) := FeedByte(p1, s[n]);
      var (q2, f2) := FeedByte(q1, s[n]);
      FlatAppend(e1, e2);
      FlatAppend(f1, f2);
      Rebracket(Flat(e1), Flat(e2), Shown(p2), Shown(p1), Added(p1, s[n]), Shown(p), Flat(f1), Shown(q1), Flat(f2),
                Shown(q2));
    }
  }

  lemma Rebracket(e1: seq<Atom>, e2: seq<Atom>, p2: seq<Atom>, p1: seq<Atom>, rest: seq<Atom>, p: seq<Atom>,
                  f1: seq<Atom>, q1: seq<Atom>, f2: seq<Atom>, q2: seq<Atom>)
    requires e2 + p2 == p1 + rest && f2 + q2 == q1 + rest && e1 + p1 == p + (f1 + q1)
    ensures (e1 + e2) + p2 == p + ((f1 + f2) + q2)
  {
    assert (e1 + e2) + p2 == e1 + (e2 + p2);
    assert e1 + (p1 + rest) == (e1 + p1) + rest;
    assert (p + (f1 + q1)) + rest == p + (f1 + (q1 + rest));
    assert (f1 + f2) + q2 == f1 + (f2 + q2);
  }

  /** Between feeds no run is held. */
  ghost predicate AtBoundary(p: Parser) {
    Calm(p) && p.run == ""
  }

  lemma FeedIs(p: Parser, s: Bytes)
    requires Calm(p)
    ensures var (p', e) := FeedBytes(p, s);
      && Feed(p, s).0 == Bare(p') && Flat(Feed(p, s).1) == Flat(e) + Shown(p') && NoEmptyText(Feed(p, s).1)
      && AtBoundary(Feed(p, s).0)
  {
    var (p', e) := FeedBytes(p, s);
    BytesCalm(p, s);
    FlatText(p'.run);
    FlatAppend(e, Visible(p', TextOf(p'.run)));
  }

  /** Feeding bytes in two feeds is feeding them in one. */
  lemma FeedTwice(p: Parser, s: Bytes, u: Bytes)
    requires AtBoundary(p)
    ensures var (p1, e1) := Feed(p, s); var (p2, e2) := Feed(p1, u);
      Feed(p, s + u).0 == p2 && Flat(Feed(p, s + u).1) == Flat(e1) + Flat(e2)
  {
    var (p1, e1) := FeedBytes(p, s);
    var (p2, e2) := FeedBytes(p1, u);
    var (q2, f2) := FeedBytes(Bare(p1), u);
    assert FeedBytes(p, s + u) == (p2, e1 + e2) by { StepsAppend(FeedByte, p, s, u); }
    assert Calm(p1) by { BytesCalm(p, s); }
    assert Feed(p, s).0 == Bare(p1) && Flat(Feed(p, s).1) == Flat(e1) + Shown(p1) by { FeedIs(p, s); }
    assert Feed(p, s + u).0 == Bare(p2) && Flat(Feed(p, s + u).1) == Flat(e1 + e2) + Shown(p2) by { FeedIs(p, s + u); }
    assert Feed(Bare(p1), u).0 == Bare(q2) && Flat(Feed(Bare(p1), u).1) == Flat(f2) + Shown(q2) by {
      FeedIs(Bare(p1), u);
    }
    assert Bare(p2) == Bare(q2) && Flat(e2) + Shown(p2) == Shown(p1) + (Flat(f2) + Shown(q2)) by { BytesBare(p1, u); }
    FlatAppend(e1, e2);
    Telescoped(Flat(e1), Flat(e2), Shown(p2), Shown(p1), Flat(f2) + Shown(q2));
  }

  lemma Telescoped(e1: seq<Atom>, e2: seq<Atom>, p2: seq<Atom>, p1: seq<Atom>, rest: seq<Atom>)
    requires e2 + p2 == p1 + rest
    ensures (e1 + e2) + p2 == (e1 + p1) + rest
  {
    assert (e1 + e2) + p2 == e1 + (e2 + p2);
    assert e1 + (p1 + rest) == (e1 + p1) + rest;
  }

  function FeedChunks(p: Parser, chunks: seq<Bytes>): (Parser, seq<Event>) {
    if chunks == [] then (p, [])
    else
      var (p1, e1) := FeedChunks(p, chunks[..|chunks| - 1]);
      var (p2, e2) := Feed(p1, chunks[|chunks| - 1]);
      (p2, e1 + e2)
  }

  function Concat(chunks: seq<Bytes>): Bytes {
    if chunks == [] then [] else Concat(chunks[..|chunks| - 1]) + chunks[|chunks| - 1]
  }

  lemma FeedNothing(p: Parser)
    requires AtBoundary(p)
    ensures Feed(p, []) == (p, [])
  {
    assert Feed(p, []).1 == [] && Feed(p, []).0 == p;
  }

  lemma {:induction false} ChunksFlat(p: Parser, chunks: seq<Bytes>)
    requires AtBoundary(p)
    ensures var (p', e) := FeedChunks(p, chunks);
      && Feed(p, Concat(chunks)).0 == p' && AtBoundary(p') && NoEmptyText(e)
      && Flat(Feed(p, Concat(chunks)).1) == Flat(e)
  {
    if chunks == [] {
      FeedNothing(p);
    } else {
      var n := |chunks| - 1;
      ChunksFlat(p, chunks[..n]);
      FeedTwice(p, Concat(chunks[..n]), chunks[n]);
      var (p1, e1) := FeedChunks(p, chunks[..n]);
      FeedIs(p1, chunks[n]);
      FlatAppend(e1, Feed(p1, chunks[n]).1);
    }
  }

  /** Feeding bytes in any chunks leaves the parser as feeding them at once, and emits
      the same events once adjacent texts are joined. */
  lemma ChunksDecideNothing(p: Parser, chunks: seq<Bytes>)
    requires AtBoundary(p)
    ensures FeedChunks(p, chunks).0 == Feed(p, Concat(chunks)).0
    ensures Merge(FeedChunks(p, chunks).1) == Merge(Feed(p, Concat(chunks)).1)
  {
    ChunksFlat(p, chunks);
    FeedIs(p, Concat(chunks));
    SameMerged(FeedChunks(p, chunks).1, Feed(p, Concat(chunks)).1);
  }

  /** A new parser holds no run, and every feed and finish leaves one so. */
  lemma BoundaryKept(p: Parser, s: Bytes, profile: Profile, limit: nat)
    requires AtBoundary(p)
    ensures AtBoundary(NewParser(profile, limit)) && AtBoundary(Feed(p, s).0) && AtBoundary(Finish(p).0)
  {
    FeedIs(p, s);
  }
}
