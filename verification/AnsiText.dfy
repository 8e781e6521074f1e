/** The text of a segment (src/ansi.rs): bytes that reach ground with no control byte or
    escape between them are decoded as if they had been given whole. */
module AnsiText {
  import opened Utf8
  import opened AnsiEvents
  import opened AnsiMachine
  import opened AnsiChunks
  import opened ByteSteps

  // ----- what each byte does on the ground -----

  /** The bytes that are text: printable ASCII and every high byte, and in a line-oriented
      stream the bell, the tab, the newline, the vertical tab and the form feed too. */
  predicate Printed(profile: Profile, b: Byte) {
    match profile
    case LineOriented => b == 0x07 || 0x09 <= b <= 0x0C || 0x20 <= b <= 0x7E || 0x80 <= b <= 0xFF
    case FullScreen => 0x20 <= b <= 0x7E || 0x80 <= b <= 0xFF
  }

  /** The bytes that commit the text run: ESC, CAN and SUB, and the controls that are
      operations: backspace and carriage return, and all from the bell to shift-in on a
      full screen. */
  predicate Interrupts(profile: Profile, b: Byte) {
    match profile
    case LineOriented => b in {0x08, 0x0D, 0x18, 0x1A, 0x1B}
    case FullScreen => 0x07 <= b <= 0x0F || b in {0x18, 0x1A, 0x1B}
  }

  /** What committing the text run shows: the run, and U+FFFD for the start of a sequence
      after it; nothing while the alternate screen hides a line-oriented stream. */
  function Committed(p: Parser): seq<Event> {
    var run := p.run + if p.pending == [] then "" else [Replacement];
    if run == "" || (p.profile.LineOriented? && p.alt) then [] else [Text(run)]
  }

  lemma CommittedIs(p: Parser)
    ensures FlushEvents(p) == Committed(p) && Flushed(p) == p.(run := "", pending := [])
  {
    assert p.run + "" == p.run;
  }

  /** The operation a control byte among text shows. */
  lemma ControlShown(p: Parser, b: Byte, e: Event)
    requires p.state.Ground?
    requires match e
      case CarriageReturn => b == 0x0D
      case Backspace => b == 0x08
      case Bell => b == 0x07 && p.profile.FullScreen?
      case HorizontalTab => b == 0x09 && p.profile.FullScreen?
      case LineFeed => (b == 0x0A || b == 0x0B || b == 0x0C) && p.profile.FullScreen?
      case ShiftOut => b == 0x0E && p.profile.FullScreen?
      case ShiftIn => b == 0x0F && p.profile.FullScreen?
      case _ => false
    ensures FeedByte(p, b) ==
      (p.(run := "", pending := []), Committed(p) + if p.profile.LineOriented? && p.alt then [] else [e])
  {
    CommittedIs(p);
  }

  /** Text joins the run; ESC begins a sequence; CAN and SUB only commit the run; and
      every other byte that interrupts nothing is dropped. */
  lemma GroundByte(p: Parser, b: Byte)
    requires p.state.Ground?
    ensures b == 0x1B ==> FeedByte(p, b) == (To(p.(run := "", pending := []), Escape), Committed(p))
    ensures b == 0x18 || b == 0x1A ==> FeedByte(p, b) == (To(p.(run := "", pending := []), Ground), Committed(p))
    ensures Printed(p.profile, b) ==>
      FeedByte(p, b) == (p.(run := p.run + Decode(p.pending + [b]).0, pending := Decode(p.pending + [b]).1), [])
    ensures !Printed(p.profile, b) && !Interrupts(p.profile, b) ==> FeedByte(p, b) == (p, [])
  {
    CommittedIs(p);
    PushTextIs(p, b);
  }

  /** A segment: bytes none of which interrupts. */
  ghost predicate Segment(profile: Profile, s: Bytes) {
    forall i :: 0 <= i < |s| ==> !Interrupts(profile, s[i])
  }

  /** The bytes of the segment that are text; the rest are dropped. */
  function TextBytes(profile: Profile, s: Bytes): Bytes {
    if s == [] then []
    else TextBytes(profile, s[..|s| - 1]) + if Printed(profile, s[|s| - 1]) then [s[|s| - 1]] else []
  }

  lemma DecodeAscii(b: Byte)
    requires b < 0x80
    ensures Decode([b]) == ([b as char], [])
  {
    assert Scan([b]) == Complete(1, b as char);
    assert [b][1..] == [];
    assert [b as char] + "" == [b as char];
  }

  /** The fast way for plain bytes is the same way. */
  lemma PushTextIs(p: Parser, b: Byte)
    ensures PushText(p, b) == p.(run := p.run + Decode(p.pending + [b]).0, pending := Decode(p.pending + [b]).1)
  {
    if p.pending == [] && b < 0x80 {
      assert p.pending + [b] == [b];
      DecodeAscii(b);
    }
  }

  lemma WithinSegment(p: Parser, b: Byte)
    requires p.state.Ground? && !Interrupts(p.profile, b)
    ensures FeedByte(p, b) == (if Printed(p.profile, b) then PushText(p, b) else p, [])
  {
    PushTextIs(p, b);
  }

  /** One more byte of a segment. */
  lemma SegmentMore(p: Parser, before: Bytes, b: Byte)
    ensures var (t, rest) := Decode(before); var (t', rest') := Decode(before + [b]);
      PushText(p.(run := p.run + t, pending := rest), b) == p.(run := p.run + t', pending := rest')
  {
    var (t, rest) := Decode(before);
    PushTextIs(p.(run := p.run + t, pending := rest), b);
    DecodeMore(before, [b]);
    assert (p.run + t) + Decode(rest + [b]).0 == p.run + (t + Decode(rest + [b]).0);
  }

  /** Ground decodes a segment as one. */
  lemma {:induction false} SegmentDecodes(p: Parser, s: Bytes)
    requires p.state.Ground? && p.pending == [] && Segment(p.profile, s)
    ensures FeedBytes(p, s).1 == []
    ensures var (t, rest) := Decode(TextBytes(p.profile, s)); FeedBytes(p, s).0 == p.(run := p.run + t, pending := rest)
  {
    if s == [] {
      assert p.run + "" == p.run;
    } else {
      var n := |s| - 1;
      var b := s[n];
      SegmentDecodes(p, s[..n]);
      var before := TextBytes(p.profile, s[..n]);
      var (t, rest) := Decode(before);
      var p1 := p.(run := p.run + t, pending := rest);
      WithinSegment(p1, b);
      if Printed(p.profile, b) {
        SegmentMore(p, before, b);
      } else {
        assert before + [] == before;
      }
    }
  }

  /** What is shown of a segment when something interrupts it, or the stream ends: its
      lossy decoding, one U+FFFD to each maximal ill-formed part of it. */
  lemma SegmentShown(p: Parser, s: Bytes)
    requires p.state.Ground? && p.run == "" && p.pending == [] && Segment(p.profile, s)
    ensures var text := Lossy(TextBytes(p.profile, s));
      FlushEvents(FeedBytes(p, s).0) == if text == "" || (p.profile.LineOriented? && p.alt) then [] else [Text(text)]
  {
    SegmentDecodes(p, s);
    var q := FeedBytes(p, s).0;
    CommittedIs(q);
    assert q.run == Decode(TextBytes(p.profile, s)).0;
    assert q.run + (if q.pending == [] then "" else [Replacement]) == Lossy(TextBytes(p.profile, s));
  }

  /** The pending bytes are never more than three, so the eight at which they would be
      given up are never reached. */
  lemma PendingIsShort(p: Parser, s: Bytes, b: Byte)
    requires Calm(p)
    ensures |FeedBytes(p, s).0.pending| <= 3 && |FeedBytes(p, s).0.pending + [b]| <= 4
  {
    BytesCalm(p, s);
  }
}
