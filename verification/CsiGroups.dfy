/** The parameters of any control sequence (src/ansi.rs; section 5.4 of ECMA-48): its
    bytes cut at the semicolons, and each group cut at the colons. */
module CsiGroups {
  import opened Options
  import opened Utf8
  import opened CsiParams

  /** The pieces between separators; one more than there are separators. */
  function Split(s: Bytes, at: Byte): (pieces: seq<Bytes>)
    ensures pieces != []
  {
    if s == [] then [[]]
    else
      var before, b := Split(s[..|s| - 1], at), s[|s| - 1];
      if b == at then before + [[]] else before[|before| - 1 := before[|before| - 1] + [b]]
  }

  function Join(pieces: seq<Bytes>, at: Byte): Bytes {
    if pieces == [] then []
    else if |pieces| == 1 then pieces[0]
    else Join(pieces[..|pieces| - 1], at) + [at] + pieces[|pieces| - 1]
  }

  lemma JoinGrows(pieces: seq<Bytes>, at: Byte, b: Byte)
    requires pieces != []
    ensures Join(pieces[|pieces| - 1 := pieces[|pieces| - 1] + [b]], at) == Join(pieces, at) + [b]
  {
    var n := |pieces| - 1;
    if n > 0 {
      assert pieces[n := pieces[n] + [b]][..n] == pieces[..n];
      assert Join(pieces[..n], at) + [at] + (pieces[n] + [b]) == Join(pieces[..n], at) + [at] + pieces[n] + [b];
    }
  }

  lemma JoinEmpty(pieces: seq<Bytes>, at: Byte)
    requires pieces != []
    ensures Join(pieces + [[]], at) == Join(pieces, at) + [at]
  {
    assert (pieces + [[]])[..|pieces|] == pieces;
    assert Join(pieces, at) + [at] + [] == Join(pieces, at) + [at];
  }

  /** The pieces joined are the whole again, and none holds a separator. */
  lemma {:induction false} SplitIs(s: Bytes, at: Byte)
    ensures Join(Split(s, at), at) == s
    ensures forall piece :: piece in Split(s, at) ==> at !in piece
  {
    if s != [] {
      var before, b := Split(s[..|s| - 1], at), s[|s| - 1];
      assert s == s[..|s| - 1] + [b];
      SplitIs(s[..|s| - 1], at);
      if b == at {
        JoinEmpty(before, at);
      } else {
        JoinGrows(before, at, b);
        assert before[|before| - 1] in before;
      }
    }
  }

  lemma {:induction false} SplitWithin(s: Bytes, at: Byte)
    ensures forall piece, b :: piece in Split(s, at) && b in piece ==> b in s
  {
    if s != [] {
      var before := Split(s[..|s| - 1], at);
      SplitWithin(s[..|s| - 1], at);
      assert before[|before| - 1] in before;
    }
  }

  /** A number: none is zero, and one too great is the greatest. */
  ghost function NumberOf(s: Bytes): nat {
    if AllDigits(s) then Saturated(Value(s)) else 0
  }

  ghost function NumbersOf(pieces: seq<Bytes>): seq<nat> {
    seq(|pieces|, i requires 0 <= i < |pieces| => NumberOf(pieces[i]))
  }

  /** A group: its value, and a subparameter for each of its colons. */
  ghost function GroupOf(s: Bytes): Param {
    var fields := Split(s, Colon);
    Param(NumberOf(fields[0]), NumbersOf(fields[1..]))
  }

  ghost function GroupsOf(pieces: seq<Bytes>): seq<Param> {
    seq(|pieces|, i requires 0 <= i < |pieces| => GroupOf(pieces[i]))
  }

  /** The groups of a sequence's parameter bytes; an empty one counts unless it is the
      last. */
  ghost function Groups(s: Bytes): seq<Param> {
    var pieces := Split(s, Semicolon);
    GroupsOf(if pieces[|pieces| - 1] == [] then pieces[..|pieces| - 1] else pieces)
  }

  /** What the collector holds of the group under way, from its fields. */
  ghost predicate Fielded(c: Collector, fields: seq<Bytes>)
    requires fields != []
  {
    var n := |fields| - 1;
    && c.main == (if fields[0] == [] then None else Some(NumberOf(fields[0])))
    && (c.inSubs <==> n > 0)
    && c.subs == (if n > 0 then NumbersOf(fields[1..n]) else [])
    && c.acc == (if n == 0 || fields[n] == [] then None else Some(NumberOf(fields[n])))
  }

  ghost predicate Underway(c: Collector, group: Bytes) {
    Fielded(c, Split(group, Colon))
  }

  lemma NumberGrows(s: Bytes, b: Byte)
    requires AllDigits(s) && IsDigit(b)
    ensures NumberOf(s + [b]) ==
      Saturated(Saturated(Or(if s == [] then None else Some(NumberOf(s)), 0) * 10) + (b - 0x30))
  {
    assert (s + [b])[..|s|] == s && AllDigits(s + [b]);
    SaturatedStep(Value(s), b - 0x30);
  }

  lemma SplitSnoc(s: Bytes, at: Byte, b: Byte)
    ensures var before := Split(s, at);
      Split(s + [b], at) == if b == at then before + [[]] else before[|before| - 1 := before[|before| - 1] + [b]]
  {
    assert (s + [b])[..|s|] == s;
  }

  ghost predicate AllFields(fields: seq<Bytes>) {
    forall f :: f in fields ==> AllDigits(f)
  }

  lemma {:induction false} FieldsAreDigits(group: Bytes)
    requires AllParam(group) && Semicolon !in group
    ensures AllFields(Split(group, Colon))
  {
    SplitIs(group, Colon);
    SplitWithin(group, Colon);
    forall f | f in Split(group, Colon) ensures AllDigits(f) {
      forall i | 0 <= i < |f| ensures IsDigit(f[i]) {
        assert f[i] in f && f[i] in group;
        var j :| 0 <= j < |group| && group[j] == f[i];
        assert IsParam(group[j]);
      }
    }
  }

  lemma DigitFielded(c: Collector, fields: seq<Bytes>, b: Byte)
    requires fields != [] && Fielded(c, fields) && AllDigits(fields[|fields| - 1]) && IsDigit(b)
    ensures Fielded(PushDigit(c, b - 0x30), fields[|fields| - 1 := fields[|fields| - 1] + [b]])
  {
    var n := |fields| - 1;
    var fields' := fields[n := fields[n] + [b]];
    NumberGrows(fields[n], b);
    if n > 0 {
      assert fields'[1..n] == fields[1..n];
    }
  }

  lemma DigitUnderway(c: Collector, group: Bytes, b: Byte)
    requires Underway(c, group) && AllFields(Split(group, Colon)) && IsDigit(b)
    ensures Underway(PushDigit(c, b - 0x30), group + [b])
  {
    var fields := Split(group, Colon);
    SplitSnoc(group, Colon, b);
    assert fields[|fields| - 1] in fields;
    DigitFielded(c, fields, b);
  }

  lemma ColonUnderway(c: Collector, group: Bytes)
    requires Underway(c, group)
    ensures Underway(PushColon(c), group + [Colon])
  {
    var fields := Split(group, Colon);
    var n := |fields| - 1;
    SplitSnoc(group, Colon, Colon);
    var fields' := fields + [[]];
    assert fields'[1..n + 1] == fields[1..];
    if n > 0 {
      assert fields[1..] == fields[1..n] + [fields[n]];
      assert NumbersOf(fields[1..]) == NumbersOf(fields[1..n]) + [NumberOf(fields[n])];
    }
  }

  lemma GroupUnderway(c: Collector, group: Bytes)
    requires Underway(c, group)
    ensures Group(c) == GroupOf(group)
    ensures (c.main.Some? || c.inSubs || c.subs != []) <==> group != []
  {
    var fields := Split(group, Colon);
    var n := |fields| - 1;
    SplitIs(group, Colon);
    if n > 0 {
      assert fields[1..] == fields[1..n] + [fields[n]];
      assert NumbersOf(fields[1..]) == NumbersOf(fields[1..n]) + [NumberOf(fields[n])];
    } else {
      assert NumbersOf(fields[1..]) == [];
    }
  }

  /** What the collector holds of all it has met. */
  ghost predicate Holds(c: Collector, s: Bytes) {
    var pieces := Split(s, Semicolon);
    c.params == GroupsOf(pieces[..|pieces| - 1]) && Underway(c, pieces[|pieces| - 1])
  }

  lemma PieceFields(s: Bytes)
    requires AllParam(s)
    ensures var pieces := Split(s, Semicolon); AllFields(Split(pieces[|pieces| - 1], Colon))
  {
    var pieces := Split(s, Semicolon);
    var last := pieces[|pieces| - 1];
    SplitIs(s, Semicolon);
    SplitWithin(s, Semicolon);
    forall i | 0 <= i < |last| ensures IsParam(last[i]) {
      assert last[i] in last && last[i] in s;
      var j :| 0 <= j < |s| && s[j] == last[i];
    }
    FieldsAreDigits(last);
  }

  lemma HoldsMore(c: Collector, s: Bytes, b: Byte)
    requires AllParam(s) && IsParam(b) && Holds(c, s)
    ensures Holds(Collect(c, b), s + [b])
  {
    var pieces := Split(s, Semicolon);
    var n := |pieces| - 1;
    SplitSnoc(s, Semicolon, b);
    if b == Semicolon {
      GroupUnderway(c, pieces[n]);
      assert (pieces + [[]])[..n + 1] == pieces && pieces == pieces[..n] + [pieces[n]];
      assert GroupsOf(pieces) == GroupsOf(pieces[..n]) + [GroupOf(pieces[n])];
    } else {
      assert pieces[n := pieces[n] + [b]][..n] == pieces[..n];
      if b == Colon {
        ColonUnderway(c, pieces[n]);
      } else {
        PieceFields(s);
        DigitUnderway(c, pieces[n], b);
      }
    }
  }

  lemma {:induction false} Held(s: Bytes)
    requires AllParam(s)
    ensures Holds(CollectAll(NewCollector, s), s)
  {
    if s != [] {
      var before, b := s[..|s| - 1], s[|s| - 1];
      assert s == before + [b];
      Held(before);
      CollectAppend(NewCollector, before, [b]);
      CollectOne(CollectAll(NewCollector, before), b);
      HoldsMore(CollectAll(NewCollector, before), before, b);
    }
  }

  /** Whatever the parameter bytes, the groups collected are those they spell. */
  lemma CollectedGroups(s: Bytes)
    requires AllParam(s)
    ensures Finalize(CollectAll(NewCollector, s)) == Groups(s)
  {
    var c, pieces := CollectAll(NewCollector, s), Split(s, Semicolon);
    var n := |pieces| - 1;
    Held(s);
    GroupUnderway(c, pieces[n]);
    assert pieces == pieces[..n] + [pieces[n]];
    assert GroupsOf(pieces) == GroupsOf(pieces[..n]) + [GroupOf(pieces[n])];
  }
}
