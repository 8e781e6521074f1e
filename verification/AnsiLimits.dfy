/** What a sequence under way retains (src/ansi.rs): never more than the byte limit it was
    configured with, and only what its state has a use for. */
module AnsiLimits {
  import opened Utf8
  import opened CsiParams
  import opened AnsiEvents
  import opened AnsiMachine
  import opened AnsiChunks
  import opened ByteSteps

  /** The groups and the subparameters of each. */
  function GroupsSize(params: seq<Param>): nat {
    if params == [] then 0 else GroupsSize(params[..|params| - 1]) + 1 + |params[|params| - 1].sub|
  }

  /** What the collector holds. */
  function Held(c: Collector): nat {
    GroupsSize(c.params) + |c.subs| + (if c.main.Some? then 1 else 0) + (if c.inSubs then 1 else 0) + |c.intermediates|
  }

  predicate InCsi(s: State) {
    s.CsiEntry? || s.CsiParam? || s.CsiIntermediate? || s.CsiIgnore?
  }

  predicate InOsc(s: State) {
    s.OscString? || s.OscEscPending?
  }

  /** Each list is empty outside its own states, and within them as long as the bytes
      counted, which are within the limit. */
  ghost predicate Bounded(p: Parser) {
    && p.count <= p.limit
    && (if InOsc(p.state) then |p.osc| <= p.count else p.osc == [])
    && (if p.state.EscapeIntermediate? then |p.escape| <= p.count else p.escape == [])
    && (if InCsi(p.state) then Held(p.csi) <= p.count else p.csi == NewCollector)
  }

  lemma GroupsSizeOne(params: seq<Param>, p: Param)
    ensures GroupsSize(params + [p]) == GroupsSize(params) + 1 + |p.sub|
  {
    assert (params + [p])[..|params|] == params;
  }

  /** A byte adds at most one to what is held. */
  lemma CollectHeld(c: Collector, b: Byte)
    requires IsParam(b)
    ensures Held(Collect(c, b)) <= Held(c) + 1
  {
    if b == Semicolon {
      GroupsSizeOne(c.params, Group(c));
    }
  }

  lemma CsiBounded(p: Parser, b: Byte)
    requires InCsi(p.state) && !p.state.CsiIgnore? && 0 < p.count <= p.limit && Held(p.csi) < p.count && p.osc == []
      && p.escape == []
    ensures Bounded(FeedCsi(p, b).0) && FeedCsi(p, b).0.limit == p.limit
  {
    if IsParam(b) {
      CollectHeld(p.csi, b);
    } else if 0x40 <= b <= 0x7E {
      SwitchRun(p, Finalize(p.csi), b == 0x68);
    }
  }

  /** A byte in a state that collects a control sequence leaves it by one more byte. */
  lemma CsiByteBounded(p: Parser, b: Byte)
    requires Bounded(p) && InCsi(p.state) && !p.state.CsiIgnore?
    ensures Bounded(FeedByte(p, b).0) && FeedByte(p, b).0.limit == p.limit
  {
    if b != 0x1B && b != 0x18 && b != 0x1A && p.count + 1 <= p.limit {
      assert FeedByte(p, b) == FeedCsi(p.(count := p.count + 1), b);
      CsiBounded(p.(count := p.count + 1), b);
    } else {
      assert InCsi(FeedByte(p, b).0.state) ==> FeedByte(p, b).0.csi == NewCollector;
    }
  }

  lemma StringByteBounded(p: Parser, b: Byte)
    requires Bounded(p) && !InCsi(p.state) && !p.state.OscEscPending? && !p.state.Escape?
    ensures Bounded(FeedByte(p, b).0) && FeedByte(p, b).0.limit == p.limit
  {
  }

  lemma WaitByteBounded(p: Parser, b: Byte)
    requires Bounded(p) && (p.state.CsiIgnore? || p.state.Escape?)
    ensures Bounded(FeedByte(p, b).0) && FeedByte(p, b).0.limit == p.limit
  {
  }

  lemma PendingByteBounded(p: Parser, b: Byte)
    requires Bounded(p) && p.state.OscEscPending? && (b == 0x18 || b == 0x1A || p.count + 1 > p.limit || b == 0x5C)
    ensures Bounded(FeedByte(p, b).0) && FeedByte(p, b).0.limit == p.limit
  {
  }

  lemma ByteBounded(p: Parser, b: Byte)
    requires Bounded(p)
    ensures Bounded(FeedByte(p, b).0) && FeedByte(p, b).0.limit == p.limit
    decreases p.state.OscEscPending?
  {
    if p.state.OscEscPending? {
      if b != 0x18 && b != 0x1A && p.count + 1 <= p.limit && b != 0x5C {
        var q := p.(count := 0, osc := [], state := Escape);
        ByteBounded(q, b);
        assert FeedByte(p, b) == FeedByte(q, b);
      } else {
        PendingByteBounded(p, b);
      }
    } else if InCsi(p.state) && !p.state.CsiIgnore? {
      CsiByteBounded(p, b);
    } else if p.state.CsiIgnore? || p.state.Escape? {
      WaitByteBounded(p, b);
    } else {
      StringByteBounded(p, b);
    }
  }

  lemma {:induction false} BytesBounded(p: Parser, s: Bytes)
    requires Bounded(p)
    ensures Bounded(FeedBytes(p, s).0) && FeedBytes(p, s).0.limit == p.limit
  {
    if s != [] {
      BytesBounded(p, s[..|s| - 1]);
      ByteBounded(FeedBytes(p, s[..|s| - 1]).0, s[|s| - 1]);
    }
  }

  lemma {:induction false} GroupsCount(params: seq<Param>, i: nat)
    requires i < |params|
    ensures |params| <= GroupsSize(params) && |params[i].sub| < GroupsSize(params)
  {
    var n := |params| - 1;
    if i < n {
      GroupsCount(params[..n], i);
      assert params[..n][i] == params[i];
    } else if n > 0 {
      GroupsCount(params[..n], 0);
    }
  }

  /** In every run, after every byte: each list the parser retains is within the limit. */
  lemma RetainedWithinLimit(profile: Profile, limit: nat, s: Bytes, i: nat)
    ensures var p := FeedBytes(NewParser(profile, limit), s).0;
      && |p.osc| <= limit && |p.escape| <= limit && |p.csi.params| <= limit && |p.csi.subs| <= limit
      && |p.csi.intermediates| <= limit
      && (i < |p.csi.params| ==> |p.csi.params[i].sub| < limit)
  {
    BytesBounded(NewParser(profile, limit), s);
    var p := FeedBytes(NewParser(profile, limit), s).0;
    if p.csi.params != [] {
      GroupsCount(p.csi.params, if i < |p.csi.params| then i else 0);
    }
  }
}
