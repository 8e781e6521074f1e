/** The parameters of a control sequence, collected byte by byte (`CsiCollector` in
    src/ansi.rs; section 5.4 of ECMA-48). */
module CsiParams {
  import opened Options
  import opened Utf8

  /** One parameter group: its value, and the subparameters after it. */
  datatype Param = Param(main: nat, sub: seq<nat>)

  const Max: nat := 0xFFFF_FFFF

  function Saturated(n: nat): nat {
    if n > Max then Max else n
  }

  /** The groups collected, the one in progress, and what stands around them. */
  datatype Collector = Collector(params: seq<Param>, main: Option<nat>, subs: seq<nat>, acc: Option<nat>, inSubs: bool,
                                 marker: Option<Byte>, intermediates: Bytes)

  const NewCollector := Collector([], None, [], None, false, None, [])

  /** A digit of the value, or after a colon of the subparameter. */
  function PushDigit(c: Collector, d: nat): Collector {
    if c.inSubs then c.(acc := Some(Saturated(Saturated(Or(c.acc, 0) * 10) + d)))
    else c.(main := Some(Saturated(Saturated(Or(c.main, 0) * 10) + d)))
  }

  function PushColon(c: Collector): Collector {
    if c.inSubs then c.(subs := c.subs + [Or(c.acc, 0)], acc := None) else c.(inSubs := true)
  }

  /** The group in progress, closed. */
  function Group(c: Collector): Param {
    Param(Or(c.main, 0), if c.inSubs then c.subs + [Or(c.acc, 0)] else c.subs)
  }

  function PushSemicolon(c: Collector): Collector {
    c.(params := c.params + [Group(c)], subs := [], acc := if c.inSubs then None
       else c.acc, main := None, inSubs := false)
  }

  /** The parameters, the group in progress with them if it has begun. */
  function Finalize(c: Collector): seq<Param> {
    if c.main.Some? || c.inSubs || c.subs != [] then c.params + [Group(c)] else c.params
  }

  // ----- collecting bytes -----

  const Colon: Byte := 0x3A
  const Semicolon: Byte := 0x3B

  predicate IsDigit(b: Byte) {
    0x30 <= b <= 0x39
  }

  predicate IsParam(b: Byte) {
    IsDigit(b) || b == Colon || b == Semicolon
  }

  predicate AllParam(s: Bytes) {
    forall i :: 0 <= i < |s| ==> IsParam(s[i])
  }

  predicate AllDigits(s: Bytes) {
    forall i :: 0 <= i < |s| ==> IsDigit(s[i])
  }

  function Collect(c: Collector, b: Byte): Collector
    requires IsParam(b)
  {
    if IsDigit(b) then PushDigit(c, b - 0x30) else if b == Colon then PushColon(c) else PushSemicolon(c)
  }

  function CollectAll(c: Collector, s: Bytes): Collector
    requires AllParam(s)
    decreases |s|
  {
    if s == [] then c else CollectAll(Collect(c, s[0]), s[1..])
  }

  lemma {:induction false} CollectAppend(c: Collector, s: Bytes, u: Bytes)
    requires AllParam(s) && AllParam(u)
    ensures CollectAll(c, s + u) == CollectAll(CollectAll(c, s), u)
    decreases |s|
  {
    if s == [] {
      assert s + u == u;
    } else {
      assert (s + u)[1..] == s[1..] + u;
      CollectAppend(Collect(c, s[0]), s[1..], u);
    }
  }

  lemma CollectOne(c: Collector, b: Byte)
    requires IsParam(b)
    ensures CollectAll(c, [b]) == Collect(c, b)
  {
    assert [b][1..] == [];
  }

  // ----- digits -----

  function Value(s: Bytes): nat
    requires AllDigits(s)
  {
    if s == [] then 0 else (assert IsDigit(s[|s| - 1]); Value(s[..|s| - 1]) * 10 + (s[|s| - 1] - 0x30))
  }

  lemma SaturatedStep(v: nat, d: nat)
    requires d < 10
    ensures Saturated(Saturated(Saturated(v) * 10) + d) == Saturated(v * 10 + d)
  {
  }

  /** Digits of any length accumulate to their value, or to the greatest there is. */
  lemma {:induction false} DigitsSaturate(c: Collector, s: Bytes)
    requires s != [] && AllDigits(s) && (if c.inSubs then c.acc.None? else c.main.None?)
    ensures CollectAll(c, s) == if c.inSubs then c.(acc := Some(Saturated(Value(s))))
      else c.(main := Some(Saturated(Value(s))))
  {
    var before, b := s[..|s| - 1], s[|s| - 1];
    assert s == before + [b];
    CollectAppend(c, before, [b]);
    CollectOne(CollectAll(c, before), b);
    if before == [] {
      FirstDigit(c, b - 0x30);
    } else {
      DigitsSaturate(c, before);
      NextDigit(c, Value(before), b - 0x30);
    }
  }

  lemma FirstDigit(c: Collector, d: nat)
    requires d < 10 && (if c.inSubs then c.acc.None? else c.main.None?)
    ensures PushDigit(c, d) == if c.inSubs then c.(acc := Some(Saturated(d))) else c.(main := Some(Saturated(d)))
  {
  }

  lemma NextDigit(c: Collector, v: nat, d: nat)
    requires d < 10
    ensures PushDigit(if c.inSubs then c.(acc := Some(Saturated(v))) else c.(main := Some(Saturated(v))), d) ==
      if c.inSubs then c.(acc := Some(Saturated(v * 10 + d))) else c.(main := Some(Saturated(v * 10 + d)))
  {
    SaturatedStep(v, d);
  }

  function Decimal(n: nat): (s: Bytes)
    ensures s != [] && AllDigits(s)
  {
    if n < 10 then [0x30 + n] else Decimal(n / 10) + [0x30 + n % 10]
  }

  lemma {:induction false} ValueOfDecimal(n: nat)
    ensures Value(Decimal(n)) == n
  {
    var s := Decimal(n);
    if n >= 10 {
      ValueOfDecimal(n / 10);
      assert s[..|s| - 1] == Decimal(n / 10);
    } else {
      assert s[..0] == [];
    }
  }

  // ----- printing and collecting -----

  function PrintSubs(subs: seq<nat>): (s: Bytes)
    ensures AllParam(s)
  {
    if subs == [] then [] else PrintSubs(subs[..|subs| - 1]) + [Colon] + Decimal(subs[|subs| - 1])
  }

  function PrintGroup(p: Param): (s: Bytes)
    ensures AllParam(s)
  {
    Decimal(p.main) + PrintSubs(p.sub)
  }

  /** Groups with semicolons between. */
  function Print(params: seq<Param>): (s: Bytes)
    ensures AllParam(s)
  {
    if params == [] then []
    else if |params| == 1 then PrintGroup(params[0])
    else Print(params[..|params| - 1]) + [Semicolon] + PrintGroup(params[|params| - 1])
  }

  ghost predicate InRange(p: Param) {
    p.main <= Max && forall i :: 0 <= i < |p.sub| ==> p.sub[i] <= Max
  }

  /** A group just begun, with its value and all its subparameters but the last. */
  function Begun(c: Collector, p: Param): Collector {
    if p.sub == [] then c.(main := Some(p.main))
    else c.(main := Some(p.main), inSubs := true, subs := p.sub[..|p.sub| - 1], acc := Some(p.sub[|p.sub| - 1]))
  }

  ghost predicate Fresh(c: Collector) {
    c.main.None? && c.subs == [] && c.acc.None? && !c.inSubs
  }

  lemma CollectDecimal(c: Collector, n: nat)
    requires n <= Max && (if c.inSubs then c.acc.None? else c.main.None?)
    ensures CollectAll(c, Decimal(n)) == if c.inSubs then c.(acc := Some(n)) else c.(main := Some(n))
  {
    DigitsSaturate(c, Decimal(n));
    ValueOfDecimal(n);
  }

  lemma {:induction false} CollectGroup(c: Collector, main: nat, subs: seq<nat>)
    requires Fresh(c) && main <= Max && forall i :: 0 <= i < |subs| ==> subs[i] <= Max
    ensures CollectAll(c, PrintGroup(Param(main, subs))) == Begun(c, Param(main, subs))
  {
    if subs == [] {
      CollectDecimal(c, main);
      assert Decimal(main) + PrintSubs([]) == Decimal(main);
    } else {
      var n := |subs| - 1;
      var rest, last := subs[..n], subs[n];
      CollectGroup(c, main, rest);
      var s, c1 := PrintGroup(Param(main, rest)), Begun(c, Param(main, rest));
      assert PrintGroup(Param(main, subs)) == s + [Colon] + Decimal(last);
      CollectAppend(c, s + [Colon], Decimal(last));
      CollectAppend(c, s, [Colon]);
      CollectOne(c1, Colon);
      var c2 := PushColon(c1);
      assert c2.inSubs && c2.acc.None? && c2.subs == rest && c2.main == Some(main);
      CollectDecimal(c2, last);
    }
  }

  lemma SemicolonAfter(c: Collector, done: seq<Param>, p: Param)
    requires Fresh(c)
    ensures PushSemicolon(Begun(c.(params := c.params + done), p)) == c.(params := c.params + (done + [p]))
  {
    BegunGroup(c.(params := c.params + done), p);
    assert (c.params + done) + [p] == c.params + (done + [p]);
  }

  lemma PrintLast(c: Collector, c1: Collector, s: Bytes, last: Param)
    requires AllParam(s) && CollectAll(c, s) == c1 && Fresh(PushSemicolon(c1)) && InRange(last)
    ensures AllParam(s + [Semicolon] + PrintGroup(last))
    ensures CollectAll(c, s + [Semicolon] + PrintGroup(last)) == Begun(PushSemicolon(c1), last)
  {
    CollectAppend(c, s + [Semicolon], PrintGroup(last));
    CollectAppend(c, s, [Semicolon]);
    CollectOne(c1, Semicolon);
    CollectGroup(PushSemicolon(c1), last.main, last.sub);
  }

  lemma {:induction false} PrintedBegins(c: Collector, params: seq<Param>)
    requires Fresh(c) && params != [] && forall i :: 0 <= i < |params| ==> InRange(params[i])
    ensures CollectAll(c, Print(params)) == Begun(c.(params := c.params + params[..|params| - 1]), params[|params| - 1])
  {
    var n := |params| - 1;
    var last := params[n];
    if n == 0 {
      assert c.params + params[..0] == c.params;
      CollectGroup(c, last.main, last.sub);
    } else {
      var init := params[..n];
      PrintedBegins(c, init);
      SemicolonAfter(c, init[..n - 1], init[n - 1]);
      assert init[..n - 1] + [init[n - 1]] == init;
      PrintLast(c, CollectAll(c, Print(init)), Print(init), last);
    }
  }

  /** Printing parameter groups and collecting what was printed gives them back. */
  lemma CollectPrinted(params: seq<Param>)
    requires params != [] && forall i :: 0 <= i < |params| ==> InRange(params[i])
    ensures Finalize(CollectAll(NewCollector, Print(params))) == params
  {
    var init, last := params[..|params| - 1], params[|params| - 1];
    assert init + [last] == params;
    assert CollectAll(NewCollector, Print(params)) == Begun(NewCollector.(params := init), last) by {
      PrintedBegins(NewCollector, params);
      assert [] + init == init;
    }
    BegunGroup(NewCollector.(params := init), last);
  }

  lemma BegunGroup(c: Collector, p: Param)
    requires Fresh(c)
    ensures Group(Begun(c, p)) == p && Finalize(Begun(c, p)) == c.params + [p]
    ensures PushSemicolon(Begun(c, p)) == c.(params := c.params + [p])
  {
    if p.sub != [] {
      assert p.sub[..|p.sub| - 1] + [p.sub[|p.sub| - 1]] == p.sub;
    }
  }
}
