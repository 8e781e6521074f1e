/** A remote edit brought to the rope (src/buffer.rs): from the change the CRDT reports
    when it is one insertion or one deletion, else from the texts before and after. */
module RemoteDiff {
  import opened Options
  import opened Sealing
  import opened Utf8
  import opened RopeEdits

  // ----- bytes and characters -----

  /** Where a character begins in the bytes. */
  function Offset(t: string, k: nat): nat
    requires k <= |t|
  {
    |EncodeAll(t[..k])|
  }

  lemma {:induction false} EncodeAppend(t: string, u: string)
    ensures EncodeAll(t + u) == EncodeAll(t) + EncodeAll(u)
  {
    if t == "" {
      assert t + u == u;
    } else {
      assert (t + u)[1..] == t[1..] + u && (t + u)[0] == t[0];
      EncodeAppend(t[1..], u);
    }
  }

  /** The bytes on either side of a character's beginning are those of the text on
      either side of it. */
  lemma OffsetCuts(t: string, k: nat)
    requires k <= |t|
    ensures Offset(t, k) <= |EncodeAll(t)|
    ensures EncodeAll(t)[..Offset(t, k)] == EncodeAll(t[..k]) && EncodeAll(t)[Offset(t, k)..] == EncodeAll(t[k..])
  {
    EncodeAppend(t[..k], t[k..]);
    assert t[..k] + t[k..] == t;
  }

  /** A byte index that is the end, or has no continuation byte at it. */
  predicate IsBoundary(s: Bytes, n: nat) {
    n == 0 || n == |s| || (n < |s| && !Continues(s[n]))
  }

  lemma EncodeContinues(c: char, n: nat)
    requires 0 < n < |Encode(c)|
    ensures Continues(Encode(c)[n])
  {
  }

  lemma EncodeLeads(c: char)
    ensures !Continues(Encode(c)[0])
  {
  }

  lemma {:induction false} BoundaryAt(t: string, n: nat) returns (k: nat)
    requires n <= |EncodeAll(t)| && IsBoundary(EncodeAll(t), n)
    ensures k <= |t| && n == Offset(t, k)
    decreases |t|
  {
    if n == 0 {
      k := 0;
      assert t[..0] == "";
    } else {
      var e := Encode(t[0]);
      if n < |e| {
        EncodeContinues(t[0], n);
      }
      assert n >= |e|;
      assert IsBoundary(EncodeAll(t[1..]), n - |e|) by {
        if n < |EncodeAll(t)| {
          assert EncodeAll(t)[n] == EncodeAll(t[1..])[n - |e|];
        }
      }
      var j := BoundaryAt(t[1..], n - |e|);
      k := j + 1;
      assert t[..k][0] == t[0] && t[..k][1..] == t[1..][..j];
    }
  }

  lemma OffsetIsBoundary(t: string, k: nat)
    requires k <= |t|
    ensures IsBoundary(EncodeAll(t), Offset(t, k))
  {
    OffsetCuts(t, k);
    if k < |t| {
      EncodeLeads(t[k]);
      assert t[k..][0] == t[k];
      assert EncodeAll(t)[Offset(t, k)..][0] == Encode(t[k])[0];
    } else {
      assert t[..k] == t;
    }
  }

  /** The byte indexes that pass the test are those at which characters begin, and the
      end. */
  lemma BoundaryIsOffset(t: string, n: nat)
    requires n <= |EncodeAll(t)|
    ensures IsBoundary(EncodeAll(t), n) <==> exists k :: 0 <= k <= |t| && n == Offset(t, k)
  {
    if IsBoundary(EncodeAll(t), n) {
      var k := BoundaryAt(t, n);
    }
    if k :| 0 <= k <= |t| && n == Offset(t, k) {
      OffsetIsBoundary(t, k);
    }
  }

  /** A text whose bytes begin with another's begins with it. */
  lemma TextBegins(t: string, u: string)
    requires EncodeAll(t) <= EncodeAll(u)
    ensures t <= u
  {
    var rest := EncodeAll(u)[|EncodeAll(t)|..];
    assert EncodeAll(u) == EncodeAll(t) + rest;
    DecodeMore(EncodeAll(t), rest);
    LossyOfEncoded(t);
    LossyOfEncoded(u);
    assert [] + rest == rest;
  }

  /** Where two texts have the same bytes so far, a beginning in one is one in the
      other. */
  lemma SharedBoundary(t: string, u: string, n: nat) returns (k: nat)
    requires n <= |EncodeAll(t)| && n <= |EncodeAll(u)| && EncodeAll(t)[..n] == EncodeAll(u)[..n]
      && IsBoundary(EncodeAll(t), n)
    ensures k <= |t| && k <= |u| && n == Offset(t, k) == Offset(u, k)
  {
    k := BoundaryAt(t, n);
    OffsetCuts(t, k);
    TextBegins(t[..k], u);
    assert u[..k] == t[..k];
  }

  // ----- the texts before and after -----

  method CountPrefix(a: Bytes, b: Bytes) returns (n: nat)
    ensures n == CommonPrefix(a, b)
  {
    n := 0;
    while n < |a| && n < |b| && a[n] == b[n]
      invariant n <= |a| && n <= |b| && a[..n] == b[..n]
    {
      assert a[..n + 1] == a[..n] + [a[n]] && b[..n + 1] == b[..n] + [b[n]];
      n := n + 1;
    }
    PrefixUnique(a, b, n, CommonPrefix(a, b));
  }

  method CountSuffix(a: Bytes, b: Bytes, max: nat) returns (n: nat)
    requires max <= |a| && max <= |b|
    ensures n <= max && a[|a| - n..] == b[|b| - n..]
  {
    n := 0;
    while n < |a| && n < |b| && n < max && a[|a| - 1 - n] == b[|b| - 1 - n]
      invariant n <= max && a[|a| - n..] == b[|b| - n..]
    {
      assert a[|a| - (n + 1)..] == [a[|a| - 1 - n]] + a[|a| - n..]
        && b[|b| - (n + 1)..] == [b[|b| - 1 - n]] + b[|b| - n..];
      n := n + 1;
    }
  }

  /** Bytes to replace, and what by. */
  datatype Change = Change(start: nat, end: nat, bytes: Bytes)

  /** The change truly leads from one text to the other, and cuts both between
      characters: a run of whole characters of the one for a run of the other's. */
  ghost predicate Brings(c: Change, t: string, u: string) {
    forall n: nat {:trigger Look(n)} :: Look(n) ==>
      && c.start <= c.end <= |EncodeAll(t)| && Splice(EncodeAll(t), c.start, c.end, c.bytes) == EncodeAll(u)
      && exists i, j, k {:trigger Cuts(c, t, u, i, j, k)} :: Cuts(c, t, u, i, j, k)
  }

  lemma BringsBy(c: Change, t: string, u: string, x: Bytes, y: Bytes, i: nat, j: nat, k: nat)
    requires x == EncodeAll(t) && y == EncodeAll(u) && Cuts(c, t, u, i, j, k)
    requires c.start <= c.end <= |x| && Splice(x, c.start, c.end, c.bytes) == y
    ensures Brings(c, t, u)
  {
  }

  ghost predicate Cuts(c: Change, t: string, u: string, i: nat, j: nat, k: nat) {
    && i <= j <= |t| && i <= k <= |u| && t == u[..i] + t[i..j] + u[k..]
    && c.start == Offset(t, i) && c.end == Offset(t, j) && c.bytes == EncodeAll(u[i..k])
  }

  lemma Assemble(old_: Bytes, new_: Bytes, p: nat, q: nat, r: nat)
    requires p <= q <= |old_| && p <= r <= |new_| && old_[..p] == new_[..p] && old_[q..] == new_[r..]
    ensures Splice(old_, p, q, new_[p..r]) == new_
  {
    assert new_ == new_[..p] + new_[p..r] + new_[r..];
  }

  /** A text between two beginnings. */
  lemma BetweenOffsets(t: string, i: nat, j: nat)
    requires i <= j <= |t|
    ensures Offset(t, i) <= Offset(t, j) <= |EncodeAll(t)|
      && EncodeAll(t)[Offset(t, i)..Offset(t, j)] == EncodeAll(t[i..j])
  {
    OffsetCuts(t, j);
    OffsetCuts(t[..j], i);
    assert t[..j][..i] == t[..i] && t[..j][i..] == t[i..j];
    assert EncodeAll(t)[Offset(t, i)..Offset(t, j)] == EncodeAll(t)[..Offset(t, j)][Offset(t, i)..];
  }

  lemma OffsetsApart(t: string, i: nat, j: nat)
    requires i < j <= |t|
    ensures Offset(t, i) < Offset(t, j)
  {
    BetweenOffsets(t, i, j);
    assert EncodeAll(t[i..j]) == Encode(t[i..j][0]) + EncodeAll(t[i..j][1..]);
  }

  lemma SameTail(t: string, u: string, j: nat, k: nat)
    requires j <= |t| && k <= |u| && Offset(t, j) <= |EncodeAll(t)| && Offset(u, k) <= |EncodeAll(u)|
    requires EncodeAll(t)[Offset(t, j)..] == EncodeAll(u)[Offset(u, k)..]
    ensures t[j..] == u[k..]
  {
    OffsetCuts(t, j);
    OffsetCuts(u, k);
    LossyOfEncoded(t[j..]);
    LossyOfEncoded(u[k..]);
  }

  lemma SameHead(t: string, u: string, i: nat)
    requires i <= |t| && i <= |u| && Offset(t, i) == Offset(u, i) <= |EncodeAll(t)| && Offset(t, i) <= |EncodeAll(u)|
    requires EncodeAll(t)[..Offset(t, i)] == EncodeAll(u)[..Offset(t, i)]
    ensures t[..i] == u[..i]
  {
    OffsetCuts(t, i);
    OffsetCuts(u, i);
    LossyOfEncoded(t[..i]);
    LossyOfEncoded(u[..i]);
  }

  lemma Glued(t: string, u: string, i: nat, j: nat, k: nat)
    requires i <= j <= |t| && i <= |u| && k <= |u| && t[..i] == u[..i] && t[j..] == u[k..]
    ensures t == u[..i] + t[i..j] + u[k..]
  {
    assert t == t[..i] + t[i..j] + t[j..];
  }

  /** The beginnings two common ends fall on. */
  lemma CutsFound(t: string, u: string, p: nat, q: nat, r: nat) returns (i: nat, j: nat, k: nat)
    requires var x, y := EncodeAll(t), EncodeAll(u);
      && p <= q <= |x| && p <= r <= |y| && x[..p] == y[..p]
      && IsBoundary(x, p) && IsBoundary(x, q) && IsBoundary(y, r)
    ensures i <= j <= |t| && i <= k <= |u| && p == Offset(t, i) == Offset(u, i)
    ensures Offset(t, j) == q && Offset(u, k) == r
  {
    i := SharedBoundary(t, u, p);
    j := BoundaryAt(t, q);
    k := BoundaryAt(u, r);
    if j < i { OffsetsApart(t, j, i); }
    if k < i { OffsetsApart(u, k, i); }
  }

  lemma CutsAgree(t: string, u: string, x: Bytes, y: Bytes, i: nat, j: nat, k: nat)
    requires i <= j <= |t| && i <= k <= |u| && x == EncodeAll(t) && y == EncodeAll(u)
    requires Offset(t, i) == Offset(u, i) <= |x| && Offset(t, i) <= |y| && x[..Offset(t, i)] == y[..Offset(t, i)]
    requires Offset(t, j) <= |x| && Offset(u, k) <= |y| && x[Offset(t, j)..] == y[Offset(u, k)..]
    ensures Offset(u, i) <= Offset(u, k)
    ensures Cuts(Change(Offset(t, i), Offset(t, j), y[Offset(u, i)..Offset(u, k)]), t, u, i, j, k)
  {
    BetweenOffsets(u, i, k);
    SameTail(t, u, j, k);
    SameHead(t, u, i);
    Glued(t, u, i, j, k);
  }

  lemma TrimmedCuts(t: string, u: string, x: Bytes, y: Bytes, p: nat, q: nat, r: nat) returns (i: nat, j: nat, k: nat)
    requires x == EncodeAll(t) && y == EncodeAll(u)
    requires p <= q <= |x| && p <= r <= |y| && x[..p] == y[..p] && x[q..] == y[r..]
    requires IsBoundary(x, p) && IsBoundary(x, q) && IsBoundary(y, r)
    ensures Cuts(Change(p, q, y[p..r]), t, u, i, j, k)
  {
    i, j, k := CutsFound(t, u, p, q, r);
    CutsAgree(t, u, x, y, i, j, k);
  }

  /** Trimmed to beginnings of characters on both sides, what is left is whole
      characters. */
  lemma TrimmedBrings(t: string, u: string, x: Bytes, y: Bytes, p: nat, q: nat, r: nat)
    requires x == EncodeAll(t) && y == EncodeAll(u)
    requires p <= q <= |x| && p <= r <= |y| && x[..p] == y[..p] && x[q..] == y[r..]
    requires IsBoundary(x, p) && IsBoundary(x, q) && IsBoundary(y, r)
    ensures Brings(Change(p, q, y[p..r]), t, u)
  {
    var i, j, k := TrimmedCuts(t, u, x, y, p, q, r);
    Assemble(x, y, p, q, r);
    BringsBy(Change(p, q, y[p..r]), t, u, x, y, i, j, k);
  }

  /** The bytes in common at the start, back to a beginning in the first text. */
  method StartOfChange(a: Bytes, b: Bytes) returns (n: nat)
    ensures n <= |a| && n <= |b| && a[..n] == b[..n] && IsBoundary(a, n) && (a == b ==> n == |a|)
  {
    n := CountPrefix(a, b);
    while n > 0 && !IsBoundary(a, n)
      invariant n <= |a| && n <= |b| && a[..n] == b[..n] && (a == b ==> n == |a|)
    {
      assert a[..n][..n - 1] == a[..n - 1] && b[..n][..n - 1] == b[..n - 1];
      n := n - 1;
    }
  }

  /** The bytes in common at the end, on to a beginning in both. */
  method EndOfChange(a: Bytes, b: Bytes, max: nat) returns (n: nat)
    requires max <= |a| && max <= |b|
    ensures n <= max && a[|a| - n..] == b[|b| - n..] && IsBoundary(a, |a| - n) && IsBoundary(b, |b| - n)
  {
    n := CountSuffix(a, b, max);
    while n > 0 && (!IsBoundary(a, |a| - n) || !IsBoundary(b, |b| - n))
      invariant n <= max && a[|a| - n..] == b[|b| - n..]
    {
      assert a[|a| - n..][1..] == a[|a| - (n - 1)..] && b[|b| - n..][1..] == b[|b| - (n - 1)..];
      n := n - 1;
    }
  }

  /** The bytes are the text's. */
  ghost predicate Spells(x: Bytes, t: string) {
    forall n: nat {:trigger Look(n)} :: Look(n) ==> x == EncodeAll(t)
  }

  /** The change between two texts, found from their bytes: only the beginning of the
      first text is looked at for where it may start. */
  method Diff(rope: Bytes, fresh_: Bytes, ghost t: string, ghost u: string) returns (c: Option<Change>)
    requires Spells(rope, t) && Spells(fresh_, u)
    ensures c.None? <==> t == u
    ensures c.Some? ==> Brings(c.value, t, u)
  {
    var prefix := StartOfChange(rope, fresh_);
    var suffix := EndOfChange(rope, fresh_, Least(|rope| - prefix, |fresh_| - prefix));
    var end, freshEnd := |rope| - suffix, |fresh_| - suffix;
    DiffBrings(t, u, rope, fresh_, prefix, end, freshEnd);
    if prefix + suffix == |rope| && prefix + suffix == |fresh_| {
      return None;
    }
    c := Some(Change(prefix, end, fresh_[prefix..freshEnd]));
  }

  lemma DiffBrings(t: string, u: string, x: Bytes, y: Bytes, p: nat, q: nat, r: nat)
    requires Spells(x, t) && Spells(y, u)
    requires p <= q <= |x| && p <= r <= |y| && x[..p] == y[..p] && x[q..] == y[r..]
    requires IsBoundary(x, p) && IsBoundary(x, q) && IsBoundary(y, r) && (x == y ==> p == |x|)
    ensures Brings(Change(p, q, y[p..r]), t, u) && (p == q && p == r <==> t == u)
  {
    assert x == EncodeAll(t) && y == EncodeAll(u) by { assert Look(0); }
    TrimmedBrings(t, u, x, y, p, q, r);
    if p == q && p == r {
      SameBytes(t, u);
      assert x == x[..p] + x[p..] && y == y[..p] + y[p..];
    }
  }

  lemma SameBytes(t: string, u: string)
    ensures t == u <==> EncodeAll(t) == EncodeAll(u)
  {
    LossyOfEncoded(t);
    LossyOfEncoded(u);
  }

  // ----- one insertion or one deletion -----

  datatype Delta = Retain(n: nat) | Inserted(text: string) | Deleted(n: nat)

  /** The text a reported change leaves, if it fits the text it is made to. */
  function Applied(t: string, delta: seq<Delta>): Option<string> {
    if delta == [] then Some(t)
    else
      match delta[0]
      case Retain(n) =>
        if n > |t| then None
        else var r := Applied(t[n..], delta[1..]); if r.None? then None else Some(t[..n] + r.value)
      case Inserted(s) => var r := Applied(t, delta[1..]); if r.None? then None else Some(s + r.value)
      case Deleted(n) => if n > |t| then None else Applied(t[n..], delta[1..])
  }

  /** The op changes something. */
  predicate Loud(d: Delta) {
    (d.Inserted? && d.text != "") || (d.Deleted? && d.n > 0)
  }

  function Changes(delta: seq<Delta>): seq<Delta> {
    if delta == [] then [] else (if Loud(delta[0]) then [delta[0]] else []) + Changes(delta[1..])
  }

  /** Where the first change stands, in characters kept before it. */
  function Place(delta: seq<Delta>): nat {
    if delta == [] || Loud(delta[0]) then 0
    else (if delta[0].Retain? then delta[0].n else 0) + Place(delta[1..])
  }

  lemma ChangesFrom(delta: seq<Delta>, i: nat)
    requires i < |delta|
    ensures Changes(delta[i..]) == (if Loud(delta[i]) then [delta[i]] else []) + Changes(delta[i + 1..])
    ensures Place(delta[i..]) == if Loud(delta[i]) then 0
      else (if delta[i].Retain? then delta[i].n else 0) + Place(delta[i + 1..])
  {
    assert delta[i..][0] == delta[i] && delta[i..][1..] == delta[i + 1..];
  }

  lemma {:induction false} QuietApplied(t: string, delta: seq<Delta>)
    requires Changes(delta) == [] && Applied(t, delta).Some?
    ensures Applied(t, delta).value == t
  {
    if delta != [] {
      if delta[0].Retain? {
        QuietApplied(t[delta[0].n..], delta[1..]);
      } else {
        assert delta[0].Deleted? ==> t[0..] == t;
        QuietApplied(t, delta[1..]);
      }
    }
  }

  lemma Shifted(t: string, n: nat, p: nat, s: string, m: nat)
    requires n + p + m <= |t|
    ensures t[..n] + (t[n..][..p] + s + t[n..][p + m..]) == t[..n + p] + s + t[n + p + m..]
  {
    assert t[..n + p] == t[..n] + t[n..][..p] && t[n..][p + m..] == t[n + p + m..];
  }

  lemma LoudApplied(t: string, delta: seq<Delta>)
    requires |Changes(delta)| == 1 && Applied(t, delta).Some? && Loud(delta[0])
    ensures Changes(delta)[0] == delta[0] && Place(delta) == 0
    ensures Taken(delta[0]) <= |t| && Applied(t, delta).value == t[..0] + Given(delta[0]) + t[Taken(delta[0])..]
  {
    var d, rest := delta[0], delta[1..];
    assert Changes(delta) == [d] + Changes(rest);
    QuietApplied(t[Taken(d)..], rest);
    assert t[0..] == t && t[..0] + Given(d) + t[Taken(d)..] == Given(d) + t[Taken(d)..];
  }

  lemma RetainedChange(t: string, delta: seq<Delta>, c: Delta, p: nat)
    requires delta != [] && delta[0].Retain? && delta[0].n <= |t|
    requires var rest := t[delta[0].n..];
      p + Taken(c) <= |rest| && Applied(rest, delta[1..]) == Some(rest[..p] + Given(c) + rest[p + Taken(c)..])
    ensures var n := delta[0].n;
      Applied(t, delta) == Some(t[..n + p] + Given(c) + t[n + p + Taken(c)..])
  {
    Shifted(t, delta[0].n, p, Given(c), Taken(c));
  }

  /** One change among what is kept is that change at its place. */
  lemma {:induction false} OneChangeApplied(t: string, delta: seq<Delta>)
    requires |Changes(delta)| == 1 && Applied(t, delta).Some?
    ensures var c, p := Changes(delta)[0], Place(delta);
      p + Taken(c) <= |t| && Applied(t, delta).value == t[..p] + Given(c) + t[p + Taken(c)..]
  {
    if Loud(delta[0]) {
      LoudApplied(t, delta);
    } else if delta[0].Retain? {
      RetainStep(t, delta);
      OneChangeApplied(t[delta[0].n..], delta[1..]);
      RetainedChange(t, delta, Changes(delta)[0], Place(delta[1..]));
    } else {
      QuietStep(t, delta);
      OneChangeApplied(t, delta[1..]);
    }
  }

  lemma RetainStep(t: string, delta: seq<Delta>)
    requires delta != [] && delta[0].Retain? && Applied(t, delta).Some?
    ensures var n := delta[0].n;
      n <= |t| && Applied(t[n..], delta[1..]).Some? && Place(delta) == n + Place(delta[1..])
    ensures Changes(delta) == Changes(delta[1..])
  {
  }

  lemma QuietStep(t: string, delta: seq<Delta>)
    requires delta != [] && !delta[0].Retain? && !Loud(delta[0]) && Applied(t, delta).Some?
    ensures Applied(t, delta) == Applied(t, delta[1..])
    ensures Changes(delta) == Changes(delta[1..]) && Place(delta) == Place(delta[1..])
  {
    assert t[0..] == t;
    if delta[0].Inserted? {
      assert "" + Applied(t, delta[1..]).value == Applied(t, delta[1..]).value;
    }
  }

  /** The characters a change takes out, and those it puts in. */
  function Taken(d: Delta): nat {
    if d.Deleted? then d.n else 0
  }

  function Given(d: Delta): string {
    if d.Inserted? then d.text else ""
  }

  /** A walk has met the changes `met` before `i`, the first of them at `at`. */
  ghost predicate Met(delta: seq<Delta>, i: nat, cursor: nat, met: seq<Delta>, at: nat) {
    forall n: nat {:trigger Look(n)} :: Look(n) ==>
      && i <= |delta| && Changes(delta) == met + Changes(delta[i..])
      && if met == [] then cursor + Place(delta[i..]) == Place(delta) else at == Place(delta)
  }

  lemma MetNone(delta: seq<Delta>, at: nat)
    ensures Met(delta, 0, 0, [], at)
  {
    assert delta[0..] == delta && [] + Changes(delta) == Changes(delta);
  }

  lemma MetQuiet(delta: seq<Delta>, i: nat, cursor: nat, met: seq<Delta>, at: nat)
    requires Met(delta, i, cursor, met, at) && i < |delta| && !Loud(delta[i])
    ensures Met(delta, i + 1, cursor + if delta[i].Retain? then delta[i].n else 0, met, at)
  {
    assert Look(0);
    ChangesFrom(delta, i);
    assert [] + Changes(delta[i + 1..]) == Changes(delta[i + 1..]);
  }

  lemma MetLoud(delta: seq<Delta>, i: nat, cursor: nat, met: seq<Delta>, at: nat, cursor': nat)
    requires Met(delta, i, cursor, met, at) && i < |delta| && Loud(delta[i])
    ensures Met(delta, i + 1, cursor', met + [delta[i]], if met == [] then cursor else at)
    ensures |met| < |Changes(delta)| && Changes(delta)[|met|] == delta[i]
  {
    assert Look(0);
    ChangesFrom(delta, i);
    assert met + ([delta[i]] + Changes(delta[i + 1..])) == (met + [delta[i]]) + Changes(delta[i + 1..]);
  }

  lemma MetAll(delta: seq<Delta>, cursor: nat, met: seq<Delta>, at: nat)
    requires Met(delta, |delta|, cursor, met, at)
    ensures Changes(delta) == met && (met != [] ==> at == Place(delta))
  {
    assert Look(0);
    assert delta[|delta|..] == [] && met + [] == met;
  }

  ghost function InsertMet(r: Option<(nat, string)>): seq<Delta> {
    if r.Some? then [Inserted(r.value.1)] else []
  }

  /** One insertion and nothing else, and where. */
  method SingleInsert(deltas: seq<seq<Delta>>) returns (r: Option<(nat, string)>)
    ensures r.Some? <==> |deltas| == 1 && |Changes(deltas[0])| == 1 && Changes(deltas[0])[0].Inserted?
    ensures r.Some? ==> r.value == (Place(deltas[0]), Changes(deltas[0])[0].text)
  {
    if |deltas| != 1 {
      return None;
    }
    var delta := deltas[0];
    var cursor: nat := 0;
    r := None;
    MetNone(delta, 0);
    for i := 0 to |delta|
      invariant Met(delta, i, cursor, InsertMet(r), if r.Some? then r.value.0 else 0)
    {
      ghost var met, at := InsertMet(r), if r.Some? then r.value.0 else 0;
      if Loud(delta[i]) {
        MetLoud(delta, i, cursor, met, at, cursor + if delta[i].Inserted? then |delta[i].text| else 0);
      } else {
        MetQuiet(delta, i, cursor, met, at);
      }
      match delta[i] {
        case Retain(n) => cursor := cursor + n;
        case Inserted(s) =>
          if s != "" {
            if r.Some? {
              return None;
            }
            r, cursor := Some((cursor, s)), cursor + |s|;
          }
        case Deleted(n) =>
          if n != 0 {
            return None;
          }
      }
    }
    MetAll(delta, cursor, InsertMet(r), if r.Some? then r.value.0 else 0);
  }

  ghost function DeleteMet(r: Option<(nat, nat)>): seq<Delta> {
    if r.Some? then [Deleted(r.value.1)] else []
  }

  /** One deletion and nothing else, and where. */
  method SingleDelete(deltas: seq<seq<Delta>>) returns (r: Option<(nat, nat)>)
    ensures r.Some? <==> |deltas| == 1 && |Changes(deltas[0])| == 1 && Changes(deltas[0])[0].Deleted?
    ensures r.Some? ==> r.value == (Place(deltas[0]), Changes(deltas[0])[0].n)
  {
    if |deltas| != 1 {
      return None;
    }
    var delta := deltas[0];
    var cursor: nat := 0;
    r := None;
    MetNone(delta, 0);
    for i := 0 to |delta|
      invariant Met(delta, i, cursor, DeleteMet(r), if r.Some? then r.value.0 else 0)
    {
      ghost var met, at := DeleteMet(r), if r.Some? then r.value.0 else 0;
      if Loud(delta[i]) {
        MetLoud(delta, i, cursor, met, at, cursor);
      } else {
        MetQuiet(delta, i, cursor, met, at);
      }
      match delta[i] {
        case Retain(n) => cursor := cursor + n;
        case Inserted(s) =>
          if s != "" {
            return None;
          }
        case Deleted(n) =>
          if n != 0 {
            if r.Some? {
              return None;
            }
            r := Some((cursor, n));
          }
      }
    }
    MetAll(delta, cursor, DeleteMet(r), if r.Some? then r.value.0 else 0);
  }

  // ----- walking over characters -----

  /** The whole characters of a text within its first bytes. */
  lemma WholeWithin(t: string, n: nat) returns (m: nat)
    requires n <= |EncodeAll(t)|
    ensures m <= |t| && ValidLength(EncodeAll(t)[..n]) == Offset(t, m) <= n
    ensures Decode(EncodeAll(t)[..n][..Offset(t, m)]) == (t[..m], [])
    ensures m < |t| ==> n < Offset(t, m + 1)
  {
    var s := EncodeAll(t)[..n];
    m := Fitting(t, n);
    WithinOne(t, n, m);
    OffsetCuts(t, m);
    assert s[..Offset(t, m)] == EncodeAll(t)[..Offset(t, m)];
    LossyOfEncoded(t[..m]);
  }

  lemma Fitting(t: string, n: nat) returns (m: nat)
    requires n <= |EncodeAll(t)|
    ensures m <= |t| && Offset(t, m) <= n && (m < |t| ==> n < Offset(t, m + 1))
  {
    m := 0;
    assert t[..0] == "";
    while m < |t| && Offset(t, m + 1) <= n
      invariant m <= |t| && Offset(t, m) <= n
    {
      m := m + 1;
    }
  }

  lemma OffsetNext(t: string, k: nat)
    requires 0 < k <= |t|
    ensures Offset(t, k) == |Encode(t[0])| + Offset(t[1..], k - 1)
  {
    assert t[..k][0] == t[0] && t[..k][1..] == t[1..][..k - 1];
  }

  lemma {:induction false} WithinOne(t: string, n: nat, m: nat)
    requires n <= |EncodeAll(t)| && m <= |t| && Offset(t, m) <= n && (m < |t| ==> n < Offset(t, m + 1))
    ensures ValidLength(EncodeAll(t)[..n]) == Offset(t, m)
    decreases |t|
  {
    var s := EncodeAll(t)[..n];
    if t == "" {
      assert s == [];
      assert t[..0] == "";
    } else {
      var e := Encode(t[0]);
      assert EncodeAll(t) == e + EncodeAll(t[1..]);
      if m == 0 {
        assert t[..0] == "";
        OffsetNext(t, 1);
        assert Offset(t[1..], 0) == 0 by { assert t[1..][..0] == ""; }
        if n > 0 {
          assert s == e[..n];
          BeginsScans(s, t[0]);
        }
      } else {
        OffsetNext(t, m);
        if m < |t| {
          OffsetNext(t, m + 1);
        }
        var rest := EncodeAll(t[1..])[..n - |e|];
        assert s == e + rest;
        ScanOfEncoding(t[0], rest);
        assert s[|e|..] == rest;
        WithinOne(t[1..], n - |e|, m - 1);
      }
    }
  }

  lemma {:induction false} FourEach(t: string)
    ensures |t| <= |EncodeAll(t)| <= 4 * |t|
  {
    if t != "" {
      FourEach(t[1..]);
    }
  }

  /** The slice holds all the characters looked for, if there are so many. */
  lemma SliceRead(rest: string, chars: nat, buf: Bytes, s: string)
    requires var x := EncodeAll(rest); buf == x[..Least(chars * 4, |x|)] && s == Decode(buf[..ValidLength(buf)]).0
    ensures chars <= |s| <==> chars <= |rest|
    ensures chars <= |s| ==> s[..chars] == rest[..chars]
  {
    var take := Least(chars * 4, |EncodeAll(rest)|);
    var m := WholeWithin(rest, take);
    Enough(rest, take, m, chars);
  }

  lemma RopeSlice(rope: Bytes, t: string, k: nat, start: nat, chars: nat)
    requires Spells(rope, t) && k <= |t| && start == Offset(t, k)
    ensures start <= |rope|
    ensures var x := EncodeAll(t[k..]);
      rope[start..start + Least(chars * 4, |rope| - start)] == x[..Least(chars * 4, |x|)]
  {
    assert rope == EncodeAll(t) by { assert Look(0); }
    OffsetCuts(t, k);
    assert rope[start..] == EncodeAll(t[k..]);
  }

  /** The byte past so many characters of the rope from a place, looked for in no more
      bytes than they can take; none if there are not so many. */
  method RopeByteEnd(rope: Bytes, start: nat, chars: nat, ghost t: string, ghost k: nat) returns (end: Option<nat>)
    requires Spells(rope, t) && k <= |t| && start == Offset(t, k)
    ensures end == if 0 < chars <= |t| - k then Some(Offset(t, k + chars)) else None
  {
    RopeSlice(rope, t, k, start, chars);
    if start > |rope| || chars == 0 {
      return None;
    }
    var buf := rope[start..start + Least(chars * 4, |rope| - start)];
    var s := Decode(buf[..ValidLength(buf)]).0;
    SliceRead(t[k..], chars, buf, s);
    var offset := BytesOf(s, chars);
    if offset.Some? {
      Further(t, k, chars, s[..chars]);
      end := Some(start + offset.value);
    } else {
      end := None;
    }
  }

  lemma Further(t: string, k: nat, chars: nat, s: string)
    requires k + chars <= |t| && s == t[k..][..chars]
    ensures Offset(t, k + chars) == Offset(t, k) + |EncodeAll(s)|
  {
    EncodeAppend(t[..k], s);
    assert t[..k + chars] == t[..k] + s;
  }

  /** The bytes of the first characters of a text, if it has so many. */
  method BytesOf(s: string, chars: nat) returns (offset: Option<nat>)
    ensures offset == if chars <= |s| then Some(|EncodeAll(s[..chars])|) else None
  {
    var remaining, n, i := chars, 0, 0;
    assert s[..0] == "";
    while i < |s| && remaining > 0
      invariant i <= |s| && remaining >= 0 && i == chars - remaining && n == |EncodeAll(s[..i])|
    {
      EncodeAppend(s[..i], [s[i]]);
      assert s[..i + 1] == s[..i] + [s[i]] && [s[i]][1..] == "";
      assert EncodeAll([s[i]]) == Encode(s[i]) + [];
      n, remaining, i := n + |Encode(s[i])|, remaining - 1, i + 1;
    }
    offset := if remaining == 0 then Some(n) else None;
  }

  /** The bytes looked at hold all the characters asked for, or all there are. */
  lemma Enough(t: string, take: nat, m: nat, chars: nat)
    requires m <= |t| && take <= |EncodeAll(t)| && (m < |t| ==> take < Offset(t, m + 1))
      && take == Least(chars * 4, |EncodeAll(t)|)
    ensures chars <= |t| ==> chars <= m
  {
    if m < chars <= |t| {
      FourEach(t[..m + 1]);
      OffsetCuts(t, m + 1);
    }
  }

  // ----- an import -----

  /** Characters taken out at a place, and others put in. */
  lemma ChangeBrings(t: string, p: nat, m: nat, s: string, u: string)
    requires p + m <= |t| && u == t[..p] + s + t[p + m..]
    ensures p <= |u| && Offset(u, p) == Offset(t, p)
    ensures Brings(Change(Offset(t, p), Offset(t, p + m), EncodeAll(s)), t, u)
  {
    assert u[..p] == t[..p] && u[p..p + |s|] == s && u[p + |s|..] == t[p + m..];
    var c := Change(Offset(t, p), Offset(t, p + m), EncodeAll(s));
    ChangeSplices(t, p, m, s);
    Glued(t, u, p, p + m, p + |s|);
    BringsBy(c, t, u, EncodeAll(t), EncodeAll(u), p, p + m, p + |s|);
  }

  lemma ChangeSplices(t: string, p: nat, m: nat, s: string)
    requires p + m <= |t|
    ensures Offset(t, p) <= Offset(t, p + m) <= |EncodeAll(t)|
    ensures Splice(EncodeAll(t), Offset(t, p), Offset(t, p + m), EncodeAll(s)) == EncodeAll(t[..p] + s + t[p + m..])
  {
    EncodeAppend(t[..p] + s, t[p + m..]);
    EncodeAppend(t[..p], s);
    BetweenOffsets(t, p, p + m);
    OffsetCuts(t, p);
    OffsetCuts(t, p + m);
  }

  /** What an import does to the rope. Whichever way it is found, it is the text after
      the import, cut between characters; nothing only if the text is the same. */
  method Import(rope: Bytes, deltas: seq<seq<Delta>>, after: string, ghost t: string) returns (c: Option<Change>)
    requires rope == EncodeAll(t) && (|deltas| == 1 ==> Applied(t, deltas[0]) == Some(after))
    ensures c.None? <==> t == after
    ensures c.Some? ==> Brings(c.value, t, after)
  {
    var insert := SingleInsert(deltas);
    if insert.Some? {
      var (p, s) := insert.value;
      Reported(t, deltas[0], after, p, 0, s);
      return Some(Change(Offset(after, p), Offset(after, p), EncodeAll(s)));
    }
    var delete := SingleDelete(deltas);
    if delete.Some? {
      var (p, n) := delete.value;
      Reported(t, deltas[0], after, p, n, "");
      var start := Offset(after, p);
      var end := RopeByteEnd(rope, start, n, t, p);
      if end.Some? {
        return Some(Change(start, end.value, []));
      }
    }
    c := Diff(rope, EncodeAll(after), t, after);
  }

  lemma ChangedText(t: string, p: nat, m: nat, s: string, u: string)
    requires p + m <= |t| && u == t[..p] + s + t[p + m..] && (m == 0 <==> s != "")
    ensures t != u
  {
    assert |u| == |t| - m + |s|;
  }

  /** A single reported change brings the text after it. */
  lemma Reported(t: string, delta: seq<Delta>, after: string, p: nat, m: nat, given: string)
    requires |Changes(delta)| == 1 && Applied(t, delta) == Some(after)
    requires p == Place(delta) && m == Taken(Changes(delta)[0]) && given == Given(Changes(delta)[0])
    ensures p + m <= |t| && p <= |after| && Offset(after, p) == Offset(t, p) && t != after && Loud(Changes(delta)[0])
      && Brings(Change(Offset(after, p), Offset(t, p + m), EncodeAll(given)), t, after)
  {
    OneChangeApplied(t, delta);
    LoudChange(delta);
    ChangedText(t, p, m, given, after);
    ChangeBrings(t, p, m, given, after);
  }

  lemma {:induction false} LoudChange(delta: seq<Delta>)
    requires Changes(delta) != []
    ensures Loud(Changes(delta)[0])
  {
    if !Loud(delta[0]) {
      assert Changes(delta) == Changes(delta[1..]);
      LoudChange(delta[1..]);
    }
  }
}
