/** What an edit did to a rope (src/buffer.rs): a range of the old bytes, and how many
    bytes of the new stand in its place; and where it leaves the marks. */
module RopeEdits {
  import opened Utf8

  /** `old[start..end]` became `inserted` bytes at `start`. */
  datatype Description = Description(start: nat, end: nat, inserted: nat)

  function Splice(s: Bytes, start: nat, end: nat, bytes: Bytes): Bytes
    requires start <= end <= |s|
  {
    s[..start] + bytes + s[end..]
  }

  /** The description truly leads from the old bytes to the new. */
  ghost predicate Describes(d: Description, old_: Bytes, new_: Bytes) {
    && d.start <= d.end <= |old_| && |new_| == |old_| - (d.end - d.start) + d.inserted
    && old_[..d.start] == new_[..d.start] && old_[d.end..] == new_[d.start + d.inserted..]
  }

  /** A description is true if and only if replacing the range by the new bytes at its
      place gives the new bytes whole. */
  lemma DescribesIsSplice(d: Description, old_: Bytes, new_: Bytes)
    requires d.start <= d.end <= |old_|
    ensures Describes(d, old_, new_) <==>
      d.start + d.inserted <= |new_| && new_ == Splice(old_, d.start, d.end, new_[d.start..d.start + d.inserted])
  {
    if Describes(d, old_, new_) {
      assert new_ == new_[..d.start] + new_[d.start..d.start + d.inserted] + new_[d.start + d.inserted..];
    } else if d.start + d.inserted <= |new_| {
      var made := Splice(old_, d.start, d.end, new_[d.start..d.start + d.inserted]);
      assert made[..d.start] == old_[..d.start] && made[d.start + d.inserted..] == old_[d.end..];
    }
  }

  lemma SpliceDescribed(s: Bytes, start: nat, end: nat, bytes: Bytes)
    requires start <= end <= |s|
    ensures Describes(Description(start, end, |bytes|), s, Splice(s, start, end, bytes))
  {
    var made := Splice(s, start, end, bytes);
    assert made[..start] == s[..start] && made[start + |bytes|..] == s[end..];
  }

  /** The description of going back. */
  function Inverse(d: Description): Description
    requires d.start <= d.end
  {
    Description(d.start, d.start + d.inserted, d.end - d.start)
  }

  lemma InverseDescribes(d: Description, old_: Bytes, new_: Bytes)
    requires Describes(d, old_, new_)
    ensures Describes(Inverse(d), new_, old_) && Inverse(Inverse(d)) == d
  {
  }

  // ----- the smallest description -----

  /** The first bytes in common are these, and no more. */
  ghost predicate LongestPrefix(a: Bytes, b: Bytes, n: nat) {
    n <= |a| && n <= |b| && a[..n] == b[..n] && (n < |a| && n < |b| ==> a[n] != b[n])
  }

  /** The last bytes in common, of at most so many, are these and no more. */
  ghost predicate LongestSuffix(a: Bytes, b: Bytes, max: nat, n: nat)
    requires max <= |a| && max <= |b|
  {
    n <= max && a[|a| - n..] == b[|b| - n..] && (n < max ==> a[|a| - 1 - n] != b[|b| - 1 - n])
  }

  lemma PrefixAt(a: Bytes, b: Bytes, n: nat, i: nat)
    requires n <= |a| && n <= |b| && a[..n] == b[..n]
    ensures i < n ==> a[i] == b[i]
  {
    if i < n {
      assert a[..n][i] == b[..n][i];
    }
  }

  lemma SuffixAt(a: Bytes, b: Bytes, n: nat, i: nat)
    requires n <= |a| && n <= |b| && a[|a| - n..] == b[|b| - n..]
    ensures i < n ==> a[|a| - 1 - i] == b[|b| - 1 - i]
  {
    if i < n {
      assert a[|a| - n..][n - 1 - i] == b[|b| - n..][n - 1 - i];
    }
  }

  lemma PrefixUnique(a: Bytes, b: Bytes, m: nat, n: nat)
    requires LongestPrefix(a, b, m) && LongestPrefix(a, b, n)
    ensures m == n
  {
    PrefixAt(a, b, n, m);
    PrefixAt(a, b, m, n);
  }

  lemma SuffixUnique(a: Bytes, b: Bytes, max: nat, m: nat, n: nat)
    requires max <= |a| && max <= |b| && LongestSuffix(a, b, max, m) && LongestSuffix(a, b, max, n)
    ensures m == n
  {
    SuffixAt(a, b, n, m);
    SuffixAt(a, b, m, n);
  }

  function CommonPrefix(a: Bytes, b: Bytes): (n: nat)
    ensures LongestPrefix(a, b, n)
  {
    if a == [] || b == [] || a[0] != b[0] then 0
    else
      var n := CommonPrefix(a[1..], b[1..]);
      assert a[..n + 1] == [a[0]] + a[1..][..n] && b[..n + 1] == [b[0]] + b[1..][..n];
      n + 1
  }

  function CommonSuffix(a: Bytes, b: Bytes, max: nat): (n: nat)
    requires max <= |a| && max <= |b|
    ensures LongestSuffix(a, b, max, n)
    decreases max
  {
    if max == 0 || a[|a| - 1] != b[|b| - 1] then 0
    else
      var i, j := |a| - 1, |b| - 1;
      var n := CommonSuffix(a[..i], b[..j], max - 1);
      assert a[|a| - (n + 1)..] == a[..i][i - n..] + [a[i]] && b[|b| - (n + 1)..] == b[..j][j - n..] + [b[j]];
      n + 1
  }

  function Least(m: nat, n: nat): nat {
    if m < n then m else n
  }

  /** The description that trims what the two have in common at either end. */
  function Derived(old_: Bytes, new_: Bytes): (d: Description)
    ensures Describes(d, old_, new_)
  {
    var p := CommonPrefix(old_, new_);
    var s := CommonSuffix(old_, new_, Least(|old_| - p, |new_| - p));
    Description(p, |old_| - s, |new_| - p - s)
  }

  /** No true description covers less of the old bytes or of the new ones from a start
      at or past its own, and none starts later. */
  lemma DerivedIsLeast(old_: Bytes, new_: Bytes, d: Description)
    requires Describes(d, old_, new_)
    ensures d.start <= Derived(old_, new_).start
    ensures d.start == Derived(old_, new_).start ==>
      Derived(old_, new_).end <= d.end && Derived(old_, new_).inserted <= d.inserted
  {
    var e := Derived(old_, new_);
    PrefixAt(old_, new_, d.start, e.start);
    SuffixAt(old_, new_, |old_| - d.end, |old_| - e.end);
  }

  /** The first place two chunks differ, or their end. */
  method Mismatch(a: Bytes, b: Bytes) returns (i: nat)
    requires |a| == |b|
    ensures LongestPrefix(a, b, i)
  {
    i := 0;
    while i < |a| && a[i] == b[i]
      invariant i <= |a| && a[..i] == b[..i]
    {
      assert a[..i + 1] == a[..i] + [a[i]] && b[..i + 1] == b[..i] + [b[i]];
      i := i + 1;
    }
  }

  /** The last place two chunks differ, counted from their end. */
  method MismatchBack(a: Bytes, b: Bytes) returns (i: nat)
    requires |a| == |b|
    ensures LongestSuffix(a, b, |a|, i)
  {
    i := 0;
    while i < |a| && a[|a| - 1 - i] == b[|b| - 1 - i]
      invariant i <= |a| && a[|a| - i..] == b[|b| - i..]
    {
      assert a[|a| - (i + 1)..] == [a[|a| - 1 - i]] + a[|a| - i..];
      assert b[|b| - (i + 1)..] == [b[|b| - 1 - i]] + b[|b| - i..];
      i := i + 1;
    }
  }

  const ChunkBytes: nat := 4096

  lemma PrefixFurther(a: Bytes, b: Bytes, p: nat, n: nat, off: nat)
    requires p + n <= |a| && p + n <= |b| && a[..p] == b[..p] && LongestPrefix(a[p..p + n], b[p..p + n], off)
    ensures a[..p + off] == b[..p + off] && (off < n ==> LongestPrefix(a, b, p + off))
  {
    assert a[..p + off] == a[..p] + a[p..p + n][..off] && b[..p + off] == b[..p] + b[p..p + n][..off];
  }

  ghost predicate SameEnds(a: Bytes, b: Bytes, n: nat) {
    n <= |a| && n <= |b| && a[|a| - n..] == b[|b| - n..]
  }

  lemma SuffixFurther(a: Bytes, b: Bytes, max: nat, s: nat, n: nat, off: nat)
    requires max <= |a| && max <= |b| && s + n <= max && SameEnds(a, b, s)
    requires LongestSuffix(a[|a| - s - n..|a| - s], b[|b| - s - n..|b| - s], n, off)
    ensures SameEnds(a, b, s + off) && (off < n ==> LongestSuffix(a, b, max, s + off))
  {
    var x, y := a[|a| - s - n..|a| - s], b[|b| - s - n..|b| - s];
    assert |x| == n && |y| == n;
    assert SameEnds(a, b, s + off) by {
      Chunk(a, s, n, off);
      Chunk(b, s, n, off);
    }
    if off < n {
      assert x[n - 1 - off] == a[|a| - 1 - (s + off)] && y[n - 1 - off] == b[|b| - 1 - (s + off)];
    }
  }

  lemma Chunk(a: Bytes, s: nat, n: nat, off: nat)
    requires s + n <= |a| && off <= n
    ensures a[|a| - (s + off)..] == a[|a| - s - n..|a| - s][n - off..] + a[|a| - s..]
  {
  }

  /** The common prefix, chunk by chunk. */
  method WalkPrefix(a: Bytes, b: Bytes, chunk: nat) returns (prefix: nat)
    requires |a| > 0 && |b| > 0 ==> chunk > 0
    ensures prefix == CommonPrefix(a, b)
  {
    prefix := 0;
    var max := Least(|a|, |b|);
    while prefix < max
      invariant prefix <= max && a[..prefix] == b[..prefix]
    {
      var n := Least(chunk, max - prefix);
      var off := Mismatch(a[prefix..prefix + n], b[prefix..prefix + n]);
      PrefixFurther(a, b, prefix, n, off);
      prefix := prefix + off;
      if off < n {
        break;
      }
    }
    PrefixUnique(a, b, prefix, CommonPrefix(a, b));
  }

  method WalkSuffix(a: Bytes, b: Bytes, max: nat, chunk: nat) returns (suffix: nat)
    requires max <= |a| && max <= |b| && (max > 0 ==> chunk > 0)
    ensures suffix == CommonSuffix(a, b, max)
  {
    suffix := 0;
    while suffix < max
      invariant suffix <= max && SameEnds(a, b, suffix)
    {
      var n := Least(chunk, max - suffix);
      var off := MismatchBack(a[|a| - suffix - n..|a| - suffix], b[|b| - suffix - n..|b| - suffix]);
      SuffixFurther(a, b, max, suffix, n, off);
      suffix := suffix + off;
      if off < n {
        break;
      }
    }
    SuffixUnique(a, b, max, suffix, CommonSuffix(a, b, max));
  }

  /** Walk both ropes from both ends, in chunks no longer than the shorter of them. */
  method DeriveReplacementEdit(old_: Bytes, new_: Bytes) returns (d: Description)
    ensures d == Derived(old_, new_)
  {
    if old_ == [] && new_ == [] {
      return Description(0, 0, 0);
    }
    var chunk := Least(ChunkBytes, Least(|old_|, |new_|));
    var prefix := WalkPrefix(old_, new_, chunk);
    var suffix := WalkSuffix(old_, new_, Least(|old_| - prefix, |new_| - prefix), chunk);
    d := Description(prefix, |old_| - suffix, |new_| - prefix - suffix);
  }

  // ----- marks -----

  datatype Gravity = Left | Right

  datatype Mark = Mark(pos: nat, gravity: Gravity)

  /** Where an edit leaves a mark. */
  function Adjusted(m: Mark, d: Description): Mark
    requires d.start <= d.end
  {
    if m.pos < d.start then m
    else if m.pos > d.end then m.(pos := m.pos - (d.end - d.start) + d.inserted)
    else m.(pos := if m.gravity.Left? then d.start else d.start + d.inserted)
  }

  /** A mark and the id it was created under. */
  type Placed = (nat, Mark)

  function AdjustedAll(marks: seq<Placed>, d: Description): (r: seq<Placed>)
    requires d.start <= d.end
    ensures |r| == |marks| && forall i :: 0 <= i < |marks| ==> r[i] == (marks[i].0, Adjusted(marks[i].1, d))
  {
    seq(|marks|, i requires 0 <= i < |marks| => (marks[i].0, Adjusted(marks[i].1, d)))
  }

  ghost predicate AllWithin(marks: seq<Placed>, len: nat) {
    forall i :: 0 <= i < |marks| ==> marks[i].1.pos <= len
  }

  lemma AllStay(marks: seq<Placed>, d: Description, old_: Bytes, new_: Bytes)
    requires Describes(d, old_, new_) && AllWithin(marks, |old_|)
    ensures AllWithin(AdjustedAll(marks, d), |new_|)
  {
    forall i | 0 <= i < |marks| ensures AdjustedAll(marks, d)[i].1.pos <= |new_| {
      MarkStays(marks[i].1, d, old_, new_);
    }
  }

  /** The arms of the adjustment as they are written. */
  method AdjustMark(m: Mark, d: Description) returns (r: Mark)
    requires d.start <= d.end
    ensures r == Adjusted(m, d)
  {
    var pos, oldLen, newEnd := m.pos, d.end - d.start, d.start + d.inserted;
    if pos < d.start {
    } else if pos > d.end {
      pos := pos - oldLen + d.inserted;
    } else if pos == d.start {
      if oldLen == 0 && m.gravity.Right? {
        pos := newEnd;
      } else if oldLen == 0 {
        pos := d.start;
      } else {
        pos := if m.gravity.Left? then d.start else newEnd;
      }
    } else {
      pos := if m.gravity.Left? then d.start else newEnd;
    }
    r := m.(pos := pos);
  }

  /** A mark stays within the rope, and if it was clear of the range the bytes on its
      side of it stay with it. */
  lemma MarkStays(m: Mark, d: Description, old_: Bytes, new_: Bytes)
    requires Describes(d, old_, new_) && m.pos <= |old_|
    ensures var r := Adjusted(m, d);
      && r.pos <= |new_| && r.gravity == m.gravity
      && (m.pos < d.start ==> r.pos == m.pos && new_[..r.pos] == old_[..m.pos])
      && (m.pos > d.end ==> |new_| - r.pos == |old_| - m.pos && new_[r.pos..] == old_[m.pos..])
      && (d.start <= m.pos <= d.end ==> r.pos == if m.gravity.Left? then d.start else d.start + d.inserted)
  {
    if m.pos < d.start {
      assert old_[..d.start][..m.pos] == old_[..m.pos] && new_[..d.start][..m.pos] == new_[..m.pos];
    } else if m.pos > d.end {
      var k := m.pos - d.end;
      assert old_[d.end..][k..] == old_[m.pos..]
        && new_[d.start + d.inserted..][k..] == new_[d.start + d.inserted + k..];
    }
  }

  /** An edit keeps the order of two marks unless the first leans right and the second
      left, and both are within the range it replaces by something. */
  lemma OrderKept(m: Mark, n: Mark, d: Description)
    requires d.start <= d.end && m.pos <= n.pos
    ensures Adjusted(m, d).pos <= Adjusted(n, d).pos <==>
      !(m.gravity.Right? && n.gravity.Left? && d.start <= m.pos && n.pos <= d.end && d.inserted > 0)
  {
  }
}
