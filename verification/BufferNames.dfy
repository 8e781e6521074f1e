/** The one naming function for buffers whose name derives from a path
    (src/buffer_names.rs): the names a path can be shown by, the rule that picks
    one, and the `<N>` that tells the buffers of one path apart. */
module BufferNames {
  import opened NameText

  /** A normalized path as text, and whether it is the directory of a listing. */
  datatype NamePath = NamePath(parts: seq<string>, directory: bool) {
    predicate Valid() {
      Components(parts)
    }
  }

  type Path = p: NamePath | p.Valid() witness NamePath([], false)

  /** The last `depth` of `parts`, or the whole path once `depth` passes them. */
  function Render(parts: seq<string>, depth: nat, directory: bool): string {
    var name := if depth > |parts| then "/" + Join(parts) else Join(parts[|parts| - depth..]);
    if directory && !EndsWithSlash(name) then name + "/" else name
  }

  /** Every name a path can be shown by, shortest first. */
  function Names(p: Path): (names: seq<string>)
    ensures |names| == |p.parts| + 1
  {
    seq(|p.parts| + 1, (k: nat) => Render(p.parts, k + 1, p.directory))
  }

  function Whole(p: Path): string {
    Names(p)[|p.parts|]
  }

  function Group(p: Path): string {
    Names(p)[0]
  }

  // ----- what a path's names have in common -----

  function Tail(p: Path): string {
    if p.directory then "/" else ""
  }

  lemma WholeShape(parts: seq<string>) returns (prefix: string)
    requires |parts| > 1
    ensures EndsWithSlash(prefix) && "/" + Join(parts) == prefix + parts[|parts| - 1]
  {
    var dirs, last := parts[..|parts| - 1], parts[|parts| - 1];
    prefix := "/" + Join(dirs) + "/";
    assert parts == dirs + [last];
    JoinSnoc(dirs, last);
  }

  /** Names()[k] spelled out: the directories shown, the basename, the tail. */
  lemma NameShape(p: Path, k: nat) returns (prefix: string)
    requires p.parts != [] && k <= |p.parts|
    ensures prefix == "" || EndsWithSlash(prefix)
    ensures Names(p)[k] == prefix + p.parts[|p.parts| - 1] + Tail(p)
    ensures k == 0 ==> prefix == ""
  {
    var n := |p.parts|;
    var last := p.parts[n - 1];
    assert Names(p)[k] == Render(p.parts, k + 1, p.directory);
    if k == 0 {
      prefix := "";
      assert p.parts[n - 1..] == [last];
    } else if k < n {
      var dirs := p.parts[n - 1 - k..n - 1];
      prefix := Join(dirs) + "/";
      assert p.parts[n - 1 - k..] == dirs + [last];
      JoinSnoc(dirs, last);
    } else if n == 1 {
      prefix := "/";
      assert p.parts == [last];
    } else {
      prefix := WholeShape(p.parts);
    }
    var name := prefix + last;
    assert name[|name| - 1] == last[|last| - 1];
    assert name + "" == name;
  }

  lemma RootNames(p: Path)
    requires p.parts == []
    ensures Names(p) == ["/"] && GroupOf("/") == "/"
  {
    assert Names(p)[0] == Render(p.parts, 1, p.directory);
    assert "/" + Join(p.parts) == "/";
    RFindNone("/"[..0], '/');
  }

  /** Every name of a path ends with its basename: the group is constant. */
  lemma GroupOfName(p: Path, k: nat)
    requires k <= |p.parts|
    ensures GroupOf(Names(p)[k]) == Group(p)
  {
    if p.parts == [] {
      RootNames(p);
    } else {
      var first := NameShape(p, 0);
      var prefix := NameShape(p, k);
      GroupOfSplit(prefix, p.parts[|p.parts| - 1], Tail(p));
      assert first + p.parts[|p.parts| - 1] == p.parts[|p.parts| - 1];
    }
  }

  lemma GroupOfMember(p: Path, name: string)
    requires name in Names(p)
    ensures GroupOf(name) == Group(p)
  {
    var k :| 0 <= k < |Names(p)| && Names(p)[k] == name;
    GroupOfName(p, k);
  }

  function Shown(p: Path, k: nat): seq<string>
    requires p.parts != [] && k <= |p.parts|
  {
    if k == |p.parts| then p.parts else p.parts[|p.parts| - 1 - k..]
  }

  /** A name is its components joined, behind a `/` when it is the whole path. */
  lemma NameOfShown(p: Path, k: nat)
    requires p.parts != [] && k <= |p.parts|
    ensures Names(p)[k] == (if k == |p.parts| then "/" else "") + Join(Shown(p, k)) + Tail(p)
    ensures Slashes(Names(p)[k]) == k + |Tail(p)|
    ensures EndsWithSlash(Names(p)[k]) <==> p.directory
    ensures Names(p)[k][0] == '/' <==> k == |p.parts|
  {
    var shown, tail := Shown(p, k), Tail(p);
    var head := if k == |p.parts| then "/" else "";
    var body := head + Join(shown);
    BodyOfShown(shown, head);
    NameIsBody(p, k, body);
    assert Slashes(body + tail) == Slashes(body) + |tail| by {
      SlashesConcat(body, tail);
      assert Slashes("/") == 1 && Slashes("") == 0;
    }
    assert body[0] == '/' <==> head == "/" by {
      JoinHead(shown);
      assert head == "" ==> body == Join(shown);
    }
    assert (body + tail)[0] == body[0];
    assert EndsWithSlash(body + tail) <==> p.directory by {
      assert body + "" == body;
    }
  }

  lemma NameIsBody(p: Path, k: nat, body: string)
    requires p.parts != [] && k <= |p.parts| && body == (if k == |p.parts| then "/" else "") + Join(Shown(p, k))
      && !EndsWithSlash(body)
    ensures Names(p)[k] == body + Tail(p)
  {
    assert Names(p)[k] == Render(p.parts, k + 1, p.directory);
    assert "" + Join(Shown(p, k)) == Join(Shown(p, k)) && body + "" == body;
  }

  lemma BodyOfShown(shown: seq<string>, head: string)
    requires Components(shown) && shown != [] && (head == "" || head == "/")
    ensures var body := head + Join(shown);
            body != "" && !EndsWithSlash(body) && Slashes(body) == |head| + |shown| - 1
  {
    var text := Join(shown);
    JoinEndsInComponent(shown);
    JoinHead(shown);
    SlashesJoin(shown);
    LeadingSlash(head, text);
  }

  lemma LeadingSlash(head: string, text: string)
    requires text != "" && (head == "" || head == "/")
    ensures Slashes(head + text) == |head| + Slashes(text)
    ensures EndsWithSlash(head + text) == EndsWithSlash(text)
  {
    if head == "" {
      assert head + text == text;
    } else {
      assert (head + text)[1..] == text;
      assert (head + text)[|text|] == text[|text| - 1];
    }
  }

  /** One path, or the root as a file and as a directory. */
  predicate SamePlace(p: Path, q: Path) {
    p == q || (p.parts == [] && q.parts == [])
  }

  /** Two paths that share a name share every shorter one, and stand at the same
      place in both; a whole path is shared with no other. */
  lemma SharedName(p: Path, i: nat, q: Path, j: nat)
    requires i <= |p.parts| && j <= |q.parts|
    requires Names(p)[i] == Names(q)[j]
    ensures i == j && Names(p)[..i + 1] == Names(q)[..j + 1]
    ensures i == |p.parts| || j == |q.parts| ==> Names(p) == Names(q) && SamePlace(p, q)
  {
    if p.parts == [] || q.parts == [] {
      SharedRoot(p, i, q, j);
    } else {
      NameOfShown(p, i);
      NameOfShown(q, j);
      assert p.directory == q.directory && i == j;
      assert i == |p.parts| <==> j == |q.parts|;
      assert Join(Shown(p, i)) == Join(Shown(q, j)) by {
        var name, lead := Names(p)[i], if i == |p.parts| then 1 else 0;
        assert Join(Shown(p, i)) == name[lead..|name| - |Tail(p)|];
        assert Join(Shown(q, j)) == name[lead..|name| - |Tail(q)|];
      }
      JoinInjective(Shown(p, i), Shown(q, j));
      if i == |p.parts| {
        assert p == q;
      } else {
        forall k | 0 <= k <= i ensures Names(p)[k] == Names(q)[k] {
          ShownShorter(p, q, i, k);
        }
      }
    }
  }

  lemma ShownShorter(p: Path, q: Path, i: nat, k: nat)
    requires k <= i < |p.parts| && i < |q.parts| && p.directory == q.directory && Shown(p, i) == Shown(q, i)
    ensures Names(p)[k] == Names(q)[k]
  {
    assert Names(p)[k] == Render(p.parts, k + 1, p.directory);
    assert Names(q)[k] == Render(q.parts, k + 1, q.directory);
    assert p.parts[|p.parts| - 1 - k..] == Shown(p, i)[i - k..];
    assert q.parts[|q.parts| - 1 - k..] == Shown(q, i)[i - k..];
  }

  /** The root alone is named `/`. */
  lemma SharedRoot(p: Path, i: nat, q: Path, j: nat)
    requires i <= |p.parts| && j <= |q.parts|
    requires p.parts == [] || q.parts == []
    requires Names(p)[i] == Names(q)[j]
    ensures Names(p) == Names(q) == ["/"] && p.parts == q.parts == []
  {
    if p.parts == [] {
      RootNames(p);
      if q.parts != [] {
        NotRoot(q, j);
      } else {
        RootNames(q);
      }
    } else {
      RootNames(q);
      NotRoot(p, i);
    }
  }

  lemma NotRoot(p: Path, k: nat)
    requires p.parts != [] && k <= |p.parts|
    ensures Names(p)[k] != "/"
  {
    NameOfShown(p, k);
    JoinHead(Shown(p, k));
  }

  /** A whole path's name is no other path's, but that the root is named alike as a
      file and as a directory. */
  lemma WholeIsUnshared(p: Path, q: Path)
    ensures Whole(p) in Names(q) <==> SamePlace(p, q)
    ensures Whole(p) in Names(q) <==> Names(p) == Names(q)
    ensures Names(p) == Names(q) ==> Whole(p) == Whole(q)
  {
    if Whole(p) in Names(q) {
      var j :| 0 <= j < |Names(q)| && Names(q)[j] == Whole(p);
      SharedName(p, |p.parts|, q, j);
    }
    if Names(p) == Names(q) {
      assert Names(q)[|p.parts|] == Whole(p) && |p.parts| == |q.parts|;
    }
    if SamePlace(p, q) && p != q {
      RootNames(p);
      RootNames(q);
    }
  }

  lemma NamesDistinct(p: Path, i: nat, j: nat)
    requires i <= |p.parts| && j <= |p.parts| && Names(p)[i] == Names(p)[j]
    ensures i == j
  {
    SharedName(p, i, p, j);
  }

  // ----- which name a path is shown by -----

  /** The first name neither shared nor reserved, else the whole path. */
  function NameDepth(names: seq<string>, shared: string -> bool, reserved: string -> bool): (d: nat)
    requires names != []
    ensures d < |names|
    ensures forall k :: 0 <= k < d ==> shared(names[k]) || reserved(names[k])
    ensures d < |names| - 1 ==> !shared(names[d]) && !reserved(names[d])
    decreases |names|
  {
    if |names| == 1 || (!shared(names[0]) && !reserved(names[0])) then 0
    else
      var d := NameDepth(names[1..], shared, reserved);
      assert forall k :: 0 < k < 1 + d ==> names[k] == names[1..][k - 1];
      1 + d
  }

  lemma {:induction false} NameDepthIs(
    names: seq<string>, shared: string -> bool, reserved: string -> bool, d: nat)
    requires d < |names|
    requires forall k :: 0 <= k < d ==> shared(names[k]) || reserved(names[k])
    requires d < |names| - 1 ==> !shared(names[d]) && !reserved(names[d])
    ensures NameDepth(names, shared, reserved) == d
  {
    if d > 0 {
      assert forall k :: 0 <= k < d - 1 ==> names[1..][k] == names[k + 1];
      NameDepthIs(names[1..], shared, reserved, d - 1);
    }
  }

  /** Some two paths of `open` have the name `n`. A path is given by its names. */
  ghost predicate SharedIn(open: set<seq<string>>, n: string) {
    exists a, b :: a in open && b in open && a != b && n in a && n in b
  }

  /** `a` lists the names of some path. */
  ghost predicate Spelling(a: seq<string>) {
    a != [] && exists p: Path :: Names(p) == a
  }

  ghost predicate Spellings(open: set<seq<string>>) {
    forall a :: a in open ==> Spelling(a)
  }

  lemma NamesSpell(p: Path)
    ensures Spelling(Names(p))
  {
  }

  function Last(a: seq<string>): string
    requires a != []
  {
    a[|a| - 1]
  }

  lemma SpellingDistinct(a: seq<string>, i: nat, j: nat)
    requires Spelling(a) && i < |a| && j < |a| && a[i] == a[j]
    ensures i == j
  {
    var p: Path :| Names(p) == a;
    NamesDistinct(p, i, j);
  }

  lemma SpellingGroup(a: seq<string>, n: string)
    requires Spelling(a) && n in a
    ensures GroupOf(n) == a[0]
  {
    var p: Path :| Names(p) == a;
    GroupOfMember(p, n);
  }

  lemma LastIsUnshared(a: seq<string>, b: seq<string>)
    requires Spelling(a) && Spelling(b) && Last(a) in b
    ensures a == b
  {
    var p: Path :| Names(p) == a;
    var q: Path :| Names(q) == b;
    WholeIsUnshared(p, q);
  }

  /** Which of its names `a` is shown by among the paths of `open`. */
  ghost function Depth(open: set<seq<string>>, reserved: set<string>, a: seq<string>): (d: nat)
    requires a != []
    ensures d < |a|
    ensures forall k :: 0 <= k < d ==> SharedIn(open, a[k]) || a[k] in reserved
    ensures d < |a| - 1 ==> !SharedIn(open, a[d]) && a[d] !in reserved
  {
    NameDepth(a, n => SharedIn(open, n), n => n in reserved)
  }

  /** The name `a` is shown by: the rule over a whole session. */
  ghost function Base(open: set<seq<string>>, reserved: set<string>, a: seq<string>): string
    requires a != []
  {
    a[Depth(open, reserved, a)]
  }

  lemma BaseUnshared(open: set<seq<string>>, reserved: set<string>, a: seq<string>, b: seq<string>)
    requires Spellings(open) && a in open && b in open && a != b
    ensures Base(open, reserved, a) !in b
  {
    var d := Depth(open, reserved, a);
    if d == |a| - 1 && a[d] in b {
      LastIsUnshared(a, b);
    }
  }

  /** Different paths are shown by different names. */
  lemma BasesDiffer(open: set<seq<string>>, reserved: set<string>, a: seq<string>, b: seq<string>)
    requires Spellings(open) && a in open && b in open && a != b
    ensures Base(open, reserved, a) != Base(open, reserved, b)
  {
    BaseUnshared(open, reserved, a, b);
  }

  // ----- growing colliding names in step: the reference -----

  /** One round of growing every colliding name by a component. */
  ghost function Grow(open: set<seq<string>>, reserved: set<string>, depth: map<seq<string>, nat>)
    : (r: map<seq<string>, nat>)
    requires depth.Keys == open && forall a :: a in open ==> depth[a] < |a|
    ensures r.Keys == open && forall a :: a in open ==> depth[a] <= r[a] < |a|
  {
    map a | a in open ::
      if depth[a] + 1 < |a| && (Collides(open, depth, a) || a[depth[a]] in reserved)
      then depth[a] + 1 else depth[a]
  }

  ghost predicate Collides(open: set<seq<string>>, depth: map<seq<string>, nat>, a: seq<string>)
    requires depth.Keys == open && a in open && forall b :: b in open ==> depth[b] < |b|
  {
    exists b :: b in open && b != a && b[depth[b]] == a[depth[a]]
  }

  function Min(a: nat, b: nat): nat {
    if a <= b then a else b
  }

  /** Where `r` rounds of growing from the basenames arrive. */
  ghost function InStep(open: set<seq<string>>, reserved: set<string>, r: nat): (depth: map<seq<string>, nat>)
    requires forall a :: a in open ==> a != []
    ensures depth.Keys == open && forall a :: a in open ==> depth[a] < |a|
  {
    map a | a in open :: Min(r, Depth(open, reserved, a))
  }

  ghost function Grown(open: set<seq<string>>, reserved: set<string>, rounds: nat): (depth: map<seq<string>, nat>)
    requires forall a :: a in open ==> a != []
    ensures depth.Keys == open && forall a :: a in open ==> depth[a] < |a|
  {
    if rounds == 0 then map a | a in open :: 0
    else Grow(open, reserved, Grown(open, reserved, rounds - 1))
  }

  lemma Sharer(open: set<seq<string>>, a: seq<string>, n: string) returns (b: seq<string>)
    requires a in open && n in a && SharedIn(open, n)
    ensures b in open && b != a && n in b
  {
    var x, y :| x in open && y in open && x != y && n in x && n in y;
    b := if x == a then y else x;
  }

  /** A path that shares the name at `d` has it at `d` too, and has not stopped
      growing before. */
  lemma SharerInStep(open: set<seq<string>>, reserved: set<string>, a: seq<string>, d: nat) returns (b: seq<string>)
    requires Spellings(open) && (forall c :: c in open ==> c != [])
    requires a in open && d < Depth(open, reserved, a) && SharedIn(open, a[d])
    ensures b in open && b != a && d < |b| && b[d] == a[d] && d <= Depth(open, reserved, b)
  {
    b := Sharer(open, a, a[d]);
    var p: Path :| Names(p) == a;
    var q: Path :| Names(q) == b;
    var j :| 0 <= j < |b| && b[j] == a[d];
    SharedName(p, d, q, j);
    forall k | 0 <= k < d ensures b[k] == a[k] {
      assert b[..d + 1][k] == a[..d + 1][k];
    }
  }

  lemma SharedBy(open: set<seq<string>>, a: seq<string>, b: seq<string>, n: string)
    requires a in open && b in open && a != b && n in a && n in b
    ensures SharedIn(open, n)
  {
  }

  /** One round of growing takes every path that must move one name further. */
  lemma GrowStep(open: set<seq<string>>, reserved: set<string>, r: nat)
    requires Spellings(open) && (forall a :: a in open ==> a != [])
    ensures Grow(open, reserved, InStep(open, reserved, r)) == InStep(open, reserved, r + 1)
  {
    var depth := InStep(open, reserved, r);
    forall a | a in open ensures Grow(open, reserved, depth)[a] == Min(r + 1, Depth(open, reserved, a)) {
      if r < Depth(open, reserved, a) {
        StillGrows(open, reserved, r, a);
      } else {
        StandsStill(open, reserved, r, a);
      }
    }
  }

  /** A name short of its depth collides or is reserved. */
  lemma StillGrows(open: set<seq<string>>, reserved: set<string>, r: nat, a: seq<string>)
    requires Spellings(open) && (forall c :: c in open ==> c != []) && a in open && r < Depth(open, reserved, a)
    ensures InStep(open, reserved, r)[a] == r && (Collides(open, InStep(open, reserved, r), a) || a[r] in reserved)
  {
    var depth := InStep(open, reserved, r);
    if SharedIn(open, a[r]) {
      var b := SharerInStep(open, reserved, a, r);
      assert b[depth[b]] == a[r];
    }
  }

  /** One at its depth does not, unless it is whole. */
  lemma StandsStill(open: set<seq<string>>, reserved: set<string>, r: nat, a: seq<string>)
    requires (forall c :: c in open ==> c != []) && a in open && Depth(open, reserved, a) <= r
    ensures var d := Depth(open, reserved, a);
      && InStep(open, reserved, r)[a] == d
      && (d + 1 < |a| ==> !Collides(open, InStep(open, reserved, r), a) && a[d] !in reserved)
  {
    var depth, d := InStep(open, reserved, r), Depth(open, reserved, a);
    if d + 1 < |a| && Collides(open, depth, a) {
      var b :| b in open && b != a && b[depth[b]] == a[d];
      SharedBy(open, a, b, a[d]);
    }
  }

  lemma {:induction false} GrownInStep(open: set<seq<string>>, reserved: set<string>, r: nat)
    requires Spellings(open) && (forall a :: a in open ==> a != [])
    ensures Grown(open, reserved, r) == InStep(open, reserved, r)
  {
    if r == 0 {
      StartInStep(open, reserved);
    } else {
      GrownInStep(open, reserved, r - 1);
      GrowStep(open, reserved, r - 1);
      GrownNext(open, reserved, r - 1, InStep(open, reserved, r - 1));
    }
  }

  lemma GrownNext(open: set<seq<string>>, reserved: set<string>, r: nat, depth: map<seq<string>, nat>)
    requires forall a :: a in open ==> a != []
    requires Grown(open, reserved, r) == depth
    ensures depth.Keys == open && forall a :: a in open ==> depth[a] < |a|
    ensures Grown(open, reserved, r + 1) == Grow(open, reserved, depth)
  {
  }

  lemma StartInStep(open: set<seq<string>>, reserved: set<string>)
    requires forall a :: a in open ==> a != []
    ensures Grown(open, reserved, 0) == InStep(open, reserved, 0)
  {
    var start, depth := Grown(open, reserved, 0), InStep(open, reserved, 0);
    forall a | a in open ensures start[a] == depth[a] {
      assert Min(0, Depth(open, reserved, a)) == 0;
    }
  }

  /** Growing every colliding name a component at a time stops, at the name the
      rule reads off each path alone, and only there. */
  lemma GrownIsBase(open: set<seq<string>>, reserved: set<string>, r: nat)
    requires Spellings(open) && (forall a :: a in open ==> a != [])
    ensures Grown(open, reserved, r + 1) == Grown(open, reserved, r) <==>
            forall a :: a in open ==> a[Grown(open, reserved, r)[a]] == Base(open, reserved, a)
  {
    GrownInStep(open, reserved, r);
    GrownInStep(open, reserved, r + 1);
    var now, later := InStep(open, reserved, r), InStep(open, reserved, r + 1);
    if now == later {
      forall a | a in open ensures now[a] == Depth(open, reserved, a) {
        assert now[a] == later[a];
      }
    }
    if forall a :: a in open ==> a[now[a]] == Base(open, reserved, a) {
      forall a | a in open ensures now[a] == later[a] {
        var p: Path :| Names(p) == a;
        NamesDistinct(p, now[a], Depth(open, reserved, a));
      }
    }
  }

  /** It stops by the time the longest path is spelt out. */
  lemma GrowingEnds(open: set<seq<string>>, reserved: set<string>, r: nat)
    requires Spellings(open) && (forall a :: a in open ==> a != [] && |a| <= r + 1)
    ensures forall a :: a in open ==> a[Grown(open, reserved, r)[a]] == Base(open, reserved, a)
  {
    GrownInStep(open, reserved, r);
    forall a | a in open ensures InStep(open, reserved, r)[a] == Depth(open, reserved, a) {
      assert Depth(open, reserved, a) < |a|;
    }
  }
}
