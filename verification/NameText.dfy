/** Text the naming rule is built from: components joined by `/`, the group a
    name falls in, decimal numerals and the `<N>` suffix. */
module NameText {
  import opened Options

  /** A path component: nonempty text without a `/`. */
  predicate Component(s: string) {
    s != "" && '/' !in s
  }

  predicate Components(parts: seq<string>) {
    forall i :: 0 <= i < |parts| ==> Component(parts[i])
  }

  function Join(parts: seq<string>): string {
    if |parts| == 0 then ""
    else if |parts| == 1 then parts[0]
    else parts[0] + "/" + Join(parts[1..])
  }

  predicate EndsWithSlash(s: string) {
    s != "" && s[|s| - 1] == '/'
  }

  function Slashes(s: string): nat {
    if s == "" then 0 else (if s[0] == '/' then 1 else 0) + Slashes(s[1..])
  }

  /** The last position of `c` in `s`, or `None`. */
  function RFind(s: string, c: char): (r: Option<nat>)
    ensures r.Some? ==> r.value < |s| && s[r.value] == c && c !in s[r.value + 1..]
    ensures r.None? ==> c !in s
  {
    if s == "" then None
    else if s[|s| - 1] == c then Some(|s| - 1)
    else
      var r := RFind(s[..|s| - 1], c);
      assert s == s[..|s| - 1] + [s[|s| - 1]];
      assert r.Some? ==> s[r.value + 1..] == s[..|s| - 1][r.value + 1..] + [s[|s| - 1]];
      r
  }

  lemma {:induction false} RFindIs(s: string, c: char, k: nat)
    requires k < |s| && s[k] == c && c !in s[k + 1..]
    ensures RFind(s, c) == Some(k)
  {
    if k < |s| - 1 {
      assert s[|s| - 1] == s[k + 1..][|s| - 2 - k];
      assert s[..|s| - 1][k + 1..] == s[k + 1..][..|s| - 2 - k];
      RFindIs(s[..|s| - 1], c, k);
    }
  }

  lemma RFindNone(s: string, c: char)
    requires c !in s
    ensures RFind(s, c) == None
  {
  }

  /** The basename a name ends with, as a path's group is written. */
  function GroupOf(name: string): string {
    var body := if EndsWithSlash(name) then name[..|name| - 1] else name;
    match RFind(body, '/')
    case None => name
    case Some(slash) => name[slash + 1..]
  }

  // ----- joins -----

  lemma {:induction false} SlashesConcat(a: string, b: string)
    ensures Slashes(a + b) == Slashes(a) + Slashes(b)
  {
    if a == "" {
      assert a + b == b;
    } else {
      assert (a + b)[1..] == a[1..] + b;
      SlashesConcat(a[1..], b);
    }
  }

  lemma {:induction false} SlashesNone(s: string)
    requires '/' !in s
    ensures Slashes(s) == 0
  {
    if s != "" {
      SlashesNone(s[1..]);
    }
  }

  lemma {:induction false} SlashesJoin(parts: seq<string>)
    requires Components(parts) && parts != []
    ensures Slashes(Join(parts)) == |parts| - 1
  {
    SlashesNone(parts[0]);
    if |parts| > 1 {
      SlashesJoin(parts[1..]);
      SlashesConcat(parts[0] + "/", Join(parts[1..]));
      SlashesConcat(parts[0], "/");
    }
  }

  lemma {:induction false} JoinSnoc(parts: seq<string>, x: string)
    requires parts != []
    ensures Join(parts + [x]) == Join(parts) + "/" + x
  {
    var all := parts + [x];
    if |parts| == 1 {
      assert all[1..] == [x];
    } else {
      assert all[1..] == parts[1..] + [x];
      JoinSnoc(parts[1..], x);
    }
  }

  /** A join starts with its first component, up to the first `/`. */
  lemma JoinHead(parts: seq<string>)
    requires Components(parts) && parts != []
    ensures |parts[0]| <= |Join(parts)| && Join(parts)[..|parts[0]|] == parts[0]
    ensures |parts| > 1 ==> |parts[0]| < |Join(parts)| && Join(parts)[|parts[0]|] == '/'
                            && Join(parts)[|parts[0]| + 1..] == Join(parts[1..])
    ensures |parts| == 1 ==> Join(parts) == parts[0]
    ensures Join(parts) != "" && Join(parts)[0] != '/'
  {
  }

  /** Joining components loses nothing. */
  lemma {:induction false} JoinInjective(a: seq<string>, b: seq<string>)
    requires Components(a) && Components(b) && a != [] && b != []
    requires Join(a) == Join(b)
    ensures a == b
  {
    JoinHead(a);
    JoinHead(b);
    SlashesJoin(a);
    SlashesJoin(b);
    assert a[0] == b[0];
    if |a| > 1 {
      JoinInjective(a[1..], b[1..]);
      assert a == [a[0]] + a[1..] && b == [b[0]] + b[1..];
    }
  }

  lemma {:induction false} JoinEndsInComponent(parts: seq<string>)
    requires Components(parts) && parts != []
    ensures !EndsWithSlash(Join(parts))
  {
    if |parts| > 1 {
      JoinEndsInComponent(parts[1..]);
      JoinHead(parts[1..]);
    }
  }

  lemma LastSlash(prefix: string, last: string)
    requires Component(last) && (prefix == "" || EndsWithSlash(prefix))
    ensures RFind(prefix + last, '/') == if prefix == "" then None else Some(|prefix| - 1)
  {
    var body := prefix + last;
    if prefix == "" {
      assert body == last;
      RFindNone(body, '/');
    } else {
      assert body[|prefix|..] == last;
      RFindIs(body, '/', |prefix| - 1);
    }
  }

  /** The group of `prefix + last + tail` is its basename, whatever directories
      stand before it. */
  lemma GroupOfSplit(prefix: string, last: string, tail: string)
    requires Component(last) && (tail == "" || tail == "/")
    requires prefix == "" || EndsWithSlash(prefix)
    ensures GroupOf(prefix + last + tail) == last + tail
  {
    SplitBody(prefix, last, tail);
    GroupIs(prefix + last + tail, prefix + last);
    LastSlash(prefix, last);
    SplitTail(prefix, last + tail);
    assert prefix + last + tail == prefix + (last + tail);
  }

  lemma SplitBody(prefix: string, last: string, tail: string)
    requires Component(last) && (tail == "" || tail == "/")
    ensures var name := prefix + last + tail;
      prefix + last == if EndsWithSlash(name) then name[..|name| - 1] else name
  {
    SplitTail(prefix, last);
    GroupBody(prefix + last, tail, last);
  }

  lemma SplitTail(prefix: string, rest: string)
    ensures (prefix + rest)[|prefix|..] == rest && (prefix == "" ==> prefix + rest == rest)
  {
  }

  lemma GroupIs(name: string, body: string)
    requires body == if EndsWithSlash(name) then name[..|name| - 1] else name
    ensures GroupOf(name) == (match RFind(body, '/') case None => name case Some(slash) => name[slash + 1..])
  {
  }

  lemma GroupBody(body: string, tail: string, last: string)
    requires Component(last) && (tail == "" || tail == "/")
    requires |last| <= |body| && body[|body| - |last|..] == last
    ensures var name := body + tail;
            body == if EndsWithSlash(name) then name[..|name| - 1] else name
  {
    assert body[|body| - 1] == last[|last| - 1];
    assert (body + "/")[..|body|] == body;
  }

  // ----- numerals and the `<N>` suffix -----

  predicate IsDigit(c: char) {
    '0' <= c <= '9'
  }

  predicate AllDigits(s: string) {
    forall i :: 0 <= i < |s| ==> IsDigit(s[i])
  }

  function Digit(d: nat): (c: char)
    requires d < 10
    ensures IsDigit(c) && c as int == '0' as int + d
  {
    ('0' as int + d) as char
  }

  /** `n` in decimal. */
  function Dec(n: nat): (s: string)
    ensures s != "" && AllDigits(s)
  {
    if n < 10 then [Digit(n)] else Dec(n / 10) + [Digit(n % 10)]
  }

  function Value(s: string): nat
    requires AllDigits(s)
  {
    if s == "" then 0
    else 10 * Value(s[..|s| - 1]) + (s[|s| - 1] as int - '0' as int)
  }

  /** The unsigned parse of the host language: an optional `+`, then digits. */
  function Parse(s: string): Option<nat> {
    var digits := if s != "" && s[0] == '+' then s[1..] else s;
    if digits != "" && AllDigits(digits) then Some(Value(digits)) else None
  }

  function Suffixed(base: string, n: nat): string {
    base + "<" + Dec(n) + ">"
  }

  /** True iff `name` is `base` with a `<N>` of the kind naming gives. */
  predicate IsSuffixed(base: string, name: string) {
    && base <= name
    && var rest := name[|base|..];
    && rest != "" && rest[0] == '<'
    && rest[|rest| - 1] == '>' && |rest| >= 2
    && var digits := rest[1..|rest| - 1];
    && var n := Parse(digits);
    && n.Some? && n.value >= 2 && |name| == |base| + |Dec(n.value)| + 2
  }

  /** `name` without its `<N>` suffix, if it ends with one. */
  function WithoutSuffix(name: string): Option<string> {
    if name == "" || name[|name| - 1] != '>' then None
    else
      var body := name[..|name| - 1];
      match RFind(body, '<')
      case None => None
      case Some(open) =>
        var digits := body[open + 1..];
        if digits != "" && AllDigits(digits) then Some(name[..open]) else None
  }

  /** The groups a name can meet, in order. */
  function GroupsOfName(name: string): seq<string> {
    [GroupOf(name)] + match WithoutSuffix(name) case None => [] case Some(b) => [GroupOf(b)]
  }

  lemma {:induction false} ValueDec(n: nat)
    ensures Value(Dec(n)) == n
  {
    if n >= 10 {
      ValueDec(n / 10);
      var s := Dec(n);
      assert s[..|s| - 1] == Dec(n / 10);
    } else {
      assert Dec(n)[..0] == "";
    }
  }

  /** A numeral is never longer than the shortest one for its value, and only
      the canonical one is as short. */
  lemma {:induction false} DecValue(s: string)
    requires AllDigits(s) && s != ""
    ensures |Dec(Value(s))| <= |s|
    ensures |Dec(Value(s))| == |s| ==> Dec(Value(s)) == s
  {
    var t, d := s[..|s| - 1], s[|s| - 1] as int - '0' as int;
    assert s == t + [s[|s| - 1]];
    if t == "" {
      assert Value(t) == 0;
    } else {
      DecValue(t);
      assert Value(s) / 10 == Value(t) && Value(s) % 10 == d;
    }
  }

  lemma WithoutSuffixOfSuffixed(base: string, n: nat)
    ensures WithoutSuffix(Suffixed(base, n)) == Some(base)
  {
    var name, digits := Suffixed(base, n), Dec(n);
    var body := name[..|name| - 1];
    assert body == base + "<" + digits;
    assert body[|base| + 1..] == digits;
    RFindIs(body, '<', |base|);
    assert name[..|base|] == base;
  }

  lemma SuffixedCut(base: string, name: string)
    requires IsSuffixed(base, name)
    ensures WithoutSuffix(name) == Some(base)
  {
    var n := SuffixedNumber(base, name);
    WithoutSuffixOfSuffixed(base, n);
  }

  /** `base<N>` tells both the base and the number. */
  lemma SuffixedInjective(b: string, n: nat, b': string, n': nat)
    requires Suffixed(b, n) == Suffixed(b', n')
    ensures b == b' && n == n'
  {
    WithoutSuffixOfSuffixed(b, n);
    WithoutSuffixOfSuffixed(b', n');
    var s := Suffixed(b, n);
    assert s[|b| + 1..|s| - 1] == Dec(n);
    assert s[|b| + 1..|s| - 1] == Dec(n');
    ValueDec(n);
    ValueDec(n');
  }

  lemma SuffixedIsSuffixed(base: string, n: nat)
    requires n >= 2
    ensures IsSuffixed(base, Suffixed(base, n))
  {
    var name, digits := Suffixed(base, n), Dec(n);
    var rest := name[|base|..];
    assert rest == "<" + digits + ">";
    assert rest[1..|rest| - 1] == digits;
    ValueDec(n);
    assert IsDigit(digits[0]);
  }

  lemma SuffixedNumber(base: string, name: string) returns (n: nat)
    requires IsSuffixed(base, name)
    ensures n >= 2 && name == Suffixed(base, n)
  {
    var rest := name[|base|..];
    var digits := rest[1..|rest| - 1];
    n := Parse(digits).value;
    Canonical(digits, n);
    Bracketed(base, name, digits);
  }

  lemma Canonical(digits: string, n: nat)
    requires Parse(digits) == Some(n) && |digits| == |Dec(n)|
    ensures digits == Dec(n)
  {
    var plain := if digits[0] == '+' then digits[1..] else digits;
    DecValue(plain);
    assert plain != digits ==> |plain| < |Dec(n)|;
  }

  lemma Bracketed(base: string, name: string, digits: string)
    requires base <= name && |name| == |base| + |digits| + 2 && name[|base|] == '<' && name[|name| - 1] == '>'
    requires name[|base|..][1..|digits| + 1] == digits
    ensures name == base + "<" + digits + ">"
  {
    assert name == name[..|base|] + name[|base|..];
    assert name[|base|..] == ['<'] + digits + ['>'];
  }

  /** The test on a held name accepts exactly the names `<N>`, N from 2, gives:
      a sign, a leading zero or a small number is refused. */
  lemma IsSuffixedExactly(base: string, name: string)
    ensures IsSuffixed(base, name) <==> exists n: nat :: n >= 2 && name == Suffixed(base, n)
  {
    if IsSuffixed(base, name) {
      var n := SuffixedNumber(base, name);
    }
    if n: nat :| n >= 2 && name == Suffixed(base, n) {
      SuffixedIsSuffixed(base, n);
    }
  }
}
