/** UTF-8 as the parser decodes it byte by byte (src/ansi.rs): well-formed sequences
    as section 4 of RFC 3629 gives them, and one U+FFFD for each maximal subpart of an
    ill-formed one, as section 3.9 of the Unicode Standard has it. */
module Utf8 {
  type Byte = b: nat | b < 256

  type Bytes = seq<Byte>

  const Replacement: char := '\U{FFFD}'

  // ----- one sequence -----

  /** How the bytes begin: with a whole sequence, with the start of one, or with
      bytes that start none. */
  datatype Scanned = Complete(len: nat, c: char) | Incomplete | Invalid(len: nat)

  /** The length of the sequence a lead byte starts, or zero. */
  function Length(lead: Byte): nat {
    if lead < 0x80 then 1
    else if lead < 0xC2 then 0
    else if lead < 0xE0 then 2
    else if lead < 0xF0 then 3
    else if lead < 0xF5 then 4
    else 0
  }

  predicate Continues(b: Byte) {
    0x80 <= b < 0xC0
  }

  /** The second bytes that keep a sequence shortest, off the surrogates and within
      the last plane. */
  predicate Second(lead: Byte, b: Byte) {
    if lead == 0xE0 then 0xA0 <= b < 0xC0
    else if lead == 0xED then 0x80 <= b < 0xA0
    else if lead == 0xF0 then 0x90 <= b < 0xC0
    else if lead == 0xF4 then 0x80 <= b < 0x90
    else Continues(b)
  }

  function Two(a: Byte, b: Byte): char
    requires Length(a) == 2 && Second(a, b)
  {
    ((a - 0xC0) * 64 + (b - 0x80)) as char
  }

  function Three(a: Byte, b: Byte, c: Byte): char
    requires Length(a) == 3 && Second(a, b) && Continues(c)
  {
    ((a - 0xE0) * 4096 + (b - 0x80) * 64 + (c - 0x80)) as char
  }

  function Four(a: Byte, b: Byte, c: Byte, d: Byte): char
    requires Length(a) == 4 && Second(a, b) && Continues(c) && Continues(d)
  {
    ((a - 0xF0) * 262144 + (b - 0x80) * 4096 + (c - 0x80) * 64 + (d - 0x80)) as char
  }

  function Scan(s: Bytes): (r: Scanned)
    requires s != []
    ensures r.Complete? ==> 1 <= r.len <= |s|
    ensures r.Invalid? ==> 1 <= r.len <= |s|
    ensures r.Incomplete? ==> |s| < 4
  {
    var n := Length(s[0]);
    if n == 0 then Invalid(1)
    else if n == 1 then Complete(1, s[0] as char)
    else if |s| == 1 then Incomplete
    else if !Second(s[0], s[1]) then Invalid(1)
    else if n == 2 then Complete(2, Two(s[0], s[1]))
    else if |s| == 2 then Incomplete
    else if !Continues(s[2]) then Invalid(2)
    else if n == 3 then Complete(3, Three(s[0], s[1], s[2]))
    else if |s| == 3 then Incomplete
    else if !Continues(s[3]) then Invalid(3)
    else Complete(4, Four(s[0], s[1], s[2], s[3]))
  }

  // ----- the encoding it inverts -----

  function Encode(c: char): (s: Bytes)
    ensures 1 <= |s| <= 4
  {
    var n := c as nat;
    if n < 0x80 then [n]
    else if n < 0x800 then [0xC0 + n / 64, 0x80 + n % 64]
    else if n < 0x10000 then [0xE0 + n / 4096, 0x80 + n / 64 % 64, 0x80 + n % 64]
    else [0xF0 + n / 262144, 0x80 + n / 4096 % 64, 0x80 + n / 64 % 64, 0x80 + n % 64]
  }

  lemma ThreeParts(a: int, b: int, c: int)
    requires 0 <= a < 16 && 0 <= b < 64 && 0 <= c < 64
    ensures var m := a * 4096 + b * 64 + c; m / 4096 == a && m / 64 % 64 == b && m % 64 == c
  {
    assert (a * 4096 + b * 64 + c) / 64 == a * 64 + b;
  }

  lemma FourParts(a: int, b: int, c: int, d: int)
    requires 0 <= a < 8 && 0 <= b < 64 && 0 <= c < 64 && 0 <= d < 64
    ensures var m := a * 262144 + b * 4096 + c * 64 + d;
      m / 262144 == a && m / 4096 % 64 == b && m / 64 % 64 == c && m % 64 == d
  {
    var m := a * 262144 + b * 4096 + c * 64 + d;
    assert m / 64 == a * 4096 + b * 64 + c;
    assert m / 4096 == a * 64 + b;
  }

  lemma ThreeScans(a: Byte, b: Byte, c: Byte)
    requires Length(a) == 3 && Second(a, b) && Continues(c)
    ensures Encode(Three(a, b, c)) == [a, b, c]
  {
    ThreeParts(a - 0xE0, b - 0x80, c - 0x80);
  }

  lemma FourScans(a: Byte, b: Byte, c: Byte, d: Byte)
    requires Length(a) == 4 && Second(a, b) && Continues(c) && Continues(d)
    ensures Encode(Four(a, b, c, d)) == [a, b, c, d]
  {
    FourParts(a - 0xF0, b - 0x80, c - 0x80, d - 0x80);
  }

  lemma TwoScans(a: Byte, b: Byte)
    requires Length(a) == 2 && Second(a, b)
    ensures Encode(Two(a, b)) == [a, b]
  {
  }

  /** A whole sequence is its character's encoding, and nothing shorter or longer. */
  lemma ScanIsEncoding(s: Bytes)
    requires s != [] && Scan(s).Complete?
    ensures Encode(Scan(s).c) == s[..Scan(s).len]
  {
    var n := Length(s[0]);
    if n == 1 {
      assert s[..1] == [s[0]];
    } else if n == 2 {
      TwoScans(s[0], s[1]);
      assert s[..2] == [s[0], s[1]];
    } else if n == 3 {
      ThreeScans(s[0], s[1], s[2]);
      assert s[..3] == [s[0], s[1], s[2]];
    } else {
      FourScans(s[0], s[1], s[2], s[3]);
      assert s[..4] == [s[0], s[1], s[2], s[3]];
    }
  }

  lemma EncodeThree(n: int)
    requires 0x800 <= n < 0x10000 && !(0xD800 <= n < 0xE000)
    ensures var a, b, c := 0xE0 + n / 4096, 0x80 + n / 64 % 64, 0x80 + n % 64;
      && Length(a) == 3 && Second(a, b) && Continues(c) && (a - 0xE0) * 4096 + (b - 0x80) * 64 + (c - 0x80) == n
  {
  }

  lemma EncodeFour(n: int)
    requires 0x10000 <= n < 0x110000
    ensures var a, b, c, d := 0xF0 + n / 262144, 0x80 + n / 4096 % 64, 0x80 + n / 64 % 64, 0x80 + n % 64;
      && Length(a) == 4 && Second(a, b) && Continues(c) && Continues(d)
      && (a - 0xF0) * 262144 + (b - 0x80) * 4096 + (c - 0x80) * 64 + (d - 0x80) == n
  {
  }

  /** Every character's encoding is read back, whatever follows. */
  lemma ScanOfEncoding(c: char, rest: Bytes)
    ensures Scan(Encode(c) + rest) == Complete(|Encode(c)|, c)
  {
    var n, s := c as int, Encode(c) + rest;
    if n >= 0x10000 {
      EncodeFour(n);
      assert s[0] == 0xF0 + n / 262144 && s[1] == 0x80 + n / 4096 % 64 && s[2] == 0x80 + n / 64 % 64
        && s[3] == 0x80 + n % 64;
    } else if n >= 0x800 {
      EncodeThree(n);
      assert s[0] == 0xE0 + n / 4096 && s[1] == 0x80 + n / 64 % 64 && s[2] == 0x80 + n % 64;
    }
  }

  // ----- maximal subparts -----

  /** The bytes begin some character's encoding. */
  ghost predicate Begins(s: Bytes) {
    exists c: char :: s <= Encode(c)
  }

  /** Some bytes complete the start of a sequence. */
  lemma Completes(s: Bytes) returns (rest: Bytes)
    requires s != [] && Scan(s).Incomplete?
    ensures Scan(s + rest).Complete? && Scan(s + rest).len == |s + rest|
  {
    var n := Length(s[0]);
    if |s| == 1 {
      rest := FromLead(s[0]);
      assert s + rest == [s[0]] + rest;
    } else if |s| == 2 {
      rest := if n == 3 then [0x80] else [0x80, 0x80];
      assert s == [s[0], s[1]];
    } else {
      rest := [0x80];
      assert s == [s[0], s[1], s[2]];
    }
  }

  lemma FromLead(lead: Byte) returns (rest: Bytes)
    requires Length(lead) > 1
    ensures Scan([lead] + rest).Complete? && Scan([lead] + rest).len == |[lead] + rest|
  {
    var second: Byte := if lead == 0xE0 then 0xA0 else if lead == 0xF0 then 0x90 else 0x80;
    rest := if Length(lead) == 2 then [second] else if Length(lead) == 3 then [second, 0x80] else [second, 0x80, 0x80];
    assert Second(lead, second);
  }

  lemma IncompleteBegins(s: Bytes)
    requires s != [] && Scan(s).Incomplete?
    ensures Begins(s)
  {
    var rest := Completes(s);
    ScanIsEncoding(s + rest);
    assert (s + rest)[..|s + rest|] == s + rest;
    assert s <= Encode(Scan(s + rest).c);
  }

  /** An encoding read from any of its starts is not yet whole, and not invalid. */
  lemma BeginsScans(s: Bytes, c: char)
    requires s != [] && s <= Encode(c)
    ensures if s == Encode(c) then Scan(s) == Complete(|s|, c) else Scan(s).Incomplete?
  {
    ScanOfEncoding(c, []);
    assert Encode(c) + [] == Encode(c);
  }

  /** Bytes are the start of a sequence, short of its end, exactly if they begin some
      character's encoding and are not one. */
  lemma IncompleteIsStart(s: Bytes)
    requires s != []
    ensures Scan(s).Incomplete? <==> Begins(s) && !exists c: char :: s == Encode(c)
  {
    if Scan(s).Incomplete? {
      IncompleteBegins(s);
      if c: char :| s == Encode(c) {
        BeginsScans(s, c);
      }
    }
    if Begins(s) && !exists c: char :: s == Encode(c) {
      var c: char :| s <= Encode(c);
      BeginsScans(s, c);
    }
  }

  /** What one U+FFFD stands for: the longest start of a sequence, or one byte. */
  lemma InvalidIsMaximal(s: Bytes)
    requires s != [] && Scan(s).Invalid?
    ensures var n := Scan(s).len;
      && (n < |s| ==> !Begins(s[..n + 1]))
      && (n > 1 ==> Begins(s[..n]))
      && (n == 1 ==> Begins(s[..1]) || Length(s[0]) == 0)
  {
    var n := Scan(s).len;
    if Length(s[0]) != 0 {
      assert Scan(s[..n]).Incomplete?;
      IncompleteBegins(s[..n]);
    }
    if n < |s| && Begins(s[..n + 1]) {
      var c: char :| s[..n + 1] <= Encode(c);
      BeginsScans(s[..n + 1], c);
    }
  }

  // ----- whole segments -----

  /** The characters the bytes decode to, and the start of a sequence they end in. */
  function Decode(s: Bytes): (r: (string, Bytes))
    ensures r.1 == [] || Scan(r.1).Incomplete?
  {
    if s == [] then ("", [])
    else
      match Scan(s)
      case Complete(n, c) => var (t, r) := Decode(s[n..]); ([c] + t, r)
      case Invalid(n) => var (t, r) := Decode(s[n..]); ([Replacement] + t, r)
      case Incomplete => ("", s)
  }

  /** The characters the bytes decode to when nothing follows them. */
  function Lossy(s: Bytes): string {
    var (t, r) := Decode(s);
    if r == [] then t else t + [Replacement]
  }

  lemma ScanMore(s: Bytes, u: Bytes)
    requires s != [] && !Scan(s).Incomplete?
    ensures Scan(s + u) == Scan(s)
  {
  }

  /** Decoding may stop anywhere and go on from the start of a sequence it held. */
  lemma {:induction false} DecodeMore(s: Bytes, u: Bytes)
    ensures var (t, r) := Decode(s); var (t', r') := Decode(r + u); Decode(s + u) == (t + t', r')
    decreases |s|
  {
    if s == [] {
      assert s + u == u && [] + u == u;
    } else {
      match Scan(s)
      case Incomplete =>
        assert "" + Decode(s + u).0 == Decode(s + u).0;
      case Complete(n, c) =>
        ScanMore(s, u);
        assert (s + u)[n..] == s[n..] + u;
        DecodeMore(s[n..], u);
        var (t, r) := Decode(s[n..]);
        assert ([c] + t) + Decode(r + u).0 == [c] + (t + Decode(r + u).0);
      case Invalid(n) =>
        ScanMore(s, u);
        assert (s + u)[n..] == s[n..] + u;
        DecodeMore(s[n..], u);
        var (t, r) := Decode(s[n..]);
        assert ([Replacement] + t) + Decode(r + u).0 == [Replacement] + (t + Decode(r + u).0);
    }
  }

  function EncodeAll(t: string): Bytes {
    if t == "" then [] else Encode(t[0]) + EncodeAll(t[1..])
  }

  /** Well-formed text is decoded to itself. */
  lemma {:induction false} LossyOfEncoded(t: string)
    ensures Decode(EncodeAll(t)) == (t, []) && Lossy(EncodeAll(t)) == t
  {
    if t != "" {
      var s := EncodeAll(t);
      ScanOfEncoding(t[0], EncodeAll(t[1..]));
      assert s[|Encode(t[0])|..] == EncodeAll(t[1..]);
      LossyOfEncoded(t[1..]);
      assert [t[0]] + t[1..] == t;
    }
  }

  // ----- checking bytes -----

  /** How many bytes from the start are whole sequences. */
  function ValidLength(s: Bytes): (n: nat)
    ensures n <= |s|
  {
    if s != [] && Scan(s).Complete? then Scan(s).len + ValidLength(s[Scan(s).len..]) else 0
  }

  lemma Cut(s: Bytes, k: nat, n: nat)
    requires k <= n <= |s|
    ensures s[..n][k..] == s[k..][..n - k] && s[n..] == s[k..][n - k..]
  {
  }

  /** Whole sequences decode to the end; what follows them starts with none. */
  lemma {:induction false} ValidIsWhole(s: Bytes)
    ensures Decode(s[..ValidLength(s)]).1 == []
    ensures ValidLength(s) < |s| ==> !Scan(s[ValidLength(s)..]).Complete?
    decreases |s|
  {
    var n := ValidLength(s);
    if n > 0 {
      var k, rest := Scan(s).len, s[Scan(s).len..];
      ValidIsWhole(rest);
      Cut(s, k, n);
      assert Scan(s[..n]) == Scan(s);
    } else {
      assert s[..0] == [] && s[0..] == s;
    }
  }
}
