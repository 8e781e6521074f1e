/** Feeding bytes one by one to a machine that emits as it goes. */
module ByteSteps {
  import opened Utf8

  function Steps<P, E>(step: (P, Byte) -> (P, seq<E>), p: P, s: Bytes): (P, seq<E>) {
    if s == [] then (p, [])
    else
      var (p1, e1) := Steps(step, p, s[..|s| - 1]);
      var (p2, e2) := step(p1, s[|s| - 1]);
      (p2, e1 + e2)
  }

  lemma StepsSnoc<P, E>(step: (P, Byte) -> (P, seq<E>), p: P, s: Bytes, b: Byte)
    ensures var (p1, e1) := Steps(step, p, s); var (p2, e2) := step(p1, b); Steps(step, p, s + [b]) == (p2, e1 + e2)
  {
    assert (s + [b])[..|s|] == s;
  }

  /** Stopping anywhere and going on changes nothing. */
  lemma {:induction false} StepsAppend<P, E>(step: (P, Byte) -> (P, seq<E>), p: P, s: Bytes, u: Bytes)
    ensures var (p1, e1) := Steps(step, p, s); var (p2, e2) := Steps(step, p1, u);
      Steps(step, p, s + u) == (p2, e1 + e2)
  {
    if u == [] {
      assert s + u == s;
      assert Steps(step, p, s).1 + [] == Steps(step, p, s).1;
    } else {
      var n := |u| - 1;
      StepsAppend(step, p, s, u[..n]);
      assert (s + u)[..|s + u| - 1] == s + u[..n];
      var (p1, e1) := Steps(step, p, s);
      var (p2, e2) := Steps(step, p1, u[..n]);
      var (p3, e3) := step(p2, u[n]);
      assert (e1 + e2) + e3 == e1 + (e2 + e3);
    }
  }
}
