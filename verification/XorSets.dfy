/** Exclusive or on natural numbers, and over a set of them: what the naming
    index accumulates of the paths that have a name. */
module XorSets {

  function Xor(a: nat, b: nat): nat
    decreases a + b
  {
    if a == 0 && b == 0 then 0
    else 2 * Xor(a / 2, b / 2) + (a + b) % 2
  }

  lemma {:induction false} XorParts(a: nat, b: nat)
    ensures Xor(a, b) / 2 == Xor(a / 2, b / 2) && Xor(a, b) % 2 == (a + b) % 2
  {
  }

  lemma {:induction false} XorCommutes(a: nat, b: nat)
    ensures Xor(a, b) == Xor(b, a)
    decreases a + b
  {
    if a + b > 0 {
      XorCommutes(a / 2, b / 2);
    }
  }

  lemma {:induction false} XorAssociates(a: nat, b: nat, c: nat)
    ensures Xor(Xor(a, b), c) == Xor(a, Xor(b, c))
    decreases a + b + c
  {
    if a + b + c > 0 {
      XorAssociates(a / 2, b / 2, c / 2);
      var ab, bc := Xor(a, b), Xor(b, c);
      XorParts(a, b);
      XorParts(b, c);
      XorParts(ab, c);
      XorParts(a, bc);
      LowBits(a, b, c, ab, bc);
      SameParts(Xor(ab, c), Xor(a, bc));
    }
  }

  lemma LowBits(a: nat, b: nat, c: nat, ab: nat, bc: nat)
    requires ab % 2 == (a + b) % 2 && bc % 2 == (b + c) % 2
    ensures (ab + c) % 2 == (a + bc) % 2
  {
  }

  lemma SameParts(x: nat, y: nat)
    requires x / 2 == y / 2 && x % 2 == y % 2
    ensures x == y
  {
  }

  lemma {:induction false} XorSelf(a: nat)
    ensures Xor(a, a) == 0 && Xor(a, 0) == a
  {
    if a > 0 {
      XorSelf(a / 2);
    }
  }

  lemma XorUndo(a: nat, b: nat)
    ensures Xor(Xor(a, b), b) == a
  {
    XorAssociates(a, b, b);
    XorSelf(a);
    XorSelf(b);
  }

  /** The exclusive or of a set, whatever order it is taken in. */
  ghost function XorOf(s: set<nat>): nat {
    if s == {} then 0
    else
      var x :| x in s;
      Xor(XorOf(s - {x}), x)
  }

  lemma {:induction false} XorOfRemove(s: set<nat>, x: nat)
    requires x in s
    ensures XorOf(s) == Xor(XorOf(s - {x}), x)
    decreases s
  {
    var y :| y in s && XorOf(s) == Xor(XorOf(s - {y}), y);
    if y != x {
      var rest := s - {x} - {y};
      assert s - {y} - {x} == rest;
      XorOfRemove(s - {y}, x);
      XorOfRemove(s - {x}, y);
      XorAssociates(XorOf(rest), x, y);
      XorAssociates(XorOf(rest), y, x);
      XorCommutes(x, y);
    }
  }

  lemma XorOfAdd(s: set<nat>, x: nat)
    requires x !in s
    ensures XorOf(s + {x}) == Xor(XorOf(s), x)
  {
    assert s + {x} - {x} == s;
    XorOfRemove(s + {x}, x);
  }

  /** When one is left, the accumulator is that one. */
  lemma XorOfOne(s: set<nat>, x: nat)
    requires s == {x}
    ensures XorOf(s) == x
  {
    XorOfRemove(s, x);
    assert s - {x} == {};
    XorCommutes(0, x);
    XorSelf(x);
  }
}
