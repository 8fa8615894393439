// The Montgomery ladder on residues: the step and the loop of section 5 of RFC 7748, and the form
// of the loop in curve25519-donna.c, which swaps back after every step.
module LadderSpec {
  import opened Field
  import opened Words

  datatype Ladder = Ladder(x2: int, z2: int, x3: int, z3: int)

  // One step of the ladder.
  function Step(s: Ladder, x1: int): Ladder {
    var a := Add(s.x2, s.z2);
    var aa := Mul(a, a);
    var b := Sub(s.x2, s.z2);
    var bb := Mul(b, b);
    var e := Sub(aa, bb);
    var c := Add(s.x3, s.z3);
    var d := Sub(s.x3, s.z3);
    var da := Mul(d, a);
    var cb := Mul(c, b);
    var sum := Add(da, cb);
    var difference := Sub(da, cb);
    Ladder(Mul(aa, bb), Mul(e, Add(aa, Mul(121665, e))), Mul(sum, sum), Mul(x1, Mul(difference, difference)))
  }

  // Exchanges the two points when the bit is set.
  function Swap(s: Ladder, bit: bool): Ladder {
    if bit then Ladder(s.x3, s.z3, s.x2, s.z2) else s
  }

  function Start(u: int): Ladder { Ladder(1, 0, u, 1) }

  // The ladder over bits t - 1 down to 0 of k, with swap telling whether the points are exchanged.
  ghost function RfcLadder(k: int, u: int, t: nat, s: Ladder, swap: bool): Ladder
    decreases t
  {
    if t == 0 then Swap(s, swap)
    else
      var bit := Bit(k, t - 1);
      RfcLadder(k, u, t - 1, Step(Swap(s, swap != bit), u), bit)
  }

  // The ladder over all 256 bits of k, from the point with x-coordinate u.
  ghost function Climbed(k: int, u: int): Ladder { RfcLadder(k, u, 256, Start(u), false) }

  // A step between two exchanges.
  function SwappedStep(s: Ladder, u: int, bit: bool): Ladder { Swap(Step(Swap(s, bit), u), bit) }

  // The state after the first n of 256 bits, from the top.
  ghost function Rung(k: int, u: int, n: nat): Ladder
    requires n <= 256
  {
    if n == 0 then Start(u) else SwappedStep(Rung(k, u, n - 1), u, Bit(k, 256 - n))
  }

  lemma {:induction false} LaddersAgree(k: int, u: int, n: nat, swap: bool)
    requires n <= 256
    ensures RfcLadder(k, u, 256 - n, Swap(Rung(k, u, n), swap), swap) == Rung(k, u, 256)
    decreases 256 - n
  {
    if n < 256 {
      var bit := Bit(k, 255 - n);
      var s := Rung(k, u, n);
      assert Swap(Swap(s, swap), swap != bit) == Swap(s, bit);
      var t := Step(Swap(s, bit), u);
      assert Swap(Rung(k, u, n + 1), bit) == t;
      LaddersAgree(k, u, n + 1, bit);
    }
  }

  // The u-coordinate that the ladder ends with.
  ghost function Result(s: Ladder): int { Mul(s.x2, Power(s.z2, P - 2)) }

  // curve25519-donna's loop computes the ladder of RFC 7748, here over all 256 bits.
  lemma SameLadder(k: int, u: int)
    ensures Rung(k, u, 256) == Climbed(k, u)
  {
    LaddersAgree(k, u, 0, false);
  }

  // The step as curve25519-donna orders its operands.
  lemma StepReordered(s: Ladder, u: int)
    ensures var a, b := Add(s.x2, s.z2), Sub(s.x2, s.z2);
            var c, d := Add(s.x3, s.z3), Sub(s.x3, s.z3);
            var cb, ad := Mul(c, b), Mul(a, d);
            var sum, difference := Add(cb, ad), Sub(cb, ad);
            && Step(s, u).x3 == Mul(sum, sum)
            && Step(s, u).z3 == Mul(Mul(difference, difference), u)
    ensures var a, b := Add(s.x2, s.z2), Sub(s.x2, s.z2);
            var aa, bb := Mul(a, a), Mul(b, b);
            var e := Sub(aa, bb);
            && Step(s, u).x2 == Mul(aa, bb)
            && Step(s, u).z2 == Mul(e, Add(Mul(121665, e), aa))
  {
    var a, b := Add(s.x2, s.z2), Sub(s.x2, s.z2);
    var c, d := Add(s.x3, s.z3), Sub(s.x3, s.z3);
    assert a * d == d * a;
    var cb, ad := Mul(c, b), Mul(a, d);
    NegatedSquare(cb, ad);
    var q := Mul(Sub(cb, ad), Sub(cb, ad));
    assert q * u == u * q;
  }

  lemma NegatedSquare(x: int, y: int)
    ensures Mul(Sub(x, y), Sub(x, y)) == Mul(Sub(y, x), Sub(y, x))
  {
    ResidueOfProduct(x - y, x - y);
    ResidueOfProduct(y - x, y - x);
    assert (x - y) * (x - y) == (y - x) * (y - x);
  }

  // Both points of the ladder have a coordinate that vanishes.
  predicate Vanishing(s: Ladder) { (s.x2 == 0 || s.z2 == 0) && (s.x3 == 0 || s.z3 == 0) }

  lemma VanishingStep(s: Ladder)
    requires Vanishing(s)
    ensures Step(s, 0).z2 == 0 && Step(s, 0).z3 == 0
  {
    NegatedSquare(s.z2, 0);
    var a, b := Add(s.x2, s.z2), Sub(s.x2, s.z2);
    assert Mul(a, a) == Mul(b, b);
    assert Sub(Mul(a, a), Mul(b, b)) == 0;
  }

  lemma {:induction false} VanishingLadder(k: int, t: nat, s: Ladder, swap: bool)
    requires Vanishing(s)
    ensures Vanishing(RfcLadder(k, 0, t, s, swap))
    decreases t
  {
    hide Step;
    if t != 0 {
      var bit := Bit(k, t - 1);
      VanishingStep(Swap(s, swap != bit));
      VanishingLadder(k, t - 1, Step(Swap(s, swap != bit), 0), bit);
    }
  }

  // From the point zero, which has small order, every scalar leads to zero.
  lemma ZeroPoint(k: int)
    ensures Result(Climbed(k, 0)) == 0
  {
    hide RfcLadder, Power;
    VanishingLadder(k, 256, Start(0), false);
    var s := Climbed(k, 0);
    hide Residue;
    ResidueOfSmall(0);
    PowerOfZero(P - 2);
    assert s.x2 * 0 == 0 && 0 * Power(s.z2, P - 2) == 0;
  }

  lemma PowerOfZero(e: nat)
    requires e > 0
    ensures Power(0, e) == 0
  {
    assert Power(0, e) == Mul(0, Power(0, e - 1));
    hide Residue;
    ResidueOfSmall(0);
  }
}
