// The addition chain of crecip (curve25519-donna.c), proved to raise to the power 2^255 - 21.
module FieldInverse {
  import opened Field
  import opened Limbs
  import opened FieldArithmetic
  import opened Words

  // The number with n one bits.
  ghost function Ones(n: nat): nat { Exp2(n) - 1 }

  // e shifted up by n bits.
  ghost function Shift(e: nat, n: nat): nat { e * Exp2(n) }

  lemma OnesJoin(a: nat, b: nat)
    ensures Ones(a) * Exp2(b) + Ones(b) == Ones(a + b)
  {
    Exp2Sum(a, b);
    assert (Exp2(a) - 1) * Exp2(b) == Exp2(a) * Exp2(b) - Exp2(b);
  }

  lemma Exp2Small()
    ensures Exp2(1) == 2 && Exp2(2) == 4 && Exp2(5) == 32 && Exp2(15) == 0x8000
  {
  }

  lemma OnesOfFive()
    ensures Ones(5) == 31
  {
    Exp2Small();
  }

  // The exponent the chain ends in is the prime less two.
  lemma LastExponent()
    ensures Ones(250) * Exp2(5) + 11 == P - 2
  {
    Exp2Small();
    hide Exp2;
    Exp2Sum(15, 15);
    Exp2Sum(30, 30);
    Exp2Sum(60, 60);
    Exp2Sum(120, 120);
    Exp2Sum(240, 15);
    Exp2Sum(250, 5);
  }

  method SquarePower(output: array<limb>, input: array<limb>, ghost x: int, ghost e: nat)
    requires 10 <= output.Length && 10 <= input.Length
    requires Size(input) < 0x800_0000 && Element(input) == Power(x, e)
    modifies output
    ensures Size(output) < 0x400_0000 && Element(output) == Power(x, 2 * e)
  {
    PowerSum(x, e, e);
    Square(output, input);
  }

  method MultiplyPower(output: array<limb>, a: array<limb>, b: array<limb>, ghost x: int, ghost e: nat, ghost f: nat)
    requires 10 <= output.Length && 10 <= a.Length && 10 <= b.Length
    requires Size(a) < 0x800_0000 && Element(a) == Power(x, e)
    requires Size(b) < 0x800_0000 && Element(b) == Power(x, f)
    modifies output
    ensures Size(output) < 0x400_0000 && Element(output) == Power(x, e + f)
  {
    PowerSum(x, e, f);
    Multiply(output, a, b);
  }

  // n squarings of the element in s, for an even n, in turn into t0 and t1: two, and then a loop.
  method SquareTimes(t0: array<limb>, t1: array<limb>, s: array<limb>, n: nat, ghost x: int, ghost e: nat)
    requires 10 <= t0.Length && 10 <= t1.Length && 10 <= s.Length && t0 != t1
    requires 2 <= n && n % 2 == 0
    requires Size(s) < 0x800_0000 && Element(s) == Power(x, e)
    modifies t0, t1
    ensures Size(t1) < 0x400_0000 && Element(t1) == Power(x, Shift(e, n))
  {
    hide *;
    SquarePower(t0, s, x, e);
    SquarePower(t1, t0, x, 2 * e);
    Quadrupled(e, 0);
    var i := 2;
    while i < n
      invariant 2 <= i <= n && i % 2 == 0
      invariant Size(t1) < 0x400_0000 && Element(t1) == Power(x, Shift(e, i))
    {
      Quadrupled(e, i);
      SquarePower(t0, t1, x, Shift(e, i));
      SquarePower(t1, t0, x, 2 * Shift(e, i));
      i := i + 2;
    }
  }

  lemma Quadrupled(e: nat, n: nat)
    ensures Shift(e, 0) == e
    ensures 2 * (2 * Shift(e, n)) == Shift(e, n + 2)
  {
    assert Exp2(n + 2) == 4 * Exp2(n);
    assert e * (4 * Exp2(n)) == 4 * (e * Exp2(n));
  }

  // With 2^a - 1 as the exponent of s and 2^n - 1 as that of y: n squarings of s, times y.
  method Join(output: array<limb>, t0: array<limb>, t1: array<limb>, s: array<limb>, n: nat, y: array<limb>,
              ghost x: int, ghost a: nat)
    requires 10 <= output.Length && 10 <= t0.Length && 10 <= t1.Length && 10 <= s.Length && 10 <= y.Length
    requires t0 != t1 && y != t0 && y != t1 && 2 <= n && n % 2 == 0
    requires Size(s) < 0x800_0000 && Element(s) == Power(x, Ones(a))
    requires Size(y) < 0x800_0000 && Element(y) == Power(x, Ones(n))
    modifies output, t0, t1
    ensures Size(output) < 0x400_0000 && Element(output) == Power(x, Ones(a + n))
  {
    OnesJoin(a, n);
    assert Shift(Ones(a), n) == Ones(a) * Exp2(n);
    hide *;
    SquareTimes(t0, t1, s, n, x, Ones(a));
    MultiplyPower(output, t1, y, x, Shift(Ones(a), n), Ones(n));
  }

  // The second and the ninth power.
  method SecondAndNinth(z2: array<limb>, z9: array<limb>, t0: array<limb>, t1: array<limb>, z: array<limb>)
    requires z2.Length == z9.Length == t0.Length == t1.Length == 10 && 10 <= z.Length && Size(z) < 0x800_0000
    requires z != z2 && z != z9 && z != t0 && z != t1 && z2 != z9 && t0 != t1
    requires z2 != t0 && z2 != t1 && z9 != t0 && z9 != t1
    modifies z2, z9, t0, t1
    ensures Size(z2) < 0x400_0000 && Element(z2) == Power(Element(z), 2)
    ensures Size(z9) < 0x400_0000 && Element(z9) == Power(Element(z), 9)
  {
    ghost var x := Element(z);
    assert Element(z) == Power(x, 1) by {
      assert Power(x, 0) == 1;
      hide Residue;
      ResidueOfSmall(x);
    }
    hide *;
    SquarePower(z2, z, x, 1);
    SquarePower(t1, z2, x, 2);
    SquarePower(t0, t1, x, 4);
    MultiplyPower(z9, t0, z, x, 8, 1);
  }

  // The eleventh and the thirty-first power.
  method FirstPowers(z11: array<limb>, z2_5: array<limb>, t0: array<limb>, t1: array<limb>, z: array<limb>)
    requires z11.Length == z2_5.Length == t0.Length == t1.Length == 10 && 10 <= z.Length && Size(z) < 0x800_0000
    requires z != z11 && z != z2_5 && z != t0 && z != t1 && z11 != z2_5 && t0 != t1
    requires z11 != t0 && z11 != t1 && z2_5 != t0 && z2_5 != t1
    modifies z11, z2_5, t0, t1
    ensures Size(z11) < 0x400_0000 && Element(z11) == Power(Element(z), 11)
    ensures Size(z2_5) < 0x400_0000 && Element(z2_5) == Power(Element(z), Ones(5))
  {
    hide *;
    ghost var x := Element(z);
    OnesOfFive();
    var z2, z9 := new limb[10], new limb[10];
    SecondAndNinth(z2, z9, t0, t1, z);
    MultiplyPower(z11, z9, z2, x, 9, 2);
    SquarePower(t0, z11, x, 11);
    MultiplyPower(z2_5, t0, z9, x, 22, 9);
  }

  // t0 := s^32, as five squarings in turn into t0 and t1.
  method FiveSquares(t0: array<limb>, t1: array<limb>, s: array<limb>, ghost x: int, ghost e: nat)
    requires 10 <= t0.Length && 10 <= t1.Length && 10 <= s.Length && t0 != t1
    requires Size(s) < 0x800_0000 && Element(s) == Power(x, e)
    modifies t0, t1
    ensures Size(t0) < 0x400_0000 && Element(t0) == Power(x, 32 * e)
  {
    hide *;
    SquarePower(t0, s, x, e);
    SquarePower(t1, t0, x, 2 * e);
    SquarePower(t0, t1, x, 4 * e);
    SquarePower(t1, t0, x, 8 * e);
    SquarePower(t0, t1, x, 16 * e);
  }

  lemma Exponents()
    ensures 32 * Ones(5) + Ones(5) == Ones(10)
    ensures 32 * Ones(250) + 11 == P - 2
  {
    Exp2Small();
    OnesJoin(5, 5);
    LastExponent();
  }

  // From exponent 2^5 - 1 to 2^50 - 1.
  method ToFifty(z2_50: array<limb>, t0: array<limb>, t1: array<limb>, z2_5: array<limb>, ghost x: int)
    requires z2_50.Length == t0.Length == t1.Length == z2_5.Length == 10
    requires z2_5 != t0 && z2_5 != t1 && t0 != t1
    requires Size(z2_5) < 0x800_0000 && Element(z2_5) == Power(x, Ones(5))
    modifies z2_50, t0, t1
    ensures Size(z2_50) < 0x400_0000 && Element(z2_50) == Power(x, Ones(50))
  {
    hide *;
    Exponents();
    var z2_10, z2_20 := new limb[10], new limb[10];
    FiveSquares(t0, t1, z2_5, x, Ones(5));
    MultiplyPower(z2_10, t0, z2_5, x, 32 * Ones(5), Ones(5));
    Join(z2_20, t0, t1, z2_10, 10, z2_10, x, 10);
    Join(t0, t0, t1, z2_20, 20, z2_20, x, 20);
    Join(z2_50, t1, t0, t0, 10, z2_10, x, 40);
  }

  // From exponent 2^50 - 1 to 2^250 - 1.
  method ToTwoHundredFifty(t0: array<limb>, t1: array<limb>, z2_50: array<limb>, ghost x: int)
    requires z2_50.Length == t0.Length == t1.Length == 10 && z2_50 != t0 && z2_50 != t1 && t0 != t1
    requires Size(z2_50) < 0x800_0000 && Element(z2_50) == Power(x, Ones(50))
    modifies t0, t1
    ensures Size(t0) < 0x400_0000 && Element(t0) == Power(x, Ones(250))
  {
    hide *;
    var z2_100 := new limb[10];
    Join(z2_100, t0, t1, z2_50, 50, z2_50, x, 50);
    Join(t1, t1, t0, z2_100, 100, z2_100, x, 100);
    Join(t0, t0, t1, t1, 50, z2_50, x, 200);
  }

  // out := z^(2^255 - 21), the inverse of z when z is not zero.
  method Reciprocal(out: array<limb>, z: array<limb>)
    requires 10 <= out.Length && 10 <= z.Length && Size(z) < 0x800_0000
    modifies out
    ensures Size(out) < 0x400_0000 && Element(out) == Power(old(Element(z)), P - 2)
  {
    hide *;
    ghost var x := Element(z);
    Exponents();
    var t0, t1, z11 := new limb[10], new limb[10], new limb[10];
    var z2_5, z2_50 := new limb[10], new limb[10];
    FirstPowers(z11, z2_5, t0, t1, z);
    ToFifty(z2_50, t0, t1, z2_5, x);
    ToTwoHundredFifty(t0, t1, z2_50, x);
    FiveSquares(t1, t0, t0, x, Ones(250));
    MultiplyPower(out, t1, z11, x, 32 * Ones(250), 11);
  }
}
