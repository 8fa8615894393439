// The field of integers modulo 2^255 - 19 (section 4.1 of RFC 7748), as residues.
module Field {
  import opened Words

  const P: int := 0x7fff_ffff_ffff_ffff_ffff_ffff_ffff_ffff_ffff_ffff_ffff_ffff_ffff_ffff_ffff_ffed

  type Modulus = m: int | m > 0 witness 1

  // The same number as a formula, which proofs in the field do not need to evaluate.
  const BITS: nat := 255
  const PRIME: Modulus := (PrimeValue(); Exp2(BITS) - 19)

  lemma PrimeValue()
    ensures Exp2(BITS) - 19 == P
  {
    hide Exp2;
    Exp2Values();
    Exp2Sum(31, 31);
    Exp2Sum(62, 62);
    Exp2Sum(124, 124);
    Exp2Sum(248, 8);
    Exp2Sum(1, 255);
  }

  // The representative of n in [0, P).
  function Residue(n: int): (r: int)
    ensures 0 <= r < P
  {
    PrimeValue();
    n % PRIME
  }

  lemma ResidueIsRemainder(n: int)
    ensures Residue(n) == n % P
  {
    PrimeValue();
  }

  lemma ResidueOfSmall(n: int)
    requires 0 <= n < P
    ensures Residue(n) == n
  {
    hide Residue;
    ResidueIsRemainder(n);
  }

  function Add(x: int, y: int): int { Residue(x + y) }

  function Sub(x: int, y: int): int { Residue(x - y) }

  function Mul(x: int, y: int): int { Residue(x * y) }

  // Integers that differ by a multiple of the prime have one residue.
  lemma Shifted(n: int, m: int, k: int)
    requires n == m + k * P
    ensures Residue(n) == Residue(m)
  {
    hide Residue;
    ResidueIsRemainder(n);
    ResidueIsRemainder(m);
  }

  lemma Quotient(n: int)
    ensures n == Residue(n) + (n / P) * P
  {
    hide Residue;
    ResidueIsRemainder(n);
  }

  lemma ResidueOfSum(a: int, b: int)
    ensures Residue(a + b) == Add(Residue(a), Residue(b))
    ensures Residue(a - b) == Sub(Residue(a), Residue(b))
  {
    hide Residue;
    Quotient(a);
    Quotient(b);
    Shifted(a + b, Residue(a) + Residue(b), a / P + b / P);
    Shifted(a - b, Residue(a) - Residue(b), a / P - b / P);
  }

  lemma ResidueOfProduct(a: int, b: int)
    ensures Residue(a * b) == Mul(Residue(a), Residue(b))
    ensures Residue(a * b) == Residue(Residue(a) * b) == Residue(a * Residue(b))
  {
    hide Residue;
    LeftFactor(a, b);
    LeftFactor(b, a);
    LeftFactor(b, Residue(a));
    Commutes(a, b);
    Commutes(Residue(a), b);
    Commutes(a, Residue(b));
    Commutes(Residue(a), Residue(b));
  }

  lemma Commutes(a: int, b: int)
    ensures a * b == b * a
  {
  }

  lemma LeftFactor(a: int, b: int)
    ensures Residue(a * b) == Residue(Residue(a) * b)
  {
    hide Residue;
    var k := a / P;
    Quotient(a);
    calc {
      a * b;
      (Residue(a) + k * P) * b;
      Residue(a) * b + (k * P) * b;
      { assert (k * P) * b == (k * b) * P; }
      Residue(a) * b + (k * b) * P;
    }
    Shifted(a * b, Residue(a) * b, k * b);
  }

  lemma MulAssociative(x: int, y: int, z: int)
    ensures Mul(Mul(x, y), z) == Mul(x, Mul(y, z))
  {
    hide Residue;
    ResidueOfProduct(x * y, z);
    ResidueOfProduct(x, y * z);
    assert (x * y) * z == x * (y * z);
  }

  // x to the power e in the field.
  function Power(x: int, e: nat): (r: int)
    ensures 0 <= r < P
  {
    if e == 0 then 1 else Mul(x, Power(x, e - 1))
  }

  lemma {:induction false} PowerSum(x: int, a: nat, b: nat)
    ensures Power(x, a + b) == Mul(Power(x, a), Power(x, b))
  {
    if a == 0 {
      ResidueOfSmall(Power(x, b));
    } else {
      hide Residue;
      PowerSum(x, a - 1, b);
      MulAssociative(x, Power(x, a - 1), Power(x, b));
    }
  }
}
