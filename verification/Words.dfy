// Bitwise operations on two's complement integers, one bit at a time, and the comparisons of
// curve25519-donna.c that are built from them.
module Words {

  // Thirty-two bit signed integers.
  type s32 = x: int | -0x8000_0000 <= x < 0x8000_0000

  // Conversion to a 32-bit signed integer, which drops the high bits.
  function S32(x: int): (r: s32)
    ensures -0x8000_0000 <= x < 0x8000_0000 ==> r == x
  {
    (x + 0x8000_0000) % 0x1_0000_0000 - 0x8000_0000
  }

  function Exp2(n: nat): (r: nat)
    ensures 1 <= r
  {
    if n == 0 then 1 else 2 * Exp2(n - 1)
  }

  lemma {:induction false} Exp2Sum(a: nat, b: nat)
    ensures Exp2(a + b) == Exp2(a) * Exp2(b)
  {
    if a != 0 {
      Exp2Sum(a - 1, b);
      assert 2 * (Exp2(a - 1) * Exp2(b)) == (2 * Exp2(a - 1)) * Exp2(b);
    }
  }

  // x has n bits and a sign.
  predicate Fits(x: int, n: nat) { 0 <= x + Exp2(n) < 2 * Exp2(n) }

  datatype Gate = AND | OR | XOR

  predicate Output(g: Gate, p: bool, q: bool) {
    match g
    case AND => p && q
    case OR => p || q
    case XOR => p != q
  }

  // The operation g on each bit of two integers.
  function Bitwise(g: Gate, x: int, y: int, n: nat): (r: int)
    requires Fits(x, n) && Fits(y, n)
    ensures Fits(r, n)
    decreases n
  {
    if n == 0 then if Output(g, x < 0, y < 0) then -1 else 0
    else (if Output(g, x % 2 == 1, y % 2 == 1) then 1 else 0) + 2 * Bitwise(g, x / 2, y / 2, n - 1)
  }

  lemma {:induction false} AndMask(x: int, n: nat)
    requires Fits(x, n)
    ensures Bitwise(AND, x, -1, n) == Bitwise(AND, -1, x, n) == x
    ensures Bitwise(AND, x, 0, n) == Bitwise(AND, 0, x, n) == 0
    decreases n
  {
    if n != 0 { AndMask(x / 2, n - 1); }
  }

  lemma ModDouble(x: int, m: nat)
    requires 1 <= m
    ensures x % (2 * m) == 2 * ((x / 2) % m) + x % 2
  {
    var q, r := (x / 2) / m, (x / 2) % m;
    assert x == q * (2 * m) + (2 * r + x % 2);
    ModUnique(x, q, 2 * m, 2 * r + x % 2);
  }

  lemma ModUnique(x: int, q: int, m: nat, r: nat)
    requires r < m && x == q * m + r
    ensures x % m == r && x / m == q
  {
    var d := x / m - q;
    assert r - x % m == d * m;
    MulMonotone(1, d, m);
    MulMonotone(d, -1, m);
  }

  lemma MulMonotone(x: int, y: int, m: nat)
    ensures x <= y ==> x * m <= y * m
  {
  }

  lemma DivAdd(x: int, k: int, m: nat)
    requires 1 <= m
    ensures (x + k * m) / m == x / m + k && (x + k * m) % m == x % m
  {
    assert (x / m + k) * m == (x / m) * m + k * m;
    ModUnique(x + k * m, x / m + k, m, x % m);
  }

  // Bits above a window do not show in it.
  lemma Window(x: int, k: int, p: nat, m: nat)
    requires 1 <= p && 1 <= m
    ensures (x + (k * m) * p) / p % m == x / p % m
  {
    DivAdd(x, k * m, p);
    DivAdd(x / p, k, m);
  }

  lemma DivDiv(x: int, p: nat, m: nat)
    requires 1 <= p && 1 <= m
    ensures 1 <= p * m && x / p / m == x / (p * m)
  {
    var q, r := x / p / m, x / p % m;
    assert x == (q * m + r) * p + x % p;
    assert (q * m + r) * p == q * (p * m) + r * p;
    assert r * p <= (m - 1) * p && (m - 1) * p + p == p * m;
    assert p * m >= 1;
    ModUnique(x, q, p * m, r * p + x % p);
  }

  // One more low one bit in a mask adds the lowest bit of x to the result.
  lemma AndLowStep(x: int, p: nat, n: nat)
    requires 1 <= n && Fits(x, n) && Fits(p - 1, n - 1)
    ensures Fits(x / 2, n - 1) && Fits(2 * p - 1, n)
    ensures Bitwise(AND, x, 2 * p - 1, n) == x % 2 + 2 * Bitwise(AND, x / 2, p - 1, n - 1)
  {
    assert Exp2(n) == 2 * Exp2(n - 1);
    var y := 2 * p - 1;
    assert y / 2 == p - 1 && y % 2 == 1;
    hide Exp2;
  }

  // A mask of k low one bits takes the remainder modulo 2^k.
  lemma {:induction false} AndLowBits(x: int, k: nat, n: nat)
    requires Fits(x, n) && k <= n
    ensures Fits(Exp2(k) - 1, n)
    ensures Bitwise(AND, x, Exp2(k) - 1, n) == x % Exp2(k)
    decreases n
  {
    if k == 0 {
      AndMask(x, n);
    } else {
      var p := Exp2(k - 1);
      AndLowBits(x / 2, k - 1, n - 1);
      AndLowStep(x, p, n);
      ModDouble(x, p);
      hide Bitwise;
      assert Exp2(k) == 2 * p;
    }
  }

  lemma {:induction false} XorZero(x: int, n: nat)
    requires Fits(x, n)
    ensures Bitwise(XOR, x, 0, n) == x
    decreases n
  {
    if n != 0 { XorZero(x / 2, n - 1); }
  }

  // Exclusive or undoes itself.
  lemma {:induction false} XorTwice(x: int, y: int, n: nat)
    requires Fits(x, n) && Fits(y, n)
    ensures Bitwise(XOR, x, Bitwise(XOR, x, y, n), n) == y
    ensures Bitwise(XOR, y, Bitwise(XOR, x, y, n), n) == x
    decreases n
  {
    if n != 0 {
      XorTwice(x / 2, y / 2, n - 1);
      var z := Bitwise(XOR, x, y, n);
      assert z / 2 == Bitwise(XOR, x / 2, y / 2, n - 1) && (z % 2 == 1 <==> x % 2 != y % 2);
    }
  }

  lemma {:induction false} OrZero(y: int, n: nat)
    requires 0 <= y < Exp2(n)
    ensures Bitwise(OR, 0, y, n) == y
    decreases n
  {
    if n != 0 { OrZero(y / 2, n - 1); }
  }

  // The union of values that share no bits is their sum.
  lemma {:induction false} OrDisjoint(x: int, y: int, k: nat, n: nat)
    requires 0 <= x < Exp2(k) && 0 <= y < Exp2(n) && y % Exp2(k) == 0 && k <= n
    ensures Fits(x, n) && Bitwise(OR, x, y, n) == x + y
    decreases n
  {
    if k == 0 {
      OrZero(y, n);
    } else {
      ModDouble(y, Exp2(k - 1));
      OrDisjoint(x / 2, y / 2, k - 1, n - 1);
    }
  }

  // Bit k of an integer.
  ghost predicate Bit(v: int, k: nat)
    decreases k
  {
    if k == 0 then v % 2 == 1 else Bit(v / 2, k - 1)
  }

  lemma {:induction false} BitOfBitwise(g: Gate, x: int, y: int, n: nat, k: nat)
    requires Fits(x, n) && Fits(y, n) && k <= n
    ensures Bit(Bitwise(g, x, y, n), k) == Output(g, Bit(x, k), Bit(y, k))
    decreases n
  {
    if n != 0 && k != 0 {
      assert Bitwise(g, x, y, n) / 2 == Bitwise(g, x / 2, y / 2, n - 1);
      BitOfBitwise(g, x / 2, y / 2, n - 1, k - 1);
    }
  }

  lemma {:induction false} BitOfShift(v: int, s: nat, k: nat)
    ensures Bit(v * Exp2(s), k) == (s <= k && Bit(v, k - s))
    decreases s
  {
    if s != 0 {
      assert v * Exp2(s) == 2 * (v * Exp2(s - 1));
      if k != 0 { BitOfShift(v, s - 1, k - 1); }
    }
  }

  lemma {:induction false} BitOfDivided(v: int, s: nat, k: nat)
    ensures Bit(v / Exp2(s), k) == Bit(v, s + k)
    decreases s
  {
    if s != 0 {
      BitOfDivided(v / 2, s - 1, k);
      DivDiv(v, 2, Exp2(s - 1));
    }
  }

  lemma {:induction false} BitOfWrapped(v: int, j: int, n: nat, k: nat)
    requires k < n
    ensures Bit(v + j * Exp2(n), k) == Bit(v, k)
    decreases n
  {
    assert v + j * Exp2(n) == v + 2 * (j * Exp2(n - 1));
    if k != 0 { BitOfWrapped(v / 2, j, n - 1, k - 1); }
  }

  lemma {:induction false} BitOfOnes(k: nat)
    ensures Bit(-1, k)
  {
    if k != 0 { BitOfOnes(k - 1); }
  }

  lemma {:induction false} AllBits(v: int, n: nat)
    requires Fits(v, n) && forall k: nat :: k <= n ==> Bit(v, k)
    ensures v == -1
    decreases n
  {
    assert Bit(v, 0);
    if n != 0 {
      forall k: nat | k <= n - 1
        ensures Bit(v / 2, k)
      {
        assert Bit(v, k + 1);
      }
      AllBits(v / 2, n - 1);
    }
  }

  lemma {:induction false} BitOfSign(v: int, n: nat)
    requires Fits(v, n)
    ensures Bit(v, n) <==> v < 0
    decreases n
  {
    if n != 0 { BitOfSign(v / 2, n - 1); }
  }

  lemma Exp2Values()
    ensures Exp2(31) == 0x8000_0000 && Exp2(16) == 0x1_0000 && Exp2(8) == 0x100 && Exp2(4) == 0x10
    ensures Exp2(25) == 0x200_0000 && Exp2(26) == 0x400_0000 && Exp2(2) == 4 && Exp2(1) == 2
  {
    assert Exp2(4) == 16;
    assert Exp2(8) == 0x100;
    assert Exp2(12) == 0x1000;
    assert Exp2(16) == 0x1_0000;
    assert Exp2(20) == 0x10_0000;
    assert Exp2(24) == 0x100_0000;
    assert Exp2(28) == 0x1000_0000;
  }

  // The 32-bit operations.
  function Combine(g: Gate, x: s32, y: s32): s32 {
    Exp2Values();
    Bitwise(g, x, y, 31)
  }

  function Not(x: s32): s32 { -1 - x }

  // The arithmetic shift by thirty-one places, which spreads the sign.
  function Sign(x: s32): s32 { x / 0x8000_0000 }

  // v masked with its own sign: v when negative, zero otherwise.
  function NegativePart(v: s32): s32 { Combine(AND, v, Sign(v)) }

  lemma NegativePartValue(v: s32)
    ensures NegativePart(v) == if v < 0 then v else 0
  {
    hide Combine;
    AndMaskWord(v);
  }

  lemma AndMaskWord(v: s32)
    ensures Combine(AND, v, -1) == Combine(AND, -1, v) == v && Combine(AND, v, 0) == Combine(AND, 0, v) == 0
  {
    Exp2Values();
    hide Bitwise, Exp2;
    AndMask(v, 31);
  }

  lemma AndLowWord(v: s32)
    ensures Combine(AND, v, 0xff) == v % 0x100
    ensures Combine(AND, v, 0x1ff_ffff) == v % 0x200_0000
    ensures Combine(AND, v, 0x3ff_ffff) == v % 0x400_0000
  {
    Exp2Values();
    hide Bitwise, Exp2;
    AndLowBits(v, 8, 31);
    AndLowBits(v, 25, 31);
    AndLowBits(v, 26, 31);
  }

  // One step of s32_eq: a &= a << s.
  function AndShifted(a: s32, s: nat): s32 { Combine(AND, a, S32(a * Exp2(s))) }

  function S32Eq(a: s32, b: s32): s32 {
    var v0 := Not(Combine(XOR, a, b));
    var v1 := AndShifted(v0, 16);
    var v2 := AndShifted(v1, 8);
    var v3 := AndShifted(v2, 4);
    var v4 := AndShifted(v3, 2);
    var v5 := AndShifted(v4, 1);
    Sign(v5)
  }

  lemma NotXorIsOnes(a: s32, b: s32)
    ensures Not(Combine(XOR, a, b)) == -1 <==> a == b
  {
    Exp2Values();
    hide Bitwise, Exp2;
    XorZero(a, 31);
    XorTwice(a, b, 31);
    XorTwice(a, 0, 31);
  }

  lemma BitOfAndShifted(a: s32, s: nat, k: nat)
    requires k < 32
    ensures Bit(AndShifted(a, s), k) == (Bit(a, k) && s <= k && Bit(a, k - s))
  {
    Exp2Values();
    var w := a * Exp2(s);
    var j := (w + 0x8000_0000) / 0x1_0000_0000;
    assert S32(w) == w + -j * 0x1_0000_0000;
    assert Exp2(32) == 0x1_0000_0000;
    hide Exp2, Bit;
    BitOfWrapped(w, -j, 32, k);
    BitOfShift(a, s, k);
    BitOfBitwise(AND, a, S32(w), 31, k);
  }

  ghost predicate TopBits(v: int, m: nat) {
    forall k: nat :: 32 <= k + m && k < 32 ==> Bit(v, k)
  }

  lemma FoldStep(a: s32, s: nat)
    requires s <= 16
    ensures TopBits(AndShifted(a, s), s) <==> TopBits(a, 2 * s)
  {
    hide AndShifted, Bit, Exp2;
    forall k: nat | k < 32
      ensures Bit(AndShifted(a, s), k) == (Bit(a, k) && s <= k && Bit(a, k - s))
    {
      BitOfAndShifted(a, s, k);
    }
    if TopBits(AndShifted(a, s), s) {
      forall k: nat | 32 <= k + 2 * s && k < 32
        ensures Bit(a, k)
      {
        var i := if 32 <= k + s then k else k + s;
        BitOfAndShifted(a, s, i);
        assert Bit(AndShifted(a, s), i);
      }
    }
    if TopBits(a, 2 * s) {
      forall k: nat | 32 <= k + s && k < 32
        ensures Bit(AndShifted(a, s), k)
      {
        assert Bit(a, k) && Bit(a, k - s);
      }
    }
  }

  // s32_eq: all ones when a and b are equal, all zeros otherwise. Each step folds the top bits
  // onto half as many, so the sign ends up set when all thirty-two bits were.
  lemma S32EqMask(a: s32, b: s32)
    ensures S32Eq(a, b) == if a == b then -1 else 0
  {
    Exp2Values();
    NotXorIsOnes(a, b);
    hide AndShifted, Bit, Exp2, Combine, TopBits;
    var v0 := Not(Combine(XOR, a, b));
    var v1 := AndShifted(v0, 16);
    var v2 := AndShifted(v1, 8);
    var v3 := AndShifted(v2, 4);
    var v4 := AndShifted(v3, 2);
    var v5 := AndShifted(v4, 1);
    FoldStep(v0, 16);
    FoldStep(v1, 8);
    FoldStep(v2, 4);
    FoldStep(v3, 2);
    FoldStep(v4, 1);
    SignBit(v5);
    SignBit(v0);
  }

  lemma SignBit(v: s32)
    ensures TopBits(v, 1) <==> v < 0
    ensures TopBits(v, 32) <==> v == -1
  {
    Exp2Values();
    hide Bit;
    BitOfSign(v, 31);
    if TopBits(v, 32) {
      assert forall k: nat :: k <= 31 ==> Bit(v, k);
      AllBits(v, 31);
    }
    if v == -1 {
      forall k: nat ensures Bit(v, k) { BitOfOnes(k); }
    }
  }

  // s32_gte: all ones when a is at least b, for values whose difference does not overflow.
  function S32Gte(a: s32, b: s32): (mask: s32)
    requires 0 <= a && 0 <= b
    ensures mask == if b <= a then -1 else 0
  {
    var d: s32 := a - b;
    Not(Sign(d))
  }
}
