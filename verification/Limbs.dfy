// Field elements as limbs alternately 26 and 25 bits wide, least significant first, and the
// schoolbook product of two of them (curve25519-donna.c).
module Limbs {
  import opened Words

  // Sixty-four bit signed integers: every value stored in a limb array must be one.
  type limb = x: int | -0x8000_0000_0000_0000 <= x < 0x8000_0000_0000_0000

  // The 64-bit product of two values that are first converted to 32 bits.
  function Wide(x: int, y: int): int { S32(x) * S32(y) }

  // The integer that ten limbs stand for.
  function Value10(x: seq<int>): int
    requires |x| == 10
  {
    x[0] + 0x400_0000 * (x[1] + 0x200_0000 * (x[2] + 0x400_0000 * (x[3] + 0x200_0000 * (
    x[4] + 0x400_0000 * (x[5] + 0x200_0000 * (x[6] + 0x400_0000 * (x[7] + 0x200_0000 * (
    x[8] + 0x400_0000 * (x[9])))))))))
  }

  function Value11(x: seq<int>): int
    requires |x| == 11
  {
    x[0] + 0x400_0000 * (x[1] + 0x200_0000 * (x[2] + 0x400_0000 * (x[3] + 0x200_0000 * (
    x[4] + 0x400_0000 * (x[5] + 0x200_0000 * (x[6] + 0x400_0000 * (x[7] + 0x200_0000 * (
    x[8] + 0x400_0000 * (x[9] + 0x200_0000 * (x[10]))))))))))
  }

  // The integer that the nineteen limbs of an unreduced product stand for.
  function Value19(x: seq<int>): int
    requires |x| == 19
  {
    x[0] + 0x400_0000 * (x[1] + 0x200_0000 * (x[2] + 0x400_0000 * (x[3] + 0x200_0000 * (
    x[4] + 0x400_0000 * (x[5] + 0x200_0000 * (x[6] + 0x400_0000 * (x[7] + 0x200_0000 * (
    x[8] + 0x400_0000 * (x[9] + 0x200_0000 * (x[10] + 0x400_0000 * (x[11] + 0x200_0000 * (
    x[12] + 0x400_0000 * (x[13] + 0x200_0000 * (x[14] + 0x400_0000 * (x[15] + 0x200_0000 * (
    x[16] + 0x400_0000 * (x[17] + 0x200_0000 * (x[18]))))))))))))))))))
  }

  predicate Bounded(x: seq<int>, m: int) {
    forall i :: 0 <= i < |x| ==> -m < x[i] < m
  }

  // The largest magnitude of the limbs.
  ghost function MaxAbs(x: seq<int>): nat {
    if x == [] then 0
    else
      var m, v := MaxAbs(x[1..]), if x[0] < 0 then -x[0] else x[0];
      if m < v then v else m
  }

  lemma {:induction false} MaxAbsBound(x: seq<int>, m: int)
    requires 0 < m
    ensures MaxAbs(x) < m <==> Bounded(x, m)
  {
    if x != [] {
      MaxAbsBound(x[1..], m);
      assert forall i :: 0 < i < |x| ==> x[i] == x[1..][i - 1];
      assert forall i :: 0 <= i < |x[1..]| ==> x[1..][i] == x[i + 1];
    }
  }

  // The right-hand side of fproduct's assignment to limb k. A product of two odd limbs counts
  // twice, since their weights multiply to twice the weight of the limb they are added to.
  function ProductLimb(a: seq<int>, b: seq<int>, k: int): int
    requires |a| == 10 && |b| == 10 && 0 <= k < 19
  {
    if k == 0 then Wide(a[0], b[0])
    else if k == 1 then Wide(a[0], b[1]) + Wide(a[1], b[0])
    else if k == 2 then 2 * Wide(a[1], b[1]) + Wide(a[0], b[2]) + Wide(a[2], b[0])
    else if k == 3 then Wide(a[1], b[2]) + Wide(a[2], b[1]) + Wide(a[0], b[3]) + Wide(a[3], b[0])
    else if k == 4 then
      Wide(a[2], b[2]) + 2 * (Wide(a[1], b[3]) + Wide(a[3], b[1])) + Wide(a[0], b[4]) + Wide(a[4], b[0])
    else if k == 5 then
      Wide(a[2], b[3]) + Wide(a[3], b[2]) + Wide(a[1], b[4]) + Wide(a[4], b[1]) + Wide(a[0], b[5]) +
      Wide(a[5], b[0])
    else if k == 6 then
      2 * (Wide(a[3], b[3]) + Wide(a[1], b[5]) + Wide(a[5], b[1])) + Wide(a[2], b[4]) + Wide(a[4], b[2]) +
      Wide(a[0], b[6]) + Wide(a[6], b[0])
    else if k == 7 then
      Wide(a[3], b[4]) + Wide(a[4], b[3]) + Wide(a[2], b[5]) + Wide(a[5], b[2]) + Wide(a[1], b[6]) +
      Wide(a[6], b[1]) + Wide(a[0], b[7]) + Wide(a[7], b[0])
    else if k == 8 then
      Wide(a[4], b[4]) + 2 * (Wide(a[3], b[5]) + Wide(a[5], b[3]) + Wide(a[1], b[7]) + Wide(a[7], b[1])) +
      Wide(a[2], b[6]) + Wide(a[6], b[2]) + Wide(a[0], b[8]) + Wide(a[8], b[0])
    else if k == 9 then
      Wide(a[4], b[5]) + Wide(a[5], b[4]) + Wide(a[3], b[6]) + Wide(a[6], b[3]) + Wide(a[2], b[7]) +
      Wide(a[7], b[2]) + Wide(a[1], b[8]) + Wide(a[8], b[1]) + Wide(a[0], b[9]) + Wide(a[9], b[0])
    else if k == 10 then
      2 * (Wide(a[5], b[5]) + Wide(a[3], b[7]) + Wide(a[7], b[3]) + Wide(a[1], b[9]) + Wide(a[9], b[1])) +
      Wide(a[4], b[6]) + Wide(a[6], b[4]) + Wide(a[2], b[8]) + Wide(a[8], b[2])
    else if k == 11 then
      Wide(a[5], b[6]) + Wide(a[6], b[5]) + Wide(a[4], b[7]) + Wide(a[7], b[4]) + Wide(a[3], b[8]) +
      Wide(a[8], b[3]) + Wide(a[2], b[9]) + Wide(a[9], b[2])
    else if k == 12 then
      Wide(a[6], b[6]) + 2 * (Wide(a[5], b[7]) + Wide(a[7], b[5]) + Wide(a[3], b[9]) + Wide(a[9], b[3])) +
      Wide(a[4], b[8]) + Wide(a[8], b[4])
    else if k == 13 then
      Wide(a[6], b[7]) + Wide(a[7], b[6]) + Wide(a[5], b[8]) + Wide(a[8], b[5]) + Wide(a[4], b[9]) +
      Wide(a[9], b[4])
    else if k == 14 then
      2 * (Wide(a[7], b[7]) + Wide(a[5], b[9]) + Wide(a[9], b[5])) + Wide(a[6], b[8]) + Wide(a[8], b[6])
    else if k == 15 then Wide(a[7], b[8]) + Wide(a[8], b[7]) + Wide(a[6], b[9]) + Wide(a[9], b[6])
    else if k == 16 then Wide(a[8], b[8]) + 2 * (Wide(a[7], b[9]) + Wide(a[9], b[7]))
    else if k == 17 then Wide(a[8], b[9]) + Wide(a[9], b[8])
    else 2 * Wide(a[9], b[9])
  }

  // The nineteen limbs that fproduct writes.
  function Products(a: seq<int>, b: seq<int>): (p: seq<int>)
    requires |a| == 10 && |b| == 10
    ensures |p| == 19
    ensures forall k :: 0 <= k < 19 ==> p[k] == ProductLimb(a, b, k)
  {
    seq(19, k requires 0 <= k < 19 => ProductLimb(a, b, k))
  }

  // The nineteen right-hand sides of fsquare_inner.
  function Squares(a: seq<int>): (p: seq<int>)
    requires |a| == 10
    ensures |p| == 19
  {
    [
      Wide(a[0], a[0]),
      2 * Wide(a[0], a[1]),
      2 * (Wide(a[1], a[1]) + Wide(a[0], a[2])),
      2 * (Wide(a[1], a[2]) + Wide(a[0], a[3])),
      Wide(a[2], a[2]) + 4 * Wide(a[1], a[3]) + 2 * Wide(a[0], a[4]),
      2 * (Wide(a[2], a[3]) + Wide(a[1], a[4]) + Wide(a[0], a[5])),
      2 * (Wide(a[3], a[3]) + Wide(a[2], a[4]) + Wide(a[0], a[6]) + 2 * Wide(a[1], a[5])),
      2 * (Wide(a[3], a[4]) + Wide(a[2], a[5]) + Wide(a[1], a[6]) + Wide(a[0], a[7])),
      Wide(a[4], a[4]) + 2 * (Wide(a[2], a[6]) + Wide(a[0], a[8]) + 2 * (Wide(a[1], a[7]) +
        Wide(a[3], a[5]))),
      2 * (Wide(a[4], a[5]) + Wide(a[3], a[6]) + Wide(a[2], a[7]) + Wide(a[1], a[8]) + Wide(a[0], a[9])),
      2 * (Wide(a[5], a[5]) + Wide(a[4], a[6]) + Wide(a[2], a[8]) + 2 * (Wide(a[3], a[7]) +
        Wide(a[1], a[9]))),
      2 * (Wide(a[5], a[6]) + Wide(a[4], a[7]) + Wide(a[3], a[8]) + Wide(a[2], a[9])),
      Wide(a[6], a[6]) + 2 * (Wide(a[4], a[8]) + 2 * (Wide(a[5], a[7]) + Wide(a[3], a[9]))),
      2 * (Wide(a[6], a[7]) + Wide(a[5], a[8]) + Wide(a[4], a[9])),
      2 * (Wide(a[7], a[7]) + Wide(a[6], a[8]) + 2 * Wide(a[5], a[9])),
      2 * (Wide(a[7], a[8]) + Wide(a[6], a[9])),
      Wide(a[8], a[8]) + 4 * Wide(a[7], a[9]),
      2 * Wide(a[8], a[9]),
      2 * Wide(a[9], a[9])
    ]
  }

  lemma Distribute(x: int, p: int, k: int, q: int)
    ensures x * (p + k * q) == x * p + k * (x * q)
  {
  }

  // Limbs in pairs are digits to the base 2^51.
  ghost function Digit(a: seq<int>, i: int): int
    requires |a| == 10 && 0 <= i < 5
  {
    a[2 * i] + 0x400_0000 * a[2 * i + 1]
  }

  ghost function DigitProduct(a: seq<int>, b: seq<int>, i: int, j: int): int
    requires |a| == 10 && |b| == 10 && 0 <= i < 5
  {
    if 0 <= j < 5 then Digit(a, i) * Digit(b, j) else 0
  }

  ghost function OddProduct(a: seq<int>, b: seq<int>, i: int, j: int): int
    requires |a| == 10 && |b| == 10 && 0 <= i < 5
  {
    if 0 <= j < 5 then Wide(a[2 * i + 1], b[2 * j + 1]) else 0
  }

  // Column k of the multiplication table of the digits, and the part of it from odd limbs.
  ghost function DigitColumn(a: seq<int>, b: seq<int>, k: int): int
    requires |a| == 10 && |b| == 10
  {
    DigitProduct(a, b, 0, k) + DigitProduct(a, b, 1, k - 1) + DigitProduct(a, b, 2, k - 2) +
    DigitProduct(a, b, 3, k - 3) + DigitProduct(a, b, 4, k - 4)
  }

  ghost function OddColumn(a: seq<int>, b: seq<int>, k: int): int
    requires |a| == 10 && |b| == 10
  {
    OddProduct(a, b, 0, k) + OddProduct(a, b, 1, k - 1) + OddProduct(a, b, 2, k - 2) +
    OddProduct(a, b, 3, k - 3) + OddProduct(a, b, 4, k - 4)
  }

  lemma DigitProductLimbs(a: seq<int>, b: seq<int>, i: int, j: int)
    requires |a| == 10 && |b| == 10 && Bounded(a, 0x800_0000) && Bounded(b, 0x800_0000)
    requires 0 <= i < 5
    ensures DigitProduct(a, b, i, j) ==
            if j < 0 || 5 <= j then 0
            else Wide(a[2 * i], b[2 * j]) + 0x10_0000_0000_0000 * OddProduct(a, b, i, j) +
                 0x400_0000 * (Wide(a[2 * i], b[2 * j + 1]) + Wide(a[2 * i + 1], b[2 * j]))
  {
  }

  // Two limbs of the product hold a column of digit products, except that the products of two
  // odd limbs, of weight 2^52, are counted twice in the next column instead.
  lemma Column(a: seq<int>, b: seq<int>, k: nat)
    requires |a| == 10 && |b| == 10 && Bounded(a, 0x800_0000) && Bounded(b, 0x800_0000) && k < 9
    ensures Products(a, b)[2 * k] + 0x400_0000 * Products(a, b)[2 * k + 1] ==
            DigitColumn(a, b, k) - 0x10_0000_0000_0000 * OddColumn(a, b, k) + 2 * OddColumn(a, b, k - 1)
  {
    hide Wide, Digit, DigitProduct;
    DigitProductLimbs(a, b, 0, k);
    DigitProductLimbs(a, b, 1, k - 1);
    DigitProductLimbs(a, b, 2, k - 2);
    DigitProductLimbs(a, b, 3, k - 3);
    DigitProductLimbs(a, b, 4, k - 4);
  }

  // The value of five digits to the base 2^51.
  ghost function Base(d0: int, d1: int, d2: int, d3: int, d4: int): int {
    d0 + 0x8_0000_0000_0000 * (d1 + 0x8_0000_0000_0000 * (d2 + 0x8_0000_0000_0000 * (d3 + 0x8_0000_0000_0000 * d4)))
  }

  lemma DigitRow(a: seq<int>, b: seq<int>, i: int)
    requires |a| == 10 && |b| == 10 && 0 <= i < 5
    ensures Digit(a, i) * Value10(b) ==
            Base(DigitProduct(a, b, i, 0), DigitProduct(a, b, i, 1), DigitProduct(a, b, i, 2),
                 DigitProduct(a, b, i, 3), DigitProduct(a, b, i, 4))
  {
  }

  lemma ProductOfValues(a: seq<int>, b: seq<int>)
    requires |a| == 10 && |b| == 10
    ensures Value10(a) * Value10(b) ==
            Base(Digit(a, 0) * Value10(b), Digit(a, 1) * Value10(b), Digit(a, 2) * Value10(b),
                 Digit(a, 3) * Value10(b), Digit(a, 4) * Value10(b))
  {
  }

  // The limb products carry the product of the values.
  lemma ProductsValue(a: seq<int>, b: seq<int>)
    requires |a| == 10 && |b| == 10 && Bounded(a, 0x800_0000) && Bounded(b, 0x800_0000)
    ensures Value19(Products(a, b)) == Value10(a) * Value10(b)
  {
    ColumnsValue(a, b);
    ProductOfValues(a, b);
    DigitRow(a, b, 0);
    DigitRow(a, b, 1);
    DigitRow(a, b, 2);
    DigitRow(a, b, 3);
    DigitRow(a, b, 4);
    hide Products, Digit, Value10, Value19;
  }

  lemma LastColumn(a: seq<int>, b: seq<int>)
    requires |a| == 10 && |b| == 10
    ensures Products(a, b)[18] == 2 * OddColumn(a, b, 8) && OddColumn(a, b, -1) == 0
  {
  }

  lemma ColumnsValue(a: seq<int>, b: seq<int>)
    requires |a| == 10 && |b| == 10 && Bounded(a, 0x800_0000) && Bounded(b, 0x800_0000)
    ensures Value19(Products(a, b)) ==
            Base(DigitColumn(a, b, 0), DigitColumn(a, b, 1), DigitColumn(a, b, 2), DigitColumn(a, b, 3),
                 Base(DigitColumn(a, b, 4), DigitColumn(a, b, 5), DigitColumn(a, b, 6),
                      DigitColumn(a, b, 7), DigitColumn(a, b, 8)))
  {
    hide Products, ProductLimb, DigitColumn, OddColumn;
    LastColumn(a, b);
    Column(a, b, 0);
    Column(a, b, 1);
    Column(a, b, 2);
    Column(a, b, 3);
    Column(a, b, 4);
    Column(a, b, 5);
    Column(a, b, 6);
    Column(a, b, 7);
    Column(a, b, 8);
  }

  // The squaring shortcut computes the limbs of the general product.
  lemma SquaresAreProducts(a: seq<int>)
    requires |a| == 10
    ensures Squares(a) == Products(a, a)
  {
    hide Wide;
    forall i, j | 0 <= i < 10 && 0 <= j < 10
      ensures Wide(a[i], a[j]) == Wide(a[j], a[i])
    {
      WideCommutes(a[i], a[j]);
    }
  }

  lemma WideCommutes(x: int, y: int)
    ensures Wide(x, y) == Wide(y, x)
  {
  }

  lemma WideBound(x: int, y: int)
    requires -0x800_0000 < x < 0x800_0000 && -0x800_0000 < y < 0x800_0000
    ensures -0x40_0000_0000_0000 < Wide(x, y) < 0x40_0000_0000_0000
  {
  }

  // Fourteen products of limbs below 2^27 at most meet in one limb of the result.
  lemma ProductsBound(a: seq<int>, b: seq<int>)
    requires |a| == 10 && |b| == 10 && Bounded(a, 0x800_0000) && Bounded(b, 0x800_0000)
    ensures Bounded(Products(a, b), 14 * 0x40_0000_0000_0000)
  {
    hide Wide;
    forall i, j | 0 <= i < 10 && 0 <= j < 10
      ensures -0x40_0000_0000_0000 < Wide(a[i], b[j]) < 0x40_0000_0000_0000
    {
      WideBound(a[i], b[j]);
    }
  }

  ghost function Absolute(s: seq<int>): (r: seq<int>)
    ensures |r| == |s| && forall i :: 0 <= i < |s| ==> r[i] == if s[i] < 0 then -s[i] else s[i]
  {
    seq(|s|, i requires 0 <= i < |s| => if s[i] < 0 then -s[i] else s[i])
  }

  lemma AbsoluteWide(x: int, y: int)
    requires -0x800_0000 < x < 0x800_0000 && -0x800_0000 < y < 0x800_0000
    ensures Wide(if x < 0 then -x else x, if y < 0 then -y else y) == if Wide(x, y) < 0 then -Wide(x, y) else Wide(x, y)
  {
  }

  // In each limb even the absolute values of the products, with their factors, sum up to less than
  // 14 * 2^54, so no partial sum exceeds that either.
  lemma AbsoluteProductsBound(a: seq<int>, b: seq<int>)
    requires |a| == 10 && |b| == 10 && Bounded(a, 0x800_0000) && Bounded(b, 0x800_0000)
    ensures forall i, j :: 0 <= i < 10 && 0 <= j < 10 ==>
              Wide(Absolute(a)[i], Absolute(b)[j]) ==
              if Wide(a[i], b[j]) < 0 then -Wide(a[i], b[j]) else Wide(a[i], b[j])
    ensures Bounded(Products(Absolute(a), Absolute(b)), 14 * 0x40_0000_0000_0000)
  {
    hide Wide, Products;
    forall i, j | 0 <= i < 10 && 0 <= j < 10
      ensures Wide(Absolute(a)[i], Absolute(b)[j]) ==
              if Wide(a[i], b[j]) < 0 then -Wide(a[i], b[j]) else Wide(a[i], b[j])
    {
      AbsoluteWide(a[i], b[j]);
    }
    ProductsBound(Absolute(a), Absolute(b));
  }
}
