// In-place arithmetic on limb arrays (curve25519-donna.c). Each method is stated on the residue
// modulo 2^255 - 19 that the limbs stand for and on the size of the limbs; every value stored
// is proved to fit its 64-bit limb.
module FieldArithmetic {
  import opened Field
  import opened Limbs
  import opened Words

  // The field element in the first ten limbs.
  ghost function Element(a: array<limb>): int
    requires 10 <= a.Length
    reads a
  {
    Residue(Value10(a[..10]))
  }

  // The largest magnitude of the first ten limbs.
  ghost function Size(a: array<limb>): nat
    requires 10 <= a.Length
    reads a
  {
    MaxAbs(a[..10])
  }

  lemma SizeBound(a: array<limb>, m: int)
    requires 10 <= a.Length && 0 < m
    ensures Size(a) < m <==> Bounded(a[..10], m)
  {
    MaxAbsBound(a[..10], m);
  }

  // All ones when v is negative and all zeros otherwise, read off the high word of v.
  function SignMask(v: limb): (mask: int)
    ensures mask == if v < 0 then -1 else 0
  {
    var highword := (v % 0x1_0000_0000_0000_0000) / 0x1_0000_0000;
    S32(highword) / 0x8000_0000
  }

  // Division by 2^26 that rounds towards zero, with shifts and adds.
  function DivBy26(v: limb): (q: int)
    ensures if 0 <= v then 0 <= v - q * 0x400_0000 < 0x400_0000 else -0x400_0000 < v - q * 0x400_0000 <= 0
  {
    var roundoff := (SignMask(v) % 0x1_0000_0000) / 0x40;
    (v + roundoff) / 0x400_0000
  }

  function DivBy25(v: limb): (q: int)
    ensures if 0 <= v then 0 <= v - q * 0x200_0000 < 0x200_0000 else -0x200_0000 < v - q * 0x200_0000 <= 0
  {
    var roundoff := (SignMask(v) % 0x1_0000_0000) / 0x80;
    (v + roundoff) / 0x200_0000
  }

  method Copy(target: array<limb>, source: array<limb>)
    requires 10 <= target.Length && 10 <= source.Length
    modifies target
    ensures target[..10] == old(source[..10])
    ensures target[10..] == old(target[10..])
  {
    forall i | 0 <= i < 10 { target[i] := source[i]; }
  }

  method Product(output: array<limb>, in2: array<limb>, input: array<limb>)
    requires 19 <= output.Length && 10 <= in2.Length && 10 <= input.Length
    requires output != in2 && output != input
    requires Size(in2) < 0x800_0000 && Size(input) < 0x800_0000
    modifies output
    ensures Value19(output[..19]) == Value10(in2[..10]) * Value10(input[..10])
    ensures Bounded(output[..19], 14 * 0x40_0000_0000_0000)
  {
    hide MaxAbs, Value19, Value10, ProductLimb;
    SizeBound(in2, 0x800_0000);
    SizeBound(input, 0x800_0000);
    var a, b := in2[..10], input[..10];
    ghost var p := Products(a, b);
    ProductsBound(a, b);
    ProductsValue(a, b);
    assert forall k :: 0 <= k < 19 ==> p[k] == ProductLimb(a, b, k);
    forall k | 0 <= k < 19 { output[k] := ProductLimb(a, b, k); }
    assert output[..19] == p && in2[..10] == a && input[..10] == b;
  }

  method SquareInner(output: array<limb>, input: array<limb>)
    requires 19 <= output.Length && 10 <= input.Length && output != input && Size(input) < 0x800_0000
    modifies output
    ensures Value19(output[..19]) == Value10(input[..10]) * Value10(input[..10])
    ensures Bounded(output[..19], 14 * 0x40_0000_0000_0000)
  {
    hide MaxAbs, Value19, Value10, Squares;
    SizeBound(input, 0x800_0000);
    var a := input[..10];
    SquaresAreProducts(a);
    ProductsBound(a, a);
    ProductsValue(a, a);
    var p := Squares(a);
    forall k | 0 <= k < 19 { output[k] := p[k]; }
    assert output[..19] == p && input[..10] == a;
  }

  // t after limbs n to 8 have received nineteen times the limb ten places up.
  ghost function Folded(t: seq<int>, n: nat): (s: seq<int>)
    requires |t| == 19
    ensures |s| == 19
  {
    seq(19, j requires 0 <= j < 19 => if n <= j < 9 then t[j] + 19 * t[j + 10] else t[j])
  }

  // Adds nineteen times limb i + 10 to limb i, as three shifted additions.
  method AddNineteenTimes(output: array<limb>, i: nat, ghost t: seq<int>)
    requires i < 9 && 19 <= output.Length && |t| == 19 && output[..19] == Folded(t, i + 1)
    requires Bounded(t, 14 * 0x40_0000_0000_0000)
    modifies output
    ensures output[..19] == Folded(t, i)
  {
    ghost var s := output[..19];
    assert output[i] == s[i] == t[i] && output[i + 10] == s[i + 10] == t[i + 10];
    var sixteenfold: limb := output[i + 10] * 16;
    output[i] := output[i] + sixteenfold;
    var twofold: limb := output[i + 10] * 2;
    output[i] := output[i] + twofold;
    output[i] := output[i] + output[i + 10];
    assert output[..19] == s[i := t[i] + 19 * t[i + 10]];
  }

  lemma SplitValue(t: seq<int>, high: seq<int>)
    requires |t| == 19 && |high| == 10 && high[9] == 0
    requires forall i :: 0 <= i < 9 ==> high[i] == t[i + 10]
    ensures Value19(t) == Value10(t[..10]) + (P + 19) * Value10(high)
  {
  }

  // Folding the limbs of weight 2^255 and above back, nineteen times each.
  lemma FoldedValue(t: seq<int>, r: seq<int>)
    requires |t| == 19 && |r| == 10 && r[9] == t[9]
    requires forall i :: 0 <= i < 9 ==> r[i] == t[i] + 19 * t[i + 10]
    ensures Residue(Value10(r)) == Residue(Value19(t))
  {
    var low, high := t[..10], t[10..] + [0];
    hide Value19;
    SplitValue(t, high);
    assert forall i :: 0 <= i < 10 ==> r[i] == low[i] + 19 * high[i];
    AddedMultiple(r, low, high);
    hide Value10;
    Shifted(Value19(t), Value10(r), Value10(high));
  }

  lemma AddedMultiple(r: seq<int>, low: seq<int>, high: seq<int>)
    requires |r| == |low| == |high| == 10
    requires forall i :: 0 <= i < 10 ==> r[i] == low[i] + 19 * high[i]
    ensures Value10(r) == Value10(low) + 19 * Value10(high)
  {
  }

  lemma FoldedResidue(t: seq<int>)
    requires |t| == 19 && Bounded(t, 14 * 0x40_0000_0000_0000)
    ensures Folded(t, 9) == t
    ensures Residue(Value10(Folded(t, 0)[..10])) == Residue(Value19(t))
    ensures Bounded(Folded(t, 0)[..10], 280 * 0x40_0000_0000_0000)
  {
    hide Value10, Value19, Residue;
    FoldedValue(t, Folded(t, 0)[..10]);
  }

  method ReduceDegree(output: array<limb>)
    requires 19 <= output.Length && Bounded(output[..19], 14 * 0x40_0000_0000_0000)
    modifies output
    ensures Element(output) == Residue(Value19(old(output[..19])))
    ensures Size(output) < 280 * 0x40_0000_0000_0000
  {
    hide MaxAbs, Folded, Value10, Value19, Residue, Bounded;
    ghost var t := output[..19];
    FoldedResidue(t);
    AddNineteenTimes(output, 8, t);
    AddNineteenTimes(output, 7, t);
    AddNineteenTimes(output, 6, t);
    AddNineteenTimes(output, 5, t);
    AddNineteenTimes(output, 4, t);
    AddNineteenTimes(output, 3, t);
    AddNineteenTimes(output, 2, t);
    AddNineteenTimes(output, 1, t);
    AddNineteenTimes(output, 0, t);
    assert output[..10] == output[..19][..10];
    SizeBound(output, 280 * 0x40_0000_0000_0000);
  }

  // The number of values a limb of this index holds when reduced.
  function Radix(i: int): int { if i % 2 == 0 then 0x400_0000 else 0x200_0000 }

  lemma CarryValue26(s: seq<int>, i: nat, q: int)
    requires |s| == 11 && i < 10 && i % 2 == 0
    ensures Value11(s[i := s[i] - q * 0x400_0000][i + 1 := s[i + 1] + q]) == Value11(s)
  {
  }

  lemma CarryValue25(s: seq<int>, i: nat, q: int)
    requires |s| == 11 && i < 10 && i % 2 == 1
    ensures Value11(s[i := s[i] - q * 0x200_0000][i + 1 := s[i + 1] + q]) == Value11(s)
  {
  }

  // q is v divided by m, rounded towards zero.
  ghost predicate Truncated(q: int, v: int, m: int) {
    if 0 <= v then 0 <= q * m <= v else v <= q * m <= 0
  }

  // Moves the part of limb i beyond its width into the next limb.
  method CarryFrom(output: array<limb>, i: nat)
    requires i < 10 && 11 <= output.Length
    requires -281 * 0x40_0000_0000_0000 < output[i] < 281 * 0x40_0000_0000_0000
    requires -280 * 0x40_0000_0000_0000 < output[i + 1] < 280 * 0x40_0000_0000_0000
    modifies output
    ensures Value11(output[..11]) == Value11(old(output[..11]))
    ensures -Radix(i) < output[i] < Radix(i)
    ensures Truncated((output[i + 1] as int) - old(output[i + 1]), old(output[i]), Radix(i))
    ensures forall k :: 0 <= k < output.Length && k != i && k != i + 1 ==> output[k] == old(output[k])
  {
    hide Value11;
    ghost var s := output[..11];
    var over: limb := if i % 2 == 0 then DivBy26(output[i]) else DivBy25(output[i]);
    var shifted: limb := if i % 2 == 0 then over * 0x400_0000 else over * 0x200_0000;
    output[i] := output[i] - shifted;
    output[i + 1] := output[i + 1] + over;
    if i % 2 == 0 { CarryValue26(s, i, over); } else { CarryValue25(s, i, over); }
    assert output[..11] == s[i := s[i] - over * Radix(i)][i + 1 := s[i + 1] + over];
  }

  lemma WrappedValue(s: seq<int>, r: seq<int>)
    requires |s| == |r| == 11 && r[10] == 0 && r[0] == s[0] + 19 * s[10]
    requires forall k :: 0 < k < 10 ==> r[k] == s[k]
    ensures Residue(Value11(s)) == Residue(Value11(r)) == Residue(Value10(r[..10]))
  {
    Shifted(Value11(s), Value11(r), s[10]);
  }

  // Limbs within their widths, but for a last carry into limb 1.
  ghost predicate Reduced(s: seq<int>) {
    && |s| == 10
    && (forall k :: 0 <= k < 10 && k != 1 ==> -Radix(k) < s[k] < Radix(k))
    && -0x201_0000 < s[1] < 0x201_0000
  }

  // Adds nineteen times the limb of weight 2^255 to limb 0, and carries once more from there.
  method WrapTop(output: array<limb>)
    requires 11 <= output.Length && -281 * 0x2000_0000 < output[10] < 281 * 0x2000_0000
    requires forall k :: 0 <= k < 10 ==> -Radix(k) < output[k] < Radix(k)
    modifies output
    ensures Element(output) == Residue(Value11(old(output[..11])))
    ensures Reduced(output[..10])
  {
    hide Value10, Value11, Residue;
    ghost var s := output[..11];
    var sixteenfold: limb := output[10] * 16;
    output[0] := output[0] + sixteenfold;
    var twofold: limb := output[10] * 2;
    output[0] := output[0] + twofold;
    output[0] := output[0] + output[10];
    output[10] := 0;
    WrappedValue(s, output[..11]);
    CarryFrom(output, 0);
    ZeroTop(output[..11]);
    assert output[..11][..10] == output[..10];
  }

  method ReduceCoefficients(output: array<limb>)
    requires 11 <= output.Length && Size(output) < 280 * 0x40_0000_0000_0000
    modifies output
    ensures Element(output) == old(Element(output))
    ensures Size(output) < 0x400_0000
    ensures Reduced(output[..10])
  {
    hide MaxAbs, Value10, Value11, Residue;
    SizeBound(output, 280 * 0x40_0000_0000_0000);
    ghost var t := output[..10];
    assert forall k :: 0 <= k < 10 ==> t[k] == output[k];
    output[10] := 0;
    ghost var v := Value11(output[..11]);
    assert v == Value10(t) by { ZeroTop(output[..11]); assert output[..11][..10] == t; }
    var i := 0;
    while i < 10
      invariant 0 <= i <= 10 && i % 2 == 0
      invariant Value11(output[..11]) == v
      invariant forall k :: 0 <= k < i ==> -Radix(k) < output[k] < Radix(k)
      invariant i < 10 ==> -281 * 0x40_0000_0000_0000 < output[i] < 281 * 0x40_0000_0000_0000
      invariant forall k :: i < k < 10 ==> -280 * 0x40_0000_0000_0000 < output[k] < 280 * 0x40_0000_0000_0000
      invariant i < 10 ==> output[10] == 0
      invariant i == 10 ==> -281 * 0x2000_0000 < output[10] < 281 * 0x2000_0000
    {
      CarryFrom(output, i);
      CarryFrom(output, i + 1);
      i := i + 2;
    }
    WrapTop(output);
    SizeBound(output, 0x400_0000);
  }

  lemma ZeroTop(s: seq<int>)
    requires |s| == 11 && s[10] == 0
    ensures Value11(s) == Value10(s[..10])
  {
  }

  // output := in * in2, for limbs below 2^27.
  method Multiply(output: array<limb>, input: array<limb>, in2: array<limb>)
    requires 10 <= output.Length && 10 <= input.Length && 10 <= in2.Length
    requires Size(input) < 0x800_0000 && Size(in2) < 0x800_0000
    modifies output
    ensures Element(output) == Mul(old(Element(input)), old(Element(in2)))
    ensures Size(output) < 0x400_0000 && Reduced(output[..10])
  {
    hide MaxAbs, Value10, Value19, Residue, Bounded;
    var t := new limb[19];
    MultiplyLong(t, input, in2);
    Copy(output, t);
  }

  // The product in a long buffer: fproduct, freduce_degree and freduce_coefficients in turn.
  method MultiplyLong(output: array<limb>, input: array<limb>, in2: array<limb>)
    requires 19 <= output.Length && 10 <= input.Length && 10 <= in2.Length
    requires output != input && output != in2
    requires Size(input) < 0x800_0000 && Size(in2) < 0x800_0000
    modifies output
    ensures Element(output) == Mul(Element(input), Element(in2))
    ensures Size(output) < 0x400_0000 && Reduced(output[..10])
  {
    hide MaxAbs, Value10, Value19, Residue, Bounded;
    Product(output, input, in2);
    ResidueOfProduct(Value10(input[..10]), Value10(in2[..10]));
    ReduceDegree(output);
    ReduceCoefficients(output);
  }

  // output := in^2, for limbs below 2^27.
  method Square(output: array<limb>, input: array<limb>)
    requires 10 <= output.Length && 10 <= input.Length && Size(input) < 0x800_0000
    modifies output
    ensures Element(output) == Mul(old(Element(input)), old(Element(input)))
    ensures Size(output) < 0x400_0000
    ensures output[10..] == old(output[10..])
  {
    hide MaxAbs, Value10, Value19, Residue, Bounded;
    var t := new limb[19];
    SquareInner(t, input);
    ResidueOfProduct(Value10(input[..10]), Value10(input[..10]));
    ReduceDegree(t);
    ReduceCoefficients(t);
    Copy(output, t);
  }

  lemma SumValue(r: seq<int>, s: seq<int>, t: seq<int>)
    requires |r| == |s| == |t| == 10 && forall k :: 0 <= k < 10 ==> r[k] == s[k] + t[k]
    ensures Value10(r) == Value10(s) + Value10(t)
  {
  }

  lemma ScaledValue(r: seq<int>, s: seq<int>, c: int)
    requires |r| == |s| == 10 && forall k :: 0 <= k < 10 ==> r[k] == c * s[k]
    ensures Value10(r) == c * Value10(s)
  {
  }

  // output := output + in.
  method Sum(output: array<limb>, input: array<limb>)
    requires 10 <= output.Length && 10 <= input.Length
    requires Size(output) < 0x400_0000 && Size(input) < 0x400_0000
    modifies output
    ensures Element(output) == Add(old(Element(output)), old(Element(input)))
    ensures Size(output) < 0x800_0000
  {
    hide MaxAbs, Value10, Residue;
    SizeBound(output, 0x400_0000);
    SizeBound(input, 0x400_0000);
    ghost var s, u := output[..10], input[..10];
    var i := 0;
    while i < 10
      invariant 0 <= i <= 10 && i % 2 == 0
      invariant forall k :: 0 <= k < i ==> output[k] == s[k] + u[k]
      invariant forall k :: i <= k < 10 ==> output[k] == s[k] && input[k] == u[k]
    {
      output[i] := output[i] + input[i];
      output[i + 1] := output[i + 1] + input[i + 1];
      i := i + 2;
    }
    SumValue(output[..10], s, u);
    ResidueOfSum(Value10(s), Value10(u));
    SizeBound(output, 0x800_0000);
  }

  // output := in - output.
  method Difference(output: array<limb>, input: array<limb>)
    requires 10 <= output.Length && 10 <= input.Length
    requires Size(output) < 0x400_0000 && Size(input) < 0x400_0000
    modifies output
    ensures Element(output) == Sub(old(Element(input)), old(Element(output)))
    ensures Size(output) < 0x800_0000
  {
    hide MaxAbs, Value10, Residue;
    SizeBound(output, 0x400_0000);
    SizeBound(input, 0x400_0000);
    ghost var s, u := output[..10], input[..10];
    for i := 0 to 10
      invariant forall k :: 0 <= k < i ==> output[k] == u[k] - s[k]
      invariant forall k :: i <= k < 10 ==> output[k] == s[k] && input[k] == u[k]
    {
      output[i] := input[i] - output[i];
    }
    SumValue(u, output[..10], s);
    ResidueOfSum(Value10(u), Value10(s));
    SizeBound(output, 0x800_0000);
  }

  // output := in * scalar, before reduction.
  method ScalarProduct(output: array<limb>, input: array<limb>, scalar: limb)
    requires 10 <= output.Length && 10 <= input.Length
    requires forall k :: 0 <= k < 10 ==> -0x8000_0000_0000_0000 <= scalar * (input[k] as int) < 0x8000_0000_0000_0000
    modifies output
    ensures Element(output) == Mul(scalar, old(Element(input)))
    ensures forall k :: 0 <= k < 10 ==> output[k] == scalar * (old(input[k]) as int)
  {
    hide Value10, Residue;
    ghost var s := input[..10];
    for i := 0 to 10
      invariant forall k :: 0 <= k < i ==> output[k] == scalar * (s[k] as int)
      invariant forall k :: i <= k < 10 ==> input[k] == s[k]
    {
      output[i] := input[i] * scalar;
    }
    ScaledValue(output[..10], s, scalar);
    ResidueOfProduct(scalar, Value10(s));
  }
}
