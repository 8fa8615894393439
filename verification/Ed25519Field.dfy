// Field arithmetic of the Ed25519 code: fe_mul, fe_frombytes and fe_add on ten 32-bit limbs.
module Ed25519Field {
  import opened Octets
  import opened Field
  import opened Limbs
  import opened Words
  import opened FieldArithmetic
  import opened FieldBytes

  // Even limbs are at most e in magnitude and odd limbs at most o.
  ghost predicate Within(x: seq<int>, e: int, o: int) {
    forall i :: 0 <= i < |x| ==> if i % 2 == 0 then -e <= x[i] <= e else -o <= x[i] <= o
  }

  // The bounds 1.65 * 2^26 and 1.65 * 2^25, 1.1 * 2^25 and 1.1 * 2^24, 1.1 * 2^26 and 1.1 * 2^25, and
  // 1.01 * 2^25 and 1.01 * 2^24, rounded down.
  ghost predicate Factor(x: seq<int>) { |x| == 10 && Within(x, 110_729_625, 55_364_812) }
  ghost predicate Summand(x: seq<int>) { |x| == 10 && Within(x, 36_909_875, 18_454_937) }
  ghost predicate Loose(x: seq<int>) { |x| == 10 && Within(x, 73_819_750, 36_909_875) }
  ghost predicate Tight(x: seq<int>) { |x| == 10 && Within(x, 33_889_976, 16_944_988) }

  // The sum that fe_mul forms for limb k, with the multiples by 2 and 19 taken on 32 bits beforehand.
  function FeLimb(f: seq<int>, g: seq<int>, k: int): int
    requires |f| == 10 && |g| == 10 && 0 <= k < 10
  {
    if k == 0 then
      Wide(f[0], g[0]) + Wide(2 * f[1], 19 * g[9]) + Wide(f[2], 19 * g[8]) + Wide(2 * f[3], 19 * g[7]) +
      Wide(f[4], 19 * g[6]) + Wide(2 * f[5], 19 * g[5]) + Wide(f[6], 19 * g[4]) + Wide(2 * f[7], 19 * g[3]) +
      Wide(f[8], 19 * g[2]) + Wide(2 * f[9], 19 * g[1])
    else if k == 1 then
      Wide(f[0], g[1]) + Wide(f[1], g[0]) + Wide(f[2], 19 * g[9]) + Wide(f[3], 19 * g[8]) +
      Wide(f[4], 19 * g[7]) + Wide(f[5], 19 * g[6]) + Wide(f[6], 19 * g[5]) + Wide(f[7], 19 * g[4]) +
      Wide(f[8], 19 * g[3]) + Wide(f[9], 19 * g[2])
    else if k == 2 then
      Wide(f[0], g[2]) + Wide(2 * f[1], g[1]) + Wide(f[2], g[0]) + Wide(2 * f[3], 19 * g[9]) +
      Wide(f[4], 19 * g[8]) + Wide(2 * f[5], 19 * g[7]) + Wide(f[6], 19 * g[6]) + Wide(2 * f[7], 19 * g[5]) +
      Wide(f[8], 19 * g[4]) + Wide(2 * f[9], 19 * g[3])
    else if k == 3 then
      Wide(f[0], g[3]) + Wide(f[1], g[2]) + Wide(f[2], g[1]) + Wide(f[3], g[0]) + Wide(f[4], 19 * g[9]) +
      Wide(f[5], 19 * g[8]) + Wide(f[6], 19 * g[7]) + Wide(f[7], 19 * g[6]) + Wide(f[8], 19 * g[5]) +
      Wide(f[9], 19 * g[4])
    else if k == 4 then
      Wide(f[0], g[4]) + Wide(2 * f[1], g[3]) + Wide(f[2], g[2]) + Wide(2 * f[3], g[1]) + Wide(f[4], g[0]) +
      Wide(2 * f[5], 19 * g[9]) + Wide(f[6], 19 * g[8]) + Wide(2 * f[7], 19 * g[7]) + Wide(f[8], 19 * g[6]) +
      Wide(2 * f[9], 19 * g[5])
    else if k == 5 then
      Wide(f[0], g[5]) + Wide(f[1], g[4]) + Wide(f[2], g[3]) + Wide(f[3], g[2]) + Wide(f[4], g[1]) +
      Wide(f[5], g[0]) + Wide(f[6], 19 * g[9]) + Wide(f[7], 19 * g[8]) + Wide(f[8], 19 * g[7]) +
      Wide(f[9], 19 * g[6])
    else if k == 6 then
      Wide(f[0], g[6]) + Wide(2 * f[1], g[5]) + Wide(f[2], g[4]) + Wide(2 * f[3], g[3]) + Wide(f[4], g[2]) +
      Wide(2 * f[5], g[1]) + Wide(f[6], g[0]) + Wide(2 * f[7], 19 * g[9]) + Wide(f[8], 19 * g[8]) +
      Wide(2 * f[9], 19 * g[7])
    else if k == 7 then
      Wide(f[0], g[7]) + Wide(f[1], g[6]) + Wide(f[2], g[5]) + Wide(f[3], g[4]) + Wide(f[4], g[3]) +
      Wide(f[5], g[2]) + Wide(f[6], g[1]) + Wide(f[7], g[0]) + Wide(f[8], 19 * g[9]) + Wide(f[9], 19 * g[8])
    else if k == 8 then
      Wide(f[0], g[8]) + Wide(2 * f[1], g[7]) + Wide(f[2], g[6]) + Wide(2 * f[3], g[5]) + Wide(f[4], g[4]) +
      Wide(2 * f[5], g[3]) + Wide(f[6], g[2]) + Wide(2 * f[7], g[1]) + Wide(f[8], g[0]) +
      Wide(2 * f[9], 19 * g[9])
    else
      Wide(f[0], g[9]) + Wide(f[1], g[8]) + Wide(f[2], g[7]) + Wide(f[3], g[6]) + Wide(f[4], g[5]) +
      Wide(f[5], g[4]) + Wide(f[6], g[3]) + Wide(f[7], g[2]) + Wide(f[8], g[1]) + Wide(f[9], g[0])
  }

  lemma WideScaled(x: int, y: int)
    requires -110_729_625 <= x <= 110_729_625 && -110_729_625 <= y <= 110_729_625
    ensures Wide(2 * x, y) == 2 * Wide(x, y)
    ensures Wide(x, 19 * y) == 19 * Wide(x, y)
    ensures Wide(2 * x, 19 * y) == 38 * Wide(x, y)
  {
  }

  // fe_mul's sums are those of the schoolbook product, with the upper limbs already folded in.
  lemma FeLimbFolds(f: seq<int>, g: seq<int>, k: int)
    requires Factor(f) && Factor(g) && 0 <= k < 10
    ensures FeLimb(f, g, k) ==
            if k < 9 then ProductLimb(f, g, k) + 19 * ProductLimb(f, g, k + 10) else ProductLimb(f, g, k)
  {
    forall i, j | 0 <= i < 10 && 0 <= j < 10
      ensures Wide(2 * f[i], g[j]) == 2 * Wide(f[i], g[j])
      ensures Wide(f[i], 19 * g[j]) == 19 * Wide(f[i], g[j])
      ensures Wide(2 * f[i], 19 * g[j]) == 38 * Wide(f[i], g[j])
    {
      WideScaled(f[i], g[j]);
    }
    hide Wide;
  }

  // The multiple of 2^26 or 2^25 nearest to v.
  function Rounded26(v: limb): (c: int)
    requires v + 0x200_0000 < 0x8000_0000_0000_0000
    ensures -0x200_0000 <= v - c * 0x400_0000 < 0x200_0000
  {
    (v + 0x200_0000) / 0x400_0000
  }

  function Rounded25(v: limb): (c: int)
    requires v + 0x100_0000 < 0x8000_0000_0000_0000
    ensures -0x100_0000 <= v - c * 0x200_0000 < 0x100_0000
  {
    (v + 0x100_0000) / 0x200_0000
  }

  // The ranges of the sums before the carries: 1.4 * 2^60 and 1.7 * 2^59.
  ghost predicate Uncarried(x: seq<int>) {
    |x| == 10 && Within(x, 1_614_090_106_449_585_766, 979_983_278_915_819_929)
  }

  // The ranges after the first six carries: limbs 3 and 7 have grown to 1.71 * 2^59, limbs 8 and 9 are
  // untouched and the others are within their width.
  ghost predicate HalfCarried(x: seq<int>) {
    && |x| == 10
    && -0x200_0000 <= x[0] <= 0x200_0000 && -0x100_0000 <= x[1] <= 0x100_0000 && -0x200_0000 <= x[2] <= 0x200_0000
    && -0x200_0000 <= x[4] <= 0x200_0000 && -0x100_0000 <= x[5] <= 0x100_0000 && -0x200_0000 <= x[6] <= 0x200_0000
    && -985_747_886_438_854_164 <= x[3] <= 985_747_886_438_854_164
    && -985_747_886_438_854_164 <= x[7] <= 985_747_886_438_854_164
    && -1_614_090_106_449_585_766 <= x[8] <= 1_614_090_106_449_585_766
    && -979_983_278_915_819_929 <= x[9] <= 979_983_278_915_819_929
  }

  lemma FirstCarriesValue(h: seq<int>, c0: int, c4: int, c1: int, c5: int, c2: int, c6: int)
    requires |h| == 10
    ensures Value10(h) == Value10([
      h[0] - 0x400_0000 * c0, h[1] + c0 - 0x200_0000 * c1, h[2] + c1 - 0x400_0000 * c2, h[3] + c2,
      h[4] - 0x400_0000 * c4, h[5] + c4 - 0x200_0000 * c5, h[6] + c5 - 0x400_0000 * c6, h[7] + c6, h[8],
      h[9]])
  {
  }

  method FirstCarries(h: seq<int>) returns (r: seq<int>)
    requires Uncarried(h)
    ensures HalfCarried(r) && Value10(r) == Value10(h)
  {
    hide Value10, Rounded26, Rounded25;
    var h0: limb, h1: limb, h2: limb, h3: limb, h4: limb := h[0], h[1], h[2], h[3], h[4];
    var h5: limb, h6: limb, h7: limb, h8: limb, h9: limb := h[5], h[6], h[7], h[8], h[9];
    var c0: limb := Rounded26(h0);
    h1, h0 := h1 + c0, h0 - c0 * 0x400_0000;
    var c4: limb := Rounded26(h4);
    h5, h4 := h5 + c4, h4 - c4 * 0x400_0000;
    var c1: limb := Rounded25(h1);
    h2, h1 := h2 + c1, h1 - c1 * 0x200_0000;
    var c5: limb := Rounded25(h5);
    h6, h5 := h6 + c5, h5 - c5 * 0x200_0000;
    var c2: limb := Rounded26(h2);
    h3, h2 := h3 + c2, h2 - c2 * 0x400_0000;
    var c6: limb := Rounded26(h6);
    h7, h6 := h7 + c6, h6 - c6 * 0x400_0000;
    r := [h0, h1, h2, h3, h4, h5, h6, h7, h8, h9];
    FirstCarriesValue(h, c0, c4, c1, c5, c2, c6);
  }

  // The ranges after ten carries: limb 9 has grown to 1.71 * 2^59 and limb 5 to 1.01 * 2^24, and the others
  // are within their width.
  ghost predicate NearlyCarried(x: seq<int>) {
    && |x| == 10
    && -0x200_0000 <= x[0] <= 0x200_0000 && -0x100_0000 <= x[1] <= 0x100_0000 && -0x200_0000 <= x[2] <= 0x200_0000
    && -0x100_0000 <= x[3] <= 0x100_0000 && -0x200_0000 <= x[4] <= 0x200_0000 && -16_944_988 <= x[5] <= 16_944_988
    && -0x200_0000 <= x[6] <= 0x200_0000 && -0x100_0000 <= x[7] <= 0x100_0000 && -0x200_0000 <= x[8] <= 0x200_0000
    && -985_747_886_438_854_164 <= x[9] <= 985_747_886_438_854_164
  }

  lemma MiddleCarriesValue(h: seq<int>, c3: int, c7: int, c4: int, c8: int)
    requires |h| == 10
    ensures Value10(h) == Value10([
      h[0], h[1], h[2], h[3] - 0x200_0000 * c3, h[4] + c3 - 0x400_0000 * c4, h[5] + c4, h[6],
      h[7] - 0x200_0000 * c7, h[8] + c7 - 0x400_0000 * c8, h[9] + c8])
  {
  }

  method MiddleCarries(h: seq<int>) returns (r: seq<int>)
    requires HalfCarried(h)
    ensures NearlyCarried(r) && Value10(r) == Value10(h)
  {
    hide Value10, Rounded26, Rounded25;
    var h0: limb, h1: limb, h2: limb, h3: limb, h4: limb := h[0], h[1], h[2], h[3], h[4];
    var h5: limb, h6: limb, h7: limb, h8: limb, h9: limb := h[5], h[6], h[7], h[8], h[9];
    var c3: limb := Rounded25(h3);
    h4, h3 := h4 + c3, h3 - c3 * 0x200_0000;
    var c7: limb := Rounded25(h7);
    h8, h7 := h8 + c7, h7 - c7 * 0x200_0000;
    var c4: limb := Rounded26(h4);
    h5, h4 := h5 + c4, h4 - c4 * 0x400_0000;
    var c8: limb := Rounded26(h8);
    h9, h8 := h9 + c8, h8 - c8 * 0x400_0000;
    r := [h0, h1, h2, h3, h4, h5, h6, h7, h8, h9];
    MiddleCarriesValue(h, c3, c7, c4, c8);
  }

  lemma LastCarriesValue(h: seq<int>, c9: int, c0: int)
    requires |h| == 10
    ensures Value10(h) == c9 * P + Value10([
      h[0] + 19 * c9 - 0x400_0000 * c0, h[1] + c0, h[2], h[3], h[4], h[5], h[6], h[7], h[8],
      h[9] - 0x200_0000 * c9])
  {
  }

  method LastCarries(h: seq<int>) returns (r: seq<int>)
    requires NearlyCarried(h)
    ensures Tight(r) && Residue(Value10(r)) == Residue(Value10(h))
  {
    hide Value10, Rounded26, Rounded25;
    var h0: limb, h1: limb, h2: limb, h3: limb, h4: limb := h[0], h[1], h[2], h[3], h[4];
    var h5: limb, h6: limb, h7: limb, h8: limb, h9: limb := h[5], h[6], h[7], h[8], h[9];
    var c9: limb := Rounded25(h9);
    h0, h9 := h0 + c9 * 19, h9 - c9 * 0x200_0000;
    var c0: limb := Rounded26(h0);
    h1, h0 := h1 + c0, h0 - c0 * 0x400_0000;
    r := [h0, h1, h2, h3, h4, h5, h6, h7, h8, h9];
    LastCarriesValue(h, c9, c0);
    Shifted(Value10(h), Value10(r), c9);
  }

  lemma NotNegative(x: int, y: int)
    requires 0 <= x && 0 <= y
    ensures 0 <= x * y
  {
  }

  lemma WideWithin(x: int, y: int, a: int, b: int)
    requires -a <= x <= a && -b <= y <= b && a <= 0x7fff_ffff && b <= 0x7fff_ffff
    ensures -(a * b) <= Wide(x, y) <= a * b
  {
    NotNegative(a - x, b + y);
    NotNegative(a + x, b - y);
    NotNegative(a - x, b - y);
    NotNegative(a + x, b + y);
  }

  // The magnitude of the product of limbs i and j.
  lemma LimbProductBound(f: seq<int>, g: seq<int>, i: int, j: int)
    requires Factor(f) && Factor(g) && 0 <= i < 10 && 0 <= j < 10
    ensures var a := if i % 2 == 0 then 110_729_625 else 55_364_812;
            var b := if j % 2 == 0 then 110_729_625 else 55_364_812;
            -(a * b) <= Wide(f[i], g[j]) <= a * b
  {
    WideWithin(f[i], g[j], if i % 2 == 0 then 110_729_625 else 55_364_812,
               if j % 2 == 0 then 110_729_625 else 55_364_812);
  }

  lemma FeLimbBound(f: seq<int>, g: seq<int>, k: int)
    requires Factor(f) && Factor(g) && 0 <= k < 10
    ensures var m := if k % 2 == 0 then 1_614_090_106_449_585_766 else 979_983_278_915_819_929;
            -m <= FeLimb(f, g, k) <= m
  {
    FeLimbFolds(f, g, k);
    forall i, j | 0 <= i < 10 && 0 <= j < 10
      ensures var a := if i % 2 == 0 then 110_729_625 else 55_364_812;
              var b := if j % 2 == 0 then 110_729_625 else 55_364_812;
              -(a * b) <= Wide(f[i], g[j]) <= a * b
    {
      LimbProductBound(f, g, i, j);
    }
    hide Wide, FeLimb;
  }

  // The sums of fe_mul stand for the product.
  lemma FeLimbsValue(f: seq<int>, g: seq<int>, h: seq<int>)
    requires Factor(f) && Factor(g) && |h| == 10 && forall k :: 0 <= k < 10 ==> h[k] == FeLimb(f, g, k)
    ensures Uncarried(h)
    ensures Residue(Value10(h)) == Mul(Residue(Value10(f)), Residue(Value10(g)))
  {
    hide Value10, Value19, FeLimb, ProductLimb;
    forall k | 0 <= k < 10
      ensures FeLimb(f, g, k) ==
              if k < 9 then ProductLimb(f, g, k) + 19 * ProductLimb(f, g, k + 10) else ProductLimb(f, g, k)
    {
      FeLimbFolds(f, g, k);
    }
    forall k | 0 <= k < 10
      ensures var m := if k % 2 == 0 then 1_614_090_106_449_585_766 else 979_983_278_915_819_929; -m <= h[k] <= m
    {
      FeLimbBound(f, g, k);
    }
    var p := Products(f, g);
    FeLimbFolds(f, g, 9);
    assert p[9] == ProductLimb(f, g, 9);
    forall i | 0 <= i < 9 ensures h[i] == p[i] + 19 * p[i + 10] { assert p[i + 10] == ProductLimb(f, g, i + 10); }
    FoldedValue(p, h);
    ProductsValue(f, g);
    ResidueOfProduct(Value10(f), Value10(g));
  }

  // h := f * g; h may be one of f and g.
  method FeMul(h: array<s32>, f: array<s32>, g: array<s32>)
    requires h.Length == f.Length == g.Length == 10 && Factor(f[..]) && Factor(g[..])
    modifies h
    ensures Tight(h[..])
    ensures Residue(Value10(h[..])) == Mul(Residue(Value10(old(f[..]))), Residue(Value10(old(g[..]))))
  {
    hide Value10, FeLimb;
    var a, b := f[..], g[..];
    var t := seq(10, k requires 0 <= k < 10 => FeLimb(a, b, k));
    FeLimbsValue(a, b, t);
    t := FirstCarries(t);
    t := MiddleCarries(t);
    t := LastCarries(t);
    forall k | 0 <= k < 10 { h[k] := t[k]; }
    assert h[..] == t;
  }

  // h := f + g; h may be one of f and g.
  method FeAdd(h: array<s32>, f: array<s32>, g: array<s32>)
    requires h.Length == f.Length == g.Length == 10 && Summand(f[..]) && Summand(g[..])
    modifies h
    ensures Loose(h[..])
    ensures Residue(Value10(h[..])) == Add(Residue(Value10(old(f[..]))), Residue(Value10(old(g[..]))))
  {
    hide Value10;
    var a, b := f[..], g[..];
    forall k | 0 <= k < 10 { h[k] := a[k] + b[k]; }
    assert forall k :: 0 <= k < 10 ==> h[..][k] == a[k] + b[k];
    SumValue(h[..], a, b);
    ResidueOfSum(Value10(a), Value10(b));
  }

  function Load3(b: seq<byte>, start: nat): (w: int)
    requires start + 3 <= |b|
    ensures 0 <= w < 0x100_0000
  {
    var b0: int, b1: int, b2: int := b[start], b[start + 1], b[start + 2];
    b0 + 0x100 * b1 + 0x1_0000 * b2
  }

  // The limbs of fe_frombytes before the carries.
  function Loaded(b: seq<byte>): (h: seq<int>)
    requires |b| == 32
    ensures |h| == 10
  {
    [Load(b, 0), Load3(b, 4) * 64, Load3(b, 7) * 32, Load3(b, 10) * 8, Load3(b, 13) * 4,
     Load(b, 16), Load3(b, 20) * 128, Load3(b, 23) * 32, Load3(b, 26) * 16, Load3(b, 29) % 0x80_0000 * 4]
  }

  lemma ThreeBytes(b: seq<byte>, k: nat)
    requires k + 3 <= |b|
    ensures LittleEndian(b[k..]) == Load3(b, k) + 0x100_0000 * LittleEndian(b[k + 3..])
  {
    var t: seq<int> := b;
    assert t[k..][1..] == t[k + 1..] && t[k + 1..][1..] == t[k + 2..] && t[k + 2..][1..] == t[k + 3..];
    assert LittleEndian(t[k..]) == t[k] + 0x100 * LittleEndian(t[k + 1..]);
    assert LittleEndian(t[k + 1..]) == t[k + 1] + 0x100 * LittleEndian(t[k + 2..]);
    assert LittleEndian(t[k + 2..]) == t[k + 2] + 0x100 * LittleEndian(t[k + 3..]);
  }

  lemma LoadedRange(b: seq<byte>)
    requires |b| == 32
    ensures 0 <= Value10(Loaded(b)) < P + 19
  {
  }

  lemma LoadedValue(b: seq<byte>)
    requires |b| == 32
    ensures LittleEndian(b) == Value10(Loaded(b)) + (P + 19) * (Load3(b, 29) / 0x80_0000)
  {
    hide LittleEndian, Load, Load3;
    LowBytes(b);
    HighBytes(b);
  }

  lemma HighBytes(b: seq<byte>)
    requires |b| == 32
    ensures LittleEndian(b[16..]) == Load(b, 16) + 0x1_0000_0000 * (Load3(b, 20) + 0x100_0000 * (Load3(b, 23) +
              0x100_0000 * (Load3(b, 26) + 0x100_0000 * Load3(b, 29))))
  {
    assert LittleEndian(b[32..]) == 0;
    hide LittleEndian, Load, Load3;
    LittleEndianSplit(b, 16);
    ThreeBytes(b, 20);
    ThreeBytes(b, 23);
    ThreeBytes(b, 26);
    ThreeBytes(b, 29);
  }

  lemma LowBytes(b: seq<byte>)
    requires |b| == 32
    ensures LittleEndian(b) == Load(b, 0) + 0x1_0000_0000 * (Load3(b, 4) + 0x100_0000 * (Load3(b, 7) +
              0x100_0000 * (Load3(b, 10) + 0x100_0000 * (Load3(b, 13) + 0x100_0000 * LittleEndian(b[16..])))))
  {
    assert b[0..] == b;
    hide LittleEndian, Load, Load3;
    LittleEndianSplit(b, 0);
    ThreeBytes(b, 4);
    ThreeBytes(b, 7);
    ThreeBytes(b, 10);
    ThreeBytes(b, 13);
  }

  lemma OddCarriesValue(h: seq<int>, c9: int, c1: int, c3: int, c5: int, c7: int)
    requires |h| == 10
    ensures Value10(h) == c9 * P + Value10([
      h[0] + 19 * c9, h[1] - 0x200_0000 * c1, h[2] + c1, h[3] - 0x200_0000 * c3, h[4] + c3,
      h[5] - 0x200_0000 * c5, h[6] + c5, h[7] - 0x200_0000 * c7, h[8] + c7, h[9] - 0x200_0000 * c9])
  {
  }

  // The carries of fe_frombytes out of the odd limbs.
  method OddCarries(h: seq<int>) returns (r: seq<int>)
    requires |h| == 10 && forall k :: 0 <= k < 10 ==> 0 <= h[k] < 0x1_0000_0000
    ensures |r| == 10 && Within(r, 0x1_0000_1000, 0x100_0000) && Residue(Value10(r)) == Residue(Value10(h))
  {
    hide Value10, Rounded26, Rounded25, Residue;
    var h0: limb, h1: limb, h2: limb, h3: limb, h4: limb := h[0], h[1], h[2], h[3], h[4];
    var h5: limb, h6: limb, h7: limb, h8: limb, h9: limb := h[5], h[6], h[7], h[8], h[9];
    var c9: limb := Rounded25(h9);
    h0, h9 := h0 + c9 * 19, h9 - c9 * 0x200_0000;
    var c1: limb := Rounded25(h1);
    h2, h1 := h2 + c1, h1 - c1 * 0x200_0000;
    var c3: limb := Rounded25(h3);
    h4, h3 := h4 + c3, h3 - c3 * 0x200_0000;
    var c5: limb := Rounded25(h5);
    h6, h5 := h6 + c5, h5 - c5 * 0x200_0000;
    var c7: limb := Rounded25(h7);
    h8, h7 := h8 + c7, h7 - c7 * 0x200_0000;
    r := [h0, h1, h2, h3, h4, h5, h6, h7, h8, h9];
    OddCarriesValue(h, c9, c1, c3, c5, c7);
    Shifted(Value10(h), Value10(r), c9);
  }

  lemma EvenCarriesValue(h: seq<int>, c0: int, c2: int, c4: int, c6: int, c8: int)
    requires |h| == 10
    ensures Value10(h) == Value10([
      h[0] - 0x400_0000 * c0, h[1] + c0, h[2] - 0x400_0000 * c2, h[3] + c2, h[4] - 0x400_0000 * c4,
      h[5] + c4, h[6] - 0x400_0000 * c6, h[7] + c6, h[8] - 0x400_0000 * c8, h[9] + c8])
  {
  }

  // The carries of fe_frombytes out of the even limbs.
  method EvenCarries(h: seq<int>) returns (r: seq<int>)
    requires |h| == 10 && Within(h, 0x1_0000_1000, 0x100_0000)
    ensures Tight(r) && Value10(r) == Value10(h)
  {
    hide Value10, Rounded26, Rounded25;
    var h0: limb, h1: limb, h2: limb, h3: limb, h4: limb := h[0], h[1], h[2], h[3], h[4];
    var h5: limb, h6: limb, h7: limb, h8: limb, h9: limb := h[5], h[6], h[7], h[8], h[9];
    var c0: limb := Rounded26(h0);
    h1, h0 := h1 + c0, h0 - c0 * 0x400_0000;
    var c2: limb := Rounded26(h2);
    h3, h2 := h3 + c2, h2 - c2 * 0x400_0000;
    var c4: limb := Rounded26(h4);
    h5, h4 := h5 + c4, h4 - c4 * 0x400_0000;
    var c6: limb := Rounded26(h6);
    h7, h6 := h7 + c6, h6 - c6 * 0x400_0000;
    var c8: limb := Rounded26(h8);
    h9, h8 := h9 + c8, h8 - c8 * 0x400_0000;
    r := [h0, h1, h2, h3, h4, h5, h6, h7, h8, h9];
    EvenCarriesValue(h, c0, c2, c4, c6, c8);
  }

  // h := the low 255 bits of s.
  method FeFromBytes(h: array<s32>, s: array<byte>)
    requires h.Length == 10 && s.Length == 32
    modifies h
    ensures Tight(h[..])
    ensures Residue(Value10(h[..])) == Residue(LittleEndian(s[..]) % (P + 19))
  {
    hide Value10, LittleEndian, Residue;
    var b := s[..];
    LoadedValue(b);
    LoadedRange(b);
    ModUnique(LittleEndian(b), Load3(b, 29) / 0x80_0000, P + 19, Value10(Loaded(b)));
    var t := OddCarries(Loaded(b));
    t := EvenCarries(t);
    forall k | 0 <= k < 10 { h[k] := t[k]; }
    assert h[..] == t && s[..] == b;
  }

  // A program over field elements: inputs, products and sums.
  datatype Program =
    | Input(bytes: seq<byte>)
    | Times(left: Program, right: Program)
    | Plus(left: Program, right: Program)
  {
    // At most one addition lies between any two multiplications: an operand of an addition is not
    // itself a sum.
    predicate OneAddition(sumAllowed: bool) {
      match this
      case Input(b) => |b| == 32
      case Times(a, b) => a.OneAddition(true) && b.OneAddition(true)
      case Plus(a, b) => sumAllowed && a.OneAddition(false) && b.OneAddition(false)
    }

    // The element the program computes in the field.
    ghost function Meaning(): int {
      match this
      case Input(b) => Residue(LittleEndian(b) % (P + 19))
      case Times(a, b) => Mul(a.Meaning(), b.Meaning())
      case Plus(a, b) => Add(a.Meaning(), b.Meaning())
    }
  }

  // Every such program runs within the ranges of its operations, and computes its meaning.
  method Run(p: Program) returns (h: array<s32>)
    requires p.OneAddition(true)
    ensures fresh(h) && h.Length == 10 && Residue(Value10(h[..])) == p.Meaning()
    ensures Factor(h[..]) && (p.OneAddition(false) ==> Tight(h[..]))
  {
    hide Value10, Residue, LittleEndian;
    h := new s32[10];
    match p {
      case Input(bytes) =>
        var s := new byte[32](i requires 0 <= i < 32 => bytes[i]);
        assert s[..] == bytes;
        FeFromBytes(h, s);
      case Times(left, right) =>
        var f := Run(left);
        var g := Run(right);
        FeMul(h, f, g);
      case Plus(left, right) =>
        var f := Run(left);
        var g := Run(right);
        FeAdd(h, f, g);
    }
  }
}
