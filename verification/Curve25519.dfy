// fmonty, swap_conditional, cmult and curve25519_donna (curve25519-donna.c) on limb arrays.
module Curve25519 {
  import opened Octets
  import opened Field
  import opened Limbs
  import opened Words
  import opened FieldArithmetic
  import opened FieldBytes
  import opened FieldInverse
  import opened FieldContract
  import opened LadderSpec
  import LadderMeaning

  // x, z := x + z, x - z.
  method SumAndDifference(x: array<limb>, z: array<limb>)
    requires 10 <= x.Length && 10 <= z.Length && x != z
    requires Size(x) < 0x400_0000 && Size(z) < 0x400_0000
    modifies x, z
    ensures Element(x) == Add(old(Element(x)), old(Element(z))) && Size(x) < 0x800_0000
    ensures Element(z) == Sub(old(Element(x)), old(Element(z))) && Size(z) < 0x800_0000
  {
    hide Value10, MaxAbs, Residue;
    var original := new limb[10];
    Copy(original, x);
    Sum(x, z);
    Difference(z, original);
  }

  // The sum and the difference of the two cross products.
  method CrossProducts(xx: array<limb>, zz: array<limb>, a: array<limb>, b: array<limb>, c: array<limb>, d: array<limb>)
    requires 19 <= xx.Length && 19 <= zz.Length && xx != zz && {xx, zz} !! {a, b, c, d}
    requires 10 <= a.Length && 10 <= b.Length && 10 <= c.Length && 10 <= d.Length
    requires Size(a) < 0x800_0000 && Size(b) < 0x800_0000 && Size(c) < 0x800_0000 && Size(d) < 0x800_0000
    modifies xx, zz
    ensures var cb, ad := Mul(Element(c), Element(b)), Mul(Element(a), Element(d));
            Element(xx) == Add(cb, ad) && Element(zz) == Sub(cb, ad)
    ensures Size(xx) < 0x800_0000 && Size(zz) < 0x800_0000
  {
    hide *;
    MultiplyLong(xx, c, b);
    MultiplyLong(zz, a, d);
    SumAndDifference(xx, zz);
  }

  // The part of fmonty that adds the two points, from the sums and differences of coordinates.
  method AddPoints(x3: array<limb>, z3: array<limb>, a: array<limb>, b: array<limb>, c: array<limb>, d: array<limb>,
                   q: array<limb>)
    requires 10 <= x3.Length && 10 <= z3.Length && x3 != z3
    requires 10 <= a.Length && 10 <= b.Length && 10 <= c.Length && 10 <= d.Length && 10 <= q.Length
    requires Size(a) < 0x800_0000 && Size(b) < 0x800_0000 && Size(c) < 0x800_0000 && Size(d) < 0x800_0000
    requires Size(q) < 0x800_0000
    modifies x3, z3
    ensures var cb, ad := Mul(old(Element(c)), old(Element(b))), Mul(old(Element(a)), old(Element(d)));
            var sum, difference := Add(cb, ad), Sub(cb, ad);
            Element(x3) == Mul(sum, sum) && Element(z3) == Mul(Mul(difference, difference), old(Element(q)))
    ensures Size(x3) < 0x400_0000 && Size(z3) < 0x400_0000
  {
    hide *;
    var xx, zz := new limb[19], new limb[19];
    CrossProducts(xx, zz, a, b, c, d);
    var xxx, zzz := new limb[19], new limb[19];
    Square(xxx, xx);
    Square(zzz, zz);
    MultiplyLong(zz, zzz, q);
    CopyElement(x3, xxx);
    CopyElement(z3, zz);
  }

  method CopyElement(target: array<limb>, source: array<limb>)
    requires 10 <= target.Length && 10 <= source.Length
    modifies target
    ensures Element(target) == old(Element(source)) && Size(target) == old(Size(source))
  {
    hide Value10, MaxAbs, Residue;
    Copy(target, source);
  }

  // The part of fmonty that doubles a point, from the sum and the difference of its coordinates.
  method DoublePoint(x2: array<limb>, z2: array<limb>, a: array<limb>, b: array<limb>)
    requires 19 <= x2.Length && 19 <= z2.Length && x2 != z2 && 10 <= a.Length && 10 <= b.Length
    requires Size(a) < 0x800_0000 && Size(b) < 0x800_0000
    modifies x2, z2
    ensures var aa, bb := Mul(old(Element(a)), old(Element(a))), Mul(old(Element(b)), old(Element(b)));
            var e := Sub(aa, bb);
            Element(x2) == Mul(aa, bb) && Element(z2) == Mul(e, Add(Mul(121665, e), aa))
    ensures Size(x2) < 0x400_0000 && Size(z2) < 0x400_0000
  {
    hide *;
    var xx, zz, zzz := new limb[19], new limb[19], new limb[19];
    Square(xx, a);
    Square(zz, b);
    MultiplyLong(x2, xx, zz);
    Difference(zz, xx);
    TimesA24(zzz, zz);
    Sum(zzz, xx);
    MultiplyLong(z2, zz, zzz);
  }

  // 121665 times an element, reduced.
  method TimesA24(zzz: array<limb>, zz: array<limb>)
    requires 11 <= zzz.Length && 10 <= zz.Length && zzz != zz && Size(zz) < 0x800_0000
    modifies zzz
    ensures Element(zzz) == Mul(121665, Element(zz)) && Size(zzz) < 0x400_0000
  {
    hide Value10, MaxAbs, Residue;
    SizeBound(zz, 0x800_0000);
    assert forall k :: 0 <= k < 10 ==> zz[..10][k] == zz[k];
    ScalarProduct(zzz, zz, 121665);
    SizeBound(zzz, 280 * 0x40_0000_0000_0000);
    ReduceCoefficients(zzz);
  }

  // One ladder step: from Q, Q' and Q - Q' to 2Q and Q + Q'.
  method Monty(x2: array<limb>, z2: array<limb>, x3: array<limb>, z3: array<limb>, x: array<limb>, z: array<limb>,
               xprime: array<limb>, zprime: array<limb>, q: array<limb>)
    requires 19 <= x2.Length && 19 <= z2.Length && 10 <= x3.Length && 10 <= z3.Length
    requires 10 <= x.Length && 10 <= z.Length && 10 <= xprime.Length && 10 <= zprime.Length && 10 <= q.Length
    requires {x2, z2, x3, z3} !! {x, z, xprime, zprime, q} && q !in {x, z, xprime, zprime}
    requires {x, z} !! {xprime, zprime} && {x2, z2} !! {x3, z3} && x2 != z2 && x3 != z3 && x != z && xprime != zprime
    requires Size(x) < 0x400_0000 && Size(z) < 0x400_0000 && Size(xprime) < 0x400_0000 && Size(zprime) < 0x400_0000
    requires Size(q) < 0x400_0000
    modifies x2, z2, x3, z3, x, z, xprime, zprime
    ensures Ladder(Element(x2), Element(z2), Element(x3), Element(z3)) ==
            Step(old(Ladder(Element(x), Element(z), Element(xprime), Element(zprime))), Element(q))
    ensures Size(x2) < 0x400_0000 && Size(z2) < 0x400_0000 && Size(x3) < 0x400_0000 && Size(z3) < 0x400_0000
  {
    hide *;
    ghost var s := Ladder(Element(x), Element(z), Element(xprime), Element(zprime));
    StepReordered(s, Element(q));
    SumAndDifference(x, z);
    SumAndDifference(xprime, zprime);
    AddPoints(x3, z3, x, z, xprime, zprime, q);
    DoublePoint(x2, z2, x, z);
  }

  lemma MaskedSwap(x: s32, y: s32, swap: s32)
    requires swap == 0 || swap == -1
    ensures var t := Combine(AND, swap, Combine(XOR, x, y));
            && Combine(XOR, x, t) == (if swap == 0 then x else y)
            && Combine(XOR, y, t) == (if swap == 0 then y else x)
  {
    Exp2Values();
    AndMaskWord(Combine(XOR, x, y));
    hide Bitwise, Exp2;
    XorZero(x, 31);
    XorZero(y, 31);
    XorTwice(x, y, 31);
  }

  // Exchanges the first ten limbs when iswap is one, by masks instead of a branch.
  method SwapConditional(a: array<limb>, b: array<limb>, iswap: limb)
    requires 10 <= a.Length && 10 <= b.Length && a != b && (iswap == 0 || iswap == 1)
    requires Size(a) < 0x8000_0000 && Size(b) < 0x8000_0000
    modifies a, b
    ensures Element(a) == old(if iswap == 1 then Element(b) else Element(a))
    ensures Element(b) == old(if iswap == 1 then Element(a) else Element(b))
    ensures Size(a) == old(if iswap == 1 then Size(b) else Size(a))
    ensures Size(b) == old(if iswap == 1 then Size(a) else Size(b))
  {
    hide Value10, MaxAbs, Residue, Combine, S32;
    SizeBound(a, 0x8000_0000);
    SizeBound(b, 0x8000_0000);
    ghost var p, q := a[..10], b[..10];
    assert forall k :: 0 <= k < 10 ==> a[k] == p[k] && b[k] == q[k];
    var swap: s32 := S32(-iswap);
    for i := 0 to 10
      invariant forall k :: 0 <= k < i ==> a[k] == if iswap == 1 then q[k] else p[k]
      invariant forall k :: 0 <= k < i ==> b[k] == if iswap == 1 then p[k] else q[k]
      invariant forall k :: i <= k < 10 ==> a[k] == p[k] && b[k] == q[k]
    {
      MaskedSwap(S32(a[i]), S32(b[i]), swap);
      var x := Combine(AND, swap, Combine(XOR, S32(a[i]), S32(b[i])));
      a[i] := Combine(XOR, S32(a[i]), x);
      b[i] := Combine(XOR, S32(b[i]), x);
    }
    assert a[..10] == if iswap == 1 then q else p;
    assert b[..10] == if iswap == 1 then p else q;
  }

  // Bit r of byte i is bit 8 i + r of the number.
  lemma {:induction false} BitOfLittleEndian(n: seq<int>, i: nat, r: nat)
    requires i < |n| && r < 8 && forall k :: 0 <= k < |n| ==> 0 <= n[k] < 0x100
    ensures Bit(LittleEndian(n), 8 * i + r) == Bit(n[i], r)
  {
    var v, rest := LittleEndian(n), LittleEndian(n[1..]);
    assert v == n[0] + rest * 0x100;
    if i == 0 {
      BitOfJoined(n[0], rest, r);
    } else {
      BitOfLittleEndian(n[1..], i - 1, r);
      hide LittleEndian, Bit;
      BitOfJoined(n[0], rest, 8 * (i - 1) + r);
    }
  }

  lemma BitOfJoined(low: byte, high: int, k: nat)
    ensures k < 8 ==> Bit(low + high * 0x100, k) == Bit(low, k)
    ensures Bit(low + high * 0x100, 8 + k) == Bit(high, k)
  {
    hide Bit, Exp2;
    Exp2Values();
    DivAdd(low, high, 0x100);
    if k < 8 { BitOfWrapped(low, high, 8, k); }
    BitOfDivided(low + high * 0x100, 8, k);
  }

  lemma TopOfByte(y: byte)
    ensures Bit(y, 7) <==> y / 0x80 == 1
  {
  }

  // A byte b that has been shifted up j times.
  ghost function ShiftedByte(b: byte, j: nat): byte { (b as int) * Exp2(j) % 0x100 }

  lemma ShiftAgain(b: byte, j: nat)
    ensures ShiftedByte(b, 0) == b
    ensures (ShiftedByte(b, j) as int) * 2 % 0x100 == ShiftedByte(b, j + 1)
  {
    var w := (b as int) * Exp2(j);
    assert (b as int) * Exp2(j + 1) == 2 * w;
    DivAdd(2 * (w % 0x100), 2 * (w / 0x100), 0x100);
  }

  lemma TopBit(b: byte, j: nat)
    requires j < 8
    ensures Bit(b, 7 - j) <==> ShiftedByte(b, j) / 0x80 == 1
  {
    var w := (b as int) * Exp2(j);
    assert Exp2(8) == 0x100 by { Exp2Values(); }
    assert w == ShiftedByte(b, j) + w / 0x100 * 0x100;
    hide Bit, Exp2, ShiftedByte;
    BitOfShift(b, j, 7);
    BitOfWrapped(ShiftedByte(b, j), w / 0x100, 8, 7);
    TopOfByte(ShiftedByte(b, j));
  }

  // A buffer of nineteen limbs that holds a constant.
  method Constant(c: limb) returns (r: array<limb>)
    requires c == 0 || c == 1
    ensures fresh(r) && r.Length == 19 && Element(r) == c && Size(r) < 0x400_0000
  {
    r := new limb[19](i => if i == 0 then c else 0);
    hide MaxAbs;
    SizeBound(r, 0x400_0000);
    assert Value10(r[..10]) == c;
    ResidueOfSmall(c);
  }

  // The eight buffers of cmult, by the pointers to them: the current points, and the next ones.
  datatype Buffers = Buffers(
    nqx: array<limb>, nqz: array<limb>, nqpqx: array<limb>, nqpqz: array<limb>,
    nqx2: array<limb>, nqz2: array<limb>, nqpqx2: array<limb>, nqpqz2: array<limb>)
  {
    ghost function All(): set<array<limb>> { {nqx, nqz, nqpqx, nqpqz, nqx2, nqz2, nqpqx2, nqpqz2} }

    // No two of the buffers are one.
    ghost predicate Separate() {
      && nqx.Length == nqz.Length == nqpqx.Length == nqpqz.Length == 19
      && nqx2.Length == nqz2.Length == nqpqx2.Length == nqpqz2.Length == 19
      && nqx != nqz && nqpqx != nqpqz && {nqx, nqz} !! {nqpqx, nqpqz}
      && nqx2 != nqz2 && nqpqx2 != nqpqz2 && {nqx2, nqz2} !! {nqpqx2, nqpqz2}
      && {nqx, nqz, nqpqx, nqpqz} !! {nqx2, nqz2, nqpqx2, nqpqz2}
    }

    // The ladder state, and the largest magnitude of a limb in it.
    ghost function State(): Ladder
      requires Separate()
      reads All()
    {
      Ladder(Element(nqx), Element(nqz), Element(nqpqx), Element(nqpqz))
    }

    ghost function LimbSize(): nat
      requires Separate()
      reads All()
    {
      Max(Max(Size(nqx), Size(nqz)), Max(Size(nqpqx), Size(nqpqz)))
    }

    // The pointers exchanged, so that the next points become the current ones.
    function Flip(): Buffers { Buffers(nqx2, nqz2, nqpqx2, nqpqz2, nqx, nqz, nqpqx, nqpqz) }
  }

  ghost function Max(x: nat, y: nat): nat { if x < y then y else x }

  // One round of cmult: exchange, step, exchange back.
  method Round(m: Buffers, q: array<limb>, bit: limb)
    requires m.Separate() && q !in m.All() && 10 <= q.Length && (bit == 0 || bit == 1)
    requires m.LimbSize() < 0x400_0000 && Size(q) < 0x400_0000
    modifies m.All()
    ensures m.Flip().State() == SwappedStep(old(m.State()), Element(q), bit == 1)
    ensures m.Flip().LimbSize() < 0x400_0000
  {
    hide Element, Size, Step;
    SwapConditional(m.nqx, m.nqpqx, bit);
    SwapConditional(m.nqz, m.nqpqz, bit);
    Monty(m.nqx2, m.nqz2, m.nqpqx2, m.nqpqz2, m.nqx, m.nqz, m.nqpqx, m.nqpqz, q);
    SwapConditional(m.nqx2, m.nqpqx2, bit);
    SwapConditional(m.nqz2, m.nqpqz2, bit);
  }

  lemma NextRung(k: int, u: int, n: nat)
    requires n < 256
    ensures Rung(k, u, n + 1) == SwappedStep(Rung(k, u, n), u, Bit(k, 255 - n))
  {
  }

  // The next bit of the scalar is the top bit of the byte that is being shifted out.
  lemma NextBit(n: seq<byte>, i: nat, j: nat, b: byte)
    requires |n| == 32 && i < 32 && j < 8 && b == ShiftedByte(n[31 - i], j)
    ensures Bit(LittleEndian(n), 255 - (8 * i + j)) <==> b / 0x80 == 1
  {
    hide Bit, LittleEndian, ShiftedByte;
    TopBit(n[31 - i], j);
    BitOfLittleEndian(n, 31 - i, 7 - j);
    assert 8 * (31 - i) + (7 - j) == 255 - (8 * i + j);
  }

  // The eight rounds for byte 31 - i of the scalar.
  method ByteRounds(start: Buffers, q: array<limb>, n: array<byte>, i: nat, ghost u: int) returns (m: Buffers)
    requires start.Separate() && q !in start.All() && 10 <= q.Length && n.Length == 32 && i < 32
    requires Element(q) == u && Size(q) < 0x400_0000
    requires start.State() == Rung(LittleEndian(n[..]), u, 8 * i) && start.LimbSize() < 0x400_0000
    modifies start.All()
    ensures m.Separate() && m.All() == start.All()
    ensures m.State() == Rung(LittleEndian(n[..]), u, 8 * (i + 1)) && m.LimbSize() < 0x400_0000
  {
    hide Element, Size, LittleEndian, Rung, SwappedStep, ShiftedByte, Buffers.State, Buffers.LimbSize, Bit;
    ghost var k, bytes := LittleEndian(n[..]), n[..];
    var b := n[31 - i];
    ShiftAgain(bytes[31 - i], 0);
    m := start;
    for j := 0 to 8
      invariant b == ShiftedByte(bytes[31 - i], j)
      invariant m.Separate() && m.All() == start.All()
      invariant m.State() == Rung(k, u, 8 * i + j) && m.LimbSize() < 0x400_0000
    {
      var bit: limb := b / 0x80;
      NextBit(bytes, i, j, b);
      NextRung(k, u, 8 * i + j);
      ShiftAgain(bytes[31 - i], j);
      Round(m, q, bit);
      m := m.Flip();
      b := (b as int) * 2 % 0x100;
    }
  }

  // The buffers for the point at infinity and the point q. The next buffers are written before they
  // are read, so what they hold at first does not matter.
  method StartBuffers(q: array<limb>) returns (m: Buffers)
    requires 10 <= q.Length && Size(q) < 0x400_0000
    ensures m.Separate() && fresh(m.All()) && m.State() == Start(Element(q)) && m.LimbSize() < 0x400_0000
  {
    hide Element, Size;
    var e, f, g, h := new limb[19], new limb[19], new limb[19], new limb[19];
    var a := Constant(0);
    CopyElement(a, q);
    var b := Constant(1);
    var c := Constant(1);
    var d := Constant(0);
    m := Buffers(c, d, a, b, g, h, e, f);
  }

  // Multiplies the point with x-coordinate q by the scalar n, in projective coordinates.
  method Cmult(resultx: array<limb>, resultz: array<limb>, n: array<byte>, q: array<limb>)
    requires 10 <= resultx.Length && 10 <= resultz.Length && resultx != resultz
    requires n.Length == 32 && 10 <= q.Length && Size(q) < 0x400_0000
    modifies resultx, resultz
    ensures Element(resultx) == Climbed(LittleEndian(n[..]), old(Element(q))).x2
    ensures Element(resultz) == Climbed(LittleEndian(n[..]), old(Element(q))).z2
    ensures Size(resultx) < 0x400_0000 && Size(resultz) < 0x400_0000
  {
    hide Element, Size, LittleEndian, Climbed;
    var m := StartBuffers(q);
    ghost var u := Element(q);
    for i := 0 to 32
      invariant m.Separate() && fresh(m.All())
      invariant Element(q) == u && Size(q) < 0x400_0000
      invariant m.State() == Rung(LittleEndian(n[..]), u, 8 * i) && m.LimbSize() < 0x400_0000
    {
      m := ByteRounds(m, q, n, i, u);
    }
    SameLadder(LittleEndian(n[..]), u);
    CopyElement(resultx, m.nqx);
    CopyElement(resultz, m.nqz);
  }

  // The number that the ladder of RFC 7748 yields over all 256 bits of k, from the low 255 bits of
  // the base point.
  ghost function Agreement(k: int, basepoint: seq<byte>): int {
    var u := Residue(LittleEndian(basepoint) % (P + 19));
    Result(Climbed(k, u))
  }

  // Two encodings that differ in the top bit only agree with every secret on the same bytes.
  lemma TopBitAgreesAlike(k: int, b: seq<byte>, b': seq<byte>, shared: seq<byte>, shared': seq<byte>)
    requires |b| == |b'| == 32 && b'[..31] == b[..31] && b'[31] == ((b[31] as int) + 128) % 256
    requires |shared| == |shared'| == 32
    requires LittleEndian(shared) == Agreement(k, b) && LittleEndian(shared') == Agreement(k, b')
    ensures b != b' && shared == shared'
  {
    hide Climbed, Result, LittleEndian, ExpandLimb;
    TopBitIgnored(b, b');
    EncodingUnique(shared, shared');
  }

  // With secret one the base point comes back, times a power with exponent P - 1.
  lemma OneAgrees(b: seq<byte>)
    ensures
      var u := Residue(LittleEndian(b) % (P + 19));
      Agreement(1, b) == Mul(u, Power(Power(4 * u, Exp2(256) - 1), P - 1))
  {
    hide LittleEndian, Climbed, Power, Residue, Exp2;
    var u := Residue(LittleEndian(b) % (P + 19));
    LadderMeaning.ScalarOne(u);
    var z := Power(4 * u, Exp2(256) - 1);
    MulAssociative(u, z, Power(z, P - 2));
    PowerOne(z);
    PowerSum(z, 1, P - 2);
  }

  lemma PowerOne(z: int)
    requires 0 <= z < P
    ensures Power(z, 1) == z
  {
    assert Power(z, 0) == 1;
    ResidueOfSmall(z);
  }

  // The zero base point, which has small order, agrees with every secret on zero.
  lemma ZeroAgrees(k: int, b: seq<byte>)
    requires LittleEndian(b) == 0
    ensures Agreement(k, b) == 0
  {
    hide Climbed, Result, LittleEndian, Residue;
    ResidueOfSmall(0);
    ZeroPoint(k);
  }

  // The x-coordinate of the secret multiple of the base point: the ladder of RFC 7748 over all 256
  // bits of the secret, from the low 255 bits of the base point, encoded below 2^255 - 19.
  method Donna(mypublic: array<byte>, secret: array<byte>, basepoint: array<byte>)
    requires mypublic.Length == 32 && secret.Length == 32 && basepoint.Length == 32
    modifies mypublic
    ensures LittleEndian(mypublic[..]) == Agreement(LittleEndian(old(secret[..])), old(basepoint[..]))
  {
    hide Element, Size, LittleEndian, Climbed, Residue;
    ghost var k, u := LittleEndian(secret[..]), Residue(LittleEndian(basepoint[..]) % (P + 19));
    var e := new byte[32];
    for i := 0 to 32
      invariant forall j :: 0 <= j < i ==> e[j] == secret[j]
      modifies e
    {
      e[i] := secret[i];
    }
    assert e[..] == old(secret[..]) && basepoint[..] == old(basepoint[..]);
    var bp, x, z, zmone := new limb[10], new limb[10], new limb[11], new limb[10];
    ExpandElement(bp, basepoint);
    ghost var bytes := e[..];
    Cmult(x, z, e, bp);
    assert e[..] == bytes;
    Reciprocal(zmone, z);
    Multiply(z, x, zmone);
    Contract(mypublic, z);
  }

  method ExpandElement(output: array<limb>, input: array<byte>)
    requires 10 <= output.Length && input.Length == 32
    modifies output
    ensures Element(output) == Residue(LittleEndian(old(input[..])) % (P + 19)) && Size(output) < 0x400_0000
  {
    hide Value10, MaxAbs, LittleEndian, Residue;
    Expand(output, input);
    assert input[..32] == input[..] == old(input[..]);
    SizeBound(output, 0x400_0000);
  }
}
