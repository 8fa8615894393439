// fcontract (curve25519-donna.c): limbs of either sign to the unique little-endian encoding below
// 2^255 - 19.
module FieldContract {
  import opened Octets
  import opened Field
  import opened Limbs
  import opened Words
  import opened FieldArithmetic
  import opened FieldBytes

  lemma CarryValue10(s: seq<int>, i: nat, q: int)
    requires |s| == 10 && i < 9
    ensures Value10(s[i := s[i] - q * Radix(i)][i + 1 := s[i + 1] + q]) == Value10(s)
  {
    hide Value10, Value11;
    var t := s + [0];
    var r := t[i := t[i] - q * Radix(i)][i + 1 := t[i + 1] + q];
    if i % 2 == 0 { CarryValue26(t, i, q); } else { CarryValue25(t, i, q); }
    ZeroTop(t);
    ZeroTop(r);
    assert t[..10] == s && r[..10] == s[i := s[i] - q * Radix(i)][i + 1 := s[i + 1] + q];
  }

  lemma TopCarryValue(s: seq<int>, q: int)
    requires |s| == 10
    ensures Residue(Value10(s[9 := s[9] - q * 0x200_0000][0 := s[0] + 19 * q])) == Residue(Value10(s))
  {
    Shifted(Value10(s), Value10(s[9 := s[9] - q * 0x200_0000][0 := s[0] + 19 * q]), q);
  }

  // What limb i borrows from the next limb.
  function Borrow(v: s32, i: nat): s32 {
    if i % 2 == 0 then -(NegativePart(v) / 0x400_0000) else -(NegativePart(v) / 0x200_0000)
  }

  // Borrowing makes a negative limb non-negative and within its width, and leaves others alone.
  lemma BorrowValue(v: s32, i: nat)
    ensures if v < 0 then 0 <= v + Borrow(v, i) * Radix(i) < Radix(i) else Borrow(v, i) == 0
  {
    hide NegativePart;
    NegativePartValue(v);
  }

  method BorrowFrom(input: array<s32>, i: nat)
    requires input.Length == 10 && i < 9
    requires -0x800_0000 < input[i] < 0x800_0000 && -0x800_0000 < input[i + 1] < 0x800_0000
    modifies input
    ensures Value10(input[..]) == Value10(old(input[..]))
    ensures input[i + 1] == old(input[i + 1]) - Borrow(old(input[i]), i)
    ensures input[i] == old(input[i]) + Borrow(old(input[i]), i) * Radix(i)
    ensures if old(input[i]) < 0 then 0 <= input[i] < Radix(i)
            else input[i] == old(input[i]) && input[i + 1] == old(input[i + 1])
    ensures forall k :: 0 <= k < 10 && k != i && k != i + 1 ==> input[k] == old(input[k])
  {
    hide Value10, Borrow;
    ghost var s := input[..];
    BorrowValue(input[i], i);
    var carry := Borrow(input[i], i);
    input[i] := input[i] + (if i % 2 == 0 then carry * 0x400_0000 else carry * 0x200_0000);
    input[i + 1] := input[i + 1] - carry;
    CarryValue10(s, i, -carry);
    assert input[..] == s[i := s[i] - -carry * Radix(i)][i + 1 := s[i + 1] + -carry];
  }

  // What limb i borrows from the next one when the borrows start at limb 0.
  ghost function BorrowOut(s: seq<int>, i: nat): int
    requires i < |s|
  {
    var v := if i == 0 then s[0] else s[i] - BorrowOut(s, i - 1);
    if v < 0 then -(v / Radix(i)) else 0
  }

  lemma BorrowStep(s: seq<int>, i: nat)
    requires i < |s|
    ensures
      var v := if i == 0 then s[0] else s[i] - BorrowOut(s, i - 1);
      BorrowOut(s, i) == if v < 0 then -(v / Radix(i)) else 0
  {
  }

  lemma QuotientUnique(v: int, q: int, i: nat)
    requires v < 0 && 0 <= v + q * Radix(i) < Radix(i)
    ensures q == -(v / Radix(i))
  {
    if i % 2 == 0 {
      assert 0 <= v + q * 0x400_0000 < 0x400_0000;
    } else {
      assert 0 <= v + q * 0x200_0000 < 0x200_0000;
    }
  }

  lemma BorrowIsNext(s: seq<int>, v: s32, i: nat)
    requires i < |s| && v == if i == 0 then s[0] else s[i] - BorrowOut(s, i - 1)
    ensures Borrow(v, i) == BorrowOut(s, i)
  {
    hide Borrow, BorrowOut, Radix;
    BorrowStep(s, i);
    BorrowValue(v, i);
    if v < 0 {
      QuotientUnique(v, Borrow(v, i), i);
    }
  }

  lemma {:induction false} BorrowBound(s: seq<int>, i: nat)
    requires |s| == 10 && Bounded(s, 0x400_0000) && i < 10
    ensures 0 <= BorrowOut(s, i) <= if i % 2 == 0 then 2 else 3
  {
    BorrowStep(s, i);
    hide BorrowOut;
    if i > 0 {
      BorrowBound(s, i - 1);
    }
  }

  // Limb 0 may be left just below zero, and every other limb is within 26 bits.
  ghost predicate NearlyPositive(s: seq<int>) {
    |s| == 10 && -57 <= s[0] && forall k :: 1 <= k < 10 ==> 0 <= s[k]
  }

  // Then only limb 0 starts to borrow, and at most one is passed on.
  lemma {:induction false} NearlyPositiveBorrow(s: seq<int>, i: nat)
    requires NearlyPositive(s) && i < 10
    ensures 0 <= BorrowOut(s, i) <= BorrowOut(s, 0) == if s[0] < 0 then 1 else 0
  {
    BorrowStep(s, i);
    hide BorrowOut;
    if i > 0 {
      NearlyPositiveBorrow(s, i - 1);
    }
  }

  // The inner loop of the pass: each limb up to limb 8 borrows from the next one.
  method BorrowUp(input: array<s32>)
    requires input.Length == 10 && Bounded(input[..], 0x400_0000)
    modifies input
    ensures Value10(input[..]) == Value10(old(input[..]))
    ensures forall k :: 0 <= k < 9 ==> 0 <= input[k] < 0x400_0000
    ensures input[9] == old(input[9]) - BorrowOut(old(input[..]), 8)
    ensures input[0] == (old(input[0]) as int) + BorrowOut(old(input[..]), 0) * 0x400_0000
  {
    hide Value10, Borrow, BorrowOut;
    ghost var s: seq<int> := input[..];
    assert forall k :: 0 <= k < 10 ==> input[k] == s[k];
    for i := 0 to 9
      invariant Value10(input[..]) == Value10(s)
      invariant forall k :: 0 <= k < i ==> 0 <= input[k] < 0x400_0000
      invariant input[i] == if i == 0 then s[0] else s[i] - BorrowOut(s, i - 1)
      invariant 0 < i ==> 0 <= BorrowOut(s, i - 1) <= 3 && input[0] == s[0] + BorrowOut(s, 0) * 0x400_0000
      invariant forall k :: i < k < 10 ==> input[k] == s[k]
    {
      BorrowBound(s, i);
      BorrowIsNext(s, input[i], i);
      BorrowFrom(input, i);
    }
  }

  // One pass of borrowing from limb 0 up to limb 9, and from there, nineteenfold, from limb 0.
  method BorrowPass(input: array<s32>)
    requires input.Length == 10 && Bounded(input[..], 0x400_0000)
    modifies input
    ensures Residue(Value10(input[..])) == Residue(Value10(old(input[..])))
    ensures Bounded(input[..], 0x400_0000) && NearlyPositive(input[..])
    ensures NearlyPositive(old(input[..])) ==> 0 <= input[0]
    ensures input[0] ==
            (old(input[0]) as int) + BorrowOut(old(input[..]), 0) * 0x400_0000 - 19 * BorrowOut(old(input[..]), 9)
  {
    hide Value10, Borrow, BorrowOut;
    ghost var s: seq<int> := input[..];
    assert input[0] == s[0] && input[9] == s[9];
    BorrowUp(input);
    ghost var t := input[..];
    BorrowBound(s, 8);
    BorrowBound(s, 9);
    BorrowValue(input[9], 9);
    BorrowIsNext(s, input[9], 9);
    var carry := Borrow(input[9], 9);
    input[9] := input[9] + carry * 0x200_0000;
    input[0] := input[0] - carry * 19;
    TopCarryValue(t, -carry);
    assert input[..] == t[9 := t[9] - -carry * 0x200_0000][0 := t[0] + 19 * -carry];
    if NearlyPositive(s) {
      NearlyPositiveBorrow(s, 9);
    }
  }

  // The borrow out of limb 9 is at most one exactly when limb 9, less what limb 8 borrows, is at
  // least -2^25.
  lemma TopBorrowExact(s: seq<int>)
    requires |s| == 10
    ensures BorrowOut(s, 9) <= 1 <==> -0x200_0000 <= s[9] - BorrowOut(s, 8)
  {
    BorrowStep(s, 9);
    hide BorrowOut;
  }

  // Limbs below 2^26 in size can borrow three.
  lemma TopBorrowThree()
    ensures
      var low := -0x3ff_ffff;
      var s := [0, 0, 0, 0, 0, 0, 0, low, low, low];
      Bounded(s, 0x400_0000) && BorrowOut(s, 0) == 0 && BorrowOut(s, 9) == 3
  {
    var low := -0x3ff_ffff;
    var s := [0, 0, 0, 0, 0, 0, 0, low, low, low];
    hide BorrowOut;
    for i := 0 to 7
      invariant i > 0 ==> BorrowOut(s, 0) == 0 && BorrowOut(s, i - 1) == 0
    {
      BorrowStep(s, i);
    }
    BorrowStep(s, 7);
    BorrowStep(s, 8);
    BorrowStep(s, 9);
  }

  // Reduced limbs borrow at most one, except that limb 1 may be below -2^25: then two, if no limb
  // above it has anything to spare.
  lemma {:induction false} ReducedBorrow(s: seq<int>, i: nat)
    requires Reduced(s) && 1 <= i < 10
    ensures 0 <= BorrowOut(s, 0) <= 1 && 0 <= BorrowOut(s, i) <= 2
    ensures BorrowOut(s, i) == 2 <==>
            s[1] - BorrowOut(s, 0) < -0x200_0000 && forall k :: 2 <= k <= i ==> s[k] == 1 - Radix(k)
  {
    BorrowStep(s, i);
    hide BorrowOut;
    if i == 1 {
      BorrowStep(s, 0);
    } else {
      ReducedBorrow(s, i - 1);
    }
  }

  // The comment in fcontract claims one; among reduced limbs exactly one family borrows two.
  lemma ReducedTopBorrow(s: seq<int>)
    requires Reduced(s)
    ensures BorrowOut(s, 9) <= 1 <==>
            !(s[1] - BorrowOut(s, 0) < -0x200_0000 && forall k :: 2 <= k < 10 ==> s[k] == 1 - Radix(k))
    ensures BorrowOut(s, 0) == if s[0] < 0 then 1 else 0
    ensures BorrowOut(s, 9) <= 2
  {
    ReducedBorrow(s, 9);
    BorrowStep(s, 0);
  }

  // A member of that family.
  lemma ReducedBorrowsTwo()
    ensures
      var even, odd := 1 - 0x400_0000, 1 - 0x200_0000;
      var s := [0, -0x200_ffff, even, odd, even, odd, even, odd, even, odd];
      Reduced(s) && BorrowOut(s, 9) == 2
  {
    var even, odd := 1 - 0x400_0000, 1 - 0x200_0000;
    var s := [0, -0x200_ffff, even, odd, even, odd, even, odd, even, odd];
    hide BorrowOut;
    ReducedTopBorrow(s);
  }

  // Limb i cut down to its width with a mask, and what is carried out of it.
  function LowPart(v: s32, i: nat): s32 {
    if i % 2 == 0 then Combine(AND, v, 0x3ff_ffff) else Combine(AND, v, 0x1ff_ffff)
  }

  function HighPart(v: s32, i: nat): s32 {
    if i % 2 == 0 then v / 0x400_0000 else v / 0x200_0000
  }

  lemma PartsValue(v: s32, i: nat)
    ensures v == LowPart(v, i) + HighPart(v, i) * Radix(i) && 0 <= LowPart(v, i) < Radix(i)
  {
    hide Combine;
    AndLowWord(v);
  }

  method CarryFrom32(input: array<s32>, i: nat)
    requires input.Length == 10 && i < 9
    requires 0 <= input[i] < 0x800_0000 && 0 <= input[i + 1] < 0x800_0000
    modifies input
    ensures Value10(input[..]) == Value10(old(input[..]))
    ensures 0 <= input[i] < Radix(i) && input[i + 1] == old(input[i + 1]) + HighPart(old(input[i]), i)
    ensures input[i] == old(input[i]) - HighPart(old(input[i]), i) * Radix(i)
    ensures forall k :: 0 <= k < 10 && k != i && k != i + 1 ==> input[k] == old(input[k])
  {
    hide Value10, LowPart;
    ghost var s := input[..];
    PartsValue(input[i], i);
    var carry := HighPart(input[i], i);
    input[i] := LowPart(input[i], i);
    input[i + 1] := input[i + 1] + carry;
    CarryValue10(s, i, carry);
    assert input[..] == s[i := s[i] - carry * Radix(i)][i + 1 := s[i + 1] + carry];
  }

  ghost predicate Carriable(s: seq<int>) {
    |s| == 10 && 0 <= s[0] < 0x400_0040 && forall k :: 1 <= k < 10 ==> 0 <= s[k] < 0x400_0000
  }

  // Only limb 0 may be out of its width.
  ghost predicate NearlyCanonical(s: seq<int>) {
    |s| == 10 && 0 <= s[0] < 0x400_0026 && forall k :: 1 <= k < 10 ==> 0 <= s[k] < Radix(k)
  }

  method CarryPass(input: array<s32>)
    requires input.Length == 10 && Carriable(input[..])
    modifies input
    ensures Residue(Value10(input[..])) == Residue(Value10(old(input[..])))
    ensures NearlyCanonical(input[..])
    ensures NearlyCanonical(old(input[..])) ==> Canonical(input[..])
  {
    hide Value10, LowPart, Residue;
    ghost var s := input[..];
    assert forall k :: 0 <= k < 10 ==> input[k] == s[k];
    for i := 0 to 9
      invariant Value10(input[..]) == Value10(s)
      invariant forall k :: 0 <= k < i ==> 0 <= input[k] < Radix(k)
      invariant if i == 0 then input[0] == s[0] else s[i] <= input[i] <= s[i] + 2
      invariant forall k :: i < k < 10 ==> input[k] == s[k]
      invariant NearlyCanonical(s) ==>
                  input[i] == s[i] || (0 < i && input[i] == s[i] + 1 && input[0] < 0x26)
    {
      CarryFrom32(input, i);
    }
    ghost var t := input[..];
    PartsValue(input[9], 9);
    var carry := HighPart(input[9], 9);
    input[9] := LowPart(input[9], 9);
    input[0] := input[0] + 19 * carry;
    TopCarryValue(t, carry);
    assert input[..] == t[9 := t[9] - carry * 0x200_0000][0 := t[0] + 19 * carry];
  }

  // The limbs of 2^255 - 19.
  function PrimeLimb(i: nat): s32 {
    if i == 0 then 0x3ff_ffed else if i % 2 == 0 then 0x3ff_ffff else 0x1ff_ffff
  }

  // Limbs 1 to n - 1 have their largest value, and limb 0 is at least that of the prime.
  ghost predicate AtLeastPrime(x: seq<int>, n: nat)
    requires |x| == 10
  {
    PrimeLimb(0) <= x[0] && forall k :: 1 <= k < n && k < 10 ==> x[k] == PrimeLimb(k)
  }

  lemma AtLeastPrimeValue(x: seq<int>)
    requires Canonical(x)
    ensures AtLeastPrime(x, 10) <==> P <= Value10(x)
  {
    if !AtLeastPrime(x, 10) && PrimeLimb(0) <= x[0] {
      var k :| 1 <= k < 10 && x[k] != PrimeLimb(k);
      assert x[k] < PrimeLimb(k);
    }
  }

  lemma SubtractedValue(x: seq<int>, r: seq<int>)
    requires Canonical(x) && AtLeastPrime(x, 10) && |r| == 10
    requires forall k :: 0 <= k < 10 ==> r[k] == x[k] - PrimeLimb(k)
    ensures Canonical(r) && Value10(r) == Value10(x) - P
  {
  }

  // Subtracts the prime when the value is at least the prime, by masks instead of branches.
  method SubtractPrime(input: array<s32>)
    requires input.Length == 10 && Canonical(input[..])
    modifies input
    ensures Canonical(input[..]) && Value10(input[..]) == Residue(Value10(old(input[..])))
  {
    hide Value10, S32Eq, Combine, Residue;
    ghost var s := input[..];
    assert forall k :: 0 <= k < 10 ==> input[k] == s[k];
    var mask := S32Gte(input[0], PrimeLimb(0));
    for i := 1 to 10
      invariant input[..] == s
      invariant mask == if AtLeastPrime(s, i) then -1 else 0
    {
      assert input[i] == s[i];
      assert AtLeastPrime(s, i + 1) <==> AtLeastPrime(s, i) && s[i] == PrimeLimb(i);
      S32EqMask(input[i], PrimeLimb(i));
      AndMaskWord(mask);
      AndMaskWord(S32Eq(input[i], PrimeLimb(i)));
      mask := Combine(AND, mask, S32Eq(input[i], PrimeLimb(i)));
    }
    forall k: nat | k < 10
      ensures Combine(AND, mask, PrimeLimb(k)) == if AtLeastPrime(s, 10) then PrimeLimb(k) else 0
    {
      AndMaskWord(PrimeLimb(k));
    }
    assert forall k :: 0 <= k < 10 ==> input[k] == s[k];
    input[0] := input[0] - Combine(AND, mask, PrimeLimb(0));
    for i := 1 to 10
      invariant input[0] == s[0] - Combine(AND, mask, PrimeLimb(0))
      invariant forall k :: 1 <= k < i ==> input[k] == s[k] - Combine(AND, mask, PrimeLimb(k))
      invariant forall k :: i <= k < 10 ==> input[k] == s[k]
    {
      input[i] := input[i] - Combine(AND, mask, PrimeLimb(i));
    }
    AtLeastPrimeValue(s);
    CanonicalValue(s);
    if AtLeastPrime(s, 10) {
      SubtractedValue(s, input[..]);
      CanonicalValue(input[..]);
      Shifted(Value10(s), Value10(input[..]), 1);
    } else {
      assert input[..] == s;
    }
    ResidueOfSmall(Value10(input[..]));
  }

  lemma {:induction false} LittleEndianAppend(a: seq<int>, b: seq<int>)
    ensures LittleEndian(a + b) == LittleEndian(a) + Exp2(8 * |a|) * LittleEndian(b)
  {
    if a == [] {
      assert a + b == b;
    } else {
      assert (a + b)[1..] == a[1..] + b;
      LittleEndianAppend(a[1..], b);
      var e, v := Exp2(8 * |a[1..]|), LittleEndian(b);
      hide Exp2;
      Exp2Values();
      Exp2Sum(8, 8 * |a[1..]|);
      assert 0x100 * (e * v) == (0x100 * e) * v;
    }
  }

  function LowByte(v: s32): byte {
    AndLowWord(v);
    Combine(AND, v, 0xff)
  }

  lemma LowByteValue(v: s32)
    ensures LowByte(v) == v % 0x100
  {
    hide Combine;
    AndLowWord(v);
  }

  lemma BytesOfWord(u: int)
    requires 0 <= u < 0x1_0000_0000
    ensures u == u % 0x100 + 0x100 * (u / 0x100 % 0x100) + 0x1_0000 * (u / 0x1_0000 % 0x100) +
                 0x100_0000 * (u / 0x100_0000 % 0x100)
    ensures u / 0x100_0000 % 0x100 == u / 0x100_0000
  {
    DivDiv(u, 0x100, 0x100);
    DivDiv(u, 0x1_0000, 0x100);
  }

  // The bytes of a word do not depend on whether its top bit is read as a sign.
  lemma BytesOfSigned(u: int)
    requires 0 <= u < 0x1_0000_0000
    ensures S32(u) % 0x100 == u % 0x100
    ensures S32(u) / 0x100 % 0x100 == u / 0x100 % 0x100
    ensures S32(u) / 0x1_0000 % 0x100 == u / 0x1_0000 % 0x100
    ensures S32(u) / 0x100_0000 % 0x100 == u / 0x100_0000 % 0x100
  {
    var j := if u < 0x8000_0000 then 0 else -1;
    assert S32(u) == u + j * 0x1_0000_0000;
    hide S32;
    DivAdd(u, j * 0x100_0000, 0x100);
    Window(u, j * 0x1_0000, 0x100, 0x100);
    Window(u, j * 0x100, 0x1_0000, 0x100);
    Window(u, j, 0x100_0000, 0x100);
  }

  // The value of u from byte s on.
  ghost function From(s: nat, u: int): int { Exp2(8 * s) * u }

  // Writes the four bytes of v from byte s on, the first into the bits that are still free there.
  method PutLimb(output: array<byte>, v: s32, s: nat, ghost u: int, ghost j: nat)
    requires s + 4 <= output.Length && 0 <= u < 0x1_0000_0000 && v == S32(u)
    requires j <= 8 && output[s] < Exp2(j) && u % Exp2(j) == 0
    modifies output
    ensures LittleEndian(output[..s + 4]) == LittleEndian(old(output[..s + 1])) + From(s, u)
    ensures output[s + 3] == u / 0x100_0000
    ensures forall k :: s + 4 <= k < output.Length ==> output[k] == old(output[k])
  {
    hide Exp2, LittleEndian, Combine, LowByte, S32;
    LowByteValue(v);
    LowByteValue(v / 0x100);
    LowByteValue(v / 0x1_0000);
    LowByteValue(v / 0x100_0000);
    ghost var before, first := output[..s], output[s];
    BytesOfWord(u);
    BytesOfSigned(u);
    UnionOfBytes(output[s], u % 0x100, j, u);
    output[s] := Combine(OR, output[s], LowByte(v));
    output[s + 1] := LowByte(v / 0x100);
    output[s + 2] := LowByte(v / 0x1_0000);
    output[s + 3] := LowByte(v / 0x100_0000);
    ghost var tail := output[s..s + 4];
    assert output[..s + 4] == before + tail && old(output[..s + 1]) == before + [first];
    PutValue(before, tail, first, u);
  }

  lemma PutValue(before: seq<int>, tail: seq<int>, first: int, u: int)
    requires |tail| == 4
    requires first + u == tail[0] + 0x100 * tail[1] + 0x1_0000 * tail[2] + 0x100_0000 * tail[3]
    ensures LittleEndian(before + tail) == LittleEndian(before + [first]) + Exp2(8 * |before|) * u
  {
    hide LittleEndian, Exp2;
    FourBytes(tail, first, u);
    LittleEndianAppend(before, tail);
    LittleEndianAppend(before, [first]);
    var e := Exp2(8 * |before|);
    assert e * (first + u) == e * first + e * u;
  }

  lemma FourBytes(t: seq<int>, first: int, u: int)
    requires |t| == 4
    requires first + u == t[0] + 0x100 * t[1] + 0x1_0000 * t[2] + 0x100_0000 * t[3]
    ensures LittleEndian(t) == first + u && LittleEndian([first]) == first
  {
    assert LittleEndian(t[4..]) == 0;
    assert LittleEndian(t[3..]) == t[3] by { assert t[3..][1..] == t[4..]; }
    assert LittleEndian(t[2..]) == t[2] + 0x100 * LittleEndian(t[3..]) by { assert t[2..][1..] == t[3..]; }
    assert LittleEndian(t[1..]) == t[1] + 0x100 * LittleEndian(t[2..]) by { assert t[1..][1..] == t[2..]; }
  }

  lemma LowMultiple(u: int, m: nat, c: nat, n: nat)
    requires 1 <= m && 1 <= n && n == m * c && u % m == 0
    ensures (u % n) % m == 0 && u % n + m <= n
  {
    var k := (u / n) * c;
    assert u == u % n + k * m by {
      Associate(u / n, c, m);
    }
    DivAdd(u % n, k, m);
    BelowMultiple(u % n, m, c);
  }

  lemma Associate(x: int, y: int, z: int)
    ensures (x * y) * z == x * (z * y)
  {
  }

  lemma BelowMultiple(y: nat, m: nat, c: nat)
    requires 1 <= m && y % m == 0 && y < m * c
    ensures y + m <= m * c
  {
    var t := y / m;
    MulMonotone(c, t, m);
    MulMonotone(t + 1, c, m);
  }

  lemma UnionOfBytes(x: byte, y: byte, j: nat, u: int)
    requires j <= 8 && x < Exp2(j) && u % Exp2(j) == 0 && y == u % 0x100
    ensures Combine(OR, x, y) == (x as int) + y < 0x100
  {
    Exp2Values();
    Exp2Sum(j, 8 - j);
    hide Exp2, Bitwise;
    LowMultiple(u, Exp2(j), Exp2(8 - j), 0x100);
    OrDisjoint(x, y, j, 31);
  }

  lemma SmallExp2()
    ensures Exp2(0) == 1 && Exp2(1) == 2 && Exp2(2) == 4 && Exp2(3) == 8 && Exp2(4) == 16
    ensures Exp2(5) == 32 && Exp2(6) == 64
  {
  }

  lemma ByteWeights()
    ensures Exp2(24) == 0x100_0000 &&
            Exp2(48) == 0x1_0000_0000_0000 &&
            Exp2(72) == 0x100_0000_0000_0000_0000 &&
            Exp2(96) == 0x1_0000_0000_0000_0000_0000_0000 &&
            Exp2(128) == 0x1_0000_0000_0000_0000_0000_0000_0000_0000 &&
            Exp2(152) == 0x100_0000_0000_0000_0000_0000_0000_0000_0000_0000 &&
            Exp2(176) == 0x1_0000_0000_0000_0000_0000_0000_0000_0000_0000_0000_0000 &&
            Exp2(200) == 0x100_0000_0000_0000_0000_0000_0000_0000_0000_0000_0000_0000_0000 &&
            Exp2(224) == 0x1_0000_0000_0000_0000_0000_0000_0000_0000_0000_0000_0000_0000_0000_0000
  {
    Exp2Values();
    hide Exp2;
    Exp2Sum(8, 16);
    Exp2Sum(24, 24);
    Exp2Sum(48, 24);
    Exp2Sum(48, 48);
    Exp2Sum(96, 16);
    Exp2Sum(112, 16);
    Exp2Sum(128, 24);
    Exp2Sum(152, 24);
    Exp2Sum(176, 24);
    Exp2Sum(200, 24);
  }

  lemma ZeroByte(a: seq<int>, b: seq<int>)
    requires |b| == |a| + 1 && b[..|a|] == a && b[|a|] == 0
    ensures LittleEndian(b) == LittleEndian(a)
  {
  }

  // Limb n moved to its place within its first byte.
  ghost function Placed(x: seq<int>, n: nat): int
    requires |x| == 10 && n < 10
  {
    var v := x[n];
    if n == 0 || n == 5 then v else if n == 1 then v * 4 else if n == 2 || n == 7 then v * 8
    else if n == 3 then v * 32 else if n == 4 || n == 9 then v * 64 else if n == 6 then v * 2 else v * 16
  }

  // The first byte of limb n keeps as many bits free as the limb before takes of it.
  lemma PlacedFits(x: seq<int>)
    requires Canonical(x)
    ensures forall n: nat :: n < 10 ==> 0 <= Placed(x, n) < 0x1_0000_0000
    ensures Placed(x, 0) % Exp2(0) == 0 && Placed(x, 1) % Exp2(2) == 0 && Placed(x, 2) % Exp2(3) == 0
    ensures Placed(x, 3) % Exp2(5) == 0 && Placed(x, 4) % Exp2(6) == 0 && Placed(x, 5) % Exp2(0) == 0
    ensures Placed(x, 6) % Exp2(1) == 0 && Placed(x, 7) % Exp2(3) == 0 && Placed(x, 8) % Exp2(4) == 0
    ensures Placed(x, 9) % Exp2(6) == 0 && 0 < Exp2(0)
    ensures Placed(x, 0) / 0x100_0000 < Exp2(2) && Placed(x, 1) / 0x100_0000 < Exp2(3)
    ensures Placed(x, 2) / 0x100_0000 < Exp2(5) && Placed(x, 3) / 0x100_0000 < Exp2(6)
    ensures Placed(x, 5) / 0x100_0000 < Exp2(1) && Placed(x, 6) / 0x100_0000 < Exp2(3)
    ensures Placed(x, 7) / 0x100_0000 < Exp2(4) && Placed(x, 8) / 0x100_0000 < Exp2(6)
  {
  }

  method PackLow(output: array<byte>, input: array<s32>, ghost x: seq<int>)
    requires output.Length == 32 && input.Length == 10 && Canonical(x) && output[0] == 0
    requires forall n: nat :: n < 5 ==> input[n] == S32(Placed(x, n))
    modifies output
    ensures LittleEndian(output[..16]) == LittleEndian(old(output[..1])) +
            From(0, Placed(x, 0)) + From(3, Placed(x, 1)) + From(6, Placed(x, 2)) +
            From(9, Placed(x, 3)) + From(12, Placed(x, 4))
    ensures output[16] == old(output[16])
  {
    PlacedFits(x);
    hide Exp2, From, LittleEndian, S32, Placed, Canonical;
    PutLimb(output, input[0], 0, Placed(x, 0), 0);
    PutLimb(output, input[1], 3, Placed(x, 1), 2);
    PutLimb(output, input[2], 6, Placed(x, 2), 3);
    PutLimb(output, input[3], 9, Placed(x, 3), 5);
    PutLimb(output, input[4], 12, Placed(x, 4), 6);
  }

  method PackHigh(output: array<byte>, input: array<s32>, ghost x: seq<int>)
    requires output.Length == 32 && input.Length == 10 && Canonical(x) && output[16] == 0
    requires forall n: nat :: 5 <= n < 10 ==> input[n] == S32(Placed(x, n))
    modifies output
    ensures LittleEndian(output[..32]) == LittleEndian(old(output[..17])) +
            From(16, Placed(x, 5)) + From(19, Placed(x, 6)) + From(22, Placed(x, 7)) +
            From(25, Placed(x, 8)) + From(28, Placed(x, 9))
  {
    PlacedFits(x);
    hide Exp2, From, LittleEndian, S32, Placed, Canonical;
    PutLimb(output, input[5], 16, Placed(x, 5), 0);
    PutLimb(output, input[6], 19, Placed(x, 6), 1);
    PutLimb(output, input[7], 22, Placed(x, 7), 3);
    PutLimb(output, input[8], 25, Placed(x, 8), 4);
    PutLimb(output, input[9], 28, Placed(x, 9), 6);
  }

  lemma PlacedValue(x: seq<int>)
    requires |x| == 10
    ensures Value10(x) == From(0, Placed(x, 0)) + From(3, Placed(x, 1)) + From(6, Placed(x, 2)) +
            From(9, Placed(x, 3)) + From(12, Placed(x, 4)) +
            From(16, Placed(x, 5)) + From(19, Placed(x, 6)) + From(22, Placed(x, 7)) +
            From(25, Placed(x, 8)) + From(28, Placed(x, 9))
  {
    ByteWeights();
    SmallExp2();
    hide Exp2;
  }

  lemma FirstByte(b: seq<int>)
    requires |b| == 1
    ensures LittleEndian(b) == b[0]
  {
  }

  // Moves each limb to its place within its first byte.
  method Place(input: array<s32>)
    requires input.Length == 10
    modifies input
    ensures forall n: nat :: n < 10 ==> input[n] == S32(Placed(old(input[..]), n))
  {
    hide S32;
    ghost var x := input[..];
    assert forall k :: 0 <= k < 10 ==> input[k] == x[k];
    assert S32(x[0]) == x[0] && S32(x[5]) == x[5];
    input[1] := S32((input[1] as int) * 4);
    input[2] := S32((input[2] as int) * 8);
    input[3] := S32((input[3] as int) * 32);
    input[4] := S32((input[4] as int) * 64);
    input[6] := S32((input[6] as int) * 2);
    input[7] := S32((input[7] as int) * 8);
    input[8] := S32((input[8] as int) * 16);
    input[9] := S32((input[9] as int) * 64);
  }

  method Pack(output: array<byte>, input: array<s32>)
    requires output.Length == 32 && input.Length == 10 && Canonical(input[..])
    modifies output, input
    ensures LittleEndian(output[..]) == Value10(old(input[..]))
  {
    hide Exp2, From, LittleEndian, S32, Value10, Placed, Canonical;
    ghost var x := input[..];
    Place(input);
    output[0] := 0;
    output[16] := 0;
    assert LittleEndian(output[..1]) == 0 by { FirstByte(output[..1]); }
    PackLow(output, input, x);
    ZeroByte(output[..16], output[..17]);
    PackHigh(output, input, x);
    PlacedValue(x);
    assert output[..] == output[..32];
  }

  // The first loop of fcontract, two borrow passes and one more borrow out of limb 0.
  method MakePositive(input: array<s32>)
    requires input.Length == 10 && Bounded(input[..], 0x400_0000)
    modifies input
    ensures Residue(Value10(input[..])) == Residue(Value10(old(input[..])))
    ensures Carriable(input[..])
  {
    hide Value10, Residue, Borrow;
    BorrowPass(input);
    BorrowPass(input);
    BorrowFrom(input, 0);
  }

  // Writes the unique encoding of the residue that the limbs stand for.
  method Contract(output: array<byte>, inputLimbs: array<limb>)
    requires output.Length == 32 && 10 <= inputLimbs.Length && Size(inputLimbs) < 0x400_0000
    modifies output
    ensures LittleEndian(output[..]) == Element(inputLimbs)
  {
    hide Value10, MaxAbs, LittleEndian, Residue;
    SizeBound(inputLimbs, 0x400_0000);
    var input := new s32[10];
    for i := 0 to 10
      invariant forall k :: 0 <= k < i ==> input[k] == inputLimbs[k]
    {
      assert inputLimbs[i] == inputLimbs[..10][i];
      input[i] := inputLimbs[i];
    }
    assert input[..] == inputLimbs[..10];
    MakePositive(input);
    CarryPass(input);
    CarryPass(input);
    SubtractPrime(input);
    Pack(output, input);
  }

  // Little-endian encodings of one length are unique.
  lemma {:induction false} EncodingUnique(a: seq<byte>, b: seq<byte>)
    requires |a| == |b| && LittleEndian(a) == LittleEndian(b)
    ensures a == b
  {
    if a != [] {
      var s: seq<int>, t: seq<int> := a, b;
      assert LittleEndian(s) == s[0] + 0x100 * LittleEndian(s[1..]);
      assert LittleEndian(t) == t[0] + 0x100 * LittleEndian(t[1..]);
      EncodingUnique(a[1..], b[1..]);
      assert a == [a[0]] + a[1..] && b == [b[0]] + b[1..];
    }
  }

  // Expanding what was contracted gives limbs for the same residue, and the residue itself as value.
  method ContractThenExpand(output: array<limb>, bytes: array<byte>, input: array<limb>)
    requires 10 <= output.Length && bytes.Length == 32 && 10 <= input.Length && Size(input) < 0x400_0000
    modifies output, bytes
    ensures Value10(output[..10]) == old(Element(input)) && Element(output) == old(Element(input))
  {
    hide Value10, LittleEndian, MaxAbs, Residue;
    Contract(bytes, input);
    assert bytes[..32] == bytes[..];
    Expand(output, bytes);
    ResidueOfSmall(Value10(output[..10]));
  }
}
