// Field elements to and from 32 little-endian bytes: fexpand and fcontract (curve25519-donna.c).
module FieldBytes {
  import opened Octets
  import opened Field
  import opened Limbs
  import opened Words
  import opened FieldArithmetic

  // The integer that bytes stand for, least significant first.
  ghost function LittleEndian(b: seq<int>): int {
    if b == [] then 0 else b[0] + 0x100 * LittleEndian(b[1..])
  }

  // Four bytes loaded as one word; their bits are disjoint, so the union is a sum.
  function Load(b: seq<byte>, start: nat): (w: int)
    requires start + 4 <= |b|
    ensures 0 <= w < 0x1_0000_0000
  {
    var b0: int, b1: int, b2: int, b3: int := b[start], b[start + 1], b[start + 2], b[start + 3];
    b0 + 0x100 * b1 + 0x1_0000 * b2 + 0x100_0000 * b3
  }

  // A limb out of four bytes: shifted down past p, and masked to m values.
  function Extract(b: seq<byte>, start: nat, p: nat, m: nat): (r: int)
    requires start + 4 <= |b| && 1 <= p && 1 <= m
    ensures 0 <= r < m
  {
    Load(b, start) / p % m
  }

  // The right-hand side of fexpand's assignment to limb n.
  function ExpandLimb(b: seq<byte>, n: nat): int
    requires |b| == 32 && n < 10
  {
    if n == 0 then Extract(b, 0, 1, 0x400_0000)
    else if n == 1 then Extract(b, 3, 4, 0x200_0000)
    else if n == 2 then Extract(b, 6, 8, 0x400_0000)
    else if n == 3 then Extract(b, 9, 32, 0x200_0000)
    else if n == 4 then Extract(b, 12, 64, 0x400_0000)
    else if n == 5 then Extract(b, 16, 1, 0x200_0000)
    else if n == 6 then Extract(b, 19, 2, 0x400_0000)
    else if n == 7 then Extract(b, 22, 8, 0x200_0000)
    else if n == 8 then Extract(b, 25, 16, 0x400_0000)
    else Extract(b, 28, 64, 0x200_0000)
  }

  lemma {:induction false} LittleEndianSplit(b: seq<byte>, k: nat)
    requires k + 4 <= |b|
    ensures LittleEndian(b[k..]) == Load(b, k) + 0x1_0000_0000 * LittleEndian(b[k + 4..])
    ensures LittleEndian(b[k..]) == Load(b, k) % 0x100_0000 + 0x100_0000 * LittleEndian(b[k + 3..])
    ensures 0 <= LittleEndian(b[k + 4..])
  {
    var t: seq<int> := b;
    assert t[k..][1..] == t[k + 1..] && t[k + 1..][1..] == t[k + 2..];
    assert t[k + 2..][1..] == t[k + 3..] && t[k + 3..][1..] == t[k + 4..];
    assert LittleEndian(t[k..]) == t[k] + 0x100 * LittleEndian(t[k + 1..]);
    assert LittleEndian(t[k + 1..]) == t[k + 1] + 0x100 * LittleEndian(t[k + 2..]);
    assert LittleEndian(t[k + 2..]) == t[k + 2] + 0x100 * LittleEndian(t[k + 3..]);
    assert LittleEndian(t[k + 3..]) == t[k + 3] + 0x100 * LittleEndian(t[k + 4..]);
    NonNegative(b[k + 4..]);
  }

  lemma {:induction false} NonNegative(b: seq<byte>)
    ensures 0 <= LittleEndian(b)
  {
    if b != [] { NonNegative(b[1..]); }
  }

  // The input from byte k on, shifted down past p.
  ghost function After(b: seq<byte>, k: nat, p: nat): int
    requires k <= |b| && 1 <= p
  {
    LittleEndian(b[k..]) / p
  }

  lemma ExtractAfter(b: seq<byte>, k: nat, p: nat, m: nat, c: nat)
    requires k + 4 <= |b| && 1 <= p && 1 <= m && (c * m) * p == 0x1_0000_0000
    ensures After(b, k, p) % m == Extract(b, k, p, m)
  {
    LittleEndianSplit(b, k);
    hide LittleEndian, Load;
    var z := LittleEndian(b[k + 4..]);
    Regroup(c, z, m, p);
    Window(Load(b, k), c * z, p, m);
  }

  lemma Regroup(c: int, z: int, m: int, p: int)
    ensures ((c * z) * m) * p == ((c * m) * p) * z
  {
  }

  // Taking a limb out of the low word of what is left of the input.
  lemma Cut(b: seq<byte>, k: nat, p: nat, m: nat, q: nat, c: nat)
    requires k + 4 <= |b| && 1 <= p && 1 <= m && 1 <= q
    requires p * m == 0x100_0000 * q && (c * m) * p == 0x1_0000_0000
    ensures After(b, k, p) == Extract(b, k, p, m) + m * After(b, k + 3, q)
  {
    ExtractAfter(b, k, p, m, c);
    LittleEndianSplit(b, k);
    hide LittleEndian, Load;
    var t := LittleEndian(b[k..]);
    DivDiv(t, p, m);
    DivDiv(t, 0x100_0000, q);
    DivAdd(Load(b, k) % 0x100_0000, LittleEndian(b[k + 3..]), 0x100_0000);
  }

  // The limbs that fexpand writes.
  function ExpandLimbs(b: seq<byte>): (x: seq<int>)
    requires |b| == 32
    ensures |x| == 10
    ensures forall n :: 0 <= n < 10 ==> x[n] == ExpandLimb(b, n)
  {
    seq(10, n requires 0 <= n < 10 => ExpandLimb(b, n))
  }

  // The limbs stand for the low 255 bits of the input.
  lemma ExpandedValue(b: seq<byte>)
    requires |b| == 32
    ensures LittleEndian(b) == Value10(ExpandLimbs(b)) + (P + 19) * (b[31] / 128)
  {
    Ends(b);
    hide After, Extract, LittleEndian;
    Cut(b, 0, 1, 0x400_0000, 4, 64);
    Cut(b, 3, 4, 0x200_0000, 8, 32);
    Cut(b, 6, 8, 0x400_0000, 32, 8);
    Cut(b, 9, 32, 0x200_0000, 64, 4);
    Cut(b, 12, 64, 0x400_0000, 256, 1);
    Cut(b, 16, 1, 0x200_0000, 2, 128);
    Cut(b, 19, 2, 0x400_0000, 8, 32);
    Cut(b, 22, 8, 0x200_0000, 16, 16);
    Cut(b, 25, 16, 0x400_0000, 64, 4);
    Cut(b, 28, 64, 0x200_0000, 128, 2);
  }

  lemma Ends(b: seq<byte>)
    requires |b| == 32
    ensures After(b, 0, 1) == LittleEndian(b) && After(b, 15, 256) == After(b, 16, 1)
    ensures After(b, 31, 128) == b[31] / 128
  {
    var t: seq<int> := b;
    assert t[0..] == t && t[15..][1..] == t[16..] && t[31..][1..] == [];
    assert LittleEndian(t[15..]) == t[15] + 0x100 * LittleEndian(t[16..]);
    assert LittleEndian(t[31..]) == t[31] + 0x100 * LittleEndian(t[31..][1..]);
    DivAdd(t[15], LittleEndian(t[16..]), 0x100);
  }

  // Limbs that are non-negative and within their width.
  ghost predicate Canonical(x: seq<int>) {
    |x| == 10 && forall n :: 0 <= n < 10 ==> 0 <= x[n] < Radix(n)
  }

  lemma CanonicalValue(x: seq<int>)
    requires Canonical(x)
    ensures 0 <= Value10(x) < P + 19
  {
  }

  // Sets the limbs to the low 255 bits of the input.
  method Expand(output: array<limb>, input: array<byte>)
    requires 10 <= output.Length && 32 <= input.Length
    modifies output
    ensures Canonical(output[..10])
    ensures Value10(output[..10]) == LittleEndian(input[..32]) % (P + 19)
  {
    hide Value10, ExpandLimb, LittleEndian;
    var b := input[..32];
    forall n | 0 <= n < 10
      ensures 0 <= ExpandLimb(b, n) < Radix(n)
    {
      ExpandBound(b, n);
    }
    forall n | 0 <= n < 10 { output[n] := ExpandLimb(b, n); }
    assert output[..10] == ExpandLimbs(b);
    ExpandedValue(b);
    CanonicalValue(output[..10]);
    ModUnique(LittleEndian(b), b[31] / 128, P + 19, Value10(output[..10]));
    assert input[..32] == b;
  }

  lemma ExpandBound(b: seq<byte>, n: nat)
    requires |b| == 32 && n < 10
    ensures 0 <= ExpandLimb(b, n) < Radix(n)
  {
  }

  lemma TopBitOfLoad(x: int, y: int)
    requires y == x + 0x8000_0000 || x == y + 0x8000_0000
    ensures y / 64 % 0x200_0000 == x / 64 % 0x200_0000
  {
  }

  // Flipping the top bit of the input gives other bytes and the same limbs.
  lemma TopBitIgnored(b: seq<byte>, b': seq<byte>)
    requires |b| == |b'| == 32 && b'[..31] == b[..31] && b'[31] == ((b[31] as int) + 128) % 256
    ensures b' != b && ExpandLimbs(b') == ExpandLimbs(b)
    ensures LittleEndian(b') % (P + 19) == LittleEndian(b) % (P + 19)
  {
    ExpandedValue(b);
    ExpandedValue(b');
    SameLimbs(b, b');
    hide LittleEndian, Value10, ExpandLimb;
    SameRemainder(LittleEndian(b), LittleEndian(b'), Value10(ExpandLimbs(b)), b[31] / 128, b'[31] / 128, P + 19);
  }

  lemma SameRemainder(x: int, y: int, v: int, q: int, q': int, m: nat)
    requires 1 <= m && x == v + m * q && y == v + m * q'
    ensures x % m == y % m
  {
    DivAdd(v, q, m);
    DivAdd(v, q', m);
  }

  lemma SameLimbs(b: seq<byte>, b': seq<byte>)
    requires |b| == |b'| == 32 && b'[..31] == b[..31] && b'[31] == ((b[31] as int) + 128) % 256
    ensures b' != b && ExpandLimbs(b') == ExpandLimbs(b)
  {
    forall k | 0 <= k < 31
      ensures b'[k] == b[k]
    {
      assert b'[k] == b'[..31][k];
    }
    TopBitOfLoad(Load(b, 28), Load(b', 28));
    forall n | 0 <= n < 9
      ensures ExpandLimb(b', n) == ExpandLimb(b, n)
    {
      assert forall k :: 0 <= k <= 27 ==> Load(b', k) == Load(b, k);
    }
    assert ExpandLimb(b', 9) == ExpandLimb(b, 9);
    hide ExpandLimb;
    assert forall n :: 0 <= n < 10 ==> ExpandLimbs(b')[n] == ExpandLimbs(b)[n];
  }
}
