/** HKDF (hkdf.c) over bytes, for any HMAC with 32-byte outputs. */
module HkdfExpansion {
  import opened Octets

  type Bytes = seq<byte>
  type HmacFunction = (Bytes, Bytes) -> Bytes

  const HASH_OUTPUT_SIZE: nat := 32

  ghost predicate IsHmac(hmac: HmacFunction) {
    forall key, data :: |hmac(key, data)| == HASH_OUTPUT_SIZE
  }

  /** First counter value: 0 for message version 2, 1 for version 3. */
  type Offset = x: int | 0 <= x <= 1

  function Iterations(outputLen: nat): nat {
    (outputLen + HASH_OUTPUT_SIZE - 1) / HASH_OUTPUT_SIZE
  }

  // ----- the reference: the T blocks of section 2.3 of RFC 5869

  /** The `n`-th block, counting from one; its counter byte is `n - 1 + offset`. */
  function T(hmac: HmacFunction, prk: Bytes, info: Bytes, offset: Offset, n: nat): Bytes {
    if n == 0 then []
    else hmac(prk, T(hmac, prk, info, offset, n - 1) + info + [(n - 1 + offset) % 256])
  }

  /** `T(1) | T(2) | ... | T(n)`. */
  function Blocks(hmac: HmacFunction, prk: Bytes, info: Bytes, offset: Offset, n: nat): Bytes {
    if n == 0 then [] else Blocks(hmac, prk, info, offset, n - 1) + T(hmac, prk, info, offset, n)
  }

  lemma {:induction false} BlocksLength(hmac: HmacFunction, prk: Bytes, info: Bytes, offset: Offset, n: nat)
    requires IsHmac(hmac)
    ensures |Blocks(hmac, prk, info, offset, n)| == HASH_OUTPUT_SIZE * n
  {
    if n > 0 {
      BlocksLength(hmac, prk, info, offset, n - 1);
    }
  }

  lemma {:induction false} BlocksPrefix(hmac: HmacFunction, prk: Bytes, info: Bytes, offset: Offset, m: nat, n: nat)
    requires m <= n
    ensures Blocks(hmac, prk, info, offset, m) <= Blocks(hmac, prk, info, offset, n)
  {
    if m < n {
      BlocksPrefix(hmac, prk, info, offset, m, n - 1);
    }
  }

  /** The first `outputLen` bytes of the concatenated blocks. */
  ghost function Output(hmac: HmacFunction, prk: Bytes, info: Bytes, offset: Offset, outputLen: nat): (r: Bytes)
    requires IsHmac(hmac)
    ensures |r| == outputLen
  {
    BlocksLength(hmac, prk, info, offset, Iterations(outputLen));
    Blocks(hmac, prk, info, offset, Iterations(outputLen))[..outputLen]
  }

  // ----- what the output is, without the blocks

  /** Block `i` of an output, cut short at its end. */
  function BlockOf(output: Bytes, i: nat): Bytes
    requires HASH_OUTPUT_SIZE * i <= |output|
  {
    if |output| < HASH_OUTPUT_SIZE * (i + 1) then output[HASH_OUTPUT_SIZE * i..]
    else output[HASH_OUTPUT_SIZE * i..HASH_OUTPUT_SIZE * (i + 1)]
  }

  /** Block `i` begins the HMAC of the 32 bytes before it, the info and the counter byte `i + offset`. */
  ghost predicate ChainedAt(hmac: HmacFunction, prk: Bytes, info: Bytes, offset: Offset, output: Bytes, i: nat)
    requires HASH_OUTPUT_SIZE * i <= |output|
  {
    var before := if i == 0 then [] else output[HASH_OUTPUT_SIZE * (i - 1)..HASH_OUTPUT_SIZE * i];
    BlockOf(output, i) <= hmac(prk, before + info + [(i + offset) % 256])
  }

  ghost predicate Chained(hmac: HmacFunction, prk: Bytes, info: Bytes, offset: Offset, output: Bytes) {
    forall i: nat :: HASH_OUTPUT_SIZE * i < |output| ==> ChainedAt(hmac, prk, info, offset, output, i)
  }

  /** Block `i` of the concatenated blocks is `T(i + 1)`. */
  lemma BlockAt(hmac: HmacFunction, prk: Bytes, info: Bytes, offset: Offset, i: nat, n: nat)
    requires IsHmac(hmac) && i < n
    ensures
      var all := Blocks(hmac, prk, info, offset, n);
      && |all| == HASH_OUTPUT_SIZE * n
      && all[HASH_OUTPUT_SIZE * i..HASH_OUTPUT_SIZE * (i + 1)] == T(hmac, prk, info, offset, i + 1)
  {
    BlocksLength(hmac, prk, info, offset, n);
    BlocksLength(hmac, prk, info, offset, i);
    BlocksLength(hmac, prk, info, offset, i + 1);
    BlocksPrefix(hmac, prk, info, offset, i + 1, n);
    var all, some := Blocks(hmac, prk, info, offset, n), Blocks(hmac, prk, info, offset, i + 1);
    assert all[HASH_OUTPUT_SIZE * i..HASH_OUTPUT_SIZE * (i + 1)] == some[HASH_OUTPUT_SIZE * i..];
  }

  /** Cutting the end off leaves the front of each block. */
  lemma CutBlock(all: Bytes, outputLen: nat, i: nat)
    requires HASH_OUTPUT_SIZE * i < outputLen <= |all| && HASH_OUTPUT_SIZE * (i + 1) <= |all|
    ensures BlockOf(all[..outputLen], i) <= all[HASH_OUTPUT_SIZE * i..HASH_OUTPUT_SIZE * (i + 1)]
  {
  }

  lemma OutputChainedAt(hmac: HmacFunction, prk: Bytes, info: Bytes, offset: Offset, outputLen: nat, i: nat)
    requires IsHmac(hmac) && HASH_OUTPUT_SIZE * i < outputLen
    ensures ChainedAt(hmac, prk, info, offset, Output(hmac, prk, info, offset, outputLen), i)
  {
    var n := Iterations(outputLen);
    var all, output := Blocks(hmac, prk, info, offset, n), Output(hmac, prk, info, offset, outputLen);
    BlockAt(hmac, prk, info, offset, i, n);
    if i > 0 {
      BlockAt(hmac, prk, info, offset, i - 1, n);
      assert output[HASH_OUTPUT_SIZE * (i - 1)..HASH_OUTPUT_SIZE * i]
             == all[HASH_OUTPUT_SIZE * (i - 1)..HASH_OUTPUT_SIZE * i];
    }
    CutBlock(all, outputLen, i);
  }

  /** The output is chained, whatever the blocks are. */
  lemma OutputChained(hmac: HmacFunction, prk: Bytes, info: Bytes, offset: Offset, outputLen: nat)
    requires IsHmac(hmac)
    ensures Chained(hmac, prk, info, offset, Output(hmac, prk, info, offset, outputLen))
  {
    hide Output, ChainedAt;
    forall i: nat | HASH_OUTPUT_SIZE * i < outputLen
      ensures ChainedAt(hmac, prk, info, offset, Output(hmac, prk, info, offset, outputLen), i)
    {
      OutputChainedAt(hmac, prk, info, offset, outputLen, i);
    }
  }

  /** Two chained outputs agree as far as both go, so a chained output of one length is unique. */
  lemma {:induction false} ChainedUnique(hmac: HmacFunction, prk: Bytes, info: Bytes, offset: Offset, a: Bytes,
                                         b: Bytes,
                                         n: nat)
    requires IsHmac(hmac) && Chained(hmac, prk, info, offset, a) && Chained(hmac, prk, info, offset, b)
    requires |a| == |b| <= HASH_OUTPUT_SIZE * n
    ensures a == b
  {
    if a != [] {
      var i := (|a| - 1) / HASH_OUTPUT_SIZE;
      var cut := HASH_OUTPUT_SIZE * i;
      ChainedPrefix(hmac, prk, info, offset, a, i);
      ChainedPrefix(hmac, prk, info, offset, b, i);
      ChainedUnique(hmac, prk, info, offset, a[..cut], b[..cut], n - 1);
      assert ChainedAt(hmac, prk, info, offset, a, i) && ChainedAt(hmac, prk, info, offset, b, i);
      if i > 0 {
        assert a[cut - HASH_OUTPUT_SIZE..cut] == a[..cut][cut - HASH_OUTPUT_SIZE..];
        assert b[cut - HASH_OUTPUT_SIZE..cut] == b[..cut][cut - HASH_OUTPUT_SIZE..];
      }
      assert a[cut..] == b[cut..];
      assert a == a[..cut] + a[cut..] && b == b[..cut] + b[cut..];
    }
  }

  lemma ChainedPrefix(hmac: HmacFunction, prk: Bytes, info: Bytes, offset: Offset, output: Bytes, n: nat)
    requires Chained(hmac, prk, info, offset, output) && HASH_OUTPUT_SIZE * n <= |output|
    ensures Chained(hmac, prk, info, offset, output[..HASH_OUTPUT_SIZE * n])
  {
    var front := output[..HASH_OUTPUT_SIZE * n];
    forall i: nat | HASH_OUTPUT_SIZE * i < |front|
      ensures ChainedAt(hmac, prk, info, offset, front, i)
    {
      assert ChainedAt(hmac, prk, info, offset, output, i);
      assert BlockOf(front, i) == BlockOf(output, i);
      if i > 0 {
        assert front[HASH_OUTPUT_SIZE * (i - 1)..HASH_OUTPUT_SIZE * i]
               == output[HASH_OUTPUT_SIZE * (i - 1)..HASH_OUTPUT_SIZE * i];
      }
    }
  }

  // ----- the loop

  /** The loop's 8-bit counter, started at `offset`, after `n` rounds. */
  function Counter(offset: Offset, n: nat): nat {
    (offset + n) % 256
  }

  predicate Continues(offset: Offset, iterations: nat, counter: nat) {
    counter < iterations + offset
  }

  /** The loop ends, at some round, exactly when its bound fits the counter. */
  lemma LoopEnds(offset: Offset, iterations: nat)
    ensures (exists n: nat :: !Continues(offset, iterations, Counter(offset, n))) <==> iterations + offset <= 255
  {
    if iterations + offset <= 255 {
      assert !Continues(offset, iterations, Counter(offset, iterations));
    }
  }

  /** RFC 5869 allows 255 blocks; for version 3 the loop never returns the last one. */
  lemma LastBlockDiverges(n: nat)
    ensures Iterations(255 * HASH_OUTPUT_SIZE) == 255 && Continues(1, 255, Counter(1, n))
  {
  }

  method Expand(hmac: HmacFunction, prk: Bytes, info: Bytes, offset: Offset, outputLen: nat) returns (output: Bytes)
    requires IsHmac(hmac)
    requires Iterations(outputLen) + offset <= 255
    ensures |output| == outputLen && Chained(hmac, prk, info, offset, output)
    ensures output == Output(hmac, prk, info, offset, outputLen)
  {
    var iterations := Iterations(outputLen);
    var remaining := outputLen;
    var step: Bytes := [];
    output := [];
    var i: nat := offset;
    ghost var n := 0;
    while i < iterations + offset
      invariant n <= iterations && i == Counter(offset, n) == offset + n
      invariant step == T(hmac, prk, info, offset, n)
      invariant |output| + remaining == outputLen
      invariant n < iterations ==> output == Blocks(hmac, prk, info, offset, n)
      invariant n == iterations ==> output == Output(hmac, prk, info, offset, outputLen)
      decreases iterations - n
    {
      BlocksLength(hmac, prk, info, offset, n);
      step := hmac(prk, step + info + [i]);
      var stepSize := if remaining < |step| then remaining else |step|;
      output := output + step[..stepSize];
      remaining := remaining - stepSize;
      i := (i + 1) % 256;
      n := n + 1;
    }
    OutputChained(hmac, prk, info, offset, outputLen);
  }

  method Extract(hmac: HmacFunction, salt: Bytes, ikm: Bytes) returns (prk: Bytes)
    ensures prk == hmac(salt, ikm)
  {
    prk := hmac(salt, ikm);
  }

  method DeriveSecrets(hmac: HmacFunction, ikm: Bytes, salt: Bytes, info: Bytes, offset: Offset, outputLen: nat)
    returns (output: Bytes)
    requires IsHmac(hmac)
    requires Iterations(outputLen) + offset <= 255
    ensures |output| == outputLen && Chained(hmac, hmac(salt, ikm), info, offset, output)
    ensures output == Output(hmac, hmac(salt, ikm), info, offset, outputLen)
  {
    var prk := Extract(hmac, salt, ikm);
    output := Expand(hmac, prk, info, offset, outputLen);
  }

  /** Asking for fewer bytes yields a prefix of what asking for more yields. */
  lemma ShorterIsPrefix(hmac: HmacFunction, prk: Bytes, info: Bytes, offset: Offset, m: nat, n: nat)
    requires IsHmac(hmac) && m <= n
    ensures Output(hmac, prk, info, offset, m) <= Output(hmac, prk, info, offset, n)
  {
    BlocksLength(hmac, prk, info, offset, Iterations(m));
    BlocksLength(hmac, prk, info, offset, Iterations(n));
    BlocksPrefix(hmac, prk, info, offset, Iterations(m), Iterations(n));
  }
}
