/**
 * Symbolic key material.  Every key derivation is a constructor of one free
 * datatype, so two derived keys are equal only when they were derived in the
 * same way from the same inputs.  Curve agreement is the one exception: it
 * commutes, which `Agree` gets by ordering the two key ids, and it does not see
 * all of a public key.
 */
module Terms {
  /**
   * A public key as it is sent and compared: its bytes.  Agreement sees less of
   * it.  Keys with equal `id` and different `form` are encodings that it treats
   * alike, such as two that differ in the top bit only; the library encodes the
   * keys it generates in form 0.  A key whose point has small order (`small`)
   * agrees with every private key on zero.
   */
  datatype PublicKey = PublicKey(id: nat, form: nat := 0, small: bool := false)
  datatype PrivateKey = PrivateKey(id: nat)
  datatype KeyPair = KeyPair(pub: PublicKey, priv: PrivateKey)

  /** The pair the random source yields on its `id`-th draw. */
  function GeneratePair(id: nat): KeyPair {
    KeyPair(PublicKey(id), PrivateKey(id))
  }

  /** The info strings of the library's HKDF calls. */
  datatype Info = WhisperText | WhisperRatchet | WhisperMessageKeys | WhisperGroup

  datatype Term =
    | Zeros                                   // 32 zero bytes
    | Discontinuity                           // 32 bytes of 0xFF
    | Random(seed: nat)                       // output of the random source
    | Shared(lo: nat, hi: nat)                // curve agreement of two key pairs
    | Secret(parts: seq<Term>)                // concatenated X3DH input
    | Hmac(key: Term, input: nat)             // HMAC of a one-byte input
    | Hkdf(version: nat, ikm: Term, salt: Term, info: Info, part: nat)

  function Agree(pub: PublicKey, priv: PrivateKey): Term {
    if pub.small then Zeros
    else if pub.id <= priv.id then Shared(pub.id, priv.id) else Shared(priv.id, pub.id)
  }

  /** Agreement cannot tell the two keys apart. */
  predicate SamePoint(a: PublicKey, b: PublicKey) {
    a.small == b.small && (a.small || a.id == b.id)
  }

  /** Agreement commutes on generated keys, and determines the other side's point, but not its encoding. */
  lemma AgreeFacts(a: PublicKey, b: PublicKey, m: nat, n: nat)
    ensures Agree(PublicKey(m), PrivateKey(n)) == Agree(PublicKey(n), PrivateKey(m))
    ensures Agree(a, PrivateKey(n)) == Agree(b, PrivateKey(n)) <==> SamePoint(a, b)
  {
  }

  const MESSAGE_KEY_SEED: nat := 0x01
  const CHAIN_KEY_SEED: nat := 0x02

  /** The chain key reached from `base` by `n` chain steps. */
  function Advance(base: Term, n: nat): Term {
    if n == 0 then base else Hmac(Advance(base, n - 1), CHAIN_KEY_SEED)
  }

  lemma {:induction false} AdvanceInjective(a: Term, m: nat, b: Term, n: nat)
    requires !a.Hmac? && !b.Hmac?
    requires Advance(a, m) == Advance(b, n)
    ensures a == b && m == n
  {
    if m > 0 && n > 0 {
      AdvanceInjective(a, m - 1, b, n - 1);
    }
  }
}
