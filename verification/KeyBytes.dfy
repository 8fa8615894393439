/**
 * What the key terms stand for.  The derivations of ratchet.c and sender_key.c
 * are followed on bytes, over hkdf.c, and each is proved to produce the bytes
 * of the term that the rest of the model derives.
 */
module KeyBytes {
  import opened Common
  import opened Octets
  import opened Terms
  import opened KeyWindow
  import opened Session
  import opened Ratchet
  import opened HkdfExpansion

  const RATCHET_CIPHER_KEY_LENGTH: nat := 32
  const RATCHET_MAC_KEY_LENGTH: nat := 32
  const RATCHET_IV_LENGTH: nat := 16

  /** The primitives: HMAC-SHA256, the shared point of two key pairs, and the random source. */
  datatype Primitives = Primitives(hmac: HmacFunction, shared: (nat, nat) -> Bytes, random: nat -> Bytes)

  ghost predicate Sound(f: Primitives) {
    IsHmac(f.hmac) && forall m, n :: |f.shared(m, n)| == 32
  }

  function Repeated(b: byte, n: nat): (r: Bytes)
    ensures |r| == n
  {
    seq(n, _ => b)
  }

  function Ascii(s: string): Bytes {
    seq(|s|, i requires 0 <= i < |s| => s[i] as int % 256)
  }

  /** How the output of a derivation is cut up: where part `part` starts, and how long it is. */
  function PartStart(info: Info, part: nat): nat {
    if info == WhisperGroup && part == 1 then 16 else 32 * part
  }

  function PartLength(info: Info, part: nat): nat {
    if (info == WhisperGroup && part == 0) || (info == WhisperMessageKeys && part == 2) then 16 else 32
  }

  function Label(info: Info): Bytes {
    match info
    case WhisperText => Ascii("WhisperText")
    case WhisperRatchet => Ascii("WhisperRatchet")
    case WhisperMessageKeys => Ascii("WhisperMessageKeys")
    case WhisperGroup => Ascii("WhisperGroup")
  }

  /** hkdf_create: the first counter value of a message version. */
  function OffsetOf(version: nat): Offset {
    if version == 2 then 0 else 1
  }

  /** The bytes of a term that is no derived key. */
  function Leaf(f: Primitives, t: Term): Bytes {
    match t
    case Zeros => Repeated(0, 32)
    case Discontinuity => Repeated(0xFF, 32)
    case Random(seed) => f.random(seed)
    case Shared(lo, hi) => f.shared(lo, hi)
    case _ => []
  }

  function Leaves(f: Primitives, parts: seq<Term>): Bytes {
    if parts == [] then [] else Leaf(f, parts[0]) + Leaves(f, parts[1..])
  }

  /** The bytes of a key term: a part of an expansion is a slice of the bytes that the expansion yields. */
  ghost function Meaning(f: Primitives, t: Term): Bytes
    requires Sound(f)
  {
    match t
    case Secret(parts) => Leaves(f, parts)
    case Hmac(key, input) => f.hmac(Meaning(f, key), [input % 256])
    case Hkdf(version, ikm, salt, info, part) =>
      var prk := f.hmac(Meaning(f, salt), Meaning(f, ikm));
      var end := PartStart(info, part) + PartLength(info, part);
      Output(f.hmac, prk, Label(info), OffsetOf(version), end)[PartStart(info, part)..]
    case _ => Leaf(f, t)
  }

  /** A slice does not depend on how much is derived behind it. */
  lemma SliceOfLonger(f: Primitives, prk: Bytes, info: Bytes, offset: Offset, start: nat, end: nat, n: nat)
    requires Sound(f) && start <= end <= n
    ensures Output(f.hmac, prk, info, offset, end)[start..] == Output(f.hmac, prk, info, offset, n)[start..end]
  {
    ShorterIsPrefix(f.hmac, prk, info, offset, end, n);
    hide Output;
    var a, b := Output(f.hmac, prk, info, offset, end), Output(f.hmac, prk, info, offset, n);
    assert a == b[..end];
  }

  /** The parts of one derivation, as slices of its output of `n` bytes. */
  lemma PartOf(f: Primitives, version: nat, ikm: Term, salt: Term, info: Info, part: nat, n: nat)
    requires Sound(f) && PartStart(info, part) + PartLength(info, part) <= n
    ensures
      var output := Output(f.hmac, f.hmac(Meaning(f, salt), Meaning(f, ikm)), Label(info), OffsetOf(version), n);
      Meaning(f, Hkdf(version, ikm, salt, info, part))
        == output[PartStart(info, part)..PartStart(info, part) + PartLength(info, part)]
  {
    hide Output, Label;
    var start := PartStart(info, part);
    SliceOfLonger(f, f.hmac(Meaning(f, salt), Meaning(f, ikm)), Label(info), OffsetOf(version), start,
      start + PartLength(info, part), n);
  }

  // ----- chain keys

  /** ratchet_chain_key_get_base_material */
  method GetBaseMaterial(f: Primitives, key: Bytes, seed: byte) returns (material: Bytes)
    ensures material == f.hmac(key, [seed])
  {
    material := f.hmac(key, [seed]);
  }

  /** ratchet_chain_key_create_next, and sender_chain_key_create_next: the bytes of the next chain key */
  method CreateNext(f: Primitives, key: Bytes, index: u32, ghost chain: ChainKey) returns (next: Bytes, nextIndex: u32)
    requires Sound(f) && key == Meaning(f, chain.key) && index == chain.index
    ensures next == Meaning(f, NextChainKey(chain).key) && nextIndex == NextChainKey(chain).index
    ensures next == f.hmac(key, [0x02])
  {
    next := GetBaseMaterial(f, key, 0x02);
    nextIndex := (index + 1) % 0x1_0000_0000;
  }

  /** ratchet_chain_key_get_message_keys */
  method GetMessageKeys(f: Primitives, version: nat, key: Bytes, ghost chain: ChainKey)
    returns (cipherKey: Bytes, macKey: Bytes, iv: Bytes)
    requires Sound(f) && (version == 2 || version == 3) && chain.profile == SessionProfile(version)
    requires key == Meaning(f, chain.key)
    ensures
      var keys := MessageKeyOf(chain).material;
      && cipherKey == Meaning(f, keys.cipherKey) && macKey == Meaning(f, keys.macKey) && iv == Meaning(f, keys.iv)
    ensures |cipherKey| == 32 && |macKey| == 32 && |iv| == 16
    ensures Chained(f.hmac, f.hmac(Repeated(0, 32), f.hmac(key, [0x01])), Ascii("WhisperMessageKeys"), version - 2,
                    cipherKey + macKey + iv)
  {
    hide Output, Chained;
    var material := GetBaseMaterial(f, key, 0x01);
    var offset: Offset := if version == 2 then 0 else 1;
    var salt := Repeated(0, 32);
    var output := DeriveSecrets(f.hmac, material, salt, Ascii("WhisperMessageKeys"), offset, 80);
    cipherKey := output[..RATCHET_CIPHER_KEY_LENGTH];
    macKey := output[RATCHET_CIPHER_KEY_LENGTH..RATCHET_CIPHER_KEY_LENGTH + RATCHET_MAC_KEY_LENGTH];
    iv := output[RATCHET_CIPHER_KEY_LENGTH + RATCHET_MAC_KEY_LENGTH..];
    assert output == cipherKey + macKey + iv;
    ghost var seed := Hmac(chain.key, MESSAGE_KEY_SEED);
    PartOf(f, version, seed, Zeros, WhisperMessageKeys, 0, 80);
    PartOf(f, version, seed, Zeros, WhisperMessageKeys, 1, 80);
    PartOf(f, version, seed, Zeros, WhisperMessageKeys, 2, 80);
  }

  /** sender_message_key_create, from the chain key's HMAC with the message-key seed */
  method GetSenderMessageKey(f: Primitives, key: Bytes, ghost chain: ChainKey)
    returns (iv: Bytes, cipherKey: Bytes, seed: Bytes)
    requires Sound(f) && chain.profile == GroupProfile && key == Meaning(f, chain.key)
    ensures
      var keys := MessageKeyOf(chain).material;
      && iv == Meaning(f, keys.groupIv) && cipherKey == Meaning(f, keys.groupCipherKey) && seed == Meaning(f, keys.seed)
    ensures |iv| == 16 && |cipherKey| == 32 && seed == f.hmac(key, [0x01])
    ensures Chained(f.hmac, f.hmac(Repeated(0, 32), seed), Ascii("WhisperGroup"), 1, iv + cipherKey)
  {
    hide Output;
    seed := GetBaseMaterial(f, key, 0x01);
    var salt := Repeated(0, 32);
    var derivative := DeriveSecrets(f.hmac, seed, salt, Ascii("WhisperGroup"), 1, 48);
    iv := derivative[..16];
    cipherKey := derivative[16..16 + 32];
    assert derivative == iv + cipherKey;
    ghost var term := Hmac(chain.key, MESSAGE_KEY_SEED);
    PartOf(f, 3, term, Zeros, WhisperGroup, 0, 48);
    PartOf(f, 3, term, Zeros, WhisperGroup, 1, 48);
  }

  // ----- root keys

  /** ratchet_root_key_create_chain, once the agreement is calculated */
  method CreateChainBytes(f: Primitives, version: nat, rootKey: Bytes, agreement: Bytes, ghost root: RootKey,
                          ghost theirs: PublicKey, ghost ours: PrivateKey)
    returns (newRoot: Bytes, newChain: Bytes)
    requires Sound(f) && (version == 2 || version == 3) && root.kdf == version
    requires rootKey == Meaning(f, root.key) && agreement == Meaning(f, Agree(theirs, ours))
    ensures
      var (nextRoot, nextChain) := CreateChain(root, theirs, ours);
      && newRoot == Meaning(f, nextRoot.key) && newChain == Meaning(f, nextChain.key)
      && nextRoot.kdf == version && nextChain.profile == SessionProfile(version) && nextChain.index == 0
    ensures |newRoot| == |newChain| == 32
    ensures Chained(f.hmac, f.hmac(rootKey, agreement), Ascii("WhisperRatchet"), version - 2, newRoot + newChain)
  {
    hide Output, Agree;
    var offset: Offset := if version == 2 then 0 else 1;
    var derived := DeriveSecrets(f.hmac, agreement, rootKey, Ascii("WhisperRatchet"), offset, 64);
    newRoot := derived[..32];
    newChain := derived[32..];
    assert derived == newRoot + newChain;
    PartOf(f, version, Agree(theirs, ours), root.key, WhisperRatchet, 0, 64);
    PartOf(f, version, Agree(theirs, ours), root.key, WhisperRatchet, 1, 64);
  }

  /** ratcheting_session_calculate_derived_keys */
  method CalculateDerivedKeys(f: Primitives, secret: Bytes, ghost term: Term) returns (root: Bytes, chain: Bytes)
    requires Sound(f) && secret == Meaning(f, term)
    ensures root == Meaning(f, DerivedRoot(term).key) && chain == Meaning(f, DerivedChain(term).key)
    ensures |root| == |chain| == 32
    ensures Chained(f.hmac, f.hmac(Repeated(0, 32), secret), Ascii("WhisperText"), 1, root + chain)
  {
    hide Output;
    var salt := Repeated(0, 32);
    var output := DeriveSecrets(f.hmac, secret, salt, Ascii("WhisperText"), 1, 64);
    root := output[..32];
    chain := output[32..];
    assert output == root + chain;
    PartOf(f, 3, term, Zeros, WhisperText, 0, 64);
    PartOf(f, 3, term, Zeros, WhisperText, 1, 64);
  }

  // ----- secrets

  /** curve_calculate_agreement, on the shared point that the two keys determine */
  method CalculateAgreement(f: Primitives, theirs: PublicKey, ours: PrivateKey) returns (agreement: Bytes)
    requires Sound(f)
    ensures agreement == Meaning(f, Agree(theirs, ours)) == Leaf(f, Agree(theirs, ours)) && |agreement| == 32
  {
    agreement := Leaf(f, Agree(theirs, ours));
  }

  lemma {:induction false} LeavesAppend(f: Primitives, parts: seq<Term>, t: Term)
    ensures Leaves(f, parts + [t]) == Leaves(f, parts) + Leaf(f, t)
  {
    if parts == [] {
      assert [t][1..] == [];
    } else {
      assert (parts + [t])[1..] == parts[1..] + [t];
      LeavesAppend(f, parts[1..], t);
    }
  }

  /** The next agreement, appended to the secret. */
  method AppendAgreement(f: Primitives, secret: Bytes, ghost parts: seq<Term>, theirs: PublicKey, ours: PrivateKey)
    returns (secret': Bytes, ghost parts': seq<Term>)
    requires Sound(f) && secret == Leaves(f, parts)
    ensures parts' == parts + [Agree(theirs, ours)] && secret' == Leaves(f, parts') && |secret'| == |secret| + 32
  {
    var agreement := CalculateAgreement(f, theirs, ours);
    secret' := secret + agreement;
    parts' := parts + [Agree(theirs, ours)];
    LeavesAppend(f, parts, Agree(theirs, ours));
  }

  /** The secret of ratcheting_session_alice_initialize */
  method AliceSecretBytes(f: Primitives, p: AliceParameters) returns (secret: Bytes)
    requires Sound(f)
    ensures secret == Meaning(f, AliceSecret(p))
    ensures |secret| == if p.theirOneTimePreKey.Some? then 160 else 128
  {
    hide Agree;
    ghost var parts := [Discontinuity];
    secret := Repeated(0xFF, 32);
    assert parts[1..] == [];
    secret, parts := AppendAgreement(f, secret, parts, p.theirSignedPreKey, p.ourIdentity.priv);
    secret, parts := AppendAgreement(f, secret, parts, p.theirIdentity, p.ourBase.priv);
    secret, parts := AppendAgreement(f, secret, parts, p.theirSignedPreKey, p.ourBase.priv);
    if p.theirOneTimePreKey.Some? {
      secret, parts := AppendAgreement(f, secret, parts, p.theirOneTimePreKey.value, p.ourBase.priv);
    }
    hide Leaves;
    assert Secret(parts) == AliceSecret(p);
  }

  /** The secret of ratcheting_session_bob_initialize */
  method BobSecretBytes(f: Primitives, p: BobParameters) returns (secret: Bytes)
    requires Sound(f)
    ensures secret == Meaning(f, BobSecret(p))
    ensures |secret| == if p.ourOneTimePreKey.Some? then 160 else 128
  {
    hide Agree;
    ghost var parts := [Discontinuity];
    secret := Repeated(0xFF, 32);
    assert parts[1..] == [];
    secret, parts := AppendAgreement(f, secret, parts, p.theirIdentity, p.ourSignedPreKey.priv);
    secret, parts := AppendAgreement(f, secret, parts, p.theirBase, p.ourIdentity.priv);
    secret, parts := AppendAgreement(f, secret, parts, p.theirBase, p.ourSignedPreKey.priv);
    if p.ourOneTimePreKey.Some? {
      secret, parts := AppendAgreement(f, secret, parts, p.theirBase, p.ourOneTimePreKey.value.priv);
    }
    hide Leaves;
    assert Secret(parts) == BobSecret(p);
  }
}
