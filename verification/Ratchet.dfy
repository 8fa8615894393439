/**
 * Root-key ratchet steps and the three ways of initialising a session
 * (ratchet.c).
 */
module Ratchet {
  import opened Common
  import opened Terms
  import opened KeyWindow
  import opened Session

  const CURRENT_VERSION: u32 := 3

  /** One ratchet step: the new root key and the chain it starts. */
  function CreateChain(root: RootKey, theirKey: PublicKey, ourKey: PrivateKey): (RootKey, ChainKey) {
    var shared := Agree(theirKey, ourKey);
    (RootKey(root.kdf, Hkdf(root.kdf, shared, root.key, WhisperRatchet, 0)),
     ChainKey(SessionProfile(root.kdf), Hkdf(root.kdf, shared, root.key, WhisperRatchet, 1), 0))
  }

  function DerivedRoot(secret: Term): RootKey {
    RootKey(CURRENT_VERSION, Hkdf(CURRENT_VERSION, secret, Zeros, WhisperText, 0))
  }

  function DerivedChain(secret: Term): ChainKey {
    ChainKey(SessionProfile(CURRENT_VERSION), Hkdf(CURRENT_VERSION, secret, Zeros, WhisperText, 1), 0)
  }

  datatype AliceParameters = AliceParameters(
    ourIdentity: KeyPair, ourBase: KeyPair, theirIdentity: PublicKey,
    theirSignedPreKey: PublicKey, theirOneTimePreKey: Option<PublicKey>, theirRatchetKey: PublicKey)

  datatype BobParameters = BobParameters(
    ourIdentity: KeyPair, ourSignedPreKey: KeyPair, ourOneTimePreKey: Option<KeyPair>, ourRatchetKey: KeyPair,
    theirIdentity: PublicKey, theirBase: PublicKey)

  datatype SymmetricParameters = SymmetricParameters(
    ourIdentity: KeyPair, ourBase: KeyPair, ourRatchetKey: KeyPair,
    theirBase: PublicKey, theirRatchetKey: PublicKey, theirIdentity: PublicKey)

  function AliceSecret(p: AliceParameters): Term {
    Secret([Discontinuity,
            Agree(p.theirSignedPreKey, p.ourIdentity.priv),
            Agree(p.theirIdentity, p.ourBase.priv),
            Agree(p.theirSignedPreKey, p.ourBase.priv)]
           + if p.theirOneTimePreKey.Some? then [Agree(p.theirOneTimePreKey.value, p.ourBase.priv)] else [])
  }

  function BobSecret(p: BobParameters): Term {
    Secret([Discontinuity,
            Agree(p.theirIdentity, p.ourSignedPreKey.priv),
            Agree(p.theirBase, p.ourIdentity.priv),
            Agree(p.theirBase, p.ourSignedPreKey.priv)]
           + if p.ourOneTimePreKey.Some? then [Agree(p.theirBase, p.ourOneTimePreKey.value.priv)] else [])
  }

  /** `sending` is the ratchet key pair Alice generates. */
  function AliceInitialize(s: State, p: AliceParameters, sending: KeyPair): State {
    var secret := AliceSecret(p);
    var (root, chain) := CreateChain(DerivedRoot(secret), p.theirRatchetKey, sending.priv);
    SetSenderChain(
      s.(version := CURRENT_VERSION,
         remoteIdentity := Some(p.theirIdentity),
         localIdentity := Some(p.ourIdentity.pub),
         receiverChains := AddReceiverChain(s.receiverChains, p.theirRatchetKey, DerivedChain(secret)),
         rootKey := Some(root)),
      sending, chain)
  }

  function BobInitialize(s: State, p: BobParameters): State {
    var secret := BobSecret(p);
    SetSenderChain(
      s.(version := CURRENT_VERSION,
         remoteIdentity := Some(p.theirIdentity),
         localIdentity := Some(p.ourIdentity.pub),
         rootKey := Some(DerivedRoot(secret))),
      p.ourRatchetKey, DerivedChain(secret))
  }

  /** Some order of the key bytes. */
  predicate KeyLess(a: PublicKey, b: PublicKey) {
    || a.id < b.id
    || (a.id == b.id && a.form < b.form)
    || (a.id == b.id && a.form == b.form && !a.small && b.small)
  }

  predicate SymmetricIsAlice(p: SymmetricParameters) {
    KeyLess(p.ourBase.pub, p.theirBase)
  }

  /** The parameters of the role that the base keys decide. */
  function AsAlice(p: SymmetricParameters): AliceParameters {
    AliceParameters(p.ourIdentity, p.ourBase, p.theirIdentity, p.theirBase, None, p.theirRatchetKey)
  }

  function AsBob(p: SymmetricParameters): BobParameters {
    BobParameters(p.ourIdentity, p.ourBase, None, p.ourRatchetKey, p.theirIdentity, p.theirBase)
  }

  function SymmetricSecret(p: SymmetricParameters): Term {
    if SymmetricIsAlice(p) then AliceSecret(AsAlice(p)) else BobSecret(AsBob(p))
  }

  function SymmetricInitialize(s: State, p: SymmetricParameters, sending: KeyPair): State {
    if SymmetricIsAlice(p) then AliceInitialize(s, AsAlice(p), sending) else BobInitialize(s, AsBob(p))
  }

  // ----- agreement

  /** A pair that the library generated. */
  predicate Proper(pair: KeyPair) {
    pair == GeneratePair(pair.priv.id)
  }

  /** A state no session has been set up in: it has no chains yet. */
  predicate Blank(s: State) {
    s.senderChain.None? && s.receiverChains == [] && s.previousCounter == 0
  }

  /**
   * Two sessions ready to talk: the responder `b` sends on the chain `a` expects
   * for ratchet key `k0`, and `a` has taken one ratchet step, to its own `k1`,
   * from the responder's root key.
   */
  ghost predicate Matched(a: State, b: State, k0: KeyPair, k1: KeyPair) {
    && a.version == b.version == CURRENT_VERSION && a.previousCounter == b.previousCounter == 0
    && a.localIdentity.Some? && b.localIdentity.Some?
    && a.remoteIdentity == b.localIdentity && b.remoteIdentity == a.localIdentity
    && b.rootKey.Some? && b.rootKey.value.kdf == CURRENT_VERSION
    && b.receiverChains == []
    && b.senderChain.Some?
    && b.senderChain.value.chainKey.Some?
    && b.senderChain.value == SenderChain(Some(k0), b.senderChain.value.chainKey, [])
    && var secret := b.rootKey.value.key;
       var chain := b.senderChain.value.chainKey.value;
       && secret.Hkdf? && secret.info == WhisperText && secret.part == 0
       && chain == ChainKey(SessionProfile(CURRENT_VERSION), secret.(part := 1), 0)
       && a.receiverChains == [ReceiverChain(k0.pub, Window(chain, []))]
       && var step := CreateChain(b.rootKey.value, k1.pub, k0.priv);
          && a.rootKey == Some(step.0)
          && a.senderChain == Some(SenderChain(Some(k1), Some(step.1), []))
  }

  /** X3DH: with or without a one-time pre key, both sides derive matching sessions. */
  lemma X3dhAgreement(alice: State, bob: State, identityA: KeyPair, base: KeyPair, ratchetA: KeyPair,
                      identityB: KeyPair, signed: KeyPair, oneTime: Option<KeyPair>)
    requires Blank(alice) && Blank(bob)
    requires Proper(identityA) && Proper(base) && Proper(ratchetA) && Proper(identityB) && Proper(signed)
    requires oneTime.Some? ==> Proper(oneTime.value)
    ensures
      var pa := AliceParameters(identityA, base, identityB.pub, signed.pub,
                                if oneTime.Some? then Some(oneTime.value.pub) else None, signed.pub);
      var pb := BobParameters(identityB, signed, oneTime, signed, identityA.pub, base.pub);
      && AliceSecret(pa) == BobSecret(pb)
      && Matched(AliceInitialize(alice, pa, ratchetA), BobInitialize(bob, pb), signed, ratchetA)
  {
  }

  /** Symmetric initialisation: opposite roles exactly when the base keys differ, and then matching sessions. */
  lemma SymmetricAgreement(s1: State, s2: State, identity1: KeyPair, base1: KeyPair, ratchet1: KeyPair,
                           identity2: KeyPair, base2: KeyPair, ratchet2: KeyPair, sending1: KeyPair, sending2: KeyPair)
    requires Blank(s1) && Blank(s2)
    requires Proper(identity1) && Proper(base1) && Proper(ratchet1) && Proper(sending1)
    requires Proper(identity2) && Proper(base2) && Proper(ratchet2) && Proper(sending2)
    ensures
      var p1 := SymmetricParameters(identity1, base1, ratchet1, base2.pub, ratchet2.pub, identity2.pub);
      var p2 := SymmetricParameters(identity2, base2, ratchet2, base1.pub, ratchet1.pub, identity1.pub);
      && (SymmetricIsAlice(p1) != SymmetricIsAlice(p2) <==> base1 != base2)
      && (SymmetricIsAlice(p1) ==>
            Matched(SymmetricInitialize(s1, p1, sending1), SymmetricInitialize(s2, p2, sending2), ratchet2, sending1))
      && (SymmetricIsAlice(p2) ==>
            Matched(SymmetricInitialize(s2, p2, sending2), SymmetricInitialize(s1, p1, sending1), ratchet1, sending2))
  {
  }
}
