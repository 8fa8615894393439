/**
 * The session state of session_state.c as a value, the operations on its
 * receiving chains, and the copy the library makes by serialising a state and
 * deserialising it again.
 */
module Session {
  import opened Common
  import opened Terms
  import opened KeyWindow

  const MAX_RECEIVER_CHAINS: nat := 5

  datatype RootKey = RootKey(kdf: nat, key: Term)

  datatype SenderChain = SenderChain(
    ratchetPair: Option<KeyPair>, chainKey: Option<ChainKey>, messageKeys: seq<MessageKey>)

  /** A receiving chain: the peer's ratchet key, the chain key and the skipped keys. */
  datatype ReceiverChain = ReceiverChain(ratchetKey: PublicKey, window: Window)

  datatype PendingKeyExchange = PendingKeyExchange(
    sequence: u32, baseKey: KeyPair, ratchetKey: KeyPair, identityKey: KeyPair)

  datatype PendingPreKey = PendingPreKey(preKeyId: Option<u32>, signedPreKeyId: u32, baseKey: PublicKey)

  datatype State = State(
    version: u32,
    localIdentity: Option<PublicKey>,
    remoteIdentity: Option<PublicKey>,
    rootKey: Option<RootKey>,
    previousCounter: u32,
    senderChain: Option<SenderChain>,
    receiverChains: seq<ReceiverChain>,
    pendingKeyExchange: Option<PendingKeyExchange>,
    pendingPreKey: Option<PendingPreKey>,
    remoteRegistrationId: u32,
    localRegistrationId: u32,
    needsRefresh: bool,
    aliceBaseKey: Option<PublicKey>)

  /** A newly created, uninitialised state. */
  const FRESH: State := State(2, None, None, None, 0, None, [], None, None, 0, 0, false, None)

  /** Position of the first chain with this ratchet key, or the length if there is none. */
  function FindChain(chains: seq<ReceiverChain>, key: PublicKey): (i: nat)
    ensures i <= |chains|
    ensures forall j :: 0 <= j < i ==> chains[j].ratchetKey != key
    ensures i < |chains| ==> chains[i].ratchetKey == key
  {
    if chains == [] || chains[0].ratchetKey == key then 0 else 1 + FindChain(chains[1..], key)
  }

  function AddReceiverChain(chains: seq<ReceiverChain>, key: PublicKey, chainKey: ChainKey): seq<ReceiverChain> {
    var all := chains + [ReceiverChain(key, Window(chainKey, []))];
    if |all| > MAX_RECEIVER_CHAINS then all[|all| - MAX_RECEIVER_CHAINS..] else all
  }

  /** Replacing the sending chain keeps whatever its key list held. */
  function SetSenderChain(s: State, pair: KeyPair, chainKey: ChainKey): State {
    var kept := if s.senderChain.Some? then s.senderChain.value.messageKeys else [];
    s.(senderChain := Some(SenderChain(Some(pair), Some(chainKey), kept)))
  }

  // ----- serialisation

  datatype ChainKeyStructure = ChainKeyStructure(index: u32, key: Term)

  datatype MessageKeyStructure = MessageKeyStructure(index: u32, cipherKey: Term, macKey: Term, iv: Term)

  datatype ChainStructure = ChainStructure(
    senderRatchetKey: Option<PublicKey>,
    senderRatchetKeyPrivate: Option<PrivateKey>,
    chainKey: Option<ChainKeyStructure>,
    messageKeys: seq<MessageKeyStructure>)

  datatype SessionStructure = SessionStructure(
    sessionVersion: u32,
    localIdentityPublic: Option<PublicKey>,
    remoteIdentityPublic: Option<PublicKey>,
    rootKey: Option<Term>,
    previousCounter: u32,
    senderChain: Option<ChainStructure>,
    receiverChains: seq<ChainStructure>,
    pendingKeyExchange: Option<PendingKeyExchange>,
    pendingPreKey: Option<PendingPreKey>,
    remoteRegistrationId: u32,
    localRegistrationId: u32,
    needsRefresh: bool,
    aliceBaseKey: Option<PublicKey>)

  /** Session states hold session message keys only. */
  ghost predicate WellTyped(s: State) {
    && (s.senderChain.Some? ==> forall k | k in s.senderChain.value.messageKeys :: k.material.SessionKeys?)
    && (forall c | c in s.receiverChains :: ChainWellTyped(c))
  }

  ghost predicate ChainWellTyped(c: ReceiverChain) {
    forall k | k in c.window.skipped :: k.material.SessionKeys?
  }

  function SerializeKey(k: MessageKey): MessageKeyStructure
    requires k.material.SessionKeys?
  {
    MessageKeyStructure(k.counter, k.material.cipherKey, k.material.macKey, k.material.iv)
  }

  function SerializeKeys(keys: seq<MessageKey>): seq<MessageKeyStructure>
    requires forall k | k in keys :: k.material.SessionKeys?
  {
    seq(|keys|, i requires 0 <= i < |keys| => SerializeKey(keys[i]))
  }

  function SerializeChainKey(c: ChainKey): ChainKeyStructure {
    ChainKeyStructure(c.index, c.key)
  }

  function SerializeSenderChain(c: SenderChain): ChainStructure
    requires forall k | k in c.messageKeys :: k.material.SessionKeys?
  {
    ChainStructure(
      if c.ratchetPair.Some? then Some(c.ratchetPair.value.pub) else None,
      if c.ratchetPair.Some? then Some(c.ratchetPair.value.priv) else None,
      if c.chainKey.Some? then Some(SerializeChainKey(c.chainKey.value)) else None,
      SerializeKeys(c.messageKeys))
  }

  function SerializeReceiverChain(c: ReceiverChain): ChainStructure
    requires ChainWellTyped(c)
  {
    ChainStructure(Some(c.ratchetKey), None, Some(SerializeChainKey(c.window.chain)), SerializeKeys(c.window.skipped))
  }

  function SerializeReceiverChains(chains: seq<ReceiverChain>): seq<ChainStructure>
    requires forall c | c in chains :: ChainWellTyped(c)
  {
    if chains == [] then [] else
      assert forall c | c in chains[1..] :: c in chains;
      [SerializeReceiverChain(chains[0])] + SerializeReceiverChains(chains[1..])
  }

  function Serialize(s: State): SessionStructure
    requires WellTyped(s)
  {
    SessionStructure(
      s.version, s.localIdentity, s.remoteIdentity,
      if s.rootKey.Some? then Some(s.rootKey.value.key) else None,
      s.previousCounter,
      if s.senderChain.Some? then Some(SerializeSenderChain(s.senderChain.value)) else None,
      SerializeReceiverChains(s.receiverChains),
      s.pendingKeyExchange, s.pendingPreKey,
      s.remoteRegistrationId, s.localRegistrationId, s.needsRefresh, s.aliceBaseKey)
  }

  /** Key derivation contexts exist for message versions 2 and 3 only. */
  predicate KdfVersion(version: u32) {
    version == 2 || version == 3
  }

  function DeserializeKeys(keys: seq<MessageKeyStructure>): seq<MessageKey> {
    seq(|keys|, i requires 0 <= i < |keys| =>
      MessageKey(keys[i].index, SessionKeys(keys[i].cipherKey, keys[i].macKey, keys[i].iv)))
  }

  /**
   * The sending chain, rebuilt without its message keys.  A chain key whose
   * derivation context cannot be made leaves an empty chain behind: the caller
   * ignores the error.
   */
  function DeserializeSenderChain(version: u32, c: ChainStructure): SenderChain {
    if c.chainKey.Some? && !KdfVersion(version) then
      SenderChain(None, None, [])
    else
      SenderChain(
        if c.senderRatchetKey.Some? && c.senderRatchetKeyPrivate.Some?
        then Some(KeyPair(c.senderRatchetKey.value, c.senderRatchetKeyPrivate.value)) else None,
        if c.chainKey.Some?
        then Some(ChainKey(SessionProfile(version), c.chainKey.value.key, c.chainKey.value.index)) else None,
        [])
  }

  function DeserializeReceiverChain(version: u32, c: ChainStructure): Result<ReceiverChain> {
    if c.senderRatchetKey.None? || c.chainKey.None? then
      Err(InvalidProtoBuf)
    else if !KdfVersion(version) then
      Err(InvalidArgument)
    else
      Ok(ReceiverChain(c.senderRatchetKey.value,
        Window(ChainKey(SessionProfile(version), c.chainKey.value.key, c.chainKey.value.index),
               DeserializeKeys(c.messageKeys))))
  }

  function DeserializeReceiverChains(version: u32, chains: seq<ChainStructure>): Result<seq<ReceiverChain>> {
    if chains == [] then
      Ok([])
    else
      var first :- DeserializeReceiverChain(version, chains[0]);
      var rest :- DeserializeReceiverChains(version, chains[1..]);
      Ok([first] + rest)
  }

  function Deserialize(t: SessionStructure): Result<State> {
    if t.rootKey.Some? && !KdfVersion(t.sessionVersion) then
      Err(InvalidArgument)
    else
      var chains :- DeserializeReceiverChains(t.sessionVersion, t.receiverChains);
      Ok(State(
        t.sessionVersion, t.localIdentityPublic, t.remoteIdentityPublic,
        if t.rootKey.Some? then Some(RootKey(t.sessionVersion, t.rootKey.value)) else None,
        t.previousCounter,
        if t.senderChain.Some? then Some(DeserializeSenderChain(t.sessionVersion, t.senderChain.value)) else None,
        chains,
        t.pendingKeyExchange, t.pendingPreKey,
        t.remoteRegistrationId, t.localRegistrationId, t.needsRefresh, t.aliceBaseKey))
  }

  function Copy(s: State): Result<State>
    requires WellTyped(s)
  {
    Deserialize(Serialize(s))
  }

  /** Each field of the structure holds the field of that name. */
  lemma SerializedFields(s: State)
    requires WellTyped(s)
    ensures
      var t := Serialize(s);
      && t.sessionVersion == s.version && t.previousCounter == s.previousCounter
      && t.localIdentityPublic == s.localIdentity && t.remoteIdentityPublic == s.remoteIdentity
      && t.localRegistrationId == s.localRegistrationId && t.remoteRegistrationId == s.remoteRegistrationId
      && t.needsRefresh == s.needsRefresh && t.aliceBaseKey == s.aliceBaseKey
      && (s.rootKey.Some? ==> t.rootKey == Some(s.rootKey.value.key))
      && |t.receiverChains| == |s.receiverChains|
    ensures
      var t := Serialize(s);
      forall i :: 0 <= i < |s.receiverChains| ==>
        var c, d := s.receiverChains[i], t.receiverChains[i];
        && d.senderRatchetKey == Some(c.ratchetKey)
        && d.chainKey == Some(ChainKeyStructure(c.window.chain.index, c.window.chain.key))
        && |d.messageKeys| == |c.window.skipped|
        && forall j :: 0 <= j < |c.window.skipped| ==>
             var k := c.window.skipped[j];
             k.material.SessionKeys? &&
             d.messageKeys[j] == MessageKeyStructure(k.counter, k.material.cipherKey, k.material.macKey, k.material.iv)
  {
    SerializedChains(s.receiverChains);
    forall i | 0 <= i < |s.receiverChains|
      ensures ChainWellTyped(s.receiverChains[i])
    {
      assert s.receiverChains[i] in s.receiverChains;
    }
  }

  lemma {:induction false} SerializedChains(chains: seq<ReceiverChain>)
    requires forall c | c in chains :: ChainWellTyped(c)
    ensures |SerializeReceiverChains(chains)| == |chains|
    ensures forall i :: 0 <= i < |chains| ==>
              ChainWellTyped(chains[i]) && SerializeReceiverChains(chains)[i] == SerializeReceiverChain(chains[i])
  {
    if chains != [] {
      assert forall c | c in chains[1..] :: c in chains;
      assert chains[0] in chains;
      SerializedChains(chains[1..]);
    }
  }

  // ----- when the copy is faithful

  predicate CanonicalChainKey(s: State, c: ChainKey) {
    KdfVersion(s.version) && c.profile == SessionProfile(s.version)
  }

  /** Every derivation context matches the session version; the sending chain caches nothing. */
  predicate Canonical(s: State) {
    && (s.rootKey.Some? ==> KdfVersion(s.version) && s.rootKey.value.kdf == s.version)
    && (s.senderChain.Some? ==>
          && s.senderChain.value.messageKeys == []
          && (s.senderChain.value.chainKey.Some? ==> CanonicalChainKey(s, s.senderChain.value.chainKey.value)))
    && (forall c | c in s.receiverChains :: CanonicalChainKey(s, c.window.chain))
  }

  lemma KeysRoundTrip(keys: seq<MessageKey>)
    requires forall k | k in keys :: k.material.SessionKeys?
    ensures DeserializeKeys(SerializeKeys(keys)) == keys
  {
  }

  lemma {:induction false} ReceiverChainsRoundTrip(version: u32, chains: seq<ReceiverChain>)
    requires forall c | c in chains :: ChainWellTyped(c)
    ensures DeserializeReceiverChains(version, SerializeReceiverChains(chains)) == Ok(chains)
            <==> forall c | c in chains :: KdfVersion(version) && c.window.chain.profile == SessionProfile(version)
  {
    if chains != [] {
      assert forall c :: c in chains <==> c == chains[0] || c in chains[1..];
      assert ChainWellTyped(chains[0]);
      ReceiverChainsRoundTrip(version, chains[1..]);
      KeysRoundTrip(chains[0].window.skipped);
      assert SerializeReceiverChains(chains)[1..] == SerializeReceiverChains(chains[1..]);
      var first := DeserializeReceiverChain(version, SerializeReceiverChain(chains[0]));
      var rest := DeserializeReceiverChains(version, SerializeReceiverChains(chains[1..]));
      if first.Ok? && rest.Ok? {
        assert chains == [chains[0]] + chains[1..];
        assert ([first.value] + rest.value)[1..] == rest.value;
      }
    }
  }

  /** The copy equals the original exactly for canonical states. */
  lemma CopyIsIdentity(s: State)
    requires WellTyped(s)
    ensures Copy(s) == Ok(s) <==> Canonical(s)
  {
    ReceiverChainsRoundTrip(s.version, s.receiverChains);
  }
}
