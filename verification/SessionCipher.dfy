/**
 * Encryption and decryption with one session state (session_cipher.c), and
 * the messages they exchange (protocol.c), over symbolic ciphertexts and MACs.
 */
module SessionCipher {
  import opened Common
  import opened Terms
  import opened KeyWindow
  import opened Session
  import opened Ratchet

  datatype Mode = Cbc(iv: Term) | Ctr(counter: u32)

  datatype Body = Encrypted(mode: Mode, key: Term, plaintext: Plaintext) | Garbage(id: nat)

  /** The serialised part of a message that its MAC covers. */
  datatype Content = Content(version: u32, ratchetKey: PublicKey, counter: u32, previousCounter: u32, body: Body)

  /** `ends` holds the sender's and the receiver's identity key from version 3 on. */
  datatype Tag = Mac(macKey: Term, ends: Option<(PublicKey, PublicKey)>, content: Content) | Junk(id: nat)

  datatype Message = Message(content: Content, tag: Tag)

  datatype Ciphertext =
    | SignalMessage(message: Message)
    | PreKeySignalMessage(
        version: u32, registrationId: u32, preKeyId: Option<u32>, signedPreKeyId: u32,
        baseKey: PublicKey, identityKey: PublicKey, message: Message)

  function ModeOf(version: u32, key: MessageKey): Mode
    requires key.material.SessionKeys?
  {
    if version >= 3 then Cbc(key.material.iv) else Ctr(key.counter)
  }

  function EncryptBody(version: u32, key: MessageKey, plaintext: Plaintext): Body
    requires key.material.SessionKeys?
  {
    Encrypted(ModeOf(version, key), key.material.cipherKey, plaintext)
  }

  function DecryptBody(version: u32, key: MessageKey, body: Body): Result<Plaintext>
    requires key.material.SessionKeys?
  {
    if body.Encrypted? && body.mode == ModeOf(version, key) && body.key == key.material.cipherKey then
      Ok(body.plaintext)
    else
      Err(Unknown)
  }

  function MacOf(macKey: Term, sender: PublicKey, receiver: PublicKey, content: Content): Tag {
    Mac(macKey, if content.version >= 3 then Some((sender, receiver)) else None, content)
  }

  function Encrypt(s: State, plaintext: Plaintext): Result<(State, Ciphertext)> {
    if s.senderChain.None? || s.senderChain.value.chainKey.None? then Err(Unknown)
    else if s.senderChain.value.ratchetPair.None? then Err(Unknown)
    else if s.localIdentity.None? || s.remoteIdentity.None? then Err(Unknown)
    else
      var sender := s.senderChain.value;
      var chain := sender.chainKey.value;
      var key := MessageKeyOf(chain);
      if !key.material.SessionKeys? then Err(Unknown)
      else
        var content := Content(s.version, sender.ratchetPair.value.pub, chain.index, s.previousCounter,
                               EncryptBody(s.version, key, plaintext));
        var message := Message(content,
          MacOf(key.material.macKey, s.localIdentity.value, s.remoteIdentity.value, content));
        var ciphertext :=
          if s.pendingPreKey.Some? then
            PreKeySignalMessage(s.version, s.localRegistrationId, s.pendingPreKey.value.preKeyId,
              s.pendingPreKey.value.signedPreKeyId, s.pendingPreKey.value.baseKey, s.localIdentity.value, message)
          else
            SignalMessage(message);
        Ok((s.(senderChain := Some(sender.(chainKey := Some(NextChainKey(chain))))), ciphertext))
  }

  /** The state with a receiving chain for `theirs`, and the position of that chain. */
  function GetOrCreateChain(s: State, theirs: PublicKey, ours: KeyPair): Result<(State, nat)> {
    var i := FindChain(s.receiverChains, theirs);
    if i < |s.receiverChains| then
      Ok((s, i))
    else if s.rootKey.None? || s.senderChain.None? || s.senderChain.value.ratchetPair.None? then
      Err(Unknown)
    else
      var (receiverRoot, receiverChain) :=
        CreateChain(s.rootKey.value, theirs, s.senderChain.value.ratchetPair.value.priv);
      var (senderRoot, senderChain) := CreateChain(receiverRoot, theirs, ours.priv);
      var chains := AddReceiverChain(s.receiverChains, theirs, receiverChain);
      if s.senderChain.value.chainKey.None? then
        Err(Unknown)
      else
        var index := s.senderChain.value.chainKey.value.index;
        var stepped := SetSenderChain(
          s.(rootKey := Some(senderRoot), receiverChains := chains,
             previousCounter := if index > 0 then index - 1 else index),
          ours, senderChain);
        Ok((stepped, |chains| - 1))
  }

  /** `ours` is the key pair generated if the message starts a new receiving chain. */
  function DecryptFromState(s: State, m: Message, ours: KeyPair): Result<(State, Plaintext)> {
    if s.senderChain.None? then Err(InvalidMessage)
    else if m.content.version != s.version then Err(InvalidMessage)
    else
      var (found, i) :- GetOrCreateChain(s, m.content.ratchetKey, ours);
      var (window, key) :- Take(found.receiverChains[i].window, m.content.counter);
      if s.remoteIdentity.None? || s.localIdentity.None? then Err(Unknown)
      else if !key.material.SessionKeys? then Err(Unknown)
      else if m.tag != MacOf(key.material.macKey, s.remoteIdentity.value, s.localIdentity.value, m.content) then
        Err(InvalidMessage)
      else
        var plaintext :- DecryptBody(m.content.version, key, m.content.body);
        var chains := found.receiverChains[i := found.receiverChains[i].(window := window)];
        Ok((found.(receiverChains := chains, pendingPreKey := None), plaintext))
  }

  // ----- any state, at any version

  /** A body opens under the key it was made under and no other: the IV counts from version 3 on, the counter before. */
  lemma BodyOpensExactly(version: u32, key: MessageKey, version': u32, key': MessageKey, plaintext: Plaintext)
    requires key.material.SessionKeys? && key'.material.SessionKeys?
    ensures DecryptBody(version', key', EncryptBody(version, key, plaintext)) ==
            if && key.material.cipherKey == key'.material.cipherKey
               && (version >= 3 <==> version' >= 3)
               && (if version >= 3 then key.material.iv == key'.material.iv else key.counter == key'.counter)
            then Ok(plaintext) else Err(Unknown)
  {
  }

  /** A MAC binds the content always, and the two identities in their order from version 3 on. */
  lemma TagsAgreeExactly(
      macKey: Term, sender: PublicKey, receiver: PublicKey, content: Content,
      macKey': Term, sender': PublicKey, receiver': PublicKey, content': Content)
    ensures MacOf(macKey, sender, receiver, content) == MacOf(macKey', sender', receiver', content') <==>
            && macKey == macKey' && content == content'
            && (content.version >= 3 ==> sender == sender' && receiver == receiver')
  {
  }

  /** What sending needs. */
  predicate CanSend(s: State) {
    && s.senderChain.Some? && s.senderChain.value.chainKey.Some? && s.senderChain.value.ratchetPair.Some?
    && s.senderChain.value.chainKey.value.profile.SessionProfile?
    && s.localIdentity.Some? && s.remoteIdentity.Some?
  }

  /** Encryption fails only on an incomplete state, and otherwise moves nothing but the sending chain, by one step. */
  lemma EncryptsExactly(s: State, plaintext: Plaintext)
    ensures Encrypt(s, plaintext).Ok? <==> CanSend(s)
    ensures Encrypt(s, plaintext).Err? ==> Encrypt(s, plaintext) == Err(Unknown)
    ensures CanSend(s) ==>
              var (s', c) := Encrypt(s, plaintext).value;
              && s'.senderChain.Some? && s'.(senderChain := s.senderChain) == s
              && s'.senderChain.value.ratchetPair == s.senderChain.value.ratchetPair
              && s'.senderChain.value.messageKeys == s.senderChain.value.messageKeys
              && s'.senderChain.value.chainKey == Some(NextChainKey(s.senderChain.value.chainKey.value))
              && (c.PreKeySignalMessage? <==> s.pendingPreKey.Some?)
  {
  }

  /**
   * Whatever one state sends, at any version, a state with the mirrored
   * identities reads, once its chain for that ratchet key hands out the same
   * message key: the plaintext comes back and the pending pre-key is dropped.
   */
  lemma SentOpens(s: State, r: State, i: nat, plaintext: Plaintext, ours: KeyPair)
    requires CanSend(s) && r.senderChain.Some? && r.version == s.version
    requires r.remoteIdentity == s.localIdentity && r.localIdentity == s.remoteIdentity
    requires i == FindChain(r.receiverChains, s.senderChain.value.ratchetPair.value.pub) < |r.receiverChains|
    requires var taken := Take(r.receiverChains[i].window, s.senderChain.value.chainKey.value.index);
             taken.Ok? && taken.value.1 == MessageKeyOf(s.senderChain.value.chainKey.value)
    ensures var read := DecryptFromState(r, Encrypt(s, plaintext).value.1.message, ours);
            && read.Ok? && read.value.1 == plaintext && read.value.0.pendingPreKey.None?
  {
  }

  /** Decryption never touches what names the session, nor the key list of the sending chain. */
  lemma DecryptKeeps(s: State, m: Message, ours: KeyPair)
    requires DecryptFromState(s, m, ours).Ok?
    ensures var s' := DecryptFromState(s, m, ours).value.0;
            && s'.version == s.version && s'.aliceBaseKey == s.aliceBaseKey && s'.needsRefresh == s.needsRefresh
            && s'.localIdentity == s.localIdentity && s'.remoteIdentity == s.remoteIdentity
            && s'.localRegistrationId == s.localRegistrationId && s'.remoteRegistrationId == s.remoteRegistrationId
            && s'.pendingKeyExchange == s.pendingKeyExchange && s'.pendingPreKey.None?
            && s'.senderChain.Some? && s'.senderChain.value.messageKeys == s.senderChain.value.messageKeys
  {
  }

  /** A message on a chain already held moves that chain only; the sending side stays as it is. */
  lemma DecryptOnHeldChain(s: State, m: Message, ours: KeyPair)
    requires DecryptFromState(s, m, ours).Ok?
    requires FindChain(s.receiverChains, m.content.ratchetKey) < |s.receiverChains|
    ensures var s' := DecryptFromState(s, m, ours).value.0;
            var i := FindChain(s.receiverChains, m.content.ratchetKey);
            && s'.(receiverChains := s.receiverChains, pendingPreKey := s.pendingPreKey) == s
            && |s'.receiverChains| == |s.receiverChains|
            && s'.receiverChains[i].ratchetKey == m.content.ratchetKey
            && forall j :: 0 <= j < |s.receiverChains| && j != i ==> s'.receiverChains[j] == s.receiverChains[j]
  {
  }
}
