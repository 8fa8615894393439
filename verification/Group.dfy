/**
 * Sender keys for groups: sender_key.c, sender_key_state.c,
 * sender_key_record.c, group_cipher.c and group_session_builder.c as values.
 */
module Group {
  import opened Common
  import opened Terms
  import opened KeyWindow

  const MAX_STATES: nat := 5

  datatype SenderKeyState = SenderKeyState(
    keyId: u32, window: Window, signingPublic: PublicKey, signingPrivate: Option<PrivateKey>)

  /** Newest state first. */
  type SenderKeyRecord = seq<SenderKeyState>

  datatype GroupBody = GroupEncrypted(iv: Term, key: Term, plaintext: Plaintext) | GroupGarbage(id: nat)

  datatype GroupContent = GroupContent(keyId: u32, iteration: u32, body: GroupBody)

  datatype Signature = Signature(signer: PrivateKey, content: GroupContent) | Forgery(id: nat)

  datatype SenderKeyMessage = SenderKeyMessage(content: GroupContent, signature: Signature)

  datatype Distribution = Distribution(keyId: u32, iteration: u32, chainKey: Term, signingPublic: PublicKey)

  function Seal(key: MessageKey, plaintext: Plaintext): GroupBody
    requires key.material.GroupKeys?
  {
    GroupEncrypted(key.material.groupIv, key.material.groupCipherKey, plaintext)
  }

  function Unseal(key: MessageKey, body: GroupBody): Result<Plaintext>
    requires key.material.GroupKeys?
  {
    if body.GroupEncrypted? && body.iv == key.material.groupIv && body.key == key.material.groupCipherKey then
      Ok(body.plaintext)
    else
      Err(Unknown)
  }

  predicate Verifies(m: SenderKeyMessage, key: PublicKey) {
    m.signature == Signature(PrivateKey(key.id), m.content)
  }

  // ----- sender_key_record.c

  /** Prepend a state; drop the oldest beyond five. */
  function AddState(r: SenderKeyRecord, s: SenderKeyState): SenderKeyRecord {
    var all := [s] + r;
    if |all| > MAX_STATES then all[..MAX_STATES] else all
  }

  function NewState(keyId: u32, iteration: u32, chainKey: Term, pub: PublicKey,
                    priv: Option<PrivateKey>): SenderKeyState {
    SenderKeyState(keyId, Window(ChainKey(GroupProfile, chainKey, iteration), []), pub, priv)
  }

  /** Position of the newest state with this key id, or the length if there is none. */
  function FindState(r: SenderKeyRecord, keyId: u32): (i: nat)
    ensures i <= |r|
    ensures forall j :: 0 <= j < i ==> r[j].keyId != keyId
    ensures i < |r| ==> r[i].keyId == keyId
  {
    if r == [] || r[0].keyId == keyId then 0 else 1 + FindState(r[1..], keyId)
  }

  // ----- group_session_builder.c

  /** A session is created only for an empty record. */
  function CreateSession(r: SenderKeyRecord, keyId: u32, seed: Term, signing: KeyPair): SenderKeyRecord {
    if r == [] then AddState([], NewState(keyId, 0, seed, signing.pub, Some(signing.priv))) else r
  }

  function Distribute(r: SenderKeyRecord): Result<Distribution> {
    if r == [] then Err(InvalidKeyId)
    else Ok(Distribution(r[0].keyId, r[0].window.chain.index, r[0].window.chain.key, r[0].signingPublic))
  }

  function Install(r: SenderKeyRecord, d: Distribution): SenderKeyRecord {
    AddState(r, NewState(d.keyId, d.iteration, d.chainKey, d.signingPublic, None))
  }

  // ----- group_cipher.c

  function GroupEncrypt(r: SenderKeyRecord, plaintext: Plaintext): Result<(SenderKeyRecord, SenderKeyMessage)> {
    if r == [] then Err(NoSession)
    else if r[0].signingPrivate.None? then Err(NoSession)
    else
      var chain := r[0].window.chain;
      var key := MessageKeyOf(chain);
      if !key.material.GroupKeys? then Err(Unknown)
      else
        var content := GroupContent(r[0].keyId, key.counter, Seal(key, plaintext));
        Ok((r[0 := r[0].(window := r[0].window.(chain := NextChainKey(chain)))],
            SenderKeyMessage(content, Signature(r[0].signingPrivate.value, content))))
  }

  function GroupDecrypt(r: SenderKeyRecord, m: SenderKeyMessage): Result<(SenderKeyRecord, Plaintext)> {
    if r == [] then Err(NoSession)
    else
      var i := FindState(r, m.content.keyId);
      if i == |r| then Err(InvalidMessage)
      else if !Verifies(m, r[i].signingPublic) then Err(InvalidMessage)
      else
        var (window, key) :- Take(r[i].window, m.content.iteration);
        if !key.material.GroupKeys? then Err(Unknown)
        else
          var plaintext :- Unseal(key, m.content.body);
          Ok((r[i := r[i].(window := window)], plaintext))
  }
}
