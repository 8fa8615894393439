/**
 * The mutable session state and session record, and the cipher operations that
 * update them in place.  Each method is proved against the value-level
 * operation of the modules `Session`, `SessionCipher` and `SessionRecord`.
 */
module SessionObjects {
  import opened Common
  import opened Terms
  import opened KeyWindow
  import opened Session
  import opened Ratchet
  import opened SessionCipher
  import opened SessionRecord

  class SessionState {
    var version: u32
    var localIdentity: Option<PublicKey>
    var remoteIdentity: Option<PublicKey>
    var rootKey: Option<RootKey>
    var previousCounter: u32
    var senderChain: Option<SenderChain>
    var receiverChains: seq<ReceiverChain>
    var pendingKeyExchange: Option<PendingKeyExchange>
    var pendingPreKey: Option<PendingPreKey>
    var remoteRegistrationId: u32
    var localRegistrationId: u32
    var needsRefresh: bool
    var aliceBaseKey: Option<PublicKey>

    function Value(): State
      reads this
    {
      State(version, localIdentity, remoteIdentity, rootKey, previousCounter, senderChain, receiverChains,
            pendingKeyExchange, pendingPreKey, remoteRegistrationId, localRegistrationId, needsRefresh, aliceBaseKey)
    }

    constructor (s: State)
      ensures Value() == s
    {
      version, localIdentity, remoteIdentity := s.version, s.localIdentity, s.remoteIdentity;
      rootKey, previousCounter, senderChain := s.rootKey, s.previousCounter, s.senderChain;
      receiverChains, pendingKeyExchange, pendingPreKey := s.receiverChains, s.pendingKeyExchange, s.pendingPreKey;
      remoteRegistrationId, localRegistrationId := s.remoteRegistrationId, s.localRegistrationId;
      needsRefresh, aliceBaseKey := s.needsRefresh, s.aliceBaseKey;
    }

    /** Position of the chain for this ratchet key, found by walking the list. */
    method FindReceiverChain(key: PublicKey) returns (i: nat)
      ensures i == FindChain(receiverChains, key)
    {
      i := 0;
      while i < |receiverChains| && receiverChains[i].ratchetKey != key
        invariant i <= |receiverChains|
        invariant forall j :: 0 <= j < i ==> receiverChains[j].ratchetKey != key
      {
        i := i + 1;
      }
    }

    /** Append a chain, then drop the oldest while there are more than five. */
    method AddChain(key: PublicKey, chainKey: ChainKey)
      modifies this`receiverChains
      ensures receiverChains == AddReceiverChain(old(receiverChains), key, chainKey)
    {
      receiverChains := receiverChains + [ReceiverChain(key, Window(chainKey, []))];
      ghost var all := receiverChains;
      var count := |receiverChains|;
      while count > MAX_RECEIVER_CHAINS
        invariant count == |receiverChains| <= |all|
        invariant receiverChains == all[|all| - count..]
        invariant count >= MAX_RECEIVER_CHAINS || count == |all|
      {
        receiverChains := receiverChains[1..];
        count := count - 1;
      }
    }

    /** Cache a key on its chain, then drop the oldest beyond 2000. */
    method SetMessageKey(key: PublicKey, messageKey: MessageKey)
      modifies this`receiverChains
      ensures
        var i := FindChain(old(receiverChains), key);
        if i < |old(receiverChains)| then
          var c := old(receiverChains)[i];
          receiverChains ==
          old(receiverChains)[i := c.(window := c.window.(skipped := AddKey(c.window.skipped, messageKey)))]
        else
          receiverChains == old(receiverChains)
    {
      var i := FindReceiverChain(key);
      if i == |receiverChains| {
        return;
      }
      var c := receiverChains[i];
      var keys := c.window.skipped + [messageKey];
      ghost var all := keys;
      var count := |keys|;
      while count > MAX_MESSAGE_KEYS
        invariant count == |keys| <= |all|
        invariant keys == all[|all| - count..]
        invariant count >= MAX_MESSAGE_KEYS || count == |all|
      {
        keys := keys[1..];
        count := count - 1;
      }
      receiverChains := receiverChains[i := c.(window := c.window.(skipped := keys))];
    }

    /** Take a cached key off its chain, if it is there. */
    method RemoveMessageKey(key: PublicKey, counter: u32) returns (r: Option<MessageKey>)
      modifies this`receiverChains
      ensures
        var i := FindChain(old(receiverChains), key);
        if i < |old(receiverChains)| &&
          FindKey(old(receiverChains)[i].window.skipped, counter) < |old(receiverChains)[i].window.skipped| then
          var c := old(receiverChains)[i];
          var k := FindKey(c.window.skipped, counter);
          && r == Some(c.window.skipped[k])
          && receiverChains ==
             old(receiverChains)[i := c.(window := c.window.(skipped := RemoveAt(c.window.skipped, k)))]
        else
          r == None && receiverChains == old(receiverChains)
    {
      var i := FindReceiverChain(key);
      if i == |receiverChains| {
        return None;
      }
      var c := receiverChains[i];
      var keys := c.window.skipped;
      var k := 0;
      while k < |keys|
        invariant k <= |keys|
        invariant forall j :: 0 <= j < k ==> keys[j].counter != counter
      {
        if keys[k].counter == counter {
          r := Some(keys[k]);
          receiverChains := receiverChains[i := c.(window := c.window.(skipped := RemoveAt(keys, k)))];
          return;
        }
        k := k + 1;
      }
      r := None;
    }

    method SetReceiverChainKey(key: PublicKey, chainKey: ChainKey) returns (r: Result<()>)
      modifies this`receiverChains
      ensures
        var i := FindChain(old(receiverChains), key);
        if i < |old(receiverChains)| then
          var c := old(receiverChains)[i];
          r.Ok? && receiverChains == old(receiverChains)[i := c.(window := c.window.(chain := chainKey))]
        else
          r == Err(Unknown) && receiverChains == old(receiverChains)
    {
      var i := FindReceiverChain(key);
      if i == |receiverChains| {
        return Err(Unknown);
      }
      var c := receiverChains[i];
      receiverChains := receiverChains[i := c.(window := c.window.(chain := chainKey))];
      r := Ok(());
    }

    /** session_cipher_get_or_create_chain_key */
    method GetOrCreateChainKey(theirs: PublicKey, ours: KeyPair) returns (r: Result<ChainKey>)
      modifies this
      ensures
        var spec := GetOrCreateChain(old(Value()), theirs, ours);
        && (r.Ok? <==> spec.Ok?)
        && (r.Ok? ==> Value() == spec.value.0
                      && spec.value.1 == FindChain(receiverChains, theirs) < |receiverChains|
                      && r.value == receiverChains[spec.value.1].window.chain)
        && (r.Err? ==> r == Err(spec.error))
    {
      hide CreateChain, AddReceiverChain, FindChain;
      var i := FindReceiverChain(theirs);
      if i < |receiverChains| {
        return Ok(receiverChains[i].window.chain);
      }
      if rootKey.None? || senderChain.None? || senderChain.value.ratchetPair.None? {
        return Err(Unknown);
      }
      var (receiverRoot, receiverChain) := CreateChain(rootKey.value, theirs, senderChain.value.ratchetPair.value.priv);
      var (senderRoot, newChain) := CreateChain(receiverRoot, theirs, ours.priv);
      rootKey := Some(senderRoot);
      AddedFound(receiverChains, theirs, receiverChain);
      AddChain(theirs, receiverChain);
      if senderChain.value.chainKey.None? {
        return Err(Unknown);
      }
      var index := senderChain.value.chainKey.value.index;
      if index > 0 {
        index := index - 1;
      }
      previousCounter := index;
      senderChain := Some(SenderChain(Some(ours), Some(newChain), senderChain.value.messageKeys));
      r := Ok(receiverChain);
    }

    /** session_cipher_get_or_create_message_keys */
    method GetOrCreateMessageKey(theirs: PublicKey, chainKey: ChainKey, counter: u32) returns (r: Result<MessageKey>)
      requires
        var i := FindChain(receiverChains, theirs);
        i < |receiverChains| && receiverChains[i].window.chain == chainKey
      modifies this`receiverChains
      ensures
        var i := FindChain(old(receiverChains), theirs);
        var spec := Take(old(receiverChains)[i].window, counter);
        && (r.Ok? <==> spec.Ok?)
        && (r.Ok? ==> r.value == spec.value.1
                      && receiverChains == old(receiverChains)[i := old(receiverChains)[i].(window := spec.value.0)])
        && (r.Err? ==> r == Err(spec.error) && receiverChains == old(receiverChains))
    {
      if chainKey.index > counter {
        var cached := RemoveMessageKey(theirs, counter);
        return if cached.Some? then Ok(cached.value) else Err(DuplicateMessage);
      }
      if counter - chainKey.index > MAX_AHEAD {
        return Err(InvalidMessage);
      }
      ghost var i := FindChain(receiverChains, theirs);
      ghost var start := receiverChains[i];
      var current := chainKey;
      ghost var skipped := start.window.skipped;
      while current.index < counter
        invariant current.index <= counter
        invariant receiverChains == old(receiverChains)[i := start.(window := Window(chainKey, skipped))]
        invariant i == FindChain(receiverChains, theirs)
        invariant SkipTo(Window(current, skipped), counter) == SkipTo(start.window, counter)
        decreases counter - current.index
      {
        SetMessageKey(theirs, MessageKeyOf(current));
        skipped := AddKey(skipped, MessageKeyOf(current));
        current := NextChainKey(current);
        FindUnchanged(old(receiverChains), receiverChains, theirs);
      }
      var stored := SetReceiverChainKey(theirs, NextChainKey(current));
      r := Ok(MessageKeyOf(current));
    }

    /** session_cipher_decrypt_from_state_and_signal_message */
    method Decrypt(m: Message, ours: KeyPair) returns (r: Result<Plaintext>)
      modifies this
      ensures
        var spec := DecryptFromState(old(Value()), m, ours);
        && (r.Ok? <==> spec.Ok?)
        && (r.Ok? ==> Value() == spec.value.0 && r.value == spec.value.1)
        && (r.Err? ==> r == Err(spec.error))
    {
      hide Take, GetOrCreateChain;
      if senderChain.None? || m.content.version != version {
        return Err(InvalidMessage);
      }
      var theirs := m.content.ratchetKey;
      var chainKey := GetOrCreateChainKey(theirs, ours);
      if chainKey.Err? {
        return Err(chainKey.error);
      }
      GetOrCreateKeepsIdentities(old(Value()), theirs, ours);
      var key := GetOrCreateMessageKey(theirs, chainKey.value, m.content.counter);
      if key.Err? {
        return Err(key.error);
      }
      if remoteIdentity.None? || localIdentity.None? || !key.value.material.SessionKeys? {
        return Err(Unknown);
      }
      if m.tag != MacOf(key.value.material.macKey, remoteIdentity.value, localIdentity.value, m.content) {
        return Err(InvalidMessage);
      }
      r := DecryptBody(m.content.version, key.value, m.content.body);
      if r.Ok? {
        pendingPreKey := None;
      }
    }

    /** session_cipher_encrypt, from the loaded state to the state to be stored */
    method Encrypt(plaintext: Plaintext) returns (r: Result<Ciphertext>)
      modifies this`senderChain
      ensures
        var spec := SessionCipher.Encrypt(old(Value()), plaintext);
        && (r.Ok? <==> spec.Ok?)
        && (r.Ok? ==> Value() == spec.value.0 && r.value == spec.value.1)
        && (r.Err? ==> r == Err(spec.error) && Value() == old(Value()))
    {
      if senderChain.None? || senderChain.value.chainKey.None? || senderChain.value.ratchetPair.None? {
        return Err(Unknown);
      }
      var chain := senderChain.value.chainKey.value;
      var key := MessageKeyOf(chain);
      if localIdentity.None? || remoteIdentity.None? || !key.material.SessionKeys? {
        return Err(Unknown);
      }
      var content := Content(version, senderChain.value.ratchetPair.value.pub, chain.index, previousCounter,
                             EncryptBody(version, key, plaintext));
      var message := Message(content, MacOf(key.material.macKey, localIdentity.value, remoteIdentity.value, content));
      if pendingPreKey.Some? {
        var pending := pendingPreKey.value;
        r := Ok(PreKeySignalMessage(version, localRegistrationId, pending.preKeyId, pending.signedPreKeyId,
                                    pending.baseKey, localIdentity.value, message));
      } else {
        r := Ok(SignalMessage(message));
      }
      senderChain := Some(senderChain.value.(chainKey := Some(NextChainKey(chain))));
    }
  }

  lemma GetOrCreateKeepsIdentities(s: State, theirs: PublicKey, ours: KeyPair)
    requires GetOrCreateChain(s, theirs, ours).Ok?
    ensures
      var found := GetOrCreateChain(s, theirs, ours).value.0;
      found.remoteIdentity == s.remoteIdentity && found.localIdentity == s.localIdentity
  {
  }

  class StoredRecord {
    var state: Option<State>
    var previous: seq<State>
    var isFresh: bool

    function Value(): Record
      reads this
    {
      Record(state, previous, isFresh)
    }

    constructor (s: Option<State>)
      ensures Value() == if s.Some? then Record(s, [], false) else EMPTY_RECORD
    {
      state := if s.Some? then s else Some(FRESH);
      previous := [];
      isFresh := s.None?;
    }

    method HasState(version: u32, baseKey: PublicKey) returns (found: bool)
      ensures found <==> HasSessionState(Value(), version, baseKey)
      ensures found <==>
                || (state.Some? && state.value.version == version && state.value.aliceBaseKey == Some(baseKey))
                || exists s | s in previous :: s.version == version && s.aliceBaseKey == Some(baseKey)
    {
      if state.Some? && StateMatches(state.value, version, baseKey) {
        return true;
      }
      for i := 0 to |previous|
        invariant forall j :: 0 <= j < i ==> !StateMatches(previous[j], version, baseKey)
      {
        if StateMatches(previous[i], version, baseKey) {
          return true;
        }
      }
      found := false;
    }

    /** Archive the current state, make `promoted` current, and trim the archive. */
    method PromoteState(promoted: State)
      modifies this
      ensures Value() == Promote(old(Value()), promoted)
    {
      if state.Some? {
        previous := [state.value] + previous;
      }
      state := Some(promoted);
      TrimPrevious();
    }

    /** The trimming loop: walk the archive and delete every state beyond the limit. */
    method TrimPrevious()
      modifies this`previous
      ensures previous == Trim(old(previous))
    {
      ghost var all := previous;
      var i, count := 0, 0;
      while i < |previous|
        invariant 0 <= i <= |previous| && count <= |all|
        invariant i == if count < ARCHIVED_STATES_MAX_LENGTH then count else ARCHIVED_STATES_MAX_LENGTH
        invariant previous == all[..i] + all[count..]
        decreases |all| - count
      {
        count := count + 1;
        if count > ARCHIVED_STATES_MAX_LENGTH {
          previous := previous[..i] + previous[i + 1..];
        } else {
          i := i + 1;
        }
      }
    }

    method ArchiveCurrentState()
      modifies this
      ensures Value() == ArchiveCurrent(old(Value()))
    {
      PromoteState(FRESH);
    }

    /**
     * session_cipher_decrypt_from_record_and_signal_message: every attempt runs
     * on a copy, and the record changes only when one of them succeeds.
     */
    method DecryptMessage(m: Message, supply: nat) returns (r: Result<Plaintext>)
      requires RecordWellTyped(Value())
      modifies this
      ensures
        var spec := DecryptFromRecord(old(Value()), m, supply);
        && (r.Ok? <==> spec.Ok?)
        && (r.Ok? ==> Value() == spec.value.0 && r.value == spec.value.1)
        && (r.Err? ==> r == Err(spec.error) && Value() == old(Value()))
    {
      hide DecryptFromState, Copy, WellTyped;
      if state.Some? {
        var copied := Copy(state.value);
        if copied.Err? {
          return Err(copied.error);
        }
        var working := new SessionState(copied.value);
        r := working.Decrypt(m, GeneratePair(supply));
        if r.Ok? {
          state := Some(working.Value());
          return;
        }
        if r.error != InvalidMessage {
          return;
        }
      }
      var i := 0;
      while i < |previous|
        invariant 0 <= i <= |previous|
        invariant Value() == old(Value())
        invariant DecryptPrevious(Value(), m, supply, i) == DecryptFromRecord(Value(), m, supply)
      {
        var copied := Copy(previous[i]);
        if copied.Err? {
          return Err(copied.error);
        }
        var working := new SessionState(copied.value);
        r := working.Decrypt(m, GeneratePair(supply + i + 1));
        if r.Ok? {
          previous := RemoveAt(previous, i);
          PromoteState(working.Value());
          return;
        }
        if r.error != InvalidMessage {
          return;
        }
        i := i + 1;
      }
      r := Err(InvalidMessage);
    }
  }

  lemma FindUnchanged(a: seq<ReceiverChain>, b: seq<ReceiverChain>, key: PublicKey)
    requires |a| == |b| && forall i :: 0 <= i < |a| ==> a[i].ratchetKey == b[i].ratchetKey
    ensures FindChain(a, key) == FindChain(b, key)
  {
  }

  /** A chain added for a new key is found at the end of the list. */
  lemma AddedFound(chains: seq<ReceiverChain>, key: PublicKey, chainKey: ChainKey)
    requires FindChain(chains, key) == |chains|
    ensures
      var added := AddReceiverChain(chains, key, chainKey);
      |added| > 0 && FindChain(added, key) == |added| - 1 && added[|added| - 1].window.chain == chainKey
  {
    var added := AddReceiverChain(chains, key, chainKey);
    assert added[|added| - 1].ratchetKey == key;
    assert forall j :: 0 <= j < |added| - 1 ==> added[j] in chains;
  }
}
