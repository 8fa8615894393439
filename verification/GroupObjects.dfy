/** The mutable sender-key state and record, and the group cipher that updates them. */
module GroupObjects {
  import opened Common
  import opened Terms
  import opened KeyWindow
  import opened Group

  class SenderKeyStateObject {
    const keyId: u32
    const signingPublic: PublicKey
    const signingPrivate: Option<PrivateKey>
    var chainKey: ChainKey
    var messageKeys: seq<MessageKey>

    function Value(): SenderKeyState
      reads this
    {
      SenderKeyState(keyId, Window(chainKey, messageKeys), signingPublic, signingPrivate)
    }

    constructor (s: SenderKeyState)
      ensures Value() == s
    {
      keyId, signingPublic, signingPrivate := s.keyId, s.signingPublic, s.signingPrivate;
      chainKey, messageKeys := s.window.chain, s.window.skipped;
    }

    method HasMessageKey(iteration: u32) returns (found: bool)
      ensures found <==> FindKey(messageKeys, iteration) < |messageKeys|
    {
      for i := 0 to |messageKeys|
        invariant forall j :: 0 <= j < i ==> messageKeys[j].counter != iteration
      {
        if messageKeys[i].counter == iteration {
          return true;
        }
      }
      found := false;
    }

    method AddMessageKey(key: MessageKey)
      modifies this`messageKeys
      ensures messageKeys == AddKey(old(messageKeys), key)
    {
      messageKeys := messageKeys + [key];
      ghost var all := messageKeys;
      var count := |messageKeys|;
      while count > MAX_MESSAGE_KEYS
        invariant count == |messageKeys| <= |all|
        invariant messageKeys == all[|all| - count..]
        invariant count >= MAX_MESSAGE_KEYS || count == |all|
      {
        messageKeys := messageKeys[1..];
        count := count - 1;
      }
    }

    method RemoveMessageKey(iteration: u32) returns (r: Option<MessageKey>)
      modifies this`messageKeys
      ensures
        var i := FindKey(old(messageKeys), iteration);
        if i < |old(messageKeys)|
        then r == Some(old(messageKeys)[i]) && messageKeys == RemoveAt(old(messageKeys), i)
        else r == None && messageKeys == old(messageKeys)
    {
      var i := 0;
      while i < |messageKeys|
        invariant i <= |messageKeys| && messageKeys == old(messageKeys)
        invariant forall j :: 0 <= j < i ==> messageKeys[j].counter != iteration
      {
        if messageKeys[i].counter == iteration {
          r := Some(messageKeys[i]);
          messageKeys := RemoveAt(messageKeys, i);
          return;
        }
        i := i + 1;
      }
      r := None;
    }

    /** group_cipher_get_sender_key */
    method GetSenderKey(iteration: u32) returns (r: Result<MessageKey>)
      modifies this`chainKey, this`messageKeys
      ensures
        var spec := Take(old(Window(chainKey, messageKeys)), iteration);
        && (r.Ok? <==> spec.Ok?)
        && (r.Ok? ==> (Window(chainKey, messageKeys), r.value) == spec.value)
        && (r.Err? ==> r == Err(spec.error) && Value() == old(Value()))
    {
      var current := chainKey;
      if current.index > iteration {
        var has := HasMessageKey(iteration);
        if !has {
          return Err(DuplicateMessage);
        }
        var cached := RemoveMessageKey(iteration);
        return if cached.Some? then Ok(cached.value) else Err(Unknown);
      }
      if iteration - current.index > MAX_AHEAD {
        return Err(InvalidMessage);
      }
      while current.index < iteration
        invariant current.index <= iteration && chainKey == old(chainKey)
        invariant SkipTo(Window(current, messageKeys), iteration) ==
                  SkipTo(old(Window(chainKey, messageKeys)), iteration)
        decreases iteration - current.index
      {
        AddMessageKey(MessageKeyOf(current));
        current := NextChainKey(current);
      }
      chainKey := NextChainKey(current);
      r := Ok(MessageKeyOf(current));
    }
  }

  class SenderKeyRecordObject {
    var states: SenderKeyRecord

    constructor ()
      ensures states == []
    {
      states := [];
    }

    method GetStateById(keyId: u32) returns (i: nat)
      ensures i == FindState(states, keyId)
    {
      i := 0;
      while i < |states| && states[i].keyId != keyId
        invariant i <= |states|
        invariant forall j :: 0 <= j < i ==> states[j].keyId != keyId
      {
        i := i + 1;
      }
    }

    /** Prepend, then drop the last state while there are more than five. */
    method AddSenderKeyState(s: SenderKeyState)
      modifies this
      ensures states == AddState(old(states), s)
    {
      states := [s] + states;
      ghost var all := states;
      var count := |states|;
      while count > MAX_STATES
        invariant count == |states| <= |all|
        invariant states == all[..count]
        invariant count >= MAX_STATES || count == |all|
      {
        states := states[..|states| - 1];
        count := count - 1;
      }
    }

    /** group_cipher_encrypt: the stored record changes, and a message results, only if storing succeeds */
    method Encrypt(plaintext: Plaintext, storeOk: bool) returns (r: Result<SenderKeyMessage>)
      modifies this
      ensures
        var spec := GroupEncrypt(old(states), plaintext);
        && (r.Ok? <==> spec.Ok? && storeOk)
        && (r.Ok? ==> states == spec.value.0 && r.value == spec.value.1)
        && (r.Err? ==> r == Err(if spec.Err? then spec.error else Unknown) && states == old(states))
    {
      if states == [] || states[0].signingPrivate.None? {
        return Err(NoSession);
      }
      var chain := states[0].window.chain;
      var key := MessageKeyOf(chain);
      if !key.material.GroupKeys? {
        return Err(Unknown);
      }
      var content := GroupContent(states[0].keyId, key.counter, Seal(key, plaintext));
      if !storeOk {
        return Err(Unknown);
      }
      states := states[0 := states[0].(window := states[0].window.(chain := NextChainKey(chain)))];
      r := Ok(SenderKeyMessage(content, Signature(states[0].signingPrivate.value, content)));
    }

    /** group_cipher_decrypt: the stored record changes only once the callback and the store have agreed */
    method Decrypt(m: SenderKeyMessage, callbackOk: bool, storeOk: bool) returns (r: Result<Plaintext>)
      modifies this
      ensures
        var spec := GroupDecrypt(old(states), m);
        && (r.Ok? <==> spec.Ok? && callbackOk && storeOk)
        && (r.Ok? ==> states == spec.value.0 && r.value == spec.value.1)
        && (r.Err? ==> r == Err(if spec.Err? then spec.error else Unknown) && states == old(states))
    {
      hide Take;
      if states == [] {
        return Err(NoSession);
      }
      var i := GetStateById(m.content.keyId);
      if i == |states| || !Verifies(m, states[i].signingPublic) {
        return Err(InvalidMessage);
      }
      var working := new SenderKeyStateObject(states[i]);
      var key := working.GetSenderKey(m.content.iteration);
      if key.Err? {
        return Err(key.error);
      }
      if !key.value.material.GroupKeys? {
        return Err(Unknown);
      }
      r := Unseal(key.value, m.content.body);
      if r.Ok? && (!callbackOk || !storeOk) {
        return Err(Unknown);
      }
      if r.Ok? {
        states := states[i := working.Value()];
      }
    }
  }
}
