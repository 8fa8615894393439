/**
 * Setting up sessions from pre-key bundles, pre-key messages and key exchanges
 * (session_builder.c), and the order in which decrypting a pre-key message
 * commits its effects (session_cipher.c).  The stores are values; their
 * callbacks' verdicts are parameters of the events.
 */
module SessionBuilder {
  import opened Common
  import opened Terms
  import opened KeyWindow
  import opened Session
  import opened Ratchet
  import opened SessionCipher
  import opened SessionRecord

  datatype Store = Store(
    record: Option<Record>,
    preKeys: map<u32, KeyPair>,
    signedPreKeys: map<u32, KeyPair>,
    identity: KeyPair,
    registrationId: u32)

  datatype Bundle = Bundle(
    registrationId: u32, identityKey: PublicKey, signedPreKeyId: u32, signedPreKey: PublicKey,
    preKey: Option<(u32, PublicKey)>)

  /** `initiate` and `simultaneous` are flag bits; `signatureOk` says whether the base-key signature verifies. */
  datatype KeyExchangeMessage = KeyExchangeMessage(
    sequence: u32, initiate: bool, simultaneous: bool,
    baseKey: PublicKey, ratchetKey: PublicKey, identityKey: PublicKey, signatureOk: bool)

  /** Answers of the identity, session and pre-key stores and of the decryption callback. */
  datatype Verdicts = Verdicts(trusted: bool, saveOk: bool, callbackOk: bool, storeOk: bool, removeOk: bool)

  /** A loaded record is fresh only when none was stored. */
  function Load(s: Store): Record {
    if s.record.Some? then s.record.value.(isFresh := false) else EMPTY_RECORD
  }

  /** The record a new session is put in: the current session makes room. */
  function Opened(r: Record): Record {
    if r.isFresh then r else ArchiveCurrent(r)
  }

  /** The signed pre key and, if the message names one, the pre key are in the store. */
  predicate KeysHeld(s: Store, c: Ciphertext)
    requires c.PreKeySignalMessage?
  {
    c.signedPreKeyId in s.signedPreKeys && (c.preKeyId.Some? ==> c.preKeyId.value in s.preKeys)
  }

  function BobParametersOf(s: Store, c: Ciphertext): BobParameters
    requires c.PreKeySignalMessage? && KeysHeld(s, c)
  {
    var signed := s.signedPreKeys[c.signedPreKeyId];
    var oneTime := if c.preKeyId.Some? then Some(s.preKeys[c.preKeyId.value]) else None;
    BobParameters(s.identity, signed, oneTime, signed, c.identityKey, c.baseKey)
  }

  /** The session that a pre-key message sets up in state `x`. */
  function ReceivedSession(s: Store, c: Ciphertext, x: State): State
    requires c.PreKeySignalMessage? && KeysHeld(s, c)
  {
    BobInitialize(x, BobParametersOf(s, c)).(
      localRegistrationId := s.registrationId,
      remoteRegistrationId := c.registrationId,
      aliceBaseKey := Some(c.baseKey))
  }

  /** session_builder_process_pre_key_signal_message_v3: the record, and a pre key to remove. */
  function SetUpFromMessage(s: Store, r: Record, c: Ciphertext): Result<(Record, Option<u32>)>
    requires c.PreKeySignalMessage?
  {
    var room := Opened(r);
    if HasSessionState(r, c.version, c.baseKey) then Ok((r, None))
    else if !KeysHeld(s, c) then Err(InvalidKeyId)
    else if room.state.None? then Err(Unknown)
    else
      Ok((room.(state := Some(ReceivedSession(s, c, room.state.value))),
          if c.preKeyId.Some? && c.preKeyId.value != PRE_KEY_MEDIUM_MAX_VALUE then c.preKeyId else None))
  }

  /** session_builder_process_pre_key_signal_message. */
  function ProcessPreKeyMessage(s: Store, r: Record, c: Ciphertext, v: Verdicts): Result<(Record, Option<u32>)>
    requires c.PreKeySignalMessage?
  {
    if !v.trusted then Err(UntrustedIdentity)
    else
      var done :- SetUpFromMessage(s, r, c);
      if !v.saveOk then Err(Unknown) else Ok(done)
  }

  /**
   * session_cipher_decrypt_pre_key_signal_message: the record is stored before
   * the one-time pre key goes, and nothing changes unless decryption succeeds.
   */
  ghost function DecryptPreKeyMessage(s: Store, c: Ciphertext, supply: nat, v: Verdicts): (Store, Result<Plaintext>)
    requires c.PreKeySignalMessage?
  {
    var processed := ProcessPreKeyMessage(s, Load(s), c, v);
    if processed.Err? then (s, Err(processed.error))
    else if !RecordWellTyped(processed.value.0) then (s, Err(Unknown))
    else
      var decrypted := DecryptFromRecord(processed.value.0, c.message, supply);
      if decrypted.Err? then (s, Err(decrypted.error))
      else if !v.callbackOk || !v.storeOk then (s, Err(Unknown))
      else
        var stored := s.(record := Some(decrypted.value.0));
        if processed.value.1.None? then (stored, Ok(decrypted.value.1))
        else if !v.removeOk then (stored, Err(Unknown))
        else (stored.(preKeys := stored.preKeys - {processed.value.1.value}), Ok(decrypted.value.1))
  }

  ghost function DecryptSignalMessage(s: Store, m: Message, supply: nat, v: Verdicts): (Store, Result<Plaintext>) {
    if s.record.None? then (s, Err(NoSession))
    else if !RecordWellTyped(Load(s)) then (s, Err(Unknown))
    else
      var decrypted := DecryptFromRecord(Load(s), m, supply);
      if decrypted.Err? then (s, Err(decrypted.error))
      else if !v.callbackOk || !v.storeOk then (s, Err(Unknown))
      else (s.(record := Some(decrypted.value.0)), Ok(decrypted.value.1))
  }

  function AliceParametersOf(s: Store, b: Bundle, base: KeyPair): AliceParameters {
    AliceParameters(s.identity, base, b.identityKey, b.signedPreKey,
                    if b.preKey.Some? then Some(b.preKey.value.1) else None, b.signedPreKey)
  }

  /** session_builder_process_pre_key_bundle with a good signature; `base` and `ratchet` are the generated pairs. */
  function ProcessBundle(s: Store, b: Bundle, base: KeyPair, ratchet: KeyPair, v: Verdicts): Store {
    var room := Opened(Load(s));
    if !v.trusted || !v.storeOk || room.state.None? then s
    else
      var state := AliceInitialize(room.state.value, AliceParametersOf(s, b, base), ratchet);
      s.(record := Some(room.(state := Some(state.(
        pendingPreKey := Some(PendingPreKey(
          if b.preKey.Some? then Some(b.preKey.value.0) else None, b.signedPreKeyId, base.pub)),
        localRegistrationId := s.registrationId,
        remoteRegistrationId := b.registrationId,
        aliceBaseKey := Some(base.pub))))))
  }

  /** session_builder_process: remember the offered keys in the current state. */
  function StartExchange(s: Store, sequence: u32, base: KeyPair, ratchet: KeyPair, v: Verdicts)
    : (Store, Result<KeyExchangeMessage>)
  {
    var r := Load(s);
    if r.state.None? || !v.storeOk then (s, Err(InvalidKey))
    else
      var state := r.state.value.(pendingKeyExchange := Some(PendingKeyExchange(sequence, base, ratchet, s.identity)));
      (s.(record := Some(r.(state := Some(state)))),
       Ok(KeyExchangeMessage(sequence, true, false, base.pub, ratchet.pub, s.identity.pub, true)))
  }

  function ExchangeParameters(ours: PendingKeyExchange, m: KeyExchangeMessage): SymmetricParameters {
    SymmetricParameters(ours.identityKey, ours.baseKey, ours.ratchetKey, m.baseKey, m.ratchetKey, m.identityKey)
  }

  /** The record with a symmetric session in front. */
  function InstallSymmetric(r: Record, p: SymmetricParameters, sending: KeyPair): Record
    requires Opened(r).state.Some?
  {
    Opened(r).(state := Some(SymmetricInitialize(Opened(r).state.value, p, sending)))
  }

  /** The keys that answer an initiation: those of an exchange of our own, or the drawn ones. */
  function AnsweringKeys(s: Store, m: KeyExchangeMessage, base: KeyPair, ratchet: KeyPair): PendingKeyExchange {
    var r := Load(s);
    if r.state.Some? && r.state.value.pendingKeyExchange.Some? then r.state.value.pendingKeyExchange.value
    else PendingKeyExchange(m.sequence, base, ratchet, s.identity)
  }

  /** session_builder_process_initiate: the signature is verified before anything is stored. */
  function ProcessInitiate(s: Store, m: KeyExchangeMessage, base: KeyPair, ratchet: KeyPair, sending: KeyPair,
                           v: Verdicts)
    : (Store, Result<Option<KeyExchangeMessage>>)
  {
    var r := Load(s);
    if !m.signatureOk then (s, Err(InvalidKey))
    else if r.state.None? || !v.storeOk then (s, Err(Unknown))
    else
      var ours := AnsweringKeys(s, m, base, ratchet);
      var stored := s.(record := Some(InstallSymmetric(r, ExchangeParameters(ours, m), sending)));
      if !v.saveOk then (stored, Err(Unknown))
      else
        (stored, Ok(Some(KeyExchangeMessage(m.sequence, false, r.state.value.pendingKeyExchange.Some?,
                                            ours.baseKey.pub, ours.ratchetKey.pub, ours.identityKey.pub, true))))
  }

  /** A response is for the exchange pending in the current state. */
  predicate AwaitsResponse(r: Record, m: KeyExchangeMessage) {
    && r.state.Some? && r.state.value.pendingKeyExchange.Some?
    && r.state.value.pendingKeyExchange.value.sequence == m.sequence
  }

  /** session_builder_process_response: the session is stored before the signature is verified. */
  function ProcessResponse(s: Store, m: KeyExchangeMessage, sending: KeyPair, v: Verdicts)
    : (Store, Result<Option<KeyExchangeMessage>>)
  {
    var r := Load(s);
    if !AwaitsResponse(r, m) then (s, if m.simultaneous then Ok(None) else Err(StaleKeyExchange))
    else if !v.storeOk then (s, Err(Unknown))
    else
      var p := ExchangeParameters(r.state.value.pendingKeyExchange.value, m);
      var stored := s.(record := Some(InstallSymmetric(r, p, sending)));
      if !m.signatureOk then (stored, Err(InvalidKey))
      else if !v.saveOk then (stored, Err(Unknown))
      else (stored, Ok(None))
  }

  /** session_builder_process_key_exchange_message; an initiation yields the message to answer with. */
  function ProcessKeyExchange(s: Store, m: KeyExchangeMessage, base: KeyPair, ratchet: KeyPair, sending: KeyPair,
                              v: Verdicts)
    : (Store, Result<Option<KeyExchangeMessage>>)
  {
    if !v.trusted then (s, Err(UntrustedIdentity))
    else if m.initiate then ProcessInitiate(s, m, base, ratchet, sending, v)
    else ProcessResponse(s, m, sending, v)
  }

  function EncryptMessage(s: Store, plaintext: Plaintext, v: Verdicts): Store {
    var r := Load(s);
    if r.state.None? then s
    else
      var result := Encrypt(r.state.value, plaintext);
      if result.Err? || !v.storeOk then s
      else s.(record := Some(r.(state := Some(result.value.0))))
  }

  /** Deserialising rejects pre-key messages of any other version, inside or out. */
  predicate Parses(c: Ciphertext) {
    c.PreKeySignalMessage? && c.version == CURRENT_VERSION && c.message.content.version == c.version
  }

  datatype Event =
    | BundleEvent(bundle: Bundle, base: KeyPair, ratchet: KeyPair)
    | PreKeyEvent(ciphertext: Ciphertext, supply: nat)
    | SignalEvent(message: Message, supply: nat)
    | StartEvent(sequence: u32, base: KeyPair, ratchet: KeyPair)
    | ExchangeEvent(exchange: KeyExchangeMessage, base: KeyPair, ratchet: KeyPair, sending: KeyPair)
    | EncryptEvent(plaintext: Plaintext)

  ghost function Step(s: Store, e: Event, v: Verdicts): Store {
    match e
    case BundleEvent(b, base, ratchet) => ProcessBundle(s, b, base, ratchet, v)
    case PreKeyEvent(c, supply) => if Parses(c) then DecryptPreKeyMessage(s, c, supply, v).0 else s
    case SignalEvent(m, supply) => DecryptSignalMessage(s, m, supply, v).0
    case StartEvent(sequence, base, ratchet) => StartExchange(s, sequence, base, ratchet, v).0
    case ExchangeEvent(m, base, ratchet, sending) => ProcessKeyExchange(s, m, base, ratchet, sending, v).0
    case EncryptEvent(plaintext) => EncryptMessage(s, plaintext, v)
  }

  // ----- invariants

  /** The session can be serialised, and is read back equal. */
  ghost predicate Typed(s: State) {
    WellTyped(s) && Canonical(s)
  }

  ghost predicate Distinct(sessions: seq<State>) {
    forall i, j :: 0 <= i < j < |sessions| && sessions[i].aliceBaseKey.Some? ==>
      (sessions[i].version, sessions[i].aliceBaseKey) != (sessions[j].version, sessions[j].aliceBaseKey)
  }

  ghost predicate RecordOk(r: Record) {
    && r.state.Some? && |r.previous| <= ARCHIVED_STATES_MAX_LENGTH
    && (forall s | s in Sessions(r) :: Typed(s))
    && Distinct(Sessions(r))
  }

  ghost predicate StoreOk(s: Store) {
    s.record.Some? ==> RecordOk(s.record.value)
  }

  /** A locally generated base key occurs in no session yet. */
  ghost predicate Fresh(s: Store, e: Event) {
    e.BundleEvent? ==> forall x | x in Sessions(Load(s)) :: x.aliceBaseKey != Some(e.base.pub)
  }

  ghost predicate IsRun(s: Store, run: seq<(Event, Verdicts)>)
    decreases |run|
  {
    run != [] ==> Fresh(s, run[0].0) && IsRun(Step(s, run[0].0, run[0].1), run[1..])
  }

  ghost function Final(s: Store, run: seq<(Event, Verdicts)>): Store
    decreases |run|
  {
    if run == [] then s else Final(Step(s, run[0].0, run[0].1), run[1..])
  }

  // ----- typing is kept

  lemma SkipToTyped(w: Window, counter: u32)
    requires w.chain.profile.SessionProfile? && forall k | k in w.skipped :: k.material.SessionKeys?
    ensures
      var ahead := SkipTo(w, counter);
      ahead.chain.profile == w.chain.profile && forall k | k in ahead.skipped :: k.material.SessionKeys?
    decreases counter - w.chain.index
  {
    if w.chain.index < counter {
      SkipToTyped(Window(NextChainKey(w.chain), AddKey(w.skipped, MessageKeyOf(w.chain))), counter);
    }
  }

  lemma TakeTyped(w: Window, counter: u32)
    requires w.chain.profile.SessionProfile? && forall k | k in w.skipped :: k.material.SessionKeys?
    requires Take(w, counter).Ok?
    ensures
      var (w', key) := Take(w, counter).value;
      w'.chain.profile == w.chain.profile && forall k | k in w'.skipped :: k.material.SessionKeys?
  {
    if w.chain.index <= counter {
      SkipToTyped(w, counter);
    }
  }

  lemma TypedCopies(s: State)
    requires Typed(s)
    ensures WellTyped(s) && Copy(s) == Ok(s)
  {
    CopyIsIdentity(s);
  }

  lemma CreateTyped(s: State, theirs: PublicKey, ours: KeyPair)
    requires Typed(s) && GetOrCreateChain(s, theirs, ours).Ok?
    ensures
      var (found, i) := GetOrCreateChain(s, theirs, ours).value;
      Typed(found) && i < |found.receiverChains|
      && found.version == s.version && found.aliceBaseKey == s.aliceBaseKey
  {
  }

  /** Decrypting changes neither the version nor the base key of a session. */
  lemma DecryptTyped(s: State, m: Message, ours: KeyPair)
    requires Typed(s) && DecryptFromState(s, m, ours).Ok?
    ensures
      var s' := DecryptFromState(s, m, ours).value.0;
      Typed(s') && s'.version == s.version && s'.aliceBaseKey == s.aliceBaseKey
  {
    hide GetOrCreateChain, Take, DecryptBody, MacOf;
    CreateTyped(s, m.content.ratchetKey, ours);
    var (found, i) := GetOrCreateChain(s, m.content.ratchetKey, ours).value;
    assert found.receiverChains[i] in found.receiverChains && ChainWellTyped(found.receiverChains[i]);
    TakeTyped(found.receiverChains[i].window, m.content.counter);
    var s' := DecryptFromState(s, m, ours).value.0;
    forall c | c in s'.receiverChains
      ensures ChainWellTyped(c) && CanonicalChainKey(s', c.window.chain)
    {
      assert c == s'.receiverChains[i] || c in found.receiverChains;
    }
  }

  // ----- base keys stay distinct

  lemma DecryptKeepsRecord(r: Record, m: Message, supply: nat)
    requires RecordOk(r) && RecordWellTyped(r) && DecryptFromRecord(r, m, supply).Ok?
    ensures RecordOk(DecryptFromRecord(r, m, supply).value.0)
    ensures forall version: u32, key: PublicKey :: HasSessionState(r, version, key) ==>
              HasSessionState(DecryptFromRecord(r, m, supply).value.0, version, key)
  {
    hide DecryptFromState, DecryptFromRecord, Copy, Typed;
    var k := DecryptConserves(r, m, supply);
    var r' := DecryptFromRecord(r, m, supply).value.0;
    var before := Sessions(r)[k];
    TypedCopies(before);
    DecryptTyped(before, m, GeneratePair(supply + k));
    SteppedDistinct(Sessions(r), Sessions(r'), k);
    hide Distinct, HasSessionState;
    assert forall s :: s in Sessions(r') ==> s == Sessions(r')[0] || s in Sessions(r);
    forall version: u32, key: PublicKey | HasSessionState(r, version, key)
      ensures HasSessionState(r', version, key)
    {
      KeptAfterStep(r, r', k, version, key);
    }
  }

  lemma SteppedDistinct(before: seq<State>, after: seq<State>, k: nat)
    requires Distinct(before) && k < |before| && |after| > 0
    requires after == [after[0]] + RemoveAt(before, k)
    requires after[0].version == before[k].version && after[0].aliceBaseKey == before[k].aliceBaseKey
    ensures Distinct(after)
  {
  }

  lemma KeptAfterStep(r: Record, r': Record, k: nat, version: u32, key: PublicKey)
    requires k < |Sessions(r)| && |Sessions(r')| > 0
    requires Sessions(r') == [Sessions(r')[0]] + RemoveAt(Sessions(r), k)
    requires Sessions(r')[0].version == Sessions(r)[k].version &&
             Sessions(r')[0].aliceBaseKey == Sessions(r)[k].aliceBaseKey
    requires HasSessionState(r, version, key)
    ensures HasSessionState(r', version, key)
  {
    HasAmongSessions(r, version, key);
    HasAmongSessions(r', version, key);
    var i :| 0 <= i < |Sessions(r)| && StateMatches(Sessions(r)[i], version, key);
    var i' := if i == k then 0 else if i < k then i + 1 else i;
    assert StateMatches(Sessions(r')[i'], version, key);
  }

  lemma HasAmongSessions(r: Record, version: u32, key: PublicKey)
    ensures HasSessionState(r, version, key) <==>
            exists i :: 0 <= i < |Sessions(r)| && StateMatches(Sessions(r)[i], version, key)
  {
    if r.state.Some? {
      assert Sessions(r)[0] == r.state.value;
    }
    if s :| s in r.previous && StateMatches(s, version, key) {
      var i :| 0 <= i < |r.previous| && r.previous[i] == s;
      assert Sessions(r)[i + |CurrentStates(r)|] == s;
    }
  }

  // ----- installing a session

  lemma LoadOk(s: Store)
    requires StoreOk(s)
    ensures RecordOk(Load(s)) && RecordWellTyped(Load(s))
  {
    var r := Load(s);
    assert Sessions(r) == if s.record.Some? then Sessions(s.record.value) else [FRESH];
    WellTypedRecord(r);
  }

  lemma OpenedFresh(s: Store)
    ensures Opened(Load(s)).state == Some(FRESH)
  {
  }

  /** A new session in front of what remains, with a base key not seen before. */
  lemma InstallKeepsRecord(r: Record, x: State)
    requires RecordOk(r) && (r.isFresh ==> r == EMPTY_RECORD) && Typed(x)
    requires x.aliceBaseKey.None? ||
             !exists s | s in Sessions(r) :: s.version == x.version && s.aliceBaseKey == x.aliceBaseKey
    ensures Opened(r).state == Some(FRESH)
    ensures RecordOk(Opened(r).(state := Some(x)))
  {
  }

  /** Processing a pre-key message leaves a good record that holds a session for it. */
  lemma ProcessKeepsRecord(s: Store, c: Ciphertext, v: Verdicts)
    requires StoreOk(s) && Parses(c) && ProcessPreKeyMessage(s, Load(s), c, v).Ok?
    ensures
      var (r, removed) := ProcessPreKeyMessage(s, Load(s), c, v).value;
      && RecordOk(r) && HasSessionState(r, c.version, c.baseKey)
      && (removed.Some? ==> removed == c.preKeyId && removed.value != PRE_KEY_MEDIUM_MAX_VALUE
                            && !HasSessionState(Load(s), c.version, c.baseKey))
      && (HasSessionState(Load(s), c.version, c.baseKey) ==> r == Load(s))
  {
    LoadOk(s);
    var r := Load(s);
    if !HasSessionState(r, c.version, c.baseKey) {
      var x := ProcessPreKeyMessage(s, r, c, v).value.0.state.value;
      HasAmongSessions(r, c.version, c.baseKey);
      forall y | y in Sessions(r)
        ensures !StateMatches(y, c.version, c.baseKey)
      {
        var i :| 0 <= i < |Sessions(r)| && Sessions(r)[i] == y;
      }
      InstallKeepsRecord(r, x);
    }
  }

  lemma EncryptTyped(s: State, plaintext: Plaintext)
    requires Typed(s) && Encrypt(s, plaintext).Ok?
    ensures
      var s' := Encrypt(s, plaintext).value.0;
      Typed(s') && s'.version == s.version && s'.aliceBaseKey == s.aliceBaseKey
  {
  }

  lemma WellTypedRecord(r: Record)
    requires RecordOk(r)
    ensures RecordWellTyped(r)
  {
    assert Sessions(r)[0] in Sessions(r) && Typed(Sessions(r)[0]);
    forall x | x in r.previous
      ensures WellTyped(x)
    {
      assert x in Sessions(r);
    }
  }

  // ----- every step keeps the store in order

  lemma PreKeyKeepsStore(s: Store, c: Ciphertext, supply: nat, v: Verdicts)
    requires StoreOk(s) && Parses(c)
    ensures
      var s' := DecryptPreKeyMessage(s, c, supply, v).0;
      && StoreOk(s')
      && (s' != s ==> s'.record.Some? && HasSessionState(s'.record.value, c.version, c.baseKey))
      && (s'.preKeys == s.preKeys
          || (s'.record.Some? && c.preKeyId.Some? && c.preKeyId.value != PRE_KEY_MEDIUM_MAX_VALUE
              && s'.preKeys == s.preKeys - {c.preKeyId.value}
              && !HasSessionState(Load(s), c.version, c.baseKey)))
  {
    hide ProcessPreKeyMessage, DecryptFromRecord, RecordOk, HasSessionState;
    var processed := ProcessPreKeyMessage(s, Load(s), c, v);
    if processed.Ok? {
      ProcessKeepsRecord(s, c, v);
      var r := processed.value.0;
      WellTypedRecord(r);
      if DecryptFromRecord(r, c.message, supply).Ok? {
        DecryptKeepsRecord(r, c.message, supply);
      }
    }
  }

  lemma SignalKeepsStore(s: Store, m: Message, supply: nat, v: Verdicts)
    requires StoreOk(s)
    ensures
      var s' := DecryptSignalMessage(s, m, supply, v).0;
      StoreOk(s') && s'.preKeys == s.preKeys
  {
    hide DecryptFromRecord, RecordOk;
    LoadOk(s);
    if DecryptFromRecord(Load(s), m, supply).Ok? {
      DecryptKeepsRecord(Load(s), m, supply);
    }
  }

  lemma BundleKeepsStore(s: Store, b: Bundle, base: KeyPair, ratchet: KeyPair, v: Verdicts)
    requires StoreOk(s) && Fresh(s, BundleEvent(b, base, ratchet))
    ensures
      var s' := ProcessBundle(s, b, base, ratchet, v);
      StoreOk(s') && s'.preKeys == s.preKeys
  {
    LoadOk(s);
    var s' := ProcessBundle(s, b, base, ratchet, v);
    if s'.record != s.record {
      var x := s'.record.value.state.value;
      assert x.aliceBaseKey == Some(base.pub);
      InstallKeepsRecord(Load(s), x);
    }
  }

  /** Replacing the current session by one of the same version and base key. */
  lemma CurrentReplaced(r: Record, x: State)
    requires RecordOk(r) && Typed(x)
    requires x.version == r.state.value.version && x.aliceBaseKey == r.state.value.aliceBaseKey
    ensures RecordOk(r.(state := Some(x)))
    ensures forall version: u32, key: PublicKey :: HasSessionState(r, version, key) ==>
              HasSessionState(r.(state := Some(x)), version, key)
  {
    hide Typed;
    var r' := r.(state := Some(x));
    assert RemoveAt(Sessions(r), 0) == r.previous;
    SteppedDistinct(Sessions(r), Sessions(r'), 0);
    assert forall y :: y in Sessions(r') ==> y == x || y in Sessions(r);
  }

  lemma StartKeepsStore(s: Store, sequence: u32, base: KeyPair, ratchet: KeyPair, v: Verdicts)
    requires StoreOk(s)
    ensures
      var s' := StartExchange(s, sequence, base, ratchet, v).0;
      StoreOk(s') && s'.preKeys == s.preKeys
  {
    LoadOk(s);
    var r := Load(s);
    var s' := StartExchange(s, sequence, base, ratchet, v).0;
    assert r.state.value == Sessions(r)[0] && Typed(r.state.value);
    if s'.record != s.record {
      CurrentReplaced(r, s'.record.value.state.value);
    }
  }

  lemma SymmetricTyped(p: SymmetricParameters, sending: KeyPair)
    ensures
      var x := SymmetricInitialize(FRESH, p, sending);
      && Typed(x) && x.aliceBaseKey.None? && x.pendingKeyExchange.None?
      && x.remoteIdentity == Some(p.theirIdentity) && x.localIdentity == Some(p.ourIdentity.pub)
  {
  }

  lemma SymmetricEncrypts(p: SymmetricParameters, sending: KeyPair, plaintext: Plaintext)
    ensures Encrypt(SymmetricInitialize(FRESH, p, sending), plaintext).Ok?
  {
  }

  lemma InstallSymmetricKeepsRecord(r: Record, p: SymmetricParameters, sending: KeyPair)
    requires RecordOk(r) && (r.isFresh ==> r == EMPTY_RECORD)
    ensures Opened(r).state == Some(FRESH) && RecordOk(InstallSymmetric(r, p, sending))
    ensures InstallSymmetric(r, p, sending).state == Some(SymmetricInitialize(FRESH, p, sending))
  {
    hide SymmetricInitialize, RecordOk, Opened, Typed;
    SymmetricTyped(p, sending);
    InstallKeepsRecord(r, SymmetricInitialize(FRESH, p, sending));
  }

  lemma ExchangeKeepsStore(s: Store, m: KeyExchangeMessage, base: KeyPair, ratchet: KeyPair, sending: KeyPair,
                           v: Verdicts)
    requires StoreOk(s)
    ensures
      var s' := ProcessKeyExchange(s, m, base, ratchet, sending, v).0;
      StoreOk(s') && s'.preKeys == s.preKeys
  {
    hide RecordOk, InstallSymmetric, Opened, ExchangeParameters;
    LoadOk(s);
    var r := Load(s);
    InstallSymmetricKeepsRecord(r, ExchangeParameters(AnsweringKeys(s, m, base, ratchet), m), sending);
    if AwaitsResponse(r, m) {
      InstallSymmetricKeepsRecord(r, ExchangeParameters(r.state.value.pendingKeyExchange.value, m), sending);
    }
  }

  /**
   * A response leaves an error behind with its session already stored exactly
   * when it is awaited and stored and then its signature, or saving the
   * identity, fails; what is stored does not depend on the signature.  An
   * initiation with a bad signature never changes anything.
   */
  lemma StoredDespiteError(s: Store, m: KeyExchangeMessage, base: KeyPair, ratchet: KeyPair, sending: KeyPair,
                           v: Verdicts)
    requires StoreOk(s)
    ensures
      var (s', result) := ProcessKeyExchange(s, m, base, ratchet, sending, v);
      && (!m.initiate ==>
            && (s' != s <==> v.trusted && v.storeOk && AwaitsResponse(Load(s), m))
            && (s' != s && result.Err? <==>
                  v.trusted && v.storeOk && AwaitsResponse(Load(s), m) && !(m.signatureOk && v.saveOk))
            && s' == ProcessKeyExchange(s, m.(signatureOk := !m.signatureOk), base, ratchet, sending, v).0)
      && (m.initiate && !m.signatureOk ==> s' == s)
      && (s' != s ==> && s'.record.value.state.value.remoteIdentity == Some(m.identityKey)
                      && forall plaintext :: Encrypt(s'.record.value.state.value, plaintext).Ok?)
  {
    hide RecordOk, InstallSymmetric, Opened, SymmetricInitialize, Encrypt, Typed;
    LoadOk(s);
    var r := Load(s);
    var answering := ExchangeParameters(AnsweringKeys(s, m, base, ratchet), m);
    InstallSymmetricKeepsRecord(r, answering, sending);
    SymmetricTyped(answering, sending);
    forall plaintext
      ensures Encrypt(SymmetricInitialize(FRESH, answering, sending), plaintext).Ok?
    {
      SymmetricEncrypts(answering, sending, plaintext);
    }
  }

  lemma EncryptKeepsStore(s: Store, plaintext: Plaintext, v: Verdicts)
    requires StoreOk(s)
    ensures
      var s' := EncryptMessage(s, plaintext, v);
      StoreOk(s') && s'.preKeys == s.preKeys
  {
    hide Encrypt, Typed;
    LoadOk(s);
    var r := Load(s);
    assert r.state.value == Sessions(r)[0];
    var result := Encrypt(r.state.value, plaintext);
    if result.Ok? {
      EncryptTyped(r.state.value, plaintext);
      CurrentReplaced(r, result.value.0);
    }
  }

  /** Every step keeps the store in order; only a pre-key message that set up a session may cost a pre key. */
  lemma StepKeepsStore(s: Store, e: Event, v: Verdicts)
    requires StoreOk(s) && Fresh(s, e)
    ensures StoreOk(Step(s, e, v))
    ensures forall id :: id in s.preKeys && id !in Step(s, e, v).preKeys ==>
              && e.PreKeyEvent? && Parses(e.ciphertext) && e.ciphertext.preKeyId == Some(id)
              && id != PRE_KEY_MEDIUM_MAX_VALUE
              && Step(s, e, v).record.Some?
              && HasSessionState(Step(s, e, v).record.value, e.ciphertext.version, e.ciphertext.baseKey)
  {
    hide DecryptPreKeyMessage, DecryptSignalMessage, ProcessBundle, StartExchange, ProcessKeyExchange;
    hide EncryptMessage, HasSessionState, StoreOk, Fresh;
    match e {
      case BundleEvent(b, base, ratchet) => BundleKeepsStore(s, b, base, ratchet, v);
      case PreKeyEvent(c, supply) =>
        if Parses(c) {
          PreKeyKeepsStore(s, c, supply, v);
        }
      case SignalEvent(m, supply) => SignalKeepsStore(s, m, supply, v);
      case StartEvent(sequence, base, ratchet) => StartKeepsStore(s, sequence, base, ratchet, v);
      case ExchangeEvent(m, base, ratchet, sending) => ExchangeKeepsStore(s, m, base, ratchet, sending, v);
      case EncryptEvent(plaintext) => EncryptKeepsStore(s, plaintext, v);
    }
  }

  /**
   * Over any run that draws fresh base keys, the record keeps at most one
   * session per version and base key and at most 40 archived ones, and the
   * last-resort pre key stays.
   */
  lemma {:induction false} RunKeepsStore(s: Store, run: seq<(Event, Verdicts)>)
    requires StoreOk(s) && IsRun(s, run)
    ensures StoreOk(Final(s, run))
    ensures PRE_KEY_MEDIUM_MAX_VALUE in s.preKeys ==> PRE_KEY_MEDIUM_MAX_VALUE in Final(s, run).preKeys
    decreases |run|
  {
    hide StoreOk, Step, Fresh, HasSessionState;
    if run != [] {
      StepKeepsStore(s, run[0].0, run[0].1);
      RunKeepsStore(Step(s, run[0].0, run[0].1), run[1..]);
    }
  }

  /** Every session of every reachable record is copied faithfully by serialising and deserialising it. */
  lemma ReachableRecordCopies(s: Store, run: seq<(Event, Verdicts)>)
    requires StoreOk(s) && IsRun(s, run)
    ensures forall x | x in Sessions(Load(Final(s, run))) :: WellTyped(x) && Copy(x) == Ok(x)
  {
    RunKeepsStore(s, run);
    LoadOk(Final(s, run));
    hide IsRun, Final, Copy, Typed;
    forall x | x in Sessions(Load(Final(s, run)))
      ensures WellTyped(x) && Copy(x) == Ok(x)
    {
      TypedCopies(x);
    }
  }

  // ----- verdicts

  /** A verdict that refuses leaves the store as it is. */
  lemma StepCommits(s: Store, e: Event, v: Verdicts)
    requires Step(s, e, v) != s
    ensures v.storeOk
    ensures e.PreKeyEvent? || e.SignalEvent? ==> v.callbackOk
    ensures e.BundleEvent? || e.PreKeyEvent? || e.ExchangeEvent? ==> v.trusted
    ensures e.PreKeyEvent? ==> v.saveOk
  {
    hide DecryptFromRecord, RecordWellTyped, SetUpFromMessage, Encrypt, Opened, AnsweringKeys, InstallSymmetric;
  }

  /** Before anything is decrypted: a plain message needs a session, a pre-key message trust and its keys. */
  lemma DeliveriesRefused(s: Store, c: Ciphertext, supply: nat, v: Verdicts)
    requires Parses(c)
    ensures s.record.None? ==> DecryptSignalMessage(s, c.message, supply, v) == (s, Err(NoSession))
    ensures !v.trusted ==> DecryptPreKeyMessage(s, c, supply, v) == (s, Err(UntrustedIdentity))
    ensures v.trusted && !HasSessionState(Load(s), c.version, c.baseKey)
            && !(c.signedPreKeyId in s.signedPreKeys && (c.preKeyId.Some? ==> c.preKeyId.value in s.preKeys)) ==>
              DecryptPreKeyMessage(s, c, supply, v) == (s, Err(InvalidKeyId))
  {
    hide DecryptFromRecord, RecordWellTyped, HasSessionState;
  }

  /**
   * How a key exchange is answered.  An initiation is answered under its own
   * sequence number, with the keys of the exchange pending here if there is one.
   */
  lemma ExchangeAnswers(s: Store, m: KeyExchangeMessage, base: KeyPair, ratchet: KeyPair, sending: KeyPair,
                        v: Verdicts)
    requires StoreOk(s)
    ensures
      var (s', result) := ProcessKeyExchange(s, m, base, ratchet, sending, v);
      var pending := Load(s).state.value.pendingKeyExchange;
      && (!v.trusted ==> (s', result) == (s, Err(UntrustedIdentity)))
      && (v.trusted && m.initiate ==>
            && (!m.signatureOk ==> (s', result) == (s, Err(InvalidKey)))
            && (m.signatureOk && !(v.storeOk && v.saveOk) ==> result == Err(Unknown))
            && (m.signatureOk && v.storeOk && v.saveOk ==>
                  && result.Ok? && result.value.Some?
                  && !result.value.value.initiate && result.value.value.signatureOk
                  && result.value.value.sequence == m.sequence
                  && (result.value.value.simultaneous <==> pending.Some?)
                  && result.value.value.baseKey == (if pending.Some? then pending.value.baseKey else base).pub
                  && result.value.value.ratchetKey == (if pending.Some? then pending.value.ratchetKey else ratchet).pub
                  && result.value.value.identityKey
                     == (if pending.Some? then pending.value.identityKey else s.identity).pub))
      && (v.trusted && !m.initiate && pending.Some? && pending.value.sequence == m.sequence && v.storeOk ==>
            result == if !m.signatureOk then Err(InvalidKey) else if v.saveOk then Ok(None) else Err(Unknown))
  {
    hide InstallSymmetric, RecordWellTyped;
    LoadOk(s);
  }

  /** An offer names the keys it remembers, and touches nothing else; one that cannot be stored is an invalid key. */
  lemma OffersExactly(s: Store, sequence: u32, base: KeyPair, ratchet: KeyPair, v: Verdicts)
    requires StoreOk(s)
    ensures
      var (s', offer) := StartExchange(s, sequence, base, ratchet, v);
      && (!v.storeOk ==> (s', offer) == (s, Err(InvalidKey)))
      && (v.storeOk ==>
            && offer.Ok? && s'.(record := s.record) == s && s'.record.Some?
            && offer.value.initiate && !offer.value.simultaneous && offer.value.signatureOk
            && offer.value.sequence == sequence && offer.value.identityKey == s.identity.pub
            && offer.value.baseKey == base.pub && offer.value.ratchetKey == ratchet.pub
            && s'.record.value.previous == Load(s).previous
            && var before, after := Load(s).state.value, s'.record.value.state.value;
               && after.(pendingKeyExchange := before.pendingKeyExchange) == before
               && after.pendingKeyExchange == Some(PendingKeyExchange(sequence, base, ratchet, s.identity)))
  {
    LoadOk(s);
  }

  /** An offer is taken up by a response with its sequence number; any other response leaves it standing. */
  lemma OfferAwaits(s: Store, sequence: u32, base: KeyPair, ratchet: KeyPair, v: Verdicts,
                    m: KeyExchangeMessage, sending: KeyPair, v': Verdicts)
    requires StoreOk(s) && v.storeOk && v'.trusted && v'.storeOk && !m.initiate
    ensures
      var offered := StartExchange(s, sequence, base, ratchet, v).0;
      var (s', result) := ProcessKeyExchange(offered, m, base, ratchet, sending, v');
      && (m.sequence != sequence ==>
            s' == offered && result == if m.simultaneous then Ok(None) else Err(StaleKeyExchange))
      && (m.sequence == sequence ==>
            && s'.record.Some? && s'.record.value.state.Some?
            && s'.record.value.state.value.localIdentity == Some(s.identity.pub)
            && s'.record.value.state.value.remoteIdentity == Some(m.identityKey)
            && s'.record.value.state.value.pendingKeyExchange.None?)
  {
    hide RecordOk, Opened, SymmetricInitialize, Typed;
    LoadOk(s);
    StartKeepsStore(s, sequence, base, ratchet, v);
    var offered := StartExchange(s, sequence, base, ratchet, v).0;
    LoadOk(offered);
    var p := ExchangeParameters(PendingKeyExchange(sequence, base, ratchet, s.identity), m);
    InstallSymmetricKeepsRecord(Load(offered), p, sending);
    SymmetricTyped(p, sending);
  }
}
