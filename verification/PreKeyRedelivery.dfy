/**
 * What happens when a pre-key message is delivered again: for how long its
 * session is recognised, and when the message is accepted a second time.
 */
module PreKeyRedelivery {
  import opened Common
  import opened Terms
  import opened KeyWindow
  import opened Session
  import opened Ratchet
  import opened SessionCipher
  import opened SessionRecord
  import opened SessionBuilder

  predicate Holds(s: Store, c: Ciphertext)
    requires c.PreKeySignalMessage?
  {
    HasSessionState(Load(s), c.version, c.baseKey)
  }

  /** The session that `c` sets up opens `c`, as that of an honest sender does. */
  ghost predicate Opens(s: Store, c: Ciphertext) {
    && Parses(c) && KeysHeld(s, c)
    && DecryptFromState(ReceivedSession(s, c, FRESH), c.message, GeneratePair(0)).Ok?
  }

  ghost function PlaintextOf(s: Store, c: Ciphertext): Plaintext
    requires Opens(s, c)
  {
    DecryptFromState(ReceivedSession(s, c, FRESH), c.message, GeneratePair(0)).value.1
  }

  /** Everything succeeds except, perhaps, removing the one-time pre key. */
  predicate Commits(v: Verdicts) {
    v.trusted && v.saveOk && v.callbackOk && v.storeOk
  }

  /** A one-time pre key is named, and it is not the one of last resort. */
  predicate Expendable(c: Ciphertext)
    requires c.PreKeySignalMessage?
  {
    c.preKeyId.Some? && c.preKeyId.value != PRE_KEY_MEDIUM_MAX_VALUE
  }

  // ----- one delivery

  lemma DrawnPairKeepsChains(s: State, theirs: PublicKey, a: KeyPair, b: KeyPair)
    requires GetOrCreateChain(s, theirs, a).Ok?
    ensures GetOrCreateChain(s, theirs, b).Ok?
    ensures
      var (found, i) := GetOrCreateChain(s, theirs, a).value;
      var (found', j) := GetOrCreateChain(s, theirs, b).value;
      i == j && found.receiverChains == found'.receiverChains
  {
    hide AddReceiverChain, FindChain;
  }

  /** The pair drawn for the reply has no say in whether a message decrypts. */
  lemma DrawnPairIrrelevant(s: State, m: Message, a: KeyPair, b: KeyPair)
    requires DecryptFromState(s, m, a).Ok?
    ensures DecryptFromState(s, m, b).Ok? && DecryptFromState(s, m, b).value.1 == DecryptFromState(s, m, a).value.1
  {
    DrawnPairKeepsChains(s, m.content.ratchetKey, a, b);
    hide GetOrCreateChain, Take, MacOf, DecryptBody;
  }

  lemma ReceivedTyped(s: Store, c: Ciphertext)
    requires Parses(c) && KeysHeld(s, c)
    ensures Typed(ReceivedSession(s, c, FRESH))
  {
  }

  lemma HoldsStored(s: Store, r: Record, c: Ciphertext)
    requires s.record == Some(r) && c.PreKeySignalMessage?
    ensures Holds(s, c) <==> HasSessionState(r, c.version, c.baseKey)
  {
  }

  /** The record that setting up a session for `c` leaves. */
  lemma SetUpRecord(s: Store, c: Ciphertext)
    requires StoreOk(s) && Parses(c) && KeysHeld(s, c) && !Holds(s, c)
    ensures
      var done := SetUpFromMessage(s, Load(s), c);
      && done.Ok?
      && done.value.0.state == Some(ReceivedSession(s, c, FRESH))
      && done.value.1 == (if Expendable(c) then c.preKeyId else None)
      && RecordOk(done.value.0) && RecordWellTyped(done.value.0) && HasSessionState(done.value.0, c.version, c.baseKey)
  {
    hide ReceivedSession, Typed, HasSessionState;
    LoadOk(s);
    ReceivedTyped(s, c);
    OpenedFresh(s);
    var all := Verdicts(true, true, true, true, true);
    ProcessKeepsRecord(s, c, all);
    WellTypedRecord(SetUpFromMessage(s, Load(s), c).value.0);
  }

  /** A message whose session is not held is accepted through the session it sets up. */
  lemma AcceptedOnNewSession(s: Store, c: Ciphertext, supply: nat, v: Verdicts)
    requires StoreOk(s) && Opens(s, c) && !Holds(s, c) && Commits(v)
    ensures
      var (s', result) := DecryptPreKeyMessage(s, c, supply, v);
      && Holds(s', c)
      && result == (if Expendable(c) && !v.removeOk then Err(Unknown) else Ok(PlaintextOf(s, c)))
      && s'.preKeys == if Expendable(c) && v.removeOk then s.preKeys - {c.preKeyId.value} else s.preKeys
  {
    hide DecryptFromState, ReceivedSession, Typed, HasSessionState, SetUpFromMessage, Copy, StoreOk;
    SetUpRecord(s, c);
    ReceivedTyped(s, c);
    var x := ReceivedSession(s, c, FRESH);
    TypedCopies(x);
    DrawnPairIrrelevant(x, c.message, GeneratePair(0), GeneratePair(supply));
    var r := SetUpFromMessage(s, Load(s), c).value.0;
    DecryptKeepsRecord(r, c.message, supply);
    var s' := DecryptPreKeyMessage(s, c, supply, v).0;
    HoldsStored(s', DecryptFromRecord(r, c.message, supply).value.0, c);
  }

  lemma HeldFallsThrough(s: Store, c: Ciphertext, supply: nat, v: Verdicts)
    requires StoreOk(s) && Parses(c) && Holds(s, c)
    ensures
      DecryptPreKeyMessage(s, c, supply, v) ==
      if !v.trusted then (s, Err(UntrustedIdentity))
      else if !v.saveOk then (s, Err(Unknown))
      else DecryptSignalMessage(s, c.message, supply, v)
  {
    LoadOk(s);
    HeldIsStored(s, c);
    hide DecryptFromRecord, RecordOk, RecordWellTyped, HasSessionState, StoreOk;
  }

  lemma SignalKeepsCount(s: Store, m: Message, supply: nat, v: Verdicts)
    requires StoreOk(s)
    ensures |Sessions(Load(DecryptSignalMessage(s, m, supply, v).0))| == |Sessions(Load(s))|
  {
    hide DecryptFromRecord, RecordWellTyped, OneSessionStepped, Typed, Distinct;
    LoadOk(s);
    if DecryptFromRecord(Load(s), m, supply).Ok? {
      var k := DecryptConserves(Load(s), m, supply);
    }
  }

  /**
   * While its session is held, a delivery sets up nothing: only the bundled
   * message is decrypted, the number of sessions and the pre keys stay, even
   * if the one-time pre key is long gone.
   */
  lemma RedeliveryAddsNone(s: Store, c: Ciphertext, supply: nat, v: Verdicts)
    requires StoreOk(s) && Parses(c) && Holds(s, c)
    ensures
      var s' := DecryptPreKeyMessage(s, c, supply, v).0;
      && s'.preKeys == s.preKeys && Holds(s', c)
      && |Sessions(Load(s'))| == |Sessions(Load(s))|
      && (v.trusted && v.saveOk ==>
            DecryptPreKeyMessage(s, c, supply, v) == DecryptSignalMessage(s, c.message, supply, v))
  {
    HeldFallsThrough(s, c, supply, v);
    SignalKeepsStore(s, c.message, supply, v);
    SignalKeepsHeld(s, c.message, supply, v);
    SignalKeepsCount(s, c.message, supply, v);
    hide DecryptPreKeyMessage, DecryptSignalMessage, HasSessionState, Load, Sessions;
  }

  lemma HeldIsStored(s: Store, c: Ciphertext)
    requires Parses(c) && Holds(s, c)
    ensures s.record.Some?
  {
  }

  /**
   * A delivery sets up a session exactly when none is held, its keys are in
   * the store, some session then opens it, and every callback agrees.
   */
  lemma InstallsExactly(s: Store, c: Ciphertext, supply: nat, v: Verdicts)
    requires StoreOk(s) && Parses(c)
    ensures
      var s' := DecryptPreKeyMessage(s, c, supply, v).0;
      var done := SetUpFromMessage(s, Load(s), c);
      !Holds(s, c) && Holds(s', c) <==>
        && !Holds(s, c) && KeysHeld(s, c) && Commits(v)
        && done.Ok? && RecordWellTyped(done.value.0) && DecryptFromRecord(done.value.0, c.message, supply).Ok?
  {
    hide DecryptFromRecord, HasSessionState, RecordOk, RecordWellTyped, SetUpFromMessage;
    if !Holds(s, c) {
      if KeysHeld(s, c) {
        SetUpRecord(s, c);
        var r := SetUpFromMessage(s, Load(s), c).value.0;
        if DecryptFromRecord(r, c.message, supply).Ok? {
          DecryptKeepsRecord(r, c.message, supply);
          var r' := DecryptFromRecord(r, c.message, supply).value.0;
          HoldsStored(s.(record := Some(r')), r', c);
          var removed := if Expendable(c) then {c.preKeyId.value} else {};
          HoldsStored(s.(record := Some(r'), preKeys := s.preKeys - removed), r', c);
        }
      } else {
        MissingKeys(s, c);
      }
    }
  }

  lemma MissingKeys(s: Store, c: Ciphertext)
    requires Parses(c) && !Holds(s, c) && !KeysHeld(s, c)
    ensures SetUpFromMessage(s, Load(s), c) == Err(InvalidKeyId)
  {
  }

  // ----- runs between two deliveries

  /** No event draws on other long-term keys, or brings a pre key back. */
  ghost predicate SameKeys(s: Store, s': Store) {
    && s'.identity == s.identity && s'.registrationId == s.registrationId && s'.signedPreKeys == s.signedPreKeys
    && (forall id | id in s'.preKeys :: id in s.preKeys && s'.preKeys[id] == s.preKeys[id])
    && (PRE_KEY_MEDIUM_MAX_VALUE in s.preKeys ==> PRE_KEY_MEDIUM_MAX_VALUE in s'.preKeys)
  }

  lemma StepKeepsKeys(s: Store, e: Event, v: Verdicts)
    ensures SameKeys(s, Step(s, e, v))
  {
    hide DecryptFromRecord, HasSessionState, RecordWellTyped, Encrypt, Opened, AnsweringKeys;
    hide InstallSymmetric, AliceInitialize, ReceivedSession;
  }

  lemma {:induction false} RunKeepsKeys(s: Store, run: seq<(Event, Verdicts)>)
    ensures SameKeys(s, Final(s, run))
    decreases |run|
  {
    hide Step;
    if run != [] {
      StepKeepsKeys(s, run[0].0, run[0].1);
      RunKeepsKeys(Step(s, run[0].0, run[0].1), run[1..]);
    }
  }

  /** Does the event start a session, if it succeeds? */
  predicate Starts(s: Store, e: Event) {
    || e.BundleEvent?
    || (e.ExchangeEvent? && (e.exchange.initiate || AwaitsResponse(Load(s), e.exchange)))
    || (e.PreKeyEvent? && Parses(e.ciphertext) && !Holds(s, e.ciphertext))
  }

  /** Every session of the run starts with room left in the archive. */
  ghost predicate DropsNone(s: Store, run: seq<(Event, Verdicts)>)
    decreases |run|
  {
    run != [] ==>
      && (Starts(s, run[0].0) ==> |Load(s).previous| < ARCHIVED_STATES_MAX_LENGTH)
      && DropsNone(Step(s, run[0].0, run[0].1), run[1..])
  }

  /** Every base key recognised in `r` is recognised in `r'`. */
  ghost predicate StillHolds(r: Record, r': Record) {
    forall version: u32, key: PublicKey :: HasSessionState(r, version, key) ==> HasSessionState(r', version, key)
  }

  lemma InstallKeepsHeld(s: Store, x: State)
    requires |Load(s).previous| < ARCHIVED_STATES_MAX_LENGTH
    ensures StillHolds(Load(s), Opened(Load(s)).(state := Some(x)))
  {
    var r := Load(s);
    if !r.isFresh {
      var r' := Opened(r).(state := Some(x));
      assert r'.previous == CurrentStates(r) + r.previous;
      forall version: u32, key: PublicKey | HasSessionState(r, version, key)
        ensures HasSessionState(r', version, key)
      {
        if r.state.Some? && StateMatches(r.state.value, version, key) {
          assert r'.previous[0] == r.state.value;
        }
      }
    }
  }

  lemma LoadHolds(s: Store, s': Store, r: Record)
    requires s'.record == Some(r) && StillHolds(Load(s), r)
    ensures StillHolds(Load(s), Load(s'))
  {
    forall version: u32, key: PublicKey | HasSessionState(Load(s), version, key)
      ensures HasSessionState(Load(s'), version, key)
    {
      assert HasSessionState(r, version, key);
    }
  }

  lemma SymmetricKeepsHeld(s: Store, p: SymmetricParameters, sending: KeyPair)
    requires |Load(s).previous| < ARCHIVED_STATES_MAX_LENGTH && Opened(Load(s)).state.Some?
    ensures StillHolds(Load(s), InstallSymmetric(Load(s), p, sending))
  {
    InstallKeepsHeld(s, SymmetricInitialize(Opened(Load(s)).state.value, p, sending));
  }

  lemma BundleKeepsHeld(s: Store, b: Bundle, base: KeyPair, ratchet: KeyPair, v: Verdicts)
    requires |Load(s).previous| < ARCHIVED_STATES_MAX_LENGTH
    ensures StillHolds(Load(s), Load(ProcessBundle(s, b, base, ratchet, v)))
  {
    hide HasSessionState, Opened, AliceInitialize;
    var s' := ProcessBundle(s, b, base, ratchet, v);
    if s' != s {
      InstallKeepsHeld(s, s'.record.value.state.value);
      LoadHolds(s, s', s'.record.value);
    }
  }

  lemma PreKeyKeepsHeld(s: Store, c: Ciphertext, supply: nat, v: Verdicts)
    requires StoreOk(s) && Parses(c) && (!Holds(s, c) ==> |Load(s).previous| < ARCHIVED_STATES_MAX_LENGTH)
    ensures StillHolds(Load(s), Load(DecryptPreKeyMessage(s, c, supply, v).0))
  {
    hide DecryptFromRecord, RecordOk, RecordWellTyped, ReceivedSession, Opened, HasSessionState;
    var s' := DecryptPreKeyMessage(s, c, supply, v).0;
    if s' != s {
      var r := ProcessPreKeyMessage(s, Load(s), c, v).value.0;
      ProcessKeepsRecord(s, c, v);
      if !Holds(s, c) {
        InstallKeepsHeld(s, r.state.value);
      }
      DecryptKeepsRecord(r, c.message, supply);
      LoadHolds(s, s', s'.record.value);
    }
  }

  lemma SignalKeepsHeld(s: Store, m: Message, supply: nat, v: Verdicts)
    requires StoreOk(s)
    ensures StillHolds(Load(s), Load(DecryptSignalMessage(s, m, supply, v).0))
  {
    hide DecryptFromRecord, RecordOk, RecordWellTyped, HasSessionState;
    LoadOk(s);
    var s' := DecryptSignalMessage(s, m, supply, v).0;
    if s' != s {
      DecryptKeepsRecord(Load(s), m, supply);
      LoadHolds(s, s', s'.record.value);
    }
  }

  lemma ExchangeKeepsHeld(s: Store, m: KeyExchangeMessage, base: KeyPair, ratchet: KeyPair, sending: KeyPair,
                          v: Verdicts)
    requires m.initiate || AwaitsResponse(Load(s), m) ==> |Load(s).previous| < ARCHIVED_STATES_MAX_LENGTH
    ensures StillHolds(Load(s), Load(ProcessKeyExchange(s, m, base, ratchet, sending, v).0))
  {
    hide InstallSymmetric, HasSessionState, Opened, AnsweringKeys, ExchangeParameters;
    OpenedFresh(s);
    var s' := ProcessKeyExchange(s, m, base, ratchet, sending, v).0;
    if s' != s {
      var p := ExchangeParameters(
        if m.initiate then AnsweringKeys(s, m, base, ratchet) else Load(s).state.value.pendingKeyExchange.value, m);
      SymmetricKeepsHeld(s, p, sending);
      LoadHolds(s, s', InstallSymmetric(Load(s), p, sending));
    }
  }

  /** Starting an exchange and encrypting change the current session only. */
  lemma CurrentKeepsHeld(s: Store, e: Event, v: Verdicts)
    requires e.StartEvent? || e.EncryptEvent?
    ensures StillHolds(Load(s), Load(Step(s, e, v)))
  {
  }

  lemma StepKeepsHeld(s: Store, e: Event, v: Verdicts)
    requires StoreOk(s) && (Starts(s, e) ==> |Load(s).previous| < ARCHIVED_STATES_MAX_LENGTH)
    ensures StillHolds(Load(s), Load(Step(s, e, v)))
  {
    hide DecryptPreKeyMessage, DecryptSignalMessage, ProcessBundle, ProcessKeyExchange, StoreOk, Load, Holds;
    hide AwaitsResponse;
    if e.StartEvent? || e.EncryptEvent? {
      CurrentKeepsHeld(s, e, v);
    } else {
      match e {
        case BundleEvent(b, base, ratchet) => BundleKeepsHeld(s, b, base, ratchet, v);
        case PreKeyEvent(c, supply) =>
          if Parses(c) {
            PreKeyKeepsHeld(s, c, supply, v);
          }
        case SignalEvent(m, supply) => SignalKeepsHeld(s, m, supply, v);
        case ExchangeEvent(m, base, ratchet, sending) => ExchangeKeepsHeld(s, m, base, ratchet, sending, v);
      }
    }
  }

  /** A run that drops no session goes on recognising every base key. */
  lemma {:induction false} RunKeepsHeld(s: Store, run: seq<(Event, Verdicts)>)
    requires StoreOk(s) && IsRun(s, run) && DropsNone(s, run)
    ensures StillHolds(Load(s), Load(Final(s, run)))
    decreases |run|
  {
    hide StoreOk, Step, Fresh, HasSessionState, Load, Starts;
    if run != [] {
      StepKeepsStore(s, run[0].0, run[0].1);
      StepKeepsHeld(s, run[0].0, run[0].1);
      RunKeepsHeld(Step(s, run[0].0, run[0].1), run[1..]);
    }
  }

  // ----- the second delivery

  /** The keys a later delivery finds are those of the first. */
  lemma OpensLater(s: Store, t: Store, c: Ciphertext)
    requires Opens(s, c) && SameKeys(s, t) && KeysHeld(t, c)
    ensures Opens(t, c) && PlaintextOf(t, c) == PlaintextOf(s, c)
  {
  }

  /** What a delivery that is accepted returns: an error if the pre key could not be removed. */
  ghost function Outcome(s: Store, c: Ciphertext, v: Verdicts): Result<Plaintext>
    requires Opens(s, c)
  {
    if Expendable(c) && !v.removeOk then Err(Unknown) else Ok(PlaintextOf(s, c))
  }

  lemma SecondDelivery(s: Store, t: Store, c: Ciphertext, supply: nat, v: Verdicts)
    requires StoreOk(t) && Opens(s, c) && SameKeys(s, t) && Commits(v)
    ensures
      var (t', second) := DecryptPreKeyMessage(t, c, supply, v);
      && (!Holds(t, c) && Holds(t', c) <==> !Holds(t, c) && KeysHeld(t, c))
      && (!Holds(t, c) && KeysHeld(t, c) ==> second == Outcome(s, c, v))
      && (!Holds(t, c) && !KeysHeld(t, c) ==> second == Err(InvalidKeyId) && t' == t)
      && (Holds(t, c) ==> t'.preKeys == t.preKeys && |Sessions(Load(t'))| == |Sessions(Load(t))|)
  {
    hide StoreOk, Holds, KeysHeld, Load, SetUpFromMessage, PlaintextOf, DecryptFromState, DecryptFromRecord;
    if Holds(t, c) {
      RedeliveryAddsNone(t, c, supply, v);
    } else if !KeysHeld(t, c) {
      MissingKeys(t, c);
    } else {
      OpensLater(s, t, c);
      hide DecryptPreKeyMessage;
      AcceptedOnNewSession(t, c, supply, v);
    }
  }

  /** After the first delivery a one-time pre key that could be removed is gone for good; no other key is. */
  lemma KeysLater(s: Store, c: Ciphertext, supply: nat, v: Verdicts, t: Store)
    requires StoreOk(s) && Opens(s, c) && !Holds(s, c) && Commits(v)
    requires SameKeys(DecryptPreKeyMessage(s, c, supply, v).0, t)
    ensures SameKeys(s, t) && (KeysHeld(t, c) <==> !Expendable(c) || c.preKeyId.value in t.preKeys)
    ensures Expendable(c) && v.removeOk ==> !KeysHeld(t, c)
  {
    AcceptedOnNewSession(s, c, supply, v);
    StepKeepsKeys(s, PreKeyEvent(c, supply), v);
    hide DecryptPreKeyMessage, StoreOk, Holds;
  }

  /**
   * After a first delivery that set up its session, and whatever happens next,
   * a second delivery is accepted through a session set up afresh exactly when
   * the first one has been dropped and the pre key it names, if any, is still
   * in the store: it names none, or that of last resort, or one that could not
   * be removed.  While the session is held no session is added; once it is
   * dropped and the pre key gone, the delivery fails without effect.
   */
  lemma RedeliveryExact(s: Store, c: Ciphertext, supply: nat, v: Verdicts, run: seq<(Event, Verdicts)>,
                        supply': nat, v': Verdicts)
    requires StoreOk(s) && Opens(s, c) && !Holds(s, c) && Commits(v) && Commits(v')
    requires IsRun(DecryptPreKeyMessage(s, c, supply, v).0, run)
    ensures
      var (s1, first) := DecryptPreKeyMessage(s, c, supply, v);
      var t := Final(s1, run);
      var (t', second) := DecryptPreKeyMessage(t, c, supply', v');
      && Holds(s1, c) && first == Outcome(s, c, v)
      && (!Holds(t, c) && Holds(t', c) <==> !Holds(t, c) && KeysHeld(t, c))
      && (!Holds(t, c) && KeysHeld(t, c) ==> second == Outcome(s, c, v'))
      && (!Holds(t, c) && !KeysHeld(t, c) ==> second == Err(InvalidKeyId) && t' == t)
      && (Holds(t, c) ==> t'.preKeys == t.preKeys && |Sessions(Load(t'))| == |Sessions(Load(t))|)
      && (KeysHeld(t, c) <==> !Expendable(c) || c.preKeyId.value in t.preKeys)
      && (Expendable(c) && v.removeOk ==> !KeysHeld(t, c))
      && (DropsNone(s1, run) ==> Holds(t, c))
  {
    hide DecryptPreKeyMessage, StoreOk, HasSessionState, KeysHeld, Final, IsRun, DropsNone, SameKeys;
    hide Load, Sessions, PlaintextOf, DecryptFromState;
    AcceptedOnNewSession(s, c, supply, v);
    PreKeyKeepsStore(s, c, supply, v);
    var s1 := DecryptPreKeyMessage(s, c, supply, v).0;
    RunKeepsStore(s1, run);
    RunKeepsKeys(s1, run);
    var t := Final(s1, run);
    KeysLater(s, c, supply, v, t);
    SecondDelivery(s, t, c, supply', v');
    if DropsNone(s1, run) {
      RunKeepsHeld(s1, run);
    }
  }

  // ----- a run that accepts one message twice

  datatype Offer = Offer(bundle: Bundle, base: KeyPair, ratchet: KeyPair)

  const ALL_WELL: Verdicts := Verdicts(true, true, true, true, true)

  function BundleRun(offers: seq<Offer>): seq<(Event, Verdicts)> {
    seq(|offers|, i requires 0 <= i < |offers| =>
      (BundleEvent(offers[i].bundle, offers[i].base, offers[i].ratchet), ALL_WELL))
  }

  ghost predicate IsBase(key: Option<PublicKey>, offers: seq<Offer>) {
    exists i :: 0 <= i < |offers| && key == Some(offers[i].base.pub)
  }

  /** The base keys drawn are new to the record and differ from each other. */
  ghost predicate NewBases(sessions: seq<State>, offers: seq<Offer>) {
    && (forall i, x :: 0 <= i < |offers| && x in sessions ==> x.aliceBaseKey != Some(offers[i].base.pub))
    && (forall i, j :: 0 <= i < j < |offers| ==> offers[i].base.pub != offers[j].base.pub)
  }

  /** The sessions still there once `n` more have been started in front of them. */
  function Remaining(sessions: seq<State>, n: nat): seq<State> {
    if n > ARCHIVED_STATES_MAX_LENGTH then []
    else if |sessions| > ARCHIVED_STATES_MAX_LENGTH + 1 - n then sessions[..ARCHIVED_STATES_MAX_LENGTH + 1 - n]
    else sessions
  }

  lemma BundlePushes(s: Store, o: Offer)
    requires s.record.Some?
    ensures
      var s' := ProcessBundle(s, o.bundle, o.base, o.ratchet, ALL_WELL);
      && s'.record.Some? && |Sessions(Load(s'))| > 0
      && Sessions(Load(s'))[0].aliceBaseKey == Some(o.base.pub)
      && Sessions(Load(s')) == [Sessions(Load(s'))[0]] + Remaining(Sessions(Load(s)), 1)
  {
    hide AliceInitialize;
    OpenedFresh(s);
  }

  /** One more session was started, with the base key of the first offer. */
  ghost predicate Pushed(before: seq<State>, after: seq<State>, offers: seq<Offer>) {
    && offers != [] && |after| > 0 && after[0].aliceBaseKey == Some(offers[0].base.pub)
    && after == [after[0]] + Remaining(before, 1)
  }

  lemma NewBasesLeft(before: seq<State>, after: seq<State>, offers: seq<Offer>)
    requires Pushed(before, after, offers) && NewBases(before, offers)
    ensures NewBases(after, offers[1..])
  {
  }

  lemma StillCrowded(before: seq<State>, after: seq<State>, offers: seq<Offer>, x: State)
    requires Pushed(before, after, offers)
    requires IsBase(x.aliceBaseKey, offers[1..]) || x in Remaining(after, |offers| - 1)
    ensures IsBase(x.aliceBaseKey, offers) || x in Remaining(before, |offers|)
  {
    if i :| 0 <= i < |offers| - 1 && x.aliceBaseKey == Some(offers[1..][i].base.pub) {
      assert offers[i + 1] == offers[1..][i];
    }
  }

  /** Forty-one bundles leave no earlier session in the record. */
  lemma {:induction false} BundlesCrowdOut(s: Store, offers: seq<Offer>)
    requires StoreOk(s) && s.record.Some? && |offers| <= ARCHIVED_STATES_MAX_LENGTH + 1
    requires NewBases(Sessions(Load(s)), offers)
    ensures IsRun(s, BundleRun(offers))
    ensures forall x | x in Sessions(Load(Final(s, BundleRun(offers)))) ::
              IsBase(x.aliceBaseKey, offers) || x in Remaining(Sessions(Load(s)), |offers|)
    decreases |offers|
  {
    hide ProcessBundle, Load, StoreOk;
    if offers == [] {
      LoadOk(s);
    } else {
      var o, rest := offers[0], offers[1..];
      var run := BundleRun(offers);
      assert run[1..] == BundleRun(rest);
      var s' := ProcessBundle(s, o.bundle, o.base, o.ratchet, ALL_WELL);
      BundleKeepsStore(s, o.bundle, o.base, o.ratchet, ALL_WELL);
      BundlePushes(s, o);
      NewBasesLeft(Sessions(Load(s)), Sessions(Load(s')), offers);
      hide NewBases, IsBase, Remaining, Sessions;
      BundlesCrowdOut(s', rest);
      forall x | x in Sessions(Load(Final(s', BundleRun(rest))))
        ensures IsBase(x.aliceBaseKey, offers) || x in Remaining(Sessions(Load(s)), |offers|)
      {
        StillCrowded(Sessions(Load(s)), Sessions(Load(s')), offers, x);
      }
    }
  }

  lemma NoneHeld(s: Store, offers: seq<Offer>, c: Ciphertext)
    requires Parses(c) && !IsBase(Some(c.baseKey), offers)
    requires forall x | x in Sessions(Load(s)) :: IsBase(x.aliceBaseKey, offers)
    ensures !Holds(s, c)
  {
    if Holds(s, c) {
      HasAmongSessions(Load(s), c.version, c.baseKey);
    }
  }

  lemma HeldIsNoBase(s: Store, offers: seq<Offer>, c: Ciphertext)
    requires Parses(c) && Holds(s, c) && NewBases(Sessions(Load(s)), offers)
    ensures !IsBase(Some(c.baseKey), offers)
  {
    HasAmongSessions(Load(s), c.version, c.baseKey);
  }

  lemma {:induction false} RunAppend(s: Store, a: seq<(Event, Verdicts)>, b: seq<(Event, Verdicts)>)
    requires IsRun(s, a) && IsRun(Final(s, a), b)
    ensures IsRun(s, a + b)
    decreases |a|
  {
    hide Step, Fresh;
    if a == [] {
      assert a + b == b;
    } else {
      RunAppend(Step(s, a[0].0, a[0].1), a[1..], b);
      assert (a + b)[1..] == a[1..] + b;
    }
  }

  lemma DeliveryRun(s: Store, c: Ciphertext, run: seq<(Event, Verdicts)>)
    requires Parses(c) && IsRun(DecryptPreKeyMessage(s, c, 0, ALL_WELL).0, run)
    ensures IsRun(s, [(PreKeyEvent(c, 0), ALL_WELL)] + run + [(PreKeyEvent(c, 0), ALL_WELL)])
  {
    hide DecryptPreKeyMessage;
    var delivery := [(PreKeyEvent(c, 0), ALL_WELL)];
    RunAppend(DecryptPreKeyMessage(s, c, 0, ALL_WELL).0, run, delivery);
    assert (delivery + run + delivery)[1..] == run + delivery;
  }

  /** A first session is the only one. */
  lemma OnlySession(s: Store, c: Ciphertext)
    requires s.record.None? && Opens(s, c)
    ensures !Holds(s, c)
    ensures forall x | x in Sessions(Load(DecryptPreKeyMessage(s, c, 0, ALL_WELL).0)) ::
            x.aliceBaseKey == Some(c.baseKey)
  {
    hide DecryptFromState, ReceivedSession, Typed, DecryptFromRecord;
    AcceptedOnNewSession(s, c, 0, ALL_WELL);
    SetUpRecord(s, c);
    var r := SetUpFromMessage(s, Load(s), c).value.0;
    var k := DecryptConserves(r, c.message, 0);
  }

  /**
   * One pre-key message without an expendable pre key is accepted, forgotten
   * after any 41 bundles with new base keys, and accepted again.
   */
  lemma PreKeyAcceptedTwice(s: Store, c: Ciphertext, offers: seq<Offer>)
    requires StoreOk(s) && Opens(s, c) && !Holds(s, c) && !Expendable(c)
    requires |offers| == ARCHIVED_STATES_MAX_LENGTH + 1
    requires NewBases(Sessions(Load(DecryptPreKeyMessage(s, c, 0, ALL_WELL).0)), offers)
    ensures
      var (s1, first) := DecryptPreKeyMessage(s, c, 0, ALL_WELL);
      var (t', second) := DecryptPreKeyMessage(Final(s1, BundleRun(offers)), c, 0, ALL_WELL);
      && IsRun(s, [(PreKeyEvent(c, 0), ALL_WELL)] + BundleRun(offers) + [(PreKeyEvent(c, 0), ALL_WELL)])
      && first == second == Ok(PlaintextOf(s, c))
  {
    hide DecryptPreKeyMessage, StoreOk, Holds, DecryptFromState, PlaintextOf, Load, NewBases;
    AcceptedOnNewSession(s, c, 0, ALL_WELL);
    PreKeyKeepsStore(s, c, 0, ALL_WELL);
    var s1 := DecryptPreKeyMessage(s, c, 0, ALL_WELL).0;
    var run := BundleRun(offers);
    HeldIsStored(s1, c);
    BundlesCrowdOut(s1, offers);
    HeldIsNoBase(s1, offers, c);
    var t := Final(s1, run);
    NoneHeld(t, offers, c);
    RedeliveryExact(s, c, 0, ALL_WELL, run, 0, ALL_WELL);
    DeliveryRun(s, c, run);
  }

  // ----- another encoding of the base key

  /** The message with another encoding of its base key, which no MAC covers. */
  function Reencoded(c: Ciphertext, form: nat): Ciphertext
    requires c.PreKeySignalMessage?
  {
    c.(baseKey := c.baseKey.(form := form))
  }

  /** Nothing but the recognised base key depends on the encoding. */
  lemma ReencodedOpens(s: Store, c: Ciphertext, form: nat)
    requires Opens(s, c)
    ensures Opens(s, Reencoded(c, form)) && PlaintextOf(s, Reencoded(c, form)) == PlaintextOf(s, c)
    ensures
      var x, y := ReceivedSession(s, c, FRESH), ReceivedSession(s, Reencoded(c, form), FRESH);
      y == x.(aliceBaseKey := Some(c.baseKey.(form := form)))
  {
    var x, y := ReceivedSession(s, c, FRESH), ReceivedSession(s, Reencoded(c, form), FRESH);
    assert y == x.(aliceBaseKey := Some(c.baseKey.(form := form)));
    hide ReceivedSession;
    BaseKeyIrrelevant(x, y, c.message, GeneratePair(0));
  }

  lemma BaseKeyIrrelevant(x: State, y: State, m: Message, ours: KeyPair)
    requires y == x.(aliceBaseKey := y.aliceBaseKey) && DecryptFromState(x, m, ours).Ok?
    ensures DecryptFromState(y, m, ours).Ok? &&
            DecryptFromState(y, m, ours).value.1 == DecryptFromState(x, m, ours).value.1
  {
    hide Take, MacOf, DecryptBody, AddReceiverChain;
  }

  /**
   * One inner message is accepted twice, the second time under another
   * encoding of the base key, while the session that accepted it first is
   * held throughout.
   */
  lemma ReencodedAcceptedTwice(s: Store, c: Ciphertext, form: nat)
    requires s.record.None? && Opens(s, c) && !Expendable(c) && form != c.baseKey.form
    ensures
      var c' := Reencoded(c, form);
      var (s1, first) := DecryptPreKeyMessage(s, c, 0, ALL_WELL);
      var (s2, second) := DecryptPreKeyMessage(s1, c', 0, ALL_WELL);
      && c'.message == c.message && first == second == Ok(PlaintextOf(s, c))
      && Holds(s1, c) && Holds(s2, c) && Holds(s2, c')
      && IsRun(s, [(PreKeyEvent(c, 0), ALL_WELL), (PreKeyEvent(c', 0), ALL_WELL)])
  {
    hide DecryptPreKeyMessage, Holds, DecryptFromState, PlaintextOf, ReceivedSession;
    var c' := Reencoded(c, form);
    OnlySession(s, c);
    AcceptedOnNewSession(s, c, 0, ALL_WELL);
    PreKeyKeepsStore(s, c, 0, ALL_WELL);
    StepKeepsKeys(s, PreKeyEvent(c, 0), ALL_WELL);
    var s1 := DecryptPreKeyMessage(s, c, 0, ALL_WELL).0;
    OtherKeyNotHeld(s1, c, c');
    ReencodedOpens(s, c, form);
    OpensLater(s, s1, c');
    AcceptedOnNewSession(s1, c', 0, ALL_WELL);
    OnlySessionRoom(s, c);
    PreKeyKeepsHeld(s1, c', 0, ALL_WELL);
    StillHeld(s1, DecryptPreKeyMessage(s1, c', 0, ALL_WELL).0, c);
    DeliveriesRun(s, c, c');
  }

  lemma DeliveriesRun(s: Store, c: Ciphertext, c': Ciphertext)
    ensures IsRun(s, [(PreKeyEvent(c, 0), ALL_WELL), (PreKeyEvent(c', 0), ALL_WELL)])
  {
    hide Step;
    var first, rest := (PreKeyEvent(c, 0), ALL_WELL), [(PreKeyEvent(c', 0), ALL_WELL)];
    var s1 := Step(s, first.0, first.1);
    assert rest[1..] == [] && IsRun(Step(s1, rest[0].0, rest[0].1), []);
    assert IsRun(s1, rest);
    assert [first, rest[0]][1..] == rest;
  }

  lemma OtherKeyNotHeld(s: Store, c: Ciphertext, c': Ciphertext)
    requires Parses(c) && Parses(c') && c'.baseKey != c.baseKey
    requires forall x | x in Sessions(Load(s)) :: x.aliceBaseKey == Some(c.baseKey)
    ensures !Holds(s, c')
  {
    HasAmongSessions(Load(s), c'.version, c'.baseKey);
  }

  lemma OnlySessionRoom(s: Store, c: Ciphertext)
    requires s.record.None? && Opens(s, c)
    ensures |Load(DecryptPreKeyMessage(s, c, 0, ALL_WELL).0).previous| == 0
  {
    hide DecryptFromState, ReceivedSession, Typed, DecryptFromRecord;
    SetUpRecord(s, c);
    var r := SetUpFromMessage(s, Load(s), c).value.0;
    var k := DecryptConserves(r, c.message, 0);
  }

  lemma StillHeld(s: Store, s': Store, c: Ciphertext)
    requires Parses(c) && Holds(s, c) && StillHolds(Load(s), Load(s'))
    ensures Holds(s', c)
  {
  }
}
