/**
 * Which keys a held session was set up with, and when two set-ups come to the
 * same secret.  Agreement does not see how a public key is encoded, while the
 * record recognises a base key by its bytes: this is exactly where a pre-key
 * message can lead to a secret that is held already.
 */
module SetupOrigins {
  import opened Common
  import opened Terms
  import opened KeyWindow
  import opened Session
  import opened Ratchet
  import opened SessionCipher
  import opened SessionRecord
  import opened SessionBuilder
  import opened SessionLedger
  import opened RatchetRuns
  import PreKeyRedelivery

  /** A pair of our own that is not the identity key. */
  predicate OwnPair(identity: KeyPair, pair: KeyPair) {
    Proper(pair) && pair.priv != identity.priv
  }

  // ----- when two set-ups come to the same secret

  /** The key `theirs` is, in some encoding, the public key of `ours`. */
  predicate IsPublic(theirs: PublicKey, ours: PrivateKey) {
    SamePoint(theirs, PublicKey(ours.id))
  }

  /**
   * Two pre-key messages: the same points of the peer and the same keys of
   * ours.  A base key of small order blots out our keys but for what the
   * peer's identity key makes of the signed pre key.
   */
  predicate SameMessageKeys(q: BobParameters, p: BobParameters) {
    && SamePoint(q.theirBase, p.theirBase)
    && (q.ourOneTimePreKey.Some? <==> p.ourOneTimePreKey.Some?)
    && if p.theirBase.small then
         Agree(q.theirIdentity, q.ourSignedPreKey.priv) == Agree(p.theirIdentity, p.ourSignedPreKey.priv)
       else
         && SamePoint(q.theirIdentity, p.theirIdentity)
         && q.ourSignedPreKey.priv == p.ourSignedPreKey.priv
         && (q.ourOneTimePreKey.Some? ==> q.ourOneTimePreKey.value.priv == p.ourOneTimePreKey.value.priv)
  }

  /** We wrote to ourselves, and our own base key comes back; or every key of the peer has small order. */
  predicate OwnMessageKeys(q: AliceParameters, p: BobParameters) {
    && (q.theirOneTimePreKey.Some? <==> p.ourOneTimePreKey.Some?)
    && if p.theirBase.small then
         && p.theirIdentity.small && q.theirIdentity.small && q.theirSignedPreKey.small
         && (q.theirOneTimePreKey.Some? ==> q.theirOneTimePreKey.value.small)
       else
         && IsPublic(p.theirBase, q.ourBase.priv) && IsPublic(p.theirIdentity, p.ourIdentity.priv)
         && IsPublic(q.theirIdentity, p.ourIdentity.priv) && IsPublic(q.theirSignedPreKey, p.ourSignedPreKey.priv)
         && (q.theirOneTimePreKey.Some? ==> IsPublic(q.theirOneTimePreKey.value, p.ourOneTimePreKey.value.priv))
  }

  predicate SameSetup(o: Setup, p: BobParameters) {
    match o
    case ByMessage(q) => SameMessageKeys(q, p)
    case ByBundle(q) => OwnMessageKeys(q, p)
    case ByExchange(q) => if SymmetricIsAlice(q) then OwnMessageKeys(AsAlice(q), p) else SameMessageKeys(AsBob(q), p)
  }

  lemma MessageSecretsEqual(q: BobParameters, p: BobParameters)
    requires q.ourIdentity.priv == p.ourIdentity.priv
    ensures BobSecret(q) == BobSecret(p) <==> SameMessageKeys(q, p)
  {
    var a, b := BobSecret(q).parts, BobSecret(p).parts;
    if BobSecret(q) == BobSecret(p) {
      assert |a| == |b| && a[1] == b[1] && a[2] == b[2] && a[3] == b[3];
      assert p.ourOneTimePreKey.Some? ==> a[4] == b[4];
    }
  }

  lemma OwnSecretsEqual(q: AliceParameters, p: BobParameters)
    requires q.ourIdentity.priv == p.ourIdentity.priv && OwnPair(p.ourIdentity, q.ourBase)
    ensures AliceSecret(q) == BobSecret(p) <==> OwnMessageKeys(q, p)
  {
    var a, b := AliceSecret(q).parts, BobSecret(p).parts;
    if AliceSecret(q) == BobSecret(p) {
      assert |a| == |b| && a[1] == b[1] && a[2] == b[2] && a[3] == b[3];
      assert p.ourOneTimePreKey.Some? ==> a[4] == b[4];
    }
  }

  predicate OursIn(o: Setup, identity: KeyPair) {
    match o
    case ByMessage(p) => p.ourIdentity == identity
    case ByBundle(p) => p.ourIdentity == identity && OwnPair(identity, p.ourBase)
    case ByExchange(p) => p.ourIdentity == identity && OwnPair(identity, p.ourBase)
  }

  /** A pre-key message leads to the secret of a set-up exactly if the keys are the same. */
  lemma SetupSecretsEqual(o: Setup, p: BobParameters)
    requires OursIn(o, p.ourIdentity)
    ensures SetupSecret(o) == BobSecret(p) <==> SameSetup(o, p)
  {
    hide AliceSecret, BobSecret, SameMessageKeys, OwnMessageKeys;
    match o {
      case ByMessage(q) => MessageSecretsEqual(q, p);
      case ByBundle(q) => OwnSecretsEqual(q, p);
      case ByExchange(q) =>
        if SymmetricIsAlice(q) {
          OwnSecretsEqual(AsAlice(q), p);
        } else {
          MessageSecretsEqual(AsBob(q), p);
        }
    }
  }

  // ----- the origins of the held sessions

  /** How a session was set up, as far as it shows. */
  ghost predicate SetUpAs(x: State, o: Setup, identity: KeyPair) {
    && Live(x) && SessionSecret(x) == SetupSecret(o) && OursIn(o, identity)
    && match o
       case ByMessage(p) => x.aliceBaseKey == Some(p.theirBase)
       case ByBundle(p) => x.aliceBaseKey == Some(p.ourBase.pub)
       case ByExchange(_) => true
  }

  /** The session has an origin of the kind `ok`, and what it offered is ours. */
  ghost predicate Traced(x: State, identity: KeyPair, ok: Setup -> bool) {
    && (Live(x) ==> exists o :: SetUpAs(x, o, identity) && ok(o))
    && (x.pendingKeyExchange.Some? ==>
          var offer := x.pendingKeyExchange.value;
          offer.identityKey == identity && OwnPair(identity, offer.baseKey))
  }

  ghost predicate AllTraced(sessions: seq<State>, identity: KeyPair, ok: Setup -> bool) {
    forall x | x in sessions :: Traced(x, identity, ok)
  }

  /**
   * A delivered pre-key message leads to a secret that is held exactly if a
   * held session was set up with the same keys: the same points of the peer,
   * in whatever encoding, and the same keys of ours.
   */
  lemma HeldSecretExactly(s: Store, c: Ciphertext, ok: Setup -> bool)
    requires AllTraced(Sessions(Load(s)), s.identity, ok) && Parses(c) && KeysHeld(s, c)
    ensures
      var p := BobParametersOf(s, c);
      BobSecret(p) in SecretsOf(Sessions(Load(s))) <==>
      exists x, o | x in Sessions(Load(s)) :: SetUpAs(x, o, s.identity) && SameSetup(o, p)
    ensures
      var p := BobParametersOf(s, c);
      BobSecret(p) in SecretsOf(Sessions(Load(s))) ==>
      exists x, o | x in Sessions(Load(s)) :: SetUpAs(x, o, s.identity) && SameSetup(o, p) && ok(o)
  {
    hide BobSecret, SetupSecret, SessionSecret, SameSetup, OursIn;
    var p := BobParametersOf(s, c);
    var sessions := Sessions(Load(s));
    if BobSecret(p) in SecretsOf(sessions) {
      var x :| x in sessions && Live(x) && SessionSecret(x) == BobSecret(p);
      assert Traced(x, s.identity, ok);
      var o :| SetUpAs(x, o, s.identity) && ok(o);
      SetupSecretsEqual(o, p);
    }
    if x, o :| x in sessions && SetUpAs(x, o, s.identity) && SameSetup(o, p) {
      SetupSecretsEqual(o, p);
    }
  }

  // ----- every step keeps the origins

  /** The pairs drawn are our own. */
  predicate DrawsOwn(s: Store, e: Event) {
    e.BundleEvent? || e.StartEvent? || e.ExchangeEvent? ==> OwnPair(s.identity, e.base)
  }

  /** Sessions that agree in secret, base key and offer have the same origins. */
  lemma SameOrigin(x: State, y: State, identity: KeyPair, ok: Setup -> bool)
    requires Traced(x, identity, ok) && (Live(x) <==> Live(y))
    requires Live(x) ==> SessionSecret(x) == SessionSecret(y)
    requires y.aliceBaseKey == x.aliceBaseKey && y.pendingKeyExchange == x.pendingKeyExchange
    ensures Traced(y, identity, ok)
  {
    hide SessionSecret, SetupSecret, OursIn;
    if Live(x) {
      var o :| SetUpAs(x, o, identity) && ok(o);
      assert SetUpAs(y, o, identity);
    }
  }

  lemma DecryptKeepsOrigin(x: State, m: Message, ours: KeyPair, identity: KeyPair, ok: Setup -> bool)
    requires DecryptFromState(x, m, ours).Ok? && Traced(x, identity, ok)
    ensures Traced(DecryptFromState(x, m, ours).value.0, identity, ok)
  {
    var found, i, window, key := DecryptOpens(x, m, ours);
    CreateKeepsOrigin(x, m.content.ratchetKey, ours, identity, ok);
    hide GetOrCreateChain, Take, DecryptFromState, SetUpAs, OwnPair;
    SameOrigin(found, DecryptFromState(x, m, ours).value.0, identity, ok);
  }

  lemma CreateKeepsOrigin(x: State, theirs: PublicKey, ours: KeyPair, identity: KeyPair, ok: Setup -> bool)
    requires GetOrCreateChain(x, theirs, ours).Ok? && Traced(x, identity, ok)
    ensures Traced(GetOrCreateChain(x, theirs, ours).value.0, identity, ok)
  {
    hide Traced;
    var found := GetOrCreateChain(x, theirs, ours).value.0;
    if FindChain(x.receiverChains, theirs) == |x.receiverChains| {
      var receiverRoot := CreateChain(x.rootKey.value, theirs, x.senderChain.value.ratchetPair.value.priv).0;
      assert SecretOf(receiverRoot.key) == SecretOf(x.rootKey.value.key);
      assert SecretOf(found.rootKey.value.key) == SecretOf(receiverRoot.key);
    }
    SameOrigin(x, found, identity, ok);
  }

  lemma RecordKeepsOrigins(r: Record, m: Message, supply: nat, identity: KeyPair, ok: Setup -> bool)
    requires RecordOk(r) && RecordWellTyped(r) && AllTraced(Sessions(r), identity, ok)
    requires DecryptFromRecord(r, m, supply).Ok?
    ensures AllTraced(Sessions(DecryptFromRecord(r, m, supply).value.0), identity, ok)
  {
    var k := DecryptConserves(r, m, supply);
    var r' := DecryptFromRecord(r, m, supply).value.0;
    var before, after := Sessions(r), Sessions(r');
    hide DecryptFromRecord, DecryptFromState, Copy, Typed, Traced;
    TypedCopies(before[k]);
    assert before[k] in before;
    hide RecordOk;
    DecryptKeepsOrigin(before[k], m, DrawnFor(r, supply, k), identity, ok);
    assert forall x :: x in after ==> x == after[0] || x in before;
  }

  lemma StartingKeepsOrigins(s: Store, x: State, ok: Setup -> bool)
    requires StoreOk(s) && AllTraced(Sessions(Load(s)), s.identity, ok) && Traced(x, s.identity, ok)
    ensures AllTraced(Sessions(Opened(Load(s)).(state := Some(x))), s.identity, ok)
  {
    hide Traced, StoreOk;
    var n := StartedSessions(s, x);
  }

  lemma ReceivedTraced(s: Store, c: Ciphertext, ok: Setup -> bool)
    requires Parses(c) && KeysHeld(s, c) && ok(ByMessage(BobParametersOf(s, c)))
    ensures Traced(ReceivedSession(s, c, FRESH), s.identity, ok)
  {
    ReceivedKept(s, c);
    assert SetUpAs(ReceivedSession(s, c, FRESH), ByMessage(BobParametersOf(s, c)), s.identity);
  }

  /** The origins of the sessions in a store. */
  ghost predicate StoreTraced(s: Store, ok: Setup -> bool) {
    StoreOk(s) && AllTraced(Sessions(Load(s)), s.identity, ok)
  }

  /** Whatever the event starts is of the kind `ok`. */
  ghost predicate StartsOk(s: Store, e: Event, ok: Setup -> bool) {
    StartedSetup(s, e).Some? ==> ok(StartedSetup(s, e).value)
  }

  lemma StoredTraced(s: Store, r: Record, s': Store, ok: Setup -> bool)
    requires AllTraced(Sessions(r), s.identity, ok) && s'.record == Some(r) && s'.identity == s.identity && StoreOk(s')
    ensures StoreTraced(s', ok)
  {
    hide Traced, StoreOk;
    StoredSessions(s', r);
  }

  lemma PreKeyKeepsOrigins(s: Store, c: Ciphertext, supply: nat, v: Verdicts, ok: Setup -> bool)
    requires StoreTraced(s, ok) && Parses(c) && StartsOk(s, PreKeyEvent(c, supply), ok)
    ensures StoreTraced(DecryptPreKeyMessage(s, c, supply, v).0, ok)
  {
    hide StoreOk, RecordOk, RecordWellTyped, DecryptFromRecord, HasSessionState, AllTraced, ReceivedSession;
    var processed := ProcessPreKeyMessage(s, Load(s), c, v);
    var s' := DecryptPreKeyMessage(s, c, supply, v).0;
    PreKeyKeepsStore(s, c, supply, v);
    if processed.Ok? {
      var r := processed.value.0;
      ProcessKeepsRecord(s, c, v);
      WellTypedRecord(r);
      if !HasSessionState(Load(s), c.version, c.baseKey) {
        OpenedFresh(s);
        ReceivedTraced(s, c, ok);
        StartingKeepsOrigins(s, ReceivedSession(s, c, FRESH), ok);
      }
      if DecryptFromRecord(r, c.message, supply).Ok? && v.callbackOk && v.storeOk {
        RecordKeepsOrigins(r, c.message, supply, s.identity, ok);
        StoredTraced(s, DecryptFromRecord(r, c.message, supply).value.0, s', ok);
      }
    }
  }

  lemma SignalKeepsOrigins(s: Store, m: Message, supply: nat, v: Verdicts, ok: Setup -> bool)
    requires StoreTraced(s, ok)
    ensures StoreTraced(DecryptSignalMessage(s, m, supply, v).0, ok)
  {
    hide StoreOk, RecordOk, RecordWellTyped, DecryptFromRecord, AllTraced;
    var s' := DecryptSignalMessage(s, m, supply, v).0;
    SignalKeepsStore(s, m, supply, v);
    LoadOk(s);
    if s.record.Some? && DecryptFromRecord(Load(s), m, supply).Ok? && v.callbackOk && v.storeOk {
      RecordKeepsOrigins(Load(s), m, supply, s.identity, ok);
      StoredTraced(s, DecryptFromRecord(Load(s), m, supply).value.0, s', ok);
    }
  }

  lemma BundleKeepsOrigins(s: Store, b: Bundle, base: KeyPair, ratchet: KeyPair, v: Verdicts, ok: Setup -> bool)
    requires StoreTraced(s, ok) && Fresh(s, BundleEvent(b, base, ratchet)) && OwnPair(s.identity, base)
    requires StartsOk(s, BundleEvent(b, base, ratchet), ok)
    ensures StoreTraced(ProcessBundle(s, b, base, ratchet, v), ok)
  {
    hide StoreOk, AliceInitialize, Opened, AllTraced;
    BundleKeepsStore(s, b, base, ratchet, v);
    var s' := ProcessBundle(s, b, base, ratchet, v);
    if s'.record != s.record {
      var p := AliceParametersOf(s, b, base);
      OpenedFresh(s);
      AliceKept(p, ratchet);
      var x := s'.record.value.state.value;
      assert SetUpAs(x, ByBundle(p), s.identity);
      FreshOffersNothing(p, ratchet);
      StartingKeepsOrigins(s, x, ok);
      StoredTraced(s, s'.record.value, s', ok);
    }
  }

  lemma FreshOffersNothing(p: AliceParameters, sending: KeyPair)
    ensures AliceInitialize(FRESH, p, sending).pendingKeyExchange.None?
  {
  }

  lemma ExchangeKeepsOrigins(s: Store, e: Event, v: Verdicts, ok: Setup -> bool)
    requires StoreTraced(s, ok) && e.ExchangeEvent? && OwnPair(s.identity, e.base) && StartsOk(s, e, ok)
    ensures StoreTraced(ProcessKeyExchange(s, e.exchange, e.base, e.ratchet, e.sending, v).0, ok)
  {
    hide StoreOk, SymmetricInitialize, Opened, OwnPair, SymmetricSecret;
    ExchangeKeepsStore(s, e.exchange, e.base, e.ratchet, e.sending, v);
    var s' := ProcessKeyExchange(s, e.exchange, e.base, e.ratchet, e.sending, v).0;
    if s'.record != s.record {
      OpenedFresh(s);
      AnswersOwn(s, e, ok);
      var p := ExchangeParameters(AnsweringKeys(s, e.exchange, e.base, e.ratchet), e.exchange);
      var x := SymmetricInitialize(FRESH, p, e.sending);
      SymmetricKept(p, e.sending);
      SymmetricTyped(p, e.sending);
      assert SetUpAs(x, ByExchange(p), s.identity);
      hide AllTraced;
      StartingKeepsOrigins(s, x, ok);
      StoredTraced(s, Opened(Load(s)).(state := Some(x)), s', ok);
    }
  }

  lemma AnswersOwn(s: Store, e: Event, ok: Setup -> bool)
    requires StoreTraced(s, ok) && e.ExchangeEvent? && OwnPair(s.identity, e.base)
    ensures
      var ours := AnsweringKeys(s, e.exchange, e.base, e.ratchet);
      ours.identityKey == s.identity && OwnPair(s.identity, ours.baseKey)
  {
    if Load(s).state.Some? {
      assert Sessions(Load(s))[0] in Sessions(Load(s)) && Traced(Load(s).state.value, s.identity, ok);
    }
  }

  /** The current session is replaced. */
  lemma ReplacedOrigins(s: Store, x: State, s': Store, ok: Setup -> bool)
    requires StoreTraced(s, ok) && Load(s).state.Some? && Traced(x, s.identity, ok)
    requires s'.record == Some(Load(s).(state := Some(x))) && s'.identity == s.identity && StoreOk(s')
    ensures StoreTraced(s', ok)
  {
    hide StoreOk, Traced;
    var before, after := Sessions(Load(s)), Sessions(Load(s).(state := Some(x)));
    assert forall y :: y in after ==> y == x || y in before;
    StoredTraced(s, Load(s).(state := Some(x)), s', ok);
  }

  lemma StartKeepsOrigins(s: Store, sequence: u32, base: KeyPair, ratchet: KeyPair, v: Verdicts, ok: Setup -> bool)
    requires StoreTraced(s, ok) && OwnPair(s.identity, base)
    ensures StoreTraced(StartExchange(s, sequence, base, ratchet, v).0, ok)
  {
    hide StoreOk;
    StartKeepsStore(s, sequence, base, ratchet, v);
    var s' := StartExchange(s, sequence, base, ratchet, v).0;
    if s'.record != s.record {
      var was, x := Load(s).state.value, s'.record.value.state.value;
      assert Sessions(Load(s))[0] in Sessions(Load(s)) && Traced(was, s.identity, ok);
      SameOrigin(was.(pendingKeyExchange := None), x.(pendingKeyExchange := None), s.identity, ok);
      OriginWithOffer(x.(pendingKeyExchange := None), x, s.identity, ok);
      ReplacedOrigins(s, x, s', ok);
    }
  }

  lemma OriginWithOffer(x: State, y: State, identity: KeyPair, ok: Setup -> bool)
    requires Traced(x, identity, ok) && y.(pendingKeyExchange := None) == x
    requires y.pendingKeyExchange.Some? && y.pendingKeyExchange.value.identityKey == identity
    requires OwnPair(identity, y.pendingKeyExchange.value.baseKey)
    ensures Traced(y, identity, ok)
  {
    hide SetupSecret, OursIn;
    if Live(x) {
      var o :| SetUpAs(x, o, identity) && ok(o);
      assert SetUpAs(y, o, identity);
    }
  }

  lemma EncryptKeepsOrigins(s: Store, plaintext: Plaintext, v: Verdicts, ok: Setup -> bool)
    requires StoreTraced(s, ok)
    ensures StoreTraced(EncryptMessage(s, plaintext, v), ok)
  {
    hide StoreOk, Traced;
    EncryptKeepsStore(s, plaintext, v);
    var s' := EncryptMessage(s, plaintext, v);
    if s'.record != s.record {
      var was, x := Load(s).state.value, s'.record.value.state.value;
      assert Sessions(Load(s))[0] in Sessions(Load(s)) && Traced(was, s.identity, ok);
      SameOrigin(was, x, s.identity, ok);
      ReplacedOrigins(s, x, s', ok);
    }
  }

  /** Every step keeps the origins of all sessions. */
  lemma StepKeepsOrigins(s: Store, e: Event, v: Verdicts, ok: Setup -> bool)
    requires StoreTraced(s, ok) && Fresh(s, e) && DrawsOwn(s, e) && StartsOk(s, e, ok)
    ensures StoreTraced(Step(s, e, v), ok)
  {
    hide StoreTraced, Fresh, OwnPair, StartsOk, DecryptPreKeyMessage, DecryptSignalMessage, ProcessBundle;
    hide ProcessKeyExchange, StartExchange, EncryptMessage;
    match e {
      case BundleEvent(b, base, ratchet) => BundleKeepsOrigins(s, b, base, ratchet, v, ok);
      case PreKeyEvent(c, supply) =>
        if Parses(c) {
          PreKeyKeepsOrigins(s, c, supply, v, ok);
        }
      case SignalEvent(m, supply) => SignalKeepsOrigins(s, m, supply, v, ok);
      case StartEvent(sequence, base, ratchet) => StartKeepsOrigins(s, sequence, base, ratchet, v, ok);
      case ExchangeEvent(_, _, _, _) => ExchangeKeepsOrigins(s, e, v, ok);
      case EncryptEvent(plaintext) => EncryptKeepsOrigins(s, plaintext, v, ok);
    }
  }

  ghost predicate IsTracedRun(s: Store, run: seq<(Event, Verdicts)>, ok: Setup -> bool)
    decreases |run|
  {
    run != [] ==>
      && Fresh(s, run[0].0) && DrawsOwn(s, run[0].0) && StartsOk(s, run[0].0, ok)
      && IsTracedRun(Step(s, run[0].0, run[0].1), run[1..], ok)
  }

  lemma {:induction false} RunKeepsOrigins(s: Store, run: seq<(Event, Verdicts)>, ok: Setup -> bool)
    requires StoreTraced(s, ok) && IsTracedRun(s, run, ok)
    ensures StoreTraced(Final(s, run), ok)
    decreases |run|
  {
    hide StoreTraced, Step, Fresh, StartsOk, DrawsOwn;
    if run != [] {
      StepKeepsOrigins(s, run[0].0, run[0].1, ok);
      RunKeepsOrigins(Step(s, run[0].0, run[0].1), run[1..], ok);
    }
  }

  lemma EmptyTraced(s: Store, ok: Setup -> bool)
    requires s.record.None?
    ensures StoreTraced(s, ok)
  {
    assert Sessions(Load(s)) == [FRESH];
  }

  predicate AnySetup(o: Setup) { true }

  /**
   * After every run, a delivered pre-key message leads to a secret that is held
   * exactly if a held session was set up with the same keys.
   */
  lemma ReachableSecretExactly(s: Store, run: seq<(Event, Verdicts)>, c: Ciphertext)
    requires s.record.None? && IsTracedRun(s, run, AnySetup) && Parses(c) && KeysHeld(Final(s, run), c)
    ensures
      var end := Final(s, run);
      var p := BobParametersOf(end, c);
      BobSecret(p) in SecretsOf(Sessions(Load(end))) <==>
      exists x, o | x in Sessions(Load(end)) :: SetUpAs(x, o, end.identity) && SameSetup(o, p)
  {
    hide IsTracedRun, Final, KeysHeld, BobSecret, SecretsOf, SetUpAs, SameSetup;
    EmptyTraced(s, AnySetup);
    RunKeepsOrigins(s, run, AnySetup);
    HeldSecretExactly(Final(s, run), c, AnySetup);
  }

  // ----- a condition on the keys that come in

  /**
   * Base keys of pre-key messages are encoded as generated keys are and have
   * no small order; key exchanges are not with ourselves, nor made with a
   * signed pre key.
   */
  predicate CanonicalSetup(o: Setup, identity: KeyPair, signed: map<u32, KeyPair>) {
    match o
    case ByMessage(p) => p.theirBase.form == 0 && !p.theirBase.small
    case ByBundle(_) => true
    case ByExchange(p) =>
      !IsPublic(p.theirIdentity, identity.priv) && forall id | id in signed :: signed[id].priv != p.ourBase.priv
  }

  function CanonicalWith(identity: KeyPair, signed: map<u32, KeyPair>): Setup -> bool {
    (o: Setup) => CanonicalSetup(o, identity, signed)
  }

  /** Every session of the store has a canonical set-up. */
  ghost predicate StoreCanonical(s: Store) {
    StoreTraced(s, CanonicalWith(s.identity, s.signedPreKeys))
  }

  /** A key id that goes into the secret. */
  predicate Mentions(secret: Term, k: nat) {
    secret.Secret? && exists part | part in secret.parts :: part.Shared? && (part.lo == k || part.hi == k)
  }

  /** No held session was set up with this key. */
  ghost predicate NewBase(s: Store, pair: KeyPair) {
    forall secret | secret in SecretsOf(Sessions(Load(s))) :: !Mentions(secret, pair.priv.id)
  }

  /** What a caller can see to: canonical keys, new keys of our own, and exchanges that do not repeat a secret. */
  ghost predicate Careful(s: Store, e: Event) {
    && Fresh(s, e) && DrawsOwn(s, e) && StartsOk(s, e, CanonicalWith(s.identity, s.signedPreKeys))
    && (e.BundleEvent? ==> NewBase(s, e.base) && !e.bundle.signedPreKey.small)
    && (e.ExchangeEvent? ==> Fair(s, e))
  }

  /** A bundle processed with a new base key has a new secret. */
  lemma NewBaseNewSecret(s: Store, b: Bundle, base: KeyPair)
    requires NewBase(s, base) && !b.signedPreKey.small
    ensures AliceSecret(AliceParametersOf(s, b, base)) !in SecretsOf(Sessions(Load(s)))
  {
    var secret := AliceSecret(AliceParametersOf(s, b, base));
    assert secret.parts[3] in secret.parts && secret.parts[3] == Agree(b.signedPreKey, base.priv);
    assert Mentions(secret, base.priv.id);
    hide SecretsOf, AliceSecret;
  }

  /** A held session with the same keys as a canonical message has its very base key. */
  lemma SameKeysSameBytes(x: State, o: Setup, s: Store, c: Ciphertext)
    requires Parses(c) && KeysHeld(s, c) && c.baseKey.form == 0 && !c.baseKey.small
    requires SetUpAs(x, o, s.identity) && SameSetup(o, BobParametersOf(s, c)) &&
             CanonicalSetup(o, s.identity, s.signedPreKeys)
    ensures x.aliceBaseKey == Some(c.baseKey)
  {
    hide SetupSecret, SessionSecret;
  }

  lemma CarefulIsFair(s: Store, e: Event, ledger: set<Entry>)
    requires StoreCanonical(s) && StoreKept(s, ledger) && Careful(s, e)
    ensures Fair(s, e)
  {
    hide StoreOk, BobSecret, AliceSecret, SecretsOf;
    match e {
      case BundleEvent(b, base, _) => NewBaseNewSecret(s, b, base);
      case PreKeyEvent(c, _) =>
        if StartedSetup(s, e).Some? {
          CanonicalUnheld(s, c, ledger);
        }
      case _ =>
    }
  }

  lemma CanonicalUnheld(s: Store, c: Ciphertext, ledger: set<Entry>)
    requires StoreCanonical(s) && StoreKept(s, ledger) && Parses(c) && KeysHeld(s, c)
    requires !HasSessionState(Load(s), c.version, c.baseKey) && c.baseKey.form == 0 && !c.baseKey.small
    ensures BobSecret(BobParametersOf(s, c)) !in SecretsOf(Sessions(Load(s)))
  {
    hide StoreOk, BobSecret, SecretsOf, SetUpAs, SameSetup, CanonicalSetup;
    HeldSecretExactly(s, c, CanonicalWith(s.identity, s.signedPreKeys));
    HasAmongSessions(Load(s), c.version, c.baseKey);
    if BobSecret(BobParametersOf(s, c)) in SecretsOf(Sessions(Load(s))) {
      var x, o :| x in Sessions(Load(s)) && SetUpAs(x, o, s.identity) && SameSetup(o, BobParametersOf(s, c)) &&
        CanonicalWith(s.identity, s.signedPreKeys)(o);
      var i :| 0 <= i < |Sessions(Load(s))| && Sessions(Load(s))[i] == x;
      SameKeysSameBytes(x, o, s, c);
      LiveVersion(x, o, s.identity, ledger);
      assert false;
    }
  }

  lemma LiveVersion(x: State, o: Setup, identity: KeyPair, ledger: set<Entry>)
    requires SetUpAs(x, o, identity) && SessionKept(x, ledger)
    ensures x.version == CURRENT_VERSION
  {
  }

  ghost predicate IsCarefulRun(s: Store, run: seq<(Event, Verdicts)>)
    decreases |run|
  {
    run != [] ==> Careful(s, run[0].0) && IsCarefulRun(Step(s, run[0].0, run[0].1), run[1..])
  }

  lemma CarefulStep(s: Store, e: Event, v: Verdicts, ledger: set<Entry>) returns (ledger': set<Entry>)
    requires StoreCanonical(s) && StoreKept(s, ledger) && Careful(s, e)
    ensures Fair(s, e)
    ensures var s' := Step(s, e, v); StoreCanonical(s') && StoreKept(s', ledger')
  {
    CarefulIsFair(s, e, ledger);
    hide StoreTraced, StoreKept, Fair, Step, Fresh, DrawsOwn, StartsOk, CanonicalSetup;
    PreKeyRedelivery.StepKeepsKeys(s, e, v);
    StepKeepsOrigins(s, e, v, CanonicalWith(s.identity, s.signedPreKeys));
    var ledger1, _ := StepCarries(s, e, v, ledger);
    ledger' := ledger1;
    CarriedKept(ledger, ledger', Step(s, e, v));
  }

  lemma {:induction false} CarefulRunIsFair(s: Store, run: seq<(Event, Verdicts)>, ledger: set<Entry>)
    returns (ledger': set<Entry>)
    requires StoreCanonical(s) && StoreKept(s, ledger) && IsCarefulRun(s, run)
    ensures IsFairRun(s, run) && StoreCanonical(Final(s, run)) && StoreKept(Final(s, run), ledger')
    decreases |run|
  {
    hide StoreCanonical, StoreKept, Step, Careful, Fair;
    ledger' := ledger;
    if run != [] {
      var ledger1 := CarefulStep(s, run[0].0, run[0].1, ledger);
      ledger' := CarefulRunIsFair(Step(s, run[0].0, run[0].1), run[1..], ledger1);
    }
  }

  /**
   * At most once, in terms of what a caller can see to: canonical keys, new
   * keys of our own, and no exchange that repeats a secret.
   */
  lemma CanonicalAtMostOnce(s: Store, first: seq<(Event, Verdicts)>, e: Event, v: Verdicts,
                            middle: seq<(Event, Verdicts)>, e': Event, v': Verdicts)
    requires s.record.None?
    requires
      var a := Final(s, first);
      var b := Step(a, e, v);
      var c := Final(b, middle);
      && IsCarefulRun(s, first) && Careful(a, e) && Accepts(a, e, v)
      && IsCarefulRun(b, middle) && Careful(c, e') && Accepts(c, e', v')
      && Retains(b, middle, CurrentSecret(b))
    ensures MessageOf(e') != MessageOf(e)
  {
    hide Step, Final, IsCarefulRun, IsFairRun, Careful, Fair, StoreCanonical, StoreKept, Retains, Accepts;
    var a := Final(s, first);
    var b := Step(a, e, v);
    EmptyCanonical(s);
    var ledger := CarefulRunIsFair(s, first, {});
    var ledger1 := CarefulStep(a, e, v, ledger);
    var ledger2 := CarefulRunIsFair(b, middle, ledger1);
    var ledger3 := CarefulStep(Final(b, middle), e', v', ledger2);
    AtMostOnce(s, first, e, v, middle, e', v');
  }

  lemma EmptyCanonical(s: Store)
    requires s.record.None?
    ensures StoreCanonical(s) && StoreKept(s, {})
  {
    EmptyTraced(s, CanonicalWith(s.identity, s.signedPreKeys));
    EmptyKept(s);
  }
}
