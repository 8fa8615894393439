/**
 * From the builders to the ratchet: two parties that set up their sessions
 * from a bundle and the pre-key message it leads to, or from a key exchange,
 * stand at the start of the world that the ratchet theorems are about.
 */
module SessionSetup {
  import opened Common
  import opened Terms
  import opened Session
  import opened Ratchet
  import opened SessionCipher
  import opened SessionRecord
  import opened RatchetWorld
  import opened RatchetHistory
  import opened RatchetTheorems
  import Builder = SessionBuilder
  import Redelivery = PreKeyRedelivery

  // ----- pre keys

  /** What Bob publishes: a signed pre key and, perhaps, a one-time pre key of his store. */
  function Published(bob: Builder.Store, signedId: u32, preKeyId: Option<u32>): Builder.Bundle
    requires signedId in bob.signedPreKeys && (preKeyId.Some? ==> preKeyId.value in bob.preKeys)
  {
    Builder.Bundle(bob.registrationId, bob.identity.pub, signedId, bob.signedPreKeys[signedId].pub,
                   if preKeyId.Some? then Some((preKeyId.value, bob.preKeys[preKeyId.value].pub)) else None)
  }

  /** Both stores hold genuine key pairs and no session with the other party yet. */
  ghost predicate Strangers(alice: Builder.Store, bob: Builder.Store, signedId: u32, preKeyId: Option<u32>, k0: nat) {
    && alice.record.None? && bob.record.None? && Proper(alice.identity) && Proper(bob.identity)
    && signedId in bob.signedPreKeys && bob.signedPreKeys[signedId] == GeneratePair(k0)
    && (preKeyId.Some? ==> preKeyId.value in bob.preKeys && Proper(bob.preKeys[preKeyId.value]))
  }

  /** Alice's store after she processed Bob's bundle with base key `k` and ratchet key `k1`. */
  function Initiated(alice: Builder.Store, bundle: Builder.Bundle, k: nat, k1: nat): Builder.Store {
    Builder.ProcessBundle(alice, bundle, GeneratePair(k), GeneratePair(k1), Redelivery.ALL_WELL)
  }

  /** A pre-key message as Alice sends it for this bundle, around whatever message. */
  function Wrapped(alice: Builder.Store, bundle: Builder.Bundle, k: nat, m: Message): Ciphertext {
    PreKeySignalMessage(CURRENT_VERSION, alice.registrationId,
      if bundle.preKey.Some? then Some(bundle.preKey.value.0) else None,
      bundle.signedPreKeyId, PublicKey(k), alice.identity.pub, m)
  }

  /** Until she is answered, Alice wraps each of her messages the same way. */
  lemma AliceWraps(alice: Builder.Store, bob: Builder.Store, signedId: u32, preKeyId: Option<u32>, k0: nat, k: nat,
                   k1: nat, plaintext: Plaintext)
    requires Strangers(alice, bob, signedId, preKeyId, k0)
    ensures
      var bundle := Published(bob, signedId, preKeyId);
      var r := Initiated(alice, bundle, k, k1).record;
      && r.Some? && r.value.state.Some?
      && var sent := Encrypt(r.value.state.value, plaintext);
         && sent.Ok? && sent.value.1 == Wrapped(alice, bundle, k, sent.value.1.message)
         && sent.value.1.message.content.version == CURRENT_VERSION
         && sent.value.0.pendingPreKey == r.value.state.value.pendingPreKey
  {
  }

  /** The session records identity key and registration id of both ends, our own as local. */
  predicate Introduced(s: State, ours: Builder.Store, theirs: Builder.Store) {
    && s.localIdentity == Some(ours.identity.pub) && s.remoteIdentity == Some(theirs.identity.pub)
    && s.localRegistrationId == ours.registrationId && s.remoteRegistrationId == theirs.registrationId
  }

  /** The bundle on one side and the pre-key message on the other set up matching sessions. */
  lemma PreKeysMatch(alice: Builder.Store, bob: Builder.Store, signedId: u32, preKeyId: Option<u32>, k0: nat, k: nat,
                     k1: nat, m: Message)
    requires Strangers(alice, bob, signedId, preKeyId, k0)
    ensures
      var bundle := Published(bob, signedId, preKeyId);
      var ra := Initiated(alice, bundle, k, k1).record;
      var rb := Builder.ProcessPreKeyMessage(bob, Builder.Load(bob), Wrapped(alice, bundle, k, m), Redelivery.ALL_WELL);
      && ra.Some? && rb.Ok? && ra.value.previous == rb.value.0.previous == []
      && ra.value.state.Some? && rb.value.0.state.Some?
      && Matched(ra.value.state.value, rb.value.0.state.value, GeneratePair(k0), GeneratePair(k1))
      && Introduced(ra.value.state.value, alice, bob) && Introduced(rb.value.0.state.value, bob, alice)
  {
    var oneTime := if preKeyId.Some? then Some(bob.preKeys[preKeyId.value]) else None;
    X3dhAgreement(FRESH, FRESH, alice.identity, GeneratePair(k), GeneratePair(k1), bob.identity, GeneratePair(k0),
      oneTime);
  }

  /** The world with Alice's stored record and the record Bob decrypts her first message with. */
  function Started(alice: Record, bob: Record, nextKey: nat): World {
    World(Node(alice, [], []), Node(bob, [], []), nextKey)
  }

  lemma PreKeysSetUp(alice: Builder.Store, bob: Builder.Store, signedId: u32, preKeyId: Option<u32>, k0: nat, k: nat,
                     k1: nat, m: Message, nextKey: nat)
    requires Strangers(alice, bob, signedId, preKeyId, k0)
    requires k0 < nextKey && k1 < nextKey && k0 != k1
    ensures
      var bundle := Published(bob, signedId, preKeyId);
      var ra := Initiated(alice, bundle, k, k1).record;
      var rb := Builder.ProcessPreKeyMessage(bob, Builder.Load(bob), Wrapped(alice, bundle, k, m), Redelivery.ALL_WELL);
      && ra.Some? && rb.Ok?
      && Initial(Started(ra.value, rb.value.0, nextKey), k0, k1)
  {
    PreKeysMatch(alice, bob, signedId, preKeyId, k0, k, k1, m);
    hide Matched, Initiated, Builder.ProcessPreKeyMessage, Wrapped;
  }

  /** Bob's decryption of a pre-key message that finds no session is the world's receive step from there. */
  lemma FirstReceive(bob: Builder.Store, c: Ciphertext, w: World, v: Builder.Verdicts)
    requires bob.record.None? && Builder.Parses(c) && v.callbackOk && v.storeOk
    requires
      var processed := Builder.ProcessPreKeyMessage(bob, Builder.Load(bob), c, v);
      processed.Ok? && processed.value.0 == w.bob.record
    ensures
      var (bob', result) := Builder.DecryptPreKeyMessage(bob, c, w.nextKey, v);
      var w' := ReceiveStep(w, Bob, c.message, true);
      if bob'.record.None? then w'.bob == w.bob
      else bob'.record == Some(w'.bob.record) && |w'.bob.accepted| == |w.bob.accepted| + 1
  {
    hide DecryptFromRecord, Builder.SetUpFromMessage;
  }

  // ----- key exchanges

  ghost predicate NoSessionYet(s: Builder.Store) {
    s.record.None? && Proper(s.identity)
  }

  /** Party 1 starts an exchange, party 2 answers, party 1 takes the answer; taken again it is stale. */
  lemma ExchangeSetsUp(s1: Builder.Store, s2: Builder.Store, sequence: u32,
                       base1: nat, ratchet1: nat, sending1: nat, base2: nat, ratchet2: nat, sending2: nat, nextKey: nat,
                       drawn: KeyPair)
    requires NoSessionYet(s1) && NoSessionYet(s2) && base1 != base2
    requires ratchet1 < nextKey && sending2 < nextKey && ratchet1 != sending2
    requires ratchet2 < nextKey && sending1 < nextKey && ratchet2 != sending1
    ensures
      var v := Redelivery.ALL_WELL;
      var (s1', offer) := Builder.StartExchange(s1, sequence, GeneratePair(base1), GeneratePair(ratchet1), v);
      offer.Ok? &&
      var (s2', answer) := Builder.ProcessKeyExchange(s2, offer.value, GeneratePair(base2), GeneratePair(ratchet2),
        GeneratePair(sending2), v);
      answer.Ok? && answer.value.Some? &&
      var (s1'', done) := Builder.ProcessKeyExchange(s1', answer.value.value, drawn, drawn, GeneratePair(sending1), v);
      done == Ok(None) && s1''.record.Some? && s2'.record.Some? &&
      Builder.ProcessKeyExchange(s1'', answer.value.value, drawn, drawn, drawn, v) == (s1'', Err(StaleKeyExchange)) &&
      if base1 < base2
      then Initial(Started(s1''.record.value, s2'.record.value, nextKey), ratchet2, sending1)
      else Initial(Started(s2'.record.value, s1''.record.value, nextKey), ratchet1, sending2)
  {
    var p1 := SymmetricParameters(s1.identity, GeneratePair(base1), GeneratePair(ratchet1),
                                  PublicKey(base2), PublicKey(ratchet2), s2.identity.pub);
    Builder.SymmetricTyped(p1, GeneratePair(sending1));
    SymmetricAgreement(FRESH, FRESH, s1.identity, GeneratePair(base1), GeneratePair(ratchet1),
      s2.identity, GeneratePair(base2), GeneratePair(ratchet2), GeneratePair(sending1), GeneratePair(sending2));
    hide SymmetricInitialize, Matched, SymmetricIsAlice, Builder.Typed;
  }

  /**
   * Both parties start an exchange and take each other's offer: the sessions
   * match, and the answers that cross afterwards change nothing.
   */
  lemma CrossingOffersSetUp(s1: Builder.Store, s2: Builder.Store, sequence1: u32, sequence2: u32,
                            base1: nat, ratchet1: nat, sending1: nat, base2: nat, ratchet2: nat, sending2: nat,
                            nextKey: nat, drawn: KeyPair)
    requires NoSessionYet(s1) && NoSessionYet(s2) && base1 != base2
    requires ratchet1 < nextKey && sending2 < nextKey && ratchet1 != sending2
    requires ratchet2 < nextKey && sending1 < nextKey && ratchet2 != sending1
    ensures
      var v := Redelivery.ALL_WELL;
      var (s1', offer1) := Builder.StartExchange(s1, sequence1, GeneratePair(base1), GeneratePair(ratchet1), v);
      var (s2', offer2) := Builder.StartExchange(s2, sequence2, GeneratePair(base2), GeneratePair(ratchet2), v);
      offer1.Ok? && offer2.Ok? &&
      var (t1, answer1) := Builder.ProcessKeyExchange(s1', offer2.value, drawn, drawn, GeneratePair(sending1), v);
      var (t2, answer2) := Builder.ProcessKeyExchange(s2', offer1.value, drawn, drawn, GeneratePair(sending2), v);
      answer1.Ok? && answer1.value.Some? && answer2.Ok? && answer2.value.Some? && t1.record.Some? && t2.record.Some? &&
      Builder.ProcessKeyExchange(t1, answer2.value.value, drawn, drawn, drawn, v) == (t1, Ok(None)) &&
      Builder.ProcessKeyExchange(t2, answer1.value.value, drawn, drawn, drawn, v) == (t2, Ok(None)) &&
      if base1 < base2
      then Initial(Started(t1.record.value, t2.record.value, nextKey), ratchet2, sending1)
      else Initial(Started(t2.record.value, t1.record.value, nextKey), ratchet1, sending2)
  {
    var p1 := SymmetricParameters(s1.identity, GeneratePair(base1), GeneratePair(ratchet1),
                                  PublicKey(base2), PublicKey(ratchet2), s2.identity.pub);
    var p2 := SymmetricParameters(s2.identity, GeneratePair(base2), GeneratePair(ratchet2),
                                  PublicKey(base1), PublicKey(ratchet1), s1.identity.pub);
    Builder.SymmetricTyped(p1, GeneratePair(sending1));
    Builder.SymmetricTyped(p2, GeneratePair(sending2));
    hide Builder.Typed;
    SymmetricAgreement(FRESH, FRESH, s1.identity, GeneratePair(base1), GeneratePair(ratchet1),
      s2.identity, GeneratePair(base2), GeneratePair(ratchet2), GeneratePair(sending1), GeneratePair(sending2));
    hide SymmetricInitialize, Matched, SymmetricIsAlice;
  }

  // ----- the ratchet's guarantees from there

  /** The world in which Alice has processed Bob's bundle and Bob has set up the session of her message. */
  ghost function PreKeyWorld(alice: Builder.Store, bob: Builder.Store, signedId: u32, preKeyId: Option<u32>, k0: nat,
                             k: nat, k1: nat, m: Message, nextKey: nat): World
    requires Strangers(alice, bob, signedId, preKeyId, k0)
    requires k0 < nextKey && k1 < nextKey && k0 != k1
  {
    PreKeysSetUp(alice, bob, signedId, preKeyId, k0, k, k1, m, nextKey);
    var bundle := Published(bob, signedId, preKeyId);
    var processed := Builder.ProcessPreKeyMessage(bob, Builder.Load(bob), Wrapped(alice, bundle, k, m),
      Redelivery.ALL_WELL);
    Started(Initiated(alice, bundle, k, k1).record.value, processed.value.0, nextKey)
  }

  /** Agreement over every run from a bundle and the message it led to. */
  lemma PreKeyAgreement(alice: Builder.Store, bob: Builder.Store, signedId: u32, preKeyId: Option<u32>, k0: nat, k: nat,
                        k1: nat, m: Message, nextKey: nat, events: seq<Event>) returns (h: History)
    requires Strangers(alice, bob, signedId, preKeyId, k0)
    requires k0 < nextKey && k1 < nextKey && k0 != k1
    requires IsRun(PreKeyWorld(alice, bob, signedId, preKeyId, k0, k, k1, m, nextKey), events)
    ensures
      var end := Final(PreKeyWorld(alice, bob, signedId, preKeyId, k0, k, k1, m, nextKey), events);
      && Shape(h) && Linked(h.epochs)
      && forall p: Party :: end.At(p).record.state.Some? && SessionOk(h, p, end.At(p).record.state.value)
    ensures forall i :: 0 <= i < |h.epochs| ==> h.epochs[i].m <= h.epochs[i].sends
  {
    hide Initial, IsRun, Final, Inv, Linked, SessionOk, Shape;
    PreKeysSetUp(alice, bob, signedId, preKeyId, k0, k, k1, m, nextKey);
    h := RatchetAgreement(PreKeyWorld(alice, bob, signedId, preKeyId, k0, k, k1, m, nextKey), k0, k1, events);
  }

  /** Integrity and at-most-once delivery over every run from a bundle and the message it led to. */
  lemma PreKeyIntegrity(alice: Builder.Store, bob: Builder.Store, signedId: u32, preKeyId: Option<u32>, k0: nat, k: nat,
                        k1: nat, m: Message, nextKey: nat, events: seq<Event>, p: Party)
    requires Strangers(alice, bob, signedId, preKeyId, k0)
    requires k0 < nextKey && k1 < nextKey && k0 != k1
    requires IsRun(PreKeyWorld(alice, bob, signedId, preKeyId, k0, k, k1, m, nextKey), events)
    ensures
      var end := Final(PreKeyWorld(alice, bob, signedId, preKeyId, k0, k, k1, m, nextKey), events);
      && (forall i :: 0 <= i < |end.At(p).accepted| ==> end.At(p).accepted[i] in end.At(Peer(p)).sent)
      && (forall i, j :: 0 <= i < j < |end.At(p).accepted| ==>
            end.At(p).accepted[i].message != end.At(p).accepted[j].message)
  {
    hide Initial, IsRun, Final;
    PreKeysSetUp(alice, bob, signedId, preKeyId, k0, k, k1, m, nextKey);
    IntegrityAndAtMostOnce(PreKeyWorld(alice, bob, signedId, preKeyId, k0, k, k1, m, nextKey), k0, k1, events, p);
  }

  // ----- the first message

  /** The first message of the initiator opens in the responder's new session. */
  lemma FirstMessageOpens(a: State, b: State, k0: KeyPair, k1: KeyPair, plaintext: Plaintext, ours: KeyPair)
    requires Matched(a, b, k0, k1)
    ensures
      var sent := Encrypt(a, plaintext);
      && sent.Ok?
      && DecryptFromState(b, sent.value.1.message, ours).Ok?
      && DecryptFromState(b, sent.value.1.message, ours).value.1 == plaintext
  {
  }

  /** Bob accepts the message with which Alice uses his bundle. */
  lemma AliceIsUnderstood(alice: Builder.Store, bob: Builder.Store, signedId: u32, preKeyId: Option<u32>, k0: nat,
                          k: nat, k1: nat, plaintext: Plaintext)
    requires Strangers(alice, bob, signedId, preKeyId, k0)
    ensures
      var r := Initiated(alice, Published(bob, signedId, preKeyId), k, k1).record;
      && r.Some? && r.value.state.Some?
      && var sent := Encrypt(r.value.state.value, plaintext);
         && sent.Ok? && Redelivery.Opens(bob, sent.value.1)
         && Redelivery.PlaintextOf(bob, sent.value.1) == plaintext
  {
    hide Encrypt;
    AliceWraps(alice, bob, signedId, preKeyId, k0, k, k1, plaintext);
    var r := Initiated(alice, Published(bob, signedId, preKeyId), k, k1).record.value;
    var c := Encrypt(r.state.value, plaintext).value.1;
    PreKeysMatch(alice, bob, signedId, preKeyId, k0, k, k1, c.message);
    var b := Builder.ReceivedSession(bob, c, FRESH);
    FirstMessageOpens(r.state.value, b, GeneratePair(k0), GeneratePair(k1), plaintext, GeneratePair(0));
  }

  /** A bundle without a one-time pre key, or with that of last resort: Alice's message is accepted twice. */
  lemma FirstMessageAcceptedTwice(alice: Builder.Store, bob: Builder.Store, signedId: u32, preKeyId: Option<u32>,
                                  k0: nat, k: nat, k1: nat, plaintext: Plaintext, offers: seq<Redelivery.Offer>)
    requires Strangers(alice, bob, signedId, preKeyId, k0)
    requires preKeyId.Some? ==> preKeyId.value == PRE_KEY_MEDIUM_MAX_VALUE
    requires |offers| == ARCHIVED_STATES_MAX_LENGTH + 1
    requires forall i :: 0 <= i < |offers| ==> offers[i].base.pub != PublicKey(k)
    requires forall i, j :: 0 <= i < j < |offers| ==> offers[i].base.pub != offers[j].base.pub
    ensures
      var r := Initiated(alice, Published(bob, signedId, preKeyId), k, k1).record;
      r.Some? && r.value.state.Some? &&
      var sent := Encrypt(r.value.state.value, plaintext);
      sent.Ok? && sent.value.1.PreKeySignalMessage? &&
      var (bob1, first) := Builder.DecryptPreKeyMessage(bob, sent.value.1, 0, Redelivery.ALL_WELL);
      var later := Builder.Final(bob1, Redelivery.BundleRun(offers));
      var (bob2, second) := Builder.DecryptPreKeyMessage(later, sent.value.1, 0, Redelivery.ALL_WELL);
      var delivery := [(Builder.PreKeyEvent(sent.value.1, 0), Redelivery.ALL_WELL)];
      && Builder.IsRun(bob, delivery + Redelivery.BundleRun(offers) + delivery)
      && first == second == Ok(plaintext)
  {
    hide Encrypt, Initiated, Redelivery.Opens, Redelivery.PlaintextOf;
    AliceWraps(alice, bob, signedId, preKeyId, k0, k, k1, plaintext);
    AliceIsUnderstood(alice, bob, signedId, preKeyId, k0, k, k1, plaintext);
    var c := Encrypt(Initiated(alice, Published(bob, signedId, preKeyId), k, k1).record.value.state.value,
      plaintext).value.1;
    hide Builder.DecryptPreKeyMessage, Builder.IsRun, Builder.Final, Builder.Step;
    Redelivery.OnlySession(bob, c);
    Redelivery.PreKeyAcceptedTwice(bob, c, offers);
  }

  /** The same bundle: Alice's inner message is accepted again under another encoding of her base key. */
  lemma FirstMessageReencoded(alice: Builder.Store, bob: Builder.Store, signedId: u32, preKeyId: Option<u32>, k0: nat,
                              k: nat, k1: nat, plaintext: Plaintext, form: nat)
    requires Strangers(alice, bob, signedId, preKeyId, k0)
    requires (preKeyId.Some? ==> preKeyId.value == PRE_KEY_MEDIUM_MAX_VALUE) && form != 0
    ensures
      var r := Initiated(alice, Published(bob, signedId, preKeyId), k, k1).record;
      r.Some? && r.value.state.Some? &&
      var sent := Encrypt(r.value.state.value, plaintext);
      sent.Ok? && sent.value.1.PreKeySignalMessage? &&
      var c, c' := sent.value.1, Redelivery.Reencoded(sent.value.1, form);
      var (bob1, first) := Builder.DecryptPreKeyMessage(bob, c, 0, Redelivery.ALL_WELL);
      var (bob2, second) := Builder.DecryptPreKeyMessage(bob1, c', 0, Redelivery.ALL_WELL);
      first == second == Ok(plaintext) && Redelivery.Holds(bob1, c) && Redelivery.Holds(bob2, c)
  {
    hide Encrypt, Initiated, Redelivery.Opens, Redelivery.PlaintextOf;
    AliceWraps(alice, bob, signedId, preKeyId, k0, k, k1, plaintext);
    AliceIsUnderstood(alice, bob, signedId, preKeyId, k0, k, k1, plaintext);
    var c := Encrypt(Initiated(alice, Published(bob, signedId, preKeyId), k, k1).record.value.state.value,
      plaintext).value.1;
    hide Builder.DecryptPreKeyMessage, Builder.IsRun, Redelivery.Holds;
    Redelivery.ReencodedAcceptedTwice(bob, c, form);
  }
}
