/**
 * Where at-most-once ends: a key exchange that is answered twice with the same
 * keys, because the state that offered them has become current again, sets up
 * one secret twice, and a message for it is accepted twice.
 */
module OfferReuse {
  import opened Common
  import opened Terms
  import opened KeyWindow
  import opened Session
  import opened Ratchet
  import opened SessionCipher
  import opened SessionRecord
  import opened SessionBuilder
  import opened SessionLedger
  import opened PreKeyRedelivery
  import SessionSetup

  /** Answering as the party with the larger base key draws no key of its own. */
  function AnsweredSession(x: State, m: KeyExchangeMessage): State
    requires x.pendingKeyExchange.Some?
  {
    var p := ExchangeParameters(x.pendingKeyExchange.value, m);
    BobInitialize(FRESH, BobParameters(p.ourIdentity, p.ourBase, None, p.ourRatchetKey, p.theirIdentity, p.theirBase))
  }

  /** Session `x` awaits the response `m`, and there is no other. */
  ghost predicate Awaiting(s: Store, x: State, m: KeyExchangeMessage) {
    && StoreOk(s) && s.record == Some(Record(Some(x), [], false)) && !m.initiate && m.signatureOk
    && AwaitsResponse(Load(s), m) && !SymmetricIsAlice(ExchangeParameters(x.pendingKeyExchange.value, m))
  }

  lemma AnswerInstalls(s: Store, x: State, rest: seq<State>, m: KeyExchangeMessage, pair: KeyPair, v: Verdicts)
    requires StoreOk(s) && s.record == Some(Record(Some(x), rest, false)) && !m.initiate && m.signatureOk && |rest| < 40
    requires AwaitsResponse(Load(s), m) && !SymmetricIsAlice(ExchangeParameters(x.pendingKeyExchange.value, m))
    requires v.trusted && v.saveOk && v.storeOk
    ensures
      var s' := ProcessKeyExchange(s, m, pair, pair, pair, v).0;
      s' == s.(record := Some(Record(Some(AnsweredSession(x, m)), [x] + rest, false))) && StoreOk(s')
  {
    ExchangeKeepsStore(s, m, pair, pair, pair, v);
    hide BobInitialize, AliceInitialize, RecordOk;
  }

  lemma ArchivedAccepts(r: Record, z: State, x: State, m: Message, supply: nat)
    requires r == Record(Some(z), [x], false) && RecordWellTyped(r) && Typed(z) && Typed(x)
    requires DecryptFromState(z, m, GeneratePair(supply)) == Err(InvalidMessage)
    requires DecryptFromState(x, m, GeneratePair(supply + 1)).Ok?
    ensures
      var (x', plaintext) := DecryptFromState(x, m, GeneratePair(supply + 1)).value;
      DecryptFromRecord(r, m, supply) == Ok((Record(Some(x'), [z], false), plaintext))
  {
    TypedCopies(z);
    TypedCopies(x);
    hide DecryptFromState, Copy, WellTyped, Typed;
    assert RemoveAt(r.previous, 0) == [];
    var x' := DecryptFromState(x, m, GeneratePair(supply + 1)).value.0;
    assert Promote(Record(Some(z), [], false), x') == Record(Some(x'), [z], false);
  }

  lemma NextAccepts(s: Store, z: State, x: State, m: Message, supply: nat, v: Verdicts)
    requires StoreOk(s) && s.record == Some(Record(Some(z), [x], false))
    requires DecryptFromState(z, m, GeneratePair(supply)) == Err(InvalidMessage)
    requires DecryptFromState(x, m, GeneratePair(supply + 1)).Ok? && v.callbackOk && v.storeOk
    ensures
      var x' := DecryptFromState(x, m, GeneratePair(supply + 1)).value.0;
      var s' := DecryptSignalMessage(s, m, supply, v).0;
      s' == s.(record := Some(Record(Some(x'), [z], false))) && StoreOk(s')
  {
    SignalKeepsStore(s, m, supply, v);
    LoadOk(s);
    assert Sessions(Load(s))[0] == z && Sessions(Load(s))[1] == x;
    hide DecryptFromState, RecordOk, RecordWellTyped, Typed, DecryptFromRecord;
    ArchivedAccepts(Load(s), z, x, m, supply);
  }

  lemma DecryptKeepsOffer(x: State, m: Message, ours: KeyPair)
    requires DecryptFromState(x, m, ours).Ok?
    ensures DecryptFromState(x, m, ours).value.0.pendingKeyExchange == x.pendingKeyExchange
  {
    hide Take, DecryptBody, MacOf;
  }

  /**
   * The response is taken, the message `first` accepted on the new session, a
   * message for the former session brings that one back, and with it the
   * pending exchange: the response is taken again and `first` accepted again.
   */
  lemma OfferReuseAcceptsTwice(s: Store, x: State, m: KeyExchangeMessage, pair: KeyPair, first: Message, other: Message)
    requires Awaiting(s, x, m)
    requires DecryptFromState(AnsweredSession(x, m), first, GeneratePair(0)).Ok?
    requires
      var z := DecryptFromState(AnsweredSession(x, m), first, GeneratePair(0)).value.0;
      DecryptFromState(z, other, GeneratePair(0)) == Err(InvalidMessage)
    requires DecryptFromState(x, other, GeneratePair(1)).Ok?
    ensures
      var s1 := Step(s, ExchangeEvent(m, pair, pair, pair), ALL_WELL);
      var (s2, once) := DecryptSignalMessage(s1, first, 0, ALL_WELL);
      var s3 := Step(s2, SignalEvent(other, 0), ALL_WELL);
      var s4 := Step(s3, ExchangeEvent(m, pair, pair, pair), ALL_WELL);
      var (_, twice) := DecryptSignalMessage(s4, first, 0, ALL_WELL);
      once == twice == Ok(DecryptFromState(AnsweredSession(x, m), first, GeneratePair(0)).value.1)
  {
    hide DecryptFromState, StoreOk, DecryptSignalMessage, ProcessKeyExchange, AnsweredSession, SymmetricIsAlice;
    var y := AnsweredSession(x, m);
    AnswerInstalls(s, x, [], m, pair, ALL_WELL);
    assert [x] + [] == [x];
    var s1 := ProcessKeyExchange(s, m, pair, pair, pair, ALL_WELL).0;
    CurrentAccepts(s1, y, [x], first, 0, ALL_WELL);
    var s2 := DecryptSignalMessage(s1, first, 0, ALL_WELL).0;
    var z := DecryptFromState(y, first, GeneratePair(0)).value.0;
    NextAccepts(s2, z, x, other, 0, ALL_WELL);
    var s3 := DecryptSignalMessage(s2, other, 0, ALL_WELL).0;
    DecryptKeepsOffer(x, other, GeneratePair(1));
    var x' := DecryptFromState(x, other, GeneratePair(1)).value.0;
    AnswerInstalls(s3, x', [z], m, pair, ALL_WELL);
    assert [x'] + [z] == [x', z];
    SameAnswer(x, x', m);
    var s4 := ProcessKeyExchange(s3, m, pair, pair, pair, ALL_WELL).0;
    CurrentAccepts(s4, y, [x', z], first, 0, ALL_WELL);
  }

  lemma SameAnswer(x: State, y: State, m: KeyExchangeMessage)
    requires x.pendingKeyExchange.Some? && y.pendingKeyExchange == x.pendingKeyExchange
    ensures AnsweredSession(y, m) == AnsweredSession(x, m)
  {
  }

  // ----- it happens

  /** A message that starts a chain and was authenticated with some other key. */
  lemma ForeignMessage(z: State, m: Message, ours: KeyPair)
    requires z.version == m.content.version == CURRENT_VERSION && z.rootKey.Some? &&
             z.rootKey.value.kdf == CURRENT_VERSION
    requires z.senderChain.Some? && z.senderChain.value.ratchetPair.Some? && z.senderChain.value.chainKey.Some?
    requires z.localIdentity.Some? && z.remoteIdentity.Some?
    requires FindChain(z.receiverChains, m.content.ratchetKey) == |z.receiverChains| && m.content.counter == 0
    requires
      var chain := CreateChain(z.rootKey.value, m.content.ratchetKey, z.senderChain.value.ratchetPair.value.priv).1;
      m.tag.Mac? && m.tag.macKey != MessageKeyOf(chain).material.macKey
    ensures DecryptFromState(z, m, ours) == Err(InvalidMessage)
  {
  }

  /** The responder's session after the first message of its peer. */
  lemma AfterFirstMessage(a: State, y: State, k0: KeyPair, k1: KeyPair, plaintext: Plaintext)
    requires Matched(a, y, k0, k1)
    ensures
      var m := Encrypt(a, plaintext);
      && m.Ok? && DecryptFromState(y, m.value.1.message, GeneratePair(0)).Ok?
      && var z := DecryptFromState(y, m.value.1.message, GeneratePair(0)).value.0;
         && z.version == CURRENT_VERSION && z.rootKey.Some? && z.rootKey.value.kdf == CURRENT_VERSION
         && z.rootKey.value.key.Hkdf? && z.rootKey.value.key.info == WhisperRatchet
         && z.senderChain.Some? && z.senderChain.value.ratchetPair.Some? && z.senderChain.value.chainKey.Some?
         && z.localIdentity.Some? && z.remoteIdentity.Some?
         && |z.receiverChains| == 1 && z.receiverChains[0].ratchetKey == k1.pub
  {
    SessionSetup.FirstMessageOpens(a, y, k0, k1, plaintext, GeneratePair(0));
  }

  /** The first message of one pair of sessions means nothing to another that has gone on. */
  lemma FirstMessageForeign(a: State, x: State, k0: KeyPair, k1: KeyPair, plaintext: Plaintext, z: State)
    requires Matched(a, x, k0, k1)
    requires z.version == CURRENT_VERSION && z.rootKey.Some? && z.rootKey.value.kdf == CURRENT_VERSION
    requires z.rootKey.value.key.Hkdf? && z.rootKey.value.key.info == WhisperRatchet
    requires z.senderChain.Some? && z.senderChain.value.ratchetPair.Some? && z.senderChain.value.chainKey.Some?
    requires z.localIdentity.Some? && z.remoteIdentity.Some?
    requires |z.receiverChains| == 1 && z.receiverChains[0].ratchetKey != k1.pub
    ensures
      var m := Encrypt(a, plaintext);
      m.Ok? && DecryptFromState(z, m.value.1.message, GeneratePair(0)) == Err(InvalidMessage)
  {
    var m := Encrypt(a, plaintext).value.1.message;
    ForeignMessage(z, m, GeneratePair(0));
  }

  /** The peer's side of the exchange. */
  function PeerSession(x: State, identity: KeyPair, base: KeyPair, ratchet: KeyPair, sending: KeyPair): State
    requires x.pendingKeyExchange.Some?
  {
    var ours := x.pendingKeyExchange.value;
    SymmetricInitialize(FRESH,
      SymmetricParameters(identity, base, ratchet, ours.baseKey.pub, ours.ratchetKey.pub, ours.identityKey.pub),
      sending)
  }

  lemma PeerMatches(x: State, m: KeyExchangeMessage, identity: KeyPair, base: KeyPair, ratchet: KeyPair,
                    sending: KeyPair)
    requires x.pendingKeyExchange.Some? && base.pub.id < x.pendingKeyExchange.value.baseKey.pub.id
    requires Proper(identity) && Proper(base) && Proper(ratchet) && Proper(sending)
    requires
      var ours := x.pendingKeyExchange.value;
      Proper(ours.identityKey) && Proper(ours.baseKey) && Proper(ours.ratchetKey)
    requires m.identityKey == identity.pub && m.baseKey == base.pub && m.ratchetKey == ratchet.pub
    ensures Matched(PeerSession(x, identity, base, ratchet, sending), AnsweredSession(x, m),
                    x.pendingKeyExchange.value.ratchetKey, sending)
  {
    var ours := x.pendingKeyExchange.value;
    SymmetricAgreement(FRESH, FRESH, identity, base, ratchet, ours.identityKey, ours.baseKey, ours.ratchetKey,
      sending, sending);
    hide Matched;
  }

  /**
   * With honest peers on both sessions: `x` talks to `a`, its offer is answered
   * by the peer whose keys `m` carries, and each sends one message.
   */
  lemma OfferReuseHappens(s: Store, x: State, a: State, k0: KeyPair, k1: KeyPair, m: KeyExchangeMessage,
                          identity: KeyPair, base: KeyPair, ratchet: KeyPair, sending: KeyPair, pair: KeyPair,
                          plaintext: Plaintext)
    requires Awaiting(s, x, m) && Matched(a, x, k0, k1) && sending.pub != k1.pub
    requires base.pub.id < x.pendingKeyExchange.value.baseKey.pub.id
    requires Proper(identity) && Proper(base) && Proper(ratchet) && Proper(sending)
    requires
      var ours := x.pendingKeyExchange.value;
      Proper(ours.identityKey) && Proper(ours.baseKey) && Proper(ours.ratchetKey)
    requires m.identityKey == identity.pub && m.baseKey == base.pub && m.ratchetKey == ratchet.pub
    ensures
      var sent := Encrypt(PeerSession(x, identity, base, ratchet, sending), plaintext);
      var other := Encrypt(a, plaintext);
      sent.Ok? && other.Ok? &&
      var first := sent.value.1.message;
      var s1 := Step(s, ExchangeEvent(m, pair, pair, pair), ALL_WELL);
      var (s2, once) := DecryptSignalMessage(s1, first, 0, ALL_WELL);
      var s3 := Step(s2, SignalEvent(other.value.1.message, 0), ALL_WELL);
      var s4 := Step(s3, ExchangeEvent(m, pair, pair, pair), ALL_WELL);
      var (_, twice) := DecryptSignalMessage(s4, first, 0, ALL_WELL);
      once == twice == Ok(plaintext)
  {
    hide DecryptFromState, Encrypt, Matched, StoreOk, AnsweredSession, PeerSession, DecryptSignalMessage, Step;
    var y := AnsweredSession(x, m);
    var b := PeerSession(x, identity, base, ratchet, sending);
    var ours := x.pendingKeyExchange.value;
    PeerMatches(x, m, identity, base, ratchet, sending);
    AfterFirstMessage(b, y, ours.ratchetKey, sending, plaintext);
    SessionSetup.FirstMessageOpens(b, y, ours.ratchetKey, sending, plaintext, GeneratePair(0));
    SessionSetup.FirstMessageOpens(a, x, k0, k1, plaintext, GeneratePair(1));
    var first, other := Encrypt(b, plaintext).value.1.message, Encrypt(a, plaintext).value.1.message;
    FirstMessageForeign(a, x, k0, k1, plaintext, DecryptFromState(y, first, GeneratePair(0)).value.0);
    OfferReuseAcceptsTwice(s, x, m, pair, first, other);
  }

  // ----- from a store without a session

  /** A party's keys for one exchange. */
  datatype Side = Side(identity: nat, base: nat, ratchet: nat, sending: nat)

  function ExchangeOf(side: Side, sequence: u32, initiate: bool): KeyExchangeMessage {
    KeyExchangeMessage(sequence, initiate, false, PublicKey(side.base), PublicKey(side.ratchet),
      PublicKey(side.identity), true)
  }

  /** The other party's session with us, when our base key is the larger one. */
  function PeerOf(peer: Side, ours: Side): State {
    SymmetricInitialize(FRESH,
      SymmetricParameters(GeneratePair(peer.identity), GeneratePair(peer.base), GeneratePair(peer.ratchet),
                          PublicKey(ours.base), PublicKey(ours.ratchet), PublicKey(ours.identity)),
      GeneratePair(peer.sending))
  }

  /** We answer an offer, and make one ourselves. */
  function Answered(s: Store, peer: Side, ours: Side, sequence: u32): Store {
    ProcessKeyExchange(s, ExchangeOf(peer, sequence, true), GeneratePair(ours.base), GeneratePair(ours.ratchet),
                       GeneratePair(ours.sending), ALL_WELL).0
  }

  function Offering(s: Store, offer: Side, sequence: u32): Store {
    StartExchange(s, sequence, GeneratePair(offer.base), GeneratePair(offer.ratchet), ALL_WELL).0
  }

  /** The run reaches a session that talks to the peer and awaits a response. */
  lemma ReachesAwaiting(s: Store, peer: Side, ours: Side, sequence: u32, other: Side, offer: Side, sequence': u32)
    requires s.record.None? && s.identity == GeneratePair(ours.identity)
    requires peer.base < ours.base && other.base < offer.base && offer.identity == ours.identity
    ensures
      var s2 := Offering(Answered(s, peer, ours, sequence), offer, sequence');
      && s2.record.Some? && s2.record.value.state.Some?
      && var x := s2.record.value.state.value;
         && Awaiting(s2, x, ExchangeOf(other, sequence', false))
         && x.pendingKeyExchange == Some(PendingKeyExchange(sequence', GeneratePair(offer.base),
              GeneratePair(offer.ratchet), s.identity))
         && Matched(PeerOf(peer, ours), x, GeneratePair(ours.ratchet), GeneratePair(peer.sending))
  {
    SymmetricAgreement(FRESH, FRESH, GeneratePair(peer.identity), GeneratePair(peer.base), GeneratePair(peer.ratchet),
      s.identity, GeneratePair(ours.base), GeneratePair(ours.ratchet), GeneratePair(peer.sending),
        GeneratePair(ours.sending));
    var s1 := Answered(s, peer, ours, sequence);
    ExchangeKeepsStore(s, ExchangeOf(peer, sequence, true), GeneratePair(ours.base), GeneratePair(ours.ratchet),
                       GeneratePair(ours.sending), ALL_WELL);
    StartKeepsStore(s1, sequence', GeneratePair(offer.base), GeneratePair(offer.ratchet), ALL_WELL);
    hide SymmetricInitialize, StoreOk;
  }

  lemma {:induction false} NoBundlesIsRun(s: Store, run: seq<(Event, Verdicts)>)
    requires forall i :: 0 <= i < |run| ==> !run[i].0.BundleEvent?
    ensures IsRun(s, run)
    decreases |run|
  {
    hide Step;
    if run != [] {
      NoBundlesIsRun(Step(s, run[0].0, run[0].1), run[1..]);
    }
  }

  /**
   * The whole run, from a store without a session: we answer an offer as the
   * party with the larger base key, offer an exchange ourselves, take the
   * response, and accept a message twice.
   */
  lemma OfferReuseFromNothing(s: Store, peer: Side, ours: Side, sequence: u32, other: Side, offer: Side, sequence': u32,
                              pair: KeyPair, plaintext: Plaintext)
    requires s.record.None? && s.identity == GeneratePair(ours.identity) && other.sending != peer.sending
    requires peer.base < ours.base && other.base < offer.base && offer.identity == ours.identity
    ensures
      var sent, old' := Encrypt(PeerOf(other, offer), plaintext), Encrypt(PeerOf(peer, ours), plaintext);
      sent.Ok? && old'.Ok? &&
      var response := ExchangeEvent(ExchangeOf(other, sequence', false), pair, pair, pair);
      var first, former := sent.value.1.message, SignalEvent(old'.value.1.message, 0);
      var s2 := Offering(Answered(s, peer, ours, sequence), offer, sequence');
      var s3 := Step(s2, response, ALL_WELL);
      var (s4, once) := DecryptSignalMessage(s3, first, 0, ALL_WELL);
      var s6 := Step(Step(s4, former, ALL_WELL), response, ALL_WELL);
      var (_, twice) := DecryptSignalMessage(s6, first, 0, ALL_WELL);
      && once == twice == Ok(plaintext)
      && IsRun(s, [(ExchangeEvent(ExchangeOf(peer, sequence, true), GeneratePair(ours.base), GeneratePair(ours.ratchet),
                                  GeneratePair(ours.sending)), ALL_WELL),
                   (StartEvent(sequence', GeneratePair(offer.base), GeneratePair(offer.ratchet)), ALL_WELL),
                   (response, ALL_WELL), (SignalEvent(first, 0), ALL_WELL), (former, ALL_WELL),
                   (response, ALL_WELL), (SignalEvent(first, 0), ALL_WELL)])
  {
    hide Encrypt, Step, DecryptSignalMessage, Answered, Offering, IsRun, SymmetricInitialize, Matched, StoreOk;
    ReachesAwaiting(s, peer, ours, sequence, other, offer, sequence');
    var s2 := Offering(Answered(s, peer, ours, sequence), offer, sequence');
    var x := s2.record.value.state.value;
    var m := ExchangeOf(other, sequence', false);
    OfferReuseHappens(s2, x, PeerOf(peer, ours), GeneratePair(ours.ratchet), GeneratePair(peer.sending), m,
      GeneratePair(other.identity), GeneratePair(other.base), GeneratePair(other.ratchet), GeneratePair(other.sending),
      pair, plaintext);
    assert PeerSession(x, GeneratePair(other.identity), GeneratePair(other.base), GeneratePair(other.ratchet),
      GeneratePair(other.sending)) == PeerOf(other, offer);
    var first := Encrypt(PeerOf(other, offer), plaintext).value.1.message;
    var former := SignalEvent(Encrypt(PeerOf(peer, ours), plaintext).value.1.message, 0);
    var response := ExchangeEvent(m, pair, pair, pair);
    NoBundlesIsRun(s,
      [(ExchangeEvent(ExchangeOf(peer, sequence, true), GeneratePair(ours.base), GeneratePair(ours.ratchet),
                      GeneratePair(ours.sending)), ALL_WELL),
       (StartEvent(sequence', GeneratePair(offer.base), GeneratePair(offer.ratchet)), ALL_WELL),
       (response, ALL_WELL), (SignalEvent(first, 0), ALL_WELL), (former, ALL_WELL),
       (response, ALL_WELL), (SignalEvent(first, 0), ALL_WELL)]);
  }
}
