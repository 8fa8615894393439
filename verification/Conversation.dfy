/**
 * Whole conversations on stores: Alice processes Bob's bundle and wraps her
 * messages until she is answered; Bob decrypts wrapped and plain messages with
 * the functions of session_cipher.c.  Every such conversation follows a run of
 * the two-party world, so the ratchet's guarantees hold of it.
 */
module Conversation {
  import opened Common
  import opened Terms
  import opened Session
  import opened Ratchet
  import opened SessionCipher
  import opened SessionRecord
  import opened RatchetWorld
  import opened RatchetHistory
  import opened RatchetRuns
  import opened RatchetTheorems
  import Builder = SessionBuilder
  import Redelivery = PreKeyRedelivery
  import Setup = SessionSetup

  datatype Log = Log(sent: seq<Transfer>, accepted: seq<Transfer>)

  /** The stores of the two parties and what they have sent and accepted. */
  datatype Talk = Talk(alice: Builder.Store, bob: Builder.Store, aliceLog: Log, bobLog: Log, nextKey: nat) {
    function Store(p: Party): Builder.Store {
      if p == Alice then alice else bob
    }

    function Logs(p: Party): Log {
      if p == Alice then aliceLog else bobLog
    }

    function With(p: Party, store: Builder.Store, log: Log): Talk {
      if p == Alice then this.(alice := store, aliceLog := log) else this.(bob := store, bobLog := log)
    }
  }

  /** The bundle, the base key and the sender that Alice's wrapping names. */
  datatype Wrapping = Wrapping(sender: Builder.Store, bundle: Builder.Bundle, base: nat) {
    function Around(m: Message): Ciphertext {
      Setup.Wrapped(sender, bundle, base, m)
    }
  }

  /** `ok` is the verdict of the decryption callback and of the session store. */
  datatype Act =
    | Say(party: Party, plaintext: Plaintext, ok: bool)
    | Hear(party: Party, message: Message, ok: bool)
    | HearWrapped(message: Message, ok: bool)

  function Answers(ok: bool): Builder.Verdicts {
    Builder.Verdicts(true, true, ok, ok, true)
  }

  ghost predicate OnWire(t: Talk, tag: Tag) {
    exists p: Party, i: nat :: i < |t.Logs(p).sent| && t.Logs(p).sent[i].message.tag == tag
  }

  ghost predicate CanHappen(t: Talk, a: Act) {
    a.Say? || a.message.tag.Junk? || OnWire(t, a.message.tag)
  }

  function Said(t: Talk, p: Party, plaintext: Plaintext, ok: bool): Talk {
    var store := t.Store(p);
    var r := Builder.Load(store);
    if r.state.None? || Encrypt(r.state.value, plaintext).Err? || !ok then t
    else
      var m := Encrypt(r.state.value, plaintext).value.1.message;
      t.With(p, Builder.EncryptMessage(store, plaintext, Answers(ok)),
             t.Logs(p).(sent := t.Logs(p).sent + [Transfer(m, plaintext)]))
  }

  ghost function Heard(t: Talk, p: Party, m: Message, outcome: (Builder.Store, Result<Plaintext>)): Talk {
    var log := t.Logs(p);
    t.(nextKey := t.nextKey + 1).With(p, outcome.0,
      if outcome.1.Ok? then log.(accepted := log.accepted + [Transfer(m, outcome.1.value)]) else log)
  }

  ghost function Next(t: Talk, a: Act, c: Wrapping): Talk {
    match a
    case Say(p, plaintext, ok) => Said(t, p, plaintext, ok)
    case Hear(p, m, ok) =>
      if t.Store(p).record.None? then t
      else Heard(t, p, m, Builder.DecryptSignalMessage(t.Store(p), m, t.nextKey, Answers(ok)))
    case HearWrapped(m, ok) =>
      if Builder.Parses(c.Around(m))
      then Heard(t, Bob, m, Builder.DecryptPreKeyMessage(t.bob, c.Around(m), t.nextKey, Answers(ok))) else t
  }

  ghost predicate IsTalk(t: Talk, acts: seq<Act>, c: Wrapping)
    decreases |acts|
  {
    acts != [] ==> CanHappen(t, acts[0]) && IsTalk(Next(t, acts[0], c), acts[1..], c)
  }

  ghost function End(t: Talk, acts: seq<Act>, c: Wrapping): Talk
    decreases |acts|
  {
    if acts == [] then t else End(Next(t, acts[0], c), acts[1..], c)
  }

  // ----- the world behind a conversation

  /** The stored record is the party's record in the world. */
  ghost predicate SameRecord(store: Builder.Store, node: Node) {
    && Builder.StoreOk(store) && store.record.Some? && node.record.previous == []
    && Builder.Load(store) == node.record.(isFresh := false)
  }

  /** Bob has not accepted anything yet; in the world he has the session that any of Alice's messages sets up. */
  ghost predicate StillWaiting(bob: Builder.Store, node: Node, c: Wrapping) {
    && bob.record.None? && node.sent == [] && node.accepted == [] && node.record.previous == []
    && forall m: Message, ok: bool ::
         var processed := Builder.ProcessPreKeyMessage(bob, Builder.Load(bob), c.Around(m), Answers(ok));
         processed.Ok? && processed.value.0 == node.record
  }

  ghost predicate Follows(t: Talk, w: World, c: Wrapping) {
    && t.nextKey == w.nextKey
    && (forall p: Party :: t.Logs(p) == Log(w.At(p).sent, w.At(p).accepted))
    && SameRecord(t.alice, w.alice)
    && (StillWaiting(t.bob, w.bob, c)
        || (SameRecord(t.bob, w.bob) && HasSessionState(Builder.Load(t.bob), CURRENT_VERSION, PublicKey(c.base))))
  }

  lemma WireFollows(t: Talk, w: World, c: Wrapping, m: Message)
    requires Follows(t, w, c) && (m.tag.Junk? || OnWire(t, m.tag))
    ensures PossibleMessage(w, m)
  {
    if OnWire(t, m.tag) {
      var p: Party, i: nat :| i < |t.Logs(p).sent| && t.Logs(p).sent[i].message.tag == m.tag;
      assert w.At(p).sent[i].message.tag == m.tag;
    }
  }

  /** The histories speak of the same ends. */
  ghost predicate SameRegistrations(h: History, h': History) {
    && h'.aliceId == h.aliceId && h'.bobId == h.bobId
    && h'.aliceRegistration == h.aliceRegistration && h'.bobRegistration == h.bobRegistration
  }

  // ----- one act

  /** What decrypting with the stored record does, given the party's session in the world. */
  lemma HearFollows(store: Builder.Store, w: World, h: History, p: Party, m: Message, ok: bool)
    requires Inv(w, h) && SameRecord(store, w.At(p))
    ensures
      var (store', result) := Builder.DecryptSignalMessage(store, m, w.nextKey, Answers(ok));
      var w' := ReceiveStep(w, p, m, ok);
      && SameRecord(store', w'.At(p)) && w'.nextKey == w.nextKey + 1 && w'.At(Peer(p)) == w.At(Peer(p))
      && w'.At(p).sent == w.At(p).sent
      && w'.At(p).accepted == if result.Ok? then w.At(p).accepted + [Transfer(m, result.value)] else w.At(p).accepted
  {
    hide DecryptFromState, DecryptFromRecord, SessionOk, EpochsOk, SentOk, AcceptedOk, TakenLogged, Builder.RecordOk;
    Disassemble(w, h, p);
    var r := w.At(p).record;
    Builder.SignalKeepsStore(store, m, w.nextKey, Answers(ok));
    DecryptsCurrent(h, p, r, m, w.nextKey);
    DecryptsCurrent(h, p, r.(isFresh := false), m, w.nextKey);
  }

  lemma SayFollows(store: Builder.Store, w: World, p: Party, plaintext: Plaintext)
    requires SameRecord(store, w.At(p)) && w.At(p).record.state.Some?
    ensures
      var store' := Builder.EncryptMessage(store, plaintext, Answers(true));
      var w' := SendStep(w, p, plaintext);
      var result := Encrypt(w.At(p).record.state.value, plaintext);
      && SameRecord(store', w'.At(p)) && w'.nextKey == w.nextKey && w'.At(Peer(p)) == w.At(Peer(p))
      && w'.At(p).accepted == w.At(p).accepted
      && w'.At(p).sent == if result.Ok? then w.At(p).sent + [Transfer(result.value.1.message, plaintext)]
                          else w.At(p).sent
  {
    hide Encrypt, Builder.RecordOk;
    Builder.EncryptKeepsStore(store, plaintext, Answers(true));
  }

  /** The first wrapped message that Bob accepts sets up his session. */
  lemma FirstWrappedFollows(bob: Builder.Store, w: World, h: History, c: Wrapping, m: Message, ok: bool)
    requires Inv(w, h) && StillWaiting(bob, w.bob, c) && Builder.Parses(c.Around(m))
    ensures
      var (bob', result) := Builder.DecryptPreKeyMessage(bob, c.Around(m), w.nextKey, Answers(ok));
      var w' := ReceiveStep(w, Bob, m, ok);
      && w'.nextKey == w.nextKey + 1 && w'.alice == w.alice && w'.bob.sent == []
      && w'.bob.accepted == (if result.Ok? then [Transfer(m, result.value)] else [])
      && (if result.Ok?
          then SameRecord(bob', w'.bob) && HasSessionState(Builder.Load(bob'), CURRENT_VERSION, PublicKey(c.base))
          else bob' == bob && w'.bob == w.bob)
  {
    hide DecryptFromState, DecryptFromRecord, SessionOk, EpochsOk, SentOk, AcceptedOk, TakenLogged, Builder.RecordOk;
    hide HasSessionState;
    Disassemble(w, h, Bob);
    var r := w.bob.record;
    var ciphertext := c.Around(m);
    Builder.PreKeyKeepsStore(bob, ciphertext, w.nextKey, Answers(ok));
    var processed := Builder.ProcessPreKeyMessage(bob, Builder.Load(bob), ciphertext, Answers(ok));
    assert processed.Ok? && processed.value.0 == r;
    hide Builder.ProcessPreKeyMessage;
    DecryptsCurrent(h, Bob, r, m, w.nextKey);
    var bob' := Builder.DecryptPreKeyMessage(bob, ciphertext, w.nextKey, Answers(ok)).0;
    if bob'.record.Some? {
      Redelivery.HoldsStored(bob', bob'.record.value, ciphertext);
    }
  }

  /** Bob's record goes on recognising Alice's base key. */
  lemma StillRecognises(bob: Builder.Store, bob': Builder.Store, c: Wrapping)
    requires HasSessionState(Builder.Load(bob), CURRENT_VERSION, PublicKey(c.base))
    requires Redelivery.StillHolds(Builder.Load(bob), Builder.Load(bob'))
    ensures HasSessionState(Builder.Load(bob'), CURRENT_VERSION, PublicKey(c.base))
  {
  }

  /** How the conversation and the world go on when the party `p` changed alike in both. */
  lemma FollowsOn(t: Talk, t': Talk, w: World, w': World, p: Party, c: Wrapping)
    requires Follows(t, w, c) && t'.nextKey == w'.nextKey
    requires t'.Store(Peer(p)) == t.Store(Peer(p)) && t'.Logs(Peer(p)) == t.Logs(Peer(p)) &&
             w'.At(Peer(p)) == w.At(Peer(p))
    requires t'.Logs(p) == Log(w'.At(p).sent, w'.At(p).accepted) && SameRecord(t'.Store(p), w'.At(p))
    requires p == Bob ==> HasSessionState(Builder.Load(t'.bob), CURRENT_VERSION, PublicKey(c.base))
    ensures Follows(t', w', c)
  {
    hide SameRecord, StillWaiting, HasSessionState;
  }

  lemma SayActFollows(t: Talk, w: World, h: History, c: Wrapping, p: Party, plaintext: Plaintext)
    returns (w': World, h': History)
    requires Follows(t, w, c) && Inv(w, h)
    ensures Follows(Said(t, p, plaintext, true), w', c) && Inv(w', h') && SameRegistrations(h, h')
  {
    hide Encrypt, Inv, HasSessionState;
    w', h' := w, h;
    if SameRecord(t.Store(p), w.At(p)) {
      CurrentThere(w, h, p);
      h' := SendKeepsInv(w, h, p, plaintext);
      w' := SendStep(w, p, plaintext);
      SayFollows(t.Store(p), w, p, plaintext);
      if p == Bob {
        Redelivery.CurrentKeepsHeld(t.bob, Builder.EncryptEvent(plaintext), Answers(true));
        StillRecognises(t.bob, Builder.EncryptMessage(t.bob, plaintext, Answers(true)), c);
      }
      FollowsOn(t, Said(t, p, plaintext, true), w, w', p, c);
    } else {
      FreshSaysNothing(t.bob, plaintext);
    }
  }

  lemma CurrentThere(w: World, h: History, p: Party)
    requires Inv(w, h)
    ensures w.At(p).record.state.Some?
  {
  }

  lemma FreshSaysNothing(store: Builder.Store, plaintext: Plaintext)
    requires store.record.None?
    ensures Builder.Load(store).state == Some(FRESH) && Encrypt(FRESH, plaintext).Err?
  {
  }

  lemma HearActFollows(t: Talk, w: World, h: History, c: Wrapping, p: Party, m: Message, ok: bool)
    returns (w': World, h': History)
    requires Follows(t, w, c) && Inv(w, h) && (m.tag.Junk? || OnWire(t, m.tag)) && t.Store(p).record.Some?
    ensures Follows(Heard(t, p, m, Builder.DecryptSignalMessage(t.Store(p), m, t.nextKey, Answers(ok))), w', c)
    ensures Inv(w', h') && SameRegistrations(h, h')
  {
    WireFollows(t, w, c, m);
    hide Inv, HasSessionState, PossibleMessage, OnWire, Builder.DecryptSignalMessage;
    h' := ReceiveKeepsInv(w, h, p, m, ok);
    w' := ReceiveStep(w, p, m, ok);
    hide ReceiveStep;
    HearFollows(t.Store(p), w, h, p, m, ok);
    var outcome := Builder.DecryptSignalMessage(t.Store(p), m, t.nextKey, Answers(ok));
    if p == Bob {
      Redelivery.SignalKeepsHeld(t.bob, m, t.nextKey, Answers(ok));
      StillRecognises(t.bob, outcome.0, c);
    }
    FollowsOn(t, Heard(t, p, m, outcome), w, w', p, c);
  }

  lemma WrappedActFollows(t: Talk, w: World, h: History, c: Wrapping, m: Message, ok: bool)
    returns (w': World, h': History)
    requires Follows(t, w, c) && Inv(w, h) && (m.tag.Junk? || OnWire(t, m.tag)) && Builder.Parses(c.Around(m))
    ensures Follows(Heard(t, Bob, m, Builder.DecryptPreKeyMessage(t.bob, c.Around(m), t.nextKey, Answers(ok))), w', c)
    ensures Inv(w', h') && SameRegistrations(h, h')
  {
    hide Inv, HasSessionState, Builder.DecryptSignalMessage, Builder.DecryptPreKeyMessage;
    if t.bob.record.Some? {
      Redelivery.HeldFallsThrough(t.bob, c.Around(m), t.nextKey, Answers(ok));
      w', h' := HearActFollows(t, w, h, c, Bob, m, ok);
    } else {
      WireFollows(t, w, c, m);
      hide PossibleMessage, OnWire, StillWaiting, SameRecord;
      h' := ReceiveKeepsInv(w, h, Bob, m, ok);
      w' := ReceiveStep(w, Bob, m, ok);
      hide ReceiveStep;
      NotStored(t.bob, w.bob);
      FirstWrappedFollows(t.bob, w, h, c, m, ok);
      FirstFollowsOn(t, w, w', c, m, Builder.DecryptPreKeyMessage(t.bob, c.Around(m), t.nextKey, Answers(ok)));
    }
  }

  lemma FirstFollowsOn(t: Talk, w: World, w': World, c: Wrapping, m: Message, outcome: (Builder.Store,
                       Result<Plaintext>))
    requires Follows(t, w, c) && StillWaiting(t.bob, w.bob, c)
    requires w'.nextKey == w.nextKey + 1 && w'.alice == w.alice && w'.bob.sent == []
    requires w'.bob.accepted == if outcome.1.Ok? then [Transfer(m, outcome.1.value)] else []
    requires if outcome.1.Ok?
             then SameRecord(outcome.0, w'.bob)
                  && HasSessionState(Builder.Load(outcome.0), CURRENT_VERSION, PublicKey(c.base))
             else outcome.0 == t.bob && w'.bob == w.bob
    ensures Follows(Heard(t, Bob, m, outcome), w', c)
  {
    hide SameRecord, HasSessionState;
    var t' := Heard(t, Bob, m, outcome);
    assert t.Logs(Bob) == Log([], []);
    if outcome.1.Ok? {
      var x := Transfer(m, outcome.1.value);
      assert [] + [x] == [x];
    }
    forall p: Party
      ensures t'.Logs(p) == Log(w'.At(p).sent, w'.At(p).accepted)
    {
      assert t.Logs(p) == Log(w.At(p).sent, w.At(p).accepted);
    }
  }

  lemma NotStored(store: Builder.Store, node: Node)
    requires store.record.None?
    ensures !SameRecord(store, node)
  {
  }

  lemma ActFollows(t: Talk, w: World, h: History, c: Wrapping, a: Act) returns (w': World, h': History)
    requires Follows(t, w, c) && Inv(w, h) && CanHappen(t, a)
    ensures Follows(Next(t, a, c), w', c) && Inv(w', h') && SameRegistrations(h, h')
  {
    hide Follows, Inv, Said, Heard, OnWire, Builder.DecryptSignalMessage, Builder.DecryptPreKeyMessage;
    w', h' := w, h;
    match a {
      case Say(p, plaintext, ok) =>
        if ok {
          w', h' := SayActFollows(t, w, h, c, p, plaintext);
        } else {
          NothingSaid(t, p, plaintext);
        }
      case Hear(p, m, ok) =>
        if t.Store(p).record.Some? {
          w', h' := HearActFollows(t, w, h, c, p, m, ok);
        }
      case HearWrapped(m, ok) =>
        if Builder.Parses(c.Around(m)) {
          w', h' := WrappedActFollows(t, w, h, c, m, ok);
        }
    }
  }

  lemma NothingSaid(t: Talk, p: Party, plaintext: Plaintext)
    ensures Said(t, p, plaintext, false) == t
  {
  }

  lemma {:induction false} TalkFollows(t: Talk, w: World, h: History, c: Wrapping, acts: seq<Act>)
    returns (w': World, h': History)
    requires Follows(t, w, c) && Inv(w, h) && IsTalk(t, acts, c)
    ensures Follows(End(t, acts, c), w', c) && Inv(w', h') && SameRegistrations(h, h')
    decreases |acts|
  {
    hide Follows, Inv, CanHappen, Next;
    w', h' := w, h;
    if acts != [] {
      var w1, h1 := ActFollows(t, w, h, c, acts[0]);
      w', h' := TalkFollows(Next(t, acts[0], c), w1, h1, c, acts[1..]);
    }
  }

  // ----- from the bundle on

  /** Alice has processed Bob's bundle; nothing has been said. */
  function Opening(alice: Builder.Store, bob: Builder.Store, bundle: Builder.Bundle, k: nat, k1: nat,
                   nextKey: nat): Talk {
    Talk(Setup.Initiated(alice, bundle, k, k1), bob, Log([], []), Log([], []), nextKey)
  }

  lemma OpeningFollows(alice: Builder.Store, bob: Builder.Store, signedId: u32, preKeyId: Option<u32>, k0: nat, k: nat,
                       k1: nat, nextKey: nat) returns (w: World, h: History)
    requires Setup.Strangers(alice, bob, signedId, preKeyId, k0)
    requires k0 < nextKey && k1 < nextKey && k0 != k1
    ensures
      var bundle := Setup.Published(bob, signedId, preKeyId);
      && Follows(Opening(alice, bob, bundle, k, k1, nextKey), w, Wrapping(alice, bundle, k)) && Inv(w, h)
      && h.aliceId == alice.identity.pub && h.bobId == bob.identity.pub
      && h.aliceRegistration == Registration(alice.registrationId, bob.registrationId)
      && h.bobRegistration == Registration(bob.registrationId, alice.registrationId)
  {
    var bundle := Setup.Published(bob, signedId, preKeyId);
    var m := Message(Content(0, PublicKey(0), 0, 0, Garbage(0)), Junk(0));
    Setup.PreKeysSetUp(alice, bob, signedId, preKeyId, k0, k, k1, m, nextKey);
    w := Setup.PreKeyWorld(alice, bob, signedId, preKeyId, k0, k, k1, m, nextKey);
    h := InitialInv(w, k0, k1);
    EndsOf(w, h, Alice);
    EndsOf(w, h, Bob);
    hide Initial, Inv;
    AliceStored(alice, bundle, k, k1);
    Setup.PreKeysMatch(alice, bob, signedId, preKeyId, k0, k, k1, m);
    BobWaits(bob, Wrapping(alice, bundle, k), m, w.bob);
    hide SameRecord, StillWaiting, Matched, Setup.Initiated;
  }

  lemma AliceStored(alice: Builder.Store, bundle: Builder.Bundle, k: nat, k1: nat)
    requires alice.record.None?
    ensures
      var r := Setup.Initiated(alice, bundle, k, k1).record;
      r.Some? && SameRecord(Setup.Initiated(alice, bundle, k, k1), Node(r.value, [], []))
  {
    Builder.BundleKeepsStore(alice, bundle, GeneratePair(k), GeneratePair(k1), Redelivery.ALL_WELL);
  }

  /** Which message Alice wraps does not matter to the session it sets up. */
  lemma BobWaits(bob: Builder.Store, c: Wrapping, m: Message, node: Node)
    requires bob.record.None?
    requires
      var processed := Builder.ProcessPreKeyMessage(bob, Builder.Load(bob), c.Around(m), Redelivery.ALL_WELL);
      processed.Ok? && node == Node(processed.value.0, [], []) && processed.value.0.previous == []
    ensures StillWaiting(bob, node, c)
  {
    forall m': Message, ok: bool
      ensures
        var processed := Builder.ProcessPreKeyMessage(bob, Builder.Load(bob), c.Around(m'), Answers(ok));
        processed.Ok? && processed.value.0 == node.record
    {
      hide BobInitialize, HasSessionState;
    }
  }

  /**
   * Integrity and at-most-once delivery over whole conversations: everything a
   * party accepted, wrapped or plain, was sent by the other with exactly that
   * plaintext, and nothing is accepted twice.
   */
  lemma ConversationIntegrity(alice: Builder.Store, bob: Builder.Store, signedId: u32, preKeyId: Option<u32>, k0: nat,
                              k: nat, k1: nat, nextKey: nat, acts: seq<Act>, p: Party)
    requires Setup.Strangers(alice, bob, signedId, preKeyId, k0)
    requires k0 < nextKey && k1 < nextKey && k0 != k1
    requires
      var bundle := Setup.Published(bob, signedId, preKeyId);
      IsTalk(Opening(alice, bob, bundle, k, k1, nextKey), acts, Wrapping(alice, bundle, k))
    ensures
      var bundle := Setup.Published(bob, signedId, preKeyId);
      var end := End(Opening(alice, bob, bundle, k, k1, nextKey), acts, Wrapping(alice, bundle, k));
      && (forall i :: 0 <= i < |end.Logs(p).accepted| ==> end.Logs(p).accepted[i] in end.Logs(Peer(p)).sent)
      && (forall i, j :: 0 <= i < j < |end.Logs(p).accepted| ==>
            end.Logs(p).accepted[i].message != end.Logs(p).accepted[j].message)
  {
    hide IsTalk, End, Opening, Inv, Setup.Published;
    var c := Wrapping(alice, Setup.Published(bob, signedId, preKeyId), k);
    var t := Opening(alice, bob, c.bundle, k, k1, nextKey);
    var w, h := OpeningFollows(alice, bob, signedId, preKeyId, k0, k, k1, nextKey);
    w, h := TalkFollows(t, w, h, c, acts);
    AcceptedInOrder(w, h, p);
    hide SameRecord, StillWaiting, HasSessionState;
  }

  /** After every conversation each party's session records the other's registration id and its own. */
  lemma ConversationEnds(alice: Builder.Store, bob: Builder.Store, signedId: u32, preKeyId: Option<u32>, k0: nat,
                         k: nat,
                         k1: nat, nextKey: nat, acts: seq<Act>)
    requires Setup.Strangers(alice, bob, signedId, preKeyId, k0)
    requires k0 < nextKey && k1 < nextKey && k0 != k1
    requires
      var bundle := Setup.Published(bob, signedId, preKeyId);
      IsTalk(Opening(alice, bob, bundle, k, k1, nextKey), acts, Wrapping(alice, bundle, k))
    ensures
      var bundle := Setup.Published(bob, signedId, preKeyId);
      var end := End(Opening(alice, bob, bundle, k, k1, nextKey), acts, Wrapping(alice, bundle, k));
      var ra, rb := Builder.Load(end.alice), Builder.Load(end.bob);
      && ra.state.Some? && Setup.Introduced(ra.state.value, alice, bob)
      && (end.bob.record.Some? ==> rb.state.Some? && Setup.Introduced(rb.state.value, bob, alice))
  {
    hide IsTalk, End, Opening, Inv, Setup.Published, HasSessionState;
    var c := Wrapping(alice, Setup.Published(bob, signedId, preKeyId), k);
    var t := Opening(alice, bob, c.bundle, k, k1, nextKey);
    var w, h := OpeningFollows(alice, bob, signedId, preKeyId, k0, k, k1, nextKey);
    var w', h' := TalkFollows(t, w, h, c, acts);
    EndsOf(w', h', Alice);
    EndsOf(w', h', Bob);
  }

  lemma AcceptedInOrder(w: World, h: History, p: Party)
    requires Inv(w, h)
    ensures forall i :: 0 <= i < |w.At(p).accepted| ==> w.At(p).accepted[i] in w.At(Peer(p)).sent
    ensures forall i, j :: 0 <= i < j < |w.At(p).accepted| ==>
            w.At(p).accepted[i].message != w.At(p).accepted[j].message
  {
    hide SessionOk, EpochsOk, SentOk, TakenLogged;
    Disassemble(w, h, p);
  }
}
