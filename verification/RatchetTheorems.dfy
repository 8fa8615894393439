/** The ratchet's guarantees over every run from matching sessions. */
module RatchetTheorems {
  import opened Common
  import opened Terms
  import opened KeyWindow
  import opened Session
  import opened Ratchet
  import opened SessionCipher
  import opened SessionRecord
  import opened RatchetWorld
  import opened RatchetHistory
  import opened RatchetRuns

  lemma {:induction false} DormantDecryptNothing(r: Record, m: Message, supply: nat, i: nat)
    requires RecordWellTyped(r) && OnlyCurrent(r) && i <= |r.previous|
    ensures DecryptPrevious(r, m, supply, i) == Err(InvalidMessage)
    decreases |r.previous| - i
  {
    if i < |r.previous| {
      assert Dormant(r.previous[i]);
      CopyIsIdentity(r.previous[i]);
      hide Copy, WellTyped, Canonical;
      DormantDecryptNothing(r, m, supply, i + 1);
    }
  }

  /** On a reachable record, decrypting is decrypting on the current session. */
  lemma DecryptsCurrent(h: History, p: Party, r: Record, m: Message, supply: nat)
    requires Shape(h) && OnlyCurrent(r) && SessionOk(h, p, r.state.value)
    ensures RecordWellTyped(r)
    ensures
      var attempt := DecryptFromState(r.state.value, m, GeneratePair(supply));
      var result := DecryptFromRecord(r, m, supply);
      result == if attempt.Ok? then Ok((r.(state := Some(attempt.value.0)), attempt.value.1)) else Err(attempt.error)
  {
    hide DecryptFromState;
    SessionCopies(h, p, r.state.value);
    hide Copy, WellTyped, Canonical, SessionOk;
    DormantDecryptNothing(r, m, supply, 0);
  }

  lemma DrawKeepsInv(w: World, h: History, n: nat)
    requires Inv(w, h)
    ensures Inv(w.(nextKey := w.nextKey + n), h)
  {
  }

  /** A successful decryption keeps the invariant and yields a transfer of the peer. */
  lemma AcceptKeepsInv(w: World, h: History, p: Party, m: Message) returns (h': History)
    requires Inv(w, h) && PossibleMessage(w, m)
    requires DecryptFromState(w.At(p).record.state.value, m, GeneratePair(w.nextKey)).Ok?
    ensures
      var (s', plaintext) := DecryptFromState(w.At(p).record.state.value, m, GeneratePair(w.nextKey)).value;
      && Inv(Accepting(w, p, s', Transfer(m, plaintext)), h') && Grows(h, h') && SendsAtMost(h, h', 0)
      && (h'.Pos(p) == h.Pos(p) || h'.Pos(p) == h.Pos(p) + 2) && h'.Pos(Peer(p)) == h.Pos(Peer(p))
  {
    hide DecryptFromState, Take, EpochsOk, SentOk, AcceptedOk, TakenLogged, ReceiversOk, Linked, KeyAt, ChainTerm;
    hide RootTerm, Agree;
    Disassemble(w, h, p);
    var s := w.At(p).record.state.value;
    var found, i, window, key := DecryptOpens(s, m, GeneratePair(w.nextKey));
    var x;
    if FindChain(s.receiverChains, m.content.ratchetKey) < |s.receiverChains| {
      h', x := ReceiveOnExisting(w, h, p, m, i, window, key);
    } else {
      NewChainState(h.epochs[h.Pos(p)], s, m.content.ratchetKey, GeneratePair(w.nextKey));
      h', x := ReceiveOnNew(w, h, p, m, window, key);
    }
    assert x == Transfer(m, DecryptBody(m.content.version, key, m.content.body).value);
  }

  lemma ReceiveKeepsInv(w: World, h: History, p: Party, m: Message, committed: bool) returns (h': History)
    requires Inv(w, h) && PossibleMessage(w, m)
    ensures Inv(ReceiveStep(w, p, m, committed), h') && Grows(h, h') && SendsAtMost(h, h', 0)
  {
    hide DecryptFromState, DecryptFromRecord, SessionOk, EpochsOk, SentOk, AcceptedOk, TakenLogged;
    Disassemble(w, h, p);
    var node := w.At(p);
    DecryptsCurrent(h, p, node.record, m, w.nextKey);
    hide Inv, Grows;
    if DecryptFromState(node.record.state.value, m, GeneratePair(w.nextKey)).Ok? && committed {
      h' := AcceptKeepsInv(w, h, p, m);
      var (s', plaintext) := DecryptFromState(node.record.state.value, m, GeneratePair(w.nextKey)).value;
      DrawKeepsInv(Accepting(w, p, s', Transfer(m, plaintext)), h', |node.record.previous|);
    } else {
      h' := h;
      GrowsNot(h);
      DrawKeepsInv(w, h, 1 + |node.record.previous|);
    }
  }

  lemma InitialInv(w: World, k0: nat, k1: nat) returns (h: History)
    requires Initial(w, k0, k1)
    ensures Inv(w, h) && forall i :: 0 <= i < |h.epochs| ==> h.epochs[i].sends == 0
  {
    var a, b := w.alice.record.state.value, w.bob.record.state.value;
    var r0, c0 := b.rootKey.value.key, b.senderChain.value.chainKey.value.key;
    var e0 := Epoch(k0, r0, c0, 0, 0, [], {});
    var e1 := Epoch(k1, RootTerm(r0, k0, PublicKey(k1)), ChainTerm(r0, k0, PublicKey(k1)), 0, 0, [], {});
    h := History([e0, e1], 1, 0, a.localIdentity.value, b.localIdentity.value,
                 Registration(a.localRegistrationId, a.remoteRegistrationId),
                 Registration(b.localRegistrationId, b.remoteRegistrationId));
    StartedWindow(e0);
    StartedWindow(e1);
    hide WindowOk;
    assert SessionOk(h, Alice, a);
    assert SessionOk(h, Bob, b);
  }

  /** Whatever the network does, the two sessions stay on one shared ratchet. */
  lemma {:induction false} RunKeepsInv(w: World, h: History, events: seq<Event>) returns (h': History)
    requires Inv(w, h) && IsRun(w, events)
    ensures Inv(Final(w, events), h') && Grows(h, h') && SendsAtMost(h, h', |events|)
    decreases |events|
  {
    hide Inv, Possible, Step, Grows;
    h' := h;
    if events == [] {
      GrowsNot(h);
    } else {
      var h1 := StepKeepsInv(w, h, events[0]);
      h' := RunKeepsInv(Step(w, events[0]), h1, events[1..]);
      Shaped(w, h);
      Shaped(Step(w, events[0]), h1);
      GrowsOn(h, h1, h');
    }
  }

  lemma StepKeepsInv(w: World, h: History, e: Event) returns (h': History)
    requires Inv(w, h) && Possible(w, e)
    ensures Inv(Step(w, e), h') && Grows(h, h') && SendsAtMost(h, h', 1)
  {
    hide Inv, PossibleMessage, SendStep, ReceiveStep, Grows;
    h' := h;
    match e {
      case Send(p, plaintext, storeOk) =>
        if storeOk {
          h' := SendKeepsInv(w, h, p, plaintext);
        } else {
          GrowsNot(h);
        }
      case Receive(p, m, callbackOk, storeOk) => h' := ReceiveKeepsInv(w, h, p, m, callbackOk && storeOk);
    }
  }

  lemma GrowsNot(h: History)
    ensures Grows(h, h)
  {
  }

  lemma Shaped(w: World, h: History)
    requires Inv(w, h)
    ensures Shape(h)
  {
  }

  /**
   * Agreement: after any run, both root keys lie on one sequence of epochs, at
   * positions that differ by exactly one, and each receiving chain a party holds
   * is an advance, by at most the number of messages sent, of the sending chain
   * the peer used with that ratchet key.
   */
  lemma RatchetAgreement(w: World, k0: nat, k1: nat, events: seq<Event>) returns (h: History)
    requires Initial(w, k0, k1) && IsRun(w, events)
    ensures Inv(Final(w, events), h)
    ensures Shape(h) && Linked(h.epochs)
    ensures forall p: Party ::
              && Final(w, events).At(p).record.state.Some?
              && SessionOk(h, p, Final(w, events).At(p).record.state.value)
    ensures forall i :: 0 <= i < |h.epochs| ==> h.epochs[i].m <= h.epochs[i].sends
  {
    h := InitialInv(w, k0, k1);
    h := RunKeepsInv(w, h, events);
    hide Inv, SessionOk, Linked, Final, IsRun, Initial;
    forall p: Party
      ensures Final(w, events).At(p).record.state.Some? && Shape(h)
      ensures SessionOk(h, p, Final(w, events).At(p).record.state.value)
    {
      SharedHistory(Final(w, events), h, p);
    }
    SharedHistory(Final(w, events), h, Alice);
  }

  lemma SharedHistory(w: World, h: History, p: Party)
    requires Inv(w, h)
    ensures Shape(h) && Linked(h.epochs)
    ensures w.At(p).record.state.Some? && SessionOk(h, p, w.At(p).record.state.value)
    ensures forall i :: 0 <= i < |h.epochs| ==> h.epochs[i].m <= h.epochs[i].sends
  {
    hide SessionOk, Linked, KeysFresh, SentOk, AcceptedOk, TakenLogged, Covers, Spent, Unread;
    assert forall i :: 0 <= i < |h.epochs| ==> WindowOk(h.epochs[i]);
  }

  /**
   * Integrity and at-most-once delivery: everything accepted was sent by the
   * peer with exactly that plaintext, and no message is accepted twice, even
   * after its chain was evicted or the 32-bit counters wrapped.
   */
  lemma IntegrityAndAtMostOnce(w: World, k0: nat, k1: nat, events: seq<Event>, p: Party)
    requires Initial(w, k0, k1) && IsRun(w, events)
    ensures
      var end := Final(w, events);
      && (forall i :: 0 <= i < |end.At(p).accepted| ==> end.At(p).accepted[i] in end.At(Peer(p)).sent)
      && (forall i, j :: 0 <= i < j < |end.At(p).accepted| ==>
            end.At(p).accepted[i].message != end.At(p).accepted[j].message)
  {
    var h := InitialInv(w, k0, k1);
    h := RunKeepsInv(w, h, events);
    hide Initial, IsRun, Final;
    Disassemble(Final(w, events), h, p);
  }

  /** Every session of every run is copied faithfully by serialising and deserialising it. */
  lemma ReachableCopyIsIdentity(w: World, k0: nat, k1: nat, events: seq<Event>, p: Party)
    requires Initial(w, k0, k1) && IsRun(w, events)
    ensures
      var r := Final(w, events).At(p).record;
      r.state.Some? && WellTyped(r.state.value) && Copy(r.state.value) == Ok(r.state.value)
  {
    var h := InitialInv(w, k0, k1);
    h := RunKeepsInv(w, h, events);
    hide Initial, IsRun, Final, Copy, WellTyped;
    Disassemble(Final(w, events), h, p);
    SessionCopies(h, p, Final(w, events).At(p).record.state.value);
  }

  // ----- what sessions and messages say about the ends and the counts

  /** Identities and registration ids of both ends stay what they were set up as. */
  lemma RunKeepsEnds(w: World, k0: nat, k1: nat, events: seq<Event>, p: Party)
    requires Initial(w, k0, k1) && IsRun(w, events)
    ensures Final(w, events).At(p).record.state.Some? && w.At(p).record.state.Some?
    ensures SameEnds(Final(w, events).At(p).record.state.value, w.At(p).record.state.value)
  {
    hide Initial, IsRun, Final, Inv;
    var h := InitialInv(w, k0, k1);
    var h' := RunKeepsInv(w, h, events);
    EndsOf(w, h, p);
    EndsOf(Final(w, events), h', p);
  }

  lemma EndsOf(w: World, h: History, p: Party)
    requires Inv(w, h)
    ensures w.At(p).record.state.Some? && Identified(h, p, w.At(p).record.state.value)
  {
    hide SessionOk, EpochsOk, SentOk, AcceptedOk, TakenLogged;
    Disassemble(w, h, p);
  }

  /** How many messages of the log carry this ratchet key. */
  function CountWith(sent: seq<Transfer>, key: PublicKey): nat {
    if sent == [] then 0
    else CountWith(sent[..|sent| - 1], key) + if sent[|sent| - 1].message.content.ratchetKey == key then 1 else 0
  }

  /** Each epoch has sent as many messages as the log has with its ratchet key. */
  ghost predicate Counted(h: History, p: Party, sent: seq<Transfer>) {
    forall e :: 0 <= e < |h.epochs| && Owner(e) == p ==>
      CountWith(sent, PublicKey(h.epochs[e].key)) == h.epochs[e].sends
  }

  lemma SendCounts(h: History, h': History, p: Party, sent: seq<Transfer>, x: Transfer, nextKey: nat)
    requires Shape(h) && KeysFresh(h.epochs, nextKey) && Counted(h, p, sent)
    requires
      var pos := h.Pos(p);
      && h' == h.(epochs := h.epochs[pos := h.epochs[pos].(sends := h.epochs[pos].sends + 1)])
      && x.message.content.ratchetKey == PublicKey(h.epochs[pos].key)
    ensures Counted(h', p, sent + [x])
  {
    assert (sent + [x])[..|sent|] == sent;
  }

  lemma SendCountsNot(h: History, h': History, p: Party, sent: seq<Transfer>, pos: nat)
    requires pos < |h.epochs| && Owner(pos) != p && Counted(h, p, sent)
    requires h' == h.(epochs := h.epochs[pos := h.epochs[pos].(sends := h.epochs[pos].sends + 1)])
    ensures Counted(h', p, sent)
  {
  }

  /** A key that no message of the log carries. */
  lemma {:induction false} NotCounted(sent: seq<Transfer>, key: PublicKey)
    requires forall i :: 0 <= i < |sent| ==> sent[i].message.content.ratchetKey != key
    ensures CountWith(sent, key) == 0
  {
    if sent != [] {
      NotCounted(sent[..|sent| - 1], key);
    }
  }

  lemma ReceiveCounts(h: History, h': History, p: Party, sent: seq<Transfer>, nextKey: nat)
    requires Counted(h, p, sent) && SentOk(h, p, sent)
    requires Grows(h, h') && SendsAtMost(h, h', 0) && KeysFresh(h'.epochs, nextKey)
    ensures Counted(h', p, sent)
  {
    forall e | 0 <= e < |h'.epochs| && Owner(e) == p
      ensures CountWith(sent, PublicKey(h'.epochs[e].key)) == h'.epochs[e].sends
    {
      if e >= |h.epochs| {
        forall i | 0 <= i < |sent|
          ensures sent[i].message.content.ratchetKey != PublicKey(h'.epochs[e].key)
        {
          assert WasSent(h, sent[i], p);
          var e': nat, t: nat :| SentAt(h, sent[i], p, e', t);
          assert h.epochs[e'].key == h'.epochs[e'].key;
        }
        NotCounted(sent, PublicKey(h'.epochs[e].key));
      }
    }
  }

  ghost predicate AllCounted(w: World, h: History) {
    Counted(h, Alice, w.alice.sent) && Counted(h, Bob, w.bob.sent)
  }

  lemma SendStepCounts(w: World, h: History, p: Party, plaintext: Plaintext) returns (h': History)
    requires Inv(w, h) && AllCounted(w, h)
    ensures Inv(SendStep(w, p, plaintext), h') && AllCounted(SendStep(w, p, plaintext), h')
  {
    hide Counted, Inv, SendStep, Grows, SendsAtMost, KeysFresh, SentOk;
    h' := SendKeepsInv(w, h, p, plaintext);
    FreshKeys(w, h);
    OthersSentNot(w, p, plaintext);
    var w' := SendStep(w, p, plaintext);
    var pos := h.Pos(p);
    var x :| w'.At(p).sent == w.At(p).sent + [x] && SentAt(h', x, p, pos, h.epochs[pos].sends);
    SentFacts(h', x, p, pos, h.epochs[pos].sends);
    hide SentAt;
    SendCounts(h, h', p, w.At(p).sent, x, w.nextKey);
    SendCountsNot(h, h', Peer(p), w.At(Peer(p)).sent, pos);
  }

  lemma OthersSentNot(w: World, p: Party, plaintext: Plaintext)
    ensures SendStep(w, p, plaintext).At(Peer(p)) == w.At(Peer(p))
  {
  }

  lemma FreshKeys(w: World, h: History)
    requires Inv(w, h)
    ensures Shape(h) && KeysFresh(h.epochs, w.nextKey) && SentOk(h, Alice, w.alice.sent) && SentOk(h, Bob, w.bob.sent)
  {
  }

  lemma ReceiveStepCounts(w: World, h: History, p: Party, m: Message, committed: bool) returns (h': History)
    requires Inv(w, h) && AllCounted(w, h) && PossibleMessage(w, m)
    ensures Inv(ReceiveStep(w, p, m, committed), h') && AllCounted(ReceiveStep(w, p, m, committed), h')
  {
    h' := ReceiveKeepsInv(w, h, p, m, committed);
    var w' := ReceiveStep(w, p, m, committed);
    assert w'.alice.sent == w.alice.sent && w'.bob.sent == w.bob.sent;
    hide Inv, Counted, ReceiveStep, Grows, SendsAtMost;
    FreshKeys(w, h);
    FreshKeys(w', h');
    ReceiveCounts(h, h', Alice, w.alice.sent, w'.nextKey);
    ReceiveCounts(h, h', Bob, w.bob.sent, w'.nextKey);
  }

  lemma {:induction false} RunCounts(w: World, h: History, events: seq<Event>) returns (h': History)
    requires Inv(w, h) && AllCounted(w, h) && IsRun(w, events)
    ensures Inv(Final(w, events), h') && AllCounted(Final(w, events), h')
    decreases |events|
  {
    hide Inv, AllCounted, PossibleMessage, SendStep, ReceiveStep;
    h' := h;
    if events != [] {
      match events[0] {
        case Send(p, plaintext, storeOk) =>
          if storeOk {
            h' := SendStepCounts(w, h, p, plaintext);
          }
        case Receive(p, m, callbackOk, storeOk) => h' := ReceiveStepCounts(w, h, p, m, callbackOk && storeOk);
      }
      h' := RunCounts(Step(w, events[0]), h', events[1..]);
    }
  }

  /**
   * The counters that go out: after any run each message of a party carries a
   * ratchet key of its own, the number of messages it had sent with that key
   * before, and, of the messages in its log with the ratchet key before that,
   * the number less one; zero if there are none.  Both are taken modulo 2^32.
   */
  lemma CountersSent(w: World, k0: nat, k1: nat, events: seq<Event>, p: Party, i: nat)
    returns (h: History, e: nat, t: nat)
    requires Initial(w, k0, k1) && IsRun(w, events) && i < |Final(w, events).At(p).sent|
    ensures
      var sent := Final(w, events).At(p).sent;
      var content := sent[i].message.content;
      && Inv(Final(w, events), h) && SentAt(h, sent[i], p, e, t)
      && content.ratchetKey == PublicKey(h.epochs[e].key) && content.counter == ToU32(t)
      && t < CountWith(sent, content.ratchetKey)
      && content.previousCounter ==
         if e < 2 then 0
         else
           var before := ToU32(CountWith(sent, PublicKey(h.epochs[e - 2].key)));
           if before == 0 then 0 else before - 1
  {
    hide Initial, IsRun, Final, Inv;
    h := InitialInv(w, k0, k1);
    NothingCounted(w, k0, k1, h);
    h := RunCounts(w, h, events);
    var end := Final(w, events);
    FreshKeys(end, h);
    assert WasSent(h, end.At(p).sent[i], p);
    e, t :| SentAt(h, end.At(p).sent[i], p, e, t);
    CountsSent(h, p, end.At(p).sent, e);
  }

  lemma CountsSent(h: History, p: Party, sent: seq<Transfer>, e: nat)
    requires Counted(h, p, sent) && e < |h.epochs| && Owner(e) == p
    ensures CountWith(sent, PublicKey(h.epochs[e].key)) == h.epochs[e].sends
    ensures e >= 2 ==> CountWith(sent, PublicKey(h.epochs[e - 2].key)) == h.epochs[e - 2].sends
  {
    assert e >= 2 ==> Owner(e - 2) == p;
  }

  lemma NothingCounted(w: World, k0: nat, k1: nat, h: History)
    requires Initial(w, k0, k1) && forall i :: 0 <= i < |h.epochs| ==> h.epochs[i].sends == 0
    ensures AllCounted(w, h)
  {
  }

  /**
   * The window of every receiving chain of every run: at most 2000 cached keys,
   * strictly increasing and below the chain's step `m`, each a fresh derivation
   * from the start of the chain; and every one of the last 2000 steps is cached
   * or its message has been delivered.
   */
  lemma SkippedKeyWindow(w: World, k0: nat, k1: nat, events: seq<Event>, p: Party, j: nat)
    returns (base: Term, m: nat, steps: seq<nat>)
    requires Initial(w, k0, k1) && IsRun(w, events)
    requires
      var r := Final(w, events).At(p).record;
      r.state.Some? ==> j < |r.state.value.receiverChains|
    ensures
      var node := Final(w, events).At(p);
      && node.record.state.Some?
      && |node.record.state.value.receiverChains| <= 5
      && Tracks(node.record.state.value.receiverChains[j].window, SESSION, base, m, steps) && |steps| <= 2000
      && forall t: nat :: m - 2000 <= t < m ==>
           t in steps || Delivered(node.accepted, KeyAt(SESSION, base, t))
  {
    hide Initial, IsRun, Final, Inv, Tracks, KeyAt, Delivered;
    var h := InitialInv(w, k0, k1);
    h := RunKeepsInv(w, h, events);
    EndsOf(Final(w, events), h, p);
    base, m, steps := WindowOf(Final(w, events), h, p, j);
  }

  lemma WindowOf(w: World, h: History, p: Party, j: nat) returns (base: Term, m: nat, steps: seq<nat>)
    requires Inv(w, h) && (w.At(p).record.state.Some? ==> j < |w.At(p).record.state.value.receiverChains|)
    ensures
      var node := w.At(p);
      && node.record.state.Some?
      && |node.record.state.value.receiverChains| <= 5
      && Tracks(node.record.state.value.receiverChains[j].window, SESSION, base, m, steps) && |steps| <= 2000
      && forall t: nat :: m - 2000 <= t < m ==>
           t in steps || Delivered(node.accepted, KeyAt(SESSION, base, t))
  {
    hide SentOk, AcceptedOk, Identified, Increasing;
    Disassemble(w, h, p);
    var node := w.At(p);
    var n := ChainEpoch(h.Pos(p), j);
    var e := h.epochs[n];
    base, m, steps := e.chain, e.m, e.steps;
    assert ReceiverOk(e, node.record.state.value.receiverChains[j]) && WindowOk(e);
    hide Tracks, KeyAt, Delivered, TakenLogged;
    forall t: nat | m - 2000 <= t < m
      ensures t in steps || Delivered(node.accepted, KeyAt(SESSION, base, t))
    {
      LoggedIsDelivered(h, p, node.accepted, n, t);
    }
  }

  lemma LoggedIsDelivered(h: History, p: Party, accepted: seq<Transfer>, n: nat, t: nat)
    requires TakenLogged(h, p, accepted) && n < |h.epochs| && Owner(n) == Peer(p)
    ensures t in h.epochs[n].taken ==> Delivered(accepted, KeyAt(SESSION, h.epochs[n].chain, t))
  {
  }

  /** A message authenticated with this key has been accepted. */
  ghost predicate Delivered(accepted: seq<Transfer>, key: MessageKey) {
    && key.material.SessionKeys?
    && exists i :: 0 <= i < |accepted| && accepted[i].message.tag.Mac? &&
         accepted[i].message.tag.macKey == key.material.macKey
  }

  // ----- which messages get through

  /** The receiving chain of `p` for epoch `e` is still held, at position `j`. */
  ghost predicate HeldAt(h: History, p: Party, e: nat, j: nat) {
    j < ChainCount(h.Pos(p)) && ChainEpoch(h.Pos(p), j) == e
  }

  ghost predicate Held(h: History, p: Party, e: nat) {
    exists j: nat :: HeldAt(h, p, e, j)
  }

  /** Step `t` of epoch `e` is cached, or at most 2000 steps ahead. */
  ghost predicate InWindow(e: Epoch, t: nat) {
    t in e.steps || e.m <= t <= e.m + MAX_AHEAD
  }

  ghost predicate NoWrap(h: History) {
    forall e :: 0 <= e < |h.epochs| ==> h.epochs[e].sends < U32_LIMIT
  }

  lemma HeldChainFound(h: History, p: Party, s: State, nextKey: nat, e: nat)
    requires EpochsOk(h, nextKey) && SessionOk(h, p, s) && e < |h.epochs|
    ensures
      var i := FindChain(s.receiverChains, PublicKey(h.epochs[e].key));
      if i < |s.receiverChains| then HeldAt(h, p, e, i) else !Held(h, p, e)
  {
  }

  /** The last checks of decryption, once a key is at hand. */
  lemma OpensWith(s: State, x: Transfer, ours: KeyPair, found: State, i: nat, h: History, p: Party, e: nat, t: nat)
    requires SentAt(h, x, Peer(p), e, t) && Identified(h, p, s) && s.version == CURRENT_VERSION && s.senderChain.Some?
    requires GetOrCreateChain(s, x.message.content.ratchetKey, ours) == Ok((found, i)) && i < |found.receiverChains|
    ensures
      var taken := Take(found.receiverChains[i].window, x.message.content.counter);
      var result := DecryptFromState(s, x.message, ours);
      && (result.Ok? ==> taken.Ok? && taken.value.1.material.SessionKeys?
                         && taken.value.1.material.macKey == MacKeyAt(h.epochs[e], t)
                         && result.value.1 == x.plaintext)
      && (taken.Ok? && taken.value.1 == KeyAt(SESSION, h.epochs[e].chain, t) ==> result.Ok?)
      && (taken.Err? ==> result == Err(taken.error))
      && (taken.Ok? && taken.value.1.material.SessionKeys? ==>
            taken.value.1.material.macKey != MacKeyAt(h.epochs[e], t) ==> result == Err(InvalidMessage))
  {
  }

  lemma HeldFacts(w: World, h: History, p: Party, e: nat, j: nat)
    requires Inv(w, h) && HeldAt(h, p, e, j)
    ensures e < |h.epochs| && h.epochs[e].m <= h.epochs[e].sends && w.At(p).record.state.Some?
    ensures
      var s := w.At(p).record.state.value;
      && j < |s.receiverChains|
      && Tracks(s.receiverChains[j].window, SESSION, h.epochs[e].chain, h.epochs[e].m, h.epochs[e].steps)
      && Identified(h, p, s) && s.version == CURRENT_VERSION && s.senderChain.Some?
  {
    hide SentOk, AcceptedOk, TakenLogged, Tracks, Linked, KeysFresh, Unread, Covers, Spent;
    Disassemble(w, h, p);
    var s := w.At(p).record.state.value;
    assert ReceiverOk(h.epochs[e], s.receiverChains[j]) && WindowOk(h.epochs[e]);
  }

  lemma ExactOnHeld(w: World, h: History, p: Party, x: Transfer, e: nat, t: nat, j: nat)
    requires Inv(w, h) && NoWrap(h) && SentAt(h, x, Peer(p), e, t) && HeldAt(h, p, e, j)
    requires FindChain(w.At(p).record.state.value.receiverChains, x.message.content.ratchetKey) == j
    ensures
      var result := DecryptFromState(w.At(p).record.state.value, x.message, GeneratePair(w.nextKey));
      && (result.Ok? <==> InWindow(h.epochs[e], t))
      && (result.Ok? ==> result.value.1 == x.plaintext)
      && (result.Err? ==> result == Err(if t < h.epochs[e].m then DuplicateMessage else InvalidMessage))
  {
    hide Inv, Initial, DecryptFromState, Take, Tracks, KeyAt, SentAt;
    HeldFacts(w, h, p, e, j);
    SentFacts(h, x, Peer(p), e, t);
    var s := w.At(p).record.state.value;
    OpensWith(s, x, GeneratePair(w.nextKey), s, j, h, p, e, t);
    TakeExact(s.receiverChains[j].window, SESSION, h.epochs[e].chain, h.epochs[e].m, h.epochs[e].steps, t);
  }

  lemma NewFacts(w: World, h: History, p: Party, e: nat)
    requires Inv(w, h) && e < |h.epochs|
    ensures Shape(h) && Linked(h.epochs) && (e == h.Pos(p) + 1 ==> Unread(h.epochs[e]))
    ensures w.At(p).record.state.Some?
    ensures
      var s := w.At(p).record.state.value;
      && SenderOk(h.epochs[h.Pos(p)], s) && Identified(h, p, s)
      && s.version == CURRENT_VERSION && s.senderChain.Some?
  {
    hide SentOk, AcceptedOk, TakenLogged, Linked, KeysFresh, Unread, WindowOk, ReceiversOk;
    Disassemble(w, h, p);
    assert e == h.Pos(p) + 1 ==> Owner(e) == Peer(p);
  }

  lemma ExactOnNew(w: World, h: History, p: Party, x: Transfer, e: nat, t: nat)
    requires Inv(w, h) && NoWrap(h) && SentAt(h, x, Peer(p), e, t)
    requires
      var chains := w.At(p).record.state.value.receiverChains;
      FindChain(chains, x.message.content.ratchetKey) == |chains|
    ensures
      var result := DecryptFromState(w.At(p).record.state.value, x.message, GeneratePair(w.nextKey));
      && (result.Ok? <==> e == h.Pos(p) + 1 && InWindow(h.epochs[e], t))
      && (result.Ok? ==> result.value.1 == x.plaintext)
      && (result.Err? ==> result == Err(InvalidMessage))
  {
    hide Inv, DecryptFromState, Take, GetOrCreateChain, AddReceiverChain, SenderOk;
    hide Linked, RootTerm, ChainTerm, Agree, KeyAt, SentAt;
    SentFacts(h, x, Peer(p), e, t);
    NewFacts(w, h, p, e);
    var s := w.At(p).record.state.value;
    var ours, theirs := GeneratePair(w.nextKey), x.message.content.ratchetKey;
    var ep := h.epochs[h.Pos(p)];
    var base := ChainTerm(ep.root, ep.key, theirs);
    var window := Window(ChainKeyAt(SESSION, base, 0), []);
    NewChainState(ep, s, theirs, ours);
    AddedLast(s.receiverChains, theirs, window.chain);
    var (found, i) := GetOrCreateChain(s, theirs, ours).value;
    OpensWith(s, x, ours, found, i, h, p, e, t);
    TakeExact(window, SESSION, base, 0, [], t);
    MatchesOnlyNext(h, p, theirs, e, t);
    if Take(window, t).Ok? {
      KeyedAt(base, t, Take(window, t).value.1);
    }
    if e == h.Pos(p) + 1 {
      NextChain(h.epochs, h.Pos(p));
    }
  }

  /** A key of the chain a party would start next is the peer's key of step `t` only on the next epoch. */
  lemma MatchesOnlyNext(h: History, p: Party, theirs: PublicKey, e: nat, t: nat)
    requires Shape(h) && Linked(h.epochs) && e < |h.epochs|
    ensures
      var ep := h.epochs[h.Pos(p)];
      KeyAt(SESSION, ChainTerm(ep.root, ep.key, theirs), t).material.macKey == MacKeyAt(h.epochs[e], t) ==>
        e == h.Pos(p) + 1
  {
    var ep := h.epochs[h.Pos(p)];
    if KeyAt(SESSION, ChainTerm(ep.root, ep.key, theirs), t).material.macKey == MacKeyAt(h.epochs[e], t) {
      NewChainMatchesNextEpoch(h.epochs, h.Pos(p), theirs, t, e, t);
    }
  }

  lemma NextChain(epochs: seq<Epoch>, i: nat)
    requires Linked(epochs) && i + 1 < |epochs|
    ensures epochs[i + 1].chain == ChainTerm(epochs[i].root, epochs[i].key, PublicKey(epochs[i + 1].key))
  {
  }

  lemma AddedLast(chains: seq<ReceiverChain>, theirs: PublicKey, chainKey: ChainKey)
    ensures
      var added := AddReceiverChain(chains, theirs, chainKey);
      |added| > 0 && added[|added| - 1].window == Window(chainKey, [])
  {
  }

  /** How decrypting the peer's message of step `t` of epoch `e` is answered, before a counter wraps. */
  ghost predicate AnsweredAs(h: History, p: Party, x: Transfer, e: nat, t: nat, result: Result<(Record, Plaintext)>)
    requires e < |h.epochs|
  {
    if (Held(h, p, e) || e == h.Pos(p) + 1) && InWindow(h.epochs[e], t) then result.Ok? && result.value.1 == x.plaintext
    else if Held(h, p, e) && t < h.epochs[e].m then result == Err(DuplicateMessage)
    else result == Err(InvalidMessage)
  }

  /**
   * Until a counter wraps, a message of the peer is accepted exactly when its
   * chain is still held or is the next one, and its step is cached or at most
   * 2000 ahead.  Accepting it logs exactly what the peer sent.  Otherwise it is
   * a duplicate if its chain is held and past it, and invalid if not.
   */
  lemma DeliverExact(w: World, h: History, p: Party, x: Transfer, e: nat, t: nat)
    requires Inv(w, h) && NoWrap(h) && SentAt(h, x, Peer(p), e, t)
    ensures RecordWellTyped(w.At(p).record)
    ensures AnsweredAs(h, p, x, e, t, DecryptFromRecord(w.At(p).record, x.message, w.nextKey))
    ensures
      var after := ReceiveStep(w, p, x.message, true);
      after.At(p).accepted ==
        if (Held(h, p, e) || e == h.Pos(p) + 1) && InWindow(h.epochs[e], t)
        then w.At(p).accepted + [x] else w.At(p).accepted
  {
    hide DecryptFromState, DecryptFromRecord, SentOk, AcceptedOk, TakenLogged, SessionOk, EpochsOk;
    Disassemble(w, h, p);
    var s := w.At(p).record.state.value;
    DecryptsCurrent(h, p, w.At(p).record, x.message, w.nextKey);
    HeldChainFound(h, p, s, w.nextKey, e);
    var i := FindChain(s.receiverChains, x.message.content.ratchetKey);
    hide Held, InWindow;
    if i < |s.receiverChains| {
      HeldBy(h, p, e, i);
      ExactOnHeld(w, h, p, x, e, t, i);
    } else {
      ExactOnNew(w, h, p, x, e, t);
    }
  }

  lemma HeldBy(h: History, p: Party, e: nat, j: nat)
    requires HeldAt(h, p, e, j)
    ensures Held(h, p, e)
  {
  }

  // ----- how any message is answered

  lemma TakeRefuses(w: Window, counter: u32)
    ensures Take(w, counter).Err? ==> Take(w, counter).error in {InvalidMessage, DuplicateMessage}
  {
    hide SkipTo, FindKey;
  }

  lemma TakenKeys(c: ReceiverChain, e: Epoch, counter: u32)
    requires Tracks(c.window, SESSION, e.chain, e.m, e.steps) && WindowOk(e) && Take(c.window, counter).Ok?
    ensures Take(c.window, counter).value.1.material.SessionKeys?
  {
    hide Take;
    var t, m', steps' := TakeTracks(c.window, SESSION, e.chain, e.m, e.steps, e.taken, counter);
  }

  /** What is left of decryption once a chain is found. */
  lemma AnswerFound(s: State, m: Message, ours: KeyPair, found: State, i: nat)
    requires s.senderChain.Some? && s.version == m.content.version && s.remoteIdentity.Some? && s.localIdentity.Some?
    requires GetOrCreateChain(s, m.content.ratchetKey, ours) == Ok((found, i)) && i < |found.receiverChains|
    requires
      var taken := Take(found.receiverChains[i].window, m.content.counter);
      taken.Ok? ==>
        && taken.value.1.material.SessionKeys?
        && (m.tag.Mac? && m.tag.macKey == taken.value.1.material.macKey && m.tag.content == m.content ==>
              DecryptBody(m.content.version, taken.value.1, m.content.body).Ok?)
    ensures
      var result := DecryptFromState(s, m, ours);
      result.Err? ==> result.error in {InvalidMessage, DuplicateMessage}
  {
    TakeRefuses(found.receiverChains[i].window, m.content.counter);
    hide Take, GetOrCreateChain, DecryptBody;
  }

  lemma OpensBody(key: MessageKey, x: Transfer, m: Message)
    requires key.material.SessionKeys? && x.message == m && m.content.version == CURRENT_VERSION
    requires m.content.body == EncryptBody(CURRENT_VERSION, key, x.plaintext)
    ensures DecryptBody(m.content.version, key, m.content.body).Ok?
  {
  }

  lemma AnswerOnExisting(w: World, h: History, p: Party, m: Message, i: nat)
    requires Inv(w, h) && PossibleMessage(w, m) && m.content.version == CURRENT_VERSION
    requires i < |w.At(p).record.state.value.receiverChains|
    ensures
      var taken := Take(w.At(p).record.state.value.receiverChains[i].window, m.content.counter);
      taken.Ok? ==>
        && taken.value.1.material.SessionKeys?
        && (m.tag.Mac? && m.tag.macKey == taken.value.1.material.macKey && m.tag.content == m.content ==>
              DecryptBody(m.content.version, taken.value.1, m.content.body).Ok?)
  {
    hide Take, DecryptBody, EncryptBody, SentAt;
    var e := ChainAt(w, h, p, i);
    var chain := w.At(p).record.state.value.receiverChains[i];
    var taken := Take(chain.window, m.content.counter);
    hide Inv, WindowOk, Tracks;
    if taken.Ok? {
      var (window, key) := taken.value;
      TakenKeys(chain, h.epochs[e], m.content.counter);
      if m.tag.Mac? && m.tag.macKey == key.material.macKey && m.tag.content == m.content {
        var x, t, m', steps' := ExistingChainOrigin(w, h, p, m, i, window, key);
        SentBody(h, x, Peer(p), ChainEpoch(h.Pos(p), i), t);
        OpensBody(key, x, m);
      }
    }
  }

  lemma ChainAt(w: World, h: History, p: Party, i: nat) returns (e: nat)
    requires Inv(w, h) && i < |w.At(p).record.state.value.receiverChains|
    ensures Shape(h) && i < ChainCount(h.Pos(p)) && e == ChainEpoch(h.Pos(p), i) && e < |h.epochs|
    ensures
      var c := w.At(p).record.state.value.receiverChains[i];
      Tracks(c.window, SESSION, h.epochs[e].chain, h.epochs[e].m, h.epochs[e].steps) && WindowOk(h.epochs[e])
  {
    hide SentOk, AcceptedOk, TakenLogged, Tracks, Linked, KeysFresh, Unread, Covers, Spent;
    Disassemble(w, h, p);
    e := ChainEpoch(h.Pos(p), i);
    var s := w.At(p).record.state.value;
    assert ReceiverOk(h.epochs[e], s.receiverChains[i]) && WindowOk(h.epochs[e]);
  }

  lemma AnswerOnNew(w: World, h: History, p: Party, m: Message)
    requires Inv(w, h) && PossibleMessage(w, m) && m.content.version == CURRENT_VERSION
    ensures h.Pos(p) < |h.epochs|
    ensures
      var ep := h.epochs[h.Pos(p)];
      var window := Window(ChainKeyAt(SESSION, ChainTerm(ep.root, ep.key, m.content.ratchetKey), 0), []);
      var taken := Take(window, m.content.counter);
      taken.Ok? ==>
        && taken.value.1.material.SessionKeys?
        && (m.tag.Mac? && m.tag.macKey == taken.value.1.material.macKey && m.tag.content == m.content ==>
              DecryptBody(m.content.version, taken.value.1, m.content.body).Ok?)
  {
    hide Take, DecryptBody, EncryptBody, SentAt, ChainTerm;
    Shaped(w, h);
    hide Inv;
    StartTracks(h, p, m.content.ratchetKey);
    var ep := h.epochs[h.Pos(p)];
    var base := ChainTerm(ep.root, ep.key, m.content.ratchetKey);
    var start := Window(ChainKeyAt(SESSION, base, 0), []);
    var taken := Take(start, m.content.counter);
    if taken.Ok? {
      var (window, key) := taken.value;
      var t0, m0, steps0 := TakeTracks(start, SESSION, base, 0, [], {}, m.content.counter);
      if m.tag.Mac? && m.tag.macKey == key.material.macKey && m.tag.content == m.content {
        var x, t, m', steps' := NewChainOrigin(w, h, p, m, window, key);
        SentBody(h, x, Peer(p), h.Pos(p) + 1, t);
        OpensBody(key, x, m);
      }
    }
  }

  /** Whatever the network delivers, a message that is not accepted is answered as invalid or as a duplicate. */
  lemma AnyAnswer(w: World, h: History, p: Party, m: Message)
    requires Inv(w, h) && PossibleMessage(w, m)
    ensures RecordWellTyped(w.At(p).record)
    ensures
      var result := DecryptFromRecord(w.At(p).record, m, w.nextKey);
      result.Err? ==> result.error in {InvalidMessage, DuplicateMessage}
  {
    hide DecryptFromState, DecryptFromRecord, SentOk, AcceptedOk, TakenLogged, EpochsOk, SessionOk;
    Disassemble(w, h, p);
    DecryptsCurrent(h, p, w.At(p).record, m, w.nextKey);
    hide NodeOk, Inv;
    AnyStateAnswer(w, h, p, m);
  }

  lemma AnyStateAnswer(w: World, h: History, p: Party, m: Message)
    requires Inv(w, h) && PossibleMessage(w, m) && w.At(p).record.state.Some?
    ensures
      var result := DecryptFromState(w.At(p).record.state.value, m, GeneratePair(w.nextKey));
      result.Err? ==> result.error in {InvalidMessage, DuplicateMessage}
  {
    hide Inv, DecryptFromState, SenderOk, Take, DecryptBody, Linked, Unread, GetOrCreateChain, AddReceiverChain;
    hide ChainTerm;
    Shaped(w, h);
    NewFacts(w, h, p, h.Pos(p));
    var s, ours := w.At(p).record.state.value, GeneratePair(w.nextKey);
    var i := FindChain(s.receiverChains, m.content.ratchetKey);
    if m.content.version != s.version {
      WrongVersion(s, m, ours);
    } else if i < |s.receiverChains| {
      AnswerOnExisting(w, h, p, m, i);
      ChainThere(s, m.content.ratchetKey, ours);
      AnswerFound(s, m, ours, s, i);
    } else {
      var ep := h.epochs[h.Pos(p)];
      NewChainState(ep, s, m.content.ratchetKey, ours);
      AddedLast(s.receiverChains, m.content.ratchetKey,
        ChainKeyAt(SESSION, ChainTerm(ep.root, ep.key, m.content.ratchetKey), 0));
      AnswerOnNew(w, h, p, m);
      var (found, j) := GetOrCreateChain(s, m.content.ratchetKey, ours).value;
      AnswerFound(s, m, ours, found, j);
    }
  }

  lemma ChainThere(s: State, theirs: PublicKey, ours: KeyPair)
    requires FindChain(s.receiverChains, theirs) < |s.receiverChains|
    ensures GetOrCreateChain(s, theirs, ours) == Ok((s, FindChain(s.receiverChains, theirs)))
  {
  }

  lemma WrongVersion(s: State, m: Message, ours: KeyPair)
    requires m.content.version != s.version
    ensures DecryptFromState(s, m, ours) == Err(InvalidMessage)
  {
  }

  /**
   * A message that has been accepted, delivered again while its chain is held,
   * is answered as a duplicate and changes nothing.
   */
  lemma RedeliveredIsDuplicate(w: World, h: History, p: Party, x: Transfer, e: nat, t: nat)
    requires Inv(w, h) && NoWrap(h) && SentAt(h, x, Peer(p), e, t) && Held(h, p, e) && x in w.At(p).accepted
    ensures RecordWellTyped(w.At(p).record)
    ensures DecryptFromRecord(w.At(p).record, x.message, w.nextKey) == Err(DuplicateMessage)
    ensures ReceiveStep(w, p, x.message, true).At(p) == w.At(p)
  {
    hide DecryptFromRecord, Held;
    DeliverExact(w, h, p, x, e, t);
    AcceptedIsSpent(w, h, p, x, e, t);
    hide Inv, SentAt;
  }

  lemma AcceptedIsSpent(w: World, h: History, p: Party, x: Transfer, e: nat, t: nat)
    requires Inv(w, h) && SentAt(h, x, Peer(p), e, t) && x in w.At(p).accepted
    ensures t < h.epochs[e].m && t !in h.epochs[e].steps
  {
    hide SessionOk, SentOk, TakenLogged, KeysFresh, Identified;
    Disassemble(w, h, p);
    var accepted := w.At(p).accepted;
    var i :| 0 <= i < |accepted| && accepted[i] == x;
    assert WasTaken(h, accepted[i], p);
    var e': nat, t': nat :| TakenAt(h, x, p, e', t');
    SentFacts(h, x, Peer(p), e, t);
    hide SentAt, Linked, MacKeyAt;
    MacKeyUnique(h.epochs, e, t, e', t');
    assert WindowOk(h.epochs[e]);
  }

  /**
   * The same over every run of fewer than 2^32 events: as long as the record
   * has a receiving chain for its ratchet key, a message in the log of accepted
   * ones is a duplicate.
   */
  lemma RunRedelivery(w: World, k0: nat, k1: nat, events: seq<Event>, p: Party, x: Transfer)
    requires Initial(w, k0, k1) && IsRun(w, events) && |events| < U32_LIMIT
    requires
      var end := Final(w, events);
      && x in end.At(p).accepted
      && (end.At(p).record.state.Some? ==>
            exists c | c in end.At(p).record.state.value.receiverChains :: c.ratchetKey == x.message.content.ratchetKey)
    ensures
      var end := Final(w, events);
      && RecordWellTyped(end.At(p).record)
      && DecryptFromRecord(end.At(p).record, x.message, end.nextKey) == Err(DuplicateMessage)
  {
    hide Initial, IsRun, Final, DecryptFromRecord, Inv, NoWrap, Grows, SendsAtMost, RecordWellTyped, ReceiveStep;
    var h := RunHistory(w, k0, k1, events);
    var end := Final(w, events);
    var e, t := AcceptedOrigin(end, h, p, x);
    RedeliveredIsDuplicate(end, h, p, x, e, t);
  }

  /** A run of fewer than 2^32 events wraps no counter. */
  lemma RunHistory(w: World, k0: nat, k1: nat, events: seq<Event>) returns (h: History)
    requires Initial(w, k0, k1) && IsRun(w, events) && |events| < U32_LIMIT
    ensures Inv(Final(w, events), h) && NoWrap(h)
  {
    hide Initial, IsRun, Final, Inv, Grows;
    h := InitialInv(w, k0, k1);
    h := RunKeepsInv(w, h, events);
  }

  lemma AcceptedOrigin(w: World, h: History, p: Party, x: Transfer) returns (e: nat, t: nat)
    requires Inv(w, h) && x in w.At(p).accepted
    requires w.At(p).record.state.Some? ==>
               exists c | c in w.At(p).record.state.value.receiverChains :: c.ratchetKey == x.message.content.ratchetKey
    ensures SentAt(h, x, Peer(p), e, t) && Held(h, p, e)
  {
    hide TakenLogged, EpochsOk, SentAt, SessionOk;
    Disassemble(w, h, p);
    assert x in w.At(Peer(p)).sent;
    var i :| 0 <= i < |w.At(Peer(p)).sent| && w.At(Peer(p)).sent[i] == x;
    assert WasSent(h, x, Peer(p));
    e, t :| SentAt(h, x, Peer(p), e, t);
    SentFacts(h, x, Peer(p), e, t);
    HeldChainFound(h, p, w.At(p).record.state.value, w.nextKey, e);
    hide NodeOk, SentOk, AcceptedOk;
  }

  /**
   * No loss inside the window: a message not accepted yet, on a chain still
   * held, at most 2000 steps behind or ahead of that chain, is accepted now.
   */
  lemma NoLossInWindow(w: World, h: History, p: Party, x: Transfer, e: nat, t: nat)
    requires Inv(w, h) && NoWrap(h) && SentAt(h, x, Peer(p), e, t) && Held(h, p, e)
    requires x in w.At(Peer(p)).sent && x !in w.At(p).accepted
    requires h.epochs[e].m - MAX_MESSAGE_KEYS <= t <= h.epochs[e].m + MAX_AHEAD
    ensures ReceiveStep(w, p, x.message, true).At(p).accepted == w.At(p).accepted + [x]
  {
    hide ReceiveStep, SessionOk, Linked, KeysFresh, Identified;
    DeliverExact(w, h, p, x, e, t);
    Disassemble(w, h, p);
    var accepted := w.At(p).accepted;
    if t in h.epochs[e].taken {
      assert Logged(h.epochs[e], t, accepted);
      var i :| 0 <= i < |accepted| && accepted[i].message.tag.Mac? &&
        accepted[i].message.tag.macKey == MacKeyAt(h.epochs[e], t);
      SameKeySameTransfer(w.At(Peer(p)).sent, accepted[i], x);
      assert false;
    }
    assert WindowOk(h.epochs[e]);
  }

  lemma SameKeySameTransfer(sent: seq<Transfer>, x: Transfer, y: Transfer)
    requires DistinctKeys(sent) && x in sent && y in sent
    requires x.message.tag.Mac? && y.message.tag.Mac? && x.message.tag.macKey == y.message.tag.macKey
    ensures x == y
  {
  }
}
