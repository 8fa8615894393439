/** The guarantees of sender keys over every run. */
module GroupTheorems {
  import opened Common
  import opened Terms
  import opened KeyWindow
  import opened Group
  import opened GroupRuns

  lemma InitialInv()
    ensures Inv(INITIAL, History([], []))
  {
  }

  /**
   * Agreement and at-most-once: whatever a receiver accepts is a message of the
   * sender with exactly the sender's plaintext, and a message accepted again was
   * accepted by a strictly newer installation for its key id.
   */
  lemma GroupAgreement(events: seq<Event>) returns (h: History)
    requires IsRun(INITIAL, events)
    ensures Inv(Final(INITIAL, events), h)
    ensures
      var end := Final(INITIAL, events);
      && (forall k :: 0 <= k < |end.accepted| ==> end.accepted[k].transfer in end.sent)
      && (forall k, l ::
            0 <= k < l < |end.accepted| && end.accepted[k].transfer.message == end.accepted[l].transfer.message ==>
            end.accepted[k].install < end.accepted[l].install)
  {
    InitialInv();
    h := RunKeepsInv(INITIAL, History([], []), events);
  }

  /** Before its counter wraps, a session never emits one iteration twice. */
  lemma IterationsUnique(w: World, h: History, i: nat, j: nat, g: nat, t: nat, t': nat)
    requires Inv(w, h) && i < j < |w.sent|
    requires SentAt(h.sessions, w.sent[i], g, t) && SentAt(h.sessions, w.sent[j], g, t')
    requires h.sessions[g].count <= U32_LIMIT
    ensures w.sent[i].message.content.iteration != w.sent[j].message.content.iteration
  {
    assert t != t';
  }

  ghost predicate InWindow(n: Instance, t: nat) {
    t in n.steps || n.m <= t <= n.m + MAX_AHEAD
  }

  ghost predicate NoWrap(h: History) {
    forall g :: 0 <= g < |h.sessions| ==> h.sessions[g].count < U32_LIMIT
  }

  lemma OpensExactly(w: World, h: History, x: Transfer, g: nat, t: nat)
    requires Inv(w, h) && NoWrap(h) && SentAt(h.sessions, x, g, t)
    ensures
      var i := FindState(w.receiver, x.message.content.keyId);
      var result := GroupDecrypt(w.receiver, x.message);
      && (result.Ok? <==> i < |w.receiver| && h.instances[i].session == g && InWindow(h.instances[i], t))
      && (result.Ok? ==> result.value.1 == x.plaintext)
      && (result.Err? ==> result == Err(
            if w.receiver == [] then NoSession
            else if i < |w.receiver| && h.instances[i].session == g && t < h.instances[i].m then DuplicateMessage
            else InvalidMessage))
  {
    hide LogOk, SpentLogged, Take, SenderOk, WasIssued, WasSent;
    var i := FindState(w.receiver, x.message.content.keyId);
    if i < |w.receiver| {
      var n := h.instances[i];
      assert InstanceOk(h.sessions, n, w.receiver[i]);
      assert h.sessions[n.session].count < U32_LIMIT && h.sessions[g].count < U32_LIMIT;
      if n.session == g {
        TakeExact(w.receiver[i].window, GroupProfile, Base(h.sessions[g]), n.m, n.steps, t);
      }
    }
  }

  /**
   * Before a counter wraps, a message is accepted exactly when the newest state
   * for its key id is of the message's session and the step is cached or at most
   * 2000 ahead.
   */
  lemma GroupDeliverExact(w: World, h: History, x: Transfer, g: nat, t: nat)
    requires Inv(w, h) && NoWrap(h) && SentAt(h.sessions, x, g, t)
    ensures
      var i := FindState(w.receiver, x.message.content.keyId);
      ReceiveStep(w, x.message).accepted ==
        if i < |w.receiver| && h.instances[i].session == g && InWindow(h.instances[i], t)
        then w.accepted + [Acceptance(x, w.ids[i])] else w.accepted
  {
    OpensExactly(w, h, x, g, t);
    hide GroupDecrypt, LogOk, SpentLogged, InstanceOk, WasSent, WasIssued, SenderOk, InWindow;
  }

  /**
   * A message that the newest state for its key id has accepted, delivered
   * again, is answered as a duplicate and changes nothing.
   */
  lemma GroupRedelivered(w: World, h: History, x: Transfer, g: nat, t: nat)
    requires Inv(w, h) && NoWrap(h) && SentAt(h.sessions, x, g, t)
    requires
      var i := FindState(w.receiver, x.message.content.keyId);
      i < |w.ids| && Acceptance(x, w.ids[i]) in w.accepted
    ensures GroupDecrypt(w.receiver, x.message) == Err(DuplicateMessage)
    ensures ReceiveStep(w, x.message) == w
  {
    hide GroupDecrypt;
    OpensExactly(w, h, x, g, t);
    var i := FindState(w.receiver, x.message.content.keyId);
    AcceptedIsSpent(w, h, x, g, t, i);
    hide Inv;
  }

  lemma AcceptedIsSpent(w: World, h: History, x: Transfer, g: nat, t: nat, i: nat)
    requires Inv(w, h) && SentAt(h.sessions, x, g, t) && i < |w.ids| && Acceptance(x, w.ids[i]) in w.accepted
    ensures w.receiver != [] && i < |h.instances| && h.instances[i].session == g
    ensures t < h.instances[i].m && t !in h.instances[i].steps
  {
    hide SpentLogged, SenderOk, WasIssued, WasSent;
    var n, a := h.instances[i], Acceptance(x, w.ids[i]);
    var k :| 0 <= k < |w.accepted| && w.accepted[k] == a;
    assert MarkedIn(h.sessions, n, w.accepted[k]);
    var t': nat :| t' in n.taken && OpenedAt(h.sessions[n.session], a, t');
    CipherKeyUnique(h.sessions, w.nextKey, n.session, t', g, t);
    assert InstanceOk(h.sessions, n, w.receiver[i]);
  }

  /**
   * No loss inside the window: a message from the installed step on, not yet
   * accepted by the newest state for its key id, and at most 2000 steps behind
   * or ahead of it, is accepted.
   */
  lemma GroupNoLoss(w: World, h: History, x: Transfer, g: nat, t: nat)
    requires Inv(w, h) && NoWrap(h) && SentAt(h.sessions, x, g, t) && x in w.sent
    requires
      var i := FindState(w.receiver, x.message.content.keyId);
      && i < |w.receiver| && h.instances[i].session == g
      && h.instances[i].start <= t
      && h.instances[i].m - MAX_MESSAGE_KEYS <= t <= h.instances[i].m + MAX_AHEAD
      && Acceptance(x, w.ids[i]) !in w.accepted
    ensures
      var i := FindState(w.receiver, x.message.content.keyId);
      ReceiveStep(w, x.message).accepted == w.accepted + [Acceptance(x, w.ids[i])]
  {
    hide ReceiveStep;
    GroupDeliverExact(w, h, x, g, t);
    var i := FindState(w.receiver, x.message.content.keyId);
    var n := h.instances[i];
    assert InstanceOk(h.sessions, n, w.receiver[i]);
    if t in n.taken {
      assert LoggedFor(h.sessions, n, w.ids[i], t, w.accepted);
      var k :| 0 <= k < |w.accepted| && w.accepted[k].install == w.ids[i] && OpenedAt(h.sessions[g], w.accepted[k], t);
      SameKeySameTransfer(w.sent, w.accepted[k].transfer, x);
      assert false;
    }
  }

  lemma SameKeySameTransfer(sent: seq<Transfer>, x: Transfer, y: Transfer)
    requires DistinctKeys(sent) && x in sent && y in sent
    requires x.message.content.body.GroupEncrypted? && y.message.content.body.GroupEncrypted?
    requires x.message.content.body.key == y.message.content.body.key
    ensures x == y
  {
  }

  /**
   * Installing a distribution again reopens its window: right after it, a
   * message of that session is accepted exactly when its step lies in the 2001
   * steps from the distribution on, whether or not it was accepted before.
   */
  lemma ReinstallReopens(w: World, h: History, index: nat, x: Transfer, g: nat, t: nat) returns (k: nat)
    requires Inv(w, h) && NoWrap(h) && index < |w.issued| && SentAt(h.sessions, x, g, t)
    requires w.issued[index].keyId == x.message.content.keyId &&
             w.issued[index].signingPublic == PublicKey(h.sessions[g].key)
    ensures IssuedAt(h.sessions, w.issued[index], g, k)
    ensures
      var again := InstallStep(w, w.issued[index]);
      ReceiveStep(again, x.message).accepted ==
        if k <= t <= k + MAX_AHEAD then w.accepted + [Acceptance(x, w.installs)] else w.accepted
  {
    hide ReceiveStep;
    var again := InstallStep(w, w.issued[index]);
    var h' := InstallKeepsInv(w, h, index);
    k := h'.instances[0].start;
    InstallFinds(w.receiver, w.issued[index], x.message.content.keyId);
    GroupDeliverExact(again, h', x, g, t);
  }

  lemma RunFront(w: World, e: Event, rest: seq<Event>)
    requires Possible(w, e) && IsRun(Step(w, e), rest)
    ensures IsRun(w, [e] + rest) && Final(w, [e] + rest) == Final(Step(w, e), rest)
  {
  }

  /** A distribution of a session that has sent nothing opens its first message. */
  lemma FirstMessageOpens(w: World, s: Session, x: Transfer)
    requires x.message.content == GroupContent(s.keyId, 0, Seal(KeyOf(s, 0), x.plaintext))
    requires x.message.signature == Signature(PrivateKey(s.key), x.message.content)
    ensures
      var again := InstallStep(w, Distribution(s.keyId, 0, Base(s), PublicKey(s.key)));
      ReceiveStep(again, x.message).accepted == w.accepted + [Acceptance(x, w.installs)]
  {
  }

  /** So at-most-once does fail across installations: one message, one distribution, accepted twice. */
  lemma AcceptedTwice(keyId: u32, plaintext: Plaintext) returns (events: seq<Event>)
    ensures IsRun(INITIAL, events)
    ensures
      var log := Final(INITIAL, events).accepted;
      |log| == 2 && log[0].transfer == log[1].transfer
  {
    var s := Session(keyId, 0, 0);
    var w1 := Step(INITIAL, Create(keyId, true));
    var w2 := Step(w1, Announce);
    var w3 := Step(w2, Send(plaintext, true));
    var x := w3.sent[0];
    var m := x.message;
    assert w3.issued[0] == Distribution(s.keyId, 0, Base(s), PublicKey(s.key));
    FirstMessageOpens(w3, s, x);
    hide ReceiveStep, GroupEncrypt, Distribute;
    var w4 := Step(w3, InstallIssued(0, true));
    var w5 := ReceiveStep(w4, m);
    ReceiveLeavesSender(w4, m);
    FirstMessageOpens(w5, s, x);
    var w6 := Step(w5, InstallIssued(0, true));
    assert w4.sent[0] == w6.sent[0] == x;
    hide InstallStep;
    events := [Receive(m, true, true)];
    RunFront(w6, Receive(m, true, true), []);
    RunFront(w5, InstallIssued(0, true), events);
    events := [InstallIssued(0, true)] + events;
    RunFront(w4, Receive(m, true, true), events);
    events := [Receive(m, true, true)] + events;
    RunFront(w3, InstallIssued(0, true), events);
    events := [InstallIssued(0, true)] + events;
    RunFront(w2, Send(plaintext, true), events);
    events := [Send(plaintext, true)] + events;
    RunFront(w1, Announce, events);
    events := [Announce] + events;
    RunFront(INITIAL, Create(keyId, true), events);
    events := [Create(keyId, true)] + events;
  }

  lemma ReceiveLeavesSender(w: World, m: SenderKeyMessage)
    ensures ReceiveStep(w, m).sent == w.sent && ReceiveStep(w, m).issued == w.issued
  {
  }

  /** A body opens with the IV and the cipher key it was made with, and no others. */
  lemma SealedOpensExactly(key: MessageKey, key': MessageKey, plaintext: Plaintext)
    requires key.material.GroupKeys? && key'.material.GroupKeys?
    ensures Unseal(key', Seal(key, plaintext)) ==
            if key.material.groupIv == key'.material.groupIv &&
              key.material.groupCipherKey == key'.material.groupCipherKey
            then Ok(plaintext) else Err(Unknown)
  {
  }

  /** Whatever the network delivers is accepted, or answered as invalid, as a duplicate, or as without a session. */
  lemma GroupAnyAnswer(w: World, h: History, m: SenderKeyMessage)
    requires Inv(w, h) && NoWrap(h) && (m.signature.Forgery? || OnWire(w, m.signature))
    ensures
      var result := GroupDecrypt(w.receiver, m);
      result.Err? ==> result.error in {NoSession, InvalidMessage, DuplicateMessage}
  {
    var i := FindState(w.receiver, m.content.keyId);
    if i < |w.receiver| && Verifies(m, w.receiver[i].signingPublic) {
      var x, g, t := SignatureOrigin(w, h, m);
      OpensExactly(w, h, x, g, t);
    }
  }

  /** After any run the receiver cannot send with what it was given, and a sender without a session cannot either. */
  lemma OnlyOwnerSends(w: World, h: History, plaintext: Plaintext)
    requires Inv(w, h)
    ensures GroupEncrypt(w.receiver, plaintext) == Err(NoSession)
    ensures w.sender == [] ==>
              GroupEncrypt(w.sender, plaintext) == Err(NoSession) && Distribute(w.sender) == Err(InvalidKeyId)
    ensures w.sender != [] ==> GroupEncrypt(w.sender, plaintext).Ok?
  {
    hide LogOk, SpentLogged, WasIssued, WasSent;
    if w.receiver != [] {
      assert InstanceOk(h.sessions, h.instances[0], w.receiver[0]);
    }
  }

  /** The receiver's record holds one state for each of the newest five installations, newest first. */
  predicate NewestFive(w: World) {
    && |w.receiver| == |w.ids| == (if w.installs < 5 then w.installs else 5)
    && forall i :: 0 <= i < |w.ids| ==> w.ids[i] == w.installs - 1 - i
  }

  lemma {:induction false} NewestFiveHeld(w: World, events: seq<Event>)
    requires IsRun(w, events) && NewestFive(w)
    ensures NewestFive(Final(w, events))
    decreases |events|
  {
    if events != [] {
      NewestFiveHeld(Step(w, events[0]), events[1..]);
    }
  }
}
