/** Every step keeps the ratchet invariant; what that means for whole runs. */
module RatchetRuns {
  import opened Common
  import opened Terms
  import opened KeyWindow
  import opened Session
  import opened Ratchet
  import opened SessionCipher
  import opened RatchetWorld
  import opened RatchetHistory

  lemma ChainPosition(s: State, theirs: PublicKey, ours: KeyPair)
    requires GetOrCreateChain(s, theirs, ours).Ok?
    ensures
      var (found, i) := GetOrCreateChain(s, theirs, ours).value;
      i < |found.receiverChains|
  {
  }

  /** The parts of a successful decryption. */
  lemma DecryptOpens(s: State, m: Message, ours: KeyPair)
    returns (found: State, i: nat, window: Window, key: MessageKey)
    requires DecryptFromState(s, m, ours).Ok?
    ensures s.senderChain.Some? && m.content.version == s.version
    ensures s.remoteIdentity.Some? && s.localIdentity.Some?
    ensures GetOrCreateChain(s, m.content.ratchetKey, ours) == Ok((found, i)) && i < |found.receiverChains|
    ensures Take(found.receiverChains[i].window, m.content.counter) == Ok((window, key))
    ensures key.material.SessionKeys?
    ensures m.tag == MacOf(key.material.macKey, s.remoteIdentity.value, s.localIdentity.value, m.content)
    ensures DecryptBody(m.content.version, key, m.content.body).Ok?
    ensures DecryptFromState(s, m, ours).value ==
            (found.(receiverChains := found.receiverChains[i := found.receiverChains[i].(window := window)],
                    pendingPreKey := None),
             DecryptBody(m.content.version, key, m.content.body).value)
  {
    hide Take, GetOrCreateChain, MacOf, DecryptBody;
    var r := GetOrCreateChain(s, m.content.ratchetKey, ours);
    found, i := r.value.0, r.value.1;
    assert i < |found.receiverChains| by { ChainPosition(s, m.content.ratchetKey, ours); }
    var taken := Take(found.receiverChains[i].window, m.content.counter);
    window, key := taken.value.0, taken.value.1;
  }

  /** Reachable sessions are copied faithfully. */
  lemma SessionCopies(h: History, p: Party, s: State)
    requires Shape(h) && SessionOk(h, p, s)
    ensures WellTyped(s) && Canonical(s) && Copy(s) == Ok(s)
  {
    forall c | c in s.receiverChains
      ensures ChainWellTyped(c) && CanonicalChainKey(s, c.window.chain)
    {
      var j :| 0 <= j < |s.receiverChains| && s.receiverChains[j] == c;
      var e := h.epochs[ChainEpoch(h.Pos(p), j)];
      assert ReceiverOk(e, c);
      forall k | k in c.window.skipped
        ensures k.material.SessionKeys?
      {
        var n :| 0 <= n < |c.window.skipped| && c.window.skipped[n] == k;
        assert k == KeyAt(SESSION, e.chain, e.steps[n]);
      }
    }
    CopyIsIdentity(s);
  }

  lemma SentFacts(h: History, x: Transfer, p: Party, e: nat, t: nat)
    requires SentAt(h, x, p, e, t)
    ensures e < |h.epochs| && Owner(e) == p && t < h.epochs[e].sends
    ensures x.message.content.ratchetKey == PublicKey(h.epochs[e].key) && x.message.content.counter == ToU32(t)
    ensures x.message.tag.Mac? && x.message.tag.macKey == MacKeyAt(h.epochs[e], t)
  {
  }

  /** A verified tag was made by the owner of the epoch, over exactly this content. */
  lemma TagOrigin(w: World, h: History, m: Message) returns (q: Party, x: Transfer, e: nat, t: nat)
    requires Inv(w, h) && TagOnWire(w, m.tag)
    requires m.tag.Mac? && m.tag.content == m.content
    ensures x in w.At(q).sent && x.message == m && SentAt(h, x, q, e, t)
  {
    var p: Party, i: nat :| i < |w.At(p).sent| && w.At(p).sent[i].message.tag == m.tag;
    q, x := p, w.At(p).sent[i];
    assert WasSent(h, x, q);
    e, t :| SentAt(h, x, q, e, t);
  }

  lemma FreshTransfer(h: History, p: Party, accepted: seq<Transfer>, peerSent: seq<Transfer>, x: Transfer, e: nat,
                      t: nat)
    requires Linked(h.epochs) && AcceptedOk(h, p, accepted, peerSent)
    requires e < |h.epochs| && t !in h.epochs[e].taken
    requires x.message.tag.Mac? && x.message.tag.macKey == MacKeyAt(h.epochs[e], t)
    ensures forall i :: 0 <= i < |accepted| ==> accepted[i].message != x.message
  {
    forall i | 0 <= i < |accepted|
      ensures accepted[i].message != x.message
    {
      assert WasTaken(h, accepted[i], p);
      var e': nat, t': nat :| TakenAt(h, accepted[i], p, e', t');
      if accepted[i].message == x.message {
        MacKeyUnique(h.epochs, e, t, e', t');
      }
    }
  }

  lemma AcceptedExtends(h: History, h': History, p: Party, accepted: seq<Transfer>, peerSent: seq<Transfer>,
                        x: Transfer, e: nat, t: nat)
    requires Linked(h.epochs) && AcceptedOk(h, p, accepted, peerSent) && Grows(h, h')
    requires e < |h.epochs| && Owner(e) == Peer(p) && t !in h.epochs[e].taken && t in h'.epochs[e].taken
    requires SentAt(h, x, Peer(p), e, t) && x in peerSent
    ensures AcceptedOk(h', p, accepted + [x], peerSent)
  {
    FreshTransfer(h, p, accepted, peerSent, x, e, t);
    AcceptedGrows(h, h', p, accepted, peerSent, peerSent);
    assert TakenAt(h', x, p, e, t);
    assert WasTaken(h', x, p);
  }

  /** One step of epoch `e` was spent on `x`; nothing else was. */
  lemma LoggedExtends(h: History, h': History, p: Party, accepted: seq<Transfer>, x: Transfer, e: nat, t: nat)
    requires TakenLogged(h, p, accepted) && Grows(h, h') && e < |h.epochs|
    requires forall i :: 0 <= i < |h.epochs| && i != e ==> h'.epochs[i].taken == h.epochs[i].taken
    requires forall i :: |h.epochs| <= i < |h'.epochs| ==> h'.epochs[i].taken == {}
    requires h'.epochs[e].taken == h.epochs[e].taken + {t}
    requires x.message.tag.Mac? && x.message.tag.macKey == MacKeyAt(h.epochs[e], t)
    ensures TakenLogged(h', p, accepted + [x])
  {
    hide MacKeyAt;
    var all := accepted + [x];
    forall e': nat, t': nat | e' < |h'.epochs| && Owner(e') == Peer(p) && t' in h'.epochs[e'].taken
      ensures Logged(h'.epochs[e'], t', all)
    {
      assert e' < |h.epochs|;
      SameMacKey(h.epochs[e'], h'.epochs[e'], t');
      if e' == e && t' == t {
        assert all[|accepted|] == x;
      } else {
        assert Logged(h.epochs[e'], t', accepted);
        var i :| 0 <= i < |accepted| && accepted[i].message.tag.Mac? &&
          accepted[i].message.tag.macKey == MacKeyAt(h.epochs[e'], t');
        assert all[i] == accepted[i];
      }
    }
  }

  lemma SameMacKey(e: Epoch, e': Epoch, t: nat)
    requires e.chain == e'.chain
    ensures MacKeyAt(e, t) == MacKeyAt(e', t)
  {
  }

  lemma LoggedKeeps(h: History, h': History, q: Party, accepted: seq<Transfer>)
    requires TakenLogged(h, q, accepted) && Grows(h, h')
    requires forall i :: 0 <= i < |h'.epochs| && Owner(i) == Peer(q) ==>
               h'.epochs[i].taken == if i < |h.epochs| then h.epochs[i].taken else {}
    ensures TakenLogged(h', q, accepted)
  {
  }

  // ----- assembling the invariant

  lemma Assemble(w: World, h: History, p: Party)
    requires EpochsOk(h, w.nextKey)
    requires NodeOk(h, p, w.At(p), w.At(Peer(p))) && NodeOk(h, Peer(p), w.At(Peer(p)), w.At(p))
    ensures Inv(w, h)
  {
  }

  lemma Disassemble(w: World, h: History, p: Party)
    requires Inv(w, h)
    ensures EpochsOk(h, w.nextKey) && Shape(h) && Linked(h.epochs)
    ensures NodeOk(h, p, w.At(p), w.At(Peer(p))) && NodeOk(h, Peer(p), w.At(Peer(p)), w.At(p))
  {
  }

  /** The invariant after one party's node, and perhaps the history, changed. */
  lemma NodeStep(w: World, w': World, h: History, h': History, p: Party)
    requires Inv(w, h) && Grows(h, h') && EpochsOk(h', w'.nextKey)
    requires w'.At(Peer(p)) == w.At(Peer(p))
    requires OnlyCurrent(w'.At(p).record)
    requires SessionOk(h', p, w'.At(p).record.state.value)
    requires SessionOk(h', Peer(p), w.At(Peer(p)).record.state.value)
    requires Identified(h', p, w'.At(p).record.state.value)
    requires w.At(p).sent <= w'.At(p).sent && SentOk(h', p, w'.At(p).sent)
    requires AcceptedOk(h', p, w'.At(p).accepted, w.At(Peer(p)).sent)
    requires TakenLogged(h', p, w'.At(p).accepted) && TakenLogged(h', Peer(p), w.At(Peer(p)).accepted)
    ensures Inv(w', h')
  {
    hide EpochsOk, SessionOk, SentOk, AcceptedOk, TakenLogged, Dormant;
    Disassemble(w, h, p);
    SentGrows(h, h', Peer(p), w.At(Peer(p)).sent);
    AcceptedGrows(h, h', Peer(p), w.At(Peer(p)).accepted, w.At(p).sent, w'.At(p).sent);
    Assemble(w', h', p);
  }

  // ----- sending

  /** Sending advances the owner's chain by one and emits the message of that step. */
  lemma SendSession(h: History, h': History, p: Party, s: State, plaintext: Plaintext)
    requires Shape(h) && SessionOk(h, p, s) && Identified(h, p, s)
    requires
      var ep := h.epochs[h.Pos(p)];
      h' == h.(epochs := h.epochs[h.Pos(p) := ep.(sends := ep.sends + 1)])
    ensures
      var result := Encrypt(s, plaintext);
      && result.Ok?
      && SessionOk(h', p, result.value.0)
      && Identified(h', p, result.value.0)
      && SentAt(h', Transfer(result.value.1.message, plaintext), p, h.Pos(p), h.epochs[h.Pos(p)].sends)
  {
    var ep := h.epochs[h.Pos(p)];
    NextChainKeyAt(SESSION, ep.chain, ep.sends);
    assert forall j :: 0 <= j < ChainCount(h.Pos(p)) ==> ChainEpoch(h.Pos(p), j) != h.Pos(p);
  }

  lemma SendKeepsEpochs(h: History, h': History, nextKey: nat, pos: nat)
    requires EpochsOk(h, nextKey) && pos < |h.epochs| && pos == h.Pos(Owner(pos))
    requires h' == h.(epochs := h.epochs[pos := h.epochs[pos].(sends := h.epochs[pos].sends + 1)])
    ensures EpochsOk(h', nextKey) && Grows(h, h')
  {
    ReadKeepsKeys(h.epochs, pos, h'.epochs[pos], nextKey);
    SentMore(h.epochs[pos], h'.epochs[pos]);
    hide Linked, KeysFresh, WindowOk;
  }

  lemma SentMore(e: Epoch, e': Epoch)
    requires WindowOk(e) && e' == e.(sends := e.sends + 1)
    ensures WindowOk(e')
  {
  }

  lemma SendKeepsLogged(h: History, h': History, q: Party, accepted: seq<Transfer>, pos: nat)
    requires pos < |h.epochs| && TakenLogged(h, q, accepted)
    requires h' == h.(epochs := h.epochs[pos := h.epochs[pos].(sends := h.epochs[pos].sends + 1)])
    ensures TakenLogged(h', q, accepted)
  {
  }

  lemma SendKeepsPeer(h: History, h': History, q: Party, s: State, pos: nat)
    requires Shape(h) && SessionOk(h, q, s) && pos == h.Pos(Peer(q))
    requires h' == h.(epochs := h.epochs[pos := h.epochs[pos].(sends := h.epochs[pos].sends + 1)])
    ensures SessionOk(h', q, s)
  {
  }

  /** The message of a new step is authenticated with a new key. */
  lemma SentExtends(h: History, h': History, p: Party, sent: seq<Transfer>, x: Transfer, e: nat, t: nat)
    requires SentOk(h, p, sent) && Grows(h, h') && Linked(h.epochs)
    requires e < |h.epochs| && t == h.epochs[e].sends && SentAt(h', x, p, e, t)
    ensures SentOk(h', p, sent + [x])
  {
    assert WasSent(h', x, p);
    SentGrows(h, h', p, sent);
    hide Linked, MacKeyAt, Grows, WasSent;
    forall i | 0 <= i < |sent|
      ensures sent[i].message.tag.macKey != x.message.tag.macKey
    {
      SentIsOlder(h, h', p, sent[i], x, e, t);
    }
  }

  lemma SentIsOlder(h: History, h': History, p: Party, y: Transfer, x: Transfer, e: nat, t: nat)
    requires WasSent(h, y, p) && Grows(h, h') && Linked(h.epochs)
    requires e < |h.epochs| && t == h.epochs[e].sends && SentAt(h', x, p, e, t)
    ensures y.message.tag.macKey != x.message.tag.macKey
  {
    hide Linked, MacKeyAt;
    var e': nat, t': nat :| SentAt(h, y, p, e', t');
    SameMacKey(h.epochs[e], h'.epochs[e], t);
    if y.message.tag.macKey == x.message.tag.macKey {
      MacKeyUnique(h.epochs, e, t, e', t');
    }
  }

  lemma SendKeepsInv(w: World, h: History, p: Party, plaintext: Plaintext) returns (h': History)
    requires Inv(w, h)
    ensures Inv(SendStep(w, p, plaintext), h') && Grows(h, h') && SendsAtMost(h, h', 1)
    ensures
      var pos := h.Pos(p);
      && pos < |h.epochs| && h' == h.(epochs := h.epochs[pos := h.epochs[pos].(sends := h.epochs[pos].sends + 1)])
      && exists x :: SendStep(w, p, plaintext).At(p).sent == w.At(p).sent + [x]
                     && SentAt(h', x, p, pos, h.epochs[pos].sends)
  {
    hide EpochsOk, SessionOk, SentOk, AcceptedOk, TakenLogged, Encrypt, SentAt, Linked;
    var pos := h.Pos(p);
    Disassemble(w, h, p);
    h' := h.(epochs := h.epochs[pos := h.epochs[pos].(sends := h.epochs[pos].sends + 1)]);
    var node := w.At(p);
    var s := node.record.state.value;
    SendKeepsEpochs(h, h', w.nextKey, pos);
    SendKeepsPeer(h, h', Peer(p), w.At(Peer(p)).record.state.value, pos);
    SendSession(h, h', p, s, plaintext);
    var x := Transfer(Encrypt(s, plaintext).value.1.message, plaintext);
    SentExtends(h, h', p, node.sent, x, pos, h.epochs[pos].sends);
    AcceptedGrows(h, h', p, node.accepted, w.At(Peer(p)).sent, w.At(Peer(p)).sent);
    SendKeepsLogged(h, h', p, node.accepted, pos);
    SendKeepsLogged(h, h', Peer(p), w.At(Peer(p)).accepted, pos);
    NodeStep(w, SendStep(w, p, plaintext), h, h', p);
    assert SendStep(w, p, plaintext).At(p).sent == node.sent + [x];
  }

  // ----- receiving on a chain that is already there

  function Received(e: Epoch, m: nat, steps: seq<nat>, t: nat): Epoch {
    e.(m := m, steps := steps, taken := e.taken + {t})
  }

  lemma ReadKeepsSession(h: History, h': History, p: Party, s: State, i: nat, window: Window, ep': Epoch)
    requires Shape(h) && SessionOk(h, p, s) && i < |s.receiverChains|
    requires h' == h.(epochs := h.epochs[ChainEpoch(h.Pos(p), i) := ep'])
    requires ep'.key == h.epochs[ChainEpoch(h.Pos(p), i)].key
    requires Tracks(window, SESSION, ep'.chain, ep'.m, ep'.steps)
    ensures
      var s' := s.(receiverChains := s.receiverChains[i := s.receiverChains[i].(window := window)],
        pendingPreKey := None);
      SessionOk(h', p, s')
  {
  }

  lemma ReadKeepsPeerSession(h: History, h': History, p: Party, s: State, e: nat, ep': Epoch)
    requires Shape(h) && SessionOk(h, p, s) && e < |h.epochs| && Owner(e) == p
    requires h' == h.(epochs := h.epochs[e := ep'])
    requires
      var ep := h.epochs[e];
      ep'.key == ep.key && ep'.root == ep.root && ep'.chain == ep.chain && ep'.sends == ep.sends
    ensures SessionOk(h', p, s)
  {
  }

  lemma ReadKeepsEpochs(h: History, h': History, nextKey: nat, e: nat, ep': Epoch)
    requires EpochsOk(h, nextKey) && e < |h.epochs| && WindowOk(ep')
    requires e <= h.Pos(Peer(Owner(e)))
    requires h' == h.(epochs := h.epochs[e := ep'])
    requires ep'.key == h.epochs[e].key && ep'.root == h.epochs[e].root && ep'.chain == h.epochs[e].chain
    ensures EpochsOk(h', nextKey + 1)
  {
    ReadKeepsKeys(h.epochs, e, ep', nextKey);
    FreshLater(h'.epochs, nextKey);
    hide Linked, KeysFresh, WindowOk;
  }

  lemma ReadKeepsKeys(epochs: seq<Epoch>, e: nat, ep': Epoch, nextKey: nat)
    requires Linked(epochs) && KeysFresh(epochs, nextKey) && e < |epochs|
    requires ep'.key == epochs[e].key && ep'.root == epochs[e].root && ep'.chain == epochs[e].chain
    ensures Linked(epochs[e := ep']) && KeysFresh(epochs[e := ep'], nextKey)
  {
  }

  lemma FreshLater(epochs: seq<Epoch>, nextKey: nat)
    requires KeysFresh(epochs, nextKey)
    ensures KeysFresh(epochs, nextKey + 1)
  {
  }

  /** What decrypting on an existing chain tells us: an unread transfer of the peer. */
  lemma ExistingChainOrigin(w: World, h: History, p: Party, m: Message, i: nat, window: Window, key: MessageKey)
    returns (x: Transfer, t: nat, m': nat, steps': seq<nat>)
    requires Inv(w, h) && TagOnWire(w, m.tag)
    requires
      var chains := w.At(p).record.state.value.receiverChains;
      && i < |chains|
      && Take(chains[i].window, m.content.counter) == Ok((window, key))
    requires key.material.SessionKeys?
    requires m.tag.Mac? && m.tag.macKey == key.material.macKey && m.tag.content == m.content
    ensures
      var e := ChainEpoch(h.Pos(p), i);
      && x in w.At(Peer(p)).sent && x.message == m && SentAt(h, x, Peer(p), e, t)
      && t !in h.epochs[e].taken && key == KeyAt(SESSION, h.epochs[e].chain, t)
      && var ep' := Received(h.epochs[e], m', steps', t);
         WindowOk(ep') && Tracks(window, SESSION, ep'.chain, ep'.m, ep'.steps)
  {
    hide Take, SentOk, AcceptedOk, TakenLogged, KeysFresh, Covers, Spent;
    Disassemble(w, h, p);
    var s := w.At(p).record.state.value;
    var e := ChainEpoch(h.Pos(p), i);
    var ep := h.epochs[e];
    assert ReceiverOk(ep, s.receiverChains[i]);
    t, m', steps' := TakeTracks(s.receiverChains[i].window, SESSION, ep.chain, ep.m, ep.steps, ep.taken,
      m.content.counter);
    var q, e', t';
    q, x, e', t' := TagOrigin(w, h, m);
    MacKeyUnique(h.epochs, e, t, e', t');
  }

  /** The world after `p` accepted `x` into session state `s'`. */
  function Accepting(w: World, p: Party, s': State, x: Transfer): World {
    var node := w.At(p);
    w.(nextKey := w.nextKey + 1).With(p,
      node.(record := node.record.(state := Some(s')), accepted := node.accepted + [x]))
  }

  /** Exactly step `t` of epoch `e` is spent between `h` and `h'`. */
  ghost predicate SpendsOnly(h: History, h': History, e: nat, t: nat) {
    && |h.epochs| <= |h'.epochs| && e < |h.epochs|
    && t !in h.epochs[e].taken && h'.epochs[e].taken == h.epochs[e].taken + {t}
    && (forall i :: 0 <= i < |h.epochs| && i != e ==> h'.epochs[i].taken == h.epochs[i].taken)
    && (forall i :: |h.epochs| <= i < |h'.epochs| ==> h'.epochs[i].taken == {})
    && SendsAtMost(h, h', 0)
  }

  lemma SpendingLogs(h: History, h': History, p: Party, node: Node, peer: Node, x: Transfer, e: nat, t: nat)
    requires Linked(h.epochs) && Grows(h, h') && SpendsOnly(h, h', e, t)
    requires AcceptedOk(h, p, node.accepted, peer.sent) && TakenLogged(h, p, node.accepted)
    requires TakenLogged(h, Peer(p), peer.accepted)
    requires SentAt(h, x, Peer(p), e, t) && x in peer.sent
    ensures AcceptedOk(h', p, node.accepted + [x], peer.sent)
    ensures TakenLogged(h', p, node.accepted + [x]) && TakenLogged(h', Peer(p), peer.accepted)
  {
    AcceptedExtends(h, h', p, node.accepted, peer.sent, x, e, t);
    LoggedExtends(h, h', p, node.accepted, x, e, t);
    LoggedKeeps(h, h', Peer(p), peer.accepted);
  }

  /** The invariant after `p` spent step `t` of epoch `e` on `x`. */
  lemma AcceptAssembles(w: World, h: History, h': History, p: Party, s': State, x: Transfer, e: nat, t: nat)
    requires Inv(w, h) && Grows(h, h') && EpochsOk(h', w.nextKey + 1) && SpendsOnly(h, h', e, t)
    requires SessionOk(h', p, s') && Identified(h', p, s')
    requires SessionOk(h', Peer(p), w.At(Peer(p)).record.state.value)
    requires SentAt(h, x, Peer(p), e, t) && x in w.At(Peer(p)).sent
    ensures Inv(Accepting(w, p, s', x), h')
  {
    hide EpochsOk, SessionOk, SentOk, AcceptedOk, TakenLogged, Linked, SentAt, Dormant, SpendsOnly;
    Disassemble(w, h, p);
    SentGrows(h, h', p, w.At(p).sent);
    SpendingLogs(h, h', p, w.At(p), w.At(Peer(p)), x, e, t);
    NodeStep(w, Accepting(w, p, s', x), h, h', p);
  }

  /** The session after a key was taken from its chain `i`. */
  function Reading(s: State, i: nat, window: Window): State
    requires i < |s.receiverChains|
  {
    s.(receiverChains := s.receiverChains[i := s.receiverChains[i].(window := window)], pendingPreKey := None)
  }

  /** The history after step `t` of the epoch behind chain `i` was read. */
  lemma ReadHistory(h: History, p: Party, s: State, peer: State, i: nat, window: Window, t: nat, m': nat,
                    steps': seq<nat>, nextKey: nat) returns (h': History)
    requires EpochsOk(h, nextKey) && SessionOk(h, p, s) && SessionOk(h, Peer(p), peer) && i < |s.receiverChains|
    requires
      var e := ChainEpoch(h.Pos(p), i);
      var ep' := Received(h.epochs[e], m', steps', t);
      && Owner(e) == Peer(p) && t !in h.epochs[e].taken
      && WindowOk(ep') && Tracks(window, SESSION, ep'.chain, ep'.m, ep'.steps)
    ensures EpochsOk(h', nextKey + 1) && Grows(h, h') && SpendsOnly(h, h', ChainEpoch(h.Pos(p), i), t)
    ensures SessionOk(h', p, Reading(s, i, window)) && SessionOk(h', Peer(p), peer)
    ensures h'.alicePos == h.alicePos && h'.bobPos == h.bobPos
  {
    hide WindowOk, Tracks, Linked, KeysFresh;
    var e := ChainEpoch(h.Pos(p), i);
    var ep' := Received(h.epochs[e], m', steps', t);
    h' := h.(epochs := h.epochs[e := ep']);
    ReadKeepsEpochs(h, h', nextKey, e, ep');
    ReadKeepsSession(h, h', p, s, i, window, ep');
    ReadKeepsPeerSession(h, h', Peer(p), peer, e, ep');
    hide SessionOk;
  }

  lemma ReceiveOnExisting(w: World, h: History, p: Party, m: Message, i: nat, window: Window, key: MessageKey)
    returns (h': History, x: Transfer)
    requires Inv(w, h) && TagOnWire(w, m.tag)
    requires
      var chains := w.At(p).record.state.value.receiverChains;
      && i < |chains|
      && Take(chains[i].window, m.content.counter) == Ok((window, key))
    requires key.material.SessionKeys?
    requires m.tag.Mac? && m.tag.macKey == key.material.macKey && m.tag.content == m.content
    ensures
      && Inv(Accepting(w, p, Reading(w.At(p).record.state.value, i, window), x), h')
      && Grows(h, h') && SendsAtMost(h, h', 0)
      && x in w.At(Peer(p)).sent && x.message == m
      && x.message.content.body == EncryptBody(CURRENT_VERSION, key, x.plaintext)
      && h'.alicePos == h.alicePos && h'.bobPos == h.bobPos
  {
    hide Take, EpochsOk, SentOk, AcceptedOk, TakenLogged, WindowOk, Linked, EncryptBody, Tracks, KeyAt, SentAt;
    hide SessionOk;
    Disassemble(w, h, p);
    var s, peer := w.At(p).record.state.value, w.At(Peer(p)).record.state.value;
    var t, m', steps';
    x, t, m', steps' := ExistingChainOrigin(w, h, p, m, i, window, key);
    hide NodeOk, Inv;
    var e := ChainEpoch(h.Pos(p), i);
    SentBody(h, x, Peer(p), e, t);
    h' := ReadHistory(h, p, s, peer, i, window, t, m', steps', w.nextKey);
    AcceptAssembles(w, h, h', p, Reading(s, i, window), x, e, t);
  }

  // ----- receiving on a new chain

  /** The sessions record the same ends. */
  predicate SameEnds(s: State, t: State) {
    && s.localIdentity == t.localIdentity && s.remoteIdentity == t.remoteIdentity
    && s.localRegistrationId == t.localRegistrationId && s.remoteRegistrationId == t.remoteRegistrationId
  }

  /** What a session becomes when an unknown ratchet key arrives. */
  lemma NewChainState(e: Epoch, s: State, theirs: PublicKey, ours: KeyPair)
    requires SenderOk(e, s) && FindChain(s.receiverChains, theirs) == |s.receiverChains|
    ensures
      var base := ChainTerm(e.root, e.key, theirs);
      var root := RootTerm(e.root, e.key, theirs);
      var chains := AddReceiverChain(s.receiverChains, theirs, ChainKeyAt(SESSION, base, 0));
      var result := GetOrCreateChain(s, theirs, ours);
      && result.Ok?
      && result.value.1 == |chains| - 1
      && var found := result.value.0;
         && found.receiverChains == chains
         && found.version == CURRENT_VERSION
         && found.previousCounter == (if ToU32(e.sends) == 0 then 0 else ToU32(e.sends) - 1)
         && SameEnds(found, s)
         && found.rootKey == Some(RootKey(CURRENT_VERSION,
              Hkdf(CURRENT_VERSION, Agree(theirs, ours.priv), root, WhisperRatchet, 0)))
         && found.senderChain == Some(SenderChain(Some(ours),
              Some(ChainKey(SESSION, Hkdf(CURRENT_VERSION, Agree(theirs, ours.priv), root, WhisperRatchet, 1), 0)), []))
  {
  }

  /** The history after the party at `pos` read its first message of epoch `pos + 1` and drew key `k`. */
  function Ratcheted(h: History, p: Party, ep': Epoch, k: nat): History
    requires h.Pos(p) + 1 < |h.epochs|
  {
    var e := h.Pos(p) + 1;
    var started := Epoch(k, RootTerm(ep'.root, ep'.key, PublicKey(k)), ChainTerm(ep'.root, ep'.key, PublicKey(k)), 0,
      0, [], {});
    var epochs := h.epochs[e := ep'] + [started];
    if p == Alice
    then h.(epochs := epochs, alicePos := h.alicePos + 2)
    else h.(epochs := epochs, bobPos := h.bobPos + 2)
  }

  lemma StartedLinked(epochs: seq<Epoch>, ep': Epoch, started: Epoch)
    requires Linked(epochs)
    requires
      var ep := epochs[|epochs| - 1];
      ep'.key == ep.key && ep'.root == ep.root && ep'.chain == ep.chain
    requires started.root == RootTerm(ep'.root, ep'.key, PublicKey(started.key)) &&
             started.chain == ChainTerm(ep'.root, ep'.key, PublicKey(started.key))
    ensures Linked(epochs[|epochs| - 1 := ep'] + [started])
  {
  }

  lemma StartedFresh(epochs: seq<Epoch>, ep': Epoch, started: Epoch)
    requires |epochs| > 0 && KeysFresh(epochs, started.key) && ep'.key == epochs[|epochs| - 1].key
    ensures KeysFresh(epochs[|epochs| - 1 := ep'] + [started], started.key + 1)
  {
  }

  lemma RatchetKeepsEpochs(h: History, p: Party, ep': Epoch, k: nat)
    requires EpochsOk(h, k) && h.Pos(p) + 1 < |h.epochs| && WindowOk(ep')
    requires
      var ep := h.epochs[h.Pos(p) + 1];
      && ep'.key == ep.key && ep'.root == ep.root && ep'.chain == ep.chain && ep'.sends == ep.sends
      && ep.taken <= ep'.taken
    ensures EpochsOk(Ratcheted(h, p, ep', k), k + 1) && Grows(h, Ratcheted(h, p, ep', k))
  {
    RatchetGrows(h, p, ep', k);
    RatchetedShape(h, p, ep', k);
    RatchetWindows(h, p, ep', k);
    RatchetUnread(h, p, ep', k);
    RatchetLinked(h, p, ep', k);
    hide WindowOk, Linked, KeysFresh, Grows, Shape, Ratcheted, Unread;
  }

  lemma RatchetLinked(h: History, p: Party, ep': Epoch, k: nat)
    requires Shape(h) && Linked(h.epochs) && KeysFresh(h.epochs, k) && h.Pos(p) + 1 < |h.epochs|
    requires
      var ep := h.epochs[h.Pos(p) + 1];
      ep'.key == ep.key && ep'.root == ep.root && ep'.chain == ep.chain
    ensures
      var h' := Ratcheted(h, p, ep', k);
      Linked(h'.epochs) && KeysFresh(h'.epochs, k + 1)
  {
    hide Linked, KeysFresh;
    var started := Ratcheted(h, p, ep', k).epochs[|h.epochs|];
    StartedLinked(h.epochs, ep', started);
    StartedFresh(h.epochs, ep', started);
  }

  lemma RatchetWindows(h: History, p: Party, ep': Epoch, k: nat)
    requires Shape(h) && h.Pos(p) + 1 < |h.epochs| && WindowOk(ep')
    requires forall i :: 0 <= i < |h.epochs| ==> WindowOk(h.epochs[i])
    ensures
      var h' := Ratcheted(h, p, ep', k);
      forall i :: 0 <= i < |h'.epochs| ==> WindowOk(h'.epochs[i])
  {
    hide WindowOk;
    StartedWindow(Ratcheted(h, p, ep', k).epochs[|h.epochs|]);
  }

  lemma RatchetUnread(h: History, p: Party, ep': Epoch, k: nat)
    requires Shape(h) && h.Pos(p) + 1 < |h.epochs|
    requires forall i :: 0 <= i < |h.epochs| && i > h.Pos(Peer(Owner(i))) ==> Unread(h.epochs[i])
    ensures
      var h' := Ratcheted(h, p, ep', k);
      forall i :: 0 <= i < |h'.epochs| && i > h'.Pos(Peer(Owner(i))) ==> Unread(h'.epochs[i])
  {
  }

  lemma RatchetGrows(h: History, p: Party, ep': Epoch, k: nat)
    requires Shape(h) && h.Pos(p) + 1 < |h.epochs|
    requires
      var ep := h.epochs[h.Pos(p) + 1];
      && ep'.key == ep.key && ep'.chain == ep.chain && ep'.sends == ep.sends && ep.taken <= ep'.taken
    ensures Grows(h, Ratcheted(h, p, ep', k))
  {
  }

  lemma StartedWindow(e: Epoch)
    requires Unread(e)
    ensures WindowOk(e)
  {
  }

  lemma RatchetKeepsReceivers(h: History, h': History, pos: nat, chains: seq<ReceiverChain>, c: ReceiverChain)
    requires pos + 1 < |h.epochs| && pos + 2 < |h'.epochs| && ReceiversOk(h, pos, chains)
    requires forall e :: 0 <= e < pos + 1 ==> h'.epochs[e] == h.epochs[e]
    requires ReceiverOk(h'.epochs[pos + 1], c)
    ensures
      var all := chains + [c];
      ReceiversOk(h', pos + 2, if |all| > MAX_RECEIVER_CHAINS then all[|all| - MAX_RECEIVER_CHAINS..] else all)
  {
    var all := chains + [c];
    var kept := if |all| > MAX_RECEIVER_CHAINS then all[|all| - MAX_RECEIVER_CHAINS..] else all;
    assert |kept| == ChainCount(pos + 2);
    forall j | 0 <= j < |kept|
      ensures ReceiverOk(h'.epochs[ChainEpoch(pos + 2, j)], kept[j])
    {
      if j < |kept| - 1 {
        var i := if |all| > MAX_RECEIVER_CHAINS then j + 1 else j;
        assert ChainEpoch(pos + 2, j) == ChainEpoch(pos, i) && kept[j] == chains[i];
        assert ReceiverOk(h.epochs[ChainEpoch(pos, i)], chains[i]);
      }
    }
  }

  /** A first message on a new chain can only come from the peer's next epoch. */
  lemma NewChainOrigin(w: World, h: History, p: Party, m: Message, window: Window, key: MessageKey)
    returns (x: Transfer, t: nat, m': nat, steps': seq<nat>)
    requires Inv(w, h) && TagOnWire(w, m.tag)
    requires
      var ep := h.epochs[h.Pos(p)];
      Take(Window(ChainKeyAt(SESSION, ChainTerm(ep.root, ep.key, m.content.ratchetKey), 0), []), m.content.counter)
        == Ok((window, key))
    requires key.material.SessionKeys?
    requires m.tag.Mac? && m.tag.macKey == key.material.macKey && m.tag.content == m.content
    ensures
      var e := h.Pos(p) + 1;
      && e < |h.epochs| && h.Pos(Peer(p)) == e && Unread(h.epochs[e])
      && m.content.ratchetKey == PublicKey(h.epochs[e].key)
      && h.epochs[e].chain == ChainTerm(h.epochs[h.Pos(p)].root, h.epochs[h.Pos(p)].key, m.content.ratchetKey)
      && x in w.At(Peer(p)).sent && x.message == m && SentAt(h, x, Peer(p), e, t)
      && key == KeyAt(SESSION, h.epochs[e].chain, t)
      && var ep' := Received(h.epochs[e], m', steps', t);
         WindowOk(ep') && Tracks(window, SESSION, ep'.chain, ep'.m, ep'.steps)
  {
    hide Take, SessionOk, SentOk, AcceptedOk, TakenLogged, KeysFresh, WindowOk, Tracks, Covers, Spent, SentAt, KeyAt;
    hide Linked, ChainTerm, NodeOk, Unread;
    Disassemble(w, h, p);
    StartTracks(h, p, m.content.ratchetKey);
    var ep := h.epochs[h.Pos(p)];
    var base := ChainTerm(ep.root, ep.key, m.content.ratchetKey);
    t, m', steps' := TakeTracks(Window(ChainKeyAt(SESSION, base, 0), []), SESSION, base, 0, [], {}, m.content.counter);
    var q, e, t';
    q, x, e, t' := TagOrigin(w, h, m);
    SentFacts(h, x, q, e, t');
    KeyedAt(base, t, key);
    NewChainMatchesNextEpoch(h.epochs, h.Pos(p), m.content.ratchetKey, t, e, t');
    assert Owner(e) == Peer(p) && Unread(h.epochs[e]);
    FirstRead(h.epochs[e], t, m', steps');
  }

  lemma StartTracks(h: History, p: Party, theirs: PublicKey)
    requires Shape(h)
    ensures
      var ep := h.epochs[h.Pos(p)];
      var base := ChainTerm(ep.root, ep.key, theirs);
      Tracks(Window(ChainKeyAt(SESSION, base, 0), []), SESSION, base, 0, []) && Covers(0, [], {}) && Spent(0, [], {})
  {
  }

  lemma KeyedAt(base: Term, t: nat, key: MessageKey)
    requires key == KeyAt(SESSION, base, t)
    ensures key.material.SessionKeys? && key.material == KeyAt(SESSION, base, t).material
  {
  }

  lemma FirstRead(e: Epoch, t: nat, m': nat, steps': seq<nat>)
    requires Unread(e) && t < e.sends && (m' == 0 || m' == t + 1)
    requires Covers(m', steps', {} + {t}) && Spent(m', steps', {} + {t})
    ensures WindowOk(Received(e, m', steps', t))
  {
    assert {} + {t} == {t} == e.taken + {t};
  }

  /** The history after step `t` of the next epoch was read and an epoch with key `k` started. */
  lemma RatchetedHistory(h: History, p: Party, s: State, peer: State, theirs: PublicKey, window: Window,
                         t: nat, m': nat, steps': seq<nat>, k: nat) returns (h': History)
    requires EpochsOk(h, k) && SessionOk(h, p, s) && SessionOk(h, Peer(p), peer)
    requires FindChain(s.receiverChains, theirs) == |s.receiverChains|
    requires
      var e := h.Pos(p) + 1;
      && e < |h.epochs| && h.Pos(Peer(p)) == e && Unread(h.epochs[e]) && theirs == PublicKey(h.epochs[e].key)
      && var ep' := Received(h.epochs[e], m', steps', t);
         WindowOk(ep') && Tracks(window, SESSION, ep'.chain, ep'.m, ep'.steps)
    ensures EpochsOk(h', k + 1) && Grows(h, h') && SpendsOnly(h, h', h.Pos(p) + 1, t)
    ensures
      var result := GetOrCreateChain(s, theirs, GeneratePair(k));
      && result.Ok? && result.value.1 < |result.value.0.receiverChains|
      && var s' := Reading(result.value.0, result.value.1, window);
         && SessionOk(h', p, s')
         && SameEnds(s', s)
    ensures SessionOk(h', Peer(p), peer) && h'.Pos(p) == h.Pos(p) + 2 && h'.Pos(Peer(p)) == h.Pos(Peer(p))
  {
    hide WindowOk, Tracks, Linked, KeysFresh, GetOrCreateChain, SenderOk, ReceiversOk;
    var ep' := Received(h.epochs[h.Pos(p) + 1], m', steps', t);
    h' := Ratcheted(h, p, ep', k);
    RatchetKeepsEpochs(h, p, ep', k);
    RatchetSession(h, p, s, theirs, window, ep', k);
    RatchetKeepsPeer(h, p, peer, ep', k);
    hide SessionOk, EpochsOk;
  }

  lemma ReceiveOnNew(w: World, h: History, p: Party, m: Message, window: Window, key: MessageKey)
    returns (h': History, x: Transfer)
    requires Inv(w, h) && TagOnWire(w, m.tag)
    requires
      var s := w.At(p).record.state.value;
      var ep := h.epochs[h.Pos(p)];
      && FindChain(s.receiverChains, m.content.ratchetKey) == |s.receiverChains|
      && Take(Window(ChainKeyAt(SESSION, ChainTerm(ep.root, ep.key, m.content.ratchetKey), 0), []),
           m.content.counter)
           == Ok((window, key))
    requires key.material.SessionKeys?
    requires m.tag.Mac? && m.tag.macKey == key.material.macKey && m.tag.content == m.content
    ensures
      var result := GetOrCreateChain(w.At(p).record.state.value, m.content.ratchetKey, GeneratePair(w.nextKey));
      && result.Ok? && result.value.1 < |result.value.0.receiverChains|
      && var (found, i) := result.value;
         && Inv(Accepting(w, p, Reading(found, i, window), x), h') && Grows(h, h') && SendsAtMost(h, h', 0)
         && x in w.At(Peer(p)).sent && x.message == m
         && x.message.content.body == EncryptBody(CURRENT_VERSION, key, x.plaintext)
         && h'.Pos(p) == h.Pos(p) + 2 && h'.Pos(Peer(p)) == h.Pos(Peer(p))
  {
    hide Take, EpochsOk, SentOk, AcceptedOk, TakenLogged, WindowOk, Linked, GetOrCreateChain, EncryptBody, SessionOk;
    hide SenderOk, ReceiversOk;
    Disassemble(w, h, p);
    var node, peer := w.At(p), w.At(Peer(p));
    var s := node.record.state.value;
    var e := h.Pos(p) + 1;
    var t, m', steps';
    x, t, m', steps' := NewChainOrigin(w, h, p, m, window, key);
    hide NodeOk, Inv, SentAt, KeyAt, ChainTerm;
    SentBody(h, x, Peer(p), e, t);
    h' := RatchetedHistory(h, p, s, peer.record.state.value, m.content.ratchetKey, window, t, m', steps', w.nextKey);
    var (found, i) := GetOrCreateChain(s, m.content.ratchetKey, GeneratePair(w.nextKey)).value;
    AcceptAssembles(w, h, h', p, Reading(found, i, window), x, e, t);
  }

  lemma SentBody(h: History, x: Transfer, p: Party, e: nat, t: nat)
    requires SentAt(h, x, p, e, t)
    ensures x.message.content.body == EncryptBody(CURRENT_VERSION, KeyAt(SESSION, h.epochs[e].chain, t), x.plaintext)
  {
  }

  /** The session that ratcheted sends in the epoch it started and reads the one before. */
  lemma RatchetSession(h: History, p: Party, s: State, theirs: PublicKey, window: Window, ep': Epoch, k: nat)
    requires Shape(h) && Linked(h.epochs) && SessionOk(h, p, s)
    requires FindChain(s.receiverChains, theirs) == |s.receiverChains|
    requires h.Pos(p) + 1 < |h.epochs| && theirs == PublicKey(ep'.key)
    requires
      var ep := h.epochs[h.Pos(p) + 1];
      ep'.key == ep.key && ep'.root == ep.root && ep'.chain == ep.chain
    requires Tracks(window, SESSION, ep'.chain, ep'.m, ep'.steps)
    ensures Shape(Ratcheted(h, p, ep', k))
    ensures
      var result := GetOrCreateChain(s, theirs, GeneratePair(k));
      && result.Ok? && result.value.1 < |result.value.0.receiverChains|
      && var (found, i) := result.value;
         var s' := Reading(found, i, window);
         && SessionOk(Ratcheted(h, p, ep', k), p, s')
         && SameEnds(s', s)
  {
    hide GetOrCreateChain, AddReceiverChain, Tracks, Linked;
    RatchetedShape(h, p, ep', k);
    RatchetedSender(h, p, s, theirs, ep', k);
    RatchetedReceivers(h, p, s, theirs, window, ep', k);
    hide SenderOk, ReceiversOk, Ratcheted;
  }

  lemma RatchetedShape(h: History, p: Party, ep': Epoch, k: nat)
    requires Shape(h) && h.Pos(p) + 1 < |h.epochs|
    ensures Shape(Ratcheted(h, p, ep', k)) && Ratcheted(h, p, ep', k).Pos(p) == h.Pos(p) + 2
  {
  }

  lemma RatchetedSender(h: History, p: Party, s: State, theirs: PublicKey, ep': Epoch, k: nat)
    requires Shape(h) && Linked(h.epochs) && SessionOk(h, p, s)
    requires FindChain(s.receiverChains, theirs) == |s.receiverChains|
    requires h.Pos(p) + 1 < |h.epochs| && theirs == PublicKey(ep'.key)
    requires
      var ep := h.epochs[h.Pos(p) + 1];
      ep'.key == ep.key && ep'.root == ep.root && ep'.chain == ep.chain
    ensures
      var h' := Ratcheted(h, p, ep', k);
      var result := GetOrCreateChain(s, theirs, GeneratePair(k));
      && result.Ok? && h.Pos(p) + 2 < |h'.epochs|
      && SenderOk(h'.epochs[h.Pos(p) + 2], result.value.0)
      && result.value.0.previousCounter == PreviousCount(h'.epochs, h.Pos(p) + 2)
      && SameEnds(result.value.0, s)
  {
    hide GetOrCreateChain, AddReceiverChain, ReceiversOk, Linked, ChainTerm, RootTerm, Agree;
    NewChainState(h.epochs[h.Pos(p)], s, theirs, GeneratePair(k));
    RootStep(h, p);
    StartedTerms(ep'.root, ep'.key, k);
  }

  lemma RatchetedReceivers(h: History, p: Party, s: State, theirs: PublicKey, window: Window, ep': Epoch, k: nat)
    requires Shape(h) && SessionOk(h, p, s) && FindChain(s.receiverChains, theirs) == |s.receiverChains|
    requires h.Pos(p) + 1 < |h.epochs| && theirs == PublicKey(ep'.key)
    requires Tracks(window, SESSION, ep'.chain, ep'.m, ep'.steps)
    ensures
      var h' := Ratcheted(h, p, ep', k);
      var result := GetOrCreateChain(s, theirs, GeneratePair(k));
      && result.Ok? && result.value.1 < |result.value.0.receiverChains| && h.Pos(p) + 2 < |h'.epochs|
      && var (found, i) := result.value;
         ReceiversOk(h', h.Pos(p) + 2, found.receiverChains[i := found.receiverChains[i].(window := window)])
  {
    hide GetOrCreateChain, AddReceiverChain, Tracks, ChainTerm, RootTerm, ReceiversOk;
    RatchetedEpochs(h, p, ep', k);
    var ep := h.epochs[h.Pos(p)];
    NewChainState(ep, s, theirs, GeneratePair(k));
    var chainKey := ChainKeyAt(SESSION, ChainTerm(ep.root, ep.key, theirs), 0);
    hide SenderOk, Ratcheted;
    RatchetKeepsReceivers(h, Ratcheted(h, p, ep', k), h.Pos(p), s.receiverChains, ReceiverChain(theirs, window));
    AddedChain(s.receiverChains, theirs, chainKey, window);
  }

  lemma RatchetedEpochs(h: History, p: Party, ep': Epoch, k: nat)
    requires Shape(h) && h.Pos(p) + 1 < |h.epochs|
    ensures
      var h' := Ratcheted(h, p, ep', k);
      && |h'.epochs| == h.Pos(p) + 3 && h'.epochs[h.Pos(p) + 1] == ep'
      && forall e :: 0 <= e < h.Pos(p) + 1 ==> h'.epochs[e] == h.epochs[e]
  {
  }

  /** The keys the party derives with its fresh pair are those of the epoch it starts. */
  lemma StartedTerms(root: Term, theirs: nat, k: nat)
    ensures Hkdf(CURRENT_VERSION, Agree(PublicKey(theirs), PrivateKey(k)), root, WhisperRatchet, 0) ==
            RootTerm(root, theirs, PublicKey(k))
    ensures Hkdf(CURRENT_VERSION, Agree(PublicKey(theirs), PrivateKey(k)), root, WhisperRatchet, 1) ==
            ChainTerm(root, theirs, PublicKey(k))
  {
  }

  lemma AddedChain(chains: seq<ReceiverChain>, theirs: PublicKey, chainKey: ChainKey, window: Window)
    ensures
      var added := AddReceiverChain(chains, theirs, chainKey);
      var all := chains + [ReceiverChain(theirs, window)];
      && |added| > 0
      && added[|added| - 1].ratchetKey == theirs
      && added[|added| - 1 := added[|added| - 1].(window := window)]
         == if |all| > MAX_RECEIVER_CHAINS then all[|all| - MAX_RECEIVER_CHAINS..] else all
  {
  }

  lemma RatchetKeepsPeer(h: History, p: Party, s: State, ep': Epoch, k: nat)
    requires Shape(h) && SessionOk(h, Peer(p), s) && h.Pos(Peer(p)) == h.Pos(p) + 1
    requires
      var ep := h.epochs[h.Pos(p) + 1];
      ep'.key == ep.key && ep'.root == ep.root && ep'.chain == ep.chain && ep'.sends == ep.sends
    requires Shape(Ratcheted(h, p, ep', k))
    ensures SessionOk(Ratcheted(h, p, ep', k), Peer(p), s)
  {
  }

  lemma RootStep(h: History, p: Party)
    requires Shape(h) && Linked(h.epochs) && h.Pos(p) + 1 < |h.epochs|
    ensures h.epochs[h.Pos(p) + 1].root
            == RootTerm(h.epochs[h.Pos(p)].root, h.epochs[h.Pos(p)].key, PublicKey(h.epochs[h.Pos(p) + 1].key))
  {
  }
}
