/**
 * The shared sequence of ratchet epochs behind two sessions.  Bob owns the even
 * epochs and Alice the odd ones; each epoch has its owner's ratchet key, a root
 * key and the start of the owner's sending chain.
 */
module RatchetHistory {
  import opened Common
  import opened Terms
  import opened KeyWindow
  import opened Session
  import opened Ratchet
  import opened SessionCipher
  import opened RatchetWorld

  /**
   * `sends` counts the messages the owner sent on this chain.  `m`, `steps` and
   * `taken` describe the peer's receiving window over the same chain.
   */
  datatype Epoch = Epoch(key: nat, root: Term, chain: Term, sends: nat, m: nat, steps: seq<nat>, taken: set<nat>)

  /** The registration ids that a session records for its two ends. */
  datatype Registration = Registration(local: u32, remote: u32)

  datatype History = History(
    epochs: seq<Epoch>, alicePos: nat, bobPos: nat, aliceId: PublicKey, bobId: PublicKey,
    aliceRegistration: Registration, bobRegistration: Registration)
  {
    function Pos(p: Party): nat {
      if p == Alice then alicePos else bobPos
    }

    function Id(p: Party): PublicKey {
      if p == Alice then aliceId else bobId
    }

    function RegistrationOf(p: Party): Registration {
      if p == Alice then aliceRegistration else bobRegistration
    }
  }

  function Owner(e: nat): Party {
    if e % 2 == 0 then Bob else Alice
  }

  const SESSION: Profile := SessionProfile(CURRENT_VERSION)

  function Max(a: nat, b: nat): nat {
    if a < b then b else a
  }

  ghost predicate Shape(h: History) {
    && Owner(h.alicePos) == Alice && Owner(h.bobPos) == Bob
    && (h.alicePos == h.bobPos + 1 || h.bobPos == h.alicePos + 1)
    && |h.epochs| == Max(h.alicePos, h.bobPos) + 1
  }

  /** The root key and the start of the chain that the holder of key `k` derives for the peer's key. */
  function RootTerm(previous: Term, k: nat, theirs: PublicKey): Term {
    Hkdf(CURRENT_VERSION, Agree(theirs, PrivateKey(k)), previous, WhisperRatchet, 0)
  }

  function ChainTerm(previous: Term, k: nat, theirs: PublicKey): Term {
    Hkdf(CURRENT_VERSION, Agree(theirs, PrivateKey(k)), previous, WhisperRatchet, 1)
  }

  /** Each epoch's keys follow from the previous root key and the two adjacent ratchet keys. */
  ghost predicate Linked(epochs: seq<Epoch>) {
    && |epochs| > 0
    && epochs[0].root.Hkdf? && epochs[0].root.info == WhisperText && epochs[0].root.part == 0
    && epochs[0].chain == epochs[0].root.(part := 1)
    && forall i :: 0 < i < |epochs| ==>
         && epochs[i].root == RootTerm(epochs[i - 1].root, epochs[i - 1].key, PublicKey(epochs[i].key))
         && epochs[i].chain == ChainTerm(epochs[i - 1].root, epochs[i - 1].key, PublicKey(epochs[i].key))
  }

  ghost predicate KeysFresh(epochs: seq<Epoch>, nextKey: nat) {
    && (forall i :: 0 <= i < |epochs| ==> epochs[i].key < nextKey)
    && (forall i, j :: 0 <= i < j < |epochs| ==> epochs[i].key != epochs[j].key)
  }

  ghost predicate WindowOk(e: Epoch) {
    && e.m <= e.sends
    && Covers(e.m, e.steps, e.taken) && Spent(e.m, e.steps, e.taken)
  }

  /** Nothing has been received from an epoch its peer has not reached. */
  ghost predicate Unread(e: Epoch) {
    e.m == 0 && e.steps == [] && e.taken == {}
  }

  ghost predicate EpochsOk(h: History, nextKey: nat) {
    && Shape(h) && Linked(h.epochs) && KeysFresh(h.epochs, nextKey)
    && (forall i :: 0 <= i < |h.epochs| ==> WindowOk(h.epochs[i]))
    && (forall i :: 0 <= i < |h.epochs| && i > h.Pos(Peer(Owner(i))) ==> Unread(h.epochs[i]))
  }

  /** How many receiving chains a party keeps when it sends in epoch `pos`. */
  function ChainCount(pos: nat): nat {
    if (pos + 1) / 2 > MAX_RECEIVER_CHAINS then MAX_RECEIVER_CHAINS else (pos + 1) / 2
  }

  /** The epoch behind the `j`-th of the receiving chains: the peer's newest `ChainCount` epochs. */
  function ChainEpoch(pos: nat, j: nat): (e: nat)
    requires j < ChainCount(pos)
    ensures e < pos && Owner(e) != Owner(pos)
  {
    pos - 1 - 2 * (ChainCount(pos) - 1 - j)
  }

  /**
   * What every message of epoch `e` says about its owner's epoch before that:
   * the number of messages sent there, less one; zero if there were none.
   */
  function PreviousCount(epochs: seq<Epoch>, e: nat): u32
    requires e < |epochs|
  {
    if e < 2 || ToU32(epochs[e - 2].sends) == 0 then 0 else ToU32(epochs[e - 2].sends) - 1
  }

  ghost predicate SenderOk(e: Epoch, s: State) {
    && s.version == CURRENT_VERSION
    && s.rootKey == Some(RootKey(CURRENT_VERSION, e.root))
    && s.senderChain == Some(SenderChain(Some(GeneratePair(e.key)), Some(ChainKeyAt(SESSION, e.chain, e.sends)), []))
  }

  ghost predicate ReceiverOk(e: Epoch, c: ReceiverChain) {
    && c.ratchetKey == PublicKey(e.key)
    && Tracks(c.window, SESSION, e.chain, e.m, e.steps)
  }

  ghost predicate ReceiversOk(h: History, pos: nat, chains: seq<ReceiverChain>)
    requires pos < |h.epochs|
  {
    && |chains| == ChainCount(pos)
    && forall j :: 0 <= j < |chains| ==> ReceiverOk(h.epochs[ChainEpoch(pos, j)], chains[j])
  }

  ghost predicate SessionOk(h: History, p: Party, s: State)
    requires Shape(h)
  {
    && SenderOk(h.epochs[h.Pos(p)], s)
    && s.previousCounter == PreviousCount(h.epochs, h.Pos(p))
    && ReceiversOk(h, h.Pos(p), s.receiverChains)
  }

  ghost predicate Identified(h: History, p: Party, s: State) {
    && s.localIdentity == Some(h.Id(p)) && s.remoteIdentity == Some(h.Id(Peer(p)))
    && Registration(s.localRegistrationId, s.remoteRegistrationId) == h.RegistrationOf(p)
  }

  // ----- messages and the epochs they come from

  function MacKeyAt(e: Epoch, t: nat): Term {
    KeyAt(SESSION, e.chain, t).material.macKey
  }

  /** `x` is what the owner of epoch `e` sent as its `t`-th message there. */
  ghost predicate SentAt(h: History, x: Transfer, p: Party, e: nat, t: nat) {
    && e < |h.epochs| && Owner(e) == p && e <= h.Pos(p) && t < h.epochs[e].sends
    && var keys := KeyAt(SESSION, h.epochs[e].chain, t).material;
       && x.message.content == Content(CURRENT_VERSION, PublicKey(h.epochs[e].key), ToU32(t),
            PreviousCount(h.epochs, e), Encrypted(Cbc(keys.iv), keys.cipherKey, x.plaintext))
       && x.message.tag == Mac(MacKeyAt(h.epochs[e], t), Some((h.Id(p), h.Id(Peer(p)))), x.message.content)
  }

  /** `x` was accepted with the key of step `t` of epoch `e`, which is now spent. */
  ghost predicate TakenAt(h: History, x: Transfer, p: Party, e: nat, t: nat) {
    && e < |h.epochs| && Owner(e) == Peer(p) && t in h.epochs[e].taken
    && x.message.tag.Mac?
    && x.message.tag.macKey == MacKeyAt(h.epochs[e], t)
  }

  ghost predicate WasSent(h: History, x: Transfer, p: Party) {
    exists e: nat, t: nat :: SentAt(h, x, p, e, t)
  }

  ghost predicate WasTaken(h: History, x: Transfer, p: Party) {
    exists e: nat, t: nat :: TakenAt(h, x, p, e, t)
  }

  /** No two messages of a party are authenticated with the same key. */
  ghost predicate DistinctKeys(sent: seq<Transfer>) {
    && (forall i :: 0 <= i < |sent| ==> sent[i].message.tag.Mac?)
    && (forall i, j :: 0 <= i < j < |sent| ==> sent[i].message.tag.macKey != sent[j].message.tag.macKey)
  }

  ghost predicate SentOk(h: History, p: Party, sent: seq<Transfer>) {
    && (forall i :: 0 <= i < |sent| ==> WasSent(h, sent[i], p))
    && DistinctKeys(sent)
  }

  /** Every spent step of the peer's epochs is in the log. */
  ghost predicate TakenLogged(h: History, p: Party, accepted: seq<Transfer>) {
    forall e: nat, t: nat :: e < |h.epochs| && Owner(e) == Peer(p) && t in h.epochs[e].taken ==>
      Logged(h.epochs[e], t, accepted)
  }

  ghost predicate Logged(e: Epoch, t: nat, accepted: seq<Transfer>) {
    exists i :: 0 <= i < |accepted| && accepted[i].message.tag.Mac? && accepted[i].message.tag.macKey == MacKeyAt(e, t)
  }

  ghost predicate AcceptedOk(h: History, p: Party, accepted: seq<Transfer>, peerSent: seq<Transfer>) {
    && (forall i :: 0 <= i < |accepted| ==> accepted[i] in peerSent)
    && (forall i :: 0 <= i < |accepted| ==> WasTaken(h, accepted[i], p))
    && (forall i, j :: 0 <= i < j < |accepted| ==> accepted[i].message != accepted[j].message)
  }

  ghost predicate NodeOk(h: History, p: Party, node: Node, peer: Node)
    requires Shape(h)
  {
    && OnlyCurrent(node.record)
    && SessionOk(h, p, node.record.state.value)
    && Identified(h, p, node.record.state.value)
    && SentOk(h, p, node.sent)
    && AcceptedOk(h, p, node.accepted, peer.sent)
    && TakenLogged(h, p, node.accepted)
  }

  ghost predicate Inv(w: World, h: History) {
    && EpochsOk(h, w.nextKey)
    && NodeOk(h, Alice, w.alice, w.bob)
    && NodeOk(h, Bob, w.bob, w.alice)
  }

  // ----- key terms determine their epoch

  /** Number of ratchet derivations along the salt of a term. */
  function Depth(t: Term): nat {
    if t.Hkdf? && t.info == WhisperRatchet then 1 + Depth(t.salt) else 0
  }

  lemma {:induction false} DepthOfEpoch(epochs: seq<Epoch>, i: nat)
    requires Linked(epochs) && i < |epochs|
    ensures Depth(epochs[i].root) == Depth(epochs[i].chain) == i
    ensures epochs[i].chain.Hkdf?
  {
    if i > 0 {
      DepthOfEpoch(epochs, i - 1);
    }
  }

  lemma MacKeyInjective(a: Term, m: nat, b: Term, n: nat)
    requires a.Hkdf? && b.Hkdf?
    requires KeyAt(SESSION, a, m).material.macKey == KeyAt(SESSION, b, n).material.macKey
    ensures a == b && m == n
  {
    AdvanceInjective(a, m, b, n);
  }

  /** A MAC key belongs to one step of one epoch. */
  lemma MacKeyUnique(epochs: seq<Epoch>, e: nat, t: nat, e': nat, t': nat)
    requires Linked(epochs) && e < |epochs| && e' < |epochs|
    requires MacKeyAt(epochs[e], t) == MacKeyAt(epochs[e'], t')
    ensures e == e' && t == t'
  {
    DepthOfEpoch(epochs, e);
    DepthOfEpoch(epochs, e');
    MacKeyInjective(epochs[e].chain, t, epochs[e'].chain, t');
  }

  /**
   * A chain ratcheted from the root of epoch `pos` with any peer key shares a
   * MAC key with an existing epoch only if that is the next epoch and the peer
   * key is its ratchet key, in some encoding.  This is why messages for an
   * evicted chain, and a party's own messages reflected back, never verify.
   */
  lemma NewChainMatchesNextEpoch(epochs: seq<Epoch>, pos: nat, theirs: PublicKey, t: nat, e: nat, t': nat)
    requires Linked(epochs) && pos < |epochs| && e < |epochs|
    requires KeyAt(SESSION, ChainTerm(epochs[pos].root, epochs[pos].key, theirs), t).material.macKey ==
             MacKeyAt(epochs[e], t')
    ensures e == pos + 1 && SamePoint(theirs, PublicKey(epochs[e].key)) && t == t'
    ensures ChainTerm(epochs[pos].root, epochs[pos].key, theirs) == epochs[e].chain
  {
    DepthOfEpoch(epochs, pos);
    DepthOfEpoch(epochs, e);
    MacKeyInjective(ChainTerm(epochs[pos].root, epochs[pos].key, theirs), t, epochs[e].chain, t');
    AgreeFacts(theirs, PublicKey(epochs[e].key), 0, epochs[pos].key);
  }

  // ----- growing a history

  /** The epochs keep their keys; what was sent and taken stays so, and a left epoch sends no more. */
  ghost predicate Grows(h: History, h': History) {
    && |h.epochs| <= |h'.epochs|
    && h'.aliceId == h.aliceId && h'.bobId == h.bobId
    && h'.aliceRegistration == h.aliceRegistration && h'.bobRegistration == h.bobRegistration
    && h.alicePos <= h'.alicePos && h.bobPos <= h'.bobPos
    && (forall i :: 0 <= i < |h.epochs| && i < h.Pos(Owner(i)) ==> h'.epochs[i].sends == h.epochs[i].sends)
    && forall i :: 0 <= i < |h.epochs| ==>
         && h.epochs[i].key == h'.epochs[i].key && h.epochs[i].chain == h'.epochs[i].chain
         && h.epochs[i].sends <= h'.epochs[i].sends
         && h.epochs[i].taken <= h'.epochs[i].taken
  }

  lemma GrowsOn(a: History, b: History, c: History)
    requires Shape(a) && Shape(b) && Grows(a, b) && Grows(b, c)
    ensures Grows(a, c)
  {
  }

  /** Every epoch has sent at most `n` messages more, and a new one at most `n`. */
  ghost predicate SendsAtMost(h: History, h': History, n: nat) {
    forall i :: 0 <= i < |h'.epochs| ==>
      h'.epochs[i].sends <= (if i < |h.epochs| then h.epochs[i].sends else 0) + n
  }

  lemma SentGrows(h: History, h': History, p: Party, sent: seq<Transfer>)
    requires Grows(h, h') && SentOk(h, p, sent)
    ensures SentOk(h', p, sent)
  {
    forall i | 0 <= i < |sent|
      ensures WasSent(h', sent[i], p)
    {
      assert WasSent(h, sent[i], p);
      var e: nat, t: nat :| SentAt(h, sent[i], p, e, t);
      assert SentAt(h', sent[i], p, e, t);
    }
  }

  lemma AcceptedGrows(h: History, h': History, p: Party, accepted: seq<Transfer>, peerSent: seq<Transfer>,
                      peerSent': seq<Transfer>)
    requires Grows(h, h') && AcceptedOk(h, p, accepted, peerSent) && peerSent <= peerSent'
    ensures AcceptedOk(h', p, accepted, peerSent')
  {
    forall i | 0 <= i < |accepted|
      ensures WasTaken(h', accepted[i], p)
    {
      assert WasTaken(h, accepted[i], p);
      var e: nat, t: nat :| TakenAt(h, accepted[i], p, e, t);
      assert TakenAt(h', accepted[i], p, e, t);
    }
  }
}
