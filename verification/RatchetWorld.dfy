/**
 * Two parties and a hostile network.  The network may drop, delay, reorder and
 * duplicate messages, and may inject messages of its own making as long as it
 * does not compute a MAC: an injected tag is either junk or copied from a
 * message that was really sent.
 */
module RatchetWorld {
  import opened Common
  import opened Terms
  import opened Session
  import opened Ratchet
  import opened SessionCipher
  import opened SessionRecord

  datatype Party = Alice | Bob

  function Peer(p: Party): Party {
    if p == Alice then Bob else Alice
  }

  datatype Transfer = Transfer(message: Message, plaintext: Plaintext)

  /** A party's stored record, with everything it has sent and accepted. */
  datatype Node = Node(record: Record, sent: seq<Transfer>, accepted: seq<Transfer>)

  datatype World = World(alice: Node, bob: Node, nextKey: nat) {
    function At(p: Party): Node {
      if p == Alice then alice else bob
    }

    function With(p: Party, n: Node): World {
      if p == Alice then this.(alice := n) else this.(bob := n)
    }
  }

  /** The verdicts are those of the application's decryption callback and of its session store. */
  datatype Event =
    | Send(party: Party, plaintext: Plaintext, storeOk: bool)
    | Receive(party: Party, message: Message, callbackOk: bool, storeOk: bool)

  ghost predicate TagOnWire(w: World, tag: Tag) {
    exists p: Party, i: nat :: i < |w.At(p).sent| && w.At(p).sent[i].message.tag == tag
  }

  ghost predicate PossibleMessage(w: World, m: Message) {
    m.tag.Junk? || TagOnWire(w, m.tag)
  }

  ghost predicate Possible(w: World, e: Event) {
    e.Receive? ==> PossibleMessage(w, e.message)
  }

  /** session_cipher_encrypt: the stored record changes only if a message results, and the other way round. */
  function SendStep(w: World, p: Party, plaintext: Plaintext): World {
    var node := w.At(p);
    if node.record.state.None? then w
    else
      var result := Encrypt(node.record.state.value, plaintext);
      if result.Err? then w
      else
        w.With(p, node.(record := node.record.(state := Some(result.value.0)),
                        sent := node.sent + [Transfer(result.value.1.message, plaintext)]))
  }

  /** session_cipher_decrypt_signal_message: store the stepped record only after full success. */
  ghost function ReceiveStep(w: World, p: Party, m: Message, committed: bool): World {
    var node := w.At(p);
    var drawn := w.(nextKey := w.nextKey + 1 + |node.record.previous|);
    if !RecordWellTyped(node.record) then w
    else
      var result := DecryptFromRecord(node.record, m, w.nextKey);
      if result.Err? || !committed then drawn
      else
        drawn.With(p, node.(record := result.value.0, accepted := node.accepted + [Transfer(m, result.value.1)]))
  }

  ghost function Step(w: World, e: Event): World {
    match e
    case Send(p, plaintext, storeOk) => if storeOk then SendStep(w, p, plaintext) else w
    case Receive(p, m, callbackOk, storeOk) => ReceiveStep(w, p, m, callbackOk && storeOk)
  }

  ghost predicate IsRun(w: World, events: seq<Event>)
    decreases |events|
  {
    events != [] ==> Possible(w, events[0]) && IsRun(Step(w, events[0]), events[1..])
  }

  ghost function Final(w: World, events: seq<Event>): World
    decreases |events|
  {
    if events == [] then w else Final(Step(w, events[0]), events[1..])
  }

  /** An archived state that never became a session, as an unanswered key exchange leaves it: it decrypts nothing. */
  ghost predicate Dormant(s: State) {
    WellTyped(s) && Canonical(s) && s.senderChain.None?
  }

  ghost predicate OnlyCurrent(r: Record) {
    r.state.Some? && forall s | s in r.previous :: Dormant(s)
  }

  /** Both sides have just set up matching sessions, with ratchet keys drawn before `nextKey`. */
  ghost predicate Initial(w: World, k0: nat, k1: nat) {
    && w.alice.sent == w.alice.accepted == [] && w.bob.sent == w.bob.accepted == []
    && OnlyCurrent(w.alice.record) && OnlyCurrent(w.bob.record)
    && k0 < w.nextKey && k1 < w.nextKey && k0 != k1
    && Matched(w.alice.record.state.value, w.bob.record.state.value, GeneratePair(k0), GeneratePair(k1))
  }
}
