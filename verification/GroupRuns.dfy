/**
 * One sender and one receiver of a group over an unreliable, hostile channel.
 * Receivers do not interact, so what holds of one holds of each of many.
 * Distribution messages travel on authenticated sessions: the receiver installs
 * only distributions the sender issued, but any of them, any number of times.
 */
module GroupRuns {
  import opened Common
  import opened Terms
  import opened KeyWindow
  import opened Group

  datatype Transfer = Transfer(message: SenderKeyMessage, plaintext: Plaintext)

  /** `install` numbers the installation whose state accepted the message. */
  datatype Acceptance = Acceptance(transfer: Transfer, install: nat)

  /** `ids[i]` numbers the installation behind `receiver[i]`. */
  datatype World = World(
    sender: SenderKeyRecord, issued: seq<Distribution>, sent: seq<Transfer>, nextKey: nat,
    receiver: SenderKeyRecord, ids: seq<nat>, installs: nat, accepted: seq<Acceptance>)

  /** `storeOk` and `callbackOk` are the verdicts of the sender-key store and of the decryption callback. */
  datatype Event =
    | Create(keyId: u32, storeOk: bool)          // group_session_builder_create_session on an empty record
    | Reset                                      // the application deletes the sender's record
    | Announce                                   // the sender issues a distribution message
    | Send(plaintext: Plaintext, storeOk: bool)
    | InstallIssued(index: nat, storeOk: bool)   // the receiver processes an issued distribution
    | Receive(message: SenderKeyMessage, callbackOk: bool, storeOk: bool)

  /** Nothing is kept, sent or accepted unless the callback and the store agree. */
  predicate Commits(e: Event) {
    match e
    case Create(_, storeOk) => storeOk
    case Reset => true
    case Announce => true
    case Send(_, storeOk) => storeOk
    case InstallIssued(_, storeOk) => storeOk
    case Receive(_, callbackOk, storeOk) => callbackOk && storeOk
  }

  ghost predicate OnWire(w: World, s: Signature) {
    exists i: nat :: i < |w.sent| && w.sent[i].message.signature == s
  }

  /** The network cannot sign: a signature is forged junk or copied from a sent message. */
  ghost predicate Possible(w: World, e: Event) {
    && (e.Receive? ==> e.message.signature.Forgery? || OnWire(w, e.message.signature))
    && (e.InstallIssued? ==> e.index < |w.issued|)
  }

  function InstallStep(w: World, d: Distribution): World {
    var ids := [w.installs] + w.ids;
    w.(receiver := Install(w.receiver, d),
       ids := if |ids| > MAX_STATES then ids[..MAX_STATES] else ids,
       installs := w.installs + 1)
  }

  ghost function ReceiveStep(w: World, m: SenderKeyMessage): World {
    var result := GroupDecrypt(w.receiver, m);
    var i := FindState(w.receiver, m.content.keyId);
    if result.Err? || i >= |w.ids| then w
    else
      w.(receiver := result.value.0,
         accepted := w.accepted + [Acceptance(Transfer(m, result.value.1), w.ids[i])])
  }

  ghost function Step(w: World, e: Event): World
    requires Possible(w, e)
  {
    if !Commits(e) then w else
    match e
    case Create(keyId, _) =>
      w.(sender := CreateSession(w.sender, keyId, Random(w.nextKey), GeneratePair(w.nextKey)), nextKey := w.nextKey + 1)
    case Reset => w.(sender := [])
    case Announce =>
      var d := Distribute(w.sender);
      if d.Ok? then w.(issued := w.issued + [d.value]) else w
    case Send(plaintext, _) =>
      var result := GroupEncrypt(w.sender, plaintext);
      if result.Err? then w
      else w.(sender := result.value.0, sent := w.sent + [Transfer(result.value.1, plaintext)])
    case InstallIssued(index, _) => InstallStep(w, w.issued[index])
    case Receive(m, _, _) => ReceiveStep(w, m)
  }

  const INITIAL: World := World([], [], [], 0, [], [], 0, [])

  ghost predicate IsRun(w: World, events: seq<Event>)
    decreases |events|
  {
    events != [] ==> Possible(w, events[0]) && IsRun(Step(w, events[0]), events[1..])
  }

  ghost function Final(w: World, events: seq<Event>): World
    requires IsRun(w, events)
    decreases |events|
  {
    if events == [] then w else Final(Step(w, events[0]), events[1..])
  }

  // ----- history

  /** A sender session: its key id, its seed and signing key, and how many messages it sent. */
  datatype Session = Session(keyId: u32, key: nat, count: nat)

  /** An installed state: the session and step it was taken at, and its window. */
  datatype Instance = Instance(session: nat, start: nat, m: nat, steps: seq<nat>, taken: set<nat>)

  datatype History = History(sessions: seq<Session>, instances: seq<Instance>)

  function Base(s: Session): Term {
    Random(s.key)
  }

  function KeyOf(s: Session, t: nat): MessageKey {
    KeyAt(GroupProfile, Base(s), t)
  }

  ghost predicate SessionsOk(sessions: seq<Session>, nextKey: nat) {
    && (forall i :: 0 <= i < |sessions| ==> sessions[i].key < nextKey)
    && (forall i, j :: 0 <= i < j < |sessions| ==> sessions[i].key != sessions[j].key)
  }

  function SenderStateOf(s: Session): SenderKeyState {
    SenderKeyState(s.keyId, Window(ChainKeyAt(GroupProfile, Base(s), s.count), []),
                   PublicKey(s.key), Some(PrivateKey(s.key)))
  }

  ghost predicate SenderOk(sessions: seq<Session>, sender: SenderKeyRecord) {
    sender == [] || (|sessions| > 0 && sender == [SenderStateOf(sessions[|sessions| - 1])])
  }

  ghost predicate IssuedAt(sessions: seq<Session>, d: Distribution, g: nat, k: nat) {
    && g < |sessions| && k <= sessions[g].count
    && d == Distribution(sessions[g].keyId, ToU32(k), Advance(Base(sessions[g]), k), PublicKey(sessions[g].key))
  }

  ghost predicate WasIssued(sessions: seq<Session>, d: Distribution) {
    exists g: nat, k: nat :: IssuedAt(sessions, d, g, k)
  }

  /** `x` is the `t`-th message of session `g`. */
  ghost predicate SentAt(sessions: seq<Session>, x: Transfer, g: nat, t: nat) {
    && g < |sessions| && t < sessions[g].count
    && x.message.content == GroupContent(sessions[g].keyId, ToU32(t), Seal(KeyOf(sessions[g], t), x.plaintext))
    && x.message.signature == Signature(PrivateKey(sessions[g].key), x.message.content)
  }

  ghost predicate WasSent(sessions: seq<Session>, x: Transfer) {
    exists g: nat, t: nat :: SentAt(sessions, x, g, t)
  }

  ghost predicate InstanceOk(sessions: seq<Session>, n: Instance, s: SenderKeyState) {
    && n.session < |sessions|
    && s.keyId == sessions[n.session].keyId && s.signingPublic == PublicKey(sessions[n.session].key)
    && s.signingPrivate.None?
    && Tracks(s.window, GroupProfile, Base(sessions[n.session]), n.m, n.steps)
    && n.start <= n.m <= sessions[n.session].count
    && (forall t: nat :: t < n.start ==> t in n.taken)
    && Covers(n.m, n.steps, n.taken) && Spent(n.m, n.steps, n.taken)
  }

  /** The body of `a` was opened with the key of step `t`. */
  ghost predicate OpenedAt(s: Session, a: Acceptance, t: nat) {
    && a.transfer.message.content.body.GroupEncrypted?
    && a.transfer.message.content.body.key == KeyOf(s, t).material.groupCipherKey
  }

  ghost predicate Decreasing(ids: seq<nat>, bound: nat) {
    && (forall i :: 0 <= i < |ids| ==> ids[i] < bound)
    && (forall i, j :: 0 <= i < j < |ids| ==> ids[i] > ids[j])
  }

  /** What acceptance `a` used up is marked in the instance that took it. */
  ghost predicate MarkedIn(sessions: seq<Session>, n: Instance, a: Acceptance) {
    n.session < |sessions| && exists t: nat :: t in n.taken && OpenedAt(sessions[n.session], a, t)
  }

  /** `a` used no newer installation than the one now found for its key id. */
  ghost predicate NotNewer(a: Acceptance, receiver: SenderKeyRecord, ids: seq<nat>) {
    var i := FindState(receiver, a.transfer.message.content.keyId);
    i < |ids| ==> a.install <= ids[i]
  }

  ghost predicate LogOk(h: History, w: World) {
    && |h.instances| == |w.receiver| == |w.ids|
    && (forall k :: 0 <= k < |w.accepted| ==> w.accepted[k].transfer in w.sent)
    && (forall k, i :: 0 <= k < |w.accepted| && 0 <= i < |w.ids| && w.ids[i] == w.accepted[k].install ==>
          MarkedIn(h.sessions, h.instances[i], w.accepted[k]))
    && (forall k :: 0 <= k < |w.accepted| ==> NotNewer(w.accepted[k], w.receiver, w.ids))
    && (forall k :: 0 <= k < |w.accepted| ==> w.accepted[k].install < w.installs)
    && (forall k, l :: 0 <= k < l < |w.accepted| && w.accepted[k].transfer.message == w.accepted[l].transfer.message ==>
          w.accepted[k].install < w.accepted[l].install)
  }

  /** Every step an instance spent since it was installed is in the log. */
  ghost predicate SpentLogged(h: History, w: World) {
    && |h.instances| == |w.ids|
    && forall i, t: nat :: 0 <= i < |w.ids| && t in h.instances[i].taken && t >= h.instances[i].start ==>
         LoggedFor(h.sessions, h.instances[i], w.ids[i], t, w.accepted)
  }

  ghost predicate LoggedFor(sessions: seq<Session>, n: Instance, id: nat, t: nat, accepted: seq<Acceptance>) {
    n.session < |sessions|
    && exists k :: 0 <= k < |accepted| && accepted[k].install == id && OpenedAt(sessions[n.session], accepted[k], t)
  }

  /** No two messages are encrypted with the same key. */
  ghost predicate DistinctKeys(sent: seq<Transfer>) {
    && (forall i :: 0 <= i < |sent| ==> sent[i].message.content.body.GroupEncrypted?)
    && (forall i, j :: 0 <= i < j < |sent| ==> sent[i].message.content.body.key != sent[j].message.content.body.key)
  }

  ghost predicate Inv(w: World, h: History) {
    && DistinctKeys(w.sent)
    && SessionsOk(h.sessions, w.nextKey) && SenderOk(h.sessions, w.sender)
    && (forall i :: 0 <= i < |w.issued| ==> WasIssued(h.sessions, w.issued[i]))
    && (forall i :: 0 <= i < |w.sent| ==> WasSent(h.sessions, w.sent[i]))
    && |h.instances| == |w.receiver| == |w.ids| <= MAX_STATES
    && (forall i :: 0 <= i < |w.receiver| ==> InstanceOk(h.sessions, h.instances[i], w.receiver[i]))
    && Decreasing(w.ids, w.installs)
    && LogOk(h, w)
    && SpentLogged(h, w)
  }

  // ----- sessions may be added and may count on

  ghost predicate Grows(a: seq<Session>, b: seq<Session>) {
    && |a| <= |b|
    && forall i :: 0 <= i < |a| ==> a[i].keyId == b[i].keyId && a[i].key == b[i].key && a[i].count <= b[i].count
  }

  lemma KeyOfSame(a: Session, b: Session, t: nat)
    requires a.key == b.key
    ensures KeyOf(a, t) == KeyOf(b, t)
  {
  }

  lemma SentGrows(a: seq<Session>, b: seq<Session>, x: Transfer)
    requires Grows(a, b) && WasSent(a, x)
    ensures WasSent(b, x)
  {
    var g: nat, t: nat :| SentAt(a, x, g, t);
    KeyOfSame(a[g], b[g], t);
    assert SentAt(b, x, g, t);
  }

  lemma IssuedGrows(a: seq<Session>, b: seq<Session>, d: Distribution)
    requires Grows(a, b) && WasIssued(a, d)
    ensures WasIssued(b, d)
  {
    var g: nat, k: nat :| IssuedAt(a, d, g, k);
    assert IssuedAt(b, d, g, k);
  }

  lemma InstanceGrows(a: seq<Session>, b: seq<Session>, n: Instance, s: SenderKeyState)
    requires Grows(a, b) && InstanceOk(a, n, s)
    ensures InstanceOk(b, n, s)
  {
  }

  lemma MarkedGrows(a: seq<Session>, b: seq<Session>, n: Instance, x: Acceptance)
    requires Grows(a, b) && MarkedIn(a, n, x)
    ensures MarkedIn(b, n, x)
  {
  }

  lemma LoggedGrows(a: seq<Session>, b: seq<Session>, n: Instance, id: nat, t: nat, accepted: seq<Acceptance>)
    requires Grows(a, b) && LoggedFor(a, n, id, t, accepted)
    ensures LoggedFor(b, n, id, t, accepted)
  {
  }

  /** The receiver's side of the invariant survives whatever the sender does. */
  lemma SenderStep(w: World, w': World, h: History, sessions: seq<Session>)
    requires Inv(w, h) && Grows(h.sessions, sessions)
    requires w' == w.(sender := w'.sender, issued := w'.issued, sent := w'.sent, nextKey := w'.nextKey)
    requires SessionsOk(sessions, w'.nextKey) && SenderOk(sessions, w'.sender)
    requires w.issued <= w'.issued && w.sent <= w'.sent && DistinctKeys(w'.sent)
    requires forall i :: |w.issued| <= i < |w'.issued| ==> WasIssued(sessions, w'.issued[i])
    requires forall i :: |w.sent| <= i < |w'.sent| ==> WasSent(sessions, w'.sent[i])
    ensures Inv(w', h.(sessions := sessions))
  {
    hide WasIssued, WasSent, SenderOk, SessionsOk, Grows, InstanceOk, MarkedIn, LoggedFor;
    var h' := h.(sessions := sessions);
    forall i | 0 <= i < |w.issued|
      ensures WasIssued(sessions, w'.issued[i])
    {
      IssuedGrows(h.sessions, sessions, w.issued[i]);
    }
    forall i | 0 <= i < |w.sent|
      ensures WasSent(sessions, w'.sent[i])
    {
      SentGrows(h.sessions, sessions, w.sent[i]);
    }
    forall i | 0 <= i < |w.receiver|
      ensures InstanceOk(sessions, h'.instances[i], w'.receiver[i])
    {
      InstanceGrows(h.sessions, sessions, h.instances[i], w.receiver[i]);
    }
    forall k, i | 0 <= k < |w.accepted| && 0 <= i < |w.ids| && w.ids[i] == w.accepted[k].install
      ensures MarkedIn(sessions, h'.instances[i], w'.accepted[k])
    {
      MarkedGrows(h.sessions, sessions, h.instances[i], w.accepted[k]);
    }
    forall i, t: nat | 0 <= i < |w.ids| && t in h.instances[i].taken && t >= h.instances[i].start
      ensures LoggedFor(sessions, h'.instances[i], w'.ids[i], t, w'.accepted)
    {
      LoggedGrows(h.sessions, sessions, h.instances[i], w.ids[i], t, w.accepted);
    }
  }

  // ----- steps of the sender

  lemma CreateKeepsInv(w: World, h: History, keyId: u32) returns (h': History)
    requires Inv(w, h)
    ensures Inv(Step(w, Create(keyId, true)), h')
  {
    hide WasIssued, WasSent, LogOk, SpentLogged, InstanceOk;
    var w' := Step(w, Create(keyId, true));
    if w.sender == [] {
      var sessions := h.sessions + [Session(keyId, w.nextKey, 0)];
      SenderStep(w, w', h, sessions);
      h' := h.(sessions := sessions);
    } else {
      SenderStep(w, w', h, h.sessions);
      h' := h.(sessions := h.sessions);
    }
  }

  lemma AnnounceKeepsInv(w: World, h: History)
    requires Inv(w, h)
    ensures Inv(Step(w, Announce), h)
  {
    hide WasSent, LogOk, SpentLogged, InstanceOk;
    var w' := Step(w, Announce);
    if w.sender != [] {
      var last := |h.sessions| - 1;
      assert IssuedAt(h.sessions, Distribute(w.sender).value, last, h.sessions[last].count);
      assert WasIssued(h.sessions, Distribute(w.sender).value);
      SenderStep(w, w', h, h.sessions);
      assert h.(sessions := h.sessions) == h;
    }
  }

  lemma NewKeyDistinct(w: World, h: History, x: Transfer, g: nat)
    requires Inv(w, h) && g < |h.sessions|
    requires x.message.content.body.GroupEncrypted?
    requires x.message.content.body.key == KeyOf(h.sessions[g], h.sessions[g].count).material.groupCipherKey
    ensures DistinctKeys(w.sent + [x])
  {
    forall i | 0 <= i < |w.sent|
      ensures w.sent[i].message.content.body.key != x.message.content.body.key
    {
      assert WasSent(h.sessions, w.sent[i]);
      var g': nat, t': nat :| SentAt(h.sessions, w.sent[i], g', t');
      if w.sent[i].message.content.body.key == x.message.content.body.key {
        CipherKeyUnique(h.sessions, w.nextKey, g, h.sessions[g].count, g', t');
      }
    }
  }

  lemma SendKeepsInv(w: World, h: History, plaintext: Plaintext) returns (h': History)
    requires Inv(w, h)
    ensures Inv(Step(w, Send(plaintext, true)), h')
  {
    hide WasIssued, LogOk, SpentLogged, InstanceOk;
    h' := h;
    var w' := Step(w, Send(plaintext, true));
    if w.sender != [] {
      var last := |h.sessions| - 1;
      var s := h.sessions[last];
      var sessions := h.sessions[last := s.(count := s.count + 1)];
      NextChainKeyAt(GroupProfile, Base(s), s.count);
      var x := w'.sent[|w.sent|];
      KeyOfSame(s, sessions[last], s.count);
      assert SentAt(sessions, x, last, s.count);
      assert WasSent(sessions, x);
      NewKeyDistinct(w, h, x, last);
      SenderStep(w, w', h, sessions);
      h' := h.(sessions := sessions);
    }
  }

  // ----- steps of the receiver

  function Below(k: nat): (s: set<nat>)
    ensures forall t: nat :: t in s <==> t < k
  {
    if k == 0 then {} else Below(k - 1) + {k - 1}
  }

  /** A freshly installed state: everything before its start is out of reach. */
  lemma StartedInstance(sessions: seq<Session>, d: Distribution, g: nat, k: nat) returns (n: Instance)
    requires IssuedAt(sessions, d, g, k)
    ensures n.session == g && n.start == n.m == k && n.steps == []
    ensures forall t :: t in n.taken ==> t < k
    ensures InstanceOk(sessions, n, NewState(d.keyId, d.iteration, d.chainKey, d.signingPublic, None))
  {
    n := Instance(g, k, k, [], Below(k));
  }

  lemma InstallFinds(r: SenderKeyRecord, d: Distribution, keyId: u32)
    requires |r| <= MAX_STATES
    ensures
      var i := FindState(Install(r, d), keyId);
      if d.keyId == keyId then i == 0
      else i == |Install(r, d)| || (i > 0 && FindState(r, keyId) == i - 1)
  {
    var r' := Install(r, d);
    var i := FindState(r', keyId);
    var j := FindState(r, keyId);
    if d.keyId != keyId {
      assert forall k :: 0 < k < |r'| ==> r'[k] == r[k - 1];
      assert j < |r| && j + 1 < |r'| ==> r'[j + 1].keyId == keyId;
      assert i < |r'| ==> r[i - 1].keyId == keyId;
    }
  }

  /** The instances behind the receiver's states after installing `n` in front. */
  function WithInstance(instances: seq<Instance>, n: Instance): seq<Instance> {
    var all := [n] + instances;
    if |all| > MAX_STATES then all[..MAX_STATES] else all
  }

  /** What is behind the new state was behind the old ones, one place earlier. */
  lemma InstallShifts(w: World, h: History, d: Distribution, n: Instance)
    requires |h.instances| == |w.receiver| == |w.ids| <= MAX_STATES
    ensures
      var w' := InstallStep(w, d);
      var instances := WithInstance(h.instances, n);
      && |instances| == |w'.receiver| == |w'.ids| > 0 && instances[0] == n && w'.ids[0] == w.installs
      && forall i :: 0 < i < |w'.ids| ==> w'.ids[i] == w.ids[i - 1] && instances[i] == h.instances[i - 1]
  {
  }

  lemma InstallKeepsLog(w: World, h: History, d: Distribution, n: Instance)
    requires Inv(w, h)
    requires n.session < |h.sessions| && forall t :: t in n.taken ==> t < n.start
    ensures
      var h' := h.(instances := WithInstance(h.instances, n));
      LogOk(h', InstallStep(w, d)) && SpentLogged(h', InstallStep(w, d))
  {
    hide MarkedIn, LoggedFor, WasSent, WasIssued, InstanceOk, SessionsOk, SenderOk, DistinctKeys, NotNewer;
    hide WithInstance;
    var w' := InstallStep(w, d);
    InstallShifts(w, h, d, n);
    forall k | 0 <= k < |w.accepted|
      ensures NotNewer(w.accepted[k], w'.receiver, w'.ids)
    {
      InstallKeepsOrder(w, d, w.accepted[k]);
    }
    hide Install;
  }

  lemma InstallKeepsOrder(w: World, d: Distribution, a: Acceptance)
    requires |w.receiver| == |w.ids| <= MAX_STATES && a.install < w.installs
    requires NotNewer(a, w.receiver, w.ids)
    ensures NotNewer(a, InstallStep(w, d).receiver, InstallStep(w, d).ids)
  {
    InstallFinds(w.receiver, d, a.transfer.message.content.keyId);
  }

  lemma InstallKeepsInv(w: World, h: History, index: nat) returns (h': History)
    requires Inv(w, h) && index < |w.issued|
    ensures Inv(InstallStep(w, w.issued[index]), h')
    ensures |h'.instances| > 0 && h'.sessions == h.sessions
    ensures
      var n := h'.instances[0];
      IssuedAt(h.sessions, w.issued[index], n.session, n.start) && n.m == n.start && n.steps == []
  {
    hide LogOk, SpentLogged, WasSent, SessionsOk, SenderOk, InstanceOk;
    var d := w.issued[index];
    assert WasIssued(h.sessions, d);
    var g: nat, k: nat :| IssuedAt(h.sessions, d, g, k);
    var n := StartedInstance(h.sessions, d, g, k);
    h' := h.(instances := WithInstance(h.instances, n));
    InstallKeepsLog(w, h, d, n);
    var w' := InstallStep(w, d);
    forall i | 0 <= i < |w'.receiver|
      ensures InstanceOk(h'.sessions, h'.instances[i], w'.receiver[i])
    {
      if i > 0 {
        assert w'.receiver[i] == w.receiver[i - 1] && h'.instances[i] == h.instances[i - 1];
      }
    }
  }

  /** The cipher key of a step belongs to that step of that session only. */
  lemma CipherKeyUnique(sessions: seq<Session>, nextKey: nat, g: nat, t: nat, g': nat, t': nat)
    requires SessionsOk(sessions, nextKey) && g < |sessions| && g' < |sessions|
    requires KeyOf(sessions[g], t).material.groupCipherKey == KeyOf(sessions[g'], t').material.groupCipherKey
    ensures g == g' && t == t'
  {
    AdvanceInjective(Base(sessions[g]), t, Base(sessions[g']), t');
  }

  /** A verified signature was made by the owner of a session, over exactly this content. */
  lemma SignatureOrigin(w: World, h: History, m: SenderKeyMessage) returns (x: Transfer, g: nat, t: nat)
    requires Inv(w, h) && OnWire(w, m.signature) && m.signature.Signature? && m.signature.content == m.content
    ensures x in w.sent && x.message == m && SentAt(h.sessions, x, g, t)
  {
    hide LogOk, SpentLogged, SenderOk, WasIssued, InstanceOk;
    var j: nat :| j < |w.sent| && w.sent[j].message.signature == m.signature;
    x := w.sent[j];
    assert WasSent(h.sessions, x);
    g, t :| SentAt(h.sessions, x, g, t);
  }

  /** A message that decrypts is the sender's, opened with the sender's key, at an unspent step. */
  lemma AcceptOrigin(w: World, h: History, m: SenderKeyMessage)
    returns (x: Transfer, t: nat, m': nat, steps': seq<nat>)
    requires Inv(w, h) && Possible(w, Receive(m, true, true)) && GroupDecrypt(w.receiver, m).Ok?
    ensures
      var i := FindState(w.receiver, m.content.keyId);
      && i < |w.receiver|
      && var n := h.instances[i];
         && SentAt(h.sessions, x, n.session, t) && x in w.sent
         && x == Transfer(m, GroupDecrypt(w.receiver, m).value.1)
         && t !in n.taken
         && OpenedAt(h.sessions[n.session], Acceptance(x, w.ids[i]), t)
         && InstanceOk(h.sessions, n.(m := m', steps := steps', taken := n.taken + {t}),
                       GroupDecrypt(w.receiver, m).value.0[i])
         && GroupDecrypt(w.receiver, m).value.0 == w.receiver[i := GroupDecrypt(w.receiver, m).value.0[i]]
  {
    hide LogOk, SpentLogged, Take, SenderOk, WasIssued;
    var i := FindState(w.receiver, m.content.keyId);
    var n := h.instances[i];
    var session := h.sessions[n.session];
    assert InstanceOk(h.sessions, n, w.receiver[i]);
    t, m', steps' := TakeTracks(w.receiver[i].window, GroupProfile, Base(session), n.m, n.steps, n.taken,
      m.content.iteration);
    var g, t';
    x, g, t' := SignatureOrigin(w, h, m);
    CipherKeyUnique(h.sessions, w.nextKey, n.session, t, g, t');
  }

  lemma UpdateKeepsFind(r: SenderKeyRecord, i: nat, s: SenderKeyState, keyId: u32)
    requires i < |r| && s.keyId == r[i].keyId
    ensures FindState(r[i := s], keyId) == FindState(r, keyId)
  {
    var a, b := FindState(r, keyId), FindState(r[i := s], keyId);
    assert a < |r| ==> r[i := s][a].keyId == keyId;
    assert b < |r| ==> r[b].keyId == keyId;
  }

  lemma LoggedAfter(sessions: seq<Session>, n: Instance, n': Instance, id: nat, t: nat, accepted: seq<Acceptance>,
                    a: Acceptance)
    requires n'.session == n.session
    requires LoggedFor(sessions, n, id, t, accepted)
    ensures LoggedFor(sessions, n', id, t, accepted + [a])
  {
    var k :| 0 <= k < |accepted| && accepted[k].install == id && OpenedAt(sessions[n.session], accepted[k], t);
    assert (accepted + [a])[k] == accepted[k];
  }

  /** The new acceptance is the first of this message by this installation. */
  lemma AcceptIsNew(w: World, h: History, i: nat, a: Acceptance, t: nat, k: nat)
    requires Inv(w, h) && i < |w.receiver| && i == FindState(w.receiver, a.transfer.message.content.keyId)
    requires a.install == w.ids[i] && t !in h.instances[i].taken
    requires OpenedAt(h.sessions[h.instances[i].session], a, t)
    requires k < |w.accepted| && w.accepted[k].transfer.message == a.transfer.message
    ensures w.accepted[k].install < a.install
  {
    assert NotNewer(w.accepted[k], w.receiver, w.ids);
    assert InstanceOk(h.sessions, h.instances[i], w.receiver[i]);
    if w.accepted[k].install == w.ids[i] {
      var n := h.instances[i];
      assert MarkedIn(h.sessions, n, w.accepted[k]);
      var t': nat :| t' in n.taken && OpenedAt(h.sessions[n.session], w.accepted[k], t');
      CipherKeyUnique(h.sessions, w.nextKey, n.session, t, n.session, t');
    }
  }

  /** The change that accepting `a` at step `t` makes to the receiver and the history. */
  ghost predicate Accepted(w: World, h: History, w': World, h': History, i: nat, a: Acceptance, t: nat) {
    && |h.instances| == |w.receiver| == |w.ids| && i < |w.receiver|
    && |w'.receiver| == |w.receiver| && |h'.instances| == |h.instances|
    && w'.receiver == w.receiver[i := w'.receiver[i]] && w'.receiver[i].keyId == w.receiver[i].keyId
    && w' == w.(receiver := w'.receiver, accepted := w.accepted + [a])
    && h' == h.(instances := h.instances[i := h'.instances[i]])
    && h'.instances[i].session == h.instances[i].session && h'.instances[i].start == h.instances[i].start
    && h'.instances[i].taken == h.instances[i].taken + {t}
    && a.install == w.ids[i] && h.instances[i].session < |h.sessions|
    && OpenedAt(h.sessions[h.instances[i].session], a, t)
  }

  lemma AcceptKeepsOrder(w: World, h: History, w': World, h': History, i: nat, a: Acceptance, t: nat, k: nat)
    requires Accepted(w, h, w', h', i, a, t) && i == FindState(w.receiver, a.transfer.message.content.keyId)
    requires forall j :: 0 <= j < |w.accepted| ==> NotNewer(w.accepted[j], w.receiver, w.ids)
    requires k < |w'.accepted|
    ensures NotNewer(w'.accepted[k], w'.receiver, w'.ids)
  {
    hide OpenedAt;
    UpdateKeepsFind(w.receiver, i, w'.receiver[i], w'.accepted[k].transfer.message.content.keyId);
    if k < |w.accepted| {
      assert NotNewer(w.accepted[k], w.receiver, w.ids);
    }
  }

  lemma AcceptKeepsMarks(w: World, h: History, w': World, h': History, i: nat, a: Acceptance, t: nat, k: nat, j: nat)
    requires Accepted(w, h, w', h', i, a, t) && Decreasing(w.ids, w.installs)
    requires k < |w'.accepted| && j < |w'.ids| && w'.ids[j] == w'.accepted[k].install
    requires k < |w.accepted| ==> MarkedIn(h.sessions, h.instances[j], w.accepted[k])
    ensures MarkedIn(h'.sessions, h'.instances[j], w'.accepted[k])
  {
  }

  lemma AcceptKeepsSpent(w: World, h: History, w': World, h': History, i: nat, a: Acceptance, t: nat, j: nat, u: nat)
    requires Accepted(w, h, w', h', i, a, t)
    requires j < |w'.ids| && u in h'.instances[j].taken && u >= h'.instances[j].start
    requires u in h.instances[j].taken ==> LoggedFor(h.sessions, h.instances[j], w.ids[j], u, w.accepted)
    ensures LoggedFor(h'.sessions, h'.instances[j], w'.ids[j], u, w'.accepted)
  {
    hide OpenedAt, LoggedFor;
    if j == i && u == t {
      LogsNew(h.sessions, h'.instances[i], w.accepted, a, t);
    } else {
      LoggedAfter(h.sessions, h.instances[j], h'.instances[j], w.ids[j], u, w.accepted, a);
    }
  }

  lemma AcceptKeepsLog(w: World, h: History, w': World, h': History, i: nat, a: Acceptance, t: nat)
    requires Inv(w, h) && Accepted(w, h, w', h', i, a, t)
    requires i == FindState(w.receiver, a.transfer.message.content.keyId)
    requires a.transfer in w.sent && t !in h.instances[i].taken
    ensures LogOk(h', w') && SpentLogged(h', w')
  {
    hide OpenedAt, InstanceOk, SessionsOk, SenderOk, WasSent, WasIssued, MarkedIn, LoggedFor, NotNewer, DistinctKeys;
    forall k | 0 <= k < |w.accepted| && w.accepted[k].transfer.message == a.transfer.message
      ensures w.accepted[k].install < a.install
    {
      AcceptIsNew(w, h, i, a, t, k);
    }
    forall k | 0 <= k < |w'.accepted|
      ensures NotNewer(w'.accepted[k], w'.receiver, w'.ids)
    {
      AcceptKeepsOrder(w, h, w', h', i, a, t, k);
    }
    forall k, j | 0 <= k < |w'.accepted| && 0 <= j < |w'.ids| && w'.ids[j] == w'.accepted[k].install
      ensures MarkedIn(h'.sessions, h'.instances[j], w'.accepted[k])
    {
      AcceptKeepsMarks(w, h, w', h', i, a, t, k, j);
    }
    forall j, u: nat | 0 <= j < |w'.ids| && u in h'.instances[j].taken && u >= h'.instances[j].start
      ensures LoggedFor(h'.sessions, h'.instances[j], w'.ids[j], u, w'.accepted)
    {
      AcceptKeepsSpent(w, h, w', h', i, a, t, j, u);
    }
  }

  lemma LogsNew(sessions: seq<Session>, n: Instance, accepted: seq<Acceptance>, a: Acceptance, t: nat)
    requires n.session < |sessions| && OpenedAt(sessions[n.session], a, t)
    ensures LoggedFor(sessions, n, a.install, t, accepted + [a])
  {
    assert (accepted + [a])[|accepted|] == a;
  }

  lemma ReceiveKeepsInv(w: World, h: History, m: SenderKeyMessage) returns (h': History)
    requires Inv(w, h) && Possible(w, Receive(m, true, true))
    ensures Inv(ReceiveStep(w, m), h')
  {
    hide LogOk, SpentLogged, GroupDecrypt, InstanceOk, OpenedAt, SessionsOk, SenderOk, WasSent, WasIssued, SentAt;
    h' := h;
    var result := GroupDecrypt(w.receiver, m);
    if result.Ok? {
      var x, t, m', steps' := AcceptOrigin(w, h, m);
      var i := FindState(w.receiver, m.content.keyId);
      var n := h.instances[i];
      h' := h.(instances := h.instances[i := n.(m := m', steps := steps', taken := n.taken + {t})]);
      var w' := ReceiveStep(w, m);
      SameKeyId(h.sessions, h'.instances[i], w'.receiver[i], n, w.receiver[i]);
      assert Accepted(w, h, w', h', i, Acceptance(x, w.ids[i]), t);
      AcceptKeepsLog(w, h, w', h', i, Acceptance(x, w.ids[i]), t);
    }
  }

  lemma SameKeyId(sessions: seq<Session>, n': Instance, s': SenderKeyState, n: Instance, s: SenderKeyState)
    requires InstanceOk(sessions, n', s') && InstanceOk(sessions, n, s) && n'.session == n.session
    ensures s'.keyId == s.keyId && n.session < |sessions|
  {
  }

  lemma {:induction false} RunKeepsInv(w: World, h: History, events: seq<Event>) returns (h': History)
    requires Inv(w, h) && IsRun(w, events)
    ensures Inv(Final(w, events), h')
    decreases |events|
  {
    h' := h;
    if events != [] {
      if Commits(events[0]) {
        match events[0] {
          case Create(keyId, _) => h' := CreateKeepsInv(w, h, keyId);
          case Reset => SenderStep(w, Step(w, Reset), h, h.sessions);
          case Announce => AnnounceKeepsInv(w, h);
          case Send(plaintext, _) => h' := SendKeepsInv(w, h, plaintext);
          case InstallIssued(index, _) => h' := InstallKeepsInv(w, h, index);
          case Receive(m, _, _) => h' := ReceiveKeepsInv(w, h, m);
        }
      }
      hide Inv, Possible;
      h' := RunKeepsInv(Step(w, events[0]), h', events[1..]);
    }
  }
}
