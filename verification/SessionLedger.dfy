/**
 * One party against any messages whatsoever: over every run that sets up,
 * archives and drops sessions, no message is accepted twice as long as the
 * session that accepted it is held.  A ledger of spent chain steps follows the
 * sessions of the record; a session is known by the secret it was set up from.
 */
module SessionLedger {
  import opened Common
  import opened Terms
  import opened KeyWindow
  import opened Session
  import opened Ratchet
  import opened SessionCipher
  import opened SessionRecord
  import opened SessionBuilder
  import opened RatchetHistory
  import opened RatchetRuns

  // ----- reading key terms

  /** The start of the chain that a chain key was advanced from. */
  function Origin(t: Term): Term {
    if t.Hmac? then Origin(t.key) else t
  }

  lemma {:induction false} OriginOfAdvance(base: Term, n: nat)
    requires !base.Hmac?
    ensures Origin(Advance(base, n)) == base
  {
    if n > 0 {
      OriginOfAdvance(base, n - 1);
    }
  }

  /** The secret at the bottom of a root key or of a chain start. */
  function SecretOf(t: Term): Term {
    if !t.Hkdf? then t else if t.info == WhisperRatchet then SecretOf(t.salt) else t.ikm
  }

  function BaseOf(c: ReceiverChain): Term {
    Origin(c.window.chain.key)
  }

  // ----- the ledger

  /** A step of a chain, spent on a message. */
  datatype Entry = Entry(base: Term, step: nat)

  function MacKeyOf(e: Entry): Term {
    KeyAt(SESSION, e.base, e.step).material.macKey
  }

  ghost function StepsOf(ledger: set<Entry>, base: Term): set<nat> {
    set e | e in ledger && e.base == base :: e.step
  }

  /** Entries of one session. */
  ghost function EntriesOf(ledger: set<Entry>, secret: Term): set<Entry> {
    set e | e in ledger && SecretOf(e.base) == secret
  }

  /** What the window of `c` still hands out has not been spent. */
  ghost predicate ChainKept(c: ReceiverChain, ledger: set<Entry>) {
    && BaseOf(c).Hkdf?
    && exists m: nat, steps: seq<nat> :: WindowKept(c, m, steps, StepsOf(ledger, BaseOf(c)))
  }

  ghost predicate WindowKept(c: ReceiverChain, m: nat, steps: seq<nat>, taken: set<nat>) {
    Tracks(c.window, SESSION, BaseOf(c), m, steps) && Covers(m, steps, taken) && Spent(m, steps, taken)
  }

  predicate Live(x: State) {
    x.rootKey.Some?
  }

  function SessionSecret(x: State): Term
    requires Live(x)
  {
    SecretOf(x.rootKey.value.key)
  }

  /** The chains of a session lie below its root, each deeper than the one before. */
  ghost predicate ChainsBelow(root: Term, chains: seq<ReceiverChain>) {
    && (forall i :: 0 <= i < |chains| ==>
          SecretOf(BaseOf(chains[i])) == SecretOf(root) && Depth(BaseOf(chains[i])) < Depth(root))
    && (forall i, j :: 0 <= i < j < |chains| ==> Depth(BaseOf(chains[i])) < Depth(BaseOf(chains[j])))
  }

  ghost predicate SpentBelow(root: Term, ledger: set<Entry>) {
    forall e | e in ledger && SecretOf(e.base) == SecretOf(root) :: Depth(e.base) < Depth(root)
  }

  /** A state is a session of the current version whose spent steps the ledger has, or no session at all. */
  ghost predicate SessionKept(x: State, ledger: set<Entry>) {
    if !Live(x) then x.senderChain.None? && x.receiverChains == []
    else
      && x.version == CURRENT_VERSION && x.rootKey.value.kdf == CURRENT_VERSION && x.rootKey.value.key.Hkdf?
      && (forall i :: 0 <= i < |x.receiverChains| ==> ChainKept(x.receiverChains[i], ledger))
      && ChainsBelow(x.rootKey.value.key, x.receiverChains)
      && SpentBelow(x.rootKey.value.key, ledger)
  }

  // ----- spending a step

  /** Only the entries of its own secret matter to a session. */
  lemma KeptByOwnEntries(x: State, ledger: set<Entry>, ledger': set<Entry>)
    requires SessionKept(x, ledger)
    requires Live(x) ==> EntriesOf(ledger, SessionSecret(x)) == EntriesOf(ledger', SessionSecret(x))
    ensures SessionKept(x, ledger')
  {
    if Live(x) {
      var own := EntriesOf(ledger, SessionSecret(x));
      forall i | 0 <= i < |x.receiverChains|
        ensures ChainKept(x.receiverChains[i], ledger')
      {
        var c := x.receiverChains[i];
        assert ChainKept(c, ledger);
        OwnSteps(ledger, ledger', SessionSecret(x), BaseOf(c));
      }
      assert forall e :: e in ledger' && SecretOf(e.base) == SessionSecret(x) ==> e in own;
    }
  }

  lemma OwnSteps(ledger: set<Entry>, ledger': set<Entry>, secret: Term, base: Term)
    requires EntriesOf(ledger, secret) == EntriesOf(ledger', secret) && SecretOf(base) == secret
    ensures StepsOf(ledger, base) == StepsOf(ledger', base)
  {
    forall t: nat
      ensures t in StepsOf(ledger, base) <==> t in StepsOf(ledger', base)
    {
      assert Entry(base, t) in ledger <==> Entry(base, t) in EntriesOf(ledger, secret);
      assert Entry(base, t) in ledger' <==> Entry(base, t) in EntriesOf(ledger', secret);
    }
  }

  lemma EntryUnique(a: Entry, b: Entry)
    requires a.base.Hkdf? && b.base.Hkdf? && MacKeyOf(a) == MacKeyOf(b)
    ensures a == b
  {
    MacKeyInjective(a.base, a.step, b.base, b.step);
  }

  /** Only the chain with the base of the new entry has a step more. */
  lemma StepsWith(ledger: set<Entry>, e: Entry, base: Term)
    ensures StepsOf(ledger + {e}, base) == StepsOf(ledger, base) + if base == e.base then {e.step} else {}
  {
    forall t: nat
      ensures t in StepsOf(ledger + {e}, base) <==> t in StepsOf(ledger, base) || (base == e.base && t == e.step)
    {
      if base == e.base && t == e.step {
        assert e in ledger + {e};
      } else if t in StepsOf(ledger, base) {
        assert Entry(base, t) in ledger + {e};
      }
    }
  }

  lemma SameWindow(c: ReceiverChain, ledger: set<Entry>, e: Entry)
    requires ChainKept(c, ledger) && BaseOf(c) != e.base
    ensures ChainKept(c, ledger + {e})
  {
    StepsWith(ledger, e, BaseOf(c));
    assert StepsOf(ledger + {e}, BaseOf(c)) == StepsOf(ledger, BaseOf(c));
  }

  /** Taking a key from a chain spends one step of it, never a spent one. */
  lemma TakeSpends(c: ReceiverChain, ledger: set<Entry>, counter: u32) returns (e: Entry)
    requires ChainKept(c, ledger) && Take(c.window, counter).Ok?
    ensures
      var (window, key) := Take(c.window, counter).value;
      && e.base == BaseOf(c) && e !in ledger
      && key == KeyAt(SESSION, e.base, e.step)
      && BaseOf(c.(window := window)) == BaseOf(c)
      && ChainKept(c.(window := window), ledger + {e})
  {
    var base := BaseOf(c);
    var m, steps :| WindowKept(c, m, steps, StepsOf(ledger, base));
    var t, m', steps' := TakeTracks(c.window, SESSION, base, m, steps, StepsOf(ledger, base), counter);
    e := Entry(base, t);
    var c' := c.(window := Take(c.window, counter).value.0);
    hide Take;
    OriginOfAdvance(base, m');
    StepsWith(ledger, e, base);
    assert WindowKept(c', m', steps', StepsOf(ledger + {e}, base));
  }

  /** The session after a key was taken from its chain `i`. */
  lemma ReadSpends(x: State, ledger: set<Entry>, i: nat, counter: u32) returns (e: Entry)
    requires Live(x) && SessionKept(x, ledger) && i < |x.receiverChains| &&
             Take(x.receiverChains[i].window, counter).Ok?
    ensures
      var (window, key) := Take(x.receiverChains[i].window, counter).value;
      var chains := x.receiverChains[i := x.receiverChains[i].(window := window)];
      && e !in ledger && e.base.Hkdf? && SecretOf(e.base) == SessionSecret(x)
      && key == KeyAt(SESSION, e.base, e.step)
      && SessionKept(x.(receiverChains := chains, pendingPreKey := None), ledger + {e})
  {
    e := TakeSpends(x.receiverChains[i], ledger, counter);
    var window := Take(x.receiverChains[i].window, counter).value.0;
    hide Take;
    var chains := x.receiverChains[i := x.receiverChains[i].(window := window)];
    assert ChainKept(x.receiverChains[i], ledger);
    forall j | 0 <= j < |chains|
      ensures ChainKept(chains[j], ledger + {e}) && BaseOf(chains[j]) == BaseOf(x.receiverChains[j])
    {
      if j != i {
        SameWindow(x.receiverChains[j], ledger, e);
      }
    }
  }

  /** A chain nothing has been taken from. */
  lemma UntouchedChain(theirs: PublicKey, base: Term, ledger: set<Entry>)
    requires base.Hkdf? && StepsOf(ledger, base) == {}
    ensures
      var c := ReceiverChain(theirs, Window(ChainKey(SESSION, base, 0), []));
      BaseOf(c) == base && ChainKept(c, ledger)
  {
    var c := ReceiverChain(theirs, Window(ChainKey(SESSION, base, 0), []));
    assert WindowKept(c, 0, [], {});
  }

  lemma AppendedBelow(root: Term, root': Term, chains: seq<ReceiverChain>, c: ReceiverChain)
    requires ChainsBelow(root, chains)
    requires SecretOf(root') == SecretOf(BaseOf(c)) == SecretOf(root) && Depth(root) < Depth(BaseOf(c)) < Depth(root')
    ensures ChainsBelow(root', chains + [c])
  {
    hide SecretOf, Depth, BaseOf;
  }

  lemma SuffixBelow(root: Term, chains: seq<ReceiverChain>, n: nat)
    requires ChainsBelow(root, chains) && n <= |chains|
    ensures ChainsBelow(root, chains[n..])
  {
    hide SecretOf, Depth, BaseOf;
  }

  lemma AddedKept(chains: seq<ReceiverChain>, theirs: PublicKey, chain: ChainKey, root: Term, root': Term,
                  ledger: set<Entry>)
    requires forall i :: 0 <= i < |chains| ==> ChainKept(chains[i], ledger)
    requires ChainsBelow(root, chains) && ChainKept(ReceiverChain(theirs, Window(chain, [])), ledger)
    requires
      var base := BaseOf(ReceiverChain(theirs, Window(chain, [])));
      SecretOf(root') == SecretOf(base) == SecretOf(root) && Depth(root) < Depth(base) < Depth(root')
    ensures
      var kept := AddReceiverChain(chains, theirs, chain);
      (forall i :: 0 <= i < |kept| ==> ChainKept(kept[i], ledger)) && ChainsBelow(root', kept)
  {
    hide ChainKept, ChainsBelow, SecretOf, Depth, BaseOf;
    var all := chains + [ReceiverChain(theirs, Window(chain, []))];
    AppendedBelow(root, root', chains, all[|chains|]);
    if |all| > MAX_RECEIVER_CHAINS {
      SuffixBelow(root', all, |all| - MAX_RECEIVER_CHAINS);
    }
  }

  /** A ratchet step starts a chain deeper than any the session has had. */
  lemma CreateKeeps(x: State, ledger: set<Entry>, theirs: PublicKey, ours: KeyPair)
    requires Live(x) && SessionKept(x, ledger) && GetOrCreateChain(x, theirs, ours).Ok?
    ensures
      var found := GetOrCreateChain(x, theirs, ours).value.0;
      Live(found) && SessionKept(found, ledger) && SessionSecret(found) == SessionSecret(x)
  {
    if FindChain(x.receiverChains, theirs) == |x.receiverChains| {
      var root := x.rootKey.value.key;
      var (receiverRoot, chain) := CreateChain(x.rootKey.value, theirs, x.senderChain.value.ratchetPair.value.priv);
      var (senderRoot, _) := CreateChain(receiverRoot, theirs, ours.priv);
      assert Depth(chain.key) == Depth(receiverRoot.key) == Depth(root) + 1 && Depth(senderRoot.key) == Depth(root) + 2;
      assert StepsOf(ledger, chain.key) == {};
      UntouchedChain(theirs, chain.key, ledger);
      AddedKept(x.receiverChains, theirs, chain, root, senderRoot.key, ledger);
    }
  }

  /** An accepted message spends a step of the session that accepts it, which was not spent before. */
  lemma DecryptSpends(x: State, ledger: set<Entry>, m: Message, ours: KeyPair) returns (e: Entry)
    requires SessionKept(x, ledger) && DecryptFromState(x, m, ours).Ok?
    ensures Live(x) && e !in ledger && e.base.Hkdf? && SecretOf(e.base) == SessionSecret(x)
    ensures m.tag.Mac? && m.tag.macKey == MacKeyOf(e)
    ensures
      var x' := DecryptFromState(x, m, ours).value.0;
      Live(x') && SessionSecret(x') == SessionSecret(x) && SessionKept(x', ledger + {e})
  {
    var found, i, window, key := DecryptOpens(x, m, ours);
    hide DecryptFromState, GetOrCreateChain, Take;
    CreateKeeps(x, ledger, m.content.ratchetKey, ours);
    hide SessionKept;
    e := ReadSpends(found, ledger, i, m.content.counter);
  }

  // ----- the sessions of a record

  ghost function SecretsOf(sessions: seq<State>): set<Term> {
    set x | x in sessions && Live(x) :: SessionSecret(x)
  }

  ghost predicate DistinctSecrets(sessions: seq<State>) {
    forall i, j :: 0 <= i < j < |sessions| && Live(sessions[i]) && Live(sessions[j]) ==>
      SessionSecret(sessions[i]) != SessionSecret(sessions[j])
  }

  /** The ledger has what the held sessions have spent, and nothing else. */
  ghost predicate AllKept(sessions: seq<State>, ledger: set<Entry>) {
    && (forall x | x in sessions :: SessionKept(x, ledger))
    && DistinctSecrets(sessions)
    && (forall e | e in ledger :: e.base.Hkdf? && SecretOf(e.base) in SecretsOf(sessions))
  }

  /** One session stepped and moved to the front; no secret is lost or gained. */
  lemma SteppedSecrets(before: seq<State>, after: seq<State>, k: nat)
    requires k < |before| && |after| > 0 && after == [after[0]] + RemoveAt(before, k)
    requires Live(after[0]) && Live(before[k]) && SessionSecret(after[0]) == SessionSecret(before[k])
    ensures SecretsOf(after) == SecretsOf(before)
    ensures DistinctSecrets(before) ==> DistinctSecrets(after)
    ensures DistinctSecrets(before) ==>
              forall x | x in after[1..] && Live(x) :: x in before && SessionSecret(x) != SessionSecret(before[k])
  {
    hide SessionSecret;
    forall x | x in after
      ensures x == after[0] || x in before
    {
    }
    forall x | x in before
      ensures x == before[k] || x in after
    {
      var i :| 0 <= i < |before| && before[i] == x;
      if i < k { assert after[i + 1] == x; } else if i > k { assert after[i] == x; }
    }
  }

  lemma OthersKept(x: State, ledger: set<Entry>, e: Entry)
    requires SessionKept(x, ledger) && (Live(x) ==> SecretOf(e.base) != SessionSecret(x))
    ensures SessionKept(x, ledger + {e})
  {
    hide SessionKept;
    if Live(x) {
      assert EntriesOf(ledger + {e}, SessionSecret(x)) == EntriesOf(ledger, SessionSecret(x));
    }
    KeptByOwnEntries(x, ledger, ledger + {e});
  }

  lemma SpendingKeepsAll(before: seq<State>, after: seq<State>, k: nat, ledger: set<Entry>, e: Entry)
    requires AllKept(before, ledger) && k < |before| && |after| > 0 && after == [after[0]] + RemoveAt(before, k)
    requires Live(after[0]) && Live(before[k]) && SessionSecret(after[0]) == SessionSecret(before[k])
    requires SessionKept(after[0], ledger + {e})
    requires e.base.Hkdf? && SecretOf(e.base) == SessionSecret(before[k])
    ensures AllKept(after, ledger + {e}) && SecretsOf(after) == SecretsOf(before)
  {
    hide SessionKept, DistinctSecrets;
    SteppedSecrets(before, after, k);
    assert SessionSecret(before[k]) in SecretsOf(before);
    hide SecretsOf;
    forall x | x in after
      ensures SessionKept(x, ledger + {e})
    {
      if x != after[0] {
        assert x in after[1..];
        assert x in before;
        OthersKept(x, ledger, e);
      }
    }
  }

  /** A message the record accepts spends a new step of the session that becomes current. */
  lemma RecordSpends(r: Record, ledger: set<Entry>, m: Message, supply: nat) returns (e: Entry)
    requires RecordOk(r) && RecordWellTyped(r) && AllKept(Sessions(r), ledger) && DecryptFromRecord(r, m, supply).Ok?
    ensures e !in ledger && e.base.Hkdf? && m.tag.Mac? && m.tag.macKey == MacKeyOf(e)
    ensures
      var r' := DecryptFromRecord(r, m, supply).value.0;
      && AllKept(Sessions(r'), ledger + {e})
      && r'.state.Some? && Live(r'.state.value) && SessionSecret(r'.state.value) == SecretOf(e.base)
      && SecretsOf(Sessions(r')) == SecretsOf(Sessions(r))
  {
    var k := DecryptConserves(r, m, supply);
    var r' := DecryptFromRecord(r, m, supply).value.0;
    var before, after := Sessions(r), Sessions(r');
    hide DecryptFromRecord, DecryptFromState, Copy, Typed, SessionKept, SecretsOf;
    hide DistinctSecrets;
    TypedCopies(before[k]);
    assert before[k] in before;
    hide RecordOk;
    var ours := DrawnFor(r, supply, k);
    e := DecryptSpends(before[k], ledger, m, ours);
    hide AllKept;
    SpendingKeepsAll(before, after, k, ledger, e);
  }

  // ----- starting a session

  /** What the ledger still says about the sessions that are left. */
  ghost function Remaining(ledger: set<Entry>, sessions: seq<State>): set<Entry> {
    set e | e in ledger && SecretOf(e.base) in SecretsOf(sessions)
  }

  lemma {:induction false} PrefixSecrets(sessions: seq<State>, n: nat)
    requires n <= |sessions|
    ensures SecretsOf(sessions[..n]) <= SecretsOf(sessions)
    ensures DistinctSecrets(sessions) ==> DistinctSecrets(sessions[..n])
  {
  }

  lemma FrontedSecrets(x: State, rest: seq<State>)
    requires Live(x)
    ensures SecretsOf([x] + rest) == SecretsOf(rest) + {SessionSecret(x)}
    ensures DistinctSecrets(rest) && SessionSecret(x) !in SecretsOf(rest) ==> DistinctSecrets([x] + rest)
  {
    hide SessionSecret;
    var all := [x] + rest;
    assert forall y :: y in all <==> y == x || y in rest;
    if DistinctSecrets(rest) && SessionSecret(x) !in SecretsOf(rest) {
      forall i, j | 0 <= i < j < |all| && Live(all[i]) && Live(all[j])
        ensures SessionSecret(all[i]) != SessionSecret(all[j])
      {
        assert all[j] == rest[j - 1] && (i > 0 ==> all[i] == rest[i - 1]);
        assert SessionSecret(all[j]) in SecretsOf(rest);
      }
    }
  }

  lemma LeftKept(x: State, ledger: set<Entry>, sessions: seq<State>)
    requires SessionKept(x, ledger) && x in sessions
    ensures SessionKept(x, Remaining(ledger, sessions))
  {
    hide SessionKept, SessionSecret;
    if Live(x) {
      assert SessionSecret(x) in SecretsOf(sessions);
      assert EntriesOf(Remaining(ledger, sessions), SessionSecret(x)) == EntriesOf(ledger, SessionSecret(x));
    }
    KeptByOwnEntries(x, ledger, Remaining(ledger, sessions));
  }

  /** A session with a new secret in front of the newest `n` others. */
  lemma StartingKeepsAll(before: seq<State>, n: nat, x: State, ledger: set<Entry>)
    requires AllKept(before, ledger) && n <= |before|
    requires Live(x) && SessionKept(x, {})
    requires SessionSecret(x) !in SecretsOf(before)
    ensures
      var after := [x] + before[..n];
      AllKept(after, Remaining(ledger, after))
  {
    hide SessionKept, SessionSecret;
    var after := [x] + before[..n];
    var ledger' := Remaining(ledger, after);
    PrefixSecrets(before, n);
    FrontedSecrets(x, before[..n]);
    hide SecretsOf, DistinctSecrets;
    assert EntriesOf(ledger', SessionSecret(x)) == {};
    KeptByOwnEntries(x, {}, ledger');
    forall y | y in after
      ensures SessionKept(y, ledger')
    {
      if y != x {
        assert y in before;
        LeftKept(y, ledger, after);
      }
    }
  }

  // ----- the sessions that are started

  lemma BobKept(p: BobParameters)
    ensures
      var x := BobInitialize(FRESH, p);
      Live(x) && SessionKept(x, {}) && SessionSecret(x) == BobSecret(p)
  {
  }

  lemma AliceKept(p: AliceParameters, sending: KeyPair)
    ensures
      var x := AliceInitialize(FRESH, p, sending);
      Live(x) && SessionKept(x, {}) && SessionSecret(x) == AliceSecret(p)
  {
    var secret := AliceSecret(p);
    assert StepsOf({}, DerivedChain(secret).key) == {};
    UntouchedChain(p.theirRatchetKey, DerivedChain(secret).key, {});
    hide ChainKept;
    var x := AliceInitialize(FRESH, p, sending);
    assert SecretOf(DerivedRoot(secret).key) == SecretOf(DerivedChain(secret).key) == secret;
    assert Depth(DerivedRoot(secret).key) == Depth(DerivedChain(secret).key) == 0;
    assert x.rootKey.value.key.salt == DerivedRoot(secret).key;
    assert x.receiverChains == [ReceiverChain(p.theirRatchetKey, Window(DerivedChain(secret), []))];
  }

  /** Sessions that agree in root key, chains and version are kept alike. */
  lemma SameKept(x: State, y: State, ledger: set<Entry>)
    requires SessionKept(x, ledger)
    requires y.version == x.version && y.rootKey == x.rootKey && y.receiverChains == x.receiverChains
    requires y.senderChain.None? <==> x.senderChain.None?
    ensures SessionKept(y, ledger)
  {
  }

  // ----- runs

  ghost predicate StoreKept(s: Store, ledger: set<Entry>) {
    StoreOk(s) && AllKept(Sessions(Load(s)), ledger)
  }

  /** The parameters of the session that a key exchange message would start. */
  function Answer(s: Store, e: Event): Option<SymmetricParameters>
    requires e.ExchangeEvent?
  {
    if e.exchange.initiate || AwaitsResponse(Load(s), e.exchange)
    then Some(ExchangeParameters(AnsweringKeys(s, e.exchange, e.base, e.ratchet), e.exchange)) else None
  }

  /** What a session is set up from. */
  datatype Setup =
    | ByMessage(bob: BobParameters)
    | ByBundle(alice: AliceParameters)
    | ByExchange(symmetric: SymmetricParameters)

  function SetupSecret(o: Setup): Term {
    match o
    case ByMessage(p) => BobSecret(p)
    case ByBundle(p) => AliceSecret(p)
    case ByExchange(p) => SymmetricSecret(p)
  }

  /** The set-up of the session that the event would start. */
  function StartedSetup(s: Store, e: Event): Option<Setup> {
    match e
    case BundleEvent(b, base, _) => Some(ByBundle(AliceParametersOf(s, b, base)))
    case PreKeyEvent(c, _) =>
      if Parses(c) && KeysHeld(s, c) && !HasSessionState(Load(s), c.version, c.baseKey)
      then Some(ByMessage(BobParametersOf(s, c))) else None
    case ExchangeEvent(_, _, _, _) =>
      var p := Answer(s, e);
      if p.Some? then Some(ByExchange(p.value)) else None
    case _ => None
  }

  /** No session is started from a secret that a held session was started from. */
  ghost predicate Fair(s: Store, e: Event) {
    && Fresh(s, e)
    && (StartedSetup(s, e).Some? ==> SetupSecret(StartedSetup(s, e).value) !in SecretsOf(Sessions(Load(s))))
  }

  ghost predicate IsFairRun(s: Store, run: seq<(Event, Verdicts)>)
    decreases |run|
  {
    run != [] ==> Fair(s, run[0].0) && IsFairRun(Step(s, run[0].0, run[0].1), run[1..])
  }

  /** The sessions once `x` is put in front of what is kept of the others. */
  lemma StartedSessions(s: Store, x: State) returns (n: nat)
    requires StoreOk(s)
    ensures n <= |Sessions(Load(s))|
    ensures Sessions(Opened(Load(s)).(state := Some(x))) == [x] + Sessions(Load(s))[..n]
  {
    LoadOk(s);
    var r := Load(s);
    hide RecordOk;
    n := if |Sessions(r)| > ARCHIVED_STATES_MAX_LENGTH then ARCHIVED_STATES_MAX_LENGTH else |Sessions(r)|;
    if r.isFresh {
      n := 0;
    }
  }

  lemma StartKeepsAll(s: Store, ledger: set<Entry>, x: State)
    requires StoreKept(s, ledger)
    requires Live(x) && SessionKept(x, {})
    requires SessionSecret(x) !in SecretsOf(Sessions(Load(s)))
    ensures
      var after := Sessions(Opened(Load(s)).(state := Some(x)));
      AllKept(after, Remaining(ledger, after))
  {
    hide AllKept, SessionKept, SessionSecret, Opened, StoreOk, Remaining;
    var n := StartedSessions(s, x);
    StartingKeepsAll(Sessions(Load(s)), n, x, ledger);
  }

  lemma ReceivedKept(s: Store, c: Ciphertext)
    requires Parses(c) && KeysHeld(s, c)
    ensures
      var x := ReceivedSession(s, c, FRESH);
      Live(x) && SessionKept(x, {}) && SessionSecret(x) == BobSecret(BobParametersOf(s, c))
  {
    var p := BobParametersOf(s, c);
    var x := ReceivedSession(s, c, FRESH);
    BobKept(p);
    SameKept(BobInitialize(FRESH, p), x, {});
  }

  /** Setting up the session of a pre-key message. */
  lemma SetUpKeeps(s: Store, c: Ciphertext, ledger: set<Entry>) returns (ledger': set<Entry>)
    requires StoreKept(s, ledger) && Parses(c) && SetUpFromMessage(s, Load(s), c).Ok? && Fair(s, PreKeyEvent(c, 0))
    ensures
      var after := Sessions(SetUpFromMessage(s, Load(s), c).value.0);
      AllKept(after, ledger') && Remaining(ledger, after) <= ledger' <= ledger
  {
    hide AllKept, StoreOk, HasSessionState, ReceivedSession;
    ledger' := ledger;
    if !HasSessionState(Load(s), c.version, c.baseKey) {
      ReceivedKept(s, c);
      var x := ReceivedSession(s, c, FRESH);
      StartKeepsAll(s, ledger, x);
      ledger' := Remaining(ledger, Sessions(Opened(Load(s)).(state := Some(x))));
    }
  }

  /** The ledger after a step: complete, and with all it had about the sessions still held. */
  ghost predicate Carried(ledger: set<Entry>, ledger': set<Entry>, s': Store) {
    StoreKept(s', ledger') && Remaining(ledger, Sessions(Load(s'))) <= ledger'
  }

  /** Accepting `m` put the new entry `e` into the ledger, for the session that is now current. */
  ghost predicate Accounted(m: Message, e: Entry, ledger: set<Entry>, ledger': set<Entry>, s': Store) {
    && e !in ledger && e in ledger' && e.base.Hkdf?
    && m.tag.Mac? && m.tag.macKey == MacKeyOf(e)
    && Load(s').state.Some? && Live(Load(s').state.value) && SessionSecret(Load(s').state.value) == SecretOf(e.base)
  }

  lemma StoredSessions(s: Store, r: Record)
    requires s.record == Some(r)
    ensures Sessions(Load(s)) == Sessions(r) && Load(s).state == r.state
  {
  }

  /** A message accepted by the record `r`, which is then stored. */
  lemma DeliveryCarries(r: Record, ledger: set<Entry>, ledger1: set<Entry>, m: Message, supply: nat, s': Store)
    returns (e: Entry)
    requires RecordOk(r) && RecordWellTyped(r) && DecryptFromRecord(r, m, supply).Ok?
    requires AllKept(Sessions(r), ledger1) && Remaining(ledger, Sessions(r)) <= ledger1 <= ledger
    requires s'.record == Some(DecryptFromRecord(r, m, supply).value.0) && StoreOk(s')
    ensures Carried(ledger, ledger1 + {e}, s') && Accounted(m, e, ledger, ledger1 + {e}, s')
  {
    hide RecordOk, RecordWellTyped, DecryptFromRecord, AllKept, StoreOk, SessionSecret, MacKeyOf;
    e := RecordSpends(r, ledger1, m, supply);
    var r' := DecryptFromRecord(r, m, supply).value.0;
    StoredSessions(s', r');
    assert SessionSecret(r'.state.value) in SecretsOf(Sessions(r')) by { assert Sessions(r')[0] == r'.state.value; }
    hide SecretsOf, Load;
    assert e in ledger ==> e in Remaining(ledger, Sessions(r));
  }

  lemma PreKeyCarries(s: Store, c: Ciphertext, supply: nat, v: Verdicts, ledger: set<Entry>)
    returns (ledger': set<Entry>, e: Entry)
    requires StoreKept(s, ledger) && Parses(c) && Fair(s, PreKeyEvent(c, supply))
    ensures
      var (s', result) := DecryptPreKeyMessage(s, c, supply, v);
      && Carried(ledger, ledger', s')
      && (result.Ok? ==> Accounted(c.message, e, ledger, ledger', s'))
  {
    hide AllKept, StoreOk, RecordOk, RecordWellTyped, DecryptFromRecord, SetUpFromMessage, Accounted, HasSessionState;
    var processed := ProcessPreKeyMessage(s, Load(s), c, v);
    var s' := DecryptPreKeyMessage(s, c, supply, v).0;
    PreKeyKeepsStore(s, c, supply, v);
    ledger', e := ledger, Entry(Zeros, 0);
    if processed.Ok? {
      var r := processed.value.0;
      ProcessKeepsRecord(s, c, v);
      WellTypedRecord(r);
      if DecryptFromRecord(r, c.message, supply).Ok? && v.callbackOk && v.storeOk {
        var ledger1 := SetUpKeeps(s, c, ledger);
        e := DeliveryCarries(r, ledger, ledger1, c.message, supply, s');
        ledger' := ledger1 + {e};
      }
    }
  }

  lemma SignalCarries(s: Store, m: Message, supply: nat, v: Verdicts, ledger: set<Entry>)
    returns (ledger': set<Entry>, e: Entry)
    requires StoreKept(s, ledger)
    ensures
      var (s', result) := DecryptSignalMessage(s, m, supply, v);
      && Carried(ledger, ledger', s')
      && (result.Ok? ==> Accounted(m, e, ledger, ledger', s'))
  {
    hide AllKept, StoreOk, RecordOk, RecordWellTyped, DecryptFromRecord, Accounted;
    var s' := DecryptSignalMessage(s, m, supply, v).0;
    SignalKeepsStore(s, m, supply, v);
    LoadOk(s);
    ledger', e := ledger, Entry(Zeros, 0);
    if s.record.Some? && DecryptFromRecord(Load(s), m, supply).Ok? && v.callbackOk && v.storeOk {
      e := DeliveryCarries(Load(s), ledger, ledger, m, supply, s');
      ledger' := ledger + {e};
    }
  }

  // ----- the other events

  /** A new session in the store. */
  lemma StartedCarries(s: Store, x: State, ledger: set<Entry>, s': Store)
    requires StoreKept(s, ledger)
    requires Live(x) && SessionKept(x, {})
    requires SessionSecret(x) !in SecretsOf(Sessions(Load(s)))
    requires s'.record == Some(Opened(Load(s)).(state := Some(x))) && StoreOk(s')
    ensures Carried(ledger, Remaining(ledger, Sessions(Load(s'))), s')
  {
    hide AllKept, StoreOk, SessionKept, SessionSecret, Opened, Remaining, SecretsOf;
    StartKeepsAll(s, ledger, x);
    StoredSessions(s', Opened(Load(s)).(state := Some(x)));
  }

  lemma BundleCarries(s: Store, b: Bundle, base: KeyPair, ratchet: KeyPair, v: Verdicts, ledger: set<Entry>)
    returns (ledger': set<Entry>)
    requires StoreKept(s, ledger) && Fair(s, BundleEvent(b, base, ratchet))
    ensures Carried(ledger, ledger', ProcessBundle(s, b, base, ratchet, v))
  {
    hide AllKept, StoreOk, SessionKept, AliceInitialize, SecretsOf, Opened;
    BundleKeepsStore(s, b, base, ratchet, v);
    var s' := ProcessBundle(s, b, base, ratchet, v);
    ledger' := ledger;
    if s'.record != s.record {
      var p := AliceParametersOf(s, b, base);
      OpenedFresh(s);
      AliceKept(p, ratchet);
      var x := s'.record.value.state.value;
      SameKept(AliceInitialize(FRESH, p, ratchet), x, {});
      StartedCarries(s, x, ledger, s');
      ledger' := Remaining(ledger, Sessions(Load(s')));
    }
  }

  lemma SymmetricKept(p: SymmetricParameters, sending: KeyPair)
    ensures
      var x := SymmetricInitialize(FRESH, p, sending);
      Live(x) && SessionKept(x, {}) && SessionSecret(x) == SymmetricSecret(p)
  {
    hide SessionKept, AliceInitialize, BobInitialize, SessionSecret;
    AliceKept(AsAlice(p), sending);
    BobKept(AsBob(p));
  }

  lemma ExchangeCarries(s: Store, e: Event, v: Verdicts, ledger: set<Entry>) returns (ledger': set<Entry>)
    requires StoreKept(s, ledger) && e.ExchangeEvent? && Fair(s, e)
    ensures Carried(ledger, ledger', ProcessKeyExchange(s, e.exchange, e.base, e.ratchet, e.sending, v).0)
  {
    hide AllKept, StoreOk, SessionKept, SymmetricInitialize, Opened, SessionSecret, SecretsOf, SymmetricSecret;
    ExchangeKeepsStore(s, e.exchange, e.base, e.ratchet, e.sending, v);
    var s' := ProcessKeyExchange(s, e.exchange, e.base, e.ratchet, e.sending, v).0;
    ledger' := ledger;
    if s'.record != s.record {
      OpenedFresh(s);
      var p := ExchangeParameters(AnsweringKeys(s, e.exchange, e.base, e.ratchet), e.exchange);
      SymmetricKept(p, e.sending);
      StartedCarries(s, SymmetricInitialize(FRESH, p, e.sending), ledger, s');
      ledger' := Remaining(ledger, Sessions(Load(s')));
    }
  }

  /** The current session is replaced by one with the same keys to receive. */
  lemma ReplacedCarries(s: Store, x: State, ledger: set<Entry>, s': Store)
    requires StoreKept(s, ledger) && Load(s).state.Some?
    requires
      var was := Load(s).state.value;
      && x.version == was.version && x.rootKey == was.rootKey && x.receiverChains == was.receiverChains
      && (x.senderChain.None? <==> was.senderChain.None?)
    requires s'.record == Some(Load(s).(state := Some(x))) && StoreOk(s')
    ensures Carried(ledger, ledger, s')
  {
    hide StoreOk, SessionKept;
    var before, after := Sessions(Load(s)), Sessions(Load(s'));
    var was, rest := Load(s).state.value, Load(s).previous;
    assert before == [was] + rest && after == [x] + rest;
    assert was in before;
    SameKept(was, x, ledger);
    ReplacedSecrets(was, x, rest);
    hide SecretsOf, DistinctSecrets;
    assert AllKept(after, ledger);
  }

  lemma ReplacedSecrets(x: State, y: State, rest: seq<State>)
    requires y.rootKey == x.rootKey
    ensures SecretsOf([y] + rest) == SecretsOf([x] + rest)
    ensures DistinctSecrets([x] + rest) ==> DistinctSecrets([y] + rest)
  {
    hide SecretOf;
    if Live(x) {
      FrontedSecrets(x, rest);
      FrontedSecrets(y, rest);
    } else {
      assert forall z :: z in [x] + rest && Live(z) <==> z in rest && Live(z);
      assert forall z :: z in [y] + rest && Live(z) <==> z in rest && Live(z);
    }
    var before, after := [x] + rest, [y] + rest;
    assert forall i :: 0 <= i < |after| ==> after[i].rootKey == before[i].rootKey;
  }

  lemma StartCarries(s: Store, sequence: u32, base: KeyPair, ratchet: KeyPair, v: Verdicts, ledger: set<Entry>)
    requires StoreKept(s, ledger)
    ensures Carried(ledger, ledger, StartExchange(s, sequence, base, ratchet, v).0)
  {
    hide AllKept, StoreOk;
    StartKeepsStore(s, sequence, base, ratchet, v);
    var s' := StartExchange(s, sequence, base, ratchet, v).0;
    if s'.record != s.record {
      ReplacedCarries(s, s'.record.value.state.value, ledger, s');
    }
  }

  lemma EncryptCarries(s: Store, plaintext: Plaintext, v: Verdicts, ledger: set<Entry>)
    requires StoreKept(s, ledger)
    ensures Carried(ledger, ledger, EncryptMessage(s, plaintext, v))
  {
    hide StoreOk, SessionKept;
    EncryptKeepsStore(s, plaintext, v);
    var s' := EncryptMessage(s, plaintext, v);
    if s'.record != s.record {
      hide AllKept;
      ReplacedCarries(s, s'.record.value.state.value, ledger, s');
    }
  }

  // ----- at most once

  /**
   * The call succeeds and returns a plaintext.  The decryption callback has seen
   * the plaintext by then; it has seen it also when the store fails afterwards,
   * and sees it again when such a message is delivered again.
   */
  ghost predicate Accepts(s: Store, e: Event, v: Verdicts) {
    match e
    case PreKeyEvent(c, supply) => Parses(c) && DecryptPreKeyMessage(s, c, supply, v).1.Ok?
    case SignalEvent(m, supply) => DecryptSignalMessage(s, m, supply, v).1.Ok?
    case _ => false
  }

  function MessageOf(e: Event): Message
    requires e.PreKeyEvent? || e.SignalEvent?
  {
    match e
    case PreKeyEvent(c, _) => c.message
    case SignalEvent(m, _) => m
  }

  /** Every step carries the ledger on, and every acceptance spends a step that was not spent. */
  lemma StepCarries(s: Store, e: Event, v: Verdicts, ledger: set<Entry>) returns (ledger': set<Entry>, entry: Entry)
    requires StoreKept(s, ledger) && Fair(s, e)
    ensures Carried(ledger, ledger', Step(s, e, v))
    ensures Accepts(s, e, v) ==> Accounted(MessageOf(e), entry, ledger, ledger', Step(s, e, v))
  {
    hide StoreKept, Fair, Carried, Accounted, DecryptPreKeyMessage, DecryptSignalMessage, ProcessBundle;
    hide ProcessKeyExchange;
    hide StartExchange, EncryptMessage;
    ledger', entry := ledger, Entry(Zeros, 0);
    match e {
      case BundleEvent(b, base, ratchet) => ledger' := BundleCarries(s, b, base, ratchet, v, ledger);
      case PreKeyEvent(c, supply) =>
        if Parses(c) {
          ledger', entry := PreKeyCarries(s, c, supply, v, ledger);
        } else {
          NothingCarries(s, ledger);
        }
      case SignalEvent(m, supply) => ledger', entry := SignalCarries(s, m, supply, v, ledger);
      case StartEvent(sequence, base, ratchet) => StartCarries(s, sequence, base, ratchet, v, ledger);
      case ExchangeEvent(_, _, _, _) => ledger' := ExchangeCarries(s, e, v, ledger);
      case EncryptEvent(plaintext) => EncryptCarries(s, plaintext, v, ledger);
    }
  }

  lemma NothingCarries(s: Store, ledger: set<Entry>)
    requires StoreKept(s, ledger)
    ensures Carried(ledger, ledger, s)
  {
  }

  ghost predicate HoldsSecret(s: Store, secret: Term) {
    secret in SecretsOf(Sessions(Load(s)))
  }

  /** The session with this secret is held all along. */
  ghost predicate Retains(s: Store, run: seq<(Event, Verdicts)>, secret: Term)
    decreases |run|
  {
    HoldsSecret(s, secret) && (run != [] ==> Retains(Step(s, run[0].0, run[0].1), run[1..], secret))
  }

  lemma CarriedEntry(ledger: set<Entry>, ledger': set<Entry>, s': Store, e: Entry)
    requires Carried(ledger, ledger', s') && e in ledger && HoldsSecret(s', SecretOf(e.base))
    ensures e in ledger' && StoreKept(s', ledger')
  {
    assert e in Remaining(ledger, Sessions(Load(s')));
  }

  /** Over every run the ledger can be carried on; an entry stays as long as its session is held. */
  lemma {:induction false} RunCarries(s: Store, run: seq<(Event, Verdicts)>, ledger: set<Entry>, kept: set<Entry>)
    returns (ledger': set<Entry>)
    requires StoreKept(s, ledger) && IsFairRun(s, run) && kept <= ledger
    requires forall e | e in kept :: Retains(s, run, SecretOf(e.base))
    ensures StoreKept(Final(s, run), ledger') && kept <= ledger'
    decreases |run|
  {
    hide StoreKept, Step, Fair, SecretsOf, SecretOf, Load;
    ledger' := ledger;
    if run != [] {
      var s' := Step(s, run[0].0, run[0].1);
      var ledger1, _ := StepCarries(s, run[0].0, run[0].1, ledger);
      forall e | e in kept
        ensures e in ledger1
      {
        assert Retains(s', run[1..], SecretOf(e.base));
        CarriedEntry(ledger, ledger1, s', e);
      }
      assert StoreKept(s', ledger1) by { CarriedKept(ledger, ledger1, s'); }
      ledger' := RunCarries(s', run[1..], ledger1, kept);
    }
  }

  lemma CarriedKept(ledger: set<Entry>, ledger': set<Entry>, s': Store)
    requires Carried(ledger, ledger', s')
    ensures StoreKept(s', ledger')
  {
  }

  lemma EmptyKept(s: Store)
    requires s.record.None?
    ensures StoreKept(s, {})
  {
    assert Sessions(Load(s)) == [FRESH];
  }

  /** The secret of the current session; any term if there is none. */
  ghost function CurrentSecret(s: Store): Term {
    var r := Load(s);
    if r.state.Some? && Live(r.state.value) then SessionSecret(r.state.value) else Zeros
  }

  /**
   * At most once: after any run, a message is accepted; then, after any run
   * during which the session that accepted it is held, no event accepts that
   * message again, whatever other sessions were started, archived, used or
   * dropped and whatever the network delivered.
   */
  lemma AtMostOnce(s: Store, first: seq<(Event, Verdicts)>, e: Event, v: Verdicts,
                   middle: seq<(Event, Verdicts)>, e': Event, v': Verdicts)
    requires s.record.None?
    requires
      var a := Final(s, first);
      var b := Step(a, e, v);
      var c := Final(b, middle);
      && IsFairRun(s, first) && Fair(a, e) && Accepts(a, e, v)
      && IsFairRun(b, middle) && Fair(c, e') && Accepts(c, e', v')
      && Retains(b, middle, CurrentSecret(b))
    ensures MessageOf(e') != MessageOf(e)
  {
    var a := Final(s, first);
    var b := Step(a, e, v);
    var c := Final(b, middle);
    hide Step, Final, IsFairRun, Fair, StoreKept, Retains, MacKeyOf, Load;
    EmptyKept(s);
    var ledger := RunCarries(s, first, {}, {});
    var ledger1, entry := StepCarries(a, e, v, ledger);
    CarriedKept(ledger, ledger1, b);
    var ledger2 := RunCarries(b, middle, ledger1, {entry});
    var ledger3, entry' := StepCarries(c, e', v', ledger2);
    if MessageOf(e') == MessageOf(e) {
      EntryUnique(entry, entry');
    }
  }

  // ----- when the condition fails

  lemma CurrentAccepts(s: Store, x: State, rest: seq<State>, m: Message, supply: nat, v: Verdicts)
    requires StoreOk(s) && s.record == Some(Record(Some(x), rest, false))
    requires DecryptFromState(x, m, GeneratePair(supply)).Ok? && v.callbackOk && v.storeOk
    ensures
      var (x', plaintext) := DecryptFromState(x, m, GeneratePair(supply)).value;
      var (s', result) := DecryptSignalMessage(s, m, supply, v);
      s' == s.(record := Some(Record(Some(x'), rest, false))) && StoreOk(s') && result == Ok(plaintext)
  {
    SignalKeepsStore(s, m, supply, v);
    LoadOk(s);
    assert Sessions(Load(s))[0] == x;
    TypedCopies(x);
    hide DecryptFromState, Copy, RecordOk, RecordWellTyped;
  }

  /** A session just started accepts everything it opens, accepted before or not. */
  lemma StartedAccepts(s: Store, x: State, s': Store, m: Message, supply: nat, v: Verdicts)
    requires s'.record == Some(Opened(Load(s)).(state := Some(x))) && StoreOk(s')
    requires DecryptFromState(x, m, GeneratePair(supply)).Ok? && v.callbackOk && v.storeOk
    ensures Accepts(s', SignalEvent(m, supply), v)
    ensures DecryptSignalMessage(s', m, supply, v).1 == Ok(DecryptFromState(x, m, GeneratePair(supply)).value.1)
  {
    hide DecryptFromState, StoreOk;
    var s1 := s'.(record := Some(s'.record.value.(isFresh := false)));
    SameOnceLoaded(s', s1, m, supply, v);
    CurrentAccepts(s1, x, s'.record.value.previous, m, supply, v);
  }

  lemma SameOnceLoaded(s: Store, s1: Store, m: Message, supply: nat, v: Verdicts)
    requires s.record.Some? && s1 == s.(record := Some(s.record.value.(isFresh := false)))
    ensures StoreOk(s) ==> StoreOk(s1)
    ensures DecryptSignalMessage(s, m, supply, v).1 == DecryptSignalMessage(s1, m, supply, v).1
  {
    hide DecryptFromRecord, Typed;
    assert Load(s) == Load(s1);
    assert Sessions(s.record.value) == Sessions(s1.record.value);
  }

  /** A message already accepted by a held session opens in a new session only if the secret is that of the held one. */
  lemma ReopensOnlyHeld(x: State, ledger: set<Entry>, sessions: seq<State>, m: Message, entry: Entry, ours: KeyPair)
    requires AllKept(sessions, ledger) && SessionKept(x, {}) && DecryptFromState(x, m, ours).Ok?
    requires entry in ledger && m.tag.Mac? && m.tag.macKey == MacKeyOf(entry)
    ensures Live(x) && SessionSecret(x) == SecretOf(entry.base) && SessionSecret(x) in SecretsOf(sessions)
  {
    hide DecryptFromState, MacKeyOf, SessionKept;
    var e := DecryptSpends(x, {}, m, ours);
    EntryUnique(e, entry);
  }

  /**
   * What a key exchange lets in again.  The session it starts accepts every
   * message it opens; a message that a held session has accepted already is
   * among these only if the exchange is not fair.
   */
  lemma ExchangeReopens(s: Store, e: Event, v: Verdicts, ledger: set<Entry>, m: Message, supply: nat, v': Verdicts)
    requires StoreKept(s, ledger) && e.ExchangeEvent? && Answer(s, e).Some?
    requires v.trusted && v.storeOk && (e.exchange.initiate ==> e.exchange.signatureOk) && v'.callbackOk && v'.storeOk
    requires DecryptFromState(SymmetricInitialize(FRESH, Answer(s, e).value, e.sending), m, GeneratePair(supply)).Ok?
    ensures Accepts(Step(s, e, v), SignalEvent(m, supply), v')
    ensures forall entry | entry in ledger && m.tag.Mac? && m.tag.macKey == MacKeyOf(entry) ::
              !Fair(s, e) && SecretOf(entry.base) == SymmetricSecret(Answer(s, e).value)
  {
    hide StoreOk, SessionKept, SymmetricInitialize, SymmetricSecret, DecryptFromState, Opened, SessionSecret, SecretsOf;
    hide AllKept, MacKeyOf;
    var p := Answer(s, e).value;
    var x := SymmetricInitialize(FRESH, p, e.sending);
    var s' := Step(s, e, v);
    ExchangeKeepsStore(s, e.exchange, e.base, e.ratchet, e.sending, v);
    OpenedFresh(s);
    StateLoaded(s);
    StartedAccepts(s, x, s', m, supply, v');
    SymmetricKept(p, e.sending);
    forall entry | entry in ledger && m.tag.Mac? && m.tag.macKey == MacKeyOf(entry)
      ensures !Fair(s, e) && SecretOf(entry.base) == SymmetricSecret(p)
    {
      ReopensOnlyHeld(x, ledger, Sessions(Load(s)), m, entry, GeneratePair(supply));
    }
  }

  lemma StateLoaded(s: Store)
    requires StoreOk(s)
    ensures Load(s).state.Some?
  {
  }

  /** Two answers with the same keys open the same messages of the peer's first chain. */
  lemma SameAnswerOpens(p: SymmetricParameters, a: KeyPair, b: KeyPair, m: Message, ours: KeyPair)
    requires SymmetricIsAlice(p) ==> m.content.ratchetKey == p.theirRatchetKey
    requires DecryptFromState(SymmetricInitialize(FRESH, p, a), m, ours).Ok?
    ensures
      var again := DecryptFromState(SymmetricInitialize(FRESH, p, b), m, ours);
      again.Ok? && again.value.1 == DecryptFromState(SymmetricInitialize(FRESH, p, a), m, ours).value.1
  {
    hide Take, MacOf, DecryptBody, CreateChain;
  }
}
