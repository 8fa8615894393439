/**
 * A receiving hash chain with its sliding window of skipped message keys.
 * The session code (session_cipher.c, session_state.c) and the group code
 * (group_cipher.c, sender_key_state.c) run the same algorithm over different
 * message-key derivations; `Profile` selects the derivation.
 */
module KeyWindow {
  import opened Common
  import opened Terms

  const MAX_MESSAGE_KEYS: nat := 2000
  const MAX_AHEAD: nat := 2000

  datatype Profile = SessionProfile(kdf: nat) | GroupProfile

  datatype Material =
    | SessionKeys(cipherKey: Term, macKey: Term, iv: Term)
    | GroupKeys(groupIv: Term, groupCipherKey: Term, seed: Term)

  datatype ChainKey = ChainKey(profile: Profile, key: Term, index: u32)

  datatype MessageKey = MessageKey(counter: u32, material: Material)

  datatype Window = Window(chain: ChainKey, skipped: seq<MessageKey>)

  function MaterialOf(profile: Profile, key: Term): Material {
    var seed := Hmac(key, MESSAGE_KEY_SEED);
    match profile
    case SessionProfile(kdf) =>
      SessionKeys(Hkdf(kdf, seed, Zeros, WhisperMessageKeys, 0),
                  Hkdf(kdf, seed, Zeros, WhisperMessageKeys, 1),
                  Hkdf(kdf, seed, Zeros, WhisperMessageKeys, 2))
    case GroupProfile =>
      GroupKeys(Hkdf(3, seed, Zeros, WhisperGroup, 0),
                Hkdf(3, seed, Zeros, WhisperGroup, 1),
                seed)
  }

  function MessageKeyOf(chain: ChainKey): MessageKey {
    MessageKey(chain.index, MaterialOf(chain.profile, chain.key))
  }

  function NextChainKey(chain: ChainKey): ChainKey {
    ChainKey(chain.profile, Hmac(chain.key, CHAIN_KEY_SEED), Increment(chain.index))
  }

  /** Append a key; drop the oldest ones beyond the limit. */
  function AddKey(keys: seq<MessageKey>, key: MessageKey): seq<MessageKey> {
    var all := keys + [key];
    if |all| > MAX_MESSAGE_KEYS then all[|all| - MAX_MESSAGE_KEYS..] else all
  }

  /** Position of the first key with this counter, or the length if there is none. */
  function FindKey(keys: seq<MessageKey>, counter: u32): (i: nat)
    ensures i <= |keys|
    ensures forall j :: 0 <= j < i ==> keys[j].counter != counter
    ensures i < |keys| ==> keys[i].counter == counter
  {
    if keys == [] || keys[0].counter == counter then 0 else 1 + FindKey(keys[1..], counter)
  }

  function RemoveAt<T>(s: seq<T>, i: nat): seq<T>
    requires i < |s|
  {
    s[..i] + s[i + 1..]
  }

  /** Cache the keys below `counter` and advance the chain up to it. */
  function SkipTo(w: Window, counter: u32): Window
    decreases counter - w.chain.index
  {
    if w.chain.index < counter then
      SkipTo(Window(NextChainKey(w.chain), AddKey(w.skipped, MessageKeyOf(w.chain))), counter)
    else
      w
  }

  /** The message key for `counter`, and the window without it. */
  function Take(w: Window, counter: u32): Result<(Window, MessageKey)> {
    if w.chain.index > counter then
      var i := FindKey(w.skipped, counter);
      if i < |w.skipped| then
        Ok((w.(skipped := RemoveAt(w.skipped, i)), w.skipped[i]))
      else
        Err(DuplicateMessage)
    else if counter - w.chain.index > MAX_AHEAD then
      Err(InvalidMessage)
    else
      var ahead := SkipTo(w, counter);
      Ok((Window(NextChainKey(ahead.chain), ahead.skipped), MessageKeyOf(ahead.chain)))
  }

  // ----- the window relative to the start of its chain

  function ChainKeyAt(profile: Profile, base: Term, n: nat): ChainKey {
    ChainKey(profile, Advance(base, n), ToU32(n))
  }

  function KeyAt(profile: Profile, base: Term, n: nat): MessageKey {
    MessageKeyOf(ChainKeyAt(profile, base, n))
  }

  ghost predicate Increasing(steps: seq<nat>) {
    forall i, j :: 0 <= i < j < |steps| ==> steps[i] < steps[j]
  }

  /**
   * The chain stands `m` steps after `base`, and the cached keys are the fresh
   * derivations of the strictly increasing steps `steps`, all below `m`.
   */
  ghost predicate Tracks(w: Window, profile: Profile, base: Term, m: nat, steps: seq<nat>) {
    && w.chain == ChainKeyAt(profile, base, m)
    && |steps| == |w.skipped| <= MAX_MESSAGE_KEYS
    && Increasing(steps)
    && (forall i :: 0 <= i < |steps| ==> steps[i] < m && w.skipped[i] == KeyAt(profile, base, steps[i]))
  }

  /** Every step within the last 2000 is cached or already taken. */
  ghost predicate Covers(m: nat, steps: seq<nat>, taken: set<nat>) {
    forall t: nat {:trigger t in steps} {:trigger t in taken} ::
      m - MAX_MESSAGE_KEYS <= t < m ==> t in steps || t in taken
  }

  /** No taken step is cached or still to come. */
  ghost predicate Spent(m: nat, steps: seq<nat>, taken: set<nat>) {
    forall t :: t in taken ==> t < m && t !in steps
  }

  lemma NextChainKeyAt(profile: Profile, base: Term, n: nat)
    ensures NextChainKey(ChainKeyAt(profile, base, n)) == ChainKeyAt(profile, base, n + 1)
  {
  }

  lemma IncreasingSpread(steps: seq<nat>, i: nat, j: nat)
    requires Increasing(steps) && i <= j < |steps|
    ensures steps[j] >= steps[i] + (j - i)
    decreases j - i
  {
    if i < j {
      IncreasingSpread(steps, i, j - 1);
    }
  }

  /** Adding the step `m` above all of `steps`, and dropping the lowest if there are too many. */
  lemma AddedStep(steps: seq<nat>, m: nat) returns (steps': seq<nat>)
    requires Increasing(steps) && |steps| <= MAX_MESSAGE_KEYS && forall i :: 0 <= i < |steps| ==> steps[i] < m
    ensures Increasing(steps') && |steps'| <= MAX_MESSAGE_KEYS
    ensures steps' == if |steps| == MAX_MESSAGE_KEYS then (steps + [m])[1..] else steps + [m]
    ensures forall t: nat :: m + 1 - MAX_MESSAGE_KEYS <= t && t in steps ==> t in steps'
    ensures m in steps' && forall t :: t in steps' ==> t in steps || t == m
  {
    var all := steps + [m];
    assert Increasing(all) && all[|all| - 1] == m;
    steps' := if |steps| == MAX_MESSAGE_KEYS then all[1..] else all;
    assert steps'[|steps'| - 1] == m;
    if |steps| == MAX_MESSAGE_KEYS {
      IncreasingSpread(all, 0, |all| - 1);
    }
    forall t: nat | m + 1 - MAX_MESSAGE_KEYS <= t && t in steps
      ensures t in steps'
    {
      var i :| 0 <= i < |steps| && steps[i] == t;
      assert all[i] == t && (i > 0 ==> all[1..][i - 1] == t);
    }
  }

  lemma AddedKey(keys: seq<MessageKey>, profile: Profile, base: Term, m: nat, steps: seq<nat>, steps': seq<nat>)
    requires |keys| == |steps| <= MAX_MESSAGE_KEYS
    requires forall i :: 0 <= i < |steps| ==> keys[i] == KeyAt(profile, base, steps[i])
    requires steps' == if |steps| == MAX_MESSAGE_KEYS then (steps + [m])[1..] else steps + [m]
    ensures |AddKey(keys, KeyAt(profile, base, m))| == |steps'|
    ensures forall i :: 0 <= i < |steps'| ==>
            AddKey(keys, KeyAt(profile, base, m))[i] == KeyAt(profile, base, steps'[i])
  {
  }

  /** One round of the skip loop. */
  lemma SkipOne(w: Window, profile: Profile, base: Term, m: nat, steps: seq<nat>, taken: set<nat>)
    returns (steps': seq<nat>)
    requires Tracks(w, profile, base, m, steps)
    requires Covers(m, steps, taken) && Spent(m, steps, taken)
    ensures Tracks(Window(NextChainKey(w.chain), AddKey(w.skipped, MessageKeyOf(w.chain))), profile, base, m + 1,
            steps')
    ensures Covers(m + 1, steps', taken) && Spent(m + 1, steps', taken)
  {
    NextChainKeyAt(profile, base, m);
    steps' := AddedStep(steps, m);
    AddedKey(w.skipped, profile, base, m, steps, steps');
    assert MessageKeyOf(w.chain) == KeyAt(profile, base, m);
    hide Increasing, NextChainKey, MessageKeyOf, KeyAt, AddKey;
    forall i | 0 <= i < |steps'|
      ensures steps'[i] < m + 1
    {
      assert steps'[i] in steps';
    }
  }

  lemma {:induction false} SkipToTracks(w: Window, profile: Profile, base: Term, m: nat, steps: seq<nat>,
                                        taken: set<nat>, counter: u32)
    returns (t: nat, steps': seq<nat>)
    requires Tracks(w, profile, base, m, steps)
    requires Covers(m, steps, taken) && Spent(m, steps, taken)
    requires w.chain.index <= counter
    ensures t == m + (counter - w.chain.index) && ToU32(t) == counter
    ensures Tracks(SkipTo(w, counter), profile, base, t, steps')
    ensures Covers(t, steps', taken) && Spent(t, steps', taken)
    decreases counter - w.chain.index
  {
    if w.chain.index < counter {
      var w1 := Window(NextChainKey(w.chain), AddKey(w.skipped, MessageKeyOf(w.chain)));
      var steps1 := SkipOne(w, profile, base, m, steps, taken);
      t, steps' := SkipToTracks(w1, profile, base, m + 1, steps1, taken, counter);
    } else {
      t, steps' := m, steps;
    }
  }

  /** Taking a cached key. */
  lemma TakeCached(w: Window, profile: Profile, base: Term, m: nat, steps: seq<nat>, taken: set<nat>, i: nat)
    requires Tracks(w, profile, base, m, steps) && i < |w.skipped|
    requires Covers(m, steps, taken) && Spent(m, steps, taken)
    ensures steps[i] !in taken && steps[i] < m && w.skipped[i] == KeyAt(profile, base, steps[i])
    ensures Tracks(w.(skipped := RemoveAt(w.skipped, i)), profile, base, m, RemoveAt(steps, i))
    ensures Covers(m, RemoveAt(steps, i), taken + {steps[i]}) && Spent(m, RemoveAt(steps, i), taken + {steps[i]})
  {
  }

  /**
   * A successful `Take` hands out the key of a step not taken before, derived
   * exactly as the sender derives it, and keeps the window's invariants.
   */
  lemma TakeTracks(w: Window, profile: Profile, base: Term, m: nat, steps: seq<nat>, taken: set<nat>, counter: u32)
    returns (t: nat, m': nat, steps': seq<nat>)
    requires Tracks(w, profile, base, m, steps)
    requires Covers(m, steps, taken) && Spent(m, steps, taken)
    requires Take(w, counter).Ok?
    ensures t !in taken && ToU32(t) == counter
    ensures Take(w, counter).value.1 == KeyAt(profile, base, t)
    ensures m <= m' && t < m' && (m' == m || m' == t + 1)
    ensures Tracks(Take(w, counter).value.0, profile, base, m', steps')
    ensures Covers(m', steps', taken + {t}) && Spent(m', steps', taken + {t})
  {
    hide Increasing, RemoveAt, FindKey;
    if w.chain.index > counter {
      var i := FindKey(w.skipped, counter);
      t, m', steps' := steps[i], m, RemoveAt(steps, i);
      TakeCached(w, profile, base, m, steps, taken, i);
    } else {
      t, steps' := SkipToTracks(w, profile, base, m, steps, taken, counter);
      m' := t + 1;
      NextChainKeyAt(profile, base, t);
    }
  }

  /** Step `t`, numbered `counter`, is cached although the chain is past that number, or at most 2000 ahead. */
  predicate Reaches(m: nat, steps: seq<nat>, counter: u32, t: nat) {
    && ToU32(t) == counter
    && if counter < ToU32(m) then t in steps else t == m + (counter - ToU32(m)) <= m + MAX_AHEAD
  }

  /**
   * Which counters get a key, which keys they get, and how the others are
   * answered, wrap-around of the 32-bit counter included.
   */
  lemma TakeExactly(w: Window, profile: Profile, base: Term, m: nat, steps: seq<nat>, counter: u32)
    requires Tracks(w, profile, base, m, steps)
    ensures Take(w, counter).Ok? <==> exists t: nat :: Reaches(m, steps, counter, t)
    ensures Take(w, counter).Ok? ==>
              exists t: nat :: Reaches(m, steps, counter, t) && Take(w, counter).value.1 == KeyAt(profile, base, t)
    ensures Take(w, counter).Err? ==>
              Take(w, counter) == Err(if counter < ToU32(m) then DuplicateMessage else InvalidMessage)
  {
    if counter < ToU32(m) {
      var i := FindKey(w.skipped, counter);
      assert forall j :: 0 <= j < |steps| ==> w.skipped[j].counter == ToU32(steps[j]);
      if i < |steps| {
        assert Reaches(m, steps, counter, steps[i]);
      }
    } else if counter - ToU32(m) <= MAX_AHEAD {
      var rest := set x: nat | 0 <= x < m && x !in steps;
      var t, _ := SkipToTracks(w, profile, base, m, steps, rest, counter);
      assert Reaches(m, steps, counter, t);
    }
  }

  /**
   * Before the 32-bit counter wraps, the window accepts exactly the cached
   * steps and the steps at most 2000 ahead; another step it has passed is a
   * duplicate, one further ahead is invalid.
   */
  lemma TakeExact(w: Window, profile: Profile, base: Term, m: nat, steps: seq<nat>, t: nat)
    requires Tracks(w, profile, base, m, steps)
    requires m < U32_LIMIT && t < U32_LIMIT
    ensures Take(w, t).Ok? <==> t in steps || m <= t <= m + 2000
    ensures Take(w, t).Ok? ==> Take(w, t).value.1 == KeyAt(profile, base, t)
    ensures t < m && t !in steps ==> Take(w, t) == Err(DuplicateMessage)
    ensures m + 2000 < t ==> Take(w, t) == Err(InvalidMessage)
  {
    hide Take, KeyAt;
    TakeExactly(w, profile, base, m, steps, t);
    assert Reaches(m, steps, t, t) <==> t in steps || m <= t <= m + MAX_AHEAD;
    forall u: nat | Reaches(m, steps, t, u)
      ensures u == t
    {
      assert u in steps ==> u < m;
    }
  }
}
