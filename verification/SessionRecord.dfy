/**
 * A record of one current and at most 40 archived sessions (session_record.c),
 * and decryption against all of them (session_cipher.c).
 */
module SessionRecord {
  import opened Common
  import opened Terms
  import opened KeyWindow
  import opened Session
  import opened SessionCipher

  const ARCHIVED_STATES_MAX_LENGTH: nat := 40

  datatype Record = Record(state: Option<State>, previous: seq<State>, isFresh: bool)

  const EMPTY_RECORD: Record := Record(Some(FRESH), [], true)

  ghost predicate RecordWellTyped(r: Record) {
    && (r.state.Some? ==> WellTyped(r.state.value))
    && (forall s | s in r.previous :: WellTyped(s))
  }

  predicate StateMatches(s: State, version: u32, baseKey: PublicKey) {
    s.version == version && s.aliceBaseKey == Some(baseKey)
  }

  predicate HasSessionState(r: Record, version: u32, baseKey: PublicKey) {
    || (r.state.Some? && StateMatches(r.state.value, version, baseKey))
    || exists s | s in r.previous :: StateMatches(s, version, baseKey)
  }

  function Trim(previous: seq<State>): seq<State> {
    if |previous| > ARCHIVED_STATES_MAX_LENGTH then previous[..ARCHIVED_STATES_MAX_LENGTH] else previous
  }

  function Promote(r: Record, promoted: State): Record {
    var previous := if r.state.Some? then [r.state.value] + r.previous else r.previous;
    r.(state := Some(promoted), previous := Trim(previous))
  }

  function ArchiveCurrent(r: Record): Record {
    Promote(r, FRESH)
  }

  /** Try the archived sessions from position `i` on, newest first. */
  function DecryptPrevious(r: Record, m: Message, supply: nat, i: nat): Result<(Record, Plaintext)>
    requires RecordWellTyped(r) && i <= |r.previous|
    decreases |r.previous| - i
  {
    if i == |r.previous| then
      Err(InvalidMessage)
    else
      var copy :- Copy(r.previous[i]);
      var attempt := DecryptFromState(copy, m, GeneratePair(supply + i + 1));
      if attempt.Ok? then
        Ok((Promote(r.(previous := RemoveAt(r.previous, i)), attempt.value.0), attempt.value.1))
      else if attempt.error != InvalidMessage then
        Err(attempt.error)
      else
        DecryptPrevious(r, m, supply, i + 1)
  }

  /** Key pairs drawn while decrypting are numbered from `supply`. */
  function DecryptFromRecord(r: Record, m: Message, supply: nat): Result<(Record, Plaintext)>
    requires RecordWellTyped(r)
  {
    if r.state.None? then
      DecryptPrevious(r, m, supply, 0)
    else
      var copy :- Copy(r.state.value);
      var attempt := DecryptFromState(copy, m, GeneratePair(supply));
      if attempt.Ok? then
        Ok((r.(state := Some(attempt.value.0)), attempt.value.1))
      else if attempt.error != InvalidMessage then
        Err(attempt.error)
      else
        DecryptPrevious(r, m, supply, 0)
  }

  // ----- conservation

  function CurrentStates(r: Record): seq<State> {
    if r.state.Some? then [r.state.value] else []
  }

  /** Every session of the record, current first. */
  function Sessions(r: Record): seq<State> {
    CurrentStates(r) + r.previous
  }

  /**
   * `after` is `before` with the one session at position `i` replaced by what
   * decrypting on its copy produced, and moved to the front.
   */
  ghost predicate OneSessionStepped(before: Record, after: Record, i: nat, m: Message, p: Plaintext, ours: KeyPair) {
    && RecordWellTyped(before)
    && i < |Sessions(before)|
    && Copy(Sessions(before)[i]).Ok?
    && var attempt := DecryptFromState(Copy(Sessions(before)[i]).value, m, ours);
       && attempt.Ok?
       && attempt.value.1 == p
       && Sessions(after) == [attempt.value.0] + RemoveAt(Sessions(before), i)
  }

  /** The pair drawn for the attempt on session `k`; the first pair is for the current session. */
  function DrawnFor(r: Record, supply: nat, k: nat): KeyPair {
    GeneratePair(if r.state.Some? then supply + k else supply + k + 1)
  }

  /** Promoting the archived session at `i` moves it to the front of all sessions. */
  lemma PromotedSessions(r: Record, i: nat, s: State)
    requires i < |r.previous| <= ARCHIVED_STATES_MAX_LENGTH
    ensures
      var after := Promote(r.(previous := RemoveAt(r.previous, i)), s);
      var k := i + |CurrentStates(r)|;
      && k < |Sessions(r)| && Sessions(r)[k] == r.previous[i]
      && Sessions(after) == [s] + RemoveAt(Sessions(r), k)
      && (r.state.Some? ==> |after.previous| == |r.previous| && after.previous[0] == r.state.value)
      && after.state == Some(s) && after.isFresh == r.isFresh
  {
    assert RemoveAt(Sessions(r), i + |CurrentStates(r)|) == CurrentStates(r) + RemoveAt(r.previous, i);
  }

  lemma {:induction false} DecryptPreviousConserves(r: Record, m: Message, supply: nat, i: nat) returns (k: nat)
    requires RecordWellTyped(r) && i <= |r.previous| <= ARCHIVED_STATES_MAX_LENGTH
    ensures
      var result := DecryptPrevious(r, m, supply, i);
      result.Ok? ==>
        && i + |CurrentStates(r)| <= k < |Sessions(r)|
        && OneSessionStepped(r, result.value.0, k, m, result.value.1, DrawnFor(r, supply, k))
        && result.value.0.state.Some? && result.value.0.isFresh == r.isFresh
        && (r.state.Some? ==>
              |result.value.0.previous| == |r.previous| && result.value.0.previous[0] == r.state.value)
    decreases |r.previous| - i
  {
    hide DecryptFromState, Copy, WellTyped, Promote, Sessions, RemoveAt;
    k := i + |CurrentStates(r)|;
    if i < |r.previous| && Copy(r.previous[i]).Ok? {
      var attempt := DecryptFromState(Copy(r.previous[i]).value, m, GeneratePair(supply + i + 1));
      if attempt.Ok? {
        PromotedSessions(r, i, attempt.value.0);
      } else if attempt.error == InvalidMessage {
        hide OneSessionStepped;
        k := DecryptPreviousConserves(r, m, supply, i + 1);
      }
    }
  }

  lemma MovedToFront<T>(before: seq<T>, after: seq<T>, i: nat)
    requires i < |before| && |after| > 0
    requires after == [after[0]] + RemoveAt(before, i)
    ensures multiset(after) - multiset{after[0]} == multiset(before) - multiset{before[i]}
  {
    assert before == before[..i] + [before[i]] + before[i + 1..];
  }

  /**
   * A successful decryption changes exactly one session, makes it current, and
   * keeps all the others; the former current session, if there was one, heads
   * the archive unless it is the one that stepped.
   */
  lemma DecryptConserves(r: Record, m: Message, supply: nat) returns (k: nat)
    requires RecordWellTyped(r) && |r.previous| <= ARCHIVED_STATES_MAX_LENGTH
    ensures
      var result := DecryptFromRecord(r, m, supply);
      result.Ok? ==>
        && k < |Sessions(r)| && result.value.0.state.Some?
        && OneSessionStepped(r, result.value.0, k, m, result.value.1, DrawnFor(r, supply, k))
        && multiset(Sessions(result.value.0)) - multiset{Sessions(result.value.0)[0]}
           == multiset(Sessions(r)) - multiset{Sessions(r)[k]}
        && (r.state.Some? && k == 0 ==> result.value.0.previous == r.previous)
        && (r.state.Some? && k > 0 ==>
              |result.value.0.previous| == |r.previous| && result.value.0.previous[0] == r.state.value)
  {
    hide DecryptFromState, Copy, WellTyped, DecryptPrevious;
    k := 0;
    var result := DecryptFromRecord(r, m, supply);
    if r.state.None? {
      k := DecryptPreviousConserves(r, m, supply, 0);
    } else if Copy(r.state.value).Ok? {
      var attempt := DecryptFromState(Copy(r.state.value).value, m, GeneratePair(supply));
      if attempt.Ok? {
        assert RemoveAt(Sessions(r), 0) == r.previous;
      } else if attempt.error == InvalidMessage {
        k := DecryptPreviousConserves(r, m, supply, 0);
      }
    }
    if result.Ok? {
      MovedToFront(Sessions(r), Sessions(result.value.0), k);
    }
  }

  /** Starting a session is the only way to drop one, and it drops the oldest. */
  lemma ArchiveDropsOldest(r: Record)
    requires |r.previous| <= ARCHIVED_STATES_MAX_LENGTH
    ensures
      var after := ArchiveCurrent(r);
      && |after.previous| <= 40
      && after.state == Some(FRESH)
      && if |Sessions(r)| <= 40
         then after.previous == Sessions(r)
         else after.previous + [r.previous[|r.previous| - 1]] == Sessions(r)
  {
  }


  // ----- which session answers

  /** What the session at position `k` makes of the message, on a copy. */
  function Attempt(r: Record, m: Message, supply: nat, k: nat): Result<(State, Plaintext)>
    requires RecordWellTyped(r) && k < |Sessions(r)|
  {
    var copy :- Copy(Sessions(r)[k]);
    DecryptFromState(copy, m, DrawnFor(r, supply, k))
  }

  /** The session at position `k` leaves the message to the next one. */
  predicate Passes(r: Record, m: Message, supply: nat, k: nat)
    requires RecordWellTyped(r) && k < |Sessions(r)|
  {
    Copy(Sessions(r)[k]).Ok? && Attempt(r, m, supply, k) == Err(InvalidMessage)
  }

  /** The result is what the sessions from position `k` on, taken in order,
    come to: the first that does not pass decides. */
  ghost predicate DecidedFrom(r: Record, m: Message, supply: nat, k: nat, result: Result<(Record, Plaintext)>)
    requires RecordWellTyped(r) && k <= |Sessions(r)|
  {
    exists n: nat :: k <= n <= |Sessions(r)| && DecidedAt(r, m, supply, k, n, result)
  }

  ghost predicate DecidedAt(r: Record, m: Message, supply: nat, k: nat, n: nat, result: Result<(Record, Plaintext)>)
    requires RecordWellTyped(r) && k <= n <= |Sessions(r)|
  {
    && (forall j :: k <= j < n ==> Passes(r, m, supply, j))
    && if n == |Sessions(r)| then result == Err(InvalidMessage)
       else
         && !Passes(r, m, supply, n)
         && var attempt := Attempt(r, m, supply, n);
            if attempt.Err? then result == Err(attempt.error)
            else result.Ok? && result.value.1 == attempt.value.1
                 && Sessions(result.value.0) == [attempt.value.0] + RemoveAt(Sessions(r), n)
  }

  lemma {:induction false} PreviousDecided(r: Record, m: Message, supply: nat, i: nat)
    requires RecordWellTyped(r) && i <= |r.previous| <= ARCHIVED_STATES_MAX_LENGTH
    ensures DecidedFrom(r, m, supply, i + |CurrentStates(r)|, DecryptPrevious(r, m, supply, i))
    decreases |r.previous| - i
  {
    hide DecryptFromState, Copy, WellTyped, Promote, RemoveAt;
    var k, result := i + |CurrentStates(r)|, DecryptPrevious(r, m, supply, i);
    assert |Sessions(r)| == |CurrentStates(r)| + |r.previous|;
    if i == |r.previous| {
      assert DecidedAt(r, m, supply, k, k, result);
    } else {
      assert Sessions(r)[k] == r.previous[i];
      if Passes(r, m, supply, k) {
        PreviousDecided(r, m, supply, i + 1);
        var n: nat :| k + 1 <= n <= |Sessions(r)| &&
          DecidedAt(r, m, supply, k + 1, n, DecryptPrevious(r, m, supply, i + 1));
        PassedOn(r, m, supply, k, n, result);
      } else {
        if Attempt(r, m, supply, k).Ok? {
          PromotedSessions(r, i, Attempt(r, m, supply, k).value.0);
        }
        hide Sessions;
        assert DecidedAt(r, m, supply, k, k, result);
      }
    }
  }

  lemma PassedOn(r: Record, m: Message, supply: nat, k: nat, n: nat, result: Result<(Record, Plaintext)>)
    requires RecordWellTyped(r) && k + 1 <= n <= |Sessions(r)| && Passes(r, m, supply, k)
    requires DecidedAt(r, m, supply, k + 1, n, result)
    ensures DecidedFrom(r, m, supply, k, result)
  {
    hide Passes, Attempt, Sessions;
    assert DecidedAt(r, m, supply, k, n, result);
  }

  /**
   * The sessions are tried in order, the current one first and then the newest
   * archived one; the first that does not find the message invalid decides,
   * and with none the message is invalid.
   */
  lemma FirstDecides(r: Record, m: Message, supply: nat)
    requires RecordWellTyped(r) && |r.previous| <= ARCHIVED_STATES_MAX_LENGTH
    ensures DecidedFrom(r, m, supply, 0, DecryptFromRecord(r, m, supply))
  {
    hide DecryptFromState, Copy, WellTyped, DecryptPrevious;
    PreviousDecided(r, m, supply, 0);
    if r.state.Some? {
      assert Sessions(r)[0] == r.state.value;
      if Passes(r, m, supply, 0) {
        var result := DecryptPrevious(r, m, supply, 0);
        var n: nat :| 1 <= n <= |Sessions(r)| && DecidedAt(r, m, supply, 1, n, result);
        PassedOn(r, m, supply, 0, n, result);
      } else {
        assert RemoveAt(Sessions(r), 0) == r.previous;
        assert DecidedAt(r, m, supply, 0, 0, DecryptFromRecord(r, m, supply));
      }
    }
  }
}
