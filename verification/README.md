# libsignal-protocol-c, modelled and proved in Dafny

This project models the core of the C library under `SignalProtocolC/src` and proves what that core is for:

- **Pairwise sessions.** Root, chain and message keys are terms over an uninterpreted HMAC, HKDF and agreement.
  Agreement commutes on generated keys and determines the peer's point, but not the bytes that encode it: it ignores
  the top bit, as `Curve25519.TopBitAgreesAlike` shows of the code, and a point of small order agrees with every key
  on zero (`Curve25519.ZeroAgrees`). Keys are compared by their bytes. `Session`, `SessionCipher`, `SessionRecord`,
  `SessionBuilder`, `Ratchet` and `KeyWindow` are the operations as functions; `SessionObjects` holds the same
  operations as objects whose fields change in place, each proved to do what the function says, and `KeyBytes` derives
  the bytes that the terms stand for. `RatchetWorld` puts two parties on a network that drops, delays, reorders,
  duplicates and injects messages; an injected MAC is junk or copied from a message really sent. `RatchetHistory` and
  `RatchetRuns` keep an invariant over every run, and `RatchetTheorems` draws the conclusions. `SessionSetup` proves
  that bundles, pre-key messages and key exchanges lead into that world, and `Conversation` that whole conversations
  on stores, with wrapped and plain messages, follow it.
- **Records of many sessions.** Runs of one store, with sessions started, archived, promoted and dropped, against any
  messages whatsoever: `PreKeyRedelivery` says what a second delivery of a pre-key message does, `SessionLedger` when
  no message is accepted twice while its session is held, `SetupOrigins` which keys make two set-ups come to one
  secret, and `OfferReuse` is a run that does so.
- **Sender keys.** `Group`, `GroupObjects`, `GroupRuns` and `GroupTheorems` do the same for group messages.
- **Curve25519.** `Limbs`, `FieldArithmetic`, `FieldInverse`, `FieldBytes`, `FieldContract` and `Curve25519` follow
  `curve25519-donna.c` on limb arrays, up to `curve25519_donna` itself, against the field of `Field` and the ladder of
  `LadderSpec` (section 5 of RFC 7748). `LadderMeaning` says what that ladder does on the curve: its step doubles by
  the tangent and adds by the chord, and every bit of the scalar doubles the scalar that came before. `Ed25519Field`
  treats `fe_mul`, `fe_frombytes` and `fe_add`. `Words` holds the 32-bit bit tricks they use.
- **Library code.** `HkdfExpansion` (section 2.3 of RFC 5869), `KeyHelper`, `VPool`, `Kmp` (utstring) and `MergeSort`
  (utlist).

`dafny verify dfyconfig.toml` checks everything.

Where a promised property does not hold of the code, the code is kept as it is and the exact condition is proved:

- HKDF's 8-bit counter loop ends if and only if the number of blocks plus the first counter value is at most 255
  (`HkdfExpansion.LoopEnds`). Section 2.3 of RFC 5869 allows 255 blocks; for version 3 that request never ends
  (`HkdfExpansion.LastBlockDiverges`).
- A group message is accepted again once its distribution message is installed again (`GroupTheorems.AcceptedTwice`),
  and then exactly within the 2001 steps from the distribution on (`GroupTheorems.ReinstallReopens`).
- A batch of pre-key ids is distinct if and only if it fits one cycle of 0xFFFFFE ids and does not cross the 32-bit
  wrap-around with more than 512 keys (`KeyHelper.PreKeyIdsDistinct`).
- A copied session equals the original if and only if every key derivation version matches the session version and the
  sending chain caches no skipped keys, which deserialisation drops (`Session.CopyIsIdentity`); every reachable
  session satisfies this (`SessionBuilder.ReachableRecordCopies`, `RatchetTheorems.ReachableCopyIsIdentity`).
- A redelivered pre-key message is accepted again, through a session set up afresh, if and only if its first session
  has been dropped from the archive and the pre key it names, if any, is still in the store: it names none, that of
  last resort, or one that could not be removed (`PreKeyRedelivery.RedeliveryExact`). Any 41 bundles in between bring
  that about (`PreKeyRedelivery.PreKeyAcceptedTwice`, and from two parties without any session
  `SessionSetup.FirstMessageAcceptedTwice`). While fewer than 40 sessions are archived whenever one starts, it does
  not happen (`PreKeyRedelivery.RunKeepsHeld`).
- A record accepts a message at most once while the session that accepted it is held, provided that no session is
  started from a secret that a held session was started from (`SessionLedger.AtMostOnce`). A session that is started
  accepts whatever it opens, and it can open a message already accepted by a held session only if that condition fails
  (`SessionLedger.ExchangeReopens`). The condition does fail:
  - A pre-key message is recognised by the bytes of its base key, and leads to a held secret if and only if a held
    session was set up with the same keys in whatever encoding (`SetupOrigins.HeldSecretExactly`,
    `SetupOrigins.ReachableSecretExactly`). So a message without a one-time pre key is accepted again under another
    encoding of its base key, which no MAC covers (`PreKeyRedelivery.ReencodedAcceptedTwice`,
    `SessionSetup.FirstMessageReencoded`).
  - A key exchange is answered twice with the same keys: the state with the pending exchange is archived when the
    response arrives, and a message for it makes it current again, with the exchange still pending
    (`OfferReuse.OfferReuseFromNothing`).

  What a caller can see to is enough (`SetupOrigins.CanonicalAtMostOnce`): base keys of pre-key messages are encoded as
  generated keys are and not of small order; signed pre keys of bundles are not of small order; one's own base keys are
  new; and exchanges are not with oneself, not made with a signed pre key, and repeat no secret.
- A key-exchange response that returns an error has stored its session all the same if and only if it was trusted,
  awaited and stored, and then its signature or saving the identity failed; an initiation with a bad signature changes
  nothing (`SessionBuilder.StoredDespiteError`).
- The comment in `fcontract` bounds the borrow out of limb 9 in the first pass by one. It is at most one if and only
  if limb 9, less what limb 8 borrows, is at least -2^25 (`FieldContract.TopBorrowExact`). Limbs within the documented
  2^26 can borrow three, which leaves limb 0 at -57 (`FieldContract.TopBorrowThree`, `FieldContract.BorrowPass`).
  Limbs as `freduce_coefficients` bounds them, which is what `curve25519_donna` passes, borrow at most two; they
  borrow two if and only if limbs 2 to 9 are all at their minimum and limb 1, less what limb 0 borrows, is below -2^25
  (`FieldContract.ReducedTopBorrow`, `FieldContract.ReducedBorrowsTwo`). `fcontract` is correct in all these cases.

`curve25519_donna` does not clamp the scalar (the three lines are commented out in the source), so its ladder runs over all
256 bits of the secret.

## Model

| member | source | states |
|---|---|---|
| Terms.AgreeFacts | SignalProtocolC/src/curve.c:373-399 | Agreement is symmetric on generated key pairs; for a given own key it is equal for two peer keys if and only if these are encodings of one point, or both of small order. |
| Terms.AdvanceInjective | SignalProtocolC/src/ratchet.c:228-257 | Keys reached by advancing two chain starts are equal only for equal starts and equal numbers of steps. |
| KeyWindow.FindKey | SignalProtocolC/src/session_state.c:1403-1423 | The first cached key with the counter, or none when no cached key has it. |
| KeyWindow.SkipOne | SignalProtocolC/src/session_cipher.c:678-693 | One round of the skip loop keeps the cached keys fresh derivations of increasing steps, at most 2000, and loses no step of the last 2000 that was not taken. |
| KeyWindow.SkipToTracks | SignalProtocolC/src/session_cipher.c:678-693 | The skip loop reaches exactly the requested counter and keeps the window's invariants. |
| KeyWindow.TakeCached | SignalProtocolC/src/session_state.c:1425-1453 | Removing a cached key hands out the sender's key of a step not taken before, and spends exactly that step. |
| KeyWindow.TakeTracks | SignalProtocolC/src/session_cipher.c:647-721 | Every key handed out is the sender's key of a step never handed out before, also when the 32-bit counter has wrapped; the window's invariants survive. |
| KeyWindow.TakeExactly | SignalProtocolC/src/session_cipher.c:647-721 | For every counter, wrap-around included: a key is handed out if and only if a step with that number is cached, or lies at most 2000 ahead, and it is the key of such a step; any other counter is a duplicate if the chain is past it and invalid if it is further ahead. |
| KeyWindow.TakeExact | SignalProtocolC/src/session_cipher.c:647-721 | Before the counter wraps, a key is handed out if and only if its step is cached or at most 2000 ahead; a step passed and not cached is a duplicate, one further ahead is invalid. |
| Session.FindChain | SignalProtocolC/src/session_state.c:1550-1563 | The first receiving chain with the ratchet key, or none when no chain has it. |
| Session.SerializedFields | SignalProtocolC/src/session_state.c:234-546 | Each field of the structure holds the field of that name, and each chain and cached key its own place. |
| Session.KeysRoundTrip | SignalProtocolC/src/session_state.c:476-561 | Serialised message keys are read back unchanged and in order. |
| Session.ReceiverChainsRoundTrip | SignalProtocolC/src/session_state.c:1140-1230 | All receiving chains are read back equal if and only if every chain's derivation version is a known one and that of the session. |
| Session.CopyIsIdentity | SignalProtocolC/src/session_state.c:1232-1260 | Deserialise after serialise gives an equal state if and only if versions match and the sending chain caches nothing. |
| Ratchet.X3dhAgreement | SignalProtocolC/src/ratchet.c:975-1238 | Alice's and Bob's initialisation from one bundle give matching sessions. |
| Ratchet.SymmetricAgreement | SignalProtocolC/src/ratchet.c:919-973 | The two sides take opposite roles if and only if their base keys differ, and then their sessions match. |
| KeyBytes.PartOf | SignalProtocolC/src/ratchet.c:163-226 | Each symbolic part of a derivation is the slice of the HKDF output at its place, whatever length is derived. |
| KeyBytes.CreateNext | SignalProtocolC/src/ratchet.c:228-257 | The bytes of the next chain key, the HMAC with 0x02, are those that the symbolic chain stands for, and the index wraps at 2^32. |
| KeyBytes.GetMessageKeys | SignalProtocolC/src/ratchet.c:163-226 | The 80 bytes derived from the HMAC with 0x01 split into the cipher key, MAC key and IV that the symbolic keys stand for. |
| KeyBytes.GetSenderMessageKey | SignalProtocolC/src/sender_key.c:30-107 | The 48 bytes derived from the seed split into the IV and cipher key that the symbolic group keys stand for. |
| KeyBytes.CreateChainBytes | SignalProtocolC/src/ratchet.c:300-378 | The 64 bytes derived from the agreement, salted with the root key, split into the root and chain key that the symbolic step stands for. |
| KeyBytes.CalculateDerivedKeys | SignalProtocolC/src/ratchet.c:857-917 | The 64 bytes derived from the secret split into the first root and chain key. |
| KeyBytes.AliceSecretBytes | SignalProtocolC/src/ratchet.c:975-1073 | 32 bytes 0xFF and three or four agreements, in order, are the bytes of the symbolic secret. |
| KeyBytes.BobSecretBytes | SignalProtocolC/src/ratchet.c:1122-1212 | The same on the responder's side. |
| SessionCipher.BodyOpensExactly | SignalProtocolC/src/session_cipher.c:794-866 | A body opens if and only if the cipher key, the mode, and the IV (from version 3 on) or the counter (before) are those it was made with. |
| SessionCipher.TagsAgreeExactly | SignalProtocolC/src/protocol.c:793-873 | Two MACs agree if and only if key and content do and, from version 3 on, both identities in their order. |
| SessionCipher.EncryptsExactly | SignalProtocolC/src/session_cipher.c:98-257 | Encryption fails exactly on an incomplete state, and otherwise moves the sending chain by one step and nothing else; the message is wrapped exactly while a pre key is pending. |
| SessionCipher.SentOpens | SignalProtocolC/src/session_cipher.c:454-555 | At any version, what one state sends comes back as plaintext on a state with the mirrored identities whose chain hands out the same key, and ends the pending pre key there. |
| SessionCipher.DecryptKeeps | SignalProtocolC/src/session_cipher.c:454-555 | Decryption leaves version, identities, registration ids, base key, pending exchange and the sending chain's key list alone. |
| SessionCipher.DecryptOnHeldChain | SignalProtocolC/src/session_cipher.c:557-721 | A message on a chain already held changes that chain only. |
| SessionObjects.SessionState.FindReceiverChain | SignalProtocolC/src/session_state.c:1550-1563 | The list walk finds the first chain with the key. |
| SessionObjects.SessionState.AddChain | SignalProtocolC/src/session_state.c:1493-1524 | Appending evicts the oldest chains beyond five and touches nothing else. |
| SessionObjects.SessionState.SetMessageKey | SignalProtocolC/src/session_state.c:1455-1491 | Appending a skipped key evicts the oldest ones beyond 2000 of that chain only. |
| SessionObjects.SessionState.RemoveMessageKey | SignalProtocolC/src/session_state.c:1425-1453 | Removes exactly the first skipped key with the counter and returns it. |
| SessionObjects.SessionState.SetReceiverChainKey | SignalProtocolC/src/session_state.c:1526-1548 | Replaces the chain key of the chain with that ratchet key only. |
| SessionObjects.SessionState.GetOrCreateChainKey | SignalProtocolC/src/session_cipher.c:557-645 | The mutating code performs exactly the modelled ratchet step, which records one less than the number of messages sent on the old chain, or none when the chain exists. |
| SessionObjects.SessionState.GetOrCreateMessageKey | SignalProtocolC/src/session_cipher.c:647-721 | The loop over counters on the object leaves the window, and gives the key or the error, that `KeyWindow.TakeExactly` describes. |
| SessionObjects.SessionState.Decrypt | SignalProtocolC/src/session_cipher.c:454-555 | On the object, decryption succeeds, fails and changes the state exactly as specified. |
| SessionObjects.SessionState.Encrypt | SignalProtocolC/src/session_cipher.c:98-257 | On the object, encryption yields the specified message and advances the sending chain once. |
| SessionObjects.GetOrCreateKeepsIdentities | SignalProtocolC/src/session_cipher.c:557-645 | A ratchet step leaves both identities alone. |
| SessionObjects.StoredRecord.HasState | SignalProtocolC/src/session_record.c:269-293 | True exactly when the current or an archived session has this version and base key. |
| SessionObjects.StoredRecord.TrimPrevious | SignalProtocolC/src/session_record.c:393-403 | The deleting walk keeps exactly the newest forty archived sessions. |
| SessionObjects.StoredRecord.PromoteState | SignalProtocolC/src/session_record.c:368-406 | The former current session heads the archive, the promoted one is current. |
| SessionObjects.StoredRecord.ArchiveCurrentState | SignalProtocolC/src/session_record.c:349-366 | A fresh session becomes current and the former one is archived. |
| SessionObjects.StoredRecord.DecryptMessage | SignalProtocolC/src/session_cipher.c:382-452 | The record changes only when one attempt succeeds, and then as specified; a failed decryption leaves it unchanged. |
| SessionRecord.DecryptPreviousConserves | SignalProtocolC/src/session_cipher.c:414-448 | Success on an archived session moves exactly that session to the front and archives the current one. |
| SessionRecord.DecryptConserves | SignalProtocolC/src/session_cipher.c:382-452 | Success changes exactly one session, makes it current, heads the archive with the former current one, if any, and keeps the multiset of all others. |
| SessionRecord.FirstDecides | SignalProtocolC/src/session_cipher.c:382-452 | The sessions are tried in order, the current one and then the archived ones from the newest; the first that does not find the message invalid decides, with success or with its error; without one the message is invalid. |
| SessionRecord.ArchiveDropsOldest | SignalProtocolC/src/session_record.c:349-406 | Starting a new session drops at most one session, the oldest, and only when forty are archived. |
| SessionBuilder.DecryptKeepsRecord | SignalProtocolC/src/session_cipher.c:382-452 | Decryption keeps at most one session per version and base key and at most forty archived ones. |
| SessionBuilder.ProcessKeepsRecord | SignalProtocolC/src/session_builder.c:51-193 | A pre-key message adds a session only for a version and base key not held yet. |
| SessionBuilder.PreKeyKeepsStore | SignalProtocolC/src/session_cipher.c:259-322 | A one-time pre key disappears only after its session is stored, never the last-resort one. |
| SessionBuilder.SignalKeepsStore | SignalProtocolC/src/session_cipher.c:324-380 | Decrypting a plain message keeps the record invariant and all pre keys. |
| SessionBuilder.BundleKeepsStore | SignalProtocolC/src/session_builder.c:195-349 | Processing a bundle with a fresh base key keeps the record invariant and all pre keys. |
| SessionBuilder.StartKeepsStore | SignalProtocolC/src/session_builder.c:667-760 | Offering a key exchange keeps the record invariant and all pre keys. |
| SessionBuilder.ExchangeKeepsStore | SignalProtocolC/src/session_builder.c:351-665 | An initiation or a response, awaited or stale, well or badly signed, keeps the record invariant and all pre keys. |
| SessionBuilder.StoredDespiteError | SignalProtocolC/src/session_builder.c:558-665 | A response changes the store exactly when trusted, awaited and stored; it then fails exactly when the signature or saving the identity fails, having stored the same session, with which encryption works; a badly signed initiation changes nothing. |
| SessionBuilder.ExchangeAnswers | SignalProtocolC/src/session_builder.c:351-556 | How every key exchange is answered, errors included; an initiation is answered under its sequence number with the keys of our own pending offer, if any, or the drawn ones. |
| SessionBuilder.OffersExactly | SignalProtocolC/src/session_builder.c:667-760 | An offer names the keys it remembers in the current session and touches nothing else; whatever fails is reported as an invalid key and changes nothing. |
| SessionBuilder.OfferAwaits | SignalProtocolC/src/session_builder.c:558-760 | After an offer a response is taken up if and only if it has the offer's sequence number; any other is stale, or silently dropped if flagged simultaneous, and changes nothing. |
| SessionBuilder.EncryptKeepsStore | SignalProtocolC/src/session_cipher.c:98-257 | Encrypting keeps the record invariant and all pre keys. |
| SessionBuilder.StepKeepsStore | SignalProtocolC/src/session_builder.c:51-760 | Whatever the event and the callbacks' verdicts, the invariant holds, and a pre key goes only when its own message's session is stored. |
| SessionBuilder.StepCommits | SignalProtocolC/src/session_builder.c:51-760 | No event changes the store against the verdict of a callback it asks. |
| SessionBuilder.DeliveriesRefused | SignalProtocolC/src/session_cipher.c:259-380 | Without a session, without trust or without the named keys a delivery ends in that error and changes nothing. |
| SessionBuilder.RunKeepsStore | SignalProtocolC/src/session_builder.c:51-760 | Over every run with fresh base keys the record holds at most one session per version and base key, and the last-resort pre key stays. |
| SessionBuilder.ReachableRecordCopies | SignalProtocolC/src/session_state.c:1232-1260 | Every session of every reachable record, current, archived or from a key exchange, is copied faithfully. |
| PreKeyRedelivery.DrawnPairIrrelevant | SignalProtocolC/src/session_cipher.c:557-645 | Whether a message decrypts, and to what, does not depend on the ratchet pair drawn for the reply. |
| PreKeyRedelivery.AcceptedOnNewSession | SignalProtocolC/src/session_cipher.c:259-322 | A message that opens in the session it sets up is accepted if that session is not held; the one-time pre key goes exactly if named, not the last-resort one, and removable. |
| PreKeyRedelivery.RedeliveryAddsNone | SignalProtocolC/src/session_builder.c:103-110 | While its session is held a pre-key message adds no session, removes no pre key and is decrypted like its inner message. |
| PreKeyRedelivery.InstallsExactly | SignalProtocolC/src/session_builder.c:92-193 | A delivery sets up a session if and only if none is held, its keys are in the store, it decrypts and every callback agrees. |
| PreKeyRedelivery.RunKeepsHeld | SignalProtocolC/src/session_record.c:349-406 | Over a run in which every session starts with fewer than forty archived, every base key recognised once stays recognised. |
| PreKeyRedelivery.RedeliveryExact | SignalProtocolC/src/session_cipher.c:259-322 | After any run a second delivery is accepted on a new session if and only if the first session was dropped and the named pre key, if any, is still in the store; it adds none while held, fails without effect once the pre key is gone, and the session is held if the run dropped none. |
| PreKeyRedelivery.BundlesCrowdOut | SignalProtocolC/src/session_builder.c:195-349 | After n bundles with new base keys only those and the newest 41 - n earlier sessions are left. |
| PreKeyRedelivery.PreKeyAcceptedTwice | SignalProtocolC/src/session_builder.c:103-110 | A run in which one pre-key message is accepted, crowded out by 41 bundles and accepted again with the same plaintext. |
| PreKeyRedelivery.ReencodedOpens | SignalProtocolC/src/session_builder.c:92-193 | Another encoding of the base key changes nothing of the session that is set up but the base key on record. |
| PreKeyRedelivery.ReencodedAcceptedTwice | SignalProtocolC/src/session_record.c:269-293 | A run in which one inner message is accepted twice, under two encodings of the base key, with its first session held throughout. |
| SessionSetup.AliceWraps | SignalProtocolC/src/session_cipher.c:98-257 | After processing a bundle every message is wrapped with its base key, identity and pre-key ids. |
| SessionSetup.PreKeysMatch | SignalProtocolC/src/session_builder.c:51-349 | Processing a bundle and processing the pre-key message it leads to set up matching sessions, with or without a one-time pre key, each recording its own registration id as local and the other's as remote. |
| SessionSetup.PreKeysSetUp | SignalProtocolC/src/session_builder.c:51-349 | The two records form an initial world of the ratchet theorems. |
| SessionSetup.FirstReceive | SignalProtocolC/src/session_cipher.c:259-322 | Decrypting the first pre-key message is the receive step of that world and stores the record it leaves. |
| SessionSetup.ExchangeSetsUp | SignalProtocolC/src/session_builder.c:351-760 | Offer, answer and response form an initial world, in which the smaller base key takes the role of Alice; the answer taken again is stale and changes nothing. |
| SessionSetup.CrossingOffersSetUp | SignalProtocolC/src/session_builder.c:351-760 | Two simultaneous offers form an initial world, and the answers that cross change nothing. |
| SessionSetup.PreKeyAgreement | SignalProtocolC/src/session_cipher.c:557-645 | Ratchet agreement over every run from a bundle and its pre-key message. |
| SessionSetup.PreKeyIntegrity | SignalProtocolC/src/session_cipher.c:454-721 | Integrity and at-most-once delivery over every run from a bundle and its pre-key message. |
| SessionSetup.FirstMessageOpens | SignalProtocolC/src/session_cipher.c:454-555 | The initiator's first message decrypts to its plaintext in the matching responder session. |
| SessionSetup.AliceIsUnderstood | SignalProtocolC/src/session_cipher.c:259-322 | The message with which Alice uses a bundle opens, to its plaintext, in the session that it sets up at Bob's. |
| SessionSetup.FirstMessageAcceptedTwice | SignalProtocolC/src/session_builder.c:103-110 | Between two parties without any session, Alice's first message is accepted by Bob twice around 41 bundles when the bundle had no one-time pre key or the last-resort one. |
| SessionSetup.FirstMessageReencoded | SignalProtocolC/src/session_record.c:269-293 | The same between two parties without any session, with Alice's first message. |
| Conversation.FirstWrappedFollows | SignalProtocolC/src/session_cipher.c:259-322 | The first wrapped message Bob accepts is the receive step of the world, and its base key is recognised from then on. |
| Conversation.TalkFollows | SignalProtocolC/src/session_cipher.c:98-380 | Every conversation on stores follows a run of the two-party world and its invariant. |
| Conversation.ConversationIntegrity | SignalProtocolC/src/session_cipher.c:98-380 | Over every conversation from a bundle on, everything accepted, wrapped or plain, was sent by the other party with that plaintext, and nothing is accepted twice. |
| Conversation.ConversationEnds | SignalProtocolC/src/session_builder.c:51-349 | After every conversation each party's session still records the two identities and registration ids as they are. |
| SessionLedger.DecryptSpends | SignalProtocolC/src/session_cipher.c:454-721 | A message a session accepts spends a chain step of that session that was never spent, also after its chain was evicted and derived again. |
| SessionLedger.RecordSpends | SignalProtocolC/src/session_cipher.c:382-452 | The same for a record: the step belongs to the session that becomes current, and every session keeps its secret. |
| SessionLedger.StepCarries | SignalProtocolC/src/session_builder.c:51-760 | Every event keeps the ledger of spent steps complete for the sessions still held, and every acceptance adds a new entry. |
| SessionLedger.RunCarries | SignalProtocolC/src/session_builder.c:51-760 | Over every run an entry stays in the ledger as long as its session is held. |
| SessionLedger.AtMostOnce | SignalProtocolC/src/session_cipher.c:259-452 | Over runs that start no session from a held secret, a message once accepted is not accepted again by the record, by whatever event, as long as the session that accepted it is held. |
| SessionLedger.StartedAccepts | SignalProtocolC/src/session_cipher.c:324-452 | A session just started accepts every message it opens, accepted before or not. |
| SessionLedger.ReopensOnlyHeld | SignalProtocolC/src/session_cipher.c:454-721 | A message already accepted by a held session opens in a new session only if the two have one secret. |
| SessionLedger.ExchangeReopens | SignalProtocolC/src/session_builder.c:390-665 | After a key exchange every message its session opens is accepted; an already accepted one is among these only if the exchange started from a held secret. |
| SessionLedger.SameAnswerOpens | SignalProtocolC/src/ratchet.c:929-973 | Two answers with the same keys open the same messages of the peer's first chain. |
| SetupOrigins.MessageSecretsEqual | SignalProtocolC/src/ratchet.c:1122-1238 | Two pre-key messages lead to one secret if and only if the peer's points and our own keys are the same. |
| SetupOrigins.OwnSecretsEqual | SignalProtocolC/src/ratchet.c:975-1238 | A bundle and a pre-key message lead to one secret if and only if we wrote to ourselves and our own base key comes back, or all keys of the peer have small order. |
| SetupOrigins.HeldSecretExactly | SignalProtocolC/src/session_builder.c:92-193 | A delivered pre-key message leads to a held secret if and only if a held session was set up with the same keys in whatever encoding. |
| SetupOrigins.StepKeepsOrigins | SignalProtocolC/src/session_builder.c:51-760 | Every event keeps the origin of every session. |
| SetupOrigins.ReachableSecretExactly | SignalProtocolC/src/session_builder.c:51-760 | The same after every run. |
| SetupOrigins.SameKeysSameBytes | SignalProtocolC/src/session_record.c:269-293 | Among canonical set-ups the same keys mean the same base key on record. |
| SetupOrigins.CanonicalUnheld | SignalProtocolC/src/session_builder.c:92-120 | A canonical base key that is not held leads to a secret that no held session of canonical set-up has. |
| SetupOrigins.CarefulRunIsFair | SignalProtocolC/src/session_builder.c:51-760 | Canonical base keys, new keys of our own and exchanges without repetition start no session from a held secret. |
| SetupOrigins.CanonicalAtMostOnce | SignalProtocolC/src/session_cipher.c:259-452 | At most once, under that condition on the keys that come in. |
| OfferReuse.OfferReuseAcceptsTwice | SignalProtocolC/src/session_builder.c:558-665 | A run in which one response is taken twice and one message accepted twice. |
| OfferReuse.OfferReuseHappens | SignalProtocolC/src/session_builder.c:558-665 | The same run between honest peers, for all their keys. |
| OfferReuse.ReachesAwaiting | SignalProtocolC/src/session_builder.c:351-760 | Answering an offer with the larger base key and making one leads from a store without a session to the start of that run. |
| OfferReuse.OfferReuseFromNothing | SignalProtocolC/src/session_builder.c:351-760 | The whole run from a store without a session. |
| RatchetHistory.MacKeyUnique | SignalProtocolC/src/ratchet.c:163-226 | A MAC key belongs to one step of one epoch. |
| RatchetHistory.NewChainMatchesNextEpoch | SignalProtocolC/src/session_cipher.c:557-645 | A freshly ratcheted chain, for whatever peer key, shares a MAC key with an existing epoch only if that is the next epoch of the peer and the key is its ratchet key in some encoding. |
| RatchetRuns.SendKeepsInv | SignalProtocolC/src/session_cipher.c:98-257 | Sending keeps the shared-history invariant of both parties. |
| RatchetRuns.ReceiveOnExisting | SignalProtocolC/src/session_cipher.c:454-721 | Accepting on a known chain keeps the invariant and yields an unread message of the peer. |
| RatchetRuns.ReceiveOnNew | SignalProtocolC/src/session_cipher.c:557-645 | Accepting on a new chain comes from the peer's next epoch, moves the party two epochs on and keeps the invariant. |
| RatchetTheorems.InitialInv | SignalProtocolC/src/ratchet.c:975-1238 | Matching initial sessions satisfy the invariant. |
| RatchetTheorems.ReceiveKeepsInv | SignalProtocolC/src/session_cipher.c:324-452 | Any possible message, genuine, replayed or injected, keeps the invariant. |
| RatchetTheorems.RunKeepsInv | SignalProtocolC/src/session_cipher.c:98-721 | The invariant holds after every run under any interleaving. |
| RatchetTheorems.RatchetAgreement | SignalProtocolC/src/session_cipher.c:557-645 | Both root keys lie on one sequence of epochs at positions that differ by one, and every receiving chain is an advance of the peer's sending chain with that ratchet key. |
| RatchetTheorems.IntegrityAndAtMostOnce | SignalProtocolC/src/session_cipher.c:454-721 | Over every run each accepted message is one the peer sent, with that plaintext, and none is accepted twice, even after eviction of its chain or counter wrap-around. |
| RatchetTheorems.CountersSent | SignalProtocolC/src/session_cipher.c:98-257 | After every run each message sent carries the position it has among those with its ratchet key, and as previous counter the number of messages in the log with the ratchet key before, less one, or zero; both modulo 2^32. |
| RatchetTheorems.RunKeepsEnds | SignalProtocolC/src/session_cipher.c:98-721 | After every run the identities and registration ids of both sessions are those of the set-up. |
| RatchetTheorems.ReachableCopyIsIdentity | SignalProtocolC/src/session_state.c:1232-1260 | Every reachable session is copied faithfully. |
| RatchetTheorems.SkippedKeyWindow | SignalProtocolC/src/session_cipher.c:656-711 | In every reachable record there are at most five receiving chains, and in each the cached keys are at most 2000 fresh derivations of increasing steps below the index, and each of the last 2000 steps is cached or delivered. |
| RatchetTheorems.DeliverExact | SignalProtocolC/src/session_cipher.c:324-452 | Before wrap-around a message of the peer is accepted, with its plaintext, if and only if its chain is held or next and its step is cached or at most 2000 ahead; otherwise it is a duplicate if its chain is held and past it, and invalid if not. |
| RatchetTheorems.RedeliveredIsDuplicate | SignalProtocolC/src/session_cipher.c:647-721 | An accepted message delivered again while its chain is held is a duplicate and changes nothing. |
| RatchetTheorems.RunRedelivery | SignalProtocolC/src/session_cipher.c:324-452 | The same after every run of fewer than 2^32 events, for every message in the log of accepted ones whose ratchet key still has a chain. |
| RatchetTheorems.AnyAnswer | SignalProtocolC/src/session_cipher.c:324-721 | After every run, whatever the network delivers is accepted, invalid or a duplicate; no other error occurs. |
| RatchetTheorems.NoLossInWindow | SignalProtocolC/src/session_cipher.c:656-711 | An undelivered message on a held chain, at most 2000 behind or ahead, is accepted. |
| KeyHelper.PreKeyId | SignalProtocolC/src/key_helper.c:111-123 | Every generated id lies in 1 .. 0xFFFFFE, so it never is the last-resort id. |
| KeyHelper.PreKeyIdsCountUp | SignalProtocolC/src/key_helper.c:111-123 | From a start in range the ids count up by one from it, and 1 follows 0xFFFFFE. |
| KeyHelper.GeneratePreKeys | SignalProtocolC/src/key_helper.c:101-176 | Exactly count keys with consecutive ids of the cycle, none the last-resort id. |
| KeyHelper.GenerateLastResortPreKey | SignalProtocolC/src/key_helper.c:204-225 | The id differs from every id a batch can contain. |
| KeyHelper.PreKeyIdsCollide | SignalProtocolC/src/key_helper.c:111-123 | Every batch that does not fit the cycle contains two keys with one id. |
| KeyHelper.PreKeyIdsDistinct | SignalProtocolC/src/key_helper.c:111-123 | The ids of a batch are distinct if and only if it fits one cycle and does not cross the 32-bit wrap with more than 512 keys. |
| Group.FindState | SignalProtocolC/src/sender_key_record.c:228-242 | The newest state with the key id, or none when no state has it. |
| GroupObjects.SenderKeyStateObject.HasMessageKey | SignalProtocolC/src/sender_key_state.c:470-482 | True exactly when a cached key has the iteration. |
| GroupObjects.SenderKeyStateObject.AddMessageKey | SignalProtocolC/src/sender_key_state.c:484-515 | Appending evicts the oldest keys beyond 2000. |
| GroupObjects.SenderKeyStateObject.RemoveMessageKey | SignalProtocolC/src/sender_key_state.c:517-534 | Removes exactly the first key with the iteration. |
| GroupObjects.SenderKeyStateObject.GetSenderKey | SignalProtocolC/src/group_cipher.c:243-315 | The loop leaves the window, and gives the key or the error, that `KeyWindow.TakeExactly` describes; an error leaves the state unchanged. |
| GroupObjects.SenderKeyRecordObject.GetStateById | SignalProtocolC/src/sender_key_record.c:228-242 | Finds the newest state with the key id. |
| GroupObjects.SenderKeyRecordObject.AddSenderKeyState | SignalProtocolC/src/sender_key_record.c:244-301 | The new state comes first and the oldest beyond five are dropped. |
| GroupObjects.SenderKeyRecordObject.Encrypt | SignalProtocolC/src/group_cipher.c:66-156 | The record advances once and the message is the specified one; an error, storing included, changes nothing. |
| GroupObjects.SenderKeyRecordObject.Decrypt | SignalProtocolC/src/group_cipher.c:158-241 | Succeeds exactly when the specification does and the callback and the store agree, and changes the record only then, as specified. |
| GroupRuns.CipherKeyUnique | SignalProtocolC/src/sender_key.c:189-237 | A group cipher key belongs to one step of one session. |
| GroupRuns.AcceptOrigin | SignalProtocolC/src/group_cipher.c:158-315 | A message that decrypts was sent by the owner of the installed session, at a step not spent yet. |
| GroupRuns.InstallKeepsInv | SignalProtocolC/src/group_session_builder.c:39-70 | Installing a distribution message keeps the invariant and starts a window at its iteration. |
| GroupRuns.RunKeepsInv | SignalProtocolC/src/group_cipher.c:66-315 | The invariant holds after every run of creating, announcing, sending, installing and receiving, whatever the callback and the store answer. |
| GroupTheorems.GroupAgreement | SignalProtocolC/src/group_cipher.c:158-315 | Everything accepted was sent with exactly that plaintext; a second acceptance of one message needs a strictly newer installation for its key id. |
| GroupTheorems.IterationsUnique | SignalProtocolC/src/group_cipher.c:66-156 | Before 32-bit wrap a session never emits one iteration twice. |
| GroupTheorems.OpensExactly | SignalProtocolC/src/group_cipher.c:243-315 | Decryption succeeds, with the sender's plaintext, if and only if the newest state for the key id is of that session and the step is in its window; otherwise the error is exactly no session, duplicate or invalid, as the record and the window decide. |
| GroupTheorems.GroupDeliverExact | SignalProtocolC/src/group_cipher.c:158-315 | A message is logged as accepted exactly under that condition. |
| GroupTheorems.GroupRedelivered | SignalProtocolC/src/group_cipher.c:243-315 | A message accepted by the installation that is still the newest for its key id is a duplicate when delivered again. |
| GroupTheorems.SealedOpensExactly | SignalProtocolC/src/group_cipher.c:212-218 | A body opens if and only if IV and cipher key are those it was made with. |
| GroupTheorems.GroupAnyAnswer | SignalProtocolC/src/group_cipher.c:158-315 | After every run, whatever the network delivers is accepted, invalid, a duplicate or without a session; no other error occurs before the counter wraps. |
| GroupTheorems.NewestFiveHeld | SignalProtocolC/src/sender_key_record.c:244-301 | After every run the receiver holds exactly the states of the newest five installations, newest first. |
| GroupTheorems.OnlyOwnerSends | SignalProtocolC/src/group_cipher.c:66-156 | After every run a receiver cannot send with the states it was given, and a sender can if and only if it has a session. |
| GroupTheorems.GroupNoLoss | SignalProtocolC/src/group_cipher.c:243-315 | An undelivered message from the installed iteration on, at most 2000 behind or ahead, is accepted. |
| GroupTheorems.ReinstallReopens | SignalProtocolC/src/group_session_builder.c:39-70 | After reinstalling, a message is accepted exactly when its step lies in the 2001 steps from the distribution on, accepted before or not. |
| GroupTheorems.AcceptedTwice | SignalProtocolC/src/sender_key_record.c:244-301 | A run in which one message is accepted twice across two installations of one distribution. |
| HkdfExpansion.LoopEnds | SignalProtocolC/src/hkdf.c:103-200 | The 8-bit counter loop ends if and only if blocks plus first counter value is at most 255. |
| HkdfExpansion.LastBlockDiverges | SignalProtocolC/src/hkdf.c:103-200 | For version 3 and 255 blocks the loop condition holds in every round. |
| HkdfExpansion.Expand | SignalProtocolC/src/hkdf.c:103-200 | Exactly the requested number of bytes, each block the HMAC of the block before it, the info and its counter byte. |
| HkdfExpansion.DeriveSecrets | SignalProtocolC/src/hkdf.c:202-228 | Extract then expand, per section 2 of RFC 5869, with the chained blocks of `HkdfExpansion.OutputChained`. |
| HkdfExpansion.OutputChained | SignalProtocolC/src/hkdf.c:103-200 | Cut into blocks of 32 bytes, the output has as each block the HMAC of the previous block, read off the output itself, the info and the counter byte, the last one truncated. |
| HkdfExpansion.ChainedUnique | SignalProtocolC/src/hkdf.c:103-200 | No other bytes of that length are chained in this way. |
| HkdfExpansion.ShorterIsPrefix | SignalProtocolC/src/hkdf.c:103-200 | A shorter output is a prefix of a longer one. |
| VPool.TruncateUndoesInsert | SignalProtocolC/src/vpool.c:134-222 | Excluding what was inserted restores the sequence; including it yields the data. |
| VPool.InsertedAt | SignalProtocolC/src/vpool.c:134-160 | Data goes in at the position, or behind everything if that lies beyond the end. |
| VPool.InsertSplice | SignalProtocolC/src/vpool.c:134-160 | Moving the tail up and writing the data in is a splice of the contents. |
| VPool.CutSplice | SignalProtocolC/src/vpool.c:191-222 | Moving the tail down removes exactly the chosen bytes of the contents. |
| VPool.Pool.Shift | SignalProtocolC/src/vpool.c:32-39 | The data moves to the front of the buffer and stays the same. |
| VPool.Pool.NewSize | SignalProtocolC/src/vpool.c:41-69 | Too big exactly when the limit would be passed; otherwise a capacity with room, the fewest whole blocks or the limit if that is less. |
| VPool.Pool.Resize | SignalProtocolC/src/vpool.c:71-96 | Room behind the data without changing it, or the too-big error without any change. |
| VPool.Pool.Insert | SignalProtocolC/src/vpool.c:134-160 | The contents are spliced if and only if the limit allows, else unchanged with the error set; the result points at the data, and is null, without an error, also for empty data while there is no buffer. |
| VPool.Pool.Expand | SignalProtocolC/src/vpool.c:162-188 | A gap of arbitrary bytes is spliced in if and only if the limit allows, with the same results. |
| VPool.Pool.Truncate | SignalProtocolC/src/vpool.c:190-222 | In range the chosen bytes are removed or kept; out of range nothing changes and the error is set. |
| VPool.Pool.Wipe | SignalProtocolC/src/vpool.c:126-131 | The pool is empty afterwards. |
| VPool.Pool.Export | SignalProtocolC/src/vpool.c:223-232 | The caller gets the buffer with the contents at its front and the pool starts over empty. |
| VPool.Pool.Perform | SignalProtocolC/src/vpool.c:126-232 | Under any run of operations the contents are those of the same splices on a sequence, and start + offset <= size <= limit holds. |
| Kmp.FailureSkips | SignalProtocolC/src/utstring.h:157-194 | Falling back to the strong failure value skips no border that could be extended. |
| Kmp.BuildTable | SignalProtocolC/src/utstring.h:157-194 | Every entry is the strong failure value, the last the longest border. |
| Kmp.FindWithTable | SignalProtocolC/src/utstring.h:237-266 | The first occurrence, or -1 exactly when there is none. |
| Kmp.Find | SignalProtocolC/src/utstring.h:304-345 | The first occurrence at or after the start position, or -1 exactly when there is none or the needle is empty. |
| Kmp.BuildTableR | SignalProtocolC/src/utstring.h:197-233 | The right-to-left table mirrors the strong failure table of the reversed needle. |
| Kmp.OccursReversed | SignalProtocolC/src/utstring.h:197-233 | Occurrences correspond to occurrences of the reversed needle in the reversed text. |
| Kmp.FindWithTableR | SignalProtocolC/src/utstring.h:270-300 | The last occurrence, or -1 exactly when there is none. |
| Kmp.FindR | SignalProtocolC/src/utstring.h:350-388 | The last occurrence that ends at or before the start position, or -1 exactly when there is none. |
| MergeSort.MergeStable | SignalProtocolC/src/utlist.h:195-216 | Merging two sorted runs keeps elements of equal rank in order, first run first. |
| MergeSort.PassSorted | SignalProtocolC/src/utlist.h:180-226 | A pass over sorted runs of one length leaves sorted runs of twice the length. |
| MergeSort.MergeRuns | SignalProtocolC/src/utlist.h:195-216 | The pointer loop links exactly the merged nodes, forwards and backwards, onto the output. |
| MergeSort.MergePass | SignalProtocolC/src/utlist.h:180-226 | One pass over the list leaves a well-formed list, and at most one merge exactly when the list fits two runs. |
| MergeSort.Sort | SignalProtocolC/src/utlist.h:171-228 | For every list and total preorder the macro ends with a well-formed list that is a sorted, stable permutation. |
| Words.S32EqMask | SignalProtocolC/src/curve25519/curve25519-donna.c:459-467 | The and-shift trick yields all ones exactly for equal words. |
| Words.S32Gte | SignalProtocolC/src/curve25519/curve25519-donna.c:471-475 | All ones exactly when a is at least b, for non-negative words. |
| Words.NegativePartValue | SignalProtocolC/src/curve25519/curve25519-donna.c:498-499 | Masking a word with its own sign keeps it when negative and clears it otherwise. |
| Words.AndLowWord | SignalProtocolC/src/curve25519/curve25519-donna.c:545-563 | Masking with low ones is the remainder modulo the power of two, for either sign. |
| Limbs.ProductsValue | SignalProtocolC/src/curve25519/curve25519-donna.c:99-200 | The nineteen limbs stand for the product of the two values. |
| Limbs.ProductsBound | SignalProtocolC/src/curve25519/curve25519-donna.c:99-200 | For limbs below 2^27 every limb of the product is below 14 * 2^54. |
| Limbs.AbsoluteProductsBound | SignalProtocolC/src/curve25519/curve25519-donna.c:99-200 | The magnitudes of the products that meet in a limb sum up to less than 14 * 2^54, so no partial sum is larger. |
| Limbs.SquaresAreProducts | SignalProtocolC/src/curve25519/curve25519-donna.c:355-411 | The squaring shortcut computes the limbs of the general product. |
| FieldArithmetic.SignMask | SignalProtocolC/src/curve25519/curve25519-donna.c:247-258 | The shifted high word is all ones exactly for negative values. |
| FieldArithmetic.DivBy26 | SignalProtocolC/src/curve25519/curve25519-donna.c:247-258 | Division by 2^26 rounded towards zero, for every 64-bit value. |
| FieldArithmetic.DivBy25 | SignalProtocolC/src/curve25519/curve25519-donna.c:263-274 | Division by 2^25 rounded towards zero, for every 64-bit value. |
| FieldArithmetic.Product | SignalProtocolC/src/curve25519/curve25519-donna.c:99-200 | The long form stands for the product and stays below 14 * 2^54. |
| FieldArithmetic.SquareInner | SignalProtocolC/src/curve25519/curve25519-donna.c:355-411 | The long form stands for the square and stays below 14 * 2^54. |
| FieldArithmetic.FoldedValue | SignalProtocolC/src/curve25519/curve25519-donna.c:206-238 | Folding the upper limbs nineteenfold keeps the residue. |
| FieldArithmetic.ReduceDegree | SignalProtocolC/src/curve25519/curve25519-donna.c:206-238 | Ten limbs below 280 * 2^54 with the residue of the nineteen, without 64-bit overflow. |
| FieldArithmetic.CarryFrom | SignalProtocolC/src/curve25519/curve25519-donna.c:294-312 | One carry keeps the value exactly and brings the limb within its width. |
| FieldArithmetic.WrapTop | SignalProtocolC/src/curve25519/curve25519-donna.c:313-330 | Wrapping the top carry round keeps the residue; only limb 1 may exceed its width, by less than 2^16. |
| FieldArithmetic.ReduceCoefficients | SignalProtocolC/src/curve25519/curve25519-donna.c:289-330 | Limbs below 2^26 with the same residue, from limbs below 280 * 2^54, without overflow. |
| FieldArithmetic.Multiply | SignalProtocolC/src/curve25519/curve25519-donna.c:338-347 | For limbs below 2^27 the result is the field product with reduced limbs, below 2^26. |
| FieldArithmetic.Square | SignalProtocolC/src/curve25519/curve25519-donna.c:420-431 | For limbs below 2^27 the result is the field square with limbs below 2^26. |
| FieldArithmetic.Sum | SignalProtocolC/src/curve25519/curve25519-donna.c:68-74 | The field sum, with limbs below 2^27 from limbs below 2^26, also of a number with itself in place. |
| FieldArithmetic.Difference | SignalProtocolC/src/curve25519/curve25519-donna.c:78-83 | The field difference in the order in - output, with limbs below 2^27. |
| FieldArithmetic.ScalarProduct | SignalProtocolC/src/curve25519/curve25519-donna.c:86-91 | The field product with the scalar, for any scalar that keeps the limbs in 64 bits. |
| FieldInverse.SquareTimes | SignalProtocolC/src/curve25519/curve25519-donna.c:815-817 | An even number n of alternating squarings multiplies the exponent by 2^n. |
| FieldInverse.OnesJoin | SignalProtocolC/src/curve25519/curve25519-donna.c:813-843 | 2^a - 1 shifted by b and added to 2^b - 1 is 2^(a+b) - 1. |
| FieldInverse.Reciprocal | SignalProtocolC/src/curve25519/curve25519-donna.c:786-851 | The chain computes exactly the power 2^255 - 21. |
| FieldBytes.ExpandedValue | SignalProtocolC/src/curve25519/curve25519-donna.c:434-452 | The ten shifted and masked loads miss only the top bit of the input. |
| FieldBytes.Expand | SignalProtocolC/src/curve25519/curve25519-donna.c:434-452 | Canonical limbs that stand for exactly the low 255 bits of the 32 bytes. |
| FieldBytes.TopBitIgnored | SignalProtocolC/src/curve25519/curve25519-donna.c:434-452 | Flipping the top bit of the input gives other bytes and the same limbs. |
| FieldContract.BorrowFrom | SignalProtocolC/src/curve25519/curve25519-donna.c:494-508 | A masked borrow makes a negative limb non-negative and within its width, and keeps the value. |
| FieldContract.BorrowUp | SignalProtocolC/src/curve25519/curve25519-donna.c:494-508 | The inner loop keeps the value, leaves limbs 0 to 8 non-negative and takes from limb 9 what limb 8 borrows. |
| FieldContract.BorrowPass | SignalProtocolC/src/curve25519/curve25519-donna.c:493-522 | A pass keeps the residue, leaves only limb 0 possibly negative, by nineteen times the borrow out of limb 9 and at most 57; a second pass leaves none negative. |
| FieldContract.TopBorrowExact | SignalProtocolC/src/curve25519/curve25519-donna.c:524-529 | The borrow out of limb 9 is at most one if and only if limb 9, less what limb 8 borrows, is at least -2^25. |
| FieldContract.TopBorrowThree | SignalProtocolC/src/curve25519/curve25519-donna.c:524-529 | Limbs below 2^26 in magnitude that borrow three. |
| FieldContract.ReducedTopBorrow | SignalProtocolC/src/curve25519/curve25519-donna.c:524-529 | Reduced limbs borrow at most two, and at most one except exactly when limbs 2 to 9 are at their minimum and limb 1 borrows two. |
| FieldContract.ReducedBorrowsTwo | SignalProtocolC/src/curve25519/curve25519-donna.c:524-529 | Reduced limbs that borrow two. |
| FieldContract.CarryPass | SignalProtocolC/src/curve25519/curve25519-donna.c:545-563 | A pass keeps the residue and leaves only limb 0 possibly too wide; a second pass leaves every limb within its width. |
| FieldContract.AtLeastPrimeValue | SignalProtocolC/src/curve25519/curve25519-donna.c:572-582 | The limb-wise comparison holds exactly when the value is at least 2^255 - 19. |
| FieldContract.SubtractPrime | SignalProtocolC/src/curve25519/curve25519-donna.c:575-594 | The masked subtraction leaves the residue as value. |
| FieldContract.PutLimb | SignalProtocolC/src/curve25519/curve25519-donna.c:604-608 | Four bytes of a limb are added at their place in the little-endian number, sharing the first byte. |
| FieldContract.Pack | SignalProtocolC/src/curve25519/curve25519-donna.c:596-621 | The 32 bytes are the little-endian encoding of the value of canonical limbs. |
| FieldContract.Contract | SignalProtocolC/src/curve25519/curve25519-donna.c:481-622 | For all limbs below 2^26 in magnitude the bytes encode the residue in [0, 2^255 - 19). |
| FieldContract.EncodingUnique | SignalProtocolC/src/curve25519/curve25519-donna.c:481-622 | No other 32 bytes encode the same number. |
| FieldContract.ContractThenExpand | SignalProtocolC/src/curve25519/curve25519-donna.c:434-622 | Expanding what was contracted gives the same residue, with the residue itself as value. |
| LadderSpec.LaddersAgree | SignalProtocolC/src/curve25519/curve25519-donna.c:747-777 | Swapping back after every step and deferring the swap as in section 5 of RFC 7748 reach the same points after any number of bits. |
| LadderSpec.SameLadder | SignalProtocolC/src/curve25519/curve25519-donna.c:747-777 | Over all 256 bits the loop ends where the ladder of section 5 of RFC 7748 ends. |
| LadderSpec.StepReordered | SignalProtocolC/src/curve25519/curve25519-donna.c:635-708 | The step with this code's operand order is the step of section 5 of RFC 7748. |
| LadderSpec.ZeroPoint | SignalProtocolC/src/curve25519/curve25519-donna.c:747-777 | From the point zero every scalar leads to zero. |
| LadderMeaning.StepDoubles | SignalProtocolC/src/curve25519/curve25519-donna.c:635-708 | On y^2 = x^3 + 486662 x^2 + x, the step takes a point to the one that its tangent leads to. |
| LadderMeaning.StepAdds | SignalProtocolC/src/curve25519/curve25519-donna.c:635-708 | The step takes two points, whose difference has the x-coordinate of the base point, to the one that their chord leads to. |
| LadderMeaning.ScalarOne | SignalProtocolC/src/curve25519/curve25519-donna.c:736-781 | For scalar one the ladder ends with the base point itself, scaled by a power of 4 u. |
| LadderMeaning.ScalarTwo | SignalProtocolC/src/curve25519/curve25519-donna.c:736-781 | For scalar two it ends with (u^2 - 1)^2 over 4 u (u^2 + 486662 u + 1), scaled by powers of 4 u. |
| LadderMeaning.ClimbedTwice | SignalProtocolC/src/curve25519/curve25519-donna.c:736-781 | For every scalar k and bit b the ladder for 2 k + b ends with the double and the sum, in the order b asks for, of the two points for k, up to powers of 4 u. |
| Curve25519.Monty | SignalProtocolC/src/curve25519/curve25519-donna.c:635-708 | One ladder step on limb arrays computes the step of section 5 of RFC 7748, with limbs below 2^26 in and out. |
| Curve25519.SwapConditional | SignalProtocolC/src/curve25519/curve25519-donna.c:719-729 | The masked exclusive-or swaps two elements of 32-bit limbs exactly when the bit is one. |
| Curve25519.BitOfLittleEndian | SignalProtocolC/src/curve25519/curve25519-donna.c:747-750 | Bit r of byte i is bit 8 i + r of the scalar. |
| Curve25519.Round | SignalProtocolC/src/curve25519/curve25519-donna.c:752-760 | Swap, step and swap back on the eight buffers is one rung of the ladder, with limbs below 2^26. |
| Curve25519.ByteRounds | SignalProtocolC/src/curve25519/curve25519-donna.c:748-776 | Eight rounds with exchanged pointers and a shifted byte climb eight rungs, on the same eight buffers. |
| Curve25519.Cmult | SignalProtocolC/src/curve25519/curve25519-donna.c:736-781 | The result is where the ladder of section 5 of RFC 7748, started at (1 : 0) and (u : 1), stands after all 256 bits of the scalar, with limbs below 2^26. |
| Curve25519.Donna | SignalProtocolC/src/curve25519/curve25519-donna.c:853-870 | For every scalar and base point the output encodes x times z^(2^255-21) of that ladder's end, in the canonical form, also when the buffers overlap; what the end is, `LadderMeaning` says. |
| Curve25519.TopBitAgreesAlike | SignalProtocolC/src/curve25519/curve25519-donna.c:853-870 | Base points that differ in the top bit only give the same bytes for every secret. |
| Curve25519.ZeroAgrees | SignalProtocolC/src/curve25519/curve25519-donna.c:853-870 | The zero base point gives zero for every secret. |
| Curve25519.OneAgrees | SignalProtocolC/src/curve25519/curve25519-donna.c:853-870 | Secret one gives back the base point, times a power whose exponent is a multiple of 2^255 - 20. |
| Ed25519Field.FeLimbFolds | SignalProtocolC/src/curve25519/ed25519/fe_mul.c:58-181 | The sums with multiples by 2 and 19 taken on 32 bits are those of the folded schoolbook product. |
| Ed25519Field.FeLimbBound | SignalProtocolC/src/curve25519/ed25519/fe_mul.c:193-198 | The sums stay within 1.4 * 2^60 and 1.7 * 2^59. |
| Ed25519Field.FeLimbsValue | SignalProtocolC/src/curve25519/ed25519/fe_mul.c:172-181 | The ten sums stand for the field product. |
| Ed25519Field.FirstCarries | SignalProtocolC/src/curve25519/ed25519/fe_mul.c:200-219 | The first six carries keep the value and the stated ranges, without 64-bit overflow. |
| Ed25519Field.MiddleCarries | SignalProtocolC/src/curve25519/ed25519/fe_mul.c:221-233 | The next four carries keep the value and the stated ranges. |
| Ed25519Field.LastCarries | SignalProtocolC/src/curve25519/ed25519/fe_mul.c:235-241 | The last carries keep the residue and leave limbs within 1.01 * 2^25 and 1.01 * 2^24. |
| Ed25519Field.FeMul | SignalProtocolC/src/curve25519/ed25519/fe_mul.c:36-253 | Within 1.65 * 2^26 and 1.65 * 2^25 the result is the field product within 1.01 * 2^25 and 1.01 * 2^24, also when it overlaps an input. |
| Ed25519Field.LoadedValue | SignalProtocolC/src/curve25519/ed25519/fe_frombytes.c:28-39 | The shifted loads stand for the low 255 bits of the input. |
| Ed25519Field.FeFromBytes | SignalProtocolC/src/curve25519/ed25519/fe_frombytes.c:28-73 | The residue of the low 255 bits, within 1.01 * 2^25 and 1.01 * 2^24. |
| Ed25519Field.FeAdd | SignalProtocolC/src/curve25519/ed25519/fe_add.c:7-57 | Within 1.1 * 2^25 and 1.1 * 2^24 the field sum within 1.1 * 2^26 and 1.1 * 2^25, also when it overlaps an input. |
| Ed25519Field.Run | SignalProtocolC/src/curve25519/ed25519/fe_add.c:7-13 | Every program with at most one addition between multiplications stays within the ranges of all its operations and computes its meaning in the field. |

## Left out

- Objective-C and Swift sources, the demo and the tests: user interface and wrappers.
- The protobuf encoding: packing and unpacking are taken to be mutually inverse; messages are records, and the serialisers of `protocol.c` only enter through their version checks.
- Cryptographic primitives: AES, HMAC, SHA-512, signatures and random numbers are uninterpreted; in the term model distinct inputs give distinct keys, but for what agreement does not see, and MACs cannot be forged.
- Store callbacks, locking, reference counts, memory exhaustion and zeroing: the stores are values, and the callbacks' verdicts are parameters of each step.
- The identity store: trust, and whether saving an identity succeeds, are verdicts of the environment.
- Key exchange messages: whether the base-key signature verifies is a field of the message.
- SessionLedger.AtMostOnce: for runs that start without a session and start none from a held secret; what fails without that condition is proved too.
- SessionBuilder.ExchangeKeepsStore: a response is stored twice, and the verdict of the second store call, which stores the same record, is one with that of saving the identity.
- Conversation.ConversationIntegrity: wrapped messages carry Alice's own wrapping; other wrappings set up other sessions, which `SessionLedger` and `SetupOrigins` treat.
- PreKeyRedelivery.RedeliveryExact: for messages that open in the session they set up, as an honest sender's do (`SessionSetup.AliceIsUnderstood`).
- SessionSetup.PreKeysSetUp: for two parties without an earlier session with each other; records with more sessions are the subject of `SessionLedger`.
- The associativity of point addition, the primality of 2^255 - 19 and Fermat's theorem: the ladder is refined to tangents, chords and doublings of the scalar, and `crecip` to the exponent 2^255 - 21.
- `div_s32_by_2_25`, which nothing calls, and the rest of the Ed25519 code (`fe_sq`, `fe_invert`, group operations, scalars), which would repeat the same techniques or depends on files that are not part of this model.
- Timing behaviour of the masked operations.
- `fingerprint.c`, `curve.c`, `session_pre_key.c`, `uthash.h`, `utarray.h` and the other macros of `utlist.h`: mostly accessors, or not used by the modelled code.
- Aliasing between a record and the session states it holds: a record in `SessionObjects.StoredRecord` holds session values, and each decryption attempt runs on a fresh object.
- `memcpy`, `memmove` and fixed straight-line copies: each is one parallel assignment; the right-hand sides of `fproduct`, `fsquare_inner`, `fexpand` and `fe_mul` are functions of inputs that the outputs do not overlap before the writes.
- Curve25519.Cmult: the eight pointers are a record that is exchanged as a whole after each round, as the code does one by one.
- FieldBytes.Expand: the union of bytes shifted to disjoint positions is modelled as their sum.
- Kmp.Find: texts of at most 2^31 - 1 characters and start positions not before the text, since the code converts lengths to int and reads from the start position unchecked.
- Kmp.FindR: the same, for start positions within the text.
- MergeSort.Sort: run lengths are unbounded, where the macro doubles an int; the comparison must be a total preorder.
- VPool.Pool.Resize: requests whose size plus the block size exceeds 64 bits, and failing allocation, are not modelled.
- HkdfExpansion.Expand: only requests for which the loop ends, which `HkdfExpansion.LoopEnds` determines exactly.
- RatchetTheorems.DeliverExact: for runs in which no chain has sent 2^32 messages; integrity and at-most-once delivery are proved without this bound.
- GroupTheorems.GroupDeliverExact: likewise before a group session's counter wraps.
