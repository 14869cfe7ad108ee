# Verification of the identity provider and its resource server

This project models the small protocols of an identity provider, a message board that trusts it, and
a browser client, and proves what they keep over every run. Each protocol is a state machine with one
step per Redis command, Lua script, SQL transaction or critical section; calls interleave freely and
may stop between any two of their steps. Beside each state machine stands the imperative form of the
code (classes and loops), proved against the same step functions.

* **Refresh token rotation** (`Rtr*.dfy`). `RtrRedis` is the store as it runs: two keyspaces with
  deadlines, a GET followed at any later time by the rotation script. `RtrLedger` is an abstract
  automaton: a family is a line of tokens with an owner, open or closed. `RtrRefinement` proves that
  the store refines the ledger over whole runs; `RtrTheorems`, `RtrLinks` and `RtrSessions` draw the
  consequences; `RtrStore` is the class.
* **Browser client and server together** (`WebClient.dfy`, `FetchRuns.dfy`, `ClientServer*.dfy`). One tab with
  parallel requests, reloads, logins and network failures, against the store and other clients.
* **Outbox, relay, stream, consumer, read model** (`Events.dfy`, `Pipeline*.dfy`, `OutboxRelay.dfy`,
  `BoardConsumer.dfy`). Four stores and two services, with crashes between every pair of writes.
* **Keys** (`Base64Url.dfy`, `JwksCodec.dfy`, `JwksCache*.dfy`, `JwksStale.dfy`,
  `JwksOutage.dfy`, `JwksVerifier.dfy`).
  The published key set and its parser undo each other; the key cache under concurrent callers.
* **Codes, devices, tokens** (`Otp*.dfy`, `RedisCounter.dfy`, `Accounts*.dfy`, `IdentityRepo.dfy`,
  `AuthFlows.dfy`, `Tokens.dfy`, `PhoneProof.dfy`, `SessionTrail.dfy`, `Decimal.dfy`,
  `Collections.dfy`). `OtpModel` is the code store, `OtpProofs`, `OtpRate`, `OtpHour` and `OtpGuesses`
  what its runs keep, `OtpWitness` what they do not, `OtpStore` the class; `Accounts` is the device
  challenge and the account states, `AuthFlows` the calls that use all of it. `PhoneProof` runs codes,
  flow tokens and accounts together, and `SessionTrail` refresh tokens too.
* **Keyset pagination** (`Board.dfy`, `BoardReads.dfy`). A walk over pages while posts are inserted.

`dafny verify dfyconfig.toml` checks everything.

## What the code does not do

Where a promise is false of the code, the code is kept and the exact condition is proved.

* Single-flight refresh (web/src/api.ts:21-22) protects a tab as long as no reply to a committed
  rotation is lost: then no refresh it still waits for is answered with reuse and it never sends a
  rotated token (`HonestTabNeverTripsReuse`). Without that assumption the session ends
  (`LostReplyTripsReuse`). Whatever was lost before, a tab with no refresh in flight is safe from then on
  if and only if the token it has stored, if any, was never rotated (`SafeAgainIff`).
  Requests the tab gave up on are not covered: one whose GET was answered runs its script later, and
  can report reuse to nobody (`LateScriptTripsReuse`). `RefreshReuseIsExact` says exactly when a script
  reports reuse.
* `Refresh` and `VerifyDevice` do not look at the account status (`RefreshedSessionVerifies`,
  `ChallengeGate`); `CompleteReactivation` accepts PENDING and SUSPENDED too (`ReactivationGate`).
* A split `Rotate` answers differently from an atomic one in exactly one kind of state (`SplitIsExact`).
* The comment "refetch at most once per cooldown window" (pkg/jwks/verifier.go:170-172) holds for
  refreshes triggered by a miss; refreshes of a stale cache are not limited
  (`StaleRefreshesAreUnlimited`), and can begin up to a given moment exactly if one is called for already
  or the cache will be older than its lifetime by then (`StaleBeginsIff`). Overlapping refreshes can
  install the older key set last (`OlderKeySetCanWin`): the cache is sure to end with the newest one if and only if none but the newest
  waits to be installed, and it is installed if none waits (`NewestWinsIff`).
* Single use of a code (services/identity/internal/otp/store.go:2, 91-93): two calls succeed with one
  code exactly when at some moment both have read it and neither has deleted it (`TwoSuccessesMeet`,
  `MeetingSucceedsTwice`); any number can (`SplitSuccessesAreUnlimited`), and no two when the calls of the
  phone do not overlap, even if commands fail (`SeparateCodesAreSingleUse`).
* "5 verify attempts per code" holds when the Verify calls of a phone exclude one another from their
  HGETALL to their last command and no such command fails (`ExclusiveGuessesAreBounded`). Overlapping
  calls are not limited (`SplitGuessesAreUnlimited`), and neither are separate ones whose DEL fails: the
  error is ignored (services/identity/internal/otp/store.go:87), and the code stays
  (`FailedDropsAreUnlimited`). From a given state on, exclusive calls that do not fail keep the cap if
  and only if the comparisons made so far and those the hash still allows, at least one, are at most
  five (`CapHoldsIff`). A late HINCRBY leaves a hash without code or deadline, which only the empty code
  matches, after an overlap (`LateMissLeavesAHash`) or after an expiry in between
  (`ExpiryLeavesAHash`). The gRPC layer refuses an empty code.
* The limit of five code requests in an hour is per life of the counter; any half-open hour can let nine
  requests through, and never more (`RateBound`, `NineInAnHour`). The codes themselves are stored later:
  those of an hour are at most the requests let through in it and those still open when it begins
  (`CodesInAnHour`), so at most nine when requests take no time (`PromptCodesInAnHour`), and any number
  at one instant when they do (`CodesAtOneInstant`). Exactly: from a given state on, no more than B codes
  come within the hour if and only if the codes of this moment, the open requests and what the counter
  can still let through are at most B (`CodesInAnHourIff`).
* The month challenge is bounded per counter, counted when the limiter lets a call through
  (`ThreeComparisonsPerCounter`); the comparisons themselves may come late. From a clear counter to the
  next clear at most three are made if and only if no call let through before still waits to compare
  (`ThreeBetweenClearsIff`, `LateComparisonsCanExceedThree`).
* DELETED is terminal exactly as long as no reactivation is already past its check
  (`DeletedIsTerminalIff`).
* A consumer's drain of its pending entries ends if and only if every one of them is handled and acked
  (`DrainEndsIff`); an entry that never is blocks it for good (`PoisonBlocks`). A live consumer never
  retries (`LiveNeverRetries`).

## Model

| member | source | states |
|---|---|---|
| RtrStore.Store.Issue | services/identity/internal/rtr/store.go:76-83 | a login saves record and family pointer together and opens a new line in the ledger, whose only token is the one returned |
| RtrStore.Store.SaveToken | services/identity/internal/rtr/store.go:136-146 | record and family pointer are written together, both readable for 1 209 600 000 ms from now, and nothing else changes |
| RtrStore.Store.EvalRotate | services/identity/internal/rtr/store.go:33-46 | the Lua script statement by statement: when its integer reply is 1, 0 or -1, and exactly which keys it writes or deletes then |
| RtrStore.Store.Rotate | services/identity/internal/rtr/store.go:86-123 | a Rotate with nothing in between answers exactly as the ledger decides, and leaves store and ledger in agreement |
| RtrStore.Store.RevokeFamily | services/identity/internal/rtr/store.go:126-134 | one DEL of the family key and of exactly the non-empty tokens named; the line is closed and those tokens struck out |
| RtrStore.RotatedIsCurrent | services/identity/internal/rtr/store.go:98-115 | the token of a successful rotation is the last one of an open line of the returned user, readable for 14 days |
| RtrStore.CurrentRotates | services/identity/internal/rtr/store.go:86-115 | and whoever presents such a token in time is answered with the next one and the same user |
| RtrRefinement.RunRefines | services/identity/internal/rtr/store.go:33-146 | refinement over whole runs: two maps with deadlines, any number of calls in flight, revocations and passing time, agree with the ledger of lines step by step |
| RtrRefinement.ScriptSettles | services/identity/internal/rtr/store.go:33-46 | the script rotates the last token of a live line, revokes a live line for any other token of it, and calls everything else invalid |
| RtrRefinement.AliveIsReadable | services/identity/internal/rtr/store.go:34-37 | a family key is readable if and only if its line is open and its last token has not lapsed |
| RtrTheorems.LinearChain | services/identity/internal/rtr/store.go:99-115 | each token is rotated successfully at most once; successes are links of one chain and name the chain's user |
| RtrTheorems.ChainEnds | services/identity/internal/rtr/store.go:76-123 | the chain of a family begins with the token Issue returned and ends with the one the family key names |
| RtrLinks.ReuseIsExact | services/identity/internal/rtr/store.go:38-42 | the script reports reuse if and only if the family key is readable and some call has rotated the presented token before |
| RtrTheorems.RevocationIsPermanent | services/identity/internal/rtr/store.go:34-46 | once a family key is gone it never returns and no token of the family rotates again, not even in a call already past its GET |
| RtrTheorems.SplitIsExact | services/identity/internal/rtr/store.go:87-107 | GET and script as two steps differ from one step exactly when the record became unreadable while the family lives; a lapsed record is then a retired token and still reported as reuse |
| RtrTheorems.SharedDeadline | services/identity/internal/rtr/store.go:43-44 | a readable pointer and its token's record share one deadline, and no record of the family outlives the pointer |
| RtrSessions.LoginHolds | services/identity/internal/rtr/store.go:136-146 | in any reachable state a login hands out a token that its family holds for 14 days |
| RtrSessions.SequentialClientNeverFails | services/identity/internal/rtr/store.go:43-48 | a client that always presents its latest token in time gets a success with its own user id every time, for any number of rounds and whatever others do |
| RtrSessions.FloodOutcome | services/identity/internal/rtr/store.go:30-46 | n overlapping calls on one current token: exactly one success, one reuse report and n - 2 invalid tokens in every schedule; neither the family key nor the winner's record remains |
| WebClient.Tab.SetTokens | web/src/auth.ts:18-21 | both tokens are overwritten and nothing else changes |
| WebClient.Tab.ClearTokens | web/src/auth.ts:31-34 | both tokens are removed and nothing else changes |
| WebClient.Tab.RefreshSession | web/src/api.ts:23-34 | a request goes out if and only if none is in flight and a token is stored, and presents that token |
| WebClient.Tab.FinishRefresh | web/src/api.ts:36-52 | a pair is stored, a refusal clears, a network failure keeps; every parked call goes out again, marked as retried, after a pair and ends failed after anything else; all other calls keep their state |
| WebClient.Tab.FinishFetch | web/src/api.ts:59-67 | a first 401 with a session parks behind the shared refresh, which it starts if there is none; any other response ends the call; nothing else moves |
| FetchRuns.SentAtMostTwice | web/src/api.ts:54-67 | in every life of a tab an apiFetch goes out once or twice, and twice if and only if the refresh it was parked behind delivered a token pair |
| ClientServerProofs.HonestTabNeverTripsReuse | web/src/api.ts:19-67 | in every interleaving of a tab, the store and other clients, unless the reply to a committed rotation is lost, no refresh the tab still waits for is answered with reuse and no token is sent after it was rotated |
| ClientServerProofs.LateScriptTripsReuse | web/src/api.ts:47-51 | a run in which no committed rotation's reply is lost and the script of a request the tab gave up on reports reuse |
| ClientServerProofs.AnswerIsTaken | web/src/api.ts:36-46 | a rotated token that arrives is stored; a refusal, or a reply that the server failed to write, signs the tab out |
| ClientServerProofs.LostReplyTripsReuse | web/src/api.ts:47-51 | a run in which the reply to a committed rotation is lost; the tab then sends a rotated token, is answered with reuse and the family is gone |
| ClientServerAfresh.SafeAgainIff | web/src/api.ts:19-67 | in every reachable state with no refresh in flight, whatever was lost before: no continuation without a further lost reply sends a rotated token or has an awaited refresh answered with reuse, if and only if the stored token, if any, was never rotated |
| ClientServerReuse.ServerIsARun | web/src/api.ts:19-67 | seen from the store, whatever the tab does is one of the store's runs |
| ClientServerReuse.RefreshReuseIsExact | services/identity/internal/rtr/store.go:33-46 | the script of any refresh of the tab reports reuse if and only if its family is readable and its token was rotated before; then a committed rotation's reply was lost or the tab had given the request up |
| PipelineProofs.NoEventIsLost | services/identity/internal/outbox/relay.go:81-100 | at every moment each committed signup is unpublished, undelivered, pending or in the read model, with crashes and failures between all writes, several relays and several consumers |
| PipelineProofs.ReadModelConverges | services/board/internal/consumer/consumer.go:111-131 | authors is always a part of decimal id → signup nickname, and all of it once nothing is unpublished, undelivered or pending |
| OutboxRelay.Relay.LoadBatch | services/identity/internal/outbox/relay.go:61-79 | the batch is the first hundred unpublished rows in id order |
| OutboxRelay.Relay.PublishRow | services/identity/internal/outbox/relay.go:81-100 | XADD of the row id, "user.created" and the payload with decimal user id and nickname, then the mark; the mark only after the XADD |
| OutboxRelay.Relay.PublishRows | services/identity/internal/outbox/relay.go:81-101 | rows before a failure are sent and marked in order; a failed mark has sent one more; nothing after it |
| OutboxRelay.Relay.PublishBatch | services/identity/internal/outbox/relay.go:60-102 | one poll's whole effect on outbox and stream, for every place it can fail |
| OutboxRelay.PollsClear | services/identity/internal/outbox/relay.go:60-102 | n error-free polls publish exactly the first min(k, 100 n) of k rows, in id order |
| OutboxRelay.EntriesPerRow | services/identity/internal/outbox/relay.go:81-100 | over a relay's life a row is in the stream once for its mark and once more for each poll that failed between its append and its mark |
| OutboxRelay.PollIsARun | services/identity/internal/outbox/relay.go:60-102 | an undisturbed poll is a run of the system's append and mark steps |
| BoardConsumer.Consumer.ReadGroup | services/board/internal/consumer/consumer.go:58-67 | live: the next up to ten undelivered entries, which become pending under this name; draining: the first up to ten pending entries of this name, and live after an empty read |
| BoardConsumer.Consumer.HandleMessage | services/board/internal/consumer/consumer.go:81-131 | a well-formed user.created sets the nickname of its user id and is acked; a malformed or empty one and a failed upsert change nothing; any other type is acked; a failed ack is ignored |
| BoardConsumer.Consumer.RunOnce | services/board/internal/consumer/consumer.go:57-92 | one turn of the loop against the round function, for any failing upserts and acks |
| BoardConsumer.DrainClears | services/board/internal/consumer/consumer.go:54-92 | when every pending entry is handled and acked, n reads clear exactly min(p, 10 n) of p entries, and the cursor is ">" if and only if one of them was empty |
| BoardConsumer.PoisonBlocks | services/board/internal/consumer/consumer.go:81-91 | an entry whose handling or ack fails in every round keeps the consumer in its drain for ever |
| BoardConsumer.DrainEndsIff | services/board/internal/consumer/consumer.go:54-92 | with the same faults in every round the drain ends if and only if every pending entry is handled and acked, and then with read number ceil(p / 10) + 1 and not before |
| BoardConsumer.LiveNeverRetries | services/board/internal/consumer/consumer.go:81-91 | in live mode an entry left pending stays pending |
| BoardConsumer.RoundIsARun | services/board/internal/consumer/consumer.go:57-92 | an undisturbed round is a run of the system's read, handle and ack steps |
| Decimal.ParseFormat | services/identity/internal/usecase/auth.go:235-239 | ParseInt after FormatInt is the identity on every 64-bit integer |
| Decimal.ParseIntIff | services/identity/internal/usecase/auth.go:235-239 | ParseInt gives n if and only if n fits 64 bits and the string is an optional sign, zeros and the digits of n |
| Decimal.FormatIsInjective | services/identity/internal/repo/mysql/user_repo.go:68-70 | different user ids have different decimal keys |
| Base64Url.DecodeEncode | services/identity/internal/token/jwks.go:31-32 | unpadded base64url: decoding undoes encoding for every byte string |
| Base64Url.EncodeDecode | pkg/jwks/verifier.go:254-261 | encoding undoes decoding if and only if the string has no line breaks and no unused low bits |
| Base64Url.AlphabetIs | services/identity/internal/token/jwks.go:31-32 | the URL alphabet, letter by letter |
| Base64Url.Vectors | services/identity/internal/token/jwks.go:31-32 | the encodings of one, two and three bytes that RFC 4648 lists, without padding |
| Base64Url.UsualExponent | services/identity/internal/token/jwks.go:31-32 | the exponent 65537 is published as AQAB and read back |
| Base64Url.SetBytesOfBytes | services/identity/internal/token/jwks.go:31-32 | minimal big-endian bytes of a number are read back as that number |
| Base64Url.BytesOfSetBytes | pkg/jwks/verifier.go:263-264 | writing back what was read drops exactly the leading zero bytes |
| JwksCodec.JwksHandler | services/identity/internal/token/jwks.go:25-34 | one RS256 signing key per key, in order, with its kid and the base64url of its big-endian modulus and exponent |
| JwksCodec.FetchJwks | pkg/jwks/verifier.go:233-271 | an error exactly for a failed request or without a usable RSA entry; otherwise exactly the kids of the usable entries, each with the key of its last one |
| JwksCodec.CollectedIsLatest | pkg/jwks/verifier.go:249-266 | the map holds for each kid its last usable entry and nothing else |
| JwksCodec.CollectedIsEmpty | pkg/jwks/verifier.go:267-269 | there is no key if and only if no entry is usable |
| JwksCodec.SetRoundTrip | services/identity/internal/token/jwks.go:25-34 | for distinct non-empty kids the parser has exactly kid → (N, E) if and only if no modulus is negative and no exponent is, but for the least 64-bit integer |
| JwksCodec.FetchedPublished | pkg/jwks/verifier.go:223-271 | a published list of real keys is fetched whole; an empty list is an error |
| JwksCacheProofs.CountersConserved | pkg/jwks/verifier.go:205-214 | in every state attempts = successes + failures + fetches in flight, up to wrap-around |
| JwksCacheProofs.MissRefreshBound | pkg/jwks/verifier.go:170-179 | any interval of length L holds at most ⌊L / cooldown⌋ + 1 refreshes triggered by a miss |
| JwksCacheProofs.MissFetchBound | pkg/jwks/verifier.go:173-183 | since the start, misses have begun at most ⌊elapsed / cooldown⌋ + 1 fetches |
| JwksCacheProofs.StaleRefreshesAreUnlimited | pkg/jwks/verifier.go:194-202 | for every n a run in which n refreshes of a stale cache begin at one instant |
| JwksStale.StaleBeginsIff | pkg/jwks/verifier.go:194-202 | in every reachable state: no stale refresh can begin up to a later moment if and only if none is called for already and the cache will not be older than its lifetime then |
| JwksCacheProofs.KeysKept | pkg/jwks/verifier.go:216-219 | the cache is empty and never fetched, or one whole non-empty key set that was served |
| JwksOutage.OutageIsInvisible | pkg/jwks/verifier.go:194-214 | however many refreshes fail, the cache does not change and every call with a cached kid, but one already past a miss, gets the key it got before, whatever the other calls wait for |
| JwksOutage.CachedKidIsServed | pkg/jwks/verifier.go:111-120 | with a stale cache and no server, a call for a cached kid still gets its key |
| JwksOutage.CacheIsOnePublishedSet | pkg/jwks/verifier.go:216-220 | from the first success on the cache is exactly one list of keys the identity service published, never a mixture |
| JwksOutage.FirstSuccessStays | pkg/jwks/verifier.go:210-219 | after the first success the cache is never empty again |
| JwksOutage.OlderKeySetCanWin | pkg/jwks/verifier.go:205-219 | a run in which two refreshes overlap and the older key set is installed last |
| JwksOutage.NewestWinsIff | pkg/jwks/verifier.go:205-219 | once no fetch is to come back, every continuation that installs what waits ends with the newest key set if and only if nothing but the newest waits, and it is installed already if nothing does |
| JwksOutage.SerialStaysCurrent | pkg/jwks/verifier.go:205-219 | without such an overlap the cache holds the key set returned last |
| JwksVerifier.Verifier.constructor | pkg/jwks/verifier.go:73-98 | each positive option is kept and each other one replaced by its default, ten seconds and five minutes; the cache is empty |
| JwksVerifier.Verifier.Refresh | pkg/jwks/verifier.go:205-221 | one attempt is counted with its outcome, the counters wrapping at 2^64; a success installs exactly the fetched keys at that time, a failure keeps everything |
| JwksVerifier.Verifier.RefreshIfStale | pkg/jwks/verifier.go:194-202 | a refresh if and only if the cache was never fetched or is older than its lifetime |
| JwksVerifier.Verifier.GetKey | pkg/jwks/verifier.go:162-192 | a hit changes nothing; a miss in the cooldown fails; any other miss refreshes once, and answers a key if and only if the fetch brought it for that kid |
| JwksVerifier.KeyForIsARun | pkg/jwks/verifier.go:162-192 | a keyFor alone is a run of the interleaving, with the same key and the same cache |
| JwksVerifier.RotationPropagates | pkg/jwks/verifier.go:162-192 | an undisturbed call that misses outside the cooldown answers with the key that the reply brought for its kid |
| JwksVerifier.RelookAnswers | pkg/jwks/verifier.go:185-191 | in any interleaving a call past its refresh answers with what the map then installed holds |
| JwksVerifier.AnswersWereServed | pkg/jwks/verifier.go:162-192 | in every run a key that a call answers with was in a key set that came back, under that kid |
| JwksVerifier.StaleRefreshIsARun | pkg/jwks/verifier.go:194-202 | and so is a refreshIfStale |
| OtpStore.Store.Request | services/identity/internal/otp/store.go:43-68 | refused if and only if five are counted; otherwise the code that is returned is the one stored, with no attempts and three minutes; the counter grows by one and only a new one gets an hour, unless the EXPIRE fails |
| OtpStore.Store.Verify | services/identity/internal/otp/store.go:72-94 | when each of the three answers is given, and exactly what becomes of the hash: consumed by a match or a fifth failure, one more attempt otherwise |
| OtpStore.SentCodeIsAccepted | services/identity/internal/otp/store.go:43-94 | the code that is sent, presented for its phone within three minutes with nothing in between, is accepted |
| OtpStore.SentWasStored | services/identity/internal/otp/store.go:55-67 | in every run a code that was sent was stored |
| OtpStore.VerifyIsARun | services/identity/internal/otp/store.go:72-94 | an undisturbed Verify is a run of its commands |
| OtpStore.RequestIsARun | services/identity/internal/otp/store.go:43-68 | an undisturbed Request is a run of its commands |
| OtpStore.CodeSpellsItsNumber | services/identity/internal/otp/store.go:55-59 | a code has six digits and spells its number, so two numbers never share one |
| OtpProofs.OnlyIssuedCodesSucceed | services/identity/internal/otp/store.go:61-93 | in any interleaving a hash with a code ends three minutes after its issue, and a success with a non-empty code saw a code issued for that phone and not expired |
| OtpProofs.RateBound | services/identity/internal/otp/store.go:44-53 | any half-open hour lets at most nine requests of a phone through |
| OtpRate.EveryCodeWasAllowed | services/identity/internal/otp/store.go:51-67 | no code is stored without a request that the counter let through |
| OtpRate.CodesInAnHour | services/identity/internal/otp/store.go:43-68 | in any interleaving the codes stored in a half-open hour are at most the requests let through in it, nine, and those still open when it begins |
| OtpRate.PromptCodesInAnHour | services/identity/internal/otp/store.go:43-68 | when no request is open while the clock moves, any half-open hour sees at most nine codes |
| OtpHour.CodesInAnHourIff | services/identity/internal/otp/store.go:43-68 | in any state and for every B: no continuation stores more than B codes in the hour that begins now if and only if the codes stored at this moment, the open requests, and what the counter can still let through, five more if it goes within the hour, are at most B |
| OtpGuesses.TwoSuccessesMeet | services/identity/internal/otp/store.go:72-94 | two calls both succeed with one issued code only if at some moment both had read it and neither had deleted it |
| OtpGuesses.MeetingSucceedsTwice | services/identity/internal/otp/store.go:91-93 | from any such moment both can succeed |
| OtpGuesses.ExclusiveGuessesAreBounded | services/identity/internal/otp/store.go:72-94 | when the Verify calls of a phone exclude one another and none fails between its HGETALL and its last command, each code issued to it is compared with at most five times, whatever other phones, requests and the clock do |
| OtpGuesses.SeparateCodesAreSingleUse | services/identity/internal/otp/store.go:72-94 | when the Verify calls of a phone do not overlap, whether or not their commands fail, no two of them succeed with the same code |
| OtpGuesses.CapHoldsIff | services/identity/internal/otp/store.go:80-90 | from any state with a stored code and no busy call, every continuation with exclusive calls that do not fail keeps the cap of five if and only if the comparisons made so far and the wrong guesses the hash still allows, one if it is used up, are at most five |
| OtpWitness.NineInAnHour | services/identity/internal/otp/store.go:44-53 | the bound of nine is reached |
| OtpWitness.CodesAtOneInstant | services/identity/internal/otp/store.go:43-68 | for every n a run that stores n codes for one phone at one instant |
| OtpWitness.SplitSuccessesAreUnlimited | services/identity/internal/otp/store.go:73-93 | for every n a run in which n different calls succeed with the same issued code |
| OtpWitness.SplitGuessesAreUnlimited | services/identity/internal/otp/store.go:73-90 | for every n a run in which n wrong guesses are compared with one code |
| OtpWitness.FailedDropsAreUnlimited | services/identity/internal/otp/store.go:81-88 | for every n a run without overlap in which n wrong guesses are compared with one code and counted, because the DEL after each failure past the fourth fails |
| OtpWitness.LateMissLeavesAHash | services/identity/internal/otp/store.go:81-90 | a late HINCRBY after a success leaves a hash without code and deadline, which exactly the empty code matches |
| OtpWitness.ExpiryLeavesAHash | services/identity/internal/otp/store.go:73-90 | without any overlap, a code that expires between HGETALL and HINCRBY leaves the same hash |
| AccountsProofs.LoginNeverRegisters | services/identity/internal/usecase/auth.go:107-137 | in every reachable state no step of VerifyOtp changes the set of registered devices |
| AccountsProofs.DevicesHaveOrigins | services/identity/internal/usecase/auth.go:154-254 | every registered device came from its user's signup, a reactivation out of PENDING, DORMANT or SUSPENDED, or the right creation month |
| AccountsProofs.ThreeComparisonsPerCounter | services/identity/internal/devverify/limiter.go:34-51 | in any interleaving at most three of the calls counted between two clears reach the month comparison |
| AccountsRuns.ReactivationGate | services/identity/internal/usecase/auth.go:188-200 | an undisturbed reactivation makes exactly that account ACTIVE, out of PENDING, DORMANT or SUSPENDED, and registers its device; otherwise nothing changes |
| AccountsProofs.DeletedIsTerminalIff | services/identity/internal/usecase/auth.go:188-199 | a deleted account stays deleted in every continuation if and only if no reactivation of it is past its check |
| AccountsRuns.ChallengeGate | services/identity/internal/usecase/auth.go:206-227 | an undisturbed challenge succeeds if and only if fewer than three are counted and the month is right, whatever the status, and which error it ends with otherwise |
| AccountsRuns.LoginGate | services/identity/internal/usecase/auth.go:95-149 | an undisturbed login is routed by the state of the account and changes nothing |
| AccountsRuns.SignupGate | services/identity/internal/usecase/auth.go:154-175 | an undisturbed signup makes an ACTIVE account and its device for a free phone, and nothing for a registered one |
| AccountsRuns.Transitions | services/identity/internal/domain/user.go:31-46 | which statuses lead to which: DELETED is never left, PENDING never entered, DORMANT reached from ACTIVE alone |
| AccountsLate.LateComparisonsCanExceedThree | services/identity/internal/usecase/auth.go:211-223 | a run with four comparisons between a clear and the next |
| AccountsLate.ThreeBetweenClearsIff | services/identity/internal/usecase/auth.go:211-223 | in a reachable state with a clear counter, every continuation with at most one more counter makes at most three comparisons if and only if no call let through before still waits to compare |
| IdentityRepo.UserRepo.CreateUser | services/identity/internal/repo/mysql/user_repo.go:27-80 | user, credential, profile and outbox row all at once or not at all, for every statement that can fail; a conflict exactly for a registered phone |
| IdentityRepo.UserRepo.UpsertDevice | services/identity/internal/repo/mysql/user_repo.go:170-177 | one row per user and fingerprint, added or refreshed |
| IdentityRepo.UserRepo.UpdateStatus | services/identity/internal/repo/mysql/user_repo.go:142-145 | the status is overwritten whatever it was |
| IdentityRepo.SignupPictures | services/identity/internal/repo/mysql/user_repo.go:27-80 | the signup step of the event pipeline, with its guards, does to its picture of users, phones and outbox what the transaction does to the tables |
| IdentityRepo.CreateUserAsStep | services/identity/internal/repo/mysql/user_repo.go:27-80 | every CreateUser, committed, conflicting or failed at any statement, is that signup step |
| IdentityRepo.Limiter.Attempt | services/identity/internal/devverify/limiter.go:34-46 | passes if and only if fewer than three attempts are counted, and counts this one; only a new counter gets a deadline |
| IdentityRepo.Limiter.Reset | services/identity/internal/devverify/limiter.go:49-51 | exactly that user's counter goes |
| AuthFlows.Auth.VerifyOtp | services/identity/internal/usecase/auth.go:90-149 | routes if and only if the stored code is the one given, which is then gone; the route for every account state, with a flow token exactly for the three continuations; a refused code changes its own hash alone; the set of devices stays; a session carries the access token, the identity token and the refresh token of exactly that user, the last one current for 14 days |
| AuthFlows.Auth.CompleteSignup | services/identity/internal/usecase/auth.go:154-175 | succeeds if and only if the flow token is good, the phone free and no statement fails; then exactly one ACTIVE account with its profile, event, device and line of refresh tokens is new, and otherwise none of them; the session hands out the refresh token that was issued, current for 14 days |
| AuthFlows.Auth.CompleteReactivation | services/identity/internal/usecase/auth.go:180-201 | succeeds if and only if consent, flow token and status allow it; then only that account changes, its device is seen and one session opens for it; the session hands out the refresh token that was issued, current for 14 days |
| AuthFlows.Auth.VerifyDevice | services/identity/internal/usecase/auth.go:206-227 | succeeds if and only if flow token, limiter and month agree; the device is registered, the counter cleared and a session opened only then; the session hands out the refresh token that was issued, current for 14 days |
| AuthFlows.Auth.Refresh | services/identity/internal/usecase/auth.go:257-275 | the rotation is committed as the ledger decides before the user is read; a session hands out the rotated token, current for 14 days for the user of its access token; a current token of a known user always gets one, whatever the status |
| AuthFlows.RefreshLater | services/identity/internal/usecase/auth.go:257-275 | a current token, presented within 14 days, opens the next session |
| AuthFlows.RefreshTwice | services/identity/internal/usecase/auth.go:257-275 | so a session that was refreshed once is refreshed again |
| AuthFlows.RefreshedSessionVerifies | services/identity/internal/usecase/auth.go:290-308 | the access token of a session verifies at the board to exactly (decimal id, status name), its identity token only for the browser and with the nickname, and the access token continues no login flow |
| AuthFlows.ContinuationIsBound | services/identity/internal/usecase/auth.go:97-144 | the flow token of a route works for that flow alone and carries exactly its phone or user |
| PhoneProof.AccountNeedsItsCode | services/identity/internal/usecase/auth.go:90-175 | in every run of codes, flow tokens and accounts together, an account exists only for a phone to which a code was issued that was presented back within its three minutes |
| PhoneProof.SessionNeedsItsCode | services/identity/internal/usecase/auth.go:90-254 | a call of any flow ends in a session only for the account of the phone whose unexpired code was presented, in that call or in a VerifyOtp answered less than ten minutes before it began |
| PhoneProof.AdmittedIsAbout | services/identity/internal/usecase/auth.go:230-240 | a call begins only with a flow token of an earlier login, for the phone or the account of that login and less than ten minutes after it was minted; access and ID tokens and tokens of other keys begin nothing |
| PhoneProof.CodeIsEnough | services/identity/internal/usecase/auth.go:80-175 | and a run from the request of a code to an account and a session, for every phone, code and device |
| SessionTrail.RefreshGoesBackToACode | services/identity/internal/usecase/auth.go:242-288 | in every joint run of logins and refresh tokens: what a rotation hands out goes back, rotation by rotation for one user, to the first token of a login call of that user, which rests on an unexpired code presented for the user's phone |
| SessionTrail.AcceptedGoesBackToACode | services/identity/internal/usecase/auth.go:257-275 | and the access token of that refresh, as long as a resource server accepts it, names that user |
| Tokens.VerifyAccepts | pkg/jwks/verifier.go:115-142 | when a resource server accepts a token of the issuer: if and only if key, issuer, audience, expiry and subject fit |
| Tokens.OnlySignedIsAccepted | pkg/jwks/verifier.go:115-142 | whatever is presented: only RS256 tokens signed by the key published under their kid, for this issuer and audience and not ended, are accepted, and only signed claims are read |
| Tokens.OnlySignedContinues | services/identity/internal/token/issuer.go:86-106 | and a login flow continues only with what the issuer signed for that flow |
| Tokens.BoardAcceptsAccessOnly | services/identity/internal/token/issuer.go:44-82 | the board accepts unexpired access tokens alone and reads exactly (decimal id, status) |
| Tokens.FlowAcceptsItsPurposeOnly | services/identity/internal/token/issuer.go:86-106 | a flow token yields its subject only under its own purpose; no access or ID token yields any |
| Tokens.FlowKeepsUser | services/identity/internal/usecase/auth.go:230-240 | a flow continues with the user id it was started for, for every 64-bit id |
| Board.PostRepo.Create | services/board/internal/repo/mysql/post_repo.go:20-32 | the post is the new last row and is read back with the nickname the read model has for its author, or none |
| Board.PostRepo.FindByID | services/board/internal/repo/mysql/post_repo.go:34-48 | not found exactly when no post has the id; otherwise that post with its author's nickname or none |
| Board.PostRepo.List | services/board/internal/repo/mysql/post_repo.go:52-75 | exactly the newest posts below the cursor, newest first, as many as asked for or all there are, each with its author's nickname or none |
| Board.PostRepo.CreatePost | services/board/internal/usecase/board.go:29-35 | invalid posts and only those are refused before the database; a failure stores nothing |
| Board.PostRepo.ListPosts | services/board/internal/usecase/board.go:38-54 | pages of 1 to 100 posts, 20 by default, as above; the next cursor is the last id of a full page, and 0 otherwise |
| BoardReads.ListShowsNicknames | services/board/internal/repo/mysql/post_repo.go:52-75 | once nothing is unpublished, undelivered or pending, every listed post of a signed-up user shows the signup nickname, and a post of nobody who signed up shows none |
| Board.NewestIsDescending | services/board/internal/repo/mysql/post_repo.go:56-60 | the query returns exactly the posts below the cursor, strictly descending |
| Board.WalkIsSnapshot | services/board/internal/usecase/board.go:38-54 | with any page sizes and growing inserts a walk sees a prefix of the list at its first read, all of it if it ends, and it ends within one turn more than there are posts |
| Board.FullWalkIsEveryPost | services/board/internal/repo/mysql/post_repo.go:52-55 | a finished walk from 0 is every post of the first read if and only if none has the largest 64-bit id |

## Left out

- ClientServerProofs.HonestTabNeverTripsReuse: one tab, because local storage is shared between tabs and the in-flight promise is not. One direction over whole runs, because a lost reply does no harm to a tab that never refreshes again; state by state `SafeAgainIff` is exact.
- JwksOutage.SerialStaysCurrent: one direction, about whole runs; the exact condition, state by state, is `NewestWinsIff`.
- Redis and MySQL failures inside `rtr.Store`: a call that fails there is a call that stops.
- A key is readable strictly before its deadline; the millisecond of the deadline itself is a choice of the model.
- `newOpaqueToken` returns a value never used before; user ids come from the database and are new.
- `RevokeFamily` has no caller in the repository; it is modelled as a step that anyone may take.
- Outbox rows are named by their positions and stream entries by theirs; ids are assumed to be committed in increasing order, and post ids too. The stream is never trimmed.
- JSON is modelled by the values it carries; a payload is well-formed or it is not.
- The circuit breaker (sony/gobreaker): a fetch returns a key set or fails. Its states are not modelled.
- RSA, SHA-256 and signature bytes: a signed token names the key that signed it. Key ids are given.
- `Stats` of the verifier reads its counters one after the other; a torn snapshot is not modelled.
- Unforgeability is an assumption of `PhoneProof` and `SessionTrail`: a token signed by the issuer is one that the issuer handed out.
- `TouchLastLogin`, display names of devices in the interleaving, profile images and reputation: no decision depends on them.
- A database error in the login flows is a call that stops between two commands.
- The sign-up in `Pipeline` requires a non-empty nickname, which the gRPC layer enforces.
- Column lengths of the database, time zones other than UTC, and the layout of JSON responses.
- gRPC handlers, gateway, configuration, logging, React screens, load tests and Docker files: plumbing and user interface.
