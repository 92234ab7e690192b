# A verified model of the stock simulator's stateful protocols

The simulator keeps an instrument master that is staged, activated, expired and upgraded; rotates
refresh tokens; runs a market worker that shares subscriptions between threads, writes quotes and
one-minute candles and archives settlement prices; limits requests with token buckets; sends
account revisions to browsers; and buffers and aggregates what it displays. These Dafny modules
model those parts and prove what each keeps over whole runs.

`dafny verify dfyconfig.toml` checks the project.

## How the model is laid out

A part that changes state is a state machine: a datatype for its state, a function for each step, and
lemmas about every run of steps. Beside it stands a class whose fields the program updates in place; each
of its methods is proved to take exactly the specified steps. Loops of the program are loops here, proved
against the function that specifies their result. A step that is blocked (a lock is held, a
transaction has not begun) leaves the state as it is.

| module | models |
|---|---|
| `Text`, `Wrappers` | trimming, upper-casing and joining of ASCII text; options and results |
| `Instruments` | contracts, and when two descriptions are the same contract |
| `InstrumentMaster`, `ScripRules` | records, their acceptance, and staging a stream as a snapshot |
| `MasterActivation` | the activation transaction, statement by statement, and the expiry sweep |
| `InstrumentLifecycle` | runs of staging, activation and expiry with faults |
| `InstrumentService` | the same as loops and as a service object, with the joined text keys of its maps |
| `InstrumentUpgrade` | the repair of duplicate rows before the unique index |
| `RefreshSessions`, `RefreshRules`, `AuthService` | login, rotation, retry, replay and logout, after section 4.14.2 of RFC 9700 |
| `Subscriptions`, `SubscriptionRules`, `SubscriptionStore` | the live subscriptions of the worker, and the threads that share them |
| `MasterEpochs` | the worker's refreshes over the importer's database |
| `BrokerTokens` | what the broker sends against what the store resolves |
| `SubscriptionRuns` | runs in which one of the two fails |
| `SubscriptionWorker` | the store and its threads' methods as an object, with other threads in every gap |
| `QuoteWriter` | live quotes, candles and volumes of one symbol and its aliases |
| `SettlementArchive` | closing-window observations, their recorder and its flushes |
| `RateLimiter` | the token-bucket script and its set-up |
| `AccountHub` | the listeners of account revisions and the one-slot channels |
| `AccountEvents` | the incremental event-stream decoder (sections 9.2.5 and 9.2.6 of the WHATWG HTML Living Standard) |
| `CandleAggregation` | larger bars from candles |
| `QuoteStore` | the tick buffer and the store of displayed quotes |

What the model takes from outside: time and clocks are parameters of the steps; `close` is the parse of an
expiry as an instant, a partial function with no value for the empty text; `parse` is JSON.parse with the
check of an event; strike and tick formatting, the alias table of symbols (`resolve`), and the upper-casing
of worker and display symbols are functions given to the model (display symbols need theirs to be
idempotent, which `QuoteStore.NormalIsKeying` proves of trimming and upper-casing); the object mapper's choice
of stored defaults (`orm`), faults of the database, broker calls that raise, and the keys a store has dropped
are arguments chosen freely at every step. Hashing is injective, sealed retry responses open only for the
token they were sealed with, and issued tokens are new. Amounts are whole paise; rates and tokens are reals.

## What turned out not to hold

Each of these is a lemma with the input that shows it, beside the condition under which the code does meet the property:

- A government bond or another kind the trading policy does not support can become tradable on activation when the
  insert stores its false flag as the column default: the closing policy statement covers only indexes,
  999 tokens and other segments (`InstrumentLifecycle.GoldBondBecomesTradable`, exact condition in
  `MasterActivation.TradableIffSupported`).
- A closed contract can become tradable again: an activation reads its clock before it waits for its lock, and a
  sweep at the close may commit first (`InstrumentLifecycle.EarlyClockReopens`, exact condition in
  `InstrumentLifecycle.ReopensIff`).
- A lookup under an epoch can return another epoch's subscription when a synchronisation that began while the master
  was invalid writes while the master is invalid again, before one of the latest master has read the store
  (`SubscriptionRuns.LeftoverMixesRows`). The guard compares epochs, and both invalid masters have the same. The
  exact conditions are `SubscriptionStore.LeftoverWriteKeepsIff` for the write and
  `SubscriptionStore.AwaitingReadMixesIff` for what comes of it; in runs without such a write it cannot happen
  (`MasterEpochs.LookupSeesTheMasterRead`).
- A synchronisation still at work when the next connection opens can hide tokens that connection has subscribed
  (`SubscriptionRuns.StaleFinishHidesTokens`, `SubscriptionRuns.StaleRollBackHidesTokens`) or is about to subscribe
  (`SubscriptionRuns.LateFinishHidesTokens`). `BrokerTokens.StaleStepKeepsIff` and
  `BrokerTokens.StaleWriteHidesNothingIff` give the exact condition; runs that meet it resolve every token.
- When subscribing raises after tokens were unsubscribed, the rolled-back store claims tokens the broker no
  longer sends (`SubscriptionRuns.RollBackClaimsTokens`, exact condition in
  `BrokerTokens.RollBackIsExactIffNothingRemoved`).
- Decoding depends on chunk boundaries for frames within two characters of the limit and for CR CR LF
  (`AccountEvents.LongestFrameMayNotBeSplit`, `AccountEvents.CrCrLfMayNotBeSplit`).
- Bars of bars differ from bars when a list mixes seconds and milliseconds
  (`CandleAggregation.MixedResolutionsDoNotCompose`).
- A day's candle volumes exceed the last cumulative volume by exactly what it fell back in between
  (`QuoteWriter.DayVolumeIsLastPlusDrops`).
- A clock that goes back lets a bucket exceed its bound (`RateLimiter.ClockSetBackRefills`).

## Specification functions

The lemmas and methods below speak about these functions, which say what one step or computation does. What each
entry decision (which record, master, token, request, tick, reading or listener is taken) comes down to is proved
again on the plain fields, with the numbers written out, without these functions:

- `Instruments.SameDerivativeIdentity`, `IdentityDecimal`: derivative_identity.go lines 15-55
- `InstrumentMaster.ParseScrip`, `StageStream`: instrument_service.go lines 454-607 and 637-840
- `MasterActivation.Supported`: product/rules.go lines 104-137; `Review`, `Prepare`, `ActivatedRows`, `Activate`: instrument_service.go lines 843-941; `Expire`: lines 1001-1041
- `InstrumentUpgrade.Verified`, `Outranks`, `Survivor`, `Repaired`, `ArchiveOf`, `RunUpgrade`: instrument_upgrade.go lines 54-211
- `RefreshSessions.Judge`, `RefreshStep`: refresh_retry.go lines 34-126; `LoginStep`: login.go lines 15-65; `LogoutStep`: auth_service.go lines 42-51
- `Subscriptions.IndexOf`, `Request`, `Build`: worker.py lines 1212-1274; `SubscriptionStore.Apply`, `Found`: lines 1084-1152, 1276-1319, 1834-1851 and 1958-2015; `InstrumentLifecycle.LiveRows`: lines 1116 and 1123
- `QuoteWriter.Accepts`, `Step`: worker.py lines 1454-1588; `Delta`: lines 1605-1611; `MakeCandle`: lines 1762-1776
- `SettlementArchive.Admissible`, `Step`: settlement_store.py lines 16-51
- `RateLimiter.Level`, `ReplyFor`, `Charge`: rate_limit.go lines 19-61; `NewLimit`, `TtlSeconds`: lines 95-100
- `AccountHub.Step`: hub.go lines 86-153
- `AccountEvents.Normalise`, `Cut`, `Handle`, `Fed`: accountSync.ts lines 16-36; `Written`: hub.go lines 185-198
- `CandleAggregation.Key`, `Sort`, `Group`, `Aggregate`: marketData.ts lines 16-30
- `QuoteStore.Coalesce`: liveStream.ts lines 8-13; `MergeAll`, `Stream`: market-store.ts lines 69-81 and 116-132

## Model

| member | source | states |
|---|---|---|
| Instruments.SameIdentityIffSameClass | backend/internal/instrument/service/derivative_identity.go:15-47 | two contracts have the same identity if and only if they agree on instrument type, expiry date (or expiry text) and strike value (or strike text, or "no strike" for a future) |
| Instruments.IdentityIsEquivalence | backend/internal/instrument/service/derivative_identity.go:15-47 | contract identity is reflexive, symmetric and transitive |
| Instruments.DecimalOfDigits | backend/internal/instrument/service/derivative_identity.go:49-55 | the decimal reading of digits, a point and digits is the number they denote, exactly |
| Instruments.StrikeFormattingKeepsIdentity | backend/internal/instrument/service/derivative_identity.go:26-46 | padding a positive strike with a point or trailing zeros never changes the contract |
| InstrumentMaster.ParseScrip | backend/internal/instrument/service/instrument_service.go:454-607 | every accepted record has a known segment, a symbol, a token and a positive lot size, is active, and is tradable only if it is neither an index nor of the BSE |
| ScripRules.AcceptedIff | backend/internal/instrument/service/instrument_service.go:454-481 | a record is accepted if and only if it has a token and a symbol and is of the NSE, of the NFO, or is SENSEX of the BSE by token, symbol or name |
| ScripRules.RecordIsRead | backend/internal/instrument/service/instrument_service.go:483-607 | every field of an accepted record on the raw fields: trimmed texts, underlying from the name or the symbol without -EQ, option type from the type or the symbol's ending, strike as price text in hundredths for the NFO alone, given or default lot, kind and tradable flag by segment |
| ScripRules.RulesDetermineRecord | backend/internal/instrument/service/instrument_service.go:454-607 | those rules leave nothing open: two records that meet them are the same |
| ScripRules.StagedMembersAreRead | backend/internal/instrument/service/instrument_service.go:703-792 | the members of a stored staged master are exactly the accepted and targeted records of the stream, each read by the rules |
| ScripRules.StagedOnFields | backend/internal/instrument/service/instrument_service.go:810-832 | a stored master is STAGED if and only if it has records, no two share symbol and segment or token and segment, and each derivative has a lot and a readable expiry; it is partial unless it covers NSE and NFO whole |
| ScripRules.StagingErrors | backend/internal/instrument/service/instrument_service.go:637-808 | which error each unreadable stream or taken version gives, in the order of the checks; nothing is stored then, and otherwise one snapshot is added |
| InstrumentMaster.StagingKeepsAccepted | backend/internal/instrument/service/instrument_service.go:703-792 | processed = kept + skipped; no error is recorded if and only if contract keys and token keys are pairwise distinct and derivatives well formed, and then every accepted contract is kept in order |
| InstrumentMaster.StagedIffClean | backend/internal/instrument/service/instrument_service.go:810-832 | a readable stream is stored STAGED if and only if its accepted contracts are non-empty and clean, and then holds exactly those; otherwise FAILED |
| InstrumentService.Admit | backend/internal/instrument/service/instrument_service.go:731-768 | one accepted record against the seen maps with their joined text keys: the duplicate, lot-size and expiry rules decide as on key pairs |
| InstrumentService.ReadMembers | backend/internal/instrument/service/instrument_service.go:703-806 | the decoding loop with its batches: members, errors and counters do not depend on the batch size |
| InstrumentService.PriorKeyIsInjective | backend/internal/instrument/service/instrument_service.go:878-881 | joining symbol and segment with "|" confuses no two contracts whose segments lack that character |
| InstrumentService.PriorLookup | backend/internal/instrument/service/instrument_service.go:899-900 | looking a member up by its joined text finds exactly the stored row of its contract |
| InstrumentService.Service.StageSnapshot | backend/internal/instrument/service/instrument_service.go:637-840 | staging as a call: the database becomes what the stream specifies, or is unchanged on any error |
| MasterActivation.PrepareOutcome | backend/internal/instrument/service/instrument_service.go:882-904 | preparation succeeds if and only if every member has a readable expiry and keeps the identity of the stored row it replaces |
| MasterActivation.UpsertOutcome | backend/internal/instrument/service/instrument_service.go:909-911 | the insert stores a member under its contract whatever was there, and touches no other row |
| MasterActivation.RetireExpiredOutcome | backend/internal/instrument/service/instrument_service.go:913-925 | exactly the rows of members past their close are withdrawn again |
| MasterActivation.MemberOutcome | backend/internal/instrument/service/instrument_service.go:906-931 | what all statements of the transaction leave for a member, for every choice the mapper makes of stored defaults |
| MasterActivation.NonMemberOutcome | backend/internal/instrument/service/instrument_service.go:906-931 | every row that is no member is only withdrawn, and no row appears from nowhere |
| MasterActivation.ActivatedMember | backend/internal/instrument/service/instrument_service.go:851-939 | after a successful activation a member was admissible and its row is where the transaction put it |
| MasterActivation.ActivatesIff | backend/internal/instrument/service/instrument_service.go:860-904 | an activation succeeds if and only if the version is stored, staged, free of errors, complete and not empty, at most 20 rows trade or the members are at least 80 for every 100 of them, every expiry is readable and no stored derivative changes type, expiry or strike |
| MasterActivation.ActivationErrors | backend/internal/instrument/service/instrument_service.go:860-876 | which error an unknown, unvalidated, empty or shrunken master gives, in the order of the checks |
| MasterActivation.ActivationMemberErrors | backend/internal/instrument/service/instrument_service.go:882-904 | any other failure is that of the first member that cannot be admitted: an unreadable expiry, or else a changed identity |
| MasterActivation.LargeMasterIsNotTooSmall | backend/internal/instrument/service/instrument_service.go:866-873 | a master at least as large as what trades now is never refused for its size |
| MasterActivation.TradableOnFields | backend/internal/product/rules.go:104-137 | whether a member trades after its activation, on its expiry, kind, segment, token and the stored default |
| MasterActivation.SweptOnFields | backend/internal/instrument/service/instrument_service.go:1001-1041 | a sweep withdraws a row if and only if it trades, is of NFO or BFO and its close has come, and touches no other |
| MasterActivation.ActivationServesMaster | backend/internal/instrument/service/instrument_service.go:851-939 | the active rows are exactly the unexpired members of the version; tradable implies active; no index, 999-token or foreign-segment row is tradable, whether or not the insert replaced false flags |
| MasterActivation.ActivationSwitches | backend/internal/instrument/service/instrument_service.go:933-938 | afterwards exactly the activated version is ACTIVE, and no snapshot loses or changes members |
| MasterActivation.TradableIffSupported | backend/internal/product/rules.go:123-137 | the tradable rows are exactly the unexpired members the trading policy supports if and only if the mapper flipped no unexpired member that the policy neither supports nor blocks |
| MasterActivation.BondTradableIffDefaulted | backend/internal/instrument/service/instrument_service.go:927-931 | in a successful activation a government bond, which the policy does not support, becomes tradable if and only if its false flag is stored as the column default |
| MasterActivation.ImporterAgreesWithPolicy | backend/internal/instrument/service/instrument_service.go:575-587 | what the importer lists as tradable the trading policy supports and no policy statement blocks, if and only if its token does not begin with 999 |
| InstrumentService.PrepareMember | backend/internal/instrument/service/instrument_service.go:882-903 | flags, expiry check and identity check of one member decide as specified |
| InstrumentService.PrepareMembers | backend/internal/instrument/service/instrument_service.go:882-904 | the loop over members stops at the first inadmissible one with its error, or returns all with their flags |
| InstrumentService.UpsertMembers | backend/internal/instrument/service/instrument_service.go:909-911 | the batched insert, row by row |
| InstrumentService.RetireMembers | backend/internal/instrument/service/instrument_service.go:913-925 | the loop that retires expired members again |
| InstrumentService.RunStatements | backend/internal/instrument/service/instrument_service.go:906-931 | the statements of the transaction in their order |
| InstrumentService.Service.ActivateSnapshot | backend/internal/instrument/service/instrument_service.go:843-941 | all or nothing: on any error or fault rows and snapshots are unchanged, otherwise they are what the activation specifies |
| InstrumentService.Service.ExpireInstruments | backend/internal/instrument/service/instrument_service.go:1001-1041 | every tradable futures-and-options row past its close is withdrawn, no other row changes, and the count is their number |
| InstrumentLifecycle.SnapshotsStaySound | backend/internal/instrument/service/instrument_service.go:813-832 | in every run each STAGED or ACTIVE snapshot is well formed with distinct contracts, and at most one is ACTIVE |
| InstrumentLifecycle.RunServesOneMaster | backend/internal/instrument/service/instrument_service.go:851-939 | in every run of staging, activation and expiry each active row is a member of the one ACTIVE version and no blocked row is tradable |
| InstrumentLifecycle.IdentityIsFrozen | backend/internal/instrument/service/instrument_service.go:899-902 | in every run rows are never dropped, and a row with an expiry keeps its instrument type, expiry date and numeric strike for ever |
| InstrumentLifecycle.ReopensIff | backend/internal/instrument/service/instrument_service.go:849-925 | in one call a closed contract becomes tradable if and only if the call is an activation that read its clock before the close and whose master trades the contract |
| InstrumentLifecycle.TradableAgainOnlyIfReopened | backend/internal/instrument/service/instrument_service.go:849-925 | over any run, whatever the clocks say, a closed contract is tradable again only if such an activation committed in between |
| InstrumentLifecycle.EarlyClockReopens | backend/internal/instrument/service/instrument_service.go:849-855 | from an empty database: a record activated before its close and retired by a sweep at the close is tradable again after the activation of the next master by a call that had read its clock before |
| InstrumentLifecycle.IndexFutureTradesAgain | backend/internal/instrument/service/instrument_service.go:849-855 | the same for one concrete record of an index future |
| InstrumentLifecycle.NeverTradableAgain | backend/internal/instrument/service/instrument_service.go:882-925 | with non-decreasing time, a contract that was not tradable after a step at or past its close is never tradable again |
| InstrumentLifecycle.RetiredAtCloseForEver | backend/internal/instrument/service/instrument_service.go:1001-1041 | the first activation or sweep at or past its close retires a futures-and-options contract for good |
| InstrumentLifecycle.RetiredForEver | backend/internal/instrument/service/instrument_service.go:860-865 | in every run a version that was ACTIVE is afterwards ACTIVE or retired, and once retired it is never ACTIVE again |
| InstrumentLifecycle.EpochNeverReturns | backend/internal/instrument/service/instrument_service.go:857-938 | if a version is ACTIVE with equally many live rows at two moments, it was ACTIVE with the very same live rows at every moment in between |
| InstrumentLifecycle.LaterLiveRowsWereLive | backend/internal/instrument/service/instrument_service.go:1001-1041 | the live rows of a version at any later moment were live while it was ACTIVE |
| InstrumentLifecycle.BondRunBecomesTradable | backend/internal/instrument/service/instrument_service.go:927-931 | from an empty database: a provider record of a government bond, staged and activated, ends as an unsupported row that is tradable if and only if its flag took the column default |
| InstrumentLifecycle.GoldBondBecomesTradable | backend/internal/instrument/service/instrument_service.go:927-931 | one concrete record of a bond that ends tradable and unsupported |
| InstrumentUpgrade.OutranksIsStrictOrder | backend/internal/model/instrument_upgrade.go:189-190 | verified first, then newest update, then highest id is a strict total order on the rows of a group |
| InstrumentUpgrade.BestExists | backend/internal/model/instrument_upgrade.go:189-190 | every non-empty group has a row that no other outranks |
| InstrumentUpgrade.BestIsUnique | backend/internal/model/instrument_upgrade.go:189-190 | it has only one |
| InstrumentUpgrade.RepairIsUniqueAndComplete | backend/internal/model/instrument_upgrade.go:166-211 | after the repair contracts are unique and the set of contracts is unchanged |
| InstrumentUpgrade.RepairKeepsSingletons | backend/internal/model/instrument_upgrade.go:170-187 | a row that had no duplicate is untouched and not archived |
| InstrumentUpgrade.SurvivorActiveIffVerified | backend/internal/model/instrument_upgrade.go:199-204 | the survivor of a group stays as it was if it matches the active master, and is deactivated otherwise |
| InstrumentUpgrade.SurvivorOnFields | backend/internal/model/instrument_upgrade.go:166-204 | the columns on which the survivor must agree with a member of the active master to stay as it was; otherwise it is deactivated and only a missing version is filled in |
| InstrumentUpgrade.SurvivorIsNewest | backend/internal/model/instrument_upgrade.go:189-190 | the survivor is the master's own row if there is one, then the last updated with undated rows last, then the one with the highest id |
| InstrumentUpgrade.ArchivedOnFields | backend/internal/model/instrument_upgrade.go:193-198 | each row of a duplicated contract, and no other, is archived as it was, with its contract, its survivor, whether it is the survivor, and whether the survivor is the master's own |
| InstrumentUpgrade.RepairIsLossless | backend/internal/model/instrument_upgrade.go:193-208 | the original table is rebuilt exactly from the untouched rows and the archived payloads |
| InstrumentUpgrade.SurvivorCount | backend/internal/model/instrument_upgrade.go:189-208 | there is exactly one survivor for each duplicated contract |
| InstrumentUpgrade.RepairCounts | backend/internal/model/instrument_upgrade.go:210-211 | archived = removed + number of duplicate groups |
| InstrumentUpgrade.QuarantinedIffUnverified | backend/internal/model/instrument_upgrade.go:199-204 | the quarantined rows are exactly the survivors of groups the master does not verify |
| InstrumentUpgrade.RepairOfUniqueChangesNothing | backend/internal/model/instrument_upgrade.go:84-88 | a table without duplicates is left alone, so a second repair changes nothing |
| InstrumentUpgrade.CanonicalUpgradeMembers | backend/internal/model/instrument_upgrade.go:137-163 | the loop trusts a master if and only if there is one activated, complete, error-free snapshot whose members are well formed and distinct |
| InstrumentUpgrade.TrustedOnFields | backend/internal/model/instrument_upgrade.go:137-163 | what makes the one active snapshot trusted, on its own fields and those of its members; anything else verifies no row |
| InstrumentUpgrade.ActivatedMasterIsTrusted | backend/internal/model/instrument_upgrade.go:137-163 | in every run of staging, activation and expiry the active snapshot is one the repair trusts |
| InstrumentUpgrade.UpgradeOutcome | backend/internal/model/instrument_upgrade.go:84-123 | the upgrade fails if and only if duplicates meet a foreign reference or an archived id; otherwise the unique index can be created and nothing is lost |
| InstrumentUpgrade.UpgradeStatements | backend/internal/model/instrument_upgrade.go:84-123 | the statements of the upgrade in their order |
| InstrumentUpgrade.ContractIndex.CreateIndex | backend/internal/model/instrument_upgrade.go:75-123 | repair and index creation commit together or not at all |
| InstrumentUpgrade.ContractIndex.Upgrade | backend/internal/model/instrument_upgrade.go:54-124 | an already valid index is left alone, otherwise the upgrade runs with the trusted master |
| RefreshSessions.RunKeepsChains | backend/internal/auth/service/refresh_retry.go:53-119 | in every run each login has one linear chain of sessions in which only the newest may be unrevoked, and retries point forward along it |
| RefreshSessions.OneUnrevokedPerLogin | backend/internal/auth/service/refresh_retry.go:99-103 | a login has at most one unrevoked session, the last of its chain |
| RefreshSessions.RevokedRowsAreFrozen | backend/internal/auth/service/refresh_retry.go:71-86 | a revoked session never changes again |
| RefreshSessions.OneSuccessor | backend/internal/auth/service/refresh_retry.go:71-118 | no refresh token yields two different successors: a later grant for it repeats the first response and changes nothing |
| RefreshSessions.ReplayIsSigned | backend/internal/auth/service/refresh_retry.go:35-38 | only a token the server issued is ever treated as a replay |
| RefreshSessions.ReplayKillsUser | backend/internal/auth/service/refresh_retry.go:84-85 | a replay revokes every session of the user, and no retry leads out of them |
| RefreshSessions.ReplayIsFinal | backend/internal/auth/service/refresh_retry.go:84-85 | after a rejected replay no refresh token issued to that user before is ever accepted again, by rotation or by retry |
| RefreshSessions.LogoutIsFinal | backend/internal/auth/service/auth_service.go:42-51 | after logging out with the newest token no token of that login is ever accepted again |
| RefreshSessions.RetryIff | backend/internal/auth/service/refresh_retry.go:71-86 | a token whose session is revoked is answered again if and only if the recorded key comes inside its window and the successor's session is its owner's, unrevoked and unexpired; then it is the first response and nothing changes |
| RefreshSessions.RotationRecords | backend/internal/auth/service/refresh_retry.go:87-118 | a presented token whose session is unrevoked is rotated, and a key records the new tokens, sealed to the old one, for 120 seconds |
| RefreshSessions.LostResponseIsRecovered | backend/internal/auth/service/refresh_retry.go:71-83 | over a whole run, a retry within 120 seconds returns exactly the first response if and only if its refresh token is still live |
| RefreshRules.RefreshRotatesIff | backend/internal/auth/service/refresh_retry.go:34-70 | a refresh rotates if and only if the token was issued as a refresh token and had not expired when parsed, the trimmed key has at most 128 characters, the owner is a user, and the session is the owner's, unrevoked and ends after now |
| RefreshRules.RefreshErrors | backend/internal/auth/service/refresh_retry.go:34-70 | which error each other refresh gives, in the order of the checks, and that none changes anything |
| RefreshRules.RevokedTokenIsAnswered | backend/internal/auth/service/refresh_retry.go:71-86 | a presented token whose session is revoked is a retry that changes nothing, or a replay that revokes exactly the owner's unrevoked sessions |
| RefreshRules.RotationState | backend/internal/auth/service/refresh_retry.go:87-118 | what a rotation leaves: the old row revoked and sealed, a successor for 604,800 seconds, access for 21,600, every other row as it was |
| RefreshRules.NewestTokenRotates | backend/internal/auth/service/refresh_retry.go:53-119 | over a whole run, any refresh within 604,800 seconds of the login or rotation that issued its token rotates it for the same user, unless a logout, an exchange or a replay came between |
| RefreshRules.LoginIff | backend/internal/auth/service/login.go:15-65 | a login succeeds if and only if the credentials are those of a user, and stores one session |
| RefreshRules.LogoutIff | backend/internal/auth/service/auth_service.go:42-51 | a logout succeeds if and only if the token parses and its session is unrevoked, and revokes that session alone |
| AuthService.Service.RevokeRefreshSession | backend/internal/auth/repository/auth_repository.go:87-99 | an unrevoked row is revoked; a revoked or unknown one is an error and changes nothing |
| AuthService.Service.Login | backend/internal/auth/service/login.go:15-65 | login as a call keeps the chain invariant and starts a chain |
| AuthService.Service.Refresh | backend/internal/auth/service/refresh_retry.go:34-126 | refresh as a call: every branch is the step specified |
| AuthService.Service.Reuse | backend/internal/auth/service/refresh_retry.go:71-86 | the branch of a revoked session: retry or revocation of all |
| AuthService.Service.Rotate | backend/internal/auth/service/refresh_retry.go:87-118 | the branch of an active session: replacement inserted, old row revoked and sealed |
| AuthService.Service.Logout | backend/internal/auth/service/auth_service.go:42-51 | logout as a call: the step specified |
| Subscriptions.EnterAllOutcome | python-services/market-worker/worker.py:394-398 | entering a row under its symbols replaces what is there, except that a row of another segment never replaces one of the NSE |
| Subscriptions.IndexIsSound | python-services/market-worker/worker.py:1220-1235 | a symbol of the index leads to a listed row found under it |
| Subscriptions.IndexPrefersNse | python-services/market-worker/worker.py:394-398 | every listed row is found, and a symbol of an NSE row leads to an NSE row, in whatever order rows come |
| Subscriptions.BuildIsFromRows | python-services/market-worker/worker.py:1251-1274 | every subscription is under its own key, answers a request, and is to the token of a row or a fixed index token |
| Subscriptions.IndexNamesIgnoreRows | python-services/market-worker/worker.py:1237-1259 | an index name is subscribed to its fixed token whatever the rows hold, and an index of the BSE not at all |
| Subscriptions.OnlyEligibleRowsAreSubscribed | python-services/market-worker/worker.py:1221-1235 | no expired derivative and no bond is ever subscribed |
| SubscriptionRules.IndexHolds | python-services/market-worker/worker.py:394-398 | the index holds under each symbol the last listed row of the NSE found under it, or the last of all when none of the NSE is |
| SubscriptionRules.BuildIsExact | python-services/market-worker/worker.py:1212-1274 | what is subscribed is exactly what the requests lead to on rows and fixed indexes: canonical name before upper case, indexes before rows, type 1 for NSE and 2 for NFO, a later request before an earlier one of the same token and type |
| SubscriptionRules.BuildCoversRequests | python-services/market-worker/worker.py:1251-1274 | every request that leads to a token has it subscribed |
| SubscriptionRules.EquityIsSubscribed | python-services/market-worker/worker.py:1260-1273 | a requested equity is subscribed on the cash exchange under its canonical symbol by the last row of the NSE found under it |
| SubscriptionRules.DerivativeIsSubscribed | python-services/market-worker/worker.py:1221-1273 | a requested derivative without a cash row is subscribed on the derivatives exchange under its own symbol |
| SubscriptionRules.UnansweredAddsNothing | python-services/market-worker/worker.py:1255-1259 | a request that no fixed index and no row answers adds nothing |
| Subscriptions.BuildIndex | python-services/market-worker/worker.py:1219-1235 | the nested loops over rows and symbols build the specified index |
| Subscriptions.BuildSubscriptions | python-services/market-worker/worker.py:1212-1274 | the loop over requests builds the specified subscriptions |
| SubscriptionStore.BuildingIsSound | python-services/market-worker/worker.py:1212-1274 | the worker's own builder meets what the lookup theorem asks of a builder |
| SubscriptionStore.RunKeepsEpochInv | python-services/market-worker/worker.py:1142-1151 | in every interleaving of any number of synchronisations, what the store holds under the latest master, or while one that began in it has yet to read the store, and what every synchronisation that began in it has read, comes from that master |
| SubscriptionStore.LookupSeesOneEpoch | python-services/market-worker/worker.py:1092-1096 | in every interleaving of any number of synchronisations a lookup under an epoch returns only what comes from that epoch's rows, or a fixed index token, under its own key, as long as no epoch comes back over another to a synchronisation that began in it and none that began while the master was invalid, before the last activation, writes while it is invalid again and one of the latest master has yet to read the store |
| SubscriptionStore.OneWayIsHonest | python-services/market-worker/worker.py:1121-1122 | masters that are activated again only while they are the latest never come back to a synchronisation that began in them, whatever the threads do |
| SubscriptionStore.LeftoverWriteKeepsIff | python-services/market-worker/worker.py:1297-1315 | a write left over from an invalid master keeps that invariant if and only if no synchronisation of the latest master has yet to read the store, or what it writes comes from that master anyway |
| SubscriptionStore.AwaitingReadMixesIff | python-services/market-worker/worker.py:1286-1300 | when a synchronisation reads the store while its master is invalid and installs once it is back, every lookup under the master comes from it if and only if every entry of the store that the synchronisation does not itself want does |
| SubscriptionRuns.ReturningEpochMixesRows | python-services/market-worker/worker.py:1285-1300 | the hypothesis that no epoch comes back over another is needed: a run from the start in which one does and a lookup mixes rows; the importer's database never produces it (MastersGoOneWay) |
| SubscriptionRuns.LeftoverMixesRows | python-services/market-worker/worker.py:1285-1300 | a run from the start with two synchronisations and masters that go one way: one that began while the master was invalid installs the first master's rows into the second |
| MasterEpochs.SameSignatureSameRows | python-services/market-worker/worker.py:1111-1122 | two refreshes that read the same version and row count, in any history of staging, activation and expiry, read the same live rows, and so did every refresh in between |
| MasterEpochs.MastersGoOneWay | python-services/market-worker/worker.py:1111-1124 | the epochs that refreshes read from the database go one way |
| MasterEpochs.LookupSeesTheMasterRead | python-services/market-worker/worker.py:1092-1149 | over any history of the database a lookup under the epoch of a refresh returns only what comes from the rows that were live when that refresh read its signature, even if a sweep came between reading signature and rows |
| BrokerTokens.RunKeepsBrokerInv | python-services/market-worker/worker.py:1285-1315 | in every interleaving whose stale writes cover what the broker sends or is about to send, the store holds both, and what the broker sends stays within what the connection's own synchronisation has read, phase by phase |
| BrokerTokens.BrokerTokensResolve | python-services/market-worker/worker.py:1296-1315 | in those runs, while the master of a connection stands, every token the broker sends is resolved at every moment, whether or not calls raise and whoever else is still at work |
| BrokerTokens.StaleStepKeepsIff | python-services/market-worker/worker.py:1297-1315 | a step of a synchronisation that outlived its connection keeps the invariant if and only if it covers what the broker sends and what the connection or its own synchronisation is about to subscribe |
| BrokerTokens.StaleWriteHidesNothingIff | python-services/market-worker/worker.py:1297-1315 | a stale write hides no token, neither now nor once the calls that are due have gone through, if and only if it covers them |
| SubscriptionRuns.StaleFinishHidesTokens | python-services/market-worker/worker.py:1312-1315 | a run from the start: a synchronisation that outlives its connection ends by removing tokens that the next connection has subscribed |
| SubscriptionRuns.StaleRollBackHidesTokens | python-services/market-worker/worker.py:1306-1311 | a run from the start: its call to subscribe raises, and it rolls back over tokens that the next connection has subscribed |
| SubscriptionRuns.LateFinishHidesTokens | python-services/market-worker/worker.py:1301-1315 | a run from the start: a stale write leaves every token resolved, and hides the one that the connection's own synchronisation subscribes next |
| BrokerTokens.BrokerMatchesStore | python-services/market-worker/worker.py:1301-1315 | between synchronisations the broker sends exactly what the store resolves, unless a stale write disagreed or subscribe raised right after tokens were unsubscribed |
| BrokerTokens.StaleStepKeepsExactIff | python-services/market-worker/worker.py:1297-1315 | a step of a synchronisation that outlived its connection keeps store and broker alike if and only if it writes exactly what the broker sends or is about to send, or the connection's own synchronisation will write again |
| BrokerTokens.RollBackIsExactIffNothingRemoved | python-services/market-worker/worker.py:1306-1311 | after subscribe raises, the rolled-back store matches the broker if and only if nothing had been unsubscribed |
| SubscriptionRuns.RollBackClaimsTokens | python-services/market-worker/worker.py:1301-1311 | a run from the start: the old demand is unsubscribed, subscribing the new one raises, and the rolled-back store resolves a token the broker does not send |
| SubscriptionWorker.SyncSettles | python-services/market-worker/worker.py:1285-1319 | a synchronisation that nothing comes between ends with the store and the broker holding what is wanted, or with the store as it was if a call raised |
| SubscriptionWorker.InstrumentStore.Lookup | python-services/market-worker/worker.py:1092-1096 | the lookup under the lock: what it finds comes from the expected master, and it finds whatever the broker sends, in the runs of the theorems above |
| SubscriptionWorker.InstrumentStore.CommitRefresh | python-services/market-worker/worker.py:1121-1152 | the commit of a refresh: nothing on an equal signature, otherwise rows, epoch and subscriptions together, and whether the subscriptions changed |
| SubscriptionWorker.InstrumentStore.InvalidateMaster | python-services/market-worker/worker.py:1843-1851 | once the master is invalid no lookup finds anything, whatever epoch it expects |
| SubscriptionWorker.InstrumentStore.OpenConnection | python-services/market-worker/worker.py:1965-1971 | a connection subscribes what the store held when it opened, or nothing if the call raises, and what the broker then sends is resolved |
| SubscriptionWorker.InstrumentStore.SyncDemandSubscriptions | python-services/market-worker/worker.py:1285-1319 | the whole synchronisation with other threads at each of its six gaps: its steps are those specified and the broker's tokens are resolved afterwards, in the runs of the theorem above; when nothing comes between, the store, the broker, the returned tokens and the raise are exactly as wanted |
| QuoteWriter.BuiltIsInOrder | python-services/market-worker/worker.py:1467-1533 | the accepted ticks have positive prices and never go back in time |
| QuoteWriter.TickIsAcceptedIff | python-services/market-worker/worker.py:1467-1533 | a tick becomes the last quote and, if it builds, the last close and candle, if and only if it is live, has a price, is at most 5,000,000 microseconds ahead of the clock and no tick accepted before is later; otherwise nothing changes |
| QuoteWriter.HistoryIsCut | python-services/market-worker/worker.py:1583-1588 | the stored list is the newest candles, all of them or as many as the limit |
| QuoteWriter.AddedVolume | python-services/market-worker/worker.py:1605-1611 | what a tick adds: the rise of the cumulative volume since the tick before on its UTC day, never less than zero, or all of it on a new day |
| QuoteWriter.MinutesAndDays | python-services/market-worker/worker.py:1497-1499 | a candle starts on a whole minute and takes the ticks of its sixty seconds |
| QuoteWriter.HistoryIsNewestCandles | python-services/market-worker/worker.py:1535-1588 | the stored list, updated at its head and trimmed at each write, is exactly the newest of all candles |
| QuoteWriter.HistoryIsRight | python-services/market-worker/worker.py:1573-1588 | from an empty history the list is strictly descending, one candle a minute, each the first, highest, lowest and last price and the added volume of its minute's accepted ticks |
| QuoteWriter.MinuteIsExact | python-services/market-worker/worker.py:1497 | the ticks of a candle are exactly those of its minute |
| QuoteWriter.EveryMinuteHasCandle | python-services/market-worker/worker.py:1581-1586 | no minute with an accepted tick is without a candle |
| QuoteWriter.DayVolumeIsLastPlusDrops | python-services/market-worker/worker.py:1605-1611 | a UTC day's candles add up to its last cumulative volume plus all it ever fell back by |
| QuoteWriter.VolumeAddsUpIffNeverFalls | python-services/market-worker/worker.py:1605-1611 | they add up to the last cumulative volume if and only if it never fell during the day |
| QuoteWriter.QuoteWriter.WriteSymbol | python-services/market-worker/worker.py:1574-1588 | one symbol's candle from the cached head, replaced or pushed, and the list trimmed |
| QuoteWriter.QuoteWriter.WriteTimes | python-services/market-worker/worker.py:1530-1533 | the time of the last quote for every symbol of the family |
| QuoteWriter.QuoteWriter.WriteCandles | python-services/market-worker/worker.py:1558-1588 | the loop over the family keeps all its symbols alike |
| QuoteWriter.QuoteWriter.Write | python-services/market-worker/worker.py:1454-1588 | a write as a call: an acceptable tick is the last quote, and the newest candle and close, of every symbol of the family alike; any other changes nothing |
| SettlementArchive.NewestIsLatest | python-services/market-worker/settlement_store.py:26-29 | per key, the observation to be kept is one that was accepted and none accepted is later |
| SettlementArchive.KeptIff | python-services/market-worker/settlement_store.py:16-30 | a reading is kept if and only if its source belongs to its mode, it has a price, its day is no weekend and it is of the last sixty seconds up to 15:30, or 15:40 for derivatives from 3 August 2026 on; it then waits unless one as late does |
| SettlementArchive.StepKeepsInv | python-services/market-worker/settlement_store.py:16-51 | every step keeps: the newest accepted observation of each key waits or is archived; and no step makes an archived time earlier |
| SettlementArchive.RunKeepsInv | python-services/market-worker/settlement_store.py:16-51 | so does every interleaving of records with any number of flushes that fail before or after committing |
| SettlementArchive.NothingIsLost | python-services/market-worker/settlement_store.py:16-51 | an accepted observation waits or is archived unless a later one of its key, or one of the same time, is |
| SettlementArchive.ArchiveNeverGoesBack | python-services/market-worker/settlement_store.py:43-45 | the archived time of a key never decreases along a run |
| SettlementArchive.NothingIsInvented | python-services/market-worker/settlement_store.py:26-51 | every row that waits, is in flight or is archived was accepted, or was archived at the start |
| SettlementArchive.QuietArchiveIsNewest | python-services/market-worker/settlement_store.py:47-51 | when nothing waits, the archive holds the newest observation of every key |
| SettlementArchive.MergeAllIsUpsert | python-services/market-worker/settlement_store.py:40-46 | the conditional inserts one after another amount to one upsert of all rows |
| SettlementArchive.ExecuteMany | python-services/market-worker/settlement_store.py:40-46 | the loop of conditional inserts |
| SettlementArchive.DeleteCommitted | python-services/market-worker/settlement_store.py:47-51 | the loop that forgets committed rows keeps every row replaced meanwhile |
| SettlementArchive.SettlementRecorder.constructor | python-services/market-worker/settlement_store.py:9-14 | nothing waits at first |
| SettlementArchive.SettlementRecorder.Record | python-services/market-worker/settlement_store.py:16-29 | a reading in the closing minute from an allowed source is kept if it is later than the waiting one, any other is dropped |
| SettlementArchive.SettlementRecorder.BeginFlush | python-services/market-worker/settlement_store.py:31-35 | a flush reads the waiting rows, and ends when there are none |
| SettlementArchive.SettlementRecorder.CommitFlush | python-services/market-worker/settlement_store.py:37-46 | the transaction of a flush |
| SettlementArchive.SettlementRecorder.FailFlush | python-services/market-worker/settlement_store.py:53-61 | a failure, before or after the commit, leaves the waiting rows for a retry |
| SettlementArchive.SettlementRecorder.FinishFlush | python-services/market-worker/settlement_store.py:47-51 | the end of a flush that did not fail |
| RateLimiter.NewLimit | backend/internal/middleware/rate_limit.go:95 | the rate fills the whole capacity in exactly one window |
| RateLimiter.TokensStayWithinCapacity | backend/internal/middleware/rate_limit.go:31-38 | in every run stored tokens stay within zero and the capacity |
| RateLimiter.TtlRefills | backend/internal/middleware/rate_limit.go:97-100 | a bucket idle for its time to live is full |
| RateLimiter.EvictionIsInvisible | backend/internal/middleware/rate_limit.go:48-57 | with a clock that never goes back, dropping idle buckets at their time to live, whenever and however many, changes no reply of any run |
| RateLimiter.AllowedIsBounded | backend/internal/middleware/rate_limit.go:35-49 | with a clock that never goes back, at most capacity + rate x length requests of a key are allowed in any interval of any run |
| RateLimiter.AllowedIffWithinEveryBudget | backend/internal/middleware/rate_limit.go:35-58 | a request is allowed if and only if allowing it breaks that bound for no interval that ends with it |
| RateLimiter.RetryAfterIsSufficientAndTight | backend/internal/middleware/rate_limit.go:50-55 | a lone retry is allowed once the advised seconds have passed, and denied when a second less or more is left out |
| RateLimiter.RemainingIsExact | backend/internal/middleware/rate_limit.go:44-49 | the reported remaining is the number of further requests allowed at that instant |
| RateLimiter.ClockSetBackRefills | backend/internal/middleware/rate_limit.go:35-38 | a clock set back and forth lets a bucket exceed the bound |
| RateLimiter.Store.Expire | backend/internal/middleware/rate_limit.go:49 | exactly the chosen buckets idle for their time to live are dropped, and no key has fewer or more tokens at any later time |
| RateLimiter.Store.Check | backend/internal/middleware/rate_limit.go:19-61 | the script: refill, decide, charge, and the reply |
| AccountHub.CountIsExact | backend/internal/accountchanges/hub.go:129-153 | in every run the count is the sum of the per-user listeners, at most 1024 in all and 4 for a user |
| AccountHub.ListenIff | backend/internal/accountchanges/hub.go:129-140 | in every run a listener is added, to its user alone, if and only if fewer than 1024 listen and fewer than 4 for the user, outside a delivery |
| AccountHub.ArrivalReaches | backend/internal/accountchanges/hub.go:92-111 | in every run a well-formed message that arrives outside a delivery goes to exactly the listeners of its user |
| AccountHub.RemoveIsIdempotent | backend/internal/accountchanges/hub.go:141-151 | removing twice is removing once, and removing undoes listening |
| AccountHub.RunKeepsInv | backend/internal/accountchanges/hub.go:110-125 | in every interleaving of the publisher's selects with receivers, each channel lags by at most the message being delivered |
| AccountHub.ReceivedAreSubsequence | backend/internal/accountchanges/hub.go:111-124 | what a listener receives is a subsequence of what was published for its own user since it came |
| AccountHub.NewestWaitsOrWasTaken | backend/internal/accountchanges/hub.go:111-124 | outside a delivery the newest revision is in the channel, or was the last one taken |
| AccountHub.ResendNeverDrops | backend/internal/accountchanges/hub.go:119-122 | the default of the last select is never taken |
| AccountHub.DeliveryEnds | backend/internal/accountchanges/hub.go:110-125 | every select brings the end of the delivery nearer, and no receiver can hold it up |
| AccountHub.Hub.constructor | backend/internal/accountchanges/hub.go:44 | a new hub has no listeners |
| AccountHub.Hub.Listen | backend/internal/accountchanges/hub.go:129-140 | a listener is added if and only if both limits leave room |
| AccountHub.Hub.Remove | backend/internal/accountchanges/hub.go:141-151 | a listener is removed once, and an empty set with it |
| AccountHub.Hub.BeginDelivery | backend/internal/accountchanges/hub.go:106-111 | a well-formed message starts a delivery to the user's listeners |
| AccountHub.Hub.Advance | backend/internal/accountchanges/hub.go:111-124 | one select of the delivery |
| AccountHub.Hub.Receive | backend/internal/accountchanges/hub.go:213-217 | a receiver takes what is in its channel |
| AccountEvents.NormaliseAgain | frontend/src/lib/accountSync.ts:19-21 | text normalised before more arrived is normalised as if it had arrived together, without CR CR LF |
| AccountEvents.CutJoined | frontend/src/lib/accountSync.ts:22-27 | complete frames are the same frames whatever follows them |
| AccountEvents.LinesInvertJoin | frontend/src/lib/accountSync.ts:28 | reading the lines of a frame undoes joining them |
| AccountEvents.FrameIsItsData | frontend/src/lib/accountSync.ts:28-32 | the text of a frame is what follows "data:" and spaces on its data lines, one to a line, whatever other lines it has; an empty text is passed over and an unreadable one fails |
| AccountEvents.ThrowsIff | frontend/src/lib/accountSync.ts:22-35 | a call throws if and only if a frame it completes has more than 16,384 characters or does not parse, or more than that stays pending |
| AccountEvents.ChunksAgree | frontend/src/lib/accountSync.ts:18-35 | for streams without CR CR LF, chunks emit at most a prefix of what the whole emits, and the same while no boundary leaves too much waiting |
| AccountEvents.ChunkingIsInvisibleIffItFits | frontend/src/lib/accountSync.ts:18-35 | a stream without CR CR LF that decodes whole decodes alike in chunks if and only if no boundary leaves more than 16,384 characters waiting |
| AccountEvents.ShortFramesChunkInvisibly | frontend/src/lib/accountSync.ts:16-36 | if moreover every frame is two characters below the limit, every split emits the same events up to the first bad frame, and fails alike |
| AccountEvents.LongestFrameMayNotBeSplit | frontend/src/lib/accountSync.ts:34 | a frame of exactly the limit decodes in one piece and fails when split inside its end |
| AccountEvents.CrCrLfMayNotBeSplit | frontend/src/lib/accountSync.ts:20-21 | CR CR LF at a boundary ends a frame that the whole stream does not end |
| AccountEvents.DecoderInvertsWriter | backend/internal/accountchanges/hub.go:185-198 | whatever the hub writes is decoded to exactly its events, however it is split |
| AccountEvents.Decoder.Feed | frontend/src/lib/accountSync.ts:18-35 | a call of the decoder: the loop over frames, the limits, and what stays pending |
| CandleAggregation.SortSorts | frontend/src/lib/marketData.ts:20 | sorting orders the candles and keeps every one |
| CandleAggregation.SortIsStable | frontend/src/lib/marketData.ts:20 | candles of one timestamp keep their order |
| CandleAggregation.BarsSummarise | frontend/src/lib/marketData.ts:19-27 | for any list each bar has the open of its first, the close of its last, the extreme prices and the volume of exactly its candles; no key has two bars and every candle has its bar |
| CandleAggregation.CandleIsInBar | frontend/src/lib/marketData.ts:16-30 | in a request for 5m or 15m each candle is within the bar of 300 or 900 seconds, counted from 03:45 UTC of its Indian day, that holds its time; any other request returns the list as it is |
| CandleAggregation.VolumeIsConserved | frontend/src/lib/marketData.ts:16-30 | no timeframe and no order of candles gains or loses volume |
| CandleAggregation.KeyStaysInSession | frontend/src/lib/marketData.ts:21-25 | a bar starts a whole number of bars from 09:15, at or before its candles, within its length and on their day |
| CandleAggregation.KeyNests | frontend/src/lib/marketData.ts:22-25 | the fifteen-minute bar of a five-minute bar is the fifteen-minute bar of its candles |
| CandleAggregation.AggregationComposes | frontend/src/lib/marketData.ts:16-30 | aggregating to 5m and then 15m is aggregating to 15m, and aggregating twice alike is once, for every list whose timestamp order is its order in time and whose times in seconds stay below the threshold for milliseconds |
| CandleAggregation.UniformIsOrdered | frontend/src/lib/marketData.ts:22 | a list all in seconds, or all in milliseconds, is such a list |
| CandleAggregation.BarsComeInOrder | frontend/src/lib/marketData.ts:20-29 | then bars come in ascending order and none joins candles of two days |
| CandleAggregation.MixedResolutionsDoNotCompose | frontend/src/lib/marketData.ts:20-22 | with seconds and milliseconds mixed, aggregating in two steps can give another bar than in one |
| CandleAggregation.AggregateCandles | frontend/src/lib/marketData.ts:16-30 | the loop over the map of groups computes the specified bars in the order their keys were met |
| QuoteStore.NormalIsKeying | frontend/src/lib/liveStream.ts:9 | trimming and upper-casing a symbol twice is doing it once |
| QuoteStore.TickIsBuffered | frontend/src/lib/liveStream.ts:8-13 | a tick is buffered if and only if it has a symbol, a whole price of 1 to 9007199254740991, a time at most 5,000 milliseconds after its receipt, and is not older than what is buffered; an equal time replaces |
| QuoteStore.TickIsShown | frontend/src/stores/market-store.ts:116-131 | one tick from the stream is shown under the same conditions against what is shown, and otherwise changes nothing |
| QuoteStore.EntryIsMerged | frontend/src/stores/market-store.ts:69-81 | a merged quote needs a symbol and a price, and a time not before the one shown if there is one |
| QuoteStore.StreamIsPick | frontend/src/stores/market-store.ts:116-131 | for any batch each symbol shows what it would show had its ticks been applied one by one |
| QuoteStore.CoalescedIsPick | frontend/src/lib/liveStream.ts:8-13 | the buffer holds, per symbol, the last acceptable tick that was not older than those before it |
| QuoteStore.FlushIsTickByTick | frontend/src/lib/liveStream.ts:8-13 | buffering ticks and flushing once leaves the quotes that applying each on arrival leaves, in whatever order the buffer is read |
| QuoteStore.TimeNeverMovesBack | frontend/src/stores/market-store.ts:69-81 | under any run of stream and merge updates a symbol's finite time never moves backwards |
| QuoteStore.NewestIsShown | frontend/src/stores/market-store.ts:69-81 | what a symbol shows is at least as new as every valid quote it was ever offered |
| QuoteStore.MergeOfIncoming | frontend/src/stores/market-store.ts:116-131 | merging the incoming quotes in any order is the stream update |
| QuoteStore.Pending.Coalesce | frontend/src/lib/liveStream.ts:8-13 | one tick into the buffer |
| QuoteStore.Pending.Flush | frontend/src/providers/market-provider.tsx:79 | the buffer is handed over and emptied; the store is as if each tick had been applied |
| QuoteStore.Store.MergeIncomingQuotes | frontend/src/stores/market-store.ts:69-81 | the merge loop |
| QuoteStore.Store.UpdateStreamQuotes | frontend/src/stores/market-store.ts:116-131 | the batch loop and the merge of what it accepted |

## Left out

- Order matching, margin, square-off, trade settlement, wallets, portfolios and reports: not part of this model.
- Price, strike and tick number formatting, display symbols, the category counts of a snapshot and the decoding of integers: parameters or absent.
- Calendars and date formats: an expiry is parsed by a given partial function; the trading calendar is absent.
- Unicode: trimming, upper-casing and JavaScript's trimStart are modelled on ASCII text.
- JWT, bcrypt, SHA-256 and AES-GCM: tokens are identities, hashing is injective, sealing is ideal; one clock in seconds signs and expires.
- SQL, GORM, Redis, HTTP and the browser: a transaction is one step that happens or does not, a table is a map. Refreshes are serialised as their row locks do; a login inserts one row and a logout is one conditional update, each one step.
- Schema changes and the token index of the upgrade, and its retry after a failed index creation: absent; a failure leaves everything as it was.
- StageSnapshot's cancellation in mid-stream: the same as an unreadable stream, nothing is stored.
- BrokerTokens.BrokerTokensResolve: supposes that stale writes cover what the broker sends or is about to send; nothing in the worker makes sure of it, and the stale runs show what happens otherwise.
- SubscriptionStore.LookupSeesOneEpoch: supposes that nothing left over from an invalid master is written before a synchronisation of the latest master reads the store; nothing in the worker makes sure of it, and LeftoverMixesRows shows what happens otherwise.
- MasterEpochs.LookupSeesTheMasterRead: the modification time in a signature is taken as a function of the version and its live rows, and one worker's refreshes follow one another.
- A connection's own check of its epoch before it subscribes, and the demand loop's check before it synchronises: absent, so more runs are covered than the worker has.
- The worker outside live mode, its local cache and fallback master, reconnect snapshots of the broker library, and snapshot recovery: absent.
- QuoteWriter.HistoryIsRight: covers live stream writes from an empty history for one symbol and its aliases; the history backfill, writes under a symbol with the -EQ suffix, key expiry and a store that fails after the caches changed are absent, and writes of one family do not overlap.
- Candles of other sources or modes under the same minute: only live writes are modelled, so every candle has the live source.
- AccountHub.DeliveryEnds: says that each select brings the end nearer, not how long the scheduler waits between selects.
- The publishing queue, revision numbers in Redis, heartbeats and the lifetime of an event stream: absent.
- The rate limiter's fail-open paths (no store, an error, a short reply) let every request pass and change no bucket; clocks of several API processes are one clock.
- RateLimiter.AllowedIsBounded: tokens are reals; the decimal text in which the store keeps them, and floating-point rounding, are absent.
- QuoteStore.FlushIsTickByTick: is about the displayed quotes; the stream observations and the time of the last tick, which may differ after coalescing, are absent, as is a quote without a symbol.
- Replacing all quotes at once, market status, feed status and watchlists of the store: absent.
