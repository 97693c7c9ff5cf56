# Token lifecycle of the JIT access broker: model and proofs

The broker grants short-lived credentials ("sessions"), extends them up to a ceiling, warns before
they expire, and hands them to a revoker when they do. This project models the store that tracks
them, the worker that drains it, recovery from the state file, the retrying revoker, and the
break-glass quorum, and proves what holds of them over every input and every run.

Check it with `dafny verify dfyconfig.toml` (Dafny 4.11).

## How it is built

- **Values.** `Sections` gives each critical section of the store (each lock-to-unlock stretch) as a
  function on what the mutex guards: the session map, the expiry heap, the revocation counter.
  `ExpiryHeap` holds the sift algorithms of Go's container/heap over the store's own Less, Swap, Push
  and Pop. `Ticks` is the pop loop, `Disorder` what a heap out of order costs it, `Extensions` repeated
  extension, `Recovery` the restart.
- **Objects.** `TokenStore.Store` is the store as the source writes it: fields updated in place, token
  objects shared by the map and the heap, sift and pop loops over a sequence of references. Every method
  is proved to do exactly what the value functions say, so what is proved of those holds of it.
  What an operation does to a session is stated a second time in the session's fields, without those
  functions. `RetryRevoker` and `IssuedToken` are objects too.
- **Runs.** `Protocol` is the broker as a transition system whose actions are the critical sections,
  the provider and notifier calls between them, saves of the state file, and restarts. A run is any
  list of actions, so any interleaving. An assumption that a run theorem makes about the environment is
  a named `Regime`; without one the theorem holds of all runs. `Effects` is what one action can do to
  one session; `Safety`, `Contents`, `HandOvers`, `Ceiling`, `Warnings` and `Timeliness` are the
  invariants; `Witnesses` and `Overruns` are concrete runs that show which assumptions are needed.

Time is an integer count of nanoseconds since Go's zero time. `Duration` differences saturate and
64-bit products and sums wrap where the source's do. Each critical section reads the clock once.

## Where the code and its documentation differ

The model follows the code. For each point the members named prove the exact condition and a concrete
case.

- Extending moves a token's expiry without moving it in the heap, so a tick can stop above an expired
  session (store/store.go:229, 259; `ExtensionCanHideExpired`). The heap is in order exactly when every
  extension fits its slot, and that is exactly when no tick leaves a live session past its expiry,
  whatever sessions of at most one ttl are granted before it (`TicksOnTimeIff`). For one state and no
  further grants order is sufficient and not necessary (`DisorderedYetTimely`); for an extension of the
  root the exact condition is that all other live sessions expire no earlier (`RootExtensionOnTimeIff`).
- A session past its ceiling is said to be revoked and never extended (models/models.go:93-97). A
  request past the ceiling revokes exactly when the lengthened expiry reaches the ceiling
  (`PastCeilingRevokedIff`), and a session hidden in the heap can outlive its ceiling by almost an hour,
  through any number of ticks, and then be extended (`OutlivesItsCeiling`, `ExtendedPastItsCeiling`).
- The limit on a single grant (models/models.go:88-91) does not bind a re-issue clamped to the ceiling.
  Which requests ask for more can be told beforehand (`AsksAboveLimitIff`, `RequestAsksAboveLimitIff`);
  under the default limits the third of three early ones asks for 239 minutes (`MintedAboveTheLimit`).
- The state file is said to follow every change (persistence/persistence.go:8-9); only PersistAll writes
  it, and on shutdown while the server still runs (main.go:151-162). A session is claimed at most once
  over all restarts exactly when no restart reads a file that holds it live after it was handed over
  (`OneClaimThroughoutIff`, `StaleFileHandsOverAgain`); and it is never handed over after a restart
  exactly when the file does not hold it live (`NeverHandedOverAgainIff`, `RestartLosesHandOver`), though
  no token is to be orphaned (persistence/persistence.go:1-2). A restart from a file that is behind
  forgets extensions. That a session's warnings number at most one more than its own count and the
  restarts fails after some (`StaleFileHidesAnExtension`) and not after others
  (`StaleFileCanBeHarmless`); it holds of every run of the new process exactly when the file's count
  leaves room for the warnings sent and one to come (`ToldAfterRestartIff`, `ToldThroughoutIff`). The
  count itself stays exact exactly when the file's is current (`CountExactThroughoutIff`).
- A revocation that fails after all attempts is said to be marked pending and retried on the next tick
  (retry/retry.go:11-12). The session is already marked revoked and off the heap, and the flag is never
  set: no later tick of the process tries again, whatever the provider answered
  (`FailedRevocationNotRetried`, `HandedOverIsFinal`), and no later process does unless its file holds
  the session live.
- The backoff cap can be escaped when the uncapped delay no longer fits 64 bits, and with jitter and
  a budget under 146 years only then (`BudgetHoldsIff`, `OverflowEscapesTheCap`).
- A break-glass request for a huge number of minutes is granted a short ttl instead of the limit exactly
  when its product with a minute wraps to one (`EmergencyTtl`, `HugeTtlWraps`).
- A break-glass message belongs to one request exactly when the user, the resource and the reason hold
  no bar (`MessageUniqueIff`, `BarsCollide`), and to one request that can be granted exactly when the
  only bars are one at the start of the user and a resource that is a bar (`MessageBindsIff`). With bars
  in the reason alone it can still be read back (`MessageInvertibleIff`).

## Model

| member | source | states |
|---|---|---|
| TokenStore.Store.constructor | store/store.go:71-81 | A new store is empty, valid, and has the built-in limits. |
| TokenStore.Store.SetSessionLimits | store/store.go:84-90 | The limits change and the sessions do not. |
| TokenStore.Store.Up | store/store.go:405-406 | The in-place sift up loop of a push computes the specified order of the references. |
| TokenStore.Store.Down | store/store.go:405-406 | The in-place sift down loop of a pop computes the specified order of the references. |
| TokenStore.Store.HeapPush | store/store.go:408-410 | Pushing adds one reference and sifts it up. |
| TokenStore.Store.HeapPop | store/store.go:412-418 | Popping returns the very object that was inspected at the root. |
| TokenStore.Store.Add | store/store.go:117-126 | Adding files the object under its id, sets its first issue instant if unset, changes no other field of it and no other session, and pushes the same object; map and heap then still hold the same objects exactly when no other heap entry has the id. |
| TokenStore.Store.Get | store/store.go:129-137 | An object is returned exactly for live sessions, and it is the filed one. |
| TokenStore.Store.BeginRevoke | store/store.go:155-166 | The locked part of a manual revocation claims a live session and nothing else. |
| TokenStore.Store.RevokeNow | store/store.go:154-181 | A live session is marked, counted and handed over once, and no other field changes; any other request changes and sends nothing. |
| TokenStore.Store.HandOver | store/store.go:382-390 | A claimed session is handed over once whatever the provider answers, and the time slept is that of the retry policy. |
| TokenStore.Store.MaxExtensionsForCeiling | store/store.go:293-300 | The reported headroom is the remaining time to the ceiling over the ttl. |
| TokenStore.Store.BeginExtend | store/store.go:197-265 | The first locked part decides and moves the session accordingly; in fields, the new expiry, the ceiling (first issue plus the longest session) and the ttl to ask for. |
| TokenStore.Store.FinishExtend | store/store.go:243-247 | The second locked part stores the re-issued secret, whatever became of the session. |
| TokenStore.Store.Extend | store/store.go:196-289 | All outcomes of an extension, in the session's fields: whenever a session comes back its ceiling is its first issue plus the longest session, the new expiry is one ttl later or that ceiling, and the extensions left are the quotient of the time between; a failed re-issue leaves the longer expiry behind, a successful one stores the new secret. |
| TokenStore.Store.FireWarnings | store/store.go:323-338 | In whatever order the map is visited, exactly the sessions that are live, not warned and within the configured window of their expiry are flagged and listed, once each; nothing else changes. |
| TokenStore.Store.PopTop | store/store.go:357-380 | One locked round pops the root if it is due and claims its session unless revoked already. |
| TokenStore.Store.RevokeExpired | store/store.go:355-398 | The pop loop terminates, hands over exactly the specified ids in order, revokes those and changes no other field of any session, and sleeps exactly the sum of their retry sleeps. |
| TokenStore.Store.Tick | store/store.go:313-315 | A tick warns first and then sweeps, at one instant; in fields, which sessions are flagged and which revoked. |
| TokenStore.Store.PersistAll | store/reliability.go:112-128 | The file holds one record for each session with its fields, in whatever order the map is visited. |
| TokenStore.Store.Readd | store/reliability.go:61-74 | A record is re-added unless revoked, expired or present. |
| TokenStore.Store.RevokeMissed | store/reliability.go:77-103 | Missed sessions enter the map as revoked, off the heap, and are handed over in order, whatever the store and the list hold. |
| TokenStore.Store.RecoverMissedExpirations | store/reliability.go:44-109 | Recovery from any file into any store builds the specified state and hands over the specified ids; the store stays valid exactly when no missed id is in the heap, as from a new store and a file without repeated ids. |
| ExpiryHeap.Push | store/store.go:125 | A push changes the heap's multiset by exactly the new element. |
| ExpiryHeap.Pop | store/store.go:368 | A pop changes the heap's multiset by exactly the root that was inspected. |
| ExpiryHeap.OrderedIsEveryCut | store/store.go:405 | Heap order holds exactly when, at every instant, no expired entry sits under an unexpired one. |
| ExpiryHeap.DownRepairs | store/store.go:412-418 | Sifting down repairs the one broken place a pop leaves, at every instant. |
| ExpiryHeap.UpRepairs | store/store.go:408-410 | Sifting up repairs the one broken place a push leaves, at every instant. |
| ExpiryHeap.PopKeepsCut | store/store.go:362-368 | A pop keeps expired entries on top even in a heap that is otherwise out of order. |
| ExpiryHeap.PushKeepsOrder | store/store.go:117-126 | A push keeps heap order. |
| ExpiryHeap.PopKeepsOrder | store/store.go:368 | A pop keeps heap order. |
| ExpiryHeap.InPlaceChangeKeepsOrder | store/store.go:229-259 | Rewriting a key in place keeps heap order exactly when it stays between the parent's and the children's. |
| Sections.AddConsistent | store/store.go:117-126 | Registering a fresh session keeps map, heap and counter in agreement. |
| Sections.ClaimConsistent | store/store.go:161-162 | Claiming a session keeps them in agreement. |
| Sections.DueInFields | store/store.go:324-333 | A session is due a warning exactly when it is neither revoked nor warned and some time, at most the window, is left. |
| Sections.ExtendConsistent | store/store.go:196-289 | Every outcome of an extension keeps them in agreement. |
| Sections.PopTopConsistent | store/store.go:357-380 | A round of the pop loop keeps them in agreement: the entry leaves only when its session is revoked. |
| Ticks.TickIsSound | store/store.go:355-398 | In any heap order a tick hands over only due sessions, each at most once, revokes exactly those, drops only expired entries, and stops at an unexpired root. |
| Ticks.TickIsTimely | store/store.go:353-398 | When no expired entry sits under an unexpired one, a tick hands over exactly the due sessions once each, marks exactly the expired ones, and keeps exactly the unexpired entries. |
| Ticks.SweepInFields | store/store.go:355-398 | In any heap order, in each session's fields: what a sweep marks, hands over, leaves alone and counts. |
| Ticks.WholeTickIsTimely | store/store.go:302-318 | The same of warning and sweeping together, and nothing is both warned and revoked by one tick. |
| Ticks.TickFollowsExpiryOrder | store/store.go:355-398 | On an ordered heap sessions are handed over in non-decreasing order of expiry. |
| Ticks.TickKeepsOrder | store/store.go:355-398 | A tick leaves an ordered heap ordered. |
| Ticks.TickPastAllDrains | store/store.go:355-398 | However disordered the heap, a tick past every expiry in it empties it and hands over every live session once. |
| Disorder.OrderedIffNothingLateWhateverComes | store/store.go:353-405 | A heap is in order exactly when no tick leaves a live session past its expiry, whatever sessions of at most one ttl are granted before it; and exactly when every tick is complete, whatever sessions are. |
| Disorder.DisorderCanTrap | store/store.go:355-418 | From any heap out of order there are grants of the shortest life there is after which a tick leaves a live session due, and the misplaced one too if it is live. |
| Disorder.RootExtensionOnTimeIff | store/store.go:229-366 | Extending the root of an ordered heap never leaves a due session at any tick exactly when no other live session expires before the new expiry. |
| Disorder.OneRoundToOrder | store/store.go:362-368 | A tick is complete if popping the root puts every expired entry on top. |
| Extensions.RepeatedExtension | store/store.go:204-263 | k requests before the ceiling C leave a session from expiry E at min(E + k ttl, C), counted k times; exactly those that fit strictly below C get a full ttl. |
| Extensions.ExtensionNeverShortensIff | store/store.go:205-230 | An extension does not shorten a session exactly when it expired by its ceiling. |
| Extensions.PastCeilingRevokedIff | store/store.go:208-225 | A request past the ceiling revokes exactly when the lengthened expiry reaches the ceiling; otherwise it extends. |
| Extensions.AsksAboveLimitIff | store/store.go:204-269 | A request asks the provider for more than the single-grant limit exactly when the session is live, one more ttl reaches its ceiling, and the ceiling is further off than the limit; never for more than what is left and one ttl. |
| Extensions.RequestAsksAboveLimitIff | store/store.go:204-269 | In a sequence of requests from expiry E under ceiling C, exactly those numbered from ceil((C - E) / ttl) - 1 on that are served more than the limit before C do. |
| Extensions.HeadroomIsSafeIff | store/store.go:258-300 | The reported headroom covers the full renewals of all later requests exactly when none fit or that many ttls are left before the ceiling; always when the new expiry is not past. |
| Extensions.HeadroomCanFallShort | store/store.go:291-300 | With the new expiry past, a case where it is. |
| Extensions.ExtensionKeepsOrderIff | store/store.go:229-259 | An extension keeps the heap ordered exactly when the new expiry fits its slot. |
| Persistence.RecordRoundTrip | persistence/persistence.go:116-150 | A record restores every field, one by one, but the warning flag, and the pending flag is never set. |
| Persistence.LoadActive | persistence/persistence.go:101-113 | Exactly the records not revoked are loaded, in file order. |
| Persistence.MissedExpirations | persistence/persistence.go:154-162 | Exactly the records that expired before `now` are missed, in file order. |
| Persistence.OneRecordFiltered | persistence/persistence.go:101-162 | What both filters make of one record. |
| Persistence.FiltersInFileOrder | persistence/persistence.go:101-162 | Both filters take the parts of a file one after the other. |
| Recovery.ReadmitBuilds | store/reliability.go:60-74 | Re-adding builds a consistent ordered heap over exactly the unexpired records. |
| Recovery.NoneMissedInHeap | store/reliability.go:60-84 | From a file without repeated ids no missed session is in the heap that the first loop builds. |
| Recovery.RecoveryRestores | store/reliability.go:41-109 | From a snapshot in any order, recovery restores the live sessions, hands over each missed one once, and builds an ordered heap even if the saved one was not. |
| Recovery.RecoverInFields | store/reliability.go:44-103 | From any file into any store, in the fields of the records: a missed session is entered as its last missed record, revoked; another one that was there stays; a new one is its first kept record, in the heap once; each missed record is counted. |
| Recovery.MissedHandedInFileOrder | store/reliability.go:57-95 | Recovery hands over the ids of the missed records, in file order. |
| Recovery.RestartThenTick | store/reliability.go:41-109 | From any consistent state, a restart and a tick hand over exactly the due sessions, once each, and keep exactly the rest. |
| Recovery.RestartCommutesWithTick | store/reliability.go:41-109 | Save, recover and tick at one instant does what ticking without the restart does, exactly when that tick leaves nothing due. |
| Safety.NoLiveSessionIsLost | store/store.go:116-398 | In every state of every run each live session is in the heap exactly once and every entry names a session. |
| Safety.ClaimWhenMarked | store/store.go:161-380 | Under every action a mark and a claim come together and no mark is taken back. |
| Safety.HandedOverExactlyOnce | store/store.go:152-398 | Under every interleaving a session's hand-overs, made and pending, number one if it is marked revoked and none if not; the counter counts the marked ones. |
| Safety.EveryRunIsSafe | store/store.go:116-398 | Both of these from the first start of the broker. |
| Contents.IdentityNeverChanges | store/store.go:116-289 | Between any two states of any run a session keeps its user, resource, provider, justification and issue instant. |
| Contents.SecretIsOfferedOne | store/store.go:243-276 | Over every run a session's secret is one it was granted with or one the provider answered to a re-issue of it. |
| Contents.SecretChangesByWriteBack | store/store.go:243-247 | In one process a secret changes only by a write-back of that session, to the secret written. |
| HandOvers.OneClaimThroughoutIff | store/reliability.go:44-103 | Over any number of restarts a session is claimed at most once, and not live after, exactly when no restart reads a file that holds it live after it was handed over. |
| HandOvers.RunsNeverRepeat | main.go:76-162 | On every such run from the first start no session is handed over twice. |
| HandOvers.BehindFileRepeats | store/reliability.go:44-103 | After a restart from any other file, at most two more actions hand the session over again. |
| HandOvers.SettledForever | store/reliability.go:60-103 | A session that neither memory nor the file holds live or claimed is never handed over again, over any number of restarts. |
| HandOvers.NeverHandedOverAgainIff | store/reliability.go:41-103 | After a restart no run ever hands a session over exactly when the file does not hold it live, though its hand-over was still to come or it was granted since. |
| HandOvers.HandedOverIsFinal | store/store.go:154-181 | In one process a session is not handed over a second time, whatever came of the first. |
| HandOvers.FailedRevocationNotRetried | store/store.go:366-390 | A session whose revocation fails on every attempt stays marked, and no later tick hands it over. |
| Ceiling.CeilingHolds | store/store.go:205-230 | Over runs with restarts no session expires more than the cap past its first grant, and that instant never changes. |
| Ceiling.FourHourCeiling | models/models.go:93-97 | Under every accepted configuration and grants of at most 60 minutes, no session ever expires later than 4 hours after its first grant. |
| Ceiling.MintingIsRecorded | store/store.go:233-276 | Each grant and each re-issue that the provider answers is recorded with its session, instant and ttl, and no record is dropped. |
| Ceiling.EveryCredentialLapses | store/store.go:204-288 | With prompt re-issues, every credential ever minted, also for a process that has died meanwhile, lapses within the cap and the requests' delay of the first grant, even if every revocation fails. |
| Ceiling.ExpiryCoversCredentials | store/store.go:227-276 | Over restarts from files whose expiries are not behind, the expiry of a session that the broker knows covers every credential minted for it, up to the requests' delay. |
| Ceiling.OneProcessCovers | store/store.go:227-276 | In one process it knows every session that a credential was minted for. |
| Ceiling.GoneByTheCeiling | store/store.go:355-398 | In any state of a capped run, a tick at or past the ceiling of everything in the heap empties it and revokes everything live. |
| Ceiling.SessionGoneByItsCeiling | models/models.go:93-97 | Where no expired entry sits under an unexpired one, a tick at or past one session's ceiling leaves it revoked. |
| Warnings.WarningsAreInWindow | store/store.go:323-338 | Over every run each warning is decided at a tick within the configured window of the expiry then in force; without a restart every such tick decides one. |
| Warnings.EveryWarningIsInWindow | store/store.go:323-338 | So from the first start of the broker warnings are at most the ticks that find the session in its window. |
| Warnings.EveryRunBoundsWarnings | store/store.go:320-351 | Over every run a session's warnings number at most one more than its extensions and the restarts. |
| Warnings.CountExactThroughoutIff | persistence/persistence.go:116-150 | A session's own count of its extensions is exact in every state of a run exactly when no restart reads a file that holds it live with an older count. |
| Warnings.ToldAfterRestartIff | persistence/persistence.go:116-150 | After a restart no run of the process breaks the bound with the session's own extension count, exactly when the file's count leaves room for the warnings sent and one to come. |
| Warnings.ToldThroughoutIff | store/reliability.go:44-74 | That holds of every process that a run starts exactly when every restart of it reads such a file. |
| Warnings.WarningsTold | store/store.go:228-261 | On such a run from the first start the bound holds with the session's own count. |
| Warnings.WarningsBoundedByCount | store/store.go:228-261 | So it does when every restart reads a file with the current count. |
| Warnings.WarnedBeforeRevoked | store/store.go:302-375 | With ticks at most `gap` apart, `gap` within the warning window, and more than `gap` left after each grant, extension and recovery, each session the worker revokes was warned since its expiry was last set. |
| Timeliness.OrderedThroughoutIff | store/store.go:196-289 | The heap is ordered in every state of a run exactly when every extension of the run fits its slot. |
| Timeliness.TicksOnTimeIff | store/store.go:353-398 | In every state of a run no tick leaves a live session past its expiry, whatever sessions of at most one ttl are granted before it, exactly when every extension of the run fits its slot; and so for complete ticks and any grants. |
| Timeliness.UninterruptedTick | store/store.go:355-398 | The worker's rounds in the transition system, uninterrupted, are the sequential pop loop. |
| Witnesses.ExtensionCanHideExpired | store/store.go:258-261 | A reachable state where an extension leaves an expired live session under an unexpired root, and a tick leaves it live. |
| Witnesses.DisorderedYetTimely | store/store.go:258-261 | A reachable state with its heap out of order in which a tick at any instant is on time, though after some grants of at most one ttl one leaves a live session due. |
| Witnesses.ExpiresUnwarned | store/store.go:331-333 | A run with ticks `gap` apart in which a session with exactly `gap` of life is claimed unwarned. |
| Witnesses.RestartLosesHandOver | store/reliability.go:60-103 | A run in which a session marked revoked is saved before its hand-over, and never handed over after the restart. |
| Witnesses.StaleFileHandsOverAgain | main.go:151-162 | A run in which a restart from an older file hands a session over a second time. |
| Witnesses.StaleFileCanBeHarmless | persistence/persistence.go:8-9 | A run in which a restart forgets an extension and no run of the new process can break that bound. |
| Witnesses.StaleFileHidesAnExtension | persistence/persistence.go:8-9 | A run in which such a restart breaks the warning bound by the session's own count. |
| Overruns.OutlivesItsCeiling | models/models.go:93-97 | Under the default limits, a run with any number of ticks after which every sweep for four hours stops above an expired session, almost an hour of it past that session's ceiling. |
| Overruns.ExtendedPastItsCeiling | store/store.go:208-276 | After any number of ticks the same session is extended past its ceiling, with a credential that lapses more than an hour past it. |
| Overruns.MintedAboveTheLimit | store/store.go:233-238 | Under the default limits, a run that mints a credential of 239 minutes. |
| Config.FirstFailingCheckIsNamed | config/config.go:177-211 | A rejection names a check that fails, after checks that all hold. |
| Config.MissingLimitsAreFilledIn | config/config.go:199-210 | The defaults are 4 hours for a session and 15 minutes for the warning, each where none is set. |
| Config.ValidationIsSound | config/config.go:177-211 | Validation accepts exactly complete settings with ttls in (0, 60 minutes] and a session of at most 4 hours; what it returns is within the hard limits, differs only in defaults, and is accepted unchanged. |
| Retry.RetryRevoker.constructor | retry/retry.go:39-49 | The production settings. |
| Retry.RetryRevoker.Revoke | retry/retry.go:54-114 | The attempt loop has exactly the specified effects, and fills in missing settings for good: 1 second, 30 seconds, 5 attempts. |
| Backoff.RetryContract | retry/retry.go:51-114 | Without cancellation: success exactly when one of the first `maxAttempts` attempts succeeds, one audit per failure, one sleep between attempts, else the last error after exactly `maxAttempts` calls. |
| Backoff.CallsAreBounded | retry/retry.go:69-110 | With or without cancellation: calls and sleeps are bounded and success means the last call succeeded. |
| Backoff.EndsAsItMust | retry/retry.go:69-110 | Under any cancellation each attempt ends the call or goes on as the source says: context before, success, last failure, context before the sleep, sleep. |
| Backoff.SleepsInSettings | retry/retry.go:91-104 | Where delays fit, sleep i is the capped delay d less the floor of half of j = d * jitter plus the floor of j times the draw. |
| Backoff.SleepInSettings | retry/retry.go:91-104 | The same with a delay up to all of 64 bits: the share can carry it round once. |
| Backoff.SleepNoJitter | retry/retry.go:91-104 | Without jitter it is the capped delay. |
| Backoff.ProductionSleeps | retry/retry.go:39-104 | The four production sleeps of a call that fails throughout, as functions of the draws. |
| Backoff.JitterIsCentred | retry/retry.go:97-101 | Jitter moves a delay by at most half the jitter fraction of it, up to a nanosecond upwards. |
| Backoff.OneCallSleepsWithinBudget | retry/retry.go:86-110 | One call sleeps at most the capped sum scaled by 1 + jitter/2, up to a nanosecond for each sleep, in the range where delays fit or without jitter. |
| Backoff.GivingUpSleepsAtLeast | retry/retry.go:86-113 | A call that gives up has slept at least the capped sum scaled by 1 - jitter/2. |
| Backoff.CappedSumForms | retry/retry.go:91-95 | The capped sum is within both the linear and the geometric form. |
| Backoff.TickSleepsWithinBudgets | store/store.go:382-386 | A tick that hands over n sessions sleeps at most n budgets. |
| Backoff.ProductionBudget | retry/retry.go:39-49 | With the production settings one call sleeps at most 15.75 seconds and 4 nanoseconds. |
| Backoff.BudgetHoldsIff | retry/retry.go:86-110 | With jitter and a budget under 146 years, every call keeps to its budget exactly when the last uncapped delay fits 64 bits. |
| Backoff.OverflowEscapesTheCap | retry/retry.go:91-101 | Beyond that range, settings with a budget of 21 minutes under which a call sleeps more than 146 years. |
| BreakGlass.Manager.CollectApprovers | breakglass/breakglass.go:76-114 | The loop collects exactly the approvers with a valid signature, and lists them in order of their first one. |
| BreakGlass.Manager.Verify | breakglass/breakglass.go:67-121 | A request is granted exactly when its fields are present and at least two approvers have a valid signature; each refusal gives its reason. |
| BreakGlass.Manager.ListIsExact | breakglass/breakglass.go:109-113 | The list names each approver with a valid signature exactly once. |
| BreakGlass.Manager.ListFollowsFirsts | breakglass/breakglass.go:79-114 | The list is in the order of the first valid signatures. |
| BreakGlass.Manager.GrantedNeedsTwoPeople | breakglass/breakglass.go:63-66 | Granted exactly when two signatures, each checked against the message with its approver's key, come from different trusted approvers. |
| BreakGlass.Manager.ListInRequestOrder | breakglass/breakglass.go:76-114 | Read off the request: who is listed, nobody twice, and one before another whose valid signatures all come later. |
| BreakGlass.Manager.GrantedIsMonotone | breakglass/breakglass.go:79-118 | The verdict ignores the order of signatures, and more signatures never lose it. |
| BreakGlass.EmergencyTtl | breakglass/breakglass.go:133-137 | An emergency ttl is the product modulo 2^64 if that is within the limit, else the limit; and it is what was asked or the limit exactly when 1 to 60 minutes were asked or the product does not wrap under the limit. |
| BreakGlass.HugeTtlWraps | breakglass/breakglass.go:134 | The first requests either way whose product wraps under the limit, and two more. |
| BreakGlass.Activate | breakglass/breakglass.go:124-154 | A token is issued exactly when the quorum is met and the provider agrees, with the clamped ttl, and is tagged; a refusal is the one Verify gives. |
| CanonicalForm.DecimalIsCanonical | breakglass/breakglass.go:157-159 | The minutes have one text: the canonical one that reads as their number, with no zero in front of a digit. |
| CanonicalForm.DecimalByDigits | breakglass/breakglass.go:157-159 | Its digits, from the last one on. |
| CanonicalForm.MessageIsWhatApproversSign | breakglass/breakglass.go:156-159 | The message is the user, the resource, the reason and a text of the minutes between bars exactly when that text is the canonical one. |
| CanonicalForm.SignedText | breakglass/breakglass.go:157-159 | Two messages in full. |
| CanonicalForm.MessageInvertibleIff | breakglass/breakglass.go:157-159 | The message reads back as what was signed exactly when neither the user nor the resource holds a bar. |
| CanonicalForm.MessageInjective | breakglass/breakglass.go:156-159 | A request that shares its message with one of those agrees with it on user, resource, reason and ttl exactly when it is one too. |
| CanonicalForm.MessageUniqueIff | breakglass/breakglass.go:156-159 | A message belongs to a single request exactly when user, resource and reason hold no bar. |
| CanonicalForm.MessageBindsIff | breakglass/breakglass.go:67-159 | A message belongs to a single request with user and resource exactly when the reason holds no bar, the user none after its start, and the resource none unless it is a bar. |
| CanonicalForm.BarsCollide | breakglass/breakglass.go:157-159 | Two requests that share a message, one of them with a bar in the reason only. |

## Left out

- HTTP handlers, Slack, the command line, context validators, provider network code: plumbing around the operations modelled.
- File writing, atomic rename, JSON and YAML: the state file is a list of records, written only by PersistAll.
- Ed25519 and hex decoding (section 5.1.7 of RFC 8032): one answer per key, signature and message. Approvers are told apart by id, as the code does.
- Audit text, notifier sinks, observation channels, dropped ticks, the Go memory model: critical sections are atomic and warnings are counted.
- A store with no issuer at all, and read failures of the state file: the start-up code always wires an issuer, and a failed load recovers nothing.
- The list of live tokens (store/store.go:140-150): a filter of the session map.
- TokenStore.Store.Add: for an id that another heap entry already has it states which objects the map and the heap hold, not the order of the heap; issuers draw fresh ids.
- Disorder.RootExtensionOnTimeIff: one state and no further grants, for the root only; below the root whether a tick gets at a misplaced entry depends on which last entries earlier pops move.
- Backoff.OneCallSleepsWithinBudget: products are exact reals, so float64 rounding is not modelled; the jitter source is any value in [0, 1).
- BreakGlass.Manager.Verify: refusal texts are a datatype with the numbers they print.
- Safety.HandedOverExactlyOnce: speaks of sessions, not of the secret sent; a late write-back can replace the stored secret after a revocation.
- Warnings.WarnedBeforeRevoked: asks for strictly more than `gap` left; with exactly `gap` it fails (Witnesses.ExpiresUnwarned).
