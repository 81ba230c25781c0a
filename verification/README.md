# Taphaptic, verified

Taphaptic relays the lifecycle events of coding agents to an Apple Watch. A relay (Go) keeps
installations, channels, pairing codes, watch devices and a bounded event log; a watch app (Swift) reads
the log by cursor and shows each event for a few seconds; an installer (Go) edits the agents' hook files.
This project models that behaviour in Dafny and proves what it promises over every run.

`dafny verify dfyconfig.toml` checks everything.

## How the modules fit together

- `EventLog` is the relay's event log: a class whose methods append, trim, deduplicate, read, remove and
  reopen, and lemmas over every run of them.
- `WatchModel` is the watch's cursor, display and clearing timers as a class; `WatchPolicy` is the pure
  policy that the app ships and never calls. The watch is proved to simulate the policy.
- `RelayProtocol` runs the log and one watch together: overlapping polls, lost and late answers, failed
  saves, restarts, rotated and revoked tokens, resets, re-pairings.
- `Channels`, `Installations`, `Devices` and `Pairings` are the other four stores, each a class over the
  fields of the source. `Snapshots` holds what their saving and loading share; `PairingRuns` speaks about
  every run of pairing-code calls.
- `Relay` says what each request handler does to the five stores together; `Server` is the handler object
  that calls the live stores, proved against `Relay`. `RelayRuns` and `RelayDeletion` prove what holds over
  every run of requests; `RelayAnswers` says what each answer is good for and whom a request leaves alone.
- `JointRuns` puts the handlers and the watch together: every request is shown to be steps of the relay that
  `RelayProtocol` assumes, so its main result holds behind the real handlers.
- `HookConfig` is the merging, pruning and removal of hooks over arbitrary JSON trees.
- `Headline` is the watch's exhaustive line breaking; `RateLimiter` is the relay's request limiter.

Every class method is tied by its `ensures` to a function of the old state, and the lemmas speak about that
function. Conventions: the clock, random draws, map iteration order, the hash of a pairing code, the push
service's verdicts and the success of every save are inputs, so each statement holds for all of them. A save
either makes the file equal to memory or changes nothing. Times are integers in nanoseconds, scores are reals.

## What the proofs found

- A shown event can be taken down early after a reset. A reset forgets the cursor and cancels the pending
  clearing task, and a cancelled task only stops if it is still asleep. A task whose sleep was over, or one the
  app had already lost its handle on, wakes in the next session and clears the same event shown again
  (`WatchModel.QueuedTaskAfterReset`, `OrphanedTaskAfterReset`). Every later show lasts until its expiry if and
  only if no such task exists at the reset (`ResetKeepsShownIff`). With the same relay behind both sessions it is
  enough that each such task is for an event that is already stale, or comes too late to matter
  (`ResetKeepsSentIff`).
- A fresh pairing code is claimed under every map order if and only if no surviving code of the same hash was
  created at the same instant (`PairingRuns.CreateGivesClaimable`, with a misfiring run in `TieCanMisfire`).
- Without a state file, some continuation after a restart gives an accepted id to another event if and only if
  the clock has not passed the last id given out (`EventLog.UnsavedRestart`, with a run in `IdGivenTwice`).
- Removing hooks after merging restores a file exactly under the condition `HookConfig.Restorable`. A Claude merge
  also drops entries and handlers that are no objects, entries with an empty handler list, and legacy commands, so
  those do not come back. An event with an empty list is lost for both agents (`EmptyEventNotRestored`).
- OpenStore of the event log re-seeds a non-positive next id, but its maximum starts at zero, so that branch
  can never run; the model leaves it out for that reason (`EventLog.LoadedNextID` promises a positive id).
- A limit of `m` per window admits at most `(k + 1) * m - 1` requests in `k` windows. For every limit, every
  `k` from 1 on and every window of more than one tick there is a run that reaches this
  (`RateLimiter.RateBoundReached`).

## Model

| member | source | states |
|---|---|---|
| EventLog.Store.constructor | internal/events/store.go:116-126 | a new store is empty, and its ids start at the clock's milliseconds |
| EventLog.Store.Persist | internal/events/store.go:327-355 | a save makes the file equal to memory or leaves the file alone; a memory-only store always succeeds |
| EventLog.Store.FindLatest | internal/events/store.go:149-157 | the backward search meets the newest event with the channel and key |
| EventLog.Store.AppendUnique | internal/events/store.go:140-198 | for every outcome the answer and the exact new memory and file: unknown type, newest twin, failed save with rollback, or an event with the input's kind, instant and trimmed texts, the clock as its creation time, the next id, stored last with the oldest making room |
| EventLog.Store.SinceForChannel | internal/events/store.go:204-229 | the loop answers exactly the channel's events above the cursor, in order |
| EventLog.Store.LatestForChannel | internal/events/store.go:235-257 | the answer is the channel's last stored event, or there is none |
| EventLog.Store.RemoveForChannel | internal/events/store.go:259-283 | exactly the channel's events go, the next id stays, or a failed save leaves everything |
| EventLog.Store.OpenStore | internal/events/store.go:75-114 | memory is rebuilt from the file alone, with the next id above every stored one |
| EventLog.FindDuplicateMeaning | internal/events/store.go:149-157 | a duplicate is answered if and only if some stored event carries the channel and key |
| EventLog.SinceMeaning | internal/events/store.go:204-229 | a read holds exactly the channel's events newer than the cursor, ascending |
| EventLog.ReopenRestores | internal/events/store.go:75-114 | in every reachable state with a file, a restart restores exactly what was there |
| EventLog.ReopenKeepsPromise | internal/events/store.go:75-114 | for any file, the newest events there is room for and a next id above them; without one, the clock's milliseconds |
| EventLog.StepKeepsInv | internal/events/store.go:140-283 | every append, failed save, removal and restart keeps the store ascending, below the next id, within its maximum, unique in its keys, and equal to its file |
| EventLog.RunKeepsInv | internal/events/store.go:140-283 | the same over every run |
| EventLog.IdsNeverReused | internal/events/store.go:160-198 | over appends, failed saves, removals and restarts an id ever handed to a producer or reader never names another event |
| EventLog.AppendKeepsPromise | internal/events/store.go:140-198 | in every state an append answers InvalidType, Duplicate, SaveFailed or Appended exactly when it should; an appended event holds the input's kind, instant and trimmed texts and the clock, and is the last one stored |
| EventLog.UnsavedRestart | internal/events/store.go:290-296 | for a store without a file, some continuation after a restart gives an accepted id to another event if and only if the clock's milliseconds have not passed the last id |
| EventLog.IdGivenTwice | internal/events/store.go:116-126 | a run without a file in which two accepted events carry one id |
| EventLog.LoadedNextID | internal/events/store.go:90-114 | the next id after loading any file is positive and above every loaded id |
| EventLog.LogIsWindow | internal/events/store.go:140-198 | without removals the store is exactly the newest min(n, max) accepted events, and equal keys of a channel have at least max other events between them |
| EventLog.StoredKeyRefused | internal/events/store.go:149-157 | a key still inside the window is always refused |
| EventLog.EventsNeverReturn | internal/events/store.go:259-308 | whatever leaves the store never comes back: later events were newly accepted |
| EventLog.PagingConcatenates | internal/events/store.go:204-229 | a later read from an old cursor is what survives of the old answer followed by the read from the new cursor |
| WatchModel.TaphapticModel.constructor | watch-app/TaphapticModel.swift:190-204 | a launch starts from the stored session and cursor with an empty screen |
| WatchModel.TaphapticModel.CancelPendingReset | watch-app/TaphapticModel.swift:859-861 | the pending clearing task is marked cancelled at this instant and forgotten, the others are untouched |
| WatchModel.TaphapticModel.ShowPendingStatus | watch-app/TaphapticModel.swift:859-866 | the screen waits, nothing is active, the pending task is cancelled |
| WatchModel.TaphapticModel.SchedulePendingReset | watch-app/TaphapticModel.swift:872-895 | the old clearing task is cancelled and a new one waits for this event's expiry |
| WatchModel.TaphapticModel.Apply | watch-app/TaphapticModel.swift:468-504 | a seen event changes nothing; a new one of at most 20 s is on screen for 4.25 s with the picture of its kind and a task of its own; an older one only moves the cursor and clears an idle screen |
| WatchModel.TaphapticModel.ReceiveEvents | watch-app/TaphapticModel.swift:536-598 | an answer counts only for the asking session; a 401 ends the session, an empty answer clears an idle screen, events are applied in order |
| WatchModel.TaphapticModel.WakeTask | watch-app/TaphapticModel.swift:872-895 | a task cancelled in its sleep never runs on; any other, once due, clears the screen only when its own event is active, and always drops the handle |
| WatchModel.TaphapticModel.ResetPairing | watch-app/TaphapticModel.swift:441-466 | session, channel, cursor and screen are reset and the pending task is cancelled; other tasks live on |
| WatchModel.TaphapticModel.CompletePairing | watch-app/TaphapticModel.swift:357-439 | a claim adopts the session and clears the screen, and keeps the cursor |
| WatchModel.StepKeepsPromise | watch-app/TaphapticModel.swift:441-504 | what every step does to screen, cursor and tasks: events, empty polls, running tasks, sessions and resets |
| WatchModel.BatchInOrder | watch-app/TaphapticModel.swift:536-598 | a batch of events is its events applied one by one, in order |
| WatchModel.ShownIsAttended | watch-app/TaphapticModel.swift:859-905 | on every run, resets included, something is shown exactly when an event is active, and then a live timer for it is due at its expiry |
| WatchModel.RunKeepsOrder | watch-app/TaphapticModel.swift:468-504 | over every run of sessions with safe resets, from any orderly state, each timer that may still wake belongs to a seen event, and the active event's are due at its expiry |
| WatchModel.ResetKeepsShownIff | watch-app/TaphapticModel.swift:441-466 | after a reset in any reachable state every shown event is kept until its expiry, whatever follows, if and only if every task has finished, was cancelled in its sleep, or is the pending one and asleep |
| WatchModel.ResetKeepsSentIff | watch-app/TaphapticModel.swift:441-466 | the same with one relay behind both sessions, which never changes an event: shows are kept if and only if each task left behind is for an event already stale, or due no earlier than the end of its last possible show |
| WatchModel.ShownUntilExpiry | watch-app/TaphapticModel.swift:859-905 | from a launch, over every run of sessions with safe resets, a shown event is only replaced by a newer one, cleared at or after its expiry, or cleared with its session |
| WatchModel.QueuedTaskAfterReset | watch-app/TaphapticModel.swift:872-895 | a run in which a task whose sleep was over at the reset clears the same event shown again, 4.24 seconds early |
| WatchModel.OrphanedTaskAfterReset | watch-app/TaphapticModel.swift:872-895 | a run in which a finished task drops the handle of the next one, so a reset cannot cancel it and it clears a later show 1.75 seconds early |
| WatchModel.WatchShowsWhatPolicyShows | shared/TaphapticWatchEventPolicy.swift:66-170 | from any state, over every run of events, empty polls, wakes, sessions and resets, the watch and the pure policy keep equal cursors and show the same events, each with the picture of its kind, in strictly increasing order between resets |
| WatchModel.WatchSimulatesPolicy | shared/TaphapticWatchEventPolicy.swift:66-170 | from any attended and orderly state, over every run of sessions with safe resets and a clock that does not go back, the watch also still holds whatever the policy holds |
| WatchPolicy.ApplyPresents | shared/TaphapticWatchEventPolicy.swift:66-157 | an event is presented if and only if it is new and at most 20 s old: for 4.25 s when animated and 3 s otherwise, with the haptic of its kind; anything else leaves a running presentation alone |
| WatchPolicy.PendingKeepsRunning | shared/TaphapticWatchEventPolicy.swift:159-170 | an empty poll leaves a running presentation alone and otherwise asks for the waiting screen |
| RelayProtocol.ReceiveIsTheWatchs | watch-app/TaphapticModel.swift:536-598 | an answer on the wire does to the protocol's watch what it does to the app |
| RelayProtocol.GuardMatches | shared/TaphapticSharedModels.swift:4-21 | the poll guard accepts an answer if and only if there is a current token, the asking one is not blank, and the two are equal once trimmed |
| RelayProtocol.DeliveryAccounts | watch-app/TaphapticModel.swift:536-598 | an answer to the current session, however late, accounts for every event between the old cursor and the new |
| RelayProtocol.NoSilentGap | watch-app/TaphapticModel.swift:506-598 | over every run each event of the session's channel between its first and current cursor was handed to applyEvent or had left the store before the snapshot that moved the cursor past it |
| RelayProtocol.RunKeepsWindows | internal/events/store.go:140-229 | without removals the log and every snapshot on the wire are windows on the accepted events |
| RelayProtocol.MissedOnlyByOverflow | internal/events/store.go:298-308 | without removals an event is skipped only after at least max newer ones had been accepted |
| Snapshots.Snapshot | internal/channels/store.go:368-390 | records listed in any map order load back as exactly the map |
| Snapshots.DeleteWhere | internal/watchpairings/store.go:250-274 | deleting while ranging leaves exactly the other records and reports whether any went |
| Channels.Store.Persist | internal/channels/store.go:409-436 | after a save the file loads as exactly the table in memory |
| Channels.Store.EnsureForInstallation | internal/channels/store.go:113-149 | the installation's one channel, found or created, in all indexes, or rolled back |
| Channels.Store.RotatePhoneSession | internal/channels/store.go:151-189 | the phone token is replaced in table and index, or rolled back |
| Channels.Store.RotateWatchSession | internal/channels/store.go:191-229 | the watch token is replaced in table and index, or rolled back |
| Channels.Store.GetByInstallation | internal/channels/store.go:239-250 | the index lookup equals a scan of the channels |
| Channels.Store.GetByProducerToken | internal/channels/store.go:252-263 | the index lookup equals a scan of the channels |
| Channels.Store.GetByPhoneToken | internal/channels/store.go:271-282 | the index lookup equals a scan of the channels |
| Channels.Store.GetByWatchToken | internal/channels/store.go:284-295 | the index lookup equals a scan of the channels |
| Channels.Store.GetByID | internal/channels/store.go:231-237 | a found channel is a stored one that carries the trimmed id, and the only one; nothing is found if and only if no stored channel carries it |
| Channels.Store.DeleteChannel | internal/channels/store.go:315-326 | the channel leaves the table, and every index stays in agreement |
| Channels.Store.AddLoaded | internal/channels/store.go:71-97 | any record of a file is normalised, skipped, or put into the table and every index it has a value for, over whatever was there |
| Channels.LoadMeaning | internal/channels/store.go:64-80 | which records load, with the producer token under its legacy name in an old file, and as what |
| Channels.Store.RemoveByInstallation | internal/channels/store.go:304-336 | the installation's channel leaves the table and all four indexes, or nothing changes |
| Channels.Store.OpenStore | internal/channels/store.go:46-100 | any file loads record by record, later ones winning; a saved file rebuilds the table and all four indexes exactly as they were |
| Channels.IndexMeansScan | internal/channels/store.go:239-295 | an index in agreement with the table answers what a linear scan answers, and its values are unique |
| Channels.IndexUnique | internal/channels/store.go:62-98 | the table determines each index, so a rebuilt one is the one that was lost |
| Channels.RotationRevokes | internal/channels/store.go:151-229 | a rotation revokes exactly the old token of its kind, admits the new one, and leaves every other lookup alone |
| Channels.RotationKeepsDistinct | internal/channels/store.go:151-229 | after a rotation no two channels share an installation or a token |
| Installations.Store.Persist | internal/installations/store.go:233-260 | after a save the file loads as exactly the table in memory |
| Installations.Store.CreateInstallation | internal/installations/store.go:85-108 | a new identity in table and token index, or nothing |
| Installations.Store.GetByToken | internal/installations/store.go:110-121 | the token lookup equals a scan of the installations |
| Installations.Store.TouchToken | internal/installations/store.go:123-152 | only the time of last use of the token's holder moves, to the clock, and only if the save succeeds |
| Installations.Store.RemoveByID | internal/installations/store.go:154-174 | the identity and its token go, or nothing changes |
| Installations.Store.AddLoaded | internal/installations/store.go:56-71 | any record of a file is normalised, skipped, or put into table and index over whatever was there |
| Installations.LoadMeaning | internal/installations/store.go:56-61 | which records load, and as what |
| Installations.Store.OpenStore | internal/installations/store.go:38-75 | any file loads record by record, later ones winning; a saved file rebuilds table and index exactly as they were |
| Devices.Store.Persist | internal/devices/store.go:229-256 | after a save the file loads as exactly the table in memory |
| Devices.Store.UpsertDevice | internal/devices/store.go:79-103 | for every outcome the answer and the new table: which registrations are refused, and the stored form of an accepted one, dated by its first registration |
| Devices.Store.ForInstallation | internal/devices/store.go:105-120 | each of the installation's devices exactly once, and no other |
| Devices.Store.RemoveDevice | internal/devices/store.go:122-139 | the installation's own device goes; another one's is not found and stays |
| Devices.Store.RemoveToken | internal/devices/store.go:141-162 | every device with the normalised token goes |
| Devices.Store.RemoveInstallation | internal/devices/store.go:164-187 | every device of the installation goes, or nothing changes |
| Devices.Store.OpenStore | internal/devices/store.go:45-70 | reloading rebuilds the table exactly |
| Devices.NormalizedLoads | internal/devices/store.go:189-219 | normalising is idempotent: a stored record loads back as itself |
| Devices.NormalizeTokenMeaning | internal/devices/store.go:189-219 | a stored token has no white space and no capitals, and neither matters in what a watch sends |
| Pairings.NormalizeCode | internal/watchpairings/store.go:391-414 | the loop over the runes keeps exactly the digits and accepts exactly four of them among spaces and dashes |
| Pairings.NormalizeMeaning | internal/watchpairings/store.go:391-414 | a text is a code if and only if it holds exactly four digits and beside them only spaces and dashes; its value is the digits |
| Pairings.DigitsConcat | internal/watchpairings/store.go:400-410 | the digits of a text are taken one by one, in order |
| Pairings.NormalizeStable | internal/watchpairings/store.go:391-414 | a normalised code normalises to itself |
| Pairings.FirstFreeMeaning | internal/watchpairings/store.go:137-162 | the first draw whose hash no active code uses is chosen; none is chosen if and only if every draw collides |
| Pairings.CreateKeepsPromise | internal/watchpairings/store.go:103-175 | in every state each outcome of a creation is answered exactly when it should be, and says what is stored |
| Pairings.ClaimKeepsPromise | internal/watchpairings/store.go:177-240 | under every map order a claim is answered Claimed only before the expiry of an unclaimed code of the typed hash, and every other outcome leaves what it should |
| Pairings.Store.Persist | internal/watchpairings/store.go:356-380 | after a save the file loads as exactly the codes in memory |
| Pairings.Store.FindFree | internal/watchpairings/store.go:137-162 | the loop over ten draws stops at the first whose hash no active code uses |
| Pairings.Store.HasActive | internal/watchpairings/store.go:276-290 | true if and only if an unclaimed, unexpired code has the hash |
| Pairings.Store.MakeRoom | internal/watchpairings/store.go:116-131 | expired codes and the installation's unclaimed code go, and nothing else |
| Pairings.Store.CreateCode | internal/watchpairings/store.go:103-175 | for every outcome the answer and the exact new codes: missing ids, no free draw, failed save, or the first free draw as an unclaimed code of the owner with its lifetime, beside the surviving ones |
| Pairings.Store.Newest | internal/watchpairings/store.go:190-201 | in any map order the candidate is a newest code of the hash |
| Pairings.Store.ClaimCode | internal/watchpairings/store.go:177-240 | for every outcome the answer and the exact new codes: an expired code is refused and deleted, a claimed one counts the attempt, six attempts are the end, an open one is claimed at this instant |
| Pairings.Store.RemoveForInstallation | internal/watchpairings/store.go:250-274 | all codes of the installation go, or nothing changes |
| Pairings.Store.OpenStore | internal/watchpairings/store.go:58-94 | reloading rebuilds the codes exactly |
| Pairings.LoadMeaning | internal/watchpairings/store.go:74-83 | which records load, and as what |
| PairingRuns.PairingInvariant | internal/watchpairings/store.go:103-302 | over all runs each id is claimed at most once and before its expiry, a code is unclaimed exactly when its attempts are zero, attempts never pass six, unclaimed codes are unique per installation and per hash, and a restart changes nothing |
| PairingRuns.CreateGivesClaimable | internal/watchpairings/store.go:103-240 | a fresh code is the one claimed under every map order, at any instant before its expiry and by any text of its digits, if and only if no surviving code of its hash was created at the same instant |
| PairingRuns.TieCanMisfire | internal/watchpairings/store.go:190-201 | a run with a tie in which the map order makes a fresh code answer "already claimed" |
| PairingRuns.ExpiredForGood | internal/watchpairings/store.go:177-240 | over every run a claimed code was claimed before its expiry, and one picked after it is answered Expired, gone, and neither stored nor claimed ever again |
| PairingRuns.ClaimYields | internal/watchpairings/store.go:177-240 | any text of a claimable code's digits claims that code, whatever the map order |
| PairingRuns.CodeStaysClaimable | internal/watchpairings/store.go:103-240 | with a non-decreasing clock and no tie at its creation instant, a code returned by Create can be claimed with its clear text at any time before expiry, unless it was claimed, or replaced or removed by its own installation |
| Server.Handler.constructor | internal/api/server.go:153-199 | the handler keeps the given stores, replaces a non-positive pairing lifetime by ten minutes, trims the topic, and takes the environment trimmed and lower-cased or its default |
| Server.Handler.ResolveAuth | internal/api/server.go:244-278 | the table lookups give the bearer's one meaning, and only an installation token is touched |
| Server.Handler.CreateInstallationRequest | internal/api/server.go:284-322 | the known or a new installation with its channel, or the first failure |
| Server.Handler.EnrollCaller | internal/api/server.go:294-321 | a known installation is reused and a new one created, then its channel is ensured; RelayAnswers.EnrollAnswers says what the answer means |
| Server.Handler.DeleteRecordsOf | internal/api/server.go:331-349 | pairings, devices and events go in that order, stopping at the first failed save |
| Server.Handler.DeleteCurrent | internal/api/server.go:324-360 | the whole deletion in the source's order of store calls |
| Server.Handler.CreatePairingCodeRequest | internal/api/server.go:362-399 | only an installation may ask, and only for itself; the channel is ensured before the code |
| Server.Handler.IssueCodeFor | internal/api/server.go:380-398 | the code is created for the channel that was ensured |
| Server.Handler.ClaimPairingCodeRequest | internal/api/server.go:401-461 | a claimed code rotates the watch session; a failed device registration does not fail the claim |
| Server.Handler.OpenSessionFor | internal/api/server.go:437-460 | the session is rotated before the device is registered |
| Server.Handler.CreateEventRequest | internal/api/server.go:463-510 | only a producer may append; an appended event is pushed to exactly the devices of its installation, each once, and a duplicate to none |
| Server.Handler.RegisterDeviceRequest | internal/api/server.go:512-546 | only a watch may register, for its own installation |
| Server.Handler.DeleteDeviceRequest | internal/api/server.go:548-569 | only a watch may delete, and a missing device is no error |
| Server.Handler.TestNotificationRequest | internal/api/server.go:571-594 | the test is pushed to exactly the devices of the caller's installation, each once, and the sent ones are counted |
| Server.Handler.ReadEventsRequest | internal/api/server.go:622-640 | a watch reads its own channel's events above the cursor, oldest first; anyone else is refused; nothing but an installation's last use changes |
| Server.Handler.DeliverTo | internal/api/server.go:596-620 | the loop counts the sent pushes and removes each token the push service calls invalid |
| Server.Handler.DeliverEvent | internal/api/server.go:596-620 | the loop meets each of the installation's devices once |
| Server.Handler.Reopen | internal/installations/store.go:38-75 | reopening all five stores is the restart of the cross-store model |
| RelayRuns.RequestKeepsInv | internal/api/server.go:244-620 | every single request, whatever saves fail, keeps references, scopes, files and draws in order |
| RelayRuns.ReferentialIntegrity | internal/api/server.go:244-461 | over every run each channel, pairing and device names an existing installation, each pairing its current channel, each event an existing channel, and every store equals its file |
| RelayRuns.ClaimOpensSession | internal/api/server.go:401-461 | in every reachable state an accepted code finds its channel, and the session it answers with authenticates as that channel |
| RelayRuns.RestartKeeps | internal/events/store.go:75-114 | a restart of the whole relay changes nothing, but for the next id while no event was ever saved |
| RelayRuns.DeleteKeeps | internal/api/server.go:324-360 | one deletion, whatever fails, keeps the invariant and every other installation's records; a failure keeps the identity |
| RelayAnswers.EnrollAnswers | internal/api/server.go:284-322 | in every reachable state the answer's token authenticates as the answer's installation and its producer token as the answer's channel of it, both the drawn ones for a new caller; with the needed saves there is such an answer, and it is refused only to the rate limit |
| RelayAnswers.CodeAnswers | internal/api/server.go:362-399 | the clear text and id answered are those of one new stored code of the caller's channel; without them the caller was not entitled, a needed save failed or every draw was taken |
| RelayAnswers.CodeOpensSession | internal/api/server.go:362-461 | from the code to the session: the answered text, typed in any way, opens a session of the installation's channel at any time before it expires, unless another code of its hash is as new |
| RelayAnswers.ClaimAnswers | internal/api/server.go:401-461 | a session answered is the drawn token for the picked code's channel and replaces its old one, and the device is registered when it can be; each refusal says what the store says |
| RelayAnswers.EventAnswers | internal/api/server.go:463-510 | a producer's event is appended to its own channel as the log promises, and each refusal comes exactly when it should |
| RelayAnswers.PostedIsRead | internal/api/server.go:463-640 | from the producer to the watch: an event answered as new is the last one a watch of its channel is given from below its id, and no other watch is given it |
| RelayAnswers.RegisterAnswers | internal/api/server.go:512-546 | an acceptable registration with a good save is stored under the caller's installation with the relay's topic and environment; nothing else is |
| RelayAnswers.ForgetAnswers | internal/api/server.go:548-569 | the caller's own device goes, another one's stays, and a missing one is no error |
| RelayAnswers.TestAnswers | internal/api/server.go:571-620 | the count is that of the sent pushes, and the devices that go are those whose token was reported |
| RelayAnswers.DeliverMeaning | internal/api/server.go:596-620 | a delivery counts the sent pushes and removes exactly the devices whose token the push service called invalid |
| RelayAnswers.ReadAnswers | internal/api/server.go:622-640 | a watch is given exactly the stored events of its own channel above the cursor, ascending |
| RelayAnswers.EveryAnswer | internal/api/server.go:284-640 | in every reachable state every request keeps the promise of its kind and changes no other store |
| RelayAnswers.NobodyElseNotices | internal/api/server.go:284-640 | whatever one installation asks for, every other keeps its identity, tokens and channel, its codes until they expire, its devices unless their watch id is registered anew or their token reported, and its events until a full log needs the room |
| RelayDeletion.LookupOrderIrrelevant | internal/api/server.go:244-278 | in every reachable state a bearer means the same whatever order the tables are asked in |
| RelayDeletion.TokenOutlivesRetries | internal/api/server.go:324-360 | until a deletion answers 204 the installation's token keeps authenticating, whatever runs in between |
| RelayDeletion.DeleteConverges | internal/api/server.go:324-360 | in every reachable state a deletion alters nobody else, leaves nothing and no working token on 204, keeps the token working otherwise, and answers 204 when every save succeeds |
| RelayDeletion.GoneForGood | internal/api/server.go:324-360 | an identity that is gone never comes back, nothing refers to it again, and a drawn token without meaning never gets one |
| RelayDeletion.DeletedForGood | internal/api/server.go:244-360 | once a deletion has answered 204 nothing of the installation is ever stored again, and no bearer that at any moment before meant the installation or one of its channels ever means anything again |
| RelayDeletion.TokenKeepsHolder | internal/api/server.go:244-461 | over every run a drawn token never passes from one installation to another |
| JointRuns.RequestLinked | internal/api/server.go:284-640 | every request to the handlers is a sequence of protocol steps: a claim issues a token, a deletion removes events and revokes, an event appends, the others do nothing to it |
| JointRuns.NoGapBehindHandlers | internal/api/server.go:463-510 | over every run of requests to the handlers and actions of the watch, each accepted event of the session's channel between its first and current cursor was handed to applyEvent or had left the store before the snapshot that moved the cursor past it |
| JointRuns.AnswerIsTheHandlers | internal/api/server.go:622-640 | in every reachable state a poll with an issued token is answered by the read handler with exactly what the protocol puts on the wire, the 401 included |
| HookConfig.PruneLegacyEntries | cmd/taphapticctl/main.go:1187-1237 | the loop keeps exactly the object entries, without our handlers, old or new in any letter case, and without emptied entries |
| HookConfig.PrunedByText | cmd/taphapticctl/main.go:1187-1237 | by the text of the commands: kept are exactly the object handlers that mention neither our hook nor the old watch-hook in any letter case, in order, in entries that lose nothing else |
| HookConfig.RemoveTaphapticEntries | cmd/taphapticctl/main.go:1090-1129 | the loop keeps everything but Taphaptic handlers and entries they emptied |
| HookConfig.KeepHandlers | cmd/taphapticctl/main.go:1207-1217 | the inner loop keeps exactly the wanted handlers in order |
| HookConfig.FindCommand | cmd/taphapticctl/main.go:1239-1266 | true if and only if some handler of type command runs the line |
| HookConfig.AppendCommand | cmd/taphapticctl/main.go:1268-1281 | one entry is appended if and only if the command does not run yet |
| HookConfig.MergeEvent | cmd/taphapticctl/main.go:1141-1147 | one event's entries, pruned for Claude and extended, continue the merge so far |
| HookConfig.MergeHooks | cmd/taphapticctl/main.go:1025-1032 | the loop over Codex's events is the specified merge, and the first error ends it |
| HookConfig.MergeClaudeHooks | cmd/taphapticctl/main.go:1131-1173 | the stepwise merge gives the specified tree or the first error; HookConfig.ClaudeByText says what is in it |
| HookConfig.MergeCodexHooks | cmd/taphapticctl/main.go:1006-1039 | the stepwise merge gives the specified tree or the first error |
| HookConfig.CleanHooks | cmd/taphapticctl/main.go:1065-1076 | in any map order the loop cleans every event and deletes the emptied ones |
| HookConfig.HookFile.PatchClaudeSettings | cmd/taphapticctl/main.go:952-978 | the file holds the merged tree, or is untouched when anything fails |
| HookConfig.HookFile.PatchCodexHooks | cmd/taphapticctl/main.go:980-1004 | the file holds the merged tree, or is untouched when anything fails |
| HookConfig.HookFile.RemoveTaphapticHooks | cmd/taphapticctl/main.go:1041-1088 | the file holds the cleaned tree, or is untouched when it has no hooks or anything fails |
| HookConfig.EditsKeepPromise | cmd/taphapticctl/main.go:952-1088 | each edit either replaces the file by the edited tree or reports an error and leaves it as it was; a removal leaves a file without hooks alone |
| HookConfig.MergeSucceeds | cmd/taphapticctl/main.go:1131-1185 | merging succeeds if and only if hooks is missing, null or an object, and every touched event missing, null or an array |
| HookConfig.MergesWhenMergeable | cmd/taphapticctl/main.go:1006-1185 | by what is in the file: a merge succeeds if and only if hooks is missing, null or an object, and each of the event names it touches missing, null or an array there |
| HookConfig.MergeEventsAt | cmd/taphapticctl/main.go:1131-1185 | a merge event by event: the planned ones hold the planned entries, the others stay, and an error names the first bad event |
| HookConfig.ClaudeIdempotent | cmd/taphapticctl/main.go:1131-1173 | merging twice is merging once, on every tree where it succeeds |
| HookConfig.CodexIdempotent | cmd/taphapticctl/main.go:1006-1039 | merging twice is merging once, on every tree where it succeeds |
| HookConfig.ClaudeMerged | cmd/taphapticctl/main.go:1131-1173 | each command runs exactly once under its event, and all surviving handlers of others are kept in order |
| HookConfig.ClaudeByText | cmd/taphapticctl/main.go:1131-1237 | by the text: in each touched event no old hook in any letter case is left, every foreign handler is there in order, and the entries at the end run the exact lines of the event's own actions under their matchers |
| HookConfig.CodexMerged | cmd/taphapticctl/main.go:1006-1039 | the old entries are an exact prefix, one entry is added if and only if its command did not run |
| HookConfig.CodexByText | cmd/taphapticctl/main.go:1006-1039 | by the text: each event keeps what it had and gains one entry for the exact line of its own action, unless that runs already |
| HookConfig.ClaudeFrame | cmd/taphapticctl/main.go:1168-1172 | no other top-level key changes, and only the three keys of the old layout go |
| HookConfig.CodexFrame | cmd/taphapticctl/main.go:1034-1038 | no other top-level key changes, and only a missing description is added, with its text |
| HookConfig.CleanKeepsSurvivors | cmd/taphapticctl/main.go:1090-1129 | cleaning leaves exactly the surviving handlers, in their old order |
| HookConfig.RemovalKeepsOthers | cmd/taphapticctl/main.go:1065-1129 | removal leaves no Taphaptic handler, keeps every other one in order, drops an event only if nothing else was in it, and is idempotent |
| HookConfig.RemovalByText | cmd/taphapticctl/main.go:1041-1129 | by the text: of each event exactly the handlers that do not mention our hook in any letter case are left, in order, in entries that lose nothing else |
| Text.SpellsMeaning | cmd/taphapticctl/main.go:1229-1237 | searching the lower-cased text for a lower-case word finds it in every letter case and nothing else |
| Text.TrimMeaning | internal/events/store.go:144-147 | trimming takes the white space off both ends and nothing else |
| HookConfig.RemoveHooksIdempotent | cmd/taphapticctl/main.go:1041-1088 | removing twice is removing once, and other keys never change |
| HookConfig.RemoveUndoesClaude | cmd/taphapticctl/main.go:1041-1173 | removing after merging gives the file back if and only if its hooks are restorable and it had no old-layout keys |
| HookConfig.RemoveUndoesCodex | cmd/taphapticctl/main.go:1006-1129 | removing after merging leaves only the description behind if and only if the hooks are restorable |
| HookConfig.EmptyEventNotRestored | cmd/taphapticctl/main.go:1065-1129 | hooks with an empty Stop list do not come back, for either agent |
| Headline.SplitJoin | watch-app/ContentView.swift:493-501 | splitting joined words gives the words back |
| Headline.CandidateBreakpoints | watch-app/ContentView.swift:520-547 | the nested recursion yields the list of all choices |
| Headline.Recurse | watch-app/ContentView.swift:528-543 | one call appends every completion of its prefix, in order |
| Headline.ChoicesExact | watch-app/ContentView.swift:520-547 | listed are exactly the strictly increasing choices in range |
| Headline.ChoicesOrdered | watch-app/ContentView.swift:520-547 | they come in strict lexicographic order, and no choice comes twice |
| Headline.ChoicesCount | watch-app/ContentView.swift:520-547 | there are C(n - 1, k - 1) of them |
| Headline.BuildHeadlineLines | watch-app/ContentView.swift:549-561 | each line joins the words between two boundaries |
| Headline.LayoutKeepsWords | watch-app/ContentView.swift:549-561 | a layout has k non-empty lines that read back as all the words in order |
| Headline.ScoreFloor | watch-app/ContentView.swift:563-592 | the score is at least 0.2 for each further line, and exactly that if and only if all lines have one length within the target |
| Headline.LastLineCharge | watch-app/ContentView.swift:580-591 | a short last line costs nothing if and only if it reaches 70 % of the smaller of target and mean, and otherwise six times the square of the shortfall; the score is never below that and the charge for the lines |
| Headline.ShortfallCosts | watch-app/ContentView.swift:586-588 | a larger shortfall of the last line costs more |
| Headline.ShortLineAvoided | watch-app/ContentView.swift:493-592 | two scores to the digit, and a text that stays on one overlong line because its second line would be short |
| Headline.LongestMeaning | watch-app/ContentView.swift:594-598 | the longest line is the maximum of the lengths |
| Headline.PrefersStrictWeakOrder | watch-app/ContentView.swift:594-608 | the tie-break is irreflexive, transitive, and its ties are transitive |
| Headline.CandidatesExact | watch-app/ContentView.swift:503-513 | tried is exactly every layout of at most the allowed number of lines |
| Headline.CandidatesCount | watch-app/ContentView.swift:503-513 | their number is a sum of binomial coefficients |
| Headline.BalancedHeadlineLines | watch-app/ContentView.swift:493-518 | the nested loops compute the best of all candidates, which for any text is a good headline: it reads back as the text's words on non-empty lines within the limit, near-optimal against every other layout; no words give one empty line |
| Headline.TryLineCount | watch-app/ContentView.swift:506-515 | the inner loop tries every layout with this many lines |
| Headline.Consider | watch-app/ContentView.swift:509-513 | a candidate replaces the best one exactly when it beats it |
| Headline.BestNearOptimal | watch-app/ContentView.swift:505-516 | the tie-break by tolerance can lose at most 0.0001 a candidate |
| Headline.BestExact | watch-app/ContentView.swift:505-516 | with scores equal or clearly apart the choice is a true minimum, and nothing of its score is preferred to it |
| Headline.HeadlineGuarantee | watch-app/ContentView.swift:493-608 | for every text, line limit and target the chosen headline reads back as the text's words, keeps the line limit, and loses to no layout of the words by more than the tolerance; when scores are clearly apart it loses to none, and a tie goes to the shortest longest line, then more lines, then the longer last line |
| RateLimiter.RequestLimiter.Allow | internal/api/server.go:729-755 | the exact new buckets and verdict |
| RateLimiter.DecideKeepsPromise | internal/api/server.go:729-755 | which calls pass and count in which window, with a minute for a window of no length |
| RateLimiter.RateBound | internal/api/server.go:729-755 | any half-open span of k windows admits fewer than (k + 1) times the limit, for every run with a non-decreasing clock |
| RateLimiter.RateBoundReached | internal/api/server.go:729-755 | for every limit, every k from 1 on and every window of more than one tick some run lets through one less than (k + 1) times the limit in k windows |
| RateLimiter.RefusalDeserved | internal/api/server.go:747-749 | a refusal means the full limit was admitted within less than one window |
| RateLimiter.KeysIndependent | internal/api/server.go:741-754 | a key's bucket and admissions are those of its own calls alone |

## Left out

- HTTP routing, headers, body decoding and limits, status texts, logging; handlers start from decoded requests.
- JSON text, file writing, renaming and time formatting: a save is one atomic step that succeeds or fails.
- The order of records in a state file: a file may list them in any order, so the sorted one is covered.
- Channels.Store.OpenStore: zero creation and update times in a file are not filled in from the clock, because
  every record the relay saves has both; a file edited by hand may not.
- Channels.Store.AddLoaded: the same zero times of the one record.
- Installations.Store.OpenStore: zero times of creation and last use in a file are not filled in, for the same reason.
- Installations.Store.AddLoaded: the same zero times of the one record.
- Pairings.Store.OpenStore: zero creation and expiry times in a file are not filled in, for the same reason.
- Handlers that interleave between store calls: requests run one at a time, each store call is one step.
- Memory-only stores in the cross-store statements, which are about a relay with state files.
- EventLog.IdsNeverReused: speaks of a store with a state file, because a memory-only one can give an id out again
  after a restart; `EventLog.UnsavedRestart` says exactly when.
- Randomness: identifiers, tokens and sessions are new strings; the ten code draws and the hash are arbitrary.
- The phone session in the handlers: none creates or accepts one; the channel store's side of it is modelled.
- The table of event type names: an input carries its parsed type or none.
- 64-bit overflow of event ids and floating-point rounding of times and scores.
- Texts, haptics, sound, animation, discovery, keychain and push registration on the watch; the pairing state
  shown to the user and the time of last terminal activity.
- One clock reading per delivered batch of events instead of one per event.
- The uniqueness of the poll loop: polls may overlap freely.
- Character counts are counts of code points, not of grapheme clusters.
- Lower-casing is exact where the result is an ASCII letter, which is all the hook markers need.
- The half-merged tree in memory after a failed merge: the file is not written then.
- A hook file that holds the JSON value `null` at its top.
- Branches that repair an index entry without a channel: the stores' `Valid` shows they cannot be reached.
- Tasks of an earlier launch: a relaunch starts without timers and outstanding requests.
- The limiter inside a request: its verdict is an input of the handlers, `RateLimiter` speaks about the limiter.
