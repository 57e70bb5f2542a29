# Leftcar: verified models of the viewer and host state machines

Leftcar streams a Host computer's displays to a viewer device. Most of its difficult
logic is small asynchronous state machines, each commented with the guarantee it must
keep. This project models those state machines in Dafny and proves the guarantees over
every order of events, every failure and every late completion.

Each component follows one pattern. A `State` value and a `Step` function say what one
uninterrupted turn does; every `await` of the source ends a turn, so what comes back
later is another event. A class with the source's own fields changes them in place, and
each of its methods is proved equal to the step. The theorems are lemmas about all
sequences of events.

| component | files |
|---|---|
| Replicated pairing state of the Host window | `PairedDevices.dfy`, `PairedDevicesHistory.dfy` |
| Decoder slots, leases, launch and reconfiguration | `DecoderBudget.dfy`, `DecoderInvariants.dfy`, `ReservedStream.dfy`, `ReservedStreamHistory.dfy`, `EncoderExperiments.dfy`, `LaunchStream.dfy` |
| Control channel, line framing, sealed frames | `ControlChannel.dfy`, `LineFraming.dfy`, `SecureChannel.dfy` |
| Session fencing | `Session.dfy`, `SessionHistory.dfy` |
| Recovery of native windows | `StreamRecovery.dfy`, `RecoveryHistory.dfy` |
| Preferences and credentials | `Preferences.dfy`, `PreferencesHistory.dfy`, `Credentials.dfy`, `CredentialsHistory.dfy`, `PairingFlow.dfy` |
| Codecs | `Varints.dfy`, `Utf8.dfy`, `FrameCodecs.dfy` |
| Resolution arithmetic and adaptation | `StreamResolution.dfy`, `StreamingPolicy.dfy`, `AdaptiveResolution.dfy` |
| Counter analysis | `CounterSeries.dfy`, `Measurement.dfy` |

`dafny verify dfyconfig.toml` checks everything.

## Conventions

- What the model cannot see is a parameter: clocks, native calls, the Host's answers,
  write failures, and the order in which they arrive. A failed storage write may or may
  not have reached the store.
- Object identity is a number: attempts, sockets, abort signals, leases, episodes,
  timers and rollbacks are numbered in order of creation.
- JavaScript numbers are `int` or `real`; a native hint that is not a finite number is
  `None`. Resolution arithmetic is exact. The square root that the pixel step takes is a
  parameter that must be non-negative and square to the ratio.
- The cipher is ideal: what was encrypted decrypts, and a delivered frame that decrypts
  was sealed by the peer (section 2.8 of RFC 8439).
- The Host of the pairing model is truthful: a device it reports holds a credential that
  existed at the reported revision, and a revoked credential is never reissued.

## What turned out false

The code keeps these as it is; each has a concrete history and the exact condition.

- *The client is an open socket.* A socket that closes while its attempt still waits has
  no listener yet, and is installed all the same (`SessionHistory.DeadSocketIsInstalled`,
  `SessionHistory.ClientStaysOpenIff`).
- *Ready means stored.* An edit made while a reload is pending and the status is already
  ready again is shown but not flushed (`PreferencesHistory.ReloadHidesAnEdit`,
  `PreferencesHistory.AlwaysSavedIff`). It needs a load during a save
  (`PreferencesHistory.CalmRunsAreSaved`).
- *Rolling back overlapping attempts gives the first store back.* Newest first it always
  does; oldest first exactly under `CredentialsHistory.OldestFirstRestoresIff`.
- *A successor reads its predecessor's last edit.* An edit made during a reload is left to
  a load that does nothing once the controller is disposed
  (`PreferencesHistory.ReloadLosesAnEdit`, `PreferencesHistory.AlwaysCurrentIff`).
- *A failed clear changes nothing.* Both deletions start at once and the repair does not
  wait for the second one (`CredentialsHistory.FailedClearLosesTheIdentityToken`); it holds
  exactly when at most one key holds the token
  (`CredentialsHistory.FailedClearChangesNothingIff`).
- *A failed start or reconfiguration leaves nothing prepared.* Refused cancellations are
  swallowed, the last one names only the last mode, and a failed first preparation of a
  reconfiguration is never cancelled (`LaunchStream.RefusedFallbackCancelStays`,
  `LaunchStream.FailedReconfigureMayLeaveListeners`). What stays is known exactly
  (`LaunchStream.FailedStartLeavesNothingIff`,
  `LaunchStream.FailedReconfigureLeavesNothingIff`), and nothing stays for certain only when
  nothing was prepared (`LaunchStream.EveryFailedStartIsCleanIff`,
  `LaunchStream.EveryFailedReconfigureIsCleanIff`). The comments at launch-stream.ts:297-301
  and :691-692 say more than the code does.
- *A planned operation gets past its reservation.* A launch and a reconfiguration do. A
  restore predicts split from the mode it runs, not from what the Host offers
  (`LaunchStream.RestoreMayTrip`, `LaunchStream.PlannedRestoreTripsIff`).
- *The fit stays under its pixel budget.* Raising a side to two can break it
  (`StreamResolution.ClampedSideBreaksThePixels`); the sources and budgets for which it
  holds are `StreamResolution.FitStaysUnderThePixelsIff`.
- *Every string survives the codec.* Exactly those do whose high surrogates are paired
  (`Utf8.Utf8RoundTripIff`); the comment in the generated file does not mention it.

## Model

| member | source | states |
|---|---|---|
| `PairedDevices.PairedDeviceStore.MergeInto` | apps/host-desktop/src/paired-device-state.ts:69-88 | the merge of a complete snapshot, devices kept in snapshot order and newer partial knowledge appended, equals its closed form over the old list |
| `PairedDevices.PairedDeviceStore.ReceivePairedDeviceState` | apps/host-desktop/src/paired-device-state.ts:67-100 | a complete snapshot has exactly the specified effect on list, failures and tombstones; an older one has none |
| `PairedDevices.PairedDeviceStore.ConfirmSourceGrants` | apps/host-desktop/src/paired-device-state.ts:101-126 | a partial confirmation has exactly the specified effect |
| `PairedDevices.PairedDeviceStore.MarkSourceGrantsUncertain` | apps/host-desktop/src/paired-device-state.ts:127-138 | a failed save opens a new failure epoch for its listed credential only |
| `PairedDevices.PairedDeviceStore.ReceiveRevokeOutcome` | apps/host-desktop/src/paired-device-state.ts:139-155 | a revoke outcome has exactly the specified effect, with tombstones only when it is newer than the last complete snapshot |
| `PairedDevicesHistory.RunKeepsConsistent` | apps/host-desktop/src/paired-device-state.ts:63-66 | in every order of truthful messages every listed credential with an unresolved failure shows the review flag and that failure's error, ids stay distinct and nothing listed is tombstoned |
| `PairedDevicesHistory.RevokedNeverReappears` | apps/host-desktop/src/paired-device-state.ts:139-150 | whatever arrived before a revoke outcome and whatever arrives after it, a credential it removed is never listed again |
| `PairedDevicesHistory.NewestSnapshotWins` | apps/host-desktop/src/paired-device-state.ts:67-99 | once a snapshot at least as new as everything seen arrives, exactly its devices and credentials are listed, in its order, and no tombstone is left |
| `PairedDevicesHistory.RevisionNeverDecreases` | apps/host-desktop/src/paired-device-state.ts:80-84 | while a device and credential stay listed no message moves their grant revision backwards |
| `PairedDevicesHistory.FailureStaysShown` | apps/host-desktop/src/paired-device-state.ts:111-119 | a recorded failure survives every message but a revocation, a newer failure or a confirmation of its own epoch |
| `PairedDevicesHistory.OtherEpochConfirmed` | apps/host-desktop/src/paired-device-state.ts:113-119 | a confirmation started at another epoch leaves the failure recorded and shown |
| `PairedDevicesHistory.StaleSaveCannotClear` | apps/host-desktop/src/paired-device-state.ts:111-115 | a save issued before the failure was observed can never clear it, however late it is confirmed |
| `PairedDevicesHistory.ConfirmationIsShown` | apps/host-desktop/src/paired-device-state.ts:111-125 | a confirmation that is not older is shown as it came under the larger state revision; it clears exactly the failure whose epoch its save was issued at, and other devices and failures stay |
| `PairedDevicesHistory.ConfirmationIsIgnored` | apps/host-desktop/src/paired-device-state.ts:106-110 | a confirmation for an unlisted device, another credential, or an older revision changes nothing |
| `PairedDevicesHistory.LaterSaveClears` | apps/host-desktop/src/paired-device-state.ts:111-119 | a save issued after the failure clears it when confirmed, however many messages arrive in between |
| `PairedDevicesHistory.FailureIsRecorded` | apps/host-desktop/src/paired-device-state.ts:127-138 | a failed save of a listed credential is recorded under the next epoch and shown at once |
| `PairedDevicesHistory.RevokeIsApplied` | apps/host-desktop/src/paired-device-state.ts:139-150 | a revoke takes away exactly the credentials it names if it is newer than the last snapshot, with their failures |
| `PairedDevicesHistory.RevokeErrorsAreShown` | apps/host-desktop/src/paired-device-state.ts:151-154 | a reported error is shown, and cleared by an outcome at least as new without one |
| `PairedDevicesHistory.SnapshotIsShown` | apps/host-desktop/src/paired-device-state.ts:67-99 | an accepted snapshot shows its devices with newer listed grants and unresolved failures, keeps failures of what is shown, and forgets acknowledged removals |
| `PairedDevicesHistory.NewerIsKept` | apps/host-desktop/src/paired-device-state.ts:75-88 | a listed device known to be newer than an accepted snapshot stays as it is |
| `DecoderBudget.DecoderReservations.Plan` | apps/viewer-expo/src/decoder-budget.ts:259-268 | the planning loop terminates with the first fitting candidate of the demand followed by its ladder of single-decoder steps |
| `DecoderBudget.DecoderReservations.FitsNow` | apps/viewer-expo/src/decoder-budget.ts:237-256 | the accounting loop decides exactly whether both budgets admit a demand |
| `DecoderBudget.DecoderReservations.ReserveLease` | apps/viewer-expo/src/decoder-budget.ts:270-275 | reserves exactly what fits, under a lease number never used before |
| `DecoderBudget.DecoderReservations.StartRun` | apps/viewer-expo/src/decoder-budget.ts:282-299 | a run starts only on an open idle lease and charges the high-water mark of the old and the new demand |
| `DecoderBudget.DecoderReservations.FinishRun` | apps/viewer-expo/src/decoder-budget.ts:300-316 | success within the charge adopts the accepted demand; everything else keeps the charge |
| `DecoderBudget.DecoderReservations.FinishCleanup` | apps/viewer-expo/src/decoder-budget.ts:323-331 | only a completed cleanup removes the lease |
| `DecoderInvariants.StepGrowsOnlyWithinBudget` | apps/viewer-expo/src/decoder-budget.ts:282-332 | whatever the hint, a step that does not leave both budgets met lets neither total grow |
| `DecoderInvariants.NeverMoreThanFourSlots` | apps/viewer-expo/src/decoder-budget.ts:227-235 | whatever hints, overlays and native results do, the leases never charge more than four slots |
| `DecoderInvariants.LadderDescends` | apps/viewer-expo/src/decoder-budget.ts:159-179 | the downgrade ladder is finite and strictly descends, which is why planning terminates |
| `DecoderInvariants.PlanIsReservable` | apps/viewer-expo/src/decoder-budget.ts:259-275 | an immediately following reserve admits what planning returned, which is the demand itself if it fits and otherwise a strictly smaller single step; it gives up only when nothing fits |
| `DecoderInvariants.PlanIsTheLargest` | apps/viewer-expo/src/decoder-budget.ts:259-268 | no candidate larger than the planned one fits |
| `DecoderInvariants.ReserveIff` | apps/viewer-expo/src/decoder-budget.ts:237-275 | a demand is reserved if and only if it is positive, at most 90 frames, within a positive rate per decoder, and with everything in use within four slots, the hinted instances or one, the overlay, and a positive pixel rate |
| `DecoderInvariants.OverlayInNumbers` | apps/viewer-expo/src/decoder-budget.ts:216-220 | the overlay is the cap that was set, rounded down; a cap below one is no cap |
| `DecoderInvariants.RunStartsIff` | apps/viewer-expo/src/decoder-budget.ts:282-296 | work starts exactly on an open idle lease whose written-out high-water mark is allowed beside the others, and charges that mark |
| `DecoderInvariants.ChargeAfter` | apps/viewer-expo/src/decoder-budget.ts:300-315 | a success within the charge adopts exactly its demand, and no failure or close changes the charge |
| `DecoderInvariants.LadderInNumbers` | apps/viewer-expo/src/decoder-budget.ts:157-179 | a downgrade goes from 2160 to 1440 to 1080 to 720 on the short side and keeps orientation and rate |
| `DecoderInvariants.LadderKeepsAspect` | apps/viewer-expo/src/decoder-budget.ts:171-173 | the long side of a downgrade is the exactly scaled one, rounded down to an even number |
| `DecoderInvariants.PlannedRunStartsIff` | apps/viewer-expo/src/decoder-budget.ts:282-296 | a run planned in place of its own open idle lease starts exactly when the high-water mark is chargeable by itself, never refused for the slots or pixels of others |
| `DecoderInvariants.LeasesFollowDiscipline` | apps/viewer-expo/src/decoder-budget.ts:282-332 | in every run the life of each lease follows a seven-state discipline: work never overlaps work or cleanup, close requests share a cleanup |
| `DecoderInvariants.NoWorkOnceClosed` | apps/viewer-expo/src/decoder-budget.ts:318-322 | from the first close request on no work starts on the lease |
| `DecoderInvariants.ChargedUntilCleanupCompletes` | apps/viewer-expo/src/decoder-budget.ts:323-328 | the lease stays in the table and charged until a cleanup of it completed |
| `DecoderInvariants.FailedCleanupIsRetryable` | apps/viewer-expo/src/decoder-budget.ts:330-330 | a failed cleanup keeps the charge and the next close starts a fresh cleanup |
| `ReservedStream.Reservation.StartsRun` | apps/viewer-expo/src/reserved-stream.ts:48-56 | a run marks the stream and forgets the captured generation exactly when the pool starts it |
| `ReservedStream.Reservation.Prepare` | apps/viewer-expo/src/reserved-stream.ts:58-65 | nothing is prepared on a stopped stream, and what is prepared is remembered for the cleanup |
| `ReservedStream.Reservation.Open` | apps/viewer-expo/src/reserved-stream.ts:66-76 | no window is asked for on a stopped stream |
| `ReservedStream.Reservation.WorkReturns` | apps/viewer-expo/src/reserved-stream.ts:90-100 | the work publishes its session and, where the launcher can report, waits for the renderer generation before the pool adopts the demand |
| `ReservedStream.Reservation.GenerationArrives` | apps/viewer-expo/src/reserved-stream.ts:96-110 | the captured generation ends the run, a failed report fails it and keeps the charge |
| `ReservedStream.Reservation.Close` | apps/viewer-expo/src/reserved-stream.ts:127-128 | a close at any time, also during a run or another close, stops the stream at once and waits |
| `ReservedStream.Reservation.BeginsCleanup` | apps/viewer-expo/src/reserved-stream.ts:128-153 | the cleanup begins only after the pending work, and fails when nothing can acknowledge it |
| `ReservedStream.Reservation.GenerationNamed` | apps/viewer-expo/src/reserved-stream.ts:143-146 | an uncaptured generation is asked for, and the cleanup fails when it cannot be read |
| `ReservedStream.Reservation.RendererAnswered` | apps/viewer-expo/src/reserved-stream.ts:147-148 | the cleanup goes on only when the named renderer was acknowledged as closed |
| `ReservedStream.Reservation.PreparationAnswered` | apps/viewer-expo/src/reserved-stream.ts:154-161 | the lease leaves the pool only with the acknowledged cancellation of the last preparation |
| `ReservedStreamHistory.BudgetsAlwaysHold` | apps/viewer-expo/src/decoder-budget.ts:237-256 | while the hint is unchanged no interleaving of launches, restores, reconfigurations, failures, closes and retries takes the pool over the hinted instances or the pixel rate, whatever the Host and the native side report |
| `ReservedStreamHistory.BudgetsInNumbers` | apps/viewer-expo/src/decoder-budget.ts:227-256 | in every run of a device with an unchanged hint the slots in use are at most four and at most the hinted instances, or one without a usable hint, and the pixels at most a positive hinted rate |
| `ReservedStreamHistory.AcceptedBecomesTheCharge` | apps/viewer-expo/src/decoder-budget.ts:300-308 | no reserved run ends because the native side exceeded its reservation: the charge becomes exactly what it reported |
| `ReservedStreamHistory.RunKeepsSound` | apps/viewer-expo/src/reserved-stream.ts:48-162 | in every run a lease is busy exactly while work is pending, cleaned exactly while a cleanup waits, and covers what its run asked for or reported |
| `ReservedStreamHistory.ReleasedLeavesNothing` | apps/viewer-expo/src/reserved-stream.ts:143-160 | in every run a lease that left the pool has no renderer and no last preparation, and its launcher could acknowledge that if work was attempted |
| `ReservedStreamHistory.ReleasedOnlyByItsCleanup` | apps/viewer-expo/src/decoder-budget.ts:323-329 | the only turn that releases a lease is the acknowledged end of its own cleanup |
| `ReservedStreamHistory.UnacknowledgeableStaysCharged` | apps/viewer-expo/src/reserved-stream.ts:149-153 | work attempted through a launcher that cannot acknowledge keeps its lease charged in every later run |
| `ReservedStreamHistory.NoNativeCallOnceClosed` | apps/viewer-expo/src/reserved-stream.ts:57-77 | from the first close request no preparation and no window is asked for, in any later run |
| `ReservedStreamHistory.RetainedUntilReleased` | apps/viewer-expo/src/reserved-stream.ts:118-125 | a stream handed over for retry stays queued in every run until its lease is released |
| `ReservedStreamHistory.RetryReachesEveryAbandoned` | apps/viewer-expo/src/reserved-stream.ts:17-21 | a refresh starts a cleanup of every abandoned stream that still holds its lease |
| `ReservedStreamHistory.RetryReleases` | apps/viewer-expo/src/reserved-stream.ts:127-162 | whatever failed before, one more close whose native answers are good releases the lease |
| `ReservedStreamHistory.RunLeavesToTheCleanup` | apps/viewer-expo/src/reserved-stream.ts:54-100 | exactly a preparation on an open stream is remembered as the last one, a window appears as the renderer, and session and generation are those reported |
| `ReservedStreamHistory.CleanupGoesOn` | apps/viewer-expo/src/reserved-stream.ts:128-160 | a cleanup asks the Host to stop exactly a published session, then closes the renderer it knows or asks for, and cancels the last preparation |
| `EncoderExperiments.NormalizeEncoderExperiments` | apps/viewer-expo/src/encoder-experiment.ts:40-66 | the loop returns exactly the usable modes, each once, in the order of their first usable entries |
| `EncoderExperiments.OffersIff` | apps/viewer-expo/src/encoder-experiment.ts:43-56 | a mode is offered by an entry of its id with a label and a hint that asks for a reconnect |
| `LaunchStream.PlannedLaunchNeverTrips` | apps/viewer-expo/src/launch-stream.ts:239-252 | for every advertised list, selection, size and transport a launch planned from the predicted shape never trips the assertion before its preparation |
| `LaunchStream.PlannedReconfigureNeverTrips` | apps/viewer-expo/src/launch-stream.ts:542-565 | a reconfiguration whose demand was planned in place of its own lease never trips the assertion before its preparation |
| `LaunchStream.PlannedRestoreTripsIff` | apps/viewer-expo/src/use-catalog-model.ts:326-372 | a restore planned in place of its own lease trips the assertion before its preparation exactly when its mode is no longer offered at 4K, the automatic one and split are, and it runs over UDP |
| `LaunchStream.RestoreMayTrip` | apps/viewer-expo/src/use-catalog-model.ts:326-336 | a concrete restore of a 4K stream that is refused before it prepares anything |
| `LaunchStream.PromotesIffThereIsRoom` | apps/viewer-expo/src/launch-stream.ts:615-629 | a promotion among live streams that fit the default capacity goes ahead exactly when one more slot is free |
| `LaunchStream.StartPreparedStream` | apps/viewer-expo/src/launch-stream.ts:302-492 | for every answer of Host and launcher a window is asked only on listeners prepared for its mode and inside the reservation; after a failure the session was asked to stop or the stop is reported as unconfirmed, and exactly the modes without an acknowledged cancellation stay prepared |
| `LaunchStream.StartSucceedsIff` | apps/viewer-expo/src/launch-stream.ts:358-474 | a start succeeds exactly when it is not refused, its listeners are bound, the Host answers inside the reserved rate, and the window and settings succeed; it reports the Host's session and, number by number, the target the Host answered |
| `LaunchStream.StopIsReported` | apps/viewer-expo/src/launch-stream.ts:475-491 | after an acknowledged session the caller learns an unconfirmed or refused stop, and otherwise the first failure |
| `LaunchStream.SplitIsStartedIff` | apps/viewer-expo/src/launch-stream.ts:334-364 | a start prepares for split exactly at 4K where it is offered and selected, or chosen automatically over UDP |
| `LaunchStream.LeftPreparedIff` | apps/viewer-expo/src/launch-stream.ts:396-399 | a mode stays prepared exactly when its last preparation was never acknowledged as cancelled |
| `LaunchStream.FailedStartLeavesNothingIff` | apps/viewer-expo/src/launch-stream.ts:475-491 | a failed start leaves nothing prepared exactly when the last cancellation, and the one before a fallback, were acknowledged |
| `LaunchStream.EveryFailedStartIsCleanIff` | apps/viewer-expo/src/launch-stream.ts:365-409 | every failure is sure to leave nothing prepared exactly when the start is refused before it prepares |
| `LaunchStream.RefusedFallbackCancelStays` | apps/viewer-expo/src/launch-stream.ts:396-400 | a concrete start whose split preparation stays although its last cancellation was acknowledged |
| `LaunchStream.ReconfigurePreparedStream` | apps/viewer-expo/src/launch-stream.ts:567-779 | for every answer a split window is asked only on listeners prepared as split and every window inside the reservation; exactly the modes without an acknowledged cancellation stay prepared |
| `LaunchStream.ReconfigureSucceedsIff` | apps/viewer-expo/src/launch-stream.ts:635-772 | a reconfiguration succeeds exactly when its listeners are bound and the Host's last answer can be shown on them inside the reservation; it reports that answer's session and target |
| `LaunchStream.ReconfigureModeIff` | apps/viewer-expo/src/launch-stream.ts:542-565 | a reconfiguration ends up split exactly at 4K for a split stream or a permitted promotion; a split stream at another size becomes automatic |
| `LaunchStream.FailedReconfigureLeavesNothingIff` | apps/viewer-expo/src/launch-stream.ts:640-778 | a failed reconfiguration leaves nothing prepared exactly when it prepared nothing, or got past its first preparations and the cancellations that still count were acknowledged |
| `LaunchStream.EveryFailedReconfigureIsCleanIff` | apps/viewer-expo/src/launch-stream.ts:635-666 | every failure is sure to leave nothing prepared exactly when the reservation refuses the reconfiguration outright |
| `LaunchStream.FailedReconfigureMayLeaveListeners` | apps/viewer-expo/src/launch-stream.ts:649-666 | two concrete failures that leave listeners: a failed first preparation is never cancelled, and a refused cancellation is not repeated |
| `LaunchStream.ReportedIsReserved` | apps/viewer-expo/src/launch-stream.ts:239-252 | what a start or reconfiguration reports under a reservation is inside it and has a positive pixel rate |
| `LaunchStream.ReportedIsTheAnswer` | apps/viewer-expo/src/reserved-stream.ts:101-109 | what a reserved run reports is the session and target of the Host's answer |
| `ControlChannel.Connection.Request` | apps/viewer-expo/src/control.ts:492-546 | admission, with its four refusals in order, or retirement when the write throws |
| `ControlChannel.Connection.HandleResponse` | apps/viewer-expo/src/control.ts:571-608 | a response settles the front request, and a malformed one retires the connection |
| `ControlChannel.Connection.Fail` | apps/viewer-expo/src/control.ts:417-434 | the loop rejects every pending request once, in order |
| `ControlChannel.Connection.DeadlineFires` | apps/viewer-expo/src/control.ts:472-484 | a deadline retires the connection only if its request is still pending |
| `ControlChannel.RunKeepsHealthy` | apps/viewer-expo/src/control.ts:467-546 | in every run pending bytes are the sum over the pending requests, count and bytes stay within their limits, and exactly the front request has an armed deadline |
| `ControlChannel.SettledAtMostOnceInOrder` | apps/viewer-expo/src/control.ts:424-429 | every admitted request is settled at most once, in admission order, and what is pending was not settled |
| `ControlChannel.ResponsesAnswerInOrder` | apps/viewer-expo/src/control.ts:583-607 | the k-th response processed answers the k-th admitted request with that very reply; all later settlements are failures |
| `ControlChannel.NothingPendingAfterClose` | apps/viewer-expo/src/control.ts:705-722 | after the socket's close handler nothing is pending or admitted any more and every admitted request was settled |
| `ControlChannel.AdmittedIff` | apps/viewer-expo/src/control.ts:491-528 | a request is admitted exactly on a live connection with fewer than 32 pending, a line within twelve megabytes and pending bytes within sixteen; it goes last with its own limit |
| `ControlChannel.FailedWriteRejectsEverything` | apps/viewer-expo/src/control.ts:529-545 | a request whose write throws is admitted and then rejected with everything else |
| `ControlChannel.ResponseSettlesTheFront` | apps/viewer-expo/src/control.ts:584-600 | a response settles the front request with its reply, frees its bytes and arms the next one |
| `ControlChannel.FrontDeadlineRetires` | apps/viewer-expo/src/control.ts:467-485 | the deadline of the front request rejects everything pending as timed out; no other deadline acts |
| `ControlChannel.FailuresRejectEverything` | apps/viewer-expo/src/control.ts:689-722 | socket errors and closes, failed writes and malformed responses reject everything pending in order |
| `ControlChannel.AdmissionChargesTheSealedLine` | apps/viewer-expo/src/control.ts:505-514 | the size admission charges for a sealed request is exactly the length of its sealed line and delimiter |
| `LineFraming.LineReader.Feed` | apps/viewer-expo/src/control.ts:668-687 | the chunk handler with its newline scan equals consuming the text one character at a time |
| `LineFraming.LineReader.Drain` | apps/viewer-expo/src/control.ts:610-666 | the drain loop handles exactly the completed line, in the mode it was completed in, also when the confirmation of a handshake cannot be written |
| `LineFraming.FoldKeepsFramed` | apps/viewer-expo/src/control.ts:676-683 | between chunks the buffer holds no newline and is within the limit of its mode |
| `LineFraming.ChunkingDoesNotMatter` | apps/viewer-expo/src/control.ts:668-687 | two ways of cutting the same text leave the same delivered lines, mode, buffer, settlements and failure |
| `LineFraming.DeliveredLinesAreTheText` | apps/viewer-expo/src/control.ts:610-615 | while the connection lives the delivered lines with their delimiters and the buffer are exactly the text received |
| `LineFraming.BufferedIff` | apps/viewer-expo/src/control.ts:676-681 | a character is buffered exactly while its line is within sixteen kilobytes in the handshake and twelve megabytes after it |
| `LineFraming.LineIsHandled` | apps/viewer-expo/src/control.ts:571-666 | what a completed line does in each mode |
| `LineFraming.GoodTextNeverFails` | apps/viewer-expo/src/control.ts:668-687 | a plain connection with short lines and well-formed responses never fails by reading |
| `SecureChannel.StreamSealer.Seal` | apps/viewer-expo/src/secure-channel.ts:220-230 | seals under the next counter, or refuses an oversized plaintext without using one up |
| `SecureChannel.StreamSealer.Open` | apps/viewer-expo/src/secure-channel.ts:232-246 | opens only a well-sized frame with a new counter that decrypts, and only then moves the last counter |
| `SecureChannel.AcceptedIsASubsequenceOfSent` | apps/viewer-expo/src/secure-channel.ts:240-245 | under drops, duplicates, reordering and refused forgeries the accepted counters strictly increase and each plaintext is the one sealed under its counter |
| `SecureChannel.SentFrameOpensIffNew` | apps/viewer-expo/src/secure-channel.ts:220-246 | a sent frame opens if and only if its counter on the wire is above the last one seen |
| `SecureChannel.InOrderDelivery` | apps/viewer-expo/src/secure-channel.ts:221-246 | in-order delivery returns exactly the sealed plaintexts until the 64-bit counter is used up: all of them if and only if fewer than 2^64 were sealed |
| `SecureChannel.WireCounterReads` | apps/viewer-expo/src/secure-channel.ts:227-239 | the counter field reads back the counter modulo 2^64 |
| `SecureChannel.Base64UrlRoundTrip` | apps/viewer-expo/src/secure-channel.ts:62-75 | decoding inverts encoding for every byte string |
| `SecureChannel.EncodingIsUrlSafe` | apps/viewer-expo/src/secure-channel.ts:62-66 | the encoding has ceil(4n/3) characters, all of them URL-safe |
| `Session.ControlSession.BeginHostSelection` | apps/viewer-expo/src/session.ts:92-96 | a selection aborts the previous signal and takes a fresh generation and signal |
| `Session.ControlSession.ConnectHost` | apps/viewer-expo/src/session.ts:233-245 | a connect attempt starts only for a current selection |
| `Session.ControlSession.Completes` | apps/viewer-expo/src/session.ts:246-281 | a finished attempt publishes exactly when it still wins, and closes its socket otherwise |
| `Session.ControlSession.Publish` | apps/viewer-expo/src/session.ts:256-278 | publishing installs socket, address, target and context and closes the previous socket |
| `Session.ControlSession.ReconnectHost` | apps/viewer-expo/src/session.ts:326-372 | a reconnect is refused for a stale context, joins the one in flight, or starts one |
| `Session.ControlSession.DisconnectHost` | apps/viewer-expo/src/session.ts:418-434 | a disconnect for a stale context does nothing, otherwise it clears the session |
| `Session.ControlSession.SocketEnds` | apps/viewer-expo/src/session.ts:136-146 | a socket that closes by itself clears the client only while it is the watched client |
| `SessionHistory.RunKeepsSound` | apps/viewer-expo/src/session.ts:233-372 | in every run a non-null client is the active context's, address and target belong to it, abort signals agree with the generations, and a generation has at most one unfinished reconnect |
| `SessionHistory.NoSocketLeaks` | apps/viewer-expo/src/session.ts:246-255 | every socket ever opened is closed, the current client, or held by an unfinished attempt |
| `SessionHistory.SupersededForever` | apps/viewer-expo/src/session.ts:83-96 | once superseded an attempt stays so, and no event of it ever changes the session again |
| `SessionHistory.StaleContextStaysStale` | apps/viewer-expo/src/session.ts:130-134 | a request context that is no longer current never becomes current again |
| `SessionHistory.DisconnectIsFinal` | apps/viewer-expo/src/session.ts:418-434 | after a disconnect nothing pending brings the session back; only a new connect does |
| `SessionHistory.ClientStaysOpenIff` | apps/viewer-expo/src/session.ts:268-282 | in every run the client is an open socket throughout if and only if no socket closes by itself while held by an attempt that later completes and wins |
| `SessionHistory.DeadSocketIsInstalled` | apps/viewer-expo/src/session.ts:272-276 | a concrete history in which a socket that closed while its attempt was waiting is shown as the client |
| `SessionHistory.ReconnectInstalls` | apps/viewer-expo/src/session.ts:326-372 | a held socket of a reconnect whose context is the session's, under its generation and an unaborted signal, with no other client, becomes the client under a new context, and the old socket is closed |
| `SessionHistory.ConnectInstalls` | apps/viewer-expo/src/session.ts:233-282 | a held socket of a connect of the current generation that nobody aborted becomes the client, and the client before it is closed |
| `SessionHistory.OthersAreClosed` | apps/viewer-expo/src/session.ts:246-255 | every other completing attempt closes its own socket and changes nothing shown |
| `SessionHistory.LostConnectionComesBack` | apps/viewer-expo/src/session.ts:326-372 | after the client's socket closed by itself, reconnecting its context makes the new socket the client |
| `SessionHistory.ReconnectStarts` | apps/viewer-expo/src/session.ts:326-345 | a reconnect of a usable context starts an attempt at its target under the session's signal |
| `SessionHistory.ConnectStarts` | apps/viewer-expo/src/session.ts:233-245 | a connect without a selection begins one and starts an attempt under it |
| `SessionHistory.ConnectStartsUnderItsSelection` | apps/viewer-expo/src/session.ts:241-246 | a connect under a selection that is still the session's starts under it and disturbs nothing |
| `SessionHistory.ReconnectIsRefusedOrJoined` | apps/viewer-expo/src/session.ts:331-335 | a reconnect for a context that is not usable, or while one of its generation is in flight, starts nothing |
| `SessionHistory.RetireMakesRoom` | apps/viewer-expo/src/session.ts:365-371 | the end of the attempt in flight makes room for the next reconnect |
| `SessionHistory.FirstConnectionComesBack` | apps/viewer-expo/src/session.ts:233-372 | from the very start: connect, lose the socket, reconnect, and the new socket is the client |
| `SessionHistory.DisconnectEnds` | apps/viewer-expo/src/session.ts:418-434 | a disconnect without a scope or for a usable context closes the client, aborts pending work and clears what is shown; any other does nothing |
| `SessionHistory.AbortedOpenIsClosed` | apps/viewer-expo/src/session.ts:164-231 | a network socket that opens for an aborted attempt is closed at once |
| `StreamRecovery.StreamRecoveryController.OnNativeEvent` | apps/viewer-expo/src/stream-recovery.ts:89-131 | a native event closes its window, is ignored, restores at once or schedules, exactly as specified |
| `StreamRecovery.StreamRecoveryController.BeginRestoreOf` | apps/viewer-expo/src/stream-recovery.ts:133-145 | a restore is called only for the episode's own unclaimed window and within its budget |
| `StreamRecovery.StreamRecoveryController.SyncSubscription` | apps/viewer-expo/src/stream-recovery.ts:72-87 | the loop drops exactly the stale episodes with their timers |
| `StreamRecovery.StreamRecoveryController.RestoreResolves` | apps/viewer-expo/src/stream-recovery.ts:160-181 | a late success publishes only for a window still listed under its own selection |
| `StreamRecovery.StreamRecoveryController.RestoreRejects` | apps/viewer-expo/src/stream-recovery.ts:182-199 | a failure retires or reschedules its episode and releases the claim |
| `StreamRecovery.StreamRecoveryController.TimerCallback` | apps/viewer-expo/src/stream-recovery.ts:205-212 | only the current timer of a port acts, and only for an unchanged window and generation |
| `RecoveryHistory.RunKeepsRecovering` | apps/viewer-expo/src/stream-recovery.ts:72-214 | in every interleaving a session has at most one unfinished restore, a port one timer that waits its episode's backoff, no episode both, and a retired episode neither |
| `RecoveryHistory.AtMostFiveRestores` | apps/viewer-expo/src/stream-recovery.ts:136-143 | over any run an episode calls restore at most five times |
| `RecoveryHistory.RetiredNeverRestoresAgain` | apps/viewer-expo/src/stream-recovery.ts:147-151 | a retired episode never calls restore again |
| `RecoveryHistory.ReplacedSelectionNeverPublishes` | apps/viewer-expo/src/stream-recovery.ts:163-173 | after its selection was replaced no restore of an episode publishes, however late it succeeds |
| `RecoveryHistory.RestoreIsPublished` | apps/viewer-expo/src/stream-recovery.ts:160-181 | a restore whose window is still listed under its own selection replaces exactly its entries, in their places; its episode follows with its attempts and the old claim is free |
| `RecoveryHistory.OtherRestoresOnlyRelease` | apps/viewer-expo/src/stream-recovery.ts:164-173 | any other restore that succeeds only gives its claim back |
| `RecoveryHistory.FirstEventRestores` | apps/viewer-expo/src/stream-recovery.ts:104-130 | the first termination of a live window under a selection restores it at once |
| `RecoveryHistory.LaterEvents` | apps/viewer-expo/src/stream-recovery.ts:106-131 | a further event replaces a retry after a failure, leaves a wait after a success, or begins a wait for the backoff so far |
| `RecoveryHistory.FailureSchedulesARetry` | apps/viewer-expo/src/stream-recovery.ts:182-198 | a retryable failure waits out the backoff of its attempts, and the fifth attempt is the last |
| `RecoveryHistory.FinalFailureRetires` | apps/viewer-expo/src/stream-recovery.ts:187-193 | a final failure or a cancellation retires the episode |
| `RecoveryHistory.TimerRestores` | apps/viewer-expo/src/stream-recovery.ts:201-214 | a timer that fires for an unchanged window calls the next restore |
| `RecoveryHistory.BackoffInNumbers` | apps/viewer-expo/src/stream-recovery.ts:22-25 | the delays are 0, 2, 4, 8, 16 and then 30 seconds |
| `RecoveryHistory.CloseEventRemoves` | apps/viewer-expo/src/stream-recovery.ts:96-103 | a window closed by its user leaves the list, alone |
| `RecoveryHistory.ForeignGenerationIsIgnored` | apps/viewer-expo/src/stream-recovery.ts:94-95 | an event of another native generation than the window's is ignored |
| `RecoveryHistory.ChangeDropsTheOutlived` | apps/viewer-expo/src/stream-recovery.ts:72-87 | a change of the windows drops exactly the outlived episodes with their timers |
| `Preferences.PreferencePersistenceController.LoadValue` | apps/viewer-expo/src/preference-persistence.ts:86-91 | a load is queued unless one is pending |
| `Preferences.PreferencePersistenceController.EditValue` | apps/viewer-expo/src/preference-persistence.ts:111-116 | an edit is shown at once and flushed when possible |
| `Preferences.PreferencePersistenceController.LoadReturned` | apps/viewer-expo/src/preference-persistence.ts:91-101 | a load that returns hydrates, keeps newer edits and flushes them |
| `Preferences.PreferencePersistenceController.SaveReturned` | apps/viewer-expo/src/preference-persistence.ts:152-159 | the drain goes on while newer edits were accepted |
| `PreferencesHistory.RunKeepsOrderly` | apps/viewer-expo/src/preference-persistence.ts:23-34 | in every run the queue follows the order of the controllers, one controller writes at a time, and a settled controller's value is the stored one |
| `PreferencesHistory.ReadyMeansStored` | apps/viewer-expo/src/preference-persistence.ts:135-165 | whenever a live controller shows ready and is not loading, the stored value is the shown value |
| `PreferencesHistory.SuccessorReadsTheLastEdit` | apps/viewer-expo/src/preference-persistence.ts:148-150 | when a successor's first load is about to read, its predecessors have drained and the stored value is their last edit, unless their last save failed or they were reloading |
| `PreferencesHistory.AlwaysCurrentIff` | apps/viewer-expo/src/preference-persistence.ts:111-145 | in every run a successor would find its predecessor's last edit at every moment, reloading or not, if and only if no edit and no retry came during a reload with nothing being saved |
| `PreferencesHistory.ReloadLosesAnEdit` | apps/viewer-expo/src/preference-persistence.ts:86-142 | a concrete history: an edit accepted during a reload is lost to the successor when the controller is disposed |
| `PreferencesHistory.AlwaysSavedIff` | apps/viewer-expo/src/preference-persistence.ts:111-116 | every moment of a run is saved when ready if and only if no edit, to another value, came while a controller showed ready during a reload |
| `PreferencesHistory.ReloadHidesAnEdit` | apps/viewer-expo/src/preference-persistence.ts:86-116 | a concrete history of such an edit |
| `PreferencesHistory.CalmRunsAreSaved` | apps/viewer-expo/src/preference-persistence.ts:86-109 | if no load is called while a save is pending, ready always means stored |
| `PreferencesHistory.LoadShowsTheStore` | apps/viewer-expo/src/preference-persistence.ts:86-101 | the first load shows what is stored |
| `PreferencesHistory.EditIsStored` | apps/viewer-expo/src/preference-persistence.ts:111-116 | an edit is shown and saving at once, and stored and ready when its save returns |
| `PreferencesHistory.LaterEditIsStoredToo` | apps/viewer-expo/src/preference-persistence.ts:150-159 | an edit made while another is saved is stored by the same drain |
| `PreferencesHistory.FailedSaveIsRetried` | apps/viewer-expo/src/preference-persistence.ts:118-128 | a failed save is reported and a retry stores the shown value |
| `PreferencesHistory.FailedLoadIsRetried` | apps/viewer-expo/src/preference-persistence.ts:102-123 | a failed load is reported and a retry loads again |
| `PreferencesHistory.EarlyEditWins` | apps/viewer-expo/src/preference-persistence.ts:96-101 | an edit made before the first load wins over the stored value and is stored |
| `Credentials.SecureStore.Store` | apps/viewer-expo/src/pairing.ts:368-432 | the forward steps with their abort checks, then the rollback record or the compensating writes |
| `Credentials.SecureStore.RunRollback` | apps/viewer-expo/src/pairing.ts:395-421 | the compare loop selects the keys that still hold what the attempt wrote and restores those |
| `Credentials.SecureStore.RollbackValues` | apps/viewer-expo/src/pairing.ts:115-121 | every compensating write is tried, also after a failure |
| `Credentials.SecureStore.Migrate` | apps/viewer-expo/src/pairing.ts:330-365 | the takeover of an endpoint credential by a verified identity |
| `CredentialsHistory.FailedStoreChangesNothing` | apps/viewer-expo/src/pairing.ts:384-430 | a failed store whose compensating writes succeed leaves every key as it was, wherever it failed or was aborted and even if a failed write reached the store |
| `CredentialsHistory.StoreSucceedsIff` | apps/viewer-expo/src/pairing.ts:384-395 | storing succeeds exactly when no abort check throws, every write completes and the pin of a verified identity is remembered |
| `CredentialsHistory.RollbackIsCompareAndRestore` | apps/viewer-expo/src/pairing.ts:396-420 | a rollback restores a key exactly when it still holds what its attempt wrote, so a newer token survives |
| `CredentialsHistory.NewestFirstRestoresEverything` | apps/viewer-expo/src/pairing.ts:93-98 | any number of attempts, failed or not, rolled back newest first, leave the very first store |
| `CredentialsHistory.OldestFirstRestoresIff` | apps/viewer-expo/src/pairing.ts:404-412 | two attempts rolled back oldest first give the first store back if and only if on every token key they share both wrote one token or the older one changed nothing |
| `CredentialsHistory.FailedClearChangesNothingIff` | apps/viewer-expo/src/pairing.ts:308-328 | every failing clear whose repair succeeds changes nothing if and only if at most one of the two keys held the token before the call |
| `CredentialsHistory.FailedClearLosesTheIdentityToken` | apps/viewer-expo/src/pairing.ts:317-326 | a concrete failing clear that leaves the endpoint token and loses the identity token |
| `CredentialsHistory.ClearAfterStore` | apps/viewer-expo/src/pairing.ts:307-328 | a clear meant for another token than the one a newer pairing stored does nothing; one meant for that token removes it from every key it names and nothing else |
| `CredentialsHistory.MigrationIsAllOrNothing` | apps/viewer-expo/src/pairing.ts:338-364 | a takeover leaves the token under both keys or, when its repair succeeds, changes nothing |
| `CredentialsHistory.MigrationSucceedsIff` | apps/viewer-expo/src/pairing.ts:344-364 | a takeover succeeds exactly when it is not aborted and the aliases are current or every needed write completes |
| `CredentialsHistory.ClearSucceedsIff` | apps/viewer-expo/src/pairing.ts:317-322 | a clear succeeds exactly when every deletion it starts completes, one for each key that holds its token |
| `PairingFlow.RollbacksRunAtMostOnce` | apps/viewer-expo/src/pairing.ts:84-98 | however commits, cancels and late retains interleave each retained rollback is started at most once, and without a commit none is forgotten |
| `PairingFlow.CommittedIsNeverRolledBack` | apps/viewer-expo/src/pairing.ts:88-98 | a committed attempt was never rolled back and never will be |
| `PairingFlow.EndsOfAnAttempt` | apps/viewer-expo/src/pairing.ts:88-98 | an attempt nobody cancelled commits; cancelling runs what is retained, newest first |
| `PairingFlow.PairingAttempt.CancelAttempt` | apps/viewer-expo/src/pairing.ts:93-98 | a cancel runs what was retained, newest first, whatever the writes of each rollback end in |
| `PairingFlow.PairingAttempt.FinishPairingAttempt` | apps/viewer-expo/src/connect-flow.ts:199-217 | the whole flow ends committed or cancelled, with the specified store, for every outcome of the rollback writes and whatever other transactions wrote meanwhile |
| `PairingFlow.UncommittedLeaves` | apps/viewer-expo/src/connect-flow.ts:194-217 | without a commit a key whose compensating write reaches the store holds what it held before the attempt, every other named key what it held when the compensation began |
| `PairingFlow.UncommittedRestoresIff` | apps/viewer-expo/src/pairing.ts:115-121 | without other writers a run that did not commit leaves the store as it was if and only if every compensating write of a key that is not already back reaches the store |
| `PairingFlow.PairingIsAllOrNothing` | apps/viewer-expo/src/connect-flow.ts:194-217 | when the compensating writes succeed, under every key: what another transaction wrote meanwhile survives, except that an uncommitted flow takes back a value equal to its own; elsewhere a committed flow left its token and any other one what was there before |
| `PairingFlow.CommitsIff` | apps/viewer-expo/src/connect-flow.ts:205-213 | a flow commits exactly when its pairing stores the token, nobody cancels, and connection and navigation succeed |
| `Varints.EncodeVarint` | apps/viewer-expo/generated/frame-codecs.ts:15-27 | the digit loop over numbers equals the wire form; negatives are refused |
| `Varints.EncodeVarint64` | apps/viewer-expo/generated/frame-codecs.ts:60-73 | the number and the bigint loop give the same wire form, and exactly the u64 values are accepted |
| `Varints.DecodeVarint` | apps/viewer-expo/generated/frame-codecs.ts:29-43 | the number decoder loop equals its recursive definition |
| `Varints.DecodeVarint64` | apps/viewer-expo/generated/frame-codecs.ts:75-99 | the decoder loop with its switch at seven bytes equals its recursive definition |
| `Varints.VarintRoundTrip` | apps/viewer-expo/generated/frame-codecs.ts:15-43 | every safe integer decodes from any offset with its exact length |
| `Varints.Varint64RoundTrip` | apps/viewer-expo/generated/frame-codecs.ts:60-99 | every u64 decodes from any offset to its canonical number or bigint with its exact length |
| `Varints.ZigzagRoundTrip` | apps/viewer-expo/generated/frame-codecs.ts:101-110 | exactly the i64 values are encoded, and each decodes from any offset |
| `Varints.ZigzagIsABijection` | apps/viewer-expo/generated/frame-codecs.ts:101-107 | the shifts and the exclusive or map the i64 one to one onto the u64 |
| `Varints.ZigzagIsShifted` | apps/viewer-expo/generated/frame-codecs.ts:101-107 | for every i64 and u64 the shifts and the exclusive or of bigints are the arithmetic the codec theorems use |
| `Utf8.Encode` | apps/viewer-expo/generated/frame-codecs.ts:121-134 | the encoder loop equals its recursive definition |
| `Utf8.Decode` | apps/viewer-expo/generated/frame-codecs.ts:136-150 | the decoder loop equals its recursive definition, including truncated groups; an end past the buffer fails |
| `Utf8.Utf8RoundTripIff` | apps/viewer-expo/generated/frame-codecs.ts:121-150 | an encoded string decodes to itself, wherever a buffer holds it, if and only if every high surrogate is followed by a low one |
| `Utf8.EncodedIsWellFormed` | apps/viewer-expo/generated/frame-codecs.ts:121-134 | well-formed UTF-16 becomes UTF-8 that is well-formed by section 4 of RFC 3629 |
| `FrameCodecs.StringRoundTripIff` | apps/viewer-expo/generated/frame-codecs.ts:152-156 | a length-prefixed string decodes to itself with its exact length if and only if its high surrogates are paired |
| `FrameCodecs.EncodeInto` | apps/viewer-expo/generated/frame-codecs.ts:181-195 | the in-place encoder yields exactly the bytes of the copying one for any buffer, through growth, and refuses the same operands |
| `FrameCodecs.EncodeFrame` | apps/viewer-expo/generated/frame-codecs.ts:170-179 | the copying encoder yields the command id and both operands, or refuses one outside i64 |
| `FrameCodecs.FrameRoundTrip` | apps/viewer-expo/generated/frame-codecs.ts:170-195 | both operands are read back from the frame and nothing is left over |
| `StreamResolution.EvenCodecDimension` | apps/viewer-expo/src/stream-resolution.ts:23-26 | the largest even number not above the value, at least two |
| `StreamResolution.FitStaysInTheBox` | apps/viewer-expo/src/stream-resolution.ts:35-65 | even sides of at least two, none above its budget (or two), none above the source unless upscaling is allowed |
| `StreamResolution.BoxFitReachesABound` | apps/viewer-expo/src/stream-resolution.ts:43-53 | the box fit is the largest: a side reaches its cap, or the source keeps its size |
| `StreamResolution.FitStaysUnderThePixelsIff` | apps/viewer-expo/src/stream-resolution.ts:52-61 | the fit meets its pixel budget exactly under a condition on source and budget alone, for every source of at least two by two |
| `StreamResolution.ClampedSideBreaksThePixels` | apps/viewer-expo/src/stream-resolution.ts:24-61 | a concrete source for which raising a side to two breaks the pixel budget |
| `StreamResolution.FitCommutesWithTurning` | apps/viewer-expo/src/stream-resolution.ts:39-64 | fitting commutes with swapping width and height |
| `StreamResolution.LowerAnchorNeverEnlarges` | apps/viewer-expo/src/stream-resolution.ts:43-58 | a lower short-side anchor never enlarges the fit, through the pixel step |
| `StreamingPolicy.CapsNeverEnlargeTheStart` | apps/viewer-expo/src/streaming-policy.ts:115-133 | adding an external-route or a thermal cap never enlarges the start target |
| `StreamingPolicy.CapsAreApplied` | apps/viewer-expo/src/streaming-policy.ts:105-134 | the short side of a start is within the panel's or the priority's, within 1080 on an external route, and within a thermal cap |
| `StreamingPolicy.AnchorIsTheSmallest` | apps/viewer-expo/src/streaming-policy.ts:105-125 | the anchor is the smallest of what applies |
| `StreamingPolicy.StartStaysWithinTheMaximum` | apps/viewer-expo/src/streaming-policy.ts:126-133 | a start never upscales the source nor exceeds the explicit maximum |
| `StreamingPolicy.DocumentedTargets` | apps/viewer-expo/src/streaming-policy.ts:56-63 | every 16:9 source that is large enough starts at 2560 by 1440 or 3840 by 2160, and every 32:9 one at 5120 by 1440 |
| `StreamingPolicy.CapFacts` | apps/viewer-expo/src/streaming-policy.ts:160-173 | the panel cap never enlarges a side, brings the short side to the cap, and is idempotent |
| `AdaptiveResolution.FallbackFacts` | apps/viewer-expo/src/adaptive-resolution.ts:94-115 | a fallback fits its oriented box, enlarges no side, is smaller, even, keeps the rate, and needs no fallback itself |
| `AdaptiveResolution.FallbackIsReadable` | apps/viewer-expo/src/adaptive-resolution.ts:99-108 | a fallback keeps a short side of at least 720, or the source's |
| `AdaptiveResolution.SeedFacts` | apps/viewer-expo/src/adaptive-resolution.ts:123-148 | a stream starts native at its source's size, otherwise as a fallback in its cooldown when the time is known |
| `AdaptiveResolution.DocumentedFallbacks` | apps/viewer-expo/src/adaptive-resolution.ts:94-115 | the fallback of 4K is 2560 by 1440 in either orientation, and of 5120 by 1440 it is 2560 by 720 |
| `AdaptiveResolution.ShiftsEndTheirStreak` | apps/viewer-expo/src/adaptive-resolution.ts:191-261 | every downshift ends at least two consecutive congested windows and every upshift at least four healthy ones, none during a recovery or a rebind |
| `AdaptiveResolution.DownshiftsIff` | apps/viewer-expo/src/adaptive-resolution.ts:206-232 | in every run the downshift is asked for exactly on the second of consecutive clean congested windows past the cooldown, at the size of a source that has a fallback |
| `AdaptiveResolution.UpshiftsIff` | apps/viewer-expo/src/adaptive-resolution.ts:234-261 | in every run the upshift is asked for exactly from the fourth of consecutive clean healthy windows on, past the cooldown, at another size than the source |
| `AdaptiveResolution.ShiftsKeepTheCooldown` | apps/viewer-expo/src/adaptive-resolution.ts:275-309 | no shift is asked for less than five seconds after the previous answer was recorded, success or failure |
| `AdaptiveResolution.ShiftTargets` | apps/viewer-expo/src/adaptive-resolution.ts:225-257 | a downshift asks for the source's fallback, an upshift for no more than the source and the thermal cap |
| `AdaptiveResolution.UpshiftGoesAllTheWay` | apps/viewer-expo/src/adaptive-resolution.ts:248-258 | an upshift asks for the source itself, or under a lower thermal cap for that cap on the short side |
| `AdaptiveResolution.AnswerIsRecorded` | apps/viewer-expo/src/adaptive-resolution.ts:275-309 | a failed answer keeps the active target, a success takes the reported or the requested one; counts start over and the cooldown runs from the answer |
| `AdaptiveResolution.ActiveFollowsTheAnswers` | apps/viewer-expo/src/adaptive-resolution.ts:275-309 | in every run the active target is that of the last successful shift, or the first one |
| `AdaptiveResolution.CongestionInNumbers` | apps/viewer-expo/src/adaptive-resolution.ts:151-174 | which measurements count as congestion |
| `AdaptiveResolution.HealthInNumbers` | apps/viewer-expo/src/adaptive-resolution.ts:176-189 | which measurements count as healthy |
| `CounterSeries.NearestOneSecondFps` | tools/perf-matrix/analyze-performance.ts:301-317 | on time-ordered samples the early-exit scan gives the rates of the exhaustive choice |
| `CounterSeries.FarthestIsFarthest` | tools/perf-matrix/analyze-performance.ts:305-311 | the exhaustive choice is the farthest prior sample that is 800 to 1200 ms back, and there is one whenever a sample qualifies |
| `CounterSeries.RatesAreFrameRates` | tools/perf-matrix/analyze-performance.ts:301-317 | every rate is the frames per second between a sample and one 800 to 1200 ms before it |
| `CounterSeries.EndpointAddsARate` | tools/perf-matrix/analyze-performance.ts:301-317 | exactly the samples that have one 800 to 1200 ms before them add a rate |
| `CounterSeries.ZeroCounterIntervals` | tools/perf-matrix/analyze-performance.ts:346-359 | the interval loop gives the spans of the runs, in order |
| `CounterSeries.RunsAreMaximal` | tools/perf-matrix/analyze-performance.ts:346-359 | with strictly increasing times the runs are exactly the maximal stretches of one counter value |
| `Measurement.Partition` | tools/perf-matrix/measurement.ts:71-81 | the grouping loop gives, for each key with a row inside the boundary, the segments of exactly those rows |
| `Measurement.EveryRowIsInOneGroup` | tools/perf-matrix/measurement.ts:74-81 | every row inside the boundary is in the segments of its own key as often as it was given, and in no other |
| `Measurement.SegmentsJoinToTheRows` | tools/perf-matrix/measurement.ts:78-80 | the segments of a key joined are its rows, in order |
| `Measurement.SegmentsProgress` | tools/perf-matrix/measurement.ts:79-79 | within a segment time strictly advances and the counter never goes back, and a new segment begins only where a row could not continue |
| `Measurement.ProgressIsTransitive` | tools/perf-matrix/measurement.ts:79-79 | of two rows of one segment the later one is strictly later and has no smaller count |

## Left out

- ReservedStreamHistory.ReleasedLeavesNothing: speaks of the last preparation; a mode whose cancellation was refused earlier stays prepared, as the launch theorems say. A window is assumed to appear only while the run that asked for it is pending.
- ReservedStream.Reservation.HostStopped: the second stop request over the original route is folded into the first, as its answer is ignored.
- `maxInstancePixelRate` after a run: a run under a split reservation may report a single decoder with the whole rate.
- SecureChannel.AcceptedIsASubsequenceOfSent: covers fewer than 2^64 frames of one direction, after which nonces repeat.
- Varints.DecodeVarint: adds exactly, where the number decoder rounds above the safe integers; Varints.VarintRoundTrip covers the safe integers.
- RecoveryHistory.RunKeepsRecovering: the restored window keeps its port and reservation, as the restart result carries neither.
- `ClearCredential` is modelled on values: two deletions in flight at once have no single order to write as statements.
- `summarizeRecovery`, `viewerRows`, percentiles and the completeness and error fields of the summaries: parsing and field-by-field bookkeeping.
- `native-settings.ts`, `km-session.ts`, `recent-hosts.ts` and `clipboard-sync.ts`: lifecycles of the kinds modelled here, which would repeat the same arguments.
- `PairingWorkflow`: it only replaces the current attempt and cancels its predecessor, whose cancellation is modelled.
- Pinned keys and the recent-hosts key inside credential transactions: other code writes them outside the mutation queue, so no claim is made about them; remembering a pin is a step that may fail.
- Collisions of sanitised token key names: two endpoints are two keys.
- Credentials, identities and the USB lookup inside a connect: they decide only whether an attempt fails, which is an event.
- Token lookup and caching before a control request, blank response lines, the connect timeout, and the callbacks after a write: they do not touch the pending queue.
- Parsing of the server hello, of sealed lines and of responses: parameters of the line reader.
- UTF-8 decoding of socket chunks that split a character: the reader is given text.
- White space inside base64url input, which the platform decoder skips.
- The handshake and the key derivation.
- LaunchStream.EveryFailedStartIsCleanIff: the refusal of a start for missing UDP support, which is clean too, is not among the modelled refusals.
- The rest of the UDP stability negotiation and the USB wait in a start, and display strings, audio and presentation flags: parameters or display only.
- Recovery error texts and the stop request for an unowned replacement: effects without influence on the episodes.
- Zero, negative, infinite or NaN sizes in the resolution arithmetic, except where a source of at least two by two is enough to exclude them.
- The error frame of the addNumbers decoder: it is built from the string decoder.
- `allocPorts`, `connectHostWithFallback` and `openKmControl`: a counter, a loop over attempts, and a second client of the same fencing.
- The order of the groups of a partition: a map has none; the order inside every group is kept.
