# Photo organizer: verified models of the iCloud backfill and its neighbours

A Dafny model of the stateful core of the photo organizer's backend, with proofs. `dafny verify dfyconfig.toml` checks
all of it.

**The historical backfill engine.** Scans, previews and acquisitions share one durable inventory table.
`Inventory.dfy` declares the rows, `Session.dfy` the database session through which the services see them: queries read
flushed rows, objects are written in place, rows added by a scan wait unseen until the flush. For each service there is
a function on tables (`Scan.dfy`, `Selection.dfy`, `Acquisition.dfy`, `Preview.dfy`), the service itself as loops over
mapped objects proved equal to that function (`ScanService.dfy`, `SelectionService.dfy`, `AcquisitionService.dfy`), and
theorems about the function (`ScanTheorems.dfy`, `AcquisitionTheorems.dfy`, `PairingTheorems.dfy`, `PreviewIds.dfy`). What
the functions mean is stated apart from their bodies: `ScanColumns.dfy` (the columns of a scan), `RunOutcomes.dfy` (rows
and report of a run), `CountsMeaning.dfy` (verdicts and counters as sets of rows) and `PreviewMeaning.dfy`. `Backlog.dfy`,
`Drain.dfy`, `Starvation.dfy`, `History.dfy` and `Counters.dfy` are about repeated and mixed runs. Services whose code is
elsewhere (durable download, source intake, guardrail, listing helper) are answers chosen freely by the caller; only
where a result needs it is an answer restricted, and the restriction is stated in that result.

**The sign-in protocol.** `SignIn.dfy` gives every call as a thread of atomic steps. A step that takes the lock waits
until no thread holds it, and unlocked steps go on meanwhile; locked sections are cut wherever an unlocked write of a
session field can fall into them, so a removal is three steps: out of the tables, close the provider, clear it.
`SignInSafety.dfy` holds for all interleavings; `SignInLimits.dfy` (lost source entries), `SignInProcesses.dfy`,
`SignInLosses.dfy` and `SignInLeaks.dfy` (provider processes) say what interleavings can break, exactly when, and
exhibit the runs that `SignInRuns.dfy` helps to build. `SignInAnswers.dfy` follows the provider's answers to replies and
states. `SignInSerial.dfy` holds for calls that run one after the other, `SignInCalls.dfy` gives the outcome of each, and
`SignInService.dfy` is the service's objects and tables, proved to run those steps. `HelperProtocol.dfy` joins parent and
provider process by two pipes, `HelperAnswers.dfy` says which answer a line deserves, `HelperProgram.dfy` is the helper's
loop, and `HelperFailures.dfy` goes from lines to replies. `ExceptionSearch.dfy` is the helper's search for Apple's
service codes.

**Smaller cores.** `LabelPath.dfy` and `LabelWords.dfy` (staging labels), `PairCount.dfy` and `PairDistance.dfy`
(duplicate-suggestion statistics), `FixtureWriter.dfy` and `FixtureService.dfy` (the crash-safe fixture generator).

## What the proofs found

- Two sums over the inventory counters that look alike differ: the retryable counter has no eligibility filter, so
  acquirable plus retryable equals the unresolved eligible rows only under the condition of
  `Counters.RetryableCounterAgreesIff`.
- Finishing or cancelling a session that was already removed also drops the source entry of a newer session
  (`SignInLimits.ConverseIsLost`). The newer session still answers to its own identifier, but its account cannot start a
  sign-in until it is finished, cancelled or expired (`SignInLimits.LostSessionBlocksStart`,
  `SignInLimits.CancellingFreesAccount`).
- A provider process can be lost: when the answer to a password is stored after a removal of its session has closed the
  provider it found and before it clears the field, nothing refers to the process any more, and it is never closed. That
  is the only way to lose one (`SignInLosses.ProcessLostIff`, `SignInLeaks.LossHappens`).
- When the answer is stored after the removal has ended, the process stays in a session that no call can name, and is
  never closed either (`SignInLeaks.LeakedIff`, `SignInLeaks.LeakIsForever`, `SignInLeaks.LeakHappens`).
- The helper asks for another code after the third wrong one and exits; the next code fails and the session goes back
  to the password (`HelperProtocol.ThirdRefusalIsLast`, `HelperFailures.ExitedHelperReopensPassword`).
- A dry run with explicit inventory identifiers ignores them (`PreviewIds.DryRunCanMislead`); it predicts the run exactly
  under the conditions of `PreviewIds.PredictsEveryRunIff` and `PreviewIds.DryRunOfIdsPredictsIff`.
- The exclusion counters of the duplicate statistics depend on the order of the assets unless every excluded pair is
  parsable on both sides or on neither (`PairCount.ExclusionsOrderFreeIff`).
- A fixture run that crashed in the middle of a file is refused from then on, until its temporary file is removed
  (`FixtureWriter.RecoverableIff`).

## Model

| member | source | states |
|---|---|---|
| `History.CompletionIsPermanent` | backend/app/services/icloud_backfill_acquisition_execution_service.py:317-352 | over every history of scans, previews and acquisitions, crashes between commits included, a row once completed stays completed in every later state with the same time, resolution and run references, in the completed-intake state and without an error |
| `History.HistoryIsSound` | backend/app/services/icloud_backfill_inventory_service.py:341-488 | every reachable state keeps identities unique, identities stripped and non-blank, eligibility in step with its flags and completion evidenced; each state only adds rows to the one before |
| `AcquisitionTheorems.CommitsTouchOnlyOpenSelectedRows` | backend/app/services/icloud_backfill_acquisition_execution_service.py:388-746 | every state a run commits differs from its start only in the run columns of selected rows; those were open and stay open until the last commit |
| `Backlog.BacklogShrinks` | backend/app/services/icloud_backfill_acquisition_preview_service.py:138-203 | whatever a run does, the rows still selectable are the earlier ones without the newly completed, in unchanged order |
| `Drain.GoodRunTakesFront` | backend/app/services/icloud_backfill_acquisition_execution_service.py:388-746 | a run in which every service succeeds completes exactly the front of the backlog |
| `Drain.BacklogDrains` | backend/app/services/icloud_backfill_acquisition_execution_service.py:388-746 | after k such runs with limit L the backlog is the earlier one without its first k * L rows |
| `Drain.DrainsInExactly` | backend/app/services/icloud_backfill_acquisition_execution_service.py:388-746 | n selectable rows are drained after n / L runs, rounded up, and not before |
| `History.ReachableTablesDrain` | backend/app/services/icloud_backfill_acquisition_execution_service.py:388-746 | the same from every state of every history |
| `History.HistoryDrains` | backend/app/services/icloud_backfill_acquisition_execution_service.py:388-746 | a history that goes on with such runs has an empty backlog at its end exactly when they are as many as its rows need |
| `Drain.ItemsDistinct` | backend/app/services/icloud_acquisition/exact_selection_protocol.py:173-183 | in a run without explicit identifiers, on scanned rows, the download request never names an item twice nor exceeds the limit |
| `Starvation.BlockedFrontStarves` | backend/app/services/icloud_backfill_acquisition_execution_service.py:206-269 | when no row at the front has a complete manifest, any number of runs selects the same rows again and leaves every backlog as it was |
| `Starvation.RunProgressesIff` | backend/app/services/icloud_backfill_acquisition_execution_service.py:317-352 | a run shortens the backlog of its source exactly when one of its batch items succeeded |
| `PairingTheorems.PreflightSeparatesRows` | backend/app/services/icloud_acquisition/exact_selection_protocol.py:173-183 | a request that passes validation has distinct rows, even for repeated explicit identifiers |
| `PairingTheorems.AttemptsRiseByOne` | backend/app/services/icloud_backfill_acquisition_execution_service.py:272-284 | a row's attempt count rises, by exactly one, precisely when the run passed guardrail and validation and the row was safe |
| `PairingTheorems.CompletedIff` | backend/app/services/icloud_backfill_acquisition_execution_service.py:317-352 | a row is completed after a run iff it was before or every resource of the batch item at its position succeeded |
| `PairingTheorems.SortedBatchIsAligned` | backend/app/services/icloud_acquisition/durable_exact_service.py:432-439 | batch items numbered in selection order are, after sorting, at the positions of the items they were made for |
| `PairingTheorems.OwnItemDecides` | backend/app/services/icloud_backfill_acquisition_execution_service.py:332-352 | positional pairing is sound: a safe row is completed iff its own item has resources and all ended in success |
| `PairingTheorems.ReportedCompletionsAreReal` | backend/app/services/icloud_backfill_acquisition_execution_service.py:688-746 | the reported completion count is the increase of completed rows in the inventory |
| `RunOutcomes.SafeRowOutcome` | backend/app/services/icloud_backfill_acquisition_execution_service.py:388-746 | every column of a safe row after a run, from the answers of guardrail, validation, durable download and intake |
| `RunOutcomes.OwnItemSettles` | backend/app/services/icloud_backfill_acquisition_execution_service.py:309-352 | a safe row whose intake reported is settled by the batch item made for it: completed iff all its resources were processed, linked as duplicates or skipped as known; then already known iff all were skipped, exact duplicate iff one was linked, newly imported iff one was processed and none linked |
| `RunOutcomes.UntakenRows` | backend/app/services/icloud_backfill_acquisition_execution_service.py:206-269 | a selected row not listed any more ends stale, one without a whole manifest ends retryable with that error, and no other column changes |
| `RunOutcomes.PhasesAreDurable` | backend/app/services/icloud_backfill_acquisition_execution_service.py:272-306 | a crash finds the matching pass, then the start of the attempt, then the outcome of the download with run and batch, in this order |
| `RunOutcomes.ReportExplains` | backend/app/services/icloud_backfill_acquisition_execution_service.py:426-746 | stop reason, status, retryable count and intake flags of a report name the first answer that stopped the run |
| `RunOutcomes.TurnedAwayIff` | backend/app/services/icloud_backfill_acquisition_execution_service.py:401-424 | a run raises without a commit exactly for a limit out of range, an invalid source, or a failed listing of something selected |
| `RunOutcomes.RefusalMeans` | backend/app/services/icloud_backfill_acquisition_execution_service.py:500-507 | validation passes the first objection on, and without others objects exactly to more than 10000 items or to an item named twice |
| `AcquisitionTheorems.MatchingAligned` | backend/app/services/icloud_backfill_acquisition_execution_service.py:242-259 | safe rows and safe items stay side by side: each item is the last listing entry with its row's identity |
| `AcquisitionTheorems.MatchingConserves` | backend/app/services/icloud_backfill_acquisition_execution_service.py:242-259 | selected = matched + stale and matched = safe + unsafe |
| `AcquisitionTheorems.ReportConserves` | backend/app/services/icloud_backfill_acquisition_execution_service.py:426-746 | in every returned result selected = matched + stale and matched = safe + unsafe, and after an intake completed plus retryable is the number of safe rows, so the clamp at zero never acts |
| `Selection.TallyIsPartition` | backend/app/services/icloud_backfill_acquisition_preview_service.py:173-203 | selectable plus the six skip counters is the number of rows considered |
| `Selection.TallyCounts` | backend/app/services/icloud_backfill_acquisition_preview_service.py:173-203 | each counter holds the number of rows with its verdict |
| `CountsMeaning.TallyMeans` | backend/app/services/icloud_backfill_acquisition_preview_service.py:173-203 | each skip counter counts the rows of the source for which its reason holds and none of the earlier reasons, the selectable counter those without a reason |
| `CountsMeaning.ReachableTally` | backend/app/services/icloud_backfill_acquisition_preview_service.py:161-203 | on reachable tables the counters follow the two flags a scan stores, and three of them stay at zero |
| `CountsMeaning.RequestTallyMeans` | backend/app/services/icloud_backfill_acquisition_preview_service.py:206-228 | with explicit identifiers each counter counts positions of the request |
| `Selection.OrderDeterminesQuery` | backend/app/services/icloud_backfill_acquisition_preview_service.py:138-154 | the null-last order with its tie breakers leaves one possible query result |
| `Selection.QueryOrder` | backend/app/services/icloud_backfill_acquisition_preview_service.py:138-154 | of two rows of the query result the earlier has the smaller created value, nulls last; on a tie the smaller added value, then the earlier first observation, then the smaller identifier |
| `Selection.SelectionIsPrefix` | backend/app/services/icloud_backfill_acquisition_preview_service.py:161-203 | a larger limit extends the selection of a smaller one, whose size is the smaller of limit and selectable count |
| `Selection.SelectionIsBestPrefix` | backend/app/services/icloud_backfill_acquisition_preview_service.py:138-203 | selected rows are the least selectable rows of the source, none left out when fewer than the limit |
| `Selection.RequestedSelectionIsComplete` | backend/app/services/icloud_backfill_acquisition_preview_service.py:206-228 | explicit identifiers are never truncated: the selection is the selectable rows found, one for each position of the request that names one, in the order of these positions, and the counts add up to the identifiers |
| `SelectionService.SelectionAccumulator.Consider` | backend/app/services/icloud_backfill_acquisition_preview_service.py:173-203 | one row moves exactly one counter and is taken when selectable and below the limit |
| `SelectionService.SelectInventoryRows` | backend/app/services/icloud_backfill_acquisition_preview_service.py:161-170 | the accumulator filled from the query is the specified selection |
| `SelectionService.SelectInventoryRowsByIds` | backend/app/services/icloud_backfill_acquisition_preview_service.py:206-228 | the same for explicit identifiers, in request order |
| `Preview.PreviewPredictsExecution` | backend/app/services/icloud_backfill_acquisition_preview_service.py:262-392 | on one table and listing, without explicit identifiers, preview and run report the same selected, matched, stale, unsafe, logical, resource and skip counts, the empty-listing return included |
| `PreviewIds.PredictsEveryRunIff` | backend/app/services/icloud_backfill_acquisition_execution_service.py:388-424 | for any request, with or without identifiers: the preview predicts the run on every listing exactly when both selections have the same verdict counts and, up to order, the same stripped identities and live-photo flags |
| `PreviewIds.DryRunOfIdsPredictsIff` | backend/app/services/icloud_backfill_acquisition_execution_service.py:388-424 | on reachable tables, for different identifiers: the dry run predicts a run that finishes exactly when the identifiers are those of all rows of the source and the limit reaches the number of selectable ones |
| `PreviewIds.DryRunCanMislead` | backend/app/services/icloud_backfill_acquisition_execution_service.py:406-415 | asked for the second of two rows, the dry run reports both as selected and the run takes one |
| `Preview.PreviewSurvivesPreparation` | backend/app/services/icloud_backfill_acquisition_execution_service.py:206-269 | a preview after the matching pass reports what it reported before |
| `PreviewMeaning.StopMeans` | backend/app/services/icloud_backfill_acquisition_preview_service.py:262-392 | the stop reason of a preview from the selected rows and the listing: nothing selected, nothing listed, all stale or unsafe, more selectable than the limit, or ready |
| `PreviewMeaning.ItemsMean` | backend/app/services/icloud_backfill_acquisition_preview_service.py:262-392 | one item for each safe row, in selection order, with the resources of its last listing entry |
| `AcquisitionService.PreviewAcquisition` | backend/app/services/icloud_backfill_acquisition_preview_service.py:262-392 | the preview loop computes the specified result and writes nothing |
| `AcquisitionService.ListingByRemoteIdentity` | backend/app/services/icloud_backfill_acquisition_preview_service.py:231-239 | the dictionary maps each non-blank identity to the last item that has it |
| `AcquisitionService.IsManifestUnsafe` | backend/app/services/icloud_backfill_acquisition_preview_service.py:242-259 | unsafe iff ambiguous, unsupported, without resources, with an incomplete resource, or a live photo with fewer than two |
| `AcquisitionService.PrepareSelection` | backend/app/services/icloud_backfill_acquisition_execution_service.py:206-269 | the matching pass marks stale and unsafe rows in place, commits once, and returns safe rows and items side by side with the counters |
| `AcquisitionService.MarkAttemptStarted` | backend/app/services/icloud_backfill_acquisition_execution_service.py:272-284 | each row of the run is marked once per listing in it, and the state is committed |
| `AcquisitionService.MarkAcquisitionResult` | backend/app/services/icloud_backfill_acquisition_execution_service.py:287-306 | each row takes the outcome of the durable download, and the state is committed |
| `AcquisitionService.ApplySourceIntakeResult` | backend/app/services/icloud_backfill_acquisition_execution_service.py:317-352 | rows and sorted batch items are resolved pair by pair as `RunOutcomes.OwnItemSettles` spells out; an unknown batch writes nothing |
| `AcquisitionService.NamesItemTwice` | backend/app/services/icloud_acquisition/exact_selection_protocol.py:173-183 | the seen-set pass finds exactly the duplicate item identities |
| `AcquisitionService.RunAcquisition` | backend/app/services/icloud_backfill_acquisition_execution_service.py:388-746 | the run on mapped objects commits the states and returns the outcome of the function on which the results are proved |
| `AcquisitionService.RunIcloudBackfillAcquisition` | backend/app/services/icloud_backfill_acquisition_execution_service.py:388-424 | a dry run reports the preview's counters field by field, nothing attempted, and changes nothing |
| `Session.InventorySession.Flush` | backend/app/db/session.py:18 | pending rows become visible to queries, unless two rows would share an identity |
| `Session.InventorySession.Commit` | backend/app/db/session.py:18 | the objects become the durable state |
| `Session.UpdateAllOnce` | backend/app/services/icloud_backfill_acquisition_execution_service.py:278-284 | a row written once in a loop carries the write of its own position |
| `Text.StripTakesMargins` | backend/app/services/icloud_backfill_inventory_service.py:287-300 | stripping takes whitespace off both ends and nothing else |
| `ScanTheorems.ScanKeepsIdentitiesUnique` | backend/app/services/icloud_backfill_inventory_service.py:360-382 | although lookups miss unflushed rows, the uniqueness constraint holds at the flush for any listing; created plus updated is the number of distinct stripped identities and the total grows by created; a scan fails exactly on a missing identity |
| `ScanTheorems.ScanWrites` | backend/app/services/icloud_backfill_inventory_service.py:287-338 | a stored row takes the observation of the first item with its identity and keeps all run columns; other rows are unchanged; new rows start unresolved |
| `ScanColumns.ScannedRowShows` | backend/app/services/icloud_backfill_inventory_service.py:287-338 | every column that a scan stores, against the first item with the row's identity: position from one, times, grouping, both dates, resource count, flags, eligibility, live photo, and path, type and size of the primary resource |
| `ScanColumns.ScanOrdersSelection` | backend/app/services/icloud_backfill_acquisition_preview_service.py:138-154 | after a scan, of two listed rows the one whose item was created earlier, or added earlier on a tie, comes first in the query |
| `ScanTheorems.RescanChangesOnlyTimes` | backend/app/services/icloud_backfill_inventory_service.py:341-382 | scanning the same listing again creates nothing and changes only observation times |
| `ScanTheorems.UpsertTwiceBreaksUniqueness` | backend/app/services/icloud_backfill_inventory_service.py:360-379 | without the set of identities seen, two unflushed upserts of one unknown identity would break the constraint |
| `ScanService.IsLivePhoto` | backend/app/services/icloud_backfill_inventory_service.py:155-159 | live photo iff the folded grouping contains the marker or a resource is named so |
| `ScanService.FindPrimaryResource` | backend/app/services/icloud_backfill_inventory_service.py:148-152 | the first resource named primary, or else the first |
| `ScanService.UpsertInventoryRow` | backend/app/services/icloud_backfill_inventory_service.py:287-338 | the upsert on mapped objects is the specified one, whose columns `ScanColumns.ScannedRowShows` spells out |
| `ScanService.RunInventoryScan` | backend/app/services/icloud_backfill_inventory_service.py:341-488 | a scan commits the specified table at its end, or nothing when it raises |
| `Counters.CountersAgreeWithSelector` | backend/app/services/icloud_backfill_inventory_service.py:208-284 | on reachable tables the selector's selectable count is the unresolved-eligible counter, which is the acquirable counter plus the eligible rows counted retryable |
| `Counters.CountersAgreeInEveryState` | backend/app/services/icloud_backfill_inventory_service.py:208-284 | the same after every commit of every history |
| `Counters.RetryableCounterAgreesIff` | backend/app/services/icloud_backfill_inventory_service.py:247-258 | the counters as returned add up exactly when no open row of another eligibility is marked retryable |
| `Counters.RetryableCounterCanDisagree` | backend/app/services/icloud_backfill_inventory_service.py:247-258 | a history of a scan, an acquisition that finds an unsafe manifest and a scan that finds the photo unsupported, after which they do not add up |
| `CountsMeaning.CountersMean` | backend/app/services/icloud_backfill_inventory_service.py:208-284 | each of the seven counters, on any table, is the number of rows of the source that meet a condition on plain columns, nulls included |
| `SignInSafety.TablesAgreeAlways` | backend/app/services/icloud_authentication_service.py:238-273 | under every interleaving a source entry names a session in the table for that source, so the lookup in start cannot fail, and no two listed sessions share an account |
| `SignInSafety.MutualExclusion` | backend/app/services/icloud_authentication_service.py:319-405 | under every interleaving at most one thread holds the lock, and at most one is between setting `authenticating` and releasing a session |
| `SignInSafety.WaitingSessionHasProvider` | backend/app/services/icloud_authentication_service.py:363-405 | under every interleaving a listed session in `mfa_required` has a provider |
| `SignInSafety.MissingProviderMeansDetached` | backend/app/services/icloud_authentication_service.py:386-388 | the unlocked read finds no provider only after the session has left the table |
| `SignInLimits.ConverseLostIff` | backend/app/services/icloud_authentication_service.py:408-428 | a listed session loses its source entry by a step exactly when that step removes a displaced session whose source has a newer one |
| `SignInLimits.ConverseIsLost` | backend/app/services/icloud_authentication_service.py:419-428 | an interleaving of two cancellations and a new start in which that happens |
| `SignInLimits.LostSessionBlocksStart` | backend/app/services/icloud_authentication_service.py:247-273 | the session so lost still answers to its identifier, but in every continuation in which it has not been finished, cancelled or swept, each start for its source and account is refused |
| `SignInLimits.CancellingFreesAccount` | backend/app/services/icloud_authentication_service.py:247-273 | after that interleaving the account is refused, and once the newer session is cancelled it can start again |
| `SignInLosses.ProcessLostIff` | backend/app/services/icloud_authentication_service.py:350-428 | under every interleaving an open provider process is neither held by a thread nor stored in a session exactly when it was stored between the close and the clear of a removal of its session |
| `SignInLosses.LostForever` | backend/app/services/icloud_authentication_service.py:238-244 | in every continuation a lost process stays open, with nobody to close it |
| `SignInLeaks.LossHappens` | backend/app/services/icloud_authentication_service.py:350-353 | an interleaving of a password and a cancellation in which both calls return and the process is lost |
| `SignInLeaks.LeakedIff` | backend/app/services/icloud_authentication_service.py:350-428 | under every interleaving, in a session outside the table that nobody works on, an open process is stored exactly when it was stored after the session had left the table, other than between the close and the clear of a removal |
| `SignInLeaks.LeakIsForever` | backend/app/services/icloud_authentication_service.py:282-300 | in every continuation a leaked process stays open, stored in the same session, which no call can name |
| `SignInLeaks.LeakHappens` | backend/app/services/icloud_authentication_service.py:350-353 | an interleaving of a password and a cancellation in which both calls return and the process is leaked |
| `SignInLeaks.ProcessesAtRest` | backend/app/services/icloud_authentication_service.py:220-428 | when every call has returned, an open process is the provider of a listed session, or was stored late, or was stored between a close and a clear |
| `SignInAnswers.AnswerDecidesReply` | backend/app/services/icloud_authentication_service.py:345-405 | whatever other threads do, a call replies `authenticated` exactly when the provider's answer is that, `mfa_required` when it asks for a code, and `authentication_failed` otherwise |
| `SignInAnswers.AuthenticatedWasAnswered` | backend/app/services/icloud_authentication_service.py:354-428 | under every interleaving a session is `authenticated` only if a thread wrote that whose last answer, for this session, was `authenticated` |
| `SignInSerial.SerialConservation` | backend/app/services/icloud_authentication_service.py:220-428 | in every serial run the tables mirror each other and the running provider processes are exactly the providers of listed sessions in `mfa_required`, one each |
| `SignInSerial.SerialRunsAreRuns` | backend/app/services/icloud_authentication_service.py:220-428 | running calls one after the other is one of the interleavings |
| `SignInCalls.StartOutcome` | backend/app/services/icloud_authentication_service.py:247-273 | a start alone continues the usable session of its source, is refused for an account that has one, and otherwise creates a session for exactly this source, account and time |
| `SignInCalls.PasswordOutcome` | backend/app/services/icloud_authentication_service.py:303-360 | a password alone: each refusal and its condition; otherwise the answer decides the reply, and what is left of the session and the tables |
| `SignInCalls.CodeOutcome` | backend/app/services/icloud_authentication_service.py:363-405 | the same for a code |
| `SignInCalls.CancelOutcome` | backend/app/services/icloud_authentication_service.py:419-428 | the same for a cancellation, which closes the provider |
| `SignInCalls.ProbeOutcome` | backend/app/services/icloud_authentication_service.py:220-235 | a probe alone replies with its answer, or with a failure when no process starts |
| `SignInService.SignInTables.ExpireLocked` | backend/app/services/icloud_authentication_service.py:238-244 | expired sessions leave both tables and their providers are closed |
| `SignInService.SignInTables.Start` | backend/app/services/icloud_authentication_service.py:247-273 | the call on objects and tables is the run of its atomic steps with no other thread in between |
| `SignInService.SignInTables.SubmitPassword` | backend/app/services/icloud_authentication_service.py:303-360 | the same for a password, with the outcome of `SignInCalls.PasswordOutcome` |
| `SignInService.SignInTables.SubmitMfa` | backend/app/services/icloud_authentication_service.py:363-405 | the same for a code, with the outcome of `SignInCalls.CodeOutcome` |
| `SignInService.SignInTables.Cancel` | backend/app/services/icloud_authentication_service.py:419-428 | the same for a cancellation |
| `SignInService.SignInTables.Probe` | backend/app/services/icloud_authentication_service.py:220-235 | a probe leaves the running processes as they were |
| `HelperProtocol.HelperIsUnderstood` | backend/app/services/icloud_authentication_helper.py:80-103 | every state the helper can write is one the parent accepts |
| `HelperProtocol.AnswersMatchRequests` | backend/app/services/icloud_authentication_service.py:148-194 | every answer the parent reads was written for its most recent request, and only the last exchange can fail |
| `HelperProtocol.AtMostThreeCodes` | backend/app/services/icloud_authentication_helper.py:165-182 | at most three codes of one provider process are validated |
| `HelperProtocol.FourthCodeFails` | backend/app/services/icloud_authentication_helper.py:165-182 | once a password and three codes are answered the helper has exited and all but the last answer had asked for a code; a further exchange fails and ends the conversation |
| `HelperProtocol.ThirdRefusalIsLast` | backend/app/services/icloud_authentication_helper.py:165-182 | a conversation in which the third refused code is answered with a request for another one, and the helper has exited |
| `HelperProtocol.ExitedHelperFails` | backend/app/services/icloud_authentication_service.py:148-194 | however the conversation goes on, a request sent to an exited helper is the last, and fails when it ends |
| `HelperFailures.FailedCodeReopensPassword` | backend/app/services/icloud_authentication_service.py:386-395 | whatever other threads do, a code without an answer takes its call to `authentication_failed` and nowhere else, and the call's last write leaves the session without a provider and open to a password |
| `HelperFailures.ExitedHelperReopensPassword` | backend/app/services/icloud_authentication_service.py:386-395 | a code sent to an exited helper ends so, however the exchange and the other threads go on |
| `HelperFailures.LineDecidesReply` | backend/app/services/icloud_authentication_service.py:345-405 | a call replies that the session is signed in exactly when the line it sent is a request taken without a code or a right code, under every interleaving |
| `HelperProgram.RunHelper` | backend/app/services/icloud_authentication_helper.py:135-188 | from the lines and how the provider took them: the answer to each line, and that the last word is `authenticated` iff the request signed in by itself, or asked for a code and one of the next three lines is the right one, those before it refused codes |
| `HelperAnswers.AnswersAreDeserved` | backend/app/services/icloud_authentication_service.py:148-194 | in every conversation each answer the parent has read is the one its line deserves |
| `ExceptionSearch.AppleServiceErrorCode` | backend/app/services/icloud_authentication_helper.py:44-77 | the search ends on cyclic graphs and returns nothing iff nothing reachable carries a negative service code; the exception's own code comes first |
| `ExceptionSearch.FindOwnCode` | backend/app/services/icloud_authentication_helper.py:55-72 | one exception's code: its attribute, else the first negative entry of its error list |
| `ExceptionSearch.OwnCodeMeans` | backend/app/services/icloud_authentication_helper.py:55-72 | an exception's own code is its attribute when that begins with a minus sign, else the first such entry of `serviceErrors`, or of `service_errors` when the former is empty |
| `LabelPath.SanitizeIsProjection` | backend/app/services/icloud_path_service.py:13-18 | normalising is idempotent and its image is exactly the non-empty texts over a-z, 0-9, `_`, `-` without adjacent separators and without a separator at an end |
| `LabelPath.LettersAreKept` | backend/app/services/icloud_path_service.py:13-18 | the label has exactly the letters and digits of the lower-cased name, in order; a name without any gets the fallback |
| `LabelWords.LabelIsWords` | backend/app/services/icloud_path_service.py:13-18 | the label is the words of the lower-cased name, a hyphen where exactly one stood between two of them and an underscore for anything else; without words the fallback |
| `LabelPath.StagingPathIsOneBelow` | backend/app/services/icloud_path_service.py:21-35 | the staging path is one component below the exports root |
| `PairCount.SuggestionsAreOrderFree` | backend/scripts/run_duplicate_suggestion_stats.py:51-104 | for any bucket function the suggestion counts are the same for every order of the assets |
| `PairCount.CountIsPairs` | backend/scripts/run_duplicate_suggestion_stats.py:51-90 | a count is the number of pairs of positions that meet the criterion |
| `PairDistance.DistanceIsPositions` | backend/scripts/run_duplicate_suggestion_stats.py:31-32 | the distance of two hashes is the number of binary digits in which they differ |
| `PairDistance.StatsCountPairs` | backend/scripts/run_duplicate_suggestion_stats.py:51-90 | a bucket counts the pairs with both hashes parsed, not in one group, not rejected in either order, and differing in that many digits, at most 15; likewise both exclusion counters |
| `PairCount.ExclusionsOrderFreeIff` | backend/scripts/run_duplicate_suggestion_stats.py:58-78 | an exclusion counter is order-free exactly when no excluded pair has one parsable and one unparsable hash |
| `PairCount.ExclusionDependsOnOrder` | backend/scripts/run_duplicate_suggestion_stats.py:38-66 | two assets of one group, one with an unparsable hash, are counted as excluded or not, depending on which has the smaller identifier |
| `PairCount.CountSuggestions` | backend/scripts/run_duplicate_suggestion_stats.py:51-90 | the nested loops compute the counters that `PairDistance.StatsCountPairs` spells out |
| `FixtureWriter.DeterministicBytes` | scripts/fixtures/create_controlled_photo_fixture_set.py:73-81 | byte k of the stream is byte k mod 32 of hash block k div 32, and the length is the one asked for |
| `FixtureWriter.CrashSafe` | scripts/fixtures/create_controlled_photo_fixture_set.py:463-537 | in every state of every run each managed file is as before or holds its full expected bytes, and a file that holds anything else is never touched |
| `FixtureWriter.RerunChangesNothing` | scripts/fixtures/create_controlled_photo_fixture_set.py:482-537 | a successful run leaves the complete set, and a replace-known run after it succeeds and changes nothing |
| `FixtureWriter.RecoverableIff` | scripts/fixtures/create_controlled_photo_fixture_set.py:382-460 | after a crash in any state of a run that passed its checks, a replace-known run succeeds exactly when no temporary file is left and none or all of the managed files exist |
| `FixtureWriter.GenerateSucceedsIff` | scripts/fixtures/create_controlled_photo_fixture_set.py:382-460 | a run succeeds exactly when nothing unexpected is there and either no managed file exists, or all do as expected and replacing was asked for; a refused run changes nothing |
| `FixtureWriter.CompleteSetIsProtected` | scripts/fixtures/create_controlled_photo_fixture_set.py:438-460 | a complete set is refused to a run without replace-known and stays as it is |
| `FixtureWriter.FilesAreReplacedWhole` | scripts/fixtures/create_controlled_photo_fixture_set.py:463-479 | wherever a managed file changes, its temporary file held the complete new content just before |
| `FixtureService.InspectExistingTree` | scripts/fixtures/create_controlled_photo_fixture_set.py:382-435 | the inspection loops accept exactly the permitted trees and return the managed files that exist |
| `FixtureService.ValidateExistingManagedFiles` | scripts/fixtures/create_controlled_photo_fixture_set.py:438-460 | writing is allowed iff nothing managed exists, or all of it exists, matches, and replacing was asked for |
| `FixtureService.FixtureDirectory.AtomicWrite` | scripts/fixtures/create_controlled_photo_fixture_set.py:463-479 | one file passes through its temporary file's states and replaces the destination in one step |
| `FixtureService.FixtureDirectory.CreateControlledFixtureSet` | scripts/fixtures/create_controlled_photo_fixture_set.py:482-537 | the generator goes through exactly the specified states |

## Left out

- Overlapping backfill calls: histories are serial, with a crash possible after any commit; transaction isolation and locks of the database are not modelled.
- Database engine, schema creation, migrations and text collation: text columns are ordered by code point, columns have no length limit, integers are unbounded.
- Error message texts, `updated_at`, downloaded counts, resource paths and next-action hints of the results.
- `IcloudBackfillState` and the deferred-asset ledger that a scan also updates.
- AcquisitionService.RunIcloudBackfillAcquisition: a dry run is modelled without the optional item list; `Preview.PreviewOf` models that list.
- Bodies of durable download, source intake, guardrail, listing helper and source-profile validation: free answers.
- PairingTheorems.OwnItemDecides: takes the numbering of the durable service's batch in selection order as given.
- Scan.Observe: Python's `casefold` is a parameter, and identifiers of new rows are those the flush will give.
- SignIn.Next: reading a session's provider and closing it are one step, a reply shows the state that its own thread wrote, and launching a provider includes making its directory.
- SignIn.Close: `open` holds the processes that the service has launched and not closed; a helper that exits by itself appears in `HelperProtocol` only, and the interpreter closing the pipes of a process nobody refers to is not modelled.
- SignIn.StartStep: session identifiers are numbers in order of creation instead of random UUIDs.
- Message texts, retryable flags, account hints, auth directories and time limits of the sign-in; the lookup of the source profile before each call.
- HelperProtocol.FirstAnswer: the provider library is a free outcome; push notification and cookie storage are not modelled.
- HelperProtocol.Act: message sizes and malformed lines appear only as an unusable line or as giving up.
- ExceptionSearch.AppleServiceErrorCode: which of several reachable codes is returned is fixed only for the starting exception.
- LabelPath.Sanitize: lower-casing is a parameter that must leave label characters alone; symbolic-link checks and the comparison with a supplied path are not modelled.
- PairDistance.DistanceIsPositions: a negative hash beside a non-negative one, which only a signed hash text gives, is not characterised by digits.
- PairCount.StatsOf: the histogram by distance, the number of rejected pairs and the printed report.
- FixtureWriter.Generate: validation of the root path and of media sizes is one free boolean, media encoders are a free function, permissions are not modelled, and a write that fails leaves the state before it.
- The missing-face-crop generator, the command-line programs, routers, schemas and the frontend.
