# Nara: a verified model of the event ledger, its read models, checkpoints and world journeys

Nara is a gossip network whose naras share one kind of signed event. This project models, in Dafny,
the parts of it whose correctness is not visible in any single function:

- **The sync ledger and what it forgets** (`Events`, `LedgerSpec`, `LedgerInvariants`, `Forgetting`,
  `SyncLedgers`, `Convergence`, `Replicas`, `EventIds`, `Merging`, `RateLimit`, `Paging`). The class `SyncLedger` updates its
  events, ID index and version in place. Each method is proved to be a step of a relational specification;
  relational, because the pruning sort leaves ties in any order. On the specification stand the
  theorems about all runs: the exact index, the cap per pair, what is lost and what never is,
  convergence of two ledgers, completeness of paging.
- **Projections** (`Projections`, `ProjectionGaps`, `Presence`, `Opinions`, `ReportedOpinions`). The engine follows a
  mutable, reordered log with a position and a version. In every run in which no ledger step was
  harmful, a projection that has just run has handled exactly the events now held; the harmful
  steps are characterised and shown to exist.
- **History derived from checkpoints** (`History`, `Uptime`, `ReportedUptime`, `Snapshots`, `HistoryGaps`). Restart
  counts and uptime are loops over the ledger; they are proved to be a measure of online time and a count of distinct starts,
  and a checkpoint is proved to stand for what came before it, under exact conditions.
- **Checkpoint consensus** (`TrimmedMean`, `Clustering`, `ElectedValues`, `Attestations`, `CheckpointConsensus`,
  `FoundCheckpoints`, `CheckpointProtocol`, `CheckpointSafety`, `CheckpointLiveness`, `CheckpointTrust`,
  `CheckpointLedger`, `CheckpointServices`). Robust averages, greedy clustering, signed attestations, the search for
  consensus, and the two-round protocol as a state machine over its critical sections, with
  theorems about every interleaving: what is never violated, and what is finalized in the end.
- **World journeys** (`World`, `Journeys`). Forwarding, the signed hop chain, completion, rewards.

`Sorting` stands for the unstable library sort, `Decimal` for the printing and parsing of numbers,
`Wrappers` for absent values. `dafny verify dfyconfig.toml` checks everything.

## How to read it

A specification that a method shares with the theorems about it is pinned again in plain terms: on the
fields of held events and votes, on their numbers and their order.

Hashes and signatures are ideal: an event ID is the hashed text, a signature is the key and the
content it was made over. Clocks, the coin flip, known keys, who is online and what a connection
does are parameters. Strings stand for names, IDs and texts. Integers are unbounded except where 64-bit
wrap-around decides something (`TrimmedMean`, weights in `Clustering`, page cursors).

Several things that the comments or documents of the repository promise, or that a reader would expect,
do not hold of the code. The model follows the code; for each there is a lemma with a case in which it
fails, and a lemma that says exactly when it holds:

| promise | fails in | holds exactly when |
|---|---|---|
| pruning brings the ledger within its limit | `Forgetting.ShieldedLedgerStaysOverLimit` | `Forgetting.PruneRemovesExactly` |
| first-seen observations are never lost | `Forgetting.FirstSeenCanBeLost` | `Forgetting.CompactionLosesExactly` |
| a projection that has run is up to date | `ProjectionGaps.QuietPruneMakesStale`, `ProjectionGaps.CutFirstRunMakesStale` | `Projections.CatchesUpIff` |
| following cursors collects every match | `HistoryGaps.TiesAreLost`, `HistoryGaps.NegativeTimesAreLost` | `Paging.FetchAll` |
| presence does not depend on arrival order | `Presence.TiesDependOnOrder` | `Presence.OrderDoesNotMatterIff` |
| a checkpoint keeps the restart count | `HistoryGaps.RepeatedBackfillCountsTwice` | `History.SnapshotKeepsRestarts` |
| a checkpoint keeps the uptime | `HistoryGaps.CheckpointLosesUptime` | `Snapshots.CheckpointKeepsUptime` |
| uptime is never negative | `Uptime.FutureOnlineIsNegative`, `Uptime.OldOfflineIsNegative`, `Uptime.FutureBackfillIsNegative` | `Uptime.TotalUptimeSignIff` |
| uptime is the time reported online | the same | without a backfill `Uptime.FutureStatusesIff`, with one `Uptime.FutureBackfillIff` |
| the trimmed mean is the average of the values kept | `TrimmedMean.LargeMeanIsNegative` | `TrimmedMean.MeanIsAverageIff` |
| both derivations of an opinion count the same restarts | `HistoryGaps.LateBackfillCountsOnce` | `Opinions.DerivationsAgree` |
| the signers of a checkpoint are different naras, at least five | `CheckpointConsensus.OneVoterIsEnough` | `CheckpointConsensus.SignersAreDistinctIff` |
| all signatures of a checkpoint verify | `CheckpointConsensus.ScatteredApprovalsExist`, `CheckpointConsensus.ScatteredApprovalsFail` | `CheckpointConsensus.HonestSignaturesVerify` |
| every proposal is finalized | `CheckpointSafety.ReplacedProposal`, `CheckpointSafety.AbandonedForever`, `CheckpointLiveness.UnpublishedProposal` | `CheckpointLiveness.FinalizedIffLookedAt` |
| an open proposal can still be finalized | `CheckpointSafety.ReplacedProposal`, `CheckpointSafety.AbandonedForever` | `CheckpointSafety.FinalizableUntilAbandoned` |
| no hop of a journey can be altered unnoticed | `Journeys.LastStampIsUnsigned` | `Journeys.ReplacedHopIff` |

One comment is out of date besides: the pruning order it gives (`sync_ledger.go:1083-1085`, sightings before pings) is
not the code's; pings go first (`Forgetting.PruneGoesByKind`).

## Model

| member | source | states |
|---|---|---|
| `Decimal.ParseFormatInt` | sync_ledger.go:913-919 | a cursor printed from any 64-bit timestamp is read back as that timestamp |
| `Decimal.FormatIntInjective` | identity_attestation.go:49-77 | different numbers have different decimal texts, so signed texts keep their fields apart |
| `Sorting.SortSlice` | sync_ledger.go:1102-1120 | some arrangement of the same elements in comparison order; nothing about ties |
| `LedgerInvariants.StepStaysSound` | sync_ledger.go:241-326 | every operation, accepted or refused, keeps the ID index equal to the held IDs, no ID twice, and every pair within its cap |
| `LedgerInvariants.RunStaysSound` | sync_ledger.go:673-813 | in every run of adds, refusals, evictions, prunes and removals the index is exact and every observer-subject pair holds at most 20 observations or at most one that is not a restart |
| `LedgerInvariants.PairsStayCapped` | sync_ledger.go:673-813 | in every run the observations an observer holds about a subject are at most 20, or all but one report restarts |
| `LedgerInvariants.CompactedMakesRoom` | sync_ledger.go:706-790 | after compaction one more observation of the pair keeps the pair within its cap |
| `LedgerInvariants.StepRetains` | sync_ledger.go:1040-1147 | short of removal by name no step loses a checkpoint, and a restart is lost only while a checkpoint about its subject is held |
| `LedgerInvariants.HistorySurvives` | sync_ledger.go:724-790 | over any run without removals a checkpoint once held stays, and a restart once held is held or a checkpoint about its subject is |
| `Forgetting.PruneIsExact` | sync_ledger.go:1093-1147 | kept plus removed is the old multiset; nothing critical goes; of a removed and a kept event the removed one is of an unknown nara if the kept one is, else no more important, else no younger; a prune that removes nothing keeps the version, any other bumps it and leaves time order |
| `Forgetting.PruneGoesByKind` | sync_ledger.go:1040-1147 | among events of equally known naras pings go first, then sightings, then social news, then greetings, farewells and status changes, the oldest of a kind first; checkpoints, restarts and first sightings never |
| `Forgetting.AddKeepsLimit` | sync_ledger.go:313-325 | an accepted event that is no observation leaves the ledger within its limit, unless all that is left is critical or shielded |
| `Forgetting.UnknownIffInvolved` | sync_ledger.go:144-206 | an event is of an unknown nara exactly if it involves, other than as emitter, a nara with a name and no known key, and is no checkpoint |
| `Forgetting.InvolvedIff` | sync_ledger.go:466-527 | an event involves a nara exactly as emitter, actor, target or witness |
| `Forgetting.RemovalForgets` | sync_ledger.go:466-527 | a removal by name keeps exactly the events that the nara neither emitted, did, suffered nor witnessed |
| `Forgetting.PruneRemovesExactly` | sync_ledger.go:1122-1131 | the number removed is the smaller of the excess and the expendable events; the limit is met if and only if those suffice |
| `Forgetting.LeftOverIsCritical` | sync_ledger.go:1125-1131 | what a prune leaves over the limit is critical, or of known naras behind a critical event of an unknown one; with no such event all of it is critical |
| `Forgetting.ShieldedLedgerStaysOverLimit` | sync_ledger.go:1102-1130 | a ledger in which an unknown nara's critical event keeps expendable events over the limit |
| `Forgetting.CompactionLosesExactly` | sync_ledger.go:706-804 | an observation is lost to an add, accepted or refused, if and only if the add is no duplicate, its observer holds 20 about its subject, and it is the first of the oldest that report no restart, or, with only restarts and a checkpoint about the subject held, the first of the oldest of all |
| `Forgetting.FirstSeenCanBeLost` | sync_ledger.go:738-775 | a ledger whose compaction evicts a first-seen observation although no checkpoint is held |
| `Forgetting.RestartsCountedOnce` | sync_ledger.go:664-704 | while observations enter with deduplication, no restart and no first sighting by one observer is recorded twice in any run |
| `Forgetting.DedupRefusesExactly` | sync_ledger.go:664-704 | a valid observation with a new ID is refused exactly if a held one tells the same: the same restart of the nara, or a first sighting of it by the same observer |
| `SyncLedgers.SyncLedger.AddEvent` | sync_ledger.go:241-326 | computes a missing ID and then moves exactly as the specification of an add says, with its result |
| `SyncLedgers.SyncLedger.MakeRoomForPing` | sync_ledger.go:276-310 | a full target gives up its oldest ping with a version bump, or refuses a ping that is not newer |
| `SyncLedgers.SyncLedger.AddPlainEvent` | sync_ledger.go:249-325 | validity, filter and duplicate check, then ping room, append, prune, in this order |
| `SyncLedgers.SyncLedger.AddEventWithDedup` | sync_ledger.go:664-667 | an observation is refused if its restart or first sighting is already reported |
| `SyncLedgers.SyncLedger.AddObservationWithCompaction` | sync_ledger.go:673-813 | compaction comes before the validity and duplicate checks, and the limit is not enforced |
| `SyncLedgers.SyncLedger.Compact` | sync_ledger.go:706-790 | evicts the victim the specification names, bumps the version, or leaves the ledger alone |
| `SyncLedgers.SyncLedger.FindOldest` | sync_ledger.go:272-287 | counts the selected events and finds the first of the oldest |
| `SyncLedgers.SyncLedger.FindReport` | sync_ledger.go:676-704 | true exactly if the report is already recorded |
| `SyncLedgers.SyncLedger.HasCheckpoint` | sync_ledger.go:728-736 | true exactly if a checkpoint about the subject is held |
| `SyncLedgers.SyncLedger.RemoveEventsFor` | sync_ledger.go:466-527 | exactly the events that do not involve the name stay, in order; the version moves if one went |
| `SyncLedgers.SyncLedger.GetEventsSince` | sync_ledger.go:532-544 | the events from the position on, with count and version of the same moment |
| `SyncLedgers.SyncLedger.Prune` | sync_ledger.go:1086-1090 | a locked prune keeps the ledger valid and is a prune of the specification |
| `SyncLedgers.SyncLedger.PruneUnlocked` | sync_ledger.go:1093-1147 | sorts in place, removes the front up to the first critical event, re-sorts by time; with nothing to remove it leaves the new order and the old version |
| `SyncLedgers.SyncLedger.MergeEvents` | sync_ledger.go:1022-1033 | a batch is filtered and added one by one; the result counts the accepted |
| `Convergence.AcceptableIff` | sync_event.go:570-576 | an event is valid and unfiltered exactly if it is dated, has a payload, a target and (checkpoints apart) an actor, and is complete as its kind demands; old checkpoints about one nara are kept out |
| `Convergence.GetsInIff` | sync_ledger.go:241-326 | an event with a new ID gets in exactly if it is acceptable and, as a ping, finds fewer than five to its target or is newer than one of them; a repeated ID is refused |
| `Replicas.LedgerRemembers` | sync_ledger.go:276-313 | in every run of adds that prunes nothing a ledger holds every acceptable plain event offered, in some copy, and per target the five newest pings offered |
| `Replicas.LedgersAgree` | sync_ledger.go:241-326 | two ledgers offered the same events in any order with repeats hold the same events other than observations; copies of an event may differ in what the text hashed into its ID leaves out: the emitter, and a checkpoint's voters, signatures and round |
| `Replicas.PingsStayGone` | sync_ledger.go:294-309 | a ping evicted or refused is never held again, in no copy, however often it is offered and whatever the timestamps |
| `Replicas.CopiesShareID` | checkpoint_types.go:54-72 | copies that differ only in what is left out have the same ID |
| `EventIds.ComputedIdsAreHashes` | sync_event.go:559-579 | what these theorems ask of IDs holds of computed ones: with names free of colons and one name for each checkpoint's subject, an ID stands for the timestamp and all of the payload that is not left out |
| `EventIds.ObservationsShareIdIff` | sync_event.go:394-410 | two observations share a computed ID exactly if they have one timestamp and report the same restart of one nara, whoever saw it, or agree in all that is shown |
| `Merging.MergeExtendsRun` | sync_ledger.go:1022-1033 | a merge of a batch is the run of adds of its unfiltered events, with IDs, in order |
| `Merging.MergesConverge` | sync_ledger.go:1022-1033 | two ledgers that merge the same events without a prune, cut into batches, ordered and repeated in any way, with limits and key rings of their own, hold the same events other than observations, up to copies |
| `Merging.MergesWithinLimitConverge` | sync_ledger.go:1022-1033 | in particular if their limits are not below the number of different IDs offered |
| `Projections.Projection.RunOnce` | projections.go:91-130 | a complete replay step of the specification: starts over in time order after a version change, else handles what is new; returns whether there was anything to do |
| `Projections.Projection.RunToEnd` | projections.go:47-87 | the same, cut short after any number of events, in which case the version is not recorded; returns whether the whole backlog was done |
| `Projections.Projection.FetchEvents` | projections.go:51-75 | what a run has to do, from one read of the ledger |
| `Projections.Projection.Reset` | projections.go:133-137 | position and derived state are cleared, the recorded version stays |
| `Projections.CompleteRunCatchesUp` | projections.go:91-130 | a complete run of a tracking projection has handled a rearrangement of exactly the held events |
| `Projections.RunOrder` | projections.go:47-130 | a run starts over with the oldest held events, in time order, if the version has moved, and otherwise goes on in ledger order where it stopped; it records the version exactly when it has handled all |
| `Projections.HarmlessStepTracks` | projections.go:96-112 | every ledger step keeps a projection tracking unless it reorders without a version bump under a projection in mid-log, or restructures before the first complete run |
| `Projections.HarmlessWithinLimit` | sync_ledger.go:1093-1147 | after a complete run only a step that leaves the ledger over its limit can be harmful |
| `Projections.CatchesUpIff` | projections.go:91-130 | the next complete run ends up to date if and only if it starts over or the first `position` events are still the same ones |
| `Projections.ReplayIsExact` | projections.go:91-130 | in every run mixing adds, evictions, removals, prunes, cancelled runs and resets without a harmful step, a projection that has just run equals a replay of the held events |
| `ProjectionGaps.QuietPruneMakesStale` | sync_ledger.go:1128-1131 | a prune that removes nothing makes an up-to-date projection handle one event twice and miss another |
| `ProjectionGaps.CutFirstRunMakesStale` | projections.go:47-87 | a cancelled first run followed by a removal makes a projection skip a held event for good |
| `Presence.OnlineStatuses.UpdateState` | presence_projection.go:147-164 | an entry is overwritten only by something newer |
| `Presence.OnlineStatuses.HandleEvent` | presence_projection.go:81-144 | the new states are the handler's; a ping touches two names |
| `Presence.OnlineStatuses.GetStatus` | presence_projection.go:169-191 | an ONLINE entry older than the threshold reads as MISSING |
| `Presence.ReplayMostRecentWins` | presence_projection.go:81-164 | whatever the order of handling, a name's entry is what a newest event touching it says |
| `Presence.OrderDoesNotMatterIff` | presence_projection.go:147-164 | every order of the same events gives the same entry if and only if the newest events touching the name say the same, as they do when timestamps are distinct |
| `Presence.TiesDependOnOrder` | presence_projection.go:147-164 | with equal timestamps two orders give different states |
| `Presence.StatusIsNewestHeld` | presence_projection.go:81-164 | after any harmless run of ledger and projection every name has the status of the newest held event that touches it |
| `Presence.MissingMeansSilent` | presence_projection.go:169-191 | a reader sees the newest event's status, or MISSING if that was ONLINE and is too old |
| `Presence.UntouchedHasNoStatus` | presence_projection.go:169-191 | a nara that no event touches has no status |
| `RateLimit.ObservationRateLimit.CheckAndAdd` | sync_ledger.go:32-59 | admits and records exactly if the window about the subject has room; a refusal stores nothing |
| `RateLimit.ObservationRateLimit.Cleanup` | sync_ledger.go:63-86 | keeps exactly the entries of the window that ends now, and no empty subject |
| `RateLimit.ForgettingIsHarmless` | sync_ledger.go:32-86 | in every run whose checks are in time order, with cleanups at any time not after the next check, what the limiter still knows of the window is what a limiter that forgets nothing knows |
| `RateLimit.DecisionsAgree` | sync_ledger.go:32-86 | cleanups and pruning change no decision |
| `RateLimit.WindowNeverOverfull` | sync_ledger.go:32-59 | no closed window of the given length holds more than the maximum of admissions about a subject |
| `RateLimit.RefusedOnlyWhenFull` | sync_ledger.go:32-59 | an event is refused if and only if the window that ends with it is full |
| `Paging.GetEventsPage` | sync_ledger.go:908-972 | the oldest matches after the cursor, and a cursor if the page is full |
| `Paging.PageIs` | sync_ledger.go:908-972 | a page holds wanted events after the cursor, oldest first; one left off is no older than any on it, and the page is full then; a full page gives its last timestamp as cursor, any other page none |
| `Paging.FilterEvents` | sync_ledger.go:921-957 | exactly the matches later than the cursor's time, with their multiplicity |
| `Paging.FetchAll` | boot_checkpoint.go:116-142 | following cursors terminates, collects no match too often, in time order; it collects all matches with positive timestamps if and only if no timestamp straddles a page boundary, and all matches there are if and only if, besides, all of them have positive timestamps |
| `Paging.PageVerdict` | sync_ledger.go:908-972 | a page loses matches exactly when it cuts a group of equal timestamps |
| `Paging.DistinctTimesDoNotStraddle` | sync_ledger.go:960-969 | with distinct timestamps paging is complete for every page size |
| `HistoryGaps.TiesAreLost` | sync_ledger.go:938-969 | two events of one timestamp and a page size of one: the second is on no page |
| `HistoryGaps.NegativeTimesAreLost` | sync_ledger.go:912-940 | a valid event with a negative timestamp is on no page |
| `History.GetCheckpointEvent` | checkpoint_types.go:319-336 | the checkpoint with the latest as-of time, the first held of equals |
| `History.LatestIsLatest` | checkpoint_types.go:319-336 | no held checkpoint about the subject has a later as-of time |
| `History.BaselineIs` | checkpoint_types.go:319-336 | the baseline is the first held of the checkpoints about the subject with the latest as-of time, if that is positive |
| `History.GetBackfill` | sync_ledger.go:568-579 | the first backfill held about the subject |
| `History.BackfillIs` | sync_ledger.go:568-579 | the backfill is the first one held about the subject |
| `History.CountStartTimesAfter` | checkpoint_types.go:388-414 | the number of distinct start times of the subject's own restarts after a time |
| `History.CountStartTimesExcluding` | checkpoint_types.go:419-444 | the same without the backfill's start time |
| `History.DeriveRestartCount` | checkpoint_types.go:343-384 | checkpoint plus later starts, else backfill plus other starts, else all starts |
| `History.RestartCountIs` | checkpoint_types.go:343-444 | the count is the checkpoint's and one for each start time reported after it, or the backfill's and one for each other start time, or one for each start time |
| `History.SnapshotKeepsRestarts` | checkpoint_types.go:343-444 | a checkpoint that records the count as of T gives the full log's count if and only if no later restart repeats the start time of the backfill it replaces |
| `History.SuffixIsSnapshotLog` | checkpoint_types.go:343-384 | dropping restarts at or before T and adding the checkpoint is such a log |
| `HistoryGaps.RepeatedBackfillCountsTwice` | checkpoint_types.go:343-414 | a ledger whose restart count rises when a checkpoint of that very count is added |
| `History.CollectStatuses` | checkpoint_types.go:488-514 | the status changes after the cutoff, in ledger order |
| `History.SumOnlinePeriods` | checkpoint_types.go:516-546 | what the loop over some time-sorted arrangement adds up to |
| `History.DeriveUptimeAfter` | checkpoint_types.go:554-608 | that sum for the status changes after the cutoff, starting offline |
| `History.DeriveTotalUptime` | checkpoint_types.go:454-549 | checkpoint plus later online time, else online since the backfill, else the status changes alone |
| `Uptime.UptimeIsMeasure` | checkpoint_types.go:554-608 | derived uptime is the number of seconds before now whose latest status is ONLINE; reports of one second need only agree on that |
| `Uptime.UptimeWithinPeriod` | checkpoint_types.go:554-608 | it is at most now minus the cutoff and not negative |
| `Uptime.UptimeMonotone` | checkpoint_types.go:554-608 | it never falls, and grows no faster than time, while no status changes |
| `Uptime.FutureStatusesIff` | checkpoint_types.go:533-546 | with status changes dated ahead of now and no backfill it is still the measure if and only if the status does not change between now and the last of them |
| `Uptime.FutureBackfillIff` | checkpoint_types.go:521-546 | with a backfill before every OFFLINE and MISSING it is the time online since the backfill's start if and only if that status does not change between now and the last of the changes and the start; with an OFFLINE or MISSING as old as the start, if and only if the online seconds since the first of them make up for the gap to the start, for what lies ahead of now, and for the measure |
| `Uptime.SumUnique` | checkpoint_types.go:554-608 | reports that agree have one sum, in whatever order they are held and sorted |
| `Uptime.ContradictionsDependOnSort` | checkpoint_types.go:554-608 | of an ONLINE and an OFFLINE of one second the sort may put either last, and the uptime is all the time since or none |
| `Uptime.FutureOnlineIsNegative` | checkpoint_types.go:543-546 | one ONLINE dated ahead makes it negative |
| `Uptime.SnapshotKeepsUptime` | checkpoint_types.go:454-549 | snapshot plus suffix measures the same as the whole if and only if the subject was not ONLINE at T or no time has passed; otherwise less |
| `Uptime.TotalUptimeIsMeasure` | checkpoint_types.go:454-549 | total uptime is the checkpoint's uptime plus the measure of what came after it |
| `LedgerSpec.SecondsAre` | checkpoint_types.go:503-506 | nanoseconds are cut down to whole seconds toward zero |
| `ReportedUptime.UptimeAfterIsReported` | checkpoint_types.go:554-608 | uptime after a cutoff is the number of seconds before now at which the latest held report after the cutoff says ONLINE |
| `ReportedUptime.TotalIsReported` | checkpoint_types.go:454-549 | total uptime is the checkpoint's and the seconds reported online after it, or without any baseline all seconds reported online |
| `ReportedUptime.BackfilledTotalIsReported` | checkpoint_types.go:454-549 | with a backfill it is the seconds since its start reported online or not yet reported on, if and only if the start is not after now and no OFFLINE or MISSING is as old as it |
| `Snapshots.CheckpointKeepsUptime` | checkpoint_types.go:454-549 | end to end on ledgers and for every baseline, checkpoint, backfill or none: a checkpoint that records the total as of T changes no total, if and only if the subject did not count as online at T, or nothing has happened and no time has passed since; otherwise the total falls |
| `HistoryGaps.CheckpointLosesUptime` | checkpoint_types.go:521-546 | a ledger whose total uptime falls from 15 to 5 seconds when a correct checkpoint is added |
| `Uptime.BackfillUptimeIff` | checkpoint_types.go:521-546 | with nothing dated after now a backfilled total is the time online since the backfill's start if and only if that start is not after now and no OFFLINE or MISSING is as old as it; otherwise less |
| `Uptime.LoopValue` | checkpoint_types.go:521-546 | the exact value of the loop for status changes at any seconds, before or after now, and any assumed start |
| `Uptime.TotalUptimeSignIff` | checkpoint_types.go:454-549 | total uptime is not negative exactly if the time counted makes up for how far an ONLINE, or a backfill's start, lies ahead of what closes it |
| `Uptime.OldOfflineIsNegative` | checkpoint_types.go:528-541 | an OFFLINE older than the backfill makes the total negative |
| `Uptime.FutureBackfillIsNegative` | checkpoint_types.go:524-527 | a backfill that starts after now, with no status changes, gives a negative total |
| `TrimmedMean.TrimmedMeanInt64` | math_helpers.go:15-71 | the mean of the values within a factor of five of the median, in wrapping 64-bit arithmetic, of some sorted arrangement |
| `TrimmedMean.TrimmedMeanPositive` | math_helpers.go:76-85 | the same over the positive values |
| `TrimmedMean.OrderIsIrrelevant` | math_helpers.go:15-71 | the result depends only on the multiset of values, wrap-around included |
| `TrimmedMean.MeanOfThoseTakingPart` | math_helpers.go:15-71 | no values give zero, one gives itself, more the average of those within a factor of five of the upper median, or within ten of a median of zero |
| `TrimmedMean.NothingCloseIsDropped` | math_helpers.go:28-71 | of values within a factor of five of each other none is dropped: the result is their average |
| `TrimmedMean.KeptContainsMedian` | math_helpers.go:28-63 | the kept set contains the median unless five times the median overflows |
| `TrimmedMean.NoOverflowIff` | math_helpers.go:65-70 | the wrapping sum is the sum if and only if the sum is a 64-bit number; overflow on the way does no harm |
| `TrimmedMean.MeanIsAverageIff` | math_helpers.go:65-70 | the result is the average of the kept values if and only if their sum is a 64-bit number |
| `TrimmedMean.LargeMeanIsNegative` | math_helpers.go:65-70 | two equal values whose mean comes out as their negative |
| `TrimmedMean.MeanWithinRange` | math_helpers.go:15-71 | the mean lies between the smallest and the largest value if the sum of the kept values is a 64-bit number; dropped outliers and five times the median may be of any size |
| `TrimmedMean.MinorityCannotMove` | math_helpers.go:15-71 | if more than half of the values lie in [lo, hi], lo positive, the median does too, and if the sum of the kept values is a 64-bit number the mean lies in [lo/5, 5 hi], whatever the others are |
| `TrimmedMean.MajorityFits` | math_helpers.go:15-71 | for such a majority the sum of the kept values is a 64-bit number if 5 hi times the number of values is |
| `TrimmedMean.MinorityCannotMovePositive` | math_helpers.go:76-85 | the same for a majority of the positive values, whatever the zeros, negatives and outliers; and the mean is positive |
| `Clustering.ConsensusByUptime` | consensus.go:20-79 | the middle vote of a cluster chosen by weight from the greedy clusters of some sorted arrangement |
| `Clustering.BuildClusters` | consensus.go:29-49 | greedy clusters: each spans at most the tolerance from its first vote and the next vote is further |
| `Clustering.Choose` | consensus.go:51-79 | a heaviest cluster of two or more votes if there is one, else a heaviest or, by coin, a close second |
| `Clustering.ClustersAreFewest` | consensus.go:29-49 | no cover of the votes by intervals of the tolerance's width has fewer intervals |
| `Clustering.ClustersCover` | consensus.go:29-49 | the clusters are such a cover |
| `Clustering.WeightConserved` | consensus.go:30-49 | clustering loses no weight, modulo the 64-bit width |
| `Clustering.ResultIsCorroborated` | consensus.go:51-59 | if any two votes lie within the tolerance the result is a vote of a heaviest cluster of at least two |
| `Clustering.ResultIsAVote` | consensus.go:20-79 | the result is the value of some vote |
| `ElectedValues.ResultIsUpperMedian` | consensus.go:20-79 | the result is the upper median of a greedy group: a heaviest of those with two votes or more if there is one, else a heaviest, or by coin a second-heaviest of at least 80 percent of its weight |
| `ElectedValues.WeightWraps` | consensus.go:30-49 | a group weighs what its votes weigh together, modulo the 64-bit width |
| `Opinions.OpinionRecords.HandleEvent` | neighbourhood_opinion.go:56-91 | restarts and first sightings are appended to their subject's records, nothing else changes |
| `Opinions.ReplayedRecords` | neighbourhood_opinion.go:56-91 | a replay leaves for each subject exactly its restart and first-seen observations, in handling order |
| `Opinions.DeriveStartTime` | neighbourhood_opinion.go:131-165 | the trimmed mean of the positive start times reported |
| `Opinions.DeriveRestarts` | neighbourhood_opinion.go:169-209 | one observer's highest number, or the trimmed mean over observers |
| `Opinions.DeriveLastRestart` | neighbourhood_opinion.go:212-220 | the largest last-restart reported |
| `Opinions.DeriveOpinion` | neighbourhood_opinion.go:96-128 | all three for the subject's records, and the ledger's total uptime; nothing without records |
| `Opinions.SameEventsSameOpinion` | neighbourhood_opinion.go:96-220 | up-to-date projections over the same events derive the same start time, restarts and last restart, whatever the order and the number of resets, and the same total uptime when the order decides no tie |
| `Opinions.OpinionResistsMinority` | neighbourhood_opinion.go:131-209 | if more than half of the positive start times reported lie in [lo, hi] the opinion is in [lo/5, 5 hi], whatever the others are, and likewise the restart count when at least two naras report |
| `Opinions.DeriveFromCheckpoint` | neighbourhood_opinion.go:275-344 | checkpoint restarts plus distinct later starts in the records, the checkpoint's start time, the latest restart after it and the total uptime; without a checkpoint the records' opinion |
| `ReportedOpinions.OpinionIsTold` | neighbourhood_opinion.go:96-220 | for an up-to-date projection, on the events held: the mean of the positive start times told, the latest last restart told, and the largest restart number told by one nara or the mean of those several naras told |
| `ReportedOpinions.CheckpointOpinionIsTold` | neighbourhood_opinion.go:275-344 | after a checkpoint: the start times counted are those of restarts told with a later start; the last restart is the latest they name, else their latest start |
| `Opinions.DerivationsAgree` | neighbourhood_opinion.go:275-344 | for an up-to-date projection this agrees with the ledger's restart count if and only if no backfill starts after the checkpoint unrepeated by a restart |
| `HistoryGaps.LateBackfillCountsOnce` | neighbourhood_opinion.go:275-344 | a ledger on which the opinion counts a restart that the ledger does not |
| `Attestations.ContentDeterminesClaim` | identity_attestation.go:49-77 | with colon-free IDs equal signed texts make the same claim |
| `Attestations.ColonsConfuseClaims` | identity_attestation.go:49-77 | with a colon in an ID two different claims share a text |
| `Attestations.VerifySignatureWithCounts` | checkpoint_types.go:120-163 | counts known signers and verifying signatures; valid from two on; mismatched lists count nothing |
| `Attestations.VerifiesIffClaimMatches` | checkpoint_types.go:120-163 | an honest signature verifies if and only if its attestation makes the checkpoint's claim |
| `CheckpointConsensus.GroupVotes` | checkpoint_service.go:590-608 | the map holds for every value key exactly its votes, in order |
| `CheckpointConsensus.FindLargest` | checkpoint_service.go:618-626 | a largest group of at least five votes, or none exists |
| `CheckpointConsensus.FindWinners` | checkpoint_service.go:618-642 | the largest group, unless more votes approved; fewer than five winners means neither exists |
| `CheckpointConsensus.ListVoters` | checkpoint_service.go:675-699 | the proposer first if its values won, then the ranked voters, ten at most |
| `CheckpointConsensus.TryFindConsensus` | checkpoint_service.go:584-701 | finds the checkpoint of the winning values with the winners of most uptime, or nothing |
| `FoundCheckpoints.WhatIsFound` | checkpoint_service.go:584-701 | a found checkpoint speaks of the proposal's nara, second and round; its values are signed by five votes or more and by no fewer than any others, or are the proposer's and more votes approve than sign any values; it lists the proposer first if its values won, then the backers of most uptime, ten at most |
| `FoundCheckpoints.NothingIsFoundIff` | checkpoint_service.go:584-642 | nothing is found exactly if fewer than five votes sign any values and fewer than five approve |
| `CheckpointConsensus.HonestSignaturesVerify` | checkpoint_service.go:640-701 | with honest votes the signatures that verify are exactly those of known signers whose last checkpoint is the one the new checkpoint names; all known ones if a value group won, even when some votes were cast on another proposal of the same second |
| `CheckpointConsensus.ScatteredApprovalsFail` | checkpoint_service.go:628-638 | if all approve but each voter saw a different last checkpoint, none the proposer's, a checkpoint is found that no nara accepts |
| `CheckpointConsensus.ScatteredApprovalsExist` | checkpoint_service.go:628-638 | five honest votes for which that happens |
| `CheckpointConsensus.GroupCheckpointIsAccepted` | checkpoint_service.go:738-776 | a checkpoint won by a value group passes its proposer's own verification with every signature |
| `CheckpointConsensus.ListedCount` | checkpoint_service.go:675-699 | five to ten signatures, the proposer first and at least six if its values won |
| `CheckpointConsensus.NearbyVotersAgree` | checkpoint_service.go:346-394 | if all voters are within tolerance and saw the proposer's last checkpoint, five votes always make a checkpoint of the proposer's values |
| `CheckpointConsensus.OneVoterIsEnough` | checkpoint_service.go:480-490 | five copies of one vote make a checkpoint signed by that voter and the proposer only |
| `CheckpointConsensus.SignersAreDistinctIff` | checkpoint_service.go:675-699 | the signers listed are pairwise different naras if and only if no two listed votes are by one voter and none is by a listed proposer - to be read off the winning votes if they all fit; they are then at least five, six with the proposer |
| `CheckpointConsensus.SignersAreDistinct` | checkpoint_service.go:675-699 | one vote per voter and none by the proposer is enough for that |
| `CheckpointSafety.StepStaysSafe` | checkpoint_service.go:433-581 | every step of every thread keeps the protocol's invariants |
| `CheckpointSafety.RunStaysSafe` | checkpoint_service.go:433-581 | so does every interleaving of votes, timers, finalizers and proposers |
| `CheckpointSafety.FinalizedAtMostOnce` | checkpoint_service.go:540-546 | no pending proposal's finalization ends twice |
| `CheckpointSafety.EveryFinalizationEnds` | checkpoint_service.go:540-581 | once no finalizer is under way the finalized proposals are exactly those whose finalization has ended |
| `CheckpointSafety.FinalizationEndsInOneBranch` | checkpoint_service.go:548-581 | success, round 2 or giving up, exactly by whether a prefix of the held votes settles on a checkpoint and by the round |
| `CheckpointSafety.HeldVotesFit` | checkpoint_service.go:455-484 | every vote held names its proposal's timestamp and round |
| `CheckpointSafety.RoundTwoComesFromFailure` | checkpoint_service.go:711-734 | a round-2 proposal proposes the trimmed means of the nonempty votes on which some round 1 failed |
| `CheckpointSafety.OneRoundTwoEach` | checkpoint_service.go:567-571 | no two round-2 proposals come from the same round 1 |
| `CheckpointSafety.VotesComeFromDeliveries` | checkpoint_service.go:433-491 | in every interleaving a vote is held, by all proposals together, at most as often as it was delivered |
| `CheckpointSafety.ReplacedProposal` | checkpoint_service.go:275-284 | a reachable state in which a second proposal has replaced the first before any finalizer read it |
| `CheckpointSafety.AbandonedForever` | checkpoint_service.go:530-537 | a proposal replaced before a finalizer read it is never finalized, in any continuation |
| `CheckpointSafety.FinalizableUntilAbandoned` | checkpoint_service.go:530-546 | an open proposal that is current, or that a finalizer has read as current, can still be finalized: some continuation, which may bring more votes, does it; so these are exactly the ones that can |
| `CheckpointLiveness.FinalizedIffLookedAt` | checkpoint_service.go:530-546 | in every run, once no finalizer is about to claim a proposal, it is finalized if and only if some finalizer looked while it was the current one |
| `CheckpointLiveness.FullProposalIsFinalized` | checkpoint_service.go:481-490 | the current proposal is finalized once it holds five votes and the finalizers are through |
| `CheckpointLiveness.PublishedProposalIsFinalized` | checkpoint_service.go:294-310 | the current proposal is finalized once the finalizers are through, if publishing it succeeded, however few votes came |
| `CheckpointLiveness.UnpublishedProposal` | checkpoint_service.go:294-298 | a reachable state in which a proposal whose publication failed is current and open and no thread is left to finalize it |
| `CheckpointLiveness.IdleForever` | checkpoint_service.go:294-310 | there it stays, short of another vote or proposal |
| `CheckpointTrust.ProposalRoundTrip` | checkpoint_service.go:316-404 | a nara votes on another's proposal if and only if it has the right key for the proposer, and the proposer admits that vote if and only if it has the right key for the voter; the vote approves and signs the proposed values exactly if they are within 5 restarts and 60 seconds of the voter's own |
| `CheckpointTrust.VotesReachTheirProposal` | checkpoint_service.go:467-470 | if no two proposals of a round share a second, every honest vote held was cast on the proposal that holds it |
| `CheckpointTrust.VotesReachTheirSecond` | checkpoint_service.go:467-470 | in any case it was cast on a proposal of the same nara and second |
| `CheckpointTrust.AgreedCheckpointsVerify` | checkpoint_service.go:556-566 | in every interleaving, a checkpoint agreed on by a value group is stored by exactly the naras that know the signers of two of its listed signatures, the proposer and those that receive it; two signatures may be one signer's, and are two naras' if no signer is listed twice |
| `CheckpointLedger.LedgerIsStored` | checkpoint_service.go:556-566 | in every interleaving the proposer's ledger holds exactly the agreed checkpoints of which it could verify two signatures, in the order their finalizations ended |
| `CheckpointLedger.HeldWasAgreed` | checkpoint_service.go:738-776 | a checkpoint held was agreed on by the finalization of an own proposal, on a prefix of its votes, with two signatures that verify; and there are no more than finalizations that agreed |
| `CheckpointLedger.AgreedIsStored` | checkpoint_service.go:556-566 | among honest naras a checkpoint that a value group agreed on is stored if the proposer then knew the signers of two listed signatures, and exactly then two verify |
| `CheckpointTrust.RoundTwoResists` | checkpoint_service.go:711-734 | each value proposed in round 2 is within a factor of five of the majority of round 1, whatever the minority signs |
| `CheckpointServices.CheckpointService.MatchVote` | checkpoint_service.go:433-470 | a vote is matched exactly if it is on this nara, in version 2 or later, signed over its text under a known key, and names the second and round of the current proposal |
| `CheckpointServices.CheckpointService.AppendVote` | checkpoint_service.go:480-490 | appends in place and asks for finalization from the fifth vote on |
| `CheckpointServices.CheckpointService.TestAndSetFinalized` | checkpoint_service.go:540-546 | the first finalizer wins, the others leave |
| `CheckpointServices.CheckpointService.Decide` | checkpoint_service.go:548-557 | the search for consensus and the means, on the copied votes |
| `CheckpointServices.CheckpointService.EndFinalization` | checkpoint_service.go:559-581 | a protocol step into one of three branches: what was found is stored exactly if two signatures verify, a failed round 1 with votes goes on to round 2 with their means, anything else ends |
| `CheckpointServices.CheckpointService.Means` | checkpoint_service.go:717-730 | the trimmed mean of each value over the votes |
| `CheckpointServices.CheckpointService.StoreCheckpoint` | checkpoint_service.go:738-776 | stored exactly if two listed signatures verify |
| `CheckpointServices.CheckpointService.ProposeCheckpointRound` | checkpoint_service.go:217-311 | a connected proposer replaces its pending proposal by one with no votes yet, signed by itself as of now: its own values in round 1, the means in round 2; a disconnected one does nothing |
| `CheckpointServices.CheckpointService.HandleVote` | checkpoint_service.go:433-491 | undisturbed, a vote is appended if and only if it is accepted, current and the proposal open |
| `CheckpointServices.CheckpointService.FinalizeProposal` | checkpoint_service.go:531-581 | undisturbed, an open proposal is finalized on all its votes with one outcome, the one the search finds on them; a checkpoint agreed on is stored exactly if two signatures verify under the keys known; otherwise nothing happens |
| `World.WorldMessage.AddHop` | world.go:48-80 | appends a hop signed over everything before it |
| `World.WorldMessage.HasVisited` | world.go:106-113 | true exactly if some hop bears the name |
| `World.WorldMessage.IsComplete` | world.go:116-122 | true exactly if the last hop is the originator's |
| `World.WorldMessage.VerifyChain` | world.go:125-144 | no error if and only if every hop is signed by the nara it names over everything before it; else the first error |
| `World.WorldMessage.ChooseNextNara` | world.go:149-194 | an unvisited online nara of highest clout, else home if online, else nowhere |
| `World.WorldMessage.CalculateWorldRewards` | world.go:197-215 | 10 for the originator and 2 for every other signer of a complete journey, nothing for anybody else or else |
| `World.WorldJourneyHandler.StartJourney` | world.go:282-297 | an empty journey sent to the nara chosen |
| `World.WorldJourneyHandler.HandleIncoming` | world.go:300-340 | a bad chain is left alone; otherwise one hop is added, and the journey ends exactly at its originator or goes to the nara chosen |
| `Journeys.NobodyIsVisitedTwice` | world.go:149-194 | in every forwarding run the signers are pairwise different and the originator signs last or not at all |
| `Journeys.JourneyVisitsEverybody` | world.go:149-194 | with a fixed world of n at least 2 naras the journey is complete exactly after n hops, which permute the world, and every intermediate chain verifies |
| `Journeys.JourneyGoesOn` | world.go:300-340 | an unfinished journey can always take one step further, so it does complete |
| `Journeys.ExtendedChainVerifies` | world.go:48-144 | a nara that signs with its own key extends a verifying chain to a verifying chain |
| `Journeys.RewardsTotal` | world.go:197-215 | a complete journey through n naras pays 10 + 2 (n - 1) in all |
| `Journeys.SignaturePinsPast` | world.go:83-144 | two verifying chains that share a signature share the journey and every hop before it, as each signature covers all of it |
| `Journeys.ReplacedHopIff` | world.go:83-144 | in a verifying chain a hop can be replaced by another one that keeps name and signature if and only if it is the last; any other replacement verifies only at the end and if it is signed itself |
| `Journeys.LastStampIsUnsigned` | world.go:61-80 | the last hop's timestamp and stamp can be replaced without the chain failing |
| `Journeys.TailCanBeCut` | world.go:125-144 | a prefix of a verifying chain verifies |

## Left out

- Replicas.LedgersAgree: says nothing about observations, whose compaction depends on the order of arrival; assumes that no add prunes, since pruning is order dependent too, that the ID of an acceptable event stands for one timestamp and for what its text and its subject say (as `EventIds.ComputedIdsAreHashes` shows of computed IDs), and that pings to one target have different timestamps.
- CheckpointTrust.AgreedCheckpointsVerify: speaks of checkpoints that a value group agreed on; for those that approvals made, `CheckpointConsensus.HonestSignaturesVerify` counts the signatures that verify.
- TrimmedMean.MinorityCannotMove: bounds the mean only where the sum of the kept values is a 64-bit number; where it is not, the sum wraps around (`TrimmedMean.LargeMeanIsNegative`). `Opinions.OpinionResistsMinority` and `CheckpointTrust.RoundTwoResists` ask for the bound of `TrimmedMean.MajorityFits`, which callers can check.
- RateLimit.DecisionsAgree: for checks in time order; the source compares whatever timestamps it is given.
- Uptime.UptimeIsMeasure: reports of one second must not contradict each other, one ONLINE and one not; if they do, the unstable sort decides (`Uptime.ContradictionsDependOnSort`). So for all results on uptime.
- CheckpointLiveness.PublishedProposalIsFinalized: speaks of a service that goes on running; shutting it down stops the timers.
- CheckpointServices.CheckpointService: pending proposals are entries of a sequence, not heap objects; a pointer is an index, so aliasing is that of indices.
- CheckpointServices.CheckpointService.StoreCheckpoint: stands for handing the checkpoint on to the ledger; whether `AddEvent` then takes the event is decided in `SyncLedgers`.
- Paging.FetchAll: the ledger does not change while the client pages through it, and the page size is positive.
- World.WorldMessage.ChooseNextNara: clout scores are integers, compared like the source's floats; NaN is not part of the model.
- Payload pointers that are nil although the service says otherwise: one constructor stands for an event without its payload, refused as invalid; the panics some of these cause are not modelled.
- Emitter signatures and emitter IDs of events, event listeners, and the IDs that payloads carry beside names.
- Round-trip times as floats: only whether one is positive, and its rendering.
- 64-bit overflow outside the trimmed mean, cursors and cluster weights, such as differences of extreme timestamps.
- Errors returned by projection handlers; the modelled handlers never return one.
- Clout, trends, aura colours, coordinates, buzz, teasing, personality filters, event sampling: shallow branching, floats or randomness.
- HTTP, MQTT, tsnet, the web UI, logging and the boot and background synchronisation loops beyond the paging client: input and output around the core.
- The 24-hour check before a proposal: proposals may be made at any time here, which only adds runs.
- Checkpoints and attestations of protocol version 1: votes and proposals of that version are refused as in the source, and nothing more is said about them.
- Journey timeouts, stamps as emoji, and the social events that announce journeys.
- The `runtime/` packages: adapters there are stubs.
