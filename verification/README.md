# framelog: the telemetry log, verified

framelog samples a laptop's power-limit telemetry into SQLite: GPU throttle masks, context snapshots from several
sources, the transitions between them and the journal events around each transition. It prunes and resets that
database, summarises windows of it, charts it, exports it and analyses the exports. This project models that log as a
state machine together with the readers that must agree with it, and proves what the parts owe each other.

- `Rows`, `Names`, `Text`, `Division`: tables, WHERE, ORDER BY and SUM; names in string order; the string operations of
  the two text formats; integer quotients.
- `Throttle`, `Database`: masks and their diff; the nine tables, their foreign keys, the statements and the queries.
- `Collector`: the machine. A step stores one reading, runs a context tick, delivers a journal event, prunes, resets,
  restarts the process, and so on; a quota says at which INSERT the database fails.
- `TelemetryStore`, `Service`, `Context`: the store, the collector service and the context registry as objects with
  the loops of the source, proved against the machine's functions; `TickRows`: what a tick leaves in its tables, row by
  row.
- `Retention`, `Invariants`, `Growth`, `Lookups`: what every run keeps.
- `Replay`, `Processes`: the flag log as a delta encoding of the samples, within a process and across processes.
- `ContextRuns`, `ContextTicks`, `ContextReplay`: what the registry logs, what a tick stores of it, and the stored log
  against the stored values.
- `Summaries`, `WindowSummaries`, `Journal`, `Export`, `Analysis`, `Reports`: the readers; `Rules`: the analysis rules
  in figures.
- `Agreement`, `RecentWindows`, `Backup`, `BackupRuns`, `Charts`: the statements that cross reader and writer.
- `Downsample`, `Durations`, `Pmf`: smaller algorithms. `Scenarios`: the short runs the counterexamples start from.

Six results are about what does not hold, and about when it does.

- A journal event reaches its own transition or is refused, except where a reset came between the transition and the
  event and the id is in use again (`DeliveryIsRightExactly`). `ResetMisattaches` is such a run, with the five quiet
  seconds both callers of the reset wait for.
- The dump taken before a reset does not hold all that the reset deletes while others write: it does exactly when no
  table holds a row numbered since the dump (`BackupUnderWriters`). `run_reset` checks after its dump, which leaves what
  is stored after the check and journal events since the dump (`ResetUnderWriters`, `ResetLosesEvent`); `run_capture`
  checks before it, which covers nothing that follows the dump (`CaptureLosesReading`).
- A transition INSERT that fails loses its change, because the remembered mask moves first: the sample's own log reaches
  its flags exactly when no INSERT failed (`LostChangeIsVisible`). A replay is then wrong about a lost flag until the log
  mentions that flag again, and right from there on (`LostUntilLoggedAgain`). A failed sample INSERT is harmless. The
  context log loses changes the same way (`LostContextChange`, `FailingTickMisleads`, `ContextRecovers`).
- Where one process ends and the next begins, the flags in which the two boundary samples differ stay wrong in a replay
  until they are logged again (`BoundaryCost`).
- The summary counts exactly the chart's edges unless the window starts at the device's oldest sample and that sample's
  own log touches the flag (`ChartEdgesMatchSummary`), as after a prune (`PrunedWindowDiffers`). They differ by at most
  one in any case.
- A context value can drift without bound below the threshold (`SilentDriftIsUnbounded`), but over any k ticks by less
  than k deltas (`SilentRunIsBounded`).

One place where the source says something else than it does, and the model follows the code: the truncation warning
(src/store/export.rs:211) speaks of the oldest events being omitted, while the query keeps the oldest
(`TruncationKeepsEarliest`).

Timestamps are integers, masks are 64-bit, powers 32-bit, temperatures, percentages and context numbers are exact
reals. Bit decoding is an arbitrary table of 64 names in which only the placeholder repeats.

## Model

| member | source | states |
|---|---|---|
| Throttle.MaskIsSumOfBits | src/throttle.rs:202-206 | every 64-bit mask is the sum of the weights of its set bits, over all 64 of them; the weight of bit 0 is 1 and each next one is double |
| Throttle.OneBitIsListed | src/throttle.rs:52-59 | a mask that is the weight of bit k lists exactly the name of bit k if it is known, for every k below 64 |
| Throttle.OneBitIsOneChange | src/throttle.rs:202-215 | two masks that differ in bit k alone give exactly that one change, in either direction, if the bit is known, and none otherwise, for every k below 64 |
| Throttle.ActiveFlagsMeaning | src/throttle.rs:52-59 | `active_flags` lists exactly the known flags of a mask and never repeats a name |
| Throttle.FlagActiveIsListed | src/throttle.rs:61-66 | for every name but the placeholder of undecoded bits, `flag_active` and the stored list agree |
| Throttle.DiffFlags | src/throttle.rs:202-215 | the 64-bit loop computes `Diff` |
| Throttle.DiffMeaning | src/throttle.rs:202-215 | a change is produced exactly when a known flag's membership differs between the two masks, with the right old and new value, and no flag changes twice |
| Throttle.DiffReplays | src/throttle.rs:202-215 | applying the diff of two masks to the old mask's known flags gives the new mask's known flags |
| Throttle.PartialDiffFallsShort | src/throttle.rs:202-215 | no strict prefix of a diff reaches the new flags, so every lost change is visible |
| Throttle.MaskRoundTrip | src/store/mod.rs:336 | a mask cast to the signed column and back is the same mask, the column is wide enough, and the value is the mask or the mask minus 2^64; the cast back is at src/store/mod.rs:1427 |
| Rows.SortBreaksTiesById | src/store/mod.rs:443 | on a table in id order the listing order is by time with ties broken by id |
| Rows.SelectSort | src/store/mod.rs:1198-1238 | filtering commutes with ordering, so a part of a listing is the listing of the part |
| Rows.SelectIsAt | src/analyze.rs:945-960 | filtering keeps exactly the rows a condition holds of, in their order |
| Names.LessMeaning | src/summary.rs:55 | names are ordered where they first differ, a proper prefix before the longer name |
| Database.ListSamplesMeaning | src/store/mod.rs:1198-1238 | a sample listing holds each sample from the first to the last millisecond, of the named device if one is named, once and oldest first |
| Database.ListTransitionsMeaning | src/store/mod.rs:402-460 | a transition listing holds those of the window and device, all of them or as many as the limit, and the count is their number |
| Database.ListContextTransitionsMeaning | src/store/mod.rs:742-800 | the same for the context transitions of the window |
| Database.ListContextValuesMeaning | src/store/mod.rs:1271-1300 | a value listing holds every value of the window once, oldest first |
| Database.ListContextSnapshotsMeaning | src/store/mod.rs:1240-1269 | so does a snapshot listing |
| Database.LatestSystemInfoMeaning | src/store/mod.rs:1154-1170 | the latest inventory is one no stored inventory is newer than, of equal times the last inserted, and none exactly when none is stored |
| Retention.PruneStaysLinked | src/store/mod.rs:1010-1075 | after every single DELETE of a prune every remaining child still has its parent, given that children carry their parent's time |
| Retention.ResetStaysLinked | src/store/mod.rs:1098-1135 | after every single statement of a reset every remaining child still has its parent; the end is the database of a fresh file, id sequences included |
| Retention.PruneTwice | src/store/mod.rs:1010-1096 | pruning to c1 and then to c2 is pruning to the later of the two, in every table and including the kept newest system inventory |
| TelemetryStore.StraddlersAbort | src/store/mod.rs:1031-1062 | a prune that leaves the foreign keys intact had no row staying behind its parent |
| TelemetryStore.PruneStaysIntegral | src/store/mod.rs:1010-1075 | without such rows the foreign keys hold after each of the nine DELETEs |
| TelemetryStore.StatementBalance | src/store/mod.rs:1012-1074 | per table: rows before = rows after + rows the DELETE's condition matches |
| TelemetryStore.AffectedInTransaction | src/store/mod.rs:1012-1074 | no statement of a prune changes what a later one deletes |
| TelemetryStore.Store.PruneOlderThan | src/store/mod.rs:1010-1096 | succeeds exactly when no row outlives its parent; then the tables are the pruned ones and each reported count balances its table; otherwise nothing changes |
| TelemetryStore.Store.ResetDataCollection | src/store/mod.rs:1098-1135 | from any database with intact foreign keys the ten-statement transaction succeeds and empties everything |
| TelemetryStore.Store.InsertSample | src/store/mod.rs:321-347 | appends one row under the next id or, when the database fails, changes nothing |
| TelemetryStore.Store.InsertTransition | src/store/mod.rs:349-374 | refused without a parent sample; otherwise appends one row under the next id; intact foreign keys stay intact |
| TelemetryStore.Store.InsertJournalEvent | src/store/mod.rs:376-400 | refused without a parent transition; otherwise appends one row; intact foreign keys stay intact |
| Service.CollectorService.TickGpu | src/service.rs:146-188 | the loops over samples and changes leave exactly the state of the machine's GPU tick for any fault position, and fail exactly when it does; no transition insert is refused for its foreign key; a tick that succeeds has appended every reading, and room for 65 inserts a reading is always enough |
| Service.CollectorService.TickContext | src/service.rs:190-242 | the snapshot, value and transition loops leave exactly the state of the machine's context tick for any fault position; with room for its snapshots and values every one of them is stored |
| Service.CollectorService.FileEvents | src/service.rs:264-292 | for both kinds of lookup: while the transition is stored the journal gains one row per event whose insert does not fail, in order, under the next ids, with the transition's id, the event's time and message, until the quota runs out; a failed insert loses that event alone; without the transition neither database nor quota changes |
| Service.CollectorService.PruneIfEnabled | src/service.rs:89-122 | zero hours keep everything and a refused prune changes nothing; on a linked database, as every reachable one is, no prune is refused, and a sample, transition, snapshot, value, context transition or marker stays exactly when its time is at least now - hours * 60 * 60 * 1000, or the least 64-bit number if that is greater; a journal event stays with its transition and the newest inventory in any case |
| Service.FiledIsARun | src/service.rs:264-292 | a lookup task is one delivery step per event whose insert does not fail, in order, with its time and message, up to the quota, so statements about all runs cover it |
| Collector.GpuTickIsARun | src/service.rs:146-188 | a whole tick is a sequence of single-reading steps, so statements about all runs cover it |
| TickRows.TickEventsAre | src/service.rs:146-188 | these steps are the readings in order, all of them while no insert fails |
| TickRows.GpuTickRows | src/service.rs:146-188 | a tick appends one row per reading, in order, up to the first failing insert, each with the reading's time, device, name, raw word, power and temperature, its mask as the signed column holds it and its flags; each device's last mask is remembered; what was stored is what was used of the quota |
| TickRows.ContextTickRows | src/service.rs:190-242 | with room for them, a context tick appends one row per snapshot and one per value, in order, at the tick's time: a value under its snapshot's id, with its source, source.key, number and text |
| TickRows.GpuTickSpawns | src/service.rs:169-184 | whatever fails, a GPU tick spawns one lookup per transition it stores, in order |
| TickRows.ContextTickSpawns | src/service.rs:220-239 | so does a context tick |
| TickRows.RestartForgets | src/service.rs:32-41 | a new process remembers no mask, no snapshot and no lookup, on the database as it was |
| TickRows.LookupLeaves | src/service.rs:244-294 | a finished lookup leaves and the others stay, in order |
| Invariants.StepKeeps | src/service.rs:146-242 | every step, with an insert failing anywhere, keeps: numbered tables, children with their parent's time, flag lists faithful to masks, lookups that can only meet their spawner |
| Invariants.ReachableInv | src/service.rs:58-87 | all of that holds after every interleaving of ticks, deliveries, prunes, resets, restarts and faults |
| Invariants.ReachableIntegrity | src/store/mod.rs:177-247 | no reachable state has a dangling row, nor does any state between the statements of a prune or reset started there |
| Growth.RunGrows | src/store/mod.rs:161-247 | between two resets, whatever a table holds later it held before, or holds under an id above the table's old sequence and, for collected rows, with a time after any bound on the readings |
| Lookups.DeliveredToItsSpawner | src/service.rs:244-294 | without a reset since the lookup was spawned, its event is accepted exactly when the spawning transition is still stored, and no other row carries its id |
| Lookups.EpochCountsResets | src/store/mod.rs:1115-1132 | the history variable counts the resets of a run |
| Lookups.DeliveryIsRightExactly | src/service.rs:244-294 | over every run whose readings after a reset are later than the spawner, for throttle and context lookups: an event however late meets its spawner or is refused exactly when no reset came since or no row carries the id |
| Lookups.ResetOrphansLookups | src/store/mod.rs:1098-1135 | however much later than the reset, no lookup pending at it finds its transition stored; its events are accepted exactly when the id is in use again, and then by another transition |
| Lookups.ResetMisattaches | src/store/mod.rs:1115-1132 | a run in which the reset passes its quiet check (src/main.rs:456) while a lookup is pending, the next reading reuses the id, and the event is filed under a different transition |
| Replay.CleanRunIsLogged | src/service.rs:146-188 | over every run in which no transition insert of the device fails, each stored sample after the first of its process was logged as the exact difference from the stored sample before it |
| Replay.RunReplays | src/service.rs:146-188 | starting from the device's oldest stored sample of the running process and applying its logged transitions gives the known flags of every later one; with ordered time also after any prunes |
| Replay.PruneKeepsLogged | src/store/mod.rs:1031-1036 | with ordered time the surviving samples of a device are a suffix of its run and keep their complete logs |
| Replay.PruneKeepsLogOf | src/store/mod.rs:1012-1036 | a sample that survives a prune keeps all of its transitions |
| Replay.CleanRunFirst | src/service.rs:150-167 | over the same runs the oldest sample was logged as the exact difference from some mask: that of a sample since pruned, one remembered across a reset, or its own |
| Replay.ProcessStaysSilent | src/service.rs:153-159 | as long as no reset and no prune takes a process's first sample of the device, that sample was logged without any transition |
| Replay.ReplayRecovers | src/service.rs:146-188 | replaying over any flags, right or wrong, a flag is right at a later sample exactly when it was right at the oldest or the log between them mentions it |
| Replay.LostChangeIsVisible | src/service.rs:150-181 | a stored sample's own log reaches its flags exactly when no insert of it failed: the remembered mask has already moved on |
| Replay.LostUntilLoggedAgain | src/service.rs:150-181 | whatever inserts of a sample failed, over every clean continuation a replay from that sample is right about a flag exactly when it was right there or the log has mentioned the flag since |
| Processes.EveryProcessReplays | src/service.rs:146-188 | for every process of every run: any past, a stretch without failing transition inserts, then anything but a reset, faults and prunes and restarts included: the stretch's samples that are still stored replay from the oldest of them |
| Processes.BoundaryCost | src/service.rs:153-159 | replaying on from the last sample of one process, a flag is right at a sample of the next exactly when the two samples at the boundary agree on it or it was logged since |
| Context.DefaultDiff | src/context/mod.rs:127-152 | the loop over values computes the default changes |
| Context.ThresholdDiff | src/context/mod.rs:154-197 | the loop over values computes the threshold changes, nothing without two healthy snapshots |
| Context.ContextRegistry.TransitionsForTick | src/context/mod.rs:103-124 | logs each snapshot against the remembered one of its source and replaces that on every tick |
| ContextRuns.SourcesDoNotInterfere | src/context/mod.rs:103-124 | however sources interleave, the log of one source is what it would log alone |
| ContextRuns.LogOfTicks | src/context/mod.rs:103-124 | where one tick ends and the next begins does not change the log |
| ContextRuns.DefaultLogsFields | src/context/mod.rs:127-152 | a held key is logged exactly when its number differs, or when it has none and its text differs; the change carries both values, each the number or without one the text (src/model.rs:76-84) |
| ContextRuns.NewKeyLogsFields | src/context/mod.rs:127-152 | a key not held before is logged exactly when it has a number or a text, as a change from null |
| ContextRuns.DefaultLogTracksValues | src/context/mod.rs:127-152 | at every tick, for each key with a number or a text, the newest logged value is its number, or without one its text |
| ContextRuns.DefaultOldValueIsLogged | src/context/mod.rs:127-152 | each change starts from the newest logged value, or from null exactly when the previous snapshot, an error snapshot for instance, held nothing under the key |
| ContextRuns.ThresholdLogsExactly | src/context/mod.rs:154-197 | between two healthy snapshots a ruled numeric key is logged exactly when it moved by at least the rule's delta |
| ContextRuns.ThresholdLogsFields | src/context/mod.rs:154-197 | between two healthy snapshots a key without a rule or without two numbers is logged exactly when its number differs, or when it has none and its text differs |
| ContextRuns.ThresholdNeedsHealth | src/context/mod.rs:154-164 | without two healthy snapshots nothing is logged |
| ContextRuns.CustomLogsAll | src/context/mod.rs:103-124 | a custom diff is logged as the source's own list of changes |
| ContextRuns.SegmentLogSplits | src/context/mod.rs:103-124 | the log of any history is the log of a past followed by the log of the ticks since its last snapshot |
| ContextRuns.SilentRunIsBounded | src/context/mod.rs:103-197 | after any past, over k healthy ticks that log nothing for a ruled key its value moves by strictly less than k deltas |
| ContextRuns.SilentDriftIsUnbounded | src/context/mod.rs:119-121 | for any amount some silent run drifts by at least that much, since the remembered snapshot is replaced on silent ticks too |
| ContextReplay.StoredLogTracksValues | src/service.rs:190-242 | over every run whose context inserts succeed, restarts included: for each stored value with a number or a text of a source with the default policy, the newest stored transition of its key up to its snapshot leads to the number, or without one to the text; with prunes, resets and ordered time it does or none is left |
| ContextReplay.LostContextChange | src/service.rs:205-239 | after a tick with an insert failing anywhere the newest stored value is the new one exactly when the change's insert was reached or it already was; the registry has moved on (src/context/mod.rs:119) in any case |
| ContextReplay.FailingTickMisleads | src/service.rs:205-239 | a run after which the registry holds one value and the newest stored transition leads to another |
| ContextReplay.ContextRecovers | src/service.rs:190-242 | from any state on, over runs whose context inserts succeed, the newest stored value of a held key is the held one exactly when the key was logged since or it was right to begin with |
| Summaries.ActivityIsSortedAndComplete | src/summary.rs:37-57 | the activity list strictly ascends by name and lists exactly the flags some row of the window mentions |
| Summaries.MaxPowerMeaning | src/summary.rs:59-60 | the maximum is the power of some sample and bounds all of them; none exactly when no sample has a reading |
| Summaries.AvgPowerMeaning | src/summary.rs:59-64 | the average is over exactly the samples with a reading: times their number it is at most their sum, and one more would exceed it; none exactly when no sample has a reading |
| Summaries.EntryMeaning | src/summary.rs:37-54 | a flag's entry counts the transitions to on and to off, and its percentage times the number of samples is a hundred times the listings |
| Summaries.StickyProchotMeaning | src/throttle.rs:145-162 | the warning is given exactly when both PROCHOT flags are listed at least 95 times per 100 samples and no transition of the window is of either |
| Summaries.SummarySort | src/summary.rs:8-84 | a summary does not depend on the order of its rows |
| WindowSummaries.SummarizeWindow | src/summary.rs:8-84 | the hash-map loops, whatever order the maps are walked in, compute the specified summary |
| WindowSummaries.WindowSummarySql | src/store/sql_summary.rs:17-90 | the grouped queries and the merging loops compute the same specified summary of the tables, plus the CPU warning |
| WindowSummaries.FloorOfQuotient | src/store/sql_summary.rs:118-123 | truncating the exact mean is the integer division of the loop at src/summary.rs:64-65 |
| WindowSummaries.SummariesAgree | src/store/sql_summary.rs:17-195 | for every table content, window and device with untruncated lists, the in-memory summary of the listed rows is the SQL summary, up to the SQL summary's extra CPU warning |
| Journal.JournalFor | src/store/mod.rs:1302-1315 | the loop over chunks computes `EventsFor` |
| Journal.EventsForMeaning | src/store/mod.rs:1302-1345 | the result ascends by time and holds each stored event once per chunk that mentions its transition |
| Journal.ChunkedIsUnchunked | src/store/mod.rs:1302-1345 | it is a permutation of one unchunked query exactly when no id with stored events occurs in two chunks |
| Journal.DistinctIdsOneQuery | src/store/mod.rs:1302-1345 | for duplicate-free ids of any number: a time-ordered permutation of exactly the events of those transitions |
| Journal.FewIdsOneQuery | src/store/mod.rs:1302-1315 | up to 500 ids are one query, whatever repeats among them |
| Journal.RepeatedIdRepeatsEvents | src/store/mod.rs:1309-1311 | an id repeated across a chunk boundary does return its event twice |
| Export.WarnedIsTruncated | src/store/export.rs:208-218 | an export carries a warning exactly when one of its transition lists is truncated |
| Export.TruncationKeepsEarliest | src/store/mod.rs:440-444 | a truncated list is the earliest transitions: nothing left out is older than anything kept |
| Export.RefusalMeaning | src/store/export.rs:147-167 | refused are exactly an inverted window and, with the limits on, one longer than 604 800 000 ms or of more than 500 000 samples |
| Export.AnalysisRefusal | src/store/export.rs:59-84 | an analysis is refused so with the limits on, counting the stored samples of the window and device |
| Export.ExportRefusal | src/store/export.rs:147-167 | so is an export, with the limits as they are set |
| Export.ContentsEvents | src/store/export.rs:100-116 | a bundle holds each stored journal event of its transitions once, ordered by time, and no other |
| Export.ExportAdds | src/store/export.rs:169-218 | an export adds the snapshots of the window, every device with a stored sample (`DevicesMeaning`) and the totals of lists longer than 100 000 (`TruncationReported`) |
| Agreement.ReportIsReference | src/analyze.rs:166-256 | the report of any part of an untruncated bundle is a function of the store, the window and the device, not of the bundle |
| Agreement.SubWindowAgrees | src/analyze.rs:166-293 | analysing a sub-window and device of an export without warnings gives the report of a bundle built directly for them, whether summaries were cached, recomputed or absent |
| Reports.VerdictMeaning | src/analyze.rs:746-757 | the verdict names the power cap exactly when its rule fires, else the frequency lock, else the thermal shape; no pattern exactly when no rule fired |
| Reports.RankingIsStable | src/analyze.rs:744 | findings are ordered by rank, and those of one rank stay in firing order |
| Reports.ReportedIsFired | src/analyze.rs:743-744 | ranking neither drops nor adds a finding |
| Rules.SelectedInput | src/analyze.rs:166-216 | the options decide over the bundle's own window and device, and of every list a report looks at exactly what lies in them |
| Rules.SelectedSummary | src/analyze.rs:217-239 | a cached summary is used exactly when it is of the selected window and device; else one is computed, unless nothing was sampled |
| Rules.FiringOrder | src/analyze.rs:388-741 | findings fire in the order of the rules |
| Rules.VerdictInFigures | src/analyze.rs:622-757 | the same in figures: at least four of the six signs on a part with throttle bits; else half of the frequency readings in a band; else running hot |
| Rules.LatestMeaning | src/analyze.rs:906-929 | number, text and switch of a key are read off a row of the key that no other is newer than, of equal times the last; nothing is read exactly when the key has no row or that row lacks the field |
| Rules.AcRule | src/analyze.rs:486-509 | the charger finding is reported exactly when the newest charger value is missing or says no, less surely when it says nothing, with the ids of the transitions under power. in order |
| Rules.CpuLockRule | src/analyze.rs:388-456 | the frequency lock is reported exactly when at least half of the readings lie in 500-620 or 1350-1450 MHz, and surely from four fifths on |
| Rules.PmfRule | src/analyze.rs:458-484 | the PMF finding is reported exactly when a part with throttle bits has no number as newest spl_mw and sppt_mw |
| Rules.StickyRule | src/analyze.rs:511-535 | the sticky-status finding is reported exactly when, on a part with throttle bits, of at least five samples nine tenths list both PROCHOT flags and nine tenths of the raw words are bits 9 and 10 alone |
| Rules.ThermalRule | src/analyze.rs:537-582 | the thermal finding is reported exactly when a thermal flag is on 15 of 100 samples, PROCHOT flags not counting while they look stuck, or 85 degrees were reached |
| Rules.PowerLimitRule | src/analyze.rs:584-620 | the power-limit finding is reported exactly when SPL is on a tenth of the samples or was logged as reached and nothing ran hot |
| Rules.PowerCapRule | src/analyze.rs:622-706 | the power-cap finding is reported exactly when four of its six signs show on a part with throttle bits, surely with five and a PMF limit on record; the newest value of each key decides its sign |
| Rules.SleepRule | src/analyze.rs:708-741 | the sleep finding is reported exactly when two transitions lie under system., gpu_power. or profile., and names all of them in order |
| Rules.UnlistedPct | src/analyze.rs:874-889 | without an entry in the summary a flag's percentage is the share of the samples that carry it |
| Rules.ListedPct | src/analyze.rs:874-880 | else it is that of the first entry of the flag |
| Rules.RankOrder | src/analyze.rs:854-866 | findings rank by severity first and by confidence within a severity |
| Rules.WarnedWhen | src/analyze.rs:264-292 | each warning of a report is given exactly when its condition holds |
| Rules.CpuWarningsMeaning | src/context/cpu.rs:270-285 | a summary of the tables adds the frequency warning exactly when half of the readings lie in one of the two bands |
| Agreement.CachedIsRecomputed | src/analyze.rs:217-239 | the cached SQL summary and the recomputed one carry the same figures |
| Agreement.SameThrottleQuotes | src/analyze.rs:796-806 | a finding quotes the same throttle journal events, each once, from the export and from the direct bundle |
| Agreement.SameContextQuotes | src/analyze.rs:801-806 | the same for context journal events |
| Agreement.ActivePctIsShare | src/analyze.rs:874-889 | cached, recomputed or counted, the percentage is the share of samples carrying the flag exactly when no sample lists it twice |
| Agreement.CollectedPctIsShare | src/analyze.rs:874-889 | on samples the collector stored all three ways agree |
| RecentWindows.PruneIsInvisible | src/store/mod.rs:1010-1096 | for a window from the cutoff on, the analysis bundle is the same before and after, and an export is too but for its device list |
| RecentWindows.SameSummary | src/store/mod.rs:604-611 | the window summary is the same before and after |
| RecentWindows.SameLookups | src/store/mod.rs:1012-1030 | so are the journal events of the window's transitions |
| RecentWindows.SameLatestInfo | src/store/mod.rs:1064-1073 | and the latest system inventory |
| RecentWindows.DevicesAfterPrune | src/store/mod.rs:1392-1405 | the device list loses exactly the devices without a recent sample |
| Backup.BoundsCoverEverything | src/store/mod.rs:946-992 | bounds taken from samples and snapshots alone cover every transition, value and context transition |
| Backup.NoBoundsNoData | src/main.rs:500-507 | there are no bounds exactly when every telemetry table is empty |
| Backup.QuietMeaning | src/store/mod.rs:995-1007 | the check passes exactly when every stored sample and snapshot is at least 5000 ms old |
| Backup.BoundsMeaning | src/store/mod.rs:946-992 | the bounds are times of stored samples or snapshots that none lies outside of, and there are none exactly when neither table has a row |
| Backup.BackupLosesNothing | src/store/export.rs:42-55 | the dump over the bounds holds every sample, transition, journal event, snapshot, value and context transition, each once, exactly when it carries no warning and its device filter excludes no stored sample |
| Backup.ReachableBackup | src/main.rs:427-457 | so it is for every reachable store |
| Backup.RunReset | src/main.rs:410-463 | with others writing after the dump and after the check: resets exactly when confirmed, when no backup options conflict, and when the store the check finds is quiet; the backup is the dump of the store it started from |
| Backup.BeginCapture | src/capture.rs:42-72 | with others writing after the check and after the dump: nothing is deleted unless the store was quiet at first; the dump under the capture's device filter is of the store after the check; then the store holds the start marker and the inventory only |
| BackupRuns.BackupUnderWriters | src/main.rs:427-457 | for every reachable store, a dump without truncation whose filter excludes no stored sample, and anything others do afterwards short of resetting: it holds every row then stored exactly when no table holds a row numbered since |
| BackupRuns.WritersAreNoticed | src/store/mod.rs:995-1007 | if the check passes and what was collected since is current, then no sample, snapshot, transition, value or context transition numbered since is stored |
| BackupRuns.ResetUnderWriters | src/main.rs:427-457 | so if the check passes and readings since the dump are current, the backup of a reset holds all that is deleted exactly when nothing was collected between check and reset and no journal event stored since the dump |
| BackupRuns.ResetLosesEvent | src/main.rs:427-457 | a run in which a reset's dump is complete, its check passes, and a journal event stored between them is in no backup |
| BackupRuns.CaptureLosesReading | src/capture.rs:42-59 | a run in which a capture's check passes, its dump is complete, and a reading stored before the reset is in no backup; the check would have failed after the dump |
| Charts.ChartOnesMatchSummary | src/store/mod.rs:531-543 | in every reachable state the ones of an undownsampled named flag series are the summary's active samples |
| Charts.OnesAreListings | src/throttle.rs:52-66 | with the exact difference for the placeholder name, which is charted but never listed |
| Charts.WholeSeries | src/store/mod.rs:531-543 | a chart without a limit, or within it, has a point per listed sample, at its time |
| Charts.ThinnedSeries | src/store/mod.rs:545-548 | beyond the limit it has the points of every so many samples, with the least stride that meets the limit |
| Charts.ChartEdgesMatchSummary | src/store/mod.rs:496-554 | for one device and process the series is the run's slice, and the summary's assert and clear counts are its rising and falling edges plus what the oldest sample logged itself: exactly the edges if and only if the window starts later or that log does not mention the flag, and never more than one apart |
| Charts.RunChartEdges | src/store/mod.rs:496-554 | the same after every clean run with ordered time, whatever was pruned, reset or restarted |
| Charts.PrunedWindowDiffers | src/store/mod.rs:496-554 | a clean, ordered run with a prune after which a window counts one assertion and its chart shows no edge |
| Charts.ProcessChartEdges | src/store/mod.rs:496-554 | in a process whose first sample of the device no prune and no reset took, the counts are exactly the edges in every window of it |
| Charts.EdgesAlternate | src/throttle.rs:202-215 | rising minus falling edges is the difference of the flag at the two ends |
| Charts.WindowCuts | src/store/mod.rs:505-529 | every window of an ordered run with samples of this process only cuts a slice out of it |
| Downsample.ByStrideThins | src/store/mod.rs:87-97 | at most the requested number of points, first kept, exactly the stride between neighbours, no more than a stride to the end |
| Downsample.CeilOfCeil | src/store/mod.rs:91 | ceil(n / ceil(n / m)) is at most m |
| Downsample.ByStrideInPage | static/datasource.js:188-196 | the page keeps the server's points and adds the last one exactly when the stride does not land on it, so both ends of the series are always kept |
| Durations.DurationRoundTrip | src/capture.rs:172-222 | every whole-second duration from 1 to 2^64 - 1 survives printing and parsing |
| Durations.SaturationBoundary | src/capture.rs:184-197 | a printed count denotes its product until that leaves 64 bits and the maximum from then on |
| Durations.ParseIsCanonical | src/capture.rs:172-222 | whatever text was accepted is positive and prints to a text accepted as the same duration |
| Durations.ZeroIsRefused | src/capture.rs:204-211 | zero is the printed duration that is refused |
| Durations.HoursPrinted | src/capture.rs:213-222 | whole hours are printed in hours; other whole minutes are in minutes (`MinutesPrinted`) and the rest in seconds (`SecondsPrinted`) |
| Durations.BareSeconds | src/capture.rs:198-201 | a bare number is seconds, zero is refused, and so is one beyond 64 bits |
| Durations.OtherUnitsRefused | src/capture.rs:198-201 | a text that ends in neither a digit nor one of the three units is refused |
| Durations.SpaceBeforeUnit | src/capture.rs:177-197 | whitespace between a number and its unit does not matter |
| Durations.MarginsIgnored | src/capture.rs:172-176 | whitespace around a text is ignored, and exactly a blank text is refused as empty |
| Text.ParseDecimal | src/capture.rs:178-181 | printing a number and parsing it with a bound it fits gives it back |
| Text.NumeralsAccepted | src/capture.rs:178-181 | only digits, after a plus sign or not, are accepted as a number; leading zeros do not count |
| Text.DecimalNotation | src/capture.rs:213-222 | numbers are printed in decimal notation: ten digits in their order, and a further digit means ten times as much |
| Text.WordsSeparate | src/context/pmf.rs:83 | words are what whitespace of any kind separates |
| Pmf.ParseCurrentPowerLimits | src/context/pmf.rs:81-123 | the index loop terminates on every token list and computes `Scan`, incomplete limits giving nothing |
| Pmf.ParseLine | src/context/pmf.rs:81-123 | any line of fields, known or unknown keys in any order, attached or detached values, parses to the last value of each known key |
| Pmf.KernelLineRoundTrip | src/context/pmf.rs:260-268 | printing any limits in the kernel's layout, absent ones left out, and parsing gives exactly them when spl or sppt is among them and nothing otherwise |
| Pmf.MissingValueIsSkipped | src/context/pmf.rs:91-99 | a bad detached value is read again as a key, so a key without a value loses nothing that follows |
| Pmf.LimitsToValues | src/context/pmf.rs:133-157 | pushes the present limits under their keys in table order |
| Pmf.LimitsAreHeld | src/context/pmf.rs:133-157 | a snapshot of them holds each limit under its own key, and none for an absent one |
| Pmf.KeysOfLimits | src/context/pmf.rs:105-114 | the seven keys of the kernel's line each set their own limit and any other key sets none |
| Pmf.PmfLogsExactly | src/context/pmf.rs:16-45 | between healthy readings a limit is logged exactly when it moved by a watt or more, or, for whole-degree temperatures, at all |

## Left out

- sysfs, procfs, D-Bus, debugfs, journald and hardware decoding: readings, snapshots and journal events are arbitrary
  inputs of the steps.
- Web routing, HTML, playback, CLI parsing, file writing, Markdown and prompt rendering, finding and warning texts and
  the evidence items of a finding other than its journal events: presentation.
- The SQL engine, WAL, vacuum, the connection pool and JSON encoding: statements are functions on tables, a
  transaction is one step whose inner states are covered separately.
- Columns nothing here reads: `stapm_limit_mw`, `current_stapm_limit_mw`, `extra_json`, `raw_json`, `error_message`,
  journal unit, priority and cursor, and the parts of a system inventory.
- Floating-point rounding and NaN: reals are exact, so SQLite's AVG is the exact mean.
- Overflow of the 64-bit power sum, which needs more than 2^32 samples in one window, and of the retention hours
  times milliseconds, which needs more than 2.5 * 10^12 hours.
- Asynchrony inside one reading, one context tick or the queries of one dump or report: each is one step. A delivery,
  prune or reset by another process happens between them.
- Listed samples and snapshots keep their ids here, which the source's records drop; the device list of an export is a
  set instead of a list ordered by address; format and version fields and the time of an export are not modelled.
- Flag, direction and newest-first filters of the transition listing, `metric_series` and `context_series`: the same
  shapes as what is modelled, and no reader here uses them.
- The enumeration behind `flag_name` and the catalogue of flags: table content.
- Custom context diffs: an input of the observation, so nothing is claimed about what they log.
- `run_analysis` pushes into lists as it goes; here its rules are expressions over the same inputs, in the same order.
- Downsampling in the page tells the last point by the identity of its object; here by its index, which is the same
  because the page's lists hold each object once.
- Capture markers and all but the newest system inventory are not in any bundle, so a reset deletes them for good.
- The capture's collecting phase, its final export and its files: they call what is modelled here.
- Replay.RunReplays: covers the running process; `Processes.EveryProcessReplays` covers the others and
  `Processes.BoundaryCost` the step from one to the next.
- ContextReplay.StoredLogTracksValues: speaks of sources with the default policy whose snapshots hold a key at most once,
  each sampled once a tick; a threshold source stores values its log does not follow, which is what a threshold is for.
- BackupRuns.BackupUnderWriters: leaves out another process resetting between dump and reset, which hands ids out again.
- Charts.ChartEdgesMatchSummary: speaks of windows whose samples of the device are the running process's, since no
  process logs the change between its first reading and the last one of the process before it.
- Lookups.DeliveryIsRightExactly: asks that readings after a reset carry later times than the spawner, which a clock
  that does not step back guarantees; without it a reused id could carry an identical row.
- RecentWindows.PruneIsInvisible: says nothing of windows that begin before the cutoff, which do change.
