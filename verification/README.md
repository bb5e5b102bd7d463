# A verified model of the security hub, its agents and its dashboard

This project models the stateful core of a home-security system and proves what that core promises.
`dafny verify dfyconfig.toml` checks all of it (Dafny 4.11).

Time is an integer number of milliseconds. Database tables are finite maps, each SQL statement is one
atomic step, and everything the system does not control (time passing, ingestion between two statements,
the order in which a query lists its rows, the replies of the network, the local wall clock) is arbitrary.
Where the code keeps mutable state the model has a class with the same fields; each of its methods is
proved to perform a step of a small state machine, and the theorems are about every run of that machine.

## What is modelled

**Retention, rollups and reports** — `Timeline`, `Counting`, `EventLog`, `EventLogProofs`, `RetentionService`,
`RollupProgress`, `Reports`, `ReportWitness`, `DailySeries`. The retention sweep counts complete hours into
rollup rows and then deletes raw rows, while ingestion commits between any two of its statements and the
sweep may die after any of them. The machine carries the history of every event ever inserted. Counts are
final, nothing is deleted uncounted, and a report, which joins rollups below the watermark with raw rows
above it, equals a count over the full history, up to what is pruned while it is being read.

**Alerts, liveness and the disarm rule** — `AlertRules`, `Policy`, `Hub`, `HubProofs`, `HubTheorems`, `HubRules`,
`HubWitness`, `HubService`. Registration, heartbeats, events, acknowledgement, ageing out and mode changes act on
one shared state. Requests and the liveness sweep are taken statement by statement. A sign of life reads its agent's
row, writes it, acknowledges, posts its notice, asks rules and cooldown, and inserts; the sweep selects, marks,
checks and inserts. Any of these may fail or be the last before a crash, and any others may come between them, as
they may between the policy's decision on a mode change and the change. `HubProofs.BaseInv` holds over every run;
`HubProofs.Clear`, for each agent by itself, over exactly those runs that strand none of its alerts.

**Scheduled arming** — `LocalTime`, `ScheduleRuns`, `ScheduleRunner`. The verdict for one instant, a day of
ticks, any number of interleaved runners, and the runner of one hub. The local clock is an arbitrary
function of the instant; only the date is taken to be nondecreasing, so minutes may jump or repeat.

**Live view** — `Jpeg`, `FrameStore`. Newest frame, arrival window, tickets, viewer slots, the stream loop
and the header scan. Ghost fields hold the simple form each table stands for.

**Agents** — `ResendQueue` (the bounded resend queue and its re-enrolling post), `Evidence` (pre-roll
buffer and clips), `EdgeDetectors` (motion and door detectors over a clock that wraps at 30 bits).

**Dashboard** — `Sorting`, `Clusters`, `AutoWatch`.

## What the proofs turned up

- A report whose window opens inside an hour skips the rest of that hour once it has been rolled up, because `"hour"
  >= since` drops the bucket. `Reports.SweepChangesReport` says exactly when a sweep changes a report, and
  `ReportWitness.UnalignedReportLosesPartialHour` is a concrete run. The code comments promise that rollups answer
  "exactly" (hub/src/maintenance/retention.service.ts:51-55); that holds of windows that start on the hour.
- The watermark is the newest counted hour, not a cursor. After an empty stretch of 2160 hours it never moves
  again (`RollupProgress.StallIsPermanent`, reached in `ReportWitness.StallIsReachable`), although every report stays
  exact. Rollups catch up if and only if no busy hour lies further than that from the one before
  (`RollupProgress.CatchesUpIff`). The comment that the next
  sweep picks up where the data says it should (hub/src/maintenance/retention.service.ts:200-204) is true
  only up to that length.
- The claim of a schedule's slot compares dates for inequality, not order, so a runner stalled over midnight
  can undo the new day's claim and a date fires twice (`ScheduleRuns.StaleClaimFiresTwice`).
- So can a single hub, when an edit moves the boundary to another zone in the middle of its tick
  (`ScheduleRuns.MidTickEditFiresTwice`).
- The liveness grace period is strict: a sweep exactly one timeout after boot marks a device last heard before the boot
  (`HubTheorems.ExactTimeoutAfterBootIsOffline`, reached in `HubWitness.GraceEndsOneTickEarly`).
- An agent is left online under an open offline alert in exactly three ways (`HubTheorems.ClearIffNeverStranded`):
  it comes back between its mark and its raise (`HubWitness.RecoveryOvertakesRaise`), a sign of life that read it
  online is written after its silence was announced (`HubWitness.StaleWriteStaysQuiet`), or its recovery ends before
  it acknowledges (`HubWitness.CrashCutsRecoveryShort`). While younger than the cooldown, that alert swallows the
  announcement of the next silence (`HubTheorems.LeftoverSwallowsNext`, `HubWitness.NextSilenceIsSwallowed`), which
  the comment on the shared path for recoveries says it prevents (hub/src/agents/agents.service.ts:139-143).
- Two requests that both read an agent offline post its one recovery twice, and one that read it online posts none
  (`HubTheorems.OneNoticeIffFresh`, `HubWitness.TwoNoticesForOneRecovery`).
- Two overlapping reports of one sensor both pass the cooldown (`HubTheorems.SpacedIffNeverDoubled`,
  `HubWitness.OverlappingEventsDouble`); silence alerts never do.
- The one-shot repair sets its flag before it starts, so a repair whose query fails is lost until the next boot
  (`HubTheorems.FailedRepairIsNotRetried`, `HubWitness.FailedRepairStaysSilent`).
- A critical alert raised between the policy's count and the mode change is left open in a disarmed system. Those
  are the only ones that can be (`HubTheorems.DisarmIsGated`, `HubWitness.RacingAlertSlipsThrough`).
- A viewer slot is lost if writing the response head throws: the release is protected only from there on
  (`FrameStore.Store.Stream`).
- An event overtakes the backlog exactly when a flush stops short and the new post still gets through
  (`ResendQueue.OrderIff`, `ResendQueue.OvertakingHappens`).
- A rising motion edge a whole number of clock wraps after the last fire is suppressed
  (`EdgeDetectors.WholeWrapsAreInvisible`, `EdgeDetectors.OneWrapSilences`).
- The JPEG scan needs one byte past the dimensions; a real frame header always has it (`Jpeg.RoundTrip`).

## Model

| member | source | states |
|---|---|---|
| `EventLogProofs.CountedIsExact` | hub/src/maintenance/retention.service.ts:241-252 | every row a rollup statement writes is for an hour wholly inside the range and equals the count of all events ever inserted in that (hour, agent, type), also when ingestion has committed in between |
| `EventLogProofs.RangeIsUncounted` | hub/src/maintenance/retention.service.ts:213-237 | a bucket at or after the start of a chosen range has no rollup row yet and has lost no raw row |
| `EventLogProofs.NoRecountAfterLoss` | hub/src/maintenance/retention.service.ts:205-252 | no sweep recounts an hour that has lost a row, so the upsert never overwrites a count with a smaller one |
| `EventLogProofs.CountedToWatermark` | hub/src/maintenance/retention.service.ts:200-219 | every event before the hour after `max(hour)` has a rollup row, which is why the watermark can stand for a cursor |
| `EventLogProofs.ReadWatermarkKeepsInv` | hub/src/maintenance/retention.service.ts:213-219 | reading the watermark gives a resume point with everything before it counted and nothing counted at or after it |
| `EventLogProofs.ChooseRangeKeepsInv` | hub/src/maintenance/retention.service.ts:221-231 | choosing the range keeps the invariant on every path: first run, empty tables, nothing to count, or a range |
| `EventLogProofs.LateRowIff` | hub/src/maintenance/retention.service.ts:200-207 | a row whose stamp is older than its commit leaves all of this intact if and only if nothing at or after its stamp is taken to be counted yet, by the tables or by the running sweep |
| `EventLogProofs.RollUpKeepsInv` | hub/src/maintenance/retention.service.ts:235-252 | the upsert keeps the invariant and changes no existing row |
| `EventLogProofs.PruneKeepsInv` | hub/src/maintenance/retention.service.ts:273-290 | deleting any set of rows below the clamped cutoff leaves every deleted event counted |
| `EventLogProofs.PrunableIff` | hub/src/maintenance/retention.service.ts:273-290 | a prune may take exactly the rows that are both older than its window and below what has been counted |
| `EventLogProofs.GoneIsOld` | hub/src/maintenance/retention.service.ts:273-290 | over every run, a row that has gone is older than the retention window, whatever had been counted |
| `EventLogProofs.StepKeepsInv` | hub/src/maintenance/retention.service.ts:166-290 | every step, including ingestion between statements and a sweep dying anywhere, keeps the invariant, every rollup row and the whole history |
| `EventLogProofs.CountsAreFinal` | hub/src/maintenance/retention.service.ts:194-252 | over every run a rollup row never changes or disappears, and it equals the full-history count of its bucket in all later states |
| `EventLogProofs.PrunedWasCounted` | hub/src/maintenance/retention.service.ts:57-59 | in every reachable state a deleted event's hour has a rollup row at or below the watermark, with the full count |
| `RetentionService.TrafficOnlyAdds` | hub/src/maintenance/retention.service.ts:200-204 | ingestion during an `await` leaves rollups, deletions and the sweep alone, and its rows are never older than the hub's clock |
| `RetentionService.TrafficKeepsReach` | hub/src/maintenance/retention.service.ts:200-237 | ingestion between the statements of a sweep neither spoils what it has read nor changes whether it can advance |
| `RetentionService.Database.Await` | hub/src/maintenance/retention.service.ts:376-399 | what an await lets through: any number of inserts and any amount of time, as steps of the machine |
| `RetentionService.Database.SelectMaxHour` | hub/src/maintenance/retention.service.ts:213-219 | the newest counted hour as it was when the statement ran, whatever is ingested afterwards |
| `RetentionService.Database.PlanRange` | hub/src/maintenance/retention.service.ts:211-237 | settling the range is a run of the machine; a sweep that finds nothing to count could not have advanced |
| `RetentionService.Database.InsertCounts` | hub/src/maintenance/retention.service.ts:241-252 | one rollup statement, with ingestion before it, is a run of the machine that reaches the sweep's count; the number returned is the number of new rows, and there are new rows exactly when a busy complete hour is within reach |
| `RetentionService.Database.Upsert` | hub/src/maintenance/retention.service.ts:241-252 | the statement itself is one step and writes only new rows |
| `RetentionService.Database.DeleteBefore` | hub/src/maintenance/retention.service.ts:283-288 | deletes at most `limit` matching rows and nothing else; a short batch leaves no matching row |
| `RetentionService.Database.DeleteEvents` | hub/src/maintenance/retention.service.ts:281-289 | a prune batch is one step of the machine and its count is exactly the rows lost |
| `RetentionService.Service.RollUpEvents` | hub/src/maintenance/retention.service.ts:208-264 | is a run of the machine; a failing statement counts nothing; otherwise it says how far raw events are counted, never past the current hour, with `caughtUp` exactly when it reached it, and adds rows exactly when a busy complete hour is within reach |
| `RetentionService.Service.PruneEvents` | hub/src/maintenance/retention.service.ts:273-290 | is a run of the machine; a zero window deletes nothing; every row inside the window, or not counted yet, is kept, and neither capped nor failed no row is left that is past the window and counted; capped means every allowed batch was full |
| `RetentionService.Service.DeleteInBatches` | hub/src/maintenance/retention.service.ts:382-404 | for any batch size and cap, with ingestion between batches and a batch that may fail: `deleted` is exactly the rows lost, every row from the cutoff on is kept, neither capped nor failed means exhausted, and capped means that all batches were full |
| `RetentionService.OthersKeepRun` | hub/src/maintenance/retention.service.ts:166-192 | what comes after the events' part of a sweep takes nothing of it back |
| `RetentionService.Service.Run` | hub/src/maintenance/retention.service.ts:166-192 | the sweep body, whatever fails in it, is a run of the machine and deletes nothing inside the window; through, with nothing remaining, it has counted to the current hour and left nothing past the window; something remains only if counting is behind or a prune was capped |
| `RetentionService.Service.Sweep` | hub/src/maintenance/retention.service.ts:127-163 | a tick during a running sweep changes nothing; any other is a run of the machine, deletes nothing inside the window and frees the flag however it ends; one that gets through reaches its count, and adds rollup rows exactly when a busy complete hour was within reach at its start |
| `RollupProgress.StepKeepsKnowledge` | hub/src/maintenance/retention.service.ts:213-237 | what a sweep has read and worked out is still true when it uses it, whatever is ingested in between |
| `RollupProgress.RollUpAdvancesIff` | hub/src/maintenance/retention.service.ts:231-252 | a rollup statement adds rows, and so advances the watermark, exactly when an event-bearing hour complete at the sweep's start lies within the ceiling of its range |
| `RollupProgress.ChooseRangeStopsOnlyIf` | hub/src/maintenance/retention.service.ts:221-231 | a sweep that decides there is nothing to count had nothing within reach |
| `RollupProgress.StepKeepsReach` | hub/src/maintenance/retention.service.ts:200-237 | no step before the rollup changes whether the running sweep can advance |
| `RollupProgress.CountingShrinks` | hub/src/maintenance/retention.service.ts:231-252 | with small gaps a sweep that reaches its count takes at least the oldest uncounted hour off those left, and no step ever adds one |
| `RollupProgress.EverySweepCounts` | hub/src/maintenance/retention.service.ts:200-264 | over every run, with ingestion between any two statements, prunes and dead sweeps: n sweeps that reach their count leave nothing uncounted or at least n hours fewer |
| `RollupProgress.SweepsCatchUp` | hub/src/maintenance/retention.service.ts:200-264 | with no gap above the per-sweep ceiling, as many sweeps that reach their count as there are uncounted event-bearing hours count them all, over every run |
| `RollupProgress.SweepsAppend` | hub/src/maintenance/retention.service.ts:127-192 | the tally of counting sweeps adds up over consecutive stretches, so the theorems apply to repeated ticks of the service |
| `RollupProgress.NeverCounted` | hub/src/maintenance/retention.service.ts:213-237 | an hour more than the ceiling after the busy hour before it is never counted in any run, nor is any later one |
| `RollupProgress.CountedHasSmallGaps` | hub/src/maintenance/retention.service.ts:200-237 | from an empty hub, history that is wholly counted has only small gaps |
| `RollupProgress.CatchesUpIff` | hub/src/maintenance/retention.service.ts:200-264 | from an empty hub, after enough counting sweeps everything complete is counted if and only if no busy hour lies more than the ceiling after the one before it |
| `RollupProgress.StalledStep` | hub/src/maintenance/retention.service.ts:213-237 | an empty stretch of at least the ceiling after the watermark survives every step and no step adds a row |
| `RollupProgress.StallIsPermanent` | hub/src/maintenance/retention.service.ts:213-237 | once stalled, no run ever moves the watermark; safety still holds |
| `Reports.BoundarySplits` | hub/src/reports/reports.service.ts:35-49 | in the state the boundary is read in it divides history: everything below it is counted in rollups, nothing from it on has been pruned |
| `Reports.RolledPart` | hub/src/reports/reports.service.ts:123-128 | the sum over a group's rolled rows is the number of its events ever inserted in whole hours of the window below the boundary |
| `Reports.SourcesPartition` | hub/src/reports/reports.service.ts:35-38 | the two sources, even when read at different times, overlap nowhere and together are what can still be seen from the effective start on |
| `Reports.BoundaryKeepsMeaning` | hub/src/reports/reports.service.ts:45-49 | whatever is ingested, rolled up and pruned after the boundary was read, the rollups below it count all that ever happened below it |
| `Reports.LateCountIs` | hub/src/reports/reports.service.ts:45-60 | with the boundary read first and each source in a state of its own later on: rolled plus raw of any group counts exactly the events from the effective start on that were not pruned at or above the boundary |
| `Reports.LateReportIsExactIff` | hub/src/reports/reports.service.ts:45-60 | so it is exact if and only if no such event was pruned, and any that was has been counted since the boundary was read |
| `Reports.GroupCountIsExact` | hub/src/reports/reports.service.ts:123-151 | rolled plus raw of any group equals its events ever inserted from the effective start on |
| `Reports.GroupListed` | hub/src/reports/reports.service.ts:123-151 | a key appears in the report exactly when its count is positive |
| `Reports.ReportIsExact` | hub/src/reports/reports.service.ts:40-81 | for any grouping that agrees on events and rollup rows: exact count, and listed if and only if anything counts |
| `Reports.AgentReportIsExact` | hub/src/reports/reports.service.ts:123-136 | per agent, over every run: the count of events ever inserted from `since`, or from the next full hour when `since` is inside an hour below the boundary |
| `Reports.TypeReportIsExact` | hub/src/reports/reports.service.ts:138-151 | the same per event type |
| `Reports.BoundaryGrows` | hub/src/reports/reports.service.ts:45-49 | no step moves the boundary back |
| `Reports.SweepChangesReport` | hub/src/reports/reports.service.ts:123-151 | a sweep step changes a group's count if and only if it moves the boundary past a `since` inside an hour in which that group still has events |
| `Reports.SweepsKeepAlignedReports` | hub/src/reports/reports.service.ts:35-38 | sweeps never change a report whose window starts on the hour |
| `Reports.ExactFromSinceIff` | hub/src/reports/reports.service.ts:123-151 | a group counts exactly the events from `since` on if and only if `since` is at or past the boundary or the skipped partial hour holds none of them |
| `ReportWitness.UnalignedReportLosesPartialHour` | hub/src/reports/reports.service.ts:127-127 | a concrete run whose sweep makes a report lose an event |
| `ReportWitness.StallIsReachable` | hub/src/maintenance/retention.service.ts:213-237 | a concrete run from an empty hub that ends with the watermark stalled |
| `DailySeries.MergeDaily` | hub/src/reports/reports.service.ts:179-215 | one entry per distinct date of the window in order, each with the sum over both event sources and the alert count of that date, zero where there is none |
| `DailySeries.MergedEntry` | hub/src/reports/reports.service.ts:179-215 | an entry shows the alert count of its own day, and zero where the query has no row for it |
| `DailySeries.DatesAreConsecutive` | hub/src/reports/reports.service.ts:202-205 | at a fixed offset the window lists exactly `days + 1` consecutive dates |
| `DailySeries.DaysAreConsistent` | hub/src/reports/reports.service.ts:91-109 | at a whole-hour offset a bucket and every event in it fall on the same local day |
| `DailySeries.DaysAreConsistentIff` | hub/src/reports/reports.service.ts:91-109 | that holds at whole-hour offsets and at no other fixed offset |
| `DailySeries.DayIsExact` | hub/src/reports/reports.service.ts:91-109 | the two daily queries, each in a state of its own, together give for every day the events ever inserted on it from the effective start on, but for those pruned since the boundary was read |
| `DailySeries.SeriesIsExact` | hub/src/reports/reports.service.ts:179-215 | so does every entry of the merged series, the days are consecutive, and their total is that of the whole window |
| `DailySeries.TotalIsExact` | hub/src/reports/reports.service.ts:76-79 | read at one instant, the headline total is the number of events ever inserted from the effective start on |
| `AlertRules.RuleTable` | hub/src/alerts/alert-rules.ts:44-111 | which events alert in which mode, under which type, and exactly when critically; silence alerts in every mode, recovery informs |
| `AlertRules.ArmingOnlyEscalates` | hub/src/alerts/alert-rules.ts:44-102 | a higher arm mode never loses, softens or renames an alert |
| `Policy.DisarmRule` | hub/src/common/security/policy.service.ts:43-110 | exactly who may disarm while critical alerts are open, and whose help a refusal names; a schedule only when none is, with no override |
| `Policy.ArmingIsNeverHeld` | hub/src/common/security/policy.service.ts:60-63 | open alerts never hold up raising protection |
| `Policy.SchedulesDelegateNothing` | hub/src/common/security/policy.service.ts:112-143 | a schedule grants nothing its author lacks: who may write one may make the same change by hand whenever the schedule may |
| `Policy.AcknowledgeRule` | hub/src/common/security/policy.service.ts:174-201 | exactly which alerts a caller may acknowledge: with zones, only of agents whose location is one of them letter by letter up to ASCII case, and never a system-level one |
| `Policy.LowerComparesNames` | packages/contracts/src/auth.ts:194-197 | lowering two names and comparing them compares them letter by letter up to the case of ASCII letters |
| `Policy.OtherZonesAreClosed` | hub/src/common/security/policy.service.ts:149-201 | a caller for one zone acknowledges there in any case, not in another zone, and no system-level alert |
| `HubProofs.WhoInserts` | hub/src/alerts/alerts.service.ts:41-117 | a silence alert is inserted by the sweep only, and a recovery notice by a recovery only |
| `HubProofs.AckKeepsTables` | hub/src/alerts/alerts.service.ts:172-200 | acknowledging any open alerts now, or deleting any, keeps the alert table a faithful copy of what was raised |
| `HubProofs.StepKeepsTables` | hub/src/alerts/alerts.service.ts:59-200 | so does every step: rows are numbered in order of insertion and never change but for an acknowledgement that is not before the alert |
| `HubProofs.RaiseAnnounces` | hub/src/alerts/alerts.service.ts:59-65 | the raise for a silent agent announces its present silence |
| `HubProofs.OpenIsAnnounced` | hub/src/alerts/alerts.service.ts:123-142 | an open offline alert that is no leftover means its agent is silent and has been announced in this silence |
| `HubProofs.SuppressionWearsOff` | hub/src/alerts/alerts.service.ts:127-142 | no step but an insert of the same type and agent makes the cooldown swallow what it would have let through |
| `HubProofs.StepKeepsCheck` | hub/src/alerts/alerts.service.ts:59-65 | what the cooldown has let through for the sweep it would still let through when the sweep inserts it |
| `HubProofs.StepKeepsFlights` | hub/src/agents/agent-liveness.service.ts:98-144 | until the first batch after a boot is marked offline no recovery of a silent agent is under way, so the repair never meets one |
| `HubProofs.StepKeepsBatch` | hub/src/agents/agent-liveness.service.ts:186-240 | while a batch is raised for, its list names each agent once, and none of those still silent has been announced |
| `HubProofs.StepKeepsBase` | hub/src/agents/agent-liveness.service.ts:155-244 | every step of the hub keeps tables, timing, list, check and requests in order, whatever interleaves |
| `HubProofs.RunKeepsBase` | hub/src/agents/agent-liveness.service.ts:155-244 | every run keeps them |
| `HubProofs.FlipKeepsClear` | hub/src/agents/agent-liveness.service.ts:186-212 | marking a batch offline leaves no alert over that was not left over before |
| `HubProofs.StepKeepsClear` | hub/src/agents/agents.service.ts:124-204 | an agent whose open offline alerts all belong to its present silence, or are about to be acknowledged, stays so through every step that strands none |
| `HubProofs.OvertakenRaiseBreaksClear` | hub/src/agents/agent-liveness.service.ts:219-240 | a raise for an agent that has come back, and settled that, leaves it online under an open offline alert |
| `HubProofs.StaleWriteBreaksClear` | hub/src/agents/agents.service.ts:147-161 | so does a sign of life that read the agent online and is written under its open offline alert, since it acknowledges nothing |
| `HubProofs.AbandonedBreaksClear` | hub/src/agents/agents.service.ts:194-204 | and so does a recovery that ends between writing the row and acknowledging the alerts |
| `HubProofs.SelectKeepsRepair` | hub/src/agents/agent-liveness.service.ts:112-125 | the repair selects every silence with nothing open; the others have been announced |
| `HubProofs.CheckKeepsRepair` | hub/src/agents/agent-liveness.service.ts:126-139 | the cooldown swallows an alert of the repair only for a silence that has been announced |
| `HubProofs.StepKeepsRepair` | hub/src/agents/agent-liveness.service.ts:112-144 | through every step, whoever is silent and not on the repair's list has been announced |
| `HubProofs.RunKeepsClear` | hub/src/agents/agent-liveness.service.ts:98-244 | over every run that strands no alert of an agent, whatever happens to the others, it stays clear and the repair announces it |
| `HubTheorems.ClearIffNeverStranded` | hub/src/agents/agents.service.ts:134-161 | an agent's open offline alerts belong to its present silence, or are just about to be acknowledged, all through a run if and only if none of three things happens to it: its raise is overtaken, a stale sign of life is written, a recovery is cut short |
| `HubTheorems.LostIff` | hub/src/agents/agent-liveness.service.ts:98-111 | exactly which silence a step leaves unannounced with no raise to come: the process ends, the raise for it fails, or the cooldown swallows it |
| `HubTheorems.HeardIffNeverLost` | hub/src/agents/agent-liveness.service.ts:98-244 | all through a run an offline agent is announced in its present silence, or on the running list, if and only if none of those happens to that agent |
| `HubTheorems.OnlyLeftoversSwallow` | hub/src/alerts/alerts.service.ts:182-200 | the cooldown swallows the first alert of a silence only if an alert of an earlier one was left open |
| `HubTheorems.SilenceIsAnnounced` | hub/src/agents/agent-liveness.service.ts:146-244 | over every run that strands no alert of this agent: back and settled it has nothing open, and unless the sweep is cut off before it comes to it, a silent agent was announced in this silence or is on the running list |
| `HubTheorems.LeftoverSwallowsNext` | hub/src/alerts/alerts.service.ts:182-200 | what a stranded alert costs: while younger than the cooldown it swallows the announcement of the next silence |
| `HubTheorems.RepairAnnounces` | hub/src/agents/agent-liveness.service.ts:98-144 | wherever a crash struck, once the repair is through an offline agent with nothing stranded has been announced in this silence |
| `HubTheorems.SelectedAreTheRest` | hub/src/agents/agent-liveness.service.ts:112-125 | whoever the repair does not select has an open offline alert |
| `HubTheorems.RepairLeavesOpen` | hub/src/agents/agent-liveness.service.ts:112-144 | the repair leaves every offline agent with an open alert, whatever but an operator's acknowledgement comes in meanwhile |
| `HubTheorems.FailedRepairIsNotRetried` | hub/src/agents/agent-liveness.service.ts:176-181 | a repair that has failed, or ended, is not tried again before the next boot |
| `HubTheorems.NoticeIff` | hub/src/alerts/alerts.service.ts:67-79 | a step posts a recovery notice for an agent exactly when it is the last of a sign of life of that agent that read it offline |
| `HubTheorems.RecoversIff` | hub/src/agents/agents.service.ts:147-161 | a step brings an agent back exactly when it writes a sign of life of that agent while it is offline, whatever was read |
| `HubTheorems.StepOwes` | hub/src/agents/agents.service.ts:147-204 | a notice is put on its way by a write that read offline, and is lost only with a failing request or the process |
| `HubTheorems.RecoveriesAreAnnounced` | hub/src/agents/agents.service.ts:147-204 | the account over every run: notices posted or on their way are the recoveries, plus repeats by concurrent reads, less those missed by a stale read and those cut short |
| `HubTheorems.OneNoticeIffFresh` | hub/src/agents/agents.service.ts:134-161 | each recovery brings exactly one notice, and nothing else one, if and only if every status read is still the status at its write and no recovery is cut short |
| `HubTheorems.OverdueIsOffline` | hub/src/agents/agent-liveness.service.ts:94-217 | over every run, when the last sweep to mark agents began at most S ago, a device silent since t is offline after max(t, boot) + timeout + S |
| `HubTheorems.MarkedOfflineIff` | hub/src/agents/agent-liveness.service.ts:158-217 | exactly which step marks an online agent offline; browser cameras never |
| `HubTheorems.LivelyStaysOnline` | hub/src/agents/agent-liveness.service.ts:81-96 | a device whose gaps, counting from boot, stay within the timeout is never marked offline, through restarts and crashes |
| `HubTheorems.ExactTimeoutAfterBootIsOffline` | hub/src/agents/agent-liveness.service.ts:94-96 | the edge of the grace period, for every device last heard before the boot |
| `HubTheorems.SpacedIffNeverDoubled` | hub/src/alerts/alerts.service.ts:81-142 | over every run, alerts of one type and agent closer than the cooldown were acknowledged in between if and only if none is inserted that the cooldown would swallow by then |
| `HubTheorems.OnlyOverlapsDouble` | hub/src/alerts/alerts.service.ts:87-142 | that needs another insert of the same type and agent between the check and the insert: two overlapping requests |
| `HubTheorems.SilencesAreNeverDoubled` | hub/src/alerts/alerts.service.ts:59-65 | no interleaving doubles a silence alert |
| `HubTheorems.CloserPairWasAcknowledged` | hub/src/alerts/alerts.service.ts:119-142 | two such alerts within the cooldown: the earlier was acknowledged before the later was raised |
| `HubTheorems.OpenAlertsSpread` | hub/src/alerts/alerts.service.ts:119-142 | n unacknowledged alerts of one type and agent span more than n - 1 cooldowns |
| `HubTheorems.RepeatsAreBounded` | hub/src/alerts/alerts.service.ts:119-142 | however many events arrive, over every run that doubles none, a window of length L holds at most ceil(L / (cooldown + 1)) unacknowledged alerts of one type and agent; for silences over every run |
| `HubTheorems.ClosedIff` | hub/src/alerts/alerts.service.ts:172-200 | a step ends an alert's being open if and only if it is an acknowledgement of it by someone with the permission and the zone or, for a silence, the acknowledgement of that agent's own recovery; no step deletes an open alert |
| `HubTheorems.UntouchedStays` | hub/src/agents/agent-liveness.service.ts:112-244 | no part of a sweep, no crash, no write of a row and no mode change alters an alert |
| `HubTheorems.StepEvolves` | hub/src/alerts/alerts.service.ts:100-109 | rows never change but for their acknowledgement, and numbers are never used again |
| `HubTheorems.OpenUntilClosed` | hub/src/alerts/alerts.service.ts:172-200 | an open alert stays open, with its severity, until one of those two things closes it |
| `HubTheorems.RequestsAreDecided` | hub/src/common/security/policy.service.ts:43-110 | a mode change is granted only as asked for, to someone with the permission, as the policy allows on the count at that moment; and counts as an admin's only if an admin asked |
| `HubTheorems.StepKeepsGate` | hub/src/system/system.controller.ts:59-84 | no interleaving opens the gate: what is critical and open while a non-admin disarm is under way was raised after the policy decided |
| `HubTheorems.ModeChangesByCommit` | hub/src/system/system.controller.ts:63-84 | nothing but an allowed request changes the mode |
| `HubTheorems.DisarmIsGated` | hub/src/system/system.controller.ts:55-84 | over every run, when a schedule or a non-admin disarms, every critical alert still open was raised after the policy counted; none is open if and only if all critical alerts raised since are closed |
| `HubTheorems.IncidentIsNotSilenced` | hub/src/common/security/policy.service.ts:30-110 | over any run, a non-admin disarm decided after a critical alert was raised implies that very alert was acknowledged by someone entitled to, or its silent agent came back |
| `HubRules.SensorAlertsWereAskedFor` | hub/src/alerts/alerts.service.ts:44-57 | over every run and interleaving, each sensor alert ever raised goes back to one judging of an event of that agent, and has the type and severity that event asks for in the mode the system was in at that moment |
| `HubRules.DisarmedIsQuiet` | hub/src/alerts/alerts.service.ts:44-57 | no sensor raises anything while events are judged in a disarmed system |
| `HubRules.JudgeRule` | hub/src/alerts/alerts.service.ts:44-57 | an event is let through exactly when it asks for an alert in the present mode and no open one of that type and agent lies inside the cooldown, and under that mode |
| `HubRules.InsertRule` | hub/src/alerts/alerts.service.ts:100-109 | the alert inserted has the type and severity asked for in the mode the event was judged in |
| `HubRules.CheckRule` | hub/src/agents/agent-liveness.service.ts:219-240 | the sweep passes an agent over exactly when an open silence alert of it lies inside the cooldown |
| `HubRules.RaiseRule` | hub/src/alerts/alerts.service.ts:59-65 | a silence alerts in every mode, critically unless the system was disarmed when it was checked |
| `HubRules.SettleRule` | hub/src/alerts/alerts.service.ts:194-200 | a recovery acknowledges, now, exactly the open offline alerts of its agent |
| `HubRules.NotifyRule` | hub/src/alerts/alerts.service.ts:67-79 | a recovery notice is informational, for that agent, and asks no cooldown |
| `HubRules.RowRule` | hub/src/agents/agents.service.ts:60-84 | row by row what any step does to an agent: a sign of life, a new browser camera, a batch marked offline, and nothing else |
| `HubRules.ReadRule` | hub/src/agents/agents.service.ts:124-133 | the first statement of a request keeps the status it reads, for a known agent or one that may enroll |
| `HubRules.BootRule` | hub/src/agents/agent-liveness.service.ts:47-75 | a boot starts the grace period, owes a repair and leaves every table as it was |
| `HubRules.BeginRule` | hub/src/agents/agent-liveness.service.ts:155-181 | a tick does nothing in the grace period; past it the first one of a process owes the repair |
| `HubRules.SelectRule` | hub/src/agents/agent-liveness.service.ts:112-125 | the repair lists exactly the silent devices with no open offline alert, each once |
| `HubRules.FailRule` | hub/src/agents/agent-liveness.service.ts:140-143 | a failing raise ends the repair, but in a batch costs that agent only |
| `HubRules.RepairComesFirst` | hub/src/agents/agent-liveness.service.ts:176-181 | no process marks anyone offline before its repair has asked who is unannounced |
| `HubRules.PruneRule` | hub/src/maintenance/retention.service.ts:300-317 | a prune takes exactly acknowledged alerts older than its window |
| `HubWitness.RecoveryOvertakesRaise` | hub/src/agents/agent-liveness.service.ts:183-240 | a concrete run from a fresh hub in which a heartbeat between check and raise leaves an online agent under an open offline alert |
| `HubWitness.StaleWriteStaysQuiet` | hub/src/agents/agents.service.ts:124-161 | a concrete run in which a heartbeat that read the agent online is written after the silence was announced: the agent is online under an open offline alert, and no notice was ever posted |
| `HubWitness.CrashCutsRecoveryShort` | hub/src/agents/agents.service.ts:147-204 | a concrete run in which the process ends between the row and the acknowledgement, with the same end |
| `HubWitness.NextSilenceIsSwallowed` | hub/src/alerts/alerts.service.ts:182-200 | a concrete run in which the alert left open swallows the announcement of the next silence |
| `HubWitness.TwoNoticesForOneRecovery` | hub/src/agents/agents.service.ts:134-161 | a concrete run in which a heartbeat and an event both read the agent offline, and one recovery is posted twice |
| `HubWitness.OverlappingEventsDouble` | hub/src/alerts/alerts.service.ts:87-117 | a concrete run in which two reports of one sensor overlap and raise one critical alert each at the same instant |
| `HubWitness.GraceEndsOneTickEarly` | hub/src/agents/agent-liveness.service.ts:94-96 | a concrete run in which a sweep exactly one timeout after boot marks a device offline |
| `HubWitness.FailedRepairStaysSilent` | hub/src/agents/agent-liveness.service.ts:140-143 | a concrete run: a crash before the raise, then a repair whose query fails, and the device is offline with nothing ever raised |
| `HubWitness.RacingAlertSlipsThrough` | hub/src/system/system.controller.ts:61-84 | a concrete run in which an alert raised between count and change is left open in a disarmed system |
| `HubService.FindMany` | hub/src/agents/agent-liveness.service.ts:187-202 | a query lists each matching row once, in some order |
| `HubService.Service.OnModuleInit` | hub/src/agents/agent-liveness.service.ts:47-75 | a boot resets the process memory and keeps every table |
| `HubService.Service.Await` | hub/src/agents/agent-liveness.service.ts:155-244 | what an await lets through: any number of steps of the machine that are not of the requests, or the sweep, that wait |
| `HubService.Service.Resume` | hub/src/agents/agents.service.ts:124-161 | the next statement of a request: anything may come before it, and it may fail and end the request |
| `HubService.Service.Load` | hub/src/agents/agents.service.ts:124-133 | the first statement reads the row and keeps its status; an unknown agent, or a reserved id, is refused and changes nothing |
| `HubService.Service.WriteRow` | hub/src/agents/agents.service.ts:60-84 | the update, or the upsert of an enrollment: seen and online, whatever the row says by then |
| `HubService.Service.RecordActivity` | hub/src/agents/agents.service.ts:147-161 | is a run of the machine that writes the row once, and recovers exactly if the row read said offline |
| `HubService.Service.HandleRecovery` | hub/src/agents/agents.service.ts:194-204 | acknowledges first, then posts the notice past the cooldown, with anything in between |
| `HubService.Service.AcknowledgeOpenOfflineAlerts` | hub/src/alerts/alerts.service.ts:194-200 | acknowledges exactly this agent's open offline alerts and counts them |
| `HubService.Service.Register` | hub/src/agents/agents.service.ts:38-116 | refuses the reserved namespace; otherwise a run of the machine that writes one row, and recovers exactly if it read offline |
| `HubService.Service.Heartbeat` | hub/src/agents/agents.service.ts:124-133 | an unknown id changes nothing; otherwise the same |
| `HubService.Service.Ingest` | hub/src/events/events.service.ts:60-96 | an unknown agent changes nothing; otherwise a sign of life, and only then the rules |
| `HubService.Service.EvaluateEvent` | hub/src/alerts/alerts.service.ts:44-57 | the rules under the mode as it is then, the cooldown, and the insert, with anything in between |
| `HubService.Service.CheckRules` | hub/src/alerts/alerts.service.ts:44-57 | passes exactly the events that ask for an alert in the present mode with no open one inside the cooldown, and keeps that mode |
| `HubService.Service.IsSuppressed` | hub/src/alerts/alerts.service.ts:127-142 | an open alert of the same type and agent inside the cooldown, and never with the cooldown off |
| `HubService.Service.CreateAlert` | hub/src/alerts/alerts.service.ts:100-117 | inserts one row, numbered past every other, and says which |
| `HubService.Service.Sweep` | hub/src/agents/agent-liveness.service.ts:155-244 | a tick, with anything between all its statements and failures of any of them, is a run of the machine; skipped while another runs; a sweep that gets through has marked by the instant it began |
| `HubService.Service.RepairOnce` | hub/src/agents/agent-liveness.service.ts:176-181 | the repair is tried once per boot, whatever becomes of it |
| `HubService.Service.ReconcileOfflineAgents` | hub/src/agents/agent-liveness.service.ts:112-144 | the repair is a run of the machine: its query or a raise may fail and end it |
| `HubService.Service.RaiseOne` | hub/src/agents/agent-liveness.service.ts:219-240 | one agent of a batch: the cooldown first, then the insert, or a failure of either |
| `HubService.Service.RaiseAgentOffline` | hub/src/alerts/alerts.service.ts:59-65 | the silence alert under the mode read before the cooldown was asked |
| `HubService.Service.FlipStale` | hub/src/agents/agent-liveness.service.ts:183-217 | the transaction marks exactly the listed devices stale at the sweep's start, or fails and ends the sweep |
| `HubService.Service.RaiseBatch` | hub/src/agents/agent-liveness.service.ts:219-240 | the loop raises for the whole list in its order; a failing raise costs only that agent |
| `HubService.Service.Acknowledge` | hub/src/alerts/alerts.controller.ts:49-82 | the policy decides first, by permission and zone; then idempotent, keeping the first timestamp; a missing alert is reported |
| `HubService.Service.CountOpenCritical` | hub/src/common/security/policy.service.ts:67-69 | the number of unacknowledged critical alerts |
| `HubService.Service.SetModeBy` | hub/src/system/system.controller.ts:55-98 | the policy decides on the state as it was; anything, another mode change included, may come before the change; a refusal changes nothing; reports a change exactly if the mode then in force differed |
| `HubService.Service.SetModeTo` | hub/src/system/system.service.ts:34-57 | reports a change exactly when there was one |
| `HubService.Service.PruneAlerts` | hub/src/maintenance/retention.service.ts:300-317 | a run of the machine with anything between batches; `deleted` counts the rows gone, and uncapped every alert left is inside the window or open |
| `HubService.Service.PruneBatch` | hub/src/maintenance/retention.service.ts:308-315 | a batch takes only acknowledged alerts past the window, at most `limit` |
| `HubService.Service.DeleteAcknowledged` | hub/src/maintenance/retention.service.ts:308-315 | at most `limit` such rows, and a short batch leaves none |
| `LocalTime.DayOutcome` | hub/src/schedules/local-time.ts:76-107 | the exact outcome of a day of ticks: decided by the first tick at or past the boundary that is not held inside the window; a hold never uses up the slot, and nothing follows the decision |
| `LocalTime.ClaimedDayIsSilent` | hub/src/schedules/local-time.ts:98-99 | a claimed date yields nothing more, through repeated and jumping minutes |
| `LocalTime.InactiveDayIsSilent` | hub/src/schedules/local-time.ts:91-96 | a disabled schedule, or a day not in its list, yields nothing and changes nothing |
| `LocalTime.SeededDay` | hub/src/schedules/local-time.ts:109-119 | creation or a boundary-moving edit at or past the boundary yields no outcome that date, and before it leaves the slot free |
| `LocalTime.OtherEditsKeepTheSlot` | hub/src/schedules/schedules.service.ts:51-64 | an edit that keeps the boundary cannot make a schedule act twice on a date |
| `LocalTime.VerdictRule` | hub/src/schedules/local-time.ts:86-107 | the verdict, its date and its lateness, case by case |
| `LocalTime.OutcomeRule` | hub/src/schedules/schedule-runner.service.ts:111-174 | which tick fires, is held or is missed |
| `LocalTime.TickedRow` | hub/src/schedules/schedule-runner.service.ts:111-199 | a tick changes nothing of a row but the date it used up and, when it fired, the instant |
| `LocalTime.CreatedRow` | hub/src/schedules/schedules.service.ts:25-37 | a new row carries what was asked for; today counts as used exactly if the boundary has passed |
| `LocalTime.UpdatedRow` | hub/src/schedules/schedules.service.ts:39-69 | an edited row carries what was asked for and keeps when it last fired; its slot is seeded anew exactly when time or zone moves |
| `ScheduleRuns.StepKeepsLastClaim` | hub/src/schedules/schedule-runner.service.ts:189-199 | the row always remembers the last successful claim, and one more claim keeps the claims increasing if and only if it is not for an older date |
| `ScheduleRuns.JudgeRule` | hub/src/schedules/schedule-runner.service.ts:111-152 | what a runner decides on the row and the local time it holds, the policy before the claim |
| `ScheduleRuns.ModeRule` | hub/src/schedules/schedule-runner.service.ts:154-160 | the mode changes only when a runner whose claim succeeded sets it to the mode of the row it had read |
| `ScheduleRuns.ClaimsIncreaseIff` | hub/src/schedules/schedule-runner.service.ts:176-199 | over any interleaving of runners, restarts and edits, with any dates read in any order, the dates claimed since the boundary last moved increase strictly if and only if no runner claims an older date than the last one claimed |
| `ScheduleRuns.SameDayClaimsAreFresh` | hub/src/schedules/schedule-runner.service.ts:111-199 | claims made on the day they were judged satisfy that condition, however many runners there are |
| `ScheduleRuns.SingleRunnerIsOrderly` | hub/src/schedules/schedule-runner.service.ts:82-109 | one runner always claims on the day it judged, when edits that move the boundary come between ticks and dates do not go back |
| `ScheduleRuns.OneHubClaimsOnce` | hub/src/schedules/schedule-runner.service.ts:82-199 | one hub claims each date at most once through any restarts and minute jumps, when edits that move the boundary come between ticks and dates do not go back |
| `ScheduleRuns.TwoHubsHoldDifferentDays` | hub/src/schedules/schedule-runner.service.ts:111-139 | a reachable state in which two hubs hold claims for different dates |
| `ScheduleRuns.StaleClaimFiresTwice` | hub/src/schedules/schedule-runner.service.ts:189-199 | from it, a concrete run that claims dates 2, 1, 2 and fires date 2 twice |
| `ScheduleRuns.MidTickEditFiresTwice` | hub/src/schedules/schedules.service.ts:48-65 | the condition on edits is needed: a concrete run of one hub, dates going forward, in which an edit in the middle of a tick makes a date fire twice |
| `ScheduleRunner.Runner.Claim` | hub/src/schedules/schedule-runner.service.ts:189-199 | succeeds exactly on a row whose stored date differs, null included, and writes only the date and, when firing, the instant |
| `ScheduleRunner.Runner.TickRule` | hub/src/schedules/schedule-runner.service.ts:111-174 | in its own zone a tick acts on an active row past its boundary, by lateness and what is open, and changes nothing else of it |
| `ScheduleRunner.Runner.Evaluate` | hub/src/schedules/schedule-runner.service.ts:111-174 | the outcome, the row afterwards and the mode are those of one tick of the day model; an unresolvable zone does nothing |
| `ScheduleRunner.Runner.EvaluateAll` | hub/src/schedules/schedule-runner.service.ts:90-100 | every enabled schedule is evaluated once, in any order; each row ends as its own tick says and the tallies are exact |
| `ScheduleRunner.Runner.Tick` | hub/src/schedules/schedule-runner.service.ts:82-109 | an overlapping tick does nothing; otherwise the counts are exact, and a changed mode is that of a schedule that fired |
| `ScheduleRunner.Runner.CreateSchedule` | hub/src/schedules/schedules.service.ts:25-38 | accepted exactly when every later tick can evaluate it; the row carries what was asked for, seeded for today |
| `ScheduleRunner.Runner.UpdateSchedule` | hub/src/schedules/schedules.service.ts:40-68 | refused for an unknown schedule or an unacceptable edit, changing nothing; else the row carries what was asked for, keeps when it last fired, and is seeded anew exactly when time or zone moves |
| `ScheduleRunner.Runner.RemoveSchedule` | hub/src/schedules/schedules.service.ts:70-73 | removes that row only, and says whether it was there |
| `Jpeg.ReadJpegSize` | hub/src/cameras/frame-store.service.ts:240-259 | terminates and reads in bounds on every byte string, and returns what the recursive scan finds |
| `Jpeg.ScanAtHeader` | hub/src/cameras/frame-store.service.ts:249-253 | at a frame header the scan returns its encoded width and height |
| `Jpeg.ScanAtSegment` | hub/src/cameras/frame-store.service.ts:254-256 | any other segment is skipped whole, whatever bytes it holds |
| `Jpeg.ScanPastFill` | hub/src/cameras/frame-store.service.ts:243-247 | bytes that begin no marker are passed over one by one |
| `Jpeg.FrameMarkers` | hub/src/cameras/frame-store.service.ts:249-252 | exactly the thirteen frame headers of table B.1 of ITU-T T.81 end the scan |
| `Jpeg.ScanSegments` | hub/src/cameras/frame-store.service.ts:243-257 | any list of segments, with any bytes between them that begin no marker, is skipped |
| `Jpeg.RoundTrip` | hub/src/cameras/frame-store.service.ts:232-259 | writing a header (sections B.1.1.4 and B.2.2 of ITU-T T.81) after any segments and fill, and scanning it, give back exactly its dimensions |
| `Jpeg.VgaFrame` | hub/src/cameras/frame-store.service.ts:240-259 | the bytes of a concrete header give 640 by 480 |
| `Jpeg.Unreadable` | hub/src/cameras/frame-store.service.ts:240-259 | another file type, a segment shorter than its own length field, or too few bytes give nothing |
| `FrameStore.DroppingIsFiltering` | hub/src/cameras/frame-store.service.ts:91-91 | on arrivals in order, shifting from the front is filtering by age |
| `FrameStore.FilterTwice` | hub/src/cameras/frame-store.service.ts:87-92 | trimming at earlier arrivals loses nothing a later window would keep |
| `FrameStore.WindowStep` | hub/src/cameras/frame-store.service.ts:89-92 | the kept stamps stay equal to the full arrival history filtered to the window before the newest |
| `FrameStore.Arrival` | hub/src/cameras/frame-store.service.ts:80-95 | one arrival on one camera keeps the frame invariant of all cameras |
| `FrameStore.SlotTaken` | hub/src/cameras/frame-store.service.ts:111-116 | taking a slot keeps every camera's count equal to its open streams and within the cap |
| `FrameStore.SlotReturned` | hub/src/cameras/frame-store.service.ts:118-122 | returning one does too, and drops the entry at zero |
| `FrameStore.SweepingChangesNoAnswer` | hub/src/cameras/frame-store.service.ts:216-229 | a swept ticket could not be redeemed any more, and a redeemable one was never honoured before |
| `FrameStore.NewFramesAreSent` | hub/src/cameras/cameras.controller.ts:228-242 | every new frame a live stream is woken with is sent, told apart by number and not by time |
| `FrameStore.OnlyWokenFramesAreSent` | hub/src/cameras/cameras.controller.ts:233-257 | every part sent is a frame some wake of the loop delivered |
| `FrameStore.PartsAre` | hub/src/cameras/cameras.controller.ts:233-262 | exactly what a stream writes, in order: for each wake its new frame or else the buffered one again, up to the first wake that ends it; it has failed exactly if there a part could not be written |
| `FrameStore.FirstFrameIsFirst` | hub/src/cameras/cameras.controller.ts:224-231 | a new viewer sees the fresh buffered frame at once, and is not sent it again as new |
| `FrameStore.RecentAre` | hub/src/cameras/frame-store.service.ts:86-92 | the window keeps every arrival of the last five seconds, as often as it occurs, and no older one |
| `FrameStore.IdleStreamCloses` | hub/src/cameras/cameras.controller.ts:259-264 | past the idle timeout with nothing to show the stream is over, whatever would have come later |
| `FrameStore.Store.Put` | hub/src/cameras/frame-store.service.ts:80-95 | replaces that camera's frame under a fresh number and keeps the window invariant |
| `FrameStore.Store.PutFrame` | hub/src/cameras/frame-store.service.ts:84-92 | the tables after an arrival keep the window invariant of every camera |
| `FrameStore.Store.Trim` | hub/src/cameras/frame-store.service.ts:91-91 | the trimming loop |
| `FrameStore.Store.Get` | hub/src/cameras/frame-store.service.ts:129-134 | the newest frame unless absent or stale |
| `FrameStore.Store.ClaimViewer` | hub/src/cameras/frame-store.service.ts:111-116 | succeeds exactly below the cap of open streams |
| `FrameStore.Store.ReleaseViewer` | hub/src/cameras/frame-store.service.ts:118-122 | gives back exactly one slot of that camera |
| `FrameStore.Store.IssueTicket` | hub/src/cameras/frame-store.service.ts:205-210 | adds one unredeemed ticket; the sweep it runs changes no answer |
| `FrameStore.Store.RedeemTicket` | hub/src/cameras/frame-store.service.ts:216-222 | answers as if no ticket were ever swept, and consumes the ticket whatever the answer |
| `FrameStore.Store.SweepTickets` | hub/src/cameras/frame-store.service.ts:224-229 | removes exactly the expired tickets |
| `FrameStore.Store.Admit` | hub/src/cameras/cameras.controller.ts:189-200 | ticket first, then slot: forbidden, too many viewers or streaming, exactly when |
| `FrameStore.Store.Stream` | hub/src/cameras/cameras.controller.ts:184-272 | whichever way a stream ends, a throwing write included, its slot is given back and its ticket is spent; only a response head that cannot be written loses the slot |
| `FrameStore.Store.SendFrames` | hub/src/cameras/cameras.controller.ts:222-265 | the frames written for any pattern of wakes, up to a write that throws |
| `FrameStore.Store.StreamLoop` | hub/src/cameras/cameras.controller.ts:230-265 | the loop is the recursive form, wake by wake |
| `ResendQueue.PostIsBounded` | agents/security_agent/transport.py:262-311 | a post makes at most four requests, and success means the last was answered well to a holder of a token |
| `ResendQueue.PostSucceedsIff` | agents/security_agent/transport.py:262-311 | exactly which reply scripts let a post succeed: at once, after one enrollment, or after a second one |
| `ResendQueue.StaleTokenHeals` | agents/security_agent/transport.py:273-303 | a rejected token is replaced and the post retried, in three requests |
| `ResendQueue.PublishKeepsStoredToken` | agents/security_agent/transport.py:232-258 | before and after a whole publish, whatever the network does, the token on disk is the one in use |
| `ResendQueue.FlushSendsPrefix` | agents/security_agent/transport.py:191-200 | for every pattern of replies a flush acknowledges a prefix of the backlog in order and keeps the rest |
| `ResendQueue.FlushStopsAtFailure` | agents/security_agent/transport.py:191-200 | a flush goes on, one post an event, until a post fails or nothing is left |
| `ResendQueue.PublishRule` | agents/security_agent/transport.py:127-135 | one publish, post by post: the backlog oldest first up to the first failure, then the new event once, which is acknowledged or joins what is left |
| `ResendQueue.FlushConserves` | agents/security_agent/transport.py:191-200 | a flush loses, duplicates and reorders nothing |
| `ResendQueue.EnqueueConserves` | agents/security_agent/transport.py:180-189 | buffering an event keeps every event in one place, the backlog ordered and bounded |
| `ResendQueue.EnqueueKeepsNewest` | agents/security_agent/transport.py:180-189 | a full queue drops its oldest event and only that; any other drops nothing |
| `ResendQueue.PublishConserves` | agents/security_agent/transport.py:127-135 | one publish conserves every event, whatever the network does |
| `ResendQueue.OrderIff` | agents/security_agent/transport.py:127-135 | publish order of acknowledged then pending is kept if and only if the call does not overtake: one post of the flush is the first to fail, and the next one, the new event's, gets through |
| `ResendQueue.OvertakingHappens` | agents/security_agent/transport.py:127-135 | a concrete outage in which event 1 is delivered while event 0 still waits |
| `ResendQueue.HealthyCallDrains` | agents/security_agent/transport.py:127-135 | when every post of a call gets through the backlog goes out oldest first and then the new event |
| `ResendQueue.HealthyNetworkDrains` | agents/security_agent/transport.py:127-135 | with a token, a good reply each for the backlog and the new event leaves nothing waiting |
| `ResendQueue.RejectedTokenIsGone` | agents/security_agent/transport.py:243-258 | a token the hub rejects is never kept: after the post it is a fresh one from an enrollment, or there is none |
| `ResendQueue.RunConserves` | agents/security_agent/transport.py:127-200 | over any run: one place per event, bounded ordered backlog, and order kept while nothing overtakes |
| `ResendQueue.ExactlyOnePlace` | agents/security_agent/transport.py:127-200 | from an empty queue, every published event is exactly one of acknowledged, pending or dropped |
| `ResendQueue.HttpTransport.Attempt` | agents/security_agent/transport.py:313-322 | one request takes one reply |
| `ResendQueue.HttpTransport.Reenroll` | agents/security_agent/transport.py:204-258 | drops the token first; a new one only from a good answer that carries it |
| `ResendQueue.HttpTransport.Post` | agents/security_agent/transport.py:262-311 | success and connection state are those of the outcome function for every reply script |
| `ResendQueue.HttpTransport.FlushPending` | agents/security_agent/transport.py:191-200 | the flush loop is the recursive flush |
| `ResendQueue.HttpTransport.Append` | agents/security_agent/transport.py:180-189 | the bounded deque |
| `ResendQueue.HttpTransport.PublishEvent` | agents/security_agent/transport.py:127-135 | flush, post, buffer on failure; true exactly when the new event was delivered |
| `Evidence.ObserveKeepsInv` | agents/security_agent/evidence.py:89-96 | a frame keeps the recorder's invariant; a clip that fills has exactly the promised length |
| `Evidence.CloseKeepsInv` | agents/security_agent/evidence.py:186-196 | closing cuts a clip short but keeps it faithful |
| `Evidence.StepKeepsInv` | agents/security_agent/evidence.py:89-127 | every call keeps the invariant |
| `Evidence.RunKeepsInv` | agents/security_agent/evidence.py:89-196 | every run keeps the invariant |
| `Evidence.ClipsAreFaithful` | agents/security_agent/evidence.py:89-127 | for every call sequence clips are contiguous stretches of the observed frames, disjoint and in order, with the configured pre-roll before their trigger or as much as came since the clip before, the trigger's key, and exactly max(post, pre-roll held + 1) frames unless cut by `close` |
| `Evidence.TriggersMerge` | agents/security_agent/evidence.py:98-104 | a trigger during a clip belongs to that clip |
| `Evidence.TriggerOpens` | agents/security_agent/evidence.py:98-104 | otherwise it opens one at once with the pre-roll held so far |
| `Evidence.QueueRule` | agents/security_agent/evidence.py:108-127 | a finished clip with a frame in it is handed to the worker exactly while fewer than four wait, whichever call finishes it |
| `Evidence.EvidenceRecorder.OnFrame` | agents/security_agent/evidence.py:89-96 | is the observe step |
| `Evidence.EvidenceRecorder.OnTrigger` | agents/security_agent/evidence.py:98-104 | is the begin step |
| `Evidence.EvidenceRecorder.FinishClip` | agents/security_agent/evidence.py:108-127 | ends the clip, empties the pre-roll, and queues it unless empty or full |
| `Evidence.EvidenceRecorder.Shutdown` | agents/security_agent/evidence.py:186-196 | is the close step |
| `EdgeDetectors.ElapsedIsTrue` | agents/firmware/esp32/sensor_logic.py:104-113 | the masked difference is the true one modulo the wrap, never more, and equal below one wrap |
| `EdgeDetectors.MotionRemembers` | agents/firmware/esp32/sensor_logic.py:23-40 | all the detector knows of the past is the last level and the wrapped time of the latest fire |
| `EdgeDetectors.FiresAreSpaced` | agents/firmware/esp32/sensor_logic.py:28-40 | any two fires are high readings at least the cooldown of true time apart, across any number of wraps |
| `EdgeDetectors.FiresIff` | agents/firmware/esp32/sensor_logic.py:28-40 | exactly when a reading fires |
| `EdgeDetectors.WholeWrapsAreInvisible` | agents/firmware/esp32/sensor_logic.py:104-113 | a rising edge whole wraps after the last fire is suppressed |
| `EdgeDetectors.OneWrapSilences` | agents/firmware/esp32/sensor_logic.py:28-40 | a concrete reading list in which an edge one wrap after the last fire does not fire |
| `EdgeDetectors.DoorRemembers` | agents/firmware/esp32/sensor_logic.py:79-101 | the stable state folds the emissions from the baseline, and the candidate dates from the start of the present stretch |
| `EdgeDetectors.NewEmission` | agents/firmware/esp32/sensor_logic.py:89-101 | an emission reverses the reported state and rests on an unbroken stretch of equal readings spanning the debounce in true time |
| `EdgeDetectors.DoorEventsAreSound` | agents/firmware/esp32/sensor_logic.py:73-101 | for every reading sequence door events alternate from the opposite of the baseline and each is debounced |
| `EdgeDetectors.EmitsIff` | agents/firmware/esp32/sensor_logic.py:89-101 | nothing debounced is missed, up to the wrap |
| `EdgeDetectors.MotionDetector.Update` | agents/firmware/esp32/sensor_logic.py:28-40 | the method is the step the theorems run |
| `EdgeDetectors.DoorContact.Update` | agents/firmware/esp32/sensor_logic.py:73-101 | the method is the step the theorems run, for either kind of contact |
| `Sorting.SortIsSorted` | dashboard/src/lib/cluster.ts:46-48 | the sort is an ordered permutation for every total preorder |
| `Sorting.SortIsStable` | dashboard/src/lib/cluster.ts:46-48 | ties keep their order |
| `Sorting.SortedIsUnique` | dashboard/src/stores/ui.store.ts:87-90 | a comparison without ties leaves only one order |
| `Clusters.GroupAlerts` | dashboard/src/lib/cluster.ts:36-41 | the grouping loop is the recursive grouping |
| `Clusters.AddTo` | dashboard/src/lib/cluster.ts:37-40 | joins the alert to its group or opens one at the end |
| `Clusters.SummarizeAll` | dashboard/src/lib/cluster.ts:43-65 | one cluster per group, in group order |
| `Clusters.ClusterAlerts` | dashboard/src/lib/cluster.ts:33-74 | members together are a permutation of the input; clusters are told apart by type and agent; every figure is that of the members, newest first, with the open ids in order; and open comes before acknowledged, worse before milder, later before earlier |
| `Clusters.OneGroupIff` | dashboard/src/lib/cluster.ts:36-41 | two alerts land in one group exactly when they are of one type and one agent, where none counts as "system" |
| `Clusters.OpenIdsListOpen` | dashboard/src/lib/cluster.ts:63-63 | the open ids are those of exactly the unacknowledged members, in order |
| `Clusters.TriageOrderIs` | dashboard/src/lib/cluster.ts:69-74 | the comparison sorts by open, then severity, then recency |
| `Clusters.GroupingLosesNothing` | dashboard/src/lib/cluster.ts:34-41 | groups partition the alerts by key |
| `Clusters.GroupsAreFilters` | dashboard/src/lib/cluster.ts:36-41 | a group is the input filtered to its key, in input order |
| `Clusters.WorstIsMax` | dashboard/src/lib/cluster.ts:50-52 | the reduce finds a member of maximal severity |
| `Clusters.SummaryIsFaithful` | dashboard/src/lib/cluster.ts:46-64 | severity, first and last time, acknowledged flag, open ids and count are the maximum, minimum and maximum, conjunction, filter and size of the members |
| `Clusters.ReorderKeepsClusters` | dashboard/src/lib/cluster.ts:69-73 | sorting loses, merges and repeats no cluster |
| `Clusters.TiesKeepTheirOrder` | dashboard/src/lib/cluster.ts:46-48 | members raised at the same instant stay in input order |
| `AutoWatch.CandidatesAre` | dashboard/src/stores/ui.store.ts:82-91 | candidates are exactly the streaming cameras neither opted out nor kept |
| `AutoWatch.CandidatesAreDistinct` | dashboard/src/stores/ui.store.ts:82-91 | each once, when ids are unique |
| `AutoWatch.NeverEvicts` | dashboard/src/stores/ui.store.ts:62-93 | every watched camera still listed keeps its slot, in order, at the front; nothing absent is watched |
| `AutoWatch.SlotsGoInOrder` | dashboard/src/stores/ui.store.ts:70-93 | a slot stays free only when every live camera not opted out is watched, additions are candidates, and they are the first in location-then-id order |
| `AutoWatch.StartRule` | dashboard/src/stores/ui.store.ts:127-143 | starting takes a camera off the opt-outs and, while there is room, gives it the last slot; it never evicts |
| `AutoWatch.StopRule` | dashboard/src/stores/ui.store.ts:144-158 | stopping frees that slot only, forgets its pause and remembers the choice |
| `AutoWatch.PauseRule` | dashboard/src/stores/ui.store.ts:153-162 | pausing toggles that camera only; resuming all lifts every opt-out and nothing else |
| `AutoWatch.ReconcileIsIdempotent` | dashboard/src/stores/ui.store.ts:93-99 | reconciling again changes nothing |
| `AutoWatch.OrderOfListIsIrrelevant` | dashboard/src/stores/ui.store.ts:70-90 | any permutation of the camera list gives the same wall |
| `AutoWatch.ReconcileKeepsInv` | dashboard/src/stores/ui.store.ts:121-125 | reconciling keeps the wall sound |
| `AutoWatch.StartKeepsInv` | dashboard/src/stores/ui.store.ts:127-138 | starting keeps it sound, at capacity too |
| `AutoWatch.StopKeepsInv` | dashboard/src/stores/ui.store.ts:144-151 | stopping keeps it sound |
| `AutoWatch.StepKeepsInv` | dashboard/src/stores/ui.store.ts:121-162 | every camera action keeps it sound |
| `AutoWatch.WallStaysSound` | dashboard/src/stores/ui.store.ts:121-162 | over all action sequences: no duplicates, within the cap, disjoint from the opt-outs |
| `AutoWatch.StoppedStaysOff` | dashboard/src/stores/ui.store.ts:140-151 | a stopped camera stays off through any polls until it is started or all are resumed |

## Left out

- DailySeries.DaysAreConsistent: UTC and fixed whole-hour offsets, exactly where it holds; across a daylight-saving change a 24-hour step is not a calendar day (hub/src/reports/reports.service.ts:202-205), and such zones are not modelled.
- DailySeries.MergeDaily: dates are day numbers and the formatter is an arbitrary function; `Intl` and time-zone data are not modelled. The alert counts by day are taken as query rows.
- RetentionService.Service.Run: the alert prune is `HubService.Service.PruneAlerts`; pruning notifications and audit entries and reaping browser sessions would only repeat `DeleteInBatches`, so the sweep takes only whether they fail or are capped.
- RetentionService.Service.Sweep: two hubs sweeping retention at once are outside what the code guards.
- EventLog: an insert's stamp and its commit are one instant; `EventLogProofs.LateRowIff` says exactly what an older stamp would spoil.
- Reports.AgentReportIsExact: the watermark and the grouped query are read at one instant; `Reports.LateCountIs` is the same without that assumption.
- HubProofs.StepKeepsBase: an acknowledgement by a person (lookup, policy, update) is one step, and so are a mode read and the cooldown query after it. The hub and its database have one clock.
- HubTheorems.RepeatsAreBounded: timeout and cooldown are fixed for a run, and every alert belongs to an agent, since the code raises no other.
- HubTheorems.MarkedOfflineIff: the agent rows of ended browser sessions are not reaped in this machine.
- HubService.Service.Register: an agent's type, version, capabilities and token are not modelled.
- HubService.Service.Ingest: the event row itself is `EventLog`'s `Insert`; the two machines are not run together.
- Policy.AcknowledgeRule: case folding is for ASCII letters.
- ScheduleRuns.OneHubClaimsOnce: the local dates one hub reads are taken never to go back, and edits that move the boundary to come between ticks; `ScheduleRuns.MidTickEditFiresTwice` shows the second is needed.
- ScheduleRunner.Runner.Tick: nothing else writes the schedule table or the alerts while a tick runs; `ScheduleRuns` is where other writers interleave. Failing database writes are not modelled.
- ScheduleRunner.Runner.CreateSchedule: the schedule's name is not modelled, nor is HH:MM parsing.
- FrameStore.Store.Stream: what each wait returns, and which writes throw, are given as input in place of timers, sockets and the event emitter; the measured rate and status views would only add easy members.
- FrameStore.Store.IssueTicket: the random ticket is a parameter not used before; session, zone and audit checks before it are left out.
- ResendQueue.HttpTransport.Post: runs on one thread; the queue-full warning, the stored descriptor and backoff delays are left out. A reply is a status and perhaps a token.
- Evidence.ClipsAreFaithful: encoding, upload, frame sizes and the worker thread are left out; the worker only takes entries off the queue.
- EdgeDetectors.MotionDetector.Update: the warm-up hold-back after power-up lives outside these classes.
- AutoWatch.OrderOfListIsIrrelevant: ids and locations are given by their rank in the collation order; returning the very same array when nothing changed is about rendering.
- Clusters.ClusterAlerts: the key is the pair of type and agent rather than their concatenation.
- Severity and alert totals of a report, and the order in which a grouped report lists its rows: plain counts, or library sorting.
- Guards, roles to permissions, token hashing, DTO validation, foreign-key cascades, notification channels, audit rows, message texts, MQTT, the browser-camera provisioning flow beyond its agent row, and React components.
