# Atlas Operator: a verified model of its controllers

The project models the parts of the Atlas Operator that decide something over
time or over trees:

- **The AtlasSecurityScan reconciler.** A pass observes everything that can make
  a scan due, compares it with watermarks in the status, opens an attempt with a
  first status write, runs the scan, stores the report, commits all watermarks
  with a second write, and answers when to wake. `Cron` has the slot searches,
  `Grading` the findings and the verdict, `SecurityScan` the resource,
  `ScanController` the pass as functions, `ScanReconciler` the pass in place,
  `ScanPasses` the laws of single passes and of series of them, `ScanOutcomes` what
  makes a scan due, what makes it a success and what each way out publishes, in terms
  of the fields that are read and the answers that are given, `ScanRuns` and
  `ScanHistory` the transition system with spec edits, annotations, clock ticks,
  crashes and lost writes, and what every run of it keeps, and `ScanWitnesses`
  runs from a new resource that show what it does not promise.
- **The project configuration.** `Hcl` has the recursive merge on values,
  `HclNodes` the same merge working in place on parsed blocks, `HclAlgebra` its
  algebra, `HclPaths` what it does along a path, `HclShared` the merge where blocks
  are shared, `HclText` and `HclNormal` how strings are normalised, quoted and
  escaped; `ScanPolicyCheck` has the check
  that keeps a custom config from deciding what a scan reports, and
  `MigrationDrift` the file of a migration with its pre-apply drift check.
- **The smaller machines.** `Migration` has the AtlasMigration pass, its
  condition triple and its retries, and `MigrationOutcomes` which answers lead to
  which outcome; `PendingTracker` and `SchemaPending` the polling of plans that wait
  for approval; `DriftCheck`, `DriftOutcomes` and `DriftEvents` the drift check, its
  outcomes and its events; `Utf8` the cut of a description.

Time is an integer number of nanoseconds (type `Time`, the unit of
`time.Duration`). A parsed cron schedule is any pair of a set of instants and a
`Next` that is the least of them after a time. The inputs hash of an attempt is
the observation itself without its time, so equal hashes are equal observations.
A condition list is a map by condition type. Methods that change a resource or a
tree are proved against functions on values; the laws are about those functions.

## What the code does not keep

- **Idle is not always earned.** The comment on `SetIdle`
  (`api/v1alpha1/atlassecurityscan_types.go:357-359`) says that nothing pending
  and no stall imply a success for the current generation. A transient failure
  after a permanent stall lifts the stall although that generation never
  succeeded. `ScanHistory.OnlyATransientFailureUnearns` says exactly when that
  happens, `ScanWitnesses.IdleCanBeUnearned` gives such a run, and
  `ScanHistory.IdleIsEarned` is what holds in every run.
- **A stalled resource may finish several attempts for one hash.** The field
  comment of `InputsHash` (`api/v1alpha1/atlassecurityscan_types.go:256-257`)
  promises one finished attempt per distinct hash. The code compares with the last
  attempt only, and only once that one is finished: `ScanHistory.StalledGate` says
  that a stalled resource scans again exactly when its last attempt was interrupted
  or was for other inputs, and `ScanHistory.TriedInputsAgain` when it does so for
  inputs already tried. `ScanWitnesses.InputsTriedTwice` gives a run that comes back
  to tried inputs, and `ScanWitnesses.InterruptedRepeats` one that finishes two
  attempts in a row for the same inputs; that needs an interrupted attempt in
  between (`ScanHistory.EqualInputsMeanInterrupted`).
- **A failed attempt is woken late.** The comment on `wake`
  (`internal/controller/atlassecurityscan_controller.go:626-628`) says the delay
  is computed from now; `fail` and `stall` compute it from the start of the
  attempt (lines 664, 671, 675 and 700), while the delay counts from its end.
  `ScanPasses.FailureWakesOnTimeIff` says exactly when a failed pass still meets
  the next slot or waiver expiry on time, `ScanPasses.FailureWakesLateByTheScan`
  bounds the lateness by the time the attempt took, and `ScanWitnesses.WokenLate`
  gives a run: a waiver expires twelve seconds after a start, the attempt fails
  after ten, and the pass asks to be woken at fifteen. A pass that idled,
  succeeded or was gated is not late.
- **A remote directory no config touches can be refused for using both.** The
  rendered directory is normalised, quoted and escaped, and `render` looks for the
  raw URL in that text (`internal/controller/atlasmigration_controller.go:896-904`).
  `MigrationDrift.OwnDirRefusedIff` says exactly when it is refused: the URL is not
  in normal form, a character of the name is escaped, or one of the tag before its
  final backslashes. `MigrationDrift.QuotedTagIsRefused` gives the tag `a"b`, and
  `MigrationDrift.UncomposedTagIsRefused` a tag with a combining accent.
- **A migration may apply with another file than it read the status with.** Both
  are rendered from one config object, which the first merge shares blocks with.
  `HclNodes.RenderTwice` shows the files right for configs that are keyed once
  evaluated; `HclShared.RepeatedSiblingsChange` gives a config with repeated
  siblings of which the second file holds one check twice and the other not at all.
- **Not every failed migration counts towards the backoff limit.** A pass that
  fails to store the directory state has already marked the resource ready, so
  its failure count restarts at one, while `backoffLimit` is documented as the
  number of retries on error (`api/v1alpha1/atlasmigration_types.go:119-121`).
  `Migration.FailureCountsIff` says exactly which failures count,
  `Migration.EveryFailureCountsIff` exactly which series count all of theirs,
  `Migration.CountRestarts` gives two failures of which one counts, and
  `Migration.StoreFailuresNeverStop` shows the retries that never end.
- **A migration can be left reconciling with no wake-up**, exactly when it was
  migrated down with a run status the code does not name
  (`Migration.ReconcilingIsWoken`, with such a run in `Migration.LeftReconciling`).
- **A migration pass panics** exactly when it is allowed and prepared to go down
  and the directory holds no version to go down to
  (`internal/controller/atlasmigration_controller.go:488`, `Migration.PanicsIff`,
  with such a run in `Migration.GoesDownToNothing`).

## Model

| member | source | states |
|---|---|---|
| Cron.LatestSlotAtOrBefore | internal/controller/atlassecurityscan_controller.go:589-603 | The loop finds the greatest slot of (from, now], none when there is none, and now itself when there are more than 100000 |
| Cron.LatestSlotLeavesNone | internal/controller/atlassecurityscan_controller.go:589-603 | Whatever the search finds lies in the interval and leaves no slot after it, capped or not, so a commit settles the schedule |
| Cron.SlotsBetween | internal/controller/atlassecurityscan_controller.go:605-612 | The loop counts the slots strictly between two times, up to the cap |
| Cron.EverySlotAccountedOnce | internal/controller/atlassecurityscan_controller.go:280-313 | Over any sequence of uncapped commits, the slots covered plus the slots reported skipped are exactly the slots between the first and the last mark |
| Grading.CollectActiveWaivers | internal/controller/atlassecurityscan_controller.go:520-533 | The loop collects the ids of the waivers in force, each as often as it is waived |
| Grading.InForceMember | internal/controller/atlassecurityscan_controller.go:520-533 | An id is in force exactly when some waiver for it has no expiration or a later one |
| Grading.WaiversOnlyLapse | internal/controller/atlassecurityscan_controller.go:520-533 | As time passes the waivers in force only shrink, and change exactly when an expiration falls in between |
| Grading.Grade | internal/controller/atlassecurityscan_controller.go:838-883 | One pass reports the first occurrence of each (ID, Name) with its waiver and counts the rest; total plus waived is the number reported |
| Grading.TallyRows | internal/controller/atlassecurityscan_controller.go:878-881 | Every level appears in the summary, highest first, with the number of counted findings at it |
| Grading.FindingsAreFirstOccurrences | internal/controller/atlassecurityscan_controller.go:849-877 | The findings are exactly the first occurrences of each (ID, Name), in the order the CLI reported them |
| Grading.LevelsSumToKnown | internal/controller/atlassecurityscan_controller.go:867-881 | The four level counts add up to the counted findings exactly when every level is known |
| Grading.DecideVerdict | internal/controller/atlassecurityscan_controller.go:897-922 | The verdict's own pass: no threshold, violated when an unwaived finding reaches it, else within policy |
| Grading.WaivedIffCarried | internal/controller/atlassecurityscan_controller.go:864-866 | A reported finding carries a waiver exactly when its id is in force |
| Grading.VerdictAgreesWithSummary | internal/controller/atlassecurityscan_controller.go:840-922 | The two independent passes agree: the verdict is violated exactly when something was counted and the summary's highest level reaches failOn |
| Grading.ExpiryOnlyTightens | internal/controller/atlassecurityscan_controller.go:520-533 | For fixed findings, waivers expiring never turn a violated verdict compliant |
| SecurityScan.AtlasSecurityScan.SetFirstVisit | api/v1alpha1/atlassecurityscan_types.go:332-336 | The first visit writes all four conditions |
| SecurityScan.AtlasSecurityScan.SetScanning | api/v1alpha1/atlassecurityscan_types.go:338-347 | A running scan shows as reconciling, and as unknown readiness only before the first success |
| SecurityScan.AtlasSecurityScan.SetScanned | api/v1alpha1/atlassecurityscan_types.go:349-355 | A success observes the generation, writes the ready triple and clears the failures |
| SecurityScan.AtlasSecurityScan.SetIdle | api/v1alpha1/atlassecurityscan_types.go:357-367 | Idling writes what a success writes |
| SecurityScan.AtlasSecurityScan.SetRetrying | api/v1alpha1/atlassecurityscan_types.go:369-375 | A retried failure is not ready, reconciling and not stalled |
| SecurityScan.AtlasSecurityScan.SetStalled | api/v1alpha1/atlassecurityscan_types.go:377-383 | A stall writes all three conditions for one reason and observes the generation |
| SecurityScan.AtlasSecurityScan.SetSuspended | api/v1alpha1/atlassecurityscan_types.go:385-393 | Suspending keeps the last Ready and Compliant, clears the other two and observes the generation |
| SecurityScan.AtlasSecurityScan.CloseAttempt | internal/controller/atlassecurityscan_controller.go:703-709 | Closing writes the completion and the result of the last attempt |
| SecurityScan.AtlasSecurityScan.CloseOpenAttempt | internal/controller/atlassecurityscan_controller.go:711-717 | Only an attempt without a completion is closed, as failed |
| ScanReconciler.ReadTriggers | internal/controller/atlassecurityscan_controller.go:470-503 | The loop observes the triggers that exist in spec order and fails on the first failed read |
| ScanReconciler.TakeSnapshot | internal/controller/atlassecurityscan_controller.go:445-518 | The snapshot is one observation of generation, request, triggers, slot and waivers |
| ScanReconciler.Wake | internal/controller/atlassecurityscan_controller.go:626-650 | The delay is the least of the waits for a slot, for each later expiration and for a retry, at least a second, and absent exactly when there is no wait |
| ScanReconciler.Fail | internal/controller/atlassecurityscan_controller.go:652-676 | A failure counts, closes the attempt, and retries or stalls, or leaves an exhausted resource as it was; with the delay of each |
| ScanReconciler.Stall | internal/controller/atlassecurityscan_controller.go:694-701 | A permanent failure closes the attempt, stalls the resource and wakes for its schedule and waivers |
| ScanReconciler.MoveWatermarks | internal/controller/atlassecurityscan_controller.go:272-296 | The watermarks move to the snapshot, and the schedule's to the latest slot up to the completion |
| ScanReconciler.Commit | internal/controller/atlassecurityscan_controller.go:258-301 | A success writes watermarks, attempt, summary, next slot, readiness and verdict together |
| ScanReconciler.Succeed | internal/controller/atlassecurityscan_controller.go:258-322 | The commit, the missed slots of a routine catch-up, and the wake-up, after a second when a waiver lapsed meanwhile |
| ScanReconciler.RunScan | internal/controller/atlassecurityscan_controller.go:214-322 | Each way a scan can end, in the order the code meets them; a report that cannot be stored is retried and commits nothing |
| ScanReconciler.ScanTarget | internal/controller/atlassecurityscan_controller.go:214-257 | The steps of a scan in order, and the first that fails decides how it ends |
| ScanReconciler.ScanStore.StoreReport | internal/controller/atlassecurityscan_controller.go:258-271 | A report is stored or an error, and an error leaves the stored one as it was |
| ScanReconciler.BeginPass | internal/controller/atlassecurityscan_controller.go:153-212 | The pass up to its first write: first visit, suspended, invalid, idle, gated or opened |
| ScanReconciler.OpenIfDue | internal/controller/atlassecurityscan_controller.go:179-212 | From the snapshot to the first write |
| ScanReconciler.Reconcile | internal/controller/atlassecurityscan_controller.go:132-323 | The whole pass with both writes, either of which may fail, ends exactly as the two-half function says |
| ScanOutcomes.DueIff | internal/controller/atlassecurityscan_controller.go:535-571 | A scan is due unless a success is recorded and generation, request, every trigger with its uid and revision, slot and waivers are as it recorded them; the first that differs names the trigger |
| ScanOutcomes.NothingDueMeansRecorded | internal/controller/atlassecurityscan_controller.go:557-571 | Nothing is due only when every trigger observed is recorded exactly as it is |
| ScanOutcomes.ObservedIff | internal/controller/atlassecurityscan_controller.go:470-503 | The triggers observed are exactly the spec's, of a kind that is read, that exist, with the uid and revision read; a failed read of one fails the whole |
| ScanOutcomes.SlotsLookedFor | internal/controller/atlassecurityscan_controller.go:573-603 | No slot is found exactly when none up to now lies after the last covered one, or before there is one, after both the creation and the last success |
| ScanOutcomes.ValidIff | internal/controller/atlassecurityscan_controller.go:406-443 | The first thing wrong with a spec decides: its time zone, its schedule, its target or its custom config |
| ScanOutcomes.EarlyReturns | internal/controller/atlassecurityscan_controller.go:153-178 | What a first visit, a suspended and an invalid resource are left with, and when they are woken |
| ScanOutcomes.IdleLeaves | internal/controller/atlassecurityscan_controller.go:183-191 | With nothing due an interrupted attempt is closed as failed, and an unstalled resource is ready for its generation with no failures |
| ScanOutcomes.OpeningShows | internal/controller/atlassecurityscan_controller.go:201-209 | A scan shows as running exactly when nothing is stalled and none has succeeded or the spec changed, and Ready is kept after a success |
| ScanOutcomes.SucceedsIff | internal/controller/atlassecurityscan_controller.go:214-271 | A recorded attempt succeeded if and only if its inputs were read, the directory, the client and any login were there, the CLI reported one target without error or failure, and the report was stored |
| ScanOutcomes.FailureLeaves | internal/controller/atlassecurityscan_controller.go:214-271 | Which of the two failures, and for which reason, each missing condition gives: a rejected input or several targets stall without counting, the others count and are retried up to the limit |
| ScanOutcomes.UnstoredIsNoSuccess | internal/controller/atlassecurityscan_controller.go:269-271 | Without a stored report, the report and the time of the last success stay as they were |
| ScanOutcomes.DefaultLimit | api/v1alpha1/atlassecurityscan_types.go:305-312 | With no limit set, a resource stalls at the twenty-first consecutive failure |
| ScanOutcomes.PublishedVerdict | internal/controller/atlassecurityscan_controller.go:897-922 | A success publishes no verdict without a threshold, a violation if and only if the first report of some (ID, Name) that no waiver in force covers is, in the order Normal, Elevated, High, Critical, at or above it, and compliance otherwise |
| ScanOutcomes.LaterReportIsDropped | internal/controller/atlassecurityscan_controller.go:849-853 | With failOn High, a Critical report after a Normal one of the same (ID, Name) leaves the resource compliant |
| ScanOutcomes.PublishedStatus | internal/controller/atlassecurityscan_controller.go:272-301 | A success also publishes readiness for its generation, no failures, counts that add up to the findings, and the first slot after its completion |
| ScanOutcomes.CarriedIsFirst | internal/controller/atlassecurityscan_controller.go:885-895 | The waiver a finding carries is the first of its id in the policy |
| ScanPasses.WakeCovers | internal/controller/atlassecurityscan_controller.go:626-650 | The delay never reaches past a slot or an expiration, short of the one-second floor |
| ScanPasses.DueByTimeAlone | internal/controller/atlassecurityscan_controller.go:535-571 | What becomes due by time alone does so through a slot or an expiration in between |
| ScanPasses.NoMissedWakeUp | internal/controller/atlassecurityscan_controller.go:183-322 | After any pass that idled or succeeded, at t0, whatever is due at T > t0 with nothing edited is met by T or within a second of t0; no delay means nothing will be |
| ScanPasses.IdleMissesNothing | internal/controller/atlassecurityscan_controller.go:183-191 | The same for the idle branch alone |
| ScanPasses.SuccessMissesNothing | internal/controller/atlassecurityscan_controller.go:272-322 | The same for the success branch alone, also when a waiver lapsed during the scan |
| ScanPasses.CoveredIsLast | internal/controller/atlassecurityscan_controller.go:280-287 | The slot a success covers is the search's answer up to the completion, never behind the slot it started for |
| ScanPasses.CommitSettlesExactly | internal/controller/atlassecurityscan_controller.go:272-301 | After a success whose observed triggers have unique keys, nothing is due if and only if generation, request and waivers are as observed, every trigger now observed is recorded with its uid and revision, and no slot passed since the completion |
| ScanPasses.CommitSettles | internal/controller/atlassecurityscan_controller.go:272-301 | With unchanged inputs the check at the completion is quiet, even when slots passed during the scan or the search was capped |
| ScanPasses.ObservedUnique | internal/controller/atlassecurityscan_controller.go:470-503 | Unique trigger keys in the spec give unique observed triggers |
| ScanPasses.ScheduleWatermarkOrder | internal/controller/atlassecurityscan_controller.go:278-300 | The schedule watermark moves only forwards, never past the completion, and the next slot lies after it, also after a schedule edit or a capped search |
| ScanPasses.OpeningKeepsWatermarks | internal/controller/atlassecurityscan_controller.go:201-212 | Opening an attempt changes only the attempt and the conditions, and lifts no stall |
| ScanPasses.CrashRestarts | internal/controller/atlassecurityscan_controller.go:184-212 | An attempt lost after its first write starts again, for the same trigger, at the next pass that observes the same inputs |
| ScanPasses.NoErrorLeavesNothingOpen | internal/controller/atlassecurityscan_controller.go:145-152 | A pass that returns no error leaves no attempt open |
| ScanPasses.StallsAfterTheLimit | internal/controller/atlassecurityscan_controller.go:652-676 | From no failures, limit L > 0 stalls the resource at exactly the (L+1)-th consecutive transient failure |
| ScanPasses.RetryDelays | internal/controller/common.go:337-341 | The backoff components of that series are 5s, 10s, ..., 5L s, and none from the stall on |
| ScanPasses.UnlimitedNeverStalls | internal/controller/atlassecurityscan_controller.go:652-676 | With limit 0 the n-th failure is retried after 5n seconds and never stalls |
| ScanPasses.StalledConditionsDoNotMove | internal/controller/atlassecurityscan_controller.go:655-663 | Once retries are exhausted, further failures leave every condition as it is |
| ScanPasses.InputsChangeIff | internal/controller/atlassecurityscan_controller.go:505-518 | Two observations of one resource, search uncapped, differ exactly when a slot or an expiration falls between them |
| ScanPasses.StalledWaitsForACause | internal/controller/atlassecurityscan_controller.go:192-197 | A resource stalled on its limit starts another scan exactly when a slot or an expiration came since its last finished attempt |
| ScanPasses.GatedMissesNothing | internal/controller/atlassecurityscan_controller.go:192-197 | After a pass the gate turned away, the next attempt it lets through is not slept through |
| ScanPasses.FailureWakesLateByTheScan | internal/controller/atlassecurityscan_controller.go:655-701 | After a failed attempt, what comes due after its start is met late by at most the time the attempt took |
| ScanPasses.FailureWakesOnTimeIff | internal/controller/atlassecurityscan_controller.go:655-701 | A failed pass meets the first slot or expiration after the attempt's start on time if and only if the attempt took no time, that cause lay within a second of the start, or a retry ends before it |
| ScanPasses.FirstWait | internal/controller/atlassecurityscan_controller.go:626-650 | With a slot or expiration ahead, the delay is exactly the earlier of it and the retry, at least a second |
| ScanWitnesses.WokenLate | internal/controller/atlassecurityscan_controller.go:655-676 | From a new resource: a waiver expires after 12 seconds, the first attempt fails after 10, and the delay of 5 seconds wakes it at 15 |
| ScanHistory.StalledGate | internal/controller/atlassecurityscan_controller.go:192-197 | A pass over a resource stalled on its limit, with something due, opens an attempt if and only if the last attempt was interrupted or was for other inputs |
| ScanHistory.EqualInputsMeanInterrupted | internal/controller/atlassecurityscan_controller.go:192-197 | In any run, of two attempts stored as finished one after the other on exhausted retries for equal inputs, the second was opened after another attempt was opened and interrupted |
| ScanHistory.TriedInputsAgain | internal/controller/atlassecurityscan_controller.go:192-197 | After any run, a stalled resource scans inputs of an earlier attempt again if and only if the last attempt was interrupted or was for others |
| ScanRuns.StepsAreThePass | internal/controller/atlassecurityscan_controller.go:134-323 | The two halves of the transition system, run without interruption, store exactly what the reconciler stores |
| ScanRuns.NextKeepsInv | internal/controller/atlassecurityscan_controller.go:134-323 | Every step of environment and controller keeps the four invariants on conditions, times, reports and the observed generation |
| ScanRuns.RunKeepsInv | internal/controller/atlassecurityscan_controller.go:134-323 | So does every run from a new resource |
| ScanHistory.ConditionsStayCoherent | api/v1alpha1/atlassecurityscan_types.go:332-415 | In every run, after the first visit the four conditions exist, a stall shows not ready and not reconciling for one reason, and Ready rests on a success |
| ScanHistory.ReportBacksSuccess | internal/controller/atlassecurityscan_controller.go:269-301 | In every run, a recorded success at t implies a stored report completed at t or later |
| ScanHistory.CompliantMoves | internal/controller/atlassecurityscan_controller.go:297-301 | The verdict moves only with a recorded success or on entering the backoff stall |
| ScanHistory.OnlySuccessMovesWatermarks | internal/controller/atlassecurityscan_controller.go:272-299 | No watermark moves but with a recorded success |
| ScanHistory.CrashLosesNothing | internal/controller/atlassecurityscan_controller.go:145-212 | After a pass is cut off between its writes, by a crash or a lost final write, and any steps short of another stored end (time, failed reads, edits, further attempts cut off), the watermarks are as before it, and a pass that observes the same inputs starts a scan for the same trigger |
| ScanHistory.ScheduleWatermarkForward | internal/controller/atlassecurityscan_controller.go:278-300 | In every step the schedule watermark moves strictly forwards, up to the clock, and a success writes a later next slot |
| ScanHistory.CommitIsOneMark | internal/controller/atlassecurityscan_controller.go:278-313 | A recorded success moves the mark as one search from the old mark, and reports the slots strictly between as missed |
| ScanHistory.WatermarkFollowsCompletions | internal/controller/atlassecurityscan_controller.go:278-296 | Over any run with one schedule the watermark is the fold of the completions of its recorded successes |
| ScanHistory.RunAccountsEverySlot | internal/controller/atlassecurityscan_controller.go:278-313 | Over any such run without a capped search, slots covered and skipped are exactly the slots between the marks |
| ScanHistory.IdleIsEarned | api/v1alpha1/atlassecurityscan_types.go:357-367 | In every run, a pass that idles a resource to ready has a recorded success of that generation, or a recorded rejection of one of its inputs |
| ScanHistory.OnlyATransientFailureUnearns | internal/controller/atlassecurityscan_controller.go:652-676 | The exact step that leaves a generation observed, not stalled and never scanned: a recorded transient failure while stalled on a rejected input, within the limit |
| ScanWitnesses.IdleCanBeUnearned | api/v1alpha1/atlassecurityscan_types.go:357-367 | A run from a new resource that ends ready for a generation no scan of which succeeded |
| ScanWitnesses.InputsTriedTwice | api/v1alpha1/atlassecurityscan_types.go:256-258 | A run from a new resource with limit 1: stalled, it finishes an attempt for request a and one for b, then opens another with the inputs of the first |
| ScanWitnesses.InterruptedRepeats | api/v1alpha1/atlassecurityscan_types.go:256-258 | A run from a new resource with limit 1: stalled, it is interrupted in an attempt for request b, then finishes one for the inputs of the last finished before it |
| Hcl.Search | internal/controller/common.go:231-258 | The search finds the first block of the type with the labels; an env without one falls back to the first unlabelled env |
| Hcl.EvalEnv | internal/controller/common.go:287-315 | Evaluation changes only unlabelled env blocks named after the running env, into labelled ones |
| Hcl.RelabelledIff | internal/controller/common.go:287-316 | Exactly the unlabelled env blocks with name = atlas.env and no labelled env before them take the running env's label and lose that attribute; every other block stays as it is |
| Hcl.NestedEvalIsIdentity | internal/controller/common.go:271-303 | The evaluation of nested bodies changes nothing |
| Hcl.BlocksProvenance | internal/controller/common.go:216-272 | On every path of block types, a merge holds exactly the attributes of its two sides |
| Hcl.BlocksLabelled | internal/controller/common.go:216-272 | Into a list that has the labelled block, exactly the attributes below that label come in |
| Hcl.BlocksKeepKeys | internal/controller/common.go:216-229 | A merge keeps the destination's labelled block where it is |
| HclNodes.Node.FirstWith | internal/controller/common.go:245-248 | The loop finds the first block with the type and labels |
| HclNodes.Node.Find | internal/controller/common.go:231-258 | The search on parsed blocks answers as the search on values |
| HclNodes.Node.EvaluateEnvBlock | internal/controller/common.go:287-315 | The loop relabels in place exactly the blocks the evaluation names and stops at the first labelled env |
| HclNodes.Node.Append | internal/controller/common.go:274-285 | A source block becomes the last block of the destination, and part of its tree |
| HclNodes.Node.MergeChild | internal/controller/common.go:220-228 | One source block merges into its match in place, or is appended |
| HclNodes.Node.Merge | internal/controller/common.go:265-272 | Merging a block in place leaves the tree of the merged value |
| HclNodes.Node.MergeBody | internal/controller/common.go:216-229 | Merging a body in place, over shared and appended blocks, leaves the tree of the merged file, touches only the two trees, and ends because the source shrinks; of trees keyed once evaluated it leaves the source as its evaluation |
| HclNodes.Node.MergeList | internal/controller/common.go:220-228 | The loop over the source's blocks leaves the merged tree, and changes no block of the source when both trees are keyed |
| HclNodes.RenderTwice | internal/controller/atlasmigration_controller.go:383-393 | Two files rendered from one config that is keyed once evaluated are each the merge of a config parsed afresh |
| HclShared.RepeatedSiblingsChange | internal/controller/atlasmigration_controller.go:466-475 | From one config with repeated siblings, the first file has both of two checks and the second the last of them twice |
| HclAlgebra.MergeByKey | internal/controller/common.go:216-258 | The keys of a merge are the destination's followed by the source's new ones, and a lookup by key combines the two lookups |
| HclAlgebra.MergedLookup | internal/controller/common.go:216-272 | A lookup along any path in a merge finds the source's value if it has one, else the destination's |
| HclAlgebra.MergeKeepsKeyed | internal/controller/common.go:216-258 | A merge of keyed trees is keyed at every depth |
| HclAlgebra.MergeAssociative | internal/controller/common.go:216-272 | Merging is associative on keyed trees, order of blocks included |
| HclAlgebra.MergeWithSelf | internal/controller/common.go:216-272 | A keyed tree merged into itself is unchanged |
| HclAlgebra.MergeTwice | internal/controller/common.go:216-272 | Merging the same source again changes nothing |
| HclAlgebra.UnlabelledEnvAbsorbs | internal/controller/common.go:248-253 | Outside keyed trees the laws end: an unlabelled env takes in an env that has no block of its own yet |
| HclAlgebra.FileLaws | internal/controller/common.go:216-315 | Both laws for whole files under any running env |
| HclPaths.MergeAlongPath | internal/controller/common.go:216-272 | Along a path the destination has once, any merge keeps it once, however often the source repeats it, and the source's attributes override there in order |
| HclPaths.ChainProvenance | internal/controller/common.go:216-272 | Below the top level a chain of keyed blocks is in a merge exactly when it is in one of its sides |
| HclPaths.LabelledChain | internal/controller/common.go:216-272 | The same from the top level for a label the destination has |
| ScanPolicyCheck.CheckIsSound | internal/controller/atlassecurityscan_controller.go:777-836 | A config the check accepts leaves, after the merge, no exclude in the running env and no forbidden attribute in its or any top-level security block or cve block |
| ScanPolicyCheck.CheckIsExact | internal/controller/atlassecurityscan_controller.go:777-836 | On configs whose env blocks each carry one label, the check accepts exactly the configs that leave the policy in charge |
| ScanPolicyCheck.CheckReads | internal/controller/atlassecurityscan_controller.go:782-837 | A config is refused exactly for a policy attribute in a top-level security block, or one or an exclude in an env block without labels or with the running env among them |
| ScanPolicyCheck.EnvValues | internal/controller/atlassecurityscan_controller.go:755-758 | The file has the running env once, with the spec's URL unless the config sets its own, and otherwise the config's attributes alone |
| ScanPolicyCheck.CloudValues | internal/controller/atlassecurityscan_controller.go:750-754 | With a token the file has the cloud block once, with the token unless the config sets its own |
| ScanPolicyCheck.CloudOrigin | internal/controller/atlassecurityscan_controller.go:750-754 | The file has a cloud block exactly when there is a token or the config has one |
| ScanPolicyCheck.Render | internal/controller/atlassecurityscan_controller.go:747-767 | The file is refused exactly when neither the spec nor any config block that becomes the running env sets a database URL |
| ScanPolicyCheck.RunningEnvStays | internal/controller/atlassecurityscan_controller.go:755-764 | The operator's own env block stays the running env, in place, through the merge |
| MigrationDrift.HasGlobalDriftCheck | internal/controller/atlasmigration_controller.go:937-951 | The scan over all check blocks finds whether the config has a top-level drift check |
| MigrationDrift.AsBlocks | internal/controller/atlasmigration_controller.go:971-1016 | The operator's blocks, with the drift check exactly when the policy has drift and the config no global check |
| MigrationDrift.DriftCheckAddedOnce | internal/controller/atlasmigration_controller.go:1011-1014 | With drift and no global check, the rendered file has exactly one running env with exactly one check with exactly one drift block, the policy's attributes overridden by the config's, and no global check |
| MigrationDrift.EnvDriftOrigin | internal/controller/atlasmigration_controller.go:1011-1014 | The running env has a drift check exactly when the operator adds it or the config's own env has one |
| MigrationDrift.GlobalDriftIsTheConfigs | internal/controller/atlasmigration_controller.go:937-951 | The rendered file has a global drift check exactly when the config has one |
| MigrationDrift.Render | internal/controller/atlasmigration_controller.go:870-909 | A file is refused exactly for a missing URL, or when the final directory's source text, normalised and escaped as it is written, does not contain the remote URL; never for a missing env or directory |
| MigrationDrift.FinalAttributes | internal/controller/atlasmigration_controller.go:882-895 | The running env and its migration block end up with the operator's attributes overridden by the config's |
| MigrationDrift.EnvValues | internal/controller/atlasmigration_controller.go:989-996 | The file has the running env once, with the target's URL as url and the dev database's as dev, each absent when unset and overridden where the config sets it |
| MigrationDrift.MigrationValues | internal/controller/atlasmigration_controller.go:997-1010 | Its migration block has the remote directory at its tag or the local one as dir, and exec_order, baseline and revisions_schema as set, each unless the config sets its own |
| MigrationDrift.DriftValues | api/v1alpha1/atlasmigration_types.go:356-371 | The drift block added for a policy has the policy's on_error, FAIL by default, and its exclusions when there are any, unless the config sets its own |
| MigrationDrift.CloudValues | internal/controller/atlasmigration_controller.go:973-987 | With cloud settings the file has the cloud block once, with token, url and project as set, unless the config sets its own |
| MigrationDrift.CloudOrigin | internal/controller/atlasmigration_controller.go:973-987 | The file has a cloud block exactly when there are cloud settings or the config has one |
| MigrationDrift.OwnDirRefusedIff | internal/controller/atlasmigration_controller.go:896-904 | A remote directory the config leaves alone is refused if and only if its URL is not in normal form, its name has a character that is escaped, or its tag one that is not part of a final run of backslashes |
| MigrationDrift.QuotedTagIsRefused | internal/controller/atlasmigration_controller.go:896-904 | The remote directory app at tag a"b, with no config, is refused for using both a remote and a local directory |
| MigrationDrift.UncomposedTagIsRefused | internal/controller/atlasmigration_controller.go:896-904 | So is app at tag cafe with a combining acute accent, under any normal form that composes the two characters |
| HclNormal.NormalQuotationContains | internal/controller/atlasmigration_controller.go:1001 | A string with a plain start up to its first colon is found in the quotation of its normal form exactly when it is that form and nothing but a final run of backslashes is escaped |
| HclNormal.ComposedNormalises | internal/controller/atlasmigration_controller.go:1001 | What is used of the normal form holds of a function that composes characters |
| HclText.QuotationContains | internal/controller/atlasmigration_controller.go:1001 | A string with a plain start up to its first colon is found in its own quotation exactly when nothing but a final run of backslashes is escaped |
| HclText.ReadsBack | internal/controller/atlasmigration_controller.go:1001 | What a string is written as reads back, escapes and template openers resolved, as the string |
| Migration.AtlasMigration.SetReconciling | api/v1alpha1/atlasmigration_types.go:243-264 | Reconciling alone is true, for one reason, and the failures are cleared |
| Migration.AtlasMigration.SetReady | api/v1alpha1/atlasmigration_types.go:266-286 | A success starts the status afresh with Ready alone true |
| Migration.AtlasMigration.SetNotReady | api/v1alpha1/atlasmigration_types.go:288-324 | A failed reason stalls and counts; any other reconciles and does not |
| Migration.AtlasMigration.ResultErr | internal/controller/atlasmigration_controller.go:802-816 | A failure is retried after 5 seconds times the count, and not at all past the limit |
| Migration.AtlasMigration.ResultPending | internal/controller/atlasmigration_controller.go:818-825 | Waiting is polled every 5 seconds |
| Migration.AtlasMigration.Reconcile | internal/controller/atlasmigration_controller.go:277-328 | The steps in order, each way out with its status and requeue |
| Migration.AtlasMigration.ApplyChanges | internal/controller/atlasmigration_controller.go:447-464 | Down, nothing or up by what the status reports, and the resource is marked ready exactly when that succeeds |
| Migration.AtlasMigration.MigrateDown | internal/controller/atlasmigration_controller.go:477-546 | The steps of going down in order, and each run status the code names |
| MigrationOutcomes.Announces | internal/controller/atlasmigration_controller.go:337-351 | A new resource, and one ready for other data, is marked reconciling with no failures and comes back at once |
| MigrationOutcomes.FailsIff | internal/controller/atlasmigration_controller.go:277-328 | For every failure reason but that of storing, a pass stalls for it with one more failure counted if and only if its answers are the ones listed for it, in the order of the steps |
| MigrationOutcomes.WaitsForDevDB | internal/controller/atlasmigration_controller.go:466-475 | A pass waits for a dev database, uncounted and polled every 5 seconds, if and only if there is work to do and none to be had |
| MigrationOutcomes.WaitsForApproval | internal/controller/atlasmigration_controller.go:519-527 | A pass waits for an approval, uncounted and polled every 5 seconds, if and only if its run down waits for one |
| MigrationOutcomes.ReadyWhen | internal/controller/atlasmigration_controller.go:447-464 | Nothing to do, one report of an apply and a finished run down leave the resource ready for the data read, or failed once when its directory cannot be stored |
| MigrationOutcomes.PassesOver | internal/controller/atlasmigration_controller.go:518-546 | A run down with a status the code does not name leaves the status as it was, unless its directory cannot be stored |
| Migration.PassKeepsCoherent | internal/controller/atlasmigration_controller.go:277-328 | Whatever a pass meets, it leaves a coherent triple |
| Migration.SettersKeepTriple | api/v1alpha1/atlasschema_types.go:230-327 | After any sequence of calls of the three setters, of either resource, with any reasons and generations and any number of them in a pass, the condition the last call names is the only true one of the three, all carry its reason and generation, and the count is the failures since it was last cleared |
| Migration.TripleOverRuns | internal/controller/atlasmigration_controller.go:130-145 | In every status a run of AtlasMigration passes reaches, exactly one of Ready, Reconciling and Stalled is true, for one shared reason and generation, Stalled for failures alone and Ready without failures |
| Migration.ReadyIsCurrent | internal/controller/atlasmigration_controller.go:338-351 | A pass that leaves the resource ready leaves the hash of the data that pass read, and no requeue |
| Migration.ReconcilingIsWoken | internal/controller/atlasmigration_controller.go:479-546 | A pass that leaves the resource reconciling leaves no wake-up if and only if every step succeeded, the database was ahead of a directory that is not empty, going down was allowed and prepared, and the run status was none the code names |
| Migration.LeftReconciling | internal/controller/atlasmigration_controller.go:514-546 | A new resource visited once and migrated down with such a status is reconciling and not woken |
| Migration.PanicsIff | internal/controller/atlasmigration_controller.go:479-489 | A pass panics if and only if it goes down, allowed and prepared, with no available version |
| Migration.GoesDownToNothing | internal/controller/atlasmigration_controller.go:479-489 | A new resource visited once, whose database has one applied version and whose directory none, panics |
| Migration.EveryFailureCounts | internal/controller/atlasmigration_controller.go:802-825 | Over passes that fail early or wait, the failure count is the number that failed |
| Migration.RetriesAreBounded | internal/controller/atlasmigration_controller.go:802-816 | With limit L > 0 and the spec left alone, the failures before success ask for 5L(L+1)/2 seconds of backoff in all and then for none, whatever waiting comes between |
| Migration.FailureCountsIff | internal/controller/atlasmigration_controller.go:323-325 | A failing pass adds one to the count if and only if the count was empty or it did not bring the database to its data first; otherwise the count restarts at one |
| Migration.EveryFailureCountsIff | internal/controller/atlasmigration_controller.go:802-816 | Over a series of failing passes the count grows by their number if and only if none of them, but the first on an empty count, succeeded before it failed |
| Migration.CountRestarts | internal/controller/atlasmigration_controller.go:323-325 | From a new resource with limit 1, two failures in a row of which the second restarts the count and is retried |
| Migration.StoreFailuresNeverStop | internal/controller/atlasmigration_controller.go:323-325 | Passes that fail to store the directory state have count one each time and are retried every 5 seconds for ever |
| PendingTracker.Tracker.Delay | internal/controller/common.go:357-376 | The entry is kept for the same key and restarted for another, and the doubling loop answers the delay for the time waited |
| PendingTracker.Tracker.Reset | internal/controller/common.go:378-383 | Only the named resource is forgotten |
| PendingTracker.DelayIsLeastDoubling | internal/controller/common.go:371-375 | The delay is the least doubling of 5 seconds that covers the time waited, at most 5 minutes |
| PendingTracker.DelayIsMonotone | internal/controller/common.go:371-375 | Waiting longer never shortens the delay, between 5 seconds and 5 minutes |
| PendingTracker.PollDelays | internal/controller/common.go:357-376 | A resource that starts waiting and is polled at the returned delays keeps the entry of its first poll and waits 5, 5, 10, 20, 40, 80, 160 seconds, then 5 minutes each time |
| SchemaPending.OnlyPendingTrackedInRuns | internal/controller/atlasschema_controller.go:115-125 | In every interleaving of passes, deletions and restarts, a tracked resource outside a pass is one whose last pass ended waiting for approval |
| SchemaPending.TrackedMeansPending | internal/controller/atlasschema_controller.go:121-135 | After a pass that stored its status, a tracked resource has the stored Ready reason ApprovalPending |
| SchemaPending.TrackedSinceFirstPoll | internal/controller/atlasschema_controller.go:343-351 | An entry dates from a poll before which the resource was not tracked, or for another plan, and after which it was never forgotten nor polled for another plan |
| SchemaPending.FirstPollIsKept | internal/controller/atlasschema_controller.go:343-351 | And a poll that starts an entry stays what the resource is tracked since, in every interleaving, until it is forgotten or polled for another plan |
| SchemaPending.StoredWasWritten | internal/controller/atlasschema_controller.go:121-135 | The stored reason is the one the last stored write wrote, also when later writes were lost |
| DriftCheck.AtlasDriftCheck.ApplyReport | api/v1alpha1/atlasdriftcheck_types.go:224-246 | A completed check stores its report; fingerprint and summary only with drift |
| DriftCheck.AtlasDriftCheck.SetOutcome | api/v1alpha1/atlasdriftcheck_types.go:248-254 | The standard conditions of a completed check |
| DriftCheck.AtlasDriftCheck.SetChecked | api/v1alpha1/atlasdriftcheck_types.go:157-168 | A check without drift |
| DriftCheck.AtlasDriftCheck.SetDrifted | api/v1alpha1/atlasdriftcheck_types.go:170-186 | A check with drift, stalled exactly when the action is Fail |
| DriftCheck.AtlasDriftCheck.SetCheckFailed | api/v1alpha1/atlasdriftcheck_types.go:188-198 | A failed check keeps the last result and makes Drifted unknown |
| DriftCheck.AtlasDriftCheck.SetTargetNotReady | api/v1alpha1/atlasdriftcheck_types.go:200-211 | A busy target touches Reconciling only |
| DriftCheck.AtlasDriftCheck.SetSuspended | api/v1alpha1/atlasdriftcheck_types.go:213-222 | Suspension touches Reconciling only |
| DriftCheck.AtlasDriftCheck.RunCheck | internal/controller/atlasdriftcheck_controller.go:152-185 | Each outcome of a run with its status and the time of the next, errors classified in the code's order |
| DriftCheck.AtlasDriftCheck.Run | internal/controller/atlasdriftcheck_controller.go:187-209 | The steps of a check in order, and the first that ends it |
| DriftCheck.AtlasDriftCheck.ClassifyError | internal/controller/atlasdriftcheck_controller.go:343-379 | A timeout before a held lock before the lasting errors before the rest |
| DriftOutcomes.Suspends | internal/controller/atlasdriftcheck_controller.go:154-158 | A suspended check writes Reconciling alone and is not woken |
| DriftOutcomes.TargetDecides | internal/controller/atlasdriftcheck_controller.go:217-235 | A target being applied is waited for half a minute, one not found fails for good, one that cannot be read is retried |
| DriftOutcomes.DataDecides | internal/controller/atlasdriftcheck_controller.go:237-254 | Transient data errors are retried; lasting ones, and a local directory without a dev database, fail for good |
| DriftOutcomes.StepsDecide | internal/controller/atlasdriftcheck_controller.go:256-297 | Of the steps up to the connection the first that fails decides, and only a missing login fails for good |
| DriftOutcomes.ErrorDecides | internal/controller/atlasdriftcheck_controller.go:343-379 | A timeout is retried whatever else the error says; a held lock leaves the status alone and is retried after half a minute; a missing login, a missing history and the other lasting errors stall until the next interval |
| DriftOutcomes.ReportDecides | internal/controller/atlasdriftcheck_controller.go:299-331 | Exactly one report is a result, stored with its fingerprint and summary only with drift; any other number fails for good |
| DriftOutcomes.ReportShows | internal/controller/atlasdriftcheck_controller.go:324-330 | A result shows no drift, or drift, which stalls exactly for the Fail action |
| DriftCheck.AtlasDriftCheck.RecordTransitions | internal/controller/atlasdriftcheck_controller.go:381-411 | The events of a change of conditions |
| DriftCheck.AtlasDriftCheck.Reconcile | internal/controller/atlasdriftcheck_controller.go:124-150 | A pass: the run, then the events of what it changed |
| DriftEvents.SkippedRunsAreSilent | internal/controller/atlasdriftcheck_controller.go:154-175 | Suspended, busy and locked runs raise nothing and change at most Reconciling and the observed generation |
| DriftEvents.RunsAgree | api/v1alpha1/atlasdriftcheck_types.go:157-254 | In every run Drifted decides what Ready may say, and a clean check has no fingerprint |
| DriftEvents.DriftWasDetected | internal/controller/atlasdriftcheck_controller.go:391-394 | A stored drift goes back to a detection event, and lasted since |
| DriftEvents.ResolvedTwiceMeansDetected | internal/controller/atlasdriftcheck_controller.go:391-398 | Between two resolutions, the first of them stored, there is a detection |
| DriftEvents.ChangedWhileDrifted | internal/controller/atlasdriftcheck_controller.go:395-396 | A change event comes with a new fingerprint, after a detection with no stored resolution in between |
| DriftEvents.DriftNeverVanishes | internal/controller/atlasdriftcheck_controller.go:381-411 | When drift stops being reported, a resolution or a failed check is the one event raised |
| DriftEvents.SameFailureReportedOnce | internal/controller/atlasdriftcheck_controller.go:399-410 | After a stored failure, the same failure is not reported again while only skipped runs and itself come between |
| DriftEvents.NewFailureIsReported | internal/controller/atlasdriftcheck_controller.go:399-410 | A failing run raises its event exactly when the stored status does not already show it |
| Utf8.Truncate | internal/controller/atlassecurityscan_controller.go:955-965 | The loop backs up to the start of a character |
| Utf8.ValidIsEncoded | internal/controller/atlassecurityscan_controller.go:955-965 | The texts taken as valid are exactly the encodings of code points other than surrogates |
| Utf8.ValidPrefix | internal/controller/atlassecurityscan_controller.go:955-965 | A prefix of valid UTF-8 is valid exactly when it ends where a character starts |
| Utf8.CutIsLongestValidPrefix | internal/controller/atlassecurityscan_controller.go:955-965 | The cut of a valid text is its longest valid prefix within the limit, at most 3 bytes short of it, and cutting again changes nothing |

## Left out

- Kubernetes, the Atlas CLI, the database, temporary directories: their answers are parameters of a pass (`PassIO`, `IO`), any answer at any time.
- Cache staleness: a pass reads the status last stored; a Get that fails or finds nothing ends the pass without a trace and is no step.
- External deletion of a stored report.
- Cron parsing, time zones, and the library's five-year search horizon: `Next` is the least firing instant, however far.
- The rounding of `metav1.Time` to seconds when a status is stored, and the wall clock running backwards within a run.
- SHA-256 collisions, and what the lines that are hashed do not tell apart, such as a newline in the request annotation or a comma in a waiver id: equal hashes are equal observations.
- Condition messages and transition times, the condition's own observed generation in the scan model, `triggeredBy`, log lines, and every scan event but the count of missed slots.
- Report contents beyond the findings: extensions, versions, titles, target description; upper-casing of levels; the width of the int32 counts.
- `minSeverity`, watches, predicates, the metrics collector, devDB creation, prewarming, RBAC.
- HCL tokens and layout: attributes are a map of values, comments and newlines are dropped, the tables of printable characters and of normal forms are parameters with the properties that are used of them, and a config is never the same object as the file it merges into.
- The blocks a file starts from are built as values, and `Render` merges values; the merge in place is HclNodes.
- HclNodes.Node.Merge: overrides the attributes in one assignment, where the code sets them one by one in name order, which only decides the text order of new ones.
- ScanPolicyCheck.CheckIsSound: speaks of the env labelled with the running name; an unlabelled env left in the merged file can take in another env through the fallback of the search.
- HclAlgebra.MergeAssociative: is for trees where each type and label list occurs once per body and every env is labelled; repeated siblings collapse into one on a merge.
- ScanHistory.StalledGate: closing an interrupted attempt while nothing is due counts as finishing it, as in the code.
- HclShared: leaves out labels and the evaluation of env blocks, which its one config has none of.
- Migration.RetriesAreBounded: is for passes that fail before the resource is marked ready; the failure that follows it is Migration.StoreFailuresNeverStop.
- AtlasSchema beyond its condition triple and its tracker: its steps, lint and plan policy; one of its passes may count a WhoAmI error besides its own, as the sequences of Migration.SettersKeepTriple may.
- `AutomaticDevDBSpec`, the driver tables and `Diff.AsBlock`: straight-line data.
- Jitter of the drift check's retry, and the text of its error classification, which is read as flags.
