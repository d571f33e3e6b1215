# Verified model of the DNS and network probing platform

A Dafny model of the stateful cores of a DNS and network probing platform, with machine-checked proofs of what
they promise. `dafny verify dfyconfig.toml` checks everything.

Database tables are sequences or maps, one SQL statement is one atomic step, probes and DNS answers are arbitrary
functions. Concurrent parts are state machines: an `Action` is one step of one goroutine or process, `Enabled` says
when it can be taken, `Apply` what it does, and `Runs` what a schedule is, so a lemma about all schedules is a
lemma about all interleavings. Sequential loops are methods, proved against functions whose own properties are
lemmas.

- **Probe jobs.** `ProbeRequeue` (publishing and republishing by any number of bridges), `ProbeAgent` (deduplication
  and execution at the agent), `ProbeDelivery` (results applied any number of times at once), `ExecutionStatus` (the
  roll-up of region rows while runs and results write them).
- **Batch engine.** `BatchPipeline` (launcher, workers, channel, writer, stop requests), `BatchSafety` (what every
  schedule keeps), `BatchOutcome` (what follows), `BatchWork` (the work list), `BatchInput` (parser and printer).
- **Trust library.** `TrustRecords` and `RecordLines` (records, keys, record lines), `Discovery` (the host worklist),
  `TrustReview` (batches, review and baselines), `CandidateDiff` (a batch against the baseline), `TrustImport`
  (manifests and upserts), `TrustBuild` (chunked, retried imports).
- **Risk.** `RiskEngine` (the fourteen verdicts), `RiskScan` (extraction, and a scan right after an approval).
- **Fast forms.** `IsoTime` (timestamp strings), `Ranking` (in-place ordering, top lists), `Scheduling` (node choice),
  `TtlCache` (a cache with eviction).
- `Text`, `Sums`, `Rounding` and `Wrappers` hold what the others share.

## What the proofs found

- `FirstOrCreate(&row, attributes)` looks rows up by every attribute that is not empty or false, not only by their
  key, and its insert fails on the unique key when the row is there with another attribute. So:
  - Discovery passes over a name server that is in the table already but was approved, disabled or annotated since
    (`Discovery.KnownNameServerIsSkipped`). It computes the closure without those hosts
    (`Discovery.DiscoverCandidates`), which is the full one exactly when no processed host names one of them outside
    the processed set (`Discovery.FullClosureExactly`), and so whenever all of them are selected
    (`Discovery.SelectingBlockedSuffices`).
  - A manifest import fails on a host approved since, or on a domain stored with another importance
    (`TrustImport.ChangedRowsRefuse`); it succeeds exactly when no row conflicts (`TrustImport.ImportSucceedsExactly`),
    and then the upgrade rules for owner, importance, notes and enabled never change anything
    (`TrustImport.UpgradesNeverAct`).
  - A build job can complete exactly when no stored row differs from the file's (`TrustBuild.CompletableExactly`), so
    not after one of its hosts has been approved.
- An insert replaces a false `enabled` by the column's default, so a manifest cannot add a disabled row
  (`TrustImport.AddedRowsAreEnabled`).
- `isoFormat` prints Go's zero time as the empty string. Order is kept exactly when the later of two times is not the
  zero time (`IsoTime.IsoOrder`), and a sorted list of events is chronological exactly when none lies before one at the
  zero time (`IsoTime.SortedByStringIsChronological`); times of year 0 can (`IsoTime.ZeroTimeBreaksOrder`).
- With k bridges a job's retry count can reach k + 2 and its publishes k + 3, not the 3 of the source comment; these
  bounds hold and are attained (`ProbeRequeue.RetriesBounded`, `ProbeRequeue.BoundIsReached`).
- `refreshExecutionStatus` reads the region rows and writes their aggregate in two statements. Taken as one step it
  leaves the right status (`ExecutionStatus.AgreesWhenQuiet`); taken as two it does exactly when the rows read last
  have the same aggregate as the rows that are there (`ExecutionStatus.AgreesExactly`), and a refresh overtaken by
  another leaves an execution "running" for good although all regions succeeded
  (`ExecutionStatus.OvertakenRefreshGoesStale`).
- A batch run whose flush failed ends without a verdict: its execution stays marked running, and only a stop request can
  still change it (`BatchOutcome.UnstoppedRunEnds`, `BatchOutcome.EndIsFinal`).
- Before the first run starts an execution is "pending", which is not the aggregate of pending rows ("running"); the
  agreement is therefore stated from the first completed run or application on.
- A build job whose process ends while it is marked running can neither continue nor be retried, because a retry is
  refused exactly in that status (`TrustBuild.StuckExactly`, `TrustBuild.CrashStrandsTheJob`). Failed jobs can.
- The risk engine normalises baseline name-server names twice and observed ones once. Unchanged rows read as a hijack
  exactly when a further normalisation changes the set of names (`RiskScan.NsNamesExactly`), which values without
  white space cannot do (`RiskScan.NsNamesKept`) and ". . a" does (`RiskScan.SpacedNameReadsAsHijack`).
- The joined keys `section|name|type|value` can collide when a field holds the separator
  (`CandidateDiff.SeparatorsCollide`); without it they lose nothing but the normalisation
  (`TrustRecords.ExactKeyInjective`).
- In `normalizeRegionCodes` the second cut to `limit` can never apply.

## Model

| member | source | states |
|---|---|---|
| ProbeRequeue.RetriesBounded | internal/bridge/bridge.go:180-221 | In every interleaving of k requeue loops, dispatchers and results, over any number of jobs, no job's retry count passes k+2 and it is published with success at most k+3 times |
| ProbeRequeue.BoundIsReached | internal/bridge/bridge.go:180-221 | For every k >= 1 some interleaving reaches both bounds |
| ProbeRequeue.LeaseHolds | internal/bridge/bridge.go:180-217 | After a republish no bridge, in no schedule, selects the job again before a whole lease has passed |
| ProbeRequeue.FirstLeaseHolds | internal/service/probe.go:243-250 | Nor after its creation |
| ProbeRequeue.LeaseRunsOut | internal/bridge/bridge.go:188-213 | If nothing else happens it can be selected again from the first moment after the lease on, and not before |
| ProbeRequeue.RepublishesApart | internal/bridge/bridge.go:195-217 | Two republishes of a job by one bridge are more than a lease apart |
| ProbeRequeue.FailsAfterRetries | internal/bridge/bridge.go:198-201 | A job is given up only with at least three counted retries, with one bridge exactly three |
| ProbeRequeue.RetriesArePublishes | internal/bridge/bridge.go:207-214 | A failed publish costs no retry: there are never more retries than successful publishes |
| ProbeRequeue.FailedPublishKeeps | internal/bridge/bridge.go:209-211 | It leaves every job as it was, so the next tick finds it again |
| ProbeRequeue.CompletedStays | internal/bridge/bridge.go:186-194 | A completed job whose dispatcher is through and which no bridge is handling stays completed and is never published again |
| ProbeRequeue.SilentAgentFails | internal/bridge/bridge.go:180-221 | When an agent stays silent, four publishes and a failure are what one bridge makes of the job |
| ProbeRequeue.StepKeeps | internal/service/probe.go:251-281 | Each database statement or publish keeps: what bridges still owe plus the retry count stays within k+2, and publishes stay within retries, republishes in flight and the first publish |
| ProbeRequeue.RunKeeps | internal/bridge/bridge.go:166-178 | So does every schedule |
| ProbeRequeue.SelectKeeps | internal/bridge/bridge.go:188-194 | A select of at most 50 expired rows keeps the bounds although other bridges hold older copies of the same rows |
| ProbeRequeue.NextRowKeeps | internal/bridge/bridge.go:195-216 | Failing an exhausted job, skipping one that cannot be published, and writing the raised count keep the bounds |
| ProbeAgent.ExecuteJob | cmd/agent/main.go:180-208 | One result per step in order, each the step's outcome (an unsupported protocol fails), and status success exactly when every step succeeded |
| ProbeAgent.Agent.OnJob | cmd/agent/main.go:110-120 | After any deliveries the started runs are the first deliveries of each job id |
| ProbeAgent.StartedRight | cmd/agent/main.go:109-120 | A job id runs at most once, and exactly the first delivery of each id runs |
| ProbeAgent.OnePayloadPerJob | cmd/agent/main.go:109-120 | Whatever is delivered and however often, all payloads published for one job id are the same |
| ProbeDelivery.AppliedOnce | internal/service/probe.go:292-358 | With any number of interleaved applications of a payload, as soon as one has finished the step rows, region row and ProbeResult rows are what one application leaves, and they stay so |
| ProbeDelivery.DeliveredOnce | internal/service/probe.go:292-358 | If the job was open and at least one copy arrived, then once all applications are through the tables are what one application leaves |
| ProbeDelivery.ApplyTwice | internal/service/tasks.go:370-400 | Applying a payload to the rows it left changes nothing |
| ProbeDelivery.SingleResult | internal/service/tasks.go:388-399 | At most one ProbeResult before means exactly one after, with the step row's protocol ("dns" without step rows) |
| ProbeDelivery.RowsAgree | internal/service/tasks.go:370-400 | After an application region row, first step row and the single ProbeResult agree on status, errors, latency and protocol |
| ProbeDelivery.RowShowsTheProbe | internal/service/probe.go:292-358 | From agent to region row: however often the payload of a one-step job is applied, the row ends as a success exactly when the probe succeeded |
| ProbeDelivery.RowsShowTheNetwork | internal/service/probe.go:312-330 | For a job of any number of steps: step row j shows status, latency, resolved target, detail and errors of what the network answered to step j in each of the five protocols, or the unsupported protocol; region row and ProbeResult show the first step |
| ProbeDelivery.ResultsKeepKey | internal/service/tasks.go:388-399 | With several ProbeResults their protocols stay different, none is added, and only the first may change, to the payload's result unless another row has its protocol |
| ProbeDelivery.LaterCopiesRefused | internal/service/probe.go:297-310 | While nobody else writes the status, copies that start after the completed mark are refused at their status check |
| ProbeDelivery.MarkedIsCompleted | internal/service/probe.go:301-310 | And the mark is there as soon as an application is past it |
| ProbeDelivery.WorkKeeps | internal/service/probe.go:312-345 | Every statement of an application leaves each row as it was or as one application leaves it |
| ProbeDelivery.OthersKeep | internal/service/tasks.go:370-400 | No statement undoes what another application has behind it, also when both insert the ProbeResult |
| ProbeDelivery.StepKeeps | internal/service/probe.go:297-310 | Status checks, the completed mark and outside status writes keep that too |
| ExecutionStatus.RefreshExecutionStatus | internal/service/scheduling.go:341-389 | The counting loop computes the aggregate of the region rows: status, counts, half-up ratio and message |
| ExecutionStatus.AggregateRight | internal/service/scheduling.go:364-386 | Running iff a row waits, success iff there are rows and all succeeded, failed iff none succeeded and none waits, partial iff none waits and some did and some did not; the counts and the ratio stay in range |
| ExecutionStatus.NumbersRight | internal/service/scheduling.go:345-386 | The count is the number of successful rows, the ratio their share to the nearest hundredth of a percent with halves up, and the message fits the status and counts the rows that no longer wait |
| ExecutionStatus.ResultsShown | internal/service/tasks.go:370-400 | However results arrive and refreshes interleave, a row shows the result that was applied to it, and a row without one is as it was |
| ExecutionStatus.RunsSkipSuccess | internal/service/tasks.go:304-308 | Runs leave alone every row that was a success when they began |
| ExecutionStatus.AgreesWhenQuiet | internal/service/tasks.go:285-338 | With any number of concurrent runs and result applications and each refresh one step, whenever nothing is in progress and something has completed the execution row is the aggregate of its region rows |
| ExecutionStatus.AgreesExactly | internal/service/scheduling.go:332-392 | Without that assumption the execution row is the aggregate of the rows its last writer had read, so it agrees with the region rows exactly when their aggregate is still that one |
| ExecutionStatus.OvertakenRefreshGoesStale | internal/service/scheduling.go:332-392 | An overtaken refresh leaves "running" for good although every row succeeded |
| BatchSafety.StepKeeps | internal/service/batch.go:403-559 | Every step of launcher, worker, writer or stop request keeps the pipeline invariant: counters count the workers, every handed-over row is in exactly one place, capacities, order, progress, stop bound, final reports |
| BatchSafety.ReachableKeeps | internal/service/batch.go:403-559 | The invariant holds in every reachable state |
| BatchSafety.WorkerKeeps | internal/service/batch.go:483-506 | A worker's steps (probe, done counter, success counter, send, leave) keep it |
| BatchSafety.WriterKeeps | internal/service/batch.go:434-474 | The writer's steps (receive, flush, tick, progress reads in their order, drain) keep it, whether flushes fail or not |
| BatchSafety.LaunchKeeps | internal/service/batch.go:476-552 | The launcher's steps (check, acquire, launch, wait, close, join, verdict) keep it |
| BatchSafety.AllStored | internal/service/batch.go:508-511 | When the writer is through and everybody has gone, stored and lost rows together number the launched items |
| BatchSafety.FinishingReports | internal/service/batch.go:520-552 | The final update reports exactly the stored rows: counts, ratio, and a status that is success iff all rows are, failed iff none is, else partial |
| BatchOutcome.ProbesInFlight | internal/service/batch.go:485-494 | At most BatchLocalConcurrency probes run at any time |
| BatchOutcome.NoSendAfterClose | internal/service/batch.go:505-510 | Nobody sends on the closed channel and it is closed once |
| BatchOutcome.ProgressWriteInRange | internal/service/batch.go:459-468 | Every progress write has counts >= 0 whose sum lies between the rows stored and the items launched |
| BatchOutcome.CountsInRange | internal/service/batch.go:459-468 | At every moment the stored counts are >= 0 and sum to at most the number of items |
| BatchOutcome.ProgressPercentInRange | internal/service/batch_reporting.go:20-44 | progressPercent stays in 0..100 when the run has at most max(1, stored regions) regions |
| BatchOutcome.FinishedIsComplete | internal/service/batch_reporting.go:20-44 | An unstopped run without a failed flush on as many regions as expected ends at exactly 100 percent |
| BatchOutcome.NoDeadlock | internal/service/batch.go:403-559 | Until the run has ended some goroutine can step |
| BatchOutcome.MeasureDrops | internal/service/batch.go:403-559 | Every step of the run lowers a natural number that stop requests leave alone |
| BatchOutcome.RunsTerminate | internal/service/batch.go:403-559 | So every schedule has a bounded number of steps |
| BatchOutcome.EndRows | internal/service/batch.go:419-474 | At the end there is exactly one row per launched item with its probe's verdict, stored or lost by a failed flush |
| BatchOutcome.UnstoppedRunEnds | internal/service/batch.go:508-552 | A run no stop touched ends with success + failed = rows = items; with the write error, still marked running, exactly when a flush failed; and as failed, having done nothing, exactly when there was no work |
| BatchOutcome.UnstoppedRunSays | internal/service/batch.go:520-552 | Its status is success iff every stored row (every probe) is, failed iff none is, partial iff some are and some are not; its counts are the numbers of such rows and its ratio the nearest hundredth of a percent |
| BatchOutcome.EndIsFinal | internal/service/batch.go:632-645 | Once a run has ended nothing can happen any more exactly when its status is final and no stop request is under way |
| BatchOutcome.UnstoppedRunCovers | internal/service/batch.go:376-424 | Without a failed flush the number of rows is regions x targets x protocols and every combination has its row |
| BatchOutcome.TaskCovered | internal/service/batch.go:376-424 | For a task: one row for every region and target in the task's protocol, or in each of the five when it is for all, and as many rows in all as there are such combinations |
| BatchOutcome.StopBoundsLaunches | internal/service/batch.go:476-491 | In every schedule that goes on after a stop request commits, at most BatchLocalConcurrency further items are launched |
| BatchOutcome.FewLaunchesAfterStop | internal/service/batch.go:476-491 | The same bound in every reachable state, counted from the first stop request |
| BatchOutcome.StopInTimeWins | internal/service/batch.go:516-645 | In every schedule that goes on after a stop request committed before the final check, the run can only end cancelled, with counts equal to its rows, which cover exactly a prefix of the work list when no flush failed (a run without work can also end as one that had nothing to do) |
| BatchOutcome.StoppedRunEnds | internal/service/batch.go:516-645 | The same in every reachable final state with such a stop behind it |
| BatchWork.BuildWorkItems | internal/service/batch.go:402-424 | The nested loops build the work list |
| BatchWork.WorkItemsRight | internal/service/batch.go:402-424 | Exactly the product of regions, targets and protocols, without repetition when those have none |
| BatchWork.WorkItemAt | internal/service/batch.go:409-424 | In this order: region by region, in it target by target, in that protocol by protocol |
| BatchWork.ExpandProtocolsRight | internal/service/batch.go:570-575 | A task for all protocols is for exactly the five; any other is for its own |
| Rounding.HalfUpRange | internal/service/batch_reporting.go:40-44 | A part of a whole rounds to at most 100.00 percent |
| Rounding.HalfUpNearest | internal/service/batch_reporting.go:40-44 | The result is the nearest hundredth, of two equally near ones the upper, and only that |
| BatchInput.IterBatchRows | internal/service/batch.go:104-139 | The line loop yields the trimmed, non-empty, non-comment lines with their numbers |
| BatchInput.ClassifyRow | internal/service/batch.go:74-96 | Invalid, duplicate or valid, given the valid names seen so far |
| BatchInput.CollectRecords | internal/service/batch.go:66-102 | The record loop and its final checks compute the parse |
| BatchInput.ParseBatchInput | internal/service/batch.go:62-138 | Text and txt input, the latter without its byte order mark |
| BatchInput.ParsedIsRight | internal/service/batch.go:62-102 | Every record is classified right by position; valid names are pairwise distinct first occurrences; total = valid + invalid + duplicate; lines rise |
| BatchInput.ParsedCovers | internal/service/batch.go:104-139 | The records are those of exactly the lines that are neither blank nor comments nor empty when normalised, each with its line number and trimmed text |
| BatchInput.ValidDomainShape | internal/service/batch.go:26-60 | A valid domain is two or more labels joined by dots, the last a top-level label |
| BatchInput.NormalizedMeans | internal/service/batch.go:51-55 | Trimmed, in lower case, less one final dot |
| BatchInput.PrintThenParse | internal/service/batch_reporting.go:119-141 | Printing a parsed text as targetsText and parsing it again gives the same raw and normalised targets, statuses, reasons and statistics |
| BatchInput.PrintThenParseTxt | internal/service/batch_reporting.go:119-141 | The same for a txt upload |
| RecordLines.PrintThenParse | internal/service/trust.go:526-549 | A record printed as "name TTL IN TYPE values" is read back, name normalised and type in upper case |
| RecordLines.AnyFormParses | internal/service/trust.go:526-549 | The same with the TTL, the class or both left out, when the type cannot be taken for them; fewer than four fields are refused |
| RecordLines.ParsedIsCanonical | internal/service/trust.go:526-549 | Whatever the line, types come out in upper case, so the key of a discovery is the input of the baseline hash |
| TrustRecords.SeenKeyOfHosts | internal/service/trust.go:612 | Discovery keys of different hosts never coincide |
| TrustRecords.SeenKeyInjective | internal/service/trust.go:612 | Discovery keys are equal iff host, section, name, type and trimmed value are, and hashed keys iff they are up to the case of the type, when section, name and type hold no separator |
| TrustRecords.ExactKeyInjective | internal/service/trust_reporting.go:425-431 | Exact and group keys are equal iff the normalised fields are, when section, name and type hold no separator |
| Discovery.DiscoverCandidates | internal/service/trust.go:592-646 | Processes each host of the least set closed under "NS name found, same domain, not in the table with other attributes" exactly once, creates the missing ones as manual drafts, represents each of their rows in section, name, type and value once, and terminates on any finite name universe although it creates hosts as it goes; refuses an empty selection |
| Discovery.FullClosureExactly | internal/service/trust.go:623-641 | That set is closed under all NS names of the domain exactly when no host of it names a blocked host outside it |
| Discovery.SelectingBlockedSuffices | internal/service/trust.go:592-642 | It is when every blocked host of the domains concerned is selected, which can be seen before the call |
| Discovery.KnownNameServerIsSkipped | internal/service/trust.go:627-640 | It need not be: a name server that was approved before is passed over |
| Discovery.ProcessHost | internal/service/trust.go:598-641 | One turn keeps the worklist invariant and lowers the number of unprocessed hosts |
| Discovery.FollowNames | internal/service/trust.go:623-641 | Every named host is in the table afterwards, once, and processed or queued unless its insert failed |
| Discovery.CollectRows | internal/service/trust.go:611-622 | Skipping seen keys across all hosts keeps the first row of each key of this host |
| Discovery.HostTable.FirstOrCreate | internal/service/trust.go:627-634 | Fails exactly for a host that is in the table with other attributes, creates exactly an absent one, otherwise finds the one row of the host; the pair (domain, name) stays unique |
| Discovery.LeastClosedUnique | internal/service/trust.go:592-642 | There is only one such least set, so order of queue and answers cannot show |
| Discovery.AllCandidatesDistinct | internal/service/trust.go:611-622 | No two candidates share a key, and each is a row of its host |
| Discovery.AllCandidatesCover | internal/service/trust.go:611-622 | Every row of every processed host is represented |
| Discovery.CandidatesRepresent | internal/service/trust.go:611-622 | In fields: no two candidates of a host agree in section, name, type and trimmed value, and every row of a host without separators has a candidate that agrees with it in all four |
| Discovery.FirstPerKeyExactly | internal/service/trust.go:611-622 | The candidates of a host are exactly the first rows of their keys |
| Discovery.NsValuesRight | internal/service/trust.go:508-511 | The names a host names are the values of its NS rows without dots at their ends |
| Discovery.FrontierStep | internal/service/trust.go:623-641 | Processing a queued host keeps everything reached necessary and everything named, unless blocked, reached |
| TrustReview.DiscoveryIsFit | internal/service/trust.go:611-622 | What a discovery collects meets what reviews rely on |
| TrustReview.TrustLibrary.ReviewOne | internal/service/trust.go:665-712 | The review of one host without refresh, error cases and the failed insert included |
| TrustReview.TrustLibrary.Review | internal/service/trust.go:665-718 | The review with the batch refresh |
| TrustReview.TrustLibrary.Bulk | internal/service/trust.go:790-832 | Reviews the hosts in scope in ascending order, skips failures, refreshes once |
| TrustReview.TrustLibrary.RefreshCandidateBatchStatus | internal/service/trust.go:751-787 | The counting loop sets the status so, and records the reviewer as approver only on an approval that makes the batch approved |
| TrustReview.TrustLibrary.BuildBaselines | internal/service/trust.go:686-698 | One baseline row per draft record with its hash; fails exactly when two hashes coincide |
| TrustReview.StepKeeps | internal/service/trust.go:552-832 | Every call keeps: one status per (batch, host), keys apart, derived batch statuses, and where each baseline came from |
| TrustReview.LibraryConsistent | internal/service/trust.go:751-787 | Over all sequences of calls records of one (batch, host) share one status, no two baseline rows of a host share a hash, and a batch is draft iff it has no record or one waits, approved iff none waits and one was approved, rejected iff it has records and all were rejected |
| TrustReview.LeavesDraftOnce | internal/service/trust.go:703-708 | A record that has left draft never changes again, and no record disappears |
| TrustReview.ApprovalNeverCollides | internal/service/trust.go:684-698 | With an injective hash no approval ever violates the unique key (host, rr_hash), alone or in bulk |
| TrustReview.BaselineIsOneBatch | internal/service/trust.go:684-702 | A host's baseline is empty until something is approved for it, and then, row by row, exactly what one batch holds for it, all approved, each with the hash of its record, with the host trusted |
| TrustReview.RebuildIsUnique | internal/service/trust.go:721-724 | The key discovery deduplicated on separates what the hash separates |
| TrustReview.BulkLeavesNoDraft | internal/service/trust.go:790-832 | After a bulk review no record of a host in its scope is in draft |
| TrustReview.TargetsRight | internal/service/trust.go:795-813 | The targets are the hosts in scope with a draft record, each once, ascending |
| TrustReview.BulkExactly | internal/service/trust.go:790-832 | A bulk review gives every draft of the batch whose host and domain are asked for (or not restricted) the decision and the reviewer, and changes no other record |
| TrustReview.ReviewRows | internal/service/trust.go:703-708 | A review of one host does so for the drafts of that host |
| CandidateDiff.BuildHostCandidates | internal/service/trust_reporting.go:336-421 | One group per batch with a candidate; its entries are the batch's records in order with their classes, its removed records the baseline keys it lacks |
| CandidateDiff.DiffIsPatch | internal/service/trust_reporting.go:384-416 | Baseline keys minus removed plus added and changed are the batch's keys; removed, unchanged and the rest are disjoint |
| CandidateDiff.AddedIsNotChanged | internal/service/trust_reporting.go:384-391 | Added and changed keys are disjoint when fields hold no separator |
| CandidateDiff.ClassesRight | internal/service/trust_reporting.go:384-391 | Without separators unchanged, changed and added mean: same record, same name and type with another value, neither |
| CandidateDiff.SeparatorsCollide | internal/service/trust_reporting.go:425-431 | With a separator two different records can share a key |
| CandidateDiff.LastOfKey | internal/service/trust_reporting.go:339-345 | Of baseline records with one key the report names the last |
| CandidateDiff.ApprovedBatchIsClean | internal/service/trust.go:684-696 | Right after approving a batch for a host the report shows every record of it unchanged and nothing removed |
| CandidateDiff.SourceBatchIsClean | internal/service/trust_reporting.go:336-421 | The batch a baseline came from always shows so |
| RiskEngine.Evaluate | internal/risk/engine.go:73-278 | The fourteen verdicts in order, each with its meaning stated on sets of records; record_deletion by name and type |
| RiskEngine.DeletionMeans | internal/risk/engine.go:88-131 | When names hold no separator a deletion is an answer of the baseline whose normalised name and type no observed answer has |
| RiskEngine.AnswerVerdictsMean | internal/risk/engine.go:77-119 | Unreachable, no service and empty answer, read off the rows |
| RiskEngine.NsNameVerdictMeans | internal/risk/engine.go:133-135 | Names are hijacked iff the baseline names a server, one is observed, and some name is among the ones and not among the others |
| RiskEngine.NsIpVerdictMeans | internal/risk/engine.go:136-146 | Addresses are hijacked iff the baseline has some of name servers, some are observed, and none of these is one of those |
| RiskEngine.RebindVerdictMeans | internal/risk/engine.go:148-184 | Rebinding, read off the rows |
| RiskEngine.CountAboveMeans | internal/risk/engine.go:198-209 | The slow samples are counted |
| RiskEngine.ReadNames | internal/risk/engine.go:77-95 | The baseline loops collect expected primary values, answer keys and name-server names |
| RiskEngine.ReadTtls | internal/risk/engine.go:153-167 | The least lower and the greatest upper bound of the answer addresses |
| RiskEngine.CheckRebind | internal/risk/engine.go:148-184 | More than one address, and of several classes, off the baseline, or with a TTL outside all bounds |
| RiskEngine.CheckDivergence | internal/risk/engine.go:186-196 | Hit iff two resolvers' normalised answers differ as multisets |
| RiskEngine.SignatureRight | internal/risk/engine.go:354-358 | Signatures are equal iff the normalised answers are equal as multisets |
| RiskEngine.CheckLatency | internal/risk/engine.go:198-209 | Sorting in place and reading one element decides whether enough samples exceed two seconds |
| RiskEngine.OrderStatistic | internal/risk/engine.go:201-208 | The k-th smallest sample exceeds a limit iff at least n - k samples do |
| RiskEngine.SetEqualRight | internal/risk/engine.go:311-321 | Equal sizes and one inclusion are set equality |
| RiskScan.Extract | internal/service/scanner.go:344-371 | The lists name exactly the zone's NS names, the host's answer addresses and the additional addresses, each once |
| RiskScan.ApprovedScanIsQuiet | internal/service/trust.go:684-696 | A scan that observes exactly the rows just approved reports no record deletion, empty answer, NS name or NS address hijack, and rebinding iff it is not allowed and the addresses are of different classes |
| RiskScan.NothingDeleted | internal/risk/engine.go:118-131 | Unchanged rows are never a deletion, without side conditions |
| RiskScan.EmptyAnswerExactly | internal/risk/engine.go:244-246 | On unchanged rows the answer is empty iff NOERROR and primary answers exist but none at the host |
| RiskScan.NsNamesExactly | internal/risk/engine.go:133-135 | On unchanged rows of the zone the names read as hijacked iff normalising once more changes their set |
| RiskScan.NsNamesKept | internal/risk/engine.go:133-135 | Which names without white space rule out |
| RiskScan.NsIpsKept | internal/risk/engine.go:136-146 | No address hijack when additional addresses are not empty and belong to name servers |
| RiskScan.ReboundExactly | internal/risk/engine.go:148-184 | On unchanged rows rebinding iff not allowed and addresses of more than one class |
| RiskScan.SpacedNameReadsAsHijack | internal/risk/engine.go:291-309 | One approved and observed NS row with white space reads as a hijack |
| TrustImport.NormalizeManifest | internal/service/trust.go:264-308 | Accepts iff every item has a domain and all share one supported environment, otherwise names the first faulty item's fault; normalises every item |
| TrustImport.NormalHostsRight | internal/service/trust.go:284-300 | A normalised item's hosts are distinct and are the apex and exactly the named ones |
| TrustImport.TrustTables.Upsert | internal/service/trust.go:339-373 | Create, find by all fields that are not empty and apply the upgrade rules, or fail on the unique key |
| TrustImport.TrustTables.ImportTrustManifest | internal/service/trust.go:312-394 | A refused manifest changes nothing; an accepted one has the effect of its rows in order up to the first conflict, and ends without error exactly when no row conflicts |
| TrustImport.ImportSucceedsExactly | internal/service/trust.go:337-394 | Rows are imported without error exactly when each agrees with the stored row of its key or, if there is none, with the first row of its key; the result is then known key by key |
| TrustImport.NewHostStored | internal/service/trust.go:376-387 | A new host is stored as a manual draft with each flag and the notes of its first mention in the first item for its domain |
| TrustImport.NewApexStored | internal/service/trust.go:296-300 | An apex that the item does not name is stored as a draft with no flag set |
| TrustImport.NewDomainStored | internal/service/trust.go:339-346 | A new domain is stored with owner, notes and importance of its first item, high when none is given |
| TrustImport.ManifestKeysExactly | internal/service/trust.go:337-387 | An import is about exactly the domains of its items, their apexes and the hosts they name |
| TrustImport.ChangedRowsRefuse | internal/service/trust.go:378-387 | An import fails when a stored row has another text than a given one or lacks a set flag (status, importance, owner, notes, any flag); over stored rows only it fails for nothing else |
| TrustImport.UpgradesNeverAct | internal/service/trust.go:350-391 | Whatever a lookup finds, the upgrade rules leave it as it is |
| TrustImport.ImportTwice | internal/service/trust.go:337-394 | Importing again changes nothing and succeeds or fails as the first time |
| TrustImport.CutOffImportLeavesNoTrace | internal/service/trust.go:337-394 | An import that starts over from any point that a cut-off or failed one had passed ends as one whole import, with its table and its outcome |
| TrustImport.ImportExtends | internal/service/trust.go:337-394 | No import, failed or not, changes or removes a row that is there |
| TrustImport.AddedRowsAreEnabled | internal/model/trust.go:8-45 | Whatever a manifest says, the rows an import adds are enabled |
| TrustBuild.BuildIsOneImport | internal/service/trust.go:876-959 | A completed build leaves the domains and hosts of one successful import of the whole file, however its runs overlapped, failed or were cut off; before that every stored row is as it was and every added one final |
| TrustBuild.BuiltLines | internal/service/trust.go:893-983 | Line by line: after a completed build the domain of every line and its apex are there, stored rows are as they were, and every other row is of some line, with its fields |
| TrustBuild.CompletableExactly | internal/service/trust.go:876-959 | A build can complete exactly when every chunk is accepted and no stored row of the file's keys differs from the file's |
| TrustBuild.ChunksPartition | internal/service/trust.go:893-899 | The chunks partition the lines |
| TrustBuild.StepKeeps | internal/service/trust.go:876-959 | Every statement of every run keeps what was reached, up to the checkpoint and up to each run's own position |
| TrustBuild.UpsertReaches | internal/service/trust.go:337-394 | A lookup and the insert after it leave the row at its final value or fail the run, whatever other runs did in between |
| TrustBuild.FileFitsExactly | internal/service/trust.go:337-394 | That a file fits the table is that its import as one manifest has no conflict |
| TrustBuild.AcceptedRight | internal/service/trust.go:972-983 | When the import accepts the manifest of a chunk |
| TrustBuild.RowsUniform | internal/service/trust.go:972-983 | All rows of a build carry the same payload for the same key |
| TrustBuild.StuckExactly | internal/service/trust.go:1009-1017 | A job without live runs is stuck iff it is marked running |
| TrustBuild.CrashStrandsTheJob | internal/service/trust.go:1009-1017 | That state is reached |
| IsoTime.IsoOrder | internal/service/riskboard.go:369-379 | String order is time order, absent fractions included, iff the later time is not the zero time |
| IsoTime.ZeroTimeBreaksOrder | internal/service/riskboard.go:369-379 | A pair of times for which it is not |
| IsoTime.IsoReads | internal/service/riskboard.go:369-379 | The string is year, month, day, hour, minute, second and, unless zero, the microsecond, each in its digits at its place, so the time can be read back |
| IsoTime.BuildRiskEvents | internal/service/riskboard.go:183-193 | The event list is the first part of the stably sorted events, loses none before the cut, and is chronological with the latest event first unless an event lies before one at the zero time |
| IsoTime.SortedByStringIsChronological | internal/service/riskboard_extra.go:165-168 | Stably sorting by string gives chronological order exactly when no event lies before one at the zero time |
| Ranking.InsertionPass | internal/service/riskboard.go:490-495 | The swapping pass over the array is the insertion of its elements one by one |
| Ranking.InsertAllPermutes | internal/service/batch_reporting.go:275-281 | The pass permutes |
| Ranking.InsertAllSorts | internal/service/batch_reporting.go:275-281 | The pass sorts by any strict weak order |
| Ranking.InsertAllStable | internal/service/riskboard.go:490-495 | The pass is stable |
| Ranking.CountPassRefinesNames | internal/service/riskboard.go:483-502 | The pass by count turns name order into (count descending, name ascending) |
| Ranking.MostCommon | internal/service/riskboard.go:483-502 | Exactly the top entries by (count descending, name ascending) |
| Ranking.TopListUnique | internal/service/batch_reporting.go:253-273 | There is one such list, so map iteration order cannot show |
| Scheduling.GetSingleExecutionNode | internal/service/scheduling.go:62-116 | Picks the rank-minimum of the preferred pool, online nodes first |
| Scheduling.GetDefaultNode | internal/service/scheduling.go:134-163 | Picks the rank-minimum of the region's schedulable nodes, or of all when the region has none |
| Scheduling.SingleChoiceMeans | internal/service/scheduling.go:26-116 | The chosen node is eligible if one is, of the mode if an eligible one is, and better than every other such node: online, reported online, remote, default, id; so an online remote node beats a local one unless the mode is local |
| Scheduling.DefaultChoiceMeans | internal/service/scheduling.go:134-163 | So is the default node within the region, or within all schedulable nodes when the region has none; with none schedulable the default node, then the least id |
| Scheduling.AutoModeAgrees | internal/service/scheduling.go:62-163 | In auto mode both pick the same node |
| Scheduling.OnlineFilterIsFree | internal/service/scheduling.go:26-51 | Filtering to online nodes first never changes the choice |
| Scheduling.ChoiceIgnoresRowOrder | internal/service/scheduling.go:134-163 | Neither does the order of the rows |
| Scheduling.LeastUnique | internal/service/scheduling.go:118-132 | The rank-minimum is unique |
| Scheduling.DefaultRegionCodes | internal/service/scheduling.go:202-265 | The codes are the best standing regions, best first, as many as the limit allows; the first is the best of all |
| Scheduling.BestCodesMean | internal/service/scheduling.go:202-265 | Every chosen region is at least as good as those behind it: a remote node online, any node online, any node; then not the global region, display order, id |
| Scheduling.NormalizeRegionCodes | internal/service/scheduling.go:172-200 | The known codes in order, cut to the limit, or the default; at most max(1, given codes) regions when there is no limit |
| Scheduling.KeepsOrder | internal/service/scheduling.go:181-188 | Kept codes are in the order of their first mention |
| TtlCache.SweepIsUnobservable | internal/service/riskboard.go:383-418 | Under a clock that never goes back, every get of every history answers as without eviction |
| TtlCache.GetAnswersLastSet | internal/service/riskboard.go:396-418 | A get answers the last set of its key if its time has not passed, else nothing |
| TtlCache.Cache.Get | internal/service/riskboard.go:396-404 | Answers from the remembered value and its deadline |
| TtlCache.Cache.Set | internal/service/riskboard.go:406-418 | Stores, and sweeps above 64 entries without changing what is remembered |

## Left out

- CSV input, file size and extension errors of the batch parser; text and txt are modelled.
- Repeats of a batch run by the task queue after a write error: the model is one run.
- Average latency, latency counters, daily metrics, `sortFloats` and `percentile`: they feed reports only.
- Task rows that mirror an execution's status, next cron runs, cron parsing and schedules.
- Database read errors, MySQL collation and column truncation; column defaults that replace empty values on insert, except that of `enabled` in TrustImport: statements store the values passed in.
- MQTT connection handling, heartbeats, LWT, agent registration: only duplicated, delayed and reordered messages matter, and a publish that succeeds or fails.
- Batch results inside `ApplyProbeJobResult`: every job the service creates is of kind "single".
- Real DNS, HTTP, ICMP and traceroute: results are arbitrary functions of run and step; a host's DNS answer is a function of the host.
- JSON encoding, SHA-256 (taken as injective where that matters) and IP classification (an arbitrary function).
- `ipSignature` prints its sorted list with single spaces; the model compares the lists.
- Floats: ratios are exact, in hundredths of a percent; latencies are reals.
- Letters outside ASCII are not case-mapped.
- ProbeRequeue.RetriesBounded: does not say which of several expired rows a select returns, because the code leaves it open. A completed job that a bridge or its dispatcher is just handling can be written back to published or failed; ProbeRequeue.CompletedStays is about the others.
- ExecutionStatus.AgreesWhenQuiet: takes each refresh as one step, because the code's two statements do not keep the promise (see ExecutionStatus.OvertakenRefreshGoesStale).
- BatchOutcome.StopInTimeWins: a stop that commits after the final check may be overwritten or win; nothing is claimed for it.
- TrustReview.StepKeeps: one call is one step; two reviews of the same host at once are not interleaved.
- TrustBuild.BuildIsOneImport: covers jobs with import_only; discovery and approval within a build are in Discovery and TrustReview.
- RiskScan.ApprovedScanIsQuiet: states its side conditions on the rows (`RiskScan.Regular`); EmptyAnswerExactly, NsNamesExactly and ReboundExactly say what happens without them.
- The choice of DNS queries per host (`buildHostDiscoveryPlan`), SOA fields and response codes of a scan, and the counters of a scan job.
- YAML and JSON syntax of manifests: the import starts from parsed items.
- HTTP handlers, authentication, PDF and XLSX reports, demo data, risk catalogues and message texts.
