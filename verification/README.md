# Verified model of the enterprise billing platform

This project models, in Dafny, the parts of the platform in which a mistake silently costs money or
locks somebody out, and proves what they promise over every run. To check it:
`dafny verify dfyconfig.toml`.

| part | modules | what is proved |
|---|---|---|
| Usage ingestion | `UsageLogs`, `BucketKeys`, `UsageTables`, `SettlementPlan`, `Settlement`, `BackfillPlan`, `Backfill`, `Ingestion`, `IngestionGuarantees`, `BackfillCoverage`, `BothSides`, `LedgerLogs`, `IngestionCalls`, `BillingReconcile`, `BillingLedger` | over every interleaving of forward passes, backfill slices, requeues, payments and crashes: each log reaches the ledger at most once, visible logs reach it at least once, the ledger is the sum of the logs, read from log and directory, each log is charged at most once, a finished backfill left nothing out on either side of its boundary |
| Escrow | `EscrowBuckets`, `EscrowRuns`, `Escrow`, `EscrowCalls` | conservation of released and held money, no over-release of the upstream window, first-in-first-out release, last-in-first-out refund, and what a reconcile does to the window |
| Concurrency and rates | `KeyedLock`, `KeyedLocker`, `CircuitBreaker`, `UpstreamClient`, `TokenBucket`, `AttemptLimiter` | mutual exclusion and exact reference counts, exactly when a key is had, when the breaker lets a call through and when it locks up, the token bound, the exact back-off in spite of 64-bit wrap-around |
| Attribution | `KeyRotation`, `KeyStore`, `Attribution` | a token keeps its slot and its member for ever, so a log keeps its ledger bucket; members name current tokens |
| Quota push | `OverrideRuns`, `Overrides` | the pushed quota converges to base plus active grants |

Each part has the same shape. Functions say what one step does to the state. A step machine
(`Apply`, `Exec`) runs any sequence of steps, and the main lemmas hold for every sequence. Classes
hold the code's own loops and in-place updates, and their methods are proved to compute those
functions or to take those steps, so the results about runs are results about the methods.

## Environment

- Upstream logs have unique, immutable ids. What is visible may change in any way between two scans
  and is fixed during one; a query returns a closed time window, newest id first, in pages of 100.
- A transaction commits as a whole or not at all. Details are never purged (retention 0).
- An upstream quota change is applied once and succeeds, or is not applied and fails. Which of the
  two, what members spend meanwhile, who is leader, and every clock reading are parameters.
- Money and counters are unbounded integers; token rates are real numbers. Only the login back-off
  wraps at 64 bits.

## Where the code and its promises part

- Forward settlement and backfill stop bisecting at a window of two seconds, not one as their
  comments say. A window is read whole if and only if its two adjacent seconds fit in 2000 rows
  (`SettlementPlan.SubWindowFits`, `BackfillPlan.WindowFits`). The billing check bisects to one second.
- A call whose body cannot be encoded returns without telling the circuit breaker. With no call left
  that has still to report and the cooldown over, the breaker refuses if and only if the call that
  got its probe ended like that and no call has reported since (`CircuitBreaker.RefusedIffMuted`). A
  call that nobody is under way beside locks the breaker up, for ever, if and only if it is let
  through while the breaker is not closed (`CircuitBreaker.UnencodableCallWedgesIff`,
  `CircuitBreaker.WedgedForever`); over every run in which such calls are only ever let through while
  it is closed, it never locks up (`CircuitBreaker.NeverWedges`).
- The limiter cuts its wait to whole nanoseconds and its caller takes a wait of zero for a token, so
  less than a nanosecond's shortage lets a caller through without one. Everybody let through takes a
  token in every run if and only if the rate earns a token in a whole number of nanoseconds; at any
  other rate there is no bound on those let through (`TokenBucket.EveryonePaysIff`,
  `TokenBucket.NoBoundOtherwise`).
- Finalizing a member keeps its current token that of its primary slot if and only if it has no
  primary slot yet. Nothing in the repository layer checks that: a finalize that comes twice, or after
  a self-service key (a restore makes any member active), leaves the member beside its primary slot
  (`KeyRotation.FinalizeIff`, `KeyRotation.LateFinalizePointsBeside`).
- Nobody repeats a refused push. A refused change of `d` leaves a right quota right if and only if base
  and grants add up to at most zero before and after it (`OverrideRuns.RefusedPushIff`, and
  `OverrideRuns.RefusedChangesIff` for any number of changes in any interleaving).
- The hourly billing check compares the logs of member tokens with all of an organisation's ledger
  buckets. For a fully settled hour it reports an organisation with counted logs if and only if it
  also consumed something through tokens of no member (`BillingLedger.SettledHourReports`).

## Model

| member | source | states |
|---|---|---|
| Ingestion.AtMostOnce | service/settlement.go:170-366 | over every run of scans, commits, aborts, enqueues, requeues, backfill reads outside the lock, writes under it, payments and crashes, no log id is posted to the ledger twice |
| Ingestion.LedgerIsDetail | repo/settlement.go:84-93 | in every reachable state each bucket is the sum of the detail rows with its key, exists exactly when there are such rows, and no posted row was dropped by the detail insert |
| LedgerLogs.LedgerIsLogs | service/settlement.go:66-161 | in every reachable state a bucket holds exactly the quota of the posted logs of its user, model and hour whose organisation and key are those of their token, or else of their user with key 0, read from log and directory; each posted log has one row that says so |
| IngestionGuarantees.AtLeastOnce | service/settlement.go:187-276 | a positive log made by a member's token or by the user of an organisation, not older than the baseline and visible to the first pass that starts after it, has its detail row if that pass's predecessor moved the cursor by at most 600 s and the rescan range held at most 500 rows |
| IngestionGuarantees.ChargedOnceAndOnlyForward | service/settlement.go:313-366 | in every reachable state total consumed is exactly what committed forward passes with observation off, billing on and a balance row present ingested; no two of them share a log; the balance identity holds |
| IngestionGuarantees.PaymentsAreBooked | repo/balance.go:64-115 | in every reachable state a balance row has exactly what was paid in and what was paid back while covered; no pass or backfill moves either |
| IngestionGuarantees.FirstPassExists | service/settlement.go:187-200 | committed passes leave no gap: every second between the baseline and the last start lies before the start of some first pass |
| BackfillCoverage.JobStatesMean | repo/backfill.go:108-147 | in every reachable state a pending job stands at its boundary, a done one at or below zero, and the recorded windows form a gapless descending chain from the boundary to where the job stands |
| BackfillCoverage.WindowsDescend | service/backfill.go:150-164 | a later window of a job lies strictly below an earlier one |
| BackfillCoverage.DoneMeansCovered | service/backfill.go:123-272 | a done job's backfill-side positive logs of its user from second 1 on, shown to their window where no two adjacent seconds exceed 2000 rows, and of a known token or an organisation's user when it was written, all have detail rows |
| BothSides.NoGapAtTheBoundary | service/backfill.go:78-114 | over every run, once an organisation's backfill is done each positive log of its user from second 1 on, shown and linked on its own side of the boundary, has its detail row, the window of a pass in flight when the boundary was read included |
| SettlementPlan.PlanIsSound | service/settlement.go:235-310 | what a scan is about to post repeats no log, none of it is in the detail table, and after the commit all of it lies at or below the new watermark |
| SettlementPlan.PassSettlesExactly | service/settlement.go:235-366 | a log not yet settled is settled by a pass if and only if it costs something, a member's token or an organisation's user made it, and it is among the newest 500 rows of the 600 s before the cursor, or among the newest 2000 of the window and above the id watermark; its row names the token's owner, or else the user's organisation with member and key 0 |
| SettlementPlan.SubWindowFits | service/settlement.go:209-225 | the bisected window is read whole if and only if its first two seconds together fit in 2000 rows |
| SettlementPlan.SubWindowIsWidest | service/settlement.go:209-225 | the whole window is taken if and only if it holds at most 2000 rows or is one second long; otherwise what is taken is the near half of a window that held more |
| SettlementPlan.FirstPassSetsBaseline | service/settlement.go:170-199 | who is not leader changes nothing; the first pass moves only the cursor, to 5 s before now |
| SettlementPlan.PassMovesCursor | service/settlement.go:200-366 | every later pass commits if and only if its window is not empty, upstream answers and every billing flag it needs can be read, in observation mode too; it then stands at the window's end, 5 s before now whenever that can be read whole, with the watermark at the largest id read |
| SettlementPlan.MaxIDBounds | service/settlement.go:285-297 | the new id watermark is the largest id read in the main window, never below the old one |
| BackfillPlan.WindowFits | service/backfill.go:255-272 | the bisected backfill window is read whole if and only if the user's last two seconds fit in 2000 rows |
| BackfillPlan.WindowReachesDown | service/backfill.go:255-272 | a window reaches down to 0 if and only if everything up to its end holds at most 2000 rows of the user, or it ends at second 1; otherwise it is the near half of one that held more |
| BackfillPlan.KeepPicks | service/backfill.go:183-207 | what a window keeps is exactly the positive logs of the job's user before the boundary second, or in it with an id up to the boundary's, each once |
| BackfillPlan.WindowSettlesExactly | service/backfill.go:183-250 | a log without a row is settled by a written window if and only if it is among the user's newest 2000 rows of the window, of the job's history, and made by a member's token or an organisation's user; no balance, cursor or job moves |
| BackfillPlan.SliceMovesOneJob | service/backfill.go:123-168 | a tick moves the status and progress of one job and nothing else of the jobs, no balance and no cursor |
| BackfillPlan.SliceComesDown | service/backfill.go:123-168 | a job is done if and only if it has come down to 0; a tick without failures ends it or moves it down by two seconds a window at least; one that fails leaves it running, and something did fail |
| BackfillPlan.TickFinishes | service/backfill.go:123-168 | ticks that meet no failure finish a job: windows for half its seconds always suffice, and one does when the user's whole history can be read whole |
| BucketKeys.KeyTextInjective | service/settlement.go:119-122 | the bucket text determines organisation, user, key, model and hour, whatever characters the model name contains |
| BucketKeys.HourBucket | service/settlement.go:649-652 | the start of the hour a second lies in |
| UsageTables.AttributedRight | service/settlement.go:67-108 | exactly the logs made by a member's token or by an organisation's user are attributed, to the token's owner, or else to the organisation with member and key 0, and the row says so field by field |
| UsageTables.NothingIgnored | repo/usage_report.go:81-105 | the detail insert drops no row of a batch that repeats no log and meets none |
| UsageTables.InsertIgnoreHas | repo/usage_report.go:81-105 | rows already there stay, every log of a batch has a row afterwards, and one is added only for a log that had none |
| UsageTables.PostingAgrees | repo/settlement.go:84-93 | posting grouped sums and inserting the rows keeps every bucket equal to the sum of its rows |
| UsageTables.Deduct | repo/settlement.go:113-128 | evaluated left to right, the deduction leaves the balance identity true and moves only the consumed total |
| IngestionCalls.PassIsRun | service/settlement.go:170-366 | a settlement call is a scan step followed by its commit |
| IngestionCalls.TickIsRun | service/backfill.go:123-168 | a backfill tick, with any read, write or progress error, is a run of the machine |
| UsageLogs.SelectNarrower | adapter/newapi/logs.go:28-44 | a narrower time window never shows more rows |
| UsageLogs.ReadPages | service/settlement.go:278-304 | the page loop returns the newest rows of the window, at most the page limit, in the order shown |
| Settlement.Store.AdvanceCursorTx | repo/settlement.go:47-60 | moves time and id forward only and the version by one, exactly when the version still matches |
| Settlement.Store.AddToLedgerBucketTx | repo/settlement.go:84-93 | adds to one bucket, creating it, and to no other |
| Settlement.Store.InsertUsageDetailTx | repo/usage_report.go:81-105 | inserts each row whose log id is new and ignores the others |
| Settlement.Store.FilterExistingDetailLogIDs | repo/usage_report.go:146-185 | of the given ids, exactly those in the detail table |
| Settlement.Store.DeductBalanceTx | repo/settlement.go:113-143 | one organisation's deduction, or nothing when it has no balance row |
| Settlement.Store.NextBackfillJob | repo/backfill.go:39-57 | a job that is not done, or nothing exactly when all are |
| Settlement.Store.RequeueBackfillJob | repo/backfill.go:139-147 | back to the boundary and pending, unless a slice is running |
| Settlement.Store.UpdateBackfillProgress | repo/backfill.go:124-135 | moves one job's cursor and nothing else |
| Settlement.Store.InsertBackfillJob | repo/backfill.go:27-35 | a pending job at the boundary, unless the organisation has one |
| Settlement.SettleSink.Lookup | service/settlement.go:67-108 | the cached lookup gives the owner of a known token, else the organisation of the user with member and key 0, and nothing exactly when there is neither |
| Settlement.SettleSink.IngestEntry | service/settlement.go:66-139 | one log becomes one row, which says whose it is, in the group of its own bucket, or none when no token and no user of ours made it; fails exactly when a billing flag it needs cannot be read |
| Settlement.Service.CommitUsageOnly | service/settlement.go:146-161 | posts every group and inserts the rows; balances, cursor and jobs stay as they are |
| Settlement.Service.SumPerOrg | service/settlement.go:309-314 | the per-organisation totals over groups are the sums over that organisation's rows |
| Settlement.Service.DeductAll | service/settlement.go:330-354 | each organisation with billing on, new consumption and a balance row pays its sum, whatever the order of the loop |
| Settlement.Service.CommitTx | service/settlement.go:321-366 | all of the transaction or, when the cursor's version has moved, none of it |
| Settlement.Service.BisectWindow | service/settlement.go:209-225 | the loop ends, at the window end the specification bisects to |
| Settlement.Service.RescanLate | service/settlement.go:235-276 | the rescan yields the positive logs of the overlap not yet in the detail table, and never moves the id watermark |
| Settlement.Service.PickMain | service/settlement.go:278-304 | main-window logs above the watermark that cost something, and the new watermark |
| Settlement.Service.RunSettlement | service/settlement.go:170-366 | a whole pass leaves the database as the specified pass does, and fails exactly when it was leader's, later than the baseline and with a window, and changed nothing |
| Backfill.BackfillService.EnqueueBackfill | service/backfill.go:78-104 | the boundary is the forward cursor, after a forced baseline when there was none; a blank user name changes nothing |
| Backfill.BackfillService.BackfillLowerBound | service/backfill.go:255-272 | the loop ends, at the bound the specification bisects to |
| Backfill.BackfillService.BackfillOneWindow | service/backfill.go:177-250 | reads, filters, drops what is settled and writes; an error changes nothing |
| Backfill.BackfillService.RunBackfillSlice | service/backfill.go:123-168 | a tick takes an unfinished job, when there is one, through at most the given windows, records progress after each, and marks it done at or below zero; it fails exactly when a read, write or progress update of a window it reaches fails |
| BillingReconcile.TilesExactly | service/settlement.go:520-555 | the sub-windows hold every log of the hour exactly once if and only if no single second exceeds 2000 rows |
| BillingReconcile.SubEndIsWidest | service/settlement.go:520-555 | a sub-window is all that is left of the hour if and only if that holds at most 2000 rows or is one second; otherwise it is the near half of one that held more |
| BillingReconcile.ScanIsPlainSum | service/settlement.go:481-555 | each organisation's sum over the sub-windows is its plain sum over the hour, unless a second exceeds 2000 rows |
| BillingReconcile.ReconcileBilling | service/settlement.go:473-575 | for given settled amounts, reports exactly the organisations with counted logs whose logged and settled sums differ; fails exactly when a needed billing flag cannot be read |
| BillingLedger.SumLedgerByOrgForBucket | repo/settlement.go:225-241 | the settled amounts: per organisation the sum of all its buckets of the hour |
| BillingLedger.HourSumIsRows | repo/settlement.go:225-241 | where ledger and detail agree, that is the sum of its detail rows of the hour |
| BillingLedger.CheckHour | service/settlement.go:473-575 | the whole check, logs against those amounts |
| BillingLedger.SettledHourReports | service/settlement.go:484-575 | for a fully settled hour an organisation is reported if and only if it has counted logs and consumed something through tokens of no member |
| EscrowRuns.Conservation | service/escrow.go:111-143 | over every run of recharges, repeated transfer numbers, refills, refunds, reconciles, spending, failed upstream calls and crashes: released plus held is recharged minus refunded, the balance identity holds, bucket 1 is the only active one, numbers are distinct, no holding bucket is empty |
| EscrowRuns.NoOverRelease | service/escrow.go:97-157 | in every run the window never passes its cap, and window plus spending passes the released amount only by refund subtracts that were lost or are under way |
| EscrowRuns.RefundAlwaysFits | repo/escrow.go:272-333 | in every reachable state a refund goes through if and only if the balance covers it, and the window loses exactly what holding buckets could not give |
| EscrowRuns.AlarmNeverSounds | service/escrow.go:418-433 | in every run the conservation check at the end of a reconcile finds nothing |
| EscrowRuns.ReconcileOnlyLowers | service/escrow.go:351-408 | a reconcile never raises the window; with the subtract applied it leaves min(window, max(0, released - (ledger - baseline))) less later spending; with a ledger not ahead of spending it never goes below min(window, released - spent); with a complete one it makes up for lost subtracts |
| EscrowRuns.SecondReconcileIsIdle | service/escrow.go:351-408 | with nobody spending a second reconcile moves nothing |
| EscrowBuckets.MergeMoves | repo/escrow.go:150-191 | a merge moves exactly min(room, everything held) from holding to active |
| EscrowBuckets.MergeIsFifo | repo/escrow.go:150-191 | it drains holding buckets in number order and splits at most one |
| EscrowBuckets.ReduceFits | repo/escrow.go:272-333 | a reduction runs short if and only if all buckets together hold less, and takes max(0, amount - held) from the active one |
| EscrowBuckets.ReduceTakes | repo/escrow.go:272-333 | the active bucket loses that amount and the holding buckets lose the rest |
| EscrowBuckets.ReduceIsLifo | repo/escrow.go:272-333 | it drains holding buckets newest first and splits at most one |
| EscrowBuckets.ReleaseSplits | service/escrow.go:111-143 | a recharge releases exactly what fits, holds exactly the rest in a new row under the next number, and leaves every earlier holding row alone |
| Escrow.EscrowTables.MergeHoldingIntoActiveTx | repo/escrow.go:150-191 | the loop that asks again for the oldest holding bucket ends, in the specified merge |
| Escrow.EscrowTables.ReduceEscrowTx | repo/escrow.go:272-333 | the newest-first loop computes the specified reduction or the error |
| Escrow.EscrowTables.AddRechargeTx | repo/balance.go:46-78 | a known transfer number is refused; otherwise the balance row, made if missing, is credited left to right and the number recorded |
| Escrow.EscrowTables.DebitBalanceTx | repo/balance.go:94-123 | refused exactly without a row or beyond the balance |
| Escrow.EscrowTables.RechargeAll | service/escrow.go:111-150 | booking and splitting happen together or not at all |
| Escrow.EscrowTables.RefundAll | service/billing.go:119-146 | debit and reduction happen together or not at all |
| EscrowCalls.EscrowService.ApplyRecharge | service/escrow.go:82-158 | the call is four steps of the machine, for any spending in between and either upstream outcome; of a new transfer all is released when it fits below the cap, what fits when part does, nothing at the cap, and the window grows by that when the add is accepted |
| EscrowCalls.EscrowService.RefillToWindow | service/escrow.go:163-199 | likewise, returning what was merged: min(cap - window, held) when the window is below trigger and cap |
| EscrowCalls.EscrowService.DebitBalance | service/billing.go:88-155 | likewise, refused exactly when the amount is not positive or the refund does not fit |
| EscrowCalls.EscrowService.ReconcileOrgEscrow | service/escrow.go:351-433 | the call is a reconcile of the machine, its alarm never sounds, and it fails exactly when a needed subtract is refused |
| EscrowCalls.RechargeDoes | service/escrow.go:82-158 | what a recharge leaves in buckets, balance, transfers and window, for every window before it; a known transfer number changes nothing |
| EscrowCalls.RefillDoes | service/escrow.go:163-199 | a refill moves min(cap - window, held) when the window is below trigger and cap, and nothing otherwise; the window grows by that when the add is accepted |
| EscrowCalls.RefundDoes | service/billing.go:117-148 | a covered refund takes from holding first and the rest from the active bucket and the window, and is booked; one not covered changes nothing |
| EscrowCalls.ReconcileWithIs | service/escrow.go:351-433 | the method's steps are the reconcile of the main results |
| EscrowCalls.ThenIsRun | service/escrow.go:82-199 | the methods' steps are runs |
| KeyedLock.MutualExclusion | pkg/lock/lock.go:65-107 | in every interleaving of acquires, tries, cancellations and releases at most one caller holds a key, and references share a mutex exactly when they share a key |
| KeyedLock.CountsReferences | pkg/lock/lock.go:43-62 | a mutex's count is the number of callers of its key in any phase, cancelled waiters and callers between unlock and put included; a key is in the table exactly while it has any; with nobody around the table is empty |
| KeyedLock.NobodyStuck | pkg/lock/lock.go:65-91 | every caller can take its next step, or queues behind an owner that can |
| KeyedLock.TryFailsIffOwned | pkg/lock/lock.go:94-107 | a try fails if and only if somebody owns the key at that moment |
| KeyedLock.AcquireGetsIffFree | pkg/lock/lock.go:65-91 | an acquire queues, and nobody getting in front of it holds the key if and only if nobody owned it |
| KeyedLock.TryGetsIffFree | pkg/lock/lock.go:94-107 | a try holds the key if and only if nobody owned it, and otherwise goes without a trace |
| KeyedLock.QueueEndsIffFree | pkg/lock/lock.go:65-91 | in every interleaving who queues, cancelled or not, gets the key if and only if nobody owns it then |
| KeyedLock.CancelledNeverHolds | pkg/lock/lock.go:84-91 | a cancelled acquire never holds the key, whatever happens until it is called again |
| KeyedLock.ReleaseFrees | pkg/lock/lock.go:77-91 | a release, that of a cancelled caller too, leaves the key without an owner |
| KeyedLocker.InProcessLocker.Get | pkg/lock/lock.go:43-53 | the shared map and counter take the machine's step; a new mutex is made only for an unknown key |
| KeyedLocker.InProcessLocker.Put | pkg/lock/lock.go:55-62 | one reference less, and the key is forgotten with the last |
| KeyedLocker.InProcessLocker.TryAcquire | pkg/lock/lock.go:94-107 | get, one try, and a put when it fails |
| KeyedLocker.InProcessLocker.Release | pkg/lock/lock.go:77-82 | unlock, then put |
| CircuitBreaker.NeverWedges | adapter/newapi/client.go:151-201 | over every run of concurrent calls in which a body that cannot be encoded is only met by calls let through while the breaker was closed: a held probe belongs to a call that has still to report, so with none and the cooldown over the next call is let through |
| CircuitBreaker.RefusedIffMuted | adapter/newapi/client.go:151-201 | over every run, with no call left to report and the cooldown over, the next call is refused if and only if the call that got the probe could not encode its body and no call has reported since |
| CircuitBreaker.LastCallWedgesIff | adapter/newapi/client.go:164-171 | the last call in flight, beside any others that came and went, locks the breaker up by failing to encode if and only if it has the probe |
| CircuitBreaker.ClosedBelowThreshold | adapter/newapi/ratelimit.go:98-154 | in every run it is closed if and only if failures are below the threshold, a probe shuts everybody else out, and while it is not closed nobody is let through within a cooldown of the last failure of any call |
| CircuitBreaker.LetThroughIff | adapter/newapi/ratelimit.go:98-154 | over every run of concurrent calls the counted failures are those reported since the last answer, and a call is let through if and only if they are below the threshold, or nobody has the probe and the last failure is a cooldown ago |
| CircuitBreaker.UnencodableCallWedgesIff | adapter/newapi/client.go:164-171 | a call that nobody is under way beside, with a body that cannot be encoded, locks the breaker up if and only if it is let through while not closed |
| CircuitBreaker.WedgedForever | adapter/newapi/ratelimit.go:111-118 | from there no call is let through again, whatever happens |
| CircuitBreaker.UnencodableProbeLocksUp | adapter/newapi/client.go:164-171 | a run that gets there |
| UpstreamClient.Cell.TryAllow | adapter/newapi/ratelimit.go:98-120 | admission by state, cooldown and probe |
| UpstreamClient.Cell.Failed | adapter/newapi/ratelimit.go:139-154 | a failure counts, drops the probe, and opens from half open or at the threshold |
| UpstreamClient.TriesReport | adapter/newapi/client.go:173-200 | a call makes requests until one is answered, the caller gives up or the attempts are used up, and reports each: k failures, or k - 1 and an answer |
| UpstreamClient.Client.Attempts | adapter/newapi/client.go:173-200 | the retry loop reports after every request and is a run of the machine; it ends in an answer exactly when a request gets one before the attempts or the caller run out |
| UpstreamClient.Client.Do | adapter/newapi/client.go:151-201 | a whole call is a run of the machine, and which of refused, aborted, bad body, answered and failed it returns is exact |
| TokenBucket.TakenBounded | adapter/newapi/ratelimit.go:49-66 | in any stretch of any run on a clock that never goes back at most burst + rate x time tokens are taken |
| TokenBucket.ReserveKeeps | adapter/newapi/ratelimit.go:49-66 | tokens stay between 0 and the burst |
| TokenBucket.ReserveExactly | adapter/newapi/ratelimit.go:49-66 | a call takes one token if and only if what was left and earned since, up to the burst, is one at least; otherwise it takes none and is told the time to earn what is missing, cut to whole nanoseconds |
| TokenBucket.WaitIsEnough | adapter/newapi/ratelimit.go:31-46 | alone, who waits as told is let through, by a token exactly when the shortage was a whole number of nanoseconds |
| TokenBucket.FreeRideIff | adapter/newapi/ratelimit.go:61-66 | one is let through without a token if and only if less than a nanosecond's worth is missing |
| TokenBucket.EveryonePaysIff | adapter/newapi/ratelimit.go:31-66 | in every run everybody let through takes a token if and only if the rate earns one in a whole number of nanoseconds |
| TokenBucket.NoBoundOtherwise | adapter/newapi/ratelimit.go:31-66 | at any other rate any number of callers can be let through at one instant |
| TokenBucket.Limiter.TryReserve | adapter/newapi/ratelimit.go:49-66 | refill, cap, take or wait, on the object's own fields |
| TokenBucket.Limiter.Wait | adapter/newapi/ratelimit.go:31-46 | alone, the loop ends after at most one wait, the one it was told |
| AttemptLimiter.LockIsExact | handler/authlimit.go:62-67 | for every failure count from the threshold on, the wrapping shift and clamp give min(15 min, 30 s x 2^(fails - 5)) |
| AttemptLimiter.WrappedIsOutside | handler/authlimit.go:63-66 | a shifted lock that has wrapped is never between zero and the cap |
| AttemptLimiter.TableTellsRun | handler/authlimit.go:37-74 | over every run the entry of a key holds the number n of its failures since its last reset, and from the fifth on a lock until the last of them plus min(15 min, 30 s x 2^(n - 5)), for which alone the gate is shut |
| AttemptLimiter.LockNeverMovesBack | handler/authlimit.go:51-69 | on a clock that never goes back a key's lock only moves forward until its reset |
| AttemptLimiter.GuessesAreSlow | handler/authlimit.go:37-69 | ten failures of one key in a run that fails only while the gate is open take at least 930 s, and each one more 900 s |
| AttemptLimiter.Limiter.Failed | handler/authlimit.go:51-68 | the in-place update is the specified one, wrap-around included |
| AttemptLimiter.Limiter.GetRetryAfter | handler/authlimit.go:37-48 | the time left on the lock, never negative |
| KeyRotation.AttributionIsStable | repo/member_key.go:14-82 | over every run of finalize, rotate, additional key, clear, offboard and restore a token once mapped to a slot and member keeps that mapping |
| KeyRotation.ExactlyOneCurrent | repo/member_key.go:43-63 | in every reachable state each slot has exactly one current token, of its own member |
| KeyRotation.AttributedIsRow | repo/member.go:263-273 | a token's mapping is its row's slot and that slot's member |
| KeyRotation.RotationKeepsKey | repo/member_key.go:40-63 | after a rotation the new token and every earlier one of the slot map to the same slot |
| KeyRotation.RotationIs | repo/member_key.go:40-63 | a rotation of an unknown token leaves it as the only current one of the lowest primary slot, every earlier row kept, or makes the slot; of a known token nothing |
| Attribution.BucketIsStable | service/settlement.go:67-76 | a log whose token was known goes into the same ledger bucket whenever it is settled, whatever the key tables went through in between |
| Attribution.AttributedTheSameIff | service/settlement.go:67-108 | two directories read at two points of one key run attribute a log the same if and only if its token was known at the first or is still unknown at the second |
| Attribution.RowsAreStable | service/settlement.go:66-139 | so do all rows of a list of logs of known tokens |
| KeyRotation.PointersAreCurrent | repo/member.go:87-113 | over every run that finalizes only members without a primary slot, a pointer is empty or names the current token of the primary slot |
| KeyRotation.FinalizeIff | repo/member.go:44-67 | a finalize with a fresh token keeps members right if and only if the member had no primary slot |
| KeyRotation.LateFinalizePointsBeside | repo/member.go:44-67 | a key made before the finalize leaves the member beside the primary slot |
| KeyStore.Store.RotatePrimaryKeyTx | repo/member_key.go:43-63 | retires the current token of the oldest primary slot and adds the new one, or makes the slot |
| KeyStore.Store.FinalizeBootstrap | repo/member.go:44-67 | member, slot and token together, or nothing, exactly when the token is known |
| KeyStore.Store.UpdateMemberKey | repo/member.go:87-97 | current token and rotation together, or nothing, exactly when the token is known |
| KeyStore.Store.CreateAdditionalKey | repo/member_key.go:67-82 | adds a slot that is not primary and its current token, leaving members and all other rows alone, or nothing, exactly when the token is known |
| KeyStore.Store.OffboardMember | repo/member.go:137-142 | marks deleted and empties the pointer, once; slots and tokens stay |
| KeyStore.Store.ClearMemberToken | repo/member.go:109-113 | empties the pointer of one member and touches nothing else |
| KeyStore.Store.RestoreOffboardedMember | repo/member.go:144-150 | takes the mark off a deleted member and changes nothing else |
| KeyStore.Store.GetMemberByNewapiTokenID | repo/member.go:263-282 | the token's slot and member, offboarded or not |
| OverrideRuns.QuotaConverges | service/quota.go:141-183 | over every run of changes, lock waits, pushes refused or not and calls cut short: with nobody under way, and no call ended without its push since the last value was computed, the upstream quota is max(0, base + active grants) |
| OverrideRuns.LastPushDecides | service/quota.go:141-183 | if no call ends before it pushes and the last push to complete got through, the quota is right with nobody under way, whatever was refused before |
| OverrideRuns.RefusedChangesIff | service/worker_ops.go:31-48 | changes of which no push gets through, any number in any interleaving, leave a right quota right if and only if their net effect is none or base and grants are at most zero before and after |
| OverrideRuns.RefusedPushIff | service/worker_ops.go:31-48 | a new grant or the end of one, whose push is refused, leaves a right quota right if and only if base and grants are at most zero before and after it |
| OverrideRuns.NextPushRepairs | service/quota.go:227-268 | the next change that gets through makes it right again |
| OverrideRuns.RevertedOnce | repo/grant.go:79-88 | of all revocations and expiries of one grant only the first does anything |
| Overrides.MemberQuota.ComputeOverride | service/quota.go:27-44 | the loop over active quota grants gives max(0, base + active grants) |
| Overrides.MemberQuota.AdjustQuota | service/quota.go:227-268 | a change by one caller; refused exactly for zero and beyond the limit |
| Overrides.MemberQuota.RevokeGrant | service/quota.go:324-354 | ends an active grant and pushes if it was a quota grant; refused exactly when it is not active |
| Overrides.MemberQuota.ListExpiredActiveGrants | repo/grant.go:68-75 | the active grants past their time, the longest expired first, at most the limit; all of them when fewer |
| Overrides.MemberQuota.ReverseExpiredGrants | service/worker_ops.go:19-54 | ends exactly those, 100 when no limit is given, and counts those whose push was not refused; none is left expired when fewer than the limit; a quota that was right stays right if no push is refused |

## Left out

- Ingestion: the ledger's log_max_ts, team and member columns, prompt and completion tokens, rows ingested, earliest seen and last error; the batches of 500 rows per statement.
- IngestionCalls.TickIsRun: is stated for a tick during which no forward pass is in flight; passes between its reads and its writes are covered by the machine, not by this lemma.
- Settlement.Store.AddToLedgerBucketTx: does not carry log_max_ts and the member and team columns, which no step reads.
- Settlement.Store.InsertUsageDetailTx: does not carry token counts and team, which no step reads.
- Settlement.Store.RequeueBackfillJob: does not reset earliest seen and last error, which no step reads.
- Settlement.Store.UpdateBackfillProgress: does not count rows ingested or keep earliest seen, which no step reads.
- Settlement.SettleSink.IngestEntry: leaves out the latest time of a group, team, token counts and the orphan alert.
- Backfill.BackfillService.BackfillOneWindow: leaves out the returned row count and earliest time.
- Backfill.BackfillService.RunBackfillSlice: leaves out the recorded error text.
- Settlement.Store.NextBackfillJob: takes any unfinished job rather than the oldest; the results about runs hold for every order.
- Ingestion: the orphan-consumption alert, soft limits, status changes after commit, returned totals and the balance-against-ledger check; collation of model names in the database, which may merge names that differ in case.
- Ingestion: an upstream or database error inside a scan is the step that drops the pass; the three page loops are one method.
- Settlement.Service.RunSettlement: the returned total and what follows the commit are not stated; the mutex is not an object: the machine lets other passes in flight move the cursor and makes backfill writes wait for them.
- BillingReconcile.ReconcileBilling: takes the settled amounts as given, which BillingLedger.CheckHour then reads from the ledger; audit rows and notices are left out.
- Escrow: threshold computation and its refresh, provisioning of the organisation, the funding switch, audit rows, and the alert for large corrections.
- Escrow: row versions and row locks; the organisation's lock is the machine's rule that one call is under way at a time.
- KeyedLocker.InProcessLocker.TryAcquire: is stated for a call nobody interrupts; interleavings, and Acquire with its blocking wait, are in the step machine only.
- CircuitBreaker.UnencodableCallWedgesIff: is stated for a call with no other in flight; with others the exact condition is that of CircuitBreaker.RefusedIffMuted and CircuitBreaker.LastCallWedgesIff.
- UpstreamClient.Client.Do: HTTP, JSON and error classes are an outcome per request (answer, or failure worth a retry); jitter is a parameter.
- TokenBucket.Limiter.Wait: is stated without competitors; rounding of floating point and overflow of the duration are not modelled.
- AttemptLimiter: the failure counter itself does not wrap; time subtraction does not saturate.
- KeyRotation: token names, masks, rotation numbers and e-mail addresses; slots are never revoked in the code.
- Overrides.MemberQuota.ReverseExpiredGrants: works on the grants of one member, where the worker's scan spans all of them.
- OverrideRuns: grants that do not move the quota are flagged, not typed; one member with a token, with base, team, policies and organisation status fixed, outside observation mode.
- HTTP handlers, roles, approvals, idempotency table, views and CSV export: single-branch checks or presentation.
- Discount ratios, time zones and period boundaries, encryption and hashing: calendar, floating-point and library code.
- Detail purge with retention above 0, under which the deduplication argument does not hold, and leadership among several processes.
