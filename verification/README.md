# ReMail batch tools and event stream: a verified model

ReMail runs several long batch tools against remote accounts, and streams events to Bots. What makes them hard
is the same everywhere: work is handed to many workers, programs are killed and started again on a saved
checkpoint, remote requests may be applied and their answers lost, and caches and cursors stand in for state
kept elsewhere. This project models those parts and proves what they promise over every input, every run and
every crash point. `dafny verify dfyconfig.toml` checks all of it.

Programs that change state are classes with the program's own fields, or loops over its variables. Each method is
proved against a function or predicate on values, and the promises are lemmas about runs of those. SQL tables
and Redis are maps or sequences, files are saved values, remote services and other processes are arbitrary
choices (`*`), clocks are arbitrary integers, and a crash keeps only what was saved. `hide` keeps definitions out
of proofs that do not need them.

| part | modules |
|---|---|
| mailbox validation runner: dispatcher by recovery key | `DispatchSteps`, `DispatchRuns`, `Dispatcher` |
| mailbox validation runner: proxy lease pool | `LeasePool`, `LeaseRuns` |
| mailbox validation runner: freezing producer, resuming, ledgers | `FreezeFeed`, `FreezeResume`, `Ledgers` |
| Bot event stream and frame budget | `BotCursor`, `BotPages`, `BotEvents`, `BotStream`, `FrameBudget` |
| private email replacement | `PrivateEmail` |
| history rescan | `RescanQueue`, `HistoryRescan` |
| system load alerter | `LoadAlerter`, `LoadAlerterRuns` |
| paused alias queue drainer | `QueueDrainer` |
| Apple tool: account lines and pending changes | `Fields`, `AppleLines`, `PendingChanges`, `AppleAccounts` |
| feedback buffer of the chat plugin | `DailyFeedback` |
| shared helpers | `Options`, `Text` |

## Where the code does not meet the obvious wish

Each of these is stated as an if-and-only-if over all inputs, with an input beside it for which the wish fails.

- A lower bound derived from an unversioned cursor id is wrong for project events and right for everything else
  (`BotCursor.BoundAgreesIff`, `BotCursor.LegacyBoundIsWrong`); subscriptions convert such ids first, so the stream
  never uses one (`BotStream.Normalize`).
- Resuming takes a wanted item before the offset back to a worker exactly when its row is validating or abnormal, or
  pending with an advanced generation. It reports the item as failed without judging its row exactly when that is
  neither validating nor abnormal and its generation never advanced (`FreezeResume.ResumedIff`). Two kinds of items
  fail that way although they still want validating, both pending under the generation of the manifest: those handed
  out before a crash with `pendingNoFreeze` (`FreezeResume.NoFreezeLosesWork`), and those that an earlier run skipped
  and a later one retries (`FreezeResume.UnskippedIsNotReached`). Over any number of crashes in freeze mode nothing
  else is lost, and nothing at all if no run wants what an earlier one did not (`FreezeResume.Campaign`,
  `FreezeResume.NarrowerLosesNothing`).
- A scan of the lease pool for a key that already holds a lease loses that route, and only then
  (`LeaseRuns.ScanKeepsRoutesIff`, `LeaseRuns.ScanMayLoseARoute`). A pool that reuses routes gives the lease up in the
  same critical section, so it never does (`LeaseRuns.AcquiredKeeps`); one that refills may scan for a key that got a
  lease while the mutex was free, and still gives no URL twice (`LeaseRuns.RefillGivesOnce`).
- A resource that reconciliation sends to retry is queued again exactly when no other operation holds it; otherwise
  the pass is spent, and after two of them the resource counts as failed (`RescanQueue.RetryIsQueuedIff`,
  `RescanQueue.HeldIsRetried`).
- A formatted Apple line is read back wrongly exactly when a field before a separator ends in a dash or an answer
  contains an opening parenthesis (`AppleLines.RoundTripIff`). Passwords that the tool makes never do
  (`AppleAccounts.OutputRoundTripIff`), but an address or an answer may (`AppleAccounts.DashIsMisread`,
  `AppleAccounts.ParenthesisIsMisread`). Replacing the region shifts fields exactly when the region ends in a dash
  (`AppleLines.RegionAloneChangesIff`, `AppleLines.DashedRegionShifts`).
- A pending-changes file is written, and refused as a whole when it is loaded, exactly when one of its addresses ends
  in a dash (`PendingChanges.PrepareAccountChanges`, `AppleAccounts.DashIsRefused`); no address that was loaded contains
  the separator (`AppleAccounts.ParsedIsAddressed`, `PendingChanges.LoadedIsProper`). Without such an address a rerun
  changes every account to what was planned for it before (`PendingChanges.Rerun`).
- Streaming on leaves a gap exactly when an event has turned up behind the last position, or gone from there
  (`BotStream.NoGapIff`), as the launch of a project that is listed late does (`BotStream.ListedLateIsMissed`).
- A load alert leaves the stored state exactly when a pass delivers, no send of it fails and the result is stored
  (`LoadAlerterRuns.PendingUntilDelivered`); so it is forgotten unsent when such a pass finds no enabled super
  administrator, and otherwise never lost (`LoadAlerterRuns.RaisedIsNotLost`, `LoadAlerterRuns.AlertMayGoUnsent`).

## Model

| member | source | states |
|---|---|---|
| DispatchSteps.FallbackKey | cmd/luckmailvalidate/main.go:2374-2379 | an item without a recovery mailbox still gets a key that is not blank, so it cannot fall through the empty-key guards |
| DispatchSteps.FallbackKeysDiffer | cmd/luckmailvalidate/main.go:2374-2379 | two items without a recovery mailbox share a key if and only if they have the same resource, or neither has one and their addresses agree up to case and blanks |
| DispatchSteps.Keyed | cmd/luckmailvalidate/main.go:2982-2986 | keying an item changes neither its account nor a key it already has |
| DispatchSteps.AddReadyKeeps | cmd/luckmailvalidate/main.go:2948-2966 | adding a ready key keeps the five structures consistent and leaves no queued work stranded under that key |
| DispatchSteps.BlockKeeps | cmd/luckmailvalidate/main.go:3006-3014 | blocking a key keeps the five structures consistent, also when the key was ready |
| DispatchSteps.EnqueueKeeps | cmd/luckmailvalidate/main.go:2982-2996 | queueing at either end keeps the five structures consistent |
| DispatchSteps.CompleteKeeps | cmd/luckmailvalidate/main.go:3074-3088 | a completion, with or without a retry and even when it changes the key of the item, keeps every key with work ready, active or blocked |
| DispatchSteps.SendKeeps | cmd/luckmailvalidate/main.go:3089-3101 | handing out the head keeps the structures consistent, and its key was not out with a worker before |
| DispatchSteps.WakesKeeps | cmd/luckmailvalidate/main.go:2997-3005 | releasing expired blocks in any map order keeps the ready list free of duplicates and disjoint from active and blocked |
| DispatchSteps.WakesAreDue | cmd/luckmailvalidate/main.go:2997-3005 | every key whose block is at or before the clock reading is unblocked and ready or with a worker afterwards, whatever else is out; every other block stays as it was |
| DispatchRuns.StepConserves | cmd/luckmailvalidate/main.go:3062-3104 | arrived items are at every step exactly those queued, out with a worker, or finished, counted with multiplicity |
| DispatchRuns.StepKeepsOrder | cmd/luckmailvalidate/main.go:3062-3104 | behind retried items, a bucket always holds the arrivals of its key that were never handed out, in arrival order |
| DispatchRuns.StepKeeps | cmd/luckmailvalidate/main.go:2935-3112 | every select case keeps the whole invariant: structures, conservation and order |
| DispatchRuns.RunKeeps | cmd/luckmailvalidate/main.go:2935-3112 | the invariant holds in every reachable state, whatever the workers and the clock do |
| DispatchRuns.NeverStuck | cmd/luckmailvalidate/main.go:3016-3030 | the guard of the defensive rescan is false in every reachable state, no block is ever without work, and while work is left something can happen |
| DispatchRuns.TimerMakesProgress | cmd/luckmailvalidate/main.go:3041-3060 | whatever else is out with workers, a blocked key whose time has come is no longer blocked after the release and is ready, unless it is itself with a worker |
| DispatchRuns.ArrivalIsReady | cmd/luckmailvalidate/main.go:2982-2996 | an item that arrives goes behind the items of its key, and the key is ready unless it is blocked or with a worker |
| DispatchRuns.FinishedIsReady | cmd/luckmailvalidate/main.go:3074-3088 | a key that finished without a retry is free, and ready at once if it still has work and no block holds it |
| DispatchRuns.RetryIsQueued | cmd/luckmailvalidate/main.go:3074-3088 | a retried item is first under its key, or under the key it came back from; that key waits until the time named, or five seconds, unless it was blocked for longer, and no longer than that |
| DispatchRuns.OfferIsExclusive | cmd/luckmailvalidate/main.go:3089-3101 | an item is handed out under its own key and never while that key is with a worker |
| DispatchRuns.ReturnMeansFinished | cmd/luckmailvalidate/main.go:3028-3030 | the uncancelled return means that every arrived item finished without a retry exactly once, and first hand-outs of a key were in arrival order |
| DispatchRuns.BoundedBypass | cmd/luckmailvalidate/main.go:3032-3101 | while a ready key stays ready, at most the keys ahead of it are served |
| DispatchRuns.RetryIsHeld | cmd/luckmailvalidate/main.go:3080-3085 | a retry puts its delay on the key it is queued under and on the key it came back from, if that still has work |
| DispatchRuns.RetryHonoured | cmd/luckmailvalidate/main.go:2952-2957 | in any run, no item of a delayed key is handed out before a clock reading has passed the delay |
| Dispatcher.RecoveryDispatcher.AddReadyKey | cmd/luckmailvalidate/main.go:2948-2966 | a key with work is queued as ready at most once, and not while it is blocked or out with a worker; an expired block is lifted on the way |
| Dispatcher.RecoveryDispatcher.RemoveReadyKey | cmd/luckmailvalidate/main.go:2967-2981 | the in-place removal takes out exactly the first occurrence and changes nothing else |
| Dispatcher.RecoveryDispatcher.EnqueueReady | cmd/luckmailvalidate/main.go:2982-2996 | a retried item goes in front of its bucket and an arrival behind it, under its own key or its fallback key |
| Dispatcher.RecoveryDispatcher.BlockKey | cmd/luckmailvalidate/main.go:3006-3014 | a key with work leaves the ready list and is held at least as long as asked; a block is only ever extended |
| Dispatcher.RecoveryDispatcher.UnblockDue | cmd/luckmailvalidate/main.go:2997-3005 | for any iteration order of the map and whatever is out with workers, a key is unblocked if and only if its block is at or before the clock reading, and then it is ready or with a worker, or has no work |
| Dispatcher.RecoveryDispatcher.BeginIteration | cmd/luckmailvalidate/main.go:3017-3060 | the loop head releases exactly the keys whose time has come, also while workers are busy; it returns only when all is done; the timer is set to the earliest block; the defensive rescan and the block cleanup are unreachable |
| Dispatcher.RecoveryDispatcher.OnCompletion | cmd/luckmailvalidate/main.go:3074-3088 | a completed key is free again; a retry is queued first under its possibly new key, and both keys wait out the retry time |
| Dispatcher.RecoveryDispatcher.OnSend | cmd/luckmailvalidate/main.go:3089-3101 | the first item of the longest waiting ready key is handed out, its key leaves the ready list and counts as active, and other buckets are untouched |
| Dispatcher.Dispatch | cmd/luckmailvalidate/main.go:2935-3112 | the loop under any sequence of ready cases is a run of the step relation from the empty world, with what arrived, finished and was handed out read off that run; its normal return has finished exactly what arrived |
| LeasePool.ProxyLeasePool.CurrentLease | cmd/luckmailvalidate/main.go:708-732 | a current lease is kept exactly when its route is neither cooling nor on an avoided server at the time read |
| LeasePool.KeyIsMailbox | cmd/luckmailvalidate/main.go:686-706 | two raw keys stand for one lease if and only if, trimmed, they agree letter by letter up to case; one that is trimmed and in lower case stands for itself |
| LeasePool.ProxyLeasePool.Scan | cmd/luckmailvalidate/main.go:734-820 | a scan leases a route exactly when some available one is usable, one that is neither cooling nor avoided, and otherwise its outcome says why: all avoided, nothing there, or the earliest cooldown to wait for |
| LeasePool.ProxyLeasePool.Acquire | cmd/luckmailvalidate/main.go:708-820 | a mailbox keeps its route if that is neither cooling nor avoided, and otherwise gets such a route whenever one is available; the leases of all other mailboxes stay, and no cooldown is added |
| LeasePool.FirstUsable | cmd/luckmailvalidate/main.go:734-760 | the scan stops at the first usable route |
| LeasePool.ProxyLeasePool.Merge | cmd/luckmailvalidate/main.go:659-677 | a refill appends routes whose URLs were never seen and all differ, one for each new URL offered, counts them, and remembers every URL it was offered |
| LeasePool.ProxyLeasePool.Release | cmd/luckmailvalidate/main.go:900-916 | the mailbox holds nothing afterwards and no other lease changes; its route is back in the pool with its cooldown, or gone with it, by mode |
| LeasePool.ProxyLeasePool.SetCooldown | cmd/luckmailvalidate/main.go:871-882 | a cooldown of a minute is installed or extended, never shortened, and no other changes |
| LeasePool.ProxyLeasePool.CooldownLease | cmd/luckmailvalidate/main.go:887-898 | the route that the key holds is unusable for a minute, and no cooldown is shortened |
| LeasePool.ProxyLeasePool.ReportSuccess | cmd/luckmailvalidate/main.go:824-844 | success clears a cooldown only once it has run out |
| LeaseRuns.ScannedKeeps | cmd/luckmailvalidate/main.go:734-760 | a scan keeps leases exclusive, duplicates no route and grants one never granted before, also for a key that got a lease in the meantime |
| LeaseRuns.ScannedKeepsRoutes | cmd/luckmailvalidate/main.go:734-760 | for a key without a lease a scan loses no route |
| LeaseRuns.AcquiredKeeps | cmd/luckmailvalidate/main.go:708-760 | in one critical section with the scan, giving up an unusable lease means that none is overwritten: no route is lost |
| LeaseRuns.MergedKeeps | cmd/luckmailvalidate/main.go:588-684 | a refill keeps leases exclusive and never brings back a URL that was seen |
| LeaseRuns.StepKeeps | cmd/luckmailvalidate/main.go:564-916 | every critical section, in any interleaving and with any number of acquisitions of one key, keeps the pool invariant |
| LeaseRuns.RunKeeps | cmd/luckmailvalidate/main.go:564-916 | the pool invariant holds in every reachable state |
| LeaseRuns.MailboxesApart | cmd/luckmailvalidate/main.go:564-916 | at no moment of any run do two different mailboxes hold the same route, however their addresses are spelled |
| LeaseRuns.LeaseStays | cmd/luckmailvalidate/main.go:708-916 | whatever other mailboxes do in any run, a lease stays until its own mailbox acquires or releases again |
| LeaseRuns.AcquireTwice | cmd/luckmailvalidate/main.go:708-820 | two acquisitions on a fresh pool: two mailboxes get two routes, one mailbox, however spelled, keeps its own, and the first gets a route if one is not avoided |
| LeaseRuns.ReusePermutes | cmd/luckmailvalidate/main.go:564-578 | with reuse, available and leased routes are at every moment a permutation of the initial ones, and no route is leased to two keys |
| LeaseRuns.RefillGivesOnce | cmd/luckmailvalidate/main.go:580-586 | with refill, a URL is given to at most one key over the whole run and never becomes available again |
| LeaseRuns.ScanKeepsRoutesIff | cmd/luckmailvalidate/main.go:734-760 | no route is lost by a scan if and only if the key held no lease or nothing was usable |
| LeaseRuns.ScanMayLoseARoute | cmd/luckmailvalidate/main.go:733-760 | a concrete pool in which a scan overwrites a lease and loses its route |
| LeaseRuns.CooldownIsKept | cmd/luckmailvalidate/main.go:824-882 | a route still in the pool neither loses nor shortens a cooldown that has not run out |
| LeaseRuns.CooledThenReleased | cmd/luckmailvalidate/main.go:887-916 | a rate-limited route is back in the pool after its release and unusable for a full minute |
| FreezeFeed.Feeder.AcquireSlot | cmd/luckmailvalidate/main.go:2462-2469 | a slot is taken or the run is cancelled; never more than the capacity |
| FreezeFeed.Feeder.FreezeChunk | cmd/luckmailvalidate/main.go:2141-2179 | success has advanced every row of the batch; a failure has advanced none of them, or all when only the answer to the commit was lost; it succeeds only if every row named is there and none is named twice |
| FreezeFeed.FreezeReaches | cmd/luckmailvalidate/main.go:2272-2281 | after the batch is frozen, every wanted item before the new offset has advanced its generation |
| FreezeFeed.ReportsAre | cmd/luckmailvalidate/main.go:2193-2241 | of the items that are not handed out, exactly the skipped ones are reported as rejected and exactly those that cannot be validated as unrecoverable; one that succeeded before is not reported |
| FreezeFeed.Feeder.FeedResumed | cmd/luckmailvalidate/main.go:2193-2215 | resumed items are emitted in order, skipped ones reported, and a failed return has emitted a prefix and holds no slot |
| FreezeFeed.Feeder.GatherFirst | cmd/luckmailvalidate/main.go:2218-2241 | the batch begins with the first wanted item, everything passed over being reported |
| FreezeFeed.Feeder.GatherMore | cmd/luckmailvalidate/main.go:2242-2269 | the batch grows while slots last, up to the chunk size, and is exactly the wanted part of the range it covers |
| FreezeFeed.Feeder.Commit | cmd/luckmailvalidate/main.go:2270-2285 | an offset is saved only when everything wanted before it is frozen; a failure gives all slots back |
| FreezeFeed.Feeder.FreezeAndFeed | cmd/luckmailvalidate/main.go:2181-2299 | however slots split the batches, a normal return has emitted the resumed items and then the wanted items of the rest, in order; on every return the slots taken are the items emitted and not yet released, and nothing was emitted before the checkpoint covered it |
| FreezeResume.ClassifyJobs | cmd/luckmailvalidate/main.go:1674-1728 | each item before the offset is sorted exactly once, by what its row said when the query of its chunk read it |
| FreezeResume.VerdictIs | cmd/luckmailvalidate/main.go:1706-1728 | after the recovery, a wanted item whose generation had advanced is reported as a success if and only if its row was normal, sent to the history scan if and only if identifying, reported as unrecoverable if and only if disabled or deleted, and otherwise goes back to a worker |
| FreezeResume.OtherVerdictsAre | cmd/luckmailvalidate/main.go:1690-1728 | the verdicts on all other items; a row that became abnormal after the recovery is reported with the class of its last error |
| FreezeResume.JobsAre | cmd/luckmailvalidate/main.go:1674-1728 | an item is in a list, and an outcome is reported, if and only if an item before the offset has that verdict on the row its query read |
| FreezeResume.RecoverAbandoned | cmd/luckmailvalidate/main.go:1747-1774 | the chunked updates set every wanted validating or abnormal row pending under a new generation, once, however the chunks repeat rows; a failure leaves a prefix done |
| FreezeResume.RecoveredIs | cmd/luckmailvalidate/main.go:1747-1774 | a row becomes pending under its next generation if and only if it is validating or abnormal and belongs to a wanted item, and otherwise stays as it is |
| FreezeResume.ResumedIff | cmd/luckmailvalidate/main.go:1706-1728 | after the recovery, a wanted item with a row is judged by its row if and only if its generation had advanced or it was validating or abnormal; exactly those and the pending ones with an advanced generation go back to a worker |
| FreezeResume.ResumeKeepsWork | cmd/luckmailvalidate/main.go:1708-1724 | in freeze mode an item before the offset is judged by its status alone and never taken for one that was not reached |
| FreezeResume.NoFreezeLosesWork | cmd/luckmailvalidate/main.go:2274-2281 | a concrete pending item that was handed out without freezing is reported as failed on resume, also after the recovery |
| FreezeResume.UnskippedIsNotReached | cmd/luckmailvalidate/main.go:1708-1712 | a concrete pending item that an earlier run skipped and a later one retries is reported as failed when it lies before the offset, also after the recovery |
| FreezeResume.FrozenForNarrower | cmd/luckmailvalidate/main.go:1195-1214 | what is frozen for one run is frozen for every later run that wants no more |
| FreezeResume.Campaign | cmd/luckmailvalidate/main.go:1195-1419 | over any number of runs on one checkpoint in freeze mode, with any skips and each stopping anywhere, a run that feeds to the end has handed to a worker every wanted item whose row it found pending, validating or abnormal, except pending ones that an earlier run did not want and passed over |
| FreezeResume.ValidatedIsRecorded | cmd/luckmailvalidate/main.go:1706-1728 | a mailbox that a killed run had validated is in the success ledger and in no other after the resume, whatever is recorded later |
| FreezeResume.NarrowerLosesNothing | cmd/luckmailvalidate/main.go:1195-1419 | when no run wants what an earlier one did not, there is no exception |
| FreezeResume.RunAccountsForAll | cmd/luckmailvalidate/main.go:1410-1419 | items fed, sent to the history scan, reported at once, and finished before number exactly as many as the manifest |
| FreezeResume.CountersReachManifest | cmd/luckmailvalidate/main.go:1415-1419 | if the items fed, sent to the history scan and reported at once are those with outcomes, success plus failure plus earlier successes equals the size of the manifest, so the final check passes |
| Ledgers.Tracker.constructor | cmd/luckmailvalidate/main.go:2573-2609 | arbitrarily overlapping earlier files are merged so that success wins over all and a later class over an earlier one |
| Ledgers.Tracker.RecordSuccess | cmd/luckmailvalidate/main.go:2611-2627 | a first outcome that is a success counts once and leaves the mailbox in the success ledger and in no other; any later outcome changes nothing |
| Ledgers.Tracker.RecordFailure | cmd/luckmailvalidate/main.go:2629-2652 | a first outcome that is a failure moves the mailbox to exactly one failure ledger |
| Ledgers.Tracker.RecordRejection | cmd/luckmailvalidate/main.go:2654-2669 | a rejection counts but leaves the mailbox in the ledger it was in |
| Ledgers.RunIsSound | cmd/luckmailvalidate/main.go:2573-2669 | from any earlier ledgers and under any order of outcomes, the four outcome sets are disjoint, failed is the union of three of them, and the counters count the mailboxes seen, none of which had succeeded before |
| Ledgers.FirstEventDecides | cmd/luckmailvalidate/main.go:2611-2669 | where a mailbox stands after a run depends only on where it stood and on its first outcome |
| Ledgers.FirstSuccessCounts | cmd/luckmailvalidate/main.go:2611-2627 | a mailbox whose first outcome in a run is a success is in the success ledger at its end and in no other |
| Ledgers.FirstFailureCounts | cmd/luckmailvalidate/main.go:2629-2652 | a mailbox that had not succeeded before and whose first outcome is a failure is in the ledger of that class at the end and in no other |
| Ledgers.RunCountsMailboxes | cmd/luckmailvalidate/main.go:1415-1419 | success and failure add up to the number of different mailboxes reported that had not succeeded before |
| Ledgers.ResumeErrorSkipSet | cmd/luckmailvalidate/main.go:2069-2087 | the loops collect the skipped set |
| Ledgers.SkippedIff | cmd/luckmailvalidate/main.go:2069-2087 | the skipped mailboxes are exactly those whose ledger says unrecoverable or, unless retried, recoverable |
| Ledgers.SkippingKeepsLedgers | cmd/luckmailvalidate/main.go:2654-2669 | rejecting a skipped mailbox counts it and leaves all ledgers as they were |
| BotCursor.MarkerTested | api/bot_websocket_events.go:156-163 | testing the version marker bit of a 64-bit id is the comparison used here |
| BotCursor.MarkerCleared | api/bot_websocket_events.go:208-208 | clearing the marker bit is the subtraction used here |
| BotCursor.MarkerSet | api/bot_websocket_events.go:192-192 | setting the marker bit is the addition used here |
| BotCursor.BoundAgreesIff | api/bot_websocket_events.go:187-213 | the packed id is past the cursor exactly when the row is past the derived bound, for all rows of a topic, if and only if the id is zero, versioned, or not of the project topic |
| BotCursor.EncodeRoundTrip | api/bot_websocket_events.go:187-213 | topic and row come back out of a packed id, whose own bound is the row |
| BotCursor.EncodedIs | api/bot_websocket_events.go:187-193 | the number that stands for a row of a topic, topic by topic |
| BotCursor.LooksEncodedIff | api/bot_websocket_events.go:156-163 | an id is accepted as packed if and only if it is the packed id of some row of some topic |
| BotCursor.BoundsAreClose | api/bot_websocket_events.go:197-213 | bounds of two topics under one cursor differ by at most one row |
| BotCursor.PageIsPrefix | api/bot_websocket_events.go:262-265 | a page is exactly the first limit events of the globally sorted log |
| BotPages.SufficientTogether | api/bot_websocket_events.go:233-261 | listings that each bring all or enough earlier events do so together |
| BotPages.CutIsPage | api/bot_websocket_events.go:262-265 | sorting and cutting a sufficient listing gives the page |
| BotEvents.QuerySelectsNew | api/bot_websocket_events.go:269-376 | with the derived bound, one table query selects exactly the rows that are new to the subscriber |
| BotEvents.ListTable | api/bot_websocket_events.go:269-304 | one limited table query brings enough for the page, and fails only on a row id too large to pack |
| BotEvents.LogIs | api/bot_websocket_events.go:269-376 | the log that a subscriber is to receive, row by row: asked topic, old enough, and behind the cursor by time or by packed id |
| BotEvents.SharedBoundLosesOneRow | api/bot_websocket_events.go:404-440 | the smallest bound of up to three topics brings back at most one stale row, the first one |
| BotEvents.SettingsSuffice | api/bot_websocket_events.go:404-472 | so fetching the limit once per selected topic is enough |
| BotEvents.ListSettings | api/bot_websocket_events.go:404-472 | the shared settings query brings enough for the page |
| BotEvents.ListPrices | api/bot_websocket_events.go:577-635 | single and bulk price updates, merged and cut, bring enough for the page |
| BotEvents.List | api/bot_websocket_events.go:222-267 | for every valid cursor, topic set, cutoff and limit, one poll returns the next page of the one global log over all tables |
| BotStream.Normalize | api/bot_websocket_events.go:103-154 | a subscription is rejected exactly for an unsupported topic or an unusable cursor, and an accepted cursor is valid, with legacy ids converted |
| BotStream.TopicsAre | api/bot_websocket_events.go:20-26 | each topic is asked for by its one name |
| BotStream.CursorIs | api/bot_websocket_events.go:125-154 | the cursor that a frame stands for in each of its forms, two seconds back if it gives none |
| BotStream.ContinueHasNoGap | api/bot_websocket.go:345-390 | continuing after the last event sent leaves no gap and no duplicate, even when the table grew between polls |
| BotStream.Stream | api/bot_websocket.go:345-390 | over any series of polls and wherever sending stops, what was sent is strictly increasing and a gapless beginning of the log; until sending stops, every poll is answered unless a row cannot be packed, and sends either a full page or all there is |
| BotStream.CatchesUp | api/bot_websocket.go:345-390 | a subscription that lasts catches up: among more polls than the log has pages, one left nothing of the log unsent |
| BotStream.NoGapIff | api/bot_websocket.go:345-390 | for any two snapshots, continuing leaves no gap if and only if nothing behind the last position has turned up or gone |
| BotStream.ListedLateIsMissed | api/bot_websocket_events.go:275-287 | a concrete project that is listed after later launches were sent is never announced |
| BotStream.Reconnect | api/bot_websocket.go:313-390 | resubscribing with the last cursor received continues the same log |
| FrameBudget.Limiter.TakeFrame | api/bot_websocket.go:102-122 | a frame is granted exactly when the refilled budget holds one token |
| FrameBudget.AvailableIs | api/bot_websocket.go:102-122 | thirty tokens for a new key, else what was left and ten for each second, up to thirty |
| FrameBudget.TokensStayInRange | api/bot_websocket.go:102-122 | tokens of every key stay between 0 and 30 while time does not go back |
| FrameBudget.WindowBound | api/bot_websocket.go:102-122 | in any window of a run a key is granted at most 30 frames plus ten for each second |
| FrameBudget.KeysAreIndependent | api/bot_websocket.go:102-122 | frames of other keys have no effect on what a key is granted |
| FrameBudget.BurstIsExact | api/bot_websocket.go:102-122 | the bound is met: n whole tokens at one instant grant exactly n frames |
| FrameBudget.SteadyRateIsGranted | api/bot_websocket.go:102-122 | a key that has a token and keeps a tenth of a second between its frames is never refused |
| PrivateEmail.Debugger.PersistCheckpoint | cmd/icloudvalidate/main.go:1551-1557 | an atomic write that may fail or be the last thing the program does |
| PrivateEmail.Debugger.FindPrivateEmail | cmd/icloudvalidate/private_email.go:157-164 | the first alias that matches up to case, or none matches |
| PrivateEmail.Debugger.Execute | cmd/icloudvalidate/main.go:1262-1326 | a request that changes the account is sent at most once per call, a creation only after a listing without target and candidate and a recorded start, and the history keeps the status that a failed creation was answered with |
| PrivateEmail.Debugger.Mark | cmd/icloudvalidate/main.go:1328-1335 | the record in memory and the file change together or the run ends |
| PrivateEmail.Debugger.Begin | cmd/icloudvalidate/private_email.go:24-36 | a rerun continues the recorded replacement and refuses another target |
| PrivateEmail.Debugger.RemoveTarget | cmd/icloudvalidate/private_email.go:85-104 | stop and remove go out only for the recorded id while the latest listing shows it; success means a listing without the target |
| PrivateEmail.Debugger.Finish | cmd/icloudvalidate/private_email.go:105-154 | the recorded candidate is created only when absent and not started before; completion is recorded only when a listing shows it active and the target gone |
| PrivateEmail.Debugger.ReplacePrivateEmail | cmd/icloudvalidate/private_email.go:20-155 | wherever a run stops, the state file and the history of requests stay consistent |
| PrivateEmail.Rerun | cmd/icloudvalidate/private_email.go:20-155 | any number of crashed runs sends at most one creation more than there were answers with a status from 400 to 499 other than 408 |
| PrivateEmail.HistoryIsSafe | cmd/icloudvalidate/private_email.go:73-152 | over all runs: at most one create request plus one per answer with a status from 400 to 499 other than 408, and such an answer between any two of them; one id ever stopped or removed, one address ever created, creation only after a listing without it, completion only on a listing that shows the replacement |
| PrivateEmail.RefusalIs | cmd/icloudvalidate/private_email.go:121-135 | the answers after which the program takes it that nothing was created are those from 400 to 499 other than 408 |
| PrivateEmail.RefusedBetween | cmd/icloudvalidate/private_email.go:105-135 | between two creations there was such an answer |
| PrivateEmail.RemovalIsSeen | cmd/icloudvalidate/private_email.go:85-104 | what is stopped or removed is in the latest listing under its id and address, and is not stopped when that shows it inactive |
| PrivateEmail.CreationIsAbsent | cmd/icloudvalidate/private_email.go:105-120 | nothing in the latest listing has the address that is created or the one it replaces |
| PrivateEmail.CompletionIsSeen | cmd/icloudvalidate/private_email.go:136-152 | completion is recorded only if the latest listing shows the candidate active and nothing under the old address |
| RescanQueue.SubmitChunk | cmd/historyrescan/main.go:377-476 | a committed submission queues exactly the eligible resources, advancing versions of those not yet identifying, and accounts for every resource of the chunk that now carries the tag |
| RescanQueue.EligibleIff | cmd/historyrescan/main.go:377-417 | which resources a submission queues: those with credentials, of the right status and for sale, without a task under way, and, unless it retries, without a task of this tag |
| RescanQueue.QueuedIs | cmd/historyrescan/main.go:418-476 | what queueing does: the resource becomes identifying, its version advances unless it already was, and it has a pending history task of the tag under a new generation |
| RescanQueue.ResubmitIsHarmless | cmd/historyrescan/main.go:400-416 | repeating a submission under its tag at any later time restarts no task and forgets none; right away it changes nothing |
| RescanQueue.BusyIsUntouched | cmd/historyrescan/main.go:405-417 | no submission touches a pending or processing task or anything outside its chunk |
| RescanQueue.VerdictsAre | cmd/historyrescan/main.go:525-556 | a success is a normal resource with a normal task of this tag, a failure one with an abnormal task of this tag that cannot be tried again; likewise active and retry |
| RescanQueue.ReconcileChunk | cmd/historyrescan/main.go:511-566 | whatever the row order, succeeded counts exactly the resources of the chunk that are normal with a normal task of this tag, failed exactly those with an abnormal task of this tag that are not both identifying and with credentials, and missing and repeated ones count as changed |
| RescanQueue.ReconcileBatch | cmd/historyrescan/main.go:511-566 | the five numbers of a reconciliation add up to the size of the batch |
| RescanQueue.AllInOrder | cmd/historyrescan/main.go:511-566 | if as many succeeded as were asked about, each of them was a normal resource with a normal task of this tag when it was looked at |
| RescanQueue.TallyIsExact | cmd/historyrescan/main.go:511-566 | on a manifest without repetitions and tables at rest, chunking does not matter |
| RescanQueue.RetryIsQueuedIff | cmd/historyrescan/main.go:531-556 | a resource sent to retry is queued again if and only if no other operation holds it; then it counts as active, and otherwise it goes on being sent to retry |
| RescanQueue.HeldIsRetried | cmd/historyrescan/main.go:405-417 | a concrete resource that another operation has queued is sent to retry, and the retry passes over it |
| HistoryRescan.BatchesFollow | cmd/historyrescan/main.go:732-745 | batches follow each other without gap from the first resource to the last, and are empty exactly from the batch count on |
| HistoryRescan.BatchesTile | cmd/historyrescan/main.go:732-745 | every position of the manifest is in exactly one batch |
| HistoryRescan.ChunkIsSound | cmd/historyrescan/main.go:319-335 | within a batch, submitted plus skipped stays equal to the submit offset |
| HistoryRescan.CanaryIs | cmd/historyrescan/main.go:241-273 | while the canary is out no more than its size is submitted, and when it is awaited just that much, or everything if there is less |
| HistoryRescan.NextBatchIsSound | cmd/historyrescan/main.go:282-310 | finishing a batch accounts for each of its resources once and never lowers a total |
| HistoryRescan.DoneIsComplete | cmd/historyrescan/main.go:311-316 | when the run is done, succeeded plus failed plus changed equals the number of candidates |
| HistoryRescan.DoneIsSent | cmd/historyrescan/main.go:319-335 | when the run is done, exactly the manifest was submitted |
| HistoryRescan.Rescan.SubmitRange | cmd/historyrescan/main.go:319-335 | the range is submitted from the offset on, chunk by chunk, the checkpoint following each one |
| HistoryRescan.Rescan.SubmitStage | cmd/historyrescan/main.go:241-253 | a submitting stage is over only when its whole range is submitted and that is saved |
| HistoryRescan.Rescan.WaitBatch | cmd/historyrescan/main.go:337-375 | a batch ends only when nothing in it is active and its numbers add up, so the canary top-up is unreachable; resources to retry count as failed only after two passes |
| HistoryRescan.Rescan.Resubmit | cmd/historyrescan/main.go:352-366 | a retry pass resubmits every listed resource and nothing outside the batch |
| HistoryRescan.Rescan.AuditBatch | cmd/historyrescan/main.go:229-238 | the audit record of a batch is saved before any of the batch is submitted |
| HistoryRescan.TagsDiffer | cmd/historyrescan/main.go:724-730 | no two batches of a run share a tag |
| HistoryRescan.Rescan.PassCanary | cmd/historyrescan/main.go:254-275 | the canary passes only if each of its resources was normal with a normal task of its tag when it was looked at |
| HistoryRescan.Rescan.FinishBatch | cmd/historyrescan/main.go:282-310 | a batch ends with the numbers of its last reconciliation added to the totals, or does not end |
| HistoryRescan.Rescan.Turn | cmd/historyrescan/main.go:217-310 | a turn only moves forward; the canary passes only when each of its resources was normal with a normal task of its tag, and no resource past it was submitted before; the next batch starts only when this one is settled, with its numbers added to the totals |
| HistoryRescan.Rescan.Open | cmd/historyrescan/main.go:141-198 | a run resumes from what was saved, or starts fresh |
| HistoryRescan.Rescan.Run | cmd/historyrescan/main.go:110-317 | wherever a run stops, the checkpoint it leaves is sound and says no less than the one it found; a finished one accounts for every candidate |
| LoadAlerter.Threshold | api/system_email.go:299-308 | the loop finds the highest threshold reached |
| LoadAlerter.Alerter.Apply | api/system_email.go:262-297 | a sample starts, continues, confirms or ends an episode, and the flag tells exactly whether the state changed |
| LoadAlerterRuns.AppliedIs | api/system_email.go:262-297 | what a sample below 80 and one at or above does to a state, with and without a running clock or episode |
| LoadAlerter.Alerter.Deliver | api/system_email.go:197-223 | alerts with a failed send remain, the others go |
| LoadAlerter.Alerter.Observe | api/system_email.go:120-231 | under every combination of lock, load, store, directory and send failures, what stays in the alerter and in Redis is what the run theorems reason about |
| LoadAlerter.StoreWhenChanged | api/system_email.go:170-185 | the change flags agree with an actual difference from the stored state |
| LoadAlerterRuns.AlertsAreConfirmed | api/system_email.go:120-297 | in any run, an alert is raised only when every sample of at least the preceding ten minutes was valid and at or above 80, despite lock misses, Redis failures and expiry |
| LoadAlerterRuns.LongOverloadRaises | api/system_email.go:262-297 | and an overload that lasts ten minutes raises one, if Redis works |
| LoadAlerterRuns.OneAlertPerEpisode | api/system_email.go:262-297 | an observation keeps it so that between consecutive alerts the load dipped, also when the dip could not be stored at the time |
| LoadAlerterRuns.AlertsAreSeparated | api/system_email.go:120-297 | from the start of any run without expiry, the load dipped between any two alerts |
| LoadAlerterRuns.PendingUntilDelivered | api/system_email.go:175-230 | an observation removes an alert from the stored state if and only if it gets to deliver, no send of the alert fails, and the second store succeeds |
| LoadAlerterRuns.PendingOrDelivered | api/system_email.go:175-230 | an alert pending at some time is pending at the end of the run, or no send of it failed in one delivering pass |
| LoadAlerterRuns.RaisedIsNotLost | api/system_email.go:120-297 | each alert raised in a run is pending at its end, or was sent to every user there was in one pass since, or a pass found no user at all, under any combination of failures |
| LoadAlerterRuns.AlertMayGoUnsent | api/system_email.go:187-224 | a concrete run without super administrators raises an alert and keeps nothing of it |
| LoadAlerterRuns.RefreshIsExact | api/system_email.go:233-253 | Redis is asked if and only if no failure of the last minute holds it back and the cache is unfilled or due, a dip is remembered, a delivery is ready, or the sample would change the cached state |
| LoadAlerterRuns.FailureBacksOff | api/system_email.go:142-230 | any failure of Redis stops all requests for one minute and no longer, and leaves what Redis held |
| LoadAlerterRuns.PassSchedules | api/system_email.go:175-196 | a pass makes the cache good for one minute, and alerts that could not all be sent are due again after one minute |
| LoadAlerterRuns.SkipIsHarmless | api/system_email.go:132-138 | a skipped sample would have changed nothing |
| LoadAlerterRuns.CacheAgrees | api/system_email.go:255-260 | the cache equals the stored state in every run without expiry |
| LoadAlerterRuns.HighestIsReached | api/system_email.go:299-308 | the threshold named is reached and no higher one is |
| LoadAlerterRuns.ThresholdIs | api/system_email.go:299-308 | the threshold named for every load |
| QueueDrainer.Drainer.Exclusive | cmd/aliasworker/main.go:250-311 | a task with a worker is with no other worker and in neither channel |
| QueueDrainer.Drainer.Fits | cmd/aliasworker/main.go:209-211 | what is out fits both channels, and the processed count never passes the number handed out |
| QueueDrainer.Drainer.Take | cmd/aliasworker/main.go:324-325 | a worker takes the head of the work channel |
| QueueDrainer.Drainer.Process | cmd/aliasworker/main.go:351-406 | a task that was processed, cannot be, or was released is reported as deleted if the deletion works; one that was cancelled or not released, or whose deletion fails, is to be tried again five seconds later |
| QueueDrainer.Drainer.Report | cmd/aliasworker/main.go:343-348 | sending a report never blocks, and only a cancelled run loses one |
| QueueDrainer.Drainer.ApplyResult | cmd/aliasworker/main.go:419-426 | applying a report frees the task and sets its retry time to the one named, or forgets it, and changes no other |
| QueueDrainer.Drainer.Send | cmd/aliasworker/main.go:294-299 | handing out never meets a full channel |
| QueueDrainer.Drainer.OfferAll | cmd/aliasworker/main.go:283-301 | afterwards a task is out if and only if it was out before or is listed with a retry time that had passed when it was looked at; buffer and cap hold |
| QueueDrainer.Drainer.Drain | cmd/aliasworker/main.go:250-311 | under every interleaving with the workers the cap holds although processed and assigned overlap; ending at the cap means exactly that many were handed out and processed |
| Fields.SplitFields | cmd/apple/main.go:662-665 | the leftmost splitting loop |
| Fields.JoinSplit | cmd/apple/main.go:457-462 | joining what was split gives the line back, and only its last part may end in a dash |
| Fields.SplitJoinIff | cmd/apple/main.go:804-804 | splitting what was joined gives the fields back if and only if none contains the separator and only the last ends in a dash |
| Fields.SuffixIsStable | cmd/apple/main.go:700-703 | a suffix of a split line, rejoined and split again, is that suffix |
| Fields.SanitizeIsClean | cmd/apple/main.go:807-812 | sanitising removes every separator and line break, trims, and is idempotent |
| Fields.ReplacedIs | cmd/apple/main.go:807-812 | each separator is replaced by a dash between blanks and nothing else changes |
| AppleLines.AnswerRoundTripIff | cmd/apple/main.go:712-723 | question and answer are read back as shown if and only if the answer has no opening parenthesis |
| AppleLines.FormatOutputLine | cmd/apple/main.go:781-805 | a line is produced exactly when region, questions and all fields are usable, and then joins them in order |
| AppleLines.FormattableIff | cmd/apple/main.go:781-805 | the region that was found or that of the account, every question and answer, and every field must be left after sanitising, and no field may contain the separator or a line break |
| AppleLines.RegionIs | cmd/apple/main.go:782-785 | the region that was found wins over that of the account |
| AppleLines.ParseReads | cmd/apple/main.go:695-710 | parsing through the rejoined credential reads the eight parts directly |
| AppleLines.RoundTripIff | cmd/apple/main.go:661-805 | a formatted line is parsed to what it was meant to say if and only if nothing before a separator ends in a dash and no answer has an opening parenthesis |
| AppleLines.ReplaceRegionInLine | cmd/apple/main.go:437-463 | byte order mark, line ending and the other seven fields are kept; it fails exactly on an empty region or another number of fields |
| AppleLines.EdgesAre | cmd/apple/main.go:437-463 | what is kept around the content: a byte order mark it begins with, and the line ending it has |
| AppleLines.RegionAloneChangesIff | cmd/apple/main.go:437-463 | only field one changes, if and only if the new region does not end in a dash |
| AppleLines.DashedRegionShifts | cmd/apple/main.go:437-463 | a concrete line of eight fields is split differently after its region became one that ends in a dash |
| PendingChanges.CheckPassword | cmd/apple/changes.go:214-239 | accepts exactly sixteen characters of four kinds, each present, none foreign, none three times in a row |
| PendingChanges.ValidPasswordIff | cmd/apple/changes.go:214-239 | the passwords, character by character |
| PendingChanges.LoadPending | cmd/apple/changes.go:74-116 | the loop refuses the whole file on the first bad or repeated line |
| PendingChanges.LineReads | cmd/apple/changes.go:118-164 | a line is address, password and birthday, with four dashes between them |
| PendingChanges.LineRoundTripIff | cmd/apple/changes.go:74-164 | a written line is read back as it was if its address can stand before a separator, and is otherwise refused, never misread |
| PendingChanges.FileRoundTripIff | cmd/apple/changes.go:74-164 | writing and loading gives everything back exactly when every address can stand before a separator |
| PendingChanges.LoadedIsProper | cmd/apple/changes.go:74-116 | every entry of a file that loads has a trimmed lower-case address without the separator, a valid password and a formatted date |
| PendingChanges.PrepareChanges | cmd/apple/changes.go:24-60 | every account gets a change that differs from what it has and that the program itself can load again, no password is shared, and an earlier plan is kept exactly while it still stands; if all stand, nothing can fail |
| PendingChanges.PreparedIsUncut | cmd/apple/changes.go:24-60 | planning keeps the separator out of the addresses, so that only a dash at the end can make one ambiguous |
| PendingChanges.PrepareAccountChanges | cmd/apple/changes.go:24-65 | what a run writes loads as exactly its pending changes if no address ends in a dash, and is refused otherwise |
| PendingChanges.PrunePendingChanges | cmd/apple/changes.go:67-72 | completed accounts are removed, and what is left loads again under the same condition |
| PendingChanges.SamePlan | cmd/apple/changes.go:36-58 | an account whose entry was kept gets the same change again |
| PendingChanges.Rerun | cmd/apple/changes.go:24-72 | after a run that stopped anywhere, a rerun over accounts it did not complete cannot fail to prepare and changes each of them to what was planned before |
| AppleAccounts.ParsedIsAddressed | cmd/apple/main.go:661-710 | whichever way an account is read, its address is trimmed, in lower case, and without the separator |
| AppleAccounts.LoadAccounts | cmd/apple/main.go:517-638 | loading fails exactly on an entry that is read and malformed; otherwise each account comes from an entry, is not completed and has an address of its own, every entry read is completed or there, and the accounts are such as changes can be planned for |
| AppleAccounts.EntriesAre | cmd/apple/main.go:517-638 | which entries are not read, and whether the others are read as a credential of six fields or as an account line |
| AppleAccounts.OutputRoundTripIff | cmd/apple/main.go:661-805 | with a password the tool made, a line is read back as meant if and only if neither region, iCloud flag nor address ends in a dash and no answer has an opening parenthesis |
| AppleAccounts.SoldIsLoaded | cmd/apple/main.go:695-710 | the concrete accounts below are loaded from lines of the input format |
| AppleAccounts.DashIsMisread | cmd/apple/main.go:661-805 | a concrete loaded account whose address ends in a dash is written and read back as something else |
| AppleAccounts.ParenthesisIsMisread | cmd/apple/main.go:712-805 | a concrete loaded account with a replacement answer that has an opening parenthesis is written and read back as something else |
| AppleAccounts.DashIsRefused | cmd/apple/changes.go:118-164 | the pending change of that concrete account is written, and the file is then refused |
| DailyFeedback.DueAtNextReport | integrations/astrbot_plugin_remail/feedback.py:69-82 | what is collected now becomes due exactly at the next report time |
| DailyFeedback.DayConserves | integrations/astrbot_plugin_remail/feedback.py:158-204 | one bucket: kept plus dropped equals the adds that passed the route check, and the kept explicit items are the first to arrive, as many as fit |
| DailyFeedback.DayHasOneOwner | integrations/astrbot_plugin_remail/feedback.py:158-204 | the reports of a day that were kept and name a conversation all name the one that owns the day |
| DailyFeedback.Buffer.Add | integrations/astrbot_plugin_remail/feedback.py:158-204 | only the day of the report and days older than all kept ones change |
| DailyFeedback.DayIsItsArrivals | integrations/astrbot_plugin_remail/feedback.py:158-228 | in any run of adds and discards over any days, a day that stayed since its first arrival holds exactly what its own arrivals made of it |
| DailyFeedback.BufferConserves | integrations/astrbot_plugin_remail/feedback.py:69-228 | so for the buffer: kept plus dropped of such a day are its accepted arrivals, and it becomes due exactly at the report each of them was collected for |
| DailyFeedback.Use | integrations/astrbot_plugin_remail/feedback.py:120-228 | the calls of a user of the buffer make such a run |
| DailyFeedback.Buffer.Prune | integrations/astrbot_plugin_remail/feedback.py:241-243 | the newest days are kept |

## Left out

- Wake-ups and waiting in `Acquire` and `refillRoutes`: a wake may be dropped, so no claim says that a waiting worker
  is woken; the critical sections are modelled, the sleeping between them is not.
- LeasePool.ProxyLeasePool.Acquire: is one pass under the mutex; requests that are passed on to the upstream provider,
  with a blank key or another IP version, and the attempt budget are not modelled.
- LeaseRuns.RunKeeps: assumes that the loader never reuses an id, as its counter ensures; an `Acquire` that finds
  nothing usable and starts over appears as several sections.
- Interleaving proxy routes by subnet, relayJobs and sendJobs: permutations and forwarding that no proved property
  needs.
- FreezeFeed.Feeder.FreezeAndFeed: recovery keys attached to items are not modelled, since the producer only copies
  them; only the failure of attaching is.
- FreezeResume.ResumeKeepsWork: is about freeze mode; without freezing it fails, as stated beside it.
- FreezeResume.Campaign: assumes that the table is at rest while a run recovers and sorts the items before its offset.
- FreezeResume.CountersReachManifest: takes from the workers that each item handed to them gets an outcome.
- Workers of the validation runner, proxies' health reports upstream, rate limiting, throughput logs.
- BotEvents.List: tables are snapshots of rows that announce one event each; event payloads, SQL text and the
  projection of a setting log to its topic are not modelled.
- BotStream.Stream: assumes that no row appears or goes behind a cutoff that has passed. The ready delay only gives
  rows time to become visible: launches and prices are filtered by the present status of their project, so listing,
  hiding or restricting a project brings or takes rows behind it whatever the delay.
- Times are integers and the marker bit is arithmetic on unsigned 64-bit values, justified by `BotCursor.MarkerTested`,
  `MarkerCleared` and `MarkerSet`.
- Connection limits, WebSocket framing, the request dispatcher and its response recorder.
- FrameBudget.WindowBound: is over the reals; rounding of the float64 budget is not modelled.
- PrivateEmail.HistoryIsSafe: identities are compared for non-empty ids only, because a listing may carry an empty id.
- PrivateEmail.Debugger.ReplacePrivateEmail: sessions, SMS and the login stages (`restartAt`) appear as one step that
  may fail; case folding of addresses is ASCII.
- RescanQueue.SubmitChunk: the resource root row and the resource are one row with a version; timestamps and cleared
  failure counters are not kept.
- HistoryRescan.Rescan.Run: assumes that the manifest file is not edited between runs; flags, the operator check, the
  database lock and the stage names of foreign checkpoints are not modelled.
- HistoryRescan.Rescan.WaitBatch: a crash between a retry pass and its checkpoint repeats the pass, so the two passes
  are per uninterrupted wait.
- LoadAlerter.Alerter.Observe: assumes that a store that fails wrote nothing, and so do the theorems about runs.
- LoadAlerterRuns.AlertsAreSeparated: assumes that the stored state does not expire; a single process per host.
- LoadAlerterRuns.RaisedIsNotLost: assumes that the stored state does not expire.
- LoadAlerterRuns.CacheAgrees: assumes that the stored state does not expire.
- QueueDrainer.Drainer.OfferAll: a deleted task may be listed again only if it is queued again; the queue itself is an
  arbitrary listing.
- AppleLines.RoundTripIff: address and birthday parsing are library functions, and accounts are as the loaders leave
  them.
- AppleAccounts.LoadAccounts: takes entries; reading files, splitting sheet cells, product columns, offset and limit are
  not modelled, and whether something is an address must not depend on its case.
- PendingChanges.PrepareChanges: accounts as the loader leaves them, with distinct valid addresses; random choices are
  arbitrary values that pass the program's checks, and a drawn birthday is a formatted date.
- PendingChanges.FileRoundTripIff: a file is its sequence of lines; buffering and the order of the lines do not matter.
- DailyFeedback.Buffer.Add: takes text after redaction; days are numbers instead of ISO dates; loading a dump is not
  modelled.
- The Apple, Microsoft, Gmail, Proton and Daum clients, HTTP handlers, SMTP, object storage and the rest of the Python
  plugin.
