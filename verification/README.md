# Nabvy services: verified model

A Dafny model of the services in this repository whose behaviour is a protocol over a few keyed tables, with proofs of
what those protocols promise. Each table is a sequence or map with the uniqueness its database enforces; each service
call is a class method over those tables, proved equal to a step on their values; the promises are lemmas about the
steps, over every run, interleaving or input.

| file | models |
|---|---|
| `Components.dfy`, `Clusters.dfy`, `CopyAdvert.dfy` | copy-advert: union-find, link closure, cluster keys, the recompute over memberships, flags and clusters |
| `Ledger.dfy`, `LedgerSafety.dfy`, `UsageLedger.dfy`, `BalanceReport.dfy`, `SpendOrder.dfy` | usage-ledger: grants, charges, reversals, expiry, balances, and what each does to the rows |
| `Publishing.dfy`, `GatewayWatch.dfy`, `Handlers.dfy` | transport and the apify-gateway watcher: de-duplication, chunked publishing, retries, dead letters, announcing jobs |
| `Download.dfy` | the apify-gateway Edge Function's dataset download |
| `DetailsQueue.dfy`, `QueueSafety.dfy`, `BatchClosing.dfy`, `DetailsQueueService.dfy`, `QueueRows.dfy` | details-queue: enqueueing, first-seen bookkeeping, the scheduler tick, closing batches, erasure, and what each does to the rows |
| `RateLimit.dfy`, `SpendCap.dfy`, `Lifecycle.dfy`, `LifecycleRuns.dfy` | auth's magic-link limiter, parts-ai's spend cap, lifecycle-messaging's daily cap |
| `Matching.dfy`, `Aggregate.dfy`, `EvidenceRows.dfy`, `Settlement.dfy` | spec-match's history, seller-reply-reports' aggregation, cost-meter's settlement race |
| `JsonEquality.dfy`, `Timeline.dfy` | pricing-console: JSON equality, the forms of policy values, the versioned policy timeline |
| `Resolver.dfy` | the packs dictionary's longest-match resolver |
| `Common.dfy`, `Sorting.dfy` | shared vocabulary: options, sums, de-duplication, stable sorting, string order |

`dafny verify dfyconfig.toml` checks the whole project.

## Where the code and its promises part

Each is stated by lemmas: an input, or every input of a family, on which the promise fails, and exactly when it holds.

- `sameJson` reads the other object's property by name, so an own `__proto__` that is an empty object compares equal to
  a missing one: `{"__proto__": {}}` equals `{"x": 1}`, and not the other way round (`JsonEquality.NotSymmetric`). It is
  JSON equality exactly on values without such a property (`JsonEquality.SameJsonIsExactlyEqualityUnlessPoisoned`). The
  console never meets such a value: what is set has passed a strict schema and the seeded values have the same keys
  (`Timeline.UnchangedMeansEqual`).
- lifecycle-messaging mails from inside its transaction. When a later send throws, or the commit fails, the rows are
  taken back and the mails are not, so the next run mails the same keys again and a user can get two marketing mails in
  one day (`Lifecycle.TwoMailsInADay`). A key is mailed again, and the cap exceeded, exactly when a run that mailed did
  not commit (`Lifecycle.MailedAgainExactlyWhenLost`, `Lifecycle.OverTheCapExactlyWhenLost`); the stored rows keep both
  promises over every run (`Lifecycle.RunsKeepSound`).
- copy-advert's daily expiry closes members past the window and recomputes their clusters, but the link query has no
  window: a listing whose links still place it is back at once (`CopyAdvert.LinkedPairComesBack`), and one that is no
  longer placed keeps its flag, because the recompute only drops flags of memberships it closes itself
  (`CopyAdvert.UnplacedFlagStays`). `CopyAdvert.ExpiryLastsExactlyWhenUnplaced` says when.
- A dataset download is finished on the provider's word: with an item count below the dataset's size, a missing one
  counting as none, a short page finishes the job short (`Download.FinishesWith`). Every finished job is whole if and
  only if the stated count is not below the dataset's size (`Download.FinishedMeansWholeExactly`).
- A reversal can return credit to a bucket the sweep has closed (`LedgerSafety.ChargedThenClosed`); nothing sweeps it
  again and, from the expiry on, nothing spends it (`LedgerSafety.ReturnedCreditIsStranded`).
- In a list of handlers, an event invalid for one of them is dead-lettered again by every attempt that reaches it
  (`Handlers.WrongEventLetters`), and with a sink that cannot record not at all (`Handlers.NoSinkNoLetter`).
  `Handlers.OneEventThreeLetters` shows it on a list that mixes an invalid and a valid
  verdict on one event; the lists here are per event type and share the producer's registry, so only a miswired list
  does that. And `dispatchEvent` returns normally after a failure, so nothing retries it
  (`Handlers.DispatchDropsFailures`).
- The latest match of a pair depends on increasing times: at a tie an earlier state that returns is announced and stays
  hidden (`Matching.TieKeepsTheOther`); a written row is the latest exactly when it is newer (`Matching.WriteIsLatest`).
- A report marked report-then-buy does not weigh nothing for ever: resolving it replaces the mark, and once the purchase
  no longer reads it counts in full (`Aggregate.UpheldCountsAgain`). `Aggregate.MarkedWeighsNothingExactly` says exactly
  when it weighs nothing.
- A price in force at an instant can differ from what was read at that instant: a write takes effect from its
  transaction's start and is seen only from its commit (`Timeline.ReadBeforeTheCommit`, `Timeline.ReadStandsExactly`).

## Model

| member | source | states |
|---|---|---|
| Components.Forest.Find | services/copy-advert/src/domain/cluster.ts:18-28 | `find` answers the root of the node's tree, adds an unknown node as its own root, hangs the node straight under it, and compressing the path changes no root |
| Components.Forest.Union | services/copy-advert/src/domain/cluster.ts:29-33 | `union` merges exactly the two ends' trees and leaves every other node's root alone |
| Components.ComponentsOf | services/copy-advert/src/domain/cluster.ts:13-45 | the groups are exactly the classes of "joined by a chain of links": every known node in one group, no node twice, no empty group |
| Components.Collect | services/copy-advert/src/domain/cluster.ts:35-43 | grouping by root collects each root's nodes, each once |
| Components.JoinIsSound | services/copy-advert/src/domain/cluster.ts:29-34 | joining the trees of an edge's ends joins only listings some chain connects |
| Components.ConnectedShareRoot | services/copy-advert/src/domain/cluster.ts:34 | once every edge's ends share a root, so do the ends of every chain |
| Clusters.KeyIsTheEarliest | services/copy-advert/src/domain/cluster.ts:57-72 | the cluster key is that of a member no other precedes in the comparator; `ClusterIsKeyedByEarliest` spells the order out |
| Clusters.TiesShareSource | services/copy-advert/src/domain/cluster.ts:59-69 | two members neither of which precedes the other give the same key, so a replay picks the same one |
| Clusters.BelongsOnce | services/copy-advert/src/index.ts:390-392 | clustering from scratch gives a listing at most one key |
| Clusters.ClusterIsKeyedByEarliest | services/copy-advert/src/domain/cluster.ts:57-72 | a listing belongs only in the cluster keyed by an unsuppressed listing chained to it such that no other one is dated earlier, dated when it is not, or of the same date with a lower source listing id |
| Sorting.StringLessIsTextOrder | services/copy-advert/src/domain/cluster.ts:65-68 | one id is before another exactly when it is a proper beginning of it, or has the lower code unit where they first differ |
| Clusters.PeersShareTheirCluster | services/copy-advert/src/index.ts:364-371 | listings joined by any chain, suppressed listings included as connectors, belong to the same cluster |
| Clusters.GroupBelongs | services/copy-advert/src/index.ts:364-392 | what one pass assigns to a component is what clustering the whole graph from scratch gives each of its members |
| Clusters.Absorb | services/copy-advert/src/index.ts:344-352 | one frontier's links: their unseen ends, each once, become the next frontier |
| Clusters.Closure | services/copy-advert/src/index.ts:336-355 | the breadth-first loop ends with every confirmed link in reach of the seeds, and only those |
| Clusters.ClosureIsReach | services/copy-advert/src/index.ts:336-356 | the closure's nodes are exactly the listings some chain joins to a seed |
| Clusters.ClosureConnects | services/copy-advert/src/index.ts:357-359 | inside the closure the collected edges connect exactly what the whole link graph connects |
| Clusters.GroupIsWhole | services/copy-advert/src/index.ts:357-359 | each group of the closure is a whole component of the whole graph |
| CopyAdvert.Tables.SelectActiveClusterKeys | services/copy-advert/src/repo/index.ts:392-402 | each listing's active cluster, unambiguous while no listing has two |
| CopyAdvert.Tables.UpsertMember | services/copy-advert/src/repo/index.ts:488-509 | the insert is legal only while the listing is active nowhere else; the caller proves it |
| CopyAdvert.Tables.AssignGroup | services/copy-advert/src/index.ts:413-450 | every member ends active in the group's cluster and no other, its old membership stamped, its flag naming the cluster; nothing else moves |
| CopyAdvert.Tables.AssignGroups | services/copy-advert/src/index.ts:361-452 | after the loop over groups, assigned listings are as from scratch and every other row is as it was |
| CopyAdvert.Tables.CloseLeftovers | services/copy-advert/src/index.ts:454-462 | an old membership not carried over is closed and its flag dropped |
| CopyAdvert.Tables.ExpireEmptied | services/copy-advert/src/index.ts:464-469 | an old cluster is expired exactly when it has no active member left |
| CopyAdvert.Tables.RecomputeClusters | services/copy-advert/src/index.ts:328-472 | the whole effect: every listing in reach has exactly the membership and flag from-scratch clustering gives it, every other row is untouched, cluster statuses follow, and the answer is exactly the listings that are or were in a cluster; every active membership in reach is in the cluster keyed by the earliest-listed unsuppressed listing chained to it, undated last, ties to the lower source id |
| CopyAdvert.PassMovesListings | services/copy-advert/src/index.ts:361-462 | reached listings are recomputed, all others kept |
| CopyAdvert.PassMovesClusters | services/copy-advert/src/index.ts:394-409 | clusters gaining a listing become active, visited ones left empty expire, others keep their status |
| CopyAdvert.ChangedIsExact | services/copy-advert/src/index.ts:450-471 | the changed set is exactly the reached listings with a membership before or after |
| CopyAdvert.RecomputeKeepsOneActive | services/copy-advert/src/index.ts:424-427 | no listing ever holds two active memberships |
| CopyAdvert.RecomputeKeepsFlags | services/copy-advert/src/index.ts:441-459 | a flag stands exactly for an active membership and names its cluster, before and after |
| CopyAdvert.RecomputeKeepsLive | services/copy-advert/src/index.ts:464-469 | a cluster is active exactly while it has an active member, before and after |
| CopyAdvert.TwoPassesAreOne | services/copy-advert/src/index.ts:328-472 | two passes over any seeds leave memberships and flags as one pass over all of them, so order and batching do not matter |
| CopyAdvert.SecondPassChangesNothing | services/copy-advert/src/index.ts:328-472 | a pass over listings already recomputed changes no row |
| CopyAdvert.Tables.ExpireWindow | services/copy-advert/src/index.ts:474-497 | a member past the window is closed, then recomputed like any other |
| CopyAdvert.ExpiryLastsExactlyWhenUnplaced | services/copy-advert/src/index.ts:474-480 | an expired member is back in a cluster exactly when its links still place it, and otherwise its flag stays behind, naming the cluster it left |
| CopyAdvert.LinkedPairComesBack | services/copy-advert/src/repo/index.ts:368-385 | both members of a confirmed link expire and the tables end as they were, since the link query has no window |
| CopyAdvert.UnplacedFlagStays | services/copy-advert/src/index.ts:454-462 | a member without links expires, its row is stamped and its flag remains |
| Ledger.PlanCharge | services/usage-ledger/src/domain/index.ts:44-58 | the loop over buckets computes the plan: short with what is available, or the whole amount |
| Ledger.TakeIsGreedy | services/usage-ledger/src/domain/index.ts:48-58 | the plan draws the whole amount in spend order and drains each bucket before touching the next |
| Ledger.SpendOrderIsTotal | services/usage-ledger/src/domain/index.ts:24-34 | the spend order is total: two buckets are never tied |
| LedgerSafety.LedgerIsConserved | services/usage-ledger/src/index.ts:76-360 | in every reachable ledger: remaining between 0 and the grant, each non-grant entry the sum of its allocations, all entries the sum of all remainings |
| LedgerSafety.RunKeepsValid | services/usage-ledger/src/index.ts:76-360 | any serialised mix of grants, charges, reversals and expiries keeps the whole invariant |
| LedgerSafety.StepKeepsValid | services/usage-ledger/src/index.ts:76-360 | each operation keeps it |
| LedgerSafety.RemainingIsBounded | packages/db/migrations/usage-ledger/20260924172345_usage_ledger_access.sql:96-118 | a bucket's remaining lies between 0 and its grant |
| LedgerSafety.LiveBucketsAreTheBalance | services/usage-ledger/src/repo/index.ts:73-99 | the rows a charge reads are the user's unexpired buckets with credit, in spend order, worth the balance |
| LedgerSafety.ChargeWritesAllOrNothing | services/usage-ledger/src/index.ts:214-270 | a new charge the balance covers posts the whole amount in spend order, spelled out by `SpendOrder.ChargeSpendsInOrder`; any other charge writes nothing |
| LedgerSafety.DrawnBucketsAreLive | services/usage-ledger/src/index.ts:242-255 | a plan draws only on the user's live buckets, within what each holds |
| LedgerSafety.ChargeLowersTheBalance | services/usage-ledger/src/index.ts:257 | a charge lowers its user's balance by its credits and nobody else's |
| LedgerSafety.ReportedBalanceIsTrue | services/usage-ledger/src/index.ts:238-269 | the balance a charge reports, new or replayed, is the balance after it |
| LedgerSafety.NetEffectIsOneDrawOrNothing | services/usage-ledger/src/index.ts:226-240 | for any retries of charge and reversal on one key, with anything interleaved, every bucket has moved by one draw or not at all |
| LedgerSafety.ReversedIsNeverPaid | services/usage-ledger/src/index.ts:235-237 | a reversed charge is never replayed as paid |
| LedgerSafety.ReversalReturnsToItsBuckets | services/usage-ledger/src/index.ts:297-303 | a reversal returns to each bucket precisely what the charge drew, and raises the balance only through unexpired ones |
| LedgerSafety.ClosingChangesNoBalance | services/usage-ledger/src/index.ts:332-360 | closing an expired bucket changes no balance, then or later |
| LedgerSafety.SweepEmptiesUnlessClosedBefore | services/usage-ledger/src/index.ts:341-354 | the sweep empties an expired bucket if and only if it was empty or no earlier sweep closed it |
| LedgerSafety.ReturnedCreditIsStranded | services/usage-ledger/src/index.ts:346-354 | credit reversed into a closed bucket is, after any later operations, neither spendable nor swept, and operations from the expiry on leave all of it there |
| LedgerSafety.ChargedThenClosed | services/usage-ledger/src/index.ts:278-360 | such a ledger is reachable |
| LedgerSafety.OpenGrantKeepsValid | services/usage-ledger/src/index.ts:76-102 | a grant and the bucket its trigger opens keep the invariant |
| LedgerSafety.PostKeepsValid | packages/db/migrations/usage-ledger/20260924172345_usage_ledger_access.sql:79-118 | an entry posted with its allocation rows keeps the invariant |
| UsageLedger.Tables.InsertEntry | packages/db/migrations/usage-ledger/20260924172345_usage_ledger_access.sql:43-75 | inserts once per (user, kind, reference), a grant opening its bucket |
| UsageLedger.Tables.Grant | services/usage-ledger/src/index.ts:76-102 | is the grant step |
| UsageLedger.Tables.GrantByPolicy | services/usage-ledger/src/index.ts:139-171 | is the policy-grant step: a replay keeps the first value |
| UsageLedger.Tables.ChargeUsage | services/usage-ledger/src/index.ts:214-270 | writes and answers exactly as the charge step, of which `SpendOrder.ChargeSpendsInOrder` says on the rows which bucket is drawn first and `LedgerSafety` what is kept |
| UsageLedger.Tables.ReverseCharge | services/usage-ledger/src/index.ts:278-305 | is the reversal step; the throw on a refused insert is unreachable |
| UsageLedger.Tables.CloseBucket | services/usage-ledger/src/index.ts:344-357 | is the closing step of one bucket |
| UsageLedger.Tables.ExpireBuckets | services/usage-ledger/src/index.ts:337-360 | closes each due bucket once and counts those it closed; off, it does nothing |
| UsageLedger.SweepKeepsValid | services/usage-ledger/src/index.ts:337-360 | a whole sweep over a possibly stale list keeps the invariant |
| SpendOrder.ChargeSpendsInOrder | services/usage-ledger/src/domain/index.ts:19-58 | if a charge takes credit out of one bucket, it was one the user could spend, and any other the user can still spend is not of an earlier class (allowance, then taste and referral, then top-up), nor in its class sooner to expire (never-expiring last), nor with the same expiry older |
| SpendOrder.GrantOpensOnce | services/usage-ledger/src/index.ts:76-102 | a new grant opens a bucket holding all its credits with the expiry asked for; the same again changes nothing, and with other details is refused |
| SpendOrder.PolicyGrantOpensOnce | services/usage-ledger/src/index.ts:139-174 | a new grant by policy is worth the quote's credits under the quote's version; a replay keeps them whatever is quoted then; without a quote it is refused |
| SpendOrder.ChargeIsRecorded | services/usage-ledger/src/index.ts:242-269 | a new charge the balance covers is recorded under the next entry with the credits, action, reference, cost and time asked |
| SpendOrder.ChargeAgain | services/usage-ledger/src/index.ts:226-240 | a recorded charge coming again writes nothing: other details are refused, then a reversed one, and otherwise it is answered with its entry and the balance then |
| SpendOrder.ChargeIsRefused | services/usage-ledger/src/index.ts:219-222 | off or shadow refuses any charge, and an inactive account one of more than nothing |
| SpendOrder.ReversalRecords | services/usage-ledger/src/index.ts:284-304 | a reversal records the charge's credits back, naming the charge |
| SpendOrder.ReversedAgain | services/usage-ledger/src/index.ts:286-287 | reversing again writes nothing and names the first reversal |
| SpendOrder.SweepClosesExactlyWhen | services/usage-ledger/src/index.ts:340-353 | a bucket is closed if and only if it holds credit, its expiry has come, and no expiry entry names it |
| SpendOrder.SweepTakesWhatIsLeft | services/usage-ledger/src/index.ts:345-357 | the entry takes all the bucket held, and no other bucket moves |
| BalanceReport.GetBalance | services/usage-ledger/src/index.ts:312-330 | refused unless on; the credits are all the user's unexpired buckets hold, the allowance, taste-and-referral and top-up parts what the buckets of those kinds hold, and the next expiry is the earliest among them |
| BalanceReport.BalanceLastsUntilTheNextExpiry | services/usage-ledger/src/index.ts:321-328 | with nothing written, the balance stays what it is until `nextExpiryAt` |
| BalanceReport.BalanceFallsAtTheNextExpiry | services/usage-ledger/src/index.ts:321-328 | and from that instant it is lower |
| Publishing.ByTask | packages/transport/src/publisher.ts:38-47 | one group per task, in order of first appearance, each group the task's envelopes in order |
| Publishing.FlatIsAPermutation | packages/transport/src/publisher.ts:38-47 | grouping loses nothing and adds nothing |
| Publishing.FlatKeepsEachTasksOrder | packages/transport/src/publisher.ts:37-47 | each task's order is that of the input |
| Publishing.MemoryPublisher.Publish | packages/transport/src/memory.ts:25-35 | publishes the envelopes of new slots, keeps the rest as duplicates, and has seen exactly the slots given so far |
| Publishing.PublishedAndDuplicates | packages/transport/src/memory.ts:25-35 | published plus duplicates is a permutation of the input |
| Publishing.FreshSlots | packages/transport/src/memory.ts:28-34 | exactly the slots not seen before are published |
| Publishing.FreshDistinct | packages/transport/src/memory.ts:28-34 | each of them once |
| Publishing.TheFirstOfASlotIsPublished | packages/transport/src/memory.ts:28-34 | of the envelopes of one slot the first is the one published |
| Publishing.ChunksJoin | packages/transport/src/trigger.ts:29-36 | chunks hold 1 to 500 envelopes, all but the last exactly 500, and concatenate back to the group |
| Publishing.TriggerPublisher.PublishGroup | packages/transport/src/trigger.ts:29-36 | the index loop makes exactly the planned calls; a failure leaves a part of the group started and loses nothing |
| Publishing.TriggerPublisher.Publish | packages/transport/src/trigger.ts:26-39 | a clean publish starts one run per slot in order; a failed one starts only slots of its envelopes, each once |
| Publishing.RetriedPublishIsOnePublish | packages/transport/src/trigger.ts:20-25 | any number of failed attempts and then a whole publish start what one clean publish starts, each slot once |
| GatewayWatch.SlotNamesTheJob | services/apify-gateway/src/domain/index.ts:78 | different jobs never share a key |
| GatewayWatch.TickAdvancesTheQueue | services/apify-gateway/src/index.ts:169-189 | a clean tick takes exactly its batch off the front of the jobs still to announce |
| GatewayWatch.Watcher.Tick | services/apify-gateway/src/index.ts:168-190 | publishes, then marks; a failed or dying tick marks nothing and has started only its batch's slots |
| GatewayWatch.StepKeepsSound | services/apify-gateway/src/index.ts:169-189 | each tick, broken or clean, keeps: announced jobs are started, nothing twice, nothing for a job not collected |
| GatewayWatch.AnnouncedExactlyOnce | services/apify-gateway/src/index.ts:128-133 | over any run with crashes between publish and mark, each collected job is started at most once, and exactly once by the time it is marked |
| GatewayWatch.EveryTurnComes | services/apify-gateway/src/index.ts:169-189 | a collected job is announced after one clean tick per hundred ids not announced up to its own, whatever breaks or arrives in between |
| GatewayWatch.EnoughCleanTicks | services/apify-gateway/src/index.ts:169-189 | so `job / 100 + 1` clean ticks always suffice |
| GatewayWatch.CleanTicksAreCounted | services/apify-gateway/src/index.ts:169-189 | the clean ticks of a run are its ticks without a fault |
| Handlers.Runtime.Run | packages/transport/src/handler.ts:152-208 | one run leaves exactly the effects its validation, work, publish and attempt number call for, and throws exactly when it should be retried |
| Handlers.Runtime.DeadLetter | packages/transport/src/handler.ts:125-147 | the record may throw and then there is no letter; else the letter is there before its event is published, and stays if that publish throws |
| Handlers.Runtime.RunAllHandlers | trigger/event-tasks-wiring.ts:32-47 | handlers run in turn and a throw leaves the rest to the next attempt |
| Handlers.Runtime.Deliver | trigger/event-tasks-wiring.ts:28-47 | the whole retry sequence |
| Handlers.LastAttemptReturns | packages/transport/src/handler.ts:206-207 | with a sink that never fails the last attempt never throws |
| Handlers.EveryHandlerSettles | trigger/event-tasks-wiring.ts:41-46 | over the retry sequence every handler in the list is handled, dead-lettered or rejected |
| Handlers.PublishedOnlyAfterHandling | packages/transport/src/handler.ts:187-195 | nothing is published from an attempt whose `handle` failed; what is published is that attempt's whole outbox |
| Handlers.HandledMeansPublished | packages/transport/src/handler.ts:187-204 | a handled outcome means its outbox went out in the same attempt |
| Handlers.SingleHandlerLetters | packages/transport/src/handler.ts:162-207 | for a handler alone: at most one dead letter, exactly when the event is invalid or no attempt succeeded |
| Handlers.AcceptedLetters | packages/transport/src/handler.ts:206-207 | in any list, a valid event is dead-lettered at most once per handler, exactly when the last attempt was used and failed |
| Handlers.WrongEventLetters | packages/transport/src/handler.ts:162-172 | in a list, an invalid event is dead-lettered once per attempt that reaches the handler and whose sink records |
| Handlers.FirstIsReachedEachTime | trigger/event-tasks-wiring.ts:41-46 | for the first handler, with a sink that records, that is every attempt made |
| Handlers.NoSinkNoLetter | packages/transport/src/handler.ts:125-147 | with a sink that never records, an invalid event uses every attempt and leaves no letter |
| Handlers.OneEventThreeLetters | trigger/event-tasks-wiring.ts:41-46 | a list where one event leaves three dead letters |
| Handlers.Runtime.DispatchEvent | packages/transport/src/registry.ts:79-110 | every consumer runs once; handled counts those that accepted the event, did their work and had their outbox out, dead-lettered those whose letter was stored and announced, errors the rest |
| Handlers.DispatchDropsFailures | packages/transport/src/registry.ts:92-108 | a consumer is left neither settled nor dead-lettered if and only if it failed with attempts left |
| Download.PageExtendsThePrefix | supabase/functions/apify-gateway/index.ts:198-208 | a page inserted with "on conflict do nothing", whatever was stored meanwhile, leaves a gap-free prefix of the dataset |
| Download.NextIsTheLength | supabase/functions/apify-gateway/index.ts:190-194 | the resume point is the number of rows stored |
| Download.ItemsTable.DownloadDataset | supabase/functions/apify-gateway/index.ts:183-220 | keeps the stored rows a prefix under interference and answers ok exactly when the count reached is at least the stated one; the count is where the first page short of full ended, so with every request answered in full the whole dataset is stored and counted |
| Download.ItemsTable.ReadPages | supabase/functions/apify-gateway/index.ts:198-213 | it reads on while pages are full and ends at the first request answered with less than a page; with every request answered in full it reads the whole dataset |
| Download.RowsAreAlwaysAPrefix | supabase/functions/apify-gateway/index.ts:179-182 | at every point of every interleaving, crashes included, the stored rows are exactly a gap-free prefix |
| Download.FinishedMeansCounted | supabase/functions/apify-gateway/index.ts:214-219 | a run job leaves `running` only with at least the stated count recorded and at least as many rows stored as recorded, short pages or not |
| Download.FinishesWith | supabase/functions/apify-gateway/index.ts:211-219 | any number of rows below the dataset that reaches the stated count can be all a finished job has, for any page size of at least 1 |
| Download.FinishedMeansWholeExactly | supabase/functions/apify-gateway/index.ts:214-219 | every finished job has stored and recorded the whole dataset if and only if the stated count is not below its size |
| QueueSafety.EnqueueKeepsValid | services/details-queue/src/index.ts:157-212 | enqueueing keeps the queue valid and every item in place |
| QueueSafety.EnqueueHoldsEveryId | services/details-queue/src/index.ts:105-110 | every id asked for has an item in its lane afterwards |
| DetailsQueueService.EveryIdIsCounted | services/details-queue/src/index.ts:165-212 | queued, already queued and skipped add up to the ids |
| DetailsQueueService.EveryIdHasOnePlace | services/details-queue/src/index.ts:127-139 | grouping by priority and region loses no id |
| DetailsQueueService.Service.EnqueuePlaced | services/details-queue/src/index.ts:157-212 | raises or requeues exactly the items asked for, adds the missing ones, and counts each id once |
| DetailsQueueService.Service.Enqueue | services/details-queue/src/index.ts:118-154 | whatever the placement, every id is held and counted once; an item already there gets what its own listing's place asks for, and a new one is queued in its own place |
| DetailsQueueService.OnePlaceMoreDone | services/details-queue/src/index.ts:140-153 | enqueueing one group touches and adds exactly that place's items |
| DetailsQueueService.Service.CloseBatch | services/details-queue/src/index.ts:433-469 | reads, decides, marks and writes, with anything in between: it is the atomic close at its mark, whose effect on each row `QueueRows.CloseMovesRows` spells out, or changes nothing |
| QueueRows.CloseMovesRows | services/details-queue/src/domain/index.ts:109-162 | a close on each item of the batch, by its row: none costs an attempt, the second of which fails it; unresolved or full text is done; not requested goes back as it was; an unknown outcome costs an attempt; any other text spends the one refresh, then is done; nothing else moves and every lease is freed |
| QueueRows.CloseOfNoneIsNothing | services/details-queue/src/index.ts:433-445 | a job without an open batch closes nothing |
| QueueRows.ExpiredLeaseSettles | services/details-queue/src/index.ts:379-416 | the batch in flight is closed by a tick exactly when its 30 minutes are over and its job was refused (its items go back), failed (each loses an attempt) or succeeded and was announced (each by its row) |
| QueueRows.EnqueueMovesItems | services/details-queue/src/index.ts:156-208 | an enqueue gives a waiting item the more urgent of two priorities, restarts a finished one on a refresh, leaves any other alone, and adds a queued item for each id that had none |
| QueueRows.PriorityOnlyRises | services/details-queue/src/repo/index.ts:64-72 | an item still to be fetched never becomes less urgent by being asked for |
| DetailsQueueService.EachInItsPlace | services/details-queue/src/index.ts:127-152 | a first-seen id no search found keeps the caller's priority and no region; one a search found takes that search's region and its shape's priority; each item is as if enqueued alone so |
| QueueRows.CapCountsTheDay | services/details-queue/src/repo/index.ts:138-145 | what counts against the cap is the sum of the sizes of the day's batches |
| QueueRows.TickSendsTheMostUrgent | services/details-queue/src/index.ts:277-360 | when a tick can send it sends: text items waiting and free, no sweep unless unthrottled, of one region, at most 200 and within 1000 a day, none less urgent, younger or later by id than one left; at the cap it defers every queued text item; else it changes nothing |
| BatchClosing.StaleCloseIsAClose | services/details-queue/src/index.ts:438-469 | a close decided from a stale read moves exactly the items leased at its mark, whatever was enqueued, seen, ticked, closed or erased in between |
| BatchClosing.TheLoserWritesNothing | services/details-queue/src/repo/index.ts:258-275 | of two closers that both read the batch as open, the one that marks second writes nothing |
| BatchClosing.RunKeepsRead | services/details-queue/src/repo/index.ts:277-283 | while a batch stays open nothing touches the items it leased |
| DetailsQueueService.Service.SettleExpiredLeases | services/details-queue/src/index.ts:385-414 | closes the expired open batches whose job has ended, and reports whether one is still open |
| DetailsQueueService.Service.SubmitNext | services/details-queue/src/index.ts:277-360 | is the tick, and reports exactly why it did what it did: off, a batch still in flight and which, held, capped and which listings it deferred, nothing to send, refused, or sent and the batch now in flight |
| DetailsQueueService.Service.Defer | services/details-queue/src/repo/index.ts:246-256 | marks every queued item of the open lanes and names exactly those |
| QueueSafety.NextBatchIsABatch | services/details-queue/src/repo/index.ts:161-198 | a batch is waiting items of one lane and region, each once, at most the size, and empty only when nothing waits or no room is left |
| QueueSafety.NextBatchIsMostUrgent | services/details-queue/src/repo/index.ts:147-198 | nothing waiting goes before the lead, and nothing left behind in its lane and region goes before anything taken |
| QueueSafety.LeaseKeepsValid | services/details-queue/src/repo/index.ts:201-243 | leasing a batch keeps leases, items and the open batch in step |
| QueueSafety.CloseKeepsValid | services/details-queue/src/index.ts:433-469 | closing keeps every item and frees every lease |
| QueueSafety.CloseMovesTheBatch | services/details-queue/src/index.ts:441-466 | closing moves exactly the items of the batch in flight and no other; `QueueRows.CloseMovesRows` says how |
| QueueSafety.ClosingTwice | services/details-queue/src/index.ts:427-436 | closing the same batch again changes nothing |
| QueueSafety.LateCloseDoesNothing | services/details-queue/src/repo/index.ts:263-275 | nor does closing it after anything else has happened in between |
| QueueSafety.TickKeepsValid | services/details-queue/src/index.ts:277-360 | a tick keeps the queue valid and loses no item |
| QueueSafety.TickSendsWithinTheCap | services/details-queue/src/index.ts:292-310 | a tick submits only on its own day, at most up to the cap, and then that batch is the one in flight |
| QueueRows.RecordMovesItems | services/details-queue/src/handlers/index.ts:44-68 | a described first-seen listing with no text item gets one already done, urgent for a frequent check's find and else last; a waiting one is marked done; nothing else moves |
| QueueSafety.RecordKeepsValid | services/details-queue/src/handlers/index.ts:34-73 | recording described listings keeps the queue valid and every item in place |
| QueueSafety.DescribedNeedsNoFetch | services/details-queue/src/handlers/index.ts:24-33 | a first-seen listing with a full text has a text item afterwards, and none that a tick could send |
| QueueSafety.EitherOrderNeedsNoFetch | services/details-queue/src/handlers/index.ts:28-32 | whichever handler runs first, a later or earlier enqueue leaves it not waiting |
| QueueSafety.EraseKeepsValid | services/details-queue/src/repo/index.ts:426-452 | erasing listings keeps the queue valid, a batch in flight included, and touches no other item |
| QueueSafety.RunKeepsValid | services/details-queue/src/index.ts:118-498 | any run of enqueues, first-seen events, ticks, closes and erasures keeps the invariant and every item not erased |
| QueueSafety.ReachableIsSafe | services/details-queue/src/index.ts:118-498 | in every reachable queue: at most one open batch, an item leased exactly when it belongs to it and under its job, leases naming exactly its listings, no London day over the cap |
| DetailsQueueService.Service.HandleFirstSeen | services/details-queue/src/handlers/index.ts:34-73 | refuses while a listing is not shown, else records the described listings as done and reports how many it made done |
| DetailsQueueService.Service.Erase | services/details-queue/src/repo/index.ts:427-452 | removes the leases and items of the listings and their ids from the batch records, whose size stays |
| QueueSafety.BusyTickChangesNothing | services/details-queue/src/index.ts:378-384 | while the lease holds or the job has not ended (running, unseen, or not announced), a tick changes nothing |
| QueueSafety.UnattemptedItemsReturn | services/details-queue/src/index.ts:444-452 | an item never attempted, in a refused run or not requested by the actor, goes back to the queue with its counters as they were |
| QueueSafety.FailedRunCostsAnAttempt | services/details-queue/src/index.ts:451-452 | a failed run costs each item one attempt, and the last attempt fails it |
| QueueSafety.FetchedMeansFullOrGone | services/details-queue/src/domain/index.ts:109-127 | an id ends fetched only if its listing is gone, its text is full, or its refresh is used up |
| QueueSafety.ThirdAttemptFinishes | services/details-queue/src/domain/index.ts:140-162 | an item attempted three times since it was queued is finished, whatever its rows said |
| RateLimit.RateLimitTable.Consume | services/auth/src/auth.ts:141-160 | one upsert of the address's row and the answer whether it is within the limit |
| RateLimit.AtMostMaxPerWindow | services/auth/src/auth.ts:131-140 | at most `max` requests get through while one counter window lasts |
| RateLimit.AtMostTwiceMax | services/auth/src/auth.ts:150-160 | at most 10, twice the limit, in any closed hour, for every request sequence |
| RateLimit.HalfOpenIsOneFewer | services/auth/src/auth.ts:150-160 | one fewer in any half-open interval |
| RateLimit.TwiceMaxHappens | services/auth/src/auth.ts:150-160 | the closed bound is met |
| RateLimit.WindowNeverMoves | services/auth/src/auth.ts:153-157 | requests inside the window, refused ones included, never move its start |
| RateLimit.FullWindowLaterIsAccepted | services/auth/src/auth.ts:153-160 | the first request a full window after the start is accepted |
| SpendCap.CostIsWithinTheEstimate | services/parts-ai/src/index.ts:302-320 | a call within its token limits and without cache traffic costs at most the estimate, which is the cost of 2500 tokens in and 1200 out |
| SpendCap.CostIsNeverUnderstated | services/cost-meter/src/domain/amounts.ts:35-55 | both roundings go up, by less than a step: the recorded pounds cover the exact dollar cost |
| SpendCap.EachTokenAddsItsPrice | services/cost-meter/src/domain/amounts.ts:45-54 | a token more of any kind adds that kind's own price |
| SpendCap.SpentIsASum | services/parts-ai/src/repo/index.ts:163-170 | what is counted before a call is the cost of every call made in the day before it, and of a window that of every call in it |
| SpendCap.CachedAreStored | services/parts-ai/src/index.ts:186-190 | cached targets are those whose version has a stored outcome at this prompt version |
| SpendCap.CallKeepsTheCap | services/parts-ai/src/index.ts:222-231 | a call that fits the room left keeps every 24-hour window within the cap |
| SpendCap.GuardedHistoryIsWithinTheCap | services/parts-ai/src/repo/index.ts:163-170 | any history of such calls, whatever order the batches' clocks ran in, is within the cap in every 24-hour window |
| SpendCap.CallsTable.RunBatch | services/parts-ai/src/index.ts:178-246 | each complete target ends in exactly one of called, deferred or failed; calls equal extracted plus quarantined; no stored version is called again; what is stored is what the provider answered; something is deferred only when paused, at the call limit, or out of room; the cap is kept |
| SpendCap.CallsTable.HandleTarget | services/parts-ai/src/index.ts:222-243 | one target: deferred when the batch or the day is full, else called, which may fail |
| Lifecycle.StartIsTheFirstInstant | services/lifecycle-messaging/src/index.ts:64-84 | the computed start of day is exactly the first instant of that London day |
| Lifecycle.LondonDayByTheClock | services/lifecycle-messaging/src/index.ts:65-82 | London changes day 22 hours after 01:00 UTC in summer and 23 in winter |
| Lifecycle.RecountCoversTheDay | services/lifecycle-messaging/src/index.ts:160-166 | counting since the start of day misses no message of that day |
| Lifecycle.RowKeepsTheCap | services/lifecycle-messaging/src/index.ts:205-212 | a row written with room in the count keeps every user within the cap on every London day |
| Lifecycle.GuardedHistoryIsCapped | services/lifecycle-messaging/src/index.ts:149-264 | and so does any history of such rows, in any clock order |
| Lifecycle.Messenger.MarketingCountToday | services/lifecycle-messaging/src/index.ts:160-167 | the cached count is what a recount gives |
| Lifecycle.Messenger.SendStep | services/lifecycle-messaging/src/index.ts:233-258 | a send that throws leaves with or without its mail and ends the run; one that does not is one mail, one row, and the cached count still equals a recount |
| Lifecycle.Messenger.EvaluateStep | services/lifecycle-messaging/src/index.ts:185-260 | a step is sent exactly when every check passes, or its send breaks the run; one not sent is counted under the check that stopped it |
| LifecycleRuns.StoppedExactlyBy | services/lifecycle-messaging/src/domain/decide.ts:29-49 | each reason a step is not sent, and sending it, exactly by its time, address, exit since the trigger, the day's marketing count and consent |
| LifecycleRuns.PlannedExactlyWhenAllowed | services/lifecycle-messaging/src/index.ts:149-262 | every step a run plans is due, to an address, not exited from since its trigger and consented to; every such step of the run is planned, but marketing to someone who has had a message since the day began |
| Lifecycle.Messenger.Run | services/lifecycle-messaging/src/index.ts:149-264 | the run in its transaction: every planned row is committed or none, and the mails that left stay left either way; the cache never drifts |
| Lifecycle.RunsKeepSound | services/lifecycle-messaging/src/index.ts:149-264 | over any runs, broken or not, no stored key occurs twice and no user has more stored marketing messages than the cap in one London day |
| Lifecycle.MailsAreStoredOrLost | packages/db/src/with-user.ts:24-29 | every mail that ever left is a stored row or was mailed by a run that did not commit: the counts add up, per key and per user and day |
| Lifecycle.MailedTwiceExactly | services/lifecycle-messaging/src/index.ts:233-251 | a key is mailed twice exactly when uncommitted runs mailed it twice, or once beside its stored row |
| Lifecycle.StoredIsNeverMailedAgain | services/lifecycle-messaging/src/index.ts:186-191 | once a run that mailed a key has committed, no later run mails it |
| Lifecycle.MailedAgainExactlyWhenLost | services/lifecycle-messaging/src/index.ts:233-251 | of two runs that would each mail a key, the second mails it again exactly when the first did not commit |
| Lifecycle.CapHoldsForMailsNotLost | services/lifecycle-messaging/src/index.ts:205-212 | a user's marketing mails of a day are those stored, within the cap, and those lost |
| Lifecycle.OverTheCapExactlyWhenLost | services/lifecycle-messaging/src/index.ts:205-212 | two runs that would each mail a user marketing on one day go over the cap exactly when the first did not commit |
| Lifecycle.TwoMailsInADay | trigger/lifecycle-messaging-run.ts:15-19 | a run whose second send throws, and the run five minutes later: one user has two marketing mails that day under a cap of one |
| Matching.LatestIs | services/spec-match/src/repo/index.ts:314-335 | the latest row is in the pair's history and nothing in it is newer |
| Matching.WriteIsLatest | services/spec-match/src/index.ts:229-246 | a written row becomes the latest if and only if it comes after the one that was, by time and then id |
| Matching.TieKeepsTheOther | services/spec-match/src/index.ts:229-246 | three evaluations of one pair at one time, the last as the first: the return is announced as a match while the row in force says there is none |
| Matching.OtherPairsAreUntouched | services/spec-match/src/index.ts:213-249 | processing one pair leaves every other pair's latest row alone |
| Matching.LatestIsTheLastEvaluation | services/spec-match/src/index.ts:210-250 | over any evaluations at increasing times the latest row is the last evaluation, and there is none before the first relevant one |
| Matching.AnnouncedExactlyAtChanges | services/spec-match/src/index.ts:248 | the announced matches are exactly the points where the verdict in force changes |
| Matching.ReplayWritesNothing | services/spec-match/src/index.ts:216-222 | a replay writes nothing and announces nothing |
| Matching.MatchTable.MatchPair | services/spec-match/src/index.ts:213-249 | is the step for one pair, counted as current, written or neither |
| Matching.MatchTable.MatchBatch | services/spec-match/src/index.ts:185-250 | processes every owned want against every listing from one read of the latest rows; its counts are of the pairs already current and the pairs to write |
| Matching.MatchTable.MatchBatches | services/spec-match/src/index.ts:271-330 | batches one after the other leave the table and announce the ids of the history of their evaluations |
| Matching.BatchesLeaveTheLastEvaluation | services/spec-match/src/index.ts:210-250 | over any batches in time the latest row of a pair is what the last batch that had it found |
| Matching.BatchAnnounces | services/spec-match/src/index.ts:248 | what a batch announces is what its evaluations announce along the history |
| Matching.Sectioned | services/spec-match/src/index.ts:355-369 | every result is shown in one section or counted under its first reason |
| Matching.SectionShows | services/spec-match/src/index.ts:355-369 | a section has, in order and once each, exactly the results that are noise, spam and multi-quantity to nobody and lie inside a PC or not as it says |
| Matching.ReasonsAreCounted | services/spec-match/src/index.ts:355-362 | noise is counted first, spam among the rest, and multi-quantity among what is left then |
| Aggregate.EligibilityOf | services/seller-reply-reports/src/domain/index.ts:170-188 | never answers `pending` |
| Aggregate.WriteBackKeepsTheAssessment | services/seller-reply-reports/src/index.ts:454-492 | the fields written back do not change what the next call assesses or weighs |
| Aggregate.AggregateIsAFixedPoint | services/seller-reply-reports/src/index.ts:381-650 | run again on what it wrote, with the same inputs, a call writes nothing and announces nothing |
| Aggregate.WeightAtSubmitIsSetOnce | services/seller-reply-reports/src/index.ts:613 | the weight at submission, once set, never changes, whatever aggregations, resolutions, bans, edits and withdrawals follow |
| Aggregate.WeightAtSubmitIsTheFirst | services/seller-reply-reports/src/index.ts:613 | it is set by the first aggregation over a pending report, whatever was written before, or never |
| Aggregate.BoughtReportIsMarked | services/seller-reply-reports/src/index.ts:614 | a report bought after, with no other outcome, is marked report-then-buy |
| Aggregate.WeighsNothingExactly | services/seller-reply-reports/src/index.ts:482-491 | exactly when a report weighs nothing outside the item family |
| Aggregate.MarkStaysUntilOverruled | services/seller-reply-reports/src/repo/index.ts:348-374 | a marked report stays marked until it is resolved or its reporter banned, and then says what it was last overruled to |
| Aggregate.MarkedWeighsNothingExactly | services/seller-reply-reports/src/index.ts:482-491 | a marked report that counts at all weighs nothing outside the item family in a later run if and only if it was never overruled, or last by the mark itself, or to void or not upheld, or the purchase still reads and it was no ban |
| Aggregate.UpheldCountsAgain | services/seller-reply-reports/src/index.ts:677-698 | a run where it does not: marked, upheld on review, the purchase taken back, and counted in full in the payment family |
| Aggregate.WithdrawnWeighsNothing | services/seller-reply-reports/src/index.ts:485 | a withdrawn report weighs nothing in any later run |
| Aggregate.ReportTables.SetOutcomes | services/seller-reply-reports/src/repo/index.ts:348-374 | the reports that did not say so already now do, and are named |
| Aggregate.ReportTables.ResolveReports | services/seller-reply-reports/src/index.ts:677-698 | it names exactly the chosen reports that did not say so already; with none it does nothing, otherwise the outcomes are set and the reports aggregated |
| Aggregate.OverruledAre | services/seller-reply-reports/src/index.ts:677-713 | resolving by id, or voiding by reporter, rewrites the outcome and who set it on exactly those reports and nothing else |
| Aggregate.ReporterTouches | services/seller-reply-reports/src/index.ts:291-336 | an edit replaces the reasons, to be checked anew, and a withdrawal withdraws; on a withdrawn report neither does anything |
| Aggregate.ReportTables.VoidReportsOf | services/seller-reply-reports/src/handlers/index.ts:79-91 | a ban names and voids exactly its reporter's reports not voided by one already, and aggregates if there are any |
| Aggregate.ReportTables.RefreshRow | services/seller-reply-reports/src/index.ts:554-606 | one evidence row is written exactly when its inputs changed |
| Aggregate.ReportTables.AggregateReports | services/seller-reply-reports/src/index.ts:381-650 | leaves and answers exactly the aggregate of its inputs, which `EvidenceRows` says row by row; on a state an earlier call left it makes no write |
| EvidenceRows.AggregationLeavesRows | services/seller-reply-reports/src/index.ts:493-600 | after a call each row of a target, scope and family has one contribution for each reason of that family of each report in scope and no other, weighing nothing if withdrawn, void, not upheld, or bought or marked outside the item family, else the base weight of an eligible reporter; it is held by a burst, or by counter weight; other rows are as before, and the listings named are those whose rows moved |
| EvidenceRows.AggregationAssesses | services/seller-reply-reports/src/index.ts:452-477 | every report says its first ineligibility, its weight, its outcome and who set it, and its status, helping exactly when it counts in an unheld row of its own listing that reaches a level |
| EvidenceRows.ContributionsAreOne | services/seller-reply-reports/src/index.ts:544-556 | only one list of contributions, in order, fits a row |
| Settlement.RunKeepsInv | services/cost-meter/src/index.ts:99-113 | every settler's place agrees with the row in every interleaving, and a row once settled stays as it was settled |
| Settlement.NobodyLosesTheRaceTwice | services/cost-meter/src/index.ts:114 | no interleaving reaches the "kept losing a race" throw |
| Settlement.ExactlyOneSettles | services/cost-meter/src/index.ts:90-115 | exactly one settlement is written when any is acceptable; same-amount settlers change nothing, different amounts are refused |
| Settlement.CallLedger.WriteCall | services/cost-meter/src/index.ts:43-53 | a call is inserted once; a replay must describe the same call |
| Settlement.CallLedger.Settle | services/cost-meter/src/index.ts:90-115 | the two-pass loop under interference: an acceptable settlement of an unsettled call is written unless another is written between its read and its write, and then answered from that one; its last line is unreachable |
| JsonEquality.SameJsonIsEquality | services/pricing-console/src/index.ts:242-252 | on a value with no empty own `__proto__` the answer is exactly JSON equality |
| JsonEquality.PoisonedIsFooled | services/pricing-console/src/index.ts:250 | every other value is called equal to one that differs |
| JsonEquality.SameJsonIsExactlyEqualityUnlessPoisoned | services/pricing-console/src/index.ts:242-252 | `sameJson(a, b)` is JSON equality for every `b` if and only if `a` nowhere holds an empty own `__proto__`; and even then an array equals only arrays and an object only objects |
| JsonEquality.SameJsonIsAnEquivalence | services/pricing-console/src/index.ts:242-252 | on such values it is an equivalence relation |
| JsonEquality.NotSymmetric | services/pricing-console/src/index.ts:250 | in general it is not symmetric |
| JsonEquality.FittingIsNotPoisoned | packages/contracts/src/modules/pricing-console.ts:53-211 | a value let through by a strict schema that names no `__proto__` is none of those the function decides wrongly |
| Timeline.PolicyTable.SetPolicy | services/pricing-console/src/index.ts:300-312 | a value that does not fit its kind is refused first; otherwise the write, and "unchanged" means the current value was set |
| Timeline.PolicyTable.RetirePolicy | services/pricing-console/src/index.ts:319-332 | only tiers, prices, bundles and offers can be withdrawn |
| Timeline.PolicyTable.WritePolicy | services/pricing-console/src/index.ts:334-421 | every check in order, then the next version of that one policy; stored values keep their kind's form |
| Timeline.WriteEndsExactly | services/pricing-console/src/index.ts:334-421 | each answer exactly: off; a time in the past, an offer past its own end, a time before the scheduled one or an offer moved to another user invalid; nothing to retire; unchanged; below the floor; written |
| Timeline.AppendedIsAsAsked | services/pricing-console/src/index.ts:359-404 | a written version is the next, with the value asked for or the last one retired, for the value's own user, in effect when asked, else with the scheduled one, else at once |
| Timeline.InForceIsTheLastToTakeEffect | services/pricing-console/src/repo/index.ts:45-58 | the row in force at an instant is the last version whose time has passed |
| Timeline.RunKeepsTheTimeline | services/pricing-console/src/index.ts:360-393 | over any sets and retirements versions stay consecutive and effective times non-decreasing |
| Timeline.WriteChangesFromItsTimeOn | services/pricing-console/src/index.ts:345-366 | a write changes exactly the instants from its version's own time on, and that time is not before its transaction's |
| Timeline.SeenAreCommitted | services/pricing-console/src/repo/index.ts:26-28 | what a read sees are exactly the writes committed by then, a prefix of them |
| Timeline.ReadStandsExactly | services/pricing-console/src/index.ts:345-366 | a past read stays what the whole history says of its instant exactly when no version taking effect by then is committed after it |
| Timeline.ThePastNeverChanges | services/pricing-console/src/index.ts:345-366 | and so it stays unless some write had begun by then and had not committed |
| Timeline.ReadBeforeTheCommit | services/pricing-console/src/repo/index.ts:30-35 | a write begun at 0 and committed at 2 is in force at 1, where a read found nothing |
| Timeline.WrittenIsInForceFromItsTime | services/pricing-console/src/index.ts:393-404 | a new version is in force from exactly its time |
| Timeline.OfferKeepsItsTarget | services/pricing-console/src/index.ts:368-400 | over any writes every row is for whom its own stored value says, and all versions of an offer for the same user or segment |
| Timeline.AnotherUserIsRefused | services/pricing-console/src/index.ts:368-373 | an offer for another user than the one it was made for is refused |
| Timeline.SettingAgainWritesNothing | services/pricing-console/src/index.ts:354-358 | setting or retiring what the last version already says writes nothing |
| Timeline.SameExactlyWhenCurrent | services/pricing-console/src/index.ts:356-358 | on admitted values a set that reaches the comparison is answered unchanged if and only if it says the current value |
| Timeline.UnchangedMeansEqual | services/pricing-console/src/index.ts:356-358 | over any run of admitted writes every stored value has its kind's form, so a set answered unchanged did say the current value |
| Resolver.Blanked | packages/packs/src/dictionary.ts:18-21 | blanking preserves length |
| Resolver.StandsAloneExactly | packages/packs/src/dictionary.ts:80-85 | a match stands alone exactly when it is not empty, no letter or digit touches it, and no pound, dollar or euro sign precedes it |
| Resolver.KeptAreApart | packages/packs/src/dictionary.ts:91-94 | kept spans are pairwise disjoint |
| Resolver.KeptExactlyWhenClear | packages/packs/src/dictionary.ts:91-94 | a span is kept exactly when it overlaps nothing kept before it |
| Resolver.RejectedForALonger | packages/packs/src/dictionary.ts:89-94 | a rejected span shares characters with a kept one that is longer, or as long and not to its right |
| Resolver.SortedKeptIncrease | packages/packs/src/dictionary.ts:95 | kept spans in text order do not touch |
| Resolver.OneEachFamily | packages/packs/src/dictionary.ts:97-101 | one match per family |
| Resolver.LeftmostIsChosen | packages/packs/src/dictionary.ts:95-101 | and it is the family's earliest kept span |
| Resolver.EverySpanIsAccountedFor | packages/packs/src/dictionary.ts:75-111 | every span that stands alone shares characters with a kept one that is longer, or as long and not to its right, or its family is reported at or before it |
| Resolver.KeepLongest | packages/packs/src/dictionary.ts:91-94 | the greedy loop |
| Resolver.Resolve | packages/packs/src/dictionary.ts:74-111 | strictly increasing indices, one match per family, and each text the slice of the original input at its index |

## Left out

- copy-advert's text similarity, photo evidence, candidate requests, corrections and reports: rules over stored text, not protocol.
- copy-advert's `erase`: it deletes rows and expires clusters left with fewer than two members without recomputing, so a last survivor stays a member of an expired cluster.
- copy-advert's cluster facts (towns, spread, mass posting), prices and the member's `basis`: derived figures that decide nothing here.
- copy-advert's order of changed listings: the model answers them as a set.
- usage-ledger's account purge and low-balance event: a deletion and a one-line comparison.
- usage-ledger's row locks: operations are taken as already serialised per user, which is what the locks do.
- Handlers.Runtime.Run: a publish that fails part-way is one failed publish here; which runs it started is the business of `Publishing.TriggerPublisher.Publish`.
- The watcher's metering and settlement steps: each is the same publish-then-mark pattern, or a call into cost-meter.
- The Edge Function's run start, summary record and job claiming: plumbing around the download.
- Download.FinishedMeansWholeExactly: a run without a default dataset, which `storeRun` records with no rows and without a download.
- Download.ItemsTable.DownloadDataset: the dataset is taken as immutable, which it is once the run has finished.
- details-queue's events and its `v_queue` reads: envelope building and a view.
- details-queue's item ids: a row is told by its listing, lane and job.
- details-queue's region tags: a missing region and an empty one are distinct here, while the service's grouping key joins them.
- details-queue's outcome labels and the actor input it builds: text for people and for the provider.
- The magic-link limiter's clock: the requests of one address are taken to arrive in time order.
- parts-ai's model answers, redaction, refresh requests and part resolution: their results are inputs.
- lifecycle-messaging's copy and numbers, and its account purge. A mail leaves whole or not at all, the workflow record is part of its send, and two runs at once are not modelled.
- Lifecycle.StartIsTheFirstInstant: London's offset is one hour in summer, changing at 01:00 UTC, on days given by an uninterpreted function.
- spec-match's deletions (wants gone, listings erased, accounts deleted): they remove whole pairs with their histories.
- spec-match's `evaluate`, distances and quote redaction: the evaluation is an input; the hash is taken to be injective.
- seller-reply-reports' switch, erasure and account purge, and its reporters' statistics: the last only feed the base weight, which is an input.
- seller-reply-reports' scores, levels, bursts and distances: functions of inputs the aggregator does not write. Weights are whole hundredths.
- cost-meter's amounts beside the settled one, and its planning of inserts: copied through.
- pricing-console's floor check: whether a change breaches it is an input.
- Timeline.ShapeOf: a schema is its named keys; ranges, formats and refinements of the values are left out, and so is the console's deletion of a user's offers.
- Resolver.Resolve: the spans each expression finds, and the variant picked near a span, are inputs; positions count characters rather than UTF-16 units.
- Identifiers, hashes, SQL, validation of request shapes, HTTP, time-zone data and all user interfaces.
