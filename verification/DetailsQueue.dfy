/**
 * The details queue (services/details-queue) as tables and steps: enqueueing, the scheduler's tick, and closing a
 * batch. A tick sends one batch at a time, within a daily cap; closing moves each of its items on.
 */
module DetailsQueue {
  import opened Common
  import opened Sorting

  // Constants of packages/config/src/modules/details-queue.ts.
  const BATCH_SIZE: nat := 200
  const DAILY_CAP: nat := 1000
  const MAX_FAILURES: nat := 2
  const MAX_REQUEUES: nat := 1
  const LEASE_SECS: nat := 1800
  const DEFAULT_REGION := "uk"
  /** The photo lane is closed: recorded, not submitted. */
  const OPEN_LANES: set<Lane> := {Text}

  datatype ListingId = ListingId(text: string)

  datatype Lane = Text | Photo

  datatype Priority = NewListing | Shortlisted | PhotoCapture | Sweep

  datatype Status = Queued | Leased | Done | Deferred | Failed

  datatype Item = Item(listing: ListingId, lane: Lane, priority: Priority, status: Status, region: Option<string>,
    attempts: nat, requeues: nat, job: Option<nat>, deferredOn: Option<int>, doneAt: Option<int>, created: int)

  datatype Batch = Batch(job: nat, lane: Lane, region: string, ids: seq<ListingId>, size: nat, day: int,
    submittedAt: int, closedAt: Option<int>)

  /** Leases are keyed by listing alone. */
  datatype Queue = Queue(items: seq<Item>, batches: seq<Batch>, leases: map<ListingId, nat>)

  function Rank(p: Priority): nat {
    match p
    case NewListing => 0
    case Shortlisted => 1
    case PhotoCapture => 2
    case Sweep => 3
  }

  // ------------------------------------------------------------------------------------------
  // Enqueueing
  // ------------------------------------------------------------------------------------------

  /** Ids that share one lane, priority and region; `at` is the transaction's time. */
  datatype Request = Request(ids: seq<ListingId>, lane: Lane, priority: Priority, region: Option<string>, refresh: bool,
    at: int)

  datatype Counts = Counts(queued: nat, alreadyQueued: nat, skipped: nat)

  predicate Finished(i: Item) {
    i.status.Done? || i.status.Failed?
  }

  predicate Holds(items: seq<Item>, listing: ListingId, lane: Lane) {
    exists i | i in items :: i.listing == listing && i.lane == lane
  }

  predicate Asked(i: Item, r: Request) {
    i.lane == r.lane && i.listing in r.ids
  }

  /** What an enqueue makes of an item already there. */
  function Touched(i: Item, r: Request): Item {
    if !Asked(i, r) then i
    else if Finished(i) then
      if r.refresh then
        i.(priority := r.priority, region := r.region, status := Queued, attempts := 0, requeues := 0,
           deferredOn := None, doneAt := None)
      else i
    else if !i.status.Leased? && Rank(r.priority) < Rank(i.priority) then i.(priority := r.priority)
    else i
  }

  function NewItem(listing: ListingId, r: Request): Item {
    Item(listing, r.lane, r.priority, Queued, r.region, 0, 0, None, None, None, r.at)
  }

  /** The ids with no item in the lane, in order. */
  function Missing(items: seq<Item>, r: Request, ids: seq<ListingId>): seq<ListingId> {
    if ids == [] then [] else
      var init, last := Missing(items, r, ids[..|ids| - 1]), ids[|ids| - 1];
      if Holds(items, last, r.lane) then init else init + [last]
  }

  function NewItems(ids: seq<ListingId>, r: Request): seq<Item> {
    seq(|ids|, (k: nat) requires k < |ids| => NewItem(ids[k], r))
  }

  function TouchedAll(items: seq<Item>, r: Request): seq<Item> {
    seq(|items|, (k: nat) requires k < |items| => Touched(items[k], r))
  }

  function Enqueued(q: Queue, r: Request): Queue {
    q.(items := TouchedAll(q.items, r) + NewItems(Missing(q.items, r, r.ids), r))
  }

  // ------------------------------------------------------------------------------------------
  // First-seen listings, and erasure
  // ------------------------------------------------------------------------------------------

  function PriorityOfShape(shape: Option<string>): Priority {
    if shape == Some("newest-check") || shape == Some("catch-up") then NewListing else Sweep
  }

  /** What listing-ingest shows of a first-seen listing: `described` if its first run already returned a full text. */
  datatype Sighting = Sighting(listing: ListingId, facebook: bool, described: bool, shape: Option<string>, region: Option<string>)

  function Described(found: seq<Sighting>): seq<Sighting> {
    if found == [] then [] else
      var init, last := Described(found[..|found| - 1]), found[|found| - 1];
      if last.facebook && last.described then init + [last] else init
  }

  predicate Names(seen: seq<Sighting>, listing: ListingId) {
    exists s | s in seen :: s.listing == listing
  }

  /** `markDescribed`: a waiting text item that needs no fetch. */
  function Marked(i: Item, seen: seq<Sighting>, now: int): Item {
    if i.lane.Text? && (i.status.Queued? || i.status.Deferred?) && Names(seen, i.listing)
    then i.(status := Done, doneAt := Some(now), deferredOn := None)
    else i
  }

  function MarkedAll(items: seq<Item>, seen: seq<Sighting>, now: int): seq<Item> {
    seq(|items|, (k: nat) requires k < |items| => Marked(items[k], seen, now))
  }

  /** The sightings with no item in the text lane. */
  function Unheld(items: seq<Item>, seen: seq<Sighting>): seq<Sighting> {
    if seen == [] then [] else
      var init, last := Unheld(items, seen[..|seen| - 1]), seen[|seen| - 1];
      if Holds(items, last.listing, Text) then init else init + [last]
  }

  function DoneItem(s: Sighting, at: int, now: int): Item {
    Item(s.listing, Text, PriorityOfShape(s.shape), Done, s.region, 0, 0, None, None, Some(now), at)
  }

  function DoneItems(seen: seq<Sighting>, at: int, now: int): seq<Item> {
    seq(|seen|, (k: nat) requires k < |seen| => DoneItem(seen[k], at, now))
  }

  /** Described listings recorded as done: the missing ones inserted, the waiting ones marked. */
  function Recorded(q: Queue, seen: seq<Sighting>, at: int, now: int): Queue {
    q.(items := MarkedAll(q.items, seen, now) + DoneItems(Unheld(q.items, seen), at, now))
  }

  function Spared(items: seq<Item>, ids: seq<ListingId>): seq<Item> {
    if items == [] then [] else
      var init, last := Spared(items[..|items| - 1], ids), items[|items| - 1];
      if last.listing in ids then init else init + [last]
  }

  function SparedIds(listings: seq<ListingId>, ids: seq<ListingId>): seq<ListingId> {
    if listings == [] then [] else
      var init, last := SparedIds(listings[..|listings| - 1], ids), listings[|listings| - 1];
      if last in ids then init else init + [last]
  }

  /** A batch record keeps its size, the daily cap's count, and drops the erased ids. */
  function SparedBatches(batches: seq<Batch>, ids: seq<ListingId>): seq<Batch> {
    seq(|batches|, (k: nat) requires k < |batches| => batches[k].(ids := SparedIds(batches[k].ids, ids)))
  }

  /** `erase`: every item and lease of these listings is removed. */
  function Erased(q: Queue, ids: seq<ListingId>): Queue {
    Queue(Spared(q.items, ids), SparedBatches(q.batches, ids), map l | l in q.leases && l !in ids :: q.leases[l])
  }

  // ------------------------------------------------------------------------------------------
  // Closing a batch
  // ------------------------------------------------------------------------------------------

  /** The known fields of a listing row. */
  datatype ListingRow = ListingRow(unresolved: bool, outcome: Option<string>, description: Option<string>)

  datatype Verdict = VDone | VRequeue | VRefresh | VFail

  const NOT_REQUESTED: set<string> :=
    {"not-requested-cap", "not-requested-request-cap", "not-requested-time-limit"}
  const JUDGED_BY_DESCRIPTION: set<string> := {"collected", "metadata-only", "cache-hit", "cache-deferred"}

  function VerdictFor(row: Option<ListingRow>): Verdict {
    if row.None? then VFail
    else if row.value.unresolved then VDone
    else if row.value.outcome.Some? && row.value.outcome.value in NOT_REQUESTED then VRequeue
    else if row.value.outcome.Some? && row.value.outcome.value !in JUDGED_BY_DESCRIPTION then VFail
    else if row.value.description == Some("full_verified") then VDone
    else VRefresh
  }

  /** How a batch is closed: from its rows, or without rows after a refused or failed run. */
  datatype Closing = FromRows(rows: map<ListingId, ListingRow>) | RequeueAll | FailAll

  function VerdictOn(c: Closing, listing: ListingId): Verdict {
    match c
    case FromRows(rows) => VerdictFor(if listing in rows then Some(rows[listing]) else None)
    case RequeueAll => VRequeue
    case FailAll => VFail
  }

  /** `nextState`, with `doneAt` set exactly for a done item. */
  function Moved(i: Item, v: Verdict, now: int): Item {
    match v
    case VDone => i.(status := Done, doneAt := Some(now))
    case VRequeue => i.(status := Queued, doneAt := None)
    case VRefresh =>
      if i.requeues < MAX_REQUEUES then i.(status := Queued, requeues := i.requeues + 1, doneAt := None)
      else i.(status := Done, doneAt := Some(now))
    case VFail =>
      i.(status := if i.attempts + 1 >= MAX_FAILURES then Failed else Queued, attempts := i.attempts + 1, doneAt := None)
  }

  predicate LeasedBy(i: Item, job: nat) {
    i.status.Leased? && i.job == Some(job)
  }

  function MovedAll(items: seq<Item>, job: nat, c: Closing, now: int): seq<Item> {
    seq(|items|, (k: nat) requires k < |items| =>
      if LeasedBy(items[k], job) then Moved(items[k], VerdictOn(c, items[k].listing), now) else items[k])
  }

  function FindBatch(batches: seq<Batch>, job: nat): (at: Option<nat>)
    ensures at.Some? ==> at.value < |batches| && batches[at.value].job == job
    ensures at.None? ==> forall b | b in batches :: b.job != job
  {
    if batches == [] then None
    else if batches[|batches| - 1].job == job then Some(|batches| - 1)
    else FindBatch(batches[..|batches| - 1], job)
  }

  function Released(leases: map<ListingId, nat>, job: nat): map<ListingId, nat> {
    map l | l in leases && leases[l] != job :: leases[l]
  }

  predicate Closes(q: Queue, job: nat) {
    var at := FindBatch(q.batches, job);
    at.Some? && q.batches[at.value].closedAt.None?
  }

  function Closed(q: Queue, job: nat, c: Closing, now: int): Queue {
    if !Closes(q, job) then q else
      var at := FindBatch(q.batches, job).value;
      Queue(MovedAll(q.items, job, c, now), q.batches[at := q.batches[at].(closedAt := Some(now))],
        Released(q.leases, job))
  }

  // ------------------------------------------------------------------------------------------
  // The tick
  // ------------------------------------------------------------------------------------------

  datatype Level = Clear | SlowSweeps | SlowPaid | HoldNew

  datatype JobStatus = JobPending | JobRunning | JobSucceeded | JobRefused | JobFailed

  datatype Job = Job(status: JobStatus, announced: bool)

  /**
   * What one tick reads: switches, clock, London day, throttle, gateway jobs and their rows; and what the gateway
   * answers a submit (`None` is a refusal).
   */
  datatype Env = Env(off: bool, now: int, day: int, level: Level, jobs: map<nat, Job>,
    rows: map<nat, map<ListingId, ListingRow>>, submit: Option<nat>)

  function PrioritiesAllowed(level: Level): set<Priority> {
    match level
    case Clear => {NewListing, Shortlisted, PhotoCapture, Sweep}
    case SlowSweeps => {NewListing, Shortlisted, PhotoCapture}
    case SlowPaid => {NewListing, Shortlisted, PhotoCapture}
    case HoldNew => {}
  }

  function OpenBatches(batches: seq<Batch>): seq<Batch> {
    if batches == [] then [] else
      var init, last := OpenBatches(batches[..|batches| - 1]), batches[|batches| - 1];
      if last.closedAt.None? then init + [last] else init
  }

  /** How a batch whose lease has run out is closed, if its job says so. */
  function Settling(b: Batch, env: Env): Option<Closing> {
    if b.submittedAt + LEASE_SECS > env.now || b.job !in env.jobs then None
    else
      var job := env.jobs[b.job];
      if job.status.JobSucceeded? && job.announced then
        Some(FromRows(if b.job in env.rows then env.rows[b.job] else map[]))
      else if job.status.JobRefused? then Some(RequeueAll)
      else if job.status.JobFailed? then Some(FailAll)
      else None
  }

  function Settled(q: Queue, open: seq<Batch>, env: Env): Queue {
    if open == [] then q else
      var before, b := Settled(q, open[..|open| - 1], env), open[|open| - 1];
      if Settling(b, env).Some? then Closed(before, b.job, Settling(b, env).value, env.now) else before
  }

  function Submitted(batches: seq<Batch>, day: int): nat {
    if batches == [] then 0 else
      Submitted(batches[..|batches| - 1], day) + if batches[|batches| - 1].day == day then batches[|batches| - 1].size else 0
  }

  predicate Waiting(q: Queue, priorities: set<Priority>, i: Item) {
    (i.status.Queued? || i.status.Deferred?) && i.lane in OPEN_LANES && i.priority in priorities
    && i.listing !in q.leases
  }

  function WaitingItems(q: Queue, priorities: set<Priority>, items: seq<Item>): seq<Item> {
    if items == [] then []
    else
      var init, last := WaitingItems(q, priorities, items[..|items| - 1]), items[|items| - 1];
      if Waiting(q, priorities, last) then init + [last] else init
  }

  predicate Before(a: Item, b: Item) {
    if Rank(a.priority) != Rank(b.priority) then Rank(a.priority) < Rank(b.priority)
    else if a.created != b.created then a.created < b.created
    else StringLess(a.listing.text, b.listing.text)
  }

  function RegionOf(i: Item): string {
    if i.region.Some? then i.region.value else DEFAULT_REGION
  }

  function SameGroup(lead: Item, items: seq<Item>): seq<Item> {
    if items == [] then [] else
      var init, last := SameGroup(lead, items[..|items| - 1]), items[|items| - 1];
      if last.lane == lead.lane && RegionOf(last) == RegionOf(lead) then init + [last] else init
  }

  function FirstOf(items: seq<Item>, n: nat): seq<Item> {
    if |items| <= n then items else items[..n]
  }

  /** The most urgent waiting item, then up to `size` waiting items of its lane and region. */
  function NextBatch(q: Queue, priorities: set<Priority>, size: nat): seq<Item> {
    var waiting := Sorted(Before, WaitingItems(q, priorities, q.items));
    if waiting == [] then [] else FirstOf(SameGroup(waiting[0], waiting), size)
  }

  function Ids(items: seq<Item>): seq<ListingId> {
    seq(|items|, (k: nat) requires k < |items| => items[k].listing)
  }

  /** `leaseBatch`, in the submitting transaction. */
  function LeaseBatch(q: Queue, job: nat, batch: seq<Item>, env: Env): Queue
    requires batch != []
  {
    var ids := Ids(batch);
    Queue(
      LeasedAll(q.items, batch, job),
      q.batches + [Batch(job, batch[0].lane, RegionOf(batch[0]), ids, |batch|, env.day, env.now, None)],
      q.leases + map l | l in ids :: job)
  }

  function LeasedAll(items: seq<Item>, batch: seq<Item>, job: nat): seq<Item> {
    seq(|items|, (k: nat) requires k < |items| =>
      if items[k] in batch then items[k].(status := Leased, job := Some(job), deferredOn := None) else items[k])
  }

  function DeferredAll(items: seq<Item>, day: int): seq<Item> {
    seq(|items|, (k: nat) requires k < |items| =>
      if items[k].status.Queued? && items[k].lane in OPEN_LANES then items[k].(status := Deferred, deferredOn := Some(day))
      else items[k])
  }

  datatype Outcome = Off | Busy | Held | Capped | Nothing | Refused | Sent(batch: seq<Item>)

  function Least(a: nat, b: nat): nat {
    if a < b then a else b
  }

  /** What a tick that found no batch in flight does. */
  function Decision(q: Queue, env: Env): Outcome {
    var sent := Submitted(q.batches, env.day);
    if PrioritiesAllowed(env.level) == {} then Held
    else if sent >= DAILY_CAP then Capped
    else
      var batch := NextBatch(q, PrioritiesAllowed(env.level), Least(BATCH_SIZE, DAILY_CAP - sent));
      if batch == [] then Nothing else if env.submit.None? then Refused else Sent(batch)
  }

  function Acted(q: Queue, env: Env): Queue {
    match Decision(q, env)
    case Capped => q.(items := DeferredAll(q.items, env.day))
    case Sent(batch) => if batch == [] || env.submit.None? then q else LeaseBatch(q, env.submit.value, batch, env)
    case _ => q
  }

  function Ticked(q: Queue, env: Env): Queue {
    if env.off then q else
      var settled := Settled(q, OpenBatches(q.batches), env);
      if OpenBatches(settled.batches) != [] then settled else Acted(settled, env)
  }
}
