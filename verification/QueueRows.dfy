/**
 * What the details queue's steps do to the item and batch rows themselves: an enqueue, the close of a batch, the
 * settling of an expired lease, and the tick that sends the next batch.
 */
module QueueRows {
  import opened Common
  import opened Sorting
  import opened DetailsQueue
  import opened QueueSafety

  /** Of two priorities the more urgent: new listings, then shortlisted ones, then photo captures, then sweeps. */
  predicate Urgent(a: Priority, b: Priority) {
    || (a.NewListing? && !b.NewListing?)
    || (a.Shortlisted? && (b.PhotoCapture? || b.Sweep?))
    || (a.PhotoCapture? && b.Sweep?)
  }

  // ------------------------------------------------------------------------------------------
  // Enqueueing
  // ------------------------------------------------------------------------------------------

  /** A waiting item takes a more urgent priority; a finished one starts again on a refresh; any other is left alone. */
  ghost predicate EnqueuedAs(i: Item, r: Request, i': Item) {
    if i.lane != r.lane || i.listing !in r.ids || i.status.Leased? then i' == i
    else if i.status.Done? || i.status.Failed? then
      i' == if r.refresh then Item(i.listing, i.lane, r.priority, Queued, r.region, 0, 0, i.job, None, None, i.created) else i
    else i' == if Urgent(r.priority, i.priority) then i.(priority := r.priority) else i
  }

  /** A new row for a listing asked for that had none in the lane. */
  ghost predicate AddedFor(q: Queue, r: Request, i: Item) {
    && i == Item(i.listing, r.lane, r.priority, Queued, r.region, 0, 0, None, None, None, r.at)
    && i.listing in r.ids && forall x | x in q.items :: x.listing != i.listing || x.lane != r.lane
  }

  lemma EnqueueMovesItems(q: Queue, r: Request)
    ensures var t := Enqueued(q, r);
      && t.batches == q.batches && t.leases == q.leases && |t.items| >= |q.items|
      && (forall k | 0 <= k < |q.items| :: EnqueuedAs(q.items[k], r, t.items[k]))
      && (forall k | |q.items| <= k < |t.items| :: AddedFor(q, r, t.items[k]))
  {
    var t := Enqueued(q, r);
    var missing := Missing(q.items, r, r.ids);
    MissingAre(q.items, r, r.ids);
    forall k | |q.items| <= k < |t.items| ensures AddedFor(q, r, t.items[k]) {
      assert missing[k - |q.items|] in missing;
    }
  }

  /** However often it is asked for, an item still to be fetched is never served later for it. */
  lemma PriorityOnlyRises(q: Queue, r: Request, k: nat)
    requires k < |q.items| && !Finished(q.items[k])
    ensures var i, i' := q.items[k], Enqueued(q, r).items[k];
      i'.status == i.status && (i'.priority == i.priority || Urgent(i'.priority, i.priority))
  {
    EnqueueMovesItems(q, r);
    assert EnqueuedAs(q.items[k], r, Enqueued(q, r).items[k]);
  }

  // ------------------------------------------------------------------------------------------
  // First-seen listings
  // ------------------------------------------------------------------------------------------

  /** A frequent check's listing is urgent; a sweep's, or one of unknown shape, comes last. */
  predicate ShapeGives(shape: Option<string>, p: Priority) {
    if shape.Some? && shape.value in {"newest-check", "catch-up"} then p.NewListing? else p.Sweep?
  }

  /** A text item still to be sent, of a listing that needs no fetch, is done; any other is left alone. */
  ghost predicate RecordedAs(i: Item, seen: seq<Sighting>, now: int, i': Item) {
    if i.lane.Text? && (i.status.Queued? || i.status.Deferred?) && (exists s :: s in seen && s.listing == i.listing)
    then i' == i.(status := Done, doneAt := Some(now), deferredOn := None)
    else i' == i
  }

  /** A new row, done from the start, for a listing that had none in the text lane. */
  ghost predicate DoneFor(q: Queue, seen: seq<Sighting>, at: int, now: int, i: Item) {
    exists s | s in seen ::
      && s.listing == i.listing && ShapeGives(s.shape, i.priority)
      && i == Item(s.listing, Text, i.priority, Done, s.region, 0, 0, None, None, Some(now), at)
      && forall x | x in q.items :: x.listing != i.listing || x.lane != Text
  }

  lemma RecordMovesItems(q: Queue, seen: seq<Sighting>, at: int, now: int)
    ensures var t := Recorded(q, seen, at, now);
      && t.batches == q.batches && t.leases == q.leases && |t.items| >= |q.items|
      && (forall k | 0 <= k < |q.items| :: RecordedAs(q.items[k], seen, now, t.items[k]))
      && (forall k | |q.items| <= k < |t.items| :: DoneFor(q, seen, at, now, t.items[k]))
  {
    var t := Recorded(q, seen, at, now);
    var unheld := Unheld(q.items, seen);
    UnheldAre(q.items, seen);
    forall k | |q.items| <= k < |t.items| ensures DoneFor(q, seen, at, now, t.items[k]) {
      var s := unheld[k - |q.items|];
      assert s in unheld && t.items[k] == DoneItem(s, at, now);
    }
  }

  // ------------------------------------------------------------------------------------------
  // Closing
  // ------------------------------------------------------------------------------------------

  /** Back in the queue, its counters as they were. */
  ghost predicate Returned(i: Item, i': Item) {
    i' == i.(status := Queued, doneAt := None)
  }

  ghost predicate Fetched(i: Item, now: int, i': Item) {
    i' == i.(status := Done, doneAt := Some(now))
  }

  /** One more attempt, the second of which fails it. */
  ghost predicate AttemptSpent(i: Item, i': Item) {
    i' == i.(attempts := i.attempts + 1, status := if i.attempts == 0 then Queued else Failed, doneAt := None)
  }

  /** One refresh, after which what there is stands. */
  ghost predicate RefreshSpent(i: Item, now: int, i': Item) {
    if i.requeues == 0 then i' == i.(requeues := 1, status := Queued, doneAt := None) else Fetched(i, now, i')
  }

  /** What a row of the run's dataset, or its absence, makes of the item sent for it. */
  ghost predicate MovedByRow(i: Item, row: Option<ListingRow>, now: int, i': Item) {
    match row
    case None => AttemptSpent(i, i')
    case Some(ListingRow(unresolved, outcome, description)) =>
      && (unresolved ==> Fetched(i, now, i'))
      && (!unresolved ==>
            match outcome
            case Some(o) =>
              if o in {"not-requested-cap", "not-requested-request-cap", "not-requested-time-limit"} then Returned(i, i')
              else if o in {"collected", "metadata-only", "cache-hit", "cache-deferred"} then
                MovedByText(i, description, now, i')
              else AttemptSpent(i, i')
            case None => MovedByText(i, description, now, i'))
  }

  ghost predicate MovedByText(i: Item, description: Option<string>, now: int, i': Item) {
    && (description == Some("full_verified") ==> Fetched(i, now, i'))
    && (description != Some("full_verified") ==> RefreshSpent(i, now, i'))
  }

  /** How one item of the closed batch ends: by its row, or after a run that was refused or failed. */
  ghost predicate MovedByClose(c: Closing, i: Item, now: int, i': Item) {
    match c
    case FromRows(rows) => MovedByRow(i, if i.listing in rows then Some(rows[i.listing]) else None, now, i')
    case RequeueAll => Returned(i, i')
    case FailAll => AttemptSpent(i, i')
  }

  /** The whole effect of closing the open batch of `job`; there is at most one. */
  lemma CloseMovesRows(q: Queue, b: nat, c: Closing, now: int)
    requires Valid(q) && b < |q.batches| && q.batches[b].closedAt.None?
    ensures var job := q.batches[b].job; var t := Closed(q, job, c, now);
      && t.batches == q.batches[b := q.batches[b].(closedAt := Some(now))] && t.leases == map[]
      && |t.items| == |q.items|
      && forall k | 0 <= k < |q.items| ::
           if q.items[k].status.Leased? then MovedByClose(c, q.items[k], now, t.items[k]) else t.items[k] == q.items[k]
  {
    var job := q.batches[b].job;
    var at := FindBatch(q.batches, job);
    assert q.batches[b] in q.batches;
    SameJobSameBatch(q.batches, b, at.value);
    CloseKeepsValid(q, job, c, now);
    ClosesTheOpenBatch(q, job);
    forall k | 0 <= k < |q.items| ensures
      if q.items[k].status.Leased? then MovedByClose(c, q.items[k], now, Closed(q, job, c, now).items[k])
      else Closed(q, job, c, now).items[k] == q.items[k]
    {
      assert ItemOk(Open(q), q.items[k]);
    }
  }

  /** A job without an open batch closes nothing. */
  lemma CloseOfNoneIsNothing(q: Queue, job: nat, c: Closing, now: int)
    requires forall b | b in q.batches && b.job == job :: b.closedAt.Some?
    ensures Closed(q, job, c, now) == q
  {
  }

  // ------------------------------------------------------------------------------------------
  // Expired leases
  // ------------------------------------------------------------------------------------------

  /** The lease of 30 minutes is over and the job has ended: read out and announced, refused, or failed. */
  predicate LeaseEnds(b: Batch, env: Env) {
    && b.submittedAt + 1800 <= env.now && b.job in env.jobs
    && var job := env.jobs[b.job];
       job.status.JobRefused? || job.status.JobFailed? || (job.status.JobSucceeded? && job.announced)
  }

  ghost predicate MovedByJob(i: Item, job: nat, env: Env, i': Item)
    requires job in env.jobs
  {
    match env.jobs[job].status
    case JobRefused => Returned(i, i')
    case JobFailed => AttemptSpent(i, i')
    case _ =>
      MovedByRow(i, if job in env.rows && i.listing in env.rows[job] then Some(env.rows[job][i.listing]) else None, env.now, i')
  }

  /** What a tick does first: the batch in flight is closed once its lease ends, by how its job ended, and not before. */
  lemma ExpiredLeaseSettles(q: Queue, b: nat, env: Env)
    requires Valid(q) && b < |q.batches| && q.batches[b].closedAt.None?
    ensures var t := Settled(q, OpenBatches(q.batches), env); var job := q.batches[b].job;
      && (!LeaseEnds(q.batches[b], env) ==> t == q)
      && (LeaseEnds(q.batches[b], env) ==>
            && t.batches == q.batches[b := q.batches[b].(closedAt := Some(env.now))] && t.leases == map[]
            && |t.items| == |q.items|
            && forall k | 0 <= k < |q.items| ::
                 if q.items[k].status.Leased? then MovedByJob(q.items[k], job, env, t.items[k])
                 else t.items[k] == q.items[k])
  {
    var open := OpenBatches(q.batches);
    OpenAre(q.batches);
    assert q.batches[b] in open;
    assert open == [q.batches[b]] && open[..0] == [];
    assert Settled(q, open[..0], env) == q;
    if LeaseEnds(q.batches[b], env) { CloseMovesRows(q, b, Settling(q.batches[b], env).value, env.now); }
  }

  // ------------------------------------------------------------------------------------------
  // Sending the next batch
  // ------------------------------------------------------------------------------------------

  /** An item a tick may send: text, waiting, its listing free; a sweep only while nothing is throttled. */
  ghost predicate MaySend(q: Queue, env: Env, i: Item) {
    && i in q.items && i.lane.Text? && (i.status.Queued? || i.status.Deferred?) && i.listing !in q.leases
    && !env.level.HoldNew? && (i.priority.Sweep? ==> env.level.Clear?)
  }

  lemma MaySendIsWaiting(q: Queue, env: Env, i: Item)
    ensures MaySend(q, env, i) <==> i in q.items && Waiting(q, PrioritiesAllowed(env.level), i)
  {
    assert i.lane.Text? <==> i.lane in OPEN_LANES;
    assert i.priority in PrioritiesAllowed(env.level)
      <==> !env.level.HoldNew? && (i.priority.Sweep? ==> env.level.Clear?);
  }

  /** More urgent first, then the older, then the lower listing id. */
  ghost predicate ServedNoLater(a: Item, b: Item) {
    && !Urgent(b.priority, a.priority)
    && (a.priority == b.priority ==>
          && a.created <= b.created
          && (a.created == b.created ==> a.listing == b.listing || InTextOrder(a.listing.text, b.listing.text)))
  }

  lemma NotBeforeIsServedNoLater(a: Item, b: Item)
    requires !Before(b, a)
    ensures ServedNoLater(a, b)
  {
    StringLessTotal(a.listing.text, b.listing.text);
    StringLessIsTextOrder(a.listing.text, b.listing.text);
  }

  predicate InRegion(i: Item, region: string) {
    i.region == Some(region) || (i.region.None? && region == "uk")
  }

  /** `b` is the batch just sent from `q`. */
  ghost predicate IsSent(q: Queue, env: Env, b: Batch, t: Queue) {
    && env.submit == Some(b.job) && b.lane.Text? && b.day == env.day && b.submittedAt == env.now && b.closedAt.None?
    && b.size == |b.ids| && 1 <= b.size <= 200 && Distinct(b.ids)
    && t.batches == q.batches + [b]
    && t.leases.Keys == q.leases.Keys + (set l | l in b.ids) && (forall l | l in b.ids :: t.leases[l] == b.job)
    && |t.items| == |q.items|
  }

  ghost predicate Taken(b: Batch, i: Item) {
    i.lane.Text? && i.listing in b.ids
  }

  /** Its items, and only they, are leased to it; all of its region. */
  ghost predicate TakesItems(q: Queue, env: Env, b: Batch, t: Queue)
    requires |t.items| == |q.items|
  {
    && (forall l | l in b.ids :: exists i :: i in q.items && Taken(b, i) && i.listing == l)
    && forall k | 0 <= k < |q.items| ::
         if Taken(b, q.items[k]) then
           MaySend(q, env, q.items[k]) && InRegion(q.items[k], b.region)
           && t.items[k] == q.items[k].(status := Leased, job := Some(b.job), deferredOn := None)
         else t.items[k] == q.items[k]
  }

  /** Whatever it leaves is served no sooner than its first item, or in its own region than any item, for lack of room. */
  ghost predicate LeavesOnlyLess(q: Queue, env: Env, b: Batch, t: Queue) {
    exists lead :: MaySend(q, env, lead) && Taken(b, lead) && forall left | MaySend(q, env, left) && !Taken(b, left) ::
      && ServedNoLater(lead, left)
      && (InRegion(left, b.region) ==>
            && (b.size == 200 || Submitted(t.batches, env.day) == 1000)
            && forall i | i in q.items && Taken(b, i) :: ServedNoLater(i, left))
  }

  lemma BatchIsTaken(q: Queue, env: Env, batch: seq<Item>, b: Batch, i: Item)
    requires UniqueItems(q.items) && batch != [] && IsBatch(q, PrioritiesAllowed(env.level), |batch|, batch)
    requires b.lane == Text && b.ids == Ids(batch) && i in q.items
    ensures i in batch <==> Taken(b, i)
  {
    assert batch[0] in batch;
    if i in batch {
      var j :| 0 <= j < |batch| && batch[j] == i;
      assert b.ids[j] == i.listing;
    }
    if Taken(b, i) {
      var k :| 0 <= k < |q.items| && q.items[k] == i;
      InBatchByKey(q, batch, PrioritiesAllowed(env.level), k);
    }
  }

  lemma LeasedBatchIsSent(q: Queue, env: Env, batch: seq<Item>, t: Queue)
    requires Valid(q) && env.submit.Some? && batch != [] && |batch| <= 200
    requires IsBatch(q, PrioritiesAllowed(env.level), |batch|, batch) && t == LeaseBatch(q, env.submit.value, batch, env)
    ensures IsSent(q, env, t.batches[|q.batches|], t)
  {
    assert batch[0] in batch;
    BatchIdsAreDistinct(q, PrioritiesAllowed(env.level), |batch|, batch);
  }

  lemma LeasedBatchTakesItems(q: Queue, env: Env, batch: seq<Item>, b: Batch, items: seq<Item>)
    requires Valid(q) && batch != [] && IsBatch(q, PrioritiesAllowed(env.level), |batch|, batch)
    requires b.lane == Text && b.ids == Ids(batch) && b.region == RegionOf(batch[0])
    requires items == LeasedAll(q.items, batch, b.job)
    ensures TakesItems(q, env, b, q.(items := items))
  {
    forall l | l in b.ids ensures exists i :: i in q.items && Taken(b, i) && i.listing == l {
      var j :| 0 <= j < |batch| && b.ids[j] == l;
      assert batch[j] in batch;
      BatchIsTaken(q, env, batch, b, batch[j]);
    }
    forall k | 0 <= k < |q.items|
      ensures q.items[k] in batch <==> Taken(b, q.items[k])
      ensures q.items[k] in batch ==> MaySend(q, env, q.items[k]) && InRegion(q.items[k], b.region)
    {
      BatchIsTaken(q, env, batch, b, q.items[k]);
      MaySendIsWaiting(q, env, q.items[k]);
    }
  }

  lemma SentBatchLeavesLess(q: Queue, env: Env, batch: seq<Item>, t: Queue, room: nat)
    requires Valid(q) && Open(q).None? && env.submit.Some? && batch != []
    requires batch == NextBatch(q, PrioritiesAllowed(env.level), room)
    requires IsBatch(q, PrioritiesAllowed(env.level), |batch|, batch) && t == LeaseBatch(q, env.submit.value, batch, env)
    requires |batch| == room ==> room == 200 || Submitted(t.batches, env.day) == 1000
    ensures LeavesOnlyLess(q, env, t.batches[|q.batches|], t)
  {
    var b := t.batches[|q.batches|];
    var lead := batch[0];
    assert lead in batch;
    MaySendIsWaiting(q, env, lead);
    BatchIsTaken(q, env, batch, b, lead);
    forall left | MaySend(q, env, left) && !Taken(b, left)
      ensures ServedNoLater(lead, left)
      ensures InRegion(left, b.region) ==>
                && (b.size == 200 || Submitted(t.batches, env.day) == 1000)
                && forall i | i in q.items && Taken(b, i) :: ServedNoLater(i, left)
    {
      BatchIsTaken(q, env, batch, b, left);
      MaySendIsWaiting(q, env, left);
      NextBatchIsMostUrgent(q, PrioritiesAllowed(env.level), room, left);
      NotBeforeIsServedNoLater(lead, left);
      if InRegion(left, b.region) {
        forall i | i in q.items && Taken(b, i) ensures ServedNoLater(i, left) {
          BatchIsTaken(q, env, batch, b, i);
          NotBeforeIsServedNoLater(i, left);
        }
      }
    }
  }

  /** What counts against a day's cap: the sizes of the batches sent on it. */
  lemma {:induction false} CapCountsTheDay(batches: seq<Batch>, day: int)
    ensures Submitted(batches, day)
         == Sum(|batches|, (k: nat) => if k < |batches| && batches[k].day == day then batches[k].size else 0)
  {
    if batches != [] {
      var init, n := batches[..|batches| - 1], |batches| - 1;
      CapCountsTheDay(init, day);
      SumSame(n, (k: nat) => if k < |init| && init[k].day == day then init[k].size else 0,
        (k: nat) => if k < |batches| && batches[k].day == day then batches[k].size else 0);
    }
  }

  ghost predicate SendsBest(q: Queue, env: Env, b: Batch, t: Queue) {
    IsSent(q, env, b, t) && TakesItems(q, env, b, t) && LeavesOnlyLess(q, env, b, t)
  }

  ghost predicate HasWork(q: Queue, env: Env) {
    exists i :: MaySend(q, env, i)
  }

  ghost predicate DefersQueued(q: Queue, env: Env, t: Queue) {
    && t.batches == q.batches && t.leases == q.leases && |t.items| == |q.items|
    && forall k | 0 <= k < |q.items| ::
         t.items[k] == if q.items[k].status.Queued? && q.items[k].lane.Text?
                       then q.items[k].(status := Deferred, deferredOn := Some(env.day)) else q.items[k]
  }

  /** The queue once expired leases are settled is free to send: on, nothing in flight, not held, below the day's cap. */
  ghost predicate CanSend(q: Queue, env: Env) {
    !env.off && Open(q).None? && !env.level.HoldNew? && Submitted(q.batches, env.day) < 1000
  }

  /** What a tick makes of the queue its settling left. */
  ghost predicate TickLeaves(q: Queue, env: Env, t: Queue) {
    if CanSend(q, env) && env.submit.Some? && HasWork(q, env) then exists b :: SendsBest(q, env, b, t)
    else if Open(q).None? && !env.level.HoldNew? && Submitted(q.batches, env.day) >= 1000 then DefersQueued(q, env, t)
    else t == q
  }

  lemma NoBatchMeansNoWork(s: Queue, env: Env, room: nat)
    requires Valid(s) && room > 0
    ensures NextBatch(s, PrioritiesAllowed(env.level), room) == [] <==> !HasWork(s, env)
  {
    NextBatchIsABatch(s, PrioritiesAllowed(env.level), room);
    forall i ensures MaySend(s, env, i) <==> i in s.items && Waiting(s, PrioritiesAllowed(env.level), i) {
      MaySendIsWaiting(s, env, i);
    }
  }

  lemma ActLeaves(s: Queue, env: Env)
    requires Valid(s) && NewJob(s, env) && !env.off && Open(s).None?
    ensures TickLeaves(s, env, Acted(s, env))
  {
    var sent := Submitted(s.batches, env.day);
    if !env.level.HoldNew? && sent < DAILY_CAP {
      var room := Least(BATCH_SIZE, DAILY_CAP - sent);
      NoBatchMeansNoWork(s, env, room);
      var batch := NextBatch(s, PrioritiesAllowed(env.level), room);
      if env.submit.Some? && batch != [] { TickLeases(s, env, batch, room); }
    }
  }

  /**
   * What a tick sends, once the expired leases are settled: the most urgent items it may, as many as there is room for;
   * at the cap it defers what is queued; otherwise it does nothing.
   */
  lemma TickSendsTheMostUrgent(q: Queue, env: Env)
    requires Valid(q) && NewJob(q, env) && !env.off
    ensures TickLeaves(Settled(q, OpenBatches(q.batches), env), env, Ticked(q, env))
  {
    var s := Settled(q, OpenBatches(q.batches), env);
    SettleKeepsValid(q, OpenBatches(q.batches), env);
    SettledNewJob(q, env);
    if Open(s).None? { ActLeaves(s, env); }
  }

  lemma TickLeases(s: Queue, env: Env, batch: seq<Item>, room: nat)
    requires Valid(s) && NewJob(s, env) && CanSend(s, env) && env.submit.Some? && batch != []
    requires room == Least(BATCH_SIZE, DAILY_CAP - Submitted(s.batches, env.day))
    requires batch == NextBatch(s, PrioritiesAllowed(env.level), room)
    ensures Acted(s, env) == LeaseBatch(s, env.submit.value, batch, env)
    ensures var t := Acted(s, env); var b := t.batches[|s.batches|];
      SendsBest(s, env, b, t)
    ensures HasWork(s, env)
  {
    NextBatchIsABatch(s, PrioritiesAllowed(env.level), room);
    var t := Acted(s, env);
    LeaseKeepsBatches(s, env.submit.value, batch, PrioritiesAllowed(env.level), env);
    LeasedBatchIsSent(s, env, batch, t);
    LeasedBatchTakesItems(s, env, batch, t.batches[|s.batches|], t.items);
    SentBatchLeavesLess(s, env, batch, t, room);
    assert batch[0] in batch;
    MaySendIsWaiting(s, env, batch[0]);
  }
}
