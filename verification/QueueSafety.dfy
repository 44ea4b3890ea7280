/**
 * What every step of the details queue keeps: one batch in flight, leases that agree with it, the daily cap, bounded
 * failures, and no item lost.
 */
module QueueSafety {
  import opened Common
  import opened Sorting
  import opened DetailsQueue

  function Open(q: Queue): Option<Batch> {
    var open := OpenBatches(q.batches);
    if open == [] then None else Some(open[0])
  }

  /** The item belongs to the batch in flight. */
  predicate InFlight(open: Option<Batch>, i: Item) {
    open.Some? && i.lane == open.value.lane && i.listing in open.value.ids
  }

  ghost predicate SameKey(a: Item, b: Item) {
    a.listing == b.listing && a.lane == b.lane
  }

  ghost predicate UniqueItems(items: seq<Item>) {
    forall j, k | 0 <= j < k < |items| :: !SameKey(items[j], items[k])
  }

  ghost predicate UniqueJobs(batches: seq<Batch>) {
    forall j, k | 0 <= j < k < |batches| :: batches[j].job != batches[k].job
  }

  /** An item still to be fetched has attempts and refreshes left; a failed one has used its attempts. */
  ghost predicate CountersOk(i: Item) {
    && (!Finished(i) ==> i.attempts < MAX_FAILURES && i.requeues <= MAX_REQUEUES)
    && (i.status.Failed? ==> i.attempts == MAX_FAILURES)
    && (i.status.Done? <==> i.doneAt.Some?)
  }

  ghost predicate ItemOk(open: Option<Batch>, i: Item) {
    && (i.status.Leased? <==> InFlight(open, i))
    && (i.status.Leased? ==> i.job == Some(open.value.job))
    && CountersOk(i)
  }

  ghost predicate ItemsOk(open: Option<Batch>, items: seq<Item>) {
    forall k {:trigger items[k]} | 0 <= k < |items| :: ItemOk(open, items[k])
  }

  ghost predicate LeasesOk(open: Option<Batch>, leases: map<ListingId, nat>) {
    && (forall l :: l in leases <==> open.Some? && l in open.value.ids)
    && (forall l | l in leases :: leases[l] == open.value.job)
  }

  ghost predicate OpenIdsHeld(open: Option<Batch>, items: seq<Item>) {
    open.Some? ==> forall l | l in open.value.ids :: Holds(items, l, open.value.lane)
  }

  /** The size is that of the batch as sent; erasure may since have dropped some of its ids. */
  ghost predicate BatchOk(b: Batch) {
    |b.ids| <= b.size && 1 <= b.size <= BATCH_SIZE && Distinct(b.ids)
  }

  ghost predicate BatchesOk(batches: seq<Batch>) {
    && UniqueJobs(batches) && |OpenBatches(batches)| <= 1
    && (forall b | b in batches :: BatchOk(b))
    && (forall day :: Submitted(batches, day) <= DAILY_CAP)
  }

  ghost predicate Valid(q: Queue) {
    && UniqueItems(q.items) && BatchesOk(q.batches)
    && ItemsOk(Open(q), q.items) && LeasesOk(Open(q), q.leases) && OpenIdsHeld(Open(q), q.items)
  }

  /** Every item is still there, under its key. */
  ghost predicate Kept(before: seq<Item>, after: seq<Item>) {
    |before| <= |after| && forall k {:trigger after[k]} | 0 <= k < |before| :: SameKey(before[k], after[k])
  }

  lemma KeptHolds(before: seq<Item>, after: seq<Item>, l: ListingId, lane: Lane)
    requires Kept(before, after) && Holds(before, l, lane)
    ensures Holds(after, l, lane)
  {
    var i :| i in before && i.listing == l && i.lane == lane;
    var k :| 0 <= k < |before| && before[k] == i;
    assert after[k] in after;
  }

  lemma KeptKeepsOpenIds(open: Option<Batch>, before: seq<Item>, after: seq<Item>)
    requires Kept(before, after) && OpenIdsHeld(open, before)
    ensures OpenIdsHeld(open, after)
  {
    if open.Some? {
      forall l | l in open.value.ids ensures Holds(after, l, open.value.lane) {
        KeptHolds(before, after, l, open.value.lane);
      }
    }
  }

  lemma SameKeysStayUnique(before: seq<Item>, after: seq<Item>)
    requires UniqueItems(before) && |before| == |after| && Kept(before, after)
    ensures UniqueItems(after)
  {
    forall j, k | 0 <= j < k < |after| ensures !SameKey(after[j], after[k]) {
      assert SameKey(before[j], after[j]) && SameKey(before[k], after[k]);
    }
  }

  // ------------------------------------------------------------------------------------------
  // Enqueueing
  // ------------------------------------------------------------------------------------------

  lemma {:induction false} MissingAre(items: seq<Item>, r: Request, ids: seq<ListingId>)
    ensures forall l :: l in Missing(items, r, ids) <==> l in ids && !Holds(items, l, r.lane)
    ensures Distinct(ids) ==> Distinct(Missing(items, r, ids))
  {
    if ids != [] {
      MissingAre(items, r, ids[..|ids| - 1]);
      assert ids == ids[..|ids| - 1] + [ids[|ids| - 1]];
    }
  }

  lemma EnqueueKeepsItems(q: Queue, r: Request)
    requires UniqueItems(q.items) && Distinct(r.ids)
    ensures UniqueItems(Enqueued(q, r).items) && Kept(q.items, Enqueued(q, r).items)
  {
    var fresh' := Missing(q.items, r, r.ids);
    MissingAre(q.items, r, r.ids);
    var after := Enqueued(q, r).items;
    forall j, k | 0 <= j < k < |after| ensures !SameKey(after[j], after[k]) {
      if k < |q.items| {
        assert !SameKey(q.items[j], q.items[k]);
      } else {
        assert fresh'[k - |q.items|] in fresh';
        if j < |q.items| { assert q.items[j] in q.items; }
      }
    }
  }

  lemma EnqueueKeepsItemsOk(q: Queue, r: Request)
    requires ItemsOk(Open(q), q.items) && OpenIdsHeld(Open(q), q.items)
    ensures ItemsOk(Open(q), Enqueued(q, r).items)
  {
    var fresh' := Missing(q.items, r, r.ids);
    MissingAre(q.items, r, r.ids);
    var after := Enqueued(q, r).items;
    forall k | 0 <= k < |after| ensures ItemOk(Open(q), after[k]) {
      if k < |q.items| {
        assert ItemOk(Open(q), q.items[k]);
      } else {
        assert fresh'[k - |q.items|] in fresh';
      }
    }
  }

  lemma EnqueueKeepsValid(q: Queue, r: Request)
    requires Valid(q) && Distinct(r.ids)
    ensures Valid(Enqueued(q, r)) && Kept(q.items, Enqueued(q, r).items)
  {
    EnqueueKeepsItems(q, r);
    EnqueueKeepsItemsOk(q, r);
    KeptKeepsOpenIds(Open(q), q.items, Enqueued(q, r).items);
  }

  /** Recorded whatever happens: every id asked for has an item in its lane afterwards. */
  lemma EnqueueHoldsEveryId(q: Queue, r: Request, l: ListingId)
    requires l in r.ids
    ensures Holds(Enqueued(q, r).items, l, r.lane)
  {
    var after := Enqueued(q, r).items;
    MissingAre(q.items, r, r.ids);
    if Holds(q.items, l, r.lane) {
      var i :| i in q.items && i.listing == l && i.lane == r.lane;
      var k :| 0 <= k < |q.items| && q.items[k] == i;
      assert after[k] in after;
    } else {
      var fresh' := Missing(q.items, r, r.ids);
      var k :| 0 <= k < |fresh'| && fresh'[k] == l;
      assert after[|q.items| + k] in after;
    }
  }

  // ------------------------------------------------------------------------------------------
  // First-seen listings
  // ------------------------------------------------------------------------------------------

  ghost predicate DistinctListings(seen: seq<Sighting>) {
    forall j, k | 0 <= j < k < |seen| :: seen[j].listing != seen[k].listing
  }

  lemma {:induction false} UnheldAre(items: seq<Item>, seen: seq<Sighting>)
    ensures forall s :: s in Unheld(items, seen) <==> s in seen && !Holds(items, s.listing, Text)
    ensures DistinctListings(seen) ==> DistinctListings(Unheld(items, seen))
  {
    if seen != [] {
      UnheldAre(items, seen[..|seen| - 1]);
      assert seen == seen[..|seen| - 1] + [seen[|seen| - 1]];
    }
  }

  lemma {:induction false} DescribedAre(found: seq<Sighting>)
    ensures forall s :: s in Described(found) <==> s in found && s.facebook && s.described
    ensures DistinctListings(found) ==> DistinctListings(Described(found))
  {
    if found != [] {
      DescribedAre(found[..|found| - 1]);
      assert found == found[..|found| - 1] + [found[|found| - 1]];
    }
  }

  lemma RecordKeepsItems(q: Queue, seen: seq<Sighting>, at: int, now: int)
    requires UniqueItems(q.items) && DistinctListings(seen)
    ensures UniqueItems(Recorded(q, seen, at, now).items) && Kept(q.items, Recorded(q, seen, at, now).items)
  {
    var after, unheld := Recorded(q, seen, at, now).items, Unheld(q.items, seen);
    UnheldAre(q.items, seen);
    forall j, k | 0 <= j < k < |after| ensures !SameKey(after[j], after[k]) {
      if k < |q.items| {
        assert !SameKey(q.items[j], q.items[k]);
      } else {
        assert unheld[k - |q.items|] in unheld;
        if j < |q.items| { assert q.items[j] in q.items; }
      }
    }
  }

  lemma RecordKeepsItemsOk(q: Queue, seen: seq<Sighting>, at: int, now: int)
    requires ItemsOk(Open(q), q.items) && OpenIdsHeld(Open(q), q.items)
    ensures ItemsOk(Open(q), Recorded(q, seen, at, now).items)
  {
    var after, unheld := Recorded(q, seen, at, now).items, Unheld(q.items, seen);
    UnheldAre(q.items, seen);
    forall k | 0 <= k < |after| ensures ItemOk(Open(q), after[k]) {
      if k < |q.items| {
        assert ItemOk(Open(q), q.items[k]);
      } else {
        assert unheld[k - |q.items|] in unheld;
      }
    }
  }

  /** Recording described listings keeps the queue valid and every item in place. */
  lemma RecordKeepsValid(q: Queue, seen: seq<Sighting>, at: int, now: int)
    requires Valid(q) && DistinctListings(seen)
    ensures Valid(Recorded(q, seen, at, now)) && Kept(q.items, Recorded(q, seen, at, now).items)
  {
    RecordKeepsItems(q, seen, at, now);
    RecordKeepsItemsOk(q, seen, at, now);
    KeptKeepsOpenIds(Open(q), q.items, Recorded(q, seen, at, now).items);
  }

  /** The listing has a text item, and none that a tick could send. */
  ghost predicate NeedsNoFetch(items: seq<Item>, listing: ListingId) {
    && Holds(items, listing, Text)
    && forall i | i in items && i.listing == listing && i.lane.Text? :: !i.status.Queued? && !i.status.Deferred?
  }

  /** A described listing is never sent for a fetch it does not need: its item is done, or was in flight or finished. */
  lemma DescribedNeedsNoFetch(q: Queue, seen: seq<Sighting>, at: int, now: int, listing: ListingId)
    requires Names(seen, listing)
    ensures NeedsNoFetch(Recorded(q, seen, at, now).items, listing)
  {
    var after, unheld := Recorded(q, seen, at, now).items, Unheld(q.items, seen);
    UnheldAre(q.items, seen);
    var s :| s in seen && s.listing == listing;
    if Holds(q.items, listing, Text) {
      var i :| i in q.items && i.listing == listing && i.lane == Text;
      var k :| 0 <= k < |q.items| && q.items[k] == i;
      assert after[k] in after && after[k] == Marked(i, seen, now);
    } else {
      var k :| 0 <= k < |unheld| && unheld[k] == s;
      assert after[|q.items| + k] in after && after[|q.items| + k] == DoneItem(s, at, now);
    }
    forall i | i in after && i.listing == listing && i.lane.Text? ensures !i.status.Queued? && !i.status.Deferred? {
      var k :| 0 <= k < |after| && after[k] == i;
      if k < |q.items| { assert i == Marked(q.items[k], seen, now); }
    }
  }

  /** Nor does a later enqueue that asks for no refresh put it back. */
  lemma EnqueueNeedsNoFetch(q: Queue, r: Request, listing: ListingId)
    requires NeedsNoFetch(q.items, listing) && !r.refresh
    ensures NeedsNoFetch(Enqueued(q, r).items, listing)
  {
    var after, missing := Enqueued(q, r).items, Missing(q.items, r, r.ids);
    MissingAre(q.items, r, r.ids);
    var i :| i in q.items && i.listing == listing && i.lane == Text;
    var k :| 0 <= k < |q.items| && q.items[k] == i;
    assert after[k] in after && after[k] == Touched(i, r);
    assert forall j | 0 <= j < |missing| :: missing[j] in missing && (missing[j] != listing || !r.lane.Text?);
    forall i | i in after && i.listing == listing && i.lane.Text? ensures !i.status.Queued? && !i.status.Deferred? {
      var k :| 0 <= k < |after| && after[k] == i;
      if k < |q.items| { assert i == Touched(q.items[k], r) && q.items[k] in q.items; }
    }
  }

  /** Whichever comes first, the enqueue or the first-seen event: a described listing is not left waiting. */
  lemma EitherOrderNeedsNoFetch(q: Queue, r: Request, seen: seq<Sighting>, at: int, now: int, listing: ListingId)
    requires Names(seen, listing) && !r.refresh
    ensures NeedsNoFetch(Enqueued(Recorded(q, seen, at, now), r).items, listing)
    ensures NeedsNoFetch(Recorded(Enqueued(q, r), seen, at, now).items, listing)
  {
    DescribedNeedsNoFetch(q, seen, at, now, listing);
    EnqueueNeedsNoFetch(Recorded(q, seen, at, now), r, listing);
    DescribedNeedsNoFetch(Enqueued(q, r), seen, at, now, listing);
  }

  // ------------------------------------------------------------------------------------------
  // Closing
  // ------------------------------------------------------------------------------------------

  lemma {:induction false} OpenAre(batches: seq<Batch>)
    ensures forall b :: b in OpenBatches(batches) <==> b in batches && b.closedAt.None?
  {
    if batches != [] {
      OpenAre(batches[..|batches| - 1]);
      assert batches == batches[..|batches| - 1] + [batches[|batches| - 1]];
    }
  }

  lemma {:induction false} SubmittedSame(before: seq<Batch>, after: seq<Batch>, day: int)
    requires |before| == |after|
    requires forall k | 0 <= k < |before| :: before[k].day == after[k].day && before[k].size == after[k].size
    ensures Submitted(before, day) == Submitted(after, day)
  {
    if before != [] { SubmittedSame(before[..|before| - 1], after[..|after| - 1], day); }
  }

  lemma SameJobSameBatch(batches: seq<Batch>, j: nat, k: nat)
    requires UniqueJobs(batches) && j < |batches| && k < |batches|
    ensures batches[j].job == batches[k].job ==> j == k
  {
  }

  /** The batch a job closes is the one in flight. */
  lemma ClosesTheOpenBatch(q: Queue, job: nat)
    requires BatchesOk(q.batches) && Closes(q, job)
    ensures Open(q) == Some(q.batches[FindBatch(q.batches, job).value]) && Open(q).value.job == job
  {
    var b := q.batches[FindBatch(q.batches, job).value];
    OpenAre(q.batches);
    assert b in OpenBatches(q.batches);
  }

  lemma CloseKeepsBatches(q: Queue, job: nat, now: int)
    requires BatchesOk(q.batches) && Closes(q, job)
    ensures var at := FindBatch(q.batches, job).value;
      var after := q.batches[at := q.batches[at].(closedAt := Some(now))];
      BatchesOk(after) && OpenBatches(after) == []
  {
    var at := FindBatch(q.batches, job).value;
    var after := q.batches[at := q.batches[at].(closedAt := Some(now))];
    ClosesTheOpenBatch(q, job);
    OpenAre(q.batches);
    OpenAre(after);
    assert OpenBatches(after) != [] ==> OpenBatches(after)[0] in OpenBatches(after);
    forall k | 0 <= k < |after| ensures after[k].closedAt.Some? {
      SameJobSameBatch(q.batches, at, k);
      assert q.batches[k].closedAt.None? ==> q.batches[k] in OpenBatches(q.batches);
    }
    forall b | b in after ensures BatchOk(b) {
      var k :| 0 <= k < |after| && after[k] == b;
      assert BatchOk(q.batches[k]);
    }
    forall day ensures Submitted(after, day) <= DAILY_CAP { SubmittedSame(q.batches, after, day); }
  }

  lemma CloseMovesItems(q: Queue, job: nat, c: Closing, now: int)
    requires BatchesOk(q.batches) && ItemsOk(Open(q), q.items) && Closes(q, job)
    ensures ItemsOk(None, MovedAll(q.items, job, c, now)) && Kept(q.items, MovedAll(q.items, job, c, now))
  {
    var after := MovedAll(q.items, job, c, now);
    ClosesTheOpenBatch(q, job);
    forall k | 0 <= k < |after| ensures ItemOk(None, after[k]) {
      assert ItemOk(Open(q), q.items[k]);
    }
  }

  /** Closing keeps every item and frees every lease. */
  lemma CloseKeepsValid(q: Queue, job: nat, c: Closing, now: int)
    requires Valid(q)
    ensures Valid(Closed(q, job, c, now)) && Kept(q.items, Closed(q, job, c, now).items)
    ensures |Closed(q, job, c, now).items| == |q.items|
    ensures Closes(q, job) ==> Open(Closed(q, job, c, now)).None? && Closed(q, job, c, now).leases == map[]
  {
    if Closes(q, job) {
      ClosesTheOpenBatch(q, job);
      CloseKeepsBatches(q, job, now);
      CloseMovesItems(q, job, c, now);
      SameKeysStayUnique(q.items, Closed(q, job, c, now).items);
    }
  }

  ghost predicate JobClosed(q: Queue, job: nat) {
    exists b :: b in q.batches && b.job == job && b.closedAt.Some?
  }

  lemma ClosedJobNeverCloses(q: Queue, job: nat)
    requires UniqueJobs(q.batches) && JobClosed(q, job)
    ensures !Closes(q, job)
  {
    var b :| b in q.batches && b.job == job && b.closedAt.Some?;
    var k :| 0 <= k < |q.batches| && q.batches[k] == b;
    var at := FindBatch(q.batches, job);
    if at.Some? { SameJobSameBatch(q.batches, at.value, k); }
  }

  lemma CloseClosesTheJob(q: Queue, job: nat, c: Closing, now: int)
    requires Closes(q, job)
    ensures JobClosed(Closed(q, job, c, now), job)
  {
    var after := Closed(q, job, c, now);
    assert after.batches[FindBatch(q.batches, job).value] in after.batches;
  }

  /** Closing the same batch again, from its rows or without them, changes nothing. */
  lemma ClosingTwice(q: Queue, job: nat, first: Closing, second: Closing, t1: int, t2: int)
    requires Valid(q)
    ensures Closed(Closed(q, job, first, t1), job, second, t2) == Closed(q, job, first, t1)
  {
    CloseKeepsValid(q, job, first, t1);
    if Closes(q, job) {
      CloseClosesTheJob(q, job, first, t1);
      ClosedJobNeverCloses(Closed(q, job, first, t1), job);
    }
  }

  /** A close reaches exactly the batch's items: each is moved by its own verdict and every other item is untouched. */
  lemma CloseMovesTheBatch(q: Queue, job: nat, c: Closing, now: int, k: nat)
    requires Valid(q) && Closes(q, job) && k < |q.items|
    ensures var i := q.items[k];
      Closed(q, job, c, now).items[k] ==
        if InFlight(Open(q), i) then Moved(i, VerdictOn(c, i.listing), now) else i
  {
    ClosesTheOpenBatch(q, job);
    assert ItemOk(Open(q), q.items[k]);
  }

  // ------------------------------------------------------------------------------------------
  // Settling expired leases
  // ------------------------------------------------------------------------------------------

  lemma {:induction false} SettleKeepsValid(q: Queue, open: seq<Batch>, env: Env)
    requires Valid(q)
    ensures Valid(Settled(q, open, env)) && Kept(q.items, Settled(q, open, env).items)
    ensures |Settled(q, open, env).items| == |q.items|
  {
    if open != [] {
      var before, b := Settled(q, open[..|open| - 1], env), open[|open| - 1];
      SettleKeepsValid(q, open[..|open| - 1], env);
      if Settling(b, env).Some? {
        CloseKeepsValid(before, b.job, Settling(b, env).value, env.now);
        KeptTwice(q.items, before.items, Settled(q, open, env).items);
      }
    }
  }

  lemma KeptTwice(a: seq<Item>, b: seq<Item>, c: seq<Item>)
    requires Kept(a, b) && Kept(b, c)
    ensures Kept(a, c)
  {
    forall k | 0 <= k < |a| ensures SameKey(a[k], c[k]) {
      assert SameKey(a[k], b[k]) && SameKey(b[k], c[k]);
    }
  }

  // ------------------------------------------------------------------------------------------
  // Erasing
  // ------------------------------------------------------------------------------------------

  lemma {:induction false} SparedAre(items: seq<Item>, ids: seq<ListingId>)
    ensures forall i :: i in Spared(items, ids) <==> i in items && i.listing !in ids
    ensures UniqueItems(items) ==> UniqueItems(Spared(items, ids))
  {
    if items != [] {
      var init, last := items[..|items| - 1], items[|items| - 1];
      SparedAre(init, ids);
      assert items == init + [last];
      forall j | 0 <= j < |Spared(init, ids)| ensures UniqueItems(items) ==> !SameKey(Spared(init, ids)[j], last) {
        assert Spared(init, ids)[j] in init;
      }
    }
  }

  lemma {:induction false} SparedIdsAre(listings: seq<ListingId>, ids: seq<ListingId>)
    ensures forall l :: l in SparedIds(listings, ids) <==> l in listings && l !in ids
    ensures |SparedIds(listings, ids)| <= |listings|
    ensures Distinct(listings) ==> Distinct(SparedIds(listings, ids))
  {
    if listings != [] {
      SparedIdsAre(listings[..|listings| - 1], ids);
      assert listings == listings[..|listings| - 1] + [listings[|listings| - 1]];
    }
  }

  lemma {:induction false} SparedOpen(batches: seq<Batch>, ids: seq<ListingId>)
    ensures OpenBatches(SparedBatches(batches, ids)) == SparedBatches(OpenBatches(batches), ids)
  {
    if batches != [] {
      var init := batches[..|batches| - 1];
      SparedOpen(init, ids);
      assert SparedBatches(batches, ids)[..|batches| - 1] == SparedBatches(init, ids);
    }
  }

  lemma EraseKeepsBatches(q: Queue, ids: seq<ListingId>)
    requires BatchesOk(q.batches)
    ensures BatchesOk(Erased(q, ids).batches)
    ensures Open(Erased(q, ids)) ==
      if Open(q).None? then None else Some(Open(q).value.(ids := SparedIds(Open(q).value.ids, ids)))
  {
    var after := SparedBatches(q.batches, ids);
    SparedOpen(q.batches, ids);
    forall b | b in after ensures BatchOk(b) {
      var k :| 0 <= k < |after| && after[k] == b;
      assert BatchOk(q.batches[k]);
      SparedIdsAre(q.batches[k].ids, ids);
    }
    forall j, k | 0 <= j < k < |after| ensures after[j].job != after[k].job {
      assert q.batches[j].job != q.batches[k].job;
    }
    forall day ensures Submitted(after, day) <= DAILY_CAP { SubmittedSame(q.batches, after, day); }
  }

  /** Erasing keeps the queue valid, a batch in flight included, and touches no other listing's item. */
  lemma EraseKeepsValid(q: Queue, ids: seq<ListingId>)
    requires Valid(q)
    ensures Valid(Erased(q, ids))
    ensures forall i :: i in Erased(q, ids).items <==> i in q.items && i.listing !in ids
  {
    var after := Erased(q, ids);
    EraseKeepsBatches(q, ids);
    SparedAre(q.items, ids);
    if Open(q).Some? { SparedIdsAre(Open(q).value.ids, ids); }
    forall k | 0 <= k < |after.items| ensures ItemOk(Open(after), after.items[k]) {
      assert after.items[k] in after.items;
      var j :| 0 <= j < |q.items| && q.items[j] == after.items[k];
      assert ItemOk(Open(q), q.items[j]);
    }
    if Open(q).Some? {
      forall l | l in Open(after).value.ids ensures Holds(after.items, l, Open(after).value.lane) {
        var i :| i in q.items && i.listing == l && i.lane == Open(q).value.lane;
        assert i in after.items;
      }
    }
  }

  // ------------------------------------------------------------------------------------------
  // Selecting the next batch
  // ------------------------------------------------------------------------------------------

  lemma BeforeIsAnOrder()
    ensures WeakOrder(Before)
  {
    forall a, b ensures Before(a, b) ==> !Before(b, a) { StringLessTotal(a.listing.text, b.listing.text); }
    forall a: Item, b: Item, c: Item | !Before(b, a) && !Before(c, b) ensures !Before(c, a) {
      if a.priority == b.priority == c.priority && a.created == b.created == c.created {
        StringLessTrans(a.listing.text, b.listing.text, c.listing.text);
      }
    }
  }

  lemma {:induction false} WaitingAre(q: Queue, priorities: set<Priority>, items: seq<Item>)
    ensures forall i :: i in WaitingItems(q, priorities, items) <==> i in items && Waiting(q, priorities, i)
  {
    if items != [] {
      WaitingAre(q, priorities, items[..|items| - 1]);
      assert items == items[..|items| - 1] + [items[|items| - 1]];
    }
  }

  lemma {:induction false} WaitingUnique(q: Queue, priorities: set<Priority>, items: seq<Item>)
    requires UniqueItems(items)
    ensures UniqueItems(WaitingItems(q, priorities, items))
  {
    if items != [] {
      var init, last := items[..|items| - 1], items[|items| - 1];
      WaitingUnique(q, priorities, init);
      WaitingAre(q, priorities, init);
      forall i | i in init ensures !SameKey(i, last) {
        var k :| 0 <= k < |init| && init[k] == i;
        assert items[k] == i && !SameKey(items[k], items[|items| - 1]);
      }
    }
  }

  lemma {:induction false} GroupHolds(lead: Item, items: seq<Item>)
    ensures forall i :: i in SameGroup(lead, items) <==>
              i in items && i.lane == lead.lane && RegionOf(i) == RegionOf(lead)
  {
    if items != [] {
      GroupHolds(lead, items[..|items| - 1]);
      assert items == items[..|items| - 1] + [items[|items| - 1]];
    }
  }

  lemma {:induction false} GroupInOrder(lead: Item, items: seq<Item>)
    requires InOrder(Before, items)
    ensures InOrder(Before, SameGroup(lead, items))
  {
    if items != [] {
      var init, last := items[..|items| - 1], items[|items| - 1];
      GroupInOrder(lead, init);
      GroupHolds(lead, init);
      forall i | i in SameGroup(lead, init) ensures !Before(last, i) {
        var k :| 0 <= k < |init| && init[k] == i;
        assert !Before(items[|items| - 1], items[k]);
      }
    }
  }

  lemma {:induction false} GroupUnique(lead: Item, items: seq<Item>)
    requires UniqueItems(items)
    ensures UniqueItems(SameGroup(lead, items))
  {
    if items != [] {
      var init, last := items[..|items| - 1], items[|items| - 1];
      GroupUnique(lead, init);
      GroupHolds(lead, init);
      forall i | i in SameGroup(lead, init) ensures !SameKey(i, last) {
        var k :| 0 <= k < |init| && init[k] == i;
        assert !SameKey(items[k], items[|items| - 1]);
      }
    }
  }

  lemma GroupAre(lead: Item, items: seq<Item>)
    requires InOrder(Before, items) && UniqueItems(items)
    ensures forall i :: i in SameGroup(lead, items) <==>
              i in items && i.lane == lead.lane && RegionOf(i) == RegionOf(lead)
    ensures InOrder(Before, SameGroup(lead, items)) && UniqueItems(SameGroup(lead, items))
  {
    GroupHolds(lead, items);
    GroupInOrder(lead, items);
    GroupUnique(lead, items);
  }

  lemma {:induction false} InsertUnique(x: Item, items: seq<Item>)
    requires UniqueItems(items) && forall i | i in items :: !SameKey(i, x)
    ensures UniqueItems(Insert(Before, x, items))
  {
    if items != [] && Before(items[0], x) {
      InsertUnique(x, items[1..]);
      InsertKeeps(Before, x, items[1..]);
      var rest := Insert(Before, x, items[1..]);
      forall k | 0 <= k < |rest| ensures !SameKey(items[0], rest[k]) {
        assert rest[k] in multiset(rest);
        assert rest[k] == x || rest[k] in items[1..];
      }
    } else {
      forall k | 0 <= k < |items| ensures !SameKey(x, items[k]) {
        assert items[k] in items;
      }
    }
  }

  lemma {:induction false} SortedUnique(items: seq<Item>)
    requires UniqueItems(items)
    ensures UniqueItems(Sorted(Before, items))
  {
    if items != [] {
      SortedUnique(items[1..]);
      SortedKeeps(Before, items[1..]);
      InsertUnique(items[0], Sorted(Before, items[1..]));
    }
  }

  /** The waiting items in service order, of which a batch takes the first of the lead's lane and region. */
  lemma ServiceOrder(q: Queue, priorities: set<Priority>) returns (waiting: seq<Item>)
    requires UniqueItems(q.items)
    ensures waiting == Sorted(Before, WaitingItems(q, priorities, q.items))
    ensures forall i :: i in waiting <==> i in q.items && Waiting(q, priorities, i)
    ensures UniqueItems(waiting) && InOrder(Before, waiting)
  {
    waiting := Sorted(Before, WaitingItems(q, priorities, q.items));
    WaitingAre(q, priorities, q.items);
    WaitingUnique(q, priorities, q.items);
    SortedKeeps(Before, WaitingItems(q, priorities, q.items));
    SortedUnique(WaitingItems(q, priorities, q.items));
    BeforeIsAnOrder();
    SortedSorts(Before, WaitingItems(q, priorities, q.items));
  }

  /** A batch: waiting items of one lane and region, no more than asked for, each once. */
  ghost predicate IsBatch(q: Queue, priorities: set<Priority>, size: nat, batch: seq<Item>) {
    && |batch| <= size && UniqueItems(batch)
    && (forall i | i in batch :: i in q.items && Waiting(q, priorities, i))
    && (forall i | i in batch :: i.lane == batch[0].lane && RegionOf(i) == RegionOf(batch[0]))
  }

  lemma NextBatchIsABatch(q: Queue, priorities: set<Priority>, size: nat)
    requires UniqueItems(q.items)
    ensures IsBatch(q, priorities, size, NextBatch(q, priorities, size))
    ensures NextBatch(q, priorities, size) == [] <==> size == 0 || forall i | i in q.items :: !Waiting(q, priorities, i)
  {
    var waiting := ServiceOrder(q, priorities);
    if waiting != [] {
      var lead := waiting[0];
      var group := SameGroup(lead, waiting);
      GroupAre(lead, waiting);
      assert lead in waiting && lead in group;
      var batch := FirstOf(group, size);
      forall i | i in batch ensures i in group { }
      if batch != [] { assert batch[0] in batch; }
    }
  }

  /** Most urgent first: nothing waiting goes before the lead, and nothing left behind goes before anything taken. */
  lemma NextBatchIsMostUrgent(q: Queue, priorities: set<Priority>, size: nat, left: Item)
    requires UniqueItems(q.items) && left in q.items && Waiting(q, priorities, left)
    requires var batch := NextBatch(q, priorities, size); batch != [] && left !in batch
    ensures var batch := NextBatch(q, priorities, size);
      && !Before(left, batch[0])
      && (left.lane == batch[0].lane && RegionOf(left) == RegionOf(batch[0]) ==>
            |batch| == size && forall i | i in batch :: !Before(left, i))
  {
    var waiting := ServiceOrder(q, priorities);
    var lead := waiting[0];
    var group := SameGroup(lead, waiting);
    GroupAre(lead, waiting);
    assert lead in waiting && lead in group;
    LeadIsFirst(waiting, lead, group);
    var l :| 0 <= l < |waiting| && waiting[l] == left;
    assert l > 0 ==> !Before(waiting[l], waiting[0]);
    if left in group {
      var g :| 0 <= g < |group| && group[g] == left;
      forall i | i in FirstOf(group, size) ensures !Before(left, i) {
        var k :| 0 <= k < |FirstOf(group, size)| && FirstOf(group, size)[k] == i;
        assert group[k] == i && k < g;
      }
    }
  }

  lemma {:induction false} LeadIsFirst(items: seq<Item>, lead: Item, group: seq<Item>)
    requires items != [] && lead == items[0] && group == SameGroup(lead, items)
    ensures group != [] && group[0] == lead
  {
    if |items| > 1 {
      LeadIsFirst(items[..|items| - 1], lead, SameGroup(lead, items[..|items| - 1]));
    } else {
      assert items[..0] == [];
    }
  }

  // ------------------------------------------------------------------------------------------
  // Leasing
  // ------------------------------------------------------------------------------------------

  lemma BatchIdsAreDistinct(q: Queue, priorities: set<Priority>, size: nat, batch: seq<Item>)
    requires IsBatch(q, priorities, size, batch) && batch != []
    ensures Distinct(Ids(batch))
  {
    forall j, k | 0 <= j < k < |batch| ensures Ids(batch)[j] != Ids(batch)[k] {
      assert batch[j] in batch && batch[k] in batch && !SameKey(batch[j], batch[k]);
    }
  }

  lemma LeaseKeepsBatches(q: Queue, job: nat, batch: seq<Item>, priorities: set<Priority>, env: Env)
    requires BatchesOk(q.batches) && Open(q).None? && forall b | b in q.batches :: b.job != job
    requires batch != [] && |batch| <= BATCH_SIZE && Submitted(q.batches, env.day) + |batch| <= DAILY_CAP
    requires IsBatch(q, priorities, |batch|, batch)
    ensures var after := LeaseBatch(q, job, batch, env);
      && BatchesOk(after.batches) && Open(after) == Some(after.batches[|q.batches|])
      && Submitted(after.batches, env.day) == Submitted(q.batches, env.day) + |batch|
  {
    var after := LeaseBatch(q, job, batch, env);
    var b := after.batches[|q.batches|];
    assert after.batches[..|q.batches|] == q.batches;
    BatchIdsAreDistinct(q, priorities, |batch|, batch);
    NewJobStaysUnique(q.batches, b);
    forall c | c in after.batches ensures BatchOk(c) {
      assert c in q.batches || c == b;
    }
  }

  lemma NewJobStaysUnique(batches: seq<Batch>, b: Batch)
    requires UniqueJobs(batches) && forall c | c in batches :: c.job != b.job
    ensures UniqueJobs(batches + [b])
  {
    forall j | 0 <= j < |batches| ensures batches[j].job != b.job {
      assert batches[j] in batches;
    }
  }

  lemma LeaseKeepsItems(q: Queue, job: nat, batch: seq<Item>, priorities: set<Priority>, env: Env, k: nat)
    requires UniqueItems(q.items) && ItemsOk(None, q.items) && k < |q.items|
    requires batch != [] && IsBatch(q, priorities, |batch|, batch)
    ensures var after := LeaseBatch(q, job, batch, env);
      ItemOk(Some(after.batches[|q.batches|]), after.items[k]) && SameKey(q.items[k], after.items[k])
  {
    var i := q.items[k];
    var ids := Ids(batch);
    assert ItemOk(None, i);
    if i in batch {
      var j :| 0 <= j < |batch| && batch[j] == i;
      assert ids[j] == i.listing;
    }
    if i.lane == batch[0].lane && i.listing in ids { InBatchByKey(q, batch, priorities, k); }
  }

  /** An item with the key of one taken is that item. */
  lemma InBatchByKey(q: Queue, batch: seq<Item>, priorities: set<Priority>, k: nat)
    requires UniqueItems(q.items) && k < |q.items| && batch != [] && IsBatch(q, priorities, |batch|, batch)
    requires q.items[k].lane == batch[0].lane && q.items[k].listing in Ids(batch)
    ensures q.items[k] in batch
  {
    var j :| 0 <= j < |batch| && Ids(batch)[j] == q.items[k].listing;
    assert batch[j] in batch;
    var m :| 0 <= m < |q.items| && q.items[m] == batch[j];
    OneItemPerKey(q.items, k, m);
  }

  lemma OneItemPerKey(items: seq<Item>, j: nat, k: nat)
    requires UniqueItems(items) && j < |items| && k < |items|
    ensures SameKey(items[j], items[k]) ==> j == k
  {
  }

  lemma LeaseKeepsValid(q: Queue, job: nat, batch: seq<Item>, priorities: set<Priority>, env: Env)
    requires Valid(q) && Open(q).None? && forall b | b in q.batches :: b.job != job
    requires batch != [] && |batch| <= BATCH_SIZE && Submitted(q.batches, env.day) + |batch| <= DAILY_CAP
    requires IsBatch(q, priorities, |batch|, batch)
    ensures Valid(LeaseBatch(q, job, batch, env)) && Kept(q.items, LeaseBatch(q, job, batch, env).items)
  {
    var after := LeaseBatch(q, job, batch, env);
    LeaseKeepsBatches(q, job, batch, priorities, env);
    forall k | 0 <= k < |q.items| ensures ItemOk(Open(after), after.items[k]) && SameKey(q.items[k], after.items[k]) {
      LeaseKeepsItems(q, job, batch, priorities, env, k);
    }
    SameKeysStayUnique(q.items, after.items);
    var b := after.batches[|q.batches|];
    forall l | l in b.ids ensures Holds(after.items, l, b.lane) {
      var j :| 0 <= j < |b.ids| && b.ids[j] == l;
      assert batch[j] in batch;
      var m :| 0 <= m < |q.items| && q.items[m] == batch[j];
      assert after.items[m] in after.items;
    }
  }

  lemma DeferKeepsValid(q: Queue, day: int)
    requires Valid(q) && Open(q).None?
    ensures Valid(q.(items := DeferredAll(q.items, day))) && Kept(q.items, DeferredAll(q.items, day))
  {
    var after := DeferredAll(q.items, day);
    forall k | 0 <= k < |after| ensures ItemOk(None, after[k]) {
      assert ItemOk(None, q.items[k]);
    }
    SameKeysStayUnique(q.items, after);
  }

  // ------------------------------------------------------------------------------------------
  // The tick, and whole runs
  // ------------------------------------------------------------------------------------------

  lemma {:induction false} SettledSubmitted(q: Queue, open: seq<Batch>, env: Env, day: int)
    ensures Submitted(Settled(q, open, env).batches, day) == Submitted(q.batches, day)
  {
    if open != [] {
      var before, b := Settled(q, open[..|open| - 1], env), open[|open| - 1];
      SettledSubmitted(q, open[..|open| - 1], env, day);
      if Settling(b, env).Some? && Closes(before, b.job) {
        SubmittedSame(before.batches, Closed(before, b.job, Settling(b, env).value, env.now).batches, day);
      }
    }
  }

  lemma {:induction false} SettledJobs(q: Queue, open: seq<Batch>, env: Env, job: nat)
    requires forall b | b in q.batches :: b.job != job
    ensures forall b | b in Settled(q, open, env).batches :: b.job != job
  {
    if open != [] {
      var before, b := Settled(q, open[..|open| - 1], env), open[|open| - 1];
      SettledJobs(q, open[..|open| - 1], env, job);
      if Settling(b, env).Some? && Closes(before, b.job) {
        assert before.batches[FindBatch(before.batches, b.job).value] in before.batches;
      }
    }
  }

  /** The gateway's job ids are new. */
  predicate NewJob(q: Queue, env: Env) {
    env.submit.Some? ==> forall b | b in q.batches :: b.job != env.submit.value
  }

  lemma ActKeepsValid(q: Queue, env: Env)
    requires Valid(q) && Open(q).None? && NewJob(q, env)
    ensures Valid(Acted(q, env)) && Kept(q.items, Acted(q, env).items) && |Acted(q, env).items| == |q.items|
  {
    DeferKeepsValid(q, env.day);
    var d := Decision(q, env);
    if d.Sent? {
      NextBatchIsABatch(q, PrioritiesAllowed(env.level), Least(BATCH_SIZE, DAILY_CAP - Submitted(q.batches, env.day)));
      LeaseKeepsValid(q, env.submit.value, d.batch, PrioritiesAllowed(env.level), env);
    }
  }

  lemma SettledNewJob(q: Queue, env: Env)
    requires NewJob(q, env)
    ensures NewJob(Settled(q, OpenBatches(q.batches), env), env)
  {
    if env.submit.Some? { SettledJobs(q, OpenBatches(q.batches), env, env.submit.value); }
  }

  /** One tick keeps the queue valid and loses no item. */
  lemma TickKeepsValid(q: Queue, env: Env)
    requires Valid(q) && NewJob(q, env)
    ensures Valid(Ticked(q, env)) && Kept(q.items, Ticked(q, env).items) && |Ticked(q, env).items| == |q.items|
  {
    if !env.off {
      var settled := Settled(q, OpenBatches(q.batches), env);
      SettleKeepsValid(q, OpenBatches(q.batches), env);
      SettledNewJob(q, env);
      if OpenBatches(settled.batches) == [] {
        ActKeepsValid(settled, env);
        KeptTwice(q.items, settled.items, Acted(settled, env).items);
      }
    }
  }

  /** A tick sends at most one batch, only when none is in flight, and only within the day's remaining cap. */
  lemma TickSendsWithinTheCap(q: Queue, env: Env, day: int)
    requires Valid(q) && NewJob(q, env)
    ensures Submitted(q.batches, day) <= Submitted(Ticked(q, env).batches, day) <= DAILY_CAP
    ensures Submitted(Ticked(q, env).batches, day) != Submitted(q.batches, day) ==>
      && day == env.day && !env.off && env.submit.Some?
      && Open(Ticked(q, env)).Some? && Open(Ticked(q, env)).value.job == env.submit.value
  {
    TickKeepsValid(q, env);
    if !env.off {
      var settled := Settled(q, OpenBatches(q.batches), env);
      SettleKeepsValid(q, OpenBatches(q.batches), env);
      SettledSubmitted(q, OpenBatches(q.batches), env, day);
      if OpenBatches(settled.batches) == [] {
        var d := Decision(settled, env);
        if d.Sent? {
          var after := LeaseBatch(settled, env.submit.value, d.batch, env);
          assert after.batches[..|settled.batches|] == settled.batches;
        }
      }
    }
  }

  datatype Op =
    | Enqueue(r: Request)
    | FirstSeen(seen: seq<Sighting>, at: int, seenAt: int)
    | Tick(env: Env)
    | Close(job: nat, c: Closing, now: int)
    | Erase(ids: seq<ListingId>)

  ghost predicate Allowed(q: Queue, op: Op) {
    match op
    case Enqueue(r) => Distinct(r.ids)
    case FirstSeen(seen, _, _) => DistinctListings(seen)
    case Tick(env) => NewJob(q, env)
    case Close(_, _, _) => true
    case Erase(_) => true
  }

  function Apply(q: Queue, op: Op): Queue {
    match op
    case Enqueue(r) => Enqueued(q, r)
    case FirstSeen(seen, at, seenAt) => Recorded(q, seen, at, seenAt)
    case Tick(env) => Ticked(q, env)
    case Close(job, c, now) => Closed(q, job, c, now)
    case Erase(ids) => Erased(q, ids)
  }

  ghost predicate AllAllowed(q: Queue, ops: seq<Op>)
    decreases |ops|
  {
    ops == [] || (Allowed(q, ops[0]) && AllAllowed(Apply(q, ops[0]), ops[1..]))
  }

  function After(q: Queue, ops: seq<Op>): Queue
    decreases |ops|
  {
    if ops == [] then q else After(Apply(q, ops[0]), ops[1..])
  }

  predicate ErasedBy(op: Op, listing: ListingId) {
    op.Erase? && listing in op.ids
  }

  /** Nothing is lost but what is erased. */
  ghost predicate Holding(before: seq<Item>, after: seq<Item>, listing: ListingId) {
    forall lane | Holds(before, listing, lane) :: Holds(after, listing, lane)
  }

  lemma OpKeepsValid(q: Queue, op: Op)
    requires Valid(q) && Allowed(q, op)
    ensures Valid(Apply(q, op)) && (!op.Erase? ==> Kept(q.items, Apply(q, op).items))
  {
    match op
    case Enqueue(r) => EnqueueKeepsValid(q, r);
    case FirstSeen(seen, at, seenAt) => RecordKeepsValid(q, seen, at, seenAt);
    case Tick(env) => TickKeepsValid(q, env);
    case Close(job, c, now) => CloseKeepsValid(q, job, c, now);
    case Erase(ids) => EraseKeepsValid(q, ids);
  }

  lemma OpLosesNothing(q: Queue, op: Op, listing: ListingId)
    requires Valid(q) && Allowed(q, op) && !ErasedBy(op, listing)
    ensures Holding(q.items, Apply(q, op).items, listing)
  {
    OpKeepsValid(q, op);
    forall lane | Holds(q.items, listing, lane) ensures Holds(Apply(q, op).items, listing, lane) {
      if op.Erase? {
        EraseKeepsValid(q, op.ids);
        var i :| i in q.items && i.listing == listing && i.lane == lane;
        assert i in Apply(q, op).items;
      } else {
        KeptHolds(q.items, Apply(q, op).items, listing, lane);
      }
    }
  }

  /** Over any run: one batch in flight, leases that match it, the cap on every day, and every item not erased still there. */
  lemma {:induction false} RunKeepsValid(q: Queue, ops: seq<Op>)
    requires Valid(q) && AllAllowed(q, ops)
    ensures Valid(After(q, ops))
    ensures forall listing :: (forall op | op in ops :: !ErasedBy(op, listing)) ==>
              Holding(q.items, After(q, ops).items, listing)
    decreases |ops|
  {
    if ops != [] {
      OpKeepsValid(q, ops[0]);
      RunKeepsValid(Apply(q, ops[0]), ops[1..]);
      forall listing | forall op | op in ops :: !ErasedBy(op, listing)
        ensures Holding(q.items, After(q, ops).items, listing)
      {
        OpLosesNothing(q, ops[0], listing);
        assert forall op | op in ops[1..] :: op in ops;
        assert Holding(Apply(q, ops[0]).items, After(q, ops).items, listing);
        forall lane | Holds(q.items, listing, lane) ensures Holds(After(q, ops).items, listing, lane) {
          assert Holds(Apply(q, ops[0]).items, listing, lane);
        }
      }
    }
  }

  /**
   * Every reachable queue: at most one batch is open; an item is leased exactly when it belongs to that batch, under its
   * job; leases name exactly its listings; and no London day is over the cap.
   */
  lemma ReachableIsSafe(ops: seq<Op>)
    requires AllAllowed(Queue([], [], map[]), ops)
    ensures var q := After(Queue([], [], map[]), ops);
      && |OpenBatches(q.batches)| <= 1
      && (forall i | i in q.items :: i.status.Leased? <==> InFlight(Open(q), i))
      && (forall i | i in q.items && i.status.Leased? :: i.job == Some(Open(q).value.job))
      && (forall l :: l in q.leases <==> Open(q).Some? && l in Open(q).value.ids)
      && (forall day :: Submitted(q.batches, day) <= DAILY_CAP)
  {
    EmptyIsValid();
    RunKeepsValid(Queue([], [], map[]), ops);
    var q := After(Queue([], [], map[]), ops);
    forall i | i in q.items ensures ItemOk(Open(q), i) {
      var k :| 0 <= k < |q.items| && q.items[k] == i;
    }
  }

  lemma EmptyIsValid()
    ensures Valid(Queue([], [], map[]))
  {
  }

  /** A batch row never changes once closed. */
  lemma ClosedRowStays(q: Queue, job: nat, c: Closing, now: int, other: nat)
    requires JobClosed(q, other)
    ensures JobClosed(Closed(q, job, c, now), other)
  {
    var b :| b in q.batches && b.job == other && b.closedAt.Some?;
    var k :| 0 <= k < |q.batches| && q.batches[k] == b;
    var after := Closed(q, job, c, now);
    assert after.batches[k] in after.batches;
  }

  lemma {:induction false} SettleKeepsClosed(q: Queue, open: seq<Batch>, env: Env, other: nat)
    requires JobClosed(q, other)
    ensures JobClosed(Settled(q, open, env), other)
  {
    if open != [] {
      var before, b := Settled(q, open[..|open| - 1], env), open[|open| - 1];
      SettleKeepsClosed(q, open[..|open| - 1], env, other);
      if Settling(b, env).Some? { ClosedRowStays(before, b.job, Settling(b, env).value, env.now, other); }
    }
  }

  lemma OpKeepsClosed(q: Queue, op: Op, other: nat)
    requires JobClosed(q, other)
    ensures JobClosed(Apply(q, op), other)
  {
    var b :| b in q.batches && b.job == other && b.closedAt.Some?;
    match op
    case Enqueue(r) => assert b in Apply(q, op).batches;
    case FirstSeen(_, _, _) => assert b in Apply(q, op).batches;
    case Erase(ids) =>
      var k :| 0 <= k < |q.batches| && q.batches[k] == b;
      assert Apply(q, op).batches[k] in Apply(q, op).batches;
    case Tick(env) =>
      if !env.off {
        SettleKeepsClosed(q, OpenBatches(q.batches), env, other);
        var settled := Settled(q, OpenBatches(q.batches), env);
        var c :| c in settled.batches && c.job == other && c.closedAt.Some?;
        assert c in Ticked(q, env).batches;
      }
    case Close(job, c, now) => ClosedRowStays(q, job, c, now, other);
  }

  /** The event and the expired lease may both close a batch, with anything in between: the later one does nothing. */
  lemma {:induction false} LateCloseDoesNothing(q: Queue, ops: seq<Op>, job: nat, c: Closing, now: int)
    requires Valid(q) && AllAllowed(q, ops) && JobClosed(q, job)
    ensures Closed(After(q, ops), job, c, now) == After(q, ops)
    decreases |ops|
  {
    if ops == [] {
      ClosedJobNeverCloses(q, job);
    } else {
      OpKeepsValid(q, ops[0]);
      OpKeepsClosed(q, ops[0], job);
      LateCloseDoesNothing(Apply(q, ops[0]), ops[1..], job, c, now);
    }
  }

  // ------------------------------------------------------------------------------------------
  // Bounded fetches
  // ------------------------------------------------------------------------------------------

  /** An item after these verdicts, leased again for each while it is not finished. */
  function AfterVerdicts(i: Item, verdicts: seq<Verdict>, now: int): Item {
    if verdicts == [] then i else
      var before := AfterVerdicts(i, verdicts[..|verdicts| - 1], now);
      if Finished(before) then before else Moved(before, verdicts[|verdicts| - 1], now)
  }

  /**
   * Between two requests an item is fetched to no end at most twice: a third fetch that was really attempted finishes
   * it, whatever the rows said.
   */
  lemma {:induction false} ThirdAttemptFinishes(i: Item, verdicts: seq<Verdict>, now: int)
    requires CountersOk(i) && !Finished(i) && forall v | v in verdicts :: v != VRequeue
    ensures var after := AfterVerdicts(i, verdicts, now);
      CountersOk(after) && (!Finished(after) ==> after.attempts + after.requeues == i.attempts + i.requeues + |verdicts| <= 2)
    ensures |verdicts| >= 3 ==> Finished(AfterVerdicts(i, verdicts, now))
  {
    if verdicts != [] {
      var init, last := verdicts[..|verdicts| - 1], verdicts[|verdicts| - 1];
      assert last in verdicts;
      forall v | v in init ensures v != VRequeue { assert v in verdicts; }
      ThirdAttemptFinishes(i, init, now);
    }
  }

  // ------------------------------------------------------------------------------------------
  // Leases and verdicts
  // ------------------------------------------------------------------------------------------

  /** The job has not ended in a way that frees its items: running, waiting, out of sight, or not announced yet. */
  predicate StillRunning(job: nat, env: Env) {
    job !in env.jobs || env.jobs[job].status.JobPending? || env.jobs[job].status.JobRunning?
    || (env.jobs[job].status.JobSucceeded? && !env.jobs[job].announced)
  }

  lemma {:induction false} SettlesNothing(q: Queue, open: seq<Batch>, env: Env)
    requires forall b | b in open :: Settling(b, env).None?
    ensures Settled(q, open, env) == q
  {
    if open != [] {
      var init, last := open[..|open| - 1], open[|open| - 1];
      assert last in open;
      forall b | b in init ensures Settling(b, env).None? { assert b in open; }
      SettlesNothing(q, init, env);
    }
  }

  /** While the lease holds, or the job has not ended, a tick changes nothing at all: the batch stays in flight. */
  lemma BusyTickChangesNothing(q: Queue, env: Env)
    requires Valid(q) && Open(q).Some?
    requires StillRunning(Open(q).value.job, env) || env.now < Open(q).value.submittedAt + LEASE_SECS
    ensures Ticked(q, env) == q
  {
    forall b | b in OpenBatches(q.batches) ensures Settling(b, env).None? {
      assert b == OpenBatches(q.batches)[0];
    }
    SettlesNothing(q, OpenBatches(q.batches), env);
  }

  /**
   * A batch item whose fetch was never attempted goes back to the queue with its counters as they were: every item of a
   * refused run, and in a finished one those the actor did not request.
   */
  lemma UnattemptedItemsReturn(q: Queue, job: nat, c: Closing, now: int, k: nat)
    requires Valid(q) && Closes(q, job) && k < |q.items| && InFlight(Open(q), q.items[k])
    requires c.RequeueAll? || (c.FromRows? && q.items[k].listing in c.rows && !c.rows[q.items[k].listing].unresolved
             && c.rows[q.items[k].listing].outcome.Some? && c.rows[q.items[k].listing].outcome.value in NOT_REQUESTED)
    ensures var i := Closed(q, job, c, now).items[k];
      i.status.Queued? && i.attempts == q.items[k].attempts && i.requeues == q.items[k].requeues
  {
    CloseMovesTheBatch(q, job, c, now, k);
  }

  /** A failed run costs each item of its batch one attempt, and the last attempt fails it. */
  lemma FailedRunCostsAnAttempt(q: Queue, job: nat, now: int, k: nat)
    requires Valid(q) && Closes(q, job) && k < |q.items| && InFlight(Open(q), q.items[k])
    ensures var i := Closed(q, job, FailAll, now).items[k];
      i.attempts == q.items[k].attempts + 1 && (i.status.Failed? <==> i.attempts == MAX_FAILURES)
  {
    CloseMovesTheBatch(q, job, FailAll, now, k);
    assert ItemOk(Open(q), q.items[k]);
  }

  /** An id ends fetched only if its listing is gone, its text is full, or its one refresh is used up. */
  lemma FetchedMeansFullOrGone(q: Queue, job: nat, rows: map<ListingId, ListingRow>, now: int, k: nat)
    requires Valid(q) && Closes(q, job) && k < |q.items| && InFlight(Open(q), q.items[k])
    ensures var before, after := q.items[k], Closed(q, job, FromRows(rows), now).items[k];
      after.status.Done? ==>
        && before.listing in rows
        && (rows[before.listing].unresolved || rows[before.listing].description == Some("full_verified")
            || before.requeues == MAX_REQUEUES)
  {
    CloseMovesTheBatch(q, job, FromRows(rows), now, k);
    assert ItemOk(Open(q), q.items[k]);
  }
}
