/**
 * Closing a batch as details-queue does it: read the batch and its leased items, decide, mark the batch closed only where
 * it still is open, and then write the items as decided. Anything may happen between the read and the mark.
 */
module BatchClosing {
  import opened Common
  import opened Sorting
  import opened DetailsQueue
  import opened QueueSafety

  /** An item row. One erased and asked for again is another row: it has never been leased under the batch's job. */
  datatype RowKey = RowKey(listing: ListingId, lane: Lane)

  /** What a close sets on an item. */
  datatype Update = Update(status: Status, attempts: nat, requeues: nat, doneAt: Option<int>)

  /** The updates of a close, by the item read. */
  type Decided = map<RowKey, Update>

  function KeyOf(i: Item): RowKey {
    RowKey(i.listing, i.lane)
  }

  function UpdateOf(i: Item, v: Verdict, now: int): Update {
    var next := Moved(i, v, now);
    Update(next.status, next.attempts, next.requeues, next.doneAt)
  }

  /** The decisions on the items leased under `job`, as they are read. */
  function DecideAll(items: seq<Item>, job: nat, c: Closing, now: int): Decided {
    if items == [] then map[] else
      var init, last := DecideAll(items[..|items| - 1], job, c, now), items[|items| - 1];
      if LeasedBy(last, job) then init[KeyOf(last) := UpdateOf(last, VerdictOn(c, last.listing), now)] else init
  }

  /** `updateItem` on the row that was read. */
  function WithUpdate(i: Item, job: nat, decided: Decided): Item {
    if KeyOf(i) in decided && i.job == Some(job) then
      var u := decided[KeyOf(i)];
      i.(status := u.status, attempts := u.attempts, requeues := u.requeues, doneAt := u.doneAt)
    else i
  }

  function WithUpdates(items: seq<Item>, job: nat, decided: Decided): seq<Item> {
    seq(|items|, (k: nat) requires k < |items| => WithUpdate(items[k], job, decided))
  }

  /** The mark and what follows it: nothing where the batch is closed already. */
  function AfterMark(q: Queue, job: nat, decided: Decided, now: int): Queue {
    if !Closes(q, job) then q else
      var at := FindBatch(q.batches, job).value;
      Queue(WithUpdates(q.items, job, decided), q.batches[at := q.batches[at].(closedAt := Some(now))],
        Released(q.leases, job))
  }

  /** The decisions are for exactly the leased items, each by its own row. */
  lemma {:induction false} DecidedAre(items: seq<Item>, job: nat, c: Closing, now: int)
    requires UniqueItems(items)
    ensures forall key | key in DecideAll(items, job, c, now) ::
              exists i :: i in items && KeyOf(i) == key && LeasedBy(i, job)
    ensures forall i | i in items && LeasedBy(i, job) ::
              KeyOf(i) in DecideAll(items, job, c, now)
              && DecideAll(items, job, c, now)[KeyOf(i)] == UpdateOf(i, VerdictOn(c, i.listing), now)
  {
    if items != [] {
      var init, last := items[..|items| - 1], items[|items| - 1];
      DecidedAre(init, job, c, now);
      assert items == init + [last];
      forall i | i in init ensures KeyOf(i) != KeyOf(last) {
        var k :| 0 <= k < |init| && init[k] == i;
        assert !SameKey(items[k], items[|init|]);
      }
    }
  }

  // ------------------------------------------------------------------------------------------
  // What happens between the read and the mark
  // ------------------------------------------------------------------------------------------

  /**
   * Against the items read: what is leased under `job` is still the row read, and no row under a key read as leased has
   * that job without being leased.
   */
  ghost predicate StillRead(read: seq<Item>, items: seq<Item>, job: nat) {
    forall i {:trigger i in items} | i in items && i.job == Some(job) ::
      if i.status.Leased? then i in read else !ReadAsLeased(read, KeyOf(i), job)
  }

  ghost predicate ReadAsLeased(read: seq<Item>, key: RowKey, job: nat) {
    exists r :: r in read && KeyOf(r) == key && LeasedBy(r, job)
  }

  lemma ReadIsRead(items: seq<Item>, job: nat)
    requires UniqueItems(items)
    ensures StillRead(items, items, job)
  {
    forall i | i in items && i.job == Some(job) && !i.status.Leased? ensures !ReadAsLeased(items, KeyOf(i), job) {
      if ReadAsLeased(items, KeyOf(i), job) {
        var r :| r in items && KeyOf(r) == KeyOf(i) && LeasedBy(r, job);
        var j :| 0 <= j < |items| && items[j] == r;
        var k :| 0 <= k < |items| && items[k] == i;
        OneItemPerKey(items, j, k);
      }
    }
  }

  /** An item after an operation that leaves the batch open: a leased one is untouched, another keeps its key and job. */
  ghost predicate Kin(items: seq<Item>, i: Item, job: nat) {
    || i.job != Some(job)
    || i in items
    || (!i.status.Leased? && exists o :: o in items && KeyOf(o) == KeyOf(i) && o.job == i.job && !o.status.Leased?)
  }

  lemma KinKeepsRead(read: seq<Item>, before: seq<Item>, after: seq<Item>, job: nat)
    requires StillRead(read, before, job) && forall i | i in after :: Kin(before, i, job)
    ensures StillRead(read, after, job)
  {
    forall i | i in after && i.job == Some(job)
      ensures if i.status.Leased? then i in read else !ReadAsLeased(read, KeyOf(i), job)
    {
      assert Kin(before, i, job);
      if i !in before {
        var o :| o in before && KeyOf(o) == KeyOf(i) && o.job == i.job && !o.status.Leased?;
        assert !ReadAsLeased(read, KeyOf(o), job);
      }
    }
  }

  lemma EnqueueIsKin(q: Queue, r: Request, job: nat)
    ensures forall i | i in Enqueued(q, r).items :: Kin(q.items, i, job)
  {
    var after := Enqueued(q, r).items;
    forall i | i in after ensures Kin(q.items, i, job) {
      var k :| 0 <= k < |after| && after[k] == i;
      if k < |q.items| { assert q.items[k] in q.items && i == Touched(q.items[k], r); }
    }
  }

  lemma RecordIsKin(q: Queue, seen: seq<Sighting>, at: int, now: int, job: nat)
    ensures forall i | i in Recorded(q, seen, at, now).items :: Kin(q.items, i, job)
  {
    var after := Recorded(q, seen, at, now).items;
    forall i | i in after ensures Kin(q.items, i, job) {
      var k :| 0 <= k < |after| && after[k] == i;
      if k < |q.items| { assert q.items[k] in q.items && i == Marked(q.items[k], seen, now); }
    }
  }

  lemma {:induction false} SettleClosesOrKeeps(q: Queue, open: seq<Batch>, env: Env, job: nat)
    requires Valid(q) && Closes(q, job)
    ensures Closes(Settled(q, open, env), job) ==> Settled(q, open, env) == q
  {
    if open != [] {
      var init, last := open[..|open| - 1], open[|open| - 1];
      var before := Settled(q, init, env);
      SettleClosesOrKeeps(q, init, env, job);
      SettleKeepsValid(q, init, env);
      if Settling(last, env).Some? && Closes(before, last.job) {
        CloseKeepsValid(before, last.job, Settling(last, env).value, env.now);
        NoneOpenNoneCloses(Settled(q, open, env), job);
      }
    }
  }

  lemma NoneOpenNoneCloses(q: Queue, job: nat)
    requires Open(q).None?
    ensures !Closes(q, job)
  {
    OpenAre(q.batches);
    assert forall b | b in q.batches :: b.closedAt.Some?;
  }

  ghost predicate HasBatch(q: Queue, job: nat) {
    exists b :: b in q.batches && b.job == job
  }

  lemma OpenOrClosed(q: Queue, job: nat)
    requires UniqueJobs(q.batches) && HasBatch(q, job)
    ensures Closes(q, job) || JobClosed(q, job)
  {
    var b :| b in q.batches && b.job == job;
    var k :| 0 <= k < |q.batches| && q.batches[k] == b;
    SameJobSameBatch(q.batches, k, FindBatch(q.batches, job).value);
  }

  lemma CloseKeepsJob(q: Queue, other: nat, c: Closing, now: int, job: nat)
    requires HasBatch(q, job)
    ensures HasBatch(Closed(q, other, c, now), job)
  {
    var b :| b in q.batches && b.job == job;
    var k :| 0 <= k < |q.batches| && q.batches[k] == b;
    assert Closed(q, other, c, now).batches[k] in Closed(q, other, c, now).batches;
  }

  lemma {:induction false} SettleKeepsJob(q: Queue, open: seq<Batch>, env: Env, job: nat)
    requires HasBatch(q, job)
    ensures HasBatch(Settled(q, open, env), job)
  {
    if open != [] {
      var before, last := Settled(q, open[..|open| - 1], env), open[|open| - 1];
      SettleKeepsJob(q, open[..|open| - 1], env, job);
      if Settling(last, env).Some? { CloseKeepsJob(before, last.job, Settling(last, env).value, env.now, job); }
    }
  }

  lemma OpKeepsJob(q: Queue, op: Op, job: nat)
    requires HasBatch(q, job)
    ensures HasBatch(Apply(q, op), job)
  {
    var b :| b in q.batches && b.job == job;
    var k :| 0 <= k < |q.batches| && q.batches[k] == b;
    match op
    case Enqueue(_) => assert b in Apply(q, op).batches;
    case FirstSeen(_, _, _) => assert b in Apply(q, op).batches;
    case Tick(env) =>
      if !env.off {
        SettleKeepsJob(q, OpenBatches(q.batches), env, job);
        var settled := Settled(q, OpenBatches(q.batches), env);
        var c :| c in settled.batches && c.job == job;
        assert c in Ticked(q, env).batches;
      }
    case Close(other, c, now) => CloseKeepsJob(q, other, c, now, job);
    case Erase(_) => assert Apply(q, op).batches[k] in Apply(q, op).batches;
  }

  /** A tick that leaves the batch open has done nothing to any item. */
  lemma TickClosesOrKeeps(q: Queue, env: Env, job: nat)
    requires Valid(q) && NewJob(q, env) && Closes(q, job)
    ensures Closes(Ticked(q, env), job) ==> Ticked(q, env) == q
  {
    assert q.batches[FindBatch(q.batches, job).value] in q.batches;
    if !env.off {
      var open := OpenBatches(q.batches);
      var settled := Settled(q, open, env);
      SettleClosesOrKeeps(q, open, env, job);
      if OpenBatches(settled.batches) == [] {
        SettleKeepsJob(q, open, env, job);
        var b :| b in settled.batches && b.job == job;
        OpenAre(settled.batches);
        assert b in Ticked(q, env).batches;
        TickKeepsValid(q, env);
        ClosedJobNeverCloses(Ticked(q, env), job);
      }
    }
  }

  lemma CloseClosesOrKeeps(q: Queue, other: nat, c: Closing, now: int, job: nat)
    requires Valid(q) && Closes(q, job)
    ensures Closes(Closed(q, other, c, now), job) ==> Closed(q, other, c, now) == q
  {
    CloseKeepsValid(q, other, c, now);
    if Closes(q, other) { NoneOpenNoneCloses(Closed(q, other, c, now), job); }
  }

  lemma EraseIsKin(q: Queue, ids: seq<ListingId>, job: nat)
    ensures forall i | i in Erased(q, ids).items :: Kin(q.items, i, job)
  {
    SparedAre(q.items, ids);
  }

  /** Any operation that leaves the batch open leaves what was read as it was. */
  lemma OpKeepsRead(q: Queue, op: Op, read: seq<Item>, job: nat)
    requires Valid(q) && Allowed(q, op) && Closes(q, job) && StillRead(read, q.items, job)
    ensures Closes(Apply(q, op), job) ==> StillRead(read, Apply(q, op).items, job)
  {
    match op
    case Enqueue(r) => EnqueueIsKin(q, r, job); KinKeepsRead(read, q.items, Apply(q, op).items, job);
    case FirstSeen(seen, at, seenAt) =>
      RecordIsKin(q, seen, at, seenAt, job);
      KinKeepsRead(read, q.items, Apply(q, op).items, job);
    case Tick(env) => TickClosesOrKeeps(q, env, job);
    case Close(other, c, now) => CloseClosesOrKeeps(q, other, c, now, job);
    case Erase(ids) => EraseIsKin(q, ids, job); KinKeepsRead(read, q.items, Apply(q, op).items, job);
  }

  lemma {:induction false} ClosedForGood(q: Queue, ops: seq<Op>, job: nat)
    requires Valid(q) && AllAllowed(q, ops) && JobClosed(q, job)
    ensures !Closes(After(q, ops), job)
    decreases |ops|
  {
    if ops == [] {
      ClosedJobNeverCloses(q, job);
    } else {
      OpKeepsValid(q, ops[0]);
      OpKeepsClosed(q, ops[0], job);
      ClosedForGood(Apply(q, ops[0]), ops[1..], job);
    }
  }

  /** So does any run of operations after which the batch is still open. */
  lemma {:induction false} RunKeepsRead(q: Queue, ops: seq<Op>, read: seq<Item>, job: nat)
    requires Valid(q) && AllAllowed(q, ops) && Closes(q, job) && StillRead(read, q.items, job)
    ensures Closes(After(q, ops), job) ==> StillRead(read, After(q, ops).items, job)
    decreases |ops|
  {
    if ops != [] {
      var next := Apply(q, ops[0]);
      OpKeepsValid(q, ops[0]);
      OpKeepsRead(q, ops[0], read, job);
      if Closes(next, job) {
        RunKeepsRead(next, ops[1..], read, job);
      } else {
        assert q.batches[FindBatch(q.batches, job).value] in q.batches;
        OpKeepsJob(q, ops[0], job);
        OpenOrClosed(next, job);
        ClosedForGood(next, ops[1..], job);
      }
    }
  }

  /** On rows still as read, writing what was decided is moving each leased item by its verdict. */
  lemma UpdatesAreMoves(read: seq<Item>, items: seq<Item>, job: nat, c: Closing, now: int)
    requires UniqueItems(read) && StillRead(read, items, job)
    ensures WithUpdates(items, job, DecideAll(read, job, c, now)) == MovedAll(items, job, c, now)
  {
    var decided := DecideAll(read, job, c, now);
    DecidedAre(read, job, c, now);
    forall k | 0 <= k < |items|
      ensures WithUpdates(items, job, decided)[k] == MovedAll(items, job, c, now)[k]
    {
      var i := items[k];
      assert i in items;
      if i.job == Some(job) && !i.status.Leased? { assert !ReadAsLeased(read, KeyOf(i), job); }
    }
  }

  /**
   * A close decided from a stale read, with anything in between, other closes of the same batch included, is the one
   * atomic close at its mark: it moves exactly the items leased then, or it lost and writes nothing.
   */
  lemma StaleCloseIsAClose(q: Queue, ops: seq<Op>, job: nat, c: Closing, now: int)
    requires Valid(q) && AllAllowed(q, ops) && Closes(q, job)
    ensures AfterMark(After(q, ops), job, DecideAll(q.items, job, c, now), now) == Closed(After(q, ops), job, c, now)
  {
    ReadIsRead(q.items, job);
    RunKeepsRead(q, ops, q.items, job);
    if Closes(After(q, ops), job) { UpdatesAreMoves(q.items, After(q, ops).items, job, c, now); }
  }

  /** Of two closers that both read the batch as open, the one that marks second writes nothing. */
  lemma TheLoserWritesNothing(q: Queue, between: seq<Op>, after: seq<Op>, job: nat, first: Closing, second: Closing,
      t1: int, t2: int)
    requires Valid(q) && AllAllowed(q, between) && Closes(q, job)
    requires AllAllowed(AfterMark(After(q, between), job, DecideAll(q.items, job, first, t1), t1), after)
    ensures var marked := AfterMark(After(q, between), job, DecideAll(q.items, job, first, t1), t1);
      AfterMark(After(marked, after), job, DecideAll(q.items, job, second, t2), t2) == After(marked, after)
  {
    var s := After(q, between);
    StaleCloseIsAClose(q, between, job, first, t1);
    RunKeepsValid(q, between);
    CloseKeepsValid(s, job, first, t1);
    RunKeepsJob(q, between, job);
    var marked := Closed(s, job, first, t1);
    if Closes(s, job) {
      CloseClosesTheJob(s, job, first, t1);
    } else {
      OpenOrClosed(s, job);
    }
    ClosedForGood(marked, after, job);
  }

  lemma {:induction false} RunKeepsJob(q: Queue, ops: seq<Op>, job: nat)
    requires HasBatch(q, job) || Closes(q, job)
    ensures HasBatch(After(q, ops), job)
    decreases |ops|
  {
    if Closes(q, job) { assert q.batches[FindBatch(q.batches, job).value] in q.batches; }
    if ops != [] {
      OpKeepsJob(q, ops[0], job);
      RunKeepsJob(Apply(q, ops[0]), ops[1..], job);
    }
  }
}
