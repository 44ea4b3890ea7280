/**
 * The apify-gateway watcher (services/apify-gateway): each collected job is announced by publishing first and marking
 * afterwards, so a tick may stop anywhere between the two and the next tick publishes the same keys again.
 */
module GatewayWatch {
  import opened Common
  import opened Publishing

  /** `APIFY_GATEWAY_WATCH_BATCH_SIZE` (packages/config/src/modules/apify-gateway.ts). */
  const WATCH_BATCH_SIZE: nat := 100

  const COLLECTED_TASK := "apify-gateway-run-collected"

  function Decimal(n: nat): (digits: string)
    ensures |digits| >= 1
  {
    var digit := ['0' + (n % 10) as char];
    if n < 10 then digit else Decimal(n / 10) + digit
  }

  lemma {:induction false} DecimalIsInjective(a: nat, b: nat)
    requires Decimal(a) == Decimal(b)
    ensures a == b
  {
    var x, y := Decimal(a), Decimal(b);
    assert x[|x| - 1] == '0' + (a % 10) as char && y[|y| - 1] == '0' + (b % 10) as char;
    assert a % 10 == b % 10;
    if a >= 10 && b >= 10 {
      assert x[..|x| - 1] == Decimal(a / 10) && y[..|y| - 1] == Decimal(b / 10);
      DecimalIsInjective(a / 10, b / 10);
    }
  }

  function CollectedKey(job: nat): string {
    "apify-gateway.run-collected:" + Decimal(job)
  }

  function Announcement(job: nat): Envelope {
    Envelope(COLLECTED_TASK, CollectedKey(job), job)
  }

  function Announcements(batch: seq<nat>): seq<Envelope> {
    seq(|batch|, (i: nat) requires i < |batch| => Announcement(batch[i]))
  }

  /** Different jobs never share a slot. */
  lemma SlotNamesTheJob(a: nat, b: nat)
    requires SlotOf(Announcement(a)) == SlotOf(Announcement(b))
    ensures a == b
  {
    var prefix := "apify-gateway.run-collected:";
    assert CollectedKey(a)[|prefix|..] == Decimal(a) && CollectedKey(b)[|prefix|..] == Decimal(b);
    DecimalIsInjective(a, b);
  }

  /** Jobs below `n` collected and not yet announced, in id order. */
  function Pending(ready: set<nat>, announced: set<nat>, n: nat): seq<nat> {
    if n == 0 then []
    else Pending(ready, announced, n - 1) + if n - 1 in ready && n - 1 !in announced then [n - 1] else []
  }

  function Batch(ready: set<nat>, announced: set<nat>, n: nat): seq<nat> {
    var pending := Pending(ready, announced, n);
    if |pending| <= WATCH_BATCH_SIZE then pending else pending[..WATCH_BATCH_SIZE]
  }

  function Jobs(batch: seq<nat>): set<nat> {
    set j | j in batch
  }

  ghost predicate Ascending(s: seq<nat>) {
    forall p, q | 0 <= p < q < |s| :: s[p] < s[q]
  }

  lemma {:induction false} PendingHolds(ready: set<nat>, announced: set<nat>, n: nat)
    ensures forall j :: j in Pending(ready, announced, n) <==> j < n && j in ready && j !in announced
    ensures Ascending(Pending(ready, announced, n))
  {
    if n > 0 {
      PendingHolds(ready, announced, n - 1);
      var init := Pending(ready, announced, n - 1);
      forall p | 0 <= p < |init| ensures init[p] < n - 1 {
        assert init[p] in init;
      }
    }
  }

  lemma {:induction false} AscendingIsUnique(xs: seq<nat>, ys: seq<nat>)
    requires Ascending(xs) && Ascending(ys) && forall j :: j in xs <==> j in ys
    ensures xs == ys
  {
    assert xs != [] ==> xs[0] in ys;
    assert ys != [] ==> ys[0] in xs;
    if xs != [] {
      assert xs[0] == ys[0];
      assert xs == [xs[0]] + xs[1..] && ys == [ys[0]] + ys[1..];
      assert xs[0] !in xs[1..] && ys[0] !in ys[1..];
      forall j ensures j in xs[1..] <==> j in ys[1..] {
        assert j in xs <==> j == xs[0] || j in xs[1..];
        assert j in ys <==> j == ys[0] || j in ys[1..];
      }
      AscendingIsUnique(xs[1..], ys[1..]);
    }
  }

  /** A clean tick takes exactly its batch off the front of the queue. */
  lemma TickAdvancesTheQueue(ready: set<nat>, announced: set<nat>, n: nat, k: nat)
    requires k <= |Pending(ready, announced, n)|
    ensures var pending := Pending(ready, announced, n);
      Pending(ready, announced + Jobs(pending[..k]), n) == pending[k..]
  {
    var pending := Pending(ready, announced, n);
    PendingHolds(ready, announced, n);
    PendingHolds(ready, announced + Jobs(pending[..k]), n);
    forall j ensures j in pending[k..] <==> j in pending && j !in pending[..k] {
      if j in pending[k..] {
        var q :| k <= q < |pending| && pending[q] == j;
      }
    }
    AscendingIsUnique(Pending(ready, announced + Jobs(pending[..k]), n), pending[k..]);
  }

  class Watcher {
    const publisher: TriggerPublisher
    /** One past the last job id. */
    var next: nat
    var ready: set<nat>
    var announced: set<nat>

    constructor (publisher: TriggerPublisher)
      ensures this.publisher == publisher && next == 0 && ready == {} && announced == {}
    {
      this.publisher := publisher;
      next, ready, announced := 0, {}, {};
    }

    /** One tick: a publish may fail part-way, and the tick may die before it marks what it published. */
    method Tick(faults: nat -> Option<set<Slot>>, crash: bool) returns (done: bool)
      modifies this`announced, publisher
      ensures var batch := Batch(ready, old(announced), next);
        && (done ==>
              && announced == old(announced) + Jobs(batch)
              && publisher.runs == Start(old(publisher.runs), Flat(Announcements(batch))))
        && (!done ==>
              announced == old(announced) && Between(old(publisher.runs), publisher.runs, Slots(Announcements(batch))))
      ensures !crash && (forall n :: faults(n).None?) ==> done
    {
      var batch := Batch(ready, announced, next);
      StartStarts(publisher.runs, Flat(Announcements(batch)));
      FlatIsAPermutation(Announcements(batch));
      if batch == [] {
        assert Announcements(batch) == [] && Jobs(batch) == {};
        return true;
      }
      var ok := publisher.Publish(Announcements(batch), faults);
      if !ok || crash { return false; }
      announced := announced + Jobs(batch);
      done := true;
    }
  }

  // ------------------------------------------------------------------------------------------
  // Whole runs
  // ------------------------------------------------------------------------------------------

  datatype State = State(next: nat, ready: set<nat>, announced: set<nat>, runs: seq<Slot>)

  datatype Event =
    | Collected(job: nat)
    | OtherPublish(es: seq<Envelope>)
    | CleanTick
    | BrokenTick

  ghost predicate Step(s: State, e: Event, t: State) {
    var batch := Batch(s.ready, s.announced, s.next);
    match e
    case Collected(job) =>
      t == s.(next := if job < s.next then s.next else job + 1, ready := s.ready + {job})
    case OtherPublish(es) =>
      (forall o | o in es :: o.task != COLLECTED_TASK) && t == s.(runs := Start(s.runs, es))
    case CleanTick =>
      t == s.(announced := s.announced + Jobs(batch), runs := Start(s.runs, Flat(Announcements(batch))))
    case BrokenTick =>
      t == s.(runs := t.runs) && Between(s.runs, t.runs, Slots(Announcements(batch)))
  }

  ghost predicate Runs(states: seq<State>, events: seq<Event>) {
    && |states| == |events| + 1
    && states[0] == State(0, {}, {}, [])
    && forall i | 0 <= i < |events| :: Step(states[i], events[i], states[i + 1])
  }

  ghost predicate ForAJob(ready: set<nat>, slot: Slot) {
    slot.task == COLLECTED_TASK ==> exists j :: j in ready && slot == SlotOf(Announcement(j))
  }

  /** Every announced job was started, no slot was started twice, and nothing was started for a job not collected. */
  ghost predicate Sound(s: State) {
    && s.announced <= s.ready && (forall j | j in s.ready :: j < s.next)
    && Distinct(s.runs)
    && (forall j | j in s.announced :: SlotOf(Announcement(j)) in s.runs)
    && (forall slot | slot in s.runs :: ForAJob(s.ready, slot))
  }

  lemma BatchIsPending(ready: set<nat>, announced: set<nat>, n: nat)
    ensures forall j | j in Batch(ready, announced, n) :: j in ready
  {
    PendingHolds(ready, announced, n);
  }

  lemma BatchSlots(ready: set<nat>, batch: seq<nat>)
    requires forall j | j in batch :: j in ready
    ensures forall j | j in batch :: SlotOf(Announcement(j)) in Slots(Announcements(batch))
    ensures forall slot | slot in Slots(Announcements(batch)) :: ForAJob(ready, slot)
  {
    var es := Announcements(batch);
    forall j | j in batch ensures SlotOf(Announcement(j)) in Slots(es) {
      var i :| 0 <= i < |batch| && batch[i] == j;
      assert es[i] in es;
      SlotsHold(es, SlotOf(Announcement(j)));
    }
    forall slot | slot in Slots(es) ensures ForAJob(ready, slot) {
      SlotsHold(es, slot);
      var e :| e in es && SlotOf(e) == slot;
      var i :| 0 <= i < |es| && es[i] == e;
      assert batch[i] in batch;
    }
  }

  lemma OtherSlots(es: seq<Envelope>)
    requires forall o | o in es :: o.task != COLLECTED_TASK
    ensures forall slot | slot in Slots(es) :: slot.task != COLLECTED_TASK
  {
    forall slot | slot in Slots(es) ensures slot.task != COLLECTED_TASK {
      SlotsHold(es, slot);
    }
  }

  lemma StepKeepsSound(s: State, e: Event, t: State)
    requires Sound(s) && Step(s, e, t)
    ensures Sound(t)
  {
    var batch := Batch(s.ready, s.announced, s.next);
    BatchIsPending(s.ready, s.announced, s.next);
    BatchSlots(s.ready, batch);
    match e
    case Collected(job) =>
      forall slot | slot in t.runs ensures ForAJob(t.ready, slot) {
        assert ForAJob(s.ready, slot);
      }
    case OtherPublish(es) =>
      StartStarts(s.runs, es);
      OtherSlots(es);
      forall slot | slot in t.runs ensures ForAJob(t.ready, slot) {
        assert slot in Started(t.runs);
      }
    case CleanTick =>
      StartStarts(s.runs, Flat(Announcements(batch)));
      FlatIsAPermutation(Announcements(batch));
      forall slot ensures slot in t.runs <==> slot in s.runs || slot in Slots(Announcements(batch)) {
        assert slot in t.runs <==> slot in Started(t.runs);
      }
    case BrokenTick =>
      forall slot | slot in t.runs ensures ForAJob(t.ready, slot) {
        assert slot in Started(t.runs);
      }
  }

  /**
   * Whatever ticks fail or die, each collected job's consumer is started at most once, and exactly once by the time
   * the job is marked announced.
   */
  lemma {:induction false} AnnouncedExactlyOnce(states: seq<State>, events: seq<Event>)
    requires Runs(states, events)
    ensures Sound(states[|events|])
    decreases |events|
  {
    if events != [] {
      var n := |events| - 1;
      AnnouncedExactlyOnce(states[..n + 1], events[..n]);
      StepKeepsSound(states[n], events[n], states[n + 1]);
    }
  }

  // ------------------------------------------------------------------------------------------
  // Every job's turn comes
  // ------------------------------------------------------------------------------------------

  /** The ids up to `job` not announced: all that can be ahead of it in the queue, collected yet or not. */
  function NotAnnounced(announced: set<nat>, job: nat): set<nat> {
    set i: nat | i <= job && i !in announced
  }

  function CleanTicks(events: seq<Event>): nat {
    if events == [] then 0 else (if events[0].CleanTick? then 1 else 0) + CleanTicks(events[1..])
  }

  lemma {:induction false} LastTickCounts(events: seq<Event>)
    requires events != []
    ensures CleanTicks(events)
         == CleanTicks(events[..|events| - 1]) + if events[|events| - 1].CleanTick? then 1 else 0
  {
    if |events| > 1 {
      LastTickCounts(events[1..]);
      assert events[1..][..|events| - 2] == events[..|events| - 1][1..];
    }
  }

  /** How many of the events are ticks without a fault. */
  lemma {:induction false} CleanTicksAreCounted(events: seq<Event>)
    ensures CleanTicks(events) == Sum(|events|, (i: nat) => if i < |events| && events[i].CleanTick? then 1 else 0)
  {
    if events != [] {
      var init, n := events[..|events| - 1], |events| - 1;
      LastTickCounts(events);
      CleanTicksAreCounted(init);
      SumSame(n, (i: nat) => if i < |init| && init[i].CleanTick? then 1 else 0,
        (i: nat) => if i < |events| && events[i].CleanTick? then 1 else 0);
    }
  }

  ghost predicate Follows(states: seq<State>, events: seq<Event>) {
    |states| == |events| + 1 && forall i | 0 <= i < |events| :: Step(states[i], events[i], states[i + 1])
  }

  lemma {:induction false} JobsOfAscending(s: seq<nat>)
    requires Ascending(s)
    ensures |Jobs(s)| == |s|
  {
    if s != [] {
      var init, last := s[..|s| - 1], s[|s| - 1];
      JobsOfAscending(init);
      assert s == init + [last] && last !in init;
      assert Jobs(s) == Jobs(init) + {last};
    }
  }

  lemma {:induction false} SubsetIsSmaller(a: set<nat>, b: set<nat>)
    requires a <= b
    ensures |a| <= |b|
  {
    if a != {} {
      var x :| x in a;
      SubsetIsSmaller(a - {x}, b - {x});
    }
  }

  /** A tick that leaves a waiting job out has a full batch of waiting jobs before it. */
  lemma LeftOutBehind(ready: set<nat>, announced: set<nat>, n: nat, job: nat)
    requires job in ready && job < n && job !in announced && job !in Batch(ready, announced, n)
    ensures var batch := Batch(ready, announced, n);
      Ascending(batch) && |batch| == WATCH_BATCH_SIZE && forall i | i in batch :: i < job && i !in announced
  {
    var pending, batch := Pending(ready, announced, n), Batch(ready, announced, n);
    PendingHolds(ready, announced, n);
    var k :| 0 <= k < |pending| && pending[k] == job;
    assert forall m | 0 <= m < |batch| :: batch[m] in batch && batch[m] == pending[m] && pending[m] in pending;
    assert |batch| == WATCH_BATCH_SIZE <= k;
  }

  /** So a clean tick that leaves it out takes a hundred ids from before it. */
  lemma LeftOutMovesUp(ready: set<nat>, announced: set<nat>, n: nat, job: nat)
    requires job in ready && job < n && job !in announced && job !in Batch(ready, announced, n)
    ensures var batch := Batch(ready, announced, n);
      |NotAnnounced(announced + Jobs(batch), job)| + WATCH_BATCH_SIZE <= |NotAnnounced(announced, job)|
  {
    var batch := Batch(ready, announced, n);
    LeftOutBehind(ready, announced, n, job);
    JobsOfAscending(batch);
    var rest := NotAnnounced(announced + Jobs(batch), job);
    assert rest !! Jobs(batch);
    SubsetIsSmaller(rest + Jobs(batch), NotAnnounced(announced, job));
  }

  lemma TurnComesNearer(s: State, e: Event, t: State, job: nat)
    requires Step(s, e, t) && job in s.ready && job < s.next
    ensures job in t.ready && job < t.next && s.announced <= t.announced
    ensures |NotAnnounced(t.announced, job)| <= |NotAnnounced(s.announced, job)|
    ensures e.CleanTick? && job !in t.announced ==>
              |NotAnnounced(t.announced, job)| + WATCH_BATCH_SIZE <= |NotAnnounced(s.announced, job)|
  {
    SubsetIsSmaller(NotAnnounced(t.announced, job), NotAnnounced(s.announced, job));
    if e.CleanTick? && job !in t.announced { LeftOutMovesUp(s.ready, s.announced, s.next, job); }
  }

  /**
   * A collected job is announced once enough ticks have been clean, whatever else happens in between, broken ticks and
   * newly collected jobs included: at most one clean tick for each hundred ids up to its own.
   */
  lemma {:induction false} EveryTurnComes(states: seq<State>, events: seq<Event>, job: nat)
    requires Follows(states, events) && job in states[0].ready && job < states[0].next
    requires WATCH_BATCH_SIZE * CleanTicks(events) >= |NotAnnounced(states[0].announced, job)|
    ensures job in states[|events|].announced
    decreases |events|
  {
    if events == [] {
      var left := NotAnnounced(states[0].announced, job);
      assert left == {} && job !in left;
    } else {
      var s, t := states[0], states[1];
      TurnComesNearer(s, events[0], t, job);
      assert states[1..][|events| - 1] == states[|events|];
      if job in t.announced {
        StaysAnnounced(states[1..], events[1..], job);
      } else {
        EveryTurnComes(states[1..], events[1..], job);
      }
    }
  }

  lemma {:induction false} StaysAnnounced(states: seq<State>, events: seq<Event>, job: nat)
    requires Follows(states, events) && job in states[0].announced
    ensures job in states[|events|].announced
    decreases |events|
  {
    if events != [] {
      assert Step(states[0], events[0], states[1]) && states[1..][|events| - 1] == states[|events|];
      StaysAnnounced(states[1..], events[1..], job);
    }
  }

  /** At most `job / 100 + 1` clean ticks from the moment it is collected. */
  lemma EnoughCleanTicks(states: seq<State>, events: seq<Event>, job: nat)
    requires Follows(states, events) && job in states[0].ready && job < states[0].next
    requires CleanTicks(events) >= job / 100 + 1
    ensures job in states[|events|].announced
  {
    UpTo(job);
    SubsetIsSmaller(NotAnnounced(states[0].announced, job), NotAnnounced({}, job));
    EveryTurnComes(states, events, job);
  }

  lemma {:induction false} UpTo(job: nat)
    ensures |NotAnnounced({}, job)| == job + 1
  {
    if job == 0 {
      assert NotAnnounced({}, 0) == {0};
    } else {
      UpTo(job - 1);
      assert NotAnnounced({}, job) == NotAnnounced({}, job - 1) + {job};
    }
  }
}
