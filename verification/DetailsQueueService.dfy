/**
 * services/details-queue itself: the tables as fields, changed step by step by the methods the service exports, each
 * proved to be the step of the same name.
 */
module DetailsQueueService {
  import opened Common
  import opened Sorting
  import opened DetailsQueue
  import opened QueueSafety
  import opened BatchClosing
  import opened QueueRows

  /** The id's item in a lane. */
  function ItemFor(items: seq<Item>, listing: ListingId, lane: Lane): (i: Item)
    requires Holds(items, listing, lane)
    ensures i in items && i.listing == listing && i.lane == lane
  {
    var last := items[|items| - 1];
    if last.listing == listing && last.lane == lane then last
    else
      assert items == items[..|items| - 1] + [last];
      ItemFor(items[..|items| - 1], listing, lane)
  }

  /** One id's share of the report. */
  function CountOne(items: seq<Item>, r: Request, id: ListingId): Counts {
    if !Holds(items, id, r.lane) then Counts(1, 0, 0)
    else if !Finished(ItemFor(items, id, r.lane)) then Counts(0, 1, 0)
    else if r.refresh then Counts(1, 0, 0)
    else Counts(0, 0, 1)
  }

  function Plus(a: Counts, b: Counts): Counts {
    Counts(a.queued + b.queued, a.alreadyQueued + b.alreadyQueued, a.skipped + b.skipped)
  }

  function CountAll(items: seq<Item>, r: Request, ids: seq<ListingId>): Counts {
    if ids == [] then Counts(0, 0, 0)
    else Plus(CountAll(items, r, ids[..|ids| - 1]), CountOne(items, r, ids[|ids| - 1]))
  }

  /** Every id is counted once: queued, already queued or skipped. */
  lemma {:induction false} EveryIdIsCounted(items: seq<Item>, r: Request, ids: seq<ListingId>)
    ensures var c := CountAll(items, r, ids); c.queued + c.alreadyQueued + c.skipped == |ids|
  {
    if ids != [] { EveryIdIsCounted(items, r, ids[..|ids| - 1]); }
  }

  lemma NextId(items: seq<Item>, r: Request, k: nat)
    requires k < |r.ids|
    ensures CountAll(items, r, r.ids[..k + 1]) == Plus(CountAll(items, r, r.ids[..k]), CountOne(items, r, r.ids[k]))
  {
    var ids := r.ids[..k + 1];
    assert ids[..k] == r.ids[..k] && ids[k] == r.ids[k] && |ids| == k + 1;
  }

  method CountIds(items: seq<Item>, r: Request) returns (counts: Counts)
    ensures counts == CountAll(items, r, r.ids)
  {
    counts := Counts(0, 0, 0);
    for k := 0 to |r.ids|
      invariant counts == CountAll(items, r, r.ids[..k])
    {
      NextId(items, r, k);
      var id := r.ids[k];
      if !Holds(items, id, r.lane) {
        counts := counts.(queued := counts.queued + 1);
      } else if !Finished(ItemFor(items, id, r.lane)) {
        counts := counts.(alreadyQueued := counts.alreadyQueued + 1);
      } else if r.refresh {
        counts := counts.(queued := counts.queued + 1);
      } else {
        counts := counts.(skipped := counts.skipped + 1);
      }
    }
    assert r.ids[..|r.ids|] == r.ids;
  }

  // ------------------------------------------------------------------------------------------
  // Placement of first-seen listings
  // ------------------------------------------------------------------------------------------

  /** The run shape and region of the search that first found a listing. */
  datatype Placement = Placement(shape: Option<string>, region: Option<string>)

  datatype Input = Input(ids: seq<ListingId>, lane: Lane, priority: Priority, region: Option<string>, firstSeen: bool,
    refresh: bool, at: int)

  /** The ids one call to `EnqueuePlaced` gets: one priority and region. */
  datatype Place = Place(priority: Priority, region: Option<string>)

  function PlaceOf(input: Input, placement: map<ListingId, Placement>, id: ListingId): Place {
    if id in placement then Place(PriorityOfShape(placement[id].shape), placement[id].region)
    else Place(input.priority, None)
  }

  function IdsAt(input: Input, placement: map<ListingId, Placement>, ids: seq<ListingId>, place: Place): seq<ListingId> {
    if ids == [] then [] else
      var init, last := IdsAt(input, placement, ids[..|ids| - 1], place), ids[|ids| - 1];
      if PlaceOf(input, placement, last) == place then init + [last] else init
  }

  lemma {:induction false} IdsAtAre(input: Input, placement: map<ListingId, Placement>, ids: seq<ListingId>, place: Place)
    ensures forall id :: id in IdsAt(input, placement, ids, place) <==> id in ids && PlaceOf(input, placement, id) == place
    ensures Distinct(ids) ==> Distinct(IdsAt(input, placement, ids, place))
  {
    if ids != [] {
      IdsAtAre(input, placement, ids[..|ids| - 1], place);
      assert ids == ids[..|ids| - 1] + [ids[|ids| - 1]];
    }
  }

  function SizeAt(input: Input, placement: map<ListingId, Placement>, ids: seq<ListingId>, order: seq<Place>): nat {
    if order == [] then 0
    else SizeAt(input, placement, ids, order[..|order| - 1]) + |IdsAt(input, placement, ids, order[|order| - 1])|
  }

  lemma {:induction false} OneMoreId(input: Input, placement: map<ListingId, Placement>, ids: seq<ListingId>, order: seq<Place>)
    requires ids != [] && Distinct(order)
    ensures SizeAt(input, placement, ids, order) == SizeAt(input, placement, ids[..|ids| - 1], order)
      + if PlaceOf(input, placement, ids[|ids| - 1]) in order then 1 else 0
  {
    if order != [] {
      OneMoreId(input, placement, ids, order[..|order| - 1]);
      assert order == order[..|order| - 1] + [order[|order| - 1]];
    }
  }

  lemma {:induction false} NoIds(input: Input, placement: map<ListingId, Placement>, order: seq<Place>)
    ensures SizeAt(input, placement, [], order) == 0
  {
    if order != [] { NoIds(input, placement, order[..|order| - 1]); }
  }

  /** Splitting by place loses no id. */
  lemma {:induction false} EveryIdHasOnePlace(input: Input, placement: map<ListingId, Placement>, ids: seq<ListingId>,
      order: seq<Place>)
    requires Distinct(order) && forall id | id in ids :: PlaceOf(input, placement, id) in order
    ensures SizeAt(input, placement, ids, order) == |ids|
  {
    if ids == [] {
      NoIds(input, placement, order);
    } else {
      EveryIdHasOnePlace(input, placement, ids[..|ids| - 1], order);
      OneMoreId(input, placement, ids, order);
    }
  }

  function RequestAt(input: Input, place: Place, ids: seq<ListingId>): Request {
    Request(ids, input.lane, place.priority, place.region, input.refresh, input.at)
  }

  /** What an enqueue makes of an item already there: what its own listing's place asks for. */
  function TouchedInPlace(input: Input, placement: map<ListingId, Placement>, i: Item): Item {
    Touched(i, RequestAt(input, PlaceOf(input, placement, i.listing), [i.listing]))
  }

  /** An item that was there: touched if its place is done, else as it was. */
  ghost predicate OldDone(input: Input, placement: map<ListingId, Placement>, ids: seq<ListingId>, order: seq<Place>,
      before: Item, now: Item)
  {
    now == if before.listing in ids && PlaceOf(input, placement, before.listing) in order
           then TouchedInPlace(input, placement, before) else before
  }

  /** An item that was not: one of the ids, new in its own place. */
  ghost predicate NewDone(input: Input, placement: map<ListingId, Placement>, ids: seq<ListingId>, order: seq<Place>, now: Item) {
    && now.listing in ids && PlaceOf(input, placement, now.listing) in order
    && now == NewItem(now.listing, RequestAt(input, PlaceOf(input, placement, now.listing), []))
  }

  /** These places are enqueued: their items touched or added, each in its own place; the others as they were. */
  ghost predicate PlacesDone(input: Input, placement: map<ListingId, Placement>, ids: seq<ListingId>, order: seq<Place>,
      before: seq<Item>, items: seq<Item>)
  {
    && |before| <= |items|
    && (forall k {:trigger items[k]} | 0 <= k < |before| :: OldDone(input, placement, ids, order, before[k], items[k]))
    && (forall k {:trigger items[k]} | |before| <= k < |items| :: NewDone(input, placement, ids, order, items[k]))
  }

  /** Where a first-seen id goes: by the search that found it, or as the caller asked and with no region. */
  ghost predicate Places(input: Input, placement: map<ListingId, Placement>, r: Request, id: ListingId) {
    && r.ids == [id] && r.lane == input.lane && r.refresh == input.refresh && r.at == input.at
    && (id in placement ==> r.region == placement[id].region && ShapeGives(placement[id].shape, r.priority))
    && (id !in placement ==> r.region.None? && r.priority == input.priority)
  }

  /** What is left when every place is done: each item as its own listing's search asks for, by itself. */
  lemma EachInItsPlace(input: Input, placement: map<ListingId, Placement>, ids: seq<ListingId>, order: seq<Place>,
      before: seq<Item>, items: seq<Item>, k: nat)
    requires PlacesDone(input, placement, ids, order, before, items) && k < |items|
    requires forall id | id in ids :: PlaceOf(input, placement, id) in order
    ensures k < |before| ==>
      if before[k].listing in ids then
        exists r :: Places(input, placement, r, before[k].listing) && EnqueuedAs(before[k], r, items[k])
      else items[k] == before[k]
    ensures k >= |before| ==> items[k].listing in ids && exists r ::
      && Places(input, placement, r, items[k].listing)
      && items[k] == Item(items[k].listing, r.lane, r.priority, Queued, r.region, 0, 0, None, None, None, r.at)
  {
    var id := if k < |before| then before[k].listing else items[k].listing;
    var r := RequestAt(input, PlaceOf(input, placement, id), [id]);
    assert Places(input, placement, r, id);
    if k < |before| {
      assert OldDone(input, placement, ids, order, before[k], items[k]);
      EnqueueMovesItems(Queue([before[k]], [], map[]), r);
      assert id in ids ==> EnqueuedAs(before[k], r, items[k]);
    } else {
      assert NewDone(input, placement, ids, order, items[k]);
    }
  }

  lemma OldStaysDone(input: Input, placement: map<ListingId, Placement>, ids: seq<ListingId>, order: seq<Place>, t: nat,
      before: Item, now: Item)
    requires t < |order| && order[t] !in order[..t] && OldDone(input, placement, ids, order[..t], before, now)
    ensures OldDone(input, placement, ids, order[..t + 1], before,
              Touched(now, RequestAt(input, order[t], IdsAt(input, placement, ids, order[t]))))
  {
    IdsAtAre(input, placement, ids, order[t]);
    assert order[..t + 1] == order[..t] + [order[t]];
  }

  lemma NewStaysDone(input: Input, placement: map<ListingId, Placement>, ids: seq<ListingId>, order: seq<Place>, t: nat,
      now: Item)
    requires t < |order| && order[t] !in order[..t] && NewDone(input, placement, ids, order[..t], now)
    ensures NewDone(input, placement, ids, order[..t + 1],
              Touched(now, RequestAt(input, order[t], IdsAt(input, placement, ids, order[t]))))
  {
    IdsAtAre(input, placement, ids, order[t]);
    assert order[..t + 1] == order[..t] + [order[t]];
  }

  lemma NewInItsPlace(input: Input, placement: map<ListingId, Placement>, ids: seq<ListingId>, order: seq<Place>, place: Place,
      asked: seq<ListingId>, listing: ListingId)
    requires listing in ids && PlaceOf(input, placement, listing) == place && place in order
    ensures NewDone(input, placement, ids, order, NewItem(listing, RequestAt(input, place, asked)))
  {
  }

  lemma MissingAreNew(input: Input, placement: map<ListingId, Placement>, ids: seq<ListingId>, order: seq<Place>, t: nat,
      items: seq<Item>, listing: ListingId)
    requires t < |order|
    requires var r := RequestAt(input, order[t], IdsAt(input, placement, ids, order[t])); listing in Missing(items, r, r.ids)
    ensures NewDone(input, placement, ids, order[..t + 1],
              NewItem(listing, RequestAt(input, order[t], IdsAt(input, placement, ids, order[t]))))
  {
    var place, asked := order[t], IdsAt(input, placement, ids, order[t]);
    IdsAtAre(input, placement, ids, place);
    MissingAre(items, RequestAt(input, place, asked), asked);
    assert order[..t + 1][t] == place;
    NewInItsPlace(input, placement, ids, order[..t + 1], place, asked, listing);
  }

  lemma OnePlaceMoreDone(input: Input, placement: map<ListingId, Placement>, ids: seq<ListingId>, order: seq<Place>, t: nat,
      before: seq<Item>, q: Queue)
    requires t < |order| && Distinct(order) && PlacesDone(input, placement, ids, order[..t], before, q.items)
    ensures var r := RequestAt(input, order[t], IdsAt(input, placement, ids, order[t]));
      PlacesDone(input, placement, ids, order[..t + 1], before, Enqueued(q, r).items)
  {
    var r := RequestAt(input, order[t], IdsAt(input, placement, ids, order[t]));
    var after := Enqueued(q, r).items;
    var missing := Missing(q.items, r, r.ids);
    assert order[t] !in order[..t];
    forall k | 0 <= k < |before| ensures OldDone(input, placement, ids, order[..t + 1], before[k], after[k]) {
      OldStaysDone(input, placement, ids, order, t, before[k], q.items[k]);
    }
    forall k | |before| <= k < |after| ensures NewDone(input, placement, ids, order[..t + 1], after[k]) {
      if k < |q.items| {
        NewStaysDone(input, placement, ids, order, t, q.items[k]);
      } else {
        assert missing[k - |q.items|] in missing;
        MissingAreNew(input, placement, ids, order, t, q.items, missing[k - |q.items|]);
      }
    }
  }

  /** Every id of these places has its item. */
  ghost predicate PlacesHeld(input: Input, placement: map<ListingId, Placement>, ids: seq<ListingId>, order: seq<Place>,
      items: seq<Item>)
  {
    forall id {:trigger Holds(items, id, input.lane)} |
      id in ids && PlaceOf(input, placement, id) in order :: Holds(items, id, input.lane)
  }

  lemma OnePlaceMoreHeld(input: Input, placement: map<ListingId, Placement>, ids: seq<ListingId>, order: seq<Place>, t: nat,
      before: seq<Item>, items: seq<Item>)
    requires t < |order| && PlacesHeld(input, placement, ids, order[..t], before) && Kept(before, items)
    requires forall id | id in IdsAt(input, placement, ids, order[t]) :: Holds(items, id, input.lane)
    ensures PlacesHeld(input, placement, ids, order[..t + 1], items)
  {
    IdsAtAre(input, placement, ids, order[t]);
    assert order[..t + 1] == order[..t] + [order[t]];
    forall id | id in ids && PlaceOf(input, placement, id) in order[..t + 1] ensures Holds(items, id, input.lane) {
      if PlaceOf(input, placement, id) in order[..t] {
        assert Holds(before, id, input.lane);
        KeptHolds(before, items, id, input.lane);
      }
    }
  }

  method GroupByPlace(input: Input, placement: map<ListingId, Placement>, ids: seq<ListingId>)
    returns (order: seq<Place>, groups: map<Place, seq<ListingId>>)
    ensures Distinct(order) && (forall p :: p in order <==> p in groups)
    ensures forall p | p in order :: groups[p] == IdsAt(input, placement, ids, p)
    ensures forall id | id in ids :: PlaceOf(input, placement, id) in order
  {
    order, groups := [], map[];
    for k := 0 to |ids|
      invariant Distinct(order) && (forall p :: p in order <==> p in groups)
      invariant forall p | p in order :: groups[p] == IdsAt(input, placement, ids[..k], p)
      invariant forall p | p !in order :: IdsAt(input, placement, ids[..k], p) == []
      invariant forall id | id in ids[..k] :: PlaceOf(input, placement, id) in order
    {
      assert ids[..k + 1][..k] == ids[..k] && ids[..k + 1] == ids[..k] + [ids[k]];
      var place := PlaceOf(input, placement, ids[k]);
      if place in groups {
        groups := groups[place := groups[place] + [ids[k]]];
      } else {
        order, groups := order + [place], groups[place := [ids[k]]];
      }
    }
    assert ids[..|ids|] == ids;
  }

  function DoneCount(items: seq<Item>): nat {
    if items == [] then 0 else DoneCount(items[..|items| - 1]) + if items[|items| - 1].status.Done? then 1 else 0
  }

  lemma {:induction false} OneItemChanges(items: seq<Item>, k: nat, i: Item)
    requires k < |items|
    ensures DoneCount(items[k := i]) ==
      DoneCount(items) - (if items[k].status.Done? then 1 else 0) + (if i.status.Done? then 1 else 0)
  {
    var init := items[..|items| - 1];
    if k < |init| {
      OneItemChanges(init, k, i);
      assert items[k := i][..|items| - 1] == init[k := i];
    } else {
      assert items[k := i][..|items| - 1] == init;
    }
  }

  /** Inserted so far or not, a sighting's listing is held exactly if it was at the start. */
  lemma NewUnheld(items: seq<Item>, seen: seq<Sighting>, k: nat, at: int, now: int)
    requires DistinctListings(seen) && k < |seen|
    ensures Holds(items + DoneItems(Unheld(items, seen[..k]), at, now), seen[k].listing, Text)
       <==> Holds(items, seen[k].listing, Text)
  {
    var unheld := Unheld(items, seen[..k]);
    var added := DoneItems(unheld, at, now);
    UnheldAre(items, seen[..k]);
    forall i | i in added ensures i.listing != seen[k].listing {
      var j :| 0 <= j < |added| && added[j] == i;
      assert unheld[j] in unheld;
      var m :| 0 <= m < k && seen[m] == unheld[j];
    }
    if Holds(items, seen[k].listing, Text) {
      var i :| i in items && i.listing == seen[k].listing && i.lane == Text;
      assert i in items + added;
    }
  }

  /** What was just inserted is done already. */
  lemma MarkingSparesTheNew(items: seq<Item>, seen: seq<Sighting>, at: int, now: int)
    ensures var added := DoneItems(Unheld(items, seen), at, now);
      MarkedAll(items + added, seen, now) == MarkedAll(items, seen, now) + added
  {
  }

  datatype Report =
    | ReportOff
    | ReportBusy(job: nat)
    | ReportHeld
    | ReportCapped(deferred: seq<ListingId>)
    | ReportIdle
    | ReportRefused
    | ReportSent(job: nat, size: nat)

  /** What a tick that is on reports of the queue `q` its settling left. */
  ghost predicate IsReport(q: Queue, env: Env, report: Report) {
    match report
    case ReportOff => false
    case ReportBusy(job) => Open(q).Some? && job == Open(q).value.job
    case ReportHeld => Open(q).None? && env.level.HoldNew?
    case ReportCapped(deferred) =>
      && Open(q).None? && !env.level.HoldNew? && Submitted(q.batches, env.day) >= 1000
      && NamesQueued(q.items, deferred)
    case ReportIdle => CanSend(q, env) && !HasWork(q, env)
    case ReportRefused => CanSend(q, env) && env.submit.None? && HasWork(q, env)
    case ReportSent(_, _) => CanSend(q, env) && env.submit.Some? && HasWork(q, env)
  }

  ghost predicate NamesQueued(items: seq<Item>, named: seq<ListingId>) {
    forall l :: l in named <==> exists i :: i in items && i.listing == l && i.status.Queued? && i.lane.Text?
  }

  class Service {
    var items: seq<Item>
    var batches: seq<Batch>
    var leases: map<ListingId, nat>

    function Contents(): Queue
      reads this
    {
      Queue(items, batches, leases)
    }

    constructor ()
      ensures Contents() == Queue([], [], map[])
    {
      items, batches, leases := [], [], map[];
    }

    method EnqueuePlaced(r: Request) returns (counts: Counts)
      modifies this`items
      ensures Contents() == Enqueued(old(Contents()), r)
      ensures counts == CountAll(old(items), r, r.ids)
      ensures counts.queued + counts.alreadyQueued + counts.skipped == |r.ids|
    {
      var missing := Missing(items, r, r.ids);
      counts := CountIds(items, r);
      EveryIdIsCounted(items, r, r.ids);
      UpdateAsked(r);
      items := items + NewItems(missing, r);
    }

    /**
     * Records every id once, each placed by the search that first found it. Whatever the placement, no id is lost and
     * each is counted once.
     */
    method Enqueue(input: Input, placement: map<ListingId, Placement>) returns (total: Counts)
      requires Valid(Contents())
      modifies this`items
      ensures Valid(Contents()) && Kept(old(items), items)
      ensures forall id | id in input.ids :: Holds(items, id, input.lane)
      ensures total.queued + total.alreadyQueued + total.skipped == |Dedup(input.ids)|
      ensures input.firstSeen && input.region.None? ==>
        exists order :: PlacesDone(input, placement, Dedup(input.ids), order, old(items), items)
          && forall id | id in input.ids :: PlaceOf(input, placement, id) in order
      ensures !(input.firstSeen && input.region.None?) ==>
        Contents() == Enqueued(old(Contents()),
          Request(Dedup(input.ids), input.lane, input.priority, input.region, input.refresh, input.at))
    {
      var ids := Dedup(input.ids);
      DedupKeeps(input.ids);
      if !input.firstSeen || input.region.Some? {
        total := EnqueueGroup(Request(ids, input.lane, input.priority, input.region, input.refresh, input.at));
        return;
      }
      total := EnqueueByPlace(input, placement, ids);
    }

    method EnqueueByPlace(input: Input, placement: map<ListingId, Placement>, ids: seq<ListingId>) returns (total: Counts)
      requires Valid(Contents()) && Distinct(ids)
      modifies this`items
      ensures Valid(Contents()) && Kept(old(items), items)
      ensures forall id | id in ids :: Holds(items, id, input.lane)
      ensures total.queued + total.alreadyQueued + total.skipped == |ids|
      ensures exists order :: PlacesDone(input, placement, ids, order, old(items), items)
                && forall id | id in ids :: PlaceOf(input, placement, id) in order
    {
      var order, groups := GroupByPlace(input, placement, ids);
      total := Counts(0, 0, 0);
      for t := 0 to |order|
        invariant Valid(Contents()) && Kept(old(items), items)
        invariant PlacesHeld(input, placement, ids, order[..t], items)
        invariant PlacesDone(input, placement, ids, order[..t], old(items), items)
        invariant total.queued + total.alreadyQueued + total.skipped == SizeAt(input, placement, ids, order[..t])
      {
        assert order[..t + 1][..t] == order[..t];
        IdsAtAre(input, placement, ids, order[t]);
        ghost var before := items;
        OnePlaceMoreDone(input, placement, ids, order, t, old(items), Contents());
        var done := EnqueueGroup(RequestAt(input, order[t], groups[order[t]]));
        total := Plus(total, done);
        KeptTwice(old(items), before, items);
        OnePlaceMoreHeld(input, placement, ids, order, t, before, items);
      }
      assert order[..|order|] == order;
      EveryIdHasOnePlace(input, placement, ids, order);
    }

    method EnqueueGroup(r: Request) returns (counts: Counts)
      requires Valid(Contents()) && Distinct(r.ids)
      modifies this`items
      ensures Valid(Contents()) && Kept(old(items), items) && Contents() == Enqueued(old(Contents()), r)
      ensures forall id | id in r.ids :: Holds(items, id, r.lane)
      ensures counts.queued + counts.alreadyQueued + counts.skipped == |r.ids|
    {
      EnqueueKeepsValid(Contents(), r);
      forall id | id in r.ids ensures Holds(Enqueued(Contents(), r).items, id, r.lane) {
        EnqueueHoldsEveryId(Contents(), r, id);
      }
      counts := EnqueuePlaced(r);
    }

    /** `raisePriority` and `requeueForRefresh`. */
    method UpdateAsked(r: Request)
      modifies this`items
      ensures items == TouchedAll(old(items), r)
    {
      for k := 0 to |items|
        invariant |items| == |old(items)|
        invariant forall j | 0 <= j < |items| :: items[j] == if j < k then Touched(old(items)[j], r) else old(items)[j]
      {
        items := items[k := Touched(items[k], r)];
      }
    }

    /**
     * `handleFirstSeen`: listings whose first run already returned a full text are recorded as done, so no tick sends
     * them; the report counts those it made done. A listing not shown yet refuses the whole event, to be retried.
     */
    method HandleFirstSeen(asked: seq<string>, found: seq<Sighting>, at: int, now: int) returns (r: Result<Counts, nat>)
      requires Valid(Contents()) && DistinctListings(found)
      modifies this`items
      ensures r.Err? <==> |found| < |Dedup(asked)|
      ensures r.Err? ==> items == old(items) && r.error == |Dedup(asked)| - |found|
      ensures r.Ok? ==> Contents() == Recorded(old(Contents()), Described(found), at, now)
      ensures r.Ok? ==> r.value == Counts(0, 0, r.value.skipped) && DoneCount(items) == DoneCount(old(items)) + r.value.skipped
      ensures Valid(Contents()) && Kept(old(items), items)
    {
      if |found| < |Dedup(asked)| { return Err(|Dedup(asked)| - |found|); }
      var seen := Described(found);
      DescribedAre(found);
      RecordKeepsValid(Contents(), seen, at, now);
      var inserted := InsertDone(seen, at, now);
      var marked := MarkDescribed(seen, now);
      MarkingSparesTheNew(old(items), seen, at, now);
      assert items == Recorded(old(Contents()), seen, at, now).items;
      r := Ok(Counts(0, 0, inserted + marked));
    }

    /** `insertItems` with "on conflict do nothing". */
    method InsertDone(seen: seq<Sighting>, at: int, now: int) returns (inserted: nat)
      requires DistinctListings(seen)
      modifies this`items
      ensures items == old(items) + DoneItems(Unheld(old(items), seen), at, now)
      ensures DoneCount(items) == DoneCount(old(items)) + inserted
    {
      inserted := 0;
      for k := 0 to |seen|
        invariant items == old(items) + DoneItems(Unheld(old(items), seen[..k]), at, now)
        invariant DoneCount(items) == DoneCount(old(items)) + inserted
      {
        assert seen[..k + 1][..k] == seen[..k];
        NewUnheld(old(items), seen, k, at, now);
        if !Holds(items, seen[k].listing, Text) {
          var item := DoneItem(seen[k], at, now);
          assert (items + [item])[..|items|] == items;
          items, inserted := items + [item], inserted + 1;
        }
      }
      assert seen[..|seen|] == seen;
    }

    method MarkDescribed(seen: seq<Sighting>, now: int) returns (marked: nat)
      modifies this`items
      ensures items == MarkedAll(old(items), seen, now) && DoneCount(items) == DoneCount(old(items)) + marked
    {
      marked := 0;
      for k := 0 to |items|
        invariant |items| == |old(items)| && DoneCount(items) == DoneCount(old(items)) + marked
        invariant forall j | 0 <= j < |items| :: items[j] == if j < k then Marked(old(items)[j], seen, now) else old(items)[j]
      {
        var after := Marked(items[k], seen, now);
        OneItemChanges(items, k, after);
        if after != items[k] { items, marked := items[k := after], marked + 1; }
      }
    }

    /** `erase`: the leases, the items, and the ids in the batch records. */
    method Erase(ids: seq<ListingId>) returns (deleted: nat)
      requires Valid(Contents())
      modifies this
      ensures Contents() == Erased(old(Contents()), ids) && Valid(Contents())
      ensures deleted + |items| == |old(items)|
    {
      EraseKeepsValid(Contents(), ids);
      leases := map l | l in leases && l !in ids :: leases[l];
      var kept: seq<Item> := [];
      for k := 0 to |items|
        invariant kept == Spared(items[..k], ids) && |kept| <= k
      {
        assert items[..k + 1][..k] == items[..k];
        if items[k].listing !in ids { kept := kept + [items[k]]; }
      }
      assert items[..|items|] == items;
      deleted := |items| - |kept|;
      items, batches := kept, SparedBatches(batches, ids);
    }

    /** Whatever other transactions commit between two statements of this one. */
    method OthersRun(ops: seq<Op>)
      requires Valid(Contents()) && AllAllowed(Contents(), ops)
      modifies this
      ensures Contents() == After(old(Contents()), ops) && Valid(Contents())
    {
      RunKeepsValid(Contents(), ops);
      var q := After(Contents(), ops);
      items, batches, leases := q.items, q.batches, q.leases;
    }

    /**
     * Reads the batch and its leased items, decides, marks the batch closed where it still is open, and only then writes.
     * Whatever happens in between, it is the one atomic close at its mark, or it changes nothing.
     */
    method CloseBatch(job: nat, c: Closing, now: int, others: seq<Op>) returns (closed: bool)
      requires Valid(Contents()) && AllAllowed(Contents(), others)
      modifies this
      ensures var q := if Closes(old(Contents()), job) then After(old(Contents()), others) else old(Contents());
        Contents() == Closed(q, job, c, now) && closed == Closes(q, job)
      ensures Valid(Contents())
    {
      CloseKeepsValid(Contents(), job, c, now);
      var at := FindBatch(batches, job);
      if at.None? || batches[at.value].closedAt.Some? { return false; }
      var decided := DecideAll(items, job, c, now);
      StaleCloseIsAClose(Contents(), others, job, c, now);
      OthersRun(others);
      CloseKeepsValid(Contents(), job, c, now);
      closed := MarkClosed(job, now);
      if closed { WriteDecided(job, decided); }
    }

    /** Sets `closed_at` only where it is still null. */
    method MarkClosed(job: nat, now: int) returns (marked: bool)
      modifies this`batches
      ensures marked == Closes(old(Contents()), job)
      ensures batches == if !marked then old(batches) else
                var at := FindBatch(old(batches), job).value;
                old(batches)[at := old(batches)[at].(closedAt := Some(now))]
    {
      var at := FindBatch(batches, job);
      if at.None? || batches[at.value].closedAt.Some? { return false; }
      batches := batches[at.value := batches[at.value].(closedAt := Some(now))];
      marked := true;
    }

    /** `updateItem` for each decision, then the leases. */
    method WriteDecided(job: nat, decided: Decided)
      modifies this`items, this`leases
      ensures items == WithUpdates(old(items), job, decided) && leases == Released(old(leases), job)
    {
      for k := 0 to |items|
        invariant |items| == |old(items)| && leases == old(leases)
        invariant forall j | 0 <= j < |items| ::
          items[j] == if j < k then WithUpdate(old(items)[j], job, decided) else old(items)[j]
      {
        items := items[k := WithUpdate(items[k], job, decided)];
      }
      leases := Released(leases, job);
    }

    /** Closes every open batch whose lease has run out and whose job has ended; the open list is read once. */
    method SettleExpiredLeases(env: Env) returns (stillOpen: bool)
      requires Valid(Contents())
      modifies this
      ensures Contents() == Settled(old(Contents()), OpenBatches(old(batches)), env)
      ensures stillOpen <==> OpenBatches(batches) != []
    {
      var open := OpenBatches(batches);
      for k := 0 to |open|
        invariant Contents() == Settled(old(Contents()), open[..k], env) && Valid(Contents())
      {
        assert open[..k + 1][..k] == open[..k];
        var how := Settling(open[k], env);
        if how.Some? {
          var _ := CloseBatch(open[k].job, how.value, env.now, []);
        }
      }
      assert open[..|open|] == open;
      stillOpen := OpenBatches(batches) != [];
    }

    /** One scheduler tick. */
    method SubmitNext(env: Env) returns (report: Report)
      requires Valid(Contents()) && NewJob(Contents(), env)
      modifies this
      ensures Contents() == Ticked(old(Contents()), env) && Valid(Contents())
      ensures report.ReportOff? <==> env.off
      ensures !env.off ==> IsReport(Settled(old(Contents()), OpenBatches(old(batches)), env), env, report)
      ensures report.ReportSent? ==> Sends(env, report)
      ensures report.ReportCapped? ==> Submitted(batches, env.day) == DAILY_CAP
    {
      TickKeepsValid(Contents(), env);
      if env.off { return ReportOff; }
      SettleKeepsValid(Contents(), OpenBatches(batches), env);
      SettledNewJob(Contents(), env);
      var stillOpen := SettleExpiredLeases(env);
      if stillOpen { return ReportBusy(OpenBatches(batches)[0].job); }
      report := Act(env);
    }

    method Act(env: Env) returns (report: Report)
      requires Valid(Contents()) && Open(Contents()).None? && NewJob(Contents(), env) && !env.off
      modifies this
      ensures Contents() == Acted(old(Contents()), env) && IsReport(old(Contents()), env, report)
      ensures report.ReportSent? ==> Sends(env, report)
      ensures report.ReportCapped? ==> Submitted(batches, env.day) == DAILY_CAP
    {
      if PrioritiesAllowed(env.level) == {} { return ReportHeld; }
      var sent := Submitted(batches, env.day);
      if sent >= DAILY_CAP {
        report := DeferForTheDay(env);
        return;
      }
      report := SendNext(env, Least(BATCH_SIZE, DAILY_CAP - sent));
    }

    /** At the cap: what is queued waits for another day, and is named. */
    method DeferForTheDay(env: Env) returns (report: Report)
      requires Open(Contents()).None? && !env.level.HoldNew? && Submitted(batches, env.day) >= DAILY_CAP
      modifies this`items
      ensures Contents() == Acted(old(Contents()), env) && items == DeferredAll(old(items), env.day)
      ensures report.ReportCapped? && IsReport(old(Contents()), env, report)
    {
      var deferred := Defer(env.day);
      report := ReportCapped(deferred);
    }

    method SendNext(env: Env, room: nat) returns (report: Report)
      requires Valid(Contents()) && NewJob(Contents(), env) && CanSend(Contents(), env)
      requires room == Least(BATCH_SIZE, DAILY_CAP - Submitted(batches, env.day))
      modifies this
      ensures Contents() == Acted(old(Contents()), env) && IsReport(old(Contents()), env, report) && !report.ReportCapped?
      ensures report.ReportSent? ==> Sends(env, report)
    {
      var batch := NextBatch(Contents(), PrioritiesAllowed(env.level), room);
      NextBatchIsABatch(Contents(), PrioritiesAllowed(env.level), room);
      NoBatchMeansNoWork(Contents(), env, room);
      if batch == [] { return ReportIdle; }
      if env.submit.None? { return ReportRefused; }
      Lease(env.submit.value, batch, env);
      report := ReportSent(env.submit.value, |batch|);
    }

    /** The report names the batch now in flight. */
    ghost predicate Sends(env: Env, report: Report)
      requires report.ReportSent?
      reads this
    {
      && env.submit == Some(report.job)
      && Open(Contents()).Some? && Open(Contents()).value.job == report.job && Open(Contents()).value.size == report.size
    }

    method Lease(job: nat, batch: seq<Item>, env: Env)
      requires BatchesOk(batches) && Open(Contents()).None? && forall b | b in batches :: b.job != job
      requires batch != [] && |batch| <= BATCH_SIZE && Submitted(batches, env.day) + |batch| <= DAILY_CAP
      requires IsBatch(Contents(), PrioritiesAllowed(env.level), |batch|, batch)
      modifies this
      ensures Contents() == LeaseBatch(old(Contents()), job, batch, env)
      ensures Open(Contents()).Some? && Open(Contents()).value.job == job && Open(Contents()).value.size == |batch|
    {
      LeaseKeepsBatches(Contents(), job, batch, PrioritiesAllowed(env.level), env);
      var ids := Ids(batch);
      batches := batches + [Batch(job, batch[0].lane, RegionOf(batch[0]), ids, |batch|, env.day, env.now, None)];
      leases := leases + map l | l in ids :: job;
      items := LeasedAll(items, batch, job);
    }

    method Defer(day: int) returns (deferred: seq<ListingId>)
      modifies this`items
      ensures items == DeferredAll(old(items), day)
      ensures forall l :: l in deferred <==>
                exists i :: i in old(items) && i.listing == l && i.status.Queued? && i.lane in OPEN_LANES
    {
      deferred := [];
      for k := 0 to |items|
        invariant |items| == |old(items)|
        invariant items[..k] == DeferredAll(old(items), day)[..k] && items[k..] == old(items)[k..]
        invariant forall l :: l in deferred <==>
                    exists i :: i in old(items)[..k] && i.listing == l && i.status.Queued? && i.lane in OPEN_LANES
      {
        assert old(items)[..k + 1] == old(items)[..k] + [old(items)[k]];
        assert items[k] == items[k..][0] == old(items)[k..][0];
        if items[k].status.Queued? && items[k].lane in OPEN_LANES {
          deferred := deferred + [items[k].listing];
          items := items[k := items[k].(status := Deferred, deferredOn := Some(day))];
        }
      }
      assert old(items)[..|old(items)|] == old(items);
    }
  }
}
