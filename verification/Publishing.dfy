/**
 * Publishing events (packages/transport): grouping by task, the in-memory publisher's de-duplication, and the
 * Trigger.dev publisher's chunked calls, any of which may fail half-way and be retried.
 */
module Publishing {
  import opened Common

  /** `publishBatchLimit` (packages/config/src/transport.ts). */
  const PUBLISH_BATCH_LIMIT: nat := 500

  /** `task` names the handler queue of the envelope's type; `body` tells apart envelopes of one key. */
  datatype Envelope = Envelope(task: string, key: string, body: int)

  /** What a run is started under: one task, one idempotency key. */
  datatype Slot = Slot(task: string, key: string)

  function SlotOf(e: Envelope): Slot {
    Slot(e.task, e.key)
  }

  function Slots(es: seq<Envelope>): set<Slot> {
    if es == [] then {} else Slots(es[..|es| - 1]) + {SlotOf(es[|es| - 1])}
  }

  lemma {:induction false} SlotsHold(es: seq<Envelope>, s: Slot)
    ensures s in Slots(es) <==> exists e :: e in es && SlotOf(e) == s
  {
    if es != [] {
      var init, last := es[..|es| - 1], es[|es| - 1];
      SlotsHold(init, s);
      assert es == init + [last] && last in es;
      if s in Slots(init) {
        var e :| e in init && SlotOf(e) == s;
        assert e in es;
      }
      if e :| e in es && SlotOf(e) == s { assert e in init || e == last; }
    }
  }

  lemma SameSlots(xs: seq<Envelope>, ys: seq<Envelope>)
    requires forall e :: e in xs <==> e in ys
    ensures Slots(xs) == Slots(ys)
  {
    forall s ensures s in Slots(xs) <==> s in Slots(ys) {
      SlotsHold(xs, s);
      SlotsHold(ys, s);
    }
  }

  /** Appending one envelope, as every loop over envelopes does. */
  lemma Append(es: seq<Envelope>, e: Envelope)
    ensures (es + [e])[..|es + [e]| - 1] == es
  {
  }

  // ------------------------------------------------------------------------------------------
  // Grouping by task
  // ------------------------------------------------------------------------------------------

  function OfTask(es: seq<Envelope>, task: string): seq<Envelope> {
    if es == [] then [] else
      var init, last := OfTask(es[..|es| - 1], task), es[|es| - 1];
      if last.task == task then init + [last] else init
  }

  function Tasks(es: seq<Envelope>): seq<string> {
    seq(|es|, (i: nat) requires i < |es| => es[i].task)
  }

  function TaskOrder(es: seq<Envelope>): seq<string> {
    Dedup(Tasks(es))
  }

  method ByTask(envelopes: seq<Envelope>) returns (order: seq<string>, groups: map<string, seq<Envelope>>)
    ensures order == TaskOrder(envelopes)
    ensures forall t :: t in groups <==> t in order
    ensures forall t | t in order :: groups[t] == OfTask(envelopes, t) && groups[t] != []
  {
    order, groups := [], map[];
    for i := 0 to |envelopes|
      invariant order == TaskOrder(envelopes[..i])
      invariant forall t :: t in groups <==> t in order
      invariant forall t | t in order :: groups[t] == OfTask(envelopes[..i], t) && groups[t] != []
      invariant forall t | t !in order :: OfTask(envelopes[..i], t) == []
    {
      var e := envelopes[i];
      OneMore(envelopes, i);
      if e.task in groups {
        groups := groups[e.task := groups[e.task] + [e]];
      } else {
        order, groups := order + [e.task], groups[e.task := [e]];
      }
    }
    assert envelopes[..|envelopes|] == envelopes;
  }

  lemma OneMore(es: seq<Envelope>, i: nat)
    requires i < |es|
    ensures forall t :: OfTask(es[..i + 1], t) == if es[i].task == t then OfTask(es[..i], t) + [es[i]] else OfTask(es[..i], t)
    ensures TaskOrder(es[..i + 1]) ==
      if es[i].task in TaskOrder(es[..i]) then TaskOrder(es[..i]) else TaskOrder(es[..i]) + [es[i].task]
  {
    assert es[..i + 1][..i] == es[..i];
    assert Tasks(es[..i + 1])[..i] == Tasks(es[..i]);
  }

  function Flatten(es: seq<Envelope>, order: seq<string>): seq<Envelope> {
    if order == [] then [] else Flatten(es, order[..|order| - 1]) + OfTask(es, order[|order| - 1])
  }

  /** The envelopes in publish order: task by task, in order of first appearance. */
  function Flat(es: seq<Envelope>): seq<Envelope> {
    Flatten(es, TaskOrder(es))
  }

  lemma {:induction false} OfTaskCounts(es: seq<Envelope>, task: string, e: Envelope)
    ensures multiset(OfTask(es, task))[e] == if e.task == task then multiset(es)[e] else 0
  {
    if es != [] {
      OfTaskCounts(es[..|es| - 1], task, e);
      assert es == es[..|es| - 1] + [es[|es| - 1]];
    }
  }

  lemma {:induction false} FlattenCounts(es: seq<Envelope>, order: seq<string>, e: Envelope)
    requires Distinct(order)
    ensures multiset(Flatten(es, order))[e] == if e.task in order then multiset(es)[e] else 0
  {
    if order != [] {
      var init, last := order[..|order| - 1], order[|order| - 1];
      LastIsNew(order);
      FlattenCounts(es, init, e);
      OfTaskCounts(es, last, e);
    }
  }

  /** Grouping loses nothing and adds nothing. */
  lemma FlatIsAPermutation(es: seq<Envelope>)
    ensures multiset(Flat(es)) == multiset(es)
    ensures Slots(Flat(es)) == Slots(es)
  {
    DedupKeeps(Tasks(es));
    forall e ensures multiset(Flat(es))[e] == multiset(es)[e] {
      FlattenCounts(es, TaskOrder(es), e);
      if e in es {
        var i :| 0 <= i < |es| && es[i] == e;
        assert Tasks(es)[i] == e.task;
      }
    }
    assert forall e :: e in es <==> e in multiset(es);
    assert forall e :: e in Flat(es) <==> e in multiset(Flat(es));
    SameSlots(Flat(es), es);
  }

  lemma {:induction false} OfTaskAppend(xs: seq<Envelope>, ys: seq<Envelope>, task: string)
    ensures OfTask(xs + ys, task) == OfTask(xs, task) + OfTask(ys, task)
  {
    if ys == [] {
      assert xs + ys == xs;
    } else {
      var init, last := ys[..|ys| - 1], ys[|ys| - 1];
      assert (xs + ys)[..|xs + ys| - 1] == xs + init;
      OfTaskAppend(xs, init, task);
    }
  }

  lemma {:induction false} OfTaskTwice(es: seq<Envelope>, task: string, other: string)
    ensures OfTask(OfTask(es, task), other) == if task == other then OfTask(es, task) else []
  {
    if es != [] {
      OfTaskTwice(es[..|es| - 1], task, other);
      OfTaskAppend(OfTask(es[..|es| - 1], task), [es[|es| - 1]], other);
      assert [es[|es| - 1]][..0] == [];
    }
  }

  lemma {:induction false} FlattenOfTask(es: seq<Envelope>, order: seq<string>, task: string)
    requires Distinct(order)
    ensures OfTask(Flatten(es, order), task) == if task in order then OfTask(es, task) else []
  {
    if order != [] {
      var init, last := order[..|order| - 1], order[|order| - 1];
      LastIsNew(order);
      FlattenOfTask(es, init, task);
      OfTaskAppend(Flatten(es, init), OfTask(es, last), task);
      OfTaskTwice(es, last, task);
    }
  }

  lemma {:induction false} NoTaskNoEnvelopes(es: seq<Envelope>, task: string)
    requires forall e | e in es :: e.task != task
    ensures OfTask(es, task) == []
  {
    if es != [] { NoTaskNoEnvelopes(es[..|es| - 1], task); }
  }

  /** Each task sees its envelopes in the order they were given. */
  lemma FlatKeepsEachTasksOrder(es: seq<Envelope>, task: string)
    ensures OfTask(Flat(es), task) == OfTask(es, task)
  {
    DedupKeeps(Tasks(es));
    FlattenOfTask(es, TaskOrder(es), task);
    if task !in TaskOrder(es) {
      forall e | e in es ensures e.task != task {
        var i :| 0 <= i < |es| && es[i] == e;
        assert Tasks(es)[i] == e.task;
      }
      NoTaskNoEnvelopes(es, task);
    }
  }

  // ------------------------------------------------------------------------------------------
  // The in-memory publisher
  // ------------------------------------------------------------------------------------------

  /** The envelopes whose slot is new, given the slots already seen. */
  function Fresh(seen: set<Slot>, es: seq<Envelope>): seq<Envelope> {
    if es == [] then [] else
      var init, last := es[..|es| - 1], es[|es| - 1];
      if SlotOf(last) in seen + Slots(init) then Fresh(seen, init) else Fresh(seen, init) + [last]
  }

  function Repeats(seen: set<Slot>, es: seq<Envelope>): seq<Envelope> {
    if es == [] then [] else
      var init, last := es[..|es| - 1], es[|es| - 1];
      if SlotOf(last) in seen + Slots(init) then Repeats(seen, init) + [last] else Repeats(seen, init)
  }

  ghost predicate SlotsDistinct(es: seq<Envelope>) {
    forall i, j | 0 <= i < j < |es| :: SlotOf(es[i]) != SlotOf(es[j])
  }

  lemma {:induction false} FreshAndRepeats(seen: set<Slot>, es: seq<Envelope>)
    ensures multiset(Fresh(seen, es)) + multiset(Repeats(seen, es)) == multiset(es)
  {
    if es != [] {
      FreshAndRepeats(seen, es[..|es| - 1]);
      assert es == es[..|es| - 1] + [es[|es| - 1]];
    }
  }

  lemma SlotsAppend(es: seq<Envelope>, e: Envelope)
    ensures Slots(es + [e]) == Slots(es) + {SlotOf(e)}
  {
    Append(es, e);
  }

  /** Exactly the new slots are taken. */
  lemma {:induction false} FreshSlots(seen: set<Slot>, es: seq<Envelope>)
    ensures Slots(Fresh(seen, es)) == Slots(es) - seen
  {
    if es != [] {
      FreshSlots(seen, es[..|es| - 1]);
      SlotsAppend(Fresh(seen, es[..|es| - 1]), es[|es| - 1]);
    }
  }

  /** Each of them once. */
  lemma {:induction false} FreshDistinct(seen: set<Slot>, es: seq<Envelope>)
    ensures SlotsDistinct(Fresh(seen, es))
  {
    if es != [] {
      var init, last := es[..|es| - 1], es[|es| - 1];
      FreshDistinct(seen, init);
      FreshSlots(seen, init);
      if SlotOf(last) !in seen + Slots(init) { OneMoreDistinct(Fresh(seen, init), last); }
    }
  }

  lemma OneMoreDistinct(es: seq<Envelope>, e: Envelope)
    requires SlotsDistinct(es) && SlotOf(e) !in Slots(es)
    ensures SlotsDistinct(es + [e])
  {
    forall i | 0 <= i < |es| ensures SlotOf(es[i]) != SlotOf(e) {
      SlotsHold(es, SlotOf(es[i]));
    }
  }

  /** Of the envelopes of one slot, the first is the one published. */
  lemma {:induction false} TheFirstOfASlotIsPublished(seen: set<Slot>, es: seq<Envelope>, i: nat)
    requires i < |es| && SlotOf(es[i]) !in seen && forall j | 0 <= j < i :: SlotOf(es[j]) != SlotOf(es[i])
    ensures es[i] in Fresh(seen, es)
  {
    var init := es[..|es| - 1];
    if i < |es| - 1 {
      TheFirstOfASlotIsPublished(seen, init, i);
    } else {
      SlotsHold(init, SlotOf(es[i]));
    }
  }

  class MemoryPublisher {
    var published: seq<Envelope>
    var duplicates: seq<Envelope>
    var seen: set<Slot>

    ghost predicate Valid()
      reads this
    {
      seen == Slots(published) && SlotsDistinct(published)
    }

    constructor ()
      ensures Valid() && published == [] && duplicates == []
    {
      published, duplicates, seen := [], [], {};
    }

    method Publish(envelopes: seq<Envelope>)
      requires Valid()
      modifies this
      ensures Valid() && seen == old(seen) + Slots(envelopes)
      ensures published == old(published) + Fresh(old(seen), Flat(envelopes))
      ensures duplicates == old(duplicates) + Repeats(old(seen), Flat(envelopes))
    {
      var order, groups := ByTask(envelopes);
      for t := 0 to |order|
        invariant Valid() && Taken(old(seen), old(published), old(duplicates), Flatten(envelopes, order[..t]))
      {
        assert order[..t + 1][..t] == order[..t];
        PublishGroup(groups[order[t]], old(seen), old(published), old(duplicates), Flatten(envelopes, order[..t]));
      }
      assert order[..|order|] == order;
      FlatIsAPermutation(envelopes);
    }

    method PublishGroup(group: seq<Envelope>, ghost seen0: set<Slot>, ghost published0: seq<Envelope>,
        ghost duplicates0: seq<Envelope>, ghost flat: seq<Envelope>)
      requires Valid() && Taken(seen0, published0, duplicates0, flat)
      modifies this
      ensures Valid() && Taken(seen0, published0, duplicates0, flat + group)
    {
      assert flat + group[..0] == flat;
      for i := 0 to |group|
        invariant Valid() && Taken(seen0, published0, duplicates0, flat + group[..i])
      {
        assert flat + group[..i + 1] == (flat + group[..i]) + [group[i]];
        Accept(group[i], seen0, published0, duplicates0, flat + group[..i]);
      }
      assert group[..|group|] == group;
    }

    /** One envelope: kept if its slot is new, else counted a duplicate. */
    method Accept(e: Envelope, ghost seen0: set<Slot>, ghost published0: seq<Envelope>, ghost duplicates0: seq<Envelope>,
        ghost flat: seq<Envelope>)
      requires Valid() && Taken(seen0, published0, duplicates0, flat)
      modifies this
      ensures Valid() && Taken(seen0, published0, duplicates0, flat + [e])
    {
      Append(flat, e);
      SlotsAppend(published, e);
      if SlotOf(e) in seen {
        duplicates := duplicates + [e];
      } else {
        OneMoreDistinct(published, e);
        published, seen := published + [e], seen + {SlotOf(e)};
      }
    }

    ghost predicate Taken(seen0: set<Slot>, published0: seq<Envelope>, duplicates0: seq<Envelope>, flat: seq<Envelope>)
      reads this
    {
      && seen == seen0 + Slots(flat)
      && published == published0 + Fresh(seen0, flat)
      && duplicates == duplicates0 + Repeats(seen0, flat)
    }

    method Clear()
      modifies this
      ensures Valid() && published == [] && duplicates == []
    {
      published, duplicates, seen := [], [], {};
    }
  }

  /** What two publishes accept and drop is together a permutation of what they were given. */
  lemma PublishedAndDuplicates(seen: set<Slot>, envelopes: seq<Envelope>)
    ensures multiset(Fresh(seen, Flat(envelopes))) + multiset(Repeats(seen, Flat(envelopes))) == multiset(envelopes)
  {
    FlatIsAPermutation(envelopes);
    FreshAndRepeats(seen, Flat(envelopes));
  }

  // ------------------------------------------------------------------------------------------
  // The Trigger.dev publisher
  // ------------------------------------------------------------------------------------------

  datatype Call = Call(task: string, items: seq<Envelope>)

  /** The runs after starting one per envelope; a slot already started is a no-op. */
  function Start(runs: seq<Slot>, es: seq<Envelope>): seq<Slot> {
    if es == [] then runs else
      var before, slot := Start(runs, es[..|es| - 1]), SlotOf(es[|es| - 1]);
      if slot in before then before else before + [slot]
  }

  function Started(runs: seq<Slot>): set<Slot> {
    set s | s in runs
  }

  lemma {:induction false} StartStarts(runs: seq<Slot>, es: seq<Envelope>)
    ensures Started(Start(runs, es)) == Started(runs) + Slots(es)
    ensures runs <= Start(runs, es)
    ensures Distinct(runs) ==> Distinct(Start(runs, es))
  {
    if es != [] {
      StartStarts(runs, es[..|es| - 1]);
      var before, slot := Start(runs, es[..|es| - 1]), SlotOf(es[|es| - 1]);
      assert Started(before + [slot]) == Started(before) + {slot};
    }
  }

  lemma {:induction false} StartTwice(runs: seq<Slot>, xs: seq<Envelope>, ys: seq<Envelope>)
    ensures Start(Start(runs, xs), ys) == Start(runs, xs + ys)
  {
    if ys == [] {
      assert xs + ys == xs;
    } else {
      StartTwice(runs, xs, ys[..|ys| - 1]);
      assert (xs + ys)[..|xs + ys| - 1] == xs + ys[..|ys| - 1];
    }
  }

  /** What a failing call may have got through: any part of its items. */
  function Reaching(es: seq<Envelope>, reached: set<Slot>): seq<Envelope> {
    if es == [] then [] else
      var init, last := Reaching(es[..|es| - 1], reached), es[|es| - 1];
      if SlotOf(last) in reached then init + [last] else init
  }

  lemma {:induction false} ReachingSlots(es: seq<Envelope>, reached: set<Slot>)
    ensures Slots(Reaching(es, reached)) == Slots(es) * reached
  {
    if es != [] {
      ReachingSlots(es[..|es| - 1], reached);
      SlotsAppend(Reaching(es[..|es| - 1], reached), es[|es| - 1]);
    }
  }

  function Chunks(es: seq<Envelope>): seq<seq<Envelope>> {
    if es == [] then []
    else if |es| <= PUBLISH_BATCH_LIMIT then [es]
    else [es[..PUBLISH_BATCH_LIMIT]] + Chunks(es[PUBLISH_BATCH_LIMIT..])
  }

  function Joined(chunks: seq<seq<Envelope>>): seq<Envelope> {
    if chunks == [] then [] else chunks[0] + Joined(chunks[1..])
  }

  /** The chunks give the group back, and each is a legal batch. */
  lemma {:induction false} ChunksJoin(es: seq<Envelope>)
    ensures Joined(Chunks(es)) == es
    ensures forall k | 0 <= k < |Chunks(es)| :: 1 <= |Chunks(es)[k]| <= 500
    ensures forall k | 0 <= k < |Chunks(es)| - 1 :: |Chunks(es)[k]| == 500
  {
    if |es| > PUBLISH_BATCH_LIMIT {
      ChunksJoin(es[PUBLISH_BATCH_LIMIT..]);
      assert es == es[..PUBLISH_BATCH_LIMIT] + es[PUBLISH_BATCH_LIMIT..];
    } else if es != [] {
      assert Joined([es]) == es + Joined([]);
    }
  }

  function CallsFor(task: string, chunks: seq<seq<Envelope>>): seq<Call> {
    seq(|chunks|, (k: nat) requires k < |chunks| => Call(task, chunks[k]))
  }

  function PlannedFor(es: seq<Envelope>, order: seq<string>): seq<Call> {
    if order == [] then [] else
      var last := order[|order| - 1];
      PlannedFor(es, order[..|order| - 1]) + CallsFor(last, Chunks(OfTask(es, last)))
  }

  /** The calls of one clean publish. */
  function Planned(es: seq<Envelope>): seq<Call> {
    PlannedFor(es, TaskOrder(es))
  }

  class TriggerPublisher {
    var runs: seq<Slot>
    var calls: seq<Call>
    /** Calls made, counting failed ones. */
    var made: nat

    /** `fault` is the part a failing call got through before it threw. */
    method BatchTrigger(task: string, items: seq<Envelope>, fault: Option<set<Slot>>) returns (ok: bool)
      modifies this
      ensures made == old(made) + 1 && ok == fault.None?
      ensures ok ==> runs == Start(old(runs), items) && calls == old(calls) + [Call(task, items)]
      ensures !ok ==> runs == Start(old(runs), Reaching(items, fault.value)) && calls == old(calls)
    {
      made := made + 1;
      match fault
      case None =>
        runs, calls, ok := Start(runs, items), calls + [Call(task, items)], true;
      case Some(reached) =>
        runs, ok := Start(runs, Reaching(items, reached)), false;
    }

    /** The index loop over one task's group. */
    method PublishGroup(task: string, group: seq<Envelope>, faults: nat -> Option<set<Slot>>) returns (ok: bool)
      modifies this
      ensures ok ==> runs == Start(old(runs), group) && calls == old(calls) + CallsFor(task, Chunks(group))
      ensures !ok ==> Between(old(runs), runs, Slots(group))
      ensures old(made) <= made && (ok || Faulted(faults, old(made), made))
    {
      ghost var chunked: seq<seq<Envelope>> := [];
      var i := 0;
      ok := true;
      GroupStarts(old(runs), old(calls), task, group);
      while i < |group|
        invariant ok && i <= |group| && old(made) <= made
        invariant InGroup(old(runs), old(calls), task, group, i, chunked, runs, calls)
      {
        var end := if i + PUBLISH_BATCH_LIMIT < |group| then i + PUBLISH_BATCH_LIMIT else |group|;
        ghost var before, callsBefore := runs, calls;
        var fault := faults(made);
        ok := BatchTrigger(task, group[i..end], fault);
        if !ok {
          FaultIsBetween(old(runs), before, group, i, end, fault.value);
          return;
        }
        GroupGoesOn(old(runs), old(calls), task, group, i, end, chunked, before, callsBefore);
        chunked, i := chunked + [group[i..end]], end;
      }
      GroupEnds(old(runs), old(calls), task, group, chunked, runs, calls);
    }

    /** Any call may fail, and the whole publish with it. */
    method Publish(envelopes: seq<Envelope>, faults: nat -> Option<set<Slot>>) returns (ok: bool)
      modifies this
      ensures ok ==> runs == Start(old(runs), Flat(envelopes)) && calls == old(calls) + Planned(envelopes)
      ensures !ok ==> Between(old(runs), runs, Slots(envelopes))
      ensures ok || Faulted(faults, old(made), made)
    {
      var order, groups := ByTask(envelopes);
      ok := true;
      for t := 0 to |order|
        invariant ok && old(made) <= made && UpTo(old(runs), old(calls), envelopes, order, t, runs, calls)
      {
        ghost var before := runs;
        ok := PublishGroup(order[t], groups[order[t]], faults);
        if !ok {
          GroupFaultIsBetween(old(runs), before, runs, envelopes, order, t);
          return;
        }
        TaskGoesOn(old(runs), old(calls), envelopes, order, t);
      }
      assert order[..|order|] == order;
    }
  }

  /** The tasks before the `t`-th are published. */
  ghost predicate UpTo(runs0: seq<Slot>, calls0: seq<Call>, es: seq<Envelope>, order: seq<string>, t: nat,
      runs: seq<Slot>, calls: seq<Call>)
    requires t <= |order|
  {
    runs == Start(runs0, Flatten(es, order[..t])) && calls == calls0 + PlannedFor(es, order[..t])
  }

  /** The index loop's state: `group[..i]` is published in the chunks so far. */
  ghost predicate InGroup(runs0: seq<Slot>, calls0: seq<Call>, task: string, group: seq<Envelope>, i: nat,
      chunked: seq<seq<Envelope>>, runs: seq<Slot>, calls: seq<Call>)
    requires i <= |group|
  {
    && chunked + Chunks(group[i..]) == Chunks(group)
    && runs == Start(runs0, group[..i])
    && calls == calls0 + CallsFor(task, chunked)
  }

  lemma GroupStarts(runs0: seq<Slot>, calls0: seq<Call>, task: string, group: seq<Envelope>)
    ensures InGroup(runs0, calls0, task, group, 0, [], runs0, calls0)
  {
    assert group[0..] == group && group[..0] == [];
    assert [] + Chunks(group) == Chunks(group);
    assert calls0 + CallsFor(task, []) == calls0;
  }

  lemma GroupGoesOn(runs0: seq<Slot>, calls0: seq<Call>, task: string, group: seq<Envelope>, i: nat, end: nat,
      chunked: seq<seq<Envelope>>, runs: seq<Slot>, calls: seq<Call>)
    requires i < |group| && end == if i + PUBLISH_BATCH_LIMIT < |group| then i + PUBLISH_BATCH_LIMIT else |group|
    requires InGroup(runs0, calls0, task, group, i, chunked, runs, calls)
    ensures InGroup(runs0, calls0, task, group, end, chunked + [group[i..end]],
              Start(runs, group[i..end]), calls + [Call(task, group[i..end])])
  {
    var items := group[i..end];
    NextChunk(group, i, end);
    StartTwice(runs0, group[..i], items);
    assert group[..i] + items == group[..end];
    assert chunked + ([items] + Chunks(group[end..])) == (chunked + [items]) + Chunks(group[end..]);
    assert CallsFor(task, chunked + [items]) == CallsFor(task, chunked) + [Call(task, items)];
  }

  lemma GroupEnds(runs0: seq<Slot>, calls0: seq<Call>, task: string, group: seq<Envelope>,
      chunked: seq<seq<Envelope>>, runs: seq<Slot>, calls: seq<Call>)
    requires InGroup(runs0, calls0, task, group, |group|, chunked, runs, calls)
    ensures runs == Start(runs0, group) && calls == calls0 + CallsFor(task, Chunks(group))
  {
    assert group[..|group|] == group && group[|group|..] == [];
    assert chunked + [] == chunked;
  }

  lemma TaskGoesOn(runs0: seq<Slot>, calls0: seq<Call>, es: seq<Envelope>, order: seq<string>, t: nat)
    requires t < |order|
    ensures Start(Start(runs0, Flatten(es, order[..t])), OfTask(es, order[t])) == Start(runs0, Flatten(es, order[..t + 1]))
    ensures calls0 + PlannedFor(es, order[..t]) + CallsFor(order[t], Chunks(OfTask(es, order[t])))
         == calls0 + PlannedFor(es, order[..t + 1])
  {
    FlattenNext(es, order, t);
    StartTwice(runs0, Flatten(es, order[..t]), OfTask(es, order[t]));
    PlannedNext(es, order, t);
    var now := CallsFor(order[t], Chunks(OfTask(es, order[t])));
    assert calls0 + PlannedFor(es, order[..t]) + now == calls0 + (PlannedFor(es, order[..t]) + now);
  }

  lemma FlattenNext(es: seq<Envelope>, order: seq<string>, t: nat)
    requires t < |order|
    ensures Flatten(es, order[..t + 1]) == Flatten(es, order[..t]) + OfTask(es, order[t])
  {
    assert order[..t + 1][..t] == order[..t];
  }

  lemma PlannedNext(es: seq<Envelope>, order: seq<string>, t: nat)
    requires t < |order|
    ensures PlannedFor(es, order[..t + 1]) == PlannedFor(es, order[..t]) + CallsFor(order[t], Chunks(OfTask(es, order[t])))
  {
    assert order[..t + 1][..t] == order[..t];
  }

  ghost predicate Faulted(faults: nat -> Option<set<Slot>>, from: nat, to: nat) {
    exists n :: from <= n < to && faults(n).Some?
  }

  /** Nothing already started is lost, and nothing outside `slots` is started; no slot is started twice. */
  ghost predicate Between(before: seq<Slot>, after: seq<Slot>, slots: set<Slot>) {
    && before <= after && Started(after) <= Started(before) + slots
    && (Distinct(before) ==> Distinct(after))
  }

  lemma {:induction false} SlotsConcat(xs: seq<Envelope>, ys: seq<Envelope>)
    ensures Slots(xs + ys) == Slots(xs) + Slots(ys)
  {
    if ys == [] {
      assert xs + ys == xs;
    } else {
      SlotsConcat(xs, ys[..|ys| - 1]);
      assert (xs + ys)[..|xs + ys| - 1] == xs + ys[..|ys| - 1];
    }
  }

  lemma FewerSlots(xs: seq<Envelope>, ys: seq<Envelope>)
    requires forall e | e in xs :: e in ys
    ensures Slots(xs) <= Slots(ys)
  {
    forall s | s in Slots(xs) ensures s in Slots(ys) {
      SlotsHold(xs, s);
      SlotsHold(ys, s);
    }
  }

  lemma FaultIsBetween(start: seq<Slot>, before: seq<Slot>, group: seq<Envelope>, i: nat, end: nat, reached: set<Slot>)
    requires i <= end <= |group| && before == Start(start, group[..i])
    ensures Between(start, Start(before, Reaching(group[i..end], reached)), Slots(group))
  {
    FewerSlots(group[..i], group);
    FewerSlots(group[i..end], group);
    ReachingSlots(group[i..end], reached);
    StartStarts(start, group[..i]);
    StartStarts(before, Reaching(group[i..end], reached));
  }

  lemma GroupFaultIsBetween(start: seq<Slot>, before: seq<Slot>, after: seq<Slot>, es: seq<Envelope>,
      order: seq<string>, t: nat)
    requires t < |order| && order == TaskOrder(es) && before == Start(start, Flatten(es, order[..t]))
    requires Between(before, after, Slots(OfTask(es, order[t])))
    ensures Between(start, after, Slots(es))
  {
    StartStarts(start, Flatten(es, order[..t]));
    FlattenSlots(es, order[..t]);
    OfTaskSlots(es, order[t]);
  }

  lemma {:induction false} OfTaskSlots(es: seq<Envelope>, task: string)
    ensures Slots(OfTask(es, task)) <= Slots(es)
  {
    if es != [] {
      OfTaskSlots(es[..|es| - 1], task);
      SlotsAppend(OfTask(es[..|es| - 1], task), es[|es| - 1]);
    }
  }

  lemma {:induction false} FlattenSlots(es: seq<Envelope>, order: seq<string>)
    ensures Slots(Flatten(es, order)) <= Slots(es)
  {
    if order != [] {
      FlattenSlots(es, order[..|order| - 1]);
      OfTaskSlots(es, order[|order| - 1]);
      SlotsConcat(Flatten(es, order[..|order| - 1]), OfTask(es, order[|order| - 1]));
    }
  }

  lemma NextChunk(group: seq<Envelope>, i: nat, end: nat)
    requires i < |group| && end == if i + PUBLISH_BATCH_LIMIT < |group| then i + PUBLISH_BATCH_LIMIT else |group|
    ensures Chunks(group[i..]) == [group[i..end]] + Chunks(group[end..])
  {
    if end < |group| {
      assert group[i..][..PUBLISH_BATCH_LIMIT] == group[i..end] && group[i..][PUBLISH_BATCH_LIMIT..] == group[end..];
    } else {
      assert group[i..] == group[i..end];
    }
  }

  // ------------------------------------------------------------------------------------------
  // Retrying a publish
  // ------------------------------------------------------------------------------------------

  /** Any number of failed publishes, each of at most the slots of `es`. */
  ghost predicate FailedAttempts(logs: seq<seq<Slot>>, es: seq<Envelope>) {
    |logs| > 0 && forall i | 0 <= i < |logs| - 1 :: Between(logs[i], logs[i + 1], Slots(es))
  }

  lemma {:induction false} FailuresStayBetween(logs: seq<seq<Slot>>, es: seq<Envelope>)
    requires FailedAttempts(logs, es)
    ensures Between(logs[0], logs[|logs| - 1], Slots(es))
  {
    if |logs| > 1 {
      var init := logs[..|logs| - 1];
      FailuresStayBetween(init, es);
      assert Between(logs[|logs| - 2], logs[|logs| - 1], Slots(es));
    }
  }

  /** Failed attempts and then a whole publish start what one clean publish starts, each once. */
  lemma RetriedPublishIsOnePublish(logs: seq<seq<Slot>>, es: seq<Envelope>)
    requires FailedAttempts(logs, es) && Distinct(logs[0])
    ensures var last := Start(logs[|logs| - 1], Flat(es));
      && Started(last) == Started(Start(logs[0], Flat(es))) == Started(logs[0]) + Slots(es)
      && Distinct(last) && logs[0] <= last
  {
    FailuresStayBetween(logs, es);
    StartStarts(logs[|logs| - 1], Flat(es));
    StartStarts(logs[0], Flat(es));
    FlatIsAPermutation(es);
  }
}
