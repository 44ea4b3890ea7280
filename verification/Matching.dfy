/**
 * Match history (services/spec-match): one row per distinct evaluation of a want and a listing, the latest by time being
 * the one in force. Inputs that return to an earlier state make that row the latest again.
 */
module Matching {
  import opened Common

  datatype Verdict = Match | NoMatch | NotStated

  /** All that the input hash covers, the verdict among it; the hash is taken to be injective. */
  datatype Content = Content(inputs: string, verdict: Verdict)

  datatype Id = Id(text: string)

  datatype Pair = Pair(want: Id, listing: Id)

  datatype Evaluation = Evaluation(relevant: bool, content: Content, rule: string)

  /** A stored match; `at` is `matched_at`. */
  datatype Row = Row(id: nat, pair: Pair, content: Content, rule: string, at: int)

  /** `next` is above every id given out. */
  datatype Table = Table(rows: seq<Row>, next: nat)

  predicate Newer(a: Row, b: Row) {
    a.at > b.at || (a.at == b.at && a.id > b.id)
  }

  /** `selectLatest`: the pair's row with the latest time, then the latest id. */
  function Latest(rows: seq<Row>, p: Pair): Option<Row> {
    if rows == [] then None else
      var best, last := Latest(rows[..|rows| - 1], p), rows[|rows| - 1];
      if last.pair == p && (best.None? || Newer(last, best.value)) then Some(last) else best
  }

  function FindKey(rows: seq<Row>, p: Pair, content: Content, rule: string): (at: Option<nat>)
    ensures at.Some? ==> at.value < |rows| && HasKey(rows[at.value], p, content, rule)
    ensures at.None? ==> forall r | r in rows :: !HasKey(r, p, content, rule)
  {
    if rows == [] then None
    else if HasKey(rows[|rows| - 1], p, content, rule) then Some(|rows| - 1)
    else FindKey(rows[..|rows| - 1], p, content, rule)
  }

  predicate HasKey(r: Row, p: Pair, content: Content, rule: string) {
    r.pair == p && r.content == content && r.rule == rule
  }

  ghost predicate Valid(t: Table) {
    && (forall r | r in t.rows :: r.id < t.next)
    && (forall j, k | 0 <= j < k < |t.rows| :: t.rows[j].id != t.rows[k].id)
    && (forall j, k | 0 <= j < k < |t.rows| ::
          !HasKey(t.rows[k], t.rows[j].pair, t.rows[j].content, t.rows[j].rule))
  }

  /** Nothing to add: no row for an irrelevant pair, or the latest row already says this. */
  predicate Settled(before: Option<Row>, e: Evaluation) {
    if before.None? then !e.relevant else before.value.content == e.content && before.value.rule == e.rule
  }

  /** The row that a write inserts or touches. */
  function Written(t: Table, p: Pair, e: Evaluation, now: int): Row {
    var at := FindKey(t.rows, p, e.content, e.rule);
    if at.Some? then t.rows[at.value].(at := now) else Row(t.next, p, e.content, e.rule, now)
  }

  /** Insert, or touch the row that is already there. */
  function Stored(t: Table, p: Pair, e: Evaluation, now: int): Table {
    var at := FindKey(t.rows, p, e.content, e.rule);
    if at.Some? then t.(rows := t.rows[at.value := Written(t, p, e, now)])
    else Table(t.rows + [Written(t, p, e, now)], t.next + 1)
  }

  function Processed(t: Table, p: Pair, e: Evaluation, now: int): Table {
    if Settled(Latest(t.rows, p), e) then t else Stored(t, p, e, now)
  }

  /** The match announced, if the verdict is new for the pair. */
  function Announced(t: Table, p: Pair, e: Evaluation, now: int): Option<nat> {
    var before := Latest(t.rows, p);
    if Settled(before, e) || (before.Some? && before.value.content.verdict == e.content.verdict) then None
    else Some(Written(t, p, e, now).id)
  }

  // ------------------------------------------------------------------------------------------
  // The latest row
  // ------------------------------------------------------------------------------------------

  lemma {:induction false} LatestIs(rows: seq<Row>, p: Pair)
    ensures Latest(rows, p).Some? ==> Latest(rows, p).value in rows && Latest(rows, p).value.pair == p
    ensures forall r | r in rows && r.pair == p ::
              Latest(rows, p).Some? && (r == Latest(rows, p).value || !Newer(r, Latest(rows, p).value))
  {
    if rows != [] {
      LatestIs(rows[..|rows| - 1], p);
      assert rows == rows[..|rows| - 1] + [rows[|rows| - 1]];
    }
  }

  /** A row that nothing else in the pair is newer than, or ties with, is the latest. */
  lemma LatestIsUnique(rows: seq<Row>, p: Pair, row: Row)
    requires row in rows && row.pair == p
    requires forall r | r in rows && r.pair == p && r != row :: Newer(row, r)
    ensures Latest(rows, p) == Some(row)
  {
    LatestIs(rows, p);
  }

  lemma StoreKeepsValid(t: Table, p: Pair, e: Evaluation, now: int)
    requires Valid(t)
    ensures Valid(Stored(t, p, e, now)) && Written(t, p, e, now) in Stored(t, p, e, now).rows
    ensures HasKey(Written(t, p, e, now), p, e.content, e.rule) && Written(t, p, e, now).at == now
  {
    var at := FindKey(t.rows, p, e.content, e.rule);
    var after := Stored(t, p, e, now);
    if at.Some? {
      assert after.rows[at.value] == Written(t, p, e, now);
      assert t.rows[at.value] in t.rows;
      forall r | r in after.rows ensures r.id < after.next {
        var k :| 0 <= k < |after.rows| && after.rows[k] == r;
        assert t.rows[k] in t.rows;
      }
    } else {
      assert after.rows[|t.rows|] == Written(t, p, e, now);
      forall j | 0 <= j < |t.rows| ensures t.rows[j].id != t.next && !HasKey(t.rows[j], p, e.content, e.rule) {
        assert t.rows[j] in t.rows;
      }
    }
  }

  lemma ProcessKeepsValid(t: Table, p: Pair, e: Evaluation, now: int)
    requires Valid(t)
    ensures Valid(Processed(t, p, e, now))
  {
    StoreKeepsValid(t, p, e, now);
  }

  /** The rows of the pair after a write: the written one, and those of before under another key. */
  lemma StoredRows(t: Table, p: Pair, e: Evaluation, now: int, r: Row)
    requires Valid(t) && r in Stored(t, p, e, now).rows
    ensures r == Written(t, p, e, now) || (r in t.rows && r.id != Written(t, p, e, now).id)
  {
    var at := FindKey(t.rows, p, e.content, e.rule);
    var after := Stored(t, p, e, now);
    var k :| 0 <= k < |after.rows| && after.rows[k] == r;
    if k < |t.rows| { assert t.rows[k] in t.rows; }
  }

  lemma StoredKeepsOthers(t: Table, p: Pair, e: Evaluation, now: int, r: Row)
    requires Valid(t) && r in t.rows && !HasKey(r, p, e.content, e.rule)
    ensures r in Stored(t, p, e, now).rows
  {
    var k :| 0 <= k < |t.rows| && t.rows[k] == r;
    assert Stored(t, p, e, now).rows[k] == r;
  }

  /**
   * The written row becomes the pair's latest if and only if it comes after the row that was: at a later time, or at
   * the same time with a higher id.
   */
  lemma WriteIsLatest(t: Table, p: Pair, e: Evaluation, now: int)
    requires Valid(t) && !Settled(Latest(t.rows, p), e)
    ensures var before, row := Latest(t.rows, p), Written(t, p, e, now);
      Latest(Stored(t, p, e, now).rows, p) == Some(row) <==> before.None? || Newer(row, before.value)
  {
    var before, row, after := Latest(t.rows, p), Written(t, p, e, now), Stored(t, p, e, now);
    StoreKeepsValid(t, p, e, now);
    LatestIs(t.rows, p);
    LatestIs(after.rows, p);
    if before.None? || Newer(row, before.value) {
      forall r | r in after.rows && r.pair == p && r != row ensures Newer(row, r) {
        StoredRows(t, p, e, now, r);
        assert r in t.rows;
      }
      LatestIsUnique(after.rows, p, row);
    } else {
      StoredKeepsOthers(t, p, e, now, before.value);
    }
  }

  lemma {:induction false} OtherPairsLatest(rows: seq<Row>, rows': seq<Row>, k: nat, row: Row, p: Pair)
    requires k < |rows| && rows' == rows[k := row] && row.pair == rows[k].pair != p
    ensures Latest(rows', p) == Latest(rows, p)
  {
    if k == |rows| - 1 {
      assert rows'[..|rows'| - 1] == rows[..|rows| - 1];
    } else {
      OtherPairsLatest(rows[..|rows| - 1], rows'[..|rows'| - 1], k, row, p);
    }
  }

  /** Processing one pair leaves every other pair's latest row alone. */
  lemma OtherPairsAreUntouched(t: Table, p: Pair, e: Evaluation, now: int, other: Pair)
    requires other != p
    ensures Latest(Processed(t, p, e, now).rows, other) == Latest(t.rows, other)
  {
    if !Settled(Latest(t.rows, p), e) {
      var at := FindKey(t.rows, p, e.content, e.rule);
      if at.Some? {
        OtherPairsLatest(t.rows, Stored(t, p, e, now).rows, at.value, Written(t, p, e, now), other);
      } else {
        assert Stored(t, p, e, now).rows[..|t.rows|] == t.rows;
      }
    }
  }

  // ------------------------------------------------------------------------------------------
  // Whole histories
  // ------------------------------------------------------------------------------------------

  /** One evaluation of one pair, at the batch's time. */
  datatype Event = Event(pair: Pair, e: Evaluation, at: int)

  function After(events: seq<Event>): Table {
    if events == [] then Table([], 0) else
      var last := events[|events| - 1];
      Processed(After(events[..|events| - 1]), last.pair, last.e, last.at)
  }

  /** The last evaluation of a pair, from its first relevant one on. */
  function InForce(events: seq<Event>, p: Pair): Option<Evaluation> {
    if events == [] then None else
      var before, last := InForce(events[..|events| - 1], p), events[|events| - 1];
      if last.pair != p || (before.None? && !last.e.relevant) then before else Some(last.e)
  }

  function VerdictOf(e: Option<Evaluation>): Option<Verdict> {
    if e.None? then None else Some(e.value.content.verdict)
  }

  /** Each pair is evaluated at increasing times. */
  ghost predicate Clock(events: seq<Event>) {
    forall i, j | 0 <= i < j < |events| && events[i].pair == events[j].pair :: events[i].at < events[j].at
  }

  ghost predicate Says(row: Option<Row>, e: Option<Evaluation>) {
    && (row.None? <==> e.None?)
    && (row.Some? ==> row.value.content == e.value.content && row.value.rule == e.value.rule)
  }

  /** The latest row's time is that of some event of the pair. */
  ghost predicate Dated(row: Option<Row>, events: seq<Event>, p: Pair) {
    row.Some? ==> exists i :: 0 <= i < |events| && events[i].pair == p && events[i].at == row.value.at
  }

  /**
   * However often inputs change and change back, the latest stored row of a pair is the evaluation of the last inputs
   * processed, and there is none before the first relevant one.
   */
  lemma {:induction false} LatestIsTheLastEvaluation(events: seq<Event>, p: Pair)
    requires Clock(events)
    ensures Valid(After(events))
    ensures Says(Latest(After(events).rows, p), InForce(events, p)) && Dated(Latest(After(events).rows, p), events, p)
  {
    if events != [] {
      var init, last := events[..|events| - 1], events[|events| - 1];
      var t := After(init);
      LatestIsTheLastEvaluation(init, p);
      ProcessKeepsValid(t, last.pair, last.e, last.at);
      DatedStays(Latest(t.rows, p), init, last, p);
      if last.pair != p {
        OtherPairsAreUntouched(t, last.pair, last.e, last.at, p);
      } else if !Settled(Latest(t.rows, p), last.e) {
        StoreKeepsValid(t, p, last.e, last.at);
        WriteIsLatest(t, p, last.e, last.at);
        LatestIsEarlier(Latest(t.rows, p), events, p);
        assert events[|events| - 1] == last;
      }
    }
  }

  lemma DatedStays(row: Option<Row>, init: seq<Event>, last: Event, p: Pair)
    requires Dated(row, init, p)
    ensures Dated(row, init + [last], p)
  {
    if row.Some? {
      var i :| 0 <= i < |init| && init[i].pair == p && init[i].at == row.value.at;
      assert (init + [last])[i] == init[i];
    }
  }

  lemma LatestIsEarlier(row: Option<Row>, events: seq<Event>, p: Pair)
    requires events != [] && Clock(events) && events[|events| - 1].pair == p && Dated(row, events[..|events| - 1], p)
    ensures row.Some? ==> row.value.at < events[|events| - 1].at
  {
    if row.Some? {
      var init := events[..|events| - 1];
      var i :| 0 <= i < |init| && init[i].pair == p && init[i].at == row.value.at;
      assert events[i] == init[i];
    }
  }

  /**
   * A tie in time: one pair evaluated three times at one instant, the last as the first. The return is announced as a
   * match, and the row in force still says there is none.
   */
  lemma TieKeepsTheOther(p: Pair, now: int)
    ensures var match0, none := Content("a", Match), Content("b", NoMatch);
      var first, second := Event(p, Evaluation(true, match0, "s1"), now), Event(p, Evaluation(true, none, "s1"), now);
      && After([first, second, first]) == Table([Row(0, p, match0, "s1", now), Row(1, p, none, "s1", now)], 2)
      && Announced(After([first, second]), p, first.e, now) == Some(0)
      && Latest(After([first, second, first]).rows, p) == Some(Row(1, p, none, "s1", now))
  {
    var match0, none := Content("a", Match), Content("b", NoMatch);
    var first, second := Event(p, Evaluation(true, match0, "s1"), now), Event(p, Evaluation(true, none, "s1"), now);
    var a, b := Row(0, p, match0, "s1", now), Row(1, p, none, "s1", now);
    assert [first][..0] == [] && After([first]) == Table([a], 1);
    TwoRows(p, a, b);
    assert [first, second][..1] == [first] && After([first, second]) == Table([a, b], 2);
    assert [first, second, first][..2] == [first, second] && [a, b][0 := a] == [a, b];
  }

  lemma TwoRows(p: Pair, a: Row, b: Row)
    requires a.pair == p && b.pair == p && Newer(b, a) && a.content != b.content
    ensures Latest([a], p) == Some(a) && FindKey([a], p, b.content, b.rule) == None
    ensures Latest([a, b], p) == Some(b) && FindKey([a, b], p, a.content, a.rule) == Some(0)
  {
    assert [a][..0] == [] && FindKey([a], p, a.content, a.rule) == Some(0);
    assert [a, b][..1] == [a];
  }

  /** A match is announced exactly where the verdict in force for its pair changes, its first verdict included. */
  lemma AnnouncedExactlyAtChanges(events: seq<Event>)
    requires events != [] && Clock(events)
    ensures var init, last := events[..|events| - 1], events[|events| - 1];
      Announced(After(init), last.pair, last.e, last.at).Some?
      <==> VerdictOf(InForce(events, last.pair)) != VerdictOf(InForce(init, last.pair))
  {
    var init, last := events[..|events| - 1], events[|events| - 1];
    LatestIsTheLastEvaluation(init, last.pair);
  }

  /** Processing the same inputs again, at any later time, writes nothing and announces nothing. */
  lemma ReplayWritesNothing(events: seq<Event>, p: Pair, e: Evaluation, now: int)
    requires Clock(events) && (InForce(events, p) == Some(e) || (InForce(events, p).None? && !e.relevant))
    ensures Processed(After(events), p, e, now) == After(events) && Announced(After(events), p, e, now).None?
  {
    LatestIsTheLastEvaluation(events, p);
  }

  // ------------------------------------------------------------------------------------------
  // A batch
  // ------------------------------------------------------------------------------------------

  function ProcessAll(t: Table, pairs: seq<Pair>, evaluate: Pair -> Evaluation, now: int): Table {
    if pairs == [] then t else
      var before, p := ProcessAll(t, pairs[..|pairs| - 1], evaluate, now), pairs[|pairs| - 1];
      Processed(before, p, evaluate(p), now)
  }

  function IdIn(id: Option<nat>): seq<nat> {
    if id.Some? then [id.value] else []
  }

  function AnnouncedAll(t: Table, pairs: seq<Pair>, evaluate: Pair -> Evaluation, now: int): seq<nat> {
    if pairs == [] then [] else
      var init, p := pairs[..|pairs| - 1], pairs[|pairs| - 1];
      var id := Announced(ProcessAll(t, init, evaluate, now), p, evaluate(p), now);
      AnnouncedAll(t, init, evaluate, now) + IdIn(id)
  }

  lemma {:induction false} UnprocessedPairsWait(t: Table, pairs: seq<Pair>, evaluate: Pair -> Evaluation, now: int, p: Pair)
    requires p !in pairs
    ensures Latest(ProcessAll(t, pairs, evaluate, now).rows, p) == Latest(t.rows, p)
  {
    if pairs != [] {
      var init, last := pairs[..|pairs| - 1], pairs[|pairs| - 1];
      assert pairs == init + [last];
      UnprocessedPairsWait(t, init, evaluate, now, p);
      OtherPairsAreUntouched(ProcessAll(t, init, evaluate, now), last, evaluate(last), now, p);
    }
  }

  /** The pairs in the order of the nested loops; a want without an owner is passed over. */
  function PairsOf(wants: seq<Id>, owners: set<Id>, listings: seq<Id>): seq<Pair> {
    if wants == [] then [] else
      var init, last := PairsOf(wants[..|wants| - 1], owners, listings), wants[|wants| - 1];
      if last in owners then init + PairsFor(last, listings) else init
  }

  function PairsFor(want: Id, listings: seq<Id>): seq<Pair> {
    seq(|listings|, (k: nat) requires k < |listings| => Pair(want, listings[k]))
  }

  lemma {:induction false} PairsHold(wants: seq<Id>, owners: set<Id>, listings: seq<Id>)
    ensures forall p :: p in PairsOf(wants, owners, listings)
              <==> p.want in wants && p.want in owners && p.listing in listings
  {
    if wants != [] {
      var init, last := wants[..|wants| - 1], wants[|wants| - 1];
      PairsHold(init, owners, listings);
      assert wants == init + [last];
      forall p ensures p in PairsFor(last, listings) <==> p.want == last && p.listing in listings {
        if p.want == last && p.listing in listings {
          var k :| 0 <= k < |listings| && listings[k] == p.listing;
          assert PairsFor(last, listings)[k] == p;
        }
      }
    }
  }

  lemma NextPair(want: Id, listings: seq<Id>, done: seq<Pair>, k: nat)
    requires Distinct(listings) && k < |listings| && forall p | p in done :: p.want != want
    ensures var pairs := PairsFor(want, listings);
      && listings[k] in listings && pairs[k] !in done + pairs[..k]
      && done + pairs[..k + 1] == (done + pairs[..k]) + [pairs[k]]
  {
  }

  // ------------------------------------------------------------------------------------------
  // Batches as histories
  // ------------------------------------------------------------------------------------------

  /** What one `matchBatch` call is given; `evaluate` is what its inputs say of each pair. */
  datatype Batch = Batch(wants: seq<Id>, owners: set<Id>, listings: seq<Id>, evaluate: Pair -> Evaluation, now: int)

  function PairsIn(b: Batch): seq<Pair> {
    PairsOf(b.wants, b.owners, b.listings)
  }

  function EventsFor(pairs: seq<Pair>, evaluate: Pair -> Evaluation, now: int): seq<Event> {
    seq(|pairs|, (k: nat) requires k < |pairs| => Event(pairs[k], evaluate(pairs[k]), now))
  }

  /** Every evaluation of the batches, in order. */
  function EventsOf(batches: seq<Batch>): seq<Event> {
    if batches == [] then [] else
      var last := batches[|batches| - 1];
      EventsOf(batches[..|batches| - 1]) + EventsFor(PairsIn(last), last.evaluate, last.now)
  }

  ghost predicate DistinctIds(b: Batch) {
    Distinct(b.wants) && Distinct(b.listings)
  }

  /** Batches of distinct ids, each later than any before it that has a pair in common. */
  ghost predicate InTime(batches: seq<Batch>) {
    && (forall b | b in batches :: DistinctIds(b))
    && (forall i, j, p | 0 <= i < j < |batches| && p in PairsIn(batches[i]) && p in PairsIn(batches[j]) ::
          batches[i].now < batches[j].now)
  }

  lemma {:induction false} PairsAreDistinct(wants: seq<Id>, owners: set<Id>, listings: seq<Id>)
    requires Distinct(wants) && Distinct(listings)
    ensures Distinct(PairsOf(wants, owners, listings))
  {
    if wants != [] {
      var init, last := wants[..|wants| - 1], wants[|wants| - 1];
      PairsAreDistinct(init, owners, listings);
      PairsHold(init, owners, listings);
      var before, mine := PairsOf(init, owners, listings), PairsFor(last, listings);
      assert forall i | 0 <= i < |before| :: before[i] in before && before[i].want in init;
      assert forall j | 0 <= j < |mine| :: mine[j].want == last;
      assert last !in init;
    }
  }

  /** A batch is the events of its pairs, one after the other. */
  lemma {:induction false} BatchIsEvents(events: seq<Event>, pairs: seq<Pair>, evaluate: Pair -> Evaluation, now: int)
    ensures ProcessAll(After(events), pairs, evaluate, now) == After(events + EventsFor(pairs, evaluate, now))
  {
    if pairs == [] {
      assert events + [] == events;
    } else {
      var init, p := pairs[..|pairs| - 1], pairs[|pairs| - 1];
      BatchIsEvents(events, init, evaluate, now);
      var all := events + EventsFor(pairs, evaluate, now);
      assert all[..|all| - 1] == events + EventsFor(init, evaluate, now);
    }
  }

  /** Which batch an event is of. */
  lemma {:induction false} EventIsOfABatch(batches: seq<Batch>, k: nat) returns (b: nat)
    requires k < |EventsOf(batches)|
    ensures b < |batches| && EventsOf(batches)[k].at == batches[b].now && EventsOf(batches)[k].pair in PairsIn(batches[b])
  {
    var before := EventsOf(batches[..|batches| - 1]);
    if k < |before| {
      b := EventIsOfABatch(batches[..|batches| - 1], k);
    } else {
      b := |batches| - 1;
      assert PairsIn(batches[b])[k - |before|] in PairsIn(batches[b]);
    }
  }

  /** In time, each pair's evaluations are at increasing times. */
  lemma {:induction false} InTimeIsAClock(batches: seq<Batch>)
    requires InTime(batches)
    ensures Clock(EventsOf(batches))
  {
    if batches != [] {
      var init, last := batches[..|batches| - 1], batches[|batches| - 1];
      assert last in batches && forall b | b in init :: b in batches;
      InTimeIsAClock(init);
      var before, events := EventsOf(init), EventsOf(batches);
      PairsAreDistinct(last.wants, last.owners, last.listings);
      forall i, j | 0 <= i < j < |events| && events[i].pair == events[j].pair ensures events[i].at < events[j].at {
        if i < |before| <= j {
          var b := EventIsOfABatch(init, i);
          assert PairsIn(last)[j - |before|] in PairsIn(last) && batches[b] == init[b];
        }
      }
    }
  }

  /** The table that calls to `matchBatch` leave, one after the other. */
  function AfterBatches(batches: seq<Batch>): Table {
    if batches == [] then Table([], 0) else
      var last := batches[|batches| - 1];
      ProcessAll(AfterBatches(batches[..|batches| - 1]), PairsIn(last), last.evaluate, last.now)
  }

  lemma {:induction false} BatchesAreTheirEvents(batches: seq<Batch>)
    ensures AfterBatches(batches) == After(EventsOf(batches))
  {
    if batches != [] {
      var init, last := batches[..|batches| - 1], batches[|batches| - 1];
      BatchesAreTheirEvents(init);
      BatchIsEvents(EventsOf(init), PairsIn(last), last.evaluate, last.now);
    }
  }

  /** Over any batches in time: the latest row of a pair is what the last batch that had the pair found of it. */
  lemma BatchesLeaveTheLastEvaluation(batches: seq<Batch>, p: Pair)
    requires InTime(batches)
    ensures Says(Latest(AfterBatches(batches).rows, p), InForce(EventsOf(batches), p))
  {
    BatchesAreTheirEvents(batches);
    InTimeIsAClock(batches);
    LatestIsTheLastEvaluation(EventsOf(batches), p);
  }

  /** The matches announced along a history, each exactly where its pair's verdict in force changes. */
  function AnnouncedOver(events: seq<Event>): seq<nat> {
    if events == [] then [] else
      var init, last := events[..|events| - 1], events[|events| - 1];
      var id := Announced(After(init), last.pair, last.e, last.at);
      AnnouncedOver(init) + IdIn(id)
  }

  lemma {:induction false} BatchAnnounces(events: seq<Event>, pairs: seq<Pair>, evaluate: Pair -> Evaluation, now: int)
    ensures AnnouncedOver(events + EventsFor(pairs, evaluate, now))
         == AnnouncedOver(events) + AnnouncedAll(After(events), pairs, evaluate, now)
  {
    if pairs == [] {
      assert events + [] == events;
    } else {
      var init, p := pairs[..|pairs| - 1], pairs[|pairs| - 1];
      var before := events + EventsFor(init, evaluate, now);
      BatchAnnounces(events, init, evaluate, now);
      BatchIsEvents(events, init, evaluate, now);
      LastOfABatch(events, pairs, evaluate, now);
      OneMoreAnnounced(before, Event(p, evaluate(p), now));
    }
  }

  lemma LastOfABatch(events: seq<Event>, pairs: seq<Pair>, evaluate: Pair -> Evaluation, now: int)
    requires pairs != []
    ensures var init, p := pairs[..|pairs| - 1], pairs[|pairs| - 1];
      events + EventsFor(pairs, evaluate, now) == events + EventsFor(init, evaluate, now) + [Event(p, evaluate(p), now)]
  {
  }

  lemma OneMoreAnnounced(events: seq<Event>, e: Event)
    ensures AnnouncedOver(events + [e]) == AnnouncedOver(events) + IdIn(Announced(After(events), e.pair, e.e, e.at))
  {
    assert (events + [e])[..|events|] == events;
  }

  datatype Report = Report(current: nat, written: nat, changed: seq<nat>)

  /** The stored verdict of the pair already has every input of this evaluation. */
  predicate IsCurrent(t: Table, p: Pair, e: Evaluation) {
    var row := Latest(t.rows, p);
    row.Some? && row.value.content == e.content && row.value.rule == e.rule
  }

  /** Of these pairs, how many are already current, and how many are to be written. */
  function CurrentIn(t: Table, pairs: seq<Pair>, evaluate: Pair -> Evaluation): nat {
    if pairs == [] then 0 else
      var p := pairs[|pairs| - 1];
      CurrentIn(t, pairs[..|pairs| - 1], evaluate) + if IsCurrent(t, p, evaluate(p)) then 1 else 0
  }

  function WrittenIn(t: Table, pairs: seq<Pair>, evaluate: Pair -> Evaluation): nat {
    if pairs == [] then 0 else
      var p := pairs[|pairs| - 1];
      WrittenIn(t, pairs[..|pairs| - 1], evaluate)
      + if IsCurrent(t, p, evaluate(p)) || (!evaluate(p).relevant && Latest(t.rows, p).None?) then 0 else 1
  }

  ghost predicate Tallies(report: Report, t: Table, pairs: seq<Pair>, evaluate: Pair -> Evaluation) {
    report.current == CurrentIn(t, pairs, evaluate) && report.written == WrittenIn(t, pairs, evaluate)
  }

  class MatchTable {
    var table: Table

    constructor ()
      ensures table == Table([], 0) && Valid(table)
    {
      table := Table([], 0);
    }

    /** One pair against the latest rows read before the batch. */
    method MatchPair(p: Pair, before: Option<Row>, e: Evaluation, now: int, report: Report) returns (after: Report)
      requires before == Latest(table.rows, p)
      modifies this
      ensures table == Processed(old(table), p, e, now)
      ensures after.changed == report.changed + match Announced(old(table), p, e, now) {
          case Some(id) => [id]
          case None => []
        }
      ensures after.current == report.current + if IsCurrent(old(table), p, e) then 1 else 0
      ensures after.written == report.written
                + if IsCurrent(old(table), p, e) || (!e.relevant && before.None?) then 0 else 1
    {
      after := report;
      if !e.relevant && before.None? { return; }
      if before.Some? && before.value.content == e.content && before.value.rule == e.rule {
        after := after.(current := after.current + 1);
        return;
      }
      var at := FindKey(table.rows, p, e.content, e.rule);
      var row := if at.Some? then table.rows[at.value].(at := now) else Row(table.next, p, e.content, e.rule, now);
      if at.Some? {
        table := table.(rows := table.rows[at.value := row]);
      } else {
        table := Table(table.rows + [row], table.next + 1);
      }
      after := after.(written := after.written + 1);
      if before.None? || before.value.content.verdict != e.content.verdict {
        after := after.(changed := after.changed + [row.id]);
      }
    }

    /** Every owned want against every listing; the latest rows are read once, before any write. */
    method MatchBatch(wants: seq<Id>, owners: set<Id>, listings: seq<Id>, evaluate: Pair -> Evaluation, now: int)
      returns (report: Report)
      requires Distinct(wants) && Distinct(listings)
      modifies this
      ensures table == ProcessAll(old(table), PairsOf(wants, owners, listings), evaluate, now)
      ensures report.changed == AnnouncedAll(old(table), PairsOf(wants, owners, listings), evaluate, now)
      ensures Tallies(report, old(table), PairsOf(wants, owners, listings), evaluate)
    {
      report := Report(0, 0, []);
      var latest := map p | p in PairsOf(wants, owners, listings) :: Latest(table.rows, p);
      for w := 0 to |wants|
        invariant table == ProcessAll(old(table), PairsOf(wants[..w], owners, listings), evaluate, now)
        invariant report.changed == AnnouncedAll(old(table), PairsOf(wants[..w], owners, listings), evaluate, now)
        invariant Tallies(report, old(table), PairsOf(wants[..w], owners, listings), evaluate)
      {
        assert wants[..w + 1][..w] == wants[..w];
        if wants[w] in owners {
          ghost var done := PairsOf(wants[..w], owners, listings);
          PairsHold(wants[..w], owners, listings);
          PairsHold(wants, owners, listings);
          report := MatchWant(wants[w], listings, latest, evaluate, now, report, done, old(table));
        }
      }
      assert wants[..|wants|] == wants;
    }

    /** `matchListings` and `matchWants`: one batch after the other. */
    method MatchBatches(batches: seq<Batch>) returns (changed: seq<nat>)
      requires table == Table([], 0) && InTime(batches)
      modifies this
      ensures table == After(EventsOf(batches)) && changed == AnnouncedOver(EventsOf(batches))
      ensures forall p :: Says(Latest(table.rows, p), InForce(EventsOf(batches), p))
    {
      changed := [];
      for k := 0 to |batches|
        invariant table == After(EventsOf(batches[..k])) && changed == AnnouncedOver(EventsOf(batches[..k]))
      {
        assert batches[..k + 1][..k] == batches[..k];
        var b := batches[k];
        assert b in batches && DistinctIds(b);
        BatchIsEvents(EventsOf(batches[..k]), PairsIn(b), b.evaluate, b.now);
        BatchAnnounces(EventsOf(batches[..k]), PairsIn(b), b.evaluate, b.now);
        var report := MatchBatch(b.wants, b.owners, b.listings, b.evaluate, b.now);
        changed := changed + report.changed;
      }
      assert batches[..|batches|] == batches;
      InTimeIsAClock(batches);
      forall p ensures Says(Latest(table.rows, p), InForce(EventsOf(batches), p)) {
        LatestIsTheLastEvaluation(EventsOf(batches), p);
      }
    }

    method MatchWant(want: Id, listings: seq<Id>, latest: map<Pair, Option<Row>>, evaluate: Pair -> Evaluation,
        now: int, report: Report, ghost done: seq<Pair>, ghost start: Table)
      returns (after: Report)
      requires Distinct(listings) && forall p | p in done :: p.want != want
      requires forall l | l in listings ::
                 Pair(want, l) in latest && latest[Pair(want, l)] == Latest(start.rows, Pair(want, l))
      requires table == ProcessAll(start, done, evaluate, now)
      requires report.changed == AnnouncedAll(start, done, evaluate, now) && Tallies(report, start, done, evaluate)
      modifies this
      ensures table == ProcessAll(start, done + PairsFor(want, listings), evaluate, now)
      ensures after.changed == AnnouncedAll(start, done + PairsFor(want, listings), evaluate, now)
      ensures Tallies(after, start, done + PairsFor(want, listings), evaluate)
    {
      after := report;
      var pairs := PairsFor(want, listings);
      ghost var processed := done;
      for k := 0 to |listings|
        invariant processed == done + pairs[..k]
        invariant table == ProcessAll(start, processed, evaluate, now)
        invariant after.changed == AnnouncedAll(start, processed, evaluate, now) && Tallies(after, start, processed, evaluate)
      {
        NextPair(want, listings, done, k);
        after := MatchNext(pairs[k], latest[pairs[k]], evaluate, now, after, processed, start);
        processed := processed + [pairs[k]];
      }
      assert processed == done + pairs;
    }

    method MatchNext(p: Pair, before: Option<Row>, evaluate: Pair -> Evaluation, now: int, report: Report,
        ghost done: seq<Pair>, ghost start: Table)
      returns (after: Report)
      requires p !in done && before == Latest(start.rows, p)
      requires table == ProcessAll(start, done, evaluate, now)
      requires report.changed == AnnouncedAll(start, done, evaluate, now) && Tallies(report, start, done, evaluate)
      modifies this
      ensures table == ProcessAll(start, done + [p], evaluate, now)
      ensures after.changed == AnnouncedAll(start, done + [p], evaluate, now) && Tallies(after, start, done + [p], evaluate)
    {
      UnprocessedPairsWait(start, done, evaluate, now, p);
      after := MatchPair(p, before, evaluate(p), now, report);
      assert (done + [p])[..|done|] == done;
    }
  }

  // ------------------------------------------------------------------------------------------
  // Sections
  // ------------------------------------------------------------------------------------------

  datatype Found = Found(listing: Id, insidePc: bool)

  datatype Hidden = Hidden(noise: set<Id>, spam: set<Id>, multiQuantity: set<Id>)

  /** Why a result is hidden; the first reason that applies is the one counted. */
  datatype Reason = Shown | ByNoise | BySpam | ByMultiQuantity

  function ReasonFor(h: Hidden, r: Found): Reason {
    if r.listing in h.noise then ByNoise
    else if r.listing in h.spam then BySpam
    else if r.listing in h.multiQuantity then ByMultiQuantity
    else Shown
  }

  function Counted(h: Hidden, results: seq<Found>, reason: Reason): nat {
    if results == [] then 0 else
      Counted(h, results[..|results| - 1], reason) + if ReasonFor(h, results[|results| - 1]) == reason then 1 else 0
  }

  function Section(h: Hidden, results: seq<Found>, insidePc: bool): seq<Found> {
    if results == [] then [] else
      var init, last := Section(h, results[..|results| - 1], insidePc), results[|results| - 1];
      if ReasonFor(h, last) == Shown && last.insidePc == insidePc then init + [last] else init
  }

  function Limited(s: seq<Found>, limit: nat): (r: seq<Found>)
    ensures r <= s && |r| <= limit && (|r| == limit || r == s)
  {
    if |s| <= limit then s else s[..limit]
  }

  /** Hidden for nothing, and found inside a whole PC or on its own as asked. */
  predicate Shows(h: Hidden, r: Found, insidePc: bool) {
    r.listing !in h.noise && r.listing !in h.spam && r.listing !in h.multiQuantity && (r.insidePc <==> insidePc)
  }

  /** `section` has the results that show there, in their order, and no other: `at` says where each comes from. */
  ghost predicate IsSection(h: Hidden, results: seq<Found>, insidePc: bool, at: seq<nat>, section: seq<Found>) {
    && |at| == |section| && (forall j, k | 0 <= j < k < |at| :: at[j] < at[k])
    && (forall i: nat :: i in at <==> i < |results| && Shows(h, results[i], insidePc))
    && (forall k | 0 <= k < |at| :: at[k] < |results| && section[k] == results[at[k]])
  }

  lemma {:induction false} SectionShows(h: Hidden, results: seq<Found>, insidePc: bool) returns (at: seq<nat>)
    ensures IsSection(h, results, insidePc, at, Section(h, results, insidePc))
  {
    if results == [] { return []; }
    at := SectionShows(h, results[..|results| - 1], insidePc);
    if Shows(h, results[|results| - 1], insidePc) { at := at + [|results| - 1]; }
  }

  /** A noisy result counts as noise, a spammer's other ones as spam, and only what is left as multi-quantity. */
  lemma {:induction false} ReasonsAreCounted(h: Hidden, results: seq<Found>)
    ensures Counted(h, results, ByNoise)
         == Sum(|results|, (i: nat) => if i < |results| && results[i].listing in h.noise then 1 else 0)
    ensures Counted(h, results, BySpam)
         == Sum(|results|, (i: nat) => if i < |results| && results[i].listing in h.spam - h.noise then 1 else 0)
    ensures Counted(h, results, ByMultiQuantity)
         == Sum(|results|, (i: nat) =>
              if i < |results| && results[i].listing in h.multiQuantity - h.spam - h.noise then 1 else 0)
  {
    if results != [] {
      var init, n := results[..|results| - 1], |results| - 1;
      ReasonsAreCounted(h, init);
      SumSame(n, (i: nat) => if i < |init| && init[i].listing in h.noise then 1 else 0,
        (i: nat) => if i < |results| && results[i].listing in h.noise then 1 else 0);
      SumSame(n, (i: nat) => if i < |init| && init[i].listing in h.spam - h.noise then 1 else 0,
        (i: nat) => if i < |results| && results[i].listing in h.spam - h.noise then 1 else 0);
      SumSame(n, (i: nat) => if i < |init| && init[i].listing in h.multiQuantity - h.spam - h.noise then 1 else 0,
        (i: nat) => if i < |results| && results[i].listing in h.multiQuantity - h.spam - h.noise then 1 else 0);
    }
  }

  /** Every result is shown in one section or counted under one reason, and nothing hidden is shown. */
  method Sectioned(results: seq<Found>, h: Hidden, limit: nat)
    returns (standalone: seq<Found>, insidePc: seq<Found>, noise: nat, spam: nat, multiQuantity: nat)
    ensures standalone == Limited(Section(h, results, false), limit) && insidePc == Limited(Section(h, results, true), limit)
    ensures noise == Counted(h, results, ByNoise) && spam == Counted(h, results, BySpam)
    ensures multiQuantity == Counted(h, results, ByMultiQuantity)
    ensures noise + spam + multiQuantity + |Section(h, results, false)| + |Section(h, results, true)| == |results|
  {
    noise, spam, multiQuantity := 0, 0, 0;
    var out, inside: seq<Found> := [], [];
    for i := 0 to |results|
      invariant out == Section(h, results[..i], false) && inside == Section(h, results[..i], true)
      invariant noise == Counted(h, results[..i], ByNoise) && spam == Counted(h, results[..i], BySpam)
      invariant multiQuantity == Counted(h, results[..i], ByMultiQuantity)
      invariant noise + spam + multiQuantity + |out| + |inside| == i
    {
      var r := results[i];
      assert results[..i + 1][..i] == results[..i];
      if r.listing in h.noise { noise := noise + 1; }
      else if r.listing in h.spam { spam := spam + 1; }
      else if r.listing in h.multiQuantity { multiQuantity := multiQuantity + 1; }
      else if r.insidePc { inside := inside + [r]; }
      else { out := out + [r]; }
    }
    assert results[..|results|] == results;
    standalone, insidePc := Limited(out, limit), Limited(inside, limit);
  }
}
