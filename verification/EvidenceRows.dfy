/**
 * What one aggregation of seller reply reports leaves in the tables, said of the rows themselves: which reports an
 * evidence row counts and with what weight, when it is held, which listings are announced, and what each report says.
 */
module EvidenceRows {
  import opened Common
  import opened Aggregate

  // ------------------------------------------------------------------------------------------
  // What the rows ought to say
  // ------------------------------------------------------------------------------------------

  predicate Names(reason: Reason, family: Family) {
    || (reason.CollectionElsewhere? && family.Location?)
    || (reason.PostageOnly? && family.Handover?)
    || (reason.PaymentFirst? && family.Payment?)
    || (reason.LinkOrDelivery? && family.Link?)
    || (reason.NotAsDescribed? && family.Item?)
  }

  predicate InScope(w: World, r: Report, target: string, scope: Scope) {
    (r.listing == target <==> scope.Own?)
    && (scope.Copy? ==> w.cluster(target).Some? && r.listing in w.cluster(target).value.members)
  }

  /** The own listing of every target; its copies' too, when it is in a cluster and not the original. */
  predicate Kept(w: World, key: EvidenceKey) {
    key.target in w.targets && (key.scope.Copy? ==> w.cluster(key.target).Some? && !w.original(key.target))
  }

  predicate Sound(w: World, r: Report) {
    var f := w.facts(r.id);
    !f.tester && f.active && f.verified && f.aged && !f.rateLimited && w.listingBurst(r.listing).None?
  }

  /** Nothing of it counts for a family: taken back, ruled out, or bought after reporting outside the item family. */
  predicate CountsForNothing(w: World, r: Report, family: Family) {
    || r.withdrawn || r.outcome == Some(Void) || r.outcome == Some(NotUpheld)
    || (!family.Item? && (r.outcomeBy == Some(ReportThenBuy) || (w.boughtInWindow(r.id) && r.outcomeBy != Some(Ban))))
  }

  /** `c` is what the `n`-th reason of `r` adds to the row at `key`. */
  ghost predicate IsFor(w: World, r: Report, n: nat, key: EvidenceKey, c: Contribution)
    requires n < |r.reasons|
  {
    && c.report == r.id && c.person == w.person(r.reporter) && c.counts == w.countsOf(r.id, n, key.target)
    && c.weight == (if CountsForNothing(w, r, key.family) || !Sound(w, r) then 0 else w.baseWeight(r.id))
    && (key.family.Location? ==> c.place == r.reasons[n].place && c.band == w.bandOf(r.id, n, key.target))
    && (!key.family.Location? ==> c.place.None? && c.band.None?)
  }

  /** The reason at `p`, as (report, reason), belongs in the row at `key`. */
  ghost predicate Counted(w: World, reports: seq<Report>, key: EvidenceKey, p: (nat, nat)) {
    && p.0 < |reports| && p.1 < |reports[p.0].reasons|
    && InScope(w, reports[p.0], key.target, key.scope) && Names(reports[p.0].reasons[p.1].reason, key.family)
  }

  predicate Below(p: (nat, nat), i: nat, m: nat) {
    p.0 < i || (p.0 == i && p.1 < m)
  }

  /** `rows` has one contribution for each reason before (`i`, `m`) that belongs, in that order, and no other. */
  ghost predicate Listed(w: World, reports: seq<Report>, key: EvidenceKey, i: nat, m: nat, from: seq<(nat, nat)>,
    rows: seq<Contribution>)
  {
    && |from| == |rows|
    && (forall p :: p in from <==> Counted(w, reports, key, p) && Below(p, i, m))
    && (forall j, k | 0 <= j < k < |from| :: Below(from[j], from[k].0, from[k].1))
    && (forall k | 0 <= k < |from| ::
          Counted(w, reports, key, from[k]) && IsFor(w, reports[from[k].0], from[k].1, key, rows[k]))
  }

  ghost predicate AreContributions(w: World, reports: seq<Report>, key: EvidenceKey, rows: seq<Contribution>) {
    exists from :: Listed(w, reports, key, |reports|, 0, from, rows)
  }

  /** A report in scope that says the listing is as listed. */
  ghost predicate Disputes(w: World, reports: seq<Report>, key: EvidenceKey, i: nat) {
    && i < |reports| && InScope(w, reports[i], key.target, key.scope)
    && exists n: nat :: n < |reports[i].reasons| && reports[i].reasons[n].reason.AsListed?
  }

  ghost predicate IsCounter(w: World, r: Report, c: Contribution) {
    c == Contribution(r.id, w.person(r.reporter), if r.withdrawn || !Sound(w, r) then 0 else w.baseWeight(r.id), Never, None, None)
  }

  ghost predicate CountersListed(w: World, reports: seq<Report>, key: EvidenceKey, i: nat, from: seq<nat>, rows: seq<Contribution>) {
    && |from| == |rows|
    && (forall j: nat :: j in from <==> Disputes(w, reports, key, j) && j < i)
    && (forall j, k | 0 <= j < k < |from| :: from[j] < from[k])
    && (forall k | 0 <= k < |from| :: Disputes(w, reports, key, from[k]) && IsCounter(w, reports[from[k]], rows[k]))
  }

  ghost predicate AreCounters(w: World, reports: seq<Report>, key: EvidenceKey, rows: seq<Contribution>) {
    exists from :: CountersListed(w, reports, key, |reports|, from, rows)
  }

  /** A burst holds the row; failing that, any counter weight holds one that would reach a level. */
  ghost predicate IsHold(w: World, key: EvidenceKey, counter: nat, level: Level, hold: Option<Hold>) {
    var burst := if key.scope.Own? then w.listingBurst(key.target)
      else if w.cluster(key.target).Some? then w.clusterBurst(w.cluster(key.target).value.key) else None;
    && (burst.Some? ==> hold == burst)
    && (burst.None? && counter > 0 && level != LevelNone ==> hold == Some(CounterReport))
    && (burst.None? && (counter == 0 || level == LevelNone) ==> hold.None?)
  }

  ghost predicate IsRow(w: World, reports: seq<Report>, key: EvidenceKey, rows: seq<Contribution>, row: Inputs) {
    && row.key == key && row.contributions == multiset(rows)
    && (exists counters :: AreCounters(w, reports, key, counters) && row.counter == w.counter(counters))
    && (key.scope.Own? ==> row.memberSetHash.None?)
    && (key.scope.Copy? && w.cluster(key.target).Some? ==>
          row.memberSetHash == Some(w.cluster(key.target).value.memberSetHash))
    && IsHold(w, key, row.counter, w.level(rows), row.hold)
  }

  // ------------------------------------------------------------------------------------------
  // One row
  // ------------------------------------------------------------------------------------------

  lemma OneIsFor(w: World, r: Report, n: nat, key: EvidenceKey, c: Contribution)
    requires n < |r.reasons| && FamilyOf(r.reasons[n].reason) == Some(key.family)
    requires OfReport(w, r, key.target, key.family, n + 1) == OfReport(w, r, key.target, key.family, n) + [c]
    ensures Names(r.reasons[n].reason, key.family) && IsFor(w, r, n, key, c)
  {
    var rows := OfReport(w, r, key.target, key.family, n + 1);
    assert rows[|rows| - 1] == c;
  }

  lemma ListedNext(w: World, reports: seq<Report>, key: EvidenceKey, i: nat, m: nat, from: seq<(nat, nat)>,
      rows: seq<Contribution>, c: Contribution)
    requires i < |reports| && m < |reports[i].reasons| && Listed(w, reports, key, i, m, from, rows)
    requires Counted(w, reports, key, (i, m)) && IsFor(w, reports[i], m, key, c)
    ensures Listed(w, reports, key, i, m + 1, from + [(i, m)], rows + [c])
  {
    forall p ensures p in from + [(i, m)] <==> Counted(w, reports, key, p) && Below(p, i, m + 1) {
      assert p in from <==> Counted(w, reports, key, p) && Below(p, i, m);
    }
    forall k | 0 <= k < |from| ensures Below(from[k], i, m) {
      assert from[k] in from;
    }
  }

  lemma ListedSkips(w: World, reports: seq<Report>, key: EvidenceKey, i: nat, m: nat, i': nat, m': nat,
      from: seq<(nat, nat)>, rows: seq<Contribution>)
    requires Listed(w, reports, key, i, m, from, rows)
    requires forall p | Counted(w, reports, key, p) :: Below(p, i, m) <==> Below(p, i', m')
    ensures Listed(w, reports, key, i', m', from, rows)
  {
  }

  lemma OneMoreReason(w: World, reports: seq<Report>, key: EvidenceKey, i: nat, m: nat, before: seq<(nat, nat)>,
      rows: seq<Contribution>) returns (from: seq<(nat, nat)>)
    requires i < |reports| && m < |reports[i].reasons| && InScope(w, reports[i], key.target, key.scope)
    requires Listed(w, reports, key, i, m, before, rows + OfReport(w, reports[i], key.target, key.family, m))
    ensures Listed(w, reports, key, i, m + 1, from, rows + OfReport(w, reports[i], key.target, key.family, m + 1))
  {
    var r := reports[i];
    var init, all := OfReport(w, r, key.target, key.family, m), OfReport(w, r, key.target, key.family, m + 1);
    if FamilyOf(r.reasons[m].reason) == Some(key.family) {
      var c := all[|all| - 1];
      assert all == init + [c];
      OneIsFor(w, r, m, key, c);
      ListedNext(w, reports, key, i, m, before, rows + init, c);
      assert rows + all == rows + init + [c];
      from := before + [(i, m)];
    } else {
      ListedSkips(w, reports, key, i, m, i, m + 1, before, rows + init);
      from := before;
    }
  }

  lemma {:induction false} ReportIsListed(w: World, reports: seq<Report>, key: EvidenceKey, i: nat, m: nat,
      before: seq<(nat, nat)>, rows: seq<Contribution>) returns (from: seq<(nat, nat)>)
    requires i < |reports| && m <= |reports[i].reasons| && InScope(w, reports[i], key.target, key.scope)
    requires Listed(w, reports, key, i, 0, before, rows)
    ensures Listed(w, reports, key, i, m, from, rows + OfReport(w, reports[i], key.target, key.family, m))
    decreases m
  {
    if m == 0 {
      assert rows + [] == rows;
      return before;
    }
    from := ReportIsListed(w, reports, key, i, m - 1, before, rows);
    from := OneMoreReason(w, reports, key, i, m - 1, from, rows);
  }

  lemma {:induction false} ContributionsAreListed(w: World, reports: seq<Report>, key: EvidenceKey, i: nat)
    returns (from: seq<(nat, nat)>)
    requires i <= |reports|
    ensures Listed(w, reports, key, i, 0, from, Contributions(w, reports[..i], key))
  {
    if i == 0 { return []; }
    from := ContributionsAreListed(w, reports, key, i - 1);
    assert reports[..i][..i - 1] == reports[..i - 1];
    var r := reports[i - 1];
    var rows := Contributions(w, reports[..i - 1], key);
    if FromScope(w, r, key.target, key.scope) {
      from := ReportIsListed(w, reports, key, i - 1, |r.reasons|, from, rows);
      ListedSkips(w, reports, key, i - 1, |r.reasons|, i, 0, from,
        rows + OfReport(w, r, key.target, key.family, |r.reasons|));
    } else {
      ListedSkips(w, reports, key, i - 1, 0, i, 0, from, rows);
    }
  }

  lemma CountersNext(w: World, reports: seq<Report>, key: EvidenceKey, i: nat, from: seq<nat>, rows: seq<Contribution>,
      c: Contribution)
    requires i < |reports| && CountersListed(w, reports, key, i, from, rows)
    requires Disputes(w, reports, key, i) && IsCounter(w, reports[i], c)
    ensures CountersListed(w, reports, key, i + 1, from + [i], rows + [c])
  {
    forall j: nat ensures j in from + [i] <==> Disputes(w, reports, key, j) && j < i + 1 {
      assert j in from <==> Disputes(w, reports, key, j) && j < i;
    }
    forall k | 0 <= k < |from| ensures from[k] < i { assert from[k] in from; }
  }

  lemma {:induction false} CountersAreListed(w: World, reports: seq<Report>, key: EvidenceKey, i: nat) returns (from: seq<nat>)
    requires i <= |reports|
    ensures CountersListed(w, reports, key, i, from, Counters(w, reports[..i], key.target, key.scope))
  {
    if i == 0 { return []; }
    from := CountersAreListed(w, reports, key, i - 1);
    assert reports[..i][..i - 1] == reports[..i - 1];
    var r, rows := reports[i - 1], Counters(w, reports[..i - 1], key.target, key.scope);
    SaysSo(r);
    if FromScope(w, r, key.target, key.scope) && SaysAsListed(r) {
      var all := Counters(w, reports[..i], key.target, key.scope);
      CountersNext(w, reports, key, i - 1, from, rows, all[|rows|]);
      from := from + [i - 1];
    }
  }

  lemma SaysSo(r: Report)
    ensures SaysAsListed(r) <==> exists n: nat :: n < |r.reasons| && r.reasons[n].reason.AsListed?
  {
    if x :| x in r.reasons && x.reason.AsListed? {
      var n :| 0 <= n < |r.reasons| && r.reasons[n] == x;
    }
  }

  lemma InputsAreTheRow(w: World, reports: seq<Report>, key: EvidenceKey)
    ensures AreContributions(w, reports, key, Contributions(w, reports, key))
    ensures IsRow(w, reports, key, Contributions(w, reports, key), InputsOf(w, reports, key))
  {
    assert reports[..|reports|] == reports;
    var from := ContributionsAreListed(w, reports, key, |reports|);
    var others := CountersAreListed(w, reports, key, |reports|);
    assert AreCounters(w, reports, key, Counters(w, reports, key.target, key.scope));
  }

  // ------------------------------------------------------------------------------------------
  // The evidence a call leaves
  // ------------------------------------------------------------------------------------------

  predicate SameAt(before: Evidence, after: Evidence, key: EvidenceKey) {
    (key in before <==> key in after) && (key in before ==> before[key] == after[key])
  }

  ghost predicate MovesAt(before: Evidence, after: Evidence, target: string) {
    exists key: EvidenceKey :: key.target == target && !SameAt(before, after, key)
  }

  lemma {:induction false} RefreshedMoves(w: World, reports: seq<Report>, evidence: Evidence, keys: seq<EvidenceKey>)
    ensures forall key | !SameAt(evidence, Refreshed(w, reports, evidence, keys), key) ::
              && key in keys && key in Refreshed(w, reports, evidence, keys)
              && Refreshed(w, reports, evidence, keys)[key] == InputsOf(w, reports, key)
    ensures forall t ::
              t in ChangedTargets(w, reports, evidence, keys) <==> MovesAt(evidence, Refreshed(w, reports, evidence, keys), t)
  {
    if keys != [] {
      var init, last := keys[..|keys| - 1], keys[|keys| - 1];
      RefreshedMoves(w, reports, evidence, init);
      var was, now := Refreshed(w, reports, evidence, init), Refreshed(w, reports, evidence, keys);
      assert keys == init + [last];
      forall t ensures t in ChangedTargets(w, reports, evidence, keys) <==> MovesAt(evidence, now, t) {
        if MovesAt(evidence, was, t) {
          var key: EvidenceKey :| key.target == t && !SameAt(evidence, was, key);
          assert !SameAt(evidence, now, key);
        }
        if Stale(w, reports, was, last) { assert SameAt(evidence, was, last) && !SameAt(evidence, now, last); }
      }
    }
  }

  lemma {:induction false} KeysAreKept(w: World, targets: seq<string>, key: EvidenceKey)
    ensures key in AllKeys(w, targets)
      <==> key.target in targets && (key.scope.Copy? ==> w.cluster(key.target).Some? && !w.original(key.target))
  {
    if targets != [] {
      var init, last := targets[..|targets| - 1], targets[|targets| - 1];
      KeysAreKept(w, init, key);
      assert targets == init + [last];
      KeysOnAre(last, Own, key);
      KeysOnAre(last, Copy, key);
    }
  }

  lemma KeysOnAre(target: string, scope: Scope, key: EvidenceKey)
    ensures key in KeysOn(target, scope) <==> key.target == target && key.scope == scope
  {
    var n := match key.family case Location => 0 case Handover => 1 case Payment => 2 case Link => 3 case Item => 4;
    assert KeysOn(target, scope)[n] == EvidenceKey(target, scope, key.family);
  }

  /** What one call does to the row at `key`, whose contributions are `rows`. */
  ghost predicate RowLeft(w: World, s: State, t: State, key: EvidenceKey, rows: seq<Contribution>) {
    && (key in t.evidence <==> key in s.evidence || rows != [])
    && (key in t.evidence ==> IsRow(w, s.reports, key, rows, t.evidence[key]))
  }

  /**
   * After a call every row in its care says what its reports say and no more, no other row has moved, and the listings
   * named are those of the rows that moved.
   */
  lemma AggregationLeavesRows(w: World, s: State)
    ensures var t := Aggregated(w, s);
      && (forall key | Kept(w, key) ::
            exists rows :: AreContributions(w, s.reports, key, rows) && RowLeft(w, s, t, key, rows))
      && (forall key | !Kept(w, key) :: SameAt(s.evidence, t.evidence, key))
      && (forall target :: target in Announced(w, s) <==> MovesAt(s.evidence, t.evidence, target))
  {
    var t := Aggregated(w, s);
    var keys := AllKeys(w, w.targets);
    RefreshedMoves(w, s.reports, s.evidence, keys);
    forall key | Kept(w, key)
      ensures exists rows :: AreContributions(w, s.reports, key, rows) && RowLeft(w, s, t, key, rows)
    {
      KeptRow(w, s, key);
    }
    forall key | !Kept(w, key) ensures SameAt(s.evidence, t.evidence, key) {
      KeysAreKept(w, w.targets, key);
    }
  }

  lemma KeptRow(w: World, s: State, key: EvidenceKey)
    requires Kept(w, key)
    ensures AreContributions(w, s.reports, key, Contributions(w, s.reports, key))
    ensures RowLeft(w, s, Aggregated(w, s), key, Contributions(w, s.reports, key))
  {
    var keys := AllKeys(w, w.targets);
    RefreshedMoves(w, s.reports, s.evidence, keys);
    RefreshedAreFresh(w, s.reports, s.evidence, keys);
    KeysAreKept(w, w.targets, key);
    InputsAreTheRow(w, s.reports, key);
    assert Fresh(w, s.reports, Refreshed(w, s.reports, s.evidence, keys), key);
    if key !in s.evidence && Contributions(w, s.reports, key) == [] { NoRowOpened(w, s.reports, s.evidence, keys, key); }
  }

  lemma {:induction false} NoRowOpened(w: World, reports: seq<Report>, evidence: Evidence, keys: seq<EvidenceKey>,
      key: EvidenceKey)
    requires key !in evidence && Contributions(w, reports, key) == []
    ensures key !in Refreshed(w, reports, evidence, keys)
  {
    if keys != [] { NoRowOpened(w, reports, evidence, keys[..|keys| - 1], key); }
  }

  lemma EmptyAlike<T>(a: seq<T>, b: seq<T>)
    requires forall p :: p in a <==> p in b
    ensures a == [] <==> b == []
  {
    if a != [] { assert a[0] in a; }
    if b != [] { assert b[0] in b; }
  }

  lemma SameLast(a: seq<(nat, nat)>, b: seq<(nat, nat)>)
    requires a != [] && b != [] && forall p :: p in a <==> p in b
    requires forall j, k | 0 <= j < k < |a| :: Below(a[j], a[k].0, a[k].1)
    requires forall j, k | 0 <= j < k < |b| :: Below(b[j], b[k].0, b[k].1)
    ensures a[|a| - 1] == b[|b| - 1]
  {
    var x, y := a[|a| - 1], b[|b| - 1];
    assert x in a && y in b;
    var j :| 0 <= j < |b| && b[j] == x;
    var k :| 0 <= k < |a| && a[k] == y;
  }

  lemma {:induction false} SameOrder(a: seq<(nat, nat)>, b: seq<(nat, nat)>)
    requires forall p :: p in a <==> p in b
    requires forall j, k | 0 <= j < k < |a| :: Below(a[j], a[k].0, a[k].1)
    requires forall j, k | 0 <= j < k < |b| :: Below(b[j], b[k].0, b[k].1)
    ensures a == b
  {
    EmptyAlike(a, b);
    if a != [] {
      SameLast(a, b);
      var a', b' := a[..|a| - 1], b[..|b| - 1];
      LastDropped(a, a');
      LastDropped(b, b');
      forall p ensures p in a' <==> p in b' {
        assert p in a <==> p in b;
      }
      SameOrder(a', b');
    }
  }

  lemma LastDropped(a: seq<(nat, nat)>, init: seq<(nat, nat)>)
    requires a != [] && init == a[..|a| - 1] && forall j, k | 0 <= j < k < |a| :: Below(a[j], a[k].0, a[k].1)
    ensures a == init + [a[|a| - 1]]
    ensures forall p :: p in init <==> p in a && p != a[|a| - 1]
  {
    assert a == init + [a[|a| - 1]];
    forall p | p in init ensures p != a[|a| - 1] {
      var j :| 0 <= j < |init| && init[j] == p;
      assert a[j] == p && Below(a[j], a[|a| - 1].0, a[|a| - 1].1);
    }
  }

  /** Only one list of contributions fits a row. */
  lemma ContributionsAreOne(w: World, reports: seq<Report>, key: EvidenceKey, rows: seq<Contribution>, others: seq<Contribution>)
    requires AreContributions(w, reports, key, rows) && AreContributions(w, reports, key, others)
    ensures rows == others
  {
    var a: seq<(nat, nat)> :| Listed(w, reports, key, |reports|, 0, a, rows);
    var b: seq<(nat, nat)> :| Listed(w, reports, key, |reports|, 0, b, others);
    SameOrder(a, b);
    forall k | 0 <= k < |a| ensures rows[k] == others[k] {
      assert IsFor(w, reports[a[k].0], a[k].1, key, rows[k]) && IsFor(w, reports[b[k].0], b[k].1, key, others[k]);
    }
  }

  // ------------------------------------------------------------------------------------------
  // The reports a call leaves
  // ------------------------------------------------------------------------------------------

  /** It counts, with weight, in a row of its own listing that reaches a level and is not held. */
  ghost predicate Helps(w: World, reports: seq<Report>, evidence: Evidence, id: string, key: EvidenceKey,
    rows: seq<Contribution>)
  {
    && Kept(w, key) && key.scope.Own? && AreContributions(w, reports, key, rows)
    && w.level(rows) != LevelNone && key in evidence && evidence[key].hold.None?
    && exists c :: c in rows && c.report == id && c.counts == AnyPath && c.weight > 0
  }

  lemma HelpingIsHelps(w: World, s: State, id: string)
    ensures Helping(w, s.reports, id) <==> exists key, rows :: Helps(w, s.reports, Aggregated(w, s).evidence, id, key, rows)
  {
    var t := Aggregated(w, s);
    if key :| key in AllKeys(w, w.targets) && HelpsOn(w, s.reports, id, key) {
      KeysAreKept(w, w.targets, key);
      KeptRow(w, s, key);
      RowIsInputs(w, s, key);
      assert Helps(w, s.reports, t.evidence, id, key, Contributions(w, s.reports, key));
    }
    if key, rows :| Helps(w, s.reports, t.evidence, id, key, rows) {
      KeysAreKept(w, w.targets, key);
      KeptRow(w, s, key);
      RowIsInputs(w, s, key);
      ContributionsAreOne(w, s.reports, key, rows, Contributions(w, s.reports, key));
      assert HelpsOn(w, s.reports, id, key);
    }
  }

  lemma RowIsInputs(w: World, s: State, key: EvidenceKey)
    requires Kept(w, key) && key in Aggregated(w, s).evidence
    ensures Aggregated(w, s).evidence[key] == InputsOf(w, s.reports, key)
  {
    KeysAreKept(w, w.targets, key);
    RefreshedAreFresh(w, s.reports, s.evidence, AllKeys(w, w.targets));
    assert Fresh(w, s.reports, Refreshed(w, s.reports, s.evidence, AllKeys(w, w.targets)), key);
  }

  /** The first of these that is wrong with a report, in this order, or that nothing is. */
  ghost predicate IsEligibility(w: World, r: Report, e: Eligibility) {
    var f := w.facts(r.id);
    && (e.Tester? <==> f.tester)
    && (e.NotActive? <==> !f.tester && !f.active)
    && (e.EmailUnverified? <==> !f.tester && f.active && !f.verified)
    && (e.TooNew? <==> !f.tester && f.active && f.verified && !f.aged)
    && (e.RateLimited? <==> !f.tester && f.active && f.verified && f.aged && f.rateLimited)
    && (e.Eligible? <==> Sound(w, r))
    && (e.BurstHold? <==> !f.tester && f.active && f.verified && f.aged && !f.rateLimited && w.listingBurst(r.listing).Some?)
  }

  ghost predicate IsStatus(r: Report, helps: bool) {
    && (r.status.Withdrawn? <==> r.withdrawn)
    && (r.status.RemovedAfterCheck? <==> !r.withdrawn && r.outcome in {Some(NotUpheld), Some(Void)})
    && (r.status.HelpingWarn? <==> !r.withdrawn && r.outcome !in {Some(NotUpheld), Some(Void)} && helps)
    && !r.status.Saved?
  }

  /** A purchase settles the outcome of a report that had none, and marks one nobody has ruled on. */
  ghost predicate IsOutcome(w: World, r: Report, r': Report) {
    var bought := w.boughtInWindow(r.id);
    && r'.outcome == (if r.outcome.None? && bought then Some(Unknown) else r.outcome)
    && r'.outcomeBy == (if r.outcomeBy.None? && bought && r.outcome in {None, Some(Unknown)} then Some(ReportThenBuy)
                        else r.outcomeBy)
  }

  ghost predicate IsReason(w: World, r: Report, n: nat, x: ReasonRow)
    requires n < |r.reasons|
  {
    && x.reason == r.reasons[n].reason && x.place == r.reasons[n].place
    && x.counts == Some(w.countsOf(r.id, n, r.listing))
    && (x.reason.CollectionElsewhere? && x.place.Some? ==> x.band == w.bandOf(r.id, n, r.listing))
    && (!x.reason.CollectionElsewhere? || x.place.None? ==> x.band.None?)
  }

  /** What one call makes of a report. */
  ghost predicate IsAssessed(w: World, r: Report, helps: bool, r': Report) {
    && r'.id == r.id && r'.listing == r.listing && r'.reporter == r.reporter && r'.withdrawn == r.withdrawn
    && |r'.reasons| == |r.reasons| && (forall n: nat | n < |r.reasons| :: IsReason(w, r, n, r'.reasons[n]))
    && IsEligibility(w, r, r'.eligibility)
    && r'.weight == (if Sound(w, r) then w.baseWeight(r.id) else 0)
    && r'.weightAtSubmit == (if r.weightAtSubmit.None? && r.eligibility.Pending? then Some(r'.weight) else r.weightAtSubmit)
    && IsOutcome(w, r, r')
    && IsStatus(r', helps)
  }

  /** After a call every report says what was read of it; it helps when it counts in an unheld row of its own listing. */
  lemma AggregationAssesses(w: World, s: State)
    ensures var t := Aggregated(w, s);
      && |t.reports| == |s.reports|
      && forall k | 0 <= k < |s.reports| ::
           var helps := exists key, rows :: Helps(w, s.reports, t.evidence, s.reports[k].id, key, rows);
           IsAssessed(w, s.reports[k], helps, t.reports[k])
  {
    forall k | 0 <= k < |s.reports| ensures
      var helps := exists key, rows :: Helps(w, s.reports, Aggregated(w, s).evidence, s.reports[k].id, key, rows);
      IsAssessed(w, s.reports[k], helps, Aggregated(w, s).reports[k])
    {
      HelpingIsHelps(w, s, s.reports[k].id);
      RowIsAssessed(w, s.reports[k], Helping(w, s.reports, s.reports[k].id));
    }
  }

  lemma RowIsAssessed(w: World, r: Report, helps: bool)
    ensures IsAssessed(w, r, helps, WrittenBack(w, r, helps))
  {
  }
}
