/**
 * parts-ai's model calls (services/parts-ai): the batch loop under a rolling 24-hour spend cap, its accounting, and the
 * estimate that makes the cap a hard bound. Amounts are GBP micros, times are seconds.
 */
module SpendCap {
  import opened Common
  import opened Sorting

  // packages/config/src/modules/parts-ai.ts.
  const DAILY_CAP: nat := 5_000_000
  const MAX_CALLS: nat := 100
  const MAX_INPUT_TOKENS: nat := 2500
  const MAX_OUTPUT_TOKENS: nat := 1200
  const DAY: nat := 86_400

  // ------------------------------------------------------------------------------------------
  // What a call costs
  // ------------------------------------------------------------------------------------------

  /** Tokens used. */
  datatype Usage = Usage(input: nat, output: nat, cacheWrite5m: nat, cacheWrite1h: nat, cacheRead: nat)

  /** Nano-dollars per token. */
  datatype Price = Price(input: nat, output: nat, cacheWrite5m: nat, cacheWrite1h: nat, cacheRead: nat)

  function Nanos(u: Usage, p: Price): nat {
    u.input * p.input + u.output * p.output + u.cacheWrite5m * p.cacheWrite5m + u.cacheWrite1h * p.cacheWrite1h
    + u.cacheRead * p.cacheRead
  }

  /** A token more of any kind adds that kind's own price, and no tokens cost nothing. */
  lemma EachTokenAddsItsPrice(u: Usage, p: Price)
    ensures Nanos(Usage(0, 0, 0, 0, 0), p) == 0
    ensures Nanos(u.(input := u.input + 1), p) == Nanos(u, p) + p.input
    ensures Nanos(u.(output := u.output + 1), p) == Nanos(u, p) + p.output
    ensures Nanos(u.(cacheWrite5m := u.cacheWrite5m + 1), p) == Nanos(u, p) + p.cacheWrite5m
    ensures Nanos(u.(cacheWrite1h := u.cacheWrite1h + 1), p) == Nanos(u, p) + p.cacheWrite1h
    ensures Nanos(u.(cacheRead := u.cacheRead + 1), p) == Nanos(u, p) + p.cacheRead
  {
  }

  function ModelCostMicros(u: Usage, p: Price): nat {
    (Nanos(u, p) + 999) / 1000
  }

  /** `rate` is the dollar in millionths of a pound. */
  function ToGbpMicros(micros: nat, rate: nat): nat {
    (micros * rate + 999_999) / 1_000_000
  }

  function Cost(u: Usage, p: Price, rate: nat): nat {
    ToGbpMicros(ModelCostMicros(u, p), rate)
  }

  function Estimate(p: Price, rate: nat): nat {
    Cost(Usage(MAX_INPUT_TOKENS, MAX_OUTPUT_TOKENS, 0, 0, 0), p, rate)
  }

  lemma MulGrows(a: nat, b: nat, c: nat)
    requires a <= b
    ensures a * c <= b * c
  {
  }

  /** A call within its token limits and with no cache traffic never costs more than the estimate. */
  lemma CostIsWithinTheEstimate(u: Usage, p: Price, rate: nat)
    requires u.input <= MAX_INPUT_TOKENS && u.output <= MAX_OUTPUT_TOKENS
    requires u.cacheWrite5m == 0 && u.cacheWrite1h == 0 && u.cacheRead == 0
    ensures Cost(u, p, rate) <= Estimate(p, rate) == Cost(Usage(2500, 1200, 0, 0, 0), p, rate)
  {
    var most := Usage(MAX_INPUT_TOKENS, MAX_OUTPUT_TOKENS, 0, 0, 0);
    MulGrows(u.input, most.input, p.input);
    MulGrows(u.output, most.output, p.output);
    assert Nanos(u, p) <= Nanos(most, p);
    MulGrows(ModelCostMicros(u, p), ModelCostMicros(most, p), rate);
  }

  /** Rounding up never understates: the pounds recorded cover the exact dollar amount, and by less than a step each time. */
  lemma CostIsNeverUnderstated(u: Usage, p: Price, rate: nat)
    ensures Nanos(u, p) * rate <= Cost(u, p, rate) * 1_000_000_000 <= (Nanos(u, p) + 999) * rate + 999_999_000
  {
    var micros := ModelCostMicros(u, p);
    assert micros * 1000 >= Nanos(u, p);
    MulGrows(Nanos(u, p), micros * 1000, rate);
    assert Cost(u, p, rate) * 1_000_000 >= micros * rate;
    assert micros * 1000 * rate == micros * rate * 1000;
    assert micros * 1000 <= Nanos(u, p) + 999;
    MulGrows(micros * 1000, Nanos(u, p) + 999, rate);
  }

  // ------------------------------------------------------------------------------------------
  // The ledger of calls
  // ------------------------------------------------------------------------------------------

  /** A listing's version under one prompt version. */
  datatype Key = Key(listing: string, hash: string, prompt: string)

  /** A stored outcome; `at` is the start of the batch's transaction. */
  datatype Call = Call(key: Key, cost: nat, extracted: bool, at: int)

  function SpentSince(calls: seq<Call>, since: int): nat {
    if calls == [] then 0 else
      var last := calls[|calls| - 1];
      SpentSince(calls[..|calls| - 1], since) + if last.at > since then last.cost else 0
  }

  /** What was spent after `from`, up to one day later. */
  function SpentIn(calls: seq<Call>, from: int): nat {
    if calls == [] then 0 else
      var last := calls[|calls| - 1];
      SpentIn(calls[..|calls| - 1], from) + if from < last.at <= from + DAY then last.cost else 0
  }

  /** What the day before `since + DAY` and any window of a day add up to, call by call. */
  lemma {:induction false} SpentIsASum(calls: seq<Call>, since: int)
    ensures SpentSince(calls, since)
         == Sum(|calls|, (k: nat) => if k < |calls| && calls[k].at > since then calls[k].cost else 0)
    ensures SpentIn(calls, since)
         == Sum(|calls|, (k: nat) => if k < |calls| && since < calls[k].at <= since + 86_400 then calls[k].cost else 0)
  {
    if calls != [] {
      var init, n := calls[..|calls| - 1], |calls| - 1;
      SpentIsASum(init, since);
      SumSame(n, (k: nat) => if k < |init| && init[k].at > since then init[k].cost else 0,
        (k: nat) => if k < |calls| && calls[k].at > since then calls[k].cost else 0);
      SumSame(n, (k: nat) => if k < |init| && since < init[k].at <= since + 86_400 then init[k].cost else 0,
        (k: nat) => if k < |calls| && since < calls[k].at <= since + 86_400 then calls[k].cost else 0);
    }
  }

  ghost predicate WithinCap(calls: seq<Call>) {
    forall from :: SpentIn(calls, from) <= 5_000_000
  }

  predicate Stored(calls: seq<Call>, key: Key) {
    exists c | c in calls :: c.key == key
  }

  /** One stored outcome per version, the table's unique key. */
  ghost predicate UniqueKeys(calls: seq<Call>) {
    forall i, j | 0 <= i < j < |calls| :: calls[i].key != calls[j].key
  }

  lemma {:induction false} WindowIsWithinSince(calls: seq<Call>, since: int, from: int)
    requires since <= from
    ensures SpentIn(calls, from) <= SpentSince(calls, since)
  {
    if calls != [] { WindowIsWithinSince(calls[..|calls| - 1], since, from); }
  }

  /** A call that fits today's remaining room keeps every window within the cap, whatever order batches commit in. */
  lemma CallKeepsTheCap(calls: seq<Call>, call: Call)
    requires WithinCap(calls) && SpentSince(calls, call.at - DAY) + call.cost <= DAILY_CAP
    ensures WithinCap(calls + [call])
  {
    var after := calls + [call];
    assert after[..|calls|] == calls;
    forall from ensures SpentIn(after, from) <= DAILY_CAP {
      if from < call.at <= from + DAY { WindowIsWithinSince(calls, call.at - DAY, from); }
    }
  }

  /** The call fitted the room the earlier calls left in the day before it. */
  predicate FittedWhenMade(calls: seq<Call>, k: nat)
    requires k < |calls|
  {
    SpentSince(calls[..k], calls[k].at - DAY) + calls[k].cost <= DAILY_CAP
  }

  /**
   * Every history whose calls each fitted the room left when they were made, in whatever order their batches' clocks
   * ran, stays within the cap in every 24-hour window.
   */
  lemma {:induction false} GuardedHistoryIsWithinTheCap(calls: seq<Call>)
    requires forall k | 0 <= k < |calls| :: FittedWhenMade(calls, k)
    ensures WithinCap(calls)
  {
    if calls != [] {
      var init, last := calls[..|calls| - 1], calls[|calls| - 1];
      assert calls[..|calls| - 1] == init;
      assert FittedWhenMade(calls, |init|);
      forall k | 0 <= k < |init| ensures FittedWhenMade(init, k) {
        assert FittedWhenMade(calls, k) && init[..k] == calls[..k];
      }
      GuardedHistoryIsWithinTheCap(init);
      CallKeepsTheCap(init, last);
      assert init + [last] == calls;
    }
  }

  /** A listing's current version, with whether its text is full and verified. */
  datatype Target = Target(listing: string, hash: string, full: bool)

  function KeyOf(t: Target, prompt: string): Key {
    Key(t.listing, t.hash, prompt)
  }

  /** How the provider and the checks answer one call. */
  datatype Answer = Fails | Answers(cost: nat, extracted: bool)

  datatype Report = Report(cached: nat, called: nat, extracted: nat, quarantined: nat,
    deferred: seq<string>, failed: seq<string>)

  ghost predicate OnePerListing(targets: seq<Target>) {
    forall i, j | 0 <= i < j < |targets| :: targets[i].listing != targets[j].listing
  }

  function Todo(calls: seq<Call>, prompt: string, targets: seq<Target>): seq<Target> {
    if targets == [] then [] else
      var init, last := Todo(calls, prompt, targets[..|targets| - 1]), targets[|targets| - 1];
      if Stored(calls, KeyOf(last, prompt)) || !last.full then init else init + [last]
  }

  lemma {:induction false} TodoAre(calls: seq<Call>, prompt: string, targets: seq<Target>)
    ensures forall t :: t in Todo(calls, prompt, targets) <==> t in targets && t.full && !Stored(calls, KeyOf(t, prompt))
    ensures OnePerListing(targets) ==> OnePerListing(Todo(calls, prompt, targets))
  {
    if targets != [] {
      var init, last := targets[..|targets| - 1], targets[|targets| - 1];
      TodoAre(calls, prompt, init);
      assert targets == init + [last];
      forall t | t in Todo(calls, prompt, init) ensures OnePerListing(targets) ==> t.listing != last.listing {
        assert t in init;
      }
    }
  }

  function CachedCount(calls: seq<Call>, prompt: string, targets: seq<Target>): nat {
    if targets == [] then 0 else
      CachedCount(calls, prompt, targets[..|targets| - 1])
      + if Stored(calls, KeyOf(targets[|targets| - 1], prompt)) then 1 else 0
  }

  /** Targets whose version already has a stored outcome. */
  lemma {:induction false} CachedAreStored(calls: seq<Call>, prompt: string, targets: seq<Target>)
    ensures CachedCount(calls, prompt, targets) == Sum(|targets|, (k: nat) =>
      if k < |targets| && (exists c | c in calls :: c.key == Key(targets[k].listing, targets[k].hash, prompt)) then 1 else 0)
  {
    if targets != [] {
      var init, n := targets[..|targets| - 1], |targets| - 1;
      CachedAreStored(calls, prompt, init);
      SumSame(n,
        (k: nat) =>
          if k < |init| && (exists c | c in calls :: c.key == Key(init[k].listing, init[k].hash, prompt)) then 1 else 0,
        (k: nat) =>
          if k < |targets| && (exists c | c in calls :: c.key == Key(targets[k].listing, targets[k].hash, prompt)) then 1
          else 0);
    }
  }

  // ------------------------------------------------------------------------------------------
  // One batch
  // ------------------------------------------------------------------------------------------

  /** Where the loop is after the first `n` complete targets. */
  ghost predicate Handled(before: seq<Call>, calls: seq<Call>, complete: seq<Target>, n: nat, prompt: string, now: int,
      deferred: seq<string>, failed: seq<string>)
    requires n <= |complete|
  {
    && before <= calls
    && (forall k | |before| <= k < |calls| :: calls[k].at == now && AmongKeys(complete, n, prompt, calls[k].key))
    && (forall j | 0 <= j < n :: OneEnding(before, calls, complete[j], prompt, deferred, failed))
    && (forall j | n <= j < |complete| ::
          !Stored(calls, KeyOf(complete[j], prompt)) && complete[j].listing !in deferred && complete[j].listing !in failed)
  }

  ghost predicate AmongKeys(complete: seq<Target>, n: nat, prompt: string, key: Key)
    requires n <= |complete|
  {
    exists j :: 0 <= j < n && key == KeyOf(complete[j], prompt)
  }

  /** Called, deferred or failed, and only one of them. */
  ghost predicate OneEnding(before: seq<Call>, calls: seq<Call>, t: Target, prompt: string,
      deferred: seq<string>, failed: seq<string>)
  {
    var called, isDeferred, hasFailed := Stored(calls, KeyOf(t, prompt)), t.listing in deferred, t.listing in failed;
    || (called && !isDeferred && !hasFailed)
    || (!called && isDeferred && !hasFailed)
    || (!called && !isDeferred && hasFailed)
  }

  lemma NextEnding(before: seq<Call>, calls: seq<Call>, complete: seq<Target>, n: nat, prompt: string, now: int,
      deferred: seq<string>, failed: seq<string>, calls': seq<Call>, deferred': seq<string>, failed': seq<string>)
    requires n < |complete| && OnePerListing(complete)
    requires Handled(before, calls, complete, n, prompt, now, deferred, failed)
    requires var t := complete[n];
      || (deferred' == deferred + [t.listing] && failed' == failed && calls' == calls)
      || (deferred' == deferred && failed' == failed + [t.listing] && calls' == calls)
      || (deferred' == deferred && failed' == failed
          && exists c :: calls' == calls + [c] && c.key == KeyOf(t, prompt) && c.at == now)
    ensures Handled(before, calls', complete, n + 1, prompt, now, deferred', failed')
  {
    var t := complete[n];
    forall key ensures Stored(calls', key) <==> Stored(calls, key) || (calls' != calls && key == KeyOf(t, prompt)) {
      if calls' != calls {
        assert calls'[|calls|].key == KeyOf(t, prompt);
        if Stored(calls, key) {
          var c :| c in calls && c.key == key;
          assert c in calls';
        }
      }
    }
    forall j | 0 <= j < n + 1 ensures OneEnding(before, calls', complete[j], prompt, deferred', failed') {
      assert j < n ==> complete[j].listing != t.listing;
      assert j < n ==> OneEnding(before, calls, complete[j], prompt, deferred, failed);
    }
    forall j | n + 1 <= j < |complete|
      ensures !Stored(calls', KeyOf(complete[j], prompt)) && complete[j].listing !in deferred' && complete[j].listing !in failed'
    {
      assert complete[n].listing != complete[j].listing;
    }
    forall k | |before| <= k < |calls'| ensures calls'[k].at == now && AmongKeys(complete, n + 1, prompt, calls'[k].key) {
      if k < |calls| {
        assert AmongKeys(complete, n, prompt, calls[k].key);
      } else {
        assert calls'[k].key == KeyOf(complete[n], prompt);
      }
    }
  }

  lemma CallKeepsKeysUnique(calls: seq<Call>, call: Call)
    requires UniqueKeys(calls) && !Stored(calls, call.key)
    ensures UniqueKeys(calls + [call])
  {
    forall i | 0 <= i < |calls| ensures calls[i].key != call.key {
      assert calls[i] in calls;
    }
  }

  /** Every new call is what the provider answered for its target, and only targets it failed are reported failed. */
  ghost predicate AsAnswered(before: seq<Call>, calls: seq<Call>, prompt: string, targets: seq<Target>,
      answers: Target -> Answer, failed: seq<string>)
  {
    && before <= calls
    && (forall k | |before| <= k < |calls| :: AnsweredCall(calls[k], prompt, targets, answers))
    && (forall l | l in failed :: FailedTarget(l, targets, answers))
  }

  ghost predicate AnsweredCall(c: Call, prompt: string, targets: seq<Target>, answers: Target -> Answer) {
    exists t | t in targets :: c.key == KeyOf(t, prompt) && answers(t) == Answers(c.cost, c.extracted)
  }

  ghost predicate FailedTarget(listing: string, targets: seq<Target>, answers: Target -> Answer) {
    exists t | t in targets :: t.listing == listing && answers(t).Fails?
  }

  function ExtractedIn(calls: seq<Call>): nat {
    if calls == [] then 0 else ExtractedIn(calls[..|calls| - 1]) + if calls[|calls| - 1].extracted then 1 else 0
  }

  lemma NextAnswer(before: seq<Call>, calls: seq<Call>, prompt: string, complete: seq<Target>, answers: Target -> Answer,
      failed: seq<string>, t: Target, now: int)
    requires AsAnswered(before, calls, prompt, complete, answers, failed) && t in complete
    ensures answers(t).Fails? ==> AsAnswered(before, calls, prompt, complete, answers, failed + [t.listing])
    ensures answers(t).Answers? ==>
      var c := Call(KeyOf(t, prompt), answers(t).cost, answers(t).extracted, now);
      && AsAnswered(before, calls + [c], prompt, complete, answers, failed)
      && ExtractedIn(calls + [c]) == ExtractedIn(calls) + if c.extracted then 1 else 0
  {
    if answers(t).Answers? {
      var c := Call(KeyOf(t, prompt), answers(t).cost, answers(t).extracted, now);
      assert AnsweredCall(c, prompt, complete, answers);
      assert (calls + [c])[..|calls|] == calls;
    } else {
      assert FailedTarget(t.listing, complete, answers);
    }
  }

  lemma AnsweredAmongAll(before: seq<Call>, calls: seq<Call>, prompt: string, targets: seq<Target>,
      answers: Target -> Answer, failed: seq<string>)
    requires AsAnswered(before, calls, prompt, Todo(before, prompt, targets), answers, failed)
    ensures AsAnswered(before, calls, prompt, targets, answers, failed)
  {
    var complete := Todo(before, prompt, targets);
    TodoAre(before, prompt, targets);
    forall k | |before| <= k < |calls| ensures AnsweredCall(calls[k], prompt, targets, answers) {
      assert AnsweredCall(calls[k], prompt, complete, answers);
    }
    forall l | l in failed ensures FailedTarget(l, targets, answers) {
      assert FailedTarget(l, complete, answers);
    }
  }

  /** `n` targets are accounted for. */
  ghost predicate Tallied(r: Report, n: nat) {
    r.called == r.extracted + r.quarantined <= MAX_CALLS && r.called + |r.deferred| + |r.failed| == n
  }

  /** The loop's state after `n` complete targets. */
  ghost predicate InBatch(start: seq<Call>, calls: seq<Call>, complete: seq<Target>, n: nat, prompt: string, now: int,
      paused: bool, estimate: nat, answers: Target -> Answer, r: Report, spent: nat)
    requires n <= |complete|
  {
    && UniqueKeys(calls) && WithinCap(calls) && spent == SpentSince(calls, now - DAY)
    && Handled(start, calls, complete, n, prompt, now, r.deferred, r.failed)
    && r.called == |calls| - |start| && Tallied(r, n)
    && AsAnswered(start, calls, prompt, complete, answers, r.failed)
    && ExtractedIn(calls) == ExtractedIn(start) + r.extracted
    && (paused ==> calls == start && r.failed == [])
    && (r.deferred != [] && !paused ==> r.called == MAX_CALLS || spent + estimate > DAILY_CAP)
  }

  /** One target: deferred exactly when paused or full, else failed or stored, as the provider answered. */
  ghost predicate TargetHandled(t: Target, prompt: string, now: int, paused: bool, estimate: nat, answer: Answer,
      before: seq<Call>, r: Report, spent: nat, calls: seq<Call>, r': Report, spent': nat)
  {
    if paused || r.called >= MAX_CALLS || spent + estimate > DAILY_CAP then
      calls == before && r' == r.(deferred := r.deferred + [t.listing]) && spent' == spent
    else if answer.Fails? then
      calls == before && r' == r.(failed := r.failed + [t.listing]) && spent' == spent
    else
      && calls == before + [Call(KeyOf(t, prompt), answer.cost, answer.extracted, now)]
      && r' == (if answer.extracted then r.(called := r.called + 1, extracted := r.extracted + 1)
                else r.(called := r.called + 1, quarantined := r.quarantined + 1))
      && spent' == spent + answer.cost
  }

  lemma NextTarget(start: seq<Call>, before: seq<Call>, complete: seq<Target>, n: nat, prompt: string, now: int,
      paused: bool, estimate: nat, answers: Target -> Answer, r: Report, spent: nat,
      calls: seq<Call>, r': Report, spent': nat)
    requires n < |complete| && OnePerListing(complete)
    requires InBatch(start, before, complete, n, prompt, now, paused, estimate, answers, r, spent)
    requires UniqueKeys(calls) && WithinCap(calls) && spent' == SpentSince(calls, now - DAY)
    requires TargetHandled(complete[n], prompt, now, paused, estimate, answers(complete[n]), before, r, spent, calls, r', spent')
    ensures InBatch(start, calls, complete, n + 1, prompt, now, paused, estimate, answers, r', spent')
  {
    assert complete[n] in complete;
    NextAnswer(start, before, prompt, complete, answers, r.failed, complete[n], now);
    NextEnding(start, before, complete, n, prompt, now, r.deferred, r.failed, calls, r'.deferred, r'.failed);
  }

  class CallsTable {
    var calls: seq<Call>

    constructor ()
      ensures calls == [] && WithinCap(calls) && UniqueKeys(calls)
    {
      calls := [];
    }

    /**
     * One batch under the batch lock. `paused` is a fail-closed check that stopped paid work, `estimate` the most a
     * call may cost, `answers` what the provider will say.
     */
    method RunBatch(targets: seq<Target>, prompt: string, now: int, paused: bool, estimate: nat, answers: Target -> Answer)
      returns (report: Report)
      requires OnePerListing(targets) && UniqueKeys(calls) && WithinCap(calls)
      requires forall t :: answers(t).Answers? ==> answers(t).cost <= estimate
      modifies this
      ensures UniqueKeys(calls) && WithinCap(calls) && old(calls) <= calls
      ensures report.cached == CachedCount(old(calls), prompt, targets)
      ensures report.called == report.extracted + report.quarantined == |calls| - |old(calls)| <= 100
      ensures InOrder(StringLess, report.deferred)
      ensures report.called + |report.deferred| + |report.failed| == |Todo(old(calls), prompt, targets)|
      ensures forall t | t in targets && t.full && !Stored(old(calls), KeyOf(t, prompt)) ::
                OneEnding(old(calls), calls, t, prompt, report.deferred, report.failed)
      ensures forall k | |old(calls)| <= k < |calls| :: calls[k].at == now && !Stored(old(calls), calls[k].key)
      ensures paused ==> calls == old(calls) && report.failed == []
      ensures AsAnswered(old(calls), calls, prompt, targets, answers, report.failed)
      ensures ExtractedIn(calls) == ExtractedIn(old(calls)) + report.extracted
      ensures report.deferred != [] && !paused ==>
        report.called == MAX_CALLS || SpentSince(calls, now - DAY) + estimate > DAILY_CAP
    {
      report := Report(CachedCount(calls, prompt, targets), 0, 0, 0, [], []);
      var complete := Todo(calls, prompt, targets);
      TodoAre(calls, prompt, targets);
      NothingHandled(calls, prompt, targets, now);
      var spent := SpentSince(calls, now - DAY);
      for n := 0 to |complete|
        invariant report.cached == CachedCount(old(calls), prompt, targets)
        invariant InBatch(old(calls), calls, complete, n, prompt, now, paused, estimate, answers, report, spent)
      {
        ghost var before, soFar, spentSoFar := calls, report, spent;
        report, spent := HandleTarget(complete[n], prompt, now, paused, estimate, answers(complete[n]), report, spent);
        NextTarget(old(calls), before, complete, n, prompt, now, paused, estimate, answers, soFar, spentSoFar,
          calls, report, spent);
      }
      AnsweredAmongAll(old(calls), calls, prompt, targets, answers, report.failed);
      EndingsForAll(old(calls), calls, targets, prompt, now, report.deferred, report.failed);
      var deferred := Sorted(StringLess, report.deferred);
      SortedKeeps(StringLess, report.deferred);
      StringOrder();
      SortedSorts(StringLess, report.deferred);
      report := report.(deferred := deferred);
    }

    /** One complete target: deferred when the batch or the day is full, else called, which may fail. */
    method HandleTarget(t: Target, prompt: string, now: int, paused: bool, estimate: nat, answer: Answer,
        report: Report, spent: nat)
      returns (after: Report, spentAfter: nat)
      requires UniqueKeys(calls) && WithinCap(calls) && !Stored(calls, KeyOf(t, prompt))
      requires spent == SpentSince(calls, now - DAY) && (answer.Answers? ==> answer.cost <= estimate)
      requires report.called == report.extracted + report.quarantined <= MAX_CALLS
      modifies this
      ensures UniqueKeys(calls) && WithinCap(calls) && spentAfter == SpentSince(calls, now - DAY)
      ensures TargetHandled(t, prompt, now, paused, estimate, answer, old(calls), report, spent, calls, after, spentAfter)
    {
      after, spentAfter := report, spent;
      if paused || report.called >= MAX_CALLS || spent + estimate > DAILY_CAP {
        after := report.(deferred := report.deferred + [t.listing]);
        return;
      }
      match answer
      case Fails =>
        after := report.(failed := report.failed + [t.listing]);
      case Answers(cost, extracted) =>
        var call := InsertCall(t, prompt, cost, extracted, now);
        after := if extracted then report.(called := report.called + 1, extracted := report.extracted + 1)
          else report.(called := report.called + 1, quarantined := report.quarantined + 1);
        spentAfter := spent + cost;
    }

    method InsertCall(t: Target, prompt: string, cost: nat, extracted: bool, now: int) returns (call: Call)
      requires UniqueKeys(calls) && WithinCap(calls) && !Stored(calls, KeyOf(t, prompt))
      requires SpentSince(calls, now - DAY) + cost <= DAILY_CAP
      modifies this
      ensures call == Call(KeyOf(t, prompt), cost, extracted, now) && calls == old(calls) + [call]
      ensures UniqueKeys(calls) && WithinCap(calls)
      ensures SpentSince(calls, now - DAY) == SpentSince(old(calls), now - DAY) + cost
    {
      call := Call(KeyOf(t, prompt), cost, extracted, now);
      CallKeepsTheCap(calls, call);
      CallKeepsKeysUnique(calls, call);
      calls := calls + [call];
      assert calls[..|calls| - 1] == old(calls);
    }
  }

  lemma NothingHandled(calls: seq<Call>, prompt: string, targets: seq<Target>, now: int)
    ensures Handled(calls, calls, Todo(calls, prompt, targets), 0, prompt, now, [], [])
  {
    TodoAre(calls, prompt, targets);
    var complete := Todo(calls, prompt, targets);
    forall j | 0 <= j < |complete| ensures !Stored(calls, KeyOf(complete[j], prompt)) {
      assert complete[j] in complete;
    }
  }

  lemma EndingsForAll(before: seq<Call>, calls: seq<Call>, targets: seq<Target>, prompt: string, now: int,
      deferred: seq<string>, failed: seq<string>)
    requires var complete := Todo(before, prompt, targets);
      Handled(before, calls, complete, |complete|, prompt, now, deferred, failed)
    ensures forall t | t in targets && t.full && !Stored(before, KeyOf(t, prompt)) ::
              OneEnding(before, calls, t, prompt, deferred, failed)
    ensures forall k | |before| <= k < |calls| :: !Stored(before, calls[k].key)
  {
    var complete := Todo(before, prompt, targets);
    TodoAre(before, prompt, targets);
    forall k | |before| <= k < |calls| ensures !Stored(before, calls[k].key) {
      assert AmongKeys(complete, |complete|, prompt, calls[k].key);
      var j :| 0 <= j < |complete| && calls[k].key == KeyOf(complete[j], prompt);
      assert complete[j] in complete;
    }
  }
}
