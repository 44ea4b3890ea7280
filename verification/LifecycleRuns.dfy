/**
 * Whom a run of lifecycle messages writes to: the steps it sends are exactly those nothing stands against, said by their
 * time, address, exit, consent and the day's marketing count.
 */
module LifecycleRuns {
  import opened Common
  import opened Lifecycle

  /** Due, with an address, not exited since its trigger, and consented to if it is marketing. */
  predicate Allowed(a: Attempt, programme: string, o: Occurrence, step: Step) {
    var exitedAt := a.w.exitedAt(programme, o.user);
    && o.triggeredAt + step.delay <= a.now && a.w.hasEmail(o.user)
    && (exitedAt.Some? ==> exitedAt.value < o.triggeredAt || a.now < exitedAt.value)
    && (step.marketing ==> a.w.canMarket(o.user, step))
  }

  /** What stops a step, the first of these that applies; and nothing does when it is sent. */
  lemma StoppedExactlyBy(w: World, programme: string, o: Occurrence, step: Step, now: int, sent: bool, sentToday: nat)
    ensures var d := Decide(w, programme, o, step, now, sent, sentToday);
      var due := !sent && o.triggeredAt + step.delay <= now;
      var exit := w.exitedAt(programme, o.user);
      var stays := due && w.hasEmail(o.user) && (exit.Some? ==> exit.value < o.triggeredAt || now < exit.value);
      && (d == Skipped(AlreadySent) <==> sent)
      && (d == Skipped(Wait) <==> !sent && now < o.triggeredAt + step.delay)
      && (d == Skipped(NoEmail) <==> due && !w.hasEmail(o.user))
      && (d == Skipped(Exited) <==> due && w.hasEmail(o.user) && !stays)
      && (d == Skipped(CapReached) <==> stays && step.marketing && sentToday >= 1)
      && (d == Skipped(NotConsented) <==> stays && step.marketing && sentToday == 0 && !w.canMarket(o.user, step))
      && (d == Send <==> stays && (step.marketing ==> sentToday == 0 && w.canMarket(o.user, step)))
  {
  }

  predicate IsRowOf(a: Attempt, row: Row, programme: string, o: Occurrence, step: Step) {
    row.key == RunKey(o.user, programme, step.key, o.triggeredAt) && row.marketing == step.marketing && row.at == a.now
  }

  /** One of the run's programmes, an occurrence due for it, and one of its steps. */
  predicate InRun(a: Attempt, p: Programme, o: Occurrence, step: Step) {
    p in a.programmes && o in a.due(p) && step in p.steps
  }

  ghost predicate IsAllowedRow(a: Attempt, row: Row) {
    exists p, o, step :: InRun(a, p, o, step) && Allowed(a, p.id, o, step) && IsRowOf(a, row, p.id, o, step)
  }

  /** Rows are only added, and every new row is an allowed step of the run. */
  ghost predicate OnlyAllowed(a: Attempt, rows: seq<Row>, more: seq<Row>) {
    rows <= more && forall k | |rows| <= k < |more| :: IsAllowedRow(a, more[k])
  }

  lemma OnlyAllowedTwice(a: Attempt, rows: seq<Row>, more: seq<Row>, most: seq<Row>)
    requires OnlyAllowed(a, rows, more) && OnlyAllowed(a, more, most)
    ensures OnlyAllowed(a, rows, most)
  {
    forall k | |rows| <= k < |most| ensures IsAllowedRow(a, most[k]) {
      if k < |more| { assert most[k] == more[k]; }
    }
  }

  predicate IsSent(rows: seq<Row>, programme: string, o: Occurrence, step: Step) {
    exists row | row in rows :: row.key == RunKey(o.user, programme, step.key, o.triggeredAt)
  }

  /** The step has its row, or is not allowed, or is marketing to someone whose day already has its message. */
  ghost predicate Settled(a: Attempt, since: int, rows: seq<Row>, programme: string, o: Occurrence, step: Step) {
    || IsSent(rows, programme, o, step) || !Allowed(a, programme, o, step)
    || (step.marketing && MarketingSince(rows, o.user, since) >= 1)
  }

  lemma {:induction false} CountGrows(rows: seq<Row>, more: seq<Row>, user: string, since: int)
    requires rows <= more
    ensures MarketingSince(rows, user, since) <= MarketingSince(more, user, since)
  {
    if |rows| < |more| { CountGrows(rows, more[..|more| - 1], user, since); } else { assert rows == more; }
  }

  lemma StaysSettled(a: Attempt, since: int, rows: seq<Row>, more: seq<Row>, programme: string, o: Occurrence, step: Step)
    requires Settled(a, since, rows, programme, o, step) && rows <= more
    ensures Settled(a, since, more, programme, o, step)
  {
    CountGrows(rows, more, o.user, since);
    if row :| row in rows && row.key == RunKey(o.user, programme, step.key, o.triggeredAt) { assert row in more; }
  }

  lemma StepIsSettled(a: Attempt, since: int, rows: seq<Row>, p: Programme, o: Occurrence, step: Step)
    requires InRun(a, p, o, step)
    ensures Settled(a, since, AfterStep(a, since, rows, p.id, o, step), p.id, o, step)
    ensures OnlyAllowed(a, rows, AfterStep(a, since, rows, p.id, o, step))
  {
    var key := KeyOf(p.id, o, step);
    var more := AfterStep(a, since, rows, p.id, o, step);
    StoppedExactlyBy(a.w, p.id, o, step, a.now, Stored(rows, key), MarketingSince(rows, o.user, since));
    if more != rows {
      var row := Row(key, step.marketing, a.now);
      assert more[|rows|] == row && IsRowOf(a, row, p.id, o, step);
    }
  }

  /** The first `n` steps of an occurrence. */
  ghost predicate FirstSettled(a: Attempt, since: int, rows: seq<Row>, p: Programme, o: Occurrence, n: nat)
    requires n <= |p.steps|
  {
    n == 0 || (FirstSettled(a, since, rows, p, o, n - 1) && Settled(a, since, rows, p.id, o, p.steps[n - 1]))
  }

  lemma {:induction false} FirstStaySettled(a: Attempt, since: int, rows: seq<Row>, more: seq<Row>, p: Programme,
      o: Occurrence, n: nat)
    requires n <= |p.steps| && FirstSettled(a, since, rows, p, o, n) && rows <= more
    ensures FirstSettled(a, since, more, p, o, n)
  {
    if n > 0 {
      FirstStaySettled(a, since, rows, more, p, o, n - 1);
      StaysSettled(a, since, rows, more, p.id, o, p.steps[n - 1]);
    }
  }

  lemma {:induction false} StepsAreSettled(a: Attempt, since: int, rows: seq<Row>, p: Programme, o: Occurrence, n: nat)
    requires p in a.programmes && o in a.due(p) && n <= |p.steps|
    ensures OnlyAllowed(a, rows, AfterSteps(a, since, rows, p, o, n))
    ensures FirstSettled(a, since, AfterSteps(a, since, rows, p, o, n), p, o, n)
  {
    if n > 0 {
      var before, more := AfterSteps(a, since, rows, p, o, n - 1), AfterSteps(a, since, rows, p, o, n);
      StepsAreSettled(a, since, rows, p, o, n - 1);
      StepIsSettled(a, since, before, p, o, p.steps[n - 1]);
      OnlyAllowedTwice(a, rows, before, more);
      FirstStaySettled(a, since, before, more, p, o, n - 1);
    }
  }

  lemma {:induction false} FirstSettledAll(a: Attempt, since: int, rows: seq<Row>, p: Programme, o: Occurrence, n: nat)
    requires n <= |p.steps| && FirstSettled(a, since, rows, p, o, n)
    ensures forall step | step in p.steps[..n] :: Settled(a, since, rows, p.id, o, step)
  {
    if n > 0 {
      FirstSettledAll(a, since, rows, p, o, n - 1);
      assert p.steps[..n] == p.steps[..n - 1] + [p.steps[n - 1]];
    }
  }

  ghost predicate AllSettled(a: Attempt, since: int, rows: seq<Row>, p: Programme, o: Occurrence) {
    forall step | step in p.steps :: Settled(a, since, rows, p.id, o, step)
  }

  lemma AllStaySettled(a: Attempt, since: int, rows: seq<Row>, more: seq<Row>, p: Programme, o: Occurrence)
    requires AllSettled(a, since, rows, p, o) && rows <= more
    ensures AllSettled(a, since, more, p, o)
  {
    forall step | step in p.steps ensures Settled(a, since, more, p.id, o, step) {
      StaysSettled(a, since, rows, more, p.id, o, step);
    }
  }

  /** Every step of the first `n` occurrences of a programme. */
  ghost predicate FirstAllSettled(a: Attempt, since: int, rows: seq<Row>, p: Programme, n: nat)
    requires n <= |a.due(p)|
  {
    n == 0 || (FirstAllSettled(a, since, rows, p, n - 1) && AllSettled(a, since, rows, p, a.due(p)[n - 1]))
  }

  lemma {:induction false} FirstAllStaySettled(a: Attempt, since: int, rows: seq<Row>, more: seq<Row>, p: Programme, n: nat)
    requires n <= |a.due(p)| && FirstAllSettled(a, since, rows, p, n) && rows <= more
    ensures FirstAllSettled(a, since, more, p, n)
  {
    if n > 0 {
      FirstAllStaySettled(a, since, rows, more, p, n - 1);
      AllStaySettled(a, since, rows, more, p, a.due(p)[n - 1]);
    }
  }

  lemma {:induction false} OccurrencesAreSettled(a: Attempt, since: int, rows: seq<Row>, p: Programme, n: nat)
    requires p in a.programmes && n <= |a.due(p)|
    ensures OnlyAllowed(a, rows, AfterOccurrences(a, since, rows, p, n))
    ensures FirstAllSettled(a, since, AfterOccurrences(a, since, rows, p, n), p, n)
  {
    if n > 0 {
      var before, more := AfterOccurrences(a, since, rows, p, n - 1), AfterOccurrences(a, since, rows, p, n);
      var o := a.due(p)[n - 1];
      OccurrencesAreSettled(a, since, rows, p, n - 1);
      StepsAreSettled(a, since, before, p, o, |p.steps|);
      OnlyAllowedTwice(a, rows, before, more);
      FirstAllStaySettled(a, since, before, more, p, n - 1);
      FirstSettledAll(a, since, more, p, o, |p.steps|);
      assert p.steps[..|p.steps|] == p.steps;
    }
  }

  lemma {:induction false} FirstAllSettledAll(a: Attempt, since: int, rows: seq<Row>, p: Programme, n: nat)
    requires n <= |a.due(p)| && FirstAllSettled(a, since, rows, p, n)
    ensures forall o | o in a.due(p)[..n] :: AllSettled(a, since, rows, p, o)
  {
    if n > 0 {
      FirstAllSettledAll(a, since, rows, p, n - 1);
      assert a.due(p)[..n] == a.due(p)[..n - 1] + [a.due(p)[n - 1]];
    }
  }

  lemma {:induction false} ProgrammesAreSettled(a: Attempt, since: int, rows: seq<Row>, n: nat)
    requires n <= |a.programmes|
    ensures var more := AfterProgrammes(a, since, rows, n);
      && OnlyAllowed(a, rows, more)
      && forall k, o | 0 <= k < n && o in a.due(a.programmes[k]) :: AllSettled(a, since, more, a.programmes[k], o)
  {
    if n > 0 {
      var before, more := AfterProgrammes(a, since, rows, n - 1), AfterProgrammes(a, since, rows, n);
      var p := a.programmes[n - 1];
      ProgrammesAreSettled(a, since, rows, n - 1);
      OccurrencesAreSettled(a, since, before, p, |a.due(p)|);
      OnlyAllowedTwice(a, rows, before, more);
      FirstAllSettledAll(a, since, more, p, |a.due(p)|);
      assert a.due(p)[..|a.due(p)|] == a.due(p);
      forall k, o | 0 <= k < n && o in a.due(a.programmes[k]) ensures AllSettled(a, since, more, a.programmes[k], o) {
        if k < n - 1 { AllStaySettled(a, since, before, more, a.programmes[k], o); }
      }
    }
  }

  /**
   * What a run plans: only steps nothing stands against, and all of them, but for marketing to someone who has had a
   * message since the London day began.
   */
  lemma PlannedExactlyWhenAllowed(summer: int -> bool, a: Attempt, rows: seq<Row>)
    ensures var planned := rows + Plan(summer, a, rows);
      && OnlyAllowed(a, rows, planned)
      && forall p, o, step | InRun(a, p, o, step) ::
           Settled(a, StartOfLondonDay(summer, a.now), planned, p.id, o, step)
  {
    var since := StartOfLondonDay(summer, a.now);
    var planned := rows + Plan(summer, a, rows);
    ProgrammesAreSettled(a, since, rows, |a.programmes|);
    forall p, o, step | InRun(a, p, o, step) ensures Settled(a, since, planned, p.id, o, step) {
      var k :| 0 <= k < |a.programmes| && a.programmes[k] == p;
      assert AllSettled(a, since, planned, a.programmes[k], o);
    }
  }
}
