/**
 * Lifecycle messages (services/lifecycle-messaging): which steps a run sends, the daily marketing cap with its in-run
 * cache, and the London day it counts by. Instants are in seconds.
 */
module Lifecycle {
  import opened Common

  /** `LIFECYCLE_MESSAGING_DAILY_MARKETING_CAP`. */
  const DAILY_CAP: nat := 1
  const HOUR: nat := 3_600
  const DAY: nat := 86_400

  // ------------------------------------------------------------------------------------------
  // The London day
  // ------------------------------------------------------------------------------------------

  /**
   * London is one hour ahead in summer and changes its clocks at 01:00 UTC, so the offset is fixed by the day that
   * 01:00 falls in: `summer` says of each UTC day whether it is summer time from 01:00 on.
   */
  function Offset(summer: int -> bool, t: int): int {
    if summer((t - HOUR) / DAY) then HOUR else 0
  }

  /** The London calendar day of an instant, as a day number. */
  function LondonDay(summer: int -> bool, t: int): int {
    (t + Offset(summer, t)) / DAY
  }

  /** UTC midnight of the London date, less London's hour at that instant. */
  function StartOfLondonDay(summer: int -> bool, at: int): int {
    var utcMidnight := LondonDay(summer, at) * DAY;
    var offsetHours := ((utcMidnight + Offset(summer, utcMidnight)) % DAY) / HOUR;
    utcMidnight - offsetHours * HOUR
  }

  /** The instant so computed is exactly the first of the London day: an instant is that day or later from then on. */
  lemma StartIsTheFirstInstant(summer: int -> bool, at: int, t: int)
    ensures t >= StartOfLondonDay(summer, at) <==> LondonDay(summer, t) >= LondonDay(summer, at)
    ensures LondonDay(summer, StartOfLondonDay(summer, at)) == LondonDay(summer, at)
  {
    var d := LondonDay(summer, at);
    var midnight := d * DAY;
    assert (midnight - HOUR) / DAY == d - 1;
    assert (midnight + Offset(summer, midnight)) % DAY == Offset(summer, midnight);
    var start := StartOfLondonDay(summer, at);
    assert start == midnight - Offset(summer, midnight);
    assert (start - HOUR) / DAY == d - 1;
    if t < start && (t - HOUR) / DAY < d - 1 {
      assert t - HOUR < (d - 1) * DAY;
    }
  }

  /**
   * By the clock: `s` seconds after 01:00 UTC of a day, London is on that day until its midnight, 22 hours on in summer
   * and 23 in winter, and then on the next.
   */
  lemma LondonDayByTheClock(summer: int -> bool, day: int, s: nat)
    requires s < 86_400
    ensures LondonDay(summer, day * 86_400 + 3_600 + s)
         == if s < (if summer(day) then 79_200 else 82_800) then day else day + 1
  {
    var t := day * 86_400 + 3_600 + s;
    assert (t - HOUR) / DAY == day;
  }

  // ------------------------------------------------------------------------------------------
  // Steps and decisions
  // ------------------------------------------------------------------------------------------

  datatype Step = Step(key: string, delay: nat, marketing: bool)

  datatype Programme = Programme(id: string, steps: seq<Step>)

  datatype Occurrence = Occurrence(user: string, triggeredAt: int)

  /** The unique key of `programme_runs`. */
  datatype RunKey = RunKey(user: string, programme: string, step: string, triggeredAt: int)

  datatype Row = Row(key: RunKey, marketing: bool, at: int)

  datatype Skip = AlreadySent | Wait | NoEmail | Exited | CapReached | NotConsented

  datatype Decision = Send | Skipped(reason: Skip)

  /** What a run reads from outside: exits, addresses and marketing consent. */
  datatype World = World(exitedAt: (string, string) -> Option<int>, hasEmail: string -> bool, canMarket: (string, Step) -> bool)

  /** The checks of one step, in order; `sentToday` is the user's marketing count. */
  function Decide(w: World, programme: string, o: Occurrence, step: Step, now: int, alreadySent: bool, sentToday: nat): Decision {
    var exitedAt := w.exitedAt(programme, o.user);
    if alreadySent then Skipped(AlreadySent)
    else if now < o.triggeredAt + step.delay then Skipped(Wait)
    else if !w.hasEmail(o.user) then Skipped(NoEmail)
    else if exitedAt.Some? && o.triggeredAt <= exitedAt.value <= now then Skipped(Exited)
    else if step.marketing && sentToday >= DAILY_CAP then Skipped(CapReached)
    else if step.marketing && !w.canMarket(o.user, step) then Skipped(NotConsented)
    else Send
  }

  // ------------------------------------------------------------------------------------------
  // The stored runs
  // ------------------------------------------------------------------------------------------

  function KeyOf(programme: string, o: Occurrence, step: Step): RunKey {
    RunKey(o.user, programme, step.key, o.triggeredAt)
  }

  predicate Stored(rows: seq<Row>, key: RunKey) {
    exists r | r in rows :: r.key == key
  }

  ghost predicate UniqueKeys(rows: seq<Row>) {
    forall i, j | 0 <= i < j < |rows| :: rows[i].key != rows[j].key
  }

  /** Marketing rows of a user at or after `since`. */
  function MarketingSince(rows: seq<Row>, user: string, since: int): nat {
    if rows == [] then 0 else
      var last := rows[|rows| - 1];
      MarketingSince(rows[..|rows| - 1], user, since)
      + if last.marketing && last.key.user == user && last.at >= since then 1 else 0
  }

  /** Marketing rows of a user on one London day. */
  function MarketingOn(summer: int -> bool, rows: seq<Row>, user: string, day: int): nat {
    if rows == [] then 0 else
      var last := rows[|rows| - 1];
      MarketingOn(summer, rows[..|rows| - 1], user, day)
      + if last.marketing && last.key.user == user && LondonDay(summer, last.at) == day then 1 else 0
  }

  ghost predicate Capped(summer: int -> bool, rows: seq<Row>) {
    forall user, day :: MarketingOn(summer, rows, user, day) <= DAILY_CAP
  }

  /** A recount since the day's start misses no row of that day. */
  lemma {:induction false} RecountCoversTheDay(summer: int -> bool, rows: seq<Row>, user: string, now: int)
    ensures MarketingOn(summer, rows, user, LondonDay(summer, now))
         <= MarketingSince(rows, user, StartOfLondonDay(summer, now))
  {
    if rows != [] {
      RecountCoversTheDay(summer, rows[..|rows| - 1], user, now);
      StartIsTheFirstInstant(summer, now, rows[|rows| - 1].at);
    }
  }

  /** A row sent with room in the recount keeps every user's every day within the cap. */
  lemma RowKeepsTheCap(summer: int -> bool, rows: seq<Row>, row: Row)
    requires Capped(summer, rows)
    requires row.marketing ==> MarketingSince(rows, row.key.user, StartOfLondonDay(summer, row.at)) < DAILY_CAP
    ensures Capped(summer, rows + [row])
  {
    var after := rows + [row];
    assert after[..|rows|] == rows;
    RecountCoversTheDay(summer, rows, row.key.user, row.at);
    forall user, day ensures MarketingOn(summer, after, user, day) <= DAILY_CAP {
      assert MarketingOn(summer, rows, user, day) <= DAILY_CAP;
    }
  }

  lemma RowKeepsKeysUnique(rows: seq<Row>, row: Row)
    requires UniqueKeys(rows) && !Stored(rows, row.key)
    ensures UniqueKeys(rows + [row])
  {
    forall i | 0 <= i < |rows| ensures rows[i].key != row.key {
      assert rows[i] in rows;
    }
  }

  /** Every history whose rows each passed the recount when written keeps the cap on every day, in any clock order. */
  lemma {:induction false} GuardedHistoryIsCapped(summer: int -> bool, rows: seq<Row>)
    requires forall k | 0 <= k < |rows| :: rows[k].marketing ==>
               MarketingSince(rows[..k], rows[k].key.user, StartOfLondonDay(summer, rows[k].at)) < DAILY_CAP
    ensures Capped(summer, rows)
  {
    if rows != [] {
      var init, last := rows[..|rows| - 1], rows[|rows| - 1];
      forall k | 0 <= k < |init|
        ensures init[k].marketing ==>
          MarketingSince(init[..k], init[k].key.user, StartOfLondonDay(summer, init[k].at)) < DAILY_CAP
      {
        assert init[..k] == rows[..k] && init[k] == rows[k];
      }
      GuardedHistoryIsCapped(summer, init);
      RowKeepsTheCap(summer, init, last);
      assert init + [last] == rows;
    }
  }

  // ------------------------------------------------------------------------------------------
  // What a run plans
  // ------------------------------------------------------------------------------------------

  /**
   * How one send goes: through to its stored row, or thrown before its mail leaves (a query or the provider fails), or
   * thrown after (the answer is lost, the workflow record or the insert fails).
   */
  datatype Outcome = Fine | BeforeMail | AfterMail

  /** One run: what it reads, how its sends go in turn, and whether its transaction then commits. */
  datatype Attempt = Attempt(w: World, programmes: seq<Programme>, due: Programme -> seq<Occurrence>, now: int,
                             sends: nat -> Outcome, commits: bool)

  /** The stored runs after one step that goes well: a row more exactly when the step is due and nothing stops it. */
  function AfterStep(a: Attempt, since: int, rows: seq<Row>, programme: string, o: Occurrence, step: Step): seq<Row> {
    var key := KeyOf(programme, o, step);
    if Decide(a.w, programme, o, step, a.now, Stored(rows, key), MarketingSince(rows, o.user, since)).Send?
    then rows + [Row(key, step.marketing, a.now)]
    else rows
  }

  function AfterSteps(a: Attempt, since: int, rows: seq<Row>, p: Programme, o: Occurrence, n: nat): seq<Row>
    requires n <= |p.steps|
  {
    if n == 0 then rows else AfterStep(a, since, AfterSteps(a, since, rows, p, o, n - 1), p.id, o, p.steps[n - 1])
  }

  function AfterOccurrences(a: Attempt, since: int, rows: seq<Row>, p: Programme, n: nat): seq<Row>
    requires n <= |a.due(p)|
  {
    if n == 0 then rows
    else AfterSteps(a, since, AfterOccurrences(a, since, rows, p, n - 1), p, a.due(p)[n - 1], |p.steps|)
  }

  function AfterProgrammes(a: Attempt, since: int, rows: seq<Row>, n: nat): seq<Row>
    requires n <= |a.programmes|
  {
    if n == 0 then rows else
      var p := a.programmes[n - 1];
      AfterOccurrences(a, since, AfterProgrammes(a, since, rows, n - 1), p, |a.due(p)|)
  }

  /** No key twice, and the cap on every London day. */
  ghost predicate Sound(summer: int -> bool, rows: seq<Row>) {
    UniqueKeys(rows) && Capped(summer, rows)
  }

  /** Rows that only add to `rows`, and stay sound if those were written since the start of the day. */
  ghost predicate Grown(a: Attempt, since: int, rows: seq<Row>, more: seq<Row>) {
    && rows <= more
    && forall summer | since == StartOfLondonDay(summer, a.now) && Sound(summer, rows) :: Sound(summer, more)
  }

  lemma GrownTwice(a: Attempt, since: int, rows: seq<Row>, more: seq<Row>, most: seq<Row>)
    requires Grown(a, since, rows, more) && Grown(a, since, more, most)
    ensures Grown(a, since, rows, most)
  {
  }

  lemma StepGrows(a: Attempt, since: int, rows: seq<Row>, programme: string, o: Occurrence, step: Step)
    ensures Grown(a, since, rows, AfterStep(a, since, rows, programme, o, step))
  {
    var row := Row(KeyOf(programme, o, step), step.marketing, a.now);
    forall summer | since == StartOfLondonDay(summer, a.now) && Sound(summer, rows)
      ensures Sound(summer, AfterStep(a, since, rows, programme, o, step))
    {
      if AfterStep(a, since, rows, programme, o, step) != rows {
        RowKeepsTheCap(summer, rows, row);
        RowKeepsKeysUnique(rows, row);
      }
    }
  }

  lemma {:induction false} StepsGrow(a: Attempt, since: int, rows: seq<Row>, p: Programme, o: Occurrence, m: nat, n: nat)
    requires m <= n <= |p.steps|
    ensures Grown(a, since, AfterSteps(a, since, rows, p, o, m), AfterSteps(a, since, rows, p, o, n))
  {
    if m < n {
      var first, before := AfterSteps(a, since, rows, p, o, m), AfterSteps(a, since, rows, p, o, n - 1);
      StepsGrow(a, since, rows, p, o, m, n - 1);
      StepGrows(a, since, before, p.id, o, p.steps[n - 1]);
      GrownTwice(a, since, first, before, AfterSteps(a, since, rows, p, o, n));
    }
  }

  lemma {:induction false} OccurrencesGrow(a: Attempt, since: int, rows: seq<Row>, p: Programme, m: nat, n: nat)
    requires m <= n <= |a.due(p)|
    ensures Grown(a, since, AfterOccurrences(a, since, rows, p, m), AfterOccurrences(a, since, rows, p, n))
  {
    if m < n {
      var first, before := AfterOccurrences(a, since, rows, p, m), AfterOccurrences(a, since, rows, p, n - 1);
      OccurrencesGrow(a, since, rows, p, m, n - 1);
      StepsGrow(a, since, before, p, a.due(p)[n - 1], 0, |p.steps|);
      GrownTwice(a, since, first, before, AfterOccurrences(a, since, rows, p, n));
    }
  }

  lemma {:induction false} ProgrammesGrow(a: Attempt, since: int, rows: seq<Row>, m: nat, n: nat)
    requires m <= n <= |a.programmes|
    ensures Grown(a, since, AfterProgrammes(a, since, rows, m), AfterProgrammes(a, since, rows, n))
  {
    if m < n {
      var p := a.programmes[n - 1];
      var first, before := AfterProgrammes(a, since, rows, m), AfterProgrammes(a, since, rows, n - 1);
      ProgrammesGrow(a, since, rows, m, n - 1);
      OccurrencesGrow(a, since, before, p, 0, |a.due(p)|);
      GrownTwice(a, since, first, before, AfterProgrammes(a, since, rows, n));
    }
  }

  /** The rows a run adds if every send goes well. */
  function Plan(summer: int -> bool, a: Attempt, rows: seq<Row>): (added: seq<Row>)
    ensures AfterProgrammes(a, StartOfLondonDay(summer, a.now), rows, |a.programmes|) == rows + added
    ensures Sound(summer, rows) ==> Sound(summer, rows + added)
  {
    var since := StartOfLondonDay(summer, a.now);
    ProgrammesGrow(a, since, rows, 0, |a.programmes|);
    AfterProgrammes(a, since, rows, |a.programmes|)[|rows|..]
  }

  predicate AllFine(sends: nat -> Outcome, n: nat) {
    forall i: nat | i < n :: sends(i).Fine?
  }

  /** How many of `n` planned mails leave before the first send that throws, that one's own included if it left. */
  function Leaving(sends: nat -> Outcome, n: nat): (k: nat)
    ensures k <= n
  {
    if n == 0 then 0
    else if !AllFine(sends, n - 1) then Leaving(sends, n - 1)
    else if sends(n - 1).BeforeMail? then n - 1
    else n
  }

  /** The mails that leave, each named by the row it is to store. */
  function Mailed(sends: nat -> Outcome, added: seq<Row>): seq<Row> {
    added[..Leaving(sends, |added|)]
  }

  /** A send that threw ends the run there: what was planned after it makes no difference. */
  lemma {:induction false} BrokenStaysBroken(sends: nat -> Outcome, added: seq<Row>, more: seq<Row>)
    requires added <= more && !AllFine(sends, |added|)
    ensures !AllFine(sends, |more|) && Mailed(sends, more) == Mailed(sends, added)
  {
    if |added| < |more| {
      BrokenStaysBroken(sends, added, more[..|more| - 1]);
    }
  }

  // ------------------------------------------------------------------------------------------
  // A run
  // ------------------------------------------------------------------------------------------

  /** Counts of a run; `skipped` by reason. */
  datatype Result = Result(evaluated: nat, sent: nat, skipped: map<Skip, nat>)

  function CountOf(counts: map<Skip, nat>, reason: Skip): nat {
    if reason in counts then counts[reason] else 0
  }

  function Bump(counts: map<Skip, nat>, reason: Skip): map<Skip, nat> {
    counts[reason := CountOf(counts, reason) + 1]
  }

  function SkippedBy(counts: map<Skip, nat>, d: Decision): map<Skip, nat> {
    match d
    case Send => counts
    case Skipped(reason) => Bump(counts, reason)
  }

  function SkippedTotal(counts: map<Skip, nat>): nat {
    CountOf(counts, AlreadySent) + CountOf(counts, Wait) + CountOf(counts, NoEmail) + CountOf(counts, Exited)
    + CountOf(counts, CapReached) + CountOf(counts, NotConsented)
  }

  lemma BumpAddsOne(counts: map<Skip, nat>, reason: Skip)
    ensures SkippedTotal(Bump(counts, reason)) == SkippedTotal(counts) + 1
  {
    match reason
    case AlreadySent =>
    case Wait =>
    case NoEmail =>
    case Exited =>
    case CapReached =>
    case NotConsented =>
  }

  ghost predicate DistinctSteps(steps: seq<Step>) {
    forall i, j | 0 <= i < j < |steps| :: steps[i].key != steps[j].key
  }

  /** What outlasts runs: the committed rows and the mails that left. */
  datatype State = State(rows: seq<Row>, mails: seq<Row>)

  function Committed(summer: int -> bool, a: Attempt, rows: seq<Row>): bool {
    a.commits && AllFine(a.sends, |Plan(summer, a, rows)|)
  }

  /** A run that throws, or whose transaction fails, takes back its rows and none of its mails. */
  function AfterRun(summer: int -> bool, s: State, a: Attempt): State {
    var added := Plan(summer, a, s.rows);
    State(if Committed(summer, a, s.rows) then s.rows + added else s.rows, s.mails + Mailed(a.sends, added))
  }

  class Messenger {
    const summer: int -> bool
    /** The rows of every committed run, and the rows as the running transaction sees them. */
    var committed: seq<Row>
    var rows: seq<Row>
    /** The mails handed to the provider, each named by the row it is to store. */
    var mails: seq<Row>
    ghost var mailsBefore: seq<Row>
    /** The first instant of the run's London day. */
    var dayStart: int
    /** `marketingSentToday`, alive for one run. */
    var cache: map<string, nat>
    var result: Result

    ghost predicate Valid()
      reads this
    {
      Sound(summer, committed)
    }

    /** Each cached count is what a recount would give. */
    ghost predicate CacheTrue()
      reads this
    {
      forall user | user in cache :: cache[user] == MarketingSince(rows, user, dayStart)
    }

    ghost predicate Balanced()
      reads this
    {
      result.evaluated == result.sent + SkippedTotal(result.skipped)
    }

    /** The run stands where `planned` says, or a send on the way there threw and it is over. */
    ghost predicate At(a: Attempt, planned: seq<Row>, broken: bool)
      reads this
    {
      && committed <= planned
      && mails == mailsBefore + Mailed(a.sends, planned[|committed|..])
      && broken == !AllFine(a.sends, |planned| - |committed|)
      && (!broken ==> rows == planned && result.sent == |planned| - |committed| && CacheTrue() && Balanced())
    }

    constructor (summer: int -> bool)
      ensures Valid() && committed == mails == [] && this.summer == summer
    {
      this.summer := summer;
      committed, rows, mails, mailsBefore, dayStart, cache, result := [], [], [], [], 0, map[], Result(0, 0, map[]);
    }

    method MarketingCountToday(user: string) returns (count: nat)
      requires CacheTrue()
      modifies this`cache
      ensures CacheTrue() && count == MarketingSince(rows, user, dayStart)
      ensures user in cache
    {
      if user in cache { return cache[user]; }
      count := MarketingSince(rows, user, dayStart);
      cache := cache[user := count];
    }

    /** Sends one due step, stores its row and moves the cached count with it; either call may throw. */
    method SendStep(a: Attempt, row: Row) returns (broken: bool)
      requires committed <= rows && result.sent == |rows| - |committed| && AllFine(a.sends, result.sent)
      requires mails == mailsBefore + rows[|committed|..] && CacheTrue() && row.at >= dayStart
      requires row.marketing ==> row.key.user in cache
      requires result.evaluated == result.sent + SkippedTotal(result.skipped) + 1
      modifies this`rows, this`mails, this`cache, this`result
      ensures At(a, old(rows) + [row], broken)
      ensures result.evaluated == old(result.evaluated) && result.skipped == old(result.skipped)
    {
      ghost var added := rows[|committed|..] + [row];
      assert (rows + [row])[|committed|..] == added;
      var outcome := a.sends(result.sent);
      if outcome.BeforeMail? {
        assert Mailed(a.sends, added) == rows[|committed|..];
        return true;
      }
      mails := mails + [row];
      assert Mailed(a.sends, added) == added;
      if outcome.AfterMail? { return true; }
      rows := rows + [row];
      assert rows[..|rows| - 1] == old(rows);
      if row.marketing { cache := cache[row.key.user := cache[row.key.user] + 1]; }
      result := result.(sent := result.sent + 1);
      broken := false;
    }

    method SkipStep(reason: Skip)
      requires result.evaluated == result.sent + SkippedTotal(result.skipped) + 1
      modifies this`result
      ensures Balanced() && result == old(result).(skipped := Bump(old(result.skipped), reason))
    {
      BumpAddsOne(result.skipped, reason);
      result := result.(skipped := Bump(result.skipped, reason));
    }

    /** One step of one occurrence: sent exactly when `Decide` says so, and counted either way. */
    method EvaluateStep(a: Attempt, programme: string, o: Occurrence, step: Step, alreadySent: bool) returns (broken: bool)
      requires At(a, rows, false) && a.now >= dayStart && alreadySent == Stored(rows, KeyOf(programme, o, step))
      modifies this`rows, this`mails, this`cache, this`result
      ensures At(a, AfterStep(a, dayStart, old(rows), programme, o, step), broken)
      ensures result.evaluated == old(result.evaluated) + 1
      ensures result.skipped == SkippedBy(old(result.skipped),
                Decide(a.w, programme, o, step, a.now, alreadySent, MarketingSince(old(rows), o.user, dayStart)))
    {
      result := result.(evaluated := result.evaluated + 1);
      if alreadySent { SkipStep(AlreadySent); return false; }
      if a.now < o.triggeredAt + step.delay { SkipStep(Wait); return false; }
      if !a.w.hasEmail(o.user) { SkipStep(NoEmail); return false; }
      broken := SendIfAllowed(a, programme, o, step);
    }

    /** A due step with an address: the daily count is read only for marketing. */
    method SendIfAllowed(a: Attempt, programme: string, o: Occurrence, step: Step) returns (broken: bool)
      requires committed <= rows && mails == mailsBefore + Mailed(a.sends, rows[|committed|..])
      requires result.sent == |rows| - |committed| && AllFine(a.sends, result.sent) && CacheTrue() && a.now >= dayStart
      requires result.evaluated == result.sent + SkippedTotal(result.skipped) + 1
      requires !Stored(rows, KeyOf(programme, o, step)) && a.now >= o.triggeredAt + step.delay && a.w.hasEmail(o.user)
      modifies this`rows, this`mails, this`cache, this`result
      ensures At(a, AfterStep(a, dayStart, old(rows), programme, o, step), broken)
      ensures result.evaluated == old(result.evaluated)
      ensures result.skipped == SkippedBy(old(result.skipped),
                Decide(a.w, programme, o, step, a.now, false, MarketingSince(old(rows), o.user, dayStart)))
    {
      MailedWhole(a.sends, rows[|committed|..]);
      var sentToday := 0;
      if step.marketing { sentToday := MarketingCountToday(o.user); }
      var decision := Decide(a.w, programme, o, step, a.now, false, sentToday);
      if decision.Skipped? { SkipStep(decision.reason); return false; }
      broken := SendStep(a, Row(KeyOf(programme, o, step), step.marketing, a.now));
    }

    /** A run that broke on the way has also broken on the way to anything further. */
    ghost method StayBroken(a: Attempt, planned: seq<Row>, more: seq<Row>)
      requires At(a, planned, true) && Grown(a, dayStart, planned, more)
      ensures At(a, more, true)
    {
      BrokenStaysBroken(a.sends, planned[|committed|..], more[|committed|..]);
    }

    /** One occurrence; what was already sent is read once, before its steps. */
    method RunOccurrence(a: Attempt, p: Programme, o: Occurrence) returns (broken: bool)
      requires At(a, rows, false) && a.now >= dayStart && DistinctSteps(p.steps)
      modifies this`rows, this`mails, this`cache, this`result
      ensures At(a, AfterSteps(a, dayStart, old(rows), p, o, |p.steps|), broken)
    {
      var before, i := rows, 0;
      broken := false;
      assert AfterSteps(a, dayStart, before, p, o, 0) == before;
      while i < |p.steps| && !broken
        invariant i <= |p.steps| && At(a, AfterSteps(a, dayStart, before, p, o, i), broken)
        invariant broken || SameSent(before, rows, p, o, i)
      {
        broken := RunStep(a, p, o, i, before);
        i := i + 1;
      }
      if broken { StepsStayBroken(a, before, p, o, i); }
    }

    ghost method StepsStayBroken(a: Attempt, before: seq<Row>, p: Programme, o: Occurrence, i: nat)
      requires i <= |p.steps| && At(a, AfterSteps(a, dayStart, before, p, o, i), true)
      ensures At(a, AfterSteps(a, dayStart, before, p, o, |p.steps|), true)
    {
      StepsGrow(a, dayStart, before, p, o, i, |p.steps|);
      StayBroken(a, AfterSteps(a, dayStart, before, p, o, i), AfterSteps(a, dayStart, before, p, o, |p.steps|));
    }

    method RunStep(a: Attempt, p: Programme, o: Occurrence, i: nat, before: seq<Row>) returns (broken: bool)
      requires i < |p.steps| && DistinctSteps(p.steps) && SameSent(before, rows, p, o, i)
      requires At(a, AfterSteps(a, dayStart, before, p, o, i), false) && a.now >= dayStart
      modifies this`rows, this`mails, this`cache, this`result
      ensures At(a, AfterSteps(a, dayStart, before, p, o, i + 1), broken)
      ensures !broken ==> SameSent(before, rows, p, o, i + 1)
    {
      StepKeepsSent(a, dayStart, before, rows, p, o, i);
      broken := EvaluateStep(a, p.id, o, p.steps[i], Stored(before, KeyOf(p.id, o, p.steps[i])));
    }

    method RunProgramme(a: Attempt, p: Programme) returns (broken: bool)
      requires At(a, rows, false) && a.now >= dayStart && DistinctSteps(p.steps)
      modifies this`rows, this`mails, this`cache, this`result
      ensures At(a, AfterOccurrences(a, dayStart, old(rows), p, |a.due(p)|), broken)
    {
      ghost var before := rows;
      var i := 0;
      broken := false;
      while i < |a.due(p)| && !broken
        invariant i <= |a.due(p)| && At(a, AfterOccurrences(a, dayStart, before, p, i), broken)
      {
        broken := RunOccurrence(a, p, a.due(p)[i]);
        i := i + 1;
      }
      if broken {
        OccurrencesGrow(a, dayStart, before, p, i, |a.due(p)|);
        StayBroken(a, AfterOccurrences(a, dayStart, before, p, i), AfterOccurrences(a, dayStart, before, p, |a.due(p)|));
      }
    }

    /** The programmes in turn, until a send throws. */
    method RunProgrammes(a: Attempt) returns (broken: bool)
      requires At(a, rows, false) && rows == committed && a.now >= dayStart
      requires forall p | p in a.programmes :: DistinctSteps(p.steps)
      modifies this`rows, this`mails, this`cache, this`result
      ensures At(a, AfterProgrammes(a, dayStart, committed, |a.programmes|), broken)
    {
      var i := 0;
      broken := false;
      while i < |a.programmes| && !broken
        invariant i <= |a.programmes| && At(a, AfterProgrammes(a, dayStart, committed, i), broken)
      {
        broken := RunProgramme(a, a.programmes[i]);
        i := i + 1;
      }
      if broken {
        ProgrammesGrow(a, dayStart, committed, i, |a.programmes|);
        StayBroken(a, AfterProgrammes(a, dayStart, committed, i), AfterProgrammes(a, dayStart, committed, |a.programmes|));
      }
    }

    /** The whole run in its transaction: it commits every row it planned or none of them. */
    method Run(a: Attempt) returns (ok: bool)
      requires Valid() && forall p | p in a.programmes :: DistinctSteps(p.steps)
      modifies this
      ensures Valid() && ok == Committed(summer, a, old(committed))
      ensures State(committed, mails) == AfterRun(summer, State(old(committed), old(mails)), a)
      ensures ok ==> CacheTrue() && Balanced() && result.sent == |committed| - |old(committed)|
    {
      ghost var added := Plan(summer, a, committed);
      StartIsTheFirstInstant(summer, a.now, a.now);
      rows, mailsBefore, cache, result := committed, mails, map[], Result(0, 0, map[]);
      dayStart := StartOfLondonDay(summer, a.now);
      var broken := RunProgrammes(a);
      assert (committed + added)[|committed|..] == added;
      if broken || !a.commits {
        rows := committed;
        return false;
      }
      committed, ok := rows, true;
    }
  }

  lemma {:induction false} MailedWhole(sends: nat -> Outcome, added: seq<Row>)
    requires AllFine(sends, |added|)
    ensures Mailed(sends, added) == added
  {
  }

  /** Of the steps from `i` on, those sent are still those sent `before` the occurrence's steps. */
  ghost predicate SameSent(before: seq<Row>, rows: seq<Row>, p: Programme, o: Occurrence, i: nat) {
    forall k {:trigger p.steps[k]} | i <= k < |p.steps| ::
      Stored(rows, KeyOf(p.id, o, p.steps[k])) <==> Stored(before, KeyOf(p.id, o, p.steps[k]))
  }

  lemma StepKeepsSent(a: Attempt, since: int, before: seq<Row>, rows: seq<Row>, p: Programme, o: Occurrence, i: nat)
    requires i < |p.steps| && DistinctSteps(p.steps) && SameSent(before, rows, p, o, i)
    ensures SameSent(before, AfterStep(a, since, rows, p.id, o, p.steps[i]), p, o, i + 1)
  {
    var after := AfterStep(a, since, rows, p.id, o, p.steps[i]);
    assert forall r | r in rows :: r in after;
    forall k | i < k < |p.steps|
      ensures Stored(after, KeyOf(p.id, o, p.steps[k])) <==> Stored(before, KeyOf(p.id, o, p.steps[k]))
    {
      assert p.steps[i].key != p.steps[k].key;
      assert Stored(rows, KeyOf(p.id, o, p.steps[k])) <==> Stored(before, KeyOf(p.id, o, p.steps[k]));
    }
  }

  // ------------------------------------------------------------------------------------------
  // Any sequence of runs
  // ------------------------------------------------------------------------------------------

  function AfterRuns(summer: int -> bool, runs: seq<Attempt>): State {
    if runs == [] then State([], []) else AfterRun(summer, AfterRuns(summer, runs[..|runs| - 1]), runs[|runs| - 1])
  }

  /** The mails of the runs that did not commit. */
  function Lost(summer: int -> bool, runs: seq<Attempt>): seq<Row> {
    if runs == [] then [] else
      var rows, last := AfterRuns(summer, runs[..|runs| - 1]).rows, runs[|runs| - 1];
      Lost(summer, runs[..|runs| - 1])
      + if Committed(summer, last, rows) then [] else Mailed(last.sends, Plan(summer, last, rows))
  }

  function Times(rows: seq<Row>, key: RunKey): nat {
    if rows == [] then 0 else
      Times(rows[..|rows| - 1], key) + if rows[|rows| - 1].key == key then 1 else 0
  }

  lemma {:induction false} TimesAppend(xs: seq<Row>, ys: seq<Row>, key: RunKey)
    ensures Times(xs + ys, key) == Times(xs, key) + Times(ys, key)
  {
    if ys == [] {
      assert xs + ys == xs;
    } else {
      TimesAppend(xs, ys[..|ys| - 1], key);
      assert (xs + ys)[..|xs + ys| - 1] == xs + ys[..|ys| - 1];
    }
  }

  lemma {:induction false} MarketingAppends(summer: int -> bool, xs: seq<Row>, ys: seq<Row>, user: string, day: int)
    ensures MarketingOn(summer, xs + ys, user, day) == MarketingOn(summer, xs, user, day) + MarketingOn(summer, ys, user, day)
  {
    if ys == [] {
      assert xs + ys == xs;
    } else {
      MarketingAppends(summer, xs, ys[..|ys| - 1], user, day);
      assert (xs + ys)[..|xs + ys| - 1] == xs + ys[..|ys| - 1];
    }
  }

  /** In rows of unique keys a key is there once or not at all. */
  lemma {:induction false} UniqueTimes(rows: seq<Row>, key: RunKey)
    requires UniqueKeys(rows)
    ensures Times(rows, key) == if Stored(rows, key) then 1 else 0
  {
    if rows != [] {
      var init, last := rows[..|rows| - 1], rows[|rows| - 1];
      UniqueTimes(init, key);
      if last.key == key {
        assert last in rows && forall r | r in init :: r.key != key;
      } else if Stored(rows, key) {
        var r :| r in rows && r.key == key;
        assert r in init;
      }
    }
  }

  /** Over any runs, broken or not, the stored rows hold no key twice and keep the cap on every London day. */
  lemma {:induction false} RunsKeepSound(summer: int -> bool, runs: seq<Attempt>)
    ensures Sound(summer, AfterRuns(summer, runs).rows)
  {
    if runs != [] {
      RunsKeepSound(summer, runs[..|runs| - 1]);
    } else {
      assert forall user, day :: MarketingOn(summer, [], user, day) == 0;
    }
  }

  /** Every mail that ever left is a stored row or was lost with its run: for each key, and each user's each day. */
  lemma {:induction false} MailsAreStoredOrLost(summer: int -> bool, runs: seq<Attempt>, key: RunKey, user: string, day: int)
    ensures var s := AfterRuns(summer, runs);
      && Times(s.mails, key) == Times(s.rows, key) + Times(Lost(summer, runs), key)
      && MarketingOn(summer, s.mails, user, day)
         == MarketingOn(summer, s.rows, user, day) + MarketingOn(summer, Lost(summer, runs), user, day)
  {
    if runs != [] {
      var init, last := runs[..|runs| - 1], runs[|runs| - 1];
      MailsAreStoredOrLost(summer, init, key, user, day);
      var s := AfterRuns(summer, init);
      var added := Plan(summer, last, s.rows);
      var left := Mailed(last.sends, added);
      TimesAppend(s.mails, left, key);
      MarketingAppends(summer, s.mails, left, user, day);
      if Committed(summer, last, s.rows) {
        MailedWhole(last.sends, added);
        TimesAppend(s.rows, added, key);
        MarketingAppends(summer, s.rows, added, user, day);
        assert Lost(summer, init) + [] == Lost(summer, init);
      } else {
        TimesAppend(Lost(summer, init), left, key);
        MarketingAppends(summer, Lost(summer, init), left, user, day);
      }
    }
  }

  /** So a key is mailed twice exactly when the runs that did not commit mailed it twice, or once beside its stored row. */
  lemma MailedTwiceExactly(summer: int -> bool, runs: seq<Attempt>, key: RunKey)
    ensures var s, lost := AfterRuns(summer, runs), Times(Lost(summer, runs), key);
      Times(s.mails, key) >= 2 <==> lost >= 2 || (lost == 1 && Stored(s.rows, key))
  {
    MailsAreStoredOrLost(summer, runs, key, key.user, 0);
    RunsKeepSound(summer, runs);
    UniqueTimes(AfterRuns(summer, runs).rows, key);
  }

  /** With no marketing mail lost, a user's marketing mails of a day are the stored ones, within the cap. */
  lemma CapHoldsForMailsNotLost(summer: int -> bool, runs: seq<Attempt>, user: string, day: int)
    ensures var s, lost := AfterRuns(summer, runs), MarketingOn(summer, Lost(summer, runs), user, day);
      && MarketingOn(summer, s.rows, user, day) <= DAILY_CAP
      && MarketingOn(summer, s.mails, user, day) == MarketingOn(summer, s.rows, user, day) + lost
  {
    MailsAreStoredOrLost(summer, runs, RunKey(user, "", "", 0), user, day);
    RunsKeepSound(summer, runs);
  }

  lemma {:induction false} StoredRowsAreNotPlanned(summer: int -> bool, a: Attempt, rows: seq<Row>, key: RunKey)
    requires Sound(summer, rows) && Stored(rows, key)
    ensures !Stored(Plan(summer, a, rows), key)
  {
    var added := Plan(summer, a, rows);
    TimesAppend(rows, added, key);
    UniqueTimes(rows, key);
    UniqueTimes(rows + added, key);
    forall i, j | 0 <= i < j < |added| ensures added[i].key != added[j].key {
      assert (rows + added)[|rows| + i].key != (rows + added)[|rows| + j].key;
    }
    UniqueTimes(added, key);
  }

  lemma StoredStaysUnmailed(summer: int -> bool, s: State, a: Attempt, key: RunKey)
    requires Sound(summer, s.rows) && Stored(s.rows, key)
    ensures Stored(AfterRun(summer, s, a).rows, key)
    ensures Times(AfterRun(summer, s, a).mails, key) == Times(s.mails, key)
  {
    var left := Mailed(a.sends, Plan(summer, a, s.rows));
    StoredRowsAreNotPlanned(summer, a, s.rows, key);
    NotStoredNoTimes(left, key);
    TimesAppend(s.mails, left, key);
    var r :| r in s.rows && r.key == key;
    assert r in AfterRun(summer, s, a).rows;
  }

  /** Once a run that mailed a key commits, no later run ever mails it, however the runs between end. */
  lemma {:induction false} StoredIsNeverMailedAgain(summer: int -> bool, runs: seq<Attempt>, n: nat, key: RunKey)
    requires n <= |runs| && Stored(AfterRuns(summer, runs[..n]).rows, key)
    ensures Stored(AfterRuns(summer, runs).rows, key)
    ensures Times(AfterRuns(summer, runs).mails, key) == Times(AfterRuns(summer, runs[..n]).mails, key)
  {
    if n == |runs| {
      assert runs[..n] == runs;
    } else {
      var init := runs[..|runs| - 1];
      assert init[..n] == runs[..n];
      StoredIsNeverMailedAgain(summer, init, n, key);
      RunsKeepSound(summer, init);
      StoredStaysUnmailed(summer, AfterRuns(summer, init), runs[|runs| - 1], key);
    }
  }

  lemma OneMoreRun(summer: int -> bool, runs: seq<Attempt>, a: Attempt)
    ensures AfterRuns(summer, runs + [a]) == AfterRun(summer, AfterRuns(summer, runs), a)
  {
    assert (runs + [a])[..|runs|] == runs;
  }

  lemma {:induction false} NotStoredNoTimes(rows: seq<Row>, key: RunKey)
    requires forall r | r in rows :: r.key != key
    ensures Times(rows, key) == 0
  {
    if rows != [] {
      NotStoredNoTimes(rows[..|rows| - 1], key);
    }
  }

  /**
   * A run mailed a key, and another follows it that on its own would mail that key too: it does so exactly when the
   * first one did not commit.
   */
  lemma MailedAgainExactlyWhenLost(summer: int -> bool, runs: seq<Attempt>, run: Attempt, next: Attempt, key: RunKey)
    requires var rows := AfterRuns(summer, runs).rows;
      && Stored(Mailed(run.sends, Plan(summer, run, rows)), key)
      && Stored(Mailed(next.sends, Plan(summer, next, rows)), key)
    ensures var rows := AfterRuns(summer, runs).rows;
      Stored(Mailed(next.sends, Plan(summer, next, AfterRun(summer, AfterRuns(summer, runs), run).rows)), key)
      <==> !Committed(summer, run, rows)
  {
    var s := AfterRuns(summer, runs);
    RunsKeepSound(summer, runs);
    if Committed(summer, run, s.rows) {
      var r :| r in Mailed(run.sends, Plan(summer, run, s.rows)) && r.key == key;
      assert r in AfterRun(summer, s, run).rows;
      StoredRowsAreNotPlanned(summer, next, s.rows + Plan(summer, run, s.rows), key);
    }
  }

  /**
   * The same for the cap: two runs that on their own each mail a user marketing on one London day, none lost before.
   * Together they go over the cap exactly when the first did not commit.
   */
  lemma OverTheCapExactlyWhenLost(summer: int -> bool, runs: seq<Attempt>, run: Attempt, next: Attempt, user: string, day: int)
    requires MarketingOn(summer, Lost(summer, runs), user, day) == 0
    requires var rows := AfterRuns(summer, runs).rows;
      && MarketingOn(summer, Mailed(run.sends, Plan(summer, run, rows)), user, day) > 0
      && MarketingOn(summer, Mailed(next.sends, Plan(summer, next, rows)), user, day) > 0
    ensures MarketingOn(summer, AfterRuns(summer, runs + [run, next]).mails, user, day) > DAILY_CAP
       <==> !Committed(summer, run, AfterRuns(summer, runs).rows)
  {
    var s := AfterRuns(summer, runs);
    RunsKeepSound(summer, runs);
    assert runs + [run, next] == runs + [run] + [next];
    OneMoreRun(summer, runs, run);
    OneMoreRun(summer, runs + [run], next);
    MailsAreStoredOrLost(summer, runs, RunKey(user, "", "", 0), user, day);
    var t := AfterRun(summer, s, run);
    var first, second := Mailed(run.sends, Plan(summer, run, s.rows)), Mailed(next.sends, Plan(summer, next, t.rows));
    MarketingAppends(summer, s.mails, first, user, day);
    MarketingAppends(summer, t.mails, second, user, day);
    if Committed(summer, run, s.rows) {
      MailedWhole(run.sends, Plan(summer, run, s.rows));
      MarketingAppends(summer, s.rows, first, user, day);
      MailedWithinTheCap(summer, next, t.rows, user, day);
    }
  }

  /** On top of sound rows a run mails no one past the cap, whether it commits or not. */
  lemma MailedWithinTheCap(summer: int -> bool, a: Attempt, rows: seq<Row>, user: string, day: int)
    requires Sound(summer, rows)
    ensures MarketingOn(summer, rows, user, day)
          + MarketingOn(summer, Mailed(a.sends, Plan(summer, a, rows)), user, day) <= DAILY_CAP
  {
    var added := Plan(summer, a, rows);
    var left := Mailed(a.sends, added);
    assert added == left + added[|left|..];
    MarketingAppends(summer, left, added[|left|..], user, day);
    MarketingAppends(summer, rows, added, user, day);
    assert MarketingOn(summer, rows + added, user, day) <= DAILY_CAP;
  }

  /**
   * Two users due the same marketing step: the first is mailed, the second's send throws, the run rolls back, and the
   * run five minutes later mails the first one again, twice that day under a cap of one.
   */
  lemma TwoMailsInADay(summer: int -> bool) returns (first: Attempt, second: Attempt)
    ensures !AllFine(first.sends, 2) && first.commits && second.commits && AllFine(second.sends, 2)
    ensures var s := AfterRuns(summer, [first, second]);
      && s.rows == [Row(RunKey("a", "trial", "offer", 0), true, 300), Row(RunKey("b", "trial", "offer", 0), true, 300)]
      && s.mails == [Row(RunKey("a", "trial", "offer", 0), true, 0)] + s.rows
      && LondonDay(summer, 0) == LondonDay(summer, 300)
      && MarketingOn(summer, s.mails, "a", LondonDay(summer, 0)) == 2
  {
    var step := Step("offer", 0, true);
    var p := Programme("trial", [step]);
    var w := World((x, y) => None, x => true, (x, y) => true);
    var due := [Occurrence("a", 0), Occurrence("b", 0)];
    first := Attempt(w, [p], x => due, 0, n => if n == 1 then BeforeMail else Fine, true);
    second := Attempt(w, [p], x => due, 300, n => Fine, true);
    BothAreDue(summer, first, p, step, due);
    BothAreDue(summer, second, p, step, due);
    SecondSendThrows(summer, first, second);
    TwoOnTheDay(summer);
  }

  lemma SecondSendThrows(summer: int -> bool, first: Attempt, second: Attempt)
    requires |Plan(summer, first, [])| == 2 && first.sends(0).Fine? && first.sends(1).BeforeMail?
    requires Committed(summer, second, [])
    ensures var again := Plan(summer, second, []);
      AfterRuns(summer, [first, second]) == State(again, [Plan(summer, first, [])[0]] + again)
  {
    var planned, again := Plan(summer, first, []), Plan(summer, second, []);
    OneMoreRun(summer, [], first);
    OneMoreRun(summer, [first], second);
    assert [] + [first] == [first];
    assert [first] + [second] == [first, second];
    assert Leaving(first.sends, 2) == 1 && !AllFine(first.sends, 2);
    assert AfterRun(summer, State([], []), first) == State([], [planned[0]]) by {
      assert planned[..1] == [planned[0]];
    }
    MailedWhole(second.sends, again);
    assert [] + again == again;
  }

  lemma TwoOnTheDay(summer: int -> bool)
    ensures LondonDay(summer, 0) == LondonDay(summer, 300)
    ensures MarketingOn(summer, [Row(RunKey("a", "trial", "offer", 0), true, 0)]
                                + [Row(RunKey("a", "trial", "offer", 0), true, 300),
                                   Row(RunKey("b", "trial", "offer", 0), true, 300)],
                        "a", LondonDay(summer, 0)) == 2
  {
    var r0, ra, rb := Row(RunKey("a", "trial", "offer", 0), true, 0), Row(RunKey("a", "trial", "offer", 0), true, 300),
      Row(RunKey("b", "trial", "offer", 0), true, 300);
    assert (0 - HOUR) / DAY == -1 && (300 - HOUR) / DAY == -1;
    assert [r0][..0] == [] && [r0, ra][..1] == [r0] && [r0, ra, rb][..2] == [r0, ra] && [r0] + [ra, rb] == [r0, ra, rb];
    assert MarketingOn(summer, [r0], "a", LondonDay(summer, 0)) == 1;
  }

  lemma BothAreDue(summer: int -> bool, a: Attempt, p: Programme, step: Step, due: seq<Occurrence>)
    requires step == Step("offer", 0, true) && p == Programme("trial", [step])
    requires due == [Occurrence("a", 0), Occurrence("b", 0)] && a.programmes == [p] && a.due(p) == due && a.now >= 0
    requires a.w.exitedAt("trial", "a").None? && a.w.exitedAt("trial", "b").None?
    requires a.w.hasEmail("a") && a.w.hasEmail("b") && a.w.canMarket("a", step) && a.w.canMarket("b", step)
    ensures Plan(summer, a, [])
         == [Row(RunKey("a", "trial", "offer", 0), true, a.now), Row(RunKey("b", "trial", "offer", 0), true, a.now)]
  {
    var ra, rb := Row(RunKey("a", "trial", "offer", 0), true, a.now), Row(RunKey("b", "trial", "offer", 0), true, a.now);
    var since := StartOfLondonDay(summer, a.now);
    OfferIsDue(a, since, [], step, "a");
    assert [ra][..0] == [] && MarketingSince([ra], "b", since) == 0;
    OfferIsDue(a, since, [ra], step, "b");
    OneStep(a, since, [], p, due[0]);
    OneStep(a, since, [ra], p, due[1]);
    assert [] + [ra] == [ra] && [ra] + [rb] == [ra, rb];
    assert AfterOccurrences(a, since, [], p, 0) == [] && AfterOccurrences(a, since, [], p, 1) == [ra];
    assert AfterOccurrences(a, since, [], p, 2) == [ra, rb];
    assert AfterProgrammes(a, since, [], 0) == [];
    assert AfterProgrammes(a, since, [], 1) == [ra, rb];
  }

  lemma OneStep(a: Attempt, since: int, rows: seq<Row>, p: Programme, o: Occurrence)
    requires |p.steps| == 1
    ensures AfterSteps(a, since, rows, p, o, |p.steps|) == AfterStep(a, since, rows, p.id, o, p.steps[0])
  {
    assert AfterSteps(a, since, rows, p, o, 0) == rows;
  }

  lemma OfferIsDue(a: Attempt, since: int, rows: seq<Row>, step: Step, user: string)
    requires step == Step("offer", 0, true) && a.now >= 0 && MarketingSince(rows, user, since) == 0
    requires a.w.exitedAt("trial", user).None? && a.w.hasEmail(user) && a.w.canMarket(user, step)
    requires !Stored(rows, RunKey(user, "trial", "offer", 0))
    ensures AfterStep(a, since, rows, "trial", Occurrence(user, 0), step)
         == rows + [Row(RunKey(user, "trial", "offer", 0), true, a.now)]
  {
  }
}
