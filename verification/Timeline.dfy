/**
 * The pricing console's version timeline (services/pricing-console, `write`): each policy row's versions, when each takes
 * effect, and the row in force at an instant. Changes may be scheduled, and clocks may disagree in commit order.
 */
module Timeline {
  import opened Common
  import opened JsonEquality

  datatype Version = Version(version: nat, value: Json, retired: bool, target: Option<string>, effectiveAt: int)

  datatype Kind = SettingRow | TierRow | PriceRow | BundleRow | OfferRow | FreeTierRow | CostBasisRow

  datatype Change = Set(value: Json, effectiveAt: Option<int>) | Retire

  /**
   * `now` is the transaction's time, `breaches` says the change would newly sell below the floor, and `dates` is what
   * parsing a timestamp gives.
   */
  datatype Env = Env(off: bool, now: int, breaches: bool, dates: string -> int)

  /** A text property of a value. */
  function TextIn(value: Json, key: string): Option<string> {
    if value.Object? && key in value.fields && value.fields[key].Text? then Some(value.fields[key].s) else None
  }

  /** Whom a row is for: an offer's own user, if it has one; everyone otherwise. */
  function TargetOf(kind: Kind, value: Json): Option<string> {
    if kind.OfferRow? then TextIn(value, "userId") else None
  }

  /** An offer set after its own end. */
  predicate Ended(kind: Kind, c: Change, env: Env) {
    && kind.OfferRow? && c.Set? && TextIn(c.value, "endsAt").Some?
    && env.dates(TextIn(c.value, "endsAt").value) <= env.now
  }

  datatype Code = Off | Invalid | NotInTable | BelowFloor

  datatype Decision = Refuse(code: Code) | Same | Append(v: Version)

  function Last(rows: seq<Version>): Option<Version> {
    if rows == [] then None else Some(rows[|rows| - 1])
  }

  /** The latest version's time while it has not come yet. */
  function Scheduled(rows: seq<Version>, now: int): Option<int> {
    if rows != [] && rows[|rows| - 1].effectiveAt > now then Some(rows[|rows| - 1].effectiveAt) else None
  }

  function TakesEffectAt(rows: seq<Version>, now: int, asked: Option<int>): int {
    match asked
    case Some(at) => at
    case None => match Scheduled(rows, now) case Some(at) => at case None => now
  }

  function AskedTime(c: Change): Option<int> {
    if c.Set? then c.effectiveAt else None
  }

  /** Every check of `write`, in order. */
  function Decide(kind: Kind, rows: seq<Version>, c: Change, env: Env): Decision {
    var latest, asked := Last(rows), AskedTime(c);
    var at, scheduled := TakesEffectAt(rows, env.now, asked), Scheduled(rows, env.now);
    if env.off then Refuse(Off)
    else if asked.Some? && asked.value < env.now then Refuse(Invalid)
    else if Ended(kind, c, env) then Refuse(Invalid)
    else if c.Retire? && latest.None? then Refuse(NotInTable)
    else if latest.Some? && latest.value.retired == c.Retire? && (c.Retire? || SameJson(latest.value.value, c.value)) then Same
    else if scheduled.Some? && at < scheduled.value then Refuse(Invalid)
    else if kind.OfferRow? && c.Set? && latest.Some? && TargetOf(kind, c.value) != latest.value.target then Refuse(Invalid)
    else if env.breaches then Refuse(BelowFloor)
    else
      var stored := if c.Set? then c.value else latest.value.value;
      Append(Version(|rows| + 1, stored, c.Retire?, TargetOf(kind, stored), at))
  }

  function Written(kind: Kind, rows: seq<Version>, c: Change, env: Env): seq<Version> {
    match Decide(kind, rows, c, env)
    case Append(v) => rows + [v]
    case _ => rows
  }

  // ------------------------------------------------------------------------------------------
  // How a write ends
  // ------------------------------------------------------------------------------------------

  predicate AsksForThePast(c: Change, env: Env) {
    c.Set? && c.effectiveAt.Some? && c.effectiveAt.value < env.now
  }

  /** A set of an offer whose own end has come. */
  predicate OfferIsOver(kind: Kind, c: Change, env: Env) {
    && kind.OfferRow? && c.Set? && c.value.Object? && "endsAt" in c.value.fields && c.value.fields["endsAt"].Text?
    && env.dates(c.value.fields["endsAt"].s) <= env.now
  }

  predicate SaysTheSame(rows: seq<Version>, c: Change) {
    && rows != []
    && match c
       case Set(value, _) => !rows[|rows| - 1].retired && SameJson(rows[|rows| - 1].value, value)
       case Retire => rows[|rows| - 1].retired
  }

  /** A time asked for before that of a version still to come. */
  predicate BeforeTheScheduled(rows: seq<Version>, c: Change, env: Env) {
    && rows != [] && rows[|rows| - 1].effectiveAt > env.now
    && c.Set? && c.effectiveAt.Some? && c.effectiveAt.value < rows[|rows| - 1].effectiveAt
  }

  predicate IsFor(kind: Kind, value: Json, target: Option<string>) {
    if kind.OfferRow? && value.Object? && "userId" in value.fields && value.fields["userId"].Text?
    then target == Some(value.fields["userId"].s) else target.None?
  }

  /** An offer set for another user than its versions are for. */
  predicate MovesTheOffer(kind: Kind, rows: seq<Version>, c: Change) {
    kind.OfferRow? && c.Set? && rows != [] && !IsFor(kind, c.value, rows[|rows| - 1].target)
  }

  /** Each answer a write can get, by the request, the clock and the last version alone. */
  lemma WriteEndsExactly(kind: Kind, rows: seq<Version>, c: Change, env: Env)
    ensures var d := Decide(kind, rows, c, env);
      var asked := !env.off && !AsksForThePast(c, env) && !OfferIsOver(kind, c, env);
      var fits := asked && !(c.Retire? && rows == []) && !SaysTheSame(rows, c);
      var allowed := fits && !BeforeTheScheduled(rows, c, env) && !MovesTheOffer(kind, rows, c);
      && (d == Refuse(Off) <==> env.off)
      && (d == Refuse(Invalid) <==> !env.off && (!asked || (fits && !allowed)))
      && (d == Refuse(NotInTable) <==> asked && c.Retire? && rows == [])
      && (d == Same <==> asked && SaysTheSame(rows, c))
      && (d == Refuse(BelowFloor) <==> allowed && env.breaches)
      && (d.Append? <==> allowed && !env.breaches)
  {
  }

  /** What a write appends: the next version, in effect when asked, else with the scheduled one, else at once. */
  lemma AppendedIsAsAsked(kind: Kind, rows: seq<Version>, c: Change, env: Env)
    requires Decide(kind, rows, c, env).Append?
    ensures var v := Decide(kind, rows, c, env).v;
      && v.version == |rows| + 1 && v.retired == c.Retire? && (c.Retire? ==> rows != [])
      && v.value == (if c.Set? then c.value else rows[|rows| - 1].value) && IsFor(kind, v.value, v.target)
      && v.effectiveAt
         == (if c.Set? && c.effectiveAt.Some? then c.effectiveAt.value
             else if rows != [] && rows[|rows| - 1].effectiveAt > env.now then rows[|rows| - 1].effectiveAt
             else env.now)
  {
  }

  // ------------------------------------------------------------------------------------------
  // What the request schemas let through
  // ------------------------------------------------------------------------------------------

  /** The form of each kind's value: the keys its strict object names. */
  function ShapeOf(kind: Kind): (shape: Shape)
    ensures NamesNoPrototype(shape)
  {
    match kind
    case SettingRow => StrictOf(["value"])
    case TierRow => StrictOf(["baseCadenceMinutes", "floorCadenceMinutes", "bundledCredits", "monthlyPriceMinor",
      "yearlyPriceMinor", "topupGrossMicrosPerCredit", "topupNetMicrosPerCredit", "areas", "wants", "roundTheClock"])
    case PriceRow => Either(
      StrictOf(["unit", "credits", "costBasis", "costUnits"]), StrictOf(["unit", "credits", "cadenceMinutes"]))
    case BundleRow => StrictOf(["tier", "grossMinor", "discountBps"])
    case OfferRow => StrictOf(["userId", "segment", "item", "discountBps", "startsAt", "endsAt"])
    case FreeTierRow =>
      var scalars := StrictOf(["wantCount", "windowCount", "windowMinutes", "resetHours", "lifetimeCapPence",
        "userWeekCapPence", "userMonthCapPence", "poolDayFloorPence", "poolRevenueShareBps", "poolWeekPence",
        "poolMonthPence", "signupsPerIpDay", "signupsPerDeviceDay", "signupsPerEmailDomainDay", "accountDayCapPence"]);
      Strict(scalars.keys["bursts" := List(List(StrictOf(["cadenceMinutes", "minutes"])))])
    case CostBasisRow => StrictOf(["provider", "module", "fallbackGbpMicros", "windowDays", "minSamples"])
  }

  /** A strict object of scalars. */
  function StrictOf(names: seq<string>): (shape: Shape)
    requires forall i | 0 <= i < |names| :: names[i] != PROTO
    ensures shape.Strict? && PROTO !in shape.keys && NamesNoPrototype(shape)
  {
    Strict(map name | name in names :: Scalar)
  }

  /** Every stored value has its kind's form. */
  ghost predicate AllFit(kind: Kind, rows: seq<Version>) {
    forall i | 0 <= i < |rows| :: Fits(ShapeOf(kind), rows[i].value)
  }

  /** A set whose value came through its schema, or a retirement. */
  predicate Admitted(kind: Kind, c: Change) {
    c.Set? ==> Fits(ShapeOf(kind), c.value)
  }

  lemma WriteKeepsForm(kind: Kind, rows: seq<Version>, c: Change, env: Env)
    requires AllFit(kind, rows) && Admitted(kind, c)
    ensures AllFit(kind, Written(kind, rows, c, env))
  {
  }

  predicate Retirable(kind: Kind) {
    kind.TierRow? || kind.PriceRow? || kind.BundleRow? || kind.OfferRow?
  }

  /** What the caller is told: whether a version was written, or why not. */
  function Answer(d: Decision): Result<bool, Code> {
    match d
    case Refuse(code) => Err(code)
    case Same => Ok(false)
    case Append(_) => Ok(true)
  }

  class PolicyTable {
    /** Versions by (kind, key), oldest first. */
    var rows: map<(Kind, string), seq<Version>>

    ghost predicate Valid()
      reads this
    {
      forall policy | policy in rows :: AllFit(policy.0, rows[policy])
    }

    constructor ()
      ensures rows == map[] && Valid()
    {
      rows := map[];
    }

    function VersionsOf(policy: (Kind, string)): seq<Version>
      reads this
    {
      if policy in rows then rows[policy] else []
    }

    method WritePolicy(policy: (Kind, string), c: Change, env: Env) returns (r: Result<bool, Code>)
      modifies this
      ensures VersionsOf(policy) == Written(policy.0, old(VersionsOf(policy)), c, env)
      ensures rows == if r == Ok(true) then old(rows)[policy := VersionsOf(policy)] else old(rows)
      ensures r == Answer(Decide(policy.0, old(VersionsOf(policy)), c, env))
      ensures old(Valid()) && Admitted(policy.0, c) ==> Valid()
    {
      var versions := VersionsOf(policy);
      if env.off { return Err(Off); }
      var asked := AskedTime(c);
      if asked.Some? && asked.value < env.now { return Err(Invalid); }
      if Ended(policy.0, c, env) { return Err(Invalid); }
      var latest := Last(versions);
      if c.Retire? && latest.None? { return Err(NotInTable); }
      if latest.Some? && latest.value.retired == c.Retire? && (c.Retire? || SameJson(latest.value.value, c.value)) {
        return Ok(false);
      }
      var scheduled := Scheduled(versions, env.now);
      var at := TakesEffectAt(versions, env.now, asked);
      if scheduled.Some? && at < scheduled.value { return Err(Invalid); }
      if policy.0.OfferRow? && c.Set? && latest.Some? && TargetOf(policy.0, c.value) != latest.value.target { return Err(Invalid); }
      if env.breaches { return Err(BelowFloor); }
      var stored := if c.Set? then c.value else latest.value.value;
      var target := TargetOf(policy.0, stored);
      rows := rows[policy := versions + [Version(|versions| + 1, stored, c.Retire?, target, at)]];
      r := Ok(true);
    }

    /** `setPolicy`: a value that does not fit its kind's schema is refused before anything else. */
    method SetPolicy(policy: (Kind, string), c: Change, env: Env) returns (r: Result<bool, Code>)
      requires Valid() && c.Set?
      modifies this
      ensures Valid() && rows == if r == Ok(true) then old(rows)[policy := VersionsOf(policy)] else old(rows)
      ensures r == if Admitted(policy.0, c) then Answer(Decide(policy.0, old(VersionsOf(policy)), c, env)) else Err(Invalid)
      ensures r == Ok(true) ==> VersionsOf(policy) == Written(policy.0, old(VersionsOf(policy)), c, env)
      ensures r == Ok(false) ==> Current(old(VersionsOf(policy)), c.value)
    {
      if !Admitted(policy.0, c) { return Err(Invalid); }
      ghost var versions := VersionsOf(policy);
      r := WritePolicy(policy, c, env);
      if r == Ok(false) { SameExactlyWhenCurrent(policy.0, versions, c, env); }
    }

    /** `retirePolicy`: only tiers, prices, bundles and offers can be withdrawn. */
    method RetirePolicy(policy: (Kind, string), env: Env) returns (r: Result<bool, Code>)
      requires Valid()
      modifies this
      ensures Valid() && rows == if r == Ok(true) then old(rows)[policy := VersionsOf(policy)] else old(rows)
      ensures r == if policy.0 in {TierRow, PriceRow, BundleRow, OfferRow}
                   then Answer(Decide(policy.0, old(VersionsOf(policy)), Retire, env)) else Err(Invalid)
      ensures r == Ok(true) ==> VersionsOf(policy) == Written(policy.0, old(VersionsOf(policy)), Retire, env)
    {
      if !Retirable(policy.0) { return Err(Invalid); }
      r := WritePolicy(policy, Retire, env);
    }
  }

  // ------------------------------------------------------------------------------------------
  // The timeline
  // ------------------------------------------------------------------------------------------

  /** Versions count from one without gaps, and none takes effect before the one it follows. */
  ghost predicate IsTimeline(rows: seq<Version>) {
    && (forall i | 0 <= i < |rows| :: rows[i].version == i + 1)
    && (forall i, j | 0 <= i < j < |rows| :: rows[i].effectiveAt <= rows[j].effectiveAt)
  }

  /** The row a read at `t` takes: the highest version whose time has come. */
  function InForce(rows: seq<Version>, t: int): Option<nat> {
    if rows == [] then None
    else if rows[|rows| - 1].effectiveAt <= t then Some(|rows| - 1)
    else InForce(rows[..|rows| - 1], t)
  }

  /** On a timeline that is the last version to have taken effect: every version up to it has, and none after it. */
  lemma {:induction false} InForceIsTheLastToTakeEffect(rows: seq<Version>, t: int)
    requires IsTimeline(rows)
    ensures var at := InForce(rows, t);
      && (at.Some? ==> at.value < |rows|)
      && forall i | 0 <= i < |rows| :: rows[i].effectiveAt <= t <==> at.Some? && i <= at.value
  {
    if rows != [] { InForceIsTheLastToTakeEffect(rows[..|rows| - 1], t); }
  }

  /** Every write keeps the timeline, whatever its clock. */
  lemma WriteKeepsTheTimeline(kind: Kind, rows: seq<Version>, c: Change, env: Env)
    requires IsTimeline(rows)
    ensures IsTimeline(Written(kind, rows, c, env)) && rows <= Written(kind, rows, c, env)
  {
    var d := Decide(kind, rows, c, env);
    if d.Append? {
      forall i | 0 <= i < |rows| ensures rows[i].effectiveAt <= d.v.effectiveAt {
        assert i < |rows| - 1 ==> rows[i].effectiveAt <= rows[|rows| - 1].effectiveAt;
      }
    }
  }

  /** What a write changes is exactly the instants from its version's own time on, which is not before its transaction's. */
  lemma WriteChangesFromItsTimeOn(kind: Kind, rows: seq<Version>, c: Change, env: Env, t: int)
    ensures InForce(Written(kind, rows, c, env), t) == InForce(rows, t)
       <==> !(Decide(kind, rows, c, env).Append? && Decide(kind, rows, c, env).v.effectiveAt <= t)
    ensures Decide(kind, rows, c, env).Append? ==> env.now <= Decide(kind, rows, c, env).v.effectiveAt
  {
    var d := Decide(kind, rows, c, env);
    InForceIsEarlier(rows, t);
    if d.Append? { assert (rows + [d.v])[..|rows|] == rows; }
  }

  /** The version just written is in force from its own time on, until another follows. */
  lemma WrittenIsInForceFromItsTime(kind: Kind, rows: seq<Version>, c: Change, env: Env, t: int)
    requires Decide(kind, rows, c, env).Append?
    ensures InForce(Written(kind, rows, c, env), t) == Some(|rows|) <==> t >= Decide(kind, rows, c, env).v.effectiveAt
  {
    var d := Decide(kind, rows, c, env);
    assert (rows + [d.v])[..|rows|] == rows;
    if t < d.v.effectiveAt { InForceIsEarlier(rows, t); }
  }

  lemma {:induction false} InForceIsEarlier(rows: seq<Version>, t: int)
    ensures InForce(rows, t).Some? ==> InForce(rows, t).value < |rows|
  {
    if rows != [] { InForceIsEarlier(rows[..|rows| - 1], t); }
  }

  /** A write, and the instant its transaction commits: it may wait for the lock and for the floor check in between. */
  datatype Write = Write(c: Change, env: Env, committedAt: int)

  function After(kind: Kind, rows: seq<Version>, writes: seq<Write>): seq<Version> {
    if writes == [] then rows
    else Written(kind, After(kind, rows, writes[..|writes| - 1]), writes[|writes| - 1].c, writes[|writes| - 1].env)
  }

  /** Over any sequence of sets and retirements the versions stay a timeline, and only grow. */
  lemma {:induction false} RunKeepsTheTimeline(kind: Kind, rows: seq<Version>, writes: seq<Write>)
    requires IsTimeline(rows)
    ensures IsTimeline(After(kind, rows, writes)) && rows <= After(kind, rows, writes)
  {
    if writes != [] {
      var init, last := writes[..|writes| - 1], writes[|writes| - 1];
      RunKeepsTheTimeline(kind, rows, init);
      WriteKeepsTheTimeline(kind, After(kind, rows, init), last.c, last.env);
    }
  }

  /** The lock is held until the commit, so writes commit in the order they are decided, none before its own start. */
  ghost predicate CommitOrder(writes: seq<Write>) {
    && (forall w | w in writes :: w.env.now <= w.committedAt)
    && (forall i, j | 0 <= i < j < |writes| :: writes[i].committedAt <= writes[j].committedAt)
  }

  /** What a read at `t` sees: the writes committed by then. */
  function SeenAt(writes: seq<Write>, t: int): seq<Write> {
    if writes == [] then []
    else if writes[|writes| - 1].committedAt <= t then writes
    else SeenAt(writes[..|writes| - 1], t)
  }

  lemma {:induction false} SeenAtIsShort(writes: seq<Write>, t: int)
    ensures SeenAt(writes, t) <= writes
  {
    if writes != [] && writes[|writes| - 1].committedAt > t { SeenAtIsShort(writes[..|writes| - 1], t); }
  }

  /** In commit order those are a prefix: exactly the writes committed by then. */
  lemma {:induction false} SeenAreCommitted(writes: seq<Write>, t: int, i: nat)
    requires CommitOrder(writes) && i < |writes|
    ensures i < |SeenAt(writes, t)| <==> writes[i].committedAt <= t
  {
    if writes[|writes| - 1].committedAt > t {
      var init := writes[..|writes| - 1];
      assert forall w | w in init :: w in writes;
      if i < |init| { SeenAreCommitted(init, t, i); } else { SeenAtIsShort(init, t); }
    }
  }

  /** Version `i` takes effect by `t`, and the write that adds it commits only after `t`. */
  ghost predicate AppearsLate(kind: Kind, start: seq<Version>, writes: seq<Write>, t: int, i: nat) {
    |After(kind, start, SeenAt(writes, t))| <= i < |After(kind, start, writes)| && After(kind, start, writes)[i].effectiveAt <= t
  }

  lemma {:induction false} SeenIsPrefix(kind: Kind, start: seq<Version>, writes: seq<Write>, t: int)
    requires IsTimeline(start)
    ensures IsTimeline(After(kind, start, writes)) && After(kind, start, SeenAt(writes, t)) <= After(kind, start, writes)
  {
    RunKeepsTheTimeline(kind, start, writes);
    if writes != [] && writes[|writes| - 1].committedAt > t {
      var init, last := writes[..|writes| - 1], writes[|writes| - 1];
      SeenIsPrefix(kind, start, init, t);
      WriteKeepsTheTimeline(kind, After(kind, start, init), last.c, last.env);
    }
  }

  /** Versions added to a timeline leave what is in force at `t` exactly when none of them takes effect by then. */
  lemma AddedChangesExactly(rows: seq<Version>, more: seq<Version>, t: int)
    requires IsTimeline(more) && rows <= more
    ensures InForce(more, t) == InForce(rows, t) <==> forall i | |rows| <= i < |more| :: more[i].effectiveAt > t
  {
    InForceIsTheLastToTakeEffect(more, t);
    InForceIsTheLastToTakeEffect(rows, t);
    var before, after := InForce(rows, t), InForce(more, t);
    assert before.Some? ==> more[before.value].effectiveAt <= t;
    if after.Some? && after.value < |rows| { assert rows[after.value].effectiveAt <= t; }
  }

  /**
   * A read is never contradicted later unless a version appears late: what was read at `t` is what the whole history
   * says of `t` exactly when no version taking effect by `t` is committed after it.
   */
  lemma ReadStandsExactly(kind: Kind, start: seq<Version>, writes: seq<Write>, t: int)
    requires IsTimeline(start)
    ensures InForce(After(kind, start, writes), t) == InForce(After(kind, start, SeenAt(writes, t)), t)
       <==> forall i: nat :: !AppearsLate(kind, start, writes, t, i)
  {
    SeenIsPrefix(kind, start, writes, t);
    var seen, all := After(kind, start, SeenAt(writes, t)), After(kind, start, writes);
    AddedChangesExactly(seen, all, t);
    if i :| |seen| <= i < |all| && all[i].effectiveAt <= t { assert AppearsLate(kind, start, writes, t, i); }
  }

  /** So it stands unless some write had begun by then and had not committed yet. */
  lemma {:induction false} ThePastNeverChanges(kind: Kind, start: seq<Version>, writes: seq<Write>, t: int)
    requires forall w | w in writes :: !(w.env.now <= t < w.committedAt)
    ensures InForce(After(kind, start, writes), t) == InForce(After(kind, start, SeenAt(writes, t)), t)
  {
    if writes != [] && writes[|writes| - 1].committedAt > t {
      var init, last := writes[..|writes| - 1], writes[|writes| - 1];
      assert last in writes && forall w | w in init :: w in writes;
      ThePastNeverChanges(kind, start, init, t);
      WriteChangesFromItsTimeOn(kind, After(kind, start, init), last.c, last.env, t);
    }
  }

  /** And it need not stand then: begun at 0, committed at 2, the first version is in force at 1, when none was read. */
  lemma ReadBeforeTheCommit(value: Json, dates: string -> int)
    ensures var w := Write(Set(value, None), Env(false, 0, false, dates), 2);
      && CommitOrder([w])
      && InForce(After(PriceRow, [], SeenAt([w], 1)), 1) == None && InForce(After(PriceRow, [], [w]), 1) == Some(0)
  {
    var w := Write(Set(value, None), Env(false, 0, false, dates), 2);
    assert [w][..0] == [];
    assert After(PriceRow, [], [w]) == [Version(1, value, false, None, 0)];
  }

  /** Every row is for whom its own stored value says, and all versions of a policy for the same. */
  ghost predicate OneTarget(kind: Kind, rows: seq<Version>) {
    && (forall i | 0 <= i < |rows| :: rows[i].target == TargetOf(kind, rows[i].value))
    && (forall i, j | 0 <= i < j < |rows| :: rows[i].target == rows[j].target)
  }

  lemma WriteKeepsTheTarget(kind: Kind, rows: seq<Version>, c: Change, env: Env)
    requires OneTarget(kind, rows)
    ensures OneTarget(kind, Written(kind, rows, c, env))
  {
    var d := Decide(kind, rows, c, env);
    if d.Append? {
      forall i | 0 <= i < |rows| ensures rows[i].target == d.v.target {
        assert i < |rows| - 1 ==> rows[i].target == rows[|rows| - 1].target;
      }
    }
  }

  /** Over any writes an offer stays with the user its value names, or with its segment. */
  lemma {:induction false} OfferKeepsItsTarget(kind: Kind, rows: seq<Version>, writes: seq<Write>)
    requires OneTarget(kind, rows)
    ensures OneTarget(kind, After(kind, rows, writes))
  {
    if writes != [] {
      var init, last := writes[..|writes| - 1], writes[|writes| - 1];
      OfferKeepsItsTarget(kind, rows, init);
      WriteKeepsTheTarget(kind, After(kind, rows, init), last.c, last.env);
    }
  }

  /** An offer for another user than the one it was made for is refused, whatever else it says. */
  lemma AnotherUserIsRefused(rows: seq<Version>, c: Change, env: Env)
    requires rows != [] && OneTarget(OfferRow, rows) && AllFit(OfferRow, rows) && c.Set?
    requires TextIn(c.value, "userId") != TextIn(rows[|rows| - 1].value, "userId")
    ensures Decide(OfferRow, rows, c, env).Refuse?
  {
    var value := rows[|rows| - 1].value;
    FittingIsNotPoisoned(ShapeOf(OfferRow), value);
    SameJsonIsEquality(value, c.value);
  }

  // ------------------------------------------------------------------------------------------
  // Saying the same again
  // ------------------------------------------------------------------------------------------

  /** Setting what the last version already says, at any later time, writes nothing. */
  lemma SettingAgainWritesNothing(kind: Kind, rows: seq<Version>, c: Change, env: Env, again: Env)
    requires Decide(kind, rows, c, env).Append? && !again.off
    requires AskedTime(c).Some? ==> AskedTime(c).value >= again.now
    requires !Ended(kind, c, again)
    ensures Decide(kind, Written(kind, rows, c, env), c, again) == Same
  {
    if c.Set? { SameJsonReflexive(c.value); }
  }

  /** The last version stands, with this value. */
  predicate Current(rows: seq<Version>, value: Json) {
    rows != [] && !rows[|rows| - 1].retired && rows[|rows| - 1].value == value
  }

  /** On values that came through their schemas, a set that reaches the comparison is the same exactly when it is current. */
  lemma SameExactlyWhenCurrent(kind: Kind, rows: seq<Version>, c: Change, env: Env)
    requires AllFit(kind, rows) && c.Set? && !env.off
    requires AskedTime(c).Some? ==> AskedTime(c).value >= env.now
    requires !Ended(kind, c, env)
    ensures Decide(kind, rows, c, env) == Same <==> Current(rows, c.value)
  {
    if rows != [] {
      FittingIsNotPoisoned(ShapeOf(kind), rows[|rows| - 1].value);
      SameJsonIsEquality(rows[|rows| - 1].value, c.value);
    }
  }

  /** Over any run of admitted writes to one policy every stored value keeps its form, and so "unchanged" means equal. */
  lemma {:induction false} UnchangedMeansEqual(kind: Kind, start: seq<Version>, writes: seq<Write>, c: Change, env: Env)
    requires AllFit(kind, start) && forall w | w in writes :: Admitted(kind, w.c)
    ensures AllFit(kind, After(kind, start, writes))
    ensures c.Set? && Decide(kind, After(kind, start, writes), c, env) == Same ==> Current(After(kind, start, writes), c.value)
  {
    var rows := After(kind, start, writes);
    if writes != [] {
      var init, last := writes[..|writes| - 1], writes[|writes| - 1];
      assert last in writes && forall w | w in init :: w in writes;
      UnchangedMeansEqual(kind, start, init, c, env);
      WriteKeepsForm(kind, After(kind, start, init), last.c, last.env);
    }
    if c.Set? && Decide(kind, rows, c, env) == Same { SameExactlyWhenCurrent(kind, rows, c, env); }
  }
}
